/** `LR0Automaton.toString`: the parse table of a built automaton, or the
    conflict that makes the grammar not LR(0). */
module Lr0Table {
  import opened Util
  import opened GrammarNodes
  import opened Lr0Items
  import opened Lr0Automaton

  /** Why the table cannot be printed: `mapping[start]!!` finds no number, a
      `LR0ConflictFound` of the given kind, or the "Detected ambiguity"
      assertion. */
  datatype Failure = NoStartNumber | Conflict(kind: string) | Ambiguity

  /** The printed table: the start's number, the numbered states, the two
      header lines and one line per numbered state. */
  datatype Report = Report(start: nat, listing: seq<State>, header: string, rule: string, rows: seq<string>)

  /** `mapping`: the non-empty states in recording order; a state's number is
      its index in this list. */
  function Numbered(states: seq<State>): (r: seq<State>)
    ensures forall v :: v in r <==> v in states && v.items != {}
    ensures Distinct(states) ==> Distinct(r)
  {
    if states == [] then []
    else
      var rest := Numbered(states[1..]);
      assert states == [states[0]] + states[1..];
      if states[0].items != {} then [states[0]] + rest else rest
  }

  /** `mapping[v]`. */
  function Number(numbered: seq<State>, v: State): (r: Option<nat>)
    ensures r.Some? <==> v in numbered
    ensures r.Some? ==> r.value < |numbered| && numbered[r.value] == v
  {
    var i := IndexOf(numbered, v);
    if i < 0 then None else Some(i)
  }

  /** `mappedEdges[u][x]`: the targets of the edges from `u` on `x`, in
      recording order. */
  function Targets(edges: seq<Edge>, u: State, x: Symbol): (r: seq<State>)
  {
    if edges == [] then []
    else
      var rest := Targets(edges[..|edges| - 1], u, x);
      var e := edges[|edges| - 1];
      if e.from == u && e.symbol == x then rest + [e.to] else rest
  }

  /** The items of `u` with the dot at the end. */
  function Complete(u: State): (r: set<Item>)
    ensures forall i :: i in r <==> i in u.items && i.pointer == |i.production.to|
  {
    set i | i in u.items && i.pointer == |i.production.to|
  }

  /** `reduceActions.first()`: the position in the augmented grammar of the
      production of the one complete item, if there is one. */
  ghost function Reduction(prods: seq<Production>, u: State): (r: Option<int>)
    requires |Complete(u)| <= 1
    ensures r.None? <==> Complete(u) == {}
  {
    if Complete(u) == {} then None
    else var i :| i in Complete(u); Some(IndexOf(prods, i.production))
  }

  /** One cell of the table: the entry of state `u` for column `x`. */
  function Cell(numbered: seq<State>, edges: seq<Edge>, u: State, x: Symbol, reduce: Option<int>): Result<string, Failure>
  {
    var to := Targets(edges, u, x);
    if |to| >= 2 then Failure(Ambiguity)
    else if to == [] then Success("")
    else
      match Number(numbered, to[0])
      case None => Success("")
      case Some(k) =>
        if x.Terminal? && reduce.None? then Success(if x == EOF then "acc" else "s(" + NatToString(k) + ")")
        else if x.Terminal? then Failure(Conflict("shift-reduce"))
        else if reduce.Some? then Success("r(" + IntToString(reduce.value) + ")")
        else Success(NatToString(k))
  }

  /** The cells of `u` for the columns `xs`, or the first failure among them. */
  function Cells(numbered: seq<State>, edges: seq<Edge>, u: State, xs: seq<Symbol>, reduce: Option<int>): (r: Result<seq<string>, Failure>)
    ensures r.Success? ==> |r.value| == |xs|
  {
    if xs == [] then Success([])
    else
      match Cell(numbered, edges, u, xs[0], reduce)
      case Failure(f) => Failure(f)
      case Success(c) =>
        match Cells(numbered, edges, u, xs[1..], reduce)
        case Failure(f) => Failure(f)
        case Success(cs) => Success([c] + cs)
  }

  /** The line of state `u`, numbered `index`: a reduce-reduce conflict when
      more than one item is complete, otherwise `index |` and the cells
      joined by ` | `. */
  ghost function Row(a: Automaton, numbered: seq<State>, index: nat, u: State): Result<string, Failure>
  {
    if |Complete(u)| > 1 then Failure(Conflict("reduce-reduce"))
    else
      match Cells(numbered, a.edges, u, a.symbols, Reduction(a.grammar.productions, u))
      case Failure(f) => Failure(f)
      case Success(cells) => Success(NatToString(index) + " |" + Join(cells, " | "))
  }

  /** The lines of the numbered states from `k` on, or the first failure. */
  ghost function Rows(a: Automaton, numbered: seq<State>, k: nat): (r: Result<seq<string>, Failure>)
    requires k <= |numbered|
    ensures r.Success? ==> |r.value| == |numbered| - k
    decreases |numbered| - k
  {
    if k == |numbered| then Success([])
    else
      match Row(a, numbered, k, numbered[k])
      case Failure(f) => Failure(f)
      case Success(line) =>
        match Rows(a, numbered, k + 1)
        case Failure(f) => Failure(f)
        case Success(lines) => Success([line] + lines)
  }

  function SymbolTexts(xs: seq<Symbol>): (r: seq<string>)
    ensures |r| == |xs|
  {
    if xs == [] then [] else [xs[0].text] + SymbolTexts(xs[1..])
  }

  function Blanks(n: nat): (r: seq<string>)
    ensures |r| == n
  {
    if n == 0 then [] else [""] + Blanks(n - 1)
  }

  /** The column header `-|a|B|...`. */
  function Header(symbols: seq<Symbol>): string {
    "-|" + Join(SymbolTexts(symbols), "|")
  }

  /** The ruler under the header, one `-|-` between two columns. */
  function Rule(symbols: seq<Symbol>): string {
    "-|" + Join(Blanks(|symbols|), "-|-")
  }

  /** `toString`. */
  ghost function Table(a: Automaton): Result<Report, Failure>
  {
    var numbered := Numbered(a.states);
    match Number(numbered, a.start)
    case None => Failure(NoStartNumber)
    case Some(s) =>
      match Rows(a, numbered, 0)
      case Failure(f) => Failure(f)
      case Success(rows) => Success(Report(s, numbered, Header(a.symbols), Rule(a.symbols), rows))
  }

  /** The start state comes first among the numbered states. */
  lemma StartNumberedFirst(a: Automaton)
    requires Built(a)
    ensures |Numbered(a.states)| > 0 && Numbered(a.states)[0] == a.start
    ensures Number(Numbered(a.states), a.start) == Some(0)
  {
    assert a.states == [a.states[0]] + a.states[1..];
    assert a.start.items != {};
  }

  /** The start state is numbered 0, and every numbered state's number is its
      position among the non-empty states. */
  lemma StartNumberedZero(a: Automaton)
    requires Built(a)
    ensures Number(Numbered(a.states), a.start) == Some(0)
    ensures forall k :: 0 <= k < |Numbered(a.states)| ==>
              Number(Numbered(a.states), Numbered(a.states)[k]) == Some(k)
  {
    var numbered := Numbered(a.states);
    StartNumberedFirst(a);
    forall k | 0 <= k < |numbered| ensures Number(numbered, numbered[k]) == Some(k) {
      var r := Number(numbered, numbered[k]);
      assert numbered[r.value] == numbered[k];
    }
  }

  /** When every edge from `u` on `x` goes to `t` and edges are distinct,
      there is at most one target. */
  lemma {:induction false} TargetsSingle(edges: seq<Edge>, u: State, x: Symbol, t: State)
    requires Distinct(edges)
    requires forall e :: e in edges && e.from == u && e.symbol == x ==> e.to == t
    ensures Targets(edges, u, x) == if Edge(u, x, t) in edges then [t] else []
    decreases |edges|
  {
    if edges != [] {
      var front := edges[..|edges| - 1];
      var e := edges[|edges| - 1];
      assert edges == front + [e];
      assert Distinct(front);
      TargetsSingle(front, u, x, t);
      if e.from == u && e.symbol == x {
        assert e == Edge(u, x, t);
        assert e !in front;
      }
    }
  }

  /** In a built automaton the edges from a state on a column symbol lead to
      exactly one target, its `goto` state, so the ambiguity assertion never
      fires. */
  lemma TargetsOfBuilt(a: Automaton)
    requires Built(a)
    ensures forall u :: u in a.states ==> Steps(a, u)
  {
    forall u, x | u in a.states && x in a.symbols
      ensures Targets(a.edges, u, x) == [Successor(a.grammar.productions, u, x)]
      ensures Successor(a.grammar.productions, u, x) in a.states
    {
      assert Finished(a.grammar.productions, a.symbols, a.states, a.edges, u);
      TargetsSingle(a.edges, u, x, Successor(a.grammar.productions, u, x));
    }
  }

  /** Every column of `u` has exactly one edge, to the recorded `goto` state. */
  predicate Steps(a: Automaton, u: State) {
    forall x :: x in a.symbols ==>
      Targets(a.edges, u, x) == [Successor(a.grammar.productions, u, x)]
      && Successor(a.grammar.productions, u, x) in a.states
  }

  /** The cell of a built automaton read off the `goto` function: empty when
      `goto` gives the empty state; on a terminal `acc` for `$` and `s(k)`
      otherwise, unless a reduction is due, which is a shift-reduce conflict;
      on a non-terminal the reduction `r(p)` if one is due and the number of
      the `goto` state otherwise. */
  lemma CellOfBuilt(a: Automaton, numbered: seq<State>, u: State, x: Symbol, reduce: Option<int>)
    requires Numbering(a, numbered)
    requires Targets(a.edges, u, x) == [Successor(a.grammar.productions, u, x)]
    requires Successor(a.grammar.productions, u, x) in a.states
    ensures var v := Successor(a.grammar.productions, u, x);
            var cell := Cell(numbered, a.edges, u, x, reduce);
            && (v.items == {} ==> cell == Success(""))
            && (v.items != {} ==>
                  Number(numbered, v).Some? &&
                  var k := Number(numbered, v).value;
                  cell == (if x.Terminal? && reduce.None? then Success(if x == EOF then "acc" else "s(" + NatToString(k) + ")")
                           else if x.Terminal? then Failure(Conflict("shift-reduce"))
                           else if reduce.Some? then Success("r(" + IntToString(reduce.value) + ")")
                           else Success(NatToString(k))))
  {
  }

  /** `numbered` lists exactly the non-empty recorded states. */
  ghost predicate Numbering(a: Automaton, numbered: seq<State>) {
    forall v :: v in numbered <==> v in a.states && v.items != {}
  }

  /** A reduction is due in `u` and some terminal column has a non-empty
      `goto` state. */
  predicate ShiftReduce(a: Automaton, u: State, xs: seq<Symbol>) {
    Complete(u) != {} &&
    exists x :: x in xs && x.Terminal? && Successor(a.grammar.productions, u, x).items != {}
  }

  /** The cells of a built automaton fail exactly on a shift-reduce
      conflict. */
  lemma {:induction false} CellsOfBuilt(a: Automaton, numbered: seq<State>, u: State, xs: seq<Symbol>)
    requires Numbering(a, numbered) && Steps(a, u) && |Complete(u)| <= 1
    requires forall x :: x in xs ==> x in a.symbols
    ensures var cells := Cells(numbered, a.edges, u, xs, Reduction(a.grammar.productions, u));
            && (cells.Failure? <==> ShiftReduce(a, u, xs))
            && (cells.Failure? ==> cells == Failure(Conflict("shift-reduce")))
    decreases |xs|
  {
    if xs != [] {
      var reduce := Reduction(a.grammar.productions, u);
      CellOfBuilt(a, numbered, u, xs[0], reduce);
      CellsOfBuilt(a, numbered, u, xs[1..]);
      if ShiftReduce(a, u, xs) && !ShiftReduce(a, u, xs[1..]) {
        var x :| x in xs && x.Terminal? && Successor(a.grammar.productions, u, x).items != {};
        assert x == xs[0] || x in xs[1..];
      }
    }
  }

  /** A numbered state raises no conflict: at most one item is complete, and
      a complete item excludes every shift. */
  predicate Lr0State(a: Automaton, u: State) {
    |Complete(u)| <= 1 && !ShiftReduce(a, u, a.symbols)
  }

  /** A row is printed exactly when its state raises no conflict, and the
      conflict is reduce-reduce when several items are complete. */
  lemma RowOfBuilt(a: Automaton, numbered: seq<State>, k: nat, u: State)
    requires Numbering(a, numbered) && Steps(a, u)
    ensures Row(a, numbered, k, u).Success? <==> Lr0State(a, u)
    ensures Row(a, numbered, k, u).Failure? ==>
              Row(a, numbered, k, u) == Failure(Conflict(if |Complete(u)| > 1 then "reduce-reduce" else "shift-reduce"))
  {
    if |Complete(u)| <= 1 {
      CellsOfBuilt(a, numbered, u, a.symbols);
    }
  }

  /** One step of `Rows`: the row of state `k` first, then the rest. */
  lemma RowsNext(a: Automaton, numbered: seq<State>, k: nat)
    requires k < |numbered|
    ensures Rows(a, numbered, k).Success? <==>
              Row(a, numbered, k, numbered[k]).Success? && Rows(a, numbered, k + 1).Success?
    ensures Row(a, numbered, k, numbered[k]).Failure? ==>
              Rows(a, numbered, k) == Failure(Row(a, numbered, k, numbered[k]).error)
    ensures Row(a, numbered, k, numbered[k]).Success? && Rows(a, numbered, k + 1).Failure? ==>
              Rows(a, numbered, k) == Rows(a, numbered, k + 1)
  {
  }

  /** Every numbered state from `k` on is LR(0). */
  ghost predicate Lr0From(a: Automaton, numbered: seq<State>, k: nat) {
    forall j :: k <= j < |numbered| ==> Lr0State(a, numbered[j])
  }

  lemma Lr0FromNext(a: Automaton, numbered: seq<State>, k: nat)
    requires k < |numbered|
    ensures Lr0From(a, numbered, k) <==> Lr0State(a, numbered[k]) && Lr0From(a, numbered, k + 1)
  {
  }

  /** The rows from `k` on are printed exactly when the states from `k` on
      raise no conflict. */
  lemma {:induction false} RowsOfBuilt(a: Automaton, numbered: seq<State>, k: nat)
    requires Numbering(a, numbered)
    requires forall j :: 0 <= j < |numbered| ==> Steps(a, numbered[j])
    requires k <= |numbered|
    ensures Rows(a, numbered, k).Success? <==> Lr0From(a, numbered, k)
    decreases |numbered| - k
  {
    if k < |numbered| {
      RowsNext(a, numbered, k);
      Lr0FromNext(a, numbered, k);
      RowOfBuilt(a, numbered, k, numbered[k]);
      RowsOfBuilt(a, numbered, k + 1);
    }
  }

  /** The first state from `k` on that raises a conflict decides its kind. */
  lemma {:induction false} RowsFirstConflict(a: Automaton, numbered: seq<State>, k: nat, m: nat)
    requires Numbering(a, numbered)
    requires forall j :: 0 <= j < |numbered| ==> Steps(a, numbered[j])
    requires k <= m < |numbered| && !Lr0State(a, numbered[m])
    requires forall j :: k <= j < m ==> Lr0State(a, numbered[j])
    ensures Rows(a, numbered, k) == Failure(Conflict(if |Complete(numbered[m])| > 1 then "reduce-reduce" else "shift-reduce"))
    decreases m - k
  {
    RowsNext(a, numbered, k);
    RowOfBuilt(a, numbered, k, numbered[k]);
    if k < m {
      RowsFirstConflict(a, numbered, k + 1, m);
    }
  }

  /** `toString` of a built automaton: it fails exactly when some numbered
      state has a conflict, always with `LR0ConflictFound`, and otherwise
      prints the start as state 0 with one row per numbered state. */
  lemma TableOfBuilt(a: Automaton)
    requires Built(a)
    ensures var numbered := Numbered(a.states);
            Table(a).Success? <==> forall u :: u in numbered ==> Lr0State(a, u)
    ensures Table(a).Failure? ==> Table(a).error.Conflict?
    ensures Table(a).Success? ==>
              Table(a).value.start == 0 && Table(a).value.listing == Numbered(a.states) &&
              |Table(a).value.rows| == |Numbered(a.states)|
  {
    StartNumberedFirst(a);
    NumberedSteps(a);
    RowsAll(a, Numbered(a.states));
  }

  /** The rows of all numbered states are printed exactly when every one of
      them is LR(0), and otherwise the failure is a conflict. */
  lemma RowsAll(a: Automaton, numbered: seq<State>)
    requires Numbering(a, numbered)
    requires forall j :: 0 <= j < |numbered| ==> Steps(a, numbered[j])
    ensures Rows(a, numbered, 0).Success? <==> forall u :: u in numbered ==> Lr0State(a, u)
    ensures Rows(a, numbered, 0).Failure? ==> Rows(a, numbered, 0).error.Conflict?
  {
    RowsOfBuilt(a, numbered, 0);
    if exists j :: 0 <= j < |numbered| && !Lr0State(a, numbered[j]) {
      var m := FirstConflict(a, numbered, 0);
      RowsFirstConflict(a, numbered, 0, m);
    } else {
      forall u | u in numbered ensures Lr0State(a, u) {
        var j :| 0 <= j < |numbered| && numbered[j] == u;
      }
    }
  }

  /** The first numbered state with a conflict decides which
      `LR0ConflictFound` is thrown: reduce-reduce when it has several
      complete items, shift-reduce otherwise. */
  lemma TableConflictKind(a: Automaton, m: nat)
    requires Built(a)
    requires m < |Numbered(a.states)| && !Lr0State(a, Numbered(a.states)[m])
    requires forall j :: 0 <= j < m ==> Lr0State(a, Numbered(a.states)[j])
    ensures Table(a) == Failure(Conflict(if |Complete(Numbered(a.states)[m])| > 1 then "reduce-reduce" else "shift-reduce"))
  {
    StartNumberedZero(a);
    NumberedSteps(a);
    RowsFirstConflict(a, Numbered(a.states), 0, m);
  }

  lemma NumberedSteps(a: Automaton)
    requires Built(a)
    ensures forall j :: 0 <= j < |Numbered(a.states)| ==> Steps(a, Numbered(a.states)[j])
  {
    TargetsOfBuilt(a);
    forall j | 0 <= j < |Numbered(a.states)| ensures Steps(a, Numbered(a.states)[j]) {
      assert Numbered(a.states)[j] in a.states;
    }
  }

  /** The first numbered state from `k` on that raises a conflict. */
  lemma {:induction false} FirstConflict(a: Automaton, numbered: seq<State>, k: nat) returns (m: nat)
    requires k <= |numbered|
    requires exists j :: k <= j < |numbered| && !Lr0State(a, numbered[j])
    ensures k <= m < |numbered| && !Lr0State(a, numbered[m])
    ensures forall j :: k <= j < m ==> Lr0State(a, numbered[j])
    decreases |numbered| - k
  {
    if Lr0State(a, numbered[k]) {
      m := FirstConflict(a, numbered, k + 1);
    } else {
      m := k;
    }
  }
}
