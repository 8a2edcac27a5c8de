/** The fields that `IntersectionCFGrammar.build` changes, taken together as
    one value, what each step of `build` does to them, and what those steps
    keep. The class in `Intersection` is proved to follow these functions. */
module IntersectionRun {
  import opened Util
  import opened CfGrammar
  import opened IntersectionSpec

  /** The reached states in the order they were reached, their set, the
      queue of states still to process, and the intersection grammar. */
  datatype Run = Run(history: seq<State>, states: set<State>, queue: seq<State>, grammar: Grammar)

  /** The state part of `reachStateFrom`: a state reached for the first time
      is recorded and queued. */
  function Reach(run: Run, x: State): Run {
    if x in run.states then run
    else Run(run.history + [x], run.states + {x}, run.queue + [x], run.grammar)
  }

  /** `intersectionGrammar.addProduction`. */
  function Add(run: Run, q: Production): Run {
    run.(grammar := Insert(run.grammar, q))
  }

  /** `reachStateFrom(union, l, m)`: reach the union of `l` and `m` under the
      binary rule `p` and add the production `[union] -> [l] [m]`. */
  function Join(a: Automaton, run: Run, p: Production, l: State, m: State): Run
    requires NodesIn(a, l) && NodesIn(a, m)
  {
    Add(Reach(run, Union(p, l, m)), Binary(a, Union(p, l, m), l, m))
  }

  /** What holds between the steps of `build`: the reached states are
      justified, and every production is a start production, reads an edge
      or joins two reached states. */
  ghost predicate Invariant(g: Grammar, a: Automaton, init: Grammar, run: Run) {
    && Reached(g, a, run.history, run.states, run.queue)
    && Sound(g, a, init, run.states, run.grammar)
    && Includes(init, run.grammar)
  }

  /** `run'` comes after `run`: states and productions only grow, the
      history only gets longer, and whatever it gains is queued. */
  ghost predicate Extends(run: Run, run': Run) {
    && run.states <= run'.states
    && Includes(run.grammar, run'.grammar)
    && |run.history| <= |run'.history| && run'.history[..|run.history|] == run.history
    && run'.queue == run.queue + run'.history[|run.history|..]
    && (run'.states == run.states ==> run'.history == run.history)
  }

  lemma ExtendsRefl(run: Run)
    ensures Extends(run, run)
  {
    assert run.history[|run.history|..] == [];
  }

  lemma ExtendsTrans(r1: Run, r2: Run, r3: Run)
    requires Extends(r1, r2) && Extends(r2, r3)
    ensures Extends(r1, r3)
  {
    assert r3.history[..|r1.history|] == r3.history[..|r2.history|][..|r1.history|];
    assert r3.history[|r1.history|..] == r2.history[|r1.history|..] + r3.history[|r2.history|..];
  }

  /** The processed part of the history stays as it was. */
  lemma ExtendsProcessed(run: Run, run': Run)
    requires Extends(run, run') && |run.queue| <= |run.history|
    ensures |run'.queue| <= |run'.history|
    ensures Processed(run'.history, run'.queue) == Processed(run.history, run.queue)
  {
  }

  lemma JoinExtends(a: Automaton, run: Run, p: Production, l: State, m: State)
    requires NodesIn(a, l) && NodesIn(a, m)
    ensures Extends(run, Join(a, run, p, l, m))
  {
    InsertFacts(run.grammar, Binary(a, Union(p, l, m), l, m));
    ExtendsRefl(run);
  }

  /** Joining two reached states by a binary rule of the grammar keeps the
      invariant. */
  lemma JoinKeeps(g: Grammar, a: Automaton, init: Grammar, run: Run, p: Production, l: State, m: State)
    requires WellFormed(g) && Invariant(g, a, init, run)
    requires l in run.states && m in run.states && NodesIn(a, l) && NodesIn(a, m)
    requires Has(g, p) && Indexed(p) && Fits(p, l, m)
    ensures Invariant(g, a, init, Join(a, run, p, l, m))
  {
    var x := Union(p, l, m);
    var r := Reach(run, x);
    assert p.symbol in g.productions by {
      assert Keyed(p.symbol, g.productions[p.symbol]);
    }
    if x !in run.states {
      ReachedExtend(g, a, run.history, run.states, run.queue, x);
    }
    SoundGrow(g, a, init, run.states, r.states, run.grammar);
    assert JoinProduction(g, a, r.states, Binary(a, x, l, m));
    SoundInsert(g, a, init, r.states, run.grammar, Binary(a, x, l, m));
  }

  // ---------------------------------------------------------------------
  // generateSingleLetterProductions

  /** `reachStateFrom([s,N,t])` for an edge `s -a-> t`, then
      `addProduction([s,N,t] -> a)`. */
  function Read(a: Automaton, run: Run, e: Edge, n: Symbol, letter: string): Run
    requires e.from < |a.nodes| && e.to < |a.nodes| && |letter| > 0
  {
    Add(Reach(run, State(e.from, n, e.to)), Letter(a, State(e.from, n, e.to), letter))
  }

  /** `terminals[label]?.forEach`: read the edge for each left-hand side in turn. */
  function ReadAll(a: Automaton, run: Run, e: Edge, letter: string, symbols: seq<Symbol>): Run
    requires e.from < |a.nodes| && e.to < |a.nodes| && |letter| > 0
    decreases |symbols|
  {
    if symbols == [] then run
    else Read(a, ReadAll(a, run, e, letter, symbols[..|symbols| - 1]), e, symbols[|symbols| - 1], letter)
  }

  /** The loop of `generateSingleLetterProductions` over the edges. */
  function Seeds(a: Automaton, run: Run, edges: seq<Edge>, terminals: map<string, seq<Symbol>>): Run
    requires forall i :: 0 <= i < |edges| ==> edges[i].from < |a.nodes| && edges[i].to < |a.nodes|
    requires forall l :: l in terminals ==> |l| > 0
    decreases |edges|
  {
    if edges == [] then run
    else
      var r := Seeds(a, run, edges[..|edges| - 1], terminals);
      var e := edges[|edges| - 1];
      if EdgeLabel(e) in terminals then ReadAll(a, r, e, EdgeLabel(e), terminals[EdgeLabel(e)]) else r
  }

  /** Reading an edge whose letter a rule `N -> a` produces keeps the invariant. */
  lemma ReadKeeps(g: Grammar, a: Automaton, init: Grammar, run: Run, e: Edge, p: Production)
    requires Invariant(g, a, init, run)
    requires e in a.edges && e.from < |a.nodes| && e.to < |a.nodes| && |EdgeLabel(e)| > 0
    requires Has(g, p) && LetterRule(p) && p.products[0].text == EdgeLabel(e)
    ensures Invariant(g, a, init, Read(a, run, e, p.symbol, EdgeLabel(e)))
    ensures Extends(run, Read(a, run, e, p.symbol, EdgeLabel(e)))
  {
    var x := State(e.from, p.symbol, e.to);
    var r := Reach(run, x);
    if x !in run.states {
      assert Seed(g, a, x);
      assert x.symbol in g.productions by {
        assert p.symbol in g.productions;
      }
      ReachedExtend(g, a, run.history, run.states, run.queue, x);
    }
    SoundGrow(g, a, init, run.states, r.states, run.grammar);
    assert LetterProduction(g, a, Letter(a, x, EdgeLabel(e)));
    SoundInsert(g, a, init, r.states, run.grammar, Letter(a, x, EdgeLabel(e)));
    ExtendsRefl(run);
  }

  /** After reading the edge `e` for `symbols`, the invariant holds, the run
      has only grown, and each symbol's state and letter production are there. */
  ghost predicate ReadAllFacts(g: Grammar, a: Automaton, init: Grammar, run: Run, e: Edge, symbols: seq<Symbol>)
    requires e.from < |a.nodes| && e.to < |a.nodes| && |EdgeLabel(e)| > 0
  {
    var r := ReadAll(a, run, e, EdgeLabel(e), symbols);
    Invariant(g, a, init, r) && Extends(run, r) &&
    forall n :: n in symbols ==>
      State(e.from, n, e.to) in r.states && Has(r.grammar, Letter(a, State(e.from, n, e.to), EdgeLabel(e)))
  }

  /** Reading the edge for one more symbol. */
  lemma ReadAllNext(g: Grammar, a: Automaton, init: Grammar, run: Run, e: Edge, symbols: seq<Symbol>, p: Production)
    requires e in a.edges && e.from < |a.nodes| && e.to < |a.nodes| && |EdgeLabel(e)| > 0 && |symbols| > 0
    requires Has(g, p) && p.symbol == symbols[|symbols| - 1] && LetterRule(p) && p.products[0].text == EdgeLabel(e)
    requires ReadAllFacts(g, a, init, run, e, symbols[..|symbols| - 1])
    ensures ReadAllFacts(g, a, init, run, e, symbols)
  {
    var init' := symbols[..|symbols| - 1];
    var r := ReadAll(a, run, e, EdgeLabel(e), init');
    ReadKeeps(g, a, init, r, e, p);
    var r' := Read(a, r, e, p.symbol, EdgeLabel(e));
    ExtendsTrans(run, r, r');
    LastSplit(symbols);
    assert ReadAll(a, run, e, EdgeLabel(e), symbols) == r';
  }

  lemma {:induction false} ReadAllKeeps(g: Grammar, a: Automaton, init: Grammar, run: Run, e: Edge, symbols: seq<Symbol>)
    requires Invariant(g, a, init, run)
    requires e in a.edges && e.from < |a.nodes| && e.to < |a.nodes| && |EdgeLabel(e)| > 0
    requires forall n :: n in symbols ==>
      exists p :: Has(g, p) && p.symbol == n && LetterRule(p) && p.products[0].text == EdgeLabel(e)
    ensures ReadAllFacts(g, a, init, run, e, symbols)
    decreases |symbols|
  {
    if symbols == [] {
      ExtendsRefl(run);
    } else {
      var init' := symbols[..|symbols| - 1];
      var n := symbols[|symbols| - 1];
      assert symbols == init' + [n] && n in symbols;
      forall k | k in init'
        ensures exists p :: Has(g, p) && p.symbol == k && LetterRule(p) && p.products[0].text == EdgeLabel(e)
      {
        assert k in symbols;
      }
      ReadAllKeeps(g, a, init, run, e, init');
      var p :| Has(g, p) && p.symbol == n && LetterRule(p) && p.products[0].text == EdgeLabel(e);
      ReadAllNext(g, a, init, run, e, symbols, p);
    }
  }

  /** Every label `computeTerminals` maps is non-empty. */
  lemma TerminalsOfLabels(g: Grammar)
    requires WellFormed(g)
    ensures forall l :: l in TerminalsOf(g) ==> |l| > 0
  {
    forall l | l in TerminalsOf(g) ensures |l| > 0 {
      TerminalsOfMembers(g, l, g.initial);
    }
  }

  /** After reading `edges`, the invariant holds, the run has only grown, and
      every edge is seeded. */
  ghost predicate SeedsFacts(g: Grammar, a: Automaton, init: Grammar, run: Run, edges: seq<Edge>)
    requires WellFormed(g)
    requires forall i :: 0 <= i < |edges| ==> edges[i].from < |a.nodes| && edges[i].to < |a.nodes|
    requires forall l :: l in TerminalsOf(g) ==> |l| > 0
  {
    var r := Seeds(a, run, edges, TerminalsOf(g));
    Invariant(g, a, init, r) && Extends(run, r) && SeededBy(g, a, edges, r.states, r.grammar)
  }

  /** Reading one more edge. */
  lemma SeedsNext(g: Grammar, a: Automaton, init: Grammar, run: Run, edges: seq<Edge>)
    requires Suitable(g, a) && |edges| > 0
    requires forall i :: 0 <= i < |edges| ==> edges[i] in a.edges
    requires forall i :: 0 <= i < |edges| ==> edges[i].from < |a.nodes| && edges[i].to < |a.nodes|
    requires forall l :: l in TerminalsOf(g) ==> |l| > 0
    requires SeedsFacts(g, a, init, run, edges[..|edges| - 1])
    ensures SeedsFacts(g, a, init, run, edges)
  {
    var terminals := TerminalsOf(g);
    var init' := edges[..|edges| - 1];
    var e := edges[|edges| - 1];
    var r := Seeds(a, run, init', terminals);
    var letter := EdgeLabel(e);
    var r' := Seeds(a, run, edges, terminals);
    if letter in terminals {
      forall n | n in terminals[letter]
        ensures exists p :: Has(g, p) && p.symbol == n && LetterRule(p) && p.products[0].text == letter
      {
        TerminalsOfMembers(g, letter, n);
      }
      ReadAllKeeps(g, a, init, r, e, terminals[letter]);
      ExtendsTrans(run, r, r');
    }
    LastSplit(edges);
    SeededGrow(g, a, init', r.states, r.grammar, r'.states, r'.grammar);
    forall p | Has(g, p) && LetterRule(p) && p.products[0].text == letter
      ensures State(e.from, p.symbol, e.to) in r'.states && Has(r'.grammar, Letter(a, State(e.from, p.symbol, e.to), letter))
    {
      TerminalsOfMembers(g, letter, p.symbol);
    }
  }

  /** Reading the edges keeps the invariant and seeds each of them. */
  lemma {:induction false} SeedsKeeps(g: Grammar, a: Automaton, init: Grammar, run: Run, edges: seq<Edge>)
    requires Suitable(g, a) && Invariant(g, a, init, run)
    requires forall i :: 0 <= i < |edges| ==> edges[i] in a.edges
    ensures forall i :: 0 <= i < |edges| ==> edges[i].from < |a.nodes| && edges[i].to < |a.nodes|
    ensures forall l :: l in TerminalsOf(g) ==> |l| > 0
    ensures SeedsFacts(g, a, init, run, edges)
    decreases |edges|
  {
    TerminalsOfLabels(g);
    if edges == [] {
      ExtendsRefl(run);
    } else {
      SeedsKeeps(g, a, init, run, edges[..|edges| - 1]);
      SeedsNext(g, a, init, run, edges);
    }
  }

  // ---------------------------------------------------------------------
  // The loop body of build

  /** The complementing state of `x` at node `w` for the rule `p = X -> Y Z`:
      `[t,Z,w]` when `x = [s,Y,t]` carries the first symbol, `[w,Y,s]` when
      `x = [s,Z,t]` carries the second. */
  function Partner(p: Production, x: State, first: bool, w: nat): State
    requires |p.products| == 2
  {
    if first then State(x.nodeT, p.products[1], w) else State(w, p.products[0], x.nodeS)
  }

  /** `nodes.forEach` for the rule `p` and the popped state `x`, over the
      nodes `w' < w`: each complementing state reached by then is joined
      with `x`, on the side `first` says. */
  function Partners(a: Automaton, run: Run, p: Production, x: State, first: bool, w: nat): Run
    requires |p.products| == 2 && NodesIn(a, x) && w <= |a.nodes|
    decreases w
  {
    if w == 0 then run
    else PartnerStep(a, Partners(a, run, p, x, first, w - 1), p, x, first, w - 1)
  }

  /** One node of `nodes.forEach`: join `x` with its partner at node `w`
      when that partner is reached. */
  function PartnerStep(a: Automaton, r: Run, p: Production, x: State, first: bool, w: nat): Run
    requires |p.products| == 2 && NodesIn(a, x) && w < |a.nodes|
  {
    var m := Partner(p, x, first, w);
    if m !in r.states then r
    else if first then Join(a, r, p, x, m)
    else Join(a, r, p, m, x)
  }

  /** One node of the loop keeps the invariant. */
  lemma PartnerStepKeeps(g: Grammar, a: Automaton, init: Grammar, r: Run,
                         p: Production, x: State, first: bool, w: nat)
    requires WellFormed(g) && Invariant(g, a, init, r)
    requires Has(g, p) && Indexed(p) && |p.products| == 2
    requires NodesIn(a, x) && x in r.states && w < |a.nodes|
    requires x.symbol == (if first then p.products[0] else p.products[1])
    ensures Invariant(g, a, init, PartnerStep(a, r, p, x, first, w))
  {
    var m := Partner(p, x, first, w);
    if m in r.states {
      if first {
        JoinKeeps(g, a, init, r, p, x, m);
      } else {
        JoinKeeps(g, a, init, r, p, m, x);
      }
    }
  }

  lemma {:induction false} PartnersExtends(a: Automaton, run: Run, p: Production, x: State, first: bool, w: nat)
    requires |p.products| == 2 && NodesIn(a, x) && w <= |a.nodes|
    ensures Extends(run, Partners(a, run, p, x, first, w))
    decreases w
  {
    if w == 0 {
      ExtendsRefl(run);
    } else {
      PartnersExtends(a, run, p, x, first, w - 1);
      var r := Partners(a, run, p, x, first, w - 1);
      var m := Partner(p, x, first, w - 1);
      if m in r.states {
        if first {
          JoinExtends(a, r, p, x, m);
        } else {
          JoinExtends(a, r, p, m, x);
        }
        ExtendsTrans(run, r, Partners(a, run, p, x, first, w));
      }
    }
  }

  /** The loop keeps the invariant from one node to the next. */
  lemma PartnersKeepNext(g: Grammar, a: Automaton, init: Grammar, run: Run,
                         p: Production, x: State, first: bool, w: nat)
    requires WellFormed(g) && Has(g, p) && Indexed(p) && |p.products| == 2
    requires NodesIn(a, x) && x in run.states && 0 < w <= |a.nodes|
    requires x.symbol == (if first then p.products[0] else p.products[1])
    requires Invariant(g, a, init, Partners(a, run, p, x, first, w - 1))
    ensures Invariant(g, a, init, Partners(a, run, p, x, first, w))
  {
    PartnersGrow(a, run, p, x, first, w - 1);
    PartnerStepKeeps(g, a, init, Partners(a, run, p, x, first, w - 1), p, x, first, w - 1);
  }

  lemma PartnersGrow(a: Automaton, run: Run, p: Production, x: State, first: bool, w: nat)
    requires |p.products| == 2 && NodesIn(a, x) && w <= |a.nodes|
    ensures run.states <= Partners(a, run, p, x, first, w).states
  {
    PartnersExtends(a, run, p, x, first, w);
  }

  /** Joining `x` with its partners by a binary rule that uses its symbol on
      that side keeps the invariant. */
  lemma {:induction false} PartnersKeep(g: Grammar, a: Automaton, init: Grammar, run: Run,
                                        p: Production, x: State, first: bool, w: nat)
    requires WellFormed(g) && Invariant(g, a, init, run)
    requires Has(g, p) && Indexed(p) && |p.products| == 2
    requires NodesIn(a, x) && x in run.states && w <= |a.nodes|
    requires x.symbol == (if first then p.products[0] else p.products[1])
    ensures Invariant(g, a, init, Partners(a, run, p, x, first, w))
    decreases w
  {
    if w > 0 {
      PartnersKeep(g, a, init, run, p, x, first, w - 1);
      PartnersKeepNext(g, a, init, run, p, x, first, w);
    }
  }

  /** Every partner reached before the loop and lying before node `w` is
      joined with `x`. */
  lemma {:induction false} PartnersJoined(a: Automaton, run: Run, p: Production, x: State, first: bool, w: nat, m: State)
    requires |p.products| == 2 && NodesIn(a, x) && w <= |a.nodes|
    requires m in run.states && NodesIn(a, m)
    requires if first then Fits(p, x, m) && m.nodeT < w else Fits(p, m, x) && m.nodeS < w
    ensures var r := Partners(a, run, p, x, first, w);
      if first then Union(p, x, m) in r.states && Has(r.grammar, Binary(a, Union(p, x, m), x, m))
      else Union(p, m, x) in r.states && Has(r.grammar, Binary(a, Union(p, m, x), m, x))
    decreases w
  {
    var r := Partners(a, run, p, x, first, w - 1);
    PartnersExtends(a, run, p, x, first, w - 1);
    if (if first then m.nodeT else m.nodeS) == w - 1 {
      assert Partner(p, x, first, w - 1) == m;
    } else {
      PartnersJoined(a, run, p, x, first, w - 1, m);
      if Partner(p, x, first, w - 1) in r.states {
        if first {
          JoinExtends(a, r, p, x, Partner(p, x, first, w - 1));
        } else {
          JoinExtends(a, r, p, Partner(p, x, first, w - 1), x);
        }
      }
    }
  }

  /** Looking for right partners only reaches states that start where `x`
      starts. */
  lemma {:induction false} RightPartnersStart(a: Automaton, run: Run, p: Production, x: State, w: nat, y: State)
    requires |p.products| == 2 && NodesIn(a, x) && w <= |a.nodes|
    requires y in Partners(a, run, p, x, true, w).states && y !in run.states
    ensures y.nodeS == x.nodeS
    decreases w
  {
    if w > 0 && y in Partners(a, run, p, x, true, w - 1).states {
      RightPartnersStart(a, run, p, x, w - 1, y);
    }
  }

  /** The loop body of `build` for the popped state `x` and one rule `p`,
      corrected: right partners when `x` carries the first symbol of `p`,
      then left partners when it carries the second. */
  function Process(a: Automaton, run: Run, p: Production, x: State): Run
    requires |p.products| == 2 && NodesIn(a, x)
  {
    var r := if p.products[0] == x.symbol then Partners(a, run, p, x, true, |a.nodes|) else run;
    if p.products[1] == x.symbol then Partners(a, r, p, x, false, |a.nodes|) else r
  }

  /** The loop body of `build` for one rule, as written: `isSymbolFirst`
      picks one side only. */
  function ProcessAsWritten(a: Automaton, run: Run, p: Production, x: State): Run
    requires |p.products| == 2 && NodesIn(a, x)
  {
    Partners(a, run, p, x, p.products[0] == x.symbol, |a.nodes|)
  }

  /** With a rule `X -> Y Y`, a state `x = [t,Y,w]` as written never joins a
      reached left partner `[s,Y,t]` whose start differs from its own: the
      union `[s,X,w]` stays unreached by this step, while the corrected step
      reaches it. */
  lemma AsWrittenMissesLeftPartner(a: Automaton, run: Run, p: Production, l: State, x: State)
    requires |p.products| == 2 && p.products[0] == p.products[1]
    requires NodesIn(a, l) && NodesIn(a, x) && l in run.states && Fits(p, l, x)
    requires l.nodeS != x.nodeS && Union(p, l, x) !in run.states
    ensures Union(p, l, x) !in ProcessAsWritten(a, run, p, x).states
    ensures Union(p, l, x) in Process(a, run, p, x).states
  {
    var n := |a.nodes|;
    if Union(p, l, x) in ProcessAsWritten(a, run, p, x).states {
      RightPartnersStart(a, run, p, x, n, Union(p, l, x));
    }
    var r := Partners(a, run, p, x, true, n);
    PartnersExtends(a, run, p, x, true, n);
    PartnersJoined(a, r, p, x, false, n, l);
  }

  /** Processing `x` with a rule joins `x` with each partner reached
      before, on both sides. */
  lemma ProcessJoins(a: Automaton, run: Run, p: Production, x: State)
    requires |p.products| == 2 && NodesIn(a, x)
    ensures var r := Process(a, run, p, x);
      Extends(run, r) && JoinedWith(a, p, x, run.states, r.states, r.grammar)
  {
    var n := |a.nodes|;
    var r := if p.products[0] == x.symbol then Partners(a, run, p, x, true, n) else run;
    var r' := Process(a, run, p, x);
    if p.products[0] == x.symbol {
      PartnersExtends(a, run, p, x, true, n);
    } else {
      ExtendsRefl(run);
    }
    if p.products[1] == x.symbol {
      PartnersExtends(a, r, p, x, false, n);
      ExtendsTrans(run, r, r');
    }
    forall l | l in run.states && NodesIn(a, l) && Fits(p, l, x)
      ensures Union(p, l, x) in r'.states && Has(r'.grammar, Binary(a, Union(p, l, x), l, x))
    {
      PartnersJoined(a, r, p, x, false, n, l);
    }
    forall m | m in run.states && NodesIn(a, m) && Fits(p, x, m)
      ensures Union(p, x, m) in r'.states && Has(r'.grammar, Binary(a, Union(p, x, m), x, m))
    {
      PartnersJoined(a, run, p, x, true, n, m);
    }
  }

  /** Processing a reached state with a binary rule of the grammar keeps the
      invariant. */
  lemma ProcessKeeps(g: Grammar, a: Automaton, init: Grammar, run: Run, p: Production, x: State)
    requires WellFormed(g) && Invariant(g, a, init, run)
    requires Has(g, p) && Indexed(p) && |p.products| == 2 && NodesIn(a, x) && x in run.states
    ensures Invariant(g, a, init, Process(a, run, p, x))
  {
    var n := |a.nodes|;
    var r := if p.products[0] == x.symbol then Partners(a, run, p, x, true, n) else run;
    if p.products[0] == x.symbol {
      PartnersExtends(a, run, p, x, true, n);
      PartnersKeep(g, a, init, run, p, x, true, n);
    }
    if p.products[1] == x.symbol {
      PartnersKeep(g, a, init, r, p, x, false, n);
    }
  }

  /** `productionsForProduct[symbol]?.forEach`: process `x` with each rule in turn. */
  function ProcessAll(a: Automaton, run: Run, x: State, ps: seq<Production>): Run
    requires NodesIn(a, x) && forall i :: 0 <= i < |ps| ==> |ps[i].products| == 2
    decreases |ps|
  {
    if ps == [] then run
    else Process(a, ProcessAll(a, run, x, ps[..|ps| - 1]), ps[|ps| - 1], x)
  }

  lemma JoinedWithEarlier(a: Automaton, p: Production, x: State, before: set<State>, before': set<State>,
                          states: set<State>, r: Grammar)
    requires JoinedWith(a, p, x, before', states, r) && before <= before'
    ensures JoinedWith(a, p, x, before, states, r)
  {
  }

  /** Processing `x` with each rule joins it with every partner reached
      before, for every one of the rules. */
  lemma {:induction false} ProcessAllJoins(a: Automaton, run: Run, x: State, ps: seq<Production>)
    requires NodesIn(a, x) && forall i :: 0 <= i < |ps| ==> |ps[i].products| == 2
    ensures var r := ProcessAll(a, run, x, ps);
      Extends(run, r) && forall i :: 0 <= i < |ps| ==> JoinedWith(a, ps[i], x, run.states, r.states, r.grammar)
    decreases |ps|
  {
    if ps == [] {
      ExtendsRefl(run);
    } else {
      var init' := ps[..|ps| - 1];
      var p := ps[|ps| - 1];
      ProcessAllJoins(a, run, x, init');
      var r := ProcessAll(a, run, x, init');
      var r' := Process(a, r, p, x);
      ProcessJoins(a, r, p, x);
      ExtendsTrans(run, r, r');
      forall i | 0 <= i < |ps| ensures JoinedWith(a, ps[i], x, run.states, r'.states, r'.grammar) {
        if i < |init'| {
          assert ps[i] == init'[i];
          JoinedWithGrow(a, ps[i], x, run.states, r.states, r.grammar, r'.states, r'.grammar);
        } else {
          JoinedWithEarlier(a, p, x, run.states, r.states, r'.states, r'.grammar);
        }
      }
    }
  }

  lemma {:induction false} ProcessAllKeeps(g: Grammar, a: Automaton, init: Grammar, run: Run, x: State, ps: seq<Production>)
    requires WellFormed(g) && Invariant(g, a, init, run) && NodesIn(a, x) && x in run.states
    requires forall i :: 0 <= i < |ps| ==> Has(g, ps[i]) && Indexed(ps[i]) && |ps[i].products| == 2
    ensures Invariant(g, a, init, ProcessAll(a, run, x, ps))
    decreases |ps|
  {
    if ps != [] {
      var init' := ps[..|ps| - 1];
      ProcessAllKeeps(g, a, init, run, x, init');
      ProcessAllJoins(a, run, x, init');
      ProcessKeeps(g, a, init, ProcessAll(a, run, x, init'), ps[|ps| - 1], x);
    }
  }

  // ---------------------------------------------------------------------
  // The loop of build

  /** What holds at the head of the loop of `build`: the invariant, every
      edge read, and the processed part of the history closed. */
  ghost predicate Progress(g: Grammar, a: Automaton, init: Grammar, run: Run) {
    && Invariant(g, a, init, run)
    && Seeded(g, a, run.states, run.grammar)
    && Closed(g, a, Processed(run.history, run.queue), run.states, run.grammar)
  }

  /** Every production the index lists under a symbol is an indexed rule of
      the grammar that uses the symbol, and a binary one when the symbol is a
      left-hand side. */
  lemma IndexShape(g: Grammar, a: Automaton)
    requires Suitable(g, a)
    ensures forall k, i :: k in ProductionsForProduct(g) && 0 <= i < |ProductionsForProduct(g)[k]| ==>
      var q := ProductionsForProduct(g)[k][i];
      Has(g, q) && Indexed(q) && k in q.products && (k in g.productions ==> |q.products| == 2)
  {
    var index := ProductionsForProduct(g);
    forall k, i | k in index && 0 <= i < |index[k]|
      ensures Has(g, index[k][i]) && Indexed(index[k][i]) && k in index[k][i].products
      ensures k in g.productions ==> |index[k][i].products| == 2
    {
      ProductionsForProductMembers(g, k, index[k][i]);
    }
  }

  /** One turn of the loop of `build`: pop the head of the queue and process
      it with each rule the index lists under its symbol. */
  function Turn(a: Automaton, run: Run, index: map<Symbol, seq<Production>>): Run
    requires run.queue != [] && NodesIn(a, run.queue[0])
    requires run.queue[0].symbol in index ==>
               forall i :: 0 <= i < |index[run.queue[0].symbol]| ==> |index[run.queue[0].symbol][i].products| == 2
  {
    var x := run.queue[0];
    var r := run.(queue := run.queue[1..]);
    if x.symbol in index then ProcessAll(a, r, x, index[x.symbol]) else r
  }

  /** A turn keeps the loop's invariant and makes progress: either a new
      state is reached, out of finitely many, or the queue gets shorter. */
  lemma TurnProgress(g: Grammar, a: Automaton, init: Grammar, run: Run)
    requires Suitable(g, a) && Progress(g, a, init, run) && run.queue != []
    ensures NodesIn(a, run.queue[0]) && run.queue[0].symbol in g.productions
    ensures var k := run.queue[0].symbol; k in ProductionsForProduct(g) ==>
      forall i :: 0 <= i < |ProductionsForProduct(g)[k]| ==> |ProductionsForProduct(g)[k][i].products| == 2
    ensures var r := Turn(a, run, ProductionsForProduct(g)); var u := Universe(g, a);
      && Progress(g, a, init, r)
      && (|u - r.states| < |u - run.states| || (|u - r.states| == |u - run.states| && |r.queue| < |run.queue|))
  {
    var index := ProductionsForProduct(g);
    IndexShape(g, a);
    ReachedPop(g, a, run.history, run.states, run.queue);
    var x := run.queue[0];
    var r1 := run.(queue := run.queue[1..]);
    var processed := Processed(run.history, run.queue);
    var r := Turn(a, run, index);
    if x.symbol in index {
      var ps := index[x.symbol];
      ProcessAllKeeps(g, a, init, r1, x, ps);
      ProcessAllJoins(a, r1, x, ps);
      forall p | Has(g, p) && Indexed(p) && x.symbol in p.products
        ensures JoinedWith(a, p, x, r1.states, r.states, r.grammar)
      {
        ProductionsForProductMembers(g, x.symbol, p);
        var i :| 0 <= i < |ps| && ps[i] == p;
      }
    } else {
      ExtendsRefl(r1);
      forall p | Has(g, p) && Indexed(p) && x.symbol in p.products
        ensures false
      {
        ProductionsForProductMembers(g, x.symbol, p);
      }
    }
    ClosedStep(g, a, processed, x, r1.states, r1.grammar, r.states, r.grammar);
    ExtendsProcessed(r1, r);
    SeededGrow(g, a, a.edges, r1.states, r1.grammar, r.states, r.grammar);
    ReachedBounded(g, a, r.history, r.states, r.queue);
    GrowthMeasure(Universe(g, a), run.states, r.states);
  }

  /** Before the loop of `build`: the edges are read into the empty state and
      nothing is processed yet. */
  lemma StartProgress(g: Grammar, a: Automaton, init: Grammar)
    requires Suitable(g, a)
    ensures forall i :: 0 <= i < |a.edges| ==> a.edges[i].from < |a.nodes| && a.edges[i].to < |a.nodes|
    ensures forall l :: l in TerminalsOf(g) ==> |l| > 0
    ensures Progress(g, a, init, Seeds(a, Run([], {}, [], init), a.edges, TerminalsOf(g)))
  {
    var run := Run([], {}, [], init);
    ReachedEmpty(g, a);
    SeedsKeeps(g, a, init, run, a.edges);
    var r := Seeds(a, run, a.edges, TerminalsOf(g));
    assert r.queue == r.history;
    assert Processed(r.history, r.queue) == [];
  }

  /** With the queue empty, the loop's invariant is the finished construction. */
  lemma ProgressFinished(g: Grammar, a: Automaton, init: Grammar, run: Run)
    requires Progress(g, a, init, run) && run.queue == []
    ensures Finished(g, a, init, run.history, run.states, run.grammar)
  {
    assert Processed(run.history, run.queue) == run.history;
  }
}
