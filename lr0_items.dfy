/** LR(0) items over the grammar of `GrammarNodes`: the augmented grammar,
    the symbol alphabet, the closure of an item set and the `goto` step,
    stated as functions on values. */
module Lr0Items {
  import opened Util
  import opened GrammarNodes

  /** `LR0Item`: a production with a dot before position `pointer`. */
  datatype Item = Item(production: Production, pointer: nat)

  /** `State`: an item set; two states are equal when their sets are. */
  datatype State = State(items: set<Item>)

  /** `Edge`: the transition from `from` on `symbol` to `to`. */
  datatype Edge = Edge(from: State, symbol: Symbol, to: State)

  /** `augmentGrammar`: a new start `S_aug` whose one production `S_aug -> S $`
      is appended after the grammar's own productions. */
  function Augment(g: Grammar): (r: Grammar)
    ensures r.start.text == g.start.text + "_aug"
    ensures |r.productions| == |g.productions| + 1
    ensures r.productions[..|g.productions|] == g.productions
    ensures r.productions[|g.productions|] == Production(r.start, [g.start, EOF])
  {
    var newStart := NonTerminal(g.start.text + "_aug");
    Grammar(newStart, g.productions + [Production(newStart, [g.start, EOF])])
  }

  /** `groupedProductions[b]`: the productions of `b`, in grammar order. */
  function Grouped(prods: seq<Production>, b: Symbol): (r: seq<Production>)
    ensures forall p :: p in r <==> p in prods && p.from == b
  {
    if prods == [] then []
    else
      var rest := Grouped(prods[..|prods| - 1], b);
      var last := prods[|prods| - 1];
      assert prods == prods[..|prods| - 1] + [last];
      if last.from == b then rest + [last] else rest
  }

  /** A symbol without productions groups none. */
  lemma {:induction false} GroupedNone(prods: seq<Production>, b: Symbol)
    requires forall p :: p in prods ==> p.from != b
    ensures Grouped(prods, b) == []
    decreases |prods|
  {
    if prods != [] {
      GroupedNone(prods[..|prods| - 1], b);
      assert prods[|prods| - 1] in prods;
    }
  }

  /** The augmented start has a production, so `groupedProductions[start]!!`
      succeeds; unless the grammar already had a rule for `S_aug`, its first
      production is the appended `S_aug -> S $`. */
  lemma AugmentedStartProduction(g: Grammar)
    ensures Grouped(Augment(g).productions, Augment(g).start) != []
    ensures (forall p :: p in g.productions ==> p.from != Augment(g).start) ==>
              Grouped(Augment(g).productions, Augment(g).start)
                == [Production(Augment(g).start, [g.start, EOF])]
  {
    var a := Augment(g);
    var n := |g.productions|;
    assert a.productions[..n] == g.productions;
    assert a.productions == g.productions + [a.productions[n]];
    assert a.productions[n] in Grouped(a.productions, a.start);
    if forall p :: p in g.productions ==> p.from != a.start {
      GroupedNone(g.productions, a.start);
      assert a.productions[..|a.productions| - 1] == g.productions;
    }
  }

  /** Every symbol occurrence, production by production: `to` then `from`. */
  function Mentions(prods: seq<Production>): (r: seq<Symbol>)
  {
    if prods == [] then []
    else Mentions(prods[..|prods| - 1]) + prods[|prods| - 1].to + [prods[|prods| - 1].from]
  }

  /** The symbols of a production list. */
  predicate Mentioned(prods: seq<Production>, x: Symbol) {
    exists p :: p in prods && (p.from == x || x in p.to)
  }

  lemma {:induction false} MentionsMembers(prods: seq<Production>, x: Symbol)
    ensures x in Mentions(prods) <==> Mentioned(prods, x)
    decreases |prods|
  {
    if prods != [] {
      var front := prods[..|prods| - 1];
      var last := prods[|prods| - 1];
      assert prods == front + [last];
      MentionsMembers(front, x);
      if Mentioned(prods, x) {
        var p :| p in prods && (p.from == x || x in p.to);
        if p != last {
          assert p in front;
        }
      }
    }
  }

  /** `toSet()` on a list: the first occurrence of each element, in order. */
  function Dedup<T(==,!new)>(s: seq<T>): (r: seq<T>)
    ensures Distinct(r)
    ensures forall x :: x in r <==> x in s
  {
    if s == [] then []
    else
      var d := Dedup(s[..|s| - 1]);
      var last := s[|s| - 1];
      assert s == s[..|s| - 1] + [last];
      if last in d then d else d + [last]
  }

  /** `symbols`: the alphabet of the table's columns. */
  function Symbols(prods: seq<Production>): (r: seq<Symbol>)
  {
    Dedup(Mentions(prods))
  }

  /** The columns are distinct and are exactly the symbols the productions
      mention. */
  lemma SymbolsMentioned(prods: seq<Production>, x: Symbol)
    ensures Distinct(Symbols(prods))
    ensures x in Symbols(prods) <==> Mentioned(prods, x)
  {
    MentionsMembers(prods, x);
  }

  /** The symbol after the dot, if any. */
  function Next(i: Item): (r: Option<Symbol>)
    ensures r.Some? <==> i.pointer < |i.production.to|
  {
    if i.pointer < |i.production.to| then Some(i.production.to[i.pointer]) else None
  }

  predicate DotBefore(i: Item, x: Symbol) {
    Next(i) == Some(x)
  }

  /** The items `B -> .γ` for every production listed in `ps`. */
  function Starts(ps: seq<Production>): (r: set<Item>)
    ensures forall j :: j in r <==> j.pointer == 0 && j.production in ps
  {
    set p | p in ps :: Item(p, 0)
  }

  /** What one item predicts: with the dot before a non-terminal `B`, the
      items `B -> .γ` for the productions of `B`. */
  function Predicted(prods: seq<Production>, i: Item): (r: set<Item>)
    ensures r <= Starts(prods)
  {
    match Next(i)
    case Some(NonTerminal(b)) => Starts(Grouped(prods, NonTerminal(b)))
    case _ => {}
  }

  /** One round of prediction over an item set. */
  function Predict(prods: seq<Production>, s: set<Item>): (r: set<Item>)
    ensures r <= Starts(prods)
  {
    set i, j | i in s && j in Predicted(prods, i) :: j
  }

  /** A predicted item is `B -> .γ` for a production of some `B` that an item of
      the set has its dot before, and every such item is predicted. */
  lemma PredictMembers(prods: seq<Production>, s: set<Item>, j: Item)
    ensures j in Predict(prods, s) <==>
              j.pointer == 0 && j.production in prods &&
              exists i :: i in s && DotBefore(i, j.production.from)
  {
    if j.pointer == 0 && j.production in prods && exists i :: i in s && DotBefore(i, j.production.from) {
      var i :| i in s && DotBefore(i, j.production.from);
      assert j.production in Grouped(prods, j.production.from);
      assert j in Predicted(prods, i);
    }
  }

  lemma PredictMonotone(prods: seq<Production>, a: set<Item>, b: set<Item>)
    requires a <= b
    ensures Predict(prods, a) <= Predict(prods, b)
  {
  }

  lemma PredictUnion(prods: seq<Production>, a: set<Item>, i: Item)
    ensures Predict(prods, a + {i}) == Predict(prods, a) + Predicted(prods, i)
  {
  }

  /** The closure of an item set: prediction repeated until nothing new
      appears, the least superset closed under `Predict`. */
  function Saturation(prods: seq<Production>, s: set<Item>): (r: set<Item>)
    ensures s <= r
    ensures Predict(prods, r) <= r
    decreases Starts(prods) - s
  {
    var p := Predict(prods, s);
    if p <= s then s else Saturation(prods, s + p)
  }

  /** Nothing beyond what prediction forces is in the closure. */
  lemma {:induction false} SaturationLeast(prods: seq<Production>, s: set<Item>, t: set<Item>)
    requires s <= t && Predict(prods, t) <= t
    ensures Saturation(prods, s) <= t
    decreases Starts(prods) - s
  {
    var p := Predict(prods, s);
    if !(p <= s) {
      PredictMonotone(prods, s, t);
      SaturationLeast(prods, s + p, t);
    }
  }

  /** Closing a closed set changes nothing. */
  lemma SaturationOfClosed(prods: seq<Production>, s: set<Item>)
    requires Predict(prods, s) <= s
    ensures Saturation(prods, s) == s
  {
  }

  /** What `closure` computes as written: the input plus one round of
      prediction, because it only ever scans the input items. */
  function OneLevel(prods: seq<Production>, s: set<Item>): (r: set<Item>)
    ensures s <= r <= Saturation(prods, s)
  {
    PredictMonotone(prods, s, Saturation(prods, s));
    s + Predict(prods, s)
  }

  /** The one-level closure is the closure exactly when its own predictions
      add nothing. */
  lemma OneLevelExact(prods: seq<Production>, s: set<Item>)
    ensures OneLevel(prods, s) == Saturation(prods, s) <==>
              Predict(prods, OneLevel(prods, s)) <= OneLevel(prods, s)
  {
    if Predict(prods, OneLevel(prods, s)) <= OneLevel(prods, s) {
      SaturationLeast(prods, s, OneLevel(prods, s));
    }
  }

  /** The grammar `S -> A`, `A -> b` augmented: `S_aug -> S $` predicts
      `S -> .A` but `closure` as written never predicts `A -> .b`. */
  lemma OneLevelMissesNested()
    ensures var s := NonTerminal("S");
            var a := NonTerminal("A");
            var prods := Augment(Grammar(s, [Production(s, [a]), Production(a, [Terminal("b")])])).productions;
            var from := {Item(prods[2], 0)};
            Item(Production(a, [Terminal("b")]), 0) in Saturation(prods, from) - OneLevel(prods, from)
  {
    var s := NonTerminal("S");
    var a := NonTerminal("A");
    var g := Grammar(s, [Production(s, [a]), Production(a, [Terminal("b")])]);
    var prods := Augment(g).productions;
    var from := {Item(prods[2], 0)};
    var predictS := Item(prods[0], 0);
    var predictA := Item(prods[1], 0);
    assert prods == [Production(s, [a]), Production(a, [Terminal("b")]), prods[2]];
    assert prods[2].to == [s, EOF];
    PredictMembers(prods, from, predictS);
    assert Next(Item(prods[2], 0)) == Some(s);
    assert Predict(prods, from) == {predictS} by {
      forall j | j in Predict(prods, from) ensures j == predictS {
        PredictMembers(prods, from, j);
      }
    }
    var one := OneLevel(prods, from);
    assert predictA !in one;
    PredictMembers(prods, one, predictA);
    assert Next(predictS) == Some(a);
    assert predictA in Predict(prods, one);
    assert predictA in Saturation(prods, from);
  }

  /** The items `goto` starts from: those with the dot before `x`, the dot
      moved past it. */
  function Advance(s: set<Item>, x: Symbol): (r: set<Item>)
    ensures forall j :: j in r ==> j.pointer > 0 && j.pointer <= |j.production.to|
  {
    set i | i in s && DotBefore(i, x) :: Item(i.production, i.pointer + 1)
  }

  /** `goto`: the closure of the advanced items. */
  function Successor(prods: seq<Production>, u: State, x: Symbol): State
  {
    State(Saturation(prods, Advance(u.items, x)))
  }

  /** The items of a production list: its productions with any dot position
      from the front to the end. */
  function Universe(prods: seq<Production>): set<Item>
  {
    set p, k | p in prods && 0 <= k <= |p.to| :: Item(p, k)
  }

  predicate WellFormed(prods: seq<Production>, u: State) {
    u.items <= Universe(prods)
  }

  /** Every state the automaton can hold. */
  ghost function Space(prods: seq<Production>): set<State>
  {
    set s: set<Item> | s <= Universe(prods) :: State(s)
  }

  lemma InSpace(prods: seq<Production>, u: State)
    requires WellFormed(prods, u)
    ensures u in Space(prods)
  {
  }

  /** `goto` keeps every item's production in the grammar and every dot
      within its production. */
  lemma SuccessorWellFormed(prods: seq<Production>, u: State, x: Symbol)
    requires WellFormed(prods, u)
    ensures WellFormed(prods, Successor(prods, u, x))
  {
    var adv := Advance(u.items, x);
    forall j | j in adv ensures j in Universe(prods) {
      var i :| i in u.items && DotBefore(i, x) && j == Item(i.production, i.pointer + 1);
      assert i in Universe(prods);
    }
    var t := adv + Starts(prods);
    SaturationLeast(prods, adv, t);
    forall j | j in Starts(prods) ensures j in Universe(prods) {
      assert 0 <= j.pointer <= |j.production.to|;
    }
  }

  /** The start state: the closure of the first item of the augmented start. */
  function StartState(a: Grammar): (r: State)
    requires Grouped(a.productions, a.start) != []
    ensures Item(Grouped(a.productions, a.start)[0], 0) in r.items
  {
    State(Saturation(a.productions, {Item(Grouped(a.productions, a.start)[0], 0)}))
  }

  lemma StartWellFormed(a: Grammar)
    requires Grouped(a.productions, a.start) != []
    ensures WellFormed(a.productions, StartState(a))
  {
    var prods := a.productions;
    var s := {Item(Grouped(prods, a.start)[0], 0)};
    SaturationLeast(prods, s, Starts(prods));
  }
}
