/** `LR0Automaton`: the builder that augments a grammar, closes item sets and
    discovers the canonical LR(0) states by a depth-first search, recording
    every state once, in discovery order, and every transition once. */
module Lr0Automaton {
  import opened Util
  import opened GrammarNodes
  import opened Lr0Items

  /** The builder's fields as a value. */
  datatype Automaton = Automaton(
    grammar: Grammar,
    symbols: seq<Symbol>,
    states: seq<State>,
    edges: seq<Edge>,
    start: State)

  /** Every transition of `u` on a column symbol is recorded, with its target. */
  predicate Finished(prods: seq<Production>, symbols: seq<Symbol>, states: seq<State>, edges: seq<Edge>, u: State) {
    forall x :: x in symbols ==>
      Successor(prods, u, x) in states && Edge(u, x, Successor(prods, u, x)) in edges
  }

  /** What the search keeps true at every step: states and edges are recorded
      once, states are item sets of the grammar, and every edge is a `goto`
      step between recorded states. */
  predicate Consistent(prods: seq<Production>, symbols: seq<Symbol>, states: seq<State>, edges: seq<Edge>) {
    && Distinct(states)
    && Distinct(edges)
    && (forall k :: 0 <= k < |states| ==> WellFormed(prods, states[k]))
    && (forall e :: e in edges ==>
          e.from in states && e.symbol in symbols && e.to in states
          && e.to == Successor(prods, e.from, e.symbol))
  }

  /** Every state after the first is a `goto` step from an earlier one. */
  predicate Discovered(prods: seq<Production>, symbols: seq<Symbol>, states: seq<State>) {
    forall k :: 0 < k < |states| ==> DiscoveredAt(prods, symbols, states, k)
  }

  /** The state at index `k` is a `goto` step from an earlier state. */
  predicate DiscoveredAt(prods: seq<Production>, symbols: seq<Symbol>, states: seq<State>, k: nat)
    requires k < |states|
  {
    exists j, x :: 0 <= j < k && x in symbols && states[k] == Successor(prods, states[j], x)
  }

  /** The automaton `build` leaves behind: the start state first, every state
      reached from it, and every state finished. */
  predicate Built(a: Automaton) {
    && a.symbols == Symbols(a.grammar.productions)
    && Grouped(a.grammar.productions, a.grammar.start) != []
    && |a.states| > 0
    && a.states[0] == a.start == StartState(a.grammar)
    && Consistent(a.grammar.productions, a.symbols, a.states, a.edges)
    && Discovered(a.grammar.productions, a.symbols, a.states)
    && (forall u :: u in a.states ==> Finished(a.grammar.productions, a.symbols, a.states, a.edges, u))
  }

  /** Recorded facts survive appending to `states` and `edges`. */
  lemma FinishedGrows(prods: seq<Production>, symbols: seq<Symbol>,
                      states: seq<State>, edges: seq<Edge>,
                      states': seq<State>, edges': seq<Edge>, u: State)
    requires Extends(states, states') && Extends(edges, edges')
    requires Finished(prods, symbols, states, edges, u)
    ensures Finished(prods, symbols, states', edges', u)
  {
    forall x | x in symbols
      ensures Successor(prods, u, x) in states' && Edge(u, x, Successor(prods, u, x)) in edges'
    {
      var v := Successor(prods, u, x);
      var i :| 0 <= i < |states| && states[i] == v;
      assert states'[i] == v;
      var j :| 0 <= j < |edges| && edges[j] == Edge(u, x, v);
      assert edges'[j] == Edge(u, x, v);
    }
  }

  /** Appending a `goto` step from a recorded state keeps every state discovered. */
  lemma DiscoveredAppend(prods: seq<Production>, symbols: seq<Symbol>, states: seq<State>, j: nat, x: Symbol)
    requires Discovered(prods, symbols, states)
    requires j < |states| && x in symbols
    ensures Discovered(prods, symbols, states + [Successor(prods, states[j], x)])
  {
    var states' := states + [Successor(prods, states[j], x)];
    forall k | 0 < k < |states'| ensures DiscoveredAt(prods, symbols, states', k) {
      if k < |states| {
        assert DiscoveredAt(prods, symbols, states, k);
        var i, y :| 0 <= i < k && y in symbols && states[k] == Successor(prods, states[i], y);
        assert states'[k] == Successor(prods, states'[i], y);
      } else {
        assert states'[k] == Successor(prods, states'[j], x);
      }
    }
  }

  /** A set of states that holds the start state and every `goto` step from
      its members on a column symbol. */
  predicate ClosedUnderGoto(a: Automaton, t: set<State>) {
    a.start in t &&
    forall u, x :: u in t && x in a.symbols ==> Successor(a.grammar.productions, u, x) in t
  }

  /** The built automaton holds exactly the states reachable from the start:
      its states are closed under `goto`, and every set closed under `goto`
      contains them. */
  lemma {:induction false} BuiltIsReachable(a: Automaton, t: set<State>)
    requires Built(a)
    ensures ClosedUnderGoto(a, Recorded(a.states))
    ensures ClosedUnderGoto(a, t) ==> Recorded(a.states) <= t
  {
    forall u, x | u in Recorded(a.states) && x in a.symbols
      ensures Successor(a.grammar.productions, u, x) in Recorded(a.states)
    {
      assert Finished(a.grammar.productions, a.symbols, a.states, a.edges, u);
    }
    if ClosedUnderGoto(a, t) {
      forall k | 0 <= k < |a.states| ensures a.states[k] in t {
        ReachedBefore(a, t, k);
      }
    }
  }

  lemma {:induction false} ReachedBefore(a: Automaton, t: set<State>, k: nat)
    requires Built(a) && ClosedUnderGoto(a, t) && k < |a.states|
    ensures a.states[k] in t
    decreases k
  {
    if k > 0 {
      assert DiscoveredAt(a.grammar.productions, a.symbols, a.states, k);
      var j, x :| 0 <= j < k && x in a.symbols && a.states[k] == Successor(a.grammar.productions, a.states[j], x);
      ReachedBefore(a, t, j);
    }
  }

  /** The recorded states as a set. */
  ghost function Recorded(states: seq<State>): set<State> {
    set s | s in states
  }

  lemma RecordedAppend(states: seq<State>, v: State)
    ensures Recorded(states + [v]) == Recorded(states) + {v}
  {
  }

  /** `b` is `a` with elements appended. */
  ghost predicate Extends<T>(a: seq<T>, b: seq<T>) {
    |a| <= |b| && b[..|a|] == a
  }

  lemma ExtendsTrans<T>(a: seq<T>, b: seq<T>, c: seq<T>)
    requires Extends(a, b) && Extends(b, c)
    ensures Extends(a, c)
  {
    assert c[..|a|] == c[..|b|][..|a|];
  }

  /** The states from index `base` on are finished. */
  predicate NewFinished(prods: seq<Production>, symbols: seq<Symbol>, base: nat, states: seq<State>, edges: seq<Edge>) {
    forall k :: base <= k < |states| ==> Finished(prods, symbols, states, edges, states[k])
  }

  /** The transitions of `u` on the first `n` columns are recorded. */
  predicate Followed(prods: seq<Production>, symbols: seq<Symbol>, u: State, n: nat, states: seq<State>, edges: seq<Edge>)
    requires n <= |symbols|
  {
    forall j :: 0 <= j < n ==>
      Successor(prods, u, symbols[j]) in states && Edge(u, symbols[j], Successor(prods, u, symbols[j])) in edges
  }

  lemma FollowedGrows(prods: seq<Production>, symbols: seq<Symbol>, u: State, n: nat,
                      states: seq<State>, edges: seq<Edge>, states': seq<State>, edges': seq<Edge>)
    requires n < |symbols|
    requires Extends(states, states') && Extends(edges, edges')
    requires Followed(prods, symbols, u, n, states, edges)
    requires Successor(prods, u, symbols[n]) in states'
    requires Edge(u, symbols[n], Successor(prods, u, symbols[n])) in edges'
    ensures Followed(prods, symbols, u, n + 1, states', edges')
  {
    Grows(states, states');
    Grows(edges, edges');
  }

  lemma FollowedAll(prods: seq<Production>, symbols: seq<Symbol>, u: State, states: seq<State>, edges: seq<Edge>)
    requires Followed(prods, symbols, u, |symbols|, states, edges)
    ensures Finished(prods, symbols, states, edges, u)
  {
    forall x | x in symbols
      ensures Successor(prods, u, x) in states && Edge(u, x, Successor(prods, u, x)) in edges
    {
      var j :| 0 <= j < |symbols| && symbols[j] == x;
    }
  }

  lemma NewFinishedFrom(prods: seq<Production>, symbols: seq<Symbol>, base: nat, states: seq<State>, edges: seq<Edge>)
    requires base < |states|
    requires Finished(prods, symbols, states, edges, states[base])
    requires NewFinished(prods, symbols, base + 1, states, edges)
    ensures NewFinished(prods, symbols, base, states, edges)
  {
  }

  lemma NewFinishedGrows(prods: seq<Production>, symbols: seq<Symbol>, base: nat,
                         states: seq<State>, edges: seq<Edge>, states': seq<State>, edges': seq<Edge>)
    requires Extends(states, states') && Extends(edges, edges')
    requires NewFinished(prods, symbols, base, states, edges)
    requires NewFinished(prods, symbols, |states|, states', edges')
    ensures NewFinished(prods, symbols, base, states', edges')
  {
    forall k | base <= k < |states|
      ensures Finished(prods, symbols, states', edges', states'[k])
    {
      assert states'[k] == states[k];
      FinishedGrows(prods, symbols, states, edges, states', edges', states[k]);
    }
  }

  lemma Grows<T>(s: seq<T>, s': seq<T>)
    requires Extends(s, s')
    ensures forall x :: x in s ==> x in s'
  {
    forall x | x in s ensures x in s' {
      var i :| 0 <= i < |s| && s[i] == x;
      assert s'[i] == x;
    }
  }

  /** The recorded states and edges of the search, in recording order. */
  datatype Search = Search(states: seq<State>, edges: seq<Edge>)

  /** Every recorded state is an item set of the grammar. */
  ghost predicate AllWellFormed(prods: seq<Production>, states: seq<State>) {
    forall k :: 0 <= k < |states| ==> WellFormed(prods, states[k])
  }

  /** Extending a recorded sequence never gives back states to visit. */
  lemma RemainingShrinks(prods: seq<Production>, states: seq<State>, states': seq<State>)
    requires Extends(states, states')
    ensures Space(prods) - Recorded(states') <= Space(prods) - Recorded(states)
  {
    Grows(states, states');
  }

  /** The depth-first search `dfs(u)` from column `i` on, as a function of
      what was recorded before: for each column in order, the `goto` state is
      recorded and searched at once when new, then the edge is recorded when
      missing. */
  ghost function Explore(prods: seq<Production>, symbols: seq<Symbol>, u: State, i: nat, st: Search): (r: Search)
    requires i <= |symbols| && WellFormed(prods, u) && AllWellFormed(prods, st.states)
    ensures Extends(st.states, r.states) && Extends(st.edges, r.edges)
    ensures AllWellFormed(prods, r.states)
    decreases Space(prods) - Recorded(st.states), |symbols| - i
  {
    if i == |symbols| then st
    else
      var st' := Step(prods, symbols, u, symbols[i], st);
      RemainingShrinks(prods, st.states, st'.states);
      var r := Explore(prods, symbols, u, i + 1, st');
      ExtendsTrans(st.states, st'.states, r.states);
      ExtendsTrans(st.edges, st'.edges, r.edges);
      r
  }

  /** One column of the search: `v = goto(u, x)` is recorded and searched
      when new, then the edge `u -x-> v` is recorded when missing. */
  ghost function Step(prods: seq<Production>, symbols: seq<Symbol>, u: State, x: Symbol, st: Search): (r: Search)
    requires WellFormed(prods, u) && AllWellFormed(prods, st.states)
    ensures Extends(st.states, r.states) && Extends(st.edges, r.edges)
    ensures AllWellFormed(prods, r.states)
    decreases Space(prods) - Recorded(st.states), 0
  {
    var v := Successor(prods, u, x);
    SuccessorWellFormed(prods, u, x);
    var searched :=
      if v in st.states then st
      else (
        InSpace(prods, v);
        RecordedAppend(st.states, v);
        assert (st.states + [v])[..|st.states|] == st.states;
        var r := Explore(prods, symbols, v, 0, Search(st.states + [v], st.edges));
        ExtendsTrans(st.states, st.states + [v], r.states);
        r);
    var e := Edge(u, x, v);
    if e in searched.edges then searched
    else
      assert (searched.edges + [e])[..|st.edges|] == searched.edges[..|st.edges|];
      Search(searched.states, searched.edges + [e])
  }

  lemma ExploreNext(prods: seq<Production>, symbols: seq<Symbol>, u: State, i: nat, st: Search)
    requires i < |symbols| && WellFormed(prods, u) && AllWellFormed(prods, st.states)
    ensures Explore(prods, symbols, u, i, st) == Explore(prods, symbols, u, i + 1, Step(prods, symbols, u, symbols[i], st))
  {
  }

  /** What `build` records: the search from the start state, which is
      recorded first. */
  ghost function DepthFirst(grammar: Grammar, symbols: seq<Symbol>): Search
    requires Grouped(grammar.productions, grammar.start) != []
  {
    StartWellFormed(grammar);
    Explore(grammar.productions, symbols, StartState(grammar), 0, Search([StartState(grammar)], []))
  }

  class LR0Automaton {
    const augmentedGrammar: Grammar
    const symbols: seq<Symbol>
    var states: seq<State>
    var edges: seq<Edge>
    var start: State

    function Snapshot(): Automaton
      reads this
    {
      Automaton(augmentedGrammar, symbols, states, edges, start)
    }

    /** The automaton is built, and its states and edges were recorded in
        the order of the depth-first search from the start state. */
    ghost predicate Valid()
      reads this
    {
      Built(Snapshot()) && Search(states, edges) == DepthFirst(augmentedGrammar, symbols)
    }

    /** Building the automaton of a grammar: `start` is the closure of the
        augmented start item, and the recorded states and edges are the whole
        reachable part of the `goto` graph. */
    constructor (g: Grammar)
      ensures augmentedGrammar == Augment(g)
      ensures symbols == Symbols(augmentedGrammar.productions)
      ensures Valid()
    {
      augmentedGrammar := Augment(g);
      symbols := Symbols(Augment(g).productions);
      states := [];
      edges := [];
      new;
      AugmentedStartProduction(g);
      Build();
    }

    /** One scan over `over`, adding every prediction of its items to `result`;
        `anyAdded` tells whether some addition was new and `lastAdded` whether
        the last one was. */
    method AddPredicted(over: set<Item>, result: set<Item>) returns (r: set<Item>, anyAdded: bool, lastAdded: bool)
      ensures r == result + Predict(augmentedGrammar.productions, over)
      ensures anyAdded <==> r != result
      ensures lastAdded ==> anyAdded
    {
      var prods := augmentedGrammar.productions;
      r := result;
      anyAdded := false;
      lastAdded := false;
      var rest := over;
      while rest != {}
        invariant rest <= over
        invariant r == result + Predict(prods, over - rest)
        invariant anyAdded <==> r != result
        invariant lastAdded ==> anyAdded
        decreases rest
      {
        var item :| item in rest;
        var to := item.production.to;
        if item.pointer < |to| && to[item.pointer].NonTerminal? {
          r, anyAdded, lastAdded := AddStarts(Grouped(prods, to[item.pointer]), r, anyAdded, lastAdded);
        }
        PredictUnion(prods, over - rest, item);
        assert over - (rest - {item}) == (over - rest) + {item};
        rest := rest - {item};
      }
    }

    /** Adds `B -> .γ` for the productions `group` of one `B`, recording in
        `lastAdded` whether the last addition was new. */
    method AddStarts(group: seq<Production>, r0: set<Item>, any0: bool, last0: bool)
      returns (r: set<Item>, anyAdded: bool, lastAdded: bool)
      ensures r == r0 + Starts(group)
      ensures anyAdded <==> any0 || r != r0
      ensures lastAdded ==> last0 || r != r0
    {
      r, anyAdded, lastAdded := r0, any0, last0;
      for k := 0 to |group|
        invariant r == r0 + Starts(group[..k])
        invariant anyAdded <==> any0 || r != r0
        invariant lastAdded ==> last0 || r != r0
      {
        var predicted := Item(group[k], 0);
        var added := predicted !in r;
        r := r + {predicted};
        assert group[..k + 1] == group[..k] + [group[k]];
        lastAdded := added;
        anyAdded := anyAdded || added;
      }
      assert group[..|group|] == group;
    }

    /** `closure` as written: it scans the input items, never the items it
        adds, and stops after a scan whose last addition was not new. */
    method ClosureAsWritten(items: set<Item>) returns (r: set<Item>)
      ensures r == OneLevel(augmentedGrammar.productions, items)
    {
      var prods := augmentedGrammar.productions;
      r := items;
      var full := false;
      while !full
        invariant items <= r <= OneLevel(prods, items)
        invariant full ==> r == OneLevel(prods, items)
        decreases OneLevel(prods, items) - r, if full then 0 else 1
      {
        var anyAdded, lastAdded;
        r, anyAdded, lastAdded := AddPredicted(items, r);
        full := !lastAdded;
      }
    }

    /** `closure` corrected: each scan goes over everything gathered so far,
        and the loop stops only after a scan that added nothing new. */
    method Closure(items: set<Item>) returns (r: set<Item>)
      ensures r == Saturation(augmentedGrammar.productions, items)
    {
      var prods := augmentedGrammar.productions;
      r := items;
      var full := false;
      while !full
        invariant items <= r <= Saturation(prods, items)
        invariant full ==> Predict(prods, r) <= r
        decreases Saturation(prods, items) - r, if full then 0 else 1
      {
        var anyAdded, lastAdded;
        PredictMonotone(prods, r, Saturation(prods, items));
        r, anyAdded, lastAdded := AddPredicted(r, r);
        full := !anyAdded;
      }
      SaturationLeast(prods, items, r);
    }

    /** `goto`: the closure of the items whose dot moves over `x`. */
    method Goto(items: set<Item>, x: Symbol) returns (r: set<Item>)
      ensures State(r) == Successor(augmentedGrammar.productions, State(items), x)
    {
      r := Closure(Advance(items, x));
    }

    /** The search from `u`: every transition of `u` is followed in column
        order. States and edges are only appended to, in the order of
        `Explore`. */
    method Dfs(u: State)
      requires Consistent(augmentedGrammar.productions, symbols, states, edges)
      requires Discovered(augmentedGrammar.productions, symbols, states)
      requires u in states
      modifies this
      ensures Consistent(augmentedGrammar.productions, symbols, states, edges)
      ensures Discovered(augmentedGrammar.productions, symbols, states)
      ensures Extends(old(states), states) && Extends(old(edges), edges)
      ensures Finished(augmentedGrammar.productions, symbols, states, edges, u)
      ensures NewFinished(augmentedGrammar.productions, symbols, |old(states)|, states, edges)
      ensures Search(states, edges) ==
                Explore(augmentedGrammar.productions, symbols, u, 0, Search(old(states), old(edges)))
      decreases Space(augmentedGrammar.productions) - Recorded(states), 3
    {
      var prods := augmentedGrammar.productions;
      ghost var k :| 0 <= k < |states| && states[k] == u;
      assert WellFormed(prods, u) && AllWellFormed(prods, states);
      ghost var goal := Explore(prods, symbols, u, 0, Search(states, edges));
      for i := 0 to |symbols|
        invariant Searching(u, i, old(states), old(edges), goal)
      {
        FollowColumn(u, i, old(states), old(edges), goal);
      }
      FollowedAll(prods, symbols, u, states, edges);
    }

    /** The state of `dfs(u)` after its first `i` columns: everything recorded
        since `states0` and `edges0` is consistent, the first `i` transitions
        of `u` are recorded, and what remains of the search leads to `goal`. */
    ghost predicate Searching(u: State, i: nat, states0: seq<State>, edges0: seq<Edge>, goal: Search)
      reads this
      requires i <= |symbols|
    {
      var prods := augmentedGrammar.productions;
      && Consistent(prods, symbols, states, edges)
      && Discovered(prods, symbols, states)
      && Extends(states0, states) && Extends(edges0, edges)
      && u in states && WellFormed(prods, u) && AllWellFormed(prods, states)
      && Followed(prods, symbols, u, i, states, edges)
      && NewFinished(prods, symbols, |states0|, states, edges)
      && Explore(prods, symbols, u, i, Search(states, edges)) == goal
    }

    /** One column of `dfs(u)`. */
    method FollowColumn(u: State, i: nat, ghost states0: seq<State>, ghost edges0: seq<Edge>, ghost goal: Search)
      requires i < |symbols| && Searching(u, i, states0, edges0, goal)
      modifies this
      ensures Searching(u, i + 1, states0, edges0, goal)
      decreases Space(augmentedGrammar.productions) - Recorded(states), 2
    {
      var prods := augmentedGrammar.productions;
      ghost var states1, edges1 := states, edges;
      Grows(states0, states1);
      ExploreNext(prods, symbols, u, i, Search(states, edges));
      Follow(u, symbols[i]);
      FollowedGrows(prods, symbols, u, i, states1, edges1, states, edges);
      NewFinishedGrows(prods, symbols, |states0|, states1, edges1, states, edges);
      ExtendsTrans(states0, states1, states);
      ExtendsTrans(edges0, edges1, edges);
      Grows(states1, states);
    }

    /** One step of `dfs`: the target `v` of `u` on `x` is recorded and searched
        unless already recorded, then the edge is recorded unless present. */
    method Follow(u: State, x: Symbol)
      requires Consistent(augmentedGrammar.productions, symbols, states, edges)
      requires Discovered(augmentedGrammar.productions, symbols, states)
      requires u in states && x in symbols
      modifies this
      ensures Consistent(augmentedGrammar.productions, symbols, states, edges)
      ensures Discovered(augmentedGrammar.productions, symbols, states)
      ensures Extends(old(states), states) && Extends(old(edges), edges)
      ensures Successor(augmentedGrammar.productions, u, x) in states
      ensures Edge(u, x, Successor(augmentedGrammar.productions, u, x)) in edges
      ensures NewFinished(augmentedGrammar.productions, symbols, |old(states)|, states, edges)
      ensures Search(states, edges) ==
                Step(augmentedGrammar.productions, symbols, u, x, Search(old(states), old(edges)))
      decreases Space(augmentedGrammar.productions) - Recorded(states), 1
    {
      var prods := augmentedGrammar.productions;
      var items := Goto(u.items, x);
      var v := State(items);
      if v !in states {
        Visit(u, x, v);
      }
      ghost var states1, edges1 := states, edges;
      Grows(old(states), states1);
      var edge := Edge(u, x, v);
      if edge !in edges {
        AddEdge(edge);
      }
      assert Extends(edges1, edges);
      NewFinishedGrows(prods, symbols, |old(states)|, states1, edges1, states, edges);
      ExtendsTrans(old(edges), edges1, edges);
    }

    /** Records an edge that is not yet present. */
    method AddEdge(edge: Edge)
      requires Consistent(augmentedGrammar.productions, symbols, states, edges)
      requires edge !in edges
      requires edge.from in states && edge.symbol in symbols && edge.to in states
      requires edge.to == Successor(augmentedGrammar.productions, edge.from, edge.symbol)
      modifies this
      ensures Consistent(augmentedGrammar.productions, symbols, states, edges)
      ensures states == old(states) && edges == old(edges) + [edge]
    {
      edges := edges + [edge];
    }

    /** Records the new state `v`, a `goto` step from `u`, and searches it. */
    method Visit(u: State, x: Symbol, v: State)
      requires Consistent(augmentedGrammar.productions, symbols, states, edges)
      requires Discovered(augmentedGrammar.productions, symbols, states)
      requires u in states && x in symbols && v == Successor(augmentedGrammar.productions, u, x)
      requires v !in states
      modifies this
      ensures Consistent(augmentedGrammar.productions, symbols, states, edges)
      ensures Discovered(augmentedGrammar.productions, symbols, states)
      ensures Extends(old(states), states) && Extends(old(edges), edges)
      ensures v in states
      ensures NewFinished(augmentedGrammar.productions, symbols, |old(states)|, states, edges)
      ensures Search(states, edges) ==
                Explore(augmentedGrammar.productions, symbols, v, 0, Search(old(states) + [v], old(edges)))
      decreases Space(augmentedGrammar.productions) - Recorded(states), 0
    {
      var prods := augmentedGrammar.productions;
      ghost var states0 := states;
      var j :| 0 <= j < |states| && states[j] == u;
      SuccessorWellFormed(prods, u, x);
      InSpace(prods, v);
      DiscoveredAppend(prods, symbols, states, j, x);
      states := states + [v];
      RecordedAppend(states0, v);
      assert states[..|states0|] == states0;
      assert states[j] == u && states[|states0|] == v;
      ghost var states1, edges1 := states, edges;
      Dfs(v);
      ExtendsTrans(states0, states1, states);
      assert states[|states0|] == v;
      NewFinishedFrom(prods, symbols, |states0|, states, edges);
    }

    /** `build`: records the start state, the closure of the first production
        of the augmented start, searches from it, and keeps it as `start`. */
    method Build()
      requires states == [] && edges == []
      requires symbols == Symbols(augmentedGrammar.productions)
      requires Grouped(augmentedGrammar.productions, augmentedGrammar.start) != []
      modifies this
      ensures start == StartState(augmentedGrammar)
      ensures Valid()
    {
      var prods := augmentedGrammar.productions;
      var first := Grouped(prods, augmentedGrammar.start)[0];
      var items := Closure({Item(first, 0)});
      var s := State(items);
      StartWellFormed(augmentedGrammar);
      states := states + [s];
      assert states == [StartState(augmentedGrammar)];
      Dfs(s);
      assert states[0] == s;
      forall u | u in states ensures Finished(prods, symbols, states, edges, u) {
        var k :| 0 <= k < |states| && states[k] == u;
      }
      ghost var a := Automaton(augmentedGrammar, symbols, states, edges, s);
      assert Built(a);
      start := s;
      assert Snapshot() == a;
    }
  }
}
