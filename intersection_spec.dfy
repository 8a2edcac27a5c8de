/** The values behind `IntersectionCFGrammar`: the automaton read from a
    graphviz graph, the triple states `[s,X,t]`, the checks made at
    construction, the terminal and production indexes, and the invariants
    that the worklist keeps. */
module IntersectionSpec {
  import opened Util
  import opened CfGrammar

  // ---------------------------------------------------------------------
  // The automaton

  /** A graph node: its name and its `color` and `shape` attributes, when set. */
  datatype Node = Node(name: string, color: Option<string>, shape: Option<string>)

  /** A link between two nodes (by position in the node list) and its `label` attribute. */
  datatype Edge = Edge(from: nat, labelAttr: Option<string>, to: nat)

  datatype Automaton = Automaton(nodes: seq<Node>, edges: seq<Edge>)

  predicate ValidAutomaton(a: Automaton) {
    forall e :: e in a.edges ==> e.from < |a.nodes| && e.to < |a.nodes|
  }

  const START_COLOR_LABEL: string := "red"
  const TERMINAL_SHAPE_LABEL: string := "doublecircle"

  /** An attribute value as text: a missing attribute reads as the text
      `null`, since the lookup converts an absent value with `toString`. */
  function AttrText(o: Option<string>): string {
    match o
    case None => "null"
    case Some(v) => v
  }

  /** The label of an edge; never a failure, because a missing label reads
      as `null`. */
  function EdgeLabel(e: Edge): string {
    AttrText(e.labelAttr)
  }

  /** The positions `< n` of the nodes whose colour reads `color`, in order. */
  function NodesColored(a: Automaton, color: string, n: nat): (r: seq<nat>)
    requires n <= |a.nodes|
    ensures forall i :: i in r ==> i < n && AttrText(a.nodes[i].color) == color
    ensures forall i :: 0 <= i < n && AttrText(a.nodes[i].color) == color ==> i in r
    decreases n
  {
    if n == 0 then []
    else NodesColored(a, color, n - 1) + (if AttrText(a.nodes[n - 1].color) == color then [n - 1] else [])
  }

  /** The positions `< n` of the nodes whose shape reads `shape`, in order. */
  function NodesShaped(a: Automaton, shape: string, n: nat): (r: seq<nat>)
    requires n <= |a.nodes|
    ensures forall i :: i in r ==> i < n && AttrText(a.nodes[i].shape) == shape
    ensures forall i :: 0 <= i < n && AttrText(a.nodes[i].shape) == shape ==> i in r
    decreases n
  {
    if n == 0 then []
    else NodesShaped(a, shape, n - 1) + (if AttrText(a.nodes[n - 1].shape) == shape then [n - 1] else [])
  }

  /** `findStartNode`: exactly one node must be coloured `red`. */
  function FindStartNode(a: Automaton): (r: Result<nat, string>)
    ensures r.Success? ==> r.value < |a.nodes| && AttrText(a.nodes[r.value].color) == START_COLOR_LABEL
    ensures r.Success? ==> forall i :: 0 <= i < |a.nodes| && AttrText(a.nodes[i].color) == START_COLOR_LABEL ==> i == r.value
    ensures r.Failure? ==> r.error in {"No start nodes.", "More than one start node."}
    ensures r == Failure("No start nodes.") <==>
      forall i :: 0 <= i < |a.nodes| ==> AttrText(a.nodes[i].color) != START_COLOR_LABEL
  {
    var startNodes := NodesColored(a, START_COLOR_LABEL, |a.nodes|);
    if |startNodes| == 0 then Failure("No start nodes.")
    else if |startNodes| > 1 then
      assert startNodes[0] in startNodes && startNodes[1] in startNodes;
      Failure("More than one start node.")
    else
      assert forall i :: i in startNodes ==> i == startNodes[0];
      Success(startNodes[0])
  }

  /** `findTerminalNodes`: the `doublecircle` nodes, of which there must be one at least. */
  function FindTerminalNodes(a: Automaton): (r: Result<seq<nat>, string>)
    ensures r.Success? ==> |r.value| > 0 && forall k :: 0 <= k < |r.value| ==> r.value[k] < |a.nodes|
    ensures r.Success? ==>
      forall i :: i in r.value ==> i < |a.nodes| && AttrText(a.nodes[i].shape) == TERMINAL_SHAPE_LABEL
    ensures r.Success? ==>
      forall i :: 0 <= i < |a.nodes| && AttrText(a.nodes[i].shape) == TERMINAL_SHAPE_LABEL ==> i in r.value
    ensures r.Failure? <==> forall i :: 0 <= i < |a.nodes| ==> AttrText(a.nodes[i].shape) != TERMINAL_SHAPE_LABEL
    ensures r.Failure? ==> r.error == "No terminal nodes."
  {
    var terminalNodes := NodesShaped(a, TERMINAL_SHAPE_LABEL, |a.nodes|);
    if |terminalNodes| == 0 then Failure("No terminal nodes.")
    else
      assert terminalNodes[0] in terminalNodes;
      assert forall k :: 0 <= k < |terminalNodes| ==> terminalNodes[k] in terminalNodes;
      Success(terminalNodes)
  }

  // ---------------------------------------------------------------------
  // Triple states

  /** `[s,X,t]`: the symbol `X` derives the label of some path from node `s`
      to node `t`. */
  datatype State = State(nodeS: nat, symbol: Symbol, nodeT: nat)

  predicate NodesIn(a: Automaton, x: State) {
    x.nodeS < |a.nodes| && x.nodeT < |a.nodes|
  }

  /** The printed form of a state. */
  function StateText(a: Automaton, x: State): (s: string)
    requires NodesIn(a, x)
    ensures |s| > 0 && s[0] == '['
  {
    "[" + a.nodes[x.nodeS].name + "," + x.symbol.text + "," + a.nodes[x.nodeT].name + "]"
  }

  /** The grammar symbol of a state; it starts with `[`, so it is a non-terminal. */
  function StateSymbol(a: Automaton, x: State): (s: Symbol)
    requires NodesIn(a, x)
    ensures !IsTerminal(s) && s != EPS
  {
    MakeSymbol(StateText(a, x))
  }

  /** The start symbol of the intersection grammar. */
  function IntersectionInitial(): (s: Symbol)
    ensures !IsTerminal(s) && s.text == "S"
  {
    MakeSymbol("S")
  }

  /** The production `[s,P,w] -> [s,Y,t] [t,Z,w]` that `reachStateFrom` adds. */
  function Binary(a: Automaton, x: State, l: State, r: State): Production
    requires NodesIn(a, x) && NodesIn(a, l) && NodesIn(a, r)
  {
    Production(StateSymbol(a, x), [StateSymbol(a, l), StateSymbol(a, r)])
  }

  /** The production `[s,N,t] -> a` for a letter read along an edge. */
  function Letter(a: Automaton, x: State, letter: string): Production
    requires NodesIn(a, x) && |letter| > 0
  {
    Production(StateSymbol(a, x), [MakeSymbol(letter)])
  }

  // ---------------------------------------------------------------------
  // The grammar built at construction

  /** The input start symbol has the production `S -> eps`. */
  predicate ContainsEpsRule(g: Grammar) {
    g.initial in g.productions &&
    exists p :: p in g.productions[g.initial] && |p.products| == 1 && p.products[0] == EPS
  }

  /** The productions `initGrammar` adds, accepting node by accepting node. */
  function InitAdds(g: Grammar, a: Automaton, start: nat, terminalNodes: seq<nat>): seq<Production>
    requires start < |a.nodes| && forall i :: 0 <= i < |terminalNodes| ==> terminalNodes[i] < |a.nodes|
    decreases |terminalNodes|
  {
    if terminalNodes == [] then []
    else InitAdds(g, a, start, terminalNodes[..|terminalNodes| - 1]) + StartAdds(g, a, start, terminalNodes[|terminalNodes| - 1])
  }

  /** The productions for one accepting node `t`: `S -> [start,S0,t]`, and
      `[start,S0,t] -> eps` when the start node accepts and the grammar has an
      epsilon rule. */
  function StartAdds(g: Grammar, a: Automaton, start: nat, t: nat): seq<Production>
    requires start < |a.nodes| && t < |a.nodes|
  {
    var stateSymbol := StateSymbol(a, State(start, g.initial, t));
    [Production(IntersectionInitial(), [stateSymbol])] +
      (if ContainsEpsRule(g) && start == t then [Production(stateSymbol, [EPS])] else [])
  }

  /** `initGrammar`: the checks, in the order the source makes them, then the
      start productions. */
  function Initialised(g: Grammar, a: Automaton): Result<Grammar, string> {
    match FindStartNode(a)
    case Failure(e) => Failure(e)
    case Success(start) =>
      match FindTerminalNodes(a)
      case Failure(e) => Failure(e)
      case Success(terminalNodes) =>
        Success(InsertAll(Empty(IntersectionInitial()), InitAdds(g, a, start, terminalNodes)))
  }

  lemma {:induction false} InitAddsMembers(g: Grammar, a: Automaton, start: nat, terminalNodes: seq<nat>, q: Production)
    requires start < |a.nodes| && forall i :: 0 <= i < |terminalNodes| ==> terminalNodes[i] < |a.nodes|
    ensures q in InitAdds(g, a, start, terminalNodes) <==>
      (exists t :: t in terminalNodes && q == Production(IntersectionInitial(), [StateSymbol(a, State(start, g.initial, t))])) ||
      (ContainsEpsRule(g) && start in terminalNodes && q == Production(StateSymbol(a, State(start, g.initial, start)), [EPS]))
    decreases |terminalNodes|
  {
    if terminalNodes != [] {
      var init := terminalNodes[..|terminalNodes| - 1];
      InitAddsMembers(g, a, start, init, q);
      assert terminalNodes == init + [terminalNodes[|terminalNodes| - 1]];
    }
  }

  /** The construction fails exactly when the automaton has no single start
      node or no accepting node; otherwise the grammar has start `S`, a
      production `S -> [start,S0,t]` for each accepting node `t`, and
      `[start,S0,start] -> eps` when the input has `S0 -> eps` and the start
      node accepts; nothing else. */
  lemma InitialisedMembers(g: Grammar, a: Automaton, q: Production)
    ensures Initialised(g, a).Failure? <==> FindStartNode(a).Failure? || FindTerminalNodes(a).Failure?
    ensures Initialised(g, a).Success? ==>
      var start := FindStartNode(a).value;
      var r := Initialised(g, a).value;
      && WellFormed(r) && r.initial == IntersectionInitial()
      && (Has(r, q) <==>
          (exists t :: 0 <= t < |a.nodes| && AttrText(a.nodes[t].shape) == TERMINAL_SHAPE_LABEL &&
             q == Production(IntersectionInitial(), [StateSymbol(a, State(start, g.initial, t))])) ||
          (ContainsEpsRule(g) && AttrText(a.nodes[start].shape) == TERMINAL_SHAPE_LABEL &&
             q == Production(StateSymbol(a, State(start, g.initial, start)), [EPS])))
  {
    if Initialised(g, a).Success? {
      var start := FindStartNode(a).value;
      var terminalNodes := FindTerminalNodes(a).value;
      InsertAllHas(Empty(IntersectionInitial()), InitAdds(g, a, start, terminalNodes));
      InitAddsMembers(g, a, start, terminalNodes, q);
    }
  }

  // ---------------------------------------------------------------------
  // Insertion-ordered multimaps

  /** Add `v` to the entry of `k`, creating it when missing, as a map of
      insertion-ordered sets does. */
  function AddTo<K, V(==)>(m: map<K, seq<V>>, k: K, v: V): map<K, seq<V>> {
    if k in m then (if v in m[k] then m else m[k := m[k] + [v]]) else m[k := [v]]
  }

  predicate In<K, V(==)>(m: map<K, seq<V>>, k: K, v: V) {
    k in m && v in m[k]
  }

  lemma AddToMembers<K, V>(m: map<K, seq<V>>, k: K, v: V)
    ensures forall k' :: k' in AddTo(m, k, v) <==> k' in m || k' == k
    ensures forall k', v' :: In(AddTo(m, k, v), k', v') <==> In(m, k', v') || (k' == k && v' == v)
    ensures forall k' :: k' in m ==> Distinct(m[k']) ==> Distinct(AddTo(m, k, v)[k'])
    ensures k !in m ==> AddTo(m, k, v)[k] == [v]
  {
  }

  // ---------------------------------------------------------------------
  // computeTerminals

  /** A production `N -> a` with a single terminal. */
  predicate LetterRule(p: Production) {
    |p.products| == 1 && IsTerminal(p.products[0])
  }

  function TerminalsList(m: map<string, seq<Symbol>>, symbol: Symbol, ps: seq<Production>): map<string, seq<Symbol>>
    decreases |ps|
  {
    if ps == [] then m
    else
      var m' := TerminalsList(m, symbol, ps[..|ps| - 1]);
      var p := ps[|ps| - 1];
      if LetterRule(p) then AddTo(m', p.products[0].text, symbol) else m'
  }

  function TerminalsKeys(g: Grammar, ks: seq<Symbol>): map<string, seq<Symbol>>
    requires forall k :: k in ks ==> k in g.productions
    decreases |ks|
  {
    if ks == [] then map[]
    else TerminalsList(TerminalsKeys(g, ks[..|ks| - 1]), ks[|ks| - 1], g.productions[ks[|ks| - 1]])
  }

  /** The map `computeTerminals` returns: terminal label to left-hand sides. */
  function TerminalsOf(g: Grammar): map<string, seq<Symbol>>
    requires WellFormed(g)
  {
    TerminalsKeys(g, g.keys)
  }

  lemma {:induction false} TerminalsListMembers(m: map<string, seq<Symbol>>, symbol: Symbol, ps: seq<Production>)
    ensures forall l :: l in TerminalsList(m, symbol, ps) <==>
      l in m || exists p :: p in ps && LetterRule(p) && p.products[0].text == l
    ensures forall l, s :: In(TerminalsList(m, symbol, ps), l, s) <==>
      In(m, l, s) || (s == symbol && exists p :: p in ps && LetterRule(p) && p.products[0].text == l)
    ensures forall l :: l in m ==> Distinct(m[l]) ==> Distinct(TerminalsList(m, symbol, ps)[l])
    ensures forall l :: l in TerminalsList(m, symbol, ps) && l !in m ==> TerminalsList(m, symbol, ps)[l] == [symbol]
    decreases |ps|
  {
    if ps != [] {
      var init := ps[..|ps| - 1];
      TerminalsListMembers(m, symbol, init);
      LastSplit(ps);
      var p := ps[|ps| - 1];
      if LetterRule(p) {
        AddToMembers(TerminalsList(m, symbol, init), p.products[0].text, symbol);
      }
    }
  }

  lemma {:induction false} TerminalsKeysMembers(g: Grammar, ks: seq<Symbol>)
    requires forall k :: k in ks ==> k in g.productions
    ensures forall l, s :: In(TerminalsKeys(g, ks), l, s) <==>
      s in ks && exists p :: p in g.productions[s] && LetterRule(p) && p.products[0].text == l
    ensures forall l :: l in TerminalsKeys(g, ks) ==> |l| > 0 && Distinct(TerminalsKeys(g, ks)[l])
    decreases |ks|
  {
    if ks != [] {
      var init := ks[..|ks| - 1];
      var k := ks[|ks| - 1];
      TerminalsKeysMembers(g, init);
      TerminalsListMembers(TerminalsKeys(g, init), k, g.productions[k]);
      LastSplit(ks);
      forall l | l in TerminalsKeys(g, ks) ensures |l| > 0 && Distinct(TerminalsKeys(g, ks)[l]) {
        if l !in TerminalsKeys(g, init) {
          var p :| p in g.productions[k] && LetterRule(p) && p.products[0].text == l;
          assert TerminalsKeys(g, ks)[l] == [k];
        }
      }
    }
  }

  /** `computeTerminals` maps each terminal label to exactly the left-hand
      sides that have a unit production to that terminal. */
  lemma TerminalsOfMembers(g: Grammar, text: string, s: Symbol)
    requires WellFormed(g)
    ensures In(TerminalsOf(g), text, s) <==>
      exists p :: Has(g, p) && p.symbol == s && LetterRule(p) && p.products[0].text == text
    ensures text in TerminalsOf(g) ==> |text| > 0 && Distinct(TerminalsOf(g)[text])
  {
    TerminalsKeysMembers(g, g.keys);
    if In(TerminalsOf(g), text, s) {
      var p :| p in g.productions[s] && LetterRule(p) && p.products[0].text == text;
      assert Keyed(s, g.productions[s]);
    }
  }

  // ---------------------------------------------------------------------
  // buildProductionsForProduct

  /** A production the fixpoint combines: its first symbol is a non-terminal
      other than `eps`. */
  predicate Indexed(p: Production) {
    |p.products| > 0 && !IsTerminal(p.products[0]) && p.products[0] != EPS
  }

  function IndexProducts(m: map<Symbol, seq<Production>>, p: Production, ts: seq<Symbol>): map<Symbol, seq<Production>>
    decreases |ts|
  {
    if ts == [] then m else AddTo(IndexProducts(m, p, ts[..|ts| - 1]), ts[|ts| - 1], p)
  }

  function IndexList(m: map<Symbol, seq<Production>>, ps: seq<Production>): map<Symbol, seq<Production>>
    decreases |ps|
  {
    if ps == [] then m
    else
      var m' := IndexList(m, ps[..|ps| - 1]);
      var p := ps[|ps| - 1];
      if Indexed(p) then IndexProducts(m', p, p.products) else m'
  }

  function IndexKeys(g: Grammar, ks: seq<Symbol>): map<Symbol, seq<Production>>
    requires forall k :: k in ks ==> k in g.productions
    decreases |ks|
  {
    if ks == [] then map[] else IndexList(IndexKeys(g, ks[..|ks| - 1]), g.productions[ks[|ks| - 1]])
  }

  /** The map `buildProductionsForProduct` returns: symbol to the indexed
      productions that use it. */
  function ProductionsForProduct(g: Grammar): map<Symbol, seq<Production>>
    requires WellFormed(g)
  {
    IndexKeys(g, g.keys)
  }

  lemma {:induction false} IndexProductsMembers(m: map<Symbol, seq<Production>>, p: Production, ts: seq<Symbol>)
    ensures forall x, q :: In(IndexProducts(m, p, ts), x, q) <==> In(m, x, q) || (q == p && x in ts)
    decreases |ts|
  {
    if ts != [] {
      var init := ts[..|ts| - 1];
      IndexProductsMembers(m, p, init);
      AddToMembers(IndexProducts(m, p, init), ts[|ts| - 1], p);
      assert ts == init + [ts[|ts| - 1]];
    }
  }

  lemma {:induction false} IndexListMembers(m: map<Symbol, seq<Production>>, ps: seq<Production>)
    ensures forall x, q :: In(IndexList(m, ps), x, q) <==> In(m, x, q) || (q in ps && Indexed(q) && x in q.products)
    decreases |ps|
  {
    if ps != [] {
      var init := ps[..|ps| - 1];
      var p := ps[|ps| - 1];
      IndexListMembers(m, init);
      if Indexed(p) {
        IndexProductsMembers(IndexList(m, init), p, p.products);
      }
      assert ps == init + [p];
    }
  }

  lemma {:induction false} IndexKeysMembers(g: Grammar, ks: seq<Symbol>)
    requires forall k :: k in ks ==> k in g.productions
    ensures forall x, q :: In(IndexKeys(g, ks), x, q) <==>
      exists k :: k in ks && q in g.productions[k] && Indexed(q) && x in q.products
    decreases |ks|
  {
    if ks != [] {
      var init := ks[..|ks| - 1];
      IndexKeysMembers(g, init);
      IndexListMembers(IndexKeys(g, init), g.productions[ks[|ks| - 1]]);
      assert ks == init + [ks[|ks| - 1]];
    }
  }

  /** The index lists under each symbol exactly the indexed productions
      that use it. */
  lemma ProductionsForProductMembers(g: Grammar, x: Symbol, q: Production)
    requires WellFormed(g)
    ensures In(ProductionsForProduct(g), x, q) <==> Has(g, q) && Indexed(q) && x in q.products
  {
    IndexKeysMembers(g, g.keys);
    if In(ProductionsForProduct(g), x, q) {
      var k :| k in g.keys && q in g.productions[k] && Indexed(q) && x in q.products;
      assert Keyed(k, g.productions[k]);
    }
  }

  // ---------------------------------------------------------------------
  // What the worklist keeps

  /** The inputs the construction is written for: a well-formed grammar
      without empty right-hand sides (the index reads `products[0]` of
      each), whose indexed productions are binary wherever they use a
      left-hand side (the fixpoint reads `products[1]` of each production
      listed under the symbol of a reached state, and only left-hand sides
      are ever reached), and an automaton whose edges join existing nodes. */
  ghost predicate Suitable(g: Grammar, a: Automaton) {
    && WellFormed(g)
    && ValidAutomaton(a)
    && (forall p :: Has(g, p) ==> |p.products| > 0)
    && (forall p, s :: Has(g, p) && Indexed(p) && s in p.products && s in g.productions ==> |p.products| == 2)
  }

  /** A unit production to a symbol that has no productions of its own is
      admitted: the fixpoint never looks that symbol up.  A unit production
      to a left-hand side is not. */
  lemma SuitableExamples()
    ensures Suitable(Grammar(Symbol("S"), [Symbol("S")],
                             map[Symbol("S") := [Production(Symbol("S"), [Symbol("A")]), Production(Symbol("S"), [Symbol("a")])]]),
                     Automaton([], []))
    ensures !Suitable(Grammar(Symbol("S"), [Symbol("S")],
                              map[Symbol("S") := [Production(Symbol("S"), [Symbol("S")])]]),
                      Automaton([], []))
  {
    var bad := Grammar(Symbol("S"), [Symbol("S")], map[Symbol("S") := [Production(Symbol("S"), [Symbol("S")])]]);
    var p := Production(Symbol("S"), [Symbol("S")]);
    assert Has(bad, p) && Indexed(p) && Symbol("S") in p.products && Symbol("S") in bad.productions;
  }

  /** A state read off one edge: its symbol has a unit production to the
      edge's letter. */
  ghost predicate Seed(g: Grammar, a: Automaton, x: State) {
    exists e, p :: e in a.edges && Has(g, p) && LetterRule(p) &&
      e.from == x.nodeS && e.to == x.nodeT && p.symbol == x.symbol && p.products[0].text == EdgeLabel(e)
  }

  /** Binary production `p` joins `l` and `r` into their union. */
  predicate Fits(p: Production, l: State, r: State) {
    |p.products| == 2 && l.symbol == p.products[0] && r.symbol == p.products[1] && l.nodeT == r.nodeS
  }

  function Union(p: Production, l: State, r: State): State {
    State(l.nodeS, p.symbol, r.nodeT)
  }

  /** `x` is a seed, or the union of two states reached before it. */
  ghost predicate Justified(g: Grammar, a: Automaton, h: seq<State>, i: nat)
    requires i < |h|
  {
    Seed(g, a, h[i]) ||
    exists j, k, p :: 0 <= j < i && 0 <= k < i && Has(g, p) && Indexed(p) && Fits(p, h[j], h[k]) && h[i] == Union(p, h[j], h[k])
  }

  /** The reached states: `history` lists them in the order they were
      reached, each once; `states` is its set; the queue is the part of the
      history not yet processed; every state lies within the automaton and
      the grammar's left-hand sides, and is justified by earlier ones. */
  ghost predicate Reached(g: Grammar, a: Automaton, history: seq<State>, states: set<State>, queue: seq<State>) {
    && Distinct(history)
    && (forall x :: x in states <==> x in history)
    && |queue| <= |history| && queue == history[|history| - |queue|..]
    && (forall i :: 0 <= i < |history| ==> NodesIn(a, history[i]) && history[i].symbol in g.productions)
    && (forall i {:trigger Justified(g, a, history, i)} :: 0 <= i < |history| ==> Justified(g, a, history, i))
  }

  /** The processed states: the history without the queue. */
  function Processed(history: seq<State>, queue: seq<State>): seq<State>
    requires |queue| <= |history|
  {
    history[..|history| - |queue|]
  }

  /** Any two processed states that a binary production joins have their
      union reached and the production for the union added. */
  ghost predicate Closed(g: Grammar, a: Automaton, processed: seq<State>, states: set<State>, r: Grammar) {
    forall p, l, x ::
      (Has(g, p) && Indexed(p) && Fits(p, l, x) &&
       l in processed && x in processed && NodesIn(a, l) && NodesIn(a, x)) ==>
        Union(p, l, x) in states && Has(r, Binary(a, Union(p, l, x), l, x))
  }

  lemma ClosedMonotone(g: Grammar, a: Automaton, processed: seq<State>, states: set<State>, r: Grammar,
                       states': set<State>, r': Grammar)
    requires Closed(g, a, processed, states, r)
    requires states <= states' && forall q :: Has(r, q) ==> Has(r', q)
    ensures Closed(g, a, processed, states', r')
  {
  }

  /** A justified state stays justified when the history grows at the end. */
  lemma JustifiedExtend(g: Grammar, a: Automaton, history: seq<State>, x: State, i: nat)
    requires i < |history| && Justified(g, a, history, i)
    ensures Justified(g, a, history + [x], i)
  {
    var h := history + [x];
    if !Seed(g, a, h[i]) {
      var j, k, p :| 0 <= j < i && 0 <= k < i && Has(g, p) && Indexed(p) && Fits(p, history[j], history[k]) && history[i] == Union(p, history[j], history[k]);
      assert h[j] == history[j] && h[k] == history[k];
    }
  }

  /** A seed, or the union of two states of the history, is justified at its end. */
  lemma JustifiedNew(g: Grammar, a: Automaton, history: seq<State>, states: set<State>, x: State)
    requires forall y :: y in states <==> y in history
    requires Seed(g, a, x) ||
      exists l, r, p :: l in states && r in states && Has(g, p) && Indexed(p) && Fits(p, l, r) && x == Union(p, l, r)
    ensures Justified(g, a, history + [x], |history|)
  {
    var h := history + [x];
    if !Seed(g, a, x) {
      var l, r, p :| l in states && r in states && Has(g, p) && Indexed(p) && Fits(p, l, r) && x == Union(p, l, r);
      var j :| 0 <= j < |history| && history[j] == l;
      var k :| 0 <= k < |history| && history[k] == r;
      assert h[j] == l && h[k] == r && h[|history|] == x;
    }
  }

  /** Adding a new, justified state at the end keeps the history valid. */
  lemma ReachedExtend(g: Grammar, a: Automaton, history: seq<State>, states: set<State>, queue: seq<State>, x: State)
    requires Reached(g, a, history, states, queue) && x !in states
    requires NodesIn(a, x) && x.symbol in g.productions
    requires Seed(g, a, x) ||
      exists l, r, p :: l in states && r in states && Has(g, p) && Indexed(p) && Fits(p, l, r) && x == Union(p, l, r)
    ensures Reached(g, a, history + [x], states + {x}, queue + [x])
    ensures Processed(history + [x], queue + [x]) == Processed(history, queue)
  {
    var h := history + [x];
    assert h[|h| - |queue + [x]|..] == queue + [x];
    assert h[..|h| - |queue + [x]|] == history[..|history| - |queue|];
    LastSplit(h);
    assert h[..|h| - 1] == history;
    forall i | 0 <= i < |h| ensures Justified(g, a, h, i) {
      if i < |history| {
        JustifiedExtend(g, a, history, x, i);
      } else {
        JustifiedNew(g, a, history, states, x);
      }
    }
    assert Distinct(h) by {
      forall i, j | 0 <= i < j < |h| ensures h[i] != h[j] {
        if j == |history| { assert h[i] == history[i]; }
      }
    }
  }

  lemma ReachedEmpty(g: Grammar, a: Automaton)
    ensures Reached(g, a, [], {}, [])
  {
  }

  // ---------------------------------------------------------------------
  // The productions of the intersection grammar

  /** `q` is the production `[s,N,t] -> a` for an edge `s -a-> t` and a rule `N -> a`. */
  ghost predicate LetterProduction(g: Grammar, a: Automaton, q: Production) {
    exists e, p :: e in a.edges && e.from < |a.nodes| && e.to < |a.nodes| &&
      Has(g, p) && LetterRule(p) && p.products[0].text == EdgeLabel(e) &&
      q == Letter(a, State(e.from, p.symbol, e.to), EdgeLabel(e))
  }

  /** `q` is the production joining two reached states by a binary rule. */
  ghost predicate JoinProduction(g: Grammar, a: Automaton, states: set<State>, q: Production) {
    exists p, l, r :: l in states && r in states && NodesIn(a, l) && NodesIn(a, r) &&
      Has(g, p) && Indexed(p) && Fits(p, l, r) && q == Binary(a, Union(p, l, r), l, r)
  }

  /** Every production of `r` is a start production, reads an edge, or joins two reached states. */
  ghost predicate Sound(g: Grammar, a: Automaton, init: Grammar, states: set<State>, r: Grammar) {
    forall q :: Has(r, q) ==> Has(init, q) || LetterProduction(g, a, q) || JoinProduction(g, a, states, q)
  }

  /** Every edge of `edges` whose letter a rule `N -> a` produces has its state
      `[s,N,t]` reached and its production added. */
  ghost predicate SeededBy(g: Grammar, a: Automaton, edges: seq<Edge>, states: set<State>, r: Grammar) {
    forall e, p ::
      (e in edges && e.from < |a.nodes| && e.to < |a.nodes| &&
       Has(g, p) && LetterRule(p) && p.products[0].text == EdgeLabel(e)) ==>
        State(e.from, p.symbol, e.to) in states && Has(r, Letter(a, State(e.from, p.symbol, e.to), EdgeLabel(e)))
  }

  ghost predicate Seeded(g: Grammar, a: Automaton, states: set<State>, r: Grammar) {
    SeededBy(g, a, a.edges, states, r)
  }

  ghost predicate Includes(r: Grammar, r': Grammar) {
    forall q :: Has(r, q) ==> Has(r', q)
  }

  lemma SoundInsert(g: Grammar, a: Automaton, init: Grammar, states: set<State>, r: Grammar, q: Production)
    requires Sound(g, a, init, states, r)
    requires Has(init, q) || LetterProduction(g, a, q) || JoinProduction(g, a, states, q)
    ensures Sound(g, a, init, states, Insert(r, q)) && Includes(r, Insert(r, q))
  {
    InsertFacts(r, q);
  }

  lemma SoundGrow(g: Grammar, a: Automaton, init: Grammar, states: set<State>, states': set<State>, r: Grammar)
    requires Sound(g, a, init, states, r) && states <= states'
    ensures Sound(g, a, init, states', r)
  {
    forall q | Has(r, q) && JoinProduction(g, a, states, q) ensures JoinProduction(g, a, states', q) {
      var p, l, x :| l in states && x in states && NodesIn(a, l) && NodesIn(a, x) &&
        Has(g, p) && Indexed(p) && Fits(p, l, x) && q == Binary(a, Union(p, l, x), l, x);
      assert l in states' && x in states';
    }
  }

  lemma SeededGrow(g: Grammar, a: Automaton, edges: seq<Edge>, states: set<State>, r: Grammar,
                   states': set<State>, r': Grammar)
    requires SeededBy(g, a, edges, states, r) && states <= states' && Includes(r, r')
    ensures SeededBy(g, a, edges, states', r')
  {
  }

  // ---------------------------------------------------------------------
  // One processing step

  /** After `x` is processed with the binary rule `p`: each partner found in
      `before` on either side has its union reached and its production added. */
  ghost predicate JoinedWith(a: Automaton, p: Production, x: State, before: set<State>, states: set<State>, r: Grammar) {
    NodesIn(a, x) ==>
      && (forall l :: l in before && NodesIn(a, l) && Fits(p, l, x) ==>
            Union(p, l, x) in states && Has(r, Binary(a, Union(p, l, x), l, x)))
      && (forall m :: m in before && NodesIn(a, m) && Fits(p, x, m) ==>
            Union(p, x, m) in states && Has(r, Binary(a, Union(p, x, m), x, m)))
  }

  lemma JoinedWithGrow(a: Automaton, p: Production, x: State, before: set<State>, states: set<State>, r: Grammar,
                       states': set<State>, r': Grammar)
    requires JoinedWith(a, p, x, before, states, r) && states <= states' && Includes(r, r')
    ensures JoinedWith(a, p, x, before, states', r')
  {
  }

  /** Processing `x` with every binary rule that uses its symbol extends the
      closed part of the history by `x`. */
  lemma ClosedStep(g: Grammar, a: Automaton, processed: seq<State>, x: State, before: set<State>,
                   r0: Grammar, states: set<State>, r: Grammar)
    requires Closed(g, a, processed, before, r0)
    requires before <= states && Includes(r0, r)
    requires (forall y :: y in processed ==> y in before) && x in before
    requires forall p :: Has(g, p) && Indexed(p) && x.symbol in p.products ==> JoinedWith(a, p, x, before, states, r)
    ensures Closed(g, a, processed + [x], states, r)
  {
    forall p, l, m | Has(g, p) && Indexed(p) && Fits(p, l, m) &&
        l in processed + [x] && m in processed + [x] && NodesIn(a, l) && NodesIn(a, m)
      ensures Union(p, l, m) in states && Has(r, Binary(a, Union(p, l, m), l, m))
    {
      if l in processed && m in processed {
      } else if m == x {
        assert x.symbol == p.products[1];
        assert JoinedWith(a, p, x, before, states, r);
      } else {
        assert l == x;
        assert x.symbol == p.products[0];
        assert JoinedWith(a, p, x, before, states, r);
      }
    }
  }

  // ---------------------------------------------------------------------
  // Termination of the worklist

  /** All triples over the automaton's nodes and the grammar's left-hand sides. */
  ghost function Universe(g: Grammar, a: Automaton): set<State> {
    set s: nat, y: Symbol, t: nat | s < |a.nodes| && y in g.productions && t < |a.nodes| :: State(s, y, t)
  }

  lemma ReachedBounded(g: Grammar, a: Automaton, history: seq<State>, states: set<State>, queue: seq<State>)
    requires Reached(g, a, history, states, queue)
    ensures states <= Universe(g, a)
  {
    forall x | x in states ensures x in Universe(g, a) {
      var i :| 0 <= i < |history| && history[i] == x;
    }
  }

  lemma GrowthMeasure(u: set<State>, states: set<State>, states': set<State>)
    requires states <= states' <= u
    ensures |u - states'| <= |u - states|
    ensures states != states' ==> |u - states'| < |u - states|
  {
    if states != states' {
      SubsetCardinality(u - states', u - states);
    }
  }

  // ---------------------------------------------------------------------
  // What the finished construction means

  /** A derivation tree of a triple: a rule `N -> a` read along one edge, or
      a binary rule joining the triples of two subtrees. */
  datatype Derivation = Read(edge: Edge, rule: Production) | Combine(rule: Production, left: Derivation, right: Derivation)

  function Root(d: Derivation): State {
    match d
    case Read(e, p) => State(e.from, p.symbol, e.to)
    case Combine(p, l, r) => Union(p, Root(l), Root(r))
  }

  ghost predicate Derives(g: Grammar, a: Automaton, d: Derivation) {
    match d
    case Read(e, p) => e in a.edges && Has(g, p) && LetterRule(p) && p.products[0].text == EdgeLabel(e)
    case Combine(p, l, r) => Has(g, p) && Indexed(p) && Fits(p, Root(l), Root(r)) && Derives(g, a, l) && Derives(g, a, r)
  }

  /** Every reached state has a derivation tree. */
  lemma {:induction false} HistoryDerived(g: Grammar, a: Automaton, history: seq<State>, states: set<State>, queue: seq<State>, i: nat)
    requires Reached(g, a, history, states, queue) && i < |history|
    ensures exists d :: Derives(g, a, d) && Root(d) == history[i]
    decreases i
  {
    assert Justified(g, a, history, i);
    if Seed(g, a, history[i]) {
      var e, p :| e in a.edges && Has(g, p) && LetterRule(p) &&
        e.from == history[i].nodeS && e.to == history[i].nodeT && p.symbol == history[i].symbol && p.products[0].text == EdgeLabel(e);
      assert Derives(g, a, Read(e, p)) && Root(Read(e, p)) == history[i];
    } else {
      var j, k, p :| 0 <= j < i && 0 <= k < i && Has(g, p) && Indexed(p) && Fits(p, history[j], history[k]) &&
        history[i] == Union(p, history[j], history[k]);
      HistoryDerived(g, a, history, states, queue, j);
      HistoryDerived(g, a, history, states, queue, k);
      var dl :| Derives(g, a, dl) && Root(dl) == history[j];
      var dr :| Derives(g, a, dr) && Root(dr) == history[k];
      assert Derives(g, a, Combine(p, dl, dr)) && Root(Combine(p, dl, dr)) == history[i];
    }
  }

  /** Seeded and closed, the states hold the root of every derivation tree. */
  lemma {:induction false} DerivedReached(g: Grammar, a: Automaton, processed: seq<State>, states: set<State>, r: Grammar, d: Derivation)
    requires ValidAutomaton(a) && Seeded(g, a, states, r) && Closed(g, a, processed, states, r)
    requires forall x :: x in states ==> x in processed && NodesIn(a, x)
    requires Derives(g, a, d)
    ensures Root(d) in states
    decreases d
  {
    match d
    case Read(e, p) =>
      assert e.from < |a.nodes| && e.to < |a.nodes|;
    case Combine(p, l, x) =>
      DerivedReached(g, a, processed, states, r, l);
      DerivedReached(g, a, processed, states, r, x);
  }

  /** The state of a finished construction: nothing queued, the history
      closed, the edges seeded, every production accounted for and the start
      productions kept. */
  ghost predicate Finished(g: Grammar, a: Automaton, init: Grammar, history: seq<State>, states: set<State>, r: Grammar) {
    && Reached(g, a, history, states, [])
    && Closed(g, a, history, states, r)
    && Seeded(g, a, states, r)
    && Sound(g, a, init, states, r)
    && Includes(init, r)
  }

  /** After `build`, a triple `[s,X,t]` is reached exactly when a derivation
      tree yields it: `X` derives the word of some path from `s` to `t`. */
  lemma FinishedStates(g: Grammar, a: Automaton, init: Grammar, history: seq<State>, states: set<State>, r: Grammar, x: State)
    requires ValidAutomaton(a) && Finished(g, a, init, history, states, r)
    ensures x in states <==> exists d :: Derives(g, a, d) && Root(d) == x
  {
    if x in states {
      var i :| 0 <= i < |history| && history[i] == x;
      HistoryDerived(g, a, history, states, [], i);
    }
    if exists d :: Derives(g, a, d) && Root(d) == x {
      var d :| Derives(g, a, d) && Root(d) == x;
      forall y | y in states ensures y in history && NodesIn(a, y) {
        var i :| 0 <= i < |history| && history[i] == y;
      }
      DerivedReached(g, a, history, states, r, d);
    }
  }

  /** After `build`, the intersection grammar holds exactly the start
      productions, one production per edge letter, and one production per
      pair of reached states a binary rule joins. */
  lemma FinishedProductions(g: Grammar, a: Automaton, init: Grammar, history: seq<State>, states: set<State>, r: Grammar, q: Production)
    requires ValidAutomaton(a) && Finished(g, a, init, history, states, r)
    ensures Has(r, q) <==> Has(init, q) || LetterProduction(g, a, q) || JoinProduction(g, a, states, q)
  {
    if JoinProduction(g, a, states, q) {
      var p, l, x :| l in states && x in states && NodesIn(a, l) && NodesIn(a, x) &&
        Has(g, p) && Indexed(p) && Fits(p, l, x) && q == Binary(a, Union(p, l, x), l, x);
      assert l in history && x in history;
    }
  }

  /** Taking the head of the queue moves it into the processed part. */
  lemma ReachedPop(g: Grammar, a: Automaton, history: seq<State>, states: set<State>, queue: seq<State>)
    requires Reached(g, a, history, states, queue) && queue != []
    ensures Reached(g, a, history, states, queue[1..])
    ensures Processed(history, queue[1..]) == Processed(history, queue) + [queue[0]]
    ensures queue[0] in states && NodesIn(a, queue[0])
    ensures forall y :: y in Processed(history, queue) ==> y in states
  {
    var k := |history| - |queue|;
    assert history[k] == queue[0];
    assert history[k + 1..] == queue[1..];
    assert history[..k + 1] == history[..k] + [history[k]];
  }
}
