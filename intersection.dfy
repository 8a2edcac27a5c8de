/** `IntersectionCFGrammar`: the grammar of the words of a context-free
    language that a finite automaton accepts, built from triples
    `[s,X,t]` by a worklist. */
module Intersection {
  import opened Util
  import opened CfGrammar
  import opened IntersectionSpec
  import opened IntersectionRun

  class IntersectionCFGrammar {
    const grammar: Grammar
    const automaton: Automaton
    var states: set<State>
    var stateQueue: seq<State>
    const intersectionGrammar: CFGrammar
    var built: bool
    /** The reached states in the order they were reached. */
    ghost var history: seq<State>
    /** The grammar `initGrammar` made. */
    ghost const init: Grammar

    /** The fields `build` changes, as one value. */
    ghost function Snapshot(): Run
      reads this, intersectionGrammar
    {
      Run(history, states, stateQueue, intersectionGrammar.Value())
    }

    /** Before `build` nothing is reached and the grammar is `init`, the one
        `initGrammar` made; after it the construction is finished. */
    ghost predicate Valid()
      reads this, intersectionGrammar
    {
      && Suitable(grammar, automaton)
      && intersectionGrammar.Valid()
      && (!built ==> Snapshot() == Run([], {}, [], init))
      && (built ==> stateQueue == [] && Finished(grammar, automaton, init, history, states, intersectionGrammar.Value()))
    }

    constructor (g: Grammar, a: Automaton, ig: CFGrammar)
      requires Suitable(g, a) && ig.Valid() && Initialised(g, a) == Success(ig.Value())
      ensures Valid() && !built && grammar == g && automaton == a && intersectionGrammar == ig
      ensures Initialised(g, a) == Success(init)
    {
      grammar := g;
      automaton := a;
      intersectionGrammar := ig;
      init := ig.Value();
      states := {};
      stateQueue := [];
      history := [];
      built := false;
    }

    /** The class constructor of the source: `initGrammar` runs at once and
        fails when the automaton has no single start node or no accepting
        node. */
    static method Create(g: Grammar, a: Automaton) returns (r: Result<IntersectionCFGrammar, string>)
      requires Suitable(g, a)
      ensures r.Failure? ==> Initialised(g, a) == Failure(r.error)
      ensures r.Success? ==> Initialised(g, a) == Success(r.value.init) && fresh(r.value) && fresh(r.value.intersectionGrammar)
      ensures r.Success? ==> r.value.Valid() && !r.value.built && r.value.grammar == g && r.value.automaton == a
    {
      var startNode := FindStartNode(a);
      if startNode.Failure? {
        return Failure(startNode.error);
      }
      var terminalNodes := FindTerminalNodes(a);
      if terminalNodes.Failure? {
        return Failure(terminalNodes.error);
      }
      var ig := InitGrammar(g, a, startNode.value, terminalNodes.value);
      var x := new IntersectionCFGrammar(g, a, ig);
      return Success(x);
    }

    /** `initGrammar` once the start node and the accepting nodes are known. */
    static method InitGrammar(g: Grammar, a: Automaton, start: nat, terminalNodes: seq<nat>) returns (ig: CFGrammar)
      requires start < |a.nodes| && forall i :: 0 <= i < |terminalNodes| ==> terminalNodes[i] < |a.nodes|
      ensures fresh(ig) && ig.Valid()
      ensures ig.Value() == InsertAll(Empty(IntersectionInitial()), InitAdds(g, a, start, terminalNodes))
    {
      var intersectionInitialNode := MakeSymbol("S");
      ig := new CFGrammar(intersectionInitialNode);
      var grammarContainsEpsRule := ContainsEpsRule(g);
      for i := 0 to |terminalNodes|
        invariant fresh(ig) && ig.Valid()
        invariant ig.Value() == InsertAll(Empty(intersectionInitialNode), InitAdds(g, a, start, terminalNodes[..i]))
      {
        assert terminalNodes[..i + 1][..i] == terminalNodes[..i];
        AddStart(ig, g, a, start, terminalNodes[i], grammarContainsEpsRule);
        InsertAllAppend(Empty(intersectionInitialNode), InitAdds(g, a, start, terminalNodes[..i]), StartAdds(g, a, start, terminalNodes[i]));
      }
      assert terminalNodes[..|terminalNodes|] == terminalNodes;
    }

    /** The body of the loop of `initGrammar` for the accepting node `t`. */
    static method AddStart(ig: CFGrammar, g: Grammar, a: Automaton, start: nat, t: nat, grammarContainsEpsRule: bool)
      requires start < |a.nodes| && t < |a.nodes| && ig.Valid() && grammarContainsEpsRule == ContainsEpsRule(g)
      modifies ig
      ensures ig.Valid() && ig.Value() == InsertAll(old(ig.Value()), StartAdds(g, a, start, t))
    {
      var intersectionInitialNode := MakeSymbol("S");
      var stateSymbol := StateSymbol(a, State(start, g.initial, t));
      ig.AddProduction(Production(intersectionInitialNode, [stateSymbol]));
      InsertAllSnoc(old(ig.Value()), [], Production(intersectionInitialNode, [stateSymbol]));
      if grammarContainsEpsRule && start == t {
        ig.AddProduction(Production(stateSymbol, [EPS]));
        InsertAllSnoc(old(ig.Value()), [Production(intersectionInitialNode, [stateSymbol])], Production(stateSymbol, [EPS]));
      } else {
        assert StartAdds(g, a, start, t) == [Production(intersectionInitialNode, [stateSymbol])];
      }
    }

    /** `computeTerminals`: for each terminal, the left-hand sides with a
        unit production to it. */
    method ComputeTerminals() returns (terminals: map<string, seq<Symbol>>)
      requires WellFormed(grammar)
      ensures terminals == TerminalsOf(grammar)
    {
      terminals := map[];
      var keys := grammar.keys;
      for i := 0 to |keys|
        invariant terminals == TerminalsKeys(grammar, keys[..i])
      {
        var symbol := keys[i];
        var symbolProductions := grammar.productions[symbol];
        assert keys[..i + 1][..i] == keys[..i];
        ghost var m := terminals;
        for j := 0 to |symbolProductions|
          invariant terminals == TerminalsList(m, symbol, symbolProductions[..j])
        {
          var production := symbolProductions[j];
          assert symbolProductions[..j + 1][..j] == symbolProductions[..j];
          if |production.products| == 1 && IsTerminal(production.products[0]) {
            var letter := production.products[0].text;
            ghost var t0 := terminals;
            if letter !in terminals {
              terminals := terminals[letter := []];
            }
            if symbol !in terminals[letter] {
              terminals := terminals[letter := terminals[letter] + [symbol]];
            }
            assert [] + [symbol] == [symbol];
            assert letter !in t0 ==> terminals == t0[letter := [symbol]];
            assert terminals == AddTo(t0, letter, symbol);
          }
        }
        assert symbolProductions[..|symbolProductions|] == symbolProductions;
      }
      assert keys[..|keys|] == keys;
    }

    /** Index one production under each of its symbols. */
    static method IndexProduction(index: map<Symbol, seq<Production>>, production: Production)
      returns (r: map<Symbol, seq<Production>>)
      ensures r == IndexProducts(index, production, production.products)
    {
      r := index;
      var products := production.products;
      for k := 0 to |products|
        invariant r == IndexProducts(index, production, products[..k])
      {
        var product := products[k];
        assert products[..k + 1][..k] == products[..k];
        ghost var r0 := r;
        if product !in r {
          r := r[product := []];
        }
        if production !in r[product] {
          r := r[product := r[product] + [production]];
        }
        assert [] + [production] == [production];
        assert product !in r0 ==> r == r0[product := [production]];
        assert r == AddTo(r0, product, production);
      }
      assert products[..|products|] == products;
    }

    /** `buildProductionsForProduct`: for each symbol, the productions that
        start with a non-terminal and use the symbol. */
    method BuildProductionsForProduct() returns (productionsForProduct: map<Symbol, seq<Production>>)
      requires Suitable(grammar, automaton)
      ensures productionsForProduct == ProductionsForProduct(grammar)
    {
      productionsForProduct := map[];
      var keys := grammar.keys;
      for i := 0 to |keys|
        invariant productionsForProduct == IndexKeys(grammar, keys[..i])
      {
        var symbolProductions := grammar.productions[keys[i]];
        assert keys[..i + 1][..i] == keys[..i];
        assert Keyed(keys[i], symbolProductions);
        ghost var m := productionsForProduct;
        for j := 0 to |symbolProductions|
          invariant productionsForProduct == IndexList(m, symbolProductions[..j])
        {
          var production := symbolProductions[j];
          assert symbolProductions[..j + 1][..j] == symbolProductions[..j];
          assert Has(grammar, production);
          if !IsTerminal(production.products[0]) && production.products[0] != EPS {
            productionsForProduct := IndexProduction(productionsForProduct, production);
          }
        }
        assert symbolProductions[..|symbolProductions|] == symbolProductions;
      }
      assert keys[..|keys|] == keys;
    }

    /** `reachStateFrom`: add the production for `state` when it is built from
        two children, and queue `state` the first time it is reached. */
    method ReachStateFrom(state: State, children: Option<(State, State)>)
      requires intersectionGrammar.Valid() && NodesIn(automaton, state)
      requires children.Some? ==> NodesIn(automaton, children.value.0) && NodesIn(automaton, children.value.1)
      modifies this, intersectionGrammar
      ensures intersectionGrammar.Valid() && built == old(built)
      ensures Snapshot() == if children.Some?
        then Add(Reach(old(Snapshot()), state), Binary(automaton, state, children.value.0, children.value.1))
        else Reach(old(Snapshot()), state)
    {
      if children.Some? {
        var (leftState, rightState) := children.value;
        intersectionGrammar.AddProduction(Binary(automaton, state, leftState, rightState));
      }
      if state !in states {
        states := states + {state};
        stateQueue := stateQueue + [state];
        history := history + [state];
      }
    }

    /** `terminals[label]?.forEach` in `generateSingleLetterProductions`:
        reach `[s,N,t]` and add `[s,N,t] -> a` for each `N` listed. */
    method ReadEdge(link: Edge, letter: string, symbols: seq<Symbol>)
      requires intersectionGrammar.Valid() && link.from < |automaton.nodes| && link.to < |automaton.nodes| && |letter| > 0
      modifies this, intersectionGrammar
      ensures intersectionGrammar.Valid() && built == old(built)
      ensures Snapshot() == ReadAll(automaton, old(Snapshot()), link, letter, symbols)
    {
      for j := 0 to |symbols|
        invariant intersectionGrammar.Valid() && built == old(built)
        invariant Snapshot() == ReadAll(automaton, old(Snapshot()), link, letter, symbols[..j])
      {
        var terminal := symbols[j];
        var state := State(link.from, terminal, link.to);
        assert symbols[..j + 1][..j] == symbols[..j];
        ReachStateFrom(state, None);
        var newProduction := Letter(automaton, state, letter);
        intersectionGrammar.AddProduction(newProduction);
      }
      assert symbols[..|symbols|] == symbols;
    }

    /** `generateSingleLetterProductions`: every edge `s -a-> t` reaches
        `[s,N,t]` for each rule `N -> a`. */
    method GenerateSingleLetterProductions()
      requires Suitable(grammar, automaton) && intersectionGrammar.Valid()
      modifies this, intersectionGrammar
      ensures intersectionGrammar.Valid() && built == old(built)
      ensures forall i :: 0 <= i < |automaton.edges| ==>
        automaton.edges[i].from < |automaton.nodes| && automaton.edges[i].to < |automaton.nodes|
      ensures forall l :: l in TerminalsOf(grammar) ==> |l| > 0
      ensures Snapshot() == Seeds(automaton, old(Snapshot()), automaton.edges, TerminalsOf(grammar))
    {
      var terminals := ComputeTerminals();
      TerminalsOfLabels(grammar);
      var edges := automaton.edges;
      assert forall k :: 0 <= k < |edges| ==> edges[k] in automaton.edges;
      for i := 0 to |edges|
        invariant intersectionGrammar.Valid() && built == old(built)
        invariant Snapshot() == Seeds(automaton, old(Snapshot()), edges[..i], terminals)
      {
        var link := edges[i];
        var letter := EdgeLabel(link);
        assert edges[..i + 1][..i] == edges[..i];
        if letter in terminals {
          ReadEdge(link, letter, terminals[letter]);
        }
      }
      assert edges[..|edges|] == edges;
    }

    /** `nodes.forEach` in `build` for the popped state and one rule: join the
        state with each reached complementing state, as the right partner when
        `isSymbolFirst` and as the left partner otherwise. */
    method JoinPartners(state: State, production: Production, isSymbolFirst: bool)
      requires intersectionGrammar.Valid() && NodesIn(automaton, state) && |production.products| == 2
      modifies this, intersectionGrammar
      ensures intersectionGrammar.Valid() && built == old(built)
      ensures Snapshot() == Partners(automaton, old(Snapshot()), production, state, isSymbolFirst, |automaton.nodes|)
    {
      for complementingNode := 0 to |automaton.nodes|
        invariant intersectionGrammar.Valid() && built == old(built)
        invariant Snapshot() == Partners(automaton, old(Snapshot()), production, state, isSymbolFirst, complementingNode)
      {
        var complementingState := if isSymbolFirst
          then State(state.nodeT, production.products[1], complementingNode)
          else State(complementingNode, production.products[0], state.nodeS);
        if complementingState in states {
          var unionState := if isSymbolFirst
            then State(state.nodeS, production.symbol, complementingNode)
            else State(complementingNode, production.symbol, state.nodeT);
          if isSymbolFirst {
            ReachStateFrom(unionState, Some((state, complementingState)));
          } else {
            ReachStateFrom(unionState, Some((complementingState, state)));
          }
        }
      }
    }

    /** The body of `productionsForProduct[symbol]?.forEach` as written:
        `isSymbolFirst` picks one side only. */
    method ProcessProductionAsWritten(state: State, production: Production)
      requires intersectionGrammar.Valid() && NodesIn(automaton, state) && |production.products| == 2
      modifies this, intersectionGrammar
      ensures intersectionGrammar.Valid() && built == old(built)
      ensures Snapshot() == ProcessAsWritten(automaton, old(Snapshot()), production, state)
    {
      var isSymbolFirst := production.products[0] == state.symbol;
      JoinPartners(state, production, isSymbolFirst);
    }

    /** The body of `productionsForProduct[symbol]?.forEach`, corrected: a
        state carrying the first symbol looks for right partners, one
        carrying the second for left partners, and one carrying both for
        both. */
    method ProcessProduction(state: State, production: Production)
      requires intersectionGrammar.Valid() && NodesIn(automaton, state) && |production.products| == 2
      modifies this, intersectionGrammar
      ensures intersectionGrammar.Valid() && built == old(built)
      ensures Snapshot() == Process(automaton, old(Snapshot()), production, state)
    {
      if production.products[0] == state.symbol {
        JoinPartners(state, production, true);
      }
      if production.products[1] == state.symbol {
        JoinPartners(state, production, false);
      }
    }

    /** `productionsForProduct[symbol]?.forEach` for the popped state. */
    method ProcessState(state: State, productions: seq<Production>)
      requires intersectionGrammar.Valid() && NodesIn(automaton, state)
      requires forall i :: 0 <= i < |productions| ==> |productions[i].products| == 2
      modifies this, intersectionGrammar
      ensures intersectionGrammar.Valid() && built == old(built)
      ensures Snapshot() == ProcessAll(automaton, old(Snapshot()), state, productions)
    {
      for i := 0 to |productions|
        invariant intersectionGrammar.Valid() && built == old(built)
        invariant Snapshot() == ProcessAll(automaton, old(Snapshot()), state, productions[..i])
      {
        assert productions[..i + 1][..i] == productions[..i];
        ProcessProduction(state, productions[i]);
      }
      assert productions[..|productions|] == productions;
    }

    /** One turn of the loop of `build`: pop the head of the queue and
        process it with each rule the index lists under its symbol. */
    method ProcessNext(productionsForProduct: map<Symbol, seq<Production>>)
      requires intersectionGrammar.Valid() && stateQueue != [] && NodesIn(automaton, stateQueue[0])
      requires var k := stateQueue[0].symbol; k in productionsForProduct ==>
        forall i :: 0 <= i < |productionsForProduct[k]| ==> |productionsForProduct[k][i].products| == 2
      modifies this, intersectionGrammar
      ensures intersectionGrammar.Valid() && built == old(built)
      ensures Snapshot() == Turn(automaton, old(Snapshot()), productionsForProduct)
    {
      var state := stateQueue[0];
      stateQueue := stateQueue[1..];
      if state.symbol in productionsForProduct {
        ProcessState(state, productionsForProduct[state.symbol]);
      }
    }

    /** The loop of `build`: process queued states until the queue is empty.
        Each turn either reaches a new triple, of which there are finitely
        many, or shortens the queue. */
    method ProcessQueue(productionsForProduct: map<Symbol, seq<Production>>)
      requires Suitable(grammar, automaton) && productionsForProduct == ProductionsForProduct(grammar)
      requires intersectionGrammar.Valid() && Progress(grammar, automaton, init, Snapshot())
      modifies this, intersectionGrammar
      ensures intersectionGrammar.Valid() && built == old(built) && stateQueue == []
      ensures Progress(grammar, automaton, init, Snapshot())
    {
      IndexShape(grammar, automaton);
      while stateQueue != []
        invariant intersectionGrammar.Valid() && built == old(built)
        invariant Progress(grammar, automaton, init, Snapshot())
        decreases |Universe(grammar, automaton) - states|, |stateQueue|
      {
        TurnProgress(grammar, automaton, init, Snapshot());
        ProcessNext(productionsForProduct);
      }
    }

    /** The body of `build` on a fresh object: read the edges, then run the
        worklist to the end. */
    method Construct()
      requires Suitable(grammar, automaton) && intersectionGrammar.Valid()
      requires Snapshot() == Run([], {}, [], init)
      modifies this, intersectionGrammar
      ensures intersectionGrammar.Valid() && built == old(built) && stateQueue == []
      ensures Finished(grammar, automaton, init, history, states, intersectionGrammar.Value())
    {
      StartProgress(grammar, automaton, init);
      GenerateSingleLetterProductions();
      var productionsForProduct := BuildProductionsForProduct();
      ProcessQueue(productionsForProduct);
      ProgressFinished(grammar, automaton, init, Snapshot());
    }

    /** `build`: construct once; later calls change nothing. */
    method Build()
      requires Valid()
      modifies this, intersectionGrammar
      ensures Valid() && built
      ensures old(built) ==> Snapshot() == old(Snapshot())
    {
      if built {
        return;
      }
      Construct();
      built := true;
    }

    /** `get`: build on first use, then hand out the intersection grammar. */
    method Get() returns (r: CFGrammar)
      requires Valid()
      modifies this, intersectionGrammar
      ensures Valid() && built && r == intersectionGrammar
      ensures Finished(grammar, automaton, init, history, states, r.Value())
      ensures old(built) ==> Snapshot() == old(Snapshot())
    {
      if !built {
        Build();
      }
      r := intersectionGrammar;
    }
  }
}
