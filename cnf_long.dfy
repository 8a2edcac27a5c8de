/** The first pass of `toChomskyNormalForm` (`removeLongProductions`): every
    production with more than two right-hand symbols becomes a chain of binary
    productions through fresh symbols named after the left-hand side and a
    counter that restarts at 0 for every left-hand side. */
module CnfLong {
  import opened Util
  import opened CfGrammar

  /** The fresh symbol `lhs.text + counter` (what `makeSymbol` returns for it). */
  function FreshSymbol(lhs: Symbol, counter: nat): Symbol {
    Symbol(lhs.text + NatToString(counter))
  }

  /** Fresh symbols of one left-hand side are pairwise distinct and differ from it. */
  lemma FreshSymbolsDistinct(lhs: Symbol, c1: nat, c2: nat)
    ensures FreshSymbol(lhs, c1) != lhs
    ensures c1 != c2 ==> FreshSymbol(lhs, c1) != FreshSymbol(lhs, c2)
  {
    var s1, s2 := lhs.text + NatToString(c1), lhs.text + NatToString(c2);
    assert |FreshSymbol(lhs, c1).text| > |lhs.text|;
    if FreshSymbol(lhs, c1) == FreshSymbol(lhs, c2) {
      assert s1 == s2;
      assert NatToString(c1) == s1[|lhs.text|..] == s2[|lhs.text|..] == NatToString(c2);
      NatToStringInjective(c1, c2);
    }
  }

  /** Link i+1 of the chain for `p` when the counter stands at `c`:
      `A(c+i) -> X(i+1) A(c+i+1)`, or `A(c+i) -> X(k-2) X(k-1)` for the last one. */
  function Link(p: Production, c: nat, i: nat): Production
    requires i < |p.products| - 2
  {
    var k := |p.products|;
    Production(FreshSymbol(p.symbol, c + i),
               [p.products[i + 1], if i == k - 3 then p.products[i + 2] else FreshSymbol(p.symbol, c + i + 1)])
  }

  /** Links i+1, i+2, ... of the chain for `p` when the counter stands at `c`. */
  function Links(p: Production, c: nat, i: nat): seq<Production>
    requires i <= |p.products| - 2
    decreases |p.products| - 2 - i
  {
    if i == |p.products| - 2 then [] else [Link(p, c, i)] + Links(p, c, i + 1)
  }

  /** The chain that replaces a production `A -> X0 X1 ... X(k-1)`, k > 2, when
      the counter stands at `c`:
      `A -> X0 A(c)`, `A(c) -> X1 A(c+1)`, ..., `A(c+k-3) -> X(k-2) X(k-1)`. */
  function Chain(p: Production, c: nat): seq<Production>
    requires |p.products| > 2
  {
    [Production(p.symbol, [p.products[0], FreshSymbol(p.symbol, c)])] + Links(p, c, 0)
  }

  lemma {:induction false} LinksAt(p: Production, c: nat, i: nat)
    requires i <= |p.products| - 2
    ensures |Links(p, c, i)| == |p.products| - 2 - i
    ensures forall t :: 0 <= t < |Links(p, c, i)| ==> Links(p, c, i)[t] == Link(p, c, i + t)
    decreases |p.products| - 2 - i
  {
    if i < |p.products| - 2 {
      LinksAt(p, c, i + 1);
    }
  }

  /** Link i (i >= 1) of the chain is `Link(p, c, i-1)`; there are k-1 links. */
  lemma ChainAt(p: Production, c: nat, i: nat)
    requires |p.products| > 2 && 1 <= i < |p.products| - 1
    ensures |Chain(p, c)| == |p.products| - 1
    ensures Chain(p, c)[i] == Link(p, c, i - 1)
  {
    LinksAt(p, c, 0);
    assert Chain(p, c)[i] == Links(p, c, 0)[i - 1];
  }

  /** A chain has k-1 binary links: the first keeps the left-hand side, link i
      (i >= 1) is `Link(p, c, i-1)` and so defines the fresh symbol with
      counter c+i-1, and each link's second symbol is the next link's
      left-hand side. */
  lemma ChainShape(p: Production, c: nat)
    requires |p.products| > 2
    ensures var r := Chain(p, c);
      && |r| == |p.products| - 1
      && (forall i :: 0 <= i < |r| ==> |r[i].products| == 2)
      && (forall i :: 1 <= i < |r| ==> r[i] == Link(p, c, i - 1))
      && r[0].symbol == p.symbol
      && (forall i :: 1 <= i < |r| ==> r[i].symbol == FreshSymbol(p.symbol, c + i - 1))
      && (forall i :: 0 <= i < |r| - 1 ==> r[i].products[1] == r[i + 1].symbol)
  {
    var r := Chain(p, c);
    var links := Links(p, c, 0);
    LinksAt(p, c, 0);
    forall i | 1 <= i < |r| ensures r[i] == Link(p, c, i - 1) {
      assert r[i] == links[i - 1];
    }
  }

  /** The right-hand side spelled out by a chain of binary productions: the
      first symbol of every link, then the last link's second symbol. */
  function Unchain(r: seq<Production>): seq<Symbol>
    requires |r| > 0 && forall i :: 0 <= i < |r| ==> |r[i].products| == 2
  {
    seq(|r|, i requires 0 <= i < |r| => r[i].products[0]) + [r[|r| - 1].products[1]]
  }

  /** Unchaining the chain gives back the original right-hand side. */
  lemma ChainRoundTrip(p: Production, c: nat)
    requires |p.products| > 2
    ensures var r := Chain(p, c);
      (forall i :: 0 <= i < |r| ==> |r[i].products| == 2) && Unchain(r) == p.products
  {
    ChainShape(p, c);
    var r := Chain(p, c);
    var k := |p.products|;
    var u := Unchain(r);
    forall i | 0 <= i < k ensures u[i] == p.products[i] {
      if i == k - 1 {
        assert u[i] == r[k - 2].products[1] == Link(p, c, k - 3).products[1];
      } else if i > 0 {
        assert u[i] == r[i].products[0] == Link(p, c, i - 1).products[0];
      }
    }
  }

  /** How far a production advances its left-hand side's counter. */
  function Growth(p: Production): nat {
    if |p.products| > 2 then |p.products| - 2 else 0
  }

  /** The counter after the productions of `ps` have been processed. */
  function Used(ps: seq<Production>): nat
    decreases |ps|
  {
    if ps == [] then 0 else Used(ps[..|ps| - 1]) + Growth(ps[|ps| - 1])
  }

  /** What one production contributes when the counter stands at `c`. */
  function ShortenOne(p: Production, c: nat): seq<Production> {
    if |p.products| <= 2 then [p] else Chain(p, c)
  }

  /** What the productions of one left-hand side contribute, in order. */
  function ShortenList(ps: seq<Production>): seq<Production>
    decreases |ps|
  {
    if ps == [] then [] else ShortenList(ps[..|ps| - 1]) + ShortenOne(ps[|ps| - 1], Used(ps[..|ps| - 1]))
  }

  /** What the left-hand sides `ks` contribute, in key order. */
  function ShortenKeys(g: Grammar, ks: seq<Symbol>): seq<Production>
    requires forall k :: k in ks ==> k in g.productions
    decreases |ks|
  {
    if ks == [] then [] else ShortenKeys(g, ks[..|ks| - 1]) + ShortenList(g.productions[ks[|ks| - 1]])
  }

  /** The grammar `removeLongProductions` builds. */
  function Shortened(g: Grammar): Grammar
    requires WellFormed(g)
  {
    InsertAll(Empty(g.initial), ShortenKeys(g, g.keys))
  }

  /** One more production of a left-hand side extends its contribution by
      that production's own, numbered from the counter reached so far. */
  lemma ShortenListStep(ps: seq<Production>, j: nat)
    requires j < |ps|
    ensures ShortenList(ps[..j + 1]) == ShortenList(ps[..j]) + ShortenOne(ps[j], Used(ps[..j]))
    ensures Used(ps[..j + 1]) == Used(ps[..j]) + Growth(ps[j])
  {
    assert ps[..j + 1][..j] == ps[..j];
  }

  lemma ShortenKeysStep(g: Grammar, ks: seq<Symbol>, i: nat)
    requires forall k :: k in ks ==> k in g.productions
    requires i < |ks|
    ensures ShortenKeys(g, ks[..i + 1]) == ShortenKeys(g, ks[..i]) + ShortenList(g.productions[ks[i]])
  {
    assert ks[..i + 1][..i] == ks[..i];
  }

  /** Chains of two different productions of one left-hand side use disjoint
      counter ranges, so no fresh symbol is defined twice. */
  lemma {:induction false} CounterRangesDisjoint(ps: seq<Production>, j1: nat, j2: nat)
    requires j1 < j2 <= |ps|
    ensures Used(ps[..j1]) + Growth(ps[j1]) <= Used(ps[..j2])
    decreases j2
  {
    assert ps[..j2][..j2 - 1] == ps[..j2 - 1];
    if j1 < j2 - 1 {
      CounterRangesDisjoint(ps, j1, j2 - 1);
    } else {
      assert ps[..j2][j2 - 1] == ps[j1];
    }
  }

  /** Production `q` is contributed by the j-th production of `ps`. */
  predicate ContributesAt(ps: seq<Production>, j: int, q: Production) {
    0 <= j < |ps| && q in ShortenOne(ps[j], Used(ps[..j]))
  }

  /** Everything the j-th production contributes ends up in the list's contribution. */
  lemma {:induction false} ShortenListContains(ps: seq<Production>, j: nat, q: Production)
    requires ContributesAt(ps, j, q)
    ensures q in ShortenList(ps)
    decreases |ps|
  {
    var n := |ps| - 1;
    var init := ps[..n];
    if j < n {
      assert ContributesAt(init, j, q) by {
        assert init[..j] == ps[..j] && init[j] == ps[j];
      }
      ShortenListContains(init, j, q);
    } else {
      assert q in ShortenOne(ps[n], Used(init)) by {
        assert ps[..j] == init;
      }
    }
  }

  /** Everything in the list's contribution comes from one of its productions. */
  lemma {:induction false} ShortenListOrigin(ps: seq<Production>, q: Production)
    requires q in ShortenList(ps)
    ensures exists j :: ContributesAt(ps, j, q)
    decreases |ps|
  {
    var n := |ps| - 1;
    var init := ps[..n];
    if q in ShortenList(init) {
      ShortenListOrigin(init, q);
      var j :| ContributesAt(init, j, q);
      assert init[..j] == ps[..j];
      assert ContributesAt(ps, j, q);
    } else {
      assert ContributesAt(ps, n, q);
    }
  }

  lemma {:induction false} ShortenKeysContains(g: Grammar, ks: seq<Symbol>, i: nat, j: nat, q: Production)
    requires forall k :: k in ks ==> k in g.productions
    requires i < |ks| && ContributesAt(g.productions[ks[i]], j, q)
    ensures q in ShortenKeys(g, ks)
    decreases |ks|
  {
    var init := ks[..|ks| - 1];
    if i < |ks| - 1 {
      assert init[i] == ks[i];
      ShortenKeysContains(g, init, i, j, q);
    } else {
      ShortenListContains(g.productions[ks[i]], j, q);
    }
  }

  lemma {:induction false} ShortenKeysOrigin(g: Grammar, ks: seq<Symbol>, q: Production)
    requires forall k :: k in ks ==> k in g.productions
    requires q in ShortenKeys(g, ks)
    ensures exists k, j :: k in ks && ContributesAt(g.productions[k], j, q)
    decreases |ks|
  {
    var last := ks[|ks| - 1];
    var init := ks[..|ks| - 1];
    if q in ShortenKeys(g, init) {
      ShortenKeysOrigin(g, init, q);
      var k, j :| k in init && ContributesAt(g.productions[k], j, q);
      assert k in ks;
    } else {
      ShortenListOrigin(g.productions[last], q);
    }
  }

  /** Every production of the shortened grammar has at most two right-hand
      symbols, and at least one when every input production has one. */
  lemma ShortenedShape(g: Grammar, q: Production)
    requires WellFormed(g) && Has(Shortened(g), q)
    ensures |q.products| <= 2
    ensures (forall p :: Has(g, p) ==> |p.products| >= 1) ==> |q.products| >= 1
  {
    InsertAllHas(Empty(g.initial), ShortenKeys(g, g.keys));
    ShortenKeysOrigin(g, g.keys, q);
    var k, j :| k in g.keys && ContributesAt(g.productions[k], j, q);
    var p := g.productions[k][j];
    assert Has(g, p);
    if |p.products| > 2 {
      ChainShape(p, Used(g.productions[k][..j]));
    }
  }

  /** Productions with at most two right-hand symbols are copied unchanged. */
  lemma ShortenedKeepsShort(g: Grammar, p: Production)
    requires WellFormed(g) && Has(g, p) && |p.products| <= 2
    ensures Has(Shortened(g), p)
  {
    InsertAllHas(Empty(g.initial), ShortenKeys(g, g.keys));
    var ps := g.productions[p.symbol];
    var j :| 0 <= j < |ps| && ps[j] == p;
    var i :| 0 <= i < |g.keys| && g.keys[i] == p.symbol;
    assert ContributesAt(ps, j, p);
    ShortenKeysContains(g, g.keys, i, j, p);
  }

  /** The counter a left-hand side has reached when its production `p` is
      processed: the fresh symbols used by the productions listed before it. */
  function CounterBefore(g: Grammar, p: Production): nat
    requires Has(g, p)
  {
    var ps := g.productions[p.symbol];
    Used(ps[..IndexOf(ps, p)])
  }

  /** A longer production is replaced by its chain, numbered from the counter
      its left-hand side had reached; conversely every production of the
      result is a short input production or a link of such a chain. */
  lemma ShortenedSplitsLong(g: Grammar, p: Production)
    requires WellFormed(g) && Has(g, p) && |p.products| > 2
    ensures forall q :: q in Chain(p, CounterBefore(g, p)) ==> Has(Shortened(g), q)
  {
    InsertAllHas(Empty(g.initial), ShortenKeys(g, g.keys));
    var ps := g.productions[p.symbol];
    var j := IndexOf(ps, p);
    var c := Used(ps[..j]);
    var i :| 0 <= i < |g.keys| && g.keys[i] == p.symbol;
    forall q | q in Chain(p, c) ensures Has(Shortened(g), q) {
      assert ContributesAt(ps, j, q);
      ShortenKeysContains(g, g.keys, i, j, q);
    }
  }

  lemma ShortenedOrigin(g: Grammar, q: Production)
    requires WellFormed(g) && Has(Shortened(g), q)
    ensures (Has(g, q) && |q.products| <= 2) ||
            exists p, c :: Has(g, p) && |p.products| > 2 && q in Chain(p, c)
  {
    InsertAllHas(Empty(g.initial), ShortenKeys(g, g.keys));
    ShortenKeysOrigin(g, g.keys, q);
    var k, j :| k in g.keys && ContributesAt(g.productions[k], j, q);
    assert Has(g, g.productions[k][j]);
  }

  /** The fresh symbols a long production needs, numbered from `counter`
      (the `addedSymbols` list of `removeLongProductions`). */
  method FreshSymbols(symbol: Symbol, counter: nat, count: nat) returns (added: seq<Symbol>)
    ensures |added| == count
    ensures forall t :: 0 <= t < count ==> added[t] == FreshSymbol(symbol, counter + t)
  {
    added := [];
    var index := 0;
    while index < count
      invariant 0 <= index <= count
      invariant |added| == index
      invariant forall t :: 0 <= t < index ==> added[t] == FreshSymbol(symbol, counter + t)
    {
      added := added + [MakeSymbol(symbol.text + NatToString(counter + index))];
      index := index + 1;
    }
  }

  /** Inserting link i+1 after the first i+1 productions of the chain inserts
      the first i+2. */
  lemma ChainPrefixStep(g: Grammar, p: Production, c: nat, i: nat)
    requires |p.products| > 2 && i < |p.products| - 2
    ensures |Chain(p, c)| == |p.products| - 1
    ensures Insert(InsertAll(g, Chain(p, c)[..i + 1]), Link(p, c, i)) == InsertAll(g, Chain(p, c)[..i + 2])
  {
    var chain := Chain(p, c);
    ChainAt(p, c, i + 1);
    InsertAllSnoc(g, chain[..i + 1], chain[i + 1]);
    assert chain[..i + 1] + [chain[i + 1]] == chain[..i + 2];
  }

  /** One step of the chain loop: adds link `index + 1` of the chain. */
  method AddLink(r: CFGrammar, production: Production, ghost c: nat, addedSymbols: seq<Symbol>, index: nat)
    requires r.Valid() && index < |production.products| - 2
    requires |addedSymbols| == |production.products| - 2
    requires forall t :: 0 <= t < |addedSymbols| ==> addedSymbols[t] == FreshSymbol(production.symbol, c + t)
    modifies r
    ensures r.Valid() && r.Value() == Insert(old(r.Value()), Link(production, c, index))
  {
    var products := production.products;
    var newProduct := if index == |products| - 3 then products[index + 2] else addedSymbols[index + 1];
    r.AddProduction(Production(addedSymbols[index], [products[index + 1], newProduct]));
  }

  /** Adds the chain of a long production, given its fresh symbols. */
  method AddChain(r: CFGrammar, production: Production, ghost c: nat, addedSymbols: seq<Symbol>)
    requires r.Valid() && |production.products| > 2
    requires |addedSymbols| == |production.products| - 2
    requires forall t :: 0 <= t < |addedSymbols| ==> addedSymbols[t] == FreshSymbol(production.symbol, c + t)
    modifies r
    ensures r.Valid() && r.Value() == InsertAll(old(r.Value()), Chain(production, c))
  {
    ghost var start := r.Value();
    ghost var chain := Chain(production, c);
    ChainAt(production, c, 1);
    var products := production.products;
    var productsSize := |products|;
    r.AddProduction(Production(production.symbol, [products[0], addedSymbols[0]]));
    InsertAllSnoc(start, [], chain[0]);
    assert [] + [chain[0]] == chain[..1];
    var index := 0;
    while index < productsSize - 2
      invariant 0 <= index <= productsSize - 2
      invariant r.Valid() && r.Value() == InsertAll(start, chain[..index + 1])
    {
      AddLink(r, production, c, addedSymbols, index);
      ChainPrefixStep(start, production, c, index);
      index := index + 1;
    }
    assert chain[..productsSize - 1] == chain;
  }

  /** The body of the inner loop of `removeLongProductions`: one production
      is copied or replaced by its chain, and the counter moves past the
      fresh symbols the chain used. */
  method AddShortenedOne(r: CFGrammar, production: Production, counter: nat) returns (next: nat)
    requires r.Valid()
    modifies r
    ensures r.Valid() && r.Value() == InsertAll(old(r.Value()), ShortenOne(production, counter))
    ensures next == counter + Growth(production)
  {
    var productsSize := |production.products|;
    if productsSize <= 2 {
      r.AddProduction(production);
      InsertAllSnoc(old(r.Value()), [], production);
      next := counter;
    } else {
      var addedSymbols := FreshSymbols(production.symbol, counter, productsSize - 2);
      AddChain(r, production, counter, addedSymbols);
      next := counter + (productsSize - 2);
    }
  }

  /** The body of the outer loop of `removeLongProductions`: the productions
      of one left-hand side, with its counter starting at 0. */
  method AddShortened(r: CFGrammar, symbolProductions: seq<Production>)
    requires r.Valid()
    modifies r
    ensures r.Valid() && r.Value() == InsertAll(old(r.Value()), ShortenList(symbolProductions))
  {
    ghost var start := r.Value();
    var counter := 0;
    var j := 0;
    assert symbolProductions[..0] == [];
    while j < |symbolProductions|
      invariant 0 <= j <= |symbolProductions|
      invariant counter == Used(symbolProductions[..j])
      invariant r.Valid() && r.Value() == InsertAll(start, ShortenList(symbolProductions[..j]))
    {
      ghost var base := ShortenList(symbolProductions[..j]);
      ghost var contribution := ShortenOne(symbolProductions[j], counter);
      ShortenListStep(symbolProductions, j);
      counter := AddShortenedOne(r, symbolProductions[j], counter);
      InsertAllAppend(start, base, contribution);
      j := j + 1;
    }
    assert symbolProductions[..j] == symbolProductions;
  }

  /** `removeLongProductions`: fill a fresh grammar with the same start symbol. */
  method RemoveLongProductions(g: CFGrammar) returns (r: CFGrammar)
    requires g.Valid()
    ensures fresh(r) && r.Valid() && r.Value() == Shortened(g.Value())
  {
    ghost var gv := g.Value();
    ghost var empty := Empty(gv.initial);
    r := new CFGrammar(g.initial);
    var i := 0;
    assert g.keys[..0] == [];
    while i < |g.keys|
      invariant 0 <= i <= |g.keys|
      invariant r.Valid() && r.Value() == InsertAll(empty, ShortenKeys(gv, g.keys[..i]))
    {
      var symbol := g.keys[i];
      ghost var before := ShortenKeys(gv, g.keys[..i]);
      AddShortened(r, g.productions[symbol]);
      InsertAllAppend(empty, before, ShortenList(gv.productions[symbol]));
      ShortenKeysStep(gv, g.keys, i);
      i := i + 1;
    }
    assert g.keys[..i] == g.keys;
  }
}
