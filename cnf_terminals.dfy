/** The last pass of `toChomskyNormalForm` (`removeNonTerminalsInLongProductions`)
    and the pipeline itself.  In every right-hand side that is not a single
    symbol, each terminal `t` is replaced by the non-terminal named after its
    upper-cased label followed by `L`; the first time such a name is
    introduced, the production `TL -> t` is added just before the production
    that uses it. */
module CnfTerminals {
  import opened Util
  import opened CfGrammar
  import CnfLong
  import CnfEps
  import CnfChain

  /** The non-terminal that stands for a terminal in a long right-hand side. */
  function Lift(t: Symbol): (n: Symbol)
    ensures IsTerminal(t) ==> !IsTerminal(n)
  {
    MakeSymbol(ToUpper(t.text) + "L")
  }

  /** One symbol of a long right-hand side after the pass. */
  function Replace(t: Symbol): Symbol {
    if IsTerminal(t) then Lift(t) else t
  }

  function Replaced(ts: seq<Symbol>): (r: seq<Symbol>)
    ensures |r| == |ts|
    decreases |ts|
  {
    if ts == [] then [] else Replaced(ts[..|ts| - 1]) + [Replace(ts[|ts| - 1])]
  }

  /** The replaced right-hand side holds no terminal, and keeps every
      non-terminal in its place. */
  lemma {:induction false} ReplacedAt(ts: seq<Symbol>, i: nat)
    requires i < |ts|
    ensures Replaced(ts)[i] == Replace(ts[i])
    ensures !IsTerminal(Replaced(ts)[i])
    ensures !IsTerminal(ts[i]) ==> Replaced(ts)[i] == ts[i]
    decreases |ts|
  {
    if i < |ts| - 1 {
      ReplacedAt(ts[..|ts| - 1], i);
    }
  }

  // ---------------------------------------------------------------------
  // The specification, threading the set of introduced names

  /** How far the `map` over one right-hand side has got: the symbols
      produced so far, the names introduced so far, and the productions
      added for them, in order. */
  datatype Scan = Scan(products: seq<Symbol>, introduced: set<Symbol>, added: seq<Production>)

  function ScanStep(st: Scan, t: Symbol): Scan {
    if IsTerminal(t) then
      var n := Lift(t);
      if n in st.introduced then Scan(st.products + [n], st.introduced, st.added)
      else Scan(st.products + [n], st.introduced + {n}, st.added + [Production(n, [t])])
    else Scan(st.products + [t], st.introduced, st.added)
  }

  function ScanAll(st: Scan, ts: seq<Symbol>): Scan
    decreases |ts|
  {
    if ts == [] then st else ScanStep(ScanAll(st, ts[..|ts| - 1]), ts[|ts| - 1])
  }

  /** What the pass has added so far, and the names it has introduced. */
  datatype Pass = Pass(introduced: set<Symbol>, adds: seq<Production>)

  /** The additions for one production: a single-symbol right-hand side is
      copied as it is, any other one is scanned. */
  function OneAdds(p: Production, intro: set<Symbol>): Pass {
    if |p.products| == 1 then Pass(intro, [p])
    else
      var s := ScanAll(Scan([], intro, []), p.products);
      Pass(s.introduced, s.added + [Production(p.symbol, s.products)])
  }

  function ListAdds(ps: seq<Production>, intro: set<Symbol>): Pass
    decreases |ps|
  {
    if ps == [] then Pass(intro, [])
    else
      var a := ListAdds(ps[..|ps| - 1], intro);
      var b := OneAdds(ps[|ps| - 1], a.introduced);
      Pass(b.introduced, a.adds + b.adds)
  }

  function KeysAdds(g: Grammar, ks: seq<Symbol>): Pass
    requires forall k :: k in ks ==> k in g.productions
    decreases |ks|
  {
    if ks == [] then Pass({}, [])
    else
      var a := KeysAdds(g, ks[..|ks| - 1]);
      var b := ListAdds(g.productions[ks[|ks| - 1]], a.introduced);
      Pass(b.introduced, a.adds + b.adds)
  }

  /** The grammar `removeNonTerminalsInLongProductions` builds. */
  function TerminalsSeparated(g: Grammar): Grammar
    requires WellFormed(g)
  {
    InsertAll(Empty(g.initial), KeysAdds(g, g.keys).adds)
  }

  // ---------------------------------------------------------------------
  // Facts about the scan

  /** The scan writes the replaced symbols after what it had, and every
      terminal it met has its name introduced. */
  lemma {:induction false} ScanProducts(st: Scan, ts: seq<Symbol>)
    ensures ScanAll(st, ts).products == st.products + Replaced(ts)
    ensures st.introduced <= ScanAll(st, ts).introduced
    ensures forall t :: t in ts && IsTerminal(t) ==> Lift(t) in ScanAll(st, ts).introduced
    decreases |ts|
  {
    if ts != [] {
      var init := ts[..|ts| - 1];
      ScanProducts(st, init);
      assert ts == init + [ts[|ts| - 1]];
    }
  }

  /** A production that introduces `n` for terminal `t`. */
  predicate Introduces(q: Production) {
    |q.products| == 1 && IsTerminal(q.products[0]) && q.symbol == Lift(q.products[0])
  }

  /** Every introduced name has an introducing production among `adds`. */
  ghost predicate Defines(intro: set<Symbol>, adds: seq<Production>) {
    forall n :: n in intro ==> exists q :: q in adds && Introduces(q) && q.symbol == n
  }

  /** The scan adds only productions `Lift(t) -> t` for terminals `t` it
      met, keeps what was added before, and keeps every introduced name
      defined. */
  lemma {:induction false} ScanAdded(st: Scan, ts: seq<Symbol>, prior: seq<Production>)
    requires Defines(st.introduced, prior + st.added)
    ensures var r := ScanAll(st, ts);
      && (forall q :: q in st.added ==> q in r.added)
      && (forall q :: q in r.added ==> q in st.added || (Introduces(q) && q.products[0] in ts))
      && Defines(r.introduced, prior + r.added)
    decreases |ts|
  {
    if ts != [] {
      var init := ts[..|ts| - 1];
      var t := ts[|ts| - 1];
      ScanAdded(st, init, prior);
      var s := ScanAll(st, init);
      LastSplit(ts);
      if IsTerminal(t) && Lift(t) !in s.introduced {
        var q := Production(Lift(t), [t]);
        assert Introduces(q) && q in prior + (s.added + [q]);
        forall n | n in s.introduced + {Lift(t)}
          ensures exists q' :: q' in prior + (s.added + [q]) && Introduces(q') && q'.symbol == n
        {
          if n in s.introduced {
            var q' :| q' in prior + s.added && Introduces(q') && q'.symbol == n;
            assert q' in prior + (s.added + [q]);
          }
        }
      }
    }
  }

  // ---------------------------------------------------------------------
  // Facts about the whole pass

  /** Where a production of the result comes from, given the input
      production `p`: a single-symbol right-hand side copied, the replaced
      long production, or an introducing production for one of its
      terminals. */
  predicate Contributes(p: Production, q: Production) {
    if |p.products| == 1 then q == p
    else q == Production(p.symbol, Replaced(p.products)) || (Introduces(q) && q.products[0] in p.products)
  }

  lemma OneAddsFacts(p: Production, intro: set<Symbol>, prior: seq<Production>)
    requires Defines(intro, prior)
    ensures var b := OneAdds(p, intro);
      && intro <= b.introduced
      && (forall q :: q in b.adds ==> Contributes(p, q))
      && (|p.products| == 1 ==> p in b.adds)
      && (|p.products| != 1 ==> Production(p.symbol, Replaced(p.products)) in b.adds)
      && (|p.products| != 1 ==> forall t :: t in p.products && IsTerminal(t) ==> Lift(t) in b.introduced)
      && Defines(b.introduced, prior + b.adds)
  {
    if |p.products| != 1 {
      var st := Scan([], intro, []);
      assert prior + st.added == prior;
      ScanProducts(st, p.products);
      ScanAdded(st, p.products, prior);
      var s := ScanAll(st, p.products);
      var last := Production(p.symbol, s.products);
      assert s.products == Replaced(p.products);
      assert prior + (s.added + [last]) == (prior + s.added) + [last];
      forall n | n in s.introduced
        ensures exists q :: q in prior + (s.added + [last]) && Introduces(q) && q.symbol == n
      {
        var q :| q in prior + s.added && Introduces(q) && q.symbol == n;
        assert q in prior + (s.added + [last]);
      }
    } else {
      forall n | n in intro
        ensures exists q :: q in prior + [p] && Introduces(q) && q.symbol == n
      {
        var q :| q in prior && Introduces(q) && q.symbol == n;
        assert q in prior + [p];
      }
    }
  }

  lemma {:induction false} ListAddsFacts(ps: seq<Production>, intro: set<Symbol>, prior: seq<Production>)
    requires Defines(intro, prior)
    ensures var a := ListAdds(ps, intro);
      && intro <= a.introduced
      && (forall q :: q in a.adds ==> exists p :: p in ps && Contributes(p, q))
      && (forall p :: p in ps && |p.products| == 1 ==> p in a.adds)
      && (forall p :: p in ps && |p.products| != 1 ==> Production(p.symbol, Replaced(p.products)) in a.adds)
      && (forall p, t :: p in ps && |p.products| != 1 && t in p.products && IsTerminal(t) ==> Lift(t) in a.introduced)
      && Defines(a.introduced, prior + a.adds)
    decreases |ps|
  {
    if ps != [] {
      var init, p := ps[..|ps| - 1], ps[|ps| - 1];
      ListAddsFacts(init, intro, prior);
      var a := ListAdds(init, intro);
      OneAddsFacts(p, a.introduced, prior + a.adds);
      LastSplit(ps);
      var b := OneAdds(p, a.introduced);
      assert prior + a.adds + b.adds == prior + (a.adds + b.adds);
    }
  }

  lemma {:induction false} KeysAddsFacts(g: Grammar, ks: seq<Symbol>)
    requires forall k :: k in ks ==> k in g.productions
    ensures var a := KeysAdds(g, ks);
      && (forall q :: q in a.adds ==> exists k, p :: k in ks && p in g.productions[k] && Contributes(p, q))
      && (forall k, p :: k in ks && p in g.productions[k] && |p.products| == 1 ==> p in a.adds)
      && (forall k, p :: k in ks && p in g.productions[k] && |p.products| != 1 ==> Production(p.symbol, Replaced(p.products)) in a.adds)
      && (forall k, p, t :: k in ks && p in g.productions[k] && |p.products| != 1 && t in p.products && IsTerminal(t) ==> Lift(t) in a.introduced)
      && Defines(a.introduced, a.adds)
    decreases |ks|
  {
    if ks != [] {
      var init, k := ks[..|ks| - 1], ks[|ks| - 1];
      KeysAddsFacts(g, init);
      var a := KeysAdds(g, init);
      ListAddsFacts(g.productions[k], a.introduced, a.adds);
      LastSplit(ks);
    }
  }

  /** Every production of the result comes from an input production, as a
      copied single-symbol production, a replaced long production, or an
      introducing production for one of its terminals. */
  lemma TerminalsSeparatedSound(g: Grammar, q: Production)
    requires WellFormed(g) && Has(TerminalsSeparated(g), q)
    ensures exists p :: Has(g, p) && Contributes(p, q)
  {
    InsertAllHas(Empty(g.initial), KeysAdds(g, g.keys).adds);
    KeysAddsFacts(g, g.keys);
    var k, p :| k in g.keys && p in g.productions[k] && Contributes(p, q);
    assert Keyed(k, g.productions[k]);
  }

  /** Single-symbol productions survive unchanged. */
  lemma TerminalsSeparatedKeepsUnits(g: Grammar, p: Production)
    requires WellFormed(g) && Has(g, p) && |p.products| == 1
    ensures Has(TerminalsSeparated(g), p)
  {
    InsertAllHas(Empty(g.initial), KeysAdds(g, g.keys).adds);
    KeysAddsFacts(g, g.keys);
    assert p.symbol in g.keys && p in g.productions[p.symbol];
  }

  /** Every other production survives with its terminals replaced. */
  lemma TerminalsSeparatedReplaces(g: Grammar, p: Production)
    requires WellFormed(g) && Has(g, p) && |p.products| != 1
    ensures Has(TerminalsSeparated(g), Production(p.symbol, Replaced(p.products)))
  {
    InsertAllHas(Empty(g.initial), KeysAdds(g, g.keys).adds);
    KeysAddsFacts(g, g.keys);
    assert p.symbol in g.keys && p in g.productions[p.symbol];
  }

  /** Each name used for a terminal of a long production is defined by an
      introducing production. */
  lemma TerminalsSeparatedDefines(g: Grammar, p: Production, t: Symbol)
    requires WellFormed(g) && Has(g, p) && |p.products| != 1 && t in p.products && IsTerminal(t)
    ensures exists q :: Has(TerminalsSeparated(g), q) && Introduces(q) && q.symbol == Lift(t)
  {
    var a := KeysAdds(g, g.keys);
    InsertAllHas(Empty(g.initial), a.adds);
    KeysAddsFacts(g, g.keys);
    assert p.symbol in g.keys && p in g.productions[p.symbol];
    assert Lift(t) in a.introduced;
    var q :| q in a.adds && Introduces(q) && q.symbol == Lift(t);
    assert Has(TerminalsSeparated(g), q);
  }

  /** After the pass, a right-hand side of two or more symbols holds no
      terminal, and a single symbol is what the input had. */
  lemma TerminalsSeparatedShape(g: Grammar, q: Production)
    requires WellFormed(g) && Has(TerminalsSeparated(g), q)
    ensures |q.products| != 1 ==> forall i :: 0 <= i < |q.products| ==> !IsTerminal(q.products[i])
    ensures (|q.products| == 1 && Introduces(q)) || exists p :: Has(g, p) && |p.products| == |q.products|
  {
    TerminalsSeparatedSound(g, q);
    var p :| Has(g, p) && Contributes(p, q);
    if |p.products| != 1 && q == Production(p.symbol, Replaced(p.products)) {
      forall i | 0 <= i < |q.products| ensures !IsTerminal(q.products[i]) {
        ReplacedAt(p.products, i);
      }
    }
  }

  // ---------------------------------------------------------------------
  // The methods

  /** The `map` over one long right-hand side: replace each terminal,
      introducing its name when it is new. */
  method ScanProductsOf(r: CFGrammar, products: seq<Symbol>, introduced: set<Symbol>)
    returns (transformed: seq<Symbol>, introducedAfter: set<Symbol>)
    requires r.Valid()
    modifies r
    ensures var s := ScanAll(Scan([], introduced, []), products);
      transformed == s.products && introducedAfter == s.introduced &&
      r.Valid() && r.Value() == InsertAll(old(r.Value()), s.added)
  {
    ghost var start := r.Value();
    ghost var st := Scan([], introduced, []);
    transformed := [];
    introducedAfter := introduced;
    var i := 0;
    assert products[..0] == [];
    while i < |products|
      invariant 0 <= i <= |products|
      invariant var s := ScanAll(st, products[..i]);
        transformed == s.products && introducedAfter == s.introduced &&
        r.Valid() && r.Value() == InsertAll(start, s.added)
    {
      var product := products[i];
      assert products[..i + 1][..i] == products[..i];
      ghost var s := ScanAll(st, products[..i]);
      assert ScanAll(st, products[..i + 1]) == ScanStep(s, product);
      if IsTerminal(product) {
        var newSymbol := MakeSymbol(ToUpper(product.text) + "L");
        if newSymbol !in introducedAfter {
          introducedAfter := introducedAfter + {newSymbol};
          r.AddProduction(Production(newSymbol, [product]));
          InsertAllSnoc(start, s.added, Production(newSymbol, [product]));
        }
        transformed := transformed + [newSymbol];
      } else {
        transformed := transformed + [product];
      }
      i := i + 1;
    }
    assert products[..i] == products;
  }

  method AddSeparatedOne(r: CFGrammar, production: Production, introduced: set<Symbol>)
    returns (introducedAfter: set<Symbol>)
    requires r.Valid()
    modifies r
    ensures var b := OneAdds(production, introduced);
      introducedAfter == b.introduced && r.Valid() && r.Value() == InsertAll(old(r.Value()), b.adds)
  {
    var products := production.products;
    if |products| == 1 {
      r.AddProduction(production);
      InsertAllSnoc(old(r.Value()), [], production);
      introducedAfter := introduced;
    } else {
      ghost var s := ScanAll(Scan([], introduced, []), products);
      var transformedProducts;
      transformedProducts, introducedAfter := ScanProductsOf(r, products, introduced);
      r.AddProduction(Production(production.symbol, transformedProducts));
      InsertAllSnoc(old(r.Value()), s.added, Production(production.symbol, transformedProducts));
    }
  }

  method AddSeparatedList(r: CFGrammar, symbolProductions: seq<Production>, introduced: set<Symbol>)
    returns (introducedAfter: set<Symbol>)
    requires r.Valid()
    modifies r
    ensures var a := ListAdds(symbolProductions, introduced);
      introducedAfter == a.introduced && r.Valid() && r.Value() == InsertAll(old(r.Value()), a.adds)
  {
    ghost var start := r.Value();
    introducedAfter := introduced;
    var j := 0;
    assert symbolProductions[..0] == [];
    while j < |symbolProductions|
      invariant 0 <= j <= |symbolProductions|
      invariant var a := ListAdds(symbolProductions[..j], introduced);
        introducedAfter == a.introduced && r.Valid() && r.Value() == InsertAll(start, a.adds)
    {
      assert symbolProductions[..j + 1][..j] == symbolProductions[..j];
      ghost var a := ListAdds(symbolProductions[..j], introduced);
      ghost var b := OneAdds(symbolProductions[j], introducedAfter);
      introducedAfter := AddSeparatedOne(r, symbolProductions[j], introducedAfter);
      InsertAllAppend(start, a.adds, b.adds);
      j := j + 1;
    }
    assert symbolProductions[..j] == symbolProductions;
  }

  /** `removeNonTerminalsInLongProductions`. */
  method RemoveNonTerminalsInLongProductions(g: CFGrammar) returns (r: CFGrammar)
    requires g.Valid()
    ensures fresh(r) && r.Valid() && r.Value() == TerminalsSeparated(g.Value())
  {
    ghost var gv := g.Value();
    ghost var empty := Empty(gv.initial);
    r := new CFGrammar(g.initial);
    var keys, productions := g.keys, g.productions;
    var introducedSymbols: set<Symbol> := {};
    var i := 0;
    assert keys[..0] == [];
    while i < |keys|
      invariant 0 <= i <= |keys|
      invariant var a := KeysAdds(gv, keys[..i]);
        introducedSymbols == a.introduced && r.Valid() && r.Value() == InsertAll(empty, a.adds)
    {
      assert keys[..i + 1][..i] == keys[..i];
      ghost var a := KeysAdds(gv, keys[..i]);
      ghost var b := ListAdds(productions[keys[i]], introducedSymbols);
      introducedSymbols := AddSeparatedList(r, productions[keys[i]], introducedSymbols);
      InsertAllAppend(empty, a.adds, b.adds);
      i := i + 1;
    }
    assert keys[..i] == keys;
  }
}
