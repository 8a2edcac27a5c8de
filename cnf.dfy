/** `CFGrammar.toChomskyNormalForm`: the four passes one after the other,
    and the shape of the grammar they produce. */
module Cnf {
  import opened Util
  import opened CfGrammar
  import CnfLong
  import CnfEps
  import CnfChain
  import CnfTerminals

  lemma ShortenedWellFormed(g: Grammar)
    requires WellFormed(g)
    ensures WellFormed(CnfLong.Shortened(g))
  {
    InsertAllHas(Empty(g.initial), CnfLong.ShortenKeys(g, g.keys));
  }

  lemma EpsFreeWellFormed(g: Grammar)
    requires WellFormed(g)
    ensures WellFormed(CnfEps.EpsFree(g))
  {
    var n := CnfEps.Nullable(g);
    var s' := CnfEps.PrimedStart(g.initial);
    InsertFacts(Empty(s'), Production(s', [EPS]));
    InsertFacts(Insert(Empty(s'), Production(s', [EPS])), Production(s', [g.initial]));
    InsertAllHas(CnfEps.EpsStart(g.initial, n), CnfEps.EpsFreeKeys(g, g.keys, n));
  }

  lemma ChainFreeWellFormed(g: Grammar)
    requires WellFormed(g)
    ensures WellFormed(CnfChain.ChainFree(g))
  {
    var direct := CnfChain.DirectKeys(g, g.keys);
    InsertAllHas(Empty(g.initial), direct);
    InsertAllHas(InsertAll(Empty(g.initial), direct), CnfChain.CopiesKeys(g, CnfChain.ClosedUnits(g), |g.keys|));
  }

  /** The grammar `toChomskyNormalForm` returns. */
  ghost function ChomskyNormalForm(g: Grammar): Grammar
    requires WellFormed(g)
  {
    ShortenedWellFormed(g);
    var short := CnfLong.Shortened(g);
    EpsFreeWellFormed(short);
    var epsFree := CnfEps.EpsFree(short);
    ChainFreeWellFormed(epsFree);
    CnfTerminals.TerminalsSeparated(CnfChain.ChainFree(epsFree))
  }

  /** Removing ε-productions from a grammar whose right-hand sides have at
      most two symbols leaves right-hand sides of one or two symbols. */
  lemma EpsFreeSizes(g: Grammar, q: Production)
    requires WellFormed(g) && forall p :: Has(g, p) ==> |p.products| <= 2
    requires Has(CnfEps.EpsFree(g), q)
    ensures 1 <= |q.products| <= 2
  {
    var n := CnfEps.Nullable(g);
    CnfEps.EpsFreeMembers(g, q);
    if Has(CnfEps.EpsStart(g.initial, n), q) {
      CnfEps.EpsStartMembers(g.initial, n, q);
    } else {
      var p :| Has(g, p) && q.symbol == p.symbol && CnfEps.Kept(q.products) &&
        exists mask :: CnfEps.Droppable(p.products, mask, n) && q.products == CnfEps.Select(p.products, mask);
      var mask :| CnfEps.Droppable(p.products, mask, n) && q.products == CnfEps.Select(p.products, mask);
      assert |q.products| <= |p.products|;
    }
  }

  /** Every right-hand side after the chain pass is one the input had. */
  lemma ChainFreeRhs(g: Grammar, q: Production)
    requires WellFormed(g) && Has(CnfChain.ChainFree(g), q)
    ensures exists p :: Has(g, p) && p.products == q.products
  {
    CnfChain.ChainFreeMembers(g, q);
    if !Has(g, q) {
      var b :| CnfChain.ChainReaches(g, q.symbol, b) && exists p :: p in g.productions[b] && p.products == q.products;
      var p :| p in g.productions[b] && p.products == q.products;
      assert Keyed(b, g.productions[b]);
      assert Has(g, p);
    }
  }

  /** The result is in Chomsky normal form as far as right-hand sides go:
      one or two symbols, and two symbols are both non-terminals. */
  lemma ChomskyNormalFormShape(g: Grammar, q: Production)
    requires WellFormed(g) && Has(ChomskyNormalForm(g), q)
    ensures 1 <= |q.products| <= 2
    ensures |q.products| == 2 ==> !IsTerminal(q.products[0]) && !IsTerminal(q.products[1])
  {
    ShortenedWellFormed(g);
    var s0 := CnfLong.Shortened(g);
    EpsFreeWellFormed(s0);
    var s1 := CnfEps.EpsFree(s0);
    ChainFreeWellFormed(s1);
    var s2 := CnfChain.ChainFree(s1);
    forall p | Has(s0, p) ensures |p.products| <= 2 {
      CnfLong.ShortenedShape(g, p);
    }
    forall p | Has(s2, p) ensures 1 <= |p.products| <= 2 {
      ChainFreeRhs(s1, p);
      var p1 :| Has(s1, p1) && p1.products == p.products;
      EpsFreeSizes(s0, p1);
    }
    CnfTerminals.TerminalsSeparatedShape(s2, q);
  }

  /** `toChomskyNormalForm`: each pass builds a new grammar from the previous one. */
  method ToChomskyNormalForm(g: CFGrammar) returns (r: CFGrammar)
    requires g.Valid()
    ensures fresh(r) && r.Valid() && r.Value() == ChomskyNormalForm(g.Value())
  {
    var shortGrammar := CnfLong.RemoveLongProductions(g);
    var epsFreeGrammar := CnfEps.RemoveEpsProductions(shortGrammar);
    var chainFreeGrammar := CnfChain.RemoveChainProductions(epsFreeGrammar);
    r := CnfTerminals.RemoveNonTerminalsInLongProductions(chainFreeGrammar);
  }
}
