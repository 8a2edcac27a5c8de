/** Symbols, productions and grammars of the normaliser and the intersection
    engine (`hw06.formal`).  A grammar keeps its productions in a map from
    left-hand side to a duplicate-free list; the list of keys records the
    order in which left-hand sides were first inserted, as the insertion-ordered
    maps and sets of the source iterate. */
module CfGrammar {
  import opened Util

  /** A grammar symbol; it is a terminal exactly when its label starts with a
      lower-case letter, so equality of labels is equality of symbols. */
  datatype Symbol = Symbol(text: string)

  const EPS_TEXT: string := "eps"

  /** The shared epsilon symbol; by the labelling rule it is a terminal. */
  const EPS: Symbol := Symbol(EPS_TEXT)

  predicate IsTerminal(s: Symbol) {
    |s.text| > 0 && IsLower(s.text[0])
  }

  /** `Symbol.makeSymbol`: the label `eps` gives the shared `EPS`, any other
      label a symbol classified by its first character.  An empty label makes
      the source index past the end of the string, so it is excluded. */
  function MakeSymbol(name: string): (s: Symbol)
    requires |name| > 0
    ensures s.text == name
    ensures name == EPS_TEXT ==> s == EPS
    ensures IsTerminal(s) <==> IsLower(name[0])
  {
    if name == EPS_TEXT then EPS else Symbol(name)
  }

  /** Labels that start with punctuation are non-terminals; `eps` is a terminal. */
  lemma ClassificationExamples()
    ensures !IsTerminal(MakeSymbol("(")) && !IsTerminal(MakeSymbol(")")) && !IsTerminal(MakeSymbol("["))
    ensures IsTerminal(MakeSymbol("eps")) && MakeSymbol("eps") == EPS
    ensures !IsTerminal(MakeSymbol("S")) && IsTerminal(MakeSymbol("a"))
  {
  }

  datatype Production = Production(symbol: Symbol, products: seq<Symbol>)

  datatype Grammar = Grammar(initial: Symbol, keys: seq<Symbol>, productions: map<Symbol, seq<Production>>)

  /** Every production of `ps` has left-hand side `s`, and none is listed twice. */
  ghost predicate Keyed(s: Symbol, ps: seq<Production>) {
    Distinct(ps) && forall p :: p in ps ==> p.symbol == s
  }

  /** The representation invariant: each left-hand side is listed once in
      `keys`, the keys are exactly the map's domain, and every production sits
      in the list of its own left-hand side. */
  ghost predicate WellFormed(g: Grammar) {
    && Distinct(g.keys)
    && (forall s :: s in g.productions <==> s in g.keys)
    && (forall s :: s in g.productions ==> Keyed(s, g.productions[s]))
  }

  /** The grammar contains production `p`. */
  predicate Has(g: Grammar, p: Production) {
    p.symbol in g.productions && p in g.productions[p.symbol]
  }

  function Empty(initial: Symbol): (g: Grammar)
    ensures WellFormed(g) && forall p :: !Has(g, p)
  {
    Grammar(initial, [], map[])
  }

  /** `CFGrammar.addProduction` as intended: insert `p` into the set of its
      left-hand side, creating that set when it is missing. */
  function Insert(g: Grammar, p: Production): (r: Grammar)
    ensures r.initial == g.initial
    ensures Has(r, p)
    ensures Has(g, p) ==> r == g
  {
    if p.symbol in g.productions then
      if p in g.productions[p.symbol] then g
      else g.(productions := g.productions[p.symbol := g.productions[p.symbol] + [p]])
    else
      g.(keys := g.keys + [p.symbol], productions := g.productions[p.symbol := [p]])
  }

  /** Insertion adds exactly `p`, leaves the other left-hand sides alone and
      keeps the representation invariant. */
  lemma InsertFacts(g: Grammar, p: Production)
    ensures var r := Insert(g, p);
      && (forall q :: Has(r, q) <==> Has(g, q) || q == p)
      && (forall s :: s != p.symbol && s in g.productions ==>
            s in r.productions && r.productions[s] == g.productions[s])
      && (forall s :: s in r.productions <==> s in g.productions || s == p.symbol)
      && (WellFormed(g) ==> WellFormed(r))
  {
  }

  /** Adding the same production twice leaves the grammar as after the first time. */
  lemma InsertIdempotent(g: Grammar, p: Production)
    ensures Insert(Insert(g, p), p) == Insert(g, p)
  {
  }

  /** Inserting the productions of `ps` one after the other, first to last. */
  function InsertAll(g: Grammar, ps: seq<Production>): Grammar
    decreases |ps|
  {
    if ps == [] then g else Insert(InsertAll(g, ps[..|ps| - 1]), ps[|ps| - 1])
  }

  /** After inserting `ps`, the grammar holds exactly its old productions and
      those of `ps`; the start symbol is untouched and well-formedness kept. */
  lemma {:induction false} InsertAllHas(g: Grammar, ps: seq<Production>)
    ensures InsertAll(g, ps).initial == g.initial
    ensures forall q :: Has(InsertAll(g, ps), q) <==> Has(g, q) || q in ps
    ensures WellFormed(g) ==> WellFormed(InsertAll(g, ps))
    decreases |ps|
  {
    if ps != [] {
      var init := ps[..|ps| - 1];
      InsertAllHas(g, init);
      InsertFacts(InsertAll(g, init), ps[|ps| - 1]);
      assert ps == init + [ps[|ps| - 1]];
    }
  }

  lemma InsertAllSnoc(g: Grammar, ps: seq<Production>, p: Production)
    ensures InsertAll(g, ps + [p]) == Insert(InsertAll(g, ps), p)
  {
    assert (ps + [p])[..|ps|] == ps;
  }

  lemma {:induction false} InsertAllAppend(g: Grammar, a: seq<Production>, b: seq<Production>)
    ensures InsertAll(g, a + b) == InsertAll(InsertAll(g, a), b)
    decreases |b|
  {
    if b == [] {
      assert a + b == a;
    } else {
      var b' := b[..|b| - 1];
      assert (a + b)[..|a + b| - 1] == a + b';
      InsertAllAppend(g, a, b');
    }
  }

  /** The mutable grammar of the source: a start symbol and an
      insertion-ordered map from left-hand side to an insertion-ordered set of
      productions. */
  class CFGrammar {
    var initial: Symbol
    var keys: seq<Symbol>
    var productions: map<Symbol, seq<Production>>

    function Value(): Grammar
      reads this
    {
      Grammar(initial, keys, productions)
    }

    ghost predicate Valid()
      reads this
    {
      WellFormed(Value())
    }

    constructor (initial: Symbol)
      ensures Valid() && Value() == Empty(initial)
    {
      this.initial := initial;
      keys := [];
      productions := map[];
    }

    /** A grammar built from given contents (the two-argument constructor). */
    constructor Of(g: Grammar)
      requires WellFormed(g)
      ensures Valid() && Value() == g
    {
      initial := g.initial;
      keys := g.keys;
      productions := g.productions;
    }

    /** `addProduction`, modelled as the intended create-if-missing insertion. */
    method AddProduction(p: Production)
      requires Valid()
      modifies this
      ensures Valid() && Value() == Insert(old(Value()), p)
    {
      InsertFacts(Value(), p);
      if p.symbol in productions {
        if p !in productions[p.symbol] {
          productions := productions[p.symbol := productions[p.symbol] + [p]];
        }
      } else {
        keys := keys + [p.symbol];
        productions := productions[p.symbol := [p]];
      }
    }
  }

  /** `addProduction` as written: `withDefault` only affects `getValue`, so the
      indexing returns null for a left-hand side not yet present and `!!` throws
      (reported as `None`). */
  function AddProductionAsWritten(g: Grammar, p: Production): (r: Option<Grammar>)
    ensures r.Some? <==> p.symbol in g.productions
    ensures r.Some? ==> r.value == Insert(g, p)
  {
    if p.symbol in g.productions then Some(Insert(g, p)) else None
  }

  /** Every pass starts from a grammar with no productions, so its first call
      of the as-written `addProduction` already throws. */
  lemma AddProductionAsWrittenFailsOnFreshGrammar(initial: Symbol, p: Production)
    ensures AddProductionAsWritten(Empty(initial), p) == None
  {
  }

  /** One output line of `printTo`: `X: a B c`. */
  function ProductionLine(p: Production): string {
    p.symbol.text + ": " + Join(Labels(p.products), " ")
  }

  function Labels(ss: seq<Symbol>): (ls: seq<string>)
    ensures |ls| == |ss| && forall i :: 0 <= i < |ss| ==> ls[i] == ss[i].text
  {
    if ss == [] then [] else [ss[0].text] + Labels(ss[1..])
  }

  function Lines(ps: seq<Production>): (ls: seq<string>)
    ensures |ls| == |ps| && forall i :: 0 <= i < |ps| ==> ls[i] == ProductionLine(ps[i])
  {
    if ps == [] then [] else [ProductionLine(ps[0])] + Lines(ps[1..])
  }

  /** The lines written for the keys other than the start symbol, in key order. */
  function OtherLines(g: Grammar, ks: seq<Symbol>): seq<string>
    requires forall k :: k in ks ==> k in g.productions
  {
    if ks == [] then []
    else
      var k := ks[|ks| - 1];
      OtherLines(g, ks[..|ks| - 1]) + (if k == g.initial then [] else Lines(g.productions[k]))
  }

  /** The lines written for the start symbol: its productions, or the
      placeholder `S: S` when it has none. */
  function StartLines(g: Grammar): seq<string> {
    if g.initial !in g.productions || g.productions[g.initial] == [] then
      [g.initial.text + ": " + g.initial.text]
    else Lines(g.productions[g.initial])
  }

  /** `printTo` as the sequence of lines it writes: the start symbol's lines
      first, then the productions of every other left-hand side in key order. */
  function PrintLines(g: Grammar): seq<string>
    requires WellFormed(g)
  {
    StartLines(g) + OtherLines(g, g.keys)
  }

  lemma {:induction false} OtherLinesHas(g: Grammar, ks: seq<Symbol>, p: Production)
    requires forall k :: k in ks ==> k in g.productions
    requires p.symbol in ks && p.symbol != g.initial && p in g.productions[p.symbol]
    ensures ProductionLine(p) in OtherLines(g, ks)
    decreases |ks|
  {
    var k := ks[|ks| - 1];
    if k == p.symbol {
      var i :| 0 <= i < |g.productions[k]| && g.productions[k][i] == p;
      assert Lines(g.productions[k])[i] == ProductionLine(p);
    } else {
      assert p.symbol in ks[..|ks| - 1] by {
        var j :| 0 <= j < |ks| && ks[j] == p.symbol;
        assert j < |ks| - 1;
        assert ks[..|ks| - 1][j] == p.symbol;
      }
      OtherLinesHas(g, ks[..|ks| - 1], p);
    }
  }

  lemma {:induction false} OtherLinesFrom(g: Grammar, ks: seq<Symbol>, l: string)
    requires WellFormed(g)
    requires forall k :: k in ks ==> k in g.productions
    requires l in OtherLines(g, ks)
    ensures exists p :: Has(g, p) && p.symbol != g.initial && l == ProductionLine(p)
    decreases |ks|
  {
    var k := ks[|ks| - 1];
    var rest := OtherLines(g, ks[..|ks| - 1]);
    if l !in rest {
      assert k != g.initial;
      var i :| 0 <= i < |g.productions[k]| && Lines(g.productions[k])[i] == l;
      var p := g.productions[k][i];
      assert Has(g, p);
    } else {
      OtherLinesFrom(g, ks[..|ks| - 1], l);
    }
  }

  /** Every production of the grammar gets its line. */
  lemma PrintLinesComplete(g: Grammar, p: Production)
    requires WellFormed(g) && Has(g, p)
    ensures ProductionLine(p) in PrintLines(g)
  {
    if p.symbol == g.initial {
      var i :| 0 <= i < |g.productions[g.initial]| && g.productions[g.initial][i] == p;
      assert StartLines(g)[i] == ProductionLine(p);
      assert PrintLines(g)[i] == ProductionLine(p);
    } else {
      OtherLinesHas(g, g.keys, p);
    }
  }

  /** The start symbol's productions are written first. */
  lemma PrintLinesStartFirst(g: Grammar)
    requires WellFormed(g) && g.initial in g.productions
    ensures PrintLines(g)[..|g.productions[g.initial]|] == Lines(g.productions[g.initial])
  {
  }

  /** Every line written is a production's line or the start placeholder. */
  lemma PrintLinesSound(g: Grammar, l: string)
    requires WellFormed(g) && l in PrintLines(g)
    ensures l == g.initial.text + ": " + g.initial.text || exists p :: Has(g, p) && l == ProductionLine(p)
  {
    if l in StartLines(g) {
      if g.initial in g.productions && g.productions[g.initial] != [] {
        var i :| 0 <= i < |StartLines(g)| && StartLines(g)[i] == l;
        assert Has(g, g.productions[g.initial][i]);
      }
    } else {
      OtherLinesFrom(g, g.keys, l);
    }
  }
}
