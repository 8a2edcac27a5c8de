/** The second pass of `toChomskyNormalForm` (`removeEpsProductions`): find
    the symbols that derive the empty word, then replace every production by
    all of its variants that drop some of those symbols, except the empty
    variant and variants that start with `eps`.  A nullable start symbol gets a
    new start `S'` with the productions `S' -> eps` and `S' -> S`. */
module CnfEps {
  import opened Util
  import opened CfGrammar

  // ---------------------------------------------------------------------
  // Nullable symbols

  /** `t` is closed under the rules of `computeEpsGenerating`: `eps` is in it,
      and so is the left-hand side of any production whose right-hand symbols
      all are. */
  ghost predicate Closed(g: Grammar, t: set<Symbol>) {
    && EPS in t
    && forall p :: Has(g, p) && (forall x :: x in p.products ==> x in t) ==> p.symbol in t
  }

  /** `s` derives the empty word: it lies in every closed set. */
  ghost predicate IsNullable(g: Grammar, s: Symbol) {
    forall t :: Closed(g, t) ==> s in t
  }

  /** The nullable symbols: the least closed set. */
  ghost function Nullable(g: Grammar): set<Symbol> {
    set s | s in {EPS} + g.productions.Keys && IsNullable(g, s)
  }

  /** The nullable symbols form the least set closed under the rules. */
  lemma NullableLeastClosed(g: Grammar)
    ensures Closed(g, Nullable(g))
    ensures forall t :: Closed(g, t) ==> Nullable(g) <= t
  {
    forall p | Has(g, p) && (forall x :: x in p.products ==> x in Nullable(g))
      ensures p.symbol in Nullable(g)
    {
      forall t | Closed(g, t) ensures p.symbol in t {
        assert forall x :: x in p.products ==> x in t;
      }
    }
  }

  /** The rules the source evaluates: `eps` is nullable, a symbol without
      productions is not, and a left-hand side other than `eps` is nullable
      exactly when one of its productions has only nullable right-hand symbols. */
  lemma NullableRules(g: Grammar, a: Symbol)
    requires WellFormed(g)
    ensures EPS in Nullable(g)
    ensures a != EPS && a !in g.productions ==> a !in Nullable(g)
    ensures a != EPS && a in g.productions ==>
      (a in Nullable(g) <==>
       exists p :: p in g.productions[a] && forall x :: x in p.products ==> x in Nullable(g))
  {
    var n := Nullable(g);
    NullableLeastClosed(g);
    if a != EPS && a in g.productions {
      if a in n && !exists p :: p in g.productions[a] && forall x :: x in p.products ==> x in n {
        var t := n - {a};
        forall p | Has(g, p) && (forall x :: x in p.products ==> x in t) ensures p.symbol in t {
          assert forall x :: x in p.products ==> x in n;
        }
        assert Closed(g, t);
        assert false;
      }
      if exists p :: p in g.productions[a] && forall x :: x in p.products ==> x in n {
        var p :| p in g.productions[a] && forall x :: x in p.products ==> x in n;
        assert Keyed(a, g.productions[a]);
        assert Has(g, p);
      }
    }
  }

  /** Every production of `ps` has a right-hand symbol outside `n`, or its
      left-hand side is in `n`. */
  ghost predicate SettledIn(ps: seq<Production>, n: set<Symbol>) {
    forall p :: p in ps && (forall x :: x in p.products ==> x in n) ==> p.symbol in n
  }

  /** A set that settles every key's productions and holds `eps` is closed. */
  lemma SettledClosed(g: Grammar, n: set<Symbol>)
    requires WellFormed(g) && EPS in n
    requires forall k :: k in g.keys ==> SettledIn(g.productions[k], n)
    ensures Closed(g, n)
  {
    forall p | Has(g, p) && (forall x :: x in p.products ==> x in n) ensures p.symbol in n {
      assert p.symbol in g.keys;
      assert SettledIn(g.productions[p.symbol], n);
    }
  }

  /** Some production of `ps` has only right-hand symbols in `n` (the `any`
      over `all` of `computeEpsGenerating`). */
  predicate SomeAllIn(ps: seq<Production>, n: set<Symbol>) {
    exists p :: p in ps && forall x :: x in p.products ==> x in n
  }

  /** One sweep over the left-hand sides: add each that is not yet known to be
      nullable but has a production whose right-hand symbols all are. */
  method Sweep(g: CFGrammar, before: set<Symbol>) returns (nullable: set<Symbol>, changed: bool)
    requires g.Valid() && before <= Nullable(g.Value()) && before <= {EPS} + g.productions.Keys
    ensures before <= nullable <= Nullable(g.Value()) && nullable <= {EPS} + g.productions.Keys
    ensures !changed ==> nullable == before && forall k :: k in g.keys ==> SettledIn(g.productions[k], nullable)
    ensures changed ==> before < nullable
  {
    ghost var gv := g.Value();
    NullableLeastClosed(gv);
    nullable := before;
    changed := false;
    var i := 0;
    while i < |g.keys|
      invariant 0 <= i <= |g.keys|
      invariant before <= nullable <= Nullable(gv) && nullable <= {EPS} + gv.productions.Keys
      invariant !changed ==> nullable == before
      invariant changed ==> before < nullable
      invariant !changed ==> forall k :: k in g.keys[..i] ==> SettledIn(g.productions[k], nullable)
    {
      var symbol := g.keys[i];
      if symbol !in nullable && SomeAllIn(g.productions[symbol], nullable) {
        var p :| p in g.productions[symbol] && forall x :: x in p.products ==> x in nullable;
        assert Keyed(symbol, g.productions[symbol]);
        assert Has(gv, p);
        nullable := nullable + {symbol};
        changed := true;
      }
      assert g.keys[..i + 1] == g.keys[..i] + [symbol];
      i := i + 1;
    }
    assert g.keys[..i] == g.keys;
  }

  /** `computeEpsGenerating` over every left-hand side, computed as the least
      fixpoint: sweep the left-hand sides until a sweep adds nothing. */
  method ComputeNullable(g: CFGrammar) returns (nullable: set<Symbol>)
    requires g.Valid()
    ensures nullable == Nullable(g.Value())
  {
    ghost var gv := g.Value();
    ghost var universe := {EPS} + gv.productions.Keys;
    NullableLeastClosed(gv);
    nullable := {EPS};
    var changed := true;
    while changed
      invariant nullable <= Nullable(gv) && nullable <= universe && EPS in nullable
      invariant !changed ==> forall k :: k in g.keys ==> SettledIn(g.productions[k], nullable)
      decreases |universe - nullable|, changed
    {
      ghost var before := nullable;
      nullable, changed := Sweep(g, nullable);
      if changed {
        assert universe - nullable < universe - before;
        SubsetCardinality(universe - nullable, universe - before);
      }
    }
    SettledClosed(gv, nullable);
  }

  // ---------------------------------------------------------------------
  // Variants of one production

  /** The right-hand sides `generateNonEpsProductions` reaches from the chosen
      prefix `taken` and the symbols `rest` still to decide, in the order it
      reaches them: first without the next symbol (when it is nullable), then
      with it. */
  function Expand(taken: seq<Symbol>, rest: seq<Symbol>, n: set<Symbol>): seq<seq<Symbol>>
    decreases |rest|
  {
    if rest == [] then [taken]
    else (if rest[0] in n then Expand(taken, rest[1..], n) else []) + Expand(taken + [rest[0]], rest[1..], n)
  }

  /** The symbols of `ps` whose mask entry is true, in order. */
  function Select(ps: seq<Symbol>, mask: seq<bool>): (r: seq<Symbol>)
    requires |mask| == |ps|
    ensures |r| <= |ps|
  {
    if ps == [] then [] else (if mask[0] then [ps[0]] else []) + Select(ps[1..], mask[1..])
  }

  /** The mask only drops symbols in `n`. */
  predicate Droppable(ps: seq<Symbol>, mask: seq<bool>, n: set<Symbol>) {
    |mask| == |ps| && forall i :: 0 <= i < |ps| && !mask[i] ==> ps[i] in n
  }

  /** Deciding the first symbol of `rest`: keeping it selects it in front
      of the rest's selection, dropping it selects the rest's selection. */
  lemma SelectCons(rest: seq<Symbol>, keep: bool, m: seq<bool>)
    requires |rest| > 0 && |m| == |rest| - 1
    ensures ([keep] + m)[1..] == m
    ensures Select(rest, [keep] + m) == (if keep then [rest[0]] else []) + Select(rest[1..], m)
  {
    assert ([keep] + m)[1..] == m;
  }

  /** A mask droppable for `rest` is droppable for its tail after its own
      first entry, and a first entry that may drop `rest[0]` extends one
      droppable for the tail. */
  lemma DroppableCons(rest: seq<Symbol>, keep: bool, m: seq<bool>, n: set<Symbol>)
    requires |rest| > 0 && |m| == |rest| - 1
    ensures Droppable(rest, [keep] + m, n) <==> (keep || rest[0] in n) && Droppable(rest[1..], m, n)
  {
    var mask := [keep] + m;
    if Droppable(rest, mask, n) {
      forall i | 0 <= i < |rest[1..]| && !m[i] ensures rest[1..][i] in n {
        assert mask[i + 1] == m[i] && rest[1..][i] == rest[i + 1];
      }
      assert !mask[0] ==> rest[0] in n;
    }
    if (keep || rest[0] in n) && Droppable(rest[1..], m, n) {
      forall i | 0 <= i < |rest| && !mask[i] ensures rest[i] in n {
        if i > 0 {
          assert mask[i] == m[i - 1] && rest[i] == rest[1..][i - 1];
        }
      }
    }
  }

  /** The chosen prefix after deciding `rest[0]`: extended by it when kept. */
  function Decide(taken: seq<Symbol>, rest: seq<Symbol>, keep: bool): seq<Symbol>
    requires |rest| > 0
  {
    if keep then taken + [rest[0]] else taken
  }

  /** Selecting with `[keep] + m` after `taken` is selecting with `m` from
      the tail after `taken` and the decided head, and the mask is droppable
      exactly when the head may be dropped and `m` is droppable for the tail. */
  lemma MaskStep(taken: seq<Symbol>, rest: seq<Symbol>, keep: bool, m: seq<bool>, n: set<Symbol>)
    requires |rest| > 0 && |m| == |rest| - 1
    ensures taken + Select(rest, [keep] + m) == Decide(taken, rest, keep) + Select(rest[1..], m)
    ensures Droppable(rest, [keep] + m, n) <==> (keep || rest[0] in n) && Droppable(rest[1..], m, n)
  {
    SelectCons(rest, keep, m);
    DroppableCons(rest, keep, m, n);
    if keep {
      assert taken + ([rest[0]] + Select(rest[1..], m)) == (taken + [rest[0]]) + Select(rest[1..], m);
    } else {
      assert [] + Select(rest[1..], m) == Select(rest[1..], m);
    }
  }

  /** `Expand` splits on the first undecided symbol. */
  lemma ExpandStep(taken: seq<Symbol>, rest: seq<Symbol>, n: set<Symbol>, x: seq<Symbol>)
    requires |rest| > 0
    ensures x in Expand(taken, rest, n) <==>
      (rest[0] in n && x in Expand(taken, rest[1..], n)) || x in Expand(taken + [rest[0]], rest[1..], n)
  {
    var without := if rest[0] in n then Expand(taken, rest[1..], n) else [];
    var with := Expand(taken + [rest[0]], rest[1..], n);
    assert Expand(taken, rest, n) == without + with;
  }

  /** Every way of dropping symbols of `n` is reached. */
  lemma {:induction false} ExpandComplete(taken: seq<Symbol>, rest: seq<Symbol>, n: set<Symbol>, mask: seq<bool>)
    requires Droppable(rest, mask, n)
    ensures taken + Select(rest, mask) in Expand(taken, rest, n)
    decreases |rest|
  {
    if rest != [] {
      var m := mask[1..];
      assert mask == [mask[0]] + m;
      MaskStep(taken, rest, mask[0], m, n);
      ExpandComplete(Decide(taken, rest, mask[0]), rest[1..], n, m);
      ExpandStep(taken, rest, n, taken + Select(rest, mask));
    } else {
      assert taken + Select(rest, mask) == taken;
    }
  }

  /** Everything reached drops only symbols of `n`. */
  lemma {:induction false} ExpandSound(taken: seq<Symbol>, rest: seq<Symbol>, n: set<Symbol>, x: seq<Symbol>)
    requires x in Expand(taken, rest, n)
    ensures exists mask :: Droppable(rest, mask, n) && x == taken + Select(rest, mask)
    decreases |rest|
  {
    if rest == [] {
      assert Droppable(rest, [], n) && x == taken + Select(rest, []);
    } else {
      ExpandStep(taken, rest, n, x);
      var keep := !(rest[0] in n && x in Expand(taken, rest[1..], n));
      assert x in Expand(Decide(taken, rest, keep), rest[1..], n);
      ExpandSound(Decide(taken, rest, keep), rest[1..], n, x);
      var m :| Droppable(rest[1..], m, n) && x == Decide(taken, rest, keep) + Select(rest[1..], m);
      MaskStep(taken, rest, keep, m, n);
      assert Droppable(rest, [keep] + m, n) && x == taken + Select(rest, [keep] + m);
    }
  }

  /** A right-hand side `generateNonEpsProductions` keeps: non-empty and not
      starting with `eps`. */
  predicate Kept(rhs: seq<Symbol>) {
    |rhs| > 0 && rhs[0] != EPS
  }

  /** The productions emitted for the right-hand sides `rhss` of `lhs`. */
  function Emit(lhs: Symbol, rhss: seq<seq<Symbol>>): seq<Production>
    decreases |rhss|
  {
    if rhss == [] then []
    else Emit(lhs, rhss[..|rhss| - 1]) + (if Kept(rhss[|rhss| - 1]) then [Production(lhs, rhss[|rhss| - 1])] else [])
  }

  lemma {:induction false} EmitAppend(lhs: Symbol, a: seq<seq<Symbol>>, b: seq<seq<Symbol>>)
    ensures Emit(lhs, a + b) == Emit(lhs, a) + Emit(lhs, b)
    decreases |b|
  {
    if b == [] {
      assert a + b == a;
    } else {
      assert (a + b)[..|a + b| - 1] == a + b[..|b| - 1];
      EmitAppend(lhs, a, b[..|b| - 1]);
    }
  }

  lemma {:induction false} EmitMembers(lhs: Symbol, rhss: seq<seq<Symbol>>, q: Production)
    ensures q in Emit(lhs, rhss) <==> q.symbol == lhs && q.products in rhss && Kept(q.products)
    decreases |rhss|
  {
    if rhss != [] {
      var init := rhss[..|rhss| - 1];
      EmitMembers(lhs, init, q);
      assert rhss == init + [rhss[|rhss| - 1]];
    }
  }

  /** The productions that replace `p`. */
  function EpsFreeOne(p: Production, n: set<Symbol>): seq<Production> {
    Emit(p.symbol, Expand([], p.products, n))
  }

  /** `q` replaces `p` exactly when it keeps `p`'s left-hand side and drops
      only symbols of `n` from `p`'s right-hand side, leaving a non-empty
      right-hand side that does not start with `eps`. */
  lemma EpsFreeOneMembers(p: Production, n: set<Symbol>, q: Production)
    ensures q in EpsFreeOne(p, n) <==>
      q.symbol == p.symbol && Kept(q.products) &&
      exists mask :: Droppable(p.products, mask, n) && q.products == Select(p.products, mask)
  {
    EmitMembers(p.symbol, Expand([], p.products, n), q);
    if q.products in Expand([], p.products, n) {
      ExpandSound([], p.products, n, q.products);
    }
    if exists mask :: Droppable(p.products, mask, n) && q.products == Select(p.products, mask) {
      var mask :| Droppable(p.products, mask, n) && q.products == Select(p.products, mask);
      ExpandComplete([], p.products, n, mask);
      assert [] + Select(p.products, mask) == q.products;
    }
  }

  /** What the productions of one left-hand side contribute, in order. */
  function EpsFreeList(ps: seq<Production>, n: set<Symbol>): seq<Production>
    decreases |ps|
  {
    if ps == [] then [] else EpsFreeList(ps[..|ps| - 1], n) + EpsFreeOne(ps[|ps| - 1], n)
  }

  /** What the left-hand sides `ks` contribute, in key order. */
  function EpsFreeKeys(g: Grammar, ks: seq<Symbol>, n: set<Symbol>): seq<Production>
    requires forall k :: k in ks ==> k in g.productions
    decreases |ks|
  {
    if ks == [] then [] else EpsFreeKeys(g, ks[..|ks| - 1], n) + EpsFreeList(g.productions[ks[|ks| - 1]], n)
  }

  lemma {:induction false} EpsFreeListMembers(ps: seq<Production>, n: set<Symbol>, q: Production)
    ensures q in EpsFreeList(ps, n) <==> exists p :: p in ps && q in EpsFreeOne(p, n)
    decreases |ps|
  {
    if ps != [] {
      var init := ps[..|ps| - 1];
      EpsFreeListMembers(init, n, q);
      assert ps == init + [ps[|ps| - 1]];
    }
  }

  lemma {:induction false} EpsFreeKeysMembers(g: Grammar, ks: seq<Symbol>, n: set<Symbol>, q: Production)
    requires forall k :: k in ks ==> k in g.productions
    ensures q in EpsFreeKeys(g, ks, n) <==> exists k, p :: k in ks && p in g.productions[k] && q in EpsFreeOne(p, n)
    decreases |ks|
  {
    if ks != [] {
      var last := ks[|ks| - 1];
      var init := ks[..|ks| - 1];
      EpsFreeKeysMembers(g, init, n, q);
      EpsFreeListMembers(g.productions[last], n, q);
      assert ks == init + [last];
    }
  }

  // ---------------------------------------------------------------------
  // The pass

  /** The start symbol introduced for a nullable start `S`: `S'`. */
  function PrimedStart(initial: Symbol): Symbol {
    MakeSymbol(initial.text + "'")
  }

  /** The grammar the pass starts filling: with `S' -> eps` and `S' -> S` when
      the start symbol `S` is nullable, empty with the same start otherwise. */
  function EpsStart(initial: Symbol, n: set<Symbol>): Grammar {
    if initial in n then
      var s' := PrimedStart(initial);
      Insert(Insert(Empty(s'), Production(s', [EPS])), Production(s', [initial]))
    else Empty(initial)
  }

  /** The start productions: `S' -> eps` and `S' -> S` when `S` is nullable,
      none otherwise. */
  lemma EpsStartMembers(initial: Symbol, n: set<Symbol>, q: Production)
    ensures Has(EpsStart(initial, n), q) <==>
              initial in n && q.symbol == PrimedStart(initial) && (q.products == [EPS] || q.products == [initial])
  {
    if initial in n {
      var s' := PrimedStart(initial);
      InsertFacts(Empty(s'), Production(s', [EPS]));
      InsertFacts(Insert(Empty(s'), Production(s', [EPS])), Production(s', [initial]));
    }
  }

  /** The grammar `removeEpsProductions` builds. */
  ghost function EpsFree(g: Grammar): Grammar
    requires WellFormed(g)
  {
    var n := Nullable(g);
    InsertAll(EpsStart(g.initial, n), EpsFreeKeys(g, g.keys, n))
  }

  /** The start symbol becomes `S'` exactly when `S` is nullable, and `S'` then
      has exactly the productions `S' -> eps` and `S' -> S` unless the input
      already uses `S'` as a left-hand side. */
  lemma EpsFreeStart(g: Grammar)
    requires WellFormed(g)
    ensures var r := EpsFree(g);
      && (g.initial in Nullable(g) ==> r.initial == PrimedStart(g.initial))
      && (g.initial !in Nullable(g) ==> r.initial == g.initial)
      && (g.initial in Nullable(g) && PrimedStart(g.initial) !in g.productions ==>
            forall q: Production :: q.symbol == PrimedStart(g.initial) ==>
              (Has(r, q) <==> q.products == [EPS] || q.products == [g.initial]))
  {
    var n := Nullable(g);
    var s' := PrimedStart(g.initial);
    var adds := EpsFreeKeys(g, g.keys, n);
    var st := EpsStart(g.initial, n);
    InsertAllHas(st, adds);
    forall q: Production | q.symbol == s' && g.initial in n && s' !in g.productions
      ensures Has(InsertAll(st, adds), q) <==> q.products == [EPS] || q.products == [g.initial]
    {
      EpsStartMembers(g.initial, n, q);
      EpsFreeKeysMembers(g, g.keys, n, q);
      if q in adds {
        var k, p :| k in g.keys && p in g.productions[k] && q in EpsFreeOne(p, n);
        EpsFreeOneMembers(p, n, q);
        assert false;
      }
    }
  }

  /** Apart from the start productions, the result holds exactly the variants
      of the input productions that drop nullable symbols, leaving a
      non-empty right-hand side that does not start with `eps`. */
  lemma EpsFreeMembers(g: Grammar, q: Production)
    requires WellFormed(g)
    ensures var n := Nullable(g);
      Has(EpsFree(g), q) <==>
        Has(EpsStart(g.initial, n), q) ||
        exists p :: Has(g, p) && q.symbol == p.symbol && Kept(q.products) &&
          exists mask :: Droppable(p.products, mask, n) && q.products == Select(p.products, mask)
  {
    var n := Nullable(g);
    InsertAllHas(EpsStart(g.initial, n), EpsFreeKeys(g, g.keys, n));
    EpsFreeKeysMembers(g, g.keys, n, q);
    if q in EpsFreeKeys(g, g.keys, n) {
      var k, p :| k in g.keys && p in g.productions[k] && q in EpsFreeOne(p, n);
      EpsFreeOneMembers(p, n, q);
      assert Keyed(k, g.productions[k]);
      assert Has(g, p);
    }
    if exists p :: Has(g, p) && q.symbol == p.symbol && Kept(q.products) &&
         exists mask :: Droppable(p.products, mask, n) && q.products == Select(p.products, mask) {
      var p :| Has(g, p) && q.symbol == p.symbol && Kept(q.products) &&
         exists mask :: Droppable(p.products, mask, n) && q.products == Select(p.products, mask);
      EpsFreeOneMembers(p, n, q);
      assert p.symbol in g.keys;
    }
  }

  /** Keeping every symbol gives the right-hand side back. */
  lemma {:induction false} SelectAll(ps: seq<Symbol>, n: set<Symbol>)
    ensures Droppable(ps, seq(|ps|, _ => true), n)
    ensures Select(ps, seq(|ps|, _ => true)) == ps
    decreases |ps|
  {
    if ps != [] {
      SelectAll(ps[1..], n);
      assert seq(|ps|, _ => true)[1..] == seq(|ps[1..]|, _ => true);
    }
  }

  /** A production whose right-hand side is non-empty and does not start
      with `eps` survives the pass unchanged. */
  lemma EpsFreeKeepsKept(g: Grammar, p: Production)
    requires WellFormed(g) && Has(g, p) && Kept(p.products)
    ensures Has(EpsFree(g), p)
  {
    SelectAll(p.products, Nullable(g));
    EpsFreeMembers(g, p);
  }

  /** `generateNonEpsProductions`: decide the symbols from `index` on, adding
      every kept right-hand side that extends `taken`.  The source threads one
      list through the recursion and undoes each append; here the prefix is
      passed by value. */
  method GenerateNonEpsProductions(taken: seq<Symbol>, index: nat, production: Production,
                                   nullable: set<Symbol>, r: CFGrammar)
    requires index <= |production.products| && r.Valid()
    modifies r
    ensures r.Valid()
    ensures r.Value() == InsertAll(old(r.Value()),
                                   Emit(production.symbol, Expand(taken, production.products[index..], nullable)))
    decreases |production.products| - index
  {
    ghost var start := r.Value();
    var products := production.products;
    if index == |products| {
      assert Expand(taken, products[index..], nullable) == [taken];
      assert Emit(production.symbol, [taken]) == Emit(production.symbol, []) + (if Kept(taken) then [Production(production.symbol, taken)] else []);
      if |taken| > 0 && taken[0] != EPS {
        r.AddProduction(Production(production.symbol, taken));
        InsertAllSnoc(start, [], Production(production.symbol, taken));
      }
      return;
    }
    var currentSymbol := products[index];
    ghost var rest := products[index..];
    assert rest[0] == currentSymbol && rest[1..] == products[index + 1..];
    ghost var skip := if currentSymbol in nullable then Expand(taken, products[index + 1..], nullable) else [];
    ghost var keep := Expand(taken + [currentSymbol], products[index + 1..], nullable);
    EmitAppend(production.symbol, skip, keep);
    if currentSymbol in nullable {
      GenerateNonEpsProductions(taken, index + 1, production, nullable, r);
    }
    ghost var mid := r.Value();
    assert mid == InsertAll(start, Emit(production.symbol, skip));
    GenerateNonEpsProductions(taken + [currentSymbol], index + 1, production, nullable, r);
    InsertAllAppend(start, Emit(production.symbol, skip), Emit(production.symbol, keep));
  }

  /** The body of the outer loop: the productions of one left-hand side. */
  method AddEpsFree(r: CFGrammar, symbolProductions: seq<Production>, nullable: set<Symbol>)
    requires r.Valid()
    modifies r
    ensures r.Valid() && r.Value() == InsertAll(old(r.Value()), EpsFreeList(symbolProductions, nullable))
  {
    ghost var start := r.Value();
    var j := 0;
    assert symbolProductions[..0] == [];
    while j < |symbolProductions|
      invariant 0 <= j <= |symbolProductions|
      invariant r.Valid() && r.Value() == InsertAll(start, EpsFreeList(symbolProductions[..j], nullable))
    {
      ghost var base := EpsFreeList(symbolProductions[..j], nullable);
      assert symbolProductions[..j + 1][..j] == symbolProductions[..j];
      assert symbolProductions[..j] + [symbolProductions[j]] == symbolProductions[..j + 1];
      GenerateNonEpsProductions([], 0, symbolProductions[j], nullable, r);
      assert symbolProductions[j].products[0..] == symbolProductions[j].products;
      InsertAllAppend(start, base, EpsFreeOne(symbolProductions[j], nullable));
      j := j + 1;
    }
    assert symbolProductions[..j] == symbolProductions;
  }

  /** The grammar `removeEpsProductions` starts filling. */
  method NewEpsFreeGrammar(initial: Symbol, nullable: set<Symbol>) returns (r: CFGrammar)
    ensures fresh(r) && r.Valid() && r.Value() == EpsStart(initial, nullable)
  {
    if initial in nullable {
      var initialWithEps := MakeSymbol(initial.text + "'");
      r := new CFGrammar(initialWithEps);
      r.AddProduction(Production(initialWithEps, [EPS]));
      r.AddProduction(Production(initialWithEps, [initial]));
    } else {
      r := new CFGrammar(initial);
    }
  }

  /** The outer loop of `removeEpsProductions`: the variants of every
      production, left-hand side by left-hand side. */
  method AddEpsFreeKeys(g: CFGrammar, r: CFGrammar, nullable: set<Symbol>)
    requires g.Valid() && r.Valid() && r != g
    modifies r
    ensures r.Valid() && r.Value() == InsertAll(old(r.Value()), EpsFreeKeys(g.Value(), g.keys, nullable))
  {
    ghost var gv := g.Value();
    ghost var st := r.Value();
    var i := 0;
    assert g.keys[..0] == [];
    while i < |g.keys|
      invariant 0 <= i <= |g.keys|
      invariant r.Valid() && r.Value() == InsertAll(st, EpsFreeKeys(gv, g.keys[..i], nullable))
    {
      ghost var before := EpsFreeKeys(gv, g.keys[..i], nullable);
      assert g.keys[..i + 1][..i] == g.keys[..i];
      AddEpsFree(r, g.productions[g.keys[i]], nullable);
      InsertAllAppend(st, before, EpsFreeList(gv.productions[g.keys[i]], nullable));
      i := i + 1;
    }
    assert g.keys[..i] == g.keys;
  }

  /** `removeEpsProductions`. */
  method RemoveEpsProductions(g: CFGrammar) returns (r: CFGrammar)
    requires g.Valid()
    ensures fresh(r) && r.Valid() && r.Value() == EpsFree(g.Value())
  {
    var nullable := ComputeNullable(g);
    r := NewEpsFreeGrammar(g.initial, nullable);
    AddEpsFreeKeys(g, r, nullable);
  }
}
