/** `computeEpsGenerating` and the lookups of `removeEpsProductions` exactly as
    the source performs them: a memoised recursion that writes a symbol's
    entry only after its productions have been examined, and `any`/`all`
    that stop at the first decisive production or symbol.  A symbol reached
    again while its own evaluation is in progress makes the source recurse
    without end; a symbol whose entry was never written makes a later `!!`
    lookup throw.  Both are failures here.  When neither happens, the result
    is the grammar of the least-fixpoint model in `CnfEps`. */
module CnfEpsAsWritten {
  import opened Util
  import opened CfGrammar
  import opened CnfEps

  /** How the source's pass aborts. */
  datatype EpsFailure =
    | EndlessRecursion(symbol: Symbol)  // the symbol was reached while being evaluated
    | MissingEntry(symbol: Symbol)      // `isEpsGenerating[symbol]!!` found no entry

  /** The map `isEpsGenerating`. */
  type Memo = map<Symbol, bool>

  /** `computeEpsGenerating(symbol)` with the symbols whose evaluation is in
      progress in `visiting`. */
  function EvalSymbol(g: Grammar, s: Symbol, memo: Memo, visiting: set<Symbol>): Result<(bool, Memo), EpsFailure>
    requires visiting <= g.productions.Keys
    decreases |g.productions.Keys - visiting|, 0, 0
  {
    if s in memo then Success((memo[s], memo))
    else if s !in g.productions then Success((false, memo[s := false]))
    else if s in visiting then Failure(EndlessRecursion(s))
    else
      SubsetCardinality(g.productions.Keys - (visiting + {s}), g.productions.Keys - visiting);
      match EvalAny(g, g.productions[s], memo, visiting + {s})
      case Failure(e) => Failure(e)
      case Success((b, m)) => Success((b, m[s := b]))
  }

  /** `symbolProductions.any { production.products.all { ... } }`. */
  function EvalAny(g: Grammar, ps: seq<Production>, memo: Memo, visiting: set<Symbol>): Result<(bool, Memo), EpsFailure>
    requires visiting <= g.productions.Keys
    decreases |g.productions.Keys - visiting|, 2, |ps|
  {
    if ps == [] then Success((false, memo))
    else
      match EvalAll(g, ps[0].products, memo, visiting)
      case Failure(e) => Failure(e)
      case Success((b, m)) => if b then Success((true, m)) else EvalAny(g, ps[1..], m, visiting)
  }

  /** `production.products.all { computeEpsGenerating(it) }`. */
  function EvalAll(g: Grammar, xs: seq<Symbol>, memo: Memo, visiting: set<Symbol>): Result<(bool, Memo), EpsFailure>
    requires visiting <= g.productions.Keys
    decreases |g.productions.Keys - visiting|, 1, |xs|
  {
    if xs == [] then Success((true, memo))
    else
      match EvalSymbol(g, xs[0], memo, visiting)
      case Failure(e) => Failure(e)
      case Success((b, m)) => if b then EvalAll(g, xs[1..], m, visiting) else Success((false, m))
  }

  /** The `productions.forEach { computeEpsGenerating(symbol) }` loop over the
      keys `ks`, starting from `memo`. */
  function EvalKeys(g: Grammar, ks: seq<Symbol>, memo: Memo): Result<Memo, EpsFailure>
    decreases |ks|
  {
    if ks == [] then Success(memo)
    else
      match EvalKeys(g, ks[..|ks| - 1], memo)
      case Failure(e) => Failure(e)
      case Success(m) =>
        match EvalSymbol(g, ks[|ks| - 1], m, {})
        case Failure(e) => Failure(e)
        case Success((_, m')) => Success(m')
  }

  /** The first symbol of `xs` without an entry in `memo`. */
  function MissingIn(xs: seq<Symbol>, memo: Memo): (r: Option<Symbol>)
    ensures r.None? <==> forall x :: x in xs ==> x in memo
    ensures r.Some? ==> r.value in xs && r.value !in memo
  {
    if xs == [] then None
    else if xs[0] !in memo then Some(xs[0])
    else MissingIn(xs[1..], memo)
  }

  /** The first right-hand symbol of `ps`, production by production, without
      an entry in `memo`. */
  function MissingInProductions(ps: seq<Production>, memo: Memo): (r: Option<Symbol>)
    ensures r.None? <==> forall p, x :: p in ps && x in p.products ==> x in memo
  {
    if ps == [] then None
    else if MissingIn(ps[0].products, memo).Some? then MissingIn(ps[0].products, memo)
    else MissingInProductions(ps[1..], memo)
  }

  /** The first right-hand symbol, left-hand side by left-hand side, that the
      generation step looks up and finds without an entry. */
  function FirstMissing(g: Grammar, ks: seq<Symbol>, memo: Memo): (r: Option<Symbol>)
    requires forall k :: k in ks ==> k in g.productions
    ensures r.None? <==> forall k, p, x :: k in ks && p in g.productions[k] && x in p.products ==> x in memo
  {
    if ks == [] then None
    else if MissingInProductions(g.productions[ks[0]], memo).Some? then MissingInProductions(g.productions[ks[0]], memo)
    else FirstMissing(g, ks[1..], memo)
  }

  /** The symbols `memo` marks as nullable. */
  function Marked(memo: Memo): set<Symbol> {
    set s | s in memo && memo[s]
  }

  /** `removeEpsProductions` as written. */
  function RemoveEpsAsWritten(g: Grammar): Result<Grammar, EpsFailure>
    requires WellFormed(g)
  {
    match EvalKeys(g, g.keys, map[EPS := true])
    case Failure(e) => Failure(e)
    case Success(memo) =>
      if g.initial !in memo then Failure(MissingEntry(g.initial))
      else
        match FirstMissing(g, g.keys, memo)
        case Some(x) => Failure(MissingEntry(x))
        case None =>
          var n := Marked(memo);
          Success(InsertAll(EpsStart(g.initial, n), EpsFreeKeys(g, g.keys, n)))
  }

  // ---------------------------------------------------------------------
  // When the source succeeds it agrees with the least fixpoint

  /** Every entry of `memo` is right. */
  ghost predicate MemoRight(g: Grammar, memo: Memo) {
    forall s :: s in memo ==> (memo[s] <==> s in Nullable(g))
  }

  lemma MemoRightUpdate(g: Grammar, memo: Memo, s: Symbol, b: bool)
    requires MemoRight(g, memo) && (b <==> s in Nullable(g))
    ensures MemoRight(g, memo[s := b])
  {
  }

  lemma {:induction false} EvalSymbolRight(g: Grammar, s: Symbol, memo: Memo, visiting: set<Symbol>)
    requires WellFormed(g) && visiting <= g.productions.Keys
    requires MemoRight(g, memo) && EPS in memo
    requires EvalSymbol(g, s, memo, visiting).Success?
    ensures var (b, m) := EvalSymbol(g, s, memo, visiting).value;
      MemoRight(g, m) && memo.Keys <= m.Keys && s in m && (b <==> s in Nullable(g))
    decreases |g.productions.Keys - visiting|, 0, 0
  {
    if s in memo {
    } else if s !in g.productions {
      assert s != EPS;
      NullableRules(g, s);
      MemoRightUpdate(g, memo, s, false);
    } else {
      assert s != EPS && s !in visiting;
      NullableRules(g, s);
      SubsetCardinality(g.productions.Keys - (visiting + {s}), g.productions.Keys - visiting);
      EvalAnyRight(g, g.productions[s], memo, visiting + {s});
      var (b, m) := EvalAny(g, g.productions[s], memo, visiting + {s}).value;
      assert EvalSymbol(g, s, memo, visiting).value == (b, m[s := b]);
      MemoRightUpdate(g, m, s, b);
    }
  }

  lemma {:induction false} EvalAnyRight(g: Grammar, ps: seq<Production>, memo: Memo, visiting: set<Symbol>)
    requires WellFormed(g) && visiting <= g.productions.Keys
    requires MemoRight(g, memo) && EPS in memo
    requires EvalAny(g, ps, memo, visiting).Success?
    ensures var (b, m) := EvalAny(g, ps, memo, visiting).value;
      MemoRight(g, m) && memo.Keys <= m.Keys &&
      (b <==> exists p :: p in ps && forall x :: x in p.products ==> x in Nullable(g))
    decreases |g.productions.Keys - visiting|, 2, |ps|
  {
    if ps != [] {
      EvalAllRight(g, ps[0].products, memo, visiting);
      var (b, m) := EvalAll(g, ps[0].products, memo, visiting).value;
      if !b {
        EvalAnyRight(g, ps[1..], m, visiting);
        assert ps == [ps[0]] + ps[1..];
      }
    }
  }

  lemma {:induction false} EvalAllRight(g: Grammar, xs: seq<Symbol>, memo: Memo, visiting: set<Symbol>)
    requires WellFormed(g) && visiting <= g.productions.Keys
    requires MemoRight(g, memo) && EPS in memo
    requires EvalAll(g, xs, memo, visiting).Success?
    ensures var (b, m) := EvalAll(g, xs, memo, visiting).value;
      MemoRight(g, m) && memo.Keys <= m.Keys &&
      (b <==> forall x :: x in xs ==> x in Nullable(g))
    decreases |g.productions.Keys - visiting|, 1, |xs|
  {
    if xs != [] {
      EvalSymbolRight(g, xs[0], memo, visiting);
      var (b, m) := EvalSymbol(g, xs[0], memo, visiting).value;
      if b {
        EvalAllRight(g, xs[1..], m, visiting);
        assert xs == [xs[0]] + xs[1..];
      }
    }
  }

  lemma {:induction false} EvalKeysRight(g: Grammar, ks: seq<Symbol>, memo: Memo)
    requires WellFormed(g) && MemoRight(g, memo) && EPS in memo
    requires EvalKeys(g, ks, memo).Success?
    ensures var m := EvalKeys(g, ks, memo).value;
      MemoRight(g, m) && memo.Keys <= m.Keys && forall k :: k in ks ==> k in m
    decreases |ks|
  {
    if ks != [] {
      var init := ks[..|ks| - 1];
      EvalKeysRight(g, init, memo);
      var m := EvalKeys(g, init, memo).value;
      EvalSymbolRight(g, ks[|ks| - 1], m, {});
      assert ks == init + [ks[|ks| - 1]];
    }
  }

  /** Variants of a right-hand side depend only on how its own symbols are
      classified. */
  lemma {:induction false} ExpandAgrees(taken: seq<Symbol>, rest: seq<Symbol>, n1: set<Symbol>, n2: set<Symbol>)
    requires forall x :: x in rest ==> (x in n1 <==> x in n2)
    ensures Expand(taken, rest, n1) == Expand(taken, rest, n2)
    decreases |rest|
  {
    if rest != [] {
      assert rest[0] in rest;
      assert forall x :: x in rest[1..] ==> x in rest;
      ExpandAgrees(taken, rest[1..], n1, n2);
      ExpandAgrees(taken + [rest[0]], rest[1..], n1, n2);
    }
  }

  lemma {:induction false} EpsFreeListAgrees(ps: seq<Production>, n1: set<Symbol>, n2: set<Symbol>)
    requires forall p, x :: p in ps && x in p.products ==> (x in n1 <==> x in n2)
    ensures EpsFreeList(ps, n1) == EpsFreeList(ps, n2)
    decreases |ps|
  {
    if ps != [] {
      var last := ps[|ps| - 1];
      EpsFreeListAgrees(ps[..|ps| - 1], n1, n2);
      ExpandAgrees([], last.products, n1, n2);
    }
  }

  lemma {:induction false} EpsFreeKeysAgrees(g: Grammar, ks: seq<Symbol>, n1: set<Symbol>, n2: set<Symbol>)
    requires forall k :: k in ks ==> k in g.productions
    requires forall k, p, x :: k in ks && p in g.productions[k] && x in p.products ==> (x in n1 <==> x in n2)
    ensures EpsFreeKeys(g, ks, n1) == EpsFreeKeys(g, ks, n2)
    decreases |ks|
  {
    if ks != [] {
      var last := ks[|ks| - 1];
      EpsFreeKeysAgrees(g, ks[..|ks| - 1], n1, n2);
      EpsFreeListAgrees(g.productions[last], n1, n2);
    }
  }

  /** Whenever the source's pass completes, it builds the grammar of the
      least-fixpoint model. */
  lemma AsWrittenAgreesWhenItCompletes(g: Grammar)
    requires WellFormed(g) && RemoveEpsAsWritten(g).Success?
    ensures RemoveEpsAsWritten(g).value == EpsFree(g)
  {
    var memo0 := map[EPS := true];
    NullableRules(g, EPS);
    EvalKeysRight(g, g.keys, memo0);
    var memo := EvalKeys(g, g.keys, memo0).value;
    var n1 := Marked(memo);
    var n2 := Nullable(g);
    assert g.initial in n1 <==> g.initial in n2;
    assert EpsStart(g.initial, n1) == EpsStart(g.initial, n2);
    EpsFreeKeysAgrees(g, g.keys, n1, n2);
  }

  // ---------------------------------------------------------------------
  // Where the source does not complete

  /** `S -> S`: evaluating `S` reaches `S` again. */
  function SelfLoop(): Grammar {
    var s := Symbol("S");
    Grammar(s, [s], map[s := [Production(s, [s])]])
  }

  /** `S -> a b`: `any`/`all` stop at `a`, so `b` never gets an entry. */
  function TwoTerminals(): Grammar {
    var s := Symbol("S");
    Grammar(s, [s], map[s := [Production(s, [Symbol("a"), Symbol("b")])]])
  }

  /** On `S -> S` the source recurses without end, while the least fixpoint
      finds that `S` is not nullable and keeps the production. */
  lemma SelfLoopDiverges()
    ensures WellFormed(SelfLoop())
    ensures RemoveEpsAsWritten(SelfLoop()) == Failure(EndlessRecursion(Symbol("S")))
    ensures Has(EpsFree(SelfLoop()), Production(Symbol("S"), [Symbol("S")]))
  {
    var g := SelfLoop();
    var s := Symbol("S");
    var memo0 := map[EPS := true];
    assert s != EPS && s !in memo0;
    assert EvalSymbol(g, s, memo0, {s}) == Failure(EndlessRecursion(s));
    assert EvalAll(g, [s], memo0, {s}) == Failure(EndlessRecursion(s));
    assert EvalAny(g, g.productions[s], memo0, {s}) == Failure(EndlessRecursion(s));
    assert {} + {s} == {s};
    assert EvalSymbol(g, s, memo0, {}) == Failure(EndlessRecursion(s));
    assert EvalKeys(g, [s][..0], memo0) == Success(memo0);
    assert EvalKeys(g, g.keys, memo0) == Failure(EndlessRecursion(s));
    EpsFreeKeepsKept(g, Production(s, [s]));
  }

  /** On `S -> a b` the source looks up `b`, which was never evaluated, while
      the least-fixpoint model keeps `S -> a b`. */
  lemma TwoTerminalsMissEntry()
    ensures WellFormed(TwoTerminals())
    ensures RemoveEpsAsWritten(TwoTerminals()) == Failure(MissingEntry(Symbol("b")))
    ensures Has(EpsFree(TwoTerminals()), Production(Symbol("S"), [Symbol("a"), Symbol("b")]))
  {
    var g := TwoTerminals();
    var s, a, b := Symbol("S"), Symbol("a"), Symbol("b");
    var memo0 := map[EPS := true];
    var memo1 := memo0[a := false];
    assert a != EPS && a !in memo0 && a !in g.productions;
    assert EvalSymbol(g, a, memo0, {s}) == Success((false, memo1));
    assert EvalAll(g, [a, b], memo0, {s}) == Success((false, memo1));
    assert EvalAny(g, g.productions[s][1..], memo1, {s}) == Success((false, memo1));
    assert EvalAny(g, g.productions[s], memo0, {s}) == Success((false, memo1));
    var memo2 := memo1[s := false];
    assert {} + {s} == {s};
    assert EvalSymbol(g, s, memo0, {}) == Success((false, memo2));
    assert EvalKeys(g, [s][..0], memo0) == Success(memo0);
    assert EvalKeys(g, g.keys, memo0) == Success(memo2);
    assert b !in memo2;
    assert FirstMissing(g, g.keys, memo2) == Some(b);
    EpsFreeKeepsKept(g, Production(s, [a, b]));
  }
}
