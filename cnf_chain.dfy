/** The third pass of `toChomskyNormalForm` (`removeChainProductions`): the
    unit productions `A -> B` between left-hand sides are recorded in a
    boolean matrix, the matrix is closed transitively with Warshall's triple
    loop, and every left-hand side `A` then receives the productions of each
    `B` it reaches, except their unit productions to non-terminals. */
module CnfChain {
  import opened Util
  import opened CfGrammar

  // ---------------------------------------------------------------------
  // Warshall's closure

  /** An n-by-n boolean matrix. */
  predicate Square(m: seq<seq<bool>>) {
    forall i :: 0 <= i < |m| ==> |m[i]| == |m|
  }

  /** Entry (i, j) after `k` rounds of Warshall's algorithm on `m`. */
  function Rounds(m: seq<seq<bool>>, k: nat, i: nat, j: nat): bool
    requires Square(m) && k <= |m| && i < |m| && j < |m|
    decreases k
  {
    if k == 0 then m[i][j]
    else Rounds(m, k - 1, i, j) || (Rounds(m, k - 1, i, k - 1) && Rounds(m, k - 1, k - 1, j))
  }

  /** `p` is a walk of at least one step from `i` to `j` along true entries of
      `m` whose inner nodes are all below `k`. */
  predicate PathBelow(m: seq<seq<bool>>, p: seq<nat>, i: nat, j: nat, k: nat) {
    && Square(m)
    && |p| >= 2 && p[0] == i && p[|p| - 1] == j
    && (forall t :: 0 <= t < |p| ==> p[t] < |m|)
    && (forall t :: 0 <= t < |p| - 1 ==> m[p[t]][p[t + 1]])
    && (forall t :: 0 < t < |p| - 1 ==> p[t] < k)
  }

  /** `j` can be reached from `i` in one or more steps. */
  ghost predicate Reachable(m: seq<seq<bool>>, i: nat, j: nat) {
    exists p :: PathBelow(m, p, i, j, |m|)
  }

  /** Two walks that meet at a node below the bound join into one. */
  lemma PathJoin(m: seq<seq<bool>>, p1: seq<nat>, p2: seq<nat>, i: nat, mid: nat, j: nat, k: nat)
    requires PathBelow(m, p1, i, mid, k) && PathBelow(m, p2, mid, j, k) && mid < k
    ensures PathBelow(m, p1 + p2[1..], i, j, k)
  {
    var p := p1 + p2[1..];
    forall t | 0 <= t < |p| - 1 ensures m[p[t]][p[t + 1]] {
      if t >= |p1| - 1 {
        assert p[t] == p2[t - |p1| + 1] && p[t + 1] == p2[t - |p1| + 2];
      }
    }
    forall t | 0 < t < |p| - 1 ensures p[t] < k {
      if t >= |p1| {
        assert p[t] == p2[t - |p1| + 1];
      }
    }
  }

  /** A true entry after `k` rounds has a walk with inner nodes below `k`. */
  lemma {:induction false} RoundsSound(m: seq<seq<bool>>, k: nat, i: nat, j: nat)
    requires Square(m) && k <= |m| && i < |m| && j < |m| && Rounds(m, k, i, j)
    ensures exists p :: PathBelow(m, p, i, j, k)
    decreases k
  {
    if k == 0 {
      assert PathBelow(m, [i, j], i, j, k);
    } else if Rounds(m, k - 1, i, j) {
      RoundsSound(m, k - 1, i, j);
      var p :| PathBelow(m, p, i, j, k - 1);
      assert PathBelow(m, p, i, j, k);
    } else {
      RoundsSound(m, k - 1, i, k - 1);
      RoundsSound(m, k - 1, k - 1, j);
      var p1 :| PathBelow(m, p1, i, k - 1, k - 1);
      var p2 :| PathBelow(m, p2, k - 1, j, k - 1);
      assert PathBelow(m, p1, i, k - 1, k) && PathBelow(m, p2, k - 1, j, k);
      PathJoin(m, p1, p2, i, k - 1, j, k);
    }
  }

  /** A walk with inner nodes below `k` makes the entry true after `k` rounds:
      cut it at an inner visit of node k-1 (or it avoids k-1 altogether). */
  lemma {:induction false} RoundsComplete(m: seq<seq<bool>>, k: nat, i: nat, j: nat, p: seq<nat>)
    requires k <= |m| && PathBelow(m, p, i, j, k)
    ensures Rounds(m, k, i, j)
    decreases k, |p|
  {
    if k == 0 {
      assert m[p[0]][p[1]];
    } else if exists t :: 0 < t < |p| - 1 && p[t] == k - 1 {
      var t :| 0 < t < |p| - 1 && p[t] == k - 1;
      var pre, post := p[..t + 1], p[t..];
      assert PathBelow(m, pre, i, k - 1, k);
      assert PathBelow(m, post, k - 1, j, k) by {
        forall u | 0 <= u < |post| - 1 ensures m[post[u]][post[u + 1]] {
          assert post[u] == p[t + u] && post[u + 1] == p[t + u + 1];
        }
      }
      RoundsComplete(m, k, i, k - 1, pre);
      RoundsComplete(m, k, k - 1, j, post);
    } else {
      assert PathBelow(m, p, i, j, k - 1);
      RoundsComplete(m, k - 1, i, j, p);
    }
  }

  /** After all n rounds an entry is true exactly when its column is reachable
      from its row. */
  lemma ClosureIsReachability(m: seq<seq<bool>>, i: nat, j: nat)
    requires Square(m) && i < |m| && j < |m|
    ensures Rounds(m, |m|, i, j) <==> Reachable(m, i, j)
  {
    if Rounds(m, |m|, i, j) {
      RoundsSound(m, |m|, i, j);
    }
    if Reachable(m, i, j) {
      var p :| PathBelow(m, p, i, j, |m|);
      RoundsComplete(m, |m|, i, j, p);
    }
  }

  /** The array holds the matrix `c`, entry by entry. */
  ghost predicate Mirrors(units: array2<bool>, c: seq<seq<bool>>)
    reads units
  {
    Square(c) && |c| == units.Length0 == units.Length1 &&
    forall a, b :: 0 <= a < |c| && 0 <= b < |c| ==> units[a, b] == c[a][b]
  }

  /** `calculateTransitiveClosure`: Warshall's triple loop, in place.  In round
      k, row k and column k keep their values, so reading them after they may
      have been written reads the values of the previous round. */
  method CalculateTransitiveClosure(g: array2<bool>, ghost m: seq<seq<bool>>)
    requires Mirrors(g, m)
    modifies g
    ensures forall i, j :: 0 <= i < |m| && 0 <= j < |m| ==> g[i, j] == Rounds(m, |m|, i, j)
  {
    var n := g.Length0;
    var k := 0;
    while k < n
      invariant 0 <= k <= n
      invariant forall a, b :: 0 <= a < n && 0 <= b < n ==> g[a, b] == Rounds(m, k, a, b)
    {
      var i := 0;
      while i < n
        invariant 0 <= i <= n
        invariant forall a, b :: 0 <= a < n && 0 <= b < n ==> g[a, b] == Rounds(m, if a < i then k + 1 else k, a, b)
      {
        var j := 0;
        while j < n
          invariant 0 <= j <= n
          invariant forall a, b :: 0 <= a < n && 0 <= b < n ==>
            g[a, b] == Rounds(m, if a < i || (a == i && b < j) then k + 1 else k, a, b)
        {
          g[i, j] := g[i, j] || (g[i, k] && g[k, j]);
          j := j + 1;
        }
        i := i + 1;
      }
      k := k + 1;
    }
  }

  // ---------------------------------------------------------------------
  // The pass

  /** The unit-production matrix over the keys: entry (i, j) holds when
      `keys[i] -> keys[j]` is a production. */
  function UnitMatrix(g: Grammar): (m: seq<seq<bool>>)
    ensures Square(m) && |m| == |g.keys|
  {
    var n := |g.keys|;
    seq(n, i requires 0 <= i < n => seq(n, j requires 0 <= j < n => Has(g, Production(g.keys[i], [g.keys[j]]))))
  }

  /** `B` is reached from `A` through one or more unit productions. */
  function ChainReaches(g: Grammar, a: Symbol, b: Symbol): bool {
    var m := UnitMatrix(g);
    a in g.keys && b in g.keys && Rounds(m, |m|, IndexOf(g.keys, a), IndexOf(g.keys, b))
  }

  /** A production kept as it is: not a unit production to a left-hand side. */
  predicate Direct(p: Production, keys: seq<Symbol>) {
    |p.products| != 1 || p.products[0] !in keys
  }

  /** A right-hand side that is copied along a chain: not a single non-terminal. */
  predicate Copyable(rhs: seq<Symbol>) {
    !(|rhs| == 1 && !IsTerminal(rhs[0]))
  }

  function DirectList(ps: seq<Production>, keys: seq<Symbol>): seq<Production>
    decreases |ps|
  {
    if ps == [] then []
    else DirectList(ps[..|ps| - 1], keys) + (if Direct(ps[|ps| - 1], keys) then [ps[|ps| - 1]] else [])
  }

  function DirectKeys(g: Grammar, ks: seq<Symbol>): seq<Production>
    requires forall k :: k in ks ==> k in g.productions
    decreases |ks|
  {
    if ks == [] then [] else DirectKeys(g, ks[..|ks| - 1]) + DirectList(g.productions[ks[|ks| - 1]], g.keys)
  }

  /** Every key has a production list. */
  predicate KeysMapped(g: Grammar) {
    forall k :: k in g.keys ==> k in g.productions
  }

  /** The copyable right-hand sides of `qs`, given to `a`. */
  function CopyList(a: Symbol, qs: seq<Production>): seq<Production>
    decreases |qs|
  {
    if qs == [] then []
    else CopyList(a, qs[..|qs| - 1]) +
         (if Copyable(qs[|qs| - 1].products) then [Production(a, qs[|qs| - 1].products)] else [])
  }

  /** What key `i` receives from the keys below `jn` it reaches in `c`. */
  function CopiesRow(g: Grammar, c: seq<seq<bool>>, i: nat, jn: nat): seq<Production>
    requires KeysMapped(g) && Square(c) && |c| == |g.keys| && i < |c| && jn <= |c|
    decreases jn
  {
    if jn == 0 then []
    else CopiesRow(g, c, i, jn - 1) +
         (if c[i][jn - 1] then CopyList(g.keys[i], g.productions[g.keys[jn - 1]]) else [])
  }

  function CopiesKeys(g: Grammar, c: seq<seq<bool>>, in_: nat): seq<Production>
    requires KeysMapped(g) && Square(c) && |c| == |g.keys| && in_ <= |c|
    decreases in_
  {
    if in_ == 0 then [] else CopiesKeys(g, c, in_ - 1) + CopiesRow(g, c, in_ - 1, |c|)
  }

  /** The closed unit matrix. */
  function ClosedUnits(g: Grammar): (c: seq<seq<bool>>)
    ensures Square(c) && |c| == |g.keys|
  {
    var m := UnitMatrix(g);
    seq(|m|, i requires 0 <= i < |m| => seq(|m|, j requires 0 <= j < |m| => Rounds(m, |m|, i, j)))
  }

  /** The grammar `removeChainProductions` builds. */
  function ChainFree(g: Grammar): Grammar
    requires WellFormed(g)
  {
    InsertAll(InsertAll(Empty(g.initial), DirectKeys(g, g.keys)), CopiesKeys(g, ClosedUnits(g), |g.keys|))
  }

  // ---------------------------------------------------------------------
  // What the result holds

  lemma {:induction false} DirectListMembers(ps: seq<Production>, keys: seq<Symbol>, q: Production)
    ensures q in DirectList(ps, keys) <==> q in ps && Direct(q, keys)
    decreases |ps|
  {
    if ps != [] {
      DirectListMembers(ps[..|ps| - 1], keys, q);
      assert ps == ps[..|ps| - 1] + [ps[|ps| - 1]];
    }
  }

  lemma {:induction false} DirectKeysMembers(g: Grammar, ks: seq<Symbol>, q: Production)
    requires forall k :: k in ks ==> k in g.productions
    ensures q in DirectKeys(g, ks) <==> exists k :: k in ks && q in g.productions[k] && Direct(q, g.keys)
    decreases |ks|
  {
    if ks != [] {
      var last := ks[|ks| - 1];
      DirectKeysMembers(g, ks[..|ks| - 1], q);
      DirectListMembers(g.productions[last], g.keys, q);
      assert ks == ks[..|ks| - 1] + [last];
    }
  }

  lemma {:induction false} CopyListMembers(a: Symbol, qs: seq<Production>, q: Production)
    ensures q in CopyList(a, qs) <==> q.symbol == a && Copyable(q.products) && exists p :: p in qs && p.products == q.products
    decreases |qs|
  {
    if qs != [] {
      CopyListMembers(a, qs[..|qs| - 1], q);
      assert qs == qs[..|qs| - 1] + [qs[|qs| - 1]];
    }
  }

  lemma {:induction false} CopiesRowMembers(g: Grammar, c: seq<seq<bool>>, i: nat, jn: nat, q: Production)
    requires KeysMapped(g) && Square(c) && |c| == |g.keys| && i < |c| && jn <= |c|
    ensures q in CopiesRow(g, c, i, jn) <==>
      exists j :: 0 <= j < jn && c[i][j] && q in CopyList(g.keys[i], g.productions[g.keys[j]])
    decreases jn
  {
    if jn > 0 {
      CopiesRowMembers(g, c, i, jn - 1, q);
    }
  }

  lemma {:induction false} CopiesKeysMembers(g: Grammar, c: seq<seq<bool>>, in_: nat, q: Production)
    requires KeysMapped(g) && Square(c) && |c| == |g.keys| && in_ <= |c|
    ensures q in CopiesKeys(g, c, in_) <==>
      exists i, j :: 0 <= i < in_ && 0 <= j < |c| && c[i][j] && q in CopyList(g.keys[i], g.productions[g.keys[j]])
    decreases in_
  {
    if in_ > 0 {
      CopiesKeysMembers(g, c, in_ - 1, q);
      CopiesRowMembers(g, c, in_ - 1, |c|, q);
    }
  }

  /** The kept part: exactly the productions that are not unit productions
      to a left-hand side. */
  lemma DirectPart(g: Grammar, q: Production)
    requires WellFormed(g)
    ensures q in DirectKeys(g, g.keys) <==> Has(g, q) && Direct(q, g.keys)
  {
    DirectKeysMembers(g, g.keys, q);
    if q in DirectKeys(g, g.keys) {
      var k :| k in g.keys && q in g.productions[k] && Direct(q, g.keys);
      assert Keyed(k, g.productions[k]);
    }
  }

  /** An entry of the closed matrix is the chain relation between two keys. */
  lemma ClosedUnitsEntry(g: Grammar, i: nat, j: nat)
    requires Distinct(g.keys) && i < |g.keys| && j < |g.keys|
    ensures ClosedUnits(g)[i][j] == ChainReaches(g, g.keys[i], g.keys[j])
  {
    assert IndexOf(g.keys, g.keys[i]) == i && IndexOf(g.keys, g.keys[j]) == j;
  }

  /** Every copied production comes from a left-hand side its own reaches. */
  lemma CopiedSound(g: Grammar, q: Production)
    requires KeysMapped(g) && Distinct(g.keys) && q in CopiesKeys(g, ClosedUnits(g), |g.keys|)
    ensures Copyable(q.products)
    ensures exists b :: ChainReaches(g, q.symbol, b) && exists p :: p in g.productions[b] && p.products == q.products
  {
    var c := ClosedUnits(g);
    CopiesKeysMembers(g, c, |g.keys|, q);
    var i, j :| 0 <= i < |c| && 0 <= j < |c| && c[i][j] && q in CopyList(g.keys[i], g.productions[g.keys[j]]);
    CopyListMembers(g.keys[i], g.productions[g.keys[j]], q);
    ClosedUnitsEntry(g, i, j);
    assert ChainReaches(g, q.symbol, g.keys[j]);
  }

  /** Every copyable right-hand side of a reached left-hand side is copied. */
  lemma CopiedComplete(g: Grammar, q: Production, b: Symbol, p: Production)
    requires KeysMapped(g) && Distinct(g.keys) && Copyable(q.products) && ChainReaches(g, q.symbol, b)
    requires p in g.productions[b] && p.products == q.products
    ensures q in CopiesKeys(g, ClosedUnits(g), |g.keys|)
  {
    var i, j := IndexOf(g.keys, q.symbol), IndexOf(g.keys, b);
    CopyListMembers(q.symbol, g.productions[b], q);
    ClosedUnitsEntry(g, i, j);
    CopiesKeysMembers(g, ClosedUnits(g), |g.keys|, q);
  }

  /** The copied part: `A -> w` is copied exactly when `w` is copyable and
      some `B` that `A` reaches has a production with right-hand side `w`. */
  lemma CopiedPart(g: Grammar, q: Production)
    requires WellFormed(g)
    ensures q in CopiesKeys(g, ClosedUnits(g), |g.keys|) <==>
      Copyable(q.products) &&
      exists b :: ChainReaches(g, q.symbol, b) && exists p :: p in g.productions[b] && p.products == q.products
  {
    if q in CopiesKeys(g, ClosedUnits(g), |g.keys|) {
      CopiedSound(g, q);
    }
    if Copyable(q.products) && exists b :: ChainReaches(g, q.symbol, b) && exists p :: p in g.productions[b] && p.products == q.products {
      var b :| ChainReaches(g, q.symbol, b) && exists p :: p in g.productions[b] && p.products == q.products;
      var p :| p in g.productions[b] && p.products == q.products;
      CopiedComplete(g, q, b, p);
    }
  }

  /** The result keeps the productions that are not unit productions to a
      left-hand side, and gives each `A` the copyable right-hand sides of
      every `B` that `A` reaches through unit productions; nothing else. */
  lemma ChainFreeMembers(g: Grammar, q: Production)
    requires WellFormed(g)
    ensures Has(ChainFree(g), q) <==>
      (Has(g, q) && Direct(q, g.keys)) ||
      (Copyable(q.products) &&
       exists b :: ChainReaches(g, q.symbol, b) && exists p :: p in g.productions[b] && p.products == q.products)
  {
    var direct := DirectKeys(g, g.keys);
    InsertAllHas(Empty(g.initial), direct);
    InsertAllHas(InsertAll(Empty(g.initial), direct), CopiesKeys(g, ClosedUnits(g), |g.keys|));
    DirectPart(g, q);
    CopiedPart(g, q);
  }

  /** The chain relation is reachability along unit productions between
      left-hand sides. */
  lemma ChainReachesUnitPath(g: Grammar, a: Symbol, b: Symbol)
    requires WellFormed(g) && a in g.keys && b in g.keys
    ensures ChainReaches(g, a, b) <==> Reachable(UnitMatrix(g), IndexOf(g.keys, a), IndexOf(g.keys, b))
    ensures forall i, j :: 0 <= i < |g.keys| && 0 <= j < |g.keys| ==>
      (UnitMatrix(g)[i][j] <==> Has(g, Production(g.keys[i], [g.keys[j]])))
  {
    ClosureIsReachability(UnitMatrix(g), IndexOf(g.keys, a), IndexOf(g.keys, b));
  }

  lemma UnitMatrixEntry(g: Grammar, i: nat, j: nat)
    requires i < |g.keys| && j < |g.keys|
    ensures UnitMatrix(g)[i][j] == Has(g, Production(g.keys[i], [g.keys[j]]))
  {
  }

  // ---------------------------------------------------------------------
  // The methods

  /** One production in the first loop: kept when direct, otherwise marked
      in the unit matrix. */
  method AddOrMark(r: CFGrammar, units: array2<bool>, keys: seq<Symbol>, symbolIndex: nat, production: Production)
    requires r.Valid() && Distinct(keys) && symbolIndex < |keys| && production.symbol == keys[symbolIndex]
    requires units.Length0 == units.Length1 == |keys|
    modifies r, units
    ensures r.Valid() && r.Value() == if Direct(production, keys) then Insert(old(r.Value()), production) else old(r.Value())
    ensures forall a, b :: 0 <= a < |keys| && 0 <= b < |keys| ==>
      units[a, b] == (old(units[a, b]) || (a == symbolIndex && production == Production(keys[a], [keys[b]])))
  {
    var products := production.products;
    if |products| != 1 {
      r.AddProduction(production);
    } else {
      var product := products[0];
      var productIndex := IndexOf(keys, product);
      if productIndex == -1 {
        r.AddProduction(production);
      } else {
        units[symbolIndex, productIndex] := true;
        forall b | 0 <= b < |keys| && production == Production(keys[symbolIndex], [keys[b]])
          ensures b == productIndex
        {
          assert keys[b] == product;
        }
      }
    }
  }

  /** The direct productions of one more production of `ps`. */
  lemma DirectListNext(ps: seq<Production>, j: nat, keys: seq<Symbol>)
    requires j < |ps|
    ensures Direct(ps[j], keys) ==> DirectList(ps[..j + 1], keys) == DirectList(ps[..j], keys) + [ps[j]]
    ensures !Direct(ps[j], keys) ==> DirectList(ps[..j + 1], keys) == DirectList(ps[..j], keys)
  {
    assert ps[..j + 1][..j] == ps[..j];
    if !Direct(ps[j], keys) {
      assert DirectList(ps[..j], keys) + [] == DirectList(ps[..j], keys);
    }
  }

  /** One more element of a prefix. */
  lemma PrefixNext<T>(ps: seq<T>, j: nat)
    requires j < |ps|
    ensures forall x :: x in ps[..j + 1] <==> x in ps[..j] || x == ps[j]
  {
    assert ps[..j + 1] == ps[..j] + [ps[j]];
  }

  /** The first loop for one left-hand side: keep its direct productions and
      mark its unit productions to left-hand sides in row `i`. */
  method FillUnitRow(r: CFGrammar, units: array2<bool>, ghost g: Grammar, keys: seq<Symbol>, symbolProductions: seq<Production>, i: nat)
    requires WellFormed(g) && keys == g.keys && i < |keys| && symbolProductions == g.productions[keys[i]]
    requires r.Valid() && units.Length0 == units.Length1 == |keys|
    requires forall b :: 0 <= b < |keys| ==> !units[i, b]
    modifies r, units
    ensures r.Valid() && r.Value() == InsertAll(old(r.Value()), DirectList(symbolProductions, keys))
    ensures forall a, b :: 0 <= a < |keys| && 0 <= b < |keys| ==>
      units[a, b] == if a == i then UnitMatrix(g)[i][b] else old(units[a, b])
  {
    ghost var start := r.Value();
    var symbol := keys[i];
    var symbolIndex := IndexOf(keys, symbol);
    assert symbolIndex == i;
    assert Keyed(symbol, symbolProductions);
    var j := 0;
    assert symbolProductions[..0] == [];
    while j < |symbolProductions|
      invariant 0 <= j <= |symbolProductions|
      invariant r.Valid() && r.Value() == InsertAll(start, DirectList(symbolProductions[..j], keys))
      invariant forall a, b :: 0 <= a < |keys| && 0 <= b < |keys| ==>
        units[a, b] == if a == i then Production(symbol, [keys[b]]) in symbolProductions[..j] else old(units[a, b])
    {
      var production := symbolProductions[j];
      assert production.symbol == symbol;
      AddOrMark(r, units, keys, symbolIndex, production);
      DirectListNext(symbolProductions, j, keys);
      PrefixNext(symbolProductions, j);
      if Direct(production, keys) {
        InsertAllSnoc(start, DirectList(symbolProductions[..j], keys), production);
      }
      j := j + 1;
    }
    assert symbolProductions[..j] == symbolProductions;
    forall b | 0 <= b < |keys| ensures UnitMatrix(g)[i][b] == (Production(symbol, [keys[b]]) in symbolProductions) {
      UnitMatrixEntry(g, i, b);
    }
  }

  /** The first loop: every row of the unit matrix, and the direct productions. */
  method FillUnits(g: CFGrammar, r: CFGrammar, units: array2<bool>)
    requires g.Valid() && r.Valid() && r != g
    requires units.Length0 == units.Length1 == |g.keys|
    requires forall a, b :: 0 <= a < |g.keys| && 0 <= b < |g.keys| ==> !units[a, b]
    modifies r, units
    ensures r.Valid() && r.Value() == InsertAll(old(r.Value()), DirectKeys(g.Value(), g.keys))
    ensures forall a, b :: 0 <= a < |g.keys| && 0 <= b < |g.keys| ==> units[a, b] == UnitMatrix(g.Value())[a][b]
  {
    ghost var gv := g.Value();
    ghost var start := r.Value();
    var keys := g.keys;
    var n := |keys|;
    var i := 0;
    assert keys[..0] == [];
    while i < n
      invariant 0 <= i <= n
      invariant r.Valid() && r.Value() == InsertAll(start, DirectKeys(gv, keys[..i]))
      invariant forall a, b :: 0 <= a < n && 0 <= b < n ==> units[a, b] == (a < i && UnitMatrix(gv)[a][b])
    {
      assert keys[..i + 1][..i] == keys[..i];
      FillUnitRow(r, units, gv, keys, g.productions[keys[i]], i);
      InsertAllAppend(start, DirectKeys(gv, keys[..i]), DirectList(gv.productions[keys[i]], keys));
      i := i + 1;
    }
    assert keys[..i] == keys;
  }

  /** The copies for one reached left-hand side. */
  method AddCopyList(r: CFGrammar, symbol: Symbol, productProductions: seq<Production>)
    requires r.Valid()
    modifies r
    ensures r.Valid() && r.Value() == InsertAll(old(r.Value()), CopyList(symbol, productProductions))
  {
    ghost var start := r.Value();
    var t := 0;
    assert productProductions[..0] == [];
    while t < |productProductions|
      invariant 0 <= t <= |productProductions|
      invariant r.Valid() && r.Value() == InsertAll(start, CopyList(symbol, productProductions[..t]))
    {
      var products := productProductions[t].products;
      assert productProductions[..t + 1][..t] == productProductions[..t];
      if !(|products| == 1 && !IsTerminal(products[0])) {
        r.AddProduction(Production(symbol, products));
        assert CopyList(symbol, productProductions[..t + 1]) == CopyList(symbol, productProductions[..t]) + [Production(symbol, products)];
        InsertAllSnoc(start, CopyList(symbol, productProductions[..t]), Production(symbol, products));
      } else {
        assert CopyList(symbol, productProductions[..t + 1]) == CopyList(symbol, productProductions[..t]);
      }
      t := t + 1;
    }
    assert productProductions[..t] == productProductions;
  }

  /** One more column of row `i`. */
  lemma CopiesRowNext(g: Grammar, c: seq<seq<bool>>, i: nat, j: nat)
    requires KeysMapped(g) && Square(c) && |c| == |g.keys| && i < |c| && j < |c|
    ensures c[i][j] ==> CopiesRow(g, c, i, j + 1) == CopiesRow(g, c, i, j) + CopyList(g.keys[i], g.productions[g.keys[j]])
    ensures !c[i][j] ==> CopiesRow(g, c, i, j + 1) == CopiesRow(g, c, i, j)
  {
    if !c[i][j] {
      assert CopiesRow(g, c, i, j) + [] == CopiesRow(g, c, i, j);
    }
  }

  /** The second loop for one left-hand side: give it the copyable
      productions of every left-hand side its row reaches. */
  method AddCopies(r: CFGrammar, units: array2<bool>, ghost g: Grammar, keys: seq<Symbol>,
                   productions: map<Symbol, seq<Production>>, i: nat, ghost c: seq<seq<bool>>)
    requires KeysMapped(g) && Distinct(keys) && keys == g.keys && productions == g.productions
    requires r.Valid() && i < |keys| && |c| == |keys| && Mirrors(units, c)
    modifies r
    ensures r.Valid() && r.Value() == InsertAll(old(r.Value()), CopiesRow(g, c, i, |c|))
  {
    ghost var start := r.Value();
    var symbol := keys[i];
    var symbolIndex := IndexOf(keys, symbol);
    assert symbolIndex == i;
    var n := |keys|;
    var j := 0;
    while j < n
      invariant 0 <= j <= n
      invariant r.Valid() && r.Value() == InsertAll(start, CopiesRow(g, c, i, j))
    {
      assert units[symbolIndex, j] == c[i][j];
      CopiesRowNext(g, c, i, j);
      if units[symbolIndex, j] {
        var product := keys[j];
        AddCopyList(r, symbol, productions[product]);
        InsertAllAppend(start, CopiesRow(g, c, i, j), CopyList(symbol, productions[product]));
      }
      j := j + 1;
    }
  }

  /** The second loop over all left-hand sides. */
  method AddAllCopies(g: CFGrammar, r: CFGrammar, units: array2<bool>, ghost c: seq<seq<bool>>)
    requires g.Valid() && r.Valid() && r != g
    requires |c| == |g.keys| && Mirrors(units, c)
    modifies r
    ensures r.Valid() && r.Value() == InsertAll(old(r.Value()), CopiesKeys(g.Value(), c, |c|))
  {
    ghost var gv := g.Value();
    ghost var start := r.Value();
    var keys, productions := g.keys, g.productions;
    assert KeysMapped(gv) && Distinct(keys);
    var i := 0;
    while i < |keys|
      invariant 0 <= i <= |keys|
      invariant r.Valid() && r.Value() == InsertAll(start, CopiesKeys(gv, c, i))
    {
      AddCopies(r, units, gv, keys, productions, i, c);
      InsertAllAppend(start, CopiesKeys(gv, c, i), CopiesRow(gv, c, i, |c|));
      i := i + 1;
    }
  }

  /** Closing the unit matrix in place leaves the closed unit matrix. */
  lemma ClosedMirror(units: array2<bool>, m: seq<seq<bool>>, g: Grammar)
    requires m == UnitMatrix(g) && units.Length0 == units.Length1 == |m|
    requires forall a, b :: 0 <= a < |m| && 0 <= b < |m| ==> units[a, b] == Rounds(m, |m|, a, b)
    ensures Mirrors(units, ClosedUnits(g))
  {
  }

  /** The first loop and the closure: the direct productions are in `r`, and
      the returned array holds the closed unit matrix. */
  method ChainMatrix(g: CFGrammar, r: CFGrammar) returns (units: array2<bool>)
    requires g.Valid() && r.Valid() && r != g
    modifies r
    ensures fresh(units) && r.Valid() && r.Value() == InsertAll(old(r.Value()), DirectKeys(g.Value(), g.keys))
    ensures Mirrors(units, ClosedUnits(g.Value()))
  {
    var n := |g.keys|;
    units := new bool[n, n]((_, _) => false);
    FillUnits(g, r, units);
    ghost var m := UnitMatrix(g.Value());
    CalculateTransitiveClosure(units, m);
    ClosedMirror(units, m, g.Value());
  }

  /** `removeChainProductions`. */
  method RemoveChainProductions(g: CFGrammar) returns (r: CFGrammar)
    requires g.Valid()
    ensures fresh(r) && r.Valid() && r.Value() == ChainFree(g.Value())
  {
    r := new CFGrammar(g.initial);
    var chainProducible := ChainMatrix(g, r);
    AddAllCopies(g, r, chainProducible, ClosedUnits(g.Value()));
  }
}
