/** Small helpers shared by the models: failure wrappers, ASCII character
    classes, decimal rendering of numbers and joining of strings. */
module Util {

  datatype Option<T> = None | Some(value: T)

  /** The outcome of an operation that the source may abort with an exception. */
  datatype Result<T, E> = Success(value: T) | Failure(error: E)

  /** Kotlin's `Char.isLowerCase`, restricted to ASCII letters. */
  predicate IsLower(c: char) { 'a' <= c <= 'z' }

  /** Kotlin's `Char.isUpperCase`, restricted to ASCII letters. */
  predicate IsUpper(c: char) { 'A' <= c <= 'Z' }

  function UpperChar(c: char): (u: char)
    ensures IsLower(c) ==> IsUpper(u)
    ensures !IsLower(c) ==> u == c
  {
    if IsLower(c) then (c as int - 32) as char else c
  }

  /** Kotlin's `String.toUpperCase`, restricted to ASCII letters. */
  function ToUpper(s: string): (u: string)
    ensures |u| == |s|
    ensures forall i :: 0 <= i < |s| ==> u[i] == UpperChar(s[i])
  {
    if s == [] then [] else [UpperChar(s[0])] + ToUpper(s[1..])
  }

  predicate Distinct<T(==)>(s: seq<T>) {
    forall i, j :: 0 <= i < j < |s| ==> s[i] != s[j]
  }

  /** An element of a non-empty sequence is in its front or is its last. */
  lemma LastSplit<T>(s: seq<T>)
    requires |s| > 0
    ensures forall x :: x in s <==> x in s[..|s| - 1] || x == s[|s| - 1]
  {
    assert s == s[..|s| - 1] + [s[|s| - 1]];
  }

  /** A strict subset is smaller. */
  lemma SubsetCardinality<T>(a: set<T>, b: set<T>)
    requires a < b
    ensures |a| < |b|
  {
    assert exists x :: x in b && x !in a;
    var x :| x in b && x !in a;
    assert b == a + (b - a);
    assert |b - a| >= |{x}|;
  }

  function DigitChar(d: nat): (c: char)
    requires d < 10
  {
    "0123456789"[d]
  }

  /** Decimal rendering of a natural number, as `Int.toString` prints it. */
  function NatToString(n: nat): (s: string)
    ensures |s| >= 1
    ensures n >= 10 <==> |s| >= 2
    ensures forall i :: 0 <= i < |s| ==> '0' <= s[i] <= '9'
    decreases n
  {
    if n < 10 then [DigitChar(n)] else NatToString(n / 10) + [DigitChar(n % 10)]
  }

  /** Different numbers have different decimal renderings, so names built
      as `prefix + counter` never collide for two counters. */
  lemma {:induction false} NatToStringInjective(m: nat, n: nat)
    requires NatToString(m) == NatToString(n)
    ensures m == n
    decreases m
  {
    var s := NatToString(m);
    if m < 10 && n < 10 {
      assert DigitChar(m) == s[0] == DigitChar(n);
    } else if m >= 10 && n >= 10 {
      var k := |s| - 1;
      assert DigitChar(m % 10) == s[k] == DigitChar(n % 10);
      assert m % 10 == n % 10;
      assert NatToString(m / 10) == s[..k] == NatToString(n / 10);
      NatToStringInjective(m / 10, n / 10);
    }
  }

  /** Decimal rendering of an integer with a leading minus sign. */
  function IntToString(i: int): (s: string)
    ensures |s| >= 1
  {
    if i < 0 then "-" + NatToString(-i) else NatToString(i)
  }

  /** Kotlin's `joinToString(sep)` on strings. */
  function Join(xs: seq<string>, sep: string): (s: string)
    decreases |xs|
  {
    if xs == [] then ""
    else if |xs| == 1 then xs[0]
    else Join(xs[..|xs| - 1], sep) + sep + xs[|xs| - 1]
  }

  /** The position of the first occurrence of `x` in `s`, or -1 (`List.indexOf`). */
  function IndexOf<T(==)>(s: seq<T>, x: T): (i: int)
    ensures -1 <= i < |s|
    ensures i == -1 <==> x !in s
    ensures 0 <= i ==> s[i] == x && x !in s[..i]
  {
    if s == [] then -1
    else if s[0] == x then 0
    else var k := IndexOf(s[1..], x); if k == -1 then -1 else k + 1
  }
}
