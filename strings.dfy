/**
 * String helpers the core relies on: ASCII lower-casing (`str.lower`),
 * Python's code-point lexicographic comparison of `str` values, `str.join`,
 * decimal rendering of integers (f-strings) and the contract of the
 * built-in `sorted` over a set of strings.
 */
module Strings {

  /** `c.lower()` for ASCII letters; other characters are left as they are. */
  function LowerChar(c: char): char {
    if 'A' <= c <= 'Z' then (c as int + 32) as char else c
  }

  /** `s.lower()`, character by character. */
  function Lower(s: string): (r: string)
    ensures |r| == |s|
  {
    if s == [] then [] else [LowerChar(s[0])] + Lower(s[1..])
  }

  // ---------------------------------------------------------------------
  // Lexicographic order of Python strings (by code point)
  // ---------------------------------------------------------------------

  /** `a <= b` on Python strings. */
  predicate StrLe(a: string, b: string) {
    if a == [] then true
    else if b == [] then false
    else if a[0] != b[0] then a[0] < b[0]
    else StrLe(a[1..], b[1..])
  }

  /** `a < b` on Python strings. */
  predicate StrLt(a: string, b: string) {
    StrLe(a, b) && a != b
  }

  lemma {:induction false} StrLeReflexive(a: string)
    ensures StrLe(a, a)
  {
    if a != [] {
      StrLeReflexive(a[1..]);
    }
  }

  lemma {:induction false} StrLeAntisymmetric(a: string, b: string)
    requires StrLe(a, b) && StrLe(b, a)
    ensures a == b
  {
    if a != [] && b != [] {
      StrLeAntisymmetric(a[1..], b[1..]);
      assert a == [a[0]] + a[1..] && b == [b[0]] + b[1..];
    }
  }

  lemma {:induction false} StrLeTransitive(a: string, b: string, c: string)
    requires StrLe(a, b) && StrLe(b, c)
    ensures StrLe(a, c)
  {
    if a != [] && b != [] && c != [] && a[0] == b[0] && b[0] == c[0] {
      StrLeTransitive(a[1..], b[1..], c[1..]);
    }
  }

  lemma {:induction false} StrLeTotal(a: string, b: string)
    ensures StrLe(a, b) || StrLe(b, a)
  {
    if a != [] && b != [] && a[0] == b[0] {
      StrLeTotal(a[1..], b[1..]);
    }
  }

  // ---------------------------------------------------------------------
  // sorted(...) over a set of strings
  // ---------------------------------------------------------------------

  /** Strictly increasing: sorted and without repetitions. */
  ghost predicate StrictlySorted(q: seq<string>) {
    forall i, j :: 0 <= i < j < |q| ==> StrLt(q[i], q[j])
  }

  /** A non-empty finite set of strings has a least element. */
  lemma {:induction false} LeastStringExists(s: set<string>)
    requires s != {}
    ensures exists m :: m in s && forall x :: x in s ==> StrLe(m, x)
    decreases |s|
  {
    var y :| y in s;
    var r := s - {y};
    StrLeReflexive(y);
    if r == {} {
      forall x | x in s
        ensures StrLe(y, x)
      {
        assert x !in r;
      }
    } else {
      LeastStringExists(r);
      var m :| m in r && forall x :: x in r ==> StrLe(m, x);
      StrLeTotal(m, y);
      var least := if StrLe(m, y) then m else y;
      forall x | x in s
        ensures StrLe(least, x)
      {
        if x != y {
          assert x in r;
          if least == y {
            StrLeTransitive(y, m, x);
          }
        }
      }
      assert least in s;
    }
  }

  /**
   * The built-in `sorted` applied to a set of strings: the elements of the
   * set, each once, in increasing order.
   */
  method Sorted(s: set<string>) returns (q: seq<string>)
    ensures StrictlySorted(q)
    ensures forall x :: x in q <==> x in s
    ensures |q| == |s|
  {
    q := [];
    var rest := s;
    while rest != {}
      invariant rest <= s
      invariant forall x :: x in q <==> x in s - rest
      invariant |q| + |rest| == |s|
      invariant StrictlySorted(q)
      invariant forall i, x :: 0 <= i < |q| && x in rest ==> StrLt(q[i], x)
      decreases |rest|
    {
      LeastStringExists(rest);
      var m :| m in rest && forall x :: x in rest ==> StrLe(m, x);
      forall i, x | 0 <= i < |q| && x in rest - {m}
        ensures StrLt(q[i], x)
      {
        assert StrLt(q[i], m);
        StrLeTransitive(q[i], m, x);
        if q[i] == x {
          StrLeAntisymmetric(m, x);
        }
      }
      q := q + [m];
      rest := rest - {m};
    }
  }

  /** The strictly increasing arrangement of a finite set of strings. */
  ghost function SortedOf(s: set<string>): (q: seq<string>)
    ensures StrictlySorted(q)
    ensures forall x :: x in q <==> x in s
    decreases |s|
  {
    if s == {} then []
    else
      LeastStringExists(s);
      var m :| m in s && forall x :: x in s ==> StrLe(m, x);
      var rest := SortedOf(s - {m});
      assert forall j :: 0 <= j < |rest| ==> rest[j] in rest;
      assert forall j :: 0 <= j < |rest| ==> rest[j] in s - {m} && StrLt(m, rest[j]);
      [m] + rest
  }

  /** Two strictly sorted sequences with the same elements are the same sequence. */
  lemma {:induction false} StrictlySortedUnique(p: seq<string>, q: seq<string>)
    requires StrictlySorted(p) && StrictlySorted(q)
    requires forall x :: x in p <==> x in q
    ensures p == q
  {
    if p != [] || q != [] {
      if p != [] {
        assert p[0] in q;
      }
      if q != [] {
        assert q[0] in p;
      }
      // both heads are the least element of the common set
      assert p[0] in q && q[0] in p;
      var i :| 0 <= i < |q| && q[i] == p[0];
      var j :| 0 <= j < |p| && p[j] == q[0];
      if i != 0 && j != 0 {
        assert StrLt(q[0], q[i]) && StrLt(p[0], p[j]);
        StrLeAntisymmetric(p[0], q[0]);
      }
      assert p[0] == q[0];
      forall x
        ensures x in p[1..] <==> x in q[1..]
      {
        if x in p[1..] {
          var k :| 1 <= k < |p| && p[k] == x;
          assert StrLt(p[0], x) && x in q;
          var l :| 0 <= l < |q| && q[l] == x;
          assert l != 0;
        }
        if x in q[1..] {
          var k :| 1 <= k < |q| && q[k] == x;
          assert StrLt(q[0], x) && x in p;
          var l :| 0 <= l < |p| && p[l] == x;
          assert l != 0;
        }
      }
      StrictlySortedUnique(p[1..], q[1..]);
      assert p == [p[0]] + p[1..] && q == [q[0]] + q[1..];
    }
  }

  // ---------------------------------------------------------------------
  // str.join and decimal rendering
  // ---------------------------------------------------------------------

  /** `sep.join(parts)`. */
  function Join(parts: seq<string>, sep: string): string {
    if parts == [] then ""
    else if |parts| == 1 then parts[0]
    else parts[0] + sep + Join(parts[1..], sep)
  }

  function DigitChar(d: nat): char
    requires d < 10
  {
    "0123456789"[d]
  }

  /** Decimal digits of a natural number, as `str(n)` prints them. */
  function NatToString(n: nat): (r: string)
    ensures |r| >= 1
    decreases n
  {
    if n < 10 then [DigitChar(n)] else NatToString(n / 10) + [DigitChar(n % 10)]
  }

  /** `str(n)` for an integer, with a leading `-` when negative. */
  function IntToString(n: int): string {
    if n < 0 then "-" + NatToString(-n) else NatToString(n)
  }
}
