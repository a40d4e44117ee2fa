/** UTF-8 encoding, and the fact that it keeps the order of code points (section 1 of RFC 3629). */
module Utf8 {
  import opened ByteStrings
  import opened Sorting

  function EncodeScalar(c: char): (r: Bytes)
    ensures 1 <= |r| <= 4
  {
    var n := c as int;
    if n < 0x80 then [n]
    else if n < 0x800 then [0xC0 + n / 64, 0x80 + n % 64]
    else if n < 0x1_0000 then [0xE0 + n / 4096, 0x80 + n / 64 % 64, 0x80 + n % 64]
    else [0xF0 + n / 262144, 0x80 + n / 4096 % 64, 0x80 + n / 64 % 64, 0x80 + n % 64]
  }

  /** The layout of section 3 of RFC 3629: the lead byte says how many bytes follow, each of those holds six bits,
      and the bits in order are the scalar, in the shortest form. */
  lemma ScalarLayout(c: char)
    ensures SpellsScalar(c as int, EncodeScalar(c))
  {
    var n := c as int;
    assert n == 64 * (n / 64) + n % 64 && n / 64 / 64 == n / 4096 && n / 4096 / 64 == n / 262144;
  }

  ghost predicate SpellsScalar(n: int, r: seq<int>) {
    && (forall k :: 1 <= k < |r| ==> 0x80 <= r[k] < 0xC0)
    && match |r|
       case 1 => n == r[0] && 0 <= n < 0x80
       case 2 => 0xC0 <= r[0] < 0xE0 && 0x80 <= n < 0x800 && n == 64 * (r[0] - 0xC0) + (r[1] - 0x80)
       case 3 => 0xE0 <= r[0] < 0xF0 && 0x800 <= n < 0x1_0000 && n == 4096 * (r[0] - 0xE0) + 64 * (r[1] - 0x80) + (r[2] - 0x80)
       case 4 => 0xF0 <= r[0] < 0xF8 && 0x1_0000 <= n && n == 262_144 * (r[0] - 0xF0) + 4096 * (r[1] - 0x80) + 64 * (r[2] - 0x80) + (r[3] - 0x80)
       case _ => false
  }

  function Encode(s: string): Bytes {
    if s == [] then [] else EncodeScalar(s[0]) + Encode(s[1..])
  }

  function CodePoints(s: string): (r: seq<int>)
    ensures |r| == |s|
    ensures forall i :: 0 <= i < |s| ==> r[i] == s[i] as int
  {
    seq(|s|, i requires 0 <= i < |s| => s[i] as int)
  }

  /** Python's order on `str`. */
  predicate CodePointLeq(s: string, t: string) {
    LexLeq(CodePoints(s), CodePoints(t))
  }

  /** Rust's order on `str`: that of the encoded bytes. */
  predicate Utf8Leq(s: string, t: string) {
    LexLeq(Encode(s), Encode(t))
  }

  /** `a` and `b` first differ at `k`, where `a` is the smaller. */
  predicate BelowAt(a: seq<int>, b: seq<int>, k: nat) {
    k < |a| && k < |b| && a[..k] == b[..k] && a[k] < b[k]
  }

  lemma {:induction false} BelowDecides(a: seq<int>, b: seq<int>, k: nat, x: seq<int>, y: seq<int>)
    requires BelowAt(a, b, k)
    ensures LexLeq(a + x, b + y) && !LexLeq(b + y, a + x)
  {
    if k > 0 {
      assert a[0] == a[..k][0] == b[..k][0] == b[0];
      assert a[1..][..k - 1] == a[..k][1..] && b[1..][..k - 1] == b[..k][1..];
      BelowDecides(a[1..], b[1..], k - 1, x, y);
      assert (a + x)[1..] == a[1..] + x && (b + y)[1..] == b[1..] + y;
    }
  }

  lemma {:induction false} CommonPrefix(p: seq<int>, x: seq<int>, y: seq<int>)
    ensures LexLeq(p + x, p + y) <==> LexLeq(x, y)
  {
    if p == [] {
      assert p + x == x && p + y == y;
    } else {
      assert (p + x)[1..] == p[1..] + x && (p + y)[1..] == p[1..] + y;
      CommonPrefix(p[1..], x, y);
    }
  }

  /** Where the encodings of two scalars first differ. */
  function FirstDifference(c: char, d: char): (k: nat)
    ensures k < 4
  {
    var a, b := EncodeScalar(c), EncodeScalar(d);
    if a[0] != b[0] || |a| == 1 || |b| == 1 then 0
    else if a[1] != b[1] || |a| == 2 || |b| == 2 then 1
    else if a[2] != b[2] || |a| == 3 || |b| == 3 then 2
    else 3
  }

  lemma ScalarOrder(c: char, d: char)
    requires c < d
    ensures BelowAt(EncodeScalar(c), EncodeScalar(d), FirstDifference(c, d))
  {
    var m, n := c as int, d as int;
    var a, b := EncodeScalar(c), EncodeScalar(d);
    var k := FirstDifference(c, d);
    assert m == 64 * (m / 64) + m % 64 && n == 64 * (n / 64) + n % 64;
    assert m / 64 == 64 * (m / 64 / 64) + m / 64 % 64 && n / 64 == 64 * (n / 64 / 64) + n / 64 % 64;
    assert m / 64 / 64 == m / 4096 && n / 64 / 64 == n / 4096;
    assert m / 4096 == 64 * (m / 4096 / 64) + m / 4096 % 64 && n / 4096 == 64 * (n / 4096 / 64) + n / 4096 % 64;
    assert m / 4096 / 64 == m / 262144 && n / 4096 / 64 == n / 262144;
  }

  lemma {:induction false} EncodingKeepsOrder(s: string, t: string)
    ensures Utf8Leq(s, t) <==> CodePointLeq(s, t)
  {
    if s != [] && t != [] {
      var ps, pt := CodePoints(s), CodePoints(t);
      assert ps[1..] == CodePoints(s[1..]) && pt[1..] == CodePoints(t[1..]);
      if s[0] == t[0] {
        CommonPrefix(EncodeScalar(s[0]), Encode(s[1..]), Encode(t[1..]));
        EncodingKeepsOrder(s[1..], t[1..]);
      } else if s[0] < t[0] {
        ScalarOrder(s[0], t[0]);
        BelowDecides(EncodeScalar(s[0]), EncodeScalar(t[0]), FirstDifference(s[0], t[0]), Encode(s[1..]), Encode(t[1..]));
      } else {
        ScalarOrder(t[0], s[0]);
        BelowDecides(EncodeScalar(t[0]), EncodeScalar(s[0]), FirstDifference(t[0], s[0]), Encode(t[1..]), Encode(s[1..]));
      }
    }
  }

  lemma CodePointOrderIsTotal()
    ensures TotalOrder(CodePointLeq)
  {
    forall s, t ensures CodePointLeq(s, t) || CodePointLeq(t, s) {
      LexTotal(CodePoints(s), CodePoints(t));
    }
    forall s, t, u | CodePointLeq(s, t) && CodePointLeq(t, u) ensures CodePointLeq(s, u) {
      LexTransitive(CodePoints(s), CodePoints(t), CodePoints(u));
    }
    forall s, t | CodePointLeq(s, t) && CodePointLeq(t, s) ensures s == t {
      LexAntisymmetric(CodePoints(s), CodePoints(t));
      assert forall i :: 0 <= i < |s| ==> CodePoints(s)[i] == s[i] as int == t[i] as int;
    }
  }

  /** Sorting strings by their bytes and by their code points gives the same sequence. */
  lemma SortsAgree(keys: seq<string>)
    ensures Sort(keys, Utf8Leq) == Sort(keys, CodePointLeq)
  {
    CodePointOrderIsTotal();
    forall s, t ensures Utf8Leq(s, t) <==> CodePointLeq(s, t) {
      EncodingKeepsOrder(s, t);
    }
    SortSorts(keys, Utf8Leq);
    SortSorts(keys, CodePointLeq);
    SortedUnique(Sort(keys, Utf8Leq), Sort(keys, CodePointLeq), CodePointLeq);
  }

  /** No two strings share an encoding. */
  lemma EncodingInjective(s: string, t: string)
    requires Encode(s) == Encode(t)
    ensures s == t
  {
    LexReflexive(Encode(s));
    EncodingKeepsOrder(s, t);
    EncodingKeepsOrder(t, s);
    CodePointOrderIsTotal();
  }
}
