/** Byte strings: big-endian integers and UTF-8 validity. */
module Bytes {

  type byte = b: int | 0 <= b < 256

  type Bytes = seq<byte>

  const TWO_63: int := 0x8000_0000_0000_0000
  const TWO_64: int := 0x1_0000_0000_0000_0000

  /** `n` in `width` bytes, most significant first. */
  function BigEndian(n: nat, width: nat): (bs: Bytes)
    ensures |bs| == width
  {
    if width == 0 then [] else BigEndian(n / 256, width - 1) + [n % 256]
  }

  function FromBigEndian(bs: Bytes): nat {
    if bs == [] then 0 else FromBigEndian(bs[..|bs| - 1]) * 256 + bs[|bs| - 1]
  }

  function Pow256(width: nat): (p: nat)
    ensures p > 0
  {
    if width == 0 then 1 else 256 * Pow256(width - 1)
  }

  lemma {:induction false} BigEndianRoundTrip(n: nat, width: nat)
    requires n < Pow256(width)
    ensures FromBigEndian(BigEndian(n, width)) == n
  {
    if width > 0 {
      BigEndianRoundTrip(n / 256, width - 1);
      var bs := BigEndian(n, width);
      assert bs[..|bs| - 1] == BigEndian(n / 256, width - 1);
    }
  }

  lemma {:induction false} BigEndianBelow(bs: Bytes)
    ensures FromBigEndian(bs) < Pow256(|bs|)
  {
    if bs != [] { BigEndianBelow(bs[..|bs| - 1]); }
  }

  lemma {:induction false} BigEndianOnto(bs: Bytes)
    ensures BigEndian(FromBigEndian(bs), |bs|) == bs
  {
    if bs != [] { BigEndianOnto(bs[..|bs| - 1]); }
  }

  /** `a` is below `b` at position `k`, their first difference. */
  predicate BelowAt(a: Bytes, b: Bytes, k: nat) {
    k <= |a| && k < |b| && a[..k] == b[..k] && (k == |a| || a[k] < b[k])
  }

  /** The bytewise lexicographic order on byte strings of any length. */
  ghost predicate BytewiseLess(a: Bytes, b: Bytes) {
    exists k: nat :: BelowAt(a, b, k)
  }

  lemma BelowAsymmetric(a: Bytes, b: Bytes, j: nat, k: nat)
    requires BelowAt(a, b, j)
    ensures !BelowAt(b, a, k)
  {
    assert k < j ==> a[..j][k] == b[..j][k];
  }

  lemma BytewiseIrreflexive(a: Bytes)
    ensures !BytewiseLess(a, a)
  {
    forall k: nat ensures !BelowAt(a, a, k) { }
  }

  lemma BytewiseAsymmetric(a: Bytes, b: Bytes)
    requires BytewiseLess(a, b)
    ensures !BytewiseLess(b, a)
  {
    var j: nat :| BelowAt(a, b, j);
    forall k: nat ensures !BelowAt(b, a, k) { BelowAsymmetric(a, b, j, k); }
  }

  /** Of two integers in the same width, the smaller has the smaller bytes. */
  lemma {:induction false} BigEndianAscends(n: nat, m: nat, width: nat) returns (k: nat)
    requires n < m < Pow256(width)
    ensures k < width && BelowAt(BigEndian(n, width), BigEndian(m, width), k)
  {
    var a, b := BigEndian(n / 256, width - 1), BigEndian(m / 256, width - 1);
    if n / 256 < m / 256 {
      k := BigEndianAscends(n / 256, m / 256, width - 1);
      assert BigEndian(n, width)[..k] == a[..k] && BigEndian(m, width)[..k] == b[..k];
    } else {
      k := width - 1;
      assert BigEndian(n, width)[..k] == a && BigEndian(m, width)[..k] == b;
    }
  }

  predicate Continues(s: Bytes, i: nat) {
    i < |s| && 0x80 <= s[i] <= 0xBF
  }

  /** Well-formed UTF-8, as section 4 of RFC 3629 gives its syntax. */
  predicate ValidUtf8(s: Bytes)
    decreases |s|
  {
    if s == [] then true
    else if s[0] < 0x80 then ValidUtf8(s[1..])
    else if 0xC2 <= s[0] <= 0xDF then Continues(s, 1) && ValidUtf8(s[2..])
    else if 0xE0 <= s[0] <= 0xEF then
      && Continues(s, 1) && Continues(s, 2)
      && (s[0] == 0xE0 ==> s[1] >= 0xA0) && (s[0] == 0xED ==> s[1] < 0xA0)
      && ValidUtf8(s[3..])
    else if 0xF0 <= s[0] <= 0xF4 then
      && Continues(s, 1) && Continues(s, 2) && Continues(s, 3)
      && (s[0] == 0xF0 ==> s[1] >= 0x90) && (s[0] == 0xF4 ==> s[1] < 0x90)
      && ValidUtf8(s[4..])
    else false
  }
}
