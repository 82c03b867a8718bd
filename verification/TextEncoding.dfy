/** The encodings behind offsets and positions: byte offsets count UTF-8 bytes (section 3 of RFC 3629), columns count
    UTF-16 code units (section 2.1 of RFC 2781). Both encodings are given by their bit patterns, and each is shown to be
    read back. */
module TextEncoding {
  import opened Common
  import opened Bytes
  import opened TextPositions

  function Utf8(c: char): Bytes {
    var n := c as int;
    if n < 0x80 then [n]
    else if n < 0x800 then [0xC0 + n / 0x40, 0x80 + n % 0x40]
    else if n < 0x1_0000 then [0xE0 + n / 0x1000, 0x80 + n / 0x40 % 0x40, 0x80 + n % 0x40]
    else [0xF0 + n / 0x4_0000, 0x80 + n / 0x1000 % 0x40, 0x80 + n / 0x40 % 0x40, 0x80 + n % 0x40]
  }

  /** One or two code units; a pair is a high and a low surrogate of ten bits each. */
  function Utf16(c: char): seq<nat> {
    var n := c as int;
    if n < 0x1_0000 then [n] else [0xD800 + (n - 0x1_0000) / 0x400, 0xDC00 + (n - 0x1_0000) % 0x400]
  }

  function EncodeUtf8(text: string): Bytes {
    if text == [] then [] else EncodeUtf8(text[..|text| - 1]) + Utf8(text[|text| - 1])
  }

  function EncodeUtf16(text: string): seq<nat> {
    if text == [] then [] else EncodeUtf16(text[..|text| - 1]) + Utf16(text[|text| - 1])
  }

  // ----- reading back -----

  function Less(unit: nat, mark: nat): int {
    unit - mark
  }

  /** The scalar value a byte sequence starts with, by its lead byte. */
  function Scalar8(bs: Bytes): Option<(int, Bytes)> {
    if bs == [] then None
    else if bs[0] < 0x80 then Some((bs[0], bs[1..]))
    else if 0xC0 <= bs[0] < 0xE0 && |bs| >= 2 then Some((Less(bs[0], 0xC0) * 0x40 + Less(bs[1], 0x80), bs[2..]))
    else if 0xE0 <= bs[0] < 0xF0 && |bs| >= 3 then
      Some((Less(bs[0], 0xE0) * 0x1000 + Less(bs[1], 0x80) * 0x40 + Less(bs[2], 0x80), bs[3..]))
    else if 0xF0 <= bs[0] && |bs| >= 4 then
      var high := Less(bs[0], 0xF0) * 0x4_0000 + Less(bs[1], 0x80) * 0x1000;
      Some((high + Less(bs[2], 0x80) * 0x40 + Less(bs[3], 0x80), bs[4..]))
    else None
  }

  function Scalar16(units: seq<nat>): Option<(int, seq<nat>)> {
    if units == [] then None
    else if 0xD800 <= units[0] < 0xDC00 then
      if |units| < 2 then None
      else Some((0x1_0000 + Less(units[0], 0xD800) * 0x400 + Less(units[1], 0xDC00), units[2..]))
    else Some((units[0], units[1..]))
  }

  lemma Utf8ReadsBack(c: char, rest: Bytes)
    ensures Scalar8(Utf8(c) + rest) == Some((c as int, rest))
  {
    var n := c as int;
    assert (Utf8(c) + rest)[|Utf8(c)|..] == rest;
    if 0x800 <= n < 0x1_0000 { ThreeParts(n); } else if 0x1_0000 <= n { FourParts(n); }
  }

  lemma ThreeParts(n: nat)
    ensures n == n / 0x1000 * 0x1000 + n / 0x40 % 0x40 * 0x40 + n % 0x40
  {
    assert n / 0x40 / 0x40 == n / 0x1000;
  }

  lemma FourParts(n: nat)
    ensures n == n / 0x4_0000 * 0x4_0000 + n / 0x1000 % 0x40 * 0x1000 + n / 0x40 % 0x40 * 0x40 + n % 0x40
  {
    ThreeParts(n);
    assert n / 0x1000 / 0x40 == n / 0x4_0000;
  }

  lemma Utf16ReadsBack(c: char, rest: seq<nat>)
    ensures Scalar16(Utf16(c) + rest) == Some((c as int, rest))
  {
    assert (Utf16(c) + rest)[|Utf16(c)|..] == rest;
  }

  // ----- widths are lengths of encodings -----

  lemma WidthsAreLengths(c: char)
    ensures |Utf8(c)| == Utf8Width(c) && |Utf16(c)| == Utf16Width(c)
  {
  }

  /** The offset of a boundary is the length of the UTF-8 encoding of what comes before it. */
  lemma {:induction false} OffsetsCountBytes(text: string, i: nat)
    requires i <= |text|
    ensures Offset(text, i) == |EncodeUtf8(text[..i])|
  {
    if i > 0 {
      OffsetsCountBytes(text, i - 1);
      assert text[..i][..i - 1] == text[..i - 1];
      WidthsAreLengths(text[i - 1]);
    }
  }

  lemma ByteLengthIsEncodedLength(text: string)
    ensures ByteLength(text) == |EncodeUtf8(text)|
  {
    OffsetsCountBytes(text, |text|);
    assert text[..|text|] == text;
  }

  /** The line of a boundary is the number of newlines before it. */
  function Newlines(text: string): nat {
    if text == [] then 0 else Newlines(text[..|text| - 1]) + if text[|text| - 1] == '\n' then 1 else 0
  }

  lemma {:induction false} LinesCountNewlines(text: string, i: nat)
    requires i <= |text|
    ensures PositionAt(text, i).line == Newlines(text[..i])
  {
    if i > 0 {
      LinesCountNewlines(text, i - 1);
      assert text[..i][..i - 1] == text[..i - 1];
    }
  }

  /** Its column is the number of UTF-16 code units from the start of its line, `start`. */
  lemma {:induction false} ColumnsCountUnits(text: string, start: nat, i: nat)
    requires start <= i <= |text| && (start == 0 || text[start - 1] == '\n')
    requires forall k :: start <= k < i ==> text[k] != '\n'
    ensures PositionAt(text, i).character == |EncodeUtf16(text[start..i])|
    decreases i
  {
    if start < i {
      ColumnsCountUnits(text, start, i - 1);
      assert text[start..i][..i - 1 - start] == text[start..i - 1];
      WidthsAreLengths(text[i - 1]);
    }
  }

  // ----- encoded text is valid -----

  lemma {:induction false} ValidAppend(a: Bytes, b: Bytes)
    requires ValidUtf8(a) && ValidUtf8(b)
    ensures ValidUtf8(a + b)
    decreases |a|
  {
    if a == [] {
      assert a + b == b;
    } else {
      var n := LeadLength(a[0]);
      FirstChar(a);
      ValidAppend(a[n..], b);
      FirstCharThen(a, b);
    }
  }

  function LeadLength(lead: byte): nat {
    if lead < 0x80 then 1 else if lead <= 0xDF then 2 else if lead <= 0xEF then 3 else 4
  }

  lemma FirstChar(a: Bytes)
    requires a != [] && ValidUtf8(a)
    ensures LeadLength(a[0]) <= |a| && ValidUtf8(a[LeadLength(a[0])..])
  {
  }

  lemma FirstCharThen(a: Bytes, b: Bytes)
    requires a != [] && ValidUtf8(a) && LeadLength(a[0]) <= |a| && ValidUtf8(a[LeadLength(a[0])..] + b)
    ensures ValidUtf8(a + b)
  {
    assert (a + b)[LeadLength(a[0])..] == a[LeadLength(a[0])..] + b;
  }

  lemma CharIsValid(c: char)
    ensures ValidUtf8(Utf8(c))
  {
    assert Utf8(c)[|Utf8(c)|..] == [];
    assert ValidUtf8([]);
  }

  lemma {:induction false} EncodedIsValid(text: string)
    ensures ValidUtf8(EncodeUtf8(text))
  {
    if text != [] {
      EncodedIsValid(text[..|text| - 1]);
      CharIsValid(text[|text| - 1]);
      ValidAppend(EncodeUtf8(text[..|text| - 1]), Utf8(text[|text| - 1]));
    }
  }

  // ----- edits, as they happen in the bytes -----

  lemma {:induction false} EncodeAppends(a: string, b: string)
    ensures EncodeUtf8(a + b) == EncodeUtf8(a) + EncodeUtf8(b)
    decreases |b|
  {
    if b == [] {
      assert a + b == a;
    } else {
      var last := |b| - 1;
      EncodeAppends(a, b[..last]);
      LastApart(a, b);
      EncodeOneMore(a + b, a + b[..last], b[last]);
      EncodeOneMore(b, b[..last], b[last]);
      Regrouped(EncodeUtf8(a), EncodeUtf8(b[..last]), Utf8(b[last]));
    }
  }

  lemma LastApart(a: string, b: string)
    requires b != []
    ensures b == b[..|b| - 1] + [b[|b| - 1]] && a + b == a + b[..|b| - 1] + [b[|b| - 1]]
  {
  }

  lemma EncodeOneMore(text: string, init: string, last: char)
    requires text == init + [last]
    ensures EncodeUtf8(text) == EncodeUtf8(init) + Utf8(last)
  {
    assert text[..|text| - 1] == init;
  }

  lemma Regrouped(a: Bytes, b: Bytes, c: Bytes)
    ensures a + b + c == a + (b + c)
  {
  }

  /** Cutting a text at a boundary cuts its bytes at the boundary's offset. */
  lemma BoundaryCutsBytes(text: string, i: nat)
    requires i <= |text|
    ensures Offset(text, i) <= |EncodeUtf8(text)|
    ensures EncodeUtf8(text)[..Offset(text, i)] == EncodeUtf8(text[..i])
    ensures EncodeUtf8(text)[Offset(text, i)..] == EncodeUtf8(text[i..])
  {
    assert text == text[..i] + text[i..];
    EncodeAppends(text[..i], text[i..]);
    OffsetsCountBytes(text, i);
  }

  /** A change replaces exactly the bytes between the offsets of its two positions by the bytes of its text, or, without
      a range, all of them. */
  lemma ChangesReplaceBytes(text: string, change: Change)
    requires Applies(text, change)
    ensures change.range.None? ==> EncodeUtf8(Spliced(text, change)) == EncodeUtf8(change.text)
    ensures change.range.Some? ==>
      var start := Offset(text, BoundaryOf(text, change.range.value.start));
      var end := Offset(text, BoundaryOf(text, change.range.value.end));
      && start <= end <= |EncodeUtf8(text)|
      && EncodeUtf8(Spliced(text, change))
      == EncodeUtf8(text)[..start] + EncodeUtf8(change.text) + EncodeUtf8(text)[end..]
  {
    if change.range.Some? {
      SpliceReplacesBytes(text, BoundaryOf(text, change.range.value.start), BoundaryOf(text, change.range.value.end),
                          change.text);
    }
  }

  lemma SpliceReplacesBytes(text: string, i: nat, j: nat, insert: string)
    requires i <= j <= |text|
    ensures Offset(text, i) <= Offset(text, j) <= |EncodeUtf8(text)|
    ensures EncodeUtf8(text[..i] + insert + text[j..])
         == EncodeUtf8(text)[..Offset(text, i)] + EncodeUtf8(insert) + EncodeUtf8(text)[Offset(text, j)..]
  {
    BoundaryCutsBytes(text, i);
    BoundaryCutsBytes(text, j);
    if i < j { PositionsIncrease(text, i, j); }
    EncodeAppends(text[..i] + insert, text[j..]);
    EncodeAppends(text[..i], insert);
  }
}
