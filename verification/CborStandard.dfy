/** What RFC 8949 asks of the encoding: heads and simple values as section 3 lays them out, and object keys that ascend
    bytewise as written, as section 4.2.1 asks of deterministic encodings. */
module CborStandard {
  import opened Bytes
  import opened CborKeys
  import opened Cbor

  lemma BelowExtends(a: Bytes, b: Bytes, k: nat, s: Bytes, t: Bytes)
    requires k < |a| && BelowAt(a, b, k)
    ensures BelowAt(a + s, b + t, k)
  {
    assert (a + s)[..k] == a[..k] && (b + t)[..k] == b[..k];
  }

  lemma BelowAfter(prefix: Bytes, a: Bytes, b: Bytes, k: nat)
    requires BelowAt(a, b, k)
    ensures BelowAt(prefix + a, prefix + b, |prefix| + k)
  {
    assert (prefix + a)[..|prefix| + k] == prefix + a[..k];
    assert (prefix + b)[..|prefix| + k] == prefix + b[..k];
  }

  lemma {:induction false} LexLessIsBelow(a: Bytes, b: Bytes) returns (k: nat)
    requires |a| == |b| && LexLess(a, b)
    ensures k < |a| && BelowAt(a, b, k)
  {
    if a[0] < b[0] {
      k := 0;
    } else {
      var j := LexLessIsBelow(a[1..], b[1..]);
      BelowAfter([a[0]], a[1..], b[1..], j);
      assert a == [a[0]] + a[1..] && b == [b[0]] + b[1..];
      k := j + 1;
    }
  }

  function Width(value: nat): nat {
    if value < 24 then 0 else if value < 0x100 then 1 else if value < 0x1_0000 then 2
    else if value < 0x1_0000_0000 then 4 else 8
  }

  lemma WidthHolds(value: nat)
    requires value < TWO_64
    ensures Width(value) > 0 ==> value < Pow256(Width(value))
  {
    assert Pow256(1) == 0x100 && Pow256(2) == 0x1_0000;
    assert Pow256(3) == 0x100_0000 && Pow256(4) == 0x1_0000_0000;
    assert Pow256(5) == 0x100_0000_0000 && Pow256(6) == 0x1_0000_0000_0000;
    assert Pow256(7) == 0x100_0000_0000_0000 && Pow256(8) == TWO_64;
  }

  /** A smaller argument gives a smaller head, which no continuation can make up for. */
  lemma HeadsAscend(major: nat, n: nat, m: nat) returns (k: nat)
    requires major < 8 && n < m < TWO_64
    ensures k < |Head(major, n)| && BelowAt(Head(major, n), Head(major, m), k)
  {
    if Width(n) == Width(m) > 0 {
      WidthHolds(m);
      var j := BigEndianAscends(n, m, Width(m));
      BelowAfter([Head(major, n)[0]], BigEndian(n, Width(n)), BigEndian(m, Width(m)), j);
      k := j + 1;
    } else {
      k := 0;
    }
  }

  lemma KeyLessIsBelow(a: Bytes, b: Bytes)
    requires WellFormedText(a) && WellFormedText(b) && KeyLess(a, b)
    ensures BytewiseLess(Encode(Text(a)), Encode(Text(b)))
  {
    if |a| < |b| {
      var k := HeadsAscend(3, |a|, |b|);
      BelowExtends(Head(3, |a|), Head(3, |b|), k, a, b);
    } else {
      var k := LexLessIsBelow(a, b);
      BelowAfter(Head(3, |a|), a, b, k);
    }
  }

  /** Comparing keys by length and then bytewise is comparing their encodings bytewise. */
  lemma KeyOrderIsBytewise(a: Bytes, b: Bytes)
    requires WellFormedText(a) && WellFormedText(b)
    ensures KeyLess(a, b) <==> BytewiseLess(Encode(Text(a)), Encode(Text(b)))
  {
    KeyOrder(a, b);
    if KeyLess(a, b) {
      KeyLessIsBelow(a, b);
    } else if KeyLess(b, a) {
      KeyLessIsBelow(b, a);
      BytewiseAsymmetric(Encode(Text(b)), Encode(Text(a)));
    } else {
      BytewiseIrreflexive(Encode(Text(a)));
    }
  }

  /** `bytes` is made of the encodings of `keys`, in this order, each followed by the encoding of its value. */
  ghost predicate WritesInOrder(v: Value, keys: seq<Bytes>, bytes: Bytes)
    requires WellFormed(v) && v.Object?
    decreases |keys|
  {
    if keys == [] then bytes == []
    else
      && keys[0] in v.entries
      && var entry := Encode(Text(keys[0])) + Encode(v.entries[keys[0]]);
         |entry| <= |bytes| && bytes[..|entry|] == entry && WritesInOrder(v, keys[1..], bytes[|entry|..])
  }

  lemma {:induction false} EntriesInOrder(v: Value, keys: seq<Bytes>)
    requires WellFormed(v) && v.Object? && forall k :: k in keys ==> k in v.entries
    ensures WritesInOrder(v, keys, EncodeEntries(v, keys))
    decreases |keys|
  {
    if keys != [] {
      assert keys[0] in keys;
      var entry, rest := Encode(Text(keys[0])) + Encode(v.entries[keys[0]]), EncodeEntries(v, keys[1..]);
      assert EncodeEntries(v, keys) == entry + rest;
      EntriesInOrder(v, keys[1..]);
    }
  }

  /** An object is written as its head and then its entries, each key once, the encoded keys ascending bytewise. */
  lemma WrittenKeysAscend(v: Value) returns (keys: seq<Bytes>, body: Bytes)
    requires WellFormed(v) && v.Object?
    ensures Encode(v) == Head(5, |v.entries|) + body && WritesInOrder(v, keys, body)
    ensures forall k :: k in keys <==> k in v.entries
    ensures forall i, j :: 0 <= i < j < |keys| ==>
      WellFormedText(keys[i]) && WellFormedText(keys[j]) && BytewiseLess(Encode(Text(keys[i])), Encode(Text(keys[j])))
  {
    keys := SortedKeys(v.entries.Keys);
    body := EncodeEntries(v, keys);
    EntriesInOrder(v, keys);
    forall i, j | 0 <= i < j < |keys|
      ensures WellFormedText(keys[i]) && WellFormedText(keys[j])
      ensures BytewiseLess(Encode(Text(keys[i])), Encode(Text(keys[j])))
    {
      assert keys[i] in keys && keys[j] in keys;
      KeyOrderIsBytewise(keys[i], keys[j]);
    }
  }

  // ----- the bit patterns of the standard -----

  /** `bs` is the head of a data item as section 3 of RFC 8949 lays it out: three bits of major type and five bits of
      additional information, which is the argument itself or says how many bytes of argument follow. */
  predicate IsHead(bs: Bytes, major: nat, value: nat) {
    && bs != [] && bs[0] / 32 == major
    && var info := bs[0] % 32;
       if info < 24 then |bs| == 1 && value == info
       else
         && value == FromBigEndian(bs[1..])
         && (|| (info == 24 && |bs| == 2) || (info == 25 && |bs| == 3)
             || (info == 26 && |bs| == 5) || (info == 27 && |bs| == 9))
  }

  lemma HeadIsStandard(major: nat, value: nat)
    requires major < 8 && value < TWO_64
    ensures IsHead(Head(major, value), major, value)
  {
    if value >= 24 {
      WidthHolds(value);
      BigEndianRoundTrip(value, Width(value));
      assert Head(major, value)[1..] == BigEndian(value, Width(value));
    }
  }

  /** Head and body as the standard has them for each kind; its `false`, `true` and `null` are 20, 21 and 22. */
  ghost predicate IsStandard(v: Value, head: Bytes, body: Bytes)
    requires WellFormed(v)
  {
    match v
    case Null => IsHead(head, 7, 22) && body == []
    case Bool(b) => IsHead(head, 7, if b then 21 else 20) && body == []
    case Int(i) => body == [] && if i >= 0 then IsHead(head, 0, i) else IsHead(head, 1, -1 - i)
    case Text(t) => IsHead(head, 3, |t|) && body == t
    case Array(items) => IsHead(head, 4, |items|) && body == EncodeItems(v, 0)
    case Object(entries) => IsHead(head, 5, |entries|) && body == EncodeEntries(v, SortedKeys(entries.Keys))
  }

  /** Every value is written with the standard's major type and argument, or as its simple value. */
  lemma EncodingIsStandard(v: Value) returns (head: Bytes, body: Bytes)
    requires WellFormed(v)
    ensures Encode(v) == head + body && IsStandard(v, head, body)
  {
    body := [];
    match v
    case Null => head := [0xf6];
    case Bool(b) => head := if b then [0xf5] else [0xf4];
    case Int(i) =>
      head := Encode(v);
      if i >= 0 { HeadIsStandard(0, i); } else { HeadIsStandard(1, -1 - i); }
    case Text(t) =>
      head, body := Head(3, |t|), t;
      HeadIsStandard(3, |t|);
    case Array(items) =>
      head, body := Head(4, |items|), EncodeItems(v, 0);
      HeadIsStandard(4, |items|);
    case Object(entries) =>
      head, body := Head(5, |entries|), EncodeEntries(v, SortedKeys(entries.Keys));
      HeadIsStandard(5, |entries|);
  }
}
