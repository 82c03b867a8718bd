/** Canonical CBOR: what the decoder can return, and what decode, re-encode and compare accepts. */
module CborCanonical {
  import opened Bytes
  import opened CborKeys
  import opened Cbor

  /** Values the codec carries both ways at `depth`. */
  predicate Good(v: Value, depth: nat) {
    WellFormed(v) && Fits(v, depth) && MinFree(v)
  }

  lemma ArgumentBelow(additional: nat, input: Bytes)
    requires DecodeArgument(additional, input).Ok?
    ensures DecodeArgument(additional, input).value < TWO_64
  {
    Widths();
    if additional >= 24 {
      var width := if additional == 24 then 1 else if additional == 25 then 2 else if additional == 26 then 4 else 8;
      BigEndianBelow(input[..width]);
    }
  }

  predicate GoodEntries(entries: map<Bytes, Value>, depth: nat) {
    forall k :: k in entries ==> WellFormedText(k) && Good(entries[k], depth + 1)
  }

  /** Everything the decoder returns can be encoded again, and never holds the smallest integer. */
  lemma {:induction false} DecodedIsGood(input: Bytes, depth: nat)
    requires DecodeValue(input, depth).Ok?
    ensures Good(DecodeValue(input, depth).value, depth)
    decreases |input|, 0
  {
    MajorIsGood(input[0], input[1..], depth);
  }

  lemma {:induction false} MajorIsGood(initial: byte, input: Bytes, depth: nat)
    requires depth <= MAX_NESTING && DecodeMajor(initial, input, depth).Ok?
    ensures Good(DecodeMajor(initial, input, depth).value, depth)
    decreases |input|, 3
  {
    var major, additional := initial / 32, initial % 32;
    if major == 0 || major == 1 {
      ArgumentBelow(additional, input);
    } else if major == 3 {
      ArgumentBelow(additional, input);
    } else if major == 4 {
      ArgumentBelow(additional, input);
      ArrayIsGood(additional, input, depth);
    } else if major == 5 {
      ArgumentBelow(additional, input);
      ObjectIsGood(additional, input, depth);
    }
  }

  lemma {:induction false} ArrayIsGood(additional: nat, input: Bytes, depth: nat)
    requires depth <= MAX_NESTING && DecodeArray(additional, input, depth).Ok?
    ensures Good(DecodeArray(additional, input, depth).value, depth)
    decreases |input|, 2
  {
    var n := DecodeLength(additional, input, 1);
    ArgumentBelow(additional, input);
    ItemsAreGood(n.rest, n.value, depth);
  }

  lemma {:induction false} ObjectIsGood(additional: nat, input: Bytes, depth: nat)
    requires depth <= MAX_NESTING && DecodeObject(additional, input, depth).Ok?
    ensures Good(DecodeObject(additional, input, depth).value, depth)
    decreases |input|, 2
  {
    var n := DecodeLength(additional, input, 2);
    ArgumentBelow(additional, input);
    EntriesAreGood(n.rest, n.value, depth, map[]);
  }

  lemma {:induction false} ItemsAreGood(input: Bytes, count: nat, depth: nat)
    requires DecodeItems(input, count, depth).Ok?
    ensures forall i :: 0 <= i < count ==> Good(DecodeItems(input, count, depth).value[i], depth + 1)
    decreases |input|, 1
  {
    if count > 0 {
      DecodedIsGood(input, depth + 1);
      ItemsAreGood(DecodeValue(input, depth + 1).rest, count - 1, depth);
    }
  }

  lemma {:induction false} EntriesAreGood(input: Bytes, count: nat, depth: nat, entries: map<Bytes, Value>)
    requires DecodeEntries(input, count, depth, entries).Ok? && GoodEntries(entries, depth)
    ensures GoodEntries(DecodeEntries(input, count, depth, entries).value, depth)
    decreases |input|, 1
  {
    if count > 0 {
      var key := DecodeValue(input, depth + 1);
      var value := DecodeValue(key.rest, depth + 1);
      DecodedIsGood(input, depth + 1);
      DecodedIsGood(key.rest, depth + 1);
      EntriesAreGood(value.rest, count - 1, depth, entries[key.value.t := value.value]);
    }
  }

  /** Decode the whole payload, encode the result again, and compare. */
  ghost predicate Admits(bytes: Bytes, v: Value) {
    Decode(bytes) == Ok(v, []) && WellFormed(v) && Written([], v, 0) == Output(bytes)
  }

  /** The gate accepts exactly the image of the encoder, less the values holding the smallest integer. */
  lemma GateIsImage(bytes: Bytes, v: Value)
    ensures Admits(bytes, v) <==> Good(v, 0) && Encode(v) == bytes
  {
    if Admits(bytes, v) {
      DecodedIsGood(bytes, 0);
      assert [] + Encode(v) == Encode(v);
    }
    if Good(v, 0) && Encode(v) == bytes {
      ValueRoundTrip(v, 0, []);
      assert bytes + [] == bytes && [] + Encode(v) == bytes;
    }
  }

  /** Each accepted byte string has one value and each value one accepted byte string. */
  lemma GateIsOneToOne(a: Bytes, v: Value, b: Bytes, w: Value)
    requires Admits(a, v) && Admits(b, w)
    ensures a == b <==> v == w
  {
    GateIsImage(a, v);
    GateIsImage(b, w);
  }

  // ----- prefix-freeness, the smallest integer included -----

  /** Every encoding is a head followed by what the major type carries. */
  function Major(v: Value): nat {
    match v
    case Int(i) => if i >= 0 then 0 else 1
    case Text(_) => 3
    case Array(_) => 4
    case Object(_) => 5
    case _ => 7
  }

  function HeadArgument(v: Value): (n: nat)
    requires WellFormed(v)
    ensures n < TWO_64
  {
    match v
    case Null => 22
    case Bool(b) => if b then 21 else 20
    case Int(i) => if i >= 0 then i else -i - 1
    case Text(t) => |t|
    case Array(items) => |items|
    case Object(entries) => |entries|
  }

  ghost function Content(v: Value): Bytes
    requires WellFormed(v)
  {
    match v
    case Text(t) => t
    case Array(_) => EncodeItems(v, 0)
    case Object(entries) => EncodeEntries(v, SortedKeys(entries.Keys))
    case _ => []
  }

  lemma EncodedParts(v: Value)
    requires WellFormed(v)
    ensures Encode(v) == Head(Major(v), HeadArgument(v)) + Content(v)
  {
  }

  lemma HeadsArePrefixFree(major: nat, value: nat, s: Bytes, major': nat, value': nat, t: Bytes)
    requires major < 8 && value < TWO_64 && major' < 8 && value' < TWO_64
    requires Head(major, value) + s == Head(major', value') + t
    ensures major == major' && value == value' && s == t
  {
    HeadRoundTrip(major, value, s);
    HeadRoundTrip(major', value', t);
  }

  /** No encoding begins another, whatever follows, for all values the encoder may be given. */
  lemma {:induction false} EncodingsArePrefixFree(v: Value, w: Value, s: Bytes, t: Bytes)
    requires WellFormed(v) && WellFormed(w) && Encode(v) + s == Encode(w) + t
    ensures v == w && s == t
    decreases v, 1, 0
  {
    EncodedParts(v);
    EncodedParts(w);
    Reassociated(Encode(v), Head(Major(v), HeadArgument(v)), Content(v), s);
    Reassociated(Encode(w), Head(Major(w), HeadArgument(w)), Content(w), t);
    HeadsArePrefixFree(Major(v), HeadArgument(v), Content(v) + s, Major(w), HeadArgument(w), Content(w) + t);
    ContentsArePrefixFree(v, w, s, t);
  }

  lemma Reassociated(whole: Bytes, a: Bytes, b: Bytes, c: Bytes)
    requires whole == a + b
    ensures whole + c == a + (b + c)
  {
  }

  lemma {:induction false} ContentsArePrefixFree(v: Value, w: Value, s: Bytes, t: Bytes)
    requires WellFormed(v) && WellFormed(w) && Major(v) == Major(w) && HeadArgument(v) == HeadArgument(w)
    requires Content(v) + s == Content(w) + t
    ensures v == w && s == t
    decreases v, 0, HeadArgument(v) + 1
  {
    match v
    case Text(text) => EqualLengths(text, s, w.t, t);
    case Array(items) =>
      ItemsArePrefixFree(v, w, 0, s, t);
      assert items[0..] == items && w.items[0..] == w.items;
    case Object(entries) =>
      var keys, keys' := SortedKeys(entries.Keys), SortedKeys(w.entries.Keys);
      EntriesArePrefixFree(v, w, keys, keys', s, t);
      SameEntries(entries, w.entries, keys);
    case _ => EqualLengths([], s, [], t);
  }

  lemma EqualLengths(a: Bytes, s: Bytes, b: Bytes, t: Bytes)
    requires |a| == |b| && a + s == b + t
    ensures a == b && s == t
  {
    assert a == (a + s)[..|a|] && b == (b + t)[..|b|];
    assert s == (a + s)[|a|..] && t == (b + t)[|b|..];
  }

  lemma SameEntries(a: map<Bytes, Value>, b: map<Bytes, Value>, keys: seq<Bytes>)
    requires Lists(keys, a.Keys) && Lists(keys, b.Keys)
    requires AgreeOn(keys, a, b)
    ensures a == b
  {
    assert forall k :: k in a <==> k in keys;
    assert forall k :: k in b <==> k in keys;
  }

  lemma {:induction false} ItemsArePrefixFree(v: Value, w: Value, i: nat, s: Bytes, t: Bytes)
    requires WellFormed(v) && WellFormed(w) && v.Array? && w.Array? && |v.items| == |w.items| && i <= |v.items|
    requires EncodeItems(v, i) + s == EncodeItems(w, i) + t
    ensures v.items[i..] == w.items[i..] && s == t
    decreases v, 0, |v.items| - i
  {
    if i == |v.items| {
      EqualLengths([], s, [], t);
    } else {
      ItemIsPrefixFree(v, w, i, s, t);
      ItemsArePrefixFree(v, w, i + 1, s, t);
      assert v.items[i..] == [v.items[i]] + v.items[i + 1..] && w.items[i..] == [w.items[i]] + w.items[i + 1..];
    }
  }

  lemma {:induction false} ItemIsPrefixFree(v: Value, w: Value, i: nat, s: Bytes, t: Bytes)
    requires WellFormed(v) && WellFormed(w) && v.Array? && w.Array? && i < |v.items| == |w.items|
    requires EncodeItems(v, i) + s == EncodeItems(w, i) + t
    ensures v.items[i] == w.items[i] && EncodeItems(v, i + 1) + s == EncodeItems(w, i + 1) + t
    decreases v, 0, 0
  {
    EncodedItem(v, i, s);
    EncodedItem(w, i, t);
    EncodingsArePrefixFree(v.items[i], w.items[i], EncodeItems(v, i + 1) + s, EncodeItems(w, i + 1) + t);
  }

  predicate KeysIn(keys: seq<Bytes>, entries: map<Bytes, Value>) {
    forall k :: k in keys ==> k in entries
  }

  predicate AgreeOn(keys: seq<Bytes>, a: map<Bytes, Value>, b: map<Bytes, Value>) {
    forall k :: k in keys ==> k in a && k in b && a[k] == b[k]
  }

  lemma TailKeysIn(keys: seq<Bytes>, entries: map<Bytes, Value>)
    requires keys != [] && KeysIn(keys, entries)
    ensures keys[0] in entries && KeysIn(keys[1..], entries)
  {
    assert keys[0] in keys;
    forall k | k in keys[1..] ensures k in entries { assert k in keys; }
  }

  lemma AgreeOnMore(keys: seq<Bytes>, a: map<Bytes, Value>, b: map<Bytes, Value>)
    requires keys != [] && keys[0] in a && keys[0] in b && a[keys[0]] == b[keys[0]] && AgreeOn(keys[1..], a, b)
    ensures AgreeOn(keys, a, b)
  {
    assert forall k :: k in keys <==> k == keys[0] || k in keys[1..];
  }

  lemma {:induction false} EntriesArePrefixFree(v: Value, w: Value, keys: seq<Bytes>, keys': seq<Bytes>, s: Bytes,
                                                t: Bytes)
    requires WellFormed(v) && WellFormed(w) && v.Object? && w.Object? && |keys| == |keys'|
    requires KeysIn(keys, v.entries) && KeysIn(keys', w.entries)
    requires EncodeEntries(v, keys) + s == EncodeEntries(w, keys') + t
    ensures keys == keys' && s == t && AgreeOn(keys, v.entries, w.entries)
    decreases v, 0, |keys|
  {
    if keys == [] {
      EqualLengths([], s, [], t);
    } else {
      TailKeysIn(keys, v.entries);
      TailKeysIn(keys', w.entries);
      EncodedEntry(v, keys, s);
      EncodedEntry(w, keys', t);
      var rest, rest' := EncodeEntries(v, keys[1..]) + s, EncodeEntries(w, keys'[1..]) + t;
      EntryIsPrefixFree(v, w, keys[0], keys'[0], rest, rest');
      EntriesArePrefixFree(v, w, keys[1..], keys'[1..], s, t);
      AgreeOnMore(keys, v.entries, w.entries);
      assert keys == [keys[0]] + keys[1..] && keys' == [keys'[0]] + keys'[1..];
    }
  }

  lemma {:induction false} EntryIsPrefixFree(v: Value, w: Value, k: Bytes, k': Bytes, rest: Bytes, rest': Bytes)
    requires WellFormed(v) && WellFormed(w) && v.Object? && w.Object? && k in v.entries && k' in w.entries
    requires Head(3, |k|) + k + (Encode(v.entries[k]) + rest) == Head(3, |k'|) + k' + (Encode(w.entries[k']) + rest')
    ensures k == k' && v.entries[k] == w.entries[k'] && rest == rest'
    decreases v, 0, 0
  {
    KeysArePrefixFree(k, Encode(v.entries[k]) + rest, k', Encode(w.entries[k']) + rest');
    EncodingsArePrefixFree(v.entries[k], w.entries[k'], rest, rest');
  }

  lemma KeysArePrefixFree(k: Bytes, s: Bytes, k': Bytes, t: Bytes)
    requires |k| < TWO_64 && |k'| < TWO_64 && Head(3, |k|) + k + s == Head(3, |k'|) + k' + t
    ensures k == k' && s == t
  {
    Reassociated(Head(3, |k|) + k, Head(3, |k|), k, s);
    Reassociated(Head(3, |k'|) + k', Head(3, |k'|), k', t);
    HeadsArePrefixFree(3, |k|, k + s, 3, |k'|, k' + t);
    EqualLengths(k, s, k', t);
  }

  /** The smallest 64-bit integer is written, and refused when read back, wherever it occurs. */
  lemma SmallestIntegerIsRefused(v: Value)
    requires WellFormed(v) && Fits(v, 0) && !MinFree(v)
    ensures Decode(Encode(v)) == Bad(NegativeTooSmall)
  {
    ValueRoundTrip(v, 0, []);
    assert Encode(v) + [] == Encode(v);
  }

  /** The decoder alone takes a longer argument than needed; the gate does not. */
  lemma LongArgumentIsDecodedButNotAdmitted()
    ensures Decode([0x18, 0x05]) == Ok(Int(5), [])
    ensures forall v :: !Admits([0x18, 0x05], v)
  {
    assert [0x18, 0x05][1..] == [0x05];
    assert [0x05][..1] == [0x05] && [0x05][1..] == [];
    assert FromBigEndian([0x05]) == 5;
    assert DecodeArgument(24, [0x05]) == Ok(5, []);
    assert DecodeMajor(0x18, [0x05], 0) == Ok(Int(5), []);
  }

  const ENTRIES_AB: map<Bytes, Value> := map[[0x61] := Null, [0x62] := Null]

  /** Keys out of order decode to the same object; only the ascending byte string is admitted. */
  lemma UnsortedKeysAreDecodedButNotAdmitted(bytes: Bytes)
    requires bytes == [0xa2, 0x61, 0x62, 0xf6, 0x61, 0x61, 0xf6]
    ensures Decode(bytes) == Ok(Object(ENTRIES_AB), []) && !Admits(bytes, Object(ENTRIES_AB))
  {
    var body := bytes[1..];
    UnsortedEntries(body);
    assert DecodeArgument(bytes[0] % 32, body) == Ok(2, body);
    ObjectUnfolds(bytes, 2, body, 0);
    FirstKeyWritten(Object(ENTRIES_AB));
    assert [] + Encode(Object(ENTRIES_AB)) == Encode(Object(ENTRIES_AB));
  }

  lemma UnsortedEntries(body: Bytes)
    requires body == [0x61, 0x62, 0xf6, 0x61, 0x61, 0xf6]
    ensures DecodeEntries(body, 2, 0, map[]) == Ok(ENTRIES_AB, [])
  {
    OneNullEntry(0x62, body, [0x61, 0x61, 0xf6], 2, map[]);
    OneNullEntry(0x61, [0x61, 0x61, 0xf6], [], 1, map[[0x62] := Null]);
    assert map[[0x62] := Null][[0x61] := Null] == ENTRIES_AB;
  }

  lemma OneNullEntry(letter: byte, input: Bytes, rest: Bytes, count: nat, entries: map<Bytes, Value>)
    requires letter < 0x80 && count > 0 && [letter] !in entries && input == [0x61, letter, 0xf6] + rest
    ensures DecodeEntries(input, count, 0, entries) == DecodeEntries(rest, count - 1, 0, entries[[letter] := Null])
  {
    assert ValidUtf8([letter]) by { assert [letter][1..] == []; }
    TextRoundTrip([letter], 1, [0xf6] + rest);
    assert input == Head(3, 1) + [letter] + ([0xf6] + rest);
    assert ([0xf6] + rest)[1..] == rest;
    assert DecodeMajor(0xf6, rest, 1) == Ok(Null, rest);
    assert DecodeValue([0xf6] + rest, 1) == Ok(Null, rest);
  }

  lemma TwoKeys(v: Value)
    requires v == Object(ENTRIES_AB)
    ensures WellFormed(v) && SortedKeys(v.entries.Keys) == [[0x61], [0x62]]
  {
    assert ValidUtf8([0x61]) && ValidUtf8([0x62]) by { assert [0x61][1..] == [] && [0x62][1..] == []; }
    assert KeyLess([0x61], [0x62]);
    assert v.entries.Keys == {[0x61], [0x62]};
    assert Lists([[0x61], [0x62]], v.entries.Keys);
    ListingUnique(SortedKeys(v.entries.Keys), [[0x61], [0x62]], v.entries.Keys);
  }

  lemma FirstKeyWritten(v: Value)
    requires v == Object(ENTRIES_AB)
    ensures WellFormed(v) && |Encode(v)| > 2 && Encode(v)[2] == 0x61
  {
    TwoKeys(v);
    var keys := SortedKeys(v.entries.Keys);
    assert keys[0] in keys && forall k :: k in keys[1..] ==> k in keys;
    EncodedObject(v, []);
    EncodedEntry(v, keys, []);
    var value := Encode(v.entries[keys[0]]) + (EncodeEntries(v, keys[1..]) + []);
    ThirdByte(Encode(v), keys, value);
  }

  lemma ThirdByte(bytes: Bytes, keys: seq<Bytes>, value: Bytes)
    requires keys == [[0x61], [0x62]] && bytes + [] == Head(5, |keys|) + (Head(3, |keys[0]|) + keys[0] + value)
    ensures |bytes| > 2 && bytes[2] == 0x61
  {
    assert bytes == [0xa2] + ([0x61] + [0x61] + value);
  }

  // ----- the encoder as it runs -----

  /** `encode_value`: append to `output`, or stop at the nesting limit. */
  method EncodeValue(v: Value, output: Bytes, depth: nat) returns (r: Encoded)
    requires WellFormed(v)
    ensures r == Written(output, v, depth)
    decreases v, 1
  {
    if depth > MAX_NESTING { return EncodeFailed; }
    match v
    case Null => r := Output(output + [0xf6]);
    case Bool(b) => r := Output(output + if b then [0xf5] else [0xf4]);
    case Int(i) => r := Output(output + if i >= 0 then Head(0, i) else Head(1, -i - 1));
    case Text(t) =>
      r := Output(output + Head(3, |t|) + t);
      assert output + Head(3, |t|) + t == output + (Head(3, |t|) + t);
    case Array(_) => r := EncodeArray(v, output, depth);
    case Object(_) => r := EncodeObject(v, output, depth);
  }

  method EncodeArray(v: Value, output: Bytes, depth: nat) returns (r: Encoded)
    requires WellFormed(v) && v.Array? && depth <= MAX_NESTING
    ensures r == Written(output, v, depth)
    decreases v, 0
  {
    var out := output + Head(4, |v.items|);
    EncodedArray(v, output);
    for i := 0 to |v.items|
      invariant out + EncodeItems(v, i) == output + Encode(v)
      invariant ItemsFit(v.items, i, depth + 1)
    {
      EncodeItemStep(v, i, out);
      var one := EncodeValue(v.items[i], out, depth + 1);
      if one.EncodeFailed? {
        UnfitItem(v, i, output, depth);
        return EncodeFailed;
      }
      out := one.bytes;
      OneMoreFits(v.items, i, depth + 1);
    }
    NoMoreItems(v, out);
    r := Output(out);
    FitItems(v, output, depth);
  }

  predicate ItemsFit(items: seq<Value>, n: nat, depth: nat)
    requires n <= |items|
  {
    forall i :: 0 <= i < n ==> Fits(items[i], depth)
  }

  lemma OneMoreFits(items: seq<Value>, n: nat, depth: nat)
    requires n < |items| && ItemsFit(items, n, depth) && Fits(items[n], depth)
    ensures ItemsFit(items, n + 1, depth)
  {
  }

  lemma UnfitItem(v: Value, i: nat, output: Bytes, depth: nat)
    requires WellFormed(v) && v.Array? && i < |v.items| && !Fits(v.items[i], depth + 1)
    ensures Written(output, v, depth) == EncodeFailed
  {
  }

  lemma FitItems(v: Value, output: Bytes, depth: nat)
    requires WellFormed(v) && v.Array? && depth <= MAX_NESTING && ItemsFit(v.items, |v.items|, depth + 1)
    ensures Written(output, v, depth) == Output(output + Encode(v))
  {
  }

  lemma NoMoreItems(v: Value, out: Bytes)
    requires WellFormed(v) && v.Array?
    ensures out + EncodeItems(v, |v.items|) == out
  {
  }

  lemma EncodedArray(v: Value, output: Bytes)
    requires WellFormed(v) && v.Array?
    ensures output + Head(4, |v.items|) + EncodeItems(v, 0) == output + Encode(v)
  {
  }

  lemma EncodeItemStep(v: Value, i: nat, out: Bytes)
    requires WellFormed(v) && v.Array? && i < |v.items|
    ensures out + EncodeItems(v, i) == out + Encode(v.items[i]) + EncodeItems(v, i + 1)
  {
  }

  method EncodeObject(v: Value, output: Bytes, depth: nat) returns (r: Encoded)
    requires WellFormed(v) && v.Object? && depth <= MAX_NESTING
    ensures r == Written(output, v, depth)
    decreases v, 0
  {
    var entries := v.entries;
    var keys := SortKeys(entries.Keys);
    var out := output + Head(5, |keys|);
    StartEntries(v, keys, output);
    for i := 0 to |keys|
      invariant forall k :: k in keys[i..] ==> k in entries
      invariant out + EncodeEntries(v, keys[i..]) == output + Encode(v)
      invariant EntriesFit(entries, keys, i, depth + 1)
    {
      var key := keys[i];
      EncodeEntryStep(v, keys, i, out);
      var one := EncodeValue(entries[key], out + Head(3, |key|) + key, depth + 1);
      if one.EncodeFailed? {
        UnfitEntry(v, key, output, depth);
        return EncodeFailed;
      }
      out := one.bytes;
      OneMoreEntryFits(entries, keys, i, depth + 1);
    }
    NoMoreEntries(v, keys[|keys|..], out);
    FitEntries(v, keys, output, depth);
    r := Output(out);
  }

  lemma StartEntries(v: Value, keys: seq<Bytes>, output: Bytes)
    requires WellFormed(v) && v.Object? && keys == SortedKeys(v.entries.Keys) && |keys| < TWO_64
    ensures keys[0..] == keys && (forall k :: k in keys ==> k in v.entries)
    ensures output + Head(5, |keys|) + EncodeEntries(v, keys) == output + Encode(v)
  {
    EncodedObject(v, []);
    assert EncodeEntries(v, keys) + [] == EncodeEntries(v, keys) && Encode(v) + [] == Encode(v);
  }

  lemma NoMoreEntries(v: Value, none: seq<Bytes>, out: Bytes)
    requires WellFormed(v) && v.Object? && none == []
    ensures out + EncodeEntries(v, none) == out
  {
  }

  predicate EntriesFit(entries: map<Bytes, Value>, keys: seq<Bytes>, n: nat, depth: nat)
    requires n <= |keys| && forall k :: k in keys ==> k in entries
  {
    forall i :: 0 <= i < n ==> Fits(entries[keys[i]], depth)
  }

  lemma OneMoreEntryFits(entries: map<Bytes, Value>, keys: seq<Bytes>, n: nat, depth: nat)
    requires n < |keys| && forall k :: k in keys ==> k in entries
    requires EntriesFit(entries, keys, n, depth) && Fits(entries[keys[n]], depth)
    ensures EntriesFit(entries, keys, n + 1, depth)
  {
  }

  lemma UnfitEntry(v: Value, key: Bytes, output: Bytes, depth: nat)
    requires WellFormed(v) && v.Object? && key in v.entries && !Fits(v.entries[key], depth + 1)
    ensures Written(output, v, depth) == EncodeFailed
  {
  }

  lemma FitEntries(v: Value, keys: seq<Bytes>, output: Bytes, depth: nat)
    requires WellFormed(v) && v.Object? && depth <= MAX_NESTING && Lists(keys, v.entries.Keys)
    requires EntriesFit(v.entries, keys, |keys|, depth + 1)
    ensures Written(output, v, depth) == Output(output + Encode(v))
  {
    forall k | k in v.entries ensures Fits(v.entries[k], depth + 1) {
      assert k in keys;
    }
  }

  lemma EncodeEntryStep(v: Value, keys: seq<Bytes>, i: nat, out: Bytes)
    requires v.Object? && WellFormed(v) && i < |keys| && forall k :: k in keys ==> k in v.entries
    ensures keys[i] in v.entries && (forall k :: k in keys[i..] ==> k in v.entries) &&
      forall k :: k in keys[i + 1..] ==> k in v.entries
    ensures out + EncodeEntries(v, keys[i..])
         == out + Head(3, |keys[i]|) + keys[i] + Encode(v.entries[keys[i]]) + EncodeEntries(v, keys[i + 1..])
  {
    assert keys[i] in keys;
    var rest := keys[i..];
    assert rest[0] == keys[i] && rest[1..] == keys[i + 1..];
    forall k | k in rest ensures k in v.entries { assert k in keys; }
    forall k | k in rest[1..] ensures k in v.entries { assert k in rest; }
    EncodedEntry(v, rest, []);
    Reassociate(out, EncodeEntries(v, rest), Head(3, |keys[i]|), keys[i], Encode(v.entries[keys[i]]),
                EncodeEntries(v, rest[1..]));
  }

  lemma Reassociate(out: Bytes, whole: Bytes, a: Bytes, b: Bytes, c: Bytes, d: Bytes)
    requires whole + [] == a + b + (c + (d + []))
    ensures out + whole == out + a + b + c + d
  {
    assert whole == whole + [] && d + [] == d;
    assert whole == a + b + c + d;
  }
}
