/** The canonical CBOR subset of RFC 8949 used for bytecode sections.

    Values are JSON values without floating-point numbers. Text is held as UTF-8 bytes. */
module Cbor {
  import opened Bytes
  import opened CborKeys

  const MAX_NESTING: nat := 128

  datatype Value =
    | Null
    | Bool(b: bool)
    | Int(i: int)
    | Text(t: Bytes)
    | Array(items: seq<Value>)
    | Object(entries: map<Bytes, Value>)

  datatype Error =
    | NestingLimit | Truncated | NegativeTooSmall | NotUtf8 | LengthExceedsPayload
    | KeyNotText | DuplicateKey | UnsupportedArgument | Unsupported | TrailingBytes

  /** What the host types already guarantee: integers of 64 bits, lengths of 64 bits, text in UTF-8. */
  predicate WellFormed(v: Value)
    decreases v
  {
    match v
    case Int(i) => -TWO_63 <= i < TWO_64
    case Text(t) => WellFormedText(t)
    case Array(items) => |items| < TWO_64 && forall i :: 0 <= i < |items| ==> WellFormed(items[i])
    case Object(entries) =>
      |entries| < TWO_64 && forall k :: k in entries ==> WellFormedText(k) && WellFormed(entries[k])
    case _ => true
  }

  predicate WellFormedText(t: Bytes) {
    |t| < TWO_64 && ValidUtf8(t)
  }

  /** The nesting check shared by encoder and decoder. */
  predicate Fits(v: Value, depth: nat)
    decreases v
  {
    && depth <= MAX_NESTING
    && match v
       case Array(items) => forall i :: 0 <= i < |items| ==> Fits(items[i], depth + 1)
       case Object(entries) => forall k :: k in entries ==> Fits(entries[k], depth + 1)
       case _ => true
  }

  /** The smallest 64-bit integer occurs nowhere: the decoder negates after converting, and refuses it. */
  predicate MinFree(v: Value)
    decreases v
  {
    match v
    case Int(i) => i != -TWO_63
    case Array(items) => forall i :: 0 <= i < |items| ==> MinFree(items[i])
    case Object(entries) => forall k :: k in entries ==> MinFree(entries[k])
    case _ => true
  }

  // ----- encoding -----

  /** Major type and argument, in the shortest form. */
  function Head(major: nat, value: nat): (bs: Bytes)
    requires major < 8 && value < TWO_64
    ensures |bs| >= 1
  {
    if value < 24 then [major * 32 + value]
    else if value < 0x100 then [major * 32 + 24] + BigEndian(value, 1)
    else if value < 0x1_0000 then [major * 32 + 25] + BigEndian(value, 2)
    else if value < 0x1_0000_0000 then [major * 32 + 26] + BigEndian(value, 4)
    else [major * 32 + 27] + BigEndian(value, 8)
  }

  ghost function Encode(v: Value): (bs: Bytes)
    requires WellFormed(v)
    ensures |bs| >= 1
    decreases v, 1, 0
  {
    match v
    case Null => [0xf6]
    case Bool(b) => if b then [0xf5] else [0xf4]
    case Int(i) => if i >= 0 then Head(0, i) else Head(1, -i - 1)
    case Text(t) => Head(3, |t|) + t
    case Array(items) => Head(4, |items|) + EncodeItems(v, 0)
    case Object(entries) => Head(5, |entries|) + EncodeEntries(v, SortedKeys(entries.Keys))
  }

  /** The array items from position `i` on. */
  ghost function EncodeItems(v: Value, i: nat): (bs: Bytes)
    requires WellFormed(v) && v.Array? && i <= |v.items|
    ensures |bs| >= |v.items| - i
    decreases v, 0, |v.items| - i
  {
    if i == |v.items| then [] else Encode(v.items[i]) + EncodeItems(v, i + 1)
  }

  ghost function EncodeEntries(v: Value, keys: seq<Bytes>): (bs: Bytes)
    requires WellFormed(v) && v.Object? && forall k :: k in keys ==> k in v.entries
    ensures |bs| >= 2 * |keys|
    decreases v, 0, |keys|
  {
    if keys == [] then []
    else
      assert keys[0] in keys;
      Head(3, |keys[0]|) + keys[0] + Encode(v.entries[keys[0]]) + EncodeEntries(v, keys[1..])
  }

  datatype Encoded = EncodeFailed | Output(bytes: Bytes)

  /** The outcome of `encode_value` at a given depth, appended to what was already written. */
  ghost function Written(output: Bytes, v: Value, depth: nat): Encoded
    requires WellFormed(v)
  {
    if Fits(v, depth) then Output(output + Encode(v)) else EncodeFailed
  }

  // ----- decoding -----

  datatype Decoded<T> = Bad(error: Error) | Ok(value: T, rest: Bytes)

  function DecodeBytes(input: Bytes, count: nat): (r: Decoded<Bytes>)
    ensures r.Ok? ==> input == r.value + r.rest && |r.value| == count
  {
    if count <= |input| then Ok(input[..count], input[count..]) else Bad(Truncated)
  }

  function DecodeBigEndian(input: Bytes, width: nat): (r: Decoded<nat>)
    ensures r.Ok? ==> |input| == width + |r.rest|
  {
    var taken := DecodeBytes(input, width);
    if taken.Ok? then Ok(FromBigEndian(taken.value), taken.rest) else Bad(taken.error)
  }

  function DecodeArgument(additional: nat, input: Bytes): (r: Decoded<nat>)
    ensures r.Ok? ==> |r.rest| <= |input|
  {
    if additional < 24 then Ok(additional, input)
    else if additional == 24 then DecodeBigEndian(input, 1)
    else if additional == 25 then DecodeBigEndian(input, 2)
    else if additional == 26 then DecodeBigEndian(input, 4)
    else if additional == 27 then DecodeBigEndian(input, 8)
    else Bad(UnsupportedArgument)
  }

  /** A length that cannot fit in the remaining bytes is refused before anything is allocated. */
  function DecodeLength(additional: nat, input: Bytes, minimum: nat): (r: Decoded<nat>)
    requires minimum > 0
    ensures r.Ok? ==> |r.rest| <= |input|
  {
    var argument := DecodeArgument(additional, input);
    if argument.Ok? && argument.value > |argument.rest| / minimum then Bad(LengthExceedsPayload) else argument
  }

  function Simple(additional: nat): (v: Decoded<Value>) {
    if additional == 20 then Ok(Bool(false), [])
    else if additional == 21 then Ok(Bool(true), [])
    else if additional == 22 then Ok(Null, [])
    else Bad(Unsupported)
  }

  function DecodeNegative(additional: nat, input: Bytes): (r: Decoded<Value>)
    ensures r.Ok? ==> |r.rest| <= |input|
  {
    var a := DecodeArgument(additional, input);
    if a.Bad? then Bad(a.error)
    else if a.value + 1 >= TWO_63 then Bad(NegativeTooSmall)
    else Ok(Int(-(a.value + 1)), a.rest)
  }

  function DecodeText(additional: nat, input: Bytes): (r: Decoded<Value>)
    ensures r.Ok? ==> |r.rest| <= |input|
  {
    var n := DecodeLength(additional, input, 1);
    if n.Bad? then Bad(n.error) else
    var text := DecodeBytes(n.rest, n.value);
    if text.Bad? then Bad(text.error)
    else if !ValidUtf8(text.value) then Bad(NotUtf8)
    else Ok(Text(text.value), text.rest)
  }

  function DecodeValue(input: Bytes, depth: nat): (r: Decoded<Value>)
    ensures r.Ok? ==> |r.rest| < |input|
    decreases |input|, 0
  {
    if depth > MAX_NESTING then Bad(NestingLimit)
    else if input == [] then Bad(Truncated)
    else DecodeMajor(input[0], input[1..], depth)
  }

  function DecodeMajor(initial: byte, input: Bytes, depth: nat): (r: Decoded<Value>)
    ensures r.Ok? ==> |r.rest| <= |input|
    decreases |input|, 3
  {
    var major, additional := initial / 32, initial % 32;
    if major == 0 then
      var a := DecodeArgument(additional, input);
      if a.Ok? then Ok(Int(a.value), a.rest) else Bad(a.error)
    else if major == 1 then DecodeNegative(additional, input)
    else if major == 3 then DecodeText(additional, input)
    else if major == 4 then DecodeArray(additional, input, depth)
    else if major == 5 then DecodeObject(additional, input, depth)
    else if major == 7 then
      var v := Simple(additional);
      if v.Ok? then Ok(v.value, input) else v
    else Bad(Unsupported)
  }

  function DecodeArray(additional: nat, input: Bytes, depth: nat): (r: Decoded<Value>)
    ensures r.Ok? ==> |r.rest| <= |input|
    decreases |input|, 2
  {
    var n := DecodeLength(additional, input, 1);
    if n.Bad? then Bad(n.error) else
    var items := DecodeItems(n.rest, n.value, depth);
    if items.Ok? then Ok(Array(items.value), items.rest) else Bad(items.error)
  }

  function DecodeObject(additional: nat, input: Bytes, depth: nat): (r: Decoded<Value>)
    ensures r.Ok? ==> |r.rest| <= |input|
    decreases |input|, 2
  {
    var n := DecodeLength(additional, input, 2);
    if n.Bad? then Bad(n.error) else
    var entries := DecodeEntries(n.rest, n.value, depth, map[]);
    if entries.Ok? then Ok(Object(entries.value), entries.rest) else Bad(entries.error)
  }

  function DecodeItems(input: Bytes, count: nat, depth: nat): (r: Decoded<seq<Value>>)
    ensures r.Ok? ==> |r.rest| <= |input| && |r.value| == count
    decreases |input|, 1
  {
    if count == 0 then Ok([], input) else
    var first := DecodeValue(input, depth + 1);
    if first.Bad? then Bad(first.error) else
    var others := DecodeItems(first.rest, count - 1, depth);
    if others.Ok? then Ok([first.value] + others.value, others.rest) else others
  }

  /** Key and value pairs, inserted into `entries`; a repeated key is refused. */
  function DecodeEntries(input: Bytes, count: nat, depth: nat, entries: map<Bytes, Value>)
    : (r: Decoded<map<Bytes, Value>>)
    ensures r.Ok? ==> |r.rest| <= |input| && |r.value| == |entries| + count
    decreases |input|, 1
  {
    if count == 0 then Ok(entries, input) else
    var key := DecodeValue(input, depth + 1);
    if key.Bad? then Bad(key.error)
    else if !key.value.Text? then Bad(KeyNotText) else
    var value := DecodeValue(key.rest, depth + 1);
    if value.Bad? then Bad(value.error)
    else if key.value.t in entries then Bad(DuplicateKey)
    else DecodeEntries(value.rest, count - 1, depth, entries[key.value.t := value.value])
  }

  /** A whole payload: one value and nothing after it. */
  function Decode(bytes: Bytes): (r: Decoded<Value>)
    ensures r.Ok? ==> r.rest == []
  {
    var r := DecodeValue(bytes, 0);
    if r.Ok? && r.rest != [] then Bad(TrailingBytes) else r
  }

  // ----- the argument -----

  lemma WideArgument(value: nat, width: nat, tail: Bytes)
    requires value < Pow256(width)
    ensures DecodeBigEndian(BigEndian(value, width) + tail, width) == Ok(value, tail)
  {
    BigEndianRoundTrip(value, width);
    var input := BigEndian(value, width) + tail;
    assert input[..width] == BigEndian(value, width) && input[width..] == tail;
  }

  lemma Widths()
    ensures Pow256(1) == 0x100 && Pow256(2) == 0x1_0000 && Pow256(4) == 0x1_0000_0000 && Pow256(8) == TWO_64
  {
  }

  lemma AfterFirst(first: byte, middle: Bytes, tail: Bytes)
    ensures ([first] + middle + tail)[1..] == middle + tail
  {
  }

  lemma HeadRoundTrip(major: nat, value: nat, tail: Bytes)
    requires major < 8 && value < TWO_64
    ensures var input := Head(major, value) + tail;
      input[0] / 32 == major && DecodeArgument(input[0] % 32, input[1..]) == Ok(value, tail)
  {
    Widths();
    if value < 24 {
      assert (Head(major, value) + tail)[1..] == tail;
    } else if value < 0x100 {
      WideArgument(value, 1, tail);
      AfterFirst(major * 32 + 24, BigEndian(value, 1), tail);
    } else if value < 0x1_0000 {
      WideArgument(value, 2, tail);
      AfterFirst(major * 32 + 25, BigEndian(value, 2), tail);
    } else if value < 0x1_0000_0000 {
      WideArgument(value, 4, tail);
      AfterFirst(major * 32 + 26, BigEndian(value, 4), tail);
    } else {
      WideArgument(value, 8, tail);
      AfterFirst(major * 32 + 27, BigEndian(value, 8), tail);
    }
  }

  /** No encoding of the same argument is shorter (section 4.2.1 of RFC 8949). */
  lemma HeadIsShortest(major: nat, value: nat, additional: nat, argument: Bytes)
    requires major < 8 && value < TWO_64 && additional < 32
    requires DecodeArgument(additional, argument) == Ok(value, [])
    ensures |Head(major, value)| <= 1 + |argument|
  {
    Widths();
    if additional >= 24 {
      BigEndianBelow(argument);
      assert argument[..|argument|] == argument;
    }
  }

  // ----- round trip -----

  /** What the decoder makes of an encoded value: the value itself, or, when the smallest 64-bit
      integer occurs in it, a refusal. */
  function Expected<T>(minFree: bool, value: T, tail: Bytes): Decoded<T> {
    if minFree then Ok(value, tail) else Bad(NegativeTooSmall)
  }

  lemma {:induction false} ValueRoundTrip(v: Value, depth: nat, tail: Bytes)
    requires WellFormed(v) && Fits(v, depth)
    ensures DecodeValue(Encode(v) + tail, depth) == Expected(MinFree(v), v, tail)
    decreases v, 1, 0
  {
    match v
    case Null =>
      assert ([0xf6] + tail)[1..] == tail;
    case Bool(b) =>
      assert (Encode(v) + tail)[1..] == tail;
    case Int(i) =>
      if i >= 0 { HeadRoundTrip(0, i, tail); } else { HeadRoundTrip(1, -i - 1, tail); }
    case Text(t) =>
      TextRoundTrip(t, depth, tail);
    case Array(items) =>
      ItemsRoundTrip(v, 0, depth, tail);
      ArrayFromItems(v, depth, tail);
    case Object(entries) =>
      var keys := SortedKeys(entries.Keys);
      AscendingDistinct(keys);
      EntriesRoundTrip(v, keys, depth, tail, map[]);
      ObjectFromEntries(v, depth, tail);
  }

  lemma ArrayFromItems(v: Value, depth: nat, tail: Bytes)
    requires v.Array? && WellFormed(v) && depth <= MAX_NESTING
    requires ItemsDecode(EncodeItems(v, 0) + tail, v.items, 0, depth, tail)
    ensures DecodeValue(Encode(v) + tail, depth) == Expected(MinFree(v), v, tail)
  {
    var body := EncodeItems(v, 0) + tail;
    var input := Head(4, |v.items|) + body;
    HeadRoundTrip(4, |v.items|, body);
    assert Encode(v) + tail == input;
    assert v.items[0..] == v.items;
    assert DecodeLength(input[0] % 32, input[1..], 1) == Ok(|v.items|, body);
    assert DecodeArray(input[0] % 32, input[1..], depth) == Expected(MinFree(v), v, tail);
    assert DecodeMajor(input[0], input[1..], depth) == Expected(MinFree(v), v, tail);
  }

  lemma ObjectFromEntries(v: Value, depth: nat, tail: Bytes)
    requires v.Object? && WellFormed(v) && depth <= MAX_NESTING
    requires var keys := SortedKeys(v.entries.Keys);
      EntriesDecode(EncodeEntries(v, keys) + tail, v.entries, keys, depth, tail, map[])
    ensures DecodeValue(Encode(v) + tail, depth) == Expected(MinFree(v), v, tail)
  {
    var keys := SortedKeys(v.entries.Keys);
    AllListed(v, keys);
    var body := EncodeEntries(v, keys) + tail;
    var input := Head(5, |keys|) + body;
    EncodedObject(v, tail);
    HeadRoundTrip(5, |keys|, body);
    ObjectUnfolds(input, |keys|, body, depth);
  }

  lemma EncodedObject(v: Value, tail: Bytes)
    requires v.Object? && WellFormed(v)
    ensures var keys := SortedKeys(v.entries.Keys);
      |keys| < TWO_64 && Encode(v) + tail == Head(5, |keys|) + (EncodeEntries(v, keys) + tail)
  {
  }

  lemma EncodedEntry(v: Value, keys: seq<Bytes>, tail: Bytes)
    requires v.Object? && WellFormed(v) && keys != [] && keys[0] in v.entries
    requires forall k :: k in keys ==> k in v.entries
    requires forall k :: k in keys[1..] ==> k in v.entries
    ensures EncodeEntries(v, keys) + tail
         == Head(3, |keys[0]|) + keys[0] + (Encode(v.entries[keys[0]]) + (EncodeEntries(v, keys[1..]) + tail))
  {
  }

  lemma ObjectUnfolds(input: Bytes, count: nat, body: Bytes, depth: nat)
    requires depth <= MAX_NESTING && input != [] && input[0] / 32 == 5
    requires DecodeArgument(input[0] % 32, input[1..]) == Ok(count, body) && count <= |body| / 2
    ensures var entries := DecodeEntries(body, count, depth, map[]);
      DecodeValue(input, depth) == if entries.Ok? then Ok(Object(entries.value), entries.rest) else Bad(entries.error)
  {
    var entries := DecodeEntries(body, count, depth, map[]);
    assert DecodeObject(input[0] % 32, input[1..], depth)
        == if entries.Ok? then Ok(Object(entries.value), entries.rest) else Bad(entries.error);
    assert DecodeMajor(input[0], input[1..], depth) == DecodeObject(input[0] % 32, input[1..], depth);
  }

  lemma TextRoundTrip(t: Bytes, depth: nat, tail: Bytes)
    requires WellFormedText(t) && depth <= MAX_NESTING
    ensures DecodeValue(Head(3, |t|) + t + tail, depth) == Ok(Text(t), tail)
  {
    HeadRoundTrip(3, |t|, t + tail);
    assert Head(3, |t|) + t + tail == Head(3, |t|) + (t + tail);
    assert (t + tail)[..|t|] == t && (t + tail)[|t|..] == tail;
  }

  predicate ItemsMinFree(items: seq<Value>, i: nat) {
    forall j :: i <= j < |items| ==> MinFree(items[j])
  }

  /** `input` decodes to the items from position `i` on, and leaves `tail`. */
  ghost predicate ItemsDecode(input: Bytes, items: seq<Value>, i: nat, depth: nat, tail: Bytes)
    requires i <= |items|
  {
    DecodeItems(input, |items| - i, depth) == Expected(ItemsMinFree(items, i), items[i..], tail)
  }

  lemma {:induction false} ItemsRoundTrip(v: Value, i: nat, depth: nat, tail: Bytes)
    requires v.Array? && WellFormed(v) && Fits(v, depth) && i <= |v.items|
    ensures ItemsDecode(EncodeItems(v, i) + tail, v.items, i, depth, tail)
    decreases v, 0, |v.items| - i
  {
    if i < |v.items| {
      ItemFits(v, i, depth);
      var rest := EncodeItems(v, i + 1) + tail;
      EncodedItem(v, i, tail);
      ValueRoundTrip(v.items[i], depth + 1, rest);
      ItemsRoundTrip(v, i + 1, depth, tail);
      ItemThenItems(EncodeItems(v, i) + tail, v.items, i, depth, rest, tail);
    } else {
      NoItems(EncodeItems(v, i) + tail, v.items, i, depth, tail);
    }
  }

  lemma ItemFits(v: Value, i: nat, depth: nat)
    requires v.Array? && WellFormed(v) && Fits(v, depth) && i < |v.items|
    ensures WellFormed(v.items[i]) && Fits(v.items[i], depth + 1)
  {
  }

  lemma NoItems(input: Bytes, items: seq<Value>, i: nat, depth: nat, tail: Bytes)
    requires input == [] + tail && i == |items|
    ensures ItemsDecode(input, items, i, depth, tail)
  {
    assert input == tail && items[i..] == [];
  }

  lemma EncodedItem(v: Value, i: nat, tail: Bytes)
    requires v.Array? && WellFormed(v) && i < |v.items|
    ensures EncodeItems(v, i) + tail == Encode(v.items[i]) + (EncodeItems(v, i + 1) + tail)
  {
  }

  lemma ItemThenItems(input: Bytes, items: seq<Value>, i: nat, depth: nat, rest: Bytes, tail: Bytes)
    requires i < |items|
    requires DecodeValue(input, depth + 1) == Expected(MinFree(items[i]), items[i], rest)
    requires ItemsDecode(rest, items, i + 1, depth, tail)
    ensures ItemsDecode(input, items, i, depth, tail)
  {
    assert items[i..] == [items[i]] + items[i + 1..];
    assert ItemsMinFree(items, i) <==> MinFree(items[i]) && ItemsMinFree(items, i + 1);
  }

  predicate EntriesMinFree(entries: map<Bytes, Value>, keys: seq<Bytes>)
    requires forall k :: k in keys ==> k in entries
  {
    keys == [] || (MinFree(entries[keys[0]]) && EntriesMinFree(entries, keys[1..]))
  }

  predicate Distinct(keys: seq<Bytes>) {
    forall i, j :: 0 <= i < j < |keys| ==> keys[i] != keys[j]
  }

  lemma AscendingDistinct(keys: seq<Bytes>)
    requires Ascending(keys)
    ensures Distinct(keys)
  {
    forall i, j | 0 <= i < j < |keys| ensures keys[i] != keys[j] { KeyOrder(keys[i], keys[j]); }
  }

  ghost function Gather(acc: map<Bytes, Value>, entries: map<Bytes, Value>, keys: seq<Bytes>): map<Bytes, Value>
    requires forall k :: k in keys ==> k in entries
    decreases |keys|
  {
    if keys == [] then acc else Gather(acc[keys[0] := entries[keys[0]]], entries, keys[1..])
  }

  lemma {:induction false} GatherAdds(acc: map<Bytes, Value>, entries: map<Bytes, Value>, keys: seq<Bytes>)
    requires forall k :: k in keys ==> k in entries
    ensures Gather(acc, entries, keys) == acc + map k | k in keys :: entries[k]
    ensures EntriesMinFree(entries, keys) <==> forall k :: k in keys ==> MinFree(entries[k])
    decreases |keys|
  {
    if keys != [] {
      assert forall k :: k in keys <==> k == keys[0] || k in keys[1..];
      GatherAdds(acc[keys[0] := entries[keys[0]]], entries, keys[1..]);
    }
  }

  lemma AllListed(v: Value, keys: seq<Bytes>)
    requires v.Object? && Lists(keys, v.entries.Keys)
    ensures Gather(map[], v.entries, keys) == v.entries
    ensures EntriesMinFree(v.entries, keys) <==> MinFree(v)
  {
    GatherAdds(map[], v.entries, keys);
  }

  /** `input` decodes to the listed entries, added to `acc`, and leaves `tail`. */
  ghost predicate EntriesDecode(input: Bytes, entries: map<Bytes, Value>, keys: seq<Bytes>, depth: nat, tail: Bytes,
                                acc: map<Bytes, Value>)
    requires forall k :: k in keys ==> k in entries
  {
    DecodeEntries(input, |keys|, depth, acc) ==
      Expected(EntriesMinFree(entries, keys), Gather(acc, entries, keys), tail)
  }

  lemma {:induction false} EntriesRoundTrip(v: Value, keys: seq<Bytes>, depth: nat, tail: Bytes, acc: map<Bytes, Value>)
    requires v.Object? && WellFormed(v) && Fits(v, depth)
    requires Distinct(keys) && forall k :: k in keys ==> k in v.entries && k !in acc
    ensures EntriesDecode(EncodeEntries(v, keys) + tail, v.entries, keys, depth, tail, acc)
    decreases v, 0, |keys|
  {
    if keys == [] {
      NoEntries(v, keys, tail, depth, acc);
    } else {
      TailKeys(v.entries, keys, acc);
      var key := keys[0];
      var rest := EncodeEntries(v, keys[1..]) + tail;
      var value := Encode(v.entries[key]) + rest;
      EntryRoundTrip(v, key, depth, rest);
      EntriesRoundTrip(v, keys[1..], depth, tail, acc[key := v.entries[key]]);
      EncodedEntry(v, keys, tail);
      EntryThenEntries(EncodeEntries(v, keys) + tail, v.entries, keys, depth, value, rest, tail, acc);
    }
  }

  lemma {:induction false} EntryRoundTrip(v: Value, key: Bytes, depth: nat, rest: Bytes)
    requires v.Object? && WellFormed(v) && Fits(v, depth) && key in v.entries
    ensures var value := Encode(v.entries[key]) + rest;
      && DecodeValue(Encode(Text(key)) + value, depth + 1) == Ok(Text(key), value)
      && DecodeValue(value, depth + 1) == Expected(MinFree(v.entries[key]), v.entries[key], rest)
    decreases v, 0, 0
  {
    TextRoundTrip(key, depth + 1, Encode(v.entries[key]) + rest);
    ValueRoundTrip(v.entries[key], depth + 1, rest);
  }

  lemma NoEntries(v: Value, keys: seq<Bytes>, tail: Bytes, depth: nat, acc: map<Bytes, Value>)
    requires v.Object? && WellFormed(v) && keys == []
    ensures EntriesDecode(EncodeEntries(v, keys) + tail, v.entries, keys, depth, tail, acc)
  {
    assert EncodeEntries(v, keys) + tail == tail;
    assert Gather(acc, v.entries, keys) == acc;
  }

  lemma TailKeys(entries: map<Bytes, Value>, keys: seq<Bytes>, acc: map<Bytes, Value>)
    requires keys != [] && Distinct(keys) && forall k :: k in keys ==> k in entries && k !in acc
    ensures keys[0] in entries && keys[0] !in acc && Distinct(keys[1..])
    ensures forall k :: k in keys[1..] ==> k in entries && k !in acc[keys[0] := entries[keys[0]]]
  {
    assert keys[0] in keys;
    forall k | k in keys[1..] ensures k in entries && k !in acc && k != keys[0] { assert k in keys; }
  }

  lemma EntryThenEntries(input: Bytes, entries: map<Bytes, Value>, keys: seq<Bytes>, depth: nat,
                         value: Bytes, rest: Bytes, tail: Bytes, acc: map<Bytes, Value>)
    requires keys != [] && keys[0] !in acc
    requires forall k :: k in keys ==> k in entries
    requires keys[0] in entries && forall k :: k in keys[1..] ==> k in entries
    requires DecodeValue(input, depth + 1) == Ok(Text(keys[0]), value)
    requires DecodeValue(value, depth + 1) == Expected(MinFree(entries[keys[0]]), entries[keys[0]], rest)
    requires EntriesDecode(rest, entries, keys[1..], depth, tail, acc[keys[0] := entries[keys[0]]])
    ensures EntriesDecode(input, entries, keys, depth, tail, acc)
  {
    var key, acc' := keys[0], acc[keys[0] := entries[keys[0]]];
    OneEntry(input, |keys|, depth, acc, key, value, entries[key], rest, tail,
             MinFree(entries[key]), EntriesMinFree(entries, keys[1..]), Gather(acc', entries, keys[1..]));
  }

  lemma OneEntry(input: Bytes, count: nat, depth: nat, acc: map<Bytes, Value>, key: Bytes, value: Bytes, v: Value,
                 rest: Bytes,
                 tail: Bytes, minFree: bool, restFree: bool, all: map<Bytes, Value>)
    requires count > 0 && key !in acc && DecodeValue(input, depth + 1) == Ok(Text(key), value)
    requires DecodeValue(value, depth + 1) == Expected(minFree, v, rest)
    requires DecodeEntries(rest, count - 1, depth, acc[key := v]) == Expected(restFree, all, tail)
    ensures DecodeEntries(input, count, depth, acc) == Expected(minFree && restFree, all, tail)
  {
  }
}
