/** The decoder as it runs: a cursor advanced over a fixed byte slice. Each method is tied to the
    decoding function on the bytes that remain. */
module CborDecoder {
  import opened Bytes
  import opened Cbor

  datatype Outcome<T> = Failure(error: Error) | Success(value: T)

  /** `values` followed by whatever `decoded` holds. */
  function Prepend(values: seq<Value>, decoded: Decoded<seq<Value>>): Decoded<seq<Value>> {
    if decoded.Ok? then Ok(values + decoded.value, decoded.rest) else decoded
  }

  class Decoder {
    const bytes: Bytes
    var cursor: nat

    ghost predicate Valid()
      reads this
    {
      cursor <= |bytes|
    }

    /** The bytes not yet consumed. */
    ghost function Rest(): Bytes
      reads this
      requires Valid()
    {
      bytes[cursor..]
    }

    /** The method's outcome and the new cursor agree with `expected`. */
    ghost predicate Agrees<T>(outcome: Outcome<T>, expected: Decoded<T>)
      reads this
    {
      && Valid()
      && match expected
         case Ok(value, rest) => outcome == Success(value) && Rest() == rest
         case Bad(error) => outcome == Failure(error)
    }

    constructor (bytes: Bytes)
      ensures Valid() && this.bytes == bytes && Rest() == bytes
    {
      this.bytes := bytes;
      cursor := 0;
    }

    method Byte() returns (r: Outcome<byte>)
      requires Valid()
      modifies this
      ensures Valid() && cursor >= old(cursor)
      ensures old(Rest()) == [] ==> r == Failure(Truncated)
      ensures old(Rest()) != [] ==> r == Success(old(Rest())[0]) && Rest() == old(Rest())[1..]
    {
      if cursor == |bytes| { return Failure(Truncated); }
      r := Success(bytes[cursor]);
      cursor := cursor + 1;
    }

    method Take(length: nat) returns (r: Outcome<Bytes>)
      requires Valid()
      modifies this
      ensures Agrees(r, DecodeBytes(old(Rest()), length)) && cursor >= old(cursor)
    {
      var end := cursor + length;
      if end > |bytes| { return Failure(Truncated); }
      r := Success(bytes[cursor..end]);
      assert bytes[cursor..end] == bytes[cursor..][..length] && bytes[end..] == bytes[cursor..][length..];
      cursor := end;
    }

    /** A fixed-width big-endian argument. */
    method Fixed(width: nat) returns (r: Outcome<nat>)
      requires Valid()
      modifies this
      ensures Agrees(r, DecodeBigEndian(old(Rest()), width)) && cursor >= old(cursor)
    {
      var taken := Take(width);
      match taken
      case Failure(error) => r := Failure(error);
      case Success(value) => r := Success(FromBigEndian(value));
    }

    method Argument(additional: nat) returns (r: Outcome<nat>)
      requires Valid()
      modifies this
      ensures Agrees(r, DecodeArgument(additional, old(Rest()))) && cursor >= old(cursor)
    {
      if additional < 24 { return Success(additional); }
      else if additional == 24 { r := Fixed(1); }
      else if additional == 25 { r := Fixed(2); }
      else if additional == 26 { r := Fixed(4); }
      else if additional == 27 { r := Fixed(8); }
      else { return Failure(UnsupportedArgument); }
    }

    method Length(additional: nat, minimum: nat) returns (r: Outcome<nat>)
      requires Valid() && minimum > 0
      modifies this
      ensures Agrees(r, DecodeLength(additional, old(Rest()), minimum)) && cursor >= old(cursor)
    {
      r := Argument(additional);
      if r.Success? && r.value > (|bytes| - cursor) / minimum {
        r := Failure(LengthExceedsPayload);
      }
    }

    method NextValue(depth: nat) returns (r: Outcome<Value>)
      requires Valid()
      modifies this
      ensures Agrees(r, DecodeValue(old(Rest()), depth)) && cursor >= old(cursor)
      ensures r.Success? ==> cursor > old(cursor)
      decreases |bytes| - cursor, 0
    {
      if depth > MAX_NESTING { return Failure(NestingLimit); }
      var initial := Byte();
      if initial.Failure? { return Failure(initial.error); }
      r := NextMajor(initial.value, depth);
    }

    method NextMajor(initial: byte, depth: nat) returns (r: Outcome<Value>)
      requires Valid()
      modifies this
      ensures Agrees(r, DecodeMajor(initial, old(Rest()), depth)) && cursor >= old(cursor)
      decreases |bytes| - cursor, 3
    {
      var major, additional := initial / 32, initial % 32;
      if major == 0 {
        var a := Argument(additional);
        if a.Failure? { return Failure(a.error); }
        r := Success(Int(a.value));
      } else if major == 1 {
        r := NextNegative(additional);
      } else if major == 3 {
        r := NextText(additional);
      } else if major == 4 {
        r := NextArray(additional, depth);
      } else if major == 5 {
        r := NextObject(additional, depth);
      } else if major == 7 {
        var v := Simple(additional);
        r := if v.Ok? then Success(v.value) else Failure(v.error);
      } else {
        r := Failure(Unsupported);
      }
    }

    method NextNegative(additional: nat) returns (r: Outcome<Value>)
      requires Valid()
      modifies this
      ensures Agrees(r, DecodeNegative(additional, old(Rest()))) && cursor >= old(cursor)
    {
      var a := Argument(additional);
      if a.Failure? { return Failure(a.error); }
      var magnitude := a.value + 1;
      if magnitude >= TWO_63 { return Failure(NegativeTooSmall); }
      r := Success(Int(-magnitude));
    }

    method NextText(additional: nat) returns (r: Outcome<Value>)
      requires Valid()
      modifies this
      ensures Agrees(r, DecodeText(additional, old(Rest()))) && cursor >= old(cursor)
    {
      var length := Length(additional, 1);
      if length.Failure? { return Failure(length.error); }
      var text := Take(length.value);
      if text.Failure? { return Failure(text.error); }
      if !ValidUtf8(text.value) { return Failure(NotUtf8); }
      r := Success(Value.Text(text.value));
    }

    method NextArray(additional: nat, depth: nat) returns (r: Outcome<Value>)
      requires Valid()
      modifies this
      ensures Agrees(r, DecodeArray(additional, old(Rest()), depth)) && cursor >= old(cursor)
      decreases |bytes| - cursor, 2
    {
      ghost var start := cursor;
      var length := Length(additional, 1);
      if length.Failure? { return Failure(length.error); }
      ghost var body := Rest();
      var values: seq<Value> := [];
      PrependNothing(DecodeItems(body, length.value, depth));
      for i := 0 to length.value
        invariant Valid() && cursor >= start && (i > 0 ==> cursor > start)
        invariant DecodeItems(body, length.value, depth) ==
          Prepend(values, DecodeItems(Rest(), length.value - i, depth))
      {
        ghost var before := Rest();
        var item := NextValue(depth + 1);
        if item.Failure? { return Failure(item.error); }
        ItemsContinue(values, before, length.value - i, depth);
        values := values + [item.value];
      }
      assert values + [] == values;
      r := Success(Value.Array(values));
    }

    method NextObject(additional: nat, depth: nat) returns (r: Outcome<Value>)
      requires Valid()
      modifies this
      ensures Agrees(r, DecodeObject(additional, old(Rest()), depth)) && cursor >= old(cursor)
      decreases |bytes| - cursor, 2
    {
      ghost var start := cursor;
      var length := Length(additional, 2);
      if length.Failure? { return Failure(length.error); }
      ghost var body := Rest();
      var values: map<Bytes, Value> := map[];
      for i := 0 to length.value
        invariant Valid() && cursor >= start && (i > 0 ==> cursor > start)
        invariant DecodeEntries(body, length.value, depth, map[]) ==
          DecodeEntries(Rest(), length.value - i, depth, values)
      {
        var key := NextValue(depth + 1);
        if key.Failure? { return Failure(key.error); }
        if !key.value.Text? { return Failure(KeyNotText); }
        var value := NextValue(depth + 1);
        if value.Failure? { return Failure(value.error); }
        if key.value.t in values { return Failure(DuplicateKey); }
        values := values[key.value.t := value.value];
      }
      r := Success(Value.Object(values));
    }
  }

  lemma PrependNothing(decoded: Decoded<seq<Value>>)
    ensures Prepend([], decoded) == decoded
  {
    if decoded.Ok? { assert [] + decoded.value == decoded.value; }
  }

  lemma ItemsContinue(values: seq<Value>, input: Bytes, count: nat, depth: nat)
    requires count > 0 && DecodeValue(input, depth + 1).Ok?
    ensures var first := DecodeValue(input, depth + 1);
      Prepend(values, DecodeItems(input, count, depth))
        == Prepend(values + [first.value], DecodeItems(first.rest, count - 1, depth))
  {
    var first := DecodeValue(input, depth + 1);
    var others := DecodeItems(first.rest, count - 1, depth);
    if others.Ok? {
      assert values + ([first.value] + others.value) == values + [first.value] + others.value;
    }
  }

  /** `decode`: one value, and nothing after it. */
  method DecodeAll(bytes: Bytes) returns (r: Outcome<Value>)
    ensures match Decode(bytes) case Ok(value, _) => r == Success(value) case Bad(error) => r == Failure(error)
  {
    var decoder := new Decoder(bytes);
    r := decoder.NextValue(0);
    if r.Success? && decoder.cursor != |bytes| {
      r := Failure(TrailingBytes);
    }
  }
}
