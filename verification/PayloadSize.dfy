/** The payload estimate used for call budgets: an explicit-stack walk that equals the recursive sum. */
module PayloadSize {
  import opened ValueValidation
  import Text = TextPositions
  import TextEncoding

  const USIZE_MAX: nat := 0xFFFF_FFFF_FFFF_FFFF
  const HANDLE_BYTES: nat := 12

  function Capped(n: nat): nat {
    if n > USIZE_MAX then USIZE_MAX else n
  }

  function SaturatingAdd(a: nat, b: nat): nat {
    Capped(a + b)
  }

  /** The bytes a value itself contributes, its parts aside. */
  function OwnBytes(v: WireValue): nat {
    match v
    case BoolV(_) => 1
    case IntV(_) => 8
    case FloatV(_) => 8
    case StringV(text) => Text.ByteLength(text)
    case CharV(c) => Text.Utf8Width(c)
    case BytesV(bytes) => |bytes|
    case ResourceV(_, _, _) => HANDLE_BYTES
    case _ => 0
  }

  function EntryValues(entries: seq<Entry>, parent: WireValue): (vs: seq<WireValue>)
    requires forall i :: 0 <= i < |entries| ==> entries[i] < parent
    ensures forall i :: 0 <= i < |vs| ==> vs[i] < parent
  {
    if entries == [] then [] else [entries[0].key, entries[0].value] + EntryValues(entries[1..], parent)
  }

  /** The parts pushed when a value is popped. */
  function Parts(v: WireValue): (parts: seq<WireValue>)
    ensures forall i :: 0 <= i < |parts| ==> parts[i] < v
  {
    match v
    case ListV(_, values) => values
    case TupleV(values) => values
    case MapV(_, _, entries) => EntryValues(entries, v)
    case RecordV(_, fields) => fields
    case VariantV(_, _, payload) => if payload.Payload? then [payload.value] else []
    case _ => []
  }

  /** All bytes in a value, without saturation: text as it is encoded, every item, field, key and value once. */
  ghost function TotalBytes(v: WireValue): nat
    decreases v, 1, 0
  {
    match v
    case UnitV => 0
    case BoolV(_) => 1
    case IntV(_) => 8
    case FloatV(_) => 8
    case StringV(text) => |TextEncoding.EncodeUtf8(text)|
    case CharV(c) => |TextEncoding.Utf8(c)|
    case BytesV(bytes) => |bytes|
    case ListV(_, values) => EachBytes(values, 0, v)
    case TupleV(values) => EachBytes(values, 0, v)
    case MapV(_, _, entries) => EntryBytes(entries, 0, v)
    case RecordV(_, fields) => EachBytes(fields, 0, v)
    case VariantV(_, _, payload) => if payload.Payload? then TotalBytes(payload.value) else 0
    case ResourceV(_, _, _) => HANDLE_BYTES
  }

  ghost function EachBytes(vs: seq<WireValue>, i: nat, parent: WireValue): nat
    requires i <= |vs| && forall k :: 0 <= k < |vs| ==> vs[k] < parent
    decreases parent, 0, |vs| - i
  {
    if i == |vs| then 0 else TotalBytes(vs[i]) + EachBytes(vs, i + 1, parent)
  }

  ghost function EntryBytes(entries: seq<Entry>, i: nat, parent: WireValue): nat
    requires i <= |entries| && forall k :: 0 <= k < |entries| ==> entries[k] < parent
    decreases parent, 0, |entries| - i
  {
    if i == |entries| then 0
    else TotalBytes(entries[i].key) + TotalBytes(entries[i].value) + EntryBytes(entries, i + 1, parent)
  }

  ghost function Nodes(v: WireValue): (n: nat)
    ensures n > 0
    decreases v, 1, 0
  {
    1 + PartNodes(v, 0)
  }

  ghost function PartNodes(v: WireValue, i: nat): nat
    requires i <= |Parts(v)|
    decreases v, 0, |Parts(v)| - i
  {
    if i == |Parts(v)| then 0 else Nodes(Parts(v)[i]) + PartNodes(v, i + 1)
  }

  // ----- sums over the stack of pending values -----

  ghost function StackBytes(vs: seq<WireValue>): nat {
    if vs == [] then 0 else TotalBytes(vs[0]) + StackBytes(vs[1..])
  }

  ghost function StackNodes(vs: seq<WireValue>): nat {
    if vs == [] then 0 else Nodes(vs[0]) + StackNodes(vs[1..])
  }

  lemma {:induction false} StackAppend(a: seq<WireValue>, b: seq<WireValue>)
    ensures StackBytes(a + b) == StackBytes(a) + StackBytes(b) && StackNodes(a + b) == StackNodes(a) + StackNodes(b)
  {
    if a == [] {
      assert a + b == b;
    } else {
      assert (a + b)[1..] == a[1..] + b;
      StackAppend(a[1..], b);
    }
  }

  lemma {:induction false} PartsAsStack(v: WireValue, i: nat)
    requires i <= |Parts(v)|
    ensures PartNodes(v, i) == StackNodes(Parts(v)[i..])
    decreases |Parts(v)| - i
  {
    if i < |Parts(v)| {
      assert Parts(v)[i..][1..] == Parts(v)[i + 1..];
      PartsAsStack(v, i + 1);
    }
  }

  lemma {:induction false} EachAsStack(vs: seq<WireValue>, i: nat, parent: WireValue)
    requires i <= |vs| && forall k :: 0 <= k < |vs| ==> vs[k] < parent
    ensures EachBytes(vs, i, parent) == StackBytes(vs[i..])
    decreases |vs| - i
  {
    if i < |vs| {
      assert vs[i..][1..] == vs[i + 1..];
      EachAsStack(vs, i + 1, parent);
    }
  }

  lemma {:induction false} EntriesAsStack(entries: seq<Entry>, i: nat, parent: WireValue)
    requires i <= |entries| && forall k :: 0 <= k < |entries| ==> entries[k] < parent
    ensures EntryBytes(entries, i, parent) == StackBytes(EntryValues(entries[i..], parent))
    decreases |entries| - i
  {
    if i < |entries| {
      var head, rest := [entries[i].key, entries[i].value], EntryValues(entries[i..][1..], parent);
      assert entries[i..][1..] == entries[i + 1..];
      EntriesAsStack(entries, i + 1, parent);
      StackAppend(head, rest);
      assert head[1..] == [entries[i].value] && head[1..][1..] == [];
    }
  }

  /** A value's bytes are its own and those of the parts that the walk pushes. */
  lemma BytesOfParts(v: WireValue)
    ensures TotalBytes(v) == OwnBytes(v) + StackBytes(Parts(v))
  {
    match v
    case StringV(text) => TextEncoding.ByteLengthIsEncodedLength(text);
    case CharV(c) => TextEncoding.WidthsAreLengths(c);
    case ListV(_, values) => EachAsStack(values, 0, v); assert values[0..] == values;
    case TupleV(values) => EachAsStack(values, 0, v); assert values[0..] == values;
    case RecordV(_, fields) => EachAsStack(fields, 0, v); assert fields[0..] == fields;
    case MapV(_, _, entries) => EntriesAsStack(entries, 0, v); assert entries[0..] == entries;
    case VariantV(_, _, payload) => if payload.Payload? { assert [payload.value][1..] == []; }
    case _ =>
  }

  /** `estimated_payload_bytes`: pop a value, add its own bytes, push its parts. The result is the recursive
      total, capped at the largest machine word. */
  method EstimatedPayloadBytes(v: WireValue) returns (total: nat)
    ensures total == Capped(TotalBytes(v))
  {
    total := 0;
    var pending := [v];
    ghost var exact: nat := 0;
    assert pending == [v] + [] && StackBytes([v]) == TotalBytes(v);
    while pending != []
      invariant exact + StackBytes(pending) == TotalBytes(v)
      invariant total == Capped(exact)
      decreases StackNodes(pending)
    {
      var last := |pending| - 1;
      var value, rest := pending[last], pending[..last];
      PopSums(rest, value);
      assert pending == rest + [value];
      exact := exact + OwnBytes(value);
      total := SaturatingAdd(total, OwnBytes(value));
      pending := rest + Parts(value);
    }
  }

  lemma PopSums(rest: seq<WireValue>, value: WireValue)
    ensures StackBytes(rest + [value]) == StackBytes(rest + Parts(value)) + OwnBytes(value)
    ensures StackNodes(rest + [value]) == StackNodes(rest + Parts(value)) + 1
  {
    StackAppend(rest, [value]);
    StackAppend(rest, Parts(value));
    PartsAsStack(value, 0);
    BytesOfParts(value);
    assert Parts(value)[0..] == Parts(value);
    assert [value][1..] == [];
  }
}
