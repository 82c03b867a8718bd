/** Validation of wire values against the call-scoped type table.

    The checker goes from the expected type to identities, by searching the table. The typing relation
    goes the other way, from the identities a value carries to the types the table lists for
    them. On every built table the two agree. */
module ValueValidation {
  import opened Common
  import opened WireTypes
  import opened TypeTable

  datatype WireValue =
    | UnitV
    | BoolV(b: bool)
    | IntV(i: int)
    | FloatV(x: real)
    | StringV(text: string)
    | CharV(c: char)
    | BytesV(bytes: seq<nat>)
    | ListV(elementType: nat, values: seq<WireValue>)
    | MapV(keyType: nat, valueType: nat, entries: seq<Entry>)
    | TupleV(values: seq<WireValue>)
    | RecordV(typeId: nat, fields: seq<WireValue>)
    | VariantV(typeId: nat, variantId: nat, payload: Payload)
    | ResourceV(resourceType: nat, slot: nat, generation: nat)

  datatype Entry = Entry(key: WireValue, value: WireValue)

  datatype Payload = NoPayload | Payload(value: WireValue)

  /** `Absent` is the family of "absent from the linked table" errors. */
  datatype Verdict = Accept | Absent | Mismatch

  // ----- layouts -----

  function FindLayout<T>(ls: seq<Layout<T>>, ty: WireType): (r: Option<Layout<T>>)
    ensures r.Some? ==> r.value in ls && r.value.ty == ty
  {
    if ls == [] then None else if ls[0].ty == ty then Some(ls[0]) else FindLayout(ls[1..], ty)
  }

  function Repeat(ty: WireType, n: nat): seq<WireType> {
    seq(n, _ => ty)
  }

  // ----- the checker -----

  /** Qualifiers do not change what a value may be. */
  function Validate(t: Table, expected: WireType, v: WireValue): Verdict
    decreases v, 2, expected
  {
    if expected.Qualified? then Validate(t, expected.value, v) else ValidateKind(t, expected, v)
  }

  function ValidateKind(t: Table, expected: WireType, v: WireValue): Verdict
    decreases v, 1
  {
    match (expected, v)
    case (Unit, UnitV) => Accept
    case (Bool, BoolV(_)) => Accept
    case (Int(_, _), IntV(_)) => Accept
    case (Float(_), FloatV(_)) => Accept
    case (String, StringV(_)) => Accept
    case (Char, CharV(_)) => Accept
    case (Bytes, BytesV(_)) => Accept
    case (List(element), ListV(id, values)) =>
      if TypeId(t, element).None? then Absent
      else if TypeId(t, element) != Some(id) then Mismatch
      else ValidateEach(t, Repeat(element, |values|), values, 0, v)
    case (Map(key, value), MapV(k, w, entries)) =>
      if TypeId(t, key).None? then Absent
      else if TypeId(t, key) != Some(k) then Mismatch
      else if TypeId(t, value).None? then Absent
      else if TypeId(t, value) != Some(w) then Mismatch
      else ValidateEntries(t, key, value, entries, 0, v)
    case (Tuple(elements), TupleV(values)) =>
      if |elements| != |values| then Mismatch else ValidateEach(t, elements, values, 0, v)
    case (Option(inner), VariantV(id, variant, payload)) =>
      if TypeId(t, expected) != Some(id) then Mismatch
      else if variant == 0 then ValidatePayload(t, [inner], payload, v)
      else if variant == 1 && payload.NoPayload? then Accept
      else Mismatch
    case (Result(ok, error), VariantV(id, variant, payload)) =>
      if TypeId(t, expected) != Some(id) then Mismatch
      else if variant == 0 then ValidatePayload(t, [ok], payload, v)
      else if variant == 1 then ValidatePayload(t, [error], payload, v)
      else Mismatch
    case (Named(_, _, _), RecordV(id, fields)) =>
      var layout := FindLayout(t.records, expected);
      if layout.None? then Mismatch
      else if TypeId(t, expected).None? then Absent
      else if TypeId(t, expected) != Some(id) then Mismatch
      else if |layout.value.body| != |fields| then Mismatch
      else
        FieldTypesInOrder(layout.value.body);
        ValidateEach(t, FieldTypes(layout.value.body), fields, 0, v)
    case (Named(_, _, _), VariantV(id, variant, payload)) =>
      var layout := FindLayout(t.variants, expected);
      if layout.None? then Mismatch
      else if TypeId(t, expected).None? then Absent
      else if TypeId(t, expected) != Some(id) then Mismatch
      else if variant >= |layout.value.body| then Mismatch
      else ValidatePayload(t, FieldTypes(layout.value.body[variant].fields), payload, v)
    case (Resource(_), ResourceV(id, _, _)) =>
      if ResourceTypeId(t, expected).None? then Absent
      else if ResourceTypeId(t, expected) == Some(id) then Accept else Mismatch
    case (Handle(_), ResourceV(id, _, _)) =>
      if ResourceTypeId(t, expected).None? then Absent
      else if ResourceTypeId(t, expected) == Some(id) then Accept else Mismatch
    case _ => Mismatch
  }

  /** A payload for positional fields: none for no fields, the value itself for one, otherwise a tuple.
      The tuple arm comes last and has no lower bound, so an empty tuple also serves for no fields. */
  function ValidatePayload(t: Table, fields: seq<WireType>, payload: Payload, parent: WireValue): Verdict
    requires payload.Payload? ==> payload.value < parent
    decreases parent, 0, |fields| + 1
  {
    if fields == [] && payload.NoPayload? then Accept
    else if payload.NoPayload? then Mismatch
    else if |fields| == 1 then Validate(t, fields[0], payload.value)
    else if payload.value.TupleV? && |fields| == |payload.value.values| then
      ValidateEach(t, fields, payload.value.values, 0, payload.value)
    else Mismatch
  }

  function ValidateEach(t: Table, tys: seq<WireType>, vs: seq<WireValue>, i: nat, parent: WireValue): Verdict
    requires |tys| == |vs| && i <= |vs| && forall k :: 0 <= k < |vs| ==> vs[k] < parent
    decreases parent, 0, |vs| - i
  {
    if i == |vs| then Accept else
    var first := Validate(t, tys[i], vs[i]);
    if first != Accept then first else ValidateEach(t, tys, vs, i + 1, parent)
  }

  function ValidateEntries(t: Table, key: WireType, value: WireType, entries: seq<Entry>, i: nat,
                           parent: WireValue): Verdict
    requires i <= |entries| && forall k :: 0 <= k < |entries| ==> entries[k] < parent
    decreases parent, 0, |entries| - i
  {
    if i == |entries| then Accept else
    var first := Validate(t, key, entries[i].key);
    if first != Accept then first else
    var second := Validate(t, value, entries[i].value);
    if second != Accept then second else ValidateEntries(t, key, value, entries, i + 1, parent)
  }

  /** The types of a layout's fields, in the layout's order. */
  lemma {:induction false} FieldTypesInOrder(fields: seq<Field>)
    ensures |FieldTypes(fields)| == |fields|
    ensures forall i :: 0 <= i < |fields| ==> FieldTypes(fields)[i] == fields[i].ty
  {
    if fields != [] { FieldTypesInOrder(fields[1..]); }
  }

  // ----- the typing relation -----

  /** The type a numeric identity stands for. */
  predicate Denotes(t: Table, id: nat, ty: WireType) {
    id < |t.types| && t.types[id] == ty
  }

  /** `ls[i]` is the layout of `ty`: the first that is listed for it. */
  predicate IsLayoutOf<T>(ls: seq<Layout<T>>, ty: WireType, i: nat) {
    i < |ls| && ls[i].ty == ty && forall j :: 0 <= j < i ==> ls[j].ty != ty
  }

  /** The search finds a layout whenever one is listed, and then the first. */
  lemma {:induction false} FindsTheLayout<T>(ls: seq<Layout<T>>, ty: WireType)
    ensures FindLayout(ls, ty).None? ==> forall j :: 0 <= j < |ls| ==> ls[j].ty != ty
    ensures FindLayout(ls, ty).Some? ==> exists i: nat :: IsLayoutOf(ls, ty, i) && FindLayout(ls, ty).value == ls[i]
  {
    if ls != [] {
      if ls[0].ty == ty {
        assert IsLayoutOf(ls, ty, 0);
      } else {
        FindsTheLayout(ls[1..], ty);
        if FindLayout(ls, ty).Some? {
          var i: nat :| IsLayoutOf(ls[1..], ty, i) && FindLayout(ls, ty).value == ls[1..][i];
          assert IsLayoutOf(ls, ty, i + 1);
        }
        assert forall j :: 0 < j < |ls| ==> ls[j] == ls[1..][j - 1];
      }
    }
  }

  lemma LayoutIsFound<T>(ls: seq<Layout<T>>, ty: WireType, i: nat)
    requires IsLayoutOf(ls, ty, i)
    ensures FindLayout(ls, ty) == Some(ls[i])
  {
    FindsTheLayout(ls, ty);
  }

  ghost predicate Typed(t: Table, ty: WireType, v: WireValue)
    decreases v, 2, ty
  {
    if ty.Qualified? then Typed(t, ty.value, v) else TypedKind(t, ty, v)
  }

  ghost predicate TypedKind(t: Table, ty: WireType, v: WireValue)
    decreases v, 1
  {
    match v
    case UnitV => ty == Unit
    case BoolV(_) => ty == Bool
    case IntV(_) => ty.Int?
    case FloatV(_) => ty.Float?
    case StringV(_) => ty == String
    case CharV(_) => ty == Char
    case BytesV(_) => ty == Bytes
    case ListV(id, values) =>
      && id < |t.types| && ty == List(t.types[id])
      && forall i :: 0 <= i < |values| ==> Typed(t, t.types[id], values[i])
    case MapV(k, w, entries) =>
      && k < |t.types| && w < |t.types| && ty == Map(t.types[k], t.types[w])
      && forall i :: 0 <= i < |entries| ==> EntryTyped(t, t.types[k], t.types[w], entries[i])
    case TupleV(values) =>
      && ty.Tuple? && |ty.elements| == |values|
      && forall i :: 0 <= i < |values| ==> Typed(t, ty.elements[i], values[i])
    case RecordV(id, fields) =>
      && ty.Named? && Denotes(t, id, ty)
      && exists l: nat :: IsLayoutOf(t.records, ty, l)
           && var body := t.records[l].body;
              |body| == |fields| && forall i :: 0 <= i < |fields| ==> Typed(t, body[i].ty, fields[i])
    case VariantV(id, variant, payload) =>
      && Denotes(t, id, ty)
      && (match ty
         case Option(inner) =>
           || (variant == 0 && payload.Payload? && Typed(t, inner, payload.value))
           || (variant == 1 && payload.NoPayload?)
         case Result(ok, error) =>
           && payload.Payload?
           && ((variant == 0 && Typed(t, ok, payload.value)) || (variant == 1 && Typed(t, error, payload.value)))
         case Named(_, _, _) =>
           exists l: nat :: IsLayoutOf(t.variants, ty, l) && variant < |t.variants[l].body|
             && CaseTyped(t, t.variants[l].body[variant].fields, payload, v)
         case _ => false)
    case ResourceV(id, _, _) =>
      id < |t.resources| && t.resources[id] == ty && IsResource(ty)
  }

  /** The payload of a named case: none for no fields, the value itself for one, a tuple for any other number. */
  ghost predicate CaseTyped(t: Table, fields: seq<Field>, payload: Payload, parent: WireValue)
    requires payload.Payload? ==> payload.value < parent
    decreases parent, 0
  {
    || (fields == [] && payload.NoPayload?)
    || (|fields| == 1 && payload.Payload? && Typed(t, fields[0].ty, payload.value))
    || (&& |fields| != 1 && payload.Payload? && payload.value.TupleV? && |payload.value.values| == |fields|
        && forall i :: 0 <= i < |fields| ==> Typed(t, fields[i].ty, payload.value.values[i]))
  }

  ghost predicate EntryTyped(t: Table, key: WireType, value: WireType, entry: Entry)
    decreases entry
  {
    Typed(t, key, entry.key) && Typed(t, value, entry.value)
  }

  /** The payload types of a case: built in for options and results, from the layout for named sums. */
  function CaseTypesOf(t: Table, ty: WireType, variant: nat): Option<seq<WireType>> {
    match ty
    case Option(inner) => if variant == 0 then Some([inner]) else if variant == 1 then Some([]) else None
    case Result(ok, error) => if variant == 0 then Some([ok]) else if variant == 1 then Some([error]) else None
    case Named(_, _, _) =>
      var layout := FindLayout(t.variants, ty);
      if layout.Some? && variant < |layout.value.body| then Some(FieldTypes(layout.value.body[variant].fields))
        else None
    case _ => None
  }

  // ----- the table lemmas the agreement needs -----

  lemma IdDenotes(t: Table, ty: WireType, id: nat)
    requires TypesOk(t) && ty in t.types
    ensures TypeId(t, ty).Some? && (TypeId(t, ty) == Some(id) <==> Denotes(t, id, ty))
  {
  }

  lemma ComponentIn(t: Table, ty: WireType, i: nat)
    requires TypesOk(t) && ty in t.types && i < |Components(ty)|
    ensures Components(ty)[i] in t.types
  {
    var j :| 0 <= j < |t.types| && t.types[j] == ty;
    assert AllIn(Components(t.types[j]), t.types[..j]);
    assert Components(ty)[i] in t.types[..j];
  }

  lemma ResourceIn(t: Table, ty: WireType, id: nat)
    requires TypesOk(t) && ty in t.types && IsResource(ty)
    ensures ResourceTypeId(t, ty).Some?
    ensures ResourceTypeId(t, ty) == Some(id) <==> id < |t.resources| && t.resources[id] == ty
  {
    var j :| 0 <= j < |t.types| && t.types[j] == ty;
    assert ResourceOf(t.types[j]) == Some(ty);
  }

  lemma {:induction false} RecordFieldsIn(records: seq<RecordLayout>, types: seq<WireType>, layout: RecordLayout)
    requires AllIn(RecordTypes(records), types) && layout in records
    ensures AllIn(FieldTypes(layout.body), types)
  {
    var head, rest := [records[0].ty] + FieldTypes(records[0].body), RecordTypes(records[1..]);
    AllInParts(head, rest, types);
    if layout == records[0] {
      AllInParts([records[0].ty], FieldTypes(records[0].body), types);
    } else {
      RecordFieldsIn(records[1..], types, layout);
    }
  }

  lemma {:induction false} VariantFieldsIn(variants: seq<VariantLayout>, types: seq<WireType>, layout: VariantLayout,
                                           case_: nat)
    requires AllIn(VariantTypes(variants), types) && layout in variants && case_ < |layout.body|
    ensures AllIn(FieldTypes(layout.body[case_].fields), types)
  {
    var head, rest := [variants[0].ty] + CaseTypes(variants[0].body), VariantTypes(variants[1..]);
    AllInParts(head, rest, types);
    if layout == variants[0] {
      AllInParts([variants[0].ty], CaseTypes(variants[0].body), types);
      CaseFieldsIn(layout.body, types, case_);
    } else {
      VariantFieldsIn(variants[1..], types, layout, case_);
    }
  }

  lemma {:induction false} CaseFieldsIn(cases: seq<VariantCase>, types: seq<WireType>, i: nat)
    requires AllIn(CaseTypes(cases), types) && i < |cases|
    ensures AllIn(FieldTypes(cases[i].fields), types)
  {
    AllInParts(FieldTypes(cases[0].fields), CaseTypes(cases[1..]), types);
    if i > 0 { CaseFieldsIn(cases[1..], types, i - 1); }
  }

  lemma AllInParts(a: seq<WireType>, b: seq<WireType>, types: seq<WireType>)
    requires AllIn(a + b, types)
    ensures AllIn(a, types) && AllIn(b, types)
  {
    forall i | 0 <= i < |a| ensures a[i] in types { assert (a + b)[i] == a[i]; }
    forall i | 0 <= i < |b| ensures b[i] in types { assert (a + b)[|a| + i] == b[i]; }
  }

  // ----- agreement -----

  /** The checker's verdict and the typing relation say the same, and nothing is absent. */
  ghost predicate Agrees(verdict: Verdict, typed: bool) {
    verdict != Absent && (verdict == Accept <==> typed)
  }

  /** For every type in a built table the checker accepts exactly the typed values, and never reports a type
      as absent from the table. */
  lemma {:induction false} ValidationIsTyping(t: Table, ty: WireType, v: WireValue)
    requires TableOk(t) && ty in t.types
    ensures Agrees(Validate(t, ty, v), Typed(t, ty, v))
    decreases v, 2, ty
  {
    if ty.Qualified? {
      ComponentIn(t, ty, 0);
      ValidationIsTyping(t, ty.value, v);
    } else {
      KindAgrees(t, ty, v);
    }
  }

  /** The value kinds a bare type can have at all. */
  predicate Fits(ty: WireType, v: WireValue) {
    match v
    case ListV(_, _) => ty.List?
    case MapV(_, _, _) => ty.Map?
    case TupleV(_) => ty.Tuple?
    case RecordV(_, _) => ty.Named?
    case VariantV(_, _, _) => ty.Option? || ty.Result? || ty.Named?
    case ResourceV(_, _, _) => IsResource(ty)
    case _ => true
  }

  lemma OtherKindsMismatch(t: Table, ty: WireType, v: WireValue)
    requires TableOk(t) && !ty.Qualified? && !Fits(ty, v)
    ensures Agrees(ValidateKind(t, ty, v), TypedKind(t, ty, v))
  {
  }

  lemma {:induction false} KindAgrees(t: Table, ty: WireType, v: WireValue)
    requires TableOk(t) && ty in t.types && !ty.Qualified?
    ensures Agrees(ValidateKind(t, ty, v), TypedKind(t, ty, v))
    decreases v, 1
  {
    if !Fits(ty, v) {
      OtherKindsMismatch(t, ty, v);
    } else {
      match v
      case ListV(_, _) => ListAgrees(t, ty, v);
      case MapV(_, _, _) => MapAgrees(t, ty, v);
      case TupleV(_) => TupleAgrees(t, ty, v);
      case RecordV(_, _) => RecordAgrees(t, ty, v);
      case VariantV(_, _, _) => VariantAgrees(t, ty, v);
      case ResourceV(id, _, _) => ResourceIn(t, ty, id);
      case _ =>
    }
  }

  ghost predicate EachTyped(t: Table, tys: seq<WireType>, vs: seq<WireValue>, i: nat)
    requires |tys| == |vs|
  {
    forall k :: i <= k < |vs| ==> Typed(t, tys[k], vs[k])
  }

  lemma EachTypedStep(t: Table, tys: seq<WireType>, vs: seq<WireValue>, i: nat)
    requires |tys| == |vs| && i < |vs|
    ensures EachTyped(t, tys, vs, i) <==> Typed(t, tys[i], vs[i]) && EachTyped(t, tys, vs, i + 1)
  {
  }

  lemma {:induction false} EachAgrees(t: Table, tys: seq<WireType>, vs: seq<WireValue>, i: nat, parent: WireValue)
    requires TableOk(t) && AllIn(tys, t.types)
    requires |tys| == |vs| && i <= |vs| && forall k :: 0 <= k < |vs| ==> vs[k] < parent
    ensures Agrees(ValidateEach(t, tys, vs, i, parent), EachTyped(t, tys, vs, i))
    decreases parent, 0, |vs| - i
  {
    if i < |vs| {
      ValidationIsTyping(t, tys[i], vs[i]);
      EachAgrees(t, tys, vs, i + 1, parent);
      EachTypedStep(t, tys, vs, i);
    }
  }

  lemma {:induction false} ListAgrees(t: Table, ty: WireType, v: WireValue)
    requires TableOk(t) && ty in t.types && ty.List? && v.ListV?
    ensures Agrees(ValidateKind(t, ty, v), TypedKind(t, ty, v))
    decreases v, 0, |v.values| + 1
  {
    ComponentIn(t, ty, 0);
    IdDenotes(t, ty.element, v.elementType);
    EachAgrees(t, Repeat(ty.element, |v.values|), v.values, 0, v);
  }

  ghost predicate EntriesTyped(t: Table, key: WireType, value: WireType, entries: seq<Entry>, i: nat) {
    forall k :: i <= k < |entries| ==> EntryTyped(t, key, value, entries[k])
  }

  lemma EntriesTypedStep(t: Table, key: WireType, value: WireType, entries: seq<Entry>, i: nat)
    requires i < |entries|
    ensures EntriesTyped(t, key, value, entries, i) <==>
      EntryTyped(t, key, value, entries[i]) && EntriesTyped(t, key, value, entries, i + 1)
  {
  }

  lemma {:induction false} EntriesAgree(t: Table, key: WireType, value: WireType, entries: seq<Entry>, i: nat,
                                        parent: WireValue)
    requires TableOk(t) && key in t.types && value in t.types
    requires i <= |entries| && forall k :: 0 <= k < |entries| ==> entries[k] < parent
    ensures Agrees(ValidateEntries(t, key, value, entries, i, parent), EntriesTyped(t, key, value, entries, i))
    decreases parent, 0, |entries| - i
  {
    if i < |entries| {
      ValidationIsTyping(t, key, entries[i].key);
      ValidationIsTyping(t, value, entries[i].value);
      EntriesAgree(t, key, value, entries, i + 1, parent);
      EntriesTypedStep(t, key, value, entries, i);
    }
  }

  lemma MapTyped(t: Table, ty: WireType, v: WireValue)
    requires ty.Map? && v.MapV?
    ensures TypedKind(t, ty, v) <==>
      Denotes(t, v.keyType, ty.key) && Denotes(t, v.valueType, ty.value) &&
        EntriesTyped(t, ty.key, ty.value, v.entries, 0)
  {
  }

  lemma MapValidated(t: Table, ty: WireType, v: WireValue)
    requires ty.Map? && v.MapV? && TypeId(t, ty.key).Some? && TypeId(t, ty.value).Some?
    ensures ValidateKind(t, ty, v) ==
      if TypeId(t, ty.key) == Some(v.keyType) && TypeId(t, ty.value) == Some(v.valueType)
      then ValidateEntries(t, ty.key, ty.value, v.entries, 0, v) else Mismatch
  {
  }

  lemma {:induction false} MapAgrees(t: Table, ty: WireType, v: WireValue)
    requires TableOk(t) && ty in t.types && ty.Map? && v.MapV?
    ensures Agrees(ValidateKind(t, ty, v), TypedKind(t, ty, v))
    decreases v, 0, |v.entries| + 1
  {
    ComponentIn(t, ty, 0);
    ComponentIn(t, ty, 1);
    IdDenotes(t, ty.key, v.keyType);
    IdDenotes(t, ty.value, v.valueType);
    EntriesAgree(t, ty.key, ty.value, v.entries, 0, v);
    MapTyped(t, ty, v);
    MapValidated(t, ty, v);
  }

  lemma {:induction false} TupleAgrees(t: Table, ty: WireType, v: WireValue)
    requires TableOk(t) && ty in t.types && ty.Tuple? && v.TupleV?
    ensures Agrees(ValidateKind(t, ty, v), TypedKind(t, ty, v))
    decreases v, 0, |v.values| + 1
  {
    if |ty.elements| == |v.values| {
      forall i | 0 <= i < |ty.elements| ensures ty.elements[i] in t.types { ComponentIn(t, ty, i); }
      EachAgrees(t, ty.elements, v.values, 0, v);
    }
  }

  lemma {:induction false} RecordAgrees(t: Table, ty: WireType, v: WireValue)
    requires TableOk(t) && ty in t.types && ty.Named? && v.RecordV?
    ensures Agrees(ValidateKind(t, ty, v), TypedKind(t, ty, v))
    decreases v, 0, |v.fields| + 1
  {
    IdDenotes(t, ty, v.typeId);
    FindsTheLayout(t.records, ty);
    var layout := FindLayout(t.records, ty);
    if layout.Some? {
      var body := layout.value.body;
      RecordTyped(t, ty, v, body);
      FieldTypesInOrder(body);
      if |body| == |v.fields| {
        RecordFieldsIn(t.records, t.types, layout.value);
        EachAgrees(t, FieldTypes(body), v.fields, 0, v);
      }
    }
  }

  lemma RecordTyped(t: Table, ty: WireType, v: WireValue, body: seq<Field>)
    requires ty.Named? && v.RecordV? && FindLayout(t.records, ty).Some? && FindLayout(t.records, ty).value.body == body
    ensures TypedKind(t, ty, v) <==>
      && Denotes(t, v.typeId, ty) && |body| == |v.fields|
      && forall i :: 0 <= i < |v.fields| ==> Typed(t, body[i].ty, v.fields[i])
  {
    FindsTheLayout(t.records, ty);
    forall l: nat | IsLayoutOf(t.records, ty, l) ensures t.records[l].body == body { LayoutIsFound(t.records, ty, l); }
  }

  /** Payload typing, as `Typed` states it for a case with fields `tys`. */
  ghost predicate PayloadTyped(t: Table, tys: seq<WireType>, payload: Payload) {
    || (tys == [] && payload.NoPayload?)
    || (|tys| == 1 && payload.Payload? && Typed(t, tys[0], payload.value))
    || (&& |tys| != 1 && payload.Payload? && payload.value.TupleV? && |payload.value.values| == |tys|
        && forall i :: 0 <= i < |tys| ==> Typed(t, tys[i], payload.value.values[i]))
  }

  lemma {:induction false} PayloadAgrees(t: Table, tys: seq<WireType>, payload: Payload, parent: WireValue)
    requires TableOk(t) && AllIn(tys, t.types) && (payload.Payload? ==> payload.value < parent)
    ensures Agrees(ValidatePayload(t, tys, payload, parent), PayloadTyped(t, tys, payload))
    decreases parent, 0, |tys| + 1
  {
    if payload.Payload? && |tys| == 1 {
      ValidationIsTyping(t, tys[0], payload.value);
    } else if payload.Payload? && payload.value.TupleV? && |tys| == |payload.value.values| {
      EachAgrees(t, tys, payload.value.values, 0, payload.value);
    }
  }

  lemma {:induction false} VariantAgrees(t: Table, ty: WireType, v: WireValue)
    requires TableOk(t) && ty in t.types && (ty.Option? || ty.Result? || ty.Named?) && v.VariantV?
    ensures Agrees(ValidateKind(t, ty, v), TypedKind(t, ty, v))
    decreases v, 0, CaseSize(t, ty, v.variantId) + 2
  {
    IdDenotes(t, ty, v.typeId);
    var tys := CaseTypesOf(t, ty, v.variantId);
    if tys.Some? && !(ty.Option? && v.variantId == 1) {
      CaseTypesIn(t, ty, v.variantId);
      PayloadAgrees(t, tys.value, v.payload, v);
    }
    if ty.Named? { NamedCaseTyped(t, ty, v); }
  }

  /** The typing relation's named sums, by way of the search the checker makes. */
  lemma NamedCaseTyped(t: Table, ty: WireType, v: WireValue)
    requires ty.Named? && v.VariantV?
    ensures TypedKind(t, ty, v) <==>
      && Denotes(t, v.typeId, ty) && CaseTypesOf(t, ty, v.variantId).Some?
      && PayloadTyped(t, CaseTypesOf(t, ty, v.variantId).value, v.payload)
  {
    FindsTheLayout(t.variants, ty);
    forall l: nat | IsLayoutOf(t.variants, ty, l) ensures FindLayout(t.variants, ty) == Some(t.variants[l]) {
      LayoutIsFound(t.variants, ty, l);
    }
    var layout := FindLayout(t.variants, ty);
    if layout.Some? && v.variantId < |layout.value.body| {
      CaseAsPayload(t, layout.value.body[v.variantId].fields, v.payload, v);
    }
  }

  lemma CaseAsPayload(t: Table, fields: seq<Field>, payload: Payload, parent: WireValue)
    requires payload.Payload? ==> payload.value < parent
    ensures CaseTyped(t, fields, payload, parent) <==> PayloadTyped(t, FieldTypes(fields), payload)
  {
    FieldTypesInOrder(fields);
  }

  ghost function CaseSize(t: Table, ty: WireType, variant: nat): nat {
    if CaseTypesOf(t, ty, variant).Some? then |CaseTypesOf(t, ty, variant).value| else 0
  }

  lemma CaseTypesIn(t: Table, ty: WireType, variant: nat)
    requires TableOk(t) && ty in t.types && CaseTypesOf(t, ty, variant).Some?
    ensures AllIn(CaseTypesOf(t, ty, variant).value, t.types)
  {
    match ty
    case Option(_) => ComponentIn(t, ty, 0);
    case Result(_, _) =>
      ComponentIn(t, ty, 0);
      ComponentIn(t, ty, 1);
    case Named(_, _, _) => VariantFieldsIn(t.variants, t.types, FindLayout(t.variants, ty).value, variant);
  }

  /** The payloads a case without fields takes: none, and also an empty tuple, because the tuple arm of the
      payload check accepts any length that matches. */
  lemma FieldFreeCaseTakesEmptyTuple(t: Table, ty: WireType, id: nat, variant: nat, payload: Payload)
    requires TableOk(t) && ty.Named? && Denotes(t, id, ty) && CaseTypesOf(t, ty, variant) == Some([])
    ensures Validate(t, ty, VariantV(id, variant, payload)) == Accept <==>
      payload == NoPayload || payload == Payload(TupleV([]))
  {
    var v := VariantV(id, variant, payload);
    ValidationIsTyping(t, ty, v);
    NamedCaseTyped(t, ty, v);
    EmptyPayload(t, payload);
  }

  lemma EmptyPayload(t: Table, payload: Payload)
    ensures PayloadTyped(t, [], payload) <==> payload == NoPayload || payload == Payload(TupleV([]))
  {
  }
}
