/** The call-scoped type table: numeric identities assigned children first. */
module TypeTable {
  import opened Common
  import opened WireTypes

  datatype Field = Field(name: string, ty: WireType)

  datatype VariantCase = VariantCase(name: string, fields: seq<Field>)

  /** A named type and its positional layout: the fields of a record, or the cases of a sum. */
  datatype Layout<T> = Layout(ty: WireType, body: seq<T>)

  type RecordLayout = Layout<Field>

  type VariantLayout = Layout<VariantCase>

  datatype Table = Table(types: seq<WireType>, resources: seq<WireType>,
                         records: seq<RecordLayout>, variants: seq<VariantLayout>)

  datatype Insertion = Overflow | Inserted(table: Table)

  const EMPTY: Table := Table([], [], [], [])

  // ----- inserting types -----

  function IsResource(ty: WireType): bool {
    ty.Resource? || ty.Handle?
  }

  /** The resource a type names, itself or under one qualifier. */
  function ResourceOf(ty: WireType): Option<WireType> {
    if IsResource(ty) then Some(ty)
    else if ty.Qualified? && IsResource(ty.value) then Some(ty.value)
    else None
  }

  function AddType(t: Table, ty: WireType): Insertion {
    if ty in t.types then Inserted(t)
    else if |t.types| > MAX_U32 then Overflow
    else Inserted(t.(types := t.types + [ty]))
  }

  function AddResource(t: Table, ty: WireType): Insertion {
    match ResourceOf(ty)
    case None => Inserted(t)
    case Some(r) =>
      if r in t.resources then Inserted(t)
      else if |t.resources| > MAX_U32 then Overflow
      else Inserted(t.(resources := t.resources + [r]))
  }

  /** Components first, then the type itself, then the resource it names. */
  function Insert(t: Table, ty: WireType): Insertion
    decreases ty, |Components(ty)| + 1
  {
    var below := InsertComponents(t, ty, 0);
    if below.Overflow? then Overflow else
    var added := AddType(below.table, ty);
    if added.Overflow? then Overflow else AddResource(added.table, ty)
  }

  function InsertComponents(t: Table, ty: WireType, i: nat): Insertion
    requires i <= |Components(ty)|
    decreases ty, |Components(ty)| - i
  {
    if i == |Components(ty)| then Inserted(t) else
    var first := Insert(t, Components(ty)[i]);
    if first.Overflow? then Overflow else InsertComponents(first.table, ty, i + 1)
  }

  function InsertAll(t: Table, tys: seq<WireType>): Insertion
    decreases tys
  {
    if tys == [] then Inserted(t) else
    var first := Insert(t, tys[0]);
    if first.Overflow? then Overflow else InsertAll(first.table, tys[1..])
  }

  // ----- the invariant -----

  predicate NoDuplicates(tys: seq<WireType>) {
    forall i, j :: 0 <= i < j < |tys| ==> tys[i] != tys[j]
  }

  predicate AllIn(tys: seq<WireType>, s: seq<WireType>) {
    forall i :: 0 <= i < |tys| ==> tys[i] in s
  }

  /** Every component of an entry stands before it. */
  predicate ChildrenFirst(types: seq<WireType>) {
    forall i :: 0 <= i < |types| ==> AllIn(Components(types[i]), types[..i])
  }

  predicate ResourcesListed(types: seq<WireType>, resources: seq<WireType>) {
    forall i :: 0 <= i < |types| && ResourceOf(types[i]).Some? ==> ResourceOf(types[i]).value in resources
  }

  predicate TypesOk(t: Table) {
    && NoDuplicates(t.types) && NoDuplicates(t.resources)
    && ChildrenFirst(t.types) && ResourcesListed(t.types, t.resources)
    && |t.types| <= MAX_U32 + 1 && |t.resources| <= MAX_U32 + 1
  }

  /** No identity already assigned is changed, and layouts are left alone. */
  predicate Extends(t: Table, t': Table) {
    t.types <= t'.types && t.resources <= t'.resources && t'.records == t.records && t'.variants == t.variants
  }

  /** `TypesOk` but for the resource of the newest entry `ty`. */
  predicate TypesOkBut(t: Table, ty: WireType) {
    && NoDuplicates(t.types) && NoDuplicates(t.resources) && ChildrenFirst(t.types)
    && (forall i :: 0 <= i < |t.types| && ResourceOf(t.types[i]).Some? && t.types[i] != ty ==>
          ResourceOf(t.types[i]).value in t.resources)
    && |t.types| <= MAX_U32 + 1 && |t.resources| <= MAX_U32 + 1
  }

  lemma AddTypeKeeps(t: Table, ty: WireType)
    requires TypesOk(t) && AllIn(Components(ty), t.types) && AddType(t, ty).Inserted?
    ensures var t' := AddType(t, ty).table;
      TypesOkBut(t', ty) && Extends(t, t') && ty in t'.types
  {
    ChildrenBeforeParent(t.types, ty);
  }

  lemma ChildrenBeforeParent(types: seq<WireType>, ty: WireType)
    requires ChildrenFirst(types) && AllIn(Components(ty), types)
    ensures ChildrenFirst(types + [ty])
  {
    var more := types + [ty];
    forall i | 0 <= i < |more| ensures AllIn(Components(more[i]), more[..i]) {
      if i < |types| { assert more[..i] == types[..i]; } else { assert more[..i] == types; }
    }
  }

  lemma AddResourceKeeps(t: Table, ty: WireType)
    requires TypesOkBut(t, ty) && AddResource(t, ty).Inserted?
    ensures var t' := AddResource(t, ty).table;
      TypesOk(t') && Extends(t, t') && t'.types == t.types
  {
  }

  lemma InsertedIsThere(t: Table, ty: WireType, t': Table)
    requires ty in t.types && Extends(t, t')
    ensures ty in t'.types
  {
    var i :| 0 <= i < |t.types| && t.types[i] == ty;
    assert t'.types[i] == ty;
  }

  /** Whatever is inserted, the table stays duplicate-free and closed, children below parents, with every
      resource listed, and keeps all identities it had. */
  lemma {:induction false} InsertKeeps(t: Table, ty: WireType)
    requires TypesOk(t) && Insert(t, ty).Inserted?
    ensures var t' := Insert(t, ty).table;
      TypesOk(t') && Extends(t, t') && ty in t'.types
    decreases ty, |Components(ty)| + 1
  {
    ComponentsKeep(t, ty, 0);
    var below := InsertComponents(t, ty, 0).table;
    AddTypeKeeps(below, ty);
    AddResourceKeeps(AddType(below, ty).table, ty);
  }

  lemma {:induction false} ComponentsKeep(t: Table, ty: WireType, i: nat)
    requires i <= |Components(ty)| && TypesOk(t) && InsertComponents(t, ty, i).Inserted?
    requires AllIn(Components(ty)[..i], t.types)
    ensures var t' := InsertComponents(t, ty, i).table;
      TypesOk(t') && Extends(t, t') && AllIn(Components(ty), t'.types)
    decreases ty, |Components(ty)| - i
  {
    if i < |Components(ty)| {
      InsertKeeps(t, Components(ty)[i]);
      var t1 := Insert(t, Components(ty)[i]).table;
      OneMoreIn(Components(ty), i, t, t1);
      ComponentsKeep(t1, ty, i + 1);
    } else {
      assert Components(ty)[..i] == Components(ty);
    }
  }

  lemma OneMoreIn(tys: seq<WireType>, i: nat, t: Table, t': Table)
    requires i < |tys| && AllIn(tys[..i], t.types) && t.types <= t'.types && tys[i] in t'.types
    ensures AllIn(tys[..i + 1], t'.types)
  {
    StaysIn(tys[..i], t, t');
    assert tys[..i + 1] == tys[..i] + [tys[i]];
  }

  lemma {:induction false} InsertAllKeeps(t: Table, tys: seq<WireType>)
    requires TypesOk(t) && InsertAll(t, tys).Inserted?
    ensures var t' := InsertAll(t, tys).table;
      TypesOk(t') && Extends(t, t') && AllIn(tys, t'.types)
    decreases tys
  {
    if tys != [] {
      InsertKeeps(t, tys[0]);
      var t1 := Insert(t, tys[0]).table;
      InsertAllKeeps(t1, tys[1..]);
      InsertedIsThere(t1, tys[0], InsertAll(t, tys).table);
      forall i | 1 <= i < |tys| ensures tys[i] in InsertAll(t, tys).table.types { assert tys[i] == tys[1..][i - 1]; }
    }
  }

  // ----- layouts -----

  function FieldTypes(fields: seq<Field>): seq<WireType> {
    if fields == [] then [] else [fields[0].ty] + FieldTypes(fields[1..])
  }

  function CaseTypes(cases: seq<VariantCase>): seq<WireType> {
    if cases == [] then [] else FieldTypes(cases[0].fields) + CaseTypes(cases[1..])
  }

  function RecordTypes(records: seq<RecordLayout>): seq<WireType> {
    if records == [] then [] else [records[0].ty] + FieldTypes(records[0].body) + RecordTypes(records[1..])
  }

  function VariantTypes(variants: seq<VariantLayout>): seq<WireType> {
    if variants == [] then [] else [variants[0].ty] + CaseTypes(variants[0].body) + VariantTypes(variants[1..])
  }

  /** `for_signature`: parameters in order, then the result. */
  function ForSignature(parameters: seq<WireType>, result: WireType): Insertion {
    InsertAll(EMPTY, parameters + [result])
  }

  type Order = (WireType, WireType) -> bool

  /** Layouts ordered by type; the order itself is a parameter. */
  function Sorted<T>(leq: Order, layouts: seq<Layout<T>>): seq<Layout<T>> {
    if layouts == [] then [] else Place(leq, layouts[0], Sorted(leq, layouts[1..]))
  }

  function Place<T>(leq: Order, layout: Layout<T>, sorted: seq<Layout<T>>): seq<Layout<T>> {
    if sorted == [] || leq(layout.ty, sorted[0].ty) then [layout] + sorted
    else [sorted[0]] + Place(leq, layout, sorted[1..])
  }

  function WithRecords(leq: Order, t: Table, records: seq<RecordLayout>): Insertion {
    var sorted := Sorted(leq, records);
    var inserted := InsertAll(t, RecordTypes(sorted));
    if inserted.Overflow? then Overflow else Inserted(inserted.table.(records := sorted))
  }

  function WithVariants(leq: Order, t: Table, variants: seq<VariantLayout>): Insertion {
    var sorted := Sorted(leq, variants);
    var inserted := InsertAll(t, VariantTypes(sorted));
    if inserted.Overflow? then Overflow else Inserted(inserted.table.(variants := sorted))
  }

  /** The invariant of a whole table: every layout's type and field types are in it. */
  predicate TableOk(t: Table) {
    TypesOk(t) && AllIn(RecordTypes(t.records), t.types) && AllIn(VariantTypes(t.variants), t.types)
  }

  lemma StaysIn(tys: seq<WireType>, t: Table, t': Table)
    requires AllIn(tys, t.types) && t.types <= t'.types
    ensures AllIn(tys, t'.types)
  {
    forall i | 0 <= i < |tys| ensures tys[i] in t'.types {
      var j :| 0 <= j < |t.types| && t.types[j] == tys[i];
      assert t'.types[j] == tys[i];
    }
  }

  lemma SignatureTableOk(parameters: seq<WireType>, result: WireType)
    requires ForSignature(parameters, result).Inserted?
    ensures TableOk(ForSignature(parameters, result).table)
    ensures AllIn(parameters + [result], ForSignature(parameters, result).table.types)
  {
    InsertAllKeeps(EMPTY, parameters + [result]);
  }

  lemma WithRecordsKeeps(leq: Order, t: Table, records: seq<RecordLayout>)
    requires TableOk(t) && WithRecords(leq, t, records).Inserted?
    ensures var t' := WithRecords(leq, t, records).table;
      TableOk(t') && t.types <= t'.types && t.resources <= t'.resources && t'.variants == t.variants
  {
    var sorted := Sorted(leq, records);
    InsertAllKeeps(t, RecordTypes(sorted));
    StaysIn(VariantTypes(t.variants), t, InsertAll(t, RecordTypes(sorted)).table);
  }

  lemma WithVariantsKeeps(leq: Order, t: Table, variants: seq<VariantLayout>)
    requires TableOk(t) && WithVariants(leq, t, variants).Inserted?
    ensures var t' := WithVariants(leq, t, variants).table;
      TableOk(t') && t.types <= t'.types && t.resources <= t'.resources && t'.records == t.records
  {
    var sorted := Sorted(leq, variants);
    InsertAllKeeps(t, VariantTypes(sorted));
    StaysIn(RecordTypes(t.records), t, InsertAll(t, VariantTypes(sorted)).table);
  }

  // ----- independence of the layout order -----

  ghost predicate TotalOrder(leq: Order) {
    && (forall a, b :: leq(a, b) || leq(b, a))
    && (forall a, b :: leq(a, b) && leq(b, a) ==> a == b)
    && forall a, b, c :: leq(a, b) && leq(b, c) ==> leq(a, c)
  }

  ghost predicate Ascending<T>(leq: Order, ls: seq<Layout<T>>) {
    forall i, j :: 0 <= i < j < |ls| ==> leq(ls[i].ty, ls[j].ty)
  }

  predicate DistinctTypes<T>(ls: seq<Layout<T>>) {
    forall i, j :: 0 <= i < j < |ls| ==> ls[i].ty != ls[j].ty
  }

  lemma {:induction false} PlaceKeeps<T>(leq: Order, layout: Layout<T>, sorted: seq<Layout<T>>)
    requires TotalOrder(leq) && Ascending(leq, sorted)
    ensures Ascending(leq, Place(leq, layout, sorted))
    ensures multiset(Place(leq, layout, sorted)) == multiset{layout} + multiset(sorted)
  {
    if sorted == [] || leq(layout.ty, sorted[0].ty) {
      forall j | 0 <= j < |sorted| ensures leq(layout.ty, sorted[j].ty) {
        if j > 0 { assert leq(sorted[0].ty, sorted[j].ty); }
      }
    } else {
      var rest := sorted[1..];
      PlaceKeeps(leq, layout, rest);
      assert sorted == [sorted[0]] + rest;
      AboveFirst(leq, sorted[0].ty, layout, rest, Place(leq, layout, rest));
    }
  }

  lemma AboveFirst<T>(leq: Order, first: WireType, layout: Layout<T>, rest: seq<Layout<T>>, placed: seq<Layout<T>>)
    requires multiset(placed) == multiset{layout} + multiset(rest) && leq(first, layout.ty)
    requires forall i :: 0 <= i < |rest| ==> leq(first, rest[i].ty)
    ensures forall j :: 0 <= j < |placed| ==> leq(first, placed[j].ty)
  {
    forall j | 0 <= j < |placed| ensures leq(first, placed[j].ty) {
      assert placed[j] in multiset(placed);
      if placed[j] != layout { assert placed[j] in multiset(rest); }
    }
  }

  lemma {:induction false} SortedIsSorted<T>(leq: Order, ls: seq<Layout<T>>)
    requires TotalOrder(leq)
    ensures Ascending(leq, Sorted(leq, ls)) && multiset(Sorted(leq, ls)) == multiset(ls)
  {
    if ls != [] {
      SortedIsSorted(leq, ls[1..]);
      PlaceKeeps(leq, ls[0], Sorted(leq, ls[1..]));
      assert ls == [ls[0]] + ls[1..];
    }
  }

  /** Layouts given by different types have one ascending arrangement. */
  lemma {:induction false} AscendingUnique<T>(leq: Order, a: seq<Layout<T>>, b: seq<Layout<T>>)
    requires TotalOrder(leq) && Ascending(leq, a) && Ascending(leq, b)
    requires multiset(a) == multiset(b) && DistinctTypes(a)
    ensures a == b
    decreases |a|
  {
    assert |multiset(a)| == |multiset(b)|;
    if a != [] {
      SameLeast(leq, a, b);
      WithoutFirst(a);
      WithoutFirst(b);
      AscendingUnique(leq, a[1..], b[1..]);
      assert a == [a[0]] + a[1..] && b == [b[0]] + b[1..];
    }
  }

  lemma SameLeast<T>(leq: Order, a: seq<Layout<T>>, b: seq<Layout<T>>)
    requires TotalOrder(leq) && Ascending(leq, a) && Ascending(leq, b)
    requires a != [] && b != [] && multiset(a) == multiset(b) && DistinctTypes(a)
    ensures a[0] == b[0]
  {
    assert a[0] in multiset(b) && b[0] in multiset(a);
    var i :| 0 <= i < |b| && b[i] == a[0];
    var j :| 0 <= j < |a| && a[j] == b[0];
    assert leq(b[0].ty, b[i].ty) && leq(a[0].ty, a[j].ty);
    assert a[0].ty == a[j].ty;
  }

  lemma WithoutFirst<T>(s: seq<Layout<T>>)
    requires s != []
    ensures multiset(s[1..]) == multiset(s) - multiset{s[0]}
  {
    assert s == [s[0]] + s[1..];
  }

  lemma SortedIgnoresOrder<T>(leq: Order, a: seq<Layout<T>>, b: seq<Layout<T>>)
    requires TotalOrder(leq) && multiset(a) == multiset(b) && DistinctTypes(a)
    ensures Sorted(leq, a) == Sorted(leq, b)
  {
    SortedIsSorted(leq, a);
    SortedIsSorted(leq, b);
    DistinctByMultiset(a, Sorted(leq, a));
    AscendingUnique(leq, Sorted(leq, a), Sorted(leq, b));
  }

  lemma {:induction false} DistinctByMultiset<T>(a: seq<Layout<T>>, b: seq<Layout<T>>)
    requires DistinctTypes(a) && multiset(a) == multiset(b)
    ensures DistinctTypes(b)
  {
    forall i, j | 0 <= i < j < |b| ensures b[i].ty != b[j].ty {
      if b[i].ty == b[j].ty {
        assert b[i] in multiset(a) && b[j] in multiset(a);
        var p :| 0 <= p < |a| && a[p] == b[i];
        var q :| 0 <= q < |a| && a[q] == b[j];
        assert p == q;
        assert b[i] == b[j];
        TwiceThere(b, i, j);
        OnceThere(a, p);
        assert false;
      }
    }
  }

  lemma TwiceThere<T>(b: seq<Layout<T>>, i: nat, j: nat)
    requires i < j < |b| && b[i] == b[j]
    ensures multiset(b)[b[i]] >= 2
  {
    assert b == b[..j] + [b[j]] + b[j + 1..];
    assert b[i] in b[..j];
  }

  lemma {:induction false} OnceThere<T>(a: seq<Layout<T>>, p: nat)
    requires p < |a| && DistinctTypes(a)
    ensures multiset(a)[a[p]] == 1
  {
    assert a == a[..p] + [a[p]] + a[p + 1..];
    assert a[p] !in a[..p] && a[p] !in a[p + 1..];
  }

  /** Layouts of distinct types give the same table in whatever order they are supplied. */
  lemma LayoutOrderDoesNotMatter(leq: Order, t: Table, a: seq<RecordLayout>, b: seq<RecordLayout>,
                                 c: seq<VariantLayout>, d: seq<VariantLayout>)
    requires TotalOrder(leq) && multiset(a) == multiset(b) && DistinctTypes(a) && multiset(c) == multiset(d) &&
      DistinctTypes(c)
    ensures WithRecords(leq, t, a) == WithRecords(leq, t, b) && WithVariants(leq, t, c) == WithVariants(leq, t, d)
  {
    SortedIgnoresOrder(leq, a, b);
    SortedIgnoresOrder(leq, c, d);
  }

  // ----- identities -----

  function Position(tys: seq<WireType>, ty: WireType): (r: Option<nat>)
    ensures r.Some? <==> ty in tys
    ensures r.Some? ==> r.value < |tys| && tys[r.value] == ty
  {
    if tys == [] then None
    else if tys[0] == ty then Some(0)
    else
      var r := Position(tys[1..], ty);
      if r.Some? then Some(r.value + 1) else None
  }

  function TypeId(t: Table, ty: WireType): Option<nat> {
    Position(t.types, ty)
  }

  function ResourceTypeId(t: Table, ty: WireType): Option<nat> {
    Position(t.resources, if ty.Qualified? then ty.value else ty)
  }

  // ----- the table as it is built -----

  class CallTypeTable {
    var types: seq<WireType>
    var resources: seq<WireType>
    var records: seq<RecordLayout>
    var variants: seq<VariantLayout>

    ghost function View(): Table
      reads this
    {
      Table(types, resources, records, variants)
    }

    constructor ()
      ensures View() == EMPTY
    {
      types, resources, records, variants := [], [], [], [];
    }

    /** `insert`: grow the two lists in place; on overflow the caller discards the table. */
    method InsertType(ty: WireType) returns (ok: bool)
      modifies this
      ensures ok <==> Insert(old(View()), ty).Inserted?
      ensures ok ==> Insert(old(View()), ty) == Inserted(View())
      decreases ty
    {
      var components := Components(ty);
      for i := 0 to |components|
        invariant InsertComponents(old(View()), ty, 0) == InsertComponents(View(), ty, i)
      {
        var inserted := InsertType(components[i]);
        if !inserted { return false; }
      }
      if ty !in types {
        if |types| > MAX_U32 { return false; }
        types := types + [ty];
      }
      var resource := ResourceOf(ty);
      if resource.Some? && resource.value !in resources {
        if |resources| > MAX_U32 { return false; }
        resources := resources + [resource.value];
      }
      ok := true;
    }

    method InsertEach(tys: seq<WireType>) returns (ok: bool)
      modifies this
      ensures ok <==> InsertAll(old(View()), tys).Inserted?
      ensures ok ==> InsertAll(old(View()), tys) == Inserted(View())
    {
      assert tys[0..] == tys;
      for i := 0 to |tys|
        invariant InsertAll(old(View()), tys) == InsertAll(View(), tys[i..])
      {
        assert tys[i..][0] == tys[i] && tys[i..][1..] == tys[i + 1..];
        var inserted := InsertType(tys[i]);
        if !inserted { return false; }
      }
      ok := true;
    }

    /** `for_signature`, on a new table. */
    method AddSignature(parameters: seq<WireType>, result: WireType) returns (ok: bool)
      requires View() == EMPTY
      modifies this
      ensures ok <==> ForSignature(parameters, result).Inserted?
      ensures ok ==> ForSignature(parameters, result) == Inserted(View())
    {
      ok := InsertEach(parameters + [result]);
    }

    /** `with_record_layouts`: sort, insert all types, then keep the layouts. */
    method AddRecords(leq: Order, layouts: seq<RecordLayout>) returns (ok: bool)
      modifies this
      ensures ok <==> WithRecords(leq, old(View()), layouts).Inserted?
      ensures ok ==> WithRecords(leq, old(View()), layouts) == Inserted(View())
    {
      var sorted := Sorted(leq, layouts);
      ok := InsertEach(RecordTypes(sorted));
      if ok { records := sorted; }
    }

    /** `with_variant_layouts`. */
    method AddVariants(leq: Order, layouts: seq<VariantLayout>) returns (ok: bool)
      modifies this
      ensures ok <==> WithVariants(leq, old(View()), layouts).Inserted?
      ensures ok ==> WithVariants(leq, old(View()), layouts) == Inserted(View())
    {
      var sorted := Sorted(leq, layouts);
      ok := InsertEach(VariantTypes(sorted));
      if ok { variants := sorted; }
    }
  }
}
