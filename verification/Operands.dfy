/** Which registers an instruction needs and fills, opcode by opcode.

    The verifier tells operands by field names, for all opcodes alike. Here they are listed for each opcode, and the two
    are shown to agree on every instruction that passes the wire check. */
module Operands {
  import opened Bytecode

  // ----- operands and results, opcode by opcode -----

  /** Fields that name one register the instruction needs. */
  predicate IsOperand(op: Opcode, f: Field) {
    match op
    case Return | MatchOption | MatchResult | MatchVariant | TryResult | Move | Manage => f.Src?
    case JumpIfBool => f.Cond?
    case JumpIfIntCompare | IntOp(_) | CompareOp(_) => f.Lhs? || f.Rhs?
    case MatchMapGet | MatchSortedMapGet => f.Map? || f.Key?
    case ResourceAcquire | ResourceDrop => f.Resource?
    case DeepCopy | DeepCopyElided => f.Reg?
    case ListGet | ListRemoveAt => f.List? || f.Index?
    case ListSet => f.List? || f.Index? || f.Value?
    case StringConcat => f.Left? || f.Right?
    case StringBuilderFinish => f.Builder?
    case ListLen => f.List?
    case NativeClosureId => f.Closure?
    case NativeFieldClosureId | GetField | GetFieldSlot => f.Base?
    case Plain(_) =>
      || f.Src? || f.Reg? || f.Base? || f.Lhs? || f.Rhs? || f.Cond? || f.Resource? || f.Map?
      || f.List? || f.Closure? || f.Buffer? || f.Builder? || f.Left? || f.Right? || f.State?
      || f.Folder? || f.Predicate? || f.Mapper? || f.Values? || f.Deque? || f.Set? || f.Callback?
      || f.Compare? || f.Key? || f.Value?
    case _ => false
  }

  /** Fields that list registers the instruction needs. */
  predicate IsOperandList(op: Opcode, f: Field) {
    match op
    case CallExternal | CallKnown | CallDynamic | SpawnTask => f.Args?
    case MakeClosure => f.Captures?
    case TryResult => f.Cleanup?
    case SelectWait => f.Handles?
    case MakeList => f.Items?
    case Plain(_) => f.Args? || f.Captures? || f.Cleanup? || f.Handles? || f.Items?
    case _ => false
  }

  /** Fields that name one register the instruction fills, whatever it finds. */
  predicate IsResult(op: Opcode, f: Field) {
    match op
    case Return | RuntimeError | Jump | JumpIfBool | JumpIfIntCompare => false
    case MatchOption | MatchResult | MatchVariant | MatchMapGet | MatchSortedMapGet => false
    case ResourceAcquire | ResourceDrop => false
    case DeepCopy | DeepCopyElided => f.Reg?
    case SelectWait => f.Winner? || f.Value?
    case _ => f.Dst?
  }

  predicate Names(i: Instruction, field: Field, n: nat) {
    i.Instr? && field in i.fields && i.fields[field] == Num(n)
  }

  predicate Listed(i: Instruction, field: Field, r: nat) {
    i.Instr? && field in i.fields && i.fields[field].Arr? && Num(r) in i.fields[field].items
  }

  /** Some entry of the field is a list with register `r` at `position`. */
  predicate Paired(i: Instruction, field: Field, position: nat, r: nat) {
    && i.Instr? && field in i.fields && i.fields[field].Arr?
    && exists k :: 0 <= k < |i.fields[field].items| && HasPosition(i.fields[field].items[k], position)
         && i.fields[field].items[k].items[position].n == r
  }

  ghost predicate Needs(i: Instruction, r: nat) {
    i.Instr? &&
    (|| (exists f :: IsOperand(i.opcode, f) && Names(i, f, r))
     || (exists f :: IsOperandList(i.opcode, f) && Listed(i, f, r))
     || ((i.opcode.MakeStruct? || i.opcode.Plain?) && Paired(i, Fields, 1, r))
     || (i.opcode.Plain? && (Paired(i, Entries, 0, r) || Paired(i, Entries, 1, r))))
  }

  // ----- the verifier's reads and writes -----

  predicate HasAt(value: Json, position: nat, r: nat) {
    && value.Arr?
    && exists k :: 0 <= k < |value.items| && HasPosition(value.items[k], position)
         && value.items[k].items[position].n == r
  }

  /** One field's share of `Needs`. */
  predicate FieldNeeds(op: Opcode, f: Field, value: Json, r: nat) {
    ByKind(IsOperand(op, f), IsOperandList(op, f), (op.MakeStruct? || op.Plain?) && f == Fields,
           op.Plain? && f == Entries, value, r)
  }

  predicate ByKind(operand: bool, list: bool, pairs: bool, entries: bool, value: Json, r: nat) {
    || (operand && value == Num(r))
    || (list && value.Arr? && Num(r) in value.items)
    || (pairs && HasAt(value, 1, r))
    || (entries && (HasAt(value, 0, r) || HasAt(value, 1, r)))
  }

  predicate HasField(op: Opcode, f: Field) {
    op.Plain? || f in InstructionFields(op)
  }

  /** The verifier's way of telling operand fields, which goes by field names, agrees with the tables above. */
  predicate Classified(op: Opcode, f: Field) {
    && (IsOperand(op, f) <==> ScalarRegisterField(op, f))
    && (IsOperandList(op, f) <==> ListName(f))
    && (f == Fields ==> op.MakeStruct? || op.Plain?) && (f == Entries ==> op.Plain?)
  }

  lemma FieldsAreClassified(op: Opcode, f: Field)
    requires HasField(op, f)
    ensures Classified(op, f)
  {
    if op.Plain? {
      PlainFields(op, f);
    } else if op.Return? || op.RuntimeError? || op.Jump? {
      LeaveFields(op, f);
    } else if op.JumpIfBool? || op.JumpIfIntCompare? {
      JumpFields(op, f);
    } else if op.MatchOption? || op.MatchResult? {
      MatchFields(op, f);
    } else if op.MatchVariant? {
      VariantFields(op, f);
    } else if op.MatchMapGet? || op.MatchSortedMapGet? {
      LookupFields(op, f);
    } else if op.ResourceAcquire? || op.ResourceDrop? || op.TryResult? {
      ScopeFields(op, f);
    } else if op.DeepCopy? || op.DeepCopyElided? || op.SelectWait? {
      CopyFields(op, f);
    } else if op.CallExternal? || op.CallKnown? || op.CallDynamic? {
      CallFields(op, f);
    } else if op.SpawnTask? || op.MakeClosure? {
      TaskFields(op, f);
    } else if op.Load? || op.IntOp? || op.CompareOp? {
      ScalarFields(op, f);
    } else if op.Move? || op.Manage? || op.StringConcat? || op.StringBuilderFinish? {
      TransferFields(op, f);
    } else if op.ListGet? || op.ListRemoveAt? || op.ListSet? || op.ListLen? {
      ListFields(op, f);
    } else if op.NativeClosureId? || op.NativeFieldClosureId? {
      ClosureFields(op, f);
    } else if op.GetField? || op.GetFieldSlot? {
      FieldFields(op, f);
    } else {
      MadeFields(op, f);
    }
  }

  lemma PlainFields(op: Opcode, f: Field)
    requires op.Plain?
    ensures Classified(op, f)
  {
  }

  lemma LeaveFields(op: Opcode, f: Field)
    requires (op.Return? || op.RuntimeError? || op.Jump?) && f in InstructionFields(op)
    ensures Classified(op, f)
  {
    assert op.Return? ==> f.Src?;
    assert op.RuntimeError? ==> f.Message?;
    assert op.Jump? ==> f.Target?;
  }

  lemma JumpFields(op: Opcode, f: Field)
    requires (op.JumpIfBool? || op.JumpIfIntCompare?) && f in InstructionFields(op)
    ensures Classified(op, f)
  {
    assert op.JumpIfBool? ==> f.Cond? || f.Expected? || f.Target?;
    assert op.JumpIfIntCompare? ==> f.Lhs? || f.Rhs? || f.Operator? || f.Expected? || f.Target?;
  }

  lemma MatchFields(op: Opcode, f: Field)
    requires (op.MatchOption? || op.MatchResult?) && f in InstructionFields(op)
    ensures Classified(op, f)
  {
    assert op.MatchOption? ==> f.Src? || f.SomeIp? || f.NoneIp?;
    assert op.MatchResult? ==> f.Src? || f.OkIp? || f.ErrIp?;
  }

  lemma VariantFields(op: Opcode, f: Field)
    requires op.MatchVariant? && f in InstructionFields(op)
    ensures Classified(op, f)
  {
    assert f.Src? || f.Expected? || f.MatchIp? || f.ElseIp?;
  }

  lemma LookupFields(op: Opcode, f: Field)
    requires (op.MatchMapGet? || op.MatchSortedMapGet?) && f in InstructionFields(op)
    ensures Classified(op, f)
  {
    assert op.MatchMapGet? ==> f.Map? || f.Key? || f.ValueDst? || f.SomeIp? || f.NoneIp?;
    assert op.MatchSortedMapGet? ==> f.Map? || f.Key? || f.ValueDst? || f.SomeIp? || f.NoneIp?;
  }

  lemma ScopeFields(op: Opcode, f: Field)
    requires (op.ResourceAcquire? || op.ResourceDrop? || op.TryResult?) && f in InstructionFields(op)
    ensures Classified(op, f)
  {
    assert op.ResourceAcquire? ==> f.Resource?;
    assert op.ResourceDrop? ==> f.Resource?;
    assert op.TryResult? ==> f.Dst? || f.Src? || f.Cleanup?;
  }

  lemma CopyFields(op: Opcode, f: Field)
    requires (op.DeepCopy? || op.DeepCopyElided? || op.SelectWait?) && f in InstructionFields(op)
    ensures Classified(op, f)
  {
    assert op.DeepCopy? ==> f.Reg?;
    assert op.DeepCopyElided? ==> f.Reg?;
    assert op.SelectWait? ==> f.Handles? || f.Winner? || f.Value?;
  }

  lemma CallFields(op: Opcode, f: Field)
    requires (op.CallExternal? || op.CallKnown? || op.CallDynamic?) && f in InstructionFields(op)
    ensures Classified(op, f)
  {
    assert op.CallExternal? ==> f.Dst? || f.Key? || f.Args? || f.MutArgs?;
    assert op.CallKnown? ==> f.Dst? || f.Callee? || f.Args? || f.MutArgs?;
    assert op.CallDynamic? ==> f.Dst? || f.Dispatch? || f.Args? || f.MutArgs?;
  }

  lemma TaskFields(op: Opcode, f: Field)
    requires (op.SpawnTask? || op.MakeClosure?) && f in InstructionFields(op)
    ensures Classified(op, f)
  {
    assert op.SpawnTask? ==> f.Dst? || f.Callee? || f.Args?;
    assert op.MakeClosure? ==> f.Dst? || f.Callee? || f.Captures?;
  }

  lemma ScalarFields(op: Opcode, f: Field)
    requires (op.Load? || op.IntOp? || op.CompareOp?) && f in InstructionFields(op)
    ensures Classified(op, f)
  {
    assert op.Load? ==> f.Dst? || f.Value?;
    assert op.IntOp? ==> f.Dst? || f.Lhs? || f.Rhs?;
    assert op.CompareOp? ==> f.Dst? || f.Lhs? || f.Rhs?;
  }

  lemma TransferFields(op: Opcode, f: Field)
    requires (op.Move? || op.Manage? || op.StringConcat? || op.StringBuilderFinish?) && f in InstructionFields(op)
    ensures Classified(op, f)
  {
    assert op.Move? ==> f.Dst? || f.Src?;
    assert op.Manage? ==> f.Dst? || f.Src?;
    assert op.StringConcat? ==> f.Dst? || f.Left? || f.Right?;
    assert op.StringBuilderFinish? ==> f.Dst? || f.Builder?;
  }

  lemma ListFields(op: Opcode, f: Field)
    requires (op.ListGet? || op.ListRemoveAt? || op.ListSet? || op.ListLen?) && f in InstructionFields(op)
    ensures Classified(op, f)
  {
    assert op.ListGet? ==> f.Dst? || f.List? || f.Index?;
    assert op.ListRemoveAt? ==> f.Dst? || f.List? || f.Index?;
    assert op.ListSet? ==> f.Dst? || f.List? || f.Index? || f.Value?;
    assert op.ListLen? ==> f.Dst? || f.List?;
  }

  lemma ClosureFields(op: Opcode, f: Field)
    requires (op.NativeClosureId? || op.NativeFieldClosureId?) && f in InstructionFields(op)
    ensures Classified(op, f)
  {
    assert op.NativeClosureId? ==> f.Dst? || f.Closure?;
    assert op.NativeFieldClosureId? ==> f.Dst? || f.Base? || f.Slot?;
  }

  lemma FieldFields(op: Opcode, f: Field)
    requires (op.GetField? || op.GetFieldSlot?) && f in InstructionFields(op)
    ensures Classified(op, f)
  {
    assert op.GetField? ==> f.Dst? || f.Base? || f.Name?;
    assert op.GetFieldSlot? ==> f.Dst? || f.Base? || f.Slot?;
  }

  lemma MadeFields(op: Opcode, f: Field)
    requires (op.MakeList? || op.MakeStruct?) && f in InstructionFields(op)
    ensures Classified(op, f)
  {
    assert op.MakeList? ==> f.Dst? || f.Items?;
    assert op.MakeStruct? ==> f.Dst? || f.Layout? || f.Fields?;
  }

  lemma ResultsAreWritten(op: Opcode, f: Field)
    requires HasField(op, f)
    ensures IsResult(op, f) <==>
      || f == Dst || (op.SelectWait? && (f == Winner || f == Value))
      || ((op.DeepCopy? || op.DeepCopyElided?) && f == Reg)
  {
  }

  lemma ListRegisters(value: Json, r: nat)
    requires IsList(value)
    ensures r in ListOf(value) <==> Num(r) in value.items
  {
    if r in ListOf(value) {
      var k :| 0 <= k < |ListOf(value)| && ListOf(value)[k] == r;
      assert value.items[k] == Num(r);
    }
    if Num(r) in value.items {
      var k :| 0 <= k < |value.items| && value.items[k] == Num(r);
      assert ListOf(value)[k] == r;
    }
  }

  lemma FieldReads(registers: nat, op: Opcode, f: Field, value: Json, r: nat)
    requires HasField(op, f) && FieldInRange(registers, op, f, value)
    ensures FieldAccess(op, f, value).Access?
    ensures r in FieldAccess(op, f, value).reading <==> FieldNeeds(op, f, value, r)
  {
    FieldsAreClassified(op, f);
    ReadsByName(registers, op, f, value, r);
  }

  lemma ReadsByName(registers: nat, op: Opcode, f: Field, value: Json, r: nat)
    requires FieldInRange(registers, op, f, value)
    ensures FieldAccess(op, f, value).Access?
    ensures r in FieldAccess(op, f, value).reading <==>
      ByKind(ScalarRegisterField(op, f), ListName(f), f == Fields, f == Entries, value, r)
  {
    if ScalarRegisterField(op, f) {
      ScalarIsRead(registers, op, f, value);
    } else if ListName(f) {
      ListIsRead(registers, op, f, value, r);
    } else {
      RestIsRead(registers, op, f, value, r);
    }
  }

  lemma ScalarIsRead(registers: nat, op: Opcode, f: Field, value: Json)
    requires FieldInRange(registers, op, f, value) && ScalarRegisterField(op, f)
    ensures value.Num? && FieldAccess(op, f, value) == Access({value.n}, {})
    ensures !ListName(f) && f != Fields && f != Entries
  {
  }

  lemma ListIsRead(registers: nat, op: Opcode, f: Field, value: Json, r: nat)
    requires FieldInRange(registers, op, f, value) && ListName(f)
    ensures FieldAccess(op, f, value).Access? && value.Arr? && f != Fields && f != Entries
    ensures r in FieldAccess(op, f, value).reading <==> Num(r) in value.items
  {
    ListRegisters(value, r);
  }

  lemma RestIsRead(registers: nat, op: Opcode, f: Field, value: Json, r: nat)
    requires FieldInRange(registers, op, f, value) && !ScalarRegisterField(op, f) && !ListName(f)
    ensures FieldAccess(op, f, value).Access?
    ensures r in FieldAccess(op, f, value).reading <==>
      (f == Fields && HasAt(value, 1, r)) || (f == Entries && (HasAt(value, 0, r) || HasAt(value, 1, r)))
  {
    if f == Fields {
      TuplesHave(value, {1}, r);
    } else if f == Entries {
      TuplesHave(value, {0, 1}, r);
    }
  }

  lemma TuplesHave(value: Json, positions: set<nat>, r: nat)
    requires IsTuples(value, positions)
    ensures r in TupleRegisters(value, positions) <==> exists p :: p in positions && HasAt(value, p, r)
  {
  }

  lemma FieldWrites(registers: nat, op: Opcode, f: Field, value: Json, r: nat)
    requires HasField(op, f) && FieldInRange(registers, op, f, value)
    ensures r in FieldAccess(op, f, value).writing <==>
      (f == Dst || (op.SelectWait? && (f == Winner || f == Value))) && value == Num(r)
  {
  }

  /** An instruction reads, for the verifier, exactly the registers it needs. */
  lemma ReadsExactly(limits: Limits, i: Instruction, r: nat)
    requires WireOk(limits, i)
    ensures r in AccessOf(limits, i).reading <==> Needs(i, r)
  {
    if i.Instr? {
      var parts := FieldAccesses(i.opcode, i.fields);
      forall f | f in i.fields
        ensures parts[f].Access? && (r in parts[f].reading <==> FieldNeeds(i.opcode, f, i.fields[f], r))
      {
        assert FieldInRange(limits.registers, i.opcode, f, i.fields[f]);
        FieldReads(limits.registers, i.opcode, f, i.fields[f], r);
      }
      assert r in AccessOf(limits, i).reading <==> exists f :: f in parts && r in parts[f].reading;
      NeedsByField(i, r);
    }
  }

  lemma NeedsByField(i: Instruction, r: nat)
    requires i.Instr?
    ensures Needs(i, r) <==> exists f :: f in i.fields && FieldNeeds(i.opcode, f, i.fields[f], r)
  {
    forall f ensures f in i.fields ==> (Paired(i, f, 0, r) <==> HasAt(i.fields[f], 0, r)) { }
    forall f ensures f in i.fields ==> (Paired(i, f, 1, r) <==> HasAt(i.fields[f], 1, r)) { }
    if Needs(i, r) {
      if f :| IsOperand(i.opcode, f) && Names(i, f, r) {
        assert FieldNeeds(i.opcode, f, i.fields[f], r);
      } else if f :| IsOperandList(i.opcode, f) && Listed(i, f, r) {
        assert FieldNeeds(i.opcode, f, i.fields[f], r);
      } else if Paired(i, Fields, 1, r) && (i.opcode.MakeStruct? || i.opcode.Plain?) {
        assert FieldNeeds(i.opcode, Fields, i.fields[Fields], r);
      } else {
        assert FieldNeeds(i.opcode, Entries, i.fields[Entries], r);
      }
    }
  }

  lemma FieldsWrite(limits: Limits, op: Opcode, fields: map<Field, Json>, r: nat)
    requires WireOk(limits, Instr(op, fields))
    ensures Combined(FieldAccesses(op, fields)).Access?
    ensures r in Combined(FieldAccesses(op, fields)).writing <==>
      exists f :: f in fields && (f == Dst || (op.SelectWait? && (f == Winner || f == Value))) && fields[f] == Num(r)
  {
    var parts := FieldAccesses(op, fields);
    forall f | f in fields
      ensures parts[f].Access? && (r in parts[f].writing <==>
        (f == Dst || (op.SelectWait? && (f == Winner || f == Value))) && fields[f] == Num(r))
    {
      assert FieldInRange(limits.registers, op, f, fields[f]);
      FieldReads(limits.registers, op, f, fields[f], r);
      FieldWrites(limits.registers, op, f, fields[f], r);
    }
    assert r in Combined(parts).writing <==> exists f :: f in parts && r in parts[f].writing;
  }

  /** It writes, whatever it finds, exactly the registers its result fields name. */
  lemma WritesExactly(limits: Limits, i: Instruction, r: nat)
    requires WireOk(limits, i)
    ensures r in AccessOf(limits, i).writing <==> i.Instr? && exists f :: IsResult(i.opcode, f) && Names(i, f, r)
  {
    if i.Instr? {
      FieldsWrite(limits, i.opcode, i.fields, r);
      forall f | f in i.fields ensures IsResult(i.opcode, f) <==>
        || f == Dst || (i.opcode.SelectWait? && (f == Winner || f == Value))
        || ((i.opcode.DeepCopy? || i.opcode.DeepCopyElided?) && f == Reg)
      {
        ResultsAreWritten(i.opcode, f);
      }
      if i.opcode.DeepCopy? || i.opcode.DeepCopyElided? { ReadsExactly(limits, i, r); }
    }
  }
}
