/** Instructions in wire form, the per-instruction checks, and the control-flow graph they induce.

    An instruction is an opcode with named JSON fields. Opcodes that steer control, touch the
    resource stack or change the meaning of a field have their own constructor; all the
    others are `Plain` and differ only in the fields they carry. */
module Bytecode {
  import opened ControlFlow

  /** A JSON value as the verifier inspects it; `Misc` is a bool, null, or a number that is not an index. */
  datatype Json = Num(n: nat) | Arr(items: seq<Json>) | Str(text: string) | Obj(members: map<string, Json>) | Misc

  datatype LoadKind = LoadUnit | LoadInt | LoadFloat | LoadBool | LoadString | LoadChar | LoadNone

  datatype Opcode =
    | Return | RuntimeError
    | Jump | JumpIfBool | JumpIfIntCompare
    | MatchOption | MatchResult | MatchVariant | MatchMapGet | MatchSortedMapGet
    | ResourceAcquire | ResourceDrop | TryResult
    | DeepCopy | DeepCopyElided
    | SelectWait | CallExternal | CallKnown | CallDynamic | SpawnTask | MakeClosure
    | ListGet | ListRemoveAt | ListSet
    | Load(kind: LoadKind) | IntOp(name: string) | CompareOp(name: string) | Move | Manage
    | StringConcat | StringBuilderFinish | ListLen | NativeClosureId | NativeFieldClosureId
    | MakeList | GetField | GetFieldSlot | MakeStruct
    | Plain(name: string)

  datatype Field =
    | Dst | ValueDst | Winner | Value
    | Src | Reg | Base | Lhs | Rhs | Cond | Resource | Map | List | Closure | Buffer | Builder
    | Left | Right | State | Folder | Predicate | Mapper | Values | Deque | Set | Callback | Compare
    | Key | Index
    | Args | Captures | Cleanup | Handles | Items | Fields | Entries
    | Target | SomeIp | NoneIp | OkIp | ErrIp | MatchIp | ElseIp
    | Callee | MutArgs | Expected | Operator | Message | Slot | Name | Layout | Dispatch
    | Other(name: string)

  datatype Instruction = TailCallGuard | Instr(opcode: Opcode, fields: map<Field, Json>)

  /** Fields that name one register in every opcode. */
  predicate ScalarName(field: Field) {
    || field.Src? || field.Reg? || field.Base? || field.Lhs? || field.Rhs? || field.Cond? || field.Resource?
    || field.Map? || field.List? || field.Closure? || field.Buffer? || field.Builder? || field.Left? || field.Right?
    || field.State? || field.Folder? || field.Predicate? || field.Mapper? || field.Values? || field.Deque?
    || field.Set? || field.Callback? || field.Compare?
  }

  predicate ListName(field: Field) {
    field.Args? || field.Captures? || field.Cleanup? || field.Handles? || field.Items?
  }

  predicate TargetName(field: Field) {
    field.Target? || field.SomeIp? || field.NoneIp? || field.OkIp? || field.ErrIp? || field.MatchIp? || field.ElseIp?
  }

  predicate ScalarRegisterField(op: Opcode, field: Field) {
    || ScalarName(field)
    || (field == Key && op != CallExternal)
    || (field == Value && !op.Load? && op != SelectWait)
    || (field == Index && (op == ListGet || op == ListRemoveAt || op == ListSet))
  }

  // ----- registers named by a JSON value -----

  predicate IsList(value: Json) {
    value.Arr? && forall i :: 0 <= i < |value.items| ==> value.items[i].Num?
  }

  function ListOf(value: Json): (registers: seq<nat>)
    requires IsList(value)
  {
    seq(|value.items|, i requires 0 <= i < |value.items| => value.items[i].n)
  }

  predicate HasPosition(entry: Json, position: nat) {
    entry.Arr? && position < |entry.items| && entry.items[position].Num?
  }

  predicate IsTuples(value: Json, positions: set<nat>) {
    && value.Arr?
    && forall i, p :: 0 <= i < |value.items| && p in positions ==> HasPosition(value.items[i], p)
  }

  function TupleRegisters(value: Json, positions: set<nat>): (registers: set<nat>)
    requires IsTuples(value, positions)
  {
    set i, p | 0 <= i < |value.items| && p in positions && HasPosition(value.items[i], p) :: value.items[i].items[p].n
  }

  // ----- what one field reads and writes, and its range check -----

  datatype Access = Malformed | Access(reading: set<nat>, writing: set<nat>)

  /** One step of `register_accesses`. */
  function FieldAccess(op: Opcode, field: Field, value: Json): Access {
    if field == Dst then
      if value.Num? then Access({}, {value.n}) else Malformed
    else if field == ValueDst then
      Access({}, {})
    else if op == SelectWait && (field == Winner || field == Value) then
      if value.Num? then Access({}, {value.n}) else Malformed
    else if ScalarRegisterField(op, field) then
      if value.Num? then Access({value.n}, {}) else Malformed
    else if ListName(field) then
      if IsList(value) then Access(set r | r in ListOf(value), {}) else Malformed
    else if field == Fields then
      if IsTuples(value, {1}) then Access(TupleRegisters(value, {1}), {}) else Malformed
    else if field == Entries then
      if IsTuples(value, {0, 1}) then Access(TupleRegisters(value, {0, 1}), {}) else Malformed
    else
      Access({}, {})
  }

  /** `verify_register_field`: the registers a field names lie below `registers`. */
  predicate FieldInRange(registers: nat, op: Opcode, field: Field, value: Json) {
    if || field == Dst || field == ValueDst
       || (op == SelectWait && (field == Winner || field == Value))
       || ScalarRegisterField(op, field)
    then value.Num? && value.n < registers
    else if ListName(field) then IsList(value) && forall r :: r in ListOf(value) ==> r < registers
    else if field == Fields then IsTuples(value, {1}) && forall r :: r in TupleRegisters(value, {1}) ==> r < registers
    else if field == Entries then
      IsTuples(value, {0, 1}) && forall r :: r in TupleRegisters(value, {0, 1}) ==> r < registers
    else true
  }

  function FieldAccesses(op: Opcode, fields: map<Field, Json>): map<Field, Access> {
    map f | f in fields :: FieldAccess(op, f, fields[f])
  }

  function Combined(parts: map<Field, Access>): Access {
    if exists f :: f in parts && parts[f].Malformed? then Malformed
    else Access(set f, r | f in parts && r in parts[f].reading :: r,
                set f, r | f in parts && r in parts[f].writing :: r)
  }

  /** The registers an instruction reads and writes, over all its fields. */
  function Accesses(op: Opcode, fields: map<Field, Json>): Access {
    WithCopies(op, Combined(FieldAccesses(op, fields)))
  }

  /** A deep copy writes back the register it reads. */
  function WithCopies(op: Opcode, all: Access): Access {
    if all.Access? && (op == DeepCopy || op == DeepCopyElided) then Access(all.reading, all.writing + all.reading)
    else all
  }

  /** `register_accesses`: collect field by field, in whatever order the map is iterated. */
  method RegisterAccesses(op: Opcode, fields: map<Field, Json>) returns (access: Access)
    ensures access == Accesses(op, fields)
  {
    var parts := FieldAccesses(op, fields);
    access := CollectFields(parts);
    if access.Access? && (op == DeepCopy || op == DeepCopyElided) {
      access := Access(access.reading, access.writing + access.reading);
    }
  }

  method CollectFields(parts: map<Field, Access>) returns (access: Access)
    ensures access == Combined(parts)
  {
    var reading: set<nat>, writing: set<nat> := {}, {};
    var rest := parts.Keys;
    while rest != {}
      invariant rest <= parts.Keys
      invariant forall f :: f in parts.Keys && f !in rest ==> parts[f].Access?
      invariant reading == set f, r | f in parts.Keys && f !in rest && r in parts[f].reading :: r
      invariant writing == set f, r | f in parts.Keys && f !in rest && r in parts[f].writing :: r
      decreases rest
    {
      var f :| f in rest;
      if parts[f].Malformed? { return Malformed; }
      reading, writing, rest := reading + parts[f].reading, writing + parts[f].writing, rest - {f};
    }
    access := Access(reading, writing);
  }

  // ----- the instruction check -----

  /** Exact field sets of the opcodes modelled by name. */
  function InstructionFields(op: Opcode): set<Field>
    requires !op.Plain?
  {
    match op
    case Return => {Src}
    case RuntimeError => {Message}
    case Jump => {Target}
    case JumpIfBool => {Cond, Expected, Target}
    case JumpIfIntCompare => {Lhs, Rhs, Operator, Expected, Target}
    case MatchOption => {Src, SomeIp, NoneIp}
    case MatchResult => {Src, OkIp, ErrIp}
    case MatchVariant => {Src, Expected, MatchIp, ElseIp}
    case MatchMapGet => {Map, Key, ValueDst, SomeIp, NoneIp}
    case MatchSortedMapGet => {Map, Key, ValueDst, SomeIp, NoneIp}
    case ResourceAcquire => {Resource}
    case ResourceDrop => {Resource}
    case TryResult => {Dst, Src, Cleanup}
    case DeepCopy => {Reg}
    case DeepCopyElided => {Reg}
    case SelectWait => {Handles, Winner, Value}
    case CallExternal => {Dst, Key, Args, MutArgs}
    case CallKnown => {Dst, Callee, Args, MutArgs}
    case CallDynamic => {Dst, Dispatch, Args, MutArgs}
    case SpawnTask => {Dst, Callee, Args}
    case MakeClosure => {Dst, Callee, Captures}
    case ListGet => {Dst, List, Index}
    case ListRemoveAt => {Dst, List, Index}
    case ListSet => {Dst, List, Index, Value}
    case Load(kind) => if kind == LoadUnit || kind == LoadNone then {Dst} else {Dst, Value}
    case IntOp(_) => {Dst, Lhs, Rhs}
    case CompareOp(_) => {Dst, Lhs, Rhs}
    case Move => {Dst, Src}
    case Manage => {Dst, Src}
    case StringConcat => {Dst, Left, Right}
    case StringBuilderFinish => {Dst, Builder}
    case ListLen => {Dst, List}
    case NativeClosureId => {Dst, Closure}
    case NativeFieldClosureId => {Dst, Base, Slot}
    case MakeList => {Dst, Items}
    case GetField => {Dst, Base, Name}
    case GetFieldSlot => {Dst, Base, Slot}
    case MakeStruct => {Dst, Layout, Fields}
  }

  /** The bounds one function body is checked against. */
  datatype Limits = Limits(registers: nat, codeLength: nat, functionCount: nat)

  /** `verify_wire_instruction`: exact fields, jump targets and callees in range, registers in range. */
  predicate WireOk(limits: Limits, instruction: Instruction) {
    match instruction
    case TailCallGuard => true
    case Instr(op, fields) =>
      && (!op.Plain? ==> fields.Keys == InstructionFields(op))
      && TargetsOk(limits, fields)
      && (op == MakeClosure || op == CallKnown || op == SpawnTask ==>
            fields[Callee].Num? && fields[Callee].n < limits.functionCount)
      && (op == CallDynamic ==> DispatchOk(limits, fields[Dispatch]))
      && RegistersOk(limits, op, fields)
  }

  predicate DispatchEntryOk(limits: Limits, entry: Json) {
    entry.Arr? && |entry.items| == 2 && entry.items[1].Num? && entry.items[1].n < limits.functionCount
  }

  /** A dispatch list: pairs of a type and an existing function. */
  predicate DispatchOk(limits: Limits, value: Json) {
    value.Arr? && forall k :: 0 <= k < |value.items| ==> DispatchEntryOk(limits, value.items[k])
  }

  predicate TargetsOk(limits: Limits, fields: map<Field, Json>) {
    forall f {:trigger TargetName(f)} ::
      f in fields && TargetName(f) ==> fields[f].Num? && fields[f].n < limits.codeLength
  }

  predicate RegistersOk(limits: Limits, op: Opcode, fields: map<Field, Json>) {
    forall f {:trigger FieldInRange(limits.registers, op, f, fields[f])} ::
      f in fields ==> FieldInRange(limits.registers, op, f, fields[f])
  }

  /** The jump target in a checked field. */
  function TargetAt(limits: Limits, fields: map<Field, Json>, f: Field): (ip: nat)
    requires TargetsOk(limits, fields) && f in fields && TargetName(f)
    ensures ip < limits.codeLength
  {
    fields[f].n
  }

  /** The register in a checked field. */
  function RegisterAt(limits: Limits, op: Opcode, fields: map<Field, Json>, f: Field): (r: nat)
    requires RegistersOk(limits, op, fields) && f in fields && (f == ValueDst || ScalarName(f))
    ensures r < limits.registers
  {
    assert FieldInRange(limits.registers, op, f, fields[f]);
    fields[f].n
  }

  /** The range check and the dataflow name the same registers: whatever passes the check reads and
      writes well-formed registers below the limit, and so is the register of the `some` edge. */
  lemma CheckedAccessesInRange(limits: Limits, op: Opcode, fields: map<Field, Json>)
    requires WireOk(limits, Instr(op, fields))
    ensures InRange(Accesses(op, fields), limits.registers)
    ensures ValueDst in fields ==> fields[ValueDst].Num? && fields[ValueDst].n < limits.registers
  {
    AccessesInRange(limits.registers, op, fields);
    if ValueDst in fields { assert FieldInRange(limits.registers, op, ValueDst, fields[ValueDst]); }
  }

  lemma AccessesInRange(registers: nat, op: Opcode, fields: map<Field, Json>)
    requires forall f :: f in fields ==> FieldInRange(registers, op, f, fields[f])
    ensures InRange(Accesses(op, fields), registers)
  {
    PartsInRange(registers, op, fields);
    CombinedInRange(FieldAccesses(op, fields), registers);
    CopiesInRange(op, Combined(FieldAccesses(op, fields)), registers);
  }

  lemma CopiesInRange(op: Opcode, all: Access, registers: nat)
    requires InRange(all, registers)
    ensures InRange(WithCopies(op, all), registers)
  {
  }

  lemma PartsInRange(registers: nat, op: Opcode, fields: map<Field, Json>)
    requires forall f :: f in fields ==> FieldInRange(registers, op, f, fields[f])
    ensures forall f :: f in FieldAccesses(op, fields) ==> InRange(FieldAccesses(op, fields)[f], registers)
  {
    forall f | f in fields ensures InRange(FieldAccess(op, f, fields[f]), registers) {
      FieldAccessInRange(registers, op, f, fields[f]);
    }
  }

  lemma ListFieldChecked(registers: nat, op: Opcode, field: Field, value: Json)
    requires ListName(field) && FieldInRange(registers, op, field, value)
    ensures IsList(value) && forall r :: r in ListOf(value) ==> r < registers
  {
  }

  ghost predicate InRange(access: Access, registers: nat) {
    && access.Access?
    && (forall r :: r in access.reading ==> r < registers)
    && forall r :: r in access.writing ==> r < registers
  }

  lemma FieldAccessInRange(registers: nat, op: Opcode, field: Field, value: Json)
    requires FieldInRange(registers, op, field, value)
    ensures InRange(FieldAccess(op, field, value), registers)
  {
  }

  lemma CombinedInRange(parts: map<Field, Access>, registers: nat)
    requires forall f :: f in parts ==> InRange(parts[f], registers)
    ensures InRange(Combined(parts), registers)
  {
    var all := Combined(parts);
    assert all.Access?;
    forall r | r in all.reading ensures r < registers {
      var f :| f in parts && r in parts[f].reading;
      assert InRange(parts[f], registers);
    }
  }

  // ----- the control-flow graph -----

  /** An edge into the body that writes registers below the limit. */
  predicate EdgeOk(limits: Limits, e: Edge) {
    e.target < limits.codeLength && forall r :: r in e.defs ==> r < limits.registers
  }

  predicate EdgesOk(limits: Limits, edges: seq<Edge>) {
    |edges| <= 2 && forall k :: 0 <= k < |edges| ==> EdgeOk(limits, edges[k])
  }

  function Fallthrough(limits: Limits, ip: nat): (edges: seq<Edge>)
    ensures |edges| <= 1 && EdgesOk(limits, edges)
  {
    if ip + 1 < limits.codeLength then [Edge(ip + 1, {})] else []
  }

  function Branch(limits: Limits, fields: map<Field, Json>, f: Field): (e: Edge)
    requires TargetsOk(limits, fields) && f in fields && TargetName(f)
    ensures EdgeOk(limits, e)
  {
    Edge(TargetAt(limits, fields, f), {})
  }

  /** The `some` edge of a map lookup, which sets `value_dst`. */
  function FoundBranch(limits: Limits, op: Opcode, fields: map<Field, Json>): (e: Edge)
    requires TargetsOk(limits, fields) && RegistersOk(limits, op, fields) && SomeIp in fields && ValueDst in fields
    ensures EdgeOk(limits, e)
  {
    Edge(TargetAt(limits, fields, SomeIp), {RegisterAt(limits, op, fields, ValueDst)})
  }

  /** The out-edges the two dataflow passes follow, in their order. */
  function Edges(limits: Limits, ip: nat, instruction: Instruction): (edges: seq<Edge>)
    requires WireOk(limits, instruction)
    ensures EdgesOk(limits, edges)
  {
    match instruction
    case TailCallGuard => Fallthrough(limits, ip)
    case Instr(op, fields) =>
      match op
      case Return => []
      case RuntimeError => []
      case Jump => [Branch(limits, fields, Target)]
      case JumpIfBool => [Branch(limits, fields, Target)] + Fallthrough(limits, ip)
      case JumpIfIntCompare => [Branch(limits, fields, Target)] + Fallthrough(limits, ip)
      case MatchOption => [Branch(limits, fields, SomeIp), Branch(limits, fields, NoneIp)]
      case MatchResult => [Branch(limits, fields, OkIp), Branch(limits, fields, ErrIp)]
      case MatchVariant => [Branch(limits, fields, MatchIp), Branch(limits, fields, ElseIp)]
      case MatchMapGet => [FoundBranch(limits, op, fields), Branch(limits, fields, NoneIp)]
      case MatchSortedMapGet => [FoundBranch(limits, op, fields), Branch(limits, fields, NoneIp)]
      case _ => Fallthrough(limits, ip)
  }

  /** Opcodes whose control can pass to the next instruction. */
  predicate FallsThrough(instruction: Instruction) {
    instruction.Instr? ==>
      match instruction.opcode
      case Return => false
      case RuntimeError => false
      case Jump => false
      case MatchOption => false
      case MatchResult => false
      case MatchVariant => false
      case MatchMapGet => false
      case MatchSortedMapGet => false
      case _ => true
  }

  function EffectOf(limits: Limits, instruction: Instruction): Effect
    requires WireOk(limits, instruction)
  {
    match instruction
    case TailCallGuard => NoEffect
    case Instr(op, fields) =>
      match op
      case ResourceAcquire => Acquire(RegisterAt(limits, op, fields, Resource))
      case ResourceDrop => Drop(RegisterAt(limits, op, fields, Resource))
      case TryResult =>
        ListFieldChecked(limits.registers, op, Cleanup, fields[Cleanup]);
        Unwind(ListOf(fields[Cleanup]))
      case Return => Exit
      case _ => NoEffect
  }

  function AccessOf(limits: Limits, instruction: Instruction): (access: Access)
    requires WireOk(limits, instruction)
    ensures InRange(access, limits.registers)
  {
    match instruction
    case TailCallGuard => Access({}, {})
    case Instr(op, fields) =>
      CheckedAccessesInRange(limits, op, fields);
      Accesses(op, fields)
  }

  function NodeOf(limits: Limits, ip: nat, instruction: Instruction): Node
    requires WireOk(limits, instruction)
  {
    var access := AccessOf(limits, instruction);
    Node(access.reading, access.writing, EffectOf(limits, instruction), Edges(limits, ip, instruction),
         FallsThrough(instruction) && ip + 1 >= limits.codeLength)
  }

  // ----- a function body -----

  /** `drops` names the resource fields preloaded when the function is a resource-drop function. */
  datatype Function = Function(name: string, params: nat, captures: nat, registers: nat,
                               locals: map<string, nat>, drops: seq<string>, code: seq<Instruction>)

  function LimitsOf(f: Function, functionCount: nat): Limits {
    Limits(f.registers, |f.code|, functionCount)
  }

  /** The shape checks that come before the dataflow passes. */
  predicate ShapeOk(f: Function, functionCount: nat) {
    && f.params + f.captures <= f.registers
    && (forall local :: local in f.locals ==> f.locals[local] < f.registers)
    && (forall d :: d in f.drops ==> d in f.locals)
    && forall ip :: 0 <= ip < |f.code| ==> WireOk(LimitsOf(f, functionCount), f.code[ip])
  }

  function GraphOf(f: Function, functionCount: nat): Graph
    requires ShapeOk(f, functionCount)
  {
    seq(|f.code|, ip requires 0 <= ip < |f.code| => NodeOf(LimitsOf(f, functionCount), ip, f.code[ip]))
  }

  function Range(n: nat): (s: set<nat>)
    ensures forall r: nat :: r in s <==> r < n
  {
    if n == 0 then {} else Range(n - 1) + {n - 1}
  }

  /** The registers holding parameters, captures and, in a drop function, the resource's fields. */
  function InitialRegisters(f: Function): set<nat>
    requires forall d :: d in f.drops ==> d in f.locals
  {
    Range(f.params + f.captures) + set d | d in f.drops :: f.locals[d]
  }

  lemma GraphIsClosed(f: Function, functionCount: nat)
    requires ShapeOk(f, functionCount)
    ensures Closed(GraphOf(f, functionCount))
  {
  }
}
