/** What accepted typed facts mean at run time.

    The machine itself is not part of this model: a step writes any value its opcode can produce, moves along an edge
    of the control-flow graph, enters a direct call, or returns from one. Every run, at every call depth, then keeps
    each written register inside its declared type up to top-level qualifiers. */
module TypePreservation {
  import opened ControlFlow
  import opened WireTypes
  import opened Generics
  import opened TypedFacts
  import B = Bytecode

  /** Runtime values; `ForeignV` is any value of another type, reaching a function as an argument. */
  datatype Value =
    | UnitV
    | IntV(i: int)
    | FloatV(x: real)
    | BoolV(b: bool)
    | StringV(s: string)
    | CharV(c: char)
    | ForeignV(ty: WireType)

  function TypeOf(v: Value): WireType {
    match v
    case UnitV => Unit
    case IntV(_) => Int(64, true)
    case FloatV(_) => Float(64)
    case BoolV(_) => Bool
    case StringV(_) => String
    case CharV(_) => Char
    case ForeignV(ty) => ty
  }

  predicate HasType(v: Value, fact: FactType) {
    fact.Known? && Strip(TypeOf(v)) == Strip(fact.ty)
  }

  datatype Frame = Frame(fn: nat, ip: nat, regs: map<nat, Value>)

  /** The call stack: the running frame on top of its suspended callers. */
  datatype State = Empty | Push(callers: State, top: Frame)

  predicate OnStack(s: State, fr: Frame) {
    s.Push? && (s.top == fr || OnStack(s.callers, fr))
  }

  /** The instructions covered: scalar loads, integer, string and comparison operators, moves, lists built from
      registers, record fields, jumps, returns, and direct calls without mutable arguments. */
  predicate InFragment(i: B.Instruction) {
    i.Instr? &&
    match i.opcode
    case Load(kind) => kind != B.LoadNone
    case IntOp(_) => true
    case ListLen => true
    case NativeClosureId => true
    case NativeFieldClosureId => true
    case StringConcat => true
    case StringBuilderFinish => true
    case CompareOp(_) => true
    case Move => true
    case Manage => true
    case MakeList => true
    case GetField => true
    case GetFieldSlot => true
    case Jump => true
    case JumpIfBool => true
    case JumpIfIntCompare => true
    case Return => true
    case RuntimeError => true
    case CallKnown => B.MutArgs in i.fields && i.fields[B.MutArgs] == B.Arr([])
    case _ => false
  }

  predicate AllKnown(registers: seq<FactType>) {
    forall r :: 0 <= r < |registers| ==> registers[r].Known?
  }

  ghost predicate Covered(u: ExecutableUnit, facts: seq<FunctionFacts>) {
    && FactsOk(u, facts)
    && forall f: nat :: f < |u.functions| ==>
         && AllKnown(facts[f].registers)
         && forall ip: nat :: ip < |u.functions[f].code| ==>
              && InFragment(u.functions[f].code[ip])
              && (IsDirectCall(u.functions[f].code[ip]) ==>
                    ExactCall(facts[f].calls[ip].call,
                              SignatureOf(u, CalleeOf(LimitsAt(u, f), u.functions[f].code[ip]))))
  }

  // ----- steps -----

  predicate Running(u: ExecutableUnit, fr: Frame) {
    fr.fn < |u.functions| && fr.ip < |u.functions[fr.fn].code|
  }

  function Current(u: ExecutableUnit, fr: Frame): B.Instruction
    requires Running(u, fr)
  {
    u.functions[fr.fn].code[fr.ip]
  }

  predicate NamesRegister(i: B.Instruction, field: B.Field) {
    i.Instr? && field in i.fields && i.fields[field].Num?
  }

  /** `ip` follows the frame's instruction in the control-flow graph. */
  ghost predicate Follows(u: ExecutableUnit, fr: Frame, ip: nat)
    requires BodiesOk(u) && Running(u, fr)
  {
    var g := B.GraphOf(u.functions[fr.fn], |u.functions|);
    exists k: nat :: HasEdge(g, fr.ip, k) && g[fr.ip].edges[k].target == ip
  }

  /** The values a load instruction can produce. */
  predicate Loads(kind: B.LoadKind, v: Value) {
    match kind
    case LoadUnit => v.UnitV?
    case LoadInt => v.IntV?
    case LoadFloat => v.FloatV?
    case LoadBool => v.BoolV?
    case LoadString => v.StringV?
    case LoadChar => v.CharV?
    case LoadNone => false
  }

  /** The `k`-th listed register holds a value of type `ty`, up to top-level qualifiers. */
  predicate ItemHolds(items: seq<B.Json>, regs: map<nat, Value>, k: nat, ty: WireType)
    requires k < |items|
  {
    items[k].Num? && items[k].n in regs && Strip(TypeOf(regs[items[k].n])) == ty
  }

  /** A list of values that all have type `ty`. */
  ghost predicate BuildsList(i: B.Instruction, regs: map<nat, Value>, ty: WireType)
    requires i.Instr?
  {
    && B.Items in i.fields && i.fields[B.Items].Arr? && i.fields[B.Items].items != []
    && forall k: nat :: k < |i.fields[B.Items].items| ==> ItemHolds(i.fields[B.Items].items, regs, k, ty)
  }

  /** The layout's field at the slot, or the first with the name. */
  predicate Selects(i: B.Instruction, fields: seq<LayoutField>, j: nat)
    requires i.Instr?
  {
    && j < |fields|
    && if i.opcode.GetFieldSlot? then B.Slot in i.fields && i.fields[B.Slot] == B.Num(j)
       else B.Name in i.fields && i.fields[B.Name].Str? && fields[j].name == i.fields[B.Name].text
            && forall k :: 0 <= k < j ==> fields[k].name != i.fields[B.Name].text
  }

  /** A record's field holds a value of the type its layout declares. */
  ghost predicate ReadsField(i: B.Instruction, layouts: Layouts, regs: map<nat, Value>, v: Value)
    requires i.Instr?
  {
    && NamesRegister(i, B.Base) && i.fields[B.Base].n in regs
    && var record := Strip(TypeOf(regs[i.fields[B.Base].n]));
       && record.Named? && record.name in layouts
       && exists j: nat :: Selects(i, layouts[record.name], j) && TypeOf(v) == layouts[record.name][j].ty
  }

  ghost predicate Computes(i: B.Instruction, layouts: Layouts, regs: map<nat, Value>, v: Value)
    requires i.Instr?
  {
    match i.opcode
    case Load(kind) => Loads(kind, v)
    case IntOp(_) => v.IntV?
    case ListLen => v.IntV?
    case NativeClosureId => v.IntV?
    case NativeFieldClosureId => v.IntV?
    case StringConcat => v.StringV?
    case StringBuilderFinish => v.StringV?
    case CompareOp(_) => v.BoolV?
    case Move => NamesRegister(i, B.Src) && i.fields[B.Src].n in regs && v == regs[i.fields[B.Src].n]
    case Manage => NamesRegister(i, B.Src) && i.fields[B.Src].n in regs && v == regs[i.fields[B.Src].n]
    case MakeList => TypeOf(v).List? && BuildsList(i, regs, TypeOf(v).element)
    case GetField => ReadsField(i, layouts, regs, v)
    case GetFieldSlot => ReadsField(i, layouts, regs, v)
    case _ => false
  }

  /** An instruction that stays in its frame. */
  ghost predicate LocalStep(u: ExecutableUnit, fr: Frame, fr': Frame)
    requires BodiesOk(u)
  {
    && Running(u, fr) && fr'.fn == fr.fn && Follows(u, fr, fr'.ip)
    && var i := Current(u, fr);
       || (i.Instr? && (i.opcode.Jump? || i.opcode.JumpIfBool? || i.opcode.JumpIfIntCompare?) && fr'.regs == fr.regs)
       || (&& NamesRegister(i, B.Dst)
           && exists v :: Computes(i, u.layouts, fr.regs, v) && fr'.regs == fr.regs[i.fields[B.Dst].n := v])
  }

  ghost predicate AtCall(u: ExecutableUnit, fr: Frame, callee: nat)
    requires BodiesOk(u)
  {
    && Running(u, fr) && IsDirectCall(Current(u, fr)) && Current(u, fr).opcode.CallKnown?
    && CalleeOf(LimitsAt(u, fr.fn), Current(u, fr)) == callee
  }

  /** A call hands the argument registers to a new frame's first registers. */
  ghost predicate CallStep(u: ExecutableUnit, fr: Frame, callee: Frame)
    requires BodiesOk(u)
  {
    && AtCall(u, fr, callee.fn) && callee.ip == 0
    && var args := ArgsOf(LimitsAt(u, fr.fn), Current(u, fr));
       && (forall k :: 0 <= k < |args| ==> args[k] in fr.regs)
       && callee.regs == map k: nat | k < |args| :: fr.regs[args[k]]
  }

  /** A return stores the callee's value in the caller's destination and resumes after the call. */
  ghost predicate ReturnStep(u: ExecutableUnit, caller: Frame, callee: Frame, caller': Frame)
    requires BodiesOk(u)
  {
    && Running(u, callee) && Current(u, callee).Instr? && Current(u, callee).opcode.Return?
    && NamesRegister(Current(u, callee), B.Src) && Current(u, callee).fields[B.Src].n in callee.regs
    && AtCall(u, caller, callee.fn) && Follows(u, caller, caller'.ip) && caller'.fn == caller.fn
    && NamesRegister(Current(u, caller), B.Dst)
    && var dst, src := Current(u, caller).fields[B.Dst].n, Current(u, callee).fields[B.Src].n;
       caller'.regs == caller.regs[dst := callee.regs[src]]
  }

  ghost predicate Step(u: ExecutableUnit, s: State, s': State)
    requires BodiesOk(u)
  {
    && s.Push? && s'.Push?
    && (|| (s'.callers == s.callers && LocalStep(u, s.top, s'.top))
        || (s'.callers == s && CallStep(u, s.top, s'.top))
        || (s.callers.Push? && s'.callers == s.callers.callers && ReturnStep(u, s.callers.top, s.top, s'.top)))
  }

  // ----- the invariant -----

  predicate RegsOk(registers: seq<FactType>, regs: map<nat, Value>) {
    forall r :: r in regs ==> r < |registers| && HasType(regs[r], registers[r])
  }

  ghost predicate FrameOk(u: ExecutableUnit, facts: seq<FunctionFacts>, fr: Frame)
    requires FactsOk(u, facts)
  {
    && fr.fn < |u.functions|
    && (Running(u, fr) ==> Reachable(B.GraphOf(u.functions[fr.fn], |u.functions|), fr.ip))
    && RegsOk(facts[fr.fn].registers, fr.regs)
  }

  /** Every frame is well typed, and each suspended frame waits at the call of the next. */
  ghost predicate StateOk(u: ExecutableUnit, facts: seq<FunctionFacts>, s: State)
    requires FactsOk(u, facts)
  {
    s.Push? ==>
      && FrameOk(u, facts, s.top)
      && StateOk(u, facts, s.callers)
      && (s.callers.Push? ==> AtCall(u, s.callers.top, s.top.fn))
  }

  lemma FollowsReaches(u: ExecutableUnit, fr: Frame, ip: nat)
    requires BodiesOk(u) && Running(u, fr) && Follows(u, fr, ip)
    requires Reachable(B.GraphOf(u.functions[fr.fn], |u.functions|), fr.ip)
    ensures Reachable(B.GraphOf(u.functions[fr.fn], |u.functions|), ip)
  {
    var g := B.GraphOf(u.functions[fr.fn], |u.functions|);
    var k: nat :| HasEdge(g, fr.ip, k) && g[fr.ip].edges[k].target == ip;
    EdgeReaches(g, fr.ip, k);
  }

  /** What acceptance says about one instruction of the fragment. */
  lemma CoveredAt(u: ExecutableUnit, facts: seq<FunctionFacts>, f: nat, ip: nat)
    requires Covered(u, facts) && f < |u.functions| && ip < |u.functions[f].code|
    ensures InFragment(u.functions[f].code[ip]) &&
      ResultContract(u.functions[f].code[ip], facts[f].registers, u.layouts)
    ensures AllKnown(facts[f].registers)
  {
    assert RegisterContract(u, f, facts[f]);
  }

  /** The type an opcode computes is the type declared for its destination. */
  lemma ComputedIsDeclared(i: B.Instruction, limits: B.Limits, registers: seq<FactType>, layouts: Layouts,
                           regs: map<nat, Value>, v: Value)
    requires InFragment(i) && ResultContract(i, registers, layouts) && AllKnown(registers) && RegsOk(registers, regs)
    requires NamesRegister(i, B.Dst) && Computes(i, layouts, regs, v) && B.WireOk(limits, i)
    ensures RegsOk(registers, regs[i.fields[B.Dst].n := v])
  {
    var d := i.fields[B.Dst].n;
    assert d in Destination(i.opcode, i.fields);
    if i.opcode.MakeList? {
      ListIsExpected(i, registers, regs, TypeOf(v).element);
    } else if i.opcode.GetField? || i.opcode.GetFieldSlot? {
      FieldIsExpected(i, limits, registers, layouts, regs, v);
    }
    assert ExpectedResult(i.opcode, i.fields, registers, layouts).Expects?;
  }

  /** Registers that all hold values of one type are declared with it. */
  lemma ListIsExpected(i: B.Instruction, registers: seq<FactType>, regs: map<nat, Value>, ty: WireType)
    requires i.Instr? && AllKnown(registers) && RegsOk(registers, regs) && BuildsList(i, regs, ty)
    ensures ListResult(i.fields, registers) == Expects(Known(List(ty)))
  {
    var items := i.fields[B.Items].items;
    forall k | 0 <= k < |items| ensures ItemType(items[k], registers) == Expects(Known(ty)) {
      assert ItemHolds(items, regs, k, ty);
    }
  }

  lemma {:induction false} FindsFirst(fields: seq<LayoutField>, name: string, j: nat)
    requires j < |fields| && fields[j].name == name && forall k :: 0 <= k < j ==> fields[k].name != name
    ensures FindField(fields, name) == Expects(Known(fields[j].ty))
  {
    if j > 0 {
      assert fields[0].name != name;
      FindsFirst(fields[1..], name, j - 1);
    }
  }

  /** The contract looks the field up in the layout of the declared type, which is that of the record. */
  lemma FieldIsExpected(i: B.Instruction, limits: B.Limits, registers: seq<FactType>, layouts: Layouts,
                        regs: map<nat, Value>, v: Value)
    requires i.Instr? && (i.opcode.GetField? || i.opcode.GetFieldSlot?) && B.WireOk(limits, i)
    requires AllKnown(registers) && RegsOk(registers, regs) && ReadsField(i, layouts, regs, v)
    ensures FieldResult(i.fields, registers, layouts) == Expects(Known(TypeOf(v)))
  {
    var record := Strip(TypeOf(regs[i.fields[B.Base].n]));
    var j: nat :| Selects(i, layouts[record.name], j) && TypeOf(v) == layouts[record.name][j].ty;
    assert registers[i.fields[B.Base].n].Known?;
    if i.opcode.GetField? {
      assert B.Slot !in B.InstructionFields(i.opcode);
      FindsFirst(layouts[record.name], i.fields[B.Name].text, j);
    }
  }

  lemma LocalStepKeeps(u: ExecutableUnit, facts: seq<FunctionFacts>, fr: Frame, fr': Frame)
    requires Covered(u, facts) && FrameOk(u, facts, fr) && LocalStep(u, fr, fr')
    ensures FrameOk(u, facts, fr')
  {
    FollowsReaches(u, fr, fr'.ip);
    if fr'.regs != fr.regs {
      var i := Current(u, fr);
      var v :| Computes(i, u.layouts, fr.regs, v) && fr'.regs == fr.regs[i.fields[B.Dst].n := v];
      CoveredAt(u, facts, fr.fn, fr.ip);
      BodyIsWired(u, fr.fn);
      ComputedIsDeclared(Current(u, fr), LimitsAt(u, fr.fn), facts[fr.fn].registers, u.layouts, fr.regs, v);
    }
  }

  lemma CallIsExact(u: ExecutableUnit, facts: seq<FunctionFacts>, fr: Frame, callee: nat)
    requires Covered(u, facts) && AtCall(u, fr, callee)
    ensures callee < |u.functions| && u.functions[callee].captures == 0 && HasSignature(u, callee)
    ensures CallContract(u, fr.fn, fr.ip, facts[fr.fn])
    ensures ExactCall(facts[fr.fn].calls[fr.ip].call, SignatureOf(u, callee))
  {
    assert CallShapeOk(u, fr.fn, fr.ip);
  }

  ghost predicate SameType(left: FactType, right: FactType) {
    left.Known? && right.Known? && Strip(left.ty) == Strip(right.ty)
  }

  lemma ArgumentDeclared(u: ExecutableUnit, facts: seq<FunctionFacts>, fr: Frame, callee: nat, k: nat)
    requires Covered(u, facts) && AtCall(u, fr, callee)
    requires k < |ArgsOf(LimitsAt(u, fr.fn), Current(u, fr))|
    ensures HasSignature(u, callee) && u.functions[callee].captures == 0 && k < |SignatureOf(u, callee).parameters|
    ensures RegisterFact(facts[fr.fn].registers, ArgsOf(LimitsAt(u, fr.fn), Current(u, fr))[k],
                         Known(SignatureOf(u, callee).parameters[k]))
  {
    CallIsExact(u, facts, fr, callee);
    var args, call := ArgsOf(LimitsAt(u, fr.fn), Current(u, fr)), facts[fr.fn].calls[fr.ip].call;
    assert RegisterFact(facts[fr.fn].registers, args[k], call.parameters[k]);
  }

  lemma ParameterDeclared(u: ExecutableUnit, facts: FunctionFacts, f: nat, k: nat)
    requires BodiesOk(u) && HasSignature(u, f) && RegisterContract(u, f, facts)
    requires u.functions[f].captures == 0 && k < |SignatureOf(u, f).parameters|
    ensures RegisterFact(facts.registers, k, Known(SignatureOf(u, f).parameters[k]))
  {
    assert RegisterFact(facts.registers, 0 + k, Known(SignatureOf(u, f).parameters[k]));
  }

  /** An argument register and the callee's parameter register are declared with the same type. */
  lemma ArgumentMatchesParameter(u: ExecutableUnit, facts: seq<FunctionFacts>, fr: Frame, callee: nat, k: nat)
    requires Covered(u, facts) && AtCall(u, fr, callee)
    requires k < |ArgsOf(LimitsAt(u, fr.fn), Current(u, fr))|
    ensures var arg := ArgsOf(LimitsAt(u, fr.fn), Current(u, fr))[k];
      && arg < |facts[fr.fn].registers| && k < |facts[callee].registers|
      && SameType(facts[fr.fn].registers[arg], facts[callee].registers[k])
  {
    ArgumentDeclared(u, facts, fr, callee, k);
    ParameterDeclared(u, facts[callee], callee, k);
    assert AllKnown(facts[fr.fn].registers) && AllKnown(facts[callee].registers);
  }

  lemma CallStepKeeps(u: ExecutableUnit, facts: seq<FunctionFacts>, fr: Frame, callee: Frame)
    requires Covered(u, facts) && FrameOk(u, facts, fr) && CallStep(u, fr, callee)
    ensures FrameOk(u, facts, callee)
  {
    if Running(u, callee) {
      assert IsRun(B.GraphOf(u.functions[callee.fn], |u.functions|), Entry);
    }
    forall k | k in callee.regs
      ensures k < |facts[callee.fn].registers| && HasType(callee.regs[k], facts[callee.fn].registers[k])
    {
      ArgumentMatchesParameter(u, facts, fr, callee.fn, k);
    }
  }

  /** A reachable return reads a register declared with the function's result type. */
  lemma ReturnedIsResult(u: ExecutableUnit, facts: seq<FunctionFacts>, callee: Frame)
    requires Covered(u, facts) && Running(u, callee) && HasSignature(u, callee.fn)
    requires Reachable(B.GraphOf(u.functions[callee.fn], |u.functions|), callee.ip)
    requires NamesRegister(Current(u, callee), B.Src) && Current(u, callee).opcode.Return?
    ensures var src := Current(u, callee).fields[B.Src].n;
      && src < |facts[callee.fn].registers|
      && SameType(facts[callee.fn].registers[src], Known(SignatureOf(u, callee.fn).result))
  {
    assert RegisterContract(u, callee.fn, facts[callee.fn]);
    assert ReturnContract(Current(u, callee), facts[callee.fn].registers, SignatureOf(u, callee.fn).result);
  }

  /** The destination of a direct call is declared with the callee's result type. */
  lemma DestinationIsResult(u: ExecutableUnit, facts: seq<FunctionFacts>, caller: Frame, callee: nat)
    requires Covered(u, facts) && AtCall(u, caller, callee) && NamesRegister(Current(u, caller), B.Dst)
    ensures HasSignature(u, callee)
    ensures var dst := Current(u, caller).fields[B.Dst].n;
      && dst < |facts[caller.fn].registers|
      && SameType(facts[caller.fn].registers[dst], Known(SignatureOf(u, callee).result))
  {
    CallIsExact(u, facts, caller, callee);
    var i, registers := Current(u, caller), facts[caller.fn].registers;
    assert DestinationContract(i, registers, facts[caller.fn].calls[caller.ip].call.result);
    DestinationFact(i, registers, facts[caller.fn].calls[caller.ip].call.result);
    assert AllKnown(registers);
  }

  lemma DestinationFact(i: B.Instruction, registers: seq<FactType>, expected: FactType)
    requires NamesRegister(i, B.Dst) && i.opcode.CallKnown? && DestinationContract(i, registers, expected)
    ensures RegisterFact(registers, i.fields[B.Dst].n, expected)
  {
    assert i.fields[B.Dst].n in Destination(i.opcode, i.fields);
  }

  lemma ReturnStepKeeps(u: ExecutableUnit, facts: seq<FunctionFacts>, caller: Frame, callee: Frame, caller': Frame)
    requires Covered(u, facts) && FrameOk(u, facts, caller) && FrameOk(u, facts, callee)
    requires ReturnStep(u, caller, callee, caller')
    ensures FrameOk(u, facts, caller')
  {
    FollowsReaches(u, caller, caller'.ip);
    DestinationIsResult(u, facts, caller, callee.fn);
    ReturnedIsResult(u, facts, callee);
  }

  lemma StepKeeps(u: ExecutableUnit, facts: seq<FunctionFacts>, s: State, s': State)
    requires Covered(u, facts) && StateOk(u, facts, s) && Step(u, s, s')
    ensures StateOk(u, facts, s')
  {
    if s'.callers == s.callers && LocalStep(u, s.top, s'.top) {
      LocalStepKeeps(u, facts, s.top, s'.top);
    } else if s'.callers == s && CallStep(u, s.top, s'.top) {
      CallStepKeeps(u, facts, s.top, s'.top);
    } else {
      ReturnStepKeeps(u, facts, s.callers.top, s.top, s'.top);
    }
  }

  lemma {:induction false} FramesOk(u: ExecutableUnit, facts: seq<FunctionFacts>, s: State, fr: Frame)
    requires FactsOk(u, facts) && StateOk(u, facts, s) && OnStack(s, fr)
    ensures FrameOk(u, facts, fr)
  {
    if s.top != fr { FramesOk(u, facts, s.callers, fr); }
  }

  /** An execution, newest state last. */
  datatype Execution = Start(s: State) | Then(before: Execution, s: State)

  ghost predicate IsExecution(u: ExecutableUnit, e: Execution)
    requires BodiesOk(u)
  {
    e.Then? ==> IsExecution(u, e.before) && Step(u, e.before.s, e.s)
  }

  function FirstState(e: Execution): State {
    match e case Start(s) => s case Then(before, _) => FirstState(before)
  }

  lemma {:induction false} ExecutionsKeepOk(u: ExecutableUnit, facts: seq<FunctionFacts>, e: Execution)
    requires Covered(u, facts) && IsExecution(u, e) && StateOk(u, facts, FirstState(e))
    ensures StateOk(u, facts, e.s)
  {
    match e
    case Start(_) =>
    case Then(before, s) =>
      ExecutionsKeepOk(u, facts, before);
      StepKeeps(u, facts, before.s, s);
  }

  /** A function entered with well-typed registers. */
  lemma EntryIsOk(u: ExecutableUnit, facts: seq<FunctionFacts>, f: nat, regs: map<nat, Value>)
    requires FactsOk(u, facts) && f < |u.functions| && RegsOk(facts[f].registers, regs)
    ensures StateOk(u, facts, Push(Empty, Frame(f, 0, regs)))
  {
    var entry := Frame(f, 0, regs);
    if Running(u, entry) { assert IsRun(B.GraphOf(u.functions[f], |u.functions|), Entry); }
    assert FrameOk(u, facts, entry) && StateOk(u, facts, Empty);
  }

  /** From the entry of any function with well-typed registers: at the end of any execution, of any length, every
      register written in any frame of the call stack holds a value of its declared type. */
  lemma ExecutionsKeepTypes(u: ExecutableUnit, facts: seq<FunctionFacts>, f: nat, regs: map<nat, Value>, e: Execution,
                            fr: Frame, r: nat)
    requires Covered(u, facts) && f < |u.functions| && RegsOk(facts[f].registers, regs)
    requires IsExecution(u, e) && FirstState(e) == Push(Empty, Frame(f, 0, regs))
    requires OnStack(e.s, fr) && r in fr.regs
    ensures fr.fn < |facts| && r < |facts[fr.fn].registers| && HasType(fr.regs[r], facts[fr.fn].registers[r])
  {
    EntryIsOk(u, facts, f, regs);
    ExecutionsKeepOk(u, facts, e);
    FramesOk(u, facts, e.s, fr);
  }
}
