/** Typed executable facts: the register and call contracts the verifier checks against an already
    verified unit, and the preservation property they give. */
module TypedFacts {
  import opened ControlFlow
  import opened WireTypes
  import opened Generics
  import opened FunctionVerifier
  import B = Bytecode

  // ----- the executable unit -----

  datatype LayoutField = LayoutField(name: string, ty: WireType)

  /** Function bodies, the public function map, the parsed native signatures and the parsed layouts. */
  datatype ExecutableUnit = ExecutableUnit(functions: seq<B.Function>, ids: map<string, nat>,
                                           signatures: map<string, Signature>, layouts: Layouts)

  type Layouts = map<string, seq<LayoutField>>

  predicate IsDirectCall(i: B.Instruction) {
    i.Instr? && (i.opcode.CallKnown? || i.opcode.SpawnTask?)
  }

  function CalleeOf(limits: B.Limits, i: B.Instruction): (callee: nat)
    requires (IsDirectCall(i) || IsClosure(i)) && B.WireOk(limits, i)
    ensures callee < limits.functionCount
  {
    i.fields[B.Callee].n
  }

  predicate IsClosure(i: B.Instruction) {
    i.Instr? && i.opcode.MakeClosure?
  }

  function CapturesOf(limits: B.Limits, i: B.Instruction): (captures: seq<nat>)
    requires IsClosure(i) && B.WireOk(limits, i)
  {
    B.ListFieldChecked(limits.registers, i.opcode, B.Captures, i.fields[B.Captures]);
    B.ListOf(i.fields[B.Captures])
  }

  predicate IsDynamicCall(i: B.Instruction) {
    i.Instr? && i.opcode.CallDynamic?
  }

  /** The functions a dynamic call may enter. */
  function DispatchOf(limits: B.Limits, i: B.Instruction): (targets: set<nat>)
    requires IsDynamicCall(i) && B.WireOk(limits, i)
    ensures forall f :: f in targets ==> f < limits.functionCount
  {
    var entries := i.fields[B.Dispatch].items;
    assert B.DispatchOk(limits, i.fields[B.Dispatch]);
    set k | 0 <= k < |entries| && B.DispatchEntryOk(limits, entries[k]) :: entries[k].items[1].n
  }

  function ArgsOf(limits: B.Limits, i: B.Instruction): (args: seq<nat>)
    requires (IsDirectCall(i) || IsDynamicCall(i)) && B.WireOk(limits, i)
    ensures forall r :: r in args ==> r < limits.registers
  {
    assert B.Args in i.fields;
    B.ListFieldChecked(limits.registers, i.opcode, B.Args, i.fields[B.Args]);
    B.ListOf(i.fields[B.Args])
  }

  ghost predicate BodiesOk(u: ExecutableUnit) {
    forall f :: 0 <= f < |u.functions| ==> Accepted(u.functions[f], |u.functions|)
  }

  function LimitsAt(u: ExecutableUnit, f: nat): B.Limits
    requires f < |u.functions|
  {
    B.LimitsOf(u.functions[f], |u.functions|)
  }

  predicate DispatchAgrees(functions: seq<B.Function>, limits: B.Limits, i: B.Instruction)
    requires IsDynamicCall(i) && B.WireOk(limits, i) && limits.functionCount == |functions|
  {
    forall f :: f in DispatchOf(limits, i) ==>
      functions[f].captures == 0 && functions[f].params == |ArgsOf(limits, i)|
  }

  /** `verify_call_shapes` for direct calls, dynamic calls and closures: a called function has no captures and as many
      parameters as there are arguments; a closure supplies as many captures as its function has. */
  predicate ShapeAgrees(functions: seq<B.Function>, limits: B.Limits, i: B.Instruction)
    requires B.WireOk(limits, i) && limits.functionCount == |functions|
  {
    && (IsDirectCall(i) ==>
          functions[CalleeOf(limits, i)].captures == 0 && functions[CalleeOf(limits, i)].params == |ArgsOf(limits, i)|)
    && (IsDynamicCall(i) ==> DispatchAgrees(functions, limits, i))
    && (IsClosure(i) ==> functions[CalleeOf(limits, i)].captures == |CapturesOf(limits, i)|)
  }

  ghost predicate CallShapeOk(u: ExecutableUnit, f: nat, ip: nat)
    requires BodiesOk(u) && f < |u.functions| && ip < |u.functions[f].code|
  {
    ShapeAgrees(u.functions, LimitsAt(u, f), u.functions[f].code[ip])
  }

  predicate NamesOk(functions: seq<B.Function>) {
    && (forall f :: 0 <= f < |functions| ==> functions[f].name != "")
    && forall f, g :: 0 <= f < g < |functions| ==> functions[f].name != functions[g].name
  }

  predicate MapOk(u: ExecutableUnit, name: string)
    requires name in u.ids
  {
    u.ids[name] < |u.functions| && u.functions[u.ids[name]].name == name
  }

  predicate SignatureOk(u: ExecutableUnit, name: string)
    requires name in u.ids && MapOk(u, name) && name in u.signatures
  {
    |u.signatures[name].parameters| == u.functions[u.ids[name]].params
  }

  /** What `verify_executable_payload` demands of bodies, names, call shapes, the function map and native signatures. */
  ghost predicate UnitOk(u: ExecutableUnit) {
    && BodiesOk(u)
    && NamesOk(u.functions)
    && (forall f: nat, ip: nat :: f < |u.functions| && ip < |u.functions[f].code| ==> CallShapeOk(u, f, ip))
    && (forall name :: name in u.ids ==> MapOk(u, name))
    && u.signatures.Keys == u.ids.Keys
    && forall name :: name in u.signatures ==> SignatureOk(u, name)
  }

  method VerifyNames(functions: seq<B.Function>) returns (accepted: bool)
    ensures accepted <==> NamesOk(functions)
  {
    var names: set<string> := {};
    for f := 0 to |functions|
      invariant names == set g | 0 <= g < f :: functions[g].name
      invariant forall g :: 0 <= g < f ==> functions[g].name != ""
      invariant forall g, h :: 0 <= g < h < f ==> functions[g].name != functions[h].name
    {
      if functions[f].name == "" || functions[f].name in names { return false; }
      names := names + {functions[f].name};
    }
    accepted := true;
  }

  method VerifyShapes(functions: seq<B.Function>, limits: B.Limits, code: seq<B.Instruction>)
    returns (accepted: bool)
    requires limits.functionCount == |functions| && Wired(limits, code)
    ensures accepted <==> forall ip: nat :: ip < |code| ==> ShapeAgrees(functions, limits, code[ip])
  {
    for ip: nat := 0 to |code|
      invariant forall j: nat :: j < ip ==> ShapeAgrees(functions, limits, code[j])
    {
      if !ShapeAgrees(functions, limits, code[ip]) { return false; }
    }
    accepted := true;
  }

  ghost predicate Wired(limits: B.Limits, code: seq<B.Instruction>) {
    forall ip: nat :: ip < |code| ==> B.WireOk(limits, code[ip])
  }

  lemma BodyIsWired(u: ExecutableUnit, f: nat)
    requires BodiesOk(u) && f < |u.functions|
    ensures Wired(LimitsAt(u, f), u.functions[f].code) && LimitsAt(u, f).functionCount == |u.functions|
  {
    assert Accepted(u.functions[f], |u.functions|);
  }

  method VerifyAllShapes(u: ExecutableUnit) returns (accepted: bool)
    requires BodiesOk(u)
    ensures accepted <==>
      forall f: nat, ip: nat :: f < |u.functions| && ip < |u.functions[f].code| ==> CallShapeOk(u, f, ip)
  {
    for f: nat := 0 to |u.functions|
      invariant forall g: nat, ip: nat :: g < f && ip < |u.functions[g].code| ==> CallShapeOk(u, g, ip)
    {
      BodyIsWired(u, f);
      accepted := VerifyShapes(u.functions, LimitsAt(u, f), u.functions[f].code);
      if !accepted {
        var ip: nat :| ip < |u.functions[f].code| && !ShapeAgrees(u.functions, LimitsAt(u, f), u.functions[f].code[ip]);
        assert !CallShapeOk(u, f, ip);
        return;
      }
      assert forall ip: nat :: ip < |u.functions[f].code| ==> CallShapeOk(u, f, ip);
    }
    accepted := true;
  }

  method VerifyBodies(u: ExecutableUnit) returns (accepted: bool)
    ensures accepted <==> BodiesOk(u)
  {
    for f := 0 to |u.functions|
      invariant forall g :: 0 <= g < f ==> Accepted(u.functions[g], |u.functions|)
    {
      var ok := VerifyFunction(u.functions[f], |u.functions|);
      if !ok { return false; }
    }
    accepted := true;
  }

  method VerifyMap(u: ExecutableUnit) returns (accepted: bool)
    ensures accepted <==> forall name :: name in u.ids ==> MapOk(u, name)
  {
    var rest := u.ids.Keys;
    while rest != {}
      invariant rest <= u.ids.Keys && forall name :: name in u.ids.Keys - rest ==> MapOk(u, name)
      decreases |rest|
    {
      var name :| name in rest;
      if !MapOk(u, name) { return false; }
      rest := rest - {name};
    }
    accepted := true;
  }

  method VerifySignatures(u: ExecutableUnit) returns (accepted: bool)
    requires forall name :: name in u.ids ==> MapOk(u, name)
    ensures accepted <==>
      u.signatures.Keys == u.ids.Keys && forall name :: name in u.signatures ==> SignatureOk(u, name)
  {
    if u.signatures.Keys != u.ids.Keys { return false; }
    var rest := u.signatures.Keys;
    while rest != {}
      invariant rest <= u.signatures.Keys && forall name :: name in u.signatures.Keys - rest ==> SignatureOk(u, name)
      decreases |rest|
    {
      var name :| name in rest;
      if !SignatureOk(u, name) { return false; }
      rest := rest - {name};
    }
    accepted := true;
  }

  /** The checks together decide `UnitOk`, and so every property of accepted bodies. */
  method VerifyUnit(u: ExecutableUnit) returns (accepted: bool)
    ensures accepted <==> UnitOk(u)
  {
    accepted := VerifyBodies(u);
    if !accepted { return; }
    accepted := VerifyNames(u.functions);
    if !accepted { return; }
    accepted := VerifyAllShapes(u);
    if !accepted { return; }
    accepted := VerifyMap(u);
    if !accepted { return; }
    accepted := VerifySignatures(u);
  }

  predicate HasSignature(u: ExecutableUnit, f: nat) {
    f < |u.functions| && u.functions[f].name in u.signatures
  }

  function SignatureOf(u: ExecutableUnit, f: nat): Signature
    requires HasSignature(u, f)
  {
    u.signatures[u.functions[f].name]
  }

  /** Unique names, the function map and native-signature arity force the signature a callee is looked up
      by to have one parameter per register argument, so zipping the two lists drops nothing. */
  lemma DirectCallArityAgrees(u: ExecutableUnit, f: nat, ip: nat)
    requires UnitOk(u) && f < |u.functions| && ip < |u.functions[f].code| && IsDirectCall(u.functions[f].code[ip])
    requires HasSignature(u, CalleeOf(LimitsAt(u, f), u.functions[f].code[ip]))
    ensures var i := u.functions[f].code[ip];
      |SignatureOf(u, CalleeOf(LimitsAt(u, f), i)).parameters| == |ArgsOf(LimitsAt(u, f), i)|
  {
    assert CallShapeOk(u, f, ip);
    SignatureArity(u, CalleeOf(LimitsAt(u, f), u.functions[f].code[ip]));
  }

  lemma SignatureArity(u: ExecutableUnit, f: nat)
    requires UnitOk(u) && HasSignature(u, f)
    ensures |SignatureOf(u, f).parameters| == u.functions[f].params
  {
    var name := u.functions[f].name;
    assert name in u.ids && MapOk(u, name) && SignatureOk(u, name);
    assert u.ids[name] == f;
  }

  // ----- the contracts -----

  datatype CallTarget = KnownFunction(ordinal: nat) | OtherTarget

  datatype CallSite = CallSite(target: CallTarget, call: Call)

  datatype FunctionFacts = FunctionFacts(registers: seq<FactType>, calls: map<nat, CallSite>)

  /** `fact_types_compatible`: equal up to top-level qualifiers, unless one is unknown. */
  predicate Compatible(left: FactType, right: FactType) {
    left.Unknown? || right.Unknown? || Strip(left.ty) == Strip(right.ty)
  }

  predicate RegisterFact(registers: seq<FactType>, register: nat, expected: FactType) {
    register < |registers| && Compatible(registers[register], expected)
  }

  datatype Expectation = Nothing | Expects(fact: FactType)

  function LoadType(kind: B.LoadKind): Expectation {
    match kind
    case LoadUnit => Expects(Known(Unit))
    case LoadInt => Expects(Known(Int(64, true)))
    case LoadFloat => Expects(Known(Float(64)))
    case LoadBool => Expects(Known(Bool))
    case LoadString => Expects(Known(String))
    case LoadChar => Expects(Known(Char))
    case LoadNone => Nothing
  }

  function FieldFact(fields: map<B.Field, B.Json>, field: B.Field, registers: seq<FactType>): Expectation {
    if field in fields && fields[field].Num? && fields[field].n < |registers|
    then Expects(registers[fields[field].n]) else Nothing
  }

  /** Every register of the list is known with type `ty` up to qualifiers. */
  predicate AllOfType(items: seq<B.Json>, registers: seq<FactType>, ty: WireType) {
    forall i :: 0 <= i < |items| ==> ItemType(items[i], registers) == Expects(Known(ty))
  }

  function ItemType(item: B.Json, registers: seq<FactType>): (r: Expectation)
    ensures r.Expects? ==> r.fact.Known?
  {
    if item.Num? && item.n < |registers| && registers[item.n].Known?
    then Expects(Known(Strip(registers[item.n].ty))) else Nothing
  }

  /** The one known type of a non-empty list of registers. */
  function CommonType(items: seq<B.Json>, registers: seq<FactType>): Expectation {
    if items == [] then Nothing else
    var first := ItemType(items[0], registers);
    if first.Expects? && AllOfType(items, registers, first.fact.ty) then first else Nothing
  }

  function ListResult(fields: map<B.Field, B.Json>, registers: seq<FactType>): Expectation {
    if B.Items in fields && fields[B.Items].Arr? then
      var common := CommonType(fields[B.Items].items, registers);
      if common.Expects? then Expects(Known(List(common.fact.ty))) else Nothing
    else Nothing
  }

  /** `common_register_type`: compare each register's type with the one kept from before. */
  method CommonRegisterType(items: seq<B.Json>, registers: seq<FactType>) returns (common: Expectation)
    ensures common == CommonType(items, registers)
  {
    common := Nothing;
    for i := 0 to |items|
      invariant i == 0 ==> common.Nothing?
      invariant i > 0 ==> common.Expects? && common == ItemType(items[0], registers)
      invariant i > 0 ==> AllOfType(items[..i], registers, common.fact.ty)
    {
      var ty := ItemType(items[i], registers);
      if ty.Nothing? || (common.Expects? && common != ty) {
        assert ItemType(items[i], registers) == ty;
        return Nothing;
      }
      common := ty;
    }
    assert items[..|items|] == items;
  }

  function FindField(fields: seq<LayoutField>, name: string): Expectation {
    if fields == [] then Nothing
    else if fields[0].name == name then Expects(Known(fields[0].ty)) else FindField(fields[1..], name)
  }

  /** `executable_field_result`: the declared type of the field a known record's layout has at the slot or name. */
  function FieldResult(fields: map<B.Field, B.Json>, registers: seq<FactType>, layouts: Layouts): Expectation {
    var base := FieldFact(fields, B.Base, registers);
    if base.Nothing? || base.fact.Unknown? || !Strip(base.fact.ty).Named? then Nothing else
    var name := Strip(base.fact.ty).name;
    if name !in layouts then Nothing
    else if B.Slot in fields && fields[B.Slot].Num? then
      if fields[B.Slot].n < |layouts[name]| then Expects(Known(layouts[name][fields[B.Slot].n].ty)) else Nothing
    else if B.Name in fields && fields[B.Name].Str? then FindField(layouts[name], fields[B.Name].text)
    else Nothing
  }

  /** The result type the contract derives for an opcode, independently of its destination. */
  function ExpectedResult(op: B.Opcode, fields: map<B.Field, B.Json>, registers: seq<FactType>,
                          layouts: Layouts): Expectation {
    match op
    case Load(kind) => LoadType(kind)
    case StringConcat => Expects(Known(String))
    case StringBuilderFinish => Expects(Known(String))
    case IntOp(_) => Expects(Known(Int(64, true)))
    case ListLen => Expects(Known(Int(64, true)))
    case NativeClosureId => Expects(Known(Int(64, true)))
    case NativeFieldClosureId => Expects(Known(Int(64, true)))
    case CompareOp(_) => Expects(Known(Bool))
    case Move => FieldFact(fields, B.Src, registers)
    case Manage => FieldFact(fields, B.Src, registers)
    case DeepCopyElided => FieldFact(fields, B.Reg, registers)
    case MakeList => ListResult(fields, registers)
    case GetField => FieldResult(fields, registers, layouts)
    case GetFieldSlot => FieldResult(fields, registers, layouts)
    case _ => Nothing
  }

  method DeriveResult(op: B.Opcode, fields: map<B.Field, B.Json>, registers: seq<FactType>, layouts: Layouts)
    returns (expected: Expectation)
    ensures expected == ExpectedResult(op, fields, registers, layouts)
  {
    if op.MakeList? && B.Items in fields && fields[B.Items].Arr? {
      var common := CommonRegisterType(fields[B.Items].items, registers);
      return if common.Expects? then Expects(Known(List(common.fact.ty))) else Nothing;
    }
    expected := ExpectedResult(op, fields, registers, layouts);
  }

  /** `destination_register`, when present. */
  function Destination(op: B.Opcode, fields: map<B.Field, B.Json>): (dst: seq<nat>)
    ensures |dst| <= 1
  {
    var field := if op.DeepCopy? || op.DeepCopyElided? then B.Reg else B.Dst;
    if field in fields && fields[field].Num? then [fields[field].n] else []
  }

  /** `verify_executable_call_contract` for a direct call. */
  ghost predicate CallContract(u: ExecutableUnit, f: nat, ip: nat, facts: FunctionFacts)
    requires UnitOk(u) && f < |u.functions| && ip < |u.functions[f].code| && IsDirectCall(u.functions[f].code[ip])
  {
    var i := u.functions[f].code[ip];
    var callee, args := CalleeOf(LimitsAt(u, f), i), ArgsOf(LimitsAt(u, f), i);
    && ip in facts.calls && facts.calls[ip].target == KnownFunction(callee) && HasSignature(u, callee)
    && var call := facts.calls[ip].call;
       && |call.parameters| == |args|
       && (ExactCall(call, SignatureOf(u, callee)) ||
           (call.typeArguments != [] && VerifiedInstantiation(call, SignatureOf(u, callee))))
       && (forall k :: 0 <= k < |args| ==> RegisterFact(facts.registers, args[k], call.parameters[k]))
       && (i.opcode.CallKnown? ==> DestinationContract(i, facts.registers, call.result))
  }

  predicate DestinationContract(i: B.Instruction, registers: seq<FactType>, expected: FactType)
    requires i.Instr?
  {
    forall d :: d in Destination(i.opcode, i.fields) ==> RegisterFact(registers, d, expected)
  }

  predicate ExactCall(call: Call, signature: Signature) {
    && |call.parameters| == |signature.parameters|
    && (forall k :: 0 <= k < |call.parameters| ==> call.parameters[k] == Known(signature.parameters[k]))
    && call.result == Known(signature.result)
  }

  predicate ResultContract(i: B.Instruction, registers: seq<FactType>, layouts: Layouts)
    requires i.Instr?
  {
    var expected := ExpectedResult(i.opcode, i.fields, registers, layouts);
    expected.Expects? ==> DestinationContract(i, registers, expected.fact)
  }

  /** A built record's register is unknown or declared with the layout's name; its fields are not compared. */
  predicate StructContract(i: B.Instruction, registers: seq<FactType>)
    requires i.Instr?
  {
    i.opcode.MakeStruct? ==>
      && B.Layout in i.fields && i.fields[B.Layout].Obj?
      && "name" in i.fields[B.Layout].members && i.fields[B.Layout].members["name"].Str?
      && Destination(i.opcode, i.fields) != []
      && NamedFact(registers, Destination(i.opcode, i.fields)[0], i.fields[B.Layout].members["name"].text)
  }

  predicate NamedFact(registers: seq<FactType>, register: nat, name: string) {
    register < |registers| &&
    (registers[register].Unknown? ||
     (Strip(registers[register].ty).Named? && Strip(registers[register].ty).name == name))
  }

  predicate IsCall(op: B.Opcode) {
    op.CallKnown? || op.CallExternal? || op.CallDynamic? || (op.Plain? && "Call" <= op.name)
  }

  /** A call has a call fact at its own instruction, agreeing with its destination unless it spawns. */
  predicate SiteContract(i: B.Instruction, ip: nat, facts: FunctionFacts)
    requires i.Instr?
  {
    && (IsCall(i.opcode) || i.opcode.SpawnTask? ==> ip in facts.calls)
    && (IsCall(i.opcode) ==> DestinationContract(i, facts.registers, facts.calls[ip].call.result))
  }

  predicate ReturnContract(i: B.Instruction, registers: seq<FactType>, result: WireType)
    requires i.Instr?
  {
    i.opcode.Return? ==>
      B.Src in i.fields && i.fields[B.Src].Num? && RegisterFact(registers, i.fields[B.Src].n, Known(result))
  }

  /** `verify_executable_register_contract`: parameters, results, and returns that can be reached. */
  ghost predicate RegisterContract(u: ExecutableUnit, f: nat, facts: FunctionFacts)
    requires BodiesOk(u) && HasSignature(u, f)
  {
    var body, signature := u.functions[f], SignatureOf(u, f);
    && (forall k :: 0 <= k < |signature.parameters| ==>
          RegisterFact(facts.registers, body.captures + k, Known(signature.parameters[k])))
    && forall ip: nat :: ip < |body.code| ==>
         InstructionContract(body.code[ip], ip, facts, u.layouts, signature.result,
                             Reachable(B.GraphOf(body, |u.functions|), ip))
  }

  predicate InstructionContract(i: B.Instruction, ip: nat, facts: FunctionFacts, layouts: Layouts, result: WireType,
                                reached: bool)
  {
    && i.Instr? && ResultContract(i, facts.registers, layouts) && StructContract(i, facts.registers)
    && (reached ==> ReturnContract(i, facts.registers, result)) && SiteContract(i, ip, facts)
  }

  method CheckInstructions(code: seq<B.Instruction>, facts: FunctionFacts, layouts: Layouts, result: WireType,
                           reached: set<nat>)
    returns (accepted: bool)
    ensures accepted <==>
      forall ip: nat :: ip < |code| ==> InstructionContract(code[ip], ip, facts, layouts, result, ip in reached)
  {
    for ip: nat := 0 to |code|
      invariant forall j: nat :: j < ip ==> InstructionContract(code[j], j, facts, layouts, result, j in reached)
    {
      var i := code[ip];
      if i.TailCallGuard? { return false; }
      var expected := DeriveResult(i.opcode, i.fields, facts.registers, layouts);
      if expected.Expects? && !DestinationContract(i, facts.registers, expected.fact) { return false; }
      if !StructContract(i, facts.registers) { return false; }
      if ip in reached && !ReturnContract(i, facts.registers, result) { return false; }
      if !SiteContract(i, ip, facts) { return false; }
    }
    accepted := true;
  }

  /** The contract as the verifier runs it: the walk decides which returns are checked. */
  method VerifyRegisterContract(u: ExecutableUnit, f: nat, facts: FunctionFacts) returns (accepted: bool)
    requires BodiesOk(u) && HasSignature(u, f)
    ensures accepted <==> RegisterContract(u, f, facts)
  {
    var body, signature := u.functions[f], SignatureOf(u, f);
    for k := 0 to |signature.parameters|
      invariant forall j :: 0 <= j < k ==>
        RegisterFact(facts.registers, body.captures + j, Known(signature.parameters[j]))
    {
      if !RegisterFact(facts.registers, body.captures + k, Known(signature.parameters[k])) { return false; }
    }
    var walk := ReachableInstructions(body, |u.functions|);
    if walk.Failed? { return false; }
    accepted := CheckInstructions(body.code, facts, u.layouts, signature.result, walk.instructions);
  }

  ghost predicate FactsOk(u: ExecutableUnit, facts: seq<FunctionFacts>) {
    && UnitOk(u) && |facts| == |u.functions|
    && forall f: nat :: f < |u.functions| ==>
         && HasSignature(u, f) && |facts[f].registers| == u.functions[f].registers
         && RegisterContract(u, f, facts[f])
         && forall ip: nat :: ip < |u.functions[f].code| && IsDirectCall(u.functions[f].code[ip]) ==>
              CallContract(u, f, ip, facts[f])
  }
}
