/** Instructions run on their fields alone.

    Here an instruction is what its opcode and fields say: the registers its operand fields name are needed, those its
    result fields name are filled, and what it finds at run time decides which of its targets is next. A map lookup
    fills `value_dst` only when it finds the key. Nothing here mentions the graph the verifier builds. It is then proved
    that acceptance of a body is a property of all its executions in this sense. */
module InstructionMachine {
  import opened ControlFlow
  import opened Bytecode
  import opened FunctionVerifier
  import opened Operands
  import RegisterInit
  import ResourceScopes

  // ----- control -----

  /** What an instruction finds at run time. */
  datatype Outcome =
    | GoesOn | Jumps
    | IsSome | IsNone
    | IsOk | IsErr
    | IsCase | IsOther
    | Finds | FindsNot

  predicate IsLookup(i: Instruction) {
    i.Instr? && (i.opcode.MatchMapGet? || i.opcode.MatchSortedMapGet?)
  }

  /** Instructions after which the next one may follow. */
  predicate MayGoOn(i: Instruction) {
    i.Instr? ==>
      i.opcode !in {Return, RuntimeError, Jump, MatchOption, MatchResult, MatchVariant, MatchMapGet, MatchSortedMapGet}
  }

  predicate GoesTo(code: seq<Instruction>, ip: nat, outcome: Outcome, target: nat)
    requires ip < |code|
  {
    var i := code[ip];
    match outcome
    case GoesOn => MayGoOn(i) && target == ip + 1 < |code|
    case Jumps => i.Instr? && i.opcode in {Jump, JumpIfBool, JumpIfIntCompare} && Names(i, Target, target)
    case IsSome => i.Instr? && i.opcode.MatchOption? && Names(i, SomeIp, target)
    case IsNone => i.Instr? && i.opcode.MatchOption? && Names(i, NoneIp, target)
    case IsOk => i.Instr? && i.opcode.MatchResult? && Names(i, OkIp, target)
    case IsErr => i.Instr? && i.opcode.MatchResult? && Names(i, ErrIp, target)
    case IsCase => i.Instr? && i.opcode.MatchVariant? && Names(i, MatchIp, target)
    case IsOther => i.Instr? && i.opcode.MatchVariant? && Names(i, ElseIp, target)
    case Finds => IsLookup(i) && Names(i, SomeIp, target)
    case FindsNot => IsLookup(i) && Names(i, NoneIp, target)
  }

  ghost predicate Fills(i: Instruction, outcome: Outcome, r: nat) {
    || (i.Instr? && exists f :: IsResult(i.opcode, f) && Names(i, f, r))
    || (outcome.Finds? && Names(i, ValueDst, r))
  }

  // ----- executions -----

  /** A frame: the next instruction, the filled registers with their contents, and the open resources. */
  datatype Frame = Frame(ip: nat, registers: map<nat, int>, resources: seq<nat>)

  /** `r` is no longer open; the innermost one, if it was opened more than once. */
  function Without(resources: seq<nat>, r: nat): seq<nat> {
    if resources == [] then []
    else
      var last := |resources| - 1;
      if resources[last] == r then resources[..last] else Without(resources[..last], r) + [resources[last]]
  }

  predicate Reopens(i: Instruction, before: seq<nat>, after: seq<nat>) {
    if i.Instr? && i.opcode.ResourceAcquire? then
      before < after && |after| == |before| + 1 && Names(i, Resource, after[|before|])
    else if i.Instr? && i.opcode.ResourceDrop? then
      Resource in i.fields && i.fields[Resource].Num? && after == Without(before, i.fields[Resource].n)
    else after == before
  }

  ghost predicate KeepsOthers(i: Instruction, outcome: Outcome, before: map<nat, int>, after: map<nat, int>) {
    forall r: nat :: r in before && !Fills(i, outcome, r) ==> r in after && after[r] == before[r]
  }

  ghost predicate FillsExactly(i: Instruction, outcome: Outcome, before: map<nat, int>, after: map<nat, int>) {
    forall r: nat :: r in after <==> r in before || Fills(i, outcome, r)
  }

  ghost predicate Steps(code: seq<Instruction>, s: Frame, outcome: Outcome, s': Frame) {
    && s.ip < |code| && GoesTo(code, s.ip, outcome, s'.ip)
    && FillsExactly(code[s.ip], outcome, s.registers, s'.registers)
    && KeepsOthers(code[s.ip], outcome, s.registers, s'.registers)
    && Reopens(code[s.ip], s.resources, s'.resources)
  }

  datatype Execution = Start(s: Frame) | Then(before: Execution, outcome: Outcome, s: Frame)

  ghost predicate IsExecution(code: seq<Instruction>, inputs: set<nat>, e: Execution) {
    match e
    case Start(s) => code != [] && s.ip == 0 && s.registers.Keys == inputs && s.resources == []
    case Then(before, outcome, s) => IsExecution(code, inputs, before) && Steps(code, before.s, outcome, s)
  }

  // ----- the verifier's edges -----

  /** Edge `k` of a map lookup stands for the found key; no other edge stands for `Finds`. */
  predicate Stands(i: Instruction, k: nat, outcome: Outcome) {
    if IsLookup(i) then k == 0 <==> outcome.Finds? else !outcome.Finds?
  }

  /** The control transfers of an instruction are its edges. */
  lemma EdgeFor(limits: Limits, code: seq<Instruction>, ip: nat, outcome: Outcome, target: nat) returns (k: nat)
    requires ip < |code| == limits.codeLength && WireOk(limits, code[ip]) && GoesTo(code, ip, outcome, target)
    ensures k < |Edges(limits, ip, code[ip])| && Edges(limits, ip, code[ip])[k].target == target
    ensures Stands(code[ip], k, outcome)
  {
    var i := code[ip];
    var second := || outcome.IsNone? || outcome.IsErr? || outcome.IsOther? || outcome.FindsNot?
                  || (outcome.GoesOn? && i.Instr? && (i.opcode.JumpIfBool? || i.opcode.JumpIfIntCompare?));
    k := if second then 1 else 0;
  }

  lemma TargetNamed(limits: Limits, i: Instruction, f: Field)
    requires WireOk(limits, i) && i.Instr? && f in i.fields && TargetName(f)
    ensures Names(i, f, TargetAt(limits, i.fields, f))
  {
  }

  lemma OutcomeFor(limits: Limits, code: seq<Instruction>, ip: nat, k: nat) returns (outcome: Outcome)
    requires ip < |code| == limits.codeLength && WireOk(limits, code[ip]) && k < |Edges(limits, ip, code[ip])|
    ensures GoesTo(code, ip, outcome, Edges(limits, ip, code[ip])[k].target) && Stands(code[ip], k, outcome)
  {
    var i := code[ip];
    if IsLookup(i) {
      outcome := LookupOutcome(limits, code, ip, k);
    } else if i.Instr? && (i.opcode.MatchOption? || i.opcode.MatchResult? || i.opcode.MatchVariant?) {
      outcome := MatchOutcome(limits, code, ip, k);
    } else {
      outcome := JumpOutcome(limits, code, ip, k);
    }
  }

  lemma LookupOutcome(limits: Limits, code: seq<Instruction>, ip: nat, k: nat) returns (outcome: Outcome)
    requires ip < |code| == limits.codeLength && WireOk(limits, code[ip]) && IsLookup(code[ip])
    requires k < |Edges(limits, ip, code[ip])|
    ensures GoesTo(code, ip, outcome, Edges(limits, ip, code[ip])[k].target) && Stands(code[ip], k, outcome)
  {
    TargetNamed(limits, code[ip], SomeIp);
    TargetNamed(limits, code[ip], NoneIp);
    outcome := if k == 0 then Finds else FindsNot;
  }

  lemma MatchOutcome(limits: Limits, code: seq<Instruction>, ip: nat, k: nat) returns (outcome: Outcome)
    requires ip < |code| == limits.codeLength && WireOk(limits, code[ip]) && code[ip].Instr?
    requires code[ip].opcode.MatchOption? || code[ip].opcode.MatchResult? || code[ip].opcode.MatchVariant?
    requires k < |Edges(limits, ip, code[ip])|
    ensures GoesTo(code, ip, outcome, Edges(limits, ip, code[ip])[k].target) && !outcome.Finds?
  {
    if code[ip].opcode.MatchOption? {
      TargetNamed(limits, code[ip], if k == 0 then SomeIp else NoneIp);
      outcome := if k == 0 then IsSome else IsNone;
    } else if code[ip].opcode.MatchResult? {
      TargetNamed(limits, code[ip], if k == 0 then OkIp else ErrIp);
      outcome := if k == 0 then IsOk else IsErr;
    } else {
      TargetNamed(limits, code[ip], if k == 0 then MatchIp else ElseIp);
      outcome := if k == 0 then IsCase else IsOther;
    }
  }

  lemma JumpOutcome(limits: Limits, code: seq<Instruction>, ip: nat, k: nat) returns (outcome: Outcome)
    requires ip < |code| == limits.codeLength && WireOk(limits, code[ip]) && !IsLookup(code[ip])
    requires code[ip].Instr? ==>
      !code[ip].opcode.MatchOption? && !code[ip].opcode.MatchResult? && !code[ip].opcode.MatchVariant?
    requires k < |Edges(limits, ip, code[ip])|
    ensures GoesTo(code, ip, outcome, Edges(limits, ip, code[ip])[k].target) && !outcome.Finds?
  {
    var i := code[ip];
    var jumps := i.Instr? && (i.opcode.Jump? || i.opcode.JumpIfBool? || i.opcode.JumpIfIntCompare?);
    if jumps { TargetNamed(limits, i, Target); }
    outcome := if jumps && k == 0 then Jumps else GoesOn;
  }

  /** Only the `some` edge of a map lookup writes anything, and it writes exactly `value_dst`. */
  lemma EdgesWrite(limits: Limits, ip: nat, i: Instruction, k: nat, r: nat)
    requires WireOk(limits, i) && k < |Edges(limits, ip, i)|
    ensures r in Edges(limits, ip, i)[k].defs <==> IsLookup(i) && k == 0 && Names(i, ValueDst, r)
  {
    if IsLookup(i) { assert FieldInRange(limits.registers, i.opcode, ValueDst, i.fields[ValueDst]); }
  }

  lemma EdgeFills(limits: Limits, ip: nat, i: Instruction, k: nat, outcome: Outcome, r: nat)
    requires WireOk(limits, i) && k < |Edges(limits, ip, i)| && Stands(i, k, outcome)
    ensures r in AccessOf(limits, i).writing || r in Edges(limits, ip, i)[k].defs <==> Fills(i, outcome, r)
  {
    WritesExactly(limits, i, r);
    EdgesWrite(limits, ip, i, k, r);
  }

  /** On every run: after a map lookup, `value_dst` is initialised if and only if it was before, or the run took the
      outcome in which the key is found, which leads to `some_ip`. */
  lemma LookupInitialisesWhenFound(f: Function, functionCount: nat, inputs: set<nat>, before: Run, k: nat, r: nat)
    requires ShapeOk(f, functionCount) && IsRun(GraphOf(f, functionCount), Step(before, k))
    requires var i := f.code[End(GraphOf(f, functionCount), before)]; IsLookup(i) && Names(i, ValueDst, r)
    ensures var g := GraphOf(f, functionCount);
      var i := f.code[End(g, before)];
      && (r in RegisterInit.Written(g, inputs, Step(before, k)) <==>
            r in RegisterInit.Written(g, inputs, before) || k == 0)
      && Names(i, if k == 0 then SomeIp else NoneIp, End(g, Step(before, k)))
  {
    var g, limits := GraphOf(f, functionCount), LimitsOf(f, functionCount);
    var ip := End(g, before);
    assert g[ip] == NodeOf(limits, ip, f.code[ip]);
    var outcome := OutcomeFor(limits, f.code, ip, k);
    EdgesWrite(limits, ip, f.code[ip], k, r);
    WritesExactly(limits, f.code[ip], r);
  }

  // ----- resources -----

  /** The cleanup list names every open resource, from the innermost outward. */
  predicate CleansUp(i: Instruction, resources: seq<nat>) {
    && i.Instr? && Cleanup in i.fields && i.fields[Cleanup].Arr? && |i.fields[Cleanup].items| == |resources|
    && forall k :: 0 <= k < |resources| ==> i.fields[Cleanup].items[k] == Num(resources[|resources| - 1 - k])
  }

  /** A drop names the innermost open resource, a short-circuit cleans up all of them, and none is open at a return. */
  predicate ClosesRightly(i: Instruction, resources: seq<nat>) {
    i.Instr? ==>
      && (i.opcode.ResourceDrop? ==> resources != [] && Names(i, Resource, resources[|resources| - 1]))
      && (i.opcode.TryResult? ==> CleansUp(i, resources))
      && (i.opcode.Return? ==> resources == [])
  }

  /** Neither is any left open by going on past the end of the body. */
  ghost predicate Closing(code: seq<Instruction>, s: Frame) {
    s.ip < |code| ==>
      && ClosesRightly(code[s.ip], s.resources)
      && (MayGoOn(code[s.ip]) && s.ip + 1 == |code| ==>
            forall after :: Reopens(code[s.ip], s.resources, after) ==> after == [])
  }

  ghost predicate AllClose(code: seq<Instruction>, inputs: set<nat>) {
    forall e :: IsExecution(code, inputs, e) ==> Closing(code, e.s)
  }

  /** The open resources after an instruction. */
  function Reopened(limits: Limits, i: Instruction, before: seq<nat>): (after: seq<nat>)
    requires WireOk(limits, i)
    ensures Reopens(i, before, after)
  {
    if i.Instr? && i.opcode.ResourceAcquire? then
      ResourceNamed(limits, i);
      before + [i.fields[Resource].n]
    else if i.Instr? && i.opcode.ResourceDrop? then
      ResourceNamed(limits, i);
      Without(before, i.fields[Resource].n)
    else before
  }

  lemma ResourceNamed(limits: Limits, i: Instruction)
    requires WireOk(limits, i) && i.Instr? && (i.opcode.ResourceAcquire? || i.opcode.ResourceDrop?)
    ensures Resource in i.fields && i.fields[Resource].Num?
  {
    assert FieldInRange(limits.registers, i.opcode, Resource, i.fields[Resource]);
  }

  lemma ReopensOneWay(i: Instruction, before: seq<nat>, a: seq<nat>, b: seq<nat>)
    requires Reopens(i, before, a) && Reopens(i, before, b)
    ensures a == b
  {
    if i.Instr? && i.opcode.ResourceAcquire? {
      assert a == before + [a[|before|]] && b == before + [b[|before|]];
    }
  }

  /** The verifier's effect of an instruction is what its fields say. */
  lemma EffectExactly(limits: Limits, i: Instruction)
    requires WireOk(limits, i)
    ensures var effect := EffectOf(limits, i);
      && (effect.Acquire? <==> i.Instr? && i.opcode.ResourceAcquire?)
      && (effect.Drop? <==> i.Instr? && i.opcode.ResourceDrop?)
      && (effect.Unwind? <==> i.Instr? && i.opcode.TryResult?)
      && (effect.Exit? <==> i.Instr? && i.opcode.Return?)
      && ((effect.Acquire? || effect.Drop?) ==> Names(i, Resource, effect.resource))
  {
    if i.Instr? && (i.opcode.ResourceAcquire? || i.opcode.ResourceDrop?) { ResourceNamed(limits, i); }
  }

  lemma UnwindIsCleanup(limits: Limits, i: Instruction, resources: seq<nat>)
    requires WireOk(limits, i) && i.Instr? && i.opcode.TryResult?
    ensures EffectOf(limits, i).Unwind?
    ensures EffectOf(limits, i).order == ResourceScopes.Reversed(resources) <==> CleansUp(i, resources)
  {
    ListFieldChecked(limits.registers, i.opcode, Cleanup, i.fields[Cleanup]);
    var items, order := i.fields[Cleanup].items, EffectOf(limits, i).order;
    assert order == ListOf(i.fields[Cleanup]);
    assert forall k :: 0 <= k < |items| ==> items[k] == Num(order[k]);
    if CleansUp(i, resources) { assert order == ResourceScopes.Reversed(resources); }
  }

  lemma StackAfter(limits: Limits, ip: nat, i: Instruction, resources: seq<nat>)
    requires WireOk(limits, i) && ClosesRightly(i, resources)
    ensures ResourceScopes.After(NodeOf(limits, ip, i), resources) == Reopened(limits, i, resources)
  {
    EffectExactly(limits, i);
  }

  lemma StackFollows(f: Function, functionCount: nat, ip: nat, before: seq<nat>, after: seq<nat>)
    requires ShapeOk(f, functionCount) && ip < |f.code| && ClosesRightly(f.code[ip], before)
    requires Reopens(f.code[ip], before, after)
    ensures ResourceScopes.After(GraphOf(f, functionCount)[ip], before) == after
  {
    var limits := LimitsOf(f, functionCount);
    StackAfter(limits, ip, f.code[ip], before);
    ReopensOneWay(f.code[ip], before, after, Reopened(limits, f.code[ip], before));
  }

  lemma EffectIsClosing(limits: Limits, i: Instruction, resources: seq<nat>)
    requires WireOk(limits, i)
    ensures ClosesRightly(i, resources) <==>
      match EffectOf(limits, i)
      case Drop(resource) => resources != [] && resources[|resources| - 1] == resource
      case Unwind(order) => order == ResourceScopes.Reversed(resources)
      case Exit => resources == []
      case _ => true
  {
    EffectExactly(limits, i);
    if i.Instr? && i.opcode.TryResult? { UnwindIsCleanup(limits, i, resources); }
  }

  /** The local check of the scope pass is that nothing is closed wrongly or left open. */
  lemma LocalIsClosing(f: Function, functionCount: nat, ip: nat, resources: seq<nat>)
    requires ShapeOk(f, functionCount) && ip < |f.code|
    ensures ResourceScopes.LocalOk(GraphOf(f, functionCount)[ip], resources) <==>
      Closing(f.code, Frame(ip, map[], resources))
  {
    var limits, i := LimitsOf(f, functionCount), f.code[ip];
    assert GraphOf(f, functionCount)[ip] == NodeOf(limits, ip, i);
    EffectIsClosing(limits, i, resources);
    FallsOffEnd(limits, ip, i);
    if ClosesRightly(i, resources) {
      StackAfter(limits, ip, i, resources);
      forall after | Reopens(i, resources, after) ensures after == Reopened(limits, i, resources) {
        ReopensOneWay(i, resources, after, Reopened(limits, i, resources));
      }
    }
  }

  lemma FallsOffEnd(limits: Limits, ip: nat, i: Instruction)
    requires WireOk(limits, i) && ip < limits.codeLength
    ensures NodeOf(limits, ip, i).fallsOff <==> MayGoOn(i) && ip + 1 == limits.codeLength
  {
  }

  // ----- runs and executions -----

  /** The registers filled, and resources open, when `run` arrives, are those of an execution. */
  ghost predicate Mirrors(g: Graph, inputs: set<nat>, run: Run, s: Frame) {
    IsRun(g, run) && End(g, run) == s.ip && RegisterInit.Written(g, inputs, run) == s.registers.Keys
  }

  lemma StepMirrors(f: Function, functionCount: nat, inputs: set<nat>, run: Run, s: Frame, outcome: Outcome, s': Frame,
                    k: nat)
    requires ShapeOk(f, functionCount) && Mirrors(GraphOf(f, functionCount), inputs, run, s)
    requires Steps(f.code, s, outcome, s')
    requires k < |Edges(LimitsOf(f, functionCount), s.ip, f.code[s.ip])| && Stands(f.code[s.ip], k, outcome)
    requires Edges(LimitsOf(f, functionCount), s.ip, f.code[s.ip])[k].target == s'.ip
    ensures Mirrors(GraphOf(f, functionCount), inputs, Step(run, k), s')
  {
    var g, limits := GraphOf(f, functionCount), LimitsOf(f, functionCount);
    assert g[s.ip] == NodeOf(limits, s.ip, f.code[s.ip]);
    forall r: nat ensures r in RegisterInit.Written(g, inputs, Step(run, k)) <==> r in s'.registers {
      EdgeFills(limits, s.ip, f.code[s.ip], k, outcome, r);
    }
  }

  /** Every execution follows a run. */
  lemma {:induction false} RunFor(f: Function, functionCount: nat, inputs: set<nat>, e: Execution) returns (run: Run)
    requires ShapeOk(f, functionCount) && IsExecution(f.code, inputs, e)
    ensures Mirrors(GraphOf(f, functionCount), inputs, run, e.s)
    ensures var g := GraphOf(f, functionCount);
      (forall other :: ResourceScopes.RunOk(g, other)) ==> ResourceScopes.Stack(g, run) == e.s.resources
  {
    match e
    case Start(s) => run := Entry;
    case Then(before, outcome, s) =>
      var earlier := RunFor(f, functionCount, inputs, before);
      var k := EdgeFor(LimitsOf(f, functionCount), f.code, before.s.ip, outcome, s.ip);
      StepMirrors(f, functionCount, inputs, earlier, before.s, outcome, s, k);
      run := Step(earlier, k);
      if forall other :: ResourceScopes.RunOk(GraphOf(f, functionCount), other) {
        assert ResourceScopes.RunOk(GraphOf(f, functionCount), earlier);
        LocalIsClosing(f, functionCount, before.s.ip, before.s.resources);
        StackFollows(f, functionCount, before.s.ip, before.s.resources, s.resources);
      }
  }

  /** Every run is that of an execution. */
  lemma {:induction false} ExecutionFor(f: Function, functionCount: nat, inputs: set<nat>, run: Run)
    returns (e: Execution)
    requires ShapeOk(f, functionCount) && IsRun(GraphOf(f, functionCount), run)
    ensures IsExecution(f.code, inputs, e) && Mirrors(GraphOf(f, functionCount), inputs, run, e.s)
    ensures AllClose(f.code, inputs) ==> ResourceScopes.Stack(GraphOf(f, functionCount), run) == e.s.resources
  {
    match run
    case Entry => e := Start(Frame(0, map r | r in inputs :: 0, []));
    case Step(before, k) =>
      var earlier := ExecutionFor(f, functionCount, inputs, before);
      var g, limits := GraphOf(f, functionCount), LimitsOf(f, functionCount);
      var ip := earlier.s.ip;
      var outcome := OutcomeFor(limits, f.code, ip, k);
      var s' := Filled(f, functionCount, earlier.s, outcome, k);
      StepMirrors(f, functionCount, inputs, before, earlier.s, outcome, s', k);
      if AllClose(f.code, inputs) {
        assert Closing(f.code, earlier.s);
        StackFollows(f, functionCount, ip, earlier.s.resources, s'.resources);
      }
      e := Then(earlier, outcome, s');
  }

  lemma Filled(f: Function, functionCount: nat, s: Frame, outcome: Outcome, k: nat) returns (s': Frame)
    requires ShapeOk(f, functionCount) && s.ip < |f.code|
    requires k < |Edges(LimitsOf(f, functionCount), s.ip, f.code[s.ip])| && Stands(f.code[s.ip], k, outcome)
    requires GoesTo(f.code, s.ip, outcome, Edges(LimitsOf(f, functionCount), s.ip, f.code[s.ip])[k].target)
    ensures Steps(f.code, s, outcome, s') && s'.ip == Edges(LimitsOf(f, functionCount), s.ip, f.code[s.ip])[k].target
  {
    var limits, i := LimitsOf(f, functionCount), f.code[s.ip];
    var edge := Edges(limits, s.ip, i)[k];
    var written := AccessOf(limits, i).writing + edge.defs;
    var registers := map r | r in s.registers.Keys + written :: if r in s.registers then s.registers[r] else 0;
    forall r: nat ensures r in written <==> Fills(i, outcome, r) { EdgeFills(limits, s.ip, i, k, outcome, r); }
    s' := Frame(edge.target, registers, Reopened(limits, i, s.resources));
  }

  // ----- what acceptance means -----

  /** The next instruction finds the registers it needs. */
  ghost predicate FindsOperands(code: seq<Instruction>, s: Frame) {
    s.ip < |code| ==> forall r: nat :: Needs(code[s.ip], r) ==> r in s.registers
  }

  ghost predicate OperandsFound(code: seq<Instruction>, inputs: set<nat>) {
    forall e :: IsExecution(code, inputs, e) ==> FindsOperands(code, e.s)
  }

  lemma FindsIsUses(f: Function, functionCount: nat, inputs: set<nat>, run: Run, s: Frame)
    requires ShapeOk(f, functionCount) && s.ip < |f.code| && Mirrors(GraphOf(f, functionCount), inputs, run, s)
    ensures var g := GraphOf(f, functionCount);
      FindsOperands(f.code, s) <==> g[s.ip].uses <= RegisterInit.Written(g, inputs, run)
  {
    forall r: nat ensures r in GraphOf(f, functionCount)[s.ip].uses <==> Needs(f.code[s.ip], r) {
      ReadsExactly(LimitsOf(f, functionCount), f.code[s.ip], r);
    }
  }

  /** The verifier's dataflow property holds exactly if every execution finds the operands of every instruction. */
  lemma InitialisationIsFound(f: Function, functionCount: nat, inputs: set<nat>)
    requires ShapeOk(f, functionCount)
    ensures RegisterInit.InitSafe(GraphOf(f, functionCount), inputs) <==> OperandsFound(f.code, inputs)
  {
    var g := GraphOf(f, functionCount);
    if RegisterInit.InitSafe(g, inputs) {
      forall e | IsExecution(f.code, inputs, e) ensures FindsOperands(f.code, e.s) {
        var run := RunFor(f, functionCount, inputs, e);
        if e.s.ip < |f.code| { FindsIsUses(f, functionCount, inputs, run, e.s); }
      }
    }
    if OperandsFound(f.code, inputs) {
      forall run | IsRun(g, run) && End(g, run) < |g|
        ensures g[End(g, run)].uses <= RegisterInit.Written(g, inputs, run)
      {
        var e := ExecutionFor(f, functionCount, inputs, run);
        FindsIsUses(f, functionCount, inputs, run, e.s);
      }
    }
  }

  ghost predicate SameOpen(code: seq<Instruction>, inputs: set<nat>, a: Execution, b: Execution) {
    IsExecution(code, inputs, a) && IsExecution(code, inputs, b) && a.s.ip == b.s.ip ==> a.s.resources == b.s.resources
  }

  /** Executions close what they open, and which resources are open depends on the instruction alone. */
  ghost predicate ScopesKept(code: seq<Instruction>, inputs: set<nat>) {
    AllClose(code, inputs) && forall a, b :: SameOpen(code, inputs, a, b)
  }

  lemma SafeScopesAreKept(f: Function, functionCount: nat, inputs: set<nat>)
    requires ShapeOk(f, functionCount) && ResourceScopes.ScopesSafe(GraphOf(f, functionCount))
    ensures ScopesKept(f.code, inputs)
  {
    var g := GraphOf(f, functionCount);
    forall e | IsExecution(f.code, inputs, e) ensures Closing(f.code, e.s) {
      var run := RunFor(f, functionCount, inputs, e);
      assert ResourceScopes.RunOk(g, run);
      if e.s.ip < |f.code| { LocalIsClosing(f, functionCount, e.s.ip, e.s.resources); }
    }
    forall a, b ensures SameOpen(f.code, inputs, a, b) {
      if IsExecution(f.code, inputs, a) && IsExecution(f.code, inputs, b) && a.s.ip == b.s.ip {
        var run := RunFor(f, functionCount, inputs, a);
        var other := RunFor(f, functionCount, inputs, b);
        assert ResourceScopes.SameStack(g, run, other);
      }
    }
  }

  lemma KeptScopesAreSafe(f: Function, functionCount: nat, inputs: set<nat>)
    requires ShapeOk(f, functionCount) && ScopesKept(f.code, inputs)
    ensures ResourceScopes.ScopesSafe(GraphOf(f, functionCount))
  {
    var g := GraphOf(f, functionCount);
    forall run ensures ResourceScopes.RunOk(g, run) {
      if IsRun(g, run) && End(g, run) < |g| {
        var e := ExecutionFor(f, functionCount, inputs, run);
        assert Closing(f.code, e.s);
        LocalIsClosing(f, functionCount, e.s.ip, e.s.resources);
      }
    }
    forall run, other ensures ResourceScopes.SameStack(g, run, other) {
      if IsRun(g, run) && IsRun(g, other) && End(g, run) == End(g, other) {
        var a := ExecutionFor(f, functionCount, inputs, run);
        var b := ExecutionFor(f, functionCount, inputs, other);
        assert SameOpen(f.code, inputs, a, b);
      }
    }
  }

  predicate Acquires(code: seq<Instruction>) {
    exists ip :: 0 <= ip < |code| && code[ip].Instr? && code[ip].opcode.ResourceAcquire?
  }

  lemma MarkersAreAcquires(f: Function, functionCount: nat)
    requires ShapeOk(f, functionCount)
    ensures ResourceScopes.HasMarkers(GraphOf(f, functionCount)) <==> Acquires(f.code)
  {
    forall ip | 0 <= ip < |f.code| ensures GraphOf(f, functionCount)[ip].effect.Acquire? <==>
      f.code[ip].Instr? && f.code[ip].opcode.ResourceAcquire?
    {
      EffectExactly(LimitsOf(f, functionCount), f.code[ip]);
    }
  }

  /** A frame is entered with parameters, captures and, in a drop function, the resource's fields. */
  predicate HoldsAtEntry(f: Function, r: nat) {
    r < f.params + f.captures || exists d :: d in f.drops && d in f.locals && f.locals[d] == r
  }

  /** A body that passes the shape checks is accepted exactly if all its executions find their operands and, if it
      acquires resources at all, close them as they should. */
  lemma AcceptanceIsExecution(f: Function, functionCount: nat, inputs: set<nat>)
    requires ShapeOk(f, functionCount) && forall r: nat :: r in inputs <==> HoldsAtEntry(f, r)
    ensures Accepted(f, functionCount) <==>
      OperandsFound(f.code, inputs) && (Acquires(f.code) ==> ScopesKept(f.code, inputs))
  {
    assert inputs == InitialRegisters(f);
    InitialisationIsFound(f, functionCount, inputs);
    MarkersAreAcquires(f, functionCount);
    if ResourceScopes.ScopesSafe(GraphOf(f, functionCount)) { SafeScopesAreKept(f, functionCount, inputs); }
    if ScopesKept(f.code, inputs) { KeptScopesAreSafe(f, functionCount, inputs); }
  }
}
