/** Definite initialisation across calls.

    Verification treats one body at a time and grants it its inputs. Here whole units run: any instruction may take
    any of its out-edges, a `CallKnown` enters its callee with the parameters it passes and waits for it, a
    `CallDynamic` does so with one of its dispatch targets, a `SpawnTask` starts its callee likewise and goes on,
    and a body is left by a return, by falling off its end, or by the short-circuit of a `TryResult`. It is decided
    exactly when every register read was written before. A drop function is also granted its field registers, which
    a call does not set, and nothing forbids calling it. */
module ExecutionReads {
  import opened ControlFlow
  import opened TypedFacts
  import opened FunctionVerifier
  import B = Bytecode
  import RegisterInit
  import ResourceScopes

  // ----- programs -----

  /** A callee, and the registers a call to it sets in its frame. */
  datatype CallTo = CallTo(callee: nat, passed: set<nat>)

  /** An instruction that calls one of its targets; `waits` if it goes on only after the callee has returned. */
  datatype Site = Site(targets: set<CallTo>, waits: bool)

  /** A verified body: its graph, its parameters, the inputs it was verified with, and its calling instructions. */
  datatype Body = Body(graph: Graph, params: set<nat>, inputs: set<nat>, calls: map<nat, Site>)

  type Program = seq<Body>

  ghost predicate CallOk(p: Program, call: CallTo) {
    call.callee < |p| && call.passed == p[call.callee].params
  }

  ghost predicate BodyOk(p: Program, body: Body) {
    && Closed(body.graph) && RegisterInit.InitSafe(body.graph, body.inputs)
    && (forall ip :: ip in body.calls ==> ip < |body.graph|)
    && forall ip, call :: ip in body.calls && call in body.calls[ip].targets ==> CallOk(p, call)
  }

  ghost predicate ProgramOk(p: Program) {
    forall f :: 0 <= f < |p| ==> BodyOk(p, p[f])
  }

  // ----- executions -----

  /** A frame knows only which registers it holds; their values do not matter here. */
  datatype Frame = Frame(fn: nat, ip: nat, held: set<nat>)

  datatype State = Empty | Push(callers: State, top: Frame)

  predicate At(p: Program, fr: Frame) {
    fr.fn < |p| && fr.ip < |p[fr.fn].graph|
  }

  function NodeAt(p: Program, fr: Frame): Node
    requires At(p, fr)
  {
    p[fr.fn].graph[fr.ip]
  }

  predicate Along(p: Program, fr: Frame, k: nat, fr': Frame) {
    && At(p, fr) && k < |NodeAt(p, fr).edges|
    && var edge := NodeAt(p, fr).edges[k];
       fr' == Frame(fr.fn, edge.target, fr.held + NodeAt(p, fr).defs + edge.defs)
  }

  predicate Calls(p: Program, fr: Frame, call: CallTo) {
    At(p, fr) && fr.ip in p[fr.fn].calls && call in p[fr.fn].calls[fr.ip].targets
  }

  /** The frame's instruction does not go on before its callee has returned. */
  predicate Waits(p: Program, fr: Frame) {
    At(p, fr) && fr.ip in p[fr.fn].calls && p[fr.fn].calls[fr.ip].waits
  }

  ghost predicate LocalStep(p: Program, fr: Frame, fr': Frame) {
    !Waits(p, fr) && exists k: nat :: Along(p, fr, k, fr')
  }

  ghost predicate CallStep(p: Program, fr: Frame, callee: Frame) {
    exists call :: Calls(p, fr, call) && callee == Frame(call.callee, 0, call.passed)
  }

  /** The frame's instruction can leave its body, or the body is empty. */
  predicate Leaves(p: Program, fr: Frame) {
    || (fr.fn < |p| && p[fr.fn].graph == [])
    || (At(p, fr) && (NodeAt(p, fr).effect.Exit? || NodeAt(p, fr).effect.Unwind? || NodeAt(p, fr).fallsOff))
  }

  /** The caller resumes along an edge of its call, which writes the destination. */
  ghost predicate ReturnStep(p: Program, caller: Frame, callee: Frame, caller': Frame) {
    && Leaves(p, callee) && Waits(p, caller) && (exists call :: Calls(p, caller, call) && call.callee == callee.fn)
    && exists k: nat :: Along(p, caller, k, caller')
  }

  ghost predicate Moves(p: Program, s: State, s': State) {
    && s.Push? && s'.Push?
    && (|| (s'.callers == s.callers && LocalStep(p, s.top, s'.top))
        || (s'.callers == s && CallStep(p, s.top, s'.top))
        || (s.callers.Push? && s'.callers == s.callers.callers && ReturnStep(p, s.callers.top, s.top, s'.top)))
  }

  datatype Execution = Start(s: State) | Then(before: Execution, s: State)

  ghost predicate IsExecution(p: Program, e: Execution) {
    e.Then? ==> IsExecution(p, e.before) && Moves(p, e.before.s, e.s)
  }

  function FirstState(e: Execution): State {
    match e case Start(s) => s case Then(before, _) => FirstState(before)
  }

  /** The running instruction finds every register it reads. */
  predicate Finds(p: Program, s: State) {
    s.Push? && At(p, s.top) ==> NodeAt(p, s.top).uses <= s.top.held
  }

  /** `e` begins by entering `f` with at least its verified inputs. */
  ghost predicate Enters(p: Program, e: Execution, f: nat, held: set<nat>) {
    f < |p| && p[f].inputs <= held && IsExecution(p, e) && FirstState(e) == Push(Empty, Frame(f, 0, held))
  }

  ghost predicate AlwaysFinds(p: Program) {
    forall e, f, held :: Enters(p, e, f, held) ==> Finds(p, e.s)
  }

  // ----- the condition -----

  /** `e` takes a call of `f` from its entry to where it can be left. */
  ghost predicate ReturnsBy(p: Program, f: nat, e: Execution) {
    && f < |p| && IsExecution(p, e) && FirstState(e) == Push(Empty, Frame(f, 0, p[f].params))
    && e.s.Push? && e.s.callers == Empty && e.s.top.fn == f && Leaves(p, e.s.top)
  }

  ghost predicate CanReturn(p: Program, f: nat) {
    exists e :: ReturnsBy(p, f, e)
  }

  /** Control can go past instruction `ip`: it waits for no call, or one of its targets can return. */
  ghost predicate Passes(p: Program, f: nat, ip: nat)
    requires f < |p|
  {
    ip in p[f].calls && p[f].calls[ip].waits ==>
      exists call :: call in p[f].calls[ip].targets && CanReturn(p, call.callee)
  }

  /** A run that passes every call on its way. */
  ghost predicate IsLive(p: Program, f: nat, run: Run)
    requires f < |p|
  {
    && IsRun(p[f].graph, run)
    && (run.Step? ==> IsLive(p, f, run.before) && Passes(p, f, End(p[f].graph, run.before)))
  }

  /** From `inputs`, every live run initialises what it reads. */
  ghost predicate LiveSafe(p: Program, f: nat, inputs: set<nat>)
    requires f < |p|
  {
    var g := p[f].graph;
    forall run :: IsLive(p, f, run) && End(g, run) < |g| ==> g[End(g, run)].uses <= RegisterInit.Written(g, inputs, run)
  }

  ghost predicate LiveCall(p: Program, f: nat, ip: nat, call: CallTo) {
    && f < |p| && ip in p[f].calls && call in p[f].calls[ip].targets
    && exists run :: IsLive(p, f, run) && End(p[f].graph, run) == ip
  }

  ghost predicate CalleeSafe(p: Program, call: CallTo) {
    call.callee < |p| && LiveSafe(p, call.callee, p[call.callee].params)
  }

  /** Every body that is called where some live run arrives needs its parameters only. */
  ghost predicate CallsStandAlone(p: Program)
    requires ProgramOk(p)
  {
    forall f: nat, ip: nat, call :: LiveCall(p, f, ip, call) ==> CalleeSafe(p, call)
  }

  lemma SafeIsLiveSafe(p: Program, f: nat, inputs: set<nat>)
    requires f < |p| && RegisterInit.InitSafe(p[f].graph, inputs)
    ensures LiveSafe(p, f, inputs)
  {
  }

  /** In a body without direct calls every run is live, so there the two notions agree. */
  lemma CallFreeBodies(p: Program, f: nat, inputs: set<nat>)
    requires f < |p| && p[f].calls == map[]
    ensures LiveSafe(p, f, inputs) <==> RegisterInit.InitSafe(p[f].graph, inputs)
  {
    forall run | IsRun(p[f].graph, run) ensures IsLive(p, f, run) { CallFreeRuns(p, f, run); }
  }

  lemma {:induction false} CallFreeRuns(p: Program, f: nat, run: Run)
    requires f < |p| && p[f].calls == map[] && IsRun(p[f].graph, run)
    ensures IsLive(p, f, run)
  {
    if run.Step? { CallFreeRuns(p, f, run.before); }
  }

  // ----- putting executions together -----

  function Onto(base: State, s: State): State {
    match s case Empty => base case Push(callers, top) => Push(Onto(base, callers), top)
  }

  function Lifted(base: State, e: Execution): Execution {
    match e case Start(s) => Start(Onto(base, s)) case Then(before, s) => Then(Lifted(base, before), Onto(base, s))
  }

  lemma {:induction false} LiftedRuns(p: Program, base: State, e: Execution)
    requires IsExecution(p, e)
    ensures IsExecution(p, Lifted(base, e)) && Lifted(base, e).s == Onto(base, e.s)
    ensures FirstState(Lifted(base, e)) == Onto(base, FirstState(e))
  {
    if e.Then? { LiftedRuns(p, base, e.before); }
  }

  function Joined(e: Execution, more: Execution): Execution {
    match more case Start(_) => e case Then(before, s) => Then(Joined(e, before), s)
  }

  lemma {:induction false} JoinedRuns(p: Program, e: Execution, more: Execution)
    requires IsExecution(p, e) && IsExecution(p, more) && FirstState(more) == e.s
    ensures IsExecution(p, Joined(e, more)) && Joined(e, more).s == more.s
    ensures FirstState(Joined(e, more)) == FirstState(e)
  {
    if more.Then? { JoinedRuns(p, e, more.before); }
  }

  /** From a frame at a call, through the callee and back. */
  lemma ThroughCall(p: Program, e: Execution, base: State, fr: Frame, call: CallTo, inner: Execution, k: nat,
                    fr': Frame)
    returns (e': Execution)
    requires ProgramOk(p) && IsExecution(p, e) && e.s == Push(base, fr) && Waits(p, fr) && Along(p, fr, k, fr')
    requires Calls(p, fr, call) && ReturnsBy(p, call.callee, inner)
    ensures IsExecution(p, e') && FirstState(e') == FirstState(e) && e'.s == Push(base, fr')
  {
    assert BodyOk(p, p[fr.fn]) && CallOk(p, call);
    var entered := Then(e, Push(e.s, Frame(call.callee, 0, call.passed)));
    assert CallStep(p, fr, entered.s.top);
    LiftedRuns(p, e.s, inner);
    JoinedRuns(p, entered, Lifted(e.s, inner));
    var inside := Joined(entered, Lifted(e.s, inner));
    e' := Then(inside, Push(base, fr'));
    assert ReturnStep(p, fr, inner.s.top, fr');
  }

  /** Every live run of a body can be executed, on top of any stack, and leaves the frame holding exactly what the run
      has written. */
  lemma {:induction false} Walk(p: Program, f: nat, inputs: set<nat>, base: State, run: Run) returns (e: Execution)
    requires ProgramOk(p) && f < |p| && IsLive(p, f, run)
    ensures IsExecution(p, e) && FirstState(e) == Push(base, Frame(f, 0, inputs))
    ensures e.s == Push(base, Frame(f, End(p[f].graph, run), RegisterInit.Written(p[f].graph, inputs, run)))
  {
    match run
    case Entry => e := Start(Push(base, Frame(f, 0, inputs)));
    case Step(before, k) =>
      var e0 := Walk(p, f, inputs, base, before);
      var g, fr := p[f].graph, e0.s.top;
      var fr' := Frame(f, End(g, run), RegisterInit.Written(g, inputs, run));
      assert Along(p, fr, k, fr');
      if Waits(p, fr) {
        var call :| call in p[f].calls[fr.ip].targets && CanReturn(p, call.callee);
        var inner :| ReturnsBy(p, call.callee, inner);
        e := ThroughCall(p, e0, base, fr, call, inner, k, fr');
      } else {
        e := Then(e0, Push(base, fr'));
        assert LocalStep(p, fr, fr');
      }
  }

  // ----- the condition is necessary -----

  lemma CalledBodyStandsAlone(p: Program, f: nat, ip: nat, call: CallTo)
    requires ProgramOk(p) && AlwaysFinds(p) && LiveCall(p, f, ip, call)
    ensures CalleeSafe(p, call)
  {
    var arrival :| IsLive(p, f, arrival) && End(p[f].graph, arrival) == ip;
    var e0 := Walk(p, f, p[f].inputs, Empty, arrival);
    assert BodyOk(p, p[f]) && CallOk(p, call);
    var c := call.callee;
    var entered := Then(e0, Push(e0.s, Frame(c, 0, p[c].params)));
    assert Calls(p, e0.s.top, call);
    assert CallStep(p, e0.s.top, entered.s.top) && IsExecution(p, entered);
    forall run | IsLive(p, c, run) && End(p[c].graph, run) < |p[c].graph|
      ensures p[c].graph[End(p[c].graph, run)].uses <= RegisterInit.Written(p[c].graph, p[c].params, run)
    {
      var inner := Walk(p, c, p[c].params, e0.s, run);
      JoinedRuns(p, entered, inner);
      assert Enters(p, Joined(entered, inner), f, p[f].inputs);
      assert Finds(p, inner.s);
    }
  }

  /** A call to a body that first reads a register the call does not set, such as a preloaded field, misses it. */
  lemma PreloadedFieldIsMissed(p: Program, f: nat, run: Run, call: CallTo, r: nat) returns (e: Execution)
    requires ProgramOk(p) && f < |p| && IsLive(p, f, run)
    requires End(p[f].graph, run) in p[f].calls && call in p[f].calls[End(p[f].graph, run)].targets
    requires call.callee < |p| && p[call.callee].graph != [] && r in p[call.callee].graph[0].uses && r !in call.passed
    ensures Enters(p, e, f, p[f].inputs) && !Finds(p, e.s) && e.s.Push? && r !in e.s.top.held
  {
    var e0 := Walk(p, f, p[f].inputs, Empty, run);
    assert BodyOk(p, p[f]) && Calls(p, e0.s.top, call);
    e := Then(e0, Push(e0.s, Frame(call.callee, 0, call.passed)));
    assert CallStep(p, e0.s.top, e.s.top);
  }

  // ----- the condition is sufficient -----

  /** A live run from inputs that suffice explains what the frame holds. */
  ghost predicate Explains(p: Program, fr: Frame, inputs: set<nat>, run: Run)
    requires fr.fn < |p|
  {
    && LiveSafe(p, fr.fn, inputs) && IsLive(p, fr.fn, run) && End(p[fr.fn].graph, run) == fr.ip
    && RegisterInit.Written(p[fr.fn].graph, inputs, run) <= fr.held
  }

  ghost predicate FrameRuns(p: Program, fr: Frame) {
    fr.fn < |p| && (At(p, fr) ==> exists inputs, run :: Explains(p, fr, inputs, run))
  }

  /** `e` takes a call of the frame's body to the frame, by itself. */
  ghost predicate ShownBy(p: Program, fr: Frame, e: Execution) {
    && fr.fn < |p| && IsExecution(p, e)
    && FirstState(e) == Push(Empty, Frame(fr.fn, 0, p[fr.fn].params)) && e.s == Push(Empty, fr)
  }

  ghost predicate Called(p: Program, caller: Frame, callee: Frame) {
    (exists call :: Calls(p, caller, call) && call.callee == callee.fn) && exists e :: ShownBy(p, callee, e)
  }

  ghost predicate StateRuns(p: Program, s: State) {
    s.Push? ==>
      && FrameRuns(p, s.top) && StateRuns(p, s.callers)
      && (s.callers.Push? ==> Called(p, s.callers.top, s.top))
  }

  lemma AlongKeeps(p: Program, fr: Frame, k: nat, fr': Frame)
    requires FrameRuns(p, fr) && Along(p, fr, k, fr') && Passes(p, fr.fn, fr.ip)
    ensures FrameRuns(p, fr')
  {
    var inputs, run :| Explains(p, fr, inputs, run);
    assert Explains(p, fr', inputs, Step(run, k));
  }

  lemma LocalStepRuns(p: Program, callers: State, fr: Frame, fr': Frame)
    requires StateRuns(p, Push(callers, fr)) && LocalStep(p, fr, fr')
    ensures StateRuns(p, Push(callers, fr'))
  {
    var k: nat :| Along(p, fr, k, fr');
    AlongKeeps(p, fr, k, fr');
    if callers.Push? {
      var e :| ShownBy(p, fr, e);
      assert ShownBy(p, fr', Then(e, Push(Empty, fr')));
    }
  }

  lemma CallStepRuns(p: Program, s: State, callee: Frame)
    requires ProgramOk(p) && CallsStandAlone(p) && StateRuns(p, s) && s.Push? && CallStep(p, s.top, callee)
    ensures StateRuns(p, Push(s, callee))
  {
    var call :| Calls(p, s.top, call) && callee == Frame(call.callee, 0, call.passed);
    assert BodyOk(p, p[s.top.fn]) && CallOk(p, call);
    var inputs, run :| Explains(p, s.top, inputs, run);
    assert LiveCall(p, s.top.fn, s.top.ip, call);
    assert ShownBy(p, callee, Start(Push(Empty, callee)));
    if At(p, callee) { assert Explains(p, callee, p[callee.fn].params, Entry); }
  }

  lemma ReturnStepRuns(p: Program, callers: State, caller: Frame, callee: Frame, caller': Frame)
    requires ProgramOk(p) && StateRuns(p, Push(Push(callers, caller), callee)) && ReturnStep(p, caller, callee, caller')
    ensures StateRuns(p, Push(callers, caller'))
  {
    var k: nat :| Along(p, caller, k, caller');
    var inner :| ShownBy(p, callee, inner);
    assert ReturnsBy(p, callee.fn, inner);
    var call :| Calls(p, caller, call) && call.callee == callee.fn;
    assert CanReturn(p, call.callee);
    assert StateRuns(p, Push(callers, caller));
    AlongKeeps(p, caller, k, caller');
    if callers.Push? {
      var e :| ShownBy(p, caller, e);
      var e' := ThroughCall(p, e, Empty, caller, call, inner, k, caller');
      assert ShownBy(p, caller', e');
    }
  }

  lemma MoveRuns(p: Program, s: State, s': State)
    requires ProgramOk(p) && CallsStandAlone(p) && StateRuns(p, s) && Moves(p, s, s')
    ensures StateRuns(p, s')
  {
    if s'.callers == s.callers && LocalStep(p, s.top, s'.top) {
      LocalStepRuns(p, s.callers, s.top, s'.top);
    } else if s'.callers == s && CallStep(p, s.top, s'.top) {
      CallStepRuns(p, s, s'.top);
    } else {
      ReturnStepRuns(p, s.callers.callers, s.callers.top, s.top, s'.top);
    }
  }

  lemma {:induction false} ExecutionsRun(p: Program, e: Execution)
    requires ProgramOk(p) && CallsStandAlone(p) && IsExecution(p, e) && StateRuns(p, FirstState(e))
    ensures StateRuns(p, e.s)
  {
    match e
    case Start(_) =>
    case Then(before, s) =>
      ExecutionsRun(p, before);
      MoveRuns(p, before.s, s);
  }

  lemma EnteredFinds(p: Program, e: Execution, f: nat, held: set<nat>)
    requires ProgramOk(p) && CallsStandAlone(p) && Enters(p, e, f, held)
    ensures Finds(p, e.s)
  {
    assert BodyOk(p, p[f]);
    SafeIsLiveSafe(p, f, p[f].inputs);
    var entry := Frame(f, 0, held);
    if At(p, entry) { assert Explains(p, entry, p[f].inputs, Entry); }
    ExecutionsRun(p, e);
    if e.s.Push? && At(p, e.s.top) {
      var inputs, run :| Explains(p, e.s.top, inputs, run);
    }
  }

  /** Every execution finds every register it reads, exactly when each body that can come to be called stands alone. */
  lemma ReadsAreFoundExactly(p: Program)
    requires ProgramOk(p)
    ensures AlwaysFinds(p) <==> CallsStandAlone(p)
  {
    if CallsStandAlone(p) {
      forall e, f, held | Enters(p, e, f, held) ensures Finds(p, e.s) { EnteredFinds(p, e, f, held); }
    }
    if AlwaysFinds(p) {
      forall f: nat, ip: nat, call | LiveCall(p, f, ip, call) ensures CalleeSafe(p, call) {
        CalledBodyStandsAlone(p, f, ip, call);
      }
    }
  }

  /** Every execution that enters `f` with its parameters only finds its reads. */
  ghost predicate EntryFinds(p: Program, f: nat)
    requires f < |p|
  {
    forall e :: IsExecution(p, e) && FirstState(e) == Push(Empty, Frame(f, 0, p[f].params)) ==> Finds(p, e.s)
  }

  /** For a body without direct calls, whatever the rest of the program: this is exactly the verifier's own check, with
      the parameters as only inputs. */
  lemma CallFreeEntriesExactly(p: Program, f: nat)
    requires ProgramOk(p) && f < |p| && p[f].calls == map[]
    ensures EntryFinds(p, f) <==> RegisterInit.InitSafe(p[f].graph, p[f].params)
  {
    CallFreeBodies(p, f, p[f].params);
    if EntryFinds(p, f) { FoundIsLiveSafe(p, f); }
    if LiveSafe(p, f, p[f].params) {
      forall e | IsExecution(p, e) && FirstState(e) == Push(Empty, Frame(f, 0, p[f].params)) ensures Finds(p, e.s) {
        CallFreeStays(p, f, e);
      }
    }
  }

  lemma FoundIsLiveSafe(p: Program, f: nat)
    requires ProgramOk(p) && f < |p| && EntryFinds(p, f)
    ensures LiveSafe(p, f, p[f].params)
  {
    var g := p[f].graph;
    forall run | IsLive(p, f, run) && End(g, run) < |g|
      ensures g[End(g, run)].uses <= RegisterInit.Written(g, p[f].params, run)
    {
      var e := Walk(p, f, p[f].params, Empty, run);
      assert Finds(p, e.s);
    }
  }

  lemma {:induction false} CallFreeStays(p: Program, f: nat, e: Execution)
    requires f < |p| && p[f].calls == map[] && LiveSafe(p, f, p[f].params)
    requires IsExecution(p, e) && FirstState(e) == Push(Empty, Frame(f, 0, p[f].params))
    ensures e.s.Push? && e.s.callers == Empty && e.s.top.fn == f && FrameRuns(p, e.s.top) && Finds(p, e.s)
  {
    match e
    case Start(s) => if At(p, s.top) { assert Explains(p, s.top, p[f].params, Entry); }
    case Then(before, s) =>
      CallFreeStays(p, f, before);
      var k: nat :| Along(p, before.s.top, k, s.top);
      AlongKeeps(p, before.s.top, k, s.top);
  }

  // ----- accepted units -----

  ghost function GraphAt(u: ExecutableUnit, f: nat): Graph
    requires BodiesOk(u) && f < |u.functions|
  {
    B.GraphOf(u.functions[f], |u.functions|)
  }

  predicate IsCallSite(i: B.Instruction) {
    IsDirectCall(i) || IsDynamicCall(i)
  }

  /** The functions a calling instruction may enter. */
  ghost function CalleesOf(limits: B.Limits, i: B.Instruction): (callees: set<nat>)
    requires IsCallSite(i) && B.WireOk(limits, i)
    ensures forall f :: f in callees ==> f < limits.functionCount
  {
    if IsDirectCall(i) then {CalleeOf(limits, i)} else DispatchOf(limits, i)
  }

  ghost function SiteOf(limits: B.Limits, i: B.Instruction): Site
    requires IsCallSite(i) && B.WireOk(limits, i)
  {
    Site(set f | f in CalleesOf(limits, i) :: CallTo(f, B.Range(|ArgsOf(limits, i)|)), !i.opcode.SpawnTask?)
  }

  ghost function CallsOf(u: ExecutableUnit, f: nat): map<nat, Site>
    requires BodiesOk(u) && f < |u.functions|
  {
    var code, limits := u.functions[f].code, LimitsAt(u, f);
    map ip: nat | ip < |code| && IsCallSite(code[ip]) :: SiteOf(limits, code[ip])
  }

  ghost function BodyAt(u: ExecutableUnit, f: nat): Body
    requires BodiesOk(u) && f < |u.functions|
  {
    Body(GraphAt(u, f), B.Range(u.functions[f].params), B.InitialRegisters(u.functions[f]), CallsOf(u, f))
  }

  ghost function ProgramOf(u: ExecutableUnit): Program
    requires BodiesOk(u)
  {
    seq(|u.functions|, f requires 0 <= f < |u.functions| => BodyAt(u, f))
  }

  /** Call shapes make every call pass exactly its callee's parameters. */
  lemma UnitsAreOk(u: ExecutableUnit)
    requires UnitOk(u)
    ensures ProgramOk(ProgramOf(u))
  {
    var p := ProgramOf(u);
    forall f | 0 <= f < |p| ensures BodyOk(p, p[f]) {
      B.GraphIsClosed(u.functions[f], |u.functions|);
      forall ip, call | ip in p[f].calls && call in p[f].calls[ip].targets ensures CallOk(p, call) {
        TargetIsOk(u, f, ip, call);
      }
    }
  }

  lemma TargetIsOk(u: ExecutableUnit, f: nat, ip: nat, call: CallTo)
    requires UnitOk(u) && f < |u.functions| && ip in CallsOf(u, f) && call in CallsOf(u, f)[ip].targets
    ensures CallOk(ProgramOf(u), call)
  {
    assert CallShapeOk(u, f, ip);
    assert ProgramOf(u)[call.callee] == BodyAt(u, call.callee);
  }

  /** The body initialises what it reads from its parameters alone. */
  ghost predicate StandsAlone(u: ExecutableUnit, f: nat)
    requires BodiesOk(u) && f < |u.functions|
  {
    RegisterInit.InitSafe(GraphAt(u, f), B.Range(u.functions[f].params))
  }

  /** An accepted function that is no drop function and has no captures stands alone. */
  lemma OrdinaryFunctionsStandAlone(u: ExecutableUnit, f: nat)
    requires BodiesOk(u) && f < |u.functions| && u.functions[f].drops == [] && u.functions[f].captures == 0
    ensures StandsAlone(u, f)
  {
    assert B.InitialRegisters(u.functions[f]) == B.Range(u.functions[f].params);
  }

  /** For every accepted unit: all its executions find their reads exactly when the bodies that can come to be called
      stand alone. */
  lemma UnitFindsItsReadsExactly(u: ExecutableUnit)
    requires UnitOk(u)
    ensures ProgramOk(ProgramOf(u)) && (AlwaysFinds(ProgramOf(u)) <==> CallsStandAlone(ProgramOf(u)))
  {
    UnitsAreOk(u);
    ReadsAreFoundExactly(ProgramOf(u));
  }

  ghost predicate CalleesStandAlone(u: ExecutableUnit)
    requires BodiesOk(u)
  {
    forall f: nat, ip: nat ::
      f < |u.functions| && ip < |u.functions[f].code| && IsCallSite(u.functions[f].code[ip]) ==>
        forall c :: c in CalleesOf(LimitsAt(u, f), u.functions[f].code[ip]) ==> StandsAlone(u, c)
  }

  /** If every body that is called directly or dynamically would be accepted with its parameters as only inputs,
      then at every state of every execution, over all instructions, each register read is held. */
  lemma ExecutionsFindTheirReads(u: ExecutableUnit, e: Execution, f: nat, held: set<nat>)
    requires UnitOk(u) && CalleesStandAlone(u) && Enters(ProgramOf(u), e, f, held)
    ensures Finds(ProgramOf(u), e.s)
  {
    var p := ProgramOf(u);
    UnitsAreOk(u);
    forall g: nat, ip: nat, call | LiveCall(p, g, ip, call) ensures CalleeSafe(p, call) {
      CalleeIsSafe(u, g, ip, call);
    }
    EnteredFinds(p, e, f, held);
  }

  lemma CalleeIsSafe(u: ExecutableUnit, f: nat, ip: nat, call: CallTo)
    requires UnitOk(u) && CalleesStandAlone(u) && f < |u.functions|
    requires ip in CallsOf(u, f) && call in CallsOf(u, f)[ip].targets
    ensures CalleeSafe(ProgramOf(u), call)
  {
    var p, c := ProgramOf(u), call.callee;
    assert p[c] == BodyAt(u, c);
    assert c in CalleesOf(LimitsAt(u, f), u.functions[f].code[ip]);
    assert StandsAlone(u, c);
    SafeIsLiveSafe(p, c, p[c].params);
  }

  // ----- units for which it fails -----

  predicate IsCallFields(fields: map<B.Field, B.Json>) {
    && fields.Keys == {B.Dst, B.Callee, B.Args, B.MutArgs} && fields[B.Dst] == B.Num(0) && fields[B.Callee] == B.Num(1)
    && fields[B.Args] == B.Arr([]) && fields[B.MutArgs] == B.Arr([])
  }

  /** One instruction: call function 1, without arguments. */
  predicate IsCaller(f: B.Function) {
    && f.params == 0 && f.captures == 0 && f.registers == 1 && f.locals == map[] && f.drops == []
    && |f.code| == 1 && f.code[0].Instr? && f.code[0].opcode == B.CallKnown && IsCallFields(f.code[0].fields)
  }

  /** A drop function whose resource has one field, in register 0, and which reads it. */
  predicate IsDrop(f: B.Function) {
    && f.params == 0 && f.captures == 0 && f.registers == 1
    && |f.drops| == 1 && f.drops == [f.drops[0]] && f.locals == map[f.drops[0] := 0]
    && |f.code| == 1 && f.code[0].Instr? && f.code[0].opcode == B.Return
    && f.code[0].fields.Keys == {B.Src} && f.code[0].fields[B.Src] == B.Num(0)
  }

  /** The caller and the drop function, none of them public. */
  predicate IsDropCaller(u: ExecutableUnit) {
    && |u.functions| == 2 && IsCaller(u.functions[0]) && IsDrop(u.functions[1]) && NamesOk(u.functions)
    && u.ids == map[] && u.signatures == map[]
  }

  lemma CallFieldFine(registers: nat, fields: map<B.Field, B.Json>, f: B.Field)
    requires registers > 0 && IsCallFields(fields) && f in fields
    ensures B.FieldInRange(registers, B.CallKnown, f, fields[f]) && !B.TargetName(f)
    ensures B.FieldAccess(B.CallKnown, f, fields[f]).Access? && B.FieldAccess(B.CallKnown, f, fields[f]).reading == {}
  {
    assert f == B.Dst || f == B.Callee || f == B.Args || f == B.MutArgs;
    if f == B.Args { assert B.ListOf(fields[f]) == []; }
  }

  lemma CallIsChecked(limits: B.Limits, fields: map<B.Field, B.Json>)
    requires limits.registers > 0 && limits.functionCount > 1 && IsCallFields(fields)
    ensures B.WireOk(limits, B.Instr(B.CallKnown, fields))
  {
    CallFieldsFine(limits, fields);
    assert B.InstructionFields(B.CallKnown) == {B.Dst, B.Callee, B.Args, B.MutArgs};
  }

  lemma CallFieldsFine(limits: B.Limits, fields: map<B.Field, B.Json>)
    requires limits.registers > 0 && IsCallFields(fields)
    ensures B.TargetsOk(limits, fields) && B.RegistersOk(limits, B.CallKnown, fields)
  {
    forall f | f in fields
      ensures B.FieldInRange(limits.registers, B.CallKnown, f, fields[f]) && !B.TargetName(f)
    {
      CallFieldFine(limits.registers, fields, f);
    }
  }

  lemma CallReadsNothing(limits: B.Limits, fields: map<B.Field, B.Json>)
    requires limits.registers > 0 && IsCallFields(fields) && B.WireOk(limits, B.Instr(B.CallKnown, fields))
    ensures B.AccessOf(limits, B.Instr(B.CallKnown, fields)).reading == {}
  {
    var parts := B.FieldAccesses(B.CallKnown, fields);
    forall f | f in parts ensures parts[f].Access? && parts[f].reading == {} {
      CallFieldFine(limits.registers, fields, f);
    }
    assert B.Combined(parts).reading == {};
  }

  lemma CallTakesNothing(limits: B.Limits, i: B.Instruction)
    requires B.WireOk(limits, i) && i.Instr? && i.opcode == B.CallKnown && IsCallFields(i.fields)
    ensures IsDirectCall(i) && !IsClosure(i) && CalleeOf(limits, i) == 1 && ArgsOf(limits, i) == []
  {
  }

  lemma ReturnIsChecked(limits: B.Limits, fields: map<B.Field, B.Json>)
    requires limits.registers > 0 && fields.Keys == {B.Src} && fields[B.Src] == B.Num(0)
    ensures B.WireOk(limits, B.Instr(B.Return, fields))
    ensures B.AccessOf(limits, B.Instr(B.Return, fields)).reading == {0}
  {
    assert B.RegistersOk(limits, B.Return, fields);
    assert B.TargetsOk(limits, fields);
    var parts := B.FieldAccesses(B.Return, fields);
    assert parts[B.Src] == B.Access({0}, {});
    assert B.Combined(parts).reading == {0};
  }

  lemma {:induction false} OnlyEntry(g: Graph, run: Run)
    requires |g| == 1 && g[0].edges == [] && IsRun(g, run)
    ensures run == Entry
  {
    if run.Step? { OnlyEntry(g, run.before); }
  }

  lemma OneNodeIsSafe(g: Graph, inputs: set<nat>)
    requires |g| == 1 && g[0].edges == [] && g[0].uses <= inputs
    ensures RegisterInit.InitSafe(g, inputs)
  {
    forall run | IsRun(g, run) ensures run == Entry { OnlyEntry(g, run); }
  }

  /** A body of one instruction that goes nowhere and acquires nothing. */
  lemma OneInstructionAccepted(f: B.Function, functionCount: nat)
    requires |f.code| == 1 && B.ShapeOk(f, functionCount)
    requires B.Edges(B.LimitsOf(f, functionCount), 0, f.code[0]) == []
    requires !B.EffectOf(B.LimitsOf(f, functionCount), f.code[0]).Acquire?
    requires B.AccessOf(B.LimitsOf(f, functionCount), f.code[0]).reading <= B.InitialRegisters(f)
    ensures Accepted(f, functionCount)
  {
    OneNode(f, functionCount);
    OneNodeIsSafe(B.GraphOf(f, functionCount), B.InitialRegisters(f));
    OneNodeHasNoMarkers(B.GraphOf(f, functionCount));
  }

  lemma OneNode(f: B.Function, functionCount: nat)
    requires |f.code| == 1 && B.ShapeOk(f, functionCount)
    ensures B.GraphOf(f, functionCount) == [B.NodeOf(B.LimitsOf(f, functionCount), 0, f.code[0])]
  {
  }

  lemma OneNodeHasNoMarkers(g: Graph)
    requires |g| == 1 && !g[0].effect.Acquire?
    ensures !ResourceScopes.HasMarkers(g)
  {
  }

  lemma CallerAccepted(f: B.Function, functionCount: nat)
    requires IsCaller(f) && functionCount > 1
    ensures Accepted(f, functionCount)
  {
    var limits := B.LimitsOf(f, functionCount);
    CallIsChecked(limits, f.code[0].fields);
    CallReadsNothing(limits, f.code[0].fields);
    assert f.code[0] == B.Instr(B.CallKnown, f.code[0].fields);
    OneInstructionAccepted(f, functionCount);
  }

  lemma DropInputs(f: B.Function, d: string)
    requires f.drops == [d] && f.locals == map[d := 0] && f.registers == 1
    ensures (forall local :: local in f.locals ==> f.locals[local] < f.registers) &&
      forall e :: e in f.drops ==> e in f.locals
    ensures 0 in B.InitialRegisters(f)
  {
    assert d in f.drops && f.locals[d] == 0;
  }

  lemma DropShape(f: B.Function, functionCount: nat)
    requires IsDrop(f)
    ensures B.ShapeOk(f, functionCount) && 0 in B.InitialRegisters(f)
    ensures B.AccessOf(B.LimitsOf(f, functionCount), f.code[0]).reading == {0}
  {
    DropInputs(f, f.drops[0]);
    ReturnIsChecked(B.LimitsOf(f, functionCount), f.code[0].fields);
    assert f.code[0] == B.Instr(B.Return, f.code[0].fields);
  }

  lemma ReturnGoesNowhere(limits: B.Limits, i: B.Instruction)
    requires B.WireOk(limits, i) && i.Instr? && i.opcode == B.Return
    ensures B.Edges(limits, 0, i) == [] && B.EffectOf(limits, i) == Exit
  {
  }

  lemma DropAccepted(f: B.Function, functionCount: nat)
    requires IsDrop(f)
    ensures Accepted(f, functionCount) && B.AccessOf(B.LimitsOf(f, functionCount), f.code[0]).reading == {0}
  {
    DropShape(f, functionCount);
    ReturnGoesNowhere(B.LimitsOf(f, functionCount), f.code[0]);
    OneInstructionAccepted(f, functionCount);
  }

  lemma DropCallerShapes(u: ExecutableUnit, f: nat, ip: nat)
    requires IsDropCaller(u) && BodiesOk(u) && f < |u.functions| && ip < |u.functions[f].code|
    ensures CallShapeOk(u, f, ip)
  {
    if f == 0 { CallTakesNothing(LimitsAt(u, 0), u.functions[0].code[0]); }
  }

  lemma DropCallerBodies(u: ExecutableUnit)
    requires IsDropCaller(u)
    ensures BodiesOk(u)
  {
    CallerAccepted(u.functions[0], 2);
    DropAccepted(u.functions[1], 2);
  }

  lemma PrivateUnitOk(u: ExecutableUnit)
    requires BodiesOk(u) && NamesOk(u.functions) && u.ids == map[] && u.signatures == map[]
    requires forall f: nat, ip: nat :: f < |u.functions| && ip < |u.functions[f].code| ==> CallShapeOk(u, f, ip)
    ensures UnitOk(u)
  {
  }

  lemma DropCallerIsAccepted(u: ExecutableUnit)
    requires IsDropCaller(u)
    ensures UnitOk(u)
  {
    DropCallerBodies(u);
    forall f: nat, ip: nat | f < |u.functions| && ip < |u.functions[f].code| ensures CallShapeOk(u, f, ip) {
      DropCallerShapes(u, f, ip);
    }
    PrivateUnitOk(u);
  }

  /** Such a unit is accepted, and running it reads a register that was never written. */
  lemma DropCallerMissesItsField(u: ExecutableUnit) returns (e: Execution)
    requires IsDropCaller(u)
    ensures UnitOk(u) && Enters(ProgramOf(u), e, 0, {}) && !Finds(ProgramOf(u), e.s)
  {
    DropCallerIsAccepted(u);
    DropAccepted(u.functions[1], 2);
    CallTakesNothing(LimitsAt(u, 0), u.functions[0].code[0]);
    var p, main := ProgramOf(u), Push(Empty, Frame(0, 0, {}));
    e := Then(Start(main), Push(main, Frame(1, 0, {})));
    DropCallerProgram(u);
    assert Calls(p, main.top, CallTo(1, {}));
    assert CallStep(p, main.top, e.s.top);
  }

  lemma DropCallerProgram(u: ExecutableUnit)
    requires IsDropCaller(u) && BodiesOk(u)
    requires CalleeOf(LimitsAt(u, 0), u.functions[0].code[0]) == 1
    requires ArgsOf(LimitsAt(u, 0), u.functions[0].code[0]) == []
    requires B.AccessOf(LimitsAt(u, 1), u.functions[1].code[0]).reading == {0}
    ensures var p := ProgramOf(u);
      && |p| == 2 && p[0].inputs == {} && |p[0].graph| == 1 && p[0].calls == map[0 := Site({CallTo(1, {})}, true)]
      && |p[1].graph| == 1 && p[1].graph[0].uses == {0}
  {
    var p := ProgramOf(u);
    assert p[0] == BodyAt(u, 0) && p[1] == BodyAt(u, 1);
    OneCall(u, 0);
    assert B.InitialRegisters(u.functions[0]) == {};
    assert GraphAt(u, 1)[0] == B.NodeOf(LimitsAt(u, 1), 0, u.functions[1].code[0]);
  }

  lemma OneCall(u: ExecutableUnit, f: nat)
    requires BodiesOk(u) && f < |u.functions| && |u.functions[f].code| == 1 && IsDirectCall(u.functions[f].code[0])
    requires ArgsOf(LimitsAt(u, f), u.functions[f].code[0]) == []
    ensures var i := u.functions[f].code[0];
      CallsOf(u, f) == map[0 := Site({CallTo(CalleeOf(LimitsAt(u, f), i), {})}, !i.opcode.SpawnTask?)]
  {
    DirectSite(LimitsAt(u, f), u.functions[f].code[0]);
  }

  lemma DirectSite(limits: B.Limits, i: B.Instruction)
    requires IsDirectCall(i) && B.WireOk(limits, i) && ArgsOf(limits, i) == []
    ensures SiteOf(limits, i) == Site({CallTo(CalleeOf(limits, i), {})}, !i.opcode.SpawnTask?)
  {
    assert CalleesOf(limits, i) == {CalleeOf(limits, i)};
  }

  /** There is such a unit. */
  lemma DropCallerExists() returns (u: ExecutableUnit)
    ensures IsDropCaller(u)
  {
    var call := map[B.Dst := B.Num(0), B.Callee := B.Num(1), B.Args := B.Arr([]), B.MutArgs := B.Arr([])];
    var main := B.Function("m", 0, 0, 1, map[], [], [B.Instr(B.CallKnown, call)]);
    var drop := B.Function("d", 0, 0, 1, map["x" := 0], ["x"], [B.Instr(B.Return, map[B.Src := B.Num(0)])]);
    u := ExecutableUnit([main, drop], map[], map[], map[]);
    assert main.name[0] != drop.name[0];
  }
}
