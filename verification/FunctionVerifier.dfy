/** Verification of one function body: the shape checks, then the two dataflow passes, and what
    acceptance means for every run of the body. Also the independent reachability walk that
    the typed-facts verifier performs over the same code. */
module FunctionVerifier {
  import opened ControlFlow
  import opened Bytecode
  import RegisterInit
  import ResourceScopes

  /** What `verify_executable_payload` demands of one function. */
  ghost predicate Accepted(f: Function, functionCount: nat) {
    && ShapeOk(f, functionCount)
    && RegisterInit.InitSafe(GraphOf(f, functionCount), InitialRegisters(f))
    && (ResourceScopes.HasMarkers(GraphOf(f, functionCount)) ==> ResourceScopes.ScopesSafe(GraphOf(f, functionCount)))
  }

  method VerifyFunction(f: Function, functionCount: nat) returns (accepted: bool)
    ensures accepted <==> Accepted(f, functionCount)
  {
    if !ShapeOk(f, functionCount) { return false; }
    var g := GraphOf(f, functionCount);
    GraphIsClosed(f, functionCount);
    var initialised, _ := RegisterInit.Verify(g, InitialRegisters(f));
    if !initialised { return false; }
    var balanced, _ := ResourceScopes.Verify(g);
    accepted := balanced;
  }

  /** On every run of an accepted function, of any length, each register the instruction reached
      reads lies below the register count and is an input or was written earlier on that run. */
  lemma AcceptedReadsAreInitialised(f: Function, functionCount: nat, run: Run)
    requires Accepted(f, functionCount) && IsRun(GraphOf(f, functionCount), run)
    ensures var g := GraphOf(f, functionCount);
      var ip := End(g, run);
      && ip < |f.code|
      && forall r :: r in AccessOf(LimitsOf(f, functionCount), f.code[ip]).reading ==>
           r < f.registers && r in RegisterInit.Written(g, InitialRegisters(f), run)
  {
    var g := GraphOf(f, functionCount);
    GraphIsClosed(f, functionCount);
    RunsStayInside(g, run);
    assert g[End(g, run)].uses <= RegisterInit.Written(g, InitialRegisters(f), run);
  }

  /** No run ever initialises a register outside the frame, not even along a `some` edge. */
  lemma {:induction false} WrittenRegistersInRange(f: Function, functionCount: nat, run: Run)
    requires ShapeOk(f, functionCount) && IsRun(GraphOf(f, functionCount), run)
    ensures forall r :: r in RegisterInit.Written(GraphOf(f, functionCount), InitialRegisters(f), run) ==>
      r < f.registers
  {
    match run
    case Entry =>
    case Step(before, k) =>
      WrittenRegistersInRange(f, functionCount, before);
      var ip := End(GraphOf(f, functionCount), before);
      assert GraphOf(f, functionCount)[ip].edges[k] in Edges(LimitsOf(f, functionCount), ip, f.code[ip]);
  }

  // ----- the typed-facts verifier's own walk -----

  /** The successors `reachable_instructions` queues; the next instruction is queued even when
      there is none, and skipped when popped. */
  function WalkTargets(limits: Limits, ip: nat, op: Opcode, fields: map<Field, Json>): seq<nat>
    requires WireOk(limits, Instr(op, fields))
  {
    match op
    case Return => []
    case RuntimeError => []
    case Jump => [TargetAt(limits, fields, Target)]
    case JumpIfBool => [TargetAt(limits, fields, Target), ip + 1]
    case JumpIfIntCompare => [TargetAt(limits, fields, Target), ip + 1]
    case MatchOption => [TargetAt(limits, fields, SomeIp), TargetAt(limits, fields, NoneIp)]
    case MatchResult => [TargetAt(limits, fields, OkIp), TargetAt(limits, fields, ErrIp)]
    case MatchVariant => [TargetAt(limits, fields, MatchIp), TargetAt(limits, fields, ElseIp)]
    case MatchMapGet => [TargetAt(limits, fields, SomeIp), TargetAt(limits, fields, NoneIp)]
    case MatchSortedMapGet => [TargetAt(limits, fields, SomeIp), TargetAt(limits, fields, NoneIp)]
    case _ => [ip + 1]
  }

  /** The edges are the queued targets, less a next instruction that does not exist. */
  ghost predicate SameTargets(edges: seq<Edge>, targets: seq<nat>, codeLength: nat) {
    && |edges| <= |targets| <= |edges| + 1
    && (forall k :: 0 <= k < |edges| ==> edges[k].target == targets[k])
    && (|targets| == |edges| + 1 ==> targets[|edges|] >= codeLength)
  }

  /** The walk and the dataflow passes follow the same edges, in the same order. */
  lemma WalkFollowsEdges(limits: Limits, ip: nat, op: Opcode, fields: map<Field, Json>)
    requires WireOk(limits, Instr(op, fields))
    ensures SameTargets(Edges(limits, ip, Instr(op, fields)), WalkTargets(limits, ip, op, fields), limits.codeLength)
  {
  }

  datatype Walk = Failed | Visited(instructions: set<nat>)

  ghost predicate GuardReachable(f: Function, functionCount: nat)
    requires ShapeOk(f, functionCount)
  {
    exists ip: nat :: ip < |f.code| && f.code[ip].TailCallGuard? && Reachable(GraphOf(f, functionCount), ip)
  }

  ghost predicate WalkOk(g: Graph, code: seq<Instruction>, visited: set<nat>, pending: seq<nat>)
    requires |g| == |code|
  {
    && (forall ip :: ip in visited ==> ip < |g| && Reachable(g, ip) && code[ip].Instr?)
    && (forall ip :: ip in pending && ip < |g| ==> Reachable(g, ip))
    && (g != [] ==> 0 in visited || 0 in pending)
    && forall ip: nat, k: nat :: ip in visited && HasEdge(g, ip, k) ==>
         g[ip].edges[k].target in visited || g[ip].edges[k].target in pending
  }

  ghost predicate WalkInvariant(f: Function, functionCount: nat, visited: set<nat>, pending: seq<nat>)
    requires ShapeOk(f, functionCount)
  {
    WalkOk(GraphOf(f, functionCount), f.code, visited, pending)
  }

  lemma VisitNode(g: Graph, code: seq<Instruction>, visited: set<nat>, pending: seq<nat>, targets: seq<nat>)
    requires |g| == |code| && WalkOk(g, code, visited, pending)
    requires pending != [] && pending[0] < |g| && code[pending[0]].Instr?
    requires SameTargets(g[pending[0]].edges, targets, |g|)
    ensures WalkOk(g, code, visited + {pending[0]}, pending[1..] + targets)
  {
    var ip, pending' := pending[0], pending[1..] + targets;
    assert ip in pending;
    assert forall p :: p in pending <==> p == ip || p in pending[1..];
    assert forall p :: p in pending' <==> p in pending[1..] || p in targets;
    forall p | p in targets && p < |g| ensures Reachable(g, p) {
      var k :| 0 <= k < |targets| && targets[k] == p;
      EdgeReaches(g, ip, k);
    }
  }

  /** Visiting one instruction keeps the walk's invariant. */
  lemma VisitKeeps(f: Function, functionCount: nat, visited: set<nat>, pending: seq<nat>)
    requires ShapeOk(f, functionCount) && WalkInvariant(f, functionCount, visited, pending)
    requires pending != [] && pending[0] < |f.code| && f.code[pending[0]].Instr?
    ensures var ip := pending[0];
      WalkInvariant(f, functionCount, visited + {ip},
        pending[1..] + WalkTargets(LimitsOf(f, functionCount), ip, f.code[ip].opcode, f.code[ip].fields))
  {
    var ip, limits := pending[0], LimitsOf(f, functionCount);
    var targets := WalkTargets(limits, ip, f.code[ip].opcode, f.code[ip].fields);
    WalkFollowsEdges(limits, ip, f.code[ip].opcode, f.code[ip].fields);
    assert GraphOf(f, functionCount)[ip].edges == Edges(limits, ip, f.code[ip]);
    VisitNode(GraphOf(f, functionCount), f.code, visited, pending, targets);
  }

  lemma WalkDone(f: Function, functionCount: nat, visited: set<nat>)
    requires ShapeOk(f, functionCount) && WalkInvariant(f, functionCount, visited, [])
    ensures visited == ReachableSet(GraphOf(f, functionCount)) && !GuardReachable(f, functionCount)
  {
    var g := GraphOf(f, functionCount);
    forall ip: nat | ip < |g| && Reachable(g, ip) ensures ip in visited {
      var run :| IsRun(g, run) && End(g, run) == ip;
      ClosedSetHoldsRuns(g, visited, run);
    }
  }

  lemma SkipKeeps(f: Function, functionCount: nat, visited: set<nat>, pending: seq<nat>)
    requires ShapeOk(f, functionCount) && WalkInvariant(f, functionCount, visited, pending)
    requires pending != [] && (pending[0] >= |f.code| || pending[0] in visited)
    ensures WalkInvariant(f, functionCount, visited, pending[1..])
  {
    assert forall p :: p in pending <==> p == pending[0] || p in pending[1..];
    GraphIsClosed(f, functionCount);
  }

  /** The walk fails exactly when a `TailCallGuard` is reachable; otherwise it returns exactly the
      reachable instructions: the set both dataflow passes give a state. */
  method ReachableInstructions(f: Function, functionCount: nat) returns (walk: Walk)
    requires ShapeOk(f, functionCount)
    ensures walk.Failed? <==> GuardReachable(f, functionCount)
    ensures walk.Visited? ==> walk.instructions == ReachableSet(GraphOf(f, functionCount))
  {
    var limits := LimitsOf(f, functionCount);
    var visited: set<nat>, pending := {}, [0];
    WalkStarts(f, functionCount);
    while pending != []
      invariant WalkInvariant(f, functionCount, visited, pending)
      decreases Range(|f.code|) - visited, |pending|
    {
      var ip := pending[0];
      if ip >= |f.code| || ip in visited {
        SkipKeeps(f, functionCount, visited, pending);
        pending := pending[1..];
        continue;
      }
      if f.code[ip].TailCallGuard? {
        assert ip in pending;
        return Failed;
      }
      VisitKeeps(f, functionCount, visited, pending);
      visited := visited + {ip};
      pending := pending[1..] + WalkTargets(limits, ip, f.code[ip].opcode, f.code[ip].fields);
    }
    WalkDone(f, functionCount, visited);
    walk := Visited(visited);
  }

  lemma WalkStarts(f: Function, functionCount: nat)
    requires ShapeOk(f, functionCount)
    ensures WalkInvariant(f, functionCount, {}, [0])
  {
    if f.code != [] { assert IsRun(GraphOf(f, functionCount), Entry); }
  }
}
