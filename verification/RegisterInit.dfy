/** Definite register initialisation: the worklist pass of `verify_register_initialization`.

    The pass is proved exact: it accepts a graph if and only if on every run, of any length,
    every instruction reached reads only registers that are inputs or were written earlier
    on that same run. */
module RegisterInit {
  import opened ControlFlow

  datatype State = Unvisited | Known(registers: set<nat>)

  type States = seq<State>

  /** Registers initialised when `run` has arrived at its end. */
  function Written(g: Graph, inputs: set<nat>, run: Run): set<nat> {
    match run
    case Entry => inputs
    case Step(before, k) =>
      if HasEdge(g, End(g, before), k)
      then Flow(g, End(g, before), k, Written(g, inputs, before))
      else {}
  }

  /** The registers initialised after leaving `ip` along its edge `k`. */
  function Flow(g: Graph, ip: nat, k: nat, state: set<nat>): set<nat>
    requires HasEdge(g, ip, k)
  {
    state + g[ip].defs + g[ip].edges[k].defs
  }

  /** The property the pass decides. */
  ghost predicate InitSafe(g: Graph, inputs: set<nat>) {
    forall run :: IsRun(g, run) && End(g, run) < |g| ==> g[End(g, run)].uses <= Written(g, inputs, run)
  }

  /** `registers` is the meet over all runs to `ip`: each of them has written all of it, and
      every other register is missed by one of them. */
  ghost predicate MeetOverRuns(g: Graph, inputs: set<nat>, ip: nat, registers: set<nat>) {
    && (forall run :: IsRun(g, run) && End(g, run) == ip ==> registers <= Written(g, inputs, run))
    && forall r: nat :: r !in registers ==> Misses(g, inputs, ip, r)
  }

  /** Some run ends at `ip` without having written `r`. */
  ghost predicate Misses(g: Graph, inputs: set<nat>, ip: nat, r: nat) {
    exists run :: IsRun(g, run) && End(g, run) == ip && r !in Written(g, inputs, run)
  }

  // ----- one enqueue -----

  /** Join `state` into the entry for `target`, queueing it again when the entry changes. */
  method EnqueueState(incoming: States, work: seq<nat>, target: nat, state: set<nat>)
    returns (incoming': States, work': seq<nat>)
    requires target < |incoming|
    ensures incoming' == incoming[target := Joined(incoming[target], state)]
    ensures work' == if incoming' == incoming then work else work + [target]
  {
    match incoming[target]
    case Unvisited =>
      incoming' := incoming[target := Known(state)];
      work' := work + [target];
      assert incoming'[target] != incoming[target];
    case Known(existing) =>
      var intersection := existing * state;
      if existing != intersection {
        incoming' := incoming[target := Known(intersection)];
        work' := work + [target];
        assert incoming'[target] != incoming[target];
      } else {
        incoming', work' := incoming, work;
      }
  }

  function Joined(entry: State, state: set<nat>): State {
    match entry
    case Unvisited => Known(state)
    case Known(existing) => Known(existing * state)
  }

  // ----- termination measure: unvisited entries, then total size of the known sets -----

  function UnvisitedCount(incoming: States): nat {
    if incoming == [] then 0
    else (if incoming[0].Unvisited? then 1 else 0) + UnvisitedCount(incoming[1..])
  }

  function TotalSize(incoming: States): nat {
    if incoming == [] then 0
    else (if incoming[0].Known? then |incoming[0].registers| else 0) + TotalSize(incoming[1..])
  }

  lemma {:induction false} UpdateMeasure(incoming: States, i: nat, entry: State)
    requires i < |incoming| && entry.Known?
    ensures incoming[i].Unvisited? ==> UnvisitedCount(incoming[i := entry]) == UnvisitedCount(incoming) - 1
    ensures incoming[i].Known? ==>
      && UnvisitedCount(incoming[i := entry]) == UnvisitedCount(incoming)
      && TotalSize(incoming[i := entry]) == TotalSize(incoming) - |incoming[i].registers| + |entry.registers|
  {
    if i == 0 {
      assert incoming[i := entry][1..] == incoming[1..];
    } else {
      assert incoming[i := entry][1..] == incoming[1..][i - 1 := entry];
      UpdateMeasure(incoming[1..], i - 1, entry);
    }
  }

  /** A join that changes an entry makes the measure smaller. */
  lemma JoinDecreases(incoming: States, target: nat, state: set<nat>)
    requires target < |incoming|
    ensures var after := incoming[target := Joined(incoming[target], state)];
      after == incoming || Smaller(after, incoming)
  {
    var entry := Joined(incoming[target], state);
    UpdateMeasure(incoming, target, entry);
    if incoming[target].Known? && entry != incoming[target] {
      var existing := incoming[target].registers;
      assert existing * state < existing;
      SmallerSubset(existing * state, existing);
    }
  }

  lemma SmallerSubset(a: set<nat>, b: set<nat>)
    requires a < b
    ensures |a| < |b|
  {
    assert b == a + (b - a);
    assert b - a != {};
  }

  // ----- the loop invariant -----

  /** The out-edge `k` of `ip`, left with `state`, is accounted for at its target. */
  ghost predicate Flowed(g: Graph, incoming: States, ip: nat, k: nat, state: set<nat>)
    requires |incoming| == |g| && Closed(g) && HasEdge(g, ip, k)
  {
    var entry := incoming[g[ip].edges[k].target];
    entry.Known? && entry.registers <= Flow(g, ip, k, state)
  }

  ghost predicate Settled(g: Graph, incoming: States, ip: nat)
    requires |incoming| == |g| && Closed(g) && ip < |g| && incoming[ip].Known?
  {
    && g[ip].uses <= incoming[ip].registers
    && forall k: nat :: HasEdge(g, ip, k) ==> Flowed(g, incoming, ip, k, incoming[ip].registers)
  }

  /** Every register outside `state` is missed by a concrete run to `ip`. */
  ghost predicate Witnessed(g: Graph, inputs: set<nat>, ip: nat, state: set<nat>) {
    && Reachable(g, ip)
    && forall r: nat :: r !in state ==> Misses(g, inputs, ip, r)
  }

  ghost predicate Invariant(g: Graph, inputs: set<nat>, incoming: States, work: seq<nat>) {
    && Bounded(g, inputs, incoming, work)
    && forall ip: nat :: ip < |g| && incoming[ip].Known? && ip !in work ==> Settled(g, incoming, ip)
  }

  ghost predicate Bounded(g: Graph, inputs: set<nat>, incoming: States, work: seq<nat>) {
    && Closed(g) && |incoming| == |g| && g != []
    && incoming[0].Known? && incoming[0].registers <= inputs
    && (forall w :: w in work ==> w < |g| && incoming[w].Known?)
    && forall ip: nat :: ip < |g| && incoming[ip].Known? ==> Witnessed(g, inputs, ip, incoming[ip].registers)
  }

  /** The invariant while `ip`, popped with `state`, has followed its first `done` edges. */
  ghost predicate Processing(g: Graph, inputs: set<nat>, incoming: States, work: seq<nat>,
                             ip: nat, state: set<nat>, done: nat)
  {
    && Bounded(g, inputs, incoming, work)
    && ip < |g| && done <= |g[ip].edges|
    && (forall j: nat :: j < |g| && j != ip && incoming[j].Known? && j !in work ==> Settled(g, incoming, j))
    && (ip in work ||
        (&& incoming[ip] == Known(state)
         && g[ip].uses <= state
         && forall k: nat :: k < done ==> Flowed(g, incoming, ip, k, state)))
  }

  lemma WitnessFlows(g: Graph, inputs: set<nat>, ip: nat, k: nat, state: set<nat>)
    requires HasEdge(g, ip, k) && Witnessed(g, inputs, ip, state)
    ensures Witnessed(g, inputs, g[ip].edges[k].target, Flow(g, ip, k, state))
  {
    EdgeReaches(g, ip, k);
    forall r: nat | r !in Flow(g, ip, k, state)
      ensures Misses(g, inputs, g[ip].edges[k].target, r)
    {
      var run :| IsRun(g, run) && End(g, run) == ip && r !in Written(g, inputs, run);
      assert IsRun(g, Step(run, k));
      assert r !in Written(g, inputs, Step(run, k));
    }
  }

  /** Following edge `k` keeps the invariant: entries only shrink, and a changed entry is queued. */
  lemma EnqueueKeeps(g: Graph, inputs: set<nat>, incoming: States, work: seq<nat>,
                     ip: nat, state: set<nat>, k: nat, incoming': States, work': seq<nat>)
    requires Processing(g, inputs, incoming, work, ip, state, k)
    requires HasEdge(g, ip, k) && Witnessed(g, inputs, ip, state)
    requires var target := g[ip].edges[k].target;
      incoming' == incoming[target := Joined(incoming[target], Flow(g, ip, k, state))]
    requires work' == if incoming' == incoming then work else work + [g[ip].edges[k].target]
    ensures Processing(g, inputs, incoming', work', ip, state, k + 1)
  {
    var target := g[ip].edges[k].target;
    WitnessFlows(g, inputs, ip, k, state);
    assert incoming'[target].registers <= Flow(g, ip, k, state);
    if incoming' != incoming {
      assert forall w :: w in work' <==> w in work || w == target;
      forall j: nat | j < |g| && j != ip && incoming'[j].Known? && j !in work'
        ensures Settled(g, incoming', j)
      {
        assert Settled(g, incoming, j);
        forall m: nat | HasEdge(g, j, m) ensures Flowed(g, incoming', j, m, incoming'[j].registers) {
          assert Flowed(g, incoming, j, m, incoming[j].registers);
        }
      }
      if ip !in work' {
        forall m: nat | m < k + 1 ensures Flowed(g, incoming', ip, m, state) {
          if m < k { assert Flowed(g, incoming, ip, m, state); }
        }
      }
    }
  }

  // ----- the pass -----

  ghost predicate Smaller(after: States, before: States) {
    || UnvisitedCount(after) < UnvisitedCount(before)
    || (UnvisitedCount(after) == UnvisitedCount(before) && TotalSize(after) < TotalSize(before))
  }

  method FollowEdge(g: Graph, ghost inputs: set<nat>, incoming: States, work: seq<nat>,
                    ip: nat, state: set<nat>, k: nat)
    returns (incoming': States, work': seq<nat>)
    requires Processing(g, inputs, incoming, work, ip, state, k)
    requires HasEdge(g, ip, k) && Witnessed(g, inputs, ip, state)
    ensures Processing(g, inputs, incoming', work', ip, state, k + 1)
    ensures (incoming' == incoming && work' == work) || Smaller(incoming', incoming)
  {
    incoming', work' := EnqueueState(incoming, work, g[ip].edges[k].target, Flow(g, ip, k, state));
    JoinDecreases(incoming, g[ip].edges[k].target, Flow(g, ip, k, state));
    EnqueueKeeps(g, inputs, incoming, work, ip, state, k, incoming', work');
  }

  /** The worklist pass over a function body. `accepted` is exactly `InitSafe`, whatever the
      order in which the queue is served; on acceptance the states are the meet over all runs,
      and the visited instructions are the reachable ones. */
  method Verify(g: Graph, inputs: set<nat>) returns (accepted: bool, incoming: States)
    requires Closed(g)
    ensures accepted <==> InitSafe(g, inputs)
    ensures |incoming| == |g|
    ensures accepted ==> forall ip: nat :: ip < |g| ==>
      && (incoming[ip].Known? <==> Reachable(g, ip))
      && (incoming[ip].Known? ==> MeetOverRuns(g, inputs, ip, incoming[ip].registers))
  {
    incoming := seq(|g|, _ => Unvisited);
    if |g| == 0 {
      return true, incoming;
    }
    incoming := incoming[0 := Known(inputs)];
    var work := [0];
    assert IsRun(g, Entry);
    assert Written(g, inputs, Entry) == inputs;
    while work != []
      invariant Invariant(g, inputs, incoming, work)
      decreases UnvisitedCount(incoming), TotalSize(incoming), |work|
    {
      var ip := work[0];
      assert ip in work;
      assert forall w :: w in work <==> w == ip || w in work[1..];
      work := work[1..];
      var state := incoming[ip].registers;
      if !(g[ip].uses <= state) {
        MissedReadIsUnsafe(g, inputs, ip, state);
        return false, incoming;
      }
      assert Processing(g, inputs, incoming, work, ip, state, 0);
      if 0 < |g[ip].edges| {
        incoming, work := FollowEdge(g, inputs, incoming, work, ip, state, 0);
      }
      if 1 < |g[ip].edges| {
        incoming, work := FollowEdge(g, inputs, incoming, work, ip, state, 1);
      }
      assert Processing(g, inputs, incoming, work, ip, state, |g[ip].edges|);
    }
    FixpointIsMeet(g, inputs, incoming);
    accepted := true;
  }

  lemma MissedReadIsUnsafe(g: Graph, inputs: set<nat>, ip: nat, state: set<nat>)
    requires ip < |g| && Witnessed(g, inputs, ip, state) && !(g[ip].uses <= state)
    ensures !InitSafe(g, inputs)
  {
    var r :| r in g[ip].uses && r !in state;
    assert Misses(g, inputs, ip, r);
  }

  lemma {:induction false} FixpointBelowRun(g: Graph, inputs: set<nat>, incoming: States, run: Run)
    requires Invariant(g, inputs, incoming, []) && IsRun(g, run)
    ensures End(g, run) < |g| && incoming[End(g, run)].Known?
    ensures incoming[End(g, run)].registers <= Written(g, inputs, run)
  {
    match run
    case Entry =>
    case Step(before, k) =>
      FixpointBelowRun(g, inputs, incoming, before);
      assert Settled(g, incoming, End(g, before));
      assert Flowed(g, incoming, End(g, before), k, incoming[End(g, before)].registers);
  }

  lemma FixpointIsMeet(g: Graph, inputs: set<nat>, incoming: States)
    requires Invariant(g, inputs, incoming, [])
    ensures InitSafe(g, inputs)
    ensures forall ip: nat :: ip < |g| ==>
      && (incoming[ip].Known? <==> Reachable(g, ip))
      && (incoming[ip].Known? ==> MeetOverRuns(g, inputs, ip, incoming[ip].registers))
  {
    forall run | IsRun(g, run)
      ensures End(g, run) < |g| && incoming[End(g, run)].Known?
      ensures incoming[End(g, run)].registers <= Written(g, inputs, run)
    {
      FixpointBelowRun(g, inputs, incoming, run);
    }
    forall run | IsRun(g, run) ensures g[End(g, run)].uses <= Written(g, inputs, run) {
      assert Settled(g, incoming, End(g, run));
    }
  }
}
