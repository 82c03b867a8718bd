/** Control-flow graphs as the bytecode verifier sees them, and the runs along them.

    A node carries what the verifier attributes to one instruction: the registers it
    reads and writes, its effect on the lexical resource stack, and its out-edges in the
    order the verifier follows them. An edge may write registers of its own: `MatchMapGet`
    sets `value_dst` only on its `some` edge. `fallsOff` marks an instruction whose
    fall-through leaves the body. */
module ControlFlow {

  datatype Edge = Edge(target: nat, defs: set<nat>)

  datatype Effect =
    | NoEffect
    | Acquire(resource: nat)
    | Drop(resource: nat)
    | Unwind(order: seq<nat>)
    | Exit

  datatype Node = Node(uses: set<nat>, defs: set<nat>, effect: Effect, edges: seq<Edge>, fallsOff: bool)

  type Graph = seq<Node>

  predicate HasEdge(g: Graph, ip: nat, k: nat) {
    ip < |g| && k < |g[ip].edges|
  }

  /** Edges stay inside the body, and no instruction has more than two. */
  ghost predicate Closed(g: Graph) {
    && (forall ip: nat, k: nat :: HasEdge(g, ip, k) ==> g[ip].edges[k].target < |g|)
    && forall ip: nat :: ip < |g| ==> |g[ip].edges| <= 2
  }

  /** A run starts at instruction 0 and is extended by naming the out-edge it takes. */
  datatype Run = Entry | Step(before: Run, edge: nat)

  /** The instruction a run has reached. */
  function End(g: Graph, run: Run): nat {
    match run
    case Entry => 0
    case Step(before, k) =>
      if HasEdge(g, End(g, before), k) then g[End(g, before)].edges[k].target else 0
  }

  predicate IsRun(g: Graph, run: Run) {
    match run
    case Entry => g != []
    case Step(before, k) => IsRun(g, before) && HasEdge(g, End(g, before), k)
  }

  /** Some run reaches `ip`. */
  ghost predicate Reachable(g: Graph, ip: nat) {
    exists run :: IsRun(g, run) && End(g, run) == ip
  }

  ghost function ReachableSet(g: Graph): set<nat> {
    set ip: nat | ip < |g| && Reachable(g, ip)
  }

  lemma {:induction false} RunsStayInside(g: Graph, run: Run)
    requires Closed(g) && IsRun(g, run)
    ensures End(g, run) < |g|
  {
    match run
    case Entry =>
    case Step(before, k) => RunsStayInside(g, before);
  }

  lemma EdgeReaches(g: Graph, ip: nat, k: nat)
    requires Reachable(g, ip) && HasEdge(g, ip, k)
    ensures Reachable(g, g[ip].edges[k].target)
  {
    var run :| IsRun(g, run) && End(g, run) == ip;
    assert IsRun(g, Step(run, k));
  }

  /** A set that holds instruction 0 and is closed under edges holds every run's end. */
  lemma {:induction false} ClosedSetHoldsRuns(g: Graph, s: set<nat>, run: Run)
    requires 0 in s
    requires forall ip: nat, k: nat :: ip in s && HasEdge(g, ip, k) ==> g[ip].edges[k].target in s
    requires IsRun(g, run)
    ensures End(g, run) in s
  {
    match run
    case Entry =>
    case Step(before, k) => ClosedSetHoldsRuns(g, s, before);
  }
}
