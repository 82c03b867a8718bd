/** Lexical resource scopes: the worklist pass of `verify_resource_scope_lifetimes`.

    The pass is proved exact: it accepts if and only if every run arrives at an instruction
    with the same stack of live resources, and passes that instruction's local check. From
    this follow the properties of whole runs: acquires and drops nest as brackets, and
    every way out of the body leaves nothing live. */
module ResourceScopes {
  import opened ControlFlow

  datatype Scope = Unvisited | Live(stack: seq<nat>)

  type Scopes = seq<Scope>

  function Reversed(s: seq<nat>): (r: seq<nat>) {
    seq(|s|, i requires 0 <= i < |s| => s[|s| - 1 - i])
  }

  /** The live stack after one instruction; the top is the last element. */
  function After(node: Node, stack: seq<nat>): seq<nat> {
    match node.effect
    case Acquire(resource) => stack + [resource]
    case Drop(_) => if stack == [] then [] else stack[..|stack| - 1]
    case _ => stack
  }

  /** What the pass demands of an instruction reached with `stack`. */
  predicate LocalOk(node: Node, stack: seq<nat>) {
    && (match node.effect
        case Drop(resource) => stack != [] && stack[|stack| - 1] == resource
        case Unwind(order) => order == Reversed(stack)
        case Exit => stack == []
        case _ => true)
    && (node.fallsOff ==> After(node, stack) == [])
  }

  /** The live stack when `run` has arrived at its end. */
  function Stack(g: Graph, run: Run): seq<nat> {
    match run
    case Entry => []
    case Step(before, _) =>
      if End(g, before) < |g| then After(g[End(g, before)], Stack(g, before)) else []
  }

  ghost predicate RunOk(g: Graph, run: Run) {
    IsRun(g, run) && End(g, run) < |g| ==> LocalOk(g[End(g, run)], Stack(g, run))
  }

  ghost predicate SameStack(g: Graph, run: Run, other: Run) {
    IsRun(g, run) && IsRun(g, other) && End(g, run) == End(g, other) ==> Stack(g, run) == Stack(g, other)
  }

  /** The property the pass decides. */
  ghost predicate ScopesSafe(g: Graph) {
    && (forall run :: RunOk(g, run))
    && forall run, other :: SameStack(g, run, other)
  }

  predicate HasMarkers(g: Graph) {
    exists ip :: 0 <= ip < |g| && g[ip].effect.Acquire?
  }

  // ----- the loop invariant -----

  ghost predicate ReachedWith(g: Graph, ip: nat, stack: seq<nat>) {
    exists run :: IsRun(g, run) && End(g, run) == ip && Stack(g, run) == stack
  }

  ghost predicate Settled(g: Graph, scopes: Scopes, ip: nat)
    requires |scopes| == |g| && Closed(g) && ip < |g| && scopes[ip].Live?
  {
    && LocalOk(g[ip], scopes[ip].stack)
    && forall k: nat :: HasEdge(g, ip, k) ==> Flowed(g, scopes, ip, k, scopes[ip].stack)
  }

  ghost predicate Flowed(g: Graph, scopes: Scopes, ip: nat, k: nat, stack: seq<nat>)
    requires |scopes| == |g| && Closed(g) && HasEdge(g, ip, k)
  {
    scopes[g[ip].edges[k].target] == Live(After(g[ip], stack))
  }

  function LiveCount(scopes: Scopes): (n: nat)
    ensures n <= |scopes|
  {
    if scopes == [] then 0 else (if scopes[0].Live? then 1 else 0) + LiveCount(scopes[1..])
  }

  lemma {:induction false} FirstVisitCounts(scopes: Scopes, i: nat, stack: seq<nat>)
    requires i < |scopes| && scopes[i].Unvisited?
    ensures LiveCount(scopes[i := Live(stack)]) == LiveCount(scopes) + 1
  {
    if i == 0 {
      assert scopes[i := Live(stack)][1..] == scopes[1..];
    } else {
      assert scopes[i := Live(stack)][1..] == scopes[1..][i - 1 := Live(stack)];
      FirstVisitCounts(scopes[1..], i - 1, stack);
    }
  }

  /** Every entry comes from a run, and no stack is deeper than the instructions visited before it. */
  ghost predicate Bounded(g: Graph, scopes: Scopes, work: seq<nat>) {
    && Closed(g) && |scopes| == |g| && g != []
    && scopes[0] == Live([])
    && (forall w :: w in work ==> w < |g| && scopes[w].Live?)
    && forall ip: nat :: ip < |g| && scopes[ip].Live? ==>
         ReachedWith(g, ip, scopes[ip].stack) && |scopes[ip].stack| < LiveCount(scopes)
  }

  ghost predicate Invariant(g: Graph, scopes: Scopes, work: seq<nat>) {
    && Bounded(g, scopes, work)
    && forall ip: nat :: ip < |g| && scopes[ip].Live? && ip !in work ==> Settled(g, scopes, ip)
  }

  /** The invariant while `ip`, no longer queued, has followed its first `done` edges. */
  ghost predicate Processing(g: Graph, scopes: Scopes, work: seq<nat>, ip: nat, done: nat) {
    && Bounded(g, scopes, work)
    && ip < |g| && scopes[ip].Live? && LocalOk(g[ip], scopes[ip].stack) && done <= |g[ip].edges|
    && (forall j: nat :: j < |g| && j != ip && scopes[j].Live? && j !in work ==> Settled(g, scopes, j))
    && forall k: nat :: k < done ==> Flowed(g, scopes, ip, k, scopes[ip].stack)
  }

  lemma ReachedAlong(g: Graph, ip: nat, k: nat, stack: seq<nat>)
    requires HasEdge(g, ip, k) && ReachedWith(g, ip, stack)
    ensures ReachedWith(g, g[ip].edges[k].target, After(g[ip], stack))
  {
    var run :| IsRun(g, run) && End(g, run) == ip && Stack(g, run) == stack;
    assert IsRun(g, Step(run, k)) && Stack(g, Step(run, k)) == After(g[ip], stack);
  }

  lemma MergeIsUnsafe(g: Graph, ip: nat, stack: seq<nat>, other: seq<nat>)
    requires ReachedWith(g, ip, stack) && ReachedWith(g, ip, other) && stack != other
    ensures !ScopesSafe(g)
  {
    var r1 :| IsRun(g, r1) && End(g, r1) == ip && Stack(g, r1) == stack;
    var r2 :| IsRun(g, r2) && End(g, r2) == ip && Stack(g, r2) == other;
    assert !SameStack(g, r1, r2);
  }

  lemma FailedCheckIsUnsafe(g: Graph, ip: nat, stack: seq<nat>)
    requires ip < |g| && ReachedWith(g, ip, stack) && !LocalOk(g[ip], stack)
    ensures !ScopesSafe(g)
  {
    var run :| IsRun(g, run) && End(g, run) == ip && Stack(g, run) == stack;
    assert !RunOk(g, run);
  }

  lemma {:induction false} FixpointIsStack(g: Graph, scopes: Scopes, run: Run)
    requires Invariant(g, scopes, []) && IsRun(g, run)
    ensures End(g, run) < |g| && scopes[End(g, run)] == Live(Stack(g, run))
  {
    match run
    case Entry =>
    case Step(before, k) =>
      FixpointIsStack(g, scopes, before);
      assert Settled(g, scopes, End(g, before));
      assert Flowed(g, scopes, End(g, before), k, Stack(g, before));
  }

  lemma FixpointIsSafe(g: Graph, scopes: Scopes)
    requires Invariant(g, scopes, [])
    ensures ScopesSafe(g)
    ensures forall run :: IsRun(g, run) ==> |Stack(g, run)| < |g|
    ensures forall ip: nat :: ip < |g| ==> (scopes[ip].Live? <==> Reachable(g, ip))
  {
    forall run | IsRun(g, run)
      ensures End(g, run) < |g| && scopes[End(g, run)] == Live(Stack(g, run))
    {
      FixpointIsStack(g, scopes, run);
    }
    forall run ensures RunOk(g, run) {
      if IsRun(g, run) { assert Settled(g, scopes, End(g, run)); }
    }
    forall run, other ensures SameStack(g, run, other) {}
  }

  // ----- the pass -----

  /** Give `target` its stack, or compare with the one it has. */
  method EnqueueScope(g: Graph, scopes: Scopes, work: seq<nat>, ip: nat, k: nat)
    returns (compatible: bool, scopes': Scopes, work': seq<nat>)
    requires Processing(g, scopes, work, ip, k) && HasEdge(g, ip, k)
    ensures |scopes'| == |g|
    ensures !compatible ==> !ScopesSafe(g)
    ensures compatible ==> Processing(g, scopes', work', ip, k + 1)
    ensures compatible ==> scopes'[ip] == scopes[ip]
    ensures compatible ==> (scopes' == scopes && work' == work) || LiveCount(scopes') > LiveCount(scopes)
  {
    var target := g[ip].edges[k].target;
    var stack := After(g[ip], scopes[ip].stack);
    scopes', work' := scopes, work;
    ReachedAlong(g, ip, k, scopes[ip].stack);
    match scopes[target]
    case Unvisited =>
      scopes' := scopes[target := Live(stack)];
      work' := work + [target];
      compatible := true;
      FirstVisitCounts(scopes, target, stack);
      FirstVisitKeeps(g, scopes, work, ip, k);
    case Live(existing) =>
      compatible := existing == stack;
      if !compatible {
        MergeIsUnsafe(g, target, existing, stack);
      }
  }

  lemma FirstVisitKeeps(g: Graph, scopes: Scopes, work: seq<nat>, ip: nat, k: nat)
    requires Processing(g, scopes, work, ip, k) && HasEdge(g, ip, k)
    requires scopes[g[ip].edges[k].target].Unvisited?
    ensures var target := g[ip].edges[k].target;
      Processing(g, scopes[target := Live(After(g[ip], scopes[ip].stack))], work + [target], ip, k + 1)
  {
    var target := g[ip].edges[k].target;
    var stack := After(g[ip], scopes[ip].stack);
    var scopes' := scopes[target := Live(stack)];
    var work' := work + [target];
    FirstVisitCounts(scopes, target, stack);
    ReachedAlong(g, ip, k, scopes[ip].stack);
    assert forall w :: w in work' <==> w in work || w == target;
    forall j: nat | j < |g| && j != ip && scopes'[j].Live? && j !in work'
      ensures Settled(g, scopes', j)
    {
      assert Settled(g, scopes, j);
      forall m: nat | HasEdge(g, j, m) ensures Flowed(g, scopes', j, m, scopes'[j].stack) {
        assert Flowed(g, scopes, j, m, scopes[j].stack);
      }
    }
    forall m: nat | m < k + 1 ensures Flowed(g, scopes', ip, m, scopes'[ip].stack) {
      if m < k { assert Flowed(g, scopes, ip, m, scopes[ip].stack); }
    }
  }

  /** The pass. Without a `ResourceAcquire` the body keeps its compatibility path and is
      accepted unchecked; with one, acceptance is exactly `ScopesSafe`, live depth stays below the
      code length on every run, and the visited instructions are the reachable ones. */
  method Verify(g: Graph) returns (accepted: bool, scopes: Scopes)
    requires Closed(g)
    ensures accepted <==> !HasMarkers(g) || ScopesSafe(g)
    ensures accepted && HasMarkers(g) ==> forall run :: IsRun(g, run) ==> |Stack(g, run)| < |g|
    ensures |scopes| == |g|
    ensures accepted && HasMarkers(g) ==> forall ip: nat :: ip < |g| ==> (scopes[ip].Live? <==> Reachable(g, ip))
  {
    scopes := seq(|g|, _ => Unvisited);
    if |g| == 0 || !HasMarkers(g) {
      return true, scopes;
    }
    NoneLive(scopes);
    FirstVisitCounts(scopes, 0, []);
    scopes := scopes[0 := Live([])];
    var work := [0];
    assert IsRun(g, Entry) && Stack(g, Entry) == [];
    while work != []
      invariant Invariant(g, scopes, work)
      decreases |g| - LiveCount(scopes), |work|
    {
      var ip := work[0];
      assert ip in work;
      assert forall w :: w in work <==> w == ip || w in work[1..];
      work := work[1..];
      if !LocalOk(g[ip], scopes[ip].stack) {
        FailedCheckIsUnsafe(g, ip, scopes[ip].stack);
        return false, scopes;
      }
      var compatible;
      if 0 < |g[ip].edges| {
        compatible, scopes, work := EnqueueScope(g, scopes, work, ip, 0);
        if !compatible { return false, scopes; }
      }
      if 1 < |g[ip].edges| {
        compatible, scopes, work := EnqueueScope(g, scopes, work, ip, 1);
        if !compatible { return false, scopes; }
      }
      assert Processing(g, scopes, work, ip, |g[ip].edges|);
    }
    FixpointIsSafe(g, scopes);
    accepted := true;
  }

  lemma {:induction false} NoneLive(scopes: Scopes)
    requires forall i :: 0 <= i < |scopes| ==> scopes[i].Unvisited?
    ensures LiveCount(scopes) == 0
  {
    if scopes != [] { NoneLive(scopes[1..]); }
  }

  // ----- whole runs: acquires and drops as brackets -----

  datatype Event = Opens(resource: nat) | Closes(resource: nat)

  function EventsOf(node: Node): seq<Event> {
    match node.effect
    case Acquire(resource) => [Opens(resource)]
    case Drop(resource) => [Closes(resource)]
    case _ => []
  }

  /** What a run has acquired and dropped, in order. */
  function Events(g: Graph, run: Run): seq<Event> {
    match run
    case Entry => []
    case Step(before, _) =>
      Events(g, before) + (if End(g, before) < |g| then EventsOf(g[End(g, before)]) else [])
  }

  function Closings(order: seq<nat>): seq<Event> {
    if order == [] then [] else [Closes(order[0])] + Closings(order[1..])
  }

  /** `run` can leave the body at its end, performing `last` on the way out: at a `Return`, by
      falling off the end, or by the short-circuit of a `TryResult`, which runs its cleanup list. */
  ghost predicate LeavesWith(g: Graph, run: Run, last: seq<Event>) {
    && IsRun(g, run) && End(g, run) < |g|
    && var node := g[End(g, run)];
       || (node.effect.Exit? && last == [])
       || (node.fallsOff && last == EventsOf(node))
       || (node.effect.Unwind? && last == Closings(node.effect.order))
  }

  /** Matching brackets, by their grammar. */
  ghost predicate Balanced(events: seq<Event>)
    decreases |events|
  {
    events == [] ||
    (events[0].Opens? && exists i :: MatchesAt(events, i) && Balanced(events[1..i]) && Balanced(events[i + 1..]))
  }

  predicate MatchesAt(events: seq<Event>, i: int) {
    0 < i < |events| && events[0].Opens? && events[i] == Closes(events[0].resource)
  }

  /** The stack after `events` from `stack`, if every drop names the top. */
  predicate Replays(stack: seq<nat>, events: seq<Event>, result: seq<nat>)
    decreases |events|
  {
    if events == [] then stack == result
    else match events[0]
      case Opens(resource) => Replays(stack + [resource], events[1..], result)
      case Closes(resource) =>
        stack != [] && stack[|stack| - 1] == resource && Replays(stack[..|stack| - 1], events[1..], result)
  }

  lemma {:induction false} ReplayAppend(stack: seq<nat>, a: seq<Event>, mid: seq<nat>, b: seq<Event>, result: seq<nat>)
    requires Replays(stack, a, mid) && Replays(mid, b, result)
    ensures Replays(stack, a + b, result)
    decreases |a|
  {
    if a == [] {
      assert a + b == b;
    } else {
      assert (a + b)[1..] == a[1..] + b;
      match a[0]
      case Opens(resource) => ReplayAppend(stack + [resource], a[1..], mid, b, result);
      case Closes(resource) => ReplayAppend(stack[..|stack| - 1], a[1..], mid, b, result);
    }
  }

  lemma TopCloses(stack: seq<nat>, top: nat, events: seq<Event>)
    requires events != [] && events[0].Closes? && Replays(stack + [top], events, [])
    ensures events[0] == Closes(top) && Replays(stack, events[1..], []) && Balanced(events[..0])
  {
    assert (stack + [top])[..|stack|] == stack;
  }

  /** The first drop that uncovers `stack` is the one of `top`, and what precedes it is balanced. */
  lemma {:induction false} FirstClose(stack: seq<nat>, top: nat, events: seq<Event>) returns (i: nat)
    requires Replays(stack + [top], events, [])
    ensures i < |events| && events[i] == Closes(top) && Balanced(events[..i])
    ensures Replays(stack, events[i + 1..], [])
    decreases |events|
  {
    match events[0]
    case Closes(_) =>
      i := 0;
      TopCloses(stack, top, events);
    case Opens(inner) =>
      var rest := events[1..];
      var j := FirstClose(stack + [top], inner, rest);
      var tail := rest[j + 1..];
      var m := FirstClose(stack, top, tail);
      i := j + 2 + m;
      BracketThenRest(events, inner, j, tail, m, i);
  }

  /** A bracket closed at `j + 1`, followed by `m` balanced events, of which `tail` holds the rest. */
  lemma BracketThenRest(events: seq<Event>, inner: nat, j: nat, tail: seq<Event>, m: nat, i: nat)
    requires i == j + 2 + m < |events| && tail == events[1..][j + 1..]
    requires events[0] == Opens(inner) && events[1..][j] == Closes(inner)
    requires Balanced(events[1..][..j]) && Balanced(tail[..m])
    ensures Balanced(events[..i]) && tail[m] == events[i] && tail[m + 1..] == events[i + 1..]
  {
    var prefix := events[..i];
    assert prefix[1..j + 1] == events[1..][..j];
    assert prefix[j + 2..] == tail[..m];
    assert MatchesAt(prefix, j + 1);
  }

  lemma {:induction false} BalancedReplays(stack: seq<nat>, events: seq<Event>)
    requires Balanced(events)
    ensures Replays(stack, events, stack)
    decreases |events|
  {
    if events != [] {
      var i :| MatchesAt(events, i) && Balanced(events[1..i]) && Balanced(events[i + 1..]);
      var pushed := stack + [events[0].resource];
      BalancedReplays(pushed, events[1..i]);
      BalancedReplays(stack, events[i + 1..]);
      assert pushed[..|pushed| - 1] == stack;
      assert events[i..][1..] == events[i + 1..];
      assert Replays(pushed, events[i..], stack);
      ReplayAppend(pushed, events[1..i], pushed, events[i..], stack);
      assert events[1..i] + events[i..] == events[1..];
    }
  }

  /** Replaying to the empty stack is the same as being bracket-balanced. */
  lemma {:induction false} BalancedIffReplays(events: seq<Event>)
    ensures Balanced(events) <==> Replays([], events, [])
    decreases |events|
  {
    if Balanced(events) { BalancedReplays([], events); }
    if Replays([], events, []) && events != [] {
      assert [] + [events[0].resource] == [events[0].resource];
      var j := FirstClose([], events[0].resource, events[1..]);
      assert events[1..j + 1] == events[1..][..j] && events[j + 2..] == events[1..][j + 1..];
      BalancedIffReplays(events[j + 2..]);
      assert MatchesAt(events, j + 1);
    }
  }

  lemma {:induction false} RunReplays(g: Graph, run: Run)
    requires Closed(g) && ScopesSafe(g) && IsRun(g, run)
    ensures Replays([], Events(g, run), Stack(g, run))
  {
    match run
    case Entry =>
    case Step(before, k) =>
      RunReplays(g, before);
      assert RunOk(g, before);
      var node := g[End(g, before)];
      OneEvent(node, Stack(g, before));
      ReplayAppend([], Events(g, before), Stack(g, before), EventsOf(node), After(node, Stack(g, before)));
  }

  lemma OneEvent(node: Node, stack: seq<nat>)
    requires LocalOk(node, stack)
    ensures Replays(stack, EventsOf(node), After(node, stack))
  {
    if EventsOf(node) != [] { assert EventsOf(node)[1..] == []; }
  }

  lemma {:induction false} ReversedUnwinds(stack: seq<nat>)
    ensures Replays(stack, Closings(Reversed(stack)), [])
  {
    if stack != [] {
      assert Reversed(stack)[1..] == Reversed(stack[..|stack| - 1]);
      ReversedUnwinds(stack[..|stack| - 1]);
    }
  }

  /** On every run of an accepted body, from entry to whichever way out, acquires and drops are
      matching brackets: nothing is dropped out of order and nothing stays live. */
  lemma CompleteRunsBalance(g: Graph, run: Run, last: seq<Event>)
    requires Closed(g) && ScopesSafe(g) && LeavesWith(g, run, last)
    ensures Balanced(Events(g, run) + last)
  {
    RunReplays(g, run);
    assert RunOk(g, run);
    var node, stack := g[End(g, run)], Stack(g, run);
    if node.effect.Exit? && last == [] {
    } else if node.fallsOff && last == EventsOf(node) {
      OneEvent(node, stack);
    } else {
      ReversedUnwinds(stack);
    }
    ReplayAppend([], Events(g, run), stack, last, []);
    BalancedIffReplays(Events(g, run) + last);
  }
}
