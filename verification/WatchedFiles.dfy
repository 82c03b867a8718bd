/** The document store and the package cache together: what a watched-file event promises.

    The handler first invalidates the affected packages in the cache and then, in one locked section of the store,
    requeues every synchronized document of those packages. Analyses ask the cache for their package while
    everything else goes on, and commit under the store's guard. */
module WatchedFiles {
  import C = PackageCache
  import D = DocumentStore
  import TextPositions

  /** The call by which a job's analysis asks the cache: its thread, and when it began. */
  datatype Ask = Ask(thread: nat, called: nat)

  datatype System = System(cache: C.System, store: D.System, asks: map<D.Job, Ask>)

  const INITIAL: System := System(C.INITIAL, D.System(D.NEW, {}), map[])

  datatype Event =
    | CacheMoves(choice: C.Choice)
    | StoreMoves(event: D.Event)
    | Watched(affected: set<C.Root>, order: seq<D.Uri>)
    | Begins(job: D.Job, thread: nat)
    | Finishes(job: D.Job, diagnostics: seq<string>)

  predicate Asked(s: System, thread: nat) {
    exists job :: job in s.asks && s.asks[job].thread == thread
  }

  /** The package an analysis reads; documents outside packages read none. */
  predicate InPackage(key: D.AnalysisKey, root: C.Root) {
    key == D.Package(root)
  }

  /** The analysis of `job` has its package snapshot. */
  predicate HasAnswer(s: System, job: D.Job) {
    && job in s.asks && s.asks[job].thread in s.cache.threads
    && s.cache.threads[s.asks[job].thread].Answered?
  }

  function AnswerOf(s: System, job: D.Job): C.Snapshot
    requires HasAnswer(s, job)
  {
    s.cache.threads[s.asks[job].thread].snapshot
  }

  /** `order` lists the synchronized documents of the affected packages. */
  ghost predicate ListsAffected(keyOf: D.KeyOf, s: D.Store, affected: set<C.Root>, order: seq<D.Uri>) {
    forall uri :: uri in order <==>
      && uri in s.documents && s.documents[uri].sync == D.Synchronized
      && keyOf(uri).Package? && keyOf(uri).root in affected
  }

  ghost predicate Enabled(keyOf: D.KeyOf, s: System, e: Event) {
    match e
    case CacheMoves(choice) => !choice.Run? ==> !Asked(s, choice.t)
    case StoreMoves(event) => !event.Commits?
    case Watched(affected, order) => ListsAffected(keyOf, s.store.store, affected, order)
    case Begins(job, t) => job in s.store.jobs && job.key.Package? && job !in s.asks && C.Free(s.cache, t) &&
      !Asked(s, t)
    case Finishes(job, _) => job in s.store.jobs && (job.key.Package? ==> HasAnswer(s, job))
  }

  ghost function RequeueAll(keyOf: D.KeyOf, store: D.System, order: seq<D.Uri>): D.System
    decreases |order|
  {
    if order == [] then store else RequeueAll(keyOf, D.Next(keyOf, store, D.Requeues(order[0])), order[1..])
  }

  ghost function Next(keyOf: D.KeyOf, s: System, e: Event): System {
    match e
    case CacheMoves(choice) => s.(cache := C.Next(s.cache, choice))
    case StoreMoves(event) => s.(store := D.Next(keyOf, s.store, event))
    case Watched(_, order) => s.(store := RequeueAll(keyOf, s.store, order))
    case Begins(job, t) =>
      if !job.key.Package? then s else
      s.(cache := C.Next(s.cache, C.CallDocuments(t, job.key.root)), asks := s.asks[job := Ask(t, s.cache.clock)])
    case Finishes(job, diagnostics) => s.(store := D.Next(keyOf, s.store, D.Commits(job, diagnostics)))
  }

  datatype Trace = Start | Then(before: Trace, event: Event)

  ghost function StateOf(keyOf: D.KeyOf, t: Trace): System {
    match t case Start => INITIAL case Then(before, e) => Next(keyOf, StateOf(keyOf, before), e)
  }

  ghost predicate IsTrace(keyOf: D.KeyOf, t: Trace) {
    t.Then? ==> IsTrace(keyOf, t.before) && Enabled(keyOf, StateOf(keyOf, t.before), t.event)
  }

  predicate Continues(t: Trace, later: Trace) {
    later == t || (later.Then? && Continues(t, later.before))
  }

  // ----- the store -----

  /** Jobs read the document they were requested for. */
  predicate OwnInputs(jobs: set<D.Job>) {
    forall job :: job in jobs ==> job.uri in job.inputs
  }

  /** A job that an event adds carries a generation never used before, and reads its own document. */
  lemma AddedJobs(keyOf: D.KeyOf, sys: D.System, e: D.Event, job: D.Job)
    requires job in D.Next(keyOf, sys, e).jobs && job !in sys.jobs
    ensures job.generation == sys.store.nextRevision < D.Next(keyOf, sys, e).store.nextRevision
    ensures job.uri in job.inputs
  {
  }

  lemma RevisionsGrow(keyOf: D.KeyOf, sys: D.System, e: D.Event)
    ensures sys.store.nextRevision <= D.Next(keyOf, sys, e).store.nextRevision
  {
  }

  /** What any sequence of store events keeps, seen from an earlier state. */
  ghost predicate Grown(sys: D.System, sys': D.System) {
    && sys.store.nextRevision <= sys'.store.nextRevision
    && (forall key :: D.Generation(sys.store, key) <= D.Generation(sys'.store, key))
    && forall job :: job in sys'.jobs && job !in sys.jobs ==>
         sys.store.nextRevision <= job.generation && job.uri in job.inputs
  }

  lemma EventGrows(keyOf: D.KeyOf, sys: D.System, e: D.Event)
    requires D.SystemOk(keyOf, sys)
    ensures Grown(sys, D.Next(keyOf, sys, e)) && D.SystemOk(keyOf, D.Next(keyOf, sys, e))
  {
    D.NextKeeps(keyOf, sys, e);
    RevisionsGrow(keyOf, sys, e);
    forall key ensures D.Generation(sys.store, key) <= D.Generation(D.Next(keyOf, sys, e).store, key) {
      D.GenerationGrows(keyOf, sys, e, key);
    }
    forall job | job in D.Next(keyOf, sys, e).jobs && job !in sys.jobs
      ensures sys.store.nextRevision <= job.generation && job.uri in job.inputs
    {
      AddedJobs(keyOf, sys, e, job);
    }
  }

  lemma GrownTwice(a: D.System, b: D.System, c: D.System)
    requires Grown(a, b) && Grown(b, c)
    ensures Grown(a, c)
  {
  }

  lemma {:induction false} RequeuesGrow(keyOf: D.KeyOf, sys: D.System, order: seq<D.Uri>)
    requires D.SystemOk(keyOf, sys)
    ensures Grown(sys, RequeueAll(keyOf, sys, order)) && D.SystemOk(keyOf, RequeueAll(keyOf, sys, order))
    decreases |order|
  {
    if order != [] {
      var next := D.Next(keyOf, sys, D.Requeues(order[0]));
      EventGrows(keyOf, sys, D.Requeues(order[0]));
      RequeuesGrow(keyOf, next, order[1..]);
      GrownTwice(sys, next, RequeueAll(keyOf, sys, order));
    }
  }

  predicate IsSynchronized(s: D.Store, uri: D.Uri) {
    uri in s.documents && s.documents[uri].sync == D.Synchronized
  }

  lemma RequeueKeepsSync(keyOf: D.KeyOf, sys: D.System, requeued: D.Uri, uri: D.Uri)
    requires IsSynchronized(sys.store, uri)
    ensures IsSynchronized(D.Next(keyOf, sys, D.Requeues(requeued)).store, uri)
    ensures requeued == uri ==>
      D.Generation(D.Next(keyOf, sys, D.Requeues(requeued)).store, keyOf(uri)) == sys.store.nextRevision
  {
  }

  /** Every requeued document's package gets a generation that was never used before. */
  lemma {:induction false} RequeuesBump(keyOf: D.KeyOf, sys: D.System, order: seq<D.Uri>, uri: D.Uri)
    requires D.SystemOk(keyOf, sys) && uri in order && IsSynchronized(sys.store, uri)
    ensures sys.store.nextRevision <= D.Generation(RequeueAll(keyOf, sys, order).store, keyOf(uri))
    decreases |order|
  {
    var next := D.Next(keyOf, sys, D.Requeues(order[0]));
    RequeueKeepsSync(keyOf, sys, order[0], uri);
    EventGrows(keyOf, sys, D.Requeues(order[0]));
    if order[0] == uri {
      RequeuesGrow(keyOf, next, order[1..]);
    } else {
      RequeuesBump(keyOf, next, order[1..], uri);
    }
  }

  /** After the section, no job of an affected package that existed before it can pass the guard. */
  lemma OlderJobsAreStale(keyOf: D.KeyOf, sys: D.System, affected: set<C.Root>, order: seq<D.Uri>, job: D.Job)
    requires D.SystemOk(keyOf, sys) && OwnInputs(sys.jobs) && ListsAffected(keyOf, sys.store, affected, order)
    requires job in sys.jobs && job.key.Package? && job.key.root in affected
    ensures job.generation < D.Generation(RequeueAll(keyOf, sys, order).store, job.key)
  {
    assert D.JobOk(keyOf, sys.store, job);
    RequeuesGrow(keyOf, sys, order);
    if job.generation == D.Generation(sys.store, job.key) {
      assert job.uri in D.Inputs(keyOf, sys.store, job.key);
      assert IsSynchronized(sys.store, job.uri) && job.uri in order;
      RequeuesBump(keyOf, sys, order, job.uri);
    }
  }

  // ----- the cache -----

  /** The thread is in a call of `documents_for_root` for `root` that began at `called`, or has answered it. */
  predicate Serves(thread: C.Thread, root: C.Root, called: nat) {
    match thread
    case Asking(r, c) => r == root && c == called
    case Looking(r, c, _) => r == root && c == called
    case Missed(r, c, _) => r == root && c == called
    case Loaded(r, c, _, _) => r == root && c == called
    case Locked(r, c, _, _) => r == root && c == called
    case Storing(r, c, _, _) => r == root && c == called
    case Answered(r, c, _) => r == root && c == called
    case _ => false
  }

  lemma ServesOn(s: C.System, choice: C.Choice, t: nat, root: C.Root, called: nat)
    requires Serves(C.ThreadOf(s, t), root, called) && (choice.Run? || choice.t != t)
    ensures Serves(C.ThreadOf(C.Next(s, choice), t), root, called)
  {
  }

  /** The log only grows, and time with it. */
  predicate CacheLater(s: C.System, s': C.System) {
    s.clock <= s'.clock && forall g :: g in s.log ==> g in s'.log && s'.log[g] == s.log[g]
  }

  lemma LogGrows(s: C.System, choice: C.Choice)
    requires C.SystemOk(s)
    ensures CacheLater(s, C.Next(s, choice))
  {
    if choice.Run? && choice.t in s.threads { assert C.ThreadOk(s, s.threads[choice.t]); }
  }

  // ----- the invariant -----

  ghost predicate AskOk(s: System, job: D.Job)
    requires job in s.asks
  {
    && job.key.Package? && job.generation < s.store.store.nextRevision
    && s.asks[job].thread in s.cache.threads
    && Serves(s.cache.threads[s.asks[job].thread], job.key.root, s.asks[job].called)
  }

  ghost predicate SystemOk(keyOf: D.KeyOf, s: System) {
    && C.SystemOk(s.cache) && D.SystemOk(keyOf, s.store) && OwnInputs(s.store.jobs)
    && forall job :: job in s.asks ==> AskOk(s, job)
  }

  lemma CacheMoveKeeps(keyOf: D.KeyOf, s: System, choice: C.Choice)
    requires SystemOk(keyOf, s) && (!choice.Run? ==> !Asked(s, choice.t))
    ensures SystemOk(keyOf, s.(cache := C.Next(s.cache, choice)))
  {
    C.NextKeeps(s.cache, choice);
    var s' := s.(cache := C.Next(s.cache, choice));
    forall job | job in s'.asks ensures AskOk(s', job) {
      assert AskOk(s, job);
      ServesOn(s.cache, choice, s.asks[job].thread, job.key.root, s.asks[job].called);
    }
  }

  lemma StoreMoveKeeps(keyOf: D.KeyOf, s: System, store: D.System)
    requires SystemOk(keyOf, s) && D.SystemOk(keyOf, store) && Grown(s.store, store)
    ensures SystemOk(keyOf, s.(store := store))
  {
    forall job | job in s.asks ensures AskOk(s.(store := store), job) { assert AskOk(s, job); }
  }

  lemma BeginsKeeps(keyOf: D.KeyOf, s: System, job: D.Job, t: nat)
    requires SystemOk(keyOf, s) && Enabled(keyOf, s, Begins(job, t))
    ensures SystemOk(keyOf, Next(keyOf, s, Begins(job, t)))
  {
    var choice := C.CallDocuments(t, job.key.root);
    CacheMoveKeeps(keyOf, s, choice);
    var moved, s' := s.(cache := C.Next(s.cache, choice)), Next(keyOf, s, Begins(job, t));
    assert D.JobOk(keyOf, s.store.store, job);
    forall j | j in s'.asks ensures AskOk(s', j) {
      if j != job { assert AskOk(moved, j); }
    }
  }

  lemma NextKeeps(keyOf: D.KeyOf, s: System, e: Event)
    requires SystemOk(keyOf, s) && Enabled(keyOf, s, e)
    ensures SystemOk(keyOf, Next(keyOf, s, e))
  {
    match e
    case CacheMoves(choice) => CacheMoveKeeps(keyOf, s, choice);
    case StoreMoves(event) =>
      EventGrows(keyOf, s.store, event);
      StoreMoveKeeps(keyOf, s, D.Next(keyOf, s.store, event));
    case Watched(_, order) =>
      RequeuesGrow(keyOf, s.store, order);
      StoreMoveKeeps(keyOf, s, RequeueAll(keyOf, s.store, order));
    case Begins(job, t) => BeginsKeeps(keyOf, s, job, t);
    case Finishes(job, diagnostics) =>
      EventGrows(keyOf, s.store, D.Commits(job, diagnostics));
      StoreMoveKeeps(keyOf, s, D.Next(keyOf, s.store, D.Commits(job, diagnostics)));
  }

  lemma {:induction false} TracesKeep(keyOf: D.KeyOf, t: Trace)
    requires IsTrace(keyOf, t)
    ensures SystemOk(keyOf, StateOf(keyOf, t))
  {
    match t
    case Start =>
    case Then(before, e) =>
      TracesKeep(keyOf, before);
      NextKeeps(keyOf, StateOf(keyOf, before), e);
  }

  // ----- what a watched-file event promises -----

  /** Each job of the package is stale for good, or asked the cache at `time` or later, if it has asked at all. */
  ghost predicate AskedSince(s: System, root: C.Root, time: nat) {
    forall job :: job in s.store.jobs && InPackage(job.key, root) ==>
      job.generation < D.Generation(s.store.store, job.key) || (job in s.asks ==> time <= s.asks[job].called)
  }

  lemma StoreMoveKeepsAsked(keyOf: D.KeyOf, s: System, store: D.System, root: C.Root, time: nat)
    requires SystemOk(keyOf, s) && Grown(s.store, store) && AskedSince(s, root, time)
    ensures AskedSince(s.(store := store), root, time)
  {
    forall job | job in store.jobs && InPackage(job.key, root)
      ensures job.generation < D.Generation(store.store, job.key) || (job in s.asks ==> time <= s.asks[job].called)
    {
      if job in s.asks { assert AskOk(s, job); }
    }
  }

  lemma EventKeepsAsked(keyOf: D.KeyOf, s: System, e: Event, root: C.Root, time: nat)
    requires SystemOk(keyOf, s) && Enabled(keyOf, s, e) && AskedSince(s, root, time) && time <= s.cache.clock
    ensures AskedSince(Next(keyOf, s, e), root, time) && CacheLater(s.cache, Next(keyOf, s, e).cache)
  {
    match e
    case CacheMoves(choice) => LogGrows(s.cache, choice);
    case StoreMoves(event) =>
      EventGrows(keyOf, s.store, event);
      StoreMoveKeepsAsked(keyOf, s, D.Next(keyOf, s.store, event), root, time);
    case Watched(_, order) =>
      RequeuesGrow(keyOf, s.store, order);
      StoreMoveKeepsAsked(keyOf, s, RequeueAll(keyOf, s.store, order), root, time);
    case Begins(job, t) => LogGrows(s.cache, C.CallDocuments(t, job.key.root));
    case Finishes(job, diagnostics) =>
      EventGrows(keyOf, s.store, D.Commits(job, diagnostics));
      StoreMoveKeepsAsked(keyOf, s, D.Next(keyOf, s.store, D.Commits(job, diagnostics)), root, time);
  }

  /** After `e`, no job of the package that existed before it can pass the guard. */
  ghost predicate Outdates(keyOf: D.KeyOf, s: System, e: Event, root: C.Root) {
    forall job :: job in s.store.jobs && InPackage(job.key, root) ==>
      job.generation < D.Generation(Next(keyOf, s, e).store.store, job.key)
  }

  lemma WatchedOutdates(keyOf: D.KeyOf, s: System, affected: set<C.Root>, order: seq<D.Uri>, root: C.Root)
    requires SystemOk(keyOf, s) && Enabled(keyOf, s, Watched(affected, order)) && root in affected
    ensures Outdates(keyOf, s, Watched(affected, order), root)
  {
    forall job | job in s.store.jobs && InPackage(job.key, root)
      ensures job.generation < D.Generation(Next(keyOf, s, Watched(affected, order)).store.store, job.key)
    {
      OlderJobsAreStale(keyOf, s.store, affected, order, job);
    }
  }

  /** A save that changes the store: of an open document, within the size limit. */
  predicate Effective(s: D.Store, uri: D.Uri, text: string) {
    uri in s.documents && TextPositions.ByteLength(text) <= D.MAX_DOCUMENT_BYTES
  }

  lemma SaveOutdates(keyOf: D.KeyOf, s: System, uri: D.Uri, text: string, root: C.Root)
    requires SystemOk(keyOf, s) && Effective(s.store.store, uri, text) && InPackage(keyOf(uri), root)
    ensures Outdates(keyOf, s, StoreMoves(D.Saves(uri, text)), root)
  {
    forall job | job in s.store.jobs && InPackage(job.key, root)
      ensures job.generation < D.Generation(Next(keyOf, s, StoreMoves(D.Saves(uri, text))).store.store, job.key)
    {
      assert D.JobOk(keyOf, s.store.store, job);
    }
  }

  lemma OutdatedAsks(keyOf: D.KeyOf, s: System, e: Event, root: C.Root)
    requires SystemOk(keyOf, s) && Enabled(keyOf, s, e) && Outdates(keyOf, s, e, root) && (e.Watched? || e.StoreMoves?)
    ensures AskedSince(Next(keyOf, s, e), root, s.cache.clock)
  {
    var s' := Next(keyOf, s, e);
    if e.Watched? { RequeuesGrow(keyOf, s.store, e.order); } else { EventGrows(keyOf, s.store, e.event); }
    forall job | job in s'.store.jobs && InPackage(job.key, root)
      ensures job.generation < D.Generation(s'.store.store, job.key) || job !in s'.asks
    {
      if job in s.asks { assert AskOk(s, job); }
    }
  }

  lemma {:induction false} AskedSinceAlong(keyOf: D.KeyOf, t: Trace, later: Trace, root: C.Root, time: nat)
    requires IsTrace(keyOf, later) && Continues(t, later)
    requires AskedSince(StateOf(keyOf, t), root, time) && time <= StateOf(keyOf, t).cache.clock
    ensures AskedSince(StateOf(keyOf, later), root, time)
    ensures CacheLater(StateOf(keyOf, t).cache, StateOf(keyOf, later).cache)
  {
    if later != t {
      AskedSinceAlong(keyOf, t, later.before, root, time);
      TracesKeep(keyOf, later.before);
      EventKeepsAsked(keyOf, StateOf(keyOf, later.before), later.event, root, time);
    }
  }

  /** The job would now be committed with a snapshot loaded after the generation that thread `u`'s invalidation had
      installed for `root`. */
  ghost predicate SeesInvalidation(before: System, u: nat, root: C.Root, s: System, job: D.Job) {
    && u in before.cache.threads && before.cache.threads[u].Invalidated? && HasAnswer(s, job)
    && var installed := before.cache.threads[u].installed;
       && root in installed && installed[root] in s.cache.log && s.cache.log[installed[root]].root == root
       && s.cache.log[installed[root]].time < AnswerOf(s, job).started
  }

  ghost predicate HasInvalidated(s: System, u: nat, root: C.Root) {
    u in s.cache.threads && s.cache.threads[u].Invalidated? && root in s.cache.threads[u].all
  }

  ghost predicate MayCommit(keyOf: D.KeyOf, s: System, job: D.Job, root: C.Root) {
    InPackage(job.key, root) && Enabled(keyOf, s, Finishes(job, [])) && D.Current(s.store.store, job)
  }

  lemma CommitsSeeTheInvalidation(keyOf: D.KeyOf, before: Trace, e: Event, u: nat, root: C.Root, later: Trace,
                                  job: D.Job)
    requires HasInvalidated(StateOf(keyOf, before), u, root) && (e.Watched? || e.StoreMoves?)
    requires Outdates(keyOf, StateOf(keyOf, before), e, root)
    requires IsTrace(keyOf, later) && Continues(Then(before, e), later)
    requires MayCommit(keyOf, StateOf(keyOf, later), job, root)
    ensures SeesInvalidation(StateOf(keyOf, before), u, root, StateOf(keyOf, later), job)
  {
    var after := Then(before, e);
    ContinuedIsTrace(keyOf, after, later);
    TracesKeep(keyOf, before);
    TracesKeep(keyOf, later);
    var s0, s := StateOf(keyOf, before), StateOf(keyOf, later);
    var g := ReturnedInstall(s0.cache, u, root);
    OutdatedAsks(keyOf, s0, e, root);
    AskedSinceAlong(keyOf, after, later, root, s0.cache.clock);
    CurrentAnswerIsFresh(keyOf, s, job, root, s0.cache.clock, g);
  }

  /** Thread `u`'s invalidation of `root` had returned when the store section of a watched-file event ran. From then on,
      in every interleaving, a job of that package that passes the guard was computed from a package snapshot whose
      load began after the generation which that invalidation installed. */
  lemma CommitsSeeTheChange(keyOf: D.KeyOf, before: Trace, affected: set<C.Root>, order: seq<D.Uri>, u: nat,
                            root: C.Root, later: Trace, job: D.Job)
    requires HasInvalidated(StateOf(keyOf, before), u, root) && root in affected
    requires IsTrace(keyOf, later) && Continues(Then(before, Watched(affected, order)), later)
    requires MayCommit(keyOf, StateOf(keyOf, later), job, root)
    ensures SeesInvalidation(StateOf(keyOf, before), u, root, StateOf(keyOf, later), job)
  {
    var e := Watched(affected, order);
    ContinuedIsTrace(keyOf, Then(before, e), later);
    TracesKeep(keyOf, before);
    WatchedOutdates(keyOf, StateOf(keyOf, before), affected, order, root);
    CommitsSeeTheInvalidation(keyOf, before, e, u, root, later, job);
  }

  // ----- what a save promises -----

  /** The same after a save of a document of the package, if the save changes the store. */
  lemma CommitsSeeTheSave(keyOf: D.KeyOf, before: Trace, uri: D.Uri, text: string, u: nat, root: C.Root, later: Trace,
                          job: D.Job)
    requires HasInvalidated(StateOf(keyOf, before), u, root)
    requires Effective(StateOf(keyOf, before).store.store, uri, text) && InPackage(keyOf(uri), root)
    requires IsTrace(keyOf, later) && Continues(Then(before, StoreMoves(D.Saves(uri, text))), later)
    requires MayCommit(keyOf, StateOf(keyOf, later), job, root)
    ensures SeesInvalidation(StateOf(keyOf, before), u, root, StateOf(keyOf, later), job)
  {
    var e := StoreMoves(D.Saves(uri, text));
    ContinuedIsTrace(keyOf, Then(before, e), later);
    TracesKeep(keyOf, before);
    SaveOutdates(keyOf, StateOf(keyOf, before), uri, text, root);
    CommitsSeeTheInvalidation(keyOf, before, e, u, root, later, job);
  }

  /** A save that is not effective leaves the store, and with it every job, as it was. */
  lemma IneffectiveSaveChangesNothing(keyOf: D.KeyOf, s: System, uri: D.Uri, text: string)
    requires !Effective(s.store.store, uri, text)
    ensures Next(keyOf, s, StoreMoves(D.Saves(uri, text))) == s
  {
  }

  lemma {:induction false} SnapshotsPast(keyOf: D.KeyOf, t: Trace)
    requires IsTrace(keyOf, t)
    ensures C.SnapshotsPast(StateOf(keyOf, t).cache)
  {
    if t.Then? {
      SnapshotsPast(keyOf, t.before);
      var s := StateOf(keyOf, t.before).cache;
      match t.event
      case CacheMoves(choice) => C.PastKeeps(s, choice);
      case Begins(job, thread) => if job.key.Package? { C.PastKeeps(s, C.CallDocuments(thread, job.key.root)); }
      case _ =>
    }
  }

  function Invalidation(t: Trace, u: nat, root: C.Root): Trace {
    Runs(Then(t, CacheMoves(C.CallInvalidate(u, [root]))), u, 4)
  }

  /** `n` sections of thread `u`. */
  function Runs(t: Trace, u: nat, n: nat): Trace {
    if n == 0 then t else Then(Runs(t, u, n - 1), CacheMoves(C.Run(u)))
  }

  lemma {:induction false} RunsMoveTheCache(keyOf: D.KeyOf, t: Trace, u: nat, n: nat)
    requires IsTrace(keyOf, t)
    ensures IsTrace(keyOf, Runs(t, u, n))
    ensures StateOf(keyOf, Runs(t, u, n)) == StateOf(keyOf, t).(cache := C.Sections(StateOf(keyOf, t).cache, u, n))
  {
    if n > 0 { RunsMoveTheCache(keyOf, t, u, n - 1); }
  }

  lemma InvalidationRuns(keyOf: D.KeyOf, t: Trace, u: nat, root: C.Root)
    requires IsTrace(keyOf, t) && !Asked(StateOf(keyOf, t), u)
    ensures IsTrace(keyOf, Invalidation(t, u, root))
    ensures var s := StateOf(keyOf, t);
      StateOf(keyOf, Invalidation(t, u, root)) == s.(cache := C.Invalidating(s.cache, u, root))
  {
    RunsMoveTheCache(keyOf, Then(t, CacheMoves(C.CallInvalidate(u, [root]))), u, 4);
  }

  /** When the notification carries no text, or the save is not effective, a job that had its snapshot before the
      invalidation still passes the guard after it, and does not see it. */
  lemma IneffectiveSaveIsNotSeen(keyOf: D.KeyOf, t: Trace, u: nat, root: C.Root, job: D.Job, uri: D.Uri, text: string)
    requires var s := StateOf(keyOf, t);
      && IsTrace(keyOf, t) && C.Free(s.cache, u) && !Asked(s, u) && s.cache.lock.None?
      && MayCommit(keyOf, s, job, root) && !Effective(s.store.store, uri, text)
    ensures var after := Invalidation(t, u, root);
      var s := StateOf(keyOf, after);
      && IsTrace(keyOf, after) && HasInvalidated(s, u, root) && MayCommit(keyOf, s, job, root)
      && !SeesInvalidation(s, u, root, s, job)
      && StateOf(keyOf, Then(after, StoreMoves(D.Saves(uri, text)))) == s
  {
    var s := StateOf(keyOf, t);
    InvalidationRuns(keyOf, t, u, root);
    C.InvalidatesAlone(s.cache, u, root);
    SnapshotsPast(keyOf, t);
    OldAnswerStays(keyOf, s, s.(cache := C.Invalidating(s.cache, u, root)), u, root, job);
    IneffectiveSaveChangesNothing(keyOf, StateOf(keyOf, Invalidation(t, u, root)), uri, text);
  }

  lemma OldAnswerStays(keyOf: D.KeyOf, s: System, s': System, u: nat, root: C.Root, job: D.Job)
    requires C.SnapshotsPast(s.cache) && !Asked(s, u) && MayCommit(keyOf, s, job, root)
    requires s' == s.(cache := s'.cache) && C.OnlyMoved(s.cache, s'.cache, u) && HasInvalidated(s', u, root)
    requires var installed := s'.cache.threads[u].installed;
      && root in installed && installed[root] in s'.cache.log
      && s.cache.clock < s'.cache.log[installed[root]].time
    ensures MayCommit(keyOf, s', job, root) && !SeesInvalidation(s', u, root, s', job)
  {
    var thread := s.asks[job].thread;
    assert Asked(s, thread);
    C.OtherThreadsStay(s.cache, s'.cache, u, thread);
    assert C.ThreadPast(s.cache.threads[thread], s.cache.clock);
  }

  /** Such a job comes about: a document is opened, and its analysis asks the cache and is answered. */
  lemma AnsweredJobExists(keyOf: D.KeyOf, uri: D.Uri, root: C.Root) returns (t: Trace, job: D.Job)
    requires InPackage(keyOf(uri), root)
    ensures var s := StateOf(keyOf, t);
      && IsTrace(keyOf, t) && C.Free(s.cache, 1) && !Asked(s, 1) && s.cache.lock.None?
      && MayCommit(keyOf, s, job, root)
  {
    var asking: Trace;
    asking, job := AskingJobExists(keyOf, uri, root);
    t := Runs(asking, 0, 6);
    RunsMoveTheCache(keyOf, asking, 0, 6);
    var before, after := StateOf(keyOf, asking).cache, StateOf(keyOf, t).cache;
    C.AnswersAlone(before, 0, root);
    assert 1 !in before.threads - {0};
    assert 1 !in after.threads;
  }

  lemma AskingJobExists(keyOf: D.KeyOf, uri: D.Uri, root: C.Root) returns (t: Trace, job: D.Job)
    requires InPackage(keyOf(uri), root)
    ensures var s := StateOf(keyOf, t);
      && IsTrace(keyOf, t) && s.cache == C.Moved(C.INITIAL, 0, C.Asking(root, 0)) && s.asks == map[job := Ask(0, 0)]
      && job in s.store.jobs && InPackage(job.key, root) && D.Current(s.store.store, job)
  {
    var (store, request) := D.Install(keyOf, D.NEW, uri, "", 0);
    job := request;
    var t1 := Then(Start, StoreMoves(D.Opens(uri, "", 0)));
    assert StateOf(keyOf, t1) == INITIAL.(store := D.System(store, {job}));
    t := Then(t1, Begins(job, 0));
    assert Enabled(keyOf, StateOf(keyOf, t1), t.event);
  }

  lemma ReturnedInstall(s: C.System, u: nat, root: C.Root) returns (g: nat)
    requires C.SystemOk(s) && u in s.threads && s.threads[u].Invalidated? && root in s.threads[u].all
    ensures root in s.threads[u].installed && g == s.threads[u].installed[root]
    ensures C.InstalledBefore(s, g, root, s.clock)
  {
    assert C.ThreadOk(s, s.threads[u]);
    g := s.threads[u].installed[root];
  }

  lemma CurrentAnswerIsFresh(keyOf: D.KeyOf, s: System, job: D.Job, root: C.Root, time: nat, g: nat)
    requires SystemOk(keyOf, s) && AskedSince(s, root, time) && C.InstalledBefore(s.cache, g, root, time)
    requires job in s.store.jobs && InPackage(job.key, root) && D.Current(s.store.store, job) && HasAnswer(s, job)
    ensures s.cache.log[g].time < AnswerOf(s, job).started
  {
    assert AskOk(s, job);
    assert C.ThreadOk(s.cache, s.cache.threads[s.asks[job].thread]);
  }

  lemma {:induction false} ContinuedIsTrace(keyOf: D.KeyOf, t: Trace, later: Trace)
    requires IsTrace(keyOf, later) && Continues(t, later)
    ensures IsTrace(keyOf, t)
  {
    if later != t { ContinuedIsTrace(keyOf, t, later.before); }
  }
}
