/** The document store, the package cache and the diagnostics publisher together.

    A run interleaves the sections of the cache and the store with the steps of the publisher. Seen without the
    publisher it is a run of `WatchedFiles`; seen without the cache it is one of `DiagnosticsDelivery`, where a
    watched-file event is the sequence of its requeues. */
module WatchedDelivery {
  import opened Common
  import C = PackageCache
  import D = DocumentStore
  import P = Publication
  import Delivery = DiagnosticsDelivery
  import W = WatchedFiles

  datatype Run = Start | Section(before: Run, event: W.Event, victim: D.Uri) | Step(before: Run, step: P.Event)

  function WatchView(r: Run): W.Trace {
    match r
    case Start => W.Start
    case Section(before, e, _) => W.Then(WatchView(before), e)
    case Step(before, _) => WatchView(before)
  }

  function Requeued(t: Delivery.Trace, order: seq<D.Uri>): Delivery.Trace
    decreases |order|
  {
    if order == [] then t
    else Requeued(Delivery.Then(t, Delivery.StoreMoves(D.Requeues(order[0]), order[0])), order[1..])
  }

  /** The store section of an event, if it is a single one. */
  function StoreEvent(e: W.Event): Option<D.Event> {
    match e
    case StoreMoves(event) => Some(event)
    case Finishes(job, diagnostics) => Some(D.Commits(job, diagnostics))
    case _ => None
  }

  function DeliveryView(r: Run): Delivery.Trace {
    match r
    case Start => Delivery.Start
    case Section(before, e, victim) =>
      if StoreEvent(e).Some? then Delivery.Then(DeliveryView(before), Delivery.StoreMoves(StoreEvent(e).value, victim))
      else if e.Watched? then Requeued(DeliveryView(before), e.order)
      else DeliveryView(before)
    case Step(before, step) => Delivery.Then(DeliveryView(before), Delivery.QueueMoves(step))
  }

  ghost predicate IsRun(keyOf: D.KeyOf, cap: nat, r: Run) {
    W.IsTrace(keyOf, WatchView(r)) && Delivery.IsTrace(keyOf, cap, DeliveryView(r))
  }

  ghost function Watching(keyOf: D.KeyOf, r: Run): W.System {
    W.StateOf(keyOf, WatchView(r))
  }

  ghost function Delivering(keyOf: D.KeyOf, cap: nat, r: Run): Delivery.System {
    Delivery.StateOf(keyOf, cap, DeliveryView(r))
  }

  predicate Continues(r: Run, later: Run) {
    later == r || (!later.Start? && Continues(r, later.before))
  }

  // ----- the two views agree -----

  lemma {:induction false} RequeuedStates(keyOf: D.KeyOf, cap: nat, t: Delivery.Trace, order: seq<D.Uri>, uri: D.Uri)
    ensures var s := Delivery.StateOf(keyOf, cap, t);
      Delivery.StateOf(keyOf, cap, Requeued(t, order)) == s.(store := W.RequeueAll(keyOf, s.store, order))
    ensures Delivery.LastPublished(keyOf, cap, Requeued(t, order), uri) == Delivery.LastPublished(keyOf, cap, t, uri)
    ensures Delivery.IsTrace(keyOf, cap, Requeued(t, order)) <==> Delivery.IsTrace(keyOf, cap, t)
    decreases |order|
  {
    if order != [] {
      var next := Delivery.Then(t, Delivery.StoreMoves(D.Requeues(order[0]), order[0]));
      var s := Delivery.StateOf(keyOf, cap, t);
      assert Delivery.Published(keyOf, s.store, D.Requeues(order[0])).None?;
      assert Delivery.StateOf(keyOf, cap, next) == s.(store := D.Next(keyOf, s.store, D.Requeues(order[0])));
      RequeuedStates(keyOf, cap, next, order[1..], uri);
    }
  }

  lemma {:induction false} EarlierIsRun(keyOf: D.KeyOf, cap: nat, r: Run, later: Run)
    requires IsRun(keyOf, cap, later) && Continues(r, later)
    ensures IsRun(keyOf, cap, r)
  {
    if later != r {
      if later.Section? && later.event.Watched? {
        RequeuedStates(keyOf, cap, DeliveryView(later.before), later.event.order, "");
      }
      EarlierIsRun(keyOf, cap, r, later.before);
    }
  }

  /** Both views hold the same store. */
  lemma {:induction false} StoresAgree(keyOf: D.KeyOf, cap: nat, r: Run)
    requires IsRun(keyOf, cap, r)
    ensures Watching(keyOf, r).store == Delivering(keyOf, cap, r).store
  {
    if !r.Start? {
      EarlierIsRun(keyOf, cap, r.before, r);
      StoresAgree(keyOf, cap, r.before);
      if r.Section? && r.event.Watched? {
        RequeuedStates(keyOf, cap, DeliveryView(r.before), r.event.order, "");
      }
    }
  }

  // ----- the last publication -----

  /** What the last event of the run publishes. */
  ghost function PublishedNow(keyOf: D.KeyOf, r: Run): Option<Delivery.Publishing> {
    if r.Section? && StoreEvent(r.event).Some?
    then Delivery.Published(keyOf, Watching(keyOf, r.before).store, StoreEvent(r.event).value) else None
  }

  ghost predicate Publishes(keyOf: D.KeyOf, r: Run, uri: D.Uri) {
    PublishedNow(keyOf, r).Some? && PublishedNow(keyOf, r).value.uri == uri
  }

  /** The run up to the last event that published something for `uri`. */
  ghost function UpToLast(keyOf: D.KeyOf, r: Run, uri: D.Uri): Option<Run> {
    if Publishes(keyOf, r, uri) then Some(r) else if r.Start? then None else UpToLast(keyOf, r.before, uri)
  }

  lemma {:induction false} LastIsLastPublished(keyOf: D.KeyOf, cap: nat, r: Run, uri: D.Uri)
    requires IsRun(keyOf, cap, r)
    ensures var last := UpToLast(keyOf, r, uri);
      && (last.Some? ==> Continues(last.value, r) && Publishes(keyOf, last.value, uri))
      && Delivery.LastPublished(keyOf, cap, DeliveryView(r), uri)
      == if last.None? then None else Some(PublishedNow(keyOf, last.value).value.content)
  {
    if !r.Start? {
      EarlierIsRun(keyOf, cap, r.before, r);
      StoresAgree(keyOf, cap, r.before);
      LastIsLastPublished(keyOf, cap, r.before, uri);
      if r.Section? && r.event.Watched? {
        RequeuedStates(keyOf, cap, DeliveryView(r.before), r.event.order, uri);
      }
    }
  }

  lemma {:induction false} ViewContinues(r: Run, later: Run)
    requires Continues(r, later)
    ensures W.Continues(WatchView(r), WatchView(later))
  {
    if later != r { ViewContinues(r, later.before); }
  }

  // ----- what a watched-file event promises the client -----

  /** The store section of a watched-file event, run after thread `u`'s invalidation of `root` had returned. */
  ghost predicate IsChange(keyOf: D.KeyOf, watched: Run, u: nat, root: C.Root) {
    && watched.Section? && watched.event.Watched? && root in watched.event.affected
    && W.HasInvalidated(Watching(keyOf, watched.before), u, root)
  }

  /** `commit` ends with a commit for `uri` that came after `watched`. */
  ghost predicate CommitsAfter(keyOf: D.KeyOf, watched: Run, commit: Run, uri: D.Uri) {
    commit.Section? && commit.event.Finishes? && Publishes(keyOf, commit, uri) && Continues(watched, commit.before)
  }

  /** What a commit after the event published was computed from a package snapshot whose load began after the
      generation which that invalidation installed. */
  lemma CommitSeesTheChange(keyOf: D.KeyOf, cap: nat, watched: Run, u: nat, root: C.Root, commit: Run, uri: D.Uri)
    requires IsRun(keyOf, cap, commit) && IsChange(keyOf, watched, u, root) && W.InPackage(keyOf(uri), root)
    requires CommitsAfter(keyOf, watched, commit, uri)
    ensures W.SeesInvalidation(Watching(keyOf, watched.before), u, root, Watching(keyOf, commit.before),
                               commit.event.job)
  {
    var job := commit.event.job;
    EarlierIsRun(keyOf, cap, commit.before, commit);
    W.TracesKeep(keyOf, WatchView(commit.before));
    assert D.JobOk(keyOf, Watching(keyOf, commit.before).store.store, job);
    assert W.MayCommit(keyOf, Watching(keyOf, commit.before), job, root);
    ViewContinues(watched, commit.before);
    W.CommitsSeeTheChange(keyOf, WatchView(watched.before), watched.event.affected, watched.event.order, u, root,
                          WatchView(commit.before), job);
  }

  predicate HoldsNone(s: D.Store, uri: D.Uri) {
    uri in s.documents ==> s.documents[uri].diagnostics == []
  }

  lemma RequeueKeepsNone(keyOf: D.KeyOf, sys: D.System, requeued: D.Uri, uri: D.Uri)
    requires HoldsNone(sys.store, uri) || (requeued == uri && W.IsSynchronized(sys.store, uri))
    ensures HoldsNone(D.Next(keyOf, sys, D.Requeues(requeued)).store, uri)
  {
  }

  lemma {:induction false} RequeuesEmpty(keyOf: D.KeyOf, sys: D.System, order: seq<D.Uri>, uri: D.Uri)
    requires HoldsNone(sys.store, uri) || (uri in order && W.IsSynchronized(sys.store, uri))
    ensures HoldsNone(W.RequeueAll(keyOf, sys, order).store, uri)
    decreases |order|
  {
    if order != [] {
      if HoldsNone(sys.store, uri) || order[0] == uri {
        RequeueKeepsNone(keyOf, sys, order[0], uri);
      } else {
        W.RequeueKeepsSync(keyOf, sys, order[0], uri);
      }
      RequeuesEmpty(keyOf, D.Next(keyOf, sys, D.Requeues(order[0])), order[1..], uri);
    }
  }

  /** A document the store holds diagnostics for was last published by a commit after the event that requeued it. */
  ghost predicate HeldIsNew(keyOf: D.KeyOf, watched: Run, r: Run, uri: D.Uri) {
    || HoldsNone(Watching(keyOf, r).store.store, uri)
    || (UpToLast(keyOf, r, uri).Some? && CommitsAfter(keyOf, watched, UpToLast(keyOf, r, uri).value, uri))
  }

  lemma SectionKeepsNew(keyOf: D.KeyOf, watched: Run, r: Run, uri: D.Uri)
    requires r.Section? && W.Enabled(keyOf, Watching(keyOf, r.before), r.event) && StoreEvent(r.event).Some?
    requires HeldIsNew(keyOf, watched, r.before, uri) && Continues(watched, r.before)
    ensures HeldIsNew(keyOf, watched, r, uri)
  {
    var sys := Watching(keyOf, r.before).store;
    if uri in Watching(keyOf, r).store.store.documents {
      Delivery.SectionsPublishWhatTheyStore(keyOf, sys, StoreEvent(r.event).value, uri);
    }
  }

  lemma {:induction false} HeldAfterTheEvent(keyOf: D.KeyOf, cap: nat, watched: Run, r: Run, uri: D.Uri)
    requires IsRun(keyOf, cap, r) && Continues(watched, r)
    requires watched.Section? && watched.event.Watched? && uri in watched.event.order
    ensures HeldIsNew(keyOf, watched, r, uri)
  {
    EarlierIsRun(keyOf, cap, watched, r);
    if r == watched {
      RequeuesEmpty(keyOf, Watching(keyOf, r.before).store, r.event.order, uri);
    } else {
      EarlierIsRun(keyOf, cap, r.before, r);
      HeldAfterTheEvent(keyOf, cap, watched, r.before, uri);
      if r.Section? && StoreEvent(r.event).Some? {
        SectionKeepsNew(keyOf, watched, r, uri);
      } else if r.Section? && r.event.Watched? && HoldsNone(Watching(keyOf, r.before).store.store, uri) {
        RequeuesEmpty(keyOf, Watching(keyOf, r.before).store, r.event.order, uri);
      }
    }
  }

  /** The client shows what the commit published for `uri`. */
  ghost predicate ShowsCommit(keyOf: D.KeyOf, cap: nat, r: Run, commit: Run, uri: D.Uri)
    requires commit.Section? && commit.event.Finishes?
  {
    var content := Delivery.Content(commit.event.diagnostics, Some(commit.event.job.version));
    Delivery.Shows(Delivering(keyOf, cap, r), uri, content)
  }

  /** Once things are quiet, if the last publication for a document of the package was a commit after the event, the
      client shows what was committed, unless it was evicted at the cap, and the commit saw the change. */
  lemma ClientSeesTheChange(keyOf: D.KeyOf, cap: nat, watched: Run, u: nat, root: C.Root, r: Run, uri: D.Uri,
                            commit: Run)
    requires cap > 0 && IsRun(keyOf, cap, r) && P.Quiet(Delivering(keyOf, cap, r).queue)
    requires IsChange(keyOf, watched, u, root) && W.InPackage(keyOf(uri), root)
    requires UpToLast(keyOf, r, uri) == Some(commit) && CommitsAfter(keyOf, watched, commit, uri)
    ensures W.SeesInvalidation(Watching(keyOf, watched.before), u, root, Watching(keyOf, commit.before),
                               commit.event.job)
    ensures ShowsCommit(keyOf, cap, r, commit, uri) || Delivery.LatestEvicted(Delivering(keyOf, cap, r), uri)
  {
    LastIsLastPublished(keyOf, cap, r, uri);
    EarlierIsRun(keyOf, cap, commit, r);
    CommitSeesTheChange(keyOf, cap, watched, u, root, commit, uri);
    Delivery.LastDeliveryIsLastPublished(keyOf, cap, DeliveryView(r), uri);
  }

  /** Once things are quiet after a watched-file event, for a document which it requeued: if the store holds diagnostics
      for it, the client shows exactly those, unless they were evicted at the cap, and they come from a commit that saw
      the change. */
  lemma HeldSeesTheChange(keyOf: D.KeyOf, cap: nat, watched: Run, u: nat, root: C.Root, r: Run, uri: D.Uri)
    returns (commit: Run)
    requires cap > 0 && IsRun(keyOf, cap, r) && P.Quiet(Delivering(keyOf, cap, r).queue) && Continues(watched, r)
    requires IsChange(keyOf, watched, u, root) && W.InPackage(keyOf(uri), root) && uri in watched.event.order
    requires !HoldsNone(Watching(keyOf, r).store.store, uri)
    ensures CommitsAfter(keyOf, watched, commit, uri)
    ensures W.SeesInvalidation(Watching(keyOf, watched.before), u, root, Watching(keyOf, commit.before),
                               commit.event.job)
    ensures Watching(keyOf, r).store.store.documents[uri].diagnostics == commit.event.diagnostics
    ensures ShowsCommit(keyOf, cap, r, commit, uri) || Delivery.LatestEvicted(Delivering(keyOf, cap, r), uri)
  {
    HeldAfterTheEvent(keyOf, cap, watched, r, uri);
    commit := UpToLast(keyOf, r, uri).value;
    ClientSeesTheChange(keyOf, cap, watched, u, root, r, uri, commit);
    LastIsLastPublished(keyOf, cap, r, uri);
    StoresAgree(keyOf, cap, r);
    Delivery.TracesShow(keyOf, cap, DeliveryView(r));
  }
}
