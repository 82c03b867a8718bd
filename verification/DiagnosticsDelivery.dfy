/** The document store and the diagnostics publisher together.

    Every publication is enqueued inside the store's locked section that causes it: a commit, a close, or a change
    that loses synchronization. So the publisher's order is the store's order. */
module DiagnosticsDelivery {
  import opened Common
  import D = DocumentStore
  import P = Publication

  /** What is sent to the client for one document. */
  datatype Content = Content(diagnostics: seq<string>, version: Option<int>)

  datatype Publishing = Publishing(uri: D.Uri, content: Content)

  /** `contents` records what each numbered item carries. */
  datatype System = System(store: D.System, queue: P.System, contents: map<nat, Content>)

  const INITIAL: System := System(D.System(D.NEW, {}), P.INITIAL, map[])

  datatype Event = StoreMoves(section: D.Event, victim: D.Uri) | QueueMoves(step: P.Event)

  /** What a section of the store publishes. */
  ghost function Published(keyOf: D.KeyOf, sys: D.System, e: D.Event): Option<Publishing> {
    match e
    case Commits(job, diagnostics) =>
      if job in sys.jobs && D.Current(sys.store, job)
      then Some(Publishing(job.uri, Content(diagnostics, Some(job.version)))) else None
    case Changes(uri, version, changes) =>
      if D.ChangeDocument(keyOf, sys.store, uri, version, changes).1.Lost?
      then Some(Publishing(uri, Content([], Some(version)))) else None
    case Closes(uri) => Some(Publishing(uri, Content([], None)))
    case _ => None
  }

  ghost predicate Enabled(keyOf: D.KeyOf, cap: nat, s: System, e: Event) {
    match e
    case StoreMoves(event, victim) =>
      var published := Published(keyOf, s.store, event);
      published.Some? ==> P.Enabled(cap, s.queue, P.Insert(published.value.uri, victim))
    case QueueMoves(event) => !event.Insert? && P.Enabled(cap, s.queue, event)
  }

  ghost function Next(keyOf: D.KeyOf, cap: nat, s: System, e: Event): System
    requires Enabled(keyOf, cap, s, e)
  {
    match e
    case StoreMoves(event, victim) =>
      var published, store := Published(keyOf, s.store, event), D.Next(keyOf, s.store, event);
      if published.None? then s.(store := store)
      else System(store, P.Next(cap, s.queue, P.Insert(published.value.uri, victim)),
                  s.contents[s.queue.enqueued := published.value.content])
    case QueueMoves(event) => s.(queue := P.Next(cap, s.queue, event))
  }

  datatype Trace = Start | Then(before: Trace, event: Event)

  ghost function StateOf(keyOf: D.KeyOf, cap: nat, t: Trace): System {
    match t
    case Start => INITIAL
    case Then(before, e) =>
      var s := StateOf(keyOf, cap, before);
      if Enabled(keyOf, cap, s, e) then Next(keyOf, cap, s, e) else INITIAL
  }

  ghost predicate IsTrace(keyOf: D.KeyOf, cap: nat, t: Trace) {
    t.Then? ==> IsTrace(keyOf, cap, t.before) && Enabled(keyOf, cap, StateOf(keyOf, cap, t.before), t.event)
  }

  /** What the trace last published for `uri`, by its events alone. */
  ghost function LastPublished(keyOf: D.KeyOf, cap: nat, t: Trace, uri: D.Uri): Option<Content> {
    match t
    case Start => None
    case Then(before, e) =>
      var published :=
        if e.StoreMoves? then Published(keyOf, StateOf(keyOf, cap, before).store, e.section) else None;
      if published.Some? && published.value.uri == uri then Some(published.value.content)
      else LastPublished(keyOf, cap, before, uri)
  }

  // ----- the queue carries what was last published -----

  ghost predicate Carries(s: System, uri: D.Uri, last: Option<Content>) {
    && (uri in s.queue.latest <==> last.Some?)
    && (last.Some? ==>
          var number := s.queue.latest[uri].number;
          number < s.queue.enqueued && number in s.contents && s.contents[number] == last.value)
  }

  ghost predicate QueueOk(keyOf: D.KeyOf, cap: nat, t: Trace) {
    var s := StateOf(keyOf, cap, t);
    && P.SystemOk(cap, s.queue)
    && forall uri :: Carries(s, uri, LastPublished(keyOf, cap, t, uri))
  }

  lemma InsertCarries(cap: nat, s: System, s': System, published: Publishing, victim: D.Uri, uri: D.Uri,
                      last: Option<Content>)
    requires P.Enabled(cap, s.queue, P.Insert(published.uri, victim)) && Carries(s, uri, last)
    requires s'.queue == P.Next(cap, s.queue, P.Insert(published.uri, victim))
    requires s'.contents == s.contents[s.queue.enqueued := published.content]
    ensures Carries(s', uri, if published.uri == uri then Some(published.content) else last)
  {
  }

  lemma QueueStepCarries(cap: nat, s: System, e: P.Event, uri: D.Uri, last: Option<Content>)
    requires P.Enabled(cap, s.queue, e) && !e.Insert? && Carries(s, uri, last)
    ensures Carries(s.(queue := P.Next(cap, s.queue, e)), uri, last)
  {
  }

  /** A section that publishes nothing leaves the queue and what was last published as they were. */
  lemma QuietSectionCarries(keyOf: D.KeyOf, cap: nat, before: Trace, section: D.Event, victim: D.Uri)
    requires QueueOk(keyOf, cap, before) && Published(keyOf, StateOf(keyOf, cap, before).store, section).None?
    ensures QueueOk(keyOf, cap, Then(before, StoreMoves(section, victim)))
  {
    var t, s := Then(before, StoreMoves(section, victim)), StateOf(keyOf, cap, before);
    forall uri ensures Carries(StateOf(keyOf, cap, t), uri, LastPublished(keyOf, cap, t, uri)) {
      assert Carries(s, uri, LastPublished(keyOf, cap, before, uri));
    }
  }

  lemma StoreMoveCarries(keyOf: D.KeyOf, cap: nat, before: Trace, section: D.Event, victim: D.Uri)
    requires cap > 0 && QueueOk(keyOf, cap, before)
    requires Enabled(keyOf, cap, StateOf(keyOf, cap, before), StoreMoves(section, victim))
    ensures QueueOk(keyOf, cap, Then(before, StoreMoves(section, victim)))
  {
    var t := Then(before, StoreMoves(section, victim));
    var s, s' := StateOf(keyOf, cap, before), StateOf(keyOf, cap, t);
    var published := Published(keyOf, s.store, section);
    if published.Some? {
      P.NextKeeps(cap, s.queue, P.Insert(published.value.uri, victim));
      forall uri ensures Carries(s', uri, LastPublished(keyOf, cap, t, uri)) {
        InsertCarries(cap, s, s', published.value, victim, uri, LastPublished(keyOf, cap, before, uri));
      }
    } else {
      QuietSectionCarries(keyOf, cap, before, section, victim);
    }
  }

  lemma QueueMoveCarries(keyOf: D.KeyOf, cap: nat, before: Trace, step: P.Event)
    requires cap > 0 && QueueOk(keyOf, cap, before)
    requires Enabled(keyOf, cap, StateOf(keyOf, cap, before), QueueMoves(step))
    ensures QueueOk(keyOf, cap, Then(before, QueueMoves(step)))
  {
    var t, s := Then(before, QueueMoves(step)), StateOf(keyOf, cap, before);
    P.NextKeeps(cap, s.queue, step);
    forall uri ensures Carries(StateOf(keyOf, cap, t), uri, LastPublished(keyOf, cap, t, uri)) {
      QueueStepCarries(cap, s, step, uri, LastPublished(keyOf, cap, before, uri));
    }
  }

  lemma {:induction false} TracesCarry(keyOf: D.KeyOf, cap: nat, t: Trace)
    requires cap > 0 && IsTrace(keyOf, cap, t)
    ensures QueueOk(keyOf, cap, t)
  {
    match t
    case Start =>
    case Then(before, e) =>
      TracesCarry(keyOf, cap, before);
      match e
      case StoreMoves(section, victim) => StoreMoveCarries(keyOf, cap, before, section, victim);
      case QueueMoves(step) => QueueMoveCarries(keyOf, cap, before, step);
  }

  /** The client's last word on a document. */
  ghost predicate Shows(s: System, uri: D.Uri, content: Content) {
    exists i: nat :: ShownAt(s, uri, content, i)
  }

  ghost predicate ShownAt(s: System, uri: D.Uri, content: Content, i: nat) {
    && i < |s.queue.delivered| && P.NothingAfter(s.queue.delivered, i)
    && s.queue.delivered[i].uri == uri && s.queue.delivered[i].number in s.contents
    && s.contents[s.queue.delivered[i].number] == content
  }

  predicate LatestEvicted(s: System, uri: D.Uri) {
    uri in s.queue.latest && s.queue.latest[uri] in s.queue.evicted
  }

  /** Once things are quiet, the last delivery of a document is that of its last commit, close or loss of
      synchronization, unless this one was evicted at the cap. */
  lemma LastDeliveryIsLastPublished(keyOf: D.KeyOf, cap: nat, t: Trace, uri: D.Uri)
    requires cap > 0 && IsTrace(keyOf, cap, t) && P.Quiet(StateOf(keyOf, cap, t).queue)
    requires LastPublished(keyOf, cap, t, uri).Some?
    ensures var s := StateOf(keyOf, cap, t);
      Shows(s, uri, LastPublished(keyOf, cap, t, uri).value) || LatestEvicted(s, uri)
  {
    TracesCarry(keyOf, cap, t);
    var s := StateOf(keyOf, cap, t);
    assert Carries(s, uri, LastPublished(keyOf, cap, t, uri));
    assert P.Accounted(s.queue, uri);
    if s.queue.latest[uri] in s.queue.delivered {
      P.LatestIsLast(s.queue, uri);
      var i :| 0 <= i < |s.queue.delivered| && s.queue.delivered[i] == s.queue.latest[uri]
            && P.NothingAfter(s.queue.delivered, i);
      assert ShownAt(s, uri, LastPublished(keyOf, cap, t, uri).value, i);
    }
  }

  // ----- and what the store holds -----

  /** Diagnostics held by the store are the ones last published for their document. */
  ghost predicate StoreShown(keyOf: D.KeyOf, cap: nat, t: Trace) {
    var documents := StateOf(keyOf, cap, t).store.store.documents;
    forall uri :: uri in documents && documents[uri].diagnostics != [] ==>
      LastPublished(keyOf, cap, t, uri) == Some(Content(documents[uri].diagnostics, Some(documents[uri].version)))
  }

  /** A section leaves a document's diagnostics alone, empties them, or publishes what it stores. */
  lemma SectionsPublishWhatTheyStore(keyOf: D.KeyOf, sys: D.System, e: D.Event, uri: D.Uri)
    requires uri in D.Next(keyOf, sys, e).store.documents
    ensures var d', published := D.Next(keyOf, sys, e).store.documents[uri], Published(keyOf, sys, e);
      || d'.diagnostics == []
      || published == Some(Publishing(uri, Content(d'.diagnostics, Some(d'.version))))
      || (&& uri in sys.store.documents && d' == sys.store.documents[uri]
          && (published.Some? ==> published.value.uri != uri))
  {
  }

  lemma {:induction false} TracesShow(keyOf: D.KeyOf, cap: nat, t: Trace)
    requires IsTrace(keyOf, cap, t)
    ensures StoreShown(keyOf, cap, t)
  {
    if t.Then? {
      TracesShow(keyOf, cap, t.before);
      if t.event.StoreMoves? {
        var sys, documents := StateOf(keyOf, cap, t.before).store, StateOf(keyOf, cap, t).store.store.documents;
        forall uri | uri in documents && documents[uri].diagnostics != []
          ensures LastPublished(keyOf, cap, t, uri)
               == Some(Content(documents[uri].diagnostics, Some(documents[uri].version)))
        {
          SectionsPublishWhatTheyStore(keyOf, sys, t.event.section, uri);
        }
      }
    }
  }

  lemma OneContentIsShown(s: System, uri: D.Uri, a: Content, b: Content)
    requires Shows(s, uri, a) && Shows(s, uri, b)
    ensures a == b
  {
    var i: nat :| ShownAt(s, uri, a, i);
    var j: nat :| ShownAt(s, uri, b, j);
  }

  /** What was never published is not shown. */
  lemma ShownWasPublished(keyOf: D.KeyOf, cap: nat, t: Trace, uri: D.Uri, content: Content)
    requires cap > 0 && IsTrace(keyOf, cap, t) && Shows(StateOf(keyOf, cap, t), uri, content)
    ensures LastPublished(keyOf, cap, t, uri).Some?
  {
    TracesCarry(keyOf, cap, t);
    var s := StateOf(keyOf, cap, t);
    var i: nat :| ShownAt(s, uri, content, i);
    assert P.NotNewer(s.queue.delivered[i], s.queue.latest);
    assert Carries(s, uri, LastPublished(keyOf, cap, t, uri));
  }

  /** Once things are quiet, and unless its last publication was evicted at the cap, the client shows what the store
      holds for an open document, with its version, exactly if that is not empty, or the empty list is what was last
      published. */
  lemma ClientShowsTheStore(keyOf: D.KeyOf, cap: nat, t: Trace, uri: D.Uri)
    requires cap > 0 && IsTrace(keyOf, cap, t) && P.Quiet(StateOf(keyOf, cap, t).queue)
    requires uri in StateOf(keyOf, cap, t).store.store.documents
    ensures var s := StateOf(keyOf, cap, t);
      var d := s.store.store.documents[uri];
      || LatestEvicted(s, uri)
      || (Shows(s, uri, Content(d.diagnostics, Some(d.version))) <==>
            d.diagnostics != [] || LastPublished(keyOf, cap, t, uri) == Some(Content([], Some(d.version))))
  {
    TracesShow(keyOf, cap, t);
    var s, last := StateOf(keyOf, cap, t), LastPublished(keyOf, cap, t, uri);
    var held := Content(s.store.store.documents[uri].diagnostics, Some(s.store.store.documents[uri].version));
    if last.Some? {
      LastDeliveryIsLastPublished(keyOf, cap, t, uri);
      if Shows(s, uri, held) && Shows(s, uri, last.value) { OneContentIsShown(s, uri, held, last.value); }
    } else if Shows(s, uri, held) {
      ShownWasPublished(keyOf, cap, t, uri, held);
    }
  }

  // ----- without evictions -----

  /** The publisher's part of a trace. */
  ghost function QueueView(keyOf: D.KeyOf, cap: nat, t: Trace): P.History {
    match t
    case Start => P.Start
    case Then(before, QueueMoves(step)) => P.Then(QueueView(keyOf, cap, before), step)
    case Then(before, StoreMoves(section, victim)) =>
      var published := Published(keyOf, StateOf(keyOf, cap, before).store, section);
      if published.None? then QueueView(keyOf, cap, before)
      else P.Then(QueueView(keyOf, cap, before), P.Insert(published.value.uri, victim))
  }

  lemma {:induction false} QueueViewIsHistory(keyOf: D.KeyOf, cap: nat, t: Trace)
    requires IsTrace(keyOf, cap, t)
    ensures P.IsHistory(cap, QueueView(keyOf, cap, t))
    ensures P.StateOf(cap, QueueView(keyOf, cap, t)) == StateOf(keyOf, cap, t).queue
  {
    if t.Then? { QueueViewIsHistory(keyOf, cap, t.before); }
  }

  /** The documents that anything was published for. */
  ghost function PublishedDocuments(keyOf: D.KeyOf, cap: nat, t: Trace): set<D.Uri> {
    match t
    case Start => {}
    case Then(before, QueueMoves(_)) => PublishedDocuments(keyOf, cap, before)
    case Then(before, StoreMoves(section, _)) =>
      var published := Published(keyOf, StateOf(keyOf, cap, before).store, section);
      PublishedDocuments(keyOf, cap, before) + if published.Some? then {published.value.uri} else {}
  }

  lemma {:induction false} QueuedDocuments(keyOf: D.KeyOf, cap: nat, t: Trace)
    requires IsTrace(keyOf, cap, t)
    ensures P.Documents(QueueView(keyOf, cap, t)) == PublishedDocuments(keyOf, cap, t)
  {
    if t.Then? { QueuedDocuments(keyOf, cap, t.before); }
  }

  /** While there were publications for no more documents than the cap, the client shows what was last published for
      each of them, and what the store holds if that is not empty or was published empty. */
  lemma FewDocumentsAreShown(keyOf: D.KeyOf, cap: nat, t: Trace, uri: D.Uri)
    requires cap > 0 && IsTrace(keyOf, cap, t) && P.Quiet(StateOf(keyOf, cap, t).queue)
    requires |PublishedDocuments(keyOf, cap, t)| <= cap
    ensures var s, last := StateOf(keyOf, cap, t), LastPublished(keyOf, cap, t, uri);
      && s.queue.evicted == {} && (last.Some? ==> Shows(s, uri, last.value))
      && (uri in s.store.store.documents ==>
            var d := s.store.store.documents[uri];
            Shows(s, uri, Content(d.diagnostics, Some(d.version))) <==>
              d.diagnostics != [] || last == Some(Content([], Some(d.version))))
  {
    QueueViewIsHistory(keyOf, cap, t);
    QueuedDocuments(keyOf, cap, t);
    P.FewDocumentsEvictNone(cap, QueueView(keyOf, cap, t));
    if LastPublished(keyOf, cap, t, uri).Some? { LastDeliveryIsLastPublished(keyOf, cap, t, uri); }
    if uri in StateOf(keyOf, cap, t).store.store.documents { ClientShowsTheStore(keyOf, cap, t, uri); }
  }

  // ----- where the client is left behind -----

  /** A synchronized document whose diagnostics the client shows. */
  ghost predicate ShownUpToDate(s: System, uri: D.Uri) {
    && uri in s.store.store.documents && s.store.store.documents[uri].sync == D.Synchronized
    && s.store.store.documents[uri].diagnostics != []
    && Shows(s, uri, Content(s.store.store.documents[uri].diagnostics, Some(s.store.store.documents[uri].version)))
  }

  /** A requeue empties the stored diagnostics and publishes nothing. The client goes on showing the old ones, and
      nothing is under way that would change that. */
  lemma RequeueLeavesClientBehind(keyOf: D.KeyOf, cap: nat, t: Trace, uri: D.Uri, victim: D.Uri)
    requires IsTrace(keyOf, cap, t) && P.Quiet(StateOf(keyOf, cap, t).queue)
    requires ShownUpToDate(StateOf(keyOf, cap, t), uri)
    ensures var t' := Then(t, StoreMoves(D.Requeues(uri), victim));
      var s, s' := StateOf(keyOf, cap, t), StateOf(keyOf, cap, t');
      var d := s.store.store.documents[uri];
      && IsTrace(keyOf, cap, t') && P.Quiet(s'.queue) && s'.queue.evicted == s.queue.evicted
      && uri in s'.store.store.documents && s'.store.store.documents[uri].diagnostics == []
      && s'.store.store.documents[uri].version == d.version
      && Shows(s', uri, Content(d.diagnostics, Some(d.version))) && !Shows(s', uri, Content([], Some(d.version)))
  {
    var t' := Then(t, StoreMoves(D.Requeues(uri), victim));
    var s, s' := StateOf(keyOf, cap, t), StateOf(keyOf, cap, t');
    var d := s.store.store.documents[uri];
    var i: nat :| ShownAt(s, uri, Content(d.diagnostics, Some(d.version)), i);
    assert ShownAt(s', uri, Content(d.diagnostics, Some(d.version)), i);
    if Shows(s', uri, Content([], Some(d.version))) {
      OneContentIsShown(s', uri, Content([], Some(d.version)), Content(d.diagnostics, Some(d.version)));
    }
  }

  /** The publisher runs on by itself until things are quiet. The store stays, and nothing is evicted meanwhile. */
  lemma {:induction false} DeliverySettles(keyOf: D.KeyOf, cap: nat, t: Trace) returns (later: Trace)
    requires cap > 0 && IsTrace(keyOf, cap, t)
    ensures IsTrace(keyOf, cap, later) && P.Quiet(StateOf(keyOf, cap, later).queue)
    ensures var s, s' := StateOf(keyOf, cap, t), StateOf(keyOf, cap, later);
      s'.store == s.store && s'.contents == s.contents && s'.queue.evicted == s.queue.evicted
    decreases P.Work(StateOf(keyOf, cap, t).queue)
  {
    TracesCarry(keyOf, cap, t);
    var s := StateOf(keyOf, cap, t);
    if P.Quiet(s.queue) {
      later := t;
    } else {
      var step := P.NotQuietCanStep(cap, s.queue);
      P.StepsUseUpWork(cap, s.queue, step);
      var next := Then(t, QueueMoves(step));
      assert IsTrace(keyOf, cap, next) && StateOf(keyOf, cap, next) == s.(queue := P.Next(cap, s.queue, step));
      later := DeliverySettles(keyOf, cap, next);
    }
  }

  /** Such a document comes about: it is opened, its analysis commits, and the result is delivered. */
  lemma ShownUpToDateExists(keyOf: D.KeyOf, cap: nat, uri: D.Uri) returns (t: Trace)
    requires cap > 0
    ensures IsTrace(keyOf, cap, t) && P.Quiet(StateOf(keyOf, cap, t).queue)
    ensures StateOf(keyOf, cap, t).queue.evicted == {} && ShownUpToDate(StateOf(keyOf, cap, t), uri)
  {
    var committed := CommittedExists(keyOf, cap, uri);
    t := DeliverySettles(keyOf, cap, committed);
    ClientShowsTheStore(keyOf, cap, t, uri);
  }

  lemma CommittedExists(keyOf: D.KeyOf, cap: nat, uri: D.Uri) returns (t: Trace)
    requires cap > 0
    ensures IsTrace(keyOf, cap, t) && StateOf(keyOf, cap, t).queue.evicted == {}
    ensures var documents := StateOf(keyOf, cap, t).store.store.documents;
      uri in documents && documents[uri].sync == D.Synchronized && documents[uri].diagnostics == ["e"]
  {
    var (store, job) := D.Install(keyOf, D.NEW, uri, "", 0);
    var t1 := Then(Start, StoreMoves(D.Opens(uri, "", 0), uri));
    assert Published(keyOf, INITIAL.store, D.Opens(uri, "", 0)).None?;
    assert StateOf(keyOf, cap, t1) == INITIAL.(store := D.System(store, {job}));
    var e := D.Commits(job, ["e"]);
    assert Published(keyOf, D.System(store, {job}), e) == Some(Publishing(uri, Content(["e"], Some(0))));
    t := Then(t1, StoreMoves(e, uri));
    assert IsTrace(keyOf, cap, t1);
    assert Enabled(keyOf, cap, StateOf(keyOf, cap, t1), t.event);
  }
}
