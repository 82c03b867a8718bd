/** Open documents and the revision protocol that guards analysis results.

    The store's operations are given on values; `DocumentStore` is the object that updates in place and
    is proved against them. `keyOf` stands for `analysis_key_for_uri`, a fixed function here. */
module DocumentStore {
  import opened Common
  import opened TextPositions

  const MAX_DOCUMENT_BYTES: nat := 16 * 1024 * 1024

  type Uri = string

  datatype AnalysisKey = Package(root: string) | Workspace | Single(uri: Uri)

  type KeyOf = Uri -> AnalysisKey

  datatype SyncState = Synchronized | Desynchronized

  datatype Document = Document(text: string, diagnostics: seq<string>, revision: nat, version: int, sync: SyncState)

  datatype Store = Store(documents: map<Uri, Document>, nextRevision: nat, generations: map<AnalysisKey, nat>)

  /** An analysis request with the documents it will be computed from. */
  datatype Job = Job(key: AnalysisKey, uri: Uri, revision: nat, version: int, generation: nat,
                     inputs: map<Uri, Document>)

  datatype Failure = MissingDocument | InvalidRange | OversizedDocument | FullSyncRequired

  datatype ChangeOutcome = Applied(job: Job) | IgnoredStale | Lost(reason: Failure)

  const NEW: Store := Store(map[], 1, map[])

  // ----- operations on values -----

  function Generation(s: Store, key: AnalysisKey): nat {
    if key in s.generations then s.generations[key] else 0
  }

  function Allocate(s: Store, key: AnalysisKey): Store {
    s.(nextRevision := s.nextRevision + 1, generations := s.generations[key := s.nextRevision])
  }

  /** The synchronized open documents analysed together under `key`. */
  function Inputs(keyOf: KeyOf, s: Store, key: AnalysisKey): map<Uri, Document> {
    map uri | uri in s.documents && s.documents[uri].sync == Synchronized && keyOf(uri) == key :: s.documents[uri]
  }

  function JobFor(keyOf: KeyOf, s: Store, uri: Uri, revision: nat, version: int): Job {
    Job(keyOf(uri), uri, revision, version, Generation(s, keyOf(uri)), Inputs(keyOf, s, keyOf(uri)))
  }

  /** Store a document under a new revision, and ask for its analysis. */
  function Install(keyOf: KeyOf, s: Store, uri: Uri, text: string, version: int): (Store, Job) {
    var s1 := Allocate(s, keyOf(uri));
    var s2 := s1.(documents := s1.documents[uri := Document(text, [], s.nextRevision, version, Synchronized)]);
    (s2, JobFor(keyOf, s2, uri, s.nextRevision, version))
  }

  function Open(keyOf: KeyOf, s: Store, uri: Uri, text: string, version: int): (Store, Option<Job>) {
    if ByteLength(text) > MAX_DOCUMENT_BYTES then (s, None)
    else if uri in s.documents && version <= s.documents[uri].version then (s, None)
    else
      var (s', job) := Install(keyOf, s, uri, text, version);
      (s', Some(job))
  }

  function MarkDesynchronized(keyOf: KeyOf, s: Store, uri: Uri, version: int): Store {
    var s1 := Allocate(s, keyOf(uri));
    if uri !in s.documents then s1 else
    var d := s.documents[uri];
    s1.(documents := s1.documents[uri := Document(d.text, [], s.nextRevision, version, Desynchronized)])
  }

  datatype Edit = Edited(text: string) | BadRange | TooLong

  /** All changes of one notification in order, each a splice of the text the previous ones left. */
  ghost function EditAll(text: string, changes: seq<Change>): Edit
    decreases changes
  {
    if changes == [] then Edited(text)
    else if !Applies(text, changes[0]) then BadRange
    else
      var next := Spliced(text, changes[0]);
      if ByteLength(next) > MAX_DOCUMENT_BYTES then TooLong else EditAll(next, changes[1..])
  }

  ghost function ChangeDocument(keyOf: KeyOf, s: Store, uri: Uri, version: int, changes: seq<Change>)
    : (Store, ChangeOutcome)
  {
    if uri !in s.documents then (s, Lost(MissingDocument)) else
    var d := s.documents[uri];
    if version <= d.version then (s, IgnoredStale)
    else if d.sync == Desynchronized && (changes == [] || changes[0].range.Some?) then
      (MarkDesynchronized(keyOf, s, uri, version), Lost(FullSyncRequired))
    else
      match EditAll(d.text, changes)
      case BadRange => (MarkDesynchronized(keyOf, s, uri, version), Lost(InvalidRange))
      case TooLong => (MarkDesynchronized(keyOf, s, uri, version), Lost(OversizedDocument))
      case Edited(text) =>
        var (s', job) := Install(keyOf, s, uri, text, version);
        (s', Applied(job))
  }

  function Save(keyOf: KeyOf, s: Store, uri: Uri, text: string): (Store, Option<Job>) {
    if ByteLength(text) > MAX_DOCUMENT_BYTES || uri !in s.documents then (s, None)
    else
      var (s', job) := Install(keyOf, s, uri, text, s.documents[uri].version);
      (s', Some(job))
  }

  function Close(keyOf: KeyOf, s: Store, uri: Uri): Store {
    var s1 := Allocate(s, keyOf(uri));
    s1.(documents := s1.documents - {uri})
  }

  /** A watched-file event requeues a synchronized document: new revision, same text. */
  function Requeue(keyOf: KeyOf, s: Store, uri: Uri): (Store, Option<Job>) {
    if uri !in s.documents || s.documents[uri].sync == Desynchronized then (s, None) else
    var s1 := Allocate(s, keyOf(uri));
    var d := s.documents[uri].(revision := s.nextRevision, diagnostics := []);
    var s2 := s1.(documents := s1.documents[uri := d]);
    (s2, Some(JobFor(keyOf, s2, uri, s.nextRevision, d.version)))
  }

  /** The guard of `commit_diagnostics_if_current`. */
  predicate Current(s: Store, job: Job) {
    && job.generation == Generation(s, job.key)
    && job.uri in s.documents
    && s.documents[job.uri].revision == job.revision && s.documents[job.uri].version == job.version
    && s.documents[job.uri].sync == Synchronized
  }

  function Commit(s: Store, job: Job, diagnostics: seq<string>): Store {
    if Current(s, job)
    then s.(documents := s.documents[job.uri := s.documents[job.uri].(diagnostics := diagnostics)])
    else s
  }

  // ----- runs -----

  /** The store and the analysis jobs not yet finished. */
  datatype System = System(store: Store, jobs: set<Job>)

  function AddJob(jobs: set<Job>, job: Option<Job>): set<Job> {
    if job.Some? then jobs + {job.value} else jobs
  }

  function Outcome(o: ChangeOutcome): Option<Job> {
    if o.Applied? then Some(o.job) else None
  }

  datatype Event =
    | Opens(uri: Uri, text: string, version: int)
    | Changes(uri: Uri, version: int, changes: seq<Change>)
    | Saves(uri: Uri, text: string)
    | Closes(uri: Uri)
    | Requeues(uri: Uri)
    | Commits(job: Job, diagnostics: seq<string>)
    | Cancels(job: Job)

  /** One locked section of the server. A watched-file event is the sequence of its requeues. */
  ghost function Next(keyOf: KeyOf, sys: System, e: Event): System {
    match e
    case Opens(uri, text, version) =>
      var (s, job) := Open(keyOf, sys.store, uri, text, version);
      System(s, AddJob(sys.jobs, job))
    case Changes(uri, version, changes) =>
      var (s, outcome) := ChangeDocument(keyOf, sys.store, uri, version, changes);
      System(s, AddJob(sys.jobs, Outcome(outcome)))
    case Saves(uri, text) =>
      var (s, job) := Save(keyOf, sys.store, uri, text);
      System(s, AddJob(sys.jobs, job))
    case Closes(uri) => System(Close(keyOf, sys.store, uri), sys.jobs)
    case Requeues(uri) =>
      var (s, job) := Requeue(keyOf, sys.store, uri);
      System(s, AddJob(sys.jobs, job))
    case Commits(job, diagnostics) =>
      if job in sys.jobs then System(Commit(sys.store, job, diagnostics), sys.jobs - {job}) else sys
    case Cancels(job) => sys.(jobs := sys.jobs - {job})
  }

  ghost function After(keyOf: KeyOf, events: seq<Event>): System {
    if events == [] then System(NEW, {})
    else Next(keyOf, After(keyOf, events[..|events| - 1]), events[|events| - 1])
  }

  // ----- the invariant -----

  /** The parts of a document an analysis depends on. */
  predicate SameInput(a: Document, b: Document) {
    a.text == b.text && a.revision == b.revision && a.version == b.version && a.sync == b.sync
  }

  /** `job` was computed from exactly the current synchronized documents of its key. */
  predicate Fresh(keyOf: KeyOf, s: Store, job: Job) {
    && job.inputs.Keys == Inputs(keyOf, s, job.key).Keys
    && forall uri :: uri in job.inputs ==> SameInput(job.inputs[uri], Inputs(keyOf, s, job.key)[uri])
  }

  predicate JobOk(keyOf: KeyOf, s: Store, job: Job) {
    && job.key == keyOf(job.uri)
    && job.generation <= Generation(s, job.key) < s.nextRevision
    && (job.generation == Generation(s, job.key) ==> Fresh(keyOf, s, job))
  }

  /** Outstanding jobs of one key carry different generations. */
  predicate Distinguished(jobs: set<Job>) {
    forall a, b :: a in jobs && b in jobs && a.key == b.key && a.generation == b.generation ==> a == b
  }

  ghost predicate SystemOk(keyOf: KeyOf, sys: System) {
    && (forall key :: Generation(sys.store, key) < sys.store.nextRevision)
    && (forall job :: job in sys.jobs ==> JobOk(keyOf, sys.store, job))
    && Distinguished(sys.jobs)
  }

  /** `s'` is `s` with the documents of one key changed under a fresh generation. */
  ghost predicate Bumped(keyOf: KeyOf, s: Store, s': Store, key: AnalysisKey) {
    && s'.nextRevision == s.nextRevision + 1
    && s'.generations == s.generations[key := s.nextRevision]
    && (forall uri :: keyOf(uri) != key ==> (uri in s.documents <==> uri in s'.documents))
    && forall uri :: keyOf(uri) != key && uri in s.documents ==> s'.documents[uri] == s.documents[uri]
  }

  /** Bumping a generation keeps every outstanding job sound: those of the key are stale now, the
      others see the same inputs. */
  lemma BumpKeeps(keyOf: KeyOf, sys: System, s': Store, key: AnalysisKey)
    requires SystemOk(keyOf, sys) && Bumped(keyOf, sys.store, s', key)
    ensures SystemOk(keyOf, System(s', sys.jobs))
    ensures forall job :: job in sys.jobs && job.key == key ==> job.generation < sys.store.nextRevision
  {
    forall k ensures Generation(s', k) < s'.nextRevision { assert Generation(sys.store, k) < sys.store.nextRevision; }
    forall job | job in sys.jobs ensures JobOk(keyOf, s', job) {
      assert JobOk(keyOf, sys.store, job);
      if job.key != key {
        assert Inputs(keyOf, s', job.key) == Inputs(keyOf, sys.store, job.key);
      }
    }
  }

  /** A job taken from the bumped store joins the others. */
  lemma NewJobKeeps(keyOf: KeyOf, sys: System, s': Store, uri: Uri, revision: nat, version: int)
    requires SystemOk(keyOf, sys) && Bumped(keyOf, sys.store, s', keyOf(uri))
    ensures SystemOk(keyOf, System(s', sys.jobs + {JobFor(keyOf, s', uri, revision, version)}))
  {
    BumpKeeps(keyOf, sys, s', keyOf(uri));
  }

  lemma CommitKeeps(keyOf: KeyOf, sys: System, job: Job, diagnostics: seq<string>)
    requires SystemOk(keyOf, sys) && job in sys.jobs
    ensures SystemOk(keyOf, System(Commit(sys.store, job, diagnostics), sys.jobs - {job}))
  {
    var s' := Commit(sys.store, job, diagnostics);
    forall k ensures Generation(s', k) < s'.nextRevision { assert Generation(sys.store, k) < sys.store.nextRevision; }
    forall j | j in sys.jobs ensures JobOk(keyOf, s', j) {
      assert JobOk(keyOf, sys.store, j);
      assert Inputs(keyOf, s', j.key).Keys == Inputs(keyOf, sys.store, j.key).Keys;
    }
  }

  lemma NextKeeps(keyOf: KeyOf, sys: System, e: Event)
    requires SystemOk(keyOf, sys)
    ensures SystemOk(keyOf, Next(keyOf, sys, e))
  {
    var s := sys.store;
    match e
    case Opens(uri, text, version) =>
      if Next(keyOf, sys, e) != sys { InstallKeeps(keyOf, sys, uri, text, version); }
    case Changes(uri, version, changes) => ChangeKeeps(keyOf, sys, uri, version, changes);
    case Saves(uri, text) =>
      if uri in s.documents { InstallKeeps(keyOf, sys, uri, text, s.documents[uri].version); }
    case Closes(uri) => BumpKeeps(keyOf, sys, Close(keyOf, s, uri), keyOf(uri));
    case Requeues(uri) =>
      if uri in s.documents && s.documents[uri].sync == Synchronized {
        NewJobKeeps(keyOf, sys, Requeue(keyOf, s, uri).0, uri, s.nextRevision, s.documents[uri].version);
      }
    case Commits(job, diagnostics) => if job in sys.jobs { CommitKeeps(keyOf, sys, job, diagnostics); }
    case Cancels(job) =>
  }

  lemma InstallKeeps(keyOf: KeyOf, sys: System, uri: Uri, text: string, version: int)
    requires SystemOk(keyOf, sys)
    ensures var (s', job) := Install(keyOf, sys.store, uri, text, version);
      SystemOk(keyOf, System(s', sys.jobs + {job}))
  {
    var (s', job) := Install(keyOf, sys.store, uri, text, version);
    NewJobKeeps(keyOf, sys, s', uri, sys.store.nextRevision, version);
  }

  lemma ChangeKeeps(keyOf: KeyOf, sys: System, uri: Uri, version: int, changes: seq<Change>)
    requires SystemOk(keyOf, sys)
    ensures SystemOk(keyOf, Next(keyOf, sys, Changes(uri, version, changes)))
  {
    var (s', outcome) := ChangeDocument(keyOf, sys.store, uri, version, changes);
    if outcome.Applied? {
      var text := EditAll(sys.store.documents[uri].text, changes).text;
      InstallKeeps(keyOf, sys, uri, text, version);
    } else if s' != sys.store {
      BumpKeeps(keyOf, sys, MarkDesynchronized(keyOf, sys.store, uri, version), keyOf(uri));
    }
  }

  lemma {:induction false} RunsKeep(keyOf: KeyOf, events: seq<Event>)
    ensures SystemOk(keyOf, After(keyOf, events))
  {
    if events != [] {
      RunsKeep(keyOf, events[..|events| - 1]);
      NextKeeps(keyOf, After(keyOf, events[..|events| - 1]), events[|events| - 1]);
    }
  }

  // ----- what a commit means -----

  /** Whatever happened before, a job that passes the guard was computed from exactly the current text of
      every synchronized open document with its key, and of no other. */
  lemma CommittedJobIsFresh(keyOf: KeyOf, events: seq<Event>, job: Job)
    requires job in After(keyOf, events).jobs && Current(After(keyOf, events).store, job)
    ensures var s := After(keyOf, events).store;
      forall uri ::
        && (uri in job.inputs <==> uri in s.documents && s.documents[uri].sync == Synchronized && keyOf(uri) == job.key)
        && (uri in job.inputs ==> job.inputs[uri].text == s.documents[uri].text)
  {
    RunsKeep(keyOf, events);
    var s := After(keyOf, events).store;
    assert JobOk(keyOf, s, job);
    assert Fresh(keyOf, s, job);
    forall uri ensures
      && (uri in job.inputs <==> uri in s.documents && s.documents[uri].sync == Synchronized && keyOf(uri) == job.key)
      && (uri in job.inputs ==> job.inputs[uri].text == s.documents[uri].text)
    {
      assert uri in job.inputs <==> uri in Inputs(keyOf, s, job.key);
    }
  }

  lemma GenerationGrows(keyOf: KeyOf, sys: System, e: Event, key: AnalysisKey)
    requires SystemOk(keyOf, sys)
    ensures Generation(sys.store, key) <= Generation(Next(keyOf, sys, e).store, key)
  {
  }

  lemma {:induction false} GenerationGrowsAlong(keyOf: KeyOf, events: seq<Event>, more: seq<Event>, key: AnalysisKey)
    ensures Generation(After(keyOf, events).store, key) <= Generation(After(keyOf, events + more).store, key)
    decreases |more|
  {
    if more == [] {
      assert events + more == events;
    } else {
      var init, last := more[..|more| - 1], more[|more| - 1];
      GenerationGrowsAlong(keyOf, events, init, key);
      RunsKeep(keyOf, events + init);
      GenerationGrows(keyOf, After(keyOf, events + init), last, key);
      assert (events + more)[..|events + more| - 1] == events + init;
    }
  }

  /** Of the jobs outstanding for one key, at most one can ever pass the guard, now or later: the one with the
      highest generation. When a watched-file event requeues several documents of one package,
      only the last of its jobs can commit. */
  lemma OnlyTheNewestJobCommits(keyOf: KeyOf, events: seq<Event>, more: seq<Event>, older: Job, newer: Job)
    requires older in After(keyOf, events).jobs && newer in After(keyOf, events).jobs
    requires older.key == newer.key && older != newer && older.generation <= newer.generation
    ensures !Current(After(keyOf, events + more).store, older)
  {
    RunsKeep(keyOf, events);
    assert JobOk(keyOf, After(keyOf, events).store, newer);
    GenerationGrowsAlong(keyOf, events, more, older.key);
  }

  // ----- the store as it is updated in place -----

  class DocumentStore {
    const keyOf: KeyOf
    var documents: map<Uri, Document>
    var nextRevision: nat
    var generations: map<AnalysisKey, nat>

    ghost function View(): Store
      reads this
    {
      Store(documents, nextRevision, generations)
    }

    constructor (keyOf: KeyOf)
      ensures View() == NEW && this.keyOf == keyOf
    {
      this.keyOf := keyOf;
      documents, nextRevision, generations := map[], 1, map[];
    }

    method AllocateRevision(key: AnalysisKey) returns (revision: nat)
      modifies this
      ensures View() == Allocate(old(View()), key) && revision == old(nextRevision)
    {
      revision := nextRevision;
      nextRevision := nextRevision + 1;
      generations := generations[key := revision];
    }

    method AnalysisJob(uri: Uri, revision: nat, version: int) returns (job: Job)
      ensures job == JobFor(keyOf, View(), uri, revision, version)
    {
      var key := keyOf(uri);
      var inputs := map candidate | candidate in documents
        && documents[candidate].sync == Synchronized && keyOf(candidate) == key :: documents[candidate];
      job := Job(key, uri, revision, version, if key in generations then generations[key] else 0, inputs);
    }

    method OpenDocument(uri: Uri, text: string, version: int) returns (job: Option<Job>)
      modifies this
      ensures (View(), job) == Open(keyOf, old(View()), uri, text, version)
    {
      if ByteLength(text) > MAX_DOCUMENT_BYTES { return None; }
      if uri in documents && version <= documents[uri].version { return None; }
      var revision := AllocateRevision(keyOf(uri));
      documents := documents[uri := Document(text, [], revision, version, Synchronized)];
      var request := AnalysisJob(uri, revision, version);
      job := Some(request);
    }

    method Desynchronize(uri: Uri, version: int)
      modifies this
      ensures View() == MarkDesynchronized(keyOf, old(View()), uri, version)
    {
      var revision := AllocateRevision(keyOf(uri));
      if uri in documents {
        documents := documents[uri := Document(documents[uri].text, [], revision, version, Desynchronized)];
      }
    }

    method Change(uri: Uri, version: int, changes: seq<Change>) returns (outcome: ChangeOutcome)
      requires forall c :: c in changes && c.range.Some? ==>
        c.range.value.start.character <= MAX_U32 && c.range.value.end.character <= MAX_U32
      modifies this
      ensures (View(), outcome) == ChangeDocument(keyOf, old(View()), uri, version, changes)
    {
      if uri !in documents { return Lost(MissingDocument); }
      var document := documents[uri];
      if version <= document.version { return IgnoredStale; }
      if document.sync == Desynchronized && (changes == [] || changes[0].range.Some?) {
        Desynchronize(uri, version);
        return Lost(FullSyncRequired);
      }
      var text := document.text;
      assert changes[0..] == changes;
      for i := 0 to |changes|
        invariant View() == old(View())
        invariant EditAll(document.text, changes) == EditAll(text, changes[i..])
      {
        assert changes[i..][0] == changes[i] && changes[i..][1..] == changes[i + 1..];
        assert changes[i] in changes;
        var ok, next := ApplyChange(text, changes[i]);
        if !ok {
          Desynchronize(uri, version);
          return Lost(InvalidRange);
        }
        if ByteLength(next) > MAX_DOCUMENT_BYTES {
          Desynchronize(uri, version);
          return Lost(OversizedDocument);
        }
        text := next;
      }
      var revision := AllocateRevision(keyOf(uri));
      documents := documents[uri := Document(text, [], revision, version, Synchronized)];
      var job := AnalysisJob(uri, revision, version);
      outcome := Applied(job);
    }

    method SaveDocument(uri: Uri, text: string) returns (job: Option<Job>)
      modifies this
      ensures (View(), job) == Save(keyOf, old(View()), uri, text)
    {
      if ByteLength(text) > MAX_DOCUMENT_BYTES || uri !in documents { return None; }
      var version := documents[uri].version;
      var revision := AllocateRevision(keyOf(uri));
      documents := documents[uri := Document(text, [], revision, version, Synchronized)];
      var request := AnalysisJob(uri, revision, version);
      job := Some(request);
    }

    method CloseDocument(uri: Uri)
      modifies this
      ensures View() == Close(keyOf, old(View()), uri)
    {
      var _ := AllocateRevision(keyOf(uri));
      documents := documents - {uri};
    }

    method RequeueDocument(uri: Uri) returns (job: Option<Job>)
      modifies this
      ensures (View(), job) == Requeue(keyOf, old(View()), uri)
    {
      if uri !in documents || documents[uri].sync == Desynchronized { return None; }
      var document := documents[uri];
      var revision := AllocateRevision(keyOf(uri));
      documents := documents[uri := document.(revision := revision, diagnostics := [])];
      var request := AnalysisJob(uri, revision, document.version);
      job := Some(request);
    }

    method CommitIfCurrent(job: Job, diagnostics: seq<string>) returns (committed: bool)
      modifies this
      ensures committed <==> Current(old(View()), job)
      ensures View() == Commit(old(View()), job, diagnostics)
    {
      var current := if job.key in generations then generations[job.key] else 0;
      if job.generation != current { return false; }
      if job.uri !in documents { return false; }
      var document := documents[job.uri];
      if document.revision != job.revision || document.version != job.version { return false; }
      if document.sync != Synchronized { return false; }
      documents := documents[job.uri := document.(diagnostics := diagnostics)];
      committed := true;
    }
  }
}
