/** The generation-stamped package input cache, under every interleaving of its callers.

    Each atomic section of the cache is an operation on its three shared fields. Threads run the cache's
    methods one section at a time, in any order a scheduler chooses. A clock and a log of installed
    generations are kept beside them to say what happened when. */
module PackageCache {
  import opened Common

  type Root = string

  /** Loaded package documents, known here by when the load began. */
  datatype Snapshot = Snapshot(started: nat)

  datatype Entry = Entry(generation: nat, snapshot: Snapshot)

  datatype Cache = Cache(documents: map<Root, Entry>, generations: map<Root, nat>, next: nat)

  const EMPTY: Cache := Cache(map[], map[], 1)

  // ----- atomic sections -----

  /** `generation_for_root`: the current generation, allocated on first use. */
  function ReadGeneration(c: Cache, root: Root): (Cache, nat) {
    if root in c.generations then (c, c.generations[root])
    else (c.(next := c.next + 1, generations := c.generations[root := c.next]), c.next)
  }

  /** The two halves of `advance_generation`: the counter is bumped before the map is locked. */
  function FetchGeneration(c: Cache): (Cache, nat) {
    (c.(next := c.next + 1), c.next)
  }

  function InstallGeneration(c: Cache, root: Root, g: nat): Cache {
    c.(generations := c.generations[root := g])
  }

  function Lookup(c: Cache, root: Root, g: nat): Option<Snapshot> {
    if root in c.documents && c.documents[root].generation == g then Some(c.documents[root].snapshot) else None
  }

  /** Keep an entry of the same generation, otherwise store the loaded one. */
  function StoreLoaded(c: Cache, root: Root, g: nat, loaded: Snapshot): (Cache, Snapshot) {
    if root in c.documents && c.documents[root].generation == g then (c, c.documents[root].snapshot)
    else (c.(documents := c.documents[root := Entry(g, loaded)]), loaded)
  }

  function Remove(c: Cache, roots: set<Root>): Cache {
    c.(documents := c.documents - roots)
  }

  // ----- threads -----

  /** Where a thread stands in `documents_for_root`, or in `invalidate` and `invalidate_path`, which advance
      each of their roots and then drop the entries. `called` is when the call began, `installed` what the
      thread itself has installed for each root. */
  datatype Thread =
    | Idle
    | Asking(root: Root, called: nat)
    | Looking(root: Root, called: nat, g: nat)
    | Missed(root: Root, called: nat, g: nat)
    | Loaded(root: Root, called: nat, g: nat, snapshot: Snapshot)
    | Locked(root: Root, called: nat, g: nat, snapshot: Snapshot)
    | Storing(root: Root, called: nat, g: nat, snapshot: Snapshot)
    | Answered(root: Root, called: nat, snapshot: Snapshot)
    | Advancing(called: nat, todo: seq<Root>, all: set<Root>, installed: map<Root, nat>)
    | Holding(called: nat, g: nat, todo: seq<Root>, all: set<Root>, installed: map<Root, nat>)
    | Dropping(called: nat, all: set<Root>, installed: map<Root, nat>)
    | Invalidated(called: nat, all: set<Root>, installed: map<Root, nat>, finished: nat)

  datatype Install = Install(root: Root, time: nat)

  /** `lock` is the holder of the documents lock across several sections. */
  datatype System = System(cache: Cache, lock: Option<nat>, threads: map<nat, Thread>, clock: nat,
                           log: map<nat, Install>)

  const INITIAL: System := System(EMPTY, None, map[], 0, map[])

  datatype Choice =
    | CallDocuments(t: nat, root: Root)
    | CallInvalidate(t: nat, roots: seq<Root>)
    | Run(t: nat)

  function ThreadOf(s: System, t: nat): Thread {
    if t in s.threads then s.threads[t] else Idle
  }

  function Moved(s: System, t: nat, thread: Thread): System {
    s.(threads := s.threads[t := thread], clock := s.clock + 1)
  }

  /** `s` after a read of `root`'s generation, a first-use install included in the log. */
  function AfterRead(s: System, root: Root): System {
    var (c, g) := ReadGeneration(s.cache, root);
    s.(cache := c, log := if root in s.cache.generations then s.log else s.log[g := Install(root, s.clock)])
  }

  /** `s` after thread `t` runs its next section; a thread waiting for the lock stays. */
  function Advance(s: System, t: nat): System {
    match ThreadOf(s, t)
    case Asking(root, called) =>
      Moved(AfterRead(s, root), t, Looking(root, called, ReadGeneration(s.cache, root).1))
    case Looking(root, called, g) =>
      if s.lock.Some? then s else
      (match Lookup(s.cache, root, g)
       case Some(snapshot) => Moved(s, t, Answered(root, called, snapshot))
       case None => Moved(s, t, Missed(root, called, g)))
    case Missed(root, called, g) => Moved(s, t, Loaded(root, called, g, Snapshot(s.clock)))
    case Loaded(root, called, g, snapshot) =>
      if s.lock.Some? then s else Moved(s.(lock := Some(t)), t, Locked(root, called, g, snapshot))
    case Locked(root, called, g, snapshot) =>
      if ReadGeneration(s.cache, root).1 == g then Moved(AfterRead(s, root), t, Storing(root, called, g, snapshot))
      else Moved(AfterRead(s, root).(lock := None), t, Asking(root, called))
    case Storing(root, called, g, snapshot) =>
      var (c, kept) := StoreLoaded(s.cache, root, g, snapshot);
      Moved(s.(cache := c, lock := None), t, Answered(root, called, kept))
    case Advancing(called, todo, all, installed) =>
      if todo == [] then Moved(s, t, Dropping(called, all, installed)) else
      var (c, g) := FetchGeneration(s.cache);
      Moved(s.(cache := c), t, Holding(called, g, todo, all, installed))
    case Holding(called, g, todo, all, installed) =>
      if todo == [] then s else
      Moved(s.(cache := InstallGeneration(s.cache, todo[0], g), log := s.log[g := Install(todo[0], s.clock)]),
            t, Advancing(called, todo[1..], all, installed[todo[0] := g]))
    case Dropping(called, all, installed) =>
      if s.lock.Some? then s
      else Moved(s.(cache := Remove(s.cache, all)), t, Invalidated(called, all, installed, s.clock))
    case _ => s
  }

  predicate Free(s: System, t: nat) {
    ThreadOf(s, t).Idle? || ThreadOf(s, t).Answered? || ThreadOf(s, t).Invalidated?
  }

  function Next(s: System, choice: Choice): System {
    match choice
    case CallDocuments(t, root) => if Free(s, t) then Moved(s, t, Asking(root, s.clock)) else s
    case CallInvalidate(t, roots) =>
      if Free(s, t) then Moved(s, t, Advancing(s.clock, roots, set r | r in roots, map[])) else s
    case Run(t) => Advance(s, t)
  }

  function After(choices: seq<Choice>): System {
    if choices == [] then INITIAL else Next(After(choices[..|choices| - 1]), choices[|choices| - 1])
  }

  // ----- the invariant -----

  /** Generation `g` of `root` was installed before `time`. */
  predicate InstalledBefore(s: System, g: nat, root: Root, time: nat) {
    g in s.log && s.log[g].root == root && s.log[g].time < time
  }

  /** No install of `root` logged before `called` is newer than `g`. */
  predicate NewestBy(s: System, g: nat, root: Root, called: nat) {
    && g in s.log && s.log[g].root == root
    && forall h :: h in s.log && s.log[h].root == root && s.log[h].time < called ==> s.log[h].time <= s.log[g].time
  }

  /** Every install of `root` logged before `called` precedes the load. */
  predicate FreshSince(s: System, root: Root, called: nat, snapshot: Snapshot) {
    forall h :: h in s.log && s.log[h].root == root && s.log[h].time < called ==> s.log[h].time < snapshot.started
  }

  /** Every root of an invalidation has been given a generation or is still to be. */
  predicate Covers(all: set<Root>, installed: map<Root, nat>, todo: seq<Root>) {
    forall root :: root in all ==> root in installed || root in todo
  }

  /** The generations in `installed` were logged for their roots between `from` and `to`. */
  predicate InstalledSince(s: System, from: nat, installed: map<Root, nat>, to: nat) {
    forall root :: root in installed ==>
      && installed[root] in s.log && s.log[installed[root]].root == root
      && from <= s.log[installed[root]].time < to
  }

  /** What a thread knows of the generation it read, and of a load it made under it. */
  predicate LoadOk(s: System, root: Root, called: nat, g: nat, snapshot: Snapshot) {
    called <= s.clock && NewestBy(s, g, root, called) && InstalledBefore(s, g, root, snapshot.started)
  }

  predicate ThreadOk(s: System, thread: Thread) {
    match thread
    case Asking(_, called) => called <= s.clock
    case Looking(root, called, g) => called <= s.clock && NewestBy(s, g, root, called)
    case Missed(root, called, g) => called <= s.clock && NewestBy(s, g, root, called)
    case Loaded(root, called, g, snapshot) => LoadOk(s, root, called, g, snapshot)
    case Locked(root, called, g, snapshot) => LoadOk(s, root, called, g, snapshot)
    case Storing(root, called, g, snapshot) => LoadOk(s, root, called, g, snapshot)
    case Answered(root, called, snapshot) => called <= s.clock && FreshSince(s, root, called, snapshot)
    case Advancing(called, todo, all, installed) =>
      called <= s.clock && Covers(all, installed, todo) && InstalledSince(s, called, installed, s.clock)
    case Holding(called, g, todo, all, installed) =>
      && called <= s.clock && todo != [] && g < s.cache.next && g !in s.log
      && Covers(all, installed, todo) && InstalledSince(s, called, installed, s.clock)
    case Dropping(called, all, installed) => Covers(all, installed, []) && InstalledSince(s, called, installed, s.clock)
    case Invalidated(called, all, installed, finished) =>
      finished <= s.clock && Covers(all, installed, []) && InstalledSince(s, called, installed, finished)
    case _ => true
  }

  predicate LogOk(s: System) {
    && (forall g :: g in s.log ==> g < s.cache.next && s.log[g].time < s.clock)
    && (forall g :: g in s.log ==> s.log[g].root in s.cache.generations)
  }

  /** A root's current generation is its latest install. */
  predicate GenerationsOk(s: System) {
    forall root :: root in s.cache.generations ==>
      && s.cache.generations[root] in s.log && s.log[s.cache.generations[root]].root == root
      && forall h :: h in s.log && s.log[h].root == root ==> s.log[h].time <= s.log[s.cache.generations[root]].time
  }

  predicate DocumentsOk(s: System) {
    forall root :: root in s.cache.documents ==>
      InstalledBefore(s, s.cache.documents[root].generation, root, s.cache.documents[root].snapshot.started)
  }

  predicate SameHold(a: Thread, b: Thread) {
    a.Holding? && b.Holding? && a.g == b.g
  }

  predicate ThreadsOk(s: System) {
    && (forall t :: t in s.threads ==> ThreadOk(s, s.threads[t]))
    && forall t, u :: t in s.threads && u in s.threads && SameHold(s.threads[t], s.threads[u]) ==> t == u
  }

  predicate SystemOk(s: System) {
    LogOk(s) && GenerationsOk(s) && DocumentsOk(s) && ThreadsOk(s)
  }

  /** Time passing, and installs that are new, keep what threads know. */
  predicate Later(s: System, s': System) {
    && s.clock <= s'.clock && s.cache.next <= s'.cache.next
    && (forall g :: g in s.log ==> g in s'.log && s'.log[g] == s.log[g])
    && forall g :: g in s'.log && g !in s.log ==> s'.log[g].time == s.clock
  }

  lemma LaterKeepsInstalled(s: System, s': System, from: nat, installed: map<Root, nat>, to: nat, to': nat)
    requires Later(s, s') && InstalledSince(s, from, installed, to) && to <= to'
    ensures InstalledSince(s', from, installed, to')
  {
  }

  lemma LaterKeepsThread(s: System, s': System, thread: Thread)
    requires Later(s, s') && ThreadOk(s, thread)
    requires thread.Holding? ==> thread.g !in s'.log
    ensures ThreadOk(s', thread)
  {
    match thread
    case Advancing(called, _, _, installed) => LaterKeepsInstalled(s, s', called, installed, s.clock, s'.clock);
    case Holding(called, _, _, _, installed) => LaterKeepsInstalled(s, s', called, installed, s.clock, s'.clock);
    case Dropping(called, _, installed) => LaterKeepsInstalled(s, s', called, installed, s.clock, s'.clock);
    case Invalidated(called, _, installed, finished) =>
      LaterKeepsInstalled(s, s', called, installed, finished, finished);
    case _ =>
  }

  lemma LaterKeepsDocuments(s: System, s': System)
    requires DocumentsOk(s) && Later(s, s') && s'.cache.documents == s.cache.documents
    ensures DocumentsOk(s')
  {
  }

  /** Values other threads hold are not logged. */
  predicate HeldUnlogged(s: System, s': System, t: nat) {
    forall u :: u in s.threads && u != t && s.threads[u].Holding? ==> s.threads[u].g !in s'.log
  }

  /** One thread moves to `thread`; the others are as before. */
  lemma MoveKeepsThreads(s: System, s': System, t: nat, thread: Thread)
    requires ThreadsOk(s) && Later(s, s') && s'.threads == s.threads[t := thread] && ThreadOk(s', thread)
    requires HeldUnlogged(s, s', t)
    requires thread.Holding? ==> forall u :: u in s.threads && s.threads[u].Holding? ==> s.threads[u].g != thread.g
    ensures ThreadsOk(s')
  {
    forall u | u in s'.threads ensures ThreadOk(s', s'.threads[u]) {
      if u != t { LaterKeepsThread(s, s', s.threads[u]); }
    }
  }

  /** Neither cache nor log changes. */
  lemma PlainMoveKeeps(s: System, t: nat, thread: Thread, lock: Option<nat>)
    requires SystemOk(s) && !thread.Holding? && ThreadOk(Moved(s, t, thread), thread)
    ensures SystemOk(Moved(s.(lock := lock), t, thread))
  {
    var s' := Moved(s.(lock := lock), t, thread);
    assert LogOk(s') && GenerationsOk(s');
    SharedMoveKeeps(s, s', t, thread);
  }

  lemma ReadKeeps(s: System, t: nat, root: Root, thread: Thread, lock: Option<nat>)
    requires SystemOk(s) && !thread.Holding?
    requires ThreadOk(Moved(AfterRead(s, root).(lock := lock), t, thread), thread)
    ensures SystemOk(Moved(AfterRead(s, root).(lock := lock), t, thread))
  {
    var s' := Moved(AfterRead(s, root).(lock := lock), t, thread);
    ReadKeepsShared(s, root, s');
    SharedMoveKeeps(s, s', t, thread);
  }

  /** Log entries are only added for values the counter had not yet reached. */
  predicate OnlyNewValues(s: System, s': System) {
    forall g :: g in s'.log && g !in s.log ==> g >= s.cache.next
  }

  lemma SharedMoveKeeps(s: System, s': System, t: nat, thread: Thread)
    requires ThreadsOk(s) && DocumentsOk(s) && Later(s, s') && OnlyNewValues(s, s') && LogOk(s') && GenerationsOk(s')
    requires s'.cache.documents == s.cache.documents && s'.threads == s.threads[t := thread]
    requires ThreadOk(s', thread) && !thread.Holding?
    ensures SystemOk(s')
  {
    LaterKeepsDocuments(s, s');
    NewValuesAreNotHeld(s, s', t);
    MoveKeepsThreads(s, s', t, thread);
  }

  lemma NewValuesAreNotHeld(s: System, s': System, t: nat)
    requires ThreadsOk(s) && OnlyNewValues(s, s')
    ensures HeldUnlogged(s, s', t)
  {
    forall u | u in s.threads && u != t && s.threads[u].Holding? ensures s.threads[u].g !in s'.log {
      assert ThreadOk(s, s.threads[u]);
    }
  }

  lemma ReadKeepsShared(s: System, root: Root, s': System)
    requires LogOk(s) && GenerationsOk(s)
    requires s'.cache == AfterRead(s, root).cache && s'.log == AfterRead(s, root).log && s'.clock == s.clock + 1
    ensures Later(s, s') && OnlyNewValues(s, s') && LogOk(s') && GenerationsOk(s')
  {
    if root in s.cache.generations {
      assert s'.cache == s.cache && s'.log == s.log;
    } else {
      assert s.cache.next !in s.log;
      FirstInstall(s, root, s');
    }
  }

  /** A root's first generation is its only install. */
  lemma FirstInstall(s: System, root: Root, s': System)
    requires LogOk(s) && GenerationsOk(s) && root !in s.cache.generations && s'.clock == s.clock + 1
    requires s'.cache == s.cache.(next := s.cache.next + 1, generations := s.cache.generations[root := s.cache.next])
    requires s'.log == s.log[s.cache.next := Install(root, s.clock)]
    ensures LogOk(s') && GenerationsOk(s')
  {
    assert forall h :: h in s.log ==> s.log[h].root != root;
  }

  /** The generation a thread reads is the newest there is. */
  lemma ReadIsNewest(s: System, t: nat, root: Root, called: nat, thread: Thread, lock: Option<nat>)
    requires SystemOk(s) && called <= s.clock
    ensures NewestBy(Moved(AfterRead(s, root).(lock := lock), t, thread), ReadGeneration(s.cache, root).1, root, called)
  {
  }

  lemma StoreKeepsDocuments(s: System, root: Root, g: nat, snapshot: Snapshot)
    requires DocumentsOk(s) && InstalledBefore(s, g, root, snapshot.started)
    ensures var (c, kept) := StoreLoaded(s.cache, root, g, snapshot);
      DocumentsOk(s.(cache := c)) && InstalledBefore(s, g, root, kept.started)
  {
  }

  lemma StoreKeeps(s: System, t: nat, root: Root, called: nat, g: nat, snapshot: Snapshot)
    requires SystemOk(s) && ThreadOk(s, Storing(root, called, g, snapshot))
    ensures var (c, kept) := StoreLoaded(s.cache, root, g, snapshot);
      SystemOk(Moved(s.(cache := c, lock := None), t, Answered(root, called, kept)))
  {
    var (c, kept) := StoreLoaded(s.cache, root, g, snapshot);
    StoreKeepsDocuments(s, root, g, snapshot);
    StoredMoveKeeps(s, t, c, root, called, g, kept);
  }

  /** Only the documents change. */
  lemma StoredMoveKeeps(s: System, t: nat, c: Cache, root: Root, called: nat, g: nat, kept: Snapshot)
    requires SystemOk(s) && DocumentsOk(s.(cache := c)) && c == s.cache.(documents := c.documents)
    requires called <= s.clock && NewestBy(s, g, root, called) && InstalledBefore(s, g, root, kept.started)
    ensures SystemOk(Moved(s.(cache := c, lock := None), t, Answered(root, called, kept)))
  {
    var s' := Moved(s.(cache := c, lock := None), t, Answered(root, called, kept));
    LaterKeepsDocuments(s.(cache := c), s');
    NewValuesAreNotHeld(s, s', t);
    MoveKeepsThreads(s, s', t, Answered(root, called, kept));
  }

  lemma ListDoneKeeps(s: System, t: nat, called: nat, all: set<Root>, installed: map<Root, nat>)
    requires SystemOk(s) && ThreadOk(s, Advancing(called, [], all, installed))
    ensures SystemOk(Moved(s, t, Dropping(called, all, installed)))
  {
    var next := Dropping(called, all, installed);
    LaterKeepsInstalled(s, Moved(s, t, next), called, installed, s.clock, s.clock + 1);
    PlainMoveKeeps(s, t, next, s.lock);
  }

  lemma FetchKeeps(s: System, t: nat, called: nat, todo: seq<Root>, all: set<Root>, installed: map<Root, nat>)
    requires SystemOk(s) && todo != [] && ThreadOk(s, Advancing(called, todo, all, installed))
    ensures var (c, g) := FetchGeneration(s.cache);
      SystemOk(Moved(s.(cache := c), t, Holding(called, g, todo, all, installed)))
  {
    var (c, g) := FetchGeneration(s.cache);
    var s' := Moved(s.(cache := c), t, Holding(called, g, todo, all, installed));
    LaterKeepsInstalled(s, s', called, installed, s.clock, s'.clock);
    MoveKeepsThreads(s, s', t, Holding(called, g, todo, all, installed));
  }

  lemma InstallKeeps(s: System, t: nat, called: nat, g: nat, todo: seq<Root>, all: set<Root>, installed: map<Root, nat>)
    requires SystemOk(s) && ThreadOf(s, t) == Holding(called, g, todo, all, installed) && called <= s.clock
    ensures SystemOk(Advance(s, t))
  {
    assert ThreadOk(s, s.threads[t]);
    var s', next := Advance(s, t), Advancing(called, todo[1..], all, installed[todo[0] := g]);
    InstallLogged(s, todo[0], g, s');
    LaterKeepsDocuments(s, s');
    OthersHoldOthers(s, s', t, g);
    InstallerOk(s, s', called, g, todo, all, installed);
    MoveKeepsThreads(s, s', t, next);
  }

  lemma OthersHoldOthers(s: System, s': System, t: nat, g: nat)
    requires ThreadsOk(s) && t in s.threads && s.threads[t].Holding? && s.threads[t].g == g
    requires forall h :: h in s'.log ==> h in s.log || h == g
    ensures HeldUnlogged(s, s', t)
  {
    forall u | u in s.threads && u != t && s.threads[u].Holding? ensures s.threads[u].g !in s'.log {
      assert ThreadOk(s, s.threads[u]) && !SameHold(s.threads[t], s.threads[u]);
    }
  }

  lemma InstallerOk(s: System, s': System, called: nat, g: nat, todo: seq<Root>, all: set<Root>,
                    installed: map<Root, nat>)
    requires todo != [] && called <= s.clock < s'.clock && Later(s, s')
    requires g in s'.log && s'.log[g] == Install(todo[0], s.clock)
    requires Covers(all, installed, todo) && InstalledSince(s, called, installed, s.clock)
    ensures ThreadOk(s', Advancing(called, todo[1..], all, installed[todo[0] := g]))
  {
    LaterKeepsInstalled(s, s', called, installed, s.clock, s'.clock);
    OneMoreCovered(all, installed, todo, g);
  }

  /** The install of a held value becomes the root's latest. */
  lemma InstallLogged(s: System, root: Root, g: nat, s': System)
    requires LogOk(s) && GenerationsOk(s) && g !in s.log && g < s.cache.next && s'.clock == s.clock + 1
    requires s'.cache == InstallGeneration(s.cache, root, g) && s'.log == s.log[g := Install(root, s.clock)]
    ensures Later(s, s') && LogOk(s') && GenerationsOk(s')
  {
  }

  lemma OneMoreCovered(all: set<Root>, installed: map<Root, nat>, todo: seq<Root>, g: nat)
    requires todo != [] && Covers(all, installed, todo)
    ensures Covers(all, installed[todo[0] := g], todo[1..])
  {
  }

  lemma AskKeeps(s: System, t: nat, root: Root, called: nat)
    requires SystemOk(s) && ThreadOf(s, t) == Asking(root, called) && called <= s.clock
    ensures SystemOk(Advance(s, t))
  {
    var next := Looking(root, called, ReadGeneration(s.cache, root).1);
    ReadIsNewest(s, t, root, called, next, s.lock);
    ReadKeeps(s, t, root, next, s.lock);
  }

  lemma LookKeeps(s: System, t: nat, root: Root, called: nat, g: nat)
    requires SystemOk(s) && ThreadOf(s, t) == Looking(root, called, g) && ThreadOk(s, ThreadOf(s, t))
    ensures SystemOk(Advance(s, t))
  {
    if s.lock.None? {
      match Lookup(s.cache, root, g)
      case Some(snapshot) => PlainMoveKeeps(s, t, Answered(root, called, snapshot), s.lock);
      case None => PlainMoveKeeps(s, t, Missed(root, called, g), s.lock);
    }
  }

  lemma RecheckKeeps(s: System, t: nat, root: Root, called: nat, g: nat, snapshot: Snapshot)
    requires SystemOk(s) && ThreadOf(s, t) == Locked(root, called, g, snapshot) && ThreadOk(s, ThreadOf(s, t))
    ensures SystemOk(Advance(s, t))
  {
    if ReadGeneration(s.cache, root).1 == g {
      var next := Storing(root, called, g, snapshot);
      ReadIsNewest(s, t, root, called, next, s.lock);
      ReadKeeps(s, t, root, next, s.lock);
    } else {
      ReadKeeps(s, t, root, Asking(root, called), None);
    }
  }

  lemma AdvanceKeeps(s: System, t: nat)
    requires SystemOk(s)
    ensures SystemOk(Advance(s, t))
  {
    var thread := ThreadOf(s, t);
    if t in s.threads { assert ThreadOk(s, thread); }
    match thread
    case Asking(root, called) => AskKeeps(s, t, root, called);
    case Looking(root, called, g) => LookKeeps(s, t, root, called, g);
    case Missed(root, called, g) => PlainMoveKeeps(s, t, Loaded(root, called, g, Snapshot(s.clock)), s.lock);
    case Loaded(root, called, g, snapshot) =>
      if s.lock.None? { PlainMoveKeeps(s, t, Locked(root, called, g, snapshot), Some(t)); }
    case Locked(root, called, g, snapshot) => RecheckKeeps(s, t, root, called, g, snapshot);
    case Storing(root, called, g, snapshot) => StoreKeeps(s, t, root, called, g, snapshot);
    case Advancing(called, todo, all, installed) =>
      if todo == [] { ListDoneKeeps(s, t, called, all, installed); } else {
        FetchKeeps(s, t, called, todo, all, installed);
      }
    case Holding(called, g, todo, all, installed) => InstallKeeps(s, t, called, g, todo, all, installed);
    case Dropping(called, all, installed) => if s.lock.None? { DropKeeps(s, t, called, all, installed); }
    case _ =>
  }

  lemma DropKeeps(s: System, t: nat, called: nat, all: set<Root>, installed: map<Root, nat>)
    requires SystemOk(s) && ThreadOf(s, t) == Dropping(called, all, installed) && s.lock.None?
    ensures SystemOk(Advance(s, t))
  {
    assert ThreadOk(s, s.threads[t]);
    var s' := Advance(s, t);
    LaterKeepsInstalled(s, s', called, installed, s.clock, s.clock);
    MoveKeepsThreads(s, s', t, Invalidated(called, all, installed, s.clock));
  }

  lemma NextKeeps(s: System, choice: Choice)
    requires SystemOk(s)
    ensures SystemOk(Next(s, choice))
  {
    match choice
    case CallDocuments(t, root) => if Free(s, t) { PlainMoveKeeps(s, t, Asking(root, s.clock), s.lock); }
    case CallInvalidate(t, roots) =>
      if Free(s, t) { PlainMoveKeeps(s, t, Advancing(s.clock, roots, set r | r in roots, map[]), s.lock); }
    case Run(t) => AdvanceKeeps(s, t);
  }

  lemma {:induction false} RunsKeep(choices: seq<Choice>)
    ensures SystemOk(After(choices))
  {
    if choices != [] {
      RunsKeep(choices[..|choices| - 1]);
      NextKeeps(After(choices[..|choices| - 1]), choices[|choices| - 1]);
    }
  }

  predicate ThreadPast(thread: Thread, clock: nat) {
    match thread
    case Loaded(_, _, _, snapshot) => snapshot.started < clock
    case Locked(_, _, _, snapshot) => snapshot.started < clock
    case Storing(_, _, _, snapshot) => snapshot.started < clock
    case Answered(_, _, snapshot) => snapshot.started < clock
    case _ => true
  }

  /** Every load has begun in the past. */
  predicate SnapshotsPast(s: System) {
    && (forall root :: root in s.cache.documents ==> s.cache.documents[root].snapshot.started < s.clock)
    && forall t :: t in s.threads ==> ThreadPast(s.threads[t], s.clock)
  }

  lemma PastDocumentsKeep(s: System, choice: Choice)
    requires SnapshotsPast(s)
    ensures forall root :: root in Next(s, choice).cache.documents ==>
      Next(s, choice).cache.documents[root].snapshot.started < Next(s, choice).clock
  {
    if choice.t in s.threads { assert ThreadPast(s.threads[choice.t], s.clock); }
  }

  lemma PastThreadKeeps(s: System, choice: Choice, t: nat)
    requires SnapshotsPast(s) && t in Next(s, choice).threads
    ensures ThreadPast(Next(s, choice).threads[t], Next(s, choice).clock)
  {
    if t in s.threads { assert ThreadPast(s.threads[t], s.clock); }
  }

  lemma PastKeeps(s: System, choice: Choice)
    requires SnapshotsPast(s)
    ensures SnapshotsPast(Next(s, choice))
  {
    PastDocumentsKeep(s, choice);
    forall t | t in Next(s, choice).threads ensures ThreadPast(Next(s, choice).threads[t], Next(s, choice).clock) {
      PastThreadKeeps(s, choice, t);
    }
  }

  // ----- calls that nothing disturbs -----

  /** `n` sections of thread `u`. */
  function Sections(s: System, u: nat, n: nat): System {
    if n == 0 then s else Next(Sections(s, u, n - 1), Run(u))
  }

  function Invalidating(s: System, u: nat, root: Root): System {
    Sections(Next(s, CallInvalidate(u, [root])), u, 4)
  }

  /** Only thread `u` has moved. */
  predicate OnlyMoved(s: System, s': System, u: nat) {
    s'.lock == s.lock && s'.threads - {u} == s.threads - {u}
  }

  /** `s` after the call, the fetch and the install. */
  function AfterInstall(s: System, u: nat, root: Root): System {
    var g := s.cache.next;
    System(InstallGeneration(FetchGeneration(s.cache).0, root, g), s.lock,
           s.threads[u := Advancing(s.clock, [], {root}, map[root := g])], s.clock + 3,
           s.log[g := Install(root, s.clock + 2)])
  }

  lemma InstallsAlone(s: System, u: nat, root: Root)
    requires Free(s, u)
    ensures Sections(Next(s, CallInvalidate(u, [root])), u, 2) == AfterInstall(s, u, root)
  {
    var begun := Next(s, CallInvalidate(u, [root]));
    FetchesAlone(s, u, root);
    var s2, s3 := Sections(begun, u, 1), Sections(begun, u, 2);
    assert s3 == Next(s2, Run(u)) && [root][1..] == [];
    assert s3.threads == s.threads[u := Advancing(s.clock, [], {root}, map[root := s.cache.next])];
  }

  lemma FetchesAlone(s: System, u: nat, root: Root)
    requires Free(s, u)
    ensures var g := s.cache.next;
      Sections(Next(s, CallInvalidate(u, [root])), u, 1)
        == System(FetchGeneration(s.cache).0, s.lock, s.threads[u := Holding(s.clock, g, [root], {root}, map[])],
                  s.clock + 2, s.log)
  {
    var begun, g := Next(s, CallInvalidate(u, [root])), s.cache.next;
    assert (set r | r in [root]) == {root};
    assert begun == Moved(s, u, Advancing(s.clock, [root], {root}, map[]));
    assert Sections(begun, u, 1) == Next(begun, Run(u));
    assert begun.threads[u := Holding(s.clock, g, [root], {root}, map[])]
        == s.threads[u := Holding(s.clock, g, [root], {root}, map[])];
  }

  lemma OtherThreadsStay(s: System, s': System, u: nat, v: nat)
    requires OnlyMoved(s, s', u) && v in s.threads && v != u
    ensures v in s'.threads && s'.threads[v] == s.threads[v]
  {
    assert v in s.threads - {u} && (s.threads - {u})[v] == s.threads[v];
    assert v in s'.threads - {u} && (s'.threads - {u})[v] == s'.threads[v];
  }

  lemma InvalidatesAlone(s: System, u: nat, root: Root)
    requires Free(s, u) && s.lock.None?
    ensures var s', g := Invalidating(s, u, root), s.cache.next;
      && OnlyMoved(s, s', u) && u in s'.threads && s'.threads[u].Invalidated? && s'.threads[u].all == {root}
      && s'.threads[u].installed == map[root := g]
      && g in s'.log && s'.log[g].root == root && s.clock < s'.log[g].time
  {
    InstallsAlone(s, u, root);
    var begun, s3 := Next(s, CallInvalidate(u, [root])), AfterInstall(s, u, root);
    assert Sections(begun, u, 3) == Next(s3, Run(u));
    assert Sections(begun, u, 4) == Next(Next(s3, Run(u)), Run(u));
  }

  /** The first call for a root loads it and answers. */
  lemma AnswersAlone(s: System, u: nat, root: Root)
    requires ThreadOf(s, u).Asking? && ThreadOf(s, u).root == root && s.lock.None?
    requires root !in s.cache.generations && root !in s.cache.documents
    ensures var s' := Sections(s, u, 6);
      OnlyMoved(s, s', u) && u in s'.threads && s'.threads[u].Answered?
  {
    var called, g := ThreadOf(s, u).called, s.cache.next;
    var s1 := Moved(AfterRead(s, root), u, Looking(root, called, g));
    assert Sections(s, u, 1) == s1;
    var s2 := Moved(s1, u, Missed(root, called, g));
    assert Sections(s, u, 2) == Next(s1, Run(u)) == s2;
    var s3 := Moved(s2, u, Loaded(root, called, g, Snapshot(s2.clock)));
    assert Sections(s, u, 3) == Next(s2, Run(u)) == s3;
    var s4 := Moved(s3.(lock := Some(u)), u, Locked(root, called, g, Snapshot(s2.clock)));
    assert Sections(s, u, 4) == Next(s3, Run(u)) == s4;
    var s5 := Moved(s4, u, Storing(root, called, g, Snapshot(s2.clock)));
    assert Sections(s, u, 5) == Next(s4, Run(u)) == s5;
  }

  // ----- freshness -----

  /** Under every schedule: the snapshot a call returns was loaded after every install of its root that
      happened before the call began, those of all invalidations that had returned among them. */
  lemma AnswersAreFresh(choices: seq<Choice>, t: nat, g: nat)
    requires t in After(choices).threads && After(choices).threads[t].Answered?
    requires var thread := After(choices).threads[t];
      InstalledBefore(After(choices), g, thread.root, thread.called)
    ensures After(choices).log[g].time < After(choices).threads[t].snapshot.started
  {
    RunsKeep(choices);
    assert ThreadOk(After(choices), After(choices).threads[t]);
  }

  /** A call that begins after an invalidation of its root returned answers with a snapshot whose load began
      after the generation which that invalidation itself installed for the root. */
  lemma AnswersSeeReturnedInvalidations(choices: seq<Choice>, u: nat, t: nat)
    requires var s := After(choices);
      && t in s.threads && u in s.threads && s.threads[t].Answered? && s.threads[u].Invalidated?
      && s.threads[t].root in s.threads[u].all && s.threads[u].finished <= s.threads[t].called
    ensures var s := After(choices);
      var root, own := s.threads[t].root, s.threads[u].installed;
      && root in own && own[root] in s.log && s.log[own[root]].root == root
      && s.threads[u].called <= s.log[own[root]].time < s.threads[u].finished
      && s.log[own[root]].time < s.threads[t].snapshot.started
  {
    RunsKeep(choices);
    var s := After(choices);
    assert ThreadOk(s, s.threads[u]);
    AnswersAreFresh(choices, t, s.threads[u].installed[s.threads[t].root]);
  }

  /** `g` was once the generation of `root` and is no longer. */
  predicate Superseded(s: System, root: Root, g: nat) {
    g in s.log && (root in s.cache.generations ==> s.cache.generations[root] != g)
  }

  lemma SupersededStays(s: System, choice: Choice, root: Root, g: nat)
    requires SystemOk(s) && Superseded(s, root, g)
    ensures Superseded(Next(s, choice), root, g)
  {
    if choice.Run? && ThreadOf(s, choice.t).Holding? {
      assert ThreadOk(s, s.threads[choice.t]);
    }
  }

  /** A generation once superseded never becomes current again, so equality of generations means that
      nothing was installed in between. */
  lemma {:induction false} GenerationsNeverRecur(choices: seq<Choice>, more: seq<Choice>, root: Root, g: nat)
    requires Superseded(After(choices), root, g)
    ensures Superseded(After(choices + more), root, g)
    decreases |more|
  {
    if more == [] {
      assert choices + more == choices;
    } else {
      var init := more[..|more| - 1];
      GenerationsNeverRecur(choices, init, root, g);
      RunsKeep(choices + init);
      SupersededStays(After(choices + init), more[|more| - 1], root, g);
      LastChoice(choices, more);
    }
  }

  lemma LastChoice(choices: seq<Choice>, more: seq<Choice>)
    requires more != []
    ensures After(choices + more) == Next(After(choices + more[..|more| - 1]), more[|more| - 1])
  {
    assert (choices + more)[..|choices + more| - 1] == choices + more[..|more| - 1];
  }

  lemma AfterOneMore(choices: seq<Choice>, choice: Choice)
    ensures After(choices + [choice]) == Next(After(choices), choice)
  {
    assert (choices + [choice])[..|choices|] == choices;
  }

  /** A root's generation can go down: two invalidations may install in the opposite order of their counter
      values. */
  lemma GenerationsMayGoBack(root: Root) returns (choices: seq<Choice>, last: Choice)
    ensures root in After(choices).cache.generations && root in After(choices + [last]).cache.generations
    ensures After(choices + [last]).cache.generations[root] < After(choices).cache.generations[root]
  {
    var c1 := [CallInvalidate(1, [root])];
    var c2 := c1 + [CallInvalidate(2, [root])];
    var c3 := c2 + [Run(1)];
    var c4 := c3 + [Run(2)];
    choices, last := c4 + [Run(2)], Run(1);
    assert c1 == [] + c1;
    AfterOneMore([], CallInvalidate(1, [root]));
    AfterOneMore(c1, CallInvalidate(2, [root]));
    AfterOneMore(c2, Run(1));
    AfterOneMore(c3, Run(2));
    AfterOneMore(c4, Run(2));
    AfterOneMore(choices, last);
    assert ThreadOf(After(c2), 1) == Advancing(0, [root], {root}, map[]);
    assert ThreadOf(After(c3), 1) == Holding(0, 1, [root], {root}, map[]);
    assert ThreadOf(After(c4), 2) == Holding(1, 2, [root], {root}, map[]);
    assert ThreadOf(After(choices), 1) == Holding(0, 1, [root], {root}, map[]);
  }

  // ----- the cache as it is updated in place -----

  /** Exactly `roots` changed generation, to different values from `low` up to `high`. */
  predicate Renewed(before: map<Root, nat>, after: map<Root, nat>, roots: set<Root>, low: nat, high: nat) {
    && (forall r :: r in roots ==> r in after && low <= after[r] < high)
    && (forall r, q :: r in roots && q in roots && r != q ==> after[r] != after[q])
    && after - roots == before - roots
  }

  lemma OneMoreRenewed(before: map<Root, nat>, after: map<Root, nat>, roots: set<Root>, low: nat, high: nat, root: Root)
    requires Renewed(before, after, roots, low, high) && root !in roots && low <= high
    ensures Renewed(before, after[root := high], roots + {root}, low, high + 1)
  {
    assert after[root := high] - (roots + {root}) == (after - roots) - {root};
    assert before - (roots + {root}) == (before - roots) - {root};
  }

  class PackageInputCache {
    var documents: map<Root, Entry>
    var generations: map<Root, nat>
    var nextGeneration: nat

    ghost function View(): Cache
      reads this
    {
      Cache(documents, generations, nextGeneration)
    }

    constructor ()
      ensures View() == EMPTY
    {
      documents, generations, nextGeneration := map[], map[], 1;
    }

    method GenerationForRoot(root: Root) returns (generation: nat)
      modifies this
      ensures (View(), generation) == ReadGeneration(old(View()), root)
    {
      if root !in generations {
        generations := generations[root := nextGeneration];
        nextGeneration := nextGeneration + 1;
      }
      generation := generations[root];
    }

    method AdvanceGeneration(root: Root)
      modifies this
      ensures var (c, g) := FetchGeneration(old(View())); View() == InstallGeneration(c, root, g)
    {
      var generation := nextGeneration;
      nextGeneration := nextGeneration + 1;
      generations := generations[root := generation];
    }

    method Invalidate(root: Root)
      modifies this
      ensures var (c, g) := FetchGeneration(old(View())); View() == Remove(InstallGeneration(c, root, g), {root})
    {
      AdvanceGeneration(root);
      documents := documents - {root};
    }

    /** `invalidate_path`: the cached roots the path lies under and the root found for it get new generations,
        each its own, and lose their entries; no other root is touched. */
    method InvalidatePath(under: Root -> bool, found: Option<Root>) returns (invalidated: set<Root>)
      modifies this
      ensures invalidated == (set r | r in old(documents) && under(r)) + if found.Some? then {found.value} else {}
      ensures documents == old(documents) - invalidated
      ensures nextGeneration == old(nextGeneration) + |invalidated|
      ensures Renewed(old(generations), generations, invalidated, old(nextGeneration), nextGeneration)
    {
      invalidated := (set r | r in documents && under(r)) + if found.Some? then {found.value} else {};
      AdvanceEach(invalidated);
      documents := documents - invalidated;
    }

    method AdvanceEach(roots: set<Root>)
      modifies this
      ensures documents == old(documents) && nextGeneration == old(nextGeneration) + |roots|
      ensures Renewed(old(generations), generations, roots, old(nextGeneration), nextGeneration)
    {
      var todo := roots;
      ghost var done: set<Root> := {};
      while todo != {}
        invariant todo + done == roots && todo !! done && documents == old(documents)
        invariant nextGeneration == old(nextGeneration) + |done|
        invariant Renewed(old(generations), generations, done, old(nextGeneration), nextGeneration)
        decreases |todo|
      {
        var root :| root in todo;
        OneMoreRenewed(old(generations), generations, done, old(nextGeneration), nextGeneration, root);
        AdvanceGeneration(root);
        todo, done := todo - {root}, done + {root};
      }
    }

    /** One pass of `documents_for_root` without interference; `load` is what the disk gives if asked. */
    method DocumentsForRoot(root: Root, load: Snapshot) returns (answer: Snapshot)
      modifies this
      ensures var (c, g) := ReadGeneration(old(View()), root);
        (View(), answer) == StoreLoaded(c, root, g, load)
    {
      var generation := GenerationForRoot(root);
      if root in documents && documents[root].generation == generation {
        return documents[root].snapshot;
      }
      var again := GenerationForRoot(root);
      assert again == generation;
      documents := documents[root := Entry(generation, load)];
      answer := load;
    }
  }
}
