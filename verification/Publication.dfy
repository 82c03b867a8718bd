/** Coalesced diagnostics publication: enqueuers, a wake channel of capacity one, and a draining worker.

    An enqueuer inserts into the pending map under its lock and afterwards sends a wake. The worker
    receives a wake, then takes and publishes batches until it sees the map empty. */
module Publication {

  type Uri = string

  /** A publication, numbered by its place among all that were ever enqueued. */
  datatype Item = Item(uri: Uri, number: nat)

  datatype Worker = Waiting | Draining | Publishing(batch: seq<Item>)

  /** `sending` counts enqueuers between insertion and send. `enqueued`, `latest`, `delivered` and `evicted`
      record what happened. */
  datatype System = System(pending: map<Uri, Item>, wake: bool, worker: Worker, sending: nat,
                           enqueued: nat, latest: map<Uri, Item>, delivered: seq<Item>, evicted: set<Item>)

  const INITIAL: System := System(map[], false, Waiting, 0, 0, map[], [], {})

  datatype Event =
    | Insert(uri: Uri, victim: Uri)
    | Send
    | Receive
    | Take(order: seq<Item>)
    | Publish

  // ----- atomic sections -----

  /** Whether a full map makes room first, by dropping the entry the map iterates first. */
  predicate Evicts(cap: nat, pending: map<Uri, Item>, uri: Uri) {
    uri !in pending && |pending| >= cap && pending != map[]
  }

  function Inserted(cap: nat, pending: map<Uri, Item>, item: Item, victim: Uri): map<Uri, Item> {
    (if Evicts(cap, pending, item.uri) then pending - {victim} else pending)[item.uri := item]
  }

  /** `order` lists the pending items, in whatever order the map drains. */
  predicate Lists(order: seq<Item>, pending: map<Uri, Item>) {
    && (forall i :: 0 <= i < |order| ==> order[i].uri in pending && pending[order[i].uri] == order[i])
    && (forall i, j :: 0 <= i < j < |order| ==> order[i].uri != order[j].uri)
    && |order| == |pending|
  }

  predicate Enabled(cap: nat, s: System, e: Event) {
    match e
    case Insert(uri, victim) => Evicts(cap, s.pending, uri) ==> victim in s.pending
    case Send => s.sending > 0
    case Receive => s.worker.Waiting? && s.wake
    case Take(order) => s.worker.Draining? && Lists(order, s.pending)
    case Publish => s.worker.Publishing? && s.worker.batch != []
  }

  function Next(cap: nat, s: System, e: Event): System
    requires Enabled(cap, s, e)
  {
    match e
    case Insert(uri, victim) =>
      var item := Item(uri, s.enqueued);
      s.(pending := Inserted(cap, s.pending, item, victim), sending := s.sending + 1, enqueued := s.enqueued + 1,
         latest := s.latest[uri := item],
         evicted := if Evicts(cap, s.pending, uri) then s.evicted + {s.pending[victim]} else s.evicted)
    case Send => s.(sending := s.sending - 1, wake := true)
    case Receive => s.(wake := false, worker := Draining)
    case Take(order) => s.(pending := map[], worker := if order == [] then Waiting else Publishing(order))
    case Publish =>
      var batch := s.worker.batch;
      s.(delivered := s.delivered + [batch[0]], worker := if |batch| == 1 then Draining else Publishing(batch[1..]))
  }

  /** The states some interleaving reaches. */
  datatype History = Start | Then(before: History, event: Event)

  function StateOf(cap: nat, h: History): System {
    match h
    case Start => INITIAL
    case Then(before, e) => if Enabled(cap, StateOf(cap, before), e) then Next(cap, StateOf(cap, before), e)
      else INITIAL
  }

  predicate IsHistory(cap: nat, h: History) {
    h.Then? ==> IsHistory(cap, h.before) && Enabled(cap, StateOf(cap, h.before), h.event)
  }

  // ----- the invariant -----

  function Batch(s: System): seq<Item> {
    if s.worker.Publishing? then s.worker.batch else []
  }

  /** Something will still make the worker look at the map. */
  predicate WillLook(s: System) {
    s.wake || !s.worker.Waiting? || s.sending > 0
  }

  predicate PendingOk(cap: nat, s: System) {
    && |s.pending| <= cap
    && forall uri :: uri in s.pending ==> s.pending[uri].uri == uri && s.pending[uri].number < s.enqueued
  }

  predicate BatchOk(batch: seq<Item>, enqueued: nat) {
    && (forall i :: 0 <= i < |batch| ==> batch[i].number < enqueued)
    && (forall i, j :: 0 <= i < j < |batch| ==> batch[i].uri != batch[j].uri)
  }

  /** `a` was enqueued before `b`, if they concern the same document. */
  predicate InOrder(a: Item, b: Item) {
    a.uri == b.uri ==> a.number < b.number
  }

  predicate Precede(items: seq<Item>, pending: map<Uri, Item>) {
    forall i, uri :: 0 <= i < |items| && uri in pending ==> InOrder(items[i], pending[uri])
  }

  /** Delivered items, then the batch, then the pending ones, follow enqueue order document by document. */
  predicate OrderOk(delivered: seq<Item>, batch: seq<Item>, pending: map<Uri, Item>, enqueued: nat) {
    && (forall i, j :: 0 <= i < j < |delivered| ==> InOrder(delivered[i], delivered[j]))
    && (forall i, j :: 0 <= i < |delivered| && 0 <= j < |batch| ==> InOrder(delivered[i], batch[j]))
    && Precede(delivered, pending) && Precede(batch, pending)
    && (forall i :: 0 <= i < |delivered| ==> delivered[i].number < enqueued)
  }

  /** The last item of a document is still on its way, delivered, or was evicted. */
  predicate Accounted(s: System, uri: Uri)
    requires uri in s.latest
  {
    var item := s.latest[uri];
    (uri in s.pending && s.pending[uri] == item) || item in Batch(s) || item in s.delivered || item in s.evicted
  }

  predicate LatestOk(s: System) {
    forall uri :: uri in s.latest ==> s.latest[uri].uri == uri && Accounted(s, uri)
  }

  predicate NotNewer(item: Item, latest: map<Uri, Item>) {
    item.uri in latest && item.number <= latest[item.uri].number
  }

  /** No item is newer than the latest one of its document. */
  predicate NumbersOk(s: System) {
    && (forall i :: 0 <= i < |s.delivered| ==> NotNewer(s.delivered[i], s.latest))
    && (forall i :: 0 <= i < |Batch(s)| ==> NotNewer(Batch(s)[i], s.latest))
    && forall uri :: uri in s.pending ==> NotNewer(s.pending[uri], s.latest)
  }

  predicate SystemOk(cap: nat, s: System) {
    && PendingOk(cap, s) && LatestOk(s) && NumbersOk(s)
    && BatchOk(Batch(s), s.enqueued) && (s.worker.Publishing? ==> s.worker.batch != [])
    && OrderOk(s.delivered, Batch(s), s.pending, s.enqueued)
    && (s.pending != map[] ==> WillLook(s))
  }

  lemma OneLess(pending: map<Uri, Item>, uri: Uri)
    requires uri in pending
    ensures |pending - {uri}| == |pending| - 1
  {
    var smaller := pending - {uri};
    assert smaller.Keys == pending.Keys - {uri};
    assert |smaller.Keys| == |smaller| && |pending.Keys| == |pending|;
  }

  lemma AtMostOneMore(pending: map<Uri, Item>, uri: Uri, item: Item)
    ensures |pending[uri := item]| == if uri in pending then |pending| else |pending| + 1
  {
    var larger := pending[uri := item];
    assert larger.Keys == pending.Keys + {uri};
    assert |larger.Keys| == |larger| && |pending.Keys| == |pending|;
  }

  lemma InsertBounds(cap: nat, pending: map<Uri, Item>, item: Item, victim: Uri)
    requires cap > 0 && |pending| <= cap && (Evicts(cap, pending, item.uri) ==> victim in pending)
    ensures |Inserted(cap, pending, item, victim)| <= cap
  {
    if Evicts(cap, pending, item.uri) {
      OneLess(pending, victim);
      AtMostOneMore(pending - {victim}, item.uri, item);
    } else {
      AtMostOneMore(pending, item.uri, item);
    }
  }

  lemma InsertKeepsOrder(delivered: seq<Item>, batch: seq<Item>, pending: map<Uri, Item>, item: Item,
                         pending': map<Uri, Item>)
    requires OrderOk(delivered, batch, pending, item.number) && BatchOk(batch, item.number)
    requires forall u :: u in pending' ==> pending'[u] == item || (u in pending && pending'[u] == pending[u])
    ensures OrderOk(delivered, batch, pending', item.number + 1)
  {
  }

  lemma InsertKeepsLatest(cap: nat, s: System, uri: Uri, victim: Uri)
    requires LatestOk(s) && Enabled(cap, s, Insert(uri, victim))
    ensures LatestOk(Next(cap, s, Insert(uri, victim)))
  {
    var s' := Next(cap, s, Insert(uri, victim));
    forall u | u in s'.latest ensures s'.latest[u].uri == u && Accounted(s', u) {
      if u != uri { assert Accounted(s, u); }
    }
  }

  lemma InsertKeepsNumbers(cap: nat, s: System, uri: Uri, victim: Uri)
    requires SystemOk(cap, s) && Enabled(cap, s, Insert(uri, victim))
    ensures NumbersOk(Next(cap, s, Insert(uri, victim)))
  {
    var s' := Next(cap, s, Insert(uri, victim));
    forall i | 0 <= i < |s.delivered| ensures NotNewer(s'.delivered[i], s'.latest) {
      assert NotNewer(s.delivered[i], s.latest);
    }
    forall i | 0 <= i < |Batch(s)| ensures NotNewer(Batch(s')[i], s'.latest) { assert NotNewer(Batch(s)[i], s.latest); }
    forall u | u in s'.pending ensures NotNewer(s'.pending[u], s'.latest) {
      if u != uri { assert NotNewer(s.pending[u], s.latest); }
    }
  }

  lemma InsertKeeps(cap: nat, s: System, uri: Uri, victim: Uri)
    requires cap > 0 && SystemOk(cap, s) && Enabled(cap, s, Insert(uri, victim))
    ensures SystemOk(cap, Next(cap, s, Insert(uri, victim)))
  {
    var item, s' := Item(uri, s.enqueued), Next(cap, s, Insert(uri, victim));
    InsertBounds(cap, s.pending, item, victim);
    InsertKeepsOrder(s.delivered, Batch(s), s.pending, item, s'.pending);
    InsertKeepsLatest(cap, s, uri, victim);
    InsertKeepsNumbers(cap, s, uri, victim);
  }

  lemma ListsAll(order: seq<Item>, pending: map<Uri, Item>, uri: Uri)
    requires Lists(order, pending) && uri in pending
    ensures pending[uri] in order
  {
    var listed := set i | 0 <= i < |order| :: order[i].uri;
    ListedCount(order, |order|);
    assert listed <= pending.Keys;
    SameSize(listed, pending.Keys);
    var i :| 0 <= i < |order| && order[i].uri == uri;
    assert order[i] == pending[uri];
  }

  lemma {:induction false} ListedCount(order: seq<Item>, n: nat)
    requires n <= |order| && forall i, j :: 0 <= i < j < |order| ==> order[i].uri != order[j].uri
    ensures |set i | 0 <= i < n :: order[i].uri| == n
  {
    if n > 0 {
      ListedCount(order, n - 1);
      var fewer, last := set i | 0 <= i < n - 1 :: order[i].uri, order[n - 1].uri;
      assert last !in fewer;
      assert (set i | 0 <= i < n :: order[i].uri) == fewer + {last};
    }
  }

  lemma SameSize(a: set<Uri>, b: set<Uri>)
    requires a <= b && |a| == |b|
    ensures a == b
  {
    assert b == a + (b - a);
    assert |b - a| == 0;
  }

  lemma TakeKeeps(cap: nat, s: System, order: seq<Item>)
    requires SystemOk(cap, s) && Enabled(cap, s, Take(order))
    ensures SystemOk(cap, Next(cap, s, Take(order)))
  {
    var s' := Next(cap, s, Take(order));
    forall u | u in s'.latest ensures s'.latest[u].uri == u && Accounted(s', u) {
      assert Accounted(s, u);
      if u in s.pending { ListsAll(order, s.pending, u); }
    }
  }

  lemma PublishKeepsLatest(cap: nat, s: System)
    requires LatestOk(s) && NumbersOk(s) && Enabled(cap, s, Publish)
    ensures LatestOk(Next(cap, s, Publish)) && NumbersOk(Next(cap, s, Publish))
  {
    var s', batch := Next(cap, s, Publish), s.worker.batch;
    assert Batch(s') == batch[1..] && batch == [batch[0]] + batch[1..];
    forall u | u in s'.latest ensures s'.latest[u].uri == u && Accounted(s', u) {
      assert Accounted(s, u);
    }
    assert NotNewer(Batch(s)[0], s.latest);
    forall i | 0 <= i < |Batch(s')| ensures NotNewer(Batch(s')[i], s.latest) {
      assert NotNewer(Batch(s)[i + 1], s.latest);
    }
  }

  lemma PublishKeepsOrder(delivered: seq<Item>, batch: seq<Item>, pending: map<Uri, Item>, enqueued: nat)
    requires batch != [] && BatchOk(batch, enqueued) && OrderOk(delivered, batch, pending, enqueued)
    ensures BatchOk(batch[1..], enqueued) && OrderOk(delivered + [batch[0]], batch[1..], pending, enqueued)
  {
  }

  lemma PublishKeeps(cap: nat, s: System)
    requires SystemOk(cap, s) && Enabled(cap, s, Publish)
    ensures SystemOk(cap, Next(cap, s, Publish))
  {
    PublishKeepsLatest(cap, s);
    PublishKeepsOrder(s.delivered, s.worker.batch, s.pending, s.enqueued);
    assert Batch(Next(cap, s, Publish)) == s.worker.batch[1..];
  }

  lemma NextKeeps(cap: nat, s: System, e: Event)
    requires cap > 0 && SystemOk(cap, s) && Enabled(cap, s, e)
    ensures SystemOk(cap, Next(cap, s, e))
  {
    match e
    case Insert(uri, victim) => InsertKeeps(cap, s, uri, victim);
    case Take(order) => TakeKeeps(cap, s, order);
    case Publish => PublishKeeps(cap, s);
    case _ =>
      forall u | u in s.latest ensures Accounted(Next(cap, s, e), u) { assert Accounted(s, u); }
  }

  lemma {:induction false} HistoriesKeep(cap: nat, h: History)
    requires cap > 0 && IsHistory(cap, h)
    ensures SystemOk(cap, StateOf(cap, h))
  {
    match h
    case Start =>
    case Then(before, e) =>
      HistoriesKeep(cap, before);
      NextKeeps(cap, StateOf(cap, before), e);
  }

  // ----- what it means -----

  /** In every interleaving: no wake-up is lost, the map stays within its cap, and each document's deliveries
      follow enqueue order. */
  lemma NoLostWakeUp(cap: nat, h: History)
    requires cap > 0 && IsHistory(cap, h)
    ensures var s := StateOf(cap, h);
      && (s.pending != map[] ==> WillLook(s))
      && |s.pending| <= cap
      && forall i, j :: 0 <= i < j < |s.delivered| ==> InOrder(s.delivered[i], s.delivered[j])
  {
    HistoriesKeep(cap, h);
  }

  /** Nothing is under way. */
  predicate Quiet(s: System) {
    s.worker.Waiting? && !s.wake && s.sending == 0
  }

  /** `item` was delivered, and nothing of its document after it. */
  predicate DeliveredLast(delivered: seq<Item>, item: Item) {
    exists i :: 0 <= i < |delivered| && delivered[i] == item && NothingAfter(delivered, i)
  }

  predicate NothingAfter(delivered: seq<Item>, i: nat)
    requires i < |delivered|
  {
    forall j :: i < j < |delivered| ==> delivered[j].uri != delivered[i].uri
  }

  /** Once things are quiet, the last publication of every document has been delivered, after all others of that
      document, unless it was evicted at the cap. */
  lemma QuietMeansDelivered(cap: nat, h: History, uri: Uri)
    requires cap > 0 && IsHistory(cap, h) && Quiet(StateOf(cap, h)) && uri in StateOf(cap, h).latest
    ensures var s := StateOf(cap, h);
      && s.pending == map[]
      && (DeliveredLast(s.delivered, s.latest[uri]) || s.latest[uri] in s.evicted)
  {
    HistoriesKeep(cap, h);
    var s := StateOf(cap, h);
    assert Accounted(s, uri);
    if s.latest[uri] in s.delivered { LatestIsLast(s, uri); }
  }

  lemma LatestIsLast(s: System, uri: Uri)
    requires NumbersOk(s) && uri in s.latest && s.latest[uri].uri == uri && s.latest[uri] in s.delivered
    requires forall i, j :: 0 <= i < j < |s.delivered| ==> InOrder(s.delivered[i], s.delivered[j])
    ensures DeliveredLast(s.delivered, s.latest[uri])
  {
    var i :| 0 <= i < |s.delivered| && s.delivered[i] == s.latest[uri];
    forall j | i < j < |s.delivered| ensures s.delivered[j].uri != uri {
      assert InOrder(s.delivered[i], s.delivered[j]) && NotNewer(s.delivered[j], s.latest);
    }
    assert NothingAfter(s.delivered, i);
  }

  // ----- evictions -----

  /** `h` ends with the insertion of a document that was not pending, into a full map, and `item` made room for it. */
  predicate EvictsAtCap(cap: nat, h: History, item: Item) {
    && h.Then? && h.event.Insert?
    && var s := StateOf(cap, h.before);
       && h.event.uri !in s.pending && |s.pending| == cap
       && h.event.victim in s.pending && s.pending[h.event.victim] == item
  }

  predicate IsPrefix(p: History, h: History) {
    p == h || (h.Then? && IsPrefix(p, h.before))
  }

  /** Nothing is evicted but at the cap. */
  lemma {:induction false} EvictedAtCap(cap: nat, h: History, item: Item) returns (p: History)
    requires cap > 0 && IsHistory(cap, h) && item in StateOf(cap, h).evicted
    ensures IsPrefix(p, h) && IsHistory(cap, p) && EvictsAtCap(cap, p, item)
  {
    if item in StateOf(cap, h.before).evicted {
      p := EvictedAtCap(cap, h.before, item);
    } else {
      HistoriesKeep(cap, h.before);
      p := h;
    }
  }

  /** The documents a history enqueues publications for. */
  function Documents(h: History): set<Uri> {
    if h.Start? then {} else if h.event.Insert? then Documents(h.before) + {h.event.uri} else Documents(h.before)
  }

  lemma {:induction false} PendingAreEnqueued(cap: nat, h: History)
    requires cap > 0 && IsHistory(cap, h)
    ensures StateOf(cap, h).pending.Keys <= Documents(h)
  {
    if h.Then? { PendingAreEnqueued(cap, h.before); }
  }

  lemma {:induction false} DocumentsGrow(p: History, h: History)
    requires IsPrefix(p, h)
    ensures Documents(p) <= Documents(h)
  {
    if p != h { DocumentsGrow(p, h.before); }
  }

  lemma SmallerSet(a: set<Uri>, b: set<Uri>)
    requires a <= b
    ensures |a| <= |b|
  {
    assert b == a + (b - a);
  }

  /** While no more documents than the cap are concerned, nothing is ever evicted. */
  lemma FewDocumentsEvictNone(cap: nat, h: History)
    requires cap > 0 && IsHistory(cap, h) && |Documents(h)| <= cap
    ensures StateOf(cap, h).evicted == {}
  {
    if item :| item in StateOf(cap, h).evicted {
      var p := EvictedAtCap(cap, h, item);
      DocumentsGrow(p, h);
      PendingAreEnqueued(cap, p.before);
      var full := StateOf(cap, p.before).pending.Keys;
      SmallerSet(full + {p.event.uri}, Documents(h));
      assert false;
    }
  }

  /** Then, once things are quiet, the last publication of every document has been delivered last. */
  lemma FewDocumentsAreDelivered(cap: nat, h: History, uri: Uri)
    requires cap > 0 && IsHistory(cap, h) && Quiet(StateOf(cap, h)) && uri in StateOf(cap, h).latest
    requires |Documents(h)| <= cap
    ensures DeliveredLast(StateOf(cap, h).delivered, StateOf(cap, h).latest[uri])
  {
    FewDocumentsEvictNone(cap, h);
    QuietMeansDelivered(cap, h, uri);
  }

  // ----- progress -----

  function Work(s: System): nat {
    4 * s.sending + (if s.wake then 3 else 0) + 4 * |s.pending| + 2 * |Batch(s)|
    + (if s.worker.Waiting? then 0 else if s.worker.Draining? then 1 else 2)
  }

  /** Without new insertions every step uses up work, so the system becomes quiet. */
  lemma StepsUseUpWork(cap: nat, s: System, e: Event)
    requires SystemOk(cap, s) && Enabled(cap, s, e) && !e.Insert?
    ensures Work(Next(cap, s, e)) < Work(s)
  {
    if e.Take? && e.order == [] { assert |s.pending| == 0; }
  }

  lemma {:induction false} ListingExists(pending: map<Uri, Item>) returns (order: seq<Item>)
    requires forall uri :: uri in pending ==> pending[uri].uri == uri
    ensures Lists(order, pending)
    decreases |pending|
  {
    if pending == map[] {
      order := [];
    } else {
      var uri :| uri in pending;
      var rest := pending - {uri};
      assert pending.Keys == rest.Keys + {uri};
      assert |rest.Keys| == |pending.Keys| - 1;
      var tail := ListingExists(rest);
      order := [pending[uri]] + tail;
    }
  }

  /** A system that is not quiet can always take a step of its own. */
  lemma NotQuietCanStep(cap: nat, s: System) returns (e: Event)
    requires SystemOk(cap, s) && !Quiet(s)
    ensures !e.Insert? && Enabled(cap, s, e)
  {
    if s.sending > 0 {
      e := Send;
    } else if s.worker.Draining? {
      var order := ListingExists(s.pending);
      e := Take(order);
    } else if s.worker.Publishing? {
      e := Publish;
    } else {
      e := Receive;
    }
  }

  /** `later` continues `h` without new insertions. */
  predicate Continues(h: History, later: History) {
    later == h || (later.Then? && !later.event.Insert? && Continues(h, later.before))
  }

  function Length(h: History): nat {
    if h.Start? then 0 else 1 + Length(h.before)
  }

  /** However it is scheduled, the system takes no more steps of its own than there was work. */
  lemma {:induction false} OwnStepsAreBounded(cap: nat, h: History, later: History)
    requires cap > 0 && IsHistory(cap, later) && Continues(h, later)
    ensures IsHistory(cap, h) && Length(later) - Length(h) + Work(StateOf(cap, later)) <= Work(StateOf(cap, h))
  {
    if later != h {
      OwnStepsAreBounded(cap, h, later.before);
      HistoriesKeep(cap, later.before);
      StepsUseUpWork(cap, StateOf(cap, later.before), later.event);
    }
  }

  /** Every interleaving can run on to a quiet state, where by then everything not evicted is delivered. */
  lemma {:induction false} EverythingSettles(cap: nat, h: History) returns (later: History)
    requires cap > 0 && IsHistory(cap, h)
    ensures IsHistory(cap, later) && Continues(h, later) && Quiet(StateOf(cap, later))
    decreases Work(StateOf(cap, h))
  {
    HistoriesKeep(cap, h);
    var s := StateOf(cap, h);
    if Quiet(s) {
      later := h;
    } else {
      var e := NotQuietCanStep(cap, s);
      StepsUseUpWork(cap, s, e);
      later := EverythingSettles(cap, Then(h, e));
      ContinuesFrom(h, e, later);
    }
  }

  lemma {:induction false} ContinuesFrom(h: History, e: Event, later: History)
    requires !e.Insert? && Continues(Then(h, e), later)
    ensures Continues(h, later)
  {
    if later != Then(h, e) { ContinuesFrom(h, e, later.before); }
  }

  // ----- the publisher as it is updated in place -----

  class DiagnosticsPublisher {
    const cap: nat
    var pending: map<Uri, Item>
    var wake: bool

    constructor (cap: nat)
      ensures this.cap == cap && pending == map[] && !wake
    {
      this.cap := cap;
      pending, wake := map[], false;
    }

    /** `enqueue`, its locked part and then its send; `first` is the key the map iterates first. */
    method Enqueue(item: Item, first: Uri)
      requires pending != map[] ==> first in pending
      modifies this
      ensures pending == Inserted(cap, old(pending), item, first) && wake
    {
      if item.uri !in pending && |pending| >= cap && pending != map[] {
        pending := pending - {first};
      }
      pending := pending[item.uri := item];
      wake := true;
    }

    /** `take_pending`: empty the map into a list. */
    method TakePending() returns (items: seq<Item>)
      requires forall uri :: uri in pending ==> pending[uri].uri == uri
      modifies this
      ensures pending == map[] && Lists(items, old(pending)) && wake == old(wake)
    {
      items := [];
      while pending != map[]
        invariant forall uri :: uri in pending ==> uri in old(pending) && pending[uri] == old(pending)[uri]
        invariant |items| + |pending| == |old(pending)| && wake == old(wake)
        invariant forall i :: 0 <= i < |items| ==>
          items[i].uri !in pending && items[i].uri in old(pending) && old(pending)[items[i].uri] == items[i]
        invariant forall i, j :: 0 <= i < j < |items| ==> items[i].uri != items[j].uri
        decreases |pending|
      {
        var uri :| uri in pending;
        var rest := pending - {uri};
        assert pending.Keys == rest.Keys + {uri};
        assert |rest.Keys| == |pending.Keys| - 1;
        items := items + [pending[uri]];
        pending := rest;
      }
    }
  }
}
