/** The text the client has, told by its notifications alone, and what the store makes of it.

    A notification that the store has to refuse does not count: a text beyond the size limit, or a version that is not
    newer. A change that cannot be applied leaves the client's text unknown, until the client sends a whole text. */
module ClientText {
  import opened TextPositions
  import D = DocumentStore

  datatype View = Absent | Known(text: string, version: int) | Unknown(version: int)

  predicate FitsLimit(text: string) {
    ByteLength(text) <= D.MAX_DOCUMENT_BYTES
  }

  ghost predicate Turns(text: string, change: Change, next: string) {
    Applies(text, change) && next == Spliced(text, change) && FitsLimit(next)
  }

  ghost predicate LinkAt(texts: seq<string>, changes: seq<Change>, i: nat)
    requires |texts| == |changes| + 1 && i < |changes|
  {
    Turns(texts[i], changes[i], texts[i + 1])
  }

  /** The texts before, between and after the changes of one notification. */
  ghost predicate IsChain(texts: seq<string>, changes: seq<Change>) {
    |texts| == |changes| + 1 && forall i: nat :: i < |changes| ==> LinkAt(texts, changes, i)
  }

  ghost predicate EditsVia(text: string, changes: seq<Change>, result: string, texts: seq<string>) {
    IsChain(texts, changes) && texts[0] == text && texts[|changes|] == result
  }

  /** The changes, one after the other, turn `text` into `result`, never beyond the size limit. */
  ghost predicate Edits(text: string, changes: seq<Change>, result: string) {
    exists texts :: EditsVia(text, changes, result, texts)
  }

  /** The client's text after changes to `text`. */
  ghost function EditedTo(text: string, changes: seq<Change>, version: int): View {
    if result :| Edits(text, changes, result) then Known(result, version) else Unknown(version)
  }

  /** One notification about `uri`. */
  ghost function Notified(view: View, e: D.Event, uri: D.Uri): View {
    match e
    case Opens(u, text, version) =>
      if u == uri && FitsLimit(text) && (view.Absent? || view.version < version) then Known(text, version) else view
    case Saves(u, text) =>
      if u == uri && FitsLimit(text) && !view.Absent? then Known(text, view.version) else view
    case Changes(u, version, changes) =>
      if u != uri || view.Absent? || version <= view.version then view
      else if view.Known? then EditedTo(view.text, changes, version)
      else if changes != [] && changes[0].range.None? then EditedTo("", changes, version)
      else Unknown(version)
    case Closes(u) => if u == uri then Absent else view
    case _ => view
  }

  ghost function ViewAfter(events: seq<D.Event>, uri: D.Uri): View {
    if events == [] then Absent
    else Notified(ViewAfter(events[..|events| - 1], uri), events[|events| - 1], uri)
  }

  // ----- edits -----

  lemma {:induction false} ChainExists(text: string, changes: seq<Change>) returns (texts: seq<string>)
    requires D.EditAll(text, changes).Edited?
    ensures EditsVia(text, changes, D.EditAll(text, changes).text, texts)
    decreases changes
  {
    texts := [text];
    if changes != [] {
      var rest := ChainExists(Spliced(text, changes[0]), changes[1..]);
      texts := [text] + rest;
      assert Turns(text, changes[0], rest[0]);
      LongerChain(text, rest, changes);
    }
  }

  lemma LongerChain(text: string, rest: seq<string>, changes: seq<Change>)
    requires changes != [] && IsChain(rest, changes[1..]) && Turns(text, changes[0], rest[0])
    ensures IsChain([text] + rest, changes)
  {
    var texts := [text] + rest;
    forall i: nat | i < |changes| ensures LinkAt(texts, changes, i) {
      if i > 0 {
        assert LinkAt(rest, changes[1..], i - 1);
        assert changes[i] == changes[1..][i - 1] && texts[i] == rest[i - 1] && texts[i + 1] == rest[i];
      }
    }
  }

  lemma ShorterChain(texts: seq<string>, changes: seq<Change>)
    requires changes != [] && IsChain(texts, changes)
    ensures IsChain(texts[1..], changes[1..])
  {
    forall i: nat | i < |changes| - 1 ensures LinkAt(texts[1..], changes[1..], i) {
      assert LinkAt(texts, changes, i + 1);
      assert changes[1..][i] == changes[i + 1] && texts[1..][i] == texts[i + 1] && texts[1..][i + 1] == texts[i + 2];
    }
  }

  lemma {:induction false} ChainIsEditAll(text: string, changes: seq<Change>, result: string, texts: seq<string>)
    requires EditsVia(text, changes, result, texts)
    ensures D.EditAll(text, changes) == D.Edited(result)
    decreases changes
  {
    if changes != [] {
      assert LinkAt(texts, changes, 0);
      ShorterChain(texts, changes);
      ChainIsEditAll(texts[1], changes[1..], result, texts[1..]);
    }
  }

  /** The store's edit succeeds exactly if there is such a chain, and gives its last text. */
  lemma EditAllIsChain(text: string, changes: seq<Change>, result: string)
    ensures Edits(text, changes, result) <==> D.EditAll(text, changes) == D.Edited(result)
  {
    if Edits(text, changes, result) {
      var texts :| EditsVia(text, changes, result, texts);
      ChainIsEditAll(text, changes, result, texts);
    }
    if D.EditAll(text, changes) == D.Edited(result) { var texts := ChainExists(text, changes); }
  }

  lemma EditedToIsEditAll(text: string, changes: seq<Change>, version: int)
    ensures var edit := D.EditAll(text, changes);
      EditedTo(text, changes, version) == if edit.Edited? then Known(edit.text, version) else Unknown(version)
  {
    forall result ensures Edits(text, changes, result) <==> D.EditAll(text, changes) == D.Edited(result) {
      EditAllIsChain(text, changes, result);
    }
  }

  /** A whole text makes what was there before irrelevant. */
  lemma WholeTextForgets(a: string, b: string, changes: seq<Change>)
    requires changes != [] && changes[0].range.None?
    ensures D.EditAll(a, changes) == D.EditAll(b, changes)
  {
  }

  // ----- the store follows the client -----

  ghost predicate Matches(s: D.Store, uri: D.Uri, view: View) {
    match view
    case Absent => uri !in s.documents
    case Known(text, version) =>
      && uri in s.documents && s.documents[uri].sync == D.Synchronized
      && s.documents[uri].text == text && s.documents[uri].version == version
    case Unknown(version) =>
      uri in s.documents && s.documents[uri].sync == D.Desynchronized && s.documents[uri].version == version
  }

  lemma ChangeMatches(keyOf: D.KeyOf, sys: D.System, uri: D.Uri, version: int, changes: seq<Change>, view: View)
    requires Matches(sys.store, uri, view)
    ensures var e := D.Changes(uri, version, changes);
      Matches(D.Next(keyOf, sys, e).store, uri, Notified(view, e, uri))
  {
    if view.Known? {
      EditedToIsEditAll(view.text, changes, version);
    } else if view.Unknown? && changes != [] && changes[0].range.None? {
      EditedToIsEditAll("", changes, version);
      WholeTextForgets("", sys.store.documents[uri].text, changes);
    }
  }

  lemma OtherChangesLeave(keyOf: D.KeyOf, s: D.Store, changed: D.Uri, version: int, changes: seq<Change>, uri: D.Uri)
    requires changed != uri
    ensures var s' := D.ChangeDocument(keyOf, s, changed, version, changes).0;
      && (uri in s.documents <==> uri in s'.documents)
      && (uri in s.documents ==> s'.documents[uri] == s.documents[uri])
  {
  }

  lemma NextMatches(keyOf: D.KeyOf, sys: D.System, e: D.Event, uri: D.Uri, view: View)
    requires Matches(sys.store, uri, view)
    ensures Matches(D.Next(keyOf, sys, e).store, uri, Notified(view, e, uri))
  {
    match e
    case Changes(u, version, changes) =>
      if u == uri { ChangeMatches(keyOf, sys, uri, version, changes, view); }
      else { OtherChangesLeave(keyOf, sys.store, u, version, changes, uri); }
    case _ =>
  }

  /** After every run: a document is open in the store exactly if the client has it open, it is synchronized exactly if
      the client's text is known, and then the stored text and version are the client's. */
  lemma {:induction false} StoreHasTheClientsText(keyOf: D.KeyOf, events: seq<D.Event>, uri: D.Uri)
    ensures Matches(D.After(keyOf, events).store, uri, ViewAfter(events, uri))
  {
    if events != [] {
      var before, last := events[..|events| - 1], events[|events| - 1];
      StoreHasTheClientsText(keyOf, before, uri);
      NextMatches(keyOf, D.After(keyOf, before), last, uri, ViewAfter(before, uri));
    }
  }

  /** So a job that passes the guard was computed from the client's text of every document it read. */
  lemma CommittedJobReadTheClientsTexts(keyOf: D.KeyOf, events: seq<D.Event>, job: D.Job, uri: D.Uri)
    requires var sys := D.After(keyOf, events); job in sys.jobs && D.Current(sys.store, job) && uri in job.inputs
    ensures ViewAfter(events, uri).Known? && job.inputs[uri].text == ViewAfter(events, uri).text
  {
    StoreHasTheClientsText(keyOf, events, uri);
    D.CommittedJobIsFresh(keyOf, events, job);
  }

  // ----- refused texts -----

  lemma {:induction false} KnownTextsFit(events: seq<D.Event>, uri: D.Uri)
    ensures ViewAfter(events, uri).Known? ==> FitsLimit(ViewAfter(events, uri).text)
  {
    if events != [] {
      KnownTextsFit(events[..|events| - 1], uri);
      var view, last := ViewAfter(events[..|events| - 1], uri), events[|events| - 1];
      if last.Changes? && ViewAfter(events, uri) != view && ViewAfter(events, uri).Known? {
        var text := if view.Known? then view.text else "";
        var texts :| EditsVia(text, last.changes, ViewAfter(events, uri).text, texts);
        if last.changes != [] { assert LinkAt(texts, last.changes, |last.changes| - 1); }
      }
    }
  }

  /** A saved text is what the synchronized store holds afterwards exactly if it is within the size limit. Otherwise
      the document stays as it was: the save is dropped, and a synchronized document is not suspended. */
  lemma SavedTextIsHeldIffItFits(keyOf: D.KeyOf, events: seq<D.Event>, uri: D.Uri, text: string)
    requires uri in D.After(keyOf, events).store.documents
    ensures var s, s' := D.After(keyOf, events).store, D.After(keyOf, events + [D.Saves(uri, text)]).store;
      && uri in s'.documents
      && (s'.documents[uri].sync == D.Synchronized && s'.documents[uri].text == text <==> FitsLimit(text))
      && (!FitsLimit(text) ==> s' == s)
  {
    var more := events + [D.Saves(uri, text)];
    assert more[..|more| - 1] == events;
    StoreHasTheClientsText(keyOf, events, uri);
    KnownTextsFit(events, uri);
  }
}
