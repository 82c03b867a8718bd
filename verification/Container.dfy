/** The hashed section container of a bytecode artifact.

    The digest is a parameter: the results hold for every function to 32 bytes. Header and imports are
    their CBOR values. */
module Container {
  import opened Bytes
  import opened Common
  import opened Cbor
  import opened CborCanonical
  import CborDecoder

  type Digest = d: Bytes | |d| == 32 witness seq(32, _ => 0)

  type Hash = Bytes -> Digest

  const MAGIC: Bytes := [0x52, 0x53, 0x53, 0x42, 0x43, 0, 1, 0]
  const HEADER: byte := 1
  const IMPORTS: byte := 2
  const CODE: byte := 3
  const CHECKSUM: byte := 4
  const FACTS: byte := 5
  const REQUIRED: byte := 1
  const MAX_SECTIONS: nat := 64
  const SECTION_HEADER_BYTES: nat := 42

  datatype Artifact = Artifact(header: Value, imports: Value, payload: Bytes, checksum: Bytes, facts: Option<Bytes>)

  datatype Section = Section(kind: byte, flags: byte, data: Bytes)

  // ----- bytes of sections -----

  function SectionBytes(hash: Hash, s: Section): (bs: Bytes)
    requires |s.data| < TWO_64
    ensures |bs| == SECTION_HEADER_BYTES + |s.data|
  {
    [s.kind, s.flags] + BigEndian(|s.data|, 8) + hash(s.data) + s.data
  }

  predicate Sized(ss: seq<Section>) {
    forall i :: 0 <= i < |ss| ==> |ss[i].data| < TWO_64
  }

  function SectionsBytes(hash: Hash, ss: seq<Section>): Bytes
    requires Sized(ss)
  {
    if ss == [] then [] else SectionBytes(hash, ss[0]) + SectionsBytes(hash, ss[1..])
  }

  function Layout(hash: Hash, ss: seq<Section>): Bytes
    requires Sized(ss)
  {
    MAGIC + BigEndian(|ss|, 2) + SectionsBytes(hash, ss)
  }

  datatype Parsed = Malformed | Parsed(section: Section, rest: Bytes)

  /** One section off the front: kind, flags, length, digest and data, the digest checked. */
  function ParseSection(hash: Hash, body: Bytes): Parsed {
    if |body| < SECTION_HEADER_BYTES then Malformed else
    var length := FromBigEndian(body[2..10]);
    if length > |body| - SECTION_HEADER_BYTES then Malformed else
    var data := body[42..42 + length];
    if hash(data) != body[10..42] then Malformed
    else Parsed(Section(body[0], body[1], data), body[42 + length..])
  }

  lemma ParseInverts(hash: Hash, s: Section, tail: Bytes)
    requires |s.data| < TWO_64
    ensures ParseSection(hash, SectionBytes(hash, s) + tail) == Parsed(s, tail)
  {
    var body := SectionBytes(hash, s) + tail;
    Widths();
    BigEndianRoundTrip(|s.data|, 8);
    assert body[2..10] == BigEndian(|s.data|, 8);
    assert body[10..42] == hash(s.data);
    assert body[42..42 + |s.data|] == s.data;
    assert body[42 + |s.data|..] == tail;
  }

  lemma ParsedIsBytes(hash: Hash, body: Bytes)
    requires ParseSection(hash, body).Parsed?
    ensures var p := ParseSection(hash, body);
      |p.section.data| < TWO_64 && body == SectionBytes(hash, p.section) + p.rest
  {
    Widths();
    BigEndianBelow(body[2..10]);
    BigEndianOnto(body[2..10]);
    var length := FromBigEndian(body[2..10]);
    assert body == [body[0], body[1]] + body[2..10] + body[10..42] + body[42..42 + length] + body[42 + length..];
  }

  // ----- legal section lists -----

  /** The per-section checks. */
  ghost predicate SectionOk(s: Section) {
    && s.flags <= REQUIRED
    && (HEADER <= s.kind <= CHECKSUM ==> s.flags == REQUIRED)
    && (s.kind == HEADER || s.kind == IMPORTS ==> exists v :: Admits(s.data, v))
    && (s.kind == CHECKSUM ==> ValidUtf8(s.data))
    && (s.kind > CHECKSUM ==> s.flags == 0)
  }

  /** Kinds start above 0 and strictly ascend. */
  predicate KindsAscend(ss: seq<Section>) {
    && (forall i :: 0 <= i < |ss| ==> ss[i].kind > 0)
    && forall i, j :: 0 <= i < j < |ss| ==> ss[i].kind < ss[j].kind
  }

  ghost predicate Legal(ss: seq<Section>) {
    Sized(ss) && KindsAscend(ss) && forall i :: 0 <= i < |ss| ==> SectionOk(ss[i])
  }

  function Laid(header: Bytes, imports: Bytes, a: Artifact): seq<Section> {
    [Section(HEADER, REQUIRED, header), Section(IMPORTS, REQUIRED, imports),
     Section(CODE, REQUIRED, a.payload), Section(CHECKSUM, REQUIRED, a.checksum)]
    + if a.facts.Some? then [Section(FACTS, 0, a.facts.value)] else []
  }

  /** The artifact's own sections, in order. */
  ghost function Known(a: Artifact): seq<Section>
    requires WellFormed(a.header) && WellFormed(a.imports)
  {
    Laid(Encode(a.header), Encode(a.imports), a)
  }

  /** Artifacts the container can carry. */
  ghost predicate Storable(a: Artifact) {
    Good(a.header, 0) && Good(a.imports, 0) && ValidUtf8(a.checksum) && Sized(Known(a))
  }

  /** Optional sections of kinds this version does not know. */
  predicate Unknown(us: seq<Section>) {
    && Sized(us)
    && (forall i :: 0 <= i < |us| ==> us[i].kind > FACTS && us[i].flags == 0)
    && forall i, j :: 0 <= i < j < |us| ==> us[i].kind < us[j].kind
  }

  /** Magic, count, the artifact's sections, then unknown optional ones. */
  ghost predicate NormalForm(hash: Hash, bytes: Bytes, a: Artifact, unknown: seq<Section>) {
    && Storable(a) && Unknown(unknown) && |Known(a)| + |unknown| <= MAX_SECTIONS
    && bytes == Layout(hash, Known(a) + unknown)
  }

  // ----- writing -----

  lemma {:induction false} SectionsAppend(hash: Hash, a: seq<Section>, b: seq<Section>)
    requires Sized(a) && Sized(b)
    ensures Sized(a + b) && SectionsBytes(hash, a + b) == SectionsBytes(hash, a) + SectionsBytes(hash, b)
  {
    if a == [] {
      assert a + b == b;
    } else {
      assert (a + b)[0] == a[0] && (a + b)[1..] == a[1..] + b;
      SectionsAppend(hash, a[1..], b);
      Regroup(SectionBytes(hash, a[0]), SectionsBytes(hash, a[1..]), SectionsBytes(hash, b));
    }
  }

  lemma Regroup(a: Bytes, b: Bytes, c: Bytes)
    ensures a + (b + c) == a + b + c
  {
  }

  lemma OneSection(hash: Hash, s: Section)
    requires |s.data| < TWO_64
    ensures Sized([s]) && SectionsBytes(hash, [s]) == SectionBytes(hash, s)
  {
    assert SectionsBytes(hash, [s][1..]) == [];
    assert SectionBytes(hash, s) + [] == SectionBytes(hash, s);
  }

  method ToBytes(hash: Hash, a: Artifact) returns (r: Option<Bytes>)
    requires WellFormed(a.header) && WellFormed(a.imports) && Sized(Known(a))
    ensures Fits(a.header, 0) && Fits(a.imports, 0) ==> r == Some(Layout(hash, Known(a)))
    ensures !(Fits(a.header, 0) && Fits(a.imports, 0)) ==> r == None
  {
    var header := EncodeValue(a.header, [], 0);
    if header.EncodeFailed? { return None; }
    var imports := EncodeValue(a.imports, [], 0);
    if imports.EncodeFailed? { return None; }
    assert [] + Encode(a.header) == Encode(a.header) && [] + Encode(a.imports) == Encode(a.imports);
    var sections := [Section(HEADER, REQUIRED, header.bytes), Section(IMPORTS, REQUIRED, imports.bytes),
                     Section(CODE, REQUIRED, a.payload), Section(CHECKSUM, REQUIRED, a.checksum)];
    if a.facts.Some? {
      sections := sections + [Section(FACTS, 0, a.facts.value)];
    }
    assert sections == Known(a);
    var bytes := WriteSections(hash, sections);
    r := Some(bytes);
  }

  method WriteSections(hash: Hash, sections: seq<Section>) returns (bytes: Bytes)
    requires Sized(sections)
    ensures bytes == Layout(hash, sections)
  {
    var start := MAGIC + BigEndian(|sections|, 2);
    bytes := start;
    for i := 0 to |sections|
      invariant bytes == start + SectionsBytes(hash, sections[..i])
    {
      bytes := bytes + SectionBytes(hash, sections[i]);
      OneSection(hash, sections[i]);
      SectionsAppend(hash, sections[..i], [sections[i]]);
      Regroup(start, SectionsBytes(hash, sections[..i]), SectionBytes(hash, sections[i]));
      assert sections[..i] + [sections[i]] == sections[..i + 1];
    }
    assert sections[..|sections|] == sections;
  }

  // ----- reading -----

  /** The section lists the reader is looking for. */
  ghost predicate Candidate(hash: Hash, bytes: Bytes, ss: seq<Section>) {
    Legal(ss) && 1 <= |ss| <= MAX_SECTIONS && bytes == Layout(hash, ss)
  }

  /** The data of the section of a given kind. */
  function Find(ss: seq<Section>, kind: byte): Option<Bytes> {
    if ss == [] then None
    else if ss[|ss| - 1].kind == kind then Some(ss[|ss| - 1].data)
    else Find(ss[..|ss| - 1], kind)
  }

  lemma {:induction false} FindPosition(ss: seq<Section>, kind: byte)
    ensures Find(ss, kind).Some? <==> exists i :: 0 <= i < |ss| && ss[i].kind == kind
    ensures Find(ss, kind).Some? ==>
      exists i :: 0 <= i < |ss| && ss[i].kind == kind && ss[i].data == Find(ss, kind).value
  {
    if ss != [] && ss[|ss| - 1].kind != kind {
      var init := ss[..|ss| - 1];
      FindPosition(init, kind);
      if i :| 0 <= i < |ss| && ss[i].kind == kind { assert init[i] == ss[i]; }
      if i :| 0 <= i < |init| && init[i].kind == kind && init[i].data == Find(init, kind).value {
        assert ss[i] == init[i];
      }
    }
  }

  /** `decode_canonical_section`. */
  method DecodeCanonicalSection(data: Bytes) returns (r: Option<Value>)
    ensures r.Some? ==> Admits(data, r.value)
    ensures r.None? ==> forall v :: !Admits(data, v)
  {
    var decoded := CborDecoder.DecodeAll(data);
    if decoded.Failure? { return None; }
    DecodedIsGood(data, 0);
    var again := EncodeValue(decoded.value, [], 0);
    if again == Output(data) { r := Some(decoded.value); } else { r := None; }
  }

  /** What the reader has collected so far. */
  datatype Fields = Fields(header: Option<Value>, imports: Option<Value>, payload: Option<Bytes>,
                           checksum: Option<Bytes>, facts: Option<Bytes>)

  ghost predicate Holds(field: Option<Value>, data: Option<Bytes>) {
    (field.Some? <==> data.Some?) && (field.Some? ==> Admits(data.value, field.value))
  }

  ghost predicate Collected(fields: Fields, ss: seq<Section>) {
    && Holds(fields.header, Find(ss, HEADER)) && Holds(fields.imports, Find(ss, IMPORTS))
    && fields.payload == Find(ss, CODE) && fields.checksum == Find(ss, CHECKSUM) && fields.facts == Find(ss, FACTS)
  }

  /** Check one section and store what it holds. */
  method Absorb(fields: Fields, s: Section, ghost ss: seq<Section>) returns (r: Option<Fields>)
    requires Collected(fields, ss)
    ensures r.Some? <==> SectionOk(s)
    ensures r.Some? ==> Collected(r.value, ss + [s])
  {
    assert (ss + [s])[..|ss|] == ss;
    if s.flags > REQUIRED { return None; }
    if HEADER <= s.kind <= CHECKSUM && s.flags != REQUIRED { return None; }
    if s.kind == HEADER {
      var header := DecodeCanonicalSection(s.data);
      if header.None? { return None; }
      r := Some(fields.(header := header));
    } else if s.kind == IMPORTS {
      var imports := DecodeCanonicalSection(s.data);
      if imports.None? { return None; }
      r := Some(fields.(imports := imports));
    } else if s.kind == CODE {
      r := Some(fields.(payload := Some(s.data)));
    } else if s.kind == CHECKSUM {
      if !ValidUtf8(s.data) { return None; }
      r := Some(fields.(checksum := Some(s.data)));
    } else if s.kind == FACTS {
      if s.flags == REQUIRED { return None; }
      r := Some(fields.(facts := Some(s.data)));
    } else if s.kind > FACTS && s.flags == REQUIRED {
      return None;
    } else {
      r := Some(fields);
    }
  }

  lemma StripLayout(hash: Hash, bytes: Bytes, ss: seq<Section>)
    requires Candidate(hash, bytes, ss)
    ensures |bytes| >= 10 && bytes[..8] == MAGIC && FromBigEndian(bytes[8..10]) == |ss| &&
      bytes[10..] == SectionsBytes(hash, ss)
  {
    Widths();
    BigEndianRoundTrip(|ss|, 2);
    assert bytes[8..10] == BigEndian(|ss|, 2);
    assert bytes[..8] == MAGIC;
  }

  function PreviousKind(ss: seq<Section>): int {
    if ss == [] then 0 else ss[|ss| - 1].kind
  }

  /** The next section of any candidate is what the reader parses. */
  lemma CandidateStep(hash: Hash, bytes: Bytes, c: seq<Section>, i: nat, body: Bytes)
    requires Candidate(hash, bytes, c) && i < |c| && body == SectionsBytes(hash, c[i..])
    ensures ParseSection(hash, body) == Parsed(c[i], SectionsBytes(hash, c[i + 1..]))
    ensures SectionOk(c[i]) && c[i].kind > PreviousKind(c[..i])
  {
    assert c[i..][0] == c[i] && c[i..][1..] == c[i + 1..];
    ParseInverts(hash, c[i], SectionsBytes(hash, c[i + 1..]));
  }

  /** `c` starts with what has been read and goes on with what is left. */
  ghost predicate Continues(hash: Hash, c: seq<Section>, count: nat, ss: seq<Section>, body: Bytes) {
    Sized(c) && |c| == count && |ss| <= count && c[..|ss|] == ss && body == SectionsBytes(hash, c[|ss|..])
  }

  ghost predicate OnTrack(hash: Hash, bytes: Bytes, count: nat, ss: seq<Section>, body: Bytes) {
    forall c :: Candidate(hash, bytes, c) ==> Continues(hash, c, count, ss, body)
  }

  /** What a reader standing before a candidate's next section must find. */
  ghost predicate Acceptable(p: Parsed, ss: seq<Section>) {
    p.Parsed? && SectionOk(p.section) && p.section.kind > PreviousKind(ss)
  }

  lemma ContinuesStep(hash: Hash, bytes: Bytes, c: seq<Section>, count: nat, ss: seq<Section>, body: Bytes)
    requires Candidate(hash, bytes, c) && Continues(hash, c, count, ss, body) && |ss| < count
    ensures var p := ParseSection(hash, body);
      Acceptable(p, ss) && Continues(hash, c, count, ss + [p.section], p.rest)
  {
    CandidateStep(hash, bytes, c, |ss|, body);
    assert c[..|ss| + 1] == c[..|ss|] + [c[|ss|]];
  }

  lemma OnTrackStep(hash: Hash, bytes: Bytes, count: nat, ss: seq<Section>, body: Bytes)
    requires OnTrack(hash, bytes, count, ss, body) && |ss| < count
    ensures forall c :: Candidate(hash, bytes, c) ==> Acceptable(ParseSection(hash, body), ss)
    ensures var p := ParseSection(hash, body);
      p.Parsed? ==> OnTrack(hash, bytes, count, ss + [p.section], p.rest)
  {
    var p := ParseSection(hash, body);
    forall c | Candidate(hash, bytes, c)
      ensures Acceptable(p, ss) && Continues(hash, c, count, ss + [p.section], p.rest)
    {
      ContinuesStep(hash, bytes, c, count, ss, body);
    }
  }

  lemma LegalExtends(ss: seq<Section>, s: Section)
    requires Legal(ss) && SectionOk(s) && |s.data| < TWO_64 && s.kind > PreviousKind(ss)
    ensures Legal(ss + [s])
  {
    forall i | 0 <= i < |ss| ensures ss[i].kind < s.kind {
      if i < |ss| - 1 { assert ss[i].kind < ss[|ss| - 1].kind; }
    }
  }

  /** Read the section table: all of a candidate's sections, or nothing when there is no candidate. */
  method ReadSections(hash: Hash, bytes: Bytes) returns (r: Option<Fields>, ghost ss: seq<Section>)
    ensures r.Some? ==> Candidate(hash, bytes, ss) && Collected(r.value, ss)
    ensures r.None? ==> forall c :: !Candidate(hash, bytes, c)
  {
    ss := [];
    forall c | Candidate(hash, bytes, c)
      ensures |bytes| >= 10 && bytes[..8] == MAGIC && FromBigEndian(bytes[8..10]) == |c| &&
        bytes[10..] == SectionsBytes(hash, c)
    {
      StripLayout(hash, bytes, c);
    }
    if |bytes| < 10 || bytes[..8] != MAGIC { return None, ss; }
    var count := FromBigEndian(bytes[8..10]);
    if count == 0 || count > MAX_SECTIONS { return None, ss; }
    var body := bytes[10..];
    var fields := Fields(None, None, None, None, None);
    var previous := 0;
    OnTrackStarts(hash, bytes, count, body);
    for i := 0 to count
      invariant |ss| == i && Legal(ss) && previous == PreviousKind(ss)
      invariant bytes[10..] == SectionsBytes(hash, ss) + body
      invariant OnTrack(hash, bytes, count, ss, body)
      invariant Collected(fields, ss)
    {
      OnTrackStep(hash, bytes, count, ss, body);
      var parsed := ParseSection(hash, body);
      if parsed.Malformed? || parsed.section.kind <= previous { return None, ss; }
      var absorbed := Absorb(fields, parsed.section, ss);
      if absorbed.None? { return None, ss; }
      ReadStep(hash, ss, body);
      LegalExtends(ss, parsed.section);
      ss := ss + [parsed.section];
      fields, previous, body := absorbed.value, parsed.section.kind, parsed.rest;
    }
    if body != [] { return None, ss; }
    ReadAll(hash, bytes, ss);
    r := Some(fields);
  }

  lemma OnTrackStarts(hash: Hash, bytes: Bytes, count: nat, body: Bytes)
    requires |bytes| >= 10 && count == FromBigEndian(bytes[8..10]) && body == bytes[10..]
    ensures OnTrack(hash, bytes, count, [], body)
  {
    forall c | Candidate(hash, bytes, c) ensures Continues(hash, c, count, [], body) {
      StripLayout(hash, bytes, c);
      assert c[0..] == c;
    }
  }

  lemma ReadStep(hash: Hash, ss: seq<Section>, body: Bytes)
    requires Sized(ss) && ParseSection(hash, body).Parsed?
    ensures var p := ParseSection(hash, body);
      && |p.section.data| < TWO_64
      && Sized(ss + [p.section])
      && SectionsBytes(hash, ss + [p.section]) + p.rest == SectionsBytes(hash, ss) + body
  {
    ParsedIsBytes(hash, body);
    var p := ParseSection(hash, body);
    OneSection(hash, p.section);
    SectionsAppend(hash, ss, [p.section]);
    Regroup(SectionsBytes(hash, ss), SectionBytes(hash, p.section), p.rest);
  }

  lemma ReadAll(hash: Hash, bytes: Bytes, ss: seq<Section>)
    requires |bytes| >= 10 && bytes[..8] == MAGIC && FromBigEndian(bytes[8..10]) == |ss| && Sized(ss)
    requires bytes[10..] == SectionsBytes(hash, ss) + []
    ensures bytes == Layout(hash, ss)
  {
    BigEndianOnto(bytes[8..10]);
    assert bytes == bytes[..8] + bytes[8..10] + bytes[10..];
  }

  // ----- normal form -----

  ghost predicate Has(ss: seq<Section>, kind: int) {
    exists i :: 0 <= i < |ss| && ss[i].kind == kind
  }

  /** A strictly ascending table that holds kinds 1 to n starts with them. */
  lemma {:induction false} KindsInPlace(ss: seq<Section>, n: nat)
    requires KindsAscend(ss) && forall k :: 1 <= k <= n ==> Has(ss, k)
    ensures |ss| >= n && forall i :: 0 <= i < n ==> ss[i].kind == i + 1
  {
    if n > 0 {
      KindsInPlace(ss, n - 1);
      assert Has(ss, n);
      var i :| 0 <= i < |ss| && ss[i].kind == n;
      assert i >= n - 1;
      if n > 1 { assert ss[n - 2].kind < ss[n - 1].kind; }
    }
  }

  /** The artifact a complete reading describes. */
  function ArtifactOf(fields: Fields): Artifact
    requires fields.header.Some? && fields.imports.Some? && fields.payload.Some? && fields.checksum.Some?
  {
    Artifact(fields.header.value, fields.imports.value, fields.payload.value, fields.checksum.value, fields.facts)
  }

  ghost predicate Complete(fields: Fields) {
    fields.header.Some? && fields.imports.Some? && fields.payload.Some? && fields.checksum.Some?
  }

  lemma SectionAt(ss: seq<Section>, k: byte)
    requires Legal(ss) && 1 <= k <= |ss| && ss[k - 1].kind == k
    ensures Find(ss, k) == Some(ss[k - 1].data)
  {
    FindPosition(ss, k);
    assert ss[k - 1].kind == k;
    var i :| 0 <= i < |ss| && ss[i].kind == k && ss[i].data == Find(ss, k).value;
    assert i == k - 1;
  }

  lemma FirstFour(ss: seq<Section>, fields: Fields)
    requires Legal(ss) && Collected(fields, ss) && Complete(fields)
    ensures |ss| >= 4 && forall i :: 0 <= i < 4 ==> ss[i].kind == i + 1
  {
    FindPosition(ss, HEADER);
    FindPosition(ss, IMPORTS);
    FindPosition(ss, CODE);
    FindPosition(ss, CHECKSUM);
    assert Has(ss, 1) && Has(ss, 2) && Has(ss, 3) && Has(ss, 4);
    KindsInPlace(ss, 4);
  }

  function KnownCount(fields: Fields): nat {
    if fields.facts.Some? then 5 else 4
  }

  lemma CompleteIsNormal(hash: Hash, bytes: Bytes, ss: seq<Section>, fields: Fields)
    requires Candidate(hash, bytes, ss) && Collected(fields, ss) && Complete(fields)
    ensures KnownCount(fields) <= |ss| && NormalForm(hash, bytes, ArtifactOf(fields), ss[KnownCount(fields)..])
  {
    var n := KnownCount(fields);
    KnownPrefix(ss, fields);
    FirstFour(ss, fields);
    FactsInPlace(ss, fields);
    assert ss == ss[..n] + ss[n..];
  }

  lemma KnownPrefix(ss: seq<Section>, fields: Fields)
    requires Legal(ss) && Collected(fields, ss) && Complete(fields)
    ensures KnownCount(fields) <= |ss| && Storable(ArtifactOf(fields)) &&
      ss[..KnownCount(fields)] == Known(ArtifactOf(fields))
  {
    var a, n := ArtifactOf(fields), KnownCount(fields);
    FirstFour(ss, fields);
    FactsInPlace(ss, fields);
    SectionAt(ss, HEADER);
    SectionAt(ss, IMPORTS);
    SectionAt(ss, CODE);
    SectionAt(ss, CHECKSUM);
    GateIsImage(ss[0].data, a.header);
    GateIsImage(ss[1].data, a.imports);
    assert forall i :: 0 <= i < n ==> SectionOk(ss[i]);
    assert ss[..n] == Known(a);
  }

  lemma FactsInPlace(ss: seq<Section>, fields: Fields)
    requires Legal(ss) && Collected(fields, ss) && |ss| >= 4 && forall i :: 0 <= i < 4 ==> ss[i].kind == i + 1
    ensures fields.facts.Some? ==> |ss| >= 5 && ss[4].kind == FACTS && ss[4].data == fields.facts.value
    ensures forall i :: KnownCount(fields) <= i < |ss| ==> ss[i].kind > FACTS && ss[i].flags == 0
  {
    FindPosition(ss, FACTS);
    if fields.facts.Some? {
      var i :| 0 <= i < |ss| && ss[i].kind == FACTS && ss[i].data == fields.facts.value;
      assert ss[3].kind < ss[4].kind;
      assert i == 4;
    }
    forall i | KnownCount(fields) <= i < |ss| ensures ss[i].kind > FACTS && ss[i].flags == 0 {
      assert ss[3].kind < ss[i].kind && SectionOk(ss[i]);
    }
  }

  lemma EncodedSectionOk(kind: byte, v: Value)
    requires (kind == HEADER || kind == IMPORTS) && Good(v, 0)
    ensures SectionOk(Section(kind, REQUIRED, Encode(v)))
  {
    GateIsImage(Encode(v), v);
  }

  lemma KnownIsLegal(a: Artifact)
    requires Storable(a)
    ensures Legal(Known(a)) && forall i :: 0 <= i < |Known(a)| ==> Known(a)[i].kind <= FACTS
  {
    EncodedSectionOk(HEADER, a.header);
    EncodedSectionOk(IMPORTS, a.imports);
    KnownKinds(Encode(a.header), Encode(a.imports), a);
  }

  lemma KnownKinds(header: Bytes, imports: Bytes, a: Artifact)
    requires SectionOk(Section(HEADER, REQUIRED, header)) && SectionOk(Section(IMPORTS, REQUIRED, imports))
    requires ValidUtf8(a.checksum) && Sized(Laid(header, imports, a))
    ensures Legal(Laid(header, imports, a)) && forall i :: 0 <= i < |Laid(header, imports, a)| ==>
      Laid(header, imports, a)[i].kind <= FACTS
  {
  }

  lemma AppendUnknown(ks: seq<Section>, us: seq<Section>)
    requires Legal(ks) && Unknown(us) && forall i :: 0 <= i < |ks| ==> ks[i].kind <= FACTS
    ensures Legal(ks + us)
  {
    var ss := ks + us;
    forall i | 0 <= i < |ss| ensures SectionOk(ss[i]) && ss[i].kind > 0 && |ss[i].data| < TWO_64 {
      if i < |ks| { assert ss[i] == ks[i]; } else { assert ss[i] == us[i - |ks|]; }
    }
    forall i, j | 0 <= i < j < |ss| ensures ss[i].kind < ss[j].kind {
      if j < |ks| { assert ss[i] == ks[i] && ss[j] == ks[j]; }
      else if i < |ks| { assert ss[i] == ks[i] && ss[j] == us[j - |ks|]; }
      else { assert ss[i] == us[i - |ks|] && ss[j] == us[j - |ks|]; }
    }
  }

  lemma NormalIsCandidate(hash: Hash, bytes: Bytes, a: Artifact, unknown: seq<Section>)
    requires NormalForm(hash, bytes, a, unknown)
    ensures Candidate(hash, bytes, Known(a) + unknown)
  {
    KnownIsLegal(a);
    AppendUnknown(Known(a), unknown);
  }

  /** The reader accepts exactly the normal forms, and returns the artifact they were made from. */
  method FromBytes(hash: Hash, bytes: Bytes) returns (r: Option<Artifact>)
    ensures r.Some? ==> exists unknown :: NormalForm(hash, bytes, r.value, unknown)
    ensures r.None? ==> forall a, unknown :: !NormalForm(hash, bytes, a, unknown)
  {
    var fields, ss := ReadSections(hash, bytes);
    if fields.None? {
      forall a, unknown ensures !NormalForm(hash, bytes, a, unknown) {
        if NormalForm(hash, bytes, a, unknown) { NormalIsCandidate(hash, bytes, a, unknown); }
      }
      return None;
    }
    var f := fields.value;
    if f.header.None? || f.imports.None? || f.payload.None? || f.checksum.None? {
      forall a, unknown ensures !NormalForm(hash, bytes, a, unknown) {
        if NormalForm(hash, bytes, a, unknown) { NormalIsComplete(hash, bytes, a, unknown, ss, f); }
      }
      return None;
    }
    CompleteIsNormal(hash, bytes, ss, f);
    r := Some(ArtifactOf(f));
  }

  /** The section list of a byte string is determined. */
  lemma {:induction false} SectionsInjective(hash: Hash, a: seq<Section>, b: seq<Section>)
    requires Sized(a) && Sized(b) && |a| == |b| && SectionsBytes(hash, a) == SectionsBytes(hash, b)
    ensures a == b
  {
    if a != [] {
      ParseInverts(hash, a[0], SectionsBytes(hash, a[1..]));
      ParseInverts(hash, b[0], SectionsBytes(hash, b[1..]));
      SectionsInjective(hash, a[1..], b[1..]);
      assert a == [a[0]] + a[1..] && b == [b[0]] + b[1..];
    }
  }

  lemma CandidateUnique(hash: Hash, bytes: Bytes, a: seq<Section>, b: seq<Section>)
    requires Candidate(hash, bytes, a) && Candidate(hash, bytes, b)
    ensures a == b
  {
    StripLayout(hash, bytes, a);
    StripLayout(hash, bytes, b);
    SectionsInjective(hash, a, b);
  }

  lemma NormalIsComplete(hash: Hash, bytes: Bytes, a: Artifact, unknown: seq<Section>, ss: seq<Section>, fields: Fields)
    requires NormalForm(hash, bytes, a, unknown) && Candidate(hash, bytes, ss) && Collected(fields, ss)
    ensures Complete(fields)
  {
    NormalIsCandidate(hash, bytes, a, unknown);
    CandidateUnique(hash, bytes, ss, Known(a) + unknown);
    FindPosition(ss, HEADER);
    FindPosition(ss, IMPORTS);
    FindPosition(ss, CODE);
    FindPosition(ss, CHECKSUM);
    assert ss[0].kind == HEADER && ss[1].kind == IMPORTS && ss[2].kind == CODE && ss[3].kind == CHECKSUM;
  }

  /** A byte string is the normal form of at most one artifact and one list of unknown sections. */
  lemma NormalFormUnique(hash: Hash, bytes: Bytes, a: Artifact, us: seq<Section>, b: Artifact, vs: seq<Section>)
    requires NormalForm(hash, bytes, a, us) && NormalForm(hash, bytes, b, vs)
    ensures a == b && us == vs
  {
    NormalIsCandidate(hash, bytes, a, us);
    NormalIsCandidate(hash, bytes, b, vs);
    var ka, kb := Known(a), Known(b);
    CandidateUnique(hash, bytes, ka + us, kb + vs);
    assert forall i :: 0 <= i < 4 ==> (ka + us)[i] == ka[i] && (kb + vs)[i] == kb[i];
    SameCount(ka, us, kb, vs);
    assert ka == (ka + us)[..|ka|] && kb == (kb + vs)[..|kb|];
    assert us == (ka + us)[|ka|..] && vs == (kb + vs)[|kb|..];
    assert a.facts.Some? ==> ka[4].data == a.facts.value;
    assert b.facts.Some? ==> kb[4].data == b.facts.value;
    assert ka[0] == kb[0] && ka[1] == kb[1] && ka[2] == kb[2] && ka[3] == kb[3];
    GateIsImage(Encode(a.header), a.header);
    GateIsImage(Encode(b.header), b.header);
    GateIsImage(Encode(a.imports), a.imports);
    GateIsImage(Encode(b.imports), b.imports);
  }

  lemma SameCount(ka: seq<Section>, us: seq<Section>, kb: seq<Section>, vs: seq<Section>)
    requires ka + us == kb + vs && Unknown(us) && Unknown(vs) && 4 <= |ka| <= 5 && 4 <= |kb| <= 5
    requires |ka| == 5 ==> ka[4].kind == FACTS
    requires |kb| == 5 ==> kb[4].kind == FACTS
    ensures |ka| == |kb|
  {
    var whole := ka + us;
    assert |whole| > 4 ==> whole[4] == if |ka| == 5 then ka[4] else us[0];
    assert |whole| > 4 ==> whole[4] == if |kb| == 5 then kb[4] else vs[0];
  }

  lemma WrittenIsNormal(hash: Hash, a: Artifact)
    requires Storable(a)
    ensures NormalForm(hash, Layout(hash, Known(a)), a, [])
  {
    assert Known(a) + [] == Known(a);
  }

  /** `from_bytes` after `to_bytes` gives the artifact back, exactly when it is storable: encodable, and free of the
      smallest integer. */
  method WriteThenRead(hash: Hash, a: Artifact) returns (r: Option<Artifact>)
    requires WellFormed(a.header) && WellFormed(a.imports) && Sized(Known(a))
    ensures r == Some(a) <==> Storable(a)
  {
    var bytes := ToBytes(hash, a);
    if bytes.None? { return None; }
    r := FromBytes(hash, bytes.value);
    if r.Some? {
      ghost var unknown :| NormalForm(hash, bytes.value, r.value, unknown);
      if Storable(a) {
        WrittenIsNormal(hash, a);
        NormalFormUnique(hash, bytes.value, r.value, unknown, a, []);
      }
    } else if Storable(a) {
      WrittenIsNormal(hash, a);
    }
  }

  /** Writing an accepted artifact again gives back the same bytes exactly when there were no unknown
      sections to lose. */
  lemma RewriteIsIdentityIffNothingUnknown(hash: Hash, bytes: Bytes, a: Artifact, unknown: seq<Section>)
    requires NormalForm(hash, bytes, a, unknown)
    ensures Layout(hash, Known(a)) == bytes <==> unknown == []
  {
    WrittenIsNormal(hash, a);
    if Layout(hash, Known(a)) == bytes { NormalFormUnique(hash, bytes, a, unknown, a, []); }
  }

  /** `to_bytes` after `from_bytes`: on every accepted input the known sections alone, which is the input itself
      exactly when it had no others. */
  method ReadThenWrite(hash: Hash, bytes: Bytes) returns (r: Option<Bytes>)
    ensures r.None? ==> forall a, unknown :: !NormalForm(hash, bytes, a, unknown)
    ensures r.Some? ==> exists a, unknown ::
      NormalForm(hash, bytes, a, unknown) && r.value == Layout(hash, Known(a)) && (r.value == bytes <==> unknown == [])
  {
    var read := FromBytes(hash, bytes);
    if read.None? { return None; }
    ghost var unknown :| NormalForm(hash, bytes, read.value, unknown);
    r := ToBytes(hash, read.value);
    RewriteIsIdentityIffNothingUnknown(hash, bytes, read.value, unknown);
  }

  /** Every storable artifact followed by any unknown sections is accepted, and not written back as it was. */
  lemma UnknownSectionIsLost(hash: Hash, a: Artifact, unknown: seq<Section>)
    requires Storable(a) && Unknown(unknown) && unknown != [] && |Known(a)| + |unknown| <= MAX_SECTIONS
    ensures NormalForm(hash, Layout(hash, Known(a) + unknown), a, unknown)
    ensures Layout(hash, Known(a)) != Layout(hash, Known(a) + unknown)
  {
    RewriteIsIdentityIffNothingUnknown(hash, Layout(hash, Known(a) + unknown), a, unknown);
  }
}
