/** Rows and objects of the snapshot importer, and what one imported notice does to them. */
module SnapshotStore {
  import opened Prelude

  type Id = nat
  type Hash = string
  type Bytes = string

  datatype Fields = Fields(
    title: Option<string>,
    purchaser: Option<string>,
    region: Option<string>,
    summary: Option<string>,
    publishTime: Option<string>,
    deadline: Option<string>,
    budgetText: Option<string>,
    raw: seq<(string, Option<string>)>,   // value of a raw field, when it is a string
    cancellation: bool)

  datatype Notice = Notice(externalId: string, fields: Fields)

  /** Canonical JSON and SHA-256, both uninterpreted. */
  datatype Codec = Codec(canonical: Notice -> Bytes, hash: Bytes -> Hash) {
    function ContentHash(notice: Notice): Hash { hash(canonical(notice)) }
  }

  /** `snapshots/<bundle>/<hash>`. */
  datatype ObjectKey = ObjectKey(bundle: string, hash: Hash)

  datatype EvidenceSpan = EvidenceSpan(text: string, start: nat, end: nat, hash: Hash)

  datatype NoticeRow = NoticeRow(source: string, externalId: string, hash: Hash)
  datatype VersionRow = VersionRow(notice: Id, key: ObjectKey, hash: Hash, fields: Fields)
  datatype ImportRow = ImportRow(bundle: string, success: bool)

  datatype Db = Db(
    bundles: map<string, string>,      // manifest by bundle id
    imports: map<string, ImportRow>,   // by idempotency key
    notices: map<Id, NoticeRow>,
    versions: map<Id, VersionRow>,
    evidence: map<Id, seq<EvidenceSpan>>)

  // ------------------------------------------------------------ evidence of a notice

  const METADATA_KEYS: set<string> := {"synthetic_channel"}

  /** The quotable texts of a notice: populated fields, then raw business fields. */
  predicate Quoted(f: Fields, text: string) {
    && text != ""
    && (|| Some(text) in [f.title, f.purchaser, f.region, f.summary, f.publishTime, f.deadline, f.budgetText]
        || exists i :: 0 <= i < |f.raw| && f.raw[i].0 != "synthetic_channel" && f.raw[i].1 == Some(text))
  }

  function SpanOf(text: string, hash: Bytes -> Hash): EvidenceSpan {
    EvidenceSpan(text, 0, |text|, hash(text))
  }

  function SpansOf(texts: seq<Option<string>>, hash: Bytes -> Hash): seq<EvidenceSpan> {
    if texts == [] then []
    else
      var rest, last := SpansOf(texts[..|texts| - 1], hash), texts[|texts| - 1];
      if last.Some? && last.value != "" then rest + [SpanOf(last.value, hash)] else rest
  }

  function Columns(f: Fields): seq<Option<string>> {
    [f.title, f.purchaser, f.region, f.summary, f.publishTime, f.deadline, f.budgetText]
    + seq(|f.raw|, i requires 0 <= i < |f.raw| => if f.raw[i].0 in METADATA_KEYS then None else f.raw[i].1)
  }

  function EvidenceOf(f: Fields, hash: Bytes -> Hash): seq<EvidenceSpan> {
    SpansOf(Columns(f), hash)
  }

  lemma {:induction false} SpansAreTexts(texts: seq<Option<string>>, hash: Bytes -> Hash)
    ensures forall sp :: sp in SpansOf(texts, hash) <==> sp == SpanOf(sp.text, hash) && sp.text != "" && Some(sp.text) in texts
  {
    if texts != [] {
      SpansAreTexts(texts[..|texts| - 1], hash);
      assert texts == texts[..|texts| - 1] + [texts[|texts| - 1]];
    }
  }

  /** The evidence of a notice is a whole-value span for each quotable text and nothing else. */
  lemma EvidenceIsQuoted(f: Fields, hash: Bytes -> Hash)
    ensures forall sp :: sp in EvidenceOf(f, hash) <==>
      sp.start == 0 && sp.end == |sp.text| && sp.hash == hash(sp.text) && Quoted(f, sp.text)
  {
    SpansAreTexts(Columns(f), hash);
    var columns := Columns(f);
    forall text: string | text != "" ensures Some(text) in columns <==> Quoted(f, text) {
      if Some(text) in columns {
        var i :| 0 <= i < |columns| && columns[i] == Some(text);
        assert i >= 7 ==> f.raw[i - 7].1 == Some(text);
      }
      if Quoted(f, text) && Some(text) !in columns[..7] {
        var i :| 0 <= i < |f.raw| && f.raw[i].0 != "synthetic_channel" && f.raw[i].1 == Some(text);
        assert columns[i + 7] == Some(text);
      }
    }
  }

  /** How many texts are populated. */
  function Populated(texts: seq<Option<string>>): nat {
    if texts == [] then 0
    else Populated(texts[1..]) + (if texts[0].Some? && texts[0].value != "" then 1 else 0)
  }

  lemma {:induction false} PopulatedNext(texts: seq<Option<string>>, t: Option<string>)
    ensures Populated(texts + [t]) == Populated(texts) + (if t.Some? && t.value != "" then 1 else 0)
  {
    if texts == [] {
      assert [] + [t] == [t] && [t][1..] == [];
    } else {
      assert (texts + [t])[1..] == texts[1..] + [t];
      PopulatedNext(texts[1..], t);
    }
  }

  /** One span for each populated text, in their order, equal texts included. */
  lemma {:induction false} SpanPerText(texts: seq<Option<string>>, hash: Bytes -> Hash)
    ensures |SpansOf(texts, hash)| == Populated(texts)
    ensures forall i :: 0 <= i < |texts| && texts[i].Some? && texts[i].value != "" ==>
      && Populated(texts[..i]) < |SpansOf(texts, hash)|
      && SpansOf(texts, hash)[Populated(texts[..i])].text == texts[i].value
  {
    if texts != [] {
      var front, last := texts[..|texts| - 1], texts[|texts| - 1];
      SpanPerText(front, hash);
      PopulatedNext(front, last);
      assert front + [last] == texts;
      forall i | 0 <= i < |texts| && texts[i].Some? && texts[i].value != ""
        ensures Populated(texts[..i]) < |SpansOf(texts, hash)|
        ensures SpansOf(texts, hash)[Populated(texts[..i])].text == texts[i].value
      {
        if i < |front| {
          assert front[i] == texts[i] && front[..i] == texts[..i];
        }
      }
    }
  }

  /** `_build_evidence`. */
  method BuildEvidence(f: Fields, hash: Bytes -> Hash) returns (spans: seq<EvidenceSpan>)
    ensures spans == EvidenceOf(f, hash)
  {
    spans := [];
    var columns := [f.title, f.purchaser, f.region, f.summary, f.publishTime, f.deadline, f.budgetText];
    ghost var all := Columns(f);
    for i := 0 to |columns|
      invariant spans == SpansOf(all[..i], hash)
    {
      assert all[..i + 1][..i] == all[..i];
      if columns[i].Some? && columns[i].value != "" {
        spans := spans + [SpanOf(columns[i].value, hash)];
      }
    }
    for i := 0 to |f.raw|
      invariant spans == SpansOf(all[..7 + i], hash)
    {
      assert all[..7 + i + 1][..7 + i] == all[..7 + i];
      var (key, value) := f.raw[i];
      if key in METADATA_KEYS {
        continue;
      }
      if value.Some? && value.value != "" {
        spans := spans + [SpanOf(value.value, hash)];
      }
    }
    assert all[..7 + |f.raw|] == all;
  }

  // ------------------------------------------------------------ integrity

  /** No two rows of one source and external id, no two versions of one notice and hash. */
  ghost predicate Unique(d: Db) {
    && (forall a, b :: a in d.notices && b in d.notices && a != b ==>
          d.notices[a].source != d.notices[b].source || d.notices[a].externalId != d.notices[b].externalId)
    && (forall a, b :: a in d.versions && b in d.versions && a != b ==>
          d.versions[a].notice != d.versions[b].notice || d.versions[a].hash != d.versions[b].hash)
  }

  /** Every version has its evidence, written once. */
  ghost predicate EvidenceWritten(d: Db, codec: Codec) {
    && d.evidence.Keys == d.versions.Keys
    && (forall v :: v in d.versions ==> d.evidence[v] == EvidenceOf(d.versions[v].fields, codec.hash))
  }

  /** Every version's object is there and its bytes have the version's hash. */
  ghost predicate Backed(d: Db, objects: map<ObjectKey, Bytes>, codec: Codec) {
    forall v :: v in d.versions ==>
      && d.versions[v].key in objects
      && codec.hash(objects[d.versions[v].key]) == d.versions[v].hash
  }

  ghost predicate ObjectsOk(objects: map<ObjectKey, Bytes>, codec: Codec) {
    forall key :: key in objects ==> codec.hash(objects[key]) == key.hash
  }

  ghost predicate Linked(d: Db) {
    && (forall v :: v in d.versions ==> d.versions[v].notice in d.notices && d.versions[v].key.hash == d.versions[v].hash)
    && (forall k :: k in d.imports ==> d.imports[k].success && d.imports[k].bundle in d.bundles)
  }

  ghost predicate Valid(d: Db, objects: map<ObjectKey, Bytes>, codec: Codec) {
    && Unique(d) && Linked(d) && EvidenceWritten(d, codec) && ObjectsOk(objects, codec)
    && forall v :: v in d.versions ==> d.versions[v].key in objects
  }

  lemma ValidIsBacked(d: Db, objects: map<ObjectKey, Bytes>, codec: Codec)
    requires Valid(d, objects, codec)
    ensures Backed(d, objects, codec)
  {
  }

  /** Rows are added; manifests, imports, versions and evidence never change. */
  ghost predicate Extends(d: Db, d': Db) {
    && (forall b :: b in d.bundles ==> b in d'.bundles && d'.bundles[b] == d.bundles[b])
    && (forall k :: k in d.imports ==> k in d'.imports && d'.imports[k] == d.imports[k])
    && (forall v :: v in d.versions ==> v in d'.versions && d'.versions[v] == d.versions[v])
    && (forall v :: v in d.evidence ==> v in d'.evidence && d'.evidence[v] == d.evidence[v])
    && (forall n :: n in d.notices ==>
          n in d'.notices && d'.notices[n].source == d.notices[n].source
          && d'.notices[n].externalId == d.notices[n].externalId)
  }

  // ------------------------------------------------------------ one notice

  predicate IsNotice(d: Db, n: Id, source: string, externalId: string) {
    n in d.notices && d.notices[n].source == source && d.notices[n].externalId == externalId
  }

  predicate HasVersion(d: Db, n: Id, hash: Hash) {
    exists v :: v in d.versions && d.versions[v].notice == n && d.versions[v].hash == hash
  }

  /** The notice has its source notice and a version with its hash. */
  ghost predicate VersionStored(d: Db, source: string, notice: Notice, codec: Codec) {
    exists n :: IsNotice(d, n, source, notice.externalId) && HasVersion(d, n, codec.ContentHash(notice))
  }

  /** The source notice of that source and external id, or a new row id when there is none. */
  ghost predicate NoticeId(d: Db, n: Id, source: string, externalId: string) {
    || IsNotice(d, n, source, externalId)
    || (n !in d.notices && forall m :: !IsNotice(d, m, source, externalId))
  }

  function Seen(d: Db, n: Id, source: string, externalId: string, hash: Hash): Db {
    d.(notices := d.notices[n := NoticeRow(source, externalId, hash)])
  }

  function Versioned(d: Db, v: Id, row: VersionRow, spans: seq<EvidenceSpan>): Db {
    d.(versions := d.versions[v := row], evidence := d.evidence[v := spans])
  }

  /** The row update of one notice: its source notice found or created and its hash refreshed; a version
      with its evidence only when there is none with this hash. */
  ghost predicate NoticeImported(d: Db, d': Db, source: string, bundle: string, notice: Notice, codec: Codec) {
    exists n: Id, v: Id :: ImportedAs(d, d', source, bundle, notice, codec, n, v)
  }

  ghost predicate ImportedAs(d: Db, d': Db, source: string, bundle: string, notice: Notice, codec: Codec, n: Id, v: Id) {
    var hash := codec.ContentHash(notice);
    var seen := Seen(d, n, source, notice.externalId, hash);
    && NoticeId(d, n, source, notice.externalId)
    && (if HasVersion(d, n, hash) then d' == seen
        else
          && v !in d.versions
          && d' == Versioned(seen, v, VersionRow(n, ObjectKey(bundle, hash), hash, notice.fields),
                             EvidenceOf(notice.fields, codec.hash)))
  }

  lemma SeenKeepsValid(d: Db, n: Id, objects: map<ObjectKey, Bytes>, source: string, externalId: string, hash: Hash,
                       codec: Codec)
    requires Valid(d, objects, codec) && NoticeId(d, n, source, externalId)
    ensures Valid(Seen(d, n, source, externalId, hash), objects, codec)
    ensures Extends(d, Seen(d, n, source, externalId, hash))
    ensures IsNotice(Seen(d, n, source, externalId, hash), n, source, externalId)
  {
    hide EvidenceOf;
    var d' := Seen(d, n, source, externalId, hash);
    forall a, b | a in d'.notices && b in d'.notices && a != b
      ensures d'.notices[a].source != d'.notices[b].source || d'.notices[a].externalId != d'.notices[b].externalId
    {
      var other := if a == n then b else a;
      assert a == n || b == n ==> !IsNotice(d, other, source, externalId);
    }
  }

  lemma VersionKeepsValid(d: Db, v: Id, row: VersionRow, objects: map<ObjectKey, Bytes>, codec: Codec)
    requires Valid(d, objects, codec) && v !in d.versions && row.notice in d.notices
    requires !HasVersion(d, row.notice, row.hash) && row.key in objects && row.key.hash == row.hash
    ensures Valid(Versioned(d, v, row, EvidenceOf(row.fields, codec.hash)), objects, codec)
    ensures Extends(d, Versioned(d, v, row, EvidenceOf(row.fields, codec.hash)))
  {
    hide EvidenceOf, Unique, EvidenceWritten, ObjectsOk;
    VersionUnique(d, v, row, EvidenceOf(row.fields, codec.hash));
    VersionEvidence(d, v, row, codec);
  }

  lemma VersionUnique(d: Db, v: Id, row: VersionRow, spans: seq<EvidenceSpan>)
    requires Unique(d) && !HasVersion(d, row.notice, row.hash)
    ensures Unique(Versioned(d, v, row, spans))
  {
  }

  lemma VersionEvidence(d: Db, v: Id, row: VersionRow, codec: Codec)
    requires EvidenceWritten(d, codec) && v !in d.versions
    ensures EvidenceWritten(Versioned(d, v, row, EvidenceOf(row.fields, codec.hash)), codec)
    ensures v !in d.evidence
  {
    hide EvidenceOf;
    assert v !in d.versions.Keys;
  }

  lemma NoticeKeepsValid(d: Db, d': Db, objects: map<ObjectKey, Bytes>, source: string, bundle: string,
                         notice: Notice, codec: Codec)
    requires Valid(d, objects, codec) && NoticeImported(d, d', source, bundle, notice, codec)
    requires ObjectKey(bundle, codec.ContentHash(notice)) in objects
    ensures Valid(d', objects, codec) && Extends(d, d')
    ensures d'.bundles == d.bundles && d'.imports == d.imports
    ensures VersionStored(d', source, notice, codec)
  {
    hide EvidenceOf, Valid, Extends;
    var hash := codec.ContentHash(notice);
    var n: Id, v: Id :| ImportedAs(d, d', source, bundle, notice, codec, n, v);
    var seen := Seen(d, n, source, notice.externalId, hash);
    SeenKeepsValid(d, n, objects, source, notice.externalId, hash, codec);
    if !HasVersion(d, n, hash) {
      var row := VersionRow(n, ObjectKey(bundle, hash), hash, notice.fields);
      assert !HasVersion(seen, n, hash);
      VersionKeepsValid(seen, v, row, objects, codec);
      ExtendsTwice(d, seen, d');
      assert d'.versions[v] == row;
    }
    assert IsNotice(d', n, source, notice.externalId) && HasVersion(d', n, hash);
  }

  /** The rows one notice leaves, column by column: one source notice row of its source and external id with
      the content hash; a new version exactly when none of that notice had this hash, holding the notice's own
      fields, its object's key, and a whole-value span for each of its texts. */
  lemma NoticeRowsAreTheNotice(d: Db, d': Db, source: string, bundle: string, notice: Notice, codec: Codec) returns (n: Id)
    requires NoticeImported(d, d', source, bundle, notice, codec)
    ensures n in d'.notices && d'.notices[n] == NoticeRow(source, notice.externalId, codec.hash(codec.canonical(notice)))
    ensures forall m :: m in d'.notices && m != n ==> m in d.notices && d'.notices[m] == d.notices[m]
    ensures d'.versions == d.versions <==>
      exists v :: v in d.versions && d.versions[v].notice == n && d.versions[v].hash == codec.hash(codec.canonical(notice))
    ensures forall v :: v in d'.versions && v !in d.versions ==>
      var row := d'.versions[v];
      && row.notice == n && row.hash == codec.hash(codec.canonical(notice)) && row.fields == notice.fields
      && row.key.bundle == bundle && row.key.hash == row.hash
      && v in d'.evidence
      && forall sp :: sp in d'.evidence[v] <==>
           sp.start == 0 && sp.end == |sp.text| && sp.hash == codec.hash(sp.text) && Quoted(notice.fields, sp.text)
  {
    hide EvidenceOf, Quoted;
    var v: Id;
    n, v :| ImportedAs(d, d', source, bundle, notice, codec, n, v);
    EvidenceIsQuoted(notice.fields, codec.hash);
  }

  lemma ExtendsTwice(a: Db, b: Db, c: Db)
    requires Extends(a, b) && Extends(b, c)
    ensures Extends(a, c)
  {
  }

  /** Storing bytes under the key of their own hash. */
  lemma PutKeepsValid(d: Db, objects: map<ObjectKey, Bytes>, bundle: string, notice: Notice, codec: Codec)
    requires Valid(d, objects, codec)
    ensures Valid(d, objects[ObjectKey(bundle, codec.ContentHash(notice)) := codec.canonical(notice)], codec)
  {
    hide EvidenceOf;
  }
}
