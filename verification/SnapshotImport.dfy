/** Importing a snapshot bundle: objects are put as the notices are read, rows commit together or not
    at all. */
module SnapshotImport {
  import opened Prelude
  import opened SnapshotStore
  import ReportTables

  /** A bundle that passed inspection, with its parsed notices. */
  datatype Bundle = Bundle(id: string, source: string, manifest: string, manifestHash: string, notices: seq<Notice>)

  datatype Error = InvalidBundle | ManifestChanged | Interrupted

  /** Where an import may raise: before or after the object of a notice is put, or at the end. */
  datatype Fault = NoFault | BeforePut(index: nat) | AfterPut(index: nat) | AtEnd

  datatype Outcome = Reused | Created

  /** The idempotency key: a digest of the bundle id, the manifest hash and the sorted notice hashes. */
  function ImportKey(b: Bundle, codec: Codec, digest: (string, string, multiset<Hash>) -> string): string {
    digest(b.id, b.manifestHash, multiset(Hashes(b.notices, codec)))
  }

  function Hashes(notices: seq<Notice>, codec: Codec): seq<Hash> {
    seq(|notices|, i requires 0 <= i < |notices| => codec.ContentHash(notices[i]))
  }

  ghost predicate AllVersioned(d: Db, source: string, notices: seq<Notice>, codec: Codec) {
    forall k :: 0 <= k < |notices| ==> VersionStored(d, source, notices[k], codec)
  }

  lemma VersionStays(d: Db, d': Db, source: string, notice: Notice, codec: Codec)
    requires VersionStored(d, source, notice, codec) && Extends(d, d')
    ensures VersionStored(d', source, notice, codec)
  {
    var n :| IsNotice(d, n, source, notice.externalId) && HasVersion(d, n, codec.ContentHash(notice));
    assert IsNotice(d', n, source, notice.externalId);
    var v :| v in d.versions && d.versions[v].notice == n && d.versions[v].hash == codec.ContentHash(notice);
    assert v in d'.versions && d'.versions[v] == d.versions[v];
  }

  lemma VersionedStays(d: Db, d': Db, source: string, notices: seq<Notice>, codec: Codec)
    requires AllVersioned(d, source, notices, codec) && Extends(d, d')
    ensures AllVersioned(d', source, notices, codec)
  {
    hide VersionStored, Extends;
    forall k | 0 <= k < |notices| ensures VersionStored(d', source, notices[k], codec) {
      VersionStays(d, d', source, notices[k], codec);
    }
  }

  class SnapshotImporter {
    var db: Db
    var objects: map<ObjectKey, Bytes>
    const codec: Codec

    ghost predicate Sound()
      reads this
    {
      Valid(db, objects, codec)
    }

    constructor (codec: Codec)
      ensures Sound() && this.codec == codec && objects == map[]
      ensures db == Db(map[], map[], map[], map[], map[])
    {
      this.codec := codec;
      db := Db(map[], map[], map[], map[], map[]);
      objects := map[];
    }

    /** The source notice row for an external id, found or created, its hash refreshed. */
    method GetOrCreateSourceNotice(source: string, externalId: string, hash: Hash) returns (n: Id)
      modifies this`db
      ensures NoticeId(old(db), n, source, externalId)
      ensures db == Seen(old(db), n, source, externalId, hash)
    {
      if found: Id :| found in db.notices && db.notices[found].source == source && db.notices[found].externalId == externalId {
        n := found;
      } else {
        n := ReportTables.NewId(db.notices.Keys);
      }
      db := db.(notices := db.notices[n := NoticeRow(source, externalId, hash)]);
    }

    /** `_import_notice`, raising at the given point: the object stays put whatever happens to the rows. */
    method ImportNotice(source: string, bundle: string, notice: Notice, beforePut: bool, afterPut: bool)
      returns (raised: bool)
      requires Sound()
      modifies this
      ensures raised <==> beforePut || afterPut
      ensures objects == if beforePut then old(objects)
                         else old(objects)[ObjectKey(bundle, codec.ContentHash(notice)) := codec.canonical(notice)]
      ensures raised ==> db == old(db)
      ensures !raised ==> NoticeImported(old(db), db, source, bundle, notice, codec)
      ensures Sound() && Extends(old(db), db)
    {
      hide Valid, Extends, EvidenceOf;
      ghost var before := db;
      ExtendsSelf(db);
      if beforePut {
        return true;
      }
      var hash := codec.ContentHash(notice);
      var key := ObjectKey(bundle, hash);
      PutKeepsValid(db, objects, bundle, notice, codec);
      objects := objects[key := codec.canonical(notice)];
      if afterPut {
        return true;
      }
      var n := GetOrCreateSourceNotice(source, notice.externalId, hash);
      ghost var seen := db;
      if v: Id :| v in db.versions && db.versions[v].notice == n && db.versions[v].hash == hash {
        assert HasVersion(before, n, hash);
        assert ImportedAs(before, db, source, bundle, notice, codec, n, v);
      } else {
        assert !HasVersion(before, n, hash);
        var version := ReportTables.NewId(db.versions.Keys);
        var spans := BuildEvidence(notice.fields, codec.hash);
        db := db.(versions := db.versions[version := VersionRow(n, key, hash, notice.fields)]);
        db := db.(evidence := db.evidence[version := []]);
        for i := 0 to |spans|
          invariant objects == old(objects)[key := codec.canonical(notice)]
          invariant db == Versioned(seen, version, VersionRow(n, key, hash, notice.fields), spans[..i])
        {
          assert spans[..i + 1] == spans[..i] + [spans[i]];
          db := db.(evidence := db.evidence[version := db.evidence[version] + [spans[i]]]);
        }
        assert spans[..|spans|] == spans;
        assert ImportedAs(before, db, source, bundle, notice, codec, n, version);
      }
      NoticeKeepsValid(before, db, objects, source, bundle, notice, codec);
      raised := false;
    }

    /** `_import_verified_bundle`: `inspected` is nothing for a bundle that fails inspection or parsing. */
    method ImportVerifiedBundle(inspected: Option<Bundle>, fault: Fault,
                                digest: (string, string, multiset<Hash>) -> string)
      returns (r: Result<Outcome, Error>)
      requires Sound()
      modifies this
      ensures Sound() && Extends(old(db), db)
      ensures inspected.None? ==> r == Err(InvalidBundle) && objects == old(objects)
      ensures r.Err? ==> db == old(db)
      ensures forall key :: key in old(objects) ==> key in objects
      ensures inspected.Some? ==>
        var b, key := inspected.value, ImportKey(inspected.value, codec, digest);
        && (r == Ok(Reused) <==> key in old(db.imports))
        && (r == Ok(Reused) ==> db == old(db) && objects == old(objects))
        && (r == Err(ManifestChanged) <==>
              key !in old(db.imports) && b.id in old(db.bundles) && old(db.bundles)[b.id] != b.manifest)
        && (r == Err(ManifestChanged) ==> objects == old(objects))
        && (r == Ok(Created) ==>
              && db.imports == old(db.imports)[key := ImportRow(b.id, true)]
              && db.bundles == old(db.bundles)[b.id := b.manifest]
              && AllVersioned(db, b.source, b.notices, codec))
    {
      hide Valid, Extends, AllVersioned;
      ExtendsSelf(db);
      if inspected.None? {
        return Err(InvalidBundle);
      }
      var b := inspected.value;
      var key := ImportKey(b, codec, digest);
      ImportsSucceeded(db, objects, codec);
      if key in db.imports && db.imports[key].success {
        return Ok(Reused);
      }
      if b.id in db.bundles && db.bundles[b.id] != b.manifest {
        return Err(ManifestChanged);
      }
      var saved := db;
      var begun := db.(bundles := db.bundles[b.id := b.manifest]);
      BundleKeepsValid(db, objects, codec, b);
      db := begun;
      ghost var start := db;
      NothingVersioned(db, b.source, codec);
      for i := 0 to |b.notices|
        invariant Sound() && Extends(saved, db) && Valid(saved, objects, codec)
        invariant db.bundles == start.bundles && db.imports == start.imports
        invariant forall k :: k in old(objects) ==> k in objects
        invariant AllVersioned(db, b.source, b.notices[..i], codec)
      {
        ghost var before := db;
        PutKeepsValid(saved, objects, b.id, b.notices[i], codec);
        PutKeepsValid(before, objects, b.id, b.notices[i], codec);
        var raised := ImportNotice(b.source, b.id, b.notices[i], fault == BeforePut(i), fault == AfterPut(i));
        ExtendsTwice(saved, before, db);
        if raised {
          db := saved;
          ExtendsSelf(db);
          return Err(Interrupted);
        }
        VersionedNext(before, db, objects, b, i, codec);
      }
      assert b.notices[..|b.notices|] == b.notices;
      if fault == AtEnd {
        db := saved;
        ExtendsSelf(db);
        return Err(Interrupted);
      }
      ImportKeepsValid(saved, db, objects, codec, key, b.id);
      ImportKeepsVersions(db, key, b, codec);
      db := db.(imports := db.imports[key := ImportRow(b.id, true)]);
      r := Ok(Created);
    }
  }

  /** A bundle imported once is only recognised from then on, whatever is imported, refused or interrupted
      in between; and over the whole history no manifest, version or evidence row changes. */
  method ImportHistory(importer: SnapshotImporter, b: Bundle, others: seq<(Option<Bundle>, Fault)>, fault: Fault,
                       digest: (string, string, multiset<Hash>) -> string)
    returns (first: Result<Outcome, Error>, last: Result<Outcome, Error>,
             ghost db: Db, ghost objects: map<ObjectKey, Bytes>)
    requires importer.Sound()
    modifies importer
    ensures importer.Sound() && Extends(old(importer.db), importer.db)
    ensures Backed(importer.db, importer.objects, importer.codec)
    ensures first.Ok? ==> last == Ok(Reused) && importer.db == db && importer.objects == objects
  {
    hide Valid, Extends, AllVersioned;
    ghost var start := importer.db;
    first := importer.ImportVerifiedBundle(Some(b), NoFault, digest);
    var key := ImportKey(b, importer.codec, digest);
    assert first.Ok? ==> key in importer.db.imports by {
      if first.Ok? {
        assert first.value == Reused || first.value == Created;
        assert first == Ok(first.value);
      }
    }
    for i := 0 to |others|
      invariant importer.Sound() && Extends(start, importer.db)
      invariant first.Ok? ==> key in importer.db.imports
    {
      ghost var before := importer.db;
      var _ := importer.ImportVerifiedBundle(others[i].0, others[i].1, digest);
      ExtendsTwice(start, before, importer.db);
      if first.Ok? {
        ImportsStay(before, importer.db, key);
      }
    }
    db, objects := importer.db, importer.objects;
    last := importer.ImportVerifiedBundle(Some(b), fault, digest);
    ExtendsTwice(start, db, importer.db);
    ValidIsBacked(importer.db, importer.objects, importer.codec);
  }

  // ------------------------------------------------------------ what is recognised, what is refused

  /** A digest without collisions. */
  ghost predicate TellsApart(digest: (string, string, multiset<Hash>) -> string) {
    forall id, m, hs, id', m', hs' :: digest(id, m, hs) == digest(id', m', hs') ==> id == id' && m == m' && hs == hs'
  }

  /** The bundle's manifest is the one read from the file with that hash. */
  predicate FromFile(b: Bundle, manifestOf: string -> string) {
    b.manifest == manifestOf(b.manifestHash)
  }

  /** The bundles of the attempts that succeeded. */
  function Landed(attempts: seq<(Option<Bundle>, Fault)>, outcomes: seq<Result<Outcome, Error>>): seq<Bundle>
    requires |outcomes| <= |attempts|
  {
    if outcomes == [] then []
    else
      var n := |outcomes| - 1;
      Landed(attempts, outcomes[..n])
        + if outcomes[n].Ok? && attempts[n].0.Some? then [attempts[n].0.value] else []
  }

  /** Same bundle id, same manifest file, same notice contents. */
  ghost predicate SameContent(a: Bundle, b: Bundle, codec: Codec) {
    a.id == b.id && a.manifestHash == b.manifestHash && multiset(Hashes(a.notices, codec)) == multiset(Hashes(b.notices, codec))
  }

  /** The keys are those of these bundles. */
  ghost predicate KeysAre(keys: set<string>, landed: seq<Bundle>, codec: Codec,
                          digest: (string, string, multiset<Hash>) -> string)
  {
    keys == set b | b in landed :: ImportKey(b, codec, digest)
  }

  /** The manifests are those of these bundles. */
  ghost predicate ManifestsAre(bundles: map<string, string>, landed: seq<Bundle>) {
    && bundles.Keys == (set b | b in landed :: b.id)
    && forall b :: b in landed ==> bundles[b.id] == b.manifest
  }

  /** The rows remember exactly these bundles. */
  ghost predicate Remembers(d: Db, landed: seq<Bundle>, codec: Codec, digest: (string, string, multiset<Hash>) -> string) {
    KeysAre(d.imports.Keys, landed, codec, digest) && ManifestsAre(d.bundles, landed)
  }

  lemma KeysTellApart(a: Bundle, b: Bundle, codec: Codec, digest: (string, string, multiset<Hash>) -> string)
    requires TellsApart(digest)
    ensures ImportKey(a, codec, digest) == ImportKey(b, codec, digest) <==> SameContent(a, b, codec)
  {
  }

  lemma KeysOneMore(keys: set<string>, landed: seq<Bundle>, b: Bundle, codec: Codec,
                    digest: (string, string, multiset<Hash>) -> string)
    requires KeysAre(keys, landed, codec, digest)
    ensures KeysAre(keys + {ImportKey(b, codec, digest)}, landed + [b], codec, digest)
  {
    hide ImportKey;
    var more := landed + [b];
    assert forall a :: a in more <==> a in landed || a == b;
  }

  lemma ManifestsOneMore(bundles: map<string, string>, landed: seq<Bundle>, b: Bundle)
    requires ManifestsAre(bundles, landed) && (b.id in bundles ==> bundles[b.id] == b.manifest)
    ensures ManifestsAre(bundles[b.id := b.manifest], landed + [b])
  {
    var more := landed + [b];
    assert forall a :: a in more <==> a in landed || a == b;
    assert forall a :: a in landed ==> a.id in bundles.Keys;
  }

  lemma RemembersOneMore(d: Db, d': Db, landed: seq<Bundle>, b: Bundle, codec: Codec,
                         digest: (string, string, multiset<Hash>) -> string)
    requires Remembers(d, landed, codec, digest) && (b.id in d.bundles ==> d.bundles[b.id] == b.manifest)
    requires d'.imports.Keys == d.imports.Keys + {ImportKey(b, codec, digest)}
    requires d'.bundles == d.bundles[b.id := b.manifest]
    ensures Remembers(d', landed + [b], codec, digest)
  {
    hide ImportKey, KeysAre, ManifestsAre;
    KeysOneMore(d.imports.Keys, landed, b, codec, digest);
    ManifestsOneMore(d.bundles, landed, b);
  }

  /** Whether a key is known, and with which manifest. */
  lemma KnownIsSame(d: Db, landed: seq<Bundle>, b: Bundle, codec: Codec,
                    digest: (string, string, multiset<Hash>) -> string, manifestOf: string -> string)
    requires Remembers(d, landed, codec, digest) && TellsApart(digest)
    requires FromFile(b, manifestOf) && forall a :: a in landed ==> FromFile(a, manifestOf)
    ensures ImportKey(b, codec, digest) in d.imports <==> exists a :: a in landed && SameContent(a, b, codec)
    ensures ImportKey(b, codec, digest) in d.imports ==> b.id in d.bundles && d.bundles[b.id] == b.manifest
    ensures b.id in d.bundles && d.bundles[b.id] != b.manifest <==>
      exists a :: a in landed && a.id == b.id && a.manifest != b.manifest
  {
    hide ImportKey, TellsApart;
    assert ImportKey(b, codec, digest) in d.imports <==> ImportKey(b, codec, digest) in d.imports.Keys;
    assert b.id in d.bundles <==> b.id in d.bundles.Keys;
    forall a | a in landed
      ensures ImportKey(a, codec, digest) == ImportKey(b, codec, digest) <==> SameContent(a, b, codec)
    {
      KeysTellApart(a, b, codec, digest);
    }
  }

  lemma LandedNext(attempts: seq<(Option<Bundle>, Fault)>, outcomes: seq<Result<Outcome, Error>>, r: Result<Outcome, Error>)
    requires |outcomes| < |attempts| && (r.Ok? ==> attempts[|outcomes|].0.Some?)
    ensures Landed(attempts, outcomes + [r]) ==
            if r.Ok? then Landed(attempts, outcomes) + [attempts[|outcomes|].0.value] else Landed(attempts, outcomes)
  {
    assert (outcomes + [r])[..|outcomes|] == outcomes;
    assert Landed(attempts, outcomes) + [] == Landed(attempts, outcomes);
  }

  /** From an empty store, after any attempts, with a digest without collisions: a bundle is recognised exactly
      when one with its id, its manifest file and its notice contents landed before, and refused exactly when
      one with its id and another manifest did. */
  method ImportFromFiles(importer: SnapshotImporter, attempts: seq<(Option<Bundle>, Fault)>, b: Bundle, fault: Fault,
                         digest: (string, string, multiset<Hash>) -> string, ghost manifestOf: string -> string)
    returns (outcomes: seq<Result<Outcome, Error>>, last: Result<Outcome, Error>)
    requires importer.Sound() && importer.db.imports == map[] && importer.db.bundles == map[]
    requires TellsApart(digest) && FromFile(b, manifestOf)
    requires forall a :: a in attempts && a.0.Some? ==> FromFile(a.0.value, manifestOf)
    modifies importer
    ensures importer.Sound() && |outcomes| == |attempts|
    ensures last == Ok(Reused) <==> exists a :: a in Landed(attempts, outcomes) && SameContent(a, b, importer.codec)
    ensures last == Err(ManifestChanged) <==>
      exists a :: a in Landed(attempts, outcomes) && a.id == b.id && a.manifest != b.manifest
  {
    hide Valid, Extends, AllVersioned, Remembers, TellsApart, SameContent, Landed, FromFile, ImportKey;
    outcomes := [];
    ghost var landed: seq<Bundle> := [];
    assert Landed(attempts, outcomes) == landed by { NothingLanded(attempts); }
    NothingRemembered(importer.db, importer.codec, digest);
    for i := 0 to |attempts|
      invariant importer.Sound() && |outcomes| == i
      invariant landed == Landed(attempts, outcomes) && forall a :: a in landed ==> FromFile(a, manifestOf)
      invariant Remembers(importer.db, landed, importer.codec, digest)
    {
      ghost var before := importer.db;
      ghost var attempt := attempts[i].0;
      assert attempts[i] in attempts;
      if attempt.Some? {
        KnownIsSame(before, landed, attempt.value, importer.codec, digest, manifestOf);
      }
      var r := importer.ImportVerifiedBundle(attempts[i].0, attempts[i].1, digest);
      LandedNext(attempts, outcomes, r);
      if r.Ok? {
        assert r.value == Reused || r.value == Created;
        assert r == Ok(r.value);
        assert importer.db.imports.Keys == before.imports.Keys + {ImportKey(attempt.value, importer.codec, digest)};
        RemembersOneMore(before, importer.db, landed, attempt.value, importer.codec, digest);
        landed := landed + [attempt.value];
      }
      outcomes := outcomes + [r];
    }
    KnownIsSame(importer.db, landed, b, importer.codec, digest, manifestOf);
    last := importer.ImportVerifiedBundle(Some(b), fault, digest);
  }

  lemma NothingLanded(attempts: seq<(Option<Bundle>, Fault)>)
    ensures Landed(attempts, []) == []
  {
  }

  lemma NothingRemembered(d: Db, codec: Codec, digest: (string, string, multiset<Hash>) -> string)
    requires d.imports == map[] && d.bundles == map[]
    ensures Remembers(d, [], codec, digest)
  {
  }

  // ------------------------------------------------------------ transaction steps

  lemma ImportsStay(d: Db, d': Db, key: string)
    requires Extends(d, d') && key in d.imports
    ensures key in d'.imports
  {
  }

  lemma ExtendsSelf(d: Db)
    ensures Extends(d, d)
  {
  }

  lemma ImportsSucceeded(d: Db, objects: map<ObjectKey, Bytes>, codec: Codec)
    requires Valid(d, objects, codec)
    ensures forall k :: k in d.imports ==> d.imports[k].success
  {
  }

  lemma NothingVersioned(d: Db, source: string, codec: Codec)
    ensures AllVersioned(d, source, [], codec)
  {
  }

  lemma BundleKeepsValid(d: Db, objects: map<ObjectKey, Bytes>, codec: Codec, b: Bundle)
    requires Valid(d, objects, codec) && (b.id in d.bundles ==> d.bundles[b.id] == b.manifest)
    ensures Valid(d.(bundles := d.bundles[b.id := b.manifest]), objects, codec)
    ensures Extends(d, d.(bundles := d.bundles[b.id := b.manifest]))
  {
    hide EvidenceOf;
  }

  lemma ImportKeepsValid(saved: Db, d: Db, objects: map<ObjectKey, Bytes>, codec: Codec, key: string, bundle: string)
    requires Valid(d, objects, codec) && bundle in d.bundles && Extends(saved, d) && key !in d.imports
    ensures Valid(d.(imports := d.imports[key := ImportRow(bundle, true)]), objects, codec)
    ensures Extends(saved, d.(imports := d.imports[key := ImportRow(bundle, true)]))
  {
    hide EvidenceOf;
  }

  lemma ImportKeepsVersions(d: Db, key: string, b: Bundle, codec: Codec)
    requires AllVersioned(d, b.source, b.notices, codec) && key !in d.imports
    ensures AllVersioned(d.(imports := d.imports[key := ImportRow(b.id, true)]), b.source, b.notices, codec)
  {
    var d' := d.(imports := d.imports[key := ImportRow(b.id, true)]);
    VersionedStays(d, d', b.source, b.notices, codec);
  }

  lemma VersionedNext(d: Db, d': Db, objects: map<ObjectKey, Bytes>, b: Bundle, i: nat, codec: Codec)
    requires i < |b.notices| && AllVersioned(d, b.source, b.notices[..i], codec)
    requires NoticeImported(d, d', b.source, b.id, b.notices[i], codec)
    requires Valid(d, objects, codec) && ObjectKey(b.id, codec.ContentHash(b.notices[i])) in objects
    ensures AllVersioned(d', b.source, b.notices[..i + 1], codec)
    ensures d'.bundles == d.bundles && d'.imports == d.imports
  {
    hide Valid, Extends, NoticeImported, VersionStored;
    NoticeKeepsValid(d, d', objects, b.source, b.id, b.notices[i], codec);
    VersionedStays(d, d', b.source, b.notices[..i], codec);
    assert b.notices[..i + 1] == b.notices[..i] + [b.notices[i]];
  }
}
