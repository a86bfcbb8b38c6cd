/** What is stored reads back as the report that was delivered. */
module ReportRoundTrip {
  import opened Prelude
  import opened Reports
  import opened ReportTables
  import opened ReportStore
  import opened ReportDelivery
  import opened EvidenceValidation
  import opened ClaimValidation

  // ------------------------------------------------------------ projection of stored rows

  lemma HashKept(d: Db, bindings: EvidenceMap, notice: NoticeId, hash: Hash)
    requires Resolved(d.evidence, bindings, notice, hash).Ok?
    ensures HashOf(d, EvidenceId(d.evidence, notice, hash)) == hash
  {
  }

  lemma StoredHashes(d: Db, claimId: Id, itemId: Id, report: Id, item: Item, i: nat, vs: seq<ClaimVerification>,
                     bindings: EvidenceMap)
    requires i < |item.claims| && ValidClaim(item.claims[i])
    requires StoresClaim(d, claimId, itemId, report, item, i, vs)
    requires AllResolve(d.evidence, bindings, item.notice, item.claims[i].citationIds)
    ensures HashesOf(d, claimId) == item.claims[i].citationIds
  {
    hide Data;
    var ids := item.claims[i].citationIds;
    DedupOfDistinct(ids);
    forall k | 0 <= k < |ids| ensures HashOf(d, EvidenceId(d.evidence, item.notice, ids[k])) == ids[k] {
      assert ids[k] in ids;
      HashKept(d, bindings, item.notice, ids[k]);
    }
  }

  lemma ClaimBacked(d: Db, item: Item, i: nat, bindings: EvidenceMap)
    requires i < |item.claims| && ValidItem(item) && ItemBacked(d.evidence, bindings, item)
    ensures ValidClaim(item.claims[i])
    ensures AllResolve(d.evidence, bindings, item.notice, item.claims[i].citationIds)
  {
    assert item.claims[i] in item.claims;
  }

  lemma ItemParts(d: Db, itemId: Id, report: Id, rank: nat, item: Item, vs: seq<ClaimVerification>,
                  bindings: EvidenceMap)
    requires StoresItem(d, itemId, report, rank, item, vs) && ItemBacked(d.evidence, bindings, item)
    ensures itemId in d.items && d.items[itemId].data == ItemData(item.notice, item.body)
    ensures StoresClaims(d, itemId, report, item, |item.claims|, vs) && |Children(d.claims, itemId)| == |item.claims|
    ensures AllResolve(d.evidence, bindings, item.notice, CitedBy(item))
  {
    hide Data, StoresClaim, AllResolve;
  }

  /** The first `n` stored claims read back as the item's, with the status of their rows. */
  lemma {:induction false} StoredClaims(d: Db, itemId: Id, report: Id, item: Item, n: nat,
                                        vs: seq<ClaimVerification>, bindings: EvidenceMap)
    requires n <= |item.claims| && ValidItem(item) && ItemBacked(d.evidence, bindings, item)
    requires StoresClaims(d, itemId, report, item, |item.claims|, vs)
    requires item == StampedItem(item, vs)
    ensures ClaimsOf(d, Children(d.claims, itemId)[..n]) == item.claims[..n]
  {
    hide StoresClaim, AllResolve, HashesOf, Children, Data, StampedItem, ItemBacked, ValidItem, ValidClaim;
    var ids := Children(d.claims, itemId);
    if n > 0 {
      StoredClaims(d, itemId, report, item, n - 1, vs, bindings);
      assert ids[n - 1] in ids;
      ClaimBacked(d, item, n - 1, bindings);
      StoredHashes(d, ids[n - 1], itemId, report, item, n - 1, vs, bindings);
      StoredClaimRow(d, ids[n - 1], itemId, report, item, n - 1, vs);
      assert ids[..n] == ids[..n - 1] + [ids[n - 1]];
      ClaimsOfNext(d, ids[..n - 1], ids[n - 1]);
      assert item.claims[..n] == item.claims[..n - 1] + [item.claims[n - 1]];
    }
  }

  lemma StoredClaimRow(d: Db, claimId: Id, itemId: Id, report: Id, item: Item, i: nat, vs: seq<ClaimVerification>)
    requires i < |item.claims| && item == StampedItem(item, vs)
    requires StoresClaim(d, claimId, itemId, report, item, i, vs)
    ensures claimId in d.claims
    ensures d.claims[claimId].data == ClaimData(item.claims[i].text, item.claims[i].support)
  {
    assert item.claims[i] == StampedItem(item, vs).claims[i];
  }

  lemma StoredCitations(d: Db, itemId: Id, report: Id, rank: nat, item: Item, vs: seq<ClaimVerification>,
                        bindings: EvidenceMap)
    requires StoresItem(d, itemId, report, rank, item, vs)
    requires AllResolve(d.evidence, bindings, item.notice, CitedBy(item))
    ensures CitationsOf(d, itemId) == item.citations
  {
    hide Data, StoresClaims;
    forall k | 0 <= k < |item.citations|
      ensures HashOf(d, EvidenceId(d.evidence, item.notice, item.citations[k].evidenceId)) == item.citations[k].evidenceId
    {
      assert CitedBy(item)[k] in CitedBy(item);
      HashKept(d, bindings, item.notice, CitedBy(item)[k]);
    }
  }

  lemma StoredItem(d: Db, itemId: Id, report: Id, rank: nat, item: Item, vs: seq<ClaimVerification>,
                   bindings: EvidenceMap)
    requires StoresItem(d, itemId, report, rank, item, vs)
    requires ItemBacked(d.evidence, bindings, item) && ValidItem(item) && item == StampedItem(item, vs)
    ensures itemId in d.items && ItemOf(d, itemId) == item
  {
    hide StoresItem, StoresClaims, Children, Data, CitationsOf, ClaimsOf, ItemBacked, AllResolve;
    ItemParts(d, itemId, report, rank, item, vs, bindings);
    StoredCitations(d, itemId, report, rank, item, vs, bindings);
    StoredClaims(d, itemId, report, item, |item.claims|, vs, bindings);
    var ids := Children(d.claims, itemId);
    assert ids[..|item.claims|] == ids;
    assert item.claims[..|item.claims|] == item.claims;
  }

  /** Reading a stored report gives back the report: items, item citations and labels, claims, claim
      citations, all in order, and every support status. */
  lemma StoredReportReadsBack(d: Db, id: Id, report: Report, vs: seq<ClaimVerification>, bindings: EvidenceMap)
    requires Stores(d, id, report, vs)
    requires report.items == Stamped(report.items, vs)
    requires forall item :: item in report.items ==> ValidItem(item) && ItemBacked(d.evidence, bindings, item)
    ensures Projected(d, id) == Persisted(id, report, None)
  {
    hide StoresItem, ItemBacked, ItemOf;
    var ids := Children(d.items, id);
    forall k | 0 <= k < |ids| ensures ItemsOf(d, id)[k] == report.items[k] {
      assert ids[k] in ids;
      assert report.items[k] in report.items;
      assert report.items[k] == Stamped(report.items, vs)[k];
      StoredItem(d, ids[k], id, k, report.items[k], vs, bindings);
    }
    assert ItemsOf(d, id) == report.items;
  }

  // ------------------------------------------------------------ other reports

  lemma {:induction false} SameClaims(d: Db, d': Db, reports: set<Id>, items: set<Id>, ids: seq<Id>)
    requires Extends(d, d', reports, items) && EvidenceLinked(d)
    requires forall id :: id in ids ==> id in d.claims
    ensures ClaimsOf(d', ids) == ClaimsOf(d, ids)
  {
    if ids != [] {
      var last := ids[|ids| - 1];
      SameClaims(d, d', reports, items, ids[..|ids| - 1]);
      GrownKeepsData(d.claimCitations, d'.claimCitations, d.claims.Keys, last);
      assert HashesOf(d', last) == HashesOf(d, last);
    }
  }

  lemma SameItem(d: Db, d': Db, reports: set<Id>, itemId: Id)
    requires Valid(d) && Extends(d, d', reports, d.items.Keys) && itemId in d.items
    ensures itemId in d'.items && ItemOf(d', itemId) == ItemOf(d, itemId)
  {
    GrownKeepsData(d.citations, d'.citations, d.items.Keys, itemId);
    GrownKeepsChildren(d.claims, d'.claims, d.items.Keys, itemId);
    SameClaims(d, d', reports, d.items.Keys, Children(d.claims, itemId));
    assert CitationsOf(d', itemId) == CitationsOf(d, itemId);
  }

  /** Additions elsewhere leave a report's projection alone. */
  lemma SameProjection(d: Db, d': Db, report: Id)
    requires Valid(d) && Extends(d, d', d.reports.Keys, d.items.Keys) && report in d.reports
    ensures report in d'.reports && Projected(d', report) == Projected(d, report)
  {
    hide Valid, ItemOf;
    GrownKeepsChildren(d.items, d'.items, d.reports.Keys, report);
    var ids := Children(d.items, report);
    forall k | 0 <= k < |ids| ensures ItemsOf(d', report)[k] == ItemsOf(d, report)[k] {
      assert ids[k] in ids;
      SameItem(d, d', d.reports.Keys, ids[k]);
    }
    assert ItemsOf(d', report) == ItemsOf(d, report);
  }

  lemma SameLoad(d: Db, d': Db, runId: nat)
    requires Valid(d) && Valid(d') && Extends(d, d', d.reports.Keys, d.items.Keys)
    requires Load(d, runId).Some?
    ensures Load(d', runId) == Load(d, runId)
  {
    hide Projected;
    var id := FindByRun(d, runId).value;
    SameProjection(d, d', id);
    assert d'.reports[id] == d.reports[id];
    RunFound(d', runId, id);
  }

  // ------------------------------------------------------------ delivery

  /** The claims of a stamped item carry the right status, and the rest of it is as drafted. */
  lemma StampingIsStable(items: seq<Item>, vs: seq<ClaimVerification>)
    requires forall item :: item in items ==> ValidItem(item)
    ensures Stamped(Stamped(items, vs), vs) == Stamped(items, vs)
    ensures forall item :: item in Stamped(items, vs) ==> ValidItem(item)
  {
    forall k | 0 <= k < |items|
      ensures StampedItem(StampedItem(items[k], vs), vs) == StampedItem(items[k], vs)
      ensures ValidItem(StampedItem(items[k], vs))
    {
      assert items[k] in items;
      var stamped := StampedItem(items[k], vs);
      assert StampedItem(stamped, vs).claims == stamped.claims;
      forall c | c in stamped.claims ensures ValidClaim(c) {
        var i :| 0 <= i < |stamped.claims| && stamped.claims[i] == c;
        assert items[k].claims[i] in items[k].claims;
      }
    }
  }

  /** `persist_and_deliver` up to the DOCX export: whatever is returned is what loading returns from
      then on; a failure changes nothing; a second delivery for the run returns the first report; no
      other run's report is affected. */
  method PersistAndDeliver(store: ReportPersistence, runId: nat, header: Header, draft: seq<Item>,
                           bindings: EvidenceMap, vs: seq<ClaimVerification>)
    returns (r: Result<Persisted, DeliveryError>)
    requires Valid(store.db) && forall item :: item in draft ==> ValidItem(item)
    modifies store
    ensures Valid(store.db)
    ensures r.Ok? ==> Load(store.db, runId) == Some(r.value)
    ensures r.Err? ==> store.db == old(store.db)
    ensures Load(old(store.db), runId).Some? ==>
      store.db == old(store.db) && r == Ok(Load(old(store.db), runId).value)
    ensures Load(old(store.db), runId).None? && r.Ok? ==>
      && r.value.report == Report(runId, header, Stamped(draft, vs))
      && Stores(store.db, r.value.id, r.value.report, vs)
    ensures Load(old(store.db), runId).None? ==>
      (r.Ok? <==> forall item :: item in Stamped(draft, vs) ==> ItemBacked(old(store.db.evidence), bindings, item))
    ensures forall other :: Load(old(store.db), other).Some? ==>
      Load(store.db, other) == Load(old(store.db), other)
  {
    hide Valid, ItemBacked, ValidItem, Stores, Projected, Extends;
    ghost var before := store.db;
    var items := ApplySupportStatus(draft, vs);
    StampingIsStable(draft, vs);
    var report := Report(runId, header, items);
    r := store.PersistOnlineReport(report, bindings, vs);
    RunsAreUnique(before);
    RunsAreUnique(store.db);
    forall other | Load(before, other).Some? ensures Load(store.db, other) == Load(before, other) {
      SameLoad(before, store.db, other);
    }
    if r.Ok? && Load(before, runId).None? {
      SameEvidence(before, store.db);
      StoredReportReadsBack(store.db, r.value.id, report, vs, bindings);
    }
  }

  lemma RunsAreUnique(d: Db)
    requires Valid(d)
    ensures OneReportPerRun(d.reports)
  {
  }

  lemma SameEvidence(d: Db, d': Db)
    requires Extends(d, d', d.reports.Keys, d.items.Keys)
    ensures d'.evidence == d.evidence
  {
  }

  // ------------------------------------------------------------ verdict rows

  /** The row of claim `i` of item `k` of a stored report. */
  function ClaimRowId(d: Db, id: Id, k: nat, i: nat): Id
    requires k < |Children(d.items, id)| && i < |Children(d.claims, Children(d.items, id)[k])|
  {
    Children(d.claims, Children(d.items, id)[k])[i]
  }

  /** A stored draft has a row for every claim. */
  ghost predicate HasRows(d: Db, id: Id, items: seq<Item>) {
    && |Children(d.items, id)| == |items|
    && forall k :: 0 <= k < |items| ==> |Children(d.claims, Children(d.items, id)[k])| == |items[k].claims|
  }

  /** Every claim's row carries its own judgement: the status, and a verdict row exactly when there is one. */
  ghost predicate RowsAreOwn(d: Db, id: Id, items: seq<Item>, evidence: EvidenceMap,
                             judge: (nat, nat) -> Option<Verdict>)
    requires HasRows(d, id, items)
  {
    forall k: nat, i: nat :: k < |items| && i < |items[k].claims| ==>
      RowIs(d, id, ClaimRowId(d, id, k, i), items[k].claims[i].text, Judged(items, evidence, judge, k, i))
  }

  ghost predicate RowIs(d: Db, id: Id, claimId: Id, text: string, verdict: Option<Verdict>) {
    && claimId in d.claims && d.claims[claimId].data == ClaimData(text, StatusOf(verdict))
    && Data(d.verdicts, claimId) == VerdictRows(id, verdict)
  }

  lemma StoredHasRows(d: Db, id: Id, report: Report, items: seq<Item>, vs: seq<ClaimVerification>)
    requires Stores(d, id, report, vs) && report.items == Stamped(items, vs)
    ensures HasRows(d, id, items)
  {
    hide Data, Children, StoresClaim;
    forall k | 0 <= k < |items| ensures |Children(d.claims, Children(d.items, id)[k])| == |items[k].claims| {
      assert StoresItem(d, Children(d.items, id)[k], id, k, report.items[k], vs);
    }
  }

  /** A claim's row carries what the verdict list answers for the claim's notice and ordinal. */
  lemma RowHoldsListedVerdict(d: Db, id: Id, report: Report, items: seq<Item>, vs: seq<ClaimVerification>,
                              k: nat, i: nat)
    requires Stores(d, id, report, vs) && report.items == Stamped(items, vs) && HasRows(d, id, items)
    requires k < |items| && i < |items[k].claims|
    ensures RowIs(d, id, ClaimRowId(d, id, k, i), items[k].claims[i].text, VerdictFor(vs, items[k].notice, i))
  {
    hide Data, Children, VerdictFor;
    var itemId := Children(d.items, id)[k];
    assert StoresItem(d, itemId, id, k, report.items[k], vs);
    assert StoresClaim(d, Children(d.claims, itemId)[i], itemId, id, report.items[k], i, vs);
    assert report.items[k].claims[i] == items[k].claims[i].(support := StatusOf(VerdictFor(vs, items[k].notice, i)));
  }

  /** Of a stored draft with the verifier's list, the rows carry each claim's own judgement exactly when
      the list answers with it. */
  lemma OwnVerdictRows(d: Db, id: Id, report: Report, items: seq<Item>, evidence: EvidenceMap,
                       judge: (nat, nat) -> Option<Verdict>)
    requires Stores(d, id, report, AllVerdicts(items, evidence, judge))
    requires report.items == Stamped(items, AllVerdicts(items, evidence, judge))
    ensures HasRows(d, id, items)
    ensures RowsAreOwn(d, id, items, evidence, judge) <==> OwnVerdicts(items, evidence, judge)
  {
    hide Stores, RowIs, Judged, VerdictFor, AllVerdicts, Stamped, ClaimRowId, Children;
    var vs := AllVerdicts(items, evidence, judge);
    StoredHasRows(d, id, report, items, vs);
    forall k: nat, i: nat | k < |items| && i < |items[k].claims|
      ensures RowIs(d, id, ClaimRowId(d, id, k, i), items[k].claims[i].text, Judged(items, evidence, judge, k, i))
              <==> VerdictFor(vs, items[k].notice, i) == Judged(items, evidence, judge, k, i)
    {
      RowHoldsListedVerdict(d, id, report, items, vs, k, i);
      OneVerdictPerRow(d, id, ClaimRowId(d, id, k, i), items[k].claims[i].text,
                       VerdictFor(vs, items[k].notice, i), Judged(items, evidence, judge, k, i));
    }
  }

  lemma OneVerdictPerRow(d: Db, id: Id, claimId: Id, text: string, v: Option<Verdict>, w: Option<Verdict>)
    requires RowIs(d, id, claimId, text, v)
    ensures RowIs(d, id, claimId, text, w) <==> v == w
  {
    if VerdictRows(id, v) == VerdictRows(id, w) && v.Some? && w.Some? {
      assert VerdictRows(id, v)[0] == VerdictRows(id, w)[0];
    }
  }

  /** Semantic verification and delivery of a draft: a newly stored draft whose items of one notice do not
      share claims has each claim's own judgement on its row. */
  method VerifyAndDeliver(store: ReportPersistence, runId: nat, header: Header, draft: seq<Item>,
                          evidence: EvidenceMap, judge: (nat, nat) -> Option<Verdict>)
    returns (r: Result<Persisted, DeliveryError>)
    requires Valid(store.db) && forall item :: item in draft ==> ValidItem(item)
    modifies store
    ensures Valid(store.db)
    ensures r.Ok? ==> Load(store.db, runId) == Some(r.value)
    ensures Load(old(store.db), runId).None? && r.Ok? ==>
      && r.value.report == Report(runId, header, Stamped(draft, AllVerdicts(draft, evidence, judge)))
      && HasRows(store.db, r.value.id, draft)
      && (RowsAreOwn(store.db, r.value.id, draft, evidence, judge) <==> OwnVerdicts(draft, evidence, judge))
      && (ClaimsApart(draft) ==> RowsAreOwn(store.db, r.value.id, draft, evidence, judge))
  {
    hide Valid, ValidItem, Stores, HasRows, RowsAreOwn, OwnVerdicts, ClaimsApart, Projected, ItemBacked;
    RunsAreUnique(store.db);
    ghost var isNew := Load(store.db, runId).None?;
    var vs, _ := VerifySemantics(draft, evidence, judge);
    r := PersistAndDeliver(store, runId, header, draft, evidence, vs);
    if isNew && r.Ok? {
      OwnVerdictRows(store.db, r.value.id, r.value.report, draft, evidence, judge);
      if ClaimsApart(draft) {
        ApartClaimsOwnTheirVerdicts(draft, evidence, judge);
      }
    }
  }

  /** A report stored for this draft with the verifier's list for it. */
  ghost predicate StoredWith(d: Db, id: Id, report: Report, draft: seq<Item>, evidence: EvidenceMap,
                             judge: (nat, nat) -> Option<Verdict>)
  {
    var vs := AllVerdicts(draft, evidence, judge);
    Stores(d, id, report, vs) && report.items == Stamped(draft, vs)
  }

  ghost predicate OwnRows(d: Db, id: Id, draft: seq<Item>, evidence: EvidenceMap, judge: (nat, nat) -> Option<Verdict>) {
    HasRows(d, id, draft) && RowsAreOwn(d, id, draft, evidence, judge)
  }

  /** Every report stored for the draft has each claim's own judgement on its row. */
  ghost predicate AlwaysOwn(draft: seq<Item>, evidence: EvidenceMap, judge: (nat, nat) -> Option<Verdict>) {
    forall d, id, report :: StoredWith(d, id, report, draft, evidence, judge) ==> OwnRows(d, id, draft, evidence, judge)
  }

  /** No report stored for the draft has. */
  ghost predicate NeverOwn(draft: seq<Item>, evidence: EvidenceMap, judge: (nat, nat) -> Option<Verdict>) {
    forall d, id, report :: StoredWith(d, id, report, draft, evidence, judge) ==> !OwnRows(d, id, draft, evidence, judge)
  }

  lemma RowsFollowTheList(draft: seq<Item>, evidence: EvidenceMap, judge: (nat, nat) -> Option<Verdict>)
    ensures OwnVerdicts(draft, evidence, judge) ==> AlwaysOwn(draft, evidence, judge)
    ensures !OwnVerdicts(draft, evidence, judge) ==> NeverOwn(draft, evidence, judge)
  {
    hide OwnVerdicts, Stores, AllVerdicts, HasRows, RowsAreOwn;
    forall d, id, report | StoredWith(d, id, report, draft, evidence, judge)
      ensures OwnRows(d, id, draft, evidence, judge) <==> OwnVerdicts(draft, evidence, judge)
    {
      OwnVerdictRows(d, id, report, draft, evidence, judge);
    }
  }

  /** From the accepted draft to its rows: without items of one notice that share claims, every stored
      report has each claim's own judgement on its row, whatever the verifier answers; with such items
      there are answers for which no stored report has. */
  lemma StoredVerdictsAreOwnExactlyWhenApart(draft: seq<Item>, evidence: EvidenceMap, candidates: seq<NoticeId>,
                                             views: map<NoticeId, View>, hashOf: string -> Hash)
    requires BindsAll(evidence, candidates, views, hashOf) && ReportErrors(draft, evidence, hashOf) == []
    ensures ClaimsApart(draft) ==> forall judge: (nat, nat) -> Option<Verdict> :: AlwaysOwn(draft, evidence, judge)
    ensures !ClaimsApart(draft) ==> exists judge: (nat, nat) -> Option<Verdict> :: NeverOwn(draft, evidence, judge)
  {
    hide BindsAll, ReportErrors, OwnVerdicts, ClaimsApart, AlwaysOwn, NeverOwn;
    VerdictsAreOwnExactlyWhenApart(draft, evidence, candidates, views, hashOf);
    forall judge: (nat, nat) -> Option<Verdict> {
      RowsFollowTheList(draft, evidence, judge);
    }
    if !ClaimsApart(draft) {
      var judge: (nat, nat) -> Option<Verdict> :| !OwnVerdicts(draft, evidence, judge);
      RowsFollowTheList(draft, evidence, judge);
      assert NeverOwn(draft, evidence, judge);
    }
  }

  /** Two items of one notice share the verdicts of the claims they both have. */
  lemma SharedNoticeSharesVerdicts(d: Db, id: Id, report: Report, items: seq<Item>, vs: seq<ClaimVerification>,
                                   a: nat, b: nat, i: nat)
    requires Stores(d, id, report, vs) && report.items == Stamped(items, vs) && HasRows(d, id, items)
    requires a < |items| && b < |items| && items[a].notice == items[b].notice
    requires i < |items[a].claims| && i < |items[b].claims|
    ensures Data(d.verdicts, ClaimRowId(d, id, a, i)) == Data(d.verdicts, ClaimRowId(d, id, b, i))
  {
    hide Stores, Data, ClaimRowId, VerdictFor, Children;
    RowHoldsListedVerdict(d, id, report, items, vs, a, i);
    RowHoldsListedVerdict(d, id, report, items, vs, b, i);
  }

  // ------------------------------------------------------------ accepted drafts

  /** Delivery never refuses an accepted claim as unbound: with the map of `verify_evidence`, every
      citation of every claim of an accepted draft is bound to the item's own notice. */
  lemma AcceptedClaimsAreBound(items: seq<Item>, evidence: EvidenceMap, candidates: seq<NoticeId>,
                               views: map<NoticeId, View>, hashOf: string -> Hash, item: Item, c: Claim, id: Hash)
    requires BindsAll(evidence, candidates, views, hashOf) && ReportErrors(items, evidence, hashOf) == []
    requires item in items && c in item.claims && id in c.citationIds
    ensures Bound(evidence, item.notice, id)
  {
    hide BindsAll, ReportErrors;
    AcceptedExactlyWhenWellCited(items, evidence, candidates, views, hashOf);
    assert WellCited(candidates, views, hashOf, item.notice, c);
    CitationAccepted(id, item.notice, evidence, candidates, views, hashOf);
    var span := FirstOf(evidence[id], item.notice).value;
    var k :| 0 <= k < |evidence[id]| && evidence[id][k] == span;
  }

  /** Item-level citations are not validated: an accepted draft can still be refused at delivery. */
  lemma ItemCitationsAreNotValidated(notice: NoticeId, body: Body, id: Hash, hashOf: string -> Hash, stored: map<Id, Span>)
    ensures
      var item := Item(notice, body, [Citation(id, None)], []);
      ReportErrors([item], map[], hashOf) == [] && !ItemBacked(stored, map[], item)
  {
    var item := Item(notice, body, [Citation(id, None)], []);
    assert [item][..0] == [];
    assert CitedBy(item)[0] == id;
    assert id in CitedBy(item);
  }

  // ------------------------------------------------------------ accepted drafts always store

  /** Every text a view offers is an evidence row of its notice, as when views are read from that table. */
  ghost predicate ViewsStored(stored: map<Id, Span>, views: map<NoticeId, View>, hashOf: string -> Hash) {
    forall n, t :: n in views && t in views[n].texts ==> Matches(stored, n, hashOf(t)) != {}
  }

  lemma QuotableResolves(stored: map<Id, Span>, evidence: EvidenceMap, candidates: seq<NoticeId>,
                         views: map<NoticeId, View>, hashOf: string -> Hash, n: NoticeId, id: Hash)
    requires BindsAll(evidence, candidates, views, hashOf) && ViewsStored(stored, views, hashOf)
    ensures Resolved(stored, evidence, n, id).Ok? <==> Quotable(candidates, views, hashOf, n, id)
    ensures Resolved(stored, evidence, n, id).Ok? <==> Bound(evidence, n, id)
  {
    hide BindsAll;
    CitationAccepted(id, n, evidence, candidates, views, hashOf);
    if Bound(evidence, n, id) {
      var k :| 0 <= k < |evidence[id]| && evidence[id][k].notice == n;
      BoundIsQuotable(evidence, candidates, views, hashOf, id, evidence[id][k]);
    }
    if Quotable(candidates, views, hashOf, n, id) {
      var span := FirstOf(evidence[id], n).value;
      var k :| 0 <= k < |evidence[id]| && evidence[id][k] == span;
    }
  }

  lemma BoundIsQuotable(evidence: EvidenceMap, candidates: seq<NoticeId>, views: map<NoticeId, View>,
                        hashOf: string -> Hash, id: Hash, span: Span)
    requires BindsAll(evidence, candidates, views, hashOf) && InMap(evidence, id, span)
    ensures Quotable(candidates, views, hashOf, span.notice, id)
  {
    assert GoodSpan(candidates, views, hashOf, span);
    assert Supports(candidates, views, span.notice, span.text) && hashOf(span.text) == id;
  }

  ghost predicate ItemCitationsBound(evidence: EvidenceMap, item: Item) {
    forall h :: h in CitedBy(item) ==> Bound(evidence, item.notice, h)
  }

  /** An item of an accepted draft can be stored exactly when its item-level citations are bound. */
  lemma AcceptedItemBacked(stored: map<Id, Span>, items: seq<Item>, evidence: EvidenceMap,
                           candidates: seq<NoticeId>, views: map<NoticeId, View>, hashOf: string -> Hash,
                           vs: seq<ClaimVerification>, item: Item)
    requires BindsAll(evidence, candidates, views, hashOf) && ViewsStored(stored, views, hashOf)
    requires ReportErrors(items, evidence, hashOf) == [] && item in items
    ensures ItemBacked(stored, evidence, StampedItem(item, vs)) <==> ItemCitationsBound(evidence, item)
  {
    hide BindsAll, ViewsStored, ReportErrors, Resolved, Bound, Quotable;
    AcceptedExactlyWhenWellCited(items, evidence, candidates, views, hashOf);
    var stamped := StampedItem(item, vs);
    assert CitedBy(stamped) == CitedBy(item);
    forall c, h | c in stamped.claims && h in c.citationIds ensures Resolved(stored, evidence, item.notice, h).Ok? {
      var i :| 0 <= i < |stamped.claims| && stamped.claims[i] == c;
      assert item.claims[i] in item.claims;
      assert WellCited(candidates, views, hashOf, item.notice, item.claims[i]);
      QuotableResolves(stored, evidence, candidates, views, hashOf, item.notice, h);
    }
    forall h | h in CitedBy(item)
      ensures Resolved(stored, evidence, item.notice, h).Ok? <==> Bound(evidence, item.notice, h)
    {
      QuotableResolves(stored, evidence, candidates, views, hashOf, item.notice, h);
    }
  }

  /** An accepted draft can be stored exactly when the item-level citations of all its items are bound. */
  lemma AcceptedDraftBacked(stored: map<Id, Span>, items: seq<Item>, evidence: EvidenceMap,
                            candidates: seq<NoticeId>, views: map<NoticeId, View>, hashOf: string -> Hash,
                            vs: seq<ClaimVerification>)
    requires BindsAll(evidence, candidates, views, hashOf) && ViewsStored(stored, views, hashOf)
    requires ReportErrors(items, evidence, hashOf) == []
    ensures (forall item :: item in Stamped(items, vs) ==> ItemBacked(stored, evidence, item)) <==>
            forall item :: item in items ==> ItemCitationsBound(evidence, item)
  {
    hide BindsAll, ViewsStored, ReportErrors, ItemBacked, ItemCitationsBound, StampedItem;
    var stamped := Stamped(items, vs);
    forall k | 0 <= k < |items|
      ensures ItemBacked(stored, evidence, stamped[k]) <==> ItemCitationsBound(evidence, items[k])
    {
      assert items[k] in items;
      AcceptedItemBacked(stored, items, evidence, candidates, views, hashOf, vs, items[k]);
    }
    assert forall k :: 0 <= k < |items| ==> stamped[k] in stamped && items[k] in items;
  }
}
