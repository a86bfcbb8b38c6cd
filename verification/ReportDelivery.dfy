/** `ReportPersistence`: writing a report in one transaction and reading it back. */
module ReportDelivery {
  import opened Prelude
  import opened Reports
  import opened ReportTables
  import opened ReportStore

  // ------------------------------------------------------------ one row at a time

  lemma CitationInserted(d: Db, id: Id, row: Row<CitationData>, items: set<Id>)
    requires Valid(d) && id !in d.citations && row.parent in d.items.Keys - items
    requires row.data.evidence in d.evidence
    ensures Valid(d.(citations := d.citations[id := row]))
    ensures Extends(d, d.(citations := d.citations[id := row]), d.reports.Keys, items)
  {
  }

  lemma ClaimInserted(d: Db, id: Id, row: Row<ClaimData>, items: set<Id>)
    requires Valid(d) && id !in d.claims && row.parent in d.items.Keys - items
    ensures Valid(d.(claims := d.claims[id := row]))
    ensures Extends(d, d.(claims := d.claims[id := row]), d.reports.Keys, items)
    ensures Data(d.claimCitations, id) == [] && Data(d.verdicts, id) == []
  {
    NoChildren(d.claimCitations, id);
    NoChildren(d.verdicts, id);
  }

  lemma ItemInserted(d: Db, id: Id, row: Row<ItemData>, reports: set<Id>)
    requires Valid(d) && id !in d.items && row.parent in d.reports.Keys - reports
    ensures Valid(d.(items := d.items[id := row]))
    ensures Extends(d, d.(items := d.items[id := row]), reports, d.items.Keys)
    ensures Data(d.citations, id) == [] && Children(d.claims, id) == []
  {
    NoChildren(d.citations, id);
    NoChildren(d.claims, id);
  }

  lemma ReportInserted(d: Db, id: Id, row: ReportRow)
    requires Valid(d) && id !in d.reports
    requires forall other :: other in d.reports ==> d.reports[other].runId != row.runId
    ensures Valid(d.(reports := d.reports[id := row]))
    ensures Extends(d, d.(reports := d.reports[id := row]), d.reports.Keys, d.items.Keys)
    ensures Children(d.items, id) == []
  {
    NoChildren(d.items, id);
  }

  /** The first `n` citations of an item are stored under it and nothing else was added. */
  ghost predicate CitationsDone(start: Db, d: Db, itemId: Id, item: Item, n: nat)
    requires n <= |item.citations|
  {
    && Valid(d) && itemId in d.items && d == start.(citations := d.citations)
    && Extends(start, d, d.reports.Keys, d.items.Keys - {itemId})
    && (forall id :: id in d.citations && d.citations[id].parent == itemId ==> d.citations[id].ordinal < n)
    && Data(d.citations, itemId) == CitationRows(d.evidence, item.notice, item.citations[..n])
  }

  lemma CitationsBegin(d: Db, itemId: Id, item: Item)
    requires Valid(d) && itemId in d.items && Data(d.citations, itemId) == []
    ensures CitationsDone(d, d, itemId, item, 0)
  {
    assert forall id :: id in d.citations && d.citations[id].parent == itemId ==> id in Children(d.citations, itemId);
  }

  /** The row written for a citation whose evidence is `evidence`. */
  function NewCitation(d: Db, itemId: Id, ordinal: nat, citation: Citation, evidence: Id): Row<CitationData>
    requires evidence in d.evidence
  {
    Row(itemId, ordinal,
        CitationData(evidence, citation.tag, d.evidence[evidence].start, d.evidence[evidence].end))
  }

  lemma CitationsStep(start: Db, d: Db, itemId: Id, item: Item, n: nat, evidence: Id, id: Id)
    requires n < |item.citations| && CitationsDone(start, d, itemId, item, n)
    requires FirstEvidence(d.evidence, item.notice, item.citations[n].evidenceId) == Some(evidence)
    requires id !in d.citations
    ensures
      CitationsDone(start, d.(citations := d.citations[id := NewCitation(d, itemId, n, item.citations[n], evidence)]),
                    itemId, item, n + 1)
  {
    hide Extends, Valid;
    var row := NewCitation(d, itemId, n, item.citations[n], evidence);
    var d' := d.(citations := d.citations[id := row]);
    var others := d.items.Keys - {itemId};
    CitationInserted(d, id, row, others);
    DataAppended(d.citations, id, row);
    ExtendsTwice(start, d, d', d.reports.Keys, others, d.reports.Keys, others);
    assert item.citations[..n + 1] == item.citations[..n] + [item.citations[n]];
  }

  lemma CitationsEnd(start: Db, d: Db, itemId: Id, item: Item)
    requires CitationsDone(start, d, itemId, item, |item.citations|)
    ensures Valid(d) && d == start.(citations := d.citations)
    ensures Extends(start, d, d.reports.Keys, d.items.Keys - {itemId})
    ensures Data(d.citations, itemId) == CitationRows(d.evidence, item.notice, item.citations)
  {
    hide Extends, Valid;
    assert item.citations[..|item.citations|] == item.citations;
  }

  // ------------------------------------------------------------ a claim

  /** The new claim row and its verdict row are there, its citations not yet. */
  ghost predicate ClaimOpened(start: Db, d: Db, claimId: Id, itemId: Id, report: Id, ordinal: nat, claim: Claim,
                              verdict: Option<Verdict>)
  {
    && Valid(d) && claimId !in start.claims && itemId in d.items
    && d == start.(claims := start.claims[claimId := Row(itemId, ordinal, ClaimRow(claim, verdict))],
                   verdicts := d.verdicts)
    && Extends(start, d, d.reports.Keys, d.items.Keys - {itemId})
    && Data(d.claimCitations, claimId) == []
    && Data(d.verdicts, claimId) == VerdictRows(report, verdict)
  }

  lemma OpenClaim(start: Db, claimId: Id, itemId: Id, report: Id, ordinal: nat, claim: Claim,
                  verdict: Option<Verdict>, verdictId: Id)
    requires Valid(start) && claimId !in start.claims && itemId in start.items && verdictId !in start.verdicts
    ensures
      var row := Row(itemId, ordinal, ClaimRow(claim, verdict));
      var verdicts := if verdict.None? then start.verdicts
                      else start.verdicts[verdictId := Row(claimId, 0, VerdictData(report, verdict.value))];
      ClaimOpened(start, start.(claims := start.claims[claimId := row], verdicts := verdicts), claimId, itemId,
                  report, ordinal, claim, verdict)
  {
    var row := Row(itemId, ordinal, ClaimRow(claim, verdict));
    ClaimInserted(start, claimId, row, start.items.Keys - {itemId});
    if verdict.Some? {
      var d := start.(claims := start.claims[claimId := row]);
      var verdictRow := Row(claimId, 0, VerdictData(report, verdict.value));
      VerdictInserted(start, d, itemId, claimId, verdictId, verdictRow);
    }
  }

  lemma VerdictInserted(start: Db, d: Db, itemId: Id, claimId: Id, verdictId: Id, row: Row<VerdictData>)
    requires Valid(d) && claimId in d.claims && claimId !in start.claims && row.parent == claimId
    requires Extends(start, d, d.reports.Keys, d.items.Keys - {itemId})
    requires verdictId !in d.verdicts && Data(d.verdicts, claimId) == []
    ensures Valid(d.(verdicts := d.verdicts[verdictId := row]))
    ensures Extends(start, d.(verdicts := d.verdicts[verdictId := row]), d.reports.Keys, d.items.Keys - {itemId})
    ensures Data(d.verdicts[verdictId := row], claimId) == [row.data]
  {
    hide Data, Children, Select, Valid, Extends;
    VerdictListed(d.verdicts, verdictId, row);
    VerdictLinked(d, verdictId, row);
    VerdictExtends(start, d, d.reports.Keys, d.items.Keys - {itemId}, verdictId, row);
  }

  lemma VerdictLinked(d: Db, id: Id, row: Row<VerdictData>)
    requires Valid(d) && row.parent in d.claims
    ensures Valid(d.(verdicts := d.verdicts[id := row]))
  {
  }

  lemma VerdictExtends(start: Db, d: Db, reports: set<Id>, items: set<Id>, id: Id, row: Row<VerdictData>)
    requires Extends(start, d, reports, items) && id !in d.verdicts && row.parent !in start.claims
    ensures Extends(start, d.(verdicts := d.verdicts[id := row]), reports, items)
  {
  }

  lemma VerdictListed(t: Table<VerdictData>, id: Id, row: Row<VerdictData>)
    requires id !in t && Data(t, row.parent) == []
    ensures Data(t[id := row], row.parent) == [row.data]
  {
    assert forall other :: other in t && t[other].parent == row.parent ==> other in Children(t, row.parent);
    DataAppended(t, id, row);
  }

  /** The distinct hashes among the first citations of a claim are stored under it in order. */
  ghost predicate CitesDone(start: Db, d: Db, claimId: Id, item: Item, hashes: seq<Hash>) {
    && Valid(d) && claimId in d.claims && d == start.(claimCitations := d.claimCitations)
    && Grown(start.claimCitations, d.claimCitations, d.claims.Keys - {claimId})
    && (forall id :: id in d.claimCitations && d.claimCitations[id].parent == claimId ==>
          d.claimCitations[id].ordinal < |Dedup(hashes)|)
    && Data(d.claimCitations, claimId) == ClaimCitationRows(d.evidence, item, Dedup(hashes))
  }

  lemma CitesBegin(d: Db, claimId: Id, item: Item)
    requires Valid(d) && claimId in d.claims && Data(d.claimCitations, claimId) == []
    ensures CitesDone(d, d, claimId, item, [])
  {
    assert forall id :: id in d.claimCitations && d.claimCitations[id].parent == claimId ==>
                          id in Children(d.claimCitations, claimId);
  }

  lemma CiteInserted(d: Db, id: Id, row: Row<ClaimCitationData>)
    requires Valid(d) && id !in d.claimCitations && row.parent in d.claims && row.data.evidence in d.evidence
    ensures Valid(d.(claimCitations := d.claimCitations[id := row]))
  {
  }

  lemma CitesStep(start: Db, d: Db, claimId: Id, item: Item, hashes: seq<Hash>, hash: Hash, evidence: Id, id: Id)
    requires CitesDone(start, d, claimId, item, hashes) && Dedup(hashes + [hash]) == Dedup(hashes) + [hash]
    requires FirstEvidence(d.evidence, item.notice, hash) == Some(evidence)
    requires id !in d.claimCitations
    ensures
      var row := Row(claimId, |Dedup(hashes)|, ClaimCitationData(evidence, TagOf(item.citations, hash)));
      CitesDone(start, d.(claimCitations := d.claimCitations[id := row]), claimId, item, hashes + [hash])
  {
    hide Valid, Dedup, Children, Data, ClaimCitationRows;
    var row := Row(claimId, |Dedup(hashes)|, ClaimCitationData(evidence, TagOf(item.citations, hash)));
    assert Valid(d.(claimCitations := d.claimCitations[id := row])) by {
      CiteInserted(d, id, row);
    }
    DataAppended(d.claimCitations, id, row);
    NextClaimCitation(d.evidence, item, Dedup(hashes), hash);
  }

  lemma NextClaimCitation(evidence: map<Id, Span>, item: Item, hashes: seq<Hash>, hash: Hash)
    ensures ClaimCitationRows(evidence, item, hashes + [hash]) ==
            ClaimCitationRows(evidence, item, hashes) +
            [ClaimCitationData(EvidenceId(evidence, item.notice, hash), TagOf(item.citations, hash))]
  {
  }

  lemma ResolvedIsFirst(evidence: map<Id, Span>, bindings: EvidenceMap, notice: NoticeId, hash: Hash, id: Id)
    requires Resolved(evidence, bindings, notice, hash) == Ok(id)
    ensures FirstEvidence(evidence, notice, hash) == Some(id)
  {
  }

  lemma AllResolveNext(evidence: map<Id, Span>, bindings: EvidenceMap, notice: NoticeId, hashes: seq<Hash>, k: nat)
    requires k < |hashes| && AllResolve(evidence, bindings, notice, hashes[..k])
    ensures AllResolve(evidence, bindings, notice, hashes[..k + 1]) <==>
            Resolved(evidence, bindings, notice, hashes[k]).Ok?
    ensures Resolved(evidence, bindings, notice, hashes[k]).Err? ==>
            !AllResolve(evidence, bindings, notice, hashes)
  {
    assert hashes[..k + 1] == hashes[..k] + [hashes[k]];
  }

  lemma CitesEnd(start: Db, begun: Db, d: Db, claimId: Id, itemId: Id, report: Id, ordinal: nat, item: Item,
                 vs: seq<ClaimVerification>)
    requires ordinal < |item.claims|
    requires
      ClaimOpened(start, begun, claimId, itemId, report, ordinal, item.claims[ordinal],
                  VerdictFor(vs, item.notice, ordinal))
    requires CitesDone(begun, d, claimId, item, item.claims[ordinal].citationIds)
    ensures Valid(d) && Extends(start, d, d.reports.Keys, d.items.Keys - {itemId})
    ensures StoresClaim(d, claimId, itemId, report, item, ordinal, vs)
  {
    hide Valid;
    GrownTwice(start.claimCitations, begun.claimCitations, d.claimCitations, start.claims.Keys,
               d.claims.Keys - {claimId});
  }

  lemma NothingYet(evidence: map<Id, Span>, bindings: EvidenceMap, notice: NoticeId)
    ensures AllResolve(evidence, bindings, notice, []) && Dedup<Hash>([]) == []
  {
  }

  lemma CitesOnly(start: Db, d: Db, claimId: Id, item: Item, hashes: seq<Hash>)
    requires CitesDone(start, d, claimId, item, hashes)
    ensures d == start.(claimCitations := d.claimCitations)
  {
  }

  lemma CitesAgain(start: Db, d: Db, claimId: Id, item: Item, hashes: seq<Hash>, more: seq<Hash>)
    requires CitesDone(start, d, claimId, item, hashes) && Dedup(more) == Dedup(hashes)
    ensures CitesDone(start, d, claimId, item, more)
  {
  }

  lemma OpenedIsValid(start: Db, d: Db, claimId: Id, itemId: Id, report: Id, ordinal: nat, claim: Claim,
                      verdict: Option<Verdict>)
    requires ClaimOpened(start, d, claimId, itemId, report, ordinal, claim, verdict)
    ensures Valid(d) && claimId in d.claims && Data(d.claimCitations, claimId) == []
  {
  }

  lemma ClaimsEnd(start: Db, d: Db, itemId: Id, report: Id, item: Item, vs: seq<ClaimVerification>)
    requires ClaimsDone(start, d, itemId, report, item, |item.claims|, vs)
    ensures Valid(d) && Extends(start, d, d.reports.Keys, d.items.Keys - {itemId})
    ensures d == start.(claims := d.claims, claimCitations := d.claimCitations, verdicts := d.verdicts)
    ensures StoresClaims(d, itemId, report, item, |item.claims|, vs)
  {
  }

  /** The first `n` claims of an item are stored under it; items and item citations are as before. */
  ghost predicate ClaimsDone(start: Db, d: Db, itemId: Id, report: Id, item: Item, n: nat,
                             vs: seq<ClaimVerification>)
    requires n <= |item.claims|
  {
    && Valid(d) && itemId in d.items
    && d == start.(claims := d.claims, claimCitations := d.claimCitations, verdicts := d.verdicts)
    && Extends(start, d, d.reports.Keys, d.items.Keys - {itemId})
    && (forall id :: id in d.claims && d.claims[id].parent == itemId ==> d.claims[id].ordinal < n)
    && StoresClaims(d, itemId, report, item, n, vs)
  }

  lemma ClaimsBegin(d: Db, itemId: Id, report: Id, item: Item, vs: seq<ClaimVerification>)
    requires Valid(d) && itemId in d.items && Children(d.claims, itemId) == []
    ensures ClaimsDone(d, d, itemId, report, item, 0, vs)
  {
    assert forall id :: id in d.claims && d.claims[id].parent == itemId ==> id in Children(d.claims, itemId);
  }

  lemma ClaimAdded(start: Db, d: Db, d': Db, claimId: Id, itemId: Id, report: Id, item: Item, n: nat,
                   vs: seq<ClaimVerification>)
    requires n < |item.claims| && ClaimsDone(start, d, itemId, report, item, n, vs)
    requires Valid(d') && Extends(d, d', d.reports.Keys, d.items.Keys - {itemId})
    requires claimId !in d.claims && d'.claims.Keys == d.claims.Keys + {claimId}
    requires d' == d.(claims := d'.claims, claimCitations := d'.claimCitations, verdicts := d'.verdicts)
    requires StoresClaim(d', claimId, itemId, report, item, n, vs)
    ensures ClaimsDone(start, d', itemId, report, item, n + 1, vs)
  {
    hide Valid, Extends, StoresClaim, Children, Select;
    var others := d.items.Keys - {itemId};
    ExtendsTwice(start, d, d', d.reports.Keys, others, d.reports.Keys, others);
    var row := d'.claims[claimId];
    assert row.parent == itemId && row.ordinal == n by {
      StoredRow(d', claimId, itemId, report, item, n, vs);
    }
    assert d'.claims == d.claims[claimId := row] by {
      ExtendsParts(d, d', d.reports.Keys, others);
    }
    ChildAppended(d.claims, claimId, row);
    forall i | 0 <= i < n
      ensures StoresClaim(d', Children(d'.claims, itemId)[i], itemId, report, item, i, vs)
    {
      ClaimStays(d, d', d.reports.Keys, others, Children(d.claims, itemId)[i], itemId, report, item, i, vs);
    }
  }

  lemma StoredRow(d: Db, claimId: Id, itemId: Id, report: Id, item: Item, n: nat, vs: seq<ClaimVerification>)
    requires n < |item.claims| && StoresClaim(d, claimId, itemId, report, item, n, vs)
    ensures claimId in d.claims && d.claims[claimId].parent == itemId && d.claims[claimId].ordinal == n
  {
  }

  // ------------------------------------------------------------ an item

  lemma NoClaimsYet(added: Db, cited: Db, itemId: Id)
    requires cited == added.(citations := cited.citations) && Children(added.claims, itemId) == []
    ensures Children(cited.claims, itemId) == []
  {
  }

  /** The three stages of storing an item, seen from before it. */
  lemma ItemExtends(start: Db, added: Db, cited: Db, d: Db, report: Id, itemId: Id)
    requires itemId !in start.items && added.reports.Keys == cited.reports.Keys == d.reports.Keys == start.reports.Keys
    requires added.items.Keys == cited.items.Keys == d.items.Keys == start.items.Keys + {itemId}
    requires Extends(start, added, start.reports.Keys - {report}, start.items.Keys)
    requires Extends(added, cited, cited.reports.Keys, cited.items.Keys - {itemId})
    requires Extends(cited, d, d.reports.Keys, d.items.Keys - {itemId})
    ensures Extends(start, d, start.reports.Keys - {report}, start.items.Keys)
  {
    hide Extends;
    ExtendsTwice(start, added, cited, start.reports.Keys - {report}, start.items.Keys, cited.reports.Keys,
                 cited.items.Keys - {itemId});
    ExtendsTwice(start, cited, d, start.reports.Keys - {report}, start.items.Keys, d.reports.Keys,
                 d.items.Keys - {itemId});
  }

  // ------------------------------------------------------------ a report

  ghost predicate ItemsDone(start: Db, d: Db, report: Id, items: seq<Item>, n: nat, vs: seq<ClaimVerification>)
    requires n <= |items|
  {
    && d.reports == start.reports
    && Extends(start, d, start.reports.Keys - {report}, start.items.Keys)
    && (forall id :: id in d.items && d.items[id].parent == report ==> d.items[id].ordinal < n)
    && StoresItems(d, report, items[..n], vs)
  }

  lemma ItemsBegin(d: Db, report: Id, items: seq<Item>, vs: seq<ClaimVerification>)
    requires Children(d.items, report) == []
    ensures ItemsDone(d, d, report, items, 0, vs)
  {
    ExtendsSelf(d, d.reports.Keys - {report}, d.items.Keys);
    assert forall id :: id in d.items && d.items[id].parent == report ==> id in Children(d.items, report);
  }

  lemma ItemAdded(start: Db, d: Db, d': Db, itemId: Id, report: Id, items: seq<Item>, n: nat,
                  vs: seq<ClaimVerification>)
    requires n < |items| && ItemsDone(start, d, report, items, n, vs) && d'.reports == d.reports
    requires Extends(d, d', d.reports.Keys - {report}, d.items.Keys)
    requires itemId !in d.items
    requires d'.items == d.items[itemId := Row(report, n, ItemData(items[n].notice, items[n].body))]
    requires StoresItem(d', itemId, report, n, items[n], vs)
    ensures ItemsDone(start, d', report, items, n + 1, vs)
  {
    hide Extends, StoresItem, Children, Select;
    assert start.items.Keys <= d.items.Keys by {
      ExtendsParts(start, d, start.reports.Keys - {report}, start.items.Keys);
    }
    ExtendsTwice(start, d, d', start.reports.Keys - {report}, start.items.Keys, d.reports.Keys - {report},
                 d.items.Keys);
    var row := Row(report, n, ItemData(items[n].notice, items[n].body));
    ChildAppended(d.items, itemId, row);
    var ids := Children(d.items, report);
    forall k | 0 <= k < n ensures StoresItem(d', Children(d'.items, report)[k], report, k, items[k], vs) {
      assert ids[k] in ids;
      ItemStays(d, d', d.reports.Keys - {report}, d.items.Keys, ids[k], report, k, items[k], vs);
    }
  }

  lemma ItemsEnd(start: Db, d: Db, report: Id, items: seq<Item>, vs: seq<ClaimVerification>)
    requires ItemsDone(start, d, report, items, |items|, vs)
    ensures StoresItems(d, report, items, vs)
    ensures Extends(start, d, start.reports.Keys - {report}, start.items.Keys)
  {
    assert items[..|items|] == items;
  }

  lemma ReportExtends(saved: Db, start: Db, d: Db, report: Id)
    requires report !in saved.reports && start.reports.Keys == saved.reports.Keys + {report}
    requires start.items == saved.items
    requires Extends(saved, start, saved.reports.Keys, saved.items.Keys)
    requires Extends(start, d, start.reports.Keys - {report}, start.items.Keys)
    ensures Extends(saved, d, saved.reports.Keys, saved.items.Keys)
  {
    hide Extends;
    ExtendsTwice(saved, start, d, saved.reports.Keys, saved.items.Keys, start.reports.Keys - {report},
                 start.items.Keys);
  }

  lemma RunFound(d: Db, runId: nat, id: Id)
    requires Valid(d) && id in d.reports && d.reports[id].runId == runId
    ensures FindByRun(d, runId) == Some(id)
  {
  }

  // ------------------------------------------------------------ reading back

  function Hashes(d: Db, ids: seq<Id>): seq<Hash>
    requires forall id :: id in ids ==> id in d.claimCitations
  {
    seq(|ids|, i requires 0 <= i < |ids| => assert ids[i] in ids; HashOf(d, d.claimCitations[ids[i]].data.evidence))
  }

  function Citations(d: Db, ids: seq<Id>): seq<Citation>
    requires forall id :: id in ids ==> id in d.citations
  {
    seq(|ids|, i requires 0 <= i < |ids| =>
      assert ids[i] in ids;
      Citation(HashOf(d, d.citations[ids[i]].data.evidence), d.citations[ids[i]].data.tag))
  }

  lemma HashesAgree(d: Db, claimId: Id)
    ensures Hashes(d, Children(d.claimCitations, claimId)) == HashesOf(d, claimId)
  {
  }

  lemma CitationsAgree(d: Db, itemId: Id)
    ensures Citations(d, Children(d.citations, itemId)) == CitationsOf(d, itemId)
  {
  }

  lemma NoClaimsRead(d: Db, ids: seq<Id>)
    requires forall id :: id in ids ==> id in d.claims
    ensures forall p :: ClaimsOf(d, OfParent(d.claims, ids[..0], p)) == []
  {
  }

  lemma ClaimsOfNext(d: Db, ids: seq<Id>, id: Id)
    requires id in d.claims && forall other :: other in ids ==> other in d.claims
    ensures ClaimsOf(d, ids + [id]) ==
            if HashesOf(d, id) == [] then ClaimsOf(d, ids)
            else ClaimsOf(d, ids) + [Claim(d.claims[id].data.text, HashesOf(d, id), d.claims[id].data.support)]
  {
    assert (ids + [id])[..|ids|] == ids;
  }

  class ReportPersistence {
    var db: Db

    /** Starts with an evidence table and no reports. */
    constructor (evidence: map<Id, Span>)
      ensures Valid(db) && db == Db(evidence, map[], map[], map[], map[], map[], map[])
    {
      db := Db(evidence, map[], map[], map[], map[], map[], map[]);
    }

    /** `_resolve_evidence`. */
    method ResolveEvidence(notice: NoticeId, hash: Hash, bindings: EvidenceMap)
      returns (r: Result<Id, DeliveryError>)
      ensures r == Resolved(db.evidence, bindings, notice, hash)
    {
      var candidates := if hash in bindings then bindings[hash] else [];
      var k := 0;
      while k < |candidates| && candidates[k].notice != notice
        invariant 0 <= k <= |candidates|
        invariant forall j :: 0 <= j < k ==> candidates[j].notice != notice
      {
        k := k + 1;
      }
      if k == |candidates| {
        return Err(NotBound);
      }
      var found := FirstEvidence(db.evidence, notice, hash);
      r := if found.None? then Err(NotPersisted) else Ok(found.value);
    }

    /** `_persist_item_citations`: citation rows under the item, and the evidence ids by hash. */
    method PersistItemCitations(itemId: Id, item: Item, bindings: EvidenceMap)
      returns (r: Result<map<Hash, Id>, DeliveryError>)
      requires Valid(db) && itemId in db.items && Data(db.citations, itemId) == []
      modifies this
      ensures r.Ok? <==> AllResolve(old(db.evidence), bindings, item.notice, CitedBy(item))
      ensures r.Ok? ==>
        && Valid(db) && db == old(db).(citations := db.citations)
        && Extends(old(db), db, db.reports.Keys, db.items.Keys - {itemId})
        && Data(db.citations, itemId) == CitationRows(db.evidence, item.notice, item.citations)
        && (forall h :: h in r.value ==> Resolved(db.evidence, bindings, item.notice, h) == Ok(r.value[h]))
    {
      hide CitationsDone, Valid, Extends, CitationRows;
      ghost var start := db;
      var ids: map<Hash, Id> := map[];
      CitationsBegin(db, itemId, item);
      for i := 0 to |item.citations|
        invariant CitationsDone(start, db, itemId, item, i)
        invariant db.evidence == start.evidence
        invariant AllResolve(start.evidence, bindings, item.notice, CitedBy(item)[..i])
        invariant forall h :: h in ids ==> Resolved(start.evidence, bindings, item.notice, h) == Ok(ids[h])
      {
        var citation := item.citations[i];
        var evidence := ResolveEvidence(item.notice, citation.evidenceId, bindings);
        if evidence.Err? {
          assert citation.evidenceId == CitedBy(item)[i];
          return Err(evidence.error);
        }
        ids := ids[citation.evidenceId := evidence.value];
        var id := NewId(db.citations.Keys);
        CitationsStep(start, db, itemId, item, i, evidence.value, id);
        var span := db.evidence[evidence.value];
        assert CitedBy(item)[..i + 1] == CitedBy(item)[..i] + [citation.evidenceId];
        db := db.(citations := db.citations[
          id := Row(itemId, i, CitationData(evidence.value, citation.tag, span.start, span.end))]);
      }
      CitationsEnd(start, db, itemId, item);
      assert CitedBy(item)[..|item.citations|] == CitedBy(item);
      r := Ok(ids);
    }

    /** The citations of one claim, each hash once. `known` caches evidence ids by hash. */
    method PersistClaimCitations(claimId: Id, item: Item, hashes: seq<Hash>, known: map<Hash, Id>,
                                 bindings: EvidenceMap)
      returns (r: Result<map<Hash, Id>, DeliveryError>)
      requires Valid(db) && claimId in db.claims && Data(db.claimCitations, claimId) == []
      requires forall h :: h in known ==> Resolved(db.evidence, bindings, item.notice, h) == Ok(known[h])
      modifies this
      ensures r.Ok? <==> AllResolve(old(db.evidence), bindings, item.notice, hashes)
      ensures r.Ok? ==>
        && CitesDone(old(db), db, claimId, item, hashes)
        && (forall h :: h in r.value ==> Resolved(old(db.evidence), bindings, item.notice, h) == Ok(r.value[h]))
    {
      hide CitesDone, Valid, AllResolve, Resolved, FirstEvidence, Dedup;
      ghost var start := db;
      CitesBegin(db, claimId, item);
      assert hashes[..0] == [];
      NothingYet(start.evidence, bindings, item.notice);
      var ids := known;
      var seen: set<Hash> := {};
      var n := 0;
      for k := 0 to |hashes|
        invariant CitesDone(start, db, claimId, item, hashes[..k])
        invariant db == start.(claimCitations := db.claimCitations)
        invariant n == |Dedup(hashes[..k])|
        invariant forall h :: h in seen <==> h in hashes[..k]
        invariant forall h :: h in seen ==> h in ids
        invariant AllResolve(start.evidence, bindings, item.notice, hashes[..k])
        invariant forall h :: h in ids ==> Resolved(start.evidence, bindings, item.notice, h) == Ok(ids[h])
      {
        var hash := hashes[k];
        DedupNext(hashes, k);
        AllResolveNext(start.evidence, bindings, item.notice, hashes, k);
        assert hashes[..k + 1] == hashes[..k] + [hash];
        if hash !in seen {
          seen := seen + {hash};
          if hash !in ids {
            var evidence := ResolveEvidence(item.notice, hash, bindings);
            if evidence.Err? {
              return Err(evidence.error);
            }
            ids := ids[hash := evidence.value];
          }
          ResolvedIsFirst(db.evidence, bindings, item.notice, hash, ids[hash]);
          var id := NewId(db.claimCitations.Keys);
          CitesStep(start, db, claimId, item, hashes[..k], hash, ids[hash], id);
          db := db.(claimCitations := db.claimCitations[
            id := Row(claimId, n, ClaimCitationData(ids[hash], TagOf(item.citations, hash)))]);
          n := n + 1;
        } else {
          CitesAgain(start, db, claimId, item, hashes[..k], hashes[..k + 1]);
        }
      }
      assert hashes[..|hashes|] == hashes;
      r := Ok(ids);
    }

    /** One round of `_persist_claims`: the claim row, its verdict row, its citations. */
    method PersistClaim(itemId: Id, report: Id, item: Item, ordinal: nat, known: map<Hash, Id>,
                        bindings: EvidenceMap, verdict: Option<Verdict>, ghost vs: seq<ClaimVerification>)
      returns (r: Result<map<Hash, Id>, DeliveryError>, ghost claimId: Id)
      requires Valid(db) && itemId in db.items && ordinal < |item.claims|
      requires verdict == VerdictFor(vs, item.notice, ordinal)
      requires forall h :: h in known ==> Resolved(db.evidence, bindings, item.notice, h) == Ok(known[h])
      modifies this
      ensures r.Ok? <==> AllResolve(old(db.evidence), bindings, item.notice, item.claims[ordinal].citationIds)
      ensures r.Ok? ==>
        && Valid(db) && Extends(old(db), db, db.reports.Keys, db.items.Keys - {itemId})
        && db == old(db).(claims := db.claims, claimCitations := db.claimCitations, verdicts := db.verdicts)
        && claimId !in old(db.claims) && db.claims.Keys == old(db.claims.Keys) + {claimId}
        && StoresClaim(db, claimId, itemId, report, item, ordinal, vs)
        && (forall h :: h in r.value ==> Resolved(db.evidence, bindings, item.notice, h) == Ok(r.value[h]))
    {
      hide ClaimOpened, CitesDone, Valid, Extends, StoresClaim;
      ghost var start := db;
      var claim := item.claims[ordinal];
      var id := NewId(db.claims.Keys);
      var verdictId := NewId(db.verdicts.Keys);
      OpenClaim(db, id, itemId, report, ordinal, claim, verdict, verdictId);
      var row := Row(itemId, ordinal, ClaimRow(claim, verdict));
      db := db.(claims := db.claims[id := row]);
      if verdict.Some? {
        db := db.(verdicts := db.verdicts[verdictId := Row(id, 0, VerdictData(report, verdict.value))]);
      }
      claimId := id;
      ghost var begun := db;
      OpenedIsValid(start, db, id, itemId, report, ordinal, claim, verdict);
      r := PersistClaimCitations(id, item, claim.citationIds, known, bindings);
      if r.Ok? {
        CitesEnd(start, begun, db, id, itemId, report, ordinal, item, vs);
        CitesOnly(begun, db, id, item, claim.citationIds);
      }
    }

    /** `_persist_claims`. */
    method PersistClaims(itemId: Id, report: Id, item: Item, known: map<Hash, Id>, bindings: EvidenceMap,
                         verdicts: map<nat, Verdict>, ghost vs: seq<ClaimVerification>)
      returns (r: Result<(), DeliveryError>)
      requires Valid(db) && itemId in db.items && Children(db.claims, itemId) == []
      requires
        forall i: nat :: (if i in verdicts then Some(verdicts[i]) else None) == VerdictFor(vs, item.notice, i)
      requires forall h :: h in known ==> Resolved(db.evidence, bindings, item.notice, h) == Ok(known[h])
      modifies this
      ensures r.Ok? <==>
        forall c :: c in item.claims ==> AllResolve(old(db.evidence), bindings, item.notice, c.citationIds)
      ensures r.Ok? ==>
        && Valid(db) && Extends(old(db), db, db.reports.Keys, db.items.Keys - {itemId})
        && db == old(db).(claims := db.claims, claimCitations := db.claimCitations, verdicts := db.verdicts)
        && StoresClaims(db, itemId, report, item, |item.claims|, vs)
    {
      hide ClaimsDone, Valid, Extends, StoresClaim, StoresClaims, AllResolve;
      ghost var start := db;
      var ids := known;
      ClaimsBegin(db, itemId, report, item, vs);
      for i := 0 to |item.claims|
        invariant ClaimsDone(start, db, itemId, report, item, i, vs)
        invariant Valid(db)
        invariant db == start.(claims := db.claims, claimCitations := db.claimCitations, verdicts := db.verdicts)
        invariant forall j :: 0 <= j < i ==>
          AllResolve(start.evidence, bindings, item.notice, item.claims[j].citationIds)
        invariant forall h :: h in ids ==> Resolved(start.evidence, bindings, item.notice, h) == Ok(ids[h])
      {
        ghost var before := db;
        var verdict := if i in verdicts then Some(verdicts[i]) else None;
        var stored, claimId := PersistClaim(itemId, report, item, i, ids, bindings, verdict, vs);
        if stored.Err? {
          assert item.claims[i] in item.claims;
          return Err(stored.error);
        }
        ids := stored.value;
        ClaimAdded(start, before, db, claimId, itemId, report, item, i, vs);
      }
      ClaimsEnd(start, db, itemId, report, item, vs);
      r := Ok(());
    }

    /** One round of the report loop: the item row, its citations, its claims. */
    method PersistItem(report: Id, rank: nat, item: Item, bindings: EvidenceMap, verdicts: map<nat, Verdict>,
                       ghost vs: seq<ClaimVerification>)
      returns (r: Result<(), DeliveryError>, ghost itemId: Id)
      requires Valid(db) && report in db.reports
      requires
        forall i: nat :: (if i in verdicts then Some(verdicts[i]) else None) == VerdictFor(vs, item.notice, i)
      modifies this
      ensures r.Ok? <==> ItemBacked(old(db.evidence), bindings, item)
      ensures r.Ok? ==>
        && Valid(db) && db.reports == old(db.reports) && db.evidence == old(db.evidence)
        && Extends(old(db), db, db.reports.Keys - {report}, old(db.items.Keys))
        && itemId !in old(db.items)
        && db.items == old(db.items)[itemId := Row(report, rank, ItemData(item.notice, item.body))]
        && StoresItem(db, itemId, report, rank, item, vs)
    {
      hide Valid, Extends, StoresClaims, AllResolve, CitationRows, Data;
      ghost var start := db;
      var id := NewId(db.items.Keys);
      itemId := id;
      var row := Row(report, rank, ItemData(item.notice, item.body));
      ItemInserted(db, id, row, db.reports.Keys - {report});
      db := db.(items := db.items[id := row]);
      ghost var added := db;
      var ids := PersistItemCitations(id, item, bindings);
      if ids.Err? {
        return Err(ids.error), itemId;
      }
      ghost var cited := db;
      NoClaimsYet(added, cited, id);
      var stored := PersistClaims(id, report, item, ids.value, bindings, verdicts, vs);
      if stored.Err? {
        return Err(stored.error), itemId;
      }
      ItemExtends(start, added, cited, db, report, id);
      r := Ok(());
    }

    /** `persist_online_report`: the report already stored for the run, or this one in full, or nothing. */
    method PersistOnlineReport(report: Report, bindings: EvidenceMap, vs: seq<ClaimVerification>)
      returns (r: Result<Persisted, DeliveryError>)
      requires Valid(db)
      modifies this
      ensures Valid(db) && Extends(old(db), db, old(db.reports.Keys), old(db.items.Keys))
      ensures r.Err? ==> db == old(db)
      ensures Load(old(db), report.runId).Some? ==> db == old(db) && r == Ok(Load(db, report.runId).value)
      ensures Load(old(db), report.runId).None? ==>
        (r.Ok? <==> forall item :: item in report.items ==> ItemBacked(old(db.evidence), bindings, item))
      ensures Load(old(db), report.runId).None? && r.Ok? ==>
        && Stores(db, r.value.id, report, vs)
        && r.value.report == report && r.value.docxKey == None
        && FindByRun(db, report.runId) == Some(r.value.id)
    {
      hide Extends, ItemsDone, ItemBacked, StoresItems;
      var index := IndexVerifications(vs);
      var existing := FindByRun(db, report.runId);
      ExtendsSelf(db, db.reports.Keys, db.items.Keys);
      if existing.Some? {
        var persisted := Project(existing.value);
        return Ok(persisted);
      }
      var saved := db;
      var id := NewId(db.reports.Keys);
      var row := ReportRow(report.runId, report.header, None);
      ReportInserted(db, id, row);
      db := db.(reports := db.reports[id := row]);
      ghost var start := db;
      ItemsBegin(db, id, report.items, vs);
      hide Valid;
      for rank := 0 to |report.items|
        invariant Valid(db) && db.reports == start.reports && db.evidence == start.evidence
        invariant ItemsDone(start, db, id, report.items, rank, vs)
        invariant forall k :: 0 <= k < rank ==> ItemBacked(start.evidence, bindings, report.items[k])
      {
        var item := report.items[rank];
        ghost var before := db;
        var verdicts := if item.notice in index then index[item.notice] else map[];
        assert forall i: nat :: (if i in verdicts then Some(verdicts[i]) else None) == VerdictIn(index, item.notice, i);
        var stored, itemId := PersistItem(id, rank, item, bindings, verdicts, vs);
        if stored.Err? {
          db := saved;
          return Err(stored.error);
        }
        ItemAdded(start, before, db, itemId, id, report.items, rank, vs);
      }
      ItemsEnd(start, db, id, report.items, vs);
      ReportExtends(saved, start, db, id);
      RunFound(db, report.runId, id);
      r := Ok(Persisted(id, report, None));
    }

    /** The claims of each item, claims without a citation dropped. */
    method GroupClaims(itemIds: set<Id>) returns (claims: map<Id, seq<Claim>>)
      ensures forall p :: p in itemIds ==> Get(claims, p) == ClaimsOf(db, Children(db.claims, p))
    {
      hide HashesOf, Children, Data, Select, ClaimsOf, OfParent;
      var claimRows := Select(db.claims, itemIds);
      var claimIds := set id | id in claimRows;
      var hashes := Group(db.claimCitations, claimIds);
      claims := map[];
      NoClaimsRead(db, claimRows);
      for k := 0 to |claimRows|
        invariant forall p :: p in itemIds ==> Get(claims, p) == ClaimsOf(db, OfParent(db.claims, claimRows[..k], p))
      {
        var id := claimRows[k];
        assert id in claimIds;
        var cites := Hashes(db, Get(hashes, id));
        HashesAgree(db, id);
        var row := db.claims[id];
        forall p | p in itemIds {
          OfParentNext(db.claims, claimRows, k, p);
        }
        ClaimsOfNext(db, OfParent(db.claims, claimRows[..k], row.parent), id);
        if cites != [] {
          claims := claims[row.parent := Get(claims, row.parent) + [Claim(row.data.text, cites, row.data.support)]];
        }
      }
      assert claimRows[..|claimRows|] == claimRows;
      forall p | p in itemIds ensures Get(claims, p) == ClaimsOf(db, Children(db.claims, p)) {
        GroupsAreChildren(db.claims, itemIds, p);
      }
    }

    /** `_project`: grouped queries, then the items in rank order. */
    method Project(report: Id) returns (r: Persisted)
      requires report in db.reports
      ensures r == Projected(db, report)
    {
      hide ClaimsOf, CitationsOf, Children, Data;
      var itemRows := Children(db.items, report);
      var itemIds := set id | id in itemRows;
      var citations := Group(db.citations, itemIds);
      var claims := GroupClaims(itemIds);
      var items: seq<Item> := [];
      for k := 0 to |itemRows|
        invariant |items| == k
        invariant forall j :: 0 <= j < k ==> itemRows[j] in db.items && items[j] == ItemOf(db, itemRows[j])
      {
        var id := itemRows[k];
        assert id in itemIds;
        var row := db.items[id].data;
        CitationsAgree(db, id);
        items := items + [Item(row.notice, row.body, Citations(db, Get(citations, id)), Get(claims, id))];
      }
      assert items == ItemsOf(db, report);
      var row := db.reports[report];
      r := Persisted(report, Report(row.runId, row.header, items), row.docxKey);
    }
  }
}
