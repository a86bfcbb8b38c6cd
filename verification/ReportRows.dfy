/** The rows of a stored report, column by column: which evidence a citation names and where it stands in it,
    which label a claim citation gets, which verdict a claim row carries. */
module ReportRows {
  import opened Prelude
  import opened Reports
  import opened ReportTables
  import opened ReportStore
  import opened EvidenceLaws

  // ------------------------------------------------------------ resolving a citation

  /** The evidence row of the notice with this hash that has the lowest id. */
  ghost predicate NamedBy(evidence: map<Id, Span>, notice: NoticeId, hash: Hash, id: Id) {
    && id in evidence && evidence[id].notice == notice && evidence[id].hash == hash
    && forall other :: other in evidence && evidence[other].notice == notice && evidence[other].hash == hash ==> id <= other
  }

  /** The draft's evidence map has a span of the notice under this hash. */
  ghost predicate InDraft(bindings: EvidenceMap, notice: NoticeId, hash: Hash) {
    hash in bindings && exists sp :: sp in bindings[hash] && sp.notice == notice
  }

  /** What a citation resolves to: nothing bound in the draft, bound but no such evidence row, or the lowest
      such row. */
  lemma ResolvedMeans(evidence: map<Id, Span>, bindings: EvidenceMap, notice: NoticeId, hash: Hash)
    ensures Resolved(evidence, bindings, notice, hash) == Err(NotBound) <==> !InDraft(bindings, notice, hash)
    ensures Resolved(evidence, bindings, notice, hash) == Err(NotPersisted) <==>
      InDraft(bindings, notice, hash) && forall id :: id in evidence ==> evidence[id].notice != notice || evidence[id].hash != hash
    ensures forall id: Id :: Resolved(evidence, bindings, notice, hash) == Ok(id) <==>
      InDraft(bindings, notice, hash) && NamedBy(evidence, notice, hash, id)
  {
    if InDraft(bindings, notice, hash) {
      var sp :| sp in bindings[hash] && sp.notice == notice;
      var k :| 0 <= k < |bindings[hash]| && bindings[hash][k] == sp;
      assert Bound(bindings, notice, hash);
    }
    FirstIsNamed(evidence, notice, hash);
  }

  lemma FirstIsNamed(evidence: map<Id, Span>, notice: NoticeId, hash: Hash)
    ensures forall id: Id :: FirstEvidence(evidence, notice, hash) == Some(id) <==> NamedBy(evidence, notice, hash, id)
    ensures FirstEvidence(evidence, notice, hash).None? <==>
      forall id :: id in evidence ==> evidence[id].notice != notice || evidence[id].hash != hash
  {
    var found := FirstEvidence(evidence, notice, hash);
    assert forall id :: id in Matches(evidence, notice, hash) <==>
      id in evidence && evidence[id].notice == notice && evidence[id].hash == hash;
    if found.Some? {
      assert NamedBy(evidence, notice, hash, found.value);
    }
  }

  // ------------------------------------------------------------ item citations

  /** A citation row tells where the quoted text stands in the evidence row it names. */
  ghost predicate Quotes(evidence: map<Id, Span>, row: CitationData, notice: NoticeId, c: Citation) {
    && NamedBy(evidence, notice, c.evidenceId, row.evidence)
    && row.start == evidence[row.evidence].start && row.end == evidence[row.evidence].end
    && row.tag == c.tag
  }

  /** Every item of a stored report has one citation row per citation, in order: it names the lowest evidence
      row of the item's notice with the cited hash and carries that row's start and end. */
  lemma CitationRowsQuote(d: Db, id: Id, report: Report, vs: seq<ClaimVerification>, bindings: EvidenceMap, k: nat)
    requires Stores(d, id, report, vs) && k < |report.items| && ItemBacked(d.evidence, bindings, report.items[k])
    ensures k < |Children(d.items, id)|
    ensures
      var item, rows := report.items[k], Data(d.citations, Children(d.items, id)[k]);
      && |rows| == |item.citations|
      && forall i :: 0 <= i < |rows| ==> Quotes(d.evidence, rows[i], item.notice, item.citations[i])
  {
    hide Children, Data, StoresClaims;
    var itemId, item := Children(d.items, id)[k], report.items[k];
    assert StoresItem(d, itemId, id, k, item, vs);
    forall i | 0 <= i < |item.citations|
      ensures Quotes(d.evidence, CitationRow(d.evidence, item.notice, item.citations[i]), item.notice, item.citations[i])
    {
      assert CitedBy(item)[i] in CitedBy(item);
      ResolvedMeans(d.evidence, bindings, item.notice, item.citations[i].evidenceId);
      FirstIsNamed(d.evidence, item.notice, item.citations[i].evidenceId);
    }
  }

  // ------------------------------------------------------------ claims

  /** The first citation with this hash stands at `p`. */
  predicate FirstCites(cs: seq<Citation>, hash: Hash, p: int) {
    0 <= p < |cs| && cs[p].evidenceId == hash && forall q :: 0 <= q < p ==> cs[q].evidenceId != hash
  }

  /** The label of the first citation with this hash, none without one. */
  ghost predicate Labels(cs: seq<Citation>, hash: Hash, tag: Option<string>) {
    && (forall p :: FirstCites(cs, hash, p) ==> tag == cs[p].tag)
    && ((forall c :: c in cs ==> c.evidenceId != hash) ==> tag == None)
  }

  lemma {:induction false} TagLabels(cs: seq<Citation>, hash: Hash)
    ensures Labels(cs, hash, TagOf(cs, hash))
  {
    if cs != [] {
      TagLabels(cs[1..], hash);
      forall p | FirstCites(cs, hash, p) ensures TagOf(cs, hash) == cs[p].tag {
        if p > 0 {
          assert cs[0].evidenceId != hash && cs[1..][p - 1] == cs[p];
          assert FirstCites(cs[1..], hash, p - 1);
        }
      }
    }
  }

  /** A claim citation row names the cited evidence, under the item's label for it. */
  ghost predicate Cites(evidence: map<Id, Span>, row: ClaimCitationData, item: Item, hash: Hash) {
    NamedBy(evidence, item.notice, hash, row.evidence) && Labels(item.citations, hash, row.tag)
  }

  /** The claim row carries the text, and the status of the last verdict for the item's notice and the claim's
      ordinal, with that verdict in a row of its own; without one, the drafted status and no verdict row. */
  ghost predicate CarriesVerdict(d: Db, report: Id, claimId: Id, claim: Claim, vs: seq<ClaimVerification>, notice: NoticeId, ordinal: nat) {
    && claimId in d.claims && d.claims[claimId].data.text == claim.text
    && (forall p :: LastFor(vs, notice, ordinal, p) ==>
          && d.claims[claimId].data.support == Some(vs[p].verdict.status)
          && Data(d.verdicts, claimId) == [VerdictData(report, vs[p].verdict)])
    && ((forall v :: v in vs ==> v.notice != notice || v.claimIndex != ordinal) ==>
          d.claims[claimId].data.support == claim.support && Data(d.verdicts, claimId) == [])
  }

  lemma ClaimStored(d: Db, id: Id, report: Report, vs: seq<ClaimVerification>, k: nat, i: nat)
    requires Stores(d, id, report, vs) && k < |report.items| && i < |report.items[k].claims|
    ensures k < |Children(d.items, id)| && i < |Children(d.claims, Children(d.items, id)[k])|
    ensures StoresClaim(d, Children(d.claims, Children(d.items, id)[k])[i], Children(d.items, id)[k], id, report.items[k], i, vs)
  {
    hide Children, Data, StoresClaim;
    assert StoresItem(d, Children(d.items, id)[k], id, k, report.items[k], vs);
  }

  /** Every claim of a stored report has its row in place: its text and verdict, and one claim citation row per
      citation, in order, naming the cited evidence under the item's label. */
  lemma ClaimRowsCarry(d: Db, id: Id, report: Report, vs: seq<ClaimVerification>, bindings: EvidenceMap, k: nat, i: nat)
    requires Stores(d, id, report, vs) && k < |report.items| && i < |report.items[k].claims|
    requires ItemBacked(d.evidence, bindings, report.items[k]) && ValidItem(report.items[k])
    ensures k < |Children(d.items, id)| && i < |Children(d.claims, Children(d.items, id)[k])|
    ensures
      var item, claimId := report.items[k], Children(d.claims, Children(d.items, id)[k])[i];
      var rows := Data(d.claimCitations, claimId);
      && CarriesVerdict(d, id, claimId, item.claims[i], vs, item.notice, i)
      && |rows| == |item.claims[i].citationIds|
      && forall q :: 0 <= q < |rows| ==> Cites(d.evidence, rows[q], item, item.claims[i].citationIds[q])
  {
    hide Children, Data, Stores, LastFor, VerdictFor;
    ClaimStored(d, id, report, vs, k, i);
    var item, claimId := report.items[k], Children(d.claims, Children(d.items, id)[k])[i];
    var claim := item.claims[i];
    assert claim in item.claims;
    VerdictIsLast(vs, item.notice, i);
    DedupOfDistinct(claim.citationIds);
    forall q | 0 <= q < |claim.citationIds|
      ensures Cites(d.evidence, ClaimCitationRows(d.evidence, item, claim.citationIds)[q], item, claim.citationIds[q])
    {
      assert claim.citationIds[q] in claim.citationIds;
      ResolvedMeans(d.evidence, bindings, item.notice, claim.citationIds[q]);
      FirstIsNamed(d.evidence, item.notice, claim.citationIds[q]);
      TagLabels(item.citations, claim.citationIds[q]);
    }
  }
}
