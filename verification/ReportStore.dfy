/** Relational persistence of online reports: one transaction writes a report with its items, claims,
    both kinds of citation and the verdicts; a projection reads it back. */
module ReportStore {
  import opened Prelude
  import opened Reports
  import opened ReportTables

  datatype DeliveryError = NotBound | NotPersisted

  datatype ReportRow = ReportRow(runId: nat, header: Header, docxKey: Option<string>)
  datatype ItemData = ItemData(notice: NoticeId, body: Body)
  datatype CitationData = CitationData(evidence: Id, tag: Option<string>, start: int, end: int)
  datatype ClaimData = ClaimData(text: string, support: Option<Support>)
  datatype ClaimCitationData = ClaimCitationData(evidence: Id, tag: Option<string>)
  datatype VerdictData = VerdictData(report: Id, verdict: Verdict)

  datatype Db = Db(
    evidence: map<Id, Span>,
    reports: map<Id, ReportRow>,
    items: Table<ItemData>,
    citations: Table<CitationData>,
    claims: Table<ClaimData>,
    claimCitations: Table<ClaimCitationData>,
    verdicts: Table<VerdictData>)

  datatype Persisted = Persisted(id: Id, report: Report, docxKey: Option<string>)

  // ------------------------------------------------------------ integrity

  ghost predicate Refers<T>(t: Table<T>, parents: set<Id>) {
    forall id :: id in t ==> t[id].parent in parents
  }

  ghost predicate OneReportPerRun(reports: map<Id, ReportRow>) {
    forall a, b :: a in reports && b in reports && reports[a].runId == reports[b].runId ==> a == b
  }

  ghost predicate EvidenceLinked(d: Db) {
    && (forall id :: id in d.citations ==> d.citations[id].data.evidence in d.evidence)
    && (forall id :: id in d.claimCitations ==> d.claimCitations[id].data.evidence in d.evidence)
  }

  /** Foreign keys and the unique run id. */
  ghost predicate Valid(d: Db) {
    && OneReportPerRun(d.reports)
    && Refers(d.items, d.reports.Keys)
    && Refers(d.citations, d.items.Keys)
    && Refers(d.claims, d.items.Keys)
    && Refers(d.claimCitations, d.claims.Keys)
    && Refers(d.verdicts, d.claims.Keys)
    && EvidenceLinked(d)
  }

  /** Only additions, none under a listed report or item or under any claim already there. */
  ghost predicate Extends(d: Db, d': Db, reports: set<Id>, items: set<Id>) {
    && d'.evidence == d.evidence
    && (forall id :: id in d.reports ==> id in d'.reports && d'.reports[id] == d.reports[id])
    && Grown(d.items, d'.items, reports)
    && Grown(d.citations, d'.citations, items)
    && Grown(d.claims, d'.claims, items)
    && Grown(d.claimCitations, d'.claimCitations, d.claims.Keys)
    && Grown(d.verdicts, d'.verdicts, d.claims.Keys)
  }

  // ------------------------------------------------------------ evidence lookup

  function Matches(evidence: map<Id, Span>, notice: NoticeId, hash: Hash): set<Id> {
    set id | id in evidence && evidence[id].notice == notice && evidence[id].hash == hash
  }

  /** The lowest-numbered evidence row of a notice version with a hash. */
  function FirstEvidence(evidence: map<Id, Span>, notice: NoticeId, hash: Hash): (r: Option<Id>)
    ensures r.Some? <==> Matches(evidence, notice, hash) != {}
    ensures r.Some? ==> r.value in Matches(evidence, notice, hash)
  {
    var ids := Matches(evidence, notice, hash);
    if ids == {} then None
    else
      LeastExists(ids);
      var id :| id in ids && forall other :: other in ids ==> id <= other;
      Some(id)
  }

  lemma LeastExists(ids: set<Id>)
    requires ids != {}
    ensures exists id :: id in ids && forall other :: other in ids ==> id <= other
  {
    var keys := set id | id in ids :: Key(0, 0, id);
    var some :| some in ids;
    assert Key(0, 0, some) in keys;
    HasFirst(keys);
    var k :| k in keys && forall j :: j in keys && j != k ==> Before(k, j);
    forall other | other in ids ensures k.id <= other {
      assert Key(0, 0, other) in keys;
    }
  }

  predicate Bound(bindings: EvidenceMap, notice: NoticeId, hash: Hash) {
    hash in bindings && exists k :: 0 <= k < |bindings[hash]| && bindings[hash][k].notice == notice
  }

  /** What a citation resolves to. */
  function Resolved(evidence: map<Id, Span>, bindings: EvidenceMap, notice: NoticeId, hash: Hash)
    : Result<Id, DeliveryError>
  {
    if !Bound(bindings, notice, hash) then Err(NotBound)
    else
      var found := FirstEvidence(evidence, notice, hash);
      if found.None? then Err(NotPersisted) else Ok(found.value)
  }

  /** Every hash of the list resolves for the notice. */
  ghost predicate AllResolve(evidence: map<Id, Span>, bindings: EvidenceMap, notice: NoticeId, hashes: seq<Hash>) {
    forall h :: h in hashes ==> Resolved(evidence, bindings, notice, h).Ok?
  }

  function CitedBy(item: Item): seq<Hash> {
    seq(|item.citations|, i requires 0 <= i < |item.citations| => item.citations[i].evidenceId)
  }

  /** Every citation an item makes, at item level or in a claim, can be stored. */
  ghost predicate ItemBacked(evidence: map<Id, Span>, bindings: EvidenceMap, item: Item) {
    && AllResolve(evidence, bindings, item.notice, CitedBy(item))
    && (forall c :: c in item.claims ==> AllResolve(evidence, bindings, item.notice, c.citationIds))
  }

  // ------------------------------------------------------------ what the rows say

  function EvidenceId(evidence: map<Id, Span>, notice: NoticeId, hash: Hash): Id {
    var found := FirstEvidence(evidence, notice, hash);
    if found.Some? then found.value else 0
  }

  function CitationRow(evidence: map<Id, Span>, notice: NoticeId, c: Citation): CitationData {
    var id := EvidenceId(evidence, notice, c.evidenceId);
    if id in evidence then CitationData(id, c.tag, evidence[id].start, evidence[id].end)
    else CitationData(id, c.tag, 0, 0)
  }

  function CitationRows(evidence: map<Id, Span>, notice: NoticeId, cs: seq<Citation>): seq<CitationData> {
    seq(|cs|, i requires 0 <= i < |cs| => CitationRow(evidence, notice, cs[i]))
  }

  /** Label of the first item citation with this hash. */
  function TagOf(cs: seq<Citation>, hash: Hash): Option<string> {
    if cs == [] then None else if cs[0].evidenceId == hash then cs[0].tag else TagOf(cs[1..], hash)
  }

  function ClaimCitationRows(evidence: map<Id, Span>, item: Item, hashes: seq<Hash>): seq<ClaimCitationData> {
    seq(|hashes|, i requires 0 <= i < |hashes| =>
      ClaimCitationData(EvidenceId(evidence, item.notice, hashes[i]), TagOf(item.citations, hashes[i])))
  }

  function ClaimRow(c: Claim, verdict: Option<Verdict>): ClaimData {
    ClaimData(c.text, if verdict.Some? then Some(verdict.value.status) else c.support)
  }

  function VerdictRows(report: Id, verdict: Option<Verdict>): seq<VerdictData> {
    if verdict.Some? then [VerdictData(report, verdict.value)] else []
  }

  /** Claim `ordinal` of an item is stored under `claimId`, its verdict beside it. */
  ghost predicate StoresClaim(d: Db, claimId: Id, itemId: Id, report: Id, item: Item, ordinal: nat,
                              vs: seq<ClaimVerification>)
    requires ordinal < |item.claims|
  {
    var verdict := VerdictFor(vs, item.notice, ordinal);
    && claimId in d.claims
    && d.claims[claimId] == Row(itemId, ordinal, ClaimRow(item.claims[ordinal], verdict))
    && Data(d.claimCitations, claimId) ==
       ClaimCitationRows(d.evidence, item, Dedup(item.claims[ordinal].citationIds))
    && Data(d.verdicts, claimId) == VerdictRows(report, verdict)
  }

  ghost predicate StoresClaims(d: Db, itemId: Id, report: Id, item: Item, n: nat, vs: seq<ClaimVerification>)
    requires n <= |item.claims|
  {
    && |Children(d.claims, itemId)| == n
    && forall i :: 0 <= i < n ==> StoresClaim(d, Children(d.claims, itemId)[i], itemId, report, item, i, vs)
  }

  ghost predicate StoresItem(d: Db, itemId: Id, report: Id, rank: nat, item: Item, vs: seq<ClaimVerification>) {
    && itemId in d.items
    && d.items[itemId] == Row(report, rank, ItemData(item.notice, item.body))
    && Data(d.citations, itemId) == CitationRows(d.evidence, item.notice, item.citations)
    && StoresClaims(d, itemId, report, item, |item.claims|, vs)
  }

  ghost predicate StoresItems(d: Db, report: Id, items: seq<Item>, vs: seq<ClaimVerification>) {
    && |Children(d.items, report)| == |items|
    && forall k :: 0 <= k < |items| ==> StoresItem(d, Children(d.items, report)[k], report, k, items[k], vs)
  }

  /** Exactly this report is stored under `id`: every row in order, nothing else below it. */
  ghost predicate Stores(d: Db, id: Id, report: Report, vs: seq<ClaimVerification>) {
    && id in d.reports
    && d.reports[id] == ReportRow(report.runId, report.header, None)
    && StoresItems(d, id, report.items, vs)
  }

  // ------------------------------------------------------------ rows stay

  lemma ExtendsTwice(a: Db, b: Db, c: Db, reports: set<Id>, items: set<Id>, moreReports: set<Id>, moreItems: set<Id>)
    requires Extends(a, b, reports, items) && Extends(b, c, moreReports, moreItems)
    requires reports <= moreReports && items <= moreItems
    ensures Extends(a, c, reports, items)
  {
    assert a.claims.Keys <= b.claims.Keys;
  }

  lemma ExtendsSelf(d: Db, reports: set<Id>, items: set<Id>)
    ensures Extends(d, d, reports, items)
  {
  }

  lemma ClaimStays(d: Db, d': Db, reports: set<Id>, items: set<Id>, claimId: Id, itemId: Id, report: Id,
                   item: Item, ordinal: nat, vs: seq<ClaimVerification>)
    requires Extends(d, d', reports, items) && ordinal < |item.claims|
    requires StoresClaim(d, claimId, itemId, report, item, ordinal, vs)
    ensures StoresClaim(d', claimId, itemId, report, item, ordinal, vs)
  {
    GrownKeepsData(d.claimCitations, d'.claimCitations, d.claims.Keys, claimId);
    GrownKeepsData(d.verdicts, d'.verdicts, d.claims.Keys, claimId);
  }

  lemma ClaimsStay(d: Db, d': Db, reports: set<Id>, items: set<Id>, itemId: Id, report: Id, item: Item, n: nat,
                   vs: seq<ClaimVerification>)
    requires Extends(d, d', reports, items) && itemId in items && n <= |item.claims|
    requires StoresClaims(d, itemId, report, item, n, vs)
    ensures StoresClaims(d', itemId, report, item, n, vs)
  {
    hide Extends, StoresClaim;
    assert Grown(d.claims, d'.claims, items) by {
      ExtendsParts(d, d', reports, items);
    }
    GrownKeepsChildren(d.claims, d'.claims, items, itemId);
    forall i | 0 <= i < n ensures StoresClaim(d', Children(d.claims, itemId)[i], itemId, report, item, i, vs) {
      ClaimStays(d, d', reports, items, Children(d.claims, itemId)[i], itemId, report, item, i, vs);
    }
  }

  lemma ExtendsParts(d: Db, d': Db, reports: set<Id>, items: set<Id>)
    requires Extends(d, d', reports, items)
    ensures d'.evidence == d.evidence
    ensures Grown(d.items, d'.items, reports)
    ensures Grown(d.citations, d'.citations, items)
    ensures Grown(d.claims, d'.claims, items)
  {
  }

  lemma ItemStays(d: Db, d': Db, reports: set<Id>, items: set<Id>, itemId: Id, report: Id, rank: nat, item: Item,
                  vs: seq<ClaimVerification>)
    requires Extends(d, d', reports, items) && itemId in items
    requires StoresItem(d, itemId, report, rank, item, vs)
    ensures StoresItem(d', itemId, report, rank, item, vs)
  {
    hide Extends, StoresClaims;
    ExtendsParts(d, d', reports, items);
    GrownKeepsData(d.citations, d'.citations, items, itemId);
    ClaimsStay(d, d', reports, items, itemId, report, item, |item.claims|, vs);
  }

  // ------------------------------------------------------------ projection

  function HashOf(d: Db, evidence: Id): Hash {
    if evidence in d.evidence then d.evidence[evidence].hash else ""
  }

  function CitationsOf(d: Db, itemId: Id): seq<Citation> {
    var rows := Data(d.citations, itemId);
    seq(|rows|, i requires 0 <= i < |rows| => Citation(HashOf(d, rows[i].evidence), rows[i].tag))
  }

  function HashesOf(d: Db, claimId: Id): seq<Hash> {
    var rows := Data(d.claimCitations, claimId);
    seq(|rows|, i requires 0 <= i < |rows| => HashOf(d, rows[i].evidence))
  }

  /** The claims of some claim rows, those without a citation left out. */
  function ClaimsOf(d: Db, ids: seq<Id>): seq<Claim>
    requires forall id :: id in ids ==> id in d.claims
  {
    if ids == [] then []
    else
      var rest, last := ClaimsOf(d, ids[..|ids| - 1]), ids[|ids| - 1];
      if HashesOf(d, last) == [] then rest
      else rest + [Claim(d.claims[last].data.text, HashesOf(d, last), d.claims[last].data.support)]
  }

  function ItemOf(d: Db, itemId: Id): Item
    requires itemId in d.items
  {
    var row := d.items[itemId].data;
    Item(row.notice, row.body, CitationsOf(d, itemId), ClaimsOf(d, Children(d.claims, itemId)))
  }

  function ItemsOf(d: Db, report: Id): seq<Item> {
    var ids := Children(d.items, report);
    assert forall i :: 0 <= i < |ids| ==> ids[i] in ids;
    seq(|ids|, i requires 0 <= i < |ids| => ItemOf(d, ids[i]))
  }

  function Projected(d: Db, report: Id): Persisted
    requires report in d.reports
  {
    var row := d.reports[report];
    Persisted(report, Report(row.runId, row.header, ItemsOf(d, report)), row.docxKey)
  }

  function FindByRun(d: Db, runId: nat): (r: Option<Id>)
    requires OneReportPerRun(d.reports)
    ensures r.Some? ==> r.value in d.reports && d.reports[r.value].runId == runId
    ensures r.None? ==> forall id :: id in d.reports ==> d.reports[id].runId != runId
  {
    if exists id :: id in d.reports && d.reports[id].runId == runId then
      var id :| id in d.reports && d.reports[id].runId == runId;
      Some(id)
    else None
  }

  /** `load_online_report`. */
  function Load(d: Db, runId: nat): Option<Persisted>
    requires OneReportPerRun(d.reports)
  {
    var id := FindByRun(d, runId);
    if id.None? then None else Some(Projected(d, id.value))
  }
}
