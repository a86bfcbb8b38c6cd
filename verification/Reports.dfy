/** Report and evidence values shared by the evidence pipeline and report delivery. */
module Reports {
  import opened Prelude

  type NoticeId = nat
  type Hash = string

  /** An evidence span of one notice version. */
  datatype Span = Span(notice: NoticeId, text: string, start: int, end: int, hash: Hash)

  /** Spans by hash; several notices may share one text, and then the list holds one span each. */
  type EvidenceMap = map<Hash, seq<Span>>

  datatype Support = Supported | Unsupported | Uncertain

  datatype Citation = Citation(evidenceId: Hash, tag: Option<string>)

  datatype Claim = Claim(text: string, citationIds: seq<Hash>, support: Option<Support>)

  datatype Body = Body(
    title: string,
    known: map<string, string>,
    unknown: seq<string>,
    relevance: Option<string>,
    risk: Option<string>)

  datatype Item = Item(notice: NoticeId, body: Body, citations: seq<Citation>, claims: seq<Claim>)

  datatype Header = Header(
    conditions: map<string, string>,
    freshness: Option<string>,
    sources: seq<string>,
    warning: Option<string>,
    generatedAt: int)

  datatype Report = Report(runId: nat, header: Header, items: seq<Item>)

  datatype Verdict = Verdict(
    status: Support,
    rationale: string,
    used: seq<Hash>,
    conflicts: seq<Hash>,
    version: string)

  datatype ClaimVerification = ClaimVerification(notice: NoticeId, claimIndex: nat, verdict: Verdict)

  /** What the claim type checks on construction. */
  ghost predicate ValidClaim(c: Claim) {
    c.citationIds != [] && Distinct(c.citationIds)
  }

  ghost predicate ValidItem(item: Item) {
    forall c :: c in item.claims ==> ValidClaim(c)
  }

  /** The last entry for a notice and claim ordinal. */
  function VerdictFor(vs: seq<ClaimVerification>, notice: NoticeId, index: nat): Option<Verdict> {
    if vs == [] then None
    else
      var last := vs[|vs| - 1];
      if last.notice == notice && last.claimIndex == index then Some(last.verdict)
      else VerdictFor(vs[..|vs| - 1], notice, index)
  }

  function VerdictIn(index: map<NoticeId, map<nat, Verdict>>, notice: NoticeId, ordinal: nat): Option<Verdict> {
    if notice in index && ordinal in index[notice] then Some(index[notice][ordinal]) else None
  }

  /** `_index_verifications`: verdicts by notice and claim ordinal. */
  method IndexVerifications(vs: seq<ClaimVerification>)
    returns (index: map<NoticeId, map<nat, Verdict>>)
    ensures forall n, i :: VerdictIn(index, n, i) == VerdictFor(vs, n, i)
  {
    index := map[];
    for k := 0 to |vs|
      invariant forall n, i :: VerdictIn(index, n, i) == VerdictFor(vs[..k], n, i)
    {
      assert vs[..k + 1][..k] == vs[..k];
      var entry := vs[k];
      var before := if entry.notice in index then index[entry.notice] else map[];
      index := index[entry.notice := before[entry.claimIndex := entry.verdict]];
    }
    assert vs[..|vs|] == vs;
  }

  // ------------------------------------------------------------ stamping

  function StatusOf(v: Option<Verdict>): Option<Support> {
    if v.Some? then Some(v.value.status) else None
  }

  /** An item whose claims carry the status of their own verdict. */
  function StampedItem(item: Item, vs: seq<ClaimVerification>): Item {
    item.(claims := seq(|item.claims|, i requires 0 <= i < |item.claims| =>
      item.claims[i].(support := StatusOf(VerdictFor(vs, item.notice, i)))))
  }

  function Stamped(items: seq<Item>, vs: seq<ClaimVerification>): seq<Item> {
    seq(|items|, k requires 0 <= k < |items| => StampedItem(items[k], vs))
  }

  /** `_apply_support_status`. */
  method ApplySupportStatus(items: seq<Item>, vs: seq<ClaimVerification>) returns (stamped: seq<Item>)
    ensures stamped == Stamped(items, vs)
  {
    var byNotice := IndexVerifications(vs);
    stamped := [];
    for k := 0 to |items|
      invariant stamped == Stamped(items[..k], vs)
    {
      var item := items[k];
      if item.claims == [] {
        stamped := stamped + [item];
      } else {
        var claims: seq<Claim> := [];
        for i := 0 to |item.claims|
          invariant |claims| == i
          invariant forall j :: 0 <= j < i ==> claims[j] == StampedItem(item, vs).claims[j]
        {
          var verdict := VerdictIn(byNotice, item.notice, i);
          claims := claims + [item.claims[i].(support := StatusOf(verdict))];
        }
        assert claims == StampedItem(item, vs).claims;
        stamped := stamped + [item.(claims := claims)];
      }
      assert items[..k + 1] == items[..k] + [item];
      assert item.claims == [] ==> StampedItem(item, vs) == item;
    }
    assert items[..|items|] == items;
  }
}
