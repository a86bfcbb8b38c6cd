/** The claim validator, evidence lookup for the semantic verifier, and its verdict list. */
module ClaimValidation {
  import opened Prelude
  import opened Reports
  import opened EvidenceSpans
  import opened EvidenceValidation

  datatype ClaimError =
    | ClaimWithoutCitation
    | MissingEvidence
    | CitationVersionMismatch
    | InvalidOffset
    | SpanHashMismatch

  /** The first candidate span of a notice version. */
  function FirstOf(spans: seq<Span>, version: NoticeId): (r: Option<Span>)
    ensures r.Some? ==> r.value in spans && r.value.notice == version
    ensures r.None? ==> forall sp :: sp in spans ==> sp.notice != version
  {
    if spans == [] then None
    else if spans[0].notice == version then Some(spans[0])
    else FirstOf(spans[1..], version)
  }

  function SpanErrors(sp: Span, hashOf: string -> Hash): seq<ClaimError> {
    (if sp.start < 0 || sp.end < sp.start then [InvalidOffset] else [])
    + (if sp.end - sp.start != |sp.text| then [InvalidOffset] else [])
    + (if sp.hash != hashOf(sp.text) then [SpanHashMismatch] else [])
  }

  function CitationErrors(id: Hash, version: NoticeId, evidence: EvidenceMap, hashOf: string -> Hash)
    : seq<ClaimError>
  {
    if id !in evidence then [MissingEvidence]
    else
      var found := FirstOf(evidence[id], version);
      if found.None? then [CitationVersionMismatch] else SpanErrors(found.value, hashOf)
  }

  function CitationsErrors(ids: seq<Hash>, version: NoticeId, evidence: EvidenceMap, hashOf: string -> Hash)
    : seq<ClaimError>
  {
    if ids == [] then []
    else
      CitationsErrors(ids[..|ids| - 1], version, evidence, hashOf)
      + CitationErrors(ids[|ids| - 1], version, evidence, hashOf)
  }

  function ClaimErrors(claim: Claim, version: NoticeId, evidence: EvidenceMap, hashOf: string -> Hash)
    : seq<ClaimError>
  {
    if claim.citationIds == [] then [ClaimWithoutCitation]
    else CitationsErrors(claim.citationIds, version, evidence, hashOf)
  }

  function ClaimsErrors(claims: seq<Claim>, version: NoticeId, evidence: EvidenceMap, hashOf: string -> Hash)
    : seq<ClaimError>
  {
    if claims == [] then []
    else
      ClaimsErrors(claims[..|claims| - 1], version, evidence, hashOf)
      + ClaimErrors(claims[|claims| - 1], version, evidence, hashOf)
  }

  function ReportErrors(items: seq<Item>, evidence: EvidenceMap, hashOf: string -> Hash): seq<ClaimError> {
    if items == [] then []
    else
      ReportErrors(items[..|items| - 1], evidence, hashOf)
      + ClaimsErrors(items[|items| - 1].claims, items[|items| - 1].notice, evidence, hashOf)
  }

  /** `validate_claim`. */
  method ValidateClaim(claim: Claim, version: NoticeId, evidence: EvidenceMap, hashOf: string -> Hash)
    returns (valid: bool, errors: seq<ClaimError>)
    ensures errors == ClaimErrors(claim, version, evidence, hashOf)
    ensures valid <==> errors == []
  {
    errors := [];
    var ids := claim.citationIds;
    if ids == [] {
      return false, [ClaimWithoutCitation];
    }
    for k := 0 to |ids|
      invariant errors == CitationsErrors(ids[..k], version, evidence, hashOf)
    {
      assert ids[..k + 1][..k] == ids[..k];
      if ids[k] !in evidence {
        errors := errors + [MissingEvidence];
        continue;
      }
      var found := FirstOf(evidence[ids[k]], version);
      if found.None? {
        errors := errors + [CitationVersionMismatch];
        continue;
      }
      var before := errors;
      var sp := found.value;
      if sp.start < 0 || sp.end < sp.start {
        errors := errors + [InvalidOffset];
      }
      if sp.end - sp.start != |sp.text| {
        errors := errors + [InvalidOffset];
      }
      if sp.hash != hashOf(sp.text) {
        errors := errors + [SpanHashMismatch];
      }
      assert errors == before + SpanErrors(sp, hashOf);
    }
    assert ids[..|ids|] == ids;
    valid := errors == [];
  }

  /** Errors without repeats, in first-seen order. */
  method FirstSeen(all: seq<ClaimError>) returns (errors: seq<ClaimError>)
    ensures errors == Dedup(all)
  {
    var seen: set<ClaimError> := {};
    errors := [];
    for k := 0 to |all|
      invariant errors == Dedup(all[..k])
      invariant forall e :: e in seen <==> e in all[..k]
    {
      DedupNext(all, k);
      assert all[..k + 1] == all[..k] + [all[k]];
      if all[k] !in seen {
        seen := seen + {all[k]};
        errors := errors + [all[k]];
      }
    }
    assert all[..|all|] == all;
  }

  lemma OneMoreClaim(before: seq<ClaimError>, claims: seq<Claim>, c: nat, version: NoticeId, evidence: EvidenceMap,
                     hashOf: string -> Hash)
    requires c < |claims|
    ensures before + ClaimsErrors(claims[..c + 1], version, evidence, hashOf) ==
            before + ClaimsErrors(claims[..c], version, evidence, hashOf)
            + ClaimErrors(claims[c], version, evidence, hashOf)
  {
    assert claims[..c + 1][..c] == claims[..c];
  }

  lemma OneMoreItem(items: seq<Item>, i: nat, evidence: EvidenceMap, hashOf: string -> Hash)
    requires i < |items|
    ensures ReportErrors(items[..i + 1], evidence, hashOf) ==
            ReportErrors(items[..i], evidence, hashOf)
            + ClaimsErrors(items[i].claims[..|items[i].claims|], items[i].notice, evidence, hashOf)
  {
    assert items[..i + 1][..i] == items[..i];
    assert items[i].claims[..|items[i].claims|] == items[i].claims;
  }

  /** `validate_report`: every distinct error once, in first-seen order. */
  method ValidateReport(items: seq<Item>, evidence: EvidenceMap, hashOf: string -> Hash)
    returns (valid: bool, errors: seq<ClaimError>)
    ensures errors == Dedup(ReportErrors(items, evidence, hashOf))
    ensures valid <==> ReportErrors(items, evidence, hashOf) == []
  {
    hide ClaimErrors, ClaimsErrors, ReportErrors, Dedup;
    var all: seq<ClaimError> := [];
    NoErrorsYet(items, evidence, hashOf);
    for i := 0 to |items|
      invariant all == ReportErrors(items[..i], evidence, hashOf)
    {
      ghost var before := all;
      var claims := items[i].claims;
      for c := 0 to |claims|
        invariant all == before + ClaimsErrors(claims[..c], items[i].notice, evidence, hashOf)
      {
        OneMoreClaim(before, claims, c, items[i].notice, evidence, hashOf);
        var ok, found := ValidateClaim(claims[c], items[i].notice, evidence, hashOf);
        if !ok {
          all := all + found;
        }
      }
      OneMoreItem(items, i, evidence, hashOf);
    }
    assert items[..|items|] == items;
    errors := FirstSeen(all);
    DedupHas(all);
    valid := errors == [];
    assert errors != [] ==> errors[0] in errors;
    assert all != [] ==> all[0] in Dedup(all);
  }

  lemma NoErrorsYet(items: seq<Item>, evidence: EvidenceMap, hashOf: string -> Hash)
    ensures ReportErrors(items[..0], evidence, hashOf) == []
    ensures forall claims: seq<Claim>, n :: ClaimsErrors(claims[..0], n, evidence, hashOf) == []
  {
  }

  // ------------------------------------------------------------ what is accepted

  /** Some supporting text of candidate notice `n` has this hash. */
  ghost predicate Quotable(candidates: seq<NoticeId>, views: map<NoticeId, View>, hashOf: string -> Hash,
                           n: NoticeId, id: Hash)
  {
    exists t :: Supports(candidates, views, n, t) && hashOf(t) == id
  }

  ghost predicate WellCited(candidates: seq<NoticeId>, views: map<NoticeId, View>, hashOf: string -> Hash,
                            n: NoticeId, claim: Claim)
  {
    claim.citationIds != [] && forall id :: id in claim.citationIds ==> Quotable(candidates, views, hashOf, n, id)
  }

  lemma CitationAccepted(id: Hash, n: NoticeId, evidence: EvidenceMap, candidates: seq<NoticeId>,
                         views: map<NoticeId, View>, hashOf: string -> Hash)
    requires BindsAll(evidence, candidates, views, hashOf)
    ensures CitationErrors(id, n, evidence, hashOf) == [] <==> Quotable(candidates, views, hashOf, n, id)
    ensures Quotable(candidates, views, hashOf, n, id) ==>
      id in evidence && FirstOf(evidence[id], n).Some? && FirstOf(evidence[id], n).value.hash == id
  {
    if id in evidence {
      var found := FirstOf(evidence[id], n);
      if found.Some? {
        assert InMap(evidence, id, found.value);
        assert GoodSpan(candidates, views, hashOf, found.value);
      }
    }
    if Quotable(candidates, views, hashOf, n, id) {
      var t :| Supports(candidates, views, n, t) && hashOf(t) == id;
      var sp :| InMap(evidence, hashOf(t), sp) && sp.notice == n && sp.text == t;
    }
  }

  lemma {:induction false} CitationsAccepted(ids: seq<Hash>, n: NoticeId, evidence: EvidenceMap,
                                             candidates: seq<NoticeId>, views: map<NoticeId, View>,
                                             hashOf: string -> Hash)
    requires BindsAll(evidence, candidates, views, hashOf)
    ensures CitationsErrors(ids, n, evidence, hashOf) == [] <==>
            forall id :: id in ids ==> Quotable(candidates, views, hashOf, n, id)
  {
    hide BindsAll, Quotable, CitationErrors;
    if ids != [] {
      CitationsAccepted(ids[..|ids| - 1], n, evidence, candidates, views, hashOf);
      CitationAccepted(ids[|ids| - 1], n, evidence, candidates, views, hashOf);
      assert ids == ids[..|ids| - 1] + [ids[|ids| - 1]];
    }
  }

  lemma {:induction false} ClaimsAccepted(claims: seq<Claim>, n: NoticeId, evidence: EvidenceMap,
                                          candidates: seq<NoticeId>, views: map<NoticeId, View>,
                                          hashOf: string -> Hash)
    requires BindsAll(evidence, candidates, views, hashOf)
    ensures ClaimsErrors(claims, n, evidence, hashOf) == [] <==>
            forall c :: c in claims ==> WellCited(candidates, views, hashOf, n, c)
  {
    hide BindsAll, Quotable, CitationsErrors;
    if claims != [] {
      ClaimsAccepted(claims[..|claims| - 1], n, evidence, candidates, views, hashOf);
      CitationsAccepted(claims[|claims| - 1].citationIds, n, evidence, candidates, views, hashOf);
      assert ClaimErrors(claims[|claims| - 1], n, evidence, hashOf) == [] <==>
             WellCited(candidates, views, hashOf, n, claims[|claims| - 1]);
      assert claims == claims[..|claims| - 1] + [claims[|claims| - 1]];
    }
  }

  /** With the map of `verify_evidence`, a draft is accepted exactly when every claim cites something and
      every citation is the hash of a supporting text of the item's own candidate notice. */
  lemma {:induction false} AcceptedExactlyWhenWellCited(items: seq<Item>, evidence: EvidenceMap,
                                                        candidates: seq<NoticeId>, views: map<NoticeId, View>,
                                                        hashOf: string -> Hash)
    requires BindsAll(evidence, candidates, views, hashOf)
    ensures ReportErrors(items, evidence, hashOf) == [] <==>
            forall item, c :: item in items && c in item.claims ==> WellCited(candidates, views, hashOf, item.notice, c)
  {
    hide BindsAll, WellCited, ClaimsErrors;
    if items != [] {
      var front, last := items[..|items| - 1], items[|items| - 1];
      AcceptedExactlyWhenWellCited(front, evidence, candidates, views, hashOf);
      ClaimsAccepted(last.claims, last.notice, evidence, candidates, views, hashOf);
      assert items == front + [last];
    }
  }

  // ------------------------------------------------------------ evidence for a claim

  /** The spans found for the citations, those without one skipped. */
  function EvidenceOf(ids: seq<Hash>, n: NoticeId, evidence: EvidenceMap): seq<Span> {
    if ids == [] then []
    else
      var rest, id := EvidenceOf(ids[..|ids| - 1], n, evidence), ids[|ids| - 1];
      if id in evidence && FirstOf(evidence[id], n).Some? then rest + [FirstOf(evidence[id], n).value] else rest
  }

  /** `_evidence_for_claim`. */
  method EvidenceForClaim(claim: Claim, notice: NoticeId, evidence: EvidenceMap) returns (resolved: seq<Span>)
    ensures resolved == EvidenceOf(claim.citationIds, notice, evidence)
  {
    var ids := claim.citationIds;
    resolved := [];
    for k := 0 to |ids|
      invariant resolved == EvidenceOf(ids[..k], notice, evidence)
    {
      assert ids[..k + 1][..k] == ids[..k];
      if ids[k] in evidence {
        var found := FirstOf(evidence[ids[k]], notice);
        if found.Some? {
          resolved := resolved + [found.value];
        }
      }
    }
    assert ids[..|ids|] == ids;
  }

  /** For a well-cited claim no citation is skipped: one span each, in order, of the item's notice and
      with the cited hash. */
  lemma {:induction false} EvidenceIsParallel(ids: seq<Hash>, n: NoticeId, evidence: EvidenceMap,
                                              candidates: seq<NoticeId>, views: map<NoticeId, View>,
                                              hashOf: string -> Hash)
    requires BindsAll(evidence, candidates, views, hashOf)
    requires forall id :: id in ids ==> Quotable(candidates, views, hashOf, n, id)
    ensures |EvidenceOf(ids, n, evidence)| == |ids|
    ensures forall k :: 0 <= k < |ids| ==>
      EvidenceOf(ids, n, evidence)[k].hash == ids[k] && EvidenceOf(ids, n, evidence)[k].notice == n
  {
    hide BindsAll, Quotable;
    if ids != [] {
      EvidenceIsParallel(ids[..|ids| - 1], n, evidence, candidates, views, hashOf);
      CitationAccepted(ids[|ids| - 1], n, evidence, candidates, views, hashOf);
    }
  }

  // ------------------------------------------------------------ the offline report model

  function OfflineItem(o: Opportunity): Item {
    Item(o.notice, o.body,
         seq(|o.evidence|, k requires 0 <= k < |o.evidence| =>
           Citation(o.evidence[k].evidenceId, Some(o.evidence[k].evidenceId))),
         seq(|o.evidence|, k requires 0 <= k < |o.evidence| =>
           Claim(o.evidence[k].text, [o.evidence[k].evidenceId], None)))
  }

  function OfflineDraft(opportunities: seq<Opportunity>): seq<Item> {
    seq(|opportunities|, k requires 0 <= k < |opportunities| => OfflineItem(opportunities[k]))
  }

  lemma {:induction false} OpportunityMeans(candidates: seq<NoticeId>, views: map<NoticeId, View>,
                                            hashOf: string -> Hash, o: Opportunity)
    requires o in Opportunities(candidates, views, hashOf)
    ensures o.notice in candidates && o.notice in views
    ensures o.evidence == QuotesOf(o.notice, views[o.notice].texts, hashOf)
  {
    var front := Opportunities(candidates[..|candidates| - 1], views, hashOf);
    if o in front {
      OpportunityMeans(candidates[..|candidates| - 1], views, hashOf, o);
    }
  }

  /** The offline model's draft of the verified opportunities is always accepted. */
  lemma OfflineDraftAccepted(evidence: EvidenceMap, candidates: seq<NoticeId>, views: map<NoticeId, View>,
                             hashOf: string -> Hash)
    requires BindsAll(evidence, candidates, views, hashOf)
    ensures ReportErrors(OfflineDraft(Opportunities(candidates, views, hashOf)), evidence, hashOf) == []
  {
    hide BindsAll;
    var all := Opportunities(candidates, views, hashOf);
    forall item, c | item in OfflineDraft(all) && c in item.claims
      ensures WellCited(candidates, views, hashOf, item.notice, c)
    {
      var k :| 0 <= k < |all| && item == OfflineItem(all[k]);
      OpportunityMeans(candidates, views, hashOf, all[k]);
      var i :| 0 <= i < |item.claims| && item.claims[i] == c;
      assert Supports(candidates, views, item.notice, views[item.notice].texts[i]);
    }
    AcceptedExactlyWhenWellCited(OfflineDraft(all), evidence, candidates, views, hashOf);
  }

  // ------------------------------------------------------------ semantic verdicts

  /** `judge(k, i)` is the verifier's answer for claim `i` of item `k`, nothing when it raises. Claims
      without evidence are not judged. */
  function Judged(items: seq<Item>, evidence: EvidenceMap, judge: (nat, nat) -> Option<Verdict>, k: nat, i: nat)
    : Option<Verdict>
    requires k < |items| && i < |items[k].claims|
  {
    if EvidenceOf(items[k].claims[i].citationIds, items[k].notice, evidence) == [] then None else judge(k, i)
  }

  /** The verdicts of the first `n` claims of item `k`, in order; a judgement that raised leaves none. */
  function ClaimVerdicts(items: seq<Item>, evidence: EvidenceMap, judge: (nat, nat) -> Option<Verdict>, k: nat, n: nat)
    : seq<ClaimVerification>
    requires k < |items| && n <= |items[k].claims|
    decreases n
  {
    if n == 0 then []
    else
      var rest, verdict := ClaimVerdicts(items, evidence, judge, k, n - 1), Judged(items, evidence, judge, k, n - 1);
      if verdict.None? then rest else rest + [ClaimVerification(items[k].notice, n - 1, verdict.value)]
  }

  /** The verdicts of the first `k` items. */
  function VerdictList(items: seq<Item>, evidence: EvidenceMap, judge: (nat, nat) -> Option<Verdict>, k: nat)
    : seq<ClaimVerification>
    requires k <= |items|
    decreases k
  {
    if k == 0 then []
    else VerdictList(items, evidence, judge, k - 1) + ClaimVerdicts(items, evidence, judge, k - 1, |items[k - 1].claims|)
  }

  /** The whole list `verify_semantics` returns. */
  function AllVerdicts(items: seq<Item>, evidence: EvidenceMap, judge: (nat, nat) -> Option<Verdict>)
    : seq<ClaimVerification>
  {
    VerdictList(items, evidence, judge, |items|)
  }

  // ------------------------------------------------------------ whose verdict a claim gets

  /** No two items of one notice both carry claims. */
  ghost predicate ClaimsApart(items: seq<Item>) {
    forall a, b :: 0 <= a < b < |items| && items[a].notice == items[b].notice ==>
      items[a].claims == [] || items[b].claims == []
  }

  /** The list answers for every claim with that claim's own judgement. */
  ghost predicate OwnVerdicts(items: seq<Item>, evidence: EvidenceMap, judge: (nat, nat) -> Option<Verdict>) {
    forall k: nat, i: nat :: k < |items| && i < |items[k].claims| ==>
      VerdictFor(AllVerdicts(items, evidence, judge), items[k].notice, i) == Judged(items, evidence, judge, k, i)
  }

  /** Verdicts of the claims before claim `i` of item `k`, none for the others. */
  ghost predicate JudgedBefore(items: seq<Item>, evidence: EvidenceMap, judge: (nat, nat) -> Option<Verdict>,
                               vs: seq<ClaimVerification>, k: nat, i: nat)
  {
    forall a: nat, c: nat :: a < |items| && c < |items[a].claims| ==>
      VerdictFor(vs, items[a].notice, c) ==
      if a < k || (a == k && c < i) then Judged(items, evidence, judge, a, c) else None
  }

  lemma JudgedNext(items: seq<Item>, evidence: EvidenceMap, judge: (nat, nat) -> Option<Verdict>,
                   vs: seq<ClaimVerification>, k: nat, i: nat, v: Verdict)
    requires ClaimsApart(items) && k < |items| && i < |items[k].claims|
    requires JudgedBefore(items, evidence, judge, vs, k, i) && Judged(items, evidence, judge, k, i) == Some(v)
    ensures JudgedBefore(items, evidence, judge, vs + [ClaimVerification(items[k].notice, i, v)], k, i + 1)
  {
    var more := vs + [ClaimVerification(items[k].notice, i, v)];
    assert more[..|more| - 1] == vs;
    forall a: nat, c: nat | a < |items| && c < |items[a].claims|
      ensures VerdictFor(more, items[a].notice, c) ==
              if a < k || (a == k && c < i + 1) then Judged(items, evidence, judge, a, c) else None
    {
      assert items[a].notice == items[k].notice ==> a == k;
    }
  }

  lemma {:induction false} ClaimsJudged(items: seq<Item>, evidence: EvidenceMap, judge: (nat, nat) -> Option<Verdict>,
                                        k: nat, n: nat)
    requires ClaimsApart(items) && k < |items| && n <= |items[k].claims|
    requires JudgedBefore(items, evidence, judge, VerdictList(items, evidence, judge, k), k, 0)
    ensures
      JudgedBefore(items, evidence, judge,
                   VerdictList(items, evidence, judge, k) + ClaimVerdicts(items, evidence, judge, k, n), k, n)
    decreases n
  {
    hide Judged, VerdictList, ClaimsApart;
    var before := VerdictList(items, evidence, judge, k);
    if n == 0 {
      assert before + [] == before;
    } else {
      var rest, verdict := ClaimVerdicts(items, evidence, judge, k, n - 1), Judged(items, evidence, judge, k, n - 1);
      ClaimsJudged(items, evidence, judge, k, n - 1);
      if verdict.Some? {
        JudgedNext(items, evidence, judge, before + rest, k, n - 1, verdict.value);
        var entry := ClaimVerification(items[k].notice, n - 1, verdict.value);
        assert before + rest + [entry] == before + (rest + [entry]);
      }
    }
  }

  lemma {:induction false} ItemsJudged(items: seq<Item>, evidence: EvidenceMap, judge: (nat, nat) -> Option<Verdict>,
                                       k: nat)
    requires ClaimsApart(items) && k <= |items|
    ensures JudgedBefore(items, evidence, judge, VerdictList(items, evidence, judge, k), k, 0)
    decreases k
  {
    hide Judged, ClaimVerdicts, ClaimsApart;
    if k > 0 {
      ItemsJudged(items, evidence, judge, k - 1);
      ClaimsJudged(items, evidence, judge, k - 1, |items[k - 1].claims|);
    }
  }

  lemma ApartClaimsOwnTheirVerdicts(items: seq<Item>, evidence: EvidenceMap, judge: (nat, nat) -> Option<Verdict>)
    requires ClaimsApart(items)
    ensures OwnVerdicts(items, evidence, judge)
  {
    hide Judged, ClaimsApart, VerdictList;
    ItemsJudged(items, evidence, judge, |items|);
  }

  ghost predicate AllEvidenced(items: seq<Item>, evidence: EvidenceMap) {
    forall item, c :: item in items && c in item.claims ==> EvidenceOf(c.citationIds, item.notice, evidence) != []
  }

  /** One slot cannot hold two verdicts. */
  lemma SharedSlotLosesOne(items: seq<Item>, evidence: EvidenceMap, a: nat, b: nat) returns (judge: (nat, nat) -> Option<Verdict>)
    requires a < b < |items| && items[a].notice == items[b].notice && items[a].claims != [] && items[b].claims != []
    requires AllEvidenced(items, evidence)
    ensures !OwnVerdicts(items, evidence, judge)
  {
    var v, w := Verdict(Supported, "own", [], [], "v"), Verdict(Unsupported, "own", [], [], "v");
    judge := (k: nat, i: nat) => if k == a then Some(v) else Some(w);
    assert items[a] in items && items[b] in items;
    assert items[a].claims[0] in items[a].claims && items[b].claims[0] in items[b].claims;
    assert Judged(items, evidence, judge, a, 0) == Some(v) && Judged(items, evidence, judge, b, 0) == Some(w);
    assert v != w;
  }

  lemma OwnVerdictsExactly(items: seq<Item>, evidence: EvidenceMap)
    requires AllEvidenced(items, evidence)
    ensures ClaimsApart(items) <==> forall judge: (nat, nat) -> Option<Verdict> :: OwnVerdicts(items, evidence, judge)
  {
    hide OwnVerdicts, AllEvidenced;
    if ClaimsApart(items) {
      forall judge: (nat, nat) -> Option<Verdict> ensures OwnVerdicts(items, evidence, judge) {
        ApartClaimsOwnTheirVerdicts(items, evidence, judge);
      }
    } else {
      var a, b :| 0 <= a < b < |items| && items[a].notice == items[b].notice
        && items[a].claims != [] && items[b].claims != [];
      var _ := SharedSlotLosesOne(items, evidence, a, b);
    }
  }

  lemma AcceptedIsEvidenced(items: seq<Item>, evidence: EvidenceMap, candidates: seq<NoticeId>,
                            views: map<NoticeId, View>, hashOf: string -> Hash)
    requires BindsAll(evidence, candidates, views, hashOf) && ReportErrors(items, evidence, hashOf) == []
    ensures AllEvidenced(items, evidence)
  {
    hide BindsAll, ReportErrors, EvidenceOf;
    AcceptedExactlyWhenWellCited(items, evidence, candidates, views, hashOf);
    forall item, c | item in items && c in item.claims
      ensures EvidenceOf(c.citationIds, item.notice, evidence) != []
    {
      assert WellCited(candidates, views, hashOf, item.notice, c);
      EvidenceIsParallel(c.citationIds, item.notice, evidence, candidates, views, hashOf);
    }
  }

  /** For an accepted draft every claim gets its own verdict, whatever the verifier answers, exactly when
      no two items of one notice both carry claims. */
  lemma VerdictsAreOwnExactlyWhenApart(items: seq<Item>, evidence: EvidenceMap, candidates: seq<NoticeId>,
                                       views: map<NoticeId, View>, hashOf: string -> Hash)
    requires BindsAll(evidence, candidates, views, hashOf) && ReportErrors(items, evidence, hashOf) == []
    ensures ClaimsApart(items) <==> forall judge: (nat, nat) -> Option<Verdict> :: OwnVerdicts(items, evidence, judge)
  {
    AcceptedIsEvidenced(items, evidence, candidates, views, hashOf);
    OwnVerdictsExactly(items, evidence);
  }

  /** The verifier was asked about the claim and raised. */
  ghost predicate Raised(items: seq<Item>, evidence: EvidenceMap, judge: (nat, nat) -> Option<Verdict>, k: nat, i: nat)
    requires k < |items| && i < |items[k].claims|
  {
    EvidenceOf(items[k].claims[i].citationIds, items[k].notice, evidence) != [] && judge(k, i).None?
  }

  /** `verify_semantics`: the verdicts in item and claim order; degraded exactly when some judgement raised. */
  method VerifySemantics(items: seq<Item>, evidence: EvidenceMap, judge: (nat, nat) -> Option<Verdict>)
    returns (vs: seq<ClaimVerification>, degraded: bool)
    ensures vs == AllVerdicts(items, evidence, judge)
    ensures degraded <==>
      exists k: nat, i: nat :: k < |items| && i < |items[k].claims| && Raised(items, evidence, judge, k, i)
  {
    vs, degraded := [], false;
    for k := 0 to |items|
      invariant vs == VerdictList(items, evidence, judge, k)
      invariant degraded <==>
        exists a: nat, c: nat :: a < k && c < |items[a].claims| && Raised(items, evidence, judge, a, c)
    {
      var claims := items[k].claims;
      ghost var earlier, before := vs, degraded;
      for i := 0 to |claims|
        invariant vs == earlier + ClaimVerdicts(items, evidence, judge, k, i)
        invariant degraded <==> before || exists c: nat :: c < i && Raised(items, evidence, judge, k, c)
      {
        var spans := EvidenceForClaim(claims[i], items[k].notice, evidence);
        if spans == [] {
          continue;
        }
        var verdict := judge(k, i);
        if verdict.None? {
          assert Raised(items, evidence, judge, k, i);
          degraded := true;
          continue;
        }
        vs := vs + [ClaimVerification(items[k].notice, i, verdict.value)];
      }
    }
  }
}
