/** The evidence pipeline read off its data alone: which opportunity stands where, what the offline draft says,
    which error a draft has, which evidence and which verdict a claim gets. */
module EvidenceLaws {
  import opened Prelude
  import opened Reports
  import opened EvidenceSpans
  import opened EvidenceValidation
  import opened ClaimValidation

  // ------------------------------------------------------------ opportunities

  /** How many of these candidates have a view. */
  function Viewed(candidates: seq<NoticeId>, views: map<NoticeId, View>): nat {
    if candidates == [] then 0 else Viewed(candidates[1..], views) + (if candidates[0] in views then 1 else 0)
  }

  lemma {:induction false} ViewedNext(candidates: seq<NoticeId>, n: NoticeId, views: map<NoticeId, View>)
    ensures Viewed(candidates + [n], views) == Viewed(candidates, views) + (if n in views then 1 else 0)
  {
    if candidates == [] {
      assert [] + [n] == [n] && [n][1..] == [];
    } else {
      assert (candidates + [n])[1..] == candidates[1..] + [n];
      ViewedNext(candidates[1..], n, views);
    }
  }

  /** The opportunity offers what the view of notice `n` says: its fields, and its texts in order with their hashes. */
  predicate Offers(o: Opportunity, n: NoticeId, view: View, hashOf: string -> Hash) {
    && o.notice == n && o.body == view.body && |o.evidence| == |view.texts|
    && forall i :: 0 <= i < |view.texts| ==>
         o.evidence[i].text == view.texts[i] && o.evidence[i].evidenceId == hashOf(view.texts[i]) && o.evidence[i].notice == n
  }

  /** One opportunity for each candidate with a view, in candidate order, and no other. */
  lemma {:induction false} OpportunitiesInOrder(candidates: seq<NoticeId>, views: map<NoticeId, View>, hashOf: string -> Hash)
    ensures |Opportunities(candidates, views, hashOf)| == Viewed(candidates, views)
    ensures forall k :: 0 <= k < |candidates| && candidates[k] in views ==>
      && Viewed(candidates[..k], views) < |Opportunities(candidates, views, hashOf)|
      && Offers(Opportunities(candidates, views, hashOf)[Viewed(candidates[..k], views)], candidates[k],
                views[candidates[k]], hashOf)
  {
    hide Offers;
    if candidates != [] {
      var front, last := candidates[..|candidates| - 1], candidates[|candidates| - 1];
      OpportunitiesInOrder(front, views, hashOf);
      ViewedNext(front, last, views);
      assert front + [last] == candidates;
      var all := Opportunities(candidates, views, hashOf);
      forall k | 0 <= k < |candidates| && candidates[k] in views
        ensures Viewed(candidates[..k], views) < |all|
        ensures Offers(all[Viewed(candidates[..k], views)], candidates[k], views[candidates[k]], hashOf)
      {
        if k < |front| {
          assert front[k] == candidates[k] && front[..k] == candidates[..k];
        } else {
          QuotesOffer(last, views[last], hashOf);
        }
      }
    }
  }

  lemma QuotesOffer(n: NoticeId, view: View, hashOf: string -> Hash)
    ensures Offers(Opportunity(n, view.body, QuotesOf(n, view.texts, hashOf)), n, view, hashOf)
  {
  }

  /** The offline draft has one item per opportunity, with one claim and one citation per quoted text. */
  lemma OfflineDraftQuotes(candidates: seq<NoticeId>, views: map<NoticeId, View>, hashOf: string -> Hash, k: nat)
    requires k < |candidates| && candidates[k] in views
    ensures
      var draft, at, view := OfflineDraft(Opportunities(candidates, views, hashOf)), Viewed(candidates[..k], views), views[candidates[k]];
      && |draft| == Viewed(candidates, views) && at < |draft|
      && draft[at].notice == candidates[k] && draft[at].body == view.body
      && |draft[at].claims| == |draft[at].citations| == |view.texts|
      && forall i :: 0 <= i < |view.texts| ==>
           && draft[at].claims[i] == Claim(view.texts[i], [hashOf(view.texts[i])], None)
           && draft[at].citations[i] == Citation(hashOf(view.texts[i]), Some(hashOf(view.texts[i])))
  {
    hide Viewed, Opportunities;
    OpportunitiesInOrder(candidates, views, hashOf);
  }

  // ------------------------------------------------------------ errors of a draft

  /** The first span listed for the hash that is of the notice stands at `k`. */
  predicate FirstAt(evidence: EvidenceMap, id: Hash, n: NoticeId, k: int) {
    && id in evidence && 0 <= k < |evidence[id]| && evidence[id][k].notice == n
    && forall j :: 0 <= j < k ==> evidence[id][j].notice != n
  }

  lemma {:induction false} FirstOfIs(spans: seq<Span>, n: NoticeId, k: nat)
    requires k < |spans| && spans[k].notice == n && forall j :: 0 <= j < k ==> spans[j].notice != n
    ensures FirstOf(spans, n) == Some(spans[k])
  {
    if k > 0 {
      FirstOfIs(spans[1..], n, k - 1);
    }
  }

  lemma {:induction false} FirstOfHasPlace(spans: seq<Span>, n: NoticeId) returns (k: nat)
    requires FirstOf(spans, n).Some?
    ensures k < |spans| && spans[k].notice == n && forall j :: 0 <= j < k ==> spans[j].notice != n
  {
    k := 0;
    if spans[0].notice != n {
      var at := FirstOfHasPlace(spans[1..], n);
      k := at + 1;
    }
  }

  lemma FirstAtIs(evidence: EvidenceMap, id: Hash, n: NoticeId)
    ensures forall k :: FirstAt(evidence, id, n, k) ==> FirstOf(evidence[id], n) == Some(evidence[id][k])
    ensures id in evidence && FirstOf(evidence[id], n).Some? ==> exists k :: FirstAt(evidence, id, n, k)
    ensures id in evidence && FirstOf(evidence[id], n).None? ==> forall k :: !FirstAt(evidence, id, n, k)
  {
    forall k | FirstAt(evidence, id, n, k) ensures FirstOf(evidence[id], n) == Some(evidence[id][k]) {
      FirstOfIs(evidence[id], n, k);
    }
    if id in evidence && FirstOf(evidence[id], n).Some? {
      var at := FirstOfHasPlace(evidence[id], n);
      assert FirstAt(evidence, id, n, at);
    }
  }

  /** What the citation does wrong, for a kind of error. */
  ghost predicate CitationFaulty(id: Hash, n: NoticeId, evidence: EvidenceMap, hashOf: string -> Hash, e: ClaimError) {
    match e
    case ClaimWithoutCitation => false
    case MissingEvidence => id !in evidence
    case CitationVersionMismatch => id in evidence && forall sp :: sp in evidence[id] ==> sp.notice != n
    case InvalidOffset =>
      exists k :: FirstAt(evidence, id, n, k)
        && (evidence[id][k].start < 0 || evidence[id][k].end != evidence[id][k].start + |evidence[id][k].text|)
    case SpanHashMismatch =>
      exists k :: FirstAt(evidence, id, n, k) && evidence[id][k].hash != hashOf(evidence[id][k].text)
  }

  lemma CitationErrorsMean(id: Hash, n: NoticeId, evidence: EvidenceMap, hashOf: string -> Hash, e: ClaimError)
    ensures e in CitationErrors(id, n, evidence, hashOf) <==> CitationFaulty(id, n, evidence, hashOf, e)
  {
    FirstAtIs(evidence, id, n);
  }

  /** What the claim does wrong, for a kind of error. */
  ghost predicate ClaimFaulty(c: Claim, n: NoticeId, evidence: EvidenceMap, hashOf: string -> Hash, e: ClaimError) {
    || (e == ClaimWithoutCitation && c.citationIds == [])
    || exists id :: id in c.citationIds && CitationFaulty(id, n, evidence, hashOf, e)
  }

  lemma {:induction false} CitationsErrorsMean(ids: seq<Hash>, n: NoticeId, evidence: EvidenceMap, hashOf: string -> Hash, e: ClaimError)
    ensures e in CitationsErrors(ids, n, evidence, hashOf) <==>
      exists id :: id in ids && CitationFaulty(id, n, evidence, hashOf, e)
  {
    hide CitationErrors, CitationFaulty;
    if ids != [] {
      var front, last := ids[..|ids| - 1], ids[|ids| - 1];
      CitationsErrorsMean(front, n, evidence, hashOf, e);
      CitationErrorsMean(last, n, evidence, hashOf, e);
      assert ids == front + [last];
    }
  }

  lemma ClaimErrorsMean(c: Claim, n: NoticeId, evidence: EvidenceMap, hashOf: string -> Hash, e: ClaimError)
    ensures e in ClaimErrors(c, n, evidence, hashOf) <==> ClaimFaulty(c, n, evidence, hashOf, e)
  {
    hide CitationFaulty, CitationsErrors;
    CitationsErrorsMean(c.citationIds, n, evidence, hashOf, e);
    assert ClaimWithoutCitation !in CitationsErrors(c.citationIds, n, evidence, hashOf) by {
      CitationsErrorsMean(c.citationIds, n, evidence, hashOf, ClaimWithoutCitation);
      NoSuchCitationError(n, evidence, hashOf);
    }
  }

  lemma NoSuchCitationError(n: NoticeId, evidence: EvidenceMap, hashOf: string -> Hash)
    ensures forall id :: !CitationFaulty(id, n, evidence, hashOf, ClaimWithoutCitation)
  {
  }

  lemma {:induction false} ClaimsErrorsMean(claims: seq<Claim>, n: NoticeId, evidence: EvidenceMap, hashOf: string -> Hash, e: ClaimError)
    ensures e in ClaimsErrors(claims, n, evidence, hashOf) <==>
      exists c :: c in claims && ClaimFaulty(c, n, evidence, hashOf, e)
  {
    hide ClaimErrors, ClaimFaulty;
    if claims != [] {
      var front, last := claims[..|claims| - 1], claims[|claims| - 1];
      ClaimsErrorsMean(front, n, evidence, hashOf, e);
      ClaimErrorsMean(last, n, evidence, hashOf, e);
      assert claims == front + [last];
    }
  }

  /** The errors of a draft, for every evidence map: a kind of error is reported exactly when some claim of
      some item commits it. */
  lemma {:induction false} ErrorsMean(items: seq<Item>, evidence: EvidenceMap, hashOf: string -> Hash, e: ClaimError)
    ensures e in ReportErrors(items, evidence, hashOf) <==>
      exists item, c :: item in items && c in item.claims && ClaimFaulty(c, item.notice, evidence, hashOf, e)
  {
    hide ClaimsErrors, ClaimFaulty;
    if items != [] {
      var front, last := items[..|items| - 1], items[|items| - 1];
      ErrorsMean(front, evidence, hashOf, e);
      ClaimsErrorsMean(last.claims, last.notice, evidence, hashOf, e);
      assert items == front + [last];
    }
  }

  /** The citation's span of the notice is there and whole. */
  ghost predicate Backs(id: Hash, n: NoticeId, evidence: EvidenceMap, hashOf: string -> Hash) {
    exists k ::
      && FirstAt(evidence, id, n, k)
      && 0 <= evidence[id][k].start && evidence[id][k].end == evidence[id][k].start + |evidence[id][k].text|
      && evidence[id][k].hash == hashOf(evidence[id][k].text)
  }

  lemma BacksExactly(id: Hash, n: NoticeId, evidence: EvidenceMap, hashOf: string -> Hash)
    ensures Backs(id, n, evidence, hashOf) <==> CitationErrors(id, n, evidence, hashOf) == []
  {
    FirstAtIs(evidence, id, n);
  }

  lemma {:induction false} CitationsBacked(ids: seq<Hash>, n: NoticeId, evidence: EvidenceMap, hashOf: string -> Hash)
    ensures CitationsErrors(ids, n, evidence, hashOf) == [] <==> forall id :: id in ids ==> Backs(id, n, evidence, hashOf)
  {
    hide Backs, CitationErrors;
    if ids != [] {
      var front, last := ids[..|ids| - 1], ids[|ids| - 1];
      CitationsBacked(front, n, evidence, hashOf);
      BacksExactly(last, n, evidence, hashOf);
      assert ids == front + [last];
    }
  }

  ghost predicate ClaimBacked(c: Claim, n: NoticeId, evidence: EvidenceMap, hashOf: string -> Hash) {
    c.citationIds != [] && forall id :: id in c.citationIds ==> Backs(id, n, evidence, hashOf)
  }

  lemma OneClaimBacked(c: Claim, n: NoticeId, evidence: EvidenceMap, hashOf: string -> Hash)
    ensures ClaimErrors(c, n, evidence, hashOf) == [] <==> ClaimBacked(c, n, evidence, hashOf)
  {
    hide Backs, CitationsErrors;
    CitationsBacked(c.citationIds, n, evidence, hashOf);
  }

  lemma {:induction false} ClaimsBacked(claims: seq<Claim>, n: NoticeId, evidence: EvidenceMap, hashOf: string -> Hash)
    ensures ClaimsErrors(claims, n, evidence, hashOf) == [] <==> forall c :: c in claims ==> ClaimBacked(c, n, evidence, hashOf)
  {
    hide ClaimBacked, ClaimErrors;
    if claims != [] {
      var front, last := claims[..|claims| - 1], claims[|claims| - 1];
      ClaimsBacked(front, n, evidence, hashOf);
      OneClaimBacked(last, n, evidence, hashOf);
      assert claims == front + [last];
    }
  }

  /** Acceptance for every evidence map: each claim cites something, and for each citation the first span of
      the item's notice is there, has sound offsets and its own hash. */
  lemma {:induction false} AcceptedExactlyWhenBacked(items: seq<Item>, evidence: EvidenceMap, hashOf: string -> Hash)
    ensures ReportErrors(items, evidence, hashOf) == [] <==>
      forall item, c :: item in items && c in item.claims ==> ClaimBacked(c, item.notice, evidence, hashOf)
  {
    hide ClaimBacked, ClaimsErrors;
    if items != [] {
      var front, last := items[..|items| - 1], items[|items| - 1];
      AcceptedExactlyWhenBacked(front, evidence, hashOf);
      ClaimsBacked(last.claims, last.notice, evidence, hashOf);
      assert items == front + [last];
    }
  }

  // ------------------------------------------------------------ evidence of a claim

  /** The evidence found for a claim, for every map: the first span of the notice for each citation that has one. */
  lemma {:induction false} EvidenceMeans(ids: seq<Hash>, n: NoticeId, evidence: EvidenceMap, sp: Span)
    ensures sp in EvidenceOf(ids, n, evidence) <==>
      exists id, k :: id in ids && FirstAt(evidence, id, n, k) && evidence[id][k] == sp
    ensures EvidenceOf(ids, n, evidence) == [] <==> forall id, k :: id in ids ==> !FirstAt(evidence, id, n, k)
  {
    if ids != [] {
      var front, last := ids[..|ids| - 1], ids[|ids| - 1];
      EvidenceMeans(front, n, evidence, sp);
      assert ids == front + [last];
      FirstAtIs(evidence, last, n);
    }
  }

  // ------------------------------------------------------------ verdicts

  /** The last entry for claim `i` of notice `n` stands at `p`. */
  predicate LastFor(vs: seq<ClaimVerification>, n: NoticeId, i: nat, p: int) {
    && 0 <= p < |vs| && vs[p].notice == n && vs[p].claimIndex == i
    && forall q :: p < q < |vs| ==> !(vs[q].notice == n && vs[q].claimIndex == i)
  }

  /** A claim is answered by the last entry for its notice and ordinal, and not at all without one. */
  lemma {:induction false} VerdictIsLast(vs: seq<ClaimVerification>, n: NoticeId, i: nat)
    ensures forall p :: LastFor(vs, n, i, p) ==> VerdictFor(vs, n, i) == Some(vs[p].verdict)
    ensures VerdictFor(vs, n, i).None? <==> forall v :: v in vs ==> v.notice != n || v.claimIndex != i
  {
    if vs != [] {
      var front, last := vs[..|vs| - 1], vs[|vs| - 1];
      VerdictIsLast(front, n, i);
      assert vs == front + [last];
      forall p | LastFor(vs, n, i, p) ensures VerdictFor(vs, n, i) == Some(vs[p].verdict) {
        if p < |front| {
          assert vs[|vs| - 1] == last;
          assert LastFor(front, n, i, p);
        }
      }
    }
  }

  /** Stamping: every claim gets the status of the last verdict entry for its notice and ordinal, none without
      one, and nothing else of the draft changes. */
  lemma StampsLastVerdict(items: seq<Item>, vs: seq<ClaimVerification>, k: nat, i: nat)
    requires k < |items| && i < |items[k].claims|
    ensures
      var stamped := Stamped(items, vs);
      && |stamped| == |items| && |stamped[k].claims| == |items[k].claims|
      && stamped[k].notice == items[k].notice && stamped[k].body == items[k].body
      && stamped[k].citations == items[k].citations
      && stamped[k].claims[i].text == items[k].claims[i].text
      && stamped[k].claims[i].citationIds == items[k].claims[i].citationIds
      && (forall p :: LastFor(vs, items[k].notice, i, p) ==> stamped[k].claims[i].support == Some(vs[p].verdict.status))
      && ((forall v :: v in vs ==> v.notice != items[k].notice || v.claimIndex != i) ==> stamped[k].claims[i].support == None)
  {
    hide LastFor;
    VerdictIsLast(vs, items[k].notice, i);
  }

  /** Claim `at.1` of item `at.0` has evidence. */
  ghost predicate Evidenced(items: seq<Item>, evidence: EvidenceMap, at: (nat, nat)) {
    && at.0 < |items| && at.1 < |items[at.0].claims|
    && exists id, k :: id in items[at.0].claims[at.1].citationIds && FirstAt(evidence, id, items[at.0].notice, k)
  }

  /** Item and claim order. */
  predicate Earlier(a: (nat, nat), b: (nat, nat)) {
    a.0 < b.0 || (a.0 == b.0 && a.1 < b.1)
  }

  /** The entries answer the claims at these places, in item and claim order. */
  ghost predicate Answers(vs: seq<ClaimVerification>, places: seq<(nat, nat)>, items: seq<Item>, evidence: EvidenceMap,
                          judge: (nat, nat) -> Option<Verdict>)
  {
    && |places| == |vs|
    && (forall p, q :: 0 <= p < q < |places| ==> Earlier(places[p], places[q]))
    && (forall p :: 0 <= p < |places| ==>
          && Evidenced(items, evidence, places[p])
          && judge(places[p].0, places[p].1) == Some(vs[p].verdict)
          && vs[p].notice == items[places[p].0].notice && vs[p].claimIndex == places[p].1)
  }

  /** Every claim before place `(k, n)` that has evidence and a judgement is among the places, and no other. */
  ghost predicate Covers(places: seq<(nat, nat)>, items: seq<Item>, evidence: EvidenceMap,
                         judge: (nat, nat) -> Option<Verdict>, k: nat, n: nat)
  {
    && (forall at :: at in places ==> Earlier(at, (k, n)))
    && (forall at :: Earlier(at, (k, n)) && Evidenced(items, evidence, at) && judge(at.0, at.1).Some? ==> at in places)
  }

  lemma AnswersNext(vs: seq<ClaimVerification>, places: seq<(nat, nat)>, items: seq<Item>, evidence: EvidenceMap,
                    judge: (nat, nat) -> Option<Verdict>, k: nat, n: nat)
    returns (more: seq<(nat, nat)>)
    requires k < |items| && n < |items[k].claims|
    requires Answers(vs, places, items, evidence, judge) && Covers(places, items, evidence, judge, k, n)
    ensures
      var v := Judged(items, evidence, judge, k, n);
      Answers(if v.None? then vs else vs + [ClaimVerification(items[k].notice, n, v.value)], more, items, evidence, judge)
    ensures Covers(more, items, evidence, judge, k, n + 1)
  {
    hide Evidenced, Covers, Answers;
    more := places;
    JudgedExactly(items, evidence, judge, k, n);
    if Judged(items, evidence, judge, k, n).Some? {
      more := places + [(k, n)];
      AnswerAdded(vs, places, items, evidence, judge, k, n);
    }
    CoverAdded(places, more, items, evidence, judge, k, n);
  }

  lemma JudgedExactly(items: seq<Item>, evidence: EvidenceMap, judge: (nat, nat) -> Option<Verdict>, k: nat, n: nat)
    requires k < |items| && n < |items[k].claims|
    ensures Judged(items, evidence, judge, k, n).Some? <==> Evidenced(items, evidence, (k, n)) && judge(k, n).Some?
    ensures Judged(items, evidence, judge, k, n).Some? ==> Judged(items, evidence, judge, k, n) == judge(k, n)
  {
    hide FirstAt, EvidenceOf;
    EvidenceFound(items[k].claims[n].citationIds, items[k].notice, evidence);
  }

  lemma AnswerAdded(vs: seq<ClaimVerification>, places: seq<(nat, nat)>, items: seq<Item>, evidence: EvidenceMap,
                    judge: (nat, nat) -> Option<Verdict>, k: nat, n: nat)
    requires k < |items| && Answers(vs, places, items, evidence, judge) && Covers(places, items, evidence, judge, k, n)
    requires Evidenced(items, evidence, (k, n)) && judge(k, n).Some?
    ensures Answers(vs + [ClaimVerification(items[k].notice, n, judge(k, n).value)], places + [(k, n)], items, evidence, judge)
  {
    hide Evidenced;
    assert forall p :: 0 <= p < |places| ==> places[p] in places;
  }

  lemma CoverAdded(places: seq<(nat, nat)>, more: seq<(nat, nat)>, items: seq<Item>, evidence: EvidenceMap,
                   judge: (nat, nat) -> Option<Verdict>, k: nat, n: nat)
    requires Covers(places, items, evidence, judge, k, n)
    requires more == if Evidenced(items, evidence, (k, n)) && judge(k, n).Some? then places + [(k, n)] else places
    ensures Covers(more, items, evidence, judge, k, n + 1)
  {
    hide Evidenced;
    assert forall at :: Earlier(at, (k, n + 1)) <==> Earlier(at, (k, n)) || at == (k, n);
  }

  lemma EvidenceFound(ids: seq<Hash>, n: NoticeId, evidence: EvidenceMap)
    ensures EvidenceOf(ids, n, evidence) != [] <==> exists id, k :: id in ids && FirstAt(evidence, id, n, k)
  {
    EvidenceMeans(ids, n, evidence, Span(0, "", 0, 0, ""));
  }

  lemma {:induction false} ClaimsAnswered(items: seq<Item>, evidence: EvidenceMap, judge: (nat, nat) -> Option<Verdict>, k: nat, n: nat)
    returns (places: seq<(nat, nat)>)
    requires k < |items| && n <= |items[k].claims|
    ensures Answers(VerdictList(items, evidence, judge, k) + ClaimVerdicts(items, evidence, judge, k, n), places, items, evidence, judge)
    ensures Covers(places, items, evidence, judge, k, n)
    decreases k, 1, n
  {
    hide Answers, Covers, Judged, VerdictList;
    var before := VerdictList(items, evidence, judge, k);
    if n == 0 {
      places := ItemsAnswered(items, evidence, judge, k);
      assert before + [] == before;
    } else {
      var prior := ClaimsAnswered(items, evidence, judge, k, n - 1);
      var rest, v := ClaimVerdicts(items, evidence, judge, k, n - 1), Judged(items, evidence, judge, k, n - 1);
      places := AnswersNext(before + rest, prior, items, evidence, judge, k, n - 1);
      if v.Some? {
        var entry := ClaimVerification(items[k].notice, n - 1, v.value);
        assert before + rest + [entry] == before + (rest + [entry]);
      }
    }
  }

  lemma {:induction false} ItemsAnswered(items: seq<Item>, evidence: EvidenceMap, judge: (nat, nat) -> Option<Verdict>, k: nat)
    returns (places: seq<(nat, nat)>)
    requires k <= |items|
    ensures Answers(VerdictList(items, evidence, judge, k), places, items, evidence, judge)
    ensures Covers(places, items, evidence, judge, k, 0)
    decreases k, 0, 0
  {
    if k == 0 {
      places := [];
    } else {
      places := ClaimsAnswered(items, evidence, judge, k - 1, |items[k - 1].claims|);
      assert VerdictList(items, evidence, judge, k) ==
             VerdictList(items, evidence, judge, k - 1) + ClaimVerdicts(items, evidence, judge, k - 1, |items[k - 1].claims|);
      ItemDone(places, items, evidence, judge, k - 1);
    }
  }

  lemma ItemDone(places: seq<(nat, nat)>, items: seq<Item>, evidence: EvidenceMap, judge: (nat, nat) -> Option<Verdict>, k: nat)
    requires k < |items| && Covers(places, items, evidence, judge, k, |items[k].claims|)
    ensures Covers(places, items, evidence, judge, k + 1, 0)
  {
    forall at | Earlier(at, (k + 1, 0)) && Evidenced(items, evidence, at) && judge(at.0, at.1).Some? ensures at in places {
      assert Earlier(at, (k, |items[k].claims|));
    }
  }

  /** The verdict list: one entry for each claim that has evidence and whose judgement did not raise, and none
      for any other, in item and claim order. */
  lemma VerdictsAnswerEvidencedClaims(items: seq<Item>, evidence: EvidenceMap, judge: (nat, nat) -> Option<Verdict>)
    returns (places: seq<(nat, nat)>)
    ensures Answers(AllVerdicts(items, evidence, judge), places, items, evidence, judge)
    ensures forall at :: at in places <==> Evidenced(items, evidence, at) && judge(at.0, at.1).Some?
  {
    hide Answers, Evidenced;
    places := ItemsAnswered(items, evidence, judge, |items|);
    forall at ensures at in places <==> Evidenced(items, evidence, at) && judge(at.0, at.1).Some? {
      AnsweredIsEvidenced(AllVerdicts(items, evidence, judge), places, items, evidence, judge, at);
      InsideItems(items, evidence, at);
    }
  }

  lemma AnsweredIsEvidenced(vs: seq<ClaimVerification>, places: seq<(nat, nat)>, items: seq<Item>, evidence: EvidenceMap,
                            judge: (nat, nat) -> Option<Verdict>, at: (nat, nat))
    requires Answers(vs, places, items, evidence, judge)
    ensures at in places ==> Evidenced(items, evidence, at) && judge(at.0, at.1).Some?
  {
    hide Evidenced;
  }

  lemma InsideItems(items: seq<Item>, evidence: EvidenceMap, at: (nat, nat))
    ensures Evidenced(items, evidence, at) ==> Earlier(at, (|items|, 0))
  {
  }
}
