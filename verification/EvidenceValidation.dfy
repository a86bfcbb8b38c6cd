/** From supporting texts to accepted claims: the evidence map, the claim validator and the verdicts. */
module EvidenceValidation {
  import opened Prelude
  import opened Reports
  import opened Strings
  import opened EvidenceSpans

  /** What a candidate notice offers: its quotable texts and its display fields. */
  datatype View = View(texts: seq<string>, body: Body)

  datatype Quote = Quote(evidenceId: Hash, text: string, notice: NoticeId)
  datatype Opportunity = Opportunity(notice: NoticeId, body: Body, evidence: seq<Quote>)

  /** `text` is a supporting text of candidate notice `n`. */
  ghost predicate Supports(candidates: seq<NoticeId>, views: map<NoticeId, View>, n: NoticeId, text: string) {
    n in candidates && n in views && text in views[n].texts
  }

  ghost predicate GoodSpan(candidates: seq<NoticeId>, views: map<NoticeId, View>, hashOf: string -> Hash, sp: Span) {
    && Supports(candidates, views, sp.notice, sp.text)
    && 0 <= sp.start && sp == SpanAt(sp.notice, sp.text, sp.start, hashOf)
    && Occurs(Join(views[sp.notice].texts, "\n"), sp.text, sp.start)
  }

  predicate InMap(evidence: EvidenceMap, h: Hash, sp: Span) {
    h in evidence && sp in evidence[h]
  }

  /** The map holds a good span for every supporting text of every candidate, and nothing else. */
  ghost predicate BindsAll(evidence: EvidenceMap, candidates: seq<NoticeId>, views: map<NoticeId, View>,
                           hashOf: string -> Hash)
  {
    && (forall h, sp :: InMap(evidence, h, sp) ==> sp.hash == h && GoodSpan(candidates, views, hashOf, sp))
    && (forall n, t :: Supports(candidates, views, n, t) ==>
          exists sp :: InMap(evidence, hashOf(t), sp) && sp.notice == n && sp.text == t)
  }

  function QuotesOf(n: NoticeId, texts: seq<string>, hashOf: string -> Hash): seq<Quote> {
    seq(|texts|, i requires 0 <= i < |texts| => Quote(hashOf(texts[i]), texts[i], n))
  }

  /** One opportunity per candidate that has a view, quoting all its supporting texts in order. */
  function Opportunities(candidates: seq<NoticeId>, views: map<NoticeId, View>, hashOf: string -> Hash)
    : seq<Opportunity>
  {
    if candidates == [] then []
    else
      var rest := Opportunities(candidates[..|candidates| - 1], views, hashOf);
      var n := candidates[|candidates| - 1];
      if n in views then rest + [Opportunity(n, views[n].body, QuotesOf(n, views[n].texts, hashOf))] else rest
  }

  // ------------------------------------------------------------ building the map

  /** Spans collected so far, as the map lists them. */
  ghost predicate Holds(evidence: EvidenceMap, spans: seq<Span>) {
    forall h, sp :: InMap(evidence, h, sp) <==> sp in spans && sp.hash == h
  }

  ghost predicate Collected(spans: seq<Span>, candidates: seq<NoticeId>, views: map<NoticeId, View>,
                            hashOf: string -> Hash)
  {
    && (forall sp :: sp in spans ==> GoodSpan(candidates, views, hashOf, sp))
    && (forall n, t :: Supports(candidates, views, n, t) ==>
          exists sp :: sp in spans && sp.notice == n && sp.text == t)
  }

  lemma CollectedBinds(evidence: EvidenceMap, spans: seq<Span>, candidates: seq<NoticeId>,
                       views: map<NoticeId, View>, hashOf: string -> Hash)
    requires Holds(evidence, spans) && Collected(spans, candidates, views, hashOf)
    ensures BindsAll(evidence, candidates, views, hashOf)
  {
    forall n, t | Supports(candidates, views, n, t)
      ensures exists sp :: InMap(evidence, hashOf(t), sp) && sp.notice == n && sp.text == t
    {
      var sp :| sp in spans && sp.notice == n && sp.text == t;
      assert GoodSpan(candidates, views, hashOf, sp);
      assert InMap(evidence, hashOf(t), sp);
    }
  }

  /** The spans extracted for one more candidate. */
  lemma CollectNext(spans: seq<Span>, candidates: seq<NoticeId>, views: map<NoticeId, View>, hashOf: string -> Hash,
                    n: NoticeId, starts: seq<nat>, more: seq<Span>)
    requires Collected(spans, candidates, views, hashOf) && n in views
    requires Leftmost(Join(views[n].texts, "\n"), views[n].texts, starts)
    requires SpansAre(more, n, views[n].texts, starts, hashOf)
    ensures Collected(spans + more, candidates + [n], views, hashOf)
  {
    var texts := views[n].texts;
    forall i | 0 <= i < |more| ensures GoodSpan(candidates + [n], views, hashOf, more[i]) {
      PlacedOccurs(Join(texts, "\n"), texts, starts, i);
      assert more[i].text == texts[i];
    }
    forall t | t in texts ensures exists sp :: sp in spans + more && sp.notice == n && sp.text == t {
      var i :| 0 <= i < |texts| && texts[i] == t;
      assert more[i] in spans + more;
    }
    forall sp | sp in spans ensures GoodSpan(candidates + [n], views, hashOf, sp) {
      assert GoodSpan(candidates, views, hashOf, sp);
    }
    forall m, t | Supports(candidates + [n], views, m, t)
      ensures exists sp :: sp in spans + more && sp.notice == m && sp.text == t
    {
      if m != n {
        assert Supports(candidates, views, m, t);
        var sp :| sp in spans && sp.notice == m && sp.text == t;
        assert sp in spans + more;
      }
    }
  }

  lemma {:induction false} PlacedOccurs(text: string, snippets: seq<string>, starts: seq<nat>, i: nat)
    requires Placement(text, snippets, starts) && i < |snippets|
    ensures Occurs(text, snippets[i], starts[i])
    decreases |snippets|
  {
    var n := |snippets| - 1;
    if i < n {
      PlacedOccurs(text, snippets[..n], starts[..n], i);
    }
  }

  lemma SkipNext(spans: seq<Span>, candidates: seq<NoticeId>, views: map<NoticeId, View>, hashOf: string -> Hash,
                 n: NoticeId)
    requires Collected(spans, candidates, views, hashOf) && n !in views
    ensures Collected(spans, candidates + [n], views, hashOf)
  {
    forall sp | sp in spans ensures GoodSpan(candidates + [n], views, hashOf, sp) {
      assert GoodSpan(candidates, views, hashOf, sp);
    }
    forall m, t | Supports(candidates + [n], views, m, t) ensures Supports(candidates, views, m, t) {
    }
  }

  lemma HoldsNext(evidence: EvidenceMap, spans: seq<Span>, sp: Span)
    requires Holds(evidence, spans)
    ensures
      var before := if sp.hash in evidence then evidence[sp.hash] else [];
      Holds(evidence[sp.hash := before + [sp]], spans + [sp])
  {
    var before := if sp.hash in evidence then evidence[sp.hash] else [];
    var evidence' := evidence[sp.hash := before + [sp]];
    forall h, x ensures InMap(evidence', h, x) <==> x in spans + [sp] && x.hash == h {
      assert InMap(evidence, h, x) <==> x in spans && x.hash == h;
      assert x in before + [sp] <==> x in before || x == sp;
      assert x in spans + [sp] <==> x in spans || x == sp;
    }
  }

  /** `verify_evidence`: fails only on an empty supporting text. */
  method VerifyEvidence(candidates: seq<NoticeId>, views: map<NoticeId, View>, hashOf: string -> Hash)
    returns (r: Result<(EvidenceMap, seq<Opportunity>), ExtractionError>)
    ensures r.Ok? <==> forall n :: n in candidates && n in views ==> "" !in views[n].texts
    ensures r.Ok? ==>
      && BindsAll(r.value.0, candidates, views, hashOf)
      && r.value.1 == Opportunities(candidates, views, hashOf)
  {
    hide Holds, Collected, BindsAll, Leftmost, SpansAre, Join;
    var evidence: EvidenceMap := map[];
    var verified: seq<Opportunity> := [];
    ghost var all: seq<Span> := [];
    NothingCollected(views, hashOf);
    for c := 0 to |candidates|
      invariant Holds(evidence, all) && Collected(all, candidates[..c], views, hashOf)
      invariant verified == Opportunities(candidates[..c], views, hashOf)
      invariant forall n :: n in candidates[..c] && n in views ==> "" !in views[n].texts
    {
      var n := candidates[c];
      assert candidates[..c + 1] == candidates[..c] + [n];
      assert candidates[..c + 1][..c] == candidates[..c];
      if n in views {
        var texts := views[n].texts;
        JoinedIsPlaceable(texts);
        var spans := ExtractEvidence(n, Join(texts, "\n"), texts, hashOf);
        if spans.Err? {
          return Err(spans.error);
        }
        ghost var starts :| Leftmost(Join(texts, "\n"), texts, starts) && SpansAre(spans.value, n, texts, starts, hashOf);
        var quotes: seq<Quote> := [];
        SpansAreTexts(spans.value, n, texts, starts, hashOf);
        assert all + spans.value[..0] == all;
        for k := 0 to |spans.value|
          invariant Holds(evidence, all + spans.value[..k])
          invariant quotes == QuotesOf(n, texts[..k], hashOf)
        {
          var span := spans.value[k];
          HoldsNext(evidence, all + spans.value[..k], span);
          assert all + spans.value[..k] + [span] == all + spans.value[..k + 1];
          var existing := if span.hash in evidence then evidence[span.hash] else [];
          evidence := evidence[span.hash := existing + [span]];
          quotes := quotes + [Quote(span.hash, span.text, n)];
        }
        assert spans.value[..|spans.value|] == spans.value && texts[..|texts|] == texts;
        CollectNext(all, candidates[..c], views, hashOf, n, starts, spans.value);
        all := all + spans.value;
        verified := verified + [Opportunity(n, views[n].body, quotes)];
      } else {
        SkipNext(all, candidates[..c], views, hashOf, n);
      }
    }
    assert candidates[..|candidates|] == candidates;
    CollectedBinds(evidence, all, candidates, views, hashOf);
    r := Ok((evidence, verified));
  }

  lemma NothingCollected(views: map<NoticeId, View>, hashOf: string -> Hash)
    ensures Holds(map[], []) && Collected([], [], views, hashOf)
  {
  }

  lemma SpansAreTexts(spans: seq<Span>, n: NoticeId, texts: seq<string>, starts: seq<nat>, hashOf: string -> Hash)
    requires SpansAre(spans, n, texts, starts, hashOf)
    ensures |spans| == |texts|
    ensures forall i :: 0 <= i < |spans| ==> spans[i].text == texts[i] && spans[i].hash == hashOf(texts[i])
  {
  }
}
