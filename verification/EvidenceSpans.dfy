/** Placing quoted snippets in a notice text, in order and without overlap. */
module EvidenceSpans {
  import opened Prelude
  import opened Reports
  import opened Strings

  predicate Occurs(text: string, snippet: string, at: nat) {
    at + |snippet| <= |text| && text[at..at + |snippet|] == snippet
  }

  /** `text.find(snippet, from)`. */
  function Find(text: string, snippet: string, from: nat): (at: Option<nat>)
    ensures at.Some? ==> from <= at.value && Occurs(text, snippet, at.value)
    ensures at.Some? ==> forall k :: from <= k < at.value ==> !Occurs(text, snippet, k)
    ensures at.None? ==> forall k :: from <= k ==> !Occurs(text, snippet, k)
    decreases |text| - from
  {
    if from + |snippet| > |text| then None
    else if Occurs(text, snippet, from) then Some(from)
    else Find(text, snippet, from + 1)
  }

  function EndAt(snippets: seq<string>, starts: seq<nat>): nat
    requires |starts| == |snippets|
  {
    if starts == [] then 0 else starts[|starts| - 1] + |snippets[|starts| - 1]|
  }

  /** Every snippet sits at its start, at or after the end of the one before. */
  ghost predicate Placement(text: string, snippets: seq<string>, starts: seq<nat>)
    decreases |snippets|
  {
    && |starts| == |snippets|
    && (snippets != [] ==>
          var n := |snippets| - 1;
          && Placement(text, snippets[..n], starts[..n])
          && Occurs(text, snippets[n], starts[n])
          && EndAt(snippets[..n], starts[..n]) <= starts[n])
  }

  ghost predicate Placeable(text: string, snippets: seq<string>) {
    exists starts: seq<nat> :: Placement(text, snippets, starts)
  }

  /** A placement that starts every snippet no later than any other placement does. */
  ghost predicate Leftmost(text: string, snippets: seq<string>, starts: seq<nat>) {
    && Placement(text, snippets, starts)
    && forall other: seq<nat> :: Placement(text, snippets, other) ==>
         forall i :: 0 <= i < |starts| ==> starts[i] <= other[i]
  }

  /** In a placement, spans increase and are disjoint. */
  lemma {:induction false} PlacementDisjoint(text: string, snippets: seq<string>, starts: seq<nat>, i: nat, j: nat)
    requires Placement(text, snippets, starts) && i < j < |snippets|
    ensures starts[i] + |snippets[i]| <= starts[j]
    ensures Occurs(text, snippets[i], starts[i]) && Occurs(text, snippets[j], starts[j])
    decreases |snippets|
  {
    var n := |snippets| - 1;
    if j < n {
      PlacementDisjoint(text, snippets[..n], starts[..n], i, j);
    } else if i < n - 1 {
      PlacementDisjoint(text, snippets[..n], starts[..n], i, n - 1);
    }
  }

  datatype ExtractionError = EmptySnippet(index: nat) | NotFound(index: nat)

  function SpanAt(notice: NoticeId, text: string, start: nat, hashOf: string -> Hash): Span {
    Span(notice, text, start, start + |text|, hashOf(text))
  }

  ghost predicate SpansAre(spans: seq<Span>, notice: NoticeId, snippets: seq<string>, starts: seq<nat>,
                           hashOf: string -> Hash)
  {
    && |spans| == |snippets| == |starts|
    && forall i :: 0 <= i < |spans| ==> spans[i] == SpanAt(notice, snippets[i], starts[i], hashOf)
  }

  lemma LeftmostNext(text: string, snippets: seq<string>, starts: seq<nat>, snippet: string, at: nat)
    requires Leftmost(text, snippets, starts)
    requires Find(text, snippet, EndAt(snippets, starts)) == Some(at)
    ensures Leftmost(text, snippets + [snippet], starts + [at])
  {
    var all, now := snippets + [snippet], starts + [at];
    assert all[..|snippets|] == snippets && now[..|starts|] == starts;
    forall other: seq<nat> | Placement(text, all, other)
      ensures forall i :: 0 <= i < |now| ==> now[i] <= other[i]
    {
      assert Placement(text, snippets, other[..|snippets|]);
      assert EndAt(snippets, starts) <= EndAt(snippets, other[..|snippets|]);
    }
  }

  /** In any placement the next snippet sits at or after the end of the leftmost one so far. */
  lemma NextIsLater(text: string, snippets: seq<string>, starts: seq<nat>, snippet: string, other: seq<nat>)
    requires Leftmost(text, snippets, starts) && Placement(text, snippets + [snippet], other)
    ensures EndAt(snippets, starts) <= other[|snippets|] && Occurs(text, snippet, other[|snippets|])
  {
    assert (snippets + [snippet])[..|snippets|] == snippets;
    assert Placement(text, snippets, other[..|snippets|]);
  }

  lemma NotFoundNotPlaceable(text: string, snippets: seq<string>, starts: seq<nat>, snippet: string)
    requires Leftmost(text, snippets, starts)
    requires Find(text, snippet, EndAt(snippets, starts)) == None
    ensures !Placeable(text, snippets + [snippet])
  {
    hide Leftmost;
    LeftmostIsPlacement(text, snippets, starts);
    forall other: seq<nat> | Placement(text, snippets + [snippet], other)
      ensures EndAt(snippets, starts) <= other[|snippets|] && Occurs(text, snippet, other[|snippets|])
    {
      NextIsLater(text, snippets, starts, snippet, other);
    }
  }

  lemma LeftmostIsPlacement(text: string, snippets: seq<string>, starts: seq<nat>)
    requires Leftmost(text, snippets, starts)
    ensures Placement(text, snippets, starts) && Placeable(text, snippets) && |starts| == |snippets|
  {
  }

  lemma SpansNext(spans: seq<Span>, notice: NoticeId, snippets: seq<string>, starts: seq<nat>,
                  hashOf: string -> Hash, snippet: string, at: nat)
    requires SpansAre(spans, notice, snippets, starts, hashOf)
    ensures SpansAre(spans + [SpanAt(notice, snippet, at, hashOf)], notice, snippets + [snippet], starts + [at], hashOf)
    ensures EndAt(snippets + [snippet], starts + [at]) == at + |snippet|
  {
  }

  lemma {:induction false} PrefixPlaceable(text: string, snippets: seq<string>, n: nat)
    requires n <= |snippets| && Placeable(text, snippets)
    ensures Placeable(text, snippets[..n])
    decreases |snippets|
  {
    var starts: seq<nat> :| Placement(text, snippets, starts);
    if n == |snippets| {
      assert snippets[..n] == snippets;
    } else {
      var m := |snippets| - 1;
      assert Placement(text, snippets[..m], starts[..m]);
      PrefixPlaceable(text, snippets[..m], n);
      assert snippets[..m][..n] == snippets[..n];
    }
  }

  lemma NothingPlaced(notice: NoticeId, text: string, hashOf: string -> Hash)
    ensures Leftmost(text, [], []) && SpansAre([], notice, [], [], hashOf)
  {
  }

  /** `extract_evidence`: succeeds exactly when no snippet is empty and some in-order placement without
      overlap exists, and then gives the spans of the leftmost one. */
  method ExtractEvidence(notice: NoticeId, text: string, snippets: seq<string>, hashOf: string -> Hash)
    returns (r: Result<seq<Span>, ExtractionError>)
    ensures r.Ok? <==> (forall i :: 0 <= i < |snippets| ==> snippets[i] != "") && Placeable(text, snippets)
    ensures r.Ok? ==>
      exists starts :: Leftmost(text, snippets, starts) && SpansAre(r.value, notice, snippets, starts, hashOf)
    ensures r.Err? && r.error.EmptySnippet? ==>
      r.error.index < |snippets| && snippets[r.error.index] == "" && Placeable(text, snippets[..r.error.index])
    ensures r.Err? && r.error.NotFound? ==>
      r.error.index < |snippets| && snippets[r.error.index] != "" && Placeable(text, snippets[..r.error.index])
      && !Placeable(text, snippets[..r.error.index + 1])
  {
    hide Leftmost, Placement, Placeable, SpansAre;
    var spans: seq<Span> := [];
    var cursor := 0;
    ghost var starts: seq<nat> := [];
    NothingPlaced(notice, text, hashOf);
    for i := 0 to |snippets|
      invariant |starts| == i && Leftmost(text, snippets[..i], starts)
      invariant cursor == EndAt(snippets[..i], starts)
      invariant SpansAre(spans, notice, snippets[..i], starts, hashOf)
      invariant forall j :: 0 <= j < i ==> snippets[j] != ""
    {
      var snippet := snippets[i];
      assert snippets[..i + 1] == snippets[..i] + [snippet];
      LeftmostIsPlacement(text, snippets[..i], starts);
      if snippet == "" {
        return Err(EmptySnippet(i));
      }
      var start := Find(text, snippet, cursor);
      if start.None? {
        NotFoundNotPlaceable(text, snippets[..i], starts, snippet);
        if Placeable(text, snippets) {
          PrefixPlaceable(text, snippets, i + 1);
        }
        return Err(NotFound(i));
      }
      LeftmostNext(text, snippets[..i], starts, snippet, start.value);
      SpansNext(spans, notice, snippets[..i], starts, hashOf, snippet, start.value);
      starts := starts + [start.value];
      spans := spans + [Span(notice, snippet, start.value, start.value + |snippet|, hashOf(snippet))];
      cursor := start.value + |snippet|;
    }
    assert snippets[..|snippets|] == snippets;
    LeftmostIsPlacement(text, snippets, starts);
    r := Ok(spans);
  }

  /** The spans of a successful extraction increase, are disjoint and slice back to their snippets. */
  lemma SpansSliceBack(notice: NoticeId, text: string, snippets: seq<string>, starts: seq<nat>,
                       hashOf: string -> Hash, spans: seq<Span>, i: nat, j: nat)
    requires Leftmost(text, snippets, starts) && SpansAre(spans, notice, snippets, starts, hashOf)
    requires i < j < |spans|
    ensures 0 <= spans[i].start <= spans[i].end <= spans[j].start <= spans[j].end <= |text|
    ensures text[spans[i].start..spans[i].end] == snippets[i]
    ensures text[spans[j].start..spans[j].end] == snippets[j]
  {
    PlacementDisjoint(text, snippets, starts, i, j);
  }

  // ------------------------------------------------------------ joined texts

  lemma {:induction false} JoinLast(texts: seq<string>, last: string)
    requires texts != []
    ensures Join(texts + [last], "\n") == Join(texts, "\n") + "\n" + last
  {
    if |texts| == 1 {
      assert (texts + [last])[1..] == [last];
    } else {
      assert (texts + [last])[1..] == texts[1..] + [last];
      JoinLast(texts[1..], last);
      calc {
        Join(texts + [last], "\n");
        texts[0] + "\n" + (Join(texts[1..], "\n") + "\n" + last);
        texts[0] + "\n" + Join(texts[1..], "\n") + "\n" + last;
      }
    }
  }

  lemma {:induction false} PlacementInLonger(text: string, more: string, snippets: seq<string>, starts: seq<nat>)
    requires Placement(text, snippets, starts)
    ensures Placement(text + more, snippets, starts)
    decreases |snippets|
  {
    if snippets != [] {
      var n := |snippets| - 1;
      PlacementInLonger(text, more, snippets[..n], starts[..n]);
      assert (text + more)[starts[n]..starts[n] + |snippets[n]|] == text[starts[n]..starts[n] + |snippets[n]|];
    }
  }

  lemma {:induction false} PlacementInside(text: string, snippets: seq<string>, starts: seq<nat>)
    requires Placement(text, snippets, starts)
    ensures EndAt(snippets, starts) <= |text|
  {
  }

  /** A snippet that ends a longer text can be placed behind the others. */
  lemma PlacedBehind(text: string, more: string, snippets: seq<string>, starts: seq<nat>, last: string)
    requires Placement(text, snippets, starts)
    requires |last| <= |more| && more[|more| - |last|..] == last
    ensures Placeable(text + more, snippets + [last])
  {
    PlacementInLonger(text, more, snippets, starts);
    PlacementInside(text, snippets, starts);
    var at := |text + more| - |last|;
    assert (text + more)[at..at + |last|] == last;
    var all, places := snippets + [last], starts + [at];
    assert all[..|snippets|] == snippets && places[..|starts|] == starts;
    assert Placement(text + more, all, places);
  }

  /** Texts joined by newlines can always be placed in the joined text. */
  lemma {:induction false} JoinedIsPlaceable(texts: seq<string>)
    ensures Placeable(Join(texts, "\n"), texts)
  {
    if texts == [] {
      assert Placement("", [], []);
    } else {
      var front, last := texts[..|texts| - 1], texts[|texts| - 1];
      assert texts == front + [last];
      JoinedIsPlaceable(front);
      var text := Join(front, "\n");
      var starts: seq<nat> :| Placement(text, front, starts);
      var more := if front == [] then last else "\n" + last;
      if front != [] {
        JoinLast(front, last);
      }
      assert Join(texts, "\n") == text + more;
      PlacedBehind(text, more, front, starts, last);
    }
  }
}
