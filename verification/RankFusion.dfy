/** Reciprocal-rank fusion of a lexical and a vector ranking, over exact reals. */
module RankFusion {
  import opened Prelude

  type Id = string

  datatype Candidate = Candidate(id: Id, score: real, lexicalRank: Option<nat>, vectorRank: Option<nat>)

  function Ids(ranked: seq<(Id, nat)>): seq<Id> {
    seq(|ranked|, i requires 0 <= i < |ranked| => ranked[i].0)
  }

  /** What one list contributes to a candidate's score: `weight / (k + position)` per occurrence. */
  function Share(list: seq<Id>, id: Id, weight: real, k: nat): real {
    if list == [] then 0.0
    else
      var rest := Share(list[..|list| - 1], id, weight, k);
      if list[|list| - 1] == id then rest + weight / ((k + |list|) as real) else rest
  }

  function Score(lexical: seq<Id>, vector: seq<Id>, id: Id, lexicalWeight: real, vectorWeight: real, k: nat): real {
    Share(lexical, id, lexicalWeight, k) + Share(vector, id, vectorWeight, k)
  }

  /** One-based position of the last occurrence. */
  function Rank(list: seq<Id>, id: Id): Option<nat> {
    if list == [] then None
    else if list[|list| - 1] == id then Some(|list|)
    else Rank(list[..|list| - 1], id)
  }

  // ------------------------------------------------------------ stable descending sort

  /** Behind every candidate that scores at least as much. */
  function Insert(sorted: seq<Candidate>, c: Candidate): seq<Candidate> {
    if sorted == [] || sorted[|sorted| - 1].score >= c.score then sorted + [c]
    else Insert(sorted[..|sorted| - 1], c) + [sorted[|sorted| - 1]]
  }

  /** `list.sort(key=score, reverse=True)`. */
  function SortDescending(s: seq<Candidate>): seq<Candidate> {
    if s == [] then [] else Insert(SortDescending(s[..|s| - 1]), s[|s| - 1])
  }

  ghost predicate Descending(s: seq<Candidate>) {
    forall i, j :: 0 <= i < j < |s| ==> s[i].score >= s[j].score
  }

  /** `a` stands before `b`. */
  ghost predicate Precedes<T(!new)>(s: seq<T>, a: T, b: T) {
    exists p, q :: 0 <= p < q < |s| && s[p] == a && s[q] == b
  }

  /** Insertion splits the list: at least as much before, less behind. */
  lemma {:induction false} InsertSplits(sorted: seq<Candidate>, c: Candidate) returns (at: nat)
    requires Descending(sorted)
    ensures at <= |sorted| && Insert(sorted, c) == sorted[..at] + [c] + sorted[at..]
    ensures forall i :: 0 <= i < |sorted| ==> (sorted[i].score >= c.score <==> i < at)
  {
    if sorted == [] || sorted[|sorted| - 1].score >= c.score {
      at := |sorted|;
    } else {
      var front := sorted[..|sorted| - 1];
      at := InsertSplits(front, c);
      assert front[..at] == sorted[..at];
      assert front[at..] + [sorted[|sorted| - 1]] == sorted[at..];
    }
  }

  lemma InsertKeepsAll(sorted: seq<Candidate>, c: Candidate)
    requires Descending(sorted)
    ensures multiset(Insert(sorted, c)) == multiset(sorted) + multiset{c}
  {
    hide Insert, Descending;
    var at := InsertSplits(sorted, c);
    assert sorted == sorted[..at] + sorted[at..];
  }

  lemma InsertDescends(sorted: seq<Candidate>, c: Candidate)
    requires Descending(sorted)
    ensures Descending(Insert(sorted, c))
  {
    hide Insert;
    var at := InsertSplits(sorted, c);
    var out := sorted[..at] + [c] + sorted[at..];
    forall i, j | 0 <= i < j < |out| ensures out[i].score >= out[j].score {
      assert out[i] == if i < at then sorted[i] else if i == at then c else sorted[i - 1];
      assert out[j] == if j < at then sorted[j] else if j == at then c else sorted[j - 1];
    }
  }

  lemma SplitKeepsOrder(front: seq<Candidate>, c: Candidate, back: seq<Candidate>, a: Candidate, b: Candidate)
    requires Precedes(front + back, a, b)
    ensures Precedes(front + [c] + back, a, b)
  {
    var p, q :| 0 <= p < q < |front + back| && (front + back)[p] == a && (front + back)[q] == b;
    var out := front + [c] + back;
    assert out[if p < |front| then p else p + 1] == a;
    assert out[if q < |front| then q else q + 1] == b;
  }

  lemma InsertKeepsOrder(sorted: seq<Candidate>, c: Candidate, a: Candidate, b: Candidate)
    requires Descending(sorted)
    ensures Precedes(sorted, a, b) ==> Precedes(Insert(sorted, c), a, b)
    ensures a in sorted && a.score >= c.score ==> Precedes(Insert(sorted, c), a, c)
  {
    hide Insert, Descending;
    var at := InsertSplits(sorted, c);
    var front, back := sorted[..at], sorted[at..];
    assert sorted == front + back;
    if Precedes(sorted, a, b) {
      SplitKeepsOrder(front, c, back, a, b);
    }
    if a in sorted && a.score >= c.score {
      var p :| 0 <= p < |sorted| && sorted[p] == a;
      var out := front + [c] + back;
      assert out[p] == a && out[at] == c;
    }
  }

  /** Sorting keeps the candidates, orders them by score, and keeps the order of those that tie. */
  lemma {:induction false} SortMeans(s: seq<Candidate>)
    ensures Descending(SortDescending(s)) && multiset(SortDescending(s)) == multiset(s)
    ensures forall i, j :: 0 <= i < j < |s| && s[i].score >= s[j].score ==> Precedes(SortDescending(s), s[i], s[j])
  {
    if s != [] {
      var front, last := s[..|s| - 1], s[|s| - 1];
      SortMeans(front);
      assert s == front + [last];
      InsertKeepsAll(SortDescending(front), last);
      InsertDescends(SortDescending(front), last);
      forall i, j | 0 <= i < j < |s| && s[i].score >= s[j].score
        ensures Precedes(SortDescending(s), s[i], s[j])
      {
        assert front[i] in multiset(front);
        assert front[i] in SortDescending(front);
        InsertKeepsOrder(SortDescending(front), last, s[i], s[j]);
        if j < |front| {
          assert Precedes(SortDescending(front), front[i], front[j]);
        }
      }
    }
  }

  // ------------------------------------------------------------ fusion

  /** Scores, ranks and first-insertion order as the two dictionaries hold them. */
  ghost predicate Tallied(order: seq<Id>, scores: map<Id, real>, lexicalRanks: map<Id, nat>, vectorRanks: map<Id, nat>,
                          lexical: seq<Id>, vector: seq<Id>, lexicalWeight: real, vectorWeight: real, k: nat)
  {
    && order == Dedup(lexical + vector)
    && (forall id :: id in scores <==> id in order)
    && (forall id :: id in scores ==> scores[id] == Score(lexical, vector, id, lexicalWeight, vectorWeight, k))
    && (forall id :: Rank(lexical, id) == if id in lexicalRanks then Some(lexicalRanks[id]) else None)
    && (forall id :: Rank(vector, id) == if id in vectorRanks then Some(vectorRanks[id]) else None)
  }

  function CandidateOf(lexical: seq<Id>, vector: seq<Id>, id: Id, lexicalWeight: real, vectorWeight: real, k: nat)
    : Candidate
  {
    Candidate(id, Score(lexical, vector, id, lexicalWeight, vectorWeight, k), Rank(lexical, id), Rank(vector, id))
  }

  /** Every listed id once, in order of first appearance. */
  function Unsorted(lexical: seq<Id>, vector: seq<Id>, lexicalWeight: real, vectorWeight: real, k: nat)
    : seq<Candidate>
  {
    var order := Dedup(lexical + vector);
    seq(|order|, i requires 0 <= i < |order| =>
      CandidateOf(lexical, vector, order[i], lexicalWeight, vectorWeight, k))
  }

  lemma {:induction false} AbsentShare(list: seq<Id>, id: Id, weight: real, k: nat)
    requires id !in list
    ensures Share(list, id, weight, k) == 0.0 && Rank(list, id) == None
  {
    if list != [] {
      AbsentShare(list[..|list| - 1], id, weight, k);
    }
  }

  lemma TalliedLexical(order: seq<Id>, scores: map<Id, real>, ranks: map<Id, nat>, lexical: seq<Id>, i: nat,
                       w: real, v: real, k: nat)
    requires i < |lexical| && Tallied(order, scores, ranks, map[], lexical[..i], [], w, v, k)
    ensures
      var id := lexical[i];
      var score := if id in scores then scores[id] else 0.0;
      Tallied(if id in scores then order else order + [id], scores[id := score + w / ((k + i + 1) as real)],
              ranks[id := i + 1], map[], lexical[..i + 1], [], w, v, k)
  {
    var id := lexical[i];
    assert lexical[..i + 1][..i] == lexical[..i];
    assert lexical[..i] + [] == lexical[..i] && lexical[..i + 1] + [] == lexical[..i + 1];
    DedupNext(lexical, i);
    DedupHas(lexical[..i]);
    if id !in lexical[..i] {
      AbsentShare(lexical[..i], id, w, k);
    }
  }

  lemma NextPosition(list: seq<Id>, i: nat, weight: real, k: nat, id: Id)
    requires i < |list|
    ensures Share(list[..i + 1], id, weight, k) ==
            Share(list[..i], id, weight, k) + if id == list[i] then weight / ((k + i + 1) as real) else 0.0
    ensures Rank(list[..i + 1], id) == if id == list[i] then Some(i + 1) else Rank(list[..i], id)
  {
    assert list[..i + 1][..i] == list[..i];
  }

  lemma NextInOrder(lexical: seq<Id>, vector: seq<Id>, i: nat)
    requires i < |vector|
    ensures
      var order := Dedup(lexical + vector[..i]);
      Dedup(lexical + vector[..i + 1]) == if vector[i] in order then order else order + [vector[i]]
    ensures vector[i] in Dedup(lexical + vector[..i]) <==> vector[i] in lexical || vector[i] in vector[..i]
  {
    var both := lexical + vector;
    assert both[..|lexical| + i] == lexical + vector[..i];
    assert both[..|lexical| + i + 1] == lexical + vector[..i + 1];
    DedupNext(both, |lexical| + i);
    DedupHas(lexical + vector[..i]);
  }

  lemma TalliedVector(order: seq<Id>, scores: map<Id, real>, lexicalRanks: map<Id, nat>, ranks: map<Id, nat>,
                      lexical: seq<Id>, vector: seq<Id>, i: nat, w: real, v: real, k: nat)
    requires i < |vector| && Tallied(order, scores, lexicalRanks, ranks, lexical, vector[..i], w, v, k)
    ensures
      var id := vector[i];
      var score := if id in scores then scores[id] else 0.0;
      Tallied(if id in scores then order else order + [id], scores[id := score + v / ((k + i + 1) as real)],
              lexicalRanks, ranks[id := i + 1], lexical, vector[..i + 1], w, v, k)
  {
    hide Share, Rank, Dedup;
    var id := vector[i];
    NextInOrder(lexical, vector, i);
    forall other {
      NextPosition(vector, i, v, k, other);
    }
    if id !in scores {
      AbsentShare(lexical, id, w, k);
      AbsentShare(vector[..i], id, v, k);
    }
  }

  /** `_reciprocal_rank_fuse`: the stable descending sort of every listed id with its exact score. */
  method ReciprocalRankFuse(lexicalRanked: seq<(Id, nat)>, vectorRanked: seq<(Id, nat)>, k: nat,
                            lexicalWeight: real, vectorWeight: real)
    returns (fused: seq<Candidate>)
    ensures fused == SortDescending(Unsorted(Ids(lexicalRanked), Ids(vectorRanked), lexicalWeight, vectorWeight, k))
  {
    hide Tallied, SortDescending, Unsorted;
    var order: seq<Id> := [];
    var scores: map<Id, real> := map[];
    var lexicalRanks: map<Id, nat> := map[];
    var vectorRanks: map<Id, nat> := map[];
    ghost var lexical, vector := Ids(lexicalRanked), Ids(vectorRanked);
    NothingTallied(lexicalWeight, vectorWeight, k);
    for index := 0 to |lexicalRanked|
      invariant Tallied(order, scores, lexicalRanks, map[], lexical[..index], [], lexicalWeight, vectorWeight, k)
    {
      TalliedLexical(order, scores, lexicalRanks, lexical, index, lexicalWeight, vectorWeight, k);
      var id := lexicalRanked[index].0;
      var score := if id in scores then scores[id] else 0.0;
      order := if id in scores then order else order + [id];
      scores := scores[id := score + lexicalWeight / ((k + index + 1) as real)];
      lexicalRanks := lexicalRanks[id := index + 1];
    }
    assert lexical[..|lexicalRanked|] == lexical && vector[..0] == [];
    for index := 0 to |vectorRanked|
      invariant
        Tallied(order, scores, lexicalRanks, vectorRanks, lexical, vector[..index], lexicalWeight, vectorWeight, k)
    {
      TalliedVector(order, scores, lexicalRanks, vectorRanks, lexical, vector, index, lexicalWeight, vectorWeight, k);
      var id := vectorRanked[index].0;
      var score := if id in scores then scores[id] else 0.0;
      order := if id in scores then order else order + [id];
      scores := scores[id := score + vectorWeight / ((k + index + 1) as real)];
      vectorRanks := vectorRanks[id := index + 1];
    }
    assert vector[..|vectorRanked|] == vector;
    TalliedIsUnsorted(order, scores, lexicalRanks, vectorRanks, lexical, vector, lexicalWeight, vectorWeight, k);
    var candidates := seq(|order|, i requires 0 <= i < |order| && order[i] in scores =>
      Candidate(order[i], scores[order[i]],
                if order[i] in lexicalRanks then Some(lexicalRanks[order[i]]) else None,
                if order[i] in vectorRanks then Some(vectorRanks[order[i]]) else None));
    assert candidates == Unsorted(lexical, vector, lexicalWeight, vectorWeight, k);
    fused := SortDescending(candidates);
  }

  lemma NothingTallied(w: real, v: real, k: nat)
    ensures Tallied([], map[], map[], map[], [], [], w, v, k)
  {
  }

  lemma TalliedIsUnsorted(order: seq<Id>, scores: map<Id, real>, lexicalRanks: map<Id, nat>,
                          vectorRanks: map<Id, nat>, lexical: seq<Id>, vector: seq<Id>, w: real, v: real, k: nat)
    requires Tallied(order, scores, lexicalRanks, vectorRanks, lexical, vector, w, v, k)
    ensures |order| == |Unsorted(lexical, vector, w, v, k)|
    ensures forall i :: 0 <= i < |order| ==>
      && order[i] in scores
      && Unsorted(lexical, vector, w, v, k)[i] ==
         Candidate(order[i], scores[order[i]],
                   if order[i] in lexicalRanks then Some(lexicalRanks[order[i]]) else None,
                   if order[i] in vectorRanks then Some(vectorRanks[order[i]]) else None)
  {
  }

  // ------------------------------------------------------------ properties

  function Fused(lexical: seq<Id>, vector: seq<Id>, w: real, v: real, k: nat): seq<Candidate> {
    SortDescending(Unsorted(lexical, vector, w, v, k))
  }

  lemma SameMembers(a: seq<Candidate>, b: seq<Candidate>)
    requires multiset(a) == multiset(b)
    ensures forall c :: c in a <==> c in b
  {
    forall c ensures c in a <==> c in b {
      assert c in multiset(a) <==> c in multiset(b);
    }
  }

  lemma OnceEach(a: seq<Candidate>, b: seq<Candidate>)
    requires multiset(a) == multiset(b) && Distinct(b)
    ensures Distinct(a)
  {
    forall i, j | 0 <= i < j < |a| ensures a[i] != a[j] {
      DistinctCount(b, a[i]);
      assert a == a[..i] + [a[i]] + a[i + 1..];
      assert a[j] == a[i + 1..][j - i - 1];
      assert a[j] in multiset(a[i + 1..]);
      assert multiset(a) == multiset(a[..i]) + multiset{a[i]} + multiset(a[i + 1..]);
    }
  }

  lemma {:induction false} DistinctCount(s: seq<Candidate>, c: Candidate)
    requires Distinct(s)
    ensures multiset(s)[c] <= 1
  {
    if s != [] {
      DistinctCount(s[..|s| - 1], c);
      assert s == s[..|s| - 1] + [s[|s| - 1]];
      if s[|s| - 1] == c {
        assert c !in s[..|s| - 1];
        assert c !in multiset(s[..|s| - 1]);
      }
    }
  }

  lemma UnsortedIsTheUnion(lexical: seq<Id>, vector: seq<Id>, w: real, v: real, k: nat)
    ensures
      var all := Unsorted(lexical, vector, w, v, k);
      && Distinct(all)
      && (forall id :: id in lexical || id in vector ==> CandidateOf(lexical, vector, id, w, v, k) in all)
      && (forall c :: c in all ==> c == CandidateOf(lexical, vector, c.id, w, v, k) && (c.id in lexical || c.id in vector))
  {
    hide Dedup, Score, Rank;
    var all, order := Unsorted(lexical, vector, w, v, k), Dedup(lexical + vector);
    DedupHas(lexical + vector);
    DedupIsDistinct(lexical + vector);
    assert forall i :: 0 <= i < |all| ==> all[i] == CandidateOf(lexical, vector, order[i], w, v, k) && order[i] in order;
    forall id | id in lexical || id in vector ensures CandidateOf(lexical, vector, id, w, v, k) in all {
      assert id in lexical + vector;
      var i :| 0 <= i < |order| && order[i] == id;
      assert all[i] in all;
    }
  }

  /** The fused ids are exactly the listed ids, none twice; scores are exact and never rise down the list. */
  lemma FusedIsTheUnion(lexical: seq<Id>, vector: seq<Id>, w: real, v: real, k: nat)
    ensures
      var out := Fused(lexical, vector, w, v, k);
      && (forall id :: (exists c :: c in out && c.id == id) <==> id in lexical || id in vector)
      && (forall i, j :: 0 <= i < j < |out| ==> out[i].id != out[j].id && out[i].score >= out[j].score)
      && (forall c :: c in out ==> c == CandidateOf(lexical, vector, c.id, w, v, k))
  {
    hide Unsorted, SortDescending, Score, Rank;
    var all, out := Unsorted(lexical, vector, w, v, k), Fused(lexical, vector, w, v, k);
    SortMeans(all);
    SameMembers(out, all);
    UnsortedIsTheUnion(lexical, vector, w, v, k);
    OnceEach(out, all);
    assert forall i :: 0 <= i < |out| ==> out[i] in out && out[i] in all;
    forall id | id in lexical || id in vector ensures exists c :: c in out && c.id == id {
      assert CandidateOf(lexical, vector, id, w, v, k) in out;
    }
  }

  /** Among equal scores the id listed first, lexical list before vector list, comes first. */
  lemma TiesKeepOrder(lexical: seq<Id>, vector: seq<Id>, w: real, v: real, k: nat, a: Id, b: Id)
    requires Precedes(Dedup(lexical + vector), a, b)
    requires Score(lexical, vector, a, w, v, k) >= Score(lexical, vector, b, w, v, k)
    ensures
      Precedes(Fused(lexical, vector, w, v, k), CandidateOf(lexical, vector, a, w, v, k),
               CandidateOf(lexical, vector, b, w, v, k))
  {
    var all, order := Unsorted(lexical, vector, w, v, k), Dedup(lexical + vector);
    SortMeans(all);
    var p, q :| 0 <= p < q < |order| && order[p] == a && order[q] == b;
    hide Dedup, Score, Rank, SortDescending;
    assert all[p] == CandidateOf(lexical, vector, a, w, v, k) && all[q] == CandidateOf(lexical, vector, b, w, v, k);
    assert Precedes(SortDescending(all), all[p], all[q]);
  }

  lemma LargerDenominator(weight: real, a: real, b: real)
    requires weight > 0.0 && 0.0 < a < b
    ensures 0.0 < weight / b < weight / a
  {
    var x, y := weight / a, weight / b;
    assert x * a == weight && y * b == weight;
    assert y > 0.0;
    assert y * a < y * b;
    assert (x - y) * a > 0.0;
  }

  lemma {:induction false} ShareAt(list: seq<Id>, id: Id, weight: real, k: nat, p: nat)
    requires Distinct(list) && p < |list| && list[p] == id
    ensures Share(list, id, weight, k) == weight / ((k + p + 1) as real)
  {
    var front := list[..|list| - 1];
    if p == |list| - 1 {
      AbsentShare(front, id, weight, k);
    } else {
      ShareAt(front, id, weight, k, p);
    }
  }

  /** `a` is in the list ahead of `b`, or `b` is not in the list. */
  ghost predicate AheadIn(list: seq<Id>, a: Id, b: Id) {
    b in list ==> Precedes(list, a, b)
  }

  lemma AheadShare(list: seq<Id>, a: Id, b: Id, weight: real, k: nat)
    requires Distinct(list) && weight > 0.0 && AheadIn(list, a, b)
    ensures Share(list, a, weight, k) >= Share(list, b, weight, k)
    ensures b in list ==> Share(list, a, weight, k) > Share(list, b, weight, k)
  {
    if b in list {
      var p, q :| 0 <= p < q < |list| && list[p] == a && list[q] == b;
      ShareAt(list, a, weight, k, p);
      ShareAt(list, b, weight, k, q);
      LargerDenominator(weight, (k + p + 1) as real, (k + q + 1) as real);
    } else {
      AbsentShare(list, b, weight, k);
      if a in list {
        var p :| 0 <= p < |list| && list[p] == a;
        ShareAt(list, a, weight, k, p);
        LargerDenominator(weight, (k + p + 1) as real, (k + p + 2) as real);
      } else {
        AbsentShare(list, a, weight, k);
      }
    }
  }

  /** A candidate ahead of another in every list where the other appears comes out ahead of it. */
  lemma DominantComesFirst(lexical: seq<Id>, vector: seq<Id>, w: real, v: real, k: nat, a: Id, b: Id, i: nat, j: nat)
    requires Distinct(lexical) && Distinct(vector) && w > 0.0 && v > 0.0
    requires AheadIn(lexical, a, b) && AheadIn(vector, a, b)
    requires i < |Fused(lexical, vector, w, v, k)| && Fused(lexical, vector, w, v, k)[i].id == a
    requires j < |Fused(lexical, vector, w, v, k)| && Fused(lexical, vector, w, v, k)[j].id == b
    ensures i < j && Fused(lexical, vector, w, v, k)[i].score > Fused(lexical, vector, w, v, k)[j].score
  {
    hide Fused, AheadIn, Precedes;
    FusedIsTheUnion(lexical, vector, w, v, k);
    AheadShare(lexical, a, b, w, k);
    AheadShare(vector, a, b, v, k);
    var out := Fused(lexical, vector, w, v, k);
    assert out[i] in out && out[j] in out;
  }

  /** Without vector results the output is the lexical order. */
  lemma EmptyVectorKeepsLexicalOrder(lexical: seq<Id>, w: real, v: real, k: nat)
    requires Distinct(lexical) && w > 0.0
    ensures |Fused(lexical, [], w, v, k)| == |lexical|
    ensures forall i :: 0 <= i < |lexical| ==> Fused(lexical, [], w, v, k)[i].id == lexical[i]
  {
    var all := Unsorted(lexical, [], w, v, k);
    assert lexical + [] == lexical;
    DedupOfDistinct(lexical);
    forall i, j | 0 <= i < j < |all| ensures all[i].score > all[j].score {
      ShareAt(lexical, lexical[i], w, k, i);
      ShareAt(lexical, lexical[j], w, k, j);
      LargerDenominator(w, (k + i + 1) as real, (k + j + 1) as real);
    }
    SortOfSorted(all);
  }

  lemma {:induction false} SortOfSorted(s: seq<Candidate>)
    requires Descending(s)
    ensures SortDescending(s) == s
  {
    hide Insert;
    if s != [] {
      var front, last := s[..|s| - 1], s[|s| - 1];
      SortOfSorted(front);
      assert s == front + [last];
      InsertBehind(front, last);
    }
  }

  lemma InsertBehind(sorted: seq<Candidate>, c: Candidate)
    requires sorted == [] || sorted[|sorted| - 1].score >= c.score
    ensures Insert(sorted, c) == sorted + [c]
  {
  }

  // ------------------------------------------------------------ scores by position

  /** The sum of `weight / (k + position)`, counting positions from one, over the places from `from` on that
      hold the id. */
  function Gains(list: seq<Id>, id: Id, weight: real, k: nat, from: nat): real
    requires from <= |list|
    decreases |list| - from
  {
    if from == |list| then 0.0
    else (if list[from] == id then weight / ((k + from + 1) as real) else 0.0) + Gains(list, id, weight, k, from + 1)
  }

  lemma {:induction false} GainsBehind(list: seq<Id>, last: Id, id: Id, weight: real, k: nat, from: nat)
    requires from <= |list|
    ensures Gains(list + [last], id, weight, k, from) ==
            Gains(list, id, weight, k, from) + (if last == id then weight / ((k + |list| + 1) as real) else 0.0)
    decreases |list| - from
  {
    if from == |list| {
      assert Gains(list + [last], id, weight, k, from + 1) == 0.0;
    } else {
      GainsBehind(list, last, id, weight, k, from + 1);
    }
  }

  lemma {:induction false} ShareIsGains(list: seq<Id>, id: Id, weight: real, k: nat)
    ensures Share(list, id, weight, k) == Gains(list, id, weight, k, 0)
  {
    if list != [] {
      var front, last := list[..|list| - 1], list[|list| - 1];
      ShareIsGains(front, id, weight, k);
      GainsBehind(front, last, id, weight, k, 0);
      assert front + [last] == list;
    }
  }

  /** The one-based position of the last place that holds the id, none when there is no such place. */
  ghost predicate LastPlace(list: seq<Id>, id: Id, rank: Option<nat>) {
    && (rank.None? <==> id !in list)
    && (rank.Some? ==> 1 <= rank.value <= |list| && list[rank.value - 1] == id && id !in list[rank.value..])
  }

  lemma {:induction false} RankIsLastPlace(list: seq<Id>, id: Id)
    ensures LastPlace(list, id, Rank(list, id))
  {
    if list != [] {
      var front, last := list[..|list| - 1], list[|list| - 1];
      RankIsLastPlace(front, id);
      assert front + [last] == list;
      if last != id && id in front {
        var r := Rank(front, id).value;
        assert list[r..] == front[r..] + [last];
      }
    }
  }

  /** Each fused candidate has the lexical weight over its lexical places plus the vector weight over its vector
      places, and carries its last place in each list. */
  lemma FusedScores(lexical: seq<Id>, vector: seq<Id>, w: real, v: real, k: nat, c: Candidate)
    requires c in Fused(lexical, vector, w, v, k)
    ensures c.score == Gains(lexical, c.id, w, k, 0) + Gains(vector, c.id, v, k, 0)
    ensures LastPlace(lexical, c.id, c.lexicalRank) && LastPlace(vector, c.id, c.vectorRank)
  {
    hide Fused, Share, Rank, Gains;
    FusedIsTheUnion(lexical, vector, w, v, k);
    ShareIsGains(lexical, c.id, w, k);
    ShareIsGains(vector, c.id, v, k);
    RankIsLastPlace(lexical, c.id);
    RankIsLastPlace(vector, c.id);
  }
}
