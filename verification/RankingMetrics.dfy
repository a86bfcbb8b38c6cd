/** Recall and normalised discounted cumulative gain at a cutoff, over exact reals. The logarithmic
    discount enters only through being positive and strictly decreasing. */
module RankingMetrics {
  import opened Prelude

  type Id = string

  ghost predicate IsDiscount(d: nat -> real) {
    (forall i :: d(i) > 0.0) && forall i, j :: i < j ==> d(i) > d(j)
  }

  /** The first `k` distinct results. */
  function Top(ranked: seq<Id>, k: nat): seq<Id> {
    var unique := Dedup(ranked);
    if k < |unique| then unique[..k] else unique
  }

  function Members(s: seq<Id>): set<Id> { set x | x in s }

  function RecallAtK(relevant: set<Id>, ranked: seq<Id>, k: int): real {
    if relevant == {} || k <= 0 then 0.0
    else |relevant * Members(Top(ranked, k))| as real / |relevant| as real
  }

  /** Discounts of the positions that hold a relevant result. */
  function Dcg(relevant: set<Id>, list: seq<Id>, d: nat -> real): real {
    if list == [] then 0.0
    else
      Dcg(relevant, list[..|list| - 1], d) + if list[|list| - 1] in relevant then d(|list| - 1) else 0.0
  }

  function Ideal(n: nat, d: nat -> real): real {
    if n == 0 then 0.0 else Ideal(n - 1, d) + d(n - 1)
  }

  function Least(a: nat, b: nat): nat { if a < b then a else b }

  function NdcgAtK(relevant: set<Id>, ranked: seq<Id>, k: int, d: nat -> real): real {
    if relevant == {} || k <= 0 then 0.0
    else
      var ideal := Ideal(Least(|relevant|, k), d);
      if ideal != 0.0 then Dcg(relevant, Top(ranked, k), d) / ideal else 0.0
  }

  // ------------------------------------------------------------ bounds

  function Hits(relevant: set<Id>, list: seq<Id>): nat {
    if list == [] then 0
    else Hits(relevant, list[..|list| - 1]) + if list[|list| - 1] in relevant then 1 else 0
  }

  ghost predicate AllRelevant(relevant: set<Id>, list: seq<Id>, n: nat) {
    n <= |list| && forall i :: 0 <= i < n ==> list[i] in relevant
  }

  lemma {:induction false} HitsAreMembers(relevant: set<Id>, list: seq<Id>)
    requires Distinct(list)
    ensures Hits(relevant, list) == |relevant * Members(list)| && Hits(relevant, list) <= |list|
  {
    if list == [] {
      assert relevant * Members(list) == {};
    } else {
      var front, last := list[..|list| - 1], list[|list| - 1];
      HitsAreMembers(relevant, front);
      assert last !in front;
      assert list == front + [last];
      assert relevant * Members(list) ==
             relevant * Members(front) + if last in relevant then {last} else {};
    }
  }

  lemma {:induction false} FullHits(relevant: set<Id>, list: seq<Id>)
    ensures Hits(relevant, list) <= |list|
    ensures Hits(relevant, list) == |list| <==> AllRelevant(relevant, list, |list|)
  {
    if list != [] {
      FullHits(relevant, list[..|list| - 1]);
    }
  }

  lemma {:induction false} LeadingHits(relevant: set<Id>, list: seq<Id>, n: nat)
    requires AllRelevant(relevant, list, n)
    ensures Hits(relevant, list) >= n
  {
    if n < |list| {
      LeadingHits(relevant, list[..|list| - 1], n);
    } else {
      FullHits(relevant, list);
    }
  }

  /** A ranking never beats its own hits moved to the front, and matches them only if they are there. */
  lemma {:induction false} DcgBound(relevant: set<Id>, list: seq<Id>, d: nat -> real)
    requires IsDiscount(d)
    ensures 0.0 <= Dcg(relevant, list, d) <= Ideal(Hits(relevant, list), d)
    ensures Dcg(relevant, list, d) == Ideal(Hits(relevant, list), d) <==>
            AllRelevant(relevant, list, Hits(relevant, list))
  {
    FullHits(relevant, list);
    if list != [] {
      var front, last := list[..|list| - 1], list[|list| - 1];
      DcgBound(relevant, front, d);
      FullHits(relevant, front);
      var h := Hits(relevant, front);
      if last in relevant {
        assert d(|front|) <= d(h);
        assert d(|front|) == d(h) <==> |front| == h;
        if AllRelevant(relevant, list, h + 1) && h < |front| {
          LeadingHits(relevant, front, h + 1);
        }
      } else {
        assert AllRelevant(relevant, list, h) <==> AllRelevant(relevant, front, h);
      }
    }
  }

  lemma {:induction false} IdealGrows(m: nat, n: nat, d: nat -> real)
    requires IsDiscount(d) && m <= n
    ensures 0.0 <= Ideal(m, d) <= Ideal(n, d)
    ensures m < n ==> Ideal(m, d) < Ideal(n, d)
  {
    if m < n {
      IdealGrows(m, n - 1, d);
    } else if m > 0 {
      IdealGrows(m - 1, n - 1, d);
    }
  }

  lemma TopIsDistinct(ranked: seq<Id>, k: nat)
    ensures Distinct(Top(ranked, k)) && |Top(ranked, k)| <= k
  {
    DedupIsDistinct(ranked);
  }

  lemma FewHits(relevant: set<Id>, ranked: seq<Id>, k: nat)
    ensures Hits(relevant, Top(ranked, k)) <= Least(|relevant|, k)
  {
    var top := Top(ranked, k);
    TopIsDistinct(ranked, k);
    HitsAreMembers(relevant, top);
    Subset(relevant * Members(top), relevant);
  }

  lemma {:induction false} Subset(a: set<Id>, b: set<Id>)
    requires a <= b
    ensures |a| <= |b| && (|a| == |b| ==> a == b)
  {
    if a != {} {
      var x :| x in a;
      Subset(a - {x}, b - {x});
    }
  }

  lemma Quotient(x: real, y: real)
    requires 0.0 <= x <= y && y > 0.0
    ensures 0.0 <= x / y <= 1.0 && (x / y == 1.0 <==> x == y)
  {
    var q := x / y;
    assert q * y == x;
    assert (1.0 - q) * y == y - x;
  }

  /** nDCG lies in [0, 1] for any ranking, repeats included, and is 1 exactly when something is relevant,
      the cutoff is positive and the first min(|relevant|, k) distinct results are all relevant. */
  lemma NdcgBounds(relevant: set<Id>, ranked: seq<Id>, k: int, d: nat -> real)
    requires IsDiscount(d)
    ensures 0.0 <= NdcgAtK(relevant, ranked, k, d) <= 1.0
    ensures NdcgAtK(relevant, ranked, k, d) == 1.0 <==>
            relevant != {} && k > 0 && AllRelevant(relevant, Dedup(ranked), Least(|relevant|, k))
  {
    if relevant != {} && k > 0 {
      var top, n := Top(ranked, k), Least(|relevant|, k);
      assert |relevant| > 0;
      var h := Hits(relevant, top);
      DcgBound(relevant, top, d);
      FewHits(relevant, ranked, k);
      IdealGrows(h, n, d);
      IdealGrows(0, n, d);
      Quotient(Dcg(relevant, top, d), Ideal(n, d));
      if AllRelevant(relevant, top, n) {
        LeadingHits(relevant, top, n);
      }
      assert AllRelevant(relevant, top, n) <==> AllRelevant(relevant, Dedup(ranked), n);
    }
  }

  /** Recall lies in [0, 1] and is 1 exactly when something is relevant and the first `k` distinct results
      hold all of it. */
  lemma RecallBounds(relevant: set<Id>, ranked: seq<Id>, k: int)
    ensures 0.0 <= RecallAtK(relevant, ranked, k) <= 1.0
    ensures RecallAtK(relevant, ranked, k) == 1.0 <==>
            relevant != {} && k > 0 && forall x :: x in relevant ==> x in Top(ranked, k)
  {
    if relevant != {} && k > 0 {
      var found := relevant * Members(Top(ranked, k));
      assert |relevant| > 0;
      Subset(found, relevant);
      Quotient(|found| as real, |relevant| as real);
      assert found == relevant <==> forall x :: x in relevant ==> x in Top(ranked, k);
    }
  }

  /** Repeats change neither metric. */
  lemma RepeatsDoNotCount(relevant: set<Id>, ranked: seq<Id>, k: int, d: nat -> real)
    ensures NdcgAtK(relevant, Dedup(ranked), k, d) == NdcgAtK(relevant, ranked, k, d)
    ensures RecallAtK(relevant, Dedup(ranked), k) == RecallAtK(relevant, ranked, k)
  {
    DedupIsDistinct(ranked);
    DedupOfDistinct(Dedup(ranked));
  }

  // ------------------------------------------------------------ one result more

  lemma TopGrows(ranked: seq<Id>, k: nat)
    ensures k >= |Dedup(ranked)| ==> Top(ranked, k + 1) == Top(ranked, k) == Dedup(ranked)
    ensures k < |Dedup(ranked)| ==> Top(ranked, k + 1) == Top(ranked, k) + [Dedup(ranked)[k]] && |Top(ranked, k)| == k
  {
    var unique := Dedup(ranked);
    if k < |unique| {
      assert unique[..k + 1] == unique[..k] + [unique[k]];
      if k + 1 == |unique| {
        assert unique[..k + 1] == unique;
      }
    } else if k == |unique| {
      assert unique[..k] == unique;
    }
  }

  /** What one more distinct result adds to the hits and to the gain. */
  lemma HitsGrow(relevant: set<Id>, ranked: seq<Id>, k: nat, d: nat -> real)
    ensures
      var hit := k < |Dedup(ranked)| && Dedup(ranked)[k] in relevant;
      && Hits(relevant, Top(ranked, k + 1)) == Hits(relevant, Top(ranked, k)) + (if hit then 1 else 0)
      && Dcg(relevant, Top(ranked, k + 1), d) == Dcg(relevant, Top(ranked, k), d) + (if hit then d(k) else 0.0)
    ensures Hits(relevant, Top(ranked, 0)) == 0 && Dcg(relevant, Top(ranked, 0), d) == 0.0
  {
    hide Top, Dedup;
    TopGrows(ranked, k);
    TopIsDistinct(ranked, 0);
    if k < |Dedup(ranked)| {
      assert Top(ranked, k + 1)[..|Top(ranked, k + 1)| - 1] == Top(ranked, k);
    }
  }

  lemma RecallIsHits(relevant: set<Id>, ranked: seq<Id>, k: nat)
    requires relevant != {}
    ensures RecallAtK(relevant, ranked, k) == Hits(relevant, Top(ranked, k)) as real / |relevant| as real
  {
    hide Hits, Top, Dedup, Members;
    assert |relevant| > 0;
    TopIsDistinct(ranked, k);
    HitsAreMembers(relevant, Top(ranked, k));
    if k == 0 {
      HitsGrow(relevant, ranked, 0, _ => 0.0);
    }
  }

  lemma Shares(a: real, b: real, n: real)
    requires n != 0.0
    ensures (a + b) / n == a / n + b / n
  {
  }

  /** Recall starts at 0, and one more distinct result adds one relevant document's share exactly when it is
      relevant. */
  lemma RecallByResult(relevant: set<Id>, ranked: seq<Id>, k: nat)
    requires relevant != {}
    ensures RecallAtK(relevant, ranked, 0) == 0.0
    ensures RecallAtK(relevant, ranked, k + 1) == RecallAtK(relevant, ranked, k) +
      (if k < |Dedup(ranked)| && Dedup(ranked)[k] in relevant then 1.0 / |relevant| as real else 0.0)
  {
    hide RecallAtK, Hits, Top, Dcg, Dedup;
    RecallIsHits(relevant, ranked, 0);
    RecallIsHits(relevant, ranked, k);
    RecallIsHits(relevant, ranked, k + 1);
    HitsGrow(relevant, ranked, k, _ => 0.0);
    assert |relevant| > 0;
    Shares(Hits(relevant, Top(ranked, k)) as real, 1.0, |relevant| as real);
  }

  /** The discounts of the first `n` places. */
  function Discounts(d: nat -> real, n: nat): real {
    if n == 0 then 0.0 else d(n - 1) + Discounts(d, n - 1)
  }

  lemma {:induction false} IdealIsDiscounts(n: nat, d: nat -> real)
    ensures Ideal(n, d) == Discounts(d, n)
  {
    if n > 0 {
      IdealIsDiscounts(n - 1, d);
    }
  }

  /** nDCG times the sum of the first min(|relevant|, k) discounts starts at 0, and one more distinct result
      adds the discount of its place exactly when it is relevant. */
  lemma NdcgByResult(relevant: set<Id>, ranked: seq<Id>, k: nat, d: nat -> real)
    requires IsDiscount(d) && relevant != {}
    ensures NdcgAtK(relevant, ranked, 0, d) == 0.0
    ensures
      NdcgAtK(relevant, ranked, k + 1, d) * Discounts(d, if |relevant| < k + 1 then |relevant| else k + 1)
      == NdcgAtK(relevant, ranked, k, d) * Discounts(d, if |relevant| < k then |relevant| else k)
         + (if k < |Dedup(ranked)| && Dedup(ranked)[k] in relevant then d(k) else 0.0)
  {
    hide NdcgAtK, Top, Dcg, Dedup, Hits, Discounts;
    NdcgTimesIdeal(relevant, ranked, k, d);
    NdcgTimesIdeal(relevant, ranked, k + 1, d);
    HitsGrow(relevant, ranked, k, d);
    NothingGained(relevant, ranked, d);
  }

  lemma NothingGained(relevant: set<Id>, ranked: seq<Id>, d: nat -> real)
    ensures NdcgAtK(relevant, ranked, 0, d) == 0.0
  {
  }

  lemma NdcgTimesIdeal(relevant: set<Id>, ranked: seq<Id>, k: nat, d: nat -> real)
    requires IsDiscount(d) && relevant != {}
    ensures NdcgAtK(relevant, ranked, k, d) * Discounts(d, if |relevant| < k then |relevant| else k) == Dcg(relevant, Top(ranked, k), d)
  {
    hide Dcg, Top;
    if k == 0 {
      HitsGrow(relevant, ranked, 0, d);
    } else {
      var n := Least(|relevant|, k);
      assert |relevant| > 0;
      IdealGrows(0, n, d);
      IdealIsDiscounts(n, d);
      var gain, ideal := Dcg(relevant, Top(ranked, k), d), Ideal(n, d);
      assert gain / ideal * ideal == gain;
    }
  }
}
