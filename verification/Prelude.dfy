/** Small shared datatypes and sequence facts. */
module Prelude {

  datatype Option<+T> = None | Some(value: T)

  datatype Result<+T, +E> = Ok(value: T) | Err(error: E)

  /** No element occurs twice. */
  ghost predicate Distinct<T(!new)>(s: seq<T>) {
    forall i, j :: 0 <= i < j < |s| ==> s[i] != s[j]
  }

  /** Repeats dropped, first occurrences kept in order. */
  function Dedup<T(==)>(s: seq<T>): seq<T> {
    if s == [] then []
    else
      var front, last := Dedup(s[..|s| - 1]), s[|s| - 1];
      if last in front then front else front + [last]
  }

  lemma {:induction false} DedupHas<T>(s: seq<T>)
    ensures forall x :: x in Dedup(s) <==> x in s
  {
    if s != [] {
      DedupHas(s[..|s| - 1]);
      assert s == s[..|s| - 1] + [s[|s| - 1]];
    }
  }

  lemma DedupNext<T>(s: seq<T>, k: nat)
    requires k < |s|
    ensures Dedup(s[..k + 1]) == (if s[k] in s[..k] then Dedup(s[..k]) else Dedup(s[..k]) + [s[k]])
  {
    assert s[..k + 1][..k] == s[..k];
    DedupHas(s[..k]);
  }

  lemma {:induction false} DedupIsDistinct<T(!new)>(s: seq<T>)
    ensures Distinct(Dedup(s))
  {
    if s != [] {
      DedupIsDistinct(s[..|s| - 1]);
    }
  }

  lemma {:induction false} DedupOfDistinct<T(!new)>(s: seq<T>)
    requires Distinct(s)
    ensures Dedup(s) == s
  {
    if s != [] {
      DedupOfDistinct(s[..|s| - 1]);
    }
  }

  /** The kept elements are the first occurrences, in their order. */
  lemma {:induction false} DedupKeepsFirsts<T>(s: seq<T>) returns (at: seq<nat>)
    ensures |at| == |Dedup(s)|
    ensures forall p :: 0 <= p < |at| ==> at[p] < |s| && Dedup(s)[p] == s[at[p]] && s[at[p]] !in s[..at[p]]
    ensures forall p, q :: 0 <= p < q < |at| ==> at[p] < at[q]
  {
    if s == [] {
      at := [];
    } else {
      var front, last := s[..|s| - 1], s[|s| - 1];
      at := DedupKeepsFirsts(front);
      DedupHas(front);
      assert forall i :: 0 <= i < |front| ==> front[i] == s[i] && front[..i] == s[..i];
      if last !in front {
        at := at + [|s| - 1];
      }
    }
  }
}
