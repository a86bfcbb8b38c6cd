/** Realigning a checkpoint's events with the stored rows after a crash. */
module EventCursor {
  import opened Prelude
  import opened RunLedger

  datatype ReconciliationError =
    | LegacyHistoryNotEmpty
    | NegativeOffset
    | MissingSequence(at: nat)
    | SkippedSequence(at: nat)
    | Conflicting(at: nat)
    | Trailing(at: nat)

  /** The rows from `base` on are exactly the first `m` checkpoint events, up to timestamps. */
  ghost predicate AlignedAt(log: Log, local: seq<Event>, base: nat, m: nat) {
    && m <= |local|
    && (forall k: nat :: base <= k ==> (k in log <==> k < base + m))
    && (forall k: nat :: base <= k < base + m && k in log ==> log[k].body == local[k - base].body)
  }

  /** At most one cursor position aligns. */
  lemma AlignedUnique(log: Log, local: seq<Event>, base: nat, m: nat, n: nat)
    requires AlignedAt(log, local, base, m) && AlignedAt(log, local, base, n)
    ensures m == n
  {
    assert m < n ==> base + m in log;
    assert n < m ==> base + n in log;
  }

  /** On a dense log, aligning at a base inside the log means the log ends right behind the cursor. */
  lemma AlignedEndsLog(log: Log, local: seq<Event>, base: nat, m: nat)
    requires Dense(log) && base <= |log| && AlignedAt(log, local, base, m)
    ensures |log| == base + m
  {
    assert |log| < base + m ==> |log| in log;
    assert base + m < |log| ==> base + m in log;
  }

  /** The condition under which reconciliation proceeds from base `base` with cursor `m`. */
  ghost predicate Proceeds(log: Log, local: seq<Event>, base: nat, complete: bool, m: nat) {
    AlignedAt(log, local, base, m) && (complete ==> m == |local|)
  }

  /** What an error of the realignment says about the rows from `base` on. */
  ghost predicate Explains(log: Log, local: seq<Event>, base: nat, e: ReconciliationError) {
    match e
    case LegacyHistoryNotEmpty => local == [] && exists k: nat :: k in log && k >= base
    case NegativeOffset => false
    case MissingSequence(at) => base <= at < base + |local| && at !in log
    case SkippedSequence(at) => base <= at && at !in log && exists k: nat :: k in log && k > at
    case Conflicting(at) => base <= at < base + |local| && at in log && log[at].body != local[at - base].body
    case Trailing(at) => at == base + |local| && exists k: nat :: k in log && k >= at
  }

  /** One more than the largest key, or `floor` when there is none. */
  method TopSequence(rows: Log, floor: nat) returns (top: nat)
    requires forall k :: k in rows ==> floor <= k
    ensures forall k :: k in rows ==> k < top
    ensures top == floor || (top > floor && top - 1 in rows)
  {
    top := floor;
    var todo := rows.Keys;
    while todo != {}
      invariant todo <= rows.Keys
      invariant top >= floor
      invariant forall k :: k in rows && k !in todo ==> k < top
      invariant top == floor || (top > floor && top - 1 in rows)
      decreases todo
    {
      var k :| k in todo;
      if k >= top {
        top := k + 1;
      }
      todo := todo - {k};
    }
  }

  /** `_reconcile_event_cursor` for a checkpoint that carries its attempt base: it proceeds exactly
      when some cursor aligns (with the whole checkpoint, when completeness is required), and then
      returns that cursor. */
  method ReconcileFromBase(log: Log, local: seq<Event>, offset: int, complete: bool)
    returns (r: Result<(nat, nat), ReconciliationError>)
    ensures offset < 0 ==> r == Err(NegativeOffset)
    ensures offset >= 0 ==> (r.Ok? <==> exists m: nat :: Proceeds(log, local, offset, complete, m))
    ensures offset >= 0 && r.Ok? ==> r.value.1 == offset && Proceeds(log, local, offset, complete, r.value.0)
    ensures offset >= 0 && r.Err? ==> Explains(log, local, offset, r.error) && (r.error.MissingSequence? ==> complete)
  {
    if offset < 0 {
      return Err(NegativeOffset);
    }
    var bySeq: Log := map k | k in log && k >= offset :: log[k];
    var top := TopSequence(bySeq, offset);
    var expected := offset;
    while expected < top
      invariant offset <= expected <= top
      invariant forall k: nat :: offset <= k < expected ==> k in bySeq
    {
      if expected !in bySeq {
        assert expected !in log && top - 1 in log;
        return Err(SkippedSequence(expected));
      }
      expected := expected + 1;
    }
    forall k: nat | offset <= k ensures k in log <==> k < top {
      assert k in log <==> k in bySeq;
    }
    var matched := 0;
    while matched < |local|
      invariant 0 <= matched <= |local|
      invariant forall k: nat :: offset <= k < offset + matched ==> k in log && log[k].body == local[k - offset].body
    {
      var seqno := offset + matched;
      if seqno !in bySeq {
        if complete {
          return Err(MissingSequence(seqno));
        }
        break;
      }
      if bySeq[seqno].body != local[matched].body {
        return Err(Conflicting(seqno));
      }
      matched := matched + 1;
    }
    if top - 1 >= offset + |local| {
      assert top - 1 in log;
      return Err(Trailing(offset + |local|));
    }
    assert Proceeds(log, local, offset, complete, matched);
    r := Ok((matched, offset));
  }

  /** The branch for checkpoints written without a base: only an exact copy of the whole
      stored history is accepted, never a suffix of it. */
  method ReconcileLegacy(log: Log, local: seq<Event>)
    returns (r: Result<(nat, nat), ReconciliationError>)
    ensures r.Ok? <==> AlignedAt(log, local, 0, |local|)
    ensures r.Ok? ==> r.value == (|local|, 0)
    ensures r.Err? ==> Explains(log, local, 0, r.error)
  {
    var top := TopSequence(log, 0);
    if |local| == 0 {
      if top > 0 {
        assert top - 1 in log;
        return Err(LegacyHistoryNotEmpty);
      }
      return Ok((0, 0));
    }
    var bySeq: Log := map k | k in log && k <= |local| - 1 :: log[k];
    var index := 0;
    while index < |local|
      invariant 0 <= index <= |local|
      invariant forall k: nat :: k < index ==> k in log && log[k].body == local[k].body
    {
      if index !in bySeq {
        assert index !in log;
        return Err(MissingSequence(index));
      }
      if bySeq[index].body != local[index].body {
        return Err(Conflicting(index));
      }
      index := index + 1;
    }
    if top > 0 && top - 1 >= |local| {
      assert top - 1 in log;
      return Err(Trailing(|local|));
    }
    r := Ok((|local|, 0));
  }
}
