/** The relational side of a run: the `query_runs` row, its `run_events` rows, and
    every transaction the executor and the run service commit against them.

    Each transaction is a function on values; `RunStore` performs the same
    transaction step by step on mutable tables and is proved against it. */
module RunLedger {
  import opened Prelude

  type RunId = nat
  type Token = nat

  datatype Status = Pending | Running | AwaitingConfirmation | Retryable | Completed | Failed

  /** `updatedAt` is the heartbeat column that stale recovery compares with a cut-off. */
  datatype Row = Row(status: Status, token: Option<Token>, updatedAt: int)

  /** The timestamp-independent identity of an event. */
  datatype Fingerprint = Fingerprint(
    node: string,
    event: string,
    status: string,
    message: Option<string>,
    details: map<string, string>)

  /** An event as the graph streams it; the stamp is absent when it cannot be parsed. */
  datatype Event = Event(stamp: Option<int>, body: Fingerprint)

  /** An event as stored. */
  datatype EventRow = EventRow(stamp: int, body: Fingerprint)

  /** `run_events` of one run, keyed by its unique `seq`. */
  type Log = map<nat, EventRow>

  /** The row is running under exactly this token. */
  predicate Owns(row: Row, token: Token) {
    row.status == Running && row.token == Some(token)
  }

  predicate Terminal(status: Status) {
    status == Completed || status == Failed
  }

  function Stored(e: Event, now: int): EventRow {
    EventRow(if e.stamp.Some? then e.stamp.value else now, e.body)
  }

  /** A run as it is inserted. */
  function NewRow(now: int): Row { Row(Pending, None, now) }

  /** The log holds exactly the sequence numbers `0 .. |log|-1`. */
  ghost predicate Dense(log: Log) {
    forall k: nat :: k in log <==> k < |log|
  }

  // ------------------------------------------------------------ transactions

  /** Conditional claim of an eligible row under a freshly minted token. */
  function ClaimTx(row: Row, eligible: Status, mint: Token, now: int): (Row, Option<Token>) {
    if row.status == eligible then (Row(Running, Some(mint), now), Some(mint)) else (row, None)
  }

  /** Token-fenced heartbeat. */
  function BeatTx(row: Row, token: Token, now: int): (Row, bool) {
    if Owns(row, token) then (row.(updatedAt := now), true) else (row, false)
  }

  /** Token-fenced status update; leaving `running` clears the token. */
  function FinishTx(row: Row, token: Token, status: Status, now: int): (Row, bool) {
    if Owns(row, token)
    then (Row(status, if status == Running then row.token else None, now), true)
    else (row, false)
  }

  /** Startup recovery of rows whose heartbeat is older than the cut-off. */
  function RecoverTx(row: Row, stuck: Status, staleBefore: Option<int>, now: int): Row {
    if row.status == stuck && (staleBefore.None? || row.updatedAt < staleBefore.value)
    then Row(Retryable, None, now)
    else row
  }

  datatype AppendOutcome = Lost | Conflict | Appended(row: Row, log: Log)

  /** The log after inserting rows for `events[start..]` at sequences `base+start ..`. */
  function Inserted(log: Log, events: seq<Event>, start: nat, base: nat, now: int): (log': Log)
    requires start <= |events|
    decreases |events|
  {
    if |events| == start then log
    else
      var last := |events| - 1;
      Inserted(log, events[..last], start, base, now)[base + last := Stored(events[last], now)]
  }

  /** No sequence number in `lo .. hi-1` is taken. */
  predicate Free(log: Log, lo: nat, hi: nat) {
    forall q :: lo <= q < hi ==> q !in log
  }

  /** Token-fenced append of `events[start..]`; a taken sequence number aborts the transaction. */
  function AppendTx(row: Row, log: Log, token: Token, events: seq<Event>, start: nat, base: nat, now: int): AppendOutcome
    requires start <= |events|
  {
    if start == |events| then Appended(row, log)
    else if !Owns(row, token) then Lost
    else if Free(log, base + start, base + |events|)
    then Appended(row.(updatedAt := now), Inserted(log, events, start, base, now))
    else Conflict
  }

  /** One more than the largest stored sequence number, 0 for an empty log. */
  ghost predicate IsNextSeq(log: Log, n: nat) {
    && (forall k :: k in log ==> k < n)
    && (n == 0 || n - 1 in log)
  }

  lemma NextSeqUnique(log: Log, m: nat, n: nat)
    requires IsNextSeq(log, m) && IsNextSeq(log, n)
    ensures m == n
  {
    assert m > 0 ==> m - 1 < n;
    assert n > 0 ==> n - 1 < m;
  }

  /** On a dense log the next sequence number is the number of rows. */
  lemma NextSeqOfDense(log: Log, n: nat)
    requires Dense(log) && IsNextSeq(log, n)
    ensures n == |log|
  {
    assert |log| > 0 ==> |log| - 1 in log;
    NextSeqUnique(log, n, |log|);
  }

  /** What an append leaves at every sequence number. */
  lemma {:induction false} InsertedAt(log: Log, events: seq<Event>, start: nat, base: nat, now: int, k: nat)
    requires start <= |events|
    ensures k in Inserted(log, events, start, base, now) <==> k in log || base + start <= k < base + |events|
    ensures base + start <= k < base + |events| ==>
      Inserted(log, events, start, base, now)[k] == Stored(events[k - base], now)
    ensures !(base + start <= k < base + |events|) && k in log ==>
      Inserted(log, events, start, base, now)[k] == log[k]
    decreases |events|
  {
    if |events| > start {
      InsertedAt(log, events[..|events| - 1], start, base, now, k);
    }
  }

  lemma {:induction false} InsertedSize(log: Log, events: seq<Event>, start: nat, base: nat, now: int)
    requires start <= |events| && Free(log, base + start, base + |events|)
    ensures |Inserted(log, events, start, base, now)| == |log| + |events| - start
    decreases |events|
  {
    if |events| > start {
      var last := |events| - 1;
      InsertedSize(log, events[..last], start, base, now);
      InsertedAt(log, events[..last], start, base, now, base + last);
    }
  }

  /** Appending right behind a dense log finds its sequence numbers free and keeps the log dense. */
  lemma AppendKeepsDense(log: Log, events: seq<Event>, start: nat, base: nat, now: int)
    requires Dense(log) && start <= |events| && base + start == |log|
    ensures Free(log, base + start, base + |events|)
    ensures Dense(Inserted(log, events, start, base, now))
    ensures |Inserted(log, events, start, base, now)| == base + |events|
  {
    InsertedSize(log, events, start, base, now);
    forall k: nat ensures k in Inserted(log, events, start, base, now) <==> k < base + |events| {
      InsertedAt(log, events, start, base, now, k);
    }
  }

  // ------------------------------------------------------------ mutable tables

  /** The two tables as the services see them, with the token generator. */
  class RunStore {
    var rows: map<RunId, Row>
    var events: map<RunId, Log>
    var minted: Token

    /** Every run has a log; a token is set exactly on running rows and was minted before. */
    ghost predicate Valid()
      reads this
    {
      && rows.Keys == events.Keys
      && (forall r :: r in rows ==> (rows[r].token.Some? <==> rows[r].status == Running))
      && (forall r :: r in rows && rows[r].token.Some? ==> rows[r].token.value < minted)
    }

    constructor ()
      ensures Valid() && rows == map[] && events == map[]
    {
      rows, events, minted := map[], map[], 0;
    }

    /** The insert of a new pending run. */
    method InsertPending(r: RunId, now: int)
      requires Valid() && r !in rows
      modifies this
      ensures Valid() && minted == old(minted)
      ensures rows == old(rows)[r := NewRow(now)]
      ensures events == old(events)[r := map[]]
    {
      rows := rows[r := NewRow(now)];
      events := events[r := map[]];
    }

    /** `_start_run` (eligible `pending`) and `_claim_run`: one conditional update that
        mints a token, and no change at all when the row is not eligible. */
    method Claim(r: RunId, eligible: Status, now: int) returns (token: Option<Token>)
      requires Valid() && eligible != Running
      modifies this`rows, this`minted
      ensures Valid()
      ensures r !in old(rows) ==> token == None && rows == old(rows)
      ensures r in old(rows) ==>
        var (row', t) := ClaimTx(old(rows)[r], eligible, old(minted), now);
        token == t && rows == old(rows)[r := row']
      ensures minted == if token.Some? then old(minted) + 1 else old(minted)
      ensures token.Some? ==> forall q :: q in old(rows) ==> old(rows)[q].token != token
    {
      token := None;
      if r in rows && rows[r].status == eligible {
        token := Some(minted);
        minted := minted + 1;
        rows := rows[r := Row(Running, token, now)];
      }
    }

    /** `ensure_active`: refresh the heartbeat only while still the owner. */
    method EnsureActive(r: RunId, token: Token, now: int) returns (active: bool)
      requires Valid()
      modifies this`rows
      ensures Valid()
      ensures r !in old(rows) ==> !active && rows == old(rows)
      ensures r in old(rows) ==>
        var (row', ok) := BeatTx(old(rows)[r], token, now);
        active == ok && rows == old(rows)[r := row']
    {
      active := r in rows && Owns(rows[r], token);
      if active {
        rows := rows[r := rows[r].(updatedAt := now)];
      }
    }

    /** `_assert_execution_token` for a caller that carries a token. */
    method AssertToken(r: RunId, token: Token) returns (active: bool)
      requires Valid()
      ensures active <==> r in rows && Owns(rows[r], token)
    {
      active := false;
      if r in rows {
        var row := rows[r];
        active := row.token == Some(token) && row.status == Running;
      }
    }

    /** `_update_status` with `expected_status="running"`; without a token nothing happens. */
    method UpdateStatus(r: RunId, status: Status, token: Option<Token>, now: int) returns (applied: bool)
      requires Valid()
      modifies this`rows
      ensures Valid()
      ensures token.None? || r !in old(rows) ==> !applied && rows == old(rows)
      ensures token.Some? && r in old(rows) ==>
        var (row', ok) := FinishTx(old(rows)[r], token.value, status, now);
        applied == ok && rows == old(rows)[r := row']
    {
      applied := false;
      if token.None? {
        return;
      }
      if r in rows && Owns(rows[r], token.value) {
        var row := rows[r].(status := status, updatedAt := now);
        if status != Running {
          row := row.(token := None);
        }
        rows := rows[r := row];
        applied := true;
      }
    }

    /** One recovered candidate of `mark_stale_runs_retryable`. */
    method Recover(r: RunId, stuck: Status, staleBefore: Option<int>, now: int) returns (changed: nat)
      requires Valid() && (stuck == Pending || stuck == Running)
      modifies this`rows
      ensures Valid()
      ensures r !in old(rows) ==> rows == old(rows) && changed == 0
      ensures r in old(rows) ==>
        && rows == old(rows)[r := RecoverTx(old(rows)[r], stuck, staleBefore, now)]
        && (changed == 1 <==> rows[r].status != old(rows)[r].status)
        && changed <= 1
      ensures r in old(rows) && old(rows)[r].status == stuck && (staleBefore.Some? ==> old(rows)[r].updatedAt < staleBefore.value) ==>
        rows[r].status == Retryable && rows[r].token == None && rows[r].updatedAt == now
      ensures r in old(rows) && (old(rows)[r].status != stuck || (staleBefore.Some? && old(rows)[r].updatedAt >= staleBefore.value)) ==>
        rows == old(rows)
    {
      changed := 0;
      if r in rows && rows[r].status == stuck && (staleBefore.None? || rows[r].updatedAt < staleBefore.value) {
        rows := rows[r := Row(Retryable, None, now)];
        changed := 1;
      }
    }

    /** `_next_event_seq`: the maximum is found by scanning the table. */
    method NextEventSeq(r: RunId) returns (n: nat)
      requires Valid() && r in rows
      ensures IsNextSeq(events[r], n)
    {
      n := 0;
      var todo := events[r].Keys;
      while todo != {}
        invariant todo <= events[r].Keys
        invariant forall k :: k in events[r] && k !in todo ==> k < n
        invariant n == 0 || n - 1 in events[r]
        decreases todo
      {
        var k :| k in todo;
        if k >= n {
          n := k + 1;
        }
        todo := todo - {k};
      }
    }

    /** `_append_events`: fence on the token, then insert one row per new event inside the
        same transaction; a unique-key violation rolls everything back. */
    method AppendEvents(r: RunId, streamed: seq<Event>, start: nat, base: nat, token: Token, now: int)
      returns (outcome: AppendOutcome)
      requires Valid() && r in rows && start <= |streamed|
      modifies this`rows, this`events
      ensures Valid()
      ensures outcome == AppendTx(old(rows)[r], old(events)[r], token, streamed, start, base, now)
      ensures outcome.Appended? ==> rows == old(rows)[r := outcome.row] && events == old(events)[r := outcome.log]
      ensures !outcome.Appended? ==> rows == old(rows) && events == old(events)
    {
      if start >= |streamed| {
        return Appended(rows[r], events[r]);
      }
      if !Owns(rows[r], token) {
        return Lost;
      }
      var log := events[r];
      var index := start;
      while index < |streamed|
        invariant start <= index <= |streamed|
        invariant rows == old(rows) && events == old(events) && minted == old(minted)
        invariant log == Inserted(old(events)[r], streamed[..index], start, base, now)
        invariant Free(old(events)[r], base + start, base + index)
      {
        InsertedAt(old(events)[r], streamed[..index], start, base, now, base + index);
        if base + index in log {
          return Conflict;
        }
        assert streamed[..index + 1][..index] == streamed[..index];
        log := log[base + index := Stored(streamed[index], now)];
        index := index + 1;
      }
      assert streamed[..index] == streamed;
      rows := rows[r := rows[r].(updatedAt := now)];
      events := events[r := log];
      outcome := Appended(rows[r], log);
    }
  }
}
