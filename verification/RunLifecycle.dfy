/** The life of a run's row over whole behaviours: which step moves its status where, whom stale recovery
    demotes, what an append writes, and when a checkpoint is thrown away. */
module RunLifecycle {
  import opened Prelude
  import opened RunLedger
  import opened RunProtocol
  import opened RunSafety
  import opened RunExits
  import opened RunRefinement

  // ------------------------------------------------------------ status moves

  /** A step of worker `w` from status `s` to `s'`. */
  predicate Moves(a: Act, x: View, s: Status, s': Status) {
    || (a.Claim? && s' == Running
        && ((x.wk.entry == Start && s == Pending)
            || (x.wk.entry == Confirm && s == AwaitingConfirmation)
            || (x.wk.entry == Retry && s == Retryable)))
    || (s == Running && s' == Retryable && !a.Report? && (Mine(x) || (a.Sweep? && x.wk.entry == Recovery)))
    || (s == Running && a.Report? && Mine(x) && x.wk.pc == Reporting(s')
        && (s' == Completed || s' == Failed || s' == AwaitingConfirmation))
  }

  lemma MovesOnEntry(w: WorkerId, a: Act, x: View, y: View)
    requires EntryStep(w, a, x, y) && WorkerOk(x) && y.run.row.status != x.run.row.status
    ensures a.Claim? || a.Sweep? || Mine(x)
    ensures a.Claim? ==> Moves(a, x, x.run.row.status, y.run.row.status)
    ensures !a.Claim? ==> x.run.row.status == Running && y.run.row.status == Retryable && !a.Report?
  {
  }

  lemma MovesInGraph(w: WorkerId, a: Act, x: View, y: View)
    requires GraphStep(w, a, x, y)
    ensures y.run.row.status == x.run.row.status && y.run.row.token == x.run.row.token
  {
    hide IsNextSeq, Prepared, Held;
  }

  lemma MovesAtEnd(w: WorkerId, a: Act, x: View, y: View)
    requires EndStep(w, a, x, y) && PcOk(x) && y.run.row.status != x.run.row.status
    ensures Moves(a, x, x.run.row.status, y.run.row.status)
  {
    hide InBody, InExecute, Prepared, Held;
  }

  /** Only recovery workers sweep. */
  predicate SweepersRecover(x: View) { x.wk.pc.Sweeping? ==> x.wk.entry == Recovery }

  lemma SweepersOnEntry(w: WorkerId, a: Act, x: View, y: View)
    requires EntryStep(w, a, x, y) && SweepersRecover(x)
    ensures SweepersRecover(y) && (a.Sweep? ==> x.wk.pc.Sweeping?)
  {
    hide Mine, FinishTx;
  }

  lemma SweepersInGraph(w: WorkerId, a: Act, x: View, y: View)
    requires GraphStep(w, a, x, y) && SweepersRecover(x)
    ensures SweepersRecover(y)
  {
    hide Mine, FinishTx, AppendTx, IsNextSeq, Prepared, Held;
  }

  lemma SweepersAtEnd(w: WorkerId, a: Act, x: View, y: View)
    requires EndStep(w, a, x, y) && SweepersRecover(x)
    ensures SweepersRecover(y)
  {
    hide Mine, FinishTx, AppendTx, IsNextSeq, InBody, InExecute, Prepared, Held;
  }

  lemma StatusStep(w: WorkerId, a: Act, x: View, y: View)
    requires LocalStep(w, a, x, y) && WorkerOk(x) && SweepersRecover(x) && y.run.row.status != x.run.row.status
    ensures Moves(a, x, x.run.row.status, y.run.row.status)
  {
    hide EntryStep, GraphStep, EndStep, WorkerOk;
    if EntryStep(w, a, x, y) {
      MovesOnEntry(w, a, x, y);
      SweepersOnEntry(w, a, x, y);
    } else if GraphStep(w, a, x, y) {
      MovesInGraph(w, a, x, y);
    } else {
      WorkerIsPcOk(x);
      MovesAtEnd(w, a, x, y);
    }
  }

  lemma WorkerIsPcOk(x: View)
    requires WorkerOk(x)
    ensures PcOk(x)
  {
  }

  lemma {:induction false} SweepersAreRecovery(tr: seq<State>, acts: seq<Action>, i: nat, w: WorkerId)
    requires Behaviour(tr, acts) && i < |tr| && w in tr[i].workers && Wired(tr[i], w)
    ensures SweepersRecover(ViewOf(tr[i], w))
    decreases i
  {
    hide LocalStep, Inv;
    if i > 0 {
      var s, a, s' := tr[i - 1], acts[i - 1], tr[i];
      assert Next(s, a, s');
      Reachable(tr, acts, i - 1);
      if w in s.workers {
        TokenBound(s, w);
        SweepersAreRecovery(tr, acts, i - 1, w);
        if a.By? && a.w == w {
          var y :| LocalStep(w, a.act, ViewOf(s, w), y) && s' == Stepped(s, w, y);
          SweepersStep(w, a.act, ViewOf(s, w), y);
        }
      }
    }
  }

  lemma SweepersStep(w: WorkerId, a: Act, x: View, y: View)
    requires LocalStep(w, a, x, y) && SweepersRecover(x)
    ensures SweepersRecover(y)
  {
    hide EntryStep, GraphStep, EndStep, SweepersRecover;
    if EntryStep(w, a, x, y) {
      SweepersOnEntry(w, a, x, y);
    } else if GraphStep(w, a, x, y) {
      SweepersInGraph(w, a, x, y);
    } else {
      SweepersAtEnd(w, a, x, y);
    }
  }

  /** The only ways a run's status changes: a claim of the status its entry point asks for; back to
      `retryable` by the owner or by recovery; the owner's report of the outcome it holds; and recovery of a
      pending row. */
  lemma StatusMovesOnly(tr: seq<State>, acts: seq<Action>, i: nat, r: RunId)
    requires Behaviour(tr, acts) && i < |acts| && r in tr[i].runs && r in tr[i + 1].runs
    requires tr[i + 1].runs[r].row.status != tr[i].runs[r].row.status
    ensures
      var s, s' := tr[i].runs[r].row.status, tr[i + 1].runs[r].row.status;
      || (acts[i].RecoverPending? && s == Pending && s' == Retryable)
      || (acts[i].By? && Wired(tr[i], acts[i].w) && tr[i].workers[acts[i].w].run == r
          && Moves(acts[i].act, ViewOf(tr[i], acts[i].w), s, s'))
  {
    hide LocalStep, Inv, WorkerOk, RunOk, Moves;
    var s, a, s' := tr[i], acts[i], tr[i + 1];
    assert Next(s, a, s');
    if a.By? {
      var y :| LocalStep(a.w, a.act, ViewOf(s, a.w), y) && s' == Stepped(s, a.w, y);
      Reachable(tr, acts, i);
      TokenBound(s, a.w);
      SweepersAreRecovery(tr, acts, i, a.w);
      StatusStep(a.w, a.act, ViewOf(s, a.w), y);
    }
  }

  /** A row its owner loses is `retryable` right then, or carries the outcome the owner just reported. */
  lemma LostRowsAreSettled(tr: seq<State>, acts: seq<Action>, i: nat, w: WorkerId)
    requires Behaviour(tr, acts) && i < |acts| && Holds(tr[i], w) && Wired(tr[i + 1], w) && !Holds(tr[i + 1], w)
    requires tr[i + 1].workers[w].token == tr[i].workers[w].token && tr[i + 1].workers[w].run == tr[i].workers[w].run
    ensures
      var r := tr[i].workers[w].run;
      && tr[i + 1].runs[r].row.token.None?
      && (tr[i + 1].runs[r].row.status == Retryable
          || (acts[i].By? && acts[i].w == w && acts[i].act.Report?
              && tr[i].workers[w].pc == Reporting(tr[i + 1].runs[r].row.status)))
  {
    hide Next, Inv, WorkerOk;
    var r := tr[i].workers[w].run;
    Reachable(tr, acts, i);
    Reachable(tr, acts, i + 1);
    TokenBound(tr[i], w);
    TokenBound(tr[i + 1], w);
    RunningKeepsToken(tr[i], acts[i], tr[i + 1], r);
    StatusMovesOnly(tr, acts, i, r);
    if acts[i].By? && acts[i].act.Report? && acts[i].w != w {
      OwnersAreOne(tr[i], acts[i].w, w);
    }
  }

  lemma OwnersAreOne(s: State, v: WorkerId, w: WorkerId)
    requires Inv(s) && Wired(s, v) && Wired(s, w) && s.workers[v].run == s.workers[w].run
    ensures Holds(s, v) && Holds(s, w) ==> v == w
  {
    assert Holds(s, v) && Holds(s, w) ==> s.workers[v].token == s.workers[w].token;
  }

  /** A row that stays running keeps its token. */
  lemma RunningKeepsToken(s: State, a: Action, s': State, r: RunId)
    requires Inv(s) && Next(s, a, s') && r in s.runs
    ensures r in s'.runs
    ensures s.runs[r].row.status == Running == s'.runs[r].row.status ==> s'.runs[r].row.token == s.runs[r].row.token
  {
    hide LocalStep, WorkerOk, RunOk;
    if a.By? {
      var y :| LocalStep(a.w, a.act, ViewOf(s, a.w), y) && s' == Stepped(s, a.w, y);
      if s.workers[a.w].run == r && s.runs[r].row.status == Running == s'.runs[r].row.status {
        TokenStep(a.w, a.act, ViewOf(s, a.w), y);
      }
    }
  }

  lemma TokenStep(w: WorkerId, a: Act, x: View, y: View)
    requires LocalStep(w, a, x, y) && x.run.row.status == Running == y.run.row.status
    ensures y.run.row.token == x.run.row.token
  {
    hide EntryStep, GraphStep, EndStep;
    if EntryStep(w, a, x, y) {
      TokenOnEntry(w, a, x, y);
    } else if GraphStep(w, a, x, y) {
      MovesInGraph(w, a, x, y);
    } else {
      TokenAtEnd(w, a, x, y);
    }
  }

  lemma TokenOnEntry(w: WorkerId, a: Act, x: View, y: View)
    requires EntryStep(w, a, x, y) && x.run.row.status == Running == y.run.row.status
    ensures y.run.row.token == x.run.row.token
  {
  }

  lemma TokenAtEnd(w: WorkerId, a: Act, x: View, y: View)
    requires EndStep(w, a, x, y) && x.run.row.status == Running == y.run.row.status
    ensures y.run.row.token == x.run.row.token
  {
    hide InBody, InExecute, Prepared, Held;
  }

  // ------------------------------------------------------------ stale recovery

  /** The action recovers rows of run `r` stuck in `stuck` with this cut-off. */
  predicate Recovers(s: State, a: Action, r: RunId, stuck: Status, cutoff: Option<int>) {
    || (stuck == Pending && a.RecoverPending? && a.r == r && a.staleBefore == cutoff)
    || (stuck == Running && a.By? && a.act.Sweep? && a.act.staleBefore == cutoff
        && a.w in s.workers && s.workers[a.w].run == r)
  }

  /** The last heartbeat is before the cut-off, or there is no cut-off. */
  predicate TooOld(row: Row, cutoff: Option<int>) {
    cutoff.Some? ==> row.updatedAt < cutoff.value
  }

  lemma SweptRow(w: WorkerId, a: Act, x: View, y: View)
    requires LocalStep(w, a, x, y) && a.Sweep?
    ensures
      var row, row' := x.run.row, y.run.row;
      if row.status == Running && TooOld(row, a.staleBefore)
      then row'.status == Retryable && row'.token.None? else row' == row
  {
  }

  /** Recovery goes by age: a row stuck in the recovered status becomes `retryable` without a token exactly
      when its last heartbeat is before the cut-off (or there is no cut-off); every other row of the run is
      left as it is. */
  lemma RecoveryGoesByAge(tr: seq<State>, acts: seq<Action>, i: nat, r: RunId, stuck: Status, cutoff: Option<int>)
    requires Behaviour(tr, acts) && i < |acts| && r in tr[i].runs && Recovers(tr[i], acts[i], r, stuck, cutoff)
    ensures r in tr[i + 1].runs
    ensures
      var row, row' := tr[i].runs[r].row, tr[i + 1].runs[r].row;
      && (row.status == stuck && TooOld(row, cutoff) ==> row'.status == Retryable && row'.token.None?)
      && (row.status != stuck || !TooOld(row, cutoff) ==> row' == row)
  {
    hide LocalStep;
    var s, a, s' := tr[i], acts[i], tr[i + 1];
    assert Next(s, a, s');
    if a.By? {
      var y :| LocalStep(a.w, a.act, ViewOf(s, a.w), y) && s' == Stepped(s, a.w, y);
      SweptRow(a.w, a.act, ViewOf(s, a.w), y);
    }
  }

  /** The clock reading of a step. */
  function Clock(a: Act): Option<int> {
    match a
    case Claim(now) => Some(now)
    case LookUpFails(now) => Some(now)
    case Refuse(now) => Some(now)
    case FirstBeat(now) => Some(now)
    case FirstBeatFails(now) => Some(now)
    case FreshBeat(now) => Some(now)
    case GuardReset(now) => Some(now)
    case Begin(now) => Some(now)
    case ReturnExisting(_, now) => Some(now)
    case Guard(now) => Some(now)
    case Append(_, now) => Some(now)
    case LastBeat(now) => Some(now)
    case Report(now) => Some(now)
    case Fail(now) => Some(now)
    case Beat(now) => Some(now)
    case HeartbeatRepair(now) => Some(now)
    case Repair(now) => Some(now)
    case RepairTimesOut(_, now) => Some(now)
    case Sweep(_, now) => Some(now)
    case _ => None
  }

  /** No clock reading lies before `c`. */
  predicate NotBefore(a: Action, c: int) {
    match a
    case By(_, act) => Clock(act).Some? ==> Clock(act).value >= c
    case Create(_, now) => now >= c
    case RecoverPending(_, _, now) => now >= c
    case Spawn(_, _, _) => true
  }

  /** The steps that refresh the heartbeat column of a worker that goes on. */
  predicate Refreshes(a: Act) {
    || a.FirstBeat? || a.FreshBeat? || a.GuardReset? || a.Begin? || a.ReturnExisting? || a.Guard? || a.Append?
    || a.LastBeat? || a.Beat?
  }

  lemma EntryClock(w: WorkerId, a: Act, x: View, y: View)
    requires EntryStep(w, a, x, y)
    ensures y.run.row == x.run.row || Clock(a) == Some(y.run.row.updatedAt)
    ensures Refreshes(a) && !y.wk.pc.Releasing? ==> Clock(a) == Some(y.run.row.updatedAt)
  {
  }

  lemma GraphClock(w: WorkerId, a: Act, x: View, y: View)
    requires GraphStep(w, a, x, y)
    ensures y.run.row == x.run.row || Clock(a) == Some(y.run.row.updatedAt)
    ensures Refreshes(a) && !y.wk.pc.Releasing? && !y.wk.pc.Failing? ==> Clock(a) == Some(y.run.row.updatedAt)
  {
    hide Prepared, Held, IsNextSeq;
  }

  lemma EndClock(w: WorkerId, a: Act, x: View, y: View)
    requires EndStep(w, a, x, y)
    ensures y.run.row == x.run.row || Clock(a) == Some(y.run.row.updatedAt)
    ensures Refreshes(a) && !y.wk.pc.Releasing? ==> Clock(a) == Some(y.run.row.updatedAt)
  {
    hide InBody, InExecute, Prepared, Held;
  }

  lemma ClockStep(w: WorkerId, a: Act, x: View, y: View)
    requires LocalStep(w, a, x, y)
    ensures y.run.row == x.run.row || Clock(a) == Some(y.run.row.updatedAt)
    ensures Refreshes(a) && !y.wk.pc.Releasing? && !y.wk.pc.Failing? ==> Clock(a) == Some(y.run.row.updatedAt)
  {
    hide EntryStep, GraphStep, EndStep, Clock, Refreshes;
    if EntryStep(w, a, x, y) {
      EntryClock(w, a, x, y);
    } else if GraphStep(w, a, x, y) {
      GraphClock(w, a, x, y);
    } else {
      EndClock(w, a, x, y);
    }
  }

  lemma RowClock(s: State, a: Action, s': State, r: RunId, c: int)
    requires Next(s, a, s') && r in s.runs && s.runs[r].row.updatedAt >= c && NotBefore(a, c)
    ensures r in s'.runs && s'.runs[r].row.updatedAt >= c
  {
    hide LocalStep, Clock;
    if a.By? {
      var y :| LocalStep(a.w, a.act, ViewOf(s, a.w), y) && s' == Stepped(s, a.w, y);
      ClockStep(a.w, a.act, ViewOf(s, a.w), y);
    }
  }

  lemma {:induction false} StaysYoung(tr: seq<State>, acts: seq<Action>, i: nat, j: nat, r: RunId, c: int)
    requires Behaviour(tr, acts) && i <= j < |tr| && r in tr[i].runs && tr[i].runs[r].row.updatedAt >= c
    requires forall q :: i <= q < j ==> NotBefore(acts[q], c)
    ensures r in tr[j].runs && tr[j].runs[r].row.updatedAt >= c
    decreases j
  {
    hide Next, NotBefore;
    if i < j {
      StaysYoung(tr, acts, i, j - 1, r, c);
      assert Next(tr[j - 1], acts[j - 1], tr[j]);
      RowClock(tr[j - 1], acts[j - 1], tr[j], r, c);
    }
  }

  lemma Refreshed(s: State, w: WorkerId, act: Act, s': State)
    requires Inv(s) && Next(s, By(w, act), s') && Refreshes(act) && w in s'.workers
    requires !s'.workers[w].pc.Releasing? && !s'.workers[w].pc.Failing?
    ensures w in s.workers
    ensures s.workers[w].run in s'.runs && Clock(act) == Some(s'.runs[s.workers[w].run].row.updatedAt)
  {
    hide LocalStep, Inv, Clock, Refreshes;
    var y :| LocalStep(w, act, ViewOf(s, w), y) && s' == Stepped(s, w, y);
    ClockStep(w, act, ViewOf(s, w), y);
  }

  /** A heartbeat protects: after worker `w` has refreshed its heartbeat at a time not before `c` and gone on,
      and while no clock reads earlier than `c`, recovery with cut-off `c` leaves the row as it is. */
  lemma HeartbeatProtects(tr: seq<State>, acts: seq<Action>, i: nat, j: nat, w: WorkerId, act: Act, c: int, stuck: Status)
    requires Behaviour(tr, acts) && i < j < |acts| && acts[i] == By(w, act) && Refreshes(act)
    requires w in tr[i].workers && w in tr[i + 1].workers
    requires !tr[i + 1].workers[w].pc.Releasing? && !tr[i + 1].workers[w].pc.Failing?
    requires forall q :: i <= q < j ==> NotBefore(acts[q], c)
    requires Recovers(tr[j], acts[j], tr[i].workers[w].run, stuck, Some(c))
    ensures
      var r := tr[i].workers[w].run;
      r in tr[j].runs && r in tr[j + 1].runs && tr[j + 1].runs[r].row == tr[j].runs[r].row
  {
    hide Next, Inv, Refreshes, Recovers, Clock;
    var r := tr[i].workers[w].run;
    assert Next(tr[i], acts[i], tr[i + 1]);
    Reachable(tr, acts, i);
    Refreshed(tr[i], w, act, tr[i + 1]);
    assert NotBefore(acts[i], c);
    StaysYoung(tr, acts, i + 1, j, r, c);
    RecoveryGoesByAge(tr, acts, j, r, stuck, Some(c));
  }

  // ------------------------------------------------------------ appended rows

  /** An append writes, for each new event, one row with the event's own fields and its own time, or the
      time of the append where the event's could not be read. */
  lemma AppendedRows(row: Row, log: Log, token: Token, events: seq<Event>, start: nat, base: nat, now: int, k: nat)
    requires start <= k < |events| && AppendTx(row, log, token, events, start, base, now).Appended?
    ensures
      var log' := AppendTx(row, log, token, events, start, base, now).log;
      && base + k in log' && log'[base + k].body == events[k].body
      && log'[base + k].stamp == (if events[k].stamp.Some? then events[k].stamp.value else now)
  {
    InsertedAt(log, events, start, base, now, base + k);
  }

  // ------------------------------------------------------------ resetting a checkpoint

  /** Worker `w` looked its checkpoint up and found nothing to resume. */
  predicate FoundNothingPending(s: State, a: Action, w: WorkerId) {
    && a.By? && a.w == w && a.act.LookUp? && Wired(s, w)
    && s.workers[w].entry == Retry
    && (s.runs[s.workers[w].run].ckpt.None? || !s.runs[s.workers[w].run].ckpt.value.next)
  }

  /** Only a lookup that finds nothing pending makes an attempt a fresh one. */
  lemma AnewOnEntry(w: WorkerId, a: Act, x: View, y: View)
    requires EntryStep(w, a, x, y) && (x.wk.pc.Context? ==> x.wk.entry == Retry)
    ensures y.wk.anew ==> x.wk.anew || (a.LookUp? && x.wk.entry == Retry && (x.run.ckpt.None? || !x.run.ckpt.value.next))
    ensures (y.wk.pc.Context? ==> y.wk.entry == Retry) && y.wk.entry == x.wk.entry
  {
  }

  lemma AnewInGraph(w: WorkerId, a: Act, x: View, y: View)
    requires GraphStep(w, a, x, y)
    ensures y.wk.anew == x.wk.anew && !y.wk.pc.Context? && y.wk.entry == x.wk.entry
  {
    hide Mine, FinishTx, AppendTx, IsNextSeq, Prepared, Held;
  }

  lemma AnewAtEnd(w: WorkerId, a: Act, x: View, y: View)
    requires EndStep(w, a, x, y)
    ensures y.wk.anew == x.wk.anew && (y.wk.pc.Context? ==> x.wk.pc.Context?) && y.wk.entry == x.wk.entry
  {
    hide Mine, FinishTx, AppendTx, IsNextSeq, InBody, InExecute, Prepared, Held;
  }

  lemma AnewStep(w: WorkerId, a: Act, x: View, y: View)
    requires LocalStep(w, a, x, y) && (x.wk.pc.Context? ==> x.wk.entry == Retry)
    ensures y.wk.anew ==> x.wk.anew || (a.LookUp? && x.wk.entry == Retry && (x.run.ckpt.None? || !x.run.ckpt.value.next))
    ensures (y.wk.pc.Context? ==> y.wk.entry == Retry) && y.wk.entry == x.wk.entry
  {
    hide EntryStep, GraphStep, EndStep;
    if EntryStep(w, a, x, y) {
      AnewOnEntry(w, a, x, y);
    } else if GraphStep(w, a, x, y) {
      AnewInGraph(w, a, x, y);
    } else {
      AnewAtEnd(w, a, x, y);
    }
  }

  lemma {:induction false} ContextIsRetry(tr: seq<State>, acts: seq<Action>, i: nat, w: WorkerId)
    requires Behaviour(tr, acts) && i < |tr| && w in tr[i].workers && tr[i].workers[w].pc.Context?
    ensures tr[i].workers[w].entry == Retry
    decreases i
  {
    hide LocalStep, Inv;
    if i > 0 {
      var s, a, s' := tr[i - 1], acts[i - 1], tr[i];
      assert Next(s, a, s');
      Reachable(tr, acts, i - 1);
      if a.By? && a.w == w {
        var y :| LocalStep(w, a.act, ViewOf(s, w), y) && s' == Stepped(s, w, y);
        if s.workers[w].pc.Context? {
          ContextIsRetry(tr, acts, i - 1, w);
        }
        AnewStep(w, a.act, ViewOf(s, w), y);
      } else if w in s.workers {
        BystanderStays(s, a, s', w);
        ContextIsRetry(tr, acts, i - 1, w);
      }
    }
  }

  /** Every fresh attempt goes back to a lookup of a retry that found nothing to resume. */
  lemma {:induction false} FreshAttemptsFoundNothing(tr: seq<State>, acts: seq<Action>, i: nat, w: WorkerId) returns (j: nat)
    requires Behaviour(tr, acts) && i < |tr| && w in tr[i].workers && tr[i].workers[w].anew
    ensures j < i && FoundNothingPending(tr[j], acts[j], w)
    decreases i
  {
    hide LocalStep, Inv;
    NobodyAtFirst(tr, acts);
    var s, a, s' := tr[i - 1], acts[i - 1], tr[i];
    assert Next(s, a, s');
    Reachable(tr, acts, i - 1);
    j := i - 1;
    if a.By? && a.w == w {
      var y :| LocalStep(w, a.act, ViewOf(s, w), y) && s' == Stepped(s, w, y);
      TokenBound(s, w);
      if s.workers[w].pc.Context? {
        ContextIsRetry(tr, acts, i - 1, w);
      }
      AnewStep(w, a.act, ViewOf(s, w), y);
      if s.workers[w].anew {
        j := FreshAttemptsFoundNothing(tr, acts, i - 1, w);
      }
    } else if w in s.workers {
      BystanderStays(s, a, s', w);
      j := FreshAttemptsFoundNothing(tr, acts, i - 1, w);
    }
  }
}
