/** Many workers contending for query runs, as a state machine.

    One action is one committed transaction, one advisory-lock call, one checkpoint
    read or write, or one step of the graph; everything between two awaits that
    touches shared state is its own action. A worker is one service call
    (`execute_run`, `confirm`, `retry`) or one recovery candidate. */
module RunProtocol {
  import opened Prelude
  import opened RunLedger
  import opened EventCursor

  type WorkerId = nat

  /** The graph's durable state for a run's thread: attempt base, events so far, and
      whether a next node is pending. */
  datatype Checkpoint = Checkpoint(base: nat, events: seq<Event>, next: bool)

  datatype Run = Run(row: Row, log: Log, ckpt: Option<Checkpoint>)

  datatype Entry = Start | Confirm | Retry | Recovery

  /** Why a worker ended. */
  datatype Cause =
    | NotEligible    // the conditional claim, or the recovery lock, found nothing to do
    | Superseded     // an ownership check failed
    | Reported       // the graph's result was written
    | Handled        // a failure was turned into `retryable`
    | Cancelled
    | ReleaseFailed  // the unlock did not find the lock
    | Raised              // a database call outside the handlers raised
    | HeartbeatUnrepaired // a heartbeat raised, and so did the status update that should have released the claim
    | NoStatus            // the graph's result carried no status, so none was written
    | CancelTimedOut      // the status update of a cancellation was itself cancelled after five seconds
    | CancelUnrepaired    // the status update of a cancellation raised
    | Crashed

  datatype Pc =
    | Idle
    | Context                 // retry: token held, checkpoint not yet looked up
    | ReadyToLock
    | Refused                 // lock busy, status update pending
    | Locked                  // before the first heartbeat
    | Active                  // heartbeat running, before `execute` checks the token
    | Asserted                // before the checkpoint is read
    | Loaded                  // fresh retry: checkpoint read, to be reset
    | FreshActive
    | Based                   // fresh retry: new attempt base read
    | ResetReady              // guard passed, delete pending
    | ReadyToAlign
    | Aligned
    | Opening                 // about to start the stream
    | Streaming
    | Done(outcome: Status)   // result known, last heartbeat pending
    | Reporting(outcome: Status)
    | Failing                 // exception caught, status update pending
    | Sweeping                // recovery candidate, lock held
    | Releasing(cause: Cause)
    | Cancelling              // lock released, cancellation repair pending
    | Exited(cause: Cause)

  /** The heartbeat: still going, failed with the claim released, failed with the release failed too. */
  datatype Beat = Beating | Repaired | Unrepaired

  datatype Worker = Worker(
    run: RunId,
    entry: Entry,
    token: Option<Token>,
    pc: Pc,
    anew: bool,           // `force_fresh`
    seen: Option<Checkpoint>,
    base: nat,
    persisted: nat,
    mem: seq<Event>,      // events of the graph this worker drives
    memBase: nat,         // attempt base in that graph's own state
    guarded: bool,        // a checkpoint guard has passed, the write is pending
    beat: Beat)

  datatype State = State(
    keyOf: RunId -> int,
    runs: map<RunId, Run>,
    locks: map<int, WorkerId>,
    workers: map<WorkerId, Worker>,
    minted: Token)

  /** What one worker reads and writes: itself, its run, the lock under its run's key, the token generator. */
  datatype View = View(wk: Worker, run: Run, lock: Option<WorkerId>, minted: Token)

  // ------------------------------------------------------------ program points

  /** Between lock acquire and release. */
  predicate Held(pc: Pc) {
    pc.Locked? || InBody(pc) || pc.Failing? || pc.Sweeping? || pc.Releasing?
  }

  /** The heartbeat task is running. */
  predicate Beats(pc: Pc) {
    InBody(pc) || pc.Failing?
  }

  /** From the first heartbeat to the last status update. */
  predicate InBody(pc: Pc) {
    pc.Active? || InExecute(pc) || pc.Done? || pc.Reporting?
  }

  /** The exits after which the row may still be running under the worker's token. */
  predicate Strands(cause: Cause) {
    || cause.Raised? || cause.HeartbeatUnrepaired? || cause.NoStatus?
    || cause.CancelTimedOut? || cause.CancelUnrepaired? || cause.Crashed?
  }

  /** Not yet driving a graph. */
  predicate BeforeStream(pc: Pc) {
    pc.Idle? || pc.Context? || pc.ReadyToLock? || pc.Refused? || pc.Locked? || pc.Active?
    || (InExecute(pc) && !pc.Streaming?) || pc.Sweeping?
  }

  /** Inside `execute`. */
  predicate InExecute(pc: Pc) {
    pc.Asserted? || pc.Loaded? || pc.FreshActive? || pc.Based? || pc.ResetReady? || Prepared(pc) || pc.Streaming?
  }

  /** The checkpoint this worker will continue from is settled. */
  predicate Prepared(pc: Pc) {
    pc.ReadyToAlign? || pc.Aligned? || pc.Opening?
  }

  predicate Streamed(pc: Pc) {
    pc.Streaming? || pc.Done? || pc.Reporting?
  }

  /** The row cursor is in use. */
  predicate HasCursor(pc: Pc) {
    pc.Aligned? || pc.Opening? || Streamed(pc)
  }

  function Eligible(entry: Entry): Status {
    match entry
    case Start => Pending
    case Confirm => AwaitingConfirmation
    case Retry => Retryable
    case Recovery => Running
  }

  /** Result statuses of a finished or interrupted graph. */
  predicate GraphOutcome(status: Status) {
    status == Completed || status == Failed || status == AwaitingConfirmation
  }

  predicate Mine(x: View) {
    x.wk.token.Some? && Owns(x.run.row, x.wk.token.value)
  }

  function Local(wk: Worker): seq<Event> {
    if wk.seen.Some? then wk.seen.value.events else []
  }

  /** A finished checkpoint is only returned, never re-run. */
  predicate Complete(wk: Worker) {
    !wk.anew && wk.seen.Some? && !wk.seen.value.next
  }

  // ------------------------------------------------------------ view updates

  function At(x: View, pc: Pc): View { x.(wk := x.wk.(pc := pc)) }

  function WithRow(x: View, row: Row): View { x.(run := x.run.(row := row)) }

  /** The token-fenced status update; without a token it does nothing. */
  function Settle(x: View, status: Status, now: int): View {
    if x.wk.token.Some? then WithRow(x, FinishTx(x.run.row, x.wk.token.value, status, now).0) else x
  }

  /** A worker stops at its next ownership check once its heartbeat has failed, whatever the row says. */
  predicate Alive(x: View) {
    Mine(x) && x.wk.beat.Beating?
  }

  /** Why a worker that is not alive leaves. */
  function Loss(x: View): Cause {
    if Mine(x) then HeartbeatUnrepaired else Superseded
  }

  /** An ownership check that also refreshes the heartbeat: go on, or leave. */
  function Checked(x: View, pc: Pc, now: int): View {
    if Alive(x) then At(WithRow(x, BeatTx(x.run.row, x.wk.token.value, now).0), pc) else At(x, Releasing(Loss(x)))
  }

  function Stopped(x: View, beat: Beat): View { x.(wk := x.wk.(beat := beat)) }

  // ------------------------------------------------------------ one worker's steps

  datatype Act =
    | Claim(now: int)
    | LookUp
    | LookUpFails(now: int)
    | TryLock
    | Refuse(now: int)
    | FirstBeat(now: int)
    | FirstBeatFails(now: int)
    | FirstBeatUnrepaired
    | AssertOwner
    | Load
    | FreshBeat(now: int)
    | FreshBase(n: nat)
    | GuardReset(now: int)
    | Reset
    | Align(m: nat)
    | Begin(now: int)
    | ReturnExisting(outcome: Status, now: int)
    | Open
    | Produce(more: seq<Event>)
    | Guard(now: int)
    | Write(n: nat, next: bool)
    | Append(n: nat, now: int)
    | Finish(outcome: Status)
    | FinishEmpty
    | LastBeat(now: int)
    | Report(now: int)
    | Raise
    | Fail(now: int)
    | Beat(now: int)
    | HeartbeatRepair(now: int)
    | HeartbeatUnrepair
    | Cancel
    | Release(cancelled: bool)
    | Repair(now: int)
    | RepairTimesOut(applied: bool, now: int)
    | RepairRaises
    | DbError
    | Crash
    | LoseSession
    | RecoveryLock
    | Sweep(staleBefore: Option<int>, now: int)

  /** The claim transaction; a claimed retry first looks at its checkpoint. */
  function Claimed(x: View, now: int): View {
    var (row, token) := ClaimTx(x.run.row, Eligible(x.wk.entry), x.minted, now);
    if token.None? then At(x, Exited(NotEligible))
    else
      View(x.wk.(token := token, pc := if x.wk.entry == Retry then Context else ReadyToLock),
           x.run.(row := row), x.lock, x.minted + 1)
  }

  function Locking(w: WorkerId, x: View, got: Pc, busy: Pc): View {
    if x.lock.None? then At(x.(lock := Some(w)), got) else At(x, busy)
  }

  /** Reading the checkpoint: a fresh retry goes on to reset it, everyone else continues from it. */
  function Read(x: View): View {
    var wk := x.wk.(seen := x.run.ckpt);
    if wk.anew then x.(wk := wk.(pc := Loaded))
    else x.(wk := wk.(pc := ReadyToAlign, base := if wk.seen.Some? then wk.seen.value.base else 0))
  }

  /** The stream loads the checkpoint again; an input carries the attempt base, a resume command does not. */
  function Opened(x: View): View {
    var hasInput := x.wk.anew || x.wk.entry == Start;
    x.(wk := x.wk.(
      pc := Streaming,
      mem := if x.run.ckpt.Some? then x.run.ckpt.value.events else [],
      memBase := if hasInput || x.run.ckpt.None? then x.wk.base else x.run.ckpt.value.base))
  }

  function Appending(x: View, n: nat, now: int): View
    requires x.wk.token.Some? && x.wk.persisted <= n <= |x.wk.mem|
  {
    if !Alive(x) then At(x, Releasing(Loss(x)))
    else match AppendTx(x.run.row, x.run.log, x.wk.token.value, x.wk.mem[..n], x.wk.persisted, x.wk.base, now)
    case Lost => At(x, Releasing(Superseded))
    case Conflict => At(x, Failing)
    case Appended(row, log) => View(x.wk.(persisted := n), x.run.(row := row, log := log), x.lock, x.minted)
  }

  /** The unlock in the `finally` block. A cancellation survives it, even when the unlock itself
      fails: it is delivered again when the session closes. */
  function Released(w: WorkerId, x: View, cancelled: bool): View
    requires x.wk.pc.Releasing?
  {
    var cause := x.wk.pc.cause;
    var cancelling := cause == Cancelled || (cancelled && x.wk.token.Some?);
    if x.lock == Some(w)
    then At(x.(lock := None), if cancelling then Cancelling else Exited(cause))
    else At(x, if cancelling then Cancelling else Exited(if Strands(cause) then cause else ReleaseFailed))
  }

  function Dropped(w: WorkerId, x: View): View {
    if x.lock == Some(w) then x.(lock := None) else x
  }

  /** Claiming, locking, the first heartbeat, and recovery. */
  ghost predicate EntryStep(w: WorkerId, a: Act, x: View, y: View) {
    var pc := x.wk.pc;
    match a
    case Claim(now) => pc == Idle && x.wk.entry != Recovery && y == Claimed(x, now)
    case LookUp =>
      && pc == Context
      && y == At(x.(wk := x.wk.(anew := !(x.run.ckpt.Some? && x.run.ckpt.value.next))), ReadyToLock)
    case LookUpFails(now) => pc == Context && y == At(Settle(x, Retryable, now), Exited(Handled))
    case TryLock => pc == ReadyToLock && y == Locking(w, x, Locked, Refused)
    case Refuse(now) => pc == Refused && y == At(Settle(x, Retryable, now), Exited(Handled))
    case FirstBeat(now) => pc == Locked && y == Checked(x, Active, now)
    case FirstBeatFails(now) => pc == Locked && y == At(Settle(x, Retryable, now), Releasing(Handled))
    case FirstBeatUnrepaired => pc == Locked && y == At(x, Releasing(Loss(x)))
    case RecoveryLock => pc == Idle && x.wk.entry == Recovery && y == Locking(w, x, Sweeping, Exited(NotEligible))
    case Sweep(staleBefore, now) =>
      pc == Sweeping && y == At(WithRow(x, RecoverTx(x.run.row, Running, staleBefore, now)), Releasing(Handled))
    case _ => false
  }

  /** Inside `execute`. */
  ghost predicate GraphStep(w: WorkerId, a: Act, x: View, y: View) {
    var pc := x.wk.pc;
    match a
    case AssertOwner => pc == Active && y == At(x, if Mine(x) then Asserted else Releasing(Superseded))
    case Load => pc == Asserted && y == Read(x)
    case FreshBeat(now) => pc == Loaded && y == Checked(x, FreshActive, now)
    case FreshBase(n) => pc == FreshActive && IsNextSeq(x.run.log, n) && y == At(x.(wk := x.wk.(base := n)), Based)
    case GuardReset(now) => pc == Based && y == Checked(x, ResetReady, now)
    case Reset => pc == ResetReady && y == At(x.(wk := x.wk.(seen := None), run := x.run.(ckpt := None)), ReadyToAlign)
    case Align(m) =>
      && pc == ReadyToAlign
      && Proceeds(x.run.log, Local(x.wk), x.wk.base, Complete(x.wk), m)
      && y == At(x.(wk := x.wk.(persisted := m)), Aligned)
    case Begin(now) => pc == Aligned && !Complete(x.wk) && y == Checked(x, Opening, now)
    case ReturnExisting(outcome, now) =>
      && pc == Aligned && Complete(x.wk) && GraphOutcome(outcome)
      && y == Checked(x.(wk := x.wk.(mem := Local(x.wk), memBase := x.wk.base)), Done(outcome), now)
    case Open => pc == Opening && y == Opened(x)
    case Produce(more) => pc == Streaming && y == x.(wk := x.wk.(mem := x.wk.mem + more))
    case Guard(now) => pc == Streaming && y == Checked(x.(wk := x.wk.(guarded := Alive(x))), Streaming, now)
    case Write(n, next) =>
      && pc == Streaming && x.wk.guarded && n <= |x.wk.mem|
      && y == x.(wk := x.wk.(guarded := false),
                 run := x.run.(ckpt := Some(Checkpoint(x.wk.memBase, x.wk.mem[..n], next))))
    case Append(n, now) =>
      pc == Streaming && x.wk.token.Some? && x.wk.persisted < n <= |x.wk.mem| && y == Appending(x, n, now)
    case _ => false
  }

  /** Results, failures, the background heartbeat, cancellation and the ways out. */
  ghost predicate EndStep(w: WorkerId, a: Act, x: View, y: View) {
    var pc := x.wk.pc;
    match a
    case Finish(outcome) =>
      pc == Streaming && x.wk.persisted == |x.wk.mem| && GraphOutcome(outcome) && y == At(x, Done(outcome))
    case FinishEmpty => pc == Streaming && x.wk.persisted == |x.wk.mem| && y == At(x, Releasing(NoStatus))
    case LastBeat(now) => pc.Done? && y == Checked(x, Reporting(pc.outcome), now)
    case Report(now) => pc.Reporting? && y == At(Settle(x, pc.outcome, now), Releasing(Reported))
    case Raise => (pc.Active? || InExecute(pc)) && y == At(x, Failing)
    case Fail(now) => pc == Failing && y == At(Settle(x, Retryable, now), Releasing(Handled))
    case Beat(now) => Beats(pc) && Alive(x) && y == WithRow(x, BeatTx(x.run.row, x.wk.token.value, now).0)
    case HeartbeatRepair(now) => Beats(pc) && x.wk.beat.Beating? && y == Stopped(Settle(x, Retryable, now), Repaired)
    case HeartbeatUnrepair => Beats(pc) && x.wk.beat.Beating? && y == Stopped(x, Unrepaired)
    case Cancel =>
      || ((pc.Context? || pc.ReadyToLock? || pc.Refused?) && y == At(x, Cancelling))
      || ((pc.Locked? || InBody(pc) || pc.Failing?) && y == At(x, Releasing(Cancelled)))
    case Release(cancelled) => pc.Releasing? && y == Released(w, x, cancelled)
    case Repair(now) => pc == Cancelling && y == At(Settle(x, Retryable, now), Exited(Cancelled))
    case RepairTimesOut(applied, now) =>
      pc == Cancelling && y == At(if applied then Settle(x, Retryable, now) else x, Exited(CancelTimedOut))
    case RepairRaises => pc == Cancelling && y == At(x, Exited(CancelUnrepaired))
    case DbError =>
      || ((pc.Idle? || pc.Context? || pc.ReadyToLock? || pc.Refused?) && y == At(x, Exited(Raised)))
      || ((pc.Active? || pc.Done? || pc.Reporting? || pc.Failing? || pc.Sweeping?) && y == At(x, Releasing(Raised)))
    case Crash => !pc.Exited? && y == At(Dropped(w, x), Exited(Crashed))
    case LoseSession => Held(pc) && x.lock == Some(w) && y == Dropped(w, x)
    case _ => false
  }

  /** The steps of worker `w`. */
  ghost predicate LocalStep(w: WorkerId, a: Act, x: View, y: View) {
    EntryStep(w, a, x, y) || GraphStep(w, a, x, y) || EndStep(w, a, x, y)
  }

  // ------------------------------------------------------------ the system

  datatype Action =
    | Create(r: RunId, now: int)
    | Spawn(w: WorkerId, r: RunId, entry: Entry)
    | RecoverPending(r: RunId, staleBefore: Option<int>, now: int)
    | By(w: WorkerId, act: Act)

  predicate Wired(s: State, w: WorkerId) {
    w in s.workers && s.workers[w].run in s.runs
  }

  function ViewOf(s: State, w: WorkerId): View
    requires Wired(s, w)
  {
    var r := s.workers[w].run;
    var key := s.keyOf(r);
    View(s.workers[w], s.runs[r], if key in s.locks then Some(s.locks[key]) else None, s.minted)
  }

  /** The state after worker `w` turned its view into `y`. */
  function Stepped(s: State, w: WorkerId, y: View): State
    requires Wired(s, w)
  {
    var r := s.workers[w].run;
    var key := s.keyOf(r);
    State(s.keyOf,
          s.runs[r := y.run],
          if y.lock.Some? then s.locks[key := y.lock.value] else s.locks - {key},
          s.workers[w := y.wk],
          y.minted)
  }

  function NewWorker(r: RunId, entry: Entry): Worker {
    Worker(r, entry, None, Idle, false, None, 0, 0, [], 0, false, Beating)
  }

  ghost predicate Init(s: State) {
    s.runs == map[] && s.locks == map[] && s.workers == map[]
  }

  ghost predicate Next(s: State, a: Action, s': State) {
    match a
    case Create(r, now) =>
      r !in s.runs && s' == s.(runs := s.runs[r := Run(NewRow(now), map[], None)])
    case Spawn(w, r, entry) =>
      w !in s.workers && r in s.runs && s' == s.(workers := s.workers[w := NewWorker(r, entry)])
    case RecoverPending(r, staleBefore, now) =>
      && r in s.runs
      && s' == s.(runs := s.runs[r := s.runs[r].(row := RecoverTx(s.runs[r].row, Pending, staleBefore, now))])
    case By(w, act) =>
      && Wired(s, w)
      && exists y :: LocalStep(w, act, ViewOf(s, w), y) && s' == Stepped(s, w, y)
  }

  /** A finite run of the system from an empty database. */
  ghost predicate Behaviour(tr: seq<State>, acts: seq<Action>) {
    && |tr| == |acts| + 1
    && Init(tr[0])
    && forall i :: 0 <= i < |acts| ==> Next(tr[i], acts[i], tr[i + 1])
  }

  /** No lock session is lost while its worker lives on. */
  ghost predicate LiveSessions(acts: seq<Action>) {
    forall i :: 0 <= i < |acts| ==> Live(acts[i])
  }

  predicate Live(a: Action) {
    a.By? ==> !a.act.LoseSession?
  }
}
