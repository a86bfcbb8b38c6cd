/** How workers end: which exits release the claim, which can leave it behind, and what a cancelled
    worker still does. */
module RunExits {
  import opened Prelude
  import opened RunLedger
  import opened EventCursor
  import opened RunProtocol
  import opened RunSafety
  import opened RunFencing

  /** Worker `w` owns its run's row. */
  predicate Holds(s: State, w: WorkerId) {
    Wired(s, w) && Mine(ViewOf(s, w))
  }

  lemma SettledOwnsNothing(x: View)
    requires WorkerOk(x) && Settled(x.wk.pc)
    ensures !Mine(x)
  {
  }

  /** Every worker that ended by a cause not listed in `Strands`, a repaired cancellation at any point
      included, left its row not running under its token. */
  lemma EndedWorkersOwnNothing(tr: seq<State>, acts: seq<Action>, i: nat, w: WorkerId)
    requires Behaviour(tr, acts) && i < |tr| && w in tr[i].workers && tr[i].workers[w].pc.Exited?
    requires !Strands(tr[i].workers[w].pc.cause)
    ensures Wired(tr[i], w) && !Holds(tr[i], w)
  {
    hide Next, Init, Inv, WorkerOk, RunOk;
    Reachable(tr, acts, i);
    TokenBound(tr[i], w);
    SettledOwnsNothing(ViewOf(tr[i], w));
  }

  // ------------------------------------------------------------ behaviours of one worker

  const OneKey: RunId -> int := _ => 0

  const Empty: State := State(OneKey, map[], map[], map[], 0)

  const Created: State := Empty.(runs := map[0 := Run(NewRow(0), map[], None)])

  const Born: View := View(NewWorker(0, Start), Run(NewRow(0), map[], None), None, 0)

  function StateOf(x: View): State {
    State(OneKey, map[0 := x.run], if x.lock.Some? then map[0 := x.lock.value] else map[], map[0 := x.wk], x.minted)
  }

  ghost predicate Ends(tr: seq<State>, acts: seq<Action>, s: State) {
    Behaviour(tr, acts) && tr[|acts|] == s
  }

  /** Some behaviour with live lock sessions leads to this state. */
  ghost predicate Arrives(s: State) {
    exists tr: seq<State>, acts: seq<Action> :: Ends(tr, acts, s) && LiveSessions(acts)
  }

  lemma OneMoreAction(tr: seq<State>, acts: seq<Action>, s: State, a: Action, s': State)
    requires Ends(tr, acts, s) && Next(s, a, s')
    ensures Ends(tr + [s'], acts + [a], s')
    ensures LiveSessions(acts) && Live(a) ==> LiveSessions(acts + [a])
  {
    hide Next, Init;
    var more, all := tr + [s'], acts + [a];
    forall i | 0 <= i < |all| ensures Next(more[i], all[i], more[i + 1]) {
      assert i < |acts| ==> Next(tr[i], acts[i], tr[i + 1]);
    }
  }

  lemma Continues(s: State, a: Action, s': State)
    requires Arrives(s) && Next(s, a, s') && Live(a)
    ensures Arrives(s')
  {
    hide Next, Ends, LiveSessions;
    var tr: seq<State>, acts: seq<Action> :| Ends(tr, acts, s) && LiveSessions(acts);
    OneMoreAction(tr, acts, s, a, s');
  }

  lemma FirstActions()
    ensures Init(Empty) && Next(Empty, Create(0, 0), Created) && Next(Created, Spawn(0, 0, Start), StateOf(Born))
  {
  }

  lemma Starts()
    ensures Arrives(StateOf(Born))
  {
    hide Next, Init;
    FirstActions();
    assert Ends([Empty], [], Empty) && LiveSessions([]);
    Continues(Empty, Create(0, 0), Created);
    Continues(Created, Spawn(0, 0, Start), StateOf(Born));
  }

  lemma StateStep(act: Act, x: View, y: View)
    requires LocalStep(0, act, x, y) && x.wk.run == 0 && y.wk.run == 0
    ensures Next(StateOf(x), By(0, act), StateOf(y))
  {
    hide LocalStep;
    assert ViewOf(StateOf(x), 0) == x;
    assert Stepped(StateOf(x), 0, y) == StateOf(y);
  }

  /** Worker 0 takes one more step. */
  lemma Steps(act: Act, x: View, y: View)
    requires Arrives(StateOf(x)) && LocalStep(0, act, x, y) && !act.LoseSession? && x.wk.run == 0 && y.wk.run == 0
    ensures Arrives(StateOf(y))
  {
    hide Next, LocalStep, Arrives;
    StateStep(act, x, y);
    Continues(StateOf(x), By(0, act), StateOf(y));
  }

  /** The worker ended by this cause and still owns its row. */
  ghost predicate Stranded(s: State, w: WorkerId, cause: Cause) {
    Holds(s, w) && s.workers[w].pc == Exited(cause)
  }

  /** With live lock sessions throughout, a worker can end by this cause and still own its row. */
  ghost predicate CanStrand(cause: Cause) {
    exists s: State, w :: Arrives(s) && Stranded(s, w, cause)
  }

  lemma ViewStrands(x: View, cause: Cause)
    requires Arrives(StateOf(x)) && Mine(x) && x.wk.pc == Exited(cause) && x.wk.run == 0
    ensures CanStrand(cause)
  {
    hide Arrives;
    assert ViewOf(StateOf(x), 0) == x;
    assert Stranded(StateOf(x), 0, cause);
  }

  // ------------------------------------------------------------ one behaviour per cause

  /** A worker that claimed the run under token 0. */
  const Claimant: View :=
    View(NewWorker(0, Start).(token := Some(0), pc := ReadyToLock), Run(Row(Running, Some(0), 0), map[], None), None, 1)

  const Holder: View := At(Claimant.(lock := Some(0)), Locked)

  lemma Claims()
    ensures Arrives(StateOf(Claimant)) && Mine(Claimant)
  {
    hide Arrives;
    Starts();
    Steps(Claim(0), Born, Claimant);
  }

  lemma Locks()
    ensures Arrives(StateOf(Holder)) && Mine(Holder)
  {
    hide Arrives;
    Claims();
    Steps(TryLock, Claimant, Holder);
  }

  /** From the first heartbeat to an aligned cursor; the heartbeat may fail on the way. */
  lemma Aligns(beat: Beat)
    requires beat != Repaired
    ensures Arrives(StateOf(At(Stopped(Holder, beat), Aligned))) && Mine(At(Stopped(Holder, beat), Aligned))
  {
    hide Arrives;
    Locks();
    Steps(FirstBeat(0), Holder, At(Holder, Active));
    var x := Stopped(Holder, beat);
    if beat == Unrepaired {
      Steps(HeartbeatUnrepair, At(Holder, Active), At(x, Active));
    }
    Prepares(x);
  }

  lemma Prepares(x: View)
    requires x == Stopped(Holder, Beating) || x == Stopped(Holder, Unrepaired)
    requires Arrives(StateOf(At(x, Active)))
    ensures Arrives(StateOf(At(x, Aligned)))
  {
    hide Arrives, LocalStep;
    PrepareSteps(x);
    Steps(AssertOwner, At(x, Active), At(x, Asserted));
    Steps(Load, At(x, Asserted), At(x, ReadyToAlign));
    Steps(Align(0), At(x, ReadyToAlign), At(x, Aligned));
  }

  lemma PrepareSteps(x: View)
    requires x == Stopped(Holder, Beating) || x == Stopped(Holder, Unrepaired)
    ensures LocalStep(0, AssertOwner, At(x, Active), At(x, Asserted))
    ensures LocalStep(0, Load, At(x, Asserted), At(x, ReadyToAlign))
    ensures LocalStep(0, Align(0), At(x, ReadyToAlign), At(x, Aligned))
  {
    hide EntryStep, EndStep;
    assert Proceeds(map[], [], 0, false, 0);
  }

  /** A call raises right after the claim, before the lock is asked for. */
  lemma RaisedStrands()
    ensures CanStrand(Raised)
  {
    hide Arrives;
    Claims();
    Steps(DbError, Claimant, At(Claimant, Exited(Raised)));
    ViewStrands(At(Claimant, Exited(Raised)), Raised);
  }

  lemma CrashedStrands()
    ensures CanStrand(Crashed)
  {
    hide Arrives;
    Claims();
    Steps(Crash, Claimant, At(Claimant, Exited(Crashed)));
    ViewStrands(At(Claimant, Exited(Crashed)), Crashed);
  }

  lemma CancelsWhileWaiting()
    ensures Arrives(StateOf(At(Claimant, Cancelling)))
  {
    hide Arrives;
    Claims();
    Steps(Cancel, Claimant, At(Claimant, Cancelling));
  }

  lemma TimedOutStrands()
    ensures CanStrand(CancelTimedOut)
  {
    hide Arrives;
    CancelsWhileWaiting();
    Steps(RepairTimesOut(false, 0), At(Claimant, Cancelling), At(Claimant, Exited(CancelTimedOut)));
    ViewStrands(At(Claimant, Exited(CancelTimedOut)), CancelTimedOut);
  }

  lemma CancelUnrepairedStrands()
    ensures CanStrand(CancelUnrepaired)
  {
    hide Arrives;
    CancelsWhileWaiting();
    Steps(RepairRaises, At(Claimant, Cancelling), At(Claimant, Exited(CancelUnrepaired)));
    ViewStrands(At(Claimant, Exited(CancelUnrepaired)), CancelUnrepaired);
  }

  /** The heartbeat's call raises, its repair raises too, and the next ownership check makes the worker
      leave with an ordinary `retryable` result. */
  lemma HeartbeatUnrepairedStrands()
    ensures CanStrand(HeartbeatUnrepaired)
  {
    hide Arrives;
    Aligns(Unrepaired);
    var x := Stopped(Holder, Unrepaired);
    var left, ended := At(x, Releasing(HeartbeatUnrepaired)), At(x.(lock := None), Exited(HeartbeatUnrepaired));
    Steps(Begin(0), At(x, Aligned), left);
    Steps(Release(false), left, ended);
    ViewStrands(ended, HeartbeatUnrepaired);
  }

  lemma Streams()
    ensures Arrives(StateOf(At(Stopped(Holder, Beating), Streaming)))
  {
    hide Arrives;
    Aligns(Beating);
    var x := Stopped(Holder, Beating);
    Steps(Begin(0), At(x, Aligned), At(x, Opening));
    Steps(Open, At(x, Opening), At(x, Streaming));
  }

  /** The stream ends and the final state has no status. */
  lemma NoStatusStrands()
    ensures CanStrand(NoStatus)
  {
    hide Arrives;
    Streams();
    var x := Stopped(Holder, Beating);
    var left, ended := At(x, Releasing(NoStatus)), At(x.(lock := None), Exited(NoStatus));
    Steps(FinishEmpty, At(x, Streaming), left);
    Steps(Release(false), left, ended);
    ViewStrands(ended, NoStatus);
  }

  lemma StrandedByCause(cause: Cause)
    requires CanStrand(cause)
    ensures Strands(cause)
  {
    hide Next, Init;
    var s: State, w :| Arrives(s) && Stranded(s, w, cause);
    var tr: seq<State>, acts: seq<Action> :| Ends(tr, acts, s) && LiveSessions(acts);
    if !Strands(cause) {
      EndedWorkersOwnNothing(tr, acts, |acts|, w);
    }
  }

  /** A worker can end by a cause and still own its row exactly when the cause is one of `Strands`. */
  lemma StrandingCausesAreExact(cause: Cause)
    ensures CanStrand(cause) <==> Strands(cause)
  {
    hide CanStrand;
    if CanStrand(cause) {
      StrandedByCause(cause);
    }
    match cause
    case Raised => RaisedStrands();
    case HeartbeatUnrepaired => HeartbeatUnrepairedStrands();
    case NoStatus => NoStatusStrands();
    case CancelTimedOut => TimedOutStrands();
    case CancelUnrepaired => CancelUnrepairedStrands();
    case Crashed => CrashedStrands();
    case _ =>
  }

  // ------------------------------------------------------------ cancelled workers

  /** After a cancellation was delivered. */
  predicate Leaving(pc: Pc) {
    pc == Releasing(Cancelled) || pc.Cancelling? || pc.Exited?
  }

  /** Nothing but this worker's own claim was touched, and that was given back. */
  ghost predicate OnlyGivesBack(s: State, s': State, w: WorkerId) {
    forall r :: r in s.runs ==>
      && r in s'.runs && s'.runs[r].log == s.runs[r].log && s'.runs[r].ckpt == s.runs[r].ckpt
      && (s'.runs[r].row != s.runs[r].row ==>
            Holds(s, w) && s.workers[w].run == r && GivenBack(s'.runs[r].row))
  }

  predicate GivenBack(row: Row) { row.status == Retryable && row.token.None? }

  /** A leaving worker only takes end steps. */
  lemma LeavingIsEnding(w: WorkerId, a: Act, x: View, y: View)
    requires LocalStep(w, a, x, y) && (Leaving(x.wk.pc) || a.Cancel?)
    ensures EndStep(w, a, x, y)
  {
    hide EndStep, Claimed, Locking, Checked, Settle, Read, Opened, Appending, Proceeds, IsNextSeq, Complete;
  }

  lemma EndingGivesBack(w: WorkerId, a: Act, x: View, y: View)
    requires EndStep(w, a, x, y) && (Leaving(x.wk.pc) || a.Cancel?)
    ensures Leaving(y.wk.pc)
    ensures y.run.row != x.run.row ==> Mine(x) && GivenBack(y.run.row)
  {
  }

  lemma LeavingStep(w: WorkerId, a: Act, x: View, y: View)
    requires LocalStep(w, a, x, y) && (Leaving(x.wk.pc) || a.Cancel?)
    ensures Leaving(y.wk.pc) && y.wk.run == x.wk.run && y.wk.token == x.wk.token
    ensures y.run.log == x.run.log && y.run.ckpt == x.run.ckpt
    ensures y.run.row != x.run.row ==> Mine(x) && GivenBack(y.run.row)
  {
    hide LocalStep, Leaving, Mine;
    LeavingIsEnding(w, a, x, y);
    EndingGivesBack(w, a, x, y);
    EndsQuietly(w, a, x, y);
    QuietStep(w, a, x, y);
  }

  lemma EndsQuietly(w: WorkerId, a: Act, x: View, y: View)
    requires EndStep(w, a, x, y)
    ensures !Loud(a)
  {
  }

  lemma ActorIsLeaving(s: State, a: Action, s': State, w: WorkerId)
    requires Next(s, a, s') && a.By? && a.w == w
    requires w in s.workers && (Leaving(s.workers[w].pc) || a.act.Cancel?)
    ensures w in s'.workers && Leaving(s'.workers[w].pc) && OnlyGivesBack(s, s', w)
    ensures s'.workers[w].run == s.workers[w].run && s'.workers[w].token == s.workers[w].token
  {
    hide LocalStep;
    var y :| LocalStep(w, a.act, ViewOf(s, w), y) && s' == Stepped(s, w, y);
    LeavingStep(w, a.act, ViewOf(s, w), y);
  }

  lemma BystanderStays(s: State, a: Action, s': State, w: WorkerId)
    requires Inv(s) && Next(s, a, s') && w in s.workers && !(a.By? && a.w == w)
    ensures w in s'.workers && s'.workers[w] == s.workers[w]
  {
    hide LocalStep, Inv;
    TokenBound(s, w);
  }

  lemma {:induction false} StaysLeaving(tr: seq<State>, acts: seq<Action>, i: nat, j: nat, w: WorkerId)
    requires Behaviour(tr, acts) && i < j < |tr| && acts[i] == By(w, Cancel)
    ensures w in tr[i].workers && w in tr[j].workers && Leaving(tr[j].workers[w].pc)
    ensures tr[j].workers[w].run == tr[i].workers[w].run && tr[j].workers[w].token == tr[i].workers[w].token
    decreases j
  {
    hide Next, Init, Inv, Leaving, OnlyGivesBack;
    if j == i + 1 {
      ActorKnown(tr[i], acts[i], tr[j], w);
      ActorIsLeaving(tr[i], acts[i], tr[j], w);
    } else {
      StaysLeaving(tr, acts, i, j - 1, w);
      Reachable(tr, acts, j - 1);
      if acts[j - 1].By? && acts[j - 1].w == w {
        ActorIsLeaving(tr[j - 1], acts[j - 1], tr[j], w);
      } else {
        BystanderStays(tr[j - 1], acts[j - 1], tr[j], w);
      }
    }
  }

  lemma ActorKnown(s: State, a: Action, s': State, w: WorkerId)
    requires Next(s, a, s') && a.By? && a.w == w
    ensures Wired(s, w)
  {
  }

  /** From the moment a cancellation is delivered a worker changes no log, no checkpoint and no row but
      its own running one, and that only to `retryable`: a status already reached is never overwritten. */
  lemma CancelledOnlyGivesBack(tr: seq<State>, acts: seq<Action>, i: nat, j: nat, w: WorkerId)
    requires Behaviour(tr, acts) && i <= j < |acts| && acts[i] == By(w, Cancel)
    requires acts[j].By? && acts[j].w == w
    ensures OnlyGivesBack(tr[j], tr[j + 1], w)
  {
    hide Next, Init, Leaving, OnlyGivesBack;
    ActorKnown(tr[j], acts[j], tr[j + 1], w);
    if i < j {
      StaysLeaving(tr, acts, i, j, w);
    }
    ActorIsLeaving(tr[j], acts[j], tr[j + 1], w);
  }

  /** Another worker's step leaves an owned row owned or makes it `retryable`. */
  lemma OthersRelease(v: WorkerId, a: Act, x: View, y: View, t: Token)
    requires LocalStep(v, a, x, y) && Owns(x.run.row, t) && x.wk.token != Some(t)
    ensures Owns(y.run.row, t) || GivenBack(y.run.row)
  {
    hide EntryStep, GraphStep, EndStep, Owns, GivenBack;
    if EntryStep(v, a, x, y) {
      ReleaseOnEntry(v, a, x, y, t);
    } else if GraphStep(v, a, x, y) {
      ReleaseInGraph(v, a, x, y, t);
    } else {
      ReleaseAtEnd(v, a, x, y, t);
    }
  }

  lemma ReleaseOnEntry(v: WorkerId, a: Act, x: View, y: View, t: Token)
    requires EntryStep(v, a, x, y) && Owns(x.run.row, t) && x.wk.token != Some(t)
    ensures Owns(y.run.row, t) || GivenBack(y.run.row)
  {
  }

  lemma ReleaseInGraph(v: WorkerId, a: Act, x: View, y: View, t: Token)
    requires GraphStep(v, a, x, y) && Owns(x.run.row, t) && x.wk.token != Some(t)
    ensures Owns(y.run.row, t)
  {
    hide Prepared, Held, Proceeds, IsNextSeq;
  }

  lemma ReleaseAtEnd(v: WorkerId, a: Act, x: View, y: View, t: Token)
    requires EndStep(v, a, x, y) && Owns(x.run.row, t) && x.wk.token != Some(t)
    ensures Owns(y.run.row, t)
  {
    hide InBody, InExecute, Prepared, Held;
  }

  /** Whoever takes a leaving worker's row away from it makes it `retryable`. */
  lemma OwnershipEnds(s: State, a: Action, s': State, w: WorkerId)
    requires Inv(s) && Next(s, a, s') && Holds(s, w) && Wired(s', w) && !Holds(s', w)
    requires a.By? && a.w == w ==> Leaving(s.workers[w].pc) || a.act.Cancel?
    ensures GivenBack(s'.runs[s.workers[w].run].row)
  {
    var r := s.workers[w].run;
    if a.By? && a.w == w {
      hide LocalStep, Inv;
      ActorIsLeaving(s, a, s', w);
    } else {
      BystanderStays(s, a, s', w);
      BystanderRow(s, a, s', r, w);
    }
  }

  lemma BystanderRow(s: State, a: Action, s': State, r: RunId, w: WorkerId)
    requires Inv(s) && Next(s, a, s') && Holds(s, w) && s.workers[w].run == r && !(a.By? && a.w == w)
    ensures r in s'.runs && (Owns(s'.runs[r].row, s.workers[w].token.value) || GivenBack(s'.runs[r].row))
  {
    hide LocalStep, RunOk, WorkerOk;
    if a.By? {
      var y :| LocalStep(a.w, a.act, ViewOf(s, a.w), y) && s' == Stepped(s, a.w, y);
      if s.workers[a.w].run == r {
        assert s.workers[a.w].token != s.workers[w].token;
        OthersRelease(a.w, a.act, ViewOf(s, a.w), y, s.workers[w].token.value);
      }
    }
  }

  /** A cancelled worker that owned its row loses it at one moment, and the row is `retryable` right then. */
  lemma {:induction false} LastHeld(tr: seq<State>, acts: seq<Action>, i: nat, k: nat, w: WorkerId) returns (m: nat)
    requires Behaviour(tr, acts) && i < k < |tr| && acts[i] == By(w, Cancel) && Holds(tr[i], w) && !Holds(tr[k], w)
    ensures i <= m < k && (forall q :: i <= q <= m ==> Holds(tr[q], w)) && (forall q :: m < q <= k ==> !Holds(tr[q], w))
    ensures tr[i].workers[w].run in tr[m + 1].runs && GivenBack(tr[m + 1].runs[tr[i].workers[w].run].row)
    decreases k
  {
    hide Next, Init, Inv, Leaving, OnlyGivesBack, Holds;
    Reachable(tr, acts, k - 1);
    Reachable(tr, acts, k);
    StaysLeaving(tr, acts, i, k, w);
    TokenBound(tr[k], w);
    if Holds(tr[k - 1], w) {
      m := k - 1;
      if i < k - 1 {
        StaysLeaving(tr, acts, i, k - 1, w);
      }
      OwnershipEnds(tr[k - 1], acts[k - 1], tr[k], w);
      HeldBefore(tr, acts, i, m, w);
    } else {
      m := LastHeld(tr, acts, i, k - 1, w);
    }
  }

  /** A row once lost is never owned again, so it was owned all along. */
  lemma HeldBefore(tr: seq<State>, acts: seq<Action>, i: nat, m: nat, w: WorkerId)
    requires Behaviour(tr, acts) && i <= m < |tr| && Holds(tr[i], w) && Holds(tr[m], w)
    ensures forall q :: i <= q <= m ==> Holds(tr[q], w)
  {
    hide Next, Init, Inv;
    forall q | i <= q <= m ensures Holds(tr[q], w) {
      KeepsClaim(tr, acts, i, q, w);
      if !Holds(tr[q], w) {
        SupersededForever(tr, acts, q, m, w);
      }
    }
  }

  lemma {:induction false} KeepsClaim(tr: seq<State>, acts: seq<Action>, i: nat, q: nat, w: WorkerId)
    requires Behaviour(tr, acts) && i <= q < |tr| && Holds(tr[i], w)
    ensures Wired(tr[q], w) && tr[q].workers[w].token.Some?
    decreases q
  {
    hide Next, Init, Inv;
    if i < q {
      KeepsClaim(tr, acts, i, q - 1, w);
      Reachable(tr, acts, q - 1);
      Reachable(tr, acts, q);
      TokenStays(tr[q - 1], acts[q - 1], tr[q], w);
      TokenBound(tr[q], w);
    }
  }

  lemma TokenStays(s: State, a: Action, s': State, w: WorkerId)
    requires Inv(s) && Next(s, a, s') && Wired(s, w) && s.workers[w].token.Some?
    ensures w in s'.workers && s'.workers[w].token.Some?
  {
    hide LocalStep, Inv, WorkerOk, RunOk;
    TokenBound(s, w);
    if a.By? {
      var y :| LocalStep(a.w, a.act, ViewOf(s, a.w), y) && s' == Stepped(s, a.w, y);
      TokenBound(s, a.w);
      StepGuarantees(a.w, a.act, ViewOf(s, a.w), y);
    }
  }

  /** No stranded claim: a cancelled worker whose repair ran leaves its run `retryable`. There is one moment
      `m` up to which it owned the row; right after it the row is `retryable`, given back by the worker or
      by recovery, and the worker never owns it again. */
  lemma CancelledRunBecomesRetryable(tr: seq<State>, acts: seq<Action>, i: nat, k: nat, w: WorkerId) returns (m: nat)
    requires Behaviour(tr, acts) && i < k < |tr| && acts[i] == By(w, Cancel) && Holds(tr[i], w)
    requires w in tr[k].workers && tr[k].workers[w].pc == Exited(Cancelled)
    ensures i <= m < k && (forall q :: i <= q <= m ==> Holds(tr[q], w)) && (forall q :: m < q <= k ==> !Holds(tr[q], w))
    ensures tr[i].workers[w].run in tr[m + 1].runs && GivenBack(tr[m + 1].runs[tr[i].workers[w].run].row)
  {
    EndedWorkersOwnNothing(tr, acts, k, w);
    m := LastHeld(tr, acts, i, k, w);
  }

  // ------------------------------------------------------------ lost lock sessions

  /** Two workers between acquire and release of one lock key. */
  ghost predicate TwoHolders(s: State) {
    exists v, w :: v in s.workers && w in s.workers && v != w && Held(s.workers[v].pc) && Held(s.workers[w].pc)
      && s.keyOf(s.workers[v].run) == s.keyOf(s.workers[w].run)
  }

  const Zombie: View := Holder.(lock := None)
  const Rescuer: Worker := NewWorker(0, Recovery)

  const Haunted: State := StateOf(Zombie).(workers := map[0 := Zombie.wk, 1 := Rescuer])

  const Rescued: State := Haunted.(workers := map[0 := Zombie.wk, 1 := Rescuer.(pc := Sweeping)], locks := map[0 := 1])

  lemma ZombieAppears()
    ensures Next(StateOf(Holder), By(0, LoseSession), StateOf(Zombie))
    ensures Next(StateOf(Zombie), Spawn(1, 0, Recovery), Haunted)
  {
    hide EntryStep, GraphStep;
    StateStep(LoseSession, Holder, Zombie);
  }

  lemma RescuerLocks()
    ensures Next(Haunted, By(1, RecoveryLock), Rescued)
  {
    hide GraphStep, EndStep;
    var x := ViewOf(Haunted, 1);
    var y := x.(wk := Rescuer.(pc := Sweeping), lock := Some(1));
    assert LocalStep(1, RecoveryLock, x, y);
    assert Stepped(Haunted, 1, y) == Rescued;
  }

  /** Mutual exclusion does need live lock sessions: once a session is lost, recovery can take the lock
      while the worker that lost it still works. */
  lemma LostSessionBreaksExclusion()
    ensures exists tr: seq<State>, acts: seq<Action>, s :: Ends(tr, acts, s) && TwoHolders(s)
  {
    hide Next, Ends;
    Locks();
    ZombieAppears();
    RescuerLocks();
    var tr: seq<State>, acts: seq<Action> :| Ends(tr, acts, StateOf(Holder)) && LiveSessions(acts);
    OneMoreAction(tr, acts, StateOf(Holder), By(0, LoseSession), StateOf(Zombie));
    var tr1, acts1 := tr + [StateOf(Zombie)], acts + [By(0, LoseSession)];
    OneMoreAction(tr1, acts1, StateOf(Zombie), Spawn(1, 0, Recovery), Haunted);
    OneMoreAction(tr1 + [Haunted], acts1 + [Spawn(1, 0, Recovery)], Haunted, By(1, RecoveryLock), Rescued);
    assert Held(Rescued.workers[0].pc) && Held(Rescued.workers[1].pc);
    assert TwoHolders(Rescued);
  }
}
