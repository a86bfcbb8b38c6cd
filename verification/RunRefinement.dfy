/** Theorems over whole behaviours in which no lock session dies under a living worker.
    Crashes, cancellations, failed heartbeats and recovery are all included. */
module RunRefinement {
  import opened Prelude
  import opened RunLedger
  import opened RunProtocol
  import opened RunSafety
  import opened RunHistory

  lemma {:induction false} LiveReachable(tr: seq<State>, acts: seq<Action>, i: nat)
    requires Behaviour(tr, acts) && LiveSessions(acts) && i < |tr|
    ensures Inv(tr[i]) && LiveInv(tr[i]) && SegInv(tr[i])
  {
    if i == 0 {
    } else {
      hide Next, Init, Inv, LiveInv, SegInv;
      LiveReachable(tr, acts, i - 1);
      NextKeepsInv(tr[i - 1], acts[i - 1], tr[i]);
      NextKeepsLive(tr[i - 1], acts[i - 1], tr[i]);
      NextKeepsSegments(tr[i - 1], acts[i - 1], tr[i]);
    }
  }

  /** Event-log refinement: in every reachable state a run's rows `0 .. n-1` are a concatenation of
      segments, each starting at the base of an attempt and equal, up to timestamps, to a prefix of
      the events of a graph driven for that attempt. */
  lemma LogIsAttemptSegments(tr: seq<State>, acts: seq<Action>, i: nat, r: RunId)
    requires Behaviour(tr, acts) && LiveSessions(acts) && i < |tr| && r in tr[i].runs
    ensures Dense(tr[i].runs[r].log) && Segmented(tr[i], r, |tr[i].runs[r].log|)
  {
    LiveReachable(tr, acts, i);
    assert RunOk(tr[i].runs[r], tr[i].minted);
  }

  /** Mutual exclusion: two workers between lock acquire and release never share a lock key, in
      particular never a run; the key function need not be injective. */
  lemma OneHolderPerKey(tr: seq<State>, acts: seq<Action>, i: nat, v: WorkerId, w: WorkerId)
    requires Behaviour(tr, acts) && LiveSessions(acts) && i < |tr|
    requires v in tr[i].workers && w in tr[i].workers
    requires Held(tr[i].workers[v].pc) && Held(tr[i].workers[w].pc)
    requires tr[i].keyOf(tr[i].workers[v].run) == tr[i].keyOf(tr[i].workers[w].run)
    ensures v == w
  {
    LiveReachable(tr, acts, i);
    TokenBound(tr[i], v);
    TokenBound(tr[i], w);
    assert LiveOk(v, ViewOf(tr[i], v)) && LiveOk(w, ViewOf(tr[i], w));
  }

  /** Stale recovery demotes a running row only while no other worker holds that run's lock. */
  lemma RecoverySparesHolders(tr: seq<State>, acts: seq<Action>, i: nat, v: WorkerId, w: WorkerId)
    requires Behaviour(tr, acts) && LiveSessions(acts) && i < |acts|
    requires acts[i].By? && acts[i].act.Sweep? && acts[i].w == v && v in tr[i].workers
    requires w in tr[i].workers && w != v && tr[i].workers[w].run == tr[i].workers[v].run
    ensures !Held(tr[i].workers[w].pc)
  {
    assert Next(tr[i], acts[i], tr[i + 1]);
    if Held(tr[i].workers[w].pc) {
      OneHolderPerKey(tr, acts, i, v, w);
    }
  }

  // ------------------------------------------------------------ guarded checkpoint writes

  /** A checkpoint guard has passed and its write has not happened yet. */
  predicate WritePending(wk: Worker) {
    wk.pc.ResetReady? || (wk.pc.Streaming? && wk.guarded)
  }

  predicate IsGuard(a: Action, w: WorkerId) {
    a.By? && a.w == w && (a.act.Guard? || a.act.GuardReset?)
  }

  ghost predicate PendingUnderLock(s: State, w: WorkerId) {
    Wired(s, w) && WritePending(s.workers[w]) && ViewOf(s, w).lock == Some(w)
  }

  lemma PendingInGraph(w: WorkerId, a: Act, x: View, y: View)
    requires GraphStep(w, a, x, y) && WritePending(y.wk)
    requires BeforeStream(x.wk.pc) ==> !x.wk.guarded
    ensures WritePending(x.wk) || ((a.Guard? || a.GuardReset?) && Mine(x))
  {
    hide IsNextSeq, AppendTx;
  }

  lemma PendingOnEntry(w: WorkerId, a: Act, x: View, y: View)
    requires EntryStep(w, a, x, y)
    ensures !WritePending(y.wk)
  {
    hide Mine, FinishTx, RecoverTx;
  }

  lemma PendingAtEnd(w: WorkerId, a: Act, x: View, y: View)
    requires EndStep(w, a, x, y) && WritePending(y.wk)
    ensures WritePending(x.wk)
  {
    hide Mine, FinishTx;
  }

  lemma PendingStep(w: WorkerId, a: Act, x: View, y: View)
    requires LocalStep(w, a, x, y) && WritePending(y.wk)
    requires BeforeStream(x.wk.pc) ==> !x.wk.guarded
    ensures WritePending(x.wk) || ((a.Guard? || a.GuardReset?) && Mine(x))
  {
    hide EntryStep, GraphStep, EndStep, WritePending, Mine;
    if EntryStep(w, a, x, y) {
      PendingOnEntry(w, a, x, y);
    } else if GraphStep(w, a, x, y) {
      PendingInGraph(w, a, x, y);
    } else {
      PendingAtEnd(w, a, x, y);
    }
  }

  lemma PendingHolds(s: State, w: WorkerId)
    requires Inv(s) && LiveInv(s) && w in s.workers && WritePending(s.workers[w])
    ensures PendingUnderLock(s, w)
  {
    TokenBound(s, w);
    assert LiveOk(w, ViewOf(s, w));
  }

  lemma PendingBack(s: State, a: Action, s': State, w: WorkerId)
    requires Inv(s) && LiveInv(s) && Next(s, a, s') && w in s'.workers && WritePending(s'.workers[w])
    ensures w in s.workers && s.workers[w].run == s'.workers[w].run && Wired(s, w)
    ensures WritePending(s.workers[w]) || (IsGuard(a, w) && Mine(ViewOf(s, w)))
  {
    if w in s.workers {
      TokenBound(s, w);
    }
    if a.By? {
      var y :| LocalStep(a.w, a.act, ViewOf(s, a.w), y) && s' == Stepped(s, a.w, y);
      if a.w == w {
        assert LiveOk(w, ViewOf(s, w));
        StepGuarantees(w, a.act, ViewOf(s, w), y);
        PendingStep(w, a.act, ViewOf(s, w), y);
      }
    }
  }

  lemma NobodyAtFirst(tr: seq<State>, acts: seq<Action>)
    requires Behaviour(tr, acts)
    ensures tr[0].workers == map[]
  {
  }

  /** Every pending write goes back to a guard that saw the worker's own token, with the lock held
      ever since. */
  lemma {:induction false} GuardBefore(tr: seq<State>, acts: seq<Action>, i: nat, w: WorkerId) returns (j: nat)
    requires Behaviour(tr, acts) && LiveSessions(acts) && i < |tr|
    requires w in tr[i].workers && WritePending(tr[i].workers[w])
    ensures j < i && IsGuard(acts[j], w) && Wired(tr[j], w) && Mine(ViewOf(tr[j], w))
    ensures forall k :: j < k <= i ==> PendingUnderLock(tr[k], w) && tr[k].workers[w].run == tr[j].workers[w].run
    decreases i
  {
    hide Next, Inv, LiveInv, SegInv, LiveOk, PendingUnderLock;
    LiveReachable(tr, acts, i);
    PendingHolds(tr[i], w);
    NobodyAtFirst(tr, acts);
    LiveReachable(tr, acts, i - 1);
    PendingBack(tr[i - 1], acts[i - 1], tr[i], w);
    if WritePending(tr[i - 1].workers[w]) {
      j := GuardBefore(tr, acts, i - 1, w);
    } else {
      j := i - 1;
    }
  }

  lemma CheckpointActor(s: State, a: Action, s': State, r: RunId)
    requires Next(s, a, s') && r in s.runs && r in s'.runs && s'.runs[r].ckpt != s.runs[r].ckpt
    ensures a.By? && a.w in s.workers && s.workers[a.w].run == r && WritePending(s.workers[a.w])
  {
    if a.By? {
      var y :| LocalStep(a.w, a.act, ViewOf(s, a.w), y) && s' == Stepped(s, a.w, y);
      CheckpointStep(a.w, a.act, ViewOf(s, a.w), y);
    }
  }

  lemma LoudCheckpoint(w: WorkerId, a: Act, x: View, y: View)
    requires GraphStep(w, a, x, y) && Loud(a)
    ensures y.run.ckpt == x.run.ckpt || WritePending(x.wk)
    ensures y.wk.run == x.wk.run
  {
    hide Mine, AppendTx;
  }

  lemma ClaimCheckpoint(w: WorkerId, a: Act, x: View, y: View)
    requires EntryStep(w, a, x, y) && a.Claim?
    ensures y.run.ckpt == x.run.ckpt && y.wk.run == x.wk.run
  {
  }

  lemma CheckpointStep(w: WorkerId, a: Act, x: View, y: View)
    requires LocalStep(w, a, x, y)
    ensures y.run.ckpt == x.run.ckpt || WritePending(x.wk)
    ensures y.wk.run == x.wk.run
  {
    hide LocalStep, EntryStep, GraphStep, EndStep, WritePending;
    WhereLoud(w, a, x, y);
    if a.Claim? {
      ClaimCheckpoint(w, a, x, y);
    } else if Loud(a) {
      LoudCheckpoint(w, a, x, y);
    } else {
      QuietStep(w, a, x, y);
    }
  }

  /** A checkpoint of run `r` is written or deleted only by a worker of that run that holds its lock,
      after a guard (action `j`) at which it owned the row, and that held the lock from then on. */
  lemma CheckpointWritesAreGuarded(tr: seq<State>, acts: seq<Action>, i: nat, r: RunId) returns (j: nat)
    requires Behaviour(tr, acts) && LiveSessions(acts) && i < |acts|
    requires r in tr[i].runs && r in tr[i + 1].runs && tr[i + 1].runs[r].ckpt != tr[i].runs[r].ckpt
    ensures acts[i].By? && j < i && IsGuard(acts[j], acts[i].w)
    ensures Wired(tr[j], acts[i].w) && tr[j].workers[acts[i].w].run == r && Mine(ViewOf(tr[j], acts[i].w))
    ensures forall k :: j < k <= i ==> PendingUnderLock(tr[k], acts[i].w) && tr[k].workers[acts[i].w].run == r
  {
    hide Next, Init, Inv, LiveInv, SegInv, LiveOk, PendingUnderLock;
    LiveReachable(tr, acts, i);
    CheckpointActor(tr[i], acts[i], tr[i + 1], r);
    j := GuardBefore(tr, acts, i, acts[i].w);
  }

  // ------------------------------------------------------------ finished runs

  lemma ReportStep(w: WorkerId, now: int, x: View, y: View)
    requires LocalStep(w, Report(now), x, y) && Mine(x) && PcOk(x) && CursorExact(x) && WorkerOk(x)
    ensures x.wk.pc.Reporting? && GraphOutcome(x.wk.pc.outcome) && y.run.row.status == x.wk.pc.outcome
    ensures y.run.log == x.run.log && y.wk.base == x.wk.base && y.wk.run == x.wk.run
    ensures |x.run.log| == x.wk.base + |x.wk.mem| && Copied(x.run.log, x.wk.base, x.wk.mem, |x.wk.mem|)
  {
  }

  lemma ReportAction(s: State, w: WorkerId, now: int, s': State)
    requires Inv(s) && LiveInv(s) && Wired(s, w) && Mine(ViewOf(s, w))
    requires Next(s, By(w, Report(now)), s') && SegInv(s')
    ensures var r := s.workers[w].run; var wk := s.workers[w];
      && wk.pc.Reporting? && GraphOutcome(wk.pc.outcome)
      && r in s'.runs && s'.runs[r].row.status == wk.pc.outcome
      && |s'.runs[r].log| == wk.base + |wk.mem|
      && Copied(s'.runs[r].log, wk.base, wk.mem, |wk.mem|)
      && Segmented(s', r, wk.base)
  {
    var y :| LocalStep(w, Report(now), ViewOf(s, w), y) && s' == Stepped(s, w, y);
    hide LocalStep, Segmented, Copied;
    TokenBound(s, w);
    assert LiveOk(w, ViewOf(s, w));
    ReportStep(w, now, ViewOf(s, w), y);
    SteppedView(s, w, y);
    assert w in s'.workers && s'.workers[w].base == s.workers[w].base;
  }

  /** When an owner writes the graph's result, no event is missing: the log is the earlier attempts'
      segments followed by every event of the graph it drove. */
  lemma ReportedLogIsComplete(tr: seq<State>, acts: seq<Action>, i: nat, w: WorkerId, now: int)
    requires Behaviour(tr, acts) && LiveSessions(acts) && i < |acts| && acts[i] == By(w, Report(now))
    requires Wired(tr[i], w) && Mine(ViewOf(tr[i], w))
    ensures var r := tr[i].workers[w].run; var wk := tr[i].workers[w];
      && wk.pc.Reporting? && GraphOutcome(wk.pc.outcome)
      && r in tr[i + 1].runs && tr[i + 1].runs[r].row.status == wk.pc.outcome
      && |tr[i + 1].runs[r].log| == wk.base + |wk.mem|
      && Copied(tr[i + 1].runs[r].log, wk.base, wk.mem, |wk.mem|)
      && Segmented(tr[i + 1], r, wk.base)
  {
    hide Next, Init, Inv, LiveInv, SegInv, LiveOk, Segmented, Copied;
    LiveReachable(tr, acts, i);
    LiveReachable(tr, acts, i + 1);
    ReportAction(tr[i], w, now, tr[i + 1]);
  }
}
