/** What holds while lock sessions stay alive: one worker at a time per run, checkpoints
    written only by it, and an event log made of whole attempt prefixes. */
module RunHistory {
  import opened Prelude
  import opened RunLedger
  import opened EventCursor
  import opened RunProtocol
  import opened RunSafety

  /** The first `n` events are stored at `base ..`, up to timestamps. */
  ghost predicate Copied(log: Log, base: nat, events: seq<Event>, n: nat) {
    n <= |events| && forall k: nat :: base <= k < base + n ==> k in log && log[k].body == events[k - base].body
  }

  ghost predicate Exclusive(w: WorkerId, x: View) {
    Held(x.wk.pc) ==> x.lock == Some(w)
  }

  /** The checkpoint it settled on is still there. */
  ghost predicate CheckpointSettled(x: View) {
    Prepared(x.wk.pc) ==>
      && x.run.ckpt == x.wk.seen
      && (x.wk.anew ==> x.wk.seen.None?)
      && (x.wk.seen.Some? ==> x.wk.base == x.wk.seen.value.base)
  }

  /** The row cursor counts stored copies of the graph's own events. */
  ghost predicate CursorExact(x: View) {
    && (BeforeStream(x.wk.pc) ==> x.wk.mem == [] && !x.wk.guarded)
    && (Streamed(x.wk.pc) ==> x.wk.memBase == x.wk.base)
    && (Mine(x) && (x.wk.pc.Aligned? || x.wk.pc.Opening?) ==> Copied(x.run.log, x.wk.base, Local(x.wk), x.wk.persisted))
    && (x.wk.pc.Aligned? && Complete(x.wk) ==> x.wk.persisted == |Local(x.wk)|)
    && (Mine(x) && Streamed(x.wk.pc) ==> Copied(x.run.log, x.wk.base, x.wk.mem, x.wk.persisted))
    && (Mine(x) && (x.wk.pc.Done? || x.wk.pc.Reporting?) ==> x.wk.persisted == |x.wk.mem|)
  }

  ghost predicate LiveOk(w: WorkerId, x: View) {
    Exclusive(w, x) && CheckpointSettled(x) && CursorExact(x)
  }

  ghost predicate LiveInv(s: State) {
    forall w :: w in s.workers && Wired(s, w) ==> LiveOk(w, ViewOf(s, w))
  }

  // ------------------------------------------------------------ the acting worker

  lemma ExclusiveOnEntry(w: WorkerId, a: Act, x: View, y: View)
    requires EntryStep(w, a, x, y) && !a.LoseSession? && Exclusive(w, x)
    ensures Exclusive(w, y)
  {
    hide Mine, FinishTx, RecoverTx;
  }

  lemma ExclusiveInGraph(w: WorkerId, a: Act, x: View, y: View)
    requires GraphStep(w, a, x, y) && !a.LoseSession? && Exclusive(w, x)
    ensures Exclusive(w, y)
  {
    hide Mine, Proceeds, IsNextSeq;
  }

  lemma ExclusiveAtEnd(w: WorkerId, a: Act, x: View, y: View)
    requires EndStep(w, a, x, y) && !a.LoseSession? && Exclusive(w, x)
    ensures Exclusive(w, y)
  {
    hide Mine, FinishTx;
  }

  lemma ExclusiveStep(w: WorkerId, a: Act, x: View, y: View)
    requires LocalStep(w, a, x, y) && !a.LoseSession? && Exclusive(w, x)
    ensures Exclusive(w, y)
  {
    hide EntryStep, GraphStep, EndStep, Exclusive;
    if EntryStep(w, a, x, y) {
      ExclusiveOnEntry(w, a, x, y);
    } else if GraphStep(w, a, x, y) {
      ExclusiveInGraph(w, a, x, y);
    } else {
      ExclusiveAtEnd(w, a, x, y);
    }
  }

  lemma SettledOnEntry(w: WorkerId, a: Act, x: View, y: View)
    requires EntryStep(w, a, x, y) && CheckpointSettled(x)
    ensures CheckpointSettled(y)
  {
    hide Mine, FinishTx, RecoverTx;
  }

  lemma SettledInGraph(w: WorkerId, a: Act, x: View, y: View)
    requires GraphStep(w, a, x, y) && CheckpointSettled(x)
    ensures CheckpointSettled(y)
  {
    hide Mine, Proceeds, IsNextSeq;
  }

  lemma SettledAtEnd(w: WorkerId, a: Act, x: View, y: View)
    requires EndStep(w, a, x, y) && CheckpointSettled(x)
    ensures CheckpointSettled(y)
  {
    hide Mine, FinishTx;
  }

  lemma SettledStep(w: WorkerId, a: Act, x: View, y: View)
    requires LocalStep(w, a, x, y) && CheckpointSettled(x)
    ensures CheckpointSettled(y)
  {
    hide EntryStep, GraphStep, EndStep, CheckpointSettled;
    if EntryStep(w, a, x, y) {
      SettledOnEntry(w, a, x, y);
    } else if GraphStep(w, a, x, y) {
      SettledInGraph(w, a, x, y);
    } else {
      SettledAtEnd(w, a, x, y);
    }
  }

  lemma AppendCopies(w: WorkerId, n: nat, now: int, x: View, y: View)
    requires GraphStep(w, Append(n, now), x, y) && CursorExact(x)
    ensures CursorExact(y)
  {
    if Mine(x) && y.wk.pc.Streaming? {
      forall k: nat | x.wk.base <= k < x.wk.base + n
        ensures k in y.run.log && y.run.log[k].body == x.wk.mem[k - x.wk.base].body
      {
        InsertedAt(x.run.log, x.wk.mem[..n], x.wk.persisted, x.wk.base, now, k);
      }
    }
  }

  lemma OrdinaryCursor(w: WorkerId, a: Act, x: View, y: View)
    requires LocalStep(w, a, x, y) && !MovesCursor(a) && PcOk(x) && CursorExact(x)
    ensures CursorExact(y)
  {
    hide LocalStep;
    OrdinaryStep(w, a, x, y);
    OrdinaryOwner(w, a, x, y);
  }

  lemma MovedCursor(w: WorkerId, a: Act, x: View, y: View)
    requires GraphStep(w, a, x, y) && MovesCursor(a) && !a.Append? && CheckpointSettled(x) && CursorExact(x)
    ensures CursorExact(y)
  {
    hide IsNextSeq;
    if a.Align? || a.ReturnExisting? {
    } else {
    }
  }

  lemma ClaimedCursor(w: WorkerId, a: Act, x: View, y: View)
    requires EntryStep(w, a, x, y) && a.Claim? && CursorExact(x)
    ensures CursorExact(y)
  {
  }

  lemma CursorStep(w: WorkerId, a: Act, x: View, y: View)
    requires LocalStep(w, a, x, y) && PcOk(x) && CheckpointSettled(x) && CursorExact(x)
    ensures CursorExact(y)
  {
    hide LocalStep, EntryStep, GraphStep, EndStep, CursorExact, CheckpointSettled;
    WhereLoud(w, a, x, y);
    if a.Append? {
      AppendCopies(w, a.n, a.now, x, y);
    } else if a.Claim? {
      ClaimedCursor(w, a, x, y);
    } else if MovesCursor(a) {
      MovedCursor(w, a, x, y);
    } else {
      OrdinaryCursor(w, a, x, y);
    }
  }

  // ------------------------------------------------------------ everyone else

  lemma OthersStayLive(v: WorkerId, x: View, x': View)
    requires Rely(v, x, x') && LiveOk(v, x)
    requires x.lock == Some(v) ==> x'.run.ckpt == x.run.ckpt
    ensures LiveOk(v, x')
  {
  }

  /** Whoever holds the lock keeps its checkpoint: only a lock holder writes checkpoints. */
  lemma HolderKeepsCheckpoint(s: State, w: WorkerId, y: View, v: WorkerId)
    requires Wired(s, w) && Wired(s, v) && v != w
    requires Guarantee(w, ViewOf(s, w), y) && Exclusive(w, ViewOf(s, w))
    requires ViewOf(s, v).lock == Some(v)
    ensures ViewOf(Stepped(s, w, y), v).run.ckpt == ViewOf(s, v).run.ckpt
  {
    if s.workers[v].run == s.workers[w].run {
      assert ViewOf(s, w).lock == ViewOf(s, v).lock;
    }
  }

  lemma WorkerStaysLive(s: State, w: WorkerId, y: View, v: WorkerId)
    requires Inv(s) && LiveInv(s) && Wired(s, w) && v in s.workers
    requires Guarantee(w, ViewOf(s, w), y) && LiveOk(w, y)
    ensures Wired(Stepped(s, w, y), v) && LiveOk(v, ViewOf(Stepped(s, w, y), v))
  {
    hide LiveOk, WorkerOk;
    TokenBound(s, v);
    if v == w {
      SteppedView(s, w, y);
    } else {
      SteppedRely(s, w, y, v);
      assert LiveOk(w, ViewOf(s, w));
      ExclusiveOf(w, ViewOf(s, w));
      if ViewOf(s, v).lock == Some(v) {
        HolderKeepsCheckpoint(s, w, y, v);
      }
      assert LiveOk(v, ViewOf(s, v));
      OthersStayLive(v, ViewOf(s, v), ViewOf(Stepped(s, w, y), v));
    }
  }

  lemma ExclusiveOf(w: WorkerId, x: View)
    requires LiveOk(w, x)
    ensures Exclusive(w, x) && CheckpointSettled(x) && CursorExact(x)
  {
  }

  lemma ActorStaysLive(s: State, w: WorkerId, a: Act, y: View)
    requires Inv(s) && LiveInv(s) && Wired(s, w) && LocalStep(w, a, ViewOf(s, w), y) && !a.LoseSession?
    ensures Guarantee(w, ViewOf(s, w), y) && LiveOk(w, y)
  {
    hide LocalStep;
    TokenBound(s, w);
    var x := ViewOf(s, w);
    StepGuarantees(w, a, x, y);
    assert LiveOk(w, x);
    ExclusiveStep(w, a, x, y);
    SettledStep(w, a, x, y);
    CursorStep(w, a, x, y);
  }

  lemma ByKeepsLive(s: State, w: WorkerId, a: Act, y: View)
    requires Inv(s) && LiveInv(s) && Wired(s, w) && LocalStep(w, a, ViewOf(s, w), y) && !a.LoseSession?
    ensures LiveInv(Stepped(s, w, y))
  {
    hide LocalStep, LiveOk, WorkerOk;
    ActorStaysLive(s, w, a, y);
    forall v | v in s.workers ensures Wired(Stepped(s, w, y), v) && LiveOk(v, ViewOf(Stepped(s, w, y), v)) {
      WorkerStaysLive(s, w, y, v);
    }
  }

  lemma OtherActionsKeepLive(s: State, a: Action, s': State)
    requires Inv(s) && LiveInv(s) && Next(s, a, s') && !a.By?
    ensures LiveInv(s')
  {
    hide LiveOk, WorkerOk, RunOk, Inv;
    forall v | v in s'.workers && Wired(s', v) ensures LiveOk(v, ViewOf(s', v)) {
      if v in s.workers {
        TokenBound(s, v);
        assert LiveOk(v, ViewOf(s, v));
        OtherActionsRely(s, a, s', v);
        OthersStayLive(v, ViewOf(s, v), ViewOf(s', v));
      } else {
        NewWorkerLive(v, ViewOf(s', v));
      }
    }
  }

  /** Creating, spawning and recovering pending rows change nothing a worker relies on. */
  lemma OtherActionsRely(s: State, a: Action, s': State, v: WorkerId)
    requires Next(s, a, s') && !a.By? && Wired(s, v)
    ensures Wired(s', v) && Rely(v, ViewOf(s, v), ViewOf(s', v)) && ViewOf(s', v).run.ckpt == ViewOf(s, v).run.ckpt
  {
  }

  lemma NewWorkerLive(v: WorkerId, x: View)
    requires x.wk == NewWorker(x.wk.run, x.wk.entry)
    ensures LiveOk(v, x)
  {
  }

  lemma NextKeepsLive(s: State, a: Action, s': State)
    requires Inv(s) && LiveInv(s) && Next(s, a, s') && Live(a)
    ensures LiveInv(s')
  {
    if a.By? {
      var y :| LocalStep(a.w, a.act, ViewOf(s, a.w), y) && s' == Stepped(s, a.w, y);
      ByKeepsLive(s, a.w, a.act, y);
    } else {
      OtherActionsKeepLive(s, a, s');
    }
  }

  // ------------------------------------------------------------ the log as attempt segments

  /** Rows `a .. b-1` of run `r` are the first `b-a` events of the graph `w` drove from attempt base `a`. */
  ghost predicate Explains(s: State, r: RunId, w: WorkerId, a: nat, b: nat) {
    && r in s.runs && w in s.workers && s.workers[w].run == r
    && s.workers[w].base == a && a < b
    && Copied(s.runs[r].log, a, s.workers[w].mem, b - a)
  }

  /** Rows `0 .. b-1` are a concatenation of attempt segments. */
  ghost predicate Segmented(s: State, r: RunId, b: nat) {
    b == 0 || exists a: nat, w :: a < b && Explains(s, r, w, a, b) && Segmented(s, r, a)
  }

  ghost predicate SegInv(s: State) {
    && (forall r :: r in s.runs ==> Segmented(s, r, |s.runs[r].log|))
    && (forall r :: r in s.runs && s.runs[r].ckpt.Some? ==> Segmented(s, r, s.runs[r].ckpt.value.base))
    && (forall w :: w in s.workers ==> Segmented(s, s.workers[w].run, s.workers[w].base))
  }

  /** Nothing a segment rests on is ever taken back. */
  ghost predicate Grows(s: State, s': State) {
    && (forall r :: r in s.runs ==> r in s'.runs && Extends(s.runs[r].log, s'.runs[r].log))
    && (forall w :: w in s.workers ==> w in s'.workers && WorkerGrows(s.workers[w], s'.workers[w]))
  }

  ghost predicate WorkerGrows(wk: Worker, wk': Worker) {
    wk'.run == wk.run && wk.mem <= wk'.mem && (wk.mem != [] ==> wk'.base == wk.base)
  }

  lemma ExplainsGrows(s: State, s': State, r: RunId, w: WorkerId, a: nat, b: nat)
    requires Grows(s, s') && Explains(s, r, w, a, b)
    ensures Explains(s', r, w, a, b)
  {
    assert WorkerGrows(s.workers[w], s'.workers[w]);
    assert Extends(s.runs[r].log, s'.runs[r].log);
    var mem, mem' := s.workers[w].mem, s'.workers[w].mem;
    assert mem != [];
    forall k: nat | a <= k < b ensures k in s'.runs[r].log && s'.runs[r].log[k].body == mem'[k - a].body {
      assert k in s.runs[r].log;
      assert mem'[k - a] == mem[k - a];
    }
  }

  lemma {:induction false} SegmentedGrows(s: State, s': State, r: RunId, b: nat)
    requires Grows(s, s') && Segmented(s, r, b)
    ensures Segmented(s', r, b)
  {
    if b > 0 {
      var a: nat, w :| a < b && Explains(s, r, w, a, b) && Segmented(s, r, a);
      ExplainsGrows(s, s', r, w, a, b);
      SegmentedGrows(s, s', r, a);
    }
  }

  lemma SegmentsGrow(s: State, s': State)
    requires Grows(s, s')
    ensures forall r, b: nat :: Segmented(s, r, b) ==> Segmented(s', r, b)
  {
    hide Segmented, Grows;
    forall r, b: nat | Segmented(s, r, b) ensures Segmented(s', r, b) {
      SegmentedGrows(s, s', r, b);
    }
  }

  lemma CursorGrows(w: WorkerId, a: Act, x: View, y: View)
    requires GraphStep(w, a, x, y) && MovesCursor(a) && CursorExact(x)
    ensures WorkerGrows(x.wk, y.wk)
  {
    hide Mine, Proceeds, IsNextSeq, AppendTx, Copied;
  }

  lemma ClaimGrows(w: WorkerId, a: Act, x: View, y: View)
    requires EntryStep(w, a, x, y) && a.Claim?
    ensures WorkerGrows(x.wk, y.wk)
  {
  }

  lemma ActorGrows(w: WorkerId, a: Act, x: View, y: View)
    requires LocalStep(w, a, x, y) && CursorExact(x)
    ensures WorkerGrows(x.wk, y.wk)
  {
    hide LocalStep, EntryStep, GraphStep, EndStep, CursorExact;
    WhereLoud(w, a, x, y);
    if a.Claim? {
      ClaimGrows(w, a, x, y);
    } else if MovesCursor(a) {
      CursorGrows(w, a, x, y);
    } else {
      OrdinaryStep(w, a, x, y);
    }
  }

  /** Where a base comes from: kept, zero, the end of the log, or the checkpoint; and what base a checkpoint gets. */
  predicate BasedOn(x: View, y: View) {
    && (|| y.wk.base == x.wk.base || y.wk.base == 0 || y.wk.base == |x.run.log|
        || (x.run.ckpt.Some? && y.wk.base == x.run.ckpt.value.base))
    && (y.run.ckpt.Some? ==> y.run.ckpt == x.run.ckpt || y.run.ckpt.value.base == x.wk.base)
  }

  lemma GraphBases(w: WorkerId, a: Act, x: View, y: View)
    requires GraphStep(w, a, x, y) && Dense(x.run.log) && CursorExact(x)
    ensures BasedOn(x, y)
  {
    hide Mine, Proceeds, AppendTx, Copied;
    if a.FreshBase? {
      NextSeqOfDense(x.run.log, a.n);
    }
  }

  lemma ClaimBases(w: WorkerId, a: Act, x: View, y: View)
    requires EntryStep(w, a, x, y) && a.Claim?
    ensures BasedOn(x, y)
  {
  }

  lemma NewBases(w: WorkerId, a: Act, x: View, y: View)
    requires LocalStep(w, a, x, y) && Dense(x.run.log) && CursorExact(x)
    ensures BasedOn(x, y)
  {
    hide LocalStep, EntryStep, GraphStep, EndStep, CursorExact;
    WhereLoud(w, a, x, y);
    if a.Claim? {
      ClaimBases(w, a, x, y);
    } else if MovesCursor(a) || Loud(a) {
      GraphBases(w, a, x, y);
    } else {
      OrdinaryStep(w, a, x, y);
      QuietStep(w, a, x, y);
    }
  }

  lemma LogChangesByAppend(w: WorkerId, a: Act, x: View, y: View)
    requires LocalStep(w, a, x, y) && y.run.log != x.run.log
    ensures a.Append? && GraphStep(w, a, x, y)
  {
    hide EntryStep, GraphStep, EndStep;
    WhereLoud(w, a, x, y);
    if !MovesCursor(a) {
      OrdinaryStep(w, a, x, y);
    } else if a.Claim? {
      ClaimKeepsLog(w, a, x, y);
    } else if !a.Append? {
      QuietStep(w, a, x, y);
    }
  }

  lemma ClaimKeepsLog(w: WorkerId, a: Act, x: View, y: View)
    requires EntryStep(w, a, x, y) && a.Claim?
    ensures y.run.log == x.run.log
  {
  }

  lemma AppendedSegment(w: WorkerId, a: Act, x: View, y: View)
    requires GraphStep(w, a, x, y) && a.Append? && y.run.log != x.run.log && WorkerOk(y) && CursorExact(y)
    ensures y.wk.base == x.wk.base && y.wk.base < |y.run.log|
    ensures Copied(y.run.log, y.wk.base, y.wk.mem, |y.run.log| - y.wk.base)
  {
  }

  /** A changed log ends right behind the appending worker's cursor. */
  lemma NewSegment(w: WorkerId, a: Act, x: View, y: View)
    requires LocalStep(w, a, x, y) && y.run.log != x.run.log && WorkerOk(y) && CursorExact(y)
    ensures y.wk.base == x.wk.base && y.wk.base < |y.run.log|
    ensures Copied(y.run.log, y.wk.base, y.wk.mem, |y.run.log| - y.wk.base)
  {
    hide LocalStep, EntryStep, GraphStep, EndStep, CursorExact, WorkerOk;
    LogChangesByAppend(w, a, x, y);
    AppendedSegment(w, a, x, y);
  }

  /** One worker's step keeps the log made of attempt segments. */
  lemma ByKeepsSegments(s: State, w: WorkerId, a: Act, y: View, s': State)
    requires Inv(s) && LiveInv(s) && SegInv(s) && Wired(s, w) && LocalStep(w, a, ViewOf(s, w), y) && !a.LoseSession?
    requires s' == Stepped(s, w, y) && Inv(s') && LiveInv(s')
    ensures SegInv(s')
  {
    hide LocalStep, WorkerOk, LiveOk, Segmented, Inv, LiveInv, WorkerGrows, Extends, Guarantee, Explains, Copied;
    var x := ViewOf(s, w);
    var r := s.workers[w].run;
    StepFacts(s, w, a, y);
    GrowsBy(s, w, a, y);
    SegmentsGrow(s, s');
    Zero(s', r);
    assert Segmented(s', r, s'.workers[w].base);
    if y.run.log != x.run.log {
      NewlyExplained(s, w, y);
      OneMore(s', r, w, y.wk.base, |y.run.log|);
    }
  }

  lemma NewlyExplained(s: State, w: WorkerId, y: View)
    requires Wired(s, w) && y.wk.run == s.workers[w].run && y.wk.base < |y.run.log|
    requires Copied(y.run.log, y.wk.base, y.wk.mem, |y.run.log| - y.wk.base)
    ensures Explains(Stepped(s, w, y), s.workers[w].run, w, y.wk.base, |y.run.log|)
  {
  }

  lemma Zero(s: State, r: RunId)
    ensures Segmented(s, r, 0)
  {
  }

  lemma OneMore(s: State, r: RunId, w: WorkerId, a: nat, b: nat)
    requires Explains(s, r, w, a, b) && Segmented(s, r, a)
    ensures Segmented(s, r, b)
  {
  }

  /** The local facts a step brings to the segment argument. */
  lemma StepFacts(s: State, w: WorkerId, a: Act, y: View)
    requires Inv(s) && LiveInv(s) && Wired(s, w) && LocalStep(w, a, ViewOf(s, w), y) && !a.LoseSession?
    requires Inv(Stepped(s, w, y)) && LiveInv(Stepped(s, w, y))
    ensures var x := ViewOf(s, w);
      && y.wk.run == x.wk.run
      && BasedOn(x, y)
      && (y.run.log != x.run.log ==>
            && y.wk.base == x.wk.base && y.wk.base < |y.run.log|
            && Copied(y.run.log, y.wk.base, y.wk.mem, |y.run.log| - y.wk.base))
  {
    hide LocalStep;
    var x := ViewOf(s, w);
    var s' := Stepped(s, w, y);
    TokenBound(s, w);
    assert LiveOk(w, x);
    StepGuarantees(w, a, x, y);
    SteppedView(s, w, y);
    TokenBound(s', w);
    assert LiveOk(w, ViewOf(s', w));
    NewBases(w, a, x, y);
    if y.run.log != x.run.log {
      NewSegment(w, a, x, y);
    }
  }

  lemma GrowsBy(s: State, w: WorkerId, a: Act, y: View)
    requires Inv(s) && LiveInv(s) && Wired(s, w) && LocalStep(w, a, ViewOf(s, w), y)
    ensures Grows(s, Stepped(s, w, y))
  {
    hide LocalStep, Inv, WorkerOk, RunOk, LiveOk, CursorExact, WorkerGrows;
    var x := ViewOf(s, w);
    TokenBound(s, w);
    assert LiveOk(w, x);
    ExclusiveOf(w, x);
    SelfGrows(s);
    StepGuarantees(w, a, x, y);
    ActorGrows(w, a, x, y);
  }

  lemma SelfGrows(s: State)
    ensures forall v :: v in s.workers ==> WorkerGrows(s.workers[v], s.workers[v])
  {
  }

  /** Creating, spawning and recovering pending rows touch no log, checkpoint or existing worker. */
  ghost predicate Framed(s: State, s': State) {
    && (forall r :: r in s.runs ==> r in s'.runs && s'.runs[r].log == s.runs[r].log && s'.runs[r].ckpt == s.runs[r].ckpt)
    && (forall r :: r in s'.runs && r !in s.runs ==> s'.runs[r].log == map[] && s'.runs[r].ckpt.None?)
    && (forall w :: w in s.workers ==> w in s'.workers && s'.workers[w] == s.workers[w])
    && (forall w :: w in s'.workers && w !in s.workers ==> s'.workers[w].base == 0)
  }

  lemma FramedKeepsSegments(s: State, s': State)
    requires SegInv(s) && Framed(s, s')
    ensures SegInv(s')
  {
    hide Segmented;
    SegmentsGrow(s, s');
    forall q ensures Segmented(s', q, 0) {
      Zero(s', q);
    }
  }

  lemma OtherActionsFramed(s: State, a: Action, s': State)
    requires Next(s, a, s') && !a.By?
    ensures Framed(s, s')
  {
  }

  lemma NextKeepsSegments(s: State, a: Action, s': State)
    requires Inv(s) && LiveInv(s) && SegInv(s) && Next(s, a, s') && Live(a)
    requires Inv(s') && LiveInv(s')
    ensures SegInv(s')
  {
    if a.By? {
      var y :| LocalStep(a.w, a.act, ViewOf(s, a.w), y) && s' == Stepped(s, a.w, y);
      ByKeepsSegments(s, a.w, a.act, y, s');
    } else {
      OtherActionsFramed(s, a, s');
      FramedKeepsSegments(s, s');
    }
  }
}
