/** What every step of the run protocol keeps, lock sessions lost or not:
    token discipline, an append-only gap-free event log, no stranded claim. */
module RunSafety {
  import opened Prelude
  import opened RunLedger
  import opened EventCursor
  import opened RunProtocol

  // ------------------------------------------------------------ invariants

  ghost predicate RunOk(run: Run, minted: Token) {
    && (run.row.token.Some? <==> run.row.status == Running)
    && (run.row.token.Some? ==> run.row.token.value < minted)
    && Dense(run.log)
    && (run.ckpt.Some? ==> run.ckpt.value.base <= |run.log|)
  }

  /** The worker ended, or is ending, for a cause that promises it no longer owns the row. */
  predicate Settled(pc: Pc) {
    || (pc.Exited? && !Strands(pc.cause))
    || (pc.Releasing? && !Strands(pc.cause) && pc.cause != Cancelled)
  }

  /** A fresh attempt whose base was read and whose cursor is not yet set. */
  predicate FreshlyBased(pc: Pc) {
    pc.Based? || pc.ResetReady? || pc.ReadyToAlign?
  }

  predicate PcOk(x: View) {
    && (x.wk.pc.Idle? || x.wk.pc.Sweeping? ==> x.wk.token.None?)
    && (x.wk.pc.Done? || x.wk.pc.Reporting? ==> GraphOutcome(x.wk.pc.outcome))
    && (x.wk.pc.Releasing? ==> x.wk.pc.cause != Crashed)
    && (Settled(x.wk.pc) ==> !Mine(x))
  }

  ghost predicate WorkerOk(x: View) {
    && (x.wk.token.Some? ==> x.wk.token.value < x.minted)
    && PcOk(x)
    && x.wk.base <= |x.run.log|
    && x.wk.memBase <= |x.run.log|
    && (Mine(x) && HasCursor(x.wk.pc) ==> |x.run.log| == x.wk.base + x.wk.persisted)
    && (Mine(x) && x.wk.anew && FreshlyBased(x.wk.pc) ==> x.wk.base == |x.run.log|)
  }

  ghost predicate TokensDistinct(s: State) {
    forall v, w :: v in s.workers && w in s.workers && v != w && s.workers[v].token.Some?
      ==> s.workers[v].token != s.workers[w].token
  }

  ghost predicate Inv(s: State) {
    && (forall r :: r in s.runs ==> RunOk(s.runs[r], s.minted))
    && (forall w :: w in s.workers ==> Wired(s, w) && WorkerOk(ViewOf(s, w)))
    && TokensDistinct(s)
  }

  // ------------------------------------------------------------ what a step promises to everyone else

  ghost predicate Extends(log: Log, log': Log) {
    |log| <= |log'| && forall k :: k in log ==> k in log' && log'[k] == log[k]
  }

  /** The effect of one worker's step on what others can see. */
  ghost predicate Guarantee(w: WorkerId, x: View, y: View) {
    && y.wk.run == x.wk.run
    && x.minted <= y.minted
    && Extends(x.run.log, y.run.log)
    && (x.run.log != y.run.log ==> Mine(x))
    && (forall t: nat :: t < x.minted && Owns(y.run.row, t) ==> Owns(x.run.row, t))
    && (x.lock.Some? && x.lock != Some(w) ==> y.lock == x.lock)
    && (x.run.ckpt != y.run.ckpt ==> Held(x.wk.pc))
    && (Terminal(x.run.row.status) ==> y.run.row == x.run.row)
    && (y.wk.token == x.wk.token || (x.wk.token.None? && y.wk.token == Some(x.minted) && y.minted > x.minted))
  }

  lemma InsertedExtends(log: Log, events: seq<Event>, start: nat, base: nat, now: int)
    requires start <= |events| && Free(log, base + start, base + |events|)
    ensures Extends(log, Inserted(log, events, start, base, now))
  {
    InsertedSize(log, events, start, base, now);
    forall k | k in log ensures k in Inserted(log, events, start, base, now) && Inserted(log, events, start, base, now)[k] == log[k] {
      InsertedAt(log, events, start, base, now, k);
    }
  }

  /** A row transaction other than a claim: a heartbeat, or leaving a non-terminal status without a token. */
  predicate RowMoves(row: Row, row': Row) {
    || (row'.status == row.status && row'.token == row.token && (Terminal(row.status) ==> row' == row))
    || (!Terminal(row.status) && row'.status != Running && row'.token.None?)
  }

  predicate MovesCursor(a: Act) {
    a.Load? || a.FreshBase? || a.Align? || a.ReturnExisting? || a.Open? || a.Append? || a.Claim?
  }

  predicate Loud(a: Act) { a.Claim? || a.Reset? || a.Write? || a.Append? }

  /** Log, checkpoint, token and other workers' locks are left alone; the row at most beats or settles. */
  predicate Quiet(w: WorkerId, x: View, y: View) {
    && y.run.log == x.run.log && y.run.ckpt == x.run.ckpt
    && RowMoves(x.run.row, y.run.row)
    && y.minted == x.minted && y.wk.token == x.wk.token && y.wk.run == x.wk.run
    && (x.lock.Some? && x.lock != Some(w) ==> y.lock == x.lock)
  }

  lemma QuietOnEntry(w: WorkerId, a: Act, x: View, y: View)
    requires EntryStep(w, a, x, y) && !Loud(a)
    ensures Quiet(w, x, y)
  {
  }

  lemma QuietInGraph(w: WorkerId, a: Act, x: View, y: View)
    requires GraphStep(w, a, x, y) && !Loud(a)
    ensures Quiet(w, x, y)
  {
    hide Prepared, Held, Proceeds, IsNextSeq, Appending;
  }

  lemma QuietAtEnd(w: WorkerId, a: Act, x: View, y: View)
    requires EndStep(w, a, x, y) && !Loud(a)
    ensures Quiet(w, x, y)
  {
    hide InBody, InExecute, Prepared, Held;
  }

  /** Every step that neither claims, writes the checkpoint nor appends is quiet. */
  lemma QuietStep(w: WorkerId, a: Act, x: View, y: View)
    requires LocalStep(w, a, x, y) && !Loud(a)
    ensures Quiet(w, x, y)
  {
    hide EntryStep, GraphStep, EndStep, Quiet;
    if EntryStep(w, a, x, y) {
      QuietOnEntry(w, a, x, y);
    } else if GraphStep(w, a, x, y) {
      QuietInGraph(w, a, x, y);
    } else {
      QuietAtEnd(w, a, x, y);
    }
  }

  /** Claims are entry steps; the other loud steps and those that move the cursor are graph steps. */
  lemma WhereLoud(w: WorkerId, a: Act, x: View, y: View)
    requires LocalStep(w, a, x, y)
    ensures a.Claim? ==> EntryStep(w, a, x, y)
    ensures a.Reset? || a.Write? || (MovesCursor(a) && !a.Claim?) ==> GraphStep(w, a, x, y)
  {
  }

  lemma ClaimGuarantees(w: WorkerId, a: Act, x: View, y: View)
    requires EntryStep(w, a, x, y) && a.Claim? && RunOk(x.run, x.minted) && WorkerOk(x)
    ensures Guarantee(w, x, y)
  {
  }

  lemma LoudGuarantees(w: WorkerId, a: Act, x: View, y: View)
    requires GraphStep(w, a, x, y) && Loud(a)
    ensures Guarantee(w, x, y)
  {
    hide Proceeds, IsNextSeq;
    if a.Append? {
      var events := x.wk.mem[..a.n];
      if Free(x.run.log, x.wk.base + x.wk.persisted, x.wk.base + |events|) {
        InsertedExtends(x.run.log, events, x.wk.persisted, x.wk.base, a.now);
      }
    }
  }

  lemma StepGuarantees(w: WorkerId, a: Act, x: View, y: View)
    requires LocalStep(w, a, x, y) && RunOk(x.run, x.minted) && WorkerOk(x)
    ensures Guarantee(w, x, y)
  {
    hide EntryStep, GraphStep, EndStep, RunOk, WorkerOk;
    WhereLoud(w, a, x, y);
    if a.Claim? {
      ClaimGuarantees(w, a, x, y);
    } else if Loud(a) {
      LoudGuarantees(w, a, x, y);
    } else {
      QuietStep(w, a, x, y);
      QuietGuarantees(w, x, y);
    }
  }

  lemma QuietGuarantees(w: WorkerId, x: View, y: View)
    requires Quiet(w, x, y)
    ensures Guarantee(w, x, y)
  {
  }

  // ------------------------------------------------------------ the acting worker

  /** The step leaves cursor and log alone, leads back to no earlier point, and events only grow. */
  predicate Ordinarily(x: View, y: View) {
    && y.wk.base == x.wk.base && y.wk.persisted == x.wk.persisted && y.wk.memBase == x.wk.memBase
    && y.run.log == x.run.log && y.wk.run == x.wk.run && x.wk.mem <= y.wk.mem
    && (HasCursor(y.wk.pc) ==> HasCursor(x.wk.pc))
    && (y.wk.anew && FreshlyBased(y.wk.pc) ==> x.wk.anew && FreshlyBased(x.wk.pc))
    && (BeforeStream(y.wk.pc) ==> BeforeStream(x.wk.pc) && y.wk.mem == x.wk.mem && y.wk.guarded == x.wk.guarded)
    && (Streamed(y.wk.pc) ==> Streamed(x.wk.pc))
    && (y.wk.pc.Aligned? || y.wk.pc.Opening? ==>
          && (x.wk.pc.Aligned? || x.wk.pc.Opening?)
          && y.wk.seen == x.wk.seen && y.wk.anew == x.wk.anew
          && (y.wk.pc.Aligned? ==> x.wk.pc.Aligned?))
    && (y.wk.pc.Done? || y.wk.pc.Reporting? ==>
          && y.wk.mem == x.wk.mem
          && (x.wk.pc.Done? || x.wk.pc.Reporting? || x.wk.persisted == |x.wk.mem|))
  }

  lemma OrdinaryOnEntry(w: WorkerId, a: Act, x: View, y: View)
    requires EntryStep(w, a, x, y) && !MovesCursor(a)
    ensures Ordinarily(x, y)
  {
    hide Mine, FinishTx, RecoverTx;
  }

  lemma OrdinaryInGraph(w: WorkerId, a: Act, x: View, y: View)
    requires GraphStep(w, a, x, y) && !MovesCursor(a)
    ensures Ordinarily(x, y)
  {
    hide Mine, Proceeds, IsNextSeq, Appending;
  }

  lemma OrdinaryAtEnd(w: WorkerId, a: Act, x: View, y: View)
    requires EndStep(w, a, x, y) && !MovesCursor(a)
    ensures Ordinarily(x, y)
  {
    hide Mine, FinishTx;
  }

  lemma OrdinaryStep(w: WorkerId, a: Act, x: View, y: View)
    requires LocalStep(w, a, x, y) && !MovesCursor(a)
    ensures Ordinarily(x, y)
  {
    hide EntryStep, GraphStep, EndStep, Ordinarily;
    if EntryStep(w, a, x, y) {
      OrdinaryOnEntry(w, a, x, y);
    } else if GraphStep(w, a, x, y) {
      OrdinaryInGraph(w, a, x, y);
    } else {
      OrdinaryAtEnd(w, a, x, y);
    }
  }

  lemma OwnerOnEntry(w: WorkerId, a: Act, x: View, y: View)
    requires EntryStep(w, a, x, y) && !MovesCursor(a) && PcOk(x)
    ensures (Mine(y) ==> Mine(x)) && PcOk(y)
  {
  }

  lemma OwnerInGraph(w: WorkerId, a: Act, x: View, y: View)
    requires GraphStep(w, a, x, y) && !MovesCursor(a) && PcOk(x)
    ensures (Mine(y) ==> Mine(x)) && PcOk(y)
  {
    hide Proceeds, IsNextSeq, Appending;
  }

  lemma OwnerAtEnd(w: WorkerId, a: Act, x: View, y: View)
    requires EndStep(w, a, x, y) && !MovesCursor(a) && PcOk(x)
    ensures (Mine(y) ==> Mine(x)) && PcOk(y)
  {
    hide InBody, InExecute, Prepared;
  }

  /** Only a claim makes a worker an owner, and a settled worker is none. */
  lemma OrdinaryOwner(w: WorkerId, a: Act, x: View, y: View)
    requires LocalStep(w, a, x, y) && !MovesCursor(a) && PcOk(x)
    ensures Mine(y) ==> Mine(x)
    ensures PcOk(y)
  {
    hide EntryStep, GraphStep, EndStep, PcOk, Mine;
    if EntryStep(w, a, x, y) {
      OwnerOnEntry(w, a, x, y);
    } else if GraphStep(w, a, x, y) {
      OwnerInGraph(w, a, x, y);
    } else {
      OwnerAtEnd(w, a, x, y);
    }
  }

  /** The steps that move the cursor, except appends and claims, leave the row's owner and the log alone. */
  lemma CursorKeeps(w: WorkerId, a: Act, x: View, y: View)
    requires GraphStep(w, a, x, y) && MovesCursor(a) && !a.Append?
    requires RunOk(x.run, x.minted) && WorkerOk(x)
    ensures RunOk(y.run, y.minted) && WorkerOk(y)
  {
    if a.FreshBase? {
      NextSeqOfDense(x.run.log, a.n);
    } else if a.Align? {
      AlignedEndsLog(x.run.log, Local(x.wk), x.wk.base, a.m);
    } else if a.ReturnExisting? {
    } else if a.Load? {
    } else {
    }
  }

  lemma AppendKeeps(w: WorkerId, n: nat, now: int, x: View, y: View)
    requires GraphStep(w, Append(n, now), x, y) && RunOk(x.run, x.minted) && WorkerOk(x)
    ensures RunOk(y.run, y.minted) && WorkerOk(y)
  {
    if Mine(x) {
      AppendKeepsDense(x.run.log, x.wk.mem[..n], x.wk.persisted, x.wk.base, now);
    }
  }

  lemma ClaimKeeps(w: WorkerId, a: Act, x: View, y: View)
    requires EntryStep(w, a, x, y) && a.Claim? && RunOk(x.run, x.minted) && WorkerOk(x)
    ensures RunOk(y.run, y.minted) && WorkerOk(y)
  {
  }

  lemma WritesKeep(w: WorkerId, a: Act, x: View, y: View)
    requires GraphStep(w, a, x, y) && (a.Reset? || a.Write?) && RunOk(x.run, x.minted) && WorkerOk(x)
    ensures RunOk(y.run, y.minted) && WorkerOk(y)
  {
  }

  lemma OrdinaryKeeps(w: WorkerId, x: View, y: View)
    requires Ordinarily(x, y) && Quiet(w, x, y) && (Mine(y) ==> Mine(x)) && PcOk(y)
    requires RunOk(x.run, x.minted) && WorkerOk(x)
    ensures RunOk(y.run, y.minted) && WorkerOk(y)
  {
  }

  lemma StepKeepsWorker(w: WorkerId, a: Act, x: View, y: View)
    requires LocalStep(w, a, x, y) && RunOk(x.run, x.minted) && WorkerOk(x)
    ensures RunOk(y.run, y.minted) && WorkerOk(y)
  {
    hide LocalStep, EntryStep, GraphStep, EndStep, RunOk, Ordinarily, Quiet;
    WhereLoud(w, a, x, y);
    if a.Append? {
      AppendKeeps(w, a.n, a.now, x, y);
    } else if a.Claim? {
      ClaimKeeps(w, a, x, y);
    } else if MovesCursor(a) {
      CursorKeeps(w, a, x, y);
    } else if Loud(a) {
      WritesKeep(w, a, x, y);
    } else {
      QuietStep(w, a, x, y);
      OrdinaryStep(w, a, x, y);
      OrdinaryOwner(w, a, x, y);
      OrdinaryKeeps(w, x, y);
    }
  }

  // ------------------------------------------------------------ everyone else

  /** How the rest of the system may change under worker `v` while `v` does nothing. */
  ghost predicate Rely(v: WorkerId, x: View, x': View) {
    && x'.wk == x.wk
    && x.minted <= x'.minted
    && Extends(x.run.log, x'.run.log)
    && (Mine(x') ==> Mine(x))
    && (Mine(x) ==> x'.run.log == x.run.log)
    && (x.lock == Some(v) ==> x'.lock == Some(v))
  }

  lemma RelyKeepsWorker(v: WorkerId, x: View, x': View)
    requires Rely(v, x, x') && WorkerOk(x)
    ensures WorkerOk(x')
  {
  }

  /** A worker's own step is its view's step. */
  lemma SteppedView(s: State, w: WorkerId, y: View)
    requires Wired(s, w) && y.wk.run == s.workers[w].run
    ensures Wired(Stepped(s, w, y), w) && ViewOf(Stepped(s, w, y), w) == y
  {
  }

  /** Another worker sees a step only as allowed by `Rely`. */
  lemma SteppedRely(s: State, w: WorkerId, y: View, v: WorkerId)
    requires Wired(s, w) && Wired(s, v) && v != w
    requires Guarantee(w, ViewOf(s, w), y)
    requires s.workers[v].token.Some? ==> s.workers[v].token.value < s.minted && s.workers[v].token != s.workers[w].token
    ensures Wired(Stepped(s, w, y), v)
    ensures Rely(v, ViewOf(s, v), ViewOf(Stepped(s, w, y), v))
  {
    var x := ViewOf(s, w);
    var u, u' := ViewOf(s, v), ViewOf(Stepped(s, w, y), v);
    if u.wk.run != x.wk.run {
      assert u'.run == u.run;
    } else {
      assert u.run == x.run && u'.run == y.run;
    }
  }

  lemma TokensStayDistinct(s: State, w: WorkerId, y: View)
    requires Wired(s, w) && TokensDistinct(s) && Guarantee(w, ViewOf(s, w), y)
    requires forall v :: v in s.workers && s.workers[v].token.Some? ==> s.workers[v].token.value < s.minted
    ensures TokensDistinct(Stepped(s, w, y))
  {
  }

  lemma TokenBound(s: State, v: WorkerId)
    requires Inv(s) && v in s.workers
    ensures Wired(s, v) && WorkerOk(ViewOf(s, v)) && RunOk(s.runs[s.workers[v].run], s.minted)
    ensures s.workers[v].token.Some? ==> s.workers[v].token.value < s.minted
  {
  }

  lemma RunsStayOk(s: State, w: WorkerId, y: View)
    requires Inv(s) && Wired(s, w) && Guarantee(w, ViewOf(s, w), y) && RunOk(y.run, y.minted)
    ensures forall r :: r in s.runs ==> RunOk(Stepped(s, w, y).runs[r], y.minted)
  {
  }

  lemma WorkerStaysOk(s: State, w: WorkerId, y: View, v: WorkerId)
    requires Inv(s) && Wired(s, w) && Guarantee(w, ViewOf(s, w), y) && WorkerOk(y) && v in s.workers
    ensures Wired(Stepped(s, w, y), v) && WorkerOk(ViewOf(Stepped(s, w, y), v))
  {
    if v == w {
      SteppedView(s, w, y);
    } else {
      TokenBound(s, v);
      SteppedRely(s, w, y, v);
      RelyKeepsWorker(v, ViewOf(s, v), ViewOf(Stepped(s, w, y), v));
    }
  }

  lemma ByKeepsInv(s: State, w: WorkerId, y: View)
    requires Inv(s) && Wired(s, w) && Guarantee(w, ViewOf(s, w), y)
    requires RunOk(y.run, y.minted) && WorkerOk(y)
    ensures Inv(Stepped(s, w, y))
  {
    RunsStayOk(s, w, y);
    forall v | v in s.workers
      ensures Wired(Stepped(s, w, y), v) && WorkerOk(ViewOf(Stepped(s, w, y), v))
      ensures s.workers[v].token.Some? ==> s.workers[v].token.value < s.minted
    {
      TokenBound(s, v);
      WorkerStaysOk(s, w, y, v);
    }
    TokensStayDistinct(s, w, y);
  }

  lemma NewRunOk(now: int, minted: Token)
    ensures RunOk(Run(NewRow(now), map[], None), minted)
  {
  }

  lemma NewWorkerOk(r: RunId, entry: Entry, run: Run, lock: Option<WorkerId>, minted: Token)
    ensures WorkerOk(View(NewWorker(r, entry), run, lock, minted))
  {
  }

  lemma CreateKeepsInv(s: State, r: RunId, now: int, s': State)
    requires Inv(s) && Next(s, Create(r, now), s')
    ensures Inv(s')
  {
    hide WorkerOk, RunOk;
    NewRunOk(now, s.minted);
    forall v | v in s'.workers ensures Wired(s', v) && WorkerOk(ViewOf(s', v)) {
      TokenBound(s, v);
      assert ViewOf(s', v) == ViewOf(s, v);
    }
  }

  lemma SpawnKeepsInv(s: State, w: WorkerId, r: RunId, entry: Entry, s': State)
    requires Inv(s) && Next(s, Spawn(w, r, entry), s')
    ensures Inv(s')
  {
    hide WorkerOk, RunOk;
    forall v | v in s'.workers ensures Wired(s', v) && WorkerOk(ViewOf(s', v)) {
      if v == w {
        var x := ViewOf(s', w);
        NewWorkerOk(r, entry, x.run, x.lock, x.minted);
      } else {
        TokenBound(s, v);
        assert ViewOf(s', v) == ViewOf(s, v);
      }
    }
  }

  lemma RecoverPendingKeepsInv(s: State, r: RunId, staleBefore: Option<int>, now: int, s': State)
    requires Inv(s) && Next(s, RecoverPending(r, staleBefore, now), s')
    ensures Inv(s')
  {
    forall v | v in s'.workers ensures Wired(s', v) && WorkerOk(ViewOf(s', v)) {
      TokenBound(s, v);
      RelyKeepsWorker(v, ViewOf(s, v), ViewOf(s', v));
    }
  }

  /** The invariant survives every action, lost sessions included. */
  lemma NextKeepsInv(s: State, a: Action, s': State)
    requires Inv(s) && Next(s, a, s')
    ensures Inv(s')
  {
    match a
    case Create(r, now) => CreateKeepsInv(s, r, now, s');
    case Spawn(w, r, entry) => SpawnKeepsInv(s, w, r, entry, s');
    case RecoverPending(r, staleBefore, now) => RecoverPendingKeepsInv(s, r, staleBefore, now, s');
    case By(w, act) =>
      var y :| LocalStep(w, act, ViewOf(s, w), y) && s' == Stepped(s, w, y);
      TokenBound(s, w);
      StepGuarantees(w, act, ViewOf(s, w), y);
      StepKeepsWorker(w, act, ViewOf(s, w), y);
      ByKeepsInv(s, w, y);
  }

  lemma {:induction false} Reachable(tr: seq<State>, acts: seq<Action>, i: nat)
    requires Behaviour(tr, acts) && i < |tr|
    ensures Inv(tr[i])
  {
    if i > 0 {
      Reachable(tr, acts, i - 1);
      NextKeepsInv(tr[i - 1], acts[i - 1], tr[i]);
    }
  }
}
