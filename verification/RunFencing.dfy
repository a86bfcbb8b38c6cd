/** Theorems over whole behaviours that need no assumption about lock sessions. */
module RunFencing {
  import opened Prelude
  import opened RunLedger
  import opened RunProtocol
  import opened RunSafety

  // ------------------------------------------------------------ steps

  /** `s'` keeps the run, with a longer log and, once terminal, the same row. */
  ghost predicate RunKept(s: State, s': State, r: RunId) {
    && r in s.runs && r in s'.runs
    && Extends(s.runs[r].log, s'.runs[r].log)
    && (Terminal(s.runs[r].row.status) ==> s'.runs[r].row == s.runs[r].row)
  }

  lemma NextKeepsRun(s: State, a: Action, s': State, r: RunId)
    requires Inv(s) && Next(s, a, s') && r in s.runs
    ensures RunKept(s, s', r)
  {
    hide LocalStep, WorkerOk, Inv, RunOk;
    if a.By? {
      var y :| LocalStep(a.w, a.act, ViewOf(s, a.w), y) && s' == Stepped(s, a.w, y);
      TokenBound(s, a.w);
      StepGuarantees(a.w, a.act, ViewOf(s, a.w), y);
    }
  }

  /** A worker that claimed and has lost its row. */
  ghost predicate Fenced(s: State, w: WorkerId) {
    Wired(s, w) && s.workers[w].token.Some? && !Mine(ViewOf(s, w))
  }

  /** A fenced worker's own step changes neither the row nor the log. */
  ghost predicate Harmless(x: View, y: View) {
    y.run.row == x.run.row && y.run.log == x.run.log && y.wk.token == x.wk.token
  }

  lemma FencedOnEntry(w: WorkerId, a: Act, x: View, y: View)
    requires EntryStep(w, a, x, y) && PcOk(x) && x.wk.token.Some? && !Mine(x)
    ensures Harmless(x, y)
  {
  }

  lemma FencedInGraph(w: WorkerId, a: Act, x: View, y: View)
    requires GraphStep(w, a, x, y) && x.wk.token.Some? && !Mine(x)
    ensures Harmless(x, y)
  {
    hide IsNextSeq;
  }

  lemma FencedAtEnd(w: WorkerId, a: Act, x: View, y: View)
    requires EndStep(w, a, x, y) && x.wk.token.Some? && !Mine(x)
    ensures Harmless(x, y)
  {
    hide InBody, InExecute, Held;
  }

  lemma FencedStep(w: WorkerId, a: Act, x: View, y: View)
    requires LocalStep(w, a, x, y) && PcOk(x) && x.wk.token.Some? && !Mine(x)
    ensures Harmless(x, y)
  {
    hide EntryStep, GraphStep, EndStep, Harmless, Mine, PcOk;
    if EntryStep(w, a, x, y) {
      FencedOnEntry(w, a, x, y);
    } else if GraphStep(w, a, x, y) {
      FencedInGraph(w, a, x, y);
    } else {
      FencedAtEnd(w, a, x, y);
    }
  }

  /** The same, seen from the whole system. */
  lemma FencedActor(s: State, a: Action, s': State, w: WorkerId)
    requires Inv(s) && Next(s, a, s') && Fenced(s, w) && a.By? && a.w == w
    ensures forall r :: r in s.runs ==> r in s'.runs && s'.runs[r].row == s.runs[r].row && s'.runs[r].log == s.runs[r].log
  {
    hide LocalStep;
    TokenBound(s, w);
    var y :| LocalStep(w, a.act, ViewOf(s, w), y) && s' == Stepped(s, w, y);
    FencedStep(w, a.act, ViewOf(s, w), y);
  }

  /** A log changes only under its owner's own step. */
  lemma AppendingActor(s: State, a: Action, s': State, r: RunId)
    requires Inv(s) && Next(s, a, s') && r in s.runs && r in s'.runs && s'.runs[r].log != s.runs[r].log
    ensures a.By? && Wired(s, a.w) && s.workers[a.w].run == r && Mine(ViewOf(s, a.w))
  {
    hide LocalStep, WorkerOk;
    if a.By? {
      var y :| LocalStep(a.w, a.act, ViewOf(s, a.w), y) && s' == Stepped(s, a.w, y);
      TokenBound(s, a.w);
      StepGuarantees(a.w, a.act, ViewOf(s, a.w), y);
    }
  }

  /** Nobody can make a fenced worker the owner again. */
  lemma FencedStays(s: State, a: Action, s': State, w: WorkerId)
    requires Inv(s) && Next(s, a, s') && Fenced(s, w)
    ensures Fenced(s', w) && s'.workers[w].token == s.workers[w].token && s'.workers[w].run == s.workers[w].run
  {
    hide LocalStep;
    TokenBound(s, w);
    if a.By? {
      var y :| LocalStep(a.w, a.act, ViewOf(s, a.w), y) && s' == Stepped(s, a.w, y);
      TokenBound(s, a.w);
      StepGuarantees(a.w, a.act, ViewOf(s, a.w), y);
      if a.w == w {
        FencedStep(w, a.act, ViewOf(s, w), y);
        SteppedView(s, w, y);
      } else {
        SteppedRely(s, a.w, y, w);
      }
    }
  }

  // ------------------------------------------------------------ behaviours

  /** In every reachable state a run's event rows are exactly the sequences `0 .. n-1`, and a token
      is set exactly while the run is `running`. */
  lemma RowsAreContiguous(tr: seq<State>, acts: seq<Action>, i: nat, r: RunId)
    requires Behaviour(tr, acts) && i < |tr| && r in tr[i].runs
    ensures forall k: nat :: k in tr[i].runs[r].log <==> k < |tr[i].runs[r].log|
    ensures tr[i].runs[r].row.token.Some? <==> tr[i].runs[r].row.status == Running
  {
    Reachable(tr, acts, i);
    assert RunOk(tr[i].runs[r], tr[i].minted);
  }

  /** Event rows are never changed or removed, and `completed` and `failed` rows never change again. */
  lemma {:induction false} HistoryIsPermanent(tr: seq<State>, acts: seq<Action>, i: nat, j: nat, r: RunId)
    requires Behaviour(tr, acts) && i <= j < |tr| && r in tr[i].runs
    ensures RunKept(tr[i], tr[j], r)
    decreases j
  {
    hide Next, Init, Inv;
    if i < j {
      HistoryIsPermanent(tr, acts, i, j - 1, r);
      Reachable(tr, acts, j - 1);
      NextKeepsRun(tr[j - 1], acts[j - 1], tr[j], r);
    }
  }

  /** Once a worker's token is superseded it stays superseded. */
  lemma {:induction false} SupersededForever(tr: seq<State>, acts: seq<Action>, i: nat, j: nat, w: WorkerId)
    requires Behaviour(tr, acts) && i <= j < |tr| && Fenced(tr[i], w)
    ensures Fenced(tr[j], w) && tr[j].workers[w].run == tr[i].workers[w].run
    decreases j
  {
    hide Next, Init, Inv, Fenced;
    if i < j {
      SupersededForever(tr, acts, i, j - 1, w);
      Reachable(tr, acts, j - 1);
      FencedStays(tr[j - 1], acts[j - 1], tr[j], w);
    }
  }

  /** Fencing: whatever a superseded worker still does, its run's row (status, token and heartbeat)
      and event log stay as they are. */
  lemma SupersededIsHarmless(tr: seq<State>, acts: seq<Action>, i: nat, j: nat, w: WorkerId)
    requires Behaviour(tr, acts) && i <= j < |acts| && Fenced(tr[i], w)
    requires acts[j].By? && acts[j].w == w
    ensures forall r :: r in tr[j].runs ==>
      r in tr[j + 1].runs && tr[j + 1].runs[r].row == tr[j].runs[r].row && tr[j + 1].runs[r].log == tr[j].runs[r].log
  {
    hide Next, Init, Inv, Fenced;
    SupersededForever(tr, acts, i, j, w);
    Reachable(tr, acts, j);
    FencedActor(tr[j], acts[j], tr[j + 1], w);
  }

  /** Event rows are only ever added by the worker that owns the row at that moment. */
  lemma OnlyTheOwnerAppends(tr: seq<State>, acts: seq<Action>, j: nat, r: RunId)
    requires Behaviour(tr, acts) && j < |acts| && r in tr[j].runs
    requires r in tr[j + 1].runs && tr[j + 1].runs[r].log != tr[j].runs[r].log
    ensures acts[j].By? && Wired(tr[j], acts[j].w) && tr[j].workers[acts[j].w].run == r && Mine(ViewOf(tr[j], acts[j].w))
  {
    hide Next, Init, Inv;
    Reachable(tr, acts, j);
    AppendingActor(tr[j], acts[j], tr[j + 1], r);
  }
}
