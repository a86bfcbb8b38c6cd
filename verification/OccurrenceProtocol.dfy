/** Scheduler workers contending for subscription occurrences: occurrence lock, the check
    against the stored next run, the idempotent scheduled run, and the one transaction
    that emits events, advances the seen cursor and advances the schedule. */
module OccurrenceProtocol {
  import opened Prelude
  import opened SubscriptionDiff
  import opened SubscriptionFeed

  type SubId = nat
  type WorkerId = nat

  /** A scheduled run is named by its subscription and the minute of its occurrence. */
  datatype RunKey = RunKey(sub: SubId, minute: int)

  /** One committed cycle: its occurrence, the events it emitted and the state it left. */
  datatype Committed = Committed(at: int, emitted: seq<Emission>, seen: map<SourceId, Hash>, next: int)

  datatype Sub = Sub(
    next: int,
    active: bool,
    failures: nat,
    seen: map<SourceId, Hash>,
    inbox: seq<Emission>,
    cycles: seq<Committed>)   // every cycle committed so far

  datatype Pc =
    | Idle
    | Locked
    | Matched                             // the stored next run was this occurrence
    | Created                             // this worker inserted the scheduled run
    | Started                             // the graph is running
    | Gate                                // before the report is loaded
    | Diffing(cited: set<SourceId>)
    | Failing
    | Releasing
    | Exited

  datatype Worker = Worker(sub: SubId, at: int, pc: Pc)

  /** Functions the protocol depends on but does not look into. */
  datatype Config = Config(
    norm: Normalizer,
    lockKey: (SubId, int) -> int,         // need not be injective
    nextRun: (SubId, int) -> int)

  datatype State = State(
    versions: Versions,
    subs: map<SubId, Sub>,
    runs: map<RunKey, Option<set<SourceId>>>,   // a scheduled run and, once delivered, the notices its report cites
    starts: map<RunKey, nat>,                   // graph executions the bridge started
    locks: map<int, WorkerId>,
    workers: map<WorkerId, Worker>)

  /** Seconds to the minute bucket used by both the lock and the run key. */
  function Minute(at: int): int { at / 60 }

  function KeyOf(wk: Worker): RunKey { RunKey(wk.sub, Minute(wk.at)) }

  function LockOf(c: Config, wk: Worker): int { c.lockKey(wk.sub, Minute(wk.at)) }

  /** Between lock acquire and release. */
  predicate InLock(pc: Pc) { !pc.Idle? && !pc.Exited? }

  /** After the occurrence check. */
  predicate Working(pc: Pc) { InLock(pc) && !pc.Locked? && !pc.Releasing? }

  predicate Occurs(s: State, wk: Worker) {
    wk.sub in s.subs && s.subs[wk.sub].active && s.subs[wk.sub].next == wk.at
  }

  function Move(s: State, w: WorkerId, pc: Pc): State
    requires w in s.workers
  {
    s.(workers := s.workers[w := s.workers[w].(pc := pc)])
  }

  function Freed(c: Config, s: State, w: WorkerId): State
    requires w in s.workers
  {
    var key := LockOf(c, s.workers[w]);
    if key in s.locks && s.locks[key] == w then s.(locks := s.locks - {key}) else s
  }

  /** The single transaction of a successful cycle. */
  function CommitCycle(c: Config, s: State, wk: Worker, notices: seq<Match>): Sub
    requires wk.sub in s.subs
  {
    var b := s.subs[wk.sub];
    var emitted := Emissions(c.norm, s.versions, b.seen, notices);
    var seen := Advanced(b.seen, notices);
    var next := c.nextRun(wk.sub, wk.at);
    Sub(next, b.active, 0, seen, b.inbox + emitted, b.cycles + [Committed(wk.at, emitted, seen, next)])
  }

  /** `_record_failure`. */
  function RecordFailure(b: Sub): Sub {
    b.(failures := b.failures + 1, active := b.active && b.failures + 1 < 3)
  }

  datatype Action =
    | Subscribe(sub: SubId, next: int)
    | Import(versions: Versions)
    | Deliver(key: RunKey, cited: set<SourceId>)
    | Spawn(w: WorkerId, sub: SubId, at: int)
    | TryLock(w: WorkerId)
    | Check(w: WorkerId)
    | Corrupt(w: WorkerId)
    | CreateRun(w: WorkerId)
    | Start(w: WorkerId)
    | RunEnds(w: WorkerId, completed: bool)
    | LoadReport(w: WorkerId)
    | Commit(w: WorkerId, notices: seq<Match>)
    | Fail(w: WorkerId)
    | Abort(w: WorkerId)
    | Release(w: WorkerId)
    | Crash(w: WorkerId)

  predicate IsAt(s: State, w: WorkerId, pc: Pc) {
    w in s.workers && s.workers[w].pc == pc
  }

  ghost predicate Next(c: Config, s: State, a: Action, s': State) {
    match a
    case Subscribe(sub, next) =>
      sub !in s.subs && s' == s.(subs := s.subs[sub := Sub(next, true, 0, map[], [], [])])
    case Import(versions) =>
      OnlyAdds(s.versions, versions) && HashesUnique(versions) && s' == s.(versions := versions)
    case Deliver(key, cited) =>
      key in s.runs && s.runs[key].None? && s' == s.(runs := s.runs[key := Some(cited)])
    case Spawn(w, sub, at) =>
      w !in s.workers && s' == s.(workers := s.workers[w := Worker(sub, at, Idle)])
    case TryLock(w) =>
      && IsAt(s, w, Idle)
      && var key := LockOf(c, s.workers[w]);
         s' == if key in s.locks then Move(s, w, Exited) else Move(s, w, Locked).(locks := s.locks[key := w])
    case Check(w) =>
      IsAt(s, w, Locked) && s' == Move(s, w, if Occurs(s, s.workers[w]) then Matched else Releasing)
    case Corrupt(w) => IsAt(s, w, Matched) && s' == Move(s, w, Failing)
    case CreateRun(w) =>
      && IsAt(s, w, Matched)
      && var key := KeyOf(s.workers[w]);
         s' == if key in s.runs then Move(s, w, Gate) else Move(s, w, Created).(runs := s.runs[key := None])
    case Start(w) =>
      && IsAt(s, w, Created)
      && var key := KeyOf(s.workers[w]);
         s' == Move(s, w, Started).(starts := s.starts[key := (if key in s.starts then s.starts[key] else 0) + 1])
    case RunEnds(w, completed) => IsAt(s, w, Started) && s' == Move(s, w, if completed then Gate else Failing)
    case LoadReport(w) =>
      && IsAt(s, w, Gate)
      && var key := KeyOf(s.workers[w]);
         s' == Move(s, w, if key in s.runs && s.runs[key].Some? then Diffing(s.runs[key].value) else Failing)
    case Commit(w, notices) =>
      && w in s.workers && s.workers[w].pc.Diffing? && s.workers[w].sub in s.subs
      && Latest(s.versions, notices) && (set m | m in notices :: m.id) <= s.workers[w].pc.cited
      && s' == Move(s, w, Releasing).(subs := s.subs[s.workers[w].sub := CommitCycle(c, s, s.workers[w], notices)])
    case Fail(w) =>
      && IsAt(s, w, Failing) && s.workers[w].sub in s.subs
      && s' == Move(s, w, Releasing).(subs := s.subs[s.workers[w].sub := RecordFailure(s.subs[s.workers[w].sub])])
    case Abort(w) => w in s.workers && InLock(s.workers[w].pc) && s' == Move(s, w, Releasing)
    case Release(w) => IsAt(s, w, Releasing) && s' == Freed(c, Move(s, w, Exited), w)
    case Crash(w) => w in s.workers && s' == Freed(c, Move(s, w, Exited), w)
  }

  ghost predicate Init(s: State) {
    && HashesUnique(s.versions) && s.subs == map[] && s.runs == map[] && s.starts == map[]
    && s.locks == map[] && s.workers == map[]
  }

  /** The next fire time is strictly after its reference. */
  ghost predicate StrictlyLater(c: Config) {
    forall sub: SubId, at: int :: c.nextRun(sub, at) > at
  }

  ghost predicate Behaviour(c: Config, tr: seq<State>, acts: seq<Action>) {
    && StrictlyLater(c) && |tr| == |acts| + 1 && Init(tr[0])
    && forall i :: 0 <= i < |acts| ==> Next(c, tr[i], acts[i], tr[i + 1])
  }

  // ------------------------------------------------------------ invariants

  ghost predicate WorkerOk(c: Config, s: State, w: WorkerId)
    requires w in s.workers
  {
    var wk := s.workers[w];
    && (InLock(wk.pc) ==> HasLock(c, s, wk, w))
    && (Working(wk.pc) ==> wk.sub in s.subs && s.subs[wk.sub].next == wk.at)
  }

  ghost predicate WorkersOk(c: Config, s: State) {
    forall w :: w in s.workers ==> WorkerOk(c, s, w)
  }

  /** The events of all committed cycles, in order. */
  function AllEmitted(cycles: seq<Committed>): seq<Emission> {
    if cycles == [] then [] else AllEmitted(cycles[..|cycles| - 1]) + cycles[|cycles| - 1].emitted
  }

  /** Each cycle took the occurrence its predecessor scheduled and scheduled a strictly later one. */
  ghost predicate Chained(cycles: seq<Committed>, next: int) {
    && (forall i :: 0 <= i < |cycles| ==> cycles[i].at < cycles[i].next)
    && (forall i :: 0 <= i < |cycles| - 1 ==> cycles[i + 1].at == cycles[i].next)
    && (cycles != [] ==> next == cycles[|cycles| - 1].next)
  }

  ghost predicate SubOk(c: Config, s: State, sub: SubId)
    requires sub in s.subs
  {
    var b := s.subs[sub];
    && Chained(b.cycles, b.next)
    && b.inbox == AllEmitted(b.cycles)
    && b.seen == (if b.cycles == [] then map[] else b.cycles[|b.cycles| - 1].seen)
    && FeedOk(c.norm, Feed(s.versions, b.seen, b.inbox))
  }

  ghost predicate SubsOk(c: Config, s: State) {
    HashesUnique(s.versions) && forall sub :: sub in s.subs ==> SubOk(c, s, sub)
  }

  /** Only the inserter of a scheduled run can start it, and only once. */
  ghost predicate StartsOk(s: State) {
    && (forall key :: key in s.starts ==> key in s.runs && s.starts[key] <= 1)
    && (forall w :: w in s.workers && s.workers[w].pc.Created? ==>
          KeyOf(s.workers[w]) in s.runs && KeyOf(s.workers[w]) !in s.starts)
    && (forall v, w :: v in s.workers && w in s.workers && v != w && s.workers[v].pc.Created? && s.workers[w].pc.Created?
          ==> KeyOf(s.workers[v]) != KeyOf(s.workers[w]))
  }

  // ------------------------------------------------------------ at most one execution

  /** The other actions bring nobody to the point of starting a run. */
  ghost predicate StartsFrame(s: State, s': State) {
    && s'.starts == s.starts && s.runs.Keys <= s'.runs.Keys
    && forall w :: w in s'.workers && s'.workers[w].pc.Created? ==> w in s.workers && s.workers[w] == s'.workers[w]
  }

  lemma FrameOfStarts(c: Config, s: State, a: Action, s': State)
    requires Next(c, s, a, s') && !a.CreateRun? && !a.Start?
    ensures StartsFrame(s, s')
  {
  }

  lemma FrameKeepsStarts(s: State, s': State)
    requires StartsOk(s) && StartsFrame(s, s')
    ensures StartsOk(s')
  {
  }

  lemma CreateKeepsStarts(c: Config, s: State, w: WorkerId, s': State)
    requires StartsOk(s) && Next(c, s, CreateRun(w), s')
    ensures StartsOk(s')
  {
    var key := KeyOf(s.workers[w]);
    if key in s.runs {
      FrameKeepsStarts(s, s');
    } else {
      assert s'.workers == s.workers[w := s.workers[w].(pc := Created)];
      assert KeyOf(s'.workers[w]) == key;
    }
  }

  lemma StartKeepsStarts(c: Config, s: State, w: WorkerId, s': State)
    requires StartsOk(s) && Next(c, s, Start(w), s')
    ensures StartsOk(s')
  {
  }

  lemma StartsStay(c: Config, s: State, a: Action, s': State)
    requires StartsOk(s) && Next(c, s, a, s')
    ensures StartsOk(s')
  {
    hide Next, StartsOk;
    match a
    case CreateRun(w) => CreateKeepsStarts(c, s, w, s');
    case Start(w) => StartKeepsStarts(c, s, w, s');
    case _ => FrameOfStarts(c, s, a, s'); FrameKeepsStarts(s, s');
  }

  // ------------------------------------------------------------ lock and occurrence

  /** What an action by others leaves a worker. */
  ghost predicate Undisturbed(c: Config, s: State, s': State, v: WorkerId) {
    && v in s.workers && v in s'.workers && s'.workers[v] == s.workers[v]
    && (HasLock(c, s, s.workers[v], v) ==> HasLock(c, s', s.workers[v], v))
    && (s.workers[v].sub in s.subs ==> SameNext(s, s', s.workers[v].sub))
  }

  predicate HasLock(c: Config, s: State, wk: Worker, w: WorkerId) {
    LockOf(c, wk) in s.locks && s.locks[LockOf(c, wk)] == w
  }

  predicate SameNext(s: State, s': State, sub: SubId)
    requires sub in s.subs
  {
    sub in s'.subs && s'.subs[sub].next == s.subs[sub].next
  }

  predicate Actor(a: Action, w: WorkerId) {
    match a
    case Subscribe(_, _) => false
    case Import(_) => false
    case Deliver(_, _) => false
    case _ => a.w == w
  }

  lemma ActorStays(c: Config, s: State, a: Action, s': State, w: WorkerId)
    requires WorkersOk(c, s) && Next(c, s, a, s') && Actor(a, w)
    ensures w in s'.workers && WorkerOk(c, s', w)
  {
    assert w in s.workers ==> WorkerOk(c, s, w);
  }

  lemma OthersKeepWorker(c: Config, s: State, a: Action, s': State, v: WorkerId)
    requires Next(c, s, a, s') && !Actor(a, v) && v in s.workers
    ensures v in s'.workers && s'.workers[v] == s.workers[v]
  {
  }

  lemma LocksUnchanged(c: Config, s: State, a: Action, s': State)
    requires Next(c, s, a, s') && !a.TryLock? && !a.Release? && !a.Crash?
    ensures s'.locks == s.locks
  {
  }

  lemma OthersKeepLock(c: Config, s: State, a: Action, s': State, v: WorkerId)
    requires Next(c, s, a, s') && !Actor(a, v) && v in s.workers
    ensures HasLock(c, s, s.workers[v], v) ==> HasLock(c, s', s.workers[v], v)
  {
    if !a.TryLock? && !a.Release? && !a.Crash? {
      hide Next;
      LocksUnchanged(c, s, a, s');
    }
  }

  lemma OthersKeepNext(c: Config, s: State, a: Action, s': State, sub: SubId)
    requires Next(c, s, a, s') && !a.Commit? && sub in s.subs
    ensures SameNext(s, s', sub)
  {
  }

  lemma OthersUndisturbed(c: Config, s: State, a: Action, s': State, v: WorkerId)
    requires Next(c, s, a, s') && !Actor(a, v) && !a.Commit? && v in s.workers
    ensures Undisturbed(c, s, s', v)
  {
    hide Next, HasLock;
    OthersKeepWorker(c, s, a, s', v);
    OthersKeepLock(c, s, a, s', v);
    if s.workers[v].sub in s.subs {
      OthersKeepNext(c, s, a, s', s.workers[v].sub);
    }
  }

  /** Two workers past the occurrence check of one subscription would hold the same lock. */
  lemma CommitDisturbsNobody(c: Config, s: State, w: WorkerId, notices: seq<Match>, s': State, v: WorkerId)
    requires WorkersOk(c, s) && Next(c, s, Commit(w, notices), s') && v != w && v in s.workers
    ensures WorkerOk(c, s', v)
  {
    assert WorkerOk(c, s, v) && WorkerOk(c, s, w);
  }

  lemma WorkersStay(c: Config, s: State, a: Action, s': State)
    requires WorkersOk(c, s) && Next(c, s, a, s')
    ensures WorkersOk(c, s')
  {
    hide Next;
    forall v | v in s'.workers ensures WorkerOk(c, s', v) {
      if Actor(a, v) {
        ActorStays(c, s, a, s', v);
      } else {
        NoNewcomers(c, s, a, s', v);
        if a.Commit? {
          CommitDisturbsNobody(c, s, a.w, a.notices, s', v);
        } else {
          OthersUndisturbed(c, s, a, s', v);
          assert WorkerOk(c, s, v);
        }
      }
    }
  }

  lemma NoNewcomers(c: Config, s: State, a: Action, s': State, v: WorkerId)
    requires Next(c, s, a, s') && v in s'.workers && !Actor(a, v)
    ensures v in s.workers
  {
  }

  // ------------------------------------------------------------ committed cycles

  lemma CommitChains(c: Config, s: State, w: WorkerId, notices: seq<Match>, s': State)
    requires StrictlyLater(c) && WorkersOk(c, s) && SubsOk(c, s) && Next(c, s, Commit(w, notices), s')
    ensures var sub := s.workers[w].sub; sub in s'.subs && SubOk(c, s', sub)
  {
    var wk := s.workers[w];
    assert WorkerOk(c, s, w) && SubOk(c, s, wk.sub);
    var b, b' := s.subs[wk.sub], s'.subs[wk.sub];
    assert b'.cycles[..|b'.cycles| - 1] == b.cycles;
    CycleKeepsFeed(c.norm, Feed(s.versions, b.seen, b.inbox), notices, Feed(s.versions, b'.seen, b'.inbox));
  }

  lemma ImportKeepsFeed(c: Config, s: State, versions: Versions, sub: SubId)
    requires OnlyAdds(s.versions, versions) && HashesUnique(versions) && sub in s.subs && SubOk(c, s, sub)
    ensures FeedOk(c.norm, Feed(versions, s.subs[sub].seen, s.subs[sub].inbox))
  {
    var b := s.subs[sub];
    assert b.inbox + [] == b.inbox;
    CycleKeepsFeed(c.norm, Feed(s.versions, b.seen, b.inbox), [], Feed(versions, b.seen, b.inbox));
  }

  /** The other actions change no schedule, cursor or inbox. */
  ghost predicate SubFramed(s: State, s': State, sub: SubId)
    requires sub in s'.subs
  {
    var b' := s'.subs[sub];
    if sub in s.subs
    then b'.next == s.subs[sub].next && b'.seen == s.subs[sub].seen && b'.inbox == s.subs[sub].inbox && b'.cycles == s.subs[sub].cycles
    else b'.seen == map[] && b'.inbox == [] && b'.cycles == []
  }

  lemma FrameOfSub(c: Config, s: State, a: Action, s': State, sub: SubId)
    requires Next(c, s, a, s') && !a.Commit? && sub in s'.subs
    ensures SubFramed(s, s', sub)
  {
  }

  lemma FrameOfVersions(c: Config, s: State, a: Action, s': State)
    requires Next(c, s, a, s')
    ensures OnlyAdds(s.versions, s'.versions) && (HashesUnique(s.versions) ==> HashesUnique(s'.versions))
  {
    if !a.Import? {
      SameVersions(c, s, a, s');
    }
  }

  lemma SameVersions(c: Config, s: State, a: Action, s': State)
    requires Next(c, s, a, s') && !a.Import?
    ensures s'.versions == s.versions
  {
  }

  lemma FrameKeepsSub(c: Config, s: State, s': State, sub: SubId)
    requires SubsOk(c, s) && OnlyAdds(s.versions, s'.versions) && HashesUnique(s'.versions)
    requires sub in s'.subs && SubFramed(s, s', sub)
    ensures SubOk(c, s', sub)
  {
    if sub in s.subs {
      assert SubOk(c, s, sub);
      ImportKeepsFeed(c, s, s'.versions, sub);
    }
  }

  lemma CommitFrame(c: Config, s: State, w: WorkerId, notices: seq<Match>, s': State, sub: SubId)
    requires SubsOk(c, s) && Next(c, s, Commit(w, notices), s') && sub in s'.subs && sub != s.workers[w].sub
    ensures SubOk(c, s', sub)
  {
    assert SubOk(c, s, sub);
  }

  lemma SubsStay(c: Config, s: State, a: Action, s': State)
    requires StrictlyLater(c) && WorkersOk(c, s) && SubsOk(c, s) && Next(c, s, a, s')
    ensures SubsOk(c, s')
  {
    if a.Commit? {
      forall sub | sub in s'.subs ensures SubOk(c, s', sub) {
        if sub == s.workers[a.w].sub {
          CommitChains(c, s, a.w, a.notices, s');
        } else {
          CommitFrame(c, s, a.w, a.notices, s', sub);
        }
      }
    } else {
      hide Next;
      FrameOfVersions(c, s, a, s');
      forall sub | sub in s'.subs ensures SubOk(c, s', sub) {
        FrameOfSub(c, s, a, s', sub);
        FrameKeepsSub(c, s, s', sub);
      }
    }
  }

  lemma {:induction false} Reachable(c: Config, tr: seq<State>, acts: seq<Action>, i: nat)
    requires Behaviour(c, tr, acts) && i < |tr|
    ensures WorkersOk(c, tr[i]) && SubsOk(c, tr[i]) && StartsOk(tr[i])
  {
    if i == 0 {
    } else {
      hide Next, Init, WorkersOk, SubsOk, StartsOk;
      Reachable(c, tr, acts, i - 1);
      WorkersStay(c, tr[i - 1], acts[i - 1], tr[i]);
      SubsStay(c, tr[i - 1], acts[i - 1], tr[i]);
      StartsStay(c, tr[i - 1], acts[i - 1], tr[i]);
    }
  }

  // ------------------------------------------------------------ theorems

  lemma {:induction false} ChainIncreases(cycles: seq<Committed>, next: int, i: nat, j: nat)
    requires Chained(cycles, next) && i < j < |cycles|
    ensures cycles[i].at < cycles[j].at
    decreases j
  {
    if i < j - 1 {
      ChainIncreases(cycles, next, i, j - 1);
    }
  }

  /** Exactly-once occurrences: the committed cycles of a subscription have strictly increasing
      occurrences, all before the stored next run, and together they account for the whole inbox and
      the seen cursor, so events, cursor and schedule are committed together and once. */
  lemma OccurrencesCommitOnce(c: Config, tr: seq<State>, acts: seq<Action>, i: nat, sub: SubId)
    requires Behaviour(c, tr, acts) && i < |tr| && sub in tr[i].subs
    ensures var b := tr[i].subs[sub];
      && (forall j, k :: 0 <= j < k < |b.cycles| ==> b.cycles[j].at < b.cycles[k].at)
      && (forall j :: 0 <= j < |b.cycles| ==> b.cycles[j].at < b.next)
      && b.inbox == AllEmitted(b.cycles)
      && b.seen == (if b.cycles == [] then map[] else b.cycles[|b.cycles| - 1].seen)
  {
    Reachable(c, tr, acts, i);
    var b := tr[i].subs[sub];
    assert SubOk(c, tr[i], sub);
    forall j, k | 0 <= j < k < |b.cycles| ensures b.cycles[j].at < b.cycles[k].at {
      ChainIncreases(b.cycles, b.next, j, k);
    }
    forall j | 0 <= j < |b.cycles| ensures b.cycles[j].at < b.next {
      if j < |b.cycles| - 1 {
        ChainIncreases(b.cycles, b.next, j, |b.cycles| - 1);
      }
    }
  }

  /** In every reachable state every subscription's inbox telescopes. */
  lemma InboxesTelescope(c: Config, tr: seq<State>, acts: seq<Action>, i: nat, sub: SubId)
    requires Behaviour(c, tr, acts) && i < |tr| && sub in tr[i].subs
    ensures FeedOk(c.norm, Feed(tr[i].versions, tr[i].subs[sub].seen, tr[i].subs[sub].inbox))
  {
    Reachable(c, tr, acts, i);
    assert SubOk(c, tr[i], sub);
  }

  /** The bridge starts at most one graph execution for any scheduled run, hence for any occurrence. */
  lemma OneExecutionPerOccurrence(c: Config, tr: seq<State>, acts: seq<Action>, i: nat, key: RunKey)
    requires Behaviour(c, tr, acts) && i < |tr| && key in tr[i].starts
    ensures tr[i].starts[key] <= 1
  {
    Reachable(c, tr, acts, i);
  }

  lemma ScheduleStep(c: Config, s: State, a: Action, s': State, sub: SubId)
    requires StrictlyLater(c) && WorkersOk(c, s) && Next(c, s, a, s') && sub in s.subs
    ensures sub in s'.subs && s.subs[sub].cycles <= s'.subs[sub].cycles
    ensures s'.subs[sub].cycles == s.subs[sub].cycles ==>
      s'.subs[sub].next == s.subs[sub].next && s'.subs[sub].inbox == s.subs[sub].inbox && s'.subs[sub].seen == s.subs[sub].seen
    ensures s'.subs[sub].cycles != s.subs[sub].cycles ==>
      s.subs[sub].next < s'.subs[sub].next && |s'.subs[sub].cycles| == |s.subs[sub].cycles| + 1
  {
    if a.Commit? {
      assert WorkerOk(c, s, a.w);
    } else {
      OthersKeepNext(c, s, a, s', sub);
      FrameOfSub(c, s, a, s', sub);
    }
  }

  /** The stored next run, the inbox and the seen cursor move only together, with one committed cycle,
      and the next run then strictly increases. */
  lemma EffectsMoveTogether(c: Config, tr: seq<State>, acts: seq<Action>, i: nat, sub: SubId)
    requires Behaviour(c, tr, acts) && i < |acts| && sub in tr[i].subs
    ensures sub in tr[i + 1].subs
    ensures var b, b' := tr[i].subs[sub], tr[i + 1].subs[sub];
      if b'.cycles == b.cycles
      then b'.next == b.next && b'.inbox == b.inbox && b'.seen == b.seen
      else b.next < b'.next && b.cycles <= b'.cycles && |b'.cycles| == |b.cycles| + 1
  {
    hide Next, Init, WorkersOk, SubsOk, StartsOk;
    Reachable(c, tr, acts, i);
    ScheduleStep(c, tr[i], acts[i], tr[i + 1], sub);
  }
}
