/** Scheduled cycles over whole behaviours: who may commit, what a commit writes, when a subscription is paused,
    and how often an occurrence's graph is started. */
module OccurrenceRuns {
  import opened Prelude
  import opened SubscriptionDiff
  import opened SubscriptionFeed
  import opened OccurrenceProtocol

  /** The worker acts for the subscription. */
  predicate ActsFor(s: State, w: WorkerId, sub: SubId) {
    w in s.workers && s.workers[w].sub == sub
  }

  // ------------------------------------------------------------ before a commit

  /** The check found the subscription active and this very occurrence due. */
  predicate SawDue(s: State, a: Action, w: WorkerId, sub: SubId, at: int) {
    && a == Check(w) && sub in s.subs && s.subs[sub].active && s.subs[sub].next == at
  }

  lemma WorkStep(c: Config, s: State, a: Action, s': State, w: WorkerId)
    requires Next(c, s, a, s') && w in s'.workers && Working(s'.workers[w].pc)
    ensures w in s.workers && s'.workers[w].sub == s.workers[w].sub && s'.workers[w].at == s.workers[w].at
    ensures SawDue(s, a, w, s.workers[w].sub, s.workers[w].at) || Working(s.workers[w].pc)
  {
  }

  lemma NobodyAtFirst(c: Config, tr: seq<State>, acts: seq<Action>)
    requires Behaviour(c, tr, acts)
    ensures tr[0].workers == map[] && tr[0].subs == map[] && tr[0].starts == map[]
  {
  }

  /** Whoever works on an occurrence once checked, under its lock, that the subscription was active and that
      the occurrence was the stored next run. */
  lemma {:induction false} CheckedBefore(c: Config, tr: seq<State>, acts: seq<Action>, i: nat, w: WorkerId) returns (j: nat)
    requires Behaviour(c, tr, acts) && i < |tr| && w in tr[i].workers && Working(tr[i].workers[w].pc)
    ensures j < i && SawDue(tr[j], acts[j], w, tr[i].workers[w].sub, tr[i].workers[w].at)
    ensures w in tr[j].workers && HasLock(c, tr[j], tr[j].workers[w], w)
    decreases i
  {
    hide Next, WorkersOk, SubsOk, StartsOk;
    NobodyAtFirst(c, tr, acts);
    WorkStep(c, tr[i - 1], acts[i - 1], tr[i], w);
    var wk := tr[i - 1].workers[w];
    if SawDue(tr[i - 1], acts[i - 1], w, wk.sub, wk.at) {
      j := i - 1;
      Reachable(c, tr, acts, i - 1);
      CheckerHasLock(c, tr[i - 1], acts[i - 1], tr[i], w);
    } else {
      j := CheckedBefore(c, tr, acts, i - 1, w);
    }
  }

  lemma CheckerHasLock(c: Config, s: State, a: Action, s': State, w: WorkerId)
    requires WorkersOk(c, s) && Next(c, s, a, s') && a == Check(w)
    ensures w in s.workers && HasLock(c, s, s.workers[w], w)
  {
    assert WorkerOk(c, s, w);
  }

  /** The report of the worker's scheduled run, as delivered, cites these notices. */
  predicate SawReport(s: State, a: Action, w: WorkerId, sub: SubId, at: int, cited: set<SourceId>) {
    a == LoadReport(w) && RunKey(sub, at / 60) in s.runs && s.runs[RunKey(sub, at / 60)] == Some(cited)
  }

  lemma LoadStep(c: Config, s: State, a: Action, s': State, w: WorkerId)
    requires Next(c, s, a, s') && w in s'.workers && s'.workers[w].pc.Diffing?
    ensures w in s.workers && s'.workers[w].sub == s.workers[w].sub && s'.workers[w].at == s.workers[w].at
    ensures SawReport(s, a, w, s.workers[w].sub, s.workers[w].at, s'.workers[w].pc.cited) || s.workers[w].pc == s'.workers[w].pc
  {
  }

  /** Whoever diffs has loaded the delivered report of the run of its own subscription and minute. */
  lemma {:induction false} LoadedBefore(c: Config, tr: seq<State>, acts: seq<Action>, i: nat, w: WorkerId) returns (j: nat)
    requires Behaviour(c, tr, acts) && i < |tr| && w in tr[i].workers && tr[i].workers[w].pc.Diffing?
    ensures j < i && SawReport(tr[j], acts[j], w, tr[i].workers[w].sub, tr[i].workers[w].at, tr[i].workers[w].pc.cited)
    decreases i
  {
    hide Next;
    NobodyAtFirst(c, tr, acts);
    LoadStep(c, tr[i - 1], acts[i - 1], tr[i], w);
    var wk := tr[i - 1].workers[w];
    if SawReport(tr[i - 1], acts[i - 1], w, wk.sub, wk.at, tr[i].workers[w].pc.cited) {
      j := i - 1;
    } else {
      j := LoadedBefore(c, tr, acts, i - 1, w);
    }
  }

  // ------------------------------------------------------------ what a commit writes

  lemma CommitStep(c: Config, s: State, a: Action, s': State, sub: SubId)
    requires WorkersOk(c, s) && Next(c, s, a, s') && sub in s.subs && sub in s'.subs && s'.subs[sub].cycles != s.subs[sub].cycles
    ensures a.Commit? && ActsFor(s, a.w, sub) && s.workers[a.w].pc.Diffing? && s.workers[a.w].at == s.subs[sub].next
    ensures Latest(s.versions, a.notices) && forall m :: m in a.notices ==> m.id in s.workers[a.w].pc.cited
    ensures var b, b' := s.subs[sub], s'.subs[sub];
      && b'.next == c.nextRun(sub, b.next) && b'.failures == 0 && b'.active == b.active
      && b'.inbox == b.inbox + Emissions(c.norm, s.versions, b.seen, a.notices)
      && b'.seen == Advanced(b.seen, a.notices)
      && b'.cycles == b.cycles + [Committed(b.next, b'.inbox[|b.inbox|..], b'.seen, b'.next)]
  {
    hide Latest, HasLock;
    if a.Commit? {
      assert WorkerOk(c, s, a.w);
      var wk := s.workers[a.w];
      assert forall m :: m in a.notices ==> m.id in (set x | x in a.notices :: x.id);
      if wk.sub == sub {
        var b, b' := s.subs[sub], s'.subs[sub];
        assert b'.inbox[|b.inbox|..] == Emissions(c.norm, s.versions, b.seen, a.notices);
      }
    } else {
      FrameOfSub(c, s, a, s', sub);
    }
  }

  /** What a committed cycle says about one notice of its report: announced when unknown, told as changed
      exactly when its content and a watched field moved, and from then on seen at its latest version. */
  ghost predicate ToldAbout(norm: Normalizer, versions: Versions, b: Sub, b': Sub, m: Match)
    requires |b.inbox| <= |b'.inbox|
  {
    var events := b'.inbox[|b.inbox|..];
    && m.id in b'.seen && b'.seen[m.id] == m.view.contentHash
    && (m.id !in b.seen || m.id !in versions || (forall v :: v in versions[m.id] ==> v.contentHash != b.seen[m.id]) ==>
          Emission(NewNotice, m.id, m.view) in events && Emission(MaterialChange, m.id, m.view) !in events)
    && (forall known :: m.id in b.seen && m.id in versions && known in versions[m.id] && known.contentHash == b.seen[m.id] ==>
          && (Emission(MaterialChange, m.id, m.view) in events
              <==> known.contentHash != m.view.contentHash && MovedSomewhere(norm, known, m.view))
          && Emission(NewNotice, m.id, m.view) !in events)
  }

  lemma NoticeTold(norm: Normalizer, versions: Versions, b: Sub, b': Sub, notices: seq<Match>, k: nat)
    requires HashesUnique(versions) && Latest(versions, notices) && k < |notices| && |b.inbox| <= |b'.inbox|
    requires b'.inbox[|b.inbox|..] == Emissions(norm, versions, b.seen, notices) && b'.seen == Advanced(b.seen, notices)
    ensures ToldAbout(norm, versions, b, b', notices[k])
  {
    hide MovedSomewhere, Emissions, Advanced;
    var m := notices[k];
    assert m in notices;
    CursorIsLastMatch(b.seen, notices, k);
    if m.id !in b.seen || m.id !in versions || forall v :: v in versions[m.id] ==> v.contentHash != b.seen[m.id] {
      UnknownIsToldAsNew(norm, versions, b.seen, notices, m);
    }
    forall known | m.id in b.seen && m.id in versions && known in versions[m.id] && known.contentHash == b.seen[m.id]
      ensures
        && (Emission(MaterialChange, m.id, m.view) in b'.inbox[|b.inbox|..]
            <==> known.contentHash != m.view.contentHash && MovedSomewhere(norm, known, m.view))
        && Emission(NewNotice, m.id, m.view) !in b'.inbox[|b.inbox|..]
    {
      KnownIsToldExactlyWhenMoved(norm, versions, b.seen, notices, m, known);
    }
  }

  /** A committed cycle, over whole behaviours: it is the work of one worker that found this occurrence due and
      loaded the delivered report of its minute; it tells about notices of that report only, each as it must;
      and it schedules the next run after this occurrence, with no failures counted. */
  lemma CommitIsOneCycle(c: Config, tr: seq<State>, acts: seq<Action>, i: nat, sub: SubId) returns (checked: nat, loaded: nat)
    requires Behaviour(c, tr, acts) && i < |acts| && sub in tr[i].subs && sub in tr[i + 1].subs
    requires tr[i + 1].subs[sub].cycles != tr[i].subs[sub].cycles
    ensures acts[i].Commit? && ActsFor(tr[i], acts[i].w, sub) && tr[i].workers[acts[i].w].pc.Diffing?
    ensures checked < i && SawDue(tr[checked], acts[checked], acts[i].w, sub, tr[i].subs[sub].next)
    ensures loaded < i && SawReport(tr[loaded], acts[loaded], acts[i].w, sub, tr[i].subs[sub].next, tr[i].workers[acts[i].w].pc.cited)
    ensures var b, b' := tr[i].subs[sub], tr[i + 1].subs[sub];
      && b'.next == c.nextRun(sub, b.next) && b'.failures == 0 && b'.active == b.active
      && b.inbox <= b'.inbox
      && b'.cycles == b.cycles + [Committed(b.next, b'.inbox[|b.inbox|..], b'.seen, b'.next)]
      && (forall k :: 0 <= k < |acts[i].notices| ==>
            && acts[i].notices[k].id in tr[i].workers[acts[i].w].pc.cited
            && ToldAbout(c.norm, tr[i].versions, b, b', acts[i].notices[k]))
      && (forall e :: e in b'.inbox[|b.inbox|..] ==> Match(e.id, e.view) in acts[i].notices)
      && (forall id :: (forall m :: m in acts[i].notices ==> m.id != id) ==>
            (id in b'.seen <==> id in b.seen) && (id in b.seen ==> b'.seen[id] == b.seen[id]))
  {
    hide Next, WorkersOk, SubsOk, StartsOk, ToldAbout, SawDue, SawReport, Latest, Emissions, Advanced;
    Reachable(c, tr, acts, i);
    CommitStep(c, tr[i], acts[i], tr[i + 1], sub);
    var w, notices := acts[i].w, acts[i].notices;
    var b, b' := tr[i].subs[sub], tr[i + 1].subs[sub];
    checked := CheckedBefore(c, tr, acts, i, w);
    loaded := LoadedBefore(c, tr, acts, i, w);
    UniqueHashes(c, tr[i]);
    assert b'.inbox[|b.inbox|..] == Emissions(c.norm, tr[i].versions, b.seen, notices);
    forall k | 0 <= k < |notices|
      ensures notices[k].id in tr[i].workers[w].pc.cited && ToldAbout(c.norm, tr[i].versions, b, b', notices[k])
    {
      assert notices[k] in notices;
      NoticeTold(c.norm, tr[i].versions, b, b', notices, k);
    }
    forall e | e in b'.inbox[|b.inbox|..] ensures Match(e.id, e.view) in notices {
      RaisedFor(c.norm, tr[i].versions, b.seen, notices, e);
    }
    forall id | forall m :: m in notices ==> m.id != id
      ensures (id in b'.seen <==> id in b.seen) && (id in b.seen ==> b'.seen[id] == b.seen[id])
    {
      CursorStays(b.seen, notices, id);
    }
  }

  lemma UniqueHashes(c: Config, s: State)
    requires SubsOk(c, s)
    ensures HashesUnique(s.versions)
  {
  }

  // ------------------------------------------------------------ failures

  /** Failures recorded for the subscription since its last commit. */
  function FailuresSince(tr: seq<State>, acts: seq<Action>, i: nat, sub: SubId): nat
    requires i <= |acts| <= |tr|
  {
    if i == 0 then 0
    else
      var s, a := tr[i - 1], acts[i - 1];
      if a.Commit? && ActsFor(s, a.w, sub) then 0
      else if a.Fail? && ActsFor(s, a.w, sub) then FailuresSince(tr, acts, i - 1, sub) + 1
      else FailuresSince(tr, acts, i - 1, sub)
  }

  lemma FailureStep(c: Config, s: State, a: Action, s': State, sub: SubId)
    requires Next(c, s, a, s') && sub in s'.subs
    ensures sub !in s.subs ==> !(a.Commit? && ActsFor(s, a.w, sub)) && !(a.Fail? && ActsFor(s, a.w, sub))
    ensures sub !in s.subs ==> s'.subs[sub].failures == 0 && s'.subs[sub].active
    ensures sub in s.subs ==>
      var b, b' := s.subs[sub], s'.subs[sub];
      if a.Commit? && ActsFor(s, a.w, sub) then b'.failures == 0 && b'.active == b.active
      else if a.Fail? && ActsFor(s, a.w, sub) then b'.failures == b.failures + 1 && b'.active == (b.active && b.failures < 2)
      else b'.failures == b.failures && b'.active == b.active
  {
  }

  lemma SubsStayListed(c: Config, s: State, a: Action, s': State, sub: SubId)
    requires Next(c, s, a, s') && sub in s.subs
    ensures sub in s'.subs
  {
  }

  lemma NothingFailsYet(c: Config, s: State, a: Action, s': State, sub: SubId)
    requires Next(c, s, a, s') && sub !in s.subs
    ensures !(a.Commit? && ActsFor(s, a.w, sub)) && !(a.Fail? && ActsFor(s, a.w, sub))
  {
  }

  lemma {:induction false} UnlistedHasNoFailures(c: Config, tr: seq<State>, acts: seq<Action>, i: nat, k: nat, sub: SubId)
    requires Behaviour(c, tr, acts) && k <= i < |tr| && sub !in tr[i].subs
    ensures FailuresSince(tr, acts, k, sub) == 0
    decreases i, k
  {
    hide Next, ActsFor;
    if k < i {
      if sub in tr[i - 1].subs {
        SubsStayListed(c, tr[i - 1], acts[i - 1], tr[i], sub);
      }
      UnlistedHasNoFailures(c, tr, acts, i - 1, k, sub);
    } else if k > 0 {
      if sub in tr[i - 1].subs {
        SubsStayListed(c, tr[i - 1], acts[i - 1], tr[i], sub);
      }
      UnlistedHasNoFailures(c, tr, acts, i - 1, k - 1, sub);
      NothingFailsYet(c, tr[i - 1], acts[i - 1], tr[i], sub);
    }
  }

  /** A subscription is paused exactly by its third failure without a commit between, and stays paused. */
  lemma {:induction false} ThreeFailuresPause(c: Config, tr: seq<State>, acts: seq<Action>, i: nat, sub: SubId)
    requires Behaviour(c, tr, acts) && i < |tr| && sub in tr[i].subs
    ensures tr[i].subs[sub].failures == FailuresSince(tr, acts, i, sub)
    ensures tr[i].subs[sub].active <==> forall k :: 0 <= k <= i ==> FailuresSince(tr, acts, k, sub) < 3
    decreases i
  {
    hide Next, ActsFor;
    NobodyAtFirst(c, tr, acts);
    FailureStep(c, tr[i - 1], acts[i - 1], tr[i], sub);
    if sub in tr[i - 1].subs {
      ThreeFailuresPause(c, tr, acts, i - 1, sub);
      assert tr[i].subs[sub].active <==> tr[i - 1].subs[sub].active && FailuresSince(tr, acts, i, sub) < 3;
    } else {
      forall k | 0 <= k <= i - 1 ensures FailuresSince(tr, acts, k, sub) == 0 {
        UnlistedHasNoFailures(c, tr, acts, i - 1, k, sub);
      }
    }
  }

  // ------------------------------------------------------------ starts

  lemma StartCounts(c: Config, s: State, a: Action, s': State, key: RunKey)
    requires Next(c, s, a, s')
    ensures key in s.starts ==> key in s'.starts && s.starts[key] <= s'.starts[key]
    ensures a.Start? && a.w in s.workers && key == RunKey(s.workers[a.w].sub, s.workers[a.w].at / 60) ==>
      key in s'.starts && s'.starts[key] == (if key in s.starts then s.starts[key] else 0) + 1
    ensures a.Start? ==> a.w in s.workers
  {
  }

  lemma {:induction false} StartsStayCounted(c: Config, tr: seq<State>, acts: seq<Action>, i: nat, j: nat, key: RunKey)
    requires Behaviour(c, tr, acts) && i <= j < |tr| && key in tr[i].starts
    ensures key in tr[j].starts && tr[i].starts[key] <= tr[j].starts[key]
    decreases j
  {
    hide Next;
    if i < j {
      StartsStayCounted(c, tr, acts, i, j - 1, key);
      StartCounts(c, tr[j - 1], acts[j - 1], tr[j], key);
    }
  }

  /** Two graph starts in one behaviour are never for the same subscription and the same minute. */
  lemma StartsAreApart(c: Config, tr: seq<State>, acts: seq<Action>, i: nat, j: nat)
    requires Behaviour(c, tr, acts) && i < j < |acts| && acts[i].Start? && acts[j].Start?
    ensures acts[i].w in tr[i].workers && acts[j].w in tr[j].workers
    ensures
      var v, w := tr[i].workers[acts[i].w], tr[j].workers[acts[j].w];
      v.sub != w.sub || v.at / 60 != w.at / 60
  {
    hide Next;
    StartCounts(c, tr[i], acts[i], tr[i + 1], RunKey(0, 0));
    StartCounts(c, tr[j], acts[j], tr[j + 1], RunKey(0, 0));
    var v, w := tr[i].workers[acts[i].w], tr[j].workers[acts[j].w];
    if v.sub == w.sub && v.at / 60 == w.at / 60 {
      var key := RunKey(v.sub, v.at / 60);
      StartCounts(c, tr[i], acts[i], tr[i + 1], key);
      StartsStayCounted(c, tr, acts, i + 1, j, key);
      StartCounts(c, tr[j], acts[j], tr[j + 1], key);
      OneExecutionPerOccurrence(c, tr, acts, j + 1, key);
    }
  }
}
