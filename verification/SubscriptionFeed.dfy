/** A subscription's inbox over many cycles: nothing is announced twice, and formatting-only
    steps never add up to a material change that is not reported. */
module SubscriptionFeed {
  import opened Prelude
  import opened SubscriptionDiff

  datatype Feed = Feed(versions: Versions, seen: map<SourceId, Hash>, inbox: seq<Emission>)

  /** How often a notice was announced as new. */
  function Announced(inbox: seq<Emission>, id: SourceId): nat {
    if inbox == [] then 0
    else
      var e := inbox[|inbox| - 1];
      Announced(inbox[..|inbox| - 1], id) + (if e.id == id && e.kind == NewNotice then 1 else 0)
  }

  /** The version behind the latest event about a notice. */
  function LastTold(inbox: seq<Emission>, id: SourceId): Option<NoticeView> {
    if inbox == [] then None
    else if inbox[|inbox| - 1].id == id then Some(inbox[|inbox| - 1].view)
    else LastTold(inbox[..|inbox| - 1], id)
  }

  /** What the inbox says about a notice agrees with the seen cursor. */
  ghost predicate Told(norm: Normalizer, f: Feed, id: SourceId) {
    if id in f.seen then
      && Announced(f.inbox, id) == 1
      && SeenView(f.versions, f.seen, id).Some?
      && LastTold(f.inbox, id).Some?
      && Material(norm, LastTold(f.inbox, id).value) == Material(norm, SeenView(f.versions, f.seen, id).value)
    else
      Announced(f.inbox, id) == 0 && LastTold(f.inbox, id).None?
  }

  ghost predicate FeedOk(norm: Normalizer, f: Feed) {
    HashesUnique(f.versions) && forall id :: Told(norm, f, id)
  }

  /** Some imports, then one successful cycle. */
  ghost predicate CycleStep(norm: Normalizer, f: Feed, notices: seq<Match>, f': Feed) {
    && OnlyAdds(f.versions, f'.versions) && HashesUnique(f'.versions)
    && Latest(f'.versions, notices)
    && f'.seen == Advanced(f.seen, notices)
    && f'.inbox == f.inbox + Emissions(norm, f'.versions, f.seen, notices)
  }

  // ------------------------------------------------------------ one cycle

  lemma AppendOne(inbox: seq<Emission>, more: seq<Emission>, e: Emission, id: SourceId)
    ensures Announced(inbox + (more + [e]), id)
         == Announced(inbox + more, id) + (if e.id == id && e.kind == NewNotice then 1 else 0)
    ensures LastTold(inbox + (more + [e]), id) == if e.id == id then Some(e.view) else LastTold(inbox + more, id)
  {
    var all := inbox + (more + [e]);
    assert all[..|all| - 1] == inbox + more;
  }

  /** A cycle tells nothing about a notice it does not contain. */
  lemma {:induction false} Untouched(norm: Normalizer, versions: Versions, seen: map<SourceId, Hash>,
                                     inbox: seq<Emission>, notices: seq<Match>, id: SourceId)
    requires forall m :: m in notices ==> m.id != id
    ensures var all := inbox + Emissions(norm, versions, seen, notices);
      Announced(all, id) == Announced(inbox, id) && LastTold(all, id) == LastTold(inbox, id)
    ensures id in Advanced(seen, notices) <==> id in seen
    ensures id in seen ==> Advanced(seen, notices)[id] == seen[id]
  {
    if notices == [] {
      assert inbox + [] == inbox;
    } else {
      var front, last := notices[..|notices| - 1], notices[|notices| - 1];
      Untouched(norm, versions, seen, inbox, front, id);
      var more := Emissions(norm, versions, seen, front);
      var one := Emit(norm, SeenView(versions, seen, last.id), last);
      assert last.id != id;
      if one == [] {
        assert more + one == more;
      } else {
        assert one == [one[0]];
        AppendOne(inbox, more, one[0], id);
      }
    }
  }

  /** What a cycle tells about a notice it contains: decided by the previously seen version alone. */
  lemma {:induction false} Touched(norm: Normalizer, versions: Versions, seen: map<SourceId, Hash>,
                                   inbox: seq<Emission>, notices: seq<Match>, k: nat)
    requires k < |notices|
    requires forall i, j :: 0 <= i < j < |notices| ==> notices[i].id != notices[j].id
    ensures var m := notices[k];
      var verdict := Classify(norm, SeenView(versions, seen, m.id), m.view);
      var all := inbox + Emissions(norm, versions, seen, notices);
      && Announced(all, m.id) == Announced(inbox, m.id) + (if verdict == IsNew then 1 else 0)
      && LastTold(all, m.id) == (if verdict == IsUnchanged then LastTold(inbox, m.id) else Some(m.view))
      && m.id in Advanced(seen, notices) && Advanced(seen, notices)[m.id] == m.view.contentHash
  {
    var m := notices[k];
    var front, last := notices[..|notices| - 1], notices[|notices| - 1];
    var more := Emissions(norm, versions, seen, front);
    var one := Emit(norm, SeenView(versions, seen, last.id), last);
    if k < |front| {
      Touched(norm, versions, seen, inbox, front, k);
      assert last.id != m.id;
    } else {
      Untouched(norm, versions, seen, inbox, front, m.id);
    }
    if one == [] {
      assert more + one == more;
    } else {
      assert one == [one[0]];
      AppendOne(inbox, more, one[0], m.id);
    }
  }

  /** Adding versions does not change what a seen hash stands for. */
  lemma {:induction false} LookupStable(history: seq<NoticeView>, history': seq<NoticeView>, hash: Hash)
    requires history <= history' && Lookup(history, hash).Some?
    requires forall i, j :: 0 <= i < j < |history'| ==> history'[i].contentHash != history'[j].contentHash
    ensures Lookup(history', hash) == Lookup(history, hash)
  {
    LookupOf(history', Lookup(history, hash).value);
  }

  lemma SeenViewStable(versions: Versions, versions': Versions, seen: map<SourceId, Hash>, id: SourceId)
    requires OnlyAdds(versions, versions') && HashesUnique(versions') && SeenView(versions, seen, id).Some?
    ensures SeenView(versions', seen, id) == SeenView(versions, seen, id)
  {
    LookupStable(versions[id], versions'[id], seen[id]);
  }

  /** The cursor of a matched notice now stands for the matched view. */
  lemma MatchedView(versions: Versions, notices: seq<Match>, seen: map<SourceId, Hash>, m: Match)
    requires HashesUnique(versions) && Latest(versions, notices) && m in notices
    requires m.id in seen && seen[m.id] == m.view.contentHash
    ensures SeenView(versions, seen, m.id) == Some(m.view)
  {
    LookupOf(versions[m.id], m.view);
  }

  lemma CycleTells(norm: Normalizer, f: Feed, notices: seq<Match>, f': Feed, id: SourceId)
    requires Told(norm, f, id) && CycleStep(norm, f, notices, f')
    ensures Told(norm, f', id)
  {
    if id in f.seen {
      SeenViewStable(f.versions, f'.versions, f.seen, id);
    }
    if k: nat :| k < |notices| && notices[k].id == id {
      Touched(norm, f'.versions, f.seen, f.inbox, notices, k);
      MatchedView(f'.versions, notices, f'.seen, notices[k]);
      if id in f.seen && f.seen[id] == notices[k].view.contentHash {
        MatchedView(f'.versions, notices, f.seen, notices[k]);
      }
    } else {
      Untouched(norm, f'.versions, f.seen, f.inbox, notices, id);
      if id in f.seen {
        assert SeenView(f'.versions, f'.seen, id) == SeenView(f'.versions, f.seen, id);
      }
    }
  }

  /** The telescoping invariant survives every cycle. */
  lemma CycleKeepsFeed(norm: Normalizer, f: Feed, notices: seq<Match>, f': Feed)
    requires FeedOk(norm, f) && CycleStep(norm, f, notices, f')
    ensures FeedOk(norm, f')
  {
    forall id ensures Told(norm, f', id) {
      CycleTells(norm, f, notices, f', id);
    }
  }

  // ------------------------------------------------------------ many cycles

  ghost predicate Cycles(norm: Normalizer, feeds: seq<Feed>, rounds: seq<seq<Match>>) {
    && |feeds| == |rounds| + 1
    && feeds[0].seen == map[] && feeds[0].inbox == [] && HashesUnique(feeds[0].versions)
    && forall i :: 0 <= i < |rounds| ==> CycleStep(norm, feeds[i], rounds[i], feeds[i + 1])
  }

  /** Telescoping: after any number of cycles every seen notice was announced exactly once, an unseen
      one never, and the material projection of its seen version is the one its latest event reported. */
  lemma {:induction false} FeedsTelescope(norm: Normalizer, feeds: seq<Feed>, rounds: seq<seq<Match>>, i: nat)
    requires Cycles(norm, feeds, rounds) && i < |feeds|
    ensures FeedOk(norm, feeds[i])
  {
    if i == 0 {
    } else {
      FeedsTelescope(norm, feeds, rounds, i - 1);
      CycleKeepsFeed(norm, feeds[i - 1], rounds[i - 1], feeds[i]);
    }
  }

  /** A known notice gets an event in a cycle exactly when it now differs materially from what its
      latest event reported, however many formatting-only versions lie in between. */
  lemma ReportedExactlyWhenChanged(norm: Normalizer, f: Feed, notices: seq<Match>, f': Feed, k: nat)
    requires FeedOk(norm, f) && CycleStep(norm, f, notices, f') && k < |notices| && notices[k].id in f.seen
    ensures LastTold(f.inbox, notices[k].id).Some?
    ensures
      (Classify(norm, SeenView(f'.versions, f.seen, notices[k].id), notices[k].view) == IsMaterial)
      <==> (Material(norm, notices[k].view) != Material(norm, LastTold(f.inbox, notices[k].id).value))
  {
    var m := notices[k];
    assert Told(norm, f, m.id);
    SeenViewStable(f.versions, f'.versions, f.seen, m.id);
    if f.seen[m.id] == m.view.contentHash {
      MatchedView(f'.versions, notices, f.seen, m);
    }
  }

  lemma {:induction false} NothingToEmit(norm: Normalizer, versions: Versions, seen: map<SourceId, Hash>,
                                         notices: seq<Match>)
    requires forall m :: m in notices ==> SeenView(versions, seen, m.id) == Some(m.view)
    ensures Emissions(norm, versions, seen, notices) == []
    ensures Count(norm, versions, seen, notices, IsUnchanged) == |notices|
  {
    if notices != [] {
      NothingToEmit(norm, versions, seen, notices[..|notices| - 1]);
    }
  }

  /** Running the same cycle again emits nothing and counts every notice as unchanged. */
  lemma IdenticalRerunIsSilent(norm: Normalizer, f: Feed, notices: seq<Match>, f': Feed)
    requires CycleStep(norm, f, notices, f')
    ensures Emissions(norm, f'.versions, f'.seen, notices) == []
    ensures Count(norm, f'.versions, f'.seen, notices, IsUnchanged) == |notices|
  {
    forall m | m in notices ensures SeenView(f'.versions, f'.seen, m.id) == Some(m.view) {
      var k :| 0 <= k < |notices| && notices[k] == m;
      Touched(norm, f'.versions, f.seen, f.inbox, notices, k);
      MatchedView(f'.versions, notices, f'.seen, m);
    }
    NothingToEmit(norm, f'.versions, f'.seen, notices);
  }
}
