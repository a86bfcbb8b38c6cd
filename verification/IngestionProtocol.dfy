/** Interleaved acquisition runs over one stored cursor. */
module IngestionProtocol {
  import opened Prelude
  import opened IngestionRun

  /** A run between its first read of the cursor and its settling. */
  datatype Flight = Flight(before: string, steps: seq<Step>, settled: bool)

  /** The stored cursor, the runs, and the pages of all runs that succeeded so far. */
  datatype State = State(value: string, runs: map<nat, Flight>, trail: seq<Step>)

  datatype Action =
    | Begin(run: nat)
    | Import(run: nat, step: Step)              // one more page fetched, materialized and imported
    | Settle(run: nat, current: bool, end: End) // the settling transaction
    | Crash(run: nat)

  ghost predicate Continues(f: Flight, step: Step) {
    Chain(f.before, f.steps + [step]) && step.page.next != Some("")
  }

  ghost predicate Next(s: State, a: Action, s': State) {
    match a
    case Begin(r) => r !in s.runs && s' == s.(runs := s.runs[r := Flight(s.value, [], false)])
    case Import(r, step) =>
      && r in s.runs && !s.runs[r].settled && Continues(s.runs[r], step)
      && s' == s.(runs := s.runs[r := s.runs[r].(steps := s.runs[r].steps + [step])])
    case Settle(r, current, end) =>
      && r in s.runs && !s.runs[r].settled
      && var f := s.runs[r];
         && (end.Reached? <==> Complete(f.before, f.steps))
         && (end.Reached? ==> end.cursor == After(f.before, f.steps))
         && (end.Stopped? ==> end.status != Success)
         && var after := SettleTx(s.value, current, f.before, end);
            s' == State(after.0, s.runs[r := f.(settled := true)],
                        if after.1 == Success then s.trail + f.steps else s.trail)
    case Crash(r) => r in s.runs && s' == s.(runs := s.runs[r := s.runs[r].(settled := true)])
  }

  ghost predicate Behaviour(tr: seq<State>, acts: seq<Action>) {
    && |tr| == |acts| + 1
    && tr[0] == State("", map[], [])
    && forall i :: 0 <= i < |acts| ==> Next(tr[i], acts[i], tr[i + 1])
  }

  /** The pages lead from an empty cursor to `at`: each was requested with the cursor the pages before it
      lead to. */
  ghost predicate Leads(trail: seq<Step>, at: string) {
    if trail == [] then at == ""
    else
      var front, last := trail[..|trail| - 1], trail[|trail| - 1];
      exists pos :: Leads(front, pos) && last.request == Request(pos)
                 && at == if last.page.next.Some? then last.page.next.value else pos
  }

  ghost predicate FlightOk(f: Flight) {
    Chain(f.before, f.steps) && forall k :: 0 <= k < |f.steps| ==> f.steps[k].page.next != Some("")
  }

  ghost predicate Inv(s: State) {
    Leads(s.trail, s.value) && forall r :: r in s.runs ==> FlightOk(s.runs[r])
  }

  /** A chain from the end of a trail prolongs the trail to the end of the chain. */
  lemma {:induction false} ChainProlongs(trail: seq<Step>, before: string, steps: seq<Step>)
    requires Leads(trail, before) && FlightOk(Flight(before, steps, false))
    ensures Leads(trail + steps, After(before, steps))
  {
    if steps == [] {
      assert trail + steps == trail;
    } else {
      var n := |steps| - 1;
      var front, last := steps[..n], steps[n];
      assert FlightOk(Flight(before, front, false));
      ChainProlongs(trail, before, front);
      assert (trail + steps)[..|trail + steps| - 1] == trail + front;
      if n > 0 {
        assert steps[n - 1].page.next.Some? && last.request == steps[n - 1].page.next;
      }
      assert last.request == Request(After(before, front));
    }
  }

  lemma NextKeepsInv(s: State, a: Action, s': State)
    requires Inv(s) && Next(s, a, s')
    ensures Inv(s')
  {
    hide Leads, Chain, Complete;
    match a
    case Begin(r) => EmptyChain(s.value);
    case Settle(r, current, end) =>
      if s'.value != s.value || s'.trail != s.trail {
        ChainProlongs(s.trail, s.value, s.runs[r].steps);
      }
    case Import(_, _) =>
    case Crash(_) =>
  }

  lemma EmptyChain(before: string)
    ensures Chain(before, [])
  {
  }

  lemma {:induction false} Reachable(tr: seq<State>, acts: seq<Action>, i: nat)
    requires Behaviour(tr, acts) && i < |tr|
    ensures Inv(tr[i])
  {
    if i > 0 {
      Reachable(tr, acts, i - 1);
      NextKeepsInv(tr[i - 1], acts[i - 1], tr[i]);
    }
  }

  /** However runs interleave or crash, the stored cursor is where the imported pages of the successful
      runs lead, one after the other from the very beginning: no page between is skipped. */
  lemma CursorFollowsImportedPages(tr: seq<State>, acts: seq<Action>, i: nat)
    requires Behaviour(tr, acts) && i < |tr|
    ensures Leads(tr[i].trail, tr[i].value)
  {
    Reachable(tr, acts, i);
  }

  /** The action is a run's successful settling. */
  ghost predicate Succeeds(s: State, a: Action) {
    && a.Settle? && a.run in s.runs && !s.runs[a.run].settled
    && a.end.Reached? && a.current && s.runs[a.run].before == s.value
  }

  /** Flights whose complete chains follow one another from one cursor to another. */
  ghost predicate Journey(from: string, legs: seq<Flight>, to: string) {
    if legs == [] then from == to
    else
      var last := legs[|legs| - 1];
      && Journey(from, legs[..|legs| - 1], last.before)
      && Complete(last.before, last.steps) && to == After(last.before, last.steps)
  }

  function Pages(legs: seq<Flight>): seq<Step> {
    if legs == [] then [] else Pages(legs[..|legs| - 1]) + legs[|legs| - 1].steps
  }

  /** The flights that succeeded between two points of a behaviour, in order. */
  ghost function Landed(tr: seq<State>, acts: seq<Action>, i: nat, j: nat): seq<Flight>
    requires i <= j <= |acts| < |tr|
    decreases j
  {
    if i == j then []
    else
      var rest := Landed(tr, acts, i, j - 1);
      if Succeeds(tr[j - 1], acts[j - 1]) then rest + [tr[j - 1].runs[acts[j - 1].run]] else rest
  }

  lemma SuccessMoves(s: State, a: Action, s': State)
    requires Next(s, a, s')
    ensures Succeeds(s, a) ==>
      var f := s.runs[a.run];
      Complete(f.before, f.steps) && f.before == s.value && s'.value == After(f.before, f.steps) && s'.trail == s.trail + f.steps
    ensures !Succeeds(s, a) ==> s'.value == s.value && s'.trail == s.trail
  {
  }

  /** Between any two states of interleaved runs, the cursor's way is made of the complete chains of imported
      pages of exactly the runs that succeeded in between, one starting where the other ended, and the pages
      of these chains are what the trail gained. */
  lemma {:induction false} CursorTravelsByChains(tr: seq<State>, acts: seq<Action>, i: nat, j: nat)
    requires Behaviour(tr, acts) && i <= j < |tr|
    ensures Journey(tr[i].value, Landed(tr, acts, i, j), tr[j].value)
    ensures tr[j].trail == tr[i].trail + Pages(Landed(tr, acts, i, j))
    ensures Landed(tr, acts, i, j) == [] ==> tr[j].value == tr[i].value
    decreases j
  {
    hide Next, Succeeds, Complete;
    if i < j {
      CursorTravelsByChains(tr, acts, i, j - 1);
      SuccessMoves(tr[j - 1], acts[j - 1], tr[j]);
      var rest := Landed(tr, acts, i, j - 1);
      if Succeeds(tr[j - 1], acts[j - 1]) {
        var f := Settling(tr[j - 1], acts[j - 1]);
        assert (rest + [f])[..|rest|] == rest;
      }
    }
  }

  ghost function Settling(s: State, a: Action): Flight
    requires Succeeds(s, a)
  {
    s.runs[a.run]
  }

  /** A run lands at most once: of two successful settlings the runs differ. */
  lemma {:induction false} StaysSettled(tr: seq<State>, acts: seq<Action>, i: nat, j: nat, r: nat)
    requires Behaviour(tr, acts) && i <= j < |tr| && r in tr[i].runs && tr[i].runs[r].settled
    ensures r in tr[j].runs && tr[j].runs[r] == tr[i].runs[r]
    decreases j
  {
    if i < j {
      StaysSettled(tr, acts, i, j - 1, r);
      assert Next(tr[j - 1], acts[j - 1], tr[j]);
    }
  }

  lemma RunsLandOnce(tr: seq<State>, acts: seq<Action>, i: nat, j: nat)
    requires Behaviour(tr, acts) && i < j < |acts| && Succeeds(tr[i], acts[i]) && Succeeds(tr[j], acts[j])
    ensures acts[i].run != acts[j].run
  {
    assert Next(tr[i], acts[i], tr[i + 1]);
    StaysSettled(tr, acts, i + 1, j, acts[i].run);
  }
}
