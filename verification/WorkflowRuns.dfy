/** Whole runs of the query workflow: the order of its nodes, which runs pause, which ones search at all, and
    why a run fails. */
module WorkflowRuns {
  import opened Prelude
  import opened Reports
  import opened EvidenceSpans
  import opened EvidenceValidation
  import opened ClaimValidation
  import opened Workflow

  /** Node `n` may be the next one completed after `m`. */
  predicate Follows(m: Node, n: Node) {
    match n
    case ParseIntent => false
    case ValidateIntent => m == ParseIntent
    case ConfirmIntent => m == ValidateIntent
    case Pause => m == ConfirmIntent
    case BuildRetrievalPlan => m == ConfirmIntent || m == Pause
    case RetrieveCandidates => m == BuildRetrievalPlan
    case ResolveDuplicates => m == RetrieveCandidates
    case VerifyEvidence => m == ResolveDuplicates
    case SynthesizeReport => m == VerifyEvidence || m == ValidateReport
    case ValidateReport => m == SynthesizeReport
    case VerifySemantics => m == ValidateReport
    case PersistAndDeliver => m == VerifySemantics
  }

  /** The step completes node `n`. */
  predicate Completes(s: State, a: Action, n: Node) {
    a.Run? && s.phase == Next(n)
  }

  lemma EdgeFollows(m: Node, s: State)
    ensures Edge(m, s).Next? ==> Follows(m, Edge(m, s).node)
    ensures Edge(m, s).Paused? <==> m == Pause
    ensures !Edge(m, s).Raised?
  {
  }

  lemma StepFaces(s: State, a: Action, s': State, n: Node, hashOf: string -> Hash)
    requires Step(s, a, s', hashOf) && Facing(s'.phase, n)
    ensures || (a.Run? && s.phase.Next? && Follows(s.phase.node, n))
            || (!a.Run? && Facing(s.phase, n))
            || (a.Resume? && s.phase.Paused? && n == BuildRetrievalPlan)
  {
    hide Execute, Edge, Follows;
    if a.Run? {
      EdgeFollows(s.phase.node, Execute(s, s.phase.node, a.answer, hashOf).value);
    }
  }

  lemma PausedBy(s: State, a: Action, s': State, hashOf: string -> Hash)
    requires Step(s, a, s', hashOf) && s'.phase.Paused?
    ensures Completes(s, a, Pause)
  {
    hide Execute, Edge, Follows;
    if a.Run? {
      EdgeFollows(s.phase.node, Execute(s, s.phase.node, a.answer, hashOf).value);
    }
  }

  lemma StartsAtParse(tr: seq<State>, acts: seq<Action>, hashOf: string -> Hash)
    requires Behaviour(tr, acts, hashOf)
    ensures tr[0].phase == Next(ParseIntent) && tr[0].intent.None?
  {
  }

  /** The nodes of a run complete in the graph's order, whatever raises and resumes lie between them: before
      each one but the first, the last node completed is one of its predecessors. */
  lemma {:induction false} NodesInOrder(tr: seq<State>, acts: seq<Action>, hashOf: string -> Hash, i: nat, n: Node)
    returns (j: nat)
    requires Behaviour(tr, acts, hashOf) && i < |tr| && Facing(tr[i].phase, n) && n != ParseIntent
    ensures j < i && acts[j].Run? && tr[j].phase.Next? && Follows(tr[j].phase.node, n)
    ensures forall k :: j < k < i ==> !acts[k].Run?
    decreases i
  {
    hide Step, Follows;
    StartsAtParse(tr, acts, hashOf);
    assert Step(tr[i - 1], acts[i - 1], tr[i], hashOf);
    StepFaces(tr[i - 1], acts[i - 1], tr[i], n, hashOf);
    if acts[i - 1].Run? {
      j := i - 1;
    } else if tr[i - 1].phase.Paused? {
      assert Step(tr[i - 2], acts[i - 2], tr[i - 1], hashOf);
      PausedBy(tr[i - 2], acts[i - 2], tr[i - 1], hashOf);
      j := i - 2;
      assert Follows(Pause, n) by { PauseLeadsOn(); }
      ResumedFromPause(tr[i - 1], acts[i - 1], tr[i], n, hashOf);
    } else {
      j := NodesInOrder(tr, acts, hashOf, i - 1, n);
    }
  }

  lemma PauseLeadsOn()
    ensures Follows(Pause, BuildRetrievalPlan)
  {
  }

  lemma ResumedFromPause(s: State, a: Action, s': State, n: Node, hashOf: string -> Hash)
    requires Step(s, a, s', hashOf) && s.phase.Paused? && Facing(s'.phase, n)
    ensures n == BuildRetrievalPlan && a.Resume?
  {
  }

  // ------------------------------------------------------------ the intent

  lemma StepKeepsIntent(s: State, a: Action, s': State, hashOf: string -> Hash)
    requires Step(s, a, s', hashOf) && s.intent.Some? && !Facing(s.phase, ParseIntent)
    ensures s'.intent == s.intent
  {
    hide BindsAll, ReportErrors, IntentInvalid;
  }

  /** A valid intent: topics and regions, and no range upside down. */
  predicate Searchable(i: Intent) {
    && |i.topics| > 0 && |i.regions| > 0
    && (i.from.Some? && i.to.Some? ==> i.from.value <= i.to.value)
    && (i.minBudget.Some? && i.maxBudget.Some? ==> i.minBudget.value <= i.maxBudget.value)
  }

  /** Past `validate_intent`. */
  predicate PastValidation(phase: Phase) {
    phase.Paused? || (phase.Next? && phase.node != ParseIntent && phase.node != ValidateIntent)
    || (phase.Raised? && phase.node != ParseIntent && phase.node != ValidateIntent)
  }

  lemma StepValidated(s: State, a: Action, s': State, hashOf: string -> Hash)
    requires Step(s, a, s', hashOf) && StatusOk(s)
    requires PastValidation(s.phase) ==> s.intent.Some? && Searchable(s.intent.value)
    ensures PastValidation(s'.phase) ==> s'.intent.Some? && Searchable(s'.intent.value)
    ensures Completes(s, a, ValidateIntent) ==>
      s.intent.Some? && (if Searchable(s.intent.value) then s'.phase == Next(ConfirmIntent) else s'.phase == Ended && s'.status == Failed)
  {
    hide BindsAll, ReportErrors;
  }

  /** Nothing is searched, paused or delivered for an intent without topics or regions or with an inverted
      range; completing `validate_intent` goes on exactly for the others. */
  lemma {:induction false} OnlySearchableIntentsGoOn(tr: seq<State>, acts: seq<Action>, hashOf: string -> Hash, i: nat)
    requires Behaviour(tr, acts, hashOf) && i < |tr|
    ensures PastValidation(tr[i].phase) ==> tr[i].intent.Some? && Searchable(tr[i].intent.value)
    ensures i < |acts| && Completes(tr[i], acts[i], ValidateIntent) ==>
      && tr[i].intent.Some?
      && (if Searchable(tr[i].intent.value) then tr[i + 1].phase == Next(ConfirmIntent)
          else tr[i + 1].phase == Ended && tr[i + 1].status == Failed)
    decreases i
  {
    hide Step, Searchable;
    if i > 0 {
      OnlySearchableIntentsGoOn(tr, acts, hashOf, i - 1);
      Reachable(tr, acts, hashOf, i - 1);
      assert Step(tr[i - 1], acts[i - 1], tr[i], hashOf);
      StepValidated(tr[i - 1], acts[i - 1], tr[i], hashOf);
    }
    if i < |acts| {
      Reachable(tr, acts, hashOf, i);
      assert Step(tr[i], acts[i], tr[i + 1], hashOf);
      StepValidated(tr[i], acts[i], tr[i + 1], hashOf);
    }
  }

  // ------------------------------------------------------------ the pause

  lemma StepAsks(s: State, a: Action, s': State, hashOf: string -> Hash)
    requires Step(s, a, s', hashOf) && StatusOk(s) && Completes(s, a, ConfirmIntent)
    ensures s.intent.Some? && s'.intent == s.intent
    ensures s.intent.value.scheduled || s.intent.value.confidence < 0.5 ==>
      s'.phase == Next(Pause) && s'.status == AwaitingConfirmation
    ensures !s.intent.value.scheduled && s.intent.value.confidence >= 0.5 ==>
      s'.phase == Next(BuildRetrievalPlan) && s'.status == Planning
  {
  }

  /** The run has an intent that is to be confirmed. */
  predicate ToConfirm(intent: Option<Intent>) {
    intent.Some? && (intent.value.scheduled || intent.value.confidence < 0.5)
  }

  /** A run that faces the pause or is paused has an intent that is scheduled or has confidence below 0.5,
      and waits for confirmation. */
  lemma {:induction false} PausedRunsAreToConfirm(tr: seq<State>, acts: seq<Action>, hashOf: string -> Hash, i: nat)
    requires Behaviour(tr, acts, hashOf) && i < |tr| && (tr[i].phase.Paused? || Facing(tr[i].phase, Pause))
    ensures ToConfirm(tr[i].intent) && tr[i].status == AwaitingConfirmation
    decreases i
  {
    hide Step, Follows;
    StartsAtParse(tr, acts, hashOf);
    Reachable(tr, acts, hashOf, i);
    var s, a, s' := tr[i - 1], acts[i - 1], tr[i];
    assert Step(s, a, s', hashOf);
    Reachable(tr, acts, hashOf, i - 1);
    if s'.phase.Paused? {
      PausedBy(s, a, s', hashOf);
      PausedRunsAreToConfirm(tr, acts, hashOf, i - 1);
      StepKeepsIntent(s, a, s', hashOf);
    } else {
      StepFaces(s, a, s', Pause, hashOf);
      if a.Run? {
        ConfirmedFirst(s.phase.node);
        StepAsks(s, a, s', hashOf);
      } else {
        PausedRunsAreToConfirm(tr, acts, hashOf, i - 1);
        StepKeepsIntent(s, a, s', hashOf);
      }
    }
  }

  lemma ConfirmedFirst(m: Node)
    ensures Follows(m, Pause) <==> m == ConfirmIntent
    ensures Follows(m, BuildRetrievalPlan) <==> m == ConfirmIntent || m == Pause
  {
  }

  /** A run with an intent to confirm reaches its retrieval plan only by a resume from the pause. */
  lemma {:induction false} ConfirmedBeforeSearch(tr: seq<State>, acts: seq<Action>, hashOf: string -> Hash, i: nat)
    returns (j: nat)
    requires Behaviour(tr, acts, hashOf) && i < |tr|
    requires Facing(tr[i].phase, BuildRetrievalPlan) && ToConfirm(tr[i].intent)
    ensures j < i && acts[j].Resume? && tr[j].phase.Paused?
    decreases i
  {
    hide Step, Follows;
    StartsAtParse(tr, acts, hashOf);
    var s, a, s' := tr[i - 1], acts[i - 1], tr[i];
    assert Step(s, a, s', hashOf);
    Reachable(tr, acts, hashOf, i - 1);
    StepFaces(s, a, s', BuildRetrievalPlan, hashOf);
    j := i - 1;
    if a.Run? {
      ConfirmedFirst(s.phase.node);
      RunIsNoPause(s, a, s', hashOf);
      StepAsks(s, a, s', hashOf);
    } else if !s.phase.Paused? {
      StepKeepsIntent(s, a, s', hashOf);
      j := ConfirmedBeforeSearch(tr, acts, hashOf, i - 1);
    }
  }

  lemma RunIsNoPause(s: State, a: Action, s': State, hashOf: string -> Hash)
    requires Step(s, a, s', hashOf) && a.Run? && !s'.phase.Paused?
    ensures s.phase.Next? && s.phase.node != Pause
  {
    hide Execute;
  }

  /** The intent of a run is set once. */
  lemma {:induction false} IntentStays(tr: seq<State>, acts: seq<Action>, hashOf: string -> Hash, i: nat, j: nat)
    requires Behaviour(tr, acts, hashOf) && i <= j < |tr| && tr[i].intent.Some?
    ensures tr[j].intent == tr[i].intent
    decreases j
  {
    hide Step;
    if i < j {
      IntentStays(tr, acts, hashOf, i, j - 1);
      Reachable(tr, acts, hashOf, j - 1);
      assert Step(tr[j - 1], acts[j - 1], tr[j], hashOf);
      StepKeepsIntent(tr[j - 1], acts[j - 1], tr[j], hashOf);
    }
  }

  /** Which runs are asked, over a whole run: one whose intent is scheduled or has confidence below 0.5
      completes its retrieval plan only after a resume from the pause, and any other is never paused. */
  lemma ConfirmationIsByIntent(tr: seq<State>, acts: seq<Action>, hashOf: string -> Hash, i: nat, k: nat)
    returns (j: nat)
    requires Behaviour(tr, acts, hashOf) && i < |acts| && k < |tr| && tr[k].intent.Some?
    ensures
      var intent := tr[k].intent.value;
      && (Completes(tr[i], acts[i], BuildRetrievalPlan) && (intent.scheduled || intent.confidence < 0.5) ==>
            j < i && acts[j].Resume? && tr[j].phase.Paused?)
      && (tr[i].phase.Paused? ==> intent.scheduled || intent.confidence < 0.5)
  {
    hide Step;
    j := 0;
    if tr[i].phase.Paused? {
      PausedRunsAreToConfirm(tr, acts, hashOf, i);
    }
    if tr[i].intent.Some? {
      if i <= k {
        IntentStays(tr, acts, hashOf, i, k);
      } else {
        IntentStays(tr, acts, hashOf, k, i);
      }
    }
    if Completes(tr[i], acts[i], BuildRetrievalPlan) {
      Reachable(tr, acts, hashOf, i);
      if ToConfirm(tr[i].intent) {
        j := ConfirmedBeforeSearch(tr, acts, hashOf, i);
      }
    }
  }

  // ------------------------------------------------------------ drafts

  /** The validator turned the draft down. */
  ghost predicate TurnsDown(s: State, a: Action, hashOf: string -> Hash) {
    && Completes(s, a, ValidateReport) && s.report.Some?
    && exists item, c :: item in s.report.value && c in item.claims && !WellCited(s.candidates, s.views, hashOf, item.notice, c)
  }

  lemma StepValidates(s: State, a: Action, s': State, hashOf: string -> Hash)
    requires Step(s, a, s', hashOf) && Inv(s, hashOf) && Completes(s, a, ValidateReport)
    ensures s.report.Some? && s.retries <= 1
    ensures if TurnsDown(s, a, hashOf)
            then s'.report.None? && (if s.retries == 0 then s'.phase == Next(SynthesizeReport) && s'.retries == 1
                                     else s'.phase == Ended && s'.status == Failed)
            else s'.phase == Next(VerifySemantics) && s'.report == s.report && s'.retries == s.retries
  {
    hide BindsAll, WellCited, ReportErrors, CountsOk, StatusOk;
    AcceptedExactlyWhenWellCited(s.report.value, s.evidence, s.candidates, s.views, hashOf);
    RetriesAtMostOne(s, hashOf);
  }

  lemma RetriesAtMostOne(s: State, hashOf: string -> Hash)
    requires Inv(s, hashOf)
    ensures s.retries <= 1
  {
  }

  /** The validator goes on with a draft exactly when every claim is well cited; the first draft it turns down
      is written again, the second one fails the run. */
  lemma ValidationIsByCitations(tr: seq<State>, acts: seq<Action>, hashOf: string -> Hash, i: nat)
    requires Behaviour(tr, acts, hashOf) && i < |acts| && Completes(tr[i], acts[i], ValidateReport)
    ensures tr[i].report.Some?
    ensures !TurnsDown(tr[i], acts[i], hashOf) ==> tr[i + 1].phase == Next(VerifySemantics) && tr[i + 1].report == tr[i].report
    ensures TurnsDown(tr[i], acts[i], hashOf) ==> tr[i + 1].report.None?
    ensures TurnsDown(tr[i], acts[i], hashOf) && tr[i].syntheses == 1 ==> tr[i + 1].phase == Next(SynthesizeReport)
    ensures TurnsDown(tr[i], acts[i], hashOf) && tr[i].syntheses != 1 ==>
      tr[i].syntheses == 2 && tr[i + 1].phase == Ended && tr[i + 1].status == Failed
  {
    hide Step, TurnsDown;
    Reachable(tr, acts, hashOf, i);
    assert Step(tr[i], acts[i], tr[i + 1], hashOf);
    StepValidates(tr[i], acts[i], tr[i + 1], hashOf);
  }

  lemma RetryStep(s: State, a: Action, s': State, hashOf: string -> Hash)
    requires Step(s, a, s', hashOf) && s'.retries != s.retries
    ensures Completes(s, a, ValidateReport)
  {
    hide BindsAll, ReportErrors, IntentInvalid;
  }

  /** A second synthesis goes back to a draft the validator turned down. */
  lemma {:induction false} RetriedAfterRejection(tr: seq<State>, acts: seq<Action>, hashOf: string -> Hash, i: nat) returns (j: nat)
    requires Behaviour(tr, acts, hashOf) && i < |tr| && tr[i].retries > 0
    ensures j < i && TurnsDown(tr[j], acts[j], hashOf) && tr[j].retries == 0
    decreases i
  {
    hide Step, TurnsDown;
    NoRetryAtFirst(tr, acts, hashOf);
    var s, a, s' := tr[i - 1], acts[i - 1], tr[i];
    assert Step(s, a, s', hashOf);
    if s.retries > 0 {
      j := RetriedAfterRejection(tr, acts, hashOf, i - 1);
    } else {
      j := i - 1;
      RetryStep(s, a, s', hashOf);
      Reachable(tr, acts, hashOf, i - 1);
      StepValidates(s, a, s', hashOf);
    }
  }

  lemma NoRetryAtFirst(tr: seq<State>, acts: seq<Action>, hashOf: string -> Hash)
    requires Behaviour(tr, acts, hashOf)
    ensures tr[0].retries == 0
  {
  }

  // ------------------------------------------------------------ how runs end

  lemma StepEnds(s: State, a: Action, s': State, hashOf: string -> Hash)
    requires Step(s, a, s', hashOf) && Inv(s, hashOf) && s'.phase.Ended?
    ensures a.Run? && s.phase.Next?
    ensures s.phase.node == ValidateIntent || s.phase.node == ValidateReport || s.phase.node == PersistAndDeliver
    ensures s.phase.node == ValidateIntent || s.phase.node == ValidateReport ==> s'.status == Failed && s'.delivered == s.delivered
    ensures s.phase.node == PersistAndDeliver ==>
      && a.answer.Stored?
      && (if a.answer.result == NotStored then s'.status == Failed && s'.delivered == s.delivered
          else s'.status == Completed && s'.delivered == s.report)
  {
    hide BindsAll, ReportErrors, IntentInvalid;
  }

  /** How a run ends. It fails for an intent that cannot be searched for, for a second draft that is not well
      cited, or because nothing was stored; it completes when its delivery stored the draft, exported or not. */
  lemma RunsEndForAReason(tr: seq<State>, acts: seq<Action>, hashOf: string -> Hash, i: nat) returns (j: nat)
    requires Behaviour(tr, acts, hashOf) && 0 < i < |tr| && tr[i].phase.Ended?
    ensures
      var s, a := tr[i - 1], acts[i - 1];
      if tr[i].status == Failed then
        || (Completes(s, a, ValidateIntent) && s.intent.Some? && !Searchable(s.intent.value))
        || (TurnsDown(s, a, hashOf) && j < i - 1 && TurnsDown(tr[j], acts[j], hashOf))
        || (Completes(s, a, PersistAndDeliver) && a.answer == Stored(NotStored))
      else
        Completes(s, a, PersistAndDeliver) && (a.answer == Stored(Exported) || a.answer == Stored(DocxFailed))
  {
    hide Step, TurnsDown, Searchable;
    j := 0;
    var s, a := tr[i - 1], acts[i - 1];
    assert Step(s, a, tr[i], hashOf);
    Reachable(tr, acts, hashOf, i - 1);
    StepEnds(s, a, tr[i], hashOf);
    if s.phase.node == ValidateIntent {
      OnlySearchableIntentsGoOn(tr, acts, hashOf, i - 1);
    } else if s.phase.node == ValidateReport {
      StepValidates(s, a, tr[i], hashOf);
      if s.retries > 0 {
        j := RetriedAfterRejection(tr, acts, hashOf, i - 1);
      }
    }
  }

  /** Semantic verdicts are collected before delivery, for the draft that is then delivered. */
  lemma VerdictsBeforeDelivery(tr: seq<State>, acts: seq<Action>, hashOf: string -> Hash, i: nat) returns (j: nat)
    requires Behaviour(tr, acts, hashOf) && i < |tr| && Facing(tr[i].phase, PersistAndDeliver)
    ensures j < i && Completes(tr[j], acts[j], VerifySemantics) && acts[j].answer.Verdicts?
    ensures tr[i].verdicts == acts[j].answer.vs && tr[i].report == tr[j].report
  {
    hide Step, Follows;
    j := NodesInOrder(tr, acts, hashOf, i, PersistAndDeliver);
    assert Follows(tr[j].phase.node, PersistAndDeliver);
    VerdictsFirst(tr[j].phase.node);
    assert Step(tr[j], acts[j], tr[j + 1], hashOf);
    VerdictStep(tr[j], acts[j], tr[j + 1], hashOf);
    NoVerdictsYet(tr, acts, hashOf, j);
    assert [] + acts[j].answer.vs == acts[j].answer.vs;
    OnlyRunsWrite(tr, acts, hashOf, j + 1, i);
  }

  lemma VerdictsFirst(m: Node)
    ensures Follows(m, PersistAndDeliver) <==> m == VerifySemantics
  {
  }

  lemma VerdictStep(s: State, a: Action, s': State, hashOf: string -> Hash)
    requires Step(s, a, s', hashOf) && Completes(s, a, VerifySemantics)
    ensures a.answer.Verdicts? && s'.verdicts == s.verdicts + a.answer.vs && s'.report == s.report
  {
  }

  /** Verdicts are taken once. */
  lemma {:induction false} NoVerdictsYet(tr: seq<State>, acts: seq<Action>, hashOf: string -> Hash, i: nat)
    requires Behaviour(tr, acts, hashOf) && i < |tr| && !Facing(tr[i].phase, PersistAndDeliver) && !tr[i].phase.Ended?
    ensures tr[i].verdicts == []
    decreases i
  {
    hide Step;
    if i > 0 {
      assert Step(tr[i - 1], acts[i - 1], tr[i], hashOf);
      VerdictsLeadToDelivery(tr[i - 1], acts[i - 1], tr[i], hashOf);
      NoVerdictsYet(tr, acts, hashOf, i - 1);
    }
  }

  lemma VerdictsLeadToDelivery(s: State, a: Action, s': State, hashOf: string -> Hash)
    requires Step(s, a, s', hashOf) && !Facing(s'.phase, PersistAndDeliver) && !s'.phase.Ended?
    ensures s'.verdicts == s.verdicts && !Facing(s.phase, PersistAndDeliver) && !s.phase.Ended?
  {
    hide BindsAll, ReportErrors, IntentInvalid;
  }

  lemma {:induction false} OnlyRunsWrite(tr: seq<State>, acts: seq<Action>, hashOf: string -> Hash, i: nat, j: nat)
    requires Behaviour(tr, acts, hashOf) && i <= j < |tr| && forall k :: i <= k < j ==> !acts[k].Run?
    ensures tr[j].verdicts == tr[i].verdicts && tr[j].report == tr[i].report
    decreases j
  {
    if i < j {
      OnlyRunsWrite(tr, acts, hashOf, i, j - 1);
      assert Step(tr[j - 1], acts[j - 1], tr[j], hashOf);
    }
  }
}
