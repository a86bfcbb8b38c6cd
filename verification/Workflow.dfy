/** The query workflow: its nodes as state updates, its edges, the synthesis retry and the pause. What
    models, search and storage answer is arbitrary. */
module Workflow {
  import opened Prelude
  import opened Reports
  import opened EvidenceSpans
  import opened EvidenceValidation
  import opened ClaimValidation
  import RunLedger
  import RunProtocol

  datatype Intent = Intent(
    topics: seq<string>,
    regions: seq<string>,
    from: Option<int>,
    to: Option<int>,
    minBudget: Option<int>,
    maxBudget: Option<int>,
    scheduled: bool,
    confidence: real)

  datatype Status =
    | Pending
    | ValidatingIntent
    | ConfirmingIntent
    | AwaitingConfirmation
    | Planning
    | Retrieving
    | Resolving
    | Resolved
    | Synthesizing
    | Validating
    | Delivering
    | Completed
    | Failed

  datatype Node =
    | ParseIntent
    | ValidateIntent
    | ConfirmIntent
    | Pause
    | BuildRetrievalPlan
    | RetrieveCandidates
    | ResolveDuplicates
    | VerifyEvidence
    | SynthesizeReport
    | ValidateReport
    | VerifySemantics
    | PersistAndDeliver

  /** A node is next; the run is paused after `Pause`; a node raised; the graph ended. */
  datatype Phase = Next(node: Node) | Paused | Raised(node: Node) | Ended

  /** What a delivery call answers: stored and exported, stored but not exported, not stored. */
  datatype DeliveryResult = Exported | DocxFailed | NotStored

  /** What the collaborators of a node answer in one execution. */
  datatype Answer =
    | Nothing
    | Parsed(intent: Option<Intent>)
    | Found(candidates: seq<NoticeId>)
    | Loaded(views: map<NoticeId, View>, built: EvidenceMap)
    | Drafted(items: seq<Item>)
    | Verdicts(vs: seq<ClaimVerification>)
    | Stored(result: DeliveryResult)

  datatype State = State(
    phase: Phase,
    status: Status,
    intent: Option<Intent>,
    candidates: seq<NoticeId>,
    evidence: EvidenceMap,
    report: Option<seq<Item>>,
    retries: nat,
    verdicts: seq<ClaimVerification>,
    delivered: Option<seq<Item>>,          // the draft given to a delivery that stored it
    views: map<NoticeId, View>,            // notice texts read by `verify_evidence`
    ran: nat,                              // completed node executions
    syntheses: nat)                        // completed executions of `synthesize_report`

  const MAX_SYNTHESIS_RETRIES := 1
  const RECURSION_LIMIT := 16

  predicate IsInit(s: State) {
    s == State(Next(ParseIntent), Pending, None, [], map[], None, 0, [], None, map[], 0, 0)
  }

  // ------------------------------------------------------------ nodes

  predicate Inverted(low: Option<int>, high: Option<int>) {
    low.Some? && high.Some? && low.value > high.value
  }

  predicate IntentInvalid(i: Intent) {
    Inverted(i.from, i.to) || Inverted(i.minBudget, i.maxBudget) || i.topics == [] || i.regions == []
  }

  /** Later entries win, as when two dictionaries are merged. */
  function Merged(left: EvidenceMap, right: EvidenceMap): EvidenceMap { left + right }

  /** The update of one node, nothing when it raises. */
  ghost function Execute(s: State, node: Node, answer: Answer, hashOf: string -> Hash): Option<State> {
    match node
    case ParseIntent =>
      if !answer.Parsed? then None
      else if answer.intent.None? then Some(s.(status := Failed))
      else Some(s.(intent := answer.intent, status := ValidatingIntent))
    case ValidateIntent =>
      if s.intent.None? then None
      else Some(s.(status := if IntentInvalid(s.intent.value) then Failed else ConfirmingIntent))
    case ConfirmIntent =>
      if s.intent.None? then None
      else
        var ask := s.intent.value.scheduled || s.intent.value.confidence < 0.5;
        Some(s.(status := if ask then AwaitingConfirmation else Planning))
    case Pause => Some(s)
    case BuildRetrievalPlan =>
      if s.intent.None? then None else Some(s.(status := Retrieving))
    case RetrieveCandidates =>
      if !answer.Found? then None
      else Some(s.(candidates := s.candidates + answer.candidates, status := Resolving))
    case ResolveDuplicates => Some(s.(status := Resolved))
    case VerifyEvidence =>
      if !answer.Loaded? || !BindsAll(answer.built, s.candidates, answer.views, hashOf) then None
      else Some(s.(evidence := Merged(s.evidence, answer.built), views := answer.views, status := Synthesizing))
    case SynthesizeReport =>
      if !answer.Drafted? then None else Some(s.(report := Some(answer.items), status := Validating))
    case ValidateReport =>
      if s.report.None? then None
      else if ReportErrors(s.report.value, s.evidence, hashOf) == [] then Some(s.(status := Delivering))
      else if s.retries < MAX_SYNTHESIS_RETRIES then
        Some(s.(retries := s.retries + 1, report := None, status := Synthesizing))
      else Some(s.(status := Failed, report := None))
    case VerifySemantics =>
      if !answer.Verdicts? then None else Some(s.(verdicts := s.verdicts + answer.vs))
    case PersistAndDeliver =>
      if s.report.None? || s.intent.None? then Some(s.(status := Failed))
      else if !answer.Stored? then None
      else match answer.result
        case NotStored => Some(s.(status := Failed))
        case DocxFailed => Some(s.(status := Completed, delivered := s.report))
        case Exported => Some(s.(status := Completed, delivered := s.report))
  }

  /** The edge out of a node, read off the updated state. */
  function Edge(node: Node, s: State): Phase {
    match node
    case ParseIntent => Next(ValidateIntent)
    case ValidateIntent => if s.status == Failed then Ended else Next(ConfirmIntent)
    case ConfirmIntent => if s.status == AwaitingConfirmation then Next(Pause) else Next(BuildRetrievalPlan)
    case Pause => Paused
    case BuildRetrievalPlan => Next(RetrieveCandidates)
    case RetrieveCandidates => Next(ResolveDuplicates)
    case ResolveDuplicates => Next(VerifyEvidence)
    case VerifyEvidence => Next(SynthesizeReport)
    case SynthesizeReport => Next(ValidateReport)
    case ValidateReport =>
      if s.status == Synthesizing then Next(SynthesizeReport)
      else if s.status == Delivering then Next(VerifySemantics) else Ended
    case VerifySemantics => Next(PersistAndDeliver)
    case PersistAndDeliver => Ended
  }

  // ------------------------------------------------------------ runs

  datatype Action =
    | Run(answer: Answer)  // the next node executes
    | Raise                // the next node raises and leaves no update
    | Resume               // a paused or raised run is driven on from its last checkpoint

  ghost predicate Step(s: State, a: Action, s': State, hashOf: string -> Hash) {
    match a
    case Run(answer) =>
      && s.phase.Next?
      && var done := Execute(s, s.phase.node, answer, hashOf);
         done.Some? &&
         s' == done.value.(
           phase := Edge(s.phase.node, done.value),
           ran := s.ran + 1,
           syntheses := if s.phase.node == SynthesizeReport then s.syntheses + 1 else s.syntheses)
    case Raise => s.phase.Next? && s' == s.(phase := Raised(s.phase.node))
    case Resume =>
      && (s.phase.Paused? || s.phase.Raised?)
      && s' == s.(phase := if s.phase.Paused? then Next(BuildRetrievalPlan) else Next(s.phase.node))
  }

  ghost predicate Behaviour(tr: seq<State>, acts: seq<Action>, hashOf: string -> Hash) {
    && |tr| == |acts| + 1
    && IsInit(tr[0])
    && forall i :: 0 <= i < |acts| ==> Step(tr[i], acts[i], tr[i + 1], hashOf)
  }

  // ------------------------------------------------------------ invariant

  /** Most node executions still possible. */
  function Remaining(phase: Phase, retries: nat): nat {
    match phase
    case Ended => 0
    case Paused => 10
    case Raised(node) => Ahead(node, retries)
    case Next(node) => Ahead(node, retries)
  }

  function Ahead(node: Node, retries: nat): nat {
    match node
    case ParseIntent => 14
    case ValidateIntent => 13
    case ConfirmIntent => 12
    case Pause => 11
    case BuildRetrievalPlan => 10
    case RetrieveCandidates => 9
    case ResolveDuplicates => 8
    case VerifyEvidence => 7
    case SynthesizeReport => if retries == 0 then 6 else 4
    case ValidateReport => if retries == 0 then 5 else 3
    case VerifySemantics => 2
    case PersistAndDeliver => 1
  }

  predicate Before(phase: Phase, n: nat) {
    phase.Paused? || ((phase.Next? || phase.Raised?) && Ahead(phase.node, 0) >= n)
  }

  predicate Facing(phase: Phase, node: Node) {
    phase == Next(node) || phase == Raised(node)
  }

  ghost predicate Accepted(items: seq<Item>, s: State, hashOf: string -> Hash) {
    ReportErrors(items, s.evidence, hashOf) == [] && BindsAll(s.evidence, s.candidates, s.views, hashOf)
  }

  predicate CountsOk(s: State) {
    && s.retries <= MAX_SYNTHESIS_RETRIES
    && s.ran + Remaining(s.phase, s.retries) <= 14
    && s.syntheses <= s.retries + 1
    && (Facing(s.phase, SynthesizeReport) || Before(s.phase, 7) ==> s.syntheses == s.retries)
    && (Facing(s.phase, ValidateReport) ==> s.syntheses == s.retries + 1)
    && (Before(s.phase, 7) ==> s.retries == 0)
  }

  predicate StatusOk(s: State) {
    && (Facing(s.phase, ParseIntent) ==> s.intent.None?)
    && (s.intent.None? ==> Facing(s.phase, ParseIntent) || Facing(s.phase, ValidateIntent))
    && (s.phase.Paused? || Facing(s.phase, Pause) ==> s.status == AwaitingConfirmation)
    && (s.phase.Ended? ==> s.status == Completed || s.status == Failed)
    && (s.status == Completed ==> s.phase.Ended?)
    && (s.delivered.Some? <==> s.status == Completed)
  }

  ghost predicate ContentOk(s: State, hashOf: string -> Hash) {
    && (Before(s.phase, 7) ==> s.evidence == map[])
    && (Facing(s.phase, SynthesizeReport) || Facing(s.phase, ValidateReport) ==>
          BindsAll(s.evidence, s.candidates, s.views, hashOf))
    && (Facing(s.phase, ValidateReport) ==> s.report.Some?)
    && (Facing(s.phase, VerifySemantics) || Facing(s.phase, PersistAndDeliver) ==>
          s.report.Some? && Accepted(s.report.value, s, hashOf))
    && (s.delivered.Some? ==> s.delivered == s.report && Accepted(s.delivered.value, s, hashOf))
  }

  ghost predicate Inv(s: State, hashOf: string -> Hash) {
    CountsOk(s) && StatusOk(s) && ContentOk(s, hashOf)
  }

  lemma StepCounts(s: State, a: Action, s': State, hashOf: string -> Hash)
    requires CountsOk(s) && Step(s, a, s', hashOf)
    ensures CountsOk(s')
    ensures a.Run? ==> Remaining(s'.phase, s'.retries) < Remaining(s.phase, s.retries)
  {
    hide BindsAll, ReportErrors, IntentInvalid;
    if a.Run? {
      match s.phase.node
      case ConfirmIntent => assert CountsOk(s');
      case SynthesizeReport => assert CountsOk(s');
      case ValidateReport => assert CountsOk(s');
      case PersistAndDeliver => assert CountsOk(s');
      case _ => assert CountsOk(s');
    }
  }

  lemma StepStatus(s: State, a: Action, s': State, hashOf: string -> Hash)
    requires StatusOk(s) && Step(s, a, s', hashOf)
    requires Facing(s.phase, PersistAndDeliver) ==> s.report.Some?
    ensures StatusOk(s')
  {
    hide BindsAll, ReportErrors, IntentInvalid;
    if a.Run? {
      match s.phase.node
      case ParseIntent => assert StatusOk(s');
      case ValidateIntent => assert StatusOk(s');
      case ConfirmIntent => assert StatusOk(s');
      case ValidateReport => assert StatusOk(s');
      case PersistAndDeliver => assert StatusOk(s');
      case _ => assert StatusOk(s');
    }
  }

  lemma StepContent(s: State, a: Action, s': State, hashOf: string -> Hash)
    requires StatusOk(s) && ContentOk(s, hashOf) && Step(s, a, s', hashOf)
    ensures ContentOk(s', hashOf)
  {
    hide BindsAll, ReportErrors, IntentInvalid;
    if a.Run? {
      match s.phase.node
      case VerifyEvidence =>
        assert Merged(map[], a.answer.built) == a.answer.built;
      case ValidateReport => assert ContentOk(s', hashOf);
      case PersistAndDeliver => assert ContentOk(s', hashOf);
      case _ => assert ContentOk(s', hashOf);
    }
  }

  lemma StepKeepsInv(s: State, a: Action, s': State, hashOf: string -> Hash)
    requires Inv(s, hashOf) && Step(s, a, s', hashOf)
    ensures Inv(s', hashOf)
  {
    hide CountsOk, StatusOk, Step;
    StepCounts(s, a, s', hashOf);
    StepStatus(s, a, s', hashOf);
    StepContent(s, a, s', hashOf);
  }

  lemma InitInv(s: State, hashOf: string -> Hash)
    requires IsInit(s)
    ensures Inv(s, hashOf)
  {
  }

  lemma {:induction false} Reachable(tr: seq<State>, acts: seq<Action>, hashOf: string -> Hash, i: nat)
    requires Behaviour(tr, acts, hashOf) && i < |tr|
    ensures Inv(tr[i], hashOf)
  {
    hide Inv;
    if i == 0 {
      InitInv(tr[0], hashOf);
    } else {
      Reachable(tr, acts, hashOf, i - 1);
      StepKeepsInv(tr[i - 1], acts[i - 1], tr[i], hashOf);
    }
  }

  // ------------------------------------------------------------ theorems

  /** A delivered report is a draft the validator accepted against the run's own evidence: every citation
      of every claim is the hash of a supporting text of the item's own candidate notice. */
  lemma OnlyWellCitedIsDelivered(tr: seq<State>, acts: seq<Action>, hashOf: string -> Hash, i: nat)
    requires Behaviour(tr, acts, hashOf) && i < |tr| && tr[i].delivered.Some?
    ensures ReportErrors(tr[i].delivered.value, tr[i].evidence, hashOf) == []
    ensures forall item, c :: item in tr[i].delivered.value && c in item.claims ==>
      WellCited(tr[i].candidates, tr[i].views, hashOf, item.notice, c)
  {
    Reachable(tr, acts, hashOf, i);
    AcceptedExactlyWhenWellCited(tr[i].delivered.value, tr[i].evidence, tr[i].candidates, tr[i].views, hashOf);
  }

  /** A delivery that stored the report is the last step of its run. */
  lemma DeliveryIsLast(tr: seq<State>, acts: seq<Action>, hashOf: string -> Hash, i: nat)
    requires Behaviour(tr, acts, hashOf) && i < |tr| && tr[i].delivered.Some?
    ensures i == |acts|
  {
    Reachable(tr, acts, hashOf, i);
    assert i < |acts| ==> Step(tr[i], acts[i], tr[i + 1], hashOf);
  }

  /** However often a run is resumed, it completes at most 14 node executions, and a raising one on top
      of them is still within 14: under the recursion limit of 16. Synthesis completes at most twice. */
  lemma RunsAreBounded(tr: seq<State>, acts: seq<Action>, hashOf: string -> Hash, i: nat)
    requires Behaviour(tr, acts, hashOf) && i < |tr|
    ensures tr[i].ran <= 14 < RECURSION_LIMIT
    ensures tr[i].phase.Raised? ==> tr[i].ran + 1 <= 14
    ensures tr[i].syntheses <= 2
  {
    Reachable(tr, acts, hashOf, i);
  }

  /** A completed step strictly lowers the executions that remain. */
  lemma StepsDecrease(tr: seq<State>, acts: seq<Action>, hashOf: string -> Hash, i: nat)
    requires Behaviour(tr, acts, hashOf) && i < |acts| && acts[i].Run?
    ensures Remaining(tr[i + 1].phase, tr[i + 1].retries) < Remaining(tr[i].phase, tr[i].retries)
  {
    Reachable(tr, acts, hashOf, i);
    StepCounts(tr[i], acts[i], tr[i + 1], hashOf);
  }

  /** The run status the service stores for a graph status, when it is one. */
  function Reported(status: Status): Option<RunLedger.Status> {
    match status
    case Pending => Some(RunLedger.Pending)
    case AwaitingConfirmation => Some(RunLedger.AwaitingConfirmation)
    case Completed => Some(RunLedger.Completed)
    case Failed => Some(RunLedger.Failed)
    case _ => None
  }

  /** An ended run is `completed` with a stored report or `failed` without one; a paused run awaits
      confirmation. These are the outcomes the run protocol lets a worker report. */
  lemma OutcomesAreDefinite(tr: seq<State>, acts: seq<Action>, hashOf: string -> Hash, i: nat)
    requires Behaviour(tr, acts, hashOf) && i < |tr|
    ensures tr[i].phase.Ended? ==> tr[i].status == Completed || tr[i].status == Failed
    ensures tr[i].phase.Ended? ==> (tr[i].status == Completed <==> tr[i].delivered.Some?)
    ensures tr[i].phase.Paused? ==> tr[i].status == AwaitingConfirmation && tr[i].delivered.None?
    ensures tr[i].phase.Ended? || tr[i].phase.Paused? ==>
      Reported(tr[i].status).Some? && RunProtocol.GraphOutcome(Reported(tr[i].status).value)
  {
    Reachable(tr, acts, hashOf, i);
  }

  /** A run whose intent could not be parsed never ends: `validate_intent` raises on every attempt. */
  lemma {:induction false} UnparsedRunsOnlyRaise(tr: seq<State>, acts: seq<Action>, hashOf: string -> Hash,
                                                 i: nat, j: nat)
    requires Behaviour(tr, acts, hashOf) && i < |acts| && i < j < |tr|
    requires tr[i].phase == Next(ParseIntent) && acts[i] == Run(Parsed(None))
    ensures tr[j].status == Failed && tr[j].intent.None? && Facing(tr[j].phase, ValidateIntent)
  {
    assert Step(tr[j - 1], acts[j - 1], tr[j], hashOf);
    if j == i + 1 {
      Reachable(tr, acts, hashOf, i);
    } else {
      UnparsedRunsOnlyRaise(tr, acts, hashOf, i, j - 1);
    }
  }
}
