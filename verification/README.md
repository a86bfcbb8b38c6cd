# BidScope: verified models of its protocols, evidence pipeline and storage

BidScope answers tender queries: a run drives a checkpointed graph, binds every reported claim to
evidence, stores the report, and subscriptions repeat confirmed queries on a schedule. This project
models the parts of it whose correctness is hard to see from one function and proves what they are for.
`dafny verify dfyconfig.toml` checks everything.

## What is modelled

**Runs (`RunLedger`, `EventCursor`, `RunProtocol`, `RunSafety`, `RunFencing`, `RunExits`,
`RunHistory`, `RunRefinement`, `RunLifecycle`).** `RunLedger` holds the transactions on `query_runs` and `run_events`, as functions and
as a class that performs them step by step. `RunProtocol` is a state machine of any number of workers
(`execute_run`, `confirm`, `retry`, stale recovery): one action is one committed transaction, one
advisory-lock call, one checkpoint read or write, or one step of the graph. The graph is an arbitrary
producer whose event list grows. Tokens are minted and never reused; the lock table is indexed by an
arbitrary key function. Cancellation at any await, process crashes, raised database calls, failed
heartbeats, status updates that fail or time out, and lost lock sessions are actions. Checkpoint guard and
checkpoint write are two steps.

**Subscriptions (`SubscriptionDiff`, `SubscriptionFeed`, `OccurrenceProtocol`, `OccurrenceRuns`,
`CronWeekdays`, `CronRewrite`, `CronDenotation`).** The diff of a report against the seen cursor, its behaviour over many cycles, the
scheduler workers contending for occurrences, and the rewrite of the day-of-week field of a crontab
expression (crontab utility of POSIX.1-2017).

**Evidence and reports (`EvidenceSpans`, `EvidenceValidation`, `ClaimValidation`, `EvidenceLaws`, `Workflow`,
`WorkflowRuns`, `Reports`, `ReportTables`, `ReportStore`, `ReportDelivery`, `ReportRoundTrip`, `ReportRows`,
`RunDelivery`).** Span extraction, the evidence map,
the claim validator, semantic verdicts, the workflow with its single synthesis retry, and the relational
persistence and projection of a report. Tables are finite maps from arbitrary row ids to rows, read back
by ordered selects. Hashing is an uninterpreted function; nothing assumes it is injective.

**Smaller cores.** `EventStream`: the browser's incremental reader of server-sent events (a subset of
section 9.2.5 of the WHATWG HTML Standard). `RankFusion` and `RankingMetrics`: reciprocal-rank fusion,
recall and nDCG over exact reals. `IngestionRun` and `IngestionProtocol`: live ingestion and its cursor.
`SnapshotStore` and `SnapshotImport`: the content-addressed snapshot importer.

`Prelude` and `Strings` hold shared datatypes and string functions.

Each operation is specified by a function, and its laws are stated beside it in the data's own terms:
`RunLifecycle`, `OccurrenceRuns`, `WorkflowRuns`, `EvidenceLaws`, `ReportRows` and `CronDenotation` speak of row
fields, positions, integers and whole behaviours: of what a reader can observe, not of how a step is computed.

## Where the code is weaker than it looks

- A worker can end and leave its row `running` under its token until stale recovery, by exactly six causes:
  a database call raised outside the handlers; a heartbeat raised and the status update that should have
  released the claim raised too; the graph's result carried no status; the status update of a cancellation
  timed out after five seconds; that update raised; the process crashed. `StrandingCausesAreExact` proves
  that no other exit does and gives a run for each of the six.
- Contiguous event rows and token fencing hold even when lock sessions are lost. The reading of the log as
  attempt segments, mutual exclusion and guarded checkpoint writes are proved for live lock sessions; mutual
  exclusion does fail without them (`LostSessionBreaksExclusion`).
- The separator test of the stream reader looks four characters back. A lone carriage return there costs
  the last two characters before the blank line (`SplitTakesTheSeparator` gives the exact condition,
  `LoneReturnLosesText` an input).
- A run whose intent cannot be parsed does not end as `failed`: `validate_intent` reads the missing intent
  and raises, on every attempt (`UnparsedRunsOnlyRaise`).
- Verdicts are keyed by notice and claim ordinal. For an accepted draft every claim gets its own verdict,
  whatever the verifier answers, exactly when no two items of one notice both carry claims
  (`VerdictsAreOwnExactlyWhenApart`, and for the stored rows `StoredVerdictsAreOwnExactlyWhenApart`).
- The validator checks claim citations only. An item-level citation that is not bound passes validation and
  fails at delivery (`ItemCitationsAreNotValidated`); when views are read from the evidence table this is the
  only way an accepted draft is refused (`AcceptedDraftBacked`).

## Model

| member | source | states |
|---|---|---|
| RunLedger.RunStore.Claim | backend/src/bidscope/api/dependencies.py:1056-1096 | The claim is one conditional update: an eligible row becomes `running` under a token no row ever held, any other row is untouched |
| RunLedger.RunStore.EnsureActive | backend/src/bidscope/api/dependencies.py:632-662 | The heartbeat moves only the owner's `updated_at` and reports whether the caller still owns the row |
| RunLedger.RunStore.AssertToken | backend/src/bidscope/graph/executor.py:439-463 | Accepts exactly a `running` row that carries the caller's token |
| RunLedger.RunStore.UpdateStatus | backend/src/bidscope/api/dependencies.py:1108-1154 | The fenced update applies exactly for the owner of a running row and clears the token when it leaves `running`; without a token nothing happens |
| RunLedger.RunStore.Recover | backend/src/bidscope/graph/executor.py:724-778 | A stuck row whose heartbeat is before the cut-off, or any stuck row without a cut-off, becomes `retryable` without a token; a younger or differently settled one is untouched; the count is right |
| RunLedger.RunStore.NextEventSeq | backend/src/bidscope/graph/executor.py:430-436 | The scan returns one more than the largest stored sequence, 0 for none |
| RunLedger.RunStore.AppendEvents | backend/src/bidscope/graph/executor.py:602-661 | One transaction: ownership first, then one row per new event at its own sequence; a taken sequence or a lost token leaves both tables as they were |
| RunLedger.AppendKeepsDense | backend/src/bidscope/graph/executor.py:602-661 | Appending right behind a gap-free log never collides and leaves it gap-free with the expected length |
| EventCursor.ReconcileFromBase | backend/src/bidscope/graph/executor.py:329-414 | Proceeds exactly when some cursor makes the stored suffix equal, up to timestamps, to a prefix of the checkpoint's events (to all of them when completeness is required), and returns that cursor |
| EventCursor.ReconcileLegacy | backend/src/bidscope/graph/executor.py:343-374 | A checkpoint without a base is accepted exactly when it equals the whole stored history |
| EventCursor.AlignedUnique | backend/src/bidscope/graph/executor.py:374-414 | At most one cursor aligns, so realignment is determined |
| RunSafety.NextKeepsInv | backend/src/bidscope/api/dependencies.py:527-816 | Every action of every worker, crash, cancel and lost lock included, keeps the ownership invariant |
| RunFencing.RowsAreContiguous | backend/src/bidscope/graph/executor.py:602-661 | In every reachable state a run's event rows are exactly 0..n-1, and the token is set exactly while the run is `running` |
| RunFencing.HistoryIsPermanent | backend/src/bidscope/api/dependencies.py:1117-1154 | Event rows are never changed or removed; `completed` and `failed` are absorbing |
| RunFencing.SupersededForever | backend/src/bidscope/api/dependencies.py:1056-1096 | A superseded token never owns the row again |
| RunFencing.SupersededIsHarmless | backend/src/bidscope/graph/executor.py:612-661 | A superseded worker can never again append an event, heartbeat or change a status, even after losing its lock session |
| RunFencing.OnlyTheOwnerAppends | backend/src/bidscope/graph/executor.py:602-661 | A run's log grows only by an action of the worker that owns the row at that moment |
| RunExits.EndedWorkersOwnNothing | backend/src/bidscope/api/dependencies.py:527-816 | In every reachable state a worker that ended by any other than the six listed causes does not own its row |
| RunExits.StrandingCausesAreExact | backend/src/bidscope/api/dependencies.py:565-606 | A worker can end by a cause and still own its row exactly when the cause is one of: raised call, heartbeat failure with failed repair, result without status, timed-out or failed cancellation repair, crash; each with a run of the system |
| RunExits.CancelledOnlyGivesBack | backend/src/bidscope/api/dependencies.py:401-437 | From the moment a cancellation is delivered, through all later steps, the worker changes no log, no checkpoint and no row but its own running one, and that only to `retryable` |
| RunExits.CancelledRunBecomesRetryable | backend/src/bidscope/api/dependencies.py:439-525 | A worker cancelled while it owned its row, whose repair ran, owned it up to one moment; right after it the row is `retryable`, and the worker never owns it again |
| RunExits.LostSessionBreaksExclusion | backend/src/bidscope/graph/executor.py:248-280 | A run in which recovery takes the lock of a worker whose lock session was lost while that worker still works |
| RunRefinement.LogIsAttemptSegments | backend/src/bidscope/graph/executor.py:466-586 | The log is a concatenation of attempt segments, each equal, up to timestamps, to a prefix of the events that attempt's graph streamed, under any interleaving of claims, crashes, recovery, resume and fresh retry |
| RunRefinement.ReportedLogIsComplete | backend/src/bidscope/graph/executor.py:540-586 | When an owner reports a result, its log is the earlier segments followed by every event of its graph |
| RunRefinement.OneHolderPerKey | backend/src/bidscope/graph/executor.py:248-280 | At most one worker per lock key, hence per run, is between acquire and release |
| RunRefinement.RecoverySparesHolders | backend/src/bidscope/graph/executor.py:754-778 | Stale recovery demotes a running row only while no other worker holds that run's lock |
| RunRefinement.CheckpointWritesAreGuarded | backend/src/bidscope/graph/executor.py:146-217 | Every checkpoint write or delete comes from the lock holder after a guard that saw its own token, with the lock held in between |
| RunLifecycle.StatusMovesOnly | backend/src/bidscope/api/dependencies.py:1056-1154 | Over whole behaviours a run's status changes only by a claim of the status its entry point asks for, back to `retryable` by the owner or by recovery, by the owner's report of the outcome it holds, or by recovery of a pending row |
| RunLifecycle.RecoveryGoesByAge | backend/src/bidscope/graph/executor.py:724-778 | A recovery step with a cut-off gives a row stuck in the recovered status `retryable` and no token exactly when its last heartbeat is before the cut-off, and leaves every other row as it is |
| RunLifecycle.HeartbeatProtects | backend/src/bidscope/api/dependencies.py:632-662 | A run whose worker refreshed its heartbeat at or after a cut-off is never demoted by recovery with that cut-off while no clock reads earlier |
| RunLifecycle.LostRowsAreSettled | backend/src/bidscope/api/dependencies.py:1108-1154 | When a worker stops owning its row the row has no token and is `retryable`, or carries the outcome that very worker just reported |
| RunLifecycle.AppendedRows | backend/src/bidscope/graph/executor.py:644-661 | Every new event gets a row with its own fields and its own time, or the time of the append where its own cannot be read |
| RunLifecycle.FreshAttemptsFoundNothing | backend/src/bidscope/api/dependencies.py:909-922 | An attempt that starts afresh goes back to a retry's checkpoint lookup that found nothing to resume |
| SubscriptionDiff.DetectMaterialChanges | backend/src/bidscope/retrieval/deduplication.py:195-273 | Names each of the seven watched fields exactly when the versions' own values differ, texts compared normalised, with both values as written, in reporting order; nothing exactly when none moved |
| SubscriptionDiff.ReportIsExact | backend/src/bidscope/retrieval/deduplication.py:195-273 | For each of the seven fields the specified report holds a change of it exactly when the two versions' own values differ, with both texts; it is empty exactly when none moved |
| SubscriptionDiff.KnownIsToldExactlyWhenMoved | backend/src/bidscope/subscriptions/service.py:846-913 | A notice whose seen version is stored raises a material-change event exactly when its content hash and one of the seven fields moved, and never a new-notice event |
| SubscriptionDiff.UnknownIsToldAsNew | backend/src/bidscope/subscriptions/service.py:846-913 | A notice never seen, or whose seen version is gone, raises a new-notice event and no other |
| SubscriptionDiff.CountsAreEvents | backend/src/bidscope/subscriptions/service.py:846-913 | The counters of a cycle are the numbers of its events of each kind |
| SubscriptionDiff.CursorIsLastMatch | backend/src/bidscope/subscriptions/service.py:964-990 | After a cycle the cursor of a notice is the hash of its last match |
| SubscriptionDiff.Subscriber.LoadSeenViews | backend/src/bidscope/subscriptions/service.py:915-962 | Rebuilds the seen view of exactly the seen notices whose version is still stored |
| SubscriptionDiff.Subscriber.DiffAndEmit | backend/src/bidscope/subscriptions/service.py:846-913 | Emits one event per new or materially changed notice, in order; the counters are the numbers of events of each kind and add up to the notices processed |
| SubscriptionDiff.Subscriber.AdvanceSeen | backend/src/bidscope/subscriptions/service.py:964-990 | The cursor ends at each processed notice's latest hash, other entries unchanged |
| SubscriptionFeed.FeedsTelescope | backend/src/bidscope/subscriptions/service.py:846-990 | After any number of cycles a seen notice was announced as new exactly once, and the material projection of its seen version is the one its latest event reported |
| SubscriptionFeed.ReportedExactlyWhenChanged | backend/src/bidscope/subscriptions/service.py:846-913 | A known notice gets an event exactly when it differs materially from what its latest event reported, however many formatting-only versions lie between |
| SubscriptionFeed.IdenticalRerunIsSilent | backend/src/bidscope/subscriptions/service.py:846-990 | Running the same cycle again emits nothing and counts every notice unchanged |
| OccurrenceProtocol.OccurrencesCommitOnce | backend/src/bidscope/subscriptions/service.py:514-731 | Over any interleaving, committed occurrences strictly increase, lie before the stored next run, and account for the whole inbox and the seen cursor |
| OccurrenceProtocol.EffectsMoveTogether | backend/src/bidscope/subscriptions/service.py:601-731 | Events, seen cursor and schedule move only together, by one committed cycle, and the next run strictly increases |
| OccurrenceProtocol.OneExecutionPerOccurrence | backend/src/bidscope/graph/executor.py:664-721 | The bridge starts at most one graph execution for a scheduled run |
| OccurrenceProtocol.InboxesTelescope | backend/src/bidscope/subscriptions/service.py:514-599 | The telescoping property holds in every reachable state of the scheduler protocol |
| OccurrenceRuns.CommitIsOneCycle | backend/src/bidscope/subscriptions/service.py:601-731 | A committed cycle is the work of a worker that found this occurrence due on an active subscription and loaded the delivered report of its minute; it tells about notices of that report only, each exactly as its fields moved, moves their cursors, schedules the next run after this occurrence and clears the failures |
| OccurrenceRuns.CheckedBefore | backend/src/bidscope/subscriptions/service.py:514-599 | Whoever works on an occurrence checked, while holding its lock, that the subscription was active and that the occurrence was the stored next run |
| OccurrenceRuns.ThreeFailuresPause | backend/src/bidscope/subscriptions/service.py:992-999 | A subscription is active exactly as long as no three failures were recorded without a commit between; its counter is the failures since the last commit |
| OccurrenceRuns.StartsAreApart | backend/src/bidscope/subscriptions/service.py:375-384 | No two graph starts of one behaviour are for the same subscription and the same minute |
| CronWeekdays.ParseIsRender | backend/src/bidscope/subscriptions/service.py:228-240 | The two token patterns accept exactly the renderings of well-formed tokens, each in one way |
| CronWeekdays.NormalizeCrontabDayOfWeek | backend/src/bidscope/subscriptions/service.py:242-336 | The loop with its seen set computes the rewrite the next rows are about; an expression without five fields is left as it is |
| Strings.WordsOfSum | backend/src/bidscope/subscriptions/service.py:251-253 | The fields of an expression are split at every ASCII white-space character |
| CronRewrite.RewriteKeepsMeaning | backend/src/bidscope/subscriptions/service.py:242-336 | Fails exactly on a malformed token; otherwise the other four fields and the set of weekdays are kept, every weekday is a name that occurs once, and rewriting again changes nothing (the days a token denotes are pinned to integers in `CronDenotation`) |
| CronDenotation.EndpointSpelled | backend/src/bidscope/subscriptions/service.py:264-273 | An endpoint stands for a number exactly when its text is leading zeros and that digit up to 7, or that weekday's name in any case |
| CronDenotation.TokenDenotes | backend/src/bidscope/subscriptions/service.py:290-323 | A value or range token is accepted exactly when its texts spell a walk from a to b in steps of s; it denotes the days v % 7 of the stops and is rewritten to their names in order |
| CronDenotation.StarDenotes | backend/src/bidscope/subscriptions/service.py:276-288 | `*` denotes every day; `*` with a step is accepted for 1 to 7 and denotes the multiples of the step below 7, rewritten to their names |
| CronDenotation.NumberDenotes | backend/src/bidscope/subscriptions/service.py:257-273 | The text of a number a up to 7 denotes the day a % 7, Sunday being 0, and is rewritten to that day's name |
| CronDenotation.OnlyTokens | backend/src/bidscope/subscriptions/service.py:234-240 | No text of another form is accepted |
| CronDenotation.FieldIsUnion | backend/src/bidscope/subscriptions/service.py:325-335 | A field denotes a day exactly when one of its comma-separated tokens does |
| EvidenceSpans.ExtractEvidence | backend/src/bidscope/evidence/extractor.py:24-61 | Succeeds exactly when no snippet is empty and some in-order placement without overlap exists; the spans are then those of the leftmost placement; an error names the first snippet that cannot be placed |
| EvidenceSpans.SpansSliceBack | backend/src/bidscope/evidence/extractor.py:40-61 | Spans increase, are disjoint and slice back to their snippets |
| EvidenceSpans.JoinedIsPlaceable | backend/src/bidscope/graph/nodes.py:295-302 | Texts can always be placed in their newline-joined text, so the extraction of a notice's own texts never fails for want of a place |
| EvidenceValidation.VerifyEvidence | backend/src/bidscope/graph/nodes.py:278-332 | The map binds a correct span to every supporting text of every candidate with a view and holds nothing else; it fails only on an empty text; opportunities quote every text in order |
| ClaimValidation.ValidateClaim | backend/src/bidscope/evidence/validator.py:50-91 | The error list of a claim, one entry per failed check in citation order; valid exactly when it is empty |
| ClaimValidation.ValidateReport | backend/src/bidscope/evidence/validator.py:94-122 | Every distinct error once, in first-seen order; valid exactly when no claim has an error |
| ClaimValidation.AcceptedExactlyWhenWellCited | backend/src/bidscope/evidence/validator.py:94-122 | Accepted exactly when every claim cites something and every citation is the hash of a supporting text of the item's own candidate notice |
| ClaimValidation.EvidenceForClaim | backend/src/bidscope/graph/nodes.py:389-417 | Looks up the first span of the item's notice per citation, skipping citations without one |
| ClaimValidation.EvidenceIsParallel | backend/src/bidscope/graph/nodes.py:389-417 | For an accepted claim nothing is skipped: one span per citation, in order, with the cited hash and the item's notice |
| ClaimValidation.OfflineDraftAccepted | backend/src/bidscope/llm/fake.py:280-298 | The offline report model's draft of the verified opportunities is always accepted |
| ClaimValidation.VerifySemantics | backend/src/bidscope/graph/nodes.py:420-475 | The verdicts of the claims with evidence, in item and claim order, those that raised left out; degraded exactly when some judgement raised |
| ClaimValidation.VerdictsAreOwnExactlyWhenApart | backend/src/bidscope/graph/nodes.py:441-461 | For an accepted draft every claim gets its own verdict for every verifier exactly when no two items of one notice both carry claims |
| EvidenceLaws.OpportunitiesInOrder | backend/src/bidscope/graph/nodes.py:291-325 | One opportunity for each candidate with a view, in candidate order and no other, with the view's fields, texts and hashes |
| EvidenceLaws.OfflineDraftQuotes | backend/src/bidscope/llm/fake.py:280-298 | The offline draft has one item per opportunity with one claim and one citation per supporting text, in order, under the text's hash |
| EvidenceLaws.ErrorsMean | backend/src/bidscope/evidence/validator.py:50-122 | For every evidence map, a kind of error is reported exactly when some claim commits it, each kind in terms of citations and spans |
| EvidenceLaws.AcceptedExactlyWhenBacked | backend/src/bidscope/evidence/validator.py:50-122 | For every evidence map, a draft is accepted exactly when every claim cites something and for each citation the first span of the item's notice is there, with sound offsets and its own hash |
| EvidenceLaws.EvidenceMeans | backend/src/bidscope/graph/nodes.py:389-417 | For every evidence map, a claim's evidence is the first span of the notice for each citation that has one |
| EvidenceLaws.VerdictsAnswerEvidencedClaims | backend/src/bidscope/graph/nodes.py:420-475 | The verdict list has one entry for each claim that has evidence and whose judgement did not raise, and no other, in item and claim order |
| EvidenceLaws.VerdictIsLast | backend/src/bidscope/delivery/reports.py:392-404 | A claim is answered by the last entry for its notice and ordinal, and not at all without one |
| EvidenceLaws.StampsLastVerdict | backend/src/bidscope/graph/nodes.py:544-572 | Stamping gives every claim the status of that entry, or none, and changes nothing else of the draft |
| Workflow.OnlyWellCitedIsDelivered | backend/src/bidscope/graph/nodes.py:351-386 | A delivered report is a draft the validator accepted against the run's own evidence, so every citation of every claim is well founded |
| Workflow.DeliveryIsLast | backend/src/bidscope/graph/builder.py:166-179 | A delivery that stored a report ends its run; nothing runs after it |
| Workflow.RunsAreBounded | backend/src/bidscope/graph/builder.py:120-190 | However often it is resumed, a run completes at most 14 node executions, below the recursion limit of 16, and synthesizes at most twice |
| Workflow.StepsDecrease | backend/src/bidscope/graph/builder.py:120-190 | Every completed node strictly lowers the number of executions that remain |
| Workflow.OutcomesAreDefinite | backend/src/bidscope/graph/nodes.py:478-541 | A run ends `completed` exactly with a stored report, else `failed`; a paused run awaits confirmation; these are the outcomes a worker may report (which runs pause and why one fails: `ConfirmationIsByIntent`, `RunsEndForAReason`) |
| Workflow.UnparsedRunsOnlyRaise | backend/src/bidscope/graph/nodes.py:105-156 | After a failed parse the run stays at `validate_intent` forever, raising each time |
| WorkflowRuns.NodesInOrder | backend/src/bidscope/graph/builder.py:120-190 | Whatever raises and resumes lie between, before each node the last one completed is one of its predecessors in the graph |
| WorkflowRuns.ConfirmationIsByIntent | backend/src/bidscope/graph/nodes.py:159-193 | A run whose intent is scheduled or has confidence below 0.5 completes its retrieval plan only after a resume from the pause; any other run is never paused |
| WorkflowRuns.OnlySearchableIntentsGoOn | backend/src/bidscope/graph/nodes.py:105-156 | Nothing past validation happens for an intent without topics or regions or with an inverted range; completing the validation goes on exactly for the others |
| WorkflowRuns.ValidationIsByCitations | backend/src/bidscope/graph/nodes.py:351-386 | The validator goes on with a draft exactly when every claim is well cited; the first draft it turns down is written again, the second fails the run |
| WorkflowRuns.RunsEndForAReason | backend/src/bidscope/graph/nodes.py:105-541 | A run fails only for an intent that cannot be searched for, for a second draft that is not well cited, or because nothing was stored; it completes only by a delivery that stored the draft, exported or not |
| WorkflowRuns.VerdictsBeforeDelivery | backend/src/bidscope/graph/builder.py:166-179 | Before delivery the verdicts were collected once, for the very draft that is delivered |
| ReportTables.GroupsAreChildren | backend/src/bidscope/delivery/reports.py:310-363 | Splitting one select ordered by parent, ordinal and id gives each parent exactly its own ordered rows |
| ReportTables.Group | backend/src/bidscope/delivery/reports.py:320-351 | The grouping loop gives every parent its own rows in order |
| Reports.IndexVerifications | backend/src/bidscope/delivery/reports.py:392-404 | The index answers with the last entry for a notice and claim ordinal |
| Reports.ApplySupportStatus | backend/src/bidscope/graph/nodes.py:544-572 | Every claim carries the status of its own verdict or none; items without claims are as drafted |
| ReportDelivery.ReportPersistence.ResolveEvidence | backend/src/bidscope/delivery/reports.py:269-302 | An unbound citation and a missing evidence row are told apart; otherwise the lowest-numbered evidence row of that notice and hash |
| ReportDelivery.ReportPersistence.PersistItemCitations | backend/src/bidscope/delivery/reports.py:184-205 | Succeeds exactly when every item citation resolves, and then stores one row per citation, in order, with label and span, and nothing else |
| ReportDelivery.ReportPersistence.PersistClaim | backend/src/bidscope/delivery/reports.py:216-260 | Stores the claim, its verdict and its distinct citations in order under a new row; fails exactly when a citation does not resolve |
| ReportDelivery.ReportPersistence.PersistOnlineReport | backend/src/bidscope/delivery/reports.py:73-158 | Stores the whole report exactly when every citation resolves; a failure leaves no row; an existing report for the run is returned and nothing changes |
| ReportDelivery.ReportPersistence.Project | backend/src/bidscope/delivery/reports.py:310-389 | The grouped queries and loops compute the projection the round trip is about |
| ReportRoundTrip.StoredReportReadsBack | backend/src/bidscope/delivery/reports.py:310-389 | Reading a stored report gives back the same items, citations, labels, claims, claim citations, order and support status |
| ReportRoundTrip.PersistAndDeliver | backend/src/bidscope/graph/nodes.py:478-541 | What delivery returns is what loading returns from then on; a failure changes nothing; a second delivery returns the first report; no other run's report is affected |
| ReportRoundTrip.SameProjection | backend/src/bidscope/delivery/reports.py:160-164 | Storing another report leaves a report's projection alone |
| ReportRoundTrip.OwnVerdictRows | backend/src/bidscope/delivery/reports.py:207-240 | Of a stored draft, every claim's row carries its own judgement, in status and verdict row, exactly when the verifier's list answers with it |
| ReportRoundTrip.StoredVerdictsAreOwnExactlyWhenApart | backend/src/bidscope/delivery/reports.py:392-404 | From accepted draft to rows: without items of one notice that share claims every stored report has each claim's own judgement on its row; with such items some answers leave none that has |
| ReportRoundTrip.VerifyAndDeliver | backend/src/bidscope/graph/nodes.py:420-541 | Verification and delivery of a draft in one: what is returned loads back, and claims that are apart find their own judgement on their rows |
| ReportRoundTrip.SharedNoticeSharesVerdicts | backend/src/bidscope/graph/nodes.py:544-572 | Of any stored report, two items of one notice have the same verdict rows on the claims they both have |
| ReportRoundTrip.AcceptedDraftBacked | backend/src/bidscope/api/dependencies.py:107-132 | With views read from the evidence table, an accepted draft can be stored exactly when its item-level citations are bound |
| RunDelivery.Deliver | backend/src/bidscope/graph/nodes.py:478-541 | The last step of the workflow against the store: a run without a report completes exactly when the item-level citations are bound, and a completed run's report loads back as the accepted draft with its verdicts stamped on |
| ReportRoundTrip.AcceptedClaimsAreBound | backend/src/bidscope/delivery/reports.py:276-288 | Delivery never refuses a citation of an accepted claim as unbound |
| ReportRoundTrip.ItemCitationsAreNotValidated | backend/src/bidscope/evidence/validator.py:106-112 | An accepted draft with an unbound item-level citation is refused at delivery |
| ReportRows.ResolvedMeans | backend/src/bidscope/delivery/reports.py:269-302 | A citation resolves to the lowest evidence row of its notice and hash; unbound and bound without a row are the two errors |
| ReportRows.CitationRowsQuote | backend/src/bidscope/delivery/reports.py:184-205 | Each citation row of a stored report, in order, names that evidence row and carries its start and end and the citation's label |
| ReportRows.ClaimRowsCarry | backend/src/bidscope/delivery/reports.py:207-267 | Each claim's row carries its text and the last verdict for it, and one claim citation row per citation, in order, under the label of the first item citation with that hash |
| EventStream.FindSseFrameEnd | web/src/api/client.ts:207-215 | Finds the end of the first blank-line separator, LF LF or CR LF CR LF, or reports none |
| EventStream.SplitTakesTheSeparator | web/src/api/client.ts:217-220 | The split takes off exactly the separator unless it is LF LF with a carriage return two characters before it; then two characters more are lost |
| EventStream.LoneReturnLosesText | web/src/api/client.ts:217-220 | A concrete buffer whose frame loses its text |
| EventStream.FramesExtend | web/src/api/client.ts:185-196 | The frames of a longer text are those of its beginning followed by those of the remainder with the new text |
| EventStream.ConsumeEventStream | web/src/api/client.ts:179-201 | However the text is cut into chunks: frames written with a blank line after each are handed out up to and including the first terminal one; without one all of them, and then the unfinished last text with the flush, exactly when it is not blank |
| EventStream.FlushIsText | web/src/api/client.ts:198-201 | A final flush without a line feed is as good as more text |
| EventStream.ServerFramesReadBack | web/src/api/client.ts:185-196 | Frames written with a blank line after each, in either line ending, are read back exactly and nothing is left over |
| EventStream.WrittenIsHandedOut | web/src/api/client.ts:179-201 | Of frames written with a blank line after each and a text behind them, the frames up to the first terminal one are handed out; without one all frames, and then the text with the flush unless it is blank |
| RankFusion.ReciprocalRankFuse | backend/src/bidscope/retrieval/search.py:108-145 | The two dictionaries and the sort give the stable descending order of every listed id with its exact score and ranks |
| RankFusion.FusedIsTheUnion | backend/src/bidscope/retrieval/search.py:135-145 | The output ids are exactly the union without repeats, with exact scores that never rise |
| RankFusion.TiesKeepOrder | backend/src/bidscope/retrieval/search.py:142-145 | Among equal scores the id seen first, lexical before vector, comes first |
| RankFusion.DominantComesFirst | backend/src/bidscope/retrieval/search.py:124-144 | A candidate ahead of another in every list where the other appears comes strictly first |
| RankFusion.EmptyVectorKeepsLexicalOrder | backend/src/bidscope/retrieval/search.py:108-145 | Without vector results the output is the lexical order |
| RankFusion.FusedScores | backend/src/bidscope/retrieval/search.py:108-145 | A candidate's score is the lexical weight over k plus each of its lexical positions plus the vector weight over k plus each of its vector positions; its ranks are its last positions |
| RankingMetrics.DcgBound | backend/src/bidscope/evaluation/metrics.py:107-119 | A ranking's gain never beats its own hits moved to the front, and equals it exactly when they are there |
| RankingMetrics.NdcgBounds | backend/src/bidscope/evaluation/metrics.py:107-119 | nDCG lies in [0, 1] and is 1 exactly when the first min(relevant, k) distinct results are all relevant |
| RankingMetrics.RecallBounds | backend/src/bidscope/evaluation/metrics.py:100-104 | Recall lies in [0, 1] and is 1 exactly when the first k distinct results hold everything relevant |
| RankingMetrics.RepeatsDoNotCount | backend/src/bidscope/evaluation/metrics.py:95-119 | Repeated results change neither metric |
| RankingMetrics.RecallByResult | backend/src/bidscope/evaluation/metrics.py:100-104 | Recall starts at 0 and one more distinct result adds one relevant document's share exactly when it is relevant |
| RankingMetrics.NdcgByResult | backend/src/bidscope/evaluation/metrics.py:107-119 | nDCG times the first min(relevant, k) discounts starts at 0 and one more distinct result adds its discount exactly when it is relevant |
| IngestionRun.FetchPageWithRetry | backend/src/bidscope/ingestion/service.py:270-285 | Only retryable client and payload faults are retried, never a rate limit, at most twice, and the last answer is returned |
| IngestionRun.AcquirePages | backend/src/bidscope/ingestion/service.py:124-161 | Reaches the end exactly when the imported pages form a complete chain from the stored cursor, with at most 3 fetches per allowed page; otherwise the status follows from what stopped it: the last fetch's fault, the work on the page after the imported ones, a cursor that did not move, or too many pages |
| IngestionRun.AcquisitionRepository.Finalize | backend/src/bidscope/persistence/repositories.py:356-421 | A run is finalized once; a settled run is left alone |
| IngestionRun.AcquisitionRepository.RunOnce | backend/src/bidscope/ingestion/service.py:100-268 | Whatever other runs did meanwhile, the cursor moves only from the value this run started at to the end of its complete chain; any other outcome leaves it; the row's status says why the run stopped, `failed` for a complete chain that lost the cursor, and its totals count every page, stored response and import |
| IngestionProtocol.CursorFollowsImportedPages | backend/src/bidscope/ingestion/service.py:100-268 | The stored cursor is always where the imported pages of the successful runs lead from the very beginning; none is skipped |
| IngestionProtocol.CursorTravelsByChains | backend/src/bidscope/persistence/repositories.py:308-336 | Between any two states of interleaved runs the cursor's way is made of the complete chains of exactly the runs that succeeded in between, each starting where the one before ended |
| IngestionProtocol.RunsLandOnce | backend/src/bidscope/persistence/repositories.py:376-386 | No run moves the cursor twice |
| SnapshotStore.BuildEvidence | backend/src/bidscope/snapshots/importer.py:434-465 | The loops over columns and raw fields produce the evidence list the next row is about |
| SnapshotStore.EvidenceIsQuoted | backend/src/bidscope/snapshots/importer.py:434-465 | A notice's evidence is a whole-value span for each non-empty business field and nothing else |
| SnapshotStore.SpanPerText | backend/src/bidscope/snapshots/importer.py:434-465 | One span per populated text, in order, equal texts included |
| SnapshotStore.NoticeRowsAreTheNotice | backend/src/bidscope/snapshots/importer.py:381-432 | An imported notice leaves one source notice row with its content hash, and a new version exactly when none had this hash, with the notice's own fields, object key and spans |
| SnapshotStore.NoticeKeepsValid | backend/src/bidscope/snapshots/importer.py:381-432 | Importing a notice keeps one version per source notice and hash, evidence written once, and every version's object in place with matching bytes |
| SnapshotImport.SnapshotImporter.ImportNotice | backend/src/bidscope/snapshots/importer.py:381-432 | The object survives even when the import raises after it; rows change only by the notice's own update |
| SnapshotImport.SnapshotImporter.ImportVerifiedBundle | backend/src/bidscope/snapshots/importer.py:212-345 | Reused exactly for a known key and then nothing changes; refused exactly for a changed manifest; an interruption leaves no row; success versions every notice |
| SnapshotImport.ImportHistory | backend/src/bidscope/snapshots/importer.py:212-345 | Over any sequence of imports, refusals and interruptions manifests, versions and evidence never change, every version is backed by its bytes, and a bundle imported once is only recognised |
| SnapshotImport.ImportFromFiles | backend/src/bidscope/snapshots/importer.py:212-379 | With a digest that tells its arguments apart, after any attempts a bundle is recognised exactly when one with its id, manifest file and notice contents landed, and refused exactly when one with its id and another manifest did |

## Left out

- Routes, authentication, health, CORS, the server's event loop and the web views: plumbing and user interface.
- SQLAlchemy, PostgreSQL, LangGraph, APScheduler: taken as atomic conditional updates, session locks, a growing event list and a next fire time strictly after its reference.
- asyncio shielding and cancel counting: a drained step finishes and the cancellation is delivered after it.
- Runs without a token and the unfenced branch of `_update_status`: legacy paths without ownership.
- Reservations and capacity limits of the run service, timings and sleeps.
- A guard's token check and its heartbeat are one step of the run protocol; the checkpoint write after it is another.
- OccurrenceProtocol.OccurrencesCommitOnce: lost lock sessions are not modelled for scheduler workers, only crashes and aborted occurrences.
- Manual subscription runs, pause and resume: not covered by the occurrence check.
- The selection of due subscriptions and its counters: every worker may be spawned for any occurrence at any time.
- The hash-only branch of the diff: unreachable, because seen hashes come from loaded views.
- SubscriptionDiff.DetectMaterialChanges: Unicode normalisation and the text of moments and whole numbers are parameters.
- CronWeekdays.NormalizeCrontabDayOfWeek: digits and white space are the ASCII ones, not every Unicode one.
- Duplicate classification, candidate retrieval and the parse retry: their results are arbitrary inputs of the workflow.
- EvidenceValidation.VerifyEvidence: the display fields of an opportunity are carried as one value.
- ReportDelivery.ReportPersistence.PersistOnlineReport: two sessions racing to insert the same run's report are not modelled; the DOCX export only appears as an outcome of the workflow.
- EventStream.ConsumeEventStream: parsing a frame into an event is a parameter that says whether the frame is terminal.
- Float rounding in scores and metrics; the logarithm enters only as a positive, strictly decreasing discount.
- IngestionRun.AcquisitionRepository.Finalize: the cursor's version and failure count are not followed, because what they are after a failing run depends on object caching; a run's version may or may not be current, and only the cursor value is followed.
- A transaction that raises is taken not to be committed, except the status update of a cancellation that times out, which may have been.
- SnapshotImport.SnapshotImporter.ImportVerifiedBundle: two importers racing on the same source notice are not modelled; timestamps of rows are left out; a key of an unfinished import cannot be committed, so it does not occur.
- SHA-256, JSON canonicalisation and the idempotency digest: uninterpreted functions.
- Backups, configuration, migrations, adapters, metrics registry, redaction, object-store backends and model providers.
