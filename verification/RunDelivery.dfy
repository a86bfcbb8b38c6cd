/** The last node of the workflow, run against the report store. */
module RunDelivery {
  import opened Prelude
  import opened Reports
  import opened ReportTables
  import opened ReportStore
  import opened ReportDelivery
  import opened ReportRoundTrip
  import opened EvidenceValidation
  import opened ClaimValidation
  import W = Workflow

  /** The workflow stands before delivery, and its views were read from the evidence table. */
  ghost predicate ReadyToDeliver(d: Db, s: W.State, hashOf: string -> Hash) {
    && Valid(d) && W.Inv(s, hashOf) && s.phase == W.Next(W.PersistAndDeliver)
    && ViewsStored(d.evidence, s.views, hashOf)
    && (s.report.Some? ==> forall item :: item in s.report.value ==> ValidItem(item))
  }

  lemma ReadyIsAccepted(d: Db, s: W.State, hashOf: string -> Hash)
    requires ReadyToDeliver(d, s, hashOf)
    ensures s.report.Some? && s.intent.Some?
    ensures ReportErrors(s.report.value, s.evidence, hashOf) == []
    ensures BindsAll(s.evidence, s.candidates, s.views, hashOf)
  {
    assert W.Facing(s.phase, W.PersistAndDeliver);
    assert W.Accepted(s.report.value, s, hashOf);
  }

  /** `persist_and_deliver` as a step of the workflow. For a run without a report it completes exactly when
      the draft's item-level citations are bound, and a completed run's report loads back as the accepted
      draft with its verdicts stamped on; a failed one leaves the store alone. A run that has a report
      completes and keeps it. */
  method Deliver(store: ReportPersistence, s: W.State, runId: nat, header: Header, exported: bool,
                 ghost hashOf: string -> Hash)
    returns (s': W.State, ghost result: W.DeliveryResult)
    requires ReadyToDeliver(store.db, s, hashOf)
    modifies store
    ensures Valid(store.db) && W.Step(s, W.Run(W.Stored(result)), s', hashOf) && W.Inv(s', hashOf)
    ensures s'.phase.Ended? && (s'.status == W.Completed || s'.status == W.Failed)
    ensures Load(old(store.db), runId).None? ==>
      (s'.status == W.Completed <==> forall item :: item in s.report.value ==> ItemCitationsBound(s.evidence, item))
    ensures Load(old(store.db), runId).None? && s'.status == W.Completed ==>
      && s'.delivered.Some? && Load(store.db, runId).Some?
      && Load(store.db, runId).value.report == Report(runId, header, Stamped(s'.delivered.value, s.verdicts))
    ensures s'.status == W.Failed ==> store.db == old(store.db)
    ensures Load(old(store.db), runId).Some? ==> s'.status == W.Completed && store.db == old(store.db)
  {
    hide BindsAll, ReportErrors, Valid, ValidItem, ItemBacked, ItemCitationsBound, Stores, Projected, W.Inv;
    ReadyIsAccepted(store.db, s, hashOf);
    AcceptedDraftBacked(store.db.evidence, s.report.value, s.evidence, s.candidates, s.views, hashOf, s.verdicts);
    var r := PersistAndDeliver(store, runId, header, s.report.value, s.evidence, s.verdicts);
    var status := if r.Ok? then W.Completed else W.Failed;
    result := if r.Err? then W.NotStored else if exported then W.Exported else W.DocxFailed;
    s' := s.(status := status, delivered := if r.Ok? then s.report else s.delivered, phase := W.Ended, ran := s.ran + 1);
    W.StepKeepsInv(s, W.Run(W.Stored(result)), s', hashOf);
  }
}
