/** One acquisition run: follow the source's pages from the stored cursor, then try to move the cursor. */
module IngestionRun {
  import opened Prelude

  const MAX_TRANSIENT_RETRIES := 2

  datatype Page = Page(next: Option<string>, items: nat, hash: string)

  datatype FaultKind = RateLimit | Payload | Client | Unexpected

  /** The answer to one fetch. */
  datatype Fetch = Got(page: Page) | Fault(kind: FaultKind, retryable: bool)

  /** What became of a fetched page: response not stored; stored and quarantined, or broken otherwise;
      stored, materialized and imported. */
  datatype Work = NotStored | Quarantine | Broken | Imported(notices: nat, newBundle: bool)

  datatype Status = Running | Success | Failed | Quarantined | RateLimited

  /** An imported page, the number of the fetch that brought it and the cursor it was requested with. */
  datatype Step = Step(call: nat, request: Option<string>, page: Page)

  datatype Stats = Stats(requests: nat, records: nat, notices: nat, bundles: nat, hashes: seq<string>)

  datatype End = Reached(cursor: string) | Stopped(status: Status)

  /** The answer of the source to the n-th fetch of a run. */
  type Source = (nat, Option<string>) -> Fetch

  /** The adapter never hands on an empty next cursor. */
  ghost predicate SourceOk(source: Source) {
    forall n, c :: source(n, c).Got? ==> source(n, c).page.next != Some("")
  }

  function Request(cursor: string): Option<string> {
    if cursor == "" then None else Some(cursor)
  }

  predicate Transient(f: Fetch) {
    f.Fault? && f.retryable && (f.kind == Payload || f.kind == Client)
  }

  /** `_fetch_page_with_retry`: only transient faults are retried, and at most twice. */
  method FetchPageWithRetry(source: Source, call: nat, cursor: Option<string>) returns (f: Fetch, calls: nat)
    ensures 1 <= calls <= MAX_TRANSIENT_RETRIES + 1
    ensures f == source(call + calls - 1, cursor)
    ensures forall n :: call <= n < call + calls - 1 ==> Transient(source(n, cursor))
    ensures Transient(f) ==> calls == MAX_TRANSIENT_RETRIES + 1
    ensures forall n :: call <= n < call + calls - 1 ==> source(n, cursor).Fault? && source(n, cursor).retryable
    ensures calls > 1 ==> forall n :: call <= n < call + calls - 1 ==> source(n, cursor).kind !in {RateLimit, Unexpected}
    ensures calls <= 3 && (f.Fault? && f.retryable && (f.kind == Client || f.kind == Payload) ==> calls == 3)
  {
    var attempts := 0;
    while true
      invariant attempts <= MAX_TRANSIENT_RETRIES
      invariant forall n :: call <= n < call + attempts ==> Transient(source(n, cursor))
      decreases MAX_TRANSIENT_RETRIES - attempts
    {
      f := source(call + attempts, cursor);
      if !Transient(f) || attempts >= MAX_TRANSIENT_RETRIES {
        return f, attempts + 1;
      }
      attempts := attempts + 1;
    }
  }

  // ------------------------------------------------------------ chains

  /** Where a chain of pages ends: the last cursor any of them named. */
  function After(before: string, steps: seq<Step>): string {
    if steps == [] then before
    else
      var last := steps[|steps| - 1].page.next;
      if last.Some? then last.value else After(before, steps[..|steps| - 1])
  }

  /** Each page was requested with the cursor named by the page before it, the first with the stored
      cursor, and every page but the last named a new cursor. */
  ghost predicate Chain(before: string, steps: seq<Step>) {
    && (steps != [] ==> steps[0].request == if before == "" then None else Some(before))
    && (forall i :: 0 <= i < |steps| - 1 ==>
          steps[i].page.next.Some? && steps[i].page.next != steps[i].request
          && steps[i + 1].request == steps[i].page.next)
  }

  /** A chain that reached the source's last page. */
  ghost predicate Complete(before: string, steps: seq<Step>) {
    Chain(before, steps) && steps != [] && steps[|steps| - 1].page.next.None?
  }

  /** The steps are the pages the source served for those calls. */
  ghost predicate Served(source: Source, steps: seq<Step>, calls: nat) {
    forall i :: 0 <= i < |steps| ==>
      steps[i].call < calls && source(steps[i].call, steps[i].request) == Got(steps[i].page)
  }

  function Tally(pages: seq<Page>, work: nat -> Work): Stats {
    if pages == [] then Stats(0, 0, 0, 0, [])
    else
      var rest, last, done := Tally(pages[..|pages| - 1], work), pages[|pages| - 1], work(|pages| - 1);
      Stats(rest.requests + 1,
            rest.records + last.items,
            rest.notices + if done.Imported? then done.notices else 0,
            rest.bundles + if done.Imported? && done.newBundle then 1 else 0,
            if done.NotStored? then rest.hashes else rest.hashes + [last.hash])
  }

  lemma TallyNext(pages: seq<Page>, page: Page, work: nat -> Work)
    ensures
      var rest, done := Tally(pages, work), work(|pages|);
      Tally(pages + [page], work) ==
      Stats(rest.requests + 1, rest.records + page.items, rest.notices + if done.Imported? then done.notices else 0,
            rest.bundles + if done.Imported? && done.newBundle then 1 else 0,
            if done.NotStored? then rest.hashes else rest.hashes + [page.hash])
  {
    assert (pages + [page])[..|pages|] == pages;
  }

  // ------------------------------------------------------------ totals and causes

  function SumItems(pages: seq<Page>): nat {
    if pages == [] then 0 else pages[0].items + SumItems(pages[1..])
  }

  /** Notices of the first `n` imports. */
  function SumNotices(work: nat -> Work, n: nat): nat
    requires forall i :: 0 <= i < n ==> work(i).Imported?
  {
    if n == 0 then 0 else SumNotices(work, n - 1) + work(n - 1).notices
  }

  /** New bundles among the first `n` imports. */
  function NewBundles(work: nat -> Work, n: nat): nat
    requires forall i :: 0 <= i < n ==> work(i).Imported?
  {
    if n == 0 then 0 else NewBundles(work, n - 1) + (if work(n - 1).newBundle then 1 else 0)
  }

  /** The totals of a run whose first `n` pages were imported: every page counts as a request with its items;
      every stored response is listed, that of a page that then failed included; only imports count notices
      and bundles. */
  ghost predicate Totals(stats: Stats, pages: seq<Page>, work: nat -> Work, n: nat)
    requires n <= |pages| <= n + 1 && forall i :: 0 <= i < n ==> work(i).Imported?
  {
    && stats.requests == |pages| && stats.records == SumItems(pages)
    && stats.notices == SumNotices(work, n) && stats.bundles == NewBundles(work, n)
    && |stats.hashes| == (if |pages| > n && !work(n).NotStored? then n + 1 else n)
    && forall i :: 0 <= i < |stats.hashes| ==> stats.hashes[i] == pages[i].hash
  }

  lemma {:induction false} SumItemsNext(pages: seq<Page>, page: Page)
    ensures SumItems(pages + [page]) == SumItems(pages) + page.items
  {
    if pages == [] {
      assert [] + [page] == [page] && [page][1..] == [];
    } else {
      assert (pages + [page])[1..] == pages[1..] + [page];
      SumItemsNext(pages[1..], page);
    }
  }

  lemma {:induction false} TallyOfImported(pages: seq<Page>, work: nat -> Work)
    requires forall i :: 0 <= i < |pages| ==> work(i).Imported?
    ensures Totals(Tally(pages, work), pages, work, |pages|)
  {
    if pages != [] {
      var front, last := pages[..|pages| - 1], pages[|pages| - 1];
      TallyOfImported(front, work);
      SumItemsNext(front, last);
      assert front + [last] == pages;
    }
  }

  lemma TallyIsTotals(pages: seq<Page>, work: nat -> Work, n: nat)
    requires n <= |pages| <= n + 1 && forall i :: 0 <= i < n ==> work(i).Imported?
    requires |pages| > n ==> !work(n).Imported?
    ensures Totals(Tally(pages, work), pages, work, n)
  {
    hide Tally, SumNotices, NewBundles, SumItems;
    TallyOfImported(pages[..n], work);
    if |pages| > n {
      TallyNext(pages[..n], pages[n], work);
      SumItemsNext(pages[..n], pages[n]);
      assert pages[..n] + [pages[n]] == pages;
    } else {
      assert pages[..n] == pages;
    }
  }

  /** The steps are the first of the fetched pages, each of them imported, and at most one page more was
      fetched, which was not. */
  ghost predicate Brought(steps: seq<Step>, pages: seq<Page>, work: nat -> Work) {
    && |steps| <= |pages| <= |steps| + 1
    && (forall i :: 0 <= i < |steps| ==> steps[i].page == pages[i] && work(i).Imported?)
    && (|pages| > |steps| ==> !work(|steps|).Imported?)
  }

  lemma BroughtNext(steps: seq<Step>, pages: seq<Page>, work: nat -> Work, step: Step)
    requires Brought(steps, pages, work) && |steps| == |pages|
    ensures work(|steps|).Imported? ==> Brought(steps + [step], pages + [step.page], work)
    ensures !work(|steps|).Imported? ==> Brought(steps, pages + [step.page], work)
  {
  }

  lemma NothingBrought(work: nat -> Work)
    ensures Brought([], [], work)
  {
  }

  /** The cursor asked for after these pages. */
  function Asked(before: string, steps: seq<Step>): Option<string> {
    if steps != [] then steps[|steps| - 1].page.next else if before == "" then None else Some(before)
  }

  /** Why a run stopped short, and the status it leaves. A page fetched but not imported: quarantined when its
      bundle was, failed otherwise. A cursor that did not move, or pages without end: quarantined. Else the
      last fetch failed: a rate limit, a bad payload, anything else. */
  ghost predicate StopsFor(source: Source, work: nat -> Work, before: string, maxPages: nat, steps: seq<Step>,
                           fetched: nat, calls: nat, status: Status)
  {
    if fetched > |steps| then
      && !work(|steps|).Imported?
      && status == (if work(|steps|).Quarantine? then Quarantined else Failed)
    else if steps != [] && (Asked(before, steps) == steps[|steps| - 1].request || |steps| == maxPages) then
      status == Quarantined
    else
      && calls > 0 && source(calls - 1, Asked(before, steps)).Fault?
      && match source(calls - 1, Asked(before, steps)).kind
         case RateLimit => status == RateLimited
         case Payload => status == Quarantined
         case Client => status == Failed
         case Unexpected => status == Failed
  }

  lemma FetchStops(source: Source, work: nat -> Work, before: string, maxPages: nat, steps: seq<Step>, calls: nat)
    requires calls > 0 && |steps| < maxPages && source(calls - 1, Asked(before, steps)).Fault?
    requires steps != [] ==> Asked(before, steps) != steps[|steps| - 1].request
    ensures StopsFor(source, work, before, maxPages, steps, |steps|, calls, StatusOf(source(calls - 1, Asked(before, steps)).kind))
  {
  }

  lemma WorkStops(source: Source, work: nat -> Work, before: string, maxPages: nat, steps: seq<Step>, calls: nat)
    requires !work(|steps|).Imported?
    ensures StopsFor(source, work, before, maxPages, steps, |steps| + 1, calls,
                     if work(|steps|).Quarantine? then Quarantined else Failed)
  {
  }

  lemma PagesStop(source: Source, work: nat -> Work, before: string, maxPages: nat, steps: seq<Step>, calls: nat)
    requires steps != [] && (steps[|steps| - 1].page.next == steps[|steps| - 1].request || |steps| == maxPages)
    ensures StopsFor(source, work, before, maxPages, steps, |steps|, calls, Quarantined)
  {
  }

  lemma AskedNext(before: string, steps: seq<Step>, step: Step)
    ensures Asked(before, steps + [step]) == step.page.next
    ensures Asked(before, []) == Request(before)
    ensures steps != [] ==> Asked(before, steps) == steps[|steps| - 1].page.next
  {
  }

  lemma ChainNext(before: string, steps: seq<Step>, step: Step)
    requires Chain(before, steps)
    requires steps == [] ==> step.request == Request(before)
    requires steps != [] ==>
      steps[|steps| - 1].page.next.Some? && steps[|steps| - 1].page.next != steps[|steps| - 1].request
      && step.request == steps[|steps| - 1].page.next
    ensures Chain(before, steps + [step])
    ensures After(before, steps + [step]) ==
            if step.page.next.Some? then step.page.next.value else After(before, steps)
  {
    assert (steps + [step])[..|steps|] == steps;
  }

  lemma ServedLater(source: Source, steps: seq<Step>, calls: nat, more: nat)
    requires Served(source, steps, calls) && calls <= more
    ensures Served(source, steps, more)
  {
  }

  lemma ServedNext(source: Source, steps: seq<Step>, calls: nat, step: Step)
    requires Served(source, steps, calls)
    requires step.call < calls && source(step.call, step.request) == Got(step.page)
    ensures Served(source, steps + [step], calls)
  {
  }

  lemma NothingAcquired(before: string, source: Source, work: nat -> Work)
    ensures Chain(before, []) && Served(source, [], 0) && After(before, []) == before
    ensures Tally([], work) == Stats(0, 0, 0, 0, [])
  {
  }

  lemma CompleteIs(before: string, steps: seq<Step>)
    requires Chain(before, steps)
    ensures Complete(before, steps) <==> steps != [] && steps[|steps| - 1].page.next.None?
  {
  }

  function StatusOf(kind: FaultKind): Status {
    match kind
    case RateLimit => RateLimited
    case Payload => Quarantined
    case Client => Failed
    case Unexpected => Failed
  }

  /** The page loop of `run_once`: it reaches the end exactly when its imported pages form a complete
      chain, and fetches at most three times per page. */
  method AcquirePages(source: Source, work: nat -> Work, before: string, maxPages: nat)
    returns (end: End, steps: seq<Step>, stats: Stats, calls: nat, ghost pages: seq<Page>)
    requires SourceOk(source) && maxPages > 0
    ensures Chain(before, steps) && Served(source, steps, calls) && |steps| <= maxPages
    ensures calls <= 3 * maxPages
    ensures end.Stopped? ==> StopsFor(source, work, before, maxPages, steps, |pages|, calls, end.status)
    ensures end.Reached? <==> Complete(before, steps)
    ensures end.Reached? ==> end.cursor == After(before, steps)
    ensures end.Stopped? ==> end.status != Success && end.status != Running
    ensures stats == Tally(pages, work) && Brought(steps, pages, work)
  {
    hide Brought, Chain, Served, Complete, Tally, After, StopsFor, Asked, StatusOf, SourceOk, Transient, Request;
    NothingAcquired(before, source, work);
    NothingBrought(work);
    AskedNext(before, [], Step(0, None, Page(None, 0, "")));
    steps, pages, calls := [], [], 0;
    stats := Stats(0, 0, 0, 0, []);
    var request := Request(before);
    var last := before;
    for index := 0 to maxPages
      invariant Chain(before, steps) && Served(source, steps, calls)
      invariant |steps| == |pages| == index && calls <= 3 * index
      invariant request == Asked(before, steps)
      invariant steps != [] ==>
        steps[index - 1].page.next.Some? && steps[index - 1].page.next != steps[index - 1].request
        && request == steps[index - 1].page.next
      invariant last == After(before, steps)
      invariant stats == Tally(pages, work) && Brought(steps, pages, work)
    {
      CompleteIs(before, steps);
      var f, n := FetchPageWithRetry(source, calls, request);
      ServedLater(source, steps, calls, calls + n);
      calls := calls + n;
      if f.Fault? {
        AskedNext(before, steps, Step(0, None, Page(None, 0, "")));
        FetchStops(source, work, before, maxPages, steps, calls);
        return Stopped(StatusOf(f.kind)), steps, stats, calls, pages;
      }
      var page := f.page;
      TallyNext(pages, page, work);
      var step := Step(calls - 1, request, page);
      BroughtNext(steps, pages, work, step);
      pages := pages + [page];
      stats := stats.(requests := stats.requests + 1, records := stats.records + page.items);
      var done := work(index);
      if !done.Imported? {
        WorkStops(source, work, before, maxPages, steps, calls);
      }
      if done.NotStored? {
        return Stopped(Failed), steps, stats, calls, pages;
      }
      stats := stats.(hashes := stats.hashes + [page.hash]);
      if done.Quarantine? {
        return Stopped(Quarantined), steps, stats, calls, pages;
      }
      if done.Broken? {
        return Stopped(Failed), steps, stats, calls, pages;
      }
      stats := stats.(
        notices := stats.notices + done.notices,
        bundles := stats.bundles + if done.newBundle then 1 else 0);
      ChainNext(before, steps, step);
      ServedNext(source, steps, calls, step);
      AskedNext(before, steps, step);
      steps := steps + [step];
      CompleteIs(before, steps);
      if page.next.None? {
        return Reached(last), steps, stats, calls, pages;
      }
      if page.next == request || index + 1 == maxPages {
        PagesStop(source, work, before, maxPages, steps, calls);
      }
      if page.next == request {
        return Stopped(Quarantined), steps, stats, calls, pages;
      }
      last := page.next.value;
      request := page.next;
      if index + 1 >= maxPages {
        return Stopped(Quarantined), steps, stats, calls, pages;
      }
    }
    CompleteIs(before, steps);
    PagesStop(source, work, before, maxPages, steps, calls);
    end := Stopped(Quarantined);
  }

  // ------------------------------------------------------------ stored cursor

  datatype RunRow = RunRow(status: Status, before: string, after: Option<string>, stats: Stats)

  /** The conditional update: it matches when the caller's version is current and the value is as read. */
  function AdvanceTx(cursor: string, current: bool, before: string, after: string): (string, bool) {
    if current && cursor == before then (after, true) else (cursor, false)
  }

  /** The cursor after a run settles, and the run's final status. */
  function SettleTx(cursor: string, current: bool, before: string, end: End): (string, Status) {
    match end
    case Stopped(status) => (cursor, status)
    case Reached(after) =>
      var moved := AdvanceTx(cursor, current, before, after);
      (moved.0, if moved.1 then Success else Failed)
  }

  class AcquisitionRepository {
    var cursor: Option<string>
    var runs: map<nat, RunRow>

    /** `get_or_create_source_sync_cursor` and `create_acquisition_run`. */
    method Begin(run: nat) returns (before: string)
      requires run !in runs
      modifies this
      ensures before == if old(cursor).Some? then old(cursor).value else ""
      ensures cursor == Some(before)
      ensures runs == old(runs)[run := RunRow(Running, before, None, Stats(0, 0, 0, 0, []))]
    {
      if cursor.None? {
        cursor := Some("");
      }
      before := cursor.value;
      runs := runs[run := RunRow(Running, before, None, Stats(0, 0, 0, 0, []))];
    }

    /** `advance_source_sync_cursor`. */
    method Advance(current: bool, before: string, after: string) returns (advanced: bool)
      requires cursor.Some?
      modifies this`cursor
      ensures (cursor, advanced) ==
              (Some(AdvanceTx(old(cursor).value, current, before, after).0),
               AdvanceTx(old(cursor).value, current, before, after).1)
    {
      advanced := current && cursor == Some(before);
      if advanced {
        cursor := Some(after);
      }
    }

    /** `finalize_acquisition_run`: a run is finalized once. */
    method Finalize(run: nat, status: Status, after: Option<string>, stats: Stats) returns (found: bool)
      modifies this`runs
      ensures found <==> run in old(runs) && old(runs)[run].status == Running
      ensures runs == if found then old(runs)[run := RunRow(status, old(runs)[run].before, after, stats)] else old(runs)
    {
      found := run in runs && runs[run].status == Running;
      if found {
        runs := runs[run := runs[run].(status := status, after := after, stats := stats)];
      }
    }

    /** `run_once`, with the cursor other runs leave behind while the pages are acquired: the value moves
        only from the one this run started at to the end of its complete chain. */
    method RunOnce(run: nat, source: Source, work: nat -> Work, maxPages: nat, others: Option<string>, current: bool)
      returns (steps: seq<Step>, before: string, calls: nat, ghost pages: seq<Page>)
      requires run !in runs && SourceOk(source) && 0 < maxPages <= 100
      modifies this
      ensures cursor.Some? && run in runs && runs[run].status != Running && runs[run].before == before
      ensures calls <= 3 * maxPages
      ensures Chain(before, steps) && Served(source, steps, calls)
      ensures
        var seen := if others.Some? then others.value else before;
        && (runs[run].status == Success <==> Complete(before, steps) && current && seen == before)
        && cursor.value == (if runs[run].status == Success then After(before, steps) else seen)
      ensures runs[run].after ==
              if runs[run].status == Success && After(before, steps) != before then Some(After(before, steps)) else None
      ensures
        if Complete(before, steps) then runs[run].status == Success || runs[run].status == Failed
        else StopsFor(source, work, before, maxPages, steps, |pages|, calls, runs[run].status)
      ensures Brought(steps, pages, work)
      ensures Totals(runs[run].stats, pages, work, |steps|)
      ensures forall other :: other in old(runs) ==> other in runs && runs[other] == old(runs)[other]
    {
      hide Totals, Tally, StopsFor;
      before := Begin(run);
      var end, imported, stats, n;
      end, imported, stats, n, pages := AcquirePages(source, work, before, maxPages);
      steps, calls := imported, n;
      TallyIsTotals(pages, work, |steps|);
      if others.Some? {
        cursor := others;
      }
      var status: Status;
      if end.Stopped? {
        status := end.status;
      } else {
        var advanced := Advance(current, before, end.cursor);
        status := if advanced then Success else Failed;
      }
      var after := if status == Success && end.cursor != before then Some(end.cursor) else None;
      var _ := Finalize(run, status, after, stats);
    }
  }
}
