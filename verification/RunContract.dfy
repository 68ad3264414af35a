/**
 * hw-radar's judgement of a terminal run (src/hw_radar/acquisition/apify/contract.py:430-610): missing,
 * ambiguous or self-contradictory evidence is never COMPLETE.
 */
module RunContract {
  import opened Prelude
  import Contracts
  import opened RunReport

  datatype RemoteStatus = Succeeded | Failed | TimedOut | Aborted

  datatype TruncationReason = TimeLimit | ResourceLimit | RequestLimit | PageLimit | ItemLimit

  datatype Reason =
    | Complete | CompleteEmpty | MissingOutput | UnknownSchemaVersion | InvalidOutput | ScopeMismatch
    | ContradictoryReport | NoUsableItems | AmbiguousEmpty | RemoteFailedWithItems | RemoteFailedEmpty
    | ErrorsReported | UnusableItems | Truncated | UnexplainedIncomplete

  datatype Classification = Classification(completeness: Contracts.Completeness, reason: Reason, truncation: Option<TruncationReason>)

  datatype AdmittedRun = AdmittedRun(queryScope: QueryScope, actorName: string)

  /** The decoded OUTPUT record; `parsed` is None when it breaks the run contract. */
  datatype RawOutput = Missing | NotAnObject | Fields(schemaVersion: string, parsed: Option<Output>)

  /** How a record an Actor wrote reads back. */
  function Written(o: Output): RawOutput {
    Fields(o.schemaVersion, if o.schemaVersion == RUN_SCHEMA_VERSION && SchemaValid(o) then Some(o) else None)
  }

  datatype Contradiction =
    | CompleteWithLimitHit | CompleteAndTruncated | TruncatedWithoutLimitHit | StatusMismatch | ItemCountMismatch
    | CompleteWithItemsDeclaredMismatch | PagesFetchedExceedDeclared | CompleteWithPagesUnfetched

  /** Whether a report commits one contradiction. */
  predicate Commits(c: Contradiction, status: RemoteStatus, run: Output, datasetCount: nat) {
    var r := run.report;
    match c
    case CompleteWithLimitHit => r.complete && r.limits.Any()
    case CompleteAndTruncated => r.complete && r.truncated
    case TruncatedWithoutLimitHit => r.truncated && !r.limits.Any() && !status.TimedOut?
    case StatusMismatch => status.Succeeded? && !run.succeeded
    case ItemCountMismatch => r.itemsEmitted != datasetCount
    case CompleteWithItemsDeclaredMismatch =>
      r.itemsEmitted == datasetCount && r.complete && r.itemsDeclared.Some? && r.itemsEmitted != r.itemsDeclared.value
    case PagesFetchedExceedDeclared => r.pagesDeclared.Some? && r.pagesFetched > r.pagesDeclared.value
    case CompleteWithPagesUnfetched => r.complete && r.pagesDeclared.Some? && r.pagesFetched < r.pagesDeclared.value
  }

  const ALL_CONTRADICTIONS: seq<Contradiction> :=
    [CompleteWithLimitHit, CompleteAndTruncated, TruncatedWithoutLimitHit, StatusMismatch, ItemCountMismatch,
     CompleteWithItemsDeclaredMismatch, PagesFetchedExceedDeclared, CompleteWithPagesUnfetched]

  predicate Contradictory(status: RemoteStatus, run: Output, datasetCount: nat) {
    exists c :: c in ALL_CONTRADICTIONS && Commits(c, status, run, datasetCount)
  }

  /** Collect the contradictions in reporting order: exactly those the report commits. */
  method Contradictions(status: RemoteStatus, run: Output, datasetCount: nat) returns (found: seq<Contradiction>)
    ensures forall c :: c in found <==> Commits(c, status, run, datasetCount)
    ensures found != [] <==> Contradictory(status, run, datasetCount)
  {
    var report := run.report;
    var hit := report.limits.Any();
    found := [];
    if report.complete && hit { found := found + [CompleteWithLimitHit]; }
    if report.complete && report.truncated { found := found + [CompleteAndTruncated]; }
    if report.truncated && !hit && !status.TimedOut? { found := found + [TruncatedWithoutLimitHit]; }
    if status.Succeeded? && !run.succeeded { found := found + [StatusMismatch]; }
    if report.itemsEmitted != datasetCount {
      found := found + [ItemCountMismatch];
    } else if report.complete && report.itemsDeclared.Some? && report.itemsEmitted != report.itemsDeclared.value {
      found := found + [CompleteWithItemsDeclaredMismatch];
    }
    if report.pagesDeclared.Some? && report.pagesFetched > report.pagesDeclared.value {
      found := found + [PagesFetchedExceedDeclared];
    }
    if report.complete && report.pagesDeclared.Some? && report.pagesFetched < report.pagesDeclared.value {
      found := found + [CompleteWithPagesUnfetched];
    }
    FoundIsContradictory(status, run, datasetCount, found);
  }

  lemma EveryContradictionIsListed(c: Contradiction)
    ensures c in ALL_CONTRADICTIONS
  {
    var all := ALL_CONTRADICTIONS;
    assert c == all[0] || c == all[1] || c == all[2] || c == all[3] || c == all[4] || c == all[5] || c == all[6] || c == all[7];
  }

  lemma FoundIsContradictory(status: RemoteStatus, run: Output, datasetCount: nat, found: seq<Contradiction>)
    requires forall c :: c in found <==> Commits(c, status, run, datasetCount)
    ensures found != [] <==> Contradictory(status, run, datasetCount)
  {
    if found != [] {
      assert found[0] in found;
      EveryContradictionIsListed(found[0]);
    }
  }

  /** The truncation reason: the first hit limit in the fixed reporting order, a platform timeout counting as time. */
  function FirstHit(limits: Limits, status: RemoteStatus): TruncationReason
    requires limits.Any() || status.TimedOut?
  {
    if limits.time || status.TimedOut? then TimeLimit
    else if limits.bytes then ResourceLimit
    else if limits.requests then RequestLimit
    else if limits.pages then PageLimit
    else ItemLimit
  }

  function Fails(reason: Reason): Classification {
    Classification(Contracts.Failed, reason, None)
  }

  /** Classify one terminal run; the counts of a terminal run satisfy usable <= dataset. */
  function ClassifyRun(status: RemoteStatus, output: RawOutput, datasetCount: nat, usableCount: nat, admitted: AdmittedRun): Classification
    requires usableCount <= datasetCount
  {
    match output
    case Missing => Fails(MissingOutput)
    case NotAnObject => Fails(InvalidOutput)
    case Fields(version, parsed) =>
      if version != RUN_SCHEMA_VERSION then Fails(UnknownSchemaVersion)
      else if parsed.None? then Fails(InvalidOutput)
      else ClassifyReport(status, parsed.value, datasetCount, usableCount, admitted)
  }

  function ClassifyReport(status: RemoteStatus, run: Output, datasetCount: nat, usableCount: nat, admitted: AdmittedRun): Classification
    requires usableCount <= datasetCount
  {
    if run.actorName != admitted.actorName || run.queryScope != admitted.queryScope then Fails(ScopeMismatch)
    else if Contradictory(status, run, datasetCount) then Fails(ContradictoryReport)
    else if datasetCount > 0 && usableCount == 0 then Fails(NoUsableItems)
    else if status.Failed? || status.Aborted? then
      if datasetCount > 0 then Classification(Contracts.PartialFailure, RemoteFailedWithItems, None) else Fails(RemoteFailedEmpty)
    else if run.errors != [] then Classification(Contracts.PartialFailure, ErrorsReported, None)
    else if run.report.limits.Any() || status.TimedOut? then
      Classification(Contracts.Truncated, Truncated, Some(FirstHit(run.report.limits, status)))
    else if datasetCount == 0 then
      if run.report.complete && run.report.pagesFetched >= 1 && run.report.itemsDeclared == Some(0) && run.report.itemsEmitted == 0
      then Classification(Contracts.Complete, CompleteEmpty, None)
      else Fails(AmbiguousEmpty)
    else if !run.report.complete then Fails(UnexplainedIncomplete)
    else if usableCount < datasetCount then Classification(Contracts.PartialFailure, UnusableItems, None)
    else Classification(Contracts.Complete, Complete, None)
  }

  // ── What a verdict means ──────────────────────────────────────────────────

  /**
   * COMPLETE is answered exactly when the run succeeded, its record is valid and for the admitted
   * run, it claims completeness with no limit, truncation or error, every row it stored is usable
   * and counted, and every declared count is met; an empty dataset needs a declared zero.
   */
  lemma CompleteExactlyWhen(status: RemoteStatus, output: RawOutput, datasetCount: nat, usableCount: nat, admitted: AdmittedRun)
    requires usableCount <= datasetCount
    ensures ClassifyRun(status, output, datasetCount, usableCount, admitted).completeness.Complete? <==>
              && status.Succeeded? && output.Fields? && output.schemaVersion == RUN_SCHEMA_VERSION && output.parsed.Some?
              && var run := output.parsed.value;
              var r := run.report;
              && run.actorName == admitted.actorName && run.queryScope == admitted.queryScope && run.succeeded
              && r.complete && !r.truncated && !r.limits.Any() && run.errors == []
              && usableCount == datasetCount == r.itemsEmitted
              && (r.itemsDeclared.Some? ==> r.itemsDeclared.value == datasetCount)
              && (r.pagesDeclared.Some? ==> r.pagesDeclared.value == r.pagesFetched)
              && (datasetCount == 0 ==> r.itemsDeclared.Some? && r.pagesFetched >= 1)
  {
    if output.Fields? && output.parsed.Some? {
      ContradictoryWhen(status, output.parsed.value, datasetCount);
    }
  }

  lemma ContradictoryWhen(status: RemoteStatus, run: Output, datasetCount: nat)
    ensures Contradictory(status, run, datasetCount) <==>
              var r := run.report;
              || (r.complete && (r.limits.Any() || r.truncated))
              || (r.truncated && !r.limits.Any() && !status.TimedOut?)
              || (status.Succeeded? && !run.succeeded)
              || r.itemsEmitted != datasetCount
              || (r.complete && r.itemsDeclared.Some? && r.itemsEmitted != r.itemsDeclared.value)
              || (r.pagesDeclared.Some? && r.pagesFetched > r.pagesDeclared.value)
              || (r.complete && r.pagesDeclared.Some? && r.pagesFetched != r.pagesDeclared.value)
  {
    var all := ALL_CONTRADICTIONS;
    assert all[0] in all && all[1] in all && all[2] in all && all[3] in all;
    assert all[4] in all && all[5] in all && all[6] in all && all[7] in all;
  }

  /** A report that agrees with itself, with how the run ended and with the rows it stored. */
  predicate Coherent(status: RemoteStatus, run: Output, datasetCount: nat) {
    var r := run.report;
    && (r.complete ==> !r.limits.Any() && !r.truncated)
    && (r.truncated ==> r.limits.Any() || status.TimedOut?)
    && (status.Succeeded? ==> run.succeeded)
    && r.itemsEmitted == datasetCount
    && (r.complete && r.itemsDeclared.Some? ==> r.itemsDeclared.value == datasetCount)
    && (r.pagesDeclared.Some? ==> r.pagesFetched <= r.pagesDeclared.value)
    && (r.complete && r.pagesDeclared.Some? ==> r.pagesFetched == r.pagesDeclared.value)
  }

  /** A readable record for the admitted run. */
  predicate OwnRecord(output: RawOutput, admitted: AdmittedRun) {
    && output.Fields? && output.schemaVersion == RUN_SCHEMA_VERSION && output.parsed.Some?
    && output.parsed.value.actorName == admitted.actorName && output.parsed.value.queryScope == admitted.queryScope
  }

  /** Nothing refuses the evidence outright: its record is the run's own and coherent, and a stored dataset has a usable row. */
  predicate Credible(status: RemoteStatus, output: RawOutput, datasetCount: nat, usableCount: nat, admitted: AdmittedRun) {
    && OwnRecord(output, admitted) && Coherent(status, output.parsed.value, datasetCount)
    && (datasetCount > 0 ==> usableCount > 0)
  }

  /**
   * TRUNCATED is answered exactly for credible evidence of a run that succeeded or timed out, reports
   * no error, and hit a limit or the platform's timeout.
   */
  lemma TruncatedExactlyWhen(status: RemoteStatus, output: RawOutput, datasetCount: nat, usableCount: nat, admitted: AdmittedRun)
    requires usableCount <= datasetCount
    ensures ClassifyRun(status, output, datasetCount, usableCount, admitted).completeness.Truncated? <==>
              && Credible(status, output, datasetCount, usableCount, admitted)
              && (status.Succeeded? || status.TimedOut?) && output.parsed.value.errors == []
              && (output.parsed.value.report.limits.Any() || status.TimedOut?)
  {
    if output.Fields? && output.parsed.Some? {
      ContradictoryWhen(status, output.parsed.value, datasetCount);
    }
  }

  /**
   * PARTIAL_FAILURE is answered exactly for credible evidence of a failed or aborted run that stored
   * rows, of a run that reports errors, or of a complete unlimited run with an unusable row; and
   * whatever is not complete, truncated or that is FAILED.
   */
  lemma PartialExactlyWhen(status: RemoteStatus, output: RawOutput, datasetCount: nat, usableCount: nat, admitted: AdmittedRun)
    requires usableCount <= datasetCount
    ensures ClassifyRun(status, output, datasetCount, usableCount, admitted).completeness.PartialFailure? <==>
              && Credible(status, output, datasetCount, usableCount, admitted)
              && var run := output.parsed.value;
                 if status.Failed? || status.Aborted? then datasetCount > 0
                 else
                   run.errors != []
                   || (status.Succeeded? && !run.report.limits.Any() && run.report.complete && usableCount < datasetCount)
  {
    if output.Fields? && output.parsed.Some? {
      ContradictoryWhen(status, output.parsed.value, datasetCount);
    }
  }

  /** Each reason that refuses evidence outright, and each that qualifies a credible run, is given exactly for its own cause. */
  lemma ReasonExactlyWhen(status: RemoteStatus, output: RawOutput, datasetCount: nat, usableCount: nat, admitted: AdmittedRun)
    requires usableCount <= datasetCount
    ensures var c := ClassifyRun(status, output, datasetCount, usableCount, admitted);
            var own, credible := OwnRecord(output, admitted), Credible(status, output, datasetCount, usableCount, admitted);
            var ended := status.Failed? || status.Aborted?;
            && (c.reason == MissingOutput <==> output.Missing?)
            && (c.reason == UnknownSchemaVersion <==> output.Fields? && output.schemaVersion != RUN_SCHEMA_VERSION)
            && (c.reason == InvalidOutput <==>
                  output.NotAnObject? || (output.Fields? && output.schemaVersion == RUN_SCHEMA_VERSION && output.parsed.None?))
            && (c.reason == ScopeMismatch <==>
                  output.Fields? && output.schemaVersion == RUN_SCHEMA_VERSION && output.parsed.Some? && !own)
            && (c.reason == ContradictoryReport <==> own && !Coherent(status, output.parsed.value, datasetCount))
            && (c.reason == NoUsableItems <==>
                  own && Coherent(status, output.parsed.value, datasetCount) && datasetCount > 0 && usableCount == 0)
            && (c.reason == RemoteFailedWithItems <==> credible && ended && datasetCount > 0)
            && (c.reason == RemoteFailedEmpty <==> credible && ended && datasetCount == 0)
            && (c.reason == ErrorsReported <==> credible && !ended && output.parsed.value.errors != [])
            && (c.reason == Reason.Truncated <==> c.completeness.Truncated?)
            && (c.reason == UnusableItems <==> c.completeness.PartialFailure? && !ended && output.parsed.value.errors == [])
            && (c.reason == CompleteEmpty <==> c.completeness.Complete? && datasetCount == 0)
            && (c.reason == Reason.Complete <==> c.completeness.Complete? && datasetCount > 0)
            && (c.reason == AmbiguousEmpty <==>
                  credible && c.completeness.Failed? && !ended && datasetCount == 0)
            && (c.reason == UnexplainedIncomplete <==> credible && c.completeness.Failed? && !ended && datasetCount > 0)
  {
    if output.Fields? && output.parsed.Some? {
      ContradictoryWhen(status, output.parsed.value, datasetCount);
    }
  }

  /**
   * A truncation reason is given exactly for a truncated run, as the stored row's coherence check
   * demands, and it is a reason the run gave: time whenever time bound, else a cap the report flags.
   */
  lemma ReasonExactlyWhenTruncated(status: RemoteStatus, output: RawOutput, datasetCount: nat, usableCount: nat, admitted: AdmittedRun)
    requires usableCount <= datasetCount
    ensures var c := ClassifyRun(status, output, datasetCount, usableCount, admitted);
            && (c.truncation.Some? <==> c.completeness.Truncated?)
            && (c.completeness.Truncated? ==>
                  && output.Fields? && output.parsed.Some? && output.parsed.value.errors == []
                  && var limits := output.parsed.value.report.limits;
                  && (c.truncation == Some(TimeLimit) <==> limits.time || status.TimedOut?)
                  && (c.truncation == Some(ResourceLimit) ==> limits.bytes)
                  && (c.truncation == Some(RequestLimit) ==> limits.requests && !limits.bytes)
                  && (c.truncation == Some(PageLimit) ==> limits.pages && !limits.bytes && !limits.requests)
                  && (c.truncation == Some(ItemLimit) ==> limits == NO_LIMITS.(items := true)))
  {
  }

  /** What is persisted needs a usable row or a proven empty source: every other verdict is FAILED. */
  lemma NothingUsableNothingPersisted(status: RemoteStatus, output: RawOutput, datasetCount: nat, admitted: AdmittedRun)
    ensures var c := ClassifyRun(status, output, datasetCount, 0, admitted);
            datasetCount > 0 ==> c.completeness.Failed?
  {
  }

  // ── Honest reports ────────────────────────────────────────────────────────

  /** An honest report of a run that claims success contradicts itself exactly when the source declared zero pages. */
  lemma HonestContradictsOnlyOnZeroPages(status: RemoteStatus, run: Output, rows: nat)
    requires Honest(run, rows) && run.succeeded
    ensures Contradictory(status, run, rows) <==> run.report.pagesDeclared == Some(0)
  {
    ContradictoryWhen(status, run, rows);
  }

  /**
   * With a page count absent or at least one, every row usable and at least one row, the classifier
   * answers COMPLETE exactly when the honest report does.
   */
  lemma HonestCompleteIsComplete(run: Output, rows: nat, admitted: AdmittedRun)
    requires Honest(run, rows) && run.succeeded && SchemaValid(run) && run.schemaVersion == RUN_SCHEMA_VERSION
    requires run.actorName == admitted.actorName && run.queryScope == admitted.queryScope
    requires run.report.pagesDeclared != Some(0) && rows >= 1
    ensures ClassifyRun(Succeeded, Written(run), rows, rows, admitted).completeness.Complete? <==> run.report.complete
  {
    HonestContradictsOnlyOnZeroPages(Succeeded, run, rows);
  }

  /** Both at once: the verdict on an honest report of a run that succeeded. */
  lemma HonestVerdict(run: Output, rows: nat, admitted: AdmittedRun)
    requires Honest(run, rows) && run.succeeded && SchemaValid(run) && run.schemaVersion == RUN_SCHEMA_VERSION
    requires run.actorName == admitted.actorName && run.queryScope == admitted.queryScope
    ensures var c := ClassifyRun(Succeeded, Written(run), rows, rows, admitted);
            && (c.reason.ContradictoryReport? <==> run.report.pagesDeclared == Some(0))
            && (rows >= 1 && run.report.pagesDeclared != Some(0) ==> (c.completeness.Complete? <==> run.report.complete))
  {
    HonestContradictsOnlyOnZeroPages(Succeeded, run, rows);
    if rows >= 1 && run.report.pagesDeclared != Some(0) { HonestCompleteIsComplete(run, rows, admitted); }
  }

  /** A source that declares zero pages but serves one makes an honest, complete report fail. */
  lemma ZeroPagesDeclaredFails(admitted: AdmittedRun)
    ensures var report := RunReport.Report(true, false, NO_LIMITS, Some(0), 1, None, 1);
            var run := Output(RUN_SCHEMA_VERSION, true, report, admitted.queryScope, admitted.actorName, []);
            Honest(run, 1) && ClassifyRun(Succeeded, Written(run), 1, 1, admitted) == Fails(ContradictoryReport)
  {
    var report := RunReport.Report(true, false, NO_LIMITS, Some(0), 1, None, 1);
    var run := Output(RUN_SCHEMA_VERSION, true, report, admitted.queryScope, admitted.actorName, []);
    HonestContradictsOnlyOnZeroPages(Succeeded, run, 1);
  }
}
