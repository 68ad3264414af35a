/**
 * The collector and the classifier together: what the Actor says of itself
 * (actors/hw-radar-synthetic-collector/src/synthetic_collector/core.py) judged by what hw-radar
 * believes (src/hw_radar/acquisition/apify/contract.py).
 */
module CollectAndJudge {
  import opened Prelude
  import opened RunReport
  import Contracts
  import Collector
  import RunContract

  /** How many stored rows the import can use: those whose schema version it knows. */
  function Usable(rows: seq<Collector.Row>): (n: nat)
    ensures n <= |rows|
  {
    if rows == [] then 0 else Usable(rows[..|rows| - 1]) + if rows[|rows| - 1].known then 1 else 0
  }

  lemma {:induction false} AllKnownAllUsable(rows: seq<Collector.Row>)
    requires forall r :: r in rows ==> r.known
    ensures Usable(rows) == |rows|
  {
    if rows != [] {
      assert forall r :: r in rows[..|rows| - 1] ==> r in rows;
      assert rows[|rows| - 1] in rows;
      AllKnownAllUsable(rows[..|rows| - 1]);
    }
  }

  /** Every contract-valid row carries the schema version in force. */
  ghost predicate KnownRows(server: Collector.Server) {
    forall i: nat, l :: l in Collector.ListingsOf(server.answer(i)) && l.Some? ==> l.value.known
  }

  lemma {:induction false} OfferedAreKnown(server: Collector.Server, fetched: seq<nat>)
    requires KnownRows(server)
    ensures forall l :: l in Collector.OfferedBy(server, fetched) && l.Some? ==> l.value.known
  {
    if fetched != [] { OfferedAreKnown(server, fetched[..|fetched| - 1]); }
  }

  lemma {:induction false} ValidRowsAreListed(listings: seq<Collector.Source>)
    ensures forall r :: r in Collector.ValidRows(listings) ==> Some(r) in listings
  {
    if listings != [] {
      var front := listings[..|listings| - 1];
      ValidRowsAreListed(front);
      assert forall l :: l in front ==> l in listings;
    }
  }

  function AdmittedFor(input: Collector.Input): RunContract.AdmittedRun {
    RunContract.AdmittedRun(input.scope, Collector.ACTOR_NAME)
  }

  /** How the platform ends a run of this mode: failed exactly when the Actor fails. */
  function Ends(mode: Collector.FaultMode): RunContract.RemoteStatus {
    if mode.Fail? then RunContract.Failed else RunContract.Succeeded
  }

  function Fails(reason: RunContract.Reason): RunContract.Classification {
    RunContract.Classification(Contracts.Failed, reason, None)
  }

  function Stops(reason: RunContract.TruncationReason): RunContract.Classification {
    RunContract.Classification(Contracts.Truncated, RunContract.Reason.Truncated, Some(reason))
  }

  /** The verdict on everything there is: complete, and with no row only where zero was declared. */
  function Whole(rows: nat, itemsDeclared: Option<nat>): RunContract.Classification {
    if rows > 0 then RunContract.Classification(Contracts.Complete, RunContract.Reason.Complete, None)
    else if itemsDeclared == Some(0) then RunContract.Classification(Contracts.Complete, RunContract.CompleteEmpty, None)
    else Fails(RunContract.AmbiguousEmpty)
  }

  /** The classification row of a fault mode on a source that fits, where the fault bites or not. */
  function RowFor(mode: Collector.FaultMode, bites: bool, rows: nat, itemsDeclared: Option<nat>): RunContract.Classification {
    match mode
    case NoFault => Whole(rows, itemsDeclared)
    case TruncateItems => if bites then Stops(RunContract.ItemLimit) else Whole(rows, itemsDeclared)
    case TruncatePages => if bites then Stops(RunContract.PageLimit) else Whole(rows, itemsDeclared)
    case TruncateTime => if bites then Stops(RunContract.TimeLimit) else Whole(rows, itemsDeclared)
    case TruncateBytes => if bites then Stops(RunContract.ResourceLimit) else Whole(rows, itemsDeclared)
    case PartialFailure =>
      if bites then RunContract.Classification(Contracts.PartialFailure, RunContract.ErrorsReported, None) else Whole(rows, itemsDeclared)
    case ContradictoryReport => Fails(RunContract.Reason.ContradictoryReport)
    case CountMismatch => Fails(RunContract.Reason.ContradictoryReport)
    case UnknownSchema => Fails(RunContract.UnknownSchemaVersion)
    case Fail =>
      if rows > 0 then RunContract.Classification(Contracts.PartialFailure, RunContract.RemoteFailedWithItems, None)
      else Fails(RunContract.RemoteFailedEmpty)
  }

  /** Every row a collection keeps is one some page listed. */
  lemma KeptRowsAreUsable(t: Collector.Tally, server: Collector.Server)
    requires KnownRows(server) && t.processed <= |Collector.OfferedBy(server, t.fetched)|
    requires t.rows == Collector.ValidRows(Collector.OfferedBy(server, t.fetched)[..t.processed])
    ensures Usable(t.rows) == |t.rows| && forall r :: r in t.rows ==> r.known
  {
    var all := Collector.OfferedBy(server, t.fetched);
    OfferedAreKnown(server, t.fetched);
    ValidRowsAreListed(all[..t.processed]);
    assert forall l :: l in all[..t.processed] ==> l in all;
    AllKnownAllUsable(t.rows);
  }

  /** What the report of a source that fits says, by whether the fault of the mode bit. */
  predicate Says(t: Collector.Tally, input: Collector.Input, planned: nat, bites: bool) {
    var o := Collector.Reported(t, input, planned).output;
    && (o.report.complete <==> !bites)
    && (bites ==> Collector.Marks(input.fault, o.report.limits, o.errors))
    && (Collector.ReportsHonestly(input.fault) ==> Honest(o, |t.rows|))
    && SchemaValid(o)
  }

  /** The verdict on that report. */
  function VerdictOn(t: Collector.Tally, input: Collector.Input, planned: nat): RunContract.Classification {
    var r := Collector.Reported(t, input, planned);
    RunContract.ClassifyRun(Ends(input.fault), RunContract.Written(r.output), |r.rows|, Usable(r.rows), AdmittedFor(input))
  }

  lemma RewrittenGetsItsRow(t: Collector.Tally, input: Collector.Input, planned: nat, bites: bool)
    requires Says(t, input, planned, bites) && Usable(t.rows) == |t.rows| && !Collector.ReportsHonestly(input.fault)
    ensures VerdictOn(t, input, planned)
            == Fails(if input.fault.UnknownSchema? then RunContract.UnknownSchemaVersion else RunContract.Reason.ContradictoryReport)
  {
    var r := Collector.Reported(t, input, planned);
    RunContract.ContradictoryWhen(Ends(input.fault), r.output, |r.rows|);
  }

  /** An honest report by itself: what makes it the row of its mode. */
  predicate SaysFor(o: Output, rows: nat, mode: Collector.FaultMode, bites: bool) {
    && Honest(o, rows) && SchemaValid(o) && o.schemaVersion == RUN_SCHEMA_VERSION && o.succeeded == !mode.Fail?
    && (o.report.complete <==> !bites) && (bites ==> Collector.Marks(mode, o.report.limits, o.errors))
  }

  lemma FailedRow(o: Output, rows: nat, admitted: RunContract.AdmittedRun)
    requires SaysFor(o, rows, Collector.Fail, true) && o.actorName == admitted.actorName && o.queryScope == admitted.queryScope
    ensures RunContract.ClassifyRun(RunContract.Failed, RunContract.Written(o), rows, rows, admitted)
            == if o.report.pagesDeclared == Some(0) then Fails(RunContract.Reason.ContradictoryReport)
               else RowFor(Collector.Fail, true, rows, o.report.itemsDeclared)
  {
    RunContract.ContradictoryWhen(RunContract.Failed, o, rows);
  }

  lemma SucceededRow(o: Output, rows: nat, mode: Collector.FaultMode, bites: bool, admitted: RunContract.AdmittedRun)
    requires SaysFor(o, rows, mode, bites) && o.actorName == admitted.actorName && o.queryScope == admitted.queryScope
    requires !mode.Fail? && Collector.ReportsHonestly(mode)
    ensures RunContract.ClassifyRun(RunContract.Succeeded, RunContract.Written(o), rows, rows, admitted)
            == if o.report.pagesDeclared == Some(0) then Fails(RunContract.Reason.ContradictoryReport)
               else RowFor(mode, bites, rows, o.report.itemsDeclared)
  {
    RunContract.HonestContradictsOnlyOnZeroPages(RunContract.Succeeded, o, rows);
  }

  lemma HonestGetsItsRow(t: Collector.Tally, input: Collector.Input, planned: nat, bites: bool)
    requires Says(t, input, planned, bites) && Usable(t.rows) == |t.rows| && Collector.ReportsHonestly(input.fault)
    requires input.fault.Fail? ==> bites
    ensures VerdictOn(t, input, planned)
            == if t.pagesDeclared == Some(0) then Fails(RunContract.Reason.ContradictoryReport)
               else RowFor(input.fault, bites, |t.rows|, t.itemsDeclared)
  {
    var o := Collector.Reported(t, input, planned).output;
    assert SaysFor(o, |t.rows|, input.fault, bites);
    if input.fault.Fail? {
      FailedRow(o, |t.rows|, AdmittedFor(input));
    } else {
      SucceededRow(o, |t.rows|, input.fault, bites, AdmittedFor(input));
    }
  }

  /** And that report is classified as the table has it, or as contradictory where the source declared zero pages. */
  lemma ReportGetsItsRow(t: Collector.Tally, input: Collector.Input, planned: nat, bites: bool)
    requires Says(t, input, planned, bites) && Usable(t.rows) == |t.rows|
    requires input.fault.Fail? ==> bites
    ensures VerdictOn(t, input, planned)
            == if t.pagesDeclared == Some(0) && !input.fault.UnknownSchema? then Fails(RunContract.Reason.ContradictoryReport)
               else RowFor(input.fault, bites, |t.rows|, t.itemsDeclared)
  {
    if Collector.ReportsHonestly(input.fault) {
      HonestGetsItsRow(t, input, planned, bites);
    } else {
      RewrittenGetsItsRow(t, input, planned, bites);
    }
  }

  lemma CompleteIsReported(t: Collector.Tally, input: Collector.Input, planned: nat, status: RunContract.RemoteStatus)
    requires Usable(t.rows) == |t.rows|
    ensures var r := Collector.Reported(t, input, planned);
            RunContract.ClassifyRun(status, RunContract.Written(r.output), |r.rows|, Usable(r.rows), AdmittedFor(input)).completeness.Complete?
            ==> r.output.report.complete && Collector.ReportsHonestly(input.fault) && !input.fault.Fail?
  {
    var r := Collector.Reported(t, input, planned);
    RunContract.CompleteExactlyWhen(status, RunContract.Written(r.output), |r.rows|, Usable(r.rows), AdmittedFor(input));
  }

  /** An honest report of a run that succeeded is believed, unless its source declared zero pages. */
  lemma NoFaultVerdict(t: Collector.Tally, input: Collector.Input, planned: nat)
    requires Usable(t.rows) == |t.rows| && input.fault.NoFault?
    requires Honest(Collector.Reported(t, input, planned).output, |t.rows|)
    ensures var r := Collector.Reported(t, input, planned);
            var c := RunContract.ClassifyRun(RunContract.Succeeded, RunContract.Written(r.output), |r.rows|, Usable(r.rows), AdmittedFor(input));
            SchemaValid(r.output) ==>
              && (c.reason.ContradictoryReport? <==> t.pagesDeclared == Some(0))
              && (|t.rows| >= 1 && t.pagesDeclared != Some(0) ==> (c.completeness.Complete? <==> r.output.report.complete))
  {
    var o := Collector.Reported(t, input, planned).output;
    if SchemaValid(o) { RunContract.HonestVerdict(o, |t.rows|, AdmittedFor(input)); }
  }

  /**
   * Run the collector and judge what it stored, under any terminal status of the remote run.
   * - Whatever the fault mode, a COMPLETE verdict means that everything planned was fetched and
   *   emitted.
   * - Without a fault, on a run that succeeded and stored a row, the verdict is COMPLETE exactly when
   *   every planned page fits the caps, every listing is valid and the declared counts agree.
   * - On a source that fits, each fault mode produces its own row of the classification table exactly
   *   where it finds something to bite.
   */
  method CollectThenClassify(input: Collector.Input, server: Collector.Server, status: RunContract.RemoteStatus)
    returns (result: Collector.Result, verdict: RunContract.Classification)
    requires input.paths >= 1 && Collector.ReadsBounded(server) && KnownRows(server)
    ensures verdict.completeness.Complete? ==>
              && Collector.Everything(input, server, result)
              && result.output.report.complete && Collector.ReportsHonestly(input.fault) && !input.fault.Fail?
    ensures input.fault.NoFault? && status.Succeeded? && SchemaValid(result.output) && |result.rows| >= 1
            && result.output.report.pagesDeclared != Some(0) ==>
              (verdict.completeness.Complete? <==> Collector.Fits(input, server))
    ensures input.fault.NoFault? && status.Succeeded? && SchemaValid(result.output) ==>
              (verdict.reason.ContradictoryReport? <==> result.output.report.pagesDeclared == Some(0))
    ensures forall r :: r in result.rows ==> (r.known <==> !input.fault.UnknownSchema?)
    ensures !SchemaValid(result.output) && !input.fault.UnknownSchema? ==> verdict == Fails(RunContract.InvalidOutput)
    ensures Collector.Fits(input, server) && status == Ends(input.fault) && SchemaValid(result.output) ==>
              verdict
              == if result.output.report.pagesDeclared == Some(0) && !input.fault.UnknownSchema?
                 then Fails(RunContract.Reason.ContradictoryReport)
                 else RowFor(input.fault, Collector.Bites(input, server, Collector.Planned(input, server)),
                             |result.rows|, result.output.report.itemsDeclared)
  {
    var usage;
    ghost var t, planned;
    result, usage, t, planned := Collector.Collect(input, server);
    var usable := Usable(result.rows);
    verdict := RunContract.ClassifyRun(status, RunContract.Written(result.output), |result.rows|, usable, AdmittedFor(input));
    KeptRowsAreUsable(t, server);
    CompleteIsReported(t, input, planned, status);
    if input.fault.NoFault? { NoFaultVerdict(t, input, planned); }
    if Collector.Fits(input, server) && status == Ends(input.fault) && SchemaValid(result.output) {
      ReportGetsItsRow(t, input, planned, Collector.Bites(input, server, Collector.Planned(input, server)));
    }
  }

  /** The fault that claims completeness under a hit cap contradicts itself exactly when the fetch was complete. */
  lemma ContradictoryFault(t: Collector.Tally, input: Collector.Input, planned: nat)
    requires input.fault.ContradictoryReport? && SchemaValid(Collector.Reported(t, input, planned).output)
    requires t.pagesDeclared.Some? ==> t.pagesFetched <= t.pagesDeclared.value
    ensures var r := Collector.Reported(t, input, planned);
            RunContract.Contradictory(RunContract.Succeeded, r.output, |r.rows|) <==> r.output.report.complete
  {
    var r := Collector.Reported(t, input, planned);
    RunContract.ContradictoryWhen(RunContract.Succeeded, r.output, |r.rows|);
  }
}
