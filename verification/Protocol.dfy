/**
 * The durable import and storage-cleanup protocol as a step system: any number of executors, each
 * with a stale copy of the row, one committed transaction or one remote call per step, and a crash
 * possible between any two steps (importer.py:177-295, storage_cleanup.py:149-424).
 */
module Protocol {
  import opened Prelude
  import opened Contracts
  import opened ProviderRow

  /** Where an executor stands. */
  datatype Pc =
    | Idle
    // one import invocation
    | Loaded(copy: ImportState)               // row read, not yet claimed
    | Claimed(floor: nat)                     // about to re-read a row of at least this rank
    | Ready(copy: ImportState)                // about to run the stage of its copy
    | Reading(read: nat)                      // counted, about to send the reads
    | Sent                                    // reads sent, classification not yet stored
    | Fetched(completeness: Completeness)
    | Committing
    | Rejecting(reason: RejectReason)
    | Exhausted
    | LatchBlocked
    // one storage-cleanup invocation
    | OverdueReject
    | Beginning(overdue: bool)
    | Aborting(attempt: Attempt)
    | AbortAnswered(attempt: Attempt, answer: Answer)
    | Confirming(attempt: Attempt)
    | ConfirmAnswered(attempt: Attempt, answer: Answer)
    | Rereading(attempt: Attempt)
    | Deleting(attempt: Attempt, ids: set<Storage>, next: nat, deleted: set<Storage>)
    | Finishing(attempt: Attempt, deleted: set<Storage>)

  datatype CallKind = Abort | Confirm | Delete(storage: Storage)

  datatype DeleteOutcome = DeletedNow | Absent | Errored

  /** One remote cleanup call: its attempt, what was known when it left, and how a delete answered. */
  datatype Call = Call(kind: CallKind, attempt: Attempt, afterTerminal: bool, importPending: bool, outcome: Option<DeleteOutcome>)

  datatype System = System(
    world: World,
    execs: map<nat, Pc>,
    latch: bool,
    sent: seq<nat>,       // the counted reads that were sent
    calls: seq<Call>)     // the cleanup calls that were sent

  /** Everything the environment decides about one step. */
  datatype Choice = Choice(
    refuse: Option<RejectReason>,   // a precondition refuses the import
    exhaust: bool,                  // the transaction exhausts its in-memory retries
    late: bool,                     // the storage deadline passed during stage 1
    completeness: Completeness,     // what the reads classify as
    answer: Option<Answer>,         // the abort or run answer; None is an error
    deletion: DeleteOutcome)

  datatype Action =
    | StartImport(e: nat)
    | StartCleanup(e: nat)
    | StartOverdue(e: nat)
    | Step(e: nat, choice: Choice)
    | Crash(e: nat)
    // the rest of the application
    | SetLatch(tripped: bool)
    | MismatchReject
    | RecordStart(ids: set<Storage>)
    | Poll(answer: Answer)
    | StrandedPass
    | OwnerReset

  function PcOf(s: System, e: nat): Pc {
    if e in s.execs then s.execs[e] else Idle
  }

  function Move(s: System, e: nat, pc: Pc): System {
    s.(execs := s.execs[e := pc])
  }

  function Commit(s: System, e: nat, w: World, pc: Pc): System {
    s.(world := w, execs := s.execs[e := pc])
  }

  function UpdateRow(s: System, row: Row): System {
    s.(world := s.world.(row := row))
  }

  // ── Import steps ──────────────────────────────────────────────────────────

  /** Where a signal sends the executor: on, to the rejection, to the back-off, or out. */
  function After(signal: Signal, onward: Pc): Pc {
    match signal
    case Fine => onward
    case Moved => Idle
    case Refused(reason) => Rejecting(reason)
    case Blocked => LatchBlocked
    case Drained => Exhausted
  }

  /** The stage the executor's own copy selects. */
  function StageStep(s: System, e: nat, copy: ImportState, c: Choice, caps: Caps): System {
    match copy
    case Pending =>
      if c.refuse.Some? then Move(s, e, Rejecting(c.refuse.value))
      else
        var (w, signal) := CountReads(s.world, caps, s.latch);
        Commit(s, e, w, After(signal, Reading(w.row.datasetReads)))
    case ObservationsCommitted =>
      if c.exhaust then Move(s, e, Exhausted)
      else
        var (w, signal) := CommitAbsence(s.world);
        Commit(s, e, w, After(signal, Claimed(2)))
    case AbsenceApplied =>
      var (w, signal) := Advance(s.world, AbsenceApplied, Resolved);
      Commit(s, e, w, After(signal, Claimed(3)))
    case Resolved =>
      var (w, signal) := Advance(s.world, Resolved, Evaluated);
      Commit(s, e, w, After(signal, Claimed(4)))
    case Evaluated =>
      var (w, signal) := Finalize(s.world);
      Commit(s, e, w, After(signal, Claimed(5)))
    case _ => Move(s, e, Idle)
  }

  function ImportStep(s: System, e: nat, c: Choice, caps: Caps): System {
    match PcOf(s, e)
    case Loaded(copy) => if Terminal(copy) then Move(s, e, Idle) else Commit(s, e, Claim(s.world), Claimed(0))
    case Claimed(_) => Move(s, e, Ready(s.world.row.state))
    case Ready(copy) => StageStep(s, e, copy, c, caps)
    case Reading(read) => Move(s, e, Sent).(sent := s.sent + [read])
    case Sent => Commit(s, e, Classify(s.world, c.completeness), Fetched(c.completeness))
    case Fetched(completeness) =>
      Move(s, e, if completeness.Failed? then Rejecting(FailedRun) else Committing)
    case Committing =>
      if c.exhaust then Move(s, e, Exhausted)
      else
        var (w, signal) := CommitObservations(s.world, c.late);
        Commit(s, e, w, After(signal, Claimed(1)))
    case Rejecting(reason) => Commit(s, e, Reject(s.world, reason, None), Idle)
    case Exhausted => Commit(s, e, RecordExhaustion(s.world), Idle)
    case LatchBlocked => Commit(s, e, RecordLatchBlock(s.world), Idle)
    case _ => s
  }

  // ── Cleanup steps ─────────────────────────────────────────────────────────

  function Send(s: System, kind: CallKind, attempt: Attempt, outcome: Option<DeleteOutcome>): System {
    s.(calls := s.calls + [Call(kind, attempt, s.world.row.remoteTerminal, s.world.row.state.Pending?, outcome)])
  }

  /** Whether a delete answer verifies the storage gone. */
  predicate Verifies(outcome: DeleteOutcome, caps: Caps) {
    outcome.DeletedNow? || (outcome.Absent? && caps.trust404)
  }

  function DeleteStep(s: System, e: nat, c: Choice, caps: Caps): System
    requires PcOf(s, e).Deleting?
  {
    var Deleting(attempt, ids, next, deleted) := PcOf(s, e);
    if next >= |attempt.pending| then Move(s, e, Finishing(attempt, deleted))
    else if attempt.pending[next] !in ids then Move(s, e, Deleting(attempt, ids, next + 1, deleted))
    else
      Move(Send(s, Delete(attempt.pending[next]), attempt, Some(c.deletion)), e,
           Deleting(attempt, ids, next + 1,
                    if Verifies(c.deletion, caps) then deleted + {attempt.pending[next]} else deleted))
  }

  function CleanupStep(s: System, e: nat, c: Choice, caps: Caps): System {
    match PcOf(s, e)
    case OverdueReject =>
      Commit(s, e, Reject(s.world, StorageDeadlinePassed, Some(Pending)), Beginning(true))
    case Beginning(overdue) =>
      var (row, attempt) := BeginAttempt(s.world.row, caps, overdue);
      Move(UpdateRow(s, row), e,
           if attempt.None? then Idle
           else if attempt.value.observedTerminal then Rereading(attempt.value)
           else Aborting(attempt.value))
    case Aborting(a) =>
      Move(Send(s, Abort, a, None), e, if c.answer.None? then Confirming(a) else AbortAnswered(a, c.answer.value))
    case AbortAnswered(a, answer) =>
      Move(UpdateRow(s, RecordObservation(s.world.row, answer)), e, if answer.terminal then Rereading(a) else Confirming(a))
    case Confirming(a) =>
      Move(Send(s, Confirm, a, None), e, if c.answer.None? then Finishing(a, {}) else ConfirmAnswered(a, c.answer.value))
    case ConfirmAnswered(a, answer) =>
      Move(UpdateRow(s, RecordObservation(s.world.row, answer)), e, if answer.terminal then Rereading(a) else Finishing(a, {}))
    case Rereading(a) => Move(s, e, Deleting(a, s.world.row.ids, 0, {}))
    case Deleting(_, _, _, _) => DeleteStep(s, e, c, caps)
    case Finishing(_, deleted) => Commit(s, e, FinishAttempt(s.world, caps, deleted), Idle)
    case _ => s
  }

  predicate Importing(pc: Pc) {
    pc.Loaded? || pc.Claimed? || pc.Ready? || pc.Reading? || pc.Sent? || pc.Fetched? || pc.Committing?
    || pc.Rejecting? || pc.Exhausted? || pc.LatchBlocked?
  }

  /** One action; an action that is not enabled changes nothing. */
  function Do(s: System, a: Action, caps: Caps): System {
    match a
    case StartImport(e) => if PcOf(s, e).Idle? then Move(s, e, Loaded(s.world.row.state)) else s
    case StartCleanup(e) =>
      // selector 2: only once the import ended
      if PcOf(s, e).Idle? && Terminal(s.world.row.state) then Move(s, e, Beginning(false)) else s
    case StartOverdue(e) =>
      // selector 3: past the deadline; an import whose stage 1 has not committed is rejected first
      if PcOf(s, e).Idle? then Move(s, e, if s.world.row.state.Pending? then OverdueReject else Beginning(true)) else s
    case Step(e, c) => if Importing(PcOf(s, e)) then ImportStep(s, e, c, caps) else CleanupStep(s, e, c, caps)
    case Crash(e) => Move(s, e, Idle)
    case SetLatch(tripped) => s.(latch := tripped)
    case MismatchReject => s.(world := Reject(s.world, StartOptionMismatch, None))
    case RecordStart(ids) => UpdateRow(s, s.world.row.(started := true, ids := s.world.row.ids + ids))
    case Poll(answer) => UpdateRow(s, RecordObservation(s.world.row, answer))
    case StrandedPass => UpdateRow(s, TripStranded(s.world.row, caps))
    case OwnerReset => UpdateRow(s, s.world.row.(trips := ResetTrips(s.world.row.trips)))
  }

  /** A freshly admitted run. */
  function Admitted(kind: RunKind): System {
    System(World(Row(kind, Pending, None, false, 0, 0, 0, None, 0, false,
                     false, false, {}, Retained, false, 0, {}, [], false),
                 Effects(0, 0, 0, [], 0, None, 0)),
           map[], false, [], [])
  }

  function Run(kind: RunKind, trace: seq<Action>, caps: Caps): System {
    if trace == [] then Admitted(kind) else Do(Run(kind, trace[..|trace| - 1], caps), trace[|trace| - 1], caps)
  }
}
