/**
 * One durable provider_run row and the transactions that change it: the import stages
 * (src/hw_radar/acquisition/apify/importer.py) and the storage-cleanup attempts
 * (src/hw_radar/acquisition/apify/storage_cleanup.py). Each function is one committed transaction.
 */
module ProviderRow {
  import opened Prelude
  import opened Contracts

  datatype ImportState = Pending | ObservationsCommitted | AbsenceApplied | Resolved | Evaluated | Finalized | Rejected

  predicate Terminal(s: ImportState) {
    s.Finalized? || s.Rejected?
  }

  function Rank(s: ImportState): nat {
    match s
    case Pending => 0
    case ObservationsCommitted => 1
    case AbsenceApplied => 2
    case Resolved => 3
    case Evaluated => 4
    case Finalized => 5
    case Rejected => 6
  }

  datatype RejectReason =
    | FailedRun | InvalidContract | UnknownRetention | StorageDeadlinePassed
    | ContentPastTtl | ReadCapExhausted | StartOptionMismatch

  datatype FailureClass = ParserRot | Transient | Unknown

  function RejectFailureClass(r: RejectReason): FailureClass {
    match r
    case FailedRun => ParserRot
    case InvalidContract => ParserRot
    case UnknownRetention => Unknown
    case StorageDeadlinePassed => Transient
    case ContentPastTtl => Transient
    case ReadCapExhausted => Transient
    case StartOptionMismatch => Unknown
  }

  datatype RunKind = Full | Probe

  datatype LifecycleEvent = Success | ProbeSuccess | ProbeFailure | Failure(failureClass: FailureClass)

  datatype Storage = Dataset | KvStore

  datatype StorageState = Retained | Deleted | DeleteFailed

  datatype LatchReason = OrphanedStart | DeleteAttemptsExhausted

  datatype Trip = Trip(reason: LatchReason, open: bool)

  datatype Row = Row(
    kind: RunKind,
    // import
    state: ImportState,
    rejectReason: Option<RejectReason>,
    scraperRun: bool,
    importAttempts: nat,
    datasetReads: nat,
    kvReads: nat,
    completeness: Option<Completeness>,
    retryExhausted: nat,
    latchBlocked: bool,
    // remote run and storage
    started: bool,
    remoteTerminal: bool,
    ids: set<Storage>,
    storageState: StorageState,
    orphaned: bool,
    cleanupAttempts: nat,
    verified: set<Storage>,
    trips: seq<Trip>,
    // the work-completion anchor
    workCompleted: bool)

  /** What the transactions did outside the row, counted. */
  datatype Effects = Effects(
    scraperRuns: nat,
    observationCommits: nat,
    absenceCommits: nat,
    outcomes: seq<LifecycleEvent>,
    stamps: nat,
    rejectedFrom: Option<ImportState>,
    overdueRejections: nat)

  datatype World = World(row: Row, fx: Effects)

  /** The read and attempt caps, and whether a 404 on delete proves absence. */
  datatype Caps = Caps(datasetReads: nat, kvReads: nat, deleteAttempts: nat, trust404: bool)

  datatype Signal = Fine | Moved | Refused(reason: RejectReason) | Blocked | Drained

  // ── Import transactions ───────────────────────────────────────────────────

  /** Set the work-completion anchor once both barriers hold; a set anchor never moves. */
  function StampWorkCompletion(w: World): World {
    if w.row.workCompleted || !Terminal(w.row.state) || !w.row.storageState.Deleted? then w
    else w.(row := w.row.(workCompleted := true), fx := w.fx.(stamps := w.fx.stamps + 1))
  }

  /** Create the ScraperRun once, link it, and count the attempt. */
  function Claim(w: World): World {
    if Terminal(w.row.state) then w
    else
      w.(row := w.row.(scraperRun := true, importAttempts := w.row.importAttempts + 1),
         fx := if w.row.scraperRun then w.fx else w.fx.(scraperRuns := w.fx.scraperRuns + 1))
  }

  /** Spend one dataset read and one KV read before either is sent. */
  function CountReads(w: World, caps: Caps, latchTripped: bool): (World, Signal) {
    if !w.row.state.Pending? then (w, Moved)
    else if w.row.datasetReads >= caps.datasetReads || w.row.kvReads >= caps.kvReads then (w, Refused(ReadCapExhausted))
    else if w.row.datasetReads >= 1 && latchTripped then (w, Blocked)
    else (w.(row := w.row.(datasetReads := w.row.datasetReads + 1, kvReads := w.row.kvReads + 1)), Fine)
  }

  /** What fetch stores: the classification of the run. */
  function Classify(w: World, c: Completeness): World {
    w.(row := w.row.(completeness := Some(c)))
  }

  function CommitObservations(w: World, deadlinePassed: bool): (World, Signal) {
    if !w.row.state.Pending? then (w, Moved)
    else if deadlinePassed then (w, Refused(StorageDeadlinePassed))
    else
      (World(w.row.(state := ObservationsCommitted),
             w.fx.(observationCommits := w.fx.observationCommits + 1)), Fine)
  }

  function CommitAbsence(w: World): (World, Signal) {
    if !w.row.state.ObservationsCommitted? then (w, Moved)
    else (World(w.row.(state := AbsenceApplied), w.fx.(absenceCommits := w.fx.absenceCommits + 1)), Fine)
  }

  function Advance(w: World, expected: ImportState, to: ImportState): (World, Signal) {
    if w.row.state != expected then (w, Moved) else (w.(row := w.row.(state := to)), Fine)
  }

  /** The lifecycle event a finalized run feeds its source. */
  function FinalEvent(row: Row): LifecycleEvent {
    if row.kind.Full? then Success
    else if row.completeness == Some(Complete) || row.completeness == Some(Truncated) then ProbeSuccess
    else ProbeFailure
  }

  function RejectEvent(kind: RunKind, reason: RejectReason): LifecycleEvent {
    if kind.Full? then Failure(RejectFailureClass(reason)) else ProbeFailure
  }

  function WithOutcome(w: World, state: ImportState, event: LifecycleEvent): World {
    StampWorkCompletion(World(w.row.(state := state), w.fx.(outcomes := w.fx.outcomes + [event])))
  }

  function Finalize(w: World): (World, Signal) {
    if !w.row.state.Evaluated? then (w, Moved) else (WithOutcome(w, Finalized, FinalEvent(w.row)), Fine)
  }

  /** Reject in one outcome transaction; `onlyFrom` makes it a compare-and-set. */
  function Reject(w: World, reason: RejectReason, onlyFrom: Option<ImportState>): World {
    if Terminal(w.row.state) || (onlyFrom.Some? && w.row.state != onlyFrom.value) then w
    else
      WithOutcome(World(w.row.(rejectReason := Some(reason)),
                        w.fx.(rejectedFrom := Some(w.row.state),
                              overdueRejections := w.fx.overdueRejections + if onlyFrom.Some? then 1 else 0)),
                  Rejected, RejectEvent(w.row.kind, reason))
  }

  function RecordExhaustion(w: World): World {
    w.(row := w.row.(retryExhausted := w.row.retryExhausted + 1))
  }

  function RecordLatchBlock(w: World): World {
    w.(row := w.row.(latchBlocked := true))
  }

  // ── Storage-cleanup transactions ──────────────────────────────────────────

  const BOTH: set<Storage> := {Dataset, KvStore}

  /** A run answer: whether it proves termination, and the storage ids it names. */
  datatype Answer = Answer(terminal: bool, ids: set<Storage>)

  /** A terminal status is never overwritten, and a recorded id never replaced. */
  function RecordObservation(row: Row, answer: Answer): Row {
    row.(remoteTerminal := row.remoteTerminal || answer.terminal, ids := row.ids + answer.ids)
  }

  /** Record a trip unless the same one is open. */
  function TripLatch(trips: seq<Trip>, reason: LatchReason): seq<Trip> {
    if Trip(reason, true) in trips then trips else trips + [Trip(reason, true)]
  }

  predicate EverTripped(trips: seq<Trip>, reason: LatchReason) {
    Trip(reason, true) in trips || Trip(reason, false) in trips
  }

  function MarkDeleteFailed(row: Row): Row {
    row.(storageState := DeleteFailed, trips := TripLatch(row.trips, DeleteAttemptsExhausted))
  }

  /** What one counted attempt must do, read under the lock that counted it. */
  datatype Attempt = Attempt(number: nat, observedTerminal: bool, verifiedThen: set<Storage>, pending: seq<Storage>)

  function PendingStorages(verified: set<Storage>): seq<Storage> {
    (if Dataset in verified then [] else [Dataset]) + (if KvStore in verified then [] else [KvStore])
  }

  /** Count one attempt before any call, or decide that there is nothing to send. */
  function BeginAttempt(row: Row, caps: Caps, overdue: bool): (Row, Option<Attempt>) {
    if row.storageState.Deleted? || row.orphaned then (row, None)
    else if !row.started then
      if overdue then (row.(orphaned := true, trips := TripLatch(row.trips, OrphanedStart)), None) else (row, None)
    else if !overdue && !row.remoteTerminal then (row, None)
    else if row.cleanupAttempts >= caps.deleteAttempts then (MarkDeleteFailed(row), None)
    else
      (row.(cleanupAttempts := row.cleanupAttempts + 1),
       Some(Attempt(row.cleanupAttempts + 1, row.remoteTerminal, row.verified, PendingStorages(row.verified))))
  }

  /** Record an attempt's outcome in one commit: progress, final state, or delete_failed at the cap. */
  function FinishAttempt(w: World, caps: Caps, deleted: set<Storage>): World {
    var row := w.row.(verified := w.row.verified + deleted);
    if BOTH <= row.verified then StampWorkCompletion(w.(row := row.(storageState := Deleted)))
    else if row.storageState.Deleted? || row.cleanupAttempts < caps.deleteAttempts then w.(row := row)
    else w.(row := MarkDeleteFailed(row))
  }

  // ── Stranded latches ──────────────────────────────────────────────────────

  predicate StrandedOrphan(row: Row) {
    row.orphaned && !EverTripped(row.trips, OrphanedStart)
  }

  predicate StrandedExhausted(row: Row, caps: Caps) {
    && (row.storageState.DeleteFailed?
        || (!row.storageState.Deleted? && row.cleanupAttempts >= caps.deleteAttempts && !row.orphaned))
    && !EverTripped(row.trips, DeleteAttemptsExhausted)
  }

  /** Trip every stranded condition of one row. */
  function TripStranded(row: Row, caps: Caps): Row {
    var r := if StrandedOrphan(row) then row.(trips := TripLatch(row.trips, OrphanedStart)) else row;
    if StrandedExhausted(row, caps) then MarkDeleteFailed(r) else r
  }

  /** The owner's reset closes every open trip and forgets none. */
  function ResetTrips(trips: seq<Trip>): (r: seq<Trip>)
    ensures |r| == |trips|
    ensures forall i :: 0 <= i < |r| ==> r[i] == Trip(trips[i].reason, false)
  {
    seq(|trips|, i requires 0 <= i < |trips| => Trip(trips[i].reason, false))
  }
}
