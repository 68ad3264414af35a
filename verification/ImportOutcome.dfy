/**
 * Which lifecycle event an import ends with, and why an import is rejected
 * (src/hw_radar/acquisition/apify/importer.py:145-152, 297-340, 474-598).
 */
module ImportOutcome {
  import opened Prelude
  import opened Contracts
  import opened ProviderRow
  import opened Protocol
  import opened ImportSafety

  lemma {:induction false} KindStays(kind: RunKind, trace: seq<Action>, caps: Caps)
    ensures Run(kind, trace, caps).world.row.kind == kind
  {
    if trace != [] {
      KindStays(kind, trace[..|trace| - 1], caps);
      ActionIsSound(Run(kind, trace[..|trace| - 1], caps), trace[|trace| - 1], caps);
    }
  }

  /**
   * A rejected import ends with one event, which names the failure: a probe's is a probe failure, a
   * full run's is the parser's fault, unknown or transient as its reason says.
   */
  lemma RejectedOutcome(kind: RunKind, trace: seq<Action>, caps: Caps)
    requires Run(kind, trace, caps).world.row.state.Rejected?
    ensures var w := Run(kind, trace, caps).world;
            && |w.fx.outcomes| == 1 && w.row.rejectReason.Some?
            && var outcome, reason := w.fx.outcomes[0], w.row.rejectReason.value;
               && (kind.Probe? ==> outcome == ProbeFailure)
               && (kind.Full? ==>
                     outcome == if reason == FailedRun || reason == InvalidContract then Failure(ParserRot)
                                else if reason == UnknownRetention || reason == StartOptionMismatch then Failure(Unknown)
                                else Failure(Transient))
  {
    ImportIsSafe(kind, trace, caps);
    KindStays(kind, trace, caps);
  }

  // ── The finalizing step ───────────────────────────────────────────────────

  /** The finalizing transaction of an executor whose copy is evaluated. */
  predicate Finalizes(s: System, a: Action) {
    a.Step? && PcOf(s, a.e) == Ready(Evaluated) && s.world.row.state.Evaluated?
  }

  lemma FinalizeEvents(w: World)
    ensures Finalize(w).0.row.state.Finalized? <==> w.row.state.Evaluated? || w.row.state.Finalized?
    ensures w.row.state.Evaluated? ==>
              Finalize(w).0.fx.outcomes
              == w.fx.outcomes + [if w.row.kind.Full? then Success
                                  else if w.row.completeness == Some(Complete) || w.row.completeness == Some(Truncated) then ProbeSuccess
                                  else ProbeFailure]
  {
  }

  lemma RejectIsNotFinal(w: World, reason: RejectReason, onlyFrom: Option<ImportState>)
    ensures Reject(w, reason, onlyFrom).row.state.Finalized? <==> w.row.state.Finalized?
  {
  }

  lemma FinishKeepsState(w: World, caps: Caps, deleted: set<Storage>)
    ensures FinishAttempt(w, caps, deleted).row.state == w.row.state
  {
  }

  lemma StageFinalizes(s: System, e: nat, copy: ImportState, c: Choice, caps: Caps)
    ensures StageStep(s, e, copy, c, caps).world.row.state.Finalized?
            <==> s.world.row.state.Finalized? || (copy.Evaluated? && s.world.row.state.Evaluated?)
  {
    match copy
    case Pending => CountingKeepsState(s.world, caps, s.latch);
    case Evaluated => FinalizeEvents(s.world);
    case _ =>
  }

  lemma CountingKeepsState(w: World, caps: Caps, latch: bool)
    ensures CountReads(w, caps, latch).0.row.state == w.row.state
  {
  }

  lemma ImportFinalizes(s: System, e: nat, c: Choice, caps: Caps)
    requires Importing(PcOf(s, e))
    ensures ImportStep(s, e, c, caps).world.row.state.Finalized? <==> s.world.row.state.Finalized? || Finalizes(s, Step(e, c))
  {
    match PcOf(s, e)
    case Ready(copy) => StageFinalizes(s, e, copy, c, caps);
    case Rejecting(reason) => RejectIsNotFinal(s.world, reason, None);
    case _ =>
  }

  lemma CleanupFinalizesNothing(s: System, e: nat, c: Choice, caps: Caps)
    requires !Importing(PcOf(s, e))
    ensures CleanupStep(s, e, c, caps).world.row.state.Finalized? <==> s.world.row.state.Finalized?
  {
    match PcOf(s, e)
    case OverdueReject => RejectIsNotFinal(s.world, StorageDeadlinePassed, Some(Pending));
    case Finishing(_, deleted) => FinishKeepsState(s.world, caps, deleted);
    case _ =>
  }

  /**
   * An import is finalized exactly by its finalizing step, whose event is a success of a full run, and
   * of a probe exactly when the probe was then classified complete or truncated.
   */
  lemma FinalOutcome(s: System, a: Action, caps: Caps)
    requires !s.world.row.state.Finalized?
    ensures var w, w' := s.world, Do(s, a, caps).world;
            && (w'.row.state.Finalized? <==> Finalizes(s, a))
            && (Finalizes(s, a) ==>
                  w'.fx.outcomes
                  == w.fx.outcomes + [if w.row.kind.Full? then Success
                                      else if w.row.completeness == Some(Complete) || w.row.completeness == Some(Truncated) then ProbeSuccess
                                      else ProbeFailure])
  {
    match a
    case Step(e, c) =>
      if Importing(PcOf(s, e)) { ImportFinalizes(s, e, c, caps); } else { CleanupFinalizesNothing(s, e, c, caps); }
      FinalizeEvents(s.world);
    case MismatchReject => RejectIsNotFinal(s.world, StartOptionMismatch, None);
    case _ =>
  }

  // ── Why an import is refused ──────────────────────────────────────────────

  /** The reason an importing executor turns to rejecting with: a precondition, a cap, a failed run or a passed deadline. */
  function Refusal(s: System, e: nat, c: Choice, caps: Caps): Option<RejectReason> {
    var row := s.world.row;
    match PcOf(s, e)
    case Ready(copy) =>
      if !copy.Pending? then None
      else if c.refuse.Some? then c.refuse
      else if row.state.Pending? && (row.datasetReads >= caps.datasetReads || row.kvReads >= caps.kvReads) then Some(ReadCapExhausted)
      else None
    case Fetched(completeness) => if completeness.Failed? then Some(FailedRun) else None
    case Committing => if !c.exhaust && row.state.Pending? && c.late then Some(StorageDeadlinePassed) else None
    case _ => None
  }

  lemma StageRefuses(s: System, e: nat, copy: ImportState, c: Choice, caps: Caps)
    requires PcOf(s, e) == Ready(copy)
    ensures var pc := PcOf(StageStep(s, e, copy, c, caps), e);
            if Refusal(s, e, c, caps).Some? then pc == Rejecting(Refusal(s, e, c, caps).value) else !pc.Rejecting?
  {
  }

  /** And it turns to rejecting exactly then. */
  lemma RefusesExactlyWhen(s: System, e: nat, c: Choice, caps: Caps)
    requires Importing(PcOf(s, e))
    ensures var pc := PcOf(ImportStep(s, e, c, caps), e);
            if Refusal(s, e, c, caps).Some? then pc == Rejecting(Refusal(s, e, c, caps).value) else !pc.Rejecting?
  {
    if PcOf(s, e).Ready? { StageRefuses(s, e, PcOf(s, e).copy, c, caps); }
  }

  /** The reason an action rejects a row of this state with, if it may. */
  function Rejection(s: System, a: Action): Option<RejectReason> {
    if Terminal(s.world.row.state) then None
    else if a.MismatchReject? then Some(StartOptionMismatch)
    else if !a.Step? then None
    else if PcOf(s, a.e).Rejecting? then Some(PcOf(s, a.e).reason)
    else if PcOf(s, a.e).OverdueReject? && s.world.row.state.Pending? then Some(StorageDeadlinePassed)
    else None
  }

  lemma RejectWrites(w: World, reason: RejectReason, onlyFrom: Option<ImportState>)
    ensures var w' := Reject(w, reason, onlyFrom);
            if Terminal(w.row.state) || (onlyFrom.Some? && w.row.state != onlyFrom.value) then w' == w
            else w'.row.state.Rejected? && w'.row.rejectReason == Some(reason) && w'.fx.rejectedFrom == Some(w.row.state)
  {
  }

  ghost predicate RejectedBy(w: World, w': World, reason: Option<RejectReason>) {
    if reason.Some? then w'.row.state.Rejected? && w'.row.rejectReason == reason && w'.fx.rejectedFrom == Some(w.row.state)
    else w'.row.rejectReason == w.row.rejectReason && (w'.row.state.Rejected? <==> w.row.state.Rejected?)
  }

  lemma FinalizeRejectsNothing(w: World)
    ensures RejectedBy(w, Finalize(w).0, None)
  {
  }

  lemma FinishRejectsNothing(w: World, caps: Caps, deleted: set<Storage>)
    ensures RejectedBy(w, FinishAttempt(w, caps, deleted), None)
  {
  }

  lemma StageRejectsNothing(s: System, e: nat, copy: ImportState, c: Choice, caps: Caps)
    ensures RejectedBy(s.world, StageStep(s, e, copy, c, caps).world, None)
  {
    FinalizeRejectsNothing(s.world);
  }

  lemma ImportRejects(s: System, e: nat, c: Choice, caps: Caps)
    requires Importing(PcOf(s, e))
    ensures RejectedBy(s.world, ImportStep(s, e, c, caps).world, Rejection(s, Step(e, c)))
  {
    match PcOf(s, e)
    case Ready(copy) => StageRejectsNothing(s, e, copy, c, caps);
    case Rejecting(reason) => RejectWrites(s.world, reason, None);
    case _ =>
  }

  lemma CleanupRejects(s: System, e: nat, c: Choice, caps: Caps)
    requires !Importing(PcOf(s, e))
    ensures RejectedBy(s.world, CleanupStep(s, e, c, caps).world, Rejection(s, Step(e, c)))
  {
    match PcOf(s, e)
    case OverdueReject => RejectWrites(s.world, StorageDeadlinePassed, Some(Pending));
    case Finishing(_, deleted) => FinishRejectsNothing(s.world, caps, deleted);
    case _ =>
  }

  /** A row is rejected exactly by those actions, with the reason each one holds. */
  lemma RejectsExactlyWhen(s: System, a: Action, caps: Caps)
    ensures RejectedBy(s.world, Do(s, a, caps).world, Rejection(s, a))
  {
    match a
    case Step(e, c) =>
      if Importing(PcOf(s, e)) { ImportRejects(s, e, c, caps); } else { CleanupRejects(s, e, c, caps); }
    case MismatchReject => RejectWrites(s.world, StartOptionMismatch, None);
    case _ =>
  }

  // ── What an invocation writes down ────────────────────────────────────────

  /** A claim of a row not yet terminal, by an executor that read it so. */
  predicate Claims(s: System, a: Action) {
    a.Step? && PcOf(s, a.e).Loaded? && !Terminal(PcOf(s, a.e).copy) && !Terminal(s.world.row.state)
  }

  predicate StepsFrom(s: System, a: Action, pc: Pc) {
    a.Step? && PcOf(s, a.e) == pc
  }

  /** The notes of a row: its attempts and run, its exhausted retries, a blocked re-read and its classification. */
  predicate Noted(row: Row, row': Row, claimed: bool, exhausted: bool, blocked: bool, classified: Option<Completeness>) {
    && row'.importAttempts == row.importAttempts + (if claimed then 1 else 0)
    && row'.scraperRun == (row.scraperRun || claimed)
    && row'.retryExhausted == row.retryExhausted + (if exhausted then 1 else 0)
    && row'.latchBlocked == (row.latchBlocked || blocked)
    && row'.completeness == (if classified.Some? then classified else row.completeness)
  }

  lemma RejectNotesNothing(w: World, reason: RejectReason, onlyFrom: Option<ImportState>)
    ensures Noted(w.row, Reject(w, reason, onlyFrom).row, false, false, false, None)
  {
  }

  lemma StageNotesNothing(s: System, e: nat, copy: ImportState, c: Choice, caps: Caps)
    ensures Noted(s.world.row, StageStep(s, e, copy, c, caps).world.row, false, false, false, None)
  {
    match copy
    case Evaluated => FinalizeNotesNothing(s.world);
    case _ =>
  }

  lemma FinalizeNotesNothing(w: World)
    ensures Noted(w.row, Finalize(w).0.row, false, false, false, None)
  {
  }

  lemma ImportNotes(s: System, e: nat, c: Choice, caps: Caps)
    requires Importing(PcOf(s, e))
    ensures var pc := PcOf(s, e);
            Noted(s.world.row, ImportStep(s, e, c, caps).world.row, Claims(s, Step(e, c)), pc.Exhausted?, pc.LatchBlocked?,
                  if pc.Sent? then Some(c.completeness) else None)
  {
    match PcOf(s, e)
    case Ready(copy) => StageNotesNothing(s, e, copy, c, caps);
    case Rejecting(reason) => RejectNotesNothing(s.world, reason, None);
    case _ =>
  }

  lemma CleanupNotesNothing(s: System, e: nat, c: Choice, caps: Caps)
    requires !Importing(PcOf(s, e))
    ensures Noted(s.world.row, CleanupStep(s, e, c, caps).world.row, false, false, false, None)
  {
    match PcOf(s, e)
    case OverdueReject => RejectNotesNothing(s.world, StorageDeadlinePassed, Some(Pending));
    case Finishing(_, deleted) => FinishNotesNothing(s.world, caps, deleted);
    case _ =>
  }

  lemma FinishNotesNothing(w: World, caps: Caps, deleted: set<Storage>)
    ensures Noted(w.row, FinishAttempt(w, caps, deleted).row, false, false, false, None)
  {
  }

  /**
   * Each action's notes: an attempt is counted and the run created exactly by a claim, a retry note
   * and a blocked re-read are left exactly by an executor stopped for that, and the classification is
   * stored exactly once the reads were sent.
   */
  lemma NotesExactlyWhen(s: System, a: Action, caps: Caps)
    ensures Noted(s.world.row, Do(s, a, caps).world.row, Claims(s, a), StepsFrom(s, a, Exhausted), StepsFrom(s, a, LatchBlocked),
                  if StepsFrom(s, a, Sent) then Some(a.choice.completeness) else None)
  {
    match a
    case Step(e, c) => if Importing(PcOf(s, e)) { ImportNotes(s, e, c, caps); } else { CleanupNotesNothing(s, e, c, caps); }
    case MismatchReject => RejectNotesNothing(s.world, StartOptionMismatch, None);
    case _ =>
  }

  /** A re-read of a pending row below its caps, while the latch is tripped. */
  predicate BlockedRead(s: System, e: nat, c: Choice, caps: Caps) {
    var row := s.world.row;
    && PcOf(s, e) == Ready(Pending) && c.refuse.None? && row.state.Pending?
    && row.datasetReads < caps.datasetReads && row.kvReads < caps.kvReads && row.datasetReads >= 1 && s.latch
  }

  /** An executor stops for the latch exactly at such a read, and for its retries exactly where a commit exhausts them. */
  lemma StopsExactlyWhen(s: System, e: nat, c: Choice, caps: Caps)
    requires Importing(PcOf(s, e))
    ensures PcOf(ImportStep(s, e, c, caps), e).LatchBlocked? <==> BlockedRead(s, e, c, caps)
    ensures PcOf(ImportStep(s, e, c, caps), e).Exhausted? <==>
              c.exhaust && (PcOf(s, e).Committing? || PcOf(s, e) == Ready(ObservationsCommitted))
  {
    if PcOf(s, e).Ready? { StageStops(s, e, PcOf(s, e).copy, c, caps); }
  }

  lemma StageStops(s: System, e: nat, copy: ImportState, c: Choice, caps: Caps)
    requires PcOf(s, e) == Ready(copy)
    ensures PcOf(StageStep(s, e, copy, c, caps), e).LatchBlocked? <==> BlockedRead(s, e, c, caps)
    ensures PcOf(StageStep(s, e, copy, c, caps), e).Exhausted? <==> c.exhaust && copy.ObservationsCommitted?
  {
  }

  // ── The state an action leaves ────────────────────────────────────────────

  /** The stages in order. */
  function NextStage(state: ImportState): ImportState {
    match state
    case Pending => ObservationsCommitted
    case ObservationsCommitted => AbsenceApplied
    case AbsenceApplied => Resolved
    case Resolved => Evaluated
    case Evaluated => Finalized
    case _ => state
  }

  /** A step that finishes the stage the row is in: a commit of fetched rows in time, or a stage whose copy is still the row's state. */
  predicate Finishes(s: System, a: Action) {
    var state := s.world.row.state;
    && a.Step?
    && (if state.Pending? then PcOf(s, a.e).Committing? && !a.choice.exhaust && !a.choice.late
        else PcOf(s, a.e) == Ready(state) && !Terminal(state) && !(state.ObservationsCommitted? && a.choice.exhaust))
  }

  function StateAfter(s: System, a: Action): ImportState {
    if Rejection(s, a).Some? then Rejected
    else if Finishes(s, a) then NextStage(s.world.row.state)
    else s.world.row.state
  }

  lemma RejectState(w: World, reason: RejectReason, onlyFrom: Option<ImportState>)
    ensures Reject(w, reason, onlyFrom).row.state
            == if Terminal(w.row.state) || (onlyFrom.Some? && w.row.state != onlyFrom.value) then w.row.state else Rejected
  {
  }

  lemma FinalizeState(w: World)
    ensures Finalize(w).0.row.state == if w.row.state.Evaluated? then Finalized else w.row.state
  {
  }

  lemma StageState(s: System, e: nat, copy: ImportState, c: Choice, caps: Caps)
    requires PcOf(s, e) == Ready(copy)
    ensures StageStep(s, e, copy, c, caps).world.row.state == StateAfter(s, Step(e, c))
  {
    match copy
    case Pending => CountingKeepsState(s.world, caps, s.latch);
    case Evaluated => FinalizeState(s.world);
    case _ =>
  }

  lemma ImportStateIs(s: System, e: nat, c: Choice, caps: Caps)
    requires Importing(PcOf(s, e))
    ensures ImportStep(s, e, c, caps).world.row.state == StateAfter(s, Step(e, c))
  {
    match PcOf(s, e)
    case Ready(copy) => StageState(s, e, copy, c, caps);
    case Rejecting(reason) => RejectState(s.world, reason, None);
    case _ =>
  }

  lemma CleanupStateIs(s: System, e: nat, c: Choice, caps: Caps)
    requires !Importing(PcOf(s, e))
    ensures CleanupStep(s, e, c, caps).world.row.state == StateAfter(s, Step(e, c))
  {
    match PcOf(s, e)
    case OverdueReject => RejectState(s.world, StorageDeadlinePassed, Some(Pending));
    case Finishing(_, deleted) => FinishKeepsState(s.world, caps, deleted);
    case _ =>
  }

  /** The state every action leaves: the next stage exactly by a step that finishes the row's own stage, one stage at a time, or rejected. */
  lemma StateExactlyWhen(s: System, a: Action, caps: Caps)
    ensures Do(s, a, caps).world.row.state == StateAfter(s, a)
  {
    match a
    case Step(e, c) => if Importing(PcOf(s, e)) { ImportStateIs(s, e, c, caps); } else { CleanupStateIs(s, e, c, caps); }
    case MismatchReject => RejectState(s.world, StartOptionMismatch, None);
    case _ =>
  }

  // ── What surrounds the executors ──────────────────────────────────────────

  /** Only this executor's place changes: nothing committed, counted or sent is lost. */
  ghost predicate OnlyMoves(s: System, s': System, e: nat, pc: Pc) {
    && s'.world == s.world && s'.latch == s.latch && s'.sent == s.sent && s'.calls == s.calls
    && PcOf(s', e) == pc && forall f: nat :: f != e ==> PcOf(s', f) == PcOf(s, f)
  }

  /** Only these columns of the row change. */
  predicate OnlyWrites(s: System, s': System, started: bool, ids: set<Storage>, trips: seq<Trip>) {
    s' == s.(world := s.world.(row := s.world.row.(started := started, ids := ids, trips := trips)))
  }

  /**
   * A crash loses an executor's place and nothing else; an invocation starts only in an idle executor,
   * an overdue cleanup with the rejection of an import still pending; a recorded start keeps every id;
   * the owner's reset closes every trip and forgets none; the latch is as it was last set.
   */
  lemma SurroundingsAre(s: System, a: Action, caps: Caps)
    ensures var s' := Do(s, a, caps);
            && (a.Crash? ==> OnlyMoves(s, s', a.e, Idle))
            && (a.StartImport? && PcOf(s, a.e).Idle? ==> OnlyMoves(s, s', a.e, Loaded(s.world.row.state)))
            && (a.StartOverdue? && PcOf(s, a.e).Idle? ==>
                  OnlyMoves(s, s', a.e, if s.world.row.state.Pending? then OverdueReject else Beginning(true)))
            && (a.StartCleanup? && PcOf(s, a.e).Idle? && (s.world.row.state.Finalized? || s.world.row.state.Rejected?) ==>
                  OnlyMoves(s, s', a.e, Beginning(false)))
            && (a.SetLatch? ==> s' == s.(latch := a.tripped))
            && (a.RecordStart? ==> OnlyWrites(s, s', true, s.world.row.ids + a.ids, s.world.row.trips))
            && (a.OwnerReset? ==>
                  && OnlyWrites(s, s', s.world.row.started, s.world.row.ids, s'.world.row.trips)
                  && |s'.world.row.trips| == |s.world.row.trips|
                  && forall i :: 0 <= i < |s.world.row.trips| ==> s'.world.row.trips[i] == Trip(s.world.row.trips[i].reason, false))
            && (a.StrandedPass? ==> s' == s.(world := s.world.(row := TripStranded(s.world.row, caps))))
  {
  }
}
