/**
 * What holds in every run of the durable protocol on the storage side: when a DELETE may leave, how
 * many calls an attempt sends, when a row counts as deleted, and that no mark loses its latch trip.
 */
module CleanupSafety {
  import opened Prelude
  import opened ProviderRow
  import opened Protocol
  import opened ImportSafety
  import opened StrandedLatches

  predicate InAttempt(pc: Pc) {
    pc.Aborting? || pc.AbortAnswered? || pc.Confirming? || pc.ConfirmAnswered? || pc.Rereading? || pc.Deleting?
    || pc.Finishing?
  }

  /** How many calls the attempt may have sent by this point. */
  function Used(pc: Pc): nat {
    match pc
    case Aborting(_) => 0
    case AbortAnswered(_, _) => 1
    case Confirming(_) => 1
    case ConfirmAnswered(_, _) => 2
    case Rereading(_) => 2
    case Deleting(_, _, next, _) => 2 + next
    case _ => 4
  }

  function CallsOf(calls: seq<Call>, number: nat): nat {
    if calls == [] then 0
    else CallsOf(calls[..|calls| - 1], number) + if calls[|calls| - 1].attempt.number == number then 1 else 0
  }

  /** A delete of this storage was sent, and answered deleted, or absent where that is trusted as proof. */
  ghost predicate SeenGone(calls: seq<Call>, storage: Storage, caps: Caps) {
    exists i :: 0 <= i < |calls| && calls[i].kind == Delete(storage)
                && (calls[i].outcome == Some(DeletedNow) || (calls[i].outcome == Some(Absent) && caps.trust404))
  }

  /** A DELETE leaves only after termination was observed, for a storage unverified when the attempt was counted,
      and never while the import could still commit observations. */
  predicate CallOk(c: Call, attempts: nat) {
    && 1 <= c.attempt.number <= attempts
    && (c.kind.Delete? ==> c.afterTerminal && !c.importPending && c.kind.storage !in c.attempt.verifiedThen)
    && (c.kind.Abort? ==> !c.attempt.observedTerminal)
  }

  ghost predicate CallsOk(s: System) {
    && (forall i :: 0 <= i < |s.calls| ==> CallOk(s.calls[i], s.world.row.cleanupAttempts))
    && (forall n: nat :: CallsOf(s.calls, n) <= 4)
    && (forall n: nat :: n > s.world.row.cleanupAttempts ==> CallsOf(s.calls, n) == 0)
  }

  ghost predicate RowOk(row: Row, calls: seq<Call>, caps: Caps) {
    && row.cleanupAttempts <= caps.deleteAttempts
    && (row.storageState.Deleted? <==> BOTH <= row.verified)
    && (forall st :: st in row.verified ==> SeenGone(calls, st, caps))
    && (row.orphaned ==> EverTripped(row.trips, OrphanedStart))
    && (row.storageState.DeleteFailed? ==> EverTripped(row.trips, DeleteAttemptsExhausted))
  }

  ghost predicate UnitOk(s: System, pc: Pc, caps: Caps) {
    && (pc.Beginning? || InAttempt(pc) ==> !s.world.row.state.Pending?)
    && (InAttempt(pc) ==>
          && 1 <= pc.attempt.number <= s.world.row.cleanupAttempts
          && pc.attempt.pending == PendingStorages(pc.attempt.verifiedThen)
          && CallsOf(s.calls, pc.attempt.number) <= Used(pc))
    && (pc.Aborting? ==> !pc.attempt.observedTerminal)
    && (pc.Rereading? || pc.Deleting? ==> s.world.row.remoteTerminal)
    && (pc.Deleting? ==> pc.next <= |pc.attempt.pending|)
    && (pc.Deleting? || pc.Finishing? ==> forall st :: st in pc.deleted ==> SeenGone(s.calls, st, caps))
  }

  predicate SameAttempt(a: Pc, b: Pc) {
    InAttempt(a) && InAttempt(b) && a.attempt.number == b.attempt.number
  }

  ghost predicate AttemptsApart(s: System) {
    forall e, f :: SameAttempt(PcOf(s, e), PcOf(s, f)) ==> e == f
  }

  ghost predicate CleanupOk(s: System, caps: Caps) {
    && RowOk(s.world.row, s.calls, caps) && CallsOk(s)
    && (forall e :: UnitOk(s, PcOf(s, e), caps))
    && AttemptsApart(s)
  }

  // ── Calls only grow ───────────────────────────────────────────────────────

  lemma CallsOfSnoc(calls: seq<Call>, c: Call, number: nat)
    ensures CallsOf(calls + [c], number) == CallsOf(calls, number) + if c.attempt.number == number then 1 else 0
  {
    assert (calls + [c])[..|calls|] == calls;
  }

  lemma SeenGoneStays(calls: seq<Call>, more: seq<Call>, storage: Storage, caps: Caps)
    requires SeenGone(calls, storage, caps) && calls <= more
    ensures SeenGone(more, storage, caps)
  {
    var i :| 0 <= i < |calls| && calls[i].kind == Delete(storage)
             && (calls[i].outcome == Some(DeletedNow) || (calls[i].outcome == Some(Absent) && caps.trust404));
    assert more[i] == calls[i];
  }

  /** An executor sends at most one call in a step, for the attempt it is in, and pays for it. */
  ghost predicate SendsAtMostOne(s: System, s': System, e: nat) {
    || s'.calls == s.calls
    || (&& InAttempt(PcOf(s, e)) && InAttempt(PcOf(s', e))
        && PcOf(s', e).attempt == PcOf(s, e).attempt
        && Used(PcOf(s', e)) > Used(PcOf(s, e))
        && |s'.calls| == |s.calls| + 1 && s.calls <= s'.calls
        && s'.calls[|s.calls|].attempt == PcOf(s, e).attempt)
  }

  lemma CleanupSends(s: System, e: nat, c: Choice, caps: Caps)
    ensures SendsAtMostOne(s, CleanupStep(s, e, c, caps), e)
  {
  }

  /** What a call that leaves knows. */
  lemma SentCallIsOk(s: System, e: nat, c: Choice, caps: Caps)
    requires UnitOk(s, PcOf(s, e), caps)
    ensures var s' := CleanupStep(s, e, c, caps);
            |s'.calls| > |s.calls| ==> CallOk(s'.calls[|s.calls|], s.world.row.cleanupAttempts)
  {
  }

  // ── Who changes the storage side of the row ───────────────────────────────

  predicate StorageSame(row: Row, row': Row) {
    && row'.cleanupAttempts == row.cleanupAttempts && row'.storageState == row.storageState
    && row'.orphaned == row.orphaned && row'.verified == row.verified && row'.trips == row.trips
  }

  lemma RejectKeepsStorage(w: World, reason: RejectReason, onlyFrom: Option<ImportState>)
    ensures StorageSame(w.row, Reject(w, reason, onlyFrom).row)
  {
  }

  lemma FinalizeKeepsStorage(w: World)
    ensures StorageSame(w.row, Finalize(w).0.row)
  {
  }

  lemma StageKeepsStorage(s: System, e: nat, copy: ImportState, c: Choice, caps: Caps)
    ensures StorageSame(s.world.row, StageStep(s, e, copy, c, caps).world.row)
  {
    FinalizeKeepsStorage(s.world);
  }

  lemma ImportKeepsStorage(s: System, e: nat, c: Choice, caps: Caps)
    requires Importing(PcOf(s, e))
    ensures StorageSame(s.world.row, ImportStep(s, e, c, caps).world.row)
    ensures !InAttempt(PcOf(ImportStep(s, e, c, caps), e)) && !PcOf(ImportStep(s, e, c, caps), e).Beginning?
    ensures ImportStep(s, e, c, caps).calls == s.calls
  {
    match PcOf(s, e)
    case Ready(copy) =>
      StageKeepsStorage(s, e, copy, c, caps);
    case Rejecting(reason) => RejectKeepsStorage(s.world, reason, None);
    case _ =>
  }

  lemma RowOkCarries(row: Row, row': Row, calls: seq<Call>, more: seq<Call>, caps: Caps)
    requires RowOk(row, calls, caps) && StorageSame(row, row') && calls <= more
    ensures RowOk(row', more, caps)
  {
    forall st | st in row'.verified ensures SeenGone(more, st, caps) {
      SeenGoneStays(calls, more, st, caps);
    }
  }

  lemma BeginKeepsRow(row: Row, calls: seq<Call>, caps: Caps, overdue: bool)
    requires RowOk(row, calls, caps)
    ensures RowOk(BeginAttempt(row, caps, overdue).0, calls, caps)
  {
  }

  lemma FinishKeepsRow(w: World, calls: seq<Call>, caps: Caps, deleted: set<Storage>)
    requires RowOk(w.row, calls, caps) && forall st :: st in deleted ==> SeenGone(calls, st, caps)
    ensures RowOk(FinishAttempt(w, caps, deleted).row, calls, caps)
    ensures FinishAttempt(w, caps, deleted).row.cleanupAttempts == w.row.cleanupAttempts
  {
    AttemptsAfterFinish(w, caps, deleted);
    var row := w.row.(verified := w.row.verified + deleted);
    if w.row.storageState.Deleted? { assert BOTH <= row.verified; }
    if BOTH <= row.verified {
      FinishDeletes(w, calls, caps, deleted);
    } else if row.cleanupAttempts >= caps.deleteAttempts {
      MarkKeepsRow(row, calls, caps);
    }
  }

  lemma FinishDeletes(w: World, calls: seq<Call>, caps: Caps, deleted: set<Storage>)
    requires RowOk(w.row, calls, caps) && BOTH <= w.row.verified + deleted
    requires forall st :: st in deleted ==> SeenGone(calls, st, caps)
    ensures RowOk(FinishAttempt(w, caps, deleted).row, calls, caps)
  {
  }

  lemma MarkKeepsRow(row: Row, calls: seq<Call>, caps: Caps)
    requires RowOk(row, calls, caps) && !row.storageState.Deleted?
    ensures RowOk(MarkDeleteFailed(row), calls, caps)
  {
  }

  lemma LatchPassesKeepRow(row: Row, calls: seq<Call>, caps: Caps)
    requires RowOk(row, calls, caps)
    ensures RowOk(TripStranded(row, caps), calls, caps)
    ensures RowOk(row.(trips := ResetTrips(row.trips)), calls, caps)
  {
    ResetKeepsReasons(row.trips, OrphanedStart);
    ResetKeepsReasons(row.trips, DeleteAttemptsExhausted);
  }


  // ── One action ────────────────────────────────────────────────────────────

  lemma CleanupKeepsRow(s: System, e: nat, c: Choice, caps: Caps)
    requires RowOk(s.world.row, s.calls, caps) && UnitOk(s, PcOf(s, e), caps)
    ensures var s' := CleanupStep(s, e, c, caps); RowOk(s'.world.row, s'.calls, caps)
  {
    var s' := CleanupStep(s, e, c, caps);
    match PcOf(s, e)
    case Beginning(overdue) => BeginKeepsRow(s.world.row, s.calls, caps, overdue);
    case Finishing(_, deleted) => FinishKeepsRow(s.world, s.calls, caps, deleted);
    case _ =>
      OtherStepsKeepStorage(s, e, c, caps);
      RowOkCarries(s.world.row, s'.world.row, s.calls, s'.calls, caps);
  }

  lemma OtherStepsKeepStorage(s: System, e: nat, c: Choice, caps: Caps)
    requires !PcOf(s, e).Beginning? && !PcOf(s, e).Finishing?
    ensures var s' := CleanupStep(s, e, c, caps); StorageSame(s.world.row, s'.world.row) && s.calls <= s'.calls
  {
    CleanupSends(s, e, c, caps);
    if PcOf(s, e).OverdueReject? { RejectKeepsStorage(s.world, StorageDeadlinePassed, Some(Pending)); }
  }

  lemma RowStaysOk(s: System, a: Action, caps: Caps)
    requires RowOk(s.world.row, s.calls, caps) && (a.Step? ==> UnitOk(s, PcOf(s, a.e), caps))
    ensures var s' := Do(s, a, caps); RowOk(s'.world.row, s'.calls, caps)
  {
    var s' := Do(s, a, caps);
    match a
    case Step(e, c) =>
      if Importing(PcOf(s, e)) {
        ImportKeepsStorage(s, e, c, caps);
        RowOkCarries(s.world.row, s'.world.row, s.calls, s'.calls, caps);
      } else {
        CleanupKeepsRow(s, e, c, caps);
      }
    case MismatchReject =>
      RejectKeepsStorage(s.world, StartOptionMismatch, None);
      RowOkCarries(s.world.row, s'.world.row, s.calls, s'.calls, caps);
    case StrandedPass => LatchPassesKeepRow(s.world.row, s.calls, caps);
    case OwnerReset => LatchPassesKeepRow(s.world.row, s.calls, caps);
    case _ => RowOkCarries(s.world.row, s'.world.row, s.calls, s'.calls, caps);
  }

  /** The attempt counter moves only when an attempt is counted, and that executor holds the new number. */
  lemma CleanupCounts(s: System, e: nat, c: Choice, caps: Caps)
    ensures var s' := CleanupStep(s, e, c, caps);
            && (s'.world.row.cleanupAttempts == s.world.row.cleanupAttempts
                || (PcOf(s, e).Beginning? && s'.world.row.cleanupAttempts == s.world.row.cleanupAttempts + 1))
            && (InAttempt(PcOf(s', e)) ==>
                  if PcOf(s, e).Beginning? then
                    && s'.world.row.cleanupAttempts == s.world.row.cleanupAttempts + 1
                    && PcOf(s', e).attempt.number == s'.world.row.cleanupAttempts
                  else InAttempt(PcOf(s, e)) && PcOf(s', e).attempt == PcOf(s, e).attempt)
  {
    match PcOf(s, e)
    case OverdueReject => RejectKeepsStorage(s.world, StorageDeadlinePassed, Some(Pending));
    case Finishing(_, deleted) => AttemptsAfterFinish(s.world, caps, deleted);
    case _ =>
  }

  lemma AttemptsAfterFinish(w: World, caps: Caps, deleted: set<Storage>)
    ensures FinishAttempt(w, caps, deleted).row.cleanupAttempts == w.row.cleanupAttempts
  {
  }

  lemma DeleteKeepsUnit(s: System, e: nat, c: Choice, caps: Caps)
    requires PcOf(s, e).Deleting? && UnitOk(s, PcOf(s, e), caps)
    ensures var s' := DeleteStep(s, e, c, caps); UnitOk(s', PcOf(s', e), caps)
  {
    var s' := DeleteStep(s, e, c, caps);
    if s'.calls != s.calls {
      CallsOfSnoc(s.calls, s'.calls[|s.calls|], PcOf(s, e).attempt.number);
      forall st | st in PcOf(s', e).deleted ensures SeenGone(s'.calls, st, caps) {
        if st in PcOf(s, e).deleted {
          SeenGoneStays(s.calls, s'.calls, st, caps);
        } else {
          assert s'.calls[|s.calls|].kind == Delete(st);
        }
      }
    }
  }

  lemma CallKeepsUnit(s: System, e: nat, c: Choice, caps: Caps)
    requires (PcOf(s, e).Aborting? || PcOf(s, e).Confirming?) && UnitOk(s, PcOf(s, e), caps)
    ensures var s' := CleanupStep(s, e, c, caps); UnitOk(s', PcOf(s', e), caps)
  {
    var s' := CleanupStep(s, e, c, caps);
    CallsOfSnoc(s.calls, s'.calls[|s.calls|], PcOf(s, e).attempt.number);
  }

  lemma AnswerKeepsUnit(s: System, e: nat, c: Choice, caps: Caps)
    requires (PcOf(s, e).AbortAnswered? || PcOf(s, e).ConfirmAnswered?) && UnitOk(s, PcOf(s, e), caps)
    ensures var s' := CleanupStep(s, e, c, caps); UnitOk(s', PcOf(s', e), caps)
  {
  }

  lemma BeginKeepsUnit(s: System, e: nat, c: Choice, caps: Caps)
    requires PcOf(s, e).Beginning? && UnitOk(s, PcOf(s, e), caps) && CallsOk(s)
    ensures var s' := CleanupStep(s, e, c, caps); UnitOk(s', PcOf(s', e), caps)
  {
  }

  lemma OverdueKeepsUnit(s: System, e: nat, c: Choice, caps: Caps)
    requires PcOf(s, e).OverdueReject? && UnitOk(s, PcOf(s, e), caps)
    ensures var s' := CleanupStep(s, e, c, caps); UnitOk(s', PcOf(s', e), caps)
  {
    RejectLeavesPending(s.world);
  }

  lemma RejectLeavesPending(w: World)
    ensures !Reject(w, StorageDeadlinePassed, Some(Pending)).row.state.Pending?
  {
  }

  /** The unit an executor is in after its own step. */
  lemma OwnUnitStaysOk(s: System, e: nat, c: Choice, caps: Caps)
    requires UnitOk(s, PcOf(s, e), caps) && CallsOk(s)
    ensures var s' := CleanupStep(s, e, c, caps); UnitOk(s', PcOf(s', e), caps)
  {
    match PcOf(s, e)
    case OverdueReject => OverdueKeepsUnit(s, e, c, caps);
    case Beginning(_) => BeginKeepsUnit(s, e, c, caps);
    case Aborting(_) => CallKeepsUnit(s, e, c, caps);
    case Confirming(_) => CallKeepsUnit(s, e, c, caps);
    case AbortAnswered(_, _) => AnswerKeepsUnit(s, e, c, caps);
    case ConfirmAnswered(_, _) => AnswerKeepsUnit(s, e, c, caps);
    case Deleting(_, _, _, _) => DeleteKeepsUnit(s, e, c, caps);
    case _ =>
  }

  /** An action that leaves the attempt counter alone, unless it counts a new attempt. */
  lemma AttemptsAfter(s: System, a: Action, caps: Caps)
    ensures var s' := Do(s, a, caps);
            || s'.world.row.cleanupAttempts == s.world.row.cleanupAttempts
            || (a.Step? && PcOf(s, a.e).Beginning? && s'.world.row.cleanupAttempts == s.world.row.cleanupAttempts + 1)
    ensures !a.Step? ==> Do(s, a, caps).calls == s.calls
  {
    match a
    case Step(e, c) =>
      if Importing(PcOf(s, e)) { ImportKeepsStorage(s, e, c, caps); } else { CleanupCounts(s, e, c, caps); }
    case MismatchReject => RejectKeepsStorage(s.world, StartOptionMismatch, None);
    case _ =>
  }

  /** What an action adds to the calls: nothing, or one call of the acting executor's attempt. */
  lemma CallsAfter(s: System, a: Action, caps: Caps)
    ensures Do(s, a, caps).calls == s.calls || (a.Step? && SendsAtMostOne(s, Do(s, a, caps), a.e))
  {
    if a.Step? {
      if Importing(PcOf(s, a.e)) { ImportKeepsStorage(s, a.e, a.choice, caps); } else { CleanupSends(s, a.e, a.choice, caps); }
    }
  }

  predicate Names(a: Action, e: nat) {
    (a.StartImport? || a.StartCleanup? || a.StartOverdue? || a.Step? || a.Crash?) && a.e == e
  }

  /** What keeps a unit in order: the row moved on soundly, and any new call belongs to another attempt. */
  lemma UnitOkStays(s: System, s': System, pc: Pc, caps: Caps, e: nat)
    requires UnitOk(s, pc, caps) && Sound(s.world, s'.world, caps)
    requires s.world.row.cleanupAttempts <= s'.world.row.cleanupAttempts
    requires s'.calls == s.calls || (SendsAtMostOne(s, s', e) && !SameAttempt(PcOf(s, e), pc))
    ensures UnitOk(s', pc, caps)
  {
    assert s.calls <= s'.calls;
    if InAttempt(pc) && s'.calls != s.calls {
      assert s'.calls == s.calls + [s'.calls[|s.calls|]];
      CallsOfSnoc(s.calls, s'.calls[|s.calls|], pc.attempt.number);
    }
    if pc.Deleting? || pc.Finishing? {
      forall st | st in pc.deleted ensures SeenGone(s'.calls, st, caps) {
        SeenGoneStays(s.calls, s'.calls, st, caps);
      }
    }
  }

  /** A unit nobody stepped stays as it was: the calls others sent belong to other attempts. */
  lemma OtherUnitStaysOk(s: System, a: Action, caps: Caps, f: nat)
    requires CleanupOk(s, caps) && !Names(a, f)
    ensures UnitOk(Do(s, a, caps), PcOf(s, f), caps)
  {
    ActionIsSound(s, a, caps);
    AttemptsAfter(s, a, caps);
    CallsAfter(s, a, caps);
    assert a.Step? ==> !SameAttempt(PcOf(s, a.e), PcOf(s, f));
    UnitOkStays(s, Do(s, a, caps), PcOf(s, f), caps, if a.Step? then a.e else 0);
  }

  lemma UnitStaysOk(s: System, a: Action, caps: Caps, f: nat)
    requires CleanupOk(s, caps)
    ensures UnitOk(Do(s, a, caps), PcOf(Do(s, a, caps), f), caps)
  {
    if !Names(a, f) {
      OthersStay(s, a, caps, f);
      OtherUnitStaysOk(s, a, caps, f);
    } else if a.Step? {
      assert UnitOk(s, PcOf(s, f), caps);
      if Importing(PcOf(s, f)) {
        ImportKeepsStorage(s, f, a.choice, caps);
      } else {
        OwnUnitStaysOk(s, f, a.choice, caps);
      }
    }
  }

  lemma CallsStayOk(s: System, a: Action, caps: Caps)
    requires CleanupOk(s, caps)
    ensures CallsOk(Do(s, a, caps))
  {
    var s' := Do(s, a, caps);
    AttemptsAfter(s, a, caps);
    CallsAfter(s, a, caps);
    if s'.calls != s.calls {
      var pc, c := PcOf(s, a.e), s'.calls[|s.calls|];
      assert UnitOk(s, pc, caps);
      SentCallIsOk(s, a.e, a.choice, caps);
      assert s'.calls == s.calls + [c];
      UnitStaysOk(s, a, caps, a.e);
      forall n: nat ensures CallsOf(s'.calls, n) <= 4 && (n > s'.world.row.cleanupAttempts ==> CallsOf(s'.calls, n) == 0) {
        CallsOfSnoc(s.calls, c, n);
      }
    }
  }

  lemma AttemptsStayApart(s: System, a: Action, caps: Caps)
    requires CleanupOk(s, caps)
    ensures AttemptsApart(Do(s, a, caps))
  {
    var s' := Do(s, a, caps);
    forall e, f | SameAttempt(PcOf(s', e), PcOf(s', f)) ensures e == f {
      assert UnitOk(s, PcOf(s, e), caps) && UnitOk(s, PcOf(s, f), caps);
      AttemptComesFrom(s, a, caps, e);
      AttemptComesFrom(s, a, caps, f);
      if PcOf(s, e).Beginning? || PcOf(s, f).Beginning? {
      } else {
        assert SameAttempt(PcOf(s, e), PcOf(s, f));
      }
    }
  }

  /** An executor in an attempt was in it before, or has just counted it. */
  lemma AttemptComesFrom(s: System, a: Action, caps: Caps, e: nat)
    requires InAttempt(PcOf(Do(s, a, caps), e))
    ensures var pc := PcOf(Do(s, a, caps), e);
            if PcOf(s, e).Beginning? then a.Step? && a.e == e && pc.attempt.number == s.world.row.cleanupAttempts + 1
            else InAttempt(PcOf(s, e)) && pc.attempt.number == PcOf(s, e).attempt.number
  {
    if !Names(a, e) {
      OthersStay(s, a, caps, e);
    } else if a.Step? {
      if Importing(PcOf(s, e)) { ImportKeepsStorage(s, e, a.choice, caps); } else { CleanupCounts(s, e, a.choice, caps); }
    }
  }

  // ── Whole runs ────────────────────────────────────────────────────────────

  /** In every reachable state the storage side is consistent. */
  lemma {:induction false} CleanupIsSafe(kind: RunKind, trace: seq<Action>, caps: Caps)
    ensures CleanupOk(Run(kind, trace, caps), caps)
  {
    if trace == [] {
    } else {
      var front, a := trace[..|trace| - 1], trace[|trace| - 1];
      CleanupIsSafe(kind, front, caps);
      var s := Run(kind, front, caps);
      if a.Step? { assert UnitOk(s, PcOf(s, a.e), caps); }
      RowStaysOk(s, a, caps);
      CallsStayOk(s, a, caps);
      forall f ensures UnitOk(Do(s, a, caps), PcOf(Do(s, a, caps), f), caps) { UnitStaysOk(s, a, caps, f); }
      AttemptsStayApart(s, a, caps);
    }
  }

  /** A call log without the calls of one attempt. */
  function Without(calls: seq<Call>, number: nat): seq<Call> {
    if calls == [] then []
    else Without(calls[..|calls| - 1], number)
         + if calls[|calls| - 1].attempt.number == number then [] else [calls[|calls| - 1]]
  }

  lemma {:induction false} WithoutCounts(calls: seq<Call>, number: nat, other: nat)
    ensures |Without(calls, number)| + CallsOf(calls, number) == |calls|
    ensures CallsOf(Without(calls, number), other) <= CallsOf(calls, other)
    ensures forall c :: c in Without(calls, number) ==> c in calls && c.attempt.number != number
  {
    if calls == [] {
    } else {
      var front, last := calls[..|calls| - 1], calls[|calls| - 1];
      WithoutCounts(front, number, other);
      CallsOfSnoc(Without(front, number), last, other);
      assert forall c :: c in front ==> c in calls;
      assert last in calls;
      if last.attempt.number == number {
        assert Without(calls, number) == Without(front, number);
      }
    }
  }

  lemma {:induction false} FourPerAttempt(calls: seq<Call>, attempts: nat)
    requires forall c :: c in calls ==> 1 <= c.attempt.number <= attempts
    requires forall n: nat :: CallsOf(calls, n) <= 4
    ensures |calls| <= 4 * attempts
    decreases attempts
  {
    if calls == [] {
    } else {
      assert calls[0] in calls;
      forall n: nat ensures CallsOf(Without(calls, attempts), n) <= 4 { WithoutCounts(calls, attempts, n); }
      WithoutCounts(calls, attempts, 0);
      FourPerAttempt(Without(calls, attempts), attempts - 1);
    }
  }

  /** Over any history with crashes: at most four calls for every counted attempt, and at most the cap of attempts. */
  lemma CleanupCallsAreBounded(kind: RunKind, trace: seq<Action>, caps: Caps)
    ensures var s := Run(kind, trace, caps);
            |s.calls| <= 4 * s.world.row.cleanupAttempts <= 4 * caps.deleteAttempts
    ensures forall n: nat :: CallsOf(Run(kind, trace, caps).calls, n) <= 4
  {
    CleanupIsSafe(kind, trace, caps);
    var s := Run(kind, trace, caps);
    forall c | c in s.calls ensures 1 <= c.attempt.number <= s.world.row.cleanupAttempts {
      var i :| 0 <= i < |s.calls| && s.calls[i] == c;
      assert CallOk(s.calls[i], s.world.row.cleanupAttempts);
    }
    FourPerAttempt(s.calls, s.world.row.cleanupAttempts);
  }

  /**
   * A DELETE is sent only after a terminal status was observed, never for a storage verified before
   * its attempt was counted, and never while stage 1 could still commit.
   */
  lemma DeletesAreLate(kind: RunKind, trace: seq<Action>, caps: Caps, i: nat)
    requires i < |Run(kind, trace, caps).calls| && Run(kind, trace, caps).calls[i].kind.Delete?
    ensures var c := Run(kind, trace, caps).calls[i];
            c.afterTerminal && !c.importPending && c.kind.storage !in c.attempt.verifiedThen
  {
    CleanupIsSafe(kind, trace, caps);
  }

  /**
   * A row is deleted exactly when both storages are verified, and each of them was seen gone by a
   * delete call of its own.
   */
  lemma DeletedMeansSeenGone(kind: RunKind, trace: seq<Action>, caps: Caps)
    ensures var s := Run(kind, trace, caps);
            && (s.world.row.storageState.Deleted? <==> BOTH <= s.world.row.verified)
            && (s.world.row.storageState.Deleted? ==>
                  SeenGone(s.calls, Dataset, caps) && SeenGone(s.calls, KvStore, caps))
            && s.world.row.cleanupAttempts <= caps.deleteAttempts
  {
    CleanupIsSafe(kind, trace, caps);
  }

  // ── When an attempt begins and how it ends ────────────────────────────────

  /** One more open trip of a reason, unless it is open already. */
  function AndTripped(trips: seq<Trip>, cause: bool, reason: LatchReason): seq<Trip> {
    trips + if cause && (forall t :: t in trips ==> !(t.reason == reason && t.open)) then [Trip(reason, true)] else []
  }

  lemma TripsOnce(trips: seq<Trip>, reason: LatchReason)
    ensures TripLatch(trips, reason) == AndTripped(trips, true, reason)
    ensures AndTripped(trips, false, reason) == trips
  {
  }

  /**
   * An attempt is counted exactly for a started, undeleted row below the cap that is overdue or reads
   * terminal; a row with no recorded start is orphaned, and the latch tripped, exactly when it is
   * overdue; one at the cap is marked failed, and the latch tripped, instead; nothing else changes.
   */
  lemma BeginExactlyWhen(row: Row, caps: Caps, overdue: bool)
    ensures var (row', attempt) := BeginAttempt(row, caps, overdue);
            var idle := row.storageState.Deleted? || row.orphaned;
            var due := !idle && row.started && (overdue || row.remoteTerminal);
            var lost, spent := !idle && !row.started && overdue, due && row.cleanupAttempts >= caps.deleteAttempts;
            && (attempt.Some? <==> due && row.cleanupAttempts < caps.deleteAttempts)
            && (attempt.Some? ==>
                  && attempt.value.number == row.cleanupAttempts + 1 && attempt.value.observedTerminal == row.remoteTerminal
                  && attempt.value.verifiedThen == row.verified
                  && forall st :: st in attempt.value.pending <==> st !in row.verified)
            && row' == row.(cleanupAttempts := row.cleanupAttempts + (if attempt.Some? then 1 else 0),
                            orphaned := row.orphaned || lost,
                            storageState := if spent then DeleteFailed else row.storageState,
                            trips := AndTripped(AndTripped(row.trips, lost, OrphanedStart), spent, DeleteAttemptsExhausted))
  {
    TripsOnce(row.trips, OrphanedStart);
    TripsOnce(row.trips, DeleteAttemptsExhausted);
    TripsOnce(AndTripped(row.trips, true, OrphanedStart), DeleteAttemptsExhausted);
    forall st: Storage ensures st in PendingStorages(row.verified) <==> st !in row.verified {
      match st case Dataset => case KvStore =>
    }
  }

  /** An attempt that ends leaves the row deleted exactly once both storages are verified, else failed, and the latch tripped, at the cap. */
  lemma FinishExactlyWhen(w: World, caps: Caps, deleted: set<Storage>)
    ensures var row, row' := w.row, FinishAttempt(w, caps, deleted).row;
            var gone := Dataset in row.verified + deleted && KvStore in row.verified + deleted;
            var spent := !gone && !row.storageState.Deleted? && row.cleanupAttempts >= caps.deleteAttempts;
            && row'.verified == row.verified + deleted
            && row'.storageState == (if gone then Deleted else if spent then DeleteFailed else row.storageState)
            && row'.trips == AndTripped(row.trips, spent, DeleteAttemptsExhausted)
  {
    TripsOnce(w.row.trips, DeleteAttemptsExhausted);
    var row := w.row.(verified := w.row.verified + deleted);
    if Dataset in row.verified && KvStore in row.verified {
      StampKeepsStorage(w.(row := row.(storageState := Deleted)));
    } else if row.storageState.Deleted? || row.cleanupAttempts < caps.deleteAttempts {
      assert FinishAttempt(w, caps, deleted) == w.(row := row);
    } else {
      assert FinishAttempt(w, caps, deleted) == w.(row := MarkDeleteFailed(row));
    }
  }

  lemma StampKeepsStorage(w: World)
    ensures StampWorkCompletion(w).row.storageState == w.row.storageState && StampWorkCompletion(w).row.verified == w.row.verified
    ensures StampWorkCompletion(w).row.trips == w.row.trips
  {
  }

  // ── Latch trips ───────────────────────────────────────────────────────────

  /** Every commit that marks a row orphaned or delete_failed carries its trip, so no reachable row lost one. */
  lemma MarksCarryTheirTrip(kind: RunKind, trace: seq<Action>, caps: Caps)
    ensures var row := Run(kind, trace, caps).world.row;
            && (row.orphaned ==> EverTripped(row.trips, OrphanedStart))
            && (row.storageState.DeleteFailed? ==> EverTripped(row.trips, DeleteAttemptsExhausted))
            && !StrandedOrphan(row)
            && (StrandedExhausted(row, caps) <==>
                  && row.storageState.Retained? && !row.orphaned && row.cleanupAttempts == caps.deleteAttempts
                  && !EverTripped(row.trips, DeleteAttemptsExhausted))
  {
    CleanupIsSafe(kind, trace, caps);
  }
}
