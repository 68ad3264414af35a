/**
 * What holds in every run of the durable protocol on the import side: forward motion, effects
 * applied once, the overdue rejection excluding the stage-1 commit, reads counted before they are
 * sent, and an invocation that ends.
 */
module ImportSafety {
  import opened Prelude
  import opened Contracts
  import opened ProviderRow
  import opened Protocol
  import opened PersistOrder

  // ── The row and its effects ───────────────────────────────────────────────

  /** How far the import got, whether or not it was rejected afterwards. */
  function Reached(w: World): nat {
    if w.row.state.Rejected? && w.fx.rejectedFrom.Some? then Rank(w.fx.rejectedFrom.value) else Rank(w.row.state)
  }

  ghost predicate EffectsOnce(w: World) {
    && (w.row.state.Rejected? <==> w.fx.rejectedFrom.Some?)
    && (w.row.state.Rejected? <==> w.row.rejectReason.Some?)
    && (w.fx.rejectedFrom.Some? ==> !Terminal(w.fx.rejectedFrom.value))
    && w.fx.scraperRuns == (if w.row.scraperRun then 1 else 0)
    && w.fx.observationCommits == (if Reached(w) >= 1 then 1 else 0)
    && w.fx.absenceCommits == (if Reached(w) >= 2 then 1 else 0)
    && (!Terminal(w.row.state) ==> w.fx.outcomes == [])
    && (w.row.state.Rejected? ==> w.fx.outcomes == [RejectEvent(w.row.kind, w.row.rejectReason.value)])
    && (w.row.state.Finalized? ==> |w.fx.outcomes| == 1 && (w.row.kind.Full? ==> w.fx.outcomes == [Success]))
    && w.fx.overdueRejections <= 1
    && (w.fx.overdueRejections == 1 ==> w.fx.rejectedFrom == Some(Pending))
  }

  /** The anchor is set exactly when the import is terminal and the storage is deleted, and was stamped once. */
  ghost predicate AnchorExact(w: World) {
    && (w.row.workCompleted <==> Terminal(w.row.state) && w.row.storageState.Deleted?)
    && w.fx.stamps == (if w.row.workCompleted then 1 else 0)
  }

  ghost predicate WorldOk(w: World, caps: Caps) {
    && EffectsOnce(w) && AnchorExact(w)
    && w.row.datasetReads <= caps.datasetReads && w.row.kvReads <= caps.kvReads
    && w.row.kvReads == w.row.datasetReads
  }

  // ── Stale copies ──────────────────────────────────────────────────────────

  /** `later` can follow `earlier`: the same, further along, or rejected from a state not yet terminal. */
  predicate Follows(earlier: ImportState, later: ImportState) {
    earlier == later || (!Terminal(earlier) && Rank(earlier) < Rank(later))
  }

  ghost predicate CopyOk(w: World, pc: Pc) {
    match pc
    case Loaded(copy) => Follows(copy, w.row.state)
    case Ready(copy) => Follows(copy, w.row.state)
    case Claimed(floor) => floor <= Rank(w.row.state)
    case Reading(read) => 1 <= read <= w.row.datasetReads
    case Fetched(_) => w.row.completeness.Some?
    case Committing => w.row.completeness.Some?
    case _ => true
  }

  /** Every counted read is sent at most once. */
  ghost predicate ReadsOk(s: System) {
    && Distinct(s.sent)
    && (forall r :: r in s.sent ==> 1 <= r <= s.world.row.datasetReads)
    && (forall e :: PcOf(s, e).Reading? ==> PcOf(s, e).read !in s.sent)
    && (forall e, f :: PcOf(s, e).Reading? && PcOf(s, f).Reading? && PcOf(s, e).read == PcOf(s, f).read ==> e == f)
  }

  ghost predicate ImportOk(s: System, caps: Caps) {
    && WorldOk(s.world, caps)
    && (forall e :: CopyOk(s.world, PcOf(s, e)))
    && ReadsOk(s)
  }

  // ── One transaction ───────────────────────────────────────────────────────

  /** A row never goes back: its state, its counts and what is known about the remote run only grow. */
  ghost predicate Forward(w: World, w': World) {
    && Follows(w.row.state, w'.row.state)
    && w.row.datasetReads <= w'.row.datasetReads
    && w.row.cleanupAttempts <= w'.row.cleanupAttempts
    && (w.row.remoteTerminal ==> w'.row.remoteTerminal)
    && w.row.verified <= w'.row.verified
    && w.row.ids <= w'.row.ids
    && (w.row.workCompleted ==> w'.row.workCompleted)
    && w'.row.kind == w.row.kind
    && (w.row.completeness.Some? ==> w'.row.completeness.Some?)
  }

  /** One transaction went forward and kept the row consistent. */
  ghost predicate Sound(w: World, w': World, caps: Caps) {
    Forward(w, w') && (WorldOk(w, caps) ==> WorldOk(w', caps))
  }

  lemma ClaimIsSound(w: World, caps: Caps)
    ensures Sound(w, Claim(w), caps)
  {
  }

  lemma CountReadsIsSound(w: World, caps: Caps, latch: bool)
    ensures Sound(w, CountReads(w, caps, latch).0, caps)
  {
  }

  lemma CommitsAreSound(w: World, caps: Caps, late: bool)
    ensures Sound(w, CommitObservations(w, late).0, caps)
    ensures Sound(w, CommitAbsence(w).0, caps)
  {
  }

  lemma AdvancesAreSound(w: World, caps: Caps)
    ensures Sound(w, Advance(w, AbsenceApplied, Resolved).0, caps)
    ensures Sound(w, Advance(w, Resolved, Evaluated).0, caps)
  {
  }

  lemma FinalizeIsSound(w: World, caps: Caps)
    ensures Sound(w, Finalize(w).0, caps)
  {
  }

  lemma RejectIsSound(w: World, caps: Caps, reason: RejectReason, onlyFrom: Option<ImportState>)
    requires onlyFrom.Some? ==> onlyFrom.value.Pending?
    ensures Sound(w, Reject(w, reason, onlyFrom), caps)
  {
    if WorldOk(w, caps) && !Terminal(w.row.state) {
      assert w.fx.overdueRejections == 0;
    }
  }

  lemma MarginNotesAreSound(w: World, caps: Caps, c: Completeness)
    ensures Sound(w, Classify(w, c), caps)
    ensures Sound(w, RecordExhaustion(w), caps)
    ensures Sound(w, RecordLatchBlock(w), caps)
  {
  }

  lemma FinishIsSound(w: World, caps: Caps, deleted: set<Storage>)
    ensures Sound(w, FinishAttempt(w, caps, deleted), caps)
  {
  }

  lemma RemoteNotesAreSound(w: World, caps: Caps, answer: Answer, ids: set<Storage>)
    ensures Sound(w, w.(row := RecordObservation(w.row, answer)), caps)
    ensures Sound(w, w.(row := w.row.(started := true, ids := w.row.ids + ids)), caps)
  {
  }

  lemma LatchNotesAreSound(w: World, caps: Caps, trips: seq<Trip>)
    ensures Sound(w, w.(row := w.row.(trips := trips)), caps)
    ensures !w.row.storageState.Deleted? ==> Sound(w, w.(row := w.row.(storageState := DeleteFailed, trips := trips)), caps)
  {
  }

  lemma AttemptNotesAreSound(w: World, caps: Caps, trips: seq<Trip>)
    ensures Sound(w, w, caps)
    ensures Sound(w, w.(row := w.row.(orphaned := true, trips := trips)), caps)
    ensures Sound(w, w.(row := w.row.(cleanupAttempts := w.row.cleanupAttempts + 1)), caps)
  {
  }

  lemma BeginIsSound(w: World, caps: Caps, overdue: bool)
    ensures Sound(w, w.(row := BeginAttempt(w.row, caps, overdue).0), caps)
  {
    var row := BeginAttempt(w.row, caps, overdue).0;
    AttemptNotesAreSound(w, caps, row.trips);
    LatchNotesAreSound(w, caps, row.trips);
    if w.row.storageState.Deleted? || w.row.orphaned || (!w.row.started && !overdue) {
      assert row == w.row;
    } else if !w.row.started {
      assert row == w.row.(orphaned := true, trips := row.trips);
    } else if (overdue || w.row.remoteTerminal) && w.row.cleanupAttempts >= caps.deleteAttempts {
      assert row == w.row.(storageState := DeleteFailed, trips := row.trips);
    }
  }

  lemma StrandedPassIsSound(w: World, caps: Caps)
    ensures Sound(w, w.(row := TripStranded(w.row, caps)), caps)
  {
    var row := TripStranded(w.row, caps);
    LatchNotesAreSound(w, caps, row.trips);
    if StrandedExhausted(w.row, caps) {
      assert row == w.row.(storageState := DeleteFailed, trips := row.trips);
    } else {
      assert row == w.row.(trips := row.trips);
    }
  }

  // ── One step ──────────────────────────────────────────────────────────────

  lemma StageIsSound(s: System, e: nat, copy: ImportState, c: Choice, caps: Caps)
    ensures Sound(s.world, StageStep(s, e, copy, c, caps).world, caps)
  {
    CountReadsIsSound(s.world, caps, s.latch);
    CommitsAreSound(s.world, caps, c.late);
    AdvancesAreSound(s.world, caps);
    FinalizeIsSound(s.world, caps);
  }

  lemma ImportStepIsSound(s: System, e: nat, c: Choice, caps: Caps)
    ensures Sound(s.world, ImportStep(s, e, c, caps).world, caps)
  {
    AttemptNotesAreSound(s.world, caps, []);
    match PcOf(s, e)
    case Loaded(_) => ClaimIsSound(s.world, caps);
    case Ready(copy) => StageIsSound(s, e, copy, c, caps);
    case Sent => MarginNotesAreSound(s.world, caps, c.completeness);
    case Committing => CommitsAreSound(s.world, caps, c.late);
    case Rejecting(reason) => RejectIsSound(s.world, caps, reason, None);
    case Exhausted => MarginNotesAreSound(s.world, caps, c.completeness);
    case LatchBlocked => MarginNotesAreSound(s.world, caps, c.completeness);
    case _ => assert ImportStep(s, e, c, caps).world == s.world;
  }

  lemma CleanupStepIsSound(s: System, e: nat, c: Choice, caps: Caps)
    ensures Sound(s.world, CleanupStep(s, e, c, caps).world, caps)
  {
    AttemptNotesAreSound(s.world, caps, []);
    match PcOf(s, e)
    case OverdueReject => RejectIsSound(s.world, caps, StorageDeadlinePassed, Some(Pending));
    case Beginning(overdue) => BeginIsSound(s.world, caps, overdue);
    case AbortAnswered(_, answer) => RemoteNotesAreSound(s.world, caps, answer, {});
    case ConfirmAnswered(_, answer) => RemoteNotesAreSound(s.world, caps, answer, {});
    case Finishing(_, deleted) => FinishIsSound(s.world, caps, deleted);
    case _ => assert CleanupStep(s, e, c, caps).world == s.world;
  }

  /** Nothing takes a row backwards, a terminal state absorbs, and every action keeps the row consistent. */
  lemma ActionIsSound(s: System, a: Action, caps: Caps)
    ensures Sound(s.world, Do(s, a, caps).world, caps)
  {
    match a
    case Step(e, c) => ImportStepIsSound(s, e, c, caps); CleanupStepIsSound(s, e, c, caps);
    case MismatchReject => RejectIsSound(s.world, caps, StartOptionMismatch, None);
    case RecordStart(ids) => RemoteNotesAreSound(s.world, caps, Answer(false, {}), ids);
    case Poll(answer) => RemoteNotesAreSound(s.world, caps, answer, {});
    case StrandedPass => StrandedPassIsSound(s.world, caps);
    case OwnerReset => LatchNotesAreSound(s.world, caps, ResetTrips(s.world.row.trips));
    case _ =>
  }

  /** An action moves at most the executor it names. */
  lemma OthersStay(s: System, a: Action, caps: Caps, f: nat)
    requires (a.StartImport? || a.StartCleanup? || a.StartOverdue? || a.Step? || a.Crash?) ==> a.e != f
    ensures PcOf(Do(s, a, caps), f) == PcOf(s, f)
  {
  }

  lemma FollowsIsTransitive(a: ImportState, b: ImportState, c: ImportState)
    requires Follows(a, b) && Follows(b, c)
    ensures Follows(a, c)
  {
  }

  lemma CopySurvives(w: World, w': World, pc: Pc)
    requires CopyOk(w, pc) && Forward(w, w')
    ensures CopyOk(w', pc)
  {
    if pc.Loaded? || pc.Ready? {
      FollowsIsTransitive(pc.copy, w.row.state, w'.row.state);
    }
  }

  lemma StageKeepsCopy(s: System, e: nat, copy: ImportState, c: Choice, caps: Caps)
    ensures var s' := StageStep(s, e, copy, c, caps); CopyOk(s'.world, PcOf(s', e))
  {
  }

  lemma ImportStepKeepsCopy(s: System, e: nat, c: Choice, caps: Caps)
    requires CopyOk(s.world, PcOf(s, e)) && Importing(PcOf(s, e))
    ensures var s' := ImportStep(s, e, c, caps); CopyOk(s'.world, PcOf(s', e))
  {
    if PcOf(s, e).Ready? { StageKeepsCopy(s, e, PcOf(s, e).copy, c, caps); }
  }

  lemma CleanupStepKeepsCopy(s: System, e: nat, c: Choice, caps: Caps)
    requires !Importing(PcOf(s, e))
    ensures var s' := CleanupStep(s, e, c, caps); CopyOk(s'.world, PcOf(s', e))
  {
    CleanupStaysCleanup(s, e, c, caps);
  }

  /** A cleanup unit never becomes an import. */
  lemma CleanupStaysCleanup(s: System, e: nat, c: Choice, caps: Caps)
    requires !Importing(PcOf(s, e))
    ensures !Importing(PcOf(CleanupStep(s, e, c, caps), e))
  {
  }

  lemma CopiesStayOk(s: System, a: Action, caps: Caps, e: nat)
    requires CopyOk(s.world, PcOf(s, e))
    ensures CopyOk(Do(s, a, caps).world, PcOf(Do(s, a, caps), e))
  {
    ActionIsSound(s, a, caps);
    if a.Step? && a.e == e {
      if Importing(PcOf(s, e)) { ImportStepKeepsCopy(s, e, a.choice, caps); } else { CleanupStepKeepsCopy(s, e, a.choice, caps); }
    } else if (a.StartImport? || a.StartCleanup? || a.StartOverdue? || a.Crash?) && a.e == e {
    } else {
      OthersStay(s, a, caps, e);
      CopySurvives(s.world, Do(s, a, caps).world, PcOf(s, e));
    }
  }

  // ── Counted reads ─────────────────────────────────────────────────────────

  /** The counting transaction of an executor about to run stage 1. */
  predicate Counting(s: System, a: Action) {
    a.Step? && PcOf(s, a.e) == Ready(Pending) && a.choice.refuse.None?
  }

  predicate Countable(s: System, caps: Caps) {
    && s.world.row.state.Pending?
    && s.world.row.datasetReads < caps.datasetReads && s.world.row.kvReads < caps.kvReads
    && (s.world.row.datasetReads >= 1 ==> !s.latch)
  }

  ghost predicate CountsWhen(s: System, s': System, e: nat, counts: bool) {
    && s'.world.row.datasetReads == s.world.row.datasetReads + (if counts then 1 else 0)
    && (PcOf(s', e).Reading? <==> counts)
    && (counts ==> PcOf(s', e).read == s'.world.row.datasetReads)
  }

  lemma LaterStagesCountNothing(s: System, e: nat, copy: ImportState, c: Choice, caps: Caps)
    requires !copy.Pending?
    ensures CountsWhen(s, StageStep(s, e, copy, c, caps), e, false)
  {
    FinalizeCountsNothing(s.world);
  }

  lemma FinalizeCountsNothing(w: World)
    ensures Finalize(w).0.row.datasetReads == w.row.datasetReads
  {
  }

  lemma StageCounts(s: System, e: nat, copy: ImportState, c: Choice, caps: Caps)
    ensures CountsWhen(s, StageStep(s, e, copy, c, caps), e, copy.Pending? && c.refuse.None? && Countable(s, caps))
  {
    if !copy.Pending? { LaterStagesCountNothing(s, e, copy, c, caps); }
  }

  lemma OutcomesCountNothing(w: World, reason: RejectReason, onlyFrom: Option<ImportState>, caps: Caps, deleted: set<Storage>)
    ensures Reject(w, reason, onlyFrom).row.datasetReads == w.row.datasetReads
    ensures FinishAttempt(w, caps, deleted).row.datasetReads == w.row.datasetReads
  {
  }

  lemma BeginCountsNothing(row: Row, caps: Caps, overdue: bool)
    ensures BeginAttempt(row, caps, overdue).0.datasetReads == row.datasetReads
  {
  }

  lemma ImportStepCounts(s: System, e: nat, c: Choice, caps: Caps)
    requires Importing(PcOf(s, e)) && !PcOf(s, e).Ready?
    ensures ImportStep(s, e, c, caps).world.row.datasetReads == s.world.row.datasetReads
    ensures !PcOf(ImportStep(s, e, c, caps), e).Reading?
  {
    match PcOf(s, e)
    case Committing =>
    case Rejecting(reason) => OutcomesCountNothing(s.world, reason, None, caps, {});
    case _ =>
  }

  lemma CleanupCountsNothing(s: System, e: nat, c: Choice, caps: Caps)
    requires !Importing(PcOf(s, e))
    ensures CleanupStep(s, e, c, caps).world.row.datasetReads == s.world.row.datasetReads
    ensures !PcOf(CleanupStep(s, e, c, caps), e).Reading?
  {
    match PcOf(s, e)
    case OverdueReject => OutcomesCountNothing(s.world, StorageDeadlinePassed, Some(Pending), caps, {});
    case Beginning(overdue) => BeginCountsNothing(s.world.row, caps, overdue);
    case Finishing(_, deleted) => OutcomesCountNothing(s.world, StorageDeadlinePassed, None, caps, deleted);
    case _ =>
  }

  lemma EnvironmentCountsNothing(s: System, a: Action, caps: Caps)
    requires !a.Step?
    ensures Do(s, a, caps).world.row.datasetReads == s.world.row.datasetReads
  {
    match a
    case MismatchReject => OutcomesCountNothing(s.world, StartOptionMismatch, None, caps, {});
    case _ =>
  }

  lemma StepCounts(s: System, e: nat, c: Choice, caps: Caps)
    ensures CountsWhen(s, Do(s, Step(e, c), caps), e, Counting(s, Step(e, c)) && Countable(s, caps))
  {
    if PcOf(s, e).Ready? {
      StageCounts(s, e, PcOf(s, e).copy, c, caps);
    } else if Importing(PcOf(s, e)) {
      ImportStepCounts(s, e, c, caps);
    } else {
      CleanupCountsNothing(s, e, c, caps);
    }
  }

  /**
   * A read is counted exactly by a counting transaction that finds the row still pending and below
   * both caps, and, once a read has been counted, the latch untripped. Only then does an executor
   * come to hold a read, and it is the one just counted.
   */
  lemma CountedExactlyWhen(s: System, a: Action, caps: Caps)
    ensures var counts := Counting(s, a) && Countable(s, caps);
            Do(s, a, caps).world.row.datasetReads == s.world.row.datasetReads + if counts then 1 else 0
    ensures a.Step? ==>
              var pc := PcOf(Do(s, a, caps), a.e);
              && (pc.Reading? <==> Counting(s, a) && Countable(s, caps))
              && (pc.Reading? ==> pc.read == s.world.row.datasetReads + 1)
  {
    if a.Step? {
      StepCounts(s, a.e, a.choice, caps);
    } else {
      EnvironmentCountsNothing(s, a, caps);
    }
  }

  /** Only an executor holding a counted read sends, and it sends it once. */
  lemma SentExactlyWhen(s: System, a: Action, caps: Caps)
    ensures Do(s, a, caps).sent
            == if a.Step? && PcOf(s, a.e).Reading? then s.sent + [PcOf(s, a.e).read] else s.sent
    ensures a.Step? && PcOf(s, a.e).Reading? ==> PcOf(Do(s, a, caps), a.e).Sent?
  {
  }

  /** An executor that newly holds a read holds the one it just counted. */
  lemma HeldRead(s: System, a: Action, caps: Caps, e: nat)
    requires PcOf(Do(s, a, caps), e).Reading?
    ensures PcOf(s, e) == PcOf(Do(s, a, caps), e)
            || (a.Step? && a.e == e && PcOf(Do(s, a, caps), e).read == s.world.row.datasetReads + 1)
    ensures PcOf(s, e).Reading? && a.Step? ==> a.e != e
  {
    CountedExactlyWhen(s, a, caps);
    if (a.StartImport? || a.StartCleanup? || a.StartOverdue? || a.Step? || a.Crash?) && a.e == e {
    } else {
      OthersStay(s, a, caps, e);
    }
  }

  lemma ReadsStayOk(s: System, a: Action, caps: Caps)
    requires ReadsOk(s) && forall e :: CopyOk(s.world, PcOf(s, e))
    ensures ReadsOk(Do(s, a, caps))
  {
    var s' := Do(s, a, caps);
    SentExactlyWhen(s, a, caps);
    ActionIsSound(s, a, caps);
    if a.Step? && PcOf(s, a.e).Reading? {
      assert CopyOk(s.world, PcOf(s, a.e));
    }
    forall e | PcOf(s', e).Reading? ensures PcOf(s', e).read !in s'.sent {
      HeldRead(s, a, caps, e);
    }
    forall e, f | PcOf(s', e).Reading? && PcOf(s', f).Reading? && PcOf(s', e).read == PcOf(s', f).read ensures e == f {
      assert CopyOk(s.world, PcOf(s, e)) && CopyOk(s.world, PcOf(s, f));
      HeldRead(s, a, caps, e);
      HeldRead(s, a, caps, f);
    }
  }

  // ── Whole runs ────────────────────────────────────────────────────────────

  /** In every reachable state the import side is consistent. */
  lemma {:induction false} ImportIsSafe(kind: RunKind, trace: seq<Action>, caps: Caps)
    ensures ImportOk(Run(kind, trace, caps), caps)
  {
    if trace == [] {
    } else {
      var front, a := trace[..|trace| - 1], trace[|trace| - 1];
      ImportIsSafe(kind, front, caps);
      var s := Run(kind, front, caps);
      ActionIsSound(s, a, caps);
      forall e ensures CopyOk(Do(s, a, caps).world, PcOf(Do(s, a, caps), e)) {
        assert CopyOk(s.world, PcOf(s, e));
        CopiesStayOk(s, a, caps, e);
      }
      ReadsStayOk(s, a, caps);
    }
  }

  /**
   * Exactly once, over every interleaving and crash: one ScraperRun, each stage committed at most
   * once, one lifecycle outcome exactly when a terminal state is reached, one anchor stamp exactly
   * when both barriers hold, and an overdue rejection excludes the stage-1 commit.
   */
  lemma ImportExactlyOnce(kind: RunKind, trace: seq<Action>, caps: Caps)
    ensures var w := Run(kind, trace, caps).world;
            && w.fx.scraperRuns <= 1 && w.fx.observationCommits <= 1 && w.fx.absenceCommits <= w.fx.observationCommits
            && |w.fx.outcomes| == (if Terminal(w.row.state) then 1 else 0)
            && w.fx.stamps == (if Terminal(w.row.state) && w.row.storageState.Deleted? then 1 else 0)
            && (w.row.state.Finalized? ==> w.fx.observationCommits == 1 && w.fx.absenceCommits == 1)
            && (w.row.state.Rejected? ==> (w.fx.observationCommits == 0 <==> w.fx.rejectedFrom == Some(Pending)))
            && (w.fx.overdueRejections > 0 ==> w.row.state.Rejected? && w.fx.observationCommits == 0)
  {
    ImportIsSafe(kind, trace, caps);
  }

  /** From any state of a run to any later one the import moved forward, and a terminal state stayed. */
  lemma {:induction false} RunsMoveForward(kind: RunKind, trace: seq<Action>, caps: Caps, n: nat)
    requires n <= |trace|
    ensures Forward(Run(kind, trace[..n], caps).world, Run(kind, trace, caps).world)
    ensures var then_, now := Run(kind, trace[..n], caps).world.row, Run(kind, trace, caps).world.row;
            Terminal(then_.state) ==> now.state == then_.state
  {
    if n == |trace| {
      assert trace[..n] == trace;
    } else {
      var front := trace[..|trace| - 1];
      assert front[..n] == trace[..n];
      RunsMoveForward(kind, front, caps, n);
      var s := Run(kind, front, caps);
      ActionIsSound(s, trace[|trace| - 1], caps);
      FollowsIsTransitive(Run(kind, trace[..n], caps).world.row.state, s.world.row.state, Run(kind, trace, caps).world.row.state);
    }
  }

  lemma {:induction false} DistinctNumbersFit(numbers: seq<nat>, n: nat)
    requires Distinct(numbers)
    requires forall x :: x in numbers ==> 1 <= x <= n
    ensures |numbers| <= n
  {
    if numbers == [] {
    } else {
      assert numbers[0] in numbers;
      if n in numbers {
        var i :| 0 <= i < |numbers| && numbers[i] == n;
        var others := numbers[..i] + numbers[i + 1..];
        assert forall x :: x in others ==> x in numbers;
        assert n !in others;
        DistinctNumbersFit(others, n - 1);
      } else {
        DistinctNumbersFit(numbers, n - 1);
      }
    }
  }

  /** Over any history with crashes: the reads sent are at most those counted, and those at most the cap. */
  lemma SentIsCountedIsCapped(kind: RunKind, trace: seq<Action>, caps: Caps)
    ensures var s := Run(kind, trace, caps);
            |s.sent| <= s.world.row.datasetReads == s.world.row.kvReads <= Min(caps.datasetReads, caps.kvReads)
  {
    ImportIsSafe(kind, trace, caps);
    var s := Run(kind, trace, caps);
    DistinctNumbersFit(s.sent, s.world.row.datasetReads);
  }

  // ── A rejection may follow another executor's commit ──────────────────────

  const QUIET := Choice(None, false, false, Complete, None, Errored)

  function Continue(s: System, trace: seq<Action>, caps: Caps): System {
    if trace == [] then s else Do(Continue(s, trace[..|trace| - 1], caps), trace[|trace| - 1], caps)
  }

  /** An executor loads the row, claims it and reads it again. */
  function Arrival(e: nat): seq<Action> {
    [StartImport(e), Step(e, QUIET), Step(e, QUIET)]
  }

  /** It counts, sends, classifies and commits stage 1. */
  function StageOne(e: nat): seq<Action> {
    [Step(e, QUIET), Step(e, QUIET), Step(e, QUIET), Step(e, QUIET), Step(e, QUIET)]
  }

  /** Executor 1 decides to reject, executor 0 commits stage 1, executor 1 rejects. */
  function CommitThenReject(): seq<Action> {
    Arrival(0) + Arrival(1) + [Step(1, QUIET.(refuse := Some(ContentPastTtl)))] + StageOne(0) + [Step(1, QUIET)]
  }

  lemma {:induction false} ContinueConcat(s: System, first: seq<Action>, second: seq<Action>, caps: Caps)
    ensures Continue(s, first + second, caps) == Continue(Continue(s, first, caps), second, caps)
  {
    if second == [] {
      assert first + second == first;
    } else {
      assert (first + second)[..|first + second| - 1] == first + second[..|second| - 1];
      ContinueConcat(s, first, second[..|second| - 1], caps);
    }
  }

  lemma {:induction false} RunIsContinue(kind: RunKind, trace: seq<Action>, caps: Caps)
    ensures Run(kind, trace, caps) == Continue(Admitted(kind), trace, caps)
  {
    if trace != [] { RunIsContinue(kind, trace[..|trace| - 1], caps); }
  }

  lemma ContinueOne(s: System, a: Action, caps: Caps)
    ensures Continue(s, [a], caps) == Do(s, a, caps)
  {
    assert [a][..0] == [];
    assert Continue(s, [], caps) == s;
  }

  lemma ContinueFirst(s: System, a: Action, rest: seq<Action>, caps: Caps)
    ensures Continue(s, [a] + rest, caps) == Continue(Do(s, a, caps), rest, caps)
  {
    ContinueConcat(s, [a], rest, caps);
    ContinueOne(s, a, caps);
  }

  lemma Arrives(s: System, e: nat, caps: Caps)
    requires PcOf(s, e).Idle? && s.world.row.state.Pending?
    ensures var s' := Continue(s, Arrival(e), caps);
            && PcOf(s', e) == Ready(Pending) && (forall f :: f != e ==> PcOf(s', f) == PcOf(s, f))
            && s'.world.row.state.Pending? && s'.latch == s.latch
            && s'.world.row.datasetReads == s.world.row.datasetReads && s'.world.row.kvReads == s.world.row.kvReads
            && s'.world.fx.observationCommits == s.world.fx.observationCommits
            && s'.world.fx.absenceCommits == s.world.fx.absenceCommits
  {
    var a := Arrival(e);
    var s1 := Do(s, a[0], caps);
    var s2 := Do(s1, a[1], caps);
    assert a == [a[0]] + ([a[1]] + [a[2]]);
    ContinueFirst(s, a[0], [a[1]] + [a[2]], caps);
    ContinueFirst(s1, a[1], [a[2]], caps);
    ContinueOne(s2, a[2], caps);
    assert s1 == Move(s, e, Loaded(Pending));
    assert s2 == Commit(s1, e, Claim(s.world), Claimed(0));
    assert Do(s2, a[2], caps) == Move(s2, e, Ready(Pending));
  }

  /** Counted, sent and classified. */
  lemma Fetches(s: System, e: nat, caps: Caps)
    requires PcOf(s, e) == Ready(Pending) && Countable(s, caps)
    ensures var a := Step(e, QUIET);
            var s3 := Do(Do(Do(s, a, caps), a, caps), a, caps);
            && PcOf(s3, e) == Fetched(Complete) && s3.world == Classify(CountReads(s.world, caps, s.latch).0, Complete)
            && forall f :: f != e ==> PcOf(s3, f) == PcOf(s, f)
  {
    var a := Step(e, QUIET);
    var s1 := Do(s, a, caps);
    assert PcOf(s1, e).Reading? && s1.world == CountReads(s.world, caps, s.latch).0;
    assert PcOf(Do(s1, a, caps), e).Sent?;
  }

  /** A classified executor that finds the row pending commits in two more steps. */
  lemma CommitsFetched(s: System, e: nat, caps: Caps)
    requires PcOf(s, e) == Fetched(Complete) && s.world.row.state.Pending?
    ensures var a := Step(e, QUIET);
            var s' := Do(Do(s, a, caps), a, caps);
            s'.world == CommitObservations(s.world, false).0 && forall f :: f != e ==> PcOf(s', f) == PcOf(s, f)
  {
    var s1 := Do(s, Step(e, QUIET), caps);
    assert PcOf(s1, e).Committing? && s1.world == s.world;
  }

  lemma CommitsStageOne(s: System, e: nat, caps: Caps)
    requires PcOf(s, e) == Ready(Pending) && Countable(s, caps)
    ensures var s' := Continue(s, StageOne(e), caps);
            && s'.world.row.state.ObservationsCommitted? && (forall f :: f != e ==> PcOf(s', f) == PcOf(s, f))
            && s'.world.fx.observationCommits == s.world.fx.observationCommits + 1
            && s'.world.fx.absenceCommits == s.world.fx.absenceCommits
  {
    var a := Step(e, QUIET);
    assert StageOne(e) == Times(a, 5);
    FiveSteps(s, a, caps);
    Fetches(s, e, caps);
    CommitsFetched(Do(Do(Do(s, a, caps), a, caps), a, caps), e, caps);
  }

  function Times(a: Action, n: nat): seq<Action> {
    seq(n, _ => a)
  }

  lemma TwoSteps(s: System, a: Action, caps: Caps)
    ensures Continue(s, Times(a, 2), caps) == Do(Do(s, a, caps), a, caps)
  {
    assert Times(a, 2) == [a] + [a];
    ContinueFirst(s, a, [a], caps);
    ContinueOne(Do(s, a, caps), a, caps);
  }

  lemma FiveSteps(s: System, a: Action, caps: Caps)
    ensures Continue(s, Times(a, 5), caps) == Do(Do(Do(Do(Do(s, a, caps), a, caps), a, caps), a, caps), a, caps)
  {
    var s1 := Do(s, a, caps);
    var s2 := Do(s1, a, caps);
    var s3 := Do(s2, a, caps);
    assert Times(a, 5) == [a] + ([a] + ([a] + Times(a, 2)));
    ContinueFirst(s, a, [a] + ([a] + Times(a, 2)), caps);
    ContinueFirst(s1, a, [a] + Times(a, 2), caps);
    ContinueFirst(s2, a, Times(a, 2), caps);
    TwoSteps(s3, a, caps);
  }

  /**
   * Rejected does not imply that nothing was persisted: an unconditional rejection can land after
   * another executor's stage-1 commit, and then no absence is applied.
   */
  lemma RejectionCanFollowACommit(kind: RunKind, caps: Caps)
    requires caps.datasetReads >= 1 && caps.kvReads >= 1
    ensures var w := Run(kind, CommitThenReject(), caps).world;
            w.row.state.Rejected? && w.fx.observationCommits == 1 && w.fx.absenceCommits == 0
  {
    var refusal, final := Step(1, QUIET.(refuse := Some(ContentPastTtl))), Step(1, QUIET);
    var both, rest := Arrival(0) + Arrival(1), [refusal] + (StageOne(0) + [final]);
    RunIsContinue(kind, CommitThenReject(), caps);
    assert CommitThenReject() == both + rest;
    ContinueConcat(Admitted(kind), both, rest, caps);
    BothArrive(kind, caps);
    var s := Continue(Admitted(kind), both, caps);
    CommitBetween(s, caps);
  }

  lemma BothArrive(kind: RunKind, caps: Caps)
    ensures var s := Continue(Admitted(kind), Arrival(0) + Arrival(1), caps);
            && PcOf(s, 0) == PcOf(s, 1) == Ready(Pending) && s.world.row.state.Pending?
            && s.world.row.datasetReads == s.world.row.kvReads == 0
            && s.world.fx.observationCommits == s.world.fx.absenceCommits == 0
  {
    var s0 := Admitted(kind);
    ContinueConcat(s0, Arrival(0), Arrival(1), caps);
    Arrives(s0, 0, caps);
    Arrives(Continue(s0, Arrival(0), caps), 1, caps);
  }

  /** Executor 1 decides, executor 0 commits, executor 1 rejects. */
  lemma CommitBetween(s: System, caps: Caps)
    requires PcOf(s, 0) == PcOf(s, 1) == Ready(Pending) && Countable(s, caps)
    ensures var refusal, final := Step(1, QUIET.(refuse := Some(ContentPastTtl))), Step(1, QUIET);
            var w := Continue(s, [refusal] + (StageOne(0) + [final]), caps).world;
            && w.row.state.Rejected? && w.fx.observationCommits == s.world.fx.observationCommits + 1
            && w.fx.absenceCommits == s.world.fx.absenceCommits
  {
    var refusal, final := Step(1, QUIET.(refuse := Some(ContentPastTtl))), Step(1, QUIET);
    ContinueFirst(s, refusal, StageOne(0) + [final], caps);
    var s3 := Do(s, refusal, caps);
    assert s3.world == s.world && PcOf(s3, 1) == Rejecting(ContentPastTtl) && PcOf(s3, 0) == Ready(Pending);
    ContinueConcat(s3, StageOne(0), [final], caps);
    CommitsStageOne(s3, 0, caps);
    ContinueOne(Continue(s3, StageOne(0), caps), final, caps);
  }

  // ── An invocation ends ────────────────────────────────────────────────────

  /** A bound on the steps an import invocation still takes. */
  function Work(pc: Pc): nat {
    match pc
    case Loaded(_) => 62
    case Claimed(floor) => if floor > 6 then 13 else 8 * (7 - floor) + 5
    case Ready(copy) => 8 * (7 - Rank(copy)) + 4
    case Reading(_) => 59
    case Sent => 58
    case Fetched(_) => 57
    case Committing => 56
    case Rejecting(_) => 1
    case Exhausted => 1
    case LatchBlocked => 1
    case _ => 0
  }

  lemma OwnStepDecreases(s: System, e: nat, c: Choice, caps: Caps)
    requires Importing(PcOf(s, e)) && CopyOk(s.world, PcOf(s, e))
    ensures Work(PcOf(ImportStep(s, e, c, caps), e)) < Work(PcOf(s, e))
    ensures PcOf(ImportStep(s, e, c, caps), e).Idle? || Importing(PcOf(ImportStep(s, e, c, caps), e))
  {
  }

  function StepsOf(trace: seq<Action>, e: nat): nat {
    if trace == [] then 0
    else StepsOf(trace[..|trace| - 1], e) + if trace[|trace| - 1].Step? && trace[|trace| - 1].e == e then 1 else 0
  }

  /** Every action of the trace that names `e` is one of its steps. */
  predicate OnlySteps(trace: seq<Action>, e: nat) {
    forall a :: a in trace && (a.StartImport? || a.StartCleanup? || a.StartOverdue? || a.Crash?) ==> a.e != e
  }

  /**
   * Whatever other executors do meanwhile, each own step of an import invocation spends work, so
   * an invocation that is not crashed is over after at most 62 own steps.
   */
  lemma {:induction false} InvocationEnds(s: System, trace: seq<Action>, caps: Caps, e: nat)
    requires CopyOk(s.world, PcOf(s, e)) && (PcOf(s, e).Idle? || Importing(PcOf(s, e)))
    requires OnlySteps(trace, e)
    ensures var pc := PcOf(Continue(s, trace, caps), e);
            && CopyOk(Continue(s, trace, caps).world, pc)
            && (pc.Idle? || (Importing(pc) && Work(pc) + StepsOf(trace, e) <= Work(PcOf(s, e))))
            && (StepsOf(trace, e) >= 62 ==> pc.Idle?)
  {
    if trace == [] {
    } else {
      var front, a := trace[..|trace| - 1], trace[|trace| - 1];
      assert a in trace && forall x :: x in front ==> x in trace;
      InvocationEnds(s, front, caps, e);
      var mid := Continue(s, front, caps);
      CopiesStayOk(mid, a, caps, e);
      if a.Step? && a.e == e {
        if Importing(PcOf(mid, e)) { OwnStepDecreases(mid, e, a.choice, caps); }
      } else {
        OthersStay(mid, a, caps, e);
      }
      WorkIsBounded(s, PcOf(s, e));
    }
  }

  lemma WorkIsBounded(s: System, pc: Pc)
    ensures Work(pc) <= 62
    ensures Importing(pc) ==> Work(pc) >= 1
  {
  }
}
