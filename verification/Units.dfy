/**
 * One provider_run row as the object the import and the storage cleanup mutate
 * (src/hw_radar/acquisition/apify/importer.py, src/hw_radar/acquisition/apify/storage_cleanup.py).
 *
 * Each method is one transaction body or one invocation run undisturbed; each transaction is proved
 * equal to its function in ProviderRow.dfy, and each invocation is proved to be a run of Protocol.dfy.
 */
module Units {
  import opened Prelude
  import opened Contracts
  import opened ProviderRow
  import opened Protocol
  import opened ImportSafety
  import opened CleanupPath

  class ProviderRun {
    const kind: RunKind
    var importState: ImportState
    var rejectReason: Option<RejectReason>
    var scraperRun: bool
    var importAttempts: nat
    var datasetReads: nat
    var kvReads: nat
    var completeness: Option<Completeness>
    var retryExhausted: nat
    var latchBlocked: bool
    var started: bool
    var remoteTerminal: bool
    var ids: set<Storage>
    var storageState: StorageState
    var orphaned: bool
    var cleanupAttempts: nat
    var verified: set<Storage>
    var trips: seq<Trip>
    var workCompleted: bool
    var fx: Effects

    function TheRow(): Row
      reads this
    {
      Row(kind, importState, rejectReason, scraperRun, importAttempts, datasetReads, kvReads, completeness,
          retryExhausted, latchBlocked, started, remoteTerminal, ids, storageState, orphaned, cleanupAttempts,
          verified, trips, workCompleted)
    }

    function State(): World
      reads this
    {
      World(TheRow(), fx)
    }

    constructor (kind: RunKind)
      ensures State() == Admitted(kind).world
    {
      this.kind := kind;
      importState, rejectReason, scraperRun, importAttempts := Pending, None, false, 0;
      datasetReads, kvReads, completeness, retryExhausted, latchBlocked := 0, 0, None, 0, false;
      started, remoteTerminal, ids, storageState, orphaned := false, false, {}, Retained, false;
      cleanupAttempts, verified, trips, workCompleted := 0, {}, [], false;
      fx := Effects(0, 0, 0, [], 0, None, 0);
    }

    // ── Import transactions ─────────────────────────────────────────────────

    method ClaimRow()
      modifies this
      ensures State() == Claim(old(State()))
    {
      if Terminal(importState) { return; }
      if !scraperRun {
        scraperRun := true;
        fx := fx.(scraperRuns := fx.scraperRuns + 1);
      }
      importAttempts := importAttempts + 1;
    }

    method CountOneRead(caps: Caps, latchTripped: bool) returns (signal: Signal)
      modifies this
      ensures (State(), signal) == CountReads(old(State()), caps, latchTripped)
    {
      if !importState.Pending? { return Moved; }
      if datasetReads >= caps.datasetReads || kvReads >= caps.kvReads { return Refused(ReadCapExhausted); }
      if datasetReads >= 1 && latchTripped { return Blocked; }
      datasetReads := datasetReads + 1;
      kvReads := kvReads + 1;
      signal := Fine;
    }

    method StampIfComplete()
      modifies this
      ensures State() == StampWorkCompletion(old(State()))
    {
      if !workCompleted && Terminal(importState) && storageState.Deleted? {
        workCompleted := true;
        fx := fx.(stamps := fx.stamps + 1);
      }
    }

    method RejectRun(reason: RejectReason, onlyFrom: Option<ImportState>)
      modifies this
      ensures State() == Reject(old(State()), reason, onlyFrom)
    {
      if Terminal(importState) { return; }
      if onlyFrom.Some? && importState != onlyFrom.value { return; }
      RejectThenStamp(State(), reason, onlyFrom);
      fx := fx.(outcomes := fx.outcomes + [RejectEvent(kind, reason)],
                rejectedFrom := Some(importState),
                overdueRejections := fx.overdueRejections + if onlyFrom.Some? then 1 else 0);
      rejectReason := Some(reason);
      importState := Rejected;
      assert State() == RejectedUnstamped(old(State()), reason, onlyFrom);
      StampIfComplete();
    }

    /** Stages 3 and 4 end in this compare-and-set. */
    method AdvanceState(expected: ImportState, to: ImportState) returns (signal: Signal)
      modifies this
      ensures (State(), signal) == Advance(old(State()), expected, to)
    {
      if importState != expected { return Moved; }
      importState := to;
      signal := Fine;
    }

    // ── Stages ──────────────────────────────────────────────────────────────

    /** Count, fetch, classify, persist; everything the environment decides is in `c`. */
    method Stage1(c: Choice, caps: Caps, latchTripped: bool) returns (signal: Signal)
      modifies this
      ensures (State(), signal) == StageOneResult(old(State()), c, caps, latchTripped)
    {
      if c.refuse.Some? { return Refused(c.refuse.value); }
      signal := CountOneRead(caps, latchTripped);
      if !signal.Fine? { return; }
      completeness := Some(c.completeness);
      if c.completeness.Failed? { return Refused(FailedRun); }
      if c.exhaust { return Drained; }
      if !importState.Pending? { return Moved; }
      if c.late { return Refused(StorageDeadlinePassed); }
      fx := fx.(observationCommits := fx.observationCommits + 1);
      importState := ObservationsCommitted;
    }

    method Stage2(c: Choice) returns (signal: Signal)
      modifies this
      ensures (State(), signal) == if c.exhaust then (old(State()), Drained) else CommitAbsence(old(State()))
    {
      if c.exhaust { return Drained; }
      if !importState.ObservationsCommitted? { return Moved; }
      fx := fx.(absenceCommits := fx.absenceCommits + 1);
      importState := AbsenceApplied;
      signal := Fine;
    }

    method Stage5() returns (signal: Signal)
      modifies this
      ensures (State(), signal) == Finalize(old(State()))
    {
      if !importState.Evaluated? { return Moved; }
      var event := Success;
      if kind.Probe? {
        event := if completeness == Some(Complete) || completeness == Some(Truncated) then ProbeSuccess else ProbeFailure;
      }
      fx := fx.(outcomes := fx.outcomes + [event]);
      importState := Finalized;
      StampIfComplete();
      signal := Fine;
    }

    /** The stage the current state selects. */
    method RunStage(c: Choice, caps: Caps, latchTripped: bool) returns (signal: Signal)
      requires !Terminal(importState)
      modifies this
      ensures (State(), signal) == StageResult(old(State()), c, caps, latchTripped)
    {
      match importState {
        case Pending => signal := Stage1(c, caps, latchTripped);
        case ObservationsCommitted => signal := Stage2(c);
        case AbsenceApplied => signal := AdvanceState(AbsenceApplied, Resolved);
        case Resolved => signal := AdvanceState(Resolved, Evaluated);
        case Evaluated => signal := Stage5();
        case _ => assert false;
      }
    }

    /** What an invocation does with the signal a stage raised. */
    method Settle(signal: Signal)
      modifies this
      ensures State() == Settled(old(State()), signal)
    {
      match signal {
        case Refused(reason) => RejectRun(reason, None);
        case Drained => retryExhausted := retryExhausted + 1;
        case Blocked => latchBlocked := true;
        case _ =>
      }
    }

    /** One turn of the loop, undisturbed, as a path of the protocol. */
    method OneStage(c: Choice, caps: Caps, latchTripped: bool, ghost s: System) returns (done: bool, ghost path: seq<Action>)
      requires s.world == State() && s.latch == latchTripped
      requires PcOf(s, 0) == Ready(importState) && !Terminal(importState)
      modifies this
      ensures var s' := Continue(s, path, caps);
              s'.world == State() && s'.latch == latchTripped && PcOf(s', 0) == if done then Idle else Ready(importState)
      ensures !done ==> Rank(importState) > Rank(old(importState))
      ensures done && !c.exhaust && (latchTripped ==> !old(importState).Pending? || old(datasetReads) == 0)
              ==> Terminal(importState)
    {
      StagePathIs(s, c, caps);
      path := StagePath(s, c, caps);
      StageFacts(State(), c, caps, latchTripped);
      var signal := RunStage(c, caps, latchTripped);
      Settle(signal);
      done := !signal.Fine?;
    }

    // ── One undisturbed invocation ──────────────────────────────────────────

    /**
     * Advance the run through every remaining stage. The result is the row's state; it is terminal
     * unless the in-memory retries ran out or the latch blocked a re-read, and the whole invocation
     * is one executor's run of the protocol.
     */
    method ImportProviderRun(env: nat -> Choice, caps: Caps, latchTripped: bool) returns (result: ImportState, ghost trace: seq<Action>)
      modifies this
      ensures result == importState
      ensures State() == Continue(Alone(old(State()), latchTripped), trace, caps).world
      ensures PcOf(Continue(Alone(old(State()), latchTripped), trace, caps), 0).Idle?
      ensures (forall i: nat :: !env(i).exhaust) && (latchTripped ==> old(datasetReads) == 0) ==> Terminal(result)
    {
      ghost var start := Alone(State(), latchTripped);
      trace := [StartImport(0)];
      ContinueOne(start, StartImport(0), caps);
      if Terminal(importState) {
        ContinueLast(start, trace, Step(0, env(0)), caps);
        trace := trace + [Step(0, env(0))];
        return importState, trace;
      }
      ClaimRow();
      ClaimPath(start, env(0), caps);
      ghost var rest;
      trace := ClaimTrace(env(0));
      rest := RunStages(env, caps, latchTripped, Continue(start, trace, caps));
      ContinueConcat(start, trace, rest, caps);
      trace := trace + rest;
      result := importState;
    }

    /** The loop: one stage after another until a terminal state or a signal. */
    method RunStages(env: nat -> Choice, caps: Caps, latchTripped: bool, ghost start: System) returns (ghost trace: seq<Action>)
      requires start.world == State() && start.latch == latchTripped && PcOf(start, 0) == Ready(importState)
      modifies this
      ensures State() == Continue(start, trace, caps).world && PcOf(Continue(start, trace, caps), 0).Idle?
      ensures (forall i: nat :: !env(i).exhaust) && (latchTripped ==> old(datasetReads) == 0) ==> Terminal(importState)
    {
      trace := [];
      ghost var s := start;
      var i: nat := 0;
      var done := false;
      while !done && !Terminal(importState)
        invariant s == Continue(start, trace, caps) && s.world == State() && s.latch == latchTripped
        invariant PcOf(s, 0) == if done then Idle else Ready(importState)
        invariant (forall j: nat :: !env(j).exhaust) && (latchTripped ==> old(datasetReads) == 0) && done ==> Terminal(importState)
        invariant importState.Pending? && !done ==> datasetReads == old(datasetReads)
        decreases !done, 7 - Rank(importState)
      {
        ghost var path;
        done, path := OneStage(env(i), caps, latchTripped, s);
        ContinueConcat(start, trace, path, caps);
        trace := trace + path;
        s := Continue(s, path, caps);
        i := i + 1;
      }
      if !done {
        ContinueLast(start, trace, Step(0, env(i)), caps);
        trace := trace + [Step(0, env(i))];
      }
    }

    // ── Storage cleanup ─────────────────────────────────────────────────────

    method MarkFailed()
      modifies this
      ensures TheRow() == MarkDeleteFailed(old(TheRow())) && fx == old(fx)
    {
      if !storageState.DeleteFailed? { storageState := DeleteFailed; }
      Trip(DeleteAttemptsExhausted);
    }

    method Trip(reason: LatchReason)
      modifies this`trips
      ensures trips == TripLatch(old(trips), reason)
    {
      if ProviderRow.Trip(reason, true) !in trips {
        trips := trips + [ProviderRow.Trip(reason, true)];
      }
    }

    method Begin(overdue: bool, caps: Caps) returns (attempt: Option<Attempt>)
      modifies this
      ensures (TheRow(), attempt) == BeginAttempt(old(TheRow()), caps, overdue) && fx == old(fx)
    {
      if storageState.Deleted? || orphaned { return None; }
      if !started {
        if overdue {
          orphaned := true;
          Trip(OrphanedStart);
        }
        return None;
      }
      if !overdue && !remoteTerminal { return None; }
      if cleanupAttempts >= caps.deleteAttempts {
        MarkFailed();
        return None;
      }
      cleanupAttempts := cleanupAttempts + 1;
      attempt := Some(Attempt(cleanupAttempts, remoteTerminal, verified, PendingStorages(verified)));
    }

    /** Persist a valid abort or run answer; returns whether it proves termination. */
    method Observe(answer: Answer) returns (terminal: bool)
      modifies this
      ensures TheRow() == RecordObservation(old(TheRow()), answer) && fx == old(fx) && terminal == answer.terminal
    {
      ids := ids + answer.ids;
      if answer.terminal { remoteTerminal := true; }
      terminal := answer.terminal;
    }

    method Finish(caps: Caps, deleted: set<Storage>)
      modifies this
      ensures State() == FinishAttempt(old(State()), caps, deleted)
    {
      verified := verified + deleted;
      if BOTH <= verified {
        storageState := Deleted;
        StampIfComplete();
      }
      if !storageState.Deleted? && cleanupAttempts >= caps.deleteAttempts {
        MarkFailed();
      }
    }

    /** Abort, then confirm with a read unless the abort already proved termination. */
    method ConfirmTerminal(abort: Option<Answer>, confirm: Option<Answer>) returns (proved: bool, calls: seq<CallKind>)
      modifies this
      ensures TheRow() == ObservedRow(old(TheRow()), abort, confirm) && fx == old(fx)
      ensures proved <==> IsTerminal(abort) || IsTerminal(confirm)
      ensures calls == if IsTerminal(abort) then [Abort] else [Abort, Confirm]
    {
      calls := [Abort];
      if abort.Some? {
        proved := Observe(abort.value);
        if proved { return; }
      }
      calls := calls + [Confirm];
      proved := false;
      if confirm.Some? {
        proved := Observe(confirm.value);
      }
    }

    /** Delete each pending storage whose id is known. */
    method DeletePending(pending: seq<Storage>, deletion: Storage -> DeleteOutcome, caps: Caps) returns (deleted: set<Storage>, calls: seq<CallKind>)
      ensures |calls| <= |pending| && calls == Deletes(pending, ids)
      ensures forall k :: k in calls <==> k.Delete? && k.storage in pending && k.storage in ids
      ensures forall st :: st in deleted <==> st in pending && st in ids && Verifies(deletion(st), caps)
    {
      deleted, calls := {}, [];
      for i := 0 to |pending|
        invariant |calls| <= i && calls == Deletes(pending[..i], ids)
        invariant forall k :: k in calls <==> k.Delete? && k.storage in pending[..i] && k.storage in ids
        invariant forall st :: st in deleted <==> st in pending[..i] && st in ids && Verifies(deletion(st), caps)
      {
        assert pending[..i + 1][..i] == pending[..i];
        if pending[i] in ids {
          calls := calls + [Delete(pending[i])];
          if Verifies(deletion(pending[i]), caps) { deleted := deleted + {pending[i]}; }
        }
      }
      assert pending[..|pending|] == pending;
    }

    /**
     * One counted attempt. It sends at most four calls; it deletes exactly the unverified storages
     * with a known id, and only on terminal evidence; and it verifies exactly the storages a delete
     * call of its own proved gone.
     */
    method RunAttempt(attempt: Attempt, abort: Option<Answer>, confirm: Option<Answer>,
                      deletion: Storage -> DeleteOutcome, caps: Caps) returns (calls: seq<CallKind>)
      requires attempt.observedTerminal == remoteTerminal && attempt.pending == PendingStorages(verified)
      modifies this
      ensures |calls| <= 4
      ensures Abort in calls <==> !old(remoteTerminal)
      ensures Confirm in calls <==> !old(remoteTerminal) && !IsTerminal(abort)
      ensures forall st :: Delete(st) in calls <==>
                ProvedTerminal(old(TheRow()), abort, confirm) && st !in old(verified)
                && st in KnownIds(old(TheRow()), abort, confirm)
      ensures forall st :: st in verified <==>
                st in old(verified) || (Delete(st) in calls && (deletion(st).DeletedNow? || (deletion(st).Absent? && caps.trust404)))
      ensures cleanupAttempts == old(cleanupAttempts)
      ensures (State(), calls) == AttemptBody(old(State()), attempt, abort, confirm, deletion, caps)
    {
      BodyFacts(State(), attempt, abort, confirm, deletion, caps);
      calls := [];
      if !attempt.observedTerminal {
        var proved;
        proved, calls := ConfirmTerminal(abort, confirm);
        if !proved {
          assert {} == Gone([], ids, deletion, caps) && Deletes([], ids) == [];
          assert calls == Questions(attempt, abort) + [];
          BodyIs(old(State()), attempt, abort, confirm, deletion, caps, State(), {}, calls);
          Finish(caps, {});
          return;
        }
      }
      var deleted, deletes := DeletePending(attempt.pending, deletion, caps);
      calls := calls + deletes;
      assert deleted == Gone(attempt.pending, ids, deletion, caps);
      assert calls == Questions(attempt, abort) + Deletes(attempt.pending, ids);
      BodyIs(old(State()), attempt, abort, confirm, deletion, caps, State(), deleted, calls);
      Finish(caps, deleted);
    }

    /**
     * Selector 2's and selector 3's unit: count first; an attempt that is not counted sends nothing, and
     * a counted one deletes exactly the unverified storages with a known id, on terminal evidence. It is
     * the protocol's own attempt, step for step, when no other executor moves.
     */
    method CleanupAttempt(overdue: bool, abort: Option<Answer>, confirm: Option<Answer>,
                          deletion: Storage -> DeleteOutcome, caps: Caps, ghost start: System, ghost e: nat)
      returns (calls: seq<CallKind>)
      requires start.world == State() && PcOf(start, e) == Beginning(overdue)
      modifies this
      ensures var end := Continue(start, AttemptTrace(e, start.world.row, overdue, abort, confirm, deletion, caps), caps);
              end.world == State() && PcOf(end, e).Idle? && Kinds(end.calls) == Kinds(start.calls) + calls
      ensures BeginAttempt(old(TheRow()), caps, overdue).1.None? ==>
                calls == [] && TheRow() == BeginAttempt(old(TheRow()), caps, overdue).0 && fx == old(fx)
      ensures |calls| <= 4 * (cleanupAttempts - old(cleanupAttempts))
      ensures forall st :: Delete(st) in calls <==>
                BeginAttempt(old(TheRow()), caps, overdue).1.Some? && ProvedTerminal(old(TheRow()), abort, confirm)
                && st !in old(verified) && st in KnownIds(old(TheRow()), abort, confirm)
      ensures forall st :: st in verified ==> st in old(verified) || Delete(st) in calls
    {
      ResultFacts(State(), overdue, abort, confirm, deletion, caps);
      AttemptPath(start, e, overdue, abort, confirm, deletion, caps);
      var attempt := Begin(overdue, caps);
      calls := [];
      if attempt.Some? {
        BeginFacts(old(TheRow()), caps, overdue);
        assert State() == old(State()).(row := TheRow());
        calls := RunAttempt(attempt.value, abort, confirm, deletion, caps);
      }
      assert (State(), calls) == AttemptResult(old(State()), overdue, abort, confirm, deletion, caps);
    }
  }

  ghost predicate Achieved(w: World, w': World, signal: Signal, c: Choice, latchTripped: bool) {
    && (signal.Fine? ==> Rank(w'.row.state) > Rank(w.row.state))
    && (!signal.Fine? ==> w'.row.state == w.row.state)
    && !signal.Moved?
    && (signal.Drained? ==> c.exhaust)
    && (signal.Blocked? ==> latchTripped && w.row.state.Pending? && w.row.datasetReads >= 1)
  }

  lemma StageOneFacts(w: World, c: Choice, caps: Caps, latchTripped: bool)
    requires w.row.state.Pending?
    ensures var (w', signal) := StageOneResult(w, c, caps, latchTripped); Achieved(w, w', signal, c, latchTripped)
  {
    if c.refuse.None? {
      CountFacts(w, caps, latchTripped);
      var classified := Classify(CountReads(w, caps, latchTripped).0, c.completeness);
      CommitFacts(classified, c.late);
    }
  }

  lemma CountFacts(w: World, caps: Caps, latchTripped: bool)
    requires w.row.state.Pending?
    ensures var (w', signal) := CountReads(w, caps, latchTripped);
            && w'.row.state.Pending? && !signal.Moved? && !signal.Drained?
            && (signal.Blocked? ==> latchTripped && w.row.datasetReads >= 1)
  {
  }

  lemma CommitFacts(w: World, late: bool)
    requires w.row.state.Pending?
    ensures var (w', signal) := CommitObservations(w, late);
            if signal.Fine? then w'.row.state.ObservationsCommitted? else signal.Refused? && w' == w
  {
  }

  lemma FinalizeFacts(w: World)
    requires w.row.state.Evaluated?
    ensures Finalize(w).1.Fine? && Finalize(w).0.row.state.Finalized?
  {
  }

  /** What a stage that raised no signal achieved, and when it raises which. */
  lemma StageFacts(w: World, c: Choice, caps: Caps, latchTripped: bool)
    requires !Terminal(w.row.state)
    ensures var (w', signal) := StageResult(w, c, caps, latchTripped); Achieved(w, w', signal, c, latchTripped)
  {
    match w.row.state
    case Pending => StageOneFacts(w, c, caps, latchTripped);
    case Evaluated => FinalizeFacts(w);
    case _ =>
  }

  /** A rejection before the work-completion stamp. */
  function RejectedUnstamped(w: World, reason: RejectReason, onlyFrom: Option<ImportState>): World {
    World(w.row.(rejectReason := Some(reason), state := Rejected),
          w.fx.(rejectedFrom := Some(w.row.state),
                overdueRejections := w.fx.overdueRejections + (if onlyFrom.Some? then 1 else 0),
                outcomes := w.fx.outcomes + [RejectEvent(w.row.kind, reason)]))
  }

  lemma RejectThenStamp(w: World, reason: RejectReason, onlyFrom: Option<ImportState>)
    requires !Terminal(w.row.state) && (onlyFrom.Some? ==> w.row.state == onlyFrom.value)
    ensures Reject(w, reason, onlyFrom) == StampWorkCompletion(RejectedUnstamped(w, reason, onlyFrom))
  {
  }

  function StageOneResult(w: World, c: Choice, caps: Caps, latchTripped: bool): (World, Signal) {
    if c.refuse.Some? then (w, Refused(c.refuse.value))
    else
      var (counted, signal) := CountReads(w, caps, latchTripped);
      if !signal.Fine? then (counted, signal)
      else
        var classified := Classify(counted, c.completeness);
        if c.completeness.Failed? then (classified, Refused(FailedRun))
        else if c.exhaust then (classified, Drained)
        else CommitObservations(classified, c.late)
  }

  function StageResult(w: World, c: Choice, caps: Caps, latchTripped: bool): (World, Signal) {
    match w.row.state
    case Pending => StageOneResult(w, c, caps, latchTripped)
    case ObservationsCommitted => if c.exhaust then (w, Drained) else CommitAbsence(w)
    case AbsenceApplied => Advance(w, AbsenceApplied, Resolved)
    case Resolved => Advance(w, Resolved, Evaluated)
    case Evaluated => Finalize(w)
    case _ => (w, Moved)
  }

  /** The row with no other executor around. */
  function Alone(w: World, latchTripped: bool): System {
    System(w, map[], latchTripped, [], [])
  }

  function ClaimTrace(c: Choice): seq<Action> {
    [StartImport(0), Step(0, c), Step(0, c)]
  }

  lemma ClaimPath(s: System, c: Choice, caps: Caps)
    requires PcOf(s, 0).Idle? && !Terminal(s.world.row.state)
    ensures var s' := Continue(s, ClaimTrace(c), caps);
            s'.world == Claim(s.world) && PcOf(s', 0) == Ready(s.world.row.state) && s'.latch == s.latch
  {
    var a := Step(0, c);
    assert ClaimTrace(c) == [StartImport(0)] + ([a] + [a]);
    var s1 := Do(s, StartImport(0), caps);
    ContinueFirst(s, StartImport(0), [a] + [a], caps);
    ContinueFirst(s1, a, [a], caps);
    ContinueOne(Do(s1, a, caps), a, caps);
  }

  /** After a stage the protocol has either gone round to the next stage or carried out the back-off. */
  function Settled(w: World, signal: Signal): World {
    match signal
    case Refused(reason) => Reject(w, reason, None)
    case Blocked => RecordLatchBlock(w)
    case Drained => RecordExhaustion(w)
    case _ => w
  }

  /** How many protocol steps a stage takes with its aftermath. */
  function StageLength(s: System, c: Choice, caps: Caps): nat {
    if !s.world.row.state.Pending? then 2
    else if c.refuse.Some? || !CountReads(s.world, caps, s.latch).1.Fine? then 2
    else if c.completeness.Failed? then 5
    else 6
  }

  function StagePath(s: System, c: Choice, caps: Caps): seq<Action> {
    Times(Step(0, c), StageLength(s, c, caps))
  }

  lemma SixSteps(s: System, a: Action, caps: Caps)
    ensures Continue(s, Times(a, 6), caps)
            == Do(Do(Do(Do(Do(Do(s, a, caps), a, caps), a, caps), a, caps), a, caps), a, caps)
  {
    assert Times(a, 6) == Times(a, 5) + [a];
    ContinueLast(s, Times(a, 5), a, caps);
    FiveSteps(s, a, caps);
  }

  ghost predicate Arrived(s: System, s': System, w: World, signal: Signal) {
    && s'.world == Settled(w, signal) && s'.latch == s.latch && !signal.Moved?
    && PcOf(s', 0) == if signal.Fine? then Ready(s'.world.row.state) else Idle
  }

  /** The executor carries out the back-off the signal asks for. */
  lemma Aftermath(s: System, s': System, c: Choice, caps: Caps, w: World, signal: Signal)
    requires s'.world == w && s'.latch == s.latch && !signal.Moved?
    requires if signal.Fine? then PcOf(s', 0).Claimed? else PcOf(s', 0) == After(signal, Idle)
    ensures Arrived(s, Do(s', Step(0, c), caps), w, signal)
  {
  }

  lemma LaterStagePath(s: System, c: Choice, caps: Caps)
    requires PcOf(s, 0) == Ready(s.world.row.state) && !Terminal(s.world.row.state) && !s.world.row.state.Pending?
    ensures var (w, signal) := StageResult(s.world, c, caps, s.latch);
            Arrived(s, Do(Do(s, Step(0, c), caps), Step(0, c), caps), w, signal)
  {
    var (w, signal) := StageResult(s.world, c, caps, s.latch);
    Aftermath(s, Do(s, Step(0, c), caps), c, caps, w, signal);
  }

  lemma RefusedStageOnePath(s: System, c: Choice, caps: Caps)
    requires PcOf(s, 0) == Ready(Pending) && s.world.row.state.Pending?
    requires c.refuse.Some? || !CountReads(s.world, caps, s.latch).1.Fine?
    ensures var (w, signal) := StageOneResult(s.world, c, caps, s.latch);
            Arrived(s, Do(Do(s, Step(0, c), caps), Step(0, c), caps), w, signal)
  {
    var (w, signal) := StageOneResult(s.world, c, caps, s.latch);
    Aftermath(s, Do(s, Step(0, c), caps), c, caps, w, signal);
  }

  /** Counted, sent and classified: three steps after the stage began. */
  lemma FetchPath(s: System, c: Choice, caps: Caps)
    requires PcOf(s, 0) == Ready(Pending) && c.refuse.None? && CountReads(s.world, caps, s.latch).1.Fine?
    ensures var s3 := Do(Do(Do(s, Step(0, c), caps), Step(0, c), caps), Step(0, c), caps);
            && s3.world == Classify(CountReads(s.world, caps, s.latch).0, c.completeness)
            && s3.latch == s.latch && PcOf(s3, 0) == Fetched(c.completeness)
  {
    var s1 := Do(s, Step(0, c), caps);
    assert PcOf(s1, 0).Reading?;
    assert PcOf(Do(s1, Step(0, c), caps), 0).Sent?;
  }

  lemma StageOnePath(s: System, c: Choice, caps: Caps)
    requires PcOf(s, 0) == Ready(Pending) && s.world.row.state.Pending?
    requires c.refuse.None? && CountReads(s.world, caps, s.latch).1.Fine?
    ensures var (w, signal) := StageOneResult(s.world, c, caps, s.latch);
            var a := Step(0, c);
            var s4 := Do(Do(Do(Do(s, a, caps), a, caps), a, caps), a, caps);
            Arrived(s, if c.completeness.Failed? then Do(s4, a, caps) else Do(Do(s4, a, caps), a, caps), w, signal)
  {
    var (w, signal) := StageOneResult(s.world, c, caps, s.latch);
    var a := Step(0, c);
    FetchPath(s, c, caps);
    var s3 := Do(Do(Do(s, a, caps), a, caps), a, caps);
    var s4 := Do(s3, a, caps);
    Aftermath(s, if c.completeness.Failed? then s4 else Do(s4, a, caps), c, caps, w, signal);
  }

  /** The protocol path of a stage does what the stage's transaction bodies do in sequence. */
  lemma StagePathIs(s: System, c: Choice, caps: Caps)
    requires PcOf(s, 0) == Ready(s.world.row.state) && !Terminal(s.world.row.state)
    ensures var (w, signal) := StageResult(s.world, c, caps, s.latch);
            Arrived(s, Continue(s, StagePath(s, c, caps), caps), w, signal)
  {
    var a := Step(0, c);
    if !s.world.row.state.Pending? {
      TwoSteps(s, a, caps);
      LaterStagePath(s, c, caps);
    } else if c.refuse.Some? || !CountReads(s.world, caps, s.latch).1.Fine? {
      TwoSteps(s, a, caps);
      RefusedStageOnePath(s, c, caps);
    } else {
      FiveSteps(s, a, caps);
      SixSteps(s, a, caps);
      StageOnePath(s, c, caps);
    }
  }
}
