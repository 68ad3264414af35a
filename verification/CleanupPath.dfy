/**
 * One storage-cleanup attempt from end to end
 * (src/hw_radar/acquisition/apify/storage_cleanup.py:149-305, 370-398): its effect as one function of
 * the answers it gets, and the proof that the protocol's steps, undisturbed, have that effect.
 */
module CleanupPath {
  import opened Prelude
  import opened ProviderRow
  import opened Protocol
  import opened ImportSafety

  predicate IsTerminal(answer: Option<Answer>) {
    answer.Some? && answer.value.terminal
  }

  /** The row after the observations of an attempt that had to confirm termination. */
  function ObservedRow(row: Row, abort: Option<Answer>, confirm: Option<Answer>): Row {
    var aborted := if abort.Some? then RecordObservation(row, abort.value) else row;
    if IsTerminal(abort) || confirm.None? then aborted else RecordObservation(aborted, confirm.value)
  }

  /** Termination was recorded before the attempt, or the abort or the confirming read proves it. */
  predicate ProvedTerminal(row: Row, abort: Option<Answer>, confirm: Option<Answer>) {
    row.remoteTerminal || IsTerminal(abort) || IsTerminal(confirm)
  }

  /** The storage ids known when the attempt comes to delete. */
  function KnownIds(row: Row, abort: Option<Answer>, confirm: Option<Answer>): set<Storage> {
    if row.remoteTerminal then row.ids else ObservedRow(row, abort, confirm).ids
  }

  /** The calls of a log, by kind. */
  function Kinds(calls: seq<Call>): (r: seq<CallKind>)
    ensures |r| == |calls| && forall i :: 0 <= i < |r| ==> r[i] == calls[i].kind
  {
    seq(|calls|, i requires 0 <= i < |calls| => calls[i].kind)
  }

  /** The deletes an attempt sends: its pending storages with a known id, in order. */
  function Deletes(pending: seq<Storage>, ids: set<Storage>): seq<CallKind> {
    if pending == [] then []
    else
      var last := pending[|pending| - 1];
      Deletes(pending[..|pending| - 1], ids) + if last in ids then [Delete(last)] else []
  }

  /** Those its deletes prove gone. */
  function Gone(pending: seq<Storage>, ids: set<Storage>, deletion: Storage -> DeleteOutcome, caps: Caps): set<Storage> {
    set st | st in pending && st in ids && Verifies(deletion(st), caps)
  }

  /** The questions an attempt asks: none about a run recorded terminal, and a second only when the abort did not prove it. */
  function Questions(a: Attempt, abort: Option<Answer>): seq<CallKind> {
    if a.observedTerminal then [] else if IsTerminal(abort) then [Abort] else [Abort, Confirm]
  }

  /** The row once their answers are recorded. */
  function Asked(row: Row, a: Attempt, abort: Option<Answer>, confirm: Option<Answer>): Row {
    if a.observedTerminal then row else ObservedRow(row, abort, confirm)
  }

  /** The attempt has terminal evidence. */
  predicate Proved(a: Attempt, abort: Option<Answer>, confirm: Option<Answer>) {
    a.observedTerminal || IsTerminal(abort) || IsTerminal(confirm)
  }

  /** What it may then delete: its pending storages on terminal evidence, nothing without. */
  function ToDelete(a: Attempt, abort: Option<Answer>, confirm: Option<Answer>): seq<Storage> {
    if Proved(a, abort, confirm) then a.pending else []
  }

  /** A counted attempt: ask, delete, and one commit at the end. */
  function AttemptBody(w: World, a: Attempt, abort: Option<Answer>, confirm: Option<Answer>,
                       deletion: Storage -> DeleteOutcome, caps: Caps): (World, seq<CallKind>)
  {
    var seen, doomed := w.(row := Asked(w.row, a, abort, confirm)), ToDelete(a, abort, confirm);
    (FinishAttempt(seen, caps, Gone(doomed, seen.row.ids, deletion, caps)),
     Questions(a, abort) + Deletes(doomed, seen.row.ids))
  }

  /** The steps of an attempt, put together. */
  lemma BodyIs(w: World, a: Attempt, abort: Option<Answer>, confirm: Option<Answer>, deletion: Storage -> DeleteOutcome, caps: Caps,
               seen: World, deleted: set<Storage>, calls: seq<CallKind>)
    requires seen == w.(row := Asked(w.row, a, abort, confirm))
    requires deleted == Gone(ToDelete(a, abort, confirm), seen.row.ids, deletion, caps)
    requires calls == Questions(a, abort) + Deletes(ToDelete(a, abort, confirm), seen.row.ids)
    ensures (FinishAttempt(seen, caps, deleted), calls) == AttemptBody(w, a, abort, confirm, deletion, caps)
  {
  }

  /** The unit: count the attempt, or send nothing. */
  function AttemptResult(w: World, overdue: bool, abort: Option<Answer>, confirm: Option<Answer>,
                         deletion: Storage -> DeleteOutcome, caps: Caps): (World, seq<CallKind>)
  {
    var (row, attempt) := BeginAttempt(w.row, caps, overdue);
    if attempt.None? then (w.(row := row), [])
    else AttemptBody(w.(row := row), attempt.value, abort, confirm, deletion, caps)
  }

  lemma {:induction false} DeletesAre(pending: seq<Storage>, ids: set<Storage>)
    ensures |Deletes(pending, ids)| <= |pending|
    ensures forall k :: k in Deletes(pending, ids) <==> k.Delete? && k.storage in pending && k.storage in ids
  {
    if pending != [] {
      DeletesAre(pending[..|pending| - 1], ids);
      assert pending == pending[..|pending| - 1] + [pending[|pending| - 1]];
    }
  }

  lemma PendingIsUnverified(verified: set<Storage>)
    ensures forall st :: st in PendingStorages(verified) <==> st !in verified
    ensures |PendingStorages(verified)| <= 2
  {
    forall st: Storage ensures st in PendingStorages(verified) <==> st !in verified {
      match st case Dataset => case KvStore =>
    }
  }

  lemma FinishVerifies(w: World, caps: Caps, deleted: set<Storage>)
    ensures FinishAttempt(w, caps, deleted).row.verified == w.row.verified + deleted
    ensures FinishAttempt(w, caps, deleted).row.cleanupAttempts == w.row.cleanupAttempts
  {
  }

  /**
   * An attempt in a row's own terms: it asks only about a run not recorded terminal, and a second time
   * only when the abort did not prove it; it deletes exactly the unverified storages with a known id, on
   * terminal evidence alone, in at most four calls; and it verifies exactly what a delete of its own
   * proved gone.
   */
  lemma BodyFacts(w: World, a: Attempt, abort: Option<Answer>, confirm: Option<Answer>, deletion: Storage -> DeleteOutcome, caps: Caps)
    requires a.observedTerminal == w.row.remoteTerminal && a.pending == PendingStorages(w.row.verified)
    ensures var (w', calls) := AttemptBody(w, a, abort, confirm, deletion, caps);
            && |calls| <= 4 && w'.row.cleanupAttempts == w.row.cleanupAttempts
            && (Abort in calls <==> !w.row.remoteTerminal)
            && (Confirm in calls <==> !w.row.remoteTerminal && !IsTerminal(abort))
            && (forall st :: Delete(st) in calls <==>
                  ProvedTerminal(w.row, abort, confirm) && st !in w.row.verified && st in KnownIds(w.row, abort, confirm))
            && (forall st :: st in w'.row.verified <==>
                  st in w.row.verified || (Delete(st) in calls && (deletion(st).DeletedNow? || (deletion(st).Absent? && caps.trust404))))
  {
    var seen, doomed := w.(row := Asked(w.row, a, abort, confirm)), ToDelete(a, abort, confirm);
    PendingIsUnverified(w.row.verified);
    DeletesAre(doomed, seen.row.ids);
    FinishVerifies(seen, caps, Gone(doomed, seen.row.ids, deletion, caps));
    AskedKeeps(w.row, a, abort, confirm);
    assert AttemptBody(w, a, abort, confirm, deletion, caps).1 == Questions(a, abort) + Deletes(doomed, seen.row.ids);
  }

  lemma AskedKeeps(row: Row, a: Attempt, abort: Option<Answer>, confirm: Option<Answer>)
    requires a.observedTerminal == row.remoteTerminal
    ensures Asked(row, a, abort, confirm).verified == row.verified
    ensures Asked(row, a, abort, confirm).cleanupAttempts == row.cleanupAttempts
    ensures Asked(row, a, abort, confirm).ids == KnownIds(row, abort, confirm)
  {
    if !a.observedTerminal { ObservedKeeps(row, abort, confirm); }
  }

  lemma ObservedKeeps(row: Row, abort: Option<Answer>, confirm: Option<Answer>)
    ensures ObservedRow(row, abort, confirm).verified == row.verified
    ensures ObservedRow(row, abort, confirm).cleanupAttempts == row.cleanupAttempts
  {
  }

  lemma BeginFacts(row: Row, caps: Caps, overdue: bool)
    ensures var (row', attempt) := BeginAttempt(row, caps, overdue);
            && row'.verified == row.verified && row'.remoteTerminal == row.remoteTerminal && row'.ids == row.ids
            && row'.cleanupAttempts == row.cleanupAttempts + (if attempt.Some? then 1 else 0)
            && (attempt.Some? ==>
                  attempt.value.observedTerminal == row.remoteTerminal
                  && attempt.value.pending == PendingStorages(row.verified))
  {
  }

  /** The unit in a row's own terms: an attempt that is not counted sends nothing; a counted one does what its body does. */
  lemma ResultFacts(w: World, overdue: bool, abort: Option<Answer>, confirm: Option<Answer>, deletion: Storage -> DeleteOutcome, caps: Caps)
    ensures var (w', calls) := AttemptResult(w, overdue, abort, confirm, deletion, caps);
            var (row, attempt) := BeginAttempt(w.row, caps, overdue);
            && (attempt.None? ==> calls == [] && w' == w.(row := row))
            && |calls| <= 4 * (w'.row.cleanupAttempts - w.row.cleanupAttempts)
            && (forall st :: Delete(st) in calls <==>
                  attempt.Some? && ProvedTerminal(w.row, abort, confirm)
                  && st !in w.row.verified && st in KnownIds(w.row, abort, confirm))
            && (forall st :: st in w'.row.verified ==> st in w.row.verified || Delete(st) in calls)
  {
    BeginFacts(w.row, caps, overdue);
    var (row, attempt) := BeginAttempt(w.row, caps, overdue);
    if attempt.Some? {
      BodyFacts(w.(row := row), attempt.value, abort, confirm, deletion, caps);
      KnownIdsStay(w.row, row, abort, confirm);
    }
  }

  lemma KnownIdsStay(row: Row, row': Row, abort: Option<Answer>, confirm: Option<Answer>)
    requires row'.remoteTerminal == row.remoteTerminal && row'.ids == row.ids
    ensures KnownIds(row', abort, confirm) == KnownIds(row, abort, confirm)
  {
  }

  // ── The protocol's path ───────────────────────────────────────────────────

  function Answering(e: nat, answer: Option<Answer>): Action {
    Step(e, QUIET.(answer := answer))
  }

  function ConfirmTrace(e: nat, abort: Option<Answer>, confirm: Option<Answer>): seq<Action> {
    Times(Answering(e, abort), if abort.Some? then 2 else 1)
    + if IsTerminal(abort) then [] else Times(Answering(e, confirm), if confirm.Some? then 2 else 1)
  }

  function DeleteTrace(e: nat, pending: seq<Storage>, deletion: Storage -> DeleteOutcome): seq<Action> {
    seq(|pending|, i requires 0 <= i < |pending| => Step(e, QUIET.(deletion := deletion(pending[i]))))
  }

  function AskTrace(e: nat, a: Attempt, abort: Option<Answer>, confirm: Option<Answer>): seq<Action> {
    if a.observedTerminal then [] else ConfirmTrace(e, abort, confirm)
  }

  function WorkTrace(e: nat, a: Attempt, abort: Option<Answer>, confirm: Option<Answer>, deletion: Storage -> DeleteOutcome): seq<Action> {
    if Proved(a, abort, confirm) then [Step(e, QUIET)] + (DeleteTrace(e, a.pending, deletion) + [Step(e, QUIET)]) else []
  }

  function AttemptTrace(e: nat, row: Row, overdue: bool, abort: Option<Answer>, confirm: Option<Answer>,
                        deletion: Storage -> DeleteOutcome, caps: Caps): seq<Action>
  {
    var attempt := BeginAttempt(row, caps, overdue).1;
    [Step(e, QUIET)] + if attempt.None? then [] else AskTrace(e, attempt.value, abort, confirm) + WorkTrace(e, attempt.value, abort, confirm, deletion) + [Step(e, QUIET)]
  }

  lemma ContinueLast(s: System, trace: seq<Action>, a: Action, caps: Caps)
    ensures Continue(s, trace + [a], caps) == Do(Continue(s, trace, caps), a, caps)
  {
    assert (trace + [a])[..|trace|] == trace;
  }

  lemma Appended(x: seq<CallKind>, y: seq<CallKind>, z: seq<CallKind>)
    ensures x + y + z == x + (y + z)
  {
  }

  lemma KindsSnoc(calls: seq<Call>, call: Call)
    ensures Kinds(calls + [call]) == Kinds(calls) + [call.kind]
  {
  }

  /** Send one question and, if it is answered, record the answer. */
  lemma AbortPath(s: System, e: nat, a: Attempt, abort: Option<Answer>, caps: Caps)
    requires PcOf(s, e) == Aborting(a)
    ensures var s' := Continue(s, Times(Answering(e, abort), if abort.Some? then 2 else 1), caps);
            && s'.world == s.world.(row := if abort.Some? then RecordObservation(s.world.row, abort.value) else s.world.row)
            && PcOf(s', e) == (if IsTerminal(abort) then Rereading(a) else Confirming(a))
            && Kinds(s'.calls) == Kinds(s.calls) + [Abort]
  {
    var q := Answering(e, abort);
    KindsSnoc(s.calls, Call(Abort, a, s.world.row.remoteTerminal, s.world.row.state.Pending?, None));
    if abort.Some? {
      TwoSteps(s, q, caps);
    } else {
      assert Times(q, 1) == [q];
      ContinueOne(s, q, caps);
    }
  }

  lemma ConfirmingPath(s: System, e: nat, a: Attempt, confirm: Option<Answer>, caps: Caps)
    requires PcOf(s, e) == Confirming(a)
    ensures var s' := Continue(s, Times(Answering(e, confirm), if confirm.Some? then 2 else 1), caps);
            && s'.world == s.world.(row := if confirm.Some? then RecordObservation(s.world.row, confirm.value) else s.world.row)
            && PcOf(s', e) == (if IsTerminal(confirm) then Rereading(a) else Finishing(a, {}))
            && Kinds(s'.calls) == Kinds(s.calls) + [Confirm]
  {
    var q := Answering(e, confirm);
    KindsSnoc(s.calls, Call(Confirm, a, s.world.row.remoteTerminal, s.world.row.state.Pending?, None));
    if confirm.Some? {
      TwoSteps(s, q, caps);
    } else {
      assert Times(q, 1) == [q];
      ContinueOne(s, q, caps);
    }
  }

  lemma ConfirmPath(s: System, e: nat, a: Attempt, abort: Option<Answer>, confirm: Option<Answer>, caps: Caps)
    requires PcOf(s, e) == Aborting(a)
    ensures var s' := Continue(s, ConfirmTrace(e, abort, confirm), caps);
            && s'.world == s.world.(row := ObservedRow(s.world.row, abort, confirm))
            && PcOf(s', e) == (if IsTerminal(abort) || IsTerminal(confirm) then Rereading(a) else Finishing(a, {}))
            && Kinds(s'.calls) == Kinds(s.calls) + if IsTerminal(abort) then [Abort] else [Abort, Confirm]
  {
    var first := Times(Answering(e, abort), if abort.Some? then 2 else 1);
    AbortPath(s, e, a, abort, caps);
    if IsTerminal(abort) {
      assert ConfirmTrace(e, abort, confirm) == first;
    } else {
      var s1 := Continue(s, first, caps);
      ConfirmingPath(s1, e, a, confirm, caps);
      ContinueConcat(s, first, Times(Answering(e, confirm), if confirm.Some? then 2 else 1), caps);
      assert Kinds(s.calls) + [Abort] + [Confirm] == Kinds(s.calls) + [Abort, Confirm];
    }
  }

  lemma GoneNext(pending: seq<Storage>, n: nat, ids: set<Storage>, deletion: Storage -> DeleteOutcome, caps: Caps)
    requires n < |pending|
    ensures Gone(pending[..n + 1], ids, deletion, caps)
            == Gone(pending[..n], ids, deletion, caps)
               + if pending[n] in ids && Verifies(deletion(pending[n]), caps) then {pending[n]} else {}
    ensures Deletes(pending[..n + 1], ids) == Deletes(pending[..n], ids) + if pending[n] in ids then [Delete(pending[n])] else []
  {
    assert pending[..n + 1] == pending[..n] + [pending[n]];
    assert pending[..n + 1][..n] == pending[..n];
  }

  lemma DeleteNextIs(s: System, e: nat, a: Attempt, ids: set<Storage>, n: nat, deleted: set<Storage>, outcome: DeleteOutcome, caps: Caps)
    requires PcOf(s, e) == Deleting(a, ids, n, deleted) && n < |a.pending|
    ensures var s', st := Do(s, Step(e, QUIET.(deletion := outcome)), caps), a.pending[n];
            && s'.world == s.world
            && PcOf(s', e) == Deleting(a, ids, n + 1, deleted + if st in ids && Verifies(outcome, caps) then {st} else {})
            && Kinds(s'.calls) == Kinds(s.calls) + if st in ids then [Delete(st)] else []
  {
    KindsSnoc(s.calls, Call(Delete(a.pending[n]), a, s.world.row.remoteTerminal, s.world.row.state.Pending?, Some(outcome)));
  }

  /** The first n pending storages, each deleted if its id is known. */
  lemma {:induction false} DeletesPath(s: System, e: nat, a: Attempt, ids: set<Storage>, n: nat, deletion: Storage -> DeleteOutcome, caps: Caps)
    requires PcOf(s, e) == Deleting(a, ids, 0, {}) && n <= |a.pending|
    ensures var s' := Continue(s, DeleteTrace(e, a.pending, deletion)[..n], caps);
            && s'.world == s.world
            && PcOf(s', e) == Deleting(a, ids, n, Gone(a.pending[..n], ids, deletion, caps))
            && Kinds(s'.calls) == Kinds(s.calls) + Deletes(a.pending[..n], ids)
  {
    var trace := DeleteTrace(e, a.pending, deletion);
    if n == 0 {
      assert Gone(a.pending[..0], ids, deletion, caps) == {};
    } else {
      DeletesPath(s, e, a, ids, n - 1, deletion, caps);
      assert trace[..n] == trace[..n - 1] + [trace[n - 1]];
      ContinueLast(s, trace[..n - 1], trace[n - 1], caps);
      GoneNext(a.pending, n - 1, ids, deletion, caps);
      DeleteNextIs(Continue(s, trace[..n - 1], caps), e, a, ids, n - 1, Gone(a.pending[..n - 1], ids, deletion, caps),
                   deletion(a.pending[n - 1]), caps);
      Appended(Kinds(s.calls), Deletes(a.pending[..n - 1], ids), if a.pending[n - 1] in ids then [Delete(a.pending[n - 1])] else []);
    }
  }

  /** From the fresh read of the ids to the last delete. */
  lemma DeletionPath(s: System, e: nat, a: Attempt, deletion: Storage -> DeleteOutcome, caps: Caps)
    requires PcOf(s, e) == Rereading(a)
    ensures var s' := Continue(s, [Step(e, QUIET)] + (DeleteTrace(e, a.pending, deletion) + [Step(e, QUIET)]), caps);
            && s'.world == s.world
            && PcOf(s', e) == Finishing(a, Gone(a.pending, s.world.row.ids, deletion, caps))
            && Kinds(s'.calls) == Kinds(s.calls) + Deletes(a.pending, s.world.row.ids)
  {
    var step, trace := Step(e, QUIET), DeleteTrace(e, a.pending, deletion);
    var s1 := Do(s, step, caps);
    ContinueFirst(s, step, trace + [step], caps);
    DeletesPath(s1, e, a, s.world.row.ids, |a.pending|, deletion, caps);
    assert trace[..|a.pending|] == trace && a.pending[..|a.pending|] == a.pending;
    ContinueLast(s1, trace, step, caps);
  }

  /** Where the questions leave an attempt, and its calls so far. */
  lemma AskedPath(s: System, e: nat, a: Attempt, abort: Option<Answer>, confirm: Option<Answer>, caps: Caps)
    requires PcOf(s, e) == if a.observedTerminal then Rereading(a) else Aborting(a)
    ensures var s1 := Continue(s, AskTrace(e, a, abort, confirm), caps);
            && s1.world == s.world.(row := Asked(s.world.row, a, abort, confirm))
            && PcOf(s1, e) == (if Proved(a, abort, confirm) then Rereading(a) else Finishing(a, {}))
            && Kinds(s1.calls) == Kinds(s.calls) + Questions(a, abort)
  {
    if !a.observedTerminal { ConfirmPath(s, e, a, abort, confirm, caps); }
  }

  /** And where its deletes leave it. */
  lemma WorkPath(s: System, e: nat, a: Attempt, abort: Option<Answer>, confirm: Option<Answer>, deletion: Storage -> DeleteOutcome, caps: Caps)
    requires PcOf(s, e) == if Proved(a, abort, confirm) then Rereading(a) else Finishing(a, {})
    ensures var s' := Continue(s, WorkTrace(e, a, abort, confirm, deletion), caps);
            var doomed := ToDelete(a, abort, confirm);
            && s'.world == s.world && PcOf(s', e) == Finishing(a, Gone(doomed, s.world.row.ids, deletion, caps))
            && Kinds(s'.calls) == Kinds(s.calls) + Deletes(doomed, s.world.row.ids)
  {
    if Proved(a, abort, confirm) {
      DeletionPath(s, e, a, deletion, caps);
    } else {
      assert Gone([], s.world.row.ids, deletion, caps) == {};
    }
  }

  lemma FinishPath(s: System, e: nat, a: Attempt, deleted: set<Storage>, caps: Caps)
    requires PcOf(s, e) == Finishing(a, deleted)
    ensures var s' := Do(s, Step(e, QUIET), caps);
            s'.world == FinishAttempt(s.world, caps, deleted) && PcOf(s', e).Idle? && s'.calls == s.calls
  {
  }

  lemma AskAndWork(s: System, e: nat, a: Attempt, abort: Option<Answer>, confirm: Option<Answer>, deletion: Storage -> DeleteOutcome, caps: Caps)
    requires PcOf(s, e) == if a.observedTerminal then Rereading(a) else Aborting(a)
    ensures var s' := Continue(s, AskTrace(e, a, abort, confirm) + WorkTrace(e, a, abort, confirm, deletion), caps);
            var row, doomed := Asked(s.world.row, a, abort, confirm), ToDelete(a, abort, confirm);
            && s'.world == s.world.(row := row) && PcOf(s', e) == Finishing(a, Gone(doomed, row.ids, deletion, caps))
            && Kinds(s'.calls) == Kinds(s.calls) + (Questions(a, abort) + Deletes(doomed, row.ids))
  {
    var ask, work := AskTrace(e, a, abort, confirm), WorkTrace(e, a, abort, confirm, deletion);
    var s1 := Continue(s, ask, caps);
    AskedPath(s, e, a, abort, confirm, caps);
    WorkPath(s1, e, a, abort, confirm, deletion, caps);
    var doomed := ToDelete(a, abort, confirm);
    Appended(Kinds(s.calls), Questions(a, abort), Deletes(doomed, s1.world.row.ids));
    ContinueConcat(s, ask, work, caps);
  }

  /** The questions, the deletes and the last commit of a counted attempt. */
  lemma BodyPath(s: System, e: nat, a: Attempt, abort: Option<Answer>, confirm: Option<Answer>, deletion: Storage -> DeleteOutcome, caps: Caps)
    requires PcOf(s, e) == if a.observedTerminal then Rereading(a) else Aborting(a)
    ensures var s' := Do(Continue(s, AskTrace(e, a, abort, confirm) + WorkTrace(e, a, abort, confirm, deletion), caps), Step(e, QUIET), caps);
            && s'.world == AttemptBody(s.world, a, abort, confirm, deletion, caps).0 && PcOf(s', e).Idle?
            && Kinds(s'.calls) == Kinds(s.calls) + AttemptBody(s.world, a, abort, confirm, deletion, caps).1
  {
    AskAndWork(s, e, a, abort, confirm, deletion, caps);
    var s2 := Continue(s, AskTrace(e, a, abort, confirm) + WorkTrace(e, a, abort, confirm, deletion), caps);
    FinishPath(s2, e, a, Gone(ToDelete(a, abort, confirm), Asked(s.world.row, a, abort, confirm).ids, deletion, caps), caps);
  }

  /** Undisturbed, the protocol's steps of an attempt do what the attempt does as one function, in its calls and in its row. */
  lemma AttemptPath(s: System, e: nat, overdue: bool, abort: Option<Answer>, confirm: Option<Answer>, deletion: Storage -> DeleteOutcome, caps: Caps)
    requires PcOf(s, e) == Beginning(overdue)
    ensures var s' := Continue(s, AttemptTrace(e, s.world.row, overdue, abort, confirm, deletion, caps), caps);
            && s'.world == AttemptResult(s.world, overdue, abort, confirm, deletion, caps).0 && PcOf(s', e).Idle?
            && Kinds(s'.calls) == Kinds(s.calls) + AttemptResult(s.world, overdue, abort, confirm, deletion, caps).1
  {
    var attempt := BeginAttempt(s.world.row, caps, overdue).1;
    var s1 := Do(s, Step(e, QUIET), caps);
    if attempt.None? {
      assert [Step(e, QUIET)] + [] == [Step(e, QUIET)];
      ContinueOne(s, Step(e, QUIET), caps);
    } else {
      ContinueFirst(s, Step(e, QUIET), AskTrace(e, attempt.value, abort, confirm) + WorkTrace(e, attempt.value, abort, confirm, deletion) + [Step(e, QUIET)], caps);
      BodyPath(s1, e, attempt.value, abort, confirm, deletion, caps);
      ContinueLast(s1, AskTrace(e, attempt.value, abort, confirm) + WorkTrace(e, attempt.value, abort, confirm, deletion),
                   Step(e, QUIET), caps);
    }
  }
}
