/**
 * Where a terminal status comes from (src/hw_radar/acquisition/apify/storage_cleanup.py:149-249,
 * jobs.py:700-730): only from an answer that says so, and every DELETE has one before it.
 */
module TerminalEvidence {
  import opened Prelude
  import opened ProviderRow
  import opened Protocol
  import opened ImportSafety
  import opened CleanupSafety

  /** The action records a terminal answer: a poll's, or one an abort or a confirming read brought back. */
  predicate RecordsTerminal(s: System, a: Action) {
    || (a.Poll? && a.answer.terminal)
    || (a.Step? && (PcOf(s, a.e).AbortAnswered? || PcOf(s, a.e).ConfirmAnswered?) && PcOf(s, a.e).answer.terminal)
  }

  lemma RejectKeepsStatus(w: World, reason: RejectReason, onlyFrom: Option<ImportState>)
    ensures Reject(w, reason, onlyFrom).row.remoteTerminal == w.row.remoteTerminal
  {
  }

  lemma FinalizeKeepsStatus(w: World)
    ensures Finalize(w).0.row.remoteTerminal == w.row.remoteTerminal
  {
  }

  lemma FinishKeepsStatus(w: World, caps: Caps, deleted: set<Storage>)
    ensures FinishAttempt(w, caps, deleted).row.remoteTerminal == w.row.remoteTerminal
  {
  }

  lemma StageKeepsStatus(s: System, e: nat, copy: ImportState, c: Choice, caps: Caps)
    ensures StageStep(s, e, copy, c, caps).world.row.remoteTerminal == s.world.row.remoteTerminal
  {
    match copy
    case Pending =>
    case ObservationsCommitted =>
    case Evaluated => FinalizeKeepsStatus(s.world);
    case _ =>
  }

  lemma ImportKeepsStatus(s: System, e: nat, c: Choice, caps: Caps)
    requires Importing(PcOf(s, e))
    ensures ImportStep(s, e, c, caps).world.row.remoteTerminal == s.world.row.remoteTerminal
  {
    match PcOf(s, e)
    case Ready(copy) => StageKeepsStatus(s, e, copy, c, caps);
    case Rejecting(reason) => RejectKeepsStatus(s.world, reason, None);
    case _ =>
  }

  lemma CleanupRecords(s: System, e: nat, c: Choice, caps: Caps)
    requires !Importing(PcOf(s, e))
    ensures CleanupStep(s, e, c, caps).world.row.remoteTerminal
            == (s.world.row.remoteTerminal || RecordsTerminal(s, Step(e, c)))
  {
    match PcOf(s, e)
    case OverdueReject => RejectKeepsStatus(s.world, StorageDeadlinePassed, Some(Pending));
    case Finishing(_, deleted) => FinishKeepsStatus(s.world, caps, deleted);
    case _ =>
  }

  /** The row reads terminal exactly from the first recorded terminal answer on. */
  lemma TerminalExactlyWhen(s: System, a: Action, caps: Caps)
    ensures Do(s, a, caps).world.row.remoteTerminal == (s.world.row.remoteTerminal || RecordsTerminal(s, a))
  {
    match a
    case Step(e, c) =>
      if Importing(PcOf(s, e)) { ImportKeepsStatus(s, e, c, caps); } else { CleanupRecords(s, e, c, caps); }
    case MismatchReject => RejectKeepsStatus(s.world, StartOptionMismatch, None);
    case _ =>
  }

  // ── Whole runs ────────────────────────────────────────────────────────────

  /** A remote answer in this action says that the run has ended: a poll, an abort or a run read. */
  predicate AnswersTerminal(s: System, a: Action) {
    || (a.Poll? && a.answer.terminal)
    || (a.Step? && (PcOf(s, a.e).Aborting? || PcOf(s, a.e).Confirming?) && a.choice.answer.Some? && a.choice.answer.value.terminal)
  }

  ghost predicate Answered(kind: RunKind, trace: seq<Action>, caps: Caps) {
    exists i :: 0 <= i < |trace| && AnswersTerminal(Run(kind, trace[..i], caps), trace[i])
  }

  lemma AnsweredStays(kind: RunKind, front: seq<Action>, a: Action, caps: Caps)
    requires Answered(kind, front, caps)
    ensures Answered(kind, front + [a], caps)
  {
    var i :| 0 <= i < |front| && AnswersTerminal(Run(kind, front[..i], caps), front[i]);
    assert (front + [a])[..i] == front[..i];
    assert AnswersTerminal(Run(kind, (front + [a])[..i], caps), (front + [a])[i]);
  }

  /** An executor holds a terminal answer only if a call of its own brought it. */
  predicate Holds(pc: Pc) {
    (pc.AbortAnswered? || pc.ConfirmAnswered?) && pc.answer.terminal
  }

  lemma HeldAnswerCame(s: System, a: Action, caps: Caps, e: nat)
    requires Holds(PcOf(Do(s, a, caps), e))
    ensures Holds(PcOf(s, e)) || AnswersTerminal(s, a)
  {
    if !Names(a, e) {
      OthersStay(s, a, caps, e);
    } else if a.Step? {
      if Importing(PcOf(s, e)) { ImportKeepsStorage(s, e, a.choice, caps); } else { CleanupAnswer(s, e, a.choice, caps); }
    }
  }

  lemma CleanupAnswer(s: System, e: nat, c: Choice, caps: Caps)
    requires !Importing(PcOf(s, e)) && Holds(PcOf(CleanupStep(s, e, c, caps), e))
    ensures AnswersTerminal(s, Step(e, c)) || Holds(PcOf(s, e))
  {
  }

  /** A row that reads terminal, or an executor about to record that it is, has an answer in the trace behind it. */
  lemma {:induction false} TerminalWasAnswered(kind: RunKind, trace: seq<Action>, caps: Caps)
    ensures var s := Run(kind, trace, caps);
            s.world.row.remoteTerminal || (exists e :: Holds(PcOf(s, e))) ==> Answered(kind, trace, caps)
  {
    if trace != [] {
      var front, a := trace[..|trace| - 1], trace[|trace| - 1];
      var s, s' := Run(kind, front, caps), Run(kind, trace, caps);
      assert trace == front + [a];
      TerminalWasAnswered(kind, front, caps);
      TerminalExactlyWhen(s, a, caps);
      if Answered(kind, front, caps) {
        AnsweredStays(kind, front, a, caps);
      } else {
        assert !RecordsTerminal(s, a) || a.Poll?;
        if exists e :: Holds(PcOf(s', e)) {
          var e :| Holds(PcOf(s', e));
          HeldAnswerCame(s, a, caps, e);
        }
        if AnswersTerminal(s, a) { assert trace[..|front|] == front; }
      }
    }
  }

  /** Only a deleting executor sends a DELETE, and it saw a terminal row. */
  lemma DeleterIsDeleting(s: System, a: Action, caps: Caps)
    requires CleanupOk(s, caps)
    requires var s' := Do(s, a, caps); |s'.calls| > |s.calls| && s'.calls[|s.calls|].kind.Delete?
    ensures a.Step? && PcOf(s, a.e).Deleting? && s.world.row.remoteTerminal
  {
    CallsAfter(s, a, caps);
    assert UnitOk(s, PcOf(s, a.e), caps);
    if Importing(PcOf(s, a.e)) { ImportKeepsStorage(s, a.e, a.choice, caps); } else { DeleteStepSends(s, a.e, a.choice, caps); }
  }

  /**
   * Every step that sends a DELETE comes after an answer, in the same history, that said the run had
   * ended; it goes to a storage its attempt had to delete and whose id is known.
   */
  lemma DeletesFollowAnAnswer(kind: RunKind, trace: seq<Action>, caps: Caps, n: nat)
    requires n < |trace|
    requires var s, s' := Run(kind, trace[..n], caps), Run(kind, trace[..n + 1], caps);
             |s'.calls| > |s.calls| && s'.calls[|s.calls|].kind.Delete?
    ensures Answered(kind, trace[..n], caps)
    ensures var s, s' := Run(kind, trace[..n], caps), Run(kind, trace[..n + 1], caps);
            s'.calls == s.calls + [s'.calls[|s.calls|]] && trace[n].Step? && PcOf(s, trace[n].e).Deleting?
  {
    var front := trace[..n];
    assert trace[..n + 1] == front + [trace[n]] && (front + [trace[n]])[..n] == front;
    var s := Run(kind, front, caps);
    CleanupIsSafe(kind, front, caps);
    CallsAfter(s, trace[n], caps);
    DeleterIsDeleting(s, trace[n], caps);
    TerminalWasAnswered(kind, front, caps);
  }

  lemma DeleteStepSends(s: System, e: nat, c: Choice, caps: Caps)
    requires var s' := CleanupStep(s, e, c, caps); |s'.calls| > |s.calls| && s'.calls[|s.calls|].kind.Delete?
    ensures PcOf(s, e).Deleting?
  {
  }
}
