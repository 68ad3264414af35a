/** An attempt deletes each storage at most once (src/hw_radar/acquisition/apify/storage_cleanup.py:383-393). */
module DeleteOnce {
  import opened Prelude
  import opened ProviderRow
  import opened Protocol
  import opened ImportSafety
  import opened CleanupSafety

  predicate Deletes(c: Call, number: nat, storage: Storage) {
    c.attempt.number == number && c.kind == Delete(storage)
  }

  function DeletesOf(calls: seq<Call>, number: nat, storage: Storage): nat {
    if calls == [] then 0
    else DeletesOf(calls[..|calls| - 1], number, storage) + if Deletes(calls[|calls| - 1], number, storage) then 1 else 0
  }

  lemma DeletesOfSnoc(calls: seq<Call>, c: Call, number: nat, storage: Storage)
    ensures DeletesOf(calls + [c], number, storage)
            == DeletesOf(calls, number, storage) + if Deletes(c, number, storage) then 1 else 0
  {
    assert (calls + [c])[..|calls|] == calls;
  }

  lemma {:induction false} DeletesAreCalls(calls: seq<Call>, number: nat, storage: Storage)
    ensures DeletesOf(calls, number, storage) <= CallsOf(calls, number)
  {
    if calls != [] { DeletesAreCalls(calls[..|calls| - 1], number, storage); }
  }

  /** The deletes of a storage an attempt may have sent by this point. */
  function Allowed(pc: Pc, storage: Storage): nat {
    if pc.Deleting? then (if pc.next <= |pc.attempt.pending| && storage in pc.attempt.pending[..pc.next] then 1 else 0)
    else if pc.Finishing? then 1
    else 0
  }

  ghost predicate DeletesOk(s: System) {
    && (forall e, st :: InAttempt(PcOf(s, e)) ==> DeletesOf(s.calls, PcOf(s, e).attempt.number, st) <= Allowed(PcOf(s, e), st))
    && (forall n: nat, st :: DeletesOf(s.calls, n, st) <= 1)
  }

  /** Sending the next pending storage's delete uses up its allowance, and no other's. */
  lemma AllowanceMoves(attempt: Attempt, ids: set<Storage>, next: nat, before: set<Storage>, after: set<Storage>, st: Storage)
    requires next < |attempt.pending| && attempt.pending == PendingStorages(attempt.verifiedThen)
    ensures var now, then_ := Allowed(Deleting(attempt, ids, next, before), st), Allowed(Deleting(attempt, ids, next + 1, after), st);
            then_ == if st == attempt.pending[next] then 1 else now
    ensures st == attempt.pending[next] ==> Allowed(Deleting(attempt, ids, next, before), st) == 0
  {
    assert attempt.pending[..next + 1] == attempt.pending[..next] + [attempt.pending[next]];
  }

  lemma DeletingStaysOk(s: System, e: nat, c: Choice, caps: Caps, st: Storage)
    requires PcOf(s, e).Deleting? && UnitOk(s, PcOf(s, e), caps)
    requires DeletesOf(s.calls, PcOf(s, e).attempt.number, st) <= Allowed(PcOf(s, e), st)
    ensures var s' := DeleteStep(s, e, c, caps);
            InAttempt(PcOf(s', e)) && DeletesOf(s'.calls, PcOf(s', e).attempt.number, st) <= Allowed(PcOf(s', e), st)
  {
    var s' := DeleteStep(s, e, c, caps);
    var Deleting(attempt, ids, next, deleted) := PcOf(s, e);
    if next < |attempt.pending| {
      var after := PcOf(s', e).deleted;
      AllowanceMoves(attempt, ids, next, deleted, after, st);
      if attempt.pending[next] in ids {
        var call := s'.calls[|s.calls|];
        assert s'.calls == s.calls + [call] && call.attempt == attempt && call.kind == Delete(attempt.pending[next]);
        DeletesOfSnoc(s.calls, call, attempt.number, st);
      }
    }
  }

  lemma BeginningStaysOk(s: System, e: nat, c: Choice, caps: Caps, st: Storage)
    requires PcOf(s, e).Beginning? && CallsOk(s)
    ensures var s' := CleanupStep(s, e, c, caps);
            InAttempt(PcOf(s', e)) ==> DeletesOf(s'.calls, PcOf(s', e).attempt.number, st) == 0
  {
    CleanupCounts(s, e, c, caps);
    DeletesAreCalls(s.calls, s.world.row.cleanupAttempts + 1, st);
  }

  lemma CallingStaysOk(s: System, e: nat, c: Choice, caps: Caps, st: Storage)
    requires PcOf(s, e).Aborting? || PcOf(s, e).Confirming?
    requires DeletesOf(s.calls, PcOf(s, e).attempt.number, st) == 0
    ensures var s' := CleanupStep(s, e, c, caps);
            InAttempt(PcOf(s', e)) && DeletesOf(s'.calls, PcOf(s', e).attempt.number, st) == 0
  {
    var s' := CleanupStep(s, e, c, caps);
    var call := s'.calls[|s.calls|];
    assert s'.calls == s.calls + [call] && !call.kind.Delete?;
    DeletesOfSnoc(s.calls, call, PcOf(s, e).attempt.number, st);
  }

  lemma ConfirmingStaysOk(s: System, e: nat, c: Choice, caps: Caps, st: Storage)
    requires InAttempt(PcOf(s, e)) && !PcOf(s, e).Deleting? && !PcOf(s, e).Finishing?
    requires DeletesOf(s.calls, PcOf(s, e).attempt.number, st) == 0
    ensures var s' := CleanupStep(s, e, c, caps);
            InAttempt(PcOf(s', e)) && DeletesOf(s'.calls, PcOf(s', e).attempt.number, st) == 0
  {
    if PcOf(s, e).Aborting? || PcOf(s, e).Confirming? {
      CallingStaysOk(s, e, c, caps, st);
    }
  }

  /** The acting executor's own count stays within what its new position allows. */
  lemma OwnDeletesOk(s: System, e: nat, c: Choice, caps: Caps, st: Storage)
    requires CleanupOk(s, caps) && DeletesOk(s) && !Importing(PcOf(s, e))
    ensures var s' := CleanupStep(s, e, c, caps);
            InAttempt(PcOf(s', e)) ==> DeletesOf(s'.calls, PcOf(s', e).attempt.number, st) <= Allowed(PcOf(s', e), st)
  {
    var pc := PcOf(s, e);
    assert UnitOk(s, pc, caps);
    if pc.Deleting? {
      DeletingStaysOk(s, e, c, caps, st);
    } else if pc.Beginning? {
      BeginningStaysOk(s, e, c, caps, st);
    } else if InAttempt(pc) && !pc.Finishing? {
      ConfirmingStaysOk(s, e, c, caps, st);
    }
  }

  /** Each executor in flight keeps its allowance. */
  lemma AllowancesStay(s: System, a: Action, caps: Caps, f: nat, st: Storage)
    requires CleanupOk(s, caps) && DeletesOk(s) && InAttempt(PcOf(Do(s, a, caps), f))
    ensures DeletesOf(Do(s, a, caps).calls, PcOf(Do(s, a, caps), f).attempt.number, st) <= Allowed(PcOf(Do(s, a, caps), f), st)
  {
    var s' := Do(s, a, caps);
    if !Names(a, f) {
      CallsAfter(s, a, caps);
      OthersStay(s, a, caps, f);
      if s'.calls != s.calls {
        assert !SameAttempt(PcOf(s, a.e), PcOf(s, f));
        assert s'.calls == s.calls + [s'.calls[|s.calls|]];
        DeletesOfSnoc(s.calls, s'.calls[|s.calls|], PcOf(s, f).attempt.number, st);
      }
    } else if a.Step? {
      if Importing(PcOf(s, f)) { ImportKeepsStorage(s, f, a.choice, caps); } else { OwnDeletesOk(s, f, a.choice, caps, st); }
    }
  }

  lemma DeletesStayOk(s: System, a: Action, caps: Caps)
    requires CleanupOk(s, caps) && DeletesOk(s)
    ensures DeletesOk(Do(s, a, caps))
  {
    var s' := Do(s, a, caps);
    CallsAfter(s, a, caps);
    forall f, st | InAttempt(PcOf(s', f)) ensures DeletesOf(s'.calls, PcOf(s', f).attempt.number, st) <= Allowed(PcOf(s', f), st) {
      AllowancesStay(s, a, caps, f, st);
    }
    if s'.calls != s.calls {
      assert s'.calls == s.calls + [s'.calls[|s.calls|]];
      forall n: nat, st ensures DeletesOf(s'.calls, n, st) <= 1 {
        DeletesOfSnoc(s.calls, s'.calls[|s.calls|], n, st);
        if n == PcOf(s', a.e).attempt.number {
          assert DeletesOf(s'.calls, PcOf(s', a.e).attempt.number, st) <= Allowed(PcOf(s', a.e), st);
        }
      }
    }
  }

  lemma {:induction false} DeletesAreOnce(kind: RunKind, trace: seq<Action>, caps: Caps)
    ensures DeletesOk(Run(kind, trace, caps))
  {
    if trace == [] {
    } else {
      var front, a := trace[..|trace| - 1], trace[|trace| - 1];
      DeletesAreOnce(kind, front, caps);
      CleanupIsSafe(kind, front, caps);
      DeletesStayOk(Run(kind, front, caps), a, caps);
    }
  }

  /** How many deletes of one storage a log holds. */
  function DeletesIn(calls: seq<Call>, storage: Storage): nat {
    if calls == [] then 0
    else DeletesIn(calls[..|calls| - 1], storage) + if calls[|calls| - 1].kind == Delete(storage) then 1 else 0
  }

  lemma {:induction false} WithoutDeletes(calls: seq<Call>, number: nat, other: nat, storage: Storage)
    ensures DeletesIn(Without(calls, number), storage) + DeletesOf(calls, number, storage) == DeletesIn(calls, storage)
    ensures DeletesOf(Without(calls, number), other, storage) <= DeletesOf(calls, other, storage)
  {
    if calls == [] {
    } else {
      var front, last := calls[..|calls| - 1], calls[|calls| - 1];
      WithoutDeletes(front, number, other, storage);
      DeletesOfSnoc(Without(front, number), last, other, storage);
      assert (Without(front, number) + [last])[..|Without(front, number)|] == Without(front, number);
      if last.attempt.number == number { assert Without(calls, number) == Without(front, number); }
    }
  }

  lemma {:induction false} OncePerAttempt(calls: seq<Call>, attempts: nat, storage: Storage)
    requires forall c :: c in calls ==> 1 <= c.attempt.number <= attempts
    requires forall n: nat :: DeletesOf(calls, n, storage) <= 1
    ensures DeletesIn(calls, storage) <= attempts
    decreases attempts
  {
    if calls == [] {
    } else {
      assert calls[0] in calls;
      forall n: nat ensures DeletesOf(Without(calls, attempts), n, storage) <= 1 { WithoutDeletes(calls, attempts, n, storage); }
      WithoutDeletes(calls, attempts, 0, storage);
      WithoutCounts(calls, attempts, 0);
      OncePerAttempt(Without(calls, attempts), attempts - 1, storage);
    }
  }

  /** Over any history each storage is deleted at most once per counted attempt. */
  lemma DeletesAreBounded(kind: RunKind, trace: seq<Action>, caps: Caps, storage: Storage)
    ensures DeletesIn(Run(kind, trace, caps).calls, storage) <= Run(kind, trace, caps).world.row.cleanupAttempts <= caps.deleteAttempts
  {
    DeletesAreOnce(kind, trace, caps);
    CleanupIsSafe(kind, trace, caps);
    var s := Run(kind, trace, caps);
    forall c | c in s.calls ensures 1 <= c.attempt.number <= s.world.row.cleanupAttempts {
      var i :| 0 <= i < |s.calls| && s.calls[i] == c;
      assert CallOk(s.calls[i], s.world.row.cleanupAttempts);
    }
    OncePerAttempt(s.calls, s.world.row.cleanupAttempts, storage);
  }
}
