/**
 * The clocks the ordering guards compare: a row's newest observation, its newest absence, and its
 * scope's newest complete sweep only ever rise, whatever commits, in whatever order
 * (src/hw_radar/acquisition/persist.py:151-159, 207-262, src/hw_radar/acquisition/stages.py:522-532).
 */
module Clocks {
  import opened Prelude
  import opened Contracts
  import opened Providers
  import opened Persist
  import opened Stages
  import opened PersistOrder
  import opened Pipeline
  import opened History

  predicate NoEarlier(before: Option<Time>, after: Option<Time>) {
    before.Some? ==> after.Some? && before.value <= after.value
  }

  predicate Before(at: Time, clock: Option<Time>) {
    clock.Some? && at < clock.value
  }

  /** Every delisting is on the absence stamp, which a relist does not clear. */
  predicate AbsenceKept(row: Option<Listing>) {
    row.Some? ==> NoEarlier(row.value.delistedAt, row.value.lastAbsenceAt)
  }

  predicate Rises(before: Option<Listing>, after: Option<Listing>) {
    before.Some? ==>
      && after.Some?
      && NoEarlier(before.value.lastObservedAt, after.value.lastObservedAt)
      && NoEarlier(before.value.lastAbsenceAt, after.value.lastAbsenceAt)
  }

  lemma ObserveRises(m: Marks, row: Option<Listing>, r: Record, s: Stamp)
    requires AbsenceKept(row)
    ensures AbsenceKept(Some(ObserveRow(m, row, r, s))) && Rises(row, Some(ObserveRow(m, row, r, s)))
  {
  }

  lemma {:induction false} FoldRises(m: Marks, row: Option<Listing>, own: seq<Record>, s: Stamp)
    requires AbsenceKept(row)
    ensures AbsenceKept(RowFold(m, row, own, s)) && Rises(row, RowFold(m, row, own, s))
  {
    if own != [] {
      FoldRises(m, row, own[..|own| - 1], s);
      ObserveRises(m, RowFold(m, row, own[..|own| - 1], s), own[|own| - 1], s);
    }
  }

  /** An absence transaction leaves a row alone or marks it at the instant of its gated scope. */
  lemma SweepOnRow(db: Database, call: AbsenceCall, k: Key)
    ensures var row, after := Lookup(db.listings, k), Lookup(AbsenceLocal(db, call).listings, k);
            after == row
            || (row.Some? && call.gated.Some?
                && exists reason :: after == Some(MarkDelisted(row.value, reason, call.gated.value.observedAt)))
  {
    if call.gated.Some? && k in db.listings {
      var gated := call.gated.value;
      var verdict := VerdictOf(EnsureRow(db.marks, call.swept), call);
      assert AbsenceLocal(db, call).listings == DelistListings(db.listings, gated, verdict);
    }
  }

  /** And a watermark alone, or raised to that instant. */
  lemma SweepOnMark(db: Database, call: AbsenceCall, scope: Option<ScopeKey>)
    ensures var w, after := CompleteSweepAt(db.marks, scope), CompleteSweepAt(AbsenceLocal(db, call).marks, scope);
            after == w || (call.gated.Some? && after == Raised(w, call.gated.value.observedAt))
  {
    var m := EnsureRow(db.marks, call.swept);
    ContinuityKeepsSweeps(m, call, scope);
    if call.gated.Some? && call.gated.value.complete {
      assert AbsenceLocal(db, call).marks == RaiseCompleteSweep(ContinuityStep(m, call).0, call.gated.value);
    } else {
      assert AbsenceLocal(db, call).marks == ContinuityStep(m, call).0;
    }
  }

  lemma EventRises(db: Database, e: Event, k: Key, scope: Option<ScopeKey>)
    requires AbsenceKept(Lookup(db.listings, k))
    ensures AbsenceKept(Lookup(Apply(db, e).listings, k)) && Rises(Lookup(db.listings, k), Lookup(Apply(db, e).listings, k))
    ensures NoEarlier(CompleteSweepAt(db.marks, scope), CompleteSweepAt(Apply(db, e).marks, scope))
  {
    match e
    case Persisted(records, stamp) =>
      var ready := db.(marks := EnsureRows(db.marks, TargetScopes(db.listings, records)));
      PersistBatchRow(ready, records, stamp, k);
      FoldRises(ready.marks, Lookup(db.listings, k), Only(records, k), stamp);
    case Swept(sweep) =>
      SweepOnRow(db, CallOf(sweep), k);
      SweepOnMark(db, CallOf(sweep), scope);
    case _ =>
  }

  /** In every reachable state a row's effective absence is its absence stamp. */
  lemma {:induction false} AbsenceIsKept(lane: Option<nat>, history: seq<Event>, k: Key)
    ensures AbsenceKept(Lookup(Replay(lane, history).listings, k))
  {
    if history != [] {
      var front := history[..|history| - 1];
      AbsenceIsKept(lane, front, k);
      EventRises(Replay(lane, front), history[|history| - 1], k, None);
    }
  }

  /** From any state of a history to any later one no clock runs back and no row disappears. */
  lemma {:induction false} ClocksOnlyRise(lane: Option<nat>, history: seq<Event>, i: nat, k: Key, scope: Option<ScopeKey>)
    requires i <= |history|
    ensures var then_, now := Replay(lane, history[..i]), Replay(lane, history);
            && Rises(Lookup(then_.listings, k), Lookup(now.listings, k))
            && NoEarlier(CompleteSweepAt(then_.marks, scope), CompleteSweepAt(now.marks, scope))
  {
    if i < |history| {
      var front := history[..|history| - 1];
      assert front[..i] == history[..i];
      ClocksOnlyRise(lane, front, i, k, scope);
      AbsenceIsKept(lane, front, k);
      EventRises(Replay(lane, front), history[|history| - 1], k, scope);
    } else {
      assert history[..i] == history;
    }
  }

  // ── Absence comes from sweeps ─────────────────────────────────────────────

  /** Every sweep so far was taken at or before `now`. */
  ghost predicate SweptBy(history: seq<Event>, now: Time) {
    forall e :: e in history && e.Swept? ==> e.sweep.at <= now
  }

  predicate AtMost(clock: Option<Time>, now: Time) {
    clock.Some? ==> clock.value <= now
  }

  lemma {:induction false} FoldAbsence(m: Marks, row: Option<Listing>, own: seq<Record>, s: Stamp, now: Time)
    requires row.Some? ==> AtMost(row.value.lastAbsenceAt, now)
    requires forall scope :: AtMost(CompleteSweepAt(m, scope), now)
    ensures RowFold(m, row, own, s).Some? ==> AtMost(RowFold(m, row, own, s).value.lastAbsenceAt, now)
  {
    if own != [] {
      FoldAbsence(m, row, own[..|own| - 1], s, now);
    }
  }

  ghost predicate SweptAtMost(db: Database, k: Key, now: Time) {
    && (k in db.listings ==> AtMost(db.listings[k].lastAbsenceAt, now))
    && (forall scope :: AtMost(CompleteSweepAt(db.marks, scope), now))
  }

  lemma PersistStaysSwept(db: Database, records: seq<Record>, s: Stamp, k: Key, now: Time)
    requires SweptAtMost(db, k, now)
    ensures SweptAtMost(PersistLocal(db, records, s), k, now)
  {
    var ready := db.(marks := EnsureRows(db.marks, TargetScopes(db.listings, records)));
    forall scope ensures CompleteSweepAt(ready.marks, scope) == CompleteSweepAt(db.marks, scope) {
      EnsureRowDecidesNothing(db.marks, None, scope);
    }
    PersistBatchRow(ready, records, s, k);
    FoldAbsence(ready.marks, Lookup(db.listings, k), Only(records, k), s, now);
  }

  lemma SweepStaysSwept(db: Database, sweep: Sweep, k: Key, now: Time)
    requires SweptAtMost(db, k, now) && sweep.Valid() && sweep.at <= now
    ensures SweptAtMost(AbsenceLocal(db, CallOf(sweep)), k, now)
  {
    CallIsValid(sweep);
    SweepOnRow(db, CallOf(sweep), k);
    forall scope ensures AtMost(CompleteSweepAt(AbsenceLocal(db, CallOf(sweep)).marks, scope), now) {
      SweepOnMark(db, CallOf(sweep), scope);
    }
  }

  /** No absence stamp and no watermark is ahead of the newest sweep. */
  lemma {:induction false} AbsenceIsSwept(lane: Option<nat>, history: seq<Event>, now: Time, k: Key)
    requires ValidHistory(history) && SweptBy(history, now)
    ensures SweptAtMost(Replay(lane, history), k, now)
  {
    if history != [] {
      var front, e := history[..|history| - 1], history[|history| - 1];
      assert e in history && forall x :: x in front ==> x in history;
      AbsenceIsSwept(lane, front, now, k);
      match e
      case Persisted(records, stamp) => PersistStaysSwept(Replay(lane, front), records, stamp, k, now);
      case Swept(sweep) => SweepStaysSwept(Replay(lane, front), sweep, k, now);
      case _ =>
        forall scope ensures AtMost(CompleteSweepAt(Replay(lane, history).marks, scope), now) {
          assert CompleteSweepAt(Apply(Replay(lane, front), e).marks, scope) == CompleteSweepAt(Replay(lane, front).marks, scope);
        }
    }
  }

  // ── Watermark rows outlive what needs them ────────────────────────────────

  /** Every named scope that a listing is in has its watermark row. */
  ghost predicate ScopesHaveRows(db: Database) {
    forall k :: k in db.listings && db.listings[k].scope.Some? ==> db.listings[k].scope.value in db.marks.scopes
  }

  lemma {:induction false} ScopesKeepRows(lane: Option<nat>, history: seq<Event>)
    ensures ScopesHaveRows(Replay(lane, history))
  {
    if history != [] {
      var front, e := history[..|history| - 1], history[|history| - 1];
      ScopesKeepRows(lane, front);
      var db := Replay(lane, front);
      if e.Persisted? {
        var ready := db.(marks := EnsureRows(db.marks, TargetScopes(db.listings, e.records)));
        BatchKeepsRows(ready, e.records, e.stamp);
      } else if e.Swept? {
        SweepKeepsRows(db, CallOf(e.sweep));
      }
    }
  }

  lemma SweepKeepsRows(db: Database, call: AbsenceCall)
    requires ScopesHaveRows(db)
    ensures ScopesHaveRows(AbsenceLocal(db, call))
  {
    var after := AbsenceLocal(db, call);
    forall k | k in after.listings ensures k in db.listings && after.listings[k].scope == db.listings[k].scope {
      SweepOnRow(db, call, k);
      assert Lookup(after.listings, k) == Some(after.listings[k]);
    }
    assert db.marks.scopes.Keys <= after.marks.scopes.Keys;
  }

  lemma {:induction false} BatchKeepsRows(db: Database, records: seq<Record>, s: Stamp)
    requires ScopesHaveRows(db)
    requires forall r :: r in records && r.scope.Some? ==> r.scope.value in db.marks.scopes
    ensures ScopesHaveRows(PersistBatch(db, records, s))
  {
    if records != [] {
      var front := records[..|records| - 1];
      assert forall r :: r in front ==> r in records;
      BatchKeepsRows(db, front, s);
    }
  }
}
