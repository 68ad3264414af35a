/**
 * Whole histories of one site: persist and absence transactions of many runs, local and remote, in
 * whatever order they commit, from an empty database.
 */
module History {
  import opened Prelude
  import opened Contracts
  import opened Providers
  import opened Persist
  import opened Stages
  import opened Pipeline

  datatype Event =
    | Persisted(records: seq<Record>, stamp: Stamp)
    | Swept(sweep: Sweep)
    | ImportRejected(scope: ScopeKey, at: Time)   // a rejected FULL import breaks its admitted scope
    | Rescheduled(intervalS: nat)                 // the scheduler changed the lane's interval

  function Apply(db: Database, e: Event): Database {
    match e
    case Persisted(records, stamp) => PersistLocal(db, records, stamp)
    case Swept(sweep) => AbsenceLocal(db, CallOf(sweep))
    case ImportRejected(scope, at) =>
      db.(marks := BreakContinuity(EnsureRow(db.marks, Some(scope)), Some(scope), at))
    case Rescheduled(i) =>
      if db.marks.lane.None? then db
      else db.(marks := db.marks.(lane := Some(db.marks.lane.value.(intervalS := i))))
  }

  /** The state a history leaves; `lane` is the FULL lane's first interval, None without a source config. */
  function Replay(lane: Option<nat>, history: seq<Event>): Database {
    if history == [] then
      Database(map[], Marks(map[], if lane.None? then None else Some(Lane(lane.value, BLANK))))
    else
      Apply(Replay(lane, history[..|history| - 1]), history[|history| - 1])
  }

  /** Every sweep of the history meets the contracts of the run that made it. */
  ghost predicate ValidHistory(history: seq<Event>) {
    forall e :: e in history && e.Swept? ==> e.sweep.Valid()
  }

  /** A valid sweep makes a valid call, and what the call may mark comes from the sweep's own claim. */
  lemma CallIsValid(s: Sweep)
    requires s.Valid()
    ensures CallOf(s).Valid()
    ensures CallOf(s).gated.Some? ==>
              && s.scope.Some?
              && CallOf(s).gated.value.observedAt == s.at
              && s.scope.value.seen <= CallOf(s).gated.value.seen
              && CallOf(s).gated.value.grace == s.scope.value.grace
              && CallOf(s).gated.value.staleAllowed == s.scope.value.staleAllowed
  {
    GateNeverStrengthens(s.scope, s.evidence);
  }

  // ── The lane ──────────────────────────────────────────────────────────────

  lemma EventKeepsLane(db: Database, e: Event)
    ensures Apply(db, e).marks.lane.Some? <==> db.marks.lane.Some?
  {
    if e.Swept? {
      var m, call := EnsureRow(db.marks, CallOf(e.sweep).swept), CallOf(e.sweep);
      assert ContinuityStep(m, call).0.lane.Some? <==> m.lane.Some?;
    }
  }

  lemma {:induction false} LaneStays(lane: Option<nat>, history: seq<Event>)
    ensures Replay(lane, history).marks.lane.Some? <==> lane.Some?
  {
    if history != [] {
      LaneStays(lane, history[..|history| - 1]);
      EventKeepsLane(Replay(lane, history[..|history| - 1]), history[|history| - 1]);
    }
  }

  /** In every reachable state no listing holds two snapshots of the same instant. */
  lemma {:induction false} OneSnapshotPerInstant(lane: Option<nat>, history: seq<Event>, k: Key)
    ensures var db := Replay(lane, history);
            k in db.listings ==> HistoryUnique(db.listings[k].history)
  {
    if history != [] {
      var front, e := history[..|history| - 1], history[|history| - 1];
      OneSnapshotPerInstant(lane, front, k);
      var db := Replay(lane, front);
      if e.Persisted? {
        BatchKeepsHistoryUnique(db.(marks := EnsureRows(db.marks, TargetScopes(db.listings, e.records))), e.records, e.stamp, k);
      }
    }
  }

  lemma {:induction false} BatchKeepsHistoryUnique(db: Database, records: seq<Record>, s: Stamp, k: Key)
    requires k in db.listings ==> HistoryUnique(db.listings[k].history)
    ensures var out := PersistBatch(db, records, s);
            k in out.listings ==> HistoryUnique(out.listings[k].history)
  {
    if records != [] {
      var front, r := records[..|records| - 1], records[|records| - 1];
      BatchKeepsHistoryUnique(db, front, s, k);
      var existing := Lookup(PersistBatch(db, front, s).listings, r.key);
      ObserveHistory(existing, r, s, CompleteSweepAt(db.marks, TargetScope(existing, r)));
    }
  }
}
