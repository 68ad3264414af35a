/**
 * The stranded-latch pass over the whole provider_run table
 * (src/hw_radar/acquisition/apify/storage_cleanup.py:308-360). It runs two loops in one
 * transaction: every stranded orphan, then every stranded exhausted row.
 */
module StrandedLatches {
  import opened ProviderRow

  type Pk = nat

  function Orphans(rows: map<Pk, Row>): set<Pk> {
    set pk | pk in rows && StrandedOrphan(rows[pk])
  }

  function ExhaustedRows(rows: map<Pk, Row>, caps: Caps): set<Pk> {
    set pk | pk in rows && StrandedExhausted(rows[pk], caps)
  }

  function Passed(rows: map<Pk, Row>, caps: Caps): map<Pk, Row> {
    map pk | pk in rows :: TripStranded(rows[pk], caps)
  }

  function Reset(rows: map<Pk, Row>): map<Pk, Row> {
    map pk | pk in rows :: rows[pk].(trips := ResetTrips(rows[pk].trips))
  }

  /** The table once the rows of `done` have had `mark` applied. */
  function Marked(rows: map<Pk, Row>, done: set<Pk>, mark: Row -> Row): map<Pk, Row> {
    map pk | pk in rows :: if pk in done then mark(rows[pk]) else rows[pk]
  }

  lemma MarkedGrows(rows: map<Pk, Row>, done: set<Pk>, mark: Row -> Row, pk: Pk)
    requires pk in rows && pk !in done
    ensures Marked(rows, done, mark)[pk] == rows[pk]
    ensures Marked(rows, done, mark)[pk := mark(rows[pk])] == Marked(rows, done + {pk}, mark)
  {
  }

  class RunTable {
    var rows: map<Pk, Row>

    constructor (initial: map<Pk, Row>)
      ensures rows == initial
    {
      rows := initial;
    }

    /** The first loop: trip the orphans. */
    method TripOrphans() returns (tripped: set<Pk>)
      modifies this
      ensures tripped == Orphans(old(rows)) && rows == OrphansTripped(old(rows))
    {
      ghost var before := rows;
      tripped := {};
      var todo := Orphans(rows);
      while todo != {}
        invariant todo !! tripped && todo + tripped == Orphans(before)
        invariant rows == Marked(before, tripped, OrphanTripped)
        decreases |todo|
      {
        var pk :| pk in todo;
        MarkedGrows(before, tripped, OrphanTripped, pk);
        rows := rows[pk := rows[pk].(trips := TripLatch(rows[pk].trips, OrphanedStart))];
        tripped := tripped + {pk};
        todo := todo - {pk};
      }
      assert rows == OrphansTripped(before);
    }

    /** The second loop: mark and trip the rows out of attempts. */
    method TripExhausted(caps: Caps) returns (tripped: set<Pk>)
      modifies this
      ensures tripped == ExhaustedRows(old(rows), caps) && rows == ExhaustedMarked(old(rows), caps)
    {
      ghost var before := rows;
      tripped := {};
      var todo := ExhaustedRows(rows, caps);
      while todo != {}
        invariant todo !! tripped && todo + tripped == ExhaustedRows(before, caps)
        invariant rows == Marked(before, tripped, MarkDeleteFailed)
        decreases |todo|
      {
        var pk :| pk in todo;
        MarkedGrows(before, tripped, MarkDeleteFailed, pk);
        rows := rows[pk := MarkDeleteFailed(rows[pk])];
        tripped := tripped + {pk};
        todo := todo - {pk};
      }
      assert rows == ExhaustedMarked(before, caps);
    }

    /** The rows it tripped are exactly the stranded ones, and every row is as if passed alone. */
    method TripStrandedLatches(caps: Caps) returns (tripped: set<Pk>)
      modifies this
      ensures rows == Passed(old(rows), caps)
      ensures tripped == Orphans(old(rows)) + ExhaustedRows(old(rows), caps)
    {
      TwoLoopsAreOnePass(rows, caps);
      var orphaned := TripOrphans();
      var exhausted := TripExhausted(caps);
      tripped := orphaned + exhausted;
    }
  }

  function OrphanTripped(row: Row): Row {
    if StrandedOrphan(row) then row.(trips := TripLatch(row.trips, OrphanedStart)) else row
  }

  function OrphansTripped(rows: map<Pk, Row>): map<Pk, Row> {
    map pk | pk in rows :: OrphanTripped(rows[pk])
  }

  function ExhaustedMarked(rows: map<Pk, Row>, caps: Caps): map<Pk, Row> {
    map pk | pk in rows :: if StrandedExhausted(rows[pk], caps) then MarkDeleteFailed(rows[pk]) else rows[pk]
  }

  /** Tripping the orphans first hides no exhausted row, so the two loops are one pass per row. */
  lemma TwoLoopsAreOnePass(rows: map<Pk, Row>, caps: Caps)
    ensures ExhaustedMarked(OrphansTripped(rows), caps) == Passed(rows, caps)
    ensures ExhaustedRows(OrphansTripped(rows), caps) == ExhaustedRows(rows, caps)
  {
    forall pk | pk in rows
      ensures StrandedExhausted(OrphanTripped(rows[pk]), caps) <==> StrandedExhausted(rows[pk], caps)
    {
      OtherReasonUntouched(rows[pk].trips, OrphanedStart, DeleteAttemptsExhausted);
    }
  }

  lemma OtherReasonUntouched(trips: seq<Trip>, reason: LatchReason, other: LatchReason)
    ensures EverTripped(TripLatch(trips, reason), other) <==> EverTripped(trips, other) || other == reason
  {
  }

  /** A trip of any age, open or reset, counts as having tripped. */
  lemma EverTrippedWhen(trips: seq<Trip>, reason: LatchReason)
    ensures EverTripped(trips, reason) <==> exists t :: t in trips && t.reason == reason
  {
    if t :| t in trips && t.reason == reason { assert t == Trip(reason, true) || t == Trip(reason, false); }
  }

  /**
   * What a pass does to one row: it adds an open orphan trip exactly to an orphaned row that never had
   * one, and marks and trips exactly a row that failed, or ran out of attempts undeleted with its
   * start recorded, and was never tripped for it.
   */
  lemma PassExactlyWhen(row: Row, caps: Caps)
    ensures var lost := row.orphaned && forall t :: t in row.trips ==> t.reason != OrphanedStart;
            var spent := (row.storageState.DeleteFailed?
                          || (row.storageState.Retained? && row.cleanupAttempts >= caps.deleteAttempts && !row.orphaned))
                         && forall t :: t in row.trips ==> t.reason != DeleteAttemptsExhausted;
            TripStranded(row, caps)
            == row.(trips := row.trips + (if lost then [Trip(OrphanedStart, true)] else [])
                             + (if spent then [Trip(DeleteAttemptsExhausted, true)] else []),
                    storageState := if spent then DeleteFailed else row.storageState)
  {
    EverTrippedWhen(row.trips, OrphanedStart);
    EverTrippedWhen(row.trips, DeleteAttemptsExhausted);
    OtherReasonUntouched(row.trips, OrphanedStart, DeleteAttemptsExhausted);
  }

  /** After a pass no row is stranded, whatever the table held before. */
  lemma PassLeavesNoneStranded(rows: map<Pk, Row>, caps: Caps)
    ensures Orphans(Passed(rows, caps)) == {} && ExhaustedRows(Passed(rows, caps), caps) == {}
  {
    forall pk | pk in rows
      ensures !StrandedOrphan(Passed(rows, caps)[pk]) && !StrandedExhausted(Passed(rows, caps)[pk], caps)
    {
      var row := rows[pk];
      OtherReasonUntouched(row.trips, OrphanedStart, DeleteAttemptsExhausted);
      OtherReasonUntouched(row.trips, DeleteAttemptsExhausted, OrphanedStart);
      OtherReasonUntouched(TripLatch(row.trips, OrphanedStart), DeleteAttemptsExhausted, OrphanedStart);
    }
  }

  /** The owner's reset is final: it makes no row stranded that was not, so the next pass trips none of them again. */
  lemma ResetIsFinal(rows: map<Pk, Row>, caps: Caps)
    ensures Orphans(Reset(rows)) == Orphans(rows) && ExhaustedRows(Reset(rows), caps) == ExhaustedRows(rows, caps)
  {
    forall pk | pk in rows
      ensures StrandedOrphan(Reset(rows)[pk]) <==> StrandedOrphan(rows[pk])
      ensures StrandedExhausted(Reset(rows)[pk], caps) <==> StrandedExhausted(rows[pk], caps)
    {
      ResetKeepsReasons(rows[pk].trips, OrphanedStart);
      ResetKeepsReasons(rows[pk].trips, DeleteAttemptsExhausted);
    }
  }

  lemma ResetKeepsReasons(trips: seq<Trip>, reason: LatchReason)
    ensures EverTripped(ResetTrips(trips), reason) <==> EverTripped(trips, reason)
    ensures forall t :: t in ResetTrips(trips) ==> !t.open
  {
    var r := ResetTrips(trips);
    if EverTripped(trips, reason) {
      var i :| 0 <= i < |trips| && trips[i].reason == reason;
      assert r[i] == Trip(reason, false);
    }
    if EverTripped(r, reason) {
      var i :| 0 <= i < |r| && r[i].reason == reason;
      assert trips[i].reason == reason;
      assert trips[i] in trips;
      assert trips[i] == Trip(reason, true) || trips[i] == Trip(reason, false);
    }
  }

  /** A second pass, even after an owner reset, changes nothing: no open trip reappears. */
  lemma SecondPassTripsNone(rows: map<Pk, Row>, caps: Caps)
    ensures var once := Passed(rows, caps); Passed(once, caps) == once
    ensures var reset := Reset(Passed(rows, caps));
            && Passed(reset, caps) == reset
            && (forall pk, t :: pk in reset && t in Passed(reset, caps)[pk].trips ==> !t.open)
  {
    PassLeavesNoneStranded(rows, caps);
    ResetIsFinal(Passed(rows, caps), caps);
    NothingStrandedNothingChanges(Passed(rows, caps), caps);
    NothingStrandedNothingChanges(Reset(Passed(rows, caps)), caps);
    forall pk | pk in rows ensures forall t :: t in ResetTrips(Passed(rows, caps)[pk].trips) ==> !t.open {
      ResetKeepsReasons(Passed(rows, caps)[pk].trips, OrphanedStart);
    }
  }

  lemma NothingStrandedNothingChanges(rows: map<Pk, Row>, caps: Caps)
    requires Orphans(rows) == {} && ExhaustedRows(rows, caps) == {}
    ensures Passed(rows, caps) == rows
  {
    forall pk | pk in rows ensures TripStranded(rows[pk], caps) == rows[pk] {
      assert pk !in Orphans(rows) && pk !in ExhaustedRows(rows, caps);
    }
  }
}
