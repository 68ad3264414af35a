/**
 * Who may prove absence, over whole histories that mix local and remote runs
 * (src/hw_radar/acquisition/providers.py:52-133, src/hw_radar/acquisition/stages.py:428-437, 469-519),
 * and what "unseen since" means for a stale mark.
 */
module RemoteEvidence {
  import opened Prelude
  import opened Contracts
  import opened Providers
  import opened Persist
  import opened Stages
  import opened PersistOrder
  import opened Pipeline
  import opened History
  import opened Clocks
  import opened Continuity

  /** The one kind of remote run that proves absence: complete evidence and a scope that claims completeness. */
  predicate Proves(s: Sweep) {
    s.evidence.completeness.Complete? && s.scope.Some? && s.scope.value.complete
  }

  /** A remote run marks a row absent, or raises a complete-sweep watermark, only when it proves completeness. */
  lemma RemoteMarksNeedProof(db: Database, s: Sweep)
    requires s.Valid() && s.evidence.kind.Remote?
    ensures !Proves(s) ==> Apply(db, Swept(s)).listings == db.listings
    ensures forall scope :: !Proves(s) ==>
              CompleteSweepAt(Apply(db, Swept(s)).marks, scope) == CompleteSweepAt(db.marks, scope)
    ensures forall k :: k in db.listings && Apply(db, Swept(s)).listings[k] != db.listings[k] ==>
              Proves(s) && Apply(db, Swept(s)).listings[k].delistReason == Some(AbsentFromSweep)
  {
    GateNeverStrengthens(s.scope, s.evidence);
    CallIsValid(s);
  }

  /** Active, in the scope, unseen by the run and not observed since. */
  predicate Unseen(k: Key, l: Listing, s: Sweep)
    requires s.scope.Some?
  {
    && l.delistedAt.None? && l.scope == s.swept && k !in s.scope.value.seen && k !in s.seenInRun
    && (l.lastObservedAt.Some? ==> l.lastObservedAt.value <= s.at)
  }

  /**
   * And a run that proves completeness, local or remote, is let through: it raises its scope's
   * watermark to its own time and marks every listing it refutes at that time, and no other.
   */
  lemma ProofActs(db: Database, s: Sweep)
    requires s.Valid() && Proves(s)
    ensures HasMark(s.swept, db.marks.lane) ==>
              CompleteSweepAt(Apply(db, Swept(s)).marks, s.swept) == Raised(CompleteSweepAt(db.marks, s.swept), s.at)
    ensures forall k :: k in db.listings ==>
              var l, l' := db.listings[k], Apply(db, Swept(s)).listings[k];
              if Unseen(k, l, s) then l'.delistedAt == Some(s.at) && l'.delistReason == Some(AbsentFromSweep)
              else l' == l
  {
    CallIsValid(s);
    SweepRaisesOwnMark(db.marks, CallOf(s), s.swept);
  }

  /**
   * A run that counts as polling the scope it swept: a proven one; and of the local ones also an
   * incomplete sweep that may age listings, unless a scoped run brings no claim to vouch for its scope.
   */
  predicate Polls(s: Sweep) {
    if s.evidence.kind.Remote? then Proves(s)
    else
      && (s.scope.Some? || s.swept.None?)
      && (s.evidence.completeness.Complete? || (s.evidence.completeness.Truncated? && s.evidence.staleEligible))
  }

  /**
   * What every sweep, local or remote, does to the window of its scope: one that does not count as
   * polling closes it and records the break; one at or before a break, or behind the newest poll, leaves
   * it; any other extends it from a near predecessor or opens it at its own time.
   */
  lemma PollsOrBreaks(db: Database, s: Sweep)
    requires s.Valid() && HasMark(s.swept, db.marks.lane)
    ensures var w, w' := RowOrBlank(db.marks, s.swept), RowOrBlank(Apply(db, Swept(s)).marks, s.swept);
            var previous := if s.swept.None? then s.nullPrevious else w.lastEligibleAt;
            var late := (w.brokenAt.Some? && s.at <= w.brokenAt.value) || (w.lastEligibleAt.Some? && s.at < w.lastEligibleAt.value);
            && (w'.lastEligibleAt == if Polls(s) && !late then Some(s.at) else w.lastEligibleAt)
            && (w'.brokenAt == if Polls(s) || (w.brokenAt.Some? && w.brokenAt.value >= s.at) then w.brokenAt else Some(s.at))
            && (w'.continuousSince
                == if !Polls(s) then None
                   else if late || (w.continuousSince.Some? && previous.Some? && Near(s.at - previous.value, db.marks.lane)) then w.continuousSince
                   else Some(s.at))
  {
    CallIsValid(s);
    CallStepsRow(db.marks, CallOf(s), s.swept);
    if CallOf(s).eligible && !SweepRefused(RowOrBlank(db.marks, s.swept), s.at) { LinksExactlyWhen(db.marks, CallOf(s)); }
  }

  /** A sweep of a named scope breaks the NULL scope's window at its own time, unless its run sweeps that scope too. */
  lemma ScopedSweepBreaksNull(db: Database, s: Sweep)
    requires s.Valid() && s.swept.Some? && db.marks.lane.Some?
    ensures var after := Apply(db, Swept(s)).marks.lane;
            && after.Some? && after.value.intervalS == db.marks.lane.value.intervalS
            && var n, n' := db.marks.lane.value.mark, after.value.mark;
               if s.nullScopeSwept then n' == n
               else
                 && n'.continuousSince.None? && n'.lastEligibleAt == n.lastEligibleAt && n'.completeSweepAt == n.completeSweepAt
                 && n'.brokenAt == (if n.brokenAt.Some? && n.brokenAt.value >= s.at then n.brokenAt else Some(s.at))
  {
    CallIsValid(s);
    AbsenceFrame(db, CallOf(s));
  }

  /** An incomplete local sweep whose scope opted in to ageing its listings. */
  predicate MayAge(s: Sweep) {
    && s.evidence.kind.Local? && s.scope.Some? && s.scope.value.staleAllowed && s.evidence.staleEligible
    && (s.evidence.completeness.Complete? || s.evidence.completeness.Truncated?)
  }

  /**
   * A run that proves nothing raises no watermark, and marks a listing exactly when it may age
   * listings, its poll was accepted into a window at least the grace long, and the listing was unseen
   * and last written before that grace began.
   */
  lemma UnprovenActs(db: Database, s: Sweep)
    requires s.Valid() && !Proves(s)
    ensures CompleteSweepAt(Apply(db, Swept(s)).marks, s.swept) == CompleteSweepAt(db.marks, s.swept)
    ensures var w, w' := RowOrBlank(db.marks, s.swept), RowOrBlank(Apply(db, Swept(s)).marks, s.swept);
            var late := (w.brokenAt.Some? && s.at <= w.brokenAt.value) || (w.lastEligibleAt.Some? && s.at < w.lastEligibleAt.value);
            var open := MayAge(s) && HasMark(s.swept, db.marks.lane) && !late
                        && w'.continuousSince.Some? && s.at - w'.continuousSince.value >= s.scope.value.grace;
            forall k :: k in db.listings ==>
              var l, l' := db.listings[k], Apply(db, Swept(s)).listings[k];
              if open && Unseen(k, l, s) && l.lastSeen < s.at - s.scope.value.grace
              then l'.delistedAt == Some(s.at) && l'.delistReason == Some(AbsentStale)
              else l' == l
  {
    CallIsValid(s);
    CallStepsRow(db.marks, CallOf(s), s.swept);
    var m := EnsureRow(db.marks, s.swept);
    ContinuityKeepsSweeps(m, CallOf(s), s.swept);
    assert RowOrBlank(m, s.swept) == RowOrBlank(db.marks, s.swept);
  }

  /** Every other remote FULL run leaves the scope it swept without continuity, and so does every scoped one the NULL lane. */
  lemma RemoteWithoutProofBreaks(db: Database, s: Sweep)
    requires s.Valid() && s.evidence.kind.Remote?
    ensures !Proves(s) ==>
              var row := RowOf(Apply(db, Swept(s)).marks, s.swept);
              row.Some? ==> row.value.continuousSince.None?
    ensures s.swept.Some? && Apply(db, Swept(s)).marks.lane.Some? ==>
              Apply(db, Swept(s)).marks.lane.value.mark.continuousSince.None?
  {
    CallIsValid(s);
  }

  /** Every link a continuity chain can use is a local run or a remote run that proved completeness. */
  lemma {:induction false} EveryLinkIsEarned(lane: Option<nat>, history: seq<Event>, scope: Option<ScopeKey>, i: nat)
    requires var log := LogOf(lane, history, scope); i < |log| && log[i].Poll?
    ensures var s := LogOf(lane, history, scope)[i].sweep;
            && Swept(s) in history && s.swept == scope
            && (s.evidence.kind.Local? || Proves(s))
  {
    var front, e := history[..|history| - 1], history[|history| - 1];
    assert e in history && forall x :: x in front ==> x in history;
    if i < |LogOf(lane, front, scope)| {
      EveryLinkIsEarned(lane, front, scope, i);
    }
  }

  // ── Stale marks in every state ────────────────────────────────────────────

  /** Sweep `i` of the history marked the row of `k` stale, and `row` still has its scope and last-seen instant. */
  ghost predicate MarkedBy(lane: Option<nat>, history: seq<Event>, k: Key, row: Listing, i: nat) {
    && i < |history| && history[i].Swept?
    && MarksStale(Replay(lane, history[..i]), history[i].sweep, k)
    && var was := Replay(lane, history[..i]).listings[k];
       row.delistedAt == Some(history[i].sweep.at) && row.scope == was.scope && row.lastSeen == was.lastSeen
  }

  predicate StaleRow(row: Option<Listing>) {
    row.Some? && row.value.delistReason == Some(AbsentStale)
  }

  /** Only an observation that writes the row touches what a stale mark left, and it clears the mark. */
  lemma {:induction false} FoldKeepsStale(m: Marks, row: Option<Listing>, own: seq<Record>, s: Stamp)
    requires StaleRow(RowFold(m, row, own, s))
    ensures StaleRow(row) && RowFold(m, row, own, s).value.(history := row.value.history) == row.value
  {
    if own != [] {
      FoldKeepsStale(m, row, own[..|own| - 1], s);
    }
  }

  /** The mark leaves the row's scope and last-seen instant, and stamps the sweep's own time. */
  lemma MarkingStamps(db: Database, sweep: Sweep, k: Key)
    requires sweep.Valid() && MarksStale(db, sweep, k)
    ensures var row := Apply(db, Swept(sweep)).listings[k];
            row.delistedAt == Some(sweep.at) && row.scope == db.listings[k].scope && row.lastSeen == db.listings[k].lastSeen
  {
    CallIsValid(sweep);
    SweepOnRow(db, CallOf(sweep), k);
  }

  /** A row reads stale after an event because it did before, and is as it was, or because the event marked it. */
  lemma StaleComesFrom(db: Database, e: Event, k: Key)
    requires StaleRow(Lookup(Apply(db, e).listings, k))
    requires StaleRow(Lookup(db.listings, k)) ==> !db.listings[k].Active()
    ensures StaleRow(Lookup(db.listings, k)) ==>
              k in Apply(db, e).listings
              && Apply(db, e).listings[k].(history := db.listings[k].history) == db.listings[k]
    ensures !StaleRow(Lookup(db.listings, k)) ==> e.Swept? && MarksStale(db, e.sweep, k)
  {
    match e
    case Persisted(records, stamp) =>
      var ready := db.(marks := EnsureRows(db.marks, TargetScopes(db.listings, records)));
      PersistBatchRow(ready, records, stamp, k);
      FoldKeepsStale(ready.marks, Lookup(db.listings, k), Only(records, k), stamp);
    case Swept(sweep) =>
      SweepOnRow(db, CallOf(sweep), k);
    case _ =>
  }

  /** Every row that reads stale-absent was marked by one sweep of the history. */
  lemma {:induction false} EveryStaleRowWasMarked(lane: Option<nat>, history: seq<Event>, k: Key)
    requires ValidHistory(history) && StaleRow(Lookup(Replay(lane, history).listings, k))
    ensures exists i: nat :: MarkedBy(lane, history, k, Replay(lane, history).listings[k], i)
  {
    var front, e := history[..|history| - 1], history[|history| - 1];
    assert e in history && forall x :: x in front ==> x in history;
    var db := Replay(lane, front);
    if StaleRow(Lookup(db.listings, k)) {
      EveryStaleRowWasMarked(lane, front, k);
      var i: nat :| MarkedBy(lane, front, k, db.listings[k], i);
      assert history[..i] == front[..i];
      StaleComesFrom(db, e, k);
      assert MarkedBy(lane, history, k, Apply(db, e).listings[k], i);
    } else {
      StaleComesFrom(db, e, k);
      MarkingStamps(db, e.sweep, k);
      assert history[..|front|] == front;
      assert MarkedBy(lane, history, k, Apply(db, e).listings[k], |front|);
    }
  }

  /** What one stale mark needs of the sweep that makes it: the row's own scope, local evidence and the opt-in. */
  lemma StaleMarkIsOptedIn(db: Database, sweep: Sweep, k: Key)
    requires sweep.Valid() && MarksStale(db, sweep, k)
    ensures sweep.swept == db.listings[k].scope && sweep.evidence.kind.Local?
    ensures sweep.scope.Some? && sweep.scope.value.staleAllowed
  {
    CallIsValid(sweep);
    GateNeverStrengthens(sweep.scope, sweep.evidence);
    StaleVerdict(db, CallOf(sweep), k, db.listings[k].scope);
  }

  /** A listing reads as stale-absent only because a local sweep of its own scope, opted in to stale absence, marked it. */
  lemma StaleMarksAreLocal(lane: Option<nat>, history: seq<Event>, k: Key)
    requires ValidHistory(history)
    requires k in Replay(lane, history).listings
    requires Replay(lane, history).listings[k].delistReason == Some(AbsentStale)
    ensures exists e :: e in history && e.Swept? && e.sweep.evidence.kind.Local?
                        && e.sweep.scope.Some? && e.sweep.scope.value.staleAllowed
                        && e.sweep.swept == Replay(lane, history).listings[k].scope
                        && Replay(lane, history).listings[k].delistedAt == Some(e.sweep.at)
  {
    EveryStaleRowWasMarked(lane, history, k);
    var i: nat :| MarkedBy(lane, history, k, Replay(lane, history).listings[k], i);
    assert history[i] in history;
    StaleMarkIsOptedIn(Replay(lane, history[..i]), history[i].sweep, k);
  }

  /** The sweeps of one scope never opt in to stale absence; whatever the other scopes' sweeps do. */
  ghost predicate OptsOut(history: seq<Event>, scope: Option<ScopeKey>) {
    forall e :: e in history && e.Swept? && e.sweep.swept == scope && e.sweep.scope.Some? ==> !e.sweep.scope.value.staleAllowed
  }

  /** A scope that opts out, the NULL scope included, never holds a stale-absent listing. */
  lemma OptedOutIsNeverStale(lane: Option<nat>, history: seq<Event>, k: Key)
    requires ValidHistory(history) && k in Replay(lane, history).listings
    requires OptsOut(history, Replay(lane, history).listings[k].scope)
    ensures Replay(lane, history).listings[k].delistReason != Some(AbsentStale)
  {
    if Replay(lane, history).listings[k].delistReason == Some(AbsentStale) {
      StaleMarksAreLocal(lane, history, k);
    }
  }

  /**
   * The sweep earned the row's mark: it swept the row's scope, which `log` shows polled through the
   * whole grace, and the row was last written before that grace.
   */
  ghost predicate Earned(log: seq<Entry>, sweep: Sweep, row: Listing) {
    && sweep.scope.Some? && sweep.swept == row.scope && row.delistedAt == Some(sweep.at)
    && row.lastSeen < sweep.at - sweep.scope.value.grace
    && PolledSince(log, sweep.at - sweep.scope.value.grace, sweep.at)
  }

  /**
   * In every reachable state, a listing that reads stale-absent since T was marked by a sweep of its
   * own scope with some grace G: that scope was polled in an unbroken chain from no later than T - G
   * up to T, and the row had last been written before T - G.
   */
  lemma EveryStaleRowIsEarned(lane: Option<nat>, history: seq<Event>, k: Key)
    requires ValidHistory(history) && RunTableHonest(history)
    requires k in Replay(lane, history).listings && Replay(lane, history).listings[k].delistReason == Some(AbsentStale)
    ensures var row := Replay(lane, history).listings[k];
            exists i: nat :: i < |history| && history[i].Swept?
                             && Earned(LogOf(lane, history[..i + 1], row.scope), history[i].sweep, row)
  {
    EveryStaleRowWasMarked(lane, history, k);
    var row := Replay(lane, history).listings[k];
    var i: nat :| MarkedBy(lane, history, k, row, i);
    MarkIsEarned(lane, history, k, row, i);
  }

  lemma MarkIsEarned(lane: Option<nat>, history: seq<Event>, k: Key, row: Listing, i: nat)
    requires ValidHistory(history) && RunTableHonest(history) && MarkedBy(lane, history, k, row, i)
    ensures Earned(LogOf(lane, history[..i + 1], row.scope), history[i].sweep, row)
  {
    var front, sweep := history[..i], history[i].sweep;
    assert history[..i + 1] == front + [Swept(sweep)];
    PrefixIsHonest(history, i + 1);
    StaleMarkIsEarned(lane, front, sweep, k, row.scope);
  }

  lemma PrefixIsHonest(history: seq<Event>, n: nat)
    requires ValidHistory(history) && RunTableHonest(history) && n <= |history|
    ensures ValidHistory(history[..n]) && RunTableHonest(history[..n])
  {
    var front := history[..n];
    assert forall i :: 0 <= i < n ==> front[i] == history[i];
    assert forall e :: e in front ==> e in history;
  }

  // ── The last-seen clock ───────────────────────────────────────────────────

  /** The record at `i` of the batch wrote its key's current state (or created its row). */
  ghost predicate WritesCurrent(db: Database, e: Event, k: Key) {
    e.Persisted? &&
    var ready := db.(marks := EnsureRows(db.marks, TargetScopes(db.listings, e.records)));
    exists i :: 0 <= i < |Only(e.records, k)| && WritesAt(ready.marks, Lookup(db.listings, k), Only(e.records, k), e.stamp, i)
  }

  predicate WritesAt(m: Marks, row: Option<Listing>, own: seq<Record>, s: Stamp, i: nat)
    requires i < |own|
  {
    var pre := RowFold(m, row, own[..i], s);
    pre.None? || CurrentEligible(pre, s.observedAt, CompleteSweepAt(m, TargetScope(pre, own[i])))
  }

  /** Commit instants never run backwards. */
  ghost predicate ClockRuns(history: seq<Event>) {
    forall i, j :: 0 <= i < j < |history| && history[i].Persisted? && history[j].Persisted? ==>
      history[i].stamp.now <= history[j].stamp.now
  }

  lemma ObserveLastSeen(m: Marks, row: Option<Listing>, r: Record, s: Stamp)
    ensures ObserveRow(m, row, r, s).lastSeen
            == if row.None? || CurrentEligible(row, s.observedAt, CompleteSweepAt(m, TargetScope(row, r))) then s.now
               else row.value.lastSeen
  {
  }

  /** A row's last-seen instant moves only to the instant of a batch that wrote it. */
  lemma {:induction false} RowFoldLastSeen(m: Marks, row: Option<Listing>, own: seq<Record>, s: Stamp)
    ensures var out := RowFold(m, row, own, s);
            && (row.Some? ==> out.Some?)
            && (out.Some? ==> out.value.lastSeen == s.now || (row.Some? && out.value.lastSeen == row.value.lastSeen))
            && ((exists i :: 0 <= i < |own| && WritesAt(m, row, own, s, i)) ==> out.Some? && out.value.lastSeen == s.now)
  {
    if own != [] {
      var front := own[..|own| - 1];
      RowFoldLastSeen(m, row, front, s);
      ObserveLastSeen(m, RowFold(m, row, front, s), own[|own| - 1], s);
      forall i | 0 <= i < |own| && WritesAt(m, row, own, s, i)
        ensures var out := RowFold(m, row, own, s); out.Some? && out.value.lastSeen == s.now
      {
        if i < |front| {
          assert own[..i] == front[..i];
          assert WritesAt(m, row, front, s, i);
        } else {
          assert own[..i] == front;
        }
      }
    }
  }

  /** No batch wrote a row's current state after the row's last-seen instant. */
  lemma {:induction false} LastSeenIsLastWrite(lane: Option<nat>, history: seq<Event>, k: Key, i: nat)
    requires ClockRuns(history) && i < |history|
    requires WritesCurrent(Replay(lane, history[..i]), history[i], k)
    ensures var db := Replay(lane, history);
            k in db.listings && history[i].stamp.now <= db.listings[k].lastSeen
  {
    var front, e := history[..|history| - 1], history[|history| - 1];
    var db := Replay(lane, front);
    if i < |front| {
      assert front[..i] == history[..i];
      LastSeenIsLastWrite(lane, front, k, i);
    }
    if e.Persisted? { BatchLastSeen(db, e, k); }
  }

  /** A batch leaves a row's last-seen instant alone or moves it to its own, which it does when it writes the row. */
  lemma BatchLastSeen(db: Database, e: Event, k: Key)
    requires e.Persisted?
    ensures var after := Apply(db, e).listings;
            && (k in db.listings ==> k in after)
            && (k in after ==> after[k].lastSeen == e.stamp.now || (k in db.listings && after[k].lastSeen == db.listings[k].lastSeen))
            && (WritesCurrent(db, e, k) ==> k in after && after[k].lastSeen == e.stamp.now)
  {
    var ready := db.(marks := EnsureRows(db.marks, TargetScopes(db.listings, e.records)));
    PersistBatchRow(ready, e.records, e.stamp, k);
    RowFoldLastSeen(ready.marks, Lookup(db.listings, k), Only(e.records, k), e.stamp);
  }

  /** Some clock the guards compare was ahead of an observation of `k` at `at` that targets `scope`. */
  predicate Outdated(db: Database, k: Key, scope: Option<ScopeKey>, at: Time) {
    && k in db.listings
    && (Before(at, db.listings[k].lastObservedAt) || Before(at, db.listings[k].lastAbsenceAt)
        || Before(at, CompleteSweepAt(db.marks, scope)))
  }

  /** The scope the first record of the key targets when the batch commits. */
  function TargetIn(db: Database, e: Event, k: Key): Option<ScopeKey>
    requires e.Persisted? && Only(e.records, k) != []
  {
    TargetScope(Lookup(db.listings, k), Only(e.records, k)[0])
  }

  /** A batch that shows a key without writing its row was already outdated. */
  lemma UnwrittenIsOutdated(db: Database, e: Event, k: Key)
    requires e.Persisted? && Only(e.records, k) != [] && !WritesCurrent(db, e, k)
    requires AbsenceKept(Lookup(db.listings, k))
    ensures Outdated(db, k, TargetIn(db, e, k), e.stamp.observedAt)
  {
    var own, row := Only(e.records, k), Lookup(db.listings, k);
    var ready := db.(marks := EnsureRows(db.marks, TargetScopes(db.listings, e.records)));
    assert own[..0] == [];
    assert !WritesAt(ready.marks, row, own, e.stamp, 0);
    EnsureRowDecidesNothing(db.marks, None, TargetIn(db, e, k));
  }

  /**
   * The row behind a stale mark was last written before T - G; a batch that showed it later than that
   * was older than the row's newest observation or absence, or than its scope's newest complete
   * sweep, and still is.
   */
  lemma StaleMarkWasUnseen(lane: Option<nat>, history: seq<Event>, sweep: Sweep, k: Key, i: nat)
    requires ClockRuns(history) && ValidHistory(history + [Swept(sweep)])
    requires MarksStale(Replay(lane, history), sweep, k)
    requires i < |history| && history[i].Persisted? && Only(history[i].records, k) != []
    ensures sweep.scope.Some?
    ensures history[i].stamp.now < sweep.at - sweep.scope.value.grace
            || (!WritesCurrent(Replay(lane, history[..i]), history[i], k)
                && Outdated(Replay(lane, history), k, TargetIn(Replay(lane, history[..i]), history[i], k), history[i].stamp.observedAt))
  {
    var before, e := Replay(lane, history[..i]), history[i];
    assert Swept(sweep) in history + [Swept(sweep)];
    CallIsValid(sweep);
    GateNeverStrengthens(sweep.scope, sweep.evidence);
    StaleVerdict(Replay(lane, history), CallOf(sweep), k, Replay(lane, history).listings[k].scope);
    if WritesCurrent(before, e, k) {
      LastSeenIsLastWrite(lane, history, k, i);
    } else {
      AbsenceIsKept(lane, history[..i], k);
      UnwrittenIsOutdated(before, e, k);
      ClocksOnlyRise(lane, history, i, k, TargetIn(before, e, k));
    }
  }
}
