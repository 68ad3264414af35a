/**
 * Arrival order does not matter: when every sweep that may mark anything is complete and run times
 * are distinct, the three incremental guards add up to "a listing is shown exactly when its newest
 * observation is not older than its scope's newest complete sweep"
 * (src/hw_radar/acquisition/persist.py:207-262, src/hw_radar/acquisition/stages.py:450-532).
 */
module OrderIndependence {
  import opened Prelude
  import opened Contracts
  import opened Providers
  import opened Persist
  import opened Stages
  import opened PersistOrder
  import opened Pipeline
  import opened History

  // ── The declarative meaning ───────────────────────────────────────────────

  datatype Sighting = Sighting(at: Time, record: Record, retention: Retention)

  function LastFor(records: seq<Record>, k: Key): Option<Record> {
    var own := Only(records, k);
    if own == [] then None else Some(own[|own| - 1])
  }

  function Newer(prior: Option<Sighting>, r: Option<Record>, s: Stamp): Option<Sighting> {
    if r.Some? && (prior.None? || s.observedAt >= prior.value.at)
    then Some(Sighting(s.observedAt, r.value, s.retention)) else prior
  }

  /** The newest observation of a key, whatever order the history applied them in. */
  function Newest(history: seq<Event>, k: Key): Option<Sighting> {
    if history == [] then None
    else
      var prior, e := Newest(history[..|history| - 1], k), history[|history| - 1];
      if e.Persisted? then Newer(prior, LastFor(e.records, k), e.stamp) else prior
  }

  /** The instant of a complete sweep of `scope`, if the event is one. */
  function CompleteSweepOf(e: Event, scope: Option<ScopeKey>): Option<Time> {
    if e.Swept? then
      var gated := CallOf(e.sweep).gated;
      if gated.Some? && gated.value.complete && gated.value.scopeKey == scope then Some(gated.value.observedAt) else None
    else None
  }

  /** The newest complete sweep of a scope. */
  function NewestSweep(history: seq<Event>, scope: Option<ScopeKey>): Option<Time> {
    if history == [] then None
    else
      var prior, t := NewestSweep(history[..|history| - 1], scope), CompleteSweepOf(history[|history| - 1], scope);
      if t.Some? then Raised(prior, t.value) else prior
  }

  // ── The histories the promise covers ──────────────────────────────────────

  ghost predicate ObservedAt(history: seq<Event>, k: Key, at: Time) {
    exists e :: e in history && e.Persisted? && e.stamp.observedAt == at && LastFor(e.records, k).Some?
  }

  /** The event observes the key, or completely sweeps the scope, at `at`. */
  ghost predicate TimeTaken(e: Event, k: Key, scope: Option<ScopeKey>, at: Time) {
    || (e.Persisted? && e.stamp.observedAt == at && LastFor(e.records, k).Some?)
    || CompleteSweepOf(e, scope) == Some(at)
  }

  /** A record of the key names its one scope, or none once the key has a row to keep its scope from. */
  predicate KeepsScope(r: Record, scope: Option<ScopeKey>, seenBefore: bool) {
    r.scope == scope || (r.scope.None? && seenBefore)
  }

  /**
   * As far as one key and its scope go: each run has its own time, persists before its own absence,
   * and every sweep of the scope that marks is complete. Other keys and scopes are unconstrained.
   */
  ghost predicate InTurn(k: Key, scope: Option<ScopeKey>, front: seq<Event>, e: Event) {
    match e
    case Persisted(records, stamp) =>
      var own := Only(records, k);
      && (forall i :: 0 <= i < |own| ==> KeepsScope(own[i], scope, i > 0 || Newest(front, k).Some?))
      && (own != [] ==> forall x :: x in front ==> !TimeTaken(x, k, scope, stamp.observedAt))
    case Swept(sweep) =>
      && sweep.Valid()
      && (CallOf(sweep).gated.Some? && CallOf(sweep).gated.value.scopeKey == scope ==>
            && CallOf(sweep).gated.value.complete
            && (k in CallOf(sweep).gated.value.seen <==> ObservedAt(front, k, sweep.at)))
    case _ => true
  }

  ghost predicate Orderly(k: Key, scope: Option<ScopeKey>, history: seq<Event>) {
    history == [] ||
    (Orderly(k, scope, history[..|history| - 1]) && InTurn(k, scope, history[..|history| - 1], history[|history| - 1]))
  }

  // ── The invariant that ties the two together ──────────────────────────────

  /** What the row of a key means, given its newest sighting and its scope's newest complete sweep. */
  ghost predicate RowMeans(row: Option<Listing>, scope: Option<ScopeKey>, newest: Option<Sighting>, sweep: Option<Time>) {
    && (row.None? <==> newest.None?)
    && (row.Some? ==>
          var l, o := row.value, newest.value;
          && l.scope == scope
          && l.lastObservedAt.Some? && l.lastObservedAt.value <= o.at
          && (EffectiveAbsence(l).Some? ==> sweep.Some? && EffectiveAbsence(l).value <= sweep.value)
          && (l.Active() <==> AtOrAfter(o.at, sweep))
          && (l.Active() ==>
                l.lastObservedAt == Some(o.at) && l.content == o.record.content && l.retention == o.retention
                && l.delistReason.None?))
  }

  /** One observation keeps the row's meaning. */
  lemma ObserveMeans(m: Marks, row: Option<Listing>, r: Record, s: Stamp, scope: Option<ScopeKey>, newest: Option<Sighting>)
    requires KeepsScope(r, scope, row.Some?) && RowMeans(row, scope, newest, CompleteSweepAt(m, scope))
    ensures RowMeans(Some(ObserveRow(m, row, r, s)), scope, Newer(newest, Some(r), s), CompleteSweepAt(m, scope))
  {
  }

  lemma NewerTwice(newest: Option<Sighting>, first: Option<Record>, last: Record, s: Stamp)
    ensures Newer(Newer(newest, first, s), Some(last), s) == Newer(newest, Some(last), s)
  {
  }

  lemma {:induction false} RowFoldMeans(m: Marks, row: Option<Listing>, own: seq<Record>, s: Stamp, scope: Option<ScopeKey>, newest: Option<Sighting>)
    requires forall i :: 0 <= i < |own| ==> KeepsScope(own[i], scope, i > 0 || row.Some?)
    requires RowMeans(row, scope, newest, CompleteSweepAt(m, scope))
    ensures RowMeans(RowFold(m, row, own, s), scope,
                     Newer(newest, if own == [] then None else Some(own[|own| - 1]), s),
                     CompleteSweepAt(m, scope))
  {
    if own != [] {
      var front, last := own[..|own| - 1], own[|own| - 1];
      var before := Newer(newest, if front == [] then None else Some(front[|front| - 1]), s);
      RowFoldMeans(m, row, front, s, scope, newest);
      ObserveMeans(m, RowFold(m, row, front, s), last, s, scope, before);
      NewerTwice(newest, if front == [] then None else Some(front[|front| - 1]), last, s);
    }
  }

  lemma PersistMeans(db: Database, e: Event, k: Key, scope: Option<ScopeKey>, newest: Option<Sighting>)
    requires e.Persisted?
    requires forall i :: 0 <= i < |Only(e.records, k)| ==> KeepsScope(Only(e.records, k)[i], scope, i > 0 || newest.Some?)
    requires RowMeans(Lookup(db.listings, k), scope, newest, CompleteSweepAt(db.marks, scope))
    ensures RowMeans(Lookup(Apply(db, e).listings, k), scope, Newer(newest, LastFor(e.records, k), e.stamp),
                     CompleteSweepAt(Apply(db, e).marks, scope))
  {
    var ready := db.(marks := EnsureRows(db.marks, TargetScopes(db.listings, e.records)));
    PersistBatchRow(ready, e.records, e.stamp, k);
    RowFoldMeans(ready.marks, Lookup(db.listings, k), Only(e.records, k), e.stamp, scope, newest);
  }

  lemma SweepMeans(db: Database, e: Event, k: Key, scope: Option<ScopeKey>, newest: Option<Sighting>)
    requires e.Swept? && e.sweep.Valid() && HasMark(scope, db.marks.lane)
    requires CallOf(e.sweep).gated.Some? && CallOf(e.sweep).gated.value.scopeKey == scope ==> CallOf(e.sweep).gated.value.complete
    requires RowMeans(Lookup(db.listings, k), scope, newest, CompleteSweepAt(db.marks, scope))
    // A listing of the swept scope seen by the run is never older than the sweep; one not seen is
    // not of the sweep's own instant.
    requires CompleteSweepOf(e, scope).Some? && newest.Some? ==>
               && (k in CallOf(e.sweep).gated.value.seen ==> newest.value.at >= e.sweep.at)
               && (k !in CallOf(e.sweep).gated.value.seen ==> newest.value.at != e.sweep.at)
    ensures RowMeans(Lookup(Apply(db, e).listings, k), scope, newest, CompleteSweepAt(Apply(db, e).marks, scope))
    ensures CompleteSweepAt(Apply(db, e).marks, scope)
            == var t := CompleteSweepOf(e, scope); var w := CompleteSweepAt(db.marks, scope);
               if t.Some? then Raised(w, t.value) else w
  {
    var call := CallOf(e.sweep);
    CallIsValid(e.sweep);
    SweepRaisesOwnMark(db.marks, call, scope);
  }

  /** A key observed at `at` has a newest observation no older; its newest instant was observed. */
  lemma {:induction false} NewestCovers(history: seq<Event>, k: Key, at: Time)
    ensures ObservedAt(history, k, at) ==> Newest(history, k).Some? && Newest(history, k).value.at >= at
    ensures Newest(history, k).Some? && Newest(history, k).value.at == at ==> ObservedAt(history, k, at)
  {
    if history != [] {
      var front, e := history[..|history| - 1], history[|history| - 1];
      NewestCovers(front, k, at);
      assert history == front + [e];
      assert ObservedAt(front, k, at) ==> ObservedAt(history, k, at);
    }
  }

  /** In every orderly history the row of a key means what the newest sighting and the newest sweep of its scope say. */
  lemma {:induction false} GuardsAddUp(k: Key, scope: Option<ScopeKey>, lane: Option<nat>, history: seq<Event>)
    requires Orderly(k, scope, history) && HasMark(scope, lane)
    ensures var db := Replay(lane, history);
            && RowMeans(Lookup(db.listings, k), scope, Newest(history, k), NewestSweep(history, scope))
            && CompleteSweepAt(db.marks, scope) == NewestSweep(history, scope)
  {
    if history != [] {
      var front, e := history[..|history| - 1], history[|history| - 1];
      var db := Replay(lane, front);
      GuardsAddUp(k, scope, lane, front);
      match e
      case Persisted(_, _) =>
        PersistMeans(db, e, k, scope, Newest(front, k));
      case Swept(sweep) =>
        NewestCovers(front, k, sweep.at);
        CallIsValid(sweep);
        LaneStays(lane, front);
        SweepMeans(db, e, k, scope, Newest(front, k));
      case _ =>
    }
  }

  // ── Arrival order ─────────────────────────────────────────────────────────

  /** What a reader of the live offers sees of one key: nothing, or its content and observation instant. */
  datatype Offer = Hidden | Shown(at: Time, content: Content, retention: Retention, scope: Option<ScopeKey>)

  function View(db: Database, k: Key): Offer {
    if k in db.listings && db.listings[k].Active() && db.listings[k].lastObservedAt.Some? then
      var l := db.listings[k];
      Shown(l.lastObservedAt.value, l.content, l.retention, l.scope)
    else Hidden
  }

  /** The newest sweep is the maximum over the events, so their order cannot matter. */
  lemma {:induction false} NewestSweepIsMaximum(history: seq<Event>, scope: Option<ScopeKey>)
    ensures var newest := NewestSweep(history, scope);
            && (forall e :: e in history && CompleteSweepOf(e, scope).Some? ==>
                  newest.Some? && CompleteSweepOf(e, scope).value <= newest.value)
            && (newest.Some? ==> exists e :: e in history && CompleteSweepOf(e, scope) == newest)
  {
    if history != [] {
      var front, e := history[..|history| - 1], history[|history| - 1];
      NewestSweepIsMaximum(front, scope);
      assert history == front + [e];
      assert e in history && forall x :: x in front ==> x in history;
    }
  }

  ghost predicate Sights(e: Event, k: Key, o: Sighting) {
    e.Persisted? && LastFor(e.records, k) == Some(o.record) && e.stamp.observedAt == o.at && e.stamp.retention == o.retention
  }

  lemma {:induction false} NewestIsMaximum(history: seq<Event>, k: Key)
    ensures var newest := Newest(history, k);
            && (forall e :: e in history && e.Persisted? && LastFor(e.records, k).Some? ==>
                  newest.Some? && e.stamp.observedAt <= newest.value.at)
            && (newest.Some? ==> exists e :: e in history && Sights(e, k, newest.value))
  {
    if history != [] {
      var front, e := history[..|history| - 1], history[|history| - 1];
      NewestIsMaximum(front, k);
      assert history == front + [e];
      assert e in history && forall x :: x in front ==> x in history;
      if e.Persisted? && LastFor(e.records, k).Some? && Newest(history, k) != Newest(front, k) {
        assert Sights(e, k, Newest(history, k).value);
      }
    }
  }

  /** Two persist transactions that observe the key at one instant are one transaction. */
  lemma {:induction false} RunTimesAreDistinct(k: Key, scope: Option<ScopeKey>, history: seq<Event>, x: Event, y: Event)
    requires Orderly(k, scope, history) && x in history && y in history
    requires x.Persisted? && y.Persisted? && x.stamp.observedAt == y.stamp.observedAt
    requires LastFor(x.records, k).Some? && LastFor(y.records, k).Some?
    ensures x == y
  {
    var front, e := history[..|history| - 1], history[|history| - 1];
    assert history == front + [e];
    if x in front && y in front {
      RunTimesAreDistinct(k, scope, front, x, y);
    }
  }

  ghost predicate SameTransactions(a: seq<Event>, b: seq<Event>) {
    forall e :: e in a <==> e in b
  }

  lemma SameNewest(k: Key, scope: Option<ScopeKey>, a: seq<Event>, b: seq<Event>)
    requires Orderly(k, scope, a) && SameTransactions(a, b)
    ensures Newest(a, k) == Newest(b, k)
  {
    NewestIsMaximum(a, k);
    NewestIsMaximum(b, k);
    if Newest(a, k).Some? {
      var x :| x in a && Sights(x, k, Newest(a, k).value);
      assert x in b;
      var y :| y in b && Sights(y, k, Newest(b, k).value);
      assert y in a;
      RunTimesAreDistinct(k, scope, a, x, y);
    }
  }

  lemma SameNewestSweep(a: seq<Event>, b: seq<Event>, scope: Option<ScopeKey>)
    requires SameTransactions(a, b)
    ensures NewestSweep(a, scope) == NewestSweep(b, scope)
  {
    NewestSweepIsMaximum(a, scope);
    NewestSweepIsMaximum(b, scope);
  }

  /** Two orders of the same transactions show the same offer. */
  lemma ArrivalOrderDoesNotMatter(k: Key, scope: Option<ScopeKey>, lane: Option<nat>, a: seq<Event>, b: seq<Event>)
    requires Orderly(k, scope, a) && Orderly(k, scope, b) && SameTransactions(a, b) && HasMark(scope, lane)
    ensures View(Replay(lane, a), k) == View(Replay(lane, b), k)
  {
    GuardsAddUp(k, scope, lane, a);
    GuardsAddUp(k, scope, lane, b);
    SameNewest(k, scope, a, b);
    SameNewestSweep(a, b, scope);
  }

  // ── Why the conditions are there ──────────────────────────────────────────

  /** A complete local sweep of one scope that saw nothing. */
  function EmptySweep(scope: ScopeKey, at: Time): Event {
    var claim := DelistScope({}, at, true, 0, Some(scope), true);
    Swept(Sweep(LocalEvidence(Some(claim)), Some(claim), Some(scope), at, {}, false, None))
  }

  /** The row of `k` and the complete-sweep watermarks: all that the histories below touch. */
  ghost predicate Shows(db: Database, k: Key, row: Option<Listing>, sweeps: map<ScopeKey, Time>) {
    && Lookup(db.listings, k) == row
    && forall x: ScopeKey :: CompleteSweepAt(db.marks, Some(x)) == Lookup(sweeps, x)
  }

  lemma RecordShows(db: Database, r: Record, s: Stamp, row: Option<Listing>, sweeps: map<ScopeKey, Time>)
    requires Shows(db, r.key, row, sweeps) && r.scope.Some?
    ensures Shows(PersistLocal(db, [r], s), r.key, Some(Observe(row, r, s, Lookup(sweeps, r.scope.value))), sweeps)
  {
    var ready := db.(marks := EnsureRows(db.marks, TargetScopes(db.listings, [r])));
    assert [r][..|[r]| - 1] == [];
    assert PersistBatch(ready, [], s) == ready;
  }

  /** The row an empty complete sweep of `scope` leaves. */
  function Contradict(row: Option<Listing>, scope: ScopeKey, at: Time): Option<Listing> {
    if row.Some? && row.value.Active() && row.value.scope == Some(scope) && AtOrAfter(at, row.value.lastObservedAt)
    then Some(MarkDelisted(row.value, AbsentFromSweep, at)) else row
  }

  lemma SweepShows(db: Database, k: Key, scope: ScopeKey, at: Time, row: Option<Listing>, sweeps: map<ScopeKey, Time>)
    requires Shows(db, k, row, sweeps) && scope !in sweeps
    ensures Shows(Apply(db, EmptySweep(scope, at)), k, Contradict(row, scope, at), sweeps[scope := at])
  {
    var call := CallOf(EmptySweep(scope, at).sweep);
    CallIsValid(EmptySweep(scope, at).sweep);
    forall x: ScopeKey
      ensures CompleteSweepAt(AbsenceLocal(db, call).marks, Some(x)) == Lookup(sweeps[scope := at], x)
    {
      SweepRaisesOwnMark(db.marks, call, Some(x));
    }
  }

  lemma ReplayTwo(x: Event, y: Event)
    ensures Replay(None, [x, y]) == Apply(Apply(Replay(None, []), x), y)
  {
    assert [x, y][..1] == [x] && [x][..0] == [];
  }

  lemma ReplayThree(x: Event, y: Event, z: Event)
    ensures Replay(None, [x, y, z]) == Apply(Apply(Apply(Replay(None, []), x), y), z)
  {
    assert [x, y, z][..2] == [x, y];
    ReplayTwo(x, y);
  }

  /**
   * Distinct run times are needed: a run and a complete sweep of another run at one instant end
   * differently in the two orders.
   */
  lemma EqualTimesAreOrderSensitive(r: Record, s: Stamp, scope: ScopeKey)
    requires r.scope == Some(scope)
    ensures var shown, swept := Persisted([r], s), EmptySweep(scope, s.observedAt);
            && swept.sweep.Valid()
            && View(Replay(None, [shown, swept]), r.key) == Hidden
            && View(Replay(None, [swept, shown]), r.key).Shown?
  {
    var shown, swept, empty := Persisted([r], s), EmptySweep(scope, s.observedAt), Replay(None, []);
    ReplayTwo(shown, swept);
    ReplayTwo(swept, shown);
    RecordShows(empty, r, s, None, map[]);
    SweepShows(Apply(empty, shown), r.key, scope, s.observedAt, Some(Observe(None, r, s, None)), map[]);
    SweepShows(empty, r.key, scope, s.observedAt, None, map[]);
    RecordShows(Apply(empty, swept), r, s, None, map[scope := s.observedAt]);
  }

  /**
   * One scope per key is needed: a key that moves to another scope before its old scope's sweep is
   * hidden or shown by which of the two commits first.
   */
  lemma MovedKeyIsOrderSensitive(r: Record, s: Stamp, moved: Record, later: Stamp, scope: ScopeKey, swept: Time)
    requires r.scope == Some(scope) && moved.key == r.key && moved.scope.Some? && moved.scope != r.scope
    requires s.observedAt < later.observedAt < swept
    ensures var first, second, sweep := Persisted([r], s), Persisted([moved], later), EmptySweep(scope, swept);
            && View(Replay(None, [first, sweep, second]), r.key) == Hidden
            && View(Replay(None, [first, second, sweep]), r.key).Shown?
  {
    var first, second, sweep := Persisted([r], s), Persisted([moved], later), EmptySweep(scope, swept);
    var db, row := Apply(Replay(None, []), first), Observe(None, r, s, None);
    ReplayThree(first, sweep, second);
    ReplayThree(first, second, sweep);
    RecordShows(Replay(None, []), r, s, None, map[]);
    MoveAfterSweep(db, r.key, row, moved, later, scope, swept);
    MoveBeforeSweep(db, r.key, row, moved, later, scope, swept);
  }

  lemma MoveAfterSweep(db: Database, k: Key, row: Listing, moved: Record, later: Stamp, scope: ScopeKey, swept: Time)
    requires Shows(db, k, Some(row), map[]) && row.Active() && row.scope == Some(scope)
    requires moved.key == k && moved.scope.Some? && moved.scope != row.scope
    requires AtOrAfter(later.observedAt, row.lastObservedAt) && later.observedAt < swept
    ensures View(Apply(Apply(db, EmptySweep(scope, swept)), Persisted([moved], later)), k) == Hidden
  {
    SweepShows(db, k, scope, swept, Some(row), map[]);
    RecordShows(Apply(db, EmptySweep(scope, swept)), moved, later, Contradict(Some(row), scope, swept), map[scope := swept]);
  }

  lemma MoveBeforeSweep(db: Database, k: Key, row: Listing, moved: Record, later: Stamp, scope: ScopeKey, swept: Time)
    requires Shows(db, k, Some(row), map[]) && row.lastAbsenceAt.None? && row.Active() && row.scope == Some(scope)
    requires moved.key == k && moved.scope.Some? && moved.scope != row.scope
    requires AtOrAfter(later.observedAt, row.lastObservedAt) && later.observedAt < swept
    ensures View(Apply(Apply(db, Persisted([moved], later)), EmptySweep(scope, swept)), k).Shown?
  {
    RecordShows(db, moved, later, Some(row), map[]);
    SweepShows(Apply(db, Persisted([moved], later)), k, scope, swept, Some(Observe(Some(row), moved, later, None)), map[]);
  }
}
