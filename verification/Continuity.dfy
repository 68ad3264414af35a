/**
 * What a stale-absence mark proves: the scope was polled without a gap or a break for the whole
 * grace (src/hw_radar/acquisition/stages.py:311-392, 408-466), and which runs may contribute
 * (src/hw_radar/acquisition/providers.py:52-133). The NULL scope, whose predecessor comes from the
 * site's run table and which every scoped run breaks, is covered beside the named scopes.
 */
module Continuity {
  import opened Prelude
  import opened Contracts
  import opened Providers
  import opened Persist
  import opened Stages
  import opened PersistOrder
  import opened Pipeline
  import opened History

  // ── One scope's polling log ───────────────────────────────────────────────

  datatype Entry =
    | Poll(sweep: Sweep, tolerance: Duration)   // an eligible sweep and the tolerance then in force
    | Break(at: Time)
  {
    function When(): Time {
      if Poll? then sweep.at else at
    }
  }

  /** A FULL run's sweep writes the NULL lane: it swept the NULL scope, or it owes that scope a break. */
  predicate TouchesLane(s: Sweep) {
    s.swept.None? || !s.nullScopeSwept
  }

  /** What one event means to one scope; without a lane there is no NULL row to log for. */
  function EntryOf(db: Database, e: Event, scope: Option<ScopeKey>): seq<Entry> {
    match e
    case Swept(sweep) =>
      if scope.None? && (db.marks.lane.None? || !TouchesLane(sweep)) then []
      else if sweep.swept != scope then (if scope.None? then [Break(sweep.at)] else [])
      else if CallOf(sweep).eligible then [Poll(sweep, Tolerance(db.marks.lane))]
      else [Break(sweep.at)]
    case ImportRejected(s, at) => if Some(s) == scope then [Break(at)] else []
    case _ => []
  }

  /** The polls and breaks of one scope, in the order they committed. */
  function LogOf(lane: Option<nat>, history: seq<Event>, scope: Option<ScopeKey>): seq<Entry> {
    if history == [] then []
    else
      var front := history[..|history| - 1];
      LogOf(lane, front, scope) + EntryOf(Replay(lane, front), history[|history| - 1], scope)
  }

  /** The predecessor a poll measures its gap from: the run table's for the NULL scope, else the row's own. */
  function Previous(w: Watermark, sweep: Sweep): Option<Time> {
    if sweep.swept.None? then sweep.nullPrevious else w.lastEligibleAt
  }

  function Step(w: Watermark, entry: Entry): Watermark {
    match entry
    case Poll(sweep, tolerance) => RecordOnRow(w, sweep.at, Previous(w, sweep), tolerance)
    case Break(at) => BreakRow(w, at)
  }

  function FoldLog(log: seq<Entry>): Watermark {
    if log == [] then BLANK else Step(FoldLog(log[..|log| - 1]), log[|log| - 1])
  }

  lemma FoldSnoc(log: seq<Entry>, entry: Entry)
    ensures FoldLog(log + [entry]) == Step(FoldLog(log), entry)
  {
    assert (log + [entry])[..|log|] == log;
  }

  /** Equal but for the complete-sweep column, which continuity never reads. */
  predicate SameContinuity(a: Watermark, b: Watermark) {
    a.(completeSweepAt := None) == b.(completeSweepAt := None)
  }

  function RowOrBlank(m: Marks, scope: Option<ScopeKey>): Watermark {
    var row := RowOf(m, scope);
    if row.None? then BLANK else row.value
  }

  /** The row of a scope is the fold of that scope's own log. */
  lemma {:induction false} RowIsItsLog(lane: Option<nat>, history: seq<Event>, scope: Option<ScopeKey>)
    requires ValidHistory(history)
    ensures SameContinuity(RowOrBlank(Replay(lane, history).marks, scope), FoldLog(LogOf(lane, history, scope)))
  {
    if history != [] {
      var front, e := history[..|history| - 1], history[|history| - 1];
      assert e in history && forall x :: x in front ==> x in history;
      RowIsItsLog(lane, front, scope);
      var db, log := Replay(lane, front), LogOf(lane, front, scope);
      EventStepsRow(db, e, scope);
      FoldOneMore(log, EntryOf(db, e, scope));
      StepIgnoresSweeps(RowOrBlank(db.marks, scope), FoldLog(log), EntryOf(db, e, scope));
    }
  }

  lemma FoldOneMore(log: seq<Entry>, entry: seq<Entry>)
    requires |entry| <= 1
    ensures FoldLog(log + entry) == if entry == [] then FoldLog(log) else Step(FoldLog(log), entry[0])
  {
    if entry == [] {
      assert log + entry == log;
    } else {
      assert entry == [entry[0]];
      FoldSnoc(log, entry[0]);
    }
  }

  lemma StepIgnoresSweeps(a: Watermark, b: Watermark, entry: seq<Entry>)
    requires SameContinuity(a, b)
    ensures entry != [] ==> SameContinuity(Step(a, entry[0]), Step(b, entry[0]))
  {
  }

  lemma EventStepsRow(db: Database, e: Event, scope: Option<ScopeKey>)
    requires e.Swept? ==> e.sweep.Valid()
    ensures var entry, before := EntryOf(db, e, scope), RowOrBlank(db.marks, scope);
            SameContinuity(RowOrBlank(Apply(db, e).marks, scope), if entry == [] then before else Step(before, entry[0]))
  {
    if e.Swept? {
      CallIsValid(e.sweep);
      CallStepsRow(db.marks, CallOf(e.sweep), scope);
    }
  }

  /** The row of `scope` after the continuity half of a call. */
  function CallOnRow(w: Watermark, m: Marks, call: AbsenceCall, scope: Option<ScopeKey>): Watermark {
    if scope.None? && (m.lane.None? || (call.swept.Some? && call.nullScopeSwept)) then w
    else if call.swept != scope then (if scope.None? then BreakRow(w, call.at) else w)
    else if call.eligible then
      RecordOnRow(w, call.at, if scope.None? then call.nullPrevious else w.lastEligibleAt, Tolerance(m.lane))
    else BreakRow(w, call.at)
  }

  lemma ContinuityStepsRow(m: Marks, call: AbsenceCall, scope: Option<ScopeKey>)
    requires call.swept.Some? ==> call.swept.value in m.scopes
    ensures RowOrBlank(ContinuityStep(m, call).0, scope) == CallOnRow(RowOrBlank(m, scope), m, call, scope)
  {
  }

  lemma CallStepsRow(m: Marks, call: AbsenceCall, scope: Option<ScopeKey>)
    requires call.Valid()
    ensures SameContinuity(RowOrBlank(AbsenceLocal(Database(map[], m), call).marks, scope),
                           CallOnRow(RowOrBlank(m, scope), m, call, scope))
  {
    var ready := EnsureRow(m, call.swept);
    ContinuityStepsRow(ready, call, scope);
    assert RowOrBlank(ready, scope) == RowOrBlank(m, scope);
  }

  /** The gap is within fifteen minutes, or within two of the lane's intervals. */
  predicate Near(gap: Duration, lane: Option<Lane>) {
    gap <= 900_000_000 || (lane.Some? && gap <= 2 * lane.value.intervalS * 1_000_000)
  }

  /** A changed schedule changes the interval that later gaps are measured by, and nothing else. */
  lemma ReschedulingIs(db: Database, i: nat)
    ensures var db' := Apply(db, Rescheduled(i));
            && db'.listings == db.listings && db'.marks.scopes == db.marks.scopes
            && db'.marks.lane == if db.marks.lane.None? then None else Some(Lane(i, db.marks.lane.value.mark))
  {
  }

  /**
   * Which gaps link: an accepted poll keeps an open window when its predecessor is at most fifteen
   * minutes or two lane intervals back, and otherwise starts the window anew.
   */
  lemma LinksExactlyWhen(m: Marks, call: AbsenceCall)
    requires call.Valid() && call.eligible && (call.swept.None? ==> m.lane.Some?)
    requires !SweepRefused(RowOrBlank(m, call.swept), call.at)
    ensures var w := RowOrBlank(m, call.swept);
            var w' := RowOrBlank(AbsenceLocal(Database(map[], m), call).marks, call.swept);
            var previous := if call.swept.None? then call.nullPrevious else w.lastEligibleAt;
            w'.continuousSince
            == if w.continuousSince.Some? && previous.Some? && Near(call.at - previous.value, m.lane) then w.continuousSince
               else Some(call.at)
  {
    CallStepsRow(m, call, call.swept);
  }

  // ── Chains of polls ───────────────────────────────────────────────────────

  /** Polls in log order, every gap within the tolerance then in force. */
  ghost predicate Linked(log: seq<Entry>, links: seq<nat>) {
    && (forall j :: 0 <= j < |links| ==> links[j] < |log| && log[links[j]].Poll?)
    && (forall j :: 0 < j < |links| ==>
          && links[j - 1] < links[j]
          && 0 <= log[links[j]].sweep.at - log[links[j - 1]].sweep.at <= log[links[j]].tolerance)
  }

  /** No break recorded from `start` on, and every earlier break strictly before `from`. */
  ghost predicate Unbroken(log: seq<Entry>, start: nat, from: Time) {
    forall i :: 0 <= i < |log| && log[i].Break? ==> i < start && log[i].at < from
  }

  /** A chain of polls from `from` to `to`. */
  ghost predicate Chain(log: seq<Entry>, links: seq<nat>, from: Time, to: Time) {
    && links != [] && Linked(log, links) && Unbroken(log, links[0], from)
    && log[links[0]].sweep.at == from && log[links[|links| - 1]].sweep.at == to
  }

  ghost predicate PolledThrough(log: seq<Entry>, from: Time, to: Time) {
    exists links :: Chain(log, links, from, to)
  }

  /** The log holds a chain reaching from no later than `cutoff` up to `to`. */
  ghost predicate PolledSince(log: seq<Entry>, cutoff: Time, to: Time) {
    exists from :: from <= cutoff && PolledThrough(log, from, to)
  }

  /** The row's break column bounds every break of the log. */
  lemma {:induction false} BreaksAreBounded(log: seq<Entry>)
    ensures forall i :: 0 <= i < |log| && log[i].Break? ==>
              FoldLog(log).brokenAt.Some? && log[i].at <= FoldLog(log).brokenAt.value
  {
    if log != [] {
      var front := log[..|log| - 1];
      BreaksAreBounded(front);
      assert forall i :: 0 <= i < |front| ==> front[i] == log[i];
    }
  }

  lemma ChainGrows(log: seq<Entry>, links: seq<nat>, from: Time, to: Time, entry: Entry)
    requires Chain(log, links, from, to) && entry.Poll?
    ensures Chain(log + [entry], links, from, to)
    ensures 0 <= entry.sweep.at - to <= entry.tolerance ==>
              Chain(log + [entry], links + [|log|], from, entry.sweep.at)
  {
    var log' := log + [entry];
    assert Linked(log', links) by {
      assert forall i :: 0 <= i < |log| ==> log'[i] == log[i];
    }
    assert Unbroken(log', links[0], from);
    if 0 <= entry.sweep.at - to <= entry.tolerance {
      LinkedSnoc(log', links, |log|);
    }
  }

  lemma LinkedSnoc(log: seq<Entry>, links: seq<nat>, next: nat)
    requires links != [] && Linked(log, links) && next < |log| && log[next].Poll? && links[|links| - 1] < next
    requires 0 <= log[next].sweep.at - log[links[|links| - 1]].sweep.at <= log[next].tolerance
    ensures Linked(log, links + [next])
  {
    var links' := links + [next];
    forall j | 0 < j < |links'|
      ensures links'[j - 1] < links'[j]
      ensures 0 <= log[links'[j]].sweep.at - log[links'[j - 1]].sweep.at <= log[links'[j]].tolerance
    {
      assert links'[j - 1] == links[j - 1] && (j < |links| ==> links'[j] == links[j]);
    }
  }

  /** While a window is open, no entry is later than its newest poll and no break reaches its start. */
  lemma {:induction false} WindowIsNewest(log: seq<Entry>)
    ensures var w := FoldLog(log);
            && (forall i :: 0 <= i < |log| ==>
                  (w.brokenAt.Some? && log[i].When() <= w.brokenAt.value)
                  || (w.lastEligibleAt.Some? && log[i].When() <= w.lastEligibleAt.value))
            && (w.continuousSince.Some? ==>
                  && w.lastEligibleAt.Some? && w.continuousSince.value <= w.lastEligibleAt.value
                  && (w.brokenAt.Some? ==> w.brokenAt.value < w.continuousSince.value))
  {
    if log != [] {
      var front := log[..|log| - 1];
      WindowIsNewest(front);
      assert forall i :: 0 <= i < |front| ==> front[i] == log[i];
    }
  }

  /**
   * The NULL scope's predecessor is the start of an earlier FULL run, and that run's own absence
   * transaction, no earlier than its start, is in the log.
   */
  ghost predicate PredecessorsCommitted(log: seq<Entry>) {
    forall i :: 0 <= i < |log| && log[i].Poll? && log[i].sweep.swept.None? && log[i].sweep.nullPrevious.Some? ==>
      exists j :: 0 <= j < i && log[i].sweep.nullPrevious.value <= log[j].When()
  }

  /**
   * Soundness: the start a row reports is the start of a chain reaching its newest poll. For the NULL
   * scope this needs the site-wide lookup to be at most as new as the row's own newest poll, which
   * it is while the window is open: a newer run would have broken it.
   */
  lemma {:induction false} SinceStartsAChain(log: seq<Entry>)
    requires PredecessorsCommitted(log)
    ensures var w := FoldLog(log);
            w.continuousSince.Some? ==>
              w.lastEligibleAt.Some? && w.continuousSince.value <= w.lastEligibleAt.value
              && PolledThrough(log, w.continuousSince.value, w.lastEligibleAt.value)
  {
    if log != [] {
      var front, entry := log[..|log| - 1], log[|log| - 1];
      assert log == front + [entry];
      assert forall i :: 0 <= i < |front| ==> front[i] == log[i];
      SinceStartsAChain(front);
      var v, w := FoldLog(front), FoldLog(log);
      if entry.Poll? && w.continuousSince.Some? {
        WindowIsNewest(front);
        if w.continuousSince == v.continuousSince {
          var links :| Chain(front, links, v.continuousSince.value, v.lastEligibleAt.value);
          ChainGrows(front, links, v.continuousSince.value, v.lastEligibleAt.value, entry);
        } else {
          BreaksAreBounded(front);
          assert Chain(log, [|front|], entry.sweep.at, entry.sweep.at);
        }
      }
    }
  }

  /** Every column of the row was written by some entry. */
  lemma {:induction false} ColumnsComeFromEntries(log: seq<Entry>, bound: Time)
    ensures (forall i :: 0 <= i < |log| && log[i].Break? ==> log[i].at < bound) ==>
              FoldLog(log).brokenAt.Some? ==> FoldLog(log).brokenAt.value < bound
    ensures (forall i :: 0 <= i < |log| && log[i].Poll? ==> log[i].sweep.at <= bound) ==>
              FoldLog(log).lastEligibleAt.Some? ==> FoldLog(log).lastEligibleAt.value <= bound
  {
    if log != [] {
      var front := log[..|log| - 1];
      ColumnsComeFromEntries(front, bound);
      assert forall i :: 0 <= i < |front| ==> front[i] == log[i];
    }
  }

  /** The gap the poll at `i` is judged by is within the tolerance then in force. */
  predicate InTolerance(log: seq<Entry>, i: nat)
    requires 0 < i < |log| && log[i].Poll?
  {
    if log[i].sweep.swept.None? then
      log[i].sweep.nullPrevious.Some? && log[i].sweep.at - log[i].sweep.nullPrevious.value <= log[i].tolerance
    else log[i].sweep.at - log[i - 1].When() <= log[i].tolerance
  }

  /** Polls in order from index `start` on, within tolerance, unbroken, and later than all before. */
  ghost predicate SteadyFrom(log: seq<Entry>, start: nat) {
    && start < |log|
    && (forall i :: start <= i < |log| ==> log[i].Poll?)
    && (forall i :: 0 <= i < start ==>
          if log[i].Break? then log[i].at < log[start].sweep.at else log[i].sweep.at <= log[start].sweep.at)
    && (forall i :: start < i < |log| ==> log[i - 1].sweep.at <= log[i].sweep.at && InTolerance(log, i))
  }

  lemma SteadyPrefix(log: seq<Entry>, start: nat)
    requires SteadyFrom(log, start) && start < |log| - 1
    ensures SteadyFrom(log[..|log| - 1], start)
  {
    var front := log[..|log| - 1];
    assert forall i :: 0 <= i < |front| ==> front[i] == log[i];
    forall i | start < i < |front| ensures front[i - 1].sweep.at <= front[i].sweep.at && InTolerance(front, i) {
      assert InTolerance(log, i);
    }
  }

  /** Completeness: steady polling from an instant on is recorded at least that far back. */
  lemma {:induction false} SteadyPollingIsRecorded(log: seq<Entry>, start: nat)
    requires SteadyFrom(log, start)
    ensures var w := FoldLog(log);
            && w.continuousSince.Some? && w.continuousSince.value <= log[start].sweep.at
            && w.lastEligibleAt == Some(log[|log| - 1].sweep.at)
            && (w.brokenAt.Some? ==> w.brokenAt.value < log[start].sweep.at)
  {
    var front, entry := log[..|log| - 1], log[|log| - 1];
    assert forall i :: 0 <= i < |front| ==> front[i] == log[i];
    if start == |front| {
      ColumnsComeFromEntries(front, entry.sweep.at);
      WindowIsNewest(front);
    } else {
      SteadyPrefix(log, start);
      SteadyPollingIsRecorded(front, start);
      SteadyIsInOrder(log, start, |front|);
      assert InTolerance(log, |front|);
    }
  }

  lemma {:induction false} SteadyIsInOrder(log: seq<Entry>, start: nat, i: nat)
    requires SteadyFrom(log, start) && start <= i < |log|
    ensures log[start].sweep.at <= log[i].sweep.at
  {
    if start < i {
      SteadyIsInOrder(log, start, i - 1);
    }
  }

  // ── Stale marks over whole histories ──────────────────────────────────────

  /** A sweep turns the row of `k` from active to absent-stale. */
  ghost predicate MarksStale(db: Database, sweep: Sweep, k: Key) {
    && k in db.listings && db.listings[k].Active()
    && k in Apply(db, Swept(sweep)).listings
    && Apply(db, Swept(sweep)).listings[k].delistReason == Some(AbsentStale)
    && !Apply(db, Swept(sweep)).listings[k].Active()
  }

  /**
   * The run table the NULL scope's predecessor is read from: a successful FULL run is in it only after
   * its own absence transaction, which wrote the NULL lane, and it did not start after that
   * transaction's event time.
   */
  ghost predicate RunTableHonest(history: seq<Event>) {
    forall i :: 0 <= i < |history| && history[i].Swept? && history[i].sweep.swept.None? && history[i].sweep.nullPrevious.Some? ==>
      exists j :: 0 <= j < i && LaneWrittenBy(history[j], history[i].sweep.nullPrevious.value)
  }

  predicate LaneWrittenBy(e: Event, start: Time) {
    e.Swept? && TouchesLane(e.sweep) && start <= e.sweep.at
  }

  lemma {:induction false} NoLaneNoLog(lane: Option<nat>, history: seq<Event>)
    ensures lane.None? ==> LogOf(lane, history, None) == []
  {
    if history != [] {
      NoLaneNoLog(lane, history[..|history| - 1]);
      LaneStays(lane, history[..|history| - 1]);
    }
  }

  /** Every sweep that writes the NULL lane is in the NULL scope's log. */
  lemma {:induction false} LaneWritesAreLogged(lane: Option<nat>, history: seq<Event>, j: nat)
    requires lane.Some? && j < |history| && history[j].Swept? && TouchesLane(history[j].sweep)
    ensures exists i :: 0 <= i < |LogOf(lane, history, None)| && LogOf(lane, history, None)[i].When() == history[j].sweep.at
  {
    var front, e := history[..|history| - 1], history[|history| - 1];
    var log := LogOf(lane, front, None);
    if j < |front| {
      LaneWritesAreLogged(lane, front, j);
      var i :| 0 <= i < |log| && log[i].When() == front[j].sweep.at;
      assert LogOf(lane, history, None)[i] == log[i];
    } else {
      LaneStays(lane, front);
      assert LogOf(lane, history, None)[|log|].When() == e.sweep.at;
    }
  }

  /** An honest run table makes every predecessor of a log a committed one. */
  lemma {:induction false} PredecessorsAreLogged(lane: Option<nat>, history: seq<Event>, scope: Option<ScopeKey>)
    requires RunTableHonest(history)
    ensures PredecessorsCommitted(LogOf(lane, history, scope))
  {
    if history != [] {
      var front, e := history[..|history| - 1], history[|history| - 1];
      assert forall i :: 0 <= i < |front| ==> front[i] == history[i];
      PredecessorsAreLogged(lane, front, scope);
      var log, entry := LogOf(lane, front, scope), EntryOf(Replay(lane, front), e, scope);
      if entry != [] && entry[0].Poll? && e.sweep.swept.None? && e.sweep.nullPrevious.Some? {
        var j :| 0 <= j < |front| && LaneWrittenBy(history[j], e.sweep.nullPrevious.value);
        LaneStays(lane, front);
        LaneWritesAreLogged(lane, front, j);
      }
      assert forall i :: 0 <= i < |log| ==> (log + entry)[i] == log[i];
    }
  }

  /**
   * A stale mark at T with grace G was earned: its scope was polled in an unbroken chain from no
   * later than T - G up to T, and the row was last written before T - G.
   */
  lemma StaleMarkIsEarned(lane: Option<nat>, history: seq<Event>, sweep: Sweep, k: Key, scope: Option<ScopeKey>)
    requires ValidHistory(history + [Swept(sweep)]) && RunTableHonest(history + [Swept(sweep)])
    requires MarksStale(Replay(lane, history), sweep, k)
    requires Replay(lane, history).listings[k].scope == scope
    ensures sweep.swept == scope && sweep.scope.Some? && sweep.scope.value.staleAllowed && sweep.evidence.kind.Local?
    ensures PolledSince(LogOf(lane, history + [Swept(sweep)], scope), sweep.at - sweep.scope.value.grace, sweep.at)
    ensures Replay(lane, history).listings[k].lastSeen < sweep.at - sweep.scope.value.grace
  {
    var all, db, call := history + [Swept(sweep)], Replay(lane, history), CallOf(sweep);
    assert all[..|history|] == history && Swept(sweep) in all;
    CallIsValid(sweep);
    GateNeverStrengthens(sweep.scope, sweep.evidence);
    StaleVerdict(db, call, k, scope);
    RowIsItsLog(lane, all, scope);
    PredecessorsAreLogged(lane, all, scope);
    SinceStartsAChain(LogOf(lane, all, scope));
  }

  /** The verdict behind a stale mark: an incomplete gated scope whose continuity reaches past the grace. */
  lemma StaleVerdict(db: Database, call: AbsenceCall, k: Key, scope: Option<ScopeKey>)
    requires call.Valid() && (call.gated.Some? ==> call.gated.value.observedAt == call.at)
    requires k in db.listings && db.listings[k].Active() && db.listings[k].scope == scope
    requires var l := AbsenceLocal(db, call).listings[k]; !l.Active() && l.delistReason == Some(AbsentStale)
    ensures call.gated.Some? && !call.gated.value.complete && call.gated.value.staleAllowed && call.swept == scope
    ensures var w := RowOrBlank(AbsenceLocal(db, call).marks, scope);
            && w.continuousSince.Some? && w.lastEligibleAt == Some(call.at)
            && w.continuousSince.value <= call.at - call.gated.value.grace
    ensures db.listings[k].lastSeen < call.at - call.gated.value.grace
  {
    assert call.gated.Some?;
    var m := EnsureRow(db.marks, call.swept);
    assert Contradicted(k, db.listings[k], call.gated.value, VerdictOf(m, call));
  }

  /** And conversely: steady polling across the grace does mark every candidate it leaves unseen. */
  lemma SteadyPollingMarks(lane: Option<nat>, history: seq<Event>, sweep: Sweep, k: Key, scope: Option<ScopeKey>, start: nat)
    requires ValidHistory(history + [Swept(sweep)])
    requires sweep.swept == scope && CallOf(sweep).eligible
    requires CallOf(sweep).gated.Some? && !CallOf(sweep).gated.value.complete
    requires var log := LogOf(lane, history + [Swept(sweep)], scope);
             && SteadyFrom(log, start)
             && log[start].sweep.at <= sweep.at - sweep.scope.value.grace
    requires k in Replay(lane, history).listings
    requires Candidate(k, Replay(lane, history).listings[k], CallOf(sweep).gated.value, Some(sweep.at - sweep.scope.value.grace))
    ensures MarksStale(Replay(lane, history), sweep, k)
  {
    var db, call := Replay(lane, history), CallOf(sweep);
    assert Swept(sweep) in history + [Swept(sweep)];
    CallIsValid(sweep);
    GateNeverStrengthens(sweep.scope, sweep.evidence);
    SteadyRow(lane, history, sweep, scope, start);
    SinceOfCall(db.marks, call, scope);
  }

  /** The row an eligible poll of a steadily polled scope meets accepts it, and reaches back to the start. */
  lemma SteadyRow(lane: Option<nat>, history: seq<Event>, sweep: Sweep, scope: Option<ScopeKey>, start: nat)
    requires ValidHistory(history + [Swept(sweep)])
    requires sweep.swept == scope && CallOf(sweep).eligible
    requires SteadyFrom(LogOf(lane, history + [Swept(sweep)], scope), start)
    ensures scope.None? ==> Replay(lane, history).marks.lane.Some?
    ensures var db := Replay(lane, history);
            var w := RowOrBlank(db.marks, scope);
            var next := RecordOnRow(w, sweep.at, Previous(w, sweep), Tolerance(db.marks.lane));
            && !SweepRefused(w, sweep.at)
            && next.continuousSince.Some?
            && next.continuousSince.value <= LogOf(lane, history + [Swept(sweep)], scope)[start].sweep.at
  {
    var all, db := history + [Swept(sweep)], Replay(lane, history);
    assert all[..|history|] == history;
    var log, front := LogOf(lane, all, scope), LogOf(lane, history, scope);
    LaneStays(lane, history);
    NoLaneNoLog(lane, all);
    assert log == front + [Poll(sweep, Tolerance(db.marks.lane))];
    SteadyPollingIsRecorded(log, start);
    FoldSnoc(front, Poll(sweep, Tolerance(db.marks.lane)));
    assert ValidHistory(history) by {
      forall e | e in history && e.Swept? ensures e.sweep.Valid() { assert e in all; }
    }
    RowIsItsLog(lane, history, scope);
    assert front == log[..|log| - 1];
    SteadyNeverRefuses(front, log, start);
  }

  /** A steady poll is never refused by the row it extends. */
  lemma SteadyNeverRefuses(front: seq<Entry>, log: seq<Entry>, start: nat)
    requires log != [] && front == log[..|log| - 1] && SteadyFrom(log, start)
    ensures !SweepRefused(FoldLog(front), log[|log| - 1].sweep.at)
  {
    assert forall i :: 0 <= i < |front| ==> front[i] == log[i];
    if start == |front| {
      ColumnsComeFromEntries(front, log[start].sweep.at);
    } else {
      SteadyPrefix(log, start);
      SteadyPollingIsRecorded(front, start);
      SteadyIsInOrder(log, start, |front|);
      assert InTolerance(log, |front|);
    }
  }

  /** The start an eligible call measures its grace from is the one the row reports once it is recorded. */
  lemma SinceOfCall(m: Marks, call: AbsenceCall, scope: Option<ScopeKey>)
    requires call.swept == scope && call.eligible && (scope.None? ==> m.lane.Some?)
    ensures var w := RowOrBlank(m, scope);
            ContinuityStep(EnsureRow(m, call.swept), call).1
            == if SweepRefused(w, call.at) then None
               else RecordOnRow(w, call.at, if scope.None? then call.nullPrevious else w.lastEligibleAt, Tolerance(m.lane)).continuousSince
  {
  }
}
