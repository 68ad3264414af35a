/**
 * Why real histories are orderly: each run alone commits in its own order at its own time, and any
 * interleaving of such runs, crashed anywhere, is orderly (src/hw_radar/acquisition/pipeline.py:351-410,
 * src/hw_radar/acquisition/apify/importer.py:340-427).
 */
module Interleavings {
  import opened Prelude
  import opened Contracts
  import opened Providers
  import opened Persist
  import opened Stages
  import opened PersistOrder
  import opened Pipeline
  import opened History
  import opened OrderIndependence

  /** A committed transaction and the run it belongs to. */
  datatype Tagged = Tagged(run: nat, event: Event)

  function Untag(all: seq<Tagged>): (r: seq<Event>)
    ensures |r| == |all| && forall i :: 0 <= i < |all| ==> r[i] == all[i].event
  {
    seq(|all|, i requires 0 <= i < |all| => all[i].event)
  }

  /** What one run committed, in its order. */
  function CommittedBy(all: seq<Tagged>, run: nat): seq<Event> {
    if all == [] then []
    else
      var front, last := CommittedBy(all[..|all| - 1], run), all[|all| - 1];
      if last.run == run then front + [last.event] else front
  }

  /** As far as one key and its scope go, what the run committed is in its own order and of its own time. */
  ghost predicate OwnTurn(k: Key, scope: Option<ScopeKey>, own: seq<Event>, at: Time) {
    && Orderly(k, scope, own)
    && forall e, t :: e in own && TimeTaken(e, k, scope, t) ==> t == at
  }

  lemma {:induction false} CommittedIn(all: seq<Tagged>, run: nat, e: Event)
    ensures e in CommittedBy(all, run) <==> exists x :: x in all && x.run == run && x.event == e
  {
    if all != [] {
      var front, last := all[..|all| - 1], all[|all| - 1];
      CommittedIn(front, run, e);
      assert all == front + [last];
    }
  }

  /** Observing a key is observing it, whatever else committed beside it. */
  lemma {:induction false} NewestIn(history: seq<Event>, k: Key)
    ensures Newest(history, k).Some? <==> exists e :: e in history && e.Persisted? && LastFor(e.records, k).Some?
  {
    NewestIsMaximum(history, k);
    if Newest(history, k).Some? {
      var e :| e in history && Sights(e, k, Newest(history, k).value);
      assert e.Persisted? && LastFor(e.records, k).Some?;
    }
  }

  lemma UntaggedIn(all: seq<Tagged>, e: Event)
    ensures e in Untag(all) <==> exists x :: x in all && x.event == e
  {
    if e in Untag(all) {
      var i :| 0 <= i < |all| && Untag(all)[i] == e;
      assert all[i].event == e;
    }
    forall x | x in all && x.event == e ensures e in Untag(all) {
      var i :| 0 <= i < |all| && all[i] == x;
      assert Untag(all)[i] == e;
    }
  }

  /** Every time taken by a committed transaction is its run's. */
  ghost predicate TimesAreOwn(k: Key, scope: Option<ScopeKey>, all: seq<Tagged>, times: seq<Time>) {
    && (forall x :: x in all ==> x.run < |times|)
    && (forall x, t :: x in all && TimeTaken(x.event, k, scope, t) ==> t == times[x.run])
    && (forall i, j :: 0 <= i < j < |times| ==> times[i] != times[j])
  }

  /** What took the time of `run` was committed by `run`. */
  lemma TakenByItsRun(k: Key, scope: Option<ScopeKey>, all: seq<Tagged>, times: seq<Time>, run: nat, e: Event)
    requires TimesAreOwn(k, scope, all, times) && run < |times|
    requires e in Untag(all) && TimeTaken(e, k, scope, times[run])
    ensures e in CommittedBy(all, run)
  {
    UntaggedIn(all, e);
    var x :| x in all && x.event == e;
    assert times[x.run] == times[run];
    CommittedIn(all, run, e);
  }

  lemma CommittedIsUntagged(all: seq<Tagged>, run: nat, e: Event)
    requires e in CommittedBy(all, run)
    ensures e in Untag(all)
  {
    CommittedIn(all, run, e);
    UntaggedIn(all, e);
  }

  lemma PersistInTurn(k: Key, scope: Option<ScopeKey>, front: seq<Tagged>, last: Tagged, times: seq<Time>)
    requires TimesAreOwn(k, scope, front, times) && last.run < |times| && last.event.Persisted?
    requires forall t :: TimeTaken(last.event, k, scope, t) ==> t == times[last.run]
    requires InTurn(k, scope, CommittedBy(front, last.run), last.event)
    ensures InTurn(k, scope, Untag(front), last.event)
  {
    var own, e := CommittedBy(front, last.run), last.event;
    if Only(e.records, k) != [] {
      if Newest(own, k).Some? {
        NewestIn(own, k);
        var x :| x in own && x.Persisted? && LastFor(x.records, k).Some?;
        CommittedIsUntagged(front, last.run, x);
        NewestIn(Untag(front), k);
      }
      assert TimeTaken(e, k, scope, e.stamp.observedAt);
      forall x | x in Untag(front) ensures !TimeTaken(x, k, scope, e.stamp.observedAt) {
        if TimeTaken(x, k, scope, e.stamp.observedAt) {
          TakenByItsRun(k, scope, front, times, last.run, x);
        }
      }
    }
  }

  lemma SweepInTurn(k: Key, scope: Option<ScopeKey>, front: seq<Tagged>, last: Tagged, times: seq<Time>)
    requires TimesAreOwn(k, scope, front, times) && last.run < |times| && last.event.Swept?
    requires forall t :: TimeTaken(last.event, k, scope, t) ==> t == times[last.run]
    requires InTurn(k, scope, CommittedBy(front, last.run), last.event)
    ensures InTurn(k, scope, Untag(front), last.event)
  {
    var own, sweep := CommittedBy(front, last.run), last.event.sweep;
    CallIsValid(sweep);
    var gated := CallOf(sweep).gated;
    if gated.Some? && gated.value.scopeKey == scope {
      assert TimeTaken(last.event, k, scope, sweep.at);
      if ObservedAt(Untag(front), k, sweep.at) {
        var x :| x in Untag(front) && x.Persisted? && x.stamp.observedAt == sweep.at && LastFor(x.records, k).Some?;
        assert TimeTaken(x, k, scope, sweep.at);
        TakenByItsRun(k, scope, front, times, last.run, x);
      }
      if ObservedAt(own, k, sweep.at) {
        var x :| x in own && x.Persisted? && x.stamp.observedAt == sweep.at && LastFor(x.records, k).Some?;
        CommittedIsUntagged(front, last.run, x);
      }
    }
  }

  /** Runs of distinct times, each in its own turn as far as it got. */
  ghost predicate RunsInTurn(k: Key, scope: Option<ScopeKey>, all: seq<Tagged>, times: seq<Time>) {
    && (forall x :: x in all ==> x.run < |times|)
    && (forall i, j :: 0 <= i < j < |times| ==> times[i] != times[j])
    && (forall run :: 0 <= run < |times| ==> OwnTurn(k, scope, CommittedBy(all, run), times[run]))
  }

  lemma RunsOwnTheirTimes(k: Key, scope: Option<ScopeKey>, all: seq<Tagged>, times: seq<Time>)
    requires RunsInTurn(k, scope, all, times)
    ensures TimesAreOwn(k, scope, all, times)
  {
    forall x, t | x in all && TimeTaken(x.event, k, scope, t) ensures t == times[x.run] {
      CommittedIn(all, x.run, x.event);
      assert OwnTurn(k, scope, CommittedBy(all, x.run), times[x.run]);
    }
  }

  lemma PrefixRunsInTurn(k: Key, scope: Option<ScopeKey>, all: seq<Tagged>, times: seq<Time>)
    requires RunsInTurn(k, scope, all, times) && all != []
    ensures RunsInTurn(k, scope, all[..|all| - 1], times)
  {
    var front := all[..|all| - 1];
    assert forall x :: x in front ==> x in all;
    forall run | 0 <= run < |times| ensures OwnTurn(k, scope, CommittedBy(front, run), times[run]) {
      PrefixInTurn(k, scope, CommittedBy(front, run), CommittedBy(all, run), times[run]);
    }
  }

  /**
   * Any interleaving of runs of distinct times, each in its own turn, is orderly: so its guards add up
   * and its arrival order does not matter.
   */
  lemma {:induction false} InterleavingsAreOrderly(k: Key, scope: Option<ScopeKey>, all: seq<Tagged>, times: seq<Time>)
    requires RunsInTurn(k, scope, all, times)
    ensures Orderly(k, scope, Untag(all))
  {
    if all != [] {
      var front, last := all[..|all| - 1], all[|all| - 1];
      PrefixRunsInTurn(k, scope, all, times);
      InterleavingsAreOrderly(k, scope, front, times);
      RunsOwnTheirTimes(k, scope, all, times);
      RunsOwnTheirTimes(k, scope, front, times);
      assert all == front + [last] && last in all;
      LastInTurn(k, scope, front, last, times);
      assert Untag(all) == Untag(front) + [last.event];
      OrderlySnoc(k, scope, Untag(front), last.event);
    }
  }

  lemma LastInTurn(k: Key, scope: Option<ScopeKey>, front: seq<Tagged>, last: Tagged, times: seq<Time>)
    requires TimesAreOwn(k, scope, front, times) && last.run < |times|
    requires forall t :: TimeTaken(last.event, k, scope, t) ==> t == times[last.run]
    requires OwnTurn(k, scope, CommittedBy(front + [last], last.run), times[last.run])
    ensures InTurn(k, scope, Untag(front), last.event)
  {
    assert (front + [last])[..|front|] == front;
    OrderlySnoc(k, scope, CommittedBy(front, last.run), last.event);
    match last.event
    case Persisted(_, _) => PersistInTurn(k, scope, front, last, times);
    case Swept(_) => SweepInTurn(k, scope, front, last, times);
    case _ =>
  }

  lemma OrderlySnoc(k: Key, scope: Option<ScopeKey>, front: seq<Event>, e: Event)
    ensures Orderly(k, scope, front + [e]) <==> Orderly(k, scope, front) && InTurn(k, scope, front, e)
  {
    assert (front + [e])[..|front|] == front;
  }

  lemma PrefixInTurn(k: Key, scope: Option<ScopeKey>, front: seq<Event>, own: seq<Event>, at: Time)
    requires OwnTurn(k, scope, own, at) && (own == front || exists e :: own == front + [e])
    ensures OwnTurn(k, scope, front, at)
  {
    if own != front {
      var e :| own == front + [e];
      OrderlySnoc(k, scope, front, e);
      assert forall x :: x in front ==> x in own;
    }
  }

  /** Two interleavings of the same runs show the same offer. */
  lemma InterleavingsShowTheSame(k: Key, scope: Option<ScopeKey>, lane: Option<nat>, a: seq<Tagged>, b: seq<Tagged>, times: seq<Time>)
    requires RunsInTurn(k, scope, a, times) && RunsInTurn(k, scope, b, times)
    requires forall run :: 0 <= run < |times| ==> CommittedBy(b, run) == CommittedBy(a, run)
    requires HasMark(scope, lane)
    ensures View(Replay(lane, Untag(a)), k) == View(Replay(lane, Untag(b)), k)
  {
    InterleavingsAreOrderly(k, scope, a, times);
    InterleavingsAreOrderly(k, scope, b, times);
    forall e ensures e in Untag(a) <==> e in Untag(b) {
      CommittedAlike(a, b, times, e);
      CommittedAlike(b, a, times, e);
    }
    ArrivalOrderDoesNotMatter(k, scope, lane, Untag(a), Untag(b));
  }

  lemma CommittedAlike(a: seq<Tagged>, b: seq<Tagged>, times: seq<Time>, e: Event)
    requires forall x :: x in a ==> x.run < |times|
    requires forall run :: 0 <= run < |times| ==> CommittedBy(b, run) == CommittedBy(a, run)
    ensures e in Untag(a) ==> e in Untag(b)
  {
    if e in Untag(a) {
      UntaggedIn(a, e);
      var x :| x in a && x.event == e;
      CommittedIn(a, x.run, e);
      CommittedIsUntagged(b, x.run, e);
    }
  }

  // ── A local run ───────────────────────────────────────────────────────────

  /** A local run persists its batch, then applies each of its sweeps. */
  function LocalRun(records: seq<Record>, stamp: Stamp, sweeps: seq<Sweep>): seq<Event> {
    if sweeps == [] then [Persisted(records, stamp)]
    else LocalRun(records, stamp, sweeps[..|sweeps| - 1]) + [Swept(sweeps[|sweeps| - 1])]
  }

  /** A sweep of the run's own time that, where it is complete for the scope, saw exactly what the run parsed. */
  ghost predicate SawItsOwn(k: Key, scope: Option<ScopeKey>, records: seq<Record>, at: Time, s: Sweep) {
    && s.Valid() && s.at == at
    && var gated := CallOf(s).gated;
       gated.Some? && gated.value.scopeKey == scope ==>
         gated.value.complete && (k in gated.value.seen <==> Only(records, k) != [])
  }

  lemma {:induction false} LocalRunSights(k: Key, records: seq<Record>, stamp: Stamp, sweeps: seq<Sweep>)
    ensures ObservedAt(LocalRun(records, stamp, sweeps), k, stamp.observedAt) <==> Only(records, k) != []
  {
    if sweeps == [] {
      assert Persisted(records, stamp) in LocalRun(records, stamp, sweeps);
    } else {
      var front, last := LocalRun(records, stamp, sweeps[..|sweeps| - 1]), Swept(sweeps[|sweeps| - 1]);
      LocalRunSights(k, records, stamp, sweeps[..|sweeps| - 1]);
      assert ObservedAt(front, k, stamp.observedAt) ==> ObservedAt(front + [last], k, stamp.observedAt);
    }
  }

  /** A run's first transaction observes records that name the scope. */
  lemma FirstInTurn(k: Key, scope: Option<ScopeKey>, records: seq<Record>, stamp: Stamp)
    requires forall r :: r in Only(records, k) ==> r.scope == scope
    ensures OwnTurn(k, scope, [Persisted(records, stamp)], stamp.observedAt)
  {
    var own := Only(records, k);
    forall i | 0 <= i < |own| ensures KeepsScope(own[i], scope, i > 0 || Newest([], k).Some?) {
      assert own[i] in own;
    }
    OrderlySnoc(k, scope, [], Persisted(records, stamp));
    assert [] + [Persisted(records, stamp)] == [Persisted(records, stamp)];
  }

  /** One more transaction, in turn and of the run's time. */
  lemma NextInTurn(k: Key, scope: Option<ScopeKey>, own: seq<Event>, e: Event, at: Time)
    requires OwnTurn(k, scope, own, at) && InTurn(k, scope, own, e)
    requires forall t :: TimeTaken(e, k, scope, t) ==> t == at
    ensures OwnTurn(k, scope, own + [e], at)
  {
    OrderlySnoc(k, scope, own, e);
  }

  lemma OwnSweepInTurn(k: Key, scope: Option<ScopeKey>, records: seq<Record>, front: seq<Event>, s: Sweep)
    requires SawItsOwn(k, scope, records, s.at, s)
    requires ObservedAt(front, k, s.at) <==> Only(records, k) != []
    ensures InTurn(k, scope, front, Swept(s))
    ensures forall t :: TimeTaken(Swept(s), k, scope, t) ==> t == s.at
  {
    CallIsValid(s);
  }

  /** A local run is in its own turn; and so is one that crashed anywhere (PrefixInTurn). */
  lemma {:induction false} LocalRunIsInTurn(k: Key, scope: Option<ScopeKey>, records: seq<Record>, stamp: Stamp, sweeps: seq<Sweep>)
    requires forall r :: r in Only(records, k) ==> r.scope == scope
    requires forall s :: s in sweeps ==> SawItsOwn(k, scope, records, stamp.observedAt, s)
    ensures OwnTurn(k, scope, LocalRun(records, stamp, sweeps), stamp.observedAt)
  {
    if sweeps == [] {
      FirstInTurn(k, scope, records, stamp);
    } else {
      var front, last := sweeps[..|sweeps| - 1], sweeps[|sweeps| - 1];
      assert last in sweeps && forall s :: s in front ==> s in sweeps;
      LocalRunIsInTurn(k, scope, records, stamp, front);
      LocalRunSights(k, records, stamp, front);
      OwnSweepInTurn(k, scope, records, LocalRun(records, stamp, front), last);
      NextInTurn(k, scope, LocalRun(records, stamp, front), Swept(last), stamp.observedAt);
    }
  }
}
