/**
 * One site's rows, changed in place by the ingestion stages
 * (src/hw_radar/acquisition/stages.py, persist.py and the per-scope loop of pipeline.py).
 */
module SiteStore {
  import opened Prelude
  import opened Contracts
  import opened Persist
  import opened Stages
  import opened PersistOrder
  import opened Pipeline
  import opened MultiScope

  class Site {
    var listings: map<Key, Listing>
    var scopes: map<ScopeKey, Watermark>
    var lane: Option<Lane>

    ghost function Db(): Database
      reads this
    {
      Database(listings, Marks(scopes, lane))
    }

    constructor (lane: Option<Lane>)
      ensures Db() == Database(map[], Marks(map[], lane))
    {
      listings, scopes, this.lane := map[], map[], lane;
    }

    // ── Persist ─────────────────────────────────────────────────────────────

    method DelistOne(k: Key, reason: DelistReason, when: Time) returns (acted: bool)
      requires k in listings
      modifies this`listings
      ensures listings == old(listings)[k := MarkDelisted(old(listings)[k], reason, when)]
      ensures acted == old(listings)[k].Active()
    {
      var l := listings[k];
      if l.delistedAt.Some? {
        assert listings[k := l] == listings;
        return false;
      }
      var retention, bounded := l.retention, l.retention.retentionClass.Bounded();
      l := l.(delistedAt := Some(when), delistReason := Some(reason));
      if l.lastAbsenceAt.None? || l.lastAbsenceAt.value < when {
        l := l.(lastAbsenceAt := Some(when));
      }
      if bounded && l.retention.expiresAt.Some? && l.retention.expiresAt.value > when {
        l := l.(retention := l.retention.(expiresAt := Some(when)));
      }
      if bounded {
        l := l.(history := PullHistoryForward(l.history, when));
      }
      if retention.retentionClass.DeleteOnDelist() {
        l := l.(content := Redacted(l.content));
      }
      listings := listings[k := l];
      acted := true;
    }

    /** Apply one observation under the ordering guards; report whether it appended a snapshot. */
    method ObserveListing(r: Record, s: Stamp, sweepBound: Option<Time>) returns (appended: bool)
      modifies this`listings
      ensures listings == old(listings)[r.key := Observe(Lookup(old(listings), r.key), r, s, sweepBound)]
      ensures |listings[r.key].history| == HistorySize(old(listings), r.key) + if appended then 1 else 0
    {
      ghost var existing := Lookup(listings, r.key);
      var absenceAfter: Option<Time> := None;
      if r.key !in listings {
        listings := listings[r.key := Created(r, s)];
        if !AtOrAfter(s.observedAt, sweepBound) {
          var _ := DelistOne(r.key, AbsentFromSweep, sweepBound.value);
          absenceAfter := sweepBound;
        }
      } else {
        var l := listings[r.key];
        var absence := EffectiveAbsence(l);
        if AtOrAfter(s.observedAt, l.lastObservedAt) && AtOrAfter(s.observedAt, absence)
           && AtOrAfter(s.observedAt, sweepBound) {
          l := l.(content := r.content, retention := s.retention);
          if r.scope.Some? {
            l := l.(scope := r.scope);
          }
          l := l.(lastObservedAt := Some(s.observedAt), delistedAt := None, delistReason := None, lastSeen := s.now);
          listings := listings[r.key := l];
        } else if absence.Some? && absence.value > s.observedAt {
          absenceAfter := absence;
        }
      }
      assert listings[r.key] == WriteCurrent(existing, r, s, sweepBound);
      assert absenceAfter == AbsenceAfter(existing, s.observedAt, sweepBound);
      var l := listings[r.key];
      var l' := AppendHistory(l, r, s, absenceAfter);
      appended := |l'.history| > |l.history|;
      listings := listings[r.key := l'];
    }

    /** Observe one record of a batch against the scope its row or the record names. */
    method ObserveInBatch(r: Record, s: Stamp) returns (appended: bool)
      modifies this`listings
      ensures Db() == ObserveRecord(old(Db()), r, s)
      ensures |Places(listings)| == |Places(old(listings))| + if appended then 1 else 0
    {
      var target := r.scope;
      if target.None? && r.key in listings {
        target := listings[r.key].scope;
      }
      ghost var before := listings;
      appended := ObserveListing(r, s, CompleteSweepAt(Marks(scopes, lane), target));
      PlacesAfterWrite(before, r.key, listings[r.key]);
    }

    /** The first record of every key the batch brings that has no row yet, with the keys in batch order. */
    method FirstRecords(records: seq<Record>) returns (firstNew: map<Key, nat>, newKeys: seq<Key>)
      ensures FirstNew(records, listings.Keys, |records|, firstNew)
      ensures Distinct(newKeys) && forall k :: k in newKeys <==> k in firstNew
    {
      firstNew, newKeys := map[], [];
      for i := 0 to |records|
        invariant FirstNew(records, listings.Keys, i, firstNew)
        invariant Distinct(newKeys) && forall k :: k in newKeys <==> k in firstNew
      {
        forall k { OnlySnoc(records, i, k); }
        var key := records[i].key;
        if key !in listings && key !in firstNew {
          firstNew := firstNew[key := i];
          newKeys := newKeys + [key];
        }
      }
    }

    /** The first pass: insert each new key, in the given order, from its first record. */
    method InsertNewKeys(records: seq<Record>, firstNew: map<Key, nat>, order: seq<Key>, s: Stamp) returns (appended: nat)
      requires FirstNew(records, listings.Keys, |records|, firstNew)
      requires Distinct(order) && forall k :: k in order <==> k in firstNew
      modifies this`listings
      ensures Handles(old(Db()), listings, records, firstNew, 0, s)
      ensures appended == |Places(listings)| - |Places(old(listings))|
    {
      ghost var before := Db();
      appended := 0;
      for j := 0 to |order|
        invariant Db().marks == before.marks
        invariant forall k :: k in order[..j] ==>
                    Lookup(listings, k) == RowFold(before.marks, None, [records[firstNew[k]]], s)
        invariant forall k :: k !in order[..j] ==> Lookup(listings, k) == Lookup(before.listings, k)
        invariant appended == |Places(listings)| - |Places(before.listings)|
      {
        var k := order[j];
        assert k in firstNew && k !in order[..j];
        RowFoldOne(before.marks, records[firstNew[k]], s);
        assert order[..j + 1] == order[..j] + [k];
        ghost var here := listings;
        var a := ObserveInBatch(records[firstNew[k]], s);
        assert forall x :: x != k ==> Lookup(listings, x) == Lookup(here, x);
        appended := appended + if a then 1 else 0;
      }
      assert order[..|order|] == order;
      FirstPassHandles(before, listings, records, firstNew, s);
    }

    /** The second pass: the remaining records, in batch order. */
    method ObserveRest(records: seq<Record>, firstNew: map<Key, nat>, s: Stamp, ghost before: Database) returns (appended: nat)
      requires FirstNew(records, before.listings.Keys, |records|, firstNew)
      requires Db().marks == before.marks && Handles(before, listings, records, firstNew, 0, s)
      modifies this`listings
      ensures Handles(before, listings, records, firstNew, |records|, s)
      ensures appended == |Places(listings)| - |Places(old(listings))|
    {
      appended := 0;
      for i := 0 to |records|
        invariant Db().marks == before.marks
        invariant Handles(before, listings, records, firstNew, i, s)
        invariant appended == |Places(listings)| - |Places(old(listings))|
      {
        ghost var here := Db();
        // The source skips the set of created-from indices; a key has at most one, so this is that test.
        var key := records[i].key;
        if !(key in firstNew && firstNew[key] == i) {
          var a := ObserveInBatch(records[i], s);
          appended := appended + if a then 1 else 0;
        }
        HandlesStep(before, here, listings, records, firstNew, i, s);
      }
    }

    /**
     * Apply every observation of one batch in lock order: new keys first, sorted, each from its
     * first record, then the remaining records in batch order.
     */
    method PersistObservations(records: seq<Record>, s: Stamp) returns (appended: nat)
      modifies this`listings
      ensures Db() == PersistBatch(old(Db()), records, s)
      ensures appended == |Places(listings)| - |Places(old(listings))|
    {
      ghost var before := Db();
      var firstNew, newKeys := FirstRecords(records);
      var order := Sort(newKeys, StringLe);
      PermutationKeepsDistinct(newKeys, order);
      SameMultisetSameElements(newKeys, order);
      var inserted := InsertNewKeys(records, firstNew, order, s);
      var rest := ObserveRest(records, firstNew, s, before);
      appended := inserted + rest;
      assert records[..|records|] == records;
      forall k ensures Lookup(listings, k) == Lookup(PersistBatch(before, records, s).listings, k) {
        PersistBatchRow(before, records, s, k);
      }
      SameRowsSameListings(listings, PersistBatch(before, records, s).listings);
    }

    /** The persist step of a run, in its own transaction after the rows are ensured. */
    method RunPersist(records: seq<Record>, s: Stamp) returns (appended: nat)
      modifies this
      ensures Db() == PersistLocal(old(Db()), records, s)
      ensures appended == |Places(listings)| - |Places(old(listings))|
    {
      scopes := (map x | x in TargetScopes(listings, records) :: BLANK) + scopes;
      appended := PersistObservations(records, s);
    }

    // ── Continuity and absence ──────────────────────────────────────────────

    method SaveRow(scope: Option<ScopeKey>, w: Watermark)
      modifies this`scopes, this`lane
      ensures Db() == old(Db()).(marks := WithRow(old(Db()).marks, scope, w))
    {
      if scope.Some? {
        scopes := scopes[scope.value := w];
      } else if lane.Some? {
        lane := Some(lane.value.(mark := w));
      }
    }

    method RecordSweep(scope: Option<ScopeKey>, at: Time, nullPrevious: Option<Time>) returns (since: Option<Time>)
      requires scope.Some? ==> scope.value in scopes
      modifies this`scopes, this`lane
      ensures (Db().marks, since) == RecordContinuity(old(Db()).marks, scope, at, nullPrevious)
    {
      if scope.None? && lane.None? {
        return None;
      }
      var row := if scope.None? then lane.value.mark else scopes[scope.value];
      if row.brokenAt.Some? && at <= row.brokenAt.value {
        return None;
      }
      if row.lastEligibleAt.Some? && at < row.lastEligibleAt.value {
        return None;
      }
      var previous := if scope.None? then nullPrevious else row.lastEligibleAt;
      if row.continuousSince.None? || previous.None? || at - previous.value > Tolerance(lane) {
        row := row.(continuousSince := Some(at));
      }
      row := row.(lastEligibleAt := Some(at));
      SaveRow(scope, row);
      since := row.continuousSince;
    }

    method BreakSweep(scope: Option<ScopeKey>, at: Time)
      requires scope.Some? ==> scope.value in scopes
      modifies this`scopes, this`lane
      ensures Db() == old(Db()).(marks := BreakContinuity(old(Db()).marks, scope, at))
    {
      if scope.None? && lane.None? {
        return;
      }
      var row := if scope.None? then lane.value.mark else scopes[scope.value];
      row := row.(continuousSince := None);
      if row.brokenAt.None? || row.brokenAt.value < at {
        row := row.(brokenAt := Some(at));
      }
      SaveRow(scope, row);
    }

    /** Mark each of a set of active listings, one row at a time, counting the rows that acted. */
    method MarkEach(candidates: set<Key>, reason: DelistReason, when: Time) returns (delisted: nat)
      requires forall k :: k in candidates ==> k in listings && listings[k].Active()
      modifies this`listings
      ensures listings.Keys == old(listings).Keys && delisted == |candidates|
      ensures forall k :: k in listings ==>
                listings[k] == if k in candidates then MarkDelisted(old(listings)[k], reason, when) else old(listings)[k]
    {
      delisted := 0;
      var pending := candidates;
      while pending != {}
        invariant pending <= candidates && delisted == |candidates| - |pending|
        invariant listings.Keys == old(listings).Keys
        invariant forall k :: k in listings ==>
                    listings[k] == if k in candidates - pending then MarkDelisted(old(listings)[k], reason, when)
                                   else old(listings)[k]
        decreases |pending|
      {
        var k :| k in pending;
        var acted := DelistOne(k, reason, when);
        if acted {
          delisted := delisted + 1;
        }
        pending := pending - {k};
      }
    }

    /** Soft-delete the active listings of a scope that the sweep contradicts; count them. */
    method ApplyDelist(scope: DelistScope, continuousSince: Option<Time>) returns (delisted: nat)
      modifies this`listings
      ensures listings == DelistListings(old(listings), scope, DelistVerdict(scope, continuousSince))
      ensures delisted == |DelistedKeys(old(listings), scope, DelistVerdict(scope, continuousSince))|
    {
      ghost var before, verdict := listings, DelistVerdict(scope, continuousSince);
      var reason, cutoff := AbsentFromSweep, None;
      if !scope.complete {
        if !scope.staleAllowed || continuousSince.None? || scope.observedAt - continuousSince.value < scope.grace {
          assert DelistListings(listings, scope, verdict) == listings;
          return 0;
        }
        reason, cutoff := AbsentStale, Some(scope.observedAt - scope.grace);
      }
      assert verdict == Mark(reason, cutoff);
      var candidates := set k | k in listings && Candidate(k, listings[k], scope, cutoff);
      assert candidates == DelistedKeys(before, scope, verdict);
      delisted := MarkEach(candidates, reason, scope.observedAt);
      assert listings == DelistListings(before, scope, verdict);
    }

    method RaiseSweep(gated: DelistScope)
      modifies this`scopes, this`lane
      ensures Db() == old(Db()).(marks := RaiseCompleteSweep(old(Db()).marks, gated))
    {
      var row := RowOf(Marks(scopes, lane), gated.scopeKey);
      if row.None? {
        return;
      }
      if row.value.completeSweepAt.None? || row.value.completeSweepAt.value < gated.observedAt {
        SaveRow(gated.scopeKey, row.value.(completeSweepAt := Some(gated.observedAt)));
      }
    }

    /** Record or break continuity for the swept scope, apply the gated delist, raise the watermark. */
    method ApplyAbsenceCall(call: AbsenceCall) returns (delisted: nat)
      requires call.Valid()
      requires call.swept.Some? ==> call.swept.value in scopes
      modifies this
      ensures Db() == ApplyAbsence(old(Db()), call)
      ensures delisted == if call.gated.None? then 0
                          else |DelistedKeys(old(listings), call.gated.value, VerdictOf(old(Db()).marks, call))|
    {
      var since: Option<Time> := None;
      if call.eligible {
        since := RecordSweep(call.swept, call.at, call.nullPrevious);
      } else {
        BreakSweep(call.swept, call.at);
      }
      if call.swept.Some? && !call.nullScopeSwept {
        BreakSweep(None, call.at);
      }
      if call.gated.None? {
        return 0;
      }
      delisted := ApplyDelist(call.gated.value, since);
      if call.gated.value.complete {
        RaiseSweep(call.gated.value);
      }
    }

    /** The absence step of a run, in its own transaction after the row is ensured. */
    method RunAbsence(call: AbsenceCall) returns (delisted: nat)
      requires call.Valid()
      modifies this
      ensures Db() == AbsenceLocal(old(Db()), call)
      ensures delisted == DelistCount(old(Db()), call)
    {
      if call.swept.Some? && call.swept.value !in scopes {
        scopes := scopes[call.swept.value := BLANK];
      }
      delisted := ApplyAbsenceCall(call);
    }

    /**
     * Apply absence and continuity to each swept scope of one multi-scope run: the NULL scope first,
     * then scope keys ascending. The outcome is the same for every order of the reports.
     */
    method ApplyScopeReports(parsed: set<Key>, reports: seq<ScopeSweepReport>, at: Time, nullPrevious: Option<Time>)
      returns (total: nat, outcomes: map<Option<ScopeKey>, nat>)
      requires DistinctScopes(reports)
      requires forall r :: r in reports ==> r.Valid() && (r.scope.Some? ==> r.scope.value.observedAt == at)
      modifies this
      ensures var run := RunContext(at, SeenInRun(parsed, reports), NullSwept(reports), nullPrevious);
              && Db() == ApplyReports(old(Db()), reports, run)
              && (forall r :: r in reports ==>
                    r.scopeKey in outcomes && outcomes[r.scopeKey] == DelistCount(old(Db()), ReportCall(r, run)))
      ensures total == |Inactive(listings)| - |Inactive(old(listings))|
    {
      var ordered := Sort(reports, ReportLe);
      SameMultisetSameElements(reports, ordered);
      SortKeepsDistinct(reports, ordered);
      var run := RunContext(at, SeenInRun(parsed, reports), NullSwept(reports), nullPrevious);
      OrderDoesNotMatter(Db(), ordered, reports, run);
      total, outcomes := ApplyOrdered(ordered, run);
    }

    /** One report's absence transaction; the count is how many listings it turned inactive. */
    method ApplyReport(r: ScopeSweepReport, run: RunContext) returns (delisted: nat)
      requires r.Valid()
      modifies this
      ensures Db() == AbsenceLocal(old(Db()), ReportCall(r, run)) && delisted == DelistCount(old(Db()), ReportCall(r, run))
      ensures delisted == |Inactive(listings)| - |Inactive(old(listings))|
    {
      DelistCountIsGrowth(Db(), ReportCall(r, run));
      delisted := RunAbsence(ReportCall(r, run));
    }

    /** The loop over the reports in scope order. */
    method ApplyOrdered(ordered: seq<ScopeSweepReport>, run: RunContext) returns (total: nat, outcomes: map<Option<ScopeKey>, nat>)
      requires ReportsOfRun(ordered, run)
      modifies this
      ensures Db() == ApplyReports(old(Db()), ordered, run)
      ensures forall r :: r in ordered ==>
                r.scopeKey in outcomes && outcomes[r.scopeKey] == DelistCount(old(Db()), ReportCall(r, run))
      ensures total == |Inactive(listings)| - |Inactive(old(listings))|
    {
      total, outcomes := 0, map[];
      for i := 0 to |ordered|
        invariant Db() == ApplyReports(old(Db()), ordered[..i], run)
        invariant total == |Inactive(listings)| - |Inactive(old(listings))|
        invariant forall j :: 0 <= j < i ==>
                    && ordered[j].scopeKey in outcomes
                    && outcomes[ordered[j].scopeKey] == DelistCount(old(Db()), ReportCall(ordered[j], run))
      {
        EachReportCountsAlone(old(Db()), ordered, i, run);
        assert ordered[..i + 1][..i] == ordered[..i];
        var delisted := ApplyReport(ordered[i], run);
        total := total + delisted;
        outcomes := outcomes[ordered[i].scopeKey := delisted];
      }
      assert ordered[..|ordered|] == ordered;
    }
  }

  lemma SortKeepsDistinct(a: seq<ScopeSweepReport>, b: seq<ScopeSweepReport>)
    requires DistinctScopes(a) && multiset(a) == multiset(b)
    ensures DistinctScopes(b)
  {
    PermutationKeepsDistinct(a, b);
    SameMultisetSameElements(a, b);
    forall i, j | 0 <= i < j < |b| ensures b[i].scopeKey != b[j].scopeKey {
      assert b[i] in a && b[j] in a;
    }
  }

  /** `firstNew` names the first record, before index `i`, of each key without a row. */
  ghost predicate FirstNew(records: seq<Record>, known: set<Key>, i: nat, firstNew: map<Key, nat>)
    requires i <= |records|
  {
    && (forall k :: k in firstNew ==>
          && k !in known && firstNew[k] < i
          && records[firstNew[k]].key == k && Only(records[..firstNew[k]], k) == [])
    && (forall k :: k !in known && k !in firstNew ==> Only(records[..i], k) == [])
  }

  /** The records of a key handled once the second pass stands at index `i`. */
  ghost function Handled(records: seq<Record>, firstNew: map<Key, nat>, i: nat, k: Key): seq<Record>
    requires i <= |records|
    requires k in firstNew ==> firstNew[k] < |records|
  {
    if k in firstNew && firstNew[k] >= i then [records[firstNew[k]]] else Only(records[..i], k)
  }

  /** After the first pass exactly the record that created each new row is handled. */
  lemma FirstPassHandles(before: Database, listings: map<Key, Listing>, records: seq<Record>, firstNew: map<Key, nat>, s: Stamp)
    requires FirstNew(records, before.listings.Keys, |records|, firstNew)
    requires forall k :: k in firstNew ==> Lookup(listings, k) == RowFold(before.marks, None, [records[firstNew[k]]], s)
    requires forall k :: k !in firstNew ==> Lookup(listings, k) == Lookup(before.listings, k)
    ensures Handles(before, listings, records, firstNew, 0, s)
  {
    assert records[..0] == [];
  }

  lemma RowFoldOne(m: Marks, r: Record, s: Stamp)
    ensures RowFold(m, None, [r], s) == Some(ObserveRow(m, None, r, s))
  {
    RowFoldSnoc(m, None, [], r, s);
    assert [] + [r] == [r];
  }

  /** Every row is the row before the batch after exactly its handled records. */
  ghost predicate Handles(before: Database, listings: map<Key, Listing>, records: seq<Record>,
                          firstNew: map<Key, nat>, i: nat, s: Stamp)
    requires i <= |records|
    requires forall k :: k in firstNew ==> firstNew[k] < |records|
  {
    forall k ::
      Lookup(listings, k) == RowFold(before.marks, Lookup(before.listings, k), Handled(records, firstNew, i, k), s)
  }

  lemma HandledStep(records: seq<Record>, known: set<Key>, firstNew: map<Key, nat>, i: nat, k: Key)
    requires i < |records| && FirstNew(records, known, |records|, firstNew)
    ensures Handled(records, firstNew, i + 1, k)
            == if records[i].key == k && !(k in firstNew && firstNew[k] >= i)
               then Handled(records, firstNew, i, k) + [records[i]]
               else Handled(records, firstNew, i, k)
  {
    OnlySnoc(records, i, k);
    if k in firstNew && firstNew[k] > i {
      OnlyIsMonotone(records, i + 1, firstNew[k], k);
    }
  }

  lemma {:induction false} OnlyIsMonotone(records: seq<Record>, i: nat, j: nat, k: Key)
    requires i <= j <= |records| && Only(records[..j], k) == []
    ensures Only(records[..i], k) == []
  {
    if i < j {
      OnlySnoc(records, j - 1, k);
      OnlyIsMonotone(records, i, j - 1, k);
    }
  }

  /** One index of the second pass: the record at `i` was handled in the first pass, or is observed now. */
  lemma HandlesStep(before: Database, here: Database, listings: map<Key, Listing>, records: seq<Record>,
                    firstNew: map<Key, nat>, i: nat, s: Stamp)
    requires i < |records| && FirstNew(records, before.listings.Keys, |records|, firstNew)
    requires here.marks == before.marks && Handles(before, here.listings, records, firstNew, i, s)
    requires var key := records[i].key;
             listings == if key in firstNew && firstNew[key] == i then here.listings
                         else ObserveRecord(here, records[i], s).listings
    ensures Handles(before, listings, records, firstNew, i + 1, s)
  {
    var key := records[i].key;
    forall k
      ensures Lookup(listings, k)
              == RowFold(before.marks, Lookup(before.listings, k), Handled(records, firstNew, i + 1, k), s)
    {
      HandledStep(records, before.listings.Keys, firstNew, i, k);
      if k == key {
        FirstNewIsFirst(records, before.listings.Keys, firstNew, i);
        RowFoldSnoc(before.marks, Lookup(before.listings, k), Handled(records, firstNew, i, k), records[i], s);
      } else {
        assert Lookup(listings, k) == Lookup(here.listings, k);
      }
    }
  }

  /** No occurrence of a key lies before its first. */
  lemma FirstNewIsFirst(records: seq<Record>, known: set<Key>, firstNew: map<Key, nat>, i: nat)
    requires i < |records| && FirstNew(records, known, |records|, firstNew)
    ensures records[i].key in firstNew ==> firstNew[records[i].key] <= i
  {
    var k := records[i].key;
    if k in firstNew && i < firstNew[k] {
      OnlyIsMonotone(records, i + 1, firstNew[k], k);
      OnlySnoc(records, i, k);
    }
  }
}
