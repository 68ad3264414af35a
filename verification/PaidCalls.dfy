/**
 * The end-to-end cost bound: what the collector, the import protocol and the cleanup protocol send
 * stays within what the estimate prices (src/hw_radar/acquisition/apify/budget.py:460-568).
 */
module PaidCalls {
  import opened Prelude
  import opened ProviderRow
  import opened Protocol
  import ImportSafety
  import CleanupSafety
  import DeleteOnce
  import Paging
  import Budget
  import Collector

  /** The protocol's caps are the ones the estimate prices. */
  predicate SameCaps(caps: Caps, t: Budget.Terms) {
    caps.datasetReads == t.datasetReads && caps.kvReads == t.kvReads && caps.deleteAttempts == t.deleteAttempts
  }

  /** Each read sent asked for at most ceil(n/limit) + 1 pages of a dataset of n items, as the page loop guarantees. */
  predicate PagesOfReads(pages: seq<nat>, items: nat, limit: nat)
    requires limit > 0
  {
    forall i :: 0 <= i < |pages| ==> pages[i] <= Paging.CeilDiv(items, limit) + 1
  }

  function Sum(pages: seq<nat>): nat {
    if pages == [] then 0 else Sum(pages[..|pages| - 1]) + pages[|pages| - 1]
  }

  lemma {:induction false} SumIsBounded(pages: seq<nat>, most: nat)
    requires forall i :: 0 <= i < |pages| ==> pages[i] <= most
    ensures Sum(pages) <= |pages| * most
  {
    if pages != [] { SumIsBounded(pages[..|pages| - 1], most); }
  }

  lemma CeilGrows(a: nat, b: nat, d: nat)
    requires a <= b && d > 0
    ensures Paging.CeilDiv(a, d) <= Paging.CeilDiv(b, d)
  {
    var q := a / d;
    assert a == q * d + a % d;
    assert b == b / d * d + b % d;
    Paging.QuotientAtLeast(b, d, q);
    if b / d == q { assert b / d * d == q * d; }
  }

  /**
   * Over any history with crashes, for a dataset of at most max_items: the reads, pages, KV reads,
   * deletes and cleanup calls that were sent fit the counts the estimate prices.
   */
  lemma SentFitsPriced(kind: RunKind, trace: seq<Action>, caps: Caps, pages: seq<nat>, items: nat,
                       shape: Budget.RunShape, t: Budget.Terms)
    requires t.NonNegative() && SameCaps(caps, t) && items <= shape.maxItems
    requires |pages| == |Run(kind, trace, caps).sent| && PagesOfReads(pages, items, t.pageLimit)
    ensures var s := Run(kind, trace, caps);
            && |s.sent| <= t.datasetReads && |s.sent| <= t.kvReads
            && Sum(pages) <= |s.sent| * Budget.PagesPerRead(shape, t)
            && |s.calls| <= Budget.CALLS_PER_CLEANUP_ATTEMPT * t.deleteAttempts
            && DeleteOnce.DeletesIn(s.calls, Dataset) <= t.deleteAttempts
            && DeleteOnce.DeletesIn(s.calls, KvStore) <= t.deleteAttempts
  {
    ImportSafety.SentIsCountedIsCapped(kind, trace, caps);
    CleanupSafety.CleanupCallsAreBounded(kind, trace, caps);
    DeleteOnce.DeletesAreBounded(kind, trace, caps, Dataset);
    DeleteOnce.DeletesAreBounded(kind, trace, caps, KvStore);
    CeilGrows(items, shape.maxItems, t.pageLimit);
    SumIsBounded(pages, Budget.PagesPerRead(shape, t));
  }

  /** The rest of a run's consumption, which the platform and the poll job bound. */
  datatype Platform = Platform(
    seconds: real, rowBytes: nat, kvWrites: nat, kvBytesWritten: nat, overheadBytes: nat,
    polls: nat, datasetByteHours: real, kvByteHours: real)

  predicate PlatformOk(p: Platform, rows: nat, requests: nat, shape: Budget.RunShape, t: Budget.Terms) {
    && 0.0 <= p.seconds <= shape.timeoutS as real && p.rowBytes <= rows * shape.maxItemBytes
    && p.kvWrites <= t.kvWrites && p.kvBytesWritten <= p.kvWrites * t.kvBytes
    && p.overheadBytes <= requests * t.WireOverhead() && p.polls <= t.runPolls
    && 0.0 <= p.datasetByteHours <= (shape.maxItems * shape.maxItemBytes) as real * t.StorageHours()
    && 0.0 <= p.kvByteHours <= (t.kvBytes + Budget.MAX_API_REQUEST_BODY_BYTES) as real * t.StorageHours()
  }

  /** What one run consumed: the collector's fetches, and whatever the protocol sent for it. */
  function UsageOf(rows: nat, fetch: Collector.Usage, s: System, pages: seq<nat>, p: Platform): Budget.Usage {
    Budget.Usage(p.seconds, rows, p.rowBytes, p.kvWrites, p.kvBytesWritten, fetch.requests, fetch.bytesRead, p.overheadBytes,
                 |s.sent|, Sum(pages), |s.sent| * rows + Sum(pages), |s.sent|,
                 DeleteOnce.DeletesIn(s.calls, Dataset), DeleteOnce.DeletesIn(s.calls, KvStore),
                 |s.calls|, p.polls, 1, p.datasetByteHours, p.kvByteHours)
  }

  /**
   * End to end: a collection that kept its caps, any history of the import and cleanup protocols,
   * and a platform that kept its own limits cost at most the reserved estimate.
   */
  lemma RunCostsAtMostItsReservation(
      kind: RunKind, trace: seq<Action>, caps: Caps, pages: seq<nat>, rows: nat, fetch: Collector.Usage, p: Platform,
      shape: Budget.RunShape, prices: Budget.Prices, bounds: Budget.Bounds)
    requires shape.Valid() && Budget.EstimateRunCost(shape, prices, bounds).Ok?
    requires var t := Budget.Resolve(shape, prices, bounds).value;
             && SameCaps(caps, t) && PlatformOk(p, rows, fetch.requests, shape, t)
             && |pages| == |Run(kind, trace, caps).sent| && PagesOfReads(pages, rows, t.pageLimit)
    // what the collector guarantees of itself
    requires rows <= shape.maxItems && fetch.requests <= shape.maxRequests
    requires fetch.bytesRead <= shape.maxBytes + Collector.HTTP_READ_CHUNK_BYTES
    ensures var t := Budget.Resolve(shape, prices, bounds).value;
            var e := Budget.EstimateRunCost(shape, prices, bounds).value;
            var u := UsageOf(rows, fetch, Run(kind, trace, caps), pages, p);
            && Budget.Total(Budget.CostOf(u, shape, t)) <= e.execution + e.postRun <= e.estimate
            // and that usage counts what was really fetched and sent
            && u.items == rows && u.requests == fetch.requests && u.bodyBytes == fetch.bytesRead && u.starts == 1
            && u.readsSent == u.kvReads == |Run(kind, trace, caps).sent| && u.pageRequests == Sum(pages)
            && u.itemReads == |Run(kind, trace, caps).sent| * rows + Sum(pages)
            && u.cleanupCalls == |Run(kind, trace, caps).calls|
            && u.datasetDeletes == DeleteOnce.DeletesIn(Run(kind, trace, caps).calls, Dataset)
            && u.kvDeletes == DeleteOnce.DeletesIn(Run(kind, trace, caps).calls, KvStore)
  {
    var t := Budget.Resolve(shape, prices, bounds).value;
    var s := Run(kind, trace, caps);
    SentFitsPriced(kind, trace, caps, pages, rows, shape, t);
    Budget.EstimateCoversEveryRun(UsageOf(rows, fetch, s, pages, p), shape, prices, bounds);
  }

  /** The job's input asks for what its run shape was priced for. */
  predicate Asks(input: Collector.Input, shape: Budget.RunShape) {
    input.scope.maxItems == shape.maxItems && input.scope.maxRequests == shape.maxRequests && input.scope.maxBytes == shape.maxBytes
  }

  /**
   * The composition: one collection against any server and clock, then every read that any history of
   * the protocols sent, each paging through the collected rows whatever its total headers say. On a
   * platform that keeps its own limits the whole costs at most the reserved estimate.
   */
  method CollectAndRead(
      input: Collector.Input, server: Collector.Server, kind: RunKind, trace: seq<Action>, caps: Caps,
      reported: (nat, nat) -> Option<nat>, shape: Budget.RunShape, prices: Budget.Prices, bounds: Budget.Bounds)
    returns (result: Collector.Result, fetch: Collector.Usage, pages: seq<nat>)
    requires input.paths >= 1 && Collector.ReadsBounded(server) && Asks(input, shape)
    requires shape.Valid() && Budget.EstimateRunCost(shape, prices, bounds).Ok?
    requires SameCaps(caps, Budget.Resolve(shape, prices, bounds).value)
    ensures |pages| == |Run(kind, trace, caps).sent|
    ensures var t := Budget.Resolve(shape, prices, bounds).value;
            forall i :: 0 <= i < |pages| ==> 1 <= pages[i] <= Paging.CeilDiv(|result.rows|, t.pageLimit) + 1
    ensures var t := Budget.Resolve(shape, prices, bounds).value;
            var e := Budget.EstimateRunCost(shape, prices, bounds).value;
            forall p :: PlatformOk(p, |result.rows|, fetch.requests, shape, t) ==>
              Budget.Total(Budget.CostOf(UsageOf(|result.rows|, fetch, Run(kind, trace, caps), pages, p), shape, t))
              <= e.execution + e.postRun <= e.estimate
  {
    var t := Budget.Resolve(shape, prices, bounds).value;
    var sent := |Run(kind, trace, caps).sent|;
    ghost var tally, planned;
    result, fetch, tally, planned := Collector.Collect(input, server);
    pages := [];
    for i := 0 to sent
      invariant |pages| == i
      invariant forall j :: 0 <= j < i ==> 1 <= pages[j] <= Paging.CeilDiv(|result.rows|, t.pageLimit) + 1
    {
      var _, requests := Paging.IterDatasetItems(result.rows, t.pageLimit, (offset: nat) => reported(i, offset));
      pages := pages + [requests];
    }
    forall p | PlatformOk(p, |result.rows|, fetch.requests, shape, t)
      ensures var e := Budget.EstimateRunCost(shape, prices, bounds).value;
              Budget.Total(Budget.CostOf(UsageOf(|result.rows|, fetch, Run(kind, trace, caps), pages, p), shape, t))
              <= e.execution + e.postRun <= e.estimate
    {
      RunCostsAtMostItsReservation(kind, trace, caps, pages, |result.rows|, fetch, p, shape, prices, bounds);
    }
  }
}
