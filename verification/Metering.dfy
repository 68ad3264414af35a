/**
 * The estimate against an independent meter (src/hw_radar/acquisition/apify/budget.py:290-568): what
 * the configured unit prices bill for a usage, that the estimate's components are attained by a run
 * that uses every cap, and that nothing but rounding and the margin is added to them.
 */
module Metering {
  import opened Prelude
  import opened Budget
  import RowBound
  import Paging

  /** The dearest storage operation, per operation. */
  function DearestOperation(p: Prices): real
    requires p.Verified()
  {
    MaxReal(MaxReal(p.datasetReads.value, p.datasetWrites.value), MaxReal(p.kvReads.value, p.kvWrites.value)) / 1000.0
  }

  /** What moving a number of bytes costs. */
  function Moved(bytes: nat, p: Prices): real
    requires p.Verified()
  {
    bytes as real * p.transfer.value / 1_000_000_000.0
  }

  /** A number of operations at a price per thousand. */
  function Operations(n: nat, perThousand: real): real {
    n as real * perThousand / 1000.0
  }

  /** Compute units: 1024 MB for an hour each. */
  function Computed(memoryMb: nat, seconds: real, perUnit: real): real {
    memoryMb as real * seconds * perUnit / 3_686_400.0
  }

  /** Storage, by the byte-hour at a price per gigabyte-hour. */
  function Stored(datasetByteHours: real, kvByteHours: real, p: Prices): real
    requires p.Verified()
  {
    (datasetByteHours * p.datasetStorage.value + kvByteHours * p.kvStorage.value) / 1_000_000_000.0
  }

  /** The execution half of the bill. */
  function BilledExecution(u: Usage, shape: RunShape, p: Prices): real
    requires p.Verified()
  {
    Computed(shape.memoryMb, u.seconds, p.usdPerCu.value)
    + Operations(u.items, p.datasetWrites.value) + Operations(u.kvWrites, p.kvWrites.value)
    + Moved(u.bodyBytes + u.overheadBytes + u.rowBytes + u.kvBytesWritten, p)
  }

  predicate CallsBounded(b: Bounds) {
    CapSet(b.apiCallOverheadBytes, 0) && CapSet(b.maxApiResponseBytes, 0) && CapSet(b.maxDatasetPageBytes, 0)
  }

  /** One API call: the dearest operation, and its largest response over the wire. */
  function CallBill(p: Prices, b: Bounds): real
    requires p.Verified() && CallsBounded(b)
  {
    DearestOperation(p) + Moved(b.apiCallOverheadBytes.value + 131_072 + b.maxApiResponseBytes.value, p)
  }

  /** One dataset page over the wire; its rows are billed as reads. */
  function PageBill(p: Prices, b: Bounds): real
    requires p.Verified() && CallsBounded(b)
  {
    Moved(b.apiCallOverheadBytes.value + 131_072 + b.maxDatasetPageBytes.value, p)
  }

  /** The post-run half: reads, deletes, storage, calls and pages. */
  function BilledAfter(u: Usage, p: Prices, b: Bounds): real
    requires p.Verified() && CallsBounded(b)
  {
    Operations(u.itemReads, p.datasetReads.value) + Operations(u.kvReads, p.kvReads.value)
    + Operations(u.datasetDeletes * (u.items + 1), p.datasetWrites.value) + Operations(u.kvDeletes * 3, p.kvWrites.value)
    + Stored(u.datasetByteHours, u.kvByteHours, p)
    + (u.starts + u.polls + u.cleanupCalls + u.kvReads) as real * CallBill(p, b)
    + u.pageRequests as real * PageBill(p, b)
  }

  // ── The model of the bill is the bill ─────────────────────────────────────

  lemma PerThousand(n: nat, price: real)
    ensures At(n, price / 1000.0) == Operations(n, price)
  {
  }

  lemma PerByte(bytes: nat, p: Prices)
    requires p.Verified()
    ensures At(bytes, p.transfer.value / BYTES_PER_GB) == Moved(bytes, p)
  {
  }

  lemma PerComputeUnit(m: real, seconds: real, price: real)
    ensures m / 1024.0 * seconds / 3600.0 * price == m * seconds * price / 3_686_400.0
  {
    var x := m * seconds;
    assert m / 1024.0 * seconds == x / 1024.0;
    assert x / 1024.0 / 3600.0 == x / 3_686_400.0;
    assert x / 3_686_400.0 * price == x * price / 3_686_400.0;
  }

  lemma ComputeIsBilled(memoryMb: nat, seconds: real, t: Terms)
    ensures ComputePart(memoryMb, seconds, t) == Computed(memoryMb, seconds, t.usdPerCu)
  {
    PerComputeUnit(memoryMb as real, seconds, t.usdPerCu);
  }

  lemma WritesAreBilled(items: nat, kvWrites: nat, shape: RunShape, p: Prices, b: Bounds)
    requires Resolve(shape, p, b).Ok?
    ensures WritesPart(items, kvWrites, Resolve(shape, p, b).value)
            == Operations(items, p.datasetWrites.value) + Operations(kvWrites, p.kvWrites.value)
  {
    PerThousand(items, p.datasetWrites.value);
    PerThousand(kvWrites, p.kvWrites.value);
  }

  lemma ReadsAreBilled(itemReads: nat, kvReads: nat, shape: RunShape, p: Prices, b: Bounds)
    requires Resolve(shape, p, b).Ok?
    ensures ReadsPart(itemReads, kvReads, Resolve(shape, p, b).value)
            == Operations(itemReads, p.datasetReads.value) + Operations(kvReads, p.kvReads.value)
  {
    PerThousand(itemReads, p.datasetReads.value);
    PerThousand(kvReads, p.kvReads.value);
  }

  lemma CallIsBilled(shape: RunShape, p: Prices, b: Bounds)
    requires Resolve(shape, p, b).Ok?
    ensures var t := Resolve(shape, p, b).value; t.CallPrice() == CallBill(p, b) && t.PagePrice() == PageBill(p, b)
  {
    PerByte(b.apiCallOverheadBytes.value + 131_072 + b.maxApiResponseBytes.value, p);
    PerByte(b.apiCallOverheadBytes.value + 131_072 + b.maxDatasetPageBytes.value, p);
  }

  lemma CallsAreBilled(calls: nat, pages: nat, shape: RunShape, p: Prices, b: Bounds)
    requires Resolve(shape, p, b).Ok?
    ensures CallsPart(calls, pages, Resolve(shape, p, b).value) == calls as real * CallBill(p, b) + pages as real * PageBill(p, b)
  {
    CallIsBilled(shape, p, b);
  }

  lemma StorageIsBilled(datasetByteHours: real, kvByteHours: real, shape: RunShape, p: Prices, b: Bounds)
    requires Resolve(shape, p, b).Ok?
    ensures HeldPart(datasetByteHours, kvByteHours, Resolve(shape, p, b).value) == Stored(datasetByteHours, kvByteHours, p)
  {
  }

  /** The cost the soundness theorems bound is what the meter bills at the configured settings. */
  lemma CostIsBilled(u: Usage, shape: RunShape, p: Prices, b: Bounds)
    requires Resolve(shape, p, b).Ok?
    ensures var t := Resolve(shape, p, b).value;
            && CostOf(u, shape, t).Execution() == BilledExecution(u, shape, p)
            && CostOf(u, shape, t).PostRun() == BilledAfter(u, p, b)
  {
    var t := Resolve(shape, p, b).value;
    ComputeIsBilled(shape.memoryMb, u.seconds, t);
    WritesAreBilled(u.items, u.kvWrites, shape, p, b);
    PerByte(u.bodyBytes + u.overheadBytes + u.rowBytes + u.kvBytesWritten, p);
    ReadsAreBilled(u.itemReads, u.kvReads, shape, p, b);
    WritesAreBilled(u.datasetDeletes * (u.items + 1), u.kvDeletes * KV_WRITES_PER_DELETE, shape, p, b);
    StorageIsBilled(u.datasetByteHours, u.kvByteHours, shape, p, b);
    CallsAreBilled(u.starts + u.polls + u.cleanupCalls + u.kvReads, u.pageRequests, shape, p, b);
  }

  // ── The bound is attained ─────────────────────────────────────────────────

  /** How long storage can be held: its own lifetime, or a cycle with its guards, whichever is longer. */
  function StorageHours(b: Bounds): real
    requires b.storageMaxLifetimeS.Some? && b.cycleBoundaryGuardS.Some?
  {
    MaxReal(b.storageMaxLifetimeS.value as real / 3600.0, 744.0 + (2 * b.cycleBoundaryGuardS.value) as real / 3600.0)
  }

  /** A run and aftermath that use every cap: four cleanup calls an attempt, both deletes each time, and a last empty page a read. */
  function WorstUsage(shape: RunShape, p: Prices, b: Bounds): Usage
    requires Resolve(shape, p, b).Ok?
  {
    var pages := Paging.CeilDiv(shape.maxItems, RowBound.PageLimit(b.maxDatasetPageBytes.value, shape.maxItemBytes).value) + 1;
    var read, attempts := b.maxDatasetReads.value, b.maxDeleteAttempts.value;
    Usage(shape.timeoutS as real, shape.maxItems, shape.maxItems * shape.maxItemBytes,
          b.maxKvWrites.value, b.maxKvWrites.value * b.maxKvBytes.value,
          shape.maxRequests, shape.maxBytes + 65_536, shape.maxRequests * (b.apiCallOverheadBytes.value + 131_072),
          read, read * pages, read * (shape.maxItems + pages), b.maxKvReads.value,
          attempts, attempts, 4 * attempts, b.maxRunPolls.value, 1,
          (shape.maxItems * shape.maxItemBytes) as real * StorageHours(b),
          (b.maxKvBytes.value + 16_384) as real * StorageHours(b))
  }

  /** The worst usage is within the caps, so the bound below is attained by a run the caps allow. */
  lemma WorstIsWithinCaps(shape: RunShape, p: Prices, b: Bounds)
    requires Resolve(shape, p, b).Ok?
    ensures WithinCaps(WorstUsage(shape, p, b), shape, Resolve(shape, p, b).value)
  {
    var t := Resolve(shape, p, b).value;
    var pages := PagesPerRead(shape, t);
    assert t.datasetReads * (shape.maxItems + pages) == t.datasetReads * shape.maxItems + t.datasetReads * pages;
    assert t.StorageHours() == StorageHours(b);
    assert 0.0 <= StorageHours(b);
    Scaled(0.0, (shape.maxItems * shape.maxItemBytes) as real, StorageHours(b));
    Scaled(0.0, (t.kvBytes + MAX_API_REQUEST_BODY_BYTES) as real, StorageHours(b));
  }

  lemma StorageAttained(datasetBytes: nat, kvBytes: nat, t: Terms)
    ensures HeldPart(datasetBytes as real * t.StorageHours(), kvBytes as real * t.StorageHours(), t) == StoragePart(datasetBytes, kvBytes, t)
  {
    var h, d, k := t.StorageHours(), datasetBytes as real, kvBytes as real;
    ProductsSwap(d, h, t.datasetStorage);
    ProductsSwap(k, h, t.kvStorage);
    Distributes(d * t.datasetStorage, k * t.kvStorage, h);
    DividedScales(d * t.datasetStorage + k * t.kvStorage, h);
  }

  /** The worst usage in the estimate's own terms. */
  function WorstOf(shape: RunShape, t: Terms): Usage
    requires t.pageLimit >= 1
  {
    var pages := PagesPerRead(shape, t);
    Usage(shape.timeoutS as real, shape.maxItems, shape.maxItems * shape.maxItemBytes, t.kvWrites, t.kvWrites * t.kvBytes,
          shape.maxRequests, shape.maxBytes + HTTP_READ_CHUNK_BYTES, shape.maxRequests * t.WireOverhead(),
          t.datasetReads, t.datasetReads * pages, t.datasetReads * (shape.maxItems + pages), t.kvReads,
          t.deleteAttempts, t.deleteAttempts, CALLS_PER_CLEANUP_ATTEMPT * t.deleteAttempts, t.runPolls, START_CALLS,
          (shape.maxItems * shape.maxItemBytes) as real * t.StorageHours(),
          (t.kvBytes + MAX_API_REQUEST_BODY_BYTES) as real * t.StorageHours())
  }

  lemma WorstInTerms(shape: RunShape, p: Prices, b: Bounds)
    requires Resolve(shape, p, b).Ok?
    ensures WorstUsage(shape, p, b) == WorstOf(shape, Resolve(shape, p, b).value)
  {
  }

  /** Component by component, the worst usage costs what the estimate reserves for it. */
  lemma WorstCostsTheComponents(shape: RunShape, t: Terms)
    requires t.pageLimit >= 1
    ensures CostOf(WorstOf(shape, t), shape, t) == ComponentsOf(shape, t)
  {
    var u := WorstOf(shape, t);
    StorageAttained(shape.maxItems * shape.maxItemBytes, t.kvBytes + MAX_API_REQUEST_BODY_BYTES, t);
    assert u.bodyBytes + u.overheadBytes == ActorFetchBytes(shape, t);
  }

  /** The estimate is tight: the worst usage costs exactly its components, so no cap is priced twice or too high. */
  lemma BoundIsAttained(shape: RunShape, p: Prices, b: Bounds)
    requires Resolve(shape, p, b).Ok?
    ensures var t, u := Resolve(shape, p, b).value, WorstUsage(shape, p, b);
            && ComponentsOf(shape, t).Execution() == BilledExecution(u, shape, p)
            && ComponentsOf(shape, t).PostRun() == BilledAfter(u, p, b)
  {
    WorstInTerms(shape, p, b);
    WorstCostsTheComponents(shape, Resolve(shape, p, b).value);
    CostIsBilled(WorstUsage(shape, p, b), shape, p, b);
  }

  // ── Rounding and the margin ───────────────────────────────────────────────

  /** The reserve is the rounded parts' sum times one plus the margin, rounded up once more. */
  lemma MarginIsExact(execution: real, postRun: real, margin: real)
    requires margin >= 0.0
    ensures var reserved := (Usd(execution) + Usd(postRun)) * (1.0 + margin);
            && reserved <= WithMargin(execution, postRun, margin) < reserved + 0.0001
            && (execution + postRun) * (1.0 + margin) <= reserved
  {
    Scaled(execution + postRun, Usd(execution) + Usd(postRun), 1.0 + margin);
  }

  /** The recorded figures of an estimate, over its components and its correction reads. */
  ghost predicate Figures(e: Estimate, execution: real, after: real, corrections: real, margin: real) {
    && execution <= e.execution < execution + 0.0001 && after <= e.postRun < after + 0.0001
    && (e.execution + e.postRun) * (1.0 + margin) <= e.estimate < (e.execution + e.postRun) * (1.0 + margin) + 0.0001
    && (execution + after) * (1.0 + margin) <= e.estimate
    && corrections <= e.monitoring < corrections + 0.0001
  }

  lemma FiguresFrom(e: Estimate, execution: real, after: real, corrections: real, margin: real)
    requires margin >= 0.0
    requires e.execution == Usd(execution) && e.postRun == Usd(after) && e.monitoring == Usd(corrections)
    requires e.estimate == WithMargin(execution, after, margin)
    ensures Figures(e, execution, after, corrections, margin)
  {
    MarginIsExact(execution, after, margin);
  }

  lemma Recorded(shape: RunShape, p: Prices, b: Bounds)
    requires shape.Valid() && EstimateRunCost(shape, p, b).Ok?
    ensures var t, e := Resolve(shape, p, b).value, EstimateRunCost(shape, p, b).value;
            var c := ComponentsOf(shape, t);
            && e.execution == Usd(c.Execution()) && e.postRun == Usd(c.PostRun())
            && e.estimate == WithMargin(c.Execution(), c.PostRun(), b.margin.value)
            && e.monitoring == Usd(At(t.correctionReads, t.CallPrice()))
  {
  }

  lemma CorrectionsAreBilled(shape: RunShape, p: Prices, b: Bounds)
    requires Resolve(shape, p, b).Ok?
    ensures var t := Resolve(shape, p, b).value;
            At(t.correctionReads, t.CallPrice()) == b.maxCorrectionReads.value as real * CallBill(p, b)
  {
    CallIsBilled(shape, p, b);
  }

  /**
   * The recorded figures of an estimate: each part within a ten-thousandth above the worst bill, the
   * reserved estimate within one more above the parts' sum times one plus the margin, and the
   * monitoring allowance within one above its correction reads.
   */
  lemma EstimateIsRoundedMargin(shape: RunShape, p: Prices, b: Bounds)
    requires shape.Valid() && EstimateRunCost(shape, p, b).Ok?
    ensures var u := WorstUsage(shape, p, b);
            Figures(EstimateRunCost(shape, p, b).value, BilledExecution(u, shape, p), BilledAfter(u, p, b),
                    b.maxCorrectionReads.value as real * CallBill(p, b), b.margin.value)
  {
    BoundIsAttained(shape, p, b);
    CorrectionsAreBilled(shape, p, b);
    Recorded(shape, p, b);
    var u := WorstUsage(shape, p, b);
    FiguresFrom(EstimateRunCost(shape, p, b).value, BilledExecution(u, shape, p), BilledAfter(u, p, b),
                b.maxCorrectionReads.value as real * CallBill(p, b), b.margin.value);
  }
}
