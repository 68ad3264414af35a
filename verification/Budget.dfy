/**
 * What one run may cost (src/hw_radar/acquisition/apify/budget.py:290-568), over exact reals.
 */
module Budget {
  import opened Prelude
  import RowBound
  import Paging

  // ── Settings ──────────────────────────────────────────────────────────────

  /** A decimal setting: unset, present but not a finite number, or a number. */
  datatype Setting = Unset | NotFinite | Amount(value: real) {
    predicate Usable() {
      Amount? && value >= 0.0
    }
  }

  datatype Prices = Prices(
    usdPerCu: Setting, datasetReads: Setting, datasetWrites: Setting, datasetStorage: Setting,
    kvReads: Setting, kvWrites: Setting, kvStorage: Setting, transfer: Setting)
  {
    predicate Verified() {
      && usdPerCu.Usable() && datasetReads.Usable() && datasetWrites.Usable() && datasetStorage.Usable()
      && kvReads.Usable() && kvWrites.Usable() && kvStorage.Usable() && transfer.Usable()
    }
  }

  type Cap = Option<int>

  predicate CapSet(cap: Cap, minimum: nat) {
    cap.Some? && cap.value >= minimum
  }

  /** The caps and component inputs of an estimate. */
  datatype Bounds = Bounds(
    margin: Setting, maxTimeoutS: Cap, maxDatasetReads: Cap, maxKvReads: Cap, maxDeleteAttempts: Cap,
    maxRunPolls: Cap, maxCorrectionReads: Cap, maxKvWrites: Cap, maxKvBytes: Cap, storageMaxLifetimeS: Cap,
    apiCallOverheadBytes: Cap, maxApiResponseBytes: Cap, maxDatasetPageBytes: Cap, cycleBoundaryGuardS: Cap)

  /** The caps a run start requests. */
  datatype RunShape = RunShape(
    memoryMb: nat, timeoutS: nat, maxItems: nat, maxRequests: nat, maxBytes: nat, maxItemBytes: nat)
  {
    predicate Valid() {
      memoryMb > 0 && timeoutS > 0 && maxItemBytes > 0
    }
  }

  datatype Denial = PricingUnverified | UnboundedComponent

  datatype Priced<T> = Ok(value: T) | Denied(reason: Denial)

  // ── Constants ─────────────────────────────────────────────────────────────

  const HTTP_READ_CHUNK_BYTES: nat := 65536
  const HTTP_RECEIVE_BUFFER_BYTES: nat := 65536
  const MAX_API_REQUEST_BODY_BYTES: nat := 16384
  const FULL_CYCLE_HOURS: real := 744.0
  const BYTES_PER_GB: real := 1_000_000_000.0
  const SECONDS_PER_HOUR: real := 3600.0
  const MB_PER_GB_CU: real := 1024.0
  const CALLS_PER_CLEANUP_ATTEMPT: nat := 4
  const KV_WRITES_PER_DELETE: nat := 3
  const START_CALLS: nat := 1
  const MIN_KV_WRITES: nat := 2
  const USD_QUANTUM: real := 0.0001

  // ── Rounding ──────────────────────────────────────────────────────────────

  /** Round up to the ledger's four decimals. */
  function Usd(amount: real): (r: real)
    ensures amount <= r < amount + USD_QUANTUM
  {
    var units := -((-amount * 10_000.0).Floor);
    units as real / 10_000.0
  }

  // ── Terms: the resolved inputs of an estimate ─────────────────────────────

  datatype Terms = Terms(
    usdPerCu: real, datasetRead: real, datasetWrite: real, kvRead: real, kvWrite: real,
    datasetStorage: real, kvStorage: real, perByte: real, margin: real,
    datasetReads: nat, kvReads: nat, deleteAttempts: nat, runPolls: nat, correctionReads: nat,
    kvWrites: nat, kvBytes: nat, lifetimeS: nat, guardS: nat, overheadBytes: nat, responseCap: nat,
    pageCap: nat, pageLimit: nat)
  {
    predicate NonNegative() {
      && usdPerCu >= 0.0 && datasetRead >= 0.0 && datasetWrite >= 0.0 && kvRead >= 0.0 && kvWrite >= 0.0
      && datasetStorage >= 0.0 && kvStorage >= 0.0 && perByte >= 0.0 && margin >= 0.0 && pageLimit >= 1
    }

    /** `API_CALL_OVERHEAD_BYTES + 2 x HTTP_RECEIVE_BUFFER_BYTES`. */
    function WireOverhead(): nat {
      overheadBytes + 2 * HTTP_RECEIVE_BUFFER_BYTES
    }

    /** One call: the dearest storage operation plus the transfer of the largest response. */
    function CallPrice(): real {
      MaxReal(MaxReal(datasetRead, datasetWrite), MaxReal(kvRead, kvWrite))
      + (WireOverhead() + responseCap) as real * perByte
    }

    /** One dataset page's transfer. */
    function PagePrice(): real {
      (WireOverhead() + pageCap) as real * perByte
    }

    function StorageHours(): real {
      MaxReal(lifetimeS as real / SECONDS_PER_HOUR, FULL_CYCLE_HOURS + (2 * guardS) as real / SECONDS_PER_HOUR)
    }
  }

  function MaxReal(a: real, b: real): real {
    if a < b then b else a
  }

  predicate BoundsSet(b: Bounds, shape: RunShape) {
    && b.margin.Usable() && CapSet(b.maxTimeoutS, 1) && shape.timeoutS <= b.maxTimeoutS.value
    && CapSet(b.maxDatasetReads, 0) && CapSet(b.maxKvReads, 0) && CapSet(b.maxDeleteAttempts, 0)
    && CapSet(b.maxRunPolls, 0) && CapSet(b.maxCorrectionReads, 0) && CapSet(b.maxKvWrites, MIN_KV_WRITES)
    && CapSet(b.maxKvBytes, 0) && CapSet(b.maxApiResponseBytes, 0) && b.maxKvBytes.value <= b.maxApiResponseBytes.value
    && CapSet(b.maxDatasetPageBytes, 0) && RowBound.PageLimit(b.maxDatasetPageBytes.value, shape.maxItemBytes).Some?
    && CapSet(b.storageMaxLifetimeS, 1) && CapSet(b.cycleBoundaryGuardS, 0) && CapSet(b.apiCallOverheadBytes, 0)
  }

  /** Resolve the settings: prices are judged first, then every cap. */
  function Resolve(shape: RunShape, p: Prices, b: Bounds): (r: Priced<Terms>)
    ensures r.Ok? ==> r.value.NonNegative()
  {
    if !p.Verified() then Denied(PricingUnverified)
    else if !BoundsSet(b, shape) then Denied(UnboundedComponent)
    else
      Ok(Terms(p.usdPerCu.value, p.datasetReads.value / 1000.0, p.datasetWrites.value / 1000.0,
               p.kvReads.value / 1000.0, p.kvWrites.value / 1000.0, p.datasetStorage.value, p.kvStorage.value,
               p.transfer.value / BYTES_PER_GB, b.margin.value,
               b.maxDatasetReads.value, b.maxKvReads.value, b.maxDeleteAttempts.value, b.maxRunPolls.value,
               b.maxCorrectionReads.value, b.maxKvWrites.value, b.maxKvBytes.value, b.storageMaxLifetimeS.value,
               b.cycleBoundaryGuardS.value, b.apiCallOverheadBytes.value, b.maxApiResponseBytes.value,
               b.maxDatasetPageBytes.value,
               RowBound.PageLimit(b.maxDatasetPageBytes.value, shape.maxItemBytes).value))
  }

  // ── The estimate ──────────────────────────────────────────────────────────

  datatype Components = Components(
    compute: real, runWrites: real, transfer: real, proxy: real,
    postRunReads: real, postRunDeletes: real, storage: real, apiCalls: real)
  {
    function Execution(): real {
      compute + runWrites + transfer + proxy
    }

    function PostRun(): real {
      postRunReads + postRunDeletes + storage + apiCalls
    }
  }

  /** `ceil(max_items / page_limit) + 1`: the + 1 is the terminating empty page. */
  function PagesPerRead(shape: RunShape, t: Terms): nat
    requires t.pageLimit >= 1
  {
    Paging.CeilDiv(shape.maxItems, t.pageLimit) + 1
  }

  /** `maxBytes + maxRequests x request_wire_overhead + HTTP_READ_CHUNK_BYTES`. */
  function ActorFetchBytes(shape: RunShape, t: Terms): nat {
    shape.maxBytes + shape.maxRequests * t.WireOverhead() + HTTP_READ_CHUNK_BYTES
  }

  function ComputeUnits(memoryMb: nat, seconds: real): real {
    memoryMb as real / MB_PER_GB_CU * seconds / SECONDS_PER_HOUR
  }

  /** `n` units at a unit price. */
  function At(n: nat, price: real): real {
    n as real * price
  }

  function ComputePart(memoryMb: nat, seconds: real, t: Terms): real {
    ComputeUnits(memoryMb, seconds) * t.usdPerCu
  }

  /** Writes; a delete is priced as the dearest operation of its type, a write. */
  function WritesPart(items: nat, kvWrites: nat, t: Terms): real {
    At(items, t.datasetWrite) + At(kvWrites, t.kvWrite)
  }

  function ReadsPart(itemReads: nat, kvReads: nat, t: Terms): real {
    At(itemReads, t.datasetRead) + At(kvReads, t.kvRead)
  }

  function CallsPart(calls: nat, pages: nat, t: Terms): real {
    At(calls, t.CallPrice()) + At(pages, t.PagePrice())
  }

  function StoragePart(datasetBytes: nat, kvBytes: nat, t: Terms): real {
    (At(datasetBytes, t.datasetStorage) + At(kvBytes, t.kvStorage)) / BYTES_PER_GB * t.StorageHours()
  }

  function ComponentsOf(shape: RunShape, t: Terms): Components
    requires t.pageLimit >= 1
  {
    var pages := PagesPerRead(shape, t);
    var datasetBytes := shape.maxItems * shape.maxItemBytes;
    Components(
      ComputePart(shape.memoryMb, shape.timeoutS as real, t),
      WritesPart(shape.maxItems, t.kvWrites, t),
      At(ActorFetchBytes(shape, t) + datasetBytes + t.kvWrites * t.kvBytes, t.perByte),
      0.0,
      ReadsPart(t.datasetReads * (shape.maxItems + pages), t.kvReads, t),
      WritesPart(t.deleteAttempts * (shape.maxItems + 1), t.deleteAttempts * KV_WRITES_PER_DELETE, t),
      StoragePart(datasetBytes, t.kvBytes + MAX_API_REQUEST_BODY_BYTES, t),
      CallsPart(START_CALLS + t.runPolls + CALLS_PER_CLEANUP_ATTEMPT * t.deleteAttempts + t.kvReads,
                t.datasetReads * pages, t))
  }

  /** Round the parts first, then the product. */
  function WithMargin(execution: real, postRun: real, margin: real): real {
    Usd((Usd(execution) + Usd(postRun)) * (1.0 + margin))
  }

  datatype Estimate = Estimate(components: Components, execution: real, postRun: real, monitoring: real, estimate: real) {
    /** What admission debits: the estimate plus the monitoring allowance. */
    function Admission(): real {
      estimate + monitoring
    }
  }

  function EstimateRunCost(shape: RunShape, p: Prices, b: Bounds): Priced<Estimate>
    requires shape.Valid()
  {
    var resolved := Resolve(shape, p, b);
    if resolved.Denied? then Denied(resolved.reason)
    else
      var t := resolved.value;
      var c := ComponentsOf(shape, t);
      Ok(Estimate(c, Usd(c.Execution()), Usd(c.PostRun()), Usd(At(t.correctionReads, t.CallPrice())),
                  WithMargin(c.Execution(), c.PostRun(), t.margin)))
  }

  // ── What a run really used ────────────────────────────────────────────────

  /** Everything a run and its aftermath consumed. */
  datatype Usage = Usage(
    seconds: real,             // compute time
    items: nat,                // dataset rows written
    rowBytes: nat,             // their bytes
    kvWrites: nat, kvBytesWritten: nat,
    requests: nat, bodyBytes: nat, overheadBytes: nat,   // the Actor's fetches
    readsSent: nat,            // dataset reads
    pageRequests: nat, itemReads: nat, kvReads: nat,
    datasetDeletes: nat, kvDeletes: nat,
    cleanupCalls: nat, polls: nat, starts: nat,
    datasetByteHours: real, kvByteHours: real)

  /** The caps the Actor, the platform and the import protocol enforce. */
  predicate WithinCaps(u: Usage, shape: RunShape, t: Terms)
    requires t.pageLimit >= 1
  {
    && 0.0 <= u.seconds <= shape.timeoutS as real
    && u.items <= shape.maxItems && u.rowBytes <= u.items * shape.maxItemBytes
    && u.kvWrites <= t.kvWrites && u.kvBytesWritten <= u.kvWrites * t.kvBytes
    && u.requests <= shape.maxRequests && u.bodyBytes <= shape.maxBytes + HTTP_READ_CHUNK_BYTES
    && u.overheadBytes <= u.requests * t.WireOverhead()
    && u.readsSent <= t.datasetReads && u.pageRequests <= u.readsSent * PagesPerRead(shape, t)
    && u.itemReads <= u.readsSent * u.items + u.pageRequests && u.kvReads <= t.kvReads
    && u.datasetDeletes <= t.deleteAttempts && u.kvDeletes <= t.deleteAttempts
    && u.cleanupCalls <= CALLS_PER_CLEANUP_ATTEMPT * t.deleteAttempts
    && u.polls <= t.runPolls && u.starts <= START_CALLS
    && 0.0 <= u.datasetByteHours <= (shape.maxItems * shape.maxItemBytes) as real * t.StorageHours()
    && 0.0 <= u.kvByteHours <= (t.kvBytes + MAX_API_REQUEST_BODY_BYTES) as real * t.StorageHours()
  }

  /** Storage actually held, priced by the byte-hour. */
  function HeldPart(datasetByteHours: real, kvByteHours: real, t: Terms): real {
    (datasetByteHours * t.datasetStorage + kvByteHours * t.kvStorage) / BYTES_PER_GB
  }

  /** What the usage costs at the configured prices, component by component. */
  function CostOf(u: Usage, shape: RunShape, t: Terms): Components {
    Components(
      ComputePart(shape.memoryMb, u.seconds, t),
      WritesPart(u.items, u.kvWrites, t),
      At(u.bodyBytes + u.overheadBytes + u.rowBytes + u.kvBytesWritten, t.perByte),
      0.0,
      ReadsPart(u.itemReads, u.kvReads, t),
      WritesPart(u.datasetDeletes * (u.items + 1), u.kvDeletes * KV_WRITES_PER_DELETE, t),
      HeldPart(u.datasetByteHours, u.kvByteHours, t),
      CallsPart(u.starts + u.polls + u.cleanupCalls + u.kvReads, u.pageRequests, t))
  }

  // ── Arithmetic ────────────────────────────────────────────────────────────

  lemma Scaled(a: real, b: real, price: real)
    requires a <= b && price >= 0.0
    ensures a * price <= b * price
  {
    assert (b - a) * price >= 0.0;
  }

  lemma AtGrows(a: nat, b: nat, price: real)
    requires a <= b && price >= 0.0
    ensures 0.0 <= At(a, price) <= At(b, price)
  {
    Scaled(a as real, b as real, price);
    Scaled(0.0, a as real, price);
  }

  lemma Products(a: nat, b: nat, c: nat, d: nat)
    requires a <= c && b <= d
    ensures a * b <= c * d
  {
    assert a * b <= c * b by { assert (c - a) * b >= 0; }
    assert c * b <= c * d by { assert c * (d - b) >= 0; }
  }

  lemma CallPricesAreNotNegative(t: Terms)
    requires t.NonNegative()
    ensures t.CallPrice() >= 0.0 && t.PagePrice() >= 0.0
  {
    Scaled(0.0, (t.WireOverhead() + t.responseCap) as real, t.perByte);
    Scaled(0.0, (t.WireOverhead() + t.pageCap) as real, t.perByte);
  }

  // ── Soundness, one component at a time ────────────────────────────────────

  lemma ComputeIsCovered(memoryMb: nat, seconds: real, timeout: real, t: Terms)
    requires t.NonNegative() && 0.0 <= seconds <= timeout
    ensures 0.0 <= ComputePart(memoryMb, seconds, t) <= ComputePart(memoryMb, timeout, t)
  {
    var rate := memoryMb as real / MB_PER_GB_CU;
    assert rate >= 0.0;
    Scaled(0.0, seconds, rate);
    Scaled(seconds, timeout, rate);
    Scaled(0.0, ComputeUnits(memoryMb, seconds), t.usdPerCu);
    Scaled(ComputeUnits(memoryMb, seconds), ComputeUnits(memoryMb, timeout), t.usdPerCu);
  }

  lemma WritesAreCovered(items: nat, maxItems: nat, kvWrites: nat, maxKvWrites: nat, t: Terms)
    requires t.NonNegative() && items <= maxItems && kvWrites <= maxKvWrites
    ensures 0.0 <= WritesPart(items, kvWrites, t) <= WritesPart(maxItems, maxKvWrites, t)
  {
    AtGrows(items, maxItems, t.datasetWrite);
    AtGrows(kvWrites, maxKvWrites, t.kvWrite);
  }

  lemma ReadsAreCovered(itemReads: nat, maxItemReads: nat, kvReads: nat, maxKvReads: nat, t: Terms)
    requires t.NonNegative() && itemReads <= maxItemReads && kvReads <= maxKvReads
    ensures 0.0 <= ReadsPart(itemReads, kvReads, t) <= ReadsPart(maxItemReads, maxKvReads, t)
  {
    AtGrows(itemReads, maxItemReads, t.datasetRead);
    AtGrows(kvReads, maxKvReads, t.kvRead);
  }

  lemma CallsAreCovered(calls: nat, maxCalls: nat, pages: nat, maxPages: nat, t: Terms)
    requires t.NonNegative() && calls <= maxCalls && pages <= maxPages
    ensures 0.0 <= CallsPart(calls, pages, t) <= CallsPart(maxCalls, maxPages, t)
  {
    CallPricesAreNotNegative(t);
    AtGrows(calls, maxCalls, t.CallPrice());
    AtGrows(pages, maxPages, t.PagePrice());
  }

  lemma ProductsSwap(n: real, hours: real, price: real)
    ensures n * hours * price == n * price * hours
  {
  }

  /** Storage held for at most its hours costs at most its bytes at its price for those hours. */
  lemma HeldAtPrice(byteHours: real, bytes: nat, hours: real, price: real)
    requires 0.0 <= byteHours <= bytes as real * hours && price >= 0.0
    ensures 0.0 <= byteHours * price <= At(bytes, price) * hours
  {
    Scaled(0.0, byteHours, price);
    Scaled(byteHours, bytes as real * hours, price);
    ProductsSwap(bytes as real, hours, price);
  }

  lemma Distributes(x: real, y: real, hours: real)
    ensures (x + y) * hours == x * hours + y * hours
  {
  }

  lemma DividedScales(x: real, hours: real)
    ensures x / BYTES_PER_GB * hours == x * hours / BYTES_PER_GB
  {
  }

  lemma HeldIsCovered(datasetByteHours: real, kvByteHours: real, datasetBytes: nat, kvBytes: nat, t: Terms)
    requires t.NonNegative()
    requires 0.0 <= datasetByteHours <= datasetBytes as real * t.StorageHours()
    requires 0.0 <= kvByteHours <= kvBytes as real * t.StorageHours()
    ensures 0.0 <= HeldPart(datasetByteHours, kvByteHours, t) <= StoragePart(datasetBytes, kvBytes, t)
  {
    var h := t.StorageHours();
    var d, k := At(datasetBytes, t.datasetStorage), At(kvBytes, t.kvStorage);
    HeldAtPrice(datasetByteHours, datasetBytes, h, t.datasetStorage);
    HeldAtPrice(kvByteHours, kvBytes, h, t.kvStorage);
    Distributes(d, k, h);
    DividedScales(d + k, h);
    QuotientsOrdered(datasetByteHours * t.datasetStorage + kvByteHours * t.kvStorage, d * h + k * h);
  }

  lemma QuotientsOrdered(x: real, y: real)
    requires 0.0 <= x <= y
    ensures 0.0 <= x / BYTES_PER_GB <= y / BYTES_PER_GB
  {
  }

  /** The Actor's bytes, overheads and stored bytes fit what the transfer component prices. */
  lemma TransferIsCovered(u: Usage, shape: RunShape, t: Terms)
    requires t.NonNegative() && WithinCaps(u, shape, t)
    ensures u.bodyBytes + u.overheadBytes <= ActorFetchBytes(shape, t)
    ensures u.bodyBytes + u.overheadBytes + u.rowBytes + u.kvBytesWritten
            <= ActorFetchBytes(shape, t) + shape.maxItems * shape.maxItemBytes + t.kvWrites * t.kvBytes
  {
    Products(u.requests, t.WireOverhead(), shape.maxRequests, t.WireOverhead());
    Products(u.items, shape.maxItemBytes, shape.maxItems, shape.maxItemBytes);
    Products(u.kvWrites, t.kvBytes, t.kvWrites, t.kvBytes);
  }

  /** The page requests and item reads of every read fit what the read components price. */
  lemma ReadingIsCovered(u: Usage, shape: RunShape, t: Terms)
    requires t.NonNegative() && WithinCaps(u, shape, t)
    ensures u.itemReads <= t.datasetReads * (shape.maxItems + PagesPerRead(shape, t))
    ensures u.pageRequests <= t.datasetReads * PagesPerRead(shape, t)
  {
    var pages := PagesPerRead(shape, t);
    Products(u.readsSent, pages, t.datasetReads, pages);
    Products(u.readsSent, u.items, t.datasetReads, shape.maxItems);
    assert t.datasetReads * (shape.maxItems + pages) == t.datasetReads * shape.maxItems + t.datasetReads * pages;
  }

  /** No part of a run within its caps costs more than its component. */
  lemma EveryPartIsCovered(u: Usage, shape: RunShape, t: Terms)
    requires t.NonNegative() && WithinCaps(u, shape, t)
    ensures 0.0 <= CostOf(u, shape, t).Execution() <= ComponentsOf(shape, t).Execution()
    ensures 0.0 <= CostOf(u, shape, t).PostRun() <= ComponentsOf(shape, t).PostRun()
  {
    ExecutionIsCovered(u, shape, t);
    PostRunIsCovered(u, shape, t);
  }

  lemma ExecutionIsCovered(u: Usage, shape: RunShape, t: Terms)
    requires t.NonNegative() && WithinCaps(u, shape, t)
    ensures 0.0 <= CostOf(u, shape, t).Execution() <= ComponentsOf(shape, t).Execution()
  {
    ComputeIsCovered(shape.memoryMb, u.seconds, shape.timeoutS as real, t);
    WritesAreCovered(u.items, shape.maxItems, u.kvWrites, t.kvWrites, t);
    TransferIsCovered(u, shape, t);
    AtGrows(u.bodyBytes + u.overheadBytes + u.rowBytes + u.kvBytesWritten,
            ActorFetchBytes(shape, t) + shape.maxItems * shape.maxItemBytes + t.kvWrites * t.kvBytes, t.perByte);
  }

  /** Deletes are at most one of each storage per attempt, each priced as its dearest operation. */
  lemma DeletesAreCovered(u: Usage, shape: RunShape, t: Terms)
    requires t.NonNegative() && WithinCaps(u, shape, t)
    ensures 0.0 <= WritesPart(u.datasetDeletes * (u.items + 1), u.kvDeletes * KV_WRITES_PER_DELETE, t)
                <= WritesPart(t.deleteAttempts * (shape.maxItems + 1), t.deleteAttempts * KV_WRITES_PER_DELETE, t)
  {
    Products(u.datasetDeletes, u.items + 1, t.deleteAttempts, shape.maxItems + 1);
    Products(u.kvDeletes, KV_WRITES_PER_DELETE, t.deleteAttempts, KV_WRITES_PER_DELETE);
    WritesAreCovered(u.datasetDeletes * (u.items + 1), t.deleteAttempts * (shape.maxItems + 1),
                     u.kvDeletes * KV_WRITES_PER_DELETE, t.deleteAttempts * KV_WRITES_PER_DELETE, t);
  }

  lemma ReadPartsAreCovered(u: Usage, shape: RunShape, t: Terms)
    requires t.NonNegative() && WithinCaps(u, shape, t)
    ensures 0.0 <= CostOf(u, shape, t).postRunReads <= ComponentsOf(shape, t).postRunReads
    ensures 0.0 <= CostOf(u, shape, t).postRunDeletes <= ComponentsOf(shape, t).postRunDeletes
  {
    ReadingIsCovered(u, shape, t);
    ReadsAreCovered(u.itemReads, t.datasetReads * (shape.maxItems + PagesPerRead(shape, t)), u.kvReads, t.kvReads, t);
    DeletesAreCovered(u, shape, t);
  }

  lemma StoragePartIsCovered(u: Usage, shape: RunShape, t: Terms)
    requires t.NonNegative() && WithinCaps(u, shape, t)
    ensures 0.0 <= CostOf(u, shape, t).storage <= ComponentsOf(shape, t).storage
  {
    HeldIsCovered(u.datasetByteHours, u.kvByteHours, shape.maxItems * shape.maxItemBytes,
                  t.kvBytes + MAX_API_REQUEST_BODY_BYTES, t);
  }

  lemma CallPartIsCovered(u: Usage, shape: RunShape, t: Terms)
    requires t.NonNegative() && WithinCaps(u, shape, t)
    ensures 0.0 <= CostOf(u, shape, t).apiCalls <= ComponentsOf(shape, t).apiCalls
  {
    ReadingIsCovered(u, shape, t);
    CallsAreCovered(u.starts + u.polls + u.cleanupCalls + u.kvReads,
                    START_CALLS + t.runPolls + CALLS_PER_CLEANUP_ATTEMPT * t.deleteAttempts + t.kvReads,
                    u.pageRequests, t.datasetReads * PagesPerRead(shape, t), t);
  }

  lemma PostRunIsCovered(u: Usage, shape: RunShape, t: Terms)
    requires t.NonNegative() && WithinCaps(u, shape, t)
    ensures 0.0 <= CostOf(u, shape, t).PostRun() <= ComponentsOf(shape, t).PostRun()
  {
    ReadPartsAreCovered(u, shape, t);
    StoragePartIsCovered(u, shape, t);
    CallPartIsCovered(u, shape, t);
    var cost, parts := CostOf(u, shape, t), ComponentsOf(shape, t);
    assert cost.PostRun() == cost.postRunReads + cost.postRunDeletes + cost.storage + cost.apiCalls;
    assert parts.PostRun() == parts.postRunReads + parts.postRunDeletes + parts.storage + parts.apiCalls;
  }

  /** Two rounded-up parts never exceed the reserved estimate, for any margin. */
  lemma RoundedPartsFit(execution: real, postRun: real, margin: real)
    requires execution >= 0.0 && postRun >= 0.0 && margin >= 0.0
    ensures Usd(execution) + Usd(postRun) <= WithMargin(execution, postRun, margin)
  {
    var parts := Usd(execution) + Usd(postRun);
    assert parts * margin >= 0.0;
    assert parts * (1.0 + margin) == parts + parts * margin;
  }

  function Total(c: Components): real {
    c.Execution() + c.PostRun()
  }

  /**
   * Cost soundness: any run within its caps, priced at the configured unit prices, costs at most the
   * recorded execution bound plus the post-run liability, and those two rounded parts, a bound-mode
   * settlement, never exceed the reserved estimate.
   */
  lemma EstimateCoversEveryRun(u: Usage, shape: RunShape, p: Prices, b: Bounds)
    requires shape.Valid() && EstimateRunCost(shape, p, b).Ok?
    requires WithinCaps(u, shape, Resolve(shape, p, b).value)
    ensures var e := EstimateRunCost(shape, p, b).value;
            var cost := CostOf(u, shape, Resolve(shape, p, b).value);
            && cost.Execution() <= e.execution && cost.PostRun() <= e.postRun
            && Total(cost) <= e.execution + e.postRun <= e.estimate
            && 0.0 <= e.estimate <= e.Admission()
  {
    var t := Resolve(shape, p, b).value;
    EveryPartIsCovered(u, shape, t);
    RoundedPartsFit(ComponentsOf(shape, t).Execution(), ComponentsOf(shape, t).PostRun(), t.margin);
    CallPricesAreNotNegative(t);
    AtGrows(0, t.correctionReads, t.CallPrice());
  }

  /** Rounding the sum once instead could undershoot the rounded parts: the order of rounding matters. */
  lemma RoundingOnceWouldUndershoot()
    ensures Usd((0.00001 + 0.00001) * (1.0 + 0.0)) < Usd(0.00001) + Usd(0.00001)
    ensures WithMargin(0.00001, 0.00001, 0.0) >= Usd(0.00001) + Usd(0.00001)
  {
    RoundedPartsFit(0.00001, 0.00001, 0.0);
    assert Usd(0.00002) < 0.00012;
    assert (-0.00001 * 10_000.0).Floor == -1;
    assert (-0.00002 * 10_000.0).Floor == -1;
  }
}
