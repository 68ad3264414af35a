/**
 * The admission rules in the settings' own terms (src/hw_radar/acquisition/apify/budget.py:574-972): when
 * a request is admitted, which rule declines it, what each operator call reserves, and the limits every
 * book keeps.
 */
module AdmissionRules {
  import opened Prelude
  import opened Budget
  import opened Admission
  import BillingCycle
  import RowBound

  // ── Operator reservations ─────────────────────────────────────────────────

  /** One API call: the dearest operation by the thousand, and its largest response over the wire. */
  function CallRate(p: Prices, b: Bounds): real
    requires CallPriced(p) && CallBounded(b)
  {
    MaxReal(MaxReal(p.datasetReads.value, p.datasetWrites.value), MaxReal(p.kvReads.value, p.kvWrites.value)) / 1000.0
    + (b.apiCallOverheadBytes.value + 131_072 + b.maxApiResponseBytes.value) as real * p.transfer.value / 1_000_000_000.0
  }

  lemma CallRateIs(p: Prices, b: Bounds)
    requires CallPriced(p) && CallBounded(b)
    ensures CallBound(p, b) == CallRate(p, b)
  {
    var bytes := (b.apiCallOverheadBytes.value + 131_072 + b.maxApiResponseBytes.value) as real;
    assert bytes * (p.transfer.value / 1_000_000_000.0) == bytes * p.transfer.value / 1_000_000_000.0;
  }

  /** Its lifetime, or a full cycle with its two guards, whichever is longer. */
  function LongestHours(lifetimeS: int, guardS: int): real {
    MaxReal(lifetimeS as real / 3600.0, 744.0 + (2 * guardS) as real / 3600.0)
  }

  /** One worst-case row held for that long, at a price per gigabyte-hour. */
  function StoredRow(price: real, hours: real): real {
    32_735.0 * price / 1_000_000_000.0 * hours
  }

  /** The amounts an operator call is bounded by: a build's settled ceiling and polls, an inspection's reads, a probe's calls and its one row. */
  function Envelope(kind: OperatorKind, cfg: Config): real
    requires EstimateOperatorCost(kind, cfg).Fine?
  {
    var p, b := cfg.prices, cfg.bounds;
    match kind
    case Build => cfg.buildBound.value + b.maxRunPolls.value as real * CallRate(p, b)
    case Inspect =>
      cfg.inspectMaxItems.value as real * p.datasetReads.value / 1000.0
      + cfg.inspectMaxRecordReads.value as real * CallRate(p, b)
      + cfg.inspectMaxBytes.value as real * p.transfer.value / 1_000_000_000.0
    case Probe =>
      cfg.probeMaxCalls.value as real * (CallRate(p, b) + p.datasetWrites.value / 1000.0)
      + StoredRow(p.datasetStorage.value, LongestHours(b.storageMaxLifetimeS.value, b.cycleBoundaryGuardS.value))
  }

  lemma PerUnit(n: nat, price: real, per: real)
    requires per > 0.0
    ensures At(n, price / per) == n as real * price / per
  {
  }

  lemma InspectionIs(cfg: Config)
    requires EstimateOperatorCost(Inspect, cfg).Fine?
    ensures InspectionBound(cfg) == Envelope(Inspect, cfg)
  {
    CallRateIs(cfg.prices, cfg.bounds);
    PerUnit(cfg.inspectMaxItems.value, cfg.prices.datasetReads.value, 1000.0);
    PerUnit(cfg.inspectMaxBytes.value, cfg.prices.transfer.value, BYTES_PER_GB);
  }

  lemma ProbeIs(cfg: Config)
    requires EstimateOperatorCost(Probe, cfg).Fine?
    ensures ProbeBound(cfg) == Envelope(Probe, cfg)
  {
    CallRateIs(cfg.prices, cfg.bounds);
    StoredRowIs(cfg.prices.datasetStorage.value, HoursOfStorage(cfg.bounds));
    HoursAre(cfg.bounds);
  }

  lemma StoredRowIs(price: real, hours: real)
    ensures RowHeld(price, hours) == StoredRow(price, hours)
  {
  }

  lemma HoursAre(b: Bounds)
    requires CapSet(b.storageMaxLifetimeS, 1) && CapSet(b.cycleBoundaryGuardS, 0)
    ensures HoursOfStorage(b) == LongestHours(b.storageMaxLifetimeS.value, b.cycleBoundaryGuardS.value)
  {
  }

  /** A bound rounded up to ten-thousandths. */
  ghost predicate RoundedUp(bound: real, r: real) {
    bound <= r < bound + 0.0001
  }

  /** An envelope's figures: rounded up, times one plus the margin, rounded up again; nothing is monitored. */
  ghost predicate EnvelopeFigures(e: Estimate, bound: real, margin: real) {
    && RoundedUp(bound, e.execution) && RoundedUp(e.execution * (1.0 + margin), e.estimate)
    && e.postRun == 0.0 && e.monitoring == 0.0
  }

  lemma EnvelopeRounds(envelope: real, margin: real)
    ensures EnvelopeFigures(Estimate(NoComponents(), Usd(envelope), 0.0, 0.0, WithMargin(envelope, 0.0, margin)), envelope, margin)
  {
    var reserved := Usd(envelope) * (1.0 + margin);
    assert Usd(0.0) == 0.0;
    assert (Usd(envelope) + Usd(0.0)) * (1.0 + margin) == reserved;
    assert RoundedUp(reserved, Usd(reserved));
  }

  /** A build reserves its rounded envelope without a margin, and monitors its correction reads. */
  lemma BuildReserves(cfg: Config)
    requires EstimateOperatorCost(Build, cfg).Fine?
    ensures var e := EstimateOperatorCost(Build, cfg).value;
            && RoundedUp(Envelope(Build, cfg), e.execution) && e.estimate == e.execution && e.postRun == 0.0
            && RoundedUp(cfg.bounds.maxCorrectionReads.value as real * CallRate(cfg.prices, cfg.bounds), e.monitoring)
  {
    CallRateIs(cfg.prices, cfg.bounds);
  }

  lemma InspectionReserves(cfg: Config)
    requires EstimateOperatorCost(Inspect, cfg).Fine?
    ensures EnvelopeFigures(EstimateOperatorCost(Inspect, cfg).value, Envelope(Inspect, cfg), cfg.bounds.margin.value)
  {
    InspectionIs(cfg);
    EnvelopeRounds(Envelope(Inspect, cfg), cfg.bounds.margin.value);
  }

  lemma ProbeReserves(cfg: Config)
    requires EstimateOperatorCost(Probe, cfg).Fine?
    ensures EnvelopeFigures(EstimateOperatorCost(Probe, cfg).value, Envelope(Probe, cfg), cfg.bounds.margin.value)
  {
    ProbeIs(cfg);
    EnvelopeRounds(Envelope(Probe, cfg), cfg.bounds.margin.value);
  }

  // ── When an estimate is refused ───────────────────────────────────────────

  /** A finite setting within bounds. */
  predicate Between(s: Setting, low: real, high: real) {
    s.Amount? && low <= s.value <= high
  }

  predicate AtLeast(s: Setting, low: real) {
    s.Amount? && low <= s.value
  }

  predicate AllPriced(prices: seq<Setting>) {
    forall i :: 0 <= i < |prices| ==> AtLeast(prices[i], 0.0)
  }

  predicate AllCapped(caps: seq<Cap>) {
    forall i :: 0 <= i < |caps| ==> caps[i].Some? && caps[i].value >= 0
  }

  /** Every unit price of a run. */
  predicate RunPriced(p: Prices) {
    AllPriced([p.usdPerCu, p.datasetReads, p.datasetWrites, p.datasetStorage, p.kvReads, p.kvWrites, p.kvStorage, p.transfer])
  }

  /** Every cap of a run, the two writes each run is billed, a record that can be read back, and a page that holds a row. */
  predicate RunCapped(shape: RunShape, b: Bounds) {
    && AtLeast(b.margin, 0.0)
    && AllCapped([b.maxTimeoutS, b.maxDatasetReads, b.maxKvReads, b.maxDeleteAttempts, b.maxRunPolls, b.maxCorrectionReads,
                  b.maxKvWrites, b.maxKvBytes, b.maxApiResponseBytes, b.maxDatasetPageBytes, b.storageMaxLifetimeS,
                  b.cycleBoundaryGuardS, b.apiCallOverheadBytes])
    && b.maxTimeoutS.Some? && b.maxTimeoutS.value >= 1 && b.maxTimeoutS.value >= shape.timeoutS
    && b.storageMaxLifetimeS.Some? && b.storageMaxLifetimeS.value >= 1 && b.maxKvWrites.Some? && b.maxKvWrites.value >= 2
    && b.maxKvBytes.Some? && b.maxApiResponseBytes.Some? && b.maxKvBytes.value <= b.maxApiResponseBytes.value
    && b.maxDatasetPageBytes.Some? && shape.maxItemBytes + RowBound.DATASET_PAGE_ENVELOPE_BYTES <= b.maxDatasetPageBytes.value
  }

  lemma RunPricedIs(p: Prices)
    ensures RunPriced(p) <==> p.Verified()
  {
    var all := [p.usdPerCu, p.datasetReads, p.datasetWrites, p.datasetStorage, p.kvReads, p.kvWrites, p.kvStorage, p.transfer];
    if RunPriced(p) {
      assert AtLeast(all[0], 0.0) && AtLeast(all[1], 0.0) && AtLeast(all[2], 0.0) && AtLeast(all[3], 0.0);
      assert AtLeast(all[4], 0.0) && AtLeast(all[5], 0.0) && AtLeast(all[6], 0.0) && AtLeast(all[7], 0.0);
    }
  }

  lemma RunCappedIs(shape: RunShape, b: Bounds)
    requires shape.Valid()
    ensures RunCapped(shape, b) <==> BoundsSet(b, shape)
  {
    var all := [b.maxTimeoutS, b.maxDatasetReads, b.maxKvReads, b.maxDeleteAttempts, b.maxRunPolls, b.maxCorrectionReads,
                b.maxKvWrites, b.maxKvBytes, b.maxApiResponseBytes, b.maxDatasetPageBytes, b.storageMaxLifetimeS,
                b.cycleBoundaryGuardS, b.apiCallOverheadBytes];
    if AllCapped(all) {
      assert all[1].Some? && all[2].Some? && all[3].Some? && all[4].Some? && all[5].Some?;
      assert all[7].Some? && all[8].Some? && all[9].Some? && all[11].Some? && all[12].Some?;
    }
    if b.maxDatasetPageBytes.Some? { RowBound.LimitIsLargest(b.maxDatasetPageBytes.value, shape.maxItemBytes); }
  }

  /** A run is priced exactly when every unit price and every cap is set; a missing price is the reason given even beside a missing cap. */
  lemma EstimatedExactlyWhen(shape: RunShape, p: Prices, b: Bounds)
    requires shape.Valid()
    ensures var e := EstimateRunCost(shape, p, b);
            && (e.Ok? <==> RunPriced(p) && RunCapped(shape, b))
            && (e.Denied? ==> e.reason == if RunPriced(p) then Budget.Denial.UnboundedComponent else Budget.Denial.PricingUnverified)
  {
    RunPricedIs(p);
    RunCappedIs(shape, b);
  }

  /** What each kind of operator call needs beyond the price and caps of a call. */
  predicate KindCapped(kind: OperatorKind, cfg: Config) {
    var b := cfg.bounds;
    match kind
    case Build => AtLeast(cfg.buildBound, 0.0) && AllCapped([b.maxRunPolls, b.maxCorrectionReads])
    case Inspect => AtLeast(b.margin, 0.0) && AllCapped([cfg.inspectMaxItems, cfg.inspectMaxRecordReads, cfg.inspectMaxBytes])
    case Probe =>
      && AtLeast(b.margin, 0.0) && AllCapped([cfg.probeMaxCalls, b.storageMaxLifetimeS, b.cycleBoundaryGuardS])
      && b.storageMaxLifetimeS.Some? && b.storageMaxLifetimeS.value >= 1
  }

  /** The first thing missing from an operator call's inputs, in the order they are read. */
  function Missing(kind: OperatorKind, cfg: Config): Option<Reason> {
    var p, b := cfg.prices, cfg.bounds;
    if !AllPriced([p.datasetReads, p.datasetWrites, p.kvReads, p.kvWrites]) then Some(Reason.PricingUnverified)
    else if !AllCapped([b.apiCallOverheadBytes, b.maxApiResponseBytes]) then Some(Reason.UnboundedComponent)
    else if !AtLeast(p.transfer, 0.0) then Some(Reason.PricingUnverified)
    else if kind.Probe? && AtLeast(b.margin, 0.0) && !AtLeast(p.datasetStorage, 0.0) then Some(Reason.PricingUnverified)
    else if !KindCapped(kind, cfg) then Some(Reason.UnboundedComponent)
    else None
  }

  lemma CallInputsAre(p: Prices, b: Bounds)
    ensures AllPriced([p.datasetReads, p.datasetWrites, p.kvReads, p.kvWrites]) <==> OperationsPriced(p)
    ensures AllCapped([b.apiCallOverheadBytes, b.maxApiResponseBytes]) <==> CallBounded(b)
  {
    var prices, caps := [p.datasetReads, p.datasetWrites, p.kvReads, p.kvWrites], [b.apiCallOverheadBytes, b.maxApiResponseBytes];
    if AllPriced(prices) {
      assert AtLeast(prices[0], 0.0) && AtLeast(prices[1], 0.0) && AtLeast(prices[2], 0.0) && AtLeast(prices[3], 0.0);
    }
    if AllCapped(caps) { assert caps[0].Some? && caps[1].Some?; }
  }

  lemma KindInputsAre(kind: OperatorKind, cfg: Config)
    requires OperationsPriced(cfg.prices) && CallBounded(cfg.bounds) && cfg.prices.transfer.Usable()
    ensures EstimateOperatorCost(kind, cfg).Fine? <==> KindCapped(kind, cfg) && (kind.Probe? ==> AtLeast(cfg.prices.datasetStorage, 0.0))
  {
    var b := cfg.bounds;
    var builds, inspects := [b.maxRunPolls, b.maxCorrectionReads], [cfg.inspectMaxItems, cfg.inspectMaxRecordReads, cfg.inspectMaxBytes];
    var probes := [cfg.probeMaxCalls, b.storageMaxLifetimeS, b.cycleBoundaryGuardS];
    if AllCapped(builds) { assert builds[0].Some? && builds[1].Some?; }
    if AllCapped(inspects) { assert inspects[0].Some? && inspects[1].Some? && inspects[2].Some?; }
    if AllCapped(probes) { assert probes[0].Some? && probes[1].Some? && probes[2].Some?; }
  }

  /** An operator call is priced exactly when nothing it needs is missing, else refused with the first thing that is. */
  lemma OperatorRefusedExactlyWhen(kind: OperatorKind, cfg: Config)
    ensures var e := EstimateOperatorCost(kind, cfg);
            if Missing(kind, cfg).Some? then e == Wrong(Missing(kind, cfg).value) else e.Fine?
  {
    CallInputsAre(cfg.prices, cfg.bounds);
    if OperationsPriced(cfg.prices) && CallBounded(cfg.bounds) && cfg.prices.transfer.Usable() { KindInputsAre(kind, cfg); }
  }

  // ── The rules in order ────────────────────────────────────────────────────

  /** The allowance, reserve and ceiling fit a target of at most twelve. */
  predicate TargetsFit(cfg: Config) {
    && Between(cfg.cycleTarget, 0.0, 12.0)
    && Between(cfg.operatorAllowance, 0.0, cfg.cycleTarget.value)
    && Between(cfg.watchReserve, 0.0, cfg.cycleTarget.value - cfg.operatorAllowance.value)
    && AtLeast(cfg.cashCeiling, 0.0)
  }

  /** The account limit less its margin, a tenth of the limit when unset. */
  function Spendable(cfg: Config): real
    requires cfg.accountLimit.Amount?
  {
    cfg.accountLimit.value - if cfg.accountMargin.Amount? then cfg.accountMargin.value else cfg.accountLimit.value / 10.0
  }

  predicate AccountFits(cfg: Config, d: Debits, amount: real) {
    && cfg.accountLimit.Amount? && cfg.externalLiability.Amount?
    && d.runtime + d.operator + d.carried + amount + cfg.externalLiability.value <= Spendable(cfg)
  }

  /** The room a class has left: operators under their allowance, discovery under the allocation less the watch reserve. */
  predicate ClassFits(cfg: Config, class_: Class, d: Debits, amount: real)
    requires TargetsFit(cfg)
  {
    var allocation := cfg.cycleTarget.value - cfg.operatorAllowance.value;
    match class_
    case Operator => d.operator + amount <= cfg.operatorAllowance.value
    case WatchRefresh => d.runtime + d.carried + amount <= allocation
    case Discovery => d.runtime + d.carried + amount <= allocation - cfg.watchReserve.value
  }

  /** The first broken rule's reason, in the order the contract gives them; none when every rule holds. */
  function Denial(request: Request, cfg: Config, ledger: Ledger): Option<Reason>
    requires request.Valid()
  {
    var estimate, lifetime := EstimateOf(request, cfg), cfg.bounds.storageMaxLifetimeS;
    if !cfg.enabled then Some(ApifyDisabled)
    else if ledger.latchTripped then Some(OverrunLatch)
    else if !cfg.residualAccepted then Some(CallBillingResidualUnaccepted)
    else if !AtLeast(cfg.externalLiability, 0.0) then Some(ExternalLiabilityUnbounded)
    else if !TargetsFit(cfg) then Some(BudgetSettingInvalid)
    else if estimate.Wrong? then Some(estimate.reason)
    else if lifetime.None? || lifetime.value < 1 then Some(Reason.UnboundedComponent)
    else if !ledger.authorityHeld then Some(LedgerAuthorityMissing)
    else if ledger.cycle.None? || ledger.now < ledger.cycle.value.start || ledger.now > ledger.cycle.value.end then Some(CycleUnknown)
    else if cfg.anchorDay.None? then Some(CycleUnknown)
    else if !cfg.accountLimit.Amount? || cfg.accountLimit.value <= 0.0 || !AtLeast(cfg.accountBasePrice, 0.0)
            || cfg.retentionDays.None? || cfg.retentionDays.value < 1
            || cfg.verifiedOn.None? || cfg.verifiedOn.value > ledger.today || cfg.verifiedOn.value < cfg.anchorDay.value
      then Some(AccountStateUnobservable)
    else if !cfg.accountMargin.Unset? && !AtLeast(cfg.accountMargin, 0.0) then Some(BudgetSettingInvalid)
    else if lifetime.value < cfg.retentionDays.value * 86_400 then Some(Reason.UnboundedComponent)
    else if ledger.cycle.value.end - ledger.cycle.value.start > 2_678_400_000_000 then Some(Reason.UnboundedComponent)
    else if cfg.accountBasePrice.value > cfg.cashCeiling.value then Some(CashCeilingExceededByPlan)
    else
      var amount := estimate.value.estimate + estimate.value.monitoring;
      if !ClassFits(cfg, request.BudgetClass(), ledger.current, amount) then
        Some(if request.OperatorCall? then OperatorAllowanceExhausted else ClassCap)
      else if !AccountFits(cfg, ledger.current, amount) || (ledger.next.Some? && !AccountFits(cfg, ledger.next.value, amount)) then
        Some(AccountHeadroom)
      else None
  }

  lemma TargetsAre(cfg: Config)
    ensures AllocationSet(cfg) <==> TargetsFit(cfg)
  {
  }

  /** The decision is that table's: admitted with its own estimate when no rule is broken, else declined by the first. */
  lemma DecidedByTheRules(request: Request, cfg: Config, ledger: Ledger)
    requires request.Valid()
    ensures DecideAdmission(request, cfg, ledger)
            == if Denial(request, cfg, ledger).Some? then Declined(Denial(request, cfg, ledger).value)
               else Admitted(EstimateOf(request, cfg).value)
  {
    TargetsAre(cfg);
  }

  /** The debits of a book: runtime reservations, operator reservations, and what was carried in. */
  function DebitsOn(book: seq<Entry>, carried: real): Debits {
    Debits(OfClass(book, WatchRefresh) + OfClass(book, Discovery), OfClass(book, Operator), carried)
  }

  /**
   * A request on a book is entered, for its estimate and its monitoring allowance, exactly when no rule
   * is broken on the book's own debits, in the next cycle too when its charges can reach it.
   */
  lemma AskEnters(book: seq<Entry>, carried: Carried, cfg: Config, request: Request, ledger: Ledger, reaches: bool)
    requires request.Valid()
    ensures var onBook := ledger.(current := DebitsOn(book, carried.here),
                                  next := if reaches then Some(DebitsOn(Reaching(book), carried.next)) else None);
            Apply(book, carried, cfg, Ask(request, ledger, reaches))
            == if Denial(request, cfg, onBook).Some? then book
               else
                 var e := EstimateOf(request, cfg).value;
                 book + [Entry(request.BudgetClass(), e.estimate + e.monitoring, reaches)]
  {
    RuntimeSplits(book);
    RuntimeSplits(Reaching(book));
    DecidedByTheRules(request, cfg, OnBook(ledger, book, carried, reaches));
  }

  /** What reaches the next cycle are the entries that say so, in order. */
  lemma {:induction false} ReachingAre(book: seq<Entry>)
    ensures forall e :: e in Reaching(book) <==> e in book && e.reaches
    ensures forall class_ :: OfClass(Reaching(book), class_) + OfClass(Staying(book), class_) == OfClass(book, class_)
  {
    if book != [] {
      var front, last := book[..|book| - 1], book[|book| - 1];
      ReachingAre(front);
      assert book == front + [last];
      DebitedSnoc(front, last);
      DebitedSnoc(Reaching(front), last);
      DebitedSnoc(Staying(front), last);
      assert Staying(front) + [] == Staying(front);
    }
  }

  /** The entries that end with their cycle. */
  function Staying(book: seq<Entry>): seq<Entry> {
    if book == [] then []
    else Staying(book[..|book| - 1]) + if book[|book| - 1].reaches then [] else [book[|book| - 1]]
  }

  /** What the limits of a book say, in the settings' own terms. */
  lemma LimitsAre(book: seq<Entry>, carried: real, cfg: Config)
    requires LimitsSet(cfg)
    ensures WithinLimits(book, carried, cfg) <==>
              var target, allowance := cfg.cycleTarget.value, cfg.operatorAllowance.value;
              && Debited(book, false) + carried <= target - allowance
              && Debited(book, true) <= allowance
              && OfClass(book, Discovery) <= target - allowance - cfg.watchReserve.value
              && Debited(book, false) + Debited(book, true) + carried + cfg.externalLiability.value
                 <= cfg.accountLimit.value - (if cfg.accountMargin.Amount? then cfg.accountMargin.value else cfg.accountLimit.value / 10.0)
  {
  }
}
