/**
 * Paid admission and what any sequence of admissions keeps
 * (src/hw_radar/acquisition/apify/budget.py:574-658, 694-745, 832-972).
 */
module Admission {
  import opened Prelude
  import opened Budget
  import BillingCycle
  import RowBound

  const MAX_CYCLE_TARGET_USD: real := 12.0
  const DEFAULT_ACCOUNT_MARGIN_FRACTION: real := 0.10

  datatype Class = WatchRefresh | Discovery | Operator

  datatype OperatorKind = Build | Inspect | Probe

  datatype Reason =
    | ApifyDisabled | OverrunLatch | CallBillingResidualUnaccepted | ExternalLiabilityUnbounded
    | BudgetSettingInvalid | PricingUnverified | UnboundedComponent | LedgerAuthorityMissing | CycleUnknown
    | AccountStateUnobservable | CashCeilingExceededByPlan | ClassCap | OperatorAllowanceExhausted | AccountHeadroom

  /** The settings admission reads. */
  datatype Config = Config(
    enabled: bool, prices: Prices, bounds: Bounds, residualAccepted: bool,
    cycleTarget: Setting, operatorAllowance: Setting, watchReserve: Setting, cashCeiling: Setting,
    accountMargin: Setting, externalLiability: Setting,
    buildBound: Setting, inspectMaxItems: Cap, inspectMaxRecordReads: Cap, inspectMaxBytes: Cap, probeMaxCalls: Cap,
    anchorDay: Option<int>, accountLimit: Setting, accountBasePrice: Setting, retentionDays: Cap, verifiedOn: Option<int>)

  datatype Request = Runtime(class_: Class, shape: RunShape) | OperatorCall(kind: OperatorKind) {
    predicate Valid() {
      Runtime? ==> !class_.Operator? && shape.Valid()
    }

    function BudgetClass(): Class {
      if Runtime? then class_ else Operator
    }
  }

  /** One cycle's debits. */
  datatype Debits = Debits(runtime: real, operator: real, carried: real) {
    /** `HR_cycle`: runtime committed + operator committed + carried handoff. */
    function Cycle(): real {
      runtime + operator + carried
    }
  }

  /** The ledger as admission sees it; `today` is the day of `now`. */
  datatype Ledger = Ledger(
    now: Time, today: int, latchTripped: bool, authorityHeld: bool,
    cycle: Option<BillingCycle.Cycle>, current: Debits, next: Option<Debits>)

  datatype Decision = Admitted(estimate: Estimate) | Declined(reason: Reason)

  datatype Checked<T> = Fine(value: T) | Wrong(reason: Reason)

  // ── Operator estimates ────────────────────────────────────────────────────

  /** What an API call needs: its prices and caps. */
  predicate CallBounded(b: Bounds) {
    CapSet(b.maxApiResponseBytes, 0) && CapSet(b.apiCallOverheadBytes, 0)
  }

  predicate OperationsPriced(p: Prices) {
    p.datasetReads.Usable() && p.datasetWrites.Usable() && p.kvReads.Usable() && p.kvWrites.Usable()
  }

  predicate CallPriced(p: Prices) {
    OperationsPriced(p) && p.transfer.Usable()
  }

  function CallBound(p: Prices, b: Bounds): real
    requires CallPriced(p) && CallBounded(b)
  {
    MaxReal(MaxReal(p.datasetReads.value / 1000.0, p.datasetWrites.value / 1000.0),
            MaxReal(p.kvReads.value / 1000.0, p.kvWrites.value / 1000.0))
    + (b.apiCallOverheadBytes.value + 2 * HTTP_RECEIVE_BUFFER_BYTES + b.maxApiResponseBytes.value) as real
      * (p.transfer.value / BYTES_PER_GB)
  }

  function HoursOfStorage(b: Bounds): real
    requires CapSet(b.storageMaxLifetimeS, 1) && CapSet(b.cycleBoundaryGuardS, 0)
  {
    MaxReal(b.storageMaxLifetimeS.value as real / SECONDS_PER_HOUR,
            Budget.FULL_CYCLE_HOURS + (2 * b.cycleBoundaryGuardS.value) as real / SECONDS_PER_HOUR)
  }

  function NoComponents(): Components {
    Components(0.0, 0.0, 0.0, 0.0, 0.0, 0.0, 0.0, 0.0)
  }

  /** What an inspection may read: items, records and bytes. */
  function InspectionBound(cfg: Config): real
    requires CallPriced(cfg.prices) && CallBounded(cfg.bounds)
    requires CapSet(cfg.inspectMaxItems, 0) && CapSet(cfg.inspectMaxRecordReads, 0) && CapSet(cfg.inspectMaxBytes, 0)
  {
    At(cfg.inspectMaxItems.value, cfg.prices.datasetReads.value / 1000.0)
    + At(cfg.inspectMaxRecordReads.value, CallBound(cfg.prices, cfg.bounds))
    + At(cfg.inspectMaxBytes.value, cfg.prices.transfer.value / BYTES_PER_GB)
  }

  /** What a probe may send and leave behind: calls that each may write, and one stored row. */
  function ProbeBound(cfg: Config): real
    requires CallPriced(cfg.prices) && CallBounded(cfg.bounds) && cfg.prices.datasetStorage.Usable()
    requires CapSet(cfg.probeMaxCalls, 0) && CapSet(cfg.bounds.storageMaxLifetimeS, 1) && CapSet(cfg.bounds.cycleBoundaryGuardS, 0)
  {
    At(cfg.probeMaxCalls.value, CallBound(cfg.prices, cfg.bounds) + cfg.prices.datasetWrites.value / 1000.0)
    + RowHeld(cfg.prices.datasetStorage.value, HoursOfStorage(cfg.bounds))
  }

  /** One worst-case row held for a time. */
  function RowHeld(price: real, hours: real): real {
    At(RowBound.MAX_LISTING_ROW_BYTES, price) / BYTES_PER_GB * hours
  }

  /** The bound of one operator reservation; the operation prices are judged first, then the call caps, then the transfer price. */
  function EstimateOperatorCost(kind: OperatorKind, cfg: Config): Checked<Estimate> {
    var p, b := cfg.prices, cfg.bounds;
    if !OperationsPriced(p) then Wrong(Reason.PricingUnverified)
    else if !CallBounded(b) then Wrong(Reason.UnboundedComponent)
    else if !p.transfer.Usable() then Wrong(Reason.PricingUnverified)
    else
      var call := CallBound(p, b);
      match kind
      case Build =>
        if !cfg.buildBound.Usable() || !CapSet(b.maxRunPolls, 0) || !CapSet(b.maxCorrectionReads, 0) then Wrong(Reason.UnboundedComponent)
        else
          var execution := Usd(cfg.buildBound.value + At(b.maxRunPolls.value, call));
          Fine(Estimate(NoComponents(), execution, 0.0, Usd(At(b.maxCorrectionReads.value, call)), execution))
      case Inspect =>
        if !b.margin.Usable() || !CapSet(cfg.inspectMaxItems, 0) || !CapSet(cfg.inspectMaxRecordReads, 0)
           || !CapSet(cfg.inspectMaxBytes, 0) then Wrong(Reason.UnboundedComponent)
        else
          var envelope := InspectionBound(cfg);
          Fine(Estimate(NoComponents(), Usd(envelope), 0.0, 0.0, WithMargin(envelope, 0.0, b.margin.value)))
      case Probe =>
        if !b.margin.Usable() then Wrong(Reason.UnboundedComponent)
        else if !p.datasetStorage.Usable() then Wrong(Reason.PricingUnverified)
        else if !CapSet(cfg.probeMaxCalls, 0) || !CapSet(b.storageMaxLifetimeS, 1) || !CapSet(b.cycleBoundaryGuardS, 0)
        then Wrong(Reason.UnboundedComponent)
        else
          var envelope := ProbeBound(cfg);
          Fine(Estimate(NoComponents(), Usd(envelope), 0.0, 0.0, WithMargin(envelope, 0.0, b.margin.value)))
  }

  function EstimateOf(request: Request, cfg: Config): Checked<Estimate>
    requires request.Valid()
  {
    match request
    case OperatorCall(kind) => EstimateOperatorCost(kind, cfg)
    case Runtime(_, shape) =>
      match EstimateRunCost(shape, cfg.prices, cfg.bounds)
      case Ok(e) => Fine(e)
      case Denied(r) => Wrong(match r case PricingUnverified => Reason.PricingUnverified case UnboundedComponent => Reason.UnboundedComponent)
  }

  // ── Settings ──────────────────────────────────────────────────────────────

  /** The allocation `A = target - allowance`, with a valid reserve and ceiling beside it. */
  predicate AllocationSet(cfg: Config) {
    && cfg.cycleTarget.Usable() && cfg.cycleTarget.value <= MAX_CYCLE_TARGET_USD
    && cfg.operatorAllowance.Usable() && cfg.operatorAllowance.value <= cfg.cycleTarget.value
    && cfg.watchReserve.Usable() && cfg.watchReserve.value <= Allocation(cfg)
    && cfg.cashCeiling.Usable()
  }

  function Allocation(cfg: Config): real
    requires cfg.cycleTarget.Amount? && cfg.operatorAllowance.Amount?
  {
    cfg.cycleTarget.value - cfg.operatorAllowance.value
  }

  /** The first invalid account setting's denial, in contract order. */
  function AccountProblem(cfg: Config, today: int): Option<Reason> {
    if cfg.anchorDay.None? then Some(CycleUnknown)
    else if !cfg.accountLimit.Amount? || cfg.accountLimit.value <= 0.0 then Some(AccountStateUnobservable)
    else if !cfg.accountBasePrice.Usable() then Some(AccountStateUnobservable)
    else if !CapSet(cfg.retentionDays, 1) then Some(AccountStateUnobservable)
    else if cfg.verifiedOn.None? || cfg.verifiedOn.value > today || cfg.verifiedOn.value < cfg.anchorDay.value then
      Some(AccountStateUnobservable)
    else if !cfg.accountMargin.Unset? && !cfg.accountMargin.Usable() then Some(BudgetSettingInvalid)
    else None
  }

  /** The account limit less its margin, by default a tenth of the limit. */
  function Share(cfg: Config): real
    requires cfg.accountLimit.Amount? && (cfg.accountMargin.Unset? || cfg.accountMargin.Amount?)
  {
    cfg.accountLimit.value
    - if cfg.accountMargin.Unset? then cfg.accountLimit.value * DEFAULT_ACCOUNT_MARGIN_FRACTION else cfg.accountMargin.value
  }

  // ── The decision ──────────────────────────────────────────────────────────

  /** Blanket stops and the settings that need no ledger, in order, then the estimate. */
  function Preliminary(request: Request, cfg: Config, latchTripped: bool): Checked<Estimate>
    requires request.Valid()
  {
    if !cfg.enabled then Wrong(ApifyDisabled)
    else if latchTripped then Wrong(OverrunLatch)
    else if !cfg.residualAccepted then Wrong(CallBillingResidualUnaccepted)
    else if !cfg.externalLiability.Usable() then Wrong(ExternalLiabilityUnbounded)
    else if !AllocationSet(cfg) then Wrong(BudgetSettingInvalid)
    else
      var estimate := EstimateOf(request, cfg);
      if estimate.Wrong? then estimate
      else if !CapSet(cfg.bounds.storageMaxLifetimeS, 1) then Wrong(Reason.UnboundedComponent)
      else estimate
  }

  /** The ledger, cycle and account checks, in order. */
  function Standing(cfg: Config, ledger: Ledger): Option<Reason>
    requires AllocationSet(cfg) && CapSet(cfg.bounds.storageMaxLifetimeS, 1)
  {
    if !ledger.authorityHeld then Some(LedgerAuthorityMissing)
    else if ledger.cycle.None? then Some(CycleUnknown)
    else if !(ledger.cycle.value.start <= ledger.now <= ledger.cycle.value.end) then Some(CycleUnknown)
    else if AccountProblem(cfg, ledger.today).Some? then AccountProblem(cfg, ledger.today)
    else if cfg.bounds.storageMaxLifetimeS.value < cfg.retentionDays.value * 86_400 then Some(Reason.UnboundedComponent)
    else if ledger.cycle.value.end - ledger.cycle.value.start > BillingCycle.FULL_CYCLE_HOURS * BillingCycle.HOUR then Some(Reason.UnboundedComponent)
    else if cfg.accountBasePrice.value > cfg.cashCeiling.value then Some(CashCeilingExceededByPlan)
    else None
  }

  /** What the class may commit before this reservation. */
  function ClassCapOf(class_: Class, cfg: Config): real
    requires AllocationSet(cfg)
  {
    match class_
    case Operator => cfg.operatorAllowance.value
    case WatchRefresh => Allocation(cfg)
    case Discovery => Allocation(cfg) - cfg.watchReserve.value
  }

  function ClassDebits(class_: Class, d: Debits): real {
    if class_.Operator? then d.operator else d.runtime + d.carried
  }

  predicate FitsShare(cfg: Config, d: Debits, new_: real)
    requires cfg.externalLiability.Amount? && cfg.accountLimit.Amount? && (cfg.accountMargin.Unset? || cfg.accountMargin.Amount?)
  {
    d.Cycle() + new_ + cfg.externalLiability.value <= Share(cfg)
  }

  function DecideAdmission(request: Request, cfg: Config, ledger: Ledger): Decision
    requires request.Valid()
  {
    var estimate := Preliminary(request, cfg, ledger.latchTripped);
    if estimate.Wrong? then Declined(estimate.reason)
    else if Standing(cfg, ledger).Some? then Declined(Standing(cfg, ledger).value)
    else
      var new_, class_ := estimate.value.Admission(), request.BudgetClass();
      if ClassDebits(class_, ledger.current) + new_ > ClassCapOf(class_, cfg) then
        Declined(if class_.Operator? then OperatorAllowanceExhausted else ClassCap)
      else if !FitsShare(cfg, ledger.current, new_) then Declined(AccountHeadroom)
      else if ledger.next.Some? && !FitsShare(cfg, ledger.next.value, new_) then Declined(AccountHeadroom)
      else Admitted(estimate.value)
  }

  // ── What admission guarantees ─────────────────────────────────────────────

  predicate BudgetFits(request: Request, cfg: Config, ledger: Ledger, new_: real)
    requires AllocationSet(cfg) && AccountProblem(cfg, ledger.today).None? && cfg.externalLiability.Amount?
  {
    && ClassDebits(request.BudgetClass(), ledger.current) + new_ <= ClassCapOf(request.BudgetClass(), cfg)
    && FitsShare(cfg, ledger.current, new_)
    && (ledger.next.Some? ==> FitsShare(cfg, ledger.next.value, new_))
  }

  /** Admission is granted exactly when every guard passes; a reservation equal to the remaining amount is admitted. */
  lemma AdmittedExactlyWhen(request: Request, cfg: Config, ledger: Ledger)
    requires request.Valid()
    ensures DecideAdmission(request, cfg, ledger).Admitted? <==>
              && cfg.enabled && !ledger.latchTripped && cfg.residualAccepted && cfg.externalLiability.Usable()
              && AllocationSet(cfg) && EstimateOf(request, cfg).Fine? && CapSet(cfg.bounds.storageMaxLifetimeS, 1)
              && ledger.authorityHeld && ledger.cycle.Some? && ledger.cycle.value.start <= ledger.now <= ledger.cycle.value.end
              && AccountProblem(cfg, ledger.today).None?
              && cfg.bounds.storageMaxLifetimeS.value >= cfg.retentionDays.value * 86_400
              && ledger.cycle.value.end - ledger.cycle.value.start <= BillingCycle.FULL_CYCLE_HOURS * BillingCycle.HOUR
              && cfg.accountBasePrice.value <= cfg.cashCeiling.value
              && BudgetFits(request, cfg, ledger, EstimateOf(request, cfg).value.Admission())
    ensures DecideAdmission(request, cfg, ledger).Admitted? ==>
              DecideAdmission(request, cfg, ledger).estimate == EstimateOf(request, cfg).value
  {
  }

  // ── Sequences of admissions ───────────────────────────────────────────────

  /**
   * A reservation: its class, what it debits (until settled the estimate and the monitoring
   * allowance), and whether its charges can reach the next cycle.
   */
  datatype Entry = Entry(class_: Class, amount: real, reaches: bool)

  datatype Event =
    | Ask(request: Request, ledger: Ledger, reaches: bool)   // the debits of `ledger` are replaced by the book's own
    | Settle(index: nat, amount: real)

  /** The handoffs carried into the cycle and into the next one. */
  datatype Carried = Carried(here: real, next: real)

  function Debited(book: seq<Entry>, operator: bool): real {
    if book == [] then 0.0
    else
      var last := book[|book| - 1];
      Debited(book[..|book| - 1], operator) + if last.class_.Operator? == operator then last.amount else 0.0
  }

  function OfClass(book: seq<Entry>, class_: Class): real {
    if book == [] then 0.0
    else
      var last := book[|book| - 1];
      OfClass(book[..|book| - 1], class_) + if last.class_ == class_ then last.amount else 0.0
  }

  function DebitsOf(book: seq<Entry>, carried: real): Debits {
    Debits(Debited(book, false), Debited(book, true), carried)
  }

  /** The reservations that the next cycle begins with. */
  function Reaching(book: seq<Entry>): seq<Entry> {
    if book == [] then []
    else
      var front, last := Reaching(book[..|book| - 1]), book[|book| - 1];
      if last.reaches then front + [last] else front
  }

  /** A request is well formed; a settlement names a reservation and never raises it. */
  predicate Enabled(book: seq<Entry>, e: Event) {
    && (e.Ask? ==> e.request.Valid())
    && (e.Settle? ==> e.index < |book| && 0.0 <= e.amount <= book[e.index].amount)
  }

  /**
   * One event; an ask is decided on the book's own debits, and only an admitted one is entered. An
   * event that is not enabled changes nothing.
   */
  function Apply(book: seq<Entry>, carried: Carried, cfg: Config, e: Event): seq<Entry> {
    if !Enabled(book, e) then book
    else
      match e
      case Ask(request, ledger, reaches) =>
        var decision := DecideAdmission(request, cfg, OnBook(ledger, book, carried, reaches));
        if decision.Admitted? then book + [Entry(request.BudgetClass(), decision.estimate.Admission(), reaches)] else book
      case Settle(i, amount) => book[i := book[i].(amount := amount)]
  }

  /** The ledger a request is decided on: the book's debits, and the next cycle's when it can be reached. */
  function OnBook(ledger: Ledger, book: seq<Entry>, carried: Carried, reaches: bool): Ledger {
    ledger.(current := DebitsOf(book, carried.here),
            next := if reaches then Some(DebitsOf(Reaching(book), carried.next)) else None)
  }

  /** The book a cycle that began with `start` holds after its events. */
  function Book(start: seq<Entry>, events: seq<Event>, carried: Carried, cfg: Config): seq<Entry> {
    if events == [] then start
    else Apply(Book(start, events[..|events| - 1], carried, cfg), carried, cfg, events[|events| - 1])
  }

  ghost predicate NonNegative(book: seq<Entry>) {
    forall i :: 0 <= i < |book| ==> book[i].amount >= 0.0
  }

  lemma DebitedSnoc(book: seq<Entry>, e: Entry)
    ensures forall operator :: Debited(book + [e], operator)
              == Debited(book, operator) + if e.class_.Operator? == operator then e.amount else 0.0
    ensures forall class_ :: OfClass(book + [e], class_) == OfClass(book, class_) + if e.class_ == class_ then e.amount else 0.0
  {
    assert (book + [e])[..|book|] == book;
  }

  /** Lowering one entry lowers every sum or leaves it. */
  lemma {:induction false} SettlingLowers(book: seq<Entry>, i: nat, amount: real, operator: bool, class_: Class)
    requires i < |book| && amount <= book[i].amount
    ensures Debited(book[i := book[i].(amount := amount)], operator) <= Debited(book, operator)
    ensures OfClass(book[i := book[i].(amount := amount)], class_) <= OfClass(book, class_)
  {
    var settled := book[i := book[i].(amount := amount)];
    var k := |book| - 1;
    if i < k {
      assert settled[..k] == book[..k][i := book[..k][i].(amount := amount)];
      SettlingLowers(book[..k], i, amount, operator, class_);
    } else {
      assert settled[..k] == book[..k];
    }
  }

  lemma {:induction false} SettlingLowersNext(book: seq<Entry>, i: nat, amount: real, operator: bool)
    requires i < |book| && amount <= book[i].amount
    ensures Debited(Reaching(book[i := book[i].(amount := amount)]), operator) <= Debited(Reaching(book), operator)
  {
    var settled := book[i := book[i].(amount := amount)];
    var k := |book| - 1;
    if i < k {
      assert settled[..k] == book[..k][i := book[..k][i].(amount := amount)];
      SettlingLowersNext(book[..k], i, amount, operator);
    } else {
      assert settled[..k] == book[..k];
    }
    DebitedSnoc(Reaching(settled[..k]), settled[k]);
    DebitedSnoc(Reaching(book[..k]), book[k]);
  }

  /** What reaches the next cycle is part of what is booked in this one. */
  lemma {:induction false} ReachingIsPart(book: seq<Entry>)
    requires NonNegative(book)
    ensures NonNegative(Reaching(book))
    ensures forall operator :: Debited(Reaching(book), operator) <= Debited(book, operator)
    ensures forall class_ :: OfClass(Reaching(book), class_) <= OfClass(book, class_)
  {
    if book != [] {
      ReachingIsPart(book[..|book| - 1]);
      DebitedSnoc(Reaching(book[..|book| - 1]), book[|book| - 1]);
    }
  }

  lemma {:induction false} RuntimeSplits(book: seq<Entry>)
    ensures Debited(book, false) == OfClass(book, WatchRefresh) + OfClass(book, Discovery)
    ensures Debited(book, true) == OfClass(book, Operator)
  {
    if book != [] { RuntimeSplits(book[..|book| - 1]); }
  }

  lemma {:induction false} SumsAreNotNegative(book: seq<Entry>, class_: Class)
    requires NonNegative(book)
    ensures OfClass(book, class_) >= 0.0
  {
    if book != [] { SumsAreNotNegative(book[..|book| - 1], class_); }
  }

  predicate LimitsSet(cfg: Config) {
    && AllocationSet(cfg) && cfg.externalLiability.Usable() && cfg.accountLimit.Amount?
    && (cfg.accountMargin.Unset? || cfg.accountMargin.Amount?)
  }

  /** The limits of one cycle. */
  ghost predicate WithinLimits(book: seq<Entry>, carried: real, cfg: Config)
    requires LimitsSet(cfg)
  {
    && Debited(book, false) + carried <= Allocation(cfg)
    && Debited(book, true) <= cfg.operatorAllowance.value
    && OfClass(book, Discovery) <= Allocation(cfg) - cfg.watchReserve.value
    && FitsShare(cfg, DebitsOf(book, carried), 0.0)
  }

  /** This cycle is within its limits, and what it has let reach the next one fits the account's share there. */
  ghost predicate BothFit(book: seq<Entry>, carried: Carried, cfg: Config)
    requires LimitsSet(cfg)
  {
    && NonNegative(book)
    && WithinLimits(book, carried.here, cfg)
    && FitsShare(cfg, DebitsOf(Reaching(book), carried.next), 0.0)
  }

  lemma EstimatesAreNotNegative(request: Request, cfg: Config)
    requires request.Valid() && EstimateOf(request, cfg).Fine?
    ensures EstimateOf(request, cfg).value.Admission() >= 0.0
  {
    if request.Runtime? {
      RunEstimateIsNotNegative(request.shape, cfg.prices, cfg.bounds);
    } else {
      OperatorEstimateIsNotNegative(request.kind, cfg);
    }
  }

  lemma RunEstimateIsNotNegative(shape: RunShape, p: Prices, b: Bounds)
    requires shape.Valid() && EstimateRunCost(shape, p, b).Ok?
    ensures EstimateRunCost(shape, p, b).value.Admission() >= 0.0
  {
    var t := Resolve(shape, p, b).value;
    var idle := Budget.Usage(0.0, 0, 0, 0, 0, 0, 0, 0, 0, 0, 0, 0, 0, 0, 0, 0, 0, 0.0, 0.0);
    assert 0.0 <= t.StorageHours();
    Scaled(0.0, (shape.maxItems * shape.maxItemBytes) as real, t.StorageHours());
    Scaled(0.0, (t.kvBytes + MAX_API_REQUEST_BODY_BYTES) as real, t.StorageHours());
    EstimateCoversEveryRun(idle, shape, p, b);
  }

  lemma OperatorEstimateIsNotNegative(kind: OperatorKind, cfg: Config)
    requires EstimateOperatorCost(kind, cfg).Fine?
    ensures EstimateOperatorCost(kind, cfg).value.Admission() >= 0.0
  {
    var p, b := cfg.prices, cfg.bounds;
    var call := CallBound(p, b);
    CallBoundIsNotNegative(p, b);
    match kind
    case Build =>
      AtGrows(0, b.maxRunPolls.value, call);
      AtGrows(0, b.maxCorrectionReads.value, call);
    case Inspect =>
      AtGrows(0, cfg.inspectMaxItems.value, p.datasetReads.value / 1000.0);
      AtGrows(0, cfg.inspectMaxRecordReads.value, call);
      AtGrows(0, cfg.inspectMaxBytes.value, p.transfer.value / BYTES_PER_GB);
      EnvelopeIsNotNegative(InspectionBound(cfg), b.margin.value);
    case Probe =>
      AtGrows(0, cfg.probeMaxCalls.value, call + p.datasetWrites.value / 1000.0);
      AtGrows(0, RowBound.MAX_LISTING_ROW_BYTES, p.datasetStorage.value);
      Scaled(0.0, At(RowBound.MAX_LISTING_ROW_BYTES, p.datasetStorage.value) / BYTES_PER_GB, HoursOfStorage(b));
      EnvelopeIsNotNegative(ProbeBound(cfg), b.margin.value);
  }

  lemma CallBoundIsNotNegative(p: Prices, b: Bounds)
    requires CallPriced(p) && CallBounded(b)
    ensures CallBound(p, b) >= 0.0
  {
    Scaled(0.0, (b.apiCallOverheadBytes.value + 2 * HTTP_RECEIVE_BUFFER_BYTES + b.maxApiResponseBytes.value) as real,
           p.transfer.value / BYTES_PER_GB);
  }

  lemma EnvelopeIsNotNegative(envelope: real, margin: real)
    requires envelope >= 0.0 && margin >= 0.0
    ensures WithMargin(envelope, 0.0, margin) >= 0.0
  {
    RoundedPartsFit(envelope, 0.0, margin);
  }

  lemma AskKeepsLimits(book: seq<Entry>, carried: Carried, cfg: Config, e: Event)
    requires e.Ask? && e.request.Valid() && LimitsSet(cfg) && BothFit(book, carried, cfg) && carried.here >= 0.0
    ensures BothFit(Apply(book, carried, cfg, e), carried, cfg)
  {
    var l := OnBook(e.ledger, book, carried, e.reaches);
    AdmittedExactlyWhen(e.request, cfg, l);
    if DecideAdmission(e.request, cfg, l).Admitted? {
      var amount := EstimateOf(e.request, cfg).value.Admission();
      EstimatesAreNotNegative(e.request, cfg);
      EntryKeepsLimits(book, carried.here, cfg, e.request.BudgetClass(), amount, e.reaches);
      var entry := Entry(e.request.BudgetClass(), amount, e.reaches);
      assert (book + [entry])[..|book|] == book;
      DebitedSnoc(Reaching(book), entry);
    }
  }

  /** An entry that fits its class cap and the account's share keeps every limit of its cycle. */
  lemma EntryKeepsLimits(book: seq<Entry>, carried: real, cfg: Config, class_: Class, amount: real, reaches: bool)
    requires LimitsSet(cfg)
    requires NonNegative(book) && carried >= 0.0 && amount >= 0.0 && WithinLimits(book, carried, cfg)
    requires ClassDebits(class_, DebitsOf(book, carried)) + amount <= ClassCapOf(class_, cfg)
    requires FitsShare(cfg, DebitsOf(book, carried), amount)
    ensures var next := book + [Entry(class_, amount, reaches)]; NonNegative(next) && WithinLimits(next, carried, cfg)
  {
    DebitedSnoc(book, Entry(class_, amount, reaches));
    RuntimeSplits(book);
    SumsAreNotNegative(book, WatchRefresh);
  }

  lemma SettleKeepsLimits(book: seq<Entry>, carried: Carried, cfg: Config, e: Event)
    requires e.Settle? && Enabled(book, e) && LimitsSet(cfg) && BothFit(book, carried, cfg)
    ensures BothFit(Apply(book, carried, cfg, e), carried, cfg)
  {
    SettlingLowers(book, e.index, e.amount, false, Discovery);
    SettlingLowers(book, e.index, e.amount, true, Discovery);
    SettlingLowersNext(book, e.index, e.amount, false);
    SettlingLowersNext(book, e.index, e.amount, true);
  }

  /**
   * From any book within its limits, any sequence of asks and of settlements that never raise a
   * reservation keeps runtime plus carried within A, operator debits within the allowance, the whole
   * within the cycle target and so within 12.00, discovery alone within A less the watch-refresh
   * reserve, and HR_cycle plus the external liability within the account's share, in this cycle and
   * for what reaches the next.
   */
  lemma {:induction false} AdmissionsStayWithinLimits(start: seq<Entry>, events: seq<Event>, carried: Carried, cfg: Config)
    requires LimitsSet(cfg) && carried.here >= 0.0 && BothFit(start, carried, cfg)
    ensures BothFit(Book(start, events, carried, cfg), carried, cfg)
    ensures var d := DebitsOf(Book(start, events, carried, cfg), carried.here);
            d.Cycle() <= cfg.cycleTarget.value <= MAX_CYCLE_TARGET_USD
  {
    if events != [] {
      var front, e := events[..|events| - 1], events[|events| - 1];
      AdmissionsStayWithinLimits(start, front, carried, cfg);
      var book := Book(start, front, carried, cfg);
      if Enabled(book, e) {
        if e.Ask? {
          AskKeepsLimits(book, carried, cfg, e);
        } else {
          SettleKeepsLimits(book, carried, cfg, e);
        }
      }
    }
  }

  /**
   * So the next cycle begins within its limits, with what this one let reach it and a handoff no
   * larger than this one's: the promise carries from cycle to cycle.
   */
  lemma NextCycleBeginsWithinLimits(start: seq<Entry>, events: seq<Event>, carried: Carried, cfg: Config)
    requires LimitsSet(cfg) && carried.here >= 0.0 && BothFit(start, carried, cfg)
    requires 0.0 <= carried.next <= carried.here
    ensures var next := Reaching(Book(start, events, carried, cfg));
            NonNegative(next) && WithinLimits(next, carried.next, cfg)
  {
    AdmissionsStayWithinLimits(start, events, carried, cfg);
    ReachingIsPart(Book(start, events, carried, cfg));
  }

  /** Settling an inspection or probe envelope: its full bound, or an observation above it. */
  function SettleEnvelope(estimate: Estimate, observed: seq<real>): real {
    if observed == [] then estimate.estimate
    else MaxReal(SettleEnvelope(estimate, observed[..|observed| - 1]), observed[|observed| - 1])
  }

  /** No observation lowers a settlement below its bound, and every observation is covered. */
  lemma {:induction false} SettlementIsTheMaximum(estimate: Estimate, observed: seq<real>)
    ensures var s := SettleEnvelope(estimate, observed);
            s >= estimate.estimate && (forall o :: o in observed ==> o <= s) && (s == estimate.estimate || s in observed)
  {
    if observed != [] {
      var front := observed[..|observed| - 1];
      SettlementIsTheMaximum(estimate, front);
      assert observed == front + [observed[|observed| - 1]];
    }
  }
}
