/**
 * The bounded collection loop of the synthetic collector Actor
 * (actors/hw-radar-synthetic-collector/src/synthetic_collector/core.py).
 *
 * The source server is an arbitrary response for every page path; a clock reading is an arbitrary
 * answer to "is it past the deadline".
 */
module Collector {
  import opened Prelude
  import opened RunReport

  const HTTP_READ_CHUNK_BYTES: nat := 65536
  const MAX_ERRORS: nat := 50
  const ACTOR_NAME := "hw-radar-synthetic-collector"
  const UNKNOWN_RUN_SCHEMA_VERSION := "hw-radar-run/v99"

  datatype FaultMode =
    | NoFault | TruncateItems | TruncatePages | TruncateTime | TruncateBytes | PartialFailure
    | ContradictoryReport | CountMismatch | UnknownSchema | Fail

  /** A dataset row; `known` is false once its schema version was rewritten to an unknown one. */
  datatype Row = Row(listing: string, known: bool)

  /** A source listing: the contract-valid row it becomes, or None when it becomes none. */
  type Source = Option<Row>

  datatype PageData = PageData(pagesDeclared: Option<nat>, itemsDeclared: Option<nat>, listings: seq<Source>)

  /** One network read, and whether the clock was past the deadline when it was checked. */
  datatype Chunk = Chunk(size: nat, late: bool)

  /** How a body ends: decoded as a page, undecodable, without a listings array, timed out, or broken off. */
  datatype Ending = Decoded(page: PageData) | NotJson | NoListings | TimedOut | Broken

  datatype Response = Refused(status: nat) | Stream(chunks: seq<Chunk>, ending: Ending)

  /** What the server does with each path, and the clock before each request. */
  datatype Server = Server(answer: nat -> Response, lateBefore: nat -> bool)

  datatype Input = Input(scope: QueryScope, paths: nat, fault: FaultMode)

  datatype Result = Result(rows: seq<Row>, output: Output, succeeded: bool)

  /** A network read never delivers more than one read buffer. */
  ghost predicate ReadsBounded(server: Server) {
    forall i: nat :: server.answer(i).Stream? ==>
      forall c :: c in server.answer(i).chunks ==> c.size <= HTTP_READ_CHUNK_BYTES
  }

  /** The page a response delivers when nothing cuts it short. */
  function Delivered(r: Response): Option<PageData> {
    if r.Stream? && r.ending.Decoded? then Some(r.ending.page) else None
  }

  function ListingsOf(r: Response): seq<Source> {
    if Delivered(r).Some? then Delivered(r).value.listings else []
  }

  /** The listings on a sequence of pages, in order. */
  function OfferedBy(server: Server, fetched: seq<nat>): seq<Source> {
    if fetched == [] then []
    else OfferedBy(server, fetched[..|fetched| - 1]) + ListingsOf(server.answer(fetched[|fetched| - 1]))
  }

  /** The contract-valid rows among some listings, in order. */
  function ValidRows(listings: seq<Source>): (r: seq<Row>)
    ensures |r| <= |listings|
  {
    if listings == [] then []
    else
      var last := listings[|listings| - 1];
      ValidRows(listings[..|listings| - 1]) + if last.Some? then [last.value] else []
  }

  predicate AllValid(listings: seq<Source>) {
    forall l :: l in listings ==> l.Some?
  }

  function Upto(n: nat): (r: seq<nat>)
    ensures |r| == n && forall i :: 0 <= i < n ==> r[i] == i
  {
    seq(n, i => i)
  }

  lemma ValidRowsSnoc(listings: seq<Source>, l: Source)
    ensures ValidRows(listings + [l]) == ValidRows(listings) + if l.Some? then [l.value] else []
  {
    assert (listings + [l])[..|listings|] == listings;
  }

  lemma EmitNext(before: seq<Source>, listings: seq<Source>, i: nat)
    requires i < |listings|
    ensures var all, n := before + listings, |before| + i;
            ValidRows(all[..n + 1]) == ValidRows(all[..n]) + if listings[i].Some? then [listings[i].value] else []
    ensures AllValid(listings[..i + 1]) <==> AllValid(listings[..i]) && listings[i].Some?
  {
    var all, n := before + listings, |before| + i;
    assert all[..n + 1] == all[..n] + [listings[i]];
    ValidRowsSnoc(all[..n], listings[i]);
    assert listings[..i + 1] == listings[..i] + [listings[i]];
  }

  lemma OfferedSnoc(server: Server, fetched: seq<nat>, i: nat)
    ensures OfferedBy(server, fetched + [i]) == OfferedBy(server, fetched) + ListingsOf(server.answer(i))
  {
    assert (fetched + [i])[..|fetched|] == fetched;
  }

  function SizeOf(chunks: seq<Chunk>): nat {
    if chunks == [] then 0 else SizeOf(chunks[..|chunks| - 1]) + chunks[|chunks| - 1].size
  }

  lemma SizeSplits(chunks: seq<Chunk>, i: nat)
    requires i < |chunks|
    ensures SizeOf(chunks[..i + 1]) == SizeOf(chunks[..i]) + chunks[i].size
  {
    assert chunks[..i + 1][..i] == chunks[..i];
  }

  lemma {:induction false} SizeGrows(chunks: seq<Chunk>, i: nat)
    requires i <= |chunks|
    ensures SizeOf(chunks[..i]) <= SizeOf(chunks)
  {
    if i == |chunks| {
      assert chunks[..i] == chunks;
    } else {
      assert chunks[..|chunks| - 1][..i] == chunks[..i];
      SizeGrows(chunks[..|chunks| - 1], i);
    }
  }

  predicate OnTime(chunks: seq<Chunk>) {
    forall c :: c in chunks ==> !c.late
  }

  /** Whether a response delivers its page from `read` bytes on, in time and within `maxBytes`. */
  predicate Delivers(r: Response, read: nat, maxBytes: nat) {
    Delivered(r).Some? && OnTime(r.chunks) && read + SizeOf(r.chunks) <= maxBytes
  }

  /** The pages in `fetched` were delivered, all before `index`, and `rows` are the valid ones among the
      first `processed` listings they offered. */
  predicate RowsFrom(server: Server, index: nat, fetched: seq<nat>, processed: nat, rows: seq<Row>) {
    && |fetched| <= index
    && (forall k :: 0 <= k < |fetched| ==> fetched[k] < index && Delivered(server.answer(fetched[k])).Some?)
    && processed <= |OfferedBy(server, fetched)|
    && rows == ValidRows(OfferedBy(server, fetched)[..processed])
  }

  lemma RowsFromNext(server: Server, index: nat, fetched: seq<nat>, p: nat, r: seq<Row>, processed: nat, rows: seq<Row>)
    requires RowsFrom(server, index, fetched, p, r) && Delivered(server.answer(index)).Some?
    requires var all := OfferedBy(server, fetched) + ListingsOf(server.answer(index));
             processed <= |all| && rows == ValidRows(all[..processed])
    ensures RowsFrom(server, index + 1, fetched + [index], processed, rows)
    ensures OfferedBy(server, fetched + [index]) == OfferedBy(server, fetched) + ListingsOf(server.answer(index))
  {
    OfferedSnoc(server, fetched, index);
  }

  // ── What it takes to fit ──────────────────────────────────────────────────

  /** The body bytes of the first n pages. */
  function BytesOf(server: Server, n: nat): nat {
    if n == 0 then 0
    else BytesOf(server, n - 1) + if server.answer(n - 1).Stream? then SizeOf(server.answer(n - 1).chunks) else 0
  }

  function FirstPages(server: Server, n: nat): seq<Source> {
    OfferedBy(server, Upto(n))
  }

  lemma FirstPagesNext(server: Server, n: nat)
    ensures FirstPages(server, n + 1) == FirstPages(server, n) + ListingsOf(server.answer(n))
  {
    assert Upto(n + 1) == Upto(n) + [n];
    OfferedSnoc(server, Upto(n), n);
  }

  /** Page i is fetched whole and emitted whole, with no cap in the way and every listing valid. */
  predicate PageFits(input: Input, server: Server, i: nat) {
    && !server.lateBefore(i)
    && i < input.scope.maxPages && i < input.scope.maxRequests
    && |FirstPages(server, i)| < input.scope.maxItems && BytesOf(server, i) < input.scope.maxBytes
    && Delivers(server.answer(i), BytesOf(server, i), input.scope.maxBytes)
    && AllValid(ListingsOf(server.answer(i)))
    && |FirstPages(server, i + 1)| <= input.scope.maxItems
  }

  predicate PagesFit(input: Input, server: Server, n: nat) {
    forall i :: 0 <= i < n ==> PageFits(input, server, i)
  }

  // ── Faults: the caps they lower ───────────────────────────────────────────

  function ItemCap(mode: FaultMode, cap: nat): nat {
    if mode.TruncateItems? then Min(cap, 1) else cap
  }

  function PageCap(mode: FaultMode, cap: nat): nat {
    if mode.TruncatePages? then Min(cap, 1) else cap
  }

  predicate SkipsPage(mode: FaultMode, index: nat, planned: nat) {
    mode.PartialFailure? && index + 1 == planned
  }

  /** Whether the fault of the mode has something to act on among the first n pages, the last of the plan included. */
  predicate Bites(input: Input, server: Server, n: nat)
    requires n >= 1
  {
    match input.fault
    case TruncateItems => |FirstPages(server, n - 1)| >= 1 || |FirstPages(server, n)| > 1
    case TruncatePages => n > 1
    case TruncateTime => n > 1
    case TruncateBytes => n > 1
    case PartialFailure => n > 1 || input.paths == 1
    case Fail => true
    case _ => false
  }

  lemma {:induction false} FirstPagesGrow(server: Server, n: nat, m: nat)
    requires n <= m
    ensures |FirstPages(server, n)| <= |FirstPages(server, m)|
    decreases m - n
  {
    if n < m {
      FirstPagesNext(server, n);
      FirstPagesGrow(server, n + 1, m);
    }
  }

  lemma BitesMore(input: Input, server: Server, n: nat, m: nat)
    requires 1 <= n <= m && Bites(input, server, n)
    ensures Bites(input, server, m)
  {
    FirstPagesGrow(server, n - 1, m - 1);
    FirstPagesGrow(server, n, m);
  }

  /** What a fault that bit leaves behind: its own limit and no error, or its own error and no limit. */
  predicate Marks(mode: FaultMode, limits: Limits, errors: seq<ErrorCode>) {
    match mode
    case TruncateItems => limits == NO_LIMITS.(items := true) && errors == []
    case TruncatePages => limits == NO_LIMITS.(pages := true) && errors == []
    case TruncateTime => limits == NO_LIMITS.(time := true) && errors == []
    case TruncateBytes => limits == NO_LIMITS.(bytes := true) && errors == []
    case PartialFailure => limits == NO_LIMITS && errors == ["injected_fetch_error"]
    case Fail => limits == NO_LIMITS && errors == ["injected_failure"]
    case _ => false
  }

  // ── The loop's invariant, on values ───────────────────────────────────────

  /** The counters of a run, with the ghost record of which pages arrived and how far their listings were read. */
  datatype Tally = Tally(
    rows: seq<Row>, errors: seq<ErrorCode>, limits: Limits, requests: nat, pagesAttempted: nat,
    pagesFetched: nat, bytesRead: nat, pagesDeclared: Option<nat>, itemsDeclared: Option<nat>,
    timeExhausted: bool, stopped: bool, fetched: seq<nat>, processed: nat)
  {
    predicate Troubled() {
      limits.Any() || errors != []
    }
  }

  /** The caps as the fault mode leaves them at some point of the loop. */
  predicate CapsKept(t: Tally, input: Input, maxBytes: nat) {
    && |t.rows| <= ItemCap(input.fault, input.scope.maxItems)
    && t.requests <= input.scope.maxRequests
    && maxBytes <= input.scope.maxBytes && (!input.fault.TruncateBytes? ==> maxBytes == input.scope.maxBytes)
    && t.bytesRead <= input.scope.maxBytes + HTTP_READ_CHUNK_BYTES
    && (!input.fault.PartialFailure? ==> t.pagesAttempted <= PageCap(input.fault, input.scope.maxPages))
    && (t.stopped ==> t.Troubled())
  }

  predicate RowsKept(t: Tally, server: Server, index: nat) {
    t.pagesFetched == |t.fetched| && RowsFrom(server, index, t.fetched, t.processed, t.rows)
  }

  /** The declared counts are those of the first page fetched, and they shorten the plan. */
  predicate PlanKept(t: Tally, input: Input, server: Server, index: nat, planned: nat) {
    && (t.fetched == [] ==> t.pagesDeclared.None? && t.itemsDeclared.None?)
    && (t.fetched != [] && Delivered(server.answer(t.fetched[0])).Some? ==>
          && t.pagesDeclared == Delivered(server.answer(t.fetched[0])).value.pagesDeclared
          && t.itemsDeclared == Delivered(server.answer(t.fetched[0])).value.itemsDeclared)
    && planned == (if t.pagesDeclared.Some? then Min(input.paths, t.pagesDeclared.value) else input.paths)
    && index <= input.paths
    && (index <= planned || (|t.fetched| == 1 && index == t.fetched[0] + 1))
  }

  /** Without trouble so far every page before `index` was fetched and every listing emitted. */
  predicate CleanKept(t: Tally, server: Server, index: nat) {
    !t.Troubled() ==>
      && t.fetched == Upto(index) && t.processed == |FirstPages(server, index)| && AllValid(FirstPages(server, index))
  }

  /** A limit is flagged only with work left behind, and work on a page is left only with the limit flagged. */
  predicate WorkLeft(t: Tally, server: Server, planned: nat) {
    && (t.limits.Any() ==> |t.fetched| < planned || t.processed < |OfferedBy(server, t.fetched)|)
    && (!t.limits.Any() ==> t.processed == |OfferedBy(server, t.fetched)|)
  }

  /** A flagged limit is one that was reached. */
  predicate FlagsTrue(t: Tally, input: Input) {
    && (t.limits.items ==> |t.rows| >= ItemCap(input.fault, input.scope.maxItems))
    && (t.limits.requests ==> t.requests >= input.scope.maxRequests)
    && (t.limits.pages ==> t.pagesAttempted >= PageCap(input.fault, input.scope.maxPages))
    && (t.limits.bytes && !input.fault.TruncateBytes? ==> t.bytesRead >= input.scope.maxBytes)
  }

  /** The fault of the mode found nothing among the pages before `index`. */
  predicate Spared(input: Input, server: Server, index: nat, planned: nat) {
    match input.fault
    case TruncateItems => index >= 1 ==> FirstPages(server, index - 1) == []
    case TruncatePages => index <= 1
    case TruncateTime => index <= 1
    case TruncateBytes => index <= 1
    case PartialFailure => (index == 1 ==> input.paths >= 2) && (index >= 2 ==> index < planned)
    case Fail => index <= 1
    case _ => true
  }

  /** The loop has nothing left to attempt. */
  predicate Over(t: Tally, index: nat, planned: nat) {
    t.limits.Any() || t.stopped || index >= planned
  }

  /** While every page judged so far fits, there is no trouble but the fault of the mode, and that ends the loop. */
  predicate FitKept(t: Tally, input: Input, server: Server, index: nat, judged: nat, planned: nat) {
    && index <= judged
    && (t.timeExhausted ==> input.fault.TruncateTime? && t.fetched != [])
    && (!t.Troubled() ==>
          && PagesFit(input, server, judged) && judged == index
          && t.bytesRead == BytesOf(server, index) && t.requests == t.pagesAttempted == index
          && Spared(input, server, index, planned))
    && (t.Troubled() && PagesFit(input, server, judged) ==>
          && judged >= 1 && Bites(input, server, judged) && Marks(input.fault, t.limits, t.errors)
          && Over(t, index, planned))
    && (judged >= 1 && PageFits(input, server, 0) && !SkipsPage(input.fault, 0, input.paths) ==>
          |t.fetched| >= 1 && t.fetched[0] == 0)
  }

  /** After a page the modes that act then have acted. */
  predicate Armed(t: Tally, input: Input, maxBytes: nat) {
    && (t.fetched == [] ==> maxBytes == input.scope.maxBytes)
    && (t.fetched != [] ==>
          && (input.fault.TruncateTime? ==> t.timeExhausted)
          && (input.fault.TruncateBytes? ==> t.bytesRead >= maxBytes)
          && (input.fault.Fail? ==> t.errors != []))
  }

  predicate Kept(t: Tally, input: Input, server: Server, index: nat, judged: nat, planned: nat, maxBytes: nat) {
    && CapsKept(t, input, maxBytes) && RowsKept(t, server, index) && PlanKept(t, input, server, index, planned)
    && CleanKept(t, server, index) && WorkLeft(t, server, planned) && FlagsTrue(t, input)
    && FitKept(t, input, server, index, judged, planned)
  }

  /** No cap forbids page `index`. */
  predicate MayFetch(t: Tally, input: Input, server: Server, index: nat, maxBytes: nat) {
    && !t.limits.Any() && !t.stopped && !t.timeExhausted && !server.lateBefore(index)
    && t.pagesAttempted < PageCap(input.fault, input.scope.maxPages) && t.requests < input.scope.maxRequests
    && |t.rows| < ItemCap(input.fault, input.scope.maxItems) && t.bytesRead < maxBytes
  }

  /** What a fetch that yields no page does to the counters. */
  predicate Missed(t: Tally, t': Tally, r: Response, maxBytes: nat) {
    && t' == t.(requests := t.requests + 1, pagesAttempted := t.pagesAttempted + 1,
                bytesRead := t'.bytesRead, limits := t'.limits, errors := t'.errors, stopped := t'.stopped)
    && !Delivers(r, t.bytesRead, maxBytes)
    && t.bytesRead <= t'.bytesRead <= maxBytes + HTTP_READ_CHUNK_BYTES
    && (t'.limits.Any() <==> t'.stopped) && (t'.limits.Any() <==> t'.errors == t.errors) && t.errors <= t'.errors
    && (t'.limits.bytes <==> t'.bytesRead > maxBytes)
    && !t'.limits.pages && !t'.limits.requests && !t'.limits.items
  }

  lemma MissedIsKept(t: Tally, t': Tally, input: Input, server: Server, index: nat, planned: nat, maxBytes: nat)
    requires Kept(t, input, server, index, index, planned, maxBytes) && index < planned
    requires MayFetch(t, input, server, index, maxBytes)
    requires Missed(t, t', server.answer(index), maxBytes) && Armed(t, input, maxBytes)
    ensures Kept(t', input, server, index + 1, index + 1, planned, maxBytes)
  {
    assert t'.Troubled();
    if PagesFit(input, server, index + 1) {
      assert PagesFit(input, server, index) && PageFits(input, server, index);
      assert false;
    }
  }

  /** What a fetch that yields its page does to the counters before the page is taken. */
  predicate Requested(t: Tally, t': Tally, r: Response, data: PageData, maxBytes: nat) {
    && Delivered(r) == Some(data) && Delivers(r, t.bytesRead, maxBytes)
    && t' == t.(requests := t.requests + 1, pagesAttempted := t.pagesAttempted + 1, bytesRead := t.bytesRead + SizeOf(r.chunks))
  }

  /** What a fetch that yields its page does, up to the fault of the mode. */
  predicate Taken(t: Tally, t': Tally, server: Server, index: nat, data: PageData, maxItems: nat) {
    && t'.requests == t.requests + 1 && t'.pagesAttempted == t.pagesAttempted + 1
    && t'.fetched == t.fetched + [index] && RowsKept(t', server, index + 1) && |t'.rows| <= maxItems
    && t'.bytesRead == t.bytesRead + (if server.answer(index).Stream? then SizeOf(server.answer(index).chunks) else 0)
    && t'.limits == NO_LIMITS.(items := t'.processed < |OfferedBy(server, t'.fetched)|)
    && (t'.limits.items ==> |t'.rows| >= maxItems)
    && t.errors <= t'.errors
    && (AllValid(data.listings) ==> t'.errors == t.errors)
    && (!t'.limits.items && !AllValid(data.listings) ==> t'.errors != t.errors)
    && (if t.fetched == [] then t'.pagesDeclared == data.pagesDeclared && t'.itemsDeclared == data.itemsDeclared
        else t'.pagesDeclared == t.pagesDeclared && t'.itemsDeclared == t.itemsDeclared)
  }

  /** The page arrived and its declared counts were read, if it is the first. */
  predicate Declared(t: Tally, m: Tally, r: Response, data: PageData) {
    && Delivered(r) == Some(data)
    && m == t.(requests := t.requests + 1, pagesAttempted := t.pagesAttempted + 1,
               bytesRead := t.bytesRead + SizeOf(r.chunks),
               pagesDeclared := m.pagesDeclared, itemsDeclared := m.itemsDeclared)
    && if t.fetched == [] then m.pagesDeclared == data.pagesDeclared && m.itemsDeclared == data.itemsDeclared
       else m.pagesDeclared == t.pagesDeclared && m.itemsDeclared == t.itemsDeclared
  }

  lemma TakenFrom(t: Tally, m: Tally, t': Tally, server: Server, index: nat, data: PageData, maxItems: nat, maxBytes: nat)
    requires !t.limits.Any() && Declared(t, m, server.answer(index), data)
    requires t' == m.(rows := t'.rows, errors := t'.errors, limits := t'.limits, processed := t'.processed,
                      fetched := t'.fetched, pagesFetched := t'.pagesFetched)
    requires RowsKept(t', server, index + 1) && t'.fetched == t.fetched + [index] && |t'.rows| <= maxItems
    requires t'.limits == t.limits.(items := t'.processed < |OfferedBy(server, t'.fetched)|)
    requires t'.limits.items ==> |t'.rows| >= maxItems
    requires t.errors <= t'.errors && (AllValid(data.listings) ==> t'.errors == t.errors)
    requires !t'.limits.items && !AllValid(data.listings) ==> t'.errors != t.errors
    ensures Taken(t, t', server, index, data, maxItems)
  {
  }

  function Replanned(t: Tally, data: PageData, planned: nat): nat {
    if t.fetched == [] && data.pagesDeclared.Some? then Min(planned, data.pagesDeclared.value) else planned
  }

  lemma TakenKeepsPlan(t: Tally, t': Tally, input: Input, server: Server, index: nat, planned: nat, data: PageData)
    requires PlanKept(t, input, server, index, planned) && index < planned && RowsKept(t, server, index)
    requires Delivered(server.answer(index)) == Some(data)
    requires Taken(t, t', server, index, data, ItemCap(input.fault, input.scope.maxItems))
    ensures PlanKept(t', input, server, index + 1, Replanned(t, data, planned))
  {
    if t.fetched != [] { assert t'.fetched[0] == t.fetched[0]; }
  }

  lemma TakenKeepsClean(t: Tally, t': Tally, input: Input, server: Server, index: nat, data: PageData)
    requires CleanKept(t, server, index) && !t.limits.Any() && Delivered(server.answer(index)) == Some(data)
    requires Taken(t, t', server, index, data, ItemCap(input.fault, input.scope.maxItems))
    ensures CleanKept(t', server, index + 1)
  {
    if !t'.Troubled() {
      assert !t.Troubled();
      FirstPagesNext(server, index);
      assert Upto(index + 1) == Upto(index) + [index];
    }
  }

  lemma TakenIsFit(t: Tally, t': Tally, input: Input, server: Server, index: nat, planned: nat, maxBytes: nat, data: PageData)
    requires FitKept(t, input, server, index, index, planned) && index < planned && Armed(t, input, maxBytes)
    requires PlanKept(t, input, server, index, planned) && !SkipsPage(input.fault, index, planned)
    requires MayFetch(t, input, server, index, maxBytes) && maxBytes <= input.scope.maxBytes
    requires CleanKept(t, server, index) && RowsKept(t, server, index)
    requires Delivered(server.answer(index)) == Some(data) && Delivers(server.answer(index), t.bytesRead, maxBytes)
    requires Taken(t, t', server, index, data, ItemCap(input.fault, input.scope.maxItems))
    requires t'.timeExhausted == t.timeExhausted && t'.stopped == t.stopped
    ensures FitKept(t', input, server, index + 1, index + 1, Replanned(t, data, planned))
    ensures t'.Troubled() && PagesFit(input, server, index + 1) ==> input.fault.TruncateItems?
  {
    assert PagesFit(input, server, index + 1) <==> PagesFit(input, server, index) && PageFits(input, server, index);
    if t.Troubled() {
      assert t.errors != [];
      assert t'.Troubled();
    } else {
      TakenFits(t, t', input, server, index, planned, maxBytes, data);
      TakenIsSpared(t, input, server, index, planned, maxBytes, data);
    }
    if index >= 1 && PageFits(input, server, 0) && !SkipsPage(input.fault, 0, input.paths) { assert t'.fetched[0] == t.fetched[0]; }
  }

  /** A page taken without trouble before it was not one the fault of the mode acts on. */
  lemma TakenIsSpared(t: Tally, input: Input, server: Server, index: nat, planned: nat, maxBytes: nat, data: PageData)
    requires FitKept(t, input, server, index, index, planned) && index < planned && Armed(t, input, maxBytes) && !t.Troubled()
    requires PlanKept(t, input, server, index, planned) && !SkipsPage(input.fault, index, planned)
    requires MayFetch(t, input, server, index, maxBytes) && CleanKept(t, server, index) && RowsKept(t, server, index)
    ensures Spared(input, server, index + 1, Replanned(t, data, planned))
  {
    assert t.fetched == Upto(index);
    var all := FirstPages(server, index);
    assert all[..|all|] == all;
    ValidRowsOfValid(all);
  }

  lemma {:induction false} ValidRowsOfValid(listings: seq<Source>)
    requires AllValid(listings)
    ensures |ValidRows(listings)| == |listings|
  {
    if listings != [] {
      assert forall l :: l in listings[..|listings| - 1] ==> l in listings;
      ValidRowsOfValid(listings[..|listings| - 1]);
    }
  }

  /** Among listings that are all valid, none is left unread exactly when they all fit the item cap. */
  lemma AllReadExactlyWhenTheyFit(all: seq<Source>, processed: nat, rows: seq<Row>, maxItems: nat)
    requires AllValid(all) && processed <= |all| && rows == ValidRows(all[..processed]) && |rows| <= maxItems
    requires processed < |all| ==> |rows| >= maxItems
    ensures processed == |all| <==> |all| <= maxItems
  {
    assert forall l :: l in all[..processed] ==> l in all;
    ValidRowsOfValid(all[..processed]);
  }

  /** What is left to ask of a page that was delivered with no cap in the way. */
  lemma DeliveredPageFitsWhen(t: Tally, input: Input, server: Server, index: nat, planned: nat, maxBytes: nat)
    requires FitKept(t, input, server, index, index, planned) && !t.Troubled()
    requires MayFetch(t, input, server, index, maxBytes) && maxBytes <= input.scope.maxBytes
    requires CleanKept(t, server, index) && RowsKept(t, server, index)
    requires Delivers(server.answer(index), t.bytesRead, maxBytes)
    ensures PageFits(input, server, index)
            <==> AllValid(ListingsOf(server.answer(index))) && |FirstPages(server, index + 1)| <= input.scope.maxItems
  {
    var all := FirstPages(server, index);
    assert all[..|all|] == all;
    ValidRowsOfValid(all);
  }

  /** With no trouble before, trouble on this page is that it does not fit, or that the item fault bit. */
  lemma TakenFits(t: Tally, t': Tally, input: Input, server: Server, index: nat, planned: nat, maxBytes: nat, data: PageData)
    requires FitKept(t, input, server, index, index, planned) && !t.Troubled()
    requires MayFetch(t, input, server, index, maxBytes) && maxBytes <= input.scope.maxBytes
    requires CleanKept(t, server, index) && RowsKept(t, server, index)
    requires Delivered(server.answer(index)) == Some(data) && Delivers(server.answer(index), t.bytesRead, maxBytes)
    requires Taken(t, t', server, index, data, ItemCap(input.fault, input.scope.maxItems))
    ensures !t'.Troubled() ==> PageFits(input, server, index)
    ensures t'.Troubled() && PageFits(input, server, index) ==>
              input.fault.TruncateItems? && Marks(input.fault, t'.limits, t'.errors) && Bites(input, server, index + 1)
  {
    var all := FirstPages(server, index + 1);
    FirstPagesNext(server, index);
    assert Upto(index + 1) == Upto(index) + [index];
    assert t'.fetched == Upto(index + 1);
    DeliveredPageFitsWhen(t, input, server, index, planned, maxBytes);
    if AllValid(data.listings) {
      assert AllValid(all);
      AllReadExactlyWhenTheyFit(all, t'.processed, t'.rows, ItemCap(input.fault, input.scope.maxItems));
    }
  }

  lemma TakenIsKept(t: Tally, t': Tally, input: Input, server: Server, index: nat, planned: nat, maxBytes: nat, data: PageData)
    requires Kept(t, input, server, index, index, planned, maxBytes) && index < planned
    requires MayFetch(t, input, server, index, maxBytes)
    requires Delivered(server.answer(index)) == Some(data) && Delivers(server.answer(index), t.bytesRead, maxBytes)
    requires Taken(t, t', server, index, data, ItemCap(input.fault, input.scope.maxItems))
    requires t'.timeExhausted == t.timeExhausted && t'.stopped == t.stopped
    requires Armed(t, input, maxBytes) && !SkipsPage(input.fault, index, planned)
    ensures Kept(t', input, server, index + 1, index + 1, Replanned(t, data, planned), maxBytes)
    ensures Primed(t', input, server, index + 1)
  {
    TakenKeepsPlan(t, t', input, server, index, planned, data);
    TakenKeepsClean(t, t', input, server, index, data);
    TakenIsFit(t, t', input, server, index, planned, maxBytes, data);
  }

  /** Before a page's fault acts: on a later page than the first it has acted already. */
  predicate Primed(t: Tally, input: Input, server: Server, index: nat) {
    && t.fetched != []
    && (|t.fetched| > 1 ==> (input.fault.TruncateTime? ==> t.timeExhausted) && (input.fault.Fail? ==> t.errors != []))
    && (input.fault.Fail? && |t.fetched| == 1 && PagesFit(input, server, index) ==> !t.Troubled())
  }

  /** The counters once the fault of the mode acted after a page: time is up, or the Actor fails, after the first. */
  function Faulted(t: Tally, mode: FaultMode): Tally {
    if |t.fetched| != 1 then t
    else if mode.TruncateTime? then t.(timeExhausted := true)
    else if mode.Fail? then t.(errors := t.errors + ["injected_failure"], stopped := true)
    else t
  }

  lemma FaultIsKept(t: Tally, input: Input, server: Server, index: nat, planned: nat, maxBytes: nat, newMaxBytes: nat)
    requires Kept(t, input, server, index, index, planned, maxBytes) && Primed(t, input, server, index)
    requires newMaxBytes == if input.fault.TruncateBytes? then Min(maxBytes, t.bytesRead) else maxBytes
    ensures Kept(Faulted(t, input.fault), input, server, index, index, planned, newMaxBytes)
    ensures Armed(Faulted(t, input.fault), input, newMaxBytes)
  {
  }

  /** The limits once every cap was checked before another page. */
  function Checked(t: Tally, outOfTime: bool, maxPages: nat, maxRequests: nat, maxItems: nat, maxBytes: nat): Limits {
    Limits(t.limits.pages || t.pagesAttempted >= maxPages,
           t.limits.requests || t.requests >= maxRequests,
           t.limits.items || |t.rows| >= maxItems,
           t.limits.time || outOfTime || t.timeExhausted,
           t.limits.bytes || t.bytesRead >= maxBytes)
  }

  lemma CheckIsKept(t: Tally, input: Input, server: Server, index: nat, planned: nat, maxBytes: nat)
    requires Kept(t, input, server, index, index, planned, maxBytes) && index < planned && !t.limits.Any() && !t.stopped
    requires Armed(t, input, maxBytes)
    ensures var limits := Checked(t, server.lateBefore(index), PageCap(input.fault, input.scope.maxPages),
                                  input.scope.maxRequests, ItemCap(input.fault, input.scope.maxItems), maxBytes);
            if limits.Any() then Kept(t.(limits := limits), input, server, index, index + 1, planned, maxBytes)
            else limits == t.limits && MayFetch(t, input, server, index, maxBytes)
  {
    var limits := Checked(t, server.lateBefore(index), PageCap(input.fault, input.scope.maxPages),
                          input.scope.maxRequests, ItemCap(input.fault, input.scope.maxItems), maxBytes);
    if limits.Any() { CheckIsFit(t, input, server, index, planned, maxBytes); }
  }

  /** A cap that forbids a page which fits was lowered by the fault of the mode. */
  lemma CheckIsFit(t: Tally, input: Input, server: Server, index: nat, planned: nat, maxBytes: nat)
    requires FitKept(t, input, server, index, index, planned) && CapsKept(t, input, maxBytes) && CleanKept(t, server, index)
    requires RowsKept(t, server, index) && Armed(t, input, maxBytes) && index < planned && !t.limits.Any() && !t.stopped
    requires Checked(t, server.lateBefore(index), PageCap(input.fault, input.scope.maxPages),
                     input.scope.maxRequests, ItemCap(input.fault, input.scope.maxItems), maxBytes).Any()
    ensures FitKept(t.(limits := Checked(t, server.lateBefore(index), PageCap(input.fault, input.scope.maxPages),
                                         input.scope.maxRequests, ItemCap(input.fault, input.scope.maxItems), maxBytes)),
                    input, server, index, index + 1, planned)
  {
    if PagesFit(input, server, index + 1) {
      assert PagesFit(input, server, index) && PageFits(input, server, index);
      assert !t.Troubled();
      assert FirstPages(server, index)[..|FirstPages(server, index)|] == FirstPages(server, index);
      ValidRowsOfValid(FirstPages(server, index));
    }
  }

  /** A page the fault mode skips is an error, never a limit. */
  lemma SkipIsKept(t: Tally, input: Input, server: Server, index: nat, planned: nat, maxBytes: nat)
    requires Kept(t, input, server, index, index, planned, maxBytes) && SkipsPage(input.fault, index, planned)
    requires !t.limits.Any() && !t.stopped
    ensures Kept(t.(pagesAttempted := t.pagesAttempted + 1, errors := t.errors + ["injected_fetch_error"]),
                 input, server, index + 1, index + 1, planned, maxBytes)
  {
  }

  lemma KeptFacts(t: Tally, input: Input, server: Server, index: nat, judged: nat, planned: nat, maxBytes: nat)
    requires Kept(t, input, server, index, judged, planned, maxBytes)
    ensures index <= input.paths && (t.stopped ==> t.Troubled())
  {
  }

  /** Mutable counters of one collection. */
  class Run {
    var rows: seq<Row>
    var errors: seq<ErrorCode>
    var limits: Limits
    var requests: nat
    var pagesAttempted: nat
    var pagesFetched: nat
    var bytesRead: nat
    var pagesDeclared: Option<nat>
    var itemsDeclared: Option<nat>
    var timeExhausted: bool
    var stopped: bool
    // which paths delivered their page, and how many of the listings offered were looked at
    ghost var fetched: seq<nat>
    ghost var processed: nat

    constructor ()
      ensures rows == [] && errors == [] && limits == NO_LIMITS && requests == 0 && pagesAttempted == 0
      ensures pagesFetched == 0 && bytesRead == 0 && pagesDeclared.None? && itemsDeclared.None?
      ensures !timeExhausted && !stopped && fetched == [] && processed == 0
    {
      rows, errors, limits, requests, pagesAttempted := [], [], NO_LIMITS, 0, 0;
      pagesFetched, bytesRead, pagesDeclared, itemsDeclared := 0, 0, None, None;
      timeExhausted, stopped, fetched, processed := false, false, [], 0;
    }

    ghost function Now(): Tally
      reads this
    {
      Tally(rows, errors, limits, requests, pagesAttempted, pagesFetched, bytesRead, pagesDeclared, itemsDeclared,
            timeExhausted, stopped, fetched, processed)
    }

    /** Record every cap that forbids fetching another page; true when any does. */
    method StopForLimits(outOfTime: bool, maxPages: nat, maxRequests: nat, maxItems: nat, maxBytes: nat)
      returns (stop: bool)
      modifies this`limits
      ensures limits == Checked(old(Now()), outOfTime, maxPages, maxRequests, maxItems, maxBytes) && stop == limits.Any()
    {
      limits := Limits(limits.pages || pagesAttempted >= maxPages,
                       limits.requests || requests >= maxRequests,
                       limits.items || |rows| >= maxItems,
                       limits.time || outOfTime || timeExhausted,
                       limits.bytes || bytesRead >= maxBytes);
      stop := limits.Any();
    }

    /** Read the body chunk by chunk, checking the byte budget and the deadline after each. */
    method ReadBody(chunks: seq<Chunk>, maxBytes: nat) returns (whole: bool)
      requires bytesRead <= maxBytes && !limits.Any() && !stopped
      requires forall c :: c in chunks ==> c.size <= HTTP_READ_CHUNK_BYTES
      modifies this`bytesRead, this`limits, this`stopped
      ensures whole <==> OnTime(chunks) && old(bytesRead) + SizeOf(chunks) <= maxBytes
      ensures old(bytesRead) <= bytesRead <= maxBytes + HTTP_READ_CHUNK_BYTES
      ensures whole ==> bytesRead == old(bytesRead) + SizeOf(chunks) && limits == old(limits) && !stopped
      ensures !whole ==> stopped && limits.Any()
      ensures limits.bytes <==> bytesRead > maxBytes
      ensures !limits.pages && !limits.requests && !limits.items
    {
      var i := 0;
      while i < |chunks|
        invariant 0 <= i <= |chunks|
        invariant bytesRead == old(bytesRead) + SizeOf(chunks[..i]) <= maxBytes
        invariant OnTime(chunks[..i])
        invariant limits == old(limits) && !stopped
      {
        var chunk := chunks[i];
        SizeSplits(chunks, i);
        SizeGrows(chunks, i + 1);
        assert chunk in chunks;
        assert chunks[..i + 1] == chunks[..i] + [chunk];
        bytesRead := bytesRead + chunk.size;
        var overBytes := bytesRead > maxBytes;
        if overBytes || chunk.late {
          limits := limits.(bytes := limits.bytes || overBytes, time := limits.time || chunk.late);
          stopped := true;
          return false;
        }
        i := i + 1;
      }
      assert chunks[..i] == chunks;
      whole := true;
    }

    /** GET one page within the deadline and the byte budget; None when unusable. */
    method FetchPage(response: Response, maxBytes: nat) returns (page: Option<PageData>)
      requires bytesRead < maxBytes && !limits.Any() && !stopped
      requires response.Stream? ==> forall c :: c in response.chunks ==> c.size <= HTTP_READ_CHUNK_BYTES
      modifies this`requests, this`bytesRead, this`limits, this`stopped, this`errors
      ensures requests == old(requests) + 1
      ensures old(bytesRead) <= bytesRead <= maxBytes + HTTP_READ_CHUNK_BYTES
      ensures page.Some? <==> Delivers(response, old(bytesRead), maxBytes)
      ensures page.Some? ==> page == Delivered(response) && bytesRead == old(bytesRead) + SizeOf(response.chunks)
      ensures page.Some? ==> errors == old(errors) && !limits.Any() && !stopped
      ensures page.None? ==> (limits.Any() <==> stopped) && (limits.Any() <==> errors == old(errors))
      ensures old(errors) <= errors
      ensures limits.bytes <==> bytesRead > maxBytes
      ensures !limits.pages && !limits.requests && !limits.items
    {
      requests := requests + 1;
      if response.Refused? {
        errors := errors + ["http_status"];
        return None;
      }
      var whole := ReadBody(response.chunks, maxBytes);
      if !whole { return None; }
      match response.ending {
        case TimedOut =>
          limits := limits.(time := true);
          stopped := true;
          page := None;
        case Broken =>
          errors := errors + ["fetch_error"];
          page := None;
        case NotJson =>
          errors := errors + ["invalid_page"];
          page := None;
        case NoListings =>
          errors := errors + ["invalid_page"];
          page := None;
        case Decoded(data) =>
          page := Some(data);
      }
    }

    /** Emit a page's valid listings until the item cap leaves one unprocessed. */
    method EmitRows(listings: seq<Source>, maxItems: nat, ghost before: seq<Source>)
      requires processed == |before| && rows == ValidRows(before) && |rows| <= maxItems && !limits.items
      modifies this`rows, this`errors, this`limits, this`processed
      ensures |before| <= processed <= |before| + |listings|
      ensures rows == ValidRows((before + listings)[..processed]) && |rows| <= maxItems
      ensures limits == old(limits).(items := processed < |before| + |listings|)
      ensures limits.items ==> |rows| >= maxItems
      ensures old(errors) <= errors
      ensures AllValid(listings) ==> errors == old(errors)
      ensures !limits.items && !AllValid(listings) ==> errors != old(errors)
    {
      var i := 0;
      assert (before + listings)[..|before|] == before;
      while i < |listings|
        invariant 0 <= i <= |listings| && processed == |before| + i
        invariant rows == ValidRows((before + listings)[..processed]) && |rows| <= maxItems
        invariant limits == old(limits) && old(errors) <= errors
        invariant errors == old(errors) <==> AllValid(listings[..i])
      {
        if |rows| >= maxItems {
          limits := limits.(items := true);
          return;
        }
        EmitNext(before, listings, i);
        if listings[i].None? {
          errors := errors + ["invalid_source_listing"];
        } else {
          rows := rows + [listings[i].value];
        }
        processed := processed + 1;
        i := i + 1;
      }
      assert listings[..i] == listings;
    }

    /** A page that arrived is counted and its rows are emitted. */
    method TakeRows(data: PageData, maxItems: nat, ghost server: Server, ghost index: nat)
      requires Delivered(server.answer(index)) == Some(data)
      requires RowsKept(Now(), server, index) && !limits.items && processed == |OfferedBy(server, fetched)|
      requires |rows| <= maxItems
      modifies this`rows, this`errors, this`limits, this`processed, this`fetched, this`pagesFetched
      ensures RowsKept(Now(), server, index + 1) && fetched == old(fetched) + [index] && |rows| <= maxItems
      ensures limits == old(limits).(items := processed < |OfferedBy(server, fetched)|)
      ensures limits.items ==> |rows| >= maxItems
      ensures old(errors) <= errors
      ensures AllValid(data.listings) ==> errors == old(errors)
      ensures !limits.items && !AllValid(data.listings) ==> errors != old(errors)
    {
      pagesFetched := pagesFetched + 1;
      ghost var before, p, r := OfferedBy(server, fetched), processed, rows;
      assert before[..processed] == before;
      EmitRows(data.listings, maxItems, before);
      RowsFromNext(server, index, fetched, p, r, processed, rows);
      fetched := fetched + [index];
    }

    /** What a fault mode does once a page was emitted: fail or run out of time after page 1. */
    method AfterPage(mode: FaultMode)
      requires pagesFetched == |fetched|
      modifies this`timeExhausted, this`errors, this`stopped
      ensures Now() == Faulted(old(Now()), mode)
    {
      if pagesFetched == 1 {
        if mode.TruncateTime? { timeExhausted := true; }
        if mode.Fail? {
          errors := errors + ["injected_failure"];
          stopped := true;
        }
      }
    }

    /** Send the request for page `index`. */
    method Request(response: Response, maxBytes: nat) returns (page: Option<PageData>)
      requires bytesRead < maxBytes && !limits.Any() && !stopped
      requires response.Stream? ==> forall c :: c in response.chunks ==> c.size <= HTTP_READ_CHUNK_BYTES
      modifies this
      ensures page.None? ==> Missed(old(Now()), Now(), response, maxBytes)
      ensures page.Some? ==> Requested(old(Now()), Now(), response, page.value, maxBytes)
    {
      pagesAttempted := pagesAttempted + 1;
      page := FetchPage(response, maxBytes);
    }

    /** Count the page that arrived and emit its rows. */
    method TakePage(data: PageData, maxItems: nat, ghost server: Server, ghost index: nat, ghost t: Tally, ghost maxBytes: nat)
      requires Declared(t, Now(), server.answer(index), data)
      requires RowsKept(t, server, index) && !t.limits.Any() && t.processed == |OfferedBy(server, t.fetched)|
      requires |rows| <= maxItems
      modifies this
      ensures Taken(t, Now(), server, index, data, maxItems)
      ensures timeExhausted == t.timeExhausted && stopped == t.stopped
    {
      ghost var m := Now();
      TakeRows(data, maxItems, server, index);
      assert Now() == m.(rows := rows, errors := errors, limits := limits, processed := processed,
                         fetched := fetched, pagesFetched := pagesFetched);
      TakenFrom(t, m, Now(), server, index, data, maxItems, maxBytes);
    }

    /** The first page fetched declares the counts, and its page count shortens the plan. */
    method Declare(data: PageData, planned: nat, ghost r: Response, ghost t: Tally, ghost maxBytes: nat) returns (newPlanned: nat)
      requires Requested(t, Now(), r, data, maxBytes) && t.pagesFetched == |t.fetched|
      modifies this`pagesDeclared, this`itemsDeclared
      ensures Declared(t, Now(), r, data) && newPlanned == Replanned(t, data, planned)
    {
      newPlanned := planned;
      if pagesFetched == 0 {
        pagesDeclared, itemsDeclared := data.pagesDeclared, data.itemsDeclared;
        if data.pagesDeclared.Some? { newPlanned := Min(planned, data.pagesDeclared.value); }
      }
    }

    /** The fault of the mode, if any, after a page was emitted. */
    method ApplyFault(input: Input, maxBytes: nat, ghost server: Server, ghost index: nat, ghost planned: nat)
      returns (newMaxBytes: nat)
      requires Kept(Now(), input, server, index, index, planned, maxBytes) && !stopped && Primed(Now(), input, server, index)
      modifies this`timeExhausted, this`errors, this`stopped
      ensures Kept(Now(), input, server, index, index, planned, newMaxBytes) && Armed(Now(), input, newMaxBytes)
    {
      ghost var t := Now();
      AfterPage(input.fault);
      newMaxBytes := maxBytes;
      if input.fault.TruncateBytes? && pagesFetched >= 1 { newMaxBytes := Min(maxBytes, bytesRead); }
      FaultIsKept(t, input, server, index, planned, maxBytes, newMaxBytes);
    }

    /** Take the page that arrived, and act the fault of the mode after it. */
    method TakeKept(input: Input, data: PageData, planned: nat, maxBytes: nat, ghost server: Server, ghost index: nat, ghost t: Tally)
      returns (newPlanned: nat, newMaxBytes: nat)
      requires Requested(t, Now(), server.answer(index), data, maxBytes) && index < planned
      requires Kept(t, input, server, index, index, planned, maxBytes) && MayFetch(t, input, server, index, maxBytes)
      requires Armed(t, input, maxBytes) && !SkipsPage(input.fault, index, planned)
      modifies this
      ensures Kept(Now(), input, server, index + 1, index + 1, newPlanned, newMaxBytes) && Armed(Now(), input, newMaxBytes)
      ensures limits.Any() ==> limits.items
    {
      newPlanned := Declare(data, planned, server.answer(index), t, maxBytes);
      TakePage(data, ItemCap(input.fault, input.scope.maxItems), server, index, t, maxBytes);
      TakenIsKept(t, Now(), input, server, index, planned, maxBytes, data);
      newMaxBytes := ApplyFault(input, maxBytes, server, index + 1, newPlanned);
    }

    /** Attempt page `index`, which no cap forbids, and act the fault of the mode if it arrived. */
    method AttemptPage(input: Input, server: Server, index: nat, planned: nat, maxBytes: nat)
      returns (newPlanned: nat, newMaxBytes: nat)
      requires index < planned && ReadsBounded(server)
      requires Kept(Now(), input, server, index, index, planned, maxBytes)
      requires MayFetch(Now(), input, server, index, maxBytes)
      requires Armed(Now(), input, maxBytes) && !SkipsPage(input.fault, index, planned)
      modifies this
      ensures Kept(Now(), input, server, index + 1, index + 1, newPlanned, newMaxBytes) && Armed(Now(), input, newMaxBytes)
      ensures limits.Any() ==> stopped || limits.items
    {
      ghost var t := Now();
      newPlanned, newMaxBytes := planned, maxBytes;
      var page := Request(server.answer(index), maxBytes);
      if page.Some? {
        newPlanned, newMaxBytes := TakeKept(input, page.value, planned, maxBytes, server, index, t);
      } else {
        MissedIsKept(t, Now(), input, server, index, planned, maxBytes);
      }
    }

    method SkipPage(input: Input, ghost server: Server, ghost index: nat, ghost planned: nat, ghost maxBytes: nat)
      requires Kept(Now(), input, server, index, index, planned, maxBytes) && SkipsPage(input.fault, index, planned)
      requires !limits.Any() && !stopped && Armed(Now(), input, maxBytes)
      modifies this`pagesAttempted, this`errors
      ensures Kept(Now(), input, server, index + 1, index + 1, planned, maxBytes) && Armed(Now(), input, maxBytes)
    {
      SkipIsKept(Now(), input, server, index, planned, maxBytes);
      pagesAttempted := pagesAttempted + 1;
      errors := errors + ["injected_fetch_error"];
    }

    /** Check every cap before page `index`. */
    method CheckCaps(input: Input, server: Server, index: nat, ghost planned: nat, maxBytes: nat) returns (stop: bool)
      requires Kept(Now(), input, server, index, index, planned, maxBytes) && index < planned
      requires !limits.Any() && !stopped && Armed(Now(), input, maxBytes)
      modifies this`limits
      ensures stop == limits.Any() && Armed(Now(), input, maxBytes)
      ensures stop ==> Kept(Now(), input, server, index, index + 1, planned, maxBytes)
      ensures !stop ==> Now() == old(Now()) && MayFetch(Now(), input, server, index, maxBytes)
    {
      CheckIsKept(Now(), input, server, index, planned, maxBytes);
      stop := StopForLimits(server.lateBefore(index), PageCap(input.fault, input.scope.maxPages),
                            input.scope.maxRequests, ItemCap(input.fault, input.scope.maxItems), maxBytes);
    }

    /** One turn of the loop: skip the page, stop at a limit, or attempt the page. */
    method Turn(input: Input, server: Server, index: nat, planned: nat, maxBytes: nat)
      returns (next: nat, newPlanned: nat, newMaxBytes: nat, done: bool)
      requires index < planned && ReadsBounded(server) && !limits.Any() && !stopped
      requires Kept(Now(), input, server, index, index, planned, maxBytes) && Armed(Now(), input, maxBytes)
      modifies this
      ensures Kept(Now(), input, server, next, index + 1, newPlanned, newMaxBytes) && Armed(Now(), input, newMaxBytes)
      ensures next == index + 1 || (next == index && done && newPlanned == planned)
      ensures (limits.Any() ==> stopped || done) && (done ==> limits.Any())
    {
      next, newPlanned, newMaxBytes, done := index + 1, planned, maxBytes, false;
      if SkipsPage(input.fault, index, planned) {
        SkipPage(input, server, index, planned, maxBytes);
      } else {
        var stop := CheckCaps(input, server, index, planned, maxBytes);
        if stop {
          next, done := index, true;
        } else {
          newPlanned, newMaxBytes := AttemptPage(input, server, index, planned, maxBytes);
          done := limits.items;
        }
      }
    }

    /** The loop: every planned page in turn until a limit, a failure or the end of the plan. */
    method Gather(input: Input, server: Server)
      returns (index: nat, ghost judged: nat, planned: nat, maxBytes: nat)
      requires input.paths >= 1 && ReadsBounded(server)
      requires Kept(Now(), input, server, 0, 0, input.paths, input.scope.maxBytes) && !limits.Any() && !stopped
      requires Armed(Now(), input, input.scope.maxBytes)
      modifies this
      ensures Kept(Now(), input, server, index, judged, planned, maxBytes) && Armed(Now(), input, maxBytes)
      ensures !Now().Troubled() ==> index >= planned
      ensures judged <= index + 1 && (judged == index + 1 ==> index < planned)
    {
      index, judged, planned, maxBytes := 0, 0, input.paths, input.scope.maxBytes;
      var done := false;
      while index < planned && !stopped && !done
        invariant Kept(Now(), input, server, index, judged, planned, maxBytes) && Armed(Now(), input, maxBytes)
        invariant (!done ==> judged == index) && judged <= index + 1 && index <= input.paths
        invariant judged == index + 1 ==> done && index < planned
        invariant (limits.Any() ==> stopped || done) && (done ==> limits.Any()) && (stopped ==> Now().Troubled())
        decreases input.paths - index, !done
      {
        judged := index + 1;
        index, planned, maxBytes, done := Turn(input, server, index, planned, maxBytes);
        KeptFacts(Now(), input, server, index, judged, planned, maxBytes);
      }
    }

    // ── The report ──────────────────────────────────────────────────────────

    /** Refuse to claim completeness against the declared counts, then say what the fault mode says. */
    method Finish(input: Input, planned: nat) returns (result: Result)
      modifies this
      ensures result == Reported(old(Now()), input, planned)
    {
      if !limits.Any() && errors == [] {
        if pagesFetched < planned || (pagesDeclared.Some? && pagesFetched < pagesDeclared.value) {
          errors := errors + ["source_pages_unlisted"];
        } else if itemsDeclared.Some? && |rows| != itemsDeclared.value {
          errors := errors + ["declared_item_count_mismatch"];
        }
      }
      var complete := !limits.Any() && errors == [];
      var itemsEmitted := |rows|;
      var reported := rows;
      if input.fault.ContradictoryReport? { limits := limits.(pages := true); }
      if input.fault.CountMismatch? { itemsEmitted := itemsEmitted + 1; }
      if input.fault.UnknownSchema? { reported := Disguised(rows); }
      var report := Report(complete, limits.Any() && !input.fault.ContradictoryReport?, limits,
                           pagesDeclared, pagesFetched, itemsDeclared, itemsEmitted);
      if |errors| > MAX_ERRORS { errors := errors[..MAX_ERRORS - 1] + ["errors_truncated"]; }
      var version := if input.fault.UnknownSchema? then UNKNOWN_RUN_SCHEMA_VERSION else RUN_SCHEMA_VERSION;
      result := Result(reported,
                       Output(version, !input.fault.Fail?, report, input.scope, ACTOR_NAME, errors),
                       !input.fault.Fail?);
    }
  }

  /** The rows with an unknown schema version written over theirs. */
  function Disguised(rows: seq<Row>): seq<Row> {
    seq(|rows|, i requires 0 <= i < |rows| => rows[i].(known := false))
  }

  /** The error a run without trouble still earns against the counts its source declared. */
  function DeclarationError(t: Tally, planned: nat): seq<ErrorCode> {
    if t.Troubled() then []
    else if t.pagesFetched < planned || (t.pagesDeclared.Some? && t.pagesFetched < t.pagesDeclared.value) then
      ["source_pages_unlisted"]
    else if t.itemsDeclared.Some? && |t.rows| != t.itemsDeclared.value then ["declared_item_count_mismatch"]
    else []
  }

  function Capped(errors: seq<ErrorCode>): (r: seq<ErrorCode>)
    ensures |r| <= MAX_RUN_ERRORS && (r == [] <==> errors == [])
    ensures if |errors| <= 50 then r == errors else |r| == 50 && r[..49] == errors[..49] && r[49] == "errors_truncated"
  {
    if |errors| > MAX_ERRORS then errors[..MAX_ERRORS - 1] + ["errors_truncated"] else errors
  }

  function Reported(t: Tally, input: Input, planned: nat): Result {
    var errors := t.errors + DeclarationError(t, planned);
    var limits := if input.fault.ContradictoryReport? then t.limits.(pages := true) else t.limits;
    Result(if input.fault.UnknownSchema? then Disguised(t.rows) else t.rows,
           Output(if input.fault.UnknownSchema? then UNKNOWN_RUN_SCHEMA_VERSION else RUN_SCHEMA_VERSION,
                  !input.fault.Fail?,
                  Report(!t.limits.Any() && errors == [],
                         limits.Any() && !input.fault.ContradictoryReport?, limits,
                         t.pagesDeclared, t.pagesFetched, t.itemsDeclared,
                         |t.rows| + if input.fault.CountMismatch? then 1 else 0),
                  input.scope, ACTOR_NAME, Capped(errors)),
           !input.fault.Fail?)
  }

  // ── What a collection promises ────────────────────────────────────────────

  /** The modes whose report is the honest account of the fetch. */
  predicate ReportsHonestly(mode: FaultMode) {
    !mode.ContradictoryReport? && !mode.CountMismatch? && !mode.UnknownSchema?
  }

  /** How many pages the plan holds: as many as listed, or as few as the first page declares. */
  function Planned(input: Input, server: Server): nat {
    var first := Delivered(server.answer(0));
    if first.Some? && first.value.pagesDeclared.Some? then Max(1, Min(input.paths, first.value.pagesDeclared.value))
    else input.paths
  }

  /** The counts the first page declares, if they agree with the pages listed and the listings there are. */
  predicate DeclarationsAgree(input: Input, server: Server) {
    Delivered(server.answer(0)).Some? ==>
      var first := Delivered(server.answer(0)).value;
      && (first.pagesDeclared.Some? ==> first.pagesDeclared.value <= input.paths)
      && (first.itemsDeclared.Some? ==> |FirstPages(server, Planned(input, server))| == first.itemsDeclared.value)
  }

  /** Everything there is was fetched and emitted. */
  predicate Everything(input: Input, server: Server, r: Result) {
    var n := r.output.report.pagesFetched;
    && n == Planned(input, server)
    && (forall i :: 0 <= i < n ==> Delivered(server.answer(i)).Some?)
    && AllValid(FirstPages(server, n))
    && r.rows == ValidRows(FirstPages(server, n)) && |r.rows| == |FirstPages(server, n)|
    && DeclarationsAgree(input, server)
  }

  lemma AtTheEnd(t: Tally, input: Input, server: Server, index: nat, judged: nat, planned: nat, maxBytes: nat)
    requires Kept(t, input, server, index, judged, planned, maxBytes) && input.paths >= 1
    requires !t.Troubled() && index >= planned
    ensures index == Planned(input, server) == t.pagesFetched && t.rows == ValidRows(FirstPages(server, index))
    ensures |t.rows| == |FirstPages(server, index)|
    ensures DeclarationError(t, planned) == [] <==> DeclarationsAgree(input, server)
  {
    var all := FirstPages(server, index);
    assert all[..|all|] == all;
    ValidRowsOfValid(all);
    assert index >= 1 && t.fetched[0] == 0;
  }

  lemma ReportIsHonest(t: Tally, input: Input, server: Server, index: nat, judged: nat, planned: nat, maxBytes: nat)
    requires Kept(t, input, server, index, judged, planned, maxBytes) && input.paths >= 1
    requires !t.Troubled() ==> index >= planned
    requires ReportsHonestly(input.fault)
    ensures Honest(Reported(t, input, planned).output, |Reported(t, input, planned).rows|)
    ensures Reported(t, input, planned).output.report.complete ==> Everything(input, server, Reported(t, input, planned))
  {
    if t.fetched != [] { assert Delivered(server.answer(t.fetched[0])).Some?; }
    if !t.Troubled() {
      AtTheEnd(t, input, server, index, judged, planned, maxBytes);
      forall i | 0 <= i < index ensures Delivered(server.answer(i)).Some? {
        assert t.fetched[i] == i;
      }
    }
  }

  /** Whether all of it fits the caps, with every listing valid and the declared counts agreeing. */
  predicate Fits(input: Input, server: Server) {
    PagesFit(input, server, Planned(input, server)) && DeclarationsAgree(input, server)
  }

  /**
   * Whatever the mode, complete is claimed exactly when all of it fits and the fault of the mode finds
   * nothing to bite; and where it fits and the fault bites, the report carries that fault's mark alone.
   */
  lemma CompleteExactlyWhenItFits(t: Tally, input: Input, server: Server, index: nat, judged: nat, planned: nat, maxBytes: nat)
    requires Kept(t, input, server, index, judged, planned, maxBytes) && Armed(t, input, maxBytes) && input.paths >= 1
    requires !t.Troubled() ==> index >= planned
    requires judged <= index + 1 && (judged == index + 1 ==> index < planned)
    ensures Reported(t, input, planned).output.report.complete
            <==> Fits(input, server) && !Bites(input, server, Planned(input, server))
    ensures PagesFit(input, server, Planned(input, server)) && Bites(input, server, Planned(input, server)) ==>
              Marks(input.fault, Reported(t, input, planned).output.report.limits, Reported(t, input, planned).output.errors)
  {
    if !t.Troubled() {
      AtTheEnd(t, input, server, index, judged, planned, maxBytes);
      ItemsAtTheEnd(t, input, server, index, judged, planned, maxBytes);
    } else {
      assert judged >= 1;
      if PagesFit(input, server, Planned(input, server)) {
        JudgedIsPlanned(t, input, server, index, judged, planned, maxBytes);
        BitesMore(input, server, judged, Planned(input, server));
      }
    }
  }

  lemma ItemsAtTheEnd(t: Tally, input: Input, server: Server, index: nat, judged: nat, planned: nat, maxBytes: nat)
    requires Kept(t, input, server, index, judged, planned, maxBytes) && Armed(t, input, maxBytes) && input.paths >= 1
    requires !t.Troubled() && index >= planned
    ensures index == Planned(input, server) && !Bites(input, server, index)
  {
    AtTheEnd(t, input, server, index, judged, planned, maxBytes);
  }

  /** No more pages were judged than are planned. */
  lemma JudgedIsPlanned(t: Tally, input: Input, server: Server, index: nat, judged: nat, planned: nat, maxBytes: nat)
    requires Kept(t, input, server, index, judged, planned, maxBytes) && input.paths >= 1 && t.Troubled()
    requires judged <= index + 1 && (judged == index + 1 ==> index < planned)
    requires PagesFit(input, server, Planned(input, server))
    ensures 1 <= judged <= Planned(input, server)
    ensures PagesFit(input, server, judged)
  {
    assert PageFits(input, server, 0);
    if !SkipsPage(input.fault, 0, input.paths) {
      assert t.fetched[0] == 0 && Delivered(server.answer(0)).Some?;
      assert Max(1, planned) == Planned(input, server);
    }
  }

  /** A source of one page with one listing. */
  function OnePage(): Server {
    Server(_ => Stream([Chunk(1, false)], Decoded(PageData(None, None, [Some(Row("a", true))]))), _ => false)
  }

  /** A fault mode need not produce its fault: on a source of one page, lowering the page cap to one truncates nothing. */
  lemma OnePageIsNotTruncated()
    ensures var input := Input(QueryScope("", "", "", 1, 1, 1, 1, 1), 1, TruncatePages);
            Fits(input, OnePage()) && !Bites(input, OnePage(), Planned(input, OnePage()))
  {
    FirstPagesNext(OnePage(), 0);
    assert Upto(0) == [];
    assert [Chunk(1, false)][..0] == [];
    assert SizeOf([Chunk(1, false)]) == 1;
  }

  /** What the run spent, whichever way it ended. */
  datatype Usage = Usage(requests: nat, pagesAttempted: nat, bytesRead: nat)

  /**
   * Collect every planned page within every cap. Whatever the server does:
   * - the caps hold, the bytes with at most one network read of overshoot;
   * - unless the mode rewrites the report, it is honest, and complete means that everything planned
   *   was fetched and emitted;
   * - complete is claimed exactly when every planned page fits the caps with every listing valid, the
   *   declared counts agree, and the fault of the mode, if any, finds nothing to bite;
   * - where it all fits and the fault bites, its own limit or its own error is all that is reported;
   * - a limit is flagged only if it was reached and left a page or a listing unprocessed.
   */
  method Collect(input: Input, server: Server)
    returns (result: Result, usage: Usage, ghost t: Tally, ghost planned: nat)
    requires input.paths >= 1 && ReadsBounded(server)
    ensures usage == Usage(t.requests, t.pagesAttempted, t.bytesRead)
    ensures |result.rows| <= input.scope.maxItems && usage.requests <= input.scope.maxRequests
    ensures usage.bytesRead <= input.scope.maxBytes + HTTP_READ_CHUNK_BYTES
    ensures !input.fault.PartialFailure? ==> usage.pagesAttempted <= input.scope.maxPages
    ensures ReportsHonestly(input.fault) ==>
              && Honest(result.output, |result.rows|)
              && (result.output.report.complete ==> Everything(input, server, result))
    ensures result.output.report.complete <==> Fits(input, server) && !Bites(input, server, Planned(input, server))
    ensures Fits(input, server) && Bites(input, server, Planned(input, server)) ==>
              Marks(input.fault, result.output.report.limits, result.output.errors)
    ensures t.limits.Any() ==> |t.fetched| < planned || t.processed < |OfferedBy(server, t.fetched)|
    ensures FlagsTrue(t, input) && result == Reported(t, input, planned)
    ensures t.processed <= |OfferedBy(server, t.fetched)| && t.rows == ValidRows(OfferedBy(server, t.fetched)[..t.processed])
    ensures |result.output.errors| <= MAX_RUN_ERRORS
  {
    var run := new Run();
    var index, plan, maxBytes;
    ghost var judged;
    StartIsKept(run.Now(), input, server);
    index, judged, plan, maxBytes := run.Gather(input, server);
    t, planned := run.Now(), plan;
    usage := Usage(run.requests, run.pagesAttempted, run.bytesRead);
    if ReportsHonestly(input.fault) { ReportIsHonest(t, input, server, index, judged, plan, maxBytes); }
    CompleteExactlyWhenItFits(t, input, server, index, judged, plan, maxBytes);
    result := run.Finish(input, plan);
  }

  lemma StartIsKept(t: Tally, input: Input, server: Server)
    requires t == Tally([], [], NO_LIMITS, 0, 0, 0, 0, None, None, false, false, [], 0)
    ensures Kept(t, input, server, 0, 0, input.paths, input.scope.maxBytes) && Armed(t, input, input.scope.maxBytes)
  {
  }
}
