/**
 * One observation applied to one listing under the ordering guards
 * (src/hw_radar/acquisition/persist.py, Listing.mark_delisted in src/hw_radar/catalog/models/market.py).
 */
module Persist {
  import opened Prelude
  import opened Contracts

  datatype RetentionClass =
    | MerchantFact | AmazonIdentifier | TavilyExtract | ManufacturerReference | ListingDerivedAlias
    | EbayListingObservation | AmazonEphemeral | TransientDiscovery
    | AvailabilityHeartbeat | AvailabilityHeartbeatEvent
  {
    predicate Bounded() {
      EbayListingObservation? || AmazonEphemeral? || TransientDiscovery?
      || AvailabilityHeartbeat? || AvailabilityHeartbeatEvent?
    }

    predicate DeleteOnDelist() {
      EbayListingObservation?
    }
  }

  /** The retention one observation carries onto its snapshot. */
  datatype Retention = Retention(retentionClass: RetentionClass, expiresAt: Option<Time>)

  /** The merchant content of a listing row; the URL hash is a function of the URL and is not kept. */
  datatype Content = Content(url: string, title: string, condition: string, international: bool)

  /** The priced offer an observation reports, carried verbatim onto its snapshot. */
  datatype Offer = Offer(currency: string, price: real, shipping: Option<real>, stock: string)

  datatype Record = Record(key: Key, scope: Option<ScopeKey>, content: Content, offer: Offer)

  datatype Snapshot = Snapshot(observedAt: Time, offer: Offer, retention: Retention)

  datatype DelistReason = AbsentFromSweep | AbsentStale

  datatype Listing = Listing(
    scope: Option<ScopeKey>,
    content: Content,
    retention: Retention,
    lastObservedAt: Option<Time>,
    lastSeen: Time,
    delistedAt: Option<Time>,
    delistReason: Option<DelistReason>,
    lastAbsenceAt: Option<Time>,
    history: seq<Snapshot>)
  {
    predicate Active() {
      delistedAt.None?
    }
  }

  /** What is common to every record of one persist transaction. */
  datatype Stamp = Stamp(observedAt: Time, now: Time, retention: Retention)

  function Redacted(content: Content): Content {
    content.(url := "", title := "", condition := "")
  }

  /** Pull a bounded deadline forward to `when`; never extend it. */
  function PulledForward(retention: Retention, when: Time): Retention {
    if retention.retentionClass.Bounded() && retention.expiresAt.Some? && retention.expiresAt.value > when
    then retention.(expiresAt := Some(when))
    else retention
  }

  function PullHistoryForward(history: seq<Snapshot>, when: Time): (r: seq<Snapshot>)
    ensures |r| == |history|
    ensures forall i :: 0 <= i < |r| ==>
              r[i].observedAt == history[i].observedAt && r[i].offer == history[i].offer
  {
    seq(|history|, i requires 0 <= i < |history| =>
      history[i].(retention := PulledForward(history[i].retention, when)))
  }

  /** Mark an active listing terminal at `when`; a listing already terminal is left alone. */
  function MarkDelisted(l: Listing, reason: DelistReason, when: Time): Listing {
    if !l.Active() then l
    else
      l.(delistedAt := Some(when),
         delistReason := Some(reason),
         lastAbsenceAt := Raised(l.lastAbsenceAt, when),
         retention := PulledForward(l.retention, when),
         history := if l.retention.retentionClass.Bounded() then PullHistoryForward(l.history, when) else l.history,
         content := if l.retention.retentionClass.DeleteOnDelist() then Redacted(l.content) else l.content)
  }

  /** The newer of the two absence stamps, ignoring unset ones. */
  function EffectiveAbsence(l: Listing): Option<Time> {
    if l.lastAbsenceAt.None? then l.delistedAt
    else if l.delistedAt.None? then l.lastAbsenceAt
    else Some(Max(l.lastAbsenceAt.value, l.delistedAt.value))
  }

  /** Whether an observation may write current state: three clocks, ties going to presence. */
  predicate CurrentEligible(existing: Option<Listing>, at: Time, sweepBound: Option<Time>) {
    && AtOrAfter(at, sweepBound)
    && (existing.Some? ==>
          && AtOrAfter(at, existing.value.lastObservedAt)
          && AtOrAfter(at, EffectiveAbsence(existing.value)))
  }

  function Created(r: Record, s: Stamp): Listing {
    Listing(r.scope, r.content, s.retention, Some(s.observedAt), s.now, None, None, None, [])
  }

  function Refreshed(l: Listing, r: Record, s: Stamp): Listing {
    l.(scope := if r.scope.Some? then r.scope else l.scope,
       content := r.content,
       retention := s.retention,
       lastObservedAt := Some(s.observedAt),
       lastSeen := s.now,
       delistedAt := None,
       delistReason := None)
  }

  /** The row after the current-state half of one observation. */
  function WriteCurrent(existing: Option<Listing>, r: Record, s: Stamp, sweepBound: Option<Time>): Listing {
    if CurrentEligible(existing, s.observedAt, sweepBound) then
      if existing.None? then Created(r, s) else Refreshed(existing.value, r, s)
    else if existing.None? then
      // A late first sighting is a history anchor, never active.
      MarkDelisted(Created(r, s), AbsentFromSweep, sweepBound.value)
    else existing.value
  }

  /** The absence instant that already retired this observation, if any. */
  function AbsenceAfter(existing: Option<Listing>, at: Time, sweepBound: Option<Time>): Option<Time> {
    if CurrentEligible(existing, at, sweepBound) then None
    else if existing.None? then sweepBound
    else
      var absence := EffectiveAbsence(existing.value);
      if absence.Some? && absence.value > at then absence else None
  }

  predicate Recorded(history: seq<Snapshot>, at: Time) {
    exists i :: 0 <= i < |history| && history[i].observedAt == at
  }

  /** Insert-if-absent on the observation instant; content already past its deadline is never born. */
  function AppendHistory(l: Listing, r: Record, s: Stamp, absenceAfter: Option<Time>): Listing {
    if Recorded(l.history, s.observedAt) then l
    else if s.retention.retentionClass.Bounded() && absenceAfter.Some? && s.retention.expiresAt.Some? then
      var expires := Min(s.retention.expiresAt.value, absenceAfter.value);
      if expires <= s.now then l
      else l.(history := l.history + [Snapshot(s.observedAt, r.offer, s.retention.(expiresAt := Some(expires)))])
    else l.(history := l.history + [Snapshot(s.observedAt, r.offer, s.retention)])
  }

  /** One observation: current state, then history. */
  function Observe(existing: Option<Listing>, r: Record, s: Stamp, sweepBound: Option<Time>): Listing {
    AppendHistory(WriteCurrent(existing, r, s, sweepBound), r, s,
                  AbsenceAfter(existing, s.observedAt, sweepBound))
  }

  function HistoryOf(existing: Option<Listing>): seq<Snapshot> {
    if existing.None? then [] else existing.value.history
  }

  /** At most one snapshot per observation instant. */
  ghost predicate HistoryUnique(history: seq<Snapshot>) {
    forall i, j :: 0 <= i < j < |history| ==> history[i].observedAt != history[j].observedAt
  }

  /**
   * Observing appends at most one snapshot, at the end, never rewrites what was recorded, and
   * keeps the history free of duplicate instants.
   */
  lemma ObserveHistory(existing: Option<Listing>, r: Record, s: Stamp, sweepBound: Option<Time>)
    ensures var h, h' := HistoryOf(existing), Observe(existing, r, s, sweepBound).history;
            && h <= h'
            && |h'| <= |h| + 1
            && (|h'| > |h| ==> h'[|h|].observedAt == s.observedAt && h'[|h|].offer == r.offer)
            && (HistoryUnique(h) ==> HistoryUnique(h'))
            && (!s.retention.retentionClass.Bounded() ==> Recorded(h', s.observedAt))
  {
    var h, h' := HistoryOf(existing), Observe(existing, r, s, sweepBound).history;
    assert WriteCurrent(existing, r, s, sweepBound).history == h;
    if |h'| > |h| {
      assert h'[|h|].observedAt == s.observedAt;
    }
  }
}
