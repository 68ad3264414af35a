/**
 * The append-only resolution ledger of one listing (src/hw_radar/matching/resolver.py:494-543, 1274-1440).
 * The ladder's verdict is an input; so is the live target an accepted verdict materializes.
 */
module Resolution {
  import opened Prelude

  datatype Outcome = Accept | Review | Miss

  /** What an edge or a listing points at; a family, model or variant grain carries just that row. */
  datatype Target = Nothing | Family(id: nat) | Model(id: nat) | Variant(id: nat)

  /** What a verdict or an edge rests on, by the keys the ledger reads. */
  datatype Evidence = Evidence(
    error: Option<string>,
    category: Option<string>,
    reconsidered: bool,
    veto: Option<seq<string>>,
    variantContradicted: Option<map<string, string>>,
    familyNotRatified: Option<Option<string>>,
    otherReasons: map<string, string>,
    mpnHypothesis: Option<string>,
    vendorHint: Option<string>,
    provenance: map<string, string>)

  datatype Verdict = Verdict(outcome: Outcome, rung: Option<nat>, target: Target, confidence: Option<real>, evidence: Evidence) {
    /** A matcher failure is a miss without a category; only an accept has a target. */
    predicate Valid() {
      && (evidence.error.Some? ==> outcome.Miss? && evidence.category.None?)
      && (!outcome.Accept? ==> target.Nothing? && confidence.None?)
    }
  }

  // ── The fingerprint of a non-accept decision ──────────────────────────────

  datatype Reason =
    | Veto(field_: string) | Contradicted(field_: string) | NotRatified(family: Option<string>) | Key(key: string)
    | Mpn(value: string) | Vendor(value: string)

  /** Why it is a review and which product it is about, without counts, ids or matched text. */
  function ReviewReason(e: Evidence): set<Reason> {
    (if e.veto.Some? then set f | f in e.veto.value :: Veto(f) else {})
    + (if e.variantContradicted.Some? then set f | f in e.variantContradicted.value :: Contradicted(f) else {})
    + (if e.familyNotRatified.Some? then {NotRatified(e.familyNotRatified.value)} else {})
    + (set k | k in e.otherReasons :: Key(k))
    + (if e.mpnHypothesis.Some? && e.mpnHypothesis.value != "" then {Mpn(e.mpnHypothesis.value)} else {})
    + (if e.vendorHint.Some? && e.vendorHint.value != "" then {Vendor(e.vendorHint.value)} else {})
  }

  function VetoedFields(e: Evidence): set<string> {
    if e.veto.Some? then set f | f in e.veto.value else {}
  }

  function ContradictedFields(e: Evidence): set<string> {
    if e.variantContradicted.Some? then e.variantContradicted.value.Keys else {}
  }

  predicate SameParts(a: Evidence, b: Evidence) {
    && VetoedFields(a) == VetoedFields(b) && ContradictedFields(a) == ContradictedFields(b)
    && a.familyNotRatified == b.familyNotRatified && a.otherReasons.Keys == b.otherReasons.Keys
    && Named(a.mpnHypothesis) == Named(b.mpnHypothesis) && Named(a.vendorHint) == Named(b.vendorHint)
  }

  /**
   * Two evidences have the same fingerprint exactly when they name the same vetoed fields,
   * contradicted fields, unratified family, reason keys and product, whatever values and provenance
   * those keys carry.
   */
  lemma SameFingerprintExactlyWhen(a: Evidence, b: Evidence)
    ensures ReviewReason(a) == ReviewReason(b) <==> SameParts(a, b)
  {
    if ReviewReason(a) == ReviewReason(b) {
      KeysFromReasons(a, b);
      FieldsFromReasons(a, b);
      OneReasonEach(a, b);
    }
    if SameParts(a, b) { SamePartsSameReasons(a, b); }
  }

  function Named(s: Option<string>): Option<string> {
    if s == Some("") then None else s
  }

  lemma VetoIn(e: Evidence, f: string)
    ensures Veto(f) in ReviewReason(e) <==> f in VetoedFields(e)
  {
  }

  lemma ContradictedIn(e: Evidence, f: string)
    ensures Contradicted(f) in ReviewReason(e) <==> f in ContradictedFields(e)
  {
  }

  lemma KeyIn(e: Evidence, k: string)
    ensures Key(k) in ReviewReason(e) <==> k in e.otherReasons.Keys
  {
  }

  lemma KeysFromReasons(a: Evidence, b: Evidence)
    requires ReviewReason(a) == ReviewReason(b)
    ensures a.otherReasons.Keys == b.otherReasons.Keys
  {
    forall k ensures k in a.otherReasons.Keys <==> k in b.otherReasons.Keys { KeyIn(a, k); KeyIn(b, k); }
  }

  lemma FieldsFromReasons(a: Evidence, b: Evidence)
    requires ReviewReason(a) == ReviewReason(b)
    ensures VetoedFields(a) == VetoedFields(b) && ContradictedFields(a) == ContradictedFields(b)
  {
    forall f ensures f in VetoedFields(a) <==> f in VetoedFields(b) { VetoIn(a, f); VetoIn(b, f); }
    forall f ensures f in ContradictedFields(a) <==> f in ContradictedFields(b) { ContradictedIn(a, f); ContradictedIn(b, f); }
  }

  lemma OneReasonEach(a: Evidence, b: Evidence)
    requires ReviewReason(a) == ReviewReason(b)
    ensures a.familyNotRatified == b.familyNotRatified
    ensures Named(a.mpnHypothesis) == Named(b.mpnHypothesis) && Named(a.vendorHint) == Named(b.vendorHint)
  {
    var ra, rb := ReviewReason(a), ReviewReason(b);
    assert a.familyNotRatified.Some? ==> NotRatified(a.familyNotRatified.value) in ra;
    assert b.familyNotRatified.Some? ==> NotRatified(b.familyNotRatified.value) in rb;
    assert Named(a.mpnHypothesis).Some? ==> Mpn(Named(a.mpnHypothesis).value) in ra;
    assert Named(b.mpnHypothesis).Some? ==> Mpn(Named(b.mpnHypothesis).value) in rb;
    assert Named(a.vendorHint).Some? ==> Vendor(Named(a.vendorHint).value) in ra;
    assert Named(b.vendorHint).Some? ==> Vendor(Named(b.vendorHint).value) in rb;
  }

  lemma SamePartsSameReasons(a: Evidence, b: Evidence)
    requires SameParts(a, b)
    ensures ReviewReason(a) == ReviewReason(b)
  {
    forall r ensures r in ReviewReason(a) <==> r in ReviewReason(b) {
      match r
      case Veto(f) => assert f in VetoedFields(a) <==> f in VetoedFields(b);
      case Contradicted(f) => assert f in ContradictedFields(a) <==> f in ContradictedFields(b);
      case NotRatified(n) =>
      case Key(k) => assert k in a.otherReasons.Keys <==> k in b.otherReasons.Keys;
      case Mpn(s) => assert r in ReviewReason(a) <==> Named(a.mpnHypothesis) == Some(s);
      case Vendor(s) => assert r in ReviewReason(a) <==> Named(a.vendorHint) == Some(s);
    }
  }

  // ── Edges ─────────────────────────────────────────────────────────────────

  datatype Edge = Edge(
    target: Target, outcome: Outcome, confidence: Option<real>, evidence: Evidence,
    isCurrent: bool, supersededBy: Option<nat>, evaluations: nat)
  {
    predicate Clean() {
      evidence.error.None?
    }
  }

  /** A listing's ledger and its denormalized state. */
  datatype State = State(edges: seq<Edge>, target: Target, confidence: Option<real>, title: string)

  const LEGACY_DEFAULT_CATEGORY := "drive"

  /** The current edge: the one still marked so. */
  function CurrentIn(edges: seq<Edge>): (i: Option<nat>)
    ensures i.Some? ==> i.value < |edges| && edges[i.value].isCurrent
  {
    if edges == [] then None
    else if edges[|edges| - 1].isCurrent then Some(|edges| - 1)
    else CurrentIn(edges[..|edges| - 1])
  }

  function CurrentOf(edges: seq<Edge>): Option<Edge> {
    if CurrentIn(edges).None? then None else Some(edges[CurrentIn(edges).value])
  }

  predicate UnchangedAccept(current: Option<Edge>, v: Verdict) {
    v.outcome.Accept? && v.rung == Some(0) && current.Some? && current.value.Clean()
  }

  predicate UnchangedMiss(current: Option<Edge>, v: Verdict) {
    && !v.outcome.Accept? && v.evidence.error.None? && current.Some? && current.value.target.Nothing?
    && current.value.Clean() && current.value.outcome == v.outcome
    && ReviewReason(current.value.evidence) == ReviewReason(v.evidence)
  }

  predicate UnchangedError(current: Option<Edge>, v: Verdict) {
    v.evidence.error.Some? && current.Some? && current.value.evidence.error == v.evidence.error
  }

  predicate CategoryChanged(current: Option<Edge>, v: Verdict) {
    && current.Some? && current.value.Clean() && v.evidence.category.Some?
    && (if current.value.evidence.category.Some? then current.value.evidence.category.value else LEGACY_DEFAULT_CATEGORY)
       != v.evidence.category.value
  }

  predicate Unchanged(current: Option<Edge>, v: Verdict) {
    ((UnchangedAccept(current, v) || UnchangedMiss(current, v)) && !CategoryChanged(current, v)) || UnchangedError(current, v)
  }

  predicate SameAccept(current: Option<Edge>, v: Verdict) {
    && v.outcome.Accept? && current.Some? && current.value.Clean() && !CategoryChanged(current, v)
    && !v.evidence.reconsidered && current.value.target == v.target
  }

  predicate Appends(current: Option<Edge>, v: Verdict) {
    !Unchanged(current, v) && !SameAccept(current, v)
  }

  function NewEdge(v: Verdict): Edge {
    Edge(v.target, v.outcome, v.confidence, v.evidence, true, None, 0)
  }

  function Retitled(title: string, canonical: string): string {
    if canonical != "" then canonical else title
  }

  /** The ledger after one resolution. */
  function Resolve(s: State, v: Verdict, canonical: string): State {
    var current := CurrentIn(s.edges);
    var title := Retitled(s.title, canonical);
    if !Appends(CurrentOf(s.edges), v) then
      State(if current.None? then s.edges
            else s.edges[current.value := s.edges[current.value].(evaluations := s.edges[current.value].evaluations + 1)],
            s.target, s.confidence, title)
    else
      var demoted := if current.None? then s.edges
                     else s.edges[current.value := s.edges[current.value].(isCurrent := false, supersededBy := Some(|s.edges|))];
      var edges := demoted + [NewEdge(v)];
      if v.evidence.error.Some? then State(edges, s.target, s.confidence, title)
      else State(edges, v.target, v.confidence, title)
  }

  ghost predicate AtMostOneCurrent(edges: seq<Edge>) {
    forall i, j :: 0 <= i < j < |edges| ==> !(edges[i].isCurrent && edges[j].isCurrent)
  }

  /** The listing row and its edges, changed in place. */
  class ListingLedger {
    var edges: seq<Edge>
    var target: Target
    var confidence: Option<real>
    var titleNormalized: string

    function Now(): State
      reads this
    {
      State(edges, target, confidence, titleNormalized)
    }

    constructor ()
      ensures Now() == State([], Nothing, None, "")
    {
      edges, target, confidence, titleNormalized := [], Nothing, None, "";
    }

    method FindCurrent() returns (current: Option<nat>)
      ensures current == CurrentIn(edges)
    {
      var i := |edges|;
      assert edges[..i] == edges;
      while i > 0
        invariant 0 <= i <= |edges| && CurrentIn(edges) == CurrentIn(edges[..i])
      {
        assert edges[..i][..i - 1] == edges[..i - 1];
        if edges[i - 1].isCurrent { return Some(i - 1); }
        i := i - 1;
      }
      current := None;
    }

    method Retitle(canonical: string)
      modifies this`titleNormalized
      ensures titleNormalized == Retitled(old(titleNormalized), canonical)
    {
      if canonical != "" && titleNormalized != canonical { titleNormalized := canonical; }
    }

    /**
     * Record one verdict: demote the current edge, insert the new one, link the old one to it. No
     * statement ever leaves two current edges.
     */
    method Append(v: Verdict, current: Option<nat>)
      requires current == CurrentIn(edges) && AtMostOneCurrent(edges)
      modifies this`edges
      ensures edges == (if current.None? then old(edges)
                        else old(edges)[current.value := old(edges)[current.value].(isCurrent := false, supersededBy := Some(|old(edges)|))])
                       + [NewEdge(v)]
      ensures AtMostOneCurrent(edges)
    {
      NoneElseCurrent(edges);
      if current.Some? {
        edges := edges[current.value := edges[current.value].(isCurrent := false)];
        assert AtMostOneCurrent(edges);
      }
      assert forall i :: 0 <= i < |edges| ==> !edges[i].isCurrent;
      edges := edges + [NewEdge(v)];
      assert AtMostOneCurrent(edges);
      if current.Some? {
        edges := edges[current.value := edges[current.value].(supersededBy := Some(|edges| - 1))];
      }
    }

    method Apply(v: Verdict, canonical: string)
      requires v.Valid() && AtMostOneCurrent(edges)
      modifies this
      ensures Now() == Resolve(old(Now()), v, canonical) && AtMostOneCurrent(edges)
    {
      var at := FindCurrent();
      var current := if at.None? then None else Some(edges[at.value]);
      if Unchanged(current, v) || SameAccept(current, v) {
        if at.Some? {
          edges := edges[at.value := edges[at.value].(evaluations := edges[at.value].evaluations + 1)];
        }
        Retitle(canonical);
        return;
      }
      Append(v, at);
      titleNormalized := if canonical != "" then canonical else titleNormalized;
      if v.evidence.error.Some? { return; }
      target, confidence := v.target, v.confidence;
    }
  }

  lemma {:induction false} NoneElseCurrent(edges: seq<Edge>)
    requires AtMostOneCurrent(edges)
    ensures forall i :: 0 <= i < |edges| && CurrentIn(edges) != Some(i) ==> !edges[i].isCurrent
  {
    if edges != [] && !edges[|edges| - 1].isCurrent { NoneElseCurrent(edges[..|edges| - 1]); }
  }

  // ── Every sequence of verdicts ────────────────────────────────────────────

  /** One resolution: the verdict and the canonical title it read. */
  datatype Step = Step(verdict: Verdict, canonical: string)

  function History(steps: seq<Step>): State {
    if steps == [] then State([], Nothing, None, "")
    else
      var last := steps[|steps| - 1];
      Resolve(History(steps[..|steps| - 1]), last.verdict, last.canonical)
  }

  predicate AllValid(steps: seq<Step>) {
    forall i :: 0 <= i < |steps| ==> steps[i].verdict.Valid()
  }

  /** Exactly the newest edge is current, and each edge links to the next: one chain that ends at it. */
  ghost predicate Chained(edges: seq<Edge>) {
    forall i :: 0 <= i < |edges| ==>
      && (edges[i].isCurrent <==> i == |edges| - 1)
      && edges[i].supersededBy == if i < |edges| - 1 then Some(i + 1) else None
  }

  lemma ResolveKeepsChain(s: State, v: Verdict, canonical: string)
    requires Chained(s.edges)
    ensures Chained(Resolve(s, v, canonical).edges)
    ensures s.edges != [] ==> CurrentIn(s.edges) == Some(|s.edges| - 1)
  {
  }

  lemma {:induction false} LedgerIsOneChain(steps: seq<Step>)
    ensures Chained(History(steps).edges)
  {
    if steps == [] {
    } else {
      var last := steps[|steps| - 1];
      LedgerIsOneChain(steps[..|steps| - 1]);
      ResolveKeepsChain(History(steps[..|steps| - 1]), last.verdict, last.canonical);
    }
  }

  /** The newest edge that is not an error. */
  function NewestClean(edges: seq<Edge>): Option<Edge> {
    if edges == [] then None
    else if edges[|edges| - 1].Clean() then Some(edges[|edges| - 1])
    else NewestClean(edges[..|edges| - 1])
  }

  function TargetOf(e: Option<Edge>): Target {
    if e.None? then Nothing else e.value.target
  }

  function ConfidenceOf(e: Option<Edge>): Option<real> {
    if e.None? then None else e.value.confidence
  }

  /** Same content: what an edge decided and why. */
  predicate SameContent(a: seq<Edge>, b: seq<Edge>) {
    |a| == |b| && forall i :: 0 <= i < |a| ==>
      a[i].target == b[i].target && a[i].outcome == b[i].outcome && a[i].confidence == b[i].confidence
      && a[i].evidence == b[i].evidence
  }

  lemma {:induction false} NewestCleanByContent(a: seq<Edge>, b: seq<Edge>)
    requires SameContent(a, b)
    ensures TargetOf(NewestClean(a)) == TargetOf(NewestClean(b)) && ConfidenceOf(NewestClean(a)) == ConfidenceOf(NewestClean(b))
  {
    if a != [] && !a[|a| - 1].Clean() { NewestCleanByContent(a[..|a| - 1], b[..|b| - 1]); }
  }

  /** The ledger is append-only: a resolution never changes what an edge decided, and adds at most one. */
  lemma EdgesKeepTheirContent(s: State, v: Verdict, canonical: string)
    ensures var after := Resolve(s, v, canonical).edges;
            && |s.edges| <= |after| <= |s.edges| + 1 && SameContent(after[..|s.edges|], s.edges)
            && (|after| > |s.edges| <==> Appends(CurrentOf(s.edges), v))
            && (|after| > |s.edges| ==> after[|s.edges|] == NewEdge(v))
  {
  }

  predicate DenormIsNewestClean(s: State) {
    s.target == TargetOf(NewestClean(s.edges)) && s.confidence == ConfidenceOf(NewestClean(s.edges))
  }

  lemma ResolveKeepsDenorm(s: State, v: Verdict, canonical: string)
    requires DenormIsNewestClean(s)
    ensures DenormIsNewestClean(Resolve(s, v, canonical))
  {
    var after := Resolve(s, v, canonical);
    EdgesKeepTheirContent(s, v, canonical);
    NewestCleanByContent(after.edges[..|s.edges|], s.edges);
    if |after.edges| > |s.edges| {
      assert after.edges[..|after.edges| - 1] == after.edges[..|s.edges|];
    } else {
      assert after.edges[..|s.edges|] == after.edges;
    }
  }

  /**
   * After any sequence of verdicts the denormalized target and confidence are those of the newest
   * non-error edge: empty after a review or a miss, and kept through errors.
   */
  lemma {:induction false} DenormIsTheNewestDecision(steps: seq<Step>)
    requires AllValid(steps)
    ensures DenormIsNewestClean(History(steps))
    ensures var newest := NewestClean(History(steps).edges);
            newest.Some? && !newest.value.outcome.Accept? ==> History(steps).target.Nothing?
  {
    if steps == [] {
    } else {
      var front, last := steps[..|steps| - 1], steps[|steps| - 1];
      DenormIsTheNewestDecision(front);
      ResolveKeepsDenorm(History(front), last.verdict, last.canonical);
    }
    MissesHaveNoTarget(steps);
    NewestCleanIsAnEdge(History(steps).edges);
  }

  lemma {:induction false} NewestCleanIsAnEdge(edges: seq<Edge>)
    ensures NewestClean(edges).Some? ==> NewestClean(edges).value in edges && NewestClean(edges).value.Clean()
  {
    if edges != [] && !edges[|edges| - 1].Clean() { NewestCleanIsAnEdge(edges[..|edges| - 1]); }
  }

  lemma {:induction false} MissesHaveNoTarget(steps: seq<Step>)
    requires AllValid(steps)
    ensures forall e :: e in History(steps).edges && !e.outcome.Accept? ==> e.target.Nothing?
  {
    if steps == [] {
    } else {
      var front, last := steps[..|steps| - 1], steps[|steps| - 1];
      MissesHaveNoTarget(front);
      var before, after := History(front), History(steps);
      EdgesKeepTheirContent(before, last.verdict, last.canonical);
      forall e | e in after.edges && !e.outcome.Accept? ensures e.target.Nothing? {
        var i :| 0 <= i < |after.edges| && after.edges[i] == e;
        if i < |before.edges| {
          assert after.edges[..|before.edges|][i] == e && before.edges[i] in before.edges;
        }
      }
    }
  }

  // ── Every verdict takes effect ────────────────────────────────────────────

  /** The category an edge was decided for; edges from before categories were recorded count as drives. */
  function CategoryOf(e: Edge): string {
    if e.evidence.category.Some? then e.evidence.category.value else "drive"
  }

  predicate SameCategory(e: Edge, v: Verdict) {
    v.evidence.category.Some? ==> CategoryOf(e) == v.evidence.category.value
  }

  /** The edge already says what the verdict says, so recording it again would add nothing. */
  predicate AlreadySaid(e: Edge, v: Verdict) {
    if v.evidence.error.Some? then e.evidence.error == v.evidence.error
    else
      && e.evidence.error.None? && SameCategory(e, v)
      && (if v.outcome.Accept? then v.rung == Some(0) || (!v.evidence.reconsidered && e.target == v.target)
          else e.outcome == v.outcome && e.target.Nothing? && SameParts(e.evidence, v.evidence))
  }

  lemma SaidOrAppended(e: Edge, v: Verdict)
    requires v.Valid()
    ensures Appends(Some(e), v) <==> !AlreadySaid(e, v)
  {
    SameFingerprintExactlyWhen(e.evidence, v.evidence);
  }

  /**
   * A verdict adds an edge exactly when the current edge does not already say it; otherwise it counts
   * one more evaluation of that edge. Either way a canonical title, when there is one, is kept.
   */
  lemma AppendsExactlyWhen(steps: seq<Step>, v: Verdict, canonical: string)
    requires v.Valid()
    ensures var s, after := History(steps), Resolve(History(steps), v, canonical);
            var n := |s.edges|;
            && after.title == (if canonical == "" then s.title else canonical)
            && if n > 0 && AlreadySaid(s.edges[n - 1], v) then
                 after.edges == s.edges[n - 1 := s.edges[n - 1].(evaluations := s.edges[n - 1].evaluations + 1)]
               else |after.edges| == n + 1 && after.edges[n] == Edge(v.target, v.outcome, v.confidence, v.evidence, true, None, 0)
  {
    var s := History(steps);
    LedgerIsOneChain(steps);
    ResolveKeepsChain(s, v, canonical);
    EdgesKeepTheirContent(s, v, canonical);
    if s.edges != [] {
      assert CurrentOf(s.edges) == Some(s.edges[|s.edges| - 1]);
      SaidOrAppended(s.edges[|s.edges| - 1], v);
    }
  }

  /**
   * After any history the newest edge agrees with the verdict just applied: the same error; or the
   * same outcome, reasons and product of a review or miss; or an accept's own target. A clean verdict's
   * target is then the listing's; only an accept of rung zero leaves a clean edge's target standing.
   */
  lemma VerdictTakesEffect(steps: seq<Step>, v: Verdict, canonical: string)
    requires AllValid(steps) && v.Valid()
    ensures var before, after := History(steps), Resolve(History(steps), v, canonical);
            && after.edges != []
            && var e := after.edges[|after.edges| - 1];
               if v.evidence.error.Some? then e.evidence.error == v.evidence.error && after.target == before.target
               else
                 && e.evidence.error.None? && SameCategory(e, v)
                 && after.target == e.target && after.confidence == e.confidence
                 && (!v.outcome.Accept? ==> e.outcome == v.outcome && after.target.Nothing? && SameParts(e.evidence, v.evidence))
                 && (v.outcome.Accept? && v.rung != Some(0) ==> after.target == v.target)
                 && (v.outcome.Accept? && v.rung == Some(0) ==>
                       after.target == v.target || (|after.edges| == |before.edges| && after.target == before.target))
  {
    var before, after := History(steps), Resolve(History(steps), v, canonical);
    LedgerIsOneChain(steps);
    ResolveKeepsChain(before, v, canonical);
    DenormIsTheNewestDecision(steps);
    ResolveKeepsDenorm(before, v, canonical);
    AppendsExactlyWhen(steps, v, canonical);
  }

  // ── Repeating a verdict ───────────────────────────────────────────────────

  lemma CurrentAfter(s: State, v: Verdict, canonical: string)
    requires Chained(s.edges) && v.Valid()
    ensures var after := Resolve(s, v, canonical).edges;
            if Appends(CurrentOf(s.edges), v) then CurrentOf(after) == Some(NewEdge(v))
            else if s.edges == [] then CurrentOf(after).None?
            else CurrentOf(after).Some? && CurrentOf(after).value.(evaluations := 0) == CurrentOf(s.edges).value.(evaluations := 0)
  {
    ResolveKeepsChain(s, v, canonical);
  }

  /** What the ledger decides does not depend on how often the current edge was re-examined. */
  lemma AppendsIgnoresEvaluations(a: Edge, b: Edge, v: Verdict)
    requires a.(evaluations := 0) == b.(evaluations := 0)
    ensures Appends(Some(a), v) <==> Appends(Some(b), v)
  {
    assert a.target == b.target && a.outcome == b.outcome && a.evidence == b.evidence;
  }

  /**
   * Repeating a verdict at once appends another edge exactly when it is a reconsidered accept of a
   * rung above zero; in particular an identical review, miss or error never appends again.
   */
  lemma RepeatAppendsExactlyWhen(steps: seq<Step>, v: Verdict, canonical: string, again: string)
    requires AllValid(steps) && v.Valid()
    ensures var once := Resolve(History(steps), v, canonical);
            |Resolve(once, v, again).edges|
            == |once.edges| + if v.outcome.Accept? && v.evidence.reconsidered && v.rung != Some(0) then 1 else 0
  {
    var s := History(steps);
    var once := Resolve(s, v, canonical);
    LedgerIsOneChain(steps);
    ResolveKeepsChain(s, v, canonical);
    CurrentAfter(s, v, canonical);
    EdgesKeepTheirContent(s, v, canonical);
    EdgesKeepTheirContent(once, v, again);
    if Appends(CurrentOf(s.edges), v) {
      assert CurrentOf(once.edges) == Some(NewEdge(v));
    } else {
      NotAppendedHasCurrent(s, v);
      AppendsIgnoresEvaluations(CurrentOf(once.edges).value, CurrentOf(s.edges).value, v);
    }
  }

  lemma NotAppendedHasCurrent(s: State, v: Verdict)
    requires !Appends(CurrentOf(s.edges), v)
    ensures s.edges != [] && CurrentOf(s.edges).Some?
    ensures !(v.outcome.Accept? && v.evidence.reconsidered && v.rung != Some(0)) || v.evidence.error.Some?
  {
  }

  /** A clean accept after an error supersedes it, so the listing's current edge converges back. */
  lemma CleanAcceptSupersedesError(s: State, v: Verdict, canonical: string)
    requires Chained(s.edges) && v.Valid() && v.outcome.Accept?
    requires CurrentOf(s.edges).Some? && !CurrentOf(s.edges).value.Clean()
    ensures var after := Resolve(s, v, canonical);
            |after.edges| == |s.edges| + 1 && CurrentOf(after.edges) == Some(NewEdge(v)) && after.target == v.target
  {
    CurrentAfter(s, v, canonical);
  }
}
