/**
 * Whether a stored evaluation is still current: the per-row form
 * (src/hw_radar/eligibility/evaluate.py:664-802) and the batched form that must equal it
 * (src/hw_radar/eligibility/service.py:90-283). The catalog fingerprint is the catalog inputs themselves.
 */
module Currency {
  import opened Prelude

  type Id = nat
  type Category = string
  type Values = string

  // ── The database ──────────────────────────────────────────────────────────

  /** The collector's category hint: absent, a string, or some other JSON value. */
  datatype Hint = NoHint | Text(hint: string) | NotText

  datatype Snapshot = Snapshot(listing: Id, observedAt: Time, hint: Hint)

  datatype Grain = NoGrain | Family | Model | Variant

  datatype Edge = Edge(pk: Id, listing: Id, isCurrent: bool, grain: Grain, family: Option<Id>, model: Option<Id>, variant: Option<Id>)

  /** One product model and its family, if it has one. */
  datatype ModelRow = ModelRow(pk: Id, family: Option<Id>)

  datatype Database = Database(
    snapshots: seq<Snapshot>,
    edges: seq<Edge>,
    models: seq<ModelRow>,
    variants: map<Id, Id>,                       // variant to its model
    specs: map<Category, map<Id, Values>>)       // one spec satellite per first-class category

  /** One current edge per listing, as the unique constraint demands. */
  ghost predicate OneCurrent(edges: seq<Edge>) {
    forall i, j :: 0 <= i < j < |edges| ==> !(edges[i].isCurrent && edges[j].isCurrent && edges[i].listing == edges[j].listing)
  }

  // ── The simple form ───────────────────────────────────────────────────────

  /** The newest of a listing's snapshots. */
  function LatestSnapshot(snapshots: seq<Snapshot>, listing: Id): Option<Snapshot> {
    if snapshots == [] then None
    else
      var s, before := snapshots[|snapshots| - 1], LatestSnapshot(snapshots[..|snapshots| - 1], listing);
      if s.listing == listing && (before.None? || s.observedAt > before.value.observedAt) then Some(s) else before
  }

  /** The first edge of a listing still marked current. */
  function CurrentEdge(edges: seq<Edge>, listing: Id): Option<Edge> {
    if edges == [] then None
    else if edges[0].isCurrent && edges[0].listing == listing then Some(edges[0])
    else CurrentEdge(edges[1..], listing)
  }

  /** The dispatch category of a hint; None when the hint is malformed. */
  type Dispatch = Option<string> -> Option<Category>

  function CategoryOf(snapshot: Option<Snapshot>, dispatch: Dispatch): Option<Category> {
    if snapshot.None? then dispatch(None)
    else
      match snapshot.value.hint
      case NoHint => dispatch(None)
      case Text(hint) => dispatch(Some(hint))
      case NotText => None
  }

  function FamilyOf(models: seq<ModelRow>, model: Id): Option<Id> {
    if models == [] then None
    else if models[0].pk == model then models[0].family
    else FamilyOf(models[1..], model)
  }

  /** The models of a family, in table order. */
  function MembersOf(models: seq<ModelRow>, family: Id): seq<Id> {
    if models == [] then []
    else
      var last := models[|models| - 1];
      MembersOf(models[..|models| - 1], family) + if last.family == Some(family) then [last.pk] else []
  }

  /** A member's spec: the empty map of a category without a satellite, its row's values, or absent. */
  datatype Spec = Empty | Stated(values: Values) | Absent

  datatype MemberSpec = MemberSpec(model: Id, spec: Spec)

  datatype CatalogInputs = CatalogInputs(
    category: Category, grain: Grain, family: Option<Id>, model: Option<Id>, variant: Option<Id>, members: seq<MemberSpec>)

  function Ascending(): (Id, Id) -> bool {
    (a: Id, b: Id) => a <= b
  }

  function SpecOf(specs: map<Category, map<Id, Values>>, category: Category, model: Id): Spec {
    if category !in specs then Empty
    else if model in specs[category] then Stated(specs[category][model])
    else Absent
  }

  function Members(specs: map<Category, map<Id, Values>>, category: Category, models: seq<Id>): seq<MemberSpec> {
    var sorted := Sort(models, Ascending());
    seq(|sorted|, i requires 0 <= i < |sorted| => MemberSpec(sorted[i], SpecOf(specs, category, sorted[i])))
  }

  /** The model an edge below family grain resolves to. */
  function ResolvedModel(db: Database, edge: Edge): Option<Id> {
    if edge.variant.None? then edge.model else Lookup(db.variants, edge.variant.value)
  }

  /** The catalog inputs of a listing now; None where the evaluator raises. */
  function Gather(db: Database, snapshot: Option<Snapshot>, edge: Option<Edge>, dispatch: Dispatch): Option<CatalogInputs> {
    var category := CategoryOf(snapshot, dispatch);
    if category.None? then None
    else if edge.None? || edge.value.grain.NoGrain? then Some(CatalogInputs(category.value, NoGrain, None, None, None, []))
    else if edge.value.grain.Family? then
      if edge.value.family.None? then None
      else
        Some(CatalogInputs(category.value, Family, edge.value.family, None, None,
                           Members(db.specs, category.value, MembersOf(db.models, edge.value.family.value))))
    else
      var model := ResolvedModel(db, edge.value);
      if model.None? then None
      else
        Some(CatalogInputs(category.value, edge.value.grain, FamilyOf(db.models, model.value), model, edge.value.variant,
                           Members(db.specs, category.value, [model.value])))
  }

  /** The five values a stored row is bound to. */
  datatype Binding = Binding(
    snapshotAt: Option<Time>, resolution: Option<Id>, requirementVersion: nat, evaluatorVersion: string, catalog: CatalogInputs)

  datatype Field = SnapshotAt | ResolutionId | RequirementVersion | EvaluatorVersion | CatalogFingerprint

  const BINDING_FIELDS: seq<Field> := [SnapshotAt, ResolutionId, RequirementVersion, EvaluatorVersion, CatalogFingerprint]

  const EVALUATOR_VERSION := "ms2c.3"

  function ObservedAt(s: Option<Snapshot>): Option<Time> {
    if s.None? then None else Some(s.value.observedAt)
  }

  function PkOf(e: Option<Edge>): Option<Id> {
    if e.None? then None else Some(e.value.pk)
  }

  /** A stored evaluation: its listing, the watch's live requirement version, and the binding it was computed under. */
  datatype Evaluation = Evaluation(listing: Id, watchVersion: nat, stored: Binding)

  /** The binding a row evaluated now would carry; None where computing it raises. */
  function LiveBinding(db: Database, listing: Id, watchVersion: nat, dispatch: Dispatch): Option<Binding> {
    var snapshot, edge := LatestSnapshot(db.snapshots, listing), CurrentEdge(db.edges, listing);
    var catalog := Gather(db, snapshot, edge, dispatch);
    if catalog.None? then None
    else Some(Binding(ObservedAt(snapshot), PkOf(edge), watchVersion, EVALUATOR_VERSION, catalog.value))
  }

  /** Whether one row is current; None where the simple form raises. */
  function IsCurrent(db: Database, e: Evaluation, dispatch: Dispatch): Option<bool> {
    var live := LiveBinding(db, e.listing, e.watchVersion, dispatch);
    if live.None? then None else Some(e.stored == live.value)
  }

  // ── What the simple form reads ────────────────────────────────────────────

  /** The newest snapshot is one of the listing's own that none of its others is later than. */
  lemma {:induction false} LatestIsNewest(snapshots: seq<Snapshot>, listing: Id)
    ensures var latest := LatestSnapshot(snapshots, listing);
            && (latest.None? <==> forall s :: s in snapshots ==> s.listing != listing)
            && (latest.Some? ==>
                  && latest.value in snapshots && latest.value.listing == listing
                  && forall s :: s in snapshots && s.listing == listing ==> s.observedAt <= latest.value.observedAt)
  {
    if snapshots != [] {
      var front, last := snapshots[..|snapshots| - 1], snapshots[|snapshots| - 1];
      LatestIsNewest(front, listing);
      assert snapshots == front + [last];
    }
  }

  /** The current edge is the listing's own edge still marked current. */
  lemma {:induction false} CurrentEdgeIs(edges: seq<Edge>, listing: Id)
    ensures var current := CurrentEdge(edges, listing);
            && (current.None? <==> forall e :: e in edges ==> !(e.isCurrent && e.listing == listing))
            && (current.Some? ==> current.value in edges && current.value.isCurrent && current.value.listing == listing)
  {
    if edges != [] {
      CurrentEdgeIs(edges[1..], listing);
      assert edges == [edges[0]] + edges[1..];
    }
  }

  lemma {:induction false} MembersAre(models: seq<ModelRow>, family: Id)
    ensures forall m :: m in MembersOf(models, family) <==> exists r :: r in models && r.pk == m && r.family == Some(family)
  {
    if models != [] {
      var front, last := models[..|models| - 1], models[|models| - 1];
      MembersAre(front, family);
      assert models == front + [last];
      forall m ensures m in MembersOf(models, family) <==> exists r :: r in models && r.pk == m && r.family == Some(family) {
        if last.family == Some(family) && last.pk == m { assert last in models; }
      }
    }
  }

  /** A model's family is its own row's, and absent when it has no row. */
  lemma {:induction false} FamilyIs(models: seq<ModelRow>, model: Id)
    ensures (forall r :: r in models ==> r.pk != model) ==> FamilyOf(models, model).None?
    ensures forall r :: r in models && r.pk == model && (forall q :: q in models && q.pk == model ==> q == r) ==>
              FamilyOf(models, model) == r.family
  {
    if models != [] {
      FamilyIs(models[1..], model);
      assert models == [models[0]] + models[1..];
    }
  }

  /** The members are the given models in ascending order, each with what its category's satellite states of it. */
  lemma MembersAreSpecified(specs: map<Category, map<Id, Values>>, category: Category, models: seq<Id>)
    ensures var members := Members(specs, category, models);
            && |members| == |models|
            && (forall i, j :: 0 <= i < j < |members| ==> members[i].model <= members[j].model)
            && (forall m :: m in models <==> exists i :: 0 <= i < |members| && members[i].model == m)
            && forall i :: 0 <= i < |members| ==>
                 members[i].spec
                 == if category !in specs then Empty
                    else if members[i].model in specs[category] then Stated(specs[category][members[i].model]) else Absent
  {
    var sorted, members := Sort(models, Ascending()), Members(specs, category, models);
    SortSorts(models);
    SameMultisetSameElements(sorted, models);
    forall m ensures m in models <==> exists i :: 0 <= i < |members| && members[i].model == m {
      if m in models {
        var i :| 0 <= i < |sorted| && sorted[i] == m;
        assert members[i].model == m;
      }
      if i :| 0 <= i < |members| && members[i].model == m { assert sorted[i] in sorted; }
    }
  }

  /**
   * A row is current exactly when all five of its values are the live ones: the newest snapshot's
   * instant, the current edge, the watch's version, the evaluator's, and the catalog inputs.
   */
  lemma CurrentExactlyWhen(db: Database, e: Evaluation, dispatch: Dispatch)
    ensures var snapshot, edge := LatestSnapshot(db.snapshots, e.listing), CurrentEdge(db.edges, e.listing);
            var catalog := Gather(db, snapshot, edge, dispatch);
            && (IsCurrent(db, e, dispatch).None? <==> catalog.None?)
            && (IsCurrent(db, e, dispatch) == Some(true) <==>
                  && catalog.Some? && e.stored.catalog == catalog.value
                  && e.stored.snapshotAt == (if snapshot.None? then None else Some(snapshot.value.observedAt))
                  && e.stored.resolution == (if edge.None? then None else Some(edge.value.pk))
                  && e.stored.requirementVersion == e.watchVersion && e.stored.evaluatorVersion == "ms2c.3")
  {
  }

  /** The category a hint dispatches to; none where the hint is not text or names no category. */
  predicate Dispatches(snapshot: Option<Snapshot>, dispatch: Dispatch, category: Category) {
    if snapshot.None? || snapshot.value.hint.NoHint? then dispatch(None) == Some(category)
    else snapshot.value.hint.Text? && dispatch(Some(snapshot.value.hint.hint)) == Some(category)
  }

  /**
   * The catalog inputs by grain: nothing below an unresolved listing; a family's models under family
   * grain; the one resolved model, a variant's own, otherwise. They are refused where the hint dispatches
   * nowhere or the edge does not name what its grain needs.
   */
  lemma GatherReads(db: Database, snapshot: Option<Snapshot>, edge: Option<Edge>, dispatch: Dispatch)
    ensures var inputs := Gather(db, snapshot, edge, dispatch);
            var grain := if edge.None? then NoGrain else edge.value.grain;
            var model := if edge.None? then None
                         else if edge.value.variant.None? then edge.value.model
                         else if edge.value.variant.value in db.variants then Some(db.variants[edge.value.variant.value]) else None;
            && (inputs.Some? <==>
                  && (exists c :: Dispatches(snapshot, dispatch, c))
                  && (grain.Family? ==> edge.value.family.Some?) && (grain.Model? || grain.Variant? ==> model.Some?))
            && (inputs.Some? ==>
                  && var i := inputs.value;
                  && Dispatches(snapshot, dispatch, i.category) && i.grain == grain
                  && (grain.NoGrain? ==> i.family.None? && i.model.None? && i.variant.None? && i.members == [])
                  && (grain.Family? ==> i.family == edge.value.family && i.model.None? && i.variant.None?
                                        && i.members == Members(db.specs, i.category, MembersOf(db.models, i.family.value)))
                  && (grain.Model? || grain.Variant? ==>
                        && i.model == model && i.variant == edge.value.variant && i.family == FamilyOf(db.models, model.value)
                        && i.members == Members(db.specs, i.category, [model.value])))
  {
    var category := CategoryOf(snapshot, dispatch);
    if category.Some? { assert Dispatches(snapshot, dispatch, category.value); }
  }

  // ── The batched form ──────────────────────────────────────────────────────

  datatype Live = Live(snapshot: Option<Snapshot>, edge: Option<Edge>, catalog: Option<CatalogInputs>)

  function LiveOf(db: Database, listing: Id, dispatch: Dispatch): Live {
    var snapshot, edge := LatestSnapshot(db.snapshots, listing), CurrentEdge(db.edges, listing);
    Live(snapshot, edge, Gather(db, snapshot, edge, dispatch))
  }

  /** The newest snapshot of every listing asked for, in one pass. */
  method LatestSnapshots(snapshots: seq<Snapshot>, ids: set<Id>) returns (latest: map<Id, Snapshot>)
    ensures forall l :: Lookup(latest, l) == if l in ids then LatestSnapshot(snapshots, l) else None
  {
    latest := map[];
    for i := 0 to |snapshots|
      invariant forall l :: Lookup(latest, l) == if l in ids then LatestSnapshot(snapshots[..i], l) else None
    {
      var s := snapshots[i];
      assert snapshots[..i + 1][..i] == snapshots[..i];
      ghost var before := latest;
      if s.listing in ids && (s.listing !in latest || s.observedAt > latest[s.listing].observedAt) {
        latest := latest[s.listing := s];
      }
      forall l ensures Lookup(latest, l) == if l in ids then LatestSnapshot(snapshots[..i + 1], l) else None {
        assert Lookup(before, l) == if l in ids then LatestSnapshot(snapshots[..i], l) else None;
      }
    }
    assert snapshots[..|snapshots|] == snapshots;
  }

  lemma {:induction false} CurrentEdgeSnoc(edges: seq<Edge>, e: Edge, listing: Id)
    ensures CurrentEdge(edges + [e], listing)
            == if CurrentEdge(edges, listing).Some? then CurrentEdge(edges, listing)
               else if e.isCurrent && e.listing == listing then Some(e) else None
  {
    if edges == [] {
      assert (edges + [e])[1..] == [];
    } else {
      assert (edges + [e])[1..] == edges[1..] + [e];
      CurrentEdgeSnoc(edges[1..], e, listing);
    }
  }

  lemma {:induction false} CurrentEdgeIsThere(edges: seq<Edge>, listing: Id)
    ensures CurrentEdge(edges, listing).Some? ==>
              exists i :: 0 <= i < |edges| && edges[i].isCurrent && edges[i].listing == listing
  {
    if edges != [] && !(edges[0].isCurrent && edges[0].listing == listing) {
      CurrentEdgeIsThere(edges[1..], listing);
      if CurrentEdge(edges[1..], listing).Some? {
        var i :| 0 <= i < |edges[1..]| && edges[1..][i].isCurrent && edges[1..][i].listing == listing;
        assert edges[i + 1].isCurrent;
      }
    }
  }

  /** The current edge of every listing asked for; a later row would overwrite an earlier, but there is only one. */
  method CurrentEdges(edges: seq<Edge>, ids: set<Id>) returns (current: map<Id, Edge>)
    requires OneCurrent(edges)
    ensures forall l :: Lookup(current, l) == if l in ids then CurrentEdge(edges, l) else None
  {
    current := map[];
    for i := 0 to |edges|
      invariant forall l :: Lookup(current, l) == if l in ids then CurrentEdge(edges[..i], l) else None
    {
      var e := edges[i];
      ghost var before := current;
      if e.isCurrent && e.listing in ids { current := current[e.listing := e]; }
      forall l ensures Lookup(current, l) == if l in ids then CurrentEdge(edges[..i + 1], l) else None {
        assert edges[..i + 1] == edges[..i] + [e];
        CurrentEdgeSnoc(edges[..i], e, l);
        CurrentEdgeIsThere(edges[..i], l);
        assert Lookup(before, l) == if l in ids then CurrentEdge(edges[..i], l) else None;
      }
    }
    assert edges[..|edges|] == edges;
  }

  // ── Plans ─────────────────────────────────────────────────────────────────

  /** The shape of a listing's catalog inputs before the batched reads. */
  datatype Plan = Plan(category: Category, grain: Grain, family: Option<Id>, model: Option<Id>, variant: Option<Id>, memberIds: seq<Id>)

  function PlanOf(db: Database, snapshot: Option<Snapshot>, edge: Option<Edge>, dispatch: Dispatch): Option<Plan> {
    var category := CategoryOf(snapshot, dispatch);
    if category.None? then None
    else if edge.None? || edge.value.grain.NoGrain? then Some(Plan(category.value, NoGrain, None, None, None, []))
    else if edge.value.grain.Family? then
      if edge.value.family.None? then None
      else Some(Plan(category.value, Family, edge.value.family, None, None, []))
    else
      var model := ResolvedModel(db, edge.value);
      if model.None? then None
      else Some(Plan(category.value, edge.value.grain, FamilyOf(db.models, model.value), model, edge.value.variant, [model.value]))
  }

  function InputsOf(p: Plan, specs: map<Category, map<Id, Values>>): CatalogInputs {
    CatalogInputs(p.category, p.grain, p.family, p.model, p.variant, Members(specs, p.category, p.memberIds))
  }

  /** A plan with a family's members filled in, in whatever order the batched read returned them. */
  function Filled(p: Plan, models: seq<ModelRow>): Plan {
    if p.grain.Family? && p.family.Some? then p.(memberIds := MembersOf(models, p.family.value)) else p
  }

  // ── The order of the rows read does not matter ────────────────────────────

  ghost predicate Sorted(s: seq<Id>) {
    forall i, j :: 0 <= i < j < |s| ==> s[i] <= s[j]
  }

  lemma Prepended(x: Id, r: seq<Id>)
    requires Sorted(r) && forall y :: y in r ==> x <= y
    ensures Sorted([x] + r)
  {
    var all := [x] + r;
    forall i, j | 0 <= i < j < |all| ensures all[i] <= all[j] {
      assert all[j] == r[j - 1] && r[j - 1] in r;
      if i > 0 { assert all[i] == r[i - 1]; }
    }
  }

  lemma {:induction false} InsertKeepsSorted(x: Id, s: seq<Id>)
    requires Sorted(s)
    ensures Sorted(Insert(x, s, Ascending()))
  {
    if s == [] || x <= s[0] {
    } else {
      InsertKeepsSorted(x, s[1..]);
      var r := Insert(x, s[1..], Ascending());
      forall y | y in r ensures s[0] <= y {
        assert y in multiset(r) && multiset(r) == multiset(s[1..]) + multiset{x};
        if y != x { assert y in s[1..]; }
      }
      Prepended(s[0], r);
    }
  }

  lemma {:induction false} SortSorts(s: seq<Id>)
    ensures Sorted(Sort(s, Ascending()))
  {
    if s != [] {
      SortSorts(s[1..]);
      InsertKeepsSorted(s[0], Sort(s[1..], Ascending()));
    }
  }

  lemma SmallestFirst(a: seq<Id>, x: Id)
    requires Sorted(a) && x in a
    ensures a[0] <= x
  {
  }

  lemma SameHead(a: seq<Id>, b: seq<Id>)
    requires Sorted(a) && Sorted(b) && a != [] && b != [] && multiset(a) == multiset(b)
    ensures a[0] == b[0]
  {
    assert a[0] in multiset(a) && b[0] in multiset(b);
    SmallestFirst(a, b[0]);
    SmallestFirst(b, a[0]);
  }

  lemma {:induction false} SortedIsUnique(a: seq<Id>, b: seq<Id>)
    requires Sorted(a) && Sorted(b) && multiset(a) == multiset(b)
    ensures a == b
  {
    assert |a| == |multiset(a)| == |multiset(b)| == |b|;
    if a != [] {
      SameHead(a, b);
      assert a == [a[0]] + a[1..] && b == [b[0]] + b[1..];
      assert multiset(a[1..]) == multiset(a) - multiset{a[0]};
      assert multiset(b[1..]) == multiset(b) - multiset{b[0]};
      SortedIsUnique(a[1..], b[1..]);
    }
  }

  lemma {:induction false} MembersConcat(a: seq<ModelRow>, b: seq<ModelRow>, family: Id)
    ensures MembersOf(a + b, family) == MembersOf(a, family) + MembersOf(b, family)
  {
    if b == [] {
      assert a + b == a;
    } else {
      assert (a + b)[..|a + b| - 1] == a + b[..|b| - 1];
      MembersConcat(a, b[..|b| - 1], family);
    }
  }

  function OneMember(row: ModelRow, family: Id): seq<Id> {
    if row.family == Some(family) then [row.pk] else []
  }

  lemma TakeOut(rows: seq<ModelRow>, i: nat, family: Id)
    requires i < |rows|
    ensures multiset(MembersOf(rows, family))
            == multiset(MembersOf(rows[..i] + rows[i + 1..], family)) + multiset(OneMember(rows[i], family))
  {
    assert rows == rows[..i + 1] + rows[i + 1..];
    MembersConcat(rows[..i + 1], rows[i + 1..], family);
    MembersConcat(rows[..i], rows[i + 1..], family);
    assert rows[..i + 1][..i] == rows[..i];
    assert MembersOf(rows[..i + 1], family) == MembersOf(rows[..i], family) + OneMember(rows[i], family);
  }

  lemma RestMatches(a: seq<ModelRow>, b: seq<ModelRow>) returns (i: nat)
    requires a != [] && multiset(a) == multiset(b)
    ensures i < |b| && b[i] == a[|a| - 1] && multiset(b[..i] + b[i + 1..]) == multiset(a[..|a| - 1])
  {
    var k := |a| - 1;
    assert a == a[..k] + [a[k]];
    assert a[k] in multiset(a);
    assert a[k] in b;
    i :| 0 <= i < |b| && b[i] == a[k];
    assert b == b[..i] + [b[i]] + b[i + 1..];
    assert multiset(a[..k]) == multiset(a) - multiset{a[k]};
    assert multiset(b[..i] + b[i + 1..]) == multiset(b) - multiset{b[i]};
  }

  /** Reading the same rows in another order gives a family the same members. */
  lemma {:induction false} MembersIgnoreOrder(a: seq<ModelRow>, b: seq<ModelRow>, family: Id)
    requires multiset(a) == multiset(b)
    ensures multiset(MembersOf(a, family)) == multiset(MembersOf(b, family))
  {
    assert |a| == |multiset(a)| == |multiset(b)| == |b|;
    if a != [] {
      var i := RestMatches(a, b);
      MembersIgnoreOrder(a[..|a| - 1], b[..i] + b[i + 1..], family);
      TakeOut(b, i, family);
      assert MembersOf(a, family) == MembersOf(a[..|a| - 1], family) + OneMember(a[|a| - 1], family);
    }
  }

  lemma MembersSpecIgnoresOrder(specs: map<Category, map<Id, Values>>, category: Category, a: seq<Id>, b: seq<Id>)
    requires multiset(a) == multiset(b)
    ensures Members(specs, category, a) == Members(specs, category, b)
  {
    SortSorts(a);
    SortSorts(b);
    SortedIsUnique(Sort(a, Ascending()), Sort(b, Ascending()));
  }

  // ── The batched read ──────────────────────────────────────────────────────

  /** The plan of every listing, from the batched snapshots and edges. */
  method MakePlans(db: Database, ids: seq<Id>, snapshots: map<Id, Snapshot>, edges: map<Id, Edge>, dispatch: Dispatch)
    returns (plans: map<Id, Option<Plan>>)
    ensures plans.Keys == set l | l in ids
    ensures forall l :: l in ids ==> plans[l] == PlanOf(db, Lookup(snapshots, l), Lookup(edges, l), dispatch)
  {
    plans := map[];
    for i := 0 to |ids|
      invariant plans.Keys == set l | l in ids[..i]
      invariant forall l :: l in ids[..i] ==> plans[l] == PlanOf(db, Lookup(snapshots, l), Lookup(edges, l), dispatch)
    {
      assert ids[..i + 1] == ids[..i] + [ids[i]];
      plans := plans[ids[i] := PlanOf(db, Lookup(snapshots, ids[i]), Lookup(edges, ids[i]), dispatch)];
    }
    assert ids[..|ids|] == ids;
  }

  /** What a grouping holds for a family; nothing reads as no members. */
  function Grouped(membersOf: map<Id, seq<Id>>, family: Id): seq<Id> {
    if family in membersOf then membersOf[family] else []
  }

  /** Group the models of the wanted families. */
  method GroupMembers(rows: seq<ModelRow>, families: set<Id>) returns (membersOf: map<Id, seq<Id>>)
    ensures forall f :: f in families ==> Grouped(membersOf, f) == MembersOf(rows, f)
  {
    membersOf := map[];
    for i := 0 to |rows|
      invariant forall f :: f in families ==> Grouped(membersOf, f) == MembersOf(rows[..i], f)
    {
      ghost var before := membersOf;
      var row := rows[i];
      if row.family.Some? && row.family.value in families {
        membersOf := membersOf[row.family.value := Grouped(membersOf, row.family.value) + [row.pk]];
      }
      forall f | f in families ensures Grouped(membersOf, f) == MembersOf(rows[..i + 1], f) {
        assert rows[..i + 1][..i] == rows[..i];
        assert Grouped(before, f) == MembersOf(rows[..i], f);
        assert Grouped(membersOf, f) == if row.family == Some(f) then Grouped(before, f) + [row.pk] else Grouped(before, f);
      }
    }
    assert rows[..|rows|] == rows;
  }

  /** Fill in the members of every family plan. */
  method FillPlans(plans: map<Id, Option<Plan>>, ids: seq<Id>, rows: seq<ModelRow>) returns (filled: map<Id, Option<Plan>>)
    requires plans.Keys == set l | l in ids
    ensures filled.Keys == plans.Keys
    ensures forall l :: l in ids ==> filled[l] == if plans[l].None? then None else Some(Filled(plans[l].value, rows))
  {
    var families := set l | l in ids && plans[l].Some? && plans[l].value.grain.Family? && plans[l].value.family.Some?
      :: plans[l].value.family.value;
    var membersOf := GroupMembers(rows, families);
    filled := plans;
    for i := 0 to |ids|
      invariant filled.Keys == plans.Keys
      invariant forall l :: l in plans ==>
        filled[l] == if l in ids[..i] && plans[l].Some? then Some(Filled(plans[l].value, rows)) else plans[l]
    {
      var l := ids[i];
      assert ids[..i + 1] == ids[..i] + [l];
      var p := plans[l];
      if p.Some? && p.value.grain.Family? && p.value.family.Some? {
        var f := p.value.family.value;
        assert f in families;
        filled := filled[l := Some(p.value.(memberIds := Grouped(membersOf, f)))];
      }
    }
    assert ids[..|ids|] == ids;
  }

  /** Which models each category's spec read must cover. */
  method Wanted(plans: map<Id, Option<Plan>>, ids: seq<Id>) returns (wanted: map<Category, set<Id>>)
    requires plans.Keys == set l | l in ids
    ensures forall l :: l in ids && plans[l].Some? ==>
              plans[l].value.category in wanted && forall m :: m in plans[l].value.memberIds ==> m in wanted[plans[l].value.category]
  {
    wanted := map[];
    for i := 0 to |ids|
      invariant forall l :: l in ids[..i] && plans[l].Some? ==>
        plans[l].value.category in wanted && forall m :: m in plans[l].value.memberIds ==> m in wanted[plans[l].value.category]
    {
      assert ids[..i + 1] == ids[..i] + [ids[i]];
      var p := plans[ids[i]];
      if p.Some? {
        var c := p.value.category;
        var members := set m | m in p.value.memberIds;
        wanted := wanted[c := (if c in wanted then wanted[c] else {}) + members];
      }
    }
    assert ids[..|ids|] == ids;
  }

  /** One spec read per category, of the wanted models only. */
  method ReadSpecs(specs: map<Category, map<Id, Values>>, wanted: map<Category, set<Id>>)
    returns (read: map<Category, map<Id, Values>>)
    ensures forall c :: c in read ==> c in specs && c in wanted
    ensures forall c, m :: c in specs && c in wanted && m in wanted[c] ==>
              c in read && (m in read[c] <==> m in specs[c]) && (m in specs[c] ==> read[c][m] == specs[c][m])
  {
    read := map[];
    var todo := wanted.Keys;
    while todo != {}
      invariant todo <= wanted.Keys
      invariant forall c :: c in read ==> c in specs && c in wanted
      invariant forall c, m :: c in specs && c in wanted && c !in todo && m in wanted[c] ==>
        c in read && (m in read[c] <==> m in specs[c]) && (m in specs[c] ==> read[c][m] == specs[c][m])
      decreases |todo|
    {
      var c :| c in todo;
      if c in specs && wanted[c] != {} {
        read := read[c := map m | m in specs[c] && m in wanted[c] :: specs[c][m]];
      }
      todo := todo - {c};
    }
  }

  /** The member specs of the batched form: sorted ids, each looked up in what was read for its category. */
  function BatchedMembers(specs: map<Category, map<Id, Values>>, read: map<Category, map<Id, Values>>, category: Category, models: seq<Id>): seq<MemberSpec> {
    var sorted := Sort(models, Ascending());
    var rows := if category in read then read[category] else map[];
    seq(|sorted|, i requires 0 <= i < |sorted| =>
      MemberSpec(sorted[i], if category !in specs then Empty else if sorted[i] in rows then Stated(rows[sorted[i]]) else Absent))
  }

  lemma BatchedMembersAreMembers(specs: map<Category, map<Id, Values>>, read: map<Category, map<Id, Values>>, category: Category, models: seq<Id>)
    requires category in specs ==> forall m :: m in models ==>
               category in read && (m in read[category] <==> m in specs[category])
               && (m in specs[category] ==> read[category][m] == specs[category][m])
    ensures BatchedMembers(specs, read, category, models) == Members(specs, category, models)
  {
    var sorted := Sort(models, Ascending());
    SameMultisetSameElements(sorted, models);
    forall i | 0 <= i < |sorted|
      ensures BatchedMembers(specs, read, category, models)[i] == Members(specs, category, models)[i]
    {
      assert sorted[i] in models;
    }
  }

  function InputsFrom(p: Plan, specs: map<Category, map<Id, Values>>, read: map<Category, map<Id, Values>>): CatalogInputs {
    CatalogInputs(p.category, p.grain, p.family, p.model, p.variant, BatchedMembers(specs, read, p.category, p.memberIds))
  }

  /** A filled plan's inputs, from rows read in any order, are what the simple form gathers. */
  lemma PlanGathers(db: Database, rows: seq<ModelRow>, snapshot: Option<Snapshot>, edge: Option<Edge>, dispatch: Dispatch)
    requires multiset(rows) == multiset(db.models)
    ensures var p := PlanOf(db, snapshot, edge, dispatch);
            Gather(db, snapshot, edge, dispatch) == if p.None? then None else Some(InputsOf(Filled(p.value, rows), db.specs))
  {
    var p := PlanOf(db, snapshot, edge, dispatch);
    if p.Some? {
      NoMembers(db.specs, p.value.category);
      if p.value.grain.Family? && p.value.family.Some? {
        MembersIgnoreOrder(rows, db.models, p.value.family.value);
        MembersSpecIgnoresOrder(db.specs, p.value.category, MembersOf(rows, p.value.family.value), MembersOf(db.models, p.value.family.value));
      }
    }
  }

  lemma NoMembers(specs: map<Category, map<Id, Values>>, category: Category)
    ensures Members(specs, category, []) == []
  {
    assert Sort<Id>([], Ascending()) == [];
  }

  /**
   * Read the live inputs of many listings in a fixed number of queries. `rows` is the model table in
   * whatever order the batched family query returned it. Listing by listing the result is what the
   * simple form reads, with no inputs exactly where the simple form raises.
   */
  method LiveInputs(db: Database, ids: seq<Id>, rows: seq<ModelRow>, dispatch: Dispatch) returns (lives: map<Id, Live>)
    requires OneCurrent(db.edges) && multiset(rows) == multiset(db.models)
    ensures lives.Keys == set l | l in ids
    ensures forall l :: l in ids ==> lives[l] == LiveOf(db, l, dispatch)
  {
    var wantedIds := set l | l in ids;
    var snapshots := LatestSnapshots(db.snapshots, wantedIds);
    var edges := CurrentEdges(db.edges, wantedIds);
    var plans := MakePlans(db, ids, snapshots, edges, dispatch);
    var filled := FillPlans(plans, ids, rows);
    var wanted := Wanted(filled, ids);
    var read := ReadSpecs(db.specs, wanted);
    lives := map[];
    for i := 0 to |ids|
      invariant lives.Keys == set l | l in ids[..i]
      invariant forall l :: l in ids[..i] ==> lives[l] == LiveOf(db, l, dispatch)
    {
      var l := ids[i];
      assert ids[..i + 1] == ids[..i] + [l];
      var snapshot, edge, p := Lookup(snapshots, l), Lookup(edges, l), filled[l];
      PlanGathers(db, rows, LatestSnapshot(db.snapshots, l), CurrentEdge(db.edges, l), dispatch);
      if p.None? {
        lives := lives[l := Live(snapshot, edge, None)];
      } else {
        BatchedMembersAreMembers(db.specs, read, p.value.category, p.value.memberIds);
        lives := lives[l := Live(snapshot, edge, Some(InputsFrom(p.value, db.specs, read)))];
      }
    }
    assert ids[..|ids|] == ids;
  }

  /** The binding a row evaluated now would carry, from the batched inputs. */
  function BindingFor(watchVersion: nat, live: Live): Option<Binding> {
    if live.catalog.None? then None
    else Some(Binding(ObservedAt(live.snapshot), PkOf(live.edge), watchVersion, EVALUATOR_VERSION, live.catalog.value))
  }

  predicate Differs(f: Field, a: Binding, b: Binding) {
    match f
    case SnapshotAt => a.snapshotAt != b.snapshotAt
    case ResolutionId => a.resolution != b.resolution
    case RequirementVersion => a.requirementVersion != b.requirementVersion
    case EvaluatorVersion => a.evaluatorVersion != b.evaluatorVersion
    case CatalogFingerprint => a.catalog != b.catalog
  }

  /** The stale fields of a row: those that differ, in declaration order; all of them when nothing can be computed. */
  function StaleFields(e: Evaluation, want: Option<Binding>, fields: seq<Field>): seq<Field> {
    if want.None? then fields
    else if fields == [] then []
    else (if Differs(fields[0], e.stored, want.value) then [fields[0]] else []) + StaleFields(e, want, fields[1..])
  }

  datatype RowCurrency = RowCurrency(evaluation: Evaluation, live: Live, current: bool, stale: seq<Field>)

  lemma {:induction false} NoneStaleExactlyWhen(e: Evaluation, want: Binding, fields: seq<Field>)
    ensures StaleFields(e, Some(want), fields) == [] <==> forall f :: f in fields ==> !Differs(f, e.stored, want)
    ensures forall f :: f in StaleFields(e, Some(want), fields) <==> f in fields && Differs(f, e.stored, want)
  {
    if fields != [] {
      NoneStaleExactlyWhen(e, want, fields[1..]);
      assert fields == [fields[0]] + fields[1..];
    }
  }

  lemma EqualWhenNothingDiffers(a: Binding, b: Binding)
    ensures a == b <==> forall f :: f in BINDING_FIELDS ==> !Differs(f, a, b)
  {
    var all := BINDING_FIELDS;
    assert all[0] in all && all[1] in all && all[2] in all && all[3] in all && all[4] in all;
  }

  /** The batched decision of one row is the simple decision, a raised error reading as not current. */
  lemma BatchedDecisionIsSimple(db: Database, e: Evaluation, dispatch: Dispatch)
    ensures var want := BindingFor(e.watchVersion, LiveOf(db, e.listing, dispatch));
            var stale := StaleFields(e, want, BINDING_FIELDS);
            && (stale == [] <==> IsCurrent(db, e, dispatch) == Some(true))
            && (IsCurrent(db, e, dispatch).None? <==> want.None?)
            && (want.None? ==> stale == BINDING_FIELDS)
            && (want.Some? ==> forall f :: f in stale <==> Differs(f, e.stored, want.value))
  {
    var want := BindingFor(e.watchVersion, LiveOf(db, e.listing, dispatch));
    assert want == LiveBinding(db, e.listing, e.watchVersion, dispatch);
    if want.Some? {
      NoneStaleExactlyWhen(e, want.value, BINDING_FIELDS);
      EqualWhenNothingDiffers(e.stored, want.value);
      EveryFieldIsListed();
    }
  }

  lemma EveryFieldIsListed()
    ensures forall f: Field :: f in BINDING_FIELDS
  {
    var all := BINDING_FIELDS;
    forall f: Field ensures f in all {
      assert f == all[0] || f == all[1] || f == all[2] || f == all[3] || f == all[4];
    }
  }

  /** The fields are exactly those whose stored value is not the one the simple form would bind now. */
  ghost predicate MovedExactly(db: Database, e: Evaluation, dispatch: Dispatch, stale: seq<Field>) {
    var want := LiveBinding(db, e.listing, e.watchVersion, dispatch);
    want.Some? && forall f :: f in stale <==> Differs(f, e.stored, want.value)
  }

  /**
   * Decide currency for many rows with one batched read. For every database state and every set of
   * rows each answer is the simple form's, and the stale fields are exactly the bound values that
   * moved, or all five where the simple form raises.
   */
  method DecideCurrency(db: Database, evaluations: seq<Evaluation>, rows: seq<ModelRow>, dispatch: Dispatch)
    returns (out: seq<RowCurrency>)
    requires OneCurrent(db.edges) && multiset(rows) == multiset(db.models)
    ensures |out| == |evaluations|
    ensures forall i :: 0 <= i < |out| ==>
              && out[i].evaluation == evaluations[i]
              && (out[i].current <==> IsCurrent(db, evaluations[i], dispatch) == Some(true))
              && (out[i].current <==> out[i].stale == [])
              && (IsCurrent(db, evaluations[i], dispatch).None? ==> out[i].stale == BINDING_FIELDS)
              && (IsCurrent(db, evaluations[i], dispatch).Some? ==> MovedExactly(db, evaluations[i], dispatch, out[i].stale))
  {
    var ids := seq(|evaluations|, i requires 0 <= i < |evaluations| => evaluations[i].listing);
    var lives := LiveInputs(db, ids, rows, dispatch);
    out := [];
    for i := 0 to |evaluations|
      invariant |out| == i
      invariant forall j :: 0 <= j < i ==>
        && out[j].evaluation == evaluations[j]
        && (out[j].current <==> IsCurrent(db, evaluations[j], dispatch) == Some(true))
        && (out[j].current <==> out[j].stale == [])
        && (IsCurrent(db, evaluations[j], dispatch).None? ==> out[j].stale == BINDING_FIELDS)
        && (IsCurrent(db, evaluations[j], dispatch).Some? ==> MovedExactly(db, evaluations[j], dispatch, out[j].stale))
    {
      var e := evaluations[i];
      assert ids[i] in ids;
      var live := lives[e.listing];
      var stale := StaleFields(e, BindingFor(e.watchVersion, live), BINDING_FIELDS);
      BatchedDecisionIsSimple(db, e, dispatch);
      out := out + [RowCurrency(e, live, stale == [], stale)];
    }
  }
}
