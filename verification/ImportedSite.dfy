/**
 * What the durable import writes into the site: the protocol's commits as transactions of the site's
 * history (src/hw_radar/acquisition/apify/importer.py:340-427, 533-598). It joins the import protocol to
 * the ingestion machine: whatever its executors do, a remote run persists before its own absence.
 */
module ImportedSite {
  import opened Prelude
  import opened Contracts
  import opened Persist
  import opened Stages
  import opened PersistOrder
  import opened Pipeline
  import opened History
  import opened OrderIndependence
  import Interleavings
  import opened ProviderRow
  import opened Protocol
  import opened ImportSafety

  /** One admitted remote run: its scope, its start, and the usable rows of its dataset. */
  datatype RemoteRun = RemoteRun(scope: ScopeKey, started: Time, records: seq<Record>, retention: Retention, now: Time)

  function KeysOf(records: seq<Record>): set<Key> {
    set r | r in records :: r.key
  }

  /** Stage 1 observes every usable row at the run's start. */
  function PersistOf(run: RemoteRun): Event {
    Persisted(run.records, Stamp(run.started, run.now, run.retention))
  }

  /** Stage 2 claims completeness only for a run classified COMPLETE, which then saw what stage 1 persisted. */
  function SweepOf(run: RemoteRun, c: Completeness): Event {
    Swept(Sweep(Evidence(Remote, c, false),
                if c.Complete? then Some(DelistScope(KeysOf(run.records), run.started, true, 0, Some(run.scope), true)) else None,
                Some(run.scope), run.started, {}, false, None))
  }

  /** A rejected FULL import breaks the continuity of its scope at the run's start. */
  function BreakOf(run: RemoteRun): Event {
    ImportRejected(run.scope, run.started)
  }

  /** What one step of the protocol committed to the site. */
  function Committed(run: RemoteRun, w: World, w': World): seq<Event> {
    (if w'.fx.observationCommits > w.fx.observationCommits then [PersistOf(run)] else [])
    + (if w'.fx.absenceCommits > w.fx.absenceCommits && w.row.kind.Full? && w.row.completeness.Some?
       then [SweepOf(run, w.row.completeness.value)] else [])
    + (if w'.row.state.Rejected? && !w.row.state.Rejected? && w.row.kind.Full? then [BreakOf(run)] else [])
  }

  /** What a whole run of the protocol has committed to the site. */
  function SiteOf(run: RemoteRun, kind: RunKind, trace: seq<Action>, caps: Caps): seq<Event> {
    if trace == [] then []
    else
      var front := trace[..|trace| - 1];
      SiteOf(run, kind, front, caps) + Committed(run, Run(kind, front, caps).world, Run(kind, trace, caps).world)
  }

  // ── Which steps commit to the site ────────────────────────────────────────

  /** The stage-1 commit of an executor that fetched. */
  predicate CommitsObservations(s: System, a: Action) {
    a.Step? && PcOf(s, a.e).Committing? && !a.choice.exhaust && s.world.row.state.Pending? && !a.choice.late
  }

  /** The stage-2 commit of an executor whose copy of the row has stage 1 behind it. */
  predicate CommitsAbsence(s: System, a: Action) {
    a.Step? && PcOf(s, a.e) == Ready(ObservationsCommitted) && !a.choice.exhaust && s.world.row.state.ObservationsCommitted?
  }

  ghost predicate Commits(w: World, w': World, observes: bool, absents: bool) {
    && w'.fx.observationCommits == w.fx.observationCommits + (if observes then 1 else 0)
    && w'.fx.absenceCommits == w.fx.absenceCommits + (if absents then 1 else 0)
  }

  lemma OutcomesCommitNothing(w: World, reason: RejectReason, onlyFrom: Option<ImportState>, caps: Caps, deleted: set<Storage>)
    ensures Commits(w, Reject(w, reason, onlyFrom), false, false)
    ensures Commits(w, Finalize(w).0, false, false)
    ensures Commits(w, FinishAttempt(w, caps, deleted), false, false)
  {
  }

  lemma StageCommits(s: System, e: nat, copy: ImportState, c: Choice, caps: Caps)
    ensures Commits(s.world, StageStep(s, e, copy, c, caps).world, false,
                    copy.ObservationsCommitted? && !c.exhaust && s.world.row.state.ObservationsCommitted?)
  {
    OutcomesCommitNothing(s.world, FailedRun, None, caps, {});
  }

  lemma ImportStepCommits(s: System, e: nat, c: Choice, caps: Caps)
    requires Importing(PcOf(s, e)) && !PcOf(s, e).Ready?
    ensures Commits(s.world, ImportStep(s, e, c, caps).world, CommitsObservations(s, Step(e, c)), false)
  {
    match PcOf(s, e)
    case Committing =>
    case Rejecting(reason) => OutcomesCommitNothing(s.world, reason, None, caps, {});
    case _ =>
  }

  lemma CleanupCommitsNothing(s: System, e: nat, c: Choice, caps: Caps)
    requires !Importing(PcOf(s, e))
    ensures Commits(s.world, CleanupStep(s, e, c, caps).world, false, false)
  {
    match PcOf(s, e)
    case OverdueReject => OutcomesCommitNothing(s.world, StorageDeadlinePassed, Some(Pending), caps, {});
    case Finishing(_, deleted) => OutcomesCommitNothing(s.world, StorageDeadlinePassed, None, caps, deleted);
    case _ =>
  }

  /** Observations are committed exactly by a fetched executor that finds the row pending, absence exactly after it. */
  lemma CommitsExactlyWhen(s: System, a: Action, caps: Caps)
    ensures Commits(s.world, Do(s, a, caps).world, CommitsObservations(s, a), CommitsAbsence(s, a))
  {
    if a.Step? {
      if PcOf(s, a.e).Ready? {
        StageCommits(s, a.e, PcOf(s, a.e).copy, a.choice, caps);
      } else if Importing(PcOf(s, a.e)) {
        ImportStepCommits(s, a.e, a.choice, caps);
      } else {
        CleanupCommitsNothing(s, a.e, a.choice, caps);
      }
    } else {
      OutcomesCommitNothing(s.world, StartOptionMismatch, None, caps, {});
    }
  }

  // ── What an import leaves in the site ─────────────────────────────────────

  /** The transactions of an import that got this far: observations, then absence, then a break. */
  function Left(run: RemoteRun, w: World, c: Completeness): seq<Event> {
    (if w.fx.observationCommits > 0 then [PersistOf(run)] else [])
    + (if w.fx.absenceCommits > 0 && w.row.kind.Full? then [SweepOf(run, c)] else [])
    + (if w.row.state.Rejected? && w.row.kind.Full? then [BreakOf(run)] else [])
  }

  /** One step adds to what the import left just what it committed, in order. */
  lemma LeftGrows(run: RemoteRun, w: World, w': World, c: Completeness, observes: bool, absents: bool)
    requires EffectsOnce(w) && EffectsOnce(w') && w'.row.kind == w.row.kind && Commits(w, w', observes, absents)
    requires w.row.state.Rejected? ==> w'.row.state.Rejected? && !observes && !absents
    requires absents ==> !observes && w.row.completeness == Some(c)
    ensures !absents ==> Left(run, w, c) + Committed(run, w, w') == Left(run, w', c)
    ensures absents ==> forall before :: Left(run, w, before) + Committed(run, w, w') == Left(run, w', c)
  {
  }

  lemma StepLeaves(run: RemoteRun, s: System, a: Action, caps: Caps, before: Completeness) returns (c: Completeness)
    requires ImportOk(s, caps) && ImportOk(Do(s, a, caps), caps)
    requires s.world.fx.observationCommits > 0 ==> s.world.row.completeness.Some?
    ensures var w, w' := s.world, Do(s, a, caps).world;
            && Left(run, w, before) + Committed(run, w, w') == Left(run, w', c)
            && (w'.fx.observationCommits > 0 ==> w'.row.completeness.Some?)
  {
    var w, w' := s.world, Do(s, a, caps).world;
    ActionIsSound(s, a, caps);
    CommitsExactlyWhen(s, a, caps);
    if CommitsObservations(s, a) { assert CopyOk(w, PcOf(s, a.e)); }
    c := if CommitsAbsence(s, a) then w.row.completeness.value else before;
    LeftGrows(run, w, w', c, CommitsObservations(s, a), CommitsAbsence(s, a));
  }

  lemma {:induction false} LeftBy(run: RemoteRun, kind: RunKind, trace: seq<Action>, caps: Caps) returns (c: Completeness)
    ensures SiteOf(run, kind, trace, caps) == Left(run, Run(kind, trace, caps).world, c)
    ensures var w := Run(kind, trace, caps).world; w.fx.observationCommits > 0 ==> w.row.completeness.Some?
  {
    ImportIsSafe(kind, trace, caps);
    if trace == [] {
      c := Complete;
    } else {
      var front := trace[..|trace| - 1];
      c := LeftBy(run, kind, front, caps);
      ImportIsSafe(kind, front, caps);
      c := StepLeaves(run, Run(kind, front, caps), trace[|trace| - 1], caps, c);
    }
  }

  /**
   * Over every interleaving and crash the import leaves in the site at most its own persist, then its
   * own absence, then its own break, each exactly when the row says so; and it is classified by then.
   */
  lemma ImportLeaves(run: RemoteRun, kind: RunKind, trace: seq<Action>, caps: Caps)
    ensures exists c :: SiteOf(run, kind, trace, caps) == Left(run, Run(kind, trace, caps).world, c)
    ensures var w := Run(kind, trace, caps).world; w.fx.observationCommits > 0 ==> w.row.completeness.Some?
  {
    var c := LeftBy(run, kind, trace, caps);
  }

  // ── Imports are orderly ───────────────────────────────────────────────────

  /** Row admission lets through only rows of the run's own scope. */
  predicate OwnRows(run: RemoteRun) {
    forall r :: r in run.records ==> r.scope == Some(run.scope)
  }

  lemma {:induction false} OnlyAndKeys(records: seq<Record>, k: Key)
    ensures k in KeysOf(records) <==> Only(records, k) != []
    ensures forall r :: r in Only(records, k) ==> r in records
  {
    if records != [] {
      var front, last := records[..|records| - 1], records[|records| - 1];
      assert records == front + [last];
      OnlyAndKeys(front, k);
    }
  }

  lemma SweepSawItsOwn(k: Key, scope: Option<ScopeKey>, run: RemoteRun, c: Completeness)
    ensures Interleavings.SawItsOwn(k, scope, run.records, run.started, SweepOf(run, c).sweep)
  {
    OnlyAndKeys(run.records, k);
    CallIsValid(SweepOf(run, c).sweep);
  }

  /** Whatever its executors do, an import is in its own turn: it persists before its own absence, at its start. */
  lemma ImportIsInTurn(k: Key, scope: Option<ScopeKey>, run: RemoteRun, kind: RunKind, trace: seq<Action>, caps: Caps)
    requires OwnRows(run) && (Some(run.scope) == scope || k !in KeysOf(run.records))
    ensures Interleavings.OwnTurn(k, scope, SiteOf(run, kind, trace, caps), run.started)
  {
    ImportLeaves(run, kind, trace, caps);
    ImportExactlyOnce(kind, trace, caps);
    var w := Run(kind, trace, caps).world;
    var c :| SiteOf(run, kind, trace, caps) == Left(run, w, c);
    LeftIsInTurn(k, scope, run, w, c);
  }

  /** What an import left before any break is what a local run of its batch and sweep leaves. */
  lemma LeftAsLocalRun(run: RemoteRun, w: World, c: Completeness)
    requires w.fx.absenceCommits <= w.fx.observationCommits
    ensures Left(run, w, c)
            == (if w.fx.observationCommits == 0 then [] else Interleavings.LocalRun(run.records, PersistOf(run).stamp, SweepsOf(run, w, c)))
               + (if w.row.state.Rejected? && w.row.kind.Full? then [BreakOf(run)] else [])
  {
    var stamp, sweep := PersistOf(run).stamp, SweepOf(run, c).sweep;
    assert [sweep][..0] == [];
    assert Interleavings.LocalRun(run.records, stamp, [sweep])
           == Interleavings.LocalRun(run.records, stamp, []) + [Swept(sweep)];
  }

  function SweepsOf(run: RemoteRun, w: World, c: Completeness): seq<Sweep> {
    if w.fx.absenceCommits > 0 && w.row.kind.Full? then [SweepOf(run, c).sweep] else []
  }

  lemma LeftIsInTurn(k: Key, scope: Option<ScopeKey>, run: RemoteRun, w: World, c: Completeness)
    requires OwnRows(run) && (Some(run.scope) == scope || k !in KeysOf(run.records))
    requires w.fx.absenceCommits <= w.fx.observationCommits
    ensures Interleavings.OwnTurn(k, scope, Left(run, w, c), run.started)
  {
    OnlyAndKeys(run.records, k);
    SweepSawItsOwn(k, scope, run, c);
    Interleavings.LocalRunIsInTurn(k, scope, run.records, PersistOf(run).stamp, SweepsOf(run, w, c));
    LeftAsLocalRun(run, w, c);
    var own := if w.fx.observationCommits == 0 then []
               else Interleavings.LocalRun(run.records, PersistOf(run).stamp, SweepsOf(run, w, c));
    if w.row.state.Rejected? && w.row.kind.Full? {
      Interleavings.NextInTurn(k, scope, own, BreakOf(run), run.started);
    } else {
      assert own + [] == own;
    }
  }

  /** One import among many: the run, its kind, and every step its executors took. */
  datatype Import = Import(run: RemoteRun, kind: RunKind, trace: seq<Action>)

  /** The interleaving holds what each import left in the site, in that import's order. */
  ghost predicate Interleaves(all: seq<Interleavings.Tagged>, imports: seq<Import>, caps: Caps) {
    && (forall x :: x in all ==> x.run < |imports|)
    && (forall i :: 0 <= i < |imports| ==>
          Interleavings.CommittedBy(all, i) == SiteOf(imports[i].run, imports[i].kind, imports[i].trace, caps))
  }

  function Starts(imports: seq<Import>): (r: seq<Time>)
    ensures |r| == |imports| && forall i :: 0 <= i < |r| ==> r[i] == imports[i].run.started
  {
    seq(|imports|, i requires 0 <= i < |imports| => imports[i].run.started)
  }

  /**
   * End to end: for imports of distinct start times, whose rows of the key all name one scope, the
   * site shows the same offer in whatever order their transactions landed, with any number of
   * executors each, crashing anywhere.
   */
  lemma ImportsShowTheSame(k: Key, scope: Option<ScopeKey>, lane: Option<nat>, imports: seq<Import>, caps: Caps,
                           a: seq<Interleavings.Tagged>, b: seq<Interleavings.Tagged>)
    requires forall x :: x in imports ==> OwnRows(x.run) && (Some(x.run.scope) == scope || k !in KeysOf(x.run.records))
    requires forall i, j :: 0 <= i < j < |imports| ==> imports[i].run.started != imports[j].run.started
    requires Interleaves(a, imports, caps) && Interleaves(b, imports, caps) && HasMark(scope, lane)
    ensures View(Replay(lane, Interleavings.Untag(a)), k) == View(Replay(lane, Interleavings.Untag(b)), k)
  {
    var times := Starts(imports);
    forall i | 0 <= i < |times|
      ensures Interleavings.OwnTurn(k, scope, Interleavings.CommittedBy(a, i), times[i])
      ensures Interleavings.OwnTurn(k, scope, Interleavings.CommittedBy(b, i), times[i])
    {
      assert imports[i] in imports;
      ImportIsInTurn(k, scope, imports[i].run, imports[i].kind, imports[i].trace, caps);
    }
    assert Interleavings.RunsInTurn(k, scope, a, times) && Interleavings.RunsInTurn(k, scope, b, times);
    Interleavings.InterleavingsShowTheSame(k, scope, lane, a, b, times);
  }
}
