# hw-radar: ingestion, import, collection, budget, masking and ledgers

A Dafny 4.11 model of the parts of hw-radar that decide what a listing's history means, what a paid
remote run may do, and what it may cost. Verify it with `dafny verify dfyconfig.toml`.

The files follow the program:

- **Ingestion and absence.** `Contracts`, `Providers`, `Persist`, `Stages` and `Pipeline` give each
  transaction as a function of database values; `SiteStore` holds the methods that change a site's rows in
  place, each proved equal to its function. A history is any sequence of committed persist and absence
  transactions, from local and remote runs, of one or several scopes, landing in any order (`History`).
  `Clocks`, `OrderIndependence`, `Replays`, `Continuity`, `MultiScope`, `ScopeRuns`, `RemoteEvidence` and
  `Retirement` state what every history means; `Interleavings` proves that any interleaving of runs is a history of the kind those
  theorems ask for.
- **The durable import and storage cleanup.** `ProviderRow` gives each committed transaction on the one
  provider_run row; `Protocol` lets any number of executors, each with a stale copy, run them one step at a time
  with a crash possible between any two steps; `ImportSafety`, `CleanupSafety` and `DeleteOnce` prove what
  every such run keeps, `ImportOutcome` why and with which event an import ends, and `TerminalEvidence` that
  every DELETE follows an answer that the run had ended. `CleanupPath` is one cleanup attempt from end to end,
  and `Units` is the row as an object with the source's methods, proved equal to the
  transactions and, for one undisturbed import or cleanup attempt, to a run of the protocol. `ImportedSite` reads the
  protocol's commits as transactions of the site's history, and so joins the two cores. `StrandedLatches` is
  the pass over the whole table, and `Paging` the page loop.
- **The bounded collector and the classifier.** `Collector` is the Actor's loop against an arbitrary server
  and clock, `RunContract` the independent judgement, `CollectAndJudge` the two together.
- **The budget.** `RowBound`, `Budget`, `Admission` and `BillingCycle`; `Metering` is an independent bill the
  estimate is measured against, `AdmissionRules` the admission rules in the settings' own terms, and
  `PaidCalls` joins the cost bound to what the collector and the protocol really send.
- **Reference-span masking** in `Masking`, the **resolution ledger** in `Resolution`, and the **batched
  currency** decision in `Currency`.

Time is an integer number of microseconds. What the environment decides (a server's answer, a clock, a
remote status, a crash, a ladder verdict) is a parameter, unconstrained unless a contract says otherwise.

## Results that qualify the documentation

- Order independence needs distinct run times and one scope per key: `EqualTimesAreOrderSensitive` and
  `MovedKeyIsOrderSensitive` in `OrderIndependence` give histories that end differently in two orders.
  It holds for the NULL scope too, where the site has a FULL lane to keep that scope's watermark.
- Importing a batch again adds no snapshot once no sweep is ahead of the clock and, in an orderly history, never
  changes what is shown (`Replays.ReplayAppendsNothing`, `Replays.ReplayKeepsTheView`); it changes nothing at all once newer
  evidence stands, and otherwise moves only the last-seen instant (`Replays.ReplayChangesNothing`).
- A batch that shows a key late does not refresh its last-seen instant, so a stale mark says when the row was
  last written, not when the key was last shown (`RemoteEvidence.StaleMarkWasUnseen`).
- The two parts of an estimate are rounded up separately; rounding their sum once could undershoot
  (`Budget.RoundingOnceWouldUndershoot` is an instance).
- A rejected import may have persisted observations when the rejection is not a compare-and-set:
  `ImportSafety.RejectionCanFollowACommit` is the interleaving, and `ImportSafety.ImportExactlyOnce` says
  exactly when nothing was persisted (it was rejected from `pending`).
- A fault mode of the synthetic collector produces its row of the classification table exactly where it has
  something to bite (`Collector.CompleteExactlyWhenItFits`, `CollectAndJudge.CollectThenClassify`); truncating a
  one-page source to one page leaves the run complete (`Collector.OnePageIsNotTruncated`).
- An honest, complete report is refused as self-contradictory exactly when the source declares zero pages
  (`RunContract.HonestContradictsOnlyOnZeroPages`, with the report in `RunContract.ZeroPagesDeclaredFails`).
- Repeating an accepted verdict appends an edge exactly when it is a reconsidered accept of a rung above
  zero (`Resolution.RepeatAppendsExactlyWhen`); the docstring's "append-only is not append-always" holds
  without exception for reviews, misses and errors.

## Model

| member | source | states |
|---|---|---|
| Providers.GateNeverStrengthens | src/hw_radar/acquisition/providers.py:52-99 | The gate lets nothing through that the scope did not claim; an incomplete scope passes only for local evidence with the stale opt-in |
| Providers.LocalGateIsIdentity | src/hw_radar/acquisition/providers.py:218-242 | On local FULL evidence the gate is the identity, except that an opted-out incomplete scope is dropped; every local FULL run counts as polling |
| Persist.ObserveHistory | src/hw_radar/acquisition/persist.py:283-313 | One observation appends at most one snapshot at the end, rewrites none, keeps at most one per instant, and always records an indefinite retention class |
| Stages.DelistCountIsGrowth | src/hw_radar/acquisition/stages.py:408-466 | The count an absence step reports is exactly how many listings it turned inactive |
| Stages.EnsureRowDecidesNothing | src/hw_radar/acquisition/stages.py:147-155 | Creating empty watermark rows ahead of time changes no guard |
| SiteStore.Site.DelistOne | src/hw_radar/catalog/models/market.py:349-417 | Marking delisted acts once, on an active listing, and reports whether it acted |
| SiteStore.Site.ObserveListing | src/hw_radar/acquisition/persist.py:182-263 | The in-place observation is the three-clock guard followed by the history append, on its own row only |
| SiteStore.Site.FirstRecords | src/hw_radar/acquisition/stages.py:265-297 | The new keys and the first record of each are found, each key once |
| SiteStore.Site.InsertNewKeys | src/hw_radar/acquisition/stages.py:282-297 | After the first pass, in any key order, each new key holds exactly its first record |
| SiteStore.Site.ObserveRest | src/hw_radar/acquisition/stages.py:298-305 | The second pass handles every other record once, in batch order |
| SiteStore.Site.PersistObservations | src/hw_radar/acquisition/stages.py:235-305 | The two-pass persist leaves the same rows, snapshots and appended count as observing the records left to right |
| SiteStore.Site.RunPersist | src/hw_radar/acquisition/pipeline.py:533-555 | The persist step ensures the target scopes' rows and persists, as one transaction |
| SiteStore.Site.RecordSweep | src/hw_radar/acquisition/stages.py:316-366 | Recording an eligible sweep in place extends, restarts or refuses the window of its own row |
| SiteStore.Site.BreakSweep | src/hw_radar/acquisition/stages.py:369-392 | A break clears the window and only ever raises the break time |
| SiteStore.Site.ApplyDelist | src/hw_radar/acquisition/stages.py:408-466 | The delist loop marks exactly the contradicted listings, in any order, and counts them |
| SiteStore.Site.ApplyAbsenceCall | src/hw_radar/acquisition/stages.py:469-519 | Continuity first, then the gated delist and the watermark, as one function of the old state |
| SiteStore.Site.RaiseSweep | src/hw_radar/acquisition/stages.py:522-532 | The complete-sweep watermark is raised, never lowered, on its own row |
| SiteStore.Site.RunAbsence | src/hw_radar/acquisition/pipeline.py:558-589 | The absence step ensures the swept scope's row and applies the call, reporting its count |
| SiteStore.Site.ApplyScopeReports | src/hw_radar/acquisition/pipeline.py:464-530 | The multi-scope loop, sorted by scope, ends as the reports in the order given would; each outcome is that report's count on the initial state and the total is the growth in inactive listings |
| PersistOrder.PersistBatchRow | src/hw_radar/acquisition/stages.py:235-305 | A batch acts on each key as the fold of that key's own records |
| Pipeline.AbsenceFrame | src/hw_radar/acquisition/stages.py:469-519 | An absence transaction changes listings and watermarks of its own scope only, and the lane only by the NULL break it owes |
| Pipeline.AbsenceLocality | src/hw_radar/acquisition/stages.py:450-519 | What an absence transaction does to its scope, and its count, depend only on that scope and the lane interval |
| MultiScope.ReportsActPerScope | src/hw_radar/acquisition/pipeline.py:464-530 | A multi-scope run leaves every scope as its own report alone would and the NULL lane as the NULL report alone, or one break, would |
| MultiScope.OrderDoesNotMatter | src/hw_radar/acquisition/pipeline.py:464-530 | For distinct scopes the final state is the same in every processing order |
| MultiScope.EachReportCountsAlone | src/hw_radar/acquisition/pipeline.py:505-530 | A report's delist count is the same wherever it stands in the run |
| MultiScope.SeenIsNeverDelisted | src/hw_radar/acquisition/pipeline.py:460-461 | A key seen anywhere in the run is not delisted by any of its reports |
| ScopeRuns.RunMarks | src/hw_radar/acquisition/pipeline.py:464-530 | From the parsed keys and the reports alone: a key the run parsed or any report saw is untouched, and each complete report marks exactly what is left active of its scope |
| ScopeRuns.RunOwesNull | src/hw_radar/acquisition/pipeline.py:460-530 | The NULL lane ends as the NULL scope's own report leaves it, or, in a run without one, broken at the run's time |
| History.OneSnapshotPerInstant | src/hw_radar/acquisition/persist.py:283-313 | In every history there is at most one snapshot per listing and instant |
| OrderIndependence.GuardsAddUp | src/hw_radar/acquisition/persist.py:207-262 | In every history that is orderly for a key and its scope, whatever other keys and scopes do, the key is active iff its newest observation is at or after its scope's newest complete sweep, and then shows that observation's content and time; the watermark is that newest sweep |
| OrderIndependence.ArrivalOrderDoesNotMatter | src/hw_radar/acquisition/stages.py:450-466 | Two orderly histories of the same transactions show the same offer |
| Clocks.ClocksOnlyRise | src/hw_radar/acquisition/persist.py:151-159 | From any state of any history to any later one no row disappears and neither its newest observation, its newest absence nor any scope's complete-sweep watermark runs back |
| Replays.EveryObservationSettles | src/hw_radar/acquisition/persist.py:283-313 | Every observation ever applied is, in every later state, recorded or of a bounded class and retired by a newer absence |
| Replays.HistoryIsWhatWasObserved | src/hw_radar/acquisition/persist.py:222-313 | Each snapshot is an offer some transaction reported for that instant, and each observation of an indefinite retention class is recorded, whatever the other observations carry |
| Replays.ReplayAppendsNothing | src/hw_radar/acquisition/persist.py:222-313 | In every history, importing an applied batch again, once no sweep is ahead of the clock, adds no snapshot |
| Replays.ReplayKeepsTheView | src/hw_radar/acquisition/persist.py:207-262 | In every orderly history, importing an applied batch again shows the same offers |
| Replays.ReplayChangesNothing | src/hw_radar/acquisition/persist.py:222-313 | In every orderly history, importing an applied batch again, once no sweep is ahead of the clock, touches no watermark and exactly the last-seen instants of the keys that no strictly newer observation or complete sweep supersedes; when all are superseded the database is unchanged |
| Interleavings.InterleavingsAreOrderly | src/hw_radar/acquisition/stages.py:450-466 | Any interleaving of runs of distinct times, each in its own order as far as it got, is orderly |
| Interleavings.InterleavingsShowTheSame | src/hw_radar/acquisition/stages.py:450-466 | Two interleavings of the same runs show the same offer |
| Interleavings.LocalRunIsInTurn | src/hw_radar/acquisition/pipeline.py:360-400 | A local run that persists its batch and then applies its sweeps is in its own order |
| Continuity.RowIsItsLog | src/hw_radar/acquisition/stages.py:316-392 | A scope's continuity columns are the fold of its own polls and breaks, whatever else committed between; the NULL scope's log also holds the break every scoped run owes it |
| Continuity.SinceStartsAChain | src/hw_radar/acquisition/stages.py:316-366 | The reported start begins an unbroken chain of in-tolerance polls reaching the newest one, for the NULL scope too although it measures its gap from the site's run table |
| Continuity.SteadyPollingIsRecorded | src/hw_radar/acquisition/stages.py:316-366 | Steady polling from an instant on is recorded at least that far back |
| Continuity.PredecessorsAreLogged | src/hw_radar/acquisition/stages.py:343-355 | A run table that lists a FULL run only after its own absence transaction never names a predecessor newer than the NULL scope's own log |
| Continuity.StaleMarkIsEarned | src/hw_radar/acquisition/stages.py:428-461 | A stale mark at T with grace G, in a named scope or the NULL scope, has a chain of eligible sweeps from at most T - G to T, no break in it or at its start, and a row last written before T - G |
| Continuity.SteadyPollingMarks | src/hw_radar/acquisition/stages.py:428-461 | Conversely, steady polling across the grace marks every candidate it leaves unseen |
| Continuity.LinksExactlyWhen | src/hw_radar/acquisition/stages.py:343-363 | Which gaps link: an accepted poll keeps the open window exactly when its predecessor is within fifteen minutes or two lane intervals, else the window starts anew |
| Continuity.ReschedulingIs | src/hw_radar/acquisition/stages.py:308-313 | A changed schedule changes the interval that later gaps are measured by, and nothing else |
| RemoteEvidence.RemoteMarksNeedProof | src/hw_radar/acquisition/providers.py:52-133 | A remote run marks a row or raises a watermark only with COMPLETE evidence and a complete scope of its own |
| RemoteEvidence.ProofActs | src/hw_radar/acquisition/providers.py:84-99 | And a run that proves completeness, remote or local, is let through: it raises its scope's watermark to its own time and marks every listing it refutes, and no other |
| RemoteEvidence.UnprovenActs | src/hw_radar/acquisition/stages.py:408-466 | A run that proves nothing raises no watermark and marks a listing exactly when it may age listings, its poll stands in a window at least the grace long, and the unseen listing was last written before the grace began |
| RemoteEvidence.PollsOrBreaks | src/hw_radar/acquisition/stages.py:316-392 | What every sweep does to the window of its scope: which runs poll, which break, which are too late to matter, and the exact columns each leaves |
| RemoteEvidence.ScopedSweepBreaksNull | src/hw_radar/acquisition/stages.py:501-511 | A sweep of a named scope breaks the NULL window at its own time exactly when its run does not sweep the NULL scope too |
| RemoteEvidence.RemoteWithoutProofBreaks | src/hw_radar/acquisition/stages.py:501-519 | Every other remote FULL run leaves its scope's window null |
| RemoteEvidence.EveryLinkIsEarned | src/hw_radar/acquisition/providers.py:102-133 | Every link of every continuity log, the NULL scope's included, is local or complete-remote |
| RemoteEvidence.EveryStaleRowWasMarked | src/hw_radar/acquisition/stages.py:428-466 | In every state a row that reads stale was turned so by one sweep of the history, and has kept its scope and last-seen instant since |
| RemoteEvidence.StaleMarksAreLocal | src/hw_radar/acquisition/stages.py:428-437 | A row reads stale-absent only because a local sweep of the row's own scope, opted in, marked it at that sweep's time |
| RemoteEvidence.OptedOutIsNeverStale | src/hw_radar/acquisition/stages.py:428-437 | A scope whose sweeps all opt out, the NULL scope included, never holds a stale-absent listing, whatever the other scopes allow |
| RemoteEvidence.EveryStaleRowIsEarned | src/hw_radar/acquisition/stages.py:316-461 | In every reachable state each stale-absent row has behind it a sweep of its scope at its delisting instant, an unbroken chain of polls over the grace, and a last write before the grace |
| RemoteEvidence.StaleMarkWasUnseen | src/hw_radar/acquisition/stages.py:428-461 | Every persist that wrote the key's current state committed before T - G; any other that showed the key was older than the row's newest observation or absence or than its scope's newest complete sweep, and still is |
| Retirement.RefutedRowIsRetired | src/hw_radar/catalog/models/market.py:349-417 | A refuted listing loses its merchant content exactly when its class goes with the offer, and its and its snapshots' deadlines come forward to the sweep exactly when bounded; nothing is ever extended |
| Retirement.SnapshotExactlyWhen | src/hw_radar/acquisition/persist.py:283-313 | What an observation adds to the history: nothing for an instant already there or bounded content already past its deadline, else one snapshot of the offer expiring at the sooner of its own deadline and the absence that retired it |
| Retirement.AbsenceRetires | src/hw_radar/acquisition/persist.py:283-313 | In every state of every history a delisted row is redacted as its class demands and expires by its delisting, and each bounded snapshot a newer absence overtook expires by that absence, whatever the order of arrival |
| ImportSafety.ActionIsSound | src/hw_radar/acquisition/apify/importer.py:237-265 | Any action of any executor moves the import only forward or to rejected, and keeps every once-only count |
| ImportSafety.ImportIsSafe | src/hw_radar/acquisition/apify/importer.py:177-265 | In every reachable state the row, its effects, every stale copy and every counted read agree |
| ImportSafety.ImportExactlyOnce | src/hw_radar/acquisition/apify/importer.py:340-598 | One ScraperRun, stage 1 and stage 2 each committed at most once, one lifecycle outcome exactly when terminal, one anchor stamp exactly when both barriers hold, and an overdue rejection excludes the stage-1 commit |
| ImportSafety.RunsMoveForward | src/hw_radar/acquisition/apify/importer.py:433-440 | From any state of a run to any later one the import moved forward, and a terminal state absorbs |
| ImportSafety.CountedExactlyWhen | src/hw_radar/acquisition/apify/importer.py:271-294 | A read is counted exactly by a counting transaction on a pending row below both caps, a re-read only with the latch untripped |
| ImportSafety.SentIsCountedIsCapped | src/hw_radar/acquisition/apify/importer.py:271-294 | Over any history with crashes, reads sent <= reads counted <= both caps |
| ImportSafety.RejectionCanFollowACommit | src/hw_radar/acquisition/apify/importer.py:533-598 | An unconditional rejection can land after another executor's stage-1 commit: the interleaving |
| ImportOutcome.RejectedOutcome | src/hw_radar/acquisition/apify/importer.py:145-152 | A rejected import feeds one event: a probe failure for a probe; for a full run parser rot after a failed run or a broken contract, unknown after a retention or start mismatch, transient otherwise |
| ImportOutcome.FinalOutcome | src/hw_radar/acquisition/apify/importer.py:474-516 | An import is finalized exactly by its finalizing step; its event is success for a full run, and for a probe probe-success exactly when then classified complete or truncated |
| ImportOutcome.RefusesExactlyWhen | src/hw_radar/acquisition/apify/importer.py:271-363 | An invocation turns to rejecting exactly for a failed precondition, an exhausted read cap, a failed run or a passed deadline, with that reason |
| ImportOutcome.RejectsExactlyWhen | src/hw_radar/acquisition/apify/importer.py:533-598 | A row becomes rejected exactly by a rejecting step, a start mismatch, or the overdue rejection of a pending row, with that reason and from the state it had |
| ImportOutcome.StopsExactlyWhen | src/hw_radar/acquisition/apify/importer.py:284-294 | An invocation stops for the latch exactly at a re-read below the caps with the latch tripped, and for its retries exactly where a commit exhausts them |
| ImportOutcome.NotesExactlyWhen | src/hw_radar/acquisition/apify/importer.py:249-265 | Which action counts an attempt and creates the run, stores the classification, notes an exhausted retry or a blocked re-read; no other does |
| ImportOutcome.StateExactlyWhen | src/hw_radar/acquisition/apify/importer.py:204-229 | The state every action leaves: one stage further exactly by a step that finishes the row's own stage, rejected exactly as above, else unchanged |
| ImportOutcome.SurroundingsAre | src/hw_radar/acquisition/apify/importer.py:177-203 | A crash loses an executor's place and nothing committed, counted or sent; an overdue cleanup of a pending import starts with its rejection; a recorded start keeps every id; a reset closes every trip and forgets none |
| ImportedSite.CommitsExactlyWhen | src/hw_radar/acquisition/apify/importer.py:340-427 | Observations are committed exactly by a fetched executor that finds the row pending, absence exactly by one that finds stage 1 committed |
| ImportedSite.ImportLeaves | src/hw_radar/acquisition/apify/importer.py:340-427 | Over every interleaving and crash an import leaves in the site its persist, then its absence, then its break, each at most once and exactly when the row says so |
| ImportedSite.ImportIsInTurn | src/hw_radar/acquisition/apify/importer.py:378-427 | Whatever its executors do, an import is in its own order: it persists before its own absence, at the run's start |
| ImportedSite.ImportsShowTheSame | src/hw_radar/acquisition/apify/importer.py:340-427 | Many imports, each with any number of executors crashing anywhere, show the same offer in whatever order their transactions land |
| ImportSafety.OwnStepDecreases | src/hw_radar/acquisition/apify/importer.py:204-229 | Each own step of an invocation spends work |
| ImportSafety.InvocationEnds | src/hw_radar/acquisition/apify/importer.py:204-229 | Whatever other executors do meanwhile, an invocation is over after at most 62 own steps |
| CleanupSafety.CleanupIsSafe | src/hw_radar/acquisition/apify/storage_cleanup.py:149-393 | In every reachable state the row, every attempt in flight and the call log agree |
| CleanupSafety.CleanupCallsAreBounded | src/hw_radar/acquisition/apify/storage_cleanup.py:183-249 | At most four calls per counted attempt and at most the cap of attempts, over any history with crashes |
| CleanupSafety.DeletesAreLate | src/hw_radar/acquisition/apify/storage_cleanup.py:370-424 | A DELETE is sent only after a terminal status was recorded, never for a storage verified before the attempt was counted, never while stage 1 could still commit |
| TerminalEvidence.TerminalExactlyWhen | src/hw_radar/acquisition/apify/jobs.py:706-730 | The row reads terminal exactly from the first recorded answer that said so: a poll's, or one an abort or a confirming read of an attempt brought back |
| TerminalEvidence.DeletesFollowAnAnswer | src/hw_radar/acquisition/apify/storage_cleanup.py:231-265 | In every history each DELETE has a terminal answer of the run before it |
| CleanupSafety.BeginExactlyWhen | src/hw_radar/acquisition/apify/storage_cleanup.py:149-193 | An attempt is counted exactly for a started, undeleted row below the cap that is overdue or terminal; a row without a start is orphaned exactly when overdue; one at the cap is marked failed |
| CleanupSafety.FinishExactlyWhen | src/hw_radar/acquisition/apify/storage_cleanup.py:268-305 | An attempt leaves the row deleted exactly once both storages are verified, else failed exactly at the cap |
| CleanupPath.BodyFacts | src/hw_radar/acquisition/apify/storage_cleanup.py:231-265 | An attempt asks only about a run not recorded terminal, deletes exactly the unverified storages with a known id on terminal evidence, and verifies exactly what its deletes proved gone |
| CleanupPath.AttemptPath | src/hw_radar/acquisition/apify/storage_cleanup.py:370-398 | The protocol's steps of one undisturbed attempt send exactly those calls and leave exactly that row |
| CleanupSafety.DeletedMeansSeenGone | src/hw_radar/acquisition/apify/storage_cleanup.py:268-305 | A row is deleted exactly when both storages are verified, each by a delete answer of its own that proves it gone |
| CleanupSafety.MarksCarryTheirTrip | src/hw_radar/acquisition/apify/storage_cleanup.py:164-205 | No reachable row is orphaned or delete_failed without its trip; the only stranded shape left is a retained row at the cap |
| DeleteOnce.DeletesAreBounded | src/hw_radar/acquisition/apify/storage_cleanup.py:383-393 | Each storage is deleted at most once per counted attempt |
| StrandedLatches.RunTable.TripStrandedLatches | src/hw_radar/acquisition/apify/storage_cleanup.py:330-360 | The two loops trip exactly the stranded rows and leave every row as if passed alone |
| StrandedLatches.TwoLoopsAreOnePass | src/hw_radar/acquisition/apify/storage_cleanup.py:349-358 | Tripping the orphans first hides no exhausted row |
| StrandedLatches.PassLeavesNoneStranded | src/hw_radar/acquisition/apify/storage_cleanup.py:308-327 | After a pass no row of any table is stranded |
| StrandedLatches.PassExactlyWhen | src/hw_radar/acquisition/apify/storage_cleanup.py:308-360 | What a pass does to one row: the orphan trip exactly for an orphan never tripped, the exhausted trip and the failed mark exactly for a failed or spent row never tripped |
| StrandedLatches.ResetIsFinal | src/hw_radar/acquisition/apify/storage_cleanup.py:308-327 | An owner reset makes no row stranded |
| StrandedLatches.SecondPassTripsNone | src/hw_radar/acquisition/apify/storage_cleanup.py:330-360 | A second pass, even after an owner reset, trips nothing again |
| Units.ProviderRun.ClaimRow | src/hw_radar/acquisition/apify/importer.py:249-265 | The claim creates one ScraperRun and counts the attempt, or leaves a terminal row alone |
| Units.ProviderRun.CountOneRead | src/hw_radar/acquisition/apify/importer.py:271-294 | Spending one read is the counting transaction |
| Units.ProviderRun.Stage1 | src/hw_radar/acquisition/apify/importer.py:297-363 | Stage 1 refuses, counts, classifies and commits in the source's order |
| Units.ProviderRun.Stage2 | src/hw_radar/acquisition/apify/importer.py:385-427 | Stage 2 commits absence once, by compare-and-set |
| Units.ProviderRun.Stage5 | src/hw_radar/acquisition/apify/importer.py:474-516 | Stage 5 finalizes with the event the run kind and completeness call for |
| Units.ProviderRun.AdvanceState | src/hw_radar/acquisition/apify/importer.py:433-440 | Stages 3 and 4 advance by compare-and-set |
| Units.ProviderRun.RejectRun | src/hw_radar/acquisition/apify/importer.py:533-598 | The rejection transaction, conditional when it names a state; which event it feeds is ImportOutcome.RejectedOutcome |
| Units.ProviderRun.StampIfComplete | src/hw_radar/acquisition/apify/reconcile.py:193-209 | The anchor is set once, when both barriers hold |
| Units.ProviderRun.ImportProviderRun | src/hw_radar/acquisition/apify/importer.py:177-234 | One undisturbed invocation is a run of the protocol and ends terminal unless the retries ran out or the latch blocked a re-read |
| Units.ProviderRun.Begin | src/hw_radar/acquisition/apify/storage_cleanup.py:149-193 | An attempt is counted before any call, or nothing is sent |
| Units.ProviderRun.Observe | src/hw_radar/acquisition/apify/jobs.py:706-768 | An answer never overwrites a terminal status or a recorded id; which answers make the row terminal is TerminalEvidence.TerminalExactlyWhen |
| Units.ProviderRun.ConfirmTerminal | src/hw_radar/acquisition/apify/storage_cleanup.py:231-249 | Abort, then read only if the abort proved nothing |
| Units.ProviderRun.DeletePending | src/hw_radar/acquisition/apify/storage_cleanup.py:252-265 | Exactly the pending storages with a known id are deleted, and exactly those proved gone are reported |
| Units.ProviderRun.Finish | src/hw_radar/acquisition/apify/storage_cleanup.py:268-305 | One commit records progress and the final state |
| Units.ProviderRun.RunAttempt | src/hw_radar/acquisition/apify/storage_cleanup.py:370-393 | A counted attempt deletes exactly the unverified storages with a known id, only on terminal evidence, in at most four calls, and verifies exactly what its own deletes proved gone |
| Units.ProviderRun.CleanupAttempt | src/hw_radar/acquisition/apify/storage_cleanup.py:370-398 | The whole unit: count first or send nothing, at most four calls per counted attempt, a DELETE exactly for an unverified storage with a known id on terminal evidence; call for call and column for column a run of the protocol |
| Units.StagePathIs | src/hw_radar/acquisition/apify/importer.py:204-229 | The protocol's steps of a stage do what its transaction bodies do in sequence |
| Paging.IterDatasetItems | src/hw_radar/acquisition/apify/client.py:540-563 | Pages yield a prefix in order in at most ceil(n/limit) + 1 requests; every item once unless a header understates the total; the exact request count with no header and with exact ones |
| Collector.Run.FetchPage | actors/hw-radar-synthetic-collector/src/synthetic_collector/core.py:322-399 | A page comes back exactly when it is delivered in time within the byte budget; otherwise a limit stops the run or an error is recorded, never neither |
| Collector.Run.ReadBody | actors/hw-radar-synthetic-collector/src/synthetic_collector/core.py:369-380 | The body is whole exactly when every chunk is on time and the total fits; the overshoot is at most one read |
| Collector.Run.EmitRows | actors/hw-radar-synthetic-collector/src/synthetic_collector/core.py:421-439 | The rows are the valid listings in order until the cap leaves one unread; an error exactly when one is invalid |
| Collector.Run.StopForLimits | actors/hw-radar-synthetic-collector/src/synthetic_collector/core.py:307-319 | Every cap that forbids another page is recorded |
| Collector.Run.Turn | actors/hw-radar-synthetic-collector/src/synthetic_collector/core.py:268-302 | One turn keeps the caps, the plan, the rows and the honesty of the flags |
| Collector.Run.Gather | actors/hw-radar-synthetic-collector/src/synthetic_collector/core.py:267-304 | The loop ends with the invariant kept, the fault of the mode acted where it should and, without trouble, every planned page behind it |
| Collector.Run.Finish | actors/hw-radar-synthetic-collector/src/synthetic_collector/core.py:470-531 | The report is the stated function of the counters and the fault mode |
| Collector.ReportIsHonest | actors/hw-radar-synthetic-collector/src/synthetic_collector/core.py:470-531 | A mode that does not rewrite the report reports honestly, and complete means everything planned was fetched and emitted |
| Collector.CompleteExactlyWhenItFits | actors/hw-radar-synthetic-collector/src/synthetic_collector/core.py:245-319 | Whatever the fault mode, complete is claimed exactly when every planned page fits the caps with valid listings, the declared counts agree and the fault finds nothing to bite; where it fits and the fault bites, that fault's own limit or error is all there is |
| Collector.Collect | actors/hw-radar-synthetic-collector/src/synthetic_collector/core.py:245-304 | For any server, clock and fault mode: the caps hold, the report is honest unless the mode rewrites it, complete is exact, a fault that bites leaves its mark alone, and a flagged limit was reached and left work |
| Collector.OnePageIsNotTruncated | actors/hw-radar-synthetic-collector/src/synthetic_collector/core.py:212-240 | A fault mode need not produce its fault: the source of one page that a page cap of one leaves complete |
| RunContract.Contradictions | src/hw_radar/acquisition/apify/contract.py:463-499 | Exactly the contradictions a report commits are found |
| RunContract.CompleteExactlyWhen | src/hw_radar/acquisition/apify/contract.py:502-610 | COMPLETE exactly when the run succeeded, its record is valid and for the admitted run, every row is usable and counted, and every declared count is met |
| RunContract.TruncatedExactlyWhen | src/hw_radar/acquisition/apify/contract.py:564-587 | TRUNCATED exactly for credible evidence of a run that succeeded or timed out, reports no error, and hit a limit or the platform's timeout |
| RunContract.PartialExactlyWhen | src/hw_radar/acquisition/apify/contract.py:564-610 | PARTIAL_FAILURE exactly for a failed or aborted run that stored rows, a run that reports errors, or a complete one with an unusable row; the rest is FAILED |
| RunContract.ReasonExactlyWhen | src/hw_radar/acquisition/apify/contract.py:502-610 | Each of the reasons is given exactly for its own cause |
| RunContract.ReasonExactlyWhenTruncated | src/hw_radar/acquisition/apify/contract.py:444-460 | A truncation reason exactly for a truncated run, naming a cap that bound, time first |
| RunContract.NothingUsableNothingPersisted | src/hw_radar/acquisition/apify/contract.py:561-562 | A non-empty dataset without a usable row is FAILED whatever else it says |
| RunContract.HonestContradictsOnlyOnZeroPages | src/hw_radar/acquisition/apify/contract.py:463-499 | An honest successful report contradicts itself exactly when the source declared zero pages |
| RunContract.HonestCompleteIsComplete | src/hw_radar/acquisition/apify/contract.py:578-610 | Otherwise, with every row usable and at least one row, COMPLETE exactly when the report is |
| RunContract.ZeroPagesDeclaredFails | src/hw_radar/acquisition/apify/contract.py:491-492 | The honest report that is refused |
| CollectAndJudge.CollectThenClassify | src/hw_radar/acquisition/apify/contract.py:502-610 | Collector and classifier together: whatever the fault, COMPLETE means everything planned was fetched and emitted; without a fault it is answered exactly when every page fits and the counts agree; and each fault mode gets its row of the table |
| CollectAndJudge.ReportGetsItsRow | actors/hw-radar-synthetic-collector/README.md:77-93 | Each fault mode produces its own row of the classification table on a source that fits, exactly where it finds something to bite; a source that declares zero pages is contradictory under every mode but the unknown schema |
| CollectAndJudge.ContradictoryFault | actors/hw-radar-synthetic-collector/src/synthetic_collector/core.py:488-499 | The contradictory fault contradicts itself exactly when the fetch was complete |
| RowBound.MaxSerializedRowBytes | src/hw_radar/acquisition/apify/contract.py:349-370 | The loop sums the bound, or refuses at the first property it cannot bound |
| RowBound.ValueFits | src/hw_radar/acquisition/apify/contract.py:317-346 | Every conforming value fits its schema's bound, however its characters are escaped |
| RowBound.ValueBoundIsAttained | src/hw_radar/acquisition/apify/contract.py:317-346 | The bound of a text is attained by a surrogate pair of escapes for each character, an integer's by one of its ends |
| RowBound.RowFits | src/hw_radar/acquisition/apify/contract.py:349-370 | Every conforming row, however written within the whitespace allowance, fits the bound with a comma to spare |
| RowBound.PageFits | src/hw_radar/acquisition/apify/contract.py:373-389 | page_limit rows with their separators and the envelope fit the page cap |
| RowBound.LimitIsLargest | src/hw_radar/acquisition/apify/contract.py:373-389 | The page limit is the largest that fits, and none exactly when not even one row does |
| RowBound.ListingRowBound | src/hw_radar/acquisition/apify/contract.py:392-394 | The committed listing schema's bound is 32,735 bytes |
| RowBound.ValidRowsAreNeverOverCap | src/hw_radar/acquisition/apify/provider.py:104-158 | A contract-valid row is never refused for its size, and is admitted exactly for its own site, scope and ingest invariants |
| RowBound.ImportedExactlyWhen | src/hw_radar/acquisition/apify/provider.py:104-158 | Each refusal of a raw item is given exactly for its own cause, the cheapest check first |
| Budget.TransferIsCovered | src/hw_radar/acquisition/apify/budget.py:470-477 | The Actor's bytes, one read of overshoot and every request's overhead fit actor_fetch_bytes |
| Budget.ReadingIsCovered | src/hw_radar/acquisition/apify/budget.py:460-467 | The pages and item reads of every read fit the counts priced |
| Budget.EveryPartIsCovered | src/hw_radar/acquisition/apify/budget.py:525-560 | No component costs more than it is priced for a run within its caps |
| Budget.RoundedPartsFit | src/hw_radar/acquisition/apify/budget.py:443-447 | Two rounded-up parts never exceed the reserved estimate, for any margin |
| Budget.EstimateCoversEveryRun | src/hw_radar/acquisition/apify/budget.py:480-568 | Any run within its caps costs at most execution bound plus post-run liability, which never exceed the estimate |
| Metering.CostIsBilled | src/hw_radar/acquisition/apify/budget.py:480-568 | The cost those bounds speak of is what an independent meter bills at the configured unit prices |
| Metering.WorstIsWithinCaps | src/hw_radar/acquisition/apify/budget.py:480-568 | A run that uses every cap is one the caps allow |
| Metering.BoundIsAttained | src/hw_radar/acquisition/apify/budget.py:525-560 | And it costs exactly the estimate's components: the bound is tight, nothing is priced twice or too high |
| Metering.EstimateIsRoundedMargin | src/hw_radar/acquisition/apify/budget.py:443-447 | The recorded parts, the reserved estimate and the monitoring allowance are those bills rounded up to a ten-thousandth, the estimate after the margin factor |
| AdmissionRules.EstimatedExactlyWhen | src/hw_radar/acquisition/apify/budget.py:480-525 | A run is priced exactly when every unit price and every cap is set; a missing price is the reason even beside a missing cap |
| PaidCalls.SentFitsPriced | src/hw_radar/acquisition/apify/budget.py:548-552 | Over any history with crashes the reads, pages, KV reads, deletes and cleanup calls sent fit the counts priced |
| PaidCalls.RunCostsAtMostItsReservation | src/hw_radar/acquisition/apify/budget.py:480-568 | A collection within its caps and any history of the import and cleanup protocols cost at most the reservation |
| PaidCalls.CollectAndRead | src/hw_radar/acquisition/apify/budget.py:480-568 | The composition: a collection against any server and clock, then every read any protocol history sent, paged through whatever the headers say, keep the caps and page bound by themselves and cost at most the reservation |
| BillingCycle.FirstOfMonthIs | src/hw_radar/acquisition/apify/budget.py:668-671 | The first of every month of every year is the day the closed Gregorian rules give, leap centuries included |
| BillingCycle.GuessIsClose | src/hw_radar/acquisition/apify/budget.py:688-690 | The month guess is right or one too far |
| BillingCycle.StartsIncrease | src/hw_radar/acquisition/apify/budget.py:668-671 | Cycle starts strictly increase across year ends and leap years |
| BillingCycle.CycleLength | src/hw_radar/acquisition/apify/budget.py:668-671 | A cycle is at least 28 days and at most 744 hours |
| BillingCycle.CyclesTileTime | src/hw_radar/acquisition/apify/budget.py:674-691 | The bounds are those of the one cycle that holds the instant, ending 1 ms before the next starts, and none before the anchor |
| Admission.AdmittedExactlyWhen | src/hw_radar/acquisition/apify/budget.py:843-972 | Admission exactly when every guard passes; a reservation equal to the remaining amount is admitted |
| AdmissionRules.DecidedByTheRules | src/hw_radar/acquisition/apify/budget.py:843-972 | The decision is the table of rules in their own order and the settings' own terms: the first broken rule's reason, else the estimate |
| AdmissionRules.AskEnters | src/hw_radar/acquisition/apify/budget.py:939-972 | A request is entered in a book, for its estimate and monitoring allowance, exactly when no rule is broken on the book's own debits, in the next cycle too when its charges can reach it |
| AdmissionRules.ReachingAre | src/hw_radar/acquisition/apify/budget.py:780-806 | What the next cycle begins with are the entries that reach it, and the rest of each class ends with its cycle |
| AdmissionRules.LimitsAre | src/hw_radar/acquisition/apify/budget.py:694-706 | The limits kept, in the settings' own terms: the account margin is a tenth of the limit when unset |
| AdmissionRules.OperatorRefusedExactlyWhen | src/hw_radar/acquisition/apify/budget.py:574-612 | An operator call is priced exactly when nothing it needs is missing, else refused with the first thing missing in reading order |
| AdmissionRules.BuildReserves | src/hw_radar/acquisition/apify/budget.py:585-602 | A build reserves its settled ceiling and polls, rounded up and without a margin, and monitors its correction reads |
| AdmissionRules.InspectionReserves | src/hw_radar/acquisition/apify/budget.py:603-630 | An inspection reserves its reads, record calls and bytes, rounded, with the margin |
| AdmissionRules.ProbeReserves | src/hw_radar/acquisition/apify/budget.py:612-630 | A probe reserves its calls and one stored row for the longest time it can be held, rounded, with the margin |
| Admission.OperatorEstimateIsNotNegative | src/hw_radar/acquisition/apify/budget.py:574-630 | An operator reservation never debits a negative amount |
| Admission.EntryKeepsLimits | src/hw_radar/acquisition/apify/budget.py:939-971 | An entry that fits its class cap and the account's share keeps every limit of its cycle |
| Admission.AdmissionsStayWithinLimits | src/hw_radar/acquisition/apify/budget.py:843-972 | From any book within its limits, any sequence of admissions and of settlements that raise none keeps runtime + carried <= A, operator <= allowance, the total <= target <= 12.00, discovery <= A - reserve, and HR_cycle + E within the account's share, in this cycle and for what reaches the next |
| Admission.NextCycleBeginsWithinLimits | src/hw_radar/acquisition/apify/budget.py:780-806 | What a cycle lets reach the next one is a book within every limit there, so the promise carries from cycle to cycle |
| Admission.SettlementIsTheMaximum | src/hw_radar/acquisition/apify/budget.py:633-639 | No observation lowers an envelope's settlement, and every one is covered |
| Masking.OpenParenDepth | src/hw_radar/matching/normalize.py:313-320 | The loop computes the clamped depth |
| Masking.SpanEnd | src/hw_radar/matching/normalize.py:323-354 | The scan stops where the specification says |
| Masking.MaskReferenceSpans | src/hw_radar/matching/normalize.py:357-403 | The loop terminates and equals the recursive mask |
| Masking.MaskingOnlyBlanks | src/hw_radar/matching/normalize.py:376-378 | The length is kept and a character changes only to a space, only inside a span |
| Masking.MatchesAreCovered | src/hw_radar/matching/normalize.py:394-403 | Every reference phrase of the title starts inside a span |
| Masking.MatchedExactlyWhen | src/hw_radar/matching/normalize.py:182-200 | A reference is exactly a listed phrase standing as whole words, or a leading word at the very start without an excluded word after it |
| Masking.ReferenceIsBlanked | src/hw_radar/matching/normalize.py:357-403 | Everything from a reference on is blanked up to the next separator or parenthesis |
| Masking.SpanGoesOnExactlyWhile | src/hw_radar/matching/normalize.py:323-354 | A span goes on exactly until it first ends, groups opened inside it being skipped whole |
| Masking.NothingIsLeft | src/hw_radar/matching/normalize.py:357-403 | No reference phrase or leading word matches anywhere in the output |
| Masking.MaskingIsIdempotent | src/hw_radar/matching/normalize.py:357-403 | Masking twice equals masking once |
| Masking.SpanStopsAtClosedBoundary | src/hw_radar/matching/normalize.py:323-354 | A boundary at depth zero stops every span that starts before it |
| Masking.AfterSeparatorSurvives | src/hw_radar/matching/normalize.py:323-354 | What follows a comma, semicolon, bar or spaced hyphen outside every group is untouched when no reference follows |
| Masking.AfterGroupSurvives | src/hw_radar/matching/normalize.py:340-354 | What follows the group all references stand in is untouched, its closing parenthesis included |
| Masking.UnclosedGroupRunsOn | src/hw_radar/matching/normalize.py:347-354 | A span whose group is never closed runs to the end of the text |
| Masking.LabelIsNeverMasked | src/hw_radar/matching/normalize.py:270-294 | With the title's groups closed before the boundary, a phrase-free condition label is never masked |
| Masking.RegisteredPatternsAreWellFormed | src/hw_radar/matching/normalize.py:52-122 | Every registered pattern has the shape the masking theorems ask for |
| Resolution.SameFingerprintExactlyWhen | src/hw_radar/matching/resolver.py:494-543 | Two reviews have one fingerprint exactly when they name the same fields, family, reason keys and product |
| Resolution.ListingLedger.Append | src/hw_radar/matching/resolver.py:1389-1408 | Demote, insert, link: no statement leaves two current edges |
| Resolution.ListingLedger.Apply | src/hw_radar/matching/resolver.py:1274-1434 | The in-place statements leave the state the functional verdict names; what that state is, is Resolution.AppendsExactlyWhen and Resolution.VerdictTakesEffect |
| Resolution.AppendsExactlyWhen | src/hw_radar/matching/resolver.py:1274-1434 | A verdict appends exactly when the current edge does not already say it, and the whole new state is stated either way |
| Resolution.VerdictTakesEffect | src/hw_radar/matching/resolver.py:1394-1434 | After any history a valid verdict takes effect: an accept above rung zero points the listing at its target, a review or miss clears it, an error changes neither |
| Resolution.LedgerIsOneChain | src/hw_radar/matching/resolver.py:1389-1408 | After any sequence of verdicts exactly one edge is current and superseded_by links all into one chain ending at it |
| Resolution.EdgesKeepTheirContent | src/hw_radar/matching/resolver.py:1274-1434 | The ledger is append-only: a verdict adds at most one edge and changes no earlier decision |
| Resolution.DenormIsTheNewestDecision | src/hw_radar/matching/resolver.py:1409-1434 | The denormalized target is that of the newest non-error edge, empty after a review or a miss |
| Resolution.RepeatAppendsExactlyWhen | src/hw_radar/matching/resolver.py:1290-1374 | Repeating a verdict appends exactly for a reconsidered accept of a rung above zero; a review, miss or error never |
| Resolution.CleanAcceptSupersedesError | src/hw_radar/matching/resolver.py:1287-1295 | A clean accept after an error supersedes it |
| Currency.LatestSnapshots | src/hw_radar/eligibility/service.py:90-98 | One pass finds every listing's newest snapshot |
| Currency.LatestIsNewest | src/hw_radar/eligibility/evaluate.py:697-699 | The newest snapshot is the listing's own and none of its others is later |
| Currency.CurrentEdges | src/hw_radar/eligibility/service.py:101-111 | One pass finds every listing's current edge |
| Currency.CurrentEdgeIs | src/hw_radar/eligibility/evaluate.py:701-711 | The current edge is the listing's own edge still marked current, absent exactly when it has none |
| Currency.FamilyIs | src/hw_radar/eligibility/evaluate.py:713-716 | A model's family is its own row's, absent when it has no row |
| Currency.MembersAre | src/hw_radar/eligibility/evaluate.py:726-734 | A family's members are exactly the models whose row names it |
| Currency.MakePlans | src/hw_radar/eligibility/service.py:126-173 | Every listing gets its plan, none where the inputs are refused |
| Currency.FillPlans | src/hw_radar/eligibility/service.py:175-187 | Family members are filled in per family, shared families included |
| Currency.ReadSpecs | src/hw_radar/eligibility/service.py:189-201 | One read per category returns the wanted models' specs and no others |
| Currency.MembersIgnoreOrder | src/hw_radar/eligibility/service.py:180-187 | The order the model rows are read in does not change a family's members |
| Currency.MembersAreSpecified | src/hw_radar/eligibility/evaluate.py:664-676 | The members are the given models in ascending order, each with what its category's satellite states of it |
| Currency.GatherReads | src/hw_radar/eligibility/evaluate.py:718-752 | The catalog inputs by grain, and exactly where they are refused |
| Currency.LiveInputs | src/hw_radar/eligibility/service.py:155-218 | Listing by listing the batched inputs are what the simple form reads, with none exactly where it raises |
| Currency.BatchedDecisionIsSimple | src/hw_radar/eligibility/evaluate.py:776-802 | The batched decision of one row is is_current's, a raised error reading as not current |
| Currency.CurrentExactlyWhen | src/hw_radar/eligibility/evaluate.py:776-802 | A row is current exactly when its five stored values are the live ones: newest snapshot, current edge, watch version, evaluator version and catalog inputs |
| Currency.DecideCurrency | src/hw_radar/eligibility/service.py:265-283 | For every database state and set of rows row_currency says current exactly when is_current would; the stale fields are exactly those that differ |

## Left out

- The clock is read once per transaction; the source reads it again for each record.
- Listing row ids and their order, url_hash, raw payload storage, and FX and stock normalisation: an offer is carried verbatim.
- SQL isolation, row locks, lock order and SQLSTATE retry: each transaction body is one atomic step, and running out of retries is a choice of the environment.
- The site-wide ScraperRun predecessor of the NULL scope is a parameter of each absence transaction; the NULL-scope theorems assume of it only Continuity.RunTableHonest, that a successful FULL run is listed after its own absence transaction and started no later than that transaction's event time.
- The retention sweeper, so snapshots are only ever added.
- OrderIndependence.GuardsAddUp: for histories whose delisting sweeps of the key's scope are complete (stale sweeps are the subject of Continuity), for keys that name one scope or, once they have a row, none (a key that moves is order-sensitive: OrderIndependence.MovedKeyIsOrderSensitive), and for a NULL scope only with a FULL lane, which alone keeps its watermark.
- SiteStore.Site.DelistOne: does not pull forward the expiry of watch-evaluation rows, which the evaluator owns and no modelled guard reads.
- Units.ProviderRun.Stage2: counts its absence commit; ImportedSite.SweepOf is the site transaction it stands for.
- Units.ProviderRun.RejectRun: counts its outcome; ImportedSite.BreakOf is the continuity break it stands for, and the failure fields of the ScraperRun are not kept.
- Units.ProviderRun.Stage5: the run's status fields and detail are not kept, only its lifecycle event.
- ImportedSite.ImportsShowTheSame: takes it from row admission (RowBound.ValidRowsAreNeverOverCap) that every usable row names the run's own scope.
- Truncation reasons and reason texts inside provider evidence, and aggregate_local_evidence.
- The 402 start refusals in trip_stranded_latches and the start job itself: a start mismatch and a recorded start are actions of the environment.
- The counts inside stage_detail, backoff times and log lines.
- The latch trips for an over-cap dataset or OUTPUT record: the latch is an environment flag.
- HTTP headers, redirects and content decoding in the collector: a response is refused, or a sequence of reads with an ending; and how a source listing becomes a row, which is a valid row or none.
- Collector.Collect: assumes a network read delivers at most HTTP_READ_CHUNK_BYTES, which the pinned HTTP library guarantees.
- Every schema rule of an OUTPUT record beyond its version, its counts and the number of its errors.
- Reason details of the classifier: only the reason code is modelled.
- Decimal context rounding and the floating-point ceiling in pages_per_read: amounts are exact reals and the ceiling is exact.
- Budget.EstimateCoversEveryRun: compute seconds, wire overhead per request and storage lifetime are limits of the platform, taken as given in WithinCaps.
- Admission.AdmissionsStayWithinLimits: a fixed configuration and fixed carried handoffs; Admission.NextCycleBeginsWithinLimits also needs the next handoff to be no larger.
- The year-9999 overflow of datetime, and conversion to UTC.
- Escaped characters in property names of a serialized row: the schema's names are plain ASCII.
- Unicode folding, boilerplate removal, noise stripping and title canonicalization before masking; Masking works on the canonical text, whose only whitespace is the space.
- The ladder, the materialization of an accepted target and learned aliases: Resolution takes the verdict and its target as given.
- The catalog fingerprint's hash and JSON form: Currency compares the catalog inputs themselves.
- HTTP, scheduling, source adapters, settings parsing, dead-man push, web and admin.
