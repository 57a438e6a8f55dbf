# Versioned registry and build engine, modelled and proved

kb-builder keeps a registry of sources, knowledge artifacts and edges. Every artifact and
edge row carries the sequence number of the build that introduced it and, once it has left,
the number of the build that took it out; version S consists of the rows introduced at or
before S that have not left at or before S. A build allocates a sequence number, commits
its sources one by one, and then moves the registry forward in one finalize transaction:
linker, judge, invalidation pass (renames, deletions, superseded generations, ACL), alias
miner, ledger miner. Publish gates then decide whether the new version is served.

The files follow that structure:

- `Registry` holds the tables, interval membership and what "the past is frozen" means;
  its class `Store` is the database every step writes to.
- `Invalidation`, `PassProperties`, `PassFates`, `InvalidationRun`: the invalidation pass as
  functions on the tables, its properties, what becomes of each single row, and the pass as
  it runs, loop by loop, on the store.
- `LinkEdges`, `LinkFates`, `LinkKeys`: the linker's and the judge's reconcile of their edges,
  row by row, and the unique indexes on them.
- `AliasReplay`, `AliasRows`, `AliasEdges`, `AliasAggregates`, `AliasIndex`, `AliasOutcome`,
  `AliasRun`, `AliasLedger`, `AliasFate`, `AliasFacts`: the two owners of the alias index, and
  what its rows and edges say.
- `BuildMachine`, `BuildRuns`, `FinalizeKeys`, `Engine`, `GhostRuns`: the finalize as a
  composition, and every run of starts, commits, touches, crashes and finalizes, of which
  some raise and are rolled back.
- `Builders`: any number of builds under way at once, each a step of the engine at a time.
- `Documents`, `CodeTrees`, `SourceFates`, `Incremental`, `FromScratch`, `DocumentRuns`,
  `BuildRunner`: the source loop with its cache and roll backs, the code trees repository by
  repository, what becomes of each item and file, incremental builds against building from
  scratch, and every listing and history as a run of the engine.
- `Activation`, `PublishGates`, `Fence`, `PaidWork`: the served version, the gates, the
  concurrent-writer fence, and paid model calls over crashes.
- `PageRank`, `PageRankLimit`, `PageRankRun`, `TieredContext`, `Grounding`, `AliasMining`,
  `AliasResolve`, `CodeSkeleton`, `CommitText`: the smaller algorithms.
- `Departures`, `DepartureRuns`, `DepartureBuilds`: when the build departs from its own
  comments, and runs from the empty registry on which it does.

Code that updates rows or local collections in place is a method on a class or a loop with
invariants, proved equal to a function of the old state; the properties are then lemmas
about that function. For the main operations these lemmas say what becomes of each single
row, in terms of the columns and inputs alone and with the constants written out.

Where the code and its comments or documents disagree, the model follows the code:

- `docs/contracts/version-membership.md:35-39` says that leaving is a one-time transition.
  The linker and the judge clear the mark again for every edge they draft
  (`linker/write_edges.py:86-96`), and the linker loads invalidated artifacts too
  (`linker/run.py:60-77`). So a finalize keeps the past exactly when no draft names an edge
  an earlier build had taken out (`FinalizeFreezesPastIff`, and `LinkerRevivesSupersededEdge`
  for an input where it does not).
- Rename reattachment rewrites endpoints of edges older versions contain, and a source
  renamed away leaves its unmatched artifacts live, although `invalidation.py:272-274`
  leaves them to the deletion sweep (`RenameRewritesPastAndLeavesBehind`,
  `VanishedSourcesKeepLeftovers`). The citation gate then blocks the build (`PassDangling`).
- `invalidation.py:358-359` tolerates duplicate edges after a repoint. That holds for code
  edges; linker and judge edges are under unique indexes that bind rows which have left
  too (`knowledge_edge.py:64-82`). A mention of a symbol whose file moved is drafted onto
  both identities, the rename moves one onto the other, and the whole finalize raises
  (`MovedMentionRaises`; `RenamesRaiseIff` says exactly when).
- An edge of the judge onto a ledger alias outlives the alias: the ledger pass comes last
  and sweeps no edges, so the edge gate blocks the build
  (`JudgeEdgeIsStranded`; `FinalizeGhostFreeIff` says exactly when).
- A code tree whose graphify fails leaves all its files unseen, changed or not, and the
  deletion sweep takes those last recorded before the build (`FailedTreeDeletedIff`, and
  `FailedTreeIsDeleted` for a run).
- A crash between a source's commit and the finalize advances the stored hash, so the next
  build only touches the source, although `build_runner.py:193-194` expects it to finish the
  work. It does so exactly for sources that had no artifact before (`CrashRepairedIff`, and
  `CrashedPageIsDoubled` for a run after which both generations are live).
- The document cache key names no source, so a document that moved with its text unchanged
  ends with no artifact at all (`MovedTextIsLost`, and `MovedPageIsLost` for a run); a deleted
  source that comes back with the same text is only touched (`UpToDateIff`, the case of a
  touched item).
- A failing source rolls back the touches of the unchanged sources right before it, access
  changes included (`FailureLosesTouch` says exactly when, `RevocationIsLost` is a listing).
- The concurrent-writer fence compares transaction begin times, so a writer that began
  before a builder and committed after the builder's start is swept (`LateCommitIsSwept`);
  so is a source recorded between the sweep's SELECT and its UPDATE
  (`RecordedWhileSweeping`; `MarkingBreaksFenceIff` says exactly when).
- The builder lock lives on a connection of its own: a builder that loses it while running
  on can publish an older run over a younger one (`LostLockServesBackwards`; `StepsBackIff`
  says exactly when), and what it commits joins the version a younger build has completed,
  although `builder_lock.py:3-8` counts on the fence and the run row to neutralise such
  damage (`OvertakenBuildChangesVersion`; `CommitMovesVersionIff`).
- The gates look a run up by its version label, not its id (`GatesSeeTheRunIff`), and take no
  baseline when the active run has the same label (`NoBaselineIff`).
- The reported tokens of a packed context include the item that did not fit
  (`PackedWithinBudget` says exactly when the report is the cost of what was packed).
- A changed-file path in decomposed Unicode form does not come back from a commit's text
  as git listed it (`ReadCommitRoundTripsIff`).

## Model
| member | source | states |
|---|---|---|
| Registry.FrozenSets | services/kb-builder/src/agentic_kb_builder/application/publish_gates.py:123-135 | A registry frozen below a sequence number has, at every version below it, the same set of member artifacts and the same set of member edges |
| Registry.KeptPastIsFrozen | docs/contracts/version-membership.md:28-47 | If rows keep their introduction and anything earlier than build n about their leaving, and new rows start at n, no version before n changes |
| Invalidation.RenamesAreValid | services/kb-builder/src/agentic_kb_builder/application/invalidation.py:244-340 | Detected renames lead from live rows of vanished sources to rows of this build elsewhere with equal content, and no row takes part in two |
| Invalidation.SharedContentIsLinked | services/kb-builder/src/agentic_kb_builder/application/invalidation.py:244-340 | Detection is complete: a content shared by a vanished live row and a fresh row elsewhere is linked, by exactly one rename |
| Invalidation.RenamedEdgesInOneStep | services/kb-builder/src/agentic_kb_builder/application/invalidation.py:343-388 | Reattaching edges rename after rename, column after column, amounts to one simultaneous substitution of endpoints, with self-loops and collapsing pairs invalidated; whether some statement raises first is RenamesRaiseIff |
| Invalidation.RenamedArtifactsInOneStep | services/kb-builder/src/agentic_kb_builder/application/invalidation.py:300-330 | All renames together change artifacts only by taking the old identities out at this build and by the history link |
| Invalidation.RenamedSourcesInOneStep | services/kb-builder/src/agentic_kb_builder/application/invalidation.py:327-329 | Exactly the sources renamed away are marked deleted; the cache is untouched |
| Invalidation.RenamesLinkHistory | services/kb-builder/src/agentic_kb_builder/application/invalidation.py:301-306 | After all renames every new identity still carries the link to the identity it replaces |
| PassProperties.PassApplies | services/kb-builder/src/agentic_kb_builder/application/invalidation.py:76-140 | For every pass that does not raise, the composition of fence, renames, deletion, supersession and ACL is one row-level effect: three disjoint sets of retired rows, one substitution of endpoints, one sweep of edges, vanished sources marked |
| PassProperties.PassFreezesPast | services/kb-builder/src/agentic_kb_builder/application/invalidation.py:76-140 | The pass changes the members of no version before its own |
| PassProperties.PassEndpointsFrozenIff | services/kb-builder/src/agentic_kb_builder/application/invalidation.py:343-388 | Earlier versions keep the endpoints of their edges exactly when no edge introduced earlier is rewritten by a rename |
| PassProperties.PassGhosts | services/kb-builder/src/agentic_kb_builder/application/invalidation.py:295-436 | The pass creates no edge with a dead endpoint, and of those that existed it removes exactly those touching a row it sweeps |
| PassProperties.PassKeepsNoGhosts | services/kb-builder/src/agentic_kb_builder/application/invalidation.py:295-436 | If every live edge joined two live artifacts before the pass, every live edge does after renames, deletion and supersession in sequence |
| PassProperties.PassConserves | services/kb-builder/src/agentic_kb_builder/application/invalidation.py:94-123 | The drop in live artifacts is the number of renames plus deleted plus superseded artifacts, and nothing else died or came back |
| PassProperties.PassIsIdempotent | services/kb-builder/src/agentic_kb_builder/application/invalidation.py:76-140 | A second pass at the same sequence with the same inputs does not raise and changes no row, in whatever order rows arrive |
| PassProperties.VanishedSourcesKeepLeftovers | services/kb-builder/src/agentic_kb_builder/application/invalidation.py:104-108 | After the pass a vanished source has a live artifact exactly when it was renamed away and that artifact was not matched |
| PassFates.SourceFate | services/kb-builder/src/agentic_kb_builder/application/invalidation.py:391-436 | Source by source: unseen, not deleted and last recorded before the start, it is marked deleted; nothing else of any source changes |
| PassFates.RenamedIff | services/kb-builder/src/agentic_kb_builder/application/invalidation.py:244-340 | An artifact is renamed to another exactly when each is the first row of its SELECT to hold their common content |
| PassFates.RowFate | services/kb-builder/src/agentic_kb_builder/application/invalidation.py:76-140 | Artifact by artifact: it leaves at this build exactly when it was renamed away, or is a live row of a vanished source that no rename took, or an earlier row of a changed one; a new identity is linked to the one it replaces; a live row of a listed source has the access list of its source, and every other row the one it had |
| PassFates.EdgeFate | services/kb-builder/src/agentic_kb_builder/application/invalidation.py:343-436 | Edge by edge: the ends of a live one follow the renames; it leaves exactly when that would join a renamed artifact to itself or when one of its ends leaves in the same pass |
| PassFates.MappingFate | services/kb-builder/src/agentic_kb_builder/application/invalidation.py:437-447 | The cache keeps its keys and loses exactly the identities of deleted artifacts |
| InvalidationRun.VanishedLiveSources | services/kb-builder/src/agentic_kb_builder/application/invalidation.py:193-233 | The query and its count: vanished are the unseen live sources recorded before the build started, skipped are the other unseen live ones |
| InvalidationRun.ReattachEdges | services/kb-builder/src/agentic_kb_builder/application/invalidation.py:343-388 | Per column a loop statement and a move statement: raises exactly when a moved row meets the key of another linker or judge row, and otherwise leaves every edge as one reattachment says; the count is that of the live edges from, and then of those to, the old identity |
| InvalidationRun.DetectRenames | services/kb-builder/src/agentic_kb_builder/application/invalidation.py:244-340 | The loop over fresh rows raises exactly when some rename of the specified sequence does, and otherwise performs exactly these renames, in order, and reports their number, the renamed sources and the edge ends moved |
| InvalidationRun.DeletionSweep | services/kb-builder/src/agentic_kb_builder/application/invalidation.py:391-447 | Sources marked, their live artifacts and the edges touching them invalidated, caches retired; the counts are the sources newly marked and the rows that left |
| InvalidationRun.SupersessionSweep | services/kb-builder/src/agentic_kb_builder/application/invalidation.py:143-190 | Exactly the live rows of changed sources from before this build leave, with their edges |
| InvalidationRun.PropagateAcl | services/kb-builder/src/agentic_kb_builder/application/invalidation.py:475-516 | A live row of a listed, known source gets the access list of its source, every other row keeps its own; the counts are the rows whose list changed and their sources |
| InvalidationRun.RunInvalidationPass | services/kb-builder/src/agentic_kb_builder/application/invalidation.py:76-140 | The whole imperative pass raises exactly when the renames put two rows on one key; otherwise it refines its specification, freezes the past, keeps keys unique, and reports the sources marked, the rows that left, the rows whose access list changed and their sources, and counts that add up to the drop in live artifacts |
| LinkEdges.UpsertSatisfies | services/kb-builder/src/agentic_kb_builder/linker/write_edges.py:37-115 | Every draft ends up as a live row, whichever drafts share its key |
| LinkEdges.LinkedFreezesPastIff | services/kb-builder/src/agentic_kb_builder/linker/write_edges.py:37-186 | The edge reconcile keeps all earlier versions exactly when no draft names an edge an earlier build had invalidated |
| LinkEdges.LinkedNoGhostsIff | services/kb-builder/src/agentic_kb_builder/linker/write_edges.py:37-186 | From a registry where live edges join live artifacts, the reconcile leaves one exactly when every draft joins two live artifacts |
| LinkEdges.WriteLinkEdges | services/kb-builder/src/agentic_kb_builder/linker/write_edges.py:37-186 | From unique keys, the upsert loop and the sweep of stale edges do to the table what the specification says and leave keys unique; inserted is the growth of the table, inserted plus refreshed the number of drafts, and invalidated the number of live edges that left |
| LinkFates.ReconciledRow | services/kb-builder/src/agentic_kb_builder/linker/write_edges.py:37-186 | Row by row: drafted, it is live and shows the last draft of its key, except that the judge keeps its confidence; undrafted, it leaves at this build exactly when the batch sweeps, it is a live edge of the producer, and it is not a protected kind without evidence; otherwise it is as it was |
| LinkFates.ReconciledInsert | services/kb-builder/src/agentic_kb_builder/linker/write_edges.py:37-115 | A row that is added is live, starts at this build, has a drafted key no row had before, and shows the last draft of it; the judge shows the confidence of the first |
| LinkFates.ReconciledLiveIff | services/kb-builder/src/agentic_kb_builder/linker/write_edges.py:37-186 | An edge of the producer is live afterwards exactly when its key is drafted, or it was live and the batch does not sweep or it is of a protected kind and has no evidence; one no longer live left at this build or before |
| LinkFates.LinksAreCurrent | services/kb-builder/src/agentic_kb_builder/application/build_runner.py:406-479 | When the pass starts, the live linker edges are those drafted and those spared, the live judge edges likewise, and other edges are as they were |
| LinkEdges.LinkedKeepsKeys | services/kb-builder/src/agentic_kb_builder/infrastructure/postgres/models/knowledge_edge.py:64-82 | A reconcile of linker or judge edges keeps every (from, to, kind) key of its producer unique, live and gone rows together |
| LinkEdges.OneConflict | services/kb-builder/src/agentic_kb_builder/linker/write_edges.py:80-95 | So at most one row conflicts with a draft, and an upsert refreshes that one |
| LinkKeys.RenamesKeepKeysIff | services/kb-builder/src/agentic_kb_builder/infrastructure/postgres/models/knowledge_edge.py:64-82 | From unique keys, all renames together leave them unique exactly when no live linker or judge edge they move lands on the key of another row of its producer, live or gone |
| LinkKeys.RenamesRaiseIff | services/kb-builder/src/agentic_kb_builder/application/invalidation.py:343-388 | Checked row by row, some UPDATE of some rename violates an index exactly under that condition on the rows before the pass |
| LinkKeys.PassKeepsKeysIff | services/kb-builder/src/agentic_kb_builder/application/invalidation.py:76-140 | The whole pass keeps the keys unique exactly when its renames do not clash |
| AliasReplay.WatermarkIsFaithful | services/kb-builder/src/agentic_kb_builder/alias/run.py:326-362 | The fold over stored entries keeps a source exactly when all its entries agree on one hash, and then with its complete phrase map; an A, B, A pattern stays poisoned |
| AliasReplay.ReplayEqualsMining | services/kb-builder/src/agentic_kb_builder/alias/run.py:121-150 | Over faithfully stored rows, skipping unchanged sources yields the same contributions in the same order as mining all of them |
| AliasReplay.ContributionIs | services/kb-builder/src/agentic_kb_builder/alias/run.py:121-150 | Whatever is stored, a source all of whose entries were mined at its present hash contributes every phrase they name with stored targets, and any other source what mining it yields |
| AliasReplay.WrittenRowsAreWatermarked | services/kb-builder/src/agentic_kb_builder/alias/run.py:455-477 | Rows written from mined contributions are again faithful evidence for the next replay |
| AliasReplay.PriorExtractions | services/kb-builder/src/agentic_kb_builder/alias/run.py:326-362 | The nested loops over rows and entries compute that fold |
| AliasReplay.Contribute | services/kb-builder/src/agentic_kb_builder/alias/run.py:121-150 | The loop over inputs replays or mines each; skipped are exactly the inputs the watermark holds at their present hash |
| AliasRows.WantedIsLive | services/kb-builder/src/agentic_kb_builder/alias/run.py:480-574 | After the reconcile every wanted phrase has a live row holding the wanted body, the id the edge pass is given |
| AliasRows.LiveRowIsTheOne | services/kb-builder/src/agentic_kb_builder/alias/run.py:480-574 | A live row of a wanted phrase is that one row; a live row of another phrase is untouched and survives only outside the index or as a spared ledger row |
| AliasRows.ReconciledKeepsPast | services/kb-builder/src/agentic_kb_builder/alias/run.py:539-562 | Revivals and sweeps of the reconcile leave every earlier version and every other kind of row alone |
| AliasRows.Reconcile | services/kb-builder/src/agentic_kb_builder/alias/run.py:480-574 | The upsert loop and the sweep refine the row specification; inserted is the growth of the table, invalidated the number of live rows that left |
| AliasEdges.EdgesAreExact | services/kb-builder/src/agentic_kb_builder/alias/run.py:577-672 | Whatever duplicates were loaded, the live miner edges are in bijection with the desired pairs and carry the desired facts |
| AliasEdges.EdgesKeepPast | services/kb-builder/src/agentic_kb_builder/alias/run.py:629-653 | Other producers' edges are the same rows after; no edge leaves or joins an earlier version |
| AliasEdges.EdgeFate | services/kb-builder/src/agentic_kb_builder/alias/run.py:615-672 | Edge by edge: of the loaded edges of a desired pair the first is kept under its identity with the desired facts, every other loaded one is gone at this build, the rest is as it was, and an edge is added only for a desired pair no loaded edge had |
| AliasEdges.ReconcileEdges | services/kb-builder/src/agentic_kb_builder/alias/run.py:577-672 | The loop over loaded edges and the inserts refine the edge specification; the counts are the growth of the table and the live edges that left |
| AliasAggregates.TargetsAreConfirmed | services/kb-builder/src/agentic_kb_builder/alias/mining.py:329-389 | Every ranked target is confirmed by at least one and at most all of the phrase's sources |
| AliasAggregates.AnchorAlwaysFound | services/kb-builder/src/agentic_kb_builder/alias/run.py:503-512 | A phrase some source yields always has an anchor among the live inputs: the branch for a missing one is dead |
| AliasAggregates.DesiredEdgesAreSound | services/kb-builder/src/agentic_kb_builder/alias/run.py:593-612 | Every desired edge joins an alias row of this build to a resolved target, with confidence in (0, 1]; PairsAreRanked has the converse |
| AliasIndex.LoadedIndex | services/kb-builder/src/agentic_kb_builder/alias/run.py:285-323 | After loading there is at most one live row per title, the indexed one, and no earlier version changed |
| AliasIndex.LoadedItemsAreStored | services/kb-builder/src/agentic_kb_builder/alias/run.py:285-362 | The evidence the watermark folds over is all the evidence the registry stores in live or just-invalidated rows |
| AliasIndex.StageReplaysFaithfully | services/kb-builder/src/agentic_kb_builder/alias/run.py:121-150 | The stage's contributions equal mining every live source afresh |
| AliasIndex.StageReplayedIff | services/kb-builder/src/agentic_kb_builder/alias/run.py:121-150 | The stage skips a source exactly when some loaded row names it and every entry of a loaded row that does was mined at its present hash |
| AliasIndex.StageFreezesPast | services/kb-builder/src/agentic_kb_builder/alias/run.py:112-209 | The whole alias stage changes the members of no earlier version |
| AliasOutcome.StageOneLive | services/kb-builder/src/agentic_kb_builder/alias/run.py:306-323 | At most one live row per phrase is left, whatever duplicates and same-build invalidations were loaded |
| AliasOutcome.StageRowsOutcome | services/kb-builder/src/agentic_kb_builder/alias/run.py:480-574 | Live rows of the miner after the stage are exactly the phrases mining all sources afresh yields, with their evidence |
| AliasOutcome.StageKeepsWatermark | services/kb-builder/src/agentic_kb_builder/alias/run.py:121-150 | Replay soundness passes from build to build through the stage |
| AliasOutcome.StageEdgesAreExact | services/kb-builder/src/agentic_kb_builder/alias/run.py:577-672 | After the stage the live miner edges stand one to one for the computed pairs |
| AliasOutcome.StageEdgeIsSound | services/kb-builder/src/agentic_kb_builder/alias/run.py:593-672 | Every live miner edge joins a live alias row to a live artifact of another kind, with confidence in (0, 1] |
| AliasFacts.EvidenceIs | services/kb-builder/src/agentic_kb_builder/alias/run.py:121-150 | The evidence of a phrase has one entry for each input that yields it, in their order, with its key, reference, hash and targets |
| AliasFacts.PairsAreRanked | services/kb-builder/src/agentic_kb_builder/alias/run.py:593-612 | A pair is desired exactly when some mined phrase has the row of its alias and one of the first 20 paths in its ranking resolves to its target; its confidence times the number of entries is the number of those naming the path, and its sources are the references of exactly these |
| AliasFacts.FinalizedAliasEdges | services/kb-builder/src/agentic_kb_builder/alias/run.py:577-672 | After every completed finalize there is a live miner edge from an alias to a target exactly in that case, only one, and it shows these facts |
| AliasFacts.FinalizedAliasRow | services/kb-builder/src/agentic_kb_builder/alias/run.py:480-574 | After every completed finalize a mined phrase has exactly one live row of the miner, which lists the first 50 paths of its ranking with their counts and what they resolve to, and all its entries, under the access list of these paths and on the source of the first entry |
| AliasRun.LoadPriorAliasRows | services/kb-builder/src/agentic_kb_builder/alias/run.py:285-323 | The loading loop keeps the first row of a title, takes out other live ones, and leaves one live row per title |
| AliasRun.AggregateContributions | services/kb-builder/src/agentic_kb_builder/alias/mining.py:329-389 | The grouping and counting loops compute the per-phrase aggregates of all contributions |
| AliasRun.ComputeDesiredEdges | services/kb-builder/src/agentic_kb_builder/alias/run.py:593-612 | The loops over aggregates and their ranked targets compute the desired pairs and their facts, which PairsAreRanked characterises |
| AliasRun.RunAliasMiner | services/kb-builder/src/agentic_kb_builder/alias/run.py:112-209 | The whole imperative miner refines the stage, keeps the past, leaves one row per phrase and exact edges; mined plus skipped is what it saw, inserted counts are the growth of the tables and invalidated counts the live rows and edges that left |
| AliasLedger.PriorStateIs | services/kb-builder/src/agentic_kb_builder/alias/ledger_mining.py:204-229 | With one live row per title the loaded state holds exactly the live titles, and exactly the ledger's own rows |
| AliasLedger.LedgerStageOutcome | services/kb-builder/src/agentic_kb_builder/alias/ledger_mining.py:255-361 | After the ledger pass the live ledger rows are exactly the resolved missed phrases no other owner covers, one row each; miner rows are untouched |
| AliasLedger.LedgerRowSays | services/kb-builder/src/agentic_kb_builder/alias/ledger_mining.py:255-361 | A live ledger row shows its miss group: the phrase, the days, the one target with count 1, the first and last miss and their number, under the access list and on the source of the target |
| AliasLedger.LedgerKeepsWatermark | services/kb-builder/src/agentic_kb_builder/alias/ledger_mining.py:232-252 | Ledger rows contribute nothing to a later replay, so the miner's evidence stays faithful |
| AliasLedger.LedgerFreezesPast | services/kb-builder/src/agentic_kb_builder/alias/ledger_mining.py:255-361 | The ledger pass changes the members of no earlier version |
| AliasLedger.RunLedgerMiner | services/kb-builder/src/agentic_kb_builder/alias/ledger_mining.py:255-361 | The loops over miss groups and prior rows refine the pass; the counts are the groups without a target, those whose phrase another owner has live, and the rows that left |
| AliasFate.MinerFate | services/kb-builder/src/agentic_kb_builder/alias/run.py:539-562 | Row by row, the miner leaves live exactly the loadable rows of mined phrases, the ledger rows, and other kinds as they were |
| AliasFate.LedgerFate | services/kb-builder/src/agentic_kb_builder/alias/ledger_mining.py:255-361 | Row by row, the ledger pass retires exactly its own live rows whose phrase no resolved miss names |
| BuildMachine.FinalizeStamps | services/kb-builder/src/agentic_kb_builder/application/build_runner.py:406-479 | Across the whole finalize rows only stay, come back or leave at this sequence, new ones start at it, and everything after the linking steps leaves the past alone |
| BuildMachine.JudgeRevivesTheSame | services/kb-builder/src/agentic_kb_builder/linker/judge.py:265-304 | What the judge revives from earlier builds does not depend on the linker having run before it |
| BuildMachine.FinalizeFreezesPastIff | services/kb-builder/src/agentic_kb_builder/application/build_runner.py:406-479 | A finalize keeps every earlier version exactly when neither linker nor judge drafts an edge an earlier build had invalidated |
| BuildRuns.FinalizeKeepsIndex | services/kb-builder/src/agentic_kb_builder/application/build_runner.py:449-456 | At every finalize, sweeps included, replay equals mining afresh, and the alias index is left fit for the next build |
| BuildRuns.FinalizedAliasIndex | services/kb-builder/src/agentic_kb_builder/application/build_runner.py:449-469 | After both alias passes: one live row per phrase, and live miner edges in bijection with the pairs of mining everything afresh, each with live endpoints and confidence in (0, 1] |
| BuildRuns.FinalizeEndpointsIff | services/kb-builder/src/agentic_kb_builder/application/build_runner.py:406-479 | A finalize that revives nothing keeps the endpoints older versions see exactly when its renames rewrite no earlier edge |
| FinalizeKeys.LinksAreReady | services/kb-builder/src/agentic_kb_builder/application/build_runner.py:415-437 | After linker and judge the keys are unique, edges join existing rows, and no linker or judge edge that has left touches a row of the running build |
| FinalizeKeys.FinalizeKeepsKeys | services/kb-builder/src/agentic_kb_builder/application/build_runner.py:406-479 | A finalize that completes keeps link keys unique and every edge of another producer on existing rows |
| Engine.RunKeepsInv | services/kb-builder/src/agentic_kb_builder/application/build_runner.py:187-240 | In every state of every run intervals are in order, every phrase has at most one live alias row, stored evidence is fit for replay, linker and judge keys are unique, and edges join existing rows |
| Engine.EmptyRegistry | services/kb-builder/src/agentic_kb_builder/application/build_runner.py:242-279 | The empty registry satisfies the invariant, so the run theorems hold from the first build on |
| Engine.RunFreezesPast | services/kb-builder/src/agentic_kb_builder/application/build_runner.py:187-240 | Over every run of starts, commits, touches, crashes and finalizes that complete or raise, a settled version keeps exactly its artifacts and edges, given that no finalize that completes drafts an edge an earlier build invalidated |
| Engine.RunKeepsEndpoints | services/kb-builder/src/agentic_kb_builder/application/build_runner.py:187-240 | If moreover no rename rewrites an earlier edge, settled versions keep the endpoints of their edges over every run |
| Builders.SettledVersionsStay | docs/contracts/version-membership.md:28-39 | Over every interleaving of any number of builds, a version below the numbers of all builds under way keeps exactly its members, whatever they commit, lose, rename, sweep or revive among alias rows, given that no finalize drafts an edge an earlier build invalidated |
| Builders.CommitMovesVersionIff | services/kb-builder/src/agentic_kb_builder/application/build_runner.py:371-388 | A commit of a build under way leaves the members of a version alone exactly when the build's number is greater or it adds no row |
| Builders.OvertakenBuildChangesVersion | services/kb-builder/src/agentic_kb_builder/application/builder_lock.py:1-24 | Two builds start, the younger finalizes, and the older goes on: what it commits becomes a member of the younger's version |
| GhostRuns.FinalizeFate | services/kb-builder/src/agentic_kb_builder/application/build_runner.py:438-469 | A row is live after a finalize exactly when it is no alias row and the pass left it live, its title is a phrase the live sources yield, or it is a ledger row whose miss resolves |
| GhostRuns.AliasPassGhosts | services/kb-builder/src/agentic_kb_builder/application/build_runner.py:449-469 | An edge is a ghost after the finalize exactly when, before the alias passes, it was a live edge of another producer with an end that does not survive them: decided by rows, mined phrases and misses |
| GhostRuns.FinalizeGhostFreeIff | services/kb-builder/src/agentic_kb_builder/application/build_runner.py:406-479 | A finalize leaves no live edge with a dead endpoint exactly when no live edge the pass leaves hangs on such an end, whatever was drafted |
| GhostRuns.FinalizeGhostFreeByTitles | services/kb-builder/src/agentic_kb_builder/application/build_runner.py:406-479 | From a ghost-free registry with drafts joining live artifacts, only titles count: every alias end of another producer must be a mined phrase or a ledger row whose miss resolves |
| GhostRuns.StrandedTouchesRetiredAlias | services/kb-builder/src/agentic_kb_builder/application/build_runner.py:449-469 | A stranded edge with two live ends hangs on an alias row whose title no source yields and no resolved miss keeps |
| GhostRuns.RunGhostFreeIff | services/kb-builder/src/agentic_kb_builder/application/build_runner.py:187-240 | No state of a run ever has a live edge with a dead endpoint exactly when the run starts without one and every finalize that completes strands nothing |
| Documents.ReplayedIff | services/kb-builder/src/agentic_kb_builder/application/build_runner.py:839-847 | An item is replayed from the cache exactly when its text was cached before the build or written earlier in the same listing, for whichever source |
| Documents.WorkIsSavedButTouches | services/kb-builder/src/agentic_kb_builder/application/build_runner.py:308-388 | At every point of the source loop the working transaction differs from the last commit at most in touches |
| SourceFates.ItemSources | services/kb-builder/src/agentic_kb_builder/application/build_runner.py:328-388 | An item writes at most its own source row: touched or failed only its access list and the time it was seen, recorded everything but identity and creation |
| SourceFates.ItemArtifacts | services/kb-builder/src/agentic_kb_builder/application/build_runner.py:328-388 | Only an item that is written adds artifacts, one row per draft under its own identities, and no item changes a row |
| SourceFates.ItemCommits | services/kb-builder/src/agentic_kb_builder/application/build_runner.py:328-388 | What is committed with an item and what is counted: all but a touch commit, a failure counts, a written or replayed item is changed, and seen are all but failed ones the registry does not know |
| SourceFates.RecordedToTheEnd | services/kb-builder/src/agentic_kb_builder/application/build_runner.py:308-388 | A source written or replayed is on record, in the working transaction and in the last commit, to the end of the listing, whatever later items go through |
| SourceFates.FileFate | services/kb-builder/src/agentic_kb_builder/application/build_runner.py:684-735 | File by file: once any file changed, each of a tree that graphify can read is seen and changed, recorded if new and touched otherwise, and none of a failed tree is; when nothing changed all are touched and seen |
| SourceFates.SessionAfterTrees | services/kb-builder/src/agentic_kb_builder/application/build_runner.py:389-404 | In the builder's own sets and working tables: once some file changed every file of a readable tree is seen and changed with its row and all is committed, one of a failed tree is left alone and each failed tree counted; otherwise every file is seen and touched and waits for the next commit |
| SourceFates.TreeRows | services/kb-builder/src/agentic_kb_builder/application/build_runner.py:389-404 | The trees are written and committed exactly when some file changed, and then add the rows and edges of exactly the repositories that do not fail |
| Incremental.KeptOutcome | services/kb-builder/src/agentic_kb_builder/application/build_runner.py:549-585 | After a completed build, touched and failed sources have exactly the live artifacts they had before |
| Incremental.ChangedOutcome | services/kb-builder/src/agentic_kb_builder/application/build_runner.py:639-658 | A changed source keeps none of its earlier artifacts: replayed it has none at all, written it has one live row per extracted draft |
| Incremental.UnlistedOutcome | services/kb-builder/src/agentic_kb_builder/application/invalidation.py:94-110 | A source neither listed nor in a code tree that went through keeps what it had unless it vanished; then only the leftovers of a partial rename stay |
| FromScratch.CleanAfterIff | services/kb-builder/src/agentic_kb_builder/application/build_runner.py:815-891 | From a registry whose documents match their recorded contents, code trees beside them, a build leaves one exactly when no changed text came from the cache and no partial rename of a document left artifacts behind |
| FromScratch.UpToDateIff | services/kb-builder/src/agentic_kb_builder/application/build_runner.py:308-404 | From such a registry, a build of documents and code trees leaves every document exactly as building from scratch would if and only if every item and every unlisted document is fine, case by case |
| FromScratch.HistoryUpToDate | services/kb-builder/src/agentic_kb_builder/application/build_runner.py:308-404 | Over any history of builds of documents and code trees without those faults, after each build listed documents have exactly the artifacts of their current text, once each, and other documents none |
| FromScratch.CrashRepairedIff | services/kb-builder/src/agentic_kb_builder/application/build_runner.py:371-388 | What the build after a crash makes of a source listed with the same text: unless the item had failed it is only touched; a source written before the crash ends with the extraction of its text exactly when it had no artifact before, one touched or replayed exactly when it held it already; a failed item is processed again |
| DocumentRuns.ListingIsRun | services/kb-builder/src/agentic_kb_builder/application/build_runner.py:328-388 | Every listing is a run of commits and touches, one step an item, a roll back included |
| DocumentRuns.BuildIsRun | services/kb-builder/src/agentic_kb_builder/application/build_runner.py:187-240 | Every completed build is a run of the engine: start, listing, code trees, finalize |
| DocumentRuns.CrashIsRun | services/kb-builder/src/agentic_kb_builder/application/build_runner.py:371-404 | So is every build that crashes before its finalize, with its open touches rolled back |
| DocumentRuns.HistoryIsRun | services/kb-builder/src/agentic_kb_builder/application/build_runner.py:187-240 | Every history of builds under increasing numbers is a run, so what holds over all runs holds for it |
| DocumentRuns.ProcessingKeepsInv | services/kb-builder/src/agentic_kb_builder/application/build_runner.py:308-404 | Listing and code trees leave all that a finalize relies on: order, index, keys |
| DocumentRuns.HistoryKeepsInv | services/kb-builder/src/agentic_kb_builder/application/build_runner.py:187-240 | After every history intervals are in order, the alias index is sound and link keys are unique, whatever its documents and trees went through |
| BuildRunner.Runner.ProcessItem | services/kb-builder/src/agentic_kb_builder/application/build_runner.py:328-388 | One item: skipped and touched, committed, or rolled back and touched, with the seen and changed sets as specified |
| BuildRunner.Runner.ProcessSources | services/kb-builder/src/agentic_kb_builder/application/build_runner.py:308-404 | The source loop refines the fold over the listing, on the working and the committed state |
| BuildRunner.Runner.GraphifyRepo | services/kb-builder/src/agentic_kb_builder/application/build_runner.py:684-735 | One repository: a tree that fails is counted and none of its files is touched, seen or changed; of another every file is upserted or touched, seen and changed, and its rows and edges are added |
| BuildRunner.Runner.ProcessCode | services/kb-builder/src/agentic_kb_builder/application/build_runner.py:389-404 | After a change of any file every tree is written again and the result committed, even when every tree failed; otherwise all files are touched and wait for the next commit |
| BuildRunner.Runner.FinalizeGraph | services/kb-builder/src/agentic_kb_builder/application/build_runner.py:406-479 | The five steps in order raise exactly when the pass meets a unique index, and otherwise refine the finalize, freeze the past after the linking steps, and keep the keys |
| BuildRunner.Runner.RunBuild | services/kb-builder/src/agentic_kb_builder/application/build_runner.py:187-240 | A build completes exactly when its run row is there and the finalize does not raise; otherwise it keeps only its commits, and nothing is linked or swept |
| DepartureRuns.LinkerRevivesSupersededEdge | services/kb-builder/src/agentic_kb_builder/linker/run.py:60-77 | A run of three builds from the empty registry, the last without any change, after which settled version 2 has gained an edge, and that edge hangs on a dead artifact |
| DepartureRuns.RenameRewritesPastAndLeavesBehind | services/kb-builder/src/agentic_kb_builder/application/invalidation.py:376-386 | A run of two builds of a code tree after which version 1 sees another end of an edge, one it does not contain, and an unmatched symbol is live under a source marked deleted |
| DepartureRuns.MovedMentionRaises | services/kb-builder/src/agentic_kb_builder/application/invalidation.py:361-388 | A run of two builds whose second finalize raises because a mention of a moved symbol meets the unique index, and is rolled back entirely |
| DepartureRuns.JudgeEdgeIsStranded | services/kb-builder/src/agentic_kb_builder/application/build_runner.py:449-469 | A run of three builds from the empty registry: a missed search is mined, the judge draws an edge onto its alias, the search is forgotten; the alias is retired and the edge stays live on it, where before every edge joined live artifacts |
| Departures.MovedTextIsLost | services/kb-builder/src/agentic_kb_builder/application/cache_gates.py:33-53 | Every document moved with its text unchanged leaves both its old and its new source without artifacts |
| Departures.FailureLosesTouch | services/kb-builder/src/agentic_kb_builder/application/build_runner.py:328-388 | For every listing and every item only touched in it: its source counts as seen, and its row is as before the build exactly when the first later item that is not just touched fails, and otherwise the touched row |
| Departures.RevocationIsLost | services/kb-builder/src/agentic_kb_builder/application/build_runner.py:380-388 | A listing of two items after which a team whose access to an unchanged page was taken away still has it |
| Departures.FailedTreeDeletedIff | services/kb-builder/src/agentic_kb_builder/application/build_runner.py:702-710 | A known file of a tree that failed ends deleted exactly when it was deleted already, or some collected file of any repository had changed and it was last recorded before the build |
| DepartureBuilds.FailedTreeIsDeleted | services/kb-builder/src/agentic_kb_builder/application/build_runner.py:702-710 | A run of two builds from the empty registry: after a change of one file on which graphify raises, that file and an unchanged one, both listed, are marked deleted and have no artifact left |
| DepartureBuilds.MovedPageIsLost | services/kb-builder/src/agentic_kb_builder/application/cache_gates.py:33-53 | A run of two builds from the empty registry: a page is written, its text moves to another source, and no source has any artifact |
| DepartureBuilds.CrashedPageIsDoubled | services/kb-builder/src/agentic_kb_builder/application/build_runner.py:193-196 | A run of three builds from the empty registry, the second crashing before its finalize, after which a page has both generations live and not the extraction of its text |
| DepartureBuilds.ChangedPageIsUpToDate | services/kb-builder/src/agentic_kb_builder/application/build_runner.py:308-404 | A faultless history of two builds from the empty registry: a page is written and changed, and ends with exactly the extraction of its new text |
| Activation.LatestIsLatest | services/kb-builder/src/agentic_kb_builder/application/publish_gates.py:78-93 | The run the gates look up is a completed run of the label with the highest sequence number, and none only if there is none |
| Activation.GatesSeeTheRunIff | services/kb-builder/src/agentic_kb_builder/application/publish_gates.py:96-120 | The gates measure the run being activated exactly when no younger completed run shares its label |
| Activation.NoBaselineIff | services/kb-builder/src/agentic_kb_builder/application/publish_gates.py:154-167 | There is no baseline exactly when every active run carries the label under gate |
| Activation.ActivationKeepsOneActive | services/kb-builder/src/agentic_kb_builder/application/active_version.py:31-66 | At most one run is active after, some run is if one was, a run is promoted exactly when completed and accepted, and a refused one leaves the active row as it was |
| Activation.ActivationFate | services/kb-builder/src/agentic_kb_builder/application/active_version.py:31-66 | Run by run: refused, nothing changes; rejected, the failing gate is noted on the completed runs of the label and the run is marked failed; accepted, it is active, the one active before superseded, and no other changes |
| Activation.BaselineIs | services/kb-builder/src/agentic_kb_builder/application/publish_gates.py:154-167 | The one active run under another label is the baseline |
| Activation.RunTable.Validate | services/kb-builder/src/agentic_kb_builder/application/publish_gates.py:449-472 | The gate loop gives the verdict of the first failing gate, records that one, and runs none after it |
| Activation.RunTable.ActivateVersion | services/kb-builder/src/agentic_kb_builder/application/active_version.py:31-66 | The method does to the run table what activation specifies and keeps a single active run |
| Activation.PublishMovesForward | services/kb-builder/src/agentic_kb_builder/application/builder_lock.py:48-88 | While whoever is inside holds the lock, the gates measure the very run being activated, and every active run is older than it |
| Activation.OneRunStaysActive | services/kb-builder/src/agentic_kb_builder/application/active_version.py:31-66 | In every interleaving of processes, locks lost or not, at most one run is active and an active one never disappears |
| Activation.ServedVersionNeverGoesBack | services/kb-builder/src/agentic_kb_builder/build.py:300-325 | In every interleaving in which no lock is lost the served sequence number never decreases |
| Activation.LostLockServesBackwards | services/kb-builder/src/agentic_kb_builder/application/builder_lock.py:54-60 | An interleaving in which a builder that lost its lock serves sequence number 1 after 2 was served |
| Activation.StepsBackIff | services/kb-builder/src/agentic_kb_builder/application/active_version.py:31-66 | From any state the invariant holds in, lock or no lock, an action moves the served number back exactly when it is an accepted publication of a run younger than which another is active |
| PublishGates.GatesAcceptIff | services/kb-builder/src/agentic_kb_builder/application/publish_gates.py:449-497 | The composed hook accepts a run its label leads to exactly when, in its own version, the index is consistent, at most one file failed for 99 extracted, the symbols are within a quarter of the baseline (or waived), every artifact with a body has a known source that is not deleted, every edge has one of the listed kinds and joins two members, and every linker edge has evidence; and it never raises |
| PublishGates.RejectionIsNamed | services/kb-builder/src/agentic_kb_builder/application/publish_gates.py:449-497 | The first of these conditions that fails gives the rejection its gate name |
| PublishGates.GatesAreNamed | services/kb-builder/src/agentic_kb_builder/application/publish_gates.py:250-379 | Each gate measures the number of offending rows: dangling citations, edges of other kinds plus edges with a missing end, linker edges without evidence |
| PublishGates.FinalizeKeepsListed | services/kb-builder/src/agentic_kb_builder/application/publish_gates.py:295-303 | From a registry of listed kinds, with linker and judge drafts of listed kinds, a finalize leaves only listed kinds, the miner's own among them |
| PublishGates.MembersAreLive | services/kb-builder/src/agentic_kb_builder/application/publish_gates.py:123-135 | At the build's own sequence number the members are exactly the live rows |
| PublishGates.GateCountsGhosts | services/kb-builder/src/agentic_kb_builder/application/publish_gates.py:304-318 | So the edge gate's ghost count is the set of live edges with a dead endpoint |
| PublishGates.FinalizePassesGhostGateIff | services/kb-builder/src/agentic_kb_builder/application/publish_gates.py:282-331 | The gate counts no ghost at the build's own sequence exactly when the finalize strands nothing |
| PublishGates.PassDangling | services/kb-builder/src/agentic_kb_builder/application/publish_gates.py:250-279 | From a registry without dangling citations the pass leaves exactly those of the unmatched artifacts of renamed sources |
| Fence.RunKeepsInv | services/kb-builder/src/agentic_kb_builder/application/build_runner.py:264-272 | In every interleaving of transactions that record any number of sources, a source's stamp is the begin time of its last recording, no start or transaction lies in the future, and what a sweep selected lay before the builder's start |
| Fence.SweepSparesLaterWriters | services/kb-builder/src/agentic_kb_builder/application/invalidation.py:193-233 | A sweep marks exactly what it selected: none of it seen by the builder, all of it last recorded, as of the selection, before the builder's start |
| Fence.SurvivesSweepIff | services/kb-builder/src/agentic_kb_builder/application/invalidation.py:193-233 | A recorded source is passed over by the selection exactly when the builder saw it, it was deleted already, or its last recording began at or after the start |
| Fence.SkippedAreTheRest | services/kb-builder/src/agentic_kb_builder/application/invalidation.py:216-233 | Swept and skipped sources are disjoint and together all unseen live ones, so the skip count is exact |
| Fence.LateCommitIsSwept | services/kb-builder/src/agentic_kb_builder/application/invalidation.py:193-233 | An interleaving in which a builder deletes a source committed after its start by a transaction that began before |
| Fence.RecordedWhileSweeping | services/kb-builder/src/agentic_kb_builder/application/invalidation.py:391-436 | An interleaving in which a source recorded after the builder's start, between selection and marking, is deleted |
| Fence.MarkingBreaksFenceIff | services/kb-builder/src/agentic_kb_builder/application/invalidation.py:391-436 | In every interleaving, of the sources a sweep marks those last recorded by a transaction that began at or after the builder's start are exactly the ones whose last recording since the selection did |
| PaidWork.RunBalances | services/kb-builder/src/agentic_kb_builder/application/build_runner.py:848-891 | Over any run each paid call stored the output, stored nothing, or was made beside a stored one; the counter counts exactly the successful calls |
| PaidWork.PaidOncePlusCrashes | services/kb-builder/src/agentic_kb_builder/application/build_runner.py:848-891 | With healthy storage the model runs for a key exactly once if stored plus once per crash between its return and the side-commit |
| PaidWork.FirstOutputStays | services/kb-builder/src/agentic_kb_builder/infrastructure/postgres/durable_output_cache.py:77-108 | The first output stored for a key is the one every later re-map works from, across crashes, and no healthy request pays again |
| PaidWork.RolledBackIsRemapped | services/kb-builder/src/agentic_kb_builder/application/build_runner.py:848-891 | After a roll back, whatever was done since the last commit is no replay; if its output was stored meanwhile it is mapped again from the stored output, with no further call |
| PaidWork.DurableCache.PutOutput | services/kb-builder/src/agentic_kb_builder/infrastructure/postgres/durable_output_cache.py:128-148 | Storing is insert-or-nothing, and a refused write leaves the store as it was |
| PaidWork.Gated | services/kb-builder/src/agentic_kb_builder/application/build_runner.py:893-928 | Cache, then stored output, then model: the gated call does to cache and store what one step of the accounting machine does, and pays only then |
| PageRank.KernelIsStochastic | services/kb-builder/src/agentic_kb_builder/application/centrality.py:40-64 | What a node hands on, over edges or spread over all when it has none, sums to its rank |
| PageRank.MassIsOne | services/kb-builder/src/agentic_kb_builder/application/centrality.py:53-70 | Every iteration keeps total mass 1 |
| PageRank.IterationContracts | services/kb-builder/src/agentic_kb_builder/application/centrality.py:53-70 | Any two rank vectors come closer by the damping factor in the L1 distance |
| PageRank.ChangeShrinks | services/kb-builder/src/agentic_kb_builder/application/centrality.py:66-70 | The next change is at most 0.85 of the last |
| PageRank.ChangeBound | services/kb-builder/src/agentic_kb_builder/application/centrality.py:66-70 | Hence at most two times 0.85 to the k after k further steps |
| PageRank.IteratesArePositive | services/kb-builder/src/agentic_kb_builder/application/centrality.py:49-70 | Every iterate is positive everywhere and of mass 1 |
| PageRank.ScoresInUnit | services/kb-builder/src/agentic_kb_builder/application/centrality.py:71-76 | Scores are in (0, 1], the highest is exactly 1, and the branch for a peak that is not positive is dead |
| PageRank.EdgeOrderIsIrrelevant | services/kb-builder/src/agentic_kb_builder/application/centrality.py:33-76 | Edge lists that are permutations of each other give the same scores |
| PageRankLimit.SettlesAfter | services/kb-builder/src/agentic_kb_builder/application/centrality.py:53-70 | From 1/n each, rounds of 15 percent evenly and 85 percent of what the nodes hand on are repeated until the first change below 1e-9, at most 100 times |
| PageRankLimit.StationaryIff | services/kb-builder/src/agentic_kb_builder/application/centrality.py:33-70 | The stationary rankings, stated on the arcs alone, are the fixed points of mass 1 of the iteration |
| PageRankLimit.SettledRanks | services/kb-builder/src/agentic_kb_builder/application/centrality.py:29-76 | The scores are in the ratio of a positive ranking of mass 1 that one more round moves by at most 0.0000002, and that is within 0.000002 of every stationary ranking, in the L1 distance |
| PageRankLimit.ChainIsStationary | services/kb-builder/src/agentic_kb_builder/application/centrality.py:33-70 | On the chain a, b, c the stationary ranking is 400 : 740 : 1029 |
| PageRankRun.SplitInflow | services/kb-builder/src/agentic_kb_builder/application/centrality.py:53-64 | Spreading dangling mass uniformly and pushing shares separately gives the damped inflow of the kernel |
| PageRankRun.IterateOnce | services/kb-builder/src/agentic_kb_builder/application/centrality.py:53-64 | The nested loops that push shares compute the next vector of the kernel |
| PageRankRun.Pagerank | services/kb-builder/src/agentic_kb_builder/application/centrality.py:33-76 | No nodes no scores; no arc between nodes all zero; otherwise scores in (0, 1] with a 1, in the ratio of a ranking within 0.000002 of every stationary one |
| TieredContext.TierIsClosure | evals/task_context_eval.py:105-121 | One tier appends exactly what its edges reach from the order so far, each artifact once |
| TieredContext.OrderIsClosure | evals/task_context_eval.py:105-121 | The order has no duplicates and holds exactly the seeds closed under each tier in turn |
| TieredContext.FewerTiersArePrefix | evals/task_context_eval.py:105-121 | The order for fewer tiers is a prefix of the order for more |
| TieredContext.ExpandTiers | evals/task_context_eval.py:105-121 | The queue, seen set and order list compute that order |
| TieredContext.FittingIsLongest | evals/task_context_eval.py:123-136 | The packed part is the longest prefix whose cost is within the budget |
| TieredContext.PackedWithinBudget | evals/task_context_eval.py:123-136 | What is packed never costs more than the budget, and the reported use is that cost exactly when all fitted or the budget was met |
| TieredContext.TiersOnlyAdd | evals/task_context_eval.py:47-54 | At any budget the packed files for fewer tiers are among those for more |
| TieredContext.CostIs | evals/task_context_eval.py:58-59 | A known artifact costs a quarter of the characters of its body, or of its title if that is empty, and at least 1; an unknown one costs nothing |
| TieredContext.PackedAre | evals/task_context_eval.py:123-136 | The packed files are those with a path among the artifacts up to which all fits the budget |
| TieredContext.Pack | evals/task_context_eval.py:123-136 | The accumulating loop with its break packs that prefix and reports that use |
| Grounding.SubstringsGround | services/kb-builder/src/agentic_kb_builder/docify/docify_backend.py:54-64 | Every raw substring of the source with a character that is no whitespace grounds |
| Grounding.GroundedIff | services/kb-builder/src/agentic_kb_builder/docify/docify_backend.py:54-64 | A quote grounds exactly when some raw span of the source has the same sequence of words |
| Grounding.NormIsFaithful | services/kb-builder/src/agentic_kb_builder/docify/docify_backend.py:43-51 | Two texts normalise alike exactly when their token sequences are equal |
| Grounding.SameVerdictsIff | services/kb-builder/src/agentic_kb_builder/docify/docify_backend.py:54-64 | Two sources ground the same quotes exactly when their token sequences are equal |
| Grounding.SameQuotesIff | services/kb-builder/src/agentic_kb_builder/docify/docify_backend.py:54-64 | Two quotes ground in the same sources exactly when their token sequences are equal |
| Grounding.FactsAreSpans | services/kb-builder/src/agentic_kb_builder/docify/docify_backend.py:67-156 | Every draft emitted as source-backed has a body that reads, word for word, like a span of the source; only facts claim the fact authority |
| Grounding.SpansBecomeFacts | services/kb-builder/src/agentic_kb_builder/docify/docify_backend.py:84-148 | No concept of the document whose location is such a span is downgraded |
| Grounding.MapDocExtraction | services/kb-builder/src/agentic_kb_builder/docify/docify_backend.py:67-156 | The appending loop emits those drafts |
| AliasMining.PhraseRoundTrip | services/kb-builder/src/agentic_kb_builder/alias/mining.py:160-180 | A phrase of mined words is a fixed point of normalisation, and each of its variants normalises back to it |
| AliasMining.WordsOfJoin | services/kb-builder/src/agentic_kb_builder/alias/mining.py:173-180 | Splitting a mined phrase at whitespace gives back the words it was joined from, so its variants are those of its words |
| AliasMining.NormalizeIsIdempotent | services/kb-builder/src/agentic_kb_builder/alias/mining.py:167-170 | Normalising twice is normalising once, for any text |
| AliasMining.RunsHoldWindows | services/kb-builder/src/agentic_kb_builder/alias/mining.py:202-220 | The windows of the stopword-free runs are exactly the windows without a stopword |
| AliasMining.NgramPhrases | services/kb-builder/src/agentic_kb_builder/alias/mining.py:202-220 | The run-splitting loops return exactly the joins of contiguous windows of 2 to 4 tokens without a stopword |
| AliasMining.NgramsAreWords | services/kb-builder/src/agentic_kb_builder/alias/mining.py:202-220 | Every such n-gram of a tokenised description survives normalisation |
| AliasMining.SlugsAreWords | services/kb-builder/src/agentic_kb_builder/alias/mining.py:223-243 | Every document slug phrase survives normalisation |
| AliasMining.MineCommit | services/kb-builder/src/agentic_kb_builder/alias/mining.py:254-280 | A commit yields exactly the phrase and path pairs its scope, subject n-grams and document slugs name, and no blank phrase |
| AliasMining.CommitPhrasesAreFixed | services/kb-builder/src/agentic_kb_builder/alias/mining.py:260-280 | Every phrase a commit yields survives normalisation |
| AliasMining.SortedMinerIsTidy | services/kb-builder/src/agentic_kb_builder/alias/mining.py:273-280 | A miner that sorts its target sets names each target once, as the aggregates rely on |
| AliasResolve.Resolve | services/kb-builder/src/agentic_kb_builder/alias/resolve.py:38-73 | The loop returns the first exact entry wherever it stands, else the best overlap above the floor, else nothing |
| AliasResolve.ResolvesTo | services/kb-builder/src/agentic_kb_builder/alias/resolve.py:38-73 | The answers: the first entry with the very alias at score 1; otherwise an entry with three tenths of the words in common that no other such entry beats, its targets and its share as score; and none only if no entry has as many |
| AliasResolve.FixedPhraseResolves | services/kb-builder/src/agentic_kb_builder/alias/resolve.py:38-73 | A phrase that survives normalisation, or any of its variants, resolves exactly, with score 1 and the targets of the first entry with that alias, at any position |
| AliasResolve.MinedPhraseResolves | services/kb-builder/src/agentic_kb_builder/alias/resolve.py:38-73 | So does every phrase a commit or an ingested document can yield: scope, subject n-gram or slug |
| AliasResolve.UnionIsNeverEmpty | services/kb-builder/src/agentic_kb_builder/alias/resolve.py:38-73 | For a query that is not blank the union of words is never empty, so the guard against it never applies |
| CodeSkeleton.MergeIsUnion | scripts/codeskeleton.py:107-117 | Merged ranges ascend, are disjoint, and cover exactly the lines the raw ones cover |
| CodeSkeleton.CollapseIntervals | scripts/codeskeleton.py:82-117 | From any functions the collector and merger return disjoint ascending ranges over exactly the body lines |
| CodeSkeleton.CoveredIff | scripts/codeskeleton.py:82-117 | A line collapses exactly when some function hides it: below its docstring if it has one, otherwise from its first statement to its end, and nothing if that starts on the line of its signature |
| CodeSkeleton.PythonKeeps | scripts/codeskeleton.py:120-148 | The skeleton keeps, in order, exactly the lines no function hides |
| CodeSkeleton.SkeletonIsIndented | scripts/codeskeleton.py:131-148 | A placeholder stands at the indentation of the first line it replaces |
| CodeSkeleton.TilesAccount | scripts/codeskeleton.py:131-148 | An output that tiles its input keeps the kept lines verbatim in order, and kept plus elided is the line count |
| CodeSkeleton.SkeletonAccounts | scripts/codeskeleton.py:131-148 | Lines outside the ranges verbatim in order, exactly one placeholder per range, every line accounted for |
| CodeSkeleton.SkeletonizePython | scripts/codeskeleton.py:120-148 | The loop with its skip-to-end produces that skeleton |
| CodeSkeleton.SkeletonizeLines | scripts/codeskeleton.py:151-184 | The run-counting loop keeps structural lines verbatim in order, emits one placeholder per run of the others, and accounts for every line |
| CommitText.NormalizationKeepsLines | services/kb-builder/src/agentic_kb_builder/domain/content_hasher.py:22-30 | Normalising a text keeps its stripped non-blank lines, in order, for every text and every line separator |
| CommitText.ParseOfRender | services/kb-builder/src/agentic_kb_builder/connectors/git_metadata.py:141-167 | Parsing a rendered commit gives the stripped non-blank lines of its composed paths after the last one that reads like the header, whatever the subject and body contain |
| CommitText.RoundTripIff | services/kb-builder/src/agentic_kb_builder/connectors/git_metadata.py:141-167 | The changed files come back exactly when every path is one stripped non-blank line, composed, and not the header |
| CommitText.ListedPathsAreTidy | services/kb-builder/src/agentic_kb_builder/connectors/git_metadata.py:104-112 | Every path kept from git's output is one stripped non-blank line |
| CommitText.ReadCommitRoundTripsIff | services/kb-builder/src/agentic_kb_builder/connectors/git_metadata.py:104-167 | For a commit read from git the changed files come back exactly when no path is the header or changes under composition |

## Left out

Taken as parameters or stated assumptions:

- Hashing is injective: a content hash is modelled by the content it is computed from.
- The order in which the database returns rows, fresh identities (uuids), and sorting are parameters; the results hold for every choice of them.
- A source row is identified by the id its (type, uri) pair has or would get; the same item always names the same id.
- What the linker, the judge and the extractors decide is arbitrary input; only what they write, and the conditions named above, enter the proofs. The candidate generator writes audit rows only and is not part of this model.
- What is mined from one source is a parameter of the alias stage; `AliasMining` shows that the commit miner meets what the stage assumes of it. Subject labels (a regular expression) and the file-name test for documents are parameters there.
- How a missed query is sanitised and resolved to a target is a parameter of the ledger stage.
- Unicode composition, lower-casing and the whitespace of grounding are parameters with the few laws the proofs use; parsing of Python source into functions with line numbers is a parameter of the skeletons, and their ranges are assumed to lie within the file.
- PageRank is over exact reals; the sorted order of neighbours, which only matters for float rounding, is not modelled.

Not modelled:

- What graphify makes of a tree: any new rows of its files and any edges that join live artifacts. Whether a file changed is looked up once the documents are done, not while listing; no document has the row of a file. A code source without a path, which the source loop treats as a document, has no place in the histories.
- Builders.SettledVersionsStay: covers builds that take turns transaction by transaction; the statements of one finalize are not interleaved with commits of other builds, apart from the sweep in `Fence`.
- Embedding cache rows in the tables, the number of retired cache rows the pass reports, search texts, version labels on rows, the index reconciliation and the log: they decide no membership.
- ACL intersection and visibility: the access list is a field; which row gets whose list is proved (RowFate), who may see what is not.
- `is_deleted`, ACLs and row bodies are not versioned by the code, so "the past is frozen" is about members and, where stated, endpoints.
- PaidWork.Gated: covers a call that returns; a process that dies inside the call is a step of the accounting machine only.
- AliasAggregates.TargetsAreConfirmed: the ranking among targets (counts, name overlap, ties) is a parameter that may only reorder and cut.
- Seed scoring and the texts of placeholders: true but easy next to the orders and budgets.
- HTTP and model back ends, migrations, command lines, report rendering, evaluation metrics and the review panel.
