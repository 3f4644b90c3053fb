# duckDBSP in Dafny

duckDBSP keeps SQL views equal to a from-scratch query while their tables
change, by running every operator on deltas. This project models its operators
and protocols and proves that each incremental, packed or checkpointed form
agrees with the plain thing it speeds up.

Rows are sequences of values, a value is NULL or an integer, and a Z-set is a
map from elements to integer weights (`ZSets.dfy`). Where the source updates
state step by step, the model is a class or a method with loops, proved against
a specification that does not mention it: an SQL join, a grouped table, a
from-scratch evaluation, a sorted list, a summed weight.

| file | what it covers |
|---|---|
| `JoinSemantics.dfy`, `JoinStorage.dfy`, `JoinStep.dfy`, `JoinNode.dfy`, `JoinShards.dfy`, `JoinLaws.dfy` | the join node: boxed and packed sides behind projections, bilinear delta with shared sides, outer-join pads, three-valued marks, shared arrangements, replay, range-split passes; the joined table written out |
| `Sidecar.dfy` | the arrangement files: base, chained delta, in-place restamp, crashes between any two file actions |
| `Trust.dfy`, `TrustProtocol.dfy` | when a tracked table's baseline may be trusted, against open transactions |
| `DepGraph.dfy`, `Propagation.dfy`, `ViewManager.dfy` | the view graph, one pass per commit, creation by replay, stashed views |
| `PackedIndex.dfy`, `FlatPacked.dfy`, `BulkFill.dfy` | the packed index: three merges, the immutable sorted layer under an overlay, fold, streamed fill |
| `TopK.dfy`, `TopKOrders.dfy`, `TopKLaws.dfy`, `Sorting.dfy` | LIMIT views: full sort and bounded window with an overflow log, in every visiting order; what ORDER BY and LIMIT ask for |
| `Optimizer.dfy`, `PlanLaws.dfy` | plan rewrites: combine, push down, fuse, remap; what the operators mean, and that a join means what its node computes |
| `Aggregate.dfy`, `AggregateLaws.dfy`, `OrderStatistics.dfy` | GROUP BY with retraction and its values written out, quantiles, MAD, MODE, ordered lists |
| `Codec.dfy`, `Checkpoint.dfy`, `PackedCheckpoint.dfy`, `AggregateCheckpoint.dfy` | the row codec, blobs, saved and restored join and aggregate nodes |
| `Ddl.dfy`, `DdlReference.dfy` | the scanner and parser of the MATERIALIZED VIEW statements, the generated call, and the scanner against SQL's lexical rules |

`dafny verify dfyconfig.toml` checks everything.

## What is assumed

- Integrated base weights are non-negative wherever a claim needs real tables.
- Evaluation of keys, predicates, projections and whole queries by DuckDB is a
  pure function of rows; division in AVG is an uninterpreted function.
- A view's query is a function of its sources' contents, and an incremental
  step of a whole circuit answers it; the operator files prove that for joins
  and aggregates.
- A file atomically has old or new content; a torn restamp matches no stamp.
  Stamps and watermarks are exact identities.
- A spill store is a multiset, and the row serializer of the spill store gives
  rows back as they were.
- A statement's begin and its scan are one step of the trust protocol, a fired
  trigger reports the exact row images, and one transaction's writes to a table
  take one route.

## Where the code falls short of what it says

- MARK joins: with a residual, or with two or more key columns that are not
  null-safe, the mark is not the IN predicate of section 8.4 of ISO/IEC
  9075:1992. `MarkIsSqlInIff` and `MarkAgreesExactly` give the exact conditions.
- Sidecars: a save skips an arrangement whose table identity moved while its
  own content did not (only rows with NULL keys changed); its stamp is then
  stale and the next load refills instead of adopting. Nothing wrong is ever
  adopted. `SaveSidecar` says exactly when.
- Range-split passes: a thread that probes a shared arrangement through a
  projection looks in the bucket map (include/dbsp_plan_join.hpp:1360-1386,
  455-476), which a packed arrangement never fills. A residual-free INNER join
  of a boxed node, in parallel mode and with 4096 or more delta rows, then
  emits nothing for them. `AlwaysAgreeIff` is the condition,
  `ParallelProbeLosesEveryMatch` such a run; `PlanJoinNode.Step` says what is
  left out.
- Commit: with auto-sync off the hook discards the capture and changes no
  baseline (include/dbsp_context_state.hpp:286-294), so a trusted table stays
  trusted and is wrong until it is scanned (`AutoSyncOffLosesTheDelta`). And a
  transaction fed by triggers is applied without consulting the set of touched
  tables (368-400), so a tracked table it wrote without firing its triggers
  stays trusted and wrong likewise (`FedCommitForgetsTouched`). `CommitExactIff`
  and `FedExactIff` are the conditions for one commit, `SeededIsExactIff` and
  `ToldIsExact` those for a whole run.
- The taint and the watermark of a deferred table decide nothing in
  include/dbsp_cdc.hpp:6251-6254: the rule behind them asks for more
  (`ScanEstablishes`).
- The comment at include/dbsp_cdc.hpp:6228-6233 calls a transaction that wrote
  a table before it was tracked and deferred nothing an open problem. The rule
  in the function below it (include/dbsp_cdc.hpp:6266-6268) closes it: in every
  reachable state no open transaction holds such a write to a trusted table
  (`SeededIsExactIff`).
- Bounded LIMIT views visit a batch in hash order. A row inserted while
  deletions have made room can enter the window past a smaller one left in the
  log. `EveryOrderRightIff` and `LimitRightIff` give the exact condition on a
  batch, `WithinIsRight` one for many batches, `LimitOneShowsTheWrongRow` a view
  whose result is the wrong row.
- Predicate pushdown does not look at the join type. `SideSafeIff` lists the
  sides that may be pushed to. The pass runs on a filter over a join that is not
  directly below a projection, for example an aggregate over a filter over a
  LEFT or MARK join.
- Five kinds of lexical unit are not read as section 4.1 of PostgreSQL's
  documentation says (which DuckDB follows,
  include/dbsp_parser_extension.hpp:162-164): names with a `$tag$` inside, E
  strings with a backslash, nested comments, line comments ended by a lone
  carriage return, dollar tags with letters beyond ASCII. A second statement
  behind such a unit can be folded into the view's body, which the comment at
  351-355 says must never happen: `TagFoldsSecond`, `EscapeFoldsSecond`.
  `FoldedIff` says exactly when it does, `OrdinaryNeverFolds` that it takes one
  of the five kinds. One of them alone need not do harm: `TagWithoutTerminator`.
- A body that ends inside an open comment swallows the terminator behind it;
  `CreateRoundTripIff` is the condition.
- Text of 2^32 bytes or more does not survive the row codec (`TextLengthIff`).

## Model

| member | source | states |
|---|---|---|
| JoinSemantics.PadRowInjective | include/dbsp_plan_join.hpp:1543-1559 | a padded output row determines the preserved row it came from, so pads of different rows never merge |
| JoinSemantics.MarkedOnce | include/dbsp_plan_join.hpp:1677-1703 | every left row carries its weight under exactly one mark value |
| JoinSemantics.CondTrueIffMatches | include/dbsp_plan_join.hpp:1200-1235 | under Kleene logic the join condition is True for exactly the pairs the node matches (equal keys, residuals passing) |
| JoinSemantics.MarkAgreesExactly | include/dbsp_plan_join.hpp:1623-1635 | the node's mark equals the IN predicate of section 8.4 of ISO/IEC 9075:1992 if and only if the row matches, or its NULL branch is taken exactly when some right row makes the condition Unknown |
| JoinSemantics.MarkIsSqlIn | include/dbsp_plan_join.hpp:1623-1635 | with at most one key column (or null-safe keys) and no residual the mark is the three-valued IN value |
| JoinSemantics.MarkIsSqlInIff | include/dbsp_plan_join.hpp:1623-1635 | for column keys the mark is the IN value on all data if and only if there is no residual and at most one key column, or the keys are null-safe |
| JoinSemantics.ResidualMarkDiffers | include/dbsp_plan_join.hpp:1623-1635 | any residual: concrete rows on which mark and IN value differ |
| JoinSemantics.MultiColumnMarkDiffers | include/dbsp_plan_join.hpp:1623-1635 | two or more key columns that are not null-safe: concrete rows on which mark and IN value differ |
| JoinStorage.ProbeLayers | include/dbsp_plan_join.hpp:2251-2307 | probing the two packed layers by encoded bytes gives, decoded, the rows stored under the key |
| JoinStorage.ProbeSide | include/dbsp_plan_join.hpp:1124-1145 | the serial dispatch returns the rows stored under the key for every storage: boxed or packed, own or shared, through the consumer's projection if there is one |
| JoinStorage.ProbeOne | include/dbsp_plan_join.hpp:1360-1386 | so does a probe of the range-split pass, except that a thread with its own scratch looks for a shared packed side behind a projection in the bucket map, which packed storage leaves empty |
| JoinSides.IntegratePlain | include/dbsp_plan_join.hpp:1464-1519 | after a delta a boxed side's index, row totals and counters are those of the integrated input |
| JoinSides.IntegrateLayers | include/dbsp_plan_join.hpp:1464-1519 | after a delta a packed side, encoded keys, rows and totals in two layers, stands for the integrated input |
| JoinSides.ApplyLayers | include/dbsp_plan_join.hpp:596-741 | after a delta a shared packed arrangement stands for its moved content; the overlay may keep keys of emptied buckets |
| JoinSides.ShownRepresents | include/dbsp_plan_join.hpp:455-476 | a shared side read through a consumer's projection stands for the projected rows of its content, equal ones collapsed |
| JoinSides.MaterializeKeys | include/dbsp_plan_join.hpp:1408-1462 | the materialized delta is the delta with each row's key, NULL keys marked |
| JoinStep.EmitRow | include/dbsp_plan_join.hpp:1360-1406 | one probe adds exactly the weight products of the bucket its dispatch reaches, with the pass's sign |
| JoinStep.PassIsProduct | include/dbsp_plan_join.hpp:1237-1255 | a whole pass over a side is the delta joined with the content the side stands for |
| JoinStep.ProbePass | include/dbsp_plan_join.hpp:1237-1255 | the serial pass emits that product, scaled by its sign |
| JoinStep.ShardedProbe | include/dbsp_plan_join.hpp:1322-1358 | for any number of shards the range-split pass emits what one pass over the side, as its threads reach it, would |
| JoinStep.RunPass | include/dbsp_plan_join.hpp:879-932 | a pass emits the whole product, or nothing: nothing exactly when it is split over threads and the probed side is shared, packed and projected |
| JoinShards.AgreeIff | include/dbsp_plan_join.hpp:1360-1386 | on given data with any match the range-split pass agrees with the serial one if and only if there is one shard or the probed side is not a projected packed arrangement |
| JoinShards.AlwaysAgreeIff | include/dbsp_plan_join.hpp:1360-1386 | on all data they agree if and only if at most one shard is configured, or the side is not shared, or not packed, or not projected |
| JoinShards.ParallelProbeLosesEveryMatch | include/dbsp_plan_join.hpp:1360-1386 | a whole run: 4096 or more left rows that all match a packed, projected right arrangement, and a node that emits nothing |
| JoinShards.ShardsAre | include/dbsp_plan_join.hpp:1322-1341 | a thread for every 512 rows begun, as far as threads are configured |
| JoinShards.SplitIff | include/dbsp_plan_join.hpp:888-899 | a pass over more than 512 rows is split if and only if both deltas hold 4096 rows together and the join is INNER, has no residual and is not packed |
| JoinStep.BilinearDelta | include/dbsp_plan_join.hpp:879-996 | in all four sharing cases the two probe passes and the cross term, added, dropped or subtracted, sum to join(new) minus join(old) |
| JoinStep.InnerPasses | include/dbsp_plan_join.hpp:879-1000 | the emitted inner delta is join(new) minus join(old), residuals included, whichever sides are shared and already post-delta, however they are stored, less what lost passes leave out |
| JoinStep.MatchCount | include/dbsp_plan_join.hpp:1523-1541 | the count is positive exactly if some row of the other side with positive weight matches |
| JoinStep.Affected | include/dbsp_plan_join.hpp:1565-1592 | the visited rows are exactly those of the own delta and those sharing a key with the other side's delta |
| JoinStep.UnaffectedPad | include/dbsp_plan_join.hpp:1565-1592 | a row outside that set keeps its pad weight: visiting it would change nothing |
| JoinStep.ReconcilePads | include/dbsp_plan_join.hpp:1565-1610 | after reconciliation the pad map holds exactly the outer join's pad weights and the output has moved by exactly their change |
| JoinStep.CountDelta | include/dbsp_plan_join.hpp:844-877 | the totals and NULL-key totals of a delta, as used to take a shared side's contribution off again |
| JoinStep.CountersSign | include/dbsp_plan_join.hpp:1623-1635 | the two right-side counters are positive exactly if the right side has a row, and a row with a NULL key |
| JoinStep.MarkValue | include/dbsp_plan_join.hpp:1623-1635 | the computed mark is the specified one |
| JoinStep.MarkAffected | include/dbsp_plan_join.hpp:1637-1675 | a left row outside the visited set keeps its weight and its mark, also when the right side becomes empty, non-empty, or gains or loses a NULL key |
| JoinStep.ReconcileMarks | include/dbsp_plan_join.hpp:1637-1704 | afterwards the mark map and the emitted output are those of the MARK join of the new inputs |
| JoinStep.StepOf | include/dbsp_plan_join.hpp:835-1019 | one step of any join type over any storage keeps the state exact and emits the change of the SQL join (section 7.5 of ISO/IEC 9075:1992), less what lost passes leave out |
| JoinNode.SharedArrangement.Apply | include/dbsp_plan_join.hpp:596-741 | a shared arrangement's content moves by exactly the delta, boxed or packed |
| JoinNode.PlanJoinNode.SetSharedArrangement | include/dbsp_plan_join.hpp:1097-1102 | a node may start reading a filled arrangement; with the replay skipped its content counts as integrated |
| JoinNode.PlanJoinNode.Step | include/dbsp_plan_join.hpp:835-1019 | over every run the emitted deltas and what was left out sum to the SQL join of the integrated inputs, for INNER, LEFT, RIGHT, FULL and MARK; a step leaves out nothing unless it splits a pass over threads that probe a projected packed arrangement |
| JoinNode.PlanJoinNode.ReplaySource | include/dbsp_cdc.hpp:2613-2628 | replaying one source in any chunks integrates exactly the source |
| JoinNode.CreateJoin | include/dbsp_cdc.hpp:2491-2650 | a join created by chunked replay, with shared sources skipped (one of them when both are shared), has emitted the SQL join of its full sources, unless a large chunk was probed that way |
| JoinLaws.SpecIsTable | include/dbsp_plan_join.hpp:835-1019 | for every join type, input and output row the specified weight is that of a table written out from the comparisons, the key values and the NULL pads alone |
| JoinLaws.EmittedIsTable | include/dbsp_plan_join.hpp:835-1019 | a node that left nothing out has emitted exactly that table |
| JoinLaws.OneComparison | include/dbsp_plan_join.hpp:1200-1235 | with equal keys and one comparison a pair appears with the product of its weights if the left value is less, greater and so on as the comparison says, and not at all otherwise |
| JoinLaws.AllComparisons | include/dbsp_plan_join.hpp:1200-1235 | with several comparisons, if all of them hold and no operand is NULL |
| JoinLaws.ProjectedWeight | include/dbsp_plan_join.hpp:455-476 | a table read through a projection weighs a row as all rows with its columns together, NULL for a column that is not there |
| Sidecar.TouchedKeysSuffice | include/dbsp_plan_join.hpp:217-253 | replacing the touched keys in the base gives the full fold, provided every changed key is still in the overlay map |
| Sidecar.ApplyOverlay | include/dbsp_plan_join.hpp:710-726 | applying a delta never removes a key from the overlay map, also when its bucket cancels to nothing |
| Sidecar.ApplyKeepsSound | include/dbsp_plan_join.hpp:710-726 | applying a delta keeps the relation between memory, files and saved contents |
| Sidecar.OverlayPatches | include/dbsp_cdc.hpp:7225-7277 | loading base and delta chain as replacement overlays folds to the patched base |
| Sidecar.Restamp | include/dbsp_flat_packed.hpp:501-532 | an in-place restamp, torn or not, leaves files that decode only to contents saved under their stamp |
| Sidecar.AppendDelta | include/dbsp_flat_packed.hpp:385-432 | writing the delta file, with a crash between any two file actions, leaves files that decode only to contents saved under their stamp |
| Sidecar.WriteFull | include/dbsp_flat_packed.hpp:315-369 | rewriting the base and removing the delta, crashes included, leaves files that decode only to contents saved under their stamp |
| Sidecar.SaveSidecar | include/dbsp_cdc.hpp:1061-1156 | a save under any faults keeps the files sound; without faults the stamp is adoptable afterwards if and only if the save did not skip the restamp of a table-sourced arrangement |
| Sidecar.Adopt | include/dbsp_cdc.hpp:7225-7277 | what is adopted for a stamp is exactly the content at the save with that stamp; otherwise the source is used |
| Sidecar.NullKeyChange | include/dbsp_cdc.hpp:1061-1156 | changes in rows with NULL keys only: the content is the same under a new identity, and the save leaves the old stamp in place |
| SidecarStore.ArrangementStore.Apply | include/dbsp_plan_join.hpp:596-741 | any delta at any time keeps the protocol's invariant |
| SidecarStore.ArrangementStore.Save | include/dbsp_cdc.hpp:1061-1156 | over every run a save records the content under its stamp, whatever file actions fail or crash |
| SidecarStore.ArrangementStore.Load | include/dbsp_cdc.hpp:7225-7277 | over every run of deltas, saves, crashes and reloads an adopted sidecar decodes to the content at the save its stamp names |
| Trust.RetireKeepsTrust | include/dbsp_cdc.hpp:6234-6270 | retiring an untrusted state after a scan keeps the protocol's safety condition |
| Trust.RescanKeepsTrust | include/dbsp_cdc.hpp:6234-6270 | a reconcile scan installs the committed content and keeps the protocol's safety condition |
| Trust.ScanEstablishes | include/dbsp_cdc.hpp:6234-6270 | a scan outside a transaction trusts a provisional table if and only if every transaction older than its watermark has ended, and an unestablished or deferred one, tainted or not, if and only if nothing is open; otherwise the state stays |
| Trust.InsideEstablishesNothing | include/dbsp_cdc.hpp:6234-6240 | a scan inside a transaction moves the content and nothing else |
| Trust.HookSettles | include/dbsp_context_state.hpp:277-461 | with auto-sync on the commit hook leaves every provisional table whose transactions have ended, and every deferred one when nothing is open, trusted and exact |
| Trust.OffSettlesNothing | include/dbsp_context_state.hpp:286-294 | with auto-sync off it leaves every table as it was |
| Trust.DeferralNotes | include/dbsp_duckdb_types.hpp:751-773 | a first debt waits for everything open now and for nothing that starts later, a retry leaves it as it is, and the taint is that of a table tracked after a change in the same transaction |
| Trust.SeedEstablishes | include/dbsp_cdc.hpp:5974-5991 | a seed reads what is committed and is trusted at once if and only if nothing else is open, otherwise it waits for everything that is |
| Trust.NobodyOlder | include/dbsp_cdc.hpp:4185-4209 | for a statement that just began, no older transaction means no other transaction at all |
| Trust.ApplyCaptured | include/dbsp_cdc.hpp:5016-5065 | exactly the trusted tables take their captured delta; the others are handed back for a scan |
| Trust.RunCommitHook | include/dbsp_context_state.hpp:277-461 | the hook's branches and loops, the early return with auto-sync off among them, give every table the state one function of the captured facts describes |
| Trust.CommitExactIff | include/dbsp_context_state.hpp:277-461 | a trusted baseline equals the committed content after the hook if and only if the capture accounts for the table, or the transaction did not change it |
| Trust.FedExactIff | include/dbsp_context_state.hpp:368-400 | in a trigger-fed commit with every statement classified: if and only if the table was not touched, or its triggers reported, or nothing changed |
| Trust.SeededCommitKeeps | include/dbsp_context_state.hpp:277-461 | what a trusted baseline was not told since its last scan grows by exactly the writes the hook neither scanned nor applied |
| Trust.TellsAllLeavesNothing | include/dbsp_context_state.hpp:96-131 | that is nothing when auto-sync is on, every statement was classified and the table's triggers fired or it is scanned |
| Trust.CommitKeepsInv | include/dbsp_context_state.hpp:277-461 | a commit of any transaction keeps every tracked table within the protocol, its account of untold writes carried along |
| Trust.FedCommitForgetsTouched | include/dbsp_context_state.hpp:368-400 | a commit fed by one table's triggers ignores the touched set: a second table written without its triggers stays trusted and wrong |
| Trust.WrittenKeepsCapture | include/dbsp_context_state.hpp:96-131 | every write leaves the hooks' record true of the transaction |
| TrustProtocol.CdcManager.SeededIsExactIff | include/dbsp_duckdb_types.hpp:719-796 | in every reachable state a trusted baseline and what it was not told since its last scan are the committed content, so it is exact if and only if nothing was left untold; and no open transaction holds a write made before the table was tracked |
| TrustProtocol.CdcManager.ToldIsExact | include/dbsp_duckdb_types.hpp:719-796 | it is exact while every commit since the last scan happened with auto-sync on and told all about the table |
| TrustProtocol.CdcManager.SetAutoSync | src/dbsp_extension.cpp:1815-1868 | switching auto-sync touches no baseline |
| TrustProtocol.AutoSyncOffLosesTheDelta | include/dbsp_context_state.hpp:286-294 | a run: a reported write committed with auto-sync off leaves the table trusted and wrong, also when auto-sync is on again |
| TrustProtocol.CdcManager.Begin | include/dbsp_context_state.hpp:235-242 | a transaction begins with nothing captured |
| TrustProtocol.CdcManager.Write | include/dbsp_context_state.hpp:96-131 | a write is recorded by the route it took: triggers fired, did not, failed, or could not be classified |
| TrustProtocol.CdcManager.Track | include/dbsp_cdc.hpp:2243-2293 | dbsp_track adds an unestablished table and the transaction's intent |
| TrustProtocol.CdcManager.DeferSeed | include/dbsp_cdc.hpp:5932-5991 | inside an open transaction the seed is deferred: the first debt waits for everything open now, a retry keeps the recorded watermark, and earlier changes of the transaction taint a newly tracked table |
| TrustProtocol.CdcManager.SeedNow | include/dbsp_cdc.hpp:5974-5991 | outside one the scan is trusted at once if nothing else is open, otherwise it waits for everything that is |
| TrustProtocol.CdcManager.TrackSource | include/dbsp_cdc.hpp:6306-6360 | auto-tracking a view's source establishes it by one of those two |
| TrustProtocol.CdcManager.SeedSource | include/dbsp_cdc.hpp:2586-2612 | a view's source that was tracked but never established is established before the replay |
| TrustProtocol.CdcManager.Sync | include/dbsp_cdc.hpp:6234-6270 | a scan installs the committed content; outside a transaction a provisional table is then trusted if and only if those it waits for have ended, any other untrusted one if and only if nothing is open; inside one no state changes |
| TrustProtocol.CdcManager.Commit | include/dbsp_context_state.hpp:277-461 | a commit publishes its writes, keeps the account of what the hook did not take in, and with auto-sync on leaves every table trusted and exact whose watermark has cleared, deferred ones when nothing else is open |
| TrustProtocol.CdcManager.TellsWhatFired | include/dbsp_context_state.hpp:277-461 | with auto-sync on a commit tells all about a table whose writes were all classified and fired its triggers |
| TrustProtocol.CdcManager.Untrack | include/dbsp_cdc.hpp:2296-2308 | every open transaction that wrote the untracked table will never report those writes; nothing else changes |
| TrustProtocol.CdcManager.Rollback | include/dbsp_context_state.hpp:463-483 | a rollback takes the transaction's trackings with it |
| DepGraph.AllDependents | include/dbsp_cdc.hpp:398-430 | the search ends and lists each transitive dependent once, and nothing else |
| DepGraph.WouldCreateCycle | include/dbsp_cdc.hpp:515-541 | true exactly if the new edge is a self-edge or closes a path |
| DepGraph.GuardedEdgeKeepsAcyclic | include/dbsp_cdc.hpp:2384-2412 | an edge the guard allows keeps the graph acyclic |
| DepGraph.UnguardedEdgeMakesCycle | include/dbsp_cdc.hpp:2384-2390 | an edge the guard refuses would make a cycle |
| DepGraph.RemoveNode | include/dbsp_cdc.hpp:379-395 | every edge at the node is gone from both maps, every other edge is kept |
| DepGraph.RemovedKeeps | include/dbsp_cdc.hpp:379-395 | the two edge maps stay inverse to each other |
| KahnState.WaitingForEachOtherIsACycle | include/dbsp_cdc.hpp:470-512 | nodes that all wait for one another lie on a cycle, by a pigeonhole argument on paths |
| KahnState.KahnComplete | include/dbsp_cdc.hpp:470-512 | so on an acyclic graph an empty queue means every affected node is listed |
| TopologicalOrders.TopologicalOrder | include/dbsp_cdc.hpp:444-512 | for any changed nodes, every dependent that is reachable from them is listed exactly once, after all its dependencies among them |
| DependencyGraphs.DependencyGraph.RegisterView | include/dbsp_cdc.hpp:2384-2412 | in every reachable state the edge maps are inverse and acyclic; a view is registered exactly if no source reaches back |
| DependencyGraphs.DependencyGraph.Remove | include/dbsp_cdc.hpp:2982-2982 | dropping a node keeps that and removes exactly its edges |
| Catalogs.ContentIsFromScratch | include/dbsp_cdc.hpp:6660-6916 | in a sound catalog every view's content weighs each row as the view's query over the contents of its sources does, and is the content computed from scratch over the tables |
| Catalogs.AllEqualQueries | include/dbsp_cdc.hpp:6660-6916 | so does every view of a sound catalog at once |
| Catalogs.SteppedAnswers | include/dbsp_cdc.hpp:6825-6848 | one step with all changed inputs in one batch leaves the view answering its query over what it has seen |
| Realizing.RealizeWorklist | include/dbsp_cdc.hpp:6798-6812 | the worklist is exactly the dependency closure of the affected views |
| Realizing.RealizedSound | include/dbsp_cdc.hpp:1367-1420 | decoding stashed views changes no content and keeps the catalog sound |
| PassStart.AffectedIsCone | include/dbsp_cdc.hpp:6725-6727 | the ordered views are exactly those with a changed source somewhere below them |
| PassStart.AssignLevels | include/dbsp_cdc.hpp:6728-6749 | every view's level is above the levels of its sources, and each view is in one level |
| Passes.PublishKeeps | include/dbsp_cdc.hpp:6892-6916 | publishing one view's delta, to the pending map and to the arrangements over it, keeps the pass's invariant |
| Propagation.StepLevel | include/dbsp_cdc.hpp:6850-6891 | a level's views step from what the previous levels left, whatever order they are stepped in |
| Propagation.LevelIsReady | include/dbsp_cdc.hpp:6751-6818 | before a level runs, its views are decoded, their sources done and every arrangement they probe post-delta |
| Propagation.Plan | include/dbsp_cdc.hpp:6660-6820 | the pass decodes exactly the needed views and plans all affected ones in level order |
| Propagation.PropagateChanges | include/dbsp_cdc.hpp:6660-6916 | after a pass every view equals its query over the post-commit tables; each affected view steps once with all its changed inputs in one batch, the others not at all |
| Creation.ReplaySource | include/dbsp_cdc.hpp:2613-2628 | chunked replay of one source leaves the view answering over the whole source, an empty source included |
| Creation.ReplayAll | include/dbsp_cdc.hpp:2491-2650 | after replay, with the shared source's replay skipped, the view has seen every source in full and answers over them |
| Creation.Create | include/dbsp_cdc.hpp:2312-2723 | a view is created exactly if its sources are known and no cycle arises; then it equals its query and every other content is unchanged |
| ViewManagers.ViewManager.CreateView | include/dbsp_cdc.hpp:2312-2723 | a view is created exactly if that is allowed; every view, old or new, then weighs each row as its query over its sources does |
| ViewManagers.ViewManager.Commit | include/dbsp_cdc.hpp:6660-6916 | every commit moves the tables by its deltas, and every view then weighs each row as its query over its sources does |
| ViewManagers.ViewManager.Read | include/dbsp_cdc.hpp:4098-4107 | a read weighs each row as the view's query over its sources does, also of a view still stashed |
| ViewManagers.ViewManager.Reload | include/dbsp_cdc.hpp:1960-2010 | reopening from a checkpoint with views stashed changes no content |
| Buckets.MergeRow | include/dbsp_plan_join.hpp:2119-2137 | the per-row merge adds one weight, with zeros swapped out, and keeps rows distinct |
| Buckets.MergeLinear | include/dbsp_plan_join.hpp:2182-2200 | the grouped linear merge is pointwise weight addition with zeros removed |
| Buckets.MergeIndexed | include/dbsp_plan_join.hpp:2201-2244 | the position-map merge with compaction is the same pointwise addition |
| Buckets.CleanDetermined | include/dbsp_plan_join.hpp:2090-2249 | two merged buckets with equal weights hold the same entries |
| PackedIntegrate.IntegratePacked | include/dbsp_plan_join.hpp:2090-2249 | whichever path is taken every bucket weighs what it did plus what was added, empty buckets are dropped, and row totals move likewise |
| PackedIntegrate.PathsAgree | include/dbsp_plan_join.hpp:2090-2249 | the row path and the grouped path give the same keys and the same entries |
| FlatPacked.CmpBytes | include/dbsp_flat_packed.hpp:52-59 | the comparison decides the lexicographic byte order |
| FlatPacked.Find | include/dbsp_flat_packed.hpp:170-192 | binary search finds the directory entry of a key if there is one |
| FlatPacked.ProbePacked | include/dbsp_plan_join.hpp:2251-2307 | a probe returns flat weights plus overlay weights, and reports an empty sum as not found |
| FlatBuild.FinishBuild | include/dbsp_flat_packed.hpp:130-137 | sorting the directory makes it searchable and changes no lookup; entries are only permuted |
| FlatBuild.FoldPacked | include/dbsp_plan_join.hpp:143-210 | the fold is one sorted layer with the content of both, zero rows and empty buckets dropped |
| PackedSides.PackedSide.Integrate | include/dbsp_plan_join.hpp:1464-1519 | flat layer and overlay keep standing for one plain index, which moves by exactly the delta, over any run of deltas and restores |
| PackedSides.PackedSide.Restore | include/dbsp_plan_join.hpp:1950-2051 | replacing both layers by the folded one changes no bucket's weights |
| PackedSides.PackedSide.Probe | include/dbsp_plan_join.hpp:2251-2307 | a probe returns exactly the bucket of the plain index |
| BulkFill.Stream | include/dbsp_plan_join.hpp:596-634 | streaming adds one contribution to one key's row |
| BulkFill.Ranges | include/dbsp_plan_join.hpp:302-320 | sorting by key id leaves each key's rows in one run, found by its bounds |
| BulkFill.MergeRows | include/dbsp_plan_join.hpp:321-360 | equal rows are merged, zero sums dropped |
| BulkFill.FinishInitialFill | include/dbsp_plan_join.hpp:285-364 | any streamed sequence becomes a strictly sorted directory with non-empty buckets, distinct rows and non-zero weights whose lookup is the sum of the contributions |
| BulkAgreement.FillBothWays | include/dbsp_plan_join.hpp:377-386 | for any sequence of contributions, streaming and finishing gives the same keys, and the same entries under each, as applying through the bucket maps and folding |
| RowOrder.OrderIsTotal | include/dbsp_duckdb_types.hpp:2171-2205 | the comparator with its full-row tie-break is a strict total order |
| TopKWindow.Visited | include/dbsp_duckdb_types.hpp:2209-2237 | in any visiting order window plus overflow is the whole input and the window stays sorted |
| TopKWindow.VisitedOrder | include/dbsp_duckdb_types.hpp:2209-2237 | if insertions are visited before deletions every window row orders no later than every overflow row |
| TopKWindow.Settle | include/dbsp_duckdb_types.hpp:2238-2272 | refill and cap changes keep the multiset and leave the overflow empty when the window is below its cap |
| ShownRows.PrefixAnswers | include/dbsp_duckdb_types.hpp:2048-2092 | a window in order that reaches far enough shows the rows of the full sort |
| VisitingOrders.TrackedVisit | include/dbsp_duckdb_types.hpp:2209-2237 | in any visiting order, while a row up to y waits in the log, the window lost rows up to y only by deletion and holds rows beyond y only by insertion below its cap |
| VisitingOrders.HiddenIsExposed | include/dbsp_duckdb_types.hpp:2209-2272 | a log row that belongs to the shown rows of a window not refilled means an exposed row: more deletions up to it and more insertions beyond it than the window's slack |
| VisitingOrders.HidingOrder | include/dbsp_duckdb_types.hpp:2209-2272 | an exposed row is hidden by one visiting order, from one window over one log |
| LimitViews.EveryOrderRightIff | include/dbsp_duckdb_types.hpp:2209-2294 | every window over n rows and every visiting order of a batch show the right result if and only if the batch exposes no row, percentage limits included |
| LimitViews.LimitRightIff | include/dbsp_duckdb_types.hpp:2209-2294 | for LIMIT n the condition is on the batch alone, for a table of any size |
| LimitViews.WithinIsRight | include/dbsp_duckdb_types.hpp:2023-2035 | over many batches the result is right while no more rows were deleted, or no more inserted, since the window was last in order than it holds beyond the view's reach |
| LimitViews.Step | include/dbsp_duckdb_types.hpp:2037-2092 | a batch leaves the state of both paths right; the result is right whenever the batch exposes no row, or insertions come first, or the drift is within the slack, and exactly when the visited window says so or the refill ran |
| LimitViews.NativeLimitView.Apply | include/dbsp_duckdb_types.hpp:2037-2092 | over every run the delta is the change of the result; the unbounded result is the full sort's, the bounded one under the conditions of the step |
| LimitLaws.FirstDifferenceDecides | include/dbsp_duckdb_types.hpp:2171-2205 | the first sort column in which two rows differ decides: the smaller value first if ascending, the larger if descending, NULL first exactly if asked |
| LimitLaws.TiesGoByTheRow | include/dbsp_duckdb_types.hpp:2171-2205 | rows that tie in every sort column stand in the order of their first different value, NULL last |
| LimitLaws.LimitIs | include/dbsp_duckdb_types.hpp:2012-2035 | LIMIT n, or the largest number of rows within the percentage |
| LimitLaws.ShownCopies | include/dbsp_duckdb_types.hpp:2037-2092 | a row is shown as often as its places, counted by the rows before it, lie between OFFSET and OFFSET plus LIMIT |
| LimitLaws.LimitOneIsExtreme | include/dbsp_duckdb_types.hpp:2037-2092 | ORDER BY one column LIMIT 1 shows one row, with the largest value if descending and the smallest if ascending, NULLs placed as asked |
| LimitLaws.UnboundedShowsExtreme | include/dbsp_duckdb_types.hpp:2037-2092 | so it is in every reachable state of the unbounded view |
| LimitLaws.ChurnStaysRight | include/dbsp_duckdb_types.hpp:2012-2035 | the bounded view is right while at most 64 rows, or as many as the limit, were inserted since its window was last in order, or deleted with its bound unchanged |
| LimitViews.BoundedIsFull | include/dbsp_duckdb_types.hpp:2209-2294 | two results for the same input are equal: the bounded path refines the full sort |
| LimitViews.DeletionsFirstLosesARow | include/dbsp_duckdb_types.hpp:2209-2237 | a batch visited deletions first leaves a smaller row in the overflow |
| LimitViews.LimitOneShowsTheWrongRow | include/dbsp_duckdb_types.hpp:2209-2294 | two batches applied to a LIMIT 1 view after which its result is a row 2 although the smallest row is 1 |
| JoinPushdown.PushLeft | include/dbsp_plan_ir.hpp:613-672 | left-side predicates commute with INNER, LEFT and MARK joins, rows in order |
| JoinPushdown.PushRight | include/dbsp_plan_ir.hpp:613-672 | right-side predicates commute with INNER and RIGHT joins |
| JoinPushdown.SideSafeIff | include/dbsp_plan_ir.hpp:613-672 | pushing to a side keeps the meaning on all inputs if and only if the join type allows that side |
| PlanOptimizer.CombineFilters | include/dbsp_plan_ir.hpp:597-608 | stacked filters become one with the same rows; none is left at the root |
| PlanOptimizer.PushdownFilters | include/dbsp_plan_ir.hpp:613-672 | the rewritten tree means the same whenever every pushed side is allowed; above a join only predicates remain that read both sides or no column |
| PlanOptimizer.FuseFilterMap | include/dbsp_plan_ir.hpp:675-689 | a projection over a filter becomes one node with the same rows |
| PlanOptimizer.RemapReads | include/dbsp_plan_ir.hpp:694-716 | remapped references read the same columns through the removed projection |
| PlanOptimizer.RemapIff | include/dbsp_plan_ir.hpp:694-716 | a reference can be remapped if and only if it exists in the selection and, through it, in the source |
| PlanOptimizer.FuseMapCols | include/dbsp_plan_ir.hpp:738-782 | a column selection below a projection is removed if and only if every reference stays within it and its source, and the rows are the same |
| PlanOptimizer.Optimize | include/dbsp_plan_ir.hpp:784-793 | the whole optimizer ends on every plan, leaves nowhere a filter above a filter or a predicate of one side above a join, and keeps the meaning of every plan whose pushed sides are allowed |
| PlanOptimizer.InnerIsSafe | include/dbsp_plan_ir.hpp:613-672 | plans with INNER joins only always are |
| PlanLaws.FilterKeeps | include/dbsp_plan_nodes.hpp:325-478 | a filter keeps all copies of exactly the rows for which every predicate is neither NULL nor zero |
| PlanLaws.ProjectsEach | include/dbsp_plan_nodes.hpp:325-478 | a projection gives one row for each row, and in it one value for each expression |
| PlanLaws.JoinIsTable | include/dbsp_plan_join.hpp:835-1019 | the rows a plan's join stands for are, copy by copy, the table of its node, for every join type |
| PlanLaws.NodeEmitsPlan | include/dbsp_plan_join.hpp:835-1019 | a join node that left nothing out has emitted exactly what the join of the plan means |
| GroupState.ApplyPresence | include/dbsp_plan_aggregate.hpp:337-372 | DISTINCT moves count and sum on presence transitions only |
| GroupState.ApplyAgg | include/dbsp_plan_aggregate.hpp:276-437 | one row, inserted or deleted, keeps every accumulator equal to the SQL value's ingredients, FILTER applied both ways |
| GroupState.AggValue | include/dbsp_plan_aggregate.hpp:523-572 | for COUNT, SUM, AVG, MIN and MAX the rendered value is the SQL value (section 6.5 of ISO/IEC 9075:1992), with MIN and MAX retreating after deletions |
| GroupState.SqlRowUnique | include/dbsp_plan_aggregate.hpp:697-709 | a group has one result row |
| AggregateNode.ProcessGroup | include/dbsp_plan_aggregate.hpp:140-166 | one group's turn replaces exactly its own result row |
| AggregateNode.StepBatch | include/dbsp_plan_aggregate.hpp:57-168 | a batch emits exactly the change of the grouped table (section 7.7 of ISO/IEC 9075:1992) |
| AggregateNode.StepEmpty | include/dbsp_plan_aggregate.hpp:62-69 | an empty first batch emits the one row of a global aggregate, later ones nothing |
| AggregateNode.PlanAggregateNode.Step | include/dbsp_plan_aggregate.hpp:57-168 | over every run the emitted deltas sum to GROUP BY over the integrated input |
| AggregateLaws.DistinctValue | include/dbsp_plan_aggregate.hpp:342-372 | DISTINCT COUNT is the number of values with a row, DISTINCT SUM their sum and DISTINCT AVG their quotient, NULL when there is none |
| AggregateLaws.SqlIsValue | include/dbsp_plan_aggregate.hpp:523-572 | every aggregate's value, written out from the values and their numbers of copies |
| AggregateLaws.SqlIsGrouped | include/dbsp_plan_aggregate.hpp:57-168 | the specified table is one row for each group with a row, its key followed by those values |
| AggregateLaws.EmittedIsGrouped | include/dbsp_plan_aggregate.hpp:57-168 | over every run the node has emitted exactly that table |
| AggregateLaws.StepQuietly | include/dbsp_plan_aggregate.hpp:57-168 | a batch after which every shown group has the same values, and no group comes or goes, emits nothing when all aggregates are DISTINCT, MIN or MAX |
| OrderStatistics.RanksOf | include/dbsp_plan_aggregate.hpp:502-521 | the element at a rank and the next one of the expanded sorted sequence |
| OrderStatistics.QuantileDisc | include/dbsp_plan_aggregate.hpp:598-613 | the discrete quantile of the expanded sequence |
| OrderStatistics.QuantileCont | include/dbsp_plan_aggregate.hpp:573-597 | a whole position of the expanded sequence gives its element, any other a value that divides the gap of its neighbours as the position divides their ranks |
| OrderStatistics.MergeDeviations | include/dbsp_plan_aggregate.hpp:614-662 | the two-pointer merge is a sorted permutation of all absolute deviations |
| OrderStatistics.Mad | include/dbsp_plan_aggregate.hpp:614-662 | the same quantile, at one half, of the sorted absolute deviations from that quantile of the expanded sequence |
| OrderStatistics.Mode | include/dbsp_plan_aggregate.hpp:663-679 | a most frequent value, the first in value order |
| OrderedLists.EquivalentIsEqual | include/dbsp_plan_aggregate.hpp:443-470 | items the list order does not separate are equal |
| OrderedLists.FirstKeyDecides | include/dbsp_plan_aggregate.hpp:443-470 | the first key in which two items differ decides, by its direction and its placement of NULL; the value does when no key differs |
| OrderedLists.ListedAsAsked | include/dbsp_plan_aggregate.hpp:297-334 | so two items of a list stand as the first key in which they differ asks |
| OrderedLists.ApplyOrdered | include/dbsp_plan_aggregate.hpp:297-334 | the ordered list stays sorted and changes as a multiset by the weight, not below zero |
| OrderedLists.RenderIsCanonical | include/dbsp_plan_aggregate.hpp:297-334 | equal multisets render to the same list |
| PackedRow.EncodeRow | include/dbsp_packed_row.hpp:118-128 | a row encodes exactly if none of its values is of an unsupported type |
| PackedRow.CountsGoFirst | include/dbsp_packed_row.hpp:59-128 | a row is its number of columns and then its values, a text its length and then its bytes, lowest byte first |
| PackedRow.DecodeRow | include/dbsp_packed_row.hpp:183-190 | decoding gives the row back and stops behind it |
| PackedRow.RowBytesAreCanonical | include/dbsp_packed_row.hpp:59-128 | equal bytes mean equal rows, and no row's bytes begin another's, so they may serve as map keys |
| PackedRow.TextLengthIff | include/dbsp_packed_row.hpp:59-114 | the text a decoder takes from the encoding is the text encoded exactly if its length fits the 32-bit field |
| BlobFormat.BlobReader.TakeI64 | include/dbsp_checkpoint.hpp:143-201 | a signed scalar is read back from its eight bytes, and a truncated blob is noticed |
| BlobFormat.ListBack | include/dbsp_checkpoint.hpp:42-78 | a count prefix and that many entries are read back, and the position is behind the last one |
| JoinBlobs.WriteIndex | include/dbsp_plan_join.hpp:1934-1940 | the entries written are as many as the count prefix says and read back to the same index |
| JoinBlobs.RestoreIndex | include/dbsp_plan_join.hpp:2031-2040 | restoring an index from any bytes, a truncated one rejected |
| JoinCheckpoint.SerializeState | include/dbsp_plan_join.hpp:1742-1948 | the six containers in order; the blob is accepted and gives them back |
| JoinCheckpoint.RestoreState | include/dbsp_plan_join.hpp:1950-2051 | a blob is accepted exactly if all parts are there and nothing follows them |
| JoinCheckpoint.NoOtherLength | include/dbsp_plan_join.hpp:1950-2051 | an accepted blob cut short or continued is not accepted |
| JoinCheckpoint.RestoredStateFor | include/dbsp_plan_join.hpp:1717-1741 | the counters and marks a checkpoint drops are not needed by the joins it supports |
| JoinCheckpoint.SaveAndRestore | include/dbsp_plan_join.hpp:1742-2051 | a restored boxed node belongs to the same integrated inputs, pads included |
| JoinCheckpoint.SameDelta | include/dbsp_plan_join.hpp:835-1019 | a delta is determined by the inputs before and after and by what the step leaves out |
| JoinCheckpoint.RunBoth | include/dbsp_plan_join.hpp:1742-2051 | two nodes with the same inputs, boxed or packed, over the same shared arrangements or none, emit the same delta on every later input sequence |
| PackedBlobs.WritePackedIndex | include/dbsp_plan_join.hpp:1751-1855 | both layers folded into one stream whose count is the number of groups written, each with the merged rows |
| FlatTotals.FindTotal | include/dbsp_flat_packed.hpp:274-295 | the total of a row by binary search, 0 when absent |
| PackedTotals.WritePackedTotals | include/dbsp_plan_join.hpp:1856-1909 | both passes agree and the entries are exactly the non-zero totals of both layers |
| PackedCheckpoint.RestorePackedIndex | include/dbsp_plan_join.hpp:1961-1985 | the stream becomes the sorted layer, each key's bucket the listed one |
| PackedCheckpoint.RestorePacked | include/dbsp_plan_join.hpp:1950-2020 | accepted exactly if the tag is right, all parts are there and nothing follows |
| PackedCheckpoint.BoxedBlobRejected | include/dbsp_plan_join.hpp:1953-1956 | a blob of the older layout is told apart by its first word |
| PackedCheckpoint.RoundTrip | include/dbsp_plan_join.hpp:1742-2020 | within the machine's widths the restored sides have the same content under every key, the same totals and pads |
| PackedNodes.RestoredPackedFor | include/dbsp_plan_join.hpp:1950-2051 | packed layers of the same content belong to the same integrated inputs, because encoding is injective |
| PackedNodes.SaveAndRestorePacked | include/dbsp_plan_join.hpp:1742-2020 | within the machine's widths a packed join node restored from its blob has the same inputs as the saved one, so that every later delta is the same |
| PackedCheckpoint.RefinesTheSame | include/dbsp_plan_join.hpp:2251-2307 | packed states of the same content refine the same plain index, so every later probe finds the same bucket |
| AggregateBlobs.RecountedIff | include/dbsp_plan_aggregate.hpp:771-820 | expanding counts to unit values and recounting gives the map back if and only if no count is negative |
| AggregateBlobs.NodeReadsBack | include/dbsp_plan_aggregate.hpp:755-826 | the whole node blob is read back |
| AggregateCheckpoint.SerializeState | include/dbsp_plan_aggregate.hpp:755-788 | every group is written once |
| AggregateCheckpoint.RestoreState | include/dbsp_plan_aggregate.hpp:790-826 | accepted exactly if complete and written for as many aggregates |
| AggregateCheckpoint.RestoredAgg | include/dbsp_plan_aggregate.hpp:755-826 | a restored accumulator says the same of SQL, MIN and MAX counts included |
| AggregateCheckpoint.SaveAndRestore | include/dbsp_plan_aggregate.hpp:755-826 | a restored node continues over the same input |
| AggregateCheckpoint.StepBoth | include/dbsp_plan_aggregate.hpp:57-168 | the restored node emits the same delta as the original on every later batch |
| DdlScanner.SkipWsComments | include/dbsp_parser_extension.hpp:108-123 | the position behind white space and comments |
| DdlScanner.SkipIdentifier | include/dbsp_parser_extension.hpp:127-160 | the position behind a dotted, possibly quoted name, unchanged when there is none |
| DdlScanner.DollarTagAt | include/dbsp_parser_extension.hpp:165-181 | the dollar tag at a position |
| DdlScanner.FindStatementEnd | include/dbsp_parser_extension.hpp:192-235 | the first terminator between lexical units |
| DdlParser.NormalizeViewName | include/dbsp_parser_extension.hpp:261-317 | the stored name, or a refusal |
| DdlParser.ParseMvDdl | include/dbsp_parser_extension.hpp:347-505 | the parser, position by position, computes the grammar |
| DdlPrinter.SkipPad | include/dbsp_parser_extension.hpp:108-123 | any padding of white space and closed comments is skipped whole |
| DdlPrinter.UndoubleDoubled | include/dbsp_parser_extension.hpp:261-290 | doubling quotes is undone |
| DdlPrinter.TerminatorIff | include/dbsp_parser_extension.hpp:192-235 | whether a terminator stands at top level does not depend on what follows it |
| DdlPrinter.BodyIff | include/dbsp_parser_extension.hpp:356-369 | a body between white space is read back if and only if the scan of the text reaches its end |
| DdlRoundTrip.RefreshRoundTrip | include/dbsp_parser_extension.hpp:480-502 | REFRESH of any name, quoted or bare, in any layout and letter case, is read back with the name as it stands |
| DdlRoundTrip.DropRoundTrip | include/dbsp_parser_extension.hpp:439-478 | DROP of any name, quoted or bare, with or without IF EXISTS and CASCADE, in any layout, is read back |
| DdlRoundTrip.CreateRoundTripIff | include/dbsp_parser_extension.hpp:387-437 | CREATE, its name quoted or bare, is read back if and only if the name is registrable and the body's scan reaches its end |
| DdlCall.SqlLiteral | include/dbsp_parser_extension.hpp:238-248 | the literal is the text with its quotes doubled, in quotes |
| DdlCall.CallIsOneStatement | include/dbsp_parser_extension.hpp:509-525 | for every name and body the generated call has no top-level terminator |
| DdlCall.CallInjective | include/dbsp_parser_extension.hpp:509-525 | different statements give different calls |
| DdlCall.CallReadsBack | include/dbsp_parser_extension.hpp:509-525 | read as SQL, the call names the function of the statement and passes it the name, the body and the flags, each in its place |
| DdlReference.OrdinarySameEnd | include/dbsp_parser_extension.hpp:192-235 | where every lexical unit is ordinary the scanner's end of the statement is that of SQL's lexical rules |
| DdlReference.WhateverFollowsIff | include/dbsp_parser_extension.hpp:192-235 | the scanner stops at a statement's terminator whatever follows if and only if it stops there when nothing follows |
| DdlReference.FoldedIff | include/dbsp_parser_extension.hpp:351-369 | some text behind a body and its terminator is folded into the view's body if and only if the scan of the body and its terminator runs over the terminator |
| DdlReference.OrdinaryNeverFolds | include/dbsp_parser_extension.hpp:351-369 | behind ordinary units nothing is ever folded |
| DdlReference.NameIff | include/dbsp_parser_extension.hpp:192-210 | a name is passed if and only if each of its dollar tags comes again in it; otherwise it takes the terminator along |
| DdlReference.QuotesIff | include/dbsp_parser_extension.hpp:211-224 | text of plain characters and quotes is passed if and only if its quotes are even in number, whatever a backslash before one of them means |
| DdlReference.TagInNameSwallows | include/dbsp_parser_extension.hpp:192-210 | a dollar tag inside a name: every second statement without that tag is taken along |
| DdlReference.EscapedQuoteSwallows | include/dbsp_parser_extension.hpp:211-224 | an escaped quote in an E string: every second statement without a quote is taken along |
| DdlReference.TagFoldsSecond | include/dbsp_parser_extension.hpp:351-369 | `SELECT x$a$ FROM t; DROP TABLE u` is read back as the body of one view |
| DdlReference.TagWithoutTerminator | include/dbsp_parser_extension.hpp:192-210 | such a name at the end of the text changes nothing: both ends are the end of the text |
| DdlReference.EscapeFoldsSecond | include/dbsp_parser_extension.hpp:351-369 | so is `SELECT E'\'' AS a FROM t; DROP TABLE u` |

## Left out

- NativeLimitView: the overflow log is a multiset; its file, digest index and compaction are not modelled.
- Optimize: the meaning of a plan is a list of rows over an arbitrary database; the operators that the passes treat as opaque (aggregates, set operations, recursion) are one operator with uninterpreted meaning.
- PackedTotals: the arena of the sorted total list is dropped; its entries hold their bytes.
- SaveAndRestorePacked: a state whose counts, lengths or weights exceed the 64-bit fields is not covered, because the writer truncates there.
- AggregateCheckpoint: DOUBLE sums are written as a constant, because floating point is outside the model; sums are 64-bit or 128-bit integers.
- RestoreState: positions are unbounded, so the wrap-around of `pos + n` for a length near 2^64 is not modelled.
- InDegrees: the in-degree counters are set up by a comprehension instead of the loop over the affected nodes.
- StepView: an abstract query and its answer stand for a circuit of operators.
- QuantileCont: over reals.
- RestorePackedIndex: the 32-bit offsets and lengths of the directory are unbounded numbers.
- 64-bit overflow of weights, counts and integer sums.
- PlanAggregateNode: the run covers COUNT, SUM, AVG, MIN and MAX; quantiles, MAD, MODE, FIRST and ordered lists are proved as algorithms, not inside the node.
- Create: a source that is not tracked yet is refused; the source tracks it on the way and leaves it tracked when creation fails (include/dbsp_cdc.hpp:2397-2404).
- EveryOrderRightIff: that an exposed batch is wrong somewhere needs a row that orders before the deleted ones, a projection that tells rows apart, and as many rows outliving the batch as the view reaches. For one given window the answer also hangs on which sums the weights of a batch can make, and is not characterised.
- FoldedIff: the body stands between white space and at the end of the text.
- Takes: a row or key that the codec does not carry is an error in packed storage, lengths beyond 32 bits among them.
- Spilled storage of arrangements, join indexes, aggregates and baselines.
- MARK joins over packed storage, which the source does not build.
- Several arrangements over one source are one per source name.
- The arrangement file written early at registration, and automatic checkpoints.
- Threads: a parallel level, shard or decode is any order.
- Dropping views, and the read gate over untrusted baselines.
- The distinctness of table and view names is a precondition of registering a view.
- Classification of statements by DuckDB's parser, catalogs, connections, expression execution, hashing.
- The token path of the parser extension and its error texts; bytes above 127 are not letters for its scanner.
- CreateRoundTripIff: names without quotes are runs of name characters, not dotted ones; `if` stands in quotes, because the parser takes it for a guard.
- JSON save and load, view mirroring tables, statistics, crash markers, legacy view classes, set operations, DISTINCT ON, recursive queries, window functions.
