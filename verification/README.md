# Verified models of rgctl's incremental analysis, dashboard and packaging

Dafny models of the stateful and algorithmic cores of this repository, and proofs of what they promise. Each module
stands for one source file, or for one protocol between files. Code that changes things step by step is a class or a
method with loops, proved against a specification; what that specification means is then proved in lemmas, for all
inputs, all runs and all interleavings.

| module | models |
|---|---|
| `AnalysisStorage` | the sidecar index that survives between discover runs: insert, id sync, purge |
| `DiscoverCfg` | the incremental CFG batch: grouping, cache hits, remaps, shortcut, counters, index refresh |
| `IncrementalRuns` | what the index promises over whole histories of batches |
| `GraphLayout`, `GraphColors` | union-find component colouring with path compression; colours down to hex text |
| `SliceEngine` | the worklist program slicer |
| `CfgView` | breadth-first layering and placement of a control flow graph |
| `DataflowEngine` | the data-flow graph built from PDG and CFG |
| `EngineWorker` | the request protocol between page and worker, in every interleaving |
| `DashboardWorker` | the worker's slice and record handlers with their caches |
| `BlastView` | the last-request-wins state machine of the blast-radius view |
| `ExtractJson` | the bracket scanner that finds JSON in a program's output |
| `CfgRecordIndex` | the RBCI record pack: writer, index parser, range fetch |
| `VocabMatrix` | the RBVK vocabulary blob: normalisation, writer, reader |
| `AgentPack` | which artifacts of the agent pack are installed where |
| `Walks`, `Ordering`, `Text`, `LittleEndian`, `Wrappers` | shared notions: graph walks, sorting, trimming, byte order, `Option` and `Result` |

`dafny verify dfyconfig.toml` checks the whole project. Every inductive proof is written out; lemmas on which Dafny
would try an induction of its own carry `{:induction false}`.

## Where code and expectation part

- The shortcut of the batch reports no skips and does not look at functions without a code hash. So a warm run agrees
  with a cold one exactly when the shortcut does not fire or every function has a CFG language, a hash and a source
  (`IncrementalRuns.WarmBatchEqualsCold`), and agrees up to skips exactly when no function is exposed
  (`IncrementalRuns.ShortcutAgreesUpToSkips`). Both sides occur: `IncrementalRuns.WarmCanDifferFromCold` and
  `IncrementalRuns.ShortcutCanOverlook` give inputs where they differ.
- Stable keys are joined with U+001F. A key can be read in one way only exactly when neither path nor name nor hash
  contains that character (`AnalysisStorage.UnambiguousExactly`). Functions whose path and name are free of it
  share a key only with the same path, name and hash, whatever the hash (`AnalysisStorage.StableKeyInjective`).
  Statements about the index after a run ask for such functions; statements about the counters of a run do not.
- The palette has 360 colours. The colours tell components apart exactly when there are at most 360 of them
  (`GraphLayout.ColorsSeparateComponents`); `GraphLayout.ColorsCanCollide` names nodes that they do not tell apart.
- A record index is read back exactly when every offset is a multiple of the spacing of 64-bit floating point numbers
  around it, which every offset up to 2^53 is and 2^53 + 1 is not (`CfgRecordIndex.IndexExactlyReadBack`,
  `CfgRecordIndex.WhichOffsetsSurvive`).
- The blast view ignores every late reply once the effect of a deselection has run. In the gap between the rendering
  and that effect a reply of the newest request is still shown (`BlastView.LateReplyIgnored`,
  `BlastView.ReplyInTheGapIsShown`).
- The blast view has one alert for requests and for loads of the function list, and a load clears it when it starts.
  So at rest with a selection the view shows the answer or an error unless a list is being loaded, and a load that
  starts then leaves the view blank exactly if no answer was shown (`BlastView.AtRestShowsSelection`,
  `BlastView.LoadHidesError`, `BlastView.LoadHidesExactlyErrors`). A deselection does not clear the alert
  (`BlastView.ErrorOutlivesSelection`).
- Unmounting the page terminates the worker and leaves the pending promises as they are: they are never settled
  (`EngineWorker.UnmountAbandons`).

## Model

| member | source | states |
|---|---|---|
| AnalysisStorage.StableKeyInjective | crates/rgctl-analysis/src/storage.rs:23-25 | two functions with the same key have the same path, name and hash, if paths and names are free of the separator |
| AnalysisStorage.StableKeyCollides | crates/rgctl-analysis/src/storage.rs:23-25 | with the separator inside a name, two different functions own one key |
| AnalysisStorage.UnambiguousExactly | crates/rgctl-analysis/src/storage.rs:23-25 | no other path, name and hash have this key, exactly when none of the three contains the separator |
| AnalysisStorage.KeyParts | crates/rgctl-analysis/src/storage.rs:23-25 | a key begins with the path, then the name, and ends with the hash, with U+001F between them |
| AnalysisStorage.LastEntryStays | crates/rgctl-analysis/src/storage.rs:298-315 | of several entries with one key the last one is in the table |
| AnalysisStorage.OthersStay | crates/rgctl-analysis/src/storage.rs:298-315 | what no entry names stays as it was |
| AnalysisStorage.SyncTouchesOwnersOnly | crates/rgctl-analysis/src/storage.rs:383-405 | id sync leaves an entry alone unless some function has its key and its very hash |
| AnalysisStorage.SyncKeepsFindings | crates/rgctl-analysis/src/storage.rs:383-405 | pointing entries at current ids changes no key and nothing else in any entry |
| AnalysisStorage.NothingDropped | crates/rgctl-analysis/src/storage.rs:408-428 | a table from which no entry was dropped is the same table, so comparing sizes is enough to skip the write |
| AnalysisStorage.Storage.RefreshAnalysisIndexFromEntries | crates/rgctl-analysis/src/storage.rs:298-315 | the new table is the old one with all entries inserted, the later of two entries with one key winning |
| AnalysisStorage.Storage.SyncIndexFunctionIds | crates/rgctl-analysis/src/storage.rs:383-405 | the working copy that is written back only when something was remapped gives the same table as rewriting every id |
| AnalysisStorage.Storage.PurgeStaleByStableKeys | crates/rgctl-analysis/src/storage.rs:408-428 | exactly the entries with an active key remain, in whatever order the table is visited |
| DiscoverCfg.CfgAnalysisBatchResult.RecordSkip | src/cli/discover_cfg.rs:108-124 | the error counter and exactly the counter of the given reason go up by one, the event is kept when verbose, nothing else changes |
| DiscoverCfg.CfgAnalysisBatchResult.RecordWork | src/cli/discover_cfg.rs:326-350 | a success adds its flows, counts as hit or recomputation, and hands back its entry; nothing else changes |
| DiscoverCfg.PositionsOf | src/cli/discover_cfg.rs:439-462 | the positions listed for a file are all and only those of its functions, in ascending order |
| DiscoverCfg.GroupWorkItemsByFile | src/cli/discover_cfg.rs:439-462 | every function in a file with a CFG language is in exactly one group, that of its file, whatever order the table yields |
| DiscoverCfg.ProcessFileGroup | src/cli/discover_cfg.rs:464-509 | each function of a group ends as it would if looked at by itself; without the source all of them are skipped |
| DiscoverCfg.EntryKey | src/cli/discover_cfg.rs:899-905 | an entry handed back carries the key of its own function and the findings of a fresh analysis |
| DiscoverCfg.WorkIsOfFunction | src/cli/discover_cfg.rs:629-679 | completed work carries the id of its function, cached or not |
| DiscoverCfg.KeysOfFilesDiffer | src/cli/discover_cfg.rs:899-905 | functions of different files never write the same key, so the order of groups cannot matter |
| DiscoverCfg.MarkGrouped | src/cli/discover_cfg.rs:286-291 | the flagged functions are exactly those with a file that has a CFG language |
| DiscoverCfg.TotalOverAdd | src/cli/discover_cfg.rs:301-352 | a function can be counted in any order: adding it late gives the sum of adding it in its place |
| DiscoverCfg.IndexOverAdd | src/cli/discover_cfg.rs:364-364 | writing an entry late is writing it in its place, if no later function already written owns its key |
| DiscoverCfg.EventsOverAdd | src/cli/discover_cfg.rs:108-124 | the reported skips do not depend on the order in which functions are taken in |
| DiscoverCfg.EventsAreErrors | src/cli/discover_cfg.rs:108-124 | a verbose run reports exactly one event for every error counted |
| DiscoverCfg.SummedStep | src/cli/discover_cfg.rs:316-352 | taking in the next function of any group keeps counters, entries and events equal to the per-function fold over those done |
| DiscoverCfg.AddUp | src/cli/discover_cfg.rs:301-352 | for every order of groups the counters, events and written entries are those of the per-function fold |
| DiscoverCfg.TotalConserved | src/cli/discover_cfg.rs:301-370 | successes and errors are all functions, the three skip counters are the errors, hits and recomputations are the successes, unchanged equals hits |
| DiscoverCfg.PassSkips | src/cli/discover_cfg.rs:301-352 | for every index, a full pass counts as unsupported the functions without path or CFG language, as missing the others without a source, and as hits those known under their recorded hash |
| DiscoverCfg.ShortcutFromEntries | src/cli/discover_cfg.rs:923-956 | the shortcut counts the functions that the index knows and adds up the flows and vulnerable flows of their entries |
| DiscoverCfg.ActiveStableKeys | src/cli/discover_cfg.rs:531-550 | the active keys are those of functions with a hash, or with one that their source yields |
| DiscoverCfg.SyncStorageFunctionIds | src/cli/discover_cfg.rs:511-524 | ids are rewritten for exactly the functions that have a path and a hash |
| DiscoverCfg.SettleIndex | src/cli/discover_cfg.rs:364-368 | id sync and purge leave the current functions' entries, with current ids |
| DiscoverCfg.CountRemembered | src/cli/discover_cfg.rs:923-956 | the early-exit pass finds sums exactly when some function is eligible and all eligible ones are remembered |
| DiscoverCfg.TryFullIncrementalShortcut | src/cli/discover_cfg.rs:923-966 | the shortcut yields a result exactly then, with those sums, no skips and an unchanged archive |
| DiscoverCfg.ShortcutCounts | src/cli/discover_cfg.rs:957-966 | a shortcut result counts no error and no recomputation, and its successes are its hits and its unchanged |
| DiscoverCfg.RunFullPass | src/cli/discover_cfg.rs:277-364 | grouping, per-group work and aggregation together equal the per-function fold |
| DiscoverCfg.RunCfgAnalysisBatch | src/cli/discover_cfg.rs:230-375 | counters, events and the index left behind are those of the fold, with or without shortcut, in every order of groups; field by field, the skips and hits are the functions that the inputs tell; the archive is unchanged exactly when nothing was recomputed |
| IncrementalRuns.WarmPassEqualsCold | src/cli/discover_cfg.rs:585-679 | a pass with a truthful index reports the successes, skips per reason and flows of a pass without one |
| IncrementalRuns.PassFromInputs | src/cli/discover_cfg.rs:464-509 | with a truthful index a full pass succeeds and fails as a fresh analysis of each function does, and reports the sums of what those analyses find |
| IncrementalRuns.TrueReport | src/cli/discover_cfg.rs:301-352 | with a truthful index all ten counters of a full pass, from functions, sources and analysis alone |
| IncrementalRuns.EventsFromInputs | src/cli/discover_cfg.rs:108-124 | a verbose full pass reports a skip, with path, symbol and reason, exactly if some function was skipped for it |
| IncrementalRuns.PutOutcomeSound | src/cli/discover_cfg.rs:899-905 | writing back one outcome keeps every entry truthful |
| IncrementalRuns.SettledSound | src/cli/discover_cfg.rs:366-369 | id sync and purge keep every entry truthful |
| IncrementalRuns.BatchKeepsSound | src/cli/discover_cfg.rs:230-375 | a whole run, full or short, leaves a truthful index truthful |
| IncrementalRuns.EveryHistorySound | src/cli/discover_cfg.rs:230-375 | after any history of runs on changing sources and functions every entry tells what a fresh analysis would find |
| IncrementalRuns.HitOrRemap | src/cli/discover_cfg.rs:629-679 | a remembered function with its source is a hit or a remap whichever id its entry has, with the entry's findings |
| IncrementalRuns.ShortcutAgainstPass | src/cli/discover_cfg.rs:923-966 | the shortcut equals the pass without its skips if no function is exposed, else the pass recomputed something or succeeded less often |
| IncrementalRuns.ShortcutAgreesUpToSkips | src/cli/discover_cfg.rs:239-247 | when it fires, the shortcut reports what the full pass would, skips aside, exactly when no function is exposed |
| IncrementalRuns.ShortcutCanOverlook | src/cli/discover_cfg.rs:923-966 | beside a remembered function the shortcut overlooks one without a hash that the full pass completes |
| IncrementalRuns.ShortcutEqualsPass | src/cli/discover_cfg.rs:239-247 | when it fires, its findings are those of the full pass exactly when every function has language, hash and source |
| IncrementalRuns.WarmBatchEqualsCold | src/cli/discover_cfg.rs:230-375 | a run with a truthful index reports the findings of a run without one, exactly when the shortcut stays off or every function has language, hash and source |
| IncrementalRuns.WarmCanDifferFromCold | src/cli/discover_cfg.rs:239-247 | beside a remembered function the warm run leaves out the skip of one without a CFG language, which the cold run reports |
| IncrementalRuns.HeldUntil | src/cli/discover_cfg.rs:364-364 | once a function is remembered with its findings, writing back the others does not change that |
| IncrementalRuns.WrittenOrKept | src/cli/discover_cfg.rs:301-364 | every completed function is remembered after the write-back with its own findings, also when others wrote its key |
| IncrementalRuns.SettledKeeps | src/cli/discover_cfg.rs:366-369 | id sync and purge forget no current function that has a hash |
| IncrementalRuns.CompletedIsIndexed | src/cli/discover_cfg.rs:364-369 | after a full pass every completed function has an entry, also one without a recorded hash |
| IncrementalRuns.SecondRunTakesShortcut | src/cli/discover_cfg.rs:239-247 | after a full pass that completed every CFG-language function, all hashed and at least one, the next run takes the shortcut with the same successes and flows |
| IncrementalRuns.ShortcutStays | src/cli/discover_cfg.rs:239-247 | a run by shortcut leaves an index on which the shortcut fires again, with the same sums |
| IncrementalRuns.EveryLaterRunRecomputesNothing | src/cli/discover_cfg.rs:239-247 | after such a run, however many more follow, each takes the shortcut, recomputes nothing and reports the same flows |
| IncrementalRuns.NothingStale | src/cli/discover_cfg.rs:364-369 | after a run every key of the index belongs to a function of the current graph |
| IncrementalRuns.SyncedIdIsCurrent | src/cli/discover_cfg.rs:511-524 | id sync leaves an entry under the id of a function that owns its key |
| IncrementalRuns.RunSettlesIds | src/cli/discover_cfg.rs:629-679 | after a run a remembered function that shares its key with no other is a fast hit: no remap is left to do |
| GraphLayout.Climb | dashboard/src/graphLayout.ts:57-60 | following a parent stays in the tree, keeps the root and gets strictly higher: no cycles, so the search for the root ends |
| GraphLayout.Compress | dashboard/src/graphLayout.ts:61-65 | pointing a node at its root keeps the forest acyclic and changes no root |
| GraphLayout.Link | dashboard/src/graphLayout.ts:69-73 | hanging one root under another keeps the forest acyclic and merges exactly their two classes |
| GraphLayout.DisjointSets.Find | dashboard/src/graphLayout.ts:57-67 | both loops end; the result is the root of the node, and compression in place changes the root of no node |
| GraphLayout.DisjointSets.Unite | dashboard/src/graphLayout.ts:69-73 | exactly the classes of the two nodes merge |
| GraphLayout.ComponentsStep | dashboard/src/graphLayout.ts:75-77 | one more edge between nodes merges exactly the components of its ends |
| GraphLayout.ComponentsSkip | dashboard/src/graphLayout.ts:75-77 | an edge with an end outside the nodes connects nothing |
| GraphLayout.UniteAll | dashboard/src/graphLayout.ts:54-77 | afterwards two nodes have one root exactly when they are connected by edges whose ends are both nodes |
| GraphLayout.ClassesAreComponents | dashboard/src/graphLayout.ts:79-83 | the nodes that come first in their class of roots are the first nodes of the connected components |
| GraphLayout.LeadersComeFirst | dashboard/src/graphLayout.ts:79-83 | components are listed in the order in which their first nodes stand among the node ids, each once |
| GraphLayout.NumberRoots | dashboard/src/graphLayout.ts:79-83 | roots are numbered densely from zero in the order in which their components first come up |
| GraphLayout.NumbersFollowComponents | dashboard/src/graphLayout.ts:79-89 | nodes have one number exactly when they are connected, and every number below the count is taken |
| GraphLayout.ComponentColors | dashboard/src/graphLayout.ts:50-91 | every node gets the palette colour of its component's number, components numbered by first appearance |
| GraphLayout.ComponentColor | dashboard/src/graphLayout.ts:85-90 | all nodes of the k-th component to come up have colour k of the palette |
| GraphLayout.ColorsSeparateComponents | dashboard/src/graphLayout.ts:85-90 | sharing a colour means being connected, for all pairs of nodes, exactly when there are at most 360 components |
| GraphLayout.ManyComponentsCollide | dashboard/src/graphLayout.ts:85-90 | with more, the first nodes of components 0 and 360 are unconnected and share a colour |
| GraphLayout.ColorsCanCollide | dashboard/src/graphLayout.ts:85-90 | 361 different nodes without edges are not told apart by their colours |
| GraphColors.HexRoundTrip | dashboard/src/graphColors.ts:41-44 | a colour written in hex is seven characters and is parsed back unchanged |
| GraphColors.ShorthandDoubles | dashboard/src/graphColors.ts:80-96 | three digits mean the colour of each of them doubled |
| GraphColors.HslBySixths | dashboard/src/graphColors.ts:9-39 | for whole hues the conversion is the six-sided colour wheel: one channel full, one empty, one on a ramp |
| GraphColors.SixthInjective | dashboard/src/graphColors.ts:9-39 | after rounding to bytes no two of the 360 hues give the same colour |
| GraphColors.CommunityInBytes | dashboard/src/graphColors.ts:37-38 | every channel of a generated colour is a byte |
| GraphColors.HueRepeats | dashboard/src/graphColors.ts:4-7 | hues are equal exactly for indices congruent modulo 360, since 47 is invertible |
| GraphColors.HuesApart | dashboard/src/graphColors.ts:4-7 | from one community to the next the hue moves on by 47 degrees |
| GraphColors.FirstColor | dashboard/src/graphColors.ts:4-44 | community 0 has the colour #3e85cc, which is read as 62, 133, 204 in either case of its digits |
| GraphColors.PureColors | dashboard/src/graphColors.ts:9-39 | full saturation at half lightness gives the primary and secondary colours, a sixth of the circle apart |
| GraphColors.Greys | dashboard/src/graphColors.ts:9-39 | without saturation every hue gives the grey of the lightness |
| GraphColors.ColorsRepeat | dashboard/src/graphColors.ts:4-7 | colour texts are equal exactly for indices congruent modulo 360 |
| SliceEngine.FindCriterion | dashboard/src/sliceEngine.ts:11-18 | the first node at the line that touches the variable, absent exactly if there is none |
| SliceEngine.Enqueue | dashboard/src/sliceEngine.ts:28-36 | the queue keeps its entries and gains exactly the neighbours against or along the edges |
| SliceEngine.Closure | dashboard/src/sliceEngine.ts:20-37 | despite duplicate queue entries the loop ends, with exactly the ids reachable from the criterion |
| SliceEngine.FilterNodesKeeps | dashboard/src/sliceEngine.ts:44-44 | the returned nodes are those in the slice |
| SliceEngine.FilterEdgesInduced | dashboard/src/sliceEngine.ts:45-47 | the returned edges are those with both ends in the slice: the induced subgraph |
| SliceEngine.ComputeSlice | dashboard/src/sliceEngine.ts:3-60 | fails exactly if no node of the line defines or uses the variable; else the slice of the request: reachable nodes and induced edges in given order, and the strictly increasing lines of the slice, the criterion's among them |
| SliceEngine.SliceIsLeast | dashboard/src/sliceEngine.ts:11-58 | a backward slice is the least set that has the first node of the line touching the variable and, for every edge to a node it has, the edge's source, and forwards the target; with all nodes of the set and all edges inside it, each where it stands, their lines, and the share of lines left out |
| SliceEngine.SliceUnique | dashboard/src/sliceEngine.ts:3-60 | a request has only one slice, so any two results for it are the same |
| SliceEngine.SlicingDual | dashboard/src/sliceEngine.ts:28-36 | u is in the backward slice of v exactly when v is in the forward slice of u |
| SliceEngine.BackwardIsForwardReversed | dashboard/src/sliceEngine.ts:20-58 | the forward slice of the reversed graph is the backward slice with its edges turned round: same nodes, lines and reduction, everything in the same order |
| CfgView.BuildAdjacency | dashboard/src/CfgView.tsx:334-338 | the lists name exactly the targets of the edges out of each block |
| CfgView.Discover | dashboard/src/CfgView.tsx:344-352 | exactly the neighbours without a depth get the next one and are queued, and the queue stays ordered by layer |
| CfgView.SearchStep | dashboard/src/CfgView.tsx:344-352 | one round keeps the search invariant: depths are lengths of walks and finished blocks are relaxed |
| CfgView.RelaxedIsShortest | dashboard/src/CfgView.tsx:340-353 | relaxed depths are no longer than any walk |
| CfgView.Depths | dashboard/src/CfgView.tsx:340-353 | exactly the reachable blocks get a depth, and it is the length of a shortest walk from the entry |
| CfgView.PlaceBlocks | dashboard/src/CfgView.tsx:355-373 | each block is placed by its layer and by its rank among the blocks of the layer; of blocks with one id the last wins |
| CfgView.LayoutCfg | dashboard/src/CfgView.tsx:332-376 | every block is placed, in the layer of its shortest distance from the entry |
| CfgView.PlacesDistinct | dashboard/src/CfgView.tsx:363-373 | no two blocks have the same place |
| CfgView.LayoutInjective | dashboard/src/CfgView.tsx:363-373 | in the finished layout blocks with distinct ids are drawn at distinct places |
| CfgView.LayersAreDistances | dashboard/src/CfgView.tsx:363-373 | in the finished layout a block is drawn 120 across for every step of its distance from the entry, an unreachable one beside the entry |
| CfgView.LayoutByPaths | dashboard/src/CfgView.tsx:340-373 | every block is drawn 120 across for each edge of a shortest path of flow edges from the entry, and at 0 without a path |
| CfgView.EntryColumn | dashboard/src/CfgView.tsx:340-342 | the entry is drawn at 0 |
| CfgView.NextColumn | dashboard/src/CfgView.tsx:344-352 | along a flow edge from a reached block the drawing moves at most 120 to the right |
| CfgView.PreviousColumn | dashboard/src/CfgView.tsx:344-352 | a block that is not at 0 has a flow edge from one that belongs exactly 120 to its left |
| CfgView.ColumnUnique | dashboard/src/CfgView.tsx:370-370 | only one distance across is right for a block |
| CfgView.ColumnSpacing | dashboard/src/CfgView.tsx:363-373 | neighbours in a column, in block order, are drawn 80 apart |
| CfgView.LayerCentred | dashboard/src/CfgView.tsx:355-373 | the vertical positions of the blocks of one layer sum to zero |
| CfgView.LayoutCentred | dashboard/src/CfgView.tsx:363-373 | in the finished layout the vertical positions of every column sum to zero |
| DataflowEngine.SelectData | dashboard/src/dataflowEngine.ts:113-135 | the shown ids are those that the variable involves, and the data edges those about it, or failing that those among the shown ids |
| DataflowEngine.KeepPicks | dashboard/src/dataflowEngine.ts:111-145 | selected edges stay in the given order, each as often as it is there |
| DataflowEngine.BlanksDoNotFilter | dashboard/src/dataflowEngine.ts:108-108 | blanks around the variable do not matter, and a blank variable is no filter |
| DataflowEngine.SortNodesSorts | dashboard/src/dataflowEngine.ts:147-149 | sorting by line and then by id orders the nodes and loses none |
| DataflowEngine.BlockToNodes | dashboard/src/dataflowEngine.ts:70-82 | each block lists the ids of its nodes, in node order |
| DataflowEngine.BlockResolved | dashboard/src/dataflowEngine.ts:55-68 | the block of a statement is the recorded one, else the first whose lines, both ends included, have its line |
| DataflowEngine.BlockEnds | dashboard/src/dataflowEngine.ts:70-82 | first and last id of a block's list are its least and its greatest statement, and the list is empty exactly if it keeps none |
| DataflowEngine.CfgBridgeEdges | dashboard/src/dataflowEngine.ts:84-100 | flow edges are bridged one by one, in order; no bridge is lost to the final check of allowed ids |
| DataflowEngine.BridgeMeaning | dashboard/src/dataflowEngine.ts:90-98 | a flow edge has one bridge, from the greatest to the least statement, exactly when both blocks keep a statement |
| DataflowEngine.ComputeDataflowGraph | dashboard/src/dataflowEngine.ts:102-199 | for every filter and toggle the graph has the shown nodes in order and the selected data edges, control edges and bridges, in that order, with their counts and lines |
| DataflowEngine.NodesExactly | dashboard/src/dataflowEngine.ts:113-160 | the drawn nodes are, by line and then id, those that define, use or exchange the variable, each with its own text, variables and block; the lines are theirs |
| DataflowEngine.EdgesExactly | dashboard/src/dataflowEngine.ts:111-145 | a data or control edge is drawn exactly if it is in the dependence graph and filter and toggle ask for it |
| DataflowEngine.BridgesExactly | dashboard/src/dataflowEngine.ts:177-183 | the last edges of the graph are, in order, one bridge for each flow edge whose two blocks keep a shown statement, from a greatest to a least one; no other edge is a bridge |
| DataflowEngine.EdgesEndAtDrawnNodes | dashboard/src/dataflowEngine.ts:111-183 | from any well-formed dependence graph every edge of the built graph ends at drawn nodes |
| DataflowEngine.CountsAreExact | dashboard/src/dataflowEngine.ts:187-198 | each count is the number of edges of its kind and the three together are all edges |
| EngineWorker.EngineClient.Send | dashboard/src/useEngineWorker.ts:58-72 | the request gets the next number, its promise is remembered and it is posted; without a worker nothing changes |
| EngineWorker.EngineClient.OnMessage | dashboard/src/useEngineWorker.ts:17-49 | ready sets ready, an error without id is shown, an error with one rejects and a payload resolves the pending promise of its id with that text or content; nothing else changes |
| EngineWorker.EngineClient.Unmount | dashboard/src/useEngineWorker.ts:52-55 | only the worker reference is dropped; promises and numbering stay as they are |
| EngineWorker.ReceivedCounts | dashboard/src/useEngineWorker.ts:29-48 | delivering a reply moves exactly its id from pending to settled |
| EngineWorker.StepAccounted | dashboard/src/useEngineWorker.ts:17-72 | every step of page, worker or channel keeps each id in one place |
| EngineWorker.StepMatching | dashboard/src/worker.ts:35-82 | every step keeps each message and each settlement fitting the request of its id |
| EngineWorker.EveryRunSafe | dashboard/src/worker.ts:35-82 | both hold in every state of every interleaving |
| EngineWorker.ExactlyOnePlace | dashboard/src/useEngineWorker.ts:58-72 | while mounted each issued id is once in inbox, handling, channel or settled, and is pending exactly in the first three |
| EngineWorker.NeverSettledTwice | dashboard/src/useEngineWorker.ts:29-48 | no promise is settled twice, also around unmounting |
| EngineWorker.SuccessAnswersItsRequest | dashboard/src/useEngineWorker.ts:74-118 | a promise is resolved only with what was computed for its own request, in the payload kind that the page promises for it |
| EngineWorker.SettledIsFinal | dashboard/src/useEngineWorker.ts:17-49 | settlements are final: every later state of a run has them, in order, before any new ones |
| EngineWorker.SettlementHasReply | dashboard/src/useEngineWorker.ts:29-48 | in every run a promise is resolved only by a payload for it, with that payload, and rejected only by an error for it, with its text |
| EngineWorker.DeliveryTakesEffect | dashboard/src/useEngineWorker.ts:17-49 | in every run each message taken off the channel has its effect: ready, page error, rejection or resolution of its pending promise, and no other |
| EngineWorker.ReadyAndErrorAreTold | dashboard/src/useEngineWorker.ts:19-36 | the page is ready, or shows an error of its own, only because the worker said so |
| EngineWorker.SendTakesEffect | dashboard/src/useEngineWorker.ts:58-72 | in every run sending takes the next number, remembers the promise and posts the request, and without a worker changes nothing |
| EngineWorker.RunsBetweenSendsAreShort | dashboard/src/worker.ts:35-82 | without new requests a run is no longer than the work in its first state |
| EngineWorker.PendingMeansProgress | dashboard/src/useEngineWorker.ts:17-72 | as long as a request is pending some step is possible |
| EngineWorker.AtRestAllSettled | dashboard/src/useEngineWorker.ts:17-72 | when nothing can move any more, every issued request has been settled once |
| EngineWorker.UnmountAbandons | dashboard/src/useEngineWorker.ts:52-55 | a promise that is pending after unmounting stays pending and is not settled in any later state, also if more is sent |
| DashboardWorker.Worker.LoadSliceBundle | dashboard/src/worker.ts:188-202 | the bundle is the site's, cached or not; failures are not cached |
| DashboardWorker.Worker.HandleComputeSlice | dashboard/src/worker.ts:204-222 | the reply is the slice of the site's bundle at the requested line, variable and direction, or the failure to have one, whatever was cached before |
| DashboardWorker.Worker.LoadCfgRecordIndex | dashboard/src/worker.ts:243-264 | the index is the site's, cached or not, and the paths are set whenever it is |
| DashboardWorker.Worker.HandleLoadCfgDetail | dashboard/src/worker.ts:266-282 | the reply is the one of a worker without caches |
| DashboardWorker.DetailIsExportedRecord | dashboard/src/worker.ts:266-282 | a request for an exported function is answered from exactly the bytes exported for it |
| DashboardWorker.OtherDetailsFail | dashboard/src/worker.ts:247-276 | without a pack, and for a function that was not exported, the request fails with the message for that |
| DashboardWorker.BundleIsServed | dashboard/src/worker.ts:188-202 | the bundle has the graph that is served; only a missing source is filled in, with the excerpt of its lines |
| BlastView.BlastPanel.RunBlast | dashboard/src/BlastView.tsx:113-119 | a launch takes the next number, turns the spinner on, clears the alert and leaves the rest |
| BlastView.BlastPanel.Settle | dashboard/src/BlastView.tsx:119-131 | a reply touches what is shown only if its number is still the newest |
| BlastView.BlastPanel.Effect | dashboard/src/BlastView.tsx:135-157 | the effect clears on deselection, launches at once on a new selection, and else waits for the timer |
| BlastView.BlastPanel.TimerFires | dashboard/src/BlastView.tsx:152-154 | the waiting request is launched with the selection and depth it was set up for |
| BlastView.BlastPanel.StartLoad | dashboard/src/BlastView.tsx:72-75 | a list load clears the alert that requests write too |
| BlastView.BlastPanel.FinishLoad | dashboard/src/BlastView.tsx:85-90 | a loaded list replaces the entries and leaves the alert; a failed load writes it |
| BlastView.StepSane | dashboard/src/BlastView.tsx:72-157 | every render, effect, timer, reply and list load keeps the invariant of the view |
| BlastView.EveryRunSane | dashboard/src/BlastView.tsx:72-157 | the invariant holds in every state of every run |
| BlastView.ComputingMeansNewestInFlight | dashboard/src/BlastView.tsx:113-131 | the spinner is on exactly while the newest request is in flight; off, the result is absent or its answer |
| BlastView.AtRestShowsSelection | dashboard/src/BlastView.tsx:72-157 | at rest no other result than the answer for the selected function and depth is shown, and while no list is being loaded that answer or an error is |
| BlastView.LoadHidesError | dashboard/src/BlastView.tsx:72-91 | a run in which a list load clears the error of the request, so that at rest nothing is shown |
| BlastView.LoadHidesExactlyErrors | dashboard/src/BlastView.tsx:74-75 | a list load that starts at rest leaves something to see exactly if the answer was shown |
| BlastView.NothingAfterDeselection | dashboard/src/BlastView.tsx:135-142 | from the effect of a deselection until something is selected no result is shown or awaited, whatever is rendered, loaded or replied, and only list loads change the alert |
| BlastView.AlertStandsAlone | dashboard/src/BlastView.tsx:115-131 | unless a list load failed, an alert stands beside no spinner and no answer |
| BlastView.AlertHasCause | dashboard/src/BlastView.tsx:86-131 | an alert repeats the message of a request or a list load that failed |
| BlastView.EffectLaunchesOrWaits | dashboard/src/BlastView.tsx:144-157 | a newly selected function is asked for at once, also after a deselection; for the same one again the request waits for the timer and nothing else changes |
| BlastView.TimerAsks | dashboard/src/BlastView.tsx:152-154 | when the timer fires, the request that waited is made and the alert is cleared |
| BlastView.LateReplyIgnored | dashboard/src/BlastView.tsx:119-131 | without a selection an answer or a failure goes unnoticed exactly when its number is not the newest, as is certain once the effect has run |
| BlastView.ReplyInTheGapIsShown | dashboard/src/BlastView.tsx:135-142 | a run in which a reply between deselection and effect is shown |
| BlastView.ErrorOutlivesSelection | dashboard/src/BlastView.tsx:135-142 | a run in which the error of a request is still up after the deselection and its effect |
| ExtractJson.ScanChunk | scripts/run-structured-query-field-tests.py:189-210 | the inner loop finds the text up to where the own-kind depth first returns to zero, if it does |
| ExtractJson.ExtractFirstJson | scripts/run-structured-query-field-tests.py:181-218 | the value of the first position whose chunk parses, else the count on the last line, else nothing |
| ExtractJson.PassString | scripts/run-structured-query-field-tests.py:195-204 | a complete string, escapes included, leaves the depth as it was |
| ExtractJson.PassTree | scripts/run-structured-query-field-tests.py:193-209 | a complete nested value of either bracket kind leaves the depth as it was |
| ExtractJson.GroupClosesAtItsEnd | scripts/run-structured-query-field-tests.py:193-210 | the depth of a bracketed group first returns to zero exactly at its last character |
| ExtractJson.ChunkIsGroup | scripts/run-structured-query-field-tests.py:186-210 | the chunk tried at a group is the group, whatever stands around it |
| ExtractJson.ExtractFindsGroup | scripts/run-structured-query-field-tests.py:181-214 | brackets before a group that start no text that parses are passed over, as in a log prefix, and the value of the group is the answer |
| ExtractJson.ExtractReturnsFirst | scripts/run-structured-query-field-tests.py:181-214 | for every array or object and any tail, extraction returns it if nothing in the banner starts a text that parses |
| ExtractJson.ExtractReturnsPrinted | scripts/run-structured-query-field-tests.py:181-214 | for every array or object, printed after any banner without opening brackets and before any tail, extraction returns it |
| ExtractJson.CountIsRead | scripts/run-structured-query-field-tests.py:215-217 | a number printed on the last line is the count, negative ones too, if nothing is JSON |
| ExtractJson.PrintedEmpty | scripts/run-structured-query-field-tests.py:189-189 | the empty array and object are printed with their own brackets |
| ExtractJson.PrintedArray | scripts/run-structured-query-field-tests.py:189-189 | an array is printed between square brackets |
| ExtractJson.PrintedObject | scripts/run-structured-query-field-tests.py:189-189 | an object is printed between braces |
| CfgRecordIndex.FormatUuidInjective | dashboard/src/cfgRecordIndex.ts:8-11 | different ids are written differently |
| CfgRecordIndex.HexReads | dashboard/src/cfgRecordIndex.ts:8-10 | each byte of an id is written with its high digit first |
| CfgRecordIndex.UuidGroups | dashboard/src/cfgRecordIndex.ts:10-10 | an id is written in groups of 8, 4, 4, 4 and 12 digits |
| CfgRecordIndex.HeaderLayout | crates/rgctl-dashboard/src/cfg_record_pack.rs:76-84 | an index begins with RBCI, version 1 and the number of entries, least significant byte first |
| CfgRecordIndex.EntryLayout | crates/rgctl-dashboard/src/cfg_record_pack.rs:86-96 | entry i stands at byte 16 + 28 i: the id, eight bytes of offset and four of length, least significant bytes first |
| CfgRecordIndex.ParseCfgRecordIndex | dashboard/src/cfgRecordIndex.ts:13-44 | accepts exactly complete version 1 indexes, with the same message for each refusal, and reads their table |
| CfgRecordIndex.IndexRoundTrip | dashboard/src/cfgRecordIndex.ts:13-44 | parsing a written index gives every id its length and its offset as a browser number |
| CfgRecordIndex.WhichOffsetsSurvive | dashboard/src/cfgRecordIndex.ts:37-37 | an offset survives exactly when it is a multiple of the spacing around it: all up to 2^53 do, 2^53 + 1 does not |
| CfgRecordIndex.RoundsToNearest | dashboard/src/cfgRecordIndex.ts:37-37 | any other offset is rounded to a nearest multiple of the spacing, and between two such to the even one |
| CfgRecordIndex.IndexExactlyReadBack | dashboard/src/cfgRecordIndex.ts:13-44 | with distinct ids the parsed index is the written one exactly when all offsets survive |
| CfgRecordIndex.TableLookup | dashboard/src/cfgRecordIndex.ts:41-41 | with distinct ids each record is found under its own id |
| CfgRecordIndex.PrefixRejected | dashboard/src/cfgRecordIndex.ts:14-33 | every proper prefix of an index is refused |
| CfgRecordIndex.FetchReturnsRecord | dashboard/src/cfgRecordIndex.ts:46-65 | a non-empty record inside the data is returned exactly, whether the server honours or ignores the range; outside it the fetch fails |
| CfgRecordIndex.CfgRecordPackWriter.Append | crates/rgctl-dashboard/src/cfg_record_pack.rs:48-63 | a record that fits goes behind the data with an entry that says where; one too long changes nothing |
| CfgRecordIndex.CfgRecordPackWriter.Finish | crates/rgctl-dashboard/src/cfg_record_pack.rs:65-101 | the index file is the encoding of the entries appended |
| CfgRecordIndex.WritePack | crates/rgctl-dashboard/src/cfg_record_pack.rs:48-101 | the export fails exactly when a record is too long, else both files describe all records in order |
| CfgRecordIndex.EntriesLocate | crates/rgctl-dashboard/src/cfg_record_pack.rs:54-61 | each entry points at exactly the bytes of its record |
| CfgRecordIndex.PackDeliversRecord | dashboard/src/cfgRecordIndex.ts:13-65 | writing, parsing, lookup and fetch together return the record that was appended for a function |
| VocabMatrix.CollectTokens | crates/rgctl-analysis/build.rs:58-64 | the collected tokens are exactly the candidates of the text's lines |
| VocabMatrix.SortAscending | crates/rgctl-analysis/build.rs:65-65 | sorting orders the tokens and neither adds nor loses one |
| VocabMatrix.Dedup | crates/rgctl-analysis/build.rs:66-66 | dropping neighbours that are equal makes sorted tokens strictly increasing and loses none |
| VocabMatrix.NormaliseTokens | crates/rgctl-analysis/build.rs:58-69 | strictly increasing candidates, at most 40,000, and whatever was cut off lies behind all that was kept |
| VocabMatrix.VocabularyUnique | crates/rgctl-analysis/build.rs:58-69 | the text determines its vocabulary |
| VocabMatrix.TokenOf | crates/rgctl-analysis/build.rs:60-63 | every token is in lower case and 3 to 48 bytes long |
| VocabMatrix.WordIsCandidate | crates/rgctl-analysis/build.rs:58-64 | every word of 3 to 48 bytes alone on its line is a candidate in lower case, unless it begins with # |
| VocabMatrix.CommentIsNoToken | crates/rgctl-analysis/build.rs:60-61 | a comment line is no token and no token begins with # |
| VocabMatrix.BlankBefore | crates/rgctl-analysis/build.rs:60-60 | blanks before a line do not matter |
| VocabMatrix.BlankAfter | crates/rgctl-analysis/build.rs:60-60 | nor do blanks behind it |
| VocabMatrix.LowerLetters | crates/rgctl-analysis/build.rs:62-62 | capital letters become small ones and nothing else changes |
| VocabMatrix.LessExactly | crates/rgctl-analysis/build.rs:65-65 | tokens are ordered by their first differing byte, a proper prefix first |
| VocabMatrix.CutOff | crates/rgctl-analysis/build.rs:67-69 | a candidate is left out only if 40,000 tokens were kept |
| VocabMatrix.HashOfA | crates/rgctl-analysis/build.rs:20-27 | the published 64-bit FNV-1a values of the empty text and of the letter a |
| VocabMatrix.WeightsOfA | crates/rgctl-analysis/build.rs:92-97 | the weights 0, 1 and 255 of that hash |
| VocabMatrix.MixedDiffer | crates/rgctl-analysis/build.rs:93-95 | the 256 mixed hashes of a token are all different |
| VocabMatrix.HashBytes | crates/rgctl-analysis/build.rs:20-27 | the loop computes 64-bit FNV-1a |
| VocabMatrix.Weight | crates/rgctl-analysis/build.rs:93-97 | every weight lies between -125 and 125 |
| VocabMatrix.RowMajor | crates/rgctl-analysis/build.rs:89-99 | the weight of token i in dimension d stands at position 256 i + d |
| VocabMatrix.SignedRoundTrip | crates/rgctl-analysis/src/semantic_vocab.rs:110-113 | a weight survives the cast to a byte and back |
| VocabMatrix.WriteBlob | crates/rgctl-analysis/build.rs:70-99 | writes the documented layout; fails exactly on an empty vocabulary or a token too long for its length field |
| VocabMatrix.BlobSize | crates/rgctl-analysis/build.rs:3-9 | the blob has 16 bytes, 2 plus its length for each token, and 256 for each token |
| VocabMatrix.BlobHeader | crates/rgctl-analysis/build.rs:3-7 | the blob begins with RBVK, version 1, the number of tokens and 256, least significant bytes first |
| VocabMatrix.BlobToken | crates/rgctl-analysis/build.rs:8-8 | each token stands behind the earlier ones as two bytes of length, low byte first, and its text |
| VocabMatrix.BlobWeight | crates/rgctl-analysis/build.rs:9-9 | weight d of token i stands at 256 i + d behind the tokens, in two's complement |
| VocabMatrix.ReadAllTokens | crates/rgctl-analysis/src/semantic_vocab.rs:78-98 | reading from behind any number of tokens reaches the weights with the whole table |
| VocabMatrix.BlobRoundTrip | crates/rgctl-analysis/src/semantic_vocab.rs:50-120 | the reader recovers every token with its position and every weight from the written blob |
| VocabMatrix.PositionsFound | crates/rgctl-analysis/src/semantic_vocab.rs:97-97 | each token of a vocabulary is found under its own position |
| VocabMatrix.BuildIsReadable | crates/rgctl-analysis/build.rs:58-99 | what the build writes for a text is read back as that text's vocabulary |
| AgentPack.WorkflowUnlessMeta | src/cli/agent_pack.rs:231-252 | a skill file has a workflow exactly when it is not part of the meta skill |
| AgentPack.DestInjective | src/cli/agent_pack.rs:181-182 | two files of one directory never have one destination |
| AgentPack.Collector.CollectDirectory | src/cli/agent_pack.rs:167-229 | visited in any order, the files with a free destination become artifacts, and only they |
| AgentPack.CollectArtifacts | src/cli/agent_pack.rs:103-165 | the artifacts are a function of pack, manifest, agent list and flags, no two have one destination, and it fails on the first agent missing |
| AgentPack.FailsExactlyOnUnknown | src/cli/agent_pack.rs:91-113 | collection fails exactly when an agent is not in the manifest |
| AgentPack.AddedGrows | src/cli/agent_pack.rs:112-147 | what is collected stays collected |
| AgentPack.EveryFileInstalled | src/cli/agent_pack.rs:116-145 | every pack file below the skills or commands prefix of a chosen agent has its destination filled |
| AgentPack.NothingElseInstalled | src/cli/agent_pack.rs:112-161 | every artifact is the policy that was asked for, or comes from a pack file of a chosen agent, with its kind, workflow and destination |
| AgentPack.ArtifactsFromInputs | src/cli/agent_pack.rs:112-161 | every artifact is the policy that was asked for, or a pack file agents/host-ID/REST of a chosen agent that goes to REST below the agent's directory, with kind and workflow read off its skill or command name |
| AgentPack.SkillsInstalled | src/cli/agent_pack.rs:176-195 | every pack file below the skills directory of a chosen agent has its place below the agent's directory filled |
| AgentPack.CommandsInstalled | src/cli/agent_pack.rs:128-145 | so has every one below its commands directory |
| AgentPack.PolicyExactly | src/cli/agent_pack.rs:149-161 | the policy is installed exactly if it is asked for, is in the pack, and no agent's file goes to its place |
| AgentPack.CommandNamed | src/cli/agent_pack.rs:254-263 | the workflow of a command file is its name without extension and without the prefix rgctl- or rgctl: |
| AgentPack.RepeatingAgentsAddsNothing | src/cli/agent_pack.rs:112-147 | naming agents again, once or often, installs exactly the same |

## Left out

- CFG, dominator, PDG and taint construction: the parameter `analyze`, a partial function of path, name and hash. That
  it is one function for all runs means that the options of a run, taint analysis among them, do not change between
  runs; the index does not record them.
- Field writes, skeletons, archive bytes and stored analyses: a cache hit returns none of them, so warm and cold runs do
  not agree on them.
- Files behind the index, failed writes (the batch ignores them) and the number of removed orphans.
- Timing, profiles and thread pools: the parallel pass is an arbitrary order of groups.
- Reading sources and resolving their paths: the parameter `sources`.
- IEEE rounding of colours and positions: exact numbers instead. Only the numbers of the record index are rounded, since
  there rounding decides what is read back.
- The `rgb(...)` and `hsl(...)` branches of colour parsing, and the colour maps of bundles.
- GraphLayout: the search for a stored layout, ForceAtlas2 and labels.
- DataflowEngine: shortened display labels, the dominator graph, the list of variables and line highlighting.
  `localeCompare` is any comparison that orders all texts.
- DashboardWorker: the wasm engine, `expand`, `list_nodes`, `blast_radius` and `compute_dataflow` handlers, and metrics.
  Requests that overlap inside one `await` may fetch twice; the site is assumed not to change, so both fetches agree.
- EngineWorker: message contents beyond kind and arguments; a handler is any function of these or an error.
- BlastView: the score list, the sorting and the paging of the function list; a load counts as under way until its list
  is rendered. That a framework runs an effect it owes before it renders again is assumed:
  it is what `Enabled` says of `Render`.
- ExtractJson: `json.loads` is the parameter `loads`, and `ExtractReturnsPrinted` assumes that it parses what is printed.
  Digits beyond ASCII on a count-only line are not modelled.
- CfgRecordIndex.FetchReturnsRecord: the server answers a range as sections 14.2, 15.3.7 and 15.5.17 of RFC 9110
  allow, with the whole data, with exactly the requested part, or with status 416 where there is none. Transport errors
  and other statuses fail the fetch and are not part of the statement.
- VocabMatrix: the branch that copies a distilled blob, and the reader's UTF-8 validation.
- AgentPack: reading the zip, writing files, and id normalisation. Paths are texts in normal form; their components are
  not resolved.
- The layout worker: its replies carry no request id, so there is no promise about a single request.
