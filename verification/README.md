# Everett: a Dafny model of its indexes, merges, codecs and publication protocol

Everett keeps a multi-version ordered store as immutable, front-coded runs of records. Runs are tied together by a
fractional index in the style of a cache-oblivious lookahead array (COLA). This project models the parts that carry
the argument that the store answers correctly, and proves them:

- **The fractional index.** A node merges its native keys with samples borrowed from two targets, and stores group
  populations, false-borrow flags and cut common prefixes. `ColaSpec` gives that metadata a direct definition
  (`WellFormed`); `ColaBuilder` proves that the incremental builder produces it, and `ColaScan` that the recovery scan
  accepts exactly it. The frontier never compares whole keys: it carries common prefixes with the preceding key.
- **Lookups.** `ColaSearch` proves one routed window exact, `ColaQuery` proves that the cascade over a chain returns
  every match of a key, newest first, and nothing else. `ColaRoot` prepares bounded query heads; `NativeSweep` scans
  ranges over all runs at once.
- **Merging native runs.** `NativeStreams` reads encoded frames without ever materialising keys, `NativeMerges` merges
  two streams, `NativeMeaning` shows that the result is the key-wise composition of the inputs, and `NativeBuilders`
  drives the merge in bounded steps and states what every finished frame retains.
- **The charged executor.** `ColaRuntime` admits records, prices and performs the private carry chain in seven stages,
  and publishes replacements. `RuntimePrices` gives the exact price of the rest of a chain, so that service is known to
  publish exactly when it is paid for. `RuntimeSnapshots` states what a snapshot means: the fold of the whole log.
- **Bottom-up index pipelines.** `IndexStages` and `IndexPipelines`: bounded stages that hand each other coded samples.
- **Codecs.** Elias-Fano sequences (`LowFields`, `EliasFanos`, `EliasSelect`), in-word selection (`SelectWords`,
  joined to bit positions by `WordBits`), LEB128 counts (`CountCodes`), the front-coded native array (`NativeWriters`,
  `NativeReaders`), and the bridge from merge output to its bytes (`NativeBytes`).
- **Fixed-width search** (`FixedSearch`) and **the merge publication protocol** (`Durability`).

`dafny verify dfyconfig.toml` checks the project.

How the original is represented:

- A key is a sequence of symbols compared lexicographically: bits in the index and runtime modules, bytes in the byte
  codecs, 32-bit words in `FixedSearch`. `Lcp` and `Order` are the two halves of a `bit_comparison`.
- An index node is an immutable datatype value (`ColaSpec.Index`) and a run is a value (`ColaSpec.Run`); builders,
  cursors, writers, executors and the publication object are classes whose fields change in place.
- A raised error is a refused result (`None`, `false`), or it is proved that no admissible state can raise it.
- Ghost parameters (`items`, `streams`, `boundary`, `source`, `records`, `log`) name what a state is about; they are
  erased and no computed value depends on them.

## Model

| member | source | states |
|---|---|---|
| Keys.LcpIs | include/everett/profile.h:215-241 | the common prefix agrees symbol by symbol and cannot be extended |
| Keys.LcpUnique | include/everett/profile.h:215-241 | agreement and maximality determine that length uniquely |
| Keys.LcpOrderedMin | include/everett/cola_index.h:71-77 | over a sorted triple the outer common prefix is the minimum of the two inner ones, and strictness carries over: why a replaced winner lowers every recorded prefix by a minimum |
| Keys.FrontierOrder | include/everett/cola_index.h:63-65 | of two heads that follow the same key, the one sharing strictly more with it comes first, and their own common prefix is the smaller shared length |
| Keys.SuffixOrder | include/everett/cola_index.h:66-70 | heads that agree on their first k symbols compare, in order and in common prefix, exactly as their suffixes do |
| StableMerge.MergeIsOrderedInterleaving | include/everett/cola_index.h:50-81 | for sorted streams, taking the least head with ties to the earlier stream yields an interleaving that is stably ordered, and every stably ordered interleaving arises that way |
| StableMerge.MergeUnique | include/everett/cola_index.h:110-113 | the augmented order of given streams is unique |
| Frontier.FrontierCompareExact | include/everett/cola_index.h:63-70 | the comparison by carried prefixes returns the order and common prefix of comparing the whole keys, in both branches |
| Frontier.ChooseFrontier | include/everett/cola_index.h:53-81 | the selected head is the least live one with ties to the earlier origin, and every returned entry is the common prefix of that head with the winner; no origin exactly when nothing is live |
| Frontier.FrontierAdvance | include/everett/cola_index.h:439-462 | after consuming the winner, its new head's edge and the lowered prefixes again describe all heads relative to the consumed key |
| SampleCursors.AdvanceState | include/everett/cola_index.h:439-462 | one advance moves min(K, rest) occurrences, and the running minimum of edges returned is the exact comparison of the old and new sample keys |
| SampleCursors.SampleCursor.Peek | include/everett/cola_index.h:425-431 | the exposed sample is the occurrence at the cursor, with its origin and its ordinal inside that origin |
| SampleCursors.SampleCursor.Advance | include/everett/cola_index.h:432-462 | the class keeps its invariant, lands on the next multiple of K or the end, and returns the whole-key comparison only when asked |
| ColaBuilder.Record | include/everett/cola_index.h:529-580 | recording one occurrence keeps ranks, flags and cuts of both routes equal to their direct definitions over the merged prefix |
| ColaBuilder.StepTerminal | include/everett/cola_index.h:632-642 | without targets the builder advances by whole chunks, reading no key, to the same exact metadata, consuming min(budget, rest) |
| ColaBuilder.ConsumeOne | include/everett/cola_index.h:529-580 | one opened step records the next occurrence of the stable three-way merge and keeps heads, carried prefixes and positions exact |
| ColaBuilder.ColaIndexBuilder.constructor | include/everett/cola_index.h:505-515 | a builder over trusted sources starts with an invariant that ties it to the merge of its three source streams |
| ColaBuilder.ColaIndexBuilder.Done | include/everett/cola_index.h:520-522 | the cursor test, or the count test without targets, holds exactly when the whole merge is consumed |
| ColaBuilder.ColaIndexBuilder.Step | include/everett/cola_index.h:529-580 | consumes exactly min(budget, rest) occurrences and keeps the invariant, however the budget is split |
| ColaBuilder.ColaIndexBuilder.Finish | include/everett/cola_index.h:581-592 | the finished node is well formed: its samples are exactly every K-th key of its targets and all populations, flags and cuts are the directly defined ones; each borrowed key retains of the one before it their common prefix in whole units |
| ColaBuilder.AssembledWellFormed | include/everett/cola_index.h:581-592 | complete books over trusted sources assemble into a well-formed node |
| QueryContexts.ReadDescribes | include/everett/profile.h:419-435 | advancing over one record (retained length and literal only) yields the exact comparison of its whole key with the query, and the anchor check cannot fail |
| QueryContexts.StepBackDescribes | include/everett/profile.h:437-449 | stepping back by a cut common prefix describes the earlier key exactly and never above the query |
| QueryContexts.FindInWindow | include/everett/cola_index.h:227-232 | scanning records up to the first above the query finds the query in the window if and only if it is there |
| ColaSearch.Project | include/everett/cola_index.h:152-171 | the projected window of every stream is exactly its entries inside the group; no consistency error can be raised on a well-formed node |
| ColaSearch.WindowsTile | include/everett/cola_index.h:152-171 | the three windows of a group together hold exactly the group's occurrences and stay inside their streams |
| ColaSearch.FalseBorrowRecovers | include/everett/cola_index.h:238-242 | a false borrow equal to the query whose native lies outside the window has that native immediately before the window |
| ColaSearch.MissedHasFalseBorrow | include/everett/cola_index.h:180-182 | whenever the native match precedes the routed group, the group opens with an equal false borrow on some route: the recovery branch never misses |
| ColaSearch.SearchRoute | include/everett/cola_index.h:233-252 | the remembered borrow is the last one at or below the query in the whole stream, found in the window or just before it through the cut, with an exact context |
| ColaSearch.SearchWindow | include/everett/cola_index.h:220-254 | one routed group decides the node: native match present if and only if the query is a native key, and exact borrowed predecessors on both routes |
| ColaQuery.SearchSecondary | include/everett/cola_index.h:266-287 | the K-window named by a predecessor contains the leaf's only possible match, and it is found exactly when the key is in the leaf |
| ColaQuery.NothingDownstream | include/everett/cola_query.h:219-221 | if the query precedes a node's whole augmented order, no node below it holds the key: the walk may stop |
| ColaQuery.NoMain | include/everett/cola_query.h:217-221 | without a borrowed predecessor on the main route nothing in the rest of the chain can match |
| ColaQuery.VisitNode | include/everett/cola_query.h:202-216 | a visit returns the node's native and secondary match exactly, and either routes to the bracketing group of the main target or proves the rest empty |
| ColaQuery.VisitStep | include/everett/cola_query.h:202-224 | what a visit found, followed by what the onward route still holds, is what the node and its chain held before |
| ColaQuery.QueryCursor.constructor | include/everett/cola_query.h:238-242 | a cursor on a bounded head starts with exactly the chain's matches of the key remaining |
| ColaQuery.QueryCursor.Step | include/everett/cola_query.h:197-227 | the number of nodes passed is exact, and it is the whole budget unless a match is pending or the chain has ended; nothing that remains to be handed out is lost |
| ColaQuery.QueryCursor.TakeMatch | include/everett/cola_query.h:228-235 | pending matches leave native first, one at a time, and nothing else is lost |
| ColaQuery.Cascade | include/everett/cola_query.h:173-227 | driving a cursor to its end returns exactly the list of matches defined by looking the key up in every run of the chain, in chain order |
| ColaRoot.AdoptPrepared | include/everett/cola_query.h:47-62 | a head is adopted if and only if it is present, fits one group, and every node's sample counts agree with its targets |
| ColaRoot.AdoptedRoutes | include/everett/cola_query.h:51-60 | the count checks hold along a chain if and only if every sample of every node names a group inside its target and no group of a target is without its sample |
| ColaRoot.WellFormedAgrees | include/everett/cola_query.h:47-62 | every well-formed chain passes those count checks |
| ColaRoot.FirstValue | include/everett/cola_query.h:120-167 | the early-exit lookup returns the value of the first match of the full cascade, or none exactly when there is none |
| ColaRoot.AdoptNative | include/everett/cola_index.h:657-663 | building over given targets keeps the native run and targets and yields a well-formed node |
| ColaRoot.PrepareRoot | include/everett/cola_index.h:664-674 | a head that fits one group stands as it is, otherwise routing nodes are added until one does; this terminates, stays well formed, and changes no lookup |
| ColaScan.ScanMetadata | include/everett/mapped_cola.h:118-175 | the scan of ranks, classes, cuts, flags and counts passes if and only if all of it equals its direct definition |
| ColaScan.ScanMainSamples | include/everett/mapped_cola.h:176-185 | passes if and only if the borrowed keys are every K-th key of the target's augmented order, no more and no fewer |
| ColaScan.ScanSideSamples | include/everett/mapped_cola.h:186-199 | passes if and only if the borrowed keys are every K-th native key of the leaf |
| ColaScan.ScanRoutes | include/everett/mapped_cola.h:118-200 | the complete node scan accepts if and only if samples and metadata are exact |
| ColaScan.ScanChain | include/everett/mapped_cola.h:105-117 | walking head first, every node's scan passes if and only if the whole chain is well formed; a node is scanned before its target is known to be good |
| ColaScan.RescanBuilt | include/everett/mapped_cola.h:105-117 | a chain that the builder finished is accepted by recovery |
| NativeSweep.LowerBoundWindow | include/everett/cola_index.h:182-217 | the returned ordinal is the native lower bound of the key, also when its native lies before the cut, with exact predecessors on both routes |
| NativeSweep.SeedNode | include/everett/native_sweep.h:45-76 | one node of the seeding cascade yields true lower bounds for its native run and secondary, and either an exact onward route or the fact that everything below is above the bound |
| NativeSweep.SeedCascade | include/everett/native_sweep.h:41-76 | every run of the chain receives a lower bound |
| NativeSweep.OpenSweep | include/everett/native_sweep.h:37-94 | each source starts at its lower bound and the sweep stands before the first record at or above it |
| NativeSweep.Sweep.Peek | include/everett/native_sweep.h:97-97 | the exposed record is the next of the stable merge of all runs from their seeds, oldest run first among equal keys |
| NativeSweep.Sweep.Consume | include/everett/native_sweep.h:103-113 | consuming moves exactly one occurrence on and never finds a run out of order |
| NativeSweep.Sweep.Replacement | include/everett/native_sweep.h:115-123 | for increasing queries, the observation is the record of the newest run that holds the key, or none exactly when no run holds it |
| NativeStreams.DecodesTo | include/everett/profile.h:996-1006 | a sound stream spells exactly one run, and decoding it gives that run back |
| NativeStreams.Retain | include/everett/native_merge.h:128-141 | cutting the fragment stack to the retained prefix and pushing the literal again spells the next key; each advance adds at most one fragment, and what was popped is gone for good |
| NativeStreams.Materialize | include/everett/native_merge.h:61-70 | copying the fragments in order gives the current key |
| NativeStreams.CompareSuccessor | include/everett/native_merge.h:89-127 | walking fragments against the literal returns exactly the comparison of the two whole keys, starting at the retained prefix |
| NativeStreams.EncodedSource.AdvanceComparison | include/everett/native_merge.h:72-81 | fails exactly when the next key does not increase; otherwise it returns the comparison of the neighbouring keys |
| NativeMerges.CompareHeads | include/everett/native_merge.h:322-333 | carried prefixes and, if equal, suffixes decide exactly the whole-key comparison of the two heads |
| NativeMerges.Append | include/everett/native_merge.h:304-319 | the emitted frame keeps the whole common prefix with the key emitted before, for a tombstone at most the limit, and spells the rest of the key; the fallback that reconstructs a key and the writer's prefix error cannot be reached |
| NativeMerges.StepOne | include/everett/native_merge.h:227-268 | one step emits exactly the next entry of the whole-key merge and advances exactly the inputs that held its key |
| NativeBuilders.NativeMergeBuilder.constructor | include/everett/native_merge.h:193-196 | a builder over two streams is tied to the runs they spell |
| NativeBuilders.NativeMergeBuilder.Step | include/everett/native_merge.h:225-276 | emits at most the budget of distinct keys, stops early only at the end, and accounts every input record once |
| NativeBuilders.NativeMergeBuilder.Finish | include/everett/native_merge.h:278-288 | the output stream spells exactly the front-coded run of the merged entries; frame by frame it retains all that neighbouring keys share, or for a tombstone the least of that and what the records it replaces retained; the progress counters are its length and the input total |
| NativeBuilders.LimitIsLeast | include/everett/native_merge.h:235-266 | the limit handed along with each emitted key is the least retained length among the input records of that key |
| NativeBuilders.MergedRetains | include/everett/native_merge.h:304-319 | over the merged keys alone: every ordinary record retains its full common prefix with the key before it, every tombstone the least of that and its inputs' retained lengths |
| NativeMeaning.MergedNative | include/everett/native_merge.h:153-171 | the merge of two native runs is again a native run: strictly increasing, with admissible retained prefixes |
| NativeMeaning.MergeIsKeywise | include/everett/native_merge.h:153-159 | for every key the merged run holds the composition of the older and the newer value, the only one, or nothing |
| NativeMeaning.UnionCount | include/everett/native_merge.h:165-165 | there is exactly one output record per key of the union |
| NativeMeaning.TombstonesRetainLeast | include/everett/native_merge.h:304-319 | an emitted tombstone retains no more than any input record of its key |
| RuntimeSnapshots.FoldConcat | include/everett/cola_runtime.h:138-139 | adjacent stretches of the admission log compose, given associative composition |
| RuntimeSnapshots.HoldsMerged | include/everett/cola_runtime.h:454-465 | merging the runs of two adjacent intervals holds the fold of the joined interval |
| RuntimeSnapshots.SnapshotMeaning | include/everett/cola_runtime.h:140-158 | composing a published snapshot's matches, oldest first, is the fold of the whole admission log, for every key and layout |
| RuntimeSnapshots.LayoutsAgree | include/everett/cola_runtime.h:214-216 | two snapshots of one log answer every lookup alike |
| RuntimeSnapshots.Restore | include/everett/cola_runtime.h:162-183 | accepts exactly the heads and intervals of the documented frontier shape whose native runs fit their masses, and assigns sources oldest first |
| RuntimeSnapshots.RestoreAccepts | include/everett/cola_runtime.h:162-183 | every published snapshot, saved as its head and intervals, restores to itself |
| RuntimeSnapshots.RestoredIsPublished | include/everett/cola_runtime.h:162-183 | whatever is accepted of a trusted chain is a published snapshot: some log of that many admissions folds to exactly what the chain holds |
| RuntimeSnapshots.SettledIsBinary | include/everett/cola_runtime.h:147-150 | the masses of a settled frontier are the binary digits of the admission count |
| RuntimeSnapshots.UnsettledIsBinary | include/everett/cola_runtime.h:147-150 | with a carry pending they are the digits of the count before the last admission, followed by a single one |
| RuntimeJobs.MergeDone | include/everett/cola_runtime.h:454-465 | a finished merge doubles the carry; the next stage either merges two equal masses again or leaves a carry smaller than the run before it |
| RuntimeJobs.Near | include/everett/cola_runtime.h:365-371 | skipping small empty routing nodes loses no native run, stays well formed, and stops at the first node that is no empty router or whose target is too large |
| RuntimeJobs.IndexDone | include/everett/cola_runtime.h:474-482 | a finished index becomes the result or another carrier, over the same sources, until the head fits one group |
| RuntimeJobs.CarrierShrinks | include/everett/cola_runtime.h:474-482 | for K at least three each carrier is strictly smaller than what it samples, so carriers end |
| RuntimeJobs.PublishDone | include/everett/cola_runtime.h:483-488 | the replacement is an exact snapshot of the unchanged log, and it is settled |
| RuntimeJobs.AdmitDone | include/everett/cola_runtime.h:392-408 | adding one node over a settled frontier publishes the log extended by that record |
| RuntimePrices.MergeSteps | include/everett/cola_runtime.h:447-453 | one merged key lowers the price of the rest of the chain by exactly the price of a merge step |
| RuntimePrices.MergeFinishes | include/everett/cola_runtime.h:454-468 | finishing a merge does too, whether another merge of equal masses follows or an index over the nearest target |
| RuntimePrices.IndexFinishes | include/everett/cola_runtime.h:474-482 | finishing an index does too, whether another carrier follows or publication |
| RuntimePrices.NodeCount | include/everett/cola_runtime.h:372-387 | a main-only node counts its native keys and one sample for each group of its target, which is what its index was priced by |
| RuntimePrices.RestCoversPrice | include/everett/cola_runtime.h:409-421 | a chain always costs at least its next action, so credit below that price can finish nothing |
| ColaRuntime.Charge | include/everett/cola_runtime.h:422-439 | each stage's price is booked to its own categories, which add up to it, and the ledger stays balanced against the spent credit |
| ColaRuntime.Execution.NextPrice | include/everett/cola_runtime.h:409-421 | the price of each stage: constants, a scan of K and six more per occurrence, one unit per sampled block, or the runs and nodes to be published |
| ColaRuntime.Execution.constructor | include/everett/cola_runtime.h:337-345 | a new executor publishes the empty log; it has charged and granted seven units |
| ColaRuntime.Execution.FromSnapshot | include/everett/cola_runtime.h:231-233 | an executor over a snapshot keeps its log, has a job exactly when the snapshot is unsettled, and has paid for exactly that |
| ColaRuntime.Execution.Perform | include/everett/cola_runtime.h:440-490 | every stage keeps the whole invariant over an unchanged log, moves strictly nearer to publication and lowers the price of the rest of the chain by exactly its own price; before publication readers see the same snapshot |
| ColaRuntime.Execution.Serve | include/everett/cola_runtime.h:491-497 | service stops exactly at the first action the credit does not fund; what it charges is what the chain got cheaper by; the chain is finished if and only if the credit covered all it still cost |
| ColaRuntime.Execution.Drain | include/everett/cola_runtime.h:498-504 | a pending chain always ends over an unchanged log; exactly what it still cost is charged and exactly what the credit lacked is granted |
| ColaRuntime.Execution.ImmediateIndex | include/everett/cola_runtime.h:372-387 | builds a well-formed node over the target and charges exactly the occurrence, directory and navigation cost |
| ColaRuntime.Execution.Admit | include/everett/cola_runtime.h:392-408 | appends the record to the log, publishes it at once, and charges exactly the predicted admission cost |
| ColaRuntime.Execution.Advance | include/everett/cola_runtime.h:265-271 | the budget is granted and served: the settled replacement is published if and only if credit and budget cover the rest of the chain, otherwise all is spent but less than the next price, and progress is made whenever that price is covered; every lookup keeps its answer |
| ColaRuntime.Execution.Contribute | include/everett/cola_runtime.h:278-299 | a batch is admitted whole, in order, if and only if all value widths agree and the keys never decrease, repeated keys included; otherwise nothing changes at all; afterwards the budget has been served, and a single ready record costs the prediction plus what service spent |
| ColaRuntime.NeighboursOrder | include/everett/cola_runtime.h:281-289 | comparing only neighbours orders the whole batch |
| ColaRuntime.RepeatedKey | include/everett/cola_runtime.h:275-277 | a batch that repeats one key is in order, and its values compose one after another, in batch order, onto what the log held |
| ColaRuntime.Execution.TryContribute | include/everett/cola_runtime.h:257-261 | refuses without effect while a chain is pending; when ready, accepts exactly an agreeing value width, charging the predicted admission cost and then serving the budget |
| ColaRuntime.Read | include/everett/cola_query.h:197-235 | reading a key through the cascade and composing the matches gives the fold of all admissions |
| ColaRuntime.ReadNewest | include/everett/cola_query.h:120-167 | under replacement the first match alone is the fold of all admissions |
| IndexStages.EncodeKnown | include/everett/sampling.h:102-113 | the handoff names its ordinal, drops from the preceding key exactly the units past the common whole ones and spells the key from there; the encoder's context becomes the key |
| IndexStages.EncodeSample | include/everett/sampling.h:80-87 | the checked entry encodes if and only if the ordinal is the next group's and the key does not decrease |
| IndexStages.Accept | include/everett/sampling.h:144-161 | accepts if and only if the ordinal is the next group's, the backspace stays inside the preceding key and the decoded key does not decrease; then key and comparison are exact |
| IndexStages.CanonicalAccepted | include/everett/sampling.h:132-149 | the canonical code of a key in order is always accepted and spells that key |
| IndexStages.NextAccepted | include/everett/index_builder.h:282-303 | a stage never refuses the next code of the stream it is fed, and its ordinal is the number received times K |
| IndexStages.CodeIs | include/everett/sampling.h:95-106 | the x-th code of a sample stream names x K, drops the units past the common whole ones and spells the rest |
| IndexStages.CompareHeads | include/everett/index_builder.h:304-318 | carried prefixes, or suffixes from the last whole byte known to be shared, decide the next occurrence and the exact comparison |
| IndexStages.StepOne | include/everett/index_builder.h:119-164 | one occurrence keeps ranks, flags, cuts, borrowed prefixes and the outgoing sample exact, although the borrowed stream is known only one key ahead |
| IndexStages.DoneIsComplete | include/everett/index_builder.h:83-85 | the done test holds exactly when the whole merge is recorded, the input is closed and the last sample is taken |
| IndexStages.IndexBuilder.Push | include/everett/index_builder.h:98-105 | accepts if and only if the input slot is free and the code passes the three checks, and then the recorded flow grows by that sample alone; a refused push changes nothing |
| IndexStages.IndexBuilder.CloseInput | include/everett/index_builder.h:109-113 | end of input changes nothing else |
| IndexStages.IndexBuilder.Step | include/everett/index_builder.h:115-165 | consumes at most the budget and stops only at an unknown input, an untaken sample or the end |
| IndexStages.IndexBuilder.TakeOutput | include/everett/index_builder.h:129-184 | the x-th sample to leave names ordinal x K, is the key at that position of this stage's merge, and keeps exactly the whole units shared with the sample before it |
| IndexStages.IndexBuilder.FinishIndex | include/everett/index_builder.h:212-235 | accepted if and only if the sample count fits the target extent; then the metadata equals its direct definition |
| IndexPipelines.SourceSampler.Advance | include/everett/sampling.h:205-221 | moves min(K, rest) occurrences of the two-way merge, native first among equal keys |
| IndexPipelines.CatalogLength | include/everett/index_pipeline_detail.h:28-37 | each catalog holds its native entries and one entry per K of the catalog before it |
| IndexPipelines.PipelineDriver.constructor | include/everett/index_pipeline_detail.h:45-50 | the amount of work of the whole pipeline is fixed at the start: samples of the source plus each stage's occurrences, samples and end of input |
| IndexPipelines.PipelineDriver.AdvanceOne | include/everett/index_pipeline_detail.h:102-151 | as long as the last stage is not done some quantum is taken, and it reduces the remaining work by exactly one: the pipeline cannot deadlock |
| IndexPipelines.PipelineDriver.Step | include/everett/index_pipeline_detail.h:64-77 | exactly min(quanta, remaining) quanta are taken and the no-progress error is never raised |
| IndexPipelines.PipelineDriver.Finish | include/everett/index_pipeline_detail.h:28-37 | every stage's metadata and borrowed prefixes equal the direct definition over complete catalogs, though none was ever materialised |
| LowFields.PackLow | include/everett/elias_fano.h:105-172 | whatever the destination held, afterwards every bit is the bit of its field and padding is zero, by whole tiles and a scalar tail alike |
| LowFields.ReadLow | include/everett/elias_fano.h:274-282 | one or two words shifted together give the field back |
| EliasFanos.TooLargeIs | include/everett/elias_fano.h:405-411 | the low width is the binary logarithm of the mean gap, and exactly those extents are refused whose low bits or high bits exceed the limit |
| EliasFanos.WriteHigh | include/everett/elias_fano.h:174-192 | exactly the positions of the entries are set, although each word is stored once |
| EliasFanos.BuildDirectory | include/everett/elias_fano.h:419-430 | every group's sample is right, wide groups are spelled out, and all spelled-out positions stay below a sixteenth of the high vector |
| EliasFanos.Build | include/everett/elias_fano.h:399-432 | refuses exactly the decreasing and the too large; otherwise all sections encode the source |
| EliasFanos.HighIsShort | include/everett/elias_fano.h:406-413 | with the chosen width the high vector of n values has fewer than 3n bits |
| EliasSelect.HighPopulation | include/everett/elias_fano.h:174-178 | the high vector has exactly one set bit per value, at strictly increasing positions inside it |
| EliasSelect.SelectSparse | include/everett/elias_fano.h:292-299 | a spelled-out group answers with the entry's position and no check fails |
| EliasSelect.SelectDense | include/everett/elias_fano.h:300-314 | at most 65 words from the sample are enough to find the entry's position |
| EliasSelect.Select | include/everett/elias_fano.h:259-286 | returns the value at the ordinal; only ordinals past the end are refused |
| EliasSelect.EliasFanoCursor.constructor | include/everett/elias_fano.h:332-346 | a cursor may start at any ordinal, inside a dense or a sparse group |
| EliasSelect.EliasFanoCursor.Next | include/everett/elias_fano.h:349-384 | each call yields the next value, across any mixture of dense and sparse groups |
| EliasSelect.RoundTrip | include/everett/elias_fano.h:397-432 | what is built is read back, value by value and as a suffix from any start, for every accepted sequence of 64-bit values |
| WordBits.SelectAgrees | include/everett/elias_fano.h:54-58 | selection on a 64-bit word and selection on its sequence of bits are the same relation |
| WordBits.SelectBit | include/everett/elias_fano.h:307-307 | the in-word selection used by the dense scan returns the set bit with that many set bits below it |
| SelectWords.BytesExact | include/everett/elias_fano.h:62-64 | after the parallel sums every byte lane holds the population of its byte |
| SelectWords.PrefixesSmall | include/everett/elias_fano.h:65-67 | the byte prefix sums of the multiplication stay below 128, so the marked subtraction cannot borrow across lanes |
| SelectWords.FindByte | include/everett/elias_fano.h:66-68 | the marked subtraction finds the first byte whose cumulative population reaches the target |
| SelectWords.SelectWord | include/everett/elias_fano.h:58-81 | the branch-free selection returns a set bit with exactly `ordinal` set bits below it, for all 64-bit words |
| CountCodes.WriteCount | include/everett/profile.h:533-536 | the loop writes the canonical LEB128 bytes of the number |
| CountCodes.EncodeIs | include/everett/profile.h:533-536 | all bytes of a code but the last are marked, the last is no padding, and the low seven bits of each, lowest first, make up the number |
| CountCodes.ReadCount | include/everett/profile.h:547-560 | succeeds if and only if a canonical code of a number below 2^64 stands at the offset, and returns that number and its end; padded, truncated and overflowing codes are refused |
| NativeWriters.ResidualMonotone | include/everett/native_writer.h:80-84 | block offsets less the fixed-width values never decrease and never go below zero |
| NativeWriters.NeverTooLarge | include/everett/native_writer.h:121-132 | for any array that fits in memory the offset codec's extent check cannot fail |
| NativeWriters.FinalOffsets | include/everett/native_writer.h:121-132 | what is handed to the offset codec at the end is always acceptable to it |
| NativeWriters.KeyNext | include/everett/profile.h:996-1006 | any retained length up to the exact common prefix rebuilds the key from its predecessor and literal |
| NativeWriters.NativeOutput.Append | include/everett/native_writer.h:65-119 | accepted if and only if the writer is active, the width agrees, the prefix is admissible and the bytes fit; then exactly one frame of counts, literal and value is appended, with a block offset at every block start, otherwise nothing changes |
| NativeWriters.NativeOutput.Finish | include/everett/native_writer.h:121-142 | an active writer always yields an array holding its records, with exact residual offsets, extent and terminal length |
| NativeWriters.ProfileNativeWriter.Append | include/everett/native_writer.h:181-203 | accepted if and only if the key increases, the width agrees and the bytes fit; the committed frame retains the common prefix cut at the limit and spells the rest |
| NativeWriters.ProfileNativeWriter.Finish | include/everett/native_writer.h:208-212 | the finished array's frames rebuild every entry that was appended |
| NativeReaders.PrefixFree | include/everett/profile.h:547-560 | no count's code begins another's, so reading back cannot confuse them |
| NativeReaders.BlockOffset | include/everett/profile.h:741-746 | restoring the fixed stride gives the physical start of the block, or the extent for the final sample; only ordinals past the end are refused |
| NativeReaders.ParsePayload | include/everett/profile.h:954-976 | a written body parses to its literal, value and end, and no bound check fails |
| NativeReaders.Locate | include/everett/profile.h:907-931 | replaying the controls of one block, without key bytes, finds the record's retained length and payload |
| NativeReaders.EncodedAt | include/everett/profile.h:758-762 | every record is found by ordinal; only ordinals past the end are refused |
| NativeReaders.NextRecord | include/everett/profile.h:978-994 | the successor is parsed from the previous frame's end, within and across blocks, and the offset check agrees |
| NativeReaders.VisitAll | include/everett/profile.h:824-837 | yields every key and value in order, and the extent and terminal checks pass |
| NativeReaders.ReconstructAt | include/everett/profile.h:842-865 | filling backwards from preceding literals gives the key's prefix up to the limit, its full length and its value |
| NativeReaders.WriteAll | include/everett/native_writer.h:158-212 | a batch is written if and only if keys increase, widths agree and the encoding fits |
| NativeReaders.RoundTrip | include/everett/native_writer.h:154-212 | exactly the writable batches are written, and then both the full traversal and the access to any one record return what was written |
| NativeBytes.RunFrames | include/everett/native_writer.h:62-76 | the frames of any native run, in particular of every merge output, meet the output's admission conditions |
| NativeBytes.WriteStream | include/everett/native_merge.h:304-319 | a merge output stream is accepted frame by frame and refused only for size; the resulting array decodes to the run |
| FixedSearch.Precedes | include/everett/fixed_search.h:48-58 | the branch-free word flags are the lexicographic order, strict or not |
| FixedSearch.WeightedSign | include/everett/fixed_search.h:64-68 | the weighted lane sum modulo 2^32, read as signed, lies within 15 of zero and has the sign of the lexicographic order |
| FixedSearch.PrecedesFour | include/everett/fixed_search.h:60-71 | the four-word comparison equals the lexicographic one |
| FixedSearch.BinaryBound | include/everett/fixed_search.h:200-218 | returns the bound in a sorted window; a complete window of 2^m - 1 keys takes exactly m probes, every nonempty window floor(log2 n) + 1 |
| FixedSearch.PopulationLanes | include/everett/fixed_search.h:119-141 | comparing all lanes first and folding words by shifted masks counts exactly the keys below the query, for every lane width |
| FixedSearch.PivotStep | include/everett/fixed_search.h:219-239 | three pivots keep the bound inside the chosen quarter |
| FixedSearch.SmallBound | include/everett/fixed_search.h:240-247 | for each size bucket the pivot steps leave at most four keys, and the bound is exact |
| FixedSearch.SimdBound | include/everett/fixed_search.h:248-254 | the bound is exact for every size and kernel |
| FixedSearch.BoundUnique | include/everett/fixed_search.h:175-184 | all searches that meet the bound contract agree, so the choice between them cannot change a result |
| Durability.MergePublication.Open | include/everett/durability.h:94-109 | a publication starts if and only if its identity is complete and its inputs are pairwise different |
| Durability.MergePublication.OnCheckpoint | include/everett/durability.h:120-137 | accepted exactly for a fitting checkpoint of the current generation that advances; a failed write keeps the previous one and leaves the outcome uncertain |
| Durability.MergePublication.OnOutput | include/everett/durability.h:139-143 | accepted exactly while building: verified output may be published, a failure leaves the outcome uncertain |
| Durability.MergePublication.OnPrepare | include/everett/durability.h:145-153 | accepted exactly after verified output and for an identity never used before |
| Durability.MergePublication.OnManifest | include/everett/durability.h:155-160 | accepted exactly while a manifest is pending: verified completion makes it the durable one, failure leaves everything but the stage, which becomes uncertain |
| Durability.MergePublication.OnFailure | include/everett/durability.h:164-168 | accepted exactly before publication; the outcome becomes uncertain and nothing else changes |
| Durability.MergePublication.OnResume | include/everett/durability.h:176-193 | accepted exactly with durable evidence, a fresh generation, the exact last checkpoint or none, and a reconciled selector if a manifest was attempted |
| Durability.MergePublication.OnRecovered | include/everett/durability.h:198-204 | accepted exactly in the uncertain stage, with durable evidence, for an attempted manifest, which becomes the durable one |
| Durability.MergePublication.OnRelease | include/everett/durability.h:209-212 | accepted exactly after publication; the first release reports that it released the old pins, later ones that nothing was left |
| Durability.ReachableGood | include/everett/durability.h:93-212 | in every state reachable by any sequence of events generations and manifests are pairwise different, and merge-owned pins are held until publication |
| Durability.PublishedStays | include/everett/durability.h:164-212 | publication is final: no event sequence changes the stage or the durable manifest afterwards |
| Durability.ChangesOnce | include/everett/durability.h:155-204 | over any run the durable manifest changes at most once, from the old root, and only on entering the published stage |
| Durability.PublishedProvenance | include/everett/durability.h:139-204 | a published manifest was freshly prepared after the output of its own generation was verified, and afterwards completed with verification or recovered on evidence: some accepted event did exactly that |
| Durability.FailureIsUncertain | include/everett/durability.h:120-168 | every accepted report of a failure leads to the uncertain stage and leaves durable manifest, checkpoint and pins as they were |
| Durability.LeavesUncertain | include/everett/durability.h:176-204 | the uncertain stage is left only on durable evidence: back to building under a fresh generation, or forward to the attempted manifest |
| Durability.VerifiedAdvances | include/everett/durability.h:139-160 | verified events do advance, each from the one stage it belongs to |
| Durability.EvidenceBetween | include/everett/durability.h:176-204 | over any run, between an uncertain state and a later one that is not, some accepted event carried durable evidence |
| Durability.CheckpointsForward | include/everett/durability.h:120-137 | between resumptions a checkpoint is never lost and its cursors and counters never move backwards |

## Left out

- 64-bit overflow checks: integers are unbounded; where the code's arithmetic relies on the width (selection in a word, weighted lane sums, counts, extents) it is modelled with bit-vectors or explicit moduli, and byte extents are bounded by 2^61 - 1.
- CountCodes.ReadCount: byte policies only; the exponential-Golomb counts and Golomb backspaces of bit policies are not modelled, because they would repeat the same round trip with another code.
- SelectWords.SelectWord: the portable path; the AVX bit-deposit path of `select_word` is not modelled.
- FixedSearch.PopulationLanes: registers are lanes of comparison bits; NEON's one- and two-word vector counts are not modelled separately (the four-word one is), nor is the measured choice `prefer_simd`, which `BoundUnique` makes immaterial.
- NativeSweep.Sweep.Consume: the standard heap is represented by its guarantee, a least element in front of the unordered rest, not by its array layout.
- NativeSweep.SeedCascade: lower bounds are recorded by run content, not by owner identity; equal runs have equal bounds.
- ColaScan.ScanChain: graphs are values, so cycles cannot be represented, and a suffix shared by several recovery roots is scanned again instead of being remembered.
- ColaRoot.AdoptPrepared: the cyclic-chain check has no counterpart for the same reason.
- ColaBuilder.ColaIndexBuilder.Step: the builder's out-of-order error is proved unreachable on trusted sources; its behaviour on untrusted sources is not modelled.
- NativeBuilders.NativeMergeBuilder.Step: the cursor that forwards encoded literals is modelled; the key-aware variant that materialises keys, and failed compositions, are not.
- IndexStages.Accept: the full-key input mode of `index_builder` and the refusal of keys and suffixes that are not whole units long are not modelled.
- IndexStages.IndexBuilder.Push: the sample stream is a ghost value named at construction, and an accepted code is assumed to spell its next key; a run whose later samples depend on earlier output is covered by naming the keys it turns out to accept, which never decrease.
- ColaRuntime.Execution.Advance: exceptions and the poisoned state after them, moved-from objects and the pinning of shared owners are not modelled; the runtime merges values of symbols, that is with a unit of one.
- Rank directories: group populations are stored as plain sequences and rank is their prefix sum; the packed encodings in `rank_groups.h`, `rank.h` and `rank15.h` are not part of this model.
- Window size checks in `compare_window` and all work counters that only report progress (`profile_comparison_work`, `sampling_work`) are left out.
- The two-way `profile_blob` container, sorted profiles, sessions, transactions, worlds, the SQLite catalog, mapped files and file sealing are not part of this model; they wrap the structures above.
- Durability: the backend that supplies completion and recovery events is the environment; any sequence of events is considered, and the evidence values are taken as given.
