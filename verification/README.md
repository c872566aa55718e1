# A model of the workbench's protocols and algorithms

This project models the parts of the engineering-document workbench whose correctness is
not visible in any one function, and proves what they promise. `dafny verify dfyconfig.toml`
checks all of it.

- **Approval and deferred execution** (`ApprovalRecord`, `DeferredExecution`, `Decisions`). One approval
  row, written by the gate, the expiry sweep and any number of callers that race to carry out
  the approved action, while one run waits and any of them may crash. Every database block is
  one step of a transition system, and results are stated for every interleaving.
- **Model residency** (`ResidencyLedger`, `ResidencyMeter`, `Residency`). Admission control
  with least-recently-used eviction, where memory is charged once per physical model at its
  largest alias; the meter and the reconciliation are second views of the same ledger.
- **Chunking** (`Text`, `Splitting`, `ProseWords`, `WordLimit`, `PieceIds`, `Resplitting`,
  `Packing`, `PackingMargin`, `Sections`, `Chunker`, `ChunkOrigins`, `Searchability`,
  `TableRows`, `SmallParents`, `TitledPages`, `EmbeddingWindow`). From blocks on pages to a tree of chunks: heading stack,
  greedy packing with overlap, row-wise and sentence-wise splitting, and what of it fits the
  window of the embedding model.
- **Event streams** (`ServerSentEvents`, `EventStream`, `EventBus`, `StreamEnd`, `RunChannels`). The
  printer and the incremental parser of server-sent events (sections 9.2.5 and 9.2.6 of the
  WHATWG HTML Living Standard), and the replaying bus behind them.
- **Audit chain** (`AuditChain`). Appending, whole and windowed verification, and which
  changes verification notices. The hash is a parameter, assumed injective (such hashes
  exist: `SomeHashIsIdeal`).
- **Agent** (`PlanRepair`, `PlanContents`, `Evidence`, `AgentLoop`, `GatedCalls`, `CallLimit`,
  `Failover`, `StandIns`, `FailoverCycle`, `BreakerWindow`). Plan repair, the bounded execute loop, its evidence and the calls it can
  make, failover between model servers, and the breaker that ends it.
- **Ranking and citing** (`Citations`, `RankFusion`, `RankingMetrics`). `Option` and
  `Collections` hold what several modules share.

Where the code changes state step by step, a class or a method with a loop does the same in
Dafny and is proved equal to a specification function; the theorems are then about that
function. What people decide, what models, tools, searches and backends answer, and every
clock reading are arbitrary inputs.

## Where the code does less than it says

Each of these is a lemma with the exact condition, or with the inputs that show it.

- "At most once" holds in every interleaving; "exactly once" holds if and only if nobody
  stops between claiming and dispatching. A claim lost that way is lost for good
  (`DeferredExecution.ExactlyOnceUnlessLost`, `ClaimCanBeLostForever`).
- Evicting a model frees memory in the ledger only if it was the largest alias of its
  physical model; otherwise the unloaded weights stay charged under another name
  (`ResidencyLedger.DroppingFrees`, `EvictedButStillCharged`). The test for room charges a
  model's whole size even when its weights are resident under another name, and then models
  can be evicted for nothing (`RoomTestIsExact`). The comment at `providers/residency.py:272`
  promises to keep timing history that line 274 drops; the model follows the code.
- The check on chunk parameters (`rag/chunker.py:53-59`) is too weak for the embedding
  window: a budget as large as the window is accepted and can be overrun
  (`PackingMargin.AcceptedBudgetCanOverrun`; the exact margin is `WindowNeedsMargin`). What is
  embedded is the text under its section path, whose length nothing limits: the exact margin
  for both together is `EmbeddingWindow.EmbeddingNeedsMargin`, and with the default parameters
  a heading of 7000 characters overruns (`LongHeadingOverruns`).
- Cutting a sentence by words does not bring it within the budget if its words are long:
  the exact condition is `WordLimit.HardSplitNeedsShortWords`, and for whole blocks
  `SplittingNeedsShortWords`. Pieces of one block can carry the same id: exactly when is
  `PieceIds.IdsAreDistinct`, and `IdsRepeat` is a block for which they do.
- The browser's parser dispatches a frame cut off by a dropped connection, where section
  9.2.6 of the standard discards it (`EventStream.CutFrameIsDispatched`, `CutDataIsDelivered`).
- The replay buffer keeps 1000 events, but a subscriber that comes back can receive at most
  256 of what it missed, and on a finished run with 256 or more missed it gets an error
  (`EventBus.CompleteUnlessLost`, `RejoinAfterClose`). A reader whose queue is full when the
  run finishes gets no end marker and waits for ever (`StreamEnd.CloseEndsTheStream`).
- Audit columns outside the committed payload, the order of roles, and the end of the log can
  change unnoticed (`AuditChain.EditIsNoticed`, `DeletionIsNoticed`). The lock around `log`
  is released before the commit, so an event recorded on its own connection inside a request
  that later commits breaks the chain (`AuditChain.DurableInsideRequest`).
- Failover does not end merely because each call is shorter than the breaker's cooldown:
  with n dead backends, what decides is whether n - 1 calls are
  (`FailoverCycle.CooldownDecides`); if not, they are called in turn without bound
  (`RingIsCalledForever`).
- The breaker's window does not slide: four failures within a minute always open it, and
  three may not (`BreakerWindow.FourOpen`, `ThreeMayNotOpen`).
- A planner that names the document tool first on a retrieve step gets no document
  (`PlanRepair.DocumentIsPlanned`).
- A tool call that raises is not charged to the budget (`AgentLoop.LimitIsOnChargedCalls`), so
  `max_tool_calls` bounds the calls made only for short plans: exactly when the plan's tool
  steps are at most half of it, rounded up (`CallLimit.LimitHoldsForFew`). Plans have at most
  six steps, so the limit holds for calls made from eleven on, the default of twelve included,
  but not for the limits below that a request may ask for (`ElevenIsEnough`).
- Recall and nDCG can exceed 1 when the ranking repeats a relevant item; both are at most 1
  exactly when no more positions than relevant items are relevant
  (`RankingMetrics.RecallIsAFraction`, `NdcgNeedsFew`).

## Model

| member | source | states |
|---|---|---|
| ApprovalRecord.WriteKeepsSound | apps/api/src/workbench/agent/approval.py:109-198 | every write to an approval row keeps: approved only by someone other than the requester, executed only if approved, a result only if executed; and nothing already settled changes |
| ApprovalRecord.ClaimIsExclusive | apps/api/src/workbench/agent/deferred.py:172-188 | after a claim was tried on a row, no later attempt matches, whatever permitted writes come between, if and only if the row was already decided |
| ApprovalRecord.ApprovalTable.Request | apps/api/src/workbench/agent/approval.py:65-107 | adds one pending row that expires a day later and changes no other |
| ApprovalRecord.ApprovalTable.Decide | apps/api/src/workbench/agent/approval.py:109-168 | decides a pending, unexpired row of another requester; otherwise raises the first applicable error, and only the expired case writes |
| ApprovalRecord.ApprovalTable.ExpireStale | apps/api/src/workbench/agent/approval.py:176-198 | expires exactly the stale pending rows, reports how many, and leaves none stale |
| ApprovalRecord.ApprovalTable.Claim | apps/api/src/workbench/agent/deferred.py:172-188 | matches exactly an approved, unexecuted row, and marks only it |
| ApprovalRecord.ApprovalTable.Record | apps/api/src/workbench/agent/deferred.py:258-261 | stores the result on its row, if the row still exists |
| Decisions.StatusIsTheVerdict | apps/api/src/workbench/agent/approval.py:109-198 | after any run the row's status is what was said: pending until someone other than the requester speaks or a sweep comes a day after the request; then expired if it is that late, and otherwise approved or rejected as they said, under their name and at that time |
| Decisions.DispatchedOnlyOnYes | apps/api/src/workbench/agent/deferred.py:137-188 | the action is dispatched only if someone other than the requester said yes, within a day of the request |
| Decisions.NoMeansNo | apps/api/src/workbench/agent/approval.py:149-152 | once the first word that counts is a no, or comes too late, no continuation dispatches anything, and the run that asked is refused as soon as it looks |
| Decisions.WaitsAreKept | apps/api/src/workbench/agent/deferred.py:145-188 | the run's wait can end by itself, and leaves it waiting for an approver, exactly from three minutes after the request on; a caller's, which gives it the fixed failure, exactly from thirty seconds after its last look |
| Decisions.ResultIsTheTools | apps/api/src/workbench/agent/deferred.py:189-261 | what is recorded is the summary and artifacts the tool gave the owner of the claim, or the failure that names the tool |
| Decisions.ApprovedCanBeDelivered | apps/api/src/workbench/agent/deferred.py:118-269 | from every state with an approved, unclaimed action and its run still waiting, there are steps that carry it out once and hand the run the tool's result |
| DeferredExecution.StepsKeepInv | apps/api/src/workbench/agent/deferred.py:118-269 | the protocol's invariant holds after any run of any callers, the waiting run, the gate, the sweep and crashes, and the row only continues what it was |
| DeferredExecution.AtMostOnce | apps/api/src/workbench/agent/deferred.py:118-269 | in every interleaving the action is dispatched at most once, counting the run's own dispatch, which never happens for a row that carries an action |
| DeferredExecution.OnlyWhenApproved | apps/api/src/workbench/agent/deferred.py:137-188 | what was dispatched was approved, by someone other than who asked |
| DeferredExecution.DecisionIsFinal | apps/api/src/workbench/agent/approval.py:126-198 | from any reachable state on, decision, decider, claim and recorded result never change again |
| DeferredExecution.ReturnsTheRecord | apps/api/src/workbench/agent/deferred.py:145-188 | any two callers that got a result got the same one, the recorded one; a loser whose wait ran out gets the fixed failure; only "nothing to do" is empty |
| DeferredExecution.ApprovedCallIsNeverEmpty | apps/api/src/workbench/agent/deferred.py:118-188 | a call made once the row is approved and carries an action never returns the empty result, whatever happens during it |
| DeferredExecution.SummaryIsTruthy | apps/api/src/workbench/agent/deferred.py:231-256 | what the owner of the claim records is never empty, whether the tool finished or raised |
| Decisions.FirstLook | apps/api/src/workbench/agent/deferred.py:137-170 | a caller's first look gives it nothing unless the row is approved with an action, the recorded result if there is one, a wait if the claim is taken, and a try for the claim only if it is free |
| DeferredExecution.ExactlyOnceUnlessLost | apps/api/src/workbench/agent/deferred.py:172-213 | once the claim's owner has moved on, the action was dispatched exactly once if and only if no owner crashed, or lacked a requester, between claim and dispatch |
| DeferredExecution.LostStaysLost | apps/api/src/workbench/agent/deferred.py:145-188 | after such a loss no continuation dispatches the action |
| DeferredExecution.ClaimCanBeLostForever | apps/api/src/workbench/agent/deferred.py:172-232 | there is a run to an approved, claimed row from which the action is never dispatched |
| ResidencyLedger.AddingCosts | apps/api/src/workbench/providers/residency.py:78-98 | adding a model under one more name raises the resident total by at most its size, and never lowers it |
| ResidencyLedger.AddedExactly | apps/api/src/workbench/providers/residency.py:78-98 | it raises the total by exactly what its size exceeds the charge of its physical model by |
| ResidencyLedger.RoomTestIsExact | apps/api/src/workbench/providers/residency.py:198-202 | the test for room agrees with what loading will take, whatever the budget, if and only if no other name of the same weights is charged |
| ResidencyLedger.DroppingFrees | apps/api/src/workbench/providers/residency.py:78-98 | dropping a name never raises the total, and lowers it if and only if it was larger than every other alias of its physical model |
| ResidencyLedger.EvictedButStillCharged | apps/api/src/workbench/providers/residency.py:261-276 | after an eviction the physical model is still charged if and only if it had another alias |
| ResidencyLedger.SharedWeightsAreFree | apps/api/src/workbench/providers/residency.py:78-98 | adding a listed model is free exactly when another name of the same weights is in the ledger at that size or more, and costs its whole size when none is |
| ResidencyLedger.MeanOfLoads | apps/api/src/workbench/providers/residency.py:40-58 | the mean load time times the loads is the total time, and six seconds stand for no load |
| ResidencyMeter.MeterTotal | apps/api/src/workbench/providers/residency.py:121-158 | rows, one a physical model, that describe the ledger add up to the resident total |
| ResidencyMeter.RowDescribes | apps/api/src/workbench/providers/residency.py:131-151 | a row grouped newest first lists each alias of its physical model once, its largest size, whether any is pinned, and the newest one's idle and mean load time |
| Residency.ResidencyManager.ComputeResidentGb | apps/api/src/workbench/providers/residency.py:78-98 | the folded total is the sum over physical models of the largest alias |
| Residency.ResidencyManager.Forget | apps/api/src/workbench/providers/residency.py:186-196 | drops exactly one name |
| Residency.ResidencyManager.Release | apps/api/src/workbench/providers/residency.py:261-276 | drops an unpinned entry, leaves a pinned or missing one alone, and raises for a name the registry cannot place |
| Residency.ResidencyManager.Load | apps/api/src/workbench/providers/residency.py:234-251 | enters the model at its manifest size and pin, used now, with one more load of the measured time, or raises for an unknown provider |
| Residency.ResidencyManager.EvictUntilFits | apps/api/src/workbench/providers/residency.py:215-222 | evicts a prefix of the given order, each model only while the budget was still exceeded, until the new one fits or none is left |
| Residency.ResidencyManager.MakeRoomFor | apps/api/src/workbench/providers/residency.py:198-232 | evicts an unpinned, least-recently-used prefix, nothing when swapping is forbidden or there is room; afterwards the model fits or only pinned ones remain |
| Residency.ResidencyManager.Acquire | apps/api/src/workbench/providers/residency.py:161-184 | afterwards the model is resident at its manifest size and pin, and what is charged is what the rest was plus what that size adds; after swapping in a large one the total is within budget or every other model is pinned; each eviction was needed by the code's test for room, unpinned and oldest first |
| Residency.ResidencyManager.Snapshot | apps/api/src/workbench/providers/residency.py:121-158 | one row a physical model, under its newest name with that one's idle and mean load time; every resident name in exactly one, sizes adding up to the resident total |
| Residency.ResidencyManager.SyncFromProviders | apps/api/src/workbench/providers/residency.py:296-357 | a model is in the ledger exactly if a backend that reports models reports it, or it was there and its backend reports none; old entries are kept as they are and new ones are at manifest size, unpinned and unused |
| Residency.ReconciliationSettles | apps/api/src/workbench/providers/residency.py:337-357 | a backend that answered is agreed with exactly, others are untouched, and a second reconciliation changes nothing |
| Splitting.JoinedEstimate | apps/api/src/workbench/rag/chunker.py:35-37 | texts that cost T tokens have at most 8T - 1 characters once joined, and so estimate to at most 40T/18 |
| Splitting.SplitProseLoop | apps/api/src/workbench/rag/chunker.py:267-312 | the sentence loop computes the specified pieces |
| Splitting.SplitProseKeepsInk | apps/api/src/workbench/rag/chunker.py:267-312 | the pieces hold the block's characters other than white space, in order, none lost or repeated |
| Splitting.ProsePiecesPackedOrCut | apps/api/src/workbench/rag/chunker.py:274-303 | each piece is a run of consecutive sentences of the block within budget, or cut by words from one sentence of the block that is over it |
| Splitting.SplitTableLoop | apps/api/src/workbench/rag/chunker.py:229-265 | the row loop computes the specified pieces |
| Splitting.SplitTableKeepsRows | apps/api/src/workbench/rag/chunker.py:229-265 | the pieces' rows are the table's body rows in order, each piece under the header and within budget or a single row |
| Splitting.TablePieceLength | apps/api/src/workbench/rag/chunker.py:229-265 | a piece of a table is within the length its budget allows, or is a single row that is over budget with its header |
| ProseWords.WordsOfSentences | apps/api/src/workbench/rag/chunker.py:267-269 | the sentences of a text hold its words |
| ProseWords.SplitProseKeepsWords | apps/api/src/workbench/rag/chunker.py:267-303 | the pieces of a block hold its words in order: none is broken, merged, lost or repeated |
| ProseWords.HardSplitSizes | apps/api/src/workbench/rag/chunker.py:297-303 | a sentence is cut into parts of three words for five tokens of budget, one at the least, and a rest |
| WordLimit.OneWordIsNeverSplit | apps/api/src/workbench/rag/chunker.py:297-303 | text without white space comes back whole, however far over budget |
| WordLimit.HardSplitNeedsShortWords | apps/api/src/workbench/rag/chunker.py:297-303 | cutting any text with words of at most L characters brings its parts within a window if and only if the longest words that go into one part fit there |
| WordLimit.SplittingNeedsShortWords | apps/api/src/workbench/rag/chunker.py:267-303 | every oversized block with such words is split into pieces within a window if and only if those words and the budget's own margin fit there |
| PieceIds.IdsAreDistinct | apps/api/src/workbench/rag/chunker.py:274-295 | the pieces of a block have distinct ids if and only if no sentence cut in parts is followed by a piece, or another cut sentence, starting at an even distance within the stretch of its numbers |
| PieceIds.CutLastIsDistinct | apps/api/src/workbench/rag/chunker.py:274-295 | ids are distinct if no sentence but the last is cut |
| PieceIds.EvenPartsRepeat | apps/api/src/workbench/rag/chunker.py:282-288 | they repeat whenever a sentence is cut in an even number of parts and anything follows |
| PieceIds.OddPartsRepeat | apps/api/src/workbench/rag/chunker.py:282-288 | and whenever it is cut in three or more, one piece follows, and anything follows that |
| PieceIds.IdsRepeat | apps/api/src/workbench/rag/chunker.py:282-288 | a block of two sentences, the first cut in two, whose second and third pieces have one id and different texts |
| Resplitting.CutIsOneSentence | apps/api/src/workbench/rag/chunker.py:267-303 | words cut from a sentence are one sentence when they are split again, so they are never broken at an inner full stop |
| Packing.OverlapBlocksLoop | apps/api/src/workbench/rag/chunker.py:209-221 | the backward loop carries the tail the specification says |
| Packing.TailWithinIsLongest | apps/api/src/workbench/rag/chunker.py:213-221 | that tail is the longest one within the overlap |
| Packing.PackLoop | apps/api/src/workbench/rag/chunker.py:173-207 | the packing loop computes the specified groups |
| Packing.PackConserves | apps/api/src/workbench/rag/chunker.py:173-207 | without what each group carried over, the groups are the blocks in order, oversized ones replaced by their pieces |
| Packing.PackIsTight | apps/api/src/workbench/rag/chunker.py:186-207 | every ordinary group is within budget or adds one block to what it carried over, starts with the previous group's tail, and no group was closed while its next block fitted |
| Packing.DefaultChildFitsWindow | apps/api/src/workbench/rag/chunker.py:41-51 | with the default parameters an ordinary child estimates to at most 568 tokens of 1800 |
| Packing.GroupEstimate | apps/api/src/workbench/rag/chunker.py:173-207 | a group is within the peak of budget and overlap, unless it is a lone piece of one of the blocks packed: one row of that table over budget with its header, or words cut from one sentence of that block and no run of its sentences |
| PackingMargin.WindowNeedsMargin | apps/api/src/workbench/rag/chunker.py:41-59 | whatever the budget, overlap and window, every run of every document fits the window if and only if the budget is below one token or the peak is under 18 times the window plus one; that implies the check the code makes, for any window of at least 0 |
| PackingMargin.PackLongest | apps/api/src/workbench/rag/chunker.py:186-207 | a run as long as the peak is packed whole under the child budget or any larger one |
| PackingMargin.AcceptedBudgetCanOverrun | apps/api/src/workbench/rag/chunker.py:53-59 | a budget equal to the window is accepted and some document overruns it, whatever the overlap |
| Sections.SectionsLoop | apps/api/src/workbench/rag/chunker.py:133-165 | the loops over pages and blocks compute the specified sections |
| Sections.SortByOrderIsStable | apps/api/src/workbench/rag/chunker.py:152-153 | reading order is a stable sort by block order |
| Sections.StackIsOpenHeadings | apps/api/src/workbench/rag/chunker.py:154-160 | the heading stack is exactly the earlier headings not since followed by one of equal or smaller level, and its levels strictly rise |
| Sections.SectionsPlaceEverything | apps/api/src/workbench/rag/chunker.py:139-165 | the sections hold every content block, in reading order, each under the headings open at it |
| Chunker.ChunkDocument | apps/api/src/workbench/rag/chunker.py:99-130 | the loops compute the specified list of chunks |
| Chunker.ChunksAreSound | apps/api/src/workbench/rag/chunker.py:99-171 | ordinals count up from 0, every child names an earlier chunk still a parent, every parent has a child, and every block of the document with text in it, but for running headers and footers and headings that make sections, is embedded whole or in all its pieces |
| ChunkOrigins.ChunksHoldTheDocument | apps/api/src/workbench/rag/chunker.py:99-130 | every block of a chunk is, or is a piece of, a block of the document with text in it that is no running header or footer, and no heading that makes a section |
| ChunkOrigins.ChunksCarryTheirHeadings | apps/api/src/workbench/rag/chunker.py:133-165 | every block of a chunk comes of one that stands under exactly the headings in the chunk's path |
| ChunkOrigins.SmallParentsAreEmbedded | apps/api/src/workbench/rag/chunker.py:112-119 | a parent is embedded itself exactly when it costs no more than a child may and would have a single child |
| Searchability.EveryWordIsSearchable | apps/api/src/workbench/rag/chunker.py:99-330 | for every document and all parameters, a word is in the text of some embedded chunk if and only if it stands in the document outside running headers and footers and outside the headings that make sections |
| TableRows.TablesStayTables | apps/api/src/workbench/rag/chunker.py:229-265 | every table in a chunk is a table of the document, or its header with some of its rows, none of them broken |
| SmallParents.ChildOfSmallParent | apps/api/src/workbench/rag/chunker.py:99-130 | under a parent budget below the child budget, a chunk is within the longest parent run or the longest piece the child budget takes whole, unless it is a lone piece of a block of its parent |
| EmbeddingWindow.EmbeddedChunksFitWindow | apps/api/src/workbench/rag/chunker.py:80-90 | the text embedded for a chunk is within its section path and the longest text the budgets allow, unless the chunk is a lone piece of a block packed for it |
| EmbeddingWindow.EmbeddingNeedsMargin | apps/api/src/workbench/ingest/indexer.py:143-147 | whatever the budgets, everything embedded under paths of a given length fits the window, but for lone pieces, if and only if the child budget is below one token or the path and the longest text do together |
| EmbeddingWindow.DefaultPaths | apps/api/src/workbench/rag/chunker.py:41-51 | with the default parameters that holds exactly for paths of at most 4436 characters |
| EmbeddingWindow.LongHeadingOverruns | apps/api/src/workbench/rag/chunker.py:80-90 | with the default parameters, a one-token paragraph under a heading of 7000 characters overruns the window |
| Text.SpacesListed | apps/api/src/workbench/rag/chunker.py:267-269 | the characters taken for white space and for line ends are those Python takes |
| ServerSentEvents.ParseFrameLoop | apps/web/src/lib/sse.ts:57-78 | the line loop computes the frame's last id and event, and all its data |
| ServerSentEvents.LinesAreFields | apps/web/src/lib/sse.ts:64-72 | a data line adds its value less one leading space, the last id and event count, trimmed, and comments and other fields do nothing |
| ServerSentEvents.TrimCuts | apps/web/src/lib/sse.ts:58-71 | trimming cuts all white space off both ends and nothing else |
| ServerSentEvents.PlainData | apps/web/src/lib/sse.ts:57-78 | a single data line is a message of the default name without a number |
| ServerSentEvents.FramesGrow | apps/web/src/lib/sse.ts:38-48 | more text only adds frames: complete ones stay as they are |
| ServerSentEvents.Drain | apps/web/src/lib/sse.ts:40-48 | the inner loop yields the messages of the complete frames and keeps the rest |
| ServerSentEvents.ParseSse | apps/web/src/lib/sse.ts:18-55 | what is yielded depends on the concatenated text, not on where chunks were cut |
| EventStream.DecimalRoundTrip | apps/api/src/workbench/api/sse.py:27-35 | a printed sequence number reads back as itself |
| EventStream.RoundTripIffClean | apps/api/src/workbench/api/sse.py:27-35 | an event printed and parsed as a stream comes back as itself, and alone, if and only if name and data are single lines and the name has no white space around it |
| EventStream.StreamRoundTrip | apps/api/src/workbench/api/sse.py:38-73 | any clean events, with any heartbeats between, cut into any chunks, parse to exactly those events |
| EventStream.CutStream | apps/web/src/lib/sse.ts:28-52 | a stream cut anywhere yields every event that arrived whole, and then what the parser makes of the cut frame |
| EventStream.CutFrameIsDispatched | apps/web/src/lib/sse.ts:51-53 | a cut frame is dispatched if and only if its data field's name has arrived |
| EventStream.CutDataIsDelivered | apps/web/src/lib/sse.ts:51-53 | a stream cut inside data delivers an event that was never sent |
| EventBus.ReaderSeesOrder | apps/api/src/workbench/core/events.py:71-106 | over any run a reader sees events that were published, in strictly increasing order, from a queue within bounds, and all after the number it gave if that was not in the future |
| EventBus.CompleteUnlessLost | apps/api/src/workbench/core/events.py:71-97 | received and queued are the whole history after that number if and only if at most 256 had been missed and no full queue dropped an event; otherwise every missing event is counted |
| EventBus.ResumeLosesNothing | apps/api/src/workbench/core/events.py:85-97 | events before a disconnect and after resuming at the last number seen are the history, without gap or repeat |
| EventBus.RejoinAfterClose | apps/api/src/workbench/core/events.py:93-96 | joining a finished run succeeds if and only if fewer than 256 events were missed |
| EventBus.FutureNumberIsIgnored | apps/api/src/workbench/core/events.py:85-97 | a resume number beyond the history is not honoured: events up to it are delivered |
| StreamEnd.CloseEndsTheStream | apps/api/src/workbench/core/events.py:101-106 | a close lets a reader finish, with everything it had coming, if and only if its queue has room for the end marker; one whose queue is full can never finish |
| StreamEnd.OnlyACloseEnds | apps/api/src/workbench/core/events.py:132-143 | without a close no reader of a running run is ever done |
| StreamEnd.ClosedRunEndsAtOnce | apps/api/src/workbench/core/events.py:93-97 | who joins a finished run gets what is kept for it and then the end |
| RunChannels.Subscription.Put | apps/api/src/workbench/core/events.py:73-83 | a full queue loses its oldest item to the new event |
| RunChannels.RunChannel.Publish | apps/api/src/workbench/core/events.py:125-130 | numbers the event, keeps the last thousand, and takes every subscription through one publish step |
| RunChannels.RunChannel.Subscribe | apps/api/src/workbench/core/events.py:85-97 | opens the subscription the specification describes, or raises and adds nothing |
| RunChannels.RunChannel.Receive | apps/api/src/workbench/core/events.py:132-143 | takes the oldest item; at the end marker the reader leaves |
| RunChannels.RunChannel.CloseAll | apps/api/src/workbench/core/events.py:101-106 | puts the end marker into every queue that has room, and changes no other |
| RunChannels.RunChannel.EventsAfter | apps/api/src/workbench/core/events.py:108-109 | the kept events after a number are a stretch of the history up to its end |
| AuditChain.VerifyChain | apps/api/src/workbench/security/audit.py:198-256 | reports the first row of the window that does not hold, and how many rows do before it |
| AuditChain.ReportIsUnique | apps/api/src/workbench/security/audit.py:223-256 | there is one such report, valid if and only if the window is a chain |
| AuditChain.WindowsCompose | apps/api/src/workbench/security/audit.py:206-222 | verifying a prefix and then the window from its last number gives the report of the whole table, breaks and counts included |
| AuditChain.LastHashDetermines | apps/api/src/workbench/core/hashing.py:73-79 | two accepted chains with the same last digest have the same length, digests and committed columns |
| AuditChain.SomeHashIsIdeal | apps/api/src/workbench/core/hashing.py:73-79 | what is assumed of the hash can be met |
| AuditChain.EditIsNoticed | apps/api/src/workbench/db/models/audit.py:147-176 | changing a row under its digests is noticed, at that row, if and only if a committed column changed |
| AuditChain.DeletionIsNoticed | apps/api/src/workbench/security/audit.py:223-250 | removing rows is noticed, at the row after them, if and only if rows follow them |
| AuditChain.AppendKeepsChain | apps/api/src/workbench/security/audit.py:107-147 | appending keeps the chain if and only if the writer saw the row it comes after |
| AuditChain.DurableInsideRequest | apps/api/src/workbench/security/audit.py:161-187 | an event on its own connection during an uncommitted request breaks the chain if the request commits, and not if it rolls back |
| AuditChain.AuditLog.Log | apps/api/src/workbench/security/audit.py:107-147 | appends one row with a fresh number, linked to the last row visible |
| PlanContents.ReadAsMeant | apps/api/src/workbench/agent/runner.py:416-459 | a step of the reply is kept if and only if its intent is known and a tool it needs is offered; it searches, answers or calls what it says, except that one naming a tool and not a search is a tool step |
| PlanContents.KeptSteps | apps/api/src/workbench/agent/runner.py:414-459 | every usable step of a reply is read, and nothing else is |
| PlanContents.DroppedAreLacking | apps/api/src/workbench/agent/runner.py:439-451 | the steps reported as dropped are those whose tool the caller does not have |
| PlanContents.UnusableReplySearches | apps/api/src/workbench/agent/runner.py:398-412 | a reply that cannot be used, or has no usable step, becomes one search and one answer |
| PlanContents.PlanMakesNothingUp | apps/api/src/workbench/agent/runner.py:461-583 | nothing is in a plan but the reply's steps, the document step that was missing, and a default answer |
| PlanContents.PlanLeavesNothingOut | apps/api/src/workbench/agent/runner.py:468-512 | every action that is not a repeated document step is in the plan, if at most six are kept |
| PlanContents.LastAnswerCloses | apps/api/src/workbench/agent/runner.py:506-512 | the closing answer is the planner's last one, or the default if it gave none |
| PlanRepair.SynthesisLastLoop | apps/api/src/workbench/agent/runner.py:468-512 | the loops compute the specified order |
| PlanRepair.DedupLoop | apps/api/src/workbench/agent/runner.py:496-505 | the set of tools seen keeps exactly the first step for each document tool |
| PlanRepair.EnsureRequestedArtifact | apps/api/src/workbench/agent/runner.py:514-583 | inserts one step, before the closing answers, if the document is asked for, allowed and not yet named |
| PlanRepair.ReadPlan | apps/api/src/workbench/agent/runner.py:392-466 | computes the specified plan and reports each step dropped for want of its tool |
| PlanRepair.EveryPlanIsNormal | apps/api/src/workbench/agent/runner.py:392-466 | any reply gives one to six steps, an answer only in last place, each document tool once, tool steps only with offered tools |
| PlanRepair.PlanKeepsOrder | apps/api/src/workbench/agent/runner.py:460-512 | the plan is the planner's actions in order, with repeats collapsed and the added step last, cut to six; it ends in an answer if and only if fewer than six are kept |
| PlanRepair.DocumentIsPlanned | apps/api/src/workbench/agent/runner.py:496-505 | a plan of at most six actions produces the permitted document if and only if the first step naming it is not a retrieve step |
| PlanRepair.RepairIsIdempotent | apps/api/src/workbench/agent/runner.py:463-466 | repairing a repaired plan changes nothing |
| Evidence.MergeEvidence | apps/api/src/workbench/agent/state.py:151-165 | the dictionary loops and the sort compute the specified merge |
| Evidence.MergeKeepsBest | apps/api/src/workbench/agent/state.py:151-165 | merging keeps one item a chunk, each at the best score seen, best first |
| Evidence.SortIsStable | apps/api/src/workbench/agent/state.py:165 | items of one score keep their order |
| Evidence.TiesKeepTheEarlier | apps/api/src/workbench/agent/state.py:161-164 | an item is replaced only by one of the same chunk that scores higher |
| AgentLoop.AgentRun.Retrieve | apps/api/src/workbench/agent/runner.py:630-687 | the search loop leaves the specified state |
| AgentLoop.AgentRun.Act | apps/api/src/workbench/agent/runner.py:978-1112 | one tool step through gate, deferred result, dispatch and corrective retry leaves the specified counts |
| AgentLoop.AgentRun.ExecuteLoop | apps/api/src/workbench/agent/runner.py:586-628 | running the plan leaves the specified state |
| AgentLoop.RunKeepsItsLimits | apps/api/src/workbench/agent/state.py:87-97 | whatever happens, charged calls stay within the limit, searches within the retrieve steps plus two over the whole run, and calls made are calls charged and calls that raised, less results taken over |
| AgentLoop.RunKeepsTheBest | apps/api/src/workbench/agent/runner.py:638-640 | a run's evidence has one item a chunk, the best any of its searches found |
| AgentLoop.StopsForAReason | apps/api/src/workbench/agent/runner.py:590-612 | the loop stops only at the answer, at the end of the plan, or at a limit |
| AgentLoop.LimitIsOnChargedCalls | apps/api/src/workbench/agent/runner.py:1059-1072 | with a limit of one call, a plan of any length whose tool raises makes a call for every step |
| GatedCalls.NoCallWithoutApproval | apps/api/src/workbench/agent/runner.py:997-1012 | where every attempt is behind the gate and nobody says yes, nothing is called, taken over or charged, whatever the plan and the limit |
| GatedCalls.ApprovedIsCalledOnce | apps/api/src/workbench/agent/runner.py:1014-1072 | an approved, bound attempt makes exactly one call, or none if the approved action has given its result already |
| GatedCalls.CallsAreTheAttempts | apps/api/src/workbench/agent/runner.py:978-1112 | in every world, a run's calls and charges are exactly those of its attempts, one for each tool step it got to: none unbound, refused or taken over, two only for one that was refused its arguments outside the gate, bound again, and had budget left |
| GatedCalls.CallsAreBounded | apps/api/src/workbench/agent/runner.py:978-1112 | calls made are at most what the attempts allow: none, one behind the gate, two after a refusal |
| GatedCalls.SearchesWhileNeeded | apps/api/src/workbench/agent/runner.py:630-687 | a retrieve step searches again exactly while what it has is not enough, there is something, a new query comes and retries are left |
| GatedCalls.RetrieveStepsSearch | apps/api/src/workbench/agent/runner.py:610-634 | every retrieve step a run got through searched, and without a retriever nothing did |
| CallLimit.MostCallsIsMost | apps/api/src/workbench/agent/runner.py:1059-1112 | no run of a plan makes more calls than its tool steps and limit give, and in some world a run makes that many |
| CallLimit.LimitHoldsForFew | apps/api/src/workbench/agent/state.py:87-97 | whatever happens, calls made stay within the limit, if and only if it is 0 or twice the tool steps before the answer are at most one more than it |
| CallLimit.ElevenIsEnough | apps/api/src/workbench/agent/state.py:75 | under every plan a planner's reply leads to, calls made stay within a limit if and only if it is 0 or at least eleven; so they do with the default |
| Failover.CircuitBreaker.Ask | apps/api/src/workbench/router/policy.py:58-66 | open until the cooldown has passed, and asking then closes it |
| Failover.CircuitBreaker.RecordFailure | apps/api/src/workbench/router/policy.py:71-85 | records one failure as the window theorems of `BreakerWindow` count it |
| BreakerWindow.Tell | apps/api/src/workbench/router/policy.py:68-85 | a breaker told of failures and successes in turn comes to the state the window theorems are about, and no other model's changes |
| BreakerWindow.OpensAtThird | apps/api/src/workbench/router/policy.py:68-85 | a sequence of failures and successes opens the breaker if and only if, since it last forgot, some window has a third failure |
| BreakerWindow.StartIsWindow | apps/api/src/workbench/router/policy.py:74-77 | the windows reach a minute from the failure that starts them, and the next starts with the first failure beyond |
| BreakerWindow.ThirdIsBurst | apps/api/src/workbench/router/policy.py:74-79 | no breaker opens without three failures within a minute |
| BreakerWindow.FourOpen | apps/api/src/workbench/router/policy.py:74-79 | four failures within a minute always open it |
| BreakerWindow.ThreeMayNotOpen | apps/api/src/workbench/router/policy.py:74-79 | failures at 0, 59, 61 and 62 seconds leave it closed |
| Failover.CircuitBreaker.Trip | apps/api/src/workbench/router/policy.py:87-101 | opens at once, keeping at least the threshold of strikes |
| Failover.Router.NoteUnreachable | apps/api/src/workbench/router/router.py:451-466 | trips exactly the models of the failed model's provider |
| Failover.Router.FindStandIn | apps/api/src/workbench/router/router.py:468-487 | the loop finds the specified stand-in and leaves the breakers as asking left them |
| Failover.SearchFindsFirst | apps/api/src/workbench/router/router.py:481-487 | the stand-in is the first candidate on another provider with a closed breaker; there is none only if no candidate is fit |
| StandIns.StandInIsTheFirst | apps/api/src/workbench/router/router.py:468-487 | the stand-in is the first model of the first lane that lists the failed one that is enabled, served unless that would leave nothing, on another provider, and not held open; there is none only if none is like that |
| Failover.Generate | apps/api/src/workbench/agent/runner.py:1476-1514 | the recursive call goes through the specified models |
| Failover.NotRetriedBeforeCooldown | apps/api/src/workbench/agent/runner.py:1476-1514 | a provider found unreachable is not called again until a whole cooldown has passed |
| Failover.FailoverEnds | apps/api/src/workbench/agent/runner.py:1476-1514 | if going once through the other providers in reach takes less than the cooldown, no provider is called twice and the depth is at most their number |
| FailoverCycle.CooldownDecides | apps/api/src/workbench/agent/runner.py:1476-1514 | with n providers in reach and calls at most d apart, no call ever comes back to a provider if and only if n - 1 times d is less than the cooldown |
| FailoverCycle.RingIsCalledForever | apps/api/src/workbench/agent/runner.py:1476-1514 | otherwise n backends, each alone on its provider, are called in turn for as long as they fail |
| Citations.Resolver.NumberFor | apps/api/src/workbench/rag/citations.py:207-213 | a source keeps the number it was first given, and a new one gets the next |
| Citations.Resolver.Replace | apps/api/src/workbench/rag/citations.py:215-234 | a marker becomes the numbers of its known sources, and its unknown ones are recorded |
| Citations.Resolver.Resolve | apps/api/src/workbench/rag/citations.py:187-243 | one pass gives what rendering with the finished reference list would give |
| Citations.AnswerIsFaithful | apps/api/src/workbench/rag/citations.py:187-243 | prose is untouched; numbers appear as 1, 2, 3; references are distinct and all used; each number leads back to the chunk its marker named |
| Citations.NumberingIsUnique | apps/api/src/workbench/rag/citations.py:190-192 | no other numbering has those properties |
| Citations.OwnIdResolves | apps/api/src/workbench/rag/citations.py:200 | a retrieved chunk is found under its own id if and only if no later chunk's id folds to the same key |
| Citations.MarkersNameSources | apps/api/src/workbench/rag/citations.py:215-234 | a marker by number names the source shown with that number, and one by ids the last source whose id folds alike, each in turn; what matches nothing is reported |
| RankFusion.Fuse | apps/api/src/workbench/rag/fusion.py:55-83 | the output ranks exactly the chunks listed, each at the sum of its shares, cut to the limit |
| RankFusion.ScoreIsTotal | apps/api/src/workbench/rag/fusion.py:64-76 | a chunk's score is the sum over all lists and places of weight over k plus rank |
| RankFusion.RankedByScoreThenId | apps/api/src/workbench/rag/fusion.py:77-83 | hits come by falling score, and equal scores by id in the order of strings |
| RankFusion.FusionIsOrderFree | apps/api/src/workbench/rag/fusion.py:70-83 | permuting the lists changes nothing |
| RankFusion.BothOutrankOne | apps/api/src/workbench/rag/fusion.py:64-68 | under the stated inequality, every chunk in both lists outscores every chunk in one |
| RankFusion.BothBeatsOneIsExact | apps/api/src/workbench/rag/fusion.py:64-68 | for lists of two or more the inequality is exact: without it there are lists that break the rule |
| RankFusion.RetrieverSettings | apps/api/src/workbench/rag/retriever.py:41-45 | with the retriever's constants the inequality holds exactly for lists shorter than 50 |
| RankingMetrics.RecallAtK | evals/harness/metrics.py:35-48 | refuses an empty gold set, and otherwise computes the specified fraction |
| RankingMetrics.NdcgAtK | evals/harness/metrics.py:63-77 | refuses an empty gold set, and otherwise computes the specified quotient |
| RankingMetrics.RecallCountsRanks | evals/harness/metrics.py:35-48 | recall times the relevant items is the number of the first k ranks that are relevant |
| RankingMetrics.RecallIsAFraction | evals/harness/metrics.py:35-48 | recall is at least the fraction of relevant items in the top k, equal to it if and only if none is repeated there, and at most 1 if and only if no more positions than relevant items are relevant |
| RankingMetrics.RepeatedRecall | evals/harness/metrics.py:47-48 | one item repeated n times scores n |
| RankingMetrics.NdcgIsRatio | evals/harness/metrics.py:63-77 | the metric is the sum of the discounts of the relevant ranks among the first k, over that of as many first ranks as there are relevant items, k at most |
| RankingMetrics.NdcgIsNormalised | evals/harness/metrics.py:63-77 | under that condition, for any discount, the metric is within 0 and 1, and 1 if and only if the ranking starts with as many relevant items as possible |
| RankingMetrics.NdcgNeedsFew | evals/harness/metrics.py:63-77 | the metric is at most 1 for every discount if and only if no more positions in the top k than relevant items are relevant, as when no relevant item is repeated there |
| RankingMetrics.RepeatedNdcg | evals/harness/metrics.py:70-77 | a ranking that starts with more relevant positions than there are relevant items scores above 1, whatever the discount |

## Left out

- Splitting `decide` and `expire_stale` into a read and a write: each is one step here, and the finality of a decision rests on that.
- More than one approval row, or more than one waiting run on a row: rows do not interact.
- Long error messages: they are shortened to codes, and tool summaries to string maps.
- The lock of the residency manager and its awaits: each method is one step, so small loads between an eviction and a load are not interleaved.
- `warm_pinned`, rounding in the meter, and provider calls themselves: backends only answer polls here.
- Floating point: sizes, scores and clock readings are exact reals, and 3.6 characters a token is the rational 18/5.
- Page ranges, confidence, attributes and random ids of chunks: ids count up instead; spreadsheet chunking is not part of this model.
- RankingMetrics.NdcgNeedsFew: is about every decreasing discount; for the harness's logarithm alone a repeating ranking may or may not exceed 1, and `RepeatedNdcg` says when it must.
- The decoding of bytes into characters, aborting a stream, activity callbacks and the timing of heartbeats: a heartbeat may stand anywhere between frames.
- The second bounded queue between bus and response (it blocks and loses nothing), and routing between runs by id.
- AuditChain.VerifyChain: takes the table in sequence order, as the query returns it; detail texts are left out.
- AuditChain.AuditLog.Log: which rows a transaction sees is a parameter; redaction and the log line for denials are left out.
- Step arguments and descriptions in plans, and the limitation recorded for a document that is not permitted.
- PlanRepair.DocumentIsPlanned: says nothing of plans of more than six kept actions, where the cut can drop the document, or of the fallback plan.
- JSON replies that are not objects: the code raises on them.
- The step-by-step wait for an approver and argument binding inside a tool step: their outcomes are inputs of `AgentLoop`.
- Failover.Generate: the retry after a model was unloaded, loading the stand-in, and token counting; one clock reading serves each search for a stand-in.
- Scoring and selection of a model within a lane, and the routing decision table.
- The syntax of citation markers, tidying of white space after they are replaced, and removal of source tags: an answer is already a list of prose and markers.
- The record of ranks in each fused hit, and the penalty for poorly recognised text.
- Reciprocal rank, error rates, percentiles and classification summaries: they would add only easy members.
- The clearance filter, provider clients, storage, rendering and pages of the web application.
