# A model of the crawler, planner, stream and indexing cores, with proofs

The repository is a desktop research browser: an Electron front end, a Flask server with an LLM planner, a focused
crawler, and an indexing pipeline. This project models its algorithms and protocols in Dafny and proves properties
of them for all inputs and all runs. LLM replies, tool results, reranker output, fetched pages, digests, `urlparse`
and the tokeniser are parameters, so every theorem holds whatever they return. Scores and times are exact reals.

| module | models | main results |
|---|---|---|
| `Frontier`, `FrontierInputs`, `CappedGreedy`, `StableSort` | `crawler/frontier.py` | without a reranker the frontier has the greatest total priority any choice within both caps can have exactly when there is no room for a negative candidate; with any reranker it is never smaller than such a choice, its picks of a host are one delay apart, and the reranked order is a permutation |
| `RefreshWorkers` | `server/refresh_worker.py` | over all interleavings a query is in the map exactly while it has an active job, jobs finish in FIFO order, and the history is the end of that order |
| `StreamRegistry` | `electron/main.js` | over all interleavings at most one live stream per window and tab, clean-up and aborts are local, a quiet process keeps nothing |
| `SseSplitter` | `electron/main.js` | the frames sent do not depend on how the reply was cut into chunks |
| `Planner` | `server/agent.py` | every run ends within a bound on node visits that is attained, for any settings; the bounded window finds the first cycle of the whole history |
| `Chunker`, `Utf8`, `ChunkOffsets` | `engine/indexing/chunk.py` | for tokens that spell UTF-8 bytes, chunk offsets are exact if and only if no window is cut inside a character (for texts without U+FFFD; the general condition is given too), and no visible character is lost however windows are cut |
| `Dedupe`, `Crawler`, `CrawlerRuns` | `frontier/dedupe.py`, `crawler/run.py` | over all interleavings no URL is fetched twice, a domain never has two semaphores and is throttled by its one; without empty URLs the wait for the queue ends and each worker takes one stop sentinel; the simhash ignores token order |
| `Curate` | `seed_loader/curate.py` | sizes and quotas of the curated selection, with the exact condition for the second quota |
| `LearnedWebDbs` | `server/learned_web_db.py` | any order of the same upserts gives the same maxima and counts |
| `VectorStores`, `ColdStart` | `engine/data/store.py`, `engine/indexing/coldstart.py` | the two tables agree after any upserts, and no page is stored twice by any number of runs |
| `Metrics` | `backend/app/metrics.py` | percentiles are ordered and bound their share of the samples |

Protocols are written twice: as a step function on a state value, over which the invariants are proved for every
run, and as a class whose methods change its fields in place; each method's contract says that it performs exactly
that step. Loops that update containers are methods proved against a specification function in the same way.

Where the code does not do what one would expect, the model keeps the code and says exactly when it does:

- The reranker's list called `prefix` (crawler/frontier.py:284-285) holds the candidates *below* the window, and it
  is put first. A reranker that returns its input unchanged keeps the order only if there is nothing below
  (`EchoingRerankerKeepsOrderIff`), so optimality is proved for the path without a reranker.
- A candidate of negative priority is picked when there is room for it, and then the choice without it is better.
  Whether there is room can be told from the candidates: the non-negative ones fill neither the budget nor the
  negative one's host (`FrontierIsOptimalIff`, with `NegativeHintIsPicked` as a case).
- The planner's recursion limit can be exceeded with the default settings (`FallbackUnreachableIff`,
  `DefaultsReachFallback`).
- An empty URL among the crawler's candidates acts as a stop sentinel. With links that are not empty, some run has a
  worker exit before the sentinels are sent if and only if a seed is empty (`EarlyExitIff`); with one worker the
  rest of the queue is then never taken and the wait for it has no end (`EmptySeedHangs`). The frontier, the focused
  crawl job and the source extraction only give URLs that are not empty; a direct `initial_seeds` argument is not
  checked.
- Two crawl results may have the same URL after redirects (`RedirectsCollide`); only the requested URLs are different
  (`NoUrlTwice`).
- A cycle threshold above the window length disables cycle detection (`CycleStopsAtFirst`).
- A quota of zero still takes one seed, and the non-US quota is guaranteed exactly when there is room for both
  (`NonUsQuotaMet`, `NonUsQuotaMissed`).
- `record_discovery` normalises its host twice and looks up the domain in between, so for hosts with a repeated
  "www." it reports a known domain as new each time (`CreatedAgainIff`, `RepeatedWwwIsNewAgain`).
- Metadata that overrides `url` makes an upserted page's records unfindable under its URL (`UpsertIsExactIff`,
  `MovedRecordIsLost`).
- Chunk offsets are wrong exactly when a window is cut inside a character (`OffsetsAreExactUnlessCut`; texts that
  hold U+FFFD themselves are in `OffsetsAreExactIff`). An emoji of two tokens is such a case when a window ends
  between them, and is none when it does not (`TornEmoji`).

`dafny verify dfyconfig.toml` checks everything.

## Model

| member | source | states |
|---|---|---|
| `StableSort.SortedIsPermutation` | crawler/frontier.py:263 | sorting neither loses nor repeats an element |
| `StableSort.SortedIsDescending` | crawler/frontier.py:263 | the sorted list is in descending order of the key |
| `StableSort.SortedIsStable` | crawler/frontier.py:263 | elements with equal keys keep their order |
| `CappedGreedy.SelectIsFeasible` | crawler/frontier.py:287-301 | the greedy choice stays within the per-host cap and the limit |
| `CappedGreedy.SelectIsSubsequence` | crawler/frontier.py:287-301 | the choice is a subsequence of the order walked, so nothing is picked twice |
| `CappedGreedy.Saturation` | crawler/frontier.py:287-301 | for every host the greedy choice has as many members as the cap or the supply allows, unless the limit is reached |
| `CappedGreedy.PrefixDomination` | crawler/frontier.py:287-301 | on every prefix of the order the greedy choice has at least as many members as any choice within the caps |
| `CappedGreedy.LeadPays` | crawler/frontier.py:287-301 | in a descending order, a lead in numbers on every prefix is worth at least the last priority each (summation by parts) |
| `CappedGreedy.GreedyIsOptimal` | crawler/frontier.py:263-301 | no choice within the caps has a greater total if no pick is negative, and none of the same size has in any case |
| `CappedGreedy.GreedyIsOptimalIff` | crawler/frontier.py:263-301 | the choice is best among all within the caps exactly when the non-negative items fill the limit or the host of every negative item |
| `CappedGreedy.GreedyIsLargest` | crawler/frontier.py:287-301 | no choice within the caps has more members |
| `CappedGreedy.NegativePickIsBeaten` | crawler/frontier.py:287-301 | a pick of negative priority makes the choice worse than the same choice without it |
| `Frontier.BestIsFirstGreatest` | crawler/frontier.py:211-231 | the offer kept for a URL is the first of those with the greatest priority |
| `Frontier.FirstSeenUrls` | crawler/frontier.py:211-231 | each offered URL has one place, in the order of first offers |
| `Frontier.Collection.constructor` | crawler/frontier.py:184 | the collection starts without offers |
| `Frontier.Collection.Add` | crawler/frontier.py:211-231 | one call of `_add` adds no offer when it is refused, else one: a given score is its priority, without one the greater of the weight and the learned score of the host without "www."; the weight is raised to that score exactly when overrides are respected |
| `Frontier.Collection.Store` | crawler/frontier.py:222-231 | storing keeps, per URL, the best of all offers made |
| `Frontier.Collection.AddHints` | crawler/frontier.py:233-240 | every discovery hint is offered, without the learned override of its weight |
| `Frontier.Collection.Feed` | crawler/frontier.py:242-260 | URLs are offered in turn until the collection has reached the limit |
| `Frontier.Collect` | crawler/frontier.py:233-260 | the candidates are the best offers of all stages, one per URL |
| `Frontier.HostIsOfUrl` | crawler/frontier.py:291 | the host a cap counts is that of the URL |
| `Frontier.OfferMeans` | crawler/frontier.py:211-224 | an offer is made unless the URL is not clean or its host is cooling down, and means just that |
| `FrontierInputs.OffersAreTried` | crawler/frontier.py:233-260 | the offers are those of all hints, then of the model's, the seed domains' and the query's URLs in order, each stage until the collection is full and no longer, with its source and weight |
| `FrontierInputs.CollectedMeans` | crawler/frontier.py:211-260 | every candidate has the weight and priority of an attempt that was made, and every such attempt has a candidate for its URL that is worth at least as much |
| `Frontier.RerankIsPermutation` | crawler/frontier.py:265-285 | whatever the reranker returns, the new order is a permutation |
| `Frontier.RerankKeepsLowOrder` | crawler/frontier.py:284-285 | candidates outside the window keep their relative order |
| `Frontier.EchoingRerankerKeepsOrderIff` | crawler/frontier.py:268-285 | a reranker that changes nothing leaves the order alone exactly when all candidates are in the window |
| `Frontier.Rerank` | crawler/frontier.py:265-285 | the window is what lies within the margin of the cut-off, and its reply reorders just that |
| `FrontierInputs.WindowIsWithinMargin` | crawler/frontier.py:265-268 | the reranker is asked about exactly the candidates within the margin of the last one the budget reaches |
| `FrontierInputs.RepliesDecide` | crawler/frontier.py:274-283 | replies that name members of the window, each once, come first in the order given |
| `Frontier.ReorderWindow` | crawler/frontier.py:274-283 | accepted replies first, each once, then the rest of the window in order |
| `Frontier.SelectPolitely` | crawler/frontier.py:287-301 | the selection loop makes the greedy choice and stamps each pick with its host's next free time |
| `Frontier.Claim` | crawler/frontier.py:295-298 | a pick gets the host's slot number "picks so far", and the tables move to the next |
| `Frontier.StampAt` | crawler/frontier.py:295-298 | pick j of a host is due at start + j delays |
| `Frontier.PicksAreSpaced` | crawler/frontier.py:295-298 | picks of one host are at least one delay apart and none is due before now |
| `FrontierInputs.FrontierTimes` | crawler/frontier.py:287-301 | a pick is due at now plus the delay in force times the picks of its host before it |
| `Frontier.WalkOrderIsPermutation` | crawler/frontier.py:263-285 | sorting and reranking keep the candidates, one per URL |
| `Frontier.OrderCandidates` | crawler/frontier.py:263-285 | sorts, then reranks when there is a reranker and something to rank |
| `Frontier.BuildFrontier` | crawler/frontier.py:164-303 | the result is the stamped greedy choice from the ordered best offers, nothing for a blank query |
| `Frontier.FrontierIsOptimalIff` | crawler/frontier.py:263-303 | without a reranker, no choice of candidates within the caps has a greater total exactly when the non-negative candidates leave no room for a negative one |
| `Frontier.FrontierIsOptimal` | crawler/frontier.py:263-303 | in particular when no candidate is negative |
| `Frontier.NegativeHintIsPicked` | crawler/frontier.py:233-303 | one hint with a negative score and a budget of one gives a frontier worse than the empty one |
| `Frontier.FrontierIsLargest` | crawler/frontier.py:263-303 | with any reranker the frontier respects both caps and no choice that does is larger |
| `FrontierInputs.FrontierKeepsLimits` | crawler/frontier.py:183-188 | with the given budget and host cap, raised to one, or the default cap of three, the frontier keeps within both and no choice that does is larger |
| `RefreshWorkers.RefreshWorker.constructor` | server/refresh_worker.py:37-63 | a new worker has no job, queue or history |
| `RefreshWorkers.RefreshWorker.EnqueueQuery` | server/refresh_worker.py:65-167 | refuses a blank query or a budget or depth that is not positive; else queues a new job exactly when forced or no job for the query is active, and otherwise answers with an active one and changes nothing |
| `RefreshWorkers.RefreshWorker.GetJob` | server/refresh_worker.py:221-227 | the worker takes the oldest queued job |
| `RefreshWorkers.RefreshWorker.StartJob` | server/refresh_worker.py:229-241 | the job taken becomes running |
| `RefreshWorkers.RefreshWorker.HandleProgress` | server/refresh_worker.py:387-431 | a stage moves the progress up to its value, never down |
| `RefreshWorkers.RefreshWorker.FinishJob` | server/refresh_worker.py:323-371 | the job is done or failed, joins the history, and is forgotten by the map only if the map still names it |
| `RefreshWorkers.RefreshWorker.Status` | server/refresh_worker.py:169-189 | answers a query from the map, else from the history, latest first |
| `RefreshWorkers.MapAfterCreate` | server/refresh_worker.py:130-132 | pointing the query at the new job keeps the map at the last pending job of each query |
| `RefreshWorkers.MapAfterFinish` | server/refresh_worker.py:351-354 | forgetting the finished job is right because it was the oldest pending one |
| `RefreshWorkers.StepKeepsInv` | server/refresh_worker.py:65-431 | every atomic step keeps the invariant |
| `RefreshWorkers.RunKeepsInv` | server/refresh_worker.py:65-431 | the invariant holds in every reachable state |
| `RefreshWorkers.KeyIffActive` | server/refresh_worker.py:87-132 | a query is a key of the map exactly while some job for it is queued or running |
| `RefreshWorkers.ValueIsLastCreated` | server/refresh_worker.py:130-132 | the map's value is the last-created active job, forced enqueues included |
| `RefreshWorkers.FinishedInOrder` | server/refresh_worker.py:221-227 | finished jobs are a prefix of the accepted ones, the history is the end of it without repeats, and an idle worker has finished all |
| `RefreshWorkers.StepIsMonotone` | server/refresh_worker.py:323-431 | progress never goes back, a finished job never changes, nothing accepted is forgotten |
| `RefreshWorkers.UnforcedRunsHaveOneJobPerQuery` | server/refresh_worker.py:87-92 | without forced requests no query has two active jobs |
| `RefreshWorkers.EnqueueAcceptsIff` | server/refresh_worker.py:87-132 | in every reachable state a new request is accepted if and only if it is forced or its query has no active job; accepted, it adds just one queued job with what was asked, else nothing changes |
| `RefreshWorkers.OldestJobFinishes` | server/refresh_worker.py:221-371 | an idle worker takes the oldest job, runs it, and leaves it done with progress 100 or failed, as the crawl went |
| `RefreshWorkers.ProgressReaches` | server/refresh_worker.py:387-402 | a known stage brings the running job as far as it says, unless it was further, and changes nothing else |
| `RefreshWorkers.PipelineAscends` | server/refresh_worker.py:507-521 | the stages of the pipeline are further on one after another, from 5 to 95 |
| `RefreshWorkers.StatusIsLatest` | server/refresh_worker.py:169-189 | a status request gets the last-created active job, or else the latest finished one still in the window |
| `StreamRegistry.MainProcess.constructor` | electron/main.js:72-79 | no window has a registry at first |
| `StreamRegistry.MainProcess.StartStream` | electron/main.js:1322-1349 | aborts and disarms the stream in the slot and registers the new one |
| `StreamRegistry.MainProcess.EndStream` | electron/main.js:1409-1420 | the `finally` block: detach if still registered in the registry kept from the start, else only disarm |
| `StreamRegistry.MainProcess.DetachLlmStream` | electron/main.js:88-101 | removes the slot only if it still holds the entry, and the registry when it is left empty |
| `StreamRegistry.MainProcess.Tick` | electron/main.js:1352-1388 | response and chunks arm the timer, and its firing aborts the stream |
| `StreamRegistry.MainProcess.AbortRequest` | electron/main.js:1424-1496 | aborts the stream meant and detaches it, and says which of three replies is given |
| `StreamRegistry.StepKeepsInv` | electron/main.js:72-110 | every atomic step keeps the invariant |
| `StreamRegistry.RunKeepsInv` | electron/main.js:1304-1496 | the invariant holds in every reachable state |
| `StreamRegistry.AtMostOneLive` | electron/main.js:1325-1349 | a window and tab have at most one unfinished stream that is not aborted, and it is the registered one |
| `StreamRegistry.DroppedRegistryIsEmpty` | electron/main.js:97-100 | a registry no longer in use is empty, so handlers that kept it find nothing |
| `StreamRegistry.QuietMeansEmpty` | electron/main.js:1409-1420 | when all handlers have ended there is no registry and no armed timer |
| `StreamRegistry.CleanupIsLocal` | electron/main.js:1409-1420 | the end of a stream finishes and disarms it, empties its own slot if it still has it, and never touches a newer entry |
| `StreamRegistry.IdleStreamsAreTimed` | electron/main.js:1352-1358 | in every reachable state a live stream that reads has a timer running, and one whose timer fired is aborted |
| `StreamRegistry.TimeoutAborts` | electron/main.js:1354-1357 | a firing timer aborts its stream and disarms it, and changes no slot and no other entry |
| `StreamRegistry.ReadingArms` | electron/main.js:1380-1386 | the response and each chunk start the timer anew and change nothing else |
| `StreamRegistry.StartSupersedes` | electron/main.js:1331-1349 | exactly the stream in the slot is aborted and disarmed, and the new one is live, with its tab and request id |
| `StreamRegistry.FindByRequestFinds` | electron/main.js:103-110 | finds an entry with the request id, and none only if there is none |
| `StreamRegistry.AbortMeans` | electron/main.js:1462-1487 | the slot meant is the tab's; without a tab, or with one that has no slot, one with the request id; without a request id either, the only one; else none |
| `StreamRegistry.AbortIsLocal` | electron/main.js:1488-1493 | an abort marks that stream, disarms it and frees its slot, and changes nothing else |
| `SseSplitter.SplitJoins` | electron/main.js:163-178 | frames and rest, joined by breaks, are the text, and no frame or rest contains a break |
| `SseSplitter.SplitIsUnique` | electron/main.js:163-178 | there is no other way to cut the text like that |
| `SseSplitter.SplitResumes` | electron/main.js:163-178 | splitting may stop after any prefix and resume from what it left |
| `SseSplitter.PumpIsSplit` | electron/main.js:1381-1392 | for every cutting into chunks the frames and the tail are those of the whole text |
| `SseSplitter.NonBlankKeeps` | electron/main.js:172-174 | a frame is sent as often as it was framed, unless it holds nothing but white space |
| `SseSplitter.NonBlankKeepsOrder` | electron/main.js:169-176 | the frames are sent in order |
| `SseSplitter.FlushSseBuffer` | electron/main.js:163-178 | sends the non-blank frames in order and returns the tail; nothing to a destroyed target |
| `SseSplitter.PumpReply` | electron/main.js:1377-1393 | a whole reply sends exactly the non-blank frames of what arrived before the target closed, without the unterminated tail |
| `Planner.BudgetIsProduct` | server/agent.py:520-605 | the budget of n steps is n * (5 + 2R) |
| `Planner.RunBounded` | server/agent.py:241-277 | every run ends within M tool rounds and M * (5 + 2R) node visits, whatever the model answers |
| `Planner.WorstRounds` | server/agent.py:520-605 | a model that fails as often as it may before each tool call attains M * (5 + 2R) |
| `Planner.EagerRoundsBounded` | server/agent.py:671-681 | with a threshold of one the first reply that parses ends the run, so only errors prolong it |
| `Planner.VisitsBounded` | server/agent.py:241-277 | no run visits more nodes than the bound for its settings, non-positive and negative ones included |
| `Planner.VisitsAttained` | server/agent.py:241-277 | some run visits that many |
| `Planner.FallbackUnreachableIff` | server/agent.py:156-181 | for all settings: no run visits more nodes than max(4 * max_iterations, 32) exactly when the bound is within it |
| `Planner.DefaultsReachFallback` | server/agent.py:99-108 | with the default settings some run visits 54 nodes, against a limit of 32 |
| `Planner.CycleStopsAtFirst` | server/agent.py:303-313 | a run stops with `cycle_detected` at exactly the first plan that completes a cycle in the full history, and never when the threshold exceeds the window |
| `Planner.WindowSeesCycle` | server/agent.py:663-681 | the bounded window shows a cycle exactly when the full history has one and the window is wide enough |
| `Planner.CountRepeats` | server/agent.py:671-680 | the count reaches k exactly when the last k signatures are equal |
| `Planner.RunStopIsJustified` | server/agent.py:520-605 | what each stop reason says about the replies the run got |
| `Planner.RunAccount` | server/agent.py:241-277 | the account of every run: only its last reply can be a final answer, tool rounds are the tool calls, each worth five visits and a step, a wasted reply costs two visits, an answer a step |
| `Planner.CycleMeans` | server/agent.py:663-681 | a cycle is as many equal signatures at the end of the full history as max(threshold, 1), if that fits max(window, 1) |
| `Planner.PlannerAgent.constructor` | server/agent.py:127-155 | a run starts with no step, retry or signature |
| `Planner.PlannerAgent.UpdateCycleHistory` | server/agent.py:663-681 | the stored signatures are the last `window` of the full history, and the stop reason is set exactly on a cycle |
| `Planner.PlannerAgent.NodePlan` | server/agent.py:282-326 | records the reply's action and signature, or the error |
| `Planner.PlannerAgent.NodeToolSelect` | server/agent.py:339-379 | a known tool is selected, an unknown one leaves an error |
| `Planner.PlannerAgent.NodeToolRun` | server/agent.py:381-428 | the selected tool's result, a failure when the call raised, and an error when none was selected |
| `Planner.PlannerAgent.NodeRetrieveContext` | server/agent.py:430-462 | a tool action costs one step and resets the retries, even if the tool failed |
| `Planner.PlannerAgent.NodeRespond` | server/agent.py:464-488 | a final action yields a candidate answer |
| `Planner.PlannerAgent.NodeCritique` | server/agent.py:490-518 | a retry is asked for only without a candidate |
| `Planner.PlannerAgent.NodeDecideRetry` | server/agent.py:520-605 | when the run stops with which reason, and what becomes of both counters |
| `Planner.PlannerAgent.WalkRound` | server/agent.py:241-277 | one way round the graph has the outcome, visits, steps and retries of one round |
| `Planner.PlannerAgent.Run` | server/agent.py:127-194 | the whole run has the outcome and node visits of the loop over plans |
| `Chunker.MakeChunker` | engine/indexing/chunk.py:23-36 | a chunker exists exactly when 0 <= overlap < chunk_size |
| `Chunker.WindowsOverlap` | engine/indexing/chunk.py:56-84 | consecutive windows overlap by exactly `overlap` tokens, all but the last are full, and the last reaches the end |
| `Chunker.WindowStart` | engine/indexing/chunk.py:56-84 | window k starts k strides into the text |
| `Chunker.ChunkWindows` | engine/indexing/chunk.py:56-84 | the loop with its offset cache yields the chunks of those windows |
| `Chunker.ChunkText` | engine/indexing/chunk.py:46-84 | chunk_text yields the chunks of the windows, none for blank text |
| `Chunker.PrefixLength` | engine/indexing/chunk.py:79-83 | the cached prefix length is that of the decoded prefix |
| `Chunker.EmitChunk` | engine/indexing/chunk.py:61-76 | a window's chunk is its stripped text at the offset of its first visible character |
| `Chunker.StripMeans` | engine/indexing/chunk.py:64-66 | stripping takes the white space off both ends and nothing else |
| `Chunker.WindowGivesChunk` | engine/indexing/chunk.py:61-76 | every window with a visible character has a chunk: its stripped text, with its number of tokens |
| `Chunker.ChunkIsWindow` | engine/indexing/chunk.py:61-76 | every chunk is the stripped text of a window, with its number of tokens |
| `Chunker.OffsetsAreExact` | engine/indexing/chunk.py:56-84 | for any decoder that is additive where the windows are cut, every chunk is the text between its offsets and starts and ends with a visible character |
| `Chunker.EveryCharacterIsCovered` | engine/indexing/chunk.py:56-84 | for any such decoder every visible character lies in the range of some chunk |
| `Utf8.DecodeUndoesEncode` | engine/indexing/chunk.py:63 | decoding the UTF-8 bytes of a text gives the text |
| `Utf8.KnownEncodings` | engine/indexing/chunk.py:63 | the bytes of one character of each length |
| `Utf8.DecodeSlice` | engine/indexing/chunk.py:63 | any slice of the bytes decodes to the whole characters in it, a mark for each byte of a character cut in front, and one mark for a character cut behind |
| `Utf8.NotInsideIff` | engine/indexing/chunk.py:63 | a place is inside no character exactly when the bytes up to it encode a prefix of the text |
| `ChunkOffsets.OffsetIsNext` | engine/indexing/chunk.py:79-83 | the prefix length the loop computes is the index of the next whole character, also when the prefix is cut inside one |
| `ChunkOffsets.EveryCharacterIsInRange` | engine/indexing/chunk.py:56-84 | for tokens that spell the text's bytes every visible character lies in the range of some chunk, wherever windows are cut |
| `ChunkOffsets.WindowIsExactIff` | engine/indexing/chunk.py:61-76 | a window's chunk is the text between its offsets exactly when the window fits: it is cut inside no character, or the marks this gives stand in the text anyway |
| `ChunkOffsets.OffsetsAreExactIff` | engine/indexing/chunk.py:46-84 | for every text: all offsets are right exactly when it is blank or all windows fit |
| `ChunkOffsets.OffsetsAreExactUnlessCut` | engine/indexing/chunk.py:46-84 | for every text without U+FFFD: all offsets are right exactly when it is blank or no window is cut inside a character |
| `ChunkOffsets.TornEmoji` | engine/indexing/chunk.py:61-76 | an emoji of two tokens has wrong offsets with one token to a window and right ones with two |
| `Dedupe.UrlBloom.constructor` | frontier/dedupe.py:22-26 | an empty filter |
| `Dedupe.UrlBloom.SetPosition` | frontier/dedupe.py:38-41 | sets that bit and no other |
| `Dedupe.UrlBloom.Add` | frontier/dedupe.py:37-41 | the bits set are exactly the positions of the values added |
| `Dedupe.UrlBloom.Contains` | frontier/dedupe.py:43-49 | true exactly when all positions are positions of added values, hence for every added value |
| `Dedupe.Tokenize` | frontier/dedupe.py:52-64 | the tokens are the maximal alphanumeric runs |
| `Dedupe.TokensSplitAtSeparator` | frontier/dedupe.py:52-64 | the two sides of a separator are tokenised independently |
| `Dedupe.RunIsToken` | frontier/dedupe.py:55-63 | alphanumeric characters alone are one token |
| `Dedupe.CastVotes` | frontier/dedupe.py:71-75 | one token moves every weight by one, up or down by its bit |
| `Dedupe.Simhash` | frontier/dedupe.py:67-80 | bit b is set exactly when more tokens have it than lack it |
| `Dedupe.FingerprintIsMajority` | frontier/dedupe.py:71-79 | a bit below 64 is set exactly when more than half of the tokens have it |
| `Dedupe.SimhashIgnoresOrder` | frontier/dedupe.py:67-80 | the fingerprint depends only on the multiset of tokens |
| `Dedupe.SimhashOfDoubledText` | frontier/dedupe.py:52-80 | a text written twice with a separator between has the fingerprint of the text |
| `Crawler.AddedIsInFilter` | frontier/dedupe.py:37-49 | the filter has no false negatives |
| `Crawler.StepKeepsOnceOnly` | crawler/run.py:294-349 | every atomic step keeps: nothing fetched twice, no URL in two workers' hands |
| `Crawler.StepKeepsResults` | crawler/run.py:321-335 | every atomic step keeps the results within the budget, with different requested URLs, which are those visited |
| `Crawler.StepKeepsCounts` | crawler/run.py:281-320 | every atomic step keeps the counts of open items and of sentinels |
| `Crawler.RunKeepsInv` | crawler/run.py:281-349 | the invariant holds in every reachable state of every interleaving |
| `Crawler.NoUrlTwice` | crawler/run.py:309-330 | no URL is fetched twice, and the results stay within the budget and were requested by different fetched URLs |
| `Crawler.StepKeepsLocks` | crawler/run.py:316-349 | every atomic step keeps the lock table, the guard, and the sum of permits left and held of each semaphore |
| `Crawler.OneSemaphorePerDomain` | crawler/run.py:341-349 | no domain ever gets a second semaphore, and permits left and permits held add up to its size |
| `Crawler.DomainsAreThrottled` | crawler/run.py:316-349 | so the fetches under way for a domain never exceed the size of its semaphore |
| `Crawler.SentinelsBalance` | crawler/run.py:288-304 | each item is reported done once; exits and sentinels left add up to those sent and the empty URLs queued |
| `CrawlerRuns.OneSentinelEach` | crawler/run.py:288-304 | with no empty URL among seeds and links no worker exits before the sentinels are sent, each takes exactly one, and none is left in the end |
| `CrawlerRuns.EarlyExitIff` | crawler/run.py:281-304 | no run with links that are not empty has a worker exit early if and only if no seed is empty |
| `CrawlerRuns.EmptySeedHangs` | crawler/run.py:288-304 | behind an empty seed the only worker exits and the next seed is never taken |
| `CrawlerRuns.SomeoneCanMove` | crawler/run.py:294-349 | in every reachable state with anything unfinished and a worker that has not exited, some worker can take a step: there is no deadlock over guard and semaphores |
| `CrawlerRuns.StepLeavesLess` | crawler/run.py:294-464 | every step of a worker adds one of at most `budget` results or leaves less work |
| `CrawlerRuns.WorkRunsOut` | crawler/run.py:294-464 | whatever is fetched, after finitely many steps the workers have nothing more to do |
| `CrawlerRuns.QueueIsFinished` | crawler/run.py:281-288 | with no empty URL, however the workers' steps follow each other, `queue.join()` returns as long as one moves while one can |
| `CrawlerRuns.RedirectsCollide` | crawler/run.py:394-395 | two seeds redirected to one URL give two results with it |
| `CrawlerRuns.LinksAreFollowed` | crawler/run.py:325-337 | a result below the budget is recorded, and of its source links exactly those are queued that are taken and were neither queued nor visited; those skipped or cut off are not |
| `CrawlerRuns.FreshMembers` | crawler/run.py:439-442 | the links queued are the unknown ones, each once |
| `CrawlerRuns.FreshInOrder` | crawler/run.py:431-455 | they are queued in the order of the page |
| `CrawlerRuns.OfferedIff` | crawler/run.py:431-438 | a link comes up exactly where it is taken and no earlier choice has ended the loop |
| `CrawlerRuns.FullCrawlStops` | crawler/run.py:305-335 | results that fill the budget stop the crawl, and then no worker takes up another URL |
| `Crawler.FocusedCrawler.constructor` | crawler/run.py:281-287 | the seeds are queued and all workers wait |
| `Crawler.FocusedCrawler.GetNext` | crawler/run.py:300-317 | the worker loop up to the guard: sentinel, stopped, seen before, or a new URL that enters the filter |
| `Crawler.FocusedCrawler.EnterGuard` | crawler/run.py:344-345 | with the guard free a worker takes it and looks its domain up |
| `Crawler.FocusedCrawler.LeaveGuard` | crawler/run.py:346-349 | a semaphore is made if there was none, and the guard released |
| `Crawler.FocusedCrawler.EnterLock` | crawler/run.py:318-319 | a permit of the semaphore is taken and the URL handed to the fetch |
| `Crawler.FocusedCrawler.LeaveLock` | crawler/run.py:318-321 | after the fetch the permit is given back, the item is done, and a result goes on |
| `Crawler.FocusedCrawler.RecordResult` | crawler/run.py:325-337 | the result, with its URL after redirects, is kept only within the budget, the requested URL is visited, and a full budget stops the crawl |
| `Crawler.FocusedCrawler.FollowLink` | crawler/run.py:431-455 | a link is queued unless it is refused, queued before or visited |
| `Crawler.FocusedCrawler.PostStops` | crawler/run.py:288-291 | sets the stop event and queues one sentinel per worker |
| `Curate.PreparedPerDomain` | seed_loader/curate.py:209-237 | at most three seeds of a domain get through |
| `Curate.PreparedKeepsFirstThree` | seed_loader/curate.py:234-237 | of each domain exactly the first three get through, in order |
| `Curate.Prepare` | seed_loader/curate.py:209-237 | the loop keeps the first three of each domain |
| `Curate.Dedupe` | seed_loader/curate.py:183-190 | a seed replaces the one with its lower-cased URL only if it is worth more |
| `Curate.DedupedKeepsBest` | seed_loader/curate.py:183-190 | one seed per lower-cased URL, each a given one, and for every given seed one at least as good |
| `Curate.DedupedIsFirstBest` | seed_loader/curate.py:183-190 | the seed kept for a lower-cased URL is the first of those worth most |
| `Curate.Consume` | seed_loader/curate.py:251-262 | takes the first untaken members of the pool, as many as quota and target allow |
| `Curate.PassSize` | seed_loader/curate.py:251-262 | a pass takes as many as there is room for and are untaken, and no more than its quota, but one even at zero |
| `Curate.PoolsAre` | seed_loader/curate.py:264-266 | the pools hold exactly the seeds of another language than English and of another region than the US |
| `Curate.SelectionTakesBest` | seed_loader/curate.py:243-269 | a seed left out is worth no more than any the third pass took, nor, if it is in a pool, than any its pass took |
| `Curate.SelectionFills` | seed_loader/curate.py:248-274 | exactly min(target, seeds) different seeds, and the non-English quota met as far as the pool goes |
| `Curate.NonUsQuotaMet` | seed_loader/curate.py:264-269 | with room for both quotas the non-US quota is met as far as the pool goes |
| `Curate.NonUsQuotaMissed` | seed_loader/curate.py:193-269 | without room for both there are sources, with URLs whose guessed language, region and value are those given, for which it could be met and is not |
| `Curate.CurateSeeds` | seed_loader/curate.py:193-274 | the answer has min(target, seeds) members, no URL twice ignoring case, at most three per domain, at least the non-English share of the target or the whole pool, and the same for the non-US share whenever both fit; shares are the given ones cut to [0, 1], or the defaults |
| `Curate.CuratedSelection` | seed_loader/curate.py:183-274 | the whole selection: its size, no URL twice ignoring case, at most three per domain, both quotas |
| `Curate.Required` | seed_loader/curate.py:245-246 | the least number of seeds that is the share of the target |
| `LearnedWebDbs.RowHoldsGreatest` | server/learned_web_db.py:250-303 | each maximum column holds the greatest value offered, NULL only if none was |
| `LearnedWebDbs.RowCounts` | server/learned_web_db.py:250-303 | the count is the number of discoveries, and first_seen is that of the first upsert |
| `LearnedWebDbs.RowHoldsLastReason` | server/learned_web_db.py:276-279 | the reason is that of the last discovery |
| `LearnedWebDbs.MaximaIgnoreOrderAndRepeats` | server/learned_web_db.py:263-292 | the maxima depend only on which upserts there were |
| `LearnedWebDbs.OrderDoesNotMatter` | server/learned_web_db.py:250-303 | any permutation of the upserts gives the same last_seen, learned_score, discovery_count, last_crawl_at and last_index_at |
| `LearnedWebDbs.OrderMattersForTheRest` | server/learned_web_db.py:250-303 | a permutation of the upserts gives the same first_seen exactly when its first was seen at the same time, the same reason exactly when its last discovery gave the same one, and the same row exactly when both |
| `LearnedWebDbs.RowsOnlyGrow` | server/learned_web_db.py:263-292 | no later upsert lowers any of them |
| `LearnedWebDbs.RowIsReplay` | server/learned_web_db.py:236-309 | a row is what its own host's upserts make of it, whatever came between |
| `LearnedWebDbs.InterleavingDoesNotMatter` | server/learned_web_db.py:236-309 | runs with the same upserts of a host, in any order and mixed with any others, agree on those columns |
| `LearnedWebDbs.CountMatchesDiscoveries` | server/learned_web_db.py:387-437 | a host's discovery count is its rows in the discoveries table plus increments made without one |
| `LearnedWebDbs.DiscoveryIsRecorded` | server/learned_web_db.py:387-437 | a recorded discovery raises the row of its host to its score and time, counts once, and adds one row with all that was given; no other host is touched |
| `LearnedWebDbs.UpsertIsRecorded` | server/learned_web_db.py:236-309 | an upsert raises the row of its host as it says and touches nothing else |
| `LearnedWebDbs.ValueIsGreatestScore` | server/learned_web_db.py:311-316 | a host has a value exactly when it was ever given a positive score, and it is the greatest |
| `LearnedWebDbs.StripTwice` | server/learned_web_db.py:33-41 | stripping "www." again changes nothing exactly when none is left |
| `LearnedWebDbs.CreatedAgainIff` | server/learned_web_db.py:404-437 | a repeated discovery is reported as new again exactly when the host still starts with "www." |
| `LearnedWebDbs.RepeatedWwwIsNewAgain` | server/learned_web_db.py:400-437 | a URL on "www.www.a.org" is stored under another host than it is looked up by |
| `LearnedWebDbs.LearnedWebDb.constructor` | server/learned_web_db.py:109-125 | both tables are empty |
| `LearnedWebDbs.LearnedWebDb.UpsertDomainLocked` | server/learned_web_db.py:236-309 | inserts or merges the row of the normalised host, nothing for a blank one |
| `LearnedWebDbs.LearnedWebDb.RecordDiscovery` | server/learned_web_db.py:387-437 | merges the row and adds a discovery in one step, and says whether the looked-up host was unknown |
| `LearnedWebDbs.LearnedWebDb.DomainValueMap` | server/learned_web_db.py:311-316 | exactly the hosts whose score is positive, each with its score |
| `VectorStores.ChunkIdIsInjective` | engine/data/store.py:191-194 | the hashed text tells URL and index apart, even for URLs that contain "::" |
| `VectorStores.VectorStore.constructor` | engine/data/store.py:141-151 | both tables are empty |
| `VectorStores.VectorStore.NeedsUpdateFor` | engine/data/store.py:234-251 | stale unless the hash agrees, or none was stored and the etag agrees |
| `VectorStores.VectorStore.Upsert` | engine/data/store.py:253-312 | replaces the row and the URL's records, or raises the ValueError and leaves both tables alone |
| `VectorStores.NoIdIsLeft` | engine/data/store.py:268-305 | once a URL's records are deleted none of its ids is left, so adding never collides |
| `VectorStores.OneRecordEach` | engine/data/store.py:299-305 | there is one record for each chunk |
| `VectorStores.RecordIsFound` | engine/data/store.py:299-305 | each chunk's record lies under its id |
| `VectorStores.UpsertIsLocal` | engine/data/store.py:271-312 | an upsert replaces the URL's records and leaves those of every other URL |
| `VectorStores.UpsertIsExactIff` | engine/data/store.py:277-298 | the URL's records are exactly the new ones if and only if the metadata does not override the URL |
| `VectorStores.MovedRecordIsLost` | engine/data/store.py:277-298 | a chunk whose metadata names another URL is found under that one only, and its page is up to date all the same |
| `VectorStores.RecordsAreLastUpsert` | engine/data/store.py:253-312 | after any upserts the records of a URL are the chunks of its last one, if no metadata moved records to that URL or away from it |
| `VectorStores.RecordHoldsChunk` | engine/data/store.py:276-305 | a record holds its chunk's text and embedding and says which chunk of which page it is, unless the given metadata says otherwise |
| `VectorStores.LastChunksAreStored` | engine/data/store.py:253-312 | after any upserts chunk i of a URL's last one lies under its id |
| `VectorStores.RowIsLastUpsert` | engine/data/store.py:268-275 | after any upserts the document row of a URL is that of its last one |
| `VectorStores.UpToDateIff` | engine/data/store.py:234-251 | after any upserts a page is up to date exactly for the last hash, or the last etag when no hash was stored |
| `VectorStores.Query` | engine/data/store.py:336-404 | of the hits, those that pass threshold and filters, best first, at most k |
| `VectorStores.BestIsBest` | engine/data/store.py:376-404 | the result has min(k, passing) hits in descending order, each passing threshold and filters, and nothing that passes and is left out is better |
| `VectorStores.BestAreNearest` | engine/data/store.py:380-404 | what is returned is nearest first, near enough, and agrees with every filter |
| `VectorStores.LeftOutAreFarther` | engine/data/store.py:403-404 | a passing hit that is left out is no nearer than any returned |
| `ColdStart.ColdStartIndexer.constructor` | engine/indexing/coldstart.py:28-48 | keeps its store, environment and limit |
| `ColdStart.ColdStartIndexer.BuildIndex` | engine/indexing/coldstart.py:50-97 | the loop stores exactly what the turns say and returns how many, or raises |
| `ColdStart.ColdStartIndexer.IndexPage` | engine/indexing/coldstart.py:75-96 | a page is skipped, stored, or raises |
| `ColdStart.BuildIsBounded` | engine/indexing/coldstart.py:62-97 | at most max_pages upserts, each URL once and each a candidate |
| `ColdStart.BuildMakesCurrent` | engine/indexing/coldstart.py:62-97 | what a run stores was stale and is up to date afterwards, and nothing stops being so |
| `ColdStart.BuildIsComplete` | engine/indexing/coldstart.py:62-97 | a run that neither raised nor filled up leaves every usable candidate up to date |
| `ColdStart.NoPageIsStoredTwice` | engine/indexing/coldstart.py:62-97 | over any number of runs on unchanged pages no page is stored twice |
| `ColdStart.TraceIsCurrent` | engine/indexing/coldstart.py:62-97 | over any number of runs exactly the stored pages become up to date, and none was before |
| `ColdStart.BuildStoresWhole` | engine/indexing/coldstart.py:62-97 | after a run the records of a stored page are its chunks, and all other URLs' records are untouched |
| `ColdStart.RunsStoreWhole` | engine/indexing/coldstart.py:62-97 | from an empty store any runs leave exactly the chunks of the pages stored |
| `ColdStart.StoredIsFetched` | engine/indexing/coldstart.py:74-95 | each chunk of a stored page is a record with the text and embedding of what was fetched |
| `ColdStart.BuildWritesRows` | engine/indexing/coldstart.py:87-95 | a run writes the row of each page it stores, as fetched, and no other |
| `ColdStart.UsableMeans` | engine/indexing/coldstart.py:74-86 | a page is usable exactly when it is fetched and its text gives chunks and embeddings |
| `ColdStart.RaisesIff` | engine/indexing/coldstart.py:80-95 | a run raises exactly at a stale page with another number of embeddings than chunks |
| `Metrics.Histogram.constructor` | backend/app/metrics.py:24-26 | no samples |
| `Metrics.Histogram.Add` | backend/app/metrics.py:28-33 | the samples are the last max_samples values ever added |
| `Metrics.Histogram.Percentiles` | backend/app/metrics.py:35-58 | the values at the middle and at 95 hundredths of the sorted samples |
| `Metrics.MedianIsMiddle` | backend/app/metrics.py:39-40 | the median is the interpolated value in the middle |
| `Metrics.AtIsMonotone` | backend/app/metrics.py:45-56 | linear interpolation between sorted neighbours is monotone in the position |
| `Metrics.PercentilesAreOrdered` | backend/app/metrics.py:35-58 | least sample <= p50 <= p95 <= greatest sample |
| `Metrics.PercentilesBoundTheirShare` | backend/app/metrics.py:35-58 | more than the named share of the samples is at most p50 and p95, and the remaining share at least that |
| `Metrics.FewSamples` | backend/app/metrics.py:36-43 | both are zero without samples, and the sample itself with one |

## Left out

- Network, browser windows, IPC wrappers, Ollama, Flask routes, logging, telemetry, environment parsing: I/O.
- Arithmetic of Python floats: scores, times and samples are exact reals, so rounding is not modelled.
- Frontier: a candidate is a value, and `available_at` is set on the copy that is selected; that the source
  changes the object the caller may share is not captured. The reranker is a function from the window to URLs.
  The generators of candidate URLs are given as lists, already expanded; the cooldown table, the score overrides
  and `urlparse` are parameters.
- Refresh worker: time stamps, statistics, seed lists, the progress bus and the state database. Job ids are taken
  to be new, and the worker thread not to die. Looking up a job by its id is a map lookup.
- Stream registry: object identity is a number that is never reused; what a timer is, beyond being armed, and the
  error frames sent to the page. The near copy in desktop/main.ts is not modelled.
- SSE: decoding of UTF-8 bytes; the frames are split from decoded text, with LF framing as in the code.
- Planner: LangGraph itself; its edges are the order of the calls in `WalkRound`. The recursion limit and the
  fallback run behind it, for which `FallbackUnreachableIff` gives the exact condition, assuming that the limit
  is exceeded by the first node visit beyond it; time-outs inside nodes; message texts and the event list.
- Chunker: which tokens an encoder gives. `ChunkOffsets` takes them to be non-empty byte strings that spell the
  UTF-8 encoding of the text; that the encoder refuses some special texts is not modelled.
- Dedupe: digests are parameters, and how the filter's size follows from capacity and error rate is not modelled.
- Crawler: which pages the fetch returns, robots, Playwright, content-hash checks, and the source budget, which may
  refuse any link. `queue.join()` may return at any time here, and the guard may be held across other workers' steps;
  both allow more runs than the code. Sitemap expansion.
- Curate: how language, region, topic and value are guessed from a URL, and the LLM's extra seeds.
- Learned web database: numeric ids, pages, links, crawls and embeddings; concurrency beyond one lock.
- VectorStores.VectorStore.Upsert: a collection call that raises is not modelled. The row is written first
  (engine/data/store.py:268-275), so such a failure leaves a row that says the page is up to date without its records.
- Vector store: the engines behind the two tables, digests (ids are the text that is hashed), metadata values that
  are neither text nor integers, and the nearest-neighbour search whose answer `Query` starts from.
- Cold start: discovery of candidates and its record in the learned database.
- Tabs, permissions, settings, history trimming, path policies and the YAML of seeds: easy members beside the above.
