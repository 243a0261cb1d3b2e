# Verified models of the benchmark and release tooling

This project models the parts of the repository that carry real algorithms or protocols and proves what they
promise: the multi-turn load generator with its round barrier, the converter that lays trace spans out in lanes, the
edit distance of the OCR benchmark, the conversation queue of the serving benchmark, the marker block of the blog page, the
wheel indexes, the sharding of checkpoints over ranks, and the cyclic dataset filter.

`dafny verify dfyconfig.toml` checks everything. Each file holds one module.

| files | what they model |
|---|---|
| `MultiTurnSetUp.dfy` | from the command line to a configuration |
| `MultiTurn.dfy`, `MultiTurnInvariant.dfy`, `MultiTurnLedger.dfy`, `MultiTurnBarrier.dfy`, `MultiTurnHistory.dfy`, `MultiTurnOrder.dfy`, `MultiTurnTheorems.dfy`, `MultiTurnPayload.dfy`, `MultiTurnExit.dfy` | the load generator as a step system, its joint invariant, the theorems over runs, what is sent in raw token ids, and when the loops leave |
| `WorkloadGenerator.dfy` | the same program as objects with fields; each object carries the run it has gone through, each method extends it, and the theorems hold of the object |
| `SpanLayout.dfy`, `LaneAllocator.dfy`, `LaneProofs.dfy`, `LanePolicy.dfy`, `LaneOptimality.dfy`, `LaneMinimum.dfy` | the span container, the lane allocator, disjointness, choice and exact number of its lanes, and when that is the least |
| `TraceLayout.dfy` | the layout pass over container objects on the heap |
| `SpanForest.dfy`, `SpanConversion.dfy`, `TraceElements.dfy`, `TracePipeline.dfy` | the span forest, the recursive passes over it, the elements written out, and conversion, layout and lane numbers put together |
| `EditDistance.dfy` | edit scripts, the single-row table and the metric laws |
| `ConversationQueue.dfy`, `ConversationProofs.dfy`, `ConversationTheorems.dfy`, `ServingBenchmark.dfy` | the conversation queue: steps, invariant, theorems, and the methods |
| `MarkerBlock.dfy` | replacing the generated block of a page |
| `WheelLinks.dfy`, `SortedTexts.dfy`, `NightlyIndex.dfy`, `NightlyOrder.dfy`, `ReleaseIndex.dfy`, `RootPage.dfy`, `IndexUpdates.dfy` | index pages as text, the nightly index and its order, the release index, the root page both updates share, and the two updates as a whole |
| `Sharding.dfy`, `CyclicFilter.dfy` | ceiling-division slices; filtering until enough is collected |
| `Prelude.dfy`, `Sums.dfy` | shared definitions, sums and counts |

## How the protocols are modelled

The sender, the request tasks and the response handler of the load generator become the steps `Send`, `Complete`, `Handle`
and `Release`; a run is any sequence of steps each of which is enabled where it is taken. The choice of the random
ready queue, the server's answers, and failures are free. A task is created and counted before the event loop runs it, so
`Send` is one step; a task ticks the progress bar and queues its response without giving up control in between, so
`Complete` is one step too (`tracked` is false for a task that ended in an exception before the tick). Releasing
the parked requests is one step per request, because the sender runs beside that loop. A request whose payload is the
client's own history list carries `SharedHistory`, not a copy: what is sent is then whatever the list holds at that moment.
`failures` lists the clients for which the failure message was printed; `metrics` lists the handled responses in order.
A pop from an empty pool of sub-questions would kill the handler thread; `handlerDied` records it and is proved never to
be set.

The conversation queue is modelled the same way, with the steps `Issue`, `Start`, `FinishOk`, `FinishFail` and `GiveUp`;
`putBlocked` would record a `put` that had to wait.

## Where the code does not do what one would expect

- A zero-length span skips the overlap test of the layout. Inside another span of its lane it hides that span from
  later tests, and a third span is put over it (`EmptySpanHidesAnOverlap`). `LayoutDisjointIff` gives the exact condition for
  lanes whose spans are apart. There an empty span strictly inside another counts as a clash, although as half-open intervals
  the two share no instant; for such a pair the only-if half is immediate, and what the condition buys is that nothing later is
  put over anything. Spans that end before they start do no harm (`LayoutIsDisjoint`). The adjustment of 1000 ns makes both
  kinds out of short spans.
- Gateway spans of positive length get as few lanes as possible (`GatewayLanesAreOptimal`). An empty span that is the first to
  start at an instant takes up a lane there, so a positive span that starts with it is sent to another one
  (`EmptySpanWastesALane`). `GatewayLaneCount` gives the exact number of lanes for spans of any lengths, `LeastLanes` the least
  number any disjoint assignment needs, and `OptimalIff` the exact condition for the two to agree; they differ by one at most.
- Gateway spans get no child list, but the conversion reads one; they are modelled with an empty list.
- The load generator leaves its loops only when the progress bar is full. It never is again once a turn is lost: a request
  task that ends without advancing the bar, a client that fails before its last turn, or, with the barrier on, a client that fails
  on its last turn while another client has more turns. `ExitsIff` states that the loops leave exactly if none of these
  happened, `LossNeverExits` that such a loss is for good, and `LastTurnFailureHangs` gives a run of the last kind; in it the other
  client ends up parked one round ahead, as `QuiescenceCharacterised` says.
- `--ready-queue-policy` takes any text; with an unknown one, or without parallelism, nothing is ever sent (`StuckFromTheStart`).
- The dataset filter loops for ever when no conversation qualifies and at least one is wanted (`StuckIff`).
- Replacing a block whose cards contain the end marker is neither repeatable nor readable (`ReplaceTwiceIff`, `ReadBackIff`). The
  error message of that function speaks of exactly one block; the code accepts several and replaces the first (`LaterBlocksStay`).
- The nightly index is documented as ordered by commit count; the code lists the newest update first. The two agree exactly if
  the updates that still have a wheel listed came in the order of their commit counts (`CommitOrderIff`); a late update for an
  older commit breaks it (`LateUpdateBreaksOrder`).
- The release writer of the root page keeps only lines that start with an anchor or a document type, so a package linked from an
  indented line is lost (`IndentedLinkIsLost`; `ReleaseKeepsPackagesIff` has the exact condition, for pages whose kept lines close
  the addresses they open); the nightly writer keeps
  it (`NightlyKeepsPackages`).

## Model

| member | source | states |
|---|---|---|
| MultiTurnSetUp.ResolveRounds | benchmark/hicache/bench_multiturn.py:234-250 | given bounds are kept, a missing one takes the other, two missing ones the default, and exactly the inputs with a bound below one or an empty range are errors |
| MultiTurnSetUp.SetUp | benchmark/hicache/bench_multiturn.py:234-303 | for any draws within the bounds and any samples the set-up yields a well-formed configuration, exactly when the bounds are valid: every client has the one possible number of turns or the one drawn for it, limits and modes are the arguments', and one prompt per client and one question per follow-up turn, at least one, are sampled |
| MultiTurnSetUp.EveryConfigIsSetUp | benchmark/hicache/bench_multiturn.py:234-303 | every well-formed configuration is the result of some arguments, draws and samples, so the theorems range over exactly what the set-up yields |
| Sums.DoubleCounting | benchmark/hicache/bench_multiturn.py:263-267 | the sum of clients per round equals the sum of the clients' rounds |
| MultiTurnLedger.StepKeepsOwnership | benchmark/hicache/bench_multiturn.py:388-538 | every step keeps: each live client owns exactly one request among ready, in flight, answered and parked |
| MultiTurnLedger.StepKeepsCounters | benchmark/hicache/bench_multiturn.py:402-411 | every step keeps the counters of sent, completed and ticked requests in line with the queues and logs, within the parallelism limit |
| MultiTurnLedger.StepKeepsPool | benchmark/hicache/bench_multiturn.py:484-486 | every step keeps: the pool holds what was sampled less what was drawn, and no draw finds it empty |
| MultiTurnLedger.PoolCoversOwed | benchmark/hicache/bench_multiturn.py:292-303 | the pool holds at least the follow-ups still owed, so it is not empty while one is owed |
| MultiTurnBarrier.StepKeepsBarrier | benchmark/hicache/bench_multiturn.py:513-538 | every step keeps the joint invariant of barrier round, counter, parked list and client rounds |
| MultiTurnHistory.StepKeepsHistories | benchmark/hicache/bench_multiturn.py:448-512 | every step keeps: each history is the replay of the metrics log, no outstanding request's payload differs from it, and each asks for the right output length |
| MultiTurnHistory.DialogueAlternates | benchmark/hicache/bench_multiturn.py:448-512 | a dialogue is the prompt, then answers and questions in turn; a client with k turns handled and more to come has 2k+1 segments |
| MultiTurnTheorems.RunInvariant | benchmark/hicache/bench_multiturn.py:402-538 | the joint invariant holds in every state of every run |
| MultiTurnTheorems.OneOutstandingRequest | benchmark/hicache/bench_multiturn.py:388-516 | in every run each unfinished, unfailed client has exactly one outstanding request, sent minus completed is between zero and the limit, the handler never dies, and the pool covers what is owed |
| MultiTurnTheorems.BarrierSafety | benchmark/hicache/bench_multiturn.py:513-538 | with the barrier, a client past turn r has a request ready, in flight or answered only after every client with more than r turns had its turn-r response handled successfully, failures or not |
| MultiTurnTheorems.BarrierBookkeeping | benchmark/hicache/bench_multiturn.py:436-438 | in every run the barrier counter equals the number of clients at the next round, the parked requests are theirs, and the metrics are ordered by round |
| MultiTurnTheorems.FifoSendsInOrder | benchmark/hicache/bench_multiturn.py:193-208 | with the fifo policy requests are sent in order of creation: every client in turn, then each follow-up in the order its response was handled, barrier or not |
| MultiTurnTheorems.RunsAreBounded | benchmark/hicache/bench_multiturn.py:402-538 | every run, failing or not, takes at most eight steps per request |
| MultiTurnTheorems.QuiescenceCharacterised | benchmark/hicache/bench_multiturn.py:444-447 | when nothing more can happen, no live client is left, or the barrier waits for a failed client of the current round and all live clients are parked one round ahead |
| MultiTurnTheorems.NoFailureNoDeadlock | benchmark/hicache/bench_multiturn.py:402-538 | without failures some step is enabled exactly until all clients have finished and the barrier is released; then all requests were sent, handled and ticked, and their number is the sum over the rounds |
| MultiTurnTheorems.StuckFromTheStart | benchmark/hicache/bench_multiturn.py:197-208 | with at least one client, nothing can happen exactly when there is no parallelism or the policy is unknown |
| MultiTurnExit.StepKeepsWaiting | benchmark/hicache/bench_multiturn.py:513-538 | every step keeps: with the barrier on, each failed client stays at the barrier round |
| MultiTurnExit.FullProgressMeansDone | benchmark/hicache/bench_multiturn.py:414-415 | when the loops may leave, nothing is ready, in flight or parked, every task ticked, and whoever failed did so on its last turn, with the barrier on the last turn of all |
| MultiTurnExit.ExitsIff | benchmark/hicache/bench_multiturn.py:539-541 | when nothing more can happen the progress bar is full exactly if the sender can send, every task ticked, and every failed client failed on its last turn, with the barrier on the last turn of all |
| MultiTurnExit.LossNeverExits | benchmark/hicache/bench_multiturn.py:539-541 | once that condition is broken the progress bar stays short of full in every continuation |
| MultiTurnExit.LastTurnFailureHangs | benchmark/hicache/bench_multiturn.py:444-447 | a run of two clients, barrier on, in which a failure on a client's only turn leaves the other one parked for ever |
| MultiTurnTheorems.PayloadIsDialogue | benchmark/hicache/bench_multiturn.py:336-355 | every request still to be answered carries the whole alternating dialogue of its client up to its round, and asks for the output length of its latest prompt |
| MultiTurnTheorems.WhatCanHappen | benchmark/hicache/bench_multiturn.py:402-534 | which steps can follow a run, exactly: below the limit on requests in flight or unhandled the sender starts any ready request, or the oldest; any request in flight ends in any way; the handler releases or takes the next response |
| MultiTurnPayload.LogFollowsSteps | benchmark/hicache/bench_multiturn.py:449-512 | in every run the metrics log, and behind it the queued successful responses, list whose request each successful `Complete` step ended and the output that step carried |
| MultiTurnPayload.PayloadInRawIds | benchmark/hicache/bench_multiturn.py:451-512 | in every run each request still to be answered carries, as raw token ids or as chat messages, its client's first prompt, then in turn the outputs of all its successful `Complete` steps and the sub-questions drawn after them from the end of the sample, an empty chat answer left out |
| MultiTurnPayload.HistoryInRawIds | benchmark/hicache/bench_multiturn.py:451-512 | in every run the same holds of every client's history, finished or failed ones included, for the outputs handled so far |
| MultiTurnTheorems.HistoriesExtend | benchmark/hicache/bench_multiturn.py:449-512 | along every run a history only grows at its end, and not at all while its client stays at one round |
| WorkloadGenerators.ReadyQueue.Append | benchmark/hicache/bench_multiturn.py:193-195 | the item is added at the end |
| WorkloadGenerators.ReadyQueue.Pop | benchmark/hicache/bench_multiturn.py:197-208 | nothing on an empty queue, the chosen or the first request by policy, an error on an unknown policy, and what remains |
| WorkloadGenerators.WorkloadGenerator.constructor | benchmark/hicache/bench_multiturn.py:336-386 | the object starts at the empty run |
| WorkloadGenerators.WorkloadGenerator.SendOne | benchmark/hicache/bench_multiturn.py:404-412 | one turn of the sender loop extends the run by a send step if one is enabled, and by nothing otherwise |
| WorkloadGenerators.WorkloadGenerator.FinishTask | benchmark/hicache/bench_multiturn.py:388-400 | the end of a request task extends the run by a complete step |
| WorkloadGenerators.WorkloadGenerator.HandleResponse | benchmark/hicache/bench_multiturn.py:439-538 | one turn of the handler loop handles a response whenever there is one, and extends the run by the handling step and the release it triggers |
| WorkloadGenerators.WorkloadGenerator.ReleaseParked | benchmark/hicache/bench_multiturn.py:534-538 | all parked requests go to the ready queue in order, and the barrier moves on |
| WorkloadGenerators.HandleOneIsARun | benchmark/hicache/bench_multiturn.py:520-538 | one turn of the handler loop extends any run to a run, one release step per parked request |
| WorkloadGenerators.WorkloadGenerator.OneOutstandingEach | benchmark/hicache/bench_multiturn.py:388-516 | of every object between turns: one outstanding request per unfinished, unfailed client, the parallelism limit, and a live handler |
| WorkloadGenerators.WorkloadGenerator.NobodyAheadOfTheBarrier | benchmark/hicache/bench_multiturn.py:513-538 | of every object between turns: barrier safety |
| WorkloadGenerators.WorkloadGenerator.LeavesIff | benchmark/hicache/bench_multiturn.py:539-541 | of every object with nothing left to do: the progress bar is full exactly if no turn was lost |
| SpanLayout.CheckRefinesScan | scripts/convert_otel_2_perfetto.py:58-70 | on positive-length spans the two-neighbour test agrees with a scan of everything stored |
| SpanLayout.NeighboursDecide | scripts/convert_otel_2_perfetto.py:58-70 | on any chain of intervals, whatever their lengths, the two neighbours decide for all |
| SpanLayout.Insort | scripts/convert_otel_2_perfetto.py:72-73 | the container stays sorted and holds exactly one more span |
| SpanLayout.ClearInsertKeepsChain | scripts/convert_otel_2_perfetto.py:58-73 | a span the test lets in, of any length, keeps the stored intervals a chain |
| SpanLayout.UntestedInsertKeepsChainIff | scripts/convert_otel_2_perfetto.py:98-99 | a zero-length span put in without the test keeps the chain exactly when it lies strictly inside nothing |
| LaneAllocator.FirstFit | scripts/convert_otel_2_perfetto.py:111-114 | the first lane with room, all earlier ones being busy |
| LanePolicy.ChoiceOfLane | scripts/convert_otel_2_perfetto.py:95-120 | in terms of everything stored: the lane used last if the span is empty or it has room, else the lowest lane with room, else a new one with its metadata entry; nothing else changes |
| LanePolicy.RemembersLastLane | scripts/convert_otel_2_perfetto.py:279-292 | within a request the lane remembered for a process is that of the last span placed there |
| LaneProofs.LaneIsClearIff | scripts/convert_otel_2_perfetto.py:95-120 | the lane found has room exactly when no empty span took the shortcut into a stored one |
| LaneProofs.PlaceKeepsIff | scripts/convert_otel_2_perfetto.py:279-292 | one placement keeps all spans of a lane apart exactly when it is safe, and then keeps contents, chains and metadata right |
| LaneProofs.LayoutDisjointIff | scripts/convert_otel_2_perfetto.py:269-309 | a whole layout has disjoint lanes exactly when every placement was safe; then lanes are 1..n per process with one metadata entry each |
| LaneProofs.LayoutIsDisjoint | scripts/convert_otel_2_perfetto.py:269-309 | without zero-length spans every layout is disjoint, holds exactly the spans placed, and numbers and announces its lanes 1..n |
| LaneProofs.SlotsAreTheLanesInUse | scripts/convert_otel_2_perfetto.py:95-134 | safe or not, a layout announces each lane some span was put on exactly once under its process, and no other |
| LaneProofs.EmptySpanHidesAnOverlap | scripts/convert_otel_2_perfetto.py:98-99 | a family of three spans, the second empty, for which the layout puts two overlapping spans on one lane |
| LaneOptimality.AnyAssignmentNeeds | scripts/convert_otel_2_perfetto.py:295-309 | no disjoint assignment uses fewer lanes than spans active at an instant |
| LaneOptimality.GatewayLaneCount | scripts/convert_otel_2_perfetto.py:295-309 | for gateway spans of any lengths in start order, placed safely, the number of lanes is the largest number of spans that take up lanes at one instant: those active there, and the first to start there if it is not of positive length |
| LaneOptimality.GatewayLanesAreOptimal | scripts/convert_otel_2_perfetto.py:295-309 | no disjoint assignment uses two lanes less; for positive-length spans none uses fewer, and the number is the largest number active at one instant |
| LaneMinimum.LeastLanes | scripts/convert_otel_2_perfetto.py:295-309 | the least number of lanes of any disjoint assignment of spans in start order is one more than the spans in the way of any one span: some assignment uses that many, none fewer |
| LaneMinimum.OptimalIff | scripts/convert_otel_2_perfetto.py:295-309 | for gateway spans of any lengths in start order, placed safely, the layout uses as few lanes as any disjoint assignment exactly if no instant demands more lanes than that least number |
| LaneMinimum.WasteNeedsAnIdleFirst | scripts/convert_otel_2_perfetto.py:98-99 | an instant demands more only if a span without positive length is the first to start there |
| LaneOptimality.EmptySpanWastesALane | scripts/convert_otel_2_perfetto.py:98-99 | an input for which `OptimalIff` fails: an empty span and a positive one that starts with it get two lanes, though one would do |
| LaneOptimality.TraceLayout | scripts/convert_otel_2_perfetto.py:269-309 | a whole trace, engine requests of any spans in any order and then the gateway spans in start order: lanes are disjoint exactly if every placement was safe, and then there are as many gateway lanes as the busiest instant demands |
| TraceLayouts.SpanLayoutContainer.CheckOverlap | scripts/convert_otel_2_perfetto.py:58-70 | the test on the container object, by binary search, is the two-neighbour test |
| TraceLayouts.SpanLayoutContainer.InsertSpan | scripts/convert_otel_2_perfetto.py:72-73 | the container's list becomes the sorted insertion |
| TraceLayouts.LayoutPass.FindLine | scripts/convert_otel_2_perfetto.py:95-120 | lane, graph, last-used lanes and metadata after the call are those of the specification |
| TraceLayouts.LayoutPass.Generate | scripts/convert_otel_2_perfetto.py:278-309 | the loops over requests and spans produce exactly the specified layout |
| SpanForest.BuildIdMap | scripts/convert_otel_2_perfetto.py:173-173 | each id maps to the last span listed with it |
| SpanForest.BuildTree | scripts/convert_otel_2_perfetto.py:172-196 | roots are, in order, the spans of modules `sglang::request` and `sglang::mooncake`; each other span is filed, in order, under the last span with the id its parent id names, if any |
| SpanForest.OnePath | scripts/convert_otel_2_perfetto.py:172-196 | whatever the parent ids, two paths from a parentless span to one span are equal: what the roots reach is a forest |
| SpanForest.PathsAreShort | scripts/convert_otel_2_perfetto.py:226-227 | no such path is longer than the span list, so the recursive walks end |
| SpanForest.VisitsOnce | scripts/convert_otel_2_perfetto.py:226-227 | a walk visits exactly the spans at or below its start, each once |
| SpanForest.TopsCount | scripts/convert_otel_2_perfetto.py:231-253 | the three loops reach each span two levels below a root exactly once, and no other |
| SpanForest.ExactlyOnce | scripts/convert_otel_2_perfetto.py:199-253 | in any order of the tops the walks visit each span two or more levels below a root exactly once and no other span |
| SpanConversion.AdjustCounts | scripts/convert_otel_2_perfetto.py:208-209 | the end time loses 1000 ns per visit |
| SpanConversion.Spans.Convert | scripts/convert_otel_2_perfetto.py:199-227 | the recursive conversion adjusts the spans of its walk, in walk order |
| SpanConversion.Spans.ConvertAll | scripts/convert_otel_2_perfetto.py:230-253 | every span two or more levels below a root ends 1000 ns earlier, once, and no other end time changes |
| SpanConversion.Spans.SetTid | scripts/convert_otel_2_perfetto.py:262-266 | exactly the spans at or below the given one get its lane |
| SpanConversion.Spans.SetTids | scripts/convert_otel_2_perfetto.py:281-293 | after the layout every span has the lane of the top span it lies under |
| TracePipeline.Convert | scripts/convert_otel_2_perfetto.py:199-309 | from raw spans to lane numbers, for any order of requests and spans: each span two or more levels below a root, and each gateway span, ends 1000 ns earlier; everything under a top lies on its lane; each lane a top or gateway span is on is announced once under its process id, and no other; two tops with one lane number under threads of one process id do not overlap in their adjusted times, nor two gateway spans on one lane, exactly if every placement was safe; and then gateway spans in start order are announced as many lanes as the busiest instant demands |
| TraceElements.Gatherer.GatherOne | scripts/convert_otel_2_perfetto.py:396-407 | the elements gathered are those of the walk: each visited span, its events and its links |
| TraceElements.Gatherer.GatherAll | scripts/convert_otel_2_perfetto.py:410-424 | in any order of the tops the output holds all metadata, every converted span with its events and links, and every gateway span with its events, each exactly once, and nothing else |
| EditDistance.TableIsDistance | benchmark/ocr/eval_utils.py:617-631 | the table entry is the least cost over all edit scripts: some script costs that, none costs less |
| EditDistance.NeighboursDifferByOne | benchmark/ocr/eval_utils.py:625-626 | neighbouring entries differ by at most one, which justifies taking the diagonal without a minimum |
| EditDistance.Symmetric | benchmark/ocr/eval_utils.py:605-631 | the distance is symmetric |
| EditDistance.ZeroMeansEqual | benchmark/ocr/eval_utils.py:605-631 | the distance is zero exactly for equal texts |
| EditDistance.Triangle | benchmark/ocr/eval_utils.py:605-631 | the triangle inequality |
| EditDistance.Composed | benchmark/ocr/eval_utils.py:605-631 | composing two scripts gives a script from the first source to the last target that costs no more than both |
| EditDistance.Bounds | benchmark/ocr/eval_utils.py:605-631 | the distance lies between the difference and the maximum of the lengths |
| EditDistance.NextRow | benchmark/ocr/eval_utils.py:620-629 | one pass in place turns the row of a prefix into the row of the next |
| EditDistance.RowDistance | benchmark/ocr/eval_utils.py:617-629 | the last entry of the row is the least cost over all edit scripts |
| EditDistance.NormalizedEditDistance | benchmark/ocr/eval_utils.py:605-631 | for any preparation of the texts the value is in [0,1], zero exactly for texts prepared alike, and the distance over the longer length whenever one prepared text is not empty, early returns included |
| ConversationQueue.FlattenKeepsTotal | benchmark/hicache/bench_serving.py:414-421 | flattening shared prefixes keeps the number of requests and gives one turn per conversation |
| ConversationQueue.FlattenAt | benchmark/hicache/bench_serving.py:418-420 | turn t of conversation c becomes the conversation at the number of turns before it, so the flattened list is all turns in order |
| ConversationProofs.StepKeepsOnePlace | benchmark/hicache/bench_serving.py:263-283 | every step keeps each conversation in exactly one of queue, created, running, finished and dropped |
| ConversationProofs.QueueFits | benchmark/hicache/bench_serving.py:421-421 | all places together hold as many conversations as the queue's capacity |
| ConversationProofs.StepKeepsStanding | benchmark/hicache/bench_serving.py:172-190 | every step keeps each conversation's recorded lengths, messages and turn counter in line with what was sent and replied: user entry j is turn j of the input, assistant entry j the text of reply j |
| ConversationProofs.StepKeepsSentLog | benchmark/hicache/bench_serving.py:99-116 | every step keeps the log of requests in order and each entry right, down to the texts of the replies it quotes |
| ConversationTheorems.QueueProtocol | benchmark/hicache/bench_serving.py:172-190 | in every run each conversation is in one place, the queue stays within its size and the put never waits, and turns go out in order without repeats |
| ConversationTheorems.IssuedInOrder | benchmark/hicache/bench_serving.py:186-190 | in every run the queue is first in, first out: the list's order, then the order of the replies |
| ConversationTheorems.WithinLimit | benchmark/hicache/bench_serving.py:396-411 | no run ever has more requests running than the concurrency limit |
| ConversationTheorems.GivesUpStarved | benchmark/hicache/bench_serving.py:263-275 | in every run the loop gives up only with an empty queue and requests left to issue, and issues nothing afterwards |
| ConversationTheorems.WhatCanHappen | benchmark/hicache/bench_serving.py:263-411 | which steps can follow a run, exactly, in terms of its queues and the limit |
| ConversationTheorems.RequestsCarryTheConversation | benchmark/hicache/bench_serving.py:99-116 | in every run a request of turn k has 2k+1 messages, the input prompts with the texts of the conversation's `FinishOk` steps between them, and a prompt length of all inputs so far plus the output lengths those steps carried |
| ConversationTheorems.RepliesAreReceived | benchmark/hicache/bench_serving.py:165-177 | in every run the replies logged for a conversation are, in order, the length and text of exactly the `FinishOk` steps taken while it ran there |
| ConversationTheorems.RunsAreBounded | benchmark/hicache/bench_serving.py:263-283 | every run takes at most three steps per turn and one timeout |
| ConversationTheorems.AllIssuedIff | benchmark/hicache/bench_serving.py:268-277 | all requests are issued exactly when every conversation has issued all its turns, and then the queue is empty |
| ConversationTheorems.HowRunsEnd | benchmark/hicache/bench_serving.py:460-493 | a run without timeout rests with an empty queue, has issued everything exactly when each dropped conversation failed on its last turn, and without failures everything was issued and answered |
| ServingBenchmarks.ServingBenchmark.constructor | benchmark/hicache/bench_serving.py:460-468 | the queue is filled with one input per conversation, in order, and the object starts at the empty run |
| ServingBenchmarks.ServingBenchmark.NextRequest | benchmark/hicache/bench_serving.py:268-277 | one turn of the request loop extends the run by an issue, by a timeout, or by nothing |
| ServingBenchmarks.ServingBenchmark.ComputePromptLen | benchmark/hicache/bench_serving.py:99-106 | the loop's sum is the specified prompt length |
| ServingBenchmarks.ServingBenchmark.StartTask | benchmark/hicache/bench_serving.py:99-116 | the coroutine up to the request extends the run by a start step |
| ServingBenchmarks.ServingBenchmark.FinishTask | benchmark/hicache/bench_serving.py:172-190 | the coroutine after a good response extends the run by a finish step |
| ServingBenchmarks.ServingBenchmark.FailTask | benchmark/hicache/bench_serving.py:191-197 | the coroutine after a failed request extends the run by a failure step |
| ServingBenchmarks.ServingBenchmark.PutNeverWaits | benchmark/hicache/bench_serving.py:186-190 | of every object between turns: each conversation is in one place, and no put had to wait |
| ServingBenchmarks.ServingBenchmark.RequestsQuoteReplies | benchmark/hicache/bench_serving.py:99-116 | of every object between turns: any request sent carries the prompts, and the texts and lengths its conversation's finished tasks were given |
| MarkerBlock.LeftmostShortest | docs/scripts/update_lmsys_sglang_blogs.py:241-248 | the search finds the leftmost match and the shortest there, and fails only without any match |
| MarkerBlock.OutsideUnchanged | docs/scripts/update_lmsys_sglang_blogs.py:240-254 | a page is an error exactly if it has no block; otherwise everything outside the leftmost, shortest block is unchanged, and the rendered cards stand in its place |
| MarkerBlock.ReadBackIff | docs/scripts/update_lmsys_sglang_blogs.py:240-254 | the cards read back are those written, exactly when they hold no end marker |
| MarkerBlock.ReplaceTwiceIff | docs/scripts/update_lmsys_sglang_blogs.py:240-254 | replacing twice is replacing once with the second cards, exactly when the first hold no end marker |
| MarkerBlock.IdempotentIff | docs/scripts/update_lmsys_sglang_blogs.py:240-254 | replacing again with the same cards changes nothing, exactly when they hold no end marker |
| MarkerBlock.LaterBlocksStay | docs/scripts/update_lmsys_sglang_blogs.py:246-253 | a page with several blocks is accepted and the later ones stay |
| WheelLinks.NameInLink | scripts/update_nightly_whl_index.py:95-97 | the file name found in a written link is the one it was written with |
| WheelLinks.UrlInLink | scripts/update_nightly_whl_index.py:95-97 | the address read off a written link is the one it was written with, exactly if that holds no quote |
| NightlyIndex.DedupLinks | scripts/update_nightly_whl_index.py:111-121 | the loop with its set of seen names computes the de-duplication |
| NightlyIndex.DedupSpec | scripts/update_nightly_whl_index.py:111-121 | what is kept is in order, each line the first with its name, no name twice |
| NightlyIndex.DedupAbsorbs | scripts/update_nightly_whl_index.py:108-121 | de-duplicating the old list before putting new links first makes no difference |
| NightlyIndex.ReadBack | scripts/update_nightly_whl_index.py:144-150 | re-reading a written page gives back its links |
| IndexUpdates.UpdateNightly | scripts/update_nightly_whl_index.py:41-150 | a missing directory and an update without wheels are errors; otherwise the package page holds the de-duplicated new and old links and the root page its packages and this one; each wheel of the update is listed once, under the address of its build date and commit, its name and its digest |
| NightlyIndex.IndexIsPublished | scripts/update_nightly_whl_index.py:79-150 | after any updates of no page or any page at all, the page lists the de-duplication of everything published, newest first, and of what it listed before |
| IndexUpdates.NightlyPageIsPublished | scripts/update_nightly_whl_index.py:144-150 | the same under the title the update really writes |
| IndexUpdates.NightlyPageLayout | scripts/update_nightly_whl_index.py:144-150 | the page is the document type, the title with the prefixed accelerator version, and a line per link |
| NightlyIndex.NothingLostNewestWins | scripts/update_nightly_whl_index.py:95-121 | after any updates of any page each wheel ever published or listed before is listed exactly once; a name of the updates with the address of the first wheel of that name in the newest update that has one |
| NightlyIndex.RepeatIsIdle | scripts/update_nightly_whl_index.py:108-150 | repeating an update of any page leaves the page as it is |
| NightlyOrder.CommitOrderIff | scripts/update_nightly_whl_index.py:108-121 | after any updates of any page it is in descending order of commit count exactly if the updates with a wheel still listed came in ascending order; links from before the first update rank last |
| NightlyOrder.AscendingUpdates | scripts/update_nightly_whl_index.py:5-6 | updates in ascending order of commit count give the documented order |
| NightlyOrder.LateUpdateBreaksOrder | scripts/update_nightly_whl_index.py:5-6 | a late update for an older commit, with a wheel of another name, breaks it |
| ReleaseIndex.VersionIff | scripts/update_deepep_whl_index.py:9-11 | a version is found in exactly the file names made of the package, a version that starts with a digit, three tags and the suffix |
| ReleaseIndex.OneAccelerator | scripts/update_deepep_whl_index.py:56-61 | a wheel whose version has one local part is listed for one accelerator version only |
| ReleaseIndex.ReleaseListsNamed | scripts/update_deepep_whl_index.py:56-64 | after a release of any page, the last wheel of a name with version v and local part cu plus the accelerator version is listed, under an address that reads back as v, the name and the digest |
| ReleaseIndex.FileWheels | scripts/update_deepep_whl_index.py:56-64 | the loop puts the anchors of the wheels whose version names the accelerator over the entries read, and skips the others |
| ReleaseIndex.ReadBack | scripts/update_deepep_whl_index.py:49-54 | re-reading a written index gives back its entries |
| ReleaseIndex.IndexIsUnion | scripts/update_deepep_whl_index.py:48-67 | after any history of releases, from no page or any page at all, the page lists what it held and everything filed since, the newest anchor of each name |
| ReleaseIndex.OrderDoesNotMatterIff | scripts/update_deepep_whl_index.py:48-67 | all orders of the releases give the same page exactly if no two of them file one name with different anchors, as with disjoint names |
| ReleaseIndex.RepeatIsIdle | scripts/update_deepep_whl_index.py:48-67 | repeating the last release changes nothing |
| IndexUpdates.UpdateRelease | scripts/update_deepep_whl_index.py:35-67 | an unsupported accelerator version is an error; otherwise both pages are the specified ones |
| SortedTexts.Sort | scripts/update_deepep_whl_index.py:66-66 | taking the least text again and again sorts a set |
| SortedTexts.LeqIff | scripts/update_deepep_whl_index.py:66-66 | the order of texts: a prefix comes first, otherwise the first differing character decides |
| RootPage.FindPackages | scripts/update_nightly_whl_index.py:130-131 | finding links one after the other in any text finds every link, because none starts inside another |
| RootPage.NightlyKeepsPackages | scripts/update_nightly_whl_index.py:123-140 | whatever the root page looks like, the nightly writer keeps every package linked on it and adds its own, each once |
| RootPage.ReleaseKeepsPackagesIff | scripts/update_deepep_whl_index.py:23-32 | on a page whose kept lines close the addresses they open, the release writer keeps every package exactly if each is its own or linked from a line it keeps |
| RootPage.IndentedLinkIsLost | scripts/update_deepep_whl_index.py:26-31 | a package linked from an indented line is lost |
| RootPage.WriteAdds | scripts/update_deepep_whl_index.py:23-32 | on a page, possibly empty or missing, whose packages are linked from lines that start with an anchor, either writer keeps every package, adds its own, and keeps the page so |
| RootPage.FirstRootPage | scripts/update_nightly_whl_index.py:123-140 | without a root page the nightly writer links `sglang` only, and the release writer `sgl-deep-ep` only |
| RootPage.SharedRootKeepsLinks | scripts/update_nightly_whl_index.py:123-140 | any interleaving of the two root writers on such a page loses no package and adds exactly the writers' own |
| RootPage.SharedRootLinksOnce | scripts/update_nightly_whl_index.py:123-140 | from no page, an empty one, or a page of package links, any interleaving links each package exactly once |
| Sharding.ShardsPartition | examples/checkpoint_engine/update.py:69-70 | the slices of all ranks in order are the whole list, for every length and world size |
| Sharding.ShardAt | examples/checkpoint_engine/update.py:69-70 | rank r gets the elements from r times p on, p of them or what is left, p being the least number with which all ranks get everything |
| Sharding.GroupByFile | examples/checkpoint_engine/update.py:80-85 | grouping by file keeps every name with its file, files distinct |
| Sharding.SplitTensors | examples/checkpoint_engine/update.py:79-91 | a rank loads exactly the names of its slice, each from its own file |
| Sharding.TensorOnOneRank | examples/checkpoint_engine/update.py:79-91 | every tensor name is loaded by exactly one rank |
| Sharding.OneLeader | examples/checkpoint_engine/update.py:101-112 | leaders lead themselves, every rank has exactly one leader, whose slice holds that rank's path |
| Sharding.GroupsPartition | examples/checkpoint_engine/update.py:101-112 | the leaders' slices in order are all paths, with a short last group |
| CyclicFilter.FilterOne | benchmark/hicache/data_processing.py:56-84 | the exchanges kept, in order, and their token totals |
| CyclicFilter.FilteredMeans | benchmark/hicache/data_processing.py:56-83 | an exchange is kept exactly if its prompt length and its output length, fixed or own, are within all bounds given; its entry holds its prompt and these two lengths; the order stays |
| CyclicFilter.OnePass | benchmark/hicache/data_processing.py:53-87 | a pass adds as many qualifying conversations as are still wanted, in order, with right totals |
| CyclicFilter.StuckIff | benchmark/hicache/data_processing.py:52-87 | a pass that wants more adds nothing exactly when no conversation qualifies |
| CyclicFilter.CommonFilterChat | benchmark/hicache/data_processing.py:47-91 | exactly the wanted number is collected, entry i being qualifying conversation i modulo their number, and the totals are those of the result |
| CyclicFilter.FitPromptCycles | benchmark/hicache/data_processing.py:409-413 | a prompt cut or repeated to a length has element j of the prompt modulo its length |

## Left out

- HTTP, sockets, files, tokenizers, clocks, sleeps, timeouts' durations and random draws: their results are parameters or free choices.
- EditDistance.NormalizedEditDistance: computes with real numbers instead of floating point; stripping and normalising are a parameter.
- Latency and throughput summaries, and the metrics' values other than the output: reporting only.
- What an event, link or metadata entry holds: `GatherAll` says which are written and how often, not their fields.
- Sorting of a request's spans and of the requests before layout and emission: the theorems hold for every order; only the gateway spans are required to be in start order, which the sort before their loop establishes.
- TracePipeline.Convert: a root without any span two levels below it makes the code's sort raise an error; the model lays out the roots that have one.
- LaneOptimality.GatewayLaneCount: requires safe placements, because an unsafe one makes the overlap test answer for only part of what a lane holds.
- WorkloadGenerators.WorkloadGenerator.HandleResponse: client records are sequences in fields, and one call is one turn of the loop; interleaving inside a turn is the step system's.
- ServingBenchmarks.ServingBenchmark.FinishTask: request inputs are records in a field addressed by number, not objects; each has one owner at a time by `QueueProtocol`.
- CyclicFilter.CommonFilterChat: requires a qualifying conversation when one is wanted, because the loop of the code does not end otherwise (`StuckIff`).
- NightlyIndex.IndexIsPublished: file names are assumed well formed, with at least one character before `.whl` and no markup or newline in names and addresses.
- ReleaseIndex.IndexIsUnion: file names and digests are assumed to hold no quote, angle bracket or newline.
- RootPage.ReleaseKeepsPackagesIff: requires that kept lines close the addresses they open; an address left open runs on into the next line written, whichever that is after sorting.
- RootPage.WriteAdds: lines are separated by newlines only, not by the other characters the text library treats as line ends.
- Sharding.SplitTensors: a tensor is represented by the file it is read from.
- The concurrency limit of the serving benchmark: no limit and a limit of zero are one case of the configuration.
- The warm-up request of the serving benchmark: it works on a copy of the first turn and leaves the queue empty.
- GPU kernel benchmarks, answer matching, the gateway and the serving runtime: other subjects.
