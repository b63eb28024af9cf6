# Red Panda: the agent runtime and its gateway, modelled and proved in Dafny

Red Panda runs an agent as a process that talks to a gateway. The agent owns a
pool of child processes for subagents, edits files through unified patches,
drives a model in segments under a goal's budget, runs the model's tool calls,
and numbers the events it emits; the gateway stores messages and accounts for
segments, and forwards events to browsers. This project models the parts of
that system where order, ownership or exact round trips matter, and proves what
each of them promises, over all inputs and all interleavings.

## How the project is built

Each component has a specification made of functions on values, the program's
own loops and classes as methods proved equal to that specification, and lemmas
about the specification. Concurrent components are transition systems: one step
is one critical section, one channel operation or one return of an outside
call, and a run is any sequence of enabled steps.

| modules | component |
|---|---|
| `SubAgentPool`, `PoolProtocol`, `PoolInvariant`, `PoolProperties` | the pool of child processes: FIFO admission, resize, reset, close |
| `HunkHeader`, `UnifiedPatch`, `PatchApply`, `PatchRoundTrip` | printing, parsing, applying and undoing unified patches |
| `EventQueue`, `RpcTable` | the two protocols of the child-process transport |
| `ProviderSegment`, `GoalLoop`, `GoalProperties`, `SegmentAccounting` | the goal's segment loop and its accounting |
| `ToolBatch`, `EventOrder`, `EventFilter` | tool batches with barriers, event numbers, forwarding to a session |
| `Framing` | newline framing over a buffered reader |
| `StreamedCalls` | tool calls streamed in fragments |
| `MessageHistory` | the message history merged from deltas |
| `JsonText`, `SkillFile` | skill files |
| `Strings`, `Wrappers` | Go's string operations on bytes; options and results |

`dafny verify dfyconfig.toml` checks everything.

## Where the code and a first reading differ

The model follows the code. These are the places where the promised property
does not hold on all inputs, or where the code does something unexpected; the
member named gives the exact condition, a counterexample or the definition.

- A diff is read back exactly under the conditions of `RoundTripExactly`. Only a
  path that begins with `a/` is damaged: of `b/` just the printed prefix is
  stripped. A diff cut at the output limit never parses.
- Undoing an applied patch restores the lines always, the text only under the
  condition of `TextInversionExactly`: a text of one newline does not change when
  its only line is removed.
- A path that ends in a parent step is not refused (`RefusedExactly`).
- Hunk counts are read and never used, and a start of 0 means the first line
  (`UnifiedPatch.Target`, `PatchApply.Fits`).
- A deadline that passes between two segments makes the loop report the last
  segment's turns once more under the next index (`ConservationExactly`). Which
  goals can be hit is settled by their limits alone (`AlwaysConservedExactly`).
- A bound goal without an id is never reported, so no turn budget ends its
  loop (`WithoutIdNeverStops`).
- An unstreamed message drops the text that comes with tool calls, a streamed
  one passes it on (`StreamAgreesWithMessage`).
- The key of a segment row joins ids with underscores and is not injective
  (`KeysCollideExactly`); a colliding segment is silently not counted.
- A message that ends in a carriage return loses it unless its length is a
  multiple of the reader's buffer (`Framing.RoundTripExactly`); the length limit
  is not applied to lines shorter than the buffer (`ShortLinesIgnoreTheLimit`);
  and the tail of a refused line is read as the next message
  (`RefusedLineLeavesItsTail`).
- A streamed call whose index is not below the number of calls is lost
  (`NothingLostExactly`).
- A delta appended to a block of another kind turns that block into text
  (`ExtendedExactly`).
- A skill file whose front matter is closed at the end of the file needs no
  description (`ClosedAtEnd`).
- Forgetting a run between the two counters of an event leaves a number behind
  for that agent, and only then (`StartsOverExactly`, `ForgottenMidEvent`).
- Two goroutines that forward one run to a session can queue accepted events in
  the opposite order (`WireCanSwap`); with one the order always holds
  (`WireOrderExactly`).

## Model

| member | source | states |
|---|---|---|
| SubAgentPool.Pooled.constructor | modules/agent/internal/runtime/subagent_pool.go:62-73 | a new pool is open and empty, with its size clamped to 1..8 (2 when not positive) |
| SubAgentPool.Pooled.DispatchLocked | modules/agent/internal/runtime/subagent_pool.go:203-235 | both loops leave the lock-protected state of `Dispatch`, and every send under the lock finds a free slot |
| SubAgentPool.DispatchOpenClosedForm | modules/agent/internal/runtime/subagent_pool.go:213-234 | without recursion: an open pool serves a prefix of the queue as long as supply lasts, newest idle child first, then permissions to create, one grant to each, and changes no other channel |
| SubAgentPool.DispatchClosedClosedForm | modules/agent/internal/runtime/subagent_pool.go:204-211 | a closed pool answers every queued waiter with the closed error and changes nothing else |
| SubAgentPool.Pooled.RemoveWaiterLocked | modules/agent/internal/runtime/subagent_pool.go:237-248 | reports whether the waiter was queued and removes exactly that one, keeping the order of the others |
| SubAgentPool.Pooled.EnqueueWaiter | modules/agent/internal/runtime/subagent_pool.go:101-109 | a closed pool refuses without a change; an open one appends the waiter and dispatches |
| SubAgentPool.Pooled.CancelWaiter | modules/agent/internal/runtime/subagent_pool.go:114-122 | cancellation removes a waiter only while it is queued |
| SubAgentPool.Pooled.ReplaceLocked | modules/agent/internal/runtime/subagent_pool.go:151-158 | after a failed ping the slot is kept exactly when the pool is open and below its limit without it |
| SubAgentPool.Pooled.GiveBackLocked | modules/agent/internal/runtime/subagent_pool.go:177-182 | a failed start returns one unit of `active` and dispatches |
| SubAgentPool.Pooled.UpdateLimit | modules/agent/internal/runtime/subagent_pool.go:298-316 | the clamped limit is set, idle children over it are handed out for closing, and the queue is dispatched |
| SubAgentPool.Pooled.ResetIdle | modules/agent/internal/runtime/subagent_pool.go:325-336 | all idle children and their units of `active` leave the pool |
| SubAgentPool.Pooled.CloseLocked | modules/agent/internal/runtime/subagent_pool.go:339-354 | closing is idempotent, empties the idle list and answers the queue |
| SubAgentPool.ReleaseHandle.Call | modules/agent/internal/runtime/subagent_pool.go:250-272 | only the first call has an effect: a healthy child for which the open pool has room is not closed but goes to the first waiter or to the idle list, any other child is closed |
| SubAgentPool.ReleaseExactly | modules/agent/internal/runtime/subagent_pool.go:250-272 | a released child is closed if and only if it is unhealthy or the pool is closed or over its limit; otherwise it is reused, and nothing else changes |
| PoolInvariant.StepKeepsInv | modules/agent/internal/runtime/subagent_pool.go:90-272 | every atomic step of every acquirer, resize, reset and close keeps conservation, single ownership, FIFO order, capacity and work conservation together |
| PoolInvariant.DispatchConserves | modules/agent/internal/runtime/subagent_pool.go:203-235 | after a dispatch nobody waits while a child is idle or a slot is free |
| PoolInvariant.TrimClosedForm | modules/agent/internal/runtime/subagent_pool.go:298-316 | shrinking hands out the tail of the idle list, most recently released first, until the count is within the limit |
| PoolProperties.RunInvariant | modules/agent/internal/runtime/subagent_pool.go:90-354 | all of the invariant, in every state of every interleaving |
| PoolProperties.RunConserves | modules/agent/internal/runtime/subagent_pool.go:131-272 | `active` is the idle children plus the grants in channels, the acceptors in ping or factory and the held children, and stays within 0..8; idle children mean it is within the limit |
| PoolProperties.ClosedOnceForGood | modules/agent/internal/runtime/subagent_pool.go:250-272 | a child is closed at most once and from then on neither idle nor with anyone |
| PoolProperties.ServedInArrivalOrder | modules/agent/internal/runtime/subagent_pool.go:203-235 | among waiters not cancelled out of the queue grants go out in arrival order |
| PoolProperties.OneGrantOrCancelled | modules/agent/internal/runtime/subagent_pool.go:110-129 | each waiter is cancelled and never granted, still queued with an empty channel, or granted exactly once |
| PoolProperties.LateCancelFindsGrant | modules/agent/internal/runtime/subagent_pool.go:124-128 | a waiter granted while cancelling finds its grant at once and keeps account of the slot it carries |
| PoolProperties.DiscardLeavesNothing | modules/agent/internal/runtime/subagent_pool.go:187-201 | discarding a late grant leaves the waiter without slot or child |
| PoolProperties.WaitersHaveSomeoneToWaitFor | modules/agent/internal/runtime/subagent_pool.go:213-234 | a non-empty queue means an open pool with no idle child and at least `limit` slots in use |
| PoolProperties.CancelOnlyRemoves | modules/agent/internal/runtime/subagent_pool.go:116-119 | the dispatch after a cancellation never has an effect |
| PoolProperties.RunIdleTestIsDead | modules/agent/internal/runtime/subagent_pool.go:308-313 | the test of the idle count in `SetLimit` never has an effect |
| PoolProperties.OverLimitOnlyByShrinking | modules/agent/internal/runtime/subagent_pool.go:203-316 | the count exceeds the limit only after a shrink and then does not grow until it is back |
| PoolProperties.ReleasedChild | modules/agent/internal/runtime/subagent_pool.go:250-272 | over whole runs: a healthy child that comes back to an open pool within its limit stays open and is idle or with the first waiter; any other is closed |
| PoolProperties.DiscardedChild | modules/agent/internal/runtime/subagent_pool.go:187-201 | a child granted too late comes back like a healthy one |
| PoolProperties.HeldAfterCheck | modules/agent/internal/runtime/subagent_pool.go:131-185 | a child that is held came from the factory or was pinged with success by its holder |
| PoolProperties.ReplacedExactly | modules/agent/internal/runtime/subagent_pool.go:151-166 | the slot of an unhealthy child is kept for a new one if and only if the pool is open and below its limit without it |
| PoolProperties.CancelledExactly | modules/agent/internal/runtime/subagent_pool.go:113-129 | a cancelled acquirer leaves at once if nothing was granted to it, and otherwise stays for its grant |
| PoolProperties.ResizeExactly | modules/agent/internal/runtime/subagent_pool.go:298-316 | a resize sets the clamped limit, closes as many idle children as the pool is over it, newest first, and admits as many waiters as it is under it |
| PoolProperties.ResetExactly | modules/agent/internal/runtime/subagent_pool.go:325-336 | a reset closes all idle children, gives back their slots and does nothing else |
| PoolProperties.UnhealthyIsReplaced | modules/agent/internal/runtime/subagent_pool.go:144-172 | a child granted after step i whose ping fails is replaced in its slot unless the pool was closed or shrunk since |
| PoolProperties.AfterClose | modules/agent/internal/runtime/subagent_pool.go:339-354 | from a close on no child is idle, nobody is queued, and the count only falls |
| PoolProperties.ClosedPoolDrains | modules/agent/internal/runtime/subagent_pool.go:339-354 | once all holders are done a closed pool counts nothing and every child ever created was closed |
| HunkHeader.HeaderRoundTrip | modules/agent/internal/runtime/tools.go:1978-1997 | a header in any of the four forms, with any section heading, is read back with the numbers it shows and 1 for each count left out, if and only if the shown numbers are 64-bit integers |
| HunkHeader.ScanCount | modules/agent/internal/runtime/tools.go:1978-1997 | a matching pattern yields one number per `%d` |
| UnifiedPatch.UnifiedDiff | modules/agent/internal/runtime/tools.go:1854-1873 | the printing loops yield the header, every old line removed and every new line added, cut at 64 KiB |
| UnifiedPatch.ReadBody | modules/agent/internal/runtime/tools.go:1920-1939 | the innermost parsing loop agrees with the grammar of hunk bodies, including its errors |
| UnifiedPatch.ReadHunks | modules/agent/internal/runtime/tools.go:1904-1941 | the loop over hunks agrees with the grammar, including where it stops |
| UnifiedPatch.ParseUnifiedPatch | modules/agent/internal/runtime/tools.go:1875-1948 | the parser agrees with the grammar of patches on every text |
| UnifiedPatch.ApplyFilePatch | modules/agent/internal/runtime/tools.go:1999-2043 | applying a file patch agrees with its specification on lines and on the final newline |
| UnifiedPatch.ApplyEveryHunk | modules/agent/internal/runtime/tools.go:1999-2038 | the loop over hunks agrees with the specification, including the rejection of overlapping hunks |
| UnifiedPatch.ApplyHunkLines | modules/agent/internal/runtime/tools.go:2013-2036 | the loop over a hunk advances through the old lines as its markers say |
| PatchApply.AppliesExactlyWhenItFits | modules/agent/internal/runtime/tools.go:1999-2043 | application succeeds if and only if hunks are in order, disjoint, inside the file and match it, and then replaces old sides by new sides and nothing else |
| PatchApply.OneHunkExactly | modules/agent/internal/runtime/tools.go:1999-2043 | one hunk applies at the line its header names, counted from 1 and 0 taken like 1, if and only if its old side stands there |
| PatchApply.MismatchNamesItsLine | modules/agent/internal/runtime/tools.go:2019-2031 | a mismatch error names the line of the file that the patch did not find, after all earlier lines of the hunk applied |
| PatchApply.PatchInversion | modules/agent/internal/runtime/tools.go:1999-2043 | swapping plus and minus and moving the starts undoes an applied patch, on lines |
| PatchApply.TextInversionExactly | modules/agent/internal/runtime/tools.go:1999-2056 | undoing restores the text byte for byte if and only if it has no carriage return and its final newline is not lost on the way |
| PatchApply.RejoinedLines | modules/agent/internal/runtime/tools.go:2038-2043 | which lines are in the text that is written back, by final newline and emptiness |
| PatchApply.DeletingLastEmptyLineChangesNothing | modules/agent/internal/runtime/tools.go:2038-2043 | removing the only line of a one-newline file leaves the file as it is |
| PatchRoundTrip.PathRoundTripExactly | modules/agent/internal/runtime/tools.go:1961-1976 | a path survives its header, with or without a note after a tab, if and only if it is relative, unquoted, without white space, without a parent step and without the prefix `a/` |
| PatchRoundTrip.BarePathExactly | modules/agent/internal/runtime/tools.go:1961-1976 | the same for a header without a prefix, where the path must not begin with `b/` either |
| PatchRoundTrip.RefusedExactly | modules/agent/internal/runtime/tools.go:1972 | a path is refused if and only if it is empty or absolute, has a parent step that is not its last, or one between backslashes |
| PatchRoundTrip.DevNullIsRefused | modules/agent/internal/runtime/tools.go:1962-1964 | the null device as new side is refused with its own error |
| PatchRoundTrip.BodyExactly | modules/agent/internal/runtime/tools.go:1920-1939 | a hunk body reaches to the first line that ends it and is read if and only if all its lines are marked or no-newline markers; the latter are left out |
| PatchRoundTrip.PatchTextRoundTrip | modules/agent/internal/runtime/tools.go:1875-1948 | any number of files and hunks parse back, with headers in all four forms, section headings, notes after paths, lines of git around the headers and no-newline markers in the hunks |
| PatchRoundTrip.TruncatedDiffIsRejected | modules/agent/internal/runtime/tools.go:1854-1873 | a diff that was cut at the output limit never parses |
| PatchRoundTrip.HeaderLookalikeRejected | modules/agent/internal/runtime/tools.go:1889-1939 | a removed line that begins with `-- ` makes the diff unparsable |
| PatchRoundTrip.WholeFileApplies | modules/agent/internal/runtime/tools.go:1999-2043 | the one hunk of a diff turns the old lines into the new lines |
| PatchRoundTrip.RejoinExactly | modules/agent/internal/runtime/tools.go:2038-2056 | writing back the new lines gives the new text if and only if it has no carriage return and ends like the old one |
| PatchRoundTrip.RoundTripExactly | modules/agent/internal/runtime/tools.go:1854-2056 | diff, parse and apply give back path and new text if and only if the path is good, the diff fits, no old line looks like a header and the texts end alike |
| PatchRoundTrip.ParsedHunksAreClean | modules/agent/internal/runtime/tools.go:1875-1948 | every parsed patch meets the condition of exact text inversion |
| EventQueue.Buffer.Enqueue | modules/agent/internal/runtime/subagent_process.go:399-415 | an arrival joins the queue at the end unless it is optional and 256 are queued |
| EventQueue.Buffer.Pop | modules/agent/internal/runtime/subagent_process.go:437-449 | the shift takes exactly the oldest event |
| EventQueue.StepKeepsInv | modules/agent/internal/runtime/subagent_process.go:399-457 | every step keeps the queue discipline and a wake token or a signaller for every non-empty queue the dispatcher sleeps on |
| EventQueue.NoEssentialEventLost | modules/agent/internal/runtime/subagent_process.go:399-466 | delivered, buffered, in-hand and queued events are a subsequence of the arrivals with every essential one in it |
| EventQueue.DropsOnlyOptional | modules/agent/internal/runtime/subagent_process.go:399-466 | an event is dropped if and only if it is a reasoning delta, a usage report or tool output and at least 256 events are queued; such events never exceed 256 |
| EventQueue.InternalStepsFinish | modules/agent/internal/runtime/subagent_process.go:432-457 | without new arrivals the dispatcher comes to rest |
| EventQueue.QuietMeansDelivered | modules/agent/internal/runtime/subagent_process.go:417-457 | at rest, while the child lives, every kept event was delivered: no wakeup is lost |
| RpcTable.ChildCalls.RegisterCall | modules/agent/internal/runtime/subagent_process.go:252-275 | a call registers its id only while the child runs with an open pipe |
| RpcTable.ChildCalls.TakePending | modules/agent/internal/runtime/subagent_process.go:323-341 | the reader takes out exactly the entry its response names |
| RpcTable.ChildCalls.OnExit | modules/agent/internal/runtime/subagent_process.go:468-486 | the exit watcher closes and removes every pending entry |
| RpcTable.StepKeepsInv | modules/agent/internal/runtime/subagent_process.go:252-341 | every step of callers, reader and exit watcher keeps the table and channel discipline |
| RpcTable.EachIdLeavesOnce | modules/agent/internal/runtime/subagent_process.go:252-341 | each registered id has left the table exactly once or is pending |
| RpcTable.ReaderNeverBlocks | modules/agent/internal/runtime/subagent_process.go:333-339 | no channel is closed twice or sent to after closing, and the send of the reader never blocks |
| RpcTable.AnswersMatchRequests | modules/agent/internal/runtime/subagent_process.go:277-293 | an answered caller holds the response with its own id |
| RpcTable.OutcomesHaveCauses | modules/agent/internal/runtime/subagent_process.go:252-341 | over whole runs each outcome has its cause: an answer is, whole, a response that the child wrote while the call was pending; the other outcomes follow a refusal, a write error, giving up or the exit |
| RpcTable.AnswersArrive | modules/agent/internal/runtime/subagent_process.go:277-341 | an answer read for a pending call reaches its caller unless that gave up or could not write |
| RpcTable.AfterExit | modules/agent/internal/runtime/subagent_process.go:468-486 | after the exit the table stays empty, nothing is added, and no waiting caller is stranded |
| RpcTable.StoppedForGood | modules/agent/internal/runtime/subagent_process.go:155-171 | after a forced stop every new call is refused |
| ProviderSegment.RunProviderLoopSegment | modules/agent/internal/runtime/runtime.go:560-672 | the segment loop computes the result of the specification for every provider |
| ProviderSegment.SegmentBounds | modules/agent/internal/runtime/runtime.go:33-49 | a segment uses at most the effective limit, itself at most 48, makes at most one provider call more, and a soft end has used a turn |
| ProviderSegment.SegmentClosedForm | modules/agent/internal/runtime/runtime.go:560-672 | turns, requests and reason of a segment follow from its first turn that ends it, and its history from the tool rounds up to there |
| GoalLoop.LimitCoversBudget | modules/agent/internal/runtime/goal_loop.go:333-346 | with budget left the segment limit exceeds the finished segments, covers the whole remaining budget, and is no larger than needed beyond the configured minimum |
| GoalLoop.Runner.ApplyGoalToolResult | modules/agent/internal/runtime/goal_loop.go:104-143 | a tool result replaces the run state by the specified binding and terminal flags and no other run changes |
| GoalLoop.Runner.ReportSegmentEnd | modules/agent/internal/runtime/goal_loop.go:365-401 | for any run, id and number of turns: nothing happens without an id or turns; a reply is applied; without one the local counters advance if the run still holds the goal, and may end it |
| GoalLoop.Runner.Configure | modules/agent/internal/runtime/goal_loop.go:228-241 | the deadline is installed once, for a bound goal with a wall-time limit, at the end of the wall time left; a spent limit is reported and ends the loop |
| GoalLoop.Runner.ReportGoalBudgetExhausted | modules/agent/internal/runtime/goal_loop.go:348-363 | a reply to the exhausted report is applied, a failure changes nothing |
| GoalLoop.Runner.RunWithGoalLoop | modules/agent/internal/runtime/goal_loop.go:206-327 | the loop agrees with the round function for any number of rounds, from the first wall-time check on, and ends on a deadline only if one was installed |
| GoalProperties.RunNeverStopsEarly | modules/agent/internal/runtime/goal_loop.go:299-346 | in any environment a goal with a positive total budget is never ended by the segment limit |
| GoalProperties.SegmentAccounts | modules/agent/internal/runtime/goal_loop.go:271-281 | with a gateway that counts each index once, the turns of a segment are counted because it is reported under its own index |
| GoalProperties.TerminatesWithBoundedOvershoot | modules/agent/internal/runtime/goal_loop.go:206-327 | the loop ends within the remaining budget in rounds and segments, and the final use is below the total plus the turns of the last segment, which are within its effective limit and so at most 48 |
| GoalProperties.OvershootWithinSegmentLimit | modules/agent/internal/runtime/goal_loop.go:272-281 | while its segment size is left alone, a goal ends below its total plus the effective turn limit of one segment |
| GoalProperties.OvershootIsReached | modules/agent/internal/runtime/goal_loop.go:206-327 | for every segment size some run overshoots by exactly that size minus one |
| GoalProperties.ConservationExactly | modules/agent/internal/runtime/goal_loop.go:253-281 | with a gateway that counts each segment index once, the final use is the initial use plus all turns if and only if the own deadline was not found passed at the top of a later round, where the last turns count twice |
| GoalProperties.WithoutWallTimeConserves | modules/agent/internal/runtime/goal_loop.go:228-258 | without a wall-time limit the final use is the initial use plus all turns, under any clock and cancellation |
| GoalProperties.DeadlineBeforeReportsTwice | modules/agent/internal/runtime/goal_loop.go:253-258 | every goal with wall time and at least two turns left has a clock and an accounting gateway for which the last turn is counted twice |
| GoalProperties.AlwaysConservedExactly | modules/agent/internal/runtime/goal_loop.go:228-327 | a goal is accounted for exactly in every such environment if and only if it has no wall-time limit, has spent it already, or has one turn left |
| GoalProperties.WithoutIdNeverStops | modules/agent/internal/runtime/goal_loop.go:271-281 | a bound goal without id is never reported and, while its wall time lasts, can keep the loop going for any number of rounds |
| GoalProperties.GoesOnExactly | modules/agent/internal/runtime/goal_loop.go:271-327 | after a segment of a budgeted goal the loop goes on if and only if the segment ended softly, the goal is bound and not over, has turns left and its wall time has not run out; the next segment gets the next index, this history and the deadline |
| GoalProperties.EndedGoalEndsLoop | modules/agent/internal/runtime/goal_loop.go:104-143 | a goal that the model ended during a segment ends the loop, for gateways that do not revive goals |
| GoalProperties.NothingAfterTheEnd | modules/agent/internal/runtime/goal_loop.go:249-261 | no segment runs from an index on at which the run is cancelled or the wall time of a goal bound at the start is over |
| GoalProperties.RunOutOfTimeFails | modules/agent/internal/runtime/goal_loop.go:228-287 | a loop that ends on wall time reports it, so a gateway that fails the goal leaves a failed goal in the run |
| GoalProperties.UnbudgetedGoalStops | modules/agent/internal/runtime/goal_loop.go:299-346 | a goal without total budget gets exactly its configured number of segments at most, 4 by default |
| GoalProperties.LimitNeverFalls | modules/agent/internal/runtime/goal_loop.go:299-305 | the segment limit of a run is only ever raised |
| SegmentAccounting.GoalRepository.RecordSegment | modules/gateway/internal/gateway/repository/goal.go:159-188 | one row and one increment for a new segment, nothing for a known one, an error for invalid arguments |
| SegmentAccounting.GoalRepository.TransitionStatus | modules/gateway/internal/gateway/repository/goal.go:192-203 | a transition writes the given columns, never the counters, and reports it, if and only if the goal exists with an expected status, its session and, when asked for, its run |
| SegmentAccounting.TransitionExactly | modules/gateway/internal/gateway/repository/goal.go:192-203 | which transitions are refused, which columns they write, and that counters, rows and other goals stay |
| SegmentAccounting.CountersMatchRows | modules/gateway/internal/gateway/repository/goal.go:159-188 | after any calls the counters have grown by the turns and the number of the new rows |
| SegmentAccounting.FirstCallsAreRecorded | modules/gateway/internal/gateway/repository/goal.go:159-188 | every key asked for has exactly one row, and each new row holds what the first call for its key asked for |
| SegmentAccounting.ReplayChangesNothing | modules/gateway/internal/gateway/repository/goal.go:157-158 | repeating an earlier call changes neither table |
| SegmentAccounting.OrderAndRepetitionDoNotMatter | modules/gateway/internal/gateway/repository/goal.go:159-188 | two call sequences with the same valid records leave the same used turns and segments, whatever their order and repetitions |
| SegmentAccounting.BothRecordedIffKeysDiffer | modules/gateway/internal/gateway/repository/goal.go:164-178 | two new segments are both counted if and only if their keys differ |
| SegmentAccounting.KeysCollideExactly | modules/gateway/internal/gateway/repository/goal.go:166 | two segments share a key if and only if index and joined ids agree |
| SegmentAccounting.SecondSegmentIsLost | modules/gateway/internal/gateway/repository/goal.go:164-186 | moving an underscore part from run id to goal id gives a segment that leaves no row and its own goal's counters as they were |
| SegmentAccounting.KeysAreUnique | modules/gateway/internal/gateway/repository/goal.go:166 | run ids with equally many underscores make the key unambiguous |
| ToolBatch.Batch.RunOne | modules/agent/internal/runtime/runtime.go:1432-1452 | a known tool is run under the id of the call or a generated one and its slot holds the outcome; a call without name or with an unknown name is refused with its reason |
| ToolBatch.Batch.BatchToHistory | modules/agent/internal/runtime/runtime.go:1488-1513 | the loop over the slots yields the specified history |
| ToolBatch.StepKeepsInv | modules/agent/internal/runtime/runtime.go:1425-1486 | every step of the batch and its workers keeps slots, log and barriers consistent |
| ToolBatch.BarriersHold | modules/agent/internal/runtime/runtime.go:1425-1486 | a call starts at most once, and only after every earlier call outside its own group has finished |
| ToolBatch.OverlapOnlyInGroups | modules/agent/internal/runtime/runtime.go:1462-1483 | two calls are under way together only within one run of neighbouring subagent.run calls |
| ToolBatch.HistoryAnswersEveryCall | modules/agent/internal/runtime/runtime.go:1432-1513 | one exchange per call in provider order, holding the outcome of the step that ended it or the reason why it was not run, if and only if every call that never ran has a name or an id |
| ToolBatch.NothingStartsAfterCancel | modules/agent/internal/runtime/runtime.go:1454-1483 | from a cancellation on no call starts and no worker is created |
| ToolBatch.AbortedExactly | modules/agent/internal/runtime/runtime.go:1454-1486 | a batch reports that it was aborted if and only if it was cancelled when it returned |
| ToolBatch.NeighboursOverlap | modules/agent/internal/runtime/runtime.go:1462-1483 | neighbouring subagent.run calls can be under way together |
| ToolBatch.BatchReturns | modules/agent/internal/runtime/runtime.go:1454-1486 | a batch of n calls takes at most 10n + 1 steps under any schedule |
| ToolBatch.NeverStuck | modules/agent/internal/runtime/runtime.go:1467-1483 | until it has returned, a step other than a cancellation is possible |
| EventOrder.Emitter.NextRootSeq | modules/agent/internal/runtime/runtime.go:2049-2054 | the counter of a run is advanced by one |
| EventOrder.Emitter.NextAgentSeq | modules/agent/internal/runtime/runtime.go:2056-2064 | the counter of one agent of a run is advanced by one and no other |
| EventOrder.Emitter.EmitAgentEvent | modules/agent/internal/runtime/runtime.go:2009-2047 | a cancelled emission takes no number; a failed write takes one without an envelope |
| EventOrder.EventsAreNumbered | modules/agent/internal/runtime/runtime.go:2009-2064 | while a run is registered its events are numbered 1, 2, 3, ... and so are those of each agent, for any interleaving |
| EventOrder.WireIsGapFreeExactly | modules/agent/internal/runtime/runtime.go:2016-2047 | the root numbers of a run on the wire are strictly increasing, and free of gaps if and only if no write of the run succeeds after a failed one |
| EventOrder.AgentWireIsGapFreeExactly | modules/agent/internal/runtime/runtime.go:2016-2064 | the same for the agent numbers of each agent, by the writes of its own events alone |
| EventOrder.EventIdsAreUnique | modules/agent/internal/runtime/runtime.go:2028 | two events have the same id if and only if run and number agree |
| EventOrder.ForgottenRunStartsOver | modules/agent/internal/runtime/runtime.go:1954-2064 | over whole runs: events begun after a run was last forgotten are numbered 1, 2, 3, ... for the run, and for each agent from 1, or from 2 if an event of that agent was between its counters |
| EventOrder.StartsOverExactly | modules/agent/internal/runtime/runtime.go:1954-2064 | the numbers of an agent start over at 1 if and only if no event of that agent was between its counters when the run was forgotten; those of the run always do |
| EventOrder.ForgottenMidEvent | modules/agent/internal/runtime/runtime.go:1954-1961 | for every run and agent there is a run of the protocol in which the failing case happens: root number 1 beside agent number 2 |
| EventFilter.Session.Subscribe | modules/gateway/internal/gateway/controller/websocket.go:226-244 | forwarding starts once per non-empty run |
| EventFilter.Session.MarkEventSent | modules/gateway/internal/gateway/controller/websocket.go:276-287 | an event passes unless its run has seen its number or a greater one |
| EventFilter.Session.SendEvent | modules/gateway/internal/gateway/controller/websocket.go:257-274 | a passing event is queued if the channel, which replies share, has room and is dropped otherwise; it is marked in both cases |
| EventFilter.Session.Replay | modules/gateway/internal/gateway/controller/websocket.go:246-255 | each passing event is queued in order if it finds room, whatever the writer takes meanwhile |
| EventFilter.ReplayLosesNothing | modules/gateway/internal/gateway/controller/websocket.go:246-294 | a replay beside a writer that keeps up delivers all passing events, in order, after what was queued |
| EventFilter.PassesExactly | modules/gateway/internal/gateway/controller/websocket.go:276-287 | an event passes if and only if its number exceeds every number offered before for its run |
| EventFilter.UnnumberedPass | modules/gateway/internal/gateway/controller/websocket.go:276-287 | an event without run or number always passes and leaves no trace |
| EventFilter.LosesExactlyTheOvertaken | modules/gateway/internal/gateway/controller/websocket.go:246-287 | an event never passes if and only if a greater one of its run was offered before it |
| EventFilter.WrittenAtMostOnce | modules/gateway/internal/gateway/controller/websocket.go:246-294 | under any interleaving of forwarding, replays, replies and writer no numbered event is written twice, and it is lost exactly when overtaken or dropped |
| EventFilter.DroppedForGood | modules/gateway/internal/gateway/controller/websocket.go:289-294 | an event dropped at a full channel is refused ever after |
| EventFilter.OldestFirstKeepsOrder | modules/gateway/internal/gateway/controller/websocket.go:257-294 | in every run in which no event overtakes an earlier marked one of its run, the events of the run are written in strictly increasing order |
| EventFilter.WireOrderExactly | modules/gateway/internal/gateway/controller/websocket.go:226-294 | a run is written in order under every interleaving if and only if at most one goroutine forwards it: no replay of a subscribed run |
| EventFilter.OvertakingLosesOrder | modules/gateway/internal/gateway/controller/websocket.go:257-294 | from any reachable state with two free slots, overtaking an earlier marked event of the same run breaks the order |
| EventFilter.WireCanSwap | modules/gateway/internal/gateway/controller/websocket.go:257-274 | any two forwarders of a run have an interleaving that queues 2 before 1 |
| Framing.BufReader.ReadSlice | modules/ipc/stream.go:59 | the next slice depends on the bytes to come alone, not on how they arrive |
| Framing.Stream.ReadLine | modules/ipc/stream.go:50-98 | the loop computes the specified line and remainder, so its result is independent of arrivals |
| Framing.Stream.WriteLine | modules/ipc/stream.go:101-118 | a line within the limit is written with a newline, a longer one is refused |
| Framing.LineExactly | modules/ipc/stream.go:58-97 | for every line, buffer size and limit: what is returned and what is left in the stream |
| Framing.MessagesReadBack | modules/ipc/stream.go:50-118 | written messages come back one per read in order, each without one trailing carriage return at most, then the end |
| Framing.RoundTripExactly | modules/ipc/stream.go:50-118 | all messages come back unchanged if and only if each has no carriage return at its end or a length that is a multiple of the buffer size |
| Framing.ShortLinesIgnoreTheLimit | modules/ipc/stream.go:67-72 | a line shorter than the buffer is never refused |
| Framing.RefusedLineLeavesItsTail | modules/ipc/stream.go:81-86 | after a refusal the tail of the line is still in the stream |
| Framing.UnfinishedLine | modules/ipc/stream.go:87-96 | without a newline the end is reported as truncated, too long, failed or clean |
| StreamedCalls.NameRoundTripExactly | modules/agent/internal/runtime/provider.go:887-893 | a tool name survives the public form if and only if no underscore precedes an underscore or a dot |
| StreamedCalls.ReadChoice | modules/agent/internal/runtime/provider.go:513-538 | one choice adds its fragments to the builders and passes its text on |
| StreamedCalls.CompleteStream | modules/agent/internal/runtime/provider.go:480-568 | the scan computes the specified chunks up to [DONE], an invalid chunk or a read error |
| StreamedCalls.EmitCalls | modules/agent/internal/runtime/provider.go:545-562 | the final loop emits the named builders with the indices below their count |
| StreamedCalls.CompleteMessage | modules/agent/internal/runtime/provider.go:430-472 | an unstreamed message yields its calls, or its content and an end |
| StreamedCalls.StreamIsRead | modules/agent/internal/runtime/provider.go:480-508 | every chunk is read whole and in order whatever lines stand between, and the stream ends well with the done marker, badly with an undecodable chunk, and otherwise as its reader does |
| StreamedCalls.WholeCallAt | modules/agent/internal/runtime/provider.go:452-466 | a call keeps its id and its parsed arguments, and empty arguments are none |
| StreamedCalls.BuilderIsOwn | modules/agent/internal/runtime/provider.go:520-537 | the builder of a call depends on the fragments of that call alone |
| StreamedCalls.InterleavingIsIrrelevant | modules/agent/internal/runtime/provider.go:520-562 | streams that agree call by call end with the same chunk |
| StreamedCalls.StreamRefinesMessage | modules/agent/internal/runtime/provider.go:430-568 | however calls are cut and interleaved, the stream ends with the calls of the whole message |
| StreamedCalls.StreamAgreesWithMessage | modules/agent/internal/runtime/provider.go:430-568 | from raw lines: a stream and the unstreamed form of the same message end with the same chunk, and pass on the same text if and only if there are no calls or no text |
| StreamedCalls.NothingLostExactly | modules/agent/internal/runtime/provider.go:545-562 | of n named calls none is lost if and only if their indices are 0 to n - 1 |
| MessageHistory.MessageRepository.Newest | modules/gateway/internal/gateway/repository/message.go:202-212 | the greatest number of a session, or none |
| MessageHistory.MessageRepository.Add | modules/gateway/internal/gateway/repository/message.go:25-45 | one message with the next number joins its session, others stay |
| MessageHistory.MessageRepository.AddOrAppend | modules/gateway/internal/gateway/repository/message.go:70-105 | a delta extends the last message of its session or starts one, others stay |
| MessageHistory.MessageRepository.ListLatest | modules/gateway/internal/gateway/repository/message.go:120-145 | the last rows up to the clamped limit, in ascending order |
| MessageHistory.MessageRepository.CopyToSession | modules/gateway/internal/gateway/repository/message.go:182-196 | the copies join the target in order with consecutive numbers |
| MessageHistory.ReverseRows | modules/gateway/internal/gateway/repository/message.go:141-143 | the in-place loop reverses the rows |
| MessageHistory.HistoryKeepsText | modules/gateway/internal/gateway/repository/message.go:25-105 | the text in message order is the text in call order, and messages are numbered 1, 2, 3, ... |
| MessageHistory.HistoryIsRunLengthMerge | modules/gateway/internal/gateway/repository/message.go:70-109 | one message per maximal run of calls with equal appendable role and run, holding their text |
| MessageHistory.ExtendedExactly | modules/gateway/internal/gateway/repository/message.go:88-105 | a delta extends the last block, which becomes text, and no other |
| MessageHistory.DeltasMakeOneBlock | modules/gateway/internal/gateway/repository/message.go:70-105 | each run of deltas is stored as one text block holding exactly its text |
| MessageHistory.CopyKeepsNumbersExactly | modules/gateway/internal/gateway/repository/message.go:182-196 | a copy keeps the numbering if and only if it starts right after the last number |
| MessageHistory.LatestAreTheNewest | modules/gateway/internal/gateway/repository/message.go:133-145 | nothing newer than a listed row is left out |
| JsonText.QuoteRoundTripExactly | modules/agent/internal/runtime/skill_tools.go:109 | a text survives quoting and reading if and only if it is UTF-8 |
| JsonText.QuoteNoControls | modules/agent/internal/runtime/skill_tools.go:109 | a quoted text is one line without control characters |
| JsonText.QuoteIsHtmlSafe | modules/agent/internal/runtime/skill_tools.go:109 | a quoted text has no character that opens a tag or an entity |
| JsonText.LiteralReads | modules/agent/internal/runtime/skill_discovery.go:206-209 | every string literal, in any mixture of escapes and surrogate pairs, is read as the characters it stands for |
| JsonText.LiteralEnds | modules/agent/internal/runtime/skill_discovery.go:206-209 | a literal with anything behind it or a control character in it is not read |
| JsonText.EncodedRune | modules/agent/internal/runtime/skill_discovery.go:206-209 | the bytes of a character are UTF-8 and give back its number |
| SkillFile.Index | modules/agent/internal/runtime/skill_discovery.go:162 | the first occurrence, or none |
| SkillFile.FrontEnds | modules/agent/internal/runtime/skill_discovery.go:161-162 | the front matter ends where rendering closed it, whatever the body holds |
| SkillFile.FrontValues | modules/agent/internal/runtime/skill_discovery.go:189-199 | the rendered name and description are found under their keys |
| SkillFile.RenderedParses | modules/agent/internal/runtime/skill_discovery.go:155-187 | what parsing makes of a rendered file, for every body |
| SkillFile.ClosedAtEnd | modules/agent/internal/runtime/skill_discovery.go:163-171 | a front matter closed at the end of the file gives a skill without instructions |
| SkillFile.RefusedFrontmatter | modules/agent/internal/runtime/skill_discovery.go:158-173 | a file without front matter or with an unclosed one is refused |
| SkillFile.BomIsIgnored | modules/agent/internal/runtime/skill_discovery.go:157 | a byte order mark changes nothing |
| SkillFile.HandWritten | modules/agent/internal/runtime/skill_discovery.go:201-212 | a plain or single-quoted description stands for itself, and the bare word null for nothing |
| SkillFile.RendersExactly | modules/agent/internal/runtime/skill_tools.go:89-108 | a skill can be rendered if and only if the trimmed name, description and instructions are within their rules |
| SkillFile.SkillRoundTripExactly | modules/agent/internal/runtime/skill_tools.go:89-113 | parsing a rendered skill gives back the trimmed fields if and only if the description is UTF-8 and the instructions hold no CRLF |

## Left out

- Process spawning, pipes, sockets, HTTP, file system access and the database
  engine: only their contracts appear, as nondeterministic steps or parameters.
- Wall clocks: deadlines and timeouts are steps or flags of the environment that
  may happen at any time; wait-time statistics of the pool are not modelled.
- Pool: the process factory returns a child or an error. A factory that returned
  neither would leak a slot, since releasing nothing gives nothing back.
- Pool: waiter and child numbers stand for pointers; the retry after an
  unhealthy child in a full pool is a fresh arrival.
- GoalLoop.Runner.RunWithGoalLoop: is cut after a given number of rounds, since
  `WithoutIdNeverStops` shows that the loop need not end; every theorem about it
  holds for every number of rounds. Its clock is any sequence of readings and
  cancellations; that timers fire late is not modelled.
- GoalProperties.TerminatesWithBoundedOvershoot: assumes a gateway that adds the
  turns reported under the next index of the run and changes nothing for an index
  it has recorded; no other run counts segments of the goal meanwhile.
- GoalProperties.ConservationExactly: assumes in addition that the gateway answers
  and counts a report made between two segments. So does `AlwaysConservedExactly`,
  over environments that give no wall-time limit to a goal without one.
- SegmentAccounting: row times, a compare-and-set that rewrites the counters
  (goal.go:113-126 of the repository package), and database errors.
- ToolBatch: arguments, risk, display names, tool output and the events emitted
  around a call; a tool's outcome is any status and error text.
- EventOrder: payloads, and parent run ids of subagents.
- EventFilter: the hub behind a subscription and the socket itself; a goroutine
  is a number, and handles one event at a time. That a live event can overtake a
  replay is covered by `LosesExactlyTheOvertaken`.
- Framing.BufReader.ReadSlice: the library's limit on consecutive empty reads.
- StreamedCalls: JSON decoding of chunks and arguments is a parameter of every
  statement; a failing receiver of chunks is not modelled.
- MessageHistory: message ids and times, and the JSON form of the content.
- SkillFile: creating, listing and deleting files.
- JsonText: unpaired surrogate escapes are modelled, but nothing is claimed about
  them, nor about values that are not strings.
- Patches: paths follow Unix rules (a leading slash is absolute, backslashes are
  ordinary), and of the tool around the engine only the replacement of line
  endings appears. POSIX rules for empty hunk ranges are not claimed.
- RpcTable: permission replies, whose entries are not removed before sending.
- Settings, prompts, policies, the browser interface and plain storage: no
  property beyond reading one branch.
