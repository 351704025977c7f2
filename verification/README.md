# Verified model of the workflow server

Dafny models of the parts of the server whose correctness does not show in any single function, with
proofs about all inputs, all runs or all interleavings. Every mutable object of the server is a class
whose methods are proved against a specification function; the theorems are about those functions.

| module | models |
|---|---|
| `SlotCalendar`, `SlotOccupancy` | the publishing grid, its occupancy and the bounded slot allocator |
| `Replan`, `ReplanFixpoint`, `ReplanGivesUp` | the greedy re-planner for already scheduled videos, and when planning again changes nothing |
| `PublishQueue`, `PublishRuns`, `PublishSlots` | the persistent reservation state machine, its invariants over runs, and which slots it can give |
| `PublishPromises`, `PublishEviction` | the slots promised to uploads in flight, also to those whose entry the queue has dropped |
| `PublishTracking`, `PublishAnswers` | the entries bound to a video, when a video has two, when a fresh slot is one of theirs; and what a reservation answers and each operation writes |
| `CheckpointEngine`, `CrashRecovery`, `EngineOutputs` | the checkpointed work-queue interpreter, its crashes and resumes, and what its turns and runs put out |
| `ExecutionGate`, `QueueAccounts` | the global execution gate as a concurrent protocol, and the manager's counters around it |
| `CivilDate`, `CronFields`, `CronTexts`, `CronSearch`, `CronReturns`, `CronHorizon` | the calendar, cron expressions from their text, the skipping search for the next fire, and what its five-year limit leaves out |
| `RunAllSchedule`, `RunAllFiring` | the once-a-minute tick, its forecast, and the Repeat counter |
| `DurableSweep`, `SweepResults`, `SweepHistory`, `SweepRestarts` | the durable Run-All sweep, what it records, and its crashes and restarts |
| `JsonText`, `JsonReader`, `SortedCanon`, `CanonPrinter`, `LegacyCanon` | the two canonical forms under the backup checksum |
| `Ordering` | options, text order, the stable sort, filters |

Conventions. Times are whole seconds (minutes in the cron search) in a zone with a fixed offset. A crash is a
cut after any number of externally visible events (a checkpoint or row written, a node or workflow started).
A concurrent protocol is a state machine whose steps are the source's lock-protected blocks and single
atomic or channel operations, in every order. Node executors, listings, upload results, cancellations,
failed writes and the outcomes of workflows are arbitrary parameters. The hash that renders an operation
ID is injective: the ID is the triple it is computed from. JSON text is seen as its tokens in the sorted
form and as bytes in the legacy form; strings are sequences of Unicode scalar values, whose order is that of
their UTF-8 bytes.

## Where the code does not do what one might expect

For each of these there is the exact condition under which the code is right, for all inputs, and where the failing
case is not plain from it an instance.

- Two uploads in flight can be promised one slot, in exactly two ways (`PublishPromises.PromisesDistinctExactly`).
  Reservations are held only strictly after the earliest start, while the allocator accepts equality
  (`PublishSlots.SharedExactlyAtBoundary`, `PublishSlots.BoundaryIsReachable`). And the cap of 400 entries drops a
  reservation in flight once 400 entries stand behind it, as after one listing of 400 planned videos; its slot is
  then free again (`PublishRuns.LiveSurvivesPrune`, `PublishEviction.EvictionIsReachable`).
- A fresh slot can be that of an upload already committed, exactly if the listing does not bring its entry up to
  date, as when it was fetched before (`PublishTracking.BoundClashExactly`, `PublishTracking.BoundClashIsReachable`).
- A video can be tracked twice, exactly after a commit of a video that a listing has recorded before
  (`PublishTracking.RunsTrackExactly`, `PublishTracking.SecondTrackingIsReachable`).
- The planner taken alone is a fixpoint exactly if no video gives up behind the floor
  (`ReplanFixpoint.ReplanIsFixpoint`, `ReplanGivesUp.FixpointFailsAfterGivingUp`). A reservation, its only caller, never
  makes it give up: there it is always a fixpoint (`PublishSlots.ReserveReplanIsFixpoint`).
- A finished run killed between its last two checkpoints is recovered as failed
  (`CrashRecovery.RefusedWindow`, `CrashRecovery.FinishedWorkRefused`).
- Withdrawing a job whose ticket had been released before its submission frees the key even if somebody else
  owns it by then; the callers use every ticket once, as documented (`ExecutionGate.UseTicketsOnce`).
- A start is refused as over the queue limit exactly if accepted executions and refusals not yet taken back reach
  it, so also while nothing is queued or running (`QueueAccounts.RefusedExactly`, `QueueAccounts.RefusedWhileEmpty`).
- The forecast rounds a schedule's start up, the tick rounds it down (`RunAllSchedule.ForecastIsExact`,
  `RunAllSchedule.StartInsideMinute`); it shows workflow triggers, by cron expression or interval, that no tick fires
  (`RunAllSchedule.TriggersOnlyForecast`).
- The five-year limit of the cron search can miss a coming fire: for 29 February around a missing leap day, and for
  near dates too when a stepped star and another day field have to agree. Expressions that name a date of every year
  are never missed, and what fires at all does so within 12 years, or 40 if it is 29 February
  (`CronHorizon.MissedExactly`, `CronHorizon.LeapDayForecastGap`, `CronHorizon.WeekdayForecastGap`).
- A restarted sweep forgets recorded failures. It goes on behind one at which it was to stop exactly if the process
  died, or the final write was lost, between the write of the failure and the final row
  (`SweepHistory.StopForgottenExactly`, `SweepHistory.StopIsForgotten`); and its final status speaks of the last pass
  only (`SweepHistory.StatusOfLastPass`, `SweepHistory.FailureIsForgotten`).

## Model

| member | source | states |
|---|---|---|
| SlotCalendar.ClockIsGrid | internal/nodes/youtube_queue.go:188-199 | A time reads as a slot on the local clock (hour, minute, no seconds) exactly when it lies on the grid of day starts plus slot offsets; both directions. |
| SlotCalendar.FirstIsFirst | internal/nodes/youtube_queue.go:173-186 | The calendar's answer is on the grid, not before the bound, and no grid time lies between. |
| SlotCalendar.FirstIsUnique | internal/nodes/youtube_queue.go:173-186 | Nothing else has that property, so the search is determined by it. |
| SlotCalendar.FirstAtOrAfter | internal/nodes/youtube_queue.go:174-186 | The day-by-day, slot-by-slot loop always finds a slot and it is the first one at or after the bound. |
| SlotCalendar.SlotsOnDay | internal/nodes/youtube_queue.go:201-206 | All grid times of a local day are among at most as many as the day has slots. |
| SlotOccupancy.SlotOccupancy.Take | internal/nodes/youtube_queue.go:217-224 | Taking a time twice counts its day once; the new maps are those of the specification. |
| SlotOccupancy.SlotOccupancy.TakeLocked | internal/nodes/youtube_queue.go:226-232 | A locked video always counts for its day, also at a time already used. |
| SlotOccupancy.SlotOccupancy.IsFree | internal/nodes/youtube_queue.go:234-236 | The in-place test says free exactly when the time is a slot, unused, and its day has room. |
| SlotOccupancy.SlotOccupancy.Allocate | internal/nodes/youtube_queue.go:238-250 | What is handed out is the least free slot at or after the bound and only it is taken; on failure nothing changed and 8000 successive slots were all unfree. |
| SlotOccupancy.AllocIsLeast | internal/nodes/youtube_queue.go:238-250 | The bounded search returns the least free slot, or every one of the slots it tried was unfree. |
| SlotOccupancy.SearchStaysNear | internal/nodes/youtube_queue.go:240-250 | The search hands out no slot beyond the ones its bound lets it try. |
| SlotOccupancy.BlockedAtMostTakes | internal/nodes/youtube_queue.go:203-236 | Pigeonhole: any set of unfree grid slots is no larger than the number of takes recorded, whether they block by use or by a full day. |
| SlotOccupancy.AllocSucceeds | internal/nodes/youtube_queue.go:240-250 | With fewer than 8000 recorded takes the allocator always finds a slot. |
| Replan.Problem.StepIsLeast | internal/nodes/youtube_queue.go:292-316 | Each placed video gets the least free slot that is after the previous one and not before its old time; a move goes strictly later. |
| Replan.Problem.OtherSlotIsOpen | internal/nodes/youtube_queue.go:282-318 | Exchange step of optimality: a competing schedule's slot is still free and above the floor when the planner comes to that video. |
| Replan.Problem.FixedCounts | internal/nodes/youtube_queue.go:292-299 | What the plan may not touch: what was taken before, and every video due by the earliest start, each counted for its day even where two stand on one instant. |
| Replan.Problem.Optimal | internal/nodes/youtube_queue.go:282-318 | The greedy plan is pointwise optimal: in every schedule that keeps the order, uses distinct open grid slots, respects day capacity and never advances a video, no placed video is earlier than in the plan. |
| Replan.Problem.PlanIsSchedule | internal/nodes/youtube_queue.go:282-318 | The plan is itself such a schedule (grid, open slots, order, capacity, never earlier) when no video gives up. |
| Replan.Problem.CapacityKept | internal/nodes/youtube_queue.go:203-236 | Days on which the planner placed a video never hold more than their slots. |
| Replan.Problem.TargetsAscend | internal/nodes/youtube_queue.go:291-316 | Targets of placed videos are strictly increasing in the sorted order. |
| Replan.Problem.EveryVideoOnce | internal/nodes/youtube_queue.go:282-318 | Kept videos and the old times of moved ones together are exactly the listed videos, each once. |
| Replan.Problem.MovesAreTargets | internal/nodes/youtube_queue.go:304-315 | The moves are exactly the placed videos whose target is not their old time. |
| Replan.Problem.MovesGoLater | internal/nodes/youtube_queue.go:304-315 | Every move goes strictly later than the old time. |
| Replan.Problem.EveryVideoPlaced | internal/nodes/youtube_queue.go:282-318 | No video gives up, however many are listed, when the takes before the plan and the slots of a day together stay below 8000; nor when takes and videos together do not exceed 8000. |
| ReplanFixpoint.FinalsAscend | internal/nodes/youtube_queue.go:283-316 | Unless a video gives up behind the floor, the times after the moves keep the planning order. |
| ReplanFixpoint.NothingLeftToMove | internal/nodes/youtube_queue.go:282-318 | Planning again over those times goes through the same occupancies and floors and moves nothing. |
| Replan.ListingOrderIrrelevant | internal/nodes/youtube_queue.go:283-289 | The plan does not depend on the order in which videos with distinct IDs are listed. |
| Replan.PlannedInOrder | internal/nodes/youtube_queue.go:283-289 | The planner takes the videos in the order of their times, and those of one instant in the order of their IDs. |
| ReplanFixpoint.ReplanIsFixpoint | internal/nodes/youtube_queue.go:282-318 | Applying the moves and planning again from the same occupancy and start yields no move if and only if every video that gave up had a time not before the floor it met, which is the guard of line 300. |
| ReplanFixpoint.AllPlacedIsFixpoint | internal/nodes/youtube_queue.go:282-318 | In particular a plan that places every video is a fixpoint. |
| Replan.NoMovesIsFixpoint | internal/nodes/youtube_queue.go:282-318 | A plan without moves is a fixpoint as well, also when it gave up on a video. |
| Replan.PlanExisting | internal/nodes/youtube_queue.go:282-318 | The in-place loop over the mutable occupancy produces the specified plan and leaves the specified occupancy. |
| ReplanGivesUp.FixpointFailsAfterGivingUp | internal/nodes/youtube_queue.go:300-313 | An instance of the other case, for the planner alone: with one slot a day and 8001 of them taken a video gives up behind the floor, and the second plan moves one. |
| ReplanGivesUp.FullExists | internal/nodes/youtube_queue.go:308-313 | Such an occupancy exists for every calendar with one slot a day. |
| PublishQueue.PubState.Prune | internal/nodes/youtube_queue.go:418-437 | Pruning in place keeps exactly the retained entries, the newest 400 of them. |
| PublishQueue.PubState.DropVideoExcept | internal/nodes/youtube_queue.go:405-416 | Only entries of the video that belong to another operation are removed. |
| PublishQueue.PubState.HoldLive | internal/nodes/youtube_queue.go:530-549 | Stale reservations of others are released and the live ones' slots strictly after the earliest start are taken. |
| PublishQueue.PubState.HoldKnown | internal/nodes/youtube_queue.go:557-570 | Without a listing every future slot and previous time of a known video is taken. |
| PublishQueue.PubState.Record | internal/nodes/youtube_queue.go:439-468 | Each kept or moved video is written to its own entry, a new one if it has none. |
| PublishQueue.PubState.FindLostUpload | internal/nodes/youtube_queue.go:510-527 | The lost upload is the listed video at the least position with the held slot and the same trimmed title; none means that no listed video has them. |
| PublishQueue.LostUploadIsFirst | internal/nodes/youtube_queue.go:510-527 | The same of the specification: least position, and none only if none qualifies. |
| PublishQueue.PubState.PrepareSlots | internal/nodes/youtube_queue.go:530-570 | Stale releases, live holds and the re-plan (or the known times) leave the specified queue and occupancy. |
| PublishQueue.PubState.GrantSlot | internal/nodes/youtube_queue.go:572-604 | The held slot is kept, or a fresh one is allocated and recorded; else an error with nothing granted. |
| PublishQueue.PubState.Reserve | internal/nodes/youtube_queue.go:487-604 | The whole reservation step: finished, adopted, granted or refused, with the new state as specified. |
| PublishAnswers.AnswerMoves | internal/nodes/youtube_queue.go:551-604 | A granted answer carries exactly the moves of the plan, in the order of their targets: one for each listed video whose target is not its time, from the one to the other, later, past the earliest start; the count is that of the other videos; without a listing there are none of either. |
| PublishAnswers.OneMoveEach | internal/nodes/youtube_queue.go:551-604 | For videos with distinct IDs each has exactly one move in the answer, or none and keeps its time. |
| PublishAnswers.GrantedEntry | internal/nodes/youtube_queue.go:572-604 | A grant leaves the operation one reserved entry with the answered slot: the one it had with one attempt more, keeping its title with its slot, or a new one with the next number. |
| PublishAnswers.AdoptsExactly | internal/nodes/youtube_queue.go:507-527 | A reservation adopts if and only if the operation has tried before, is not bound, and a listed video sits on its slot under its title. |
| PublishAnswers.AdoptsFirst | internal/nodes/youtube_queue.go:507-527 | It then adopts the first such video, answers with the entry's slot and binds the entry to it as scheduled. |
| PublishQueue.PubState.Commit | internal/nodes/youtube_queue.go:606-617 | The operation's first entry is bound to the video and scheduled. |
| PublishQueue.PubState.Release | internal/nodes/youtube_queue.go:619-629 | The operation's first unbound entry is failed; a bound one is untouched. |
| PublishQueue.PubState.RecordOutcomes | internal/nodes/youtube_queue.go:637-652 | Each outcome is written to the entries of its video. |
| PublishAnswers.OutcomesWrite | internal/nodes/youtube_queue.go:637-652 | An entry changes only if its video has an outcome: the last one gives its status, and its previous time is forgotten once a move has come through. |
| PublishAnswers.CommitWrites | internal/nodes/youtube_queue.go:606-617 | Entry by entry: only the operation's first one is bound and scheduled, with its slot and all else kept. |
| PublishAnswers.ReleaseWrites | internal/nodes/youtube_queue.go:619-629 | Entry by entry: only the operation's first one without a video is failed. |
| PublishRuns.SameKeySameEntry | internal/nodes/youtube_queue.go:396-403 | Under the invariant an operation key identifies one entry. |
| PublishRuns.LiveSurvivesPrune | internal/nodes/youtube_queue.go:418-437 | Pruning drops a reservation in flight if and only if at least 400 entries that are kept for their age stand behind it; its own age never matters. |
| PublishAnswers.PruneAges | internal/nodes/youtube_queue.go:418-437 | By age a reservation is never dropped, another entry once its slot is more than 72 hours past, and a failed upload without a video once untouched for more than seven days. |
| PublishRuns.PrepareKeepsInv | internal/nodes/youtube_queue.go:530-570 | Stale releases and the re-plan keep the invariant, every key, every video binding and the distinctness of reserved slots. |
| PublishRuns.ReserveKeeps | internal/nodes/youtube_queue.go:487-604 | A reservation keeps one entry per key, no video on a reserved entry, and the video of every entry whose key is still there; reserved slots stay distinct unless a fresh one is granted. |
| PublishTracking.BoundUnlessAdopted | internal/nodes/youtube_queue.go:405-604 | A retained entry of an operation stays bound to its video if and only if the reservation does not adopt that video for another operation, which deletes the entry. |
| PublishRuns.CommitKeeps | internal/nodes/youtube_queue.go:606-617 | A commit keeps the invariant and the distinctness of reserved slots. |
| PublishRuns.ReleaseKeeps | internal/nodes/youtube_queue.go:619-629 | A release keeps the invariant and never unbinds a video. |
| PublishRuns.OutcomesKeep | internal/nodes/youtube_queue.go:637-652 | Move outcomes keep the invariant and never unbind a video. |
| PublishRuns.RunsKeepInv | internal/nodes/youtube_queue.go:396-652 | Over every sequence of reserve, commit, release, outcomes and prune with non-empty keys: one entry per key, and a reserved entry has no video. |
| PublishAnswers.RunsNumber | internal/nodes/youtube_queue.go:396-652 | Over every run entries stand in the order of their numbers, and no two share one. |
| PublishSlots.NeverFull | internal/nodes/youtube_queue.go:572-586 | The error that no slot could be found occurs if and only if the operation needs a slot, holds none, and the 8000 grid slots from the earliest start are all unfree after the plan; that takes at least 7600 listed videos. |
| PublishSlots.AllListedPlaced | internal/nodes/youtube_queue.go:551-556 | However many videos are listed, the re-plan of a reservation places every one: at most 400 entries are taken and a day has at most 1440 slots. |
| PublishSlots.ReserveReplanIsFixpoint | internal/nodes/youtube_queue.go:551-556 | So as a reservation calls it, re-planning is a fixpoint without any condition. |
| PublishSlots.FreshSlotIsFree | internal/nodes/youtube_queue.go:583-604 | A fresh slot is on the grid, not before the earliest start, unused, and its day still had room. |
| PublishSlots.FreshSlotAvoidsListed | internal/nodes/youtube_queue.go:551-604 | It differs from the target of every listed video. |
| PublishSlots.FreshSlotAvoidsKnown | internal/nodes/youtube_queue.go:557-604 | When listing failed it differs from the slot and the previous time of every known video. |
| PublishSlots.FreshSlotAvoidsLive | internal/nodes/youtube_queue.go:530-604 | It can equal a live reservation's slot only at exactly the earliest start. |
| PublishSlots.SharedExactlyAtBoundary | internal/nodes/youtube_queue.go:546-583 | Two retained reservations share a slot after a grant if and only if the earliest start itself is a free slot that another retained reservation holds. |
| PublishSlots.RunsShareNoSlot | internal/nodes/youtube_queue.go:491-652 | Over every run in which that boundary case never arises no two retained reservations share a slot. |
| PublishSlots.CommittedIsDone | internal/nodes/youtube_queue.go:498-505 | A committed operation is answered with its video and changes nothing but the pruning. |
| PublishSlots.RetryKeepsSlot | internal/nodes/youtube_queue.go:572-581 | A retry of a live reservation keeps its still valid slot unless it adopts a video. |
| PublishSlots.BoundaryIsReachable | internal/nodes/youtube_queue.go:546-583 | With the default settings two uploads eight minutes apart are given the same slot. |
| PublishPromises.LiveAfter | internal/nodes/youtube_queue.go:487-652 | After any operation the reservations of others are the retained ones, on a grant without the stale ones; the operation's own is settled or renewed. |
| PublishPromises.RunsCover | internal/nodes/youtube_queue.go:487-652 | Over every run the history of promises covers every reservation in the queue, with its slot and time. |
| PublishPromises.StepSharesExactly | internal/nodes/youtube_queue.go:418-604 | Two uploads in flight, retained or evicted, share a slot after an operation if and only if it grants a fresh slot and either the boundary case holds or the slot is promised to an evicted upload. |
| PublishPromises.PromisesDistinctExactly | internal/nodes/youtube_queue.go:418-652 | Over every run: uploads in flight have distinct slots all along if and only if neither of the two ever happens. |
| PublishPromises.NoEvictionNoClash | internal/nodes/youtube_queue.go:418-437 | The second only happens after pruning has dropped a reservation with 400 entries behind it. |
| PublishPromises.DistinctWithoutEviction | internal/nodes/youtube_queue.go:418-652 | Over every run without such an eviction and without the boundary case uploads in flight have distinct slots, and each still has its entry. |
| PublishEviction.EvictionIsReachable | internal/nodes/youtube_queue.go:418-604 | From the empty queue with the default settings: an upload is promised 07:00, a second one lists 400 to 500 planned videos, and a third is promised the same 07:00, with no boundary case involved. |
| PublishTracking.PreparedEntry | internal/nodes/youtube_queue.go:439-468 | After the re-plan each entry is the last one of a listed video, or new, and shows that video's target as scheduled, or as pending with the time it is to be moved from; or it is a stale reservation that was failed; or it is as before. |
| PublishTracking.BoundClashExactly | internal/nodes/youtube_queue.go:530-604 | A fresh slot is one that an entry bound to a video has if and only if the listing does not bring that entry up to date: its video is not listed, or a later entry tracks it. Without a listing this never happens. |
| PublishTracking.BoundClashIsReachable | internal/nodes/youtube_queue.go:530-604 | From the empty queue: an upload is granted 07:00 and committed, and another one whose listing does not show it yet is granted 07:00 too. |
| PublishTracking.StepTracksExactly | internal/nodes/youtube_queue.go:405-652 | Every operation leaves each video with one entry, except exactly a commit of a video that another entry tracks already. |
| PublishTracking.RunsTrackExactly | internal/nodes/youtube_queue.go:405-652 | Over every run: no video is ever tracked twice if and only if no such commit happens. |
| PublishTracking.SecondTrackingIsReachable | internal/nodes/youtube_queue.go:439-617 | From the empty queue: a reservation records the listed video of an upload that is committed only afterwards, which gives it two entries. |
| CheckpointEngine.RouteIsFilter | internal/engine/engine.go:550-562 | Exactly the connections whose branch has items carry that branch to their target, in connection order. |
| CheckpointEngine.RouteBranchIsFilter | internal/engine/engine.go:652-671 | An error item goes to exactly the connections that leave on its branch. |
| CheckpointEngine.Engine.TryNode | internal/engine/engine.go:472-497 | The retry loop answers with a try before which all failed for the time being, and which succeeds, fails for good, or is the last one. |
| CheckpointEngine.Execution.TryAnswers | internal/engine/engine.go:472-497 | The same of the specification, from any try on. |
| CheckpointEngine.Engine.RouteItems | internal/engine/engine.go:550-562 | One queue item per connection whose branch exists and has items, in connection order. |
| CheckpointEngine.Engine.EnqueueFromBranch | internal/engine/engine.go:652-671 | One queue item per connection that leaves on the branch. |
| CheckpointEngine.Engine.StartNode | internal/engine/engine.go:433-471 | The boundary checkpoint is stored, then the node started under its operation ID, then a wait node's own checkpoint. |
| CheckpointEngine.Engine.Deliver | internal/engine/engine.go:430-578 | One delivery leaves the loop in the state of one specified turn, or ends it with the node's failure. |
| CheckpointEngine.Engine.Work | internal/engine/engine.go:397-588 | The queue loop ends as the specified run does, with its outputs and all its events in order. |
| CheckpointEngine.Engine.RunWithCheckpoint | internal/engine/engine.go:335-603 | A fresh start and a start from a checkpoint are the same run from the same queue, counters and outputs. |
| EngineOutputs.ReplyIsDecided | internal/engine/engine.go:472-497 | The reply a turn goes by is that of the first try that succeeds or fails for good, or of the last of the node's tries, one at least. |
| EngineOutputs.DoneTurn | internal/engine/engine.go:268-280 | After a successful reply the node's output is the first item of branch 0, if it has one; all other outputs stay; the node's count is one up; and each connection whose branch has items carries them to the end of the queue. |
| EngineOutputs.FailedTurn | internal/engine/engine.go:498-549 | A failure with continue-on-fail leaves on branch 1 or 0 as an error item and touches no output; without it the run ends. |
| EngineOutputs.SkippedTurn | internal/engine/engine.go:407-426 | A node that is absent, disabled or a note is passed over: nothing stored, started, put out, counted or queued. |
| EngineOutputs.RefusedTurn | internal/engine/engine.go:407-432 | The step budget and a missing executor end the run before anything is started. |
| EngineOutputs.TurnEvents | internal/engine/engine.go:433-471 | What a started turn shows: the checkpoint with the node at its head under its operation ID, the start under that ID, the mark of a waiting node, and a last checkpoint for an emptied queue. |
| EngineOutputs.AnswersAreStarts | internal/engine/engine.go:397-588 | Over a run each start has exactly one reply, in order. |
| EngineOutputs.OnlyRunnableStart | internal/engine/engine.go:407-432 | Only nodes that are there, enabled, no notes and with an executor are ever started. |
| EngineOutputs.FinalOutputIsLast | internal/engine/engine.go:397-588 | The output a run leaves for a node is the first item of the node's last reply that had one, and the one the run began with if none had. |
| CrashRecovery.TurnShape | internal/engine/engine.go:407-578 | A turn is skipped without a trace or stores its boundary and starts exactly the head of the queue, and only an emptied queue is stored again. |
| CrashRecovery.RunStarts | internal/engine/engine.go:407-461 | Within a pass operation steps are strictly increasing and starts never outnumber the steps of the budget. |
| CrashRecovery.CutAt | internal/engine/engine.go:397-588 | A pass killed after any number of events leaves the disk untouched, at the boundary of one turn, or with all the work done; in each case with exactly the starts that belong to it. |
| CrashRecovery.BoundaryResumes | internal/engine/engine.go:349-367 | Resuming a boundary is the interrupted turn with the same queue and outputs, the same operation ID, and one step more. |
| CrashRecovery.RunSame | internal/engine/engine.go:397-588 | A run that begins any number of steps later on the same work delivers the same and ends the same, while the budget lasts. |
| CrashRecovery.OneIdPerDelivery | internal/engine/engine.go:407-461 | Over any number of crashes two starts share an operation ID only if they are one delivery, IDs never go back, and all passes together stay within the step budget. |
| CrashRecovery.CrashEquivalence | internal/engine/engine.go:335-603 | Killed at any points and resumed each time from its last checkpoint, a run has the ending, outputs and sequence of deliveries of the unbroken run; recovery gives up only on checkpoints that fail validation or when all the work is done. |
| CrashRecovery.CrashNeverDiverges | internal/engine/engine.go:335-603 | With any step budget and any cuts: either equivalent, or the run ends at the step limit and its deliveries are the head of the unbroken run's. |
| CrashRecovery.FreshRunSurvives | internal/engine/engine.go:335-395 | The same for a run started afresh, from its first checkpoint on, with any budget and all guarantees together. |
| CrashRecovery.NoStartBeforeItsCheckpoint | internal/engine/engine.go:443-461 | Every node start directly follows the stored checkpoint that carries it, with its operation ID, at the head. |
| CrashRecovery.RefusedWindow | internal/runner/async.go:662-678 | Recovery refuses a checkpoint that passes validation exactly when the crash fell between the emptied-queue checkpoint and the success checkpoint. |
| EngineOutputs.RecoveryDecides | internal/runner/recovery.go:80-118 | Before it starts anything recovery refuses a checkpoint that is too large, too far on, names an absent node, or has no work left without being a success, and finds one done that is. |
| CrashRecovery.FinishedWorkRefused | internal/runner/async.go:676-678 | That window exists: a finished run killed in it is reported as failed. |
| ExecutionGate.KeysKept | internal/scheduler/queue.go:140-191 | Every step keeps the busy keys equal to the disjoint union of unsubmitted tickets, waiting jobs and the taken job. |
| ExecutionGate.FifoKept | internal/scheduler/queue.go:177-268 | Every step keeps the taken jobs equal to the submission order up to the queue, without the withdrawn ones. |
| ExecutionGate.WakeupKept | internal/scheduler/queue.go:177-268 | Every step keeps the wake-up guarantee. |
| ExecutionGate.ReachableInv | internal/scheduler/queue.go:138-289 | In every reachable state, under every interleaving: keys are owned once each, the queue holds every waiting job once, one worker, first in first out, and no lost wake-up. |
| ExecutionGate.OneRunsAtATime | internal/scheduler/queue.go:270-289 | At most one job is taken and unfinished. |
| ExecutionGate.TakenInOrder | internal/scheduler/queue.go:249-268 | Jobs are taken at most once each, in submission order, leaving out exactly the withdrawn ones. |
| ExecutionGate.WithdrawnNeverRuns | internal/scheduler/queue.go:236-247 | A job whose withdrawal succeeded is never taken in any continuation. |
| ExecutionGate.UseTicketsOnce | internal/scheduler/queue.go:167-175 | Withdrawing a job whose ticket was released before it was submitted keeps the keys owned exactly while its key is free. |
| ExecutionGate.InternalStepsEnd | internal/scheduler/queue.go:185-289 | Every step the gate makes by itself lowers a measure, so left alone it comes to rest. |
| ExecutionGate.QuietMeansServed | internal/scheduler/queue.go:249-289 | At rest no job waits or runs and only unsubmitted tickets keep keys busy: no deadlock, no lost job. |
| ExecutionGate.Scheduler.Reserve | internal/scheduler/queue.go:138-151 | An empty or busy key is refused; otherwise it is claimed by a new ticket. |
| ExecutionGate.Scheduler.Release | internal/scheduler/queue.go:153-165 | An unused ticket gives its key back; a used one changes nothing. |
| ExecutionGate.Scheduler.Append | internal/scheduler/queue.go:177-185 | The job goes to the back of the queue, unless the ticket was used. |
| ExecutionGate.Scheduler.StartWorker | internal/scheduler/queue.go:186 | The first submitter, and only it, starts the worker. |
| ExecutionGate.Scheduler.Signal | internal/scheduler/queue.go:187-190 | A token is in the channel afterwards. |
| ExecutionGate.Scheduler.Withdraw | internal/scheduler/queue.go:236-247 | It succeeds exactly for a job that still waits, and frees its key. |
| ExecutionGate.Scheduler.Next | internal/scheduler/queue.go:249-268 | Takes the first job that was not withdrawn; none means that none waits. |
| ExecutionGate.Scheduler.Finish | internal/scheduler/queue.go:276-280 | The finished job's key is free again. |
| QueueAccounts.CountersKept | internal/runner/async.go:324-414 | Every atomic update keeps the queue count, the committed total and the per-workflow active counts in balance. |
| QueueAccounts.LinkedKept | internal/runner/async.go:385-447 | Every step keeps each execution's progress in line with its ticket; the watcher and the job's deferred part never both act. |
| QueueAccounts.AccountsBalance | internal/runner/async.go:316-447 | Under every interleaving the queue count is the sum of what is under way, at most the limit are committed, and active counts equal the runs in flight: each accepted execution is taken out exactly once. |
| QueueAccounts.CountsMeanUnfinished | internal/runner/async.go:403-447 | A queued or running execution is counted and its workflow is active; cancel path and deferred part exclude each other; with nothing under way the count is zero. |
| QueueAccounts.RefusedExactly | internal/runner/async.go:324-328 | In every reachable state and for every limit a start is refused if and only if the accepted executions and the refusals not yet taken back together reach the limit; with no refusal under way, if and only if the accepted ones do. |
| QueueAccounts.RefusedWhileEmpty | internal/runner/async.go:324-328 | An instance from the empty manager: with limit 1 a start is refused although nothing is queued or running. |
| QueueAccounts.Counters.Raise | internal/runner/async.go:324-328 | In every state the counters show, raising and comparing is the counting move of the model: the start is then counted or over the limit as the answer says, and the counters show the new state. |
| QueueAccounts.Counters.Lower | internal/runner/async.go:324-438 | Lowering is each of the four moves that take an execution out of the queue count. |
| QueueAccounts.Counters.Mark | internal/runner/runner.go:181-188 | One more run of the workflow is active, as the marking move has it. |
| QueueAccounts.Counters.Unmark | internal/runner/runner.go:190-198 | One run less, the last one removes the workflow: each of the two unmarking moves. |
| CivilDate.CivilReadsBack | internal/scheduler/nextrun.go:105-109 | The calendar under the date arithmetic: every valid date has one day number and every day number one date. |
| CronFields.ValidFieldFires | internal/scheduler/scheduler.go:461-478 | Every field that validation accepts matches at least one value of its range. |
| CronFields.SteppedRangeReads | internal/scheduler/scheduler.go:490-528 | The documented form a-b/n, printed in decimal, is read as that range and step, and refused exactly when it leaves the bounds. |
| CronTexts.TextReads | internal/scheduler/scheduler.go:442-446 | Words with blanks between them are read as these words. |
| CronTexts.NumberMatches | internal/scheduler/scheduler.go:490-528 | A field that is a plain number matches exactly that number, if it is within bounds. |
| CronTexts.SteppedStarMatches | internal/scheduler/scheduler.go:490-528 | A field star-slash-n matches exactly every n-th value from the least one on. |
| CronTexts.RangeMatches | internal/scheduler/scheduler.go:490-528 | A field a-b matches exactly what lies between, if it is within bounds. |
| CronTexts.SteppedRangeMatches | internal/scheduler/scheduler.go:490-528 | A field a-b/n matches exactly every n-th value of the range from its start on. |
| CronTexts.SteppedStartMatches | internal/scheduler/scheduler.go:490-528 | A field a/n matches exactly every n-th value from a to the end of the field's range; a/1 is just a. |
| CronTexts.CommaMatches | internal/scheduler/scheduler.go:480-488 | A comma list matches exactly what its first element or the rest of it matches, and is accepted exactly if both are. |
| CronTexts.NumberListMatches | internal/scheduler/scheduler.go:480-488 | A printed list of numbers matches exactly its members. |
| CronTexts.TextFires | internal/scheduler/scheduler.go:442-459 | An expression of five words fires at a minute of a day exactly if the minute, hour and day fields do. |
| CronTexts.DailyFires | internal/scheduler/scheduler.go:442-459 | By text: minute hour * * * fires exactly at that time of every day. |
| CronTexts.WeeklyFires | internal/scheduler/scheduler.go:442-459 | By text: minute hour * * w fires exactly then on that weekday; 0 and 7 are both Sunday. |
| CronTexts.YearlyFires | internal/scheduler/scheduler.go:442-459 | By text: minute hour d m * fires exactly then on that date. |
| CronTexts.EitherDayFires | internal/scheduler/scheduler.go:442-459 | By text: minute hour d * w fires exactly then on that day of the month or that weekday. |
| CronSearch.FirstMatchFacts | internal/scheduler/nextrun.go:91-122 | The minute-by-minute reference: the least minute that matches, or none before the limit. |
| CronSearch.SkipDay | internal/scheduler/nextrun.go:104-107 | A day that does not match can be skipped to its end: no minute of it fires. |
| CronSearch.SkipHour | internal/scheduler/nextrun.go:108-115 | The same for an hour. |
| CronSearch.NextStarts | internal/scheduler/nextrun.go:105-109 | The date arithmetic of a skip (day or hour plus one, normalised) is the start of the next day or hour. |
| CronSearch.NextCronTime | internal/scheduler/nextrun.go:96-122 | The skipping search returns what the minute-by-minute search returns, for every expression text and start. |
| CronHorizon.CronRepeats | internal/scheduler/nextrun.go:91-122 | What fires at a minute fires 400 years later and the other way round. |
| CronReturns.CommonReturns | internal/scheduler/nextrun.go:102-121 | A date that every year has falls on every weekday in any twelve years. |
| CronReturns.LeapReturns | internal/scheduler/nextrun.go:102-121 | 29 February falls on every weekday within 36 years of any leap year. |
| CronReturns.FiresAgain | internal/scheduler/nextrun.go:91-122 | What fires at some time fires again before the end of the 12th year after any minute, or of the 40th if it is a 29 February. |
| CronHorizon.FoundByThen | internal/scheduler/nextrun.go:102-121 | For every text and start: something fires later if and only if a search to the end of the 40th year after finds it; the 12th, where no 29 February fires. |
| CronHorizon.FiresExactly | internal/scheduler/nextrun.go:91-122 | An accepted expression fires, and goes on for ever, if and only if its fields name a date. |
| CronHorizon.EveryYearIsFound | internal/scheduler/nextrun.go:102-121 | An accepted expression whose day fields name a date of every year, every day of the month, or two numeric restrictions is found from every start. |
| CronHorizon.LeapDayMissedExactly | internal/scheduler/nextrun.go:102-121 | A schedule for 29 February is missed from exactly the starts between its last fire of one and the end of the third February after it, when the leap day four years later is missing. |
| CronHorizon.MissedExactly | internal/scheduler/nextrun.go:91-122 | Over all accepted expressions and all starts: nothing is missed when the fields name a date of every year; when they only name dates, exactly 29 February in its gaps; and in every case none found is wrong if and only if the fields name a date at all, which then fires within 12 years, or 40. |
| CronHorizon.LeapDayForecastGap | internal/scheduler/nextrun.go:102-121 | An instance, by text: minute hour 29 2 * is forecast never to fire from 1 March 2096, though it does on 29 February 2104, and likewise before every missing leap day. |
| CronHorizon.WeekdayForecastGap | internal/scheduler/nextrun.go:102-121 | An instance for near dates, by text: 0 0 */31 1 1 is accepted and forecast never to fire from 2 January 2018, though it does on 1 January 2024. |
| RunAllSchedule.ForecastIsExact | internal/scheduler/nextrun.go:58-89 | For every schedule: one that the tick can fire is forecast at the first coming tick that fires, and never only if none does before the horizon, if and only if it does not start inside a minute that fires; for every other one, if and only if the forecast says never. |
| RunAllSchedule.RawIsFirst | internal/scheduler/nextrun.go:67-84 | Without the end bound the forecast is the first full minute from the earliest tick at which the rule fires, for cron and interval rules. |
| RunAllSchedule.DueReads | internal/scheduler/scheduler.go:289-320 | The tick fires an enabled Run-All schedule with runs left exactly when its start comes before the end of the minute, the minute begins no later than its end, and its rule fires: a cron match not yet run in this minute, or an interval that has passed. |
| RunAllSchedule.StartInsideMinute | internal/scheduler/nextrun.go:61-65 | An instance: a start at half past a minute fires in that minute and is forecast for the next. |
| RunAllSchedule.TriggersOnlyForecast | internal/scheduler/scheduler.go:289-294 | For workflow triggers, by cron expression or interval: no tick fires them, so the forecast is right exactly for a rule that does not fire before the horizon. |
| RunAllFiring.CountsBalance | internal/scheduler/scheduler.go:279-403 | Under every interleaving of ticks and fire completions, for every schedule of any registered set, switched-off ones included: RunCount is the initial count plus sweeps started plus fires in flight. One with a limit that was enabled exactly while below it stays so, never above it; one that was not is never fired or changed. |
| RunAllFiring.FitStayFit | internal/scheduler/scheduler.go:279-403 | In particular, where every schedule was enabled exactly while below its limit, every one stays so. |
| RunAllFiring.OncePerMinute | internal/scheduler/scheduler.go:307-320 | A second tick in the same minute fires no cron schedule again. |
| RunAllFiring.Scheduler.OnTick | internal/scheduler/scheduler.go:279-349 | The in-place loop over the schedules counts, disables and fires as specified. |
| RunAllFiring.Scheduler.IsDue | internal/scheduler/scheduler.go:291-316 | The checks in the order of the source decide exactly the specified condition. |
| RunAllFiring.Scheduler.UncountRunAll | internal/scheduler/scheduler.go:387-403 | A fire that did not start is taken back from every matching schedule and re-enables one at its limit. |
| RunAllFiring.Scheduler.NextRun | internal/scheduler/nextrun.go:58-89 | The forecast computed with the skipping search is the specified one. |
| JsonText.EscapeReads | internal/store/backup_canon.go:111-120 | Every character is written so that a reader of all the escapes of section 7 of RFC 8259, surrogate pairs included, gives it back and leaves what follows. |
| JsonText.QuoteReads | internal/store/backup_canon.go:111-120 | That reader gives back every quoted string and leaves what follows. |
| JsonText.QuoteIsUnambiguous | internal/store/backup_canon.go:111-120 | Two quoted strings with anything behind them are equal texts only if string and rest are equal. |
| JsonText.EscapeForms | internal/store/backup_canon.go:111-120 | How each character is spelled: with a letter where JSON has one, as itself where it may stand so, else by number in lower case. |
| JsonReader.PrintReads | internal/store/backup_canon.go:122-198 | A reader of JSON texts by RFC 8259 reads the printed form of a value as that value and leaves what follows. |
| JsonReader.PrintIsUnambiguous | internal/store/backup_canon.go:122-198 | So the printed form of a value can be told from every other value's, also with more text behind it. |
| SortedCanon.NormIsIdempotent | internal/store/backup_canon.go:164-181 | The key-sorted normal form is its own normal form. |
| SortedCanon.NormAscends | internal/store/backup_canon.go:164-181 | In every object of the normal form a key comes before the next ones, at the first character where they differ, or is the same. |
| SortedCanon.OneKeyKeepsOrder | internal/store/backup_canon.go:168 | Members with one key keep the order they had. |
| SortedCanon.AlikeMeansSameNorm | internal/store/backup_canon.go:164-181 | Values equal up to the order of object keys, with distinct keys, have one normal form. |
| SortedCanon.SameNormMeansAlike | internal/store/backup_canon.go:164-181 | Values with one normal form are equal up to the order of object keys. |
| SortedCanon.CanonIsExact | internal/store/backup_canon.go:98-198 | Canonical texts are equal exactly when the normal forms are, and for distinct keys exactly when the values are equal up to object key order. |
| SortedCanon.ParseReadsBack | internal/store/backup_canon.go:122-166 | The tokens of a value are read as that value and leave the rest. |
| SortedCanon.ParseIsSound | internal/store/backup_canon.go:122-166 | What is read as a value are the tokens of that value. |
| SortedCanon.CanonTextReads | internal/store/backup_canon.go:98-109 | A token stream is accepted exactly when it is the tokens of one value, and the result is that value's canonical text. |
| SortedCanon.CanonReadsBack | internal/store/backup_canon.go:98-198 | The canonical text read by RFC 8259 is the normal form of the value that was read from the stream, with nothing left, and its keys are in order. |
| CanonPrinter.Decoder.Next | internal/store/backup_canon.go:122-125 | The decoder's next token, or none at the end or where the grammar forbids it. |
| CanonPrinter.SortShown | internal/store/backup_canon.go:168 | Sorting the printed members by key is printing the sorted members. |
| CanonPrinter.CanonString | internal/store/backup_canon.go:111-120 | Appends the one encoding of the string. |
| CanonPrinter.WriteMembers | internal/store/backup_canon.go:169-180 | Appends the members in order, separated by commas. |
| CanonPrinter.CanonArray | internal/store/backup_canon.go:130-143 | Succeeds exactly when the rest parses as an array and appends its canonical items. |
| CanonPrinter.CanonObject | internal/store/backup_canon.go:144-180 | Succeeds exactly when the rest parses as an object and appends its members in key order. |
| CanonPrinter.CanonValue | internal/store/backup_canon.go:122-198 | Succeeds exactly when a value can be read, consumes it, and appends its canonical text. |
| CanonPrinter.CanonSortedForm | internal/store/backup_canon.go:98-109 | The whole reader and printer answer the canonical text of the one value, or nothing on truncated or trailing input; the answer is a JSON text that reads back as the normal form. |
| LegacyCanon.CanonLegacyForm | internal/store/backup_canon.go:52-95 | The byte loop with its in-string flag computes the specified stripping. |
| LegacyCanon.LiteralExactly | internal/store/backup_canon.go:64-91 | Exactly the escapes of the five characters are taken for them, in either case of their digits, and each for its own. |
| LegacyCanon.StripIsIdempotent | internal/store/backup_canon.go:47-96 | Stripping twice is stripping once, for every byte string. |
| LegacyCanon.ReEscapeCancels | internal/store/backup_canon.go:14-17 | For every text with well-formed quotes and escapes, HTML escaping it first makes no difference to its legacy form. |
| LegacyCanon.StripKeepsMeaning | internal/store/backup_canon.go:64-91 | Reading the escapes of the stripped text gives what reading those of the original gives. |
| LegacyCanon.SameFormSameMeaning | internal/store/backup_canon.go:3-17 | Texts with one legacy form say the same. |
| LegacyCanon.EscapedBackslashStays | internal/store/backup_canon.go:88-90 | An escaped backslash before u003c is copied, never taken for an escape. |
| DurableSweep.Sweeper.RunStep | internal/runall/runall.go:310-362 | One workflow: skipped, recorded and written as specified; tells whether the sweep goes on. |
| DurableSweep.Sweeper.VisitService | internal/runall/runall.go:292-308 | The look at a service: cancellation, a listing error recorded, or on to its workflows. |
| DurableSweep.Sweeper.RunSweep | internal/runall/runall.go:253-375 | The nested loops make the starts and writes of the specified pass, in order, and end with its final row. |
| SweepResults.ResultsTell | internal/runall/runall.go:292-362 | Each result a pass adds is for a listed workflow not recorded before, with success if it ran, the error with its message if it failed, and skipped if it had no trigger or was there already; or for a service that could not be listed, with that error. Exactly the workflows that ran or failed were started. |
| SweepResults.PlanInOrder | internal/runall/runall.go:291-362 | The plan goes service by service and through each one's workflows in their order; a service that cannot be listed has none. |
| SweepResults.PassEnds | internal/runall/runall.go:291-373 | A pass gets through the items up to the first at which it is cancelled or stopped; it ends as cancelled exactly if it is so by its last look, else as failed exactly if it added an error. |
| SweepHistory.KeysTellApart | internal/runall/runall.go:264 | Recorded keys identify workflows as long as service IDs have no slash. |
| SweepHistory.PassIsSound | internal/runall/runall.go:253-375 | In a pass results stay a head of the plan, only grow, and nothing recorded or written is started after. |
| SweepHistory.HistoryIsSound | internal/runall/runall.go:109-134 | Over any number of crashes, failed writes and restarts the record is a head of the service-then-workflow order and a written workflow is never started again. |
| SweepRestarts.NeverStartedAgain | internal/runall/runall.go:109-375 | The same over listings that may fail and differ from life to life, for any service IDs: the record only grows, no workflow is recorded twice, and a written workflow is never started again. |
| SweepHistory.RecordedOnce | internal/runall/runall.go:253-375 | The record never holds a workflow twice. |
| SweepHistory.CompleteExactly | internal/runall/runall.go:290-368 | A pass comes to the end of the listing if and only if it is not cancelled before its last look and, when it is to stop on failure, no service fails to list and no workflow still to be run fails. |
| SweepHistory.EveryWorkflowOnce | internal/runall/runall.go:290-375 | A pass that ends uncancelled and unstopped, and whose last write arrives, leaves every workflow recorded exactly once and the job closed. |
| SweepHistory.StatusOfLastPass | internal/runall/runall.go:278-373 | An uncancelled sweep ends as failed exactly when a result added by its last pass is an error. |
| SweepHistory.NothingAfterFailure | internal/runall/runall.go:334-362 | Within a pass that stops on failure nothing is started after a workflow that fails. |
| SweepHistory.LeftRunning | internal/runall/runall.go:334-375 | Such a pass leaves a running job with a recorded error if and only if it dies, or loses its final write, between the write of the failure and the final row. |
| SweepHistory.StopForgottenExactly | internal/runall/runall.go:109-375 | Over any number of crashes, lost writes and restarts that all are to stop on failure: a workflow is started after a recorded failure if and only if some life ends in that window and a later one gets to start a workflow. |
| SweepHistory.RestartGoesOn | internal/runall/runall.go:258-265 | A restart starts the next workflow of the plan whatever is recorded before it. |
| SweepHistory.StopIsForgotten | internal/runall/runall.go:109-375 | An instance from the empty row: the first workflow fails, the process dies after that is written, and the restart starts the second one. |
| SweepHistory.FailureIsForgotten | internal/runall/runall.go:278-373 | A sweep restarted with everything recorded ends as a success whatever failures were recorded. |
| Ordering.SortedIsUnique | internal/nodes/youtube_queue.go:283-289 | Where the order decides every pair a sorted arrangement is unique. |
| Ordering.SortForgetsOrder | internal/nodes/youtube_queue.go:283-289 | The stable sort then gives one result for every listing order. |
| Ordering.TextLessIsBefore | internal/nodes/youtube_queue.go:288-289 | The order of texts by position: at the first place where they differ the character is less, or the text ends there. |
| Ordering.SortIsStable | internal/store/backup_canon.go:168 | The sort is stable: values that are not ordered either way keep the order they had. |

## Left out

- Time zones with daylight saving, sub-second times and the wall clock's own jumps: zones have a fixed offset
  and times are whole seconds; the 250 ms by which a tick is late is not modelled.
- ReplanGivesUp.FixpointFailsAfterGivingUp: over occupancies that no reservation builds; it shows that the condition
  of the planner alone is needed.
- PublishRuns.RunsKeepInv: operation keys are not empty, as every caller guarantees; entries for existing videos
  have the empty key and are not counted as one operation.
- CrashRecovery.CrashEquivalence: executors answer from the node, its input, the outputs so far and the number of
  the try. Full equivalence needs a step budget that also pays one step for every crash; what holds without it is
  `CrashRecovery.CrashNeverDiverges`. Cancellation, the run's timeout, failing checkpoint writes, the repeated-input
  guard (off by default), the trimmed run history, scratch files and the deadline of a Wait node are not part of this
  model.
- CrashRecovery.RefusedWindow: validation of a checkpoint's version, owner, workflow hash, wait state and binary
  references is not part of this model; its size bounds and node names are.
- ExecutionGate.ReachableInv: a job's withdraw function is called only after its ticket was really submitted, as
  all callers do. The cooldown, the hooks, their time limits and panics of a job are not part of this model.
- QueueAccounts.AccountsBalance: dispatcher mode only. The execution table, event streams and eviction are not part
  of this model; nor is the mode without a scheduler.
- CronSearch.NextCronTime: counts minutes from year 1 in a zone with a fixed offset, where the source's guard
  against a clock that does not move forward is never taken.
- CronFields.FieldMatches: a predicate over the elements of the field, without the order in which the loop tries them.
- RunAllFiring.CountsBalance: edits of the registered schedules between ticks, the persisted fire count and the
  enqueueing of workflow triggers (which the tick never reaches) are not part of this model.
- SweepHistory.HistoryIsSound: for "head of the plan" the listing is stable, can be read, and names no workflow twice,
  and service IDs have no slash; the rest holds without (`SweepRestarts.NeverStartedAgain`, where no listing names a
  workflow twice and workflow IDs are not empty). A panic in a step, the wait for a workflow that is already running,
  and the in-memory flag that refuses a second sweep are not part of this model.
- CanonPrinter.CanonSortedForm: starts from tokens; the lexing of JSON text (commas, colons, white space, escapes,
  number syntax) belongs to the standard library and is not part of this model.
- LegacyCanon.CanonLegacyForm: starts from compact JSON; the compaction and its errors are the standard library's.
- LegacyCanon.ReEscapeCancels: for texts whose quotes and escapes are well formed, which compact valid JSON texts are.
- HTTP handlers, network clients, SQL, leases, encryption, redaction, code nodes and media processing: parameters
  or plumbing without a deep invariant.
- The bounded run history, replay buffers and subscriber channels of the manager: short bounded arithmetic.
- Parsing of slot settings and environment variables: structural copying.
