# Herdsman: delivery, acknowledgement and index protocols

This project models how Herdsman brings a worker's outcome to the agy session that orchestrates it, and the
daemon structures that this rests on, and proves what they promise. A worker's outcome becomes a row of
`agent_events`; the daemon reserves it for the owner terminal; the agy hook projects the candidate events to
outcomes, hands them to the host, waits for the transcript to show them, and acknowledges them with a cursor that
settles every row at or below an id. Because of that cursor the hook may never acknowledge above an event it still
owes.

| module | what it models |
|---|---|
| `Projection`, `WakeView` | which events become outcomes, wait or are suppressed; the listed and retained events of one view |
| `HookSpec`, `HookSession` | the session's state and each hook operation as a function, and the runner that performs it step by step |
| `WakeBatches` | what takes, peeks and turns do, read off the stored session, the daemon's answers and the peers |
| `FlushSafety`, `OwedEvents`, `DeliveryProtocol`, `Redelivery`, `Accounting`, `WakeAgreement` | what one operation, one step and a whole run keep |
| `Races`, `LosingRuns` | where the races between waiters and hook events come from, and the runs at which promises of the code fail |
| `WakeWaiter`, `WaiterRuns`, `WaiterGenerations` | the standby loop, its prompts and its history as part of a run; epochs and the re-arm of parked sessions |
| `EventTable`, `EventStore`, `EventScan`, `Reconciler` | the event rows, every statement that writes them, the paged scan and the sweep |
| `OrchestratorScopes`, `OrchestratorService`, `CursorSafety` | scope ownership and the acknowledgement cursor, alone and together with the rows |
| `AgentIndex` | replacing a session's agent rows one statement at a time under two unique indexes |
| `SendQueue`, `TurnRegistry` | the per-connection send queue and the turn-completion registry under any interleaving |
| `WireFormat`, `WireTexts`, `JsonSeparators` | the protobuf decoder and the JSON separator rewrite |

`Common` holds shared vocabulary. Code that updates things in place is a class or a method with loops, proved
against a function of the old state; the properties are lemmas about those functions and about runs of steps.

Results that go against the code's own comments or expectations, each with its exact condition:

- A waiter can lose an event. It re-arms a delivered batch, reads the file, verifies and clears in separate commits,
  and its generation check does not see a Stop that keeps no new waiter. If such a Stop hands the batch over again in
  between, the waiter clears it: it ends presented, neither delivered nor parked (`LosingRuns.WaiterLosesRace`).
  `DeliveryProtocol.StepKeepsOwedExactly` says which commits lose an event, `Races` what must have happened before.
- The comments promise that an id in `pendingAckEventIds` is never injected again. An id can be there and in
  `deliveredEventIds` at once (a re-armed id that the next projection suppresses), and then an abnormal Stop reopens
  it (`LosingRuns.ParkedIsHandedOver`). What decides is whether the id is presented and no longer delivered
  (`Redelivery.NeverAgainExactly`).
- Closing a pane twice is not harmless. Step 2 of the close also matches rows that an earlier close left with the
  same reason, so a second close can make a row at or below the acknowledgement cursor deliverable again
  (`EventStore.SecondCloseResurrects`, `CursorSafety.SecondCloseBreaksSafety`); `CursorSafety.CloseIsSafeExactly`
  says when.
- The reconciler's 300 s freshness rule never applies to a real timestamp: the age is subtracted from the clock
  once more (`Reconciler.SweepExactly`).
- Two scan snapshots with distinct panes and terminals can be matched to one row (`AgentIndex.TwoSnapshotsCanCollapse`);
  `AgentIndex.MatchingIsInjectiveExactly` says when.
- A completion that itself carries the fallback flag suppresses itself exactly if its pane and generation are known
  (`Projection.FallbackCompletionExactly`).

## Model

| member | source | states |
|---|---|---|
| `DeliveryProtocol.NothingOwedIsLost` | go/internal/agy/hook.go:410-615 | over every run, in which hook events, other owners' acks and the reads and commits of any number of waiters interleave, an event owed at one state is owed at every later one, unless a step in between confirmed it, moved ownership or acknowledged past it, judged it out of reach, suppressed or crowded out, or was a waiter's commit that lost a race for it |
| `DeliveryProtocol.StepKeepsOwedExactly` | go/internal/agy/hook.go:410-615 | a step with no reason to let an owed event go keeps it owed if and only if it is not a waiter's commit on an outdated copy: a peek that does not know the event or holds it presented, or a clearing of an event that was presented again since the re-arm |
| `DeliveryProtocol.StopKeepsOwed` | go/internal/agy/hook.go:562-566 | flush and take of one Stop together lose nothing, though the take sees the connection state the flush refreshed |
| `Races.PollRaceIsDisturbed` | go/internal/agy/hook.go:866-976 | a peek loses an owed event only if another process changed what the file says of it between the waiter's read and this peek |
| `Races.ClearRaceIsDisturbed` | go/internal/agy/wake_waiter.go:354-396 | clearing loses an event only if another process changed what the file says of it since that waiter's re-arm, or its own verification suppressed it |
| `Races.RaceStaysInTurn` | go/internal/agy/hook.go:1413-1429 | while a waiter is not superseded at its commit, no step since its read began a turn or kept a new waiter: only a Stop that keeps none, an abnormal Stop, an invocation of the running turn or another waiter overtakes it |
| `Races.UndisturbedRunLosesNothing` | go/internal/agy/wake_waiter.go:224-428 | over every run that starts between the waiters' iterations, an owed event is kept unless a step had a reason to let it go or another process touched it in the middle of an iteration |
| `Races.PastWaiterRearmsOnce` | go/internal/agy/wake_waiter.go:322-371 | a waiter that a turn has passed re-arms at most once more |
| `LosingRuns.WaiterLosesRace` | go/internal/agy/wake_waiter.go:354-396 | the run at which an owed event is lost without any other reason: a Stop that keeps no waiter comes between a re-arm and its verification; the event ends neither delivered nor parked, and can never be handed over again |
| `OwedEvents.FlushKeepsOwed` | go/internal/agy/hook.go:705-815 | a flush keeps an owed event above the cursor and injectable unless its delivery is confirmed or its own view releases it |
| `OwedEvents.TakeKeepsOwed` | go/internal/agy/hook.go:990-1119 | a take keeps every owed event in the snapshot above the cursor unless this view releases it |
| `OwedEvents.PeekKeepsOwed` | go/internal/agy/hook.go:847-982 | a peek, on a copy that may differ from the file it re-reads, keeps every owed event the copy is not behind on, unless this view releases it |
| `OwedEvents.PeekLosesStale` | go/internal/agy/hook.go:945-976 | a peek that writes drops from the snapshot every event its copy is behind on |
| `OwedEvents.ClearKeepsOwedExactly` | go/internal/agy/hook.go:1178-1199 | clearing the re-armed ids keeps an owed event if and only if the waiter is superseded, or the event is not a target that is delivered and presented |
| `Redelivery.HandedOverTwiceOnlyIfReopened` | go/internal/agy/hook.go:489-509 | an id is in two batches only if in between it was delivered, presented and reopened by a re-arm or an abnormal Stop, or higher ids pushed it out of the presented list |
| `Redelivery.NeverAgainExactly` | go/internal/agy/hook.go:1073-1115 | an id cannot be handed over any more, as long as the presented list does not overflow, if and only if it is at or below the cursor, or presented and not delivered; being in pendingAck is no part of it |
| `Redelivery.RetiredIsNeverHandedOver` | go/internal/agy/hook.go:755-791 | no continuation hands over an id that is acknowledged, or presented and not delivered |
| `LosingRuns.ParkedIsHandedOver` | go/internal/agy/hook.go:1060-1098 | the run at which an id is handed over while it waits in pendingAck: a re-armed failure is parked because the completion that covers it is deferred below it, the turn ends abnormally, and the completion's terminal goes away |
| `Redelivery.ShutStaysShut` | go/internal/agy/hook.go:1073-1107 | an id presented or acknowledged stays so until a step reopens it |
| `Redelivery.StepShuts` | go/internal/agy/hook.go:410-615 | one step hands over no shut id, shuts what it hands over, and delivers nothing else |
| `Redelivery.ParkedWasSettledBefore` | go/internal/agy/hook.go:736-800 | an id waits in pendingAck only after a step confirmed its delivery or suppressed it |
| `Redelivery.HandedOverIsOwed` | go/internal/agy/hook.go:1073-1115 | a handed-over event is owed from then on |
| `Redelivery.PolledOutcomeIsOwed` | go/internal/agy/hook.go:954-981 | an outcome a live waiter's peek announces is owed from then on, if nobody presented it or acknowledged past it since the waiter's read |
| `WakeAgreement.PeekPredictsTake` | go/internal/agy/hook.go:847-1119 | a take from the state a peek with outcomes wrote, on the same daemon and peer view, returns exactly the batch the peek saw |
| `WakeAgreement.AnnouncedIsHandedOver` | go/internal/agy/hook.go:847-1119 | over every run, when a peek on an up-to-date copy announces outcomes, the invocation that follows on the same daemon and peers hands over exactly those |
| `WakeAgreement.FewOverRuns` | go/internal/agy/hook.go:972-1107 | over every run no session, stored or held by a waiter, presents more than 500 ids |
| `WakeAgreement.SnapshotRebuildsCandidates` | go/internal/agy/hook.go:1248-1298 | merging the written snapshot again gives the same candidates |
| `WakeAgreement.FewOwedSurvive` | go/internal/agy/hook.go:1340-1359 | with at most 100 owed records no candidate is trimmed |
| `Accounting.NothingPresentedIsForgotten` | go/internal/agy/hook.go:705-1119 | over every run an event that came to be presented still has its ack outstanding, unless a step landed the ack, moved ownership or gave the delivery back, or a waiter presented it from a copy older than what made it injectable |
| `Accounting.OutstandingStays` | go/internal/agy/hook.go:705-815 | over every run an outstanding ack, delivered or parked, is dropped for no other reason |
| `Accounting.StepAccounts` | go/internal/agy/hook.go:410-615 | one step of any kind accounts for what was outstanding and for what it newly presents |
| `Accounting.TakeAccounts` | go/internal/agy/hook.go:1013-1119 | a take parks, delivers or lands everything it presents and keeps every parked ack; only an ineligible delivered id is swept |
| `Accounting.PeekAccounts` | go/internal/agy/hook.go:866-972 | a peek newly presents only ids it parks, ids whose ack it landed, and ids its copy held presented |
| `Accounting.FlushAccounts` | go/internal/agy/hook.go:712-805 | a flush loses no id it owes an ack for and presents no others |
| `FlushSafety.FlushNeverAcksAboveOwed` | go/internal/agy/hook.go:711-805 | every ack of a flush is strictly below each unconfirmed delivered id and each deferred or projected candidate; its ids split into settled, dropped, still delivered and still pending, none lost or doubled |
| `FlushSafety.FlushSendsExactly` | go/internal/agy/hook.go:736-780 | a flush sends the ack of an id if and only if the id is delivered or parked, is no unconfirmed delivery, is below every deferred or projected candidate and every unconfirmed delivery, and no lower such id was answered as a transient failure |
| `FlushSafety.FlushEndsExactly` | go/internal/agy/hook.go:737-800 | on which list every id ends: unconfirmed and cut-off deliveries stay delivered; parked are the cut-off acks, those that may not go yet and those refused as out of order; an ack that landed or failed for good leaves both lists; no other field changes |
| `FlushSafety.FlushCursorExactly` | go/internal/agy/hook.go:761-815 | the cursor reaches every id whose ack advanced and otherwise stays; the flush goes on with the refreshed state exactly if an ack landed |
| `FlushSafety.FlushLoopKeeps` | go/internal/agy/hook.go:736-801 | the flush loop keeps the split, the acks sent with the outcome of each reply, and the bound, for any prefix of the sorted ids |
| `FlushSafety.FlushOneProgress` | go/internal/agy/hook.go:737-780 | one id of the loop goes to exactly one group and tightens the bound when it is withheld |
| `FlushSafety.FlushBreakDone` | go/internal/agy/hook.go:781-800 | after a transient failure the flush still guarantees its split and bounds, and every later id goes back to the list it came from |
| `FlushSafety.SuppressedAcksStayBelowOwed` | go/internal/agy/hook.go:915-944 | acking what a projection suppressed settles no deferred id, and no delivered id but the acked one |
| `FlushSafety.SettleSuppressedKeeps` | go/internal/agy/hook.go:1060-1082 | each suppressed id is held above the bound or sent; exactly the held and the landed ones are presented, and an id is skipped only behind an ack that did not land |
| `FlushSafety.RetainedExactly` | go/internal/agy/hook.go:1340-1359 | a record is in the snapshot if and only if it is owing and fewer than 100 owing records of lower id precede it |
| `WakeBatches.CandidatesExactly` | go/internal/agy/hook.go:1248-1335 | the candidates are, in id order, exactly the records the daemon listed last, or else kept, that are above the cursor, of another terminal and this session, still listed or live, and not presented |
| `WakeBatches.HandedOverExactly` | go/internal/agy/hook.go:990-1119 | a take hands over exactly the candidates that are outcomes among all candidates |
| `WakeBatches.TakeOfOutcomes` | go/internal/agy/hook.go:1086-1119 | with an outcome: all are handed over and delivered, the suppressed are parked, both are presented, the deferred are noted, nothing is acknowledged, and the snapshot holds the hundred lowest eligible records still waiting |
| `WakeBatches.TakeOfSuppressed` | go/internal/agy/hook.go:1049-1084 | without one: the suppressed are acknowledged as far as nothing deferred or delivered is below, the others parked |
| `WakeBatches.SettleExactly` | go/internal/agy/hook.go:1060-1078 | behind an ack refused for now nothing happens; before it every suppressed id is sent if it may go and held if not; exactly the held and the not refused ones are presented |
| `WakeBatches.TakeOfNothing` | go/internal/agy/hook.go:1010-1034 | without a candidate: exactly the deliveries that are neither eligible nor just withheld are dropped, the snapshot is freshened, and the file is written exactly if something changed |
| `WakeBatches.PeekFindsExactly` | go/internal/agy/hook.go:847-982 | a peek reports outcomes and deferrals exactly if its copy has such candidates, and supersession exactly if turn, waiter epoch or pid is another's |
| `WakeBatches.PeekOfCandidates` | go/internal/agy/hook.go:909-977 | what a peek with candidates acknowledges, presents, parks and keeps, going by its copy and the file it re-reads |
| `WakeBatches.InvocationBegins` | go/internal/agy/hook.go:416-435 | a turn begins exactly when the last one ended, a waiter is recorded, none was counted or the host says so; it gets the next number and forgets the waiter |
| `WakeBatches.InvocationWithoutScope` | go/internal/agy/hook.go:437-471 | without the scope an invocation drops everything owed or kept and leaves what was presented |
| `WakeBatches.StopEnds` | go/internal/agy/hook.go:550-605 | a Stop ends the turn; a kept waiter gets the next number and is the recorded one |
| `WakeBatches.AbnormalStopReopens` | go/internal/agy/hook.go:489-509 | a broken-off turn makes exactly what it was handed injectable again |
| `HookSession.Runner.FlushDeliveredAcks` | go/internal/agy/hook.go:705-815 | computes the specified flush on the session object, the state file and the cursor |
| `HookSession.Runner.FlushEach` | go/internal/agy/hook.go:736-801 | the loop with its break computes the specified split |
| `HookSession.Runner.ResolveMinHoldback` | go/internal/agy/hook.go:1438-1478 | the lowest deferred or projected candidate id, unbounded when there is none, also on its early returns |
| `HookSession.Runner.TakeNextWakeBatch` | go/internal/agy/hook.go:990-1119 | computes the specified take: batch, session, cursor, and whether the file is written |
| `HookSession.Runner.PeekNextWakeBatch` | go/internal/agy/hook.go:847-982 | computes the specified peek on the caller copy and the file, writing nothing when superseded |
| `HookSession.Runner.SettleEach` | go/internal/agy/hook.go:1060-1082 | acks suppressed ids in order, holds those above the bound, stops at the first recoverable failure |
| `HookSession.Runner.Poll` | go/internal/agy/hook.go:847-982 | moves the system by the waiter's Poll step, on the copy the waiter holds |
| `HookSession.Runner.RearmBatch` | go/internal/agy/hook.go:1491-1507 | moves the system by the re-arm step and notes what may be cleared |
| `HookSession.Runner.Clear` | go/internal/agy/hook.go:1178-1199 | moves the system by the clearing step |
| `HookSession.Runner.RunPreInvocation` | go/internal/agy/hook.go:410-484 | moves the system by the PreInvocation step and injects the step's batch |
| `HookSession.Runner.RunStop` | go/internal/agy/hook.go:511-615 | moves the system by the Stop step and returns the step's batch |
| `HookSession.Runner.RunAbnormalStop` | go/internal/agy/hook.go:489-509 | moves the system by the abnormal Stop step |
| `Projection.ProjectOutcomes` | go/internal/agy/hook.go:1520-1662 | the four passes give each event exactly the verdict it has against the whole candidate list |
| `Projection.ProjectionPartitions` | go/internal/agy/hook.go:1520-1662 | distinct input ids are partitioned into outcomes, deferred and suppressed |
| `Projection.CompletedOutcomeExactly` | go/internal/agy/hook.go:1564-1662 | a terminal gets a completed outcome if and only if it is not working and some completion of it is usable, and then its greatest usable one |
| `Projection.ReportExactly` | go/internal/agy/hook.go:1774-1818 | an event that is no completion is presented if and only if it has a terminal, does not stand in for a completion of its pane, and is blocked, a failure that is not just waiting or degraded, or such a discard; and as what |
| `Projection.CompletionExactly` | go/internal/agy/hook.go:1564-1662 | a completion waits exactly while its terminal works, and otherwise is presented if and only if it has a terminal and a text, stands in for none and nothing newer supplants it |
| `Projection.OutcomesTellExactly` | go/internal/agy/hook.go:1600-1662 | the outcomes tell id, kind, terminal and text of exactly the presented events, in their order |
| `Projection.AtMostOneCompletion` | go/internal/agy/hook.go:1564-1662 | at most one completed outcome per terminal; none for a working peer, an empty text or a toolUse idle |
| `Projection.FallbackCompletionExactly` | go/internal/agy/hook.go:1544-1662 | a completion that itself carries the fallback flag is covered by itself if and only if its pane and generation are known; without them it is presented exactly if it has a text, an idle terminal and no newer usable completion |
| `Projection.TablesDecide` | go/internal/agy/hook.go:1544-1600 | the tables the first passes build decide every live event as the definition over the whole list does |
| `Projection.OutcomeIdsArePresented` | go/internal/agy/hook.go:1600-1662 | the outcome list carries exactly the ids judged presentable |
| `WakeView.MergeKnownUnacked` | go/internal/agy/hook.go:1248-1280 | the daemon's copy of an id wins; acknowledged, own and foreign-session records are dropped |
| `WakeView.ResolveEligible` | go/internal/agy/hook.go:1383-1408 | one peer view gives the eligible records and the working terminals |
| `WakeView.RetainWakeCandidates` | go/internal/agy/hook.go:1340-1359 | the loop that stops at the limit keeps exactly the 100 lowest owing records |
| `WakeView.RetainedRebuildsOwing` | go/internal/agy/hook.go:1248-1359 | when the daemon lists nothing the next merge rebuilds the owing records above the cursor; beyond 100 the lowest ids survive |
| `WakeWaiter.StandBy` | go/internal/agy/wake_waiter.go:82-208 | over its life a waiter types at most three prompts, at most one succeeds and is the last; each belongs to an iteration of its own, in order, and is justified by that iteration's check and by its poll, or its verification if a batch was delivered already, both steps of its history; of the iterations it reaches none that finds a fresh batch and nothing in its way goes by without a prompt, and no two in a row that find an injectable delivered one; it ends early only for a listed reason |
| `WakeWaiter.WakeWaiter.WakeHost` | go/internal/agy/wake_waiter.go:309-428 | adds at most one prompt, justified by this iteration; a delivered batch is prompted for only after re-arming and verifying; an empty verification leaves none of the re-armed ids delivered, unless the waiter is superseded |
| `WakeWaiter.WakeWaiter.Iterate` | go/internal/agy/wake_waiter.go:224-500 | an iteration types exactly one prompt if it polls and one is due (way clear, and a fresh outcome, or a delivered batch past its grace poll, or with outcomes, that verifies), and else none; it leaves behind what calls for the next poll; it ends the loop only for a listed reason, and always when turn or waiter moved on |
| `WakeWaiter.WakeWaiter.Settle` | go/internal/agy/wake_waiter.go:452-475 | an idle waiter ends if and only if in exitWhenNoPeers mode, and after the settle grace if peers were seen |
| `WaiterRuns.HistoryIsRun` | go/internal/agy/wake_waiter.go:224-428 | what a waiter did, with what the others did filled in, is a run of the protocol up to every point of its history |
| `WaiterRuns.PromptFollowsRearm` | go/internal/agy/wake_waiter.go:354-371 | in its history a prompt for a batch delivered before follows the re-arm of that batch |
| `WaiterRuns.PromptDeliversBatch` | go/internal/agy/wake_waiter.go:354-396 | the turn a prompt starts is handed exactly the batch the prompt rests on, if nobody commits between the read and the peek |
| `WaiterGenerations.EpochsNeverFall` | go/internal/agy/hook.go:422-435 | over every run the turn epoch never decreases and a waiter epoch always equals it |
| `WaiterGenerations.StepEpochs` | go/internal/agy/hook.go:563-605 | one step keeps the epochs in agreement, and only raises the turn when it changes the waiter |
| `WaiterGenerations.OldWaiterStaysSuperseded` | go/internal/agy/hook.go:1413-1429 | a waiter of a past epoch is superseded in every later state |
| `WaiterGenerations.SupersededWaiterWritesNothing` | go/internal/agy/hook.go:847-982 | a superseded waiter leaves the state file as it is and its iteration ends, but for a re-arm that an earlier check allowed |
| `WaiterGenerations.LeftGenerationNeverMatches` | go/internal/daemon/agy_wake_rearm.go:313-334 | a parked generation left by a new epoch never matches again |
| `WaiterGenerations.NewTurnLeavesGeneration` | go/internal/agy/hook.go:422-435 | every turn on a parked session and every Stop that keeps a waiter is such a new epoch |
| `WaiterGenerations.StateFile.UpdateWaiterPid` | go/internal/daemon/agy_wake_rearm.go:342-391 | only the pid is written, and only while the generation read still matches |
| `WaiterGenerations.RearmOne` | go/internal/daemon/agy_wake_rearm.go:188-292 | a waiter is spawned exactly for a parked session without a live waiter that still stands as read (awaiting, epoch, pid), and recorded exactly if it stands with the pid cleared, else killed; the file is written accordingly |
| `WaiterGenerations.RearmAgyWaiters` | go/internal/daemon/agy_wake_rearm.go:149-295 | every session of distinct files ends as the re-arm of one session leaves it, and the count is the recorded ones |
| `WaiterGenerations.RecordedWaiterIsTheOne` | go/internal/daemon/agy_wake_rearm.go:264-292 | the recorded waiter is accepted by its session and no other waiter is |
| `EventTable.ReachableTablesAreSound` | go/internal/db/agent_events.go:325-383 | every reachable table: acked and failed rows are not deliverable, pending and delivered ones are, delivered rows have an attempt, a terminal and an attempt time, pending rows fewer than ten attempts, failed rows ten or more |
| `EventTable.DoneRowsNeverChange` | go/internal/db/agent_events.go:426-656 | over every run acked and failed rows never change, they can only be purged, and their id is never reused |
| `EventTable.ApplyKeepsInv` | go/internal/db/agent_events.go:891-1108 | each write keeps the table sound and the idempotency keys unique |
| `EventTable.WriteIsSound` | go/internal/db/agent_events.go:891-1108 | each write keeps a row's session, workspace and key and leaves done rows alone |
| `EventTable.WriteIssuesNoOldId` | go/internal/db/agent_events.go:325-383 | a row appears only by an append of an unknown key, under a fresh id |
| `EventTable.TextLessExactly` | go/internal/db/agent_events.go:485-497 | generations are ordered as SQLite orders texts: at the end of the common beginning |
| `EventStore.AgentEventStore.InvalidatePane` | go/internal/db/agent_events.go:426-530 | the three ordered statements equal one per-row function of the old table and the consumed flag |
| `EventStore.StepsAreCloseRow` | go/internal/db/agent_events.go:426-530 | the statements seen by one row are that function |
| `EventStore.CloseSettlesIncarnation` | go/internal/db/agent_events.go:485-530 | a row in flight of the closed pane, of its incarnation, an older one or an unknown one, is acked if a user's close finds it was handed out and else invalidated; every other row is untouched unless left before |
| `EventStore.NewlyRetainedExactly` | go/internal/db/agent_events.go:498-530 | a row becomes deliverable if and only if nothing was consumed and it is a fresh same-incarnation working completion or an unattempted failure |
| `EventStore.SecondCloseResurrects` | go/internal/db/agent_events.go:516-524 | closing twice is not closing once: a concrete table where the second close retains what the first settled |
| `EventStore.AgentEventStore.ReservePending` | go/internal/db/agent_events.go:891-958 | marks exactly the reserved rows, lowest ids first |
| `EventStore.ReserveTakesLowest` | go/internal/db/agent_events.go:891-958 | only rows that are due, or in flight with this terminal for less than five minutes, are taken, the lowest first up to the limit; only rows not in flight cost an attempt, and no other row changes |
| `EventStore.ReserveTakesSome` | go/internal/db/agent_events.go:891-958 | nothing is reserved if and only if nothing may be |
| `EventStore.AgentEventStore.ReclaimDelivered` | go/internal/db/agent_events.go:964-1079 | the two updates equal one per-row function |
| `EventStore.ReclaimExactly` | go/internal/db/agent_events.go:964-1079 | a row in flight stays with an owner that holds a scope, returns to pending or fails after ten attempts in a pane that stands without one, and is invalidated some time after its last attempt in a pane that is gone |
| `EventStore.PendingHandedOutTenTimes` | go/internal/db/agent_events.go:891-1052 | over every run a pending row is handed out at most ten times, whatever reclaims return it to pending |
| `EventStore.AgentEventStore.AppendEvent` | go/internal/db/agent_events.go:325-383 | an idempotency key in use inserts nothing |
| `EventStore.AgentEventStore.MarkAcked` | go/internal/db/agent_events.go:1092-1108 | with a scope everything of it up to the id is settled, without one that row |
| `EventStore.AppendExactly` | go/internal/db/agent_events.go:325-383 | an append adds the row, pending and untried, unless a row of the session has its key |
| `EventStore.AcksExactly` | go/internal/db/agent_events.go:624-640 | which rows the three acks reach, and that no other row changes |
| `EventStore.PurgesExactly` | go/internal/db/agent_events.go:588-620 | the purges delete exactly the rows that are through and old enough |
| `Reconciler.AgentEventReconciler.Sweep` | go/internal/daemon/agent_event_reconciler.go:215-306 | the paged loop looks at every row in flight once, yields the row-by-row image of the table, and gets there by single-row writes of the table |
| `Reconciler.AgentEventReconciler.ListReconcileCandidates` | go/internal/db/agent_events.go:534-547 | a page is the lowest candidates after the cursor |
| `Reconciler.SweepExactly` | go/internal/daemon/agent_event_reconciler.go:228-303 | what becomes of every row: kept if its incarnation lives or its session does not run; else retained only as a never-handed-out failure, or as a completion of 1970 whose pane name is gone; else deleted |
| `Reconciler.SweepKeepsUndeliveredFailures` | go/internal/daemon/agent_event_reconciler.go:452-457 | a never-delivered agent.failed row survives the sweep, deliverable |
| `Reconciler.SweepKeepsInv` | go/internal/daemon/agent_event_reconciler.go:215-306 | the sweep keeps the table sound and leaves settled rows alone |
| `OrchestratorScopes.ScopeStore.Claim` | go/internal/db/agent_orchestrator_scopes.go:362-421 | claims set pane and terminal together with the given cursor, refused exactly when another connected terminal owns the scope or its owner is corrupt |
| `OrchestratorScopes.ScopeStore.Ack` | go/internal/db/agent_orchestrator_scopes.go:323-357 | only the owner moves the cursor and only forward |
| `OrchestratorScopes.ScopeStore.MoveOwner` | go/internal/db/agent_orchestrator_scopes.go:273-319 | source released and target claimed in one step, or neither |
| `OrchestratorScopes.ScopeStore.ReleaseIfOwner` | go/internal/db/agent_orchestrator_scopes.go:227-268 | exactly the owner terminal releases, and the cursor is preserved |
| `OrchestratorScopes.ScopeStore.ReleaseIfOwnerIdentity` | go/internal/db/agent_orchestrator_scopes.go:180-223 | pane and terminal must both match |
| `OrchestratorScopes.ScopeStore.ReleaseIfStaleOwner` | go/internal/db/agent_orchestrator_scopes.go:120-158 | released exactly when the owner's pane or terminal is gone |
| `CursorSafety.PassedRowsAreSettled` | go/internal/observability/agent_orchestrator_service.go:599-624 | over every run of writes, claims, acks, moves and releases each row of a scope that its cursor passed in its term is settled or gone, unless a close resurrected one |
| `CursorSafety.CloseIsSafeExactly` | go/internal/db/agent_events.go:516-530 | a close breaks that if and only if it consumes nothing and finds, at or below a cursor, a row left with its reason that is worth keeping |
| `CursorSafety.SecondCloseBreaksSafety` | go/internal/db/agent_events.go:516-530 | the run from an empty daemon at which a second close of a pane breaks it |
| `CursorSafety.SettledStays` | go/internal/db/agent_events.go:1092-1108 | every write but a close keeps a settled row settled, a close exactly unless it brings it back |
| `CursorSafety.AckKeepsSafe` | go/internal/observability/agent_orchestrator_service.go:598-629 | an ack passes no row of the scope that is not settled |
| `CursorSafety.AckSettlesExactly` | go/internal/observability/agent_orchestrator_service.go:598-629 | an ack that moves the cursor settles exactly the rows of the scope up to it; any other ack leaves the scopes alone and changes at most the one acked row of a sibling workspace |
| `CursorSafety.RunStaysSane` | go/internal/db/agent_orchestrator_scopes.go:362-432 | cursors stay between their base and the ids issued, and owner pane and terminal are set or cleared together |
| `CursorSafety.CursorNeverDecreases` | go/internal/observability/agent_orchestrator_service.go:694-712 | the cursor never decreases while its scope row exists, across claims, moves and releases |
| `CursorSafety.StepKeepsCursor` | go/internal/db/agent_orchestrator_scopes.go:323-357 | only its owner's ack of an event of that workspace moves a cursor, to that event |
| `CursorSafety.ClaimExactly` | go/internal/observability/agent_orchestrator_service.go:189-211 | a claim is refused exactly if another connected terminal owns the scope; a known scope goes on at its cursor, an unknown one starts behind every event so far |
| `CursorSafety.MoveExactly` | go/internal/observability/agent_orchestrator_service.go:662-686 | only the owner moves; the source is free with its cursor, the target owned from its starting point |
| `CursorSafety.ReleaseExactly` | go/internal/db/agent_orchestrator_scopes.go:120-268 | which releases free a scope; the cursor stays |
| `OrchestratorService.AgentOrchestratorService.Claim` | go/internal/observability/agent_orchestrator_service.go:189-211 | moves the daemon by the claim step: an existing row keeps its cursor, a first claim starts at the latest event |
| `OrchestratorService.AgentOrchestratorService.Ack` | go/internal/observability/agent_orchestrator_service.go:496-629 | moves the daemon by the ack step, both stores together |
| `OrchestratorService.AgentOrchestratorService.Move` | go/internal/observability/agent_orchestrator_service.go:662-686 | moves the daemon by the move step |
| `AgentIndex.AgentStore.ReplaceForSession` | go/internal/db/agents.go:110-324 | no statement is refused under the scan's promise; a refused one rolls everything back |
| `AgentIndex.PlacedIsUnique` | go/internal/db/agents.go:182-270 | after every statement pane and terminal are unique per session, whichever way the snapshots are matched |
| `AgentIndex.AnyMoveIsUnique` | go/internal/db/agents.go:166-187 | the temporary names keep the indexes unique in any order |
| `AgentIndex.NextWriteIsFree` | go/internal/db/agents.go:189-270 | the next row written clashes with no row in place |
| `AgentIndex.OneRowPerSnapshotExactly` | go/internal/db/agents.go:110-324 | each snapshot has its row, with its pane, terminal, workspace and agent, seen now, first seen as before, its generation or the old one, and the old hint for the same agent or family, if and only if the matching is injective; the session has no other row |
| `AgentIndex.MatchingIsInjectiveExactly` | go/internal/db/agents.go:130-163 | the matching collapses two snapshots if and only if one has the terminal of the row in whose pane the other, terminal-less one sits |
| `AgentIndex.TwoSnapshotsCanCollapse` | go/internal/db/agents.go:145-155 | a concrete scan with distinct panes and terminals that collapses |
| `AgentIndex.TerminalKeepsItsId` | go/internal/db/agents.go:133-144 | a still-reported terminal keeps its agent id across pane and workspace moves, and its row has the snapshot's columns |
| `AgentIndex.PaneKeepsItsId` | go/internal/db/agents.go:145-160 | a pane keeps its agent id when the terminal is unknown, one side has none and the generations do not contradict |
| `AgentIndex.OthersAreNew` | go/internal/db/agents.go:225-270 | any other snapshot is a new agent |
| `AgentIndex.OtherSessionsUntouched` | go/internal/db/agents.go:302-318 | rows of other sessions are exactly as before |
| `AgentIndex.AgentStore.MatchSnapshots` | go/internal/db/agents.go:110-163 | the loop over two lookup tables computes the matching |
| `SendQueue.QueueKeepsOrder` | go/internal/daemon/observability_server_handlers.go:69-192 | under any interleaving at most one drainer lives, a non-empty queue has one, the peer sees a prefix of the enqueue order, and a live connection loses nothing |
| `SendQueue.AcceptedIsEnqueued` | go/internal/daemon/observability_server_handlers.go:86-112 | what counts as accepted is what was enqueued on the live connection, in order |
| `SendQueue.IdleMeansDelivered` | go/internal/daemon/observability_server_handlers.go:129-160 | when nothing runs on a live connection every accepted frame was written |
| `SendQueue.ClearedStaysEmpty` | go/internal/daemon/observability_server_handlers.go:162-172 | a cleared destroyed connection stays empty and writes at most the frame in flight |
| `SendQueue.StepKeepsInv` | go/internal/daemon/observability_server_handlers.go:69-192 | each lock region keeps the queue invariant |
| `SendQueue.RpcConnection.EnqueueMessage` | go/internal/daemon/observability_server_handlers.go:86-112 | appends and claims the drain in one critical section |
| `SendQueue.RpcConnection.DrainNext` | go/internal/daemon/observability_server_handlers.go:132-144 | takes the oldest frame or hands the ownership back |
| `SendQueue.RpcConnection.WriteFrame` | go/internal/daemon/observability_server_handlers.go:183-194 | a failed or refused write leaves the connection destroyed |
| `TurnRegistry.EveryReachableRegistryIsSound` | go/internal/observability/turn_completion.go:112-250 | under any order of records, waits, timeouts and aborts each wait is pending or answered, an answer comes from a new enough signal of its terminal that answers nobody else, and no wait is parked beside such a signal |
| `TurnRegistry.RecordReachesOne` | go/internal/observability/turn_completion.go:112-141 | a recorded signal answers exactly one wait that it is new for, with its text, if there is one, and is kept for the next otherwise |
| `TurnRegistry.RecordRetainsExactly` | go/internal/observability/turn_completion.go:255-272 | the signals of other terminals are kept if and only if they are not older than the cutoff |
| `TurnRegistry.SignalIsKept` | go/internal/observability/turn_completion.go:112-272 | over every run a signal goes away only by answering a wait, by a newer one of its terminal, or by being older than the cutoff of a record |
| `TurnRegistry.AskExactly` | go/internal/observability/turn_completion.go:144-182 | who asks is answered at once by a new enough signal, else empty-handed if aborted, else parked |
| `TurnRegistry.ResolvedExactlyOnce` | go/internal/observability/turn_completion.go:213-241 | an answer is final |
| `TurnRegistry.GiveUpResolves` | go/internal/observability/turn_completion.go:184-205 | a timeout or abort answers its wait |
| `TurnRegistry.WakeAllMissesNone` | go/internal/observability/turn_completion.go:131-141 | the wake loop, in any order, leaves no listed waiter beside a signal new for it |
| `TurnRegistry.StoredIsSound` | go/internal/observability/turn_completion.go:112-130 | storing and pruning disturbs no answer |
| `TurnRegistry.TurnCompletionRegistry.RecordSignal` | go/internal/observability/turn_completion.go:112-141 | record is one step of the registry |
| `TurnRegistry.TurnCompletionRegistry.WaitForSignal` | go/internal/observability/turn_completion.go:144-182 | asking is one step of the registry |
| `TurnRegistry.TurnCompletionRegistry.FinishLocked` | go/internal/observability/turn_completion.go:213-241 | a wait is resolved at most once |
| `WireFormat.MessageRoundTrip` | go/internal/agenthistory/antigravity_proto.go:135-197 | parseFields inverts the encoder on every list of legal fields, fixed-width payloads erased |
| `WireFormat.VarintRoundTrip` | go/internal/agenthistory/antigravity_proto.go:208-222 | readVarint inverts the base-128 encoding of every 64-bit value at any offset |
| `WireFormat.VarintAcceptedExactly` | go/internal/agenthistory/antigravity_proto.go:208-222 | exactly the complete varints of at most 64 bits are read, and the value fits 64 bits |
| `WireFormat.ReadVarint` | go/internal/agenthistory/antigravity_proto.go:208-222 | the accumulating loop computes the varint |
| `WireFormat.ParseFields` | go/internal/agenthistory/antigravity_proto.go:135-197 | the loop yields the fields of a whole message and none of a broken one |
| `WireFormat.SpansAreOrdered` | go/internal/agenthistory/antigravity_proto.go:165-184 | payload spans are in bounds, in order and disjoint, and a content field is its span |
| `WireFormat.NestedIsShorter` | go/internal/agenthistory/antigravity_proto.go:306-315 | a nested payload is at least two bytes shorter than its container |
| `WireTexts.StringsIn` | go/internal/agenthistory/antigravity_proto.go:306-329 | terminates, and returns every non-blank text at any depth with its multiplicity, longest first and equally long ones in message order |
| `WireTexts.OrderIsUnique` | go/internal/agenthistory/antigravity_proto.go:306-329 | those conditions leave exactly one list |
| `WireTexts.PathIsAmongTexts` | go/internal/agenthistory/antigravity_proto.go:243-329 | every text a path finds is among the texts at any depth |
| `WireTexts.TextAtPath` | go/internal/agenthistory/antigravity_proto.go:243-263 | follows the first matching length-delimited field at each step |
| `WireTexts.PathFindsWrapped` | go/internal/agenthistory/antigravity_proto.go:243-263 | a text wrapped along a path of fields is found by that path |
| `JsonSeparators.RestoreSeparators` | go/internal/agy/hook.go:79-113 | the backslash-run scan, with its early return, equals token-by-token replacement |
| `JsonSeparators.ValueIsKept` | go/internal/agy/hook.go:69-78 | the decoded value of every JSON string is unchanged, and no malformed string becomes well-formed |
| `JsonSeparators.NoRealEscapeLeft` | go/internal/agy/hook.go:75-78 | no escape of U+2028 or U+2029 behind an even run of backslashes is left |
| `JsonSeparators.NothingToRestore` | go/internal/agy/hook.go:80-82 | the early return changes nothing |
| `JsonSeparators.ScanRun` | go/internal/agy/hook.go:91-110 | one run of backslashes of any length is rewritten as its tokens are |
| `EventScan.NextDeliverableAfter` | go/internal/db/agent_events.go:801-886 | the paged scan returns the lowest row that filter and validation accept, exactly if fewer than 50,000 filtered rows precede it |
| `EventScan.WantedExactly` | go/internal/db/agent_events.go:80-886 | with a live index the scan looks for exactly the owed rows of the scope that stand alone or whose agent is alive in their pane, generation and workspace, and that have something to show |
| `EventScan.WantedWithoutIndex` | go/internal/db/agent_events.go:801-870 | without one it takes a row with an agent if it stands alone or its agent is indexed in its pane |
| `EventScan.FilterIsTheDeliveryPredicate` | go/internal/db/agent_events.go:80-164 | with a live index filter and validation together are the delivery predicate plus the redelivery window |

## Left out

- State-file races inside one commit: a hook event reads, decides and writes the state file as one step, and so does each single commit of a waiter (the acks of a peek go with the write behind them). A hook event that overwrites a commit made between its own read and write is not modelled. Between its commits a waiter is interleaved with everything else.
- Auto-claim, the dispatched-subagent early returns and the turn-completed notification of the hook; a failed registration is the case without a connection state.
- A post-ack `agent.orchestrator.get` answer that cannot be decoded: it is treated like a failed call. A state the daemon reports to a hook event is taken to carry its real cursor, one reported to a waiter at most that.
- Id lists are sorted and duplicate-free in the source and are sets here; the retained snapshot is sorted by id and is a map; the order of suppressed ids matters only to the settle loop, which takes them sorted.
- Text normalisation, the upstream-error flag and log, rendering of the update text, transcript scanning and composer-draft parsing: the projection sees the normalised excerpt, the flush the set of confirmed ids, the waiter whether there is a draft.
- The completed-pane key joins pane and generation with a NUL character, the turn registry's key session and terminal; here they are pairs.
- Epochs are JavaScript numbers in the state file and naturals here.
- The daemon's sibling-workspace listing, the delivery checks and the next-deliverable check inside `ack`: CursorSafety and OrchestratorService take the siblings and the outcome of those checks as inputs of the command.
- SQL text, NULL columns that no statement reads, JSON columns, migrations and the SQLite gate; a table is a map from id to row, an update statement replaces the matching rows at once, and a transaction is atomic. Foreign-key effects on `agent_id` are not modelled.
- The logical clock and its persistence: each operation takes the time as an input, and the scan one clock reading for all its pages. The delivery predicate reads the wall clock, which is taken to be the same reading.
- EventScan.IsDeliverable: a row with a live agent and no pane id makes the source dereference a nil pointer; here it is not deliverable.
- AgentIndex keeps the columns that matching and carrying over read; status, titles, tombstones, context snapshots and the event invalidation of removed panes are left out of the replacement.
- Reconciler: history caches, status plans, scope release and the shutdown signal of `Reconcile`; only the candidate sweep is modelled there, the purges and releases in EventTable and OrchestratorScopes.
- SendQueue: encoding failures drop a frame before it is accepted; write deadlines and the socket are the outcome of a write.
- WireFormat: values are the 64 bits as a natural number, not the signed reading; or-ing seven fresh bits in is adding them. UTF-8 validation, blank tests and UTF-16 lengths are parameters of WireTexts.
- JsonSeparators works on characters where the source works on UTF-8 bytes; only ASCII characters and the two separators are inspected.
- Process spawning, /proc probes, signals, sockets, RPC framing, YAML configuration, command-line rendering and the watch manager.
