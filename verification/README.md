# Verification model of the bridge

A Dafny 4.11 model of the bridge's small concurrent protocols, stateful objects and byte formats, with
proofs about every run or every input. Each module follows one part of the bridge:

- `PaneQueue`, `PaneWriters`, `Paste`: writing to a terminal pane. A promise-chain lock keeps multi-write
  replies apart, writers pace their writes, and long text is typed as bracketed pastes.
- `Gate`: the bounded scheduler for git processes.
- `PatchCut`: cutting a patch at whole hunks.
- `StateEngine`: the status hold, transitions, and the link that absorbs one time-out.
- `EventPoker`: the event stream's reconnects, backoff and rejected subscriptions.
- `HerdrReads`: shared pane reads that never show a screen older than a write, and line framing.
- `Zip`, `ZipPlan`: the stored ZIP writer read back by an independent reader, and what goes into a zip.
- `Cbor`, `WebAuthn`: the CBOR reader against an independent encoder, authenticator data, challenges.
- `ModuleClosure`: reachability by static imports.
- `Notifications`, `Activity`, `Audit`, `Push`: stateful objects with properties of whole runs.
- `EnvMerge`: in-place merging of `.env` files.
- `OrderedMap`, `ByteStrings`, `Texts`, `Options`: what several modules share.

Where the source waits for something (a timer, a promise, a file operation, another write), the model has
an event, and a run is any sequence of events, so every interleaving and every failure is covered. A `State`
value with `Step` and `Run` says what happens; a class with the source's fields and loops is proved to take
those steps; lemmas about `Run` state what the source promises. The `Valid()` of a class holds the invariant
of all runs, mostly by saying that the fields are what a ghost history makes of a fresh object. Laws speak in
constructors, numbers and observers of their own, not through the function they are about. Clocks, random
tokens, file contents, what a server answers and how text is decoded are parameters or events.

What the proofs found about the code, each with the condition under which it happens:

- An old assignment stays in the `.env` file beside the new one exactly when its value holds a line terminator,
  such as the carriage return of foreign line ends, or when it stands behind more than one comment mark, contrary
  to the promise that none stays (`EnvMerge.OldValueStaysExactly`, `EnvMerge.CarriageReturnKeepsOldValue`,
  `EnvMerge.TwoMarksKeepOldValue`).
- Health and a backoff reset do not vouch for the current event stream after a changed pane set or a restart
  (`EventPoker.HealthVouchesExactly`, `EventPoker.ResetVouchesExactly`, with a run for each cause).
- A refused subscription does not always leave the request, and then it is asked for after every refusal, with a
  wait each time. A refused pane leaves exactly when it is the first one listed or the reason does not contain
  the id of the first one listed: `w1:p10` behind `w1:p1` never does, and `w1:p1` is dropped for it
  (`EventPoker.RefusedPaneLeavesExactly`, `EventPoker.RefusalsConvergeExactly`, `EventPoker.TenthPaneIsNeverDropped`);
  when the reason does not contain it, every pane is dropped (`EventPoker.OnlyRefusedPaneDroppedExactly` says when
  that is the refused one alone). A refused global type leaves exactly when the reason names no type that goes
  before it (`EventPoker.RefusedKindLeavesExactly`, `EventPoker.MovedIsNeverDropped`).
- The throttled ledger answers differently from an eager one exactly when a pane moves at the reading of a look
  it skipped (`Activity.AlikeThroughoutExactly`, `Activity.EqualReadingsDiffer`).
- `keepWholeHunks` drops a whole last hunk exactly when the header behind it was cut short
  (`PatchCut.KeptExactlyWhenHeaderRead`, `PatchCut.WholeHunkIsDropped`).
- A paste seam can split a surrogate pair in ill-formed text, and the loop needs a cap of two
  (`Paste.SeamsSplitNoPair`, `Paste.IllFormedPairIsSplit`, `Paste.CutAdvancesExactly`).

`dafny verify dfyconfig.toml` checks the project.

## Model

| member | source | states |
|---|---|---|
| PaneQueue.WritesNeverInterleave | bridge/pane-queue.ts:27-58 | over every run of arrivals, turns, time-outs, writes, refusals and clean-ups, what a pane receives is, ticket by ticket in arrival order, a prefix of each ticket's plan; a ticket that gave up contributes nothing |
| PaneQueue.NoOvertaking | bridge/pane-queue.ts:30-55 | a ticket runs only after every earlier ticket of its pane was released with no write in flight, even when tickets between them timed out |
| PaneQueue.TailResolvedMeans | bridge/pane-queue.ts:36-37 | a tail resolves exactly when every ticket it chains back to is released |
| PaneQueue.TurnDependsOnOwnPane | bridge/pane-queue.ts:31-37 | a ticket's turn has come exactly when all earlier tickets of its own pane are released |
| PaneQueue.AbsentMeansReleased | bridge/pane-queue.ts:38-43 | a pane without a map entry has no unreleased ticket |
| PaneQueue.QueueDrains | bridge/pane-queue.ts:38-57 | from every reachable state all tickets can settle without a time-out, and then the map is empty |
| PaneQueue.StepUsesWork | bridge/pane-queue.ts:30-55 | every enabled event other than an arrival uses up work, so runs without arrivals end |
| PaneQueue.SomeEventEnabled | bridge/pane-queue.ts:30-74 | as long as a ticket is unsettled some event other than an arrival or a time-out is enabled: no deadlock |
| PaneQueue.StepKeepsInv | bridge/pane-queue.ts:30-55 | each event keeps the tickets, the map of tails and the log of writes in order |
| PaneQueue.TicketsAreTheCalls | bridge/pane-queue.ts:27-37 | over every run each call has its ticket, with its pane and its plan, and there are no others |
| PaneQueue.TurnRuns | bridge/pane-queue.ts:44-57 | once every earlier ticket of its pane has finished or given up a waiting one runs, with nothing written yet and nothing refused |
| PaneQueue.WritesOneAtATime | bridge/pane-queue.ts:50-57 | a ticket has one write in flight at most: all others it made are answered |
| PaneQueue.WritesUntilRefused | bridge/pane-queue.ts:50-57 | a ticket at its turn makes the next write of its plan exactly when none of its writes was refused, and none after a refusal |
| PaneQueue.NothingAfterRefusal | bridge/pane-queue.ts:50-57 | after a refused write of a ticket none of its later writes is made in any continuation of the run |
| PaneQueue.GivesUpForGood | bridge/pane-queue.ts:44-49 | a ticket that times out while it waits has given up for good and writes nothing in any run |
| PaneQueue.Queue.Enter | bridge/pane-queue.ts:31-37 | the map and the new ticket after a call arrives, as one step of the machine |
| PaneQueue.Queue.Release | bridge/pane-queue.ts:38-43 | releasing a ticket as one step of the machine |
| PaneQueue.Queue.Forget | bridge/pane-queue.ts:40-42 | the clean-up reaction: the entry goes only if it still is this ticket's tail |
| PaneQueue.Queue.GiveUp | bridge/pane-queue.ts:44-49 | a time-out releases the ticket without a write |
| PaneWriters.SendPaced | bridge/pane-write-routes.ts:181-191 | the writes and pauses made are the paced plan up to and with the refused write, all of it when none is refused |
| PaneWriters.SendKeysPaced | bridge/pane-write-routes.ts:181-191 | one write per key, in order, pauses of 80 ms taking turns with them, up to and with the first refused key |
| PaneWriters.WritesOfPaced | bridge/pane-write-routes.ts:181-191 | pacing leaves the writes and their order alone |
| PaneWriters.PacedNeverTouch | bridge/pane-write-routes.ts:187-190 | two writes of a paced plan are never adjacent |
| PaneWriters.SendReplySteps | bridge/pane-write-routes.ts:51-92 | what was done looks like a reply: non-empty texts, then keys with a pause of 350 ms right before each but a key that comes first; the texts joined are the pieces joined, and the keys the submit keys, all of them when sent and a prefix of them when refused; it is sent exactly when no write that there is was refused, and `textDelivered` is true exactly when a text was among the accepted writes |
| PaneWriters.ReplyWrites | bridge/pane-write-routes.ts:61-78 | a reply writes its non-empty pieces and then, when it submits, one write per submit key; the pause writes nothing |
| PaneWriters.ReplyLooks | bridge/pane-write-routes.ts:58-78 | the whole plan: every key write but the first action has a pause of 350 ms right before it, no text is empty and none comes after a key, the texts joined are the pieces joined, the keys the submit keys, and there are as many writes as non-empty pieces and keys |
| PaneWriters.NonEmptyKeepsPieces | bridge/pane-write-routes.ts:61-62 | of the pieces only the empty ones are left out |
| PaneWriters.TypeAndSubmit | bridge/pane-write-routes.ts:58-78 | the three loops make the plan up to the refused write, and a text was delivered exactly when there was one and its write was accepted |
| PaneWriters.ReplyDelivered | bridge/pane-write-routes.ts:54-66 | some text was accepted exactly when there is one and the first write was not the refused one |
| PaneWriters.TypedSegments | bridge/pane-write-routes.ts:205-219 | the segments stand for exactly the keys typed, in runs as long as they can be, and no writes of the same keystrokes are fewer |
| PaneWriters.CanonicalIsUnique | bridge/pane-write-routes.ts:205-219 | two such segmentations of the same keystrokes are equal, so the result is the only one |
| PaneWriters.CanonicalIsFewest | bridge/pane-write-routes.ts:205-219 | no list of typed runs and keys with the same keystrokes is shorter |
| PaneWriters.SendTypedKeys | bridge/pane-write-routes.ts:226-239 | the pane gets the keys as they were struck, a space for `Space`, all of them or a prefix when refused; plain characters go as text and other keys by name, one write each 80 ms, in the fewest writes |
| PaneWriters.TypedWrites | bridge/pane-write-routes.ts:205-234 | each write of typed input is a run of plain characters or one key that is no such character |
| PaneWriters.CutWritesPrefix | bridge/pane-write-routes.ts:58-91 | a plan cut off at a refusal has written a prefix of its writes: what the queue assumes of a writer |
| Gate.CapsHold | bridge/workdir-review.ts:178-208 | over every run of arrivals, completions and deadlines: running is the number of tasks and the sum of the per-repository counts, both caps and the queue bound hold |
| Gate.SumCountsTasks | bridge/workdir-review.ts:197-198 | the per-repository counters add up to the active tasks |
| Gate.PumpSaturates | bridge/workdir-review.ts:180-186 | after a pump, whenever a global slot is free every waiter's repository is at its cap |
| Gate.StartsInArrivalOrder | bridge/workdir-review.ts:180-205 | tasks of one repository start in the order in which they arrived |
| Gate.FastPathOvertakesNone | bridge/workdir-review.ts:200 | the immediate start passes by no waiter of its repository |
| Gate.EveryCallInOnePlace | bridge/workdir-review.ts:191-206 | each call is waiting, running or settled, and never two of them |
| Gate.SettledForGood | bridge/workdir-review.ts:190-206 | a settled call keeps its outcome |
| Gate.GateDrains | bridge/workdir-review.ts:180-198 | with caps above zero, from every moment of every run completions alone empty the gate, as many as calls are in it, and each of those calls then has run |
| Gate.SomebodyRuns | bridge/workdir-review.ts:180-200 | with caps above zero somebody runs whenever somebody waits |
| Gate.StepKeepsInv | bridge/workdir-review.ts:178-208 | each event keeps the counters, the order and work conservation |
| Gate.DeadlineMeans | bridge/workdir-review.ts:202-203 | for every state that runs reach: a deadline takes exactly its waiter out of the queue and answers `timeout`, leaves the order of the others and the tasks alone, and does nothing for a call that no longer waits |
| Gate.ArrivalMeans | bridge/workdir-review.ts:191-205 | an arriving call is late, starts, waits or is refused as busy, exactly by the tasks of its repository, all tasks and the waiters there are |
| Gate.CompletionMeans | bridge/workdir-review.ts:180-198 | a completion settles its call, frees one slot, leaves nobody waiting who could run, and passes by only waiters of repositories at their cap |
| Gate.PumpPassesFairly | bridge/workdir-review.ts:180-186 | whoever is passed by in a pump while a later call starts belongs to a repository at its cap |
| Gate.ProcessGate.PumpQueue | bridge/workdir-review.ts:180-186 | the pump's loop computes the pump of the machine |
| Gate.ProcessGate.Schedule | bridge/workdir-review.ts:191-205 | start at once, wait, busy or timeout, decided by the tasks and waiters there are, with queue, tasks and answers afterwards |
| Gate.ProcessGate.Completed | bridge/workdir-review.ts:198 | the call is settled as run and one slot given back; nobody is left waiting who could run, and whoever was passed by belongs to a repository at its cap |
| Gate.ProcessGate.Expire | bridge/workdir-review.ts:202-203 | a call that still waits leaves the queue and is answered with a time-out, the others keeping place and order; otherwise nothing changes; tasks are untouched either way |
| PatchCut.KeepWholeHunks | bridge/workdir-review.ts:128-138 | the result is the text up to its last boundary, or empty when it has none |
| PatchCut.KeptIsUnique | bridge/workdir-review.ts:128-138 | only one text meets that contract |
| PatchCut.KeepsToLastVisibleBoundary | bridge/workdir-review.ts:119-126 | for a prefix of a patch it is the last boundary of the whole patch whose header the prefix holds |
| PatchCut.LargerCapExtends | bridge/workdir-review.ts:122-126 | a larger cap only extends what is kept |
| PatchCut.BoundaryIsWhole | bridge/workdir-review.ts:118-121 | every boundary of a well-formed patch comes right after a whole hunk |
| PatchCut.WholeIsBoundary | bridge/workdir-review.ts:118-121 | the end of a whole hunk with something behind it is a boundary |
| PatchCut.KeepsWholeHunksOnly | bridge/workdir-review.ts:118-138 | every hunk kept from any prefix of a well-formed patch is complete |
| PatchCut.KeptExactlyWhenHeaderRead | bridge/workdir-review.ts:128-138 | what ends at a whole hunk is kept exactly when the header behind it was read in full; with that header cut short the hunk is dropped |
| PatchCut.WholeHunkIsDropped | bridge/workdir-review.ts:128-138 | any patch of one file with two hunks, stopped one character behind the first, is cut to nothing |
| PatchCut.TwoHunks | bridge/workdir-review.ts:128-138 | there is such a patch |
| StateEngine.HoldEqualsClosedForm | bridge/state-engine.ts:308-329 | over every history of polls the published status is `working` exactly when the raw one is, or while the resting streak directly follows a working poll and is less than 3 s old; otherwise the raw status; what counts as resting and how long is `StateEngine.PublishedExactly` |
| StateEngine.HoldUnderMonotoneClock | bridge/state-engine.ts:308-329 | with a clock that never runs back only the time since the streak's first poll counts |
| StateEngine.OnlyRestIsHeld | bridge/state-engine.ts:303-328 | over every history a pane that is blocked or working is published as such at once, whatever was published before |
| StateEngine.PublishedExactly | bridge/state-engine.ts:303-328 | over every history what is published of a live pane: `working` when it is, or when it was at a poll behind which it has only been idle, done or unknown, read at each of them less than 3000 ms after the first; else the status as read |
| StateEngine.HeldIsJustWorked | bridge/state-engine.ts:308-329 | the streak kept by the hold map is the one just described, with no mention of the map |
| StateEngine.VerdictsExactly | bridge/state-engine.ts:308-329 | one pass over distinct agents gives each of them that verdict |
| StateEngine.TransitionsFormAChain | bridge/state-engine.ts:539-558 | a pane's transitions link up: each changes the status and starts where the last ended, none fires at first sight, and each disappearance is announced once |
| StateEngine.ChangesAreExact | bridge/state-engine.ts:541-547 | one pass fires for each pane exactly the transition from its last published status |
| StateEngine.PollTells | bridge/state-engine.ts:541-558 | what a poll fires and removes is, for every pane, exactly what the history of polls says its listeners hear next |
| StateEngine.ListenersKeepUp | bridge/state-engine.ts:539-558 | a listener who knows a live pane's status after some poll and follows the events knows it after every later one |
| StateEngine.LinkEqualsClosedForm | bridge/state-engine.ts:578-616 | the link state is a function of the last outcomes: up after a success and at most one time-out since |
| StateEngine.LinkStepMeans | bridge/state-engine.ts:578-616 | what a poll's end reports, in terms of all outcomes: `up` and `down` exactly when the link state changes, `slow` exactly when a time-out was absorbed |
| StateEngine.LinkEventsAlternate | bridge/state-engine.ts:581-583 | connected and disconnected events strictly alternate |
| StateEngine.DownOnlyWhenGone | bridge/state-engine.ts:588-616 | the link goes down only on an error that is no time-out, or on the second time-out in a row |
| StateEngine.NoPokeLost | bridge/state-engine.ts:331-343 | a poke while started is followed by a poll that began after it |
| StateEngine.PokesArePolled | bridge/state-engine.ts:331-343 | over every run a poke of a started engine begins a poll at once or, with one in flight, as soon as that one has finished, whatever else comes short of a stop |
| StateEngine.StoppedBeginsNothing | bridge/state-engine.ts:295-301 | over every run a stopped engine begins no poll until it is started again |
| StateEngine.Engine.ApplyStatusHold | bridge/state-engine.ts:303-329 | a blocked or working agent passes as it is, and a resting one reads as `working` exactly while it has just worked, in the order given; the hold map is the one of the closed form |
| StateEngine.Engine.HoldAgents | bridge/state-engine.ts:311-328 | the loop gives each agent the verdict of its own entry and updates no other |
| StateEngine.Engine.Ticked | bridge/state-engine.ts:382-385 | the interval begins a poll exactly when the engine is started and none is in flight |
| StateEngine.Engine.Publish | bridge/state-engine.ts:541-558 | the transitions and removals fired and the new map of published statuses |
| StateEngine.Engine.PollSucceeded | bridge/state-engine.ts:541-583 | the engine stays what its polls make of it, each pane is told exactly what the history says, and the link is reported up exactly when it was down |
| StateEngine.Engine.PollFailed | bridge/state-engine.ts:588-616 | down is reported exactly when the link was up and this is no time-out right behind a good poll, slow exactly when it is one; the link then is what all outcomes say |
| StateEngine.Engine.PollEnded | bridge/state-engine.ts:617-624 | a poke that fell into the poll gets a poll that begins now; otherwise, or once stopped, none begins |
| StateEngine.Engine.PokeNow | bridge/state-engine.ts:336-343 | a poll begins at once, or is queued behind the one in flight; on a stopped engine nothing happens |
| StateEngine.Engine.StartPolling | bridge/state-engine.ts:287-293 | a stopped engine is started with a poll in flight, begun now unless one still is; a started one is left as it is |
| StateEngine.Engine.StopPolling | bridge/state-engine.ts:295-301 | nothing new begins once stopped |
| EventPoker.OneStreamOrOneTimer | bridge/event-poker.ts:122-188 | while started exactly one of the current stream and a reconnect timer exists, the timer armed with the last wait, and only the current handle is open |
| EventPoker.StaleCallbacksIgnored | bridge/event-poker.ts:154-187 | callbacks of a superseded stream change nothing but that its handle is closed |
| EventPoker.StoppedIsSilent | bridge/event-poker.ts:128-143 | after stop no poke, health change or reconnect happens |
| EventPoker.RejectionShrinksRequest | bridge/event-poker.ts:205-232 | a rejection that drops something new strictly shrinks the next request, and the same rejection again drops nothing: what is still asked for after the first is asked for after any number |
| EventPoker.BestMatchIsLongest | bridge/event-poker.ts:210-214 | nothing that the reason names is longer than the match |
| EventPoker.RefusedPaneLeavesExactly | bridge/event-poker.ts:199-227 | a refused pane leaves the request exactly when it is the first one listed or the reason does not contain the id of the first one listed |
| EventPoker.OnlyRefusedPaneDroppedExactly | bridge/event-poker.ts:216-227 | the refused pane and no other is dropped exactly when the reason contains the id of the first one listed and that is the refused one, or does not and nothing else is left to drop |
| EventPoker.LongerIdIsNeverDropped | bridge/event-poker.ts:217-221 | of two panes, the id of the second extending that of the first, a refusal of the second drops the first, and the same refusal again drops nothing |
| EventPoker.TenthPaneIsNeverDropped | bridge/event-poker.ts:217-221 | so it is with `w1:p1` and a refusal of `w1:p10` |
| EventPoker.RefusedKindLeavesExactly | bridge/event-poker.ts:210-230 | a refused global type leaves the request exactly when the reason names no longer type that is listed, and none as long that is listed before it |
| EventPoker.ListedTypeHidesRefused | bridge/event-poker.ts:210-230 | a refusal that also names a longer global type never drops the refused one |
| EventPoker.MovedIsNeverDropped | bridge/event-poker.ts:210-230 | so it is when `pane.moved` is refused and the reason goes on to name `workspace.created` |
| EventPoker.RefusedAgain | bridge/event-poker.ts:174-185 | refused any number of times in a row with one reason, the poker drops what the first refusal drops, and every other one, the first too when it drops nothing new, takes the backoff |
| EventPoker.RefusalsConvergeExactly | bridge/event-poker.ts:83-85 | refusals of a pane take it out of the request exactly under the condition above; else it is asked for after every one of them |
| EventPoker.KindRefusalsConvergeExactly | bridge/event-poker.ts:83-85 | the same for a global type |
| EventPoker.RequestedSize | bridge/event-poker.ts:46-50 | at most fifteen global types and one subscription for each distinct agent pane are asked for |
| EventPoker.QuickReconnectsBounded | bridge/event-poker.ts:174-185 | between two pane-set changes at most 15 plus the distinct agent panes reconnects skip the backoff |
| EventPoker.WaitsFollowSchedule | bridge/event-poker.ts:245-257 | drop by drop the waits are the entries of the schedule from where it stood, the last one repeating |
| EventPoker.WaitsNeverDecrease | bridge/event-poker.ts:245-257 | with a schedule that does not decrease neither do the waits until a stable timer has run |
| EventPoker.ResetNeedsQuiet | bridge/event-poker.ts:156-163 | over every run the backoff is reset only when no current stream has ended in the last 30000 ms |
| EventPoker.ResubscribeKeepsStableTimer | bridge/event-poker.ts:146-150 | a changed pane set replaces the stream by one not yet acknowledged and leaves the health report, the stable timer and the backoff alone |
| EventPoker.HealthVouchesExactly | bridge/event-poker.ts:122-188 | over every run, while health is reported the current stream is acknowledged exactly when, since the last acknowledgement, no changed pane set replaced the stream and no start opened a new one |
| EventPoker.ResetVouchesExactly | bridge/event-poker.ts:156-163 | the stable timer resets the backoff for an acknowledged stream exactly under that condition |
| EventPoker.ResetOnUnacknowledgedStream | bridge/event-poker.ts:146-163 | a run in which a changed pane set leads to a reset for a stream that never was acknowledged |
| EventPoker.RestartLooksHealthy | bridge/event-poker.ts:122-143 | after a stop and a start health is still reported for a stream that is not acknowledged |
| EventPoker.StepKeepsInv | bridge/event-poker.ts:122-265 | each event keeps the connection invariant, whose timers are the ones that `EventPoker.OneStreamOrOneTimer` and `EventPoker.PokesExactly` speak of |
| EventPoker.PokesExactly | bridge/event-poker.ts:170-265 | over every run a poke comes exactly when the debounce timer fires and the last event of a stream then current came 200 ms ago or earlier, with no poke and no stop since |
| EventPoker.EventsArePoked | bridge/event-poker.ts:170-265 | an event of the current stream is never lost: whatever follows short of a stop, a poke has come once the timer fires after 200 quiet ms, and any number of events before it make exactly one |
| EventPoker.StopSilences | bridge/event-poker.ts:128-143 | after any run `stop` ends pokes, health reports, streams and waits for good, whatever still comes in before a start |
| EventPoker.AsksForTheHerd | bridge/event-poker.ts:46-50 | over every run the current stream asked for exactly the fifteen global types not refused and the status of the panes named last that were not refused |
| EventPoker.HealthIsReported | bridge/event-poker.ts:154-187 | over every run health reports alternate; the acknowledgement of the current stream leaves the poker healthy and its end unhealthy |
| EventPoker.LooksRejectedExactly | bridge/event-poker.ts:205-207 | a reason reads as a refusal exactly when some part of it is one of four phrases, in any case of letters |
| EventPoker.Poker.StreamEvent | bridge/event-poker.ts:170-173 | an event of the current stream starts the debounce timer anew, any other changes nothing |
| EventPoker.Poker.DebounceTimerFired | bridge/event-poker.ts:259-265 | the timer makes exactly one poke and is gone |
| EventPoker.Poker.StartUp | bridge/event-poker.ts:122-127 | a start opens a new stream, and leaves one that is there alone |
| EventPoker.Poker.ShutDown | bridge/event-poker.ts:128-143 | no stream and no timer is left, and neither a poke nor a health report comes of it |
| EventPoker.Poker.UpdateAgentPanes | bridge/event-poker.ts:146-150 | a changed set of panes, and only that, replaces the stream by one that asks for the new set |
| EventPoker.Poker.StreamUp | bridge/event-poker.ts:154-169 | the current stream is acknowledged and health up; a stable timer is armed when the schedule has moved and none runs; any other stream changes nothing |
| EventPoker.Poker.StreamDown | bridge/event-poker.ts:174-187 | the current stream's end is dated, health down and the stable timer gone; any other's changes nothing |
| EventPoker.Poker.Recover | bridge/event-poker.ts:174-185 | the end of the current stream: health, drop, reconnect at once or after the backoff |
| EventPoker.Poker.DropRejectedSubscription | bridge/event-poker.ts:205-232 | what is dropped after a rejection, and whether that is new |
| EventPoker.FindBest | bridge/event-poker.ts:211-214 | the loop finds the first of the longest named types |
| HerdrReads.ReadsAreFresh | bridge/herdr-client.ts:657-702 | a read asked for after a write to its pane began or settled is answered by a request for that pane and shape sent after it, for all overlaps |
| HerdrReads.ReadsAreShared | bridge/herdr-client.ts:664-687 | until a read settles or its pane is written to, everybody who asks for the same read is answered by the same request and nothing more is sent |
| HerdrReads.RequestsAreReads | bridge/herdr-client.ts:671-687 | each request was sent by a read of its pane and shape, and is settled exactly once its answer came |
| HerdrReads.OnlyOwnEventsForget | bridge/herdr-client.ts:681-701 | a remembered read goes only by its own settling or a write to its pane; an old read settling never evicts a newer one |
| HerdrReads.KeysApart | bridge/herdr-client.ts:670-701 | the prefix that forgets one pane's reads matches no other pane's keys |
| HerdrReads.KeyInjective | bridge/herdr-client.ts:670 | keys of different panes or shapes differ |
| HerdrReads.HerdrClient.ReadPane | bridge/herdr-client.ts:664-687 | joins the read in flight or sends a new request; either way the answer comes from an open request of that pane and shape sent after every write to the pane that began or settled |
| HerdrReads.HerdrClient.Forget | bridge/herdr-client.ts:700-702 | the loop over the keys forgets exactly that pane's reads |
| HerdrReads.LinesOfMore | bridge/herdr-client.ts:483-493 | more text adds the lines of the unfinished rest with the new text behind it |
| HerdrReads.LinesAreTheText | bridge/herdr-client.ts:483-493 | the lines with their breaks, and the rest, are the text, and no break is left inside any of them |
| HerdrReads.UntilFatalAppend | bridge/herdr-client.ts:487-492 | handling stops at the first line that ends the stream, wherever chunks are cut |
| HerdrReads.LineReader.Data | bridge/herdr-client.ts:483-493 | what is handled is the complete lines of all text received, up to the first fatal one, however it was chunked |
| HerdrReads.LineReader.Drain | bridge/herdr-client.ts:486-492 | the loop handles every complete line in the buffer unless one ends the stream |
| Zip.ZipStream | bridge/workdir-zip.ts:111-125 | the emitted stream is the archive of the planned entries |
| Zip.StreamLengthAsAnnounced | bridge/workdir-zip.ts:20 | the stream is exactly as long as announced, whatever the files have become since planning |
| Zip.ArchiveReadsBack | bridge/workdir-zip.ts:18-20 | reading from the end record through the central directory to each local header gives exactly the planned names, data and stamps; the reader takes only headers whose versions, flags, methods, stamps, sizes and CRCs agree |
| Zip.ArchiveLayout | bridge/workdir-zip.ts:18-19 | what is written is bodies, directory records that point at them, and an end record that counts them |
| Zip.LayoutReadsBack | bridge/workdir-zip.ts:111-125 | any archive laid out so reads back as its files |
| Zip.LocalFields | bridge/workdir-zip.ts:18 | the local header holds each field, from the version to the lengths, where PKWARE APPNOTE section 4.3.7 puts it |
| Zip.CentralFields | bridge/workdir-zip.ts:19 | the directory record holds the version needed, flags, method, stamps, CRC, sizes, lengths, disk number and offset where PKWARE APPNOTE section 4.3.12 puts them |
| Zip.EndFields | bridge/workdir-zip.ts:123 | the end record holds each field, disk numbers and all, where PKWARE APPNOTE section 4.3.16 puts it |
| Zip.Data | bridge/workdir-zip.ts:117-118 | the data written is always of the planned size |
| Zip.DosStampsReadBack | bridge/workdir-zip.ts:17 | both DOS stamps fit 16 bits and give the calendar fields back, the year clamped and the second even |
| Zip.TimesReadBack | bridge/workdir-zip.ts:17-20 | a file stamped with a time has it in the archive read back, the year clamped and the second even |
| ZipPlan.PackChildren | bridge/workdir-zip.ts:60-96 | the loops compute the plan, or the failure, of the listing |
| ZipPlan.PlanAccountsForAll | bridge/workdir-zip.ts:60-96 | the plan keeps all loose files and some directories within both caps, every listed child is in it or named as omitted once, and there is none exactly when the loose files alone are over a cap |
| ZipPlan.EachChildOnce | bridge/workdir-zip.ts:82-95 | every eligible child is kept or dropped, once; what is kept keeps its order; only directories are dropped |
| ZipPlan.DropsHeaviestWhileOver | bridge/workdir-zip.ts:82-94 | each drop happened while what was left was over a cap, and took a heaviest directory: by bytes while bytes were over, otherwise by count |
| ZipPlan.FattestIsHeaviest | bridge/workdir-zip.ts:83-90 | no directory outweighs the one found, and those before it weigh less |
| ZipPlan.FailsOnlyOnLooseFiles | bridge/workdir-zip.ts:91 | packing fails exactly when the loose files alone exceed a cap, `too-large` exactly when their bytes do |
| ZipPlan.KeptFits | bridge/workdir-zip.ts:80-95 | what is kept is within both caps |
| ZipPlan.FindFattest | bridge/workdir-zip.ts:83-90 | the loop finds the first heaviest directory |
| ZipPlan.ReadListing | bridge/workdir-zip.ts:61-78 | the loop sorts the listing into children and names left out at once |
| ZipPlan.EligibleMeans | bridge/workdir-zip.ts:61-78 | which listed names stand for a child, and which are left out at once |
| Cbor.ReadCbor | bridge/webauthn.ts:44-110 | the reader with its loops computes the specification, and its recursion ends on any input |
| Cbor.RoundTrip | bridge/webauthn.ts:44-110 | reading an encoded item with anything in front and behind gives its value and the exact next offset (RFC 8949 section 3) |
| Cbor.ValueRoundTrip | bridge/webauthn.ts:44-110 | every value of the subset (numbers and lengths within 32 bits, maps with distinct keys), encoded and with anything around it, reads back as itself |
| Cbor.ReadIffEncoded | bridge/webauthn.ts:44-110 | a read gives a value and an offset exactly when an encoding of that value stands there and ends there |
| Cbor.ReadWasEncoded | bridge/webauthn.ts:44-110 | a successful read used up exactly the encoding of an item that stands for the value |
| Cbor.ReadDependsOnItsBytes | bridge/webauthn.ts:44-110 | a result depends only on the bytes between the two offsets |
| Cbor.CutIsTruncated | bridge/webauthn.ts:46-84 | an encoding cut off anywhere is reported as truncated |
| Cbor.HeadErrors | bridge/webauthn.ts:44-86 | which first bytes are refused, and as what |
| Cbor.KeyErrors | bridge/webauthn.ts:98-109 | a pair is refused exactly when its key is neither a number nor a text, after both halves are read |
| Cbor.LastPairWins | bridge/webauthn.ts:98-109 | a map read has distinct keys and the last pair with a key decides |
| Cbor.Read | bridge/webauthn.ts:44-110 | a success ends behind its start and within the buffer |
| Cbor.ReadList | bridge/webauthn.ts:88-97 | the array loop reads its items |
| Cbor.ReadMap | bridge/webauthn.ts:98-109 | the map loop reads its pairs |
| WebAuthn.LaidOutIsParsed | bridge/webauthn.ts:126-155 | authenticator data laid out by the standard, with anything behind it, parses as what was laid out, presence, verification and attestation flags included |
| WebAuthn.ParsedWasLaidOut | bridge/webauthn.ts:126-155 | data that parses with a credential was laid out by the standard, with those flags, that id and that ES256 key |
| WebAuthn.ParseEnds | bridge/webauthn.ts:126-155 | how parsing ends, exactly by length and flags: too short for one of its parts in their order, without a credential, or as the key that follows reads |
| WebAuthn.KeyErrors | bridge/webauthn.ts:190-203 | what is wrong with a key, exactly: no CBOR, no map, not ES256 on P-256, or coordinates that are not 32 bytes |
| WebAuthn.AcceptedOnceAndInTime | bridge/webauthn.ts:33-37 | an accepted challenge was issued for that purpose at most 60 s ago and not consumed since |
| WebAuthn.ConsumedIsGone | bridge/webauthn.ts:33-37 | a consumed challenge is refused whatever the first answer was |
| WebAuthn.AcceptsExactly | bridge/webauthn.ts:14-40 | under a clock that does not run back a challenge is accepted exactly when it was issued for the purpose, is not consumed and not expired, and never had 64 others, issued after it and not consumed, behind it |
| WebAuthn.HeldExactly | bridge/webauthn.ts:16-32 | a challenge in date is held exactly unless 64 others stood behind it at some time, and then it has gone |
| WebAuthn.FewNeverCrowd | bridge/webauthn.ts:24-26 | with fewer than 64 issued since, that has not happened |
| WebAuthn.RunRemembers | bridge/webauthn.ts:16-32 | at most 64 challenges are held, each as its last event says |
| WebAuthn.Challenges.IssueChallenge | bridge/webauthn.ts:16-32 | afterwards the challenge is accepted for its purpose and lifetime alone, no other is accepted anew, and the store is what its history makes of it |
| WebAuthn.Challenges.ConsumeChallenge | bridge/webauthn.ts:33-37 | accepted means issued for that purpose at most 60 s ago and not consumed since, and it is exactly that but for what 64 later ones pushed out; this challenge is spent whatever the answer, and no other is touched |
| ModuleClosure.ModuleClosure | scripts/web2-budget.ts:78-99 | terminates on any finite import graph, cycles included, and returns exactly the files reachable from the starts, each once, in depth-first preorder |
| ModuleClosure.NextMeans | scripts/web2-budget.ts:81-96 | a file on disk imports exactly what its specifiers that begin with a dot lead to |
| ModuleClosure.InOrderMeans | scripts/web2-budget.ts:81-96 | each specifier that is followed stands behind those in front of it in the file |
| ModuleClosure.Walk.Visit | scripts/web2-budget.ts:81-96 | a visit lists the file and all it newly leads to, everything the new files import is listed, and it is one turn of the preorder whatever else is to visit |
| Paste.StripPasteMarkers | bridge/pane-write-routes.ts:320-327 | the loop ends and gives the normal form |
| Paste.OneCleanResult | bridge/pane-write-routes.ts:316-327 | however markers are taken out, the normal form is the only text without markers that can come out |
| Paste.NormalIsClean | bridge/pane-write-routes.ts:316-327 | the normal form holds no marker, also none formed by removals |
| Paste.NormalIsReached | bridge/pane-write-routes.ts:316-327 | the normal form does come out by taking markers out, one after the other |
| Paste.BracketedPasteChunks | bridge/pane-write-routes.ts:340-356 | the loops wrap the pieces of the normal form, each chunk a start mark, one to `cap` units without a marker, and an end mark |
| Paste.TerminalReadsText | bridge/pane-write-routes.ts:329-356 | a terminal reads the chunks as non-empty pastes of at most `cap` units that join to the text without markers |
| Paste.PiecesCover | bridge/pane-write-routes.ts:344-354 | the pieces joined are the text, none empty, none longer than the cap |
| Paste.SeamsAreClean | bridge/pane-write-routes.ts:345-350 | a seam is the last point in the back half of its window between two units that are no spaces and no pair; where there is none it is the end of the window, or one unit before that when a low surrogate comes next |
| Paste.PiecesEndAtSeams | bridge/pane-write-routes.ts:344-354 | the seams are where one piece ends and the next starts, all of them |
| Paste.SeamsSplitNoPair | bridge/pane-write-routes.ts:346-350 | a seam splits a surrogate pair exactly when no clean cut was found and the window ends within a pair with another low surrogate right behind it; never in a text without such a place, as well-formed text is |
| Paste.WellFormedIsUntangled | bridge/pane-write-routes.ts:329-356 | well-formed text holds no pair with another low surrogate right behind it |
| Paste.IllFormedPairIsSplit | bridge/pane-write-routes.ts:349 | in ill-formed text a pair can be split |
| Paste.NormalStaysWellFormed | bridge/pane-write-routes.ts:320-327 | taking markers out keeps well-formed text well-formed |
| Paste.CutAdvancesExactly | bridge/pane-write-routes.ts:344-352 | the loop gets on exactly for caps of two and more, and for one when no low surrogate comes next |
| Notifications.RunKeepsInv | bridge/notifications.ts:81-210 | after every run the live timers match the pending alerts one to one, and the last message tells what is outstanding or cleared the slot when nothing is |
| Notifications.LastMessageTells | bridge/notifications.ts:171-207 | over every run: one alert shown, the last message has its pane, name, workspace and cwd and says it needs you exactly when it is blocked; several, it has their number, their names in the order they came, and says all blocked, all done or mixed exactly as they are; none, the slot is cleared or was never used |
| Notifications.SummaryTells | bridge/notifications.ts:179-207 | the summary of any alerts tells of them so, and is loud exactly when asked |
| Notifications.StepKeepsInv | bridge/notifications.ts:97-210 | each operation keeps that |
| Notifications.WaitingMeans | bridge/notifications.ts:97-124 | a running timer was armed by a transition, and nothing resolved, removed, disabled or re-armed it since |
| Notifications.ShownMeans | bridge/notifications.ts:118-122 | an alert shown was put there by its timer firing, and nothing has settled it since |
| Notifications.ShownUntilSettled | bridge/notifications.ts:126-169 | it stays shown until something settles it or its pane's timer fires again |
| Notifications.FiringShows | bridge/notifications.ts:118-122 | a timer that fires shows its alert at once, with one loud message that tells of all that is shown |
| Notifications.LoudExactlyOnFiring | bridge/notifications.ts:171-177 | renders that notify anew are exactly the timer firings |
| Notifications.NotificationCoordinator.OnTransition | bridge/notifications.ts:97-124 | into an enabled kind the alert becomes the one that waits for its pane and nothing is sent; otherwise what waits or is shown for the pane is taken back, with one silent message if it was shown; no other pane's alert changes |
| Notifications.NotificationCoordinator.TimerFired | bridge/notifications.ts:118-122 | what waited for the pane is shown, behind the others unless it was there, with one loud message that tells of all that is shown, and nothing else changes |
| Notifications.NotificationCoordinator.OnRemove | bridge/notifications.ts:127-129 | nothing waits or is shown for the pane, and a message goes out silently exactly if it was shown |
| Notifications.NotificationCoordinator.ReapplyPrefs | bridge/notifications.ts:137-151 | for every pane what waits or is shown stays exactly when its kind is enabled, and one silent message goes out exactly if anything shown went |
| Notifications.NotificationCoordinator.CloseAll | bridge/notifications.ts:158-163 | no timer runs, nothing is shown, and the slot is cleared if anything was |
| Notifications.KeepEnabled | bridge/notifications.ts:143-149 | the loop keeps the enabled alerts in order and says whether any went |
| Activity.ThrottledSimulatesEager | bridge/activity.ts:208-291 | under a clock that does not run back and with no move of the pane at the reading of an earlier look at it, after every operation the throttled ledger knows the pane when one that stamps every look does, with the same moves and unread answer, and stamps less than 30 s behind |
| Activity.AlikeThroughoutExactly | bridge/activity.ts:208-291 | over a whole run the two tell the same story exactly when the pane never moves at the reading of a look that the ledger skipped |
| Activity.AlikeExactly | bridge/activity.ts:217-247 | for one more operation the answers part exactly when an agent moves at the same reading as a look that only the eager ledger stamped |
| Activity.EqualReadingsDiffer | bridge/activity.ts:217-240 | with equal readings of the clock they do part |
| Activity.PanesAreApart | bridge/activity.ts:208-291 | an operation changes a pane's times from those times alone |
| Activity.PushesAreApart | bridge/activity.ts:223-242 | over every run two looks that push for an undisturbed pane are at least 30 s apart |
| Activity.ReconcileLeavesLive | bridge/activity.ts:275-283 | reconciling leaves exactly the live panes, known ones with their times, and no other session touched |
| Activity.RunLeavesNoneEmpty | bridge/activity.ts:286-291 | no run leaves an empty session behind |
| Activity.ActivityLedger.ReconcilePanes | bridge/activity.ts:275-283 | afterwards the session has exactly the live panes, known ones with their times and new ones read, and no other session has changed |
| Activity.ActivityLedger.MarkSeen | bridge/activity.ts:235-243 | afterwards the pane is known and read, its stamp less than 30 s old and its moves as they were, no other pane is touched, and the answer says whether the stamp moved |
| Activity.ActivityLedger.MarkUnseen | bridge/activity.ts:250-258 | the pane is unread afterwards, its moves as they were and no other pane touched |
| Activity.ActivityLedger.MarkActive | bridge/activity.ts:217-223 | the pane has moved now, and is unread exactly when it was known and last seen before |
| Activity.ActivityLedger.ForgetPane | bridge/activity.ts:286-291 | the pane is unknown and no other has changed |
| Audit.FilesAreASuffix | bridge/audit.ts:208-247 | for any failing size reads, rotations and writes, the rotated file followed by the live one is what was there at first and all lines written, in order, without the front that successful rotations dropped |
| Audit.FileAuditAppender.NothingElseIsLost | bridge/audit.ts:208-247 | at any time in the life of the appender its two files hold what was there at first and every line answered as written but for what rotations dropped, and every line asked for is answered or queued |
| Audit.AnsweredInOrder | bridge/audit.ts:237-246 | lines are answered in the order asked for, each once |
| Audit.NeverRotatedEarly | bridge/audit.ts:217-234 | a rotation is only tried on a live file that has reached the cap |
| Audit.LiveStaysBelowCapPlusLine | bridge/audit.ts:217-234 | with working size reads and rotations the live file without its last line is below the cap |
| Audit.SomethingIsEnabled | bridge/audit.ts:237-245 | the chain goes on after any failure |
| Audit.FileAuditAppender.RotateDone | bridge/audit.ts:225-233 | only a live file at the cap is rotated; done, the old generation and nothing else is gone; failed, both files are as they were and the size is measured anew; the line is still to be written |
| Audit.FileAuditAppender.AppendDone | bridge/audit.ts:234-246 | the oldest line asked for is answered, and is the one line the files gain when it was written; with working size reads and rotations the live file without it is below the cap |
| Audit.FileAuditAppender.SizeRead | bridge/audit.ts:218-225 | a measured file is rotated exactly when it has reached the cap, and for a cap above zero an unmeasured one is not |
| Audit.SecretsStayOut | bridge/audit.ts:111-137 | with content off, strings under unlisted keys leave no trace in the result at any depth |
| Audit.SanitizedIsTame | bridge/audit.ts:111-137 | no function survives, and every string is on one line and at most 121 characters |
| Audit.RecordedLeafByLeaf | bridge/audit.ts:111-137 | place by place: functions are gone, strings previewed or, under a key not listed with content off, replaced by a constant, and all else stands where it stood |
| Audit.RunsBecomeSpaces | bridge/audit.ts:122 | on the way to one line each run of line breaks becomes one space and all else stays |
| Audit.PreviewMeans | bridge/audit.ts:122-123 | a preview is the text on one line, cut behind 120 characters |
| Audit.EveryLineIsAnswered | bridge/audit.ts:208-247 | whatever failed so far, every line asked for can still be answered, in the order asked for |
| Push.RowLeavesOnlyFor | bridge/push.ts:228-372 | a row leaves only when replaced, forgotten, reported gone, or after five failures witnessed by a delivery on its origin with no delivery and no re-subscribe between |
| Push.CountMeans | bridge/push.ts:330-363 | a count stands for that many witnessed failures since the slate was clean |
| Push.DownServiceEvictsNobody | bridge/push.ts:323-353 | while a push service refuses everyone none of its rows is dropped for failing |
| Push.FullChangesNoRow | bridge/push.ts:239-247 | from a store within its cap a `full` answer changes no row |
| Push.FullDropsExactlyWhenOverCap | bridge/push.ts:236-247 | a `full` answer drops a row exactly when it names one to replace, and only above the cap |
| Push.StoredChangesItsRows | bridge/push.ts:236-261 | a stored subscription is there with its first time and its keys, the user agent given or else the one it had, and a clean slate; only it and the replaced row change |
| Push.FullExactly | bridge/push.ts:236-247 | within the cap the answer is `full` exactly when the endpoint is new, the store at its cap and no row that is held is given up |
| Push.RoundMeans | bridge/push.ts:323-371 | a round takes a row away exactly when it was reported gone or struck for the fifth time; a delivery wipes its slate, a strike adds one, and nothing else counts |
| Push.RunKeepsCap | bridge/push.ts:242-247 | endpoints stay distinct and at most 20 |
| Push.LoadedIsFresh | bridge/push.ts:381-409 | rows loaded from disk come out distinct and within the cap |
| Push.LoadedMeans | bridge/push.ts:381-409 | loaded are the rows up to the one that fills the store, or all, and of several for one endpoint the last one |
| Push.MatchesMeans | bridge/push.ts:283-288 | an endpoint matches when the pattern stands somewhere in it or is the one that means all |
| Push.PushService.AddSubscription | bridge/push.ts:228-261 | `full` exactly for a new endpoint at the cap that gives up no held row, and then no row changes; otherwise the row is there with a clean slate, its first time and the user agent given or else its former one, the one it replaces is gone, and every other row is as it was |
| Push.PushService.RoundSettled | bridge/push.ts:323-371 | for every endpoint whether its row stays and what its count is, by its own result and whether its origin delivered |
| Push.PushService.ForgetMatching | bridge/push.ts:283-292 | exactly the rows that match are gone, and their number is returned |
| EnvMerge.ParseIsTheRegex | scripts/push-keys.ts:48-55 | reading a line agrees with the regular expression for every plain key |
| EnvMerge.MergeLines | scripts/push-keys.ts:78-101 | the loops compute the merge |
| EnvMerge.OneAssignment | scripts/push-keys.ts:69-101 | after merging, the only line that the code's pattern takes for an assignment of a key, commented or not, is the new one; what becomes of the lines it does not take is `EnvMerge.OldValueStaysExactly` |
| EnvMerge.OldValueStaysExactly | scripts/push-keys.ts:69-101 | a line of the text laid out as another assignment of a merged key, whatever its value and behind any number of comment marks, is in the merged text exactly when that value holds a line terminator or there is more than one mark |
| EnvMerge.CarriageReturnKeepsOldValue | scripts/push-keys.ts:69-101 | a file with the one line `KEY=old` and a carriage return keeps it beside the new one, for any key and values |
| EnvMerge.TwoMarksKeepOldValue | scripts/push-keys.ts:69-101 | so does a file with the one line `##KEY=old` |
| EnvMerge.OwnLinesStay | scripts/push-keys.ts:69-101 | lines that assign none of the keys stay in order; only blank ones at the end may go, and a blank and the header come in front of appended lines |
| EnvMerge.NewValueInPlace | scripts/push-keys.ts:78-91 | a key that was assigned is assigned in that place: the same lines of the operator's own stand in front of the new assignment as in front of the first old one, in order |
| EnvMerge.NewKeysComeLast | scripts/push-keys.ts:84-96 | keys that were not assigned come last, in the order given, behind one blank line and the header |
| EnvMerge.EndsInOneBreak | scripts/push-keys.ts:97-99 | the merged text ends in exactly one line break |
| EnvMerge.SplitIsTheText | scripts/push-keys.ts:78-99 | splitting loses nothing and leaves no break in a line |
| EnvMerge.MergedTextReadsBack | scripts/push-keys.ts:61-101 | reading a merged key gives its new value |
| EnvMerge.MergingTwiceIsMergingOnce | scripts/push-keys.ts:78-101 | merging twice gives the same text as merging once |
| EnvMerge.ReadEnvLines | scripts/push-keys.ts:61-67 | the loop gives the last live assignment |
| EnvMerge.LastLiveCounts | scripts/push-keys.ts:61-67 | of several live assignments the last counts, trimmed, an empty one as none |
| EnvMerge.ClassesAre | scripts/push-keys.ts:55 | the code points that the pattern's classes stand for |
| EnvMerge.ScriptWritesGood | scripts/push-keys.ts:21-25 | the three names the script writes, any values without line ends and its header line are what the theorems here ask for |
| EnvMerge.TakenExactlyWithoutTerminator | scripts/push-keys.ts:55 | a line laid out as an assignment is taken for one exactly when its value holds no line terminator |
| EnvMerge.CarriageReturnHidesAssignment | scripts/push-keys.ts:55 | a line ending in a carriage return is read as no assignment; without the carriage return it is one |

## Left out

- Zip.ArchiveReadsBack: for names and counts within 16 bits and a total within 32, because the writer has no ZIP64 records, and stamps within 16 bits, which `Zip.DosStampsReadBack` shows of all that are made; reading a file is one step, so a file that changes while it is read is not modelled.
- ZipPlan.PackChildren: what the walk below a directory finds is given with the listing; `collectZipEntries` with its depth limit and link cycles is not modelled, nor are the note file and the locale-aware order of the final list.
- Cbor.ReadCbor: the text decoder is a parameter, and the host's limit on recursion depth is not modelled.
- WebAuthn.ParsedWasLaidOut: signatures, hashes and the client data JSON are not modelled.
- WebAuthn.AcceptsExactly: challenges are assumed never to be drawn twice and the clock not to run back.
- Paste.BracketedPasteChunks: asks for a cap of two or more, because below it the loop need not end; `Paste.CutAdvancesExactly` says exactly when.
- ModuleClosure.ModuleClosure: specifiers are given for each file; the regular expression that finds them and path resolution are parameters.
- Gate.ProcessGate.Schedule: tasks are events, so nothing is said about what they return or throw.
- StateEngine.Engine.PollSucceeded: views, session names, dialog sniffing and the retry timer are not modelled, nor is a listener that throws: thrown by an update listener it is this poll followed by a failed one, thrown in the middle of the pass it would leave the rest of the panes for the next poll.
- HerdrReads.ReadsAreFresh: pane ids are assumed to hold no NUL character, as the key's separator needs.
- PaneWriters.SendReplySteps: a refusal is the number of the write that is refused; the error text is not modelled.
- Notifications.RunKeepsInv: what a message tells is kept as data, not as the wording of titles.
- Activity.ThrottledSimulatesEager: each operation reads the clock once; loading, flushing and the debounce timer are not modelled.
- Audit.FilesAreASuffix: a failed write leaves nothing behind, and nobody else touches the files.
- Audit.SanitizedIsTame: lengths are counted in characters; rendering as JSON is not modelled.
- Push.RowLeavesOnlyFor: a round is one step at its end, with one result for each row attempted; sending, saving, trimming the user agent given and the checks on stored rows are not modelled.
- EnvMerge.OneAssignment: the lines counted are those that the pattern takes, which leaves out the two families of `EnvMerge.OldValueStaysExactly`; for distinct keys of letters, digits and underscores other than `export`, which covers the three names the script writes, and values on one line.
- EnvMerge.MergedTextReadsBack: for values without spaces at either end, because reading trims them.
- PatchCut.KeepWholeHunks: the cut from bytes to text in front of it is not modelled.
- HTTP routes, access control, configuration and start-up: plumbing with single-branch decisions.
- `parseNumstatZ`, `parseRawZ`, `synthesizeAddedPatch` and git itself: parsing and text building without state or invariants of their own.
- The guarded send core, thread store, transcript stores and journals: not part of this model.
