# Verification of the Inel runtime

Inel is an async runtime on io_uring. This project models the four parts of it that carry state from
one step to the next, and proves what they promise over every run:

- **Completions, ring and submissions** (`Completion`, `Register`, `RingModel`, `Wait`, `Ring`, `Progress`,
  `Submission`, `Runtime`, `Runs`, `Order`, `Queue`, `Wakeups`, `Hazards`). The five stages of a
  completion and the pool of recycled result queues are proved to refine a map from keys to results. Above
  it, the ring's three counters, its two queues and the client's state machine run together with a kernel
  that completes what it likes, when it likes. Over all runs: exactly-once, in-order delivery; linear use of
  operations and cancellations, none of them after its end; key safety; an exact submission queue and exact
  counters; waits that ask for the right number of completions.
- **Provided buffers** (`GroupModel`, `Groups`, `GroupRuns`, `GroupCalls`, `GroupHazard`). Buffers travel
  between the user, a slab whose ids are reused, the kernel's pool, reads in flight, completions on their way
  to reads, and the list of cancelled buffers. Over all runs of any number of reads on the ring above, up to the teardown of
  the group, none is lost, duplicated or reached through a reused id.
- **Buffered writer and reader** (`Views`, `Writer`, `Reader`), with their pooled adapters: no byte is
  lost, reordered or invented across waiting, errors and buffer swaps, and the mutual recursion ends.
- **Executor** (`Executor`, `Loop`): reference-counted wakers, the task queue and the loop over it. Every
  waker is accounted for, and the loop does what its futures and the reactor do, act by act, and no more.

Code that changes state step by step is a class or a loop here too. Each method is proved equal to a
function on values, and the properties are proved about those functions and about runs built of them.
`dafny verify dfyconfig.toml` checks everything.

## How to read it

A run is a list of steps, each of which the client, the ring or the kernel may take (`Runtime.Enabled`);
a step that would panic leads to `Panicked`. What a run is not allowed to do is written out there and
nowhere else. The kernel's side of it:

- it takes the whole submission queue when the ring waits, and lets the ring go on once at least as many
  completions are in the queue as were asked for;
- a submission with a key completes any number of times with the "more" flag and then once without it, and
  never after that; a detached submission completes once, without it;
- it selects buffers of a group's pool for reads in flight, and executes a group's provide entries before its
  removal.

Two more things the runtime relies on, but does not enforce, are *not* part of a run's rules. They are
the two hazards, and the theorems say exactly what they do:

1. An early completion (with "more" set) is reaped for a key that was already given up. The entry is
   freed at that completion while the operation stays in flight and counted as active.
2. A submission awaited as a plain future is given a result with "more" set. The operation is taken out, the
   submission stays submitted, and dropping it takes the operation again.

`Runs.StepKeepsExactly` proves that a step keeps the runtime's invariant if and only if it is neither;
`WaitModel.BatchKeepsExactly` gives the first as a condition on a whole batch, readable off the completion
queue before anything is handled; `Hazards` exhibits a run for each that ends in a panic or in a second
take, next to the exact condition in any state. *Calm* runs are those without them, and
`Runs.SingleShotRunsAreCalm` shows that every run without multi-shot operations is calm.

For buffer groups a run is calm if, besides, no group is removed that holds more buffers than sixteen bits
can count. `GroupRuns.RemovalPanicsExactly` shows that this is exactly when the removal panics, and
`GroupHazard.FullGroupPanics` gives the run.

## Model

| member | source | states |
|---|---|---|
| Completions.ResultQueues.constructor | crates/inel-reactor/src/ring/completion.rs:89-94 | the pool starts consistent, with no queue in use |
| Completions.ResultQueues.IsEmpty | crates/inel-reactor/src/ring/completion.rs:96-98 | comparing two lengths tells exactly whether no queue is in use |
| Completions.ResultQueues.Handle | crates/inel-reactor/src/ring/completion.rs:100-108 | the handle given out was not in use, its queue is empty, every other queue keeps its contents, and a queue is made only if all are in use |
| Completions.ResultQueues.PushBack | crates/inel-reactor/src/ring/completion.rs:193-208 | one queue grows at its end, every other keeps its contents |
| Completions.ResultQueues.PopFront | crates/inel-reactor/src/ring/completion.rs:236-236 | the oldest result leaves one queue, every other keeps its contents |
| Completions.ResultQueues.Release | crates/inel-reactor/src/ring/completion.rs:114-117 | exactly the given queue stops being in use, and unused queues stay empty and listed once |
| Completions.LocalChange | crates/inel-reactor/src/ring/completion.rs:51-61 | the pool refines one sequence per key: a change of one entry that touches its own queue only, written back or freed, changes the meaning of the set at that key only and keeps all handles disjoint |
| Completions.CompletionSet.constructor | crates/inel-reactor/src/ring/completion.rs:36-41 | a new set means the empty map |
| Completions.CompletionSet.IsEmpty | crates/inel-reactor/src/ring/completion.rs:43-45 | true exactly when no entry exists: an empty slab already forces every queue to be unused |
| Completions.CompletionSet.Insert | crates/inel-reactor/src/ring/completion.rs:47-49 | the new slot is open without results, every other one means what it meant; the key names it if and only if 32 bits hold its index |
| Completions.CompletionSet.Store | crates/inel-reactor/src/ring/completion.rs:55-60 | a finished entry frees its slot, any other is written back |
| Completions.CompletionSet.Cancel | crates/inel-reactor/src/ring/completion.rs:63-66 | the results still stored go to the cancellation in order; a key that awaits more becomes dropped, one that does not is freed and its cancellation dropped, after that (`EffectOrder.NoUseAfterDrop`); no other key changes |
| Completions.CompletionSet.Notify | crates/inel-reactor/src/ring/completion.rs:68-71 | an open key gets the result at its end and its waker is called, a dropped one hands it to its cancellation and is freed; no other key changes, and "already finished" is unreachable |
| Completions.CompletionSet.Result | crates/inel-reactor/src/ring/completion.rs:73-76 | the oldest stored result is given out, the key is freed with the last one after the final completion, no other key changes |
| Completions.CompletionSet.TryCancel | crates/inel-reactor/src/ring/completion.rs:152-185 | the stage and pool after giving an entry up mean what the abstract entry becomes, in every stage, with the effects in order |
| Completions.CompletionSet.TryNotify | crates/inel-reactor/src/ring/completion.rs:187-225 | the same for a completion, with the effects in order |
| Completions.CompletionSet.TakeResult | crates/inel-reactor/src/ring/completion.rs:227-246 | the same for taking a result; a queue that becomes empty after the final completion is released |
| Register.HandedOutSize | crates/inel-reactor/src/ring/register.rs:76-100 | as many slots are held as were ever given out and have not come back |
| Register.SlotRegister.constructor | crates/inel-reactor/src/ring/register.rs:63-70 | no slot is held at first |
| Register.SlotRegister.Get | crates/inel-reactor/src/ring/register.rs:76-89 | hands out a slot in range that nobody holds, and fails exactly when all are held |
| Register.SlotRegister.Remove | crates/inel-reactor/src/ring/register.rs:91-96 | the given slot is held no more, and the register stays in order if and only if it was held or is out of range |
| Register.SlotRegister.IsFull | crates/inel-reactor/src/ring/register.rs:98-100 | comparing two numbers tells exactly whether no slot is held |
| RingModel.SubmitKeeps | crates/inel-reactor/src/ring/mod.rs:213-226 | submitting keeps: active counts the keys that await a completion, each of them is outstanding once, detached counts the ignored submissions, and queued cancel entries name keys still dropped |
| RingModel.SubmitDetachedKeeps | crates/inel-reactor/src/ring/mod.rs:235-244 | so does a detached submission |
| RingModel.CancelKeeps | crates/inel-reactor/src/ring/mod.rs:251-267 | so does giving a key up, with or without a cancel entry; canceled counts the cancel entries still queued, each for another key |
| RingModel.CheckResultKeeps | crates/inel-reactor/src/ring/mod.rs:270-272 | so does claiming a result |
| RingModel.FlushKeeps | crates/inel-reactor/src/ring/mod.rs:302-304 | so does the kernel taking the submission queue, which loses and duplicates no submission |
| RingModel.PostKeeps | crates/inel-reactor/src/ring/mod.rs:302-304 | so does any completion the kernel may post: what is outstanding stays outstanding until reaped, and nothing follows a final completion |
| RingModel.ReapIsSafe | crates/inel-reactor/src/ring/mod.rs:311-328 | reaping never finds an unknown or finished key, and neither counter can underflow |
| RingModel.ReapKeeps | crates/inel-reactor/src/ring/mod.rs:311-328 | reaping keeps the invariant unless a dropped key receives an early completion |
| RingModel.ReapKeepsExactly | crates/inel-reactor/src/ring/completion.rs:216-219 | it is kept if and only if the oldest entry is not such a completion: the cancelled stage is left at the first completion, the counter only at the final one |
| WaitModel.TotalIsCounted | crates/inel-reactor/src/ring/mod.rs:280-283 | active + detached is the number of submissions queued, in flight or finally completed and not reaped |
| WaitModel.CanceledIsBounded | crates/inel-reactor/src/ring/mod.rs:258-266 | canceled is at most the number of dropped keys, at most active, and at most detached |
| WaitModel.WantIsBounded | crates/inel-reactor/src/ring/mod.rs:285-293 | a wait asks for at least one completion and for no more than are outstanding |
| WaitModel.MoreIsInFlight | crates/inel-reactor/src/ring/mod.rs:302-304 | while fewer completions than asked for are queued, something is still in flight |
| WaitModel.WaitCanEnd | crates/inel-reactor/src/ring/mod.rs:280-304 | so a wait can always be satisfied by the kernel |
| WaitModel.ReapConserves | crates/inel-reactor/src/ring/mod.rs:311-328 | each entry whose handling does not panic is one detached submission done, one dropped key done, or one waker called |
| WaitModel.ReapNConserves | crates/inel-reactor/src/ring/mod.rs:311-328 | the same summed over any number of entries, early completions of dropped keys among them |
| WaitModel.ReapNKeeps | crates/inel-reactor/src/ring/mod.rs:311-328 | a batch without such completions keeps the invariant and empties nothing but the queue |
| WaitModel.BatchKeepsExactly | crates/inel-reactor/src/ring/completion.rs:216-219 | the invariant survives every step of a batch if and only if no early completion for a key dropped at its start is in it |
| WaitModel.WaitKeeps | crates/inel-reactor/src/ring/mod.rs:275-309 | after a wait both queues are empty, canceled is zero, and the invariant holds |
| WaitModel.WaitProgresses | crates/inel-reactor/src/ring/mod.rs:280-328 | if an operation nobody gave up is outstanding and everything detached or dropped belongs to this round's cancellations, every wait that does not panic calls a waker |
| WaitModel.ReapNKeepsExactly | crates/inel-reactor/src/ring/completion.rs:216-219 | after a batch that does not panic the invariant holds if and only if the batch was quiet: each early completion leaves one operation counted for good |
| WaitProgress.OpenQueuedMustWake | crates/inel-reactor/src/ring/mod.rs:311-328 | if a completion of an operation nobody gave up is queued already, every wait that does not panic calls a waker, however many completions it asks for |
| WaitProgress.DoomedWaitsPanic | crates/inel-reactor/src/ring/completion.rs:55-55 | if an early completion of a dropped key is queued with another one of that key behind it, every wait panics |
| WaitProgress.SilentWait | crates/inel-reactor/src/ring/mod.rs:285-304 | if neither holds, the kernel can satisfy a wait for as many completions as there are keys given up and submissions detached, or fewer, so that it does not panic and calls no waker |
| WaitProgress.CountWakesExactly | crates/inel-reactor/src/ring/mod.rs:280-328 | so, for any number a wait could ask for: every such wait calls a waker or panics if and only if one of the two holds, or the number exceeds that of keys given up and submissions detached |
| WaitProgress.WantIsRight | crates/inel-reactor/src/ring/mod.rs:285-293 | the counters arrive at the right number: one that can be had, that covers two completions for each cancel entry queued, and one more if other keys await a completion; all there is if none does |
| WaitProgress.RightCountWakes | crates/inel-reactor/src/ring/mod.rs:285-304 | it is the least number that makes every wait wake if everything detached or dropped belongs to this round's cancellations and more is active; otherwise no more than what is detached or dropped |
| WaitProgress.WaitWakesExactly | crates/inel-reactor/src/ring/mod.rs:280-328 | so, whatever the kernel completes, a wait calls a waker or panics if and only if a waiting operation's completion is queued, or everything detached or dropped belongs to this round's cancellations and more is active, or the queue is one on which every wait panics |
| WaitProgress.WaitMayWakeNobody | crates/inel-reactor/src/ring/mod.rs:285-289 | for instance, one unrelated detached submission satisfies a wait that wakes nobody |
| WaitProgress.WaitDrains | crates/inel-reactor/src/ring/mod.rs:285-328 | if nobody waits, a wait for all that is outstanding leaves no key awaiting a completion and no detached submission, and without early completions nothing outstanding |
| WaitProgress.RightCountDrains | crates/inel-reactor/src/ring/mod.rs:285-293 | that is what a wait asks for with only detached submissions outstanding, or only this round's cancellations |
| WaitModel.WokenAreOpen | crates/inel-reactor/src/ring/completion.rs:187-219 | every waker a batch calls belongs to an operation nobody had given up, in any state |
| WaitModel.CountersDecideQuiescence | crates/inel-reactor/src/ring/mod.rs:198-200 | the counters and the set of completions are empty if and only if nothing is queued, in flight, unreaped or unclaimed |
| Rings.Ring.constructor | crates/inel-reactor/src/ring/mod.rs:165-172 | a new ring is idle; its registers have the sizes asked for, and no slot is held |
| Rings.Ring.IsDone | crates/inel-reactor/src/ring/mod.rs:192-204 | true if and only if nothing is outstanding or unclaimed and no slot of the three registers is held |
| Rings.Ring.Submit | crates/inel-reactor/src/ring/mod.rs:213-226 | the fields refine the model's submission, and the invariant holds |
| Rings.Ring.SubmitDetached | crates/inel-reactor/src/ring/mod.rs:235-244 | the same for a detached one |
| Rings.Ring.Cancel | crates/inel-reactor/src/ring/mod.rs:251-267 | the same for giving a key up: a cancel entry is pushed only if the key still awaits a completion |
| Rings.Ring.CheckResult | crates/inel-reactor/src/ring/mod.rs:270-272 | the answer is the oldest unclaimed result of the key, if any |
| Rings.Ring.KernelPosts | crates/inel-reactor/src/ring/mod.rs:302-304 | a completion that arrives between two calls leaves the ring in order |
| Common.FlagsAreRead | crates/inel-reactor/src/ring/mod.rs:43-49 | the "more" flag, the flag for a buffer and the buffer id are read off their own bits of the flag word, whatever the others are |
| Rings.Ring.Wait | crates/inel-reactor/src/ring/mod.rs:275-278 | whatever the kernel completes meanwhile, unless handling it panics, everything is flushed and reaped, and the invariant holds again if and only if no early completion for a dropped key was handled; a waker is called where every wait must, and with only detached submissions or this round's cancellations outstanding nothing is left to wait for |
| Rings.Ring.SubmitAndWait | crates/inel-reactor/src/ring/mod.rs:280-309 | the kernel is asked for the right number of completions, the least that makes the wait wake when only this round's cancellations are silent, and goes on once they are there; the queue is flushed and canceled reset |
| Rings.Ring.KernelRuns | crates/inel-reactor/src/ring/mod.rs:302-304 | the kernel takes the whole queue and completes until as many entries as asked for are there |
| Rings.Ring.HandleCompletions | crates/inel-reactor/src/ring/mod.rs:311-328 | the loop reaps every queued entry, oldest first, and nothing else; no counter underflows, also with early completions among them |
| Rings.Ring.HandleCompletion | crates/inel-reactor/src/ring/mod.rs:313-326 | one round of it refines the model and lets no counter underflow; `RingModel.ReapIsSafe` says when no key is unexpected |
| Submissions.Submission.constructor | crates/inel-reactor/src/submission.rs:57-63 | a new submission owns its operation and is not on the ring |
| Submissions.Submission.Poll | crates/inel-reactor/src/submission.rs:88-119 | the first poll submits, later ones answer and record the oldest result; the operation is taken with every result |
| Submissions.Submission.PollNext | crates/inel-reactor/src/submission.rs:139-171 | the same as a stream, where only the final result drops the operation and a finished stream keeps answering none |
| Submissions.Submission.Drop | crates/inel-reactor/src/submission.rs:65-78 | the operation is dropped, turned into a cancellation held by the ring, or was used up before |
| Runtime.LocalStep | crates/inel-reactor/src/ring/completion.rs:51-77 | a step that touches one submission and its key keeps what links all others to the ring |
| Runtime.PolledLinks | crates/inel-reactor/src/submission.rs:149-164 | a poll moves the oldest held result to the submission and nothing else |
| Runtime.ForgetLinks | crates/inel-reactor/src/submission.rs:65-78 | dropping a submission on the ring moves its stored results to the cancellation, which is dropped at once only if the final completion was among them |
| Runtime.CompleteLinks | crates/inel-reactor/src/ring/mod.rs:311-323 | a completion is added at the end of what is on its way to the key's owner |
| Runtime.HandleLinks | crates/inel-reactor/src/ring/mod.rs:320-326 | reaping moves the oldest queued result of a key to its entry, or to its cancellation, which is then dropped |
| Runs.StepKeeps | crates/inel-reactor/src/ring/mod.rs:213-328 | no step of client, ring or kernel but the two hazards panics or breaks the invariant of the whole runtime |
| Runs.StepKeepsExactly | crates/inel-reactor/src/submission.rs:100-109 | if and only if: each hazard, in every state in which it can arise, breaks it |
| Runs.CalmRunsAreSound | crates/inel-reactor/src/ring/completion.rs:55-55 | no calm run panics: "unexpected key" and both unreachable arms cannot be met |
| Runs.SingleShotRunsAreCalm | crates/inel-reactor/src/ring/completion.rs:192-202 | every run without multi-shot completions is calm |
| Runs.Delivered | crates/inel-reactor/src/ring/completion.rs:152-246 | exactly-once, in-order delivery: what the kernel completed for a submission is what it was given, then what its cancellation consumed, then what is stored, then what waits to be reaped |
| Runs.OwnedOnce | crates/inel-reactor/src/submission.rs:65-171 | an operation is used up at most once, exactly on completion or drop; a cancellation is dropped at most once, exactly when a submission dropped on the ring has left it, after the final completion |
| EffectOrder.NoUseAfterDrop | crates/inel-reactor/src/ring/completion.rs:152-219 | in every calm run, no cancellation consumes a result after it was dropped |
| Runs.DrainedIsSettled | crates/inel-reactor/src/ring/completion.rs:152-219 | with no entry left, every submission that ever ran has had all its results up to a final one, and every cancellation was dropped exactly once |
| Runs.KeysAreSafe | crates/inel-reactor/src/ring/mod.rs:213-226 | no two submissions share a key and no key is the ignored one; whatever is queued, in flight or finally completed and unreaped is so once, exactly for the keys whose owner, on the ring or given up there, awaits it: no key is freed before |
| Runs.CancelFindsItsTarget | crates/inel-reactor/src/ring/mod.rs:251-267 | whenever a cancel entry is queued, up to the flush, its key still belongs to the operation it was pushed for |
| QueueHistory.QueueIsExact | crates/inel-reactor/src/ring/mod.rs:213-267 | in every calm run the submission queue is, in order, one entry for each operation started and each detached one since the kernel last took it, one cancel entry for each operation dropped while outstanding, if it has one, and nothing else |
| Runs.CountersAreExact | crates/inel-reactor/src/ring/mod.rs:223-266 | in every run the counters are the counts they stand for |
| Runs.BlockedRunsCanGoOn | crates/inel-reactor/src/ring/mod.rs:302-304 | a blocked ring can return or the kernel has something left to complete |
| Runs.WaitIsARun | crates/inel-reactor/src/ring/mod.rs:275-328 | the state the ring's wait leaves is reached by the corresponding steps of a run |
| Wakeups.NoWakeupIsLost | crates/inel-reactor/src/ring/completion.rs:187-214 | in every calm run, if a submission's last poll gave no result and one is stored for it now, the waker of its first poll has been called since |
| Hazards.TakenTwiceExactly | crates/inel-reactor/src/submission.rs:65-109 | in any state, a future that is polled and then dropped has its operation taken twice if the poll gives it a result announcing another one, and once otherwise |
| Hazards.FutureTakesTwice | crates/inel-reactor/src/submission.rs:100-109 | a run from the start in which that happens |
| Hazards.FreedTooEarlyExactly | crates/inel-reactor/src/ring/completion.rs:216-219 | in any state, handling a completion frees its key while the operation is still outstanding if and only if it is an early one for a dropped key |
| Hazards.CancelledMultishotPanics | crates/inel-reactor/src/ring/completion.rs:216-219 | a run from the start in which that makes the ring panic on an unexpected key |
| GroupModel.ProvideKeeps | crates/inel-reactor/src/op/group.rs:37-45 | providing a buffer keeps every buffer and every id at exactly one place |
| GroupModel.KernelProvidesKeeps | crates/inel-reactor/src/op/group.rs:44-44 | so does the kernel executing a provide entry |
| GroupModel.SelectKeeps | crates/inel-reactor/src/op/group.rs:110-116 | so does the kernel selecting a buffer of the pool for a read in flight |
| GroupModel.UnselectKeeps | crates/inel-reactor/src/op/group.rs:110-116 | and putting it back unused |
| GroupModel.CompleteKeeps | crates/inel-reactor/src/op/group.rs:118-130 | so does the completion of a read with the buffer selected for it, or without one |
| GroupModel.DeliverKeeps | crates/inel-reactor/src/op/group.rs:118-122 | taking the buffer of a completion never finds an empty or reused slot |
| GroupModel.ConsumeKeeps | crates/inel-reactor/src/op/group.rs:124-130 | nor does marking it cancelled |
| GroupModel.RecyclingKeeps | crates/inel/src/group.rs:54-58 | recycling all cancelled buffers under any vacant ids loses and duplicates none |
| GroupModel.TeardownIsExact | crates/inel-reactor/src/op/group.rs:71-87 | with nothing selected for a read or on its way to one, the pool has exactly the buffers present, and a removal gets them all if and only if their number fits sixteen bits |
| Groups.ReadBufferGroup.Take | crates/inel-reactor/src/group.rs:59-61 | the buffer under an occupied id leaves the slab |
| Groups.ReadBufferGroup.Put | crates/inel-reactor/src/group.rs:63-65 | a buffer is stored in a vacant slot; the id is sixteen bits of its index, and names it if and only if they hold it |
| Groups.ReadBufferGroup.MarkCancelled | crates/inel-reactor/src/group.rs:75-79 | a buffer moves from the slab to the end of the cancelled ones |
| Groups.ReadBufferGroup.GetCancelled | crates/inel-reactor/src/group.rs:81-83 | the last cancelled buffer, if any |
| Groups.ReadBufferGroup.Clear | crates/inel-reactor/src/group.rs:67-69 | the slab is emptied, cancelled buffers stay |
| Groups.ReadBufferGroup.ReadResult | crates/inel-reactor/src/op/group.rs:118-122 | a completion with a buffer id yields that buffer, one without changes nothing |
| Groups.ReadBufferGroup.ReadCancelled | crates/inel-reactor/src/op/group.rs:124-130 | a consumed completion with a buffer id marks it cancelled |
| Groups.ReadBufferGroup.RemoveEntry | crates/inel-reactor/src/op/group.rs:71-77 | a removal never asks for more buffers than are present, and for all of them if and only if their number fits sixteen bits |
| Groups.ReadBufferGroup.RemoveResult | crates/inel-reactor/src/op/group.rs:79-87 | panics if and only if buffers are present and the kernel did not remove exactly as many; otherwise the slab is empty |
| Groups.ReadBufferSet.Insert | crates/inel/src/group.rs:50-52 | a buffer goes into the slab together with one detached submission that provides its id |
| Groups.ReadBufferSet.FinishRead | crates/inel/src/group.rs:66-79 | a successful read gives its buffer to the caller, a failed one puts it back and provides it again |
| Groups.ReadBufferSet.RecycleAll | crates/inel/src/group.rs:54-58 | every cancelled buffer, last one first, is in a slot of its own, with one provide entry each at the end of the submission queue and one detached submission more on the books; nothing else of group or ring changes |
| Groups.ReadBufferSet.RecycleRounds | crates/inel/src/group.rs:54-58 | the loop makes as many rounds as there are cancelled buffers |
| GroupCalls.RecyclingIsARun | crates/inel/src/group.rs:54-58 | wherever a calm run of the group has led, recycling is possible and comes to one move of such a run for each buffer, with that outcome |
| GroupRuns.UntouchedHeld | crates/inel-reactor/src/op/group.rs:118-130 | a step for one submission leaves the completions on their way to every other read as they are |
| GroupRuns.StepIsOk | crates/inel-reactor/src/op/group.rs:118-179 | what any calm step of the runtime means for a group: other reads' completions stay, the touched read's are accounted for, operations in flight stay so until completed, and a settled read stays settled |
| GroupRuns.RuntimeKeeps | crates/inel-reactor/src/op/group.rs:118-179 | any calm step of the runtime moves the buffers of at most one read along with its completions, and cannot hit an empty slot |
| GroupRuns.UnreferencedIsSettled | crates/inel-reactor/src/op/group.rs:124-130 | once no handle, operation or cancellation refers to the group, each of its reads has had all its completions |
| GroupRuns.ReferencesAreExact | crates/inel/src/group.rs:113-123 | nothing refers to the group, so that it is removed, if and only if the user let go of it and all its reads have settled |
| GroupRuns.RemovalPanicsExactly | crates/inel-reactor/src/op/group.rs:79-87 | the removal's assertion fails if and only if more buffers are present than sixteen bits can ask for |
| GroupRuns.MoveKeeps | crates/inel/src/group.rs:50-123 | no move of user, group, runtime or kernel, the teardown included, loses, duplicates or invents a buffer |
| GroupRuns.BuffersAreConserved | crates/inel-reactor/src/group.rs:59-83 | after any calm run of any number of reads all buffers made so far are there, each at exactly one place or freed with the group, and each id in use is unprovided, in the pool, selected for one read, or in one completion |
| GroupRuns.TeardownRemovesAll | crates/inel/src/group.rs:113-123 | in any calm run, after the last reference is gone the removal takes exactly the buffers present, if and only if their number fits sixteen bits, and frees every buffer of the group once |
| GroupHazard.FullGroupPanics | crates/inel-reactor/src/op/group.rs:71-87 | for any number of buffers that ids can name, a calm run leads to the removal of a group with that many, which panics if and only if every id is in use |
| Views.Prefix.Fill | crates/inel-reactor/src/buffer.rs:306-312 | as much of the data as fits is appended to what was filled before |
| Views.Window.Consume | crates/inel-reactor/src/buffer.rs:272-274 | the consumed bytes and the remaining view make up the old view; consuming too much stops at the end |
| Writers.WriteBufferSet.Get | crates/inel/src/group.rs:185-189 | the last pooled buffer, or a new one of full capacity |
| Writers.WriteBufferSet.Insert | crates/inel/src/group.rs:181-183 | the pool gains exactly this buffer |
| Writers.BufWriter.constructor | crates/inel/src/io/buffered/writer/generic.rs:34-44 | the bytes before the start position count as accepted, and nothing is acknowledged |
| Writers.BufWriter.PreWrite | crates/inel/src/io/buffered/writer/group.rs:23-27 | a writer without a buffer gets one from the pool, without touching buffered bytes |
| Writers.BufWriter.PostFlush | crates/inel/src/io/buffered/writer/group.rs:29-33 | an emptied buffer goes back to the pool |
| Writers.BufWriter.Accept | crates/inel/src/io/buffered/writer/generic.rs:102-104 | bytes that fit are appended to those buffered |
| Writers.BufWriter.PollFlush | crates/inel/src/io/buffered/writer/generic.rs:110-148 | accepted bytes are always the acknowledged ones followed by those buffered or in flight; done means nothing is left; a wait leaves the same buffer in flight, and an error leaves it ready to be tried again |
| Writers.BufWriter.PollFlushAndWrite | crates/inel/src/io/buffered/writer/generic.rs:64-71 | writing after a flush accepts a prefix of the data if and only if the flush succeeds; after an error the writer is ready again |
| Writers.BufWriter.PollWrite | crates/inel/src/io/buffered/writer/generic.rs:88-108 | where the call returns at all, it goes as the recursion of the model and accepts a prefix of the data, all of it unless the buffer is full then; otherwise no byte changes, and an error leaves the writer ready |
| WriterModel.WriteReturnsExactly | crates/inel/src/io/buffered/writer/generic.rs:88-107 | the recursion ends if and only if a write is in flight, or the buffer held, or else the next one of the pool, is not empty |
| WriterModel.NeverReturns | crates/inel/src/io/buffered/writer/generic.rs:133-147 | flushing leaves an empty buffer where it is, so with one the recursion never ends |
| Readers.BufferSet.Recycle | crates/inel/src/group.rs:54-58 | every cancelled buffer goes back to the group, the last one first |
| Readers.BufReader.constructor | crates/inel/src/io/buffered/reader/generic.rs:34-44 | the bytes between position and fill count as obtained, and nothing is consumed; other readers may use the same set |
| Readers.SplitAt | crates/inel-reactor/src/buffer.rs:272-274 | consuming splits what was obtained into consumed bytes and the rest of the view, in order |
| Readers.BufReader.CreateFuture | crates/inel/src/io/buffered/reader/group.rs:22-30 | a pooled reader hands back the buffer it still holds and recycles the cancelled ones before it reads again |
| Readers.BufReader.PostConsume | crates/inel/src/io/buffered/reader/group.rs:32-38 | it hands its buffer back exactly when the view is used up |
| Readers.BufReader.PollFillBuf | crates/inel/src/io/buffered/reader/generic.rs:94-132 | answers the unread bytes, reads only when there are none, and loses no byte or lent buffer on waiting, failure or end of input; a reader with a buffer of its own sends that one, and keeps the one that comes back |
| Readers.BufReader.Consume | crates/inel/src/io/buffered/reader/generic.rs:134-140 | consumed bytes followed by unread ones stay those obtained; over-consuming takes all of them |
| Readers.BufReader.PollRead | crates/inel/src/io/buffered/reader/generic.rs:74-83 | the bytes read are the next ones of the source, as many as asked for or all that are there; none means that the source brought none |
| ExecutorModel.StepKeeps | crates/inel-executor/src/waker.rs:20-40 | every clone, wake, drop, spawn and poll keeps: strong count = queue entry + wakers + the loop's reference, and scheduled = queued |
| ExecutorModel.RunKeeps | crates/inel-executor/src/waker.rs:20-40 | so does any sequence of them |
| ExecutorModel.ExitIsExact | crates/inel-executor/src/task.rs:60-62 | in every run one channel end is left if and only if no task is alive, and then nothing is queued, polled or wakeable |
| ExecutorModel.QueuedOnce | crates/inel-executor/src/task.rs:25-29 | in every run a task is queued at most once, exactly when it is marked scheduled |
| ExecutorModel.WakersAreCounted | crates/inel-executor/src/waker.rs:20-40 | in every run a task has as many wakers as were cloned, less those used up by a wake or dropped, and the loop's own only while it is being polled |
| ExecutorModel.GoneExactly | crates/inel-executor/src/executor.rs:66-70 | in every run a task is gone if and only if it is neither queued nor being polled and each cloned waker has been used up or dropped |
| ExecutorModel.WakeQueues | crates/inel-executor/src/task.rs:20-29 | no wakeup is lost: a woken task is queued, also while it is being polled |
| ExecutorModel.FirstComeFirstPolled | crates/inel-executor/src/task.rs:56-58 | whatever happens in between, a task with n tasks ahead is polled after exactly n polls |
| Executors.TaskQueue.constructor | crates/inel-executor/src/task.rs:38-41 | the queue's own channel end is the only one |
| Executors.TaskQueue.IsDone | crates/inel-executor/src/task.rs:60-62 | true if and only if no task is alive, and then nothing is queued |
| Executors.TaskQueue.Schedule | crates/inel-executor/src/task.rs:25-29 | a task's flag, count and the queue refine the model's scheduling |
| Executors.TaskQueue.Spawn | crates/inel-executor/src/task.rs:43-54 | a new task is at the end of the queue, alive, and held by its queue entry alone |
| Executors.TaskQueue.CloneWaker | crates/inel-executor/src/waker.rs:20-25 | one waker and one reference more |
| Executors.TaskQueue.Wake | crates/inel-executor/src/waker.rs:27-30 | the task is queued, no other one loses its place, and the waker's reference is given back |
| Executors.TaskQueue.WakeByRef | crates/inel-executor/src/waker.rs:32-36 | the task is queued and the waker kept |
| Executors.TaskQueue.DropWaker | crates/inel-executor/src/waker.rs:38-40 | one waker and one reference less; the last reference closes the task's channel end |
| Executors.TaskQueue.BeginPoll | crates/inel-executor/src/executor.rs:66-69 | the oldest task leaves the queue, unscheduled before its future runs, with a waker of its own |
| Executors.TaskQueue.EndPoll | crates/inel-executor/src/executor.rs:66-70 | the loop's waker and reference are given back; `ExecutorModel.GoneExactly` says what is left |
| ExecutorLoop.Executor.constructor | crates/inel-executor/src/executor.rs:23-27 | a new executor has no task |
| ExecutorLoop.Executor.Perform | crates/inel-executor/src/waker.rs:20-40 | each use of a waker, and each spawn, on the task objects is the one enabled step of the model it stands for: a wake leaves the named task queued, a clone or drop changes its wakers by one and no queue, a spawn queues one new task |
| ExecutorLoop.Executor.Play | crates/inel-executor/src/waker.rs:20-40 | what a future or the reactor does in its turn is a stretch of a run: its acts one for one, in order, and nothing else |
| ExecutorLoop.Executor.PollOne | crates/inel-executor/src/executor.rs:66-70 | one round of the inner loop is the begin of the oldest task's poll, its turn, and the end |
| ExecutorLoop.Executor.Drain | crates/inel-executor/src/executor.rs:66-70 | the inner loop is one such round for each turn, in order, and ends with no task queued |
| ExecutorLoop.Executor.Round | crates/inel-executor/src/executor.rs:64-73 | one round of the outer loop drains the queue and then blocks once in the reactor, with nothing queued |
| ExecutorLoop.Executor.Run | crates/inel-executor/src/executor.rs:60-74 | the loop over the task objects is a run of the model whose steps are the turns in order, one for each act, with a begin and an end around each poll; it blocks only with nothing queued, returns only after blocking, with no task, queue entry or waker left, and returns at once exactly when there is no task to begin with |

## Left out

- Rings.Ring.Wait: requires that handling the completions does not panic; after an early completion for a dropped key the ring is out of order, and the other methods require it in order.
- Rings.Ring.HandleCompletions: requires that it does not panic, and that the counters cover what the queue takes off them, as they do whenever a ring in order has waited.
- Submissions.Submission.Poll: requires a submission that has not completed, since the source panics then.
- Completions.CompletionSet.Insert: which vacant slot the slab picks is a parameter.
- Rings.Ring.Submit: requires a slot that 32 bits hold, since a longer index is cut and the key would name another operation; counters and queue handles do not wrap around.
- Groups.ReadBufferGroup.Put: which vacant slot is picked is a parameter. In runs of a group it is one that 16 bits hold.
- Groups.ReadBufferSet.FinishRead: models what follows the awaited operation; the waiting itself is part of `GroupRuns`. A successful read without a buffer panics in the source and is excluded.
- Writers.BufWriter.PollWrite: requires that the call returns, by the exact condition of `WriterModel.WriteReturnsExactly`.
- Writers.BufWriter.PollFlush: a successful write is a full one, as the source asserts; short writes panic there. `poll_close`, which returns without flushing, is not modelled.
- Writers.BufWriter.constructor: requires a start position within the buffer; the source would panic when it flushes or fills past the end.
- Readers.BufReader.constructor: requires, of a range that is not empty, that it ends within the buffer.
- Readers.BufferSet.Recycle: the set is a log of what goes back to the group and a list of cancelled buffers; its ring and its slab are modelled in `Groups` and `GroupRuns`.
- ExecutorLoop.Executor.Run: takes what each poll and each wait does as a finite list, so it also stops when the list ends, and refuses to use wakers that do not exist; `block_on` and join handles are not modelled.
- Executors.TaskQueue.BeginPoll: the future itself is code the model cannot see; what it does with wakers and new tasks are the steps between begin and end.
- Cancellations are abstract ids: a consume callback and the cleanup are events in a log. Their raw pointers and `combine` are not modelled.
- What the cancel entry makes the kernel do is not modelled beyond its own completion; the operation's final completion may come at any time.
- The io_uring instance, system calls, options, registration of buffers and files, a full submission queue and destruction of thread-local state.
- Registration of a buffer that fails after its slot was taken, and the early release of a fixed buffer's slot when it turns into a cancellation.
- A provide operation dropped before its first poll, and provide entries that fail: buffers are followed from the moment they enter the slab.
- A submission polled by a second task: the waker of the first poll is kept, as in the source.
- Operation constructors, conversion of results to errors, network, file system, TLS and HTTP front ends.
