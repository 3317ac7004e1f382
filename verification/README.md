# Verified models of the C++ Actor Framework

This project models the protocols, codecs and stack machines at the core of the framework and proves
what they are for. Concurrent code is modelled as a transition system: each critical section and each
atomic operation is one step, what a thread still has to do is part of the state, and the theorems
hold for every interleaving of any length and any number of threads or actors. Code that works on an
object is a class whose methods and loops are proved against functions on values, and the theorems are
about those functions. A run is a sequence of states that starts in an initial state and follows
enabled steps.

- `Philosophers.dfy`: the dining philosophers, with any number (at least two) of philosophers and
  arbitrary message delivery.
- `Attachables.dfy`, `AbstractActors.dfy`, `Lifecycle.dfy`, `ActorKernel.dfy`: what searching the list
  of attachables of an actor means, the linked list itself, the life of an attachable from attach to
  its callback, and systems of actors with links, exit messages and registry.
- `RefCounts.dfy`: the strong and weak reference counts of the control block.
- `Actions.dfy`, `Clock.dfy`: actions that threads race to run and dispose, and the clock thread.
- `BlockingReceive.dfy`, `Handshake.dfy`: selective receive over mailbox and stash, and the
  block/notify handshake between senders and a waiting actor.
- `BinaryFormat.dfy`, `BinaryCodec.dfy`, `BinarySerializer.dfy`, `BinaryDeserializer.dfy`: the
  default binary format, from bytes to nested values, and the two objects that write and read it.
- `ConfigValues.dfy`, `ConfigWriter.dfy`, `ConfigReader.dfy`: writing typed values as configuration
  values through a stack of pointers, and reading them back.
- `ConfigServer.dfy`: the config server with its two subscription indexes.
- `Coordinator.dfy`: the coordinator and its workers in the download example.
- `CliParser.dfy`: command line parsing.

Where the code does not do what its documentation or its evident intent says, the model follows the
code, a lemma gives the failing case, and a theorem says exactly when the two agree:

- `detach` removes all matches although it is documented to remove the first one
  (`ActorKernel.DetachRemovesTwo`, `Attachables.DetachesFirstOnlyIff`).
- A link can stay one-sided if an actor unlinks from an address whose last reference expired before
  that actor cleaned up (`ActorKernel.ExpiryLeavesOneSidedLink`, `ActorKernel.LinksAreSymmetric`), and
  then a peer can get two exit messages (`ActorKernel.PeerIsToldTwice`, `ActorKernel.LinkedPeerIsTold`).
- Objects and lists in variant fields, lists in lists and maps in lists are written to configuration
  values but cannot be read back (`ConfigReader.ObjectInVariantIsLost`,
  `ConfigReader.ListInVariantIsLost`, `ConfigReader.ListOfListsIsLost`, `ConfigReader.WriteThenRead`);
  maps whose keys are not strings can be read only if empty
  (`ConfigReader.ConfigValueReader.LoadMapWithKeys`).
- The config server unsubscribes itself, and not the subscriber, when a subscriber goes down
  (`ConfigServer.DeadSubscriberIsUpdated`, `ConfigServer.DownForgets`).
- The coordinator leaves its wait behavior on a finished message from anybody
  (`Coordinator.ForeignFinishedIsUnsafe`, `Coordinator.ReadIsSafeIff`).
- At `--` the command line parser returns an iterator relative to the first argument
  (`CliParser.TerminatorIterator`), and for a missing last argument one past the unconsumed option
  (`CliParser.MissingArguments`, `CliParser.ParseIsExplained`).
- A command line option that is also the category of another one may lose its value
  (`CliParser.CategoryTakesOne`, `CliParser.CategoryTakesValue`, `CliParser.ValueStaysIff`).

Every atomic variable is taken to be sequentially consistent. Time, the contents of messages, the
results of conversions and the decisions of user callbacks are parameters.

## Model

| member | source | states |
|---|---|---|
| Philosophers.ChopstickActor.constructor | examples/dynamic_behavior/dining_philosophers.cpp:44-54 | a chopstick starts available |
| Philosophers.ChopstickActor.ReceiveTake | examples/dynamic_behavior/dining_philosophers.cpp:46-60 | the first taker gets the chopstick and pushes its behavior, any other is refused and changes nothing |
| Philosophers.ChopstickActor.ReceivePut | examples/dynamic_behavior/dining_philosophers.cpp:50-64 | only the current user releases the chopstick |
| Philosophers.PhilosopherActor.constructor | examples/dynamic_behavior/dining_philosophers.cpp:101-107 | a philosopher starts thinking with an empty cache and a reminder to eat |
| Philosophers.PhilosopherActor.Unstash | examples/dynamic_behavior/dining_philosophers.cpp:114-127 | all stashed messages go back to the mailbox |
| Philosophers.PhilosopherActor.ReceiveThinking | examples/dynamic_behavior/dining_philosophers.cpp:109-119 | the handler does what the table-level reaction says, unmatched messages are stashed |
| Philosophers.PhilosopherActor.ReceiveHungry | examples/dynamic_behavior/dining_philosophers.cpp:121-130 | the same for the first answer |
| Philosophers.PhilosopherActor.ReceiveGranted | examples/dynamic_behavior/dining_philosophers.cpp:132-150 | the same for the second answer after a grant, the put going to the chopstick that did not answer |
| Philosophers.PhilosopherActor.ReceiveDenied | examples/dynamic_behavior/dining_philosophers.cpp:152-162 | the same after a refusal, the put going to the chopstick that answered |
| Philosophers.PhilosopherActor.ReceiveEating | examples/dynamic_behavior/dining_philosophers.cpp:164-174 | the same for the end of a meal |
| Philosophers.InitInv | examples/dynamic_behavior/dining_philosophers.cpp:195-209 | the ring that the program sets up satisfies the token invariant |
| Philosophers.DeliverKeepsInv | examples/dynamic_behavior/dining_philosophers.cpp:44-174 | delivering any message in flight keeps the token invariant |
| Philosophers.RunKeepsInv | examples/dynamic_behavior/dining_philosophers.cpp:44-209 | the token invariant holds in every state of every run |
| Philosophers.MutualExclusion | examples/dynamic_behavior/dining_philosophers.cpp:44-174 | in every run a chopstick is taken by p iff exactly one ownership token of p exists; an eater owns its chopsticks; two sharers of a chopstick never eat at once |
| Philosophers.NeighboursNeverEatTogether | examples/dynamic_behavior/dining_philosophers.cpp:195-209 | neighbours in the ring never eat at the same time |
| Philosophers.PutIsExpected | examples/dynamic_behavior/dining_philosophers.cpp:50-64 | every put in flight comes from the current user, so the branch for an unexpected put is dead |
| Philosophers.NeverUnmatched | examples/dynamic_behavior/dining_philosophers.cpp:109-174 | every message in flight to a philosopher is handled by its behavior and its cache is empty |
| Philosophers.NothingUnexpected | examples/dynamic_behavior/dining_philosophers.cpp:109-181 | in every run the messages in flight to each philosopher are exactly those its behavior waits for, and each always has one that can be delivered |
| Philosophers.DeliverDecreases | examples/dynamic_behavior/dining_philosophers.cpp:111-174 | delivering anything but an eat message makes the outstanding work smaller, so such deliveries terminate |
| Philosophers.Drain | examples/dynamic_behavior/dining_philosophers.cpp:111-174 | from every state all activity can be drained into a state where only reminders to eat are in flight |
| Philosophers.QuietTable | examples/dynamic_behavior/dining_philosophers.cpp:44-181 | in such a state everybody thinks and every chopstick is available |
| Philosophers.NobodyIsLockedOut | examples/dynamic_behavior/dining_philosophers.cpp:44-209 | from every state of every run every philosopher can still get to eat |
| AbstractActors.AbstractActor.AttachImpl | libcaf_core/caf/abstract_actor.cpp:62-65 | swapping two owning pointers puts a new node at the head of the chain |
| AbstractActors.AbstractActor.Relink | libcaf_core/caf/abstract_actor.cpp:78-80 | swapping the next pointers takes exactly one node out of the chain, at the head or behind another node |
| AbstractActors.AbstractActor.DetachImpl | libcaf_core/caf/abstract_actor.cpp:67-91 | the loop over the slots of the linked list leaves a well-formed chain with the count and the remaining entries of the specification, with and without stop-on-hit and dry run; `Attachables.CountDetached` and `Attachables.DetachMeaning` say what these are |
| AbstractActors.AbstractActor.Detach | libcaf_core/caf/abstract_actor.cpp:56-60 | returns how many entries of the token's kind and observer the list had, none for other tokens, and leaves of each kind as many as there were, except that none of that one is left |
| AbstractActors.AbstractActor.Attach | libcaf_core/caf/abstract_actor.cpp:37-48 | the critical section does what the step of the transition system says; the caller gets the fail state if the actor has terminated |
| AbstractActors.AbstractActor.CleanupSection | libcaf_core/caf/abstract_actor.cpp:150-167 | only the first cleanup wins; it takes the whole chain, fixes the fail state and does what the step of the transition system says |
| AbstractActors.FireAll | libcaf_core/caf/abstract_actor.cpp:171-172 | the loop visits every node of the chain once, from head to end |
| Attachables.DetachMeaning | libcaf_core/caf/abstract_actor.cpp:67-91 | the search removes all hits, only the first, or nothing, and returns the exact count; `Attachables.DetachSplits` says what the hits are |
| Attachables.CountDetached | libcaf_core/caf/default_attachable.cpp:39-44 | for every kind and observer the number of entries left: only links and monitors of exactly the observer of the token go, all of them or the first; the returned number is that of the entries found |
| Attachables.DetachSplits | libcaf_core/caf/abstract_actor.cpp:56-91 | the hits are exactly the link or monitor entries with the kind and observer of the token, the survivors all others, and together they make up the old list |
| Attachables.StopOnHitSplits | libcaf_core/caf/abstract_actor.cpp:84-85 | stopping at the first hit removes exactly that match |
| Attachables.SurvivorsKeepOrder | libcaf_core/caf/abstract_actor.cpp:67-91 | survivors keep their order |
| Attachables.DetachesFirstOnlyIff | libcaf_core/caf/abstract_actor.cpp:56-60 | removing all matches agrees with removing the first iff there is at most one match |
| ActorKernel.DetachRemovesTwo | libcaf_core/caf/abstract_actor.hpp:78-79 | a run in which two monitors of the same observer are attached and one detach removes both |
| Lifecycle.SectionKeepsOk | libcaf_core/caf/abstract_actor.cpp:41-53 | an attachable that arrives is in exactly one place before and after its critical section |
| Lifecycle.RemoveKeepsOk | libcaf_core/caf/abstract_actor.cpp:56-91 | detaching moves entries without losing or duplicating any |
| Lifecycle.TerminateKeepsOk | libcaf_core/caf/abstract_actor.cpp:154-167 | cleanup hands the whole list to its winner |
| Lifecycle.FireNextKeepsOk | libcaf_core/caf/abstract_actor.cpp:171-172 | firing in cleanup accounts for each entry once, with the final fail state |
| Lifecycle.FireLateKeepsOk | libcaf_core/caf/abstract_actor.cpp:49-53 | so does firing by a thread that came too late |
| ActorKernel.StepKeepsInv | libcaf_core/caf/abstract_actor.cpp:37-254 | every step of any thread keeps conservation, exit-message bookkeeping and registry obligations |
| ActorKernel.RunKeepsInv | libcaf_core/caf/abstract_actor.cpp:37-254 | they hold in every state of every run |
| ActorKernel.AttachablesAreConserved | libcaf_core/caf/abstract_actor.cpp:37-176 | in every run each attachable is in exactly one of: on its way, in the list, owed by the cleaning or a late thread, detached, or fired once with the final fail state; exactly one cleanup succeeds |
| ActorKernel.StepLinks | libcaf_core/caf/abstract_actor.cpp:56-254 | the exact number of link entries of any actor for any other after every kind of step |
| ActorKernel.StepKeepsPair | libcaf_core/caf/abstract_actor.cpp:100-254 | a step keeps two actors symmetric iff it does not drop the entry of one for the other while that other is not terminated and keeps its own |
| ActorKernel.LinksAreSymmetric | libcaf_core/caf/abstract_actor.cpp:95-254 | in every run two actors that have not terminated are symmetric in all states iff no step was one-sided for them, that is, no unlink from an address without a strong reference and no detach of a link token met a linked, not terminated peer; then each has at most one entry for the other |
| ActorKernel.NoSelfLinks | libcaf_core/caf/abstract_actor.hpp:87-92 | no actor ever has a link to itself |
| ActorKernel.ExpiryLeavesOneSidedLink | libcaf_core/caf/abstract_actor.cpp:100-110 | a run of four steps from fresh actors after which one has a link entry for the other but not the other way round |
| ActorKernel.EachEntryIsTold | libcaf_core/caf/default_attachable.cpp:25-37 | when an actor terminates each of its link entries causes exactly one exit message with the final fail state, sent or lost once cleanup is through; none is lost while the peer has a strong reference, and none is sent while it has none |
| ActorKernel.LinksAreSingle | libcaf_core/caf/abstract_actor.cpp:194-247 | in every run an actor has at most one link entry for another one in all states iff it never linked to a live peer that had lost its own entry while it still had one itself |
| ActorKernel.LinkedPeerIsTold | libcaf_core/caf/abstract_actor.cpp:150-176 | when an actor terminates a peer gets as many exit messages with the final fail state as there were link entries for it, none of them lost while the peer has a strong reference, and at most one if no step doubled the link, in particular if no step was one-sided for the two |
| ActorKernel.PeerIsToldTwice | libcaf_core/caf/abstract_actor.cpp:194-247 | a run in which a peer gets two exit messages, after a link that stayed one-sided was made again |
| ActorKernel.RefusedPeerIsTold | libcaf_core/caf/abstract_actor.cpp:194-247 | a link attempt that meets a terminated actor produces exactly one exit message with its fail state, after the critical section iff that actor is the caller |
| ActorKernel.RegistryHasNoDeadActors | libcaf_core/caf/actor_system.cpp:413-426 | with no operation in progress no terminated actor is registered, in every run |
| ActorKernel.StepKeepsRegistry | libcaf_core/caf/actor_system.cpp:311-326 | each registry entry always has an erase obligation somewhere |
| ActorKernel.RegistryIsHistory | libcaf_core/caf/actor_system.cpp:311-426 | in every run a key stands for an actor iff that actor was put while the key was free and nothing has erased the key since |
| ActorKernel.ThreadsCanFinish | libcaf_core/caf/abstract_actor.cpp:37-254 | from every state of every run all calls in progress can finish without a new one: nothing is on its way into a list, nothing is left to fire and no exit message is owed |
| ActorKernel.NewLinkIsFirst | libcaf_core/caf/abstract_actor.cpp:194-247 | a new link is at the head of the lists of both actors |
| RefCounts.ApplyKeepsInv | libcaf_core/caf/actor_control_block.cpp:29-72 | every atomic step of acquire, upgrade and release keeps the counting invariant |
| RefCounts.DestroyedAndFreedOnce | libcaf_core/caf/actor_control_block.cpp:38-72 | in every run the actor is destroyed at most once, only when terminated and unreferenced, and the block is freed at most once, after it, and never under a handle or an operation in progress |
| RefCounts.NothingLeaks | libcaf_core/caf/actor_control_block.cpp:38-72 | with no handle and no operation left both have happened exactly once, despite the non-decrementing shortcut |
| RefCounts.UpgradesAreSafe | libcaf_core/caf/actor_control_block.cpp:29-36 | no upgrade succeeds once the actor is destroyed or about to be; an upgrade during the bump makes the releasing thread back off |
| RefCounts.CriticalChecksHold | libcaf_core/caf/actor_control_block.hpp:121-141 | no reference is ever added to an expired count, and the assert after on_unreachable holds |
| RefCounts.StepsExplainState | libcaf_core/caf/actor_control_block.cpp:29-72 | in every run the handles are the first one, the copies and the successful upgrades without the releases, and every flag and counter stands for the steps that set it |
| RefCounts.UndisturbedUpgrade | libcaf_core/caf/actor_control_block.cpp:29-36 | an upgrade that no other thread disturbs gives a strong handle iff the strong count is not zero, and otherwise changes nothing |
| RefCounts.UndisturbedRetry | libcaf_core/caf/actor_control_block.cpp:29-36 | so does an upgrade after a failed exchange |
| RefCounts.EverythingCanBeFreed | libcaf_core/caf/actor_control_block.cpp:29-72 | from every state of every run giving up the handles and finishing the operations in progress destroys the actor and frees the block |
| Actions.ApplyKeepsInv | libcaf_core/caf/action.hpp:151-226 | every atomic step of dispose and resume keeps the state-machine invariant; what the steps achieve is in `Actions.CompletedCalls` and `Actions.SequentialRuns` |
| Actions.FunctionIsSafe | libcaf_core/caf/action.hpp:156-217 | in every run the function object is destroyed at most once, never before or during a call, and exactly once when the action is gone |
| Actions.SingleShotRunsAtMostOnce | libcaf_core/caf/action.hpp:164-199 | exactly one CAS takes a single-shot action out of scheduled, and the function is called iff a run won it; `Actions.CompletedCalls` says when one does |
| Actions.AssertsHold | libcaf_core/caf/action.hpp:156-216 | the asserts of the destructor and of the multi-shot run hold in every run |
| Actions.DisposedStaysDisposed | libcaf_core/caf/action.hpp:186-211 | after deferred_dispose or disposed no run ever starts |
| Actions.CompletedCalls | libcaf_core/caf/action.hpp:164-226 | when all calls have returned: an action that anybody disposed is disposed and its function destroyed once; otherwise a single-shot action that was resumed was called exactly once and is disposed, and a multi-shot one was called and is scheduled again; there are never more calls than resumes |
| Actions.SequentialRuns | libcaf_core/caf/action.hpp:201-217 | a multi-shot action that nobody disposes is called exactly once for each of several resumes that do not overlap |
| Actions.CallsReturn | libcaf_core/caf/action.hpp:164-226 | from every state of every run all calls of dispose and resume can return without new ones |
| Clock.RunKeepsInv | libcaf_core/caf/actor_system.cpp:465-539 | the wake-up invariant holds in every state of every run |
| Clock.NeverOversleeps | libcaf_core/caf/actor_system.cpp:474-539 | whenever the clock waits past a queued timeout some thread still owes a notify |
| Clock.FrontIsMin | libcaf_core/caf/actor_system.cpp:498-513 | the front of a heap vector is a minimum |
| Clock.LoopIsSafe | libcaf_core/caf/actor_system.cpp:515-539 | in every run the vector is a heap, so the front is a minimum and exists when the loop reads it, and the loop ends only after the sentinel of the destructor |
| Clock.EntriesRunOnceAndInTime | libcaf_core/caf/actor_system.cpp:474-534 | a scheduled entry stays queued until popped, is popped at most once, not before its timeout, and as a minimum of the queue, which follows from the heap order |
| Clock.PoppedEntriesRun | libcaf_core/caf/actor_system.cpp:523-531 | the clock runs the callback of an entry exactly from the step that pops it until that callback returns |
| Clock.SleepsIffNothingIsDue | libcaf_core/caf/actor_system.cpp:515-539 | the clock waits for a notification iff the queue is empty, and for the earliest timeout iff nothing is due |
| Clock.EachFirstEntryIsNotified | libcaf_core/caf/actor_system.cpp:465-491 | exactly the destructor and the threads whose entry is due before all queued ones owe a notification, one each |
| Clock.EntryCanRun | libcaf_core/caf/actor_system.cpp:474-539 | from every state of every run that is not shut down each queued entry can be run, although no wait returns before its time without a notification |
| Clock.ClockCanStop | libcaf_core/caf/actor_system.cpp:465-539 | and after the destructor has pushed its sentinel the clock can stop, under the same condition |
| BlockingReceive.BlockingActor.Enqueue | libcaf_core/caf/blocking_actor.cpp:55-90 | a message goes to the end of the logical queue unless the mailbox is closed; then requests are bounced |
| BlockingReceive.BlockingActor.Unstash | libcaf_core/caf/blocking_actor.cpp:365-368 | the loop empties the stash and leaves the logical queue unchanged |
| BlockingReceive.BlockingActor.CloseMailbox | libcaf_core/caf/blocking_actor.cpp:370-377 | closing drops mailbox and stash once and counts both |
| BlockingReceive.BlockingActor.ReceiveImpl | libcaf_core/caf/blocking_actor.cpp:200-297 | the receive loop consumes exactly the first accepted elements of the logical queue with its arrivals, whenever these arrive and whatever is skipped or stashed; each timed out wait counts iff the receive has a timeout; it stops exactly at the first check of the condition after a message or timeout that says so, and waits only if nothing accepted is left |
| BlockingReceive.ReceiveSplitsTheQueue | libcaf_core/caf/blocking_actor.cpp:200-297 | consumed and remaining elements make up the queue; only accepted ones are consumed, and if fewer than asked none is left |
| BlockingReceive.ReceiveTakesTheFirst | libcaf_core/caf/blocking_actor.cpp:255-297 | a receive of one message removes the first accepted element and nothing else |
| BlockingReceive.ArrivalsGoToTheEnd | libcaf_core/caf/blocking_actor.cpp:236-256 | messages that arrive meanwhile do not change what was picked and stay at the end |
| Handshake.RunKeepsInv | libcaf_core/caf/blocking_actor.cpp:68-89 | the handshake invariant holds in every interleaving of senders and reader |
| Handshake.NoLostWakeup | libcaf_core/caf/blocking_actor.cpp:80-84 | if the reader sleeps and the mailbox is no longer marked blocked, a sender between push and notify exists and can move |
| Handshake.AwaitIsHonest | libcaf_core/caf/blocking_actor.cpp:299-319 | await_data reports data only if there is some; only the timed wait reports none, and then the mailbox was empty; the actor takes one message per wait |
| Handshake.AwaitMakesProgress | libcaf_core/caf/blocking_actor.cpp:299-319 | the reader is never stuck inside await_data unless the mailbox is empty |
| Handshake.NothingIsLost | libcaf_core/caf/blocking_actor.cpp:68-89 | in every run the mailbox holds what was pushed and not popped, and each push that removed the mark, and no other, leads to one notification |
| Handshake.WakesForMessage | libcaf_core/caf/blocking_actor.cpp:299-319 | a reader inside await_data with a message in its mailbox can always get it without a spurious wakeup |
| Handshake.TimedWaitEnds | libcaf_core/caf/blocking_actor.cpp:307-319 | a timed wait on an empty mailbox can end, reports that there is nothing and leaves everything else as it was |
| BinaryFormat.IntRoundTrip | libcaf_core/caf/binary_serializer.cpp:403-408 | every integer of every width, signed or not, is read back and the rest of the input is left |
| BinaryFormat.IntInRange | libcaf_core/caf/binary_deserializer.cpp:438-447 | whatever bytes are read, the integer is in the range of its type |
| BinaryFormat.IntBytes | libcaf_core/caf/binary_serializer.cpp:403-408 | each byte of an integer: two's complement of the given width, most significant byte first |
| BinaryFormat.LengthRoundTrip | libcaf_core/caf/binary_serializer.cpp:164-177 | a length is read back modulo 2^32, hence exactly iff it is below 2^32 |
| BinaryFormat.LengthBound | libcaf_core/caf/binary_deserializer.cpp:180-193 | any accepted length is below 2^32 and consumes a prefix of the input |
| BinaryFormat.LengthBytes | libcaf_core/caf/binary_serializer.cpp:164-177 | each byte of a length: groups of seven bits, least significant first, no more than needed, the high bit in all but the last |
| BinaryFormat.BitsRoundTrip | libcaf_core/caf/binary_serializer.cpp:307-373 | packed bits with their shorter last block are read back |
| BinaryFormat.BitsBytes | libcaf_core/caf/binary_serializer.cpp:307-373 | in which byte and at which place of it each bit is, also in the shorter last block |
| BinaryFormat.CharsRoundTrip | libcaf_core/caf/binary_deserializer.cpp:314-348 | wide characters are read back after the range check of all of them |
| BinaryFormat.CharsBytes | libcaf_core/caf/binary_serializer.cpp:287-305 | each character is in its place as an unsigned integer of its width |
| BinaryCodec.RoundTrip | libcaf_core/caf/binary_deserializer.cpp:100-403 | for every type and value of it, decoding the encoding followed by anything gives the value and leaves exactly the rest |
| BinaryCodec.PrefixFree | libcaf_core/caf/binary_serializer.cpp:111-373 | equal bytes mean equal values and equal remainders, so no encoding is a prefix of another |
| BinaryCodec.DecodeSound | libcaf_core/caf/binary_deserializer.cpp:100-403 | on any input, an accepted value has the type (ranges, index bounds, distinct keys) and what is left is a suffix of the input |
| BinaryCodec.IndexBytes | libcaf_core/caf/binary_serializer.cpp:116-142 | before an alternative comes its index in one, two, four or eight bytes, chosen by the limits 127, 32767 and 2147483647 on the number of alternatives; all of them are 255 for an absent value |
| BinarySerializer.BinarySerializer.constructor | libcaf_core/caf/binary_serializer.cpp:44-47 | writing starts at the end of what is in the buffer |
| BinarySerializer.BinarySerializer.Seek | libcaf_core/caf/binary_serializer.cpp:78-80 | seeking keeps the position inside the buffer iff the offset is |
| BinarySerializer.BinarySerializer.Skip | libcaf_core/caf/binary_serializer.cpp:82-87 | skipping past the end fills with zeros and changes nothing else; from a position outside the buffer it fills nothing and stays outside |
| BinarySerializer.BinarySerializer.ValueBytes | libcaf_core/caf/binary_serializer.cpp:191-213 | appending, overwriting and straddling all are one splice at the write position |
| BinarySerializer.BinarySerializer.ValueByte | libcaf_core/caf/binary_serializer.cpp:215-222 | so is writing a single byte |
| BinarySerializer.BinarySerializer.BeginSequence | libcaf_core/caf/binary_serializer.cpp:164-177 | the loop writes the seven-bit groups of the length modulo 2^32 |
| BinarySerializer.BinarySerializer.Bits | libcaf_core/caf/binary_serializer.cpp:307-373 | the block loop and the trailing block write the packed bits |
| BinarySerializer.BinarySerializer.WideString | libcaf_core/caf/binary_serializer.cpp:287-305 | the loop writes length and characters |
| BinarySerializer.BinarySerializer.Save | libcaf_core/caf/binary_serializer.cpp:99-373 | saving a value of any nesting splices in exactly its encoding at the write position; the lemmas about bytes in `BinaryFormat` and `BinaryCodec.IndexBytes` say what that is |
| BinarySerializer.BinarySerializer.SaveMap | libcaf_core/caf/save_inspector_base.hpp:60-72 | the loop over a map writes its length and its pairs |
| BinarySerializer.SpliceCompose | libcaf_core/caf/binary_serializer.cpp:191-213 | two consecutive writes are one write of the concatenation |
| BinarySerializer.RunWritesCells | libcaf_core/caf/binary_serializer.cpp:78-222 | in any run of seeks, skips and writes the position stays inside the buffer iff every seek goes there; then the size and every byte are those of the last write covering it, else initial, else zero |
| BinaryDeserializer.BinaryDeserializer.BeginSequence | libcaf_core/caf/binary_deserializer.cpp:180-193 | the do-while loop computes the decoded length or its error |
| BinaryDeserializer.BinaryDeserializer.WideString | libcaf_core/caf/binary_deserializer.cpp:314-348 | the range check and the unchecked reads compute the decoded string |
| BinaryDeserializer.BinaryDeserializer.Bits | libcaf_core/caf/binary_deserializer.cpp:350-403 | the block loop computes the decoded bits |
| BinaryDeserializer.BinaryDeserializer.LoadAlt | libcaf_core/caf/binary_deserializer.cpp:108-159 | negative and too large indexes are absent values or errors, as the format says; how wide they are is in `BinaryCodec.IndexBytes` |
| BinaryDeserializer.BinaryDeserializer.LoadMap | libcaf_core/caf/load_inspector_base.hpp:56-80 | the loop over pairs fails on a repeated key, after its value was loaded |
| BinaryDeserializer.BinaryDeserializer.Load | libcaf_core/caf/binary_deserializer.cpp:88-403 | loading computes the decoding of any type: value and position on success, the error otherwise |
| BinaryDeserializer.SaveThenLoad | libcaf_core/caf/binary_deserializer.cpp:88-403 | both objects in sequence give back every value |
| ConfigValues.GetPut | libcaf_core/caf/config_value_writer.cpp:49-66 | a place inside a value holds what was assigned through its pointer |
| ConfigValues.PutChild | libcaf_core/caf/config_value_writer.cpp:49-66 | assigning through a pointer to a child updates the parent at that child only |
| ConfigValues.FieldLookup | libcaf_core/caf/config_value_writer.cpp:132-172 | in a finished dictionary the keys of each field are as that field alone left them |
| ConfigValues.ObjectEntries | libcaf_core/caf/config_value_writer.cpp:82-172 | the entries of an object by name: each present field, the alternative of a variant field under the name between "@" and "-type" iff that is a scalar or a map, and the type of an object in a variant field under "@type" |
| ConfigWriter.FilledThenPut | libcaf_core/caf/config_value_writer.cpp:82-124 | building a value in place after its slot was filled equals filling the slot with the finished value |
| ConfigWriter.ConfigValueWriter.BeginObject | libcaf_core/caf/config_value_writer.cpp:82-124 | in each kind of frame: what is created, which pointer is pushed, and when it fails |
| ConfigWriter.ConfigValueWriter.BeginField | libcaf_core/caf/config_value_writer.cpp:132-145 | fields open only in objects and remember whether they are present |
| ConfigWriter.ConfigValueWriter.BeginVariantField | libcaf_core/caf/config_value_writer.cpp:147-172 | variant fields also need an index in range of a type with a name |
| ConfigWriter.ConfigValueWriter.EndField | libcaf_core/caf/config_value_writer.cpp:174-183 | closes present and absent fields only |
| ConfigWriter.ConfigValueWriter.BeginSequence | libcaf_core/caf/config_value_writer.cpp:231-269 | an empty list in the slot, no tag |
| ConfigWriter.ConfigValueWriter.BeginAssociativeArray | libcaf_core/caf/config_value_writer.cpp:277-332 | an empty dictionary in the slot with the tag beside it, and a double push at the root |
| ConfigWriter.ConfigValueWriter.BeginKeyValuePair | libcaf_core/caf/config_value_writer.cpp:193-202 | a temporary list, unless the dictionary has that key already |
| ConfigWriter.ConfigValueWriter.EndKeyValuePair | libcaf_core/caf/config_value_writer.cpp:204-229 | the temporary list becomes an entry iff it has two elements and the key is new |
| ConfigWriter.ConfigValueWriter.IntValue | libcaf_core/caf/config_value_writer.cpp:344-359 | fails exactly on integers from 2^63 on and on slots that are taken |
| ConfigWriter.ConfigValueWriter.Push | libcaf_core/caf/config_value_writer.cpp:394-436 | a scalar goes into any free slot, with the tag of a variant beside it |
| ConfigWriter.ConfigValueWriter.Save | libcaf_core/caf/config_value_writer.cpp:82-436 | saving any value into any free slot puts exactly its representation there, changes nothing else and succeeds; the stack is as before, except that the pointer to the root gives way to the container written there |
| ConfigReader.ConfigValueReader.Pull | libcaf_core/caf/config_value_reader.cpp:473-528 | values of the right kind are taken as they are, integers iff they are in the range of the type; anything else is converted; scalars are consumed from values, sequences and string keys, and a failure consumes nothing; other keys stay on the stack |
| ConfigReader.ConfigValueReader.BeginObject | libcaf_core/caf/config_value_reader.cpp:214-297 | dictionaries, and what converts to one outside of sequences, open as objects unless their type entry names another type; everything else is refused and stays |
| ConfigReader.ConfigValueReader.BeginVariantField | libcaf_core/caf/config_value_reader.cpp:327-351 | the alternative is found iff the tag beside the field names one of the types |
| ConfigReader.ConfigValueReader.BeginOptVariantField | libcaf_core/caf/config_value_reader.cpp:353-363 | the same for optional fields, where a missing field is absent |
| ConfigReader.ConfigValueReader.BeginKeyValuePair | libcaf_core/caf/config_value_reader.cpp:391-402 | pushes value and key of the current entry |
| ConfigReader.ConfigValueReader.EndSequence | libcaf_core/caf/config_value_reader.cpp:425-434 | succeeds only if all elements were consumed |
| ConfigReader.ConfigValueReader.Load | libcaf_core/caf/config_value_reader.cpp:214-528 | reading what was written for a value returns it iff it is readable at this position, consuming exactly it, and fails otherwise |
| ConfigReader.ConfigValueReader.LoadMapWithKeys | libcaf_core/caf/config_value_reader.cpp:516-523 | of the maps whose keys are not strings exactly the empty ones can be read |
| ConfigReader.WriteThenRead | libcaf_core/caf/config_value_reader.cpp:214-528 | writer and reader in sequence return the original iff no variant holds an object or list and no list holds lists or maps, and fail otherwise |
| ConfigReader.ObjectInVariantIsLost | libcaf_core/caf/config_value_reader.cpp:330-338 | an object in a variant field is a well-typed value that cannot be read back |
| ConfigReader.ListInVariantIsLost | libcaf_core/caf/config_value_reader.cpp:330-338 | so is a list in a variant field |
| ConfigReader.ListOfListsIsLost | libcaf_core/caf/config_value_reader.cpp:410-445 | so are a list in a list and a map in a list |
| ConfigServer.Server.Put | libcaf_core/caf/actor_system.cpp:68-85 | stores the value and sends exactly one update to each key subscriber and one to each wildcard subscriber, except the sender; the wildcard key is ignored |
| ConfigServer.Server.Get | libcaf_core/caf/actor_system.cpp:87-100 | returns one pair, with an empty message if missing, or all pairs but the wildcard's |
| ConfigServer.Server.Subscribe | libcaf_core/caf/actor_system.cpp:102-120 | adds the pair to both indexes and monitors iff the sender has no entry |
| ConfigServer.Server.Unsubscribe | libcaf_core/caf/actor_system.cpp:122-133 | removes one pair, or all pairs of the sender for the wildcard |
| ConfigServer.Server.UnsubscribeAll | libcaf_core/caf/actor_system.cpp:56-65 | the loop erases the subscriber from every key it had |
| ConfigServer.Server.Down | libcaf_core/caf/actor_system.cpp:113-117 | the callback removes the subscriptions of the server itself |
| ConfigServer.RunTracks | libcaf_core/caf/actor_system.cpp:43-133 | in every reachable state both indexes hold exactly the subscriptions of the history, so they agree |
| ConfigServer.RunKeepsValues | libcaf_core/caf/actor_system.cpp:68-133 | in every reachable state a key has the value of the latest put to it, or none, whatever was subscribed or unsubscribed since, and has an entry iff an operation made one |
| ConfigServer.RunRegisters | libcaf_core/caf/actor_system.cpp:102-133 | in every reachable state the server has an entry for a subscriber, and hence does not monitor it again, iff the history says so |
| ConfigServer.DownForgets | libcaf_core/caf/actor_system.cpp:113-117 | a subscriber that went down is forgotten iff it is the server or had no subscriptions |
| ConfigServer.DeadSubscriberIsUpdated | libcaf_core/caf/actor_system.cpp:113-117 | a subscriber that subscribed once and went down is still subscribed |
| Coordinator.CoordinatorActor.Read | examples/curl/curl_fuse.cpp:283-304 | the last idle worker becomes busy, and the wait behavior starts when none is left |
| Coordinator.CoordinatorActor.Stash | libcaf_core/caf/mail_cache.cpp:31-41 | fails iff ten messages are stashed |
| Coordinator.CoordinatorActor.Release | examples/curl/curl_fuse.cpp:309-319 | the search moves the sender from busy to idle, or does nothing |
| Coordinator.CoordinatorActor.Finished | examples/curl/curl_fuse.cpp:297-305 | also ends the wait behavior and returns the stashed messages |
| Coordinator.StepKeepsInv | examples/curl/curl_fuse.cpp:205-319 | every step, whoever sends finished messages, keeps the invariant (idle and busy partition the workers, busy iff one job or finished message outstanding) unless it takes a request while exposed; only a foreign finished message taken while waiting exposes the read handler, and only the report of a worker covers it |
| Coordinator.RunKeepsInv | examples/curl/curl_fuse.cpp:205-319 | in every run the invariant holds until the read handler takes from the empty list, and the handler is exposed to that iff the wait behavior took a foreign finished message and no worker reported since |
| Coordinator.NoRequestIsLost | examples/curl/curl_fuse.cpp:272-319 | in every run that did not take from the empty list each request is in exactly one place; only one that finds the cache full is lost |
| Coordinator.StashedRequestsMoveOn | examples/curl/curl_fuse.cpp:295-302 | while requests are stashed some worker can complete a job or has reported |
| Coordinator.HandledRequestGoesOn | examples/curl/curl_fuse.cpp:283-302 | a handled request is the only job of the last idle worker, or at the end of the cache while the coordinator waits, or lost if ten are there already |
| Coordinator.FailsIff | libcaf_core/caf/mail_cache.cpp:31-41 | a run fails iff a request is handled while waiting with ten others stashed |
| Coordinator.EverythingCanBeDone | examples/curl/curl_fuse.cpp:205-319 | from every state of every run that did not fail all requests so far can be done by the workers and the coordinator alone |
| Coordinator.ReadIsSafeIff | examples/curl/curl_fuse.cpp:283-302 | a run takes from the empty list iff it takes a request after a foreign finished message ended the wait behavior and before the next report of a worker |
| Coordinator.ForeignFinishedIsUnsafe | examples/curl/curl_fuse.cpp:283-302 | a run of six steps with one worker in which a foreign finished message makes the second request take from the empty list |
| CliParser.Parse | libcaf_core/caf/config_option_set.cpp:121-232 | the loop computes settings, code and iterator of the specification for every argument list; `CliParser.ParseIsExplained` and the lemmas about names say what these are |
| CliParser.NextReadsItem | libcaf_core/caf/config_option_set.cpp:155-228 | whatever is recognised is a well-formed option whose tokens are exactly those used, and the option is the one that `CliParser.LongLookupMeaning` and `CliParser.ShortLookupMeaning` describe |
| CliParser.ItemIsRead | libcaf_core/caf/config_option_set.cpp:155-228 | and every well-formed option in any of its six spellings is recognised, as that option |
| CliParser.LongLookupMeaning | libcaf_core/caf/config_option_set.cpp:240-260 | a long name finds the first option that is flat and has this name, without a dot in it, or whose category, a dot and its name without dots make up the name; nothing iff there is none |
| CliParser.ShortLookupMeaning | libcaf_core/caf/config_option_set.cpp:262-267 | a short name finds the first option that lists the character; nothing iff there is none |
| CliParser.SplitMeaning | libcaf_core/caf/config_option_set.cpp:110-117 | categories are split into the only parts without dots that make them up |
| CliParser.PathIsName | libcaf_core/caf/config_option_set.cpp:110-137 | a global option is stored under its name, any other one where its category and name say |
| CliParser.ParseIsExplained | libcaf_core/caf/config_option_set.cpp:121-232 | for every argument list the consumed tokens are a maximal sequence of valid options, each once, the settings are their left-to-right fold, the code says what is wrong with the first unconsumed token, and the iterator is that token iff it is not an option that lacks its argument because it comes last; on failure the settings are that fold with the category of the offending option selected, if one was recognised |
| CliParser.HaltPosition | libcaf_core/caf/config_option_set.cpp:155-228 | the iterator goes past an unconsumed token iff that is the last one and begins an option of two tokens |
| CliParser.MissingArgumentIterator | libcaf_core/caf/config_option_set.cpp:190-216 | after any valid options such a token is reported with the iterator at the end |
| CliParser.MissingArguments | libcaf_core/caf/config_option_set.cpp:174-195 | two ways to leave out the argument of the same option, reported with different iterators |
| CliParser.AcceptedLanguage | libcaf_core/caf/config_option_set.cpp:121-232 | parsing succeeds at the end iff the arguments are a sequence of valid options |
| CliParser.TerminatorIterator | libcaf_core/caf/config_option_set.cpp:158-159 | at the terminator the iterator is the second argument, which is right iff nothing came before it |
| CliParser.LookupOther | libcaf_core/caf/config_option_set.cpp:110-117 | assigning to one nested entry leaves the entries on other paths alone |
| CliParser.OtherPath | libcaf_core/caf/config_option_set.cpp:110-137 | exactly what is at another path after setting an option: what the category where the paths part held before, with the values on the way converted to dictionaries |
| CliParser.LaterWins | libcaf_core/caf/config_option_set.cpp:129-153 | for arguments that set nothing inside or around a path, what is there after parsing is the value of the last argument that set it, or what was there before |
| CliParser.UnsetSeesCategories | libcaf_core/caf/config_option_set.cpp:110-140 | a path that no argument sets, nor anything inside or around it, shows exactly what selecting the categories of the arguments leaves there, which may convert a value in the way to a dictionary |
| CliParser.LookupCategory | libcaf_core/caf/config_option_set.cpp:110-117 | setting an option makes the entry of its category a dictionary, which changes that entry iff the option did not have the value already |
| CliParser.StoredKeepsIff | libcaf_core/caf/config_option_set.cpp:110-153 | one argument keeps the value at any path iff it agrees with it: what it sets has that value there, or the value has what is set inside of it; other paths never interfere |
| CliParser.PresentStaysIff | libcaf_core/caf/config_option_set.cpp:110-153 | a value present at some point stays up to any later point iff all arguments in between agree with it |
| CliParser.ValueStaysIff | libcaf_core/caf/config_option_set.cpp:110-153 | for any options and settings an option has the value of the argument that set it, and keeps it up to any later point iff all arguments in between agree with it, which the arguments alone decide |
| CliParser.CategoryTakesValue | libcaf_core/caf/config_option_set.cpp:110-153 | every command line that sets an option to something that is no dictionary and then something inside of that option is accepted and loses the value |
| CliParser.CategoryTakesOne | libcaf_core/caf/config_option_set.cpp:110-153 | for instance `--a=1 --a.b=2` |

## Left out

- Floating point numbers in the binary format and all conversions between kinds of configuration values: they lean on IEEE packing, on text parsers and on the standard library.
- Parsing and printing of configuration text, timestamps, help texts, logging, metrics and thread hooks.
- Memory orders weaker than sequential consistency.
- Mailbox and mail cache internals: the mailbox is a sequence with an open, blocked or closed flag, the cache an unbounded list except where its limit matters.
- Proxies, remote actors, spawning by node, networking and the download library of the example.
- `action_decorator` of the actor clock and the closures that `schedule_message` builds: one pointer swapped out under a mutex, and closures that only call other code.
- Actor pools, which are deprecated, and mail builders, response handles and other type-level wrappers, which have no state of their own.
- The count of running actors in the registry: it follows a flag of each actor.
- The algorithms of the standard library that keep the clock's vector a heap: any result that their contracts allow is covered.
- Receives nested inside a handler that then skips its message.
- Tuples in configuration values, byte strings written as hexadecimal text, and characters wider than one byte there.
- Configuration field names with a dot in variant fields: their tag would be stored as a nested entry.
- Exceptions other than the one of a full mail cache, and what a failed operation leaves in an object that is not used any further.
- Attachable callbacks that run arbitrary code: they are opaque, except for those of links, monitors and the registry.
- ActorKernel.LinkedPeerIsTold: an exit message for a peer without a strong reference counts as lost, because the source then has nobody to send it to.
- BinarySerializer.BinarySerializer.Skip: write positions of 2^64 and more are not wrapped, because no buffer can be that large.
- BinaryDeserializer.BinaryDeserializer.BeginSequence: a sixth length byte is an error of the model, because the source then shifts a 32-bit value by more than its width.
- CliParser.LaterWins: does not cover a path that holds no value and is set by no argument while a value in the way of its category may be converted to a dictionary, which `CliParser.UnsetSeesCategories` describes, nor arguments that set something inside or around the path, which `CliParser.ValueStaysIff` describes.
- ConfigReader.ConfigValueReader.Load: covers what the writer produced; on other input the operations below it are specified one by one.
- Coordinator.RunKeepsInv: a finished message that a worker sends without a job is not modelled, because the worker of the example sends one per job.
