# A message kernel and the server that runs on it

This project models the message kernel of a publisher/subscriber server, the server's
automate, and two text utilities that ship beside it, and proves what they are for.

- **Sequential kernel.** `buffers`, `pool`, `mailbox` and `timer` are the linked structures as
  classes: buffer queues, the pool in size classes, mailboxes that drop cancelled messages, the
  post office, and the delta list of timers, all threaded through the one link field of the
  buffers. `kernel` puts them together under one invariant, which every operation keeps: every
  list is proper and every buffer is in the list it names as its holder. No two lists share a
  buffer then, and each operation says what every list holds afterwards and which buffer changed
  hands. `mail` and `deltas` are the contents as values; `deltas` proves that the delta list
  stands for a list of absolute deadlines.
- **Concurrent kernel.** `machine` is the running kernel as a state and seventeen atomic steps,
  one step per critical section, semaphore call or write by an owner; any number of threads and
  the timer interrupt interleave freely. The two halves of a post are separate steps, and so are
  the wait and the dequeue of a receive. A thread may have any number of buffers in hand.
  `calls` reads off the actions of a run which timers it starts and which messages it posts.
  `conservation` and `places` (each buffer in one place), `wakeup` and `overflow` (no lost
  wake-up), `order` (what Get returns, and in which order), `cancel` and `restart` (lazy
  cancellation), `expiry` and `exactness` (exact expiry) prove properties of every run;
  `sequential` shows that uninterrupted steps do what the classes do in one call, by the same
  relations.
- **Messages.** `words` and `headers` are the byte layout; `params` is the parameter list as
  bytes and as a value; `stdmsg` and `handler` insert, read and grow in place.
- **Server.** `channel` is the automate that drives itself with one message; `topics` is the
  store it answers from, `publish` what a publication does to it.
- **Groundwork.** `sequences` and `bags` hold facts about slices and multisets.
- **Utilities.** `testpath` prints and parses paths in a tree of tests; `stringtools` splits
  and wraps text.

The properties that do not hold without a condition are stated with the exact one: no lost
wake-up (`Overflow.NoLostWakeUpIff`), exact expiry (`Exactness.ExactExpiryIff`), visibility of a
parameter (`Params.InsertVisibleIff`), exact answers (`Topics.LookupExactIff`), publications that
add up (`Publications.AmendedIff`), refusal (`Channel.RefusedIff`), a path inserted into itself
(`TestPaths.OwnInsertedIff`), parsing what was printed (`TestPaths.PrintParseIff`,
`TestPaths.RelativeParseIff`, `TestPaths.ResolveFailsIff`), splitting what was joined (`StringTools.SplitOfJoinIff`).

Where code and documentation disagree the code is followed, with these readings. The comment on
`TBufferQue::Get` promises a null pointer on an empty queue, the line below asserts that there
is none, and the early return of `GetFromHead` keeps the queue locked; the fallback loop of
`GetBuffer` needs the null, so an empty queue returns null, unlocked. `FindParam` is documented to reset
the cursor when it finds nothing; on a message of length zero it returns before it does, which is
visible only to a caller that moved the cursor in another message. An exception is a null or
false result that leaves the lists as they were.

Readings of the environment: header words are the little-endian ones of
`KernelFunctions.cpp`; with all 32 size classes in use the search for a class that is long enough may
read one length past the array, and is taken to stop there; parameter codes are 16-bit and a message
stays below 65536 bytes; an expiry handler clears its handle, as `fsm.h` asks; a timer whose message
already carries the code for cancelled ones gives its automate no handle worth keeping.

## Model

| member | source | states |
|---|---|---|
| Words.GetUint16 | Publisher Subscriber server/Publisher_Subscriber_server/Kernel/KernelFunctions.cpp:18-24 | the little-endian word that the two bytes at the offset spell |
| Words.GetUint32 | Publisher Subscriber server/Publisher_Subscriber_server/Kernel/KernelFunctions.cpp:26-36 | the little-endian double word that the four bytes spell |
| Words.SetUint16 | Publisher Subscriber server/Publisher_Subscriber_server/Kernel/KernelFunctions.cpp:6-9 | writes exactly the two bytes of the word and no other byte of the buffer |
| Words.SetUint32 | Publisher Subscriber server/Publisher_Subscriber_server/Kernel/KernelFunctions.cpp:11-16 | writes exactly the four bytes of the double word and no other byte |
| Words.Word16RoundTrip | Publisher Subscriber server/Publisher_Subscriber_server/Kernel/KernelFunctions.cpp:6-24 | a word that was set is the word that is got |
| Words.Word32RoundTrip | Publisher Subscriber server/Publisher_Subscriber_server/Kernel/KernelFunctions.cpp:11-36 | a double word that was set is the one that is got |
| Words.Word32Surjective | Publisher Subscriber server/Publisher_Subscriber_server/Kernel/KernelFunctions.cpp:11-36 | setting what was got changes no byte: the encoding is one to one |
| Words.WordsAreNumbers | Publisher Subscriber server/Publisher_Subscriber_server/Kernel/KernelFunctions.cpp:6-36 | words are the numbers that their bytes spell, lowest byte first, in reading and in writing |
| Headers.WriteHeader | Publisher Subscriber server/Publisher_Subscriber_server/Kernel/kernelAPI.cpp:94-106 | the header writes of an expiry message, byte for byte |
| Headers.Stamp | Publisher Subscriber server/Publisher_Subscriber_server/Kernel/timer.cpp:370-373 | the count, the sender byte and the mailbox byte that the timer writes over the sender's address |
| Headers.WrittenCarries | Publisher Subscriber server/Publisher_Subscriber_server/Kernel/kernelAPI.cpp:94-106 | after the header writes the message carries the target, code, call id, coding and length asked for |
| Headers.RecountedSame | Publisher Subscriber server/Publisher_Subscriber_server/Kernel/timer.cpp:207-218 | any number of count updates leaves every byte outside the count alone |
| Headers.RecountedLast | Publisher Subscriber server/Publisher_Subscriber_server/Kernel/timer.cpp:532-534 | the timer reads the last count that was written |
| Headers.ExpiryIntact | Publisher Subscriber server/Publisher_Subscriber_server/Kernel/kernelAPI.cpp:87-107 | although mailbox and count live in the header, the delivered message still carries everything the automate wrote, and the timer finds its mailbox and last count |
| Buffers.Chain.GetFromHead | Publisher Subscriber server/Publisher_Subscriber_server/Kernel/mailbox.cpp:151-165 | unlinks exactly the first buffer; null exactly on an empty queue; the rest stays an acyclic list with exact head, tail and count |
| Buffers.Chain.PutOnTail | Publisher Subscriber server/Publisher_Subscriber_server/Kernel/mailbox.cpp:191-199 | appends one buffer that is in no list, rewriting only its link and the last node's |
| BufferPools.Exchange | Publisher Subscriber server/Publisher_Subscriber_server/Kernel/buffers.cpp:49-54 | swaps two lengths and the two counts with them: the pairs stay the same |
| BufferPools.ExchangeSort | Publisher Subscriber server/Publisher_Subscriber_server/Kernel/buffers.cpp:46-57 | lengths ascend and every count is still paired with its length |
| BufferPools.BufferPool.Carve | Publisher Subscriber server/Publisher_Subscriber_server/Kernel/buffersQueue.cpp:77-95 | a queue of exactly n fresh buffers of one class, no two sharing a block |
| BufferPools.BufferPool.CarveAll | Publisher Subscriber server/Publisher_Subscriber_server/Kernel/buffers.cpp:60-64 | one carved queue per class, pairwise disjoint |
| BufferPools.BufferPool.constructor | Publisher Subscriber server/Publisher_Subscriber_server/Kernel/buffers.cpp:27-71 | for up to 32 classes: the pool holds exactly the sorted classes, every buffer free in the queue of its own class |
| BufferPools.BufferPool.GetFrom | Publisher Subscriber server/Publisher_Subscriber_server/Kernel/buffersQueue.cpp:191-202 | the head of one class's queue, null exactly when it is empty; the other queues stay |
| BufferPools.BufferPool.FirstFit | Publisher Subscriber server/Publisher_Subscriber_server/Kernel/buffers.cpp:87 | the first class that is long enough |
| BufferPools.BufferPool.GetFromOrAbove | Publisher Subscriber server/Publisher_Subscriber_server/Kernel/buffers.cpp:92-96 | the first class from there on that is not empty |
| BufferPools.BufferPool.GetBuffer | Publisher Subscriber server/Publisher_Subscriber_server/Kernel/buffers.cpp:83-103 | best fit: the head of the smallest class that is long enough and not empty; fails exactly when there is none; no other buffer changes hands |
| BufferPools.BufferPool.RetBuffer | Publisher Subscriber server/Publisher_Subscriber_server/Kernel/buffers.cpp:112-118 | the buffer goes to the tail of its own class's queue; no other queue changes |
| BufferPools.BufferPool.IsBufferSmall | Publisher Subscriber server/Publisher_Subscriber_server/Kernel/kernelAPI.h:302-303 | small exactly when the buffer's real length is at most the length asked for |
| Mail.PostedAppends | Publisher Subscriber server/Publisher_Subscriber_server/Kernel/mailbox.cpp:191-199 | posting messages one by one appends to each mailbox exactly those addressed to it, in order |
| Mail.GivenBackAppends | Publisher Subscriber server/Publisher_Subscriber_server/Kernel/buffers.cpp:112-118 | giving buffers back one by one appends to each free queue exactly those of its class, in order |
| Mail.GotCons | Publisher Subscriber server/Publisher_Subscriber_server/Kernel/mailbox.cpp:263-282 | a Get that drops its first message goes on as a Get from the rest |
| Mail.PurgedGet | Publisher Subscriber server/Publisher_Subscriber_server/Kernel/mailbox.cpp:320-326 | a Get, with what it returned given back too, takes a purge past that message |
| MailBoxes.MailBox.Add | Publisher Subscriber server/Publisher_Subscriber_server/Kernel/mailbox.cpp:222-231 | appends one message |
| MailBoxes.MailBox.Get | Publisher Subscriber server/Publisher_Subscriber_server/Kernel/mailbox.cpp:263-282 | the first message that is not DISCARDED; the discarded ones in front of it are now in the free queues of their classes, in order, nothing behind it moved, and every other buffer keeps its holder |
| MailBoxes.MailBox.DropAndTake | Publisher Subscriber server/Publisher_Subscriber_server/Kernel/mailbox.cpp:268-276 | one turn of the drop loop: one buffer more in the free queue of its class, one message less in the mailbox |
| MailBoxes.MailBox.Purge | Publisher Subscriber server/Publisher_Subscriber_server/Kernel/mailbox.cpp:320-326 | the mailbox is empty and every message is in the free queue of its class, once, in order |
| MailBoxes.PostOffice.constructor | Publisher Subscriber server/Publisher_Subscriber_server/Kernel/postOffice.cpp:30-55 | empty mailboxes over one pool with disjoint lists and zero semaphores |
| MailBoxes.PostOffice.Link | Publisher Subscriber server/Publisher_Subscriber_server/Kernel/postOffice.cpp:89 | the first half of Add: only the named mailbox grows |
| MailBoxes.PostOffice.Add | Publisher Subscriber server/Publisher_Subscriber_server/Kernel/postOffice.cpp:85-91 | the message is at the tail of its mailbox, that semaphore raised unless it is at its cap, no other mailbox or holder touched; refuses an unknown mailbox |
| MailBoxes.PostOffice.Wait | Publisher Subscriber server/Publisher_Subscriber_server/Kernel/postOffice.cpp:128-130 | takes one count from the lowest signalled mailbox; blocks exactly when none is signalled |
| MailBoxes.PostOffice.Get | Publisher Subscriber server/Publisher_Subscriber_server/Kernel/postOffice.cpp:121-126 | Get on one mailbox: what it does to that mailbox and the free queues, no other mailbox changed; refuses an unknown mailbox |
| MailBoxes.PostOffice.GetSync | Publisher Subscriber server/Publisher_Subscriber_server/Kernel/postOffice.cpp:128-135 | waits, then the Get of the lowest signalled mailbox, which may find nothing; blocks exactly when none is signalled |
| MailBoxes.PostOffice.PurgeMailBox | Publisher Subscriber server/Publisher_Subscriber_server/Kernel/postOffice.cpp:171-176 | empties one mailbox into the free queues; refuses an unknown mailbox |
| MailBoxes.PostOffice.Purge | Publisher Subscriber server/Publisher_Subscriber_server/Kernel/postOffice.cpp:158-160 | empties every mailbox into the free queues, one after the other |
| Deltas.InsertRefinesDeadlines | Publisher Subscriber server/Publisher_Subscriber_server/Kernel/timer.cpp:203-221 | adding to the delta list is a stable insert into the list of absolute deadlines: no other deadline moves, the new one is its count, behind all equal ones |
| Deltas.InsertAddsDeadline | Publisher Subscriber server/Publisher_Subscriber_server/Kernel/timer.cpp:203-221 | the deadlines after an add |
| Deltas.PlaceDividesDeadlines | Publisher Subscriber server/Publisher_Subscriber_server/Kernel/timer.cpp:204-210 | everything in front of the place is due no later, everything behind it later |
| Deltas.DeadlineIsPrefixSum | Publisher Subscriber server/Publisher_Subscriber_server/Kernel/timer.cpp:203-221 | a deadline is the sum of the deltas up to its entry |
| Deltas.WalkStopsBefore | Publisher Subscriber server/Publisher_Subscriber_server/Kernel/timer.cpp:204-216 | where the walk stops inside the list, the two writes there are the insert |
| Deltas.WalkEnds | Publisher Subscriber server/Publisher_Subscriber_server/Kernel/timer.cpp:217-221 | where the walk reaches the end, the append is the insert |
| Deltas.InsertKeepsFrontPositive | Publisher Subscriber server/Publisher_Subscriber_server/Kernel/timer.cpp:203-221 | the list stays ready for the next tick exactly when the count added is not zero |
| Deltas.DecrementLowersAll | Publisher Subscriber server/Publisher_Subscriber_server/Kernel/timer.cpp:532-534 | one decrement lowers every deadline by one, and none goes below zero |
| Deltas.DrainTakesDue | Publisher Subscriber server/Publisher_Subscriber_server/Kernel/timer.cpp:535-547 | the entries drained are exactly those that are due, and no other deadline moves |
| Deltas.TickRefinesDeadlines | Publisher Subscriber server/Publisher_Subscriber_server/Kernel/timer.cpp:532-547 | a tick is: subtract one from every deadline and take out the zeros, in order |
| Timers.Timer.Walk | Publisher Subscriber server/Publisher_Subscriber_server/Kernel/timer.cpp:204-210 | the walking loop: it subtracts what it passes and never below zero |
| Timers.Timer.QueueBefore | Publisher Subscriber server/Publisher_Subscriber_server/Kernel/timer.cpp:212-216 | the new timer is linked before the entry, which from then on counts from it |
| Timers.Timer.QueueLast | Publisher Subscriber server/Publisher_Subscriber_server/Kernel/timer.cpp:217-221 | the new timer is linked behind the last entry |
| Timers.Timer.Add | Publisher Subscriber server/Publisher_Subscriber_server/Kernel/timer.cpp:192-225 | the linked list and its counts become those of the insert, at the place of the insert |
| Timers.Timer.Unlink | Publisher Subscriber server/Publisher_Subscriber_server/Kernel/timer.cpp:536-537 | takes exactly the front timer off the list |
| Timers.Timer.CountDown | Publisher Subscriber server/Publisher_Subscriber_server/Kernel/timer.cpp:534 | only the front count changes; a zero wraps to 2^32 - 1 |
| Timers.Timer.PostFront | Publisher Subscriber server/Publisher_Subscriber_server/Kernel/timer.cpp:536-546 | one turn of the drain loop: the front timer is at the tail of its own mailbox, whose semaphore is raised |
| Timers.Timer.Drain | Publisher Subscriber server/Publisher_Subscriber_server/Kernel/timer.cpp:535-547 | the leading timers whose count is zero, and no others, are in their mailboxes, in list order; mailboxes and semaphores are those after posting them one by one |
| Timers.Timer.TimerIntHandler | Publisher Subscriber server/Publisher_Subscriber_server/Kernel/timer.cpp:532-548 | a tick posts exactly the expired timers, and says what every mailbox and semaphore is then; with a zero count in front it wraps and posts nothing |
| Timers.Timer.StartTimer | Publisher Subscriber server/Publisher_Subscriber_server/Kernel/timer.cpp:351-375 | refuses a zero count; otherwise adds with the scaled 32-bit count and its mailbox |
| Timers.Timer.RestartTimer | Publisher Subscriber server/Publisher_Subscriber_server/Kernel/timer.cpp:387-418 | adds a copy with the same bytes, code and mailbox and cancels the old message, wherever it is or whoever holds it; fails exactly on a zero count, a cancelled message or an exhausted pool, and then changes nothing; only the copy changes hands |
| Timers.Timer.CopyMessage | Publisher Subscriber server/Publisher_Subscriber_server/Kernel/timer.cpp:410-414 | header and parameters are copied, the count replaced |
| Timers.Timer.StopTimer | Publisher Subscriber server/Publisher_Subscriber_server/Kernel/timer.cpp:427-430 | only the code changes, to DISCARDED; the timer stays in its list |
| Timers.Timer.Purge | Publisher Subscriber server/Publisher_Subscriber_server/Kernel/timer.cpp:262-276 | the list is empty and every timer in the free queue of its class, once, in list order |
| Timers.ScaledPositiveIff | Publisher Subscriber server/Publisher_Subscriber_server/Kernel/timer.cpp:370 | without overflow the scaled count is exact, and it is positive exactly when the unit is not below the tick |
| Timers.ScaledWraps | Publisher Subscriber server/Publisher_Subscriber_server/Kernel/timer.cpp:370 | with overflow the scaled count is the product less a multiple of 2^32 |
| Kernels.KernelAPI.ListsDisjoint | Publisher Subscriber server/Publisher_Subscriber_server/Kernel/buffersQueue.cpp:134-164 | in every valid kernel no two of the free queues, mailboxes and timer list share a buffer, although one link field threads them all |
| Kernels.KernelAPI.NoRepeats | Publisher Subscriber server/Publisher_Subscriber_server/Kernel/mailbox.cpp:191-199 | and no list holds a buffer twice, so the links run in no circle |
| Kernels.KernelAPI.LinksLead | Publisher Subscriber server/Publisher_Subscriber_server/Kernel/mailbox.cpp:151-165 | the shared link of each buffer leads to the next of its own list, the last to null |
| Kernels.KernelAPI.HeldAt | Publisher Subscriber server/Publisher_Subscriber_server/Kernel/buffersQueue.cpp:156-164 | a buffer in a list names that list as its holder |
| Kernels.KernelAPI.InItsList | Publisher Subscriber server/Publisher_Subscriber_server/Kernel/buffersQueue.cpp:156-164 | a buffer that names a list as its holder is in it |
| Kernels.KernelAPI.constructor | Publisher Subscriber server/Publisher_Subscriber_server/Kernel/postOffice.cpp:30-55 | start-up gives a valid kernel: every buffer free, no message, no timer |
| Kernels.KernelAPI.GetBuffer | Publisher Subscriber server/Publisher_Subscriber_server/Kernel/kernelAPI.h:300 | keeps the kernel valid: one free queue loses its head, that buffer is in hand, no mailbox, timer or other holder changes |
| Kernels.KernelAPI.RetBuffer | Publisher Subscriber server/Publisher_Subscriber_server/Kernel/kernelAPI.h:301 | keeps the kernel valid: one free queue gains the buffer, nothing else changes |
| Kernels.KernelAPI.SendMessage | Publisher Subscriber server/Publisher_Subscriber_server/Kernel/kernelAPI.h:320 | keeps the kernel valid: one mailbox gains the message, free queues and timers stay |
| Kernels.KernelAPI.GetMsg | Publisher Subscriber server/Publisher_Subscriber_server/Kernel/kernelAPI.h:308 | keeps the kernel valid: what the mailbox and the free queues hold afterwards, which dropped buffers are free, which message came out |
| Kernels.KernelAPI.GetMsgSync | Publisher Subscriber server/Publisher_Subscriber_server/Kernel/postOffice.cpp:128-135 | keeps the kernel valid: the same behind a wait, blocking exactly when nothing is signalled |
| Kernels.KernelAPI.AddTimer | Publisher Subscriber server/Publisher_Subscriber_server/Kernel/timer.cpp:351-375 | keeps the kernel valid: a buffer in hand becomes a timer at its place |
| Kernels.KernelAPI.StartTimer | Publisher Subscriber server/Publisher_Subscriber_server/Kernel/kernelAPI.cpp:87-107 | keeps the kernel valid: a header-sized buffer leaves the pool and becomes a timer with the code and mailbox; a zero count is refused after the buffer was taken |
| Kernels.KernelAPI.StopTimer | Publisher Subscriber server/Publisher_Subscriber_server/Kernel/kernelAPI.h:327 | keeps the kernel valid and moves no buffer: only the code changes |
| Kernels.KernelAPI.RestartTimer | Publisher Subscriber server/Publisher_Subscriber_server/Kernel/timer.cpp:387-418 | keeps the kernel valid: the copy leaves the pool and is in the timer list, the old message stays where it is, cancelled |
| Kernels.KernelAPI.Tick | Publisher Subscriber server/Publisher_Subscriber_server/Kernel/timer.cpp:532-548 | keeps the kernel valid: the expired timers, and no others, are now in the mailboxes they named, whose contents and semaphores are stated; the pool does not change |
| Kernels.KernelAPI.ExpiredAreQueued | Publisher Subscriber server/Publisher_Subscriber_server/Kernel/timer.cpp:545 | every expired timer is held by the list of the mailbox it named |
| Kernels.KernelAPI.PurgeMailBox | Publisher Subscriber server/Publisher_Subscriber_server/Kernel/kernelAPI.h:310 | keeps the kernel valid: one mailbox is emptied into the free queues |
| Kernels.KernelAPI.PurgeOffice | Publisher Subscriber server/Publisher_Subscriber_server/Kernel/postOffice.cpp:158-160 | keeps the kernel valid: all mailboxes are emptied into the free queues |
| Kernels.KernelAPI.PurgeTimers | Publisher Subscriber server/Publisher_Subscriber_server/Kernel/timer.cpp:262-276 | keeps the kernel valid: the timer list is emptied into the free queues |
| Conservation.StepMoves | Publisher Subscriber server/Publisher_Subscriber_server/Kernel/buffersQueue.cpp:134-164 | no step of any thread or of the timer loses or duplicates a buffer |
| Conservation.StepPure | Publisher Subscriber server/Publisher_Subscriber_server/Kernel/buffers.cpp:112-118 | a free queue only ever holds buffers of its own class |
| Conservation.StepConserves | Publisher Subscriber server/Publisher_Subscriber_server/Kernel/buffers.cpp:83-118 | every step keeps each buffer in exactly one place |
| Conservation.InitConserves | Publisher Subscriber server/Publisher_Subscriber_server/Kernel/buffersQueue.cpp:77-95 | so does start-up |
| Places.RunConserves | Publisher Subscriber server/Publisher_Subscriber_server/Kernel/mailbox.cpp:151-199 | so does every run |
| Places.OnePlace | Publisher Subscriber server/Publisher_Subscriber_server/Kernel/mailbox.cpp:151-199 | in every reachable state each buffer is once in one of: a free queue, a mailbox, the timer list, a hand, the interrupt handler |
| Places.QueuesApart | Publisher Subscriber server/Publisher_Subscriber_server/Kernel/buffersQueue.cpp:156-164 | a buffer at one position of a free queue, a mailbox or the timer list is at no other position of any of them, whatever the interleaving |
| Places.OwnedAlone | Publisher Subscriber server/Publisher_Subscriber_server/Kernel/kernelAPI.h:316-320 | a buffer in a thread's hand is in no list and in no other hand |
| Places.FreePlusInUse | Publisher Subscriber server/Publisher_Subscriber_server/Kernel/buffersQueue.cpp:77-78 | per class, free plus in use is the number initiated, and what is in use is in a mailbox, a timer or a hand |
| WakeUps.MailboxFits | Publisher Subscriber server/Publisher_Subscriber_server/Kernel/postOffice.cpp:46 | a mailbox never holds more than the pool |
| WakeUps.StepCovers | Publisher Subscriber server/Publisher_Subscriber_server/Kernel/postOffice.cpp:85-91 | every step keeps: semaphore + half-done posts + due dequeues >= messages in the mailbox, while none holds more than the cap, although one Get may drop several |
| WakeUps.PopCovers | Publisher Subscriber server/Publisher_Subscriber_server/Kernel/mailbox.cpp:263-282 | a dequeue uses up the waiter's count; later drops only make room |
| WakeUps.RunCovers | Publisher Subscriber server/Publisher_Subscriber_server/Kernel/postOffice.cpp:85-135 | so does every run, with at most 10000 buffers |
| WakeUps.BlockedOnlyWhilePending | Publisher Subscriber server/Publisher_Subscriber_server/Kernel/postOffice.cpp:128-135 | a wait that blocks on a mailbox holding a message has a thread or the handler between link and release, or between wait and dequeue |
| Overflow.FillMailbox | Publisher Subscriber server/Publisher_Subscriber_server/Kernel/postOffice.cpp:46 | a run that puts any number of messages into one mailbox |
| Overflow.CoveredIsNotLost | Publisher Subscriber server/Publisher_Subscriber_server/Kernel/postOffice.cpp:85-135 | the account rules out such a state |
| Overflow.MessageStranded | Publisher Subscriber server/Publisher_Subscriber_server/Kernel/postOffice.cpp:46 | beyond the cap: 10001 posts, then 10000 rounds of wait and dequeue, leave a message in a mailbox whose waits block |
| Overflow.StrandedForGood | Publisher Subscriber server/Publisher_Subscriber_server/Kernel/postOffice.cpp:128-130 | in every run from there in which nothing more is posted to the mailbox and nobody polls it, it stays so |
| Overflow.NoLostWakeUpIff | Publisher Subscriber server/Publisher_Subscriber_server/Kernel/postOffice.cpp:46-91 | in no run does a wait block on a mailbox that holds a message while no post is half done and no thread is about to dequeue, if and only if the pool has at most 10000 buffers |
| Calls.RunAsks | Publisher Subscriber server/Publisher_Subscriber_server/Kernel/timer.cpp:351-375 | along every run the log of starts is, in order, one entry for each start among the actions, with its buffer, mailbox and count and the number of ticks begun before it; a function of the actions alone |
| Calls.AskedAt | Publisher Subscriber server/Publisher_Subscriber_server/Kernel/timer.cpp:351-375 | the entry of a start action is at its number among the starts |
| Calls.AskedBy | Publisher Subscriber server/Publisher_Subscriber_server/Kernel/timer.cpp:351-375 | every entry is that of a start action |
| Calls.StepSends | Publisher Subscriber server/Publisher_Subscriber_server/Kernel/postOffice.cpp:85-91 | one step links a message only to the mailbox that the thread names or that the posted timer names |
| Calls.MailboxGetsItsPosts | Publisher Subscriber server/Publisher_Subscriber_server/Kernel/postOffice.cpp:85-91 | over every run each mailbox is linked exactly the messages that threads posted to it and the timers posted to it, in the order of the actions, each timer in the tick of its action |
| MailOrder.PickIff | Publisher Subscriber server/Publisher_Subscriber_server/Kernel/mailbox.cpp:268 | which numbered messages of a mailbox count as handed over, dropped or not yet read: those whose code at the time of reading says so |
| MailOrder.PickAscends | Publisher Subscriber server/Publisher_Subscriber_server/Kernel/mailbox.cpp:263-282 | and they are listed in the order in which they were dequeued |
| MailOrder.StepAccounts | Publisher Subscriber server/Publisher_Subscriber_server/Kernel/mailbox.cpp:151-282 | every step keeps, per mailbox: linked = dequeued followed by queued; handed over = dequeued with a live code; given back and being dropped = dequeued with DISCARDED; unread = in some thread's hand |
| MailOrder.GetReturnsTheLive | Publisher Subscriber server/Publisher_Subscriber_server/Kernel/mailbox.cpp:263-282 | over every run with any number of readers: what was dequeued and what waits are what the actions posted to the mailbox, in their order; what Get has returned is exactly what was dequeued minus what was DISCARDED when its code was read, and once no thread is in between exactly the others are back in the pool |
| MailOrder.StepSole | Publisher Subscriber server/Publisher_Subscriber_server/Kernel/mailbox.cpp:263-282 | with one reader every step keeps the two sequences, not only their elements |
| MailOrder.SoleReaderGetsInOrder | Publisher Subscriber server/Publisher_Subscriber_server/Kernel/mailbox.cpp:263-282 | with one reader, as in the dispatch loop: the sequence returned is the sequence dequeued minus the DISCARDED ones, in order, and the pool has got back those, in order |
| Cancellation.StepCancelled | Publisher Subscriber server/Publisher_Subscriber_server/Kernel/mailbox.cpp:268-276 | no step delivers a cancelled message, and it stays cancelled until it is dropped into the pool |
| Cancellation.StepHandles | Publisher Subscriber server/Publisher_Subscriber_server/Kernel/fsm.cpp:230-253 | every handle an automate keeps names a travelling, uncancelled message |
| Cancellation.StepDrops | Publisher Subscriber server/Publisher_Subscriber_server/Kernel/mailbox.cpp:268-276 | whatever is being dropped was cancelled |
| Cancellation.CancelledIsSilent | Publisher Subscriber server/Publisher_Subscriber_server/Kernel/mailbox.cpp:263-282 | along any run a cancelled message is received by nobody before its buffer is back in the pool |
| Cancellation.StoppedNeverDelivered | Publisher Subscriber server/Publisher_Subscriber_server/Kernel/timer.cpp:427-430 | after StopTimer on a live handle, in any reachable state and under any schedule, no Get returns the message before its buffer is back in the pool |
| Cancellation.RunningIffArmed | Publisher Subscriber server/Publisher_Subscriber_server/Kernel/timer.cpp:441-447 | what TimerRunning means in every reachable state: of a handle an automate keeps, it is true and the message is still to come, in the timer list, the handler's hand, a mailbox or unread; of a message that has not expired, it is true exactly if it is such a handle |
| Restarts.RestartSwapsHandles | Publisher Subscriber server/Publisher_Subscriber_server/Kernel/timer.cpp:387-418 | an uninterrupted restart runs, cancels the old message and leaves only the copy, with the same code and mailbox, live |
| Restarts.RunArmed | Publisher Subscriber server/Publisher_Subscriber_server/Kernel/timer.cpp:427-430 | along any run a handle stays live with its code and mailbox until a thread receives its message or it is stopped |
| Restarts.RunOwned | Publisher Subscriber server/Publisher_Subscriber_server/Kernel/timer.cpp:408-412 | along any steps of others a buffer in hand stays in hand with its code |
| Restarts.RestartUnderInterleaving | Publisher Subscriber server/Publisher_Subscriber_server/Kernel/timer.cpp:387-418 | a restart whose four steps are interleaved with anything that other threads, the tick and stops do: the old message was received or stopped before the last step, or that step cancels it and the copy has its code and mailbox; the copy is live with them, or was received or stopped after its start |
| Expiry.StepTickets | Publisher Subscriber server/Publisher_Subscriber_server/Kernel/timer.cpp:532-547 | every start is pending, in the handler's hand or posted, exactly once |
| Expiry.StepTimes | Publisher Subscriber server/Publisher_Subscriber_server/Kernel/timer.cpp:203-221 | every step keeps: start tick + count = now + what the deltas say is left |
| Expiry.TimedIsPunctual | Publisher Subscriber server/Publisher_Subscriber_server/Kernel/timer.cpp:532-547 | from these: posted in exactly the due tick, to its own mailbox, once, and by the end of that tick |
| Expiry.RunPunctual | Publisher Subscriber server/Publisher_Subscriber_server/Kernel/timer.cpp:192-225 | over every run with positive scaled counts, whatever else is started, stopped, restarted or posted: each start among the actions is posted in the tick that is its own count after the ticks begun before it, once, to the mailbox it names, and by the end of that tick |
| Expiry.AllOnTimeIff | Publisher Subscriber server/Publisher_Subscriber_server/Kernel/timer.cpp:351-375 | punctuality by the log of starts and by the start actions of the run are the same |
| Expiry.PostsAreAsked | Publisher Subscriber server/Publisher_Subscriber_server/Kernel/timer.cpp:545 | with any counts: every timer posted is the message of a start among the actions, to the mailbox of that start |
| Exactness.SoloRunPunctual | Publisher Subscriber server/Publisher_Subscriber_server/Kernel/timer.cpp:532-547 | with a single buffer every start action with a positive count is on time in every run, even among zero counts |
| Exactness.ZeroDelaysOther | Publisher Subscriber server/Publisher_Subscriber_server/Kernel/timer.cpp:534 | with two buffers and zero counts there is a run in which a timer started for one tick is not posted in its tick: the zero in front of it wraps to 2^32 - 1 |
| Exactness.ExactExpiryIff | Publisher Subscriber server/Publisher_Subscriber_server/Kernel/timer.cpp:351-375 | every start action with a positive count is on time in every run if and only if no caller passes a scaled count of zero or there is at most one buffer |
| Sequential.TickRun | Publisher Subscriber server/Publisher_Subscriber_server/Kernel/timer.cpp:532-548 | the handler's steps alone, uninterrupted, lead from any state with a positive front to the state in which timers, mailboxes and semaphores are related as by one call of the handler, and no other field has changed |
| Sequential.DrainRun | Publisher Subscriber server/Publisher_Subscriber_server/Kernel/timer.cpp:535-547 | the handler's steps of the drain end, and the whole state is the one after posting the due timers one by one |
| Sequential.GetRun | Publisher Subscriber server/Publisher_Subscriber_server/Kernel/mailbox.cpp:263-282 | the thread's dequeue steps alone, uninterrupted, end, and mailbox, free queues and the thread's hand are related as by one Get; all other threads, mailboxes, semaphores and timers are as before |
| Sequential.GetSyncRun | Publisher Subscriber server/Publisher_Subscriber_server/Kernel/postOffice.cpp:128-135 | a signalled wait is possible and takes one count of that semaphore; with the Get behind it, uninterrupted, the state is the one after GetSync on that mailbox |
| Sequential.PollRun | Publisher Subscriber server/Publisher_Subscriber_server/Kernel/postOffice.cpp:121-126 | the same without a wait |
| Sequential.LinkRun | Publisher Subscriber server/Publisher_Subscriber_server/Kernel/postOffice.cpp:89 | the first half of a post is possible for every owner and appends to the mailbox named, nothing else |
| Sequential.ReleaseRun | Publisher Subscriber server/Publisher_Subscriber_server/Kernel/postOffice.cpp:90 | the second half raises the semaphore of that mailbox, whatever happened in between |
| Sequential.PostRun | Publisher Subscriber server/Publisher_Subscriber_server/Kernel/postOffice.cpp:85-91 | an uninterrupted post leaves mailbox and semaphore as one Add does, and every other mailbox, semaphore, timer and free queue as before |
| Sequential.TakeRun | Publisher Subscriber server/Publisher_Subscriber_server/Kernel/buffersQueue.cpp:191-202 | a buffer can be taken from every class that has one, and it is the head |
| Sequential.ReturnRun | Publisher Subscriber server/Publisher_Subscriber_server/Kernel/buffers.cpp:112-118 | every owner can give a buffer back, and it goes to the tail of the queue of its class, as by RetBuffer |
| Sequential.StartRun | Publisher Subscriber server/Publisher_Subscriber_server/Kernel/timer.cpp:192-225 | every owner can start a timer while no tick is under way, and list and counts are as by one StartTimer with that scaled count |
| Sequential.StopRun | Publisher Subscriber server/Publisher_Subscriber_server/Kernel/timer.cpp:427-430 | every handle can be stopped, and only its code changes |
| Sequential.WriteRun | Publisher Subscriber server/Publisher_Subscriber_server/Kernel/kernelAPI.cpp:99 | every owner can write the code of its message, and only that code changes |
| Sequential.WrapRun | Publisher Subscriber server/Publisher_Subscriber_server/Kernel/timer.cpp:532-535 | a tick that finds a zero in front wraps it to 2^32 - 1 and posts nothing, as by one call of the handler |
| Sequential.StartUp | Publisher Subscriber server/Publisher_Subscriber_server/Kernel/buffersQueue.cpp:77-95 | the machine starts with empty mailboxes, semaphores at zero, no timer, and in each free queue the buffers of its class in the order carved |
| Params.DecodeOfList | Publisher Subscriber server/Publisher_Subscriber_server/Kernel/stdMsgpc16pl16.cpp:46-62 | a reader of the bytes finds the list that was written, when no code is zero |
| Params.DecodeStopsAt | Publisher Subscriber server/Publisher_Subscriber_server/Kernel/stdMsgpc16pl16.cpp:55 | a zero code hides itself and everything behind it |
| Params.InsertedIsStable | Publisher Subscriber server/Publisher_Subscriber_server/Kernel/stdMsgpc16pl16.cpp:73-89 | an insert keeps codes ascending; entries of one code stay in order, the new one last |
| Params.BuiltKeepsOrder | Publisher Subscriber server/Publisher_Subscriber_server/Kernel/stdMsgpc16pl16.cpp:267-290 | whatever the order of the adds, the message is sorted and holds each code's entries in the order added |
| Params.InsertVisibleIff | Publisher Subscriber server/Publisher_Subscriber_server/Kernel/stdMsgpc16pl16.cpp:267-290 | the reader finds the list with the parameter inserted if and only if its code is not zero; a zero code hides the whole list |
| StdMessages.AddedHolds | Publisher Subscriber server/Publisher_Subscriber_server/Kernel/stdMsgpc16pl16.cpp:275-282 | the writes of AddParam leave exactly the bytes of the list with the parameter inserted, terminator and length included |
| StdMessages.AddedLength | Publisher Subscriber server/Publisher_Subscriber_server/Kernel/stdMsgpc16pl16.cpp:282 | the stored length grows by header and value; the rest of the header is untouched |
| StdMessages.WithEndTerminates | Publisher Subscriber server/Publisher_Subscriber_server/Kernel/stdMsgpc16pl16.cpp:354-357 | behind parameters that have no terminator yet it completes the list; an empty message becomes the terminated empty list of length 2 |
| StdMessages.OfCodeFrom | Publisher Subscriber server/Publisher_Subscriber_server/Kernel/stdMsgpc16pl16.cpp:175-177 | searching on from behind each hit goes through exactly the entries of the code |
| StdMessages.StdMsg.SetENDOfParams | Publisher Subscriber server/Publisher_Subscriber_server/Kernel/stdMsgpc16pl16.cpp:354-357 | writes the terminator behind the stored length, whatever it is, and counts its two bytes in 16 bits |
| StdMessages.StdMsg.FindParamPlace | Publisher Subscriber server/Publisher_Subscriber_server/Kernel/stdMsgpc16pl16.cpp:73-89 | stops before the first greater code, inside the stored length; terminates an empty message on the way |
| StdMessages.StdMsg.AddParam | Publisher Subscriber server/Publisher_Subscriber_server/Kernel/stdMsgpc16pl16.cpp:267-290 | the message then holds the list with the parameter behind every entry of a code at most its own |
| StdMessages.StdMsg.Write | Publisher Subscriber server/Publisher_Subscriber_server/Kernel/stdMsgpc16pl16.cpp:275-282 | memmove, header, value and length, as one change of the bytes |
| StdMessages.StdMsg.FindParam | Publisher Subscriber server/Publisher_Subscriber_server/Kernel/stdMsgpc16pl16.cpp:46-62 | finds the next entry of the code from the cursor and puts the cursor behind it; otherwise null, cursor zero |
| StdMessages.StdMsg.GetParam | Publisher Subscriber server/Publisher_Subscriber_server/Kernel/stdMsgpc16pl16.cpp:111-123 | the value of the first entry of the code |
| StdMessages.StdMsg.GetNextParam | Publisher Subscriber server/Publisher_Subscriber_server/Kernel/stdMsgpc16pl16.cpp:175-177 | the value of the next entry of the code behind the cursor |
| StdMessages.StdMsg.ReadAll | Publisher Subscriber server/Publisher_Subscriber_server/Kernel/stdMsgpc16pl16.cpp:99-101 | GetParam, then GetNextParam until null, returns the values of exactly the entries of the code, in order, and leaves the cursor at zero |
| MessageHandlers.RoomAfterCheck | Publisher Subscriber server/Publisher_Subscriber_server/Kernel/messages.cpp:188-197 | the slack of 8 and 10 covers parameter header and terminator for every stored length |
| MessageHandlers.PrefixHolds | Publisher Subscriber server/Publisher_Subscriber_server/Kernel/messages.cpp:192 | header and parameters alone determine the message |
| MessageHandlers.MessageHandler.PrepareNewMessage | Publisher Subscriber server/Publisher_Subscriber_server/Kernel/messages.cpp:61-75 | an owned buffer that is long enough, with the code and the coding asked for in its header bytes, and no parameters |
| MessageHandlers.MessageHandler.Grow | Publisher Subscriber server/Publisher_Subscriber_server/Kernel/messages.cpp:191-195 | the used bytes and the header words move to a longer buffer and the old buffer goes back, once |
| MessageHandlers.MessageHandler.CheckBufferSize | Publisher Subscriber server/Publisher_Subscriber_server/Kernel/messages.cpp:188-197 | afterwards the parameter fits; same header, header words and parameters; the buffer is replaced only when it was small, and it fails exactly when it was small and no class has a longer free buffer |
| MessageHandlers.MessageHandler.AddParam | Publisher Subscriber server/Publisher_Subscriber_server/Kernel/messages.cpp:176-179 | the message holds the inserted list and keeps its code, coding and the rest of the header in front of its length, also when it grows; it fails exactly when the buffer was small and no class has a longer free buffer, and then changes nothing; a replaced buffer is free again |
| Channel.ProcAt | Publisher Subscriber server/Publisher_Subscriber_server/Kernel/fsm.cpp:309-320 | the search loop returns the first branch bound to the event |
| Channel.ChAuto.InitEventProc | Publisher Subscriber server/Publisher_Subscriber_server/Kernel/fsm.cpp:331-356 | binds an event once and makes the state valid; refuses a second binding, and reports a fourth branch after binding it |
| Channel.ChAuto.GetProcedure | Publisher Subscriber server/Publisher_Subscriber_server/Kernel/fsm.cpp:309-320 | the bound procedure, or the one for unexpected events |
| Channel.ChAuto.Initialize | Publisher Subscriber server/Publisher_Subscriber_server/POP3ClientCppUnit/ChAuto.cpp:91-111 | the branch table of the automate |
| Channel.ChAuto.Start | Publisher Subscriber server/Publisher_Subscriber_server/POP3ClientCppUnit/ChAuto.cpp:113-185 | the three outcomes of start-up and the one message each of them sends, or none |
| Channel.ChAuto.SendToSelf | Publisher Subscriber server/Publisher_Subscriber_server/Kernel/messages.cpp:61-74 | uses one buffer; at least 48 of the 50 stay free |
| Channel.ChAuto.IdleClConnected | Publisher Subscriber server/Publisher_Subscriber_server/POP3ClientCppUnit/ChAuto.cpp:187-228 | receives, and asks itself to classify |
| Channel.ChAuto.StoreDataSubPubProc | Publisher Subscriber server/Publisher_Subscriber_server/POP3ClientCppUnit/ChAuto.cpp:230-329 | classifies by the first letters, stores a publication, and sends the matching message, or none |
| Channel.ChAuto.ShareTopicDataProc | Publisher Subscriber server/Publisher_Subscriber_server/POP3ClientCppUnit/ChAuto.cpp:331-390 | answers a subscriber with the lookup, then goes back to receiving unless sending failed |
| Channel.ChAuto.ShareAllTopicsProc | Publisher Subscriber server/Publisher_Subscriber_server/POP3ClientCppUnit/ChAuto.cpp:392-433 | answers with the listing |
| Channel.ChAuto.PublishAckProc | Publisher Subscriber server/Publisher_Subscriber_server/POP3ClientCppUnit/ChAuto.cpp:435-469 | answers a publisher |
| Channel.ChAuto.DispatchOne | Publisher Subscriber server/Publisher_Subscriber_server/Kernel/fsmSystem.cpp:272-304 | one turn of the dispatch loop is one step of the protocol; it blocks exactly on an empty mailbox |
| Channel.OnTrackBound | Publisher Subscriber server/Publisher_Subscriber_server/POP3ClientCppUnit/ChAuto.cpp:91-111 | the message in flight has a branch of its own in the current state, so the procedure for unexpected events never runs and the state is valid |
| Channel.TableBinds | Publisher Subscriber server/Publisher_Subscriber_server/POP3ClientCppUnit/ChAuto.cpp:91-111 | which procedure every message runs in every state |
| Channel.DispatchInv | Publisher Subscriber server/Publisher_Subscriber_server/POP3ClientCppUnit/ChAuto.cpp:187-473 | one dispatch keeps the protocol's invariant, whatever is received and whether or not sending succeeds |
| Channel.ServerKeepsToken | Publisher Subscriber server/Publisher_Subscriber_server/POP3ClientCppUnit/ChAuto.cpp:187-473 | in every reachable state: at most one message, with a branch; none exactly after a failed start, an unrecognised command or a failed send; requests and replies strictly alternate, each reply the answer to the request before it |
| Channel.FreeDuringDispatch | Publisher Subscriber server/Publisher_Subscriber_server/POP3ClientCppUnit/main.cpp:24-28 | with the received and the new message both in use, 48 buffers are free |
| Channel.FirstDispatch | Publisher Subscriber server/Publisher_Subscriber_server/POP3ClientCppUnit/ChAuto.cpp:113-185 | what the first dispatch logs after each outcome of start-up: nothing without sockets, the failure and then silence without a server socket, the first request otherwise |
| Channel.RepliesMatchReceives | Publisher Subscriber server/Publisher_Subscriber_server/POP3ClientCppUnit/ChAuto.cpp:331-468 | each received request has exactly one reply attempt, but for one that was refused and one still pending |
| Channel.AnsweredNext | Publisher Subscriber server/Publisher_Subscriber_server/POP3ClientCppUnit/ChAuto.cpp:187-468 | a recognised request is answered two dispatches later from the store as it then is, and a publication has changed it by then |
| Channel.ClassifyIff | Publisher Subscriber server/Publisher_Subscriber_server/POP3ClientCppUnit/ChAuto.cpp:240-327 | a text is a publication, a subscription or a request for the topics exactly by its first characters |
| Channel.RefusedIff | Publisher Subscriber server/Publisher_Subscriber_server/POP3ClientCppUnit/ChAuto.cpp:238-329 | a text is refused, and the server silent for good under any inputs, if and only if its first characters spell none of PUB, SUB and LIST |
| Channel.ListAnswered | Publisher Subscriber server/Publisher_Subscriber_server/POP3ClientCppUnit/ChAuto.cpp:323-327 | LIST is answered two dispatches later by a text from which a client reads exactly the names of the store, ending with the one end mark in it |
| Channel.SubscribeAnswered | Publisher Subscriber server/Publisher_Subscriber_server/POP3ClientCppUnit/ChAuto.cpp:307-321 | SUB is answered two dispatches later by the lookup of what stands behind its first four characters, ending with the one end mark in it |
| Channel.PublishAnswered | Publisher Subscriber server/Publisher_Subscriber_server/POP3ClientCppUnit/ChAuto.cpp:240-304 | PUB is acknowledged two dispatches later, and the store has gained what it publishes |
| Channel.PublishThenSubscribe | Publisher Subscriber server/Publisher_Subscriber_server/POP3ClientCppUnit/ChAuto.cpp:230-390 | PUB of a topic whose first letter is new, then SUB of it, in five dispatches: the subscriber gets exactly what was published if and only if the topic is all capitals and the data holds no end mark |
| Publications.GetTopic | Publisher Subscriber server/Publisher_Subscriber_server/POP3ClientCppUnit/ChAuto.cpp:475-481 | the name in front of the colon |
| Publications.FindTopic | Publisher Subscriber server/Publisher_Subscriber_server/POP3ClientCppUnit/ChAuto.cpp:251-261 | the first record of exactly this name, or none |
| Publications.PublicationRead | Publisher Subscriber server/Publisher_Subscriber_server/POP3ClientCppUnit/ChAuto.cpp:242-265 | behind the first four characters a publication is its topic, a space and its data; without a space the data is what stands behind the request |
| Publications.StorePublication | Publisher Subscriber server/Publisher_Subscriber_server/POP3ClientCppUnit/ChAuto.cpp:240-298 | the store after a publication: a known topic's record is amended in place, a new one added last |
| Publications.NewRecord | Publisher Subscriber server/Publisher_Subscriber_server/POP3ClientCppUnit/ChAuto.cpp:268-283 | the text of a new record |
| Publications.Append | Publisher Subscriber server/Publisher_Subscriber_server/POP3ClientCppUnit/ChAuto.cpp:288-297 | the text of an amended record |
| Publications.PublishedNames | Publisher Subscriber server/Publisher_Subscriber_server/POP3ClientCppUnit/ChAuto.cpp:252-287 | a publication changes no other record and no name; a new record is named by the capitals its topic begins with |
| Publications.AmendedIff | Publisher Subscriber server/Publisher_Subscriber_server/POP3ClientCppUnit/ChAuto.cpp:290-296 | new data for a known topic is shown behind the old if and only if the record ends with its end mark and the data holds none; a record without one loses a character, and behind anything else the data is hidden |
| Publications.PublishedAnswered | Publisher Subscriber server/Publisher_Subscriber_server/POP3ClientCppUnit/ChAuto.cpp:252-287 | a new topic is answered as published if and only if it is all capitals and the data holds no end mark |
| Publications.PublishedUntilNext | Publisher Subscriber server/Publisher_Subscriber_server/POP3ClientCppUnit/ChAuto.cpp:268-287 | and no longer once the next new topic is stored: the answer runs on into that record |
| Topics.CopyRecord | Publisher Subscriber server/Publisher_Subscriber_server/POP3ClientCppUnit/ChAuto.cpp:341-364 | one record is copied up to its end mark when its name begins the topic or copying has begun before; otherwise what the two have in common is left behind |
| Topics.ShareTopicData | Publisher Subscriber server/Publisher_Subscriber_server/POP3ClientCppUnit/ChAuto.cpp:331-367 | the text sent for any topic on any store, with and without end marks |
| Topics.LookupIs | Publisher Subscriber server/Publisher_Subscriber_server/POP3ClientCppUnit/ChAuto.cpp:339-366 | the whole answer for any store and topic: what the names in front of the record hit, or all names, have in common with the topic; then that record and what is copied behind it; then the end mark |
| Topics.CopiedIs | Publisher Subscriber server/Publisher_Subscriber_server/POP3ClientCppUnit/ChAuto.cpp:339-364 | copying takes the records up to the first that has an end mark, or all |
| Topics.LookupExactIff | Publisher Subscriber server/Publisher_Subscriber_server/POP3ClientCppUnit/ChAuto.cpp:339-366 | the answer is exactly the record if and only if no earlier record shares its first letter with the topic and the record has an end mark or is the last |
| Topics.SubscribeStored | Publisher Subscriber server/Publisher_Subscriber_server/POP3ClientCppUnit/ChAuto.cpp:339-366 | names that differ in the first letter: SUB of a stored name answers with exactly its record if and only if it has an end mark or is the last |
| Topics.SubscribeUnknown | Publisher Subscriber server/Publisher_Subscriber_server/POP3ClientCppUnit/ChAuto.cpp:366-367 | a topic is answered by the end mark alone if and only if it shares its first letter with no record and every record has a name |
| Topics.LookupFits | Publisher Subscriber server/Publisher_Subscriber_server/POP3ClientCppUnit/ChAuto.cpp:334 | on such a store with end marks no answer is longer than the longest record and its end mark |
| Topics.LookupMarked | Publisher Subscriber server/Publisher_Subscriber_server/POP3ClientCppUnit/ChAuto.cpp:366-367 | every answer to SUB ends with the one end mark in it |
| Topics.CopyName | Publisher Subscriber server/Publisher_Subscriber_server/POP3ClientCppUnit/ChAuto.cpp:399-406 | one name up to its colon, and a line break |
| Topics.ShareAllTopics | Publisher Subscriber server/Publisher_Subscriber_server/POP3ClientCppUnit/ChAuto.cpp:392-411 | every name and a line break in store order, then the end mark |
| Topics.ListingMarked | Publisher Subscriber server/Publisher_Subscriber_server/POP3ClientCppUnit/ChAuto.cpp:410-411 | so does every answer to LIST |
| Topics.ListingNamesAll | Publisher Subscriber server/Publisher_Subscriber_server/POP3ClientCppUnit/ChAuto.cpp:392-411 | a client that splits the listing gets exactly the names, in store order |
| TestPaths.FirstChainIsChain | Publisher Subscriber server/Publisher_Subscriber_server/CppUnit_1.12.1/src/cppunit/Test.cpp:31-52 | what a search finds is a parent-to-child chain from the root to a hit |
| TestPaths.FirstChainComplete | Publisher Subscriber server/Publisher_Subscriber_server/CppUnit_1.12.1/src/cppunit/Test.cpp:31-52 | a hit anywhere in the subtree is enough to find one |
| TestPaths.FirstChainIff | Publisher Subscriber server/Publisher_Subscriber_server/CppUnit_1.12.1/src/cppunit/Test.cpp:31-77 | the search finds the way to the first hit in tree order, parents before children and children in order, and nothing else is that way |
| TestPaths.FirstHitIff | Publisher Subscriber server/Publisher_Subscriber_server/CppUnit_1.12.1/src/cppunit/Test.cpp:31-52 | the test at its end is the first hit below the root |
| TestPaths.MissesAll | Publisher Subscriber server/Publisher_Subscriber_server/CppUnit_1.12.1/src/cppunit/Test.cpp:31-52 | a subtree that misses holds no hit at all |
| TestPaths.FindTestIff | Publisher Subscriber server/Publisher_Subscriber_server/CppUnit_1.12.1/src/cppunit/Test.cpp:56-77 | searching for a test gives the chain down to it if and only if it is in the subtree |
| TestPaths.FindTestPath | Publisher Subscriber server/Publisher_Subscriber_server/CppUnit_1.12.1/src/cppunit/Test.cpp:56-77 | the ancestors are put in front of what the path held and the test behind it; nothing changes when it is not found |
| TestPaths.FindTestPathByName | Publisher Subscriber server/Publisher_Subscriber_server/CppUnit_1.12.1/src/cppunit/Test.cpp:31-52 | the same for the first test of that name |
| TestPaths.PrintParseIff | Publisher Subscriber server/Publisher_Subscriber_server/CppUnit_1.12.1/src/cppunit/TestPath.cpp:43-70 | resolving the printed path from its root gives the path back if and only if no name holds a slash and each step is the first sibling of its name |
| TestPaths.ResolvedNames | Publisher Subscriber server/Publisher_Subscriber_server/CppUnit_1.12.1/src/cppunit/TestPath.cpp:43-70 | a resolved path, absolute or relative, has exactly the names that were read, goes to first siblings, and starts at the search root or at the first test of the first name below it |
| TestPaths.RelativeParseIff | Publisher Subscriber server/Publisher_Subscriber_server/CppUnit_1.12.1/src/cppunit/TestPath.cpp:203-222 | resolving the names of a path joined by slashes gives the path back if and only if no name holds a slash, each step is the first sibling of its name, and its first test is the first of its name below the search root |
| TestPaths.ResolveFailsIff | Publisher Subscriber server/Publisher_Subscriber_server/CppUnit_1.12.1/src/cppunit/TestPath.cpp:43-70 | resolving fails if and only if no test can be the start or, from the start, some name has no child |
| TestPaths.SplitPathJoins | Publisher Subscriber server/Publisher_Subscriber_server/CppUnit_1.12.1/src/cppunit/TestPath.cpp:225-251 | the names read, joined again, are the text, and the path is relative unless the text begins with a slash |
| TestPaths.DescendAlong | Publisher Subscriber server/Publisher_Subscriber_server/CppUnit_1.12.1/src/cppunit/TestPath.cpp:52-69 | a chain of first siblings is found by its names |
| TestPaths.SplitPathString | Publisher Subscriber server/Publisher_Subscriber_server/CppUnit_1.12.1/src/cppunit/TestPath.cpp:225-251 | the names between the slashes and whether the path is relative |
| TestPaths.FindActualRoot | Publisher Subscriber server/Publisher_Subscriber_server/CppUnit_1.12.1/src/cppunit/TestPath.cpp:203-222 | the root the path starts from, or the exceptions |
| TestPaths.ResolveTestPath | Publisher Subscriber server/Publisher_Subscriber_server/CppUnit_1.12.1/src/cppunit/TestPath.cpp:43-70 | the path that a text names, or the exceptions |
| TestPaths.TestPath.ToString | Publisher Subscriber server/Publisher_Subscriber_server/CppUnit_1.12.1/src/cppunit/TestPath.cpp:188-200 | the names joined by slashes behind a leading slash |
| TestPaths.TestPath.FromSlice | Publisher Subscriber server/Publisher_Subscriber_server/CppUnit_1.12.1/src/cppunit/TestPath.cpp:21-40 | the slice, with a negative first index and a negative count as the source treats them |
| TestPaths.SliceHolds | Publisher Subscriber server/Publisher_Subscriber_server/CppUnit_1.12.1/src/cppunit/TestPath.cpp:21-40 | a test is in the slice exactly when its index was asked for; a negative count asks for all from the first index on |
| TestPaths.TestPath.Insert | Publisher Subscriber server/Publisher_Subscriber_server/CppUnit_1.12.1/src/cppunit/TestPath.cpp:115-121 | one test at an index; refuses an index out of range |
| TestPaths.TestPath.InsertPath | Publisher Subscriber server/Publisher_Subscriber_server/CppUnit_1.12.1/src/cppunit/TestPath.cpp:124-130 | a whole path at an index, in its own order; an empty one at any index; into itself, what the loop reads while it grows |
| TestPaths.OwnInsertedIff | Publisher Subscriber server/Publisher_Subscriber_server/CppUnit_1.12.1/src/cppunit/TestPath.cpp:124-130 | a path of different tests inserted into itself is the path around itself if and only if the index is its end or its last test |
| StringTools.Split | Publisher Subscriber server/Publisher_Subscriber_server/CppUnit_1.12.1/src/cppunit/StringTools.cpp:27-48 | the parts between the separators; none for the empty text |
| StringTools.JoinOfSplit | Publisher Subscriber server/Publisher_Subscriber_server/CppUnit_1.12.1/src/cppunit/StringTools.cpp:27-48 | joining the parts gives the text back, and no part holds a separator |
| StringTools.SplitOfJoinIff | Publisher Subscriber server/Publisher_Subscriber_server/CppUnit_1.12.1/src/cppunit/StringTools.cpp:27-48 | splitting joined parts gives them back unless they are one empty part |
| StringTools.Wrap | Publisher Subscriber server/Publisher_Subscriber_server/CppUnit_1.12.1/src/cppunit/StringTools.cpp:51-76 | the wrapped text, for a positive column |
| StringTools.WrapLine | Publisher Subscriber server/Publisher_Subscriber_server/CppUnit_1.12.1/src/cppunit/StringTools.cpp:63-72 | one line in pieces of the column's width |
| StringTools.WrappedFits | Publisher Subscriber server/Publisher_Subscriber_server/CppUnit_1.12.1/src/cppunit/StringTools.cpp:51-76 | no line of the result is longer than the column |
| StringTools.ChunksIff | Publisher Subscriber server/Publisher_Subscriber_server/CppUnit_1.12.1/src/cppunit/StringTools.cpp:63-72 | a line is cut in the one way in which every piece but the last fills the column |
| StringTools.WrappedLines | Publisher Subscriber server/Publisher_Subscriber_server/CppUnit_1.12.1/src/cppunit/StringTools.cpp:51-76 | the lines of the wrapped text are those of the text in order, each cut so |
| StringTools.WrapUnchangedIff | Publisher Subscriber server/Publisher_Subscriber_server/CppUnit_1.12.1/src/cppunit/StringTools.cpp:51-76 | a text is left alone if and only if its lines already fit |
| StringTools.WrapIdempotent | Publisher Subscriber server/Publisher_Subscriber_server/CppUnit_1.12.1/src/cppunit/StringTools.cpp:51-76 | wrapping twice is wrapping once |
| StringTools.WrapKeepsCharacters | Publisher Subscriber server/Publisher_Subscriber_server/CppUnit_1.12.1/src/cppunit/StringTools.cpp:51-76 | every character but the line breaks stays, in order |

## Left out

- Sockets, threads, console, ini files and the logging classes: receiving, sending and the passing of
  time are inputs of the steps; every critical section is one step.
- The three header words that the kernel reads while a buffer is in a list (code, timer count,
  mailbox) are typed fields of the buffer in the linked structures; `Headers` proves the same
  writes on the bytes, so the two are not tied together by one object.
- A wait picks the lowest signalled mailbox in the sequential model, as `WaitForMultipleObjects` does; in the
  interleaved model it may pick any.
- Purging while threads run: purges are sequential operations here, not steps of the machine.
- FreeDuringDispatch: counts buffers as the automate takes and returns them; that the automate's buffers come
  from the pool of the kernel is the reading of `main.cpp`, not a joint model.
- `RemoveParam`: the search steps past equal codes, so its comparison can never succeed.
- The length form of `GetNextParam`, which reads one byte of the two-byte length, and the Byte, Word and
  DWord forms, which read or write a value of fixed size through the same two searches.
- The sizes of the automate's arrays for topics, records and the store, and what a longer text overwrites. What
  stands in memory behind a request and behind an amended record is an input. A request of three characters
  only is read as one for the empty topic.
- `Wrap` with a column of zero or less: the loop of the source does not advance for zero.
- The removal operations of `TestPath`.
- DispatchOne: the dispatch by automate and object number in `fsmSystem.cpp`, and the free lists of automates behind
  it, are not modelled; one automate gets every message, as all messages of this server are addressed to it.
- `SendMessageLeft`, `SendMessageRight` and `ReturnMsg`, which copy addresses from the automate's fields or from the
  current message into the header and then call `Add`; `CopyMessage`, which takes a new buffer and copies a message
  into it; `ParseMessage`, which sets the current message. Nothing here depends on them.
- `standardMsg.cpp` (the codec with one-byte fields), `Distribution.cpp`, the network automates, the clients and
  the rest of CppUnit.
