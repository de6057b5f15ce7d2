# A verified model of the server

This project models the in-memory key-value server whose sources are cited below, and proves properties of the model.
The server runs one reactor per core. Each reactor owns one shard of the keys in a Robin Hood hash map, reads requests of
its own connections, executes the commands whose keys it owns, and sends the others to the owning reactor through a
lock-free queue. `dafny verify dfyconfig.toml` checks everything.

## Structure

| file | what it holds |
|---|---|
| `Bits`, `Seqs` | powers of two, `x & mask`, ring arithmetic; facts about sequences |
| `RobinHood`, `Sizing`, `HashMap` | the hash map: the ring invariant, the capacity bookkeeping, and the class whose methods update the bucket array in place |
| `Inbox`, `Mpmc`, `Dequeues`, `Solo` | what a message queue promises, the queue itself, one atomic load, compare-and-swap or store per step, any number of threads, whole dequeues and counts on it, and what a thread achieves when it runs alone |
| `Spsc` | the single-producer single-consumer ring in the same style |
| `Counter`, `Commands`, `Execution` | decimal counters and the keyed commands, as functions on a finite map and as methods on the hash map |
| `Reactors`, `Wakeup`, `Dispatch`, `Slots`, `Server` | the whole server as one state machine over `Inbox` queues, its invariants, and its guarantees over every run |
| `Laws`, `Flags` | what clients see of GET, SET, DEL and the counters in every run; who sets and clears the waiting and sleeping flags, and what follows over runs |
| `Order`, `Overtake` | when the replies of a connection come in request order, and the runs in which they do not |
| `Threads`, `Composed`, `Delivery` | the server with its queues spelled out, one atomic access per step, shown to be the server of `Reactors`; a message on its way from one reactor to another |
| `Protocol`, `Lines`, `Arrays`, `Parsing` | the request parser, byte for byte: how each form reads, what that means for any bytes whatever, and the cursor loops |
| `Encoding`, `Requests` | what clients send, and what the parser makes of it whole and cut short |
| `Stream`, `Endings`, `Connection` | streams of requests under any chunking, what happens after the end, and the receive buffer as a class over an array |

The queue of `Mpmc` behaves as an `Inbox` on every run. `Reactors` uses an `Inbox` for each reactor's queue, and
`Servers.QueuesAreFifo` shows that it uses it legally. `Composed` puts the two together: there every reactor has a queue of
`Mpmc`, each atomic access to it is a step of its own, and `Composed.Refines` shows that every run is a run of `Reactors`.
The class `HashMaps.HashMap` agrees with a finite map, `Execution` executes the commands on it, and `Reactors` uses the
finite map. `Connections.Connection` is an instance of the event streams of `Streams`.

## What the proofs brought to light

- `mpmcq_enqueue` never reports a full queue: its `diff` is unsigned, so a full queue makes the producer retry, and the
  "shard dispatch queue full" reply cannot occur.
- The queue needs at least two cells. With one, an enqueue overwrites an item that nobody dequeued
  (`Mpmc.SizeOneLoses`). The server uses 8192.
- `mpmcq_dequeue` may answer NULL although an item was completely enqueued before the call, when an earlier ticket is
  claimed and not yet published (`Mpmc.NullExactly` gives the exact condition, `Mpmc.NullDespiteItem` a run).
- The receive buffer can fill up, and the next epoll event then aborts the whole server by the assertion at the head of
  `reactor_epoll_on_epollin`. This happens exactly when 8192 bytes have arrived since those consumed
  (`Connections.Connection.FullExactly`). With no response outstanding that takes a single request larger than the buffer
  (`Connections.Connection.FullOnlyIfLarge`). While one is outstanding, bytes are only stored, and pipelined requests of
  any size do it (`Connections.ReadTwice`, and `Connections.Overrun` from a new connection).
- `parse_number` reads the byte behind the receive window. A read that ends inside a length line may therefore be taken
  for a parse error and end the connection. `Encoding.RespCutRead` and `Streams.EndsExactly` say exactly when. Reads that
  do not end inside a length line are safe whatever that byte is, and every length line has a byte that is not
  (`Streams.BenignExactly`).
- An array of no arguments (`*0` CR LF) is recognised only when two further bytes have arrived (`Encoding.RespRead`).
- The counter parser accepts "-" and "+" as zero, and also the empty text, unless the byte behind it in memory is '-' or
  '+', which it then takes for a sign too many. It does not detect overflow
  (`Counter.TryParseSignedInteger`, `Counter.ParsePrinted`). INCR and its kin answer integer 0 on a value that is no
  numeral. SET answers OK even when the table could not grow and nothing was stored.
- INCR, DECR, INCRBY and DECRBY leave the exact sum if and only if the final sum fits 64 bits (`Commands.CounterExact`).
  That partial sums need not fit holds only where signed addition wraps around, as it is modelled here; in C signed
  overflow is undefined.
- A request may be handled more than once. A connection that has ended but is not closed yet keeps the request at the head
  of its window, and each further run of the loop handles it again: a QUIT is, by the next run (`Endings.QuitTwice`).
  `Endings.WholeHistory` says what was handled in every history, and `Endings.OnceExactly` that no request is handled
  twice if and only if no run of the loop follows the one that handled the head of the window. Nothing more is consumed
  after the end (`Endings.AfterEnd`).
- Replies to pipelined requests can come out of request order (`Overtake.PairOvertaken`, for two commands on two shards).
  They come in request order in every run if and only if, from the first command for another shard than the connection's
  own, all commands are for that shard (`Overtake.OrderExactly`); a client can check that before it sends. Per shard the
  order is always kept (`Servers.RepliesInOrder`).

## Model

| member | source | states |
|---|---|---|
| HashMaps.HashMap.constructor | src/include/hashmap.c:95-141 | a new map satisfies the table invariant, agrees with the empty map, has every bucket empty, and grows at 6/10 and shrinks at 1/10 of its buckets |
| HashMaps.HashMap.New | src/include/hashmap.c:84-142 | NULL exactly when either allocation fails, a new map otherwise |
| HashMaps.HashMap.SetWithHash | src/include/hashmap.c:250-294 | in any valid table, through any chain of displacements and a growth: the abstract map gains exactly this binding, the replaced item is returned, and on allocation failure nothing but `oom` changes |
| HashMaps.HashMap.GrowIfFull | src/include/hashmap.c:255-260 | the table grows exactly when its count has reached the threshold, keeps its bindings, and then has room for one more |
| HashMaps.HashMap.Insert | src/include/hashmap.c:262-293 | the probe loop ends, keeps the ring invariant, and replaces only an item of the caller's own key |
| HashMaps.HashMap.GetWithHash | src/include/hashmap.c:307-323 | the loop that stops only at an empty bucket terminates and returns exactly the bound item, or nothing when the key is unbound |
| HashMaps.HashMap.DeleteWithHash | src/include/hashmap.c:346-385 | unbinds only its key, returns its item, and shrinks as the thresholds say; a failed shrink is harmless |
| HashMaps.HashMap.Remove | src/include/hashmap.c:351-374 | when the key is found, the later items of its run each moved exactly one slot toward home, none past it, and no other bucket changed, also round the end of the array |
| HashMaps.HashMap.Resize | src/include/hashmap.c:206-241 | to any requested capacity that rounds up to more than the count: same abstract map, ring invariant re-established; a failed allocation changes nothing |
| HashMaps.HashMap.Rehome | src/include/hashmap.c:212-231 | one old bucket moves over although displaced items pass through the old array: the new table gains exactly that binding and no other old bucket is touched |
| HashMaps.HashMap.Clear | src/include/hashmap.c:187-204 | the map becomes empty and valid, at its present size or back at its floor capacity, with thresholds at 3/4 and 1/10, whether the array is kept, reallocated, or that allocation fails |
| HashMaps.HashMap.Iter | src/include/hashmap.c:447-456 | yields the next of the items ahead of the cursor, or ends exactly when none is ahead |
| HashMaps.HashMap.AheadOfAll | src/include/hashmap.c:429-446 | an iteration from 0 has ahead of it each binding exactly once and nothing else |
| RobinHood.MaskedSlots | src/include/hashmap.c:269-291 | `hash & mask` is the home bucket and `(i + 1) & mask` the next one on the ring, for power-of-two sizes |
| RobinHood.VacantExists | src/include/hashmap.c:255-270 | fewer bindings than buckets leave an empty bucket, the stopping point of every probe |
| RobinHood.NoLap | src/include/hashmap.c:285-292 | an item in hand meets an empty bucket before it comes back to its home |
| RobinHood.RunBack | src/include/hashmap.c:312-322 | distances that grow by at most one per slot force an unbroken run of items from home to an item |
| RobinHood.StoredRun | src/include/hashmap.c:312-322 | a stored item's run from its home has no empty bucket and no bucket poorer than the probe, so no lookup stops short of it |
| RobinHood.AbsentHere | src/include/hashmap.c:278-290 | a bucket poorer than the probe proves the probed key absent: a stored equal key is met before the first swap |
| RobinHood.ProbeMatch | src/include/hashmap.c:278-284 | keys match only before any swap, so the replace branch fires only for the caller's item; a displaced one never matches |
| RobinHood.ProbeStep | src/include/hashmap.c:285-292 | each turn of the insert loop keeps the invariant and comes strictly nearer to an empty bucket |
| RobinHood.ShiftStep | src/include/hashmap.c:363-373 | moving one bucket back keeps every other item and moves the hole one slot toward an empty bucket |
| RobinHood.ShiftEnd | src/include/hashmap.c:367-370 | the backward shift ends in a sound table, each item of the run one slot nearer home |
| RobinHood.HoldsUnique | src/include/hashmap.c:307-323 | the buckets determine the abstract map: two maps held by the same buckets are equal |
| RobinHood.StoredOnce | src/include/hashmap.c:447-456 | the occupied buckets list every binding once |
| Sizing.RoundUpLeast | src/include/hashmap.c:95-103 | the capacity is the least power of two of at least 16 and at least the request |
| Sizing.ReachableOk | src/include/hashmap.c:187-256 | in every reachable state: powers of two of at least 16, capacity at most the bucket count, load at most the growth threshold, and a bucket to spare, across clears and halvings |
| Sizing.SetKeepsOk | src/include/hashmap.c:255-260 | a set that finds the count at the threshold grows to a table with room for one more |
| Sizing.DeleteKeepsOk | src/include/hashmap.c:374-380 | halving never undercuts the floor capacity nor the load |
| Sizing.NewBounds | src/include/hashmap.c:95-137 | a new table is empty, of the rounded size, and its thresholds lie at 6/10 and 1/10 of it |
| Sizing.SetBounds | src/include/hashmap.c:250-260 | a set multiplies the buckets of a table whose count has reached the threshold, and of no other, and the new threshold lies at 6/10; without memory for it nothing changes and the call fails |
| Sizing.DeleteBounds | src/include/hashmap.c:374-380 | a delete that finds its key halves a table above its floor capacity that is then a tenth full or less, and no other |
| Sizing.LoadBounded | src/include/hashmap.c:187-385 | after any run of calls a table is at most 3/4 full, at most 6/10 if never cleared, and, if no allocation failed, more than a tenth full above its floor capacity |
| Sizing.RehashingIsLinear | src/include/hashmap.c:136-137 | from a new table of growth power 1, all rehashes of any run of set, delete and clear calls, with any allocation failures, move at most three items per set or delete |
| Sizing.RehashesAreSpaced | src/include/hashmap.c:374-380 | after a rehash into m buckets at least floor(m/10) set or delete calls happen before the next rehash, whatever clears come between that do not fall back to the floor capacity |
| Inboxes.FirstInFirstOut | src/include/reactor.c:8-36 | in any legal run of claims, publications and takes: items taken, then items left, are the items claimed, in order |
| Mpmc.ExecSafe | src/include/mpmcq.c:22-67 | under every interleaving of any producers and consumers: dequeue position <= enqueue position <= dequeue position + size, every received item is the one sent under the same ticket, and each ticket is queued, in a thread's hands, or received |
| Mpmc.DoKeeps | src/include/mpmcq.c:22-67 | each single atomic step of each thread keeps the queue invariant |
| Mpmc.StepRefines | src/include/mpmcq.c:28-41 | each step is exactly the inbox step its label names; the two compare-and-swaps are where items enter and leave |
| Mpmc.ExecRefines | src/include/mpmcq.c:8-67 | from initialisation, every run is a legal run of the FIFO inbox: items enqueued are those dequeued followed by those inside |
| Mpmc.NullExactly | src/include/mpmcq.c:48-58 | NULL is answered if and only if, at the load of `seq`, the loaded ticket is still the head and is not published |
| Mpmc.NoOverwrite | src/include/mpmcq.c:29-41 | when a producer is about to write a cell, the item of the previous lap has been received |
| Mpmc.SeqGrows | src/include/mpmcq.c:41-65 | no step lowers any cell's `seq` |
| Mpmc.OwnersApart | src/include/mpmcq.c:30-65 | two threads between their compare-and-swap and their `seq` store own different cells |
| Mpmc.SizeOneLoses | src/include/mpmcq.c:8-16 | a queue of one cell loses an item, by a concrete run |
| Mpmc.NullDespiteItem | src/include/mpmcq.c:53-58 | a run in which a dequeue that begins after an item was published still answers NULL |
| Dequeues.AnsweredOnce | src/include/mpmcq.c:46-67 | in every run, with any number of consumers, calls begun are calls answered plus one under way without an answer: no dequeue takes two items, or an item and NULL |
| Solo.CallsEnd | src/include/mpmcq.c:46-67 | in every run, a dequeue under way can be brought to its end by its own thread alone, and has then been answered |
| Solo.DequeueEnds | src/include/mpmcq.c:50-66 | from any point before its compare-and-swap succeeds, however many others have passed it, the thread running alone takes the published head, and without one is told NULL and changes nothing |
| Solo.DequeueAlone | src/include/mpmcq.c:46-67 | a dequeue that runs alone on a queue whose head is published returns exactly the head, and the queue holds the rest |
| Solo.NullAlone | src/include/mpmcq.c:53-57 | with no published head it returns NULL and leaves the queue as it was |
| Solo.EnqueueAlone | src/include/mpmcq.c:22-44 | an enqueue that runs alone on a queue with a free next cell puts its item at the end |
| Solo.EnqueueFinishes | src/include/mpmcq.c:26-38 | from any point of an enqueue before its compare-and-swap succeeds, the thread running alone stores its item |
| Dequeues.OneConsumer | src/include/mpmcq.c:46-67 | with one consumer, what its dequeues returned, in order, and the item in flight are exactly what left the inbox at the compare-and-swaps |
| Dequeues.CountAtFirstLoad | src/include/mpmcq.c:69-73 | the two loads of the count, with no consumer moving in between, give the length of the inbox at the first |
| Threads.SenderTries | src/include/mpmcq.c:22-38 | any next access of a sender before its compare-and-swap leaves the inbox alone, or claims a place for exactly its message |
| Threads.SenderPublishes | src/include/mpmcq.c:40-41 | the last store publishes the sender's own place and message |
| Threads.ReaderMoves | src/include/mpmcq.c:46-64 | the only reader's accesses move at most the head item from the inbox to its hand, and it is told there is none only when the head is missing or unpublished |
| Spsc.DoKeeps | src/include/spsc.c:22-59 | each atomic load and store of either side keeps the ring invariant, stale loads included |
| Spsc.StepRefines | src/include/spsc.c:22-59 | the ring is a FIFO of capacity size - 1; "full" and NULL are answered exactly when it is full or empty at the deciding load |
| Spsc.SlotsApart | src/include/spsc.c:35-49 | the slot being written is neither being read nor still to be read |
| Spsc.TakenInOrder | src/include/spsc.c:5-59 | after every run the items stored are the items taken followed by at most size - 1 items inside |
| Spsc.Tests | src/include/spsc.c:31-65 | comparing reduced indices decides emptiness and fullness exactly |
| Spsc.EnqueueAlone | src/include/spsc.c:22-40 | a whole enqueue on a ring with a free place stores its item behind the others |
| Spsc.FullAlone | src/include/spsc.c:26-32 | a whole enqueue on a ring holding size - 1 items changes nothing |
| Spsc.DequeueAlone | src/include/spsc.c:42-59 | a whole dequeue on a ring with items returns the oldest one and leaves the others |
| Spsc.EmptyAlone | src/include/spsc.c:46-50 | a whole dequeue on an empty ring changes nothing |
| Counter.TryParseSignedInteger | src/include/commands.c:307-335 | accepts exactly an optional sign and then digits only, the byte behind an empty text being taken for its sign; yields the number of the digits reduced to 64 bits, negated behind '-' and behind nothing else |
| Counter.ParsePrinted | src/include/commands.c:307-350 | any printed number, whatever follows in memory, is accepted and denotes itself; the parser returns it if and only if it fits int64, so overflow is not detected and parsing inverts printing on the whole int64 range |
| Counter.PrintNatValue | src/include/commands.c:348-351 | printed decimals are digits and denote the number printed |
| Counter.SignedTexts | src/include/commands.c:312-330 | for any digits, with '+', with '-' and without a sign, whatever follows in memory: what the text denotes |
| Counter.PrintExactly | src/include/commands.c:348-351 | the text stored for a number is the one text without superfluous zeros or signs that denotes it |
| Counter.WrapLinear | src/include/commands.c:320-348 | reducing to 64 bits at each step or once at the end gives the same result |
| Execution.ExecGet | src/include/commands.c:121-130 | on the hash map: the value bound to the key, or a null bulk when there is none |
| Execution.ExecSet | src/include/commands.c:187-196 | on the hash map: exactly this key changes, to the value given; the write is lost exactly when the table stands at its threshold and cannot grow, and the reply is OK in either case |
| Execution.ExecDel | src/include/commands.c:223-233 | on the hash map: exactly this key is removed and the reply says whether it was there |
| Execution.ExecAdd | src/include/commands.c:337-360 | on the hash map: the counter's text becomes the decimal of the 64-bit sum, which is the reply, unless the table stands at its threshold and cannot grow; a value that is no numeral stays and leaves the map's flags alone |
| Execution.ReadDelta | src/include/commands.c:522-531 | the increment is accepted if and only if it is an optional sign and digits that read as non-negative in 64 bits; '+' does not change it |
| Commands.Local | src/include/commands.h:76-130 | each command answers from, and changes, its own key only |
| Commands.CounterRun | src/include/commands.c:438-608 | after any mix of the four counter commands the key holds the decimal of start plus deltas reduced to 64 bits, the last reply says so, and other keys are untouched |
| Commands.CounterExact | src/include/commands.c:438-608 | with signed addition that wraps around, the stored text is the exact sum if and only if that sum fits int64 |
| Laws.GetAfterSet | src/include/commands.c:121-196 | GET right after SET answers the value set, on any map |
| Laws.GetAfterDel | src/include/commands.c:121-233 | GET right after DEL, or on an empty map, finds nothing |
| Laws.DelTells | src/include/commands.c:223-233 | DEL answers 1 exactly when GET would have found the key |
| Laws.GetAfterAdd | src/include/commands.c:337-360 | after a counter command GET shows the number it answered; a value that is no numeral stays and is answered with 0 |
| Laws.AddToText | src/include/commands.c:307-360 | a counter command on a text of digits with '+' or without a sign adds its delta to the number, on one with '-' to the negated number |
| Laws.RepliesFollowWrites | src/include/commands.h:64-130 | in every run, in the order of execution: GET answers the value of the last SET of its key, nothing behind a DEL or without a write, and the number the last counter command answered; DEL tells whether GET would have found the key; a counter command adds to what GET would have shown |
| Servers.DoKeeps | src/include/reactor_epoll.c:149-252 | every action of every reactor keeps all server invariants: wakeup debts, routing, flow, sharding, ownership of queue places, and that a connection waits only while a response is due |
| Servers.QueuesAreFifo | src/include/reactor.c:8-36 | in every run each reactor's queue takes one legal inbox step per action, so messages are taken in the order claimed; a reactor about to publish owns exactly one unpublished place, with the message it has in hand, and nobody else owns any |
| Slots.QueueSteps | src/include/reactor.c:8-36 | each action is one legal inbox step on each queue, and what it publishes is the message in the sender's hand |
| Slots.OwnedKept | src/include/mpmcq.c:40-41 | every action keeps the ownership of unpublished places |
| Slots.SoleIs | src/include/mpmcq.c:40-41 | the place found by its owner is the one it claimed |
| Servers.NoLostWakeup | src/include/reactor_epoll.c:149-166 | in every run: a reactor blocked on a non-empty queue has its eventfd signalled, or some reactor that is not blocked has still to exchange its flag or write for it; none blocks with soft-notify bits set |
| Wakeup.WakeKeeps | src/include/reactor_epoll.c:233-252 | exchanging the flags of the marked reactors one by one pays the wakeups owed, and clearing the marks forgets none |
| Wakeup.SleepKeeps | src/include/reactor_epoll.c:157-165 | storing `sleeping` before looking at the queue leaves no window in which a message is missed |
| Wakeup.MarkKeeps | src/include/commands.h:120-123 | the soft-notify bit is set before the sender can go to sleep |
| Servers.RepliesInOrder | src/include/commands.h:64-130 | in every run, per connection and shard: commands issued, in order, are those answered, then those with a response queued or in hand, then those with a request queued or in hand; so each is answered exactly once and in order |
| Servers.ShardsRefineOneMap | src/include/commands.h:76-130 | in every run: keys live only in the shard that the hash modulo the number of shards names, the shards together are the map of one serial history, every reply in it is the one that map gives, and the replies written to a connection for a shard are the first of its replies in that history, in order |
| Servers.AsleepMeansAnswered | src/include/reactor_epoll.c:157-166 | when all reactors are blocked and none is signalled, every handled command has been executed once and answered in order, and no connection waits |
| Flags.WaitingLaw | src/include/commands.h:64-124 | each action: the waiting flag of a connection is set by the step that finishes the sending of a request of it, cleared by the step that takes a response for it, and touched by nothing else |
| Flags.WaitsUntilAnswered | src/include/reactor_epoll.c:308-315 | from the step that finishes a send, in every run and until a response for the connection is taken, the connection waits and no read event on it has an effect |
| Flags.FlagLaw | src/include/reactor_epoll.c:149-252 | who sets and who clears the sleeping flag, the eventfd and the soft-notify bits, step by step |
| Flags.SignalsPaid | src/include/reactor_epoll.c:233-252 | over every run: the writes made to a reactor's eventfd, the writes other reactors are about to make, and its sleeping flag if still set are together at most one more than the times it went to sleep |
| Order.OrderedRun | src/include/commands.h:95-130 | if from the first remote command on all are for its shard, then in every run the i-th reply answers the i-th command |
| Overtake.Overtaken | src/server.c:119-178 | from every start with a command list that breaks the condition, some run answers a command before the one sent ahead of it |
| Overtake.OrderExactly | src/include/commands.h:95-130 | replies come in request order in all runs if and only if the condition holds |
| Overtake.PairOvertaken | src/include/commands.h:115-124 | two commands, the first for the other shard: a run in which only the second is answered |
| Overtake.Answerable | src/server.c:119-178 | from every start, some run answers every command of a connection, each through its shard and back |
| Composed.StepSim | src/include/mpmcq.c:22-73 | each atomic access of each reactor to a queue, and each other action, is no action or one action of the server with inboxes, both loads of mpmcq_count included |
| Composed.Refines | src/include/reactor_epoll.c:149-166 | every run of the server with real queues is a run of the server with inboxes, seen through the queues |
| Composed.NeverStuck | src/include/reactor_epoll.c:149-166 | every state it reaches is one from which each step is defined |
| Composed.NoLostWakeupBelow | src/include/reactor_epoll.c:149-166 | with real queues: a blocked reactor whose queue positions differ has its eventfd signalled, or a reactor that is not blocked still owes the signal; none blocks with soft-notify bits set |
| Composed.ShardsRefineOneMapBelow | src/include/commands.h:76-130 | with real queues: the shards are one serial map cut by key, and all replies are that map's |
| Composed.OrderedBelow | src/include/commands.h:95-130 | with real queues: request order of the replies under the same condition |
| Delivery.Delivers | src/include/reactor.c:8-36 | with real queues: a message sent into an empty queue is published by the sender's six accesses, taken by the target's six, and its callback runs with exactly that message |
| Delivery.FindsNothing | src/include/reactor.c:8-25 | a polling reactor whose head is missing or unpublished goes on after three accesses, with nothing changed |
| Delivery.CountDecides | src/include/reactor_epoll.c:157-165 | about to sleep, a reactor undisturbed by others blocks exactly when the two positions of its queue are equal |
| Dispatch.IssueKeeps | src/include/commands.h:95-130 | handling a command, here or by dispatch, keeps the two-queue balance of every connection and shard, and the agreement of shards with the serial map |
| Dispatch.SendKeeps | src/include/commands.h:115-124 | a message leaves the sender's hand for the end of the target's queue: the balances hold with it in either place |
| Dispatch.PollKeeps | src/include/reactor.c:8-25 | running the callback at the head of the queue, request or response, keeps the balances and the agreement |
| Dispatch.ExecuteSharded | src/include/commands.h:76-94 | a command run on the shard of its key has the effect and the reply it would have on the one serial map |
| Parsing.ParseNumber | src/include/protocol.c:54-92 | on any bytes: the digits up to a CR with two bytes within reach are a number; a byte that is neither, or a number beyond 64 bits, is an error, also when it lies behind the window; else more is needed |
| Parsing.ParseRespRequest | src/include/protocol.c:94-147 | on any bytes: a count above 64 is refused; arguments follow one another, each a '$', its length and room for its bytes and two more; a missing '$' or a bad number is an error, a missing end incomplete |
| Parsing.ParseInlineRequest | src/include/protocol.c:149-210 | on any bytes: the arguments are exactly the maximal runs of non-blank bytes before the first LF, in order; refused exactly when a 65th word starts before it, otherwise an error exactly when it has no CR before it and incomplete exactly when there is no LF |
| Parsing.ReadingExactly | src/server.c:119-142 | the verdict on a window, '*' choosing the form, is the one verdict these conditions allow |
| Lines.LineReading | src/include/protocol.c:149-210 | the conditions of the inline form hold of its reading, for any bytes |
| Lines.OneReading | src/include/protocol.c:149-210 | and of no other: the words of a line and the verdict on it are determined |
| Arrays.NumberReading | src/include/protocol.c:54-92 | the conditions on a length line hold of its reading, for any bytes |
| Arrays.ArrayReading | src/include/protocol.c:94-147 | the conditions on the array form hold of its reading, for any bytes |
| Arrays.OneArray | src/include/protocol.c:94-147 | and of no other: the verdict on an array is determined |
| Protocol.OkStable | src/include/protocol.c:54-210 | a request once complete is read the same whatever bytes arrive behind it, and lies within the window |
| Protocol.OkMinimal | src/include/protocol.c:54-210 | no strict prefix of a request reads as a request |
| Encoding.RespRead | src/include/protocol.c:94-147 | the RESP2 encoding of any arguments is read back exactly, whatever follows; of no arguments only with two bytes more |
| Encoding.RespCutRead | src/include/protocol.c:54-147 | any strict prefix of an encoding reads as incomplete, or as an error exactly when it ends within a length line and the byte behind the window cannot continue the number |
| Requests.WholeRead | src/include/protocol.c:94-210 | requests of 1 to 64 arguments in either form are read back exactly, spans and bytes, whatever follows |
| Requests.CutIs | src/include/protocol.c:54-210 | the verdict on a request of either form cut anywhere |
| Requests.OnTheWire | src/include/protocol.c:94-210 | GET of one key in both forms and QUIT, byte for byte |
| Streams.ChunkingIrrelevant | src/server.c:119-178 | for any list of requests, any reads and any runs of the loop that met no QUIT and no trap: the requests handled are those the last run consumed, in order, and the window is exactly the rest of what arrived |
| Streams.ConsumedExactly | src/server.c:119-178 | consumed are exactly the requests wholly received with no QUIT among or before them; handled is also a QUIT wholly received behind them |
| Streams.LastRun | src/server.c:155-178 | the run of the loop after any calm history: all whole requests up to and including the first QUIT are handled, in order, the QUIT stays in the window, and the connection ends unless that was benign |
| Streams.LessThanOne | src/server.c:119-178 | after a run of the loop on an open connection less than one request is left in the window |
| Streams.EndsExactly | src/server.c:143-165 | the connection has ended if and only if it hung up or some run of the loop met a QUIT or found the bytes received ending at a trap |
| Streams.BenignExactly | src/include/protocol.c:59-74 | the places safe for every byte behind the window are exactly those outside length lines with no QUIT met |
| Streams.AllHandled | src/server.c:119-178 | once the stream is in and the loop has run, on an open connection, every request was handled once, in order, and nothing is left |
| Streams.PlayExtend | src/server.c:119-178 | what has been handled does not depend on bytes still to come |
| Endings.WholeHistory | src/server.c:119-178 | for any list of requests and any history: the consumed requests were handled once each, in order, the one behind them as often as runs found it whole, which is never on an open connection, and the window is exactly the rest of what arrived |
| Endings.AfterEnd | src/server.c:163-165 | on any bytes, whatever follows the end: nothing more is consumed, the window grows at its end only, and what was handled stays handled |
| Endings.EndedProcess | src/server.c:119-165 | a run of the loop after the end handles the head of the window if and only if a whole request with arguments is there, and changes nothing else |
| Endings.OnceExactly | src/server.c:119-165 | no request is handled twice if and only if at every run of the loop the request behind the consumed ones had not been handled |
| Endings.QuitTwice | src/include/commands.c:104-109 | a QUIT received whole and two runs of the loop: it is handled twice |
| Connections.Connection.constructor | src/server.c:65-90 | a new connection has received and handled nothing |
| Connections.Connection.OnDataAvailable | src/server.c:119-178 | one call is one round on the window: nothing is lost or read twice, and the result says whether another round is due |
| Connections.Connection.Serve | src/server.c:155-178 | behind a whole request: it is handled, and consumed unless the connection ended |
| Connections.Connection.RunLoop | src/server.c:59-62 | the loop drains the window to the point `Drain` describes, whatever replies do to the memory behind the buffer meanwhile |
| Connections.Connection.OnEpollin | src/include/reactor_epoll.c:274-317 | aborts exactly on a full window, changing nothing; else bytes consumed followed by the window stay the bytes received, whatever read() gives: with a dispatch outstanding they are only stored, EAGAIN changes nothing, and the end of the stream or an error ends the connection |
| Connections.Connection.OnResponse | src/server.c:48-63 | after a response the stored bytes are processed like fresh ones |
| Connections.Connection.Served | src/include/reactor_epoll.c:274-317 | for a client sending any list of requests: the connection ends exactly on a hangup or a run of the loop that meets a QUIT or a trap; in every history, also after the end, exactly the consumed requests were handled once each, in order, the next one as often as `Repeats` counts, and all of them once all has arrived |
| Connections.Connection.ServedLast | src/server.c:155-178 | the run that ends the connection has handled all whole requests up to and including a QUIT |
| Connections.Connection.FullExactly | src/include/reactor_epoll.c:275 | the assertion fails at the next event if and only if 8192 bytes have arrived since those consumed |
| Connections.Connection.FullOnlyIfLarge | src/include/reactor_epoll.c:275 | with no response outstanding it fails if and only if the request being received is larger than 8192 bytes and its first 8192 are there |
| Connections.ReadTwice | src/include/reactor_epoll.c:275-313 | with a response outstanding, a second event aborts if and only if the first filled the buffer, whatever the bytes are |
| Connections.Overrun | src/include/reactor_epoll.c:275-313 | from any new connection: one request for another shard and a buffer full of anything before its response abort the server at the next event |
| Connections.GoesOn | src/server.c:158-178 | a round that consumes a request is the same whatever byte lies behind the window |
| Connections.RoundByMeaning | src/server.c:119-178 | on any bytes: a refused request ends the connection, an unfinished one is left alone, one of no arguments is skipped, and any other is handled with exactly the bytes at the places of its arguments; QUIT ends the connection and is not consumed |

## Left out

- Sockets, epoll registration, accept, the send side and its flushing, eventfd system calls and CPU pinning: input and output. Reads deliver arbitrary chunks; an eventfd is a counter.
- What becomes of the other connections when the assertion in reactor_epoll_on_epollin aborts the server: the model says when it does and stops there.
- The retry of read() on EINTR, and closing: a connection with END set may have further events before it is closed, and those are modelled.
- The text of error replies, of PING, ECHO and unknown commands, and overflow of the send buffer: the stream model ends where a request is passed to handle_command.
- Weak memory order, wrap-around of 64-bit tickets and termination of a producer on a full queue: the queues are modelled as sequentially consistent, with unbounded tickets. Calls are shown to end when their thread runs alone (`Solo`); nothing is claimed under endless contention.
- The queues, the ring, the reactors and the dispatch callbacks are state machines over values rather than classes, because their code runs concurrently, one atomic access per step. What this leaves out is the sharing of message and connection objects by address.
- In `Reactors`, a dequeue is one step, a send is a claim and a publication, and the count taken before sleeping is one step; `Composed` has all of them as separate accesses. That replies can overtake each other is shown in `Reactors` only.
- The sum of cursor and argument length in parse_resp_request, which wraps around in C: it is unbounded here, and a length line of 18446744073709551615, which the source would accept, reads as incomplete. Arguments sent are therefore at most 2^63 - 1 bytes long, which no object in memory exceeds.
- cmd_shutdown and the `running` flag, and FLUSHALL, which clears other shards' maps from the caller's thread.
- Connections closed while a dispatch is in flight, and SELECT: one database per shard.
- More than 31 reactors: the soft-notify macros shift an int.
- Allocation failure inside the server state machine: there a SET always stores. `Execution.ExecSet` and `Execution.ExecAdd` cover the failure.
- Ownership of allocated memory, freeing of elements, the item size, and the address of `spare` that set and delete return, which the next call overwrites: items are values.
- A NULL compare callback, and the hash functions: the hash is an arbitrary function of the key and is what the caller passes.
- `dib` as a 16-bit field: it is unbounded here.
- Thresholds in floating point: growat and shrinkat are integer floors of 6n/10, 3n/4 and n/10, which agree for powers of two.
- hashmap_scan, hashmap_probe, hashmap_count and hashmap_free: easy next to the members above.
- spscq_is_empty has no step of its own: `Spsc.Tests` covers the comparison it makes.
- Signed overflow in the counter commands is undefined in C; it is modelled as two's complement.
- The byte read behind an empty stored value by the counter parser is a parameter of the command.
- Sizing.RehashesAreSpaced: assumes growth power 1 and successful allocations, and no clear that falls back from above the floor capacity in between, because that clear opens a new budget.
- deque.c, deque_embedded.c and vector.h: unused or plain containers.
