# Verified models of the server runtime

This project models the Skynet actor runtime bundled in the repository and the C libraries next to it, and
proves what they are for. `dafny verify dfyconfig.toml` checks everything. Each file is one component:

- `Calendar.dfy`, `TimerWheel.dfy`: the hierarchical timing wheel, proved to implement a plain calendar of
  pending events across wraps of its 32-bit clock.
- `Scheduler.dfy`, `SchedulerInvariant.dfy`, `SchedulerActors.dfy`, `SchedulerSteps.dfy`, `SchedulerRuns.dfy`,
  `SchedulerMail.dfy`, `SchedulerProgress.dfy`: the actor scheduler as a system of interleaved steps, its invariant,
  the laws of its runs, where each message comes from, and why none is ever stuck.
- `Mailbox.dfy`, `Rings.dfy`, `HandleTable.dfy`, `RwLock.dfy`: the ring-buffer mailbox, the linked run queue and
  the handle table as the code keeps them; the reader/writer spin lock.
- `SocketOrder.dfy`, `SocketOrderInvariant.dfy`, `SocketOrderRuns.dfy`, `SocketOrderOnce.dfy`,
  `SocketOrderPaths.dfy`, `SocketThread.dfy`: the TCP send path with its direct writes, as interleaved steps of the
  service threads and the socket thread, and the write loop and close events of one socket.
- `Bignum.dfy`, `Dtoa.dfy`: the big integers of David Gay's dtoa, and its fixed-digits conversion (mode 2).
- `Netpack.dfy`, `Seri.dfy`: reassembly of length-prefixed packages, and the serializer of Lua values.
- `StringMap.dfy`: the coalesced hash maps of pbc.
- `Srp.dfy`, `Des.dfy`, `DesKeys.dfy`, `DhExchange.dfy`: SRP-6a sessions, DES with padding and its key schedule,
  and the 64-bit key exchange.
- `Basics.dfy`, `FixedWidth.dfy`: optional values, machine words, numbers as bytes, and small facts the others share.

Code that changes state in place is a class or a method over arrays, proved against a specification function or
a ghost value; protocols between threads are step systems, and their laws hold of every state of every run.

What the code does differently from what one would expect of it, each with a proof:

- `force_close` frees the two write lists before it takes the socket lock
  (`skynet/skynet-src/socket_server.c:501-508`). A direct write made in that window, when a message has been
  sent in part, starts a new message in the middle of the old one. `SocketOrderRuns.FramedUnlessTorn` shows that
  this is the only way in which the stream can stop being whole messages laid end to end, and
  `SocketOrderRuns.TearingHappens` that it is reachable.
- `powmodp` reduces its base only when it is greater than P, so the base P to the power 1 comes back as P, not 0
  (`skynet/lualib-src/lua-crypt.c:832-836`). `DhExchange.PowerModP` shows that no other pair of arguments is
  affected, and `DhExchange.Agree` that the key exchange never gets there.
- `skynet_handle_register` can double a table that has a free slot: a round that wraps past the last handle, unless it
  wraps at once, never looks at slot 0 (`skynet/skynet-src/skynet_handle.c:45-51`). `HandleTable.ZeroLooked` says
  exactly when, in terms of `handle_index` and the size; `HandleTable.Storage.Register` doubles exactly when every slot
  the round looks at is taken; `HandleTable.SlotZeroSkipped` is a table of four slots that is doubled with slot 0 free.
- The unpacker stores the size of a long array in an `int` (`skynet/lualib-src/lua-seri.c:457`), so a stream that no
  packer writes is accepted with another size than it names. `Seri.SizeTruncated` says that this happens exactly when
  the size does not fit in 32 bits, and `Seri.SizeWraps` is a stream of size 2^32 + 1 read as a table of one element.
- The removal of PKCS7 padding reads before the decrypted text (`skynet/lualib-src/lua-crypt.c:407-418`) exactly when
  the last byte is greater than the length of the text and every other byte equals it (`Des.RemovePkcs7`,
  `Des.DesDecode`). `Des.SomeTextReadsBefore` shows that under every key some eight bytes lead there. What is decoded
  never depends on the bytes read.
- The SRP client refuses only B = 0 (`luaclib_src/csrp/srp.c:974`), where section 2.5.3 of RFC 5054 has it refuse every
  multiple of N. `Srp.WronglyAccepted` says which challenges make the difference, and `Srp.GroupAccepted` names one.
- Outside RFC 5054 mode u hashes the bytes of A and B laid end to end (`luaclib_src/csrp/srp.c:304-321`), so different
  pairs share it: `Srp.HashDepends` says exactly what u depends on in each mode, and `Srp.PairsConfused` names two pairs.
- Inserting a key that is already in a string map adds a second slot for it (`luaclib_src/pbc/src/map.c:277-301`).
  `StringMap.InsertedTwice` shows that a query then finds the new value exactly when the old one is not in the home
  slot of the key.

## Model

| member | source | states |
|---|---|---|
| TimerWheel.Wheel.constructor | skynet/skynet-src/skynet_timer.c:181-202 | a new wheel is an empty calendar at tick 0 |
| TimerWheel.Wheel.AddNode | skynet/skynet-src/skynet_timer.c:67-86 | the node is linked at the end of the one list its expiry and the clock select, and no other list changes |
| TimerWheel.Wheel.TimerAdd | skynet/skynet-src/skynet_timer.c:88-99 | the wheel goes on implementing the calendar with one more event, due `delay` ticks from now, whatever the clock |
| TimerWheel.Wheel.MoveList | skynet/skynet-src/skynet_timer.c:101-109 | one list is emptied and its nodes are appended, in order, to the lists the current clock selects |
| TimerWheel.Wheel.TimerShift | skynet/skynet-src/skynet_timer.c:111-132 | after the clock has advanced every list again holds exactly the pending events filed there, also when the clock wraps to 0 |
| TimerWheel.Wheel.TimerExecute | skynet/skynet-src/skynet_timer.c:134-163 | it dispatches the events due now and no others, in the order they were added; events added while the lock is dropped stay pending |
| TimerWheel.Wheel.TimerUpdate | skynet/skynet-src/skynet_timer.c:165-178 | one update is one tick of the calendar: it fires exactly the events due at the next tick |
| TimerWheel.Wheel.UpdateTime | skynet/skynet-src/skynet_timer.c:245-260 | a jump of the wall clock makes that many updates, none when it goes backwards; the k-th dispatches exactly what is due then of the events pending before and of those that other threads add during the updates and between them, each with its own delay |
| TimerWheel.Wheel.UpdateThenAdds | skynet/skynet-src/skynet_timer.c:165-178 | one update and the adds up to the next one leave the calendar that these calls leave, with the same events dispatched |
| TimerWheel.CallsScheduled | skynet/skynet-src/skynet_timer.c:88-99 | what those calls add is due at the tick of the update they come with plus the delay asked for |
| TimerWheel.RunCalls | skynet/skynet-src/skynet_timer.c:67-178 | over any interleaving of adds and updates of a new wheel, update k + 1 dispatches exactly the events due at tick k + 1, in the order they were added |
| TimerWheel.Wheel.Timeout | skynet/skynet-src/skynet_timer.c:204-224 | a delay of zero or less is answered at once and leaves the wheel alone, any other is added |
| TimerWheel.MaskComparesBlocks | skynet/skynet-src/skynet_timer.c:72-82 | the two or-masks of `add_node` are equal exactly when both times lie in the same block of the level |
| TimerWheel.WrapKeepsSlot | skynet/skynet-src/skynet_timer.c:67-86 | choosing the list from wrapped 32-bit times gives the list the unwrapped times would give |
| TimerWheel.Carry | skynet/skynet-src/skynet_timer.c:111-132 | a tick changes where an event belongs only at a carry, and then only for the list `timer_shift` moves, which goes to lower levels |
| TimerWheel.QuietTick | skynet/skynet-src/skynet_timer.c:111-132 | without a carry out of the near wheel no event changes its list |
| TimerWheel.LowListsRefilled | skynet/skynet-src/skynet_timer.c:101-132 | at a carry all lists below the moved level are empty before and hold exactly the moved events after |
| TimerWheel.HighListsKept | skynet/skynet-src/skynet_timer.c:101-132 | at a carry the lists of the moved level and above keep their events, except the moved one, which is emptied |
| TimerWheel.Redistribute | skynet/skynet-src/skynet_timer.c:101-132 | moving nodes never mixes them with nodes already there, so events of one tick keep the order in which they were added |
| TimerWheel.NearListIsDue | skynet/skynet-src/skynet_timer.c:152-163 | the near list under the clock is exactly what is due now |
| Calendar.RunDispatchesOnTime | skynet/skynet-src/skynet_timer.c:67-178 | in every run the k-th update dispatches exactly the events scheduled for its tick, in the order they were added |
| Calendar.EventFiresOnce | skynet/skynet-src/skynet_timer.c:67-178 | an event added with delay d is dispatched by the d-th later update and by no other |
| Calendar.ScheduledOnce | skynet/skynet-src/skynet_timer.c:88-99 | an event added once is scheduled for one tick: the updates before it plus its delay |
| Calendar.TickSplits | skynet/skynet-src/skynet_timer.c:165-178 | what is due at any tick is what the next update fires or what it leaves pending |
| Calendar.WithoutSpec | skynet/skynet-src/skynet_timer.c:152-163 | taking the events of one tick out leaves every other tick as it was |
| Calendar.RunConcat | skynet/skynet-src/skynet_timer.c:165-178 | runs compose: state, dispatched events and number of updates |
| SchedulerSteps.NextInv | skynet/skynet-src/skynet_server.c:293-347 | every locked section of the scheduler keeps the invariant on queues, references, deletions and messages |
| SchedulerRuns.EveryStateInv | skynet/skynet-src/skynet_server.c:125-347 | the invariant holds in every state of every interleaving of sends, dispatches, launches and kills |
| SchedulerRuns.OnePlaceOnly | skynet/skynet-src/skynet_mq.c:43-250 | a live queue is linked once in the global list, or owned by one worker or its creator, or idle, and never two of these |
| SchedulerRuns.NoCallbackRunsTwice | skynet/skynet-src/skynet_server.c:256-347 | no two workers are inside the callback of one context |
| SchedulerRuns.NoMessageStranded | skynet/skynet-src/skynet_mq.c:137-209 | a queue that holds a message has `in_global` set, and is linked in the global list or owned by somebody who will serve it |
| SchedulerRuns.NoMessageLost | skynet/skynet-src/skynet_server.c:114-122 | messages pushed are the delivered, then the dropped, then the waiting ones, in push order; when the queue is freed each dropped one that had a source has been answered once, with the error for its session |
| SchedulerMail.AllMailAccounted | skynet/skynet-src/skynet_server.c:114-122 | in every state of every run, what the queue of an actor has accepted and what senders still carry to it is, message by message, what was sent to its handle while registered and one error for each of its messages that was dropped, from the handle of the dead service and with the session that waits |
| SchedulerMail.StepArrives | skynet/skynet-src/skynet_server.c:224-234 | each step changes this by exactly what it hands over |
| SchedulerProgress.MessagesCanGoOn | skynet/skynet-src/skynet_server.c:293-347 | no message is ever stuck: from every state of every run in which one waits, the threads there are can go on so that one more of that queue is delivered or dropped, also when its context is already dead |
| SchedulerProgress.DeadSettles | skynet/skynet-src/skynet_mq.c:219-250 | the references to a dead context can be given up one by one until its queue is marked and drained |
| SchedulerProgress.CallbackGetsMessage | skynet/skynet-src/skynet_server.c:254-280 | in every state of every run a callback runs on the message that was delivered last to its context |
| SchedulerProgress.DeliveredMeansCalled | skynet/skynet-src/skynet_server.c:293-347 | what counts as delivered is the oldest message, and the callback of its own context is running on it |
| SchedulerProgress.DroppedMeansReply | skynet/skynet-src/skynet_server.c:114-122 | what counts as dropped is the oldest message, and its source is about to be told |
| SchedulerProgress.SlicesTakeTurns | skynet/skynet-src/skynet_server.c:320-347 | a worker at the end of its slice takes the queue that has waited longest and puts its own behind all others |
| SchedulerProgress.StepsMoveOn | skynet/skynet-src/skynet_server.c:293-347 | no step stands still: what its activity was about to do is done |
| SchedulerProgress.LaunchRegisters | skynet/skynet-src/skynet_server.c:125-189 | a launch registers a new context with an empty mailbox, held by the table and its creator |
| SchedulerProgress.RetiredIsGone | skynet/skynet-src/skynet_handle.c:76-113 | after it nobody is reached under a retired handle, and all other handles stay |
| SchedulerRuns.ContextDeletedOnce | skynet/skynet-src/skynet_server.c:191-222 | a context has been deleted exactly once when neither the table nor any thread holds it and not at all before; its queue is marked only then and freed only after that |
| SchedulerRuns.ReferencesAreAlive | skynet/skynet-src/skynet_handle.c:139-156 | whoever holds a reference holds a context that is not deleted, not marked and not freed: a grab never revives one |
| SchedulerRuns.AssertionsHold | skynet/skynet-src/skynet_server.c:114-347 | the assertions of the code hold in every run: no queue is linked when it is pushed or freed, none is marked twice, a dispatch serves the queue of its own context, no callback runs on a context whose init has not succeeded, and errors have a source |
| SchedulerRuns.HistoriesGrow | skynet/skynet-src/skynet_mq.c:137-209 | a step appends one message at most, to one history: one more is pushed, or the oldest waiting one is delivered or dropped; after the release mark nothing is pushed or delivered, and a freed queue drops nothing more |
| SchedulerRuns.DeliveriesAreFinal | skynet/skynet-src/skynet_mq.c:137-250 | over a whole run, what has been delivered or dropped stays delivered or dropped |
| Mailbox.MessageQueue.constructor | skynet/skynet-src/skynet_mq.c:77-96 | a new mailbox is empty, not marked, and already counts as linked |
| Mailbox.MessageQueue.Length | skynet/skynet-src/skynet_mq.c:111-125 | the number of messages, also when the ring has wrapped |
| Mailbox.MessageQueue.Pop | skynet/skynet-src/skynet_mq.c:137-172 | the oldest message leaves; an empty queue drops `in_global`; the overload threshold doubles until it reaches the length and is reset by an empty pop |
| Mailbox.MessageQueue.ExpandQueue | skynet/skynet-src/skynet_mq.c:174-187 | a full ring is copied into one of twice the size, oldest message first |
| Mailbox.MessageQueue.Push | skynet/skynet-src/skynet_mq.c:189-209 | the message is appended through any expansion, and the mailbox is linked exactly if it was not before |
| Mailbox.MessageQueue.MarkRelease | skynet/skynet-src/skynet_mq.c:219-228 | the mark is set and an idle mailbox is linked so that somebody drains it |
| Mailbox.MessageQueue.Release | skynet/skynet-src/skynet_mq.c:230-250 | a marked mailbox hands every message to the drop function in order; an unmarked one goes back to the run queue untouched |
| Mailbox.GlobalQueue.Push | skynet/skynet-src/skynet_mq.c:43-56 | the mailbox becomes the last of the linked list |
| Mailbox.GlobalQueue.Pop | skynet/skynet-src/skynet_mq.c:58-75 | the first of the linked list leaves with its link cleared; an emptied list is ready for the next push |
| HandleTable.Storage.FindFree | skynet/skynet-src/skynet_handle.c:40-58 | the first handle of the round whose slot is free, never 0 in its low 24 bits; none exactly when every slot the round looks at is taken |
| HandleTable.Storage.Double | skynet/skynet-src/skynet_handle.c:59-72 | doubling moves every live handle to its slot under the new mask, no two collide, and the next round finds a free slot |
| HandleTable.Storage.Register | skynet/skynet-src/skynet_handle.c:35-74 | the new handle was not live and carries the harbor; its low 24 bits are the first number of the round from `handle_index` on, never 0, whose slot no live handle has, after the doubling if there is one, and the next round starts right behind it; it is the only change to the live handles; the table doubles once exactly when the round fails, and registering fails only when that happens at 2^24 slots |
| HandleTable.RunCalls | skynet/skynet-src/skynet_handle.c:35-113 | over any run of registering and retiring, a handle comes back only when the rounds have gone through all 0xFFFFFF numbers, so only after at least 0xFFFFFF / slots further registrations |
| HandleTable.Circle | skynet/skynet-src/skynet_handle.c:43-48 | the numbers are tried in a circle from 1 to 0xFFFFFF |
| HandleTable.Storage.Grab | skynet/skynet-src/skynet_handle.c:139-156 | the context registered under exactly this handle, or none |
| HandleTable.Storage.Retire | skynet/skynet-src/skynet_handle.c:76-113 | exactly this handle is no longer live and exactly its names are gone, in order |
| HandleTable.Storage.DropNames | skynet/skynet-src/skynet_handle.c:88-101 | the names of one handle are removed in place and the rest stay sorted |
| HandleTable.Storage.Search | skynet/skynet-src/skynet_handle.c:215-236 | binary search finds the name or the one place where it can be inserted |
| HandleTable.Storage.FindName | skynet/skynet-src/skynet_handle.c:158-186 | binary search equals looking through all names |
| HandleTable.Storage.InsertBefore | skynet/skynet-src/skynet_handle.c:188-212 | the array grows, or shifts in place, to the same names with the new one at its place; it fails exactly when a full array would have to grow over the limit |
| HandleTable.Storage.NameHandle | skynet/skynet-src/skynet_handle.c:214-247 | a name is refused exactly when it is taken, and added to the sorted array otherwise unless a full array cannot grow; a refused name changes nothing |
| HandleTable.DoublingSeparates | skynet/skynet-src/skynet_handle.c:61-68 | handles that share a slot of the doubled table shared one before, so the assertion of the copy holds |
| HandleTable.LowBitsDecide | skynet/skynet-src/skynet_handle.c:55-67 | the harbor number in the high bits never changes the slot |
| HandleTable.WholeRound | skynet/skynet-src/skynet_handle.c:43-58 | one round, wrapping to 1 past the last handle, looks at every slot but, perhaps, slot 0 |
| HandleTable.ZeroLooked | skynet/skynet-src/skynet_handle.c:43-58 | it looks at slot 0 exactly when the table is below 2^24 slots and the round does not wrap, or wraps at once |
| HandleTable.SlotZeroSkipped | skynet/skynet-src/skynet_handle.c:43-58 | with four slots, three of them taken, and `handle_index` at 0xFFFFFD, the handles tried are 0xFFFFFD, 0xFFFFFE, 0xFFFFFF and 1, and the round fails although slot 0 is free |
| HandleTable.RoomAfterDoubling | skynet/skynet-src/skynet_handle.c:59-72 | of two slots that come from one at least one is free, and the next round finds one |
| HandleTable.WithoutSorted | skynet/skynet-src/skynet_handle.c:88-101 | removing the names of a handle keeps the array sorted |
| HandleTable.InsertedSorted | skynet/skynet-src/skynet_handle.c:188-212 | inserting between smaller and larger names keeps it sorted |
| HandleTable.CompareOrders | skynet/skynet-src/skynet_handle.c:167-181 | the comparison of names is transitive |
| RwLock.StepInv | skynet/skynet-src/rwlock.h:13-46 | every atomic step keeps `read` equal to the number of threads past their increment, and at most one thread past the test-and-set of `write` |
| RwLock.EveryStateInv | skynet/skynet-src/rwlock.h:13-46 | this holds in every state of every run of any number of threads |
| RwLock.Exclusion | skynet/skynet-src/rwlock.h:19-46 | a writer overlaps no other writer and no reader |
| RwLock.NobodyEnters | skynet/skynet-src/rwlock.h:19-36 | once a writer holds the flag no reader gets in; one that has not begun to increment waits, one that has incremented backs off |
| RwLock.ReadersShare | skynet/skynet-src/rwlock.h:19-30 | two readers can hold the lock together |
| RwLock.WaitingThreadGetsIn | skynet/skynet-src/rwlock.h:13-46 | from every state of every run the threads inside can go on so that any thread waiting for the lock gets it, reader or writer |
| SocketOrderRuns.NextInv | skynet/skynet-src/socket_server.c:873-1090 | every load, write, lock operation and command of the send path keeps the invariant |
| SocketOrderRuns.EveryStateInv | skynet/skynet-src/socket_server.c:1366-1458 | the invariant holds in every state of every run over the life of a socket id |
| SocketOrderRuns.WrittenInCallOrder | skynet/skynet-src/socket_server.c:1875-1952 | what one thread sends through `socket_server_send` is written in call order: no direct write overtakes a queued one |
| SocketOrderOnce.NextOnce | skynet/skynet-src/socket_server.c:1881-1952 | no step puts a message in a second place: begun on the wire, left over, in a list, in the pipe or in the hands of a thread |
| SocketOrderOnce.EveryStateOnce | skynet/skynet-src/socket_server.c:1881-1952 | in every state of every run each call has its message in one place at most |
| SocketOrderOnce.BegunOnce | skynet/skynet-src/socket_server.c:1881-1952 | in every state of every run a message is begun at most once, and the messages one thread sends through `socket_server_send` are begun in strictly increasing order of its calls |
| SocketOrderOnce.MessagesKept | skynet/skynet-src/socket_server.c:1020-1090 | in every state of every run a message is, byte by byte the same, in at most as many places, begun on the wire or waiting for it, as calls have handed it in, and in exactly as many while no step has refused a message or shut the socket |
| SocketOrderOnce.StepKeeps | skynet/skynet-src/socket_server.c:1020-1090 | only a refusal of `send_socket`, a forced close, or a failed write of a socket that is closing or closed by the other end can lose a message |
| SocketOrderOnce.BegunWasSent | skynet/skynet-src/socket_server.c:1881-1952 | whatever is begun on the wire was handed in by a call, with these bytes |
| SocketOrderOnce.WireIsAccepted | skynet/skynet-src/socket_server.c:726-756 | the bytes on the wire are as many as the calls of `write` have accepted |
| SocketOrderOnce.StepsMoveOn | skynet/skynet-src/socket_server.c:1366-1458 | no step stands still: a thread gets on, a command leaves the pipe, a free lock is taken |
| SocketOrderPaths.QuietCallWritesDirectly | skynet/skynet-src/socket_server.c:1874-1939 | a call that nothing interferes with, on an open socket with nothing queued or on its way and the lock free, comes to write directly |
| SocketOrderPaths.OtherCallsAreQueued | skynet/skynet-src/socket_server.c:1874-1952 | in any other state it comes to hand its message to the socket thread |
| SocketOrderPaths.LowKeepsOut | skynet/skynet-src/socket_server.c:1020-1060 | in every state of every run the high list holds at most one message sent with low priority |
| SocketOrderPaths.NothingAfterClose | skynet/skynet-src/socket_server.c:1162-1189 | once the socket thread has taken a close command, or failed to write, no message is accepted any more |
| SocketOrderPaths.CloseCloses | skynet/skynet-src/socket_server.c:1162-1189 | a close command shuts a socket at once or lets it finish writing, half closed for reading; a failed write ends its writing |
| SocketOrderRuns.OneWriter | skynet/skynet-src/socket_server.c:1892-1939 | only one thread at a time is about to write, and then the socket thread is not |
| SocketOrderRuns.BooksBalance | skynet/skynet-src/socket_server.c:833-931 | `wb_size` is the unsent bytes of both lists, the low list has no partly sent head at any entry to `send_buffer_`, and `sending` is positive when it is decremented |
| SocketOrderRuns.StepFramed | skynet/skynet-src/socket_server.c:1892-1939 | a step breaks the framing of the stream exactly when it is a direct write in the window of `force_close` after a partly sent message |
| SocketOrderRuns.FramedUnlessTorn | skynet/skynet-src/socket_server.c:490-521 | in every state of every run the bytes written are whole messages end to end, the last possibly cut short, exactly as long as no such write has happened |
| SocketOrderRuns.FramedBytes | skynet/skynet-src/socket_server.c:726-756 | a framed stream followed by the rest of its last message is the started messages laid end to end |
| SocketOrderRuns.StreamIsMessages | skynet/skynet-src/socket_server.c:726-756 | this holds of the bytes on the wire in every untorn run, under any partial writes, left-overs and raising of low messages |
| SocketOrderRuns.TearingHappens | skynet/skynet-src/socket_server.c:500-508 | the window in `force_close` is reachable and does tear the stream |
| SocketOrderInvariant.DirectWriteFindsBoundary | skynet/skynet-src/socket_server.c:1874-1905 | a direct write outside that window always starts at the end of a whole message |
| SocketThread.CloseRaisedOnce | skynet/skynet-src/socket_server.c:1140-1189 | over all events of a socket id SOCKET_CLOSE is raised at most once: once when half closed for reading, never while open, and a socket that is gone without it had failed to connect |
| SocketThread.Socket.WriteHead | skynet/skynet-src/socket_server.c:727-756 | n bytes move from the head of a list to the wire, and `wb_size` follows |
| SocketThread.Socket.SendListTcp | skynet/skynet-src/socket_server.c:726-756 | exactly as many bytes of the list go out as the outcomes of `write` accept, each cut to its message, up to the first short one, full descriptor or error; the rest stays queued unless the socket becomes invalid, and an error half-closes it |
| SocketThread.StoppedBy | skynet/skynet-src/socket_server.c:726-756 | a loop that ends with messages left was stopped by a short write, a full descriptor or an error, or there was no more to try |
| SocketThread.AllGoOut | skynet/skynet-src/socket_server.c:726-756 | a descriptor that takes every message whole gets them all |
| SocketThread.Socket.RaiseUncomplete | skynet/skynet-src/socket_server.c:842-857 | a partly sent head of the low list becomes the high list, the other messages stay, and the bytes still to go keep their order |
| SocketThread.Socket.SendLowList | skynet/skynet-src/socket_server.c:885-904 | the low list is sent as far as the outcomes allow and raised if it stopped inside a message; it goes on to step 4 only with both lists empty |
| SocketThread.Socket.BothListsEmpty | skynet/skynet-src/socket_server.c:905-928 | a closing socket is shut, any other stays open; a failing event call is reported, and the warning is withdrawn once |
| SocketThread.Socket.SendBufferLocked | skynet/skynet-src/socket_server.c:872-931 | the wire takes exactly the bytes that the outcomes of `write` allow of the high list and then the low one; the lists, the type of the socket and what is reported follow from where it stopped |
| SocketThread.Socket.TakeLeftOver | skynet/skynet-src/socket_server.c:937-954 | the left-over of a direct write goes in front of everything queued |
| SocketThread.Socket.SendBuffer | skynet/skynet-src/socket_server.c:933-959 | with the lock the same holds with the left-over of a direct write in front; without it nothing changes |
| SocketThread.Socket.SendSocket | skynet/skynet-src/socket_server.c:1020-1090 | a message is dropped by a closed or closing socket, else appended to the list its priority and the state of the lists select, also when enabling the write event fails; the warning comes at each doubling |
| SocketThread.Socket.CloseWrite | skynet/skynet-src/socket_server.c:703-724 | a socket that can no longer write is shut if reading is over, else half closed |
| SocketThread.Socket.CloseSocket | skynet/skynet-src/socket_server.c:1162-1189 | the service's close raises SOCKET_CLOSE unless it was raised before |
| SocketThread.Socket.ReadEnd | skynet/skynet-src/socket_server.c:1461-1521 | the end of the remote stream raises it unless it was raised before, and shuts a closing socket only when nothing is left to send |
| SocketThread.Socket.HangUp | skynet/skynet-src/socket_server.c:1807-1815 | a hang-up raises it unless it was raised before |
| SocketThread.Socket.ReportConnect | skynet/skynet-src/socket_server.c:1582-1616 | a connect ends open or, with an error and no SOCKET_CLOSE, invalid |
| SocketThread.Socket.Resume | skynet/skynet-src/socket_server.c:1208-1245 | only a paused socket changes its type; a half-closed one, and one whose read event cannot be enabled, answers with an error |
| SocketThread.Socket.ForceClose | skynet/skynet-src/socket_server.c:490-521 | lists and left-over are gone; an invalid socket is left alone |
| Bignum.Bigint.Balloc | luaclib_src/lua-cjson/dtoa.c:545-583 | a number with room for 2^k words |
| Bignum.Bigint.I2b | luaclib_src/lua-cjson/dtoa.c:790-803 | the number with the given value |
| Bignum.Bigint.MultAdd | luaclib_src/lua-cjson/dtoa.c:613-667 | the value becomes value * m + a through all carries, growing the words when the last carry needs one |
| Bignum.MultiplyWords | luaclib_src/lua-cjson/dtoa.c:632-655 | the carry loop scales the words exactly, the last carry standing for the next word |
| Bignum.Mult | luaclib_src/lua-cjson/dtoa.c:806-913 | the product, with no leading zero word |
| Bignum.AddMultiple | luaclib_src/lua-cjson/dtoa.c:846-859 | one row of the multiplication adds y times the other factor at its place, carry included |
| Bignum.LShift | luaclib_src/lua-cjson/dtoa.c:975-1032 | the value times 2^k, for any split of k into words and bits |
| Bignum.ShiftWord | luaclib_src/lua-cjson/dtoa.c:1001-1012 | the bits shifted out of one word go into the next and none is lost |
| Bignum.Cmp | luaclib_src/lua-cjson/dtoa.c:1035-1066 | the sign of the difference of the values |
| Bignum.Diff | luaclib_src/lua-cjson/dtoa.c:1069-1160 | the absolute difference, `sign` set exactly when the first is smaller |
| Bignum.Quorem | luaclib_src/lua-cjson/dtoa.c:2106-2241 | for b < 10 * S and the top word of S in [2^27, 2^28): the exact floor quotient, with the exact remainder left in b |
| Bignum.NoMoreWords | luaclib_src/lua-cjson/dtoa.c:2138-2144 | under these conditions b never has more words than S |
| Bignum.FirstGuess | luaclib_src/lua-cjson/dtoa.c:2145-2149 | the quotient of the top words is right or one too small |
| Bignum.QuotientEstimate | luaclib_src/lua-cjson/dtoa.c:2145-2149 | the same for any numbers with such leading parts |
| Bignum.SubtractMultiple | luaclib_src/lua-cjson/dtoa.c:2160-2196 | subtracting q * S word by word keeps the exact balance of carry and borrow |
| Dtoa.Hi0Bits | luaclib_src/lua-cjson/dtoa.c:708-739 | the shift that brings the highest one bit to the top |
| Dtoa.DShift | luaclib_src/lua-cjson/dtoa.c:2105-2117 | a shift below 32 after which the top word has exactly four leading zero bits |
| Dtoa.ShiftedBits | luaclib_src/lua-cjson/dtoa.c:2105-2117 | the leading zeros of the top word decide where the shifted number's top word lies |
| Dtoa.TopWordIs | luaclib_src/lua-cjson/dtoa.c:4145-4159 | a number in that range meets the precondition of `quorem` |
| Dtoa.Pow5Mult | luaclib_src/lua-cjson/dtoa.c:918-972 | the value times 5^k by repeated squaring |
| Dtoa.Digits | luaclib_src/lua-cjson/dtoa.c:4284-4329 | the loop and its rounding emit b/S rounded half to even to the requested digits, trailing zeros dropped, or a carry into the next power of ten |
| Dtoa.RoundLast | luaclib_src/lua-cjson/dtoa.c:4306-4329 | the last digit is rounded by the remainder, a tie by its parity |
| Dtoa.RoundOff | luaclib_src/lua-cjson/dtoa.c:4314-4322 | the digits spell one more than before, trailing nines gone, or 1 with a carry when all were nines |
| Dtoa.TrimZeros | luaclib_src/lua-cjson/dtoa.c:4323-4329 | the digits spell the same number without trailing zeros |
| Dtoa.RoundsToNearest | luaclib_src/lua-cjson/dtoa.c:4306-4313 | the rounding meant by these members is the nearest integer, the even one of two nearest |
| Dtoa.RoundScaled | luaclib_src/lua-cjson/dtoa.c:4145-4159 | scaling b and S by a common factor does not change the digits |
| Dtoa.Mode2 | luaclib_src/lua-cjson/dtoa.c:4084-4329 | from the exact fraction to digits and decimal point: correctly rounded also when the estimate of the power of ten was one too large |
| Netpack.Queue.constructor | skynet/lualib-src/lua-netpack.c:117-132 | an empty queue with no uncomplete package |
| Netpack.Queue.FindUncomplete | skynet/lualib-src/lua-netpack.c:85-115 | takes out exactly the uncomplete record of the fd, leaving all others |
| Netpack.Queue.Save | skynet/lualib-src/lua-netpack.c:170-181 | puts back a record for the fd |
| Netpack.Queue.CloseUncomplete | skynet/lualib-src/lua-netpack.c:218-226 | forgets the unparsed tail of the fd |
| Netpack.Queue.ExpandQueue | skynet/lualib-src/lua-netpack.c:134-149 | a full ring is copied to a larger one, oldest package first |
| Netpack.Queue.PushData | skynet/lualib-src/lua-netpack.c:151-168 | the package is appended through any expansion |
| Netpack.Queue.Pop | skynet/lualib-src/lua-netpack.c:400-414 | the oldest package leaves, or none |
| Netpack.Queue.PushMore | skynet/lualib-src/lua-netpack.c:189-216 | queues all packages of the buffer and records its unparsed tail |
| Netpack.Queue.Begin | skynet/lualib-src/lua-netpack.c:271-307 | the same for the first chunk of a package, down to a single byte |
| Netpack.Queue.FillSized | skynet/lualib-src/lua-netpack.c:245-270 | the same when the size is known and some data is there |
| Netpack.Queue.Fill | skynet/lualib-src/lua-netpack.c:232-270 | the same for any uncomplete record, half a size included |
| Netpack.Queue.FilterData | skynet/lualib-src/lua-netpack.c:228-308 | a chunk emits exactly the packages completed by tail plus chunk, alone or through the queue, and leaves exactly the new tail; other fds are untouched |
| Netpack.ParseGoesOn | skynet/lualib-src/lua-netpack.c:189-216 | parsing a stream in two parts is parsing it at once |
| Netpack.Reassembles | skynet/lualib-src/lua-netpack.c:228-308 | for any interleaving of chunks and closes of any fds, the packages completed chunk by chunk are the one-shot parse of the bytes of each fd, and the tail is the unparsed rest |
| Netpack.Drain | skynet/lualib-src/lua-netpack.c:400-414 | popping until nothing is left returns the packages of a chunk in order |
| Netpack.Take | skynet/lualib-src/lua-netpack.c:228-414 | one chunk through `filter_data` and the queue yields exactly the packages it completes and leaves the new tail in the record of its fd |
| Netpack.RunEvents | skynet/lualib-src/lua-netpack.c:218-414 | a run of the queue over any interleaving of chunks and closes hands each fd exactly the one-shot parse of its bytes since its last close, and its record holds the unparsed rest |
| Netpack.ParsePacked | skynet/lualib-src/lua-netpack.c:434-456 | parsing packed messages laid end to end returns the messages and leaves nothing |
| Seri.WriteBlock.Push | skynet/lualib-src/lua-seri.c:65-85 | the bytes are appended across any number of 128-byte blocks |
| Seri.WriteBlock.PushInteger | skynet/lualib-src/lua-seri.c:142-174 | an integer goes out in the width its value selects |
| Seri.WriteBlock.PushText | skynet/lualib-src/lua-seri.c:190-213 | a string goes out with its length in the tag, in 16 or in 32 bits |
| Seri.WriteBlock.PackOne | skynet/lualib-src/lua-seri.c:303-350 | appends the encoding of the value, or fails exactly when it is nested too deep |
| Seri.WriteBlock.PackTable | skynet/lualib-src/lua-seri.c:217-301 | the same for a table: array part with its size or the long-array cookie, pairs, and the closing nil |
| Seri.WriteBlock.Seri | skynet/lualib-src/lua-seri.c:544-563 | flattening the blocks gives the bytes written |
| Seri.Pack | skynet/lualib-src/lua-seri.c:609-622 | packs the whole argument list, or fails exactly when some value is nested too deep |
| Seri.ReadBlock.RbRead | skynet/lualib-src/lua-seri.c:118-128 | the next bytes, or nothing when too few are left |
| Seri.ReadBlock.ReadInteger | skynet/lualib-src/lua-seri.c:369-410 | reads what the cookie says, or reports an invalid stream |
| Seri.ReadBlock.ReadPlain | skynet/lualib-src/lua-seri.c:477-531 | reads any value that is not a table |
| Seri.ReadBlock.UnpackTable | skynet/lualib-src/lua-seri.c:444-475 | reads array part and pairs up to the nil key, with an array size cut to 32 bits, or reports an invalid stream |
| Seri.ReadBlock.UnpackOne | skynet/lualib-src/lua-seri.c:533-542 | reads one value as the byte-level decoder does, whatever the bytes, or reports an invalid stream |
| Seri.UnpackStream | skynet/lualib-src/lua-seri.c:565-607 | reads values until the bytes are used up |
| Seri.SizeTruncated | skynet/lualib-src/lua-seri.c:444-458 | an eight-byte array size is taken for its low 32 bits as a signed number, which is the size itself exactly when it fits |
| Seri.SizeWraps | skynet/lualib-src/lua-seri.c:444-475 | a stream that names 2^32 + 1 elements and holds one value is read as a table of that one value |
| Seri.IntegerBack | skynet/lualib-src/lua-seri.c:142-174 | every 64-bit integer is read back from the width it was written in |
| Seri.IntegerNarrowest | skynet/lualib-src/lua-seri.c:142-174 | nothing the decoder reads as an integer is shorter than what is written for it |
| Seri.TextNarrowest | skynet/lualib-src/lua-seri.c:190-213 | nor is anything it reads as a string behind a length of its own |
| Seri.TextBack | skynet/lualib-src/lua-seri.c:190-213 | every string is read back from the length form it was written in |
| Seri.SizeBack | skynet/lualib-src/lua-seri.c:217-237 | every array size is read back, the long form included |
| Seri.AllBack | skynet/lualib-src/lua-seri.c:217-237 | the array part is read back |
| Seri.PairsBack | skynet/lualib-src/lua-seri.c:239-257 | the pairs are read back up to the closing nil |
| Seri.TableBack | skynet/lualib-src/lua-seri.c:444-475 | a table is read back |
| Seri.ValueBack | skynet/lualib-src/lua-seri.c:303-350 | any value is read back in front of any other bytes, which are left alone |
| Seri.UnpackPack | skynet/lualib-src/lua-seri.c:565-622 | the decoder undoes the encoder on every list of values |
| Seri.PackThenUnpack | skynet/lualib-src/lua-seri.c:565-622 | the program's pack, flattening and unpack return the same list for every list nested at most 32 deep, and refuse any other |
| StringMap.OneChain | luaclib_src/pbc/src/map.c:94-103 | following the links from a slot has one outcome |
| StringMap.NoRepeat | luaclib_src/pbc/src/map.c:94-103 | a chain never comes back to a slot, so every query terminates |
| StringMap.ChainKept | luaclib_src/pbc/src/map.c:287-298 | linking a slot in behind another keeps every slot of every chain reachable |
| StringMap.LinkKeeps | luaclib_src/pbc/src/map.c:287-298 | after it every key is still reachable from its home slot and all chains end |
| StringMap.HomeKeeps | luaclib_src/pbc/src/map.c:283-286 | so it is after a key is put into its free home slot |
| StringMap.NotInChain | luaclib_src/pbc/src/map.c:379-399 | a key that is not in the chain of its home slot is not in the map |
| StringMap.HomeEmpty | luaclib_src/pbc/src/map.c:379-399 | nor is a key whose home slot is empty |
| StringMap.SomeEmpty | luaclib_src/pbc/src/map.c:288-291 | while there is room the search for an empty slot succeeds |
| StringMap.Map.constructor | luaclib_src/pbc/src/map.c:250-264 | an empty map with at least the asked capacity |
| StringMap.Map.FindEmpty | luaclib_src/pbc/src/map.c:288-291 | the scan from the home slot, wrapping around, ends at an empty slot |
| StringMap.Map.PutLinked | luaclib_src/pbc/src/map.c:287-298 | a key whose home slot is taken is bound and nothing else changes |
| StringMap.Map.InsertWithRoom | luaclib_src/pbc/src/map.c:277-301 | a new key is bound and nothing else changes |
| StringMap.Map.Rehash | luaclib_src/pbc/src/map.c:306-322 | doubling keeps every binding |
| StringMap.Map.Insert | luaclib_src/pbc/src/map.c:277-304 | a new key is bound, doubling first when the map is full |
| StringMap.InsertedTwice | luaclib_src/pbc/src/map.c:277-301 | a key inserted again, while there is room, gets a second slot right after its home slot: the walk meets the new value first exactly when the old one is not in the home slot |
| StringMap.Map.Query | luaclib_src/pbc/src/map.c:379-399 | the value of the key, or none exactly when it is absent |
| StringMap.Map.Find | luaclib_src/pbc/src/map.c:324-344 | the slot of the key, or none exactly when it is absent |
| StringMap.Map.QueryInsert | luaclib_src/pbc/src/map.c:324-365 | the slot of the key, which is bound to null first exactly when it was absent |
| StringMap.NewTable | luaclib_src/pbc/src/map.c:44-78 | a table without spare slots built from distinct keys holds exactly them |
| StringMap.IdMap.constructor | luaclib_src/pbc/src/map.c:108-166 | the array or hash map of ids holds exactly the given distinct ids; it is an array exactly when no id is negative or more than twice their number |
| StringMap.IdMap.FillArray | luaclib_src/pbc/src/map.c:156-165 | the array form holds exactly the given ids |
| StringMap.IdMap.Query | luaclib_src/pbc/src/map.c:213-234 | the value of the id, or none exactly when it is absent, in both forms |
| Srp.SecretsAgree | luaclib_src/csrp/srp.c:628-650 | client and server compute the same premaster secret for every group, salt, password and secrets, in both modes |
| Srp.ServerIs | luaclib_src/csrp/srp.c:628-650 | (A * v^u)^b is g^(b * (a + u * x)) modulo N |
| Srp.ChallengeLeaves | luaclib_src/csrp/srp.c:926-1023 | B - k * g^x is g^b modulo N, whether or not B was reduced |
| Srp.NumBin | luaclib_src/csrp/srp.c:525-569 | a number survives the trip through bytes |
| Srp.CreateKey | luaclib_src/csrp/srp.c:525-569 | salt and verification key g^x as bytes, x being the private key of that name, password and salt |
| Srp.NewVerifier | luaclib_src/csrp/srp.c:575-726 | a session exactly when A is not a multiple of N and the hashes succeed; then B, M and H_AMK belong to the server's secret |
| Srp.Verifier.VerifySession | luaclib_src/csrp/srp.c:763-773 | only the proof M authenticates, and only then is H_AMK handed out |
| Srp.User.StartAuthentication | luaclib_src/csrp/srp.c:901-923 | A = g^a as bytes |
| Srp.User.ProcessChallenge | luaclib_src/csrp/srp.c:926-1023 | an answer exactly when neither B nor u is zero and the hashes succeed; then M and H_AMK belong to the client's secret |
| Srp.User.VerifySession | luaclib_src/csrp/srp.c:1025-1030 | only the server's H_AMK authenticates |
| Srp.Session | luaclib_src/csrp/srp.c:901-1030 | between a server that stores one password and a client who types another or the same: with the same one both sides authenticate exactly when all zero checks and hashes pass; with any two, and a hash without collisions, exactly when moreover the two premaster secrets are the same number; sides that authenticate share the key |
| Srp.KeyDepends | luaclib_src/csrp/srp.c:366-384 | for a hash without collisions equal private keys of one salt and name have equal passwords, and so for the salt and, unless it is left out, the name |
| Srp.HashDepends | luaclib_src/csrp/srp.c:304-345 | u depends on A and on B: in RFC 5054 mode on the pair, in the other on their bytes laid end to end |
| Srp.PairsConfused | luaclib_src/csrp/srp.c:304-321 | two pairs that this other mode does not tell apart, under any hash |
| Srp.ProofDepends | luaclib_src/csrp/srp.c:413-457 | equal proofs that agree in all else agree in the key, and so for the name, the salt, A and B |
| Srp.AnswerDepends | luaclib_src/csrp/srp.c:459-475 | the same for the answer of the server |
| Srp.WronglyAccepted | luaclib_src/csrp/srp.c:974-1010 | the challenges the client answers and section 2.5.3 of RFC 5054 refuses are exactly the multiples of N other than 0 whose hashes can be computed with u not 0; it answers all those the standard accepts |
| Srp.GroupAccepted | luaclib_src/csrp/srp.c:974-1010 | B = N is one of them |
| Des.FpUndoesIp | skynet/lualib-src/lua-crypt.c:206-233 | the final permutation undoes the initial one |
| Des.IpUndoesFp | skynet/lualib-src/lua-crypt.c:206-233 | and the initial one undoes the final one |
| Des.IpIsTable | skynet/lualib-src/lua-crypt.c:206-219 | the masked exchanges are the initial permutation table of FIPS 46-3, each half rotated left by one |
| Des.RoundsReverse | skynet/lualib-src/lua-crypt.c:234-247 | with the subkey pairs reversed n rounds take back the last n of sixteen, for any S-boxes and subkeys |
| Des.CryptReverses | skynet/lualib-src/lua-crypt.c:319-342 | so a block encrypted and then run with reversed subkeys is back |
| Des.Round | skynet/lualib-src/lua-crypt.c:234-247 | one half is changed by what the other half and two subkeys select |
| Des.MixSelects | skynet/lualib-src/lua-crypt.c:234-247 | each S-box is looked up at the six bits that its row of the table E of FIPS 46-3 selects from the half, xored with its six bits of the two subkeys |
| Des.SixteenRounds | skynet/lualib-src/lua-crypt.c:329-336 | the sixteen alternating rounds are the sixteen steps of the network |
| Des.DesCrypt | skynet/lualib-src/lua-crypt.c:319-342 | eight bytes of the output become the encrypted block and no others change |
| Des.CryptAllReverses | skynet/lualib-src/lua-crypt.c:484-515 | the same for any number of blocks |
| Des.AddPadding | skynet/lualib-src/lua-crypt.c:379-443 | the last block is the rest of the text and the padding of the mode; an unknown mode is an error |
| Des.RemoveIso | skynet/lualib-src/lua-crypt.c:385-400 | the count of padding bytes exactly when the last block ends in 0x80 and zeros, else 0 |
| Des.RemovePkcs7 | skynet/lualib-src/lua-crypt.c:402-418 | n in 1 to 8 exactly when the last n bytes all are n; it reads before the buffer exactly when the last byte exceeds its length and all of its bytes are equal |
| Des.RemovePadding | skynet/lualib-src/lua-crypt.c:445-449 | the count of either mode; an unknown mode is an error; only the second mode can read before the buffer, and exactly then |
| Des.SomeTextReadsBefore | skynet/lualib-src/lua-crypt.c:407-418 | eight bytes 0xFF are read past their beginning, and under every key some cipher text decrypts to them |
| Des.DesKey | skynet/lualib-src/lua-crypt.c:451-459 | the schedule of the key; a key that is not eight bytes long is an error |
| DesKeys.Tables | skynet/lualib-src/lua-crypt.c:174-186 | the two tables of the code spread the bits of a nibble over four bytes, in one order and in the other |
| DesKeys.Pc1IsTable | skynet/lualib-src/lua-crypt.c:259-274 | the exchanges and table lookups make the two halves of the table PC-1 of FIPS 46-3 |
| DesKeys.FirstWordIsTable | skynet/lualib-src/lua-crypt.c:291-301 | the first word of a round holds the bits of the table PC-2 of FIPS 46-3 for the even S-boxes |
| DesKeys.SecondWordIsTable | skynet/lualib-src/lua-crypt.c:303-313 | the second word holds those for the odd S-boxes |
| DesKeys.TurnedAround | skynet/lualib-src/lua-crypt.c:278-289 | the rotations of the sixteen rounds come to a full turn of each half |
| DesKeys.MainKs | skynet/lualib-src/lua-crypt.c:252-315 | the array holds, for each round, the two words selected from the halves rotated so far |
| Des.Reverse | skynet/lualib-src/lua-crypt.c:491-496 | the subkeys in reversed pairs |
| Des.DesEncode | skynet/lualib-src/lua-crypt.c:461-485 | the encrypted blocks of the padded text, or the error of a bad key or mode |
| Des.DesDecode | skynet/lualib-src/lua-crypt.c:487-517 | a text is returned exactly when encoding it gives the input: decoding accepts the outputs of encoding and nothing else; it reads before the decrypted text exactly in the case of `Des.RemovePkcs7` |
| Des.EncodeThenDecode | skynet/lualib-src/lua-crypt.c:461-517 | decoding what was encoded returns the text, for every eight-byte key, every text and both modes |
| DhExchange.MulModP | skynet/lualib-src/lua-crypt.c:795-814 | the product modulo P, without leaving 64 bits |
| DhExchange.NextBit | skynet/lualib-src/lua-crypt.c:798-812 | one turn of the loop keeps m + a * b modulo P, with every wrapped subtraction |
| DhExchange.PowModP | skynet/lualib-src/lua-crypt.c:816-828 | the power modulo P by squaring |
| DhExchange.PowerModP | skynet/lualib-src/lua-crypt.c:830-836 | a^b mod P for every base and every positive exponent, except P to the power 1 |
| DhExchange.PowersOfFive | skynet/lualib-src/lua-crypt.c:868-889 | no power of the generator is 0 modulo P, so an exchanged key is always accepted |
| DhExchange.Read64 | skynet/lualib-src/lua-crypt.c:708-723 | eight bytes are read, word by word, as the little-endian number they spell |
| DhExchange.Push64 | skynet/lualib-src/lua-crypt.c:838-851 | a number is written as those eight bytes |
| DhExchange.DhExchangeKey | skynet/lualib-src/lua-crypt.c:870-889 | the bytes of 5^x mod P, or an error exactly for a key that is 0 or not eight bytes long |
| DhExchange.DhSecret | skynet/lualib-src/lua-crypt.c:853-866 | the bytes of x^y mod P, P itself for P to the power 1, or an error exactly when either string is 0 or not eight bytes long |
| DhExchange.Agree | skynet/lualib-src/lua-crypt.c:853-889 | both sides derive the bytes of 5^(x * y) mod P, for all non-zero eight-byte secrets |

## Left out

Assumptions of the step systems:

- Atomics are sequentially consistent; each section under a spin lock or the table's lock is one step. Fairness of spin locks and of scheduling, condition variables and wall-clock accuracy are not modelled.
- Timer delays are in 1..2^31-1 and socket chunks given to the package filter are not empty.
- A retired handle is not reissued while the queue of its earlier context still exists (`HandleTable.RunCalls` says how far apart equal handles are).
- Registering a context, storing `ctx->handle` and creating its queue (`skynet/skynet-src/skynet_server.c:154-156`) is one step.
- The activities of one call stack (a callback that sends, a send made while a queue is drained) run as separate activities; this only adds interleavings.
- The socket system follows one id from `new_fd` to its end: a slot given to another id, and sends made before the socket has its type, are not part of it.
- `sending` is kept below its 16-bit limit by a guard, where `inc_sending_ref` spins.

What is not modelled, or modelled as something else:

- SchedulerRuns.AssertionsHold: the assertion on a null message in `skynet_mq_push`, and what `dispatch` does for a context that has set no callback, are not modelled.
- TimerWheel.Wheel.AddNode: the linked lists of the slots are sequences in arrays, so the head and tail pointers of `link` and `link_clear` are not seen.
- SocketThread.Socket.SendListTcp: write lists are sequences; freeing of buffers is not seen. UDP, user-object buffers and the epoll or kqueue calls are left out.
- Seri.WriteBlock.Push: the chain of blocks is a sequence of arrays.
- SocketThread.CloseRaisedOnce: sockets that listen or wrap a descriptor opened elsewhere (types LISTEN, PLISTEN and BIND) are not covered.
- StringMap.Map.Insert: the keys are distinct; `StringMap.InsertedTwice` says what a repeated key does, but not what later doublings do to it.
- StringMap.IdMap.Query: hash chains of the id map are those of the string map, with no null pointers among its values; `_pbcM_ip_combine`, iteration and deletion are left out, and `hash & (cap-1)` on a power of two is `hash % cap`.
- Netpack.Queue.FilterData: the queue exists from the start instead of being created on first use, and `lclear` is left out.
- Seri.Pack: values with a `__pairs` metamethod, light userdata beyond its eight bytes, and the identity of tables are not modelled; a table is the array part and the pairs in the order Lua visits them; streams are shorter than 2^31 bytes, so that a longer string length is an error; numbers are little endian.
- Dtoa.Mode2: the other modes, the floating-point quick path, the estimate of the power of ten (a parameter, with both outcomes), special values, and the cache of powers of five are left out; a fraction is given as powers of two and five times an integer. Shifts and masks of words are written as arithmetic.
- Bignum.Bigint.Balloc: the free lists of `Balloc` and `Bfree` are not modelled.
- Srp.Session: BIGNUMs are integers with mathematical remainder and the hash is any function on bytes; random numbers are parameters; allocation failures, an invalid hash algorithm and the tables of known groups are left out.
- Des.DesCrypt: the S-boxes are any functions, so agreement with published test vectors is not claimed; the key schedule is that of the code. What lies before the output buffer is an arbitrary function.
- `skynet_context_dispatchall`, `skynet_handle_retireall`, `skynet_context_reserve` and `skynet_context_send` are left out: they run at start or exit, or repeat what is there.
- The pbc message codec (`luaclib_src/pbc/src/wmessage.c`, `luaclib_src/pbc/src/rmessage.c`) is not modelled.
- `lua-sharedata.c`, `hashid.h`, `databuffer.h`, the harbor stream parser, and base64 and hex coding are not modelled: they are lookups, buffers and conversions of the sort `StringMap.dfy`, `Netpack.dfy` and `FixedWidth.dfy` treat.
