# Aggligator: a verified model of the reliable multi-link protocol

Aggligator carries one reliable, ordered channel over a changing set of links. Each link is a FIFO pipe in each
direction that may hang, be declared unconfirmed, recover, or die together with everything in flight on it. This project
models the sending, acknowledging, resending and receiving of reliable messages, the credit flow control, the graceful
end, the 32-bit sequence numbers, the policing of slow links, and the layers below (messages, two-packet data framing,
the integrity codec) and above (the byte stream), and proves what a connection guarantees in every state of every run.

| file | contents |
|---|---|
| `Numbering.dfy` | wrapping sequence numbers, their difference and comparison, and when these are exact |
| `Protocol.dfy` | the state of an endpoint and the effect of each operation, on values |
| `Invariants.dfy`, `Preservation.dfy` | what every operation of an endpoint keeps |
| `System.dfy` | two endpoints and any number of links; every interleaving of sends, deliveries, acknowledgements, unconfirms, resends, link additions, removals and deaths |
| `Truth.dfy`, `Credit.dfy`, `Stream.dfy`, `Runs.dfy` | the invariant of the system, part by part, and its preservation by every step |
| `Guarantees.dfy` | what follows for every state of every run |
| `Scenarios.dfy` | the building blocks of reachable states: connecting, and one message sent, received, acknowledged and consumed |
| `Underflow.dfy` | when an honest peer refuses an honest message |
| `EmptyMessage.dfy` | when data is left unconsumed at a graceful end |
| `Signals.dfy` | what the endpoints tell each other about their halves, and when the peer knows |
| `Limits.dfy`, `Returns.dfy` | the send buffer, the limit of a link, the numbers in use, and the return of credit |
| `LinkLife.dfy` | unconfirmed and new links, the limit of a link that fails, and what a flush marks |
| `EarlyEnd.dfy` | when a reader sees the end of the stream before all data was read |
| `HalfOpen.dfy`, `Progress.dfy` | what holds while the reader is there, and that all accepted data can still be delivered from every state |
| `SendBuffer.dfy` | messages that are larger than the send buffer |
| `Endpoint.dfy`, `Sorting.dfy`, `EventLoop.dfy` | the endpoint with its queues and counters updated in place, with 32-bit numbers |
| `Wraparound.dfy` | each operation of an endpoint with 32-bit numbers does what it does with unbounded numbers |
| `WrappedConsistency.dfy` | the invariant of an endpoint in every run of two endpoints with 32-bit numbers |
| `WrappedRuns.dfy` | the system of two endpoints with 32-bit numbers, its runs, and delivery in them |
| `Ages.dfy`, `AgedCopy.dfy` | how old frames can be, and a run in which one is too old |
| `Policing.dfy`, `StaleIdle.dfy` | declaring slow links not working, and what that does to the idle links |
| `BigEndian.dfy`, `Messages.dfy`, `Framing.dfy`, `Codec.dfy` | from messages to bytes and back |
| `ByteStream.dfy` | writing and reading the channel as a stream of bytes |

How the parts fit together. `Protocol.dfy` defines every operation, and `System.dfy` every step of two endpoints, as
functions that are parametrised by the numbering. The theorems about whole runs are about unbounded numbers.
`WrappedRuns.dfy` carries them over to two endpoints with 32-bit numbers, whose frames carry 32-bit numbers: every such
run is an unbounded run of which the high bits are forgotten, as long as numbers in use can be told apart. The class
`Endpoint` uses 32-bit numbers, and each of its methods is proved to do what the function says. In every state in which
numbers can be told apart at an endpoint, it meets what these methods ask for (`UnconfirmSorts`); the re-queuing step of the
system, which takes the queued packets oldest first, is there what any sort by 32-bit number yields. The actions of the system
are guarded by the conditions of the program's branches but are not ordered by priority, so the system has every behaviour
of the event loop and more: `EventLoop.ReadyIsAction` shows that for the branch on a ready link. Timeouts, unconfirms, link
additions and link deaths may happen at any moment. The identity of a shared packet object is its `uid`; it is not a
number on the wire. A system is "gated" when control messages wait for a free sequence number as data does; the program
is not.

Findings. Each is a property that the program does not have in general, with the exact condition under which it has it:

- The comparison of sequence numbers agrees with the order of the messages up to a distance of one quarter of the number
  space and no further (`CompareExactIff`), and so does the place a received number finds (`PlaceExactIff`); a delayed
  copy just outside is refused, which ends the connection (`PlaceFailsOutside`).
- Only data waits for a free sequence number. For every configuration there is a run of honest endpoints that ends with
  "sequence number underflow": one message of an endpoint is held up on a link while more control messages than the
  usable interval overtake it (`UngatedRunHalts`). It is the only protocol error between honest endpoints
  (`CreditIsConserved`); a message is refused exactly when it is further ahead than the usable interval
  (`RefusedIffFarAhead`); and no run halts if and only if control messages wait as well (`NeverHaltsIffGated`).
- A side may end gracefully while data is not consumed by the peer: for given data exactly when the last of it is empty
  (`ExitConsumesIff`).
- A message that is accepted but larger than the sender's own `send_buffer` is never sent, nor is any data behind it, and
  the peer never sees the end of the stream (`TooBigBlocksForGood`). This can happen exactly when `send_buffer` is smaller
  than the largest size accepted (`WriterGetsStuckIff`); nothing in `alc/sender.rs` rejects it.
- `poll_write` cuts packets at the size of the peer's receive buffer, but `start_send` refuses anything above half of it:
  no write fails exactly when `min(io_write_size, recv_buffer) <= max(recv_buffer / 2, 2) - 1` (`WritesNeverFailIff`).
- A write of no bytes makes an empty packet, which the reader takes for the end of the stream. For given data, whoever sees
  the end has read all of it, at any time in any run, exactly when no empty packet that can be sent stands before a packet
  that is not empty (`EndIsTrueIff`).
- All accepted data can still be delivered, and the end reported, from every state in which no endpoint has halted and the
  reader is there, exactly when every message in the queue is within `send_buffer` (`DeliveryPossibleIff`).
- With 32-bit numbers the gate is not enough: for every configuration there is a run in which all reliable messages wait
  for a free number and a copy that was held back on a link while just over a quarter of the number space was used halts its
  receiver (`AgedCopyHalts`). Without a frame of such an age nobody halts (`GatedWrappedDelivery`).
- The policing of slow links spares some usable link, whatever the round trips, exactly when `max_ping` of no usable link
  exceeds twice the spread times one more than `max_ping` of another (`SparesIffCompatible`); one shared configuration meets
  this (`SharedLimitSpares`), limits of 100 and 5 with a spread of 5 do not (`DifferentLimitsTakeAll`).
- That links are idle is noted before the policing and used after it. The `pop().unwrap()` at `agg/task.rs:997` fails
  exactly when all idle links are declared not working while credit is due (`PopFailsIff`), and every configuration reaches
  such a state, even with one limit for all links and another link left usable (`IdleSampleCanBeStale`).

## Model

| member | source | states |
|---|---|---|
| `Guarantees.EndToEndDelivery` | aggligator/src/agg/task.rs:1692-1817 | in every state of every run, in both directions: delivered data is a prefix of sent data, which is a prefix of accepted data, and the end of the stream is reported only after all of it |
| `Guarantees.NothingIsForgotten` | aggligator/src/agg/task.rs:1711-1725 | every number ever given out is received by the peer or kept with its original message; it is marked received or dropped only when the peer has it |
| `Guarantees.NoPacketIsStranded` | aggligator/src/agg/task.rs:1731-1774 | an unacknowledged packet whose last link lives has its copy in the forward pipe, its number in the peer's queue of acknowledgements for that link, or its acknowledgement in the reverse pipe |
| `Guarantees.CreditIsConserved` | aggligator/src/agg/task.rs:2083-2098 | unconsumed bytes at the sender equal bytes not yet first-received, held, consumed and not returned, and in `Consumed` messages not yet first-received; no overflow, no underflow, no truncating cast; the only possible protocol error is the one of numbers |
| `Limits.SendBufferHolds` | aggligator/src/agg/task.rs:1310-1314 | in every state of every run, at both ends, the unacknowledged bytes are within `send_buffer` |
| `Limits.LinkLimitHolds` | aggligator/src/agg/link_int.rs:783-785 | in every run, data is sent and packets are resent only over a link on which fewer bytes are out than its limit |
| `Limits.NumberIsFreeIff` | aggligator/src/agg/task.rs:1317-1319 | in every run, a number is free exactly when no more packets are kept than the usable interval has numbers |
| `Limits.NoPeerOverruns` | aggligator/src/agg/task.rs:2083-2098 | whatever a peer sends, honest or not, the receive buffer is not overrun and no more credit is returned than was taken |
| `Returns.CreditIsReturnedInBulk` | aggligator/src/agg/task.rs:2134-2141 | in every run, bytes returned and yet to be returned are the bytes consumed, and while the reader is there each message returns more than a tenth of the receive buffer |
| `Guarantees.GatedRunsNeverHalt` | aggligator/src/agg/task.rs:2070-2073 | when every reliable message waits for a free number, the receiver is at or past the oldest kept number and no message is ever refused |
| `Guarantees.RefusedIffFarAhead` | aggligator/src/agg/task.rs:2064-2073 | in every run, an arriving message is refused exactly when its number is more than the usable interval ahead of the next expected one |
| `Underflow.UngatedRunHalts` | aggligator/src/agg/task.rs:838-846 | for every pair of configurations, a run of the program in which an honest endpoint halts with a sequence number underflow |
| `Underflow.NeverHaltsIffGated` | aggligator/src/agg/task.rs:2070-2073 | for every pair of configurations, no run halts if and only if control messages wait for a free number, too |
| `Guarantees.OnlyAgeLeavesWindow` | aggligator/src/agg/task.rs:1317-1319 | in such runs a frame that is not older than a quarter (an acknowledgement: half) of the number space is handled with 32-bit numbers exactly as with unbounded ones |
| `Guarantees.ShutdownNeverWedges` | aggligator/src/agg/task.rs:459-478 | both halves closed at both ends and nothing pending: the condition for a graceful end holds at both ends |
| `Guarantees.ExitMeansConsumed` | aggligator/src/agg/task.rs:462-467 | when that condition holds, the peer has received every message and consumed all but messages without bytes at the end; if the last data is not empty, all data was consumed |
| `Guarantees.ExitReturnsCredit` | aggligator/src/agg/task.rs:462-467 | when that condition holds, all credit for what this side has received is back at the peer |
| `Signals.ExitTellsPeer` | aggligator/src/agg/task.rs:462-467 | when that condition holds, the peer sends no more data, and its reader is gone, has seen the end, or finds it among what it has yet to consume |
| `EmptyMessage.LastEmptyIsLeft` | aggligator/src/agg/task.rs:462-467 | for every list of data within the limits that ends in an empty message, a reachable state in which it was sent, the condition holds and the last message is not consumed |
| `EmptyMessage.ExitConsumesIff` | aggligator/src/agg/task.rs:462-467 | for every list of data: whenever it was sent and the condition holds it was consumed, if and only if the last of it is not empty or it cannot be sent |
| `Guarantees.WindowOpensAgain` | aggligator/src/agg/task.rs:1310-1319 | in every run, once all is received, acknowledged and consumed and no `Consumed` is due or under way, an accepted message fits exactly when it is within `send_buffer` |
| `Progress.DeliveryStaysPossible` | aggligator/src/agg/task.rs:736-1200 | from every reachable state without a halt and with the reader there, if the queued data is within `send_buffer`, the run can go on until all accepted data is delivered and, if the writer has finished, the end is reported |
| `Progress.DeliveryPossibleIff` | aggligator/src/agg/task.rs:1310-1314 | this is possible if and only if every queued message is within `send_buffer` |
| `HalfOpen.RunStaysTidy` | aggligator/src/agg/task.rs:2099-2110 | in every run, while the reader of the peer is there: what was sent and what is queued is what was accepted, nobody has told the writer to finish, and frames travel only over links that were added |
| `Signals.SignalsArrive` | aggligator/src/agg/task.rs:2099-2107 | in every run, the writer is told to take no more data exactly when the ReceiveClose of the peer has arrived, its half is given up when ReceiveFinish has, either only if the reader asked for it, and every signal is sent at most once |
| `Signals.ClosingIsDue` | aggligator/src/agg/task.rs:1008-1090 | in every run, closing a reader, dropping it, or finishing to write makes the signal of it due |
| `Signals.SignalsAreHeard` | aggligator/src/agg/task.rs:859-873 | when a side has no signal due and nothing unacknowledged, its peer knows: writing is closed exactly when the reader was closed, and over when the reader is gone |
| `LinkLife.UnconfirmedIsEmpty` | aggligator/src/agg/task.rs:1777-1817 | in every run, nothing is believed to be out on an unconfirmed link |
| `LinkLife.NewLinkIsUnused` | aggligator/src/agg/task.rs:1235-1258 | a new link is in the first free slot with nothing out on it, all others are as they were, and it is used for reliable messages only when it need not be tested |
| `LinkLife.ConfirmedIsUsed` | aggligator/src/agg/task.rs:1881-1921 | a link that is confirmed is used again unless a payload waits for its sink |
| `LinkLife.PolledIsClaimable` | aggligator/src/agg/link_int.rs:631-633 | a link that is polled is not idle and is taken when its sink is ready |
| `LinkLife.LimitHalves` | aggligator/src/agg/link_int.rs:793-800 | after any number of failures in a row the limit is that many times halved, but at least 128 |
| `LinkLife.FlushMarksAll` | aggligator/src/agg/link_int.rs:754-766 | a flush marks exactly what is out on the link |
| `LinkLife.SendFlushesEarlier` | aggligator/src/agg/link_int.rs:542-601 | a message that begins a flush marks what was sent over the link before it, and not itself |
| `LinkLife.ResendFlushesEarlier` | aggligator/src/agg/task.rs:1731-1774 | the same for a packet that is resent, which is marked as resent |
| `Guarantees.EndpointsStayConsistent` | aggligator/src/agg/task.rs:1235-1280 | in every state of every run both endpoints satisfy the local invariant: contiguous numbers, byte counters equal to sums over packets, exact resend queue, coherent slots, idle list and packet lists, receive buffer |
| `WrappedConsistency.WrappedStayConsistent` | aggligator/src/agg/task.rs:1235-1280 | the same in every state of every run with 32-bit numbers, whatever the age of frames and the number of kept packets |
| `Guarantees.QueuedIsUnlisted` | aggligator/src/agg/task.rs:1735-1773 | a packet waiting to be resent is in no link's own list, so a flush started inside its resend does not touch it |
| `Runs.RunKeeps` | aggligator/src/agg/task.rs:736-1200 | the whole invariant of the system holds in every state of every run |
| `Runs.StepKeeps` | aggligator/src/agg/task.rs:736-1200 | every step of either side keeps the invariant of the system |
| `Runs.ReceiverPastBase` | aggligator/src/agg/task.rs:2203-2214 | numbers leave the sender's queue only after the receiver has moved past them |
| `Runs.GatedIsPlaced` | aggligator/src/agg/task.rs:2064-2073 | with at most the usable interval of numbers in use, no honest number is refused |
| `Truth.SendKeepsTruth` | aggligator/src/agg/task.rs:1692-1728 | a new message is logged, kept and on its link |
| `Truth.ResendKeepsTruth` | aggligator/src/agg/task.rs:1731-1774 | a resent packet is the original message and now travels on the new link |
| `Truth.RequeueKeepsTruth` | aggligator/src/agg/task.rs:1777-1817 | re-queuing forgets nothing and strands nothing |
| `Truth.AckKeepsTruth` | aggligator/src/agg/task.rs:2143-2217 | a truthful acknowledgement only drops or marks what the peer has |
| `Truth.AckStrandsNothing` | aggligator/src/agg/task.rs:2160-2201 | consuming an acknowledgement from a link leaves every still unreceived packet a way to be settled |
| `Truth.ReceiveKeepsTruth` | aggligator/src/agg/task.rs:2053-2131 | taking a copy off a link moves it to the queue of acknowledgements of this link; only what was received is acknowledged |
| `Truth.SendAckKeepsTruth` | aggligator/src/agg/task.rs:831-834 | an acknowledgement taken off the queue is on the link it is owed on |
| `Truth.KillKeepsDirection` | aggligator/src/agg/task.rs:950-962 | losing everything in flight on a link keeps all other facts |
| `Credit.ReceiveConserves` | aggligator/src/agg/task.rs:2083-2098 | first reception moves bytes from missing to held, or returned credit to the sender; a duplicate moves nothing |
| `Credit.SendConserves` | aggligator/src/agg/task.rs:839-846 | data takes its size of credit, `Consumed` returns exactly what was consumed and the cast to 32 bits loses nothing |
| `Credit.NoFlowError` | aggligator/src/agg/task.rs:2083-2098 | an honest message never overflows the receive buffer and never returns too much credit |
| `Credit.WindowNeverDeadlocks` | aggligator/src/alc/sender.rs:80-82 | the arithmetic of the window: a tenth of the receive buffer unreturned leaves room for half of it less one, for every non-zero size |
| `SendBuffer.SentDataFits` | aggligator/src/agg/task.rs:1310-1314 | in every run, all data ever sent is within the accepted size and within `send_buffer` |
| `SendBuffer.AcceptedIff` | aggligator/src/alc/sender.rs:80-82 | accepted is a single byte, and else what fits twice into the receive buffer with a byte to spare each time |
| `SendBuffer.TooBigBlocksForGood` | aggligator/src/agg/task.rs:874-891 | in every run, once a message above `send_buffer` is next, no data is ever sent again and the end of the stream is never reported |
| `SendBuffer.WriterGetsStuckIff` | aggligator/src/alc/sender.rs:80-82 | a writer can get there exactly when `send_buffer` is below the largest size accepted |
| `Stream.DeliveredIsPrefix` | aggligator/src/agg/task.rs:1092-1112 | order of consumption equals order of sending, over all ordered messages |
| `Stream.EndedIsComplete` | aggligator/src/agg/task.rs:1102-1106 | the end of the stream comes after all data that was accepted |
| `Preservation.SendKeeps` | aggligator/src/agg/task.rs:1692-1728 | sending keeps the local invariant |
| `Preservation.ResendKeeps` | aggligator/src/agg/task.rs:1731-1774 | resending keeps it |
| `Preservation.FlushKeeps` | aggligator/src/agg/task.rs:1957-1961 | flushing keeps it |
| `Preservation.UnconfirmKeeps` | aggligator/src/agg/task.rs:1777-1817 | unconfirming keeps it and leaves the link no unacknowledged bytes |
| `Preservation.RemoveKeeps` | aggligator/src/agg/task.rs:1261-1280 | removing a link and trimming free slots keeps it |
| `Preservation.AddKeeps` | aggligator/src/agg/task.rs:1235-1258 | a new link in a reused or new slot keeps it |
| `Preservation.AckKeeps` | aggligator/src/agg/task.rs:2143-2217 | handling any acknowledgement keeps it |
| `Preservation.AckIndexExact` | aggligator/src/agg/task.rs:2161-2165 | the index computed from an acknowledged number is that of the packet carrying it, and is found exactly when there is one |
| `Preservation.ReceiveKeeps` | aggligator/src/agg/task.rs:2053-2131 | receiving any message keeps it |
| `Preservation.DuplicateIsHarmless` | aggligator/src/agg/task.rs:2057-2068 | re-receiving a number changes nothing except that another acknowledgement is queued |
| `Preservation.FrontIsQueued` | aggligator/src/agg/task.rs:602-607 | the front of the resend queue is always in the queued state |
| `Preservation.IdleIsReady` | aggligator/src/agg/link_int.rs:542-544 | the assertions at the start of every send hold for an idle link |
| `Preservation.ConsumeKeeps` | aggligator/src/agg/task.rs:1092-1112 | consuming keeps the local invariant |
| `Preservation.TouchKeeps` | aggligator/src/agg/task.rs:1881-1921 | polling, claiming, confirming, blocking and queuing an acknowledgement keep it |
| `EndpointTask.Endpoint.constructor` | aggligator/src/agg/task.rs:357-417 | the new endpoint is in the initial state, which satisfies the local invariant |
| `EndpointTask.Endpoint.MarkTxedPacketsFlushed` | aggligator/src/agg/link_int.rs:754-766 | the backward scan that stops early marks every packet of the link |
| `EndpointTask.Endpoint.CleanTxedPackets` | aggligator/src/agg/link_int.rs:769-780 | drops exactly the stale references at the front of the link's list |
| `EndpointTask.Endpoint.StartFlush` | aggligator/src/agg/link_int.rs:604-613 | marks the packets of the link and polls it again |
| `EndpointTask.Endpoint.FlushLink` | aggligator/src/agg/task.rs:1957-1961 | also takes the link off the idle list; keeps the invariant |
| `EndpointTask.Endpoint.StartSendMsg` | aggligator/src/agg/link_int.rs:542-601 | packet statuses and link state after handing a message to the sink |
| `EndpointTask.Endpoint.SendReliableOverLink` | aggligator/src/agg/task.rs:1692-1728 | the new state, the number used, the invariant |
| `EndpointTask.Endpoint.ResendReliableOverLink` | aggligator/src/agg/task.rs:1731-1774 | the new state, the number used, the invariant; only over another link |
| `EndpointTask.Endpoint.RequeuePackets` | aggligator/src/agg/task.rs:1791-1805 | every packet out on the slot is queued once, no subtraction underflows, no bytes are left |
| `EndpointTask.Endpoint.RequeueLink` | aggligator/src/agg/task.rs:1777-1805 | after the flush, every packet out on the link is appended to the resend queue once, and the link keeps no unacknowledged bytes and half its limit |
| `EndpointTask.Endpoint.UnconfirmLink` | aggligator/src/agg/task.rs:1777-1817 | flush, re-queue and sort by 32-bit number give the queued packets oldest first; the invariant |
| `EndpointTask.Endpoint.RemoveLink` | aggligator/src/agg/task.rs:1261-1280 | the new state and the invariant |
| `EndpointTask.Endpoint.AddLink` | aggligator/src/agg/task.rs:1235-1258 | the link is in the first free slot; the invariant |
| `EndpointTask.Endpoint.RetainOthers` | aggligator/src/agg/task.rs:2190-2197 | removing by number removes exactly the one packet |
| `EndpointTask.Endpoint.MarkReceived` | aggligator/src/agg/task.rs:2160-2201 | the acknowledged packet is settled, and no counter underflows |
| `EndpointTask.Endpoint.SwipeFront` | aggligator/src/agg/task.rs:2203-2214 | exactly the received packets at the front are dropped, and their bytes |
| `EndpointTask.Endpoint.HandleAck` | aggligator/src/agg/task.rs:2143-2217 | the new state and the invariant |
| `EndpointTask.Endpoint.ForwardReceived` | aggligator/src/agg/task.rs:2118-2128 | the complete front of the buffer is handed on in order, each entry carrying the expected number |
| `EndpointTask.Endpoint.StoreReceived` | aggligator/src/agg/task.rs:2075-2110 | the error of flow control, or the stored message and its immediate effect |
| `EndpointTask.Endpoint.HandleReceivedReliableMsg` | aggligator/src/agg/task.rs:2053-2131 | the new state and the invariant, or the protocol error |
| `EndpointTask.Endpoint.SelectIdleLinks` | aggligator/src/agg/task.rs:600-625 | the last idle link that can take data, and the last that can take the oldest queued packet; both are ready |
| `Sorting.SortByNumber` | aggligator/src/agg/task.rs:1809 | the sorted queue is ordered by age and a permutation of the queue |
| `Sorting.InsertByNumber` | aggligator/src/agg/task.rs:1809 | inserting by windowed comparison keeps the order |
| `Sorting.NumbersOrderPackets` | aggligator/src/seq.rs:111-121 | among kept packets, comparing numbers compares age |
| `Sorting.SortedRequeueIsQueued` | aggligator/src/agg/task.rs:1791-1809 | re-queuing and sorting yields exactly the queued packets, each once, oldest first |
| `Sorting.AnySortIsRequeue` | aggligator/src/agg/task.rs:1791-1809 | whatever the algorithm, a sort of the old and the new entries by 32-bit number gives exactly the queued packets, oldest first |
| `EventLoop.OnTxReady` | aggligator/src/agg/task.rs:831-905 | the use made of a ready link, by priority; the invariant |
| `EventLoop.ReadyIsAction` | aggligator/src/agg/task.rs:831-905 | that use is an enabled action of the system with the same effect |
| `EventLoop.IdleMeansNothingDue` | aggligator/src/agg/task.rs:895-900 | a link becomes idle only when it could be used for nothing |
| `EventLoop.MostUrgentIsChosen` | aggligator/src/agg/task.rs:831-905 | of the uses that are possible the most urgent is made: acknowledgements, credit, resends, the three signals, data; if there is none, when the link is flushed, left alone or idle |
| `EventLoop.BlockedOnlyAcknowledges` | aggligator/src/agg/task.rs:835-905 | a blocked link only acknowledges, and is used again once it is unblocked |
| `EventLoop.NewlyIdleIsChosen` | aggligator/src/agg/task.rs:600-625 | of the idle links that can take a message, the one that became idle last is used first |
| `EventLoop.SendNewMessage` | aggligator/src/agg/task.rs:838-893 | the message sent for each reason and what is noted about it |
| `EventLoop.ConsumeReceived` | aggligator/src/agg/task.rs:1092-1112 | the message handed to the user, the new state and the invariant |
| `Numbering.CompareExactIff` | aggligator/src/seq.rs:111-121 | the comparison is right on all pairs within a window exactly when the window is at most one quarter |
| `Numbering.CompareWithinQuarter` | aggligator/src/seq.rs:111-121 | within a quarter the comparison of wrapped numbers is the comparison of the numbers |
| `Numbering.DiffExactIff` | aggligator/src/seq.rs:69-75 | the signed difference is exact exactly when it fits 32 bits |
| `Numbering.AdvanceReduce` | aggligator/src/seq.rs:50-67 | wrapping before or after adding gives the same number |
| `Numbering.CompareIsNotTransitive` | aggligator/src/seq.rs:111-121 | three numbers in a cycle |
| `WrappedRuns.ActNarrows` | aggligator/src/agg/task.rs:736-1200 | while numbers in use can be told apart, every action of an endpoint is enabled with 32-bit numbers exactly when it is with unbounded ones, and does the same |
| `WrappedRuns.RunNarrows` | aggligator/src/agg/task.rs:736-1200 | every run of two endpoints with 32-bit numbers, across any number of wrap-arounds, is the image of an unbounded run, up to the first state in which numbers in use cannot be told apart |
| `WrappedRuns.RunWidens` | aggligator/src/agg/task.rs:736-1200 | conversely, the image of an unbounded run whose numbers can be told apart is a run with 32-bit numbers |
| `WrappedRuns.WrappedDelivery` | aggligator/src/agg/task.rs:2053-2217 | end-to-end delivery in every state of every run with 32-bit numbers, unless numbers could not be told apart before |
| `WrappedRuns.GatedLossIsAge` | aggligator/src/agg/task.rs:1317-1319 | when all reliable messages wait for a free number, the only cause of this is a frame older than a quarter (an acknowledgement: half) of the number space |
| `WrappedRuns.GatedWrappedDelivery` | aggligator/src/agg/task.rs:2053-2217 | in such runs with 32-bit numbers, end-to-end delivery holds and no endpoint halts, up to the first frame of that age |
| `WrappedRuns.UnconfirmSorts` | aggligator/src/agg/task.rs:1777-1817 | in such runs, while numbers can be told apart at an endpoint, it satisfies what the methods in place ask for, and the queue left by unconfirming a link is what any sort by 32-bit number makes of it |
| `Ages.CleanOn` | aggligator/src/agg/task.rs:2064-2073 | while no more than a quarter of the number space is used since everything was settled, numbers can be told apart |
| `AgedCopy.AgedCopyHalts` | aggligator/src/agg/task.rs:2064-2073 | for every pair of configurations, a gated run with 32-bit numbers in which a copy of that age halts its receiver |
| `Wraparound.ReceiveNarrows` | aggligator/src/agg/task.rs:2064-2073 | duplicates, offsets and errors are the same with wrapped numbers |
| `Wraparound.AckNarrows` | aggligator/src/agg/task.rs:2161-2165 | an acknowledgement has the same effect with wrapped numbers |
| `Wraparound.SeqAvailNarrows` | aggligator/src/agg/task.rs:1317-1319 | the window gate decides the same with wrapped numbers |
| `Wraparound.UnconfirmNarrows` | aggligator/src/agg/task.rs:1777-1817 | unconfirming commutes with wrapping |
| `Wraparound.SendNarrows` | aggligator/src/agg/task.rs:1692-1728 | sending commutes with wrapping |
| `Wraparound.PlaceExactIff` | aggligator/src/agg/task.rs:2064-2073 | all numbers within a window find the same place in every state exactly when the window is at most one quarter |
| `Wraparound.PlaceFailsOutside` | aggligator/src/agg/task.rs:2064-2073 | one number beyond a quarter, a duplicate is refused as an underflow |
| `Policing.LinksOverLimit` | aggligator/src/agg/task.rs:1342-1385 | the links listed are exactly those above their own limit, unless no usable link is within its limit, or measured to be more than twice the spread above some measured usable link |
| `Policing.PingSpreadLimit` | aggligator/src/agg/task.rs:1322-1339 | the limit is the spread times the shortest round trip of the measured usable links |
| `Policing.AllLinksSlow` | aggligator/src/agg/task.rs:1353-1355 | whether no usable link is known to be within its limit |
| `Policing.CheckLinkLimits` | aggligator/src/agg/task.rs:1342-1390 | exactly these links are unconfirmed, and the invariant is kept |
| `Policing.UnusableJudgesNothing` | aggligator/src/agg/task.rs:1322-1355 | the round trips of a blocked or unconfirmed link do not count for any other link |
| `Policing.FewEstimatesDoNotCount` | aggligator/src/agg/task.rs:1322-1385 | a link with fewer than ten estimates is not judged by the spread, nor is any other link judged by it |
| `Policing.SomeLinkIsSpared` | aggligator/src/agg/task.rs:1342-1385 | with compatible limits, whenever a link is listed some usable link is not |
| `Policing.SparesIffCompatible` | aggligator/src/agg/task.rs:1342-1390 | a confirmed, unblocked link remains at the endpoint after any policing that takes a link, whatever the round trips and estimates, if and only if the limits are compatible |
| `Policing.SharedLimitSpares` | aggligator/src/agg/task.rs:1342-1390 | with one shared configuration at least one confirmed, unblocked link remains |
| `Policing.DifferentLimitsTakeAll` | aggligator/src/agg/task.rs:1342-1385 | limits of 100 and 5 and a spread of 5 are not compatible: both links can be taken |
| `StaleIdle.PopFailsIff` | aggligator/src/agg/task.rs:996-1006 | the idle link that is popped to return credit is missing exactly when credit is due and all links noted as idle were listed by the policing |
| `StaleIdle.IdleSampleCanBeStale` | aggligator/src/agg/task.rs:445-507 | for every pair of configurations, a reachable state in which this happens while another link stays usable |
| `Messages.ReadsExactlySpellings` | aggligator/src/msg.rs:287-377 | reading accepts exactly the spellings of a message: the written form, up to any non-zero flag byte and any test bytes |
| `Messages.WrittenIsRead` | aggligator/src/msg.rs:185-377 | every message that can be written is read back, whatever follows it |
| `Messages.EncodingIsInjective` | aggligator/src/msg.rs:185-285 | different messages have different encodings |
| `Messages.Write` | aggligator/src/msg.rs:185-285 | writes the encoding, or fails exactly when the user data is longer than 65535 bytes |
| `Messages.WriteTestData` | aggligator/src/msg.rs:267-272 | the loop writes the wrapped indices |
| `Framing.ReceivedIsPrefix` | aggligator/src/agg/link_int.rs:425-518 | over any schedule and for any prefix of the packets, the peer reads a prefix of the messages with their payloads and no error |
| `Framing.ReceivedIsSent` | aggligator/src/agg/link_int.rs:425-518 | with all packets arrived, exactly the messages sent are read, but for one whose payload still waits |
| `Framing.ReliableArrives` | aggligator/src/msg.rs:441-461 | a reliable message arrives with its number and contents |
| `Framing.ReceivedOverByteStream` | aggligator/src/io/codec.rs:107-196 | the same through the integrity codec, in every state of a schedule, for any part of the bytes that has arrived and any splitting of it |
| `Framing.ApplyFrames` | aggligator/src/agg/link_int.rs:542-673 | every operation keeps each data header next to its own payload, with nothing in between |
| `Framing.ReadyMeansComplete` | aggligator/src/agg/link_int.rs:425-473 | a sink is reported ready or flushed only after the payload was handed to it |
| `Framing.EventsAreTrue` | aggligator/src/agg/link_int.rs:425-473 | a link is reported ready only when it was not flushing, flushed only when it was, and then it is still polled; an error is reported exactly when the sink has failed |
| `Framing.EveryOperationIsReported` | aggligator/src/agg/link_int.rs:542-673 | after every operation a sink that takes everything gets what waits, and the flush is reported done or the link ready |
| `Framing.FlushIsReported` | aggligator/src/agg/link_int.rs:425-473 | over any schedule, once a flush was begun the link is not reported ready before the flush was reported done |
| `Framing.UnflushedIsLimited` | aggligator/src/agg/link_int.rs:595-613 | over any schedule with a limit, fewer bytes than that are handed over without a flush being begun |
| `Framing.PacketsAreCounted` | aggligator/src/agg/link_int.rs:556-575 | the bytes counted as unflushed are those of the packets of the message, saturating |
| `Framing.SameFlushes` | aggligator/src/agg/link_int.rs:586-593 | the protocol model and the link agree on which reliable messages are flushed at once |
| `Framing.UrgentIsFlushed` | aggligator/src/agg/link_int.rs:577-594 | a message begins a flush exactly when it is not one that may wait: data and what answers it, tests, notices, handshake |
| `Framing.FailsIff` | aggligator/src/agg/link_int.rs:561-569 | a link counts as failed exactly from the first error of its sink on, and no message is sent any more |
| `Framing.TestsAreSent` | aggligator/src/agg/link_int.rs:637-673 | test messages are no longer than asked for and their bytes are those reported |
| `Framing.TestsComplete` | aggligator/src/agg/link_int.rs:651-670 | a test is cut short only when the sink fails, is not ready, or is not asked often enough |
| `Framing.ParseFlatten` | aggligator/src/agg/link_int.rs:476-518 | a payload is never taken for a message, whatever its bytes |
| `Framing.LinkSender.BeginSend` | aggligator/src/agg/link_int.rs:542-601 | the new state of the link and the framing |
| `Framing.LinkSender.SendTestData` | aggligator/src/agg/link_int.rs:637-673 | the test messages sent, and their bytes within the limit |
| `Framing.LinkSender.TransmitTask` | aggligator/src/agg/link_int.rs:425-473 | the rounds up to the first event, and the framing |
| `Framing.LinkReceiver.ReceiveTask` | aggligator/src/agg/link_int.rs:476-518 | the event is what parsing the packets taken yields |
| `Codec.RoundTrip` | aggligator/src/io/codec.rs:107-196 | any list of packets within the limit, of any length, encoded and split in any way, is recovered exactly |
| `Codec.PrefixDecodes` | aggligator/src/io/codec.rs:107-196 | any part of the encoding that has arrived decodes to a prefix of the packets, without an error |
| `Codec.ChunkingIsInvisible` | aggligator/src/io/codec.rs:149-173 | items, error and decoder state do not depend on how the bytes arrive |
| `Codec.DecodesExactlyEncodings` | aggligator/src/io/codec.rs:107-196 | a stream decodes completely to given packets exactly when it is their encoding |
| `Codec.DecodedIsEncoded` | aggligator/src/io/codec.rs:107-142 | whatever decodes without error is an encoding followed by an unfinished frame |
| `Codec.FaultsAreTold` | aggligator/src/io/codec.rs:107-142 | which error a frame with a wrong length, number or checksum gives, and that one without these faults is taken |
| `Codec.IntegrityCodec.DecodeHeader` | aggligator/src/io/codec.rs:107-127 | what is consumed, and the error, for every header |
| `Codec.IntegrityCodec.DecodeOne` | aggligator/src/io/codec.rs:149-173 | one call of the decoder: state, bytes left and outcome |
| `Codec.IntegrityCodec.Encode` | aggligator/src/io/codec.rs:179-196 | the frame appended and the next number, or the error |
| `ByteStream.BytesEndToEnd` | aggligator/src/alc/receiver.rs:166-179 | in every run, for any reads between its steps, the bytes read are a prefix of the bytes accepted; the end is seen only after all of them, unless an empty packet that can be sent stands before one that is not empty |
| `EarlyEnd.EmptyLooksLikeEnd` | aggligator/src/alc/receiver.rs:166-179 | for every connection and all acceptable data with such a packet, a run and reads that see the end while bytes are missing |
| `EarlyEnd.EndIsTrueIff` | aggligator/src/alc/receiver.rs:166-179 | for every connection and all data: whoever sees the end has read everything, if and only if there is no such packet or the data is not accepted |
| `ByteStream.PollWrite` | aggligator/src/alc/sender.rs:279-290 | a write fails exactly when its packet is above the limit; else the packet is the front of the buffer and not empty unless the buffer is |
| `ByteStream.WriteAllExact` | aggligator/src/alc/sender.rs:279-290 | writing all of a buffer fails exactly when its first packet would be too big, else the packets are its bytes in order |
| `ByteStream.WritesNeverFailIff` | aggligator/src/alc/sender.rs:217-229 | no write fails, whatever its length, exactly when the smaller of `io_write_size` and the receive buffer is within the largest size accepted |
| `ByteStream.ReadsKeep` | aggligator/src/alc/receiver.rs:166-179 | reads made while a run goes on lose, repeat and reorder nothing; what looks like the end is the end or an empty packet |
| `ByteStream.ReceiverStream.Read` | aggligator/src/alc/receiver.rs:166-179 | the bytes returned and what is left |
| `ByteStream.ReceiverStream.Next` | aggligator/src/alc/receiver.rs:153-161 | the rest of a packet, or the next packet |

## Left out

- Clocks, deadlines, round-trip averaging and statistics: every timeout is a step that may happen at any time; round trips appear as plain numbers in `Policing.dfy` only, without the overflow of a `Duration`.
- Tokio channels, `select!`, wakers and cancellation: an event handler is one step, a channel a queue; the lookahead receiver of `peekable_mpsc.rs` is the head of that queue.
- The order in which the event loop prefers its branches, except for a ready link (`EventLoop.dfy`): the system allows any order.
- OnTxReady: leaves out Accepted, Pong, Goodbye, Ping and SetBlock, which the program sends first over a ready link; they are not reliable messages, and a link that sends one is a link that is not ready yet.
- StartSendMsg: leaves out the early returns for a sink that has failed; `Framing.dfy` models them.
- Accepted, Ping, Pong, SetBlock, Goodbye and Terminate messages in the protocol model: they do not touch reliable messages; what they do to a link (being polled, confirmed, blocked, removed) is allowed at any time, and their encoding and framing are modelled.
- The exit of an endpoint as a step: the condition for it is modelled, and a protocol error ends an endpoint together with its links.
- A send over a link whose sink has already failed, in the protocol model: the link is dead there and what it carries is lost; `Framing.dfy` models the failed sink.
- Shared packet objects as references: packets are values, and a reference is the identity of a packet.
- `adjust_link_tx_limits` and `link_testing_step`: a link's limit of unacknowledged bytes is any number, and a test may succeed at any time.
- `unflushed_links`, the flush requests of the user and the moments at which acknowledgements get flushed: they delay packets but do not change them.
- The key exchange, the encryption of connection ids and the handshakes: links start as accepted links.
- CRC-32: an arbitrary function of the packet.
- Transports, the TLS wrapper, the monitor, the speed test and the command-line tools.
- UnconfirmLink: requires at most a quarter of the number space of kept packets, because the sort of the resend queue needs comparisons of numbers that form a total order (`CompareIsNotTransitive`).
- RemoveLink: the same, because it unconfirms the link.
- CheckLinkLimits: the same, because it unconfirms links.
- RetainOthers: requires at most 2^32 kept packets, so that no two of them carry the same number.
- MarkReceived: the same.
- HandleAck: the same.
- WrappedStayConsistent: the re-queuing step takes the queued packets oldest first also when more than a quarter of the number space is kept, where a sort by number has no determined result.
- WrappedDelivery: that numbers can be told apart is not a property of the wire but of how long a link may hold a frame back; `GatedLossIsAge` shows that age is then the only cause when all reliable messages wait for a free number.
- Eventual delivery: that a message does arrive depends on links that keep working and on fair scheduling; stated instead is that delivery stays possible from every state (`DeliveryPossibleIff`) and that nothing is stranded or forgotten.
