/** A link as its endpoint drives it: messages, some followed by a payload, as packets on one packet sink. */
module Framing {
  import opened Protocol
  import opened BigEndian
  import opened Messages
  import Codec

  /** A message with the payload that follows it. */
  datatype Item = Item(msg: LinkMsg, data: Option<Bytes>)

  /** What the callers pass: a data message has a payload and no other message has one. */
  predicate WellFormed(i: Item) {
    Writable(i.msg) && (i.data.Some? <==> i.msg.Data?)
  }

  function Payload(data: Option<Bytes>): seq<Bytes> {
    if data.Some? then [data.value] else []
  }

  function PacketsOf(i: Item): seq<Bytes> {
    [Encoding(i.msg)] + Payload(i.data)
  }

  function Flatten(items: seq<Item>): seq<Bytes> {
    if items == [] then [] else Flatten(items[..|items| - 1]) + PacketsOf(items[|items| - 1])
  }

  // ----------------------------------------------------------------------- the sending side

  /** `wire` holds every packet handed to the sink and `sent` every message whose first packet was. */
  datatype Out = Out(
    polling: bool,
    data: Option<Bytes>,
    flushing: bool,
    failed: bool,
    unflushed: nat,
    wire: seq<Bytes>,
    sent: seq<Item>)

  const IDLE := Out(false, None, false, false, 0, [], [])

  const USIZE_MAX: nat := 0xFFFF_FFFF_FFFF_FFFF

  predicate FlushesWhenSent(m: LinkMsg) {
    m.Accepted? || m.Ping? || m.Pong? || m.SendFinish? || m.ReceiveClose? || m.ReceiveFinish? || m.Goodbye?
  }

  function StartFlush(o: Out): Out {
    o.(unflushed := 0, flushing := true, polling := true)
  }

  function Unflushed(o: Out, i: Item): nat {
    var total := o.unflushed + |Encoding(i.msg)| + (if i.data.Some? then |i.data.value| else 0);
    if total > USIZE_MAX then USIZE_MAX else total
  }

  /** Starts sending a message; `accepted` is what the sink answers and `limit` the number of bytes that may stay
      unflushed. */
  function StartSend(o: Out, i: Item, accepted: bool, limit: Option<nat>): Out {
    if o.failed then o
    else if !accepted then o.(polling := true, failed := true)
    else
      var o1 := o.(polling := true, data := i.data, unflushed := Unflushed(o, i),
                   wire := o.wire + [Encoding(i.msg)], sent := o.sent + [i]);
      var o2 := if FlushesWhenSent(i.msg) then StartFlush(o1) else o1;
      if limit.Some? && o2.unflushed >= limit.value then StartFlush(o2) else o2
  }

  /** Sends a message and flushes it, waiting for the sink. */
  function SendAndFlush(o: Out, m: LinkMsg, accepted: bool, flushed: bool): Out {
    if o.failed then o
    else if !accepted then o.(polling := true, failed := true)
    else o.(polling := true, failed := !flushed, wire := o.wire + [Encoding(m)], sent := o.sent + [Item(m, None)])
  }

  /** The sink's answer when asked whether it is ready, and to the packet it then gets. */
  datatype SinkPoll = Pending | Broken | Ready(accepted: bool)

  function TestSize(packetSize: nat, dataLimit: nat, sent: nat): nat
    requires sent <= dataLimit
  {
    Min(packetSize, dataLimit - sent)
  }

  /** Test messages until `dataLimit` bytes are sent or the sink stops taking packets. */
  function TestLoop(o: Out, packetSize: nat, dataLimit: nat, sent: nat, polls: seq<SinkPoll>): (Out, nat)
    requires sent <= dataLimit
    decreases |polls|
  {
    if sent == dataLimit || polls == [] || polls[0].Pending? then (o, sent)
    else if polls[0].Broken? || !polls[0].accepted then (o.(failed := true), sent)
    else
      var m := TestData(TestSize(packetSize, dataLimit, sent));
      TestLoop(o.(wire := o.wire + [Encoding(m)], sent := o.sent + [Item(m, None)]), packetSize, dataLimit,
               sent + m.size, polls[1..])
  }

  function SendTest(o: Out, packetSize: nat, dataLimit: nat, polls: seq<SinkPoll>): (Out, nat) {
    var o1 := o.(polling := true);
    if o.failed then (o1, 0) else TestLoop(o1, packetSize, dataLimit, 0, polls)
  }

  datatype TxEvent = TxReady | TxFlushed | TxError

  /** One round of the transmit task: `ready` is the outcome of the flush or of asking the sink, `accepted` the answer
      to the payload.  Without an event the task goes on. */
  function Transmit(o: Out, ready: bool, accepted: bool): (Out, Option<TxEvent>) {
    if o.flushing && o.data.None? then
      if ready then (o.(flushing := false), Some(TxFlushed)) else (o.(failed := true), Some(TxError))
    else if !ready then (o.(failed := true), Some(TxError))
    else if o.data.None? then (o.(polling := false), Some(TxReady))
    else if accepted then (o.(data := None, wire := o.wire + [o.data.value]), None)
    else (o.(data := None, failed := true), Some(TxError))
  }

  /** The rounds of the transmit task up to its first event. */
  function TransmitRun(o: Out, answers: seq<(bool, bool)>): (Out, Option<TxEvent>)
    decreases |answers|
  {
    if !o.polling || answers == [] then (o, None)
    else
      var (o', event) := Transmit(o, answers[0].0, answers[0].1);
      if event.Some? then (o', event) else TransmitRun(o', answers[1..])
  }

  datatype Op =
    | OpSend(item: Item, accepted: bool, limit: Option<nat>)
    | OpSendAndFlush(msg: LinkMsg, accepted: bool, flushed: bool)
    | OpFlush
    | OpReportReady
    | OpTest(packetSize: nat, dataLimit: nat, polls: seq<SinkPoll>)
    | OpTransmit(ready: bool, accepted: bool)

  /** When the callers do it: messages are sent only while the sink is not being polled; flushes and readiness reports
      may come at any time. */
  predicate CanApply(o: Out, op: Op) {
    match op
    case OpSend(item, _, _) => !o.polling && WellFormed(item)
    case OpSendAndFlush(msg, _, _) => (!o.polling || o.failed) && WellFormed(Item(msg, None))
    case OpTest(_, _, _) => !o.polling
    case OpTransmit(_, _) => o.polling
    case _ => true
  }

  function Apply(o: Out, op: Op): Out {
    match op
    case OpSend(item, accepted, limit) => StartSend(o, item, accepted, limit)
    case OpSendAndFlush(msg, accepted, flushed) => SendAndFlush(o, msg, accepted, flushed)
    case OpFlush => StartFlush(o)
    case OpReportReady => o.(polling := true)
    case OpTest(packetSize, dataLimit, polls) => SendTest(o, packetSize, dataLimit, polls).0
    case OpTransmit(ready, accepted) => Transmit(o, ready, accepted).0
  }

  ghost predicate IsSchedule(states: seq<Out>, ops: seq<Op>) {
    && |states| == |ops| + 1 && states[0] == IDLE
    && forall i | 0 <= i < |ops| :: CanApply(states[i], ops[i]) && states[i + 1] == Apply(states[i], ops[i])
  }

  // ------------------------------------------------------------------- what is on the wire

  /** Nothing is missing on the wire but a payload that waits for the sink, or one that the sink refused. */
  ghost predicate OnWire(o: Out) {
    || Flatten(o.sent) == o.wire + Payload(o.data)
    || (o.failed && o.data.None? && exists x :: Flatten(o.sent) == o.wire + [x])
  }

  ghost predicate Framed(o: Out) {
    && OnWire(o)
    && (forall i | 0 <= i < |o.sent| :: WellFormed(o.sent[i]))
    && (o.data.Some? ==> o.polling && o.sent != [] && o.sent[|o.sent| - 1].data == o.data)
  }

  lemma FlattenSnoc(items: seq<Item>, i: Item)
    ensures Flatten(items + [i]) == Flatten(items) + PacketsOf(i)
  {
    assert (items + [i])[..|items + [i]| - 1] == items;
  }

  lemma SendFrames(o: Out, i: Item, o': Out)
    requires Framed(o) && !o.failed && o.data.None? && WellFormed(i)
    requires o'.wire == o.wire + [Encoding(i.msg)] && o'.sent == o.sent + [i] && o'.data == i.data
    requires i.data.Some? ==> o'.polling
    ensures Framed(o')
  {
    hide Encoding;
    FlattenSnoc(o.sent, i);
    assert o.wire + Payload(o.data) == o.wire;
    assert o.wire + PacketsOf(i) == o'.wire + Payload(i.data);
  }

  lemma {:induction false} TestFrames(o: Out, packetSize: nat, dataLimit: nat, sent: nat, polls: seq<SinkPoll>)
    requires Framed(o) && !o.failed && o.data.None? && sent <= dataLimit
    ensures Framed(TestLoop(o, packetSize, dataLimit, sent, polls).0)
    ensures sent <= TestLoop(o, packetSize, dataLimit, sent, polls).1 <= dataLimit
    decreases |polls|
  {
    hide Framed;
    if sent < dataLimit && polls != [] && polls[0].Ready? && polls[0].accepted {
      var m := TestData(TestSize(packetSize, dataLimit, sent));
      var o' := o.(wire := o.wire + [Encoding(m)], sent := o.sent + [Item(m, None)]);
      SendFrames(o, Item(m, None), o');
      TestFrames(o', packetSize, dataLimit, sent + m.size, polls[1..]);
    } else {
      TouchFrames(o, o.(failed := true));
    }
  }

  lemma TouchFrames(o: Out, o': Out)
    requires Framed(o) && o'.wire == o.wire && o'.sent == o.sent && o'.data == o.data
    requires (o.polling ==> o'.polling) || o.data.None?
    requires o.failed ==> o'.failed
    ensures Framed(o')
  {
  }

  lemma TransmitFrames(o: Out, ready: bool, accepted: bool)
    requires Framed(o) && o.polling
    ensures Framed(Transmit(o, ready, accepted).0)
  {
    hide Flatten;
    var o' := Transmit(o, ready, accepted).0;
    if o'.data == o.data {
      TouchFrames(o, o');
    } else if accepted {
      assert o'.wire + Payload(o'.data) == o.wire + Payload(o.data);
    }
  }

  /** The sink is reported as ready or flushed only after the payload was handed to it: every packet of every message
      is then on the wire, unless the link has failed. */
  lemma {:induction false} ReadyMeansComplete(o: Out, answers: seq<(bool, bool)>)
    requires Framed(o)
    ensures var (o', event) := TransmitRun(o, answers);
            && Framed(o') && o'.sent == o.sent
            && (event == Some(TxReady) || event == Some(TxFlushed) ==>
                  o'.data.None? && (o'.failed || o'.wire == Flatten(o.sent)))
    decreases |answers|
  {
    if o.polling && answers != [] {
      TransmitFrames(o, answers[0].0, answers[0].1);
      var (o', event) := Transmit(o, answers[0].0, answers[0].1);
      assert o'.wire + Payload(None) == o'.wire;
      if event.None? {
        ReadyMeansComplete(o', answers[1..]);
      }
    }
  }

  /** What the events of the transmit task mean: the sink is reported ready only when it was asked and no flush was under
      way; a completed flush is reported as such, and the link goes on being polled; an error means that the sink has
      failed, and only then. */
  lemma {:induction false} EventsAreTrue(o: Out, answers: seq<(bool, bool)>)
    requires !o.failed
    ensures var (o', event) := TransmitRun(o, answers);
            && (event == Some(TxReady) ==> !o.flushing && !o'.flushing && !o'.polling)
            && (event == Some(TxFlushed) ==> o.flushing && !o'.flushing && o'.polling)
            && (event == Some(TxError) <==> o'.failed)
            && (event.None? ==> o'.polling == o.polling && o'.flushing == o.flushing)
    decreases |answers|
  {
    if o.polling && answers != [] {
      var (o', event) := Transmit(o, answers[0].0, answers[0].1);
      if event.None? {
        EventsAreTrue(o', answers[1..]);
      }
    }
  }

  /** No operation is left without an event: whatever was asked of the link, a sink that takes everything lets the transmit
      task hand over what waits and report that the flush is done or that the link is ready. */
  lemma EveryOperationIsReported(o: Out, op: Op)
    requires CanApply(o, op) && !op.OpTransmit? && !Apply(o, op).failed
    ensures var o' := Apply(o, op);
            var (done, event) := TransmitRun(o', [(true, true), (true, true)]);
            && event == Some(if o'.flushing then TxFlushed else TxReady)
            && done.wire == o'.wire + Payload(o'.data) && done.data.None? && !done.failed
  {
    hide Encoding;
    var o', all := Apply(o, op), [(true, true), (true, true)];
    if op.OpTest? {
      TestLeavesPolling(o.(polling := true), op.packetSize, op.dataLimit, 0, op.polls);
    }
    assert o'.polling;
    assert all[1..] == [(true, true)];
    var next := Transmit(o', true, true).0;
    assert TransmitRun(next, [(true, true)])
        == if next.polling && Transmit(next, true, true).1.Some? then Transmit(next, true, true) else TransmitRun(next, [(true, true)]);
    assert o'.wire + Payload(None) == o'.wire;
  }

  lemma {:induction false} TestLeavesPolling(o: Out, packetSize: nat, dataLimit: nat, sent: nat, polls: seq<SinkPoll>)
    requires sent <= dataLimit
    ensures var o' := TestLoop(o, packetSize, dataLimit, sent, polls).0; o'.polling == o.polling && o'.data == o.data
    decreases |polls|
  {
    hide Encoding;
    if sent < dataLimit && polls != [] && polls[0].Ready? && polls[0].accepted {
      var m := TestData(TestSize(packetSize, dataLimit, sent));
      TestLeavesPolling(o.(wire := o.wire + [Encoding(m)], sent := o.sent + [Item(m, None)]), packetSize, dataLimit,
                        sent + m.size, polls[1..]);
    }
  }

  /** The event that an operation reports. */
  function EventOf(o: Out, op: Op): Option<TxEvent> {
    if op.OpTransmit? then Transmit(o, op.ready, op.accepted).1 else None
  }

  lemma FlushLasts(o: Out, op: Op)
    requires CanApply(o, op) && o.flushing && EventOf(o, op) != Some(TxFlushed)
    ensures Apply(o, op).flushing && EventOf(o, op) != Some(TxReady)
  {
    hide Encoding;
    if op.OpTest? {
      TestLeavesFlush(o.(polling := true), op.packetSize, op.dataLimit, 0, op.polls);
    }
  }

  lemma {:induction false} TestLeavesFlush(o: Out, packetSize: nat, dataLimit: nat, sent: nat, polls: seq<SinkPoll>)
    requires sent <= dataLimit
    ensures var o' := TestLoop(o, packetSize, dataLimit, sent, polls).0; o'.flushing == o.flushing && o'.unflushed == o.unflushed
    decreases |polls|
  {
    hide Encoding;
    if sent < dataLimit && polls != [] && polls[0].Ready? && polls[0].accepted {
      var m := TestData(TestSize(packetSize, dataLimit, sent));
      TestLeavesFlush(o.(wire := o.wire + [Encoding(m)], sent := o.sent + [Item(m, None)]), packetSize, dataLimit,
                      sent + m.size, polls[1..]);
    }
  }

  /** Over any schedule, once a flush was begun the link is not reported ready before the flush was reported done. */
  lemma {:induction false} FlushIsReported(states: seq<Out>, ops: seq<Op>, i: nat, j: nat)
    requires IsSchedule(states, ops) && i <= j < |ops| && states[i].flushing && EventOf(states[j], ops[j]) == Some(TxReady)
    ensures exists k | i <= k < j :: EventOf(states[k], ops[k]) == Some(TxFlushed)
    decreases j - i
  {
    hide Apply, EventOf, CanApply;
    assert CanApply(states[i], ops[i]) && states[i + 1] == Apply(states[i], ops[i]);
    if EventOf(states[i], ops[i]) != Some(TxFlushed) {
      FlushLasts(states[i], ops[i]);
      FlushIsReported(states, ops, i + 1, j);
    }
  }

  /** Whether the sink answers an operation with an error. */
  predicate SinkFails(o: Out, op: Op) {
    match op
    case OpSend(_, accepted, _) => !accepted
    case OpSendAndFlush(_, accepted, flushed) => !accepted || !flushed
    case OpTransmit(ready, accepted) => !ready || (o.data.Some? && !accepted)
    case OpTest(_, _, polls) => exists k | 0 <= k < |polls| :: polls[k].Broken? || polls[k] == Ready(false)
    case _ => false
  }

  /** A sink counts as failed when it has answered with an error, and only then, for good; no message is handed to it any
      more. */
  lemma FailsIff(o: Out, op: Op)
    requires CanApply(o, op)
    ensures !o.failed && !op.OpTest? ==> (Apply(o, op).failed <==> SinkFails(o, op))
    ensures !o.failed && op.OpTest? && Apply(o, op).failed ==> SinkFails(o, op)
    ensures o.failed ==> Apply(o, op).failed && Apply(o, op).sent == o.sent
  {
    hide Encoding;
    if op.OpTest? {
      TestsComplete(o.(polling := true), op.packetSize, op.dataLimit, 0, op.polls);
    }
  }

  /** The bytes of test messages. */
  function TestTotal(items: seq<Item>): nat {
    if items == [] then 0 else (if items[0].msg.TestData? then items[0].msg.size else 0) + TestTotal(items[1..])
  }

  /** What is sent for a test: test messages no longer than asked for, whose bytes are those reported. */
  lemma {:induction false} TestsAreSent(o: Out, packetSize: nat, dataLimit: nat, sent: nat, polls: seq<SinkPoll>)
    requires sent <= dataLimit
    ensures var (o', count) := TestLoop(o, packetSize, dataLimit, sent, polls);
            && o.sent <= o'.sent && count == sent + TestTotal(o'.sent[|o.sent|..])
            && (forall j | |o.sent| <= j < |o'.sent| :: o'.sent[j].msg.TestData? && o'.sent[j].msg.size <= packetSize)
    decreases |polls|
  {
    hide Encoding;
    var (o', count) := TestLoop(o, packetSize, dataLimit, sent, polls);
    if sent < dataLimit && polls != [] && polls[0].Ready? && polls[0].accepted {
      var m := TestData(TestSize(packetSize, dataLimit, sent));
      var o1 := o.(wire := o.wire + [Encoding(m)], sent := o.sent + [Item(m, None)]);
      TestsAreSent(o1, packetSize, dataLimit, sent + m.size, polls[1..]);
      assert o'.sent[|o.sent|] == o1.sent[|o.sent|] == Item(m, None);
      assert o'.sent[|o.sent|..] == [Item(m, None)] + o'.sent[|o1.sent|..];
    } else {
      assert o'.sent[|o.sent|..] == [];
    }
  }

  /** A test is cut short only when the sink fails, is not ready, or is not asked often enough. */
  lemma {:induction false} TestsComplete(o: Out, packetSize: nat, dataLimit: nat, sent: nat, polls: seq<SinkPoll>)
    requires sent <= dataLimit
    ensures var (o', count) := TestLoop(o, packetSize, dataLimit, sent, polls);
            && (o'.failed ==> o.failed || exists k | 0 <= k < |polls| :: polls[k].Broken? || polls[k] == Ready(false))
            && (!o'.failed && packetSize > 0 && dataLimit - sent <= |polls| ==>
                  count == dataLimit || exists k | 0 <= k < |polls| :: polls[k].Pending?)
    decreases |polls|
  {
    hide Encoding;
    if sent < dataLimit && polls != [] && polls[0].Ready? && polls[0].accepted {
      var m := TestData(TestSize(packetSize, dataLimit, sent));
      var o1 := o.(wire := o.wire + [Encoding(m)], sent := o.sent + [Item(m, None)]);
      TestsComplete(o1, packetSize, dataLimit, sent + m.size, polls[1..]);
      assert forall k | 0 <= k < |polls[1..]| :: polls[1..][k] == polls[k + 1];
    }
  }

  function Length(packets: seq<Bytes>): nat {
    if packets == [] then 0 else |packets[0]| + Length(packets[1..])
  }

  /** The bytes counted as unflushed are those of the packets of the message. */
  lemma PacketsAreCounted(o: Out, i: Item)
    ensures Unflushed(o, i) == Min(o.unflushed + Length(PacketsOf(i)), USIZE_MAX)
  {
    hide Encoding;
    assert PacketsOf(i)[1..] == Payload(i.data);
    assert Length([]) == 0;
    assert Length(Payload(i.data)) == if i.data.Some? then |i.data.value| else 0;
  }

  /** All messages are sent with one limit of unflushed bytes. */
  ghost predicate Limited(ops: seq<Op>, limit: nat) {
    forall i | 0 <= i < |ops| && ops[i].OpSend? :: ops[i].limit == Some(limit)
  }

  /** Over any schedule with a limit, fewer bytes than that are handed to the sink without a flush being begun. */
  lemma {:induction false} UnflushedIsLimited(states: seq<Out>, ops: seq<Op>, i: nat, limit: nat)
    requires IsSchedule(states, ops) && i < |states| && Limited(ops, limit) && limit > 0
    ensures states[i].unflushed < limit
  {
    if i > 0 {
      var o, op := states[i - 1], ops[i - 1];
      UnflushedIsLimited(states, ops, i - 1, limit);
      assert states[i - 1 + 1] == Apply(o, op);
      hide Encoding, Unflushed;
      if op.OpTest? {
        TestLeavesFlush(o.(polling := true), op.packetSize, op.dataLimit, 0, op.polls);
      }
    }
  }

  /** Messages that need not reach the peer at once: data and what answers it, tests, notices and the handshake. */
  predicate MayWait(m: LinkMsg) {
    || m.Data? || m.Ack? || m.Consumed? || m.TestData? || m.SetBlock? || m.Terminate?
    || m.Welcome? || m.Connect? || m.Refused?
  }

  /** Unless a limit is reached, a message that was handed over begins a flush exactly when it may not wait. */
  lemma UrgentIsFlushed(o: Out, i: Item)
    requires !o.failed
    ensures StartSend(o, i, true, None).flushing <==> o.flushing || !MayWait(i.msg)
    ensures !MayWait(i.msg) ==> StartSend(o, i, true, None).unflushed == 0
  {
    hide Encoding;
  }

  /** The protocol and the link agree on which reliable messages are flushed at once. */
  lemma SameFlushes(m: ReliableMsg, num: U32)
    requires CountFits(m)
    ensures FlushesAlways(m) <==> FlushesWhenSent(ToLinkMsg(m, num).0)
  {
  }

  /** Every operation keeps the framing. */
  lemma ApplyFrames(o: Out, op: Op)
    requires CanApply(o, op) && Framed(o)
    ensures Framed(Apply(o, op))
  {
    hide OnWire, Encoding;
    var o' := Apply(o, op);
    match op
    case OpSend(item, accepted, limit) =>
      if o.failed || !accepted {
        TouchFrames(o, o');
      } else {
        SendFrames(o, item, o');
      }
    case OpSendAndFlush(msg, accepted, flushed) =>
      if o.failed || !accepted {
        TouchFrames(o, o');
      } else {
        SendFrames(o, Item(msg, None), o');
      }
    case OpTest(packetSize, dataLimit, polls) =>
      TouchFrames(o, o.(polling := true));
      if !o.failed {
        TestFrames(o.(polling := true), packetSize, dataLimit, 0, polls);
      }
    case OpTransmit(ready, accepted) => TransmitFrames(o, ready, accepted);
    case _ => TouchFrames(o, o');
  }

  lemma {:induction false} ScheduleFrames(states: seq<Out>, ops: seq<Op>, i: nat)
    requires IsSchedule(states, ops) && i < |states|
    ensures Framed(states[i])
  {
    if i > 0 {
      ScheduleFrames(states, ops, i - 1);
      ApplyFrames(states[i - 1], ops[i - 1]);
    } else {
      assert Flatten([]) == [] + Payload(None);
    }
  }

  // --------------------------------------------------------------------- the receiving side

  /** `pending` is a data message whose payload has not arrived. */
  datatype In = In(pending: Option<LinkMsg>, items: seq<Item>, error: Option<ReadError>)

  function TakePacket(r: In, packet: Bytes): In {
    if r.error.Some? then r
    else if r.pending.Some? then In(None, r.items + [Item(r.pending.value, Some(packet))], None)
    else
      match Read(packet)
      case Bad(e) => r.(error := Some(e))
      case Value(m, _) => if m.Data? then r.(pending := Some(m)) else r.(items := r.items + [Item(m, None)])
  }

  function Parse(r: In, packets: seq<Bytes>): In {
    if packets == [] then r else TakePacket(Parse(r, packets[..|packets| - 1]), packets[|packets| - 1])
  }

  const FRESH := In(None, [], None)

  lemma ParseSnoc(r: In, packets: seq<Bytes>, packet: Bytes)
    ensures Parse(r, packets + [packet]) == TakePacket(Parse(r, packets), packet)
  {
    assert (packets + [packet])[..|packets + [packet]| - 1] == packets;
  }

  /** Whatever bytes a payload has, it is not taken for a message. */
  lemma {:induction false} ParseFlatten(items: seq<Item>)
    requires forall i | 0 <= i < |items| :: WellFormed(items[i])
    ensures Parse(FRESH, Flatten(items)) == In(None, items, None)
  {
    hide TakePacket, PacketsOf, WellFormed;
    if items != [] {
      var before, last := items[..|items| - 1], items[|items| - 1];
      ParseFlatten(before);
      assert items == before + [last];
      ParseItem(before, last);
    }
  }

  lemma ParseItem(before: seq<Item>, last: Item)
    requires WellFormed(last) && Parse(FRESH, Flatten(before)) == In(None, before, None)
    ensures Parse(FRESH, Flatten(before) + PacketsOf(last)) == In(None, before + [last], None)
  {
    ParseHeader(before, last);
    hide Parse, Encoding, Flatten;
    if last.data.Some? {
      ParsePayload(before, last);
      assert Flatten(before) + PacketsOf(last) == (Flatten(before) + [Encoding(last.msg)]) + [last.data.value];
    } else {
      assert PacketsOf(last) == [Encoding(last.msg)];
    }
  }

  lemma ParseHeader(before: seq<Item>, last: Item)
    requires WellFormed(last) && Parse(FRESH, Flatten(before)) == In(None, before, None)
    ensures Parse(FRESH, Flatten(before) + [Encoding(last.msg)])
            == if last.msg.Data? then In(Some(last.msg), before, None) else In(None, before + [Item(last.msg, None)], None)
  {
    WrittenIsRead(last.msg, []);
    hide Encoding, Read;
    ParseSnoc(FRESH, Flatten(before), Encoding(last.msg));
  }

  lemma ParsePayload(before: seq<Item>, last: Item)
    requires WellFormed(last) && last.data.Some?
    requires Parse(FRESH, Flatten(before) + [Encoding(last.msg)]) == In(Some(last.msg), before, None)
    ensures Parse(FRESH, (Flatten(before) + [Encoding(last.msg)]) + [last.data.value]) == In(None, before + [last], None)
  {
    hide Encoding, Read;
    ParseSnoc(FRESH, Flatten(before) + [Encoding(last.msg)], last.data.value);
  }

  /** What was parsed stays parsed. */
  lemma {:induction false} ParseGrows(packets: seq<Bytes>, k: nat)
    requires k <= |packets|
    ensures Parse(FRESH, packets[..k]).items <= Parse(FRESH, packets).items
    ensures Parse(FRESH, packets).error.None? ==> Parse(FRESH, packets[..k]).error.None?
  {
    hide Read;
    if k < |packets| {
      ParseGrows(packets[..|packets| - 1], k);
      assert packets[..|packets| - 1][..k] == packets[..k];
    } else {
      assert packets[..k] == packets;
    }
  }

  /** Over any schedule, whatever prefix of the packets has arrived, the peer has read a prefix of the messages with
      their payloads and met no error. */
  lemma ReceivedIsPrefix(states: seq<Out>, ops: seq<Op>, i: nat, k: nat)
    requires IsSchedule(states, ops) && i < |states| && k <= |states[i].wire|
    ensures var r := Parse(FRESH, states[i].wire[..k]); r.error.None? && r.items <= states[i].sent
  {
    hide *;
    ScheduleFrames(states, ops, i);
    FramedIsRead(states[i], k);
  }

  lemma FramedIsRead(o: Out, k: nat)
    requires Framed(o) && k <= |o.wire|
    ensures var r := Parse(FRESH, o.wire[..k]); r.error.None? && r.items <= o.sent
  {
    hide *;
    WireIsPrefix(o);
    ParseFlatten(o.sent);
    ParseGrows(Flatten(o.sent), k);
    assert Flatten(o.sent)[..k] == o.wire[..k];
  }

  lemma WireIsPrefix(o: Out)
    requires Framed(o)
    ensures o.wire <= Flatten(o.sent) && forall i | 0 <= i < |o.sent| :: WellFormed(o.sent[i])
  {
    hide Flatten, WellFormed;
  }

  /** Once all packets have arrived, exactly the messages sent have been read, but for one whose payload is missing. */
  lemma ReceivedIsSent(states: seq<Out>, ops: seq<Op>, i: nat)
    requires IsSchedule(states, ops) && i < |states| && !states[i].failed
    ensures var o := states[i];
            var r := Parse(FRESH, o.wire);
            if o.data.None? then r == In(None, o.sent, None)
            else o.sent != [] && r == In(Some(o.sent[|o.sent| - 1].msg), o.sent[..|o.sent| - 1], None)
  {
    ScheduleFrames(states, ops, i);
    hide IsSchedule;
    var o := states[i];
    if o.data.None? {
      ParseFlatten(o.sent);
      assert o.wire + Payload(None) == o.wire;
    } else {
      var before, last := o.sent[..|o.sent| - 1], o.sent[|o.sent| - 1];
      ParseFlatten(before);
      ParseHeader(before, last);
      hide Encoding, Parse;
      assert Flatten(o.sent) == (Flatten(before) + [Encoding(last.msg)]) + Payload(o.data);
      assert o.wire == Flatten(o.sent)[..|Flatten(o.sent)| - 1];
      assert o.wire == Flatten(before) + [Encoding(last.msg)];
    }
  }

  function ItemOf(m: ReliableMsg, num: U32): Item
    requires CountFits(m)
  {
    Item(ToLinkMsg(m, num).0, ToLinkMsg(m, num).1)
  }

  /** A reliable message arrives with its number and contents. */
  lemma ReliableArrives(states: seq<Out>, ops: seq<Op>, i: nat, k: nat, j: nat, m: ReliableMsg, num: U32)
    requires IsSchedule(states, ops) && i < |states| && k <= |states[i].wire| && CountFits(m)
    requires j < |states[i].sent| && states[i].sent[j] == ItemOf(m, num)
    requires j < |Parse(FRESH, states[i].wire[..k]).items|
    ensures var read := Parse(FRESH, states[i].wire[..k]).items[j];
            && IsReliable(read.msg) && (read.msg.Data? ==> read.data.Some?)
            && FromLinkMsg(read.msg, read.data) == (m, num)
  {
    ReceivedIsPrefix(states, ops, i, k);
    hide IsSchedule, Parse;
  }

  /** The same over a byte stream, through the integrity codec: in every state of every schedule, whatever part of the
      bytes has arrived and however they were split, the peer has read a prefix of the messages and met no error; when
      all bytes have arrived, it has got exactly the packets sent. */
  lemma ReceivedOverByteStream(states: seq<Out>, ops: seq<Op>, i: nat, crc: Bytes -> U32, max: U32, number: U16,
                               chunks: seq<Bytes>)
    requires IsSchedule(states, ops) && i < |states|
    requires forall k | 0 <= k < |states[i].wire| :: |states[i].wire[k]| <= max
    requires Codec.Concat(chunks) <= Codec.EncodeAll(crc, states[i].wire, number)
    ensures var r := Codec.Feed(crc, Codec.Decoder(max, Codec.Header, number), [], chunks);
            var read := Parse(FRESH, r.items);
            && r.error.None? && read.error.None? && read.items <= states[i].sent
            && (Codec.Concat(chunks) == Codec.EncodeAll(crc, states[i].wire, number) ==> r.items == states[i].wire)
  {
    hide *;
    Codec.PrefixDecodes(crc, max, states[i].wire, number, chunks);
    var r := Codec.Feed(crc, Codec.Decoder(max, Codec.Header, number), [], chunks);
    assert states[i].wire[..|r.items|] == r.items;
    ReceivedIsPrefix(states, ops, i, |r.items|);
  }

  // ------------------------------------------------------------------- the sender in place

  class LinkSender {
    var txPolling: bool
    var txData: Option<Bytes>
    var txFlushing: bool
    var txFailed: bool
    var txedUnflushed: nat
    var unflushedLimit: Option<nat>
    var sink: seq<Bytes>
    ghost var sent: seq<Item>

    ghost function State(): Out
      reads this
    {
      Out(txPolling, txData, txFlushing, txFailed, txedUnflushed, sink, sent)
    }

    constructor (limit: Option<nat>)
      ensures State() == IDLE && unflushedLimit == limit
    {
      txPolling, txData, txFlushing, txFailed, txedUnflushed := false, None, false, false, 0;
      unflushedLimit, sink, sent := limit, [], [];
    }

    method BeginFlush()
      modifies this`txedUnflushed, this`txFlushing, this`txPolling
      ensures State() == old(StartFlush(State()))
    {
      txedUnflushed := 0;
      txFlushing := true;
      txPolling := true;
    }

    method ReportReady()
      modifies this`txPolling
      ensures State() == old(Apply(State(), OpReportReady))
    {
      txPolling := true;
    }

    /** `accepted` is what the sink answers to the packet. */
    method BeginSend(msg: LinkMsg, data: Option<Bytes>, accepted: bool)
      requires CanApply(State(), OpSend(Item(msg, data), accepted, unflushedLimit))
      requires Framed(State())
      modifies this`txPolling, this`txFailed, this`sink, this`sent, this`txData, this`txedUnflushed, this`txFlushing
      ensures State() == old(Apply(State(), OpSend(Item(msg, data), accepted, unflushedLimit)))
      ensures Framed(State())
    {
      hide Framed, Encoding, Writable, FlushesWhenSent;
      ApplyFrames(State(), OpSend(Item(msg, data), accepted, unflushedLimit));
      if txFailed {
        return;
      }
      txPolling := true;
      var encoded, ok := Write(msg, []);
      assert encoded == Encoding(msg);
      if !accepted {
        txFailed := true;
        return;
      }
      sink := sink + [encoded];
      sent := sent + [Item(msg, data)];
      txData := data;
      var total := |encoded| + (if data.Some? then |data.value| else 0);
      txedUnflushed := if txedUnflushed + total > USIZE_MAX then USIZE_MAX else txedUnflushed + total;
      if FlushesWhenSent(msg) {
        BeginFlush();
      }
      if unflushedLimit.Some? && txedUnflushed >= unflushedLimit.value {
        BeginFlush();
      }
    }

    /** Sends test messages while the sink takes them. */
    method SendTestData(packetSize: nat, dataLimit: nat, polls: seq<SinkPoll>) returns (count: nat)
      requires CanApply(State(), OpTest(packetSize, dataLimit, polls))
      modifies this`txPolling, this`txFailed, this`sink, this`sent
      ensures (State(), count) == old(SendTest(State(), packetSize, dataLimit, polls))
      ensures count <= dataLimit
    {
      hide Encoding;
      txPolling := true;
      count := 0;
      if txFailed {
        return;
      }
      var next := 0;
      ghost var started := State();
      while count < dataLimit && next < |polls|
        invariant count <= dataLimit && next <= |polls| && !txFailed
        invariant TestLoop(State(), packetSize, dataLimit, count, polls[next..])
               == TestLoop(started, packetSize, dataLimit, 0, polls)
        decreases |polls| - next
      {
        var poll := polls[next];
        next := next + 1;
        assert polls[next - 1..][1..] == polls[next..];
        if poll.Pending? {
          break;
        }
        if poll.Broken? || !poll.accepted {
          txFailed := true;
          return;
        }
        var size := Min(packetSize, dataLimit - count);
        var encoded, ok := Write(TestData(size), []);
        assert encoded == Encoding(TestData(size));
        sink := sink + [encoded];
        sent := sent + [Item(TestData(size), None)];
        count := count + size;
      }
    }

    /** Runs the transmit task until it has an event; `answers` are the outcomes of its waits for the sink. */
    method TransmitTask(answers: seq<(bool, bool)>) returns (event: Option<TxEvent>)
      requires Framed(State())
      modifies this`txPolling, this`txData, this`txFlushing, this`txFailed, this`sink
      ensures (State(), event) == old(TransmitRun(State(), answers))
      ensures Framed(State())
    {
      hide Framed;
      ghost var started := State();
      event := None;
      var next := 0;
      while txPolling && next < |answers|
        invariant next <= |answers| && Framed(State())
        invariant TransmitRun(State(), answers[next..]) == TransmitRun(started, answers)
        decreases |answers| - next
      {
        var (ready, accepted) := answers[next];
        TransmitFrames(State(), ready, accepted);
        next := next + 1;
        assert answers[next - 1..][1..] == answers[next..];
        if txFlushing && txData.None? {
          if ready {
            txFlushing := false;
            event := Some(TxFlushed);
          } else {
            txFailed := true;
            event := Some(TxError);
          }
          return;
        }
        if !ready {
          txFailed := true;
          event := Some(TxError);
          return;
        }
        if txData.None? {
          txPolling := false;
          event := Some(TxReady);
          return;
        }
        var data := txData.value;
        txData := None;
        if !accepted {
          txFailed := true;
          event := Some(TxError);
          return;
        }
        sink := sink + [data];
      }
    }
  }

  // ----------------------------------------------------------------- the receiver in place

  datatype RxEvent = RxItem(item: Item) | RxError(error: ReadError)

  class LinkReceiver {
    var rxedDataMsg: Option<LinkMsg>

    constructor ()
      ensures rxedDataMsg.None?
    {
      rxedDataMsg := None;
    }

    /** Takes packets until there is an event; returns how many it took. */
    method ReceiveTask(packets: seq<Bytes>) returns (event: Option<RxEvent>, taken: nat)
      modifies this
      ensures taken <= |packets|
      ensures event.None? ==> taken == |packets|
      ensures Parse(In(old(rxedDataMsg), [], None), packets[..taken])
              == match event
                 case None => In(rxedDataMsg, [], None)
                 case Some(RxItem(item)) => In(None, [item], None)
                 case Some(RxError(e)) => In(None, [], Some(e))
    {
      hide Read;
      ghost var started := In(rxedDataMsg, [], None);
      event, taken := None, 0;
      while taken < |packets|
        invariant taken <= |packets|
        invariant Parse(started, packets[..taken]) == In(rxedDataMsg, [], None)
        decreases |packets| - taken
      {
        var packet := packets[taken];
        assert packets[..taken + 1] == packets[..taken] + [packet];
        ParseSnoc(started, packets[..taken], packet);
        taken := taken + 1;
        if rxedDataMsg.Some? {
          event := Some(RxItem(Item(rxedDataMsg.value, Some(packet))));
          rxedDataMsg := None;
          return;
        }
        match Read(packet) {
          case Bad(e) =>
            event := Some(RxError(e));
            return;
          case Value(msg, _) =>
            if !msg.Data? {
              event := Some(RxItem(Item(msg, None)));
              return;
            }
            rxedDataMsg := Some(msg);
        }
      }
      assert packets[..taken] == packets;
    }
  }
}
