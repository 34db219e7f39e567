/** The state of one endpoint of a connection and what each of its operations
    does to it, stated on values.  `Endpoint.dfy` has the in-place operations. */
module Protocol {
  import opened Numbering

  // ------------------------------------------------------------------- values

  newtype Byte = b: int | 0 <= b < 256
  type Bytes = seq<Byte>
  type LinkId = nat

  datatype Option<+T> = None | Some(value: T)
  datatype Result<+T> = Ok(value: T) | Err(error: ProtocolError)

  datatype ProtocolError = SequenceUnderflow | ReceiveBufferOverflow | UnconsumedUnderflow

  /** A message that is acknowledged by the receiver and resent when lost. */
  datatype ReliableMsg =
    | Data(bytes: Bytes)
    | Consumed(count: nat)
    | SendFinish
    | ReceiveClose
    | ReceiveFinish

  function Size(m: ReliableMsg): nat {
    if m.Data? then |m.bytes| else 0
  }

  /** Messages handed on to the consuming user in order; the others take effect on arrival. */
  predicate Ordered(m: ReliableMsg) {
    m.Data? || m.SendFinish?
  }

  /** Messages that make the link start flushing when they are sent. */
  predicate FlushesAlways(m: ReliableMsg) {
    m.SendFinish? || m.ReceiveClose? || m.ReceiveFinish?
  }

  datatype Status =
    | Sent(slot: nat, link: LinkId, msg: ReliableMsg, flushed: bool, resent: bool)
    | Received(size: nat)
    | ResendQueued(msg: ReliableMsg, sentLink: LinkId)

  /** A sent message.  `uid` is the identity of the shared packet object,
      `num` the sequence number it carries. */
  datatype Packet = Packet(uid: nat, num: nat, status: Status)

  datatype Arrival = Arrival(num: nat, msg: ReliableMsg)

  datatype Tx = Tx(
    created: nat,
    next: nat,
    packets: seq<Packet>,
    unacked: int,
    unconsumable: int,
    resend: seq<nat>)

  datatype Rx = Rx(
    next: nat,
    buffer: seq<Option<Arrival>>,
    consumable: seq<Arrival>,
    size: int,
    consumed: int)

  /** One link as its endpoint sees it.  `polling` is set while the sink is
      being polled for readiness, `payload` while the second packet of a data
      message waits for the sink. */
  datatype Link = Link(
    id: LinkId,
    unconfirmed: bool,
    blocked: bool,
    polling: bool,
    payload: bool,
    txed: seq<nat>,
    unackedData: int,
    limit: nat,
    acks: seq<nat>)

  /** What the user halves have asked for and what the peer was told about it. */
  datatype User = User(
    writeQueue: seq<Bytes>,
    writeOpen: bool,
    writeClosed: bool,
    sendFinishSent: bool,
    readOpen: bool,
    closeOpen: bool,
    receiveCloseSent: bool,
    receiveFinishSent: bool)

  datatype Cfg = Cfg(sendBuffer: nat, recvBuffer: nat, remoteRecvBuffer: nat)

  datatype Ep = Ep(
    cfg: Cfg,
    tx: Tx,
    unconsumed: int,
    rx: Rx,
    links: seq<Option<Link>>,
    idle: seq<nat>,
    user: User)

  function InitialTx(): Tx { Tx(0, 0, [], 0, 0, []) }

  function InitialRx(): Rx { Rx(0, [], [], 0, 0) }

  function InitialUser(): User { User([], true, false, false, true, true, false, false) }

  function Initial(cfg: Cfg): Ep {
    Ep(cfg, InitialTx(), 0, InitialRx(), [], [], InitialUser())
  }

  // -------------------------------------------------------- sequences of packets

  /** The three ways in which packet sizes are added up. */
  datatype View = Unacked | Unconsumable | OnSlot(slot: nat)

  function Weight(view: View, st: Status): nat {
    match (view, st)
    case (Unacked, Sent(_, _, m, _, _)) => Size(m)
    case (Unacked, ResendQueued(m, _)) => Size(m)
    case (Unconsumable, Received(n)) => n
    case (OnSlot(s), Sent(slot, _, m, _, _)) => if s == slot then Size(m) else 0
    case _ => 0
  }

  function Total(view: View, ps: seq<Packet>): nat {
    if ps == [] then 0 else Weight(view, ps[0].status) + Total(view, ps[1..])
  }

  /** The packets queued for resending, oldest first. */
  function Queued(ps: seq<Packet>): seq<nat> {
    if ps == [] then []
    else (if ps[0].status.ResendQueued? then [ps[0].uid] else []) + Queued(ps[1..])
  }

  function RequeueStatus(st: Status, slot: nat): Status {
    if st.Sent? && st.slot == slot then ResendQueued(st.msg, st.link) else st
  }

  /** Every packet sent over `slot` becomes queued for resending. */
  function Requeue(ps: seq<Packet>, slot: nat): (r: seq<Packet>)
    ensures |r| == |ps|
  {
    seq(|ps|, i requires 0 <= i < |ps| => ps[i].(status := RequeueStatus(ps[i].status, slot)))
  }

  function FlushStatus(st: Status, l: LinkId): Status {
    if st.Sent? && st.link == l then st.(flushed := true) else st
  }

  /** Every packet sent over link `l` is marked as flushed. */
  function MarkFlushed(ps: seq<Packet>, l: LinkId): (r: seq<Packet>)
    ensures |r| == |ps|
  {
    seq(|ps|, i requires 0 <= i < |ps| => ps[i].(status := FlushStatus(ps[i].status, l)))
  }

  /** Number of packets at the front that the peer has received. */
  function LeadingReceived(ps: seq<Packet>): (k: nat)
    ensures k <= |ps|
  {
    if ps == [] || !ps[0].status.Received? then 0 else 1 + LeadingReceived(ps[1..])
  }

  function Without(s: seq<nat>, x: nat): seq<nat> {
    if s == [] then [] else (if s[0] == x then [] else [s[0]]) + Without(s[1..], x)
  }

  // ------------------------------------------------------------------- sending

  /** Identity of the oldest packet still kept. */
  function Base(tx: Tx): int {
    tx.created - |tx.packets|
  }

  predicate Kept(tx: Tx, uid: nat) {
    Base(tx) <= uid < tx.created && |tx.packets| <= tx.created
  }

  function StatusOf(tx: Tx, uid: nat): Status
    requires Kept(tx, uid)
  {
    tx.packets[uid - Base(tx)].status
  }

  function FlushTx(tx: Tx, l: LinkId, flush: bool): Tx {
    if flush then tx.(packets := MarkFlushed(tx.packets, l)) else tx
  }

  function TxAppend(num: Numbering, tx: Tx, slot: nat, l: LinkId, msg: ReliableMsg): Tx {
    tx.(created := tx.created + 1,
        next := Next(num, tx.next),
        packets := tx.packets + [Packet(tx.created, tx.next, Sent(slot, l, msg, false, false))],
        unacked := tx.unacked + Size(msg))
  }

  /** The earlier packets of the link may get flushed, the new one is not. */
  function TxSend(num: Numbering, tx: Tx, slot: nat, l: LinkId, msg: ReliableMsg, flush: bool): Tx {
    TxAppend(num, FlushTx(tx, l, flush), slot, l, msg)
  }

  predicate CanResend(tx: Tx) {
    && tx.resend != []
    && Kept(tx, tx.resend[0])
    && StatusOf(tx, tx.resend[0]).ResendQueued?
  }

  function TxReturn(tx: Tx, slot: nat, l: LinkId): Tx
    requires CanResend(tx)
  {
    var i := tx.resend[0] - Base(tx);
    var p := tx.packets[i];
    tx.(packets := tx.packets[i := p.(status := Sent(slot, l, p.status.msg, false, true))],
        resend := tx.resend[1..])
  }

  function TxResend(tx: Tx, slot: nat, l: LinkId, flush: bool): Tx
    requires CanResend(tx)
  {
    TxReturn(FlushTx(tx, l, flush), slot, l)
  }

  function TxRequeue(tx: Tx, slot: nat): Tx {
    var ps := Requeue(tx.packets, slot);
    tx.(packets := ps, resend := Queued(ps))
  }

  /** Index of the packet an acknowledgement names, if it is still kept. */
  function AckIndex(num: Numbering, tx: Tx, n: nat): Option<nat> {
    var back := Diff(num, tx.next, n);
    if 0 < back <= |tx.packets| then Some(|tx.packets| - back) else None
  }

  /** Whether an acknowledgement arriving over `slot` settles a packet. */
  predicate Settles(st: Status, slot: nat) {
    (st.Sent? && st.slot == slot) || st.ResendQueued?
  }

  function TxSettle(tx: Tx, i: nat): Tx
    requires i < |tx.packets| && !tx.packets[i].status.Received?
  {
    var size := Size(tx.packets[i].status.msg);
    var ps := tx.packets[i := tx.packets[i].(status := Received(size))];
    tx.(packets := ps,
        unacked := tx.unacked - size,
        unconsumable := tx.unconsumable + size,
        resend := Without(tx.resend, tx.packets[i].uid))
  }

  /** Drops the packets at the front that the peer has received. */
  function TxSwipe(tx: Tx): Tx {
    var k := LeadingReceived(tx.packets);
    tx.(packets := tx.packets[k..],
        unconsumable := tx.unconsumable - Total(Unconsumable, tx.packets[..k]))
  }

  function TxMark(num: Numbering, tx: Tx, slot: nat, n: nat): Tx {
    match AckIndex(num, tx, n)
    case None => tx
    case Some(i) => if Settles(tx.packets[i].status, slot) then TxSettle(tx, i) else tx
  }

  function TxAck(num: Numbering, tx: Tx, slot: nat, n: nat): Tx {
    TxSwipe(TxMark(num, tx, slot, n))
  }

  /** Unacknowledged bytes the acknowledgement takes off the link it arrived over. */
  function AckedOn(num: Numbering, tx: Tx, slot: nat, n: nat): nat {
    match AckIndex(num, tx, n)
    case None => 0
    case Some(i) => Weight(OnSlot(slot), tx.packets[i].status)
  }

  /** Whether a link's reference to a packet still stands for a packet sent over it. */
  predicate Current(tx: Tx, l: LinkId, uid: nat) {
    Kept(tx, uid) && StatusOf(tx, uid).Sent? && StatusOf(tx, uid).link == l
  }

  /** Drops the references at the front of a link's list that no longer do. */
  function DropStale(txed: seq<nat>, tx: Tx, l: LinkId): seq<nat> {
    if txed == [] || Current(tx, l, txed[0]) then txed else DropStale(txed[1..], tx, l)
  }

  // ----------------------------------------------------------------- receiving

  /** Number of arrivals at the front of the buffer. */
  function LeadingFull(buffer: seq<Option<Arrival>>): (k: nat)
    ensures k <= |buffer|
    ensures forall i | 0 <= i < k :: buffer[i].Some?
    ensures k < |buffer| ==> buffer[k].None?
  {
    if buffer == [] || buffer[0].None? then 0 else 1 + LeadingFull(buffer[1..])
  }

  /** The arrivals among `buffer` that the user consumes. */
  function Deliverable(buffer: seq<Option<Arrival>>): seq<Arrival> {
    if buffer == [] then []
    else (if buffer[0].Some? && Ordered(buffer[0].value.msg) then [buffer[0].value] else [])
         + Deliverable(buffer[1..])
  }

  function Resize(buffer: seq<Option<Arrival>>, n: nat): (r: seq<Option<Arrival>>)
    ensures |r| == if |buffer| < n then n else |buffer|
    ensures forall i | 0 <= i < |r| :: r[i] == if i < |buffer| then buffer[i] else None
  {
    if |buffer| < n then buffer + seq(n - |buffer|, _ => None) else buffer
  }

  /** Hands the complete front of the buffer on for consumption. */
  function Forward(num: Numbering, rx: Rx): Rx {
    var k := LeadingFull(rx.buffer);
    rx.(next := Advance(num, rx.next, k),
        buffer := rx.buffer[k..],
        consumable := rx.consumable + Deliverable(rx.buffer[..k]))
  }

  datatype Placement = Known | Refused | Fresh(offset: nat)

  /** What the receiver makes of number `n`. */
  function Place(num: Numbering, rx: Rx, n: nat): Placement {
    if Less(num, n, rx.next) then Known
    else
      var offset := Diff(num, n, rx.next);
      if offset < 0 || offset > USABLE_INTERVAL then Refused
      else if offset < |rx.buffer| && rx.buffer[offset].Some? then Known
      else Fresh(offset)
  }

  function RxStore(rx: Rx, offset: nat, a: Arrival): Rx {
    rx.(buffer := Resize(rx.buffer, offset + 1)[offset := Some(a)], size := rx.size + Size(a.msg))
  }

  /** The effect a fresh message has at once, before the messages ahead of it arrive. */
  function OnArrival(e: Ep, msg: ReliableMsg): Ep {
    match msg
    case Consumed(c) => e.(unconsumed := e.unconsumed - c)
    case ReceiveClose => e.(user := e.user.(writeClosed := true))
    case ReceiveFinish => e.(user := e.user.(writeOpen := false, writeQueue := [], sendFinishSent := true))
    case _ => e
  }

  // -------------------------------------------------------------------- links

  predicate Occupied(links: seq<Option<Link>>, slot: nat) {
    slot < |links| && links[slot].Some?
  }

  /** The condition `start_send_msg` asserts. */
  predicate Ready(e: Ep, slot: nat) {
    Occupied(e.links, slot) && !e.links[slot].value.polling && !e.links[slot].value.payload
  }

  function SetLink(e: Ep, slot: nat, link: Link): Ep
    requires slot < |e.links|
  {
    e.(links := e.links[slot := Some(link)])
  }

  /** Drops free slots at the end. */
  function Trim(links: seq<Option<Link>>): seq<Option<Link>> {
    if links != [] && links[|links| - 1].None? then Trim(links[..|links| - 1]) else links
  }

  /** The first free slot, or the number of slots when all are taken. */
  function FreeSlot(links: seq<Option<Link>>): (s: nat)
    ensures s <= |links|
    ensures s < |links| ==> links[s].None?
    ensures forall t | 0 <= t < s :: links[t].Some?
  {
    if links == [] || links[0].None? then 0 else 1 + FreeSlot(links[1..])
  }

  function Max(a: nat, b: nat): nat { if a < b then b else a }

  function Min(a: nat, b: nat): nat { if a < b then a else b }

  function NewLink(l: LinkId, tested: bool, limit: nat): Link {
    Link(l, tested, false, true, false, [], 0, limit, [])
  }

  // ------------------------------------------------------ operations of an endpoint

  /** Sends a new reliable message over a link.  `limitReached` says that the
      link's limit of unflushed bytes has been reached. */
  function SendReliable(num: Numbering, e: Ep, slot: nat, msg: ReliableMsg, limitReached: bool): Ep
    requires Ready(e, slot)
  {
    var link := e.links[slot].value;
    var flush := limitReached || FlushesAlways(msg);
    var link' := link.(polling := true, payload := msg.Data?,
                       unackedData := link.unackedData + Size(msg),
                       txed := link.txed + [e.tx.created]);
    SetLink(e, slot, link').(tx := TxSend(num, e.tx, slot, link.id, msg, flush),
                             unconsumed := e.unconsumed + Size(msg))
  }

  /** Resends the oldest queued packet over a link. */
  function ResendReliable(e: Ep, slot: nat, limitReached: bool): Ep
    requires Ready(e, slot) && CanResend(e.tx)
  {
    var link := e.links[slot].value;
    var msg := StatusOf(e.tx, e.tx.resend[0]).msg;
    var flush := limitReached || FlushesAlways(msg);
    var link' := link.(polling := true, payload := msg.Data?,
                       unackedData := link.unackedData + Size(msg),
                       txed := link.txed + [e.tx.resend[0]]);
    SetLink(e, slot, link').(tx := TxResend(e.tx, slot, link.id, flush))
  }

  /** Starts flushing a link; everything sent over it counts as flushed from now on. */
  function FlushLink(e: Ep, slot: nat): Ep
    requires Occupied(e.links, slot)
  {
    var link := e.links[slot].value;
    SetLink(e, slot, link.(polling := true)).(
      tx := FlushTx(e.tx, link.id, true),
      idle := Without(e.idle, slot))
  }

  /** Declares a link not working: nothing more is expected of what it carries. */
  function UnconfirmLink(e: Ep, slot: nat): Ep
    requires Occupied(e.links, slot)
  {
    var link := e.links[slot].value;
    var link' := link.(unconfirmed := true, polling := true,
                       unackedData := link.unackedData - Total(OnSlot(slot), e.tx.packets),
                       limit := Max(link.limit / 2, 128),
                       txed := []);
    SetLink(e, slot, link').(tx := TxRequeue(e.tx, slot), idle := Without(e.idle, slot))
  }

  function RemoveLink(e: Ep, slot: nat): Ep
    requires Occupied(e.links, slot)
  {
    var e' := UnconfirmLink(e, slot);
    e'.(links := Trim(e'.links[slot := None]))
  }

  function AddLink(e: Ep, l: LinkId, tested: bool, limit: nat): Ep {
    var s := FreeSlot(e.links);
    var link := NewLink(l, tested, limit);
    e.(links := if s < |e.links| then e.links[s := Some(link)] else e.links + [Some(link)])
  }

  function HandleAck(num: Numbering, e: Ep, slot: nat, n: nat): Ep
    requires Occupied(e.links, slot)
  {
    var link := e.links[slot].value;
    var tx' := TxAck(num, e.tx, slot, n);
    var link' := link.(unackedData := link.unackedData - AckedOn(num, e.tx, slot, n),
                       txed := DropStale(link.txed, tx', link.id));
    SetLink(e, slot, link').(tx := tx')
  }

  /** The acknowledgement that every arrival queues, on the link it came over. */
  function QueueAck(e: Ep, slot: nat, n: nat): Ep
    requires Occupied(e.links, slot)
  {
    var link := e.links[slot].value;
    SetLink(e, slot, link.(acks := link.acks + [n], polling := true)).(idle := Without(e.idle, slot))
  }

  function HandleReceived(num: Numbering, e: Ep, slot: nat, n: nat, msg: ReliableMsg): Result<Ep>
    requires Occupied(e.links, slot)
  {
    var e1 := QueueAck(e, slot, n);
    match Place(num, e.rx, n)
    case Known => Ok(e1.(rx := Forward(num, e.rx)))
    case Refused => Err(SequenceUnderflow)
    case Fresh(offset) =>
      if msg.Data? && e.rx.size + |msg.bytes| > e.cfg.recvBuffer then Err(ReceiveBufferOverflow)
      else if msg.Consumed? && msg.count > e.unconsumed then Err(UnconsumedUnderflow)
      else Ok(OnArrival(e1, msg).(rx := Forward(num, RxStore(e.rx, offset, Arrival(n, msg)))))
  }

  /** Takes the next acknowledgement off the queue of a link that became ready. */
  function SendAck(e: Ep, slot: nat): Ep
    requires Ready(e, slot) && e.links[slot].value.acks != []
  {
    var link := e.links[slot].value;
    SetLink(e, slot, link.(acks := link.acks[1..], polling := true))
  }

  /** A link is taken for sending: the sink has reported it ready, or it was idle. */
  function Claim(e: Ep, slot: nat): Ep
    requires Occupied(e.links, slot)
  {
    SetLink(e, slot, e.links[slot].value.(polling := false)).(idle := Without(e.idle, slot))
  }

  /** Readiness of the sink is to be reported again. */
  function Poll(e: Ep, slot: nat): Ep
    requires Occupied(e.links, slot)
  {
    SetLink(e, slot, e.links[slot].value.(polling := true)).(idle := Without(e.idle, slot))
  }

  /** The payload of a data message has been handed to the sink. */
  function PayloadSent(e: Ep, slot: nat): Ep
    requires Occupied(e.links, slot)
  {
    SetLink(e, slot, e.links[slot].value.(payload := false))
  }

  /** A ready link with nothing to send joins the idle links. */
  function BecomeIdle(e: Ep, slot: nat): Ep {
    e.(idle := e.idle + [slot])
  }

  /** A link has passed its test or recovered. */
  function ConfirmLink(e: Ep, slot: nat): Ep
    requires Occupied(e.links, slot)
  {
    SetLink(e, slot, e.links[slot].value.(unconfirmed := false, polling := true)).(idle := Without(e.idle, slot))
  }

  function BlockLink(e: Ep, slot: nat, blocked: bool): Ep
    requires Occupied(e.links, slot)
  {
    SetLink(e, slot, e.links[slot].value.(blocked := blocked, polling := true)).(idle := Without(e.idle, slot))
  }

  /** A link's limit of unacknowledged bytes is adjusted. */
  function LimitLink(e: Ep, slot: nat, limit: nat): Ep
    requires Occupied(e.links, slot)
  {
    SetLink(e, slot, e.links[slot].value.(limit := limit))
  }

  /** The user takes the next message. */
  function Consume(e: Ep): Ep
    requires e.rx.consumable != []
  {
    var m := e.rx.consumable[0].msg;
    var e' := e.(rx := e.rx.(consumable := e.rx.consumable[1..],
                             size := e.rx.size - Size(m),
                             consumed := e.rx.consumed + Size(m)));
    if m.SendFinish? then e'.(user := e.user.(readOpen := false, receiveFinishSent := true)) else e'
  }

  // -------------------------------------------------------------- flow control

  function SaturatingSub(a: nat, b: int): nat {
    if b < a then a - b else 0
  }

  /** Bytes that may be sent without overrunning either buffer. */
  function TxSpace(e: Ep): nat {
    Min(SaturatingSub(e.cfg.sendBuffer, e.tx.unacked),
        SaturatingSub(e.cfg.remoteRecvBuffer, e.unconsumed))
  }

  predicate SeqAvail(num: Numbering, tx: Tx) {
    tx.packets == [] || Diff(num, tx.next, tx.packets[0].num) <= USABLE_INTERVAL
  }

  predicate ConsumeAckRequired(e: Ep) {
    e.rx.consumed > if e.user.readOpen then e.cfg.recvBuffer / 10 else 0
  }

  predicate Sendable(link: Link) {
    link.unackedData < link.limit
  }

  // ---------------------------------------------------- sends the event loop decides on

  /** The reasons for sending a new reliable message. */
  datatype SendKind = OfData | OfConsumed | OfReceiveClose | OfReceiveFinish | OfSendFinish

  /** Whether a message of this kind is to be sent.  Only data waits for a free number. */
  predicate Due(num: Numbering, e: Ep, kind: SendKind) {
    match kind
    case OfData =>
      && e.user.writeOpen && e.user.writeQueue != []
      && SeqAvail(num, e.tx) && |e.user.writeQueue[0]| <= TxSpace(e)
    case OfConsumed => ConsumeAckRequired(e)
    case OfReceiveClose => !e.user.closeOpen && !e.user.receiveCloseSent
    case OfReceiveFinish => !e.user.readOpen && !e.user.receiveFinishSent
    case OfSendFinish => !e.user.writeOpen && !e.user.sendFinishSent
  }

  /** The message sent; the count of consumed bytes is cast to 32 bits. */
  function MessageOf(e: Ep, kind: SendKind): ReliableMsg
    requires kind.OfData? ==> e.user.writeQueue != []
  {
    match kind
    case OfData => Data(e.user.writeQueue[0])
    case OfConsumed => Consumed(e.rx.consumed % MODULUS)
    case OfReceiveClose => ReceiveClose
    case OfReceiveFinish => ReceiveFinish
    case OfSendFinish => SendFinish
  }

  function AfterSend(e: Ep, kind: SendKind): Ep
    requires kind.OfData? ==> e.user.writeQueue != []
  {
    match kind
    case OfData => e.(user := e.user.(writeQueue := e.user.writeQueue[1..]))
    case OfConsumed => e.(rx := e.rx.(consumed := 0))
    case OfReceiveClose => e.(user := e.user.(receiveCloseSent := true))
    case OfReceiveFinish => e.(user := e.user.(receiveFinishSent := true))
    case OfSendFinish => e.(user := e.user.(sendFinishSent := true))
  }

  /** A link that has been reported ready or is idle, so that it can be claimed. */
  predicate Claimable(e: Ep, slot: nat) {
    && Occupied(e.links, slot) && !e.links[slot].value.payload
    && (e.links[slot].value.polling || slot in e.idle)
  }

  predicate CanSend(num: Numbering, e: Ep, slot: nat, kind: SendKind) {
    && Claimable(e, slot) && !e.links[slot].value.unconfirmed && Due(num, e, kind)
    && (kind.OfData? ==> Sendable(e.links[slot].value))
  }

  function Send(num: Numbering, e: Ep, slot: nat, kind: SendKind, limitReached: bool): Ep
    requires CanSend(num, e, slot, kind)
  {
    AfterSend(SendReliable(num, Claim(e, slot), slot, MessageOf(e, kind), limitReached), kind)
  }

  /** A queued packet may go out over any other link that can take it. */
  predicate CanResendOver(e: Ep, slot: nat) {
    && Claimable(e, slot) && !e.links[slot].value.unconfirmed && Sendable(e.links[slot].value)
    && CanResend(e.tx) && e.links[slot].value.id != StatusOf(e.tx, e.tx.resend[0]).sentLink
  }

  function Resend(e: Ep, slot: nat, limitReached: bool): Ep
    requires CanResendOver(e, slot)
  {
    ResendReliable(Claim(e, slot), slot, limitReached)
  }

  /** The condition for a graceful end that needs no timeout. */
  predicate ExitReady(e: Ep) {
    && !e.user.readOpen && !e.user.writeOpen
    && e.tx.packets == [] && e.unconsumed == 0 && e.rx.size == 0 && e.rx.consumed == 0
    && e.user.sendFinishSent && e.user.receiveFinishSent
  }

  /** Largest message the sending half accepts. */
  function MaxSendSize(remoteRecvBuffer: nat): nat {
    Max(remoteRecvBuffer / 2, 2) - 1
  }
}
