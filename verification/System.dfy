/** Two endpoints joined by any number of links, each a pair of FIFO pipes. */
module System {
  import opened Numbering
  import opened Protocol

  /** What travels over a link.  A data header and its payload count as one frame. */
  datatype Frame = Reliable(num: nat, msg: ReliableMsg) | Ack(num: nat)

  type Pipes = map<LinkId, seq<Frame>>

  function PipeOf(p: Pipes, l: LinkId): seq<Frame> {
    if l in p then p[l] else []
  }

  function Push(p: Pipes, l: LinkId, f: Frame): Pipes {
    p[l := PipeOf(p, l) + [f]]
  }

  function Pop(p: Pipes, l: LinkId): Pipes
    requires PipeOf(p, l) != []
  {
    p[l := PipeOf(p, l)[1..]]
  }

  /** What is left of a pipe when its link dies: some prefix may still get through. */
  function Cut(p: Pipes, l: LinkId, keep: nat): Pipes {
    p[l := PipeOf(p, l)[..Min(keep, |PipeOf(p, l)|)]]
  }

  /** What has happened at an endpoint so far: every message it ever numbered,
      all data its user handed in, every ordered message consumed from the
      peer, the data its user got, and whether the end of the stream was reported. */
  datatype Hist = Hist(
    log: seq<ReliableMsg>,
    accepted: seq<Bytes>,
    consumed: seq<ReliableMsg>,
    delivered: seq<Bytes>,
    ended: bool,
    added: set<LinkId>)

  datatype Node = Node(ep: Ep, hist: Hist)

  /** `dead` holds the links that were killed or removed at either end; `haltA`
      and `haltB` hold the protocol error that ended an endpoint, if any.
      `gated` is the hypothesis that control messages, too, wait for a free number. */
  datatype Sys = Sys(
    a: Node,
    b: Node,
    ab: Pipes,
    ba: Pipes,
    dead: set<LinkId>,
    haltA: Option<ProtocolError>,
    haltB: Option<ProtocolError>,
    gated: bool)

  function Swap(s: Sys): Sys {
    Sys(s.b, s.a, s.ba, s.ab, s.dead, s.haltB, s.haltA, s.gated)
  }

  datatype Touch = Polled | Unready | PayloadGone | Idled | Confirmed | Blocked(blocked: bool) | Limited(limit: nat)

  /** Everything that can happen at endpoint `a` or to a link, at any moment. */
  datatype Action =
    | Accept(data: Bytes)
    | SendNew(slot: nat, kind: SendKind, limitReached: bool)
    | SendAgain(slot: nat, limitReached: bool)
    | SendAcknowledgement(slot: nat)
    | Receive(slot: nat)
    | Unconfirm(slot: nat)
    | Flush(slot: nat)
    | Remove(slot: nat)
    | Add(link: LinkId, tested: bool, limit: nat)
    | TouchLink(slot: nat, touch: Touch)
    | ConsumeNext
    | WriteEnd
    | ReadDropped
    | ReadClosed
    | Kill(link: LinkId, keepOut: nat, keepIn: nat)

  predicate TouchEnabled(e: Ep, slot: nat, touch: Touch) {
    && Occupied(e.links, slot)
    && match touch
       case Unready => Claimable(e, slot)
       case Idled => Claimable(e, slot) && slot !in e.idle && !e.links[slot].value.unconfirmed
       case _ => true
  }

  function ApplyTouch(e: Ep, slot: nat, touch: Touch): Ep
    requires TouchEnabled(e, slot, touch)
  {
    match touch
    case Polled => Poll(e, slot)
    case Unready => Claim(e, slot)
    case PayloadGone => PayloadSent(e, slot)
    case Idled => BecomeIdle(Claim(e, slot), slot)
    case Confirmed => ConfirmLink(e, slot)
    case Blocked(blocked) => BlockLink(e, slot, blocked)
    case Limited(limit) => LimitLink(e, slot, limit)
  }

  /** Whether an action is possible at `a`, with numbers of either kind. */
  predicate Enabled(num: Numbering, s: Sys, act: Action) {
    var e := s.a.ep;
    (act.Kill? || s.haltA.None?)
    && match act
       case Accept(data) => e.user.writeOpen && |data| <= MaxSendSize(e.cfg.remoteRecvBuffer)
       case SendNew(slot, kind, _) => CanSend(num, e, slot, kind) && (s.gated ==> SeqAvail(num, e.tx))
       case SendAgain(slot, _) => CanResendOver(e, slot)
       case SendAcknowledgement(slot) => Claimable(e, slot) && e.links[slot].value.acks != []
       case Receive(slot) => Occupied(e.links, slot) && PipeOf(s.ba, e.links[slot].value.id) != []
       case Unconfirm(slot) => Occupied(e.links, slot)
       case Flush(slot) => Occupied(e.links, slot)
       case Remove(slot) => Occupied(e.links, slot)
       case Add(link, _, _) => link !in s.a.hist.added
       case TouchLink(slot, touch) => TouchEnabled(e, slot, touch)
       case ConsumeNext => e.rx.consumable != []
       case WriteEnd => e.user.writeOpen && e.user.writeQueue == []
       case ReadDropped => e.user.readOpen
       case ReadClosed => e.user.closeOpen
       case Kill(_, _, _) => true
  }

  function IdAt(e: Ep, slot: nat): LinkId
    requires Occupied(e.links, slot)
  {
    e.links[slot].value.id
  }

  function ConsumeHist(n: Node): Hist
    requires n.ep.rx.consumable != []
  {
    var m := n.ep.rx.consumable[0].msg;
    n.hist.(consumed := n.hist.consumed + [m],
            delivered := if m.Data? && n.ep.user.readOpen then n.hist.delivered + [m.bytes] else n.hist.delivered,
            ended := n.hist.ended || (m.SendFinish? && n.ep.user.readOpen))
  }

  function LinkIds(links: seq<Option<Link>>): set<LinkId> {
    set s | 0 <= s < |links| && links[s].Some? :: links[s].value.id
  }

  /** Delivery of the frame at the head of a pipe.  A protocol error ends the endpoint and with it all its links. */
  function ReceiveFrame(num: Numbering, s: Sys, slot: nat): Sys
    requires Enabled(num, s, Receive(slot))
  {
    var l := IdAt(s.a.ep, slot);
    var s1 := s.(ba := Pop(s.ba, l));
    match PipeOf(s.ba, l)[0]
    case Ack(n) => s1.(a := s.a.(ep := HandleAck(num, s.a.ep, slot, n)))
    case Reliable(n, msg) =>
      match HandleReceived(num, s.a.ep, slot, n, msg)
      case Ok(e) => s1.(a := s.a.(ep := e))
      case Err(err) => s1.(haltA := Some(err), dead := s.dead + LinkIds(s.a.ep.links))
  }

  function Act(num: Numbering, s: Sys, act: Action): Sys
    requires Enabled(num, s, act)
  {
    var n := s.a;
    var e := n.ep;
    match act
    case Accept(data) =>
      s.(a := n.(ep := e.(user := e.user.(writeQueue := e.user.writeQueue + [data])),
                 hist := n.hist.(accepted := n.hist.accepted + [data])))
    case SendNew(slot, kind, limitReached) =>
      var msg := MessageOf(e, kind);
      s.(a := n.(ep := Send(num, e, slot, kind, limitReached), hist := n.hist.(log := n.hist.log + [msg])),
         ab := Push(s.ab, IdAt(e, slot), Reliable(e.tx.next, msg)))
    case SendAgain(slot, limitReached) =>
      var u := e.tx.resend[0];
      s.(a := n.(ep := Resend(e, slot, limitReached)),
         ab := Push(s.ab, IdAt(e, slot), Reliable(e.tx.packets[u - Base(e.tx)].num, StatusOf(e.tx, u).msg)))
    case SendAcknowledgement(slot) =>
      s.(a := n.(ep := SendAck(Claim(e, slot), slot)),
         ab := Push(s.ab, IdAt(e, slot), Ack(e.links[slot].value.acks[0])))
    case Receive(slot) => ReceiveFrame(num, s, slot)
    case Unconfirm(slot) => s.(a := n.(ep := UnconfirmLink(e, slot)))
    case Flush(slot) => s.(a := n.(ep := FlushLink(e, slot)))
    case Remove(slot) =>
      s.(a := n.(ep := RemoveLink(e, slot)), dead := s.dead + {IdAt(e, slot)})
    case Add(link, tested, limit) =>
      s.(a := n.(ep := AddLink(e, link, tested, limit), hist := n.hist.(added := n.hist.added + {link})))
    case TouchLink(slot, touch) => s.(a := n.(ep := ApplyTouch(e, slot, touch)))
    case ConsumeNext => s.(a := n.(ep := Consume(e), hist := ConsumeHist(n)))
    case WriteEnd => s.(a := n.(ep := e.(user := e.user.(writeOpen := false))))
    case ReadDropped => s.(a := n.(ep := e.(user := e.user.(readOpen := false, closeOpen := false))))
    case ReadClosed => s.(a := n.(ep := e.(user := e.user.(closeOpen := false))))
    case Kill(link, keepOut, keepIn) =>
      s.(ab := Cut(s.ab, link, keepOut), ba := Cut(s.ba, link, keepIn), dead := s.dead + {link})
  }

  lemma ReceiveFrameOf(s: Sys, slot: nat)
    requires Enabled(Unbounded, s, Receive(slot))
    ensures var s' := ReceiveFrame(Unbounded, s, slot);
            && s'.b == s.b && s'.gated == s.gated && s'.a.ep.cfg == s.a.ep.cfg && s'.a.hist == s.a.hist
            && (s'.a.ep.user.writeOpen ==> s.a.ep.user.writeOpen && s'.a.ep.user.writeQueue == s.a.ep.user.writeQueue)
  {
    hide HandleAck, HandleReceived, LinkIds, Pop;
    match PipeOf(s.ba, IdAt(s.a.ep, slot))[0]
    case Ack(n) => AckKeepsUser(s.a.ep, slot, n);
    case Reliable(n, msg) => ReceivedFrame(s.a.ep, slot, n, msg);
  }

  lemma AckKeepsUser(e: Ep, slot: nat, n: nat)
    requires Occupied(e.links, slot)
    ensures var e' := HandleAck(Unbounded, e, slot, n); e'.cfg == e.cfg && e'.user == e.user
  {
    hide TxAck, AckedOn, DropStale;
  }

  lemma ReceivedFrame(e: Ep, slot: nat, n: nat, msg: ReliableMsg)
    requires Occupied(e.links, slot)
    ensures match HandleReceived(Unbounded, e, slot, n, msg)
            case Ok(e') =>
              && e'.cfg == e.cfg
              && (e'.user.writeOpen ==> e.user.writeOpen && e'.user.writeQueue == e.user.writeQueue)
            case Err(_) => true
  {
    hide Without, Place, Forward, RxStore;
  }

  lemma SendFrameOf(e: Ep, slot: nat, kind: SendKind, limitReached: bool)
    requires CanSend(Unbounded, e, slot, kind)
    ensures var e' := Send(Unbounded, e, slot, kind, limitReached);
            && e'.cfg == e.cfg && e'.user.writeOpen == e.user.writeOpen
            && e'.user.writeQueue == if kind.OfData? then e.user.writeQueue[1..] else e.user.writeQueue
  {
    hide TxSend, Without, SeqAvail, TxSpace;
  }

  /** What an action changes of the configurations, the histories and the writing half. */
  lemma ActFrame(s: Sys, act: Action)
    requires Enabled(Unbounded, s, act)
    ensures var s' := Act(Unbounded, s, act);
            var h, h', u, u' := s.a.hist, s'.a.hist, s.a.ep.user, s'.a.ep.user;
            && s'.b == s.b && s'.gated == s.gated && s'.a.ep.cfg == s.a.ep.cfg
            && h'.log == (if act.SendNew? then h.log + [MessageOf(s.a.ep, act.kind)] else h.log)
            && h'.accepted == (if act.Accept? then h.accepted + [act.data] else h.accepted)
            && (if act.ConsumeNext? then h' == ConsumeHist(s.a) else h'.delivered == h.delivered && h'.ended == h.ended)
            && (u'.writeOpen ==>
                  u.writeOpen
                  && u'.writeQueue == if act.Accept? then u.writeQueue + [act.data]
                                      else if act.SendNew? && act.kind.OfData? then u.writeQueue[1..]
                                      else u.writeQueue)
  {
    hide TxResend, FlushTx, TxRequeue, Trim, FreeSlot, Without, Total, CanResend, StatusOf, Push, Pop, Cut, MessageOf,
         ReceiveFrame, Send, CanSend, SeqAvail;
    match act
    case SendNew(slot, kind, limitReached) => SendFrameOf(s.a.ep, slot, kind, limitReached);
    case Receive(slot) => ReceiveFrameOf(s, slot);
    case _ =>
  }

  ghost predicate StepAtA(num: Numbering, s: Sys, s': Sys) {
    exists act :: Enabled(num, s, act) && s' == Act(num, s, act)
  }

  ghost predicate Step(num: Numbering, s: Sys, s': Sys) {
    StepAtA(num, s, s') || StepAtA(num, Swap(s), Swap(s'))
  }

  function InitialNode(cfg: Cfg): Node {
    Node(Initial(cfg), Hist([], [], [], [], false, {}))
  }

  /** Each side knows the other's receive buffer size, a non-zero 32-bit number. */
  predicate Matching(ca: Cfg, cb: Cfg) {
    && 0 < ca.recvBuffer == cb.remoteRecvBuffer < MODULUS
    && 0 < cb.recvBuffer == ca.remoteRecvBuffer < MODULUS
    && 0 < ca.sendBuffer && 0 < cb.sendBuffer
  }

  /** A fresh connection. */
  function StartOf(ca: Cfg, cb: Cfg, gated: bool): Sys {
    Sys(InitialNode(ca), InitialNode(cb), map[], map[], {}, None, None, gated)
  }

  ghost predicate Start(s: Sys) {
    exists ca, cb, gated :: Matching(ca, cb) && s == StartOf(ca, cb, gated)
  }

  /** A run of the system: any interleaving of the steps of both sides. */
  ghost predicate IsRun(num: Numbering, run: seq<Sys>) {
    && run != [] && Start(run[0])
    && forall i | 0 <= i < |run| - 1 :: Step(num, run[i], run[i + 1])
  }
}
