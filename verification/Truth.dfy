/** What the sender believes and what the receiver has: nothing is forgotten,
    acknowledgements are truthful and no packet is left without a way to be settled. */
module Truth {
  import opened Numbering
  import opened Protocol
  import opened Invariants
  import opened Preservation
  import opened System

  /** Whether the receiver has got message `n`. */
  predicate Got(rx: Rx, n: nat) {
    n < rx.next || (n - rx.next < |rx.buffer| && rx.buffer[n - rx.next].Some?)
  }

  predicate Faithful(m: ReliableMsg, st: Status) {
    match st
    case Sent(_, _, msg, _, _) => msg == m
    case ResendQueued(msg, _) => msg == m
    case Received(size) => size == Size(m)
  }

  /** Kept packets still hold the message their number was given to. */
  ghost predicate LogMatches(log: seq<ReliableMsg>, tx: Tx) {
    && |log| == tx.created
    && |tx.packets| <= tx.created
    && forall uid: nat | Kept(tx, uid) :: Faithful(log[uid], StatusOf(tx, uid))
  }

  predicate FrameTrue(log: seq<ReliableMsg>, f: Frame) {
    f.Reliable? ==> f.num < |log| && f.msg == log[f.num]
  }

  /** Every copy on the wire carries the message of its number. */
  ghost predicate WireTrue(log: seq<ReliableMsg>, p: Pipes) {
    forall l, k | l in p && 0 <= k < |p[l]| :: FrameTrue(log, p[l][k])
  }

  /** The receive buffer holds what was sent. */
  ghost predicate RxMatches(log: seq<ReliableMsg>, rx: Rx) {
    && rx.next + |rx.buffer| <= |log|
    && forall i | 0 <= i < |rx.buffer| && rx.buffer[i].Some? :: rx.buffer[i].value.msg == log[rx.next + i]
  }

  /** Acknowledgements, queued or under way, only name received messages. */
  ghost predicate AcksTrue(rx: Rx, links: seq<Option<Link>>, rev: Pipes) {
    && (forall s, k | 0 <= s < |links| && links[s].Some? && 0 <= k < |links[s].value.acks| ::
          Got(rx, links[s].value.acks[k]))
    && (forall l, k | l in rev && 0 <= k < |rev[l]| && rev[l][k].Ack? :: Got(rx, rev[l][k].num))
  }

  /** Each number handed out is received by the peer or still kept as unreceived. */
  ghost predicate NothingForgotten(tx: Tx, rx: Rx) {
    forall n: nat | n < tx.created && !Got(rx, n) :: Kept(tx, n) && !StatusOf(tx, n).Received?
  }

  predicate HasReliable(pipe: seq<Frame>, n: nat) {
    exists k | 0 <= k < |pipe| :: pipe[k].Reliable? && pipe[k].num == n
  }

  predicate HasAck(pipe: seq<Frame>, n: nat) {
    exists k | 0 <= k < |pipe| :: pipe[k].Ack? && pipe[k].num == n
  }

  /** The receiver still owes the acknowledgement of `n` on link `l`. */
  predicate Owed(links: seq<Option<Link>>, l: LinkId, n: nat) {
    exists s | 0 <= s < |links| :: links[s].Some? && links[s].value.id == l && n in links[s].value.acks
  }

  predicate UnderWay(fwd: Pipes, links: seq<Option<Link>>, rev: Pipes, l: LinkId, n: nat) {
    HasReliable(PipeOf(fwd, l), n) || Owed(links, l, n) || HasAck(PipeOf(rev, l), n)
  }

  function LastLink(st: Status): LinkId
    requires !st.Received?
  {
    if st.Sent? then st.link else st.sentLink
  }

  /** A packet whose last link lives is on that link, or its acknowledgement is. */
  ghost predicate NotStranded(tx: Tx, fwd: Pipes, links: seq<Option<Link>>, rev: Pipes, dead: set<LinkId>) {
    forall uid: nat | Kept(tx, uid) && !StatusOf(tx, uid).Received? && LastLink(StatusOf(tx, uid)) !in dead ::
      UnderWay(fwd, links, rev, LastLink(StatusOf(tx, uid)), uid)
  }

  /** Everything about the direction from `x` to `y`. */
  ghost predicate Direction(x: Node, y: Node, fwd: Pipes, rev: Pipes, dead: set<LinkId>) {
    && LogMatches(x.hist.log, x.ep.tx)
    && WireTrue(x.hist.log, fwd)
    && RxMatches(x.hist.log, y.ep.rx)
    && AcksTrue(y.ep.rx, y.ep.links, rev)
    && NothingForgotten(x.ep.tx, y.ep.rx)
    && NotStranded(x.ep.tx, fwd, y.ep.links, rev, dead)
  }

  // -------------------------------------------------------------------------- pipes

  lemma PushKeepsWire(log: seq<ReliableMsg>, p: Pipes, l: LinkId, f: Frame)
    requires WireTrue(log, p) && FrameTrue(log, f)
    ensures WireTrue(log, Push(p, l, f))
  {
  }

  lemma PopKeepsWire(log: seq<ReliableMsg>, p: Pipes, l: LinkId)
    requires WireTrue(log, p) && PipeOf(p, l) != []
    ensures WireTrue(log, Pop(p, l))
  {
  }

  lemma GrowKeepsWire(log: seq<ReliableMsg>, m: ReliableMsg, p: Pipes)
    requires WireTrue(log, p)
    ensures WireTrue(log + [m], p)
  {
    forall l, k | l in p && 0 <= k < |p[l]|
      ensures FrameTrue(log + [m], p[l][k])
    {
      assert FrameTrue(log, p[l][k]);
    }
  }

  lemma PipeFacts(p: Pipes, l: LinkId, f: Frame, x: LinkId, n: nat)
    ensures HasReliable(PipeOf(p, x), n) ==> HasReliable(PipeOf(Push(p, l, f), x), n)
    ensures HasAck(PipeOf(p, x), n) ==> HasAck(PipeOf(Push(p, l, f), x), n)
    ensures f.Reliable? ==> HasReliable(PipeOf(Push(p, l, f), l), f.num)
    ensures f.Ack? ==> HasAck(PipeOf(Push(p, l, f), l), f.num)
  {
    var q := PipeOf(Push(p, l, f), x);
    if HasReliable(PipeOf(p, x), n) {
      var k :| 0 <= k < |PipeOf(p, x)| && PipeOf(p, x)[k].Reliable? && PipeOf(p, x)[k].num == n;
      assert q[k] == PipeOf(p, x)[k];
    }
    if HasAck(PipeOf(p, x), n) {
      var k :| 0 <= k < |PipeOf(p, x)| && PipeOf(p, x)[k].Ack? && PipeOf(p, x)[k].num == n;
      assert q[k] == PipeOf(p, x)[k];
    }
    var r := PipeOf(Push(p, l, f), l);
    assert r[|r| - 1] == f;
  }

  lemma PopFacts(p: Pipes, l: LinkId, x: LinkId, n: nat)
    requires PipeOf(p, l) != []
    ensures HasReliable(PipeOf(p, x), n) ==>
              HasReliable(PipeOf(Pop(p, l), x), n) || (x == l && PipeOf(p, l)[0].Reliable? && PipeOf(p, l)[0].num == n)
    ensures HasAck(PipeOf(p, x), n) ==>
              HasAck(PipeOf(Pop(p, l), x), n) || (x == l && PipeOf(p, l)[0] == Ack(n))
  {
    var q := PipeOf(Pop(p, l), x);
    if HasReliable(PipeOf(p, x), n) {
      var k :| 0 <= k < |PipeOf(p, x)| && PipeOf(p, x)[k].Reliable? && PipeOf(p, x)[k].num == n;
      if x != l {
        assert q[k] == PipeOf(p, x)[k];
      } else if k > 0 {
        assert q[k - 1] == PipeOf(p, x)[k];
      }
    }
    if HasAck(PipeOf(p, x), n) {
      var k :| 0 <= k < |PipeOf(p, x)| && PipeOf(p, x)[k].Ack? && PipeOf(p, x)[k].num == n;
      if x != l {
        assert q[k] == PipeOf(p, x)[k];
      } else if k > 0 {
        assert q[k - 1] == PipeOf(p, x)[k];
      }
    }
  }

  lemma PushKeepsAcks(rx: Rx, links: seq<Option<Link>>, rev: Pipes, l: LinkId, f: Frame)
    requires AcksTrue(rx, links, rev) && (f.Ack? ==> Got(rx, f.num))
    ensures AcksTrue(rx, links, Push(rev, l, f))
  {
  }

  lemma PopKeepsAcks(rx: Rx, links: seq<Option<Link>>, rev: Pipes, l: LinkId)
    requires AcksTrue(rx, links, rev) && PipeOf(rev, l) != []
    ensures AcksTrue(rx, links, Pop(rev, l))
  {
  }

  // -------------------------------------------------------------- changes of the links

  /** The links owe the same acknowledgements. */
  ghost predicate SameAcks(links: seq<Option<Link>>, links': seq<Option<Link>>) {
    && |links| == |links'|
    && forall s | 0 <= s < |links| ::
         links[s].Some? == links'[s].Some?
         && (links[s].Some? ==> links[s].value.id == links'[s].value.id && links[s].value.acks == links'[s].value.acks)
  }

  lemma SameAcksOwed(links: seq<Option<Link>>, links': seq<Option<Link>>, l: LinkId, n: nat)
    requires SameAcks(links, links')
    ensures Owed(links, l, n) ==> Owed(links', l, n)
  {
    if Owed(links, l, n) {
      var s :| 0 <= s < |links| && links[s].Some? && links[s].value.id == l && n in links[s].value.acks;
      assert links'[s].value.id == l && n in links'[s].value.acks;
    }
  }

  lemma SameAcksKeeps(tx: Tx, fwd: Pipes, rx: Rx, links: seq<Option<Link>>, links': seq<Option<Link>>, rev: Pipes,
                      dead: set<LinkId>)
    requires SameAcks(links, links') && AcksTrue(rx, links, rev) && NotStranded(tx, fwd, links, rev, dead)
    ensures AcksTrue(rx, links', rev) && NotStranded(tx, fwd, links', rev, dead)
  {
    forall l: LinkId, n: nat | Owed(links, l, n)
      ensures Owed(links', l, n)
    {
      SameAcksOwed(links, links', l, n);
    }
  }

  // ---------------------------------------------------------------------- the sender acts

  /** Sending: the new packet is on its link. */
  lemma SendKeepsTruth(log: seq<ReliableMsg>, tx: Tx, rx: Rx, fwd: Pipes, links: seq<Option<Link>>, rev: Pipes,
                       dead: set<LinkId>, slot: nat, l: LinkId, msg: ReliableMsg)
    requires LogMatches(log, tx) && NothingForgotten(tx, rx) && NotStranded(tx, fwd, links, rev, dead)
    requires tx.next == tx.created
    ensures var tx' := TxAppend(Unbounded, tx, slot, l, msg);
            && LogMatches(log + [msg], tx') && NothingForgotten(tx', rx)
            && NotStranded(tx', Push(fwd, l, Reliable(tx.next, msg)), links, rev, dead)
  {
    var tx' := TxAppend(Unbounded, tx, slot, l, msg);
    var fwd' := Push(fwd, l, Reliable(tx.next, msg));
    AppendStatuses(Unbounded, tx, slot, l, msg);
    forall uid: nat | Kept(tx', uid) && !StatusOf(tx', uid).Received? && LastLink(StatusOf(tx', uid)) !in dead
      ensures UnderWay(fwd', links, rev, LastLink(StatusOf(tx', uid)), uid)
    {
      PipeFacts(fwd, l, Reliable(tx.next, msg), LastLink(StatusOf(tx', uid)), uid);
      if uid != tx.created {
        assert UnderWay(fwd, links, rev, LastLink(StatusOf(tx, uid)), uid);
      }
    }
  }

  /** Resending: the packet is on its new link. */
  lemma ResendKeepsTruth(log: seq<ReliableMsg>, tx: Tx, rx: Rx, fwd: Pipes, links: seq<Option<Link>>, rev: Pipes,
                         dead: set<LinkId>, slot: nat, l: LinkId)
    requires LogMatches(log, tx) && NothingForgotten(tx, rx) && NotStranded(tx, fwd, links, rev, dead)
    requires CanResend(tx)
    ensures var tx' := TxReturn(tx, slot, l);
            && LogMatches(log, tx') && NothingForgotten(tx', rx)
            && NotStranded(tx', Push(fwd, l, Reliable(tx.resend[0], StatusOf(tx, tx.resend[0]).msg)), links, rev, dead)
  {
    var u := tx.resend[0];
    var tx' := TxReturn(tx, slot, l);
    var f := Reliable(u, StatusOf(tx, u).msg);
    assert forall uid: nat :: Kept(tx', uid) == Kept(tx, uid);
    assert forall uid: nat | Kept(tx, uid) && uid != u :: StatusOf(tx', uid) == StatusOf(tx, uid);
    forall uid: nat | Kept(tx', uid) && !StatusOf(tx', uid).Received? && LastLink(StatusOf(tx', uid)) !in dead
      ensures UnderWay(Push(fwd, l, f), links, rev, LastLink(StatusOf(tx', uid)), uid)
    {
      PipeFacts(fwd, l, f, LastLink(StatusOf(tx', uid)), uid);
      if uid != u {
        assert UnderWay(fwd, links, rev, LastLink(StatusOf(tx, uid)), uid);
      }
    }
  }

  /** Changes of status that keep message and last link keep the truth. */
  lemma RestateKeepsTruth(log: seq<ReliableMsg>, tx: Tx, tx': Tx, rx: Rx, fwd: Pipes, links: seq<Option<Link>>,
                          rev: Pipes, dead: set<LinkId>, dead': set<LinkId>)
    requires LogMatches(log, tx) && NothingForgotten(tx, rx) && NotStranded(tx, fwd, links, rev, dead)
    requires tx'.created == tx.created && |tx'.packets| == |tx.packets| && dead <= dead'
    requires forall uid: nat | Kept(tx, uid) ::
               var st, st' := StatusOf(tx, uid), StatusOf(tx', uid);
               && st.Received? == st'.Received?
               && (forall m :: Faithful(m, st) ==> Faithful(m, st'))
               && (!st.Received? ==> LastLink(st) == LastLink(st'))
    ensures LogMatches(log, tx') && NothingForgotten(tx', rx) && NotStranded(tx', fwd, links, rev, dead')
  {
    assert forall uid: nat :: Kept(tx', uid) == Kept(tx, uid);
    forall uid: nat | Kept(tx', uid)
      ensures Faithful(log[uid], StatusOf(tx', uid))
    {
      assert Faithful(log[uid], StatusOf(tx, uid));
    }
  }

  lemma RequeueKeepsTruth(log: seq<ReliableMsg>, tx: Tx, rx: Rx, fwd: Pipes, links: seq<Option<Link>>, rev: Pipes,
                          dead: set<LinkId>, dead': set<LinkId>, slot: nat)
    requires LogMatches(log, tx) && NothingForgotten(tx, rx) && NotStranded(tx, fwd, links, rev, dead) && dead <= dead'
    ensures var tx' := TxRequeue(tx, slot);
            LogMatches(log, tx') && NothingForgotten(tx', rx) && NotStranded(tx', fwd, links, rev, dead')
  {
    var tx' := TxRequeue(tx, slot);
    assert forall uid: nat | Kept(tx, uid) :: StatusOf(tx', uid) == RequeueStatus(StatusOf(tx, uid), slot);
    RestateKeepsTruth(log, tx, tx', rx, fwd, links, rev, dead, dead');
  }

  lemma FlushKeepsTruth(log: seq<ReliableMsg>, tx: Tx, rx: Rx, fwd: Pipes, links: seq<Option<Link>>, rev: Pipes,
                        dead: set<LinkId>, l: LinkId, flush: bool)
    requires LogMatches(log, tx) && NothingForgotten(tx, rx) && NotStranded(tx, fwd, links, rev, dead)
    ensures var tx' := FlushTx(tx, l, flush);
            LogMatches(log, tx') && NothingForgotten(tx', rx) && NotStranded(tx', fwd, links, rev, dead)
  {
    if flush {
      var tx' := FlushTx(tx, l, flush);
      assert forall uid: nat | Kept(tx, uid) :: StatusOf(tx', uid) == FlushStatus(StatusOf(tx, uid), l);
      RestateKeepsTruth(log, tx, tx', rx, fwd, links, rev, dead, dead);
    }
  }

  /** The one packet that an acknowledgement can make received is the one it names. */
  lemma MarkStatuses(tx: Tx, slot: nat, n: nat, uid: nat)
    requires |tx.packets| <= tx.created && tx.next == tx.created && Kept(tx, uid)
    ensures var tx' := TxMark(Unbounded, tx, slot, n);
            && Kept(tx', uid)
            && StatusOf(tx', uid) == (if uid == n && Settles(StatusOf(tx, n), slot)
                                      then Received(Size(StatusOf(tx, n).msg)) else StatusOf(tx, uid))
  {
  }

  /** An acknowledgement: a packet becomes received, or is dropped, only when the peer has it. */
  lemma AckKeepsTruth(log: seq<ReliableMsg>, tx: Tx, rx: Rx, slot: nat, n: nat)
    requires LogMatches(log, tx) && NothingForgotten(tx, rx) && tx.next == tx.created && Got(rx, n)
    ensures var tx' := TxAck(Unbounded, tx, slot, n);
            LogMatches(log, tx') && NothingForgotten(tx', rx)
  {
    var tx' := TxAck(Unbounded, tx, slot, n);
    forall uid: nat | Kept(tx', uid)
      ensures Faithful(log[uid], StatusOf(tx', uid))
    {
      AckStatuses(Unbounded, tx, slot, n, uid);
      MarkStatuses(tx, slot, n, uid);
      assert Faithful(log[uid], StatusOf(tx, uid));
      SwipeStatuses(TxMark(Unbounded, tx, slot, n), uid);
    }
    forall m: nat | m < tx'.created && !Got(rx, m)
      ensures Kept(tx', m) && !StatusOf(tx', m).Received?
    {
      AckStatuses(Unbounded, tx, slot, n, m);
      MarkStatuses(tx, slot, n, m);
      SwipeStatuses(TxMark(Unbounded, tx, slot, n), m);
    }
    AckStatuses(Unbounded, tx, slot, n, 0);
  }

  lemma SwipeStatuses(tx: Tx, uid: nat)
    requires |tx.packets| <= tx.created
    ensures Kept(TxSwipe(tx), uid) ==> Kept(tx, uid) && StatusOf(TxSwipe(tx), uid) == StatusOf(tx, uid)
    ensures Kept(tx, uid) && !Kept(TxSwipe(tx), uid) ==> StatusOf(tx, uid).Received?
  {
    LeadingReceivedExact(tx.packets);
  }

  /** Taking an acknowledgement off a pipe strands nothing: the packet it names is settled,
      or has meanwhile been sent over another link. */
  lemma AckStrandsNothing(tx: Tx, txLinks: seq<Option<Link>>, fwd: Pipes, links: seq<Option<Link>>, rev: Pipes,
                          dead: set<LinkId>, slot: nat, n: nat)
    requires |tx.packets| <= tx.created && tx.next == tx.created
    requires Slotted(tx, txLinks) && DistinctIds(txLinks) && Occupied(txLinks, slot)
    requires NotStranded(tx, fwd, links, rev, dead)
    requires var pipe := PipeOf(rev, txLinks[slot].value.id); pipe != [] && pipe[0] == Ack(n)
    ensures NotStranded(TxAck(Unbounded, tx, slot, n), fwd, links, Pop(rev, txLinks[slot].value.id), dead)
  {
    var l := txLinks[slot].value.id;
    var tx' := TxAck(Unbounded, tx, slot, n);
    forall uid: nat | Kept(tx', uid) && !StatusOf(tx', uid).Received? && LastLink(StatusOf(tx', uid)) !in dead
      ensures UnderWay(fwd, links, Pop(rev, l), LastLink(StatusOf(tx', uid)), uid)
    {
      AckStatuses(Unbounded, tx, slot, n, uid);
      MarkStatuses(tx, slot, n, uid);
      SwipeStatuses(TxMark(Unbounded, tx, slot, n), uid);
      var st := StatusOf(tx, uid);
      assert StatusOf(tx', uid) == st;
      assert UnderWay(fwd, links, rev, LastLink(st), uid);
      PopFacts(rev, l, LastLink(st), uid);
      if uid == n && st.Sent? {
        assert st == tx.packets[uid - Base(tx)].status;
        assert txLinks[st.slot].value.id == st.link;
      }
    }
  }

  // -------------------------------------------------------------------- the receiver acts

  lemma ForwardGot(rx: Rx, n: nat)
    ensures Got(Forward(Unbounded, rx), n) == Got(rx, n)
  {
    var k := LeadingFull(rx.buffer);
    var rx' := Forward(Unbounded, rx);
    if n >= rx'.next && n - rx'.next < |rx'.buffer| {
      assert rx'.buffer[n - rx'.next] == rx.buffer[n - rx.next];
    }
  }

  /** Known, for the receiver, means got. */
  lemma KnownIffGot(rx: Rx, n: nat)
    ensures Place(Unbounded, rx, n).Known? ==> Got(rx, n)
    ensures Place(Unbounded, rx, n).Fresh? ==> !Got(rx, n) && n == rx.next + Place(Unbounded, rx, n).offset
    ensures Got(rx, n) && |rx.buffer| <= USABLE_INTERVAL + 1 ==> Place(Unbounded, rx, n).Known?
  {
  }

  lemma StoreGot(rx: Rx, offset: nat, a: Arrival, n: nat)
    requires offset < |rx.buffer| ==> rx.buffer[offset].None?
    ensures Got(RxStore(rx, offset, a), n) <==> Got(rx, n) || n == rx.next + offset
  {
  }

  /** The receiver's state after a message has been taken in. */
  function RxAfter(rx: Rx, n: nat, msg: ReliableMsg): Rx {
    match Place(Unbounded, rx, n)
    case Fresh(offset) => Forward(Unbounded, RxStore(rx, offset, Arrival(n, msg)))
    case _ => Forward(Unbounded, rx)
  }

  lemma RxAfterIsReceived(e: Ep, slot: nat, n: nat, msg: ReliableMsg)
    requires Occupied(e.links, slot) && HandleReceived(Unbounded, e, slot, n, msg).Ok?
    ensures var e' := HandleReceived(Unbounded, e, slot, n, msg).value;
            e'.rx == RxAfter(e.rx, n, msg) && e'.links == QueueAck(e, slot, n).links && e'.tx == e.tx && e'.cfg == e.cfg
            && !Place(Unbounded, e.rx, n).Refused?
  {
    OnArrivalFrame(QueueAck(e, slot, n), msg);
  }

  lemma ReceiveGot(rx: Rx, n: nat, msg: ReliableMsg, m: nat)
    requires !Place(Unbounded, rx, n).Refused?
    ensures Got(RxAfter(rx, n, msg), m) <==> Got(rx, m) || m == n
  {
    KnownIffGot(rx, n);
    if Place(Unbounded, rx, n).Fresh? {
      var offset := Place(Unbounded, rx, n).offset;
      StoreGot(rx, offset, Arrival(n, msg), m);
      ForwardGot(RxStore(rx, offset, Arrival(n, msg)), m);
    } else {
      ForwardGot(rx, m);
    }
  }

  lemma ForwardMatches(log: seq<ReliableMsg>, rx: Rx)
    requires RxMatches(log, rx)
    ensures RxMatches(log, Forward(Unbounded, rx))
  {
    var k := LeadingFull(rx.buffer);
    var rx' := Forward(Unbounded, rx);
    forall i | 0 <= i < |rx'.buffer| && rx'.buffer[i].Some?
      ensures rx'.buffer[i].value.msg == log[rx'.next + i]
    {
      assert rx'.buffer[i] == rx.buffer[k + i];
    }
  }

  lemma ReceiveMatches(log: seq<ReliableMsg>, rx: Rx, n: nat, msg: ReliableMsg)
    requires RxMatches(log, rx) && n < |log| && msg == log[n]
    ensures RxMatches(log, RxAfter(rx, n, msg))
  {
    if Place(Unbounded, rx, n).Fresh? {
      var offset := Place(Unbounded, rx, n).offset;
      KnownIffGot(rx, n);
      ForwardMatches(log, RxStore(rx, offset, Arrival(n, msg)));
    } else {
      ForwardMatches(log, rx);
    }
  }

  /** Receiving a copy queues its acknowledgement on the link it came over. */
  lemma ReceiveKeepsTruth(log: seq<ReliableMsg>, tx: Tx, fwd: Pipes, e: Ep, rev: Pipes, dead: set<LinkId>,
                          slot: nat, n: nat, msg: ReliableMsg)
    requires NothingForgotten(tx, e.rx) && RxMatches(log, e.rx) && AcksTrue(e.rx, e.links, rev)
    requires NotStranded(tx, fwd, e.links, rev, dead) && WireTrue(log, fwd)
    requires Occupied(e.links, slot) && PipeOf(fwd, IdAt(e, slot)) != []
    requires PipeOf(fwd, IdAt(e, slot))[0] == Reliable(n, msg)
    requires HandleReceived(Unbounded, e, slot, n, msg).Ok?
    ensures var e' := HandleReceived(Unbounded, e, slot, n, msg).value;
            && NothingForgotten(tx, e'.rx) && RxMatches(log, e'.rx) && AcksTrue(e'.rx, e'.links, rev)
            && NotStranded(tx, Pop(fwd, IdAt(e, slot)), e'.links, rev, dead)
  {
    var e' := HandleReceived(Unbounded, e, slot, n, msg).value;
    var l := IdAt(e, slot);
    RxAfterIsReceived(e, slot, n, msg);
    assert l in fwd && FrameTrue(log, fwd[l][0]);
    ReceiveMatches(log, e.rx, n, msg);
    forall m: nat
      ensures Got(e'.rx, m) <==> Got(e.rx, m) || m == n
    {
      ReceiveGot(e.rx, n, msg, m);
    }
    assert AcksTrue(e'.rx, e'.links, rev);
    forall uid: nat | Kept(tx, uid) && !StatusOf(tx, uid).Received? && LastLink(StatusOf(tx, uid)) !in dead
      ensures UnderWay(Pop(fwd, l), e'.links, rev, LastLink(StatusOf(tx, uid)), uid)
    {
      var x := LastLink(StatusOf(tx, uid));
      assert UnderWay(fwd, e.links, rev, x, uid);
      PopFacts(fwd, l, x, uid);
      QueueAckOwed(e, slot, n, x, uid);
    }
  }

  lemma QueueAckOwed(e: Ep, slot: nat, n: nat, x: LinkId, m: nat)
    requires Occupied(e.links, slot)
    ensures Owed(e.links, x, m) ==> Owed(QueueAck(e, slot, n).links, x, m)
    ensures Owed(QueueAck(e, slot, n).links, IdAt(e, slot), n)
  {
    var links' := QueueAck(e, slot, n).links;
    assert links'[slot].value.id == IdAt(e, slot) && n in links'[slot].value.acks;
    if Owed(e.links, x, m) {
      var s :| 0 <= s < |e.links| && e.links[s].Some? && e.links[s].value.id == x && m in e.links[s].value.acks;
      assert links'[s].value.id == x && m in links'[s].value.acks;
    }
  }

  /** Sending an acknowledgement moves it from the queue to the pipe of the same link. */
  lemma SendAckKeepsTruth(tx: Tx, fwd: Pipes, rx: Rx, links: seq<Option<Link>>, links': seq<Option<Link>>, rev: Pipes,
                          dead: set<LinkId>, slot: nat)
    requires AcksTrue(rx, links, rev) && NotStranded(tx, fwd, links, rev, dead)
    requires Occupied(links, slot) && links[slot].value.acks != []
    requires |links'| == |links| && links'[slot].Some? && links'[slot].value.id == links[slot].value.id
    requires links'[slot].value.acks == links[slot].value.acks[1..]
    requires forall s | 0 <= s < |links| && s != slot :: links'[s] == links[s]
    ensures var rev' := Push(rev, links[slot].value.id, Ack(links[slot].value.acks[0]));
            AcksTrue(rx, links', rev') && NotStranded(tx, fwd, links', rev', dead)
  {
    var l, n := links[slot].value.id, links[slot].value.acks[0];
    var rev' := Push(rev, l, Ack(n));
    assert AcksTrue(rx, links', rev);
    PushKeepsAcks(rx, links', rev, l, Ack(n));
    forall uid: nat | Kept(tx, uid) && !StatusOf(tx, uid).Received? && LastLink(StatusOf(tx, uid)) !in dead
      ensures UnderWay(fwd, links', rev', LastLink(StatusOf(tx, uid)), uid)
    {
      var x := LastLink(StatusOf(tx, uid));
      assert UnderWay(fwd, links, rev, x, uid);
      PipeFacts(rev, l, Ack(n), x, uid);
      if Owed(links, x, uid) {
        var s :| 0 <= s < |links| && links[s].Some? && links[s].value.id == x && uid in links[s].value.acks;
        if s == slot && uid == n {
          assert HasAck(PipeOf(rev', x), uid);
        } else {
          assert links'[s].value.id == x && uid in links'[s].value.acks;
        }
      }
    }
  }

  /** Removing a link at the receiver: what it still owed dies with the link. */
  lemma RemoveKeepsTruth(tx: Tx, fwd: Pipes, rx: Rx, e: Ep, rev: Pipes, dead: set<LinkId>, slot: nat)
    requires AcksTrue(rx, e.links, rev) && NotStranded(tx, fwd, e.links, rev, dead) && Occupied(e.links, slot)
    ensures var links' := RemoveLink(e, slot).links;
            AcksTrue(rx, links', rev) && NotStranded(tx, fwd, links', rev, dead + {IdAt(e, slot)})
  {
    var links1 := UnconfirmLink(e, slot).links;
    var links' := RemoveLink(e, slot).links;
    TrimExact(links1[slot := None]);
    assert forall s | 0 <= s < |links'| && links'[s].Some? :: s != slot && links'[s] == e.links[s];
    forall x: LinkId, m: nat | Owed(e.links, x, m) && x != IdAt(e, slot)
      ensures Owed(links', x, m)
    {
      var s :| 0 <= s < |e.links| && e.links[s].Some? && e.links[s].value.id == x && m in e.links[s].value.acks;
      assert s != slot && links1[slot := None][s] == e.links[s];
      assert s < |links'| && links'[s] == links1[slot := None][s];
    }
  }

  lemma AddKeepsTruth(tx: Tx, fwd: Pipes, rx: Rx, e: Ep, rev: Pipes, dead: set<LinkId>, l: LinkId, tested: bool, limit: nat)
    requires AcksTrue(rx, e.links, rev) && NotStranded(tx, fwd, e.links, rev, dead)
    ensures var links' := AddLink(e, l, tested, limit).links;
            AcksTrue(rx, links', rev) && NotStranded(tx, fwd, links', rev, dead)
  {
    var links' := AddLink(e, l, tested, limit).links;
    forall x: LinkId, m: nat | Owed(e.links, x, m)
      ensures Owed(links', x, m)
    {
      var s :| 0 <= s < |e.links| && e.links[s].Some? && e.links[s].value.id == x && m in e.links[s].value.acks;
      assert s < |links'| && links'[s] == e.links[s];
    }
  }

  // ---------------------------------------------------------------------- links die

  lemma KillKeepsDirection(x: Node, y: Node, fwd: Pipes, rev: Pipes, dead: set<LinkId>, l: LinkId, i: nat, j: nat)
    requires Direction(x, y, fwd, rev, dead)
    ensures Direction(x, y, Cut(fwd, l, i), Cut(rev, l, j), dead + {l})
  {
    var fwd', rev' := Cut(fwd, l, i), Cut(rev, l, j);
    assert WireTrue(x.hist.log, fwd');
    assert AcksTrue(y.ep.rx, y.ep.links, rev');
    forall uid: nat | Kept(x.ep.tx, uid) && !StatusOf(x.ep.tx, uid).Received?
                      && LastLink(StatusOf(x.ep.tx, uid)) !in dead + {l}
      ensures UnderWay(fwd', y.ep.links, rev', LastLink(StatusOf(x.ep.tx, uid)), uid)
    {
      var z := LastLink(StatusOf(x.ep.tx, uid));
      assert UnderWay(fwd, y.ep.links, rev, z, uid);
      assert PipeOf(fwd', z) == PipeOf(fwd, z) && PipeOf(rev', z) == PipeOf(rev, z);
    }
  }
}
