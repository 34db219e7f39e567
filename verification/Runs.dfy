/** The invariant of the whole system, kept by every step of every run. */
module Runs {
  import opened Numbering
  import opened Protocol
  import opened Invariants
  import opened Preservation
  import opened System
  import opened Truth
  import opened Credit
  import opened Stream

  ghost predicate IdsAdded(links: seq<Option<Link>>, added: set<LinkId>) {
    forall s | 0 <= s < |links| && links[s].Some? :: links[s].value.id in added
  }

  ghost predicate Local(n: Node) {
    && Inv(Unbounded, n.ep) && IdsAdded(n.ep.links, n.hist.added)
    && SenderOk(n.hist.log, n.hist.accepted, n.ep.user)
    && ReaderOk(n.hist.consumed, n.hist.delivered, n.hist.ended, n.ep.user.readOpen)
  }

  ghost predicate Pair(x: Node, y: Node, fwd: Pipes, rev: Pipes, dead: set<LinkId>) {
    && Direction(x, y, fwd, rev, dead) && Conserved(x, y) && Bounded(x, y)
    && InOrder(x.hist.log, y.hist.consumed, y.ep.rx)
  }

  /** With the gate on, the numbers in use stay within the usable interval. */
  ghost predicate WithinWindow(gated: bool, tx: Tx) {
    gated ==> |tx.packets| <= USABLE_INTERVAL + 1
  }

  /** The only protocol error that can occur is a number outside the window, and not with the gate on. */
  ghost predicate HaltOk(gated: bool, halt: Option<ProtocolError>) {
    halt.Some? ==> halt.value == SequenceUnderflow && !gated
  }

  ghost predicate SysInv(s: Sys) {
    && Local(s.a) && Local(s.b)
    && Pair(s.a, s.b, s.ab, s.ba, s.dead) && Pair(s.b, s.a, s.ba, s.ab, s.dead)
    && WithinWindow(s.gated, s.a.ep.tx) && WithinWindow(s.gated, s.b.ep.tx)
    && HaltOk(s.gated, s.haltA) && HaltOk(s.gated, s.haltB)
  }

  /** With the gate on, the oldest number still kept is close to the next one. */
  lemma GatedWindow(s: Sys)
    requires SysInv(s) && s.gated
    ensures var tx := s.a.ep.tx; tx.packets != [] ==> 0 < tx.next - tx.packets[0].num <= USABLE_INTERVAL + 1
  {
    hide Pair, Inv, SenderOk, ReaderOk, IdsAdded, Slotted, RxOk, DistinctIds, CanResend;
    InvParts(s.a.ep);
  }

  lemma SwapKeeps(s: Sys)
    requires SysInv(s)
    ensures SysInv(Swap(s))
  {
    hide Local, Pair, WithinWindow, HaltOk;
  }

  // ----------------------------------------------------------------- parts of the invariant

  lemma InvParts(e: Ep)
    requires Inv(Unbounded, e)
    ensures RxOk(Unbounded, e.rx) && Slotted(e.tx, e.links) && DistinctIds(e.links)
    ensures |e.tx.packets| <= e.tx.created && e.tx.next == e.tx.created
    ensures e.tx.packets != [] ==> e.tx.next - e.tx.packets[0].num == |e.tx.packets|
    ensures e.rx.consumable != [] ==> Ordered(e.rx.consumable[0].msg)
    ensures CanResend(e.tx) ==> e.tx.packets[e.tx.resend[0] - Base(e.tx)].num == e.tx.resend[0]
  {
  }

  lemma RxMatchesBound(log: seq<ReliableMsg>, rx: Rx)
    requires RxMatches(log, rx)
    ensures rx.next + |rx.buffer| <= |log|
  {
  }

  lemma InitialStreams()
    ensures SenderOk([], [], InitialUser()) && ReaderOk([], [], false, true)
  {
  }

  /** Endpoints start with nothing sent, received or linked. */
  lemma InitialHolds(cfg: Cfg)
    ensures Local(InitialNode(cfg))
  {
    hide Inv, SenderOk, ReaderOk;
    InitialInv(Unbounded, cfg);
    InitialStreams();
  }

  lemma InitialPair(x: Cfg, y: Cfg)
    requires x.remoteRecvBuffer == y.recvBuffer < MODULUS
    ensures Pair(InitialNode(x), InitialNode(y), map[], map[], {})
  {
  }

  lemma StartHolds(s: Sys)
    requires Start(s)
    ensures SysInv(s)
  {
    hide Local, Pair, InitialNode;
    var ca, cb, gated :| Matching(ca, cb) && s == StartOf(ca, cb, gated);
    InitialHolds(ca);
    InitialHolds(cb);
    InitialPair(ca, cb);
    InitialPair(cb, ca);
    InitialTxEmpty(ca);
    InitialTxEmpty(cb);
  }

  lemma InitialTxEmpty(cfg: Cfg)
    ensures InitialNode(cfg).ep.tx.packets == []
  {
  }

  // -------------------------------------------------------------------------- quiet steps

  /** Steps that touch neither packets, receive buffer, credit nor acknowledgements. */
  lemma QuietKeepsPairs(s: Sys, a': Node)
    requires SysInv(s)
    requires a'.ep.tx == s.a.ep.tx && a'.ep.rx == s.a.ep.rx && a'.ep.cfg == s.a.ep.cfg
    requires a'.ep.unconsumed == s.a.ep.unconsumed && SameAcks(s.a.ep.links, a'.ep.links)
    requires a'.hist.log == s.a.hist.log && a'.hist.consumed == s.a.hist.consumed
    ensures Pair(a', s.b, s.ab, s.ba, s.dead) && Pair(s.b, a', s.ba, s.ab, s.dead)
  {
    hide Inv, IdsAdded, LogMatches, WireTrue, RxMatches, AcksTrue, NothingForgotten, NotStranded, SenderOk, ReaderOk,
         InOrder, MissingAt, SameAcks;
    SameAcksKeeps(s.b.ep.tx, s.ba, s.a.ep.rx, s.a.ep.links, a'.ep.links, s.ab, s.dead);
  }

  lemma TouchLocal(num: Numbering, e: Ep, slot: nat, touch: Touch, added: set<LinkId>)
    requires TouchEnabled(e, slot, touch) && IdsAdded(e.links, added)
    requires Inv(num, e)
    ensures var e' := ApplyTouch(e, slot, touch);
            && IdsAdded(e'.links, added) && SameAcks(e.links, e'.links)
            && e'.tx == e.tx && e'.rx == e.rx && e'.cfg == e.cfg && e'.unconsumed == e.unconsumed && e'.user == e.user
            && Inv(num, e')
  {
    hide Inv;
    TouchKeeps(num, e, slot);
    if touch.Idled? {
      ClaimReady(num, e, slot);
      IdleKeeps(num, Claim(e, slot), slot);
    }
  }

  lemma TouchStep(s: Sys, slot: nat, touch: Touch)
    requires Enabled(Unbounded, s, TouchLink(slot, touch))
    requires SysInv(s)
    ensures SysInv(Act(Unbounded, s, TouchLink(slot, touch)))
  {
    hide Inv, IdsAdded, Pair, SenderOk, ReaderOk, SameAcks, ApplyTouch, TouchEnabled;
    var s' := Act(Unbounded, s, TouchLink(slot, touch));
    TouchLocal(Unbounded, s.a.ep, slot, touch, s.a.hist.added);
    QuietKeepsPairs(s, s'.a);
  }

  lemma SameAcksReflexive(links: seq<Option<Link>>)
    ensures SameAcks(links, links)
  {
  }

  lemma CloseReader(consumed: seq<ReliableMsg>, delivered: seq<Bytes>, ended: bool, readOpen: bool)
    requires ReaderOk(consumed, delivered, ended, readOpen)
    ensures ReaderOk(consumed, delivered, ended, false)
  {
  }

  lemma UserKeepsInv(num: Numbering, e: Ep, user: User)
    requires Inv(num, e)
    ensures Inv(num, e.(user := user))
  {
  }

  lemma SenderFrame(log: seq<ReliableMsg>, accepted: seq<Bytes>, user: User, user': User)
    requires SenderOk(log, accepted, user)
    requires user'.writeOpen == user.writeOpen && user'.writeQueue == user.writeQueue
    requires user'.sendFinishSent == user.sendFinishSent
    ensures SenderOk(log, accepted, user')
  {
  }

  lemma UserStep(s: Sys, act: Action)
    requires Enabled(Unbounded, s, act) && (act.Accept? || act.WriteEnd? || act.ReadDropped? || act.ReadClosed?)
    requires SysInv(s)
    ensures SysInv(Act(Unbounded, s, act))
  {
    hide Inv, IdsAdded, Pair, SenderOk, ReaderOk, SameAcks;
    var s' := Act(Unbounded, s, act);
    var h, u := s.a.hist, s.a.ep.user;
    SameAcksReflexive(s.a.ep.links);
    QuietKeepsPairs(s, s'.a);
    UserKeepsInv(Unbounded, s.a.ep, s'.a.ep.user);
    if act.Accept? {
      AcceptKeepsSender(h.log, h.accepted, u, act.data);
    } else if act.WriteEnd? {
      WriteEndKeepsSender(h.log, h.accepted, u);
    } else {
      SenderFrame(h.log, h.accepted, u, s'.a.ep.user);
      CloseReader(h.consumed, h.delivered, h.ended, u.readOpen);
    }
  }

  // ------------------------------------------------------------------------------ sending

  lemma SendKeepsInv(num: Numbering, e: Ep, slot: nat, kind: SendKind, limitReached: bool)
    requires CanSend(num, e, slot, kind)
    requires Inv(num, e)
    ensures Inv(num, Send(num, e, slot, kind, limitReached))
  {
    hide Inv;
    ClaimReady(num, e, slot);
    var e1 := Claim(e, slot);
    SendKeeps(num, e1, slot, MessageOf(e, kind), limitReached);
    AfterSendKeeps(num, SendReliable(num, e1, slot, MessageOf(e, kind), limitReached), kind);
  }

  /** What sending leaves alone. */
  lemma SendFrame(e: Ep, slot: nat, kind: SendKind, limitReached: bool, added: set<LinkId>)
    requires CanSend(Unbounded, e, slot, kind)
    requires IdsAdded(e.links, added)
    ensures var e' := Send(Unbounded, e, slot, kind, limitReached);
            var m := MessageOf(e, kind);
            && SameAcks(e.links, e'.links) && IdsAdded(e'.links, added)
            && e'.cfg == e.cfg && e'.rx == e.rx.(consumed := e'.rx.consumed) && e'.user.readOpen == e.user.readOpen
            && e'.tx == TxAppend(Unbounded, FlushTx(e.tx, IdAt(e, slot), limitReached || FlushesAlways(m)), slot, IdAt(e, slot), m)
  {
  }

  lemma SendWindow(gated: bool, tx: Tx, slot: nat, l: LinkId, m: ReliableMsg, flush: bool)
    requires gated ==> SeqAvail(Unbounded, tx)
    requires tx.packets != [] ==> tx.next - tx.packets[0].num == |tx.packets|
    ensures WithinWindow(gated, TxAppend(Unbounded, FlushTx(tx, l, flush), slot, l, m))
  {
  }

  lemma SendForward(log: seq<ReliableMsg>, tx: Tx, rx: Rx, fwd: Pipes, links: seq<Option<Link>>, rev: Pipes,
                    dead: set<LinkId>, slot: nat, l: LinkId, m: ReliableMsg, flush: bool)
    requires LogMatches(log, tx) && NothingForgotten(tx, rx) && NotStranded(tx, fwd, links, rev, dead)
    requires WireTrue(log, fwd) && tx.next == tx.created
    ensures var tx' := TxAppend(Unbounded, FlushTx(tx, l, flush), slot, l, m);
            var fwd' := Push(fwd, l, Reliable(tx.next, m));
            && LogMatches(log + [m], tx') && NothingForgotten(tx', rx) && NotStranded(tx', fwd', links, rev, dead)
            && WireTrue(log + [m], fwd')
  {
    hide NothingForgotten, NotStranded, WireTrue;
    FlushKeepsTruth(log, tx, rx, fwd, links, rev, dead, l, flush);
    SendKeepsTruth(log, FlushTx(tx, l, flush), rx, fwd, links, rev, dead, slot, l, m);
    GrowKeepsWire(log, m, fwd);
    PushKeepsWire(log + [m], fwd, l, Reliable(tx.next, m));
  }

  lemma GrowKeepsRx(log: seq<ReliableMsg>, rx: Rx, m: ReliableMsg)
    requires RxMatches(log, rx)
    ensures RxMatches(log + [m], rx)
  {
  }

  lemma PushKeepsNotStranded(tx: Tx, fwd: Pipes, links: seq<Option<Link>>, rev: Pipes, dead: set<LinkId>,
                             l: LinkId, f: Frame)
    requires NotStranded(tx, fwd, links, rev, dead)
    ensures NotStranded(tx, fwd, links, Push(rev, l, f), dead)
    ensures NotStranded(tx, Push(fwd, l, f), links, rev, dead)
  {
    forall uid: nat | Kept(tx, uid) && !StatusOf(tx, uid).Received? && LastLink(StatusOf(tx, uid)) !in dead
      ensures UnderWay(fwd, links, Push(rev, l, f), LastLink(StatusOf(tx, uid)), uid)
      ensures UnderWay(Push(fwd, l, f), links, rev, LastLink(StatusOf(tx, uid)), uid)
    {
      assert UnderWay(fwd, links, rev, LastLink(StatusOf(tx, uid)), uid);
      PipeFacts(rev, l, f, LastLink(StatusOf(tx, uid)), uid);
      PipeFacts(fwd, l, f, LastLink(StatusOf(tx, uid)), uid);
    }
  }

  /** A frame of the sender's direction passes the receiver's acknowledgements by. */
  lemma PassBy(tx: Tx, fwd: Pipes, rx: Rx, links: seq<Option<Link>>, links': seq<Option<Link>>, rev: Pipes,
               dead: set<LinkId>, l: LinkId, f: Frame)
    requires SameAcks(links, links') && AcksTrue(rx, links, rev) && NotStranded(tx, fwd, links, rev, dead) && f.Reliable?
    ensures AcksTrue(rx, links', Push(rev, l, f)) && NotStranded(tx, fwd, links', Push(rev, l, f), dead)
  {
    hide AcksTrue, NotStranded, SameAcks;
    SameAcksKeeps(tx, fwd, rx, links, links', rev, dead);
    PushKeepsAcks(rx, links', rev, l, f);
    PushKeepsNotStranded(tx, fwd, links', rev, dead, l, f);
  }

  /** The receive side does not depend on the count of consumed bytes. */
  lemma ConsumedFrame(log: seq<ReliableMsg>, consumed: seq<ReliableMsg>, tx: Tx, links: seq<Option<Link>>, rev: Pipes,
                      rx: Rx, rx': Rx)
    requires rx' == rx.(consumed := rx'.consumed)
    ensures RxMatches(log, rx) ==> RxMatches(log, rx')
    ensures AcksTrue(rx, links, rev) ==> AcksTrue(rx', links, rev)
    ensures NothingForgotten(tx, rx) ==> NothingForgotten(tx, rx')
    ensures InOrder(log, consumed, rx) ==> InOrder(log, consumed, rx')
  {
    forall n: nat
      ensures Got(rx', n) == Got(rx, n)
    {
    }
  }

  lemma SendStep(s: Sys, slot: nat, kind: SendKind, limitReached: bool)
    requires Enabled(Unbounded, s, SendNew(slot, kind, limitReached))
    requires SysInv(s)
    ensures SysInv(Act(Unbounded, s, SendNew(slot, kind, limitReached)))
  {
    hide Inv, IdsAdded, LogMatches, WireTrue, RxMatches, AcksTrue, NothingForgotten, NotStranded, SenderOk, ReaderOk,
         InOrder, Conserved, SameAcks, RxOk, Slotted, DistinctIds, Send, Push, PipeOf, TxAppend, FlushTx, SeqAvail,
         CanResend, MessageOf;
    var s' := Act(Unbounded, s, SendNew(slot, kind, limitReached));
    var e, h := s.a.ep, s.a.hist;
    var m, l := MessageOf(e, kind), IdAt(e, slot);
    var flush := limitReached || FlushesAlways(m);
    InvParts(e);
    InvParts(s.b.ep);
    SendKeepsInv(Unbounded, e, slot, kind, limitReached);
    SendFrame(e, slot, kind, limitReached, h.added);
    SendKeepsSender(h.log, h.accepted, e, slot, kind, limitReached);
    SendWindow(s.gated, e.tx, slot, l, m, flush);
    SendForward(h.log, e.tx, s.b.ep.rx, s.ab, s.b.ep.links, s.ba, s.dead, slot, l, m, flush);
    GrowKeepsRx(h.log, s.b.ep.rx, m);
    SendConserves(s.a, s.b, slot, kind, limitReached);
    RxMatchesBound(h.log, s.b.ep.rx);
    GrowKeepsOrder(h.log, s.b.hist.consumed, s.b.ep.rx, m);
    PassBy(s.b.ep.tx, s.ba, e.rx, e.links, s'.a.ep.links, s.ab, s.dead, l, Reliable(e.tx.next, m));
    ConsumedFrame(s.b.hist.log, h.consumed, s.b.ep.tx, s'.a.ep.links, s'.ab, e.rx, s'.a.ep.rx);
  }

  // ---------------------------------------------------------------------------- resending

  lemma ResendKeepsInv(num: Numbering, e: Ep, slot: nat, limitReached: bool, added: set<LinkId>)
    requires CanResendOver(e, slot)
    requires Inv(num, e) && IdsAdded(e.links, added)
    ensures Inv(num, Resend(e, slot, limitReached))
  {
    hide Inv;
    ClaimReady(num, e, slot);
    ResendKeeps(num, Claim(e, slot), slot, limitReached);
  }

  lemma ResendFrame(e: Ep, slot: nat, limitReached: bool, added: set<LinkId>)
    requires CanResendOver(e, slot)
    requires IdsAdded(e.links, added)
    ensures var e' := Resend(e, slot, limitReached);
            var flush := limitReached || FlushesAlways(StatusOf(e.tx, e.tx.resend[0]).msg);
            && SameAcks(e.links, e'.links) && IdsAdded(e'.links, added)
            && e'.rx == e.rx && e'.user == e.user && e'.cfg == e.cfg && e'.unconsumed == e.unconsumed
            && e'.tx == TxResend(e.tx, slot, IdAt(e, slot), flush) && |e'.tx.packets| == |e.tx.packets|
  {
  }

  lemma ResendForward(log: seq<ReliableMsg>, tx: Tx, rx: Rx, fwd: Pipes, links: seq<Option<Link>>, rev: Pipes,
                      dead: set<LinkId>, slot: nat, l: LinkId, flush: bool)
    requires CanResend(tx)
    requires LogMatches(log, tx) && NothingForgotten(tx, rx) && NotStranded(tx, fwd, links, rev, dead)
    requires WireTrue(log, fwd)
    ensures var tx' := TxResend(tx, slot, l, flush);
            var fwd' := Push(fwd, l, Reliable(tx.resend[0], StatusOf(tx, tx.resend[0]).msg));
            && LogMatches(log, tx') && NothingForgotten(tx', rx) && NotStranded(tx', fwd', links, rev, dead)
            && WireTrue(log, fwd')
  {
    hide NothingForgotten, NotStranded, WireTrue;
    FlushKeepsTruth(log, tx, rx, fwd, links, rev, dead, l, flush);
    ResendKeepsTruth(log, FlushTx(tx, l, flush), rx, fwd, links, rev, dead, slot, l);
    assert Faithful(log[tx.resend[0]], StatusOf(tx, tx.resend[0]));
    PushKeepsWire(log, fwd, l, Reliable(tx.resend[0], StatusOf(tx, tx.resend[0]).msg));
  }

  lemma ResendStep(s: Sys, slot: nat, limitReached: bool)
    requires Enabled(Unbounded, s, SendAgain(slot, limitReached))
    requires SysInv(s)
    ensures SysInv(Act(Unbounded, s, SendAgain(slot, limitReached)))
  {
    hide Inv, IdsAdded, LogMatches, WireTrue, RxMatches, AcksTrue, NothingForgotten, NotStranded, SenderOk, ReaderOk,
         InOrder, MissingAt, SameAcks, RxOk, Slotted, DistinctIds, Resend, Push, PipeOf, TxResend, FlushTx;
    var s' := Act(Unbounded, s, SendAgain(slot, limitReached));
    var e, h, l := s.a.ep, s.a.hist, IdAt(s.a.ep, slot);
    var u := e.tx.resend[0];
    var m := StatusOf(e.tx, u).msg;
    InvParts(e);
    ResendKeepsInv(Unbounded, e, slot, limitReached, h.added);
    ResendFrame(e, slot, limitReached, h.added);
    ResendForward(h.log, e.tx, s.b.ep.rx, s.ab, s.b.ep.links, s.ba, s.dead, slot, l, limitReached || FlushesAlways(m));
    PassBy(s.b.ep.tx, s.ba, e.rx, e.links, s'.a.ep.links, s.ab, s.dead, l, Reliable(u, m));
  }

  // ------------------------------------------------------------------------ acknowledging

  lemma SendAckLocal(num: Numbering, e: Ep, slot: nat, added: set<LinkId>)
    requires Claimable(e, slot) && e.links[slot].value.acks != []
    requires Inv(num, e) && IdsAdded(e.links, added)
    ensures Ready(Claim(e, slot), slot)
    ensures var e' := SendAck(Claim(e, slot), slot); Inv(num, e') && IdsAdded(e'.links, added)
  {
    assert Inv(num, SendAck(Claim(e, slot), slot)) by {
      hide Inv;
      ClaimReady(num, e, slot);
      TouchKeeps(num, Claim(e, slot), slot);
    }
  }

  lemma SendAckStep(s: Sys, slot: nat)
    requires Enabled(Unbounded, s, SendAcknowledgement(slot))
    requires SysInv(s)
    ensures SysInv(Act(Unbounded, s, SendAcknowledgement(slot)))
  {
    hide Inv, IdsAdded, LogMatches, WireTrue, RxMatches, AcksTrue, NothingForgotten, NotStranded, SenderOk, ReaderOk,
         InOrder, MissingAt, Push, PipeOf;
    var s' := Act(Unbounded, s, SendAcknowledgement(slot));
    var e, h, l := s.a.ep, s.a.hist, IdAt(s.a.ep, slot);
    var f := Ack(e.links[slot].value.acks[0]);
    SendAckLocal(Unbounded, e, slot, h.added);
    PushKeepsWire(h.log, s.ab, l, f);
    PushKeepsNotStranded(e.tx, s.ab, s.b.ep.links, s.ba, s.dead, l, f);
    SendAckKeepsTruth(s.b.ep.tx, s.ba, e.rx, e.links, s'.a.ep.links, s.ab, s.dead, slot);
  }

  /** Taking an acknowledgement off a pipe does not concern the copies in it. */
  lemma PopAckKeepsCopies(tx: Tx, fwd: Pipes, links: seq<Option<Link>>, rev: Pipes, dead: set<LinkId>, l: LinkId)
    requires PipeOf(fwd, l) != [] && PipeOf(fwd, l)[0].Ack?
    requires NotStranded(tx, fwd, links, rev, dead)
    ensures NotStranded(tx, Pop(fwd, l), links, rev, dead)
  {
    forall uid: nat | Kept(tx, uid) && !StatusOf(tx, uid).Received? && LastLink(StatusOf(tx, uid)) !in dead
      ensures UnderWay(Pop(fwd, l), links, rev, LastLink(StatusOf(tx, uid)), uid)
    {
      assert UnderWay(fwd, links, rev, LastLink(StatusOf(tx, uid)), uid);
      PopFacts(fwd, l, LastLink(StatusOf(tx, uid)), uid);
    }
  }

  /** Taking a copy off a pipe does not concern the acknowledgements in it. */
  lemma PopCopyKeepsAcks(tx: Tx, fwd: Pipes, links: seq<Option<Link>>, rev: Pipes, dead: set<LinkId>, l: LinkId)
    requires PipeOf(rev, l) != [] && PipeOf(rev, l)[0].Reliable?
    requires NotStranded(tx, fwd, links, rev, dead)
    ensures NotStranded(tx, fwd, links, Pop(rev, l), dead)
  {
    forall uid: nat | Kept(tx, uid) && !StatusOf(tx, uid).Received? && LastLink(StatusOf(tx, uid)) !in dead
      ensures UnderWay(fwd, links, Pop(rev, l), LastLink(StatusOf(tx, uid)), uid)
    {
      assert UnderWay(fwd, links, rev, LastLink(StatusOf(tx, uid)), uid);
      PopFacts(rev, l, LastLink(StatusOf(tx, uid)), uid);
    }
  }

  lemma HeadAckIsTrue(rx: Rx, links: seq<Option<Link>>, rev: Pipes, l: LinkId)
    requires PipeOf(rev, l) != [] && PipeOf(rev, l)[0].Ack?
    requires AcksTrue(rx, links, rev)
    ensures Got(rx, PipeOf(rev, l)[0].num)
  {
    assert l in rev && rev[l][0].Ack?;
  }

  lemma AckFrame(e: Ep, slot: nat, n: nat, added: set<LinkId>)
    requires Occupied(e.links, slot)
    requires IdsAdded(e.links, added)
    ensures var e' := HandleAck(Unbounded, e, slot, n);
            && SameAcks(e.links, e'.links) && IdsAdded(e'.links, added)
            && e'.rx == e.rx && e'.user == e.user && e'.cfg == e.cfg && e'.unconsumed == e.unconsumed
            && e'.tx == TxAck(Unbounded, e.tx, slot, n) && |e'.tx.packets| <= |e.tx.packets|
  {
  }

  lemma ReceiveAckStep(s: Sys, slot: nat)
    requires Enabled(Unbounded, s, Receive(slot)) && PipeOf(s.ba, IdAt(s.a.ep, slot))[0].Ack?
    requires SysInv(s)
    ensures SysInv(Act(Unbounded, s, Receive(slot)))
  {
    hide Inv, IdsAdded, LogMatches, WireTrue, RxMatches, AcksTrue, NothingForgotten, NotStranded, SenderOk, ReaderOk,
         InOrder, MissingAt, SameAcks, RxOk, Slotted, DistinctIds, TxAck, Pop, PipeOf, HandleAck, Got;
    var s' := Act(Unbounded, s, Receive(slot));
    var e, h, l := s.a.ep, s.a.hist, IdAt(s.a.ep, slot);
    var n := PipeOf(s.ba, l)[0].num;
    InvParts(e);
    AckKeeps(Unbounded, e, slot, n);
    AckFrame(e, slot, n, h.added);
    HeadAckIsTrue(s.b.ep.rx, s.b.ep.links, s.ba, l);
    AckKeepsTruth(h.log, e.tx, s.b.ep.rx, slot, n);
    AckStrandsNothing(e.tx, e.links, s.ab, s.b.ep.links, s.ba, s.dead, slot, n);
    PopKeepsAcks(s.b.ep.rx, s.b.ep.links, s.ba, l);
    PopKeepsWire(s.b.hist.log, s.ba, l);
    SameAcksKeeps(s.b.ep.tx, s.ba, e.rx, e.links, s'.a.ep.links, s.ab, s.dead);
    PopAckKeepsCopies(s.b.ep.tx, s.ba, s'.a.ep.links, s.ab, s.dead, l);
  }

  // ---------------------------------------------------------------------------- receiving

  /** The receiver is at or past the oldest number the sender still keeps. */
  lemma ReceiverPastBase(tx: Tx, rx: Rx)
    requires NothingForgotten(tx, rx) && RxOk(Unbounded, rx) && |tx.packets| <= tx.created
    ensures Base(tx) <= rx.next
  {
    assert rx.next < Base(tx) ==> !Got(rx, rx.next);
  }

  /** With the gate on, no honest message is refused for its number. */
  lemma GatedIsPlaced(tx: Tx, rx: Rx, n: nat)
    requires NothingForgotten(tx, rx) && RxOk(Unbounded, rx) && |tx.packets| <= tx.created && n < tx.created
    requires |tx.packets| <= USABLE_INTERVAL + 1
    ensures !Place(Unbounded, rx, n).Refused?
  {
    hide NothingForgotten, RxOk;
    ReceiverPastBase(tx, rx);
  }

  lemma HeadCopyIsTrue(log: seq<ReliableMsg>, p: Pipes, l: LinkId)
    requires PipeOf(p, l) != [] && PipeOf(p, l)[0].Reliable?
    requires WireTrue(log, p)
    ensures var f := PipeOf(p, l)[0]; f.num < |log| && f.msg == log[f.num]
  {
    assert l in p && FrameTrue(log, p[l][0]);
  }

  lemma LogLength(log: seq<ReliableMsg>, tx: Tx)
    requires LogMatches(log, tx)
    ensures |log| == tx.created
  {
  }

  lemma ReceiveFrameKeeps(e: Ep, slot: nat, n: nat, msg: ReliableMsg, added: set<LinkId>)
    requires Occupied(e.links, slot) && HandleReceived(Unbounded, e, slot, n, msg).Ok?
    requires IdsAdded(e.links, added)
    ensures IdsAdded(HandleReceived(Unbounded, e, slot, n, msg).value.links, added)
  {
    RxAfterIsReceived(e, slot, n, msg);
  }

  lemma ReceiveOkStep(s: Sys, slot: nat, n: nat, msg: ReliableMsg)
    requires Enabled(Unbounded, s, Receive(slot)) && PipeOf(s.ba, IdAt(s.a.ep, slot))[0] == Reliable(n, msg)
    requires HandleReceived(Unbounded, s.a.ep, slot, n, msg).Ok?
    requires SysInv(s)
    ensures SysInv(Act(Unbounded, s, Receive(slot)))
  {
    hide Inv, IdsAdded, LogMatches, WireTrue, RxMatches, AcksTrue, NothingForgotten, NotStranded, SenderOk, ReaderOk,
         InOrder, Conserved, RxOk, Slotted, DistinctIds, Pop, PipeOf, HandleReceived, RxAfter;
    var s' := Act(Unbounded, s, Receive(slot));
    var e, h, l := s.a.ep, s.a.hist, IdAt(s.a.ep, slot);
    HeadCopyIsTrue(s.b.hist.log, s.ba, l);
    PopKeepsWire(s.b.hist.log, s.ba, l);
    PopKeepsAcks(s.b.ep.rx, s.b.ep.links, s.ba, l);
    PopCopyKeepsAcks(e.tx, s.ab, s.b.ep.links, s.ba, s.dead, l);
    ReceiveKeeps(Unbounded, e, slot, n, msg);
    ReceiveFrameKeeps(e, slot, n, msg, h.added);
    RxAfterIsReceived(e, slot, n, msg);
    ReceiveConserves(s.b, s.a, slot, n);
    ReceiveInOrder(s.b.hist.log, h.consumed, e.rx, n);
    ReceiveKeepsTruth(s.b.hist.log, s.b.ep.tx, s.ba, e, s.ab, s.dead, slot, n, msg);
    ArrivalKeepsSender(h.log, h.accepted, e, slot, n, msg);
  }

  lemma ReceiveErrStep(s: Sys, slot: nat, n: nat, msg: ReliableMsg)
    requires Enabled(Unbounded, s, Receive(slot)) && PipeOf(s.ba, IdAt(s.a.ep, slot))[0] == Reliable(n, msg)
    requires HandleReceived(Unbounded, s.a.ep, slot, n, msg).Err?
    requires SysInv(s)
    ensures SysInv(Act(Unbounded, s, Receive(slot)))
  {
    hide Inv, IdsAdded, LogMatches, WireTrue, RxMatches, AcksTrue, NothingForgotten, NotStranded, SenderOk, ReaderOk,
         InOrder, MissingAt, RxOk, Slotted, DistinctIds, Pop, PipeOf, HandleReceived, LinkIds;
    var e, l := s.a.ep, IdAt(s.a.ep, slot);
    HeadCopyIsTrue(s.b.hist.log, s.ba, l);
    PopKeepsWire(s.b.hist.log, s.ba, l);
    PopKeepsAcks(s.b.ep.rx, s.b.ep.links, s.ba, l);
    PopCopyKeepsAcks(e.tx, s.ab, s.b.ep.links, s.ba, s.dead, l);
    InvParts(e);
    InvParts(s.b.ep);
    NoFlowError(s.b, s.a, slot, n);
    if s.gated {
      LogLength(s.b.hist.log, s.b.ep.tx);
      GatedIsPlaced(s.b.ep.tx, e.rx, n);
      RefusedOnly(e, slot, n, msg);
    }
    LinkInIds(e.links, slot);
    DyingKeepsNotStranded(s.b.ep.tx, s.ba, e.links, s.ab, s.dead, s.dead + LinkIds(e.links), l);
    DeadGrows(e.tx, s.ab, s.b.ep.links, Pop(s.ba, l), s.dead, s.dead + LinkIds(e.links));
  }

  lemma LinkInIds(links: seq<Option<Link>>, slot: nat)
    requires Occupied(links, slot)
    ensures links[slot].value.id in LinkIds(links)
  {
  }

  lemma DeadGrows(tx: Tx, fwd: Pipes, links: seq<Option<Link>>, rev: Pipes, dead: set<LinkId>, dead': set<LinkId>)
    requires NotStranded(tx, fwd, links, rev, dead) && dead <= dead'
    ensures NotStranded(tx, fwd, links, rev, dead')
  {
  }

  lemma DyingKeepsNotStranded(tx: Tx, fwd: Pipes, links: seq<Option<Link>>, rev: Pipes, dead: set<LinkId>,
                              dead': set<LinkId>, l: LinkId)
    requires PipeOf(fwd, l) != []
    requires NotStranded(tx, fwd, links, rev, dead) && dead <= dead' && l in dead'
    ensures NotStranded(tx, Pop(fwd, l), links, rev, dead')
  {
    forall uid: nat | Kept(tx, uid) && !StatusOf(tx, uid).Received? && LastLink(StatusOf(tx, uid)) !in dead'
      ensures UnderWay(Pop(fwd, l), links, rev, LastLink(StatusOf(tx, uid)), uid)
    {
      assert UnderWay(fwd, links, rev, LastLink(StatusOf(tx, uid)), uid);
      PopFacts(fwd, l, LastLink(StatusOf(tx, uid)), uid);
    }
  }

  lemma RefusedOnly(e: Ep, slot: nat, n: nat, msg: ReliableMsg)
    requires Occupied(e.links, slot)
    ensures HandleReceived(Unbounded, e, slot, n, msg) == Err(SequenceUnderflow) <==> Place(Unbounded, e.rx, n).Refused?
  {
  }

  // --------------------------------------------------------------------- links come and go

  lemma UnconfirmFrame(e: Ep, slot: nat, added: set<LinkId>)
    requires Occupied(e.links, slot)
    requires IdsAdded(e.links, added)
    ensures var e' := UnconfirmLink(e, slot);
            && SameAcks(e.links, e'.links) && IdsAdded(e'.links, added)
            && e'.rx == e.rx && e'.user == e.user && e'.cfg == e.cfg && e'.unconsumed == e.unconsumed
            && e'.tx == TxRequeue(e.tx, slot) && |e'.tx.packets| == |e.tx.packets|
  {
  }

  lemma UnconfirmStep(s: Sys, slot: nat)
    requires Enabled(Unbounded, s, Unconfirm(slot))
    requires SysInv(s)
    ensures SysInv(Act(Unbounded, s, Unconfirm(slot)))
  {
    hide Inv, IdsAdded, LogMatches, WireTrue, RxMatches, AcksTrue, NothingForgotten, NotStranded, SenderOk, ReaderOk,
         InOrder, MissingAt, SameAcks, UnconfirmLink, TxRequeue;
    var s' := Act(Unbounded, s, Unconfirm(slot));
    var e, h := s.a.ep, s.a.hist;
    UnconfirmKeeps(Unbounded, e, slot);
    UnconfirmFrame(e, slot, h.added);
    RequeueKeepsTruth(h.log, e.tx, s.b.ep.rx, s.ab, s.b.ep.links, s.ba, s.dead, s.dead, slot);
    SameAcksKeeps(s.b.ep.tx, s.ba, e.rx, e.links, s'.a.ep.links, s.ab, s.dead);
  }

  lemma FlushFrame(e: Ep, slot: nat, added: set<LinkId>)
    requires Occupied(e.links, slot)
    requires IdsAdded(e.links, added)
    ensures var e' := FlushLink(e, slot);
            && SameAcks(e.links, e'.links) && IdsAdded(e'.links, added)
            && e'.rx == e.rx && e'.user == e.user && e'.cfg == e.cfg && e'.unconsumed == e.unconsumed
            && e'.tx == FlushTx(e.tx, IdAt(e, slot), true) && |e'.tx.packets| == |e.tx.packets|
  {
  }

  lemma FlushStep(s: Sys, slot: nat)
    requires Enabled(Unbounded, s, Flush(slot))
    requires SysInv(s)
    ensures SysInv(Act(Unbounded, s, Flush(slot)))
  {
    hide Inv, IdsAdded, LogMatches, WireTrue, RxMatches, AcksTrue, NothingForgotten, NotStranded, SenderOk, ReaderOk,
         InOrder, MissingAt, SameAcks, FlushLink, FlushTx;
    var s' := Act(Unbounded, s, Flush(slot));
    var e, h := s.a.ep, s.a.hist;
    FlushKeeps(Unbounded, e, slot);
    FlushFrame(e, slot, h.added);
    FlushKeepsTruth(h.log, e.tx, s.b.ep.rx, s.ab, s.b.ep.links, s.ba, s.dead, IdAt(e, slot), true);
    SameAcksKeeps(s.b.ep.tx, s.ba, e.rx, e.links, s'.a.ep.links, s.ab, s.dead);
  }

  lemma RemoveFrame(e: Ep, slot: nat, added: set<LinkId>)
    requires Occupied(e.links, slot)
    requires IdsAdded(e.links, added)
    ensures var e' := RemoveLink(e, slot);
            && IdsAdded(e'.links, added)
            && e'.rx == e.rx && e'.user == e.user && e'.cfg == e.cfg && e'.unconsumed == e.unconsumed
            && e'.tx == TxRequeue(e.tx, slot) && |e'.tx.packets| == |e.tx.packets|
  {
    TrimExact(UnconfirmLink(e, slot).links[slot := None]);
  }

  lemma RemoveStep(s: Sys, slot: nat)
    requires Enabled(Unbounded, s, Remove(slot))
    requires SysInv(s)
    ensures SysInv(Act(Unbounded, s, Remove(slot)))
  {
    hide Inv, IdsAdded, LogMatches, WireTrue, RxMatches, AcksTrue, NothingForgotten, NotStranded, SenderOk, ReaderOk,
         InOrder, MissingAt, RemoveLink, TxRequeue;
    var e, h := s.a.ep, s.a.hist;
    var dead' := s.dead + {IdAt(e, slot)};
    RemoveKeeps(Unbounded, e, slot);
    RemoveFrame(e, slot, h.added);
    RequeueKeepsTruth(h.log, e.tx, s.b.ep.rx, s.ab, s.b.ep.links, s.ba, s.dead, dead', slot);
    RemoveKeepsTruth(s.b.ep.tx, s.ba, e.rx, e, s.ab, s.dead, slot);
  }

  lemma AddLocal(num: Numbering, e: Ep, l: LinkId, tested: bool, limit: nat, added: set<LinkId>)
    requires l !in added
    requires Inv(num, e) && IdsAdded(e.links, added)
    ensures var e' := AddLink(e, l, tested, limit);
            && Inv(num, e') && IdsAdded(e'.links, added + {l})
            && e'.tx == e.tx && e'.rx == e.rx && e'.user == e.user && e'.cfg == e.cfg && e'.unconsumed == e.unconsumed
  {
    assert Inv(num, AddLink(e, l, tested, limit)) by {
      hide Inv;
      AddKeeps(num, e, l, tested, limit);
    }
  }

  lemma AddStep(s: Sys, l: LinkId, tested: bool, limit: nat)
    requires Enabled(Unbounded, s, Add(l, tested, limit))
    requires SysInv(s)
    ensures SysInv(Act(Unbounded, s, Add(l, tested, limit)))
  {
    hide Inv, IdsAdded, LogMatches, WireTrue, RxMatches, AcksTrue, NothingForgotten, NotStranded, SenderOk, ReaderOk,
         InOrder, MissingAt, AddLink;
    AddLocal(Unbounded, s.a.ep, l, tested, limit, s.a.hist.added);
    AddKeepsTruth(s.b.ep.tx, s.ba, s.a.ep.rx, s.a.ep, s.ab, s.dead, l, tested, limit);
  }

  lemma KillStep(s: Sys, l: LinkId, keepOut: nat, keepIn: nat)
    requires Enabled(Unbounded, s, Kill(l, keepOut, keepIn))
    requires SysInv(s)
    ensures SysInv(Act(Unbounded, s, Kill(l, keepOut, keepIn)))
  {
    hide Inv, IdsAdded, Direction, SenderOk, ReaderOk, InOrder, MissingAt, Cut;
    KillKeepsDirection(s.a, s.b, s.ab, s.ba, s.dead, l, keepOut, keepIn);
    KillKeepsDirection(s.b, s.a, s.ba, s.ab, s.dead, l, keepIn, keepOut);
  }

  // ---------------------------------------------------------------------------- consuming

  lemma SenderFinishLast(log: seq<ReliableMsg>, accepted: seq<Bytes>, user: User)
    requires SenderOk(log, accepted, user)
    ensures FinishLast(log)
  {
  }

  /** The receive side, but for the queue of the user, does not change by consuming. */
  lemma ConsumeFrame(log: seq<ReliableMsg>, tx: Tx, e: Ep, rev: Pipes)
    requires e.rx.consumable != []
    ensures var e' := Consume(e);
            && e'.tx == e.tx && e'.links == e.links && e'.cfg == e.cfg && e'.unconsumed == e.unconsumed
            && (RxMatches(log, e.rx) ==> RxMatches(log, e'.rx))
            && (AcksTrue(e.rx, e.links, rev) ==> AcksTrue(e'.rx, e'.links, rev))
            && (NothingForgotten(tx, e.rx) ==> NothingForgotten(tx, e'.rx))
            && e'.rx.next == e.rx.next && e'.rx.buffer == e.rx.buffer
            && e'.user == e.user.(readOpen := e'.user.readOpen, receiveFinishSent := e'.user.receiveFinishSent)
  {
    forall n: nat
      ensures Got(Consume(e).rx, n) == Got(e.rx, n)
    {
    }
  }

  lemma ConsumeStep(s: Sys)
    requires Enabled(Unbounded, s, ConsumeNext)
    requires SysInv(s)
    ensures SysInv(Act(Unbounded, s, ConsumeNext))
  {
    hide Inv, IdsAdded, LogMatches, WireTrue, RxMatches, AcksTrue, NothingForgotten, NotStranded, SenderOk, ReaderOk,
         InOrder, Conserved, FinishLast, RxOk, Slotted, DistinctIds, Consume, MissingAt;
    var s' := Act(Unbounded, s, ConsumeNext);
    var e, h := s.a.ep, s.a.hist;
    InvParts(e);
    ConsumeKeeps(Unbounded, e);
    ConsumeFrame(s.b.hist.log, s.b.ep.tx, e, s.ab);
    SenderFinishLast(s.b.hist.log, s.b.hist.accepted, s.b.ep.user);
    ConsumeKeepsStream(s.b.hist.log, s.a);
    SenderFrame(h.log, h.accepted, e.user, s'.a.ep.user);
    ConsumeConserves(s.b, s.a);
    ConservedFrame(s.a, s.b, s'.a);
    ConservedPeer(s.b, s.a.(ep := s'.a.ep), s'.a);
  }

  lemma ConservedFrame(x: Node, y: Node, x': Node)
    requires Conserved(x, y)
    requires x'.ep.unconsumed == x.ep.unconsumed && x'.hist.log == x.hist.log
    requires x'.ep.rx.next == x.ep.rx.next && x'.ep.rx.buffer == x.ep.rx.buffer
    ensures Conserved(x', y)
  {
  }

  lemma ConservedPeer(x: Node, y: Node, y': Node)
    requires Conserved(x, y) && y'.ep == y.ep && y'.hist.log == y.hist.log
    ensures Conserved(x, y')
  {
  }

  // ------------------------------------------------------------------------------ all runs

  lemma ActKeeps(s: Sys, act: Action)
    requires Enabled(Unbounded, s, act)
    requires SysInv(s)
    ensures SysInv(Act(Unbounded, s, act))
  {
    hide SysInv, Act, HandleReceived, PipeOf;
    match act
    case Accept(_) => UserStep(s, act);
    case SendNew(slot, kind, limitReached) => SendStep(s, slot, kind, limitReached);
    case SendAgain(slot, limitReached) => ResendStep(s, slot, limitReached);
    case SendAcknowledgement(slot) => SendAckStep(s, slot);
    case Receive(slot) =>
      match PipeOf(s.ba, IdAt(s.a.ep, slot))[0] {
        case Ack(_) => ReceiveAckStep(s, slot);
        case Reliable(n, msg) =>
          if HandleReceived(Unbounded, s.a.ep, slot, n, msg).Ok? {
            ReceiveOkStep(s, slot, n, msg);
          } else {
            ReceiveErrStep(s, slot, n, msg);
          }
      }
    case Unconfirm(slot) => UnconfirmStep(s, slot);
    case Flush(slot) => FlushStep(s, slot);
    case Remove(slot) => RemoveStep(s, slot);
    case Add(link, tested, limit) => AddStep(s, link, tested, limit);
    case TouchLink(slot, touch) => TouchStep(s, slot, touch);
    case ConsumeNext => ConsumeStep(s);
    case WriteEnd => UserStep(s, act);
    case ReadDropped => UserStep(s, act);
    case ReadClosed => UserStep(s, act);
    case Kill(link, keepOut, keepIn) => KillStep(s, link, keepOut, keepIn);
  }

  lemma StepKeeps(s: Sys, s': Sys)
    requires Step(Unbounded, s, s')
    requires SysInv(s)
    ensures SysInv(s')
  {
    hide SysInv, Enabled, Act;
    if StepAtA(Unbounded, s, s') {
      var act :| Enabled(Unbounded, s, act) && s' == Act(Unbounded, s, act);
      ActKeeps(s, act);
    } else {
      var act :| Enabled(Unbounded, Swap(s), act) && Swap(s') == Act(Unbounded, Swap(s), act);
      SwapKeeps(s);
      ActKeeps(Swap(s), act);
      SwapKeeps(Swap(s'));
      assert Swap(Swap(s')) == s';
    }
  }

  lemma RunStarts(run: seq<Sys>)
    requires IsRun(Unbounded, run)
    ensures |run| > 0 && Start(run[0])
  {
    hide Step, Start;
  }

  lemma RunHasSteps(run: seq<Sys>, i: nat)
    requires IsRun(Unbounded, run) && 0 < i < |run|
    ensures Step(Unbounded, run[i - 1], run[i])
  {
    hide Step, Start;
    assert Step(Unbounded, run[i - 1], run[i - 1 + 1]);
  }

  /** The invariant holds in every state of every run. */
  lemma {:induction false} RunKeeps(run: seq<Sys>, i: nat)
    requires IsRun(Unbounded, run) && i < |run|
    ensures SysInv(run[i])
  {
    hide *;
    RunStarts(run);
    if i == 0 {
      StartHolds(run[0]);
    } else {
      RunKeeps(run, i - 1);
      RunHasSteps(run, i);
      StepKeeps(run[i - 1], run[i]);
    }
  }
}
