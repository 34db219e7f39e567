/** What a connection guarantees in every state of every run. */
module Guarantees {
  import opened Numbering
  import opened Protocol
  import opened Invariants
  import opened System
  import opened Truth
  import opened Credit
  import opened Stream
  import opened Runs
  import opened Wraparound

  // -------------------------------------------------------------------------- delivery

  ghost predicate Delivers(x: Node, y: Node) {
    && y.hist.delivered <= DataPart(x.hist.log) <= x.hist.accepted
    && (y.hist.ended ==> y.hist.delivered == x.hist.accepted)
  }

  /** In both directions, the data handed to the receiving user is a prefix of the data sent, which is a prefix of the
      data accepted from the sending user, and a clean end of the stream is reported only when it is all of it. */
  lemma EndToEndDelivery(run: seq<Sys>, i: nat)
    requires IsRun(Unbounded, run) && i < |run|
    ensures Delivers(run[i].a, run[i].b) && Delivers(run[i].b, run[i].a)
  {
    RunKeeps(run, i);
    hide *;
    DeliversHere(run[i]);
    DeliversHere(Swap(run[i])) by {
      SwapKeeps(run[i]);
    }
    SwapSides(run[i]);
  }

  lemma SwapSides(s: Sys)
    ensures Swap(s).a == s.b && Swap(s).b == s.a && Swap(s).ab == s.ba && Swap(s).ba == s.ab
    ensures Swap(s).dead == s.dead && Swap(s).gated == s.gated && Swap(s).haltA == s.haltB && Swap(s).haltB == s.haltA
  {
  }

  lemma DeliversHere(s: Sys)
    requires SysInv(s)
    ensures Delivers(s.a, s.b)
  {
    hide Inv, IdsAdded, LogMatches, WireTrue, RxMatches, AcksTrue, NothingForgotten, NotStranded, SenderOk, ReaderOk,
         InOrder, MissingAt;
    DeliveredIsPrefix(s.a, s.b);
    if s.b.hist.ended {
      EndedIsComplete(s.a, s.b);
    }
  }

  // ------------------------------------------------------------------ local consistency

  /** In every state, the queues, counters, packet lists and slots of both endpoints agree with each other. */
  lemma EndpointsStayConsistent(run: seq<Sys>, i: nat)
    requires IsRun(Unbounded, run) && i < |run|
    ensures Inv(Unbounded, run[i].a.ep) && Inv(Unbounded, run[i].b.ep)
  {
    RunKeeps(run, i);
    hide Inv, Pair;
  }

  /** A packet that waits to be resent is in no link's own list: marking the packets of a link as flushed while one is
      being resent does not touch it. */
  lemma QueuedIsUnlisted(num: Numbering, e: Ep, slot: nat, uid: nat)
    requires Occupied(e.links, slot) && uid in e.tx.resend
    requires Inv(num, e)
    ensures uid !in e.links[slot].value.txed
    ensures Kept(e.tx, uid)
    ensures Kept(FlushTx(e.tx, e.links[slot].value.id, true), uid)
    ensures StatusOf(FlushTx(e.tx, e.links[slot].value.id, true), uid) == StatusOf(e.tx, uid)
  {
    QueuedIsExact(e.tx.packets, Base(e.tx));
    assert StatusOf(e.tx, uid).ResendQueued?;
    var link := e.links[slot].value;
    assert ListOk(e.tx, link);
    assert !EntryOk(e.tx, link.id, uid);
  }

  // ------------------------------------------------------------- nothing is forgotten

  /** Number `n` of the log of `x` is either received by `y`, or still kept by `x` with its original message;
      and it is marked as received or dropped only when `y` has it. */
  ghost predicate Remembered(x: Node, y: Node, n: nat)
    requires n < |x.hist.log|
  {
    && (Got(y.ep.rx, n)
        || (Kept(x.ep.tx, n) && !StatusOf(x.ep.tx, n).Received? && StatusOf(x.ep.tx, n).msg == x.hist.log[n]))
    && (!Kept(x.ep.tx, n) || StatusOf(x.ep.tx, n).Received? ==> Got(y.ep.rx, n))
  }

  lemma NothingIsForgotten(run: seq<Sys>, i: nat, n: nat)
    requires IsRun(Unbounded, run) && i < |run| && n < |run[i].a.hist.log|
    ensures Remembered(run[i].a, run[i].b, n)
  {
    RunKeeps(run, i);
    var s := run[i];
    RememberedHere(s.a.hist.log, s.a.ep.tx, s.b.ep.rx, n) by {
      hide Inv, NotStranded, AcksTrue, WireTrue, InOrder, SenderOk, ReaderOk;
    }
  }

  lemma RememberedHere(log: seq<ReliableMsg>, tx: Tx, rx: Rx, n: nat)
    requires LogMatches(log, tx) && NothingForgotten(tx, rx) && n < |log|
    ensures Got(rx, n) || (Kept(tx, n) && !StatusOf(tx, n).Received? && StatusOf(tx, n).msg == log[n])
    ensures !Kept(tx, n) || StatusOf(tx, n).Received? ==> Got(rx, n)
  {
    if Kept(tx, n) {
      assert Faithful(log[n], StatusOf(tx, n));
    }
  }

  // ------------------------------------------------------------------- nothing is stranded

  /** A packet that is not acknowledged and whose last link lives: its copy is in the forward pipe of this link,
      or its number is in the peer's queue of acknowledgements for this link, or the acknowledgement is in the
      reverse pipe. */
  lemma NoPacketIsStranded(run: seq<Sys>, i: nat, uid: nat)
    requires IsRun(Unbounded, run) && i < |run|
    requires Kept(run[i].a.ep.tx, uid) && !StatusOf(run[i].a.ep.tx, uid).Received?
    requires LastLink(StatusOf(run[i].a.ep.tx, uid)) !in run[i].dead
    ensures var s, l := run[i], LastLink(StatusOf(run[i].a.ep.tx, uid));
            HasReliable(PipeOf(s.ab, l), uid) || Owed(s.b.ep.links, l, uid) || HasAck(PipeOf(s.ba, l), uid)
  {
    RunKeeps(run, i);
    hide Inv, LogMatches, NothingForgotten, AcksTrue, WireTrue, InOrder, SenderOk, ReaderOk;
  }

  // ------------------------------------------------------------------------------- credit

  ghost predicate CreditOk(x: Node, y: Node) {
    && Conserved(x, y)
    && 0 <= x.ep.unconsumed <= y.ep.cfg.recvBuffer
    && 0 <= y.ep.rx.size <= y.ep.cfg.recvBuffer
    && y.ep.rx.consumed % MODULUS == y.ep.rx.consumed
  }

  /** Conservation of credit in both directions, and its consequences: the buffers are never overrun, no counter is
      negative, the cast of the consumed bytes to 32 bits loses nothing, and no endpoint ends with an error of flow
      control. */
  lemma CreditIsConserved(run: seq<Sys>, i: nat)
    requires IsRun(Unbounded, run) && i < |run|
    ensures CreditOk(run[i].a, run[i].b) && CreditOk(run[i].b, run[i].a)
    ensures run[i].haltA.Some? ==> run[i].haltA.value == SequenceUnderflow
  {
    RunKeeps(run, i);
    hide IsRun, Direction, InOrder, SenderOk, ReaderOk, Inv, IdsAdded, Conserved, Bounded, CreditOk;
    RxNonNegative(run[i].a.ep);
    RxNonNegative(run[i].b.ep);
    CreditHere(run[i].a, run[i].b);
    CreditHere(run[i].b, run[i].a);
  }

  lemma CreditHere(x: Node, y: Node)
    requires Conserved(x, y) && Bounded(x, y) && x.ep.unconsumed >= 0 && y.ep.rx.size >= 0 && y.ep.rx.consumed >= 0
    ensures CreditOk(x, y)
  {
  }

  lemma RxNonNegative(e: Ep)
    requires Inv(Unbounded, e)
    ensures e.rx.size >= 0 && e.rx.consumed >= 0 && e.unconsumed >= 0
    ensures e.tx.unacked >= 0 && e.tx.unconsumable >= 0
  {
  }

  // --------------------------------------------------------------------------- the window

  /** When every reliable message waits for a free number, the receiver is at or past the oldest number the sender
      keeps and no message is ever refused: no endpoint ends with a protocol error. */
  lemma GatedRunsNeverHalt(run: seq<Sys>, i: nat)
    requires IsRun(Unbounded, run) && i < |run| && run[i].gated
    ensures run[i].haltA.None? && run[i].haltB.None?
    ensures Base(run[i].a.ep.tx) <= run[i].b.ep.rx.next
    ensures |run[i].a.ep.tx.packets| <= USABLE_INTERVAL + 1
  {
    RunKeeps(run, i);
    hide LogMatches, NothingForgotten, AcksTrue, WireTrue, InOrder, SenderOk, ReaderOk, NotStranded, Inv, RxOk;
    InvParts(run[i].a.ep);
    InvParts(run[i].b.ep);
    ReceiverPastBase(run[i].a.ep.tx, run[i].b.ep.rx);
  }

  /** Of what arrives from an honest peer, exactly the messages more than the usable interval ahead are refused. */
  lemma RefusedIffFarAhead(run: seq<Sys>, i: nat, slot: nat)
    requires IsRun(Unbounded, run) && i < |run| && Occupied(run[i].a.ep.links, slot)
    requires PipeOf(run[i].ba, IdAt(run[i].a.ep, slot)) != [] && PipeOf(run[i].ba, IdAt(run[i].a.ep, slot))[0].Reliable?
    ensures var e, f := run[i].a.ep, PipeOf(run[i].ba, IdAt(run[i].a.ep, slot))[0];
            HandleReceived(Unbounded, e, slot, f.num, f.msg).Err? <==> f.num > e.rx.next + USABLE_INTERVAL
  {
    RunKeeps(run, i);
    var s := run[i];
    var l := IdAt(s.a.ep, slot);
    var f := PipeOf(s.ba, l)[0];
    hide IsRun, SysInv, HandleReceived;
    HonestHead(s, slot);
    RefusedOnly(s.a.ep, slot, f.num, f.msg);
    RefusedIsAhead(s.a.ep.rx, f.num);
  }

  lemma RefusedIsAhead(rx: Rx, n: nat)
    ensures Place(Unbounded, rx, n).Refused? <==> n > rx.next + USABLE_INTERVAL
  {
  }

  lemma HonestHead(s: Sys, slot: nat)
    requires Occupied(s.a.ep.links, slot)
    requires PipeOf(s.ba, IdAt(s.a.ep, slot)) != [] && PipeOf(s.ba, IdAt(s.a.ep, slot))[0].Reliable?
    requires SysInv(s)
    ensures var f := PipeOf(s.ba, IdAt(s.a.ep, slot))[0];
            var r := HandleReceived(Unbounded, s.a.ep, slot, f.num, f.msg);
            r.Err? ==> r == Err(SequenceUnderflow)
  {
    hide Inv, IdsAdded, LogMatches, WireTrue, AcksTrue, NothingForgotten, NotStranded, SenderOk, ReaderOk, InOrder,
         MissingAt, RxOk, HandleReceived, RxMatches, PipeOf, Slotted, DistinctIds;
    HeadCopyIsTrue(s.b.hist.log, s.ba, IdAt(s.a.ep, slot));
    InvParts(s.a.ep);
    InvParts(s.b.ep);
    NoFlowError(s.b, s.a, slot, PipeOf(s.ba, IdAt(s.a.ep, slot))[0].num);
  }

  /** A number that arrives is not too far ahead. */
  lemma ArrivingNumber(s: Sys, l: LinkId)
    requires s.gated && PipeOf(s.ba, l) != []
    requires SysInv(s)
    ensures match PipeOf(s.ba, l)[0]
            case Reliable(n, _) => n <= s.a.ep.rx.next + USABLE_INTERVAL
            case Ack(n) => n < s.a.ep.tx.next
  {
    hide Inv, LogMatches, NothingForgotten, AcksTrue, WireTrue, InOrder, SenderOk, ReaderOk, NotStranded, RxOk, RxMatches;
    InvParts(s.a.ep);
    InvParts(s.b.ep);
    LogLength(s.b.hist.log, s.b.ep.tx);
    LogLength(s.a.hist.log, s.a.ep.tx);
    if PipeOf(s.ba, l)[0].Reliable? {
      HeadCopyIsTrue(s.b.hist.log, s.ba, l);
      ReceiverPastBase(s.b.ep.tx, s.a.ep.rx);
    } else {
      HeadAckIsTrue(s.b.ep.rx, s.b.ep.links, s.ba, l);
      RxMatchesBound(s.a.hist.log, s.b.ep.rx);
    }
  }

  /** When every reliable message waits for a free number, only age takes a frame out of the window in which 32-bit
      numbers can be told apart; a younger one is handled exactly as with unbounded numbers. */
  lemma OnlyAgeLeavesWindow(run: seq<Sys>, i: nat, slot: nat)
    requires IsRun(Unbounded, run) && i < |run| && run[i].gated && Occupied(run[i].a.ep.links, slot)
    requires PipeOf(run[i].ba, IdAt(run[i].a.ep, slot)) != []
    ensures var e := run[i].a.ep;
            match PipeOf(run[i].ba, IdAt(e, slot))[0]
            case Reliable(n, msg) =>
              e.rx.next - n <= ONE_QUARTER ==>
                NarrowResult(HandleReceived(Unbounded, e, slot, n, msg))
                == HandleReceived(Wrapping, Narrow(e), slot, n % MODULUS, msg)
            case Ack(n) =>
              e.tx.next - n < HALF ==> Narrow(HandleAck(Unbounded, e, slot, n)) == HandleAck(Wrapping, Narrow(e), slot, n % MODULUS)
  {
    RunKeeps(run, i);
    var s := run[i];
    hide IsRun, SysInv, HandleReceived, HandleAck, Narrow, NarrowResult;
    ArrivingNumber(s, IdAt(s.a.ep, slot));
    match PipeOf(s.ba, IdAt(s.a.ep, slot))[0]
    case Reliable(n, msg) =>
      if s.a.ep.rx.next - n <= ONE_QUARTER {
        ReceiveNarrows(s.a.ep, slot, n, msg);
      }
    case Ack(n) =>
      if s.a.ep.tx.next - n < HALF {
        AckNarrows(s.a.ep, slot, n);
      }
  }

  // ----------------------------------------------------------------------------- shutdown

  ghost predicate NoAcks(links: seq<Option<Link>>) {
    forall s | 0 <= s < |links| && links[s].Some? :: links[s].value.acks == []
  }

  ghost predicate NoneOnDead(tx: Tx, dead: set<LinkId>) {
    forall uid: nat | Kept(tx, uid) && StatusOf(tx, uid).Sent? :: StatusOf(tx, uid).link !in dead
  }

  /** Endpoint `x` has nothing left to do: no resend, no acknowledgement, no message to consume and no send is due,
      and nothing is believed to be on a link that is dead. */
  ghost predicate AtRest(x: Node, dead: set<LinkId>) {
    && x.ep.tx.resend == [] && NoAcks(x.ep.links) && NoneOnDead(x.ep.tx, dead)
    && x.ep.rx.consumable == []
    && !Due(Unbounded, x.ep, OfConsumed) && !Due(Unbounded, x.ep, OfReceiveFinish) && !Due(Unbounded, x.ep, OfSendFinish)
  }

  ghost predicate NothingUnderWay(s: Sys) {
    forall l: LinkId :: PipeOf(s.ab, l) == [] && PipeOf(s.ba, l) == []
  }

  lemma OldestIsUnderWay(tx: Tx, fwd: Pipes, links: seq<Option<Link>>, rev: Pipes, dead: set<LinkId>)
    requires TxOk(Unbounded, tx) && NotStranded(tx, fwd, links, rev, dead)
    requires tx.resend == [] && NoneOnDead(tx, dead) && tx.packets != []
    ensures exists l: LinkId, n: nat :: UnderWay(fwd, links, rev, l, n)
  {
    var uid := Base(tx);
    assert Kept(tx, uid) && StatusOf(tx, uid) == tx.packets[0].status;
    QueuedIsExact(tx.packets, Base(tx));
    assert UnderWay(fwd, links, rev, StatusOf(tx, uid).link, uid);
  }

  lemma RestMeansEmpty(tx: Tx, fwd: Pipes, links: seq<Option<Link>>, rev: Pipes, dead: set<LinkId>)
    requires TxOk(Unbounded, tx) && NotStranded(tx, fwd, links, rev, dead)
    requires tx.resend == [] && NoneOnDead(tx, dead) && NoAcks(links)
    requires forall l: LinkId :: PipeOf(fwd, l) == [] && PipeOf(rev, l) == []
    ensures tx.packets == []
  {
    assert forall l: LinkId, n: nat :: !UnderWay(fwd, links, rev, l, n);
    hide NotStranded, NoneOnDead, TxOk, UnderWay;
    if tx.packets != [] {
      OldestIsUnderWay(tx, fwd, links, rev, dead);
      assert false;
    }
  }

  lemma EmptyMeansArrived(log: seq<ReliableMsg>, tx: Tx, rx: Rx)
    requires LogMatches(log, tx) && NothingForgotten(tx, rx) && RxMatches(log, rx) && RxOk(Unbounded, rx)
    requires tx.packets == []
    ensures rx.next == |log| && rx.buffer == []
  {
    assert rx.next < |log| ==> !Got(rx, rx.next);
  }

  lemma ArrivedMeansNothingMissing(kind: Kind, log: seq<ReliableMsg>, rx: Rx)
    requires rx.next == |log|
    ensures MissingAt(kind, log, rx) == 0
  {
  }

  lemma InvTxRx(e: Ep)
    requires Inv(Unbounded, e)
    ensures TxOk(Unbounded, e.tx) && RxOk(Unbounded, e.rx)
    ensures e.rx.buffer == [] && e.rx.consumable == [] ==> e.rx.size == 0
    ensures e.rx.consumed >= 0
  {
  }

  /** Shutdown does not wedge: with both halves closed at both ends and nothing left to do anywhere, the condition
      for a graceful end holds at both ends. */
  lemma ShutdownNeverWedges(run: seq<Sys>, i: nat)
    requires IsRun(Unbounded, run) && i < |run|
    requires !run[i].a.ep.user.readOpen && !run[i].a.ep.user.writeOpen
    requires !run[i].b.ep.user.readOpen && !run[i].b.ep.user.writeOpen
    requires AtRest(run[i].a, run[i].dead) && AtRest(run[i].b, run[i].dead) && NothingUnderWay(run[i])
    ensures ExitReady(run[i].a.ep) && ExitReady(run[i].b.ep)
  {
    RunKeeps(run, i);
    var s := run[i];
    hide Inv, IdsAdded, LogMatches, WireTrue, RxMatches, AcksTrue, NothingForgotten, NotStranded, SenderOk, ReaderOk,
         InOrder, MissingAt, TxOk, RxOk, NoAcks, NoneOnDead, IsRun;
    InvTxRx(s.a.ep);
    InvTxRx(s.b.ep);
    RestMeansEmpty(s.a.ep.tx, s.ab, s.b.ep.links, s.ba, s.dead);
    RestMeansEmpty(s.b.ep.tx, s.ba, s.a.ep.links, s.ab, s.dead);
    EmptyMeansArrived(s.a.hist.log, s.a.ep.tx, s.b.ep.rx);
    EmptyMeansArrived(s.b.hist.log, s.b.ep.tx, s.a.ep.rx);
    ArrivedMeansNothingMissing(Payload, s.a.hist.log, s.b.ep.rx);
    ArrivedMeansNothingMissing(Returned, s.a.hist.log, s.b.ep.rx);
    ArrivedMeansNothingMissing(Payload, s.b.hist.log, s.a.ep.rx);
    ArrivedMeansNothingMissing(Returned, s.b.hist.log, s.a.ep.rx);
  }

  ghost predicate AllEmpty(q: seq<Arrival>) {
    forall k | 0 <= k < |q| :: Size(q[k].msg) == 0
  }

  lemma {:induction false} NoBytesMeansEmpty(q: seq<Arrival>)
    requires ConsumableBytes(q) == 0
    ensures AllEmpty(q)
  {
    if q != [] {
      NoBytesMeansEmpty(q[1..]);
    }
  }

  lemma RxHolds(rx: Rx)
    requires RxOk(Unbounded, rx)
    ensures rx.buffer == [] ==> rx.size == ConsumableBytes(rx.consumable)
    ensures rx.consumed >= 0 && rx.size >= 0
  {
  }

  /** What is left unconsumed are empty messages at the end: when the last data is not empty, there are none. */
  lemma LastTellsAll(ms: seq<ReliableMsg>, q: seq<Arrival>, consumed: seq<ReliableMsg>)
    requires AllEmpty(q) && consumed + Msgs(q) == OrderedPart(ms)
    ensures DataPart(consumed) <= DataPart(ms)
    ensures var d := DataPart(ms); (d != [] ==> d[|d| - 1] != []) ==> DataPart(consumed) == d
  {
    DataOfOrdered(ms);
    DataAppend(consumed, Msgs(q));
    DataOfAllEmpty(q);
    hide *;
    var d, rest := DataPart(ms), DataPart(Msgs(q));
    assert d == DataPart(consumed) + rest;
    assert rest != [] ==> d[|d| - 1] == rest[|rest| - 1];
  }

  lemma {:induction false} DataOfAllEmpty(q: seq<Arrival>)
    requires AllEmpty(q)
    ensures forall k | 0 <= k < |DataPart(Msgs(q))| :: DataPart(Msgs(q))[k] == []
  {
    if q != [] {
      DataOfAllEmpty(q[1..]);
      assert Msgs(q)[1..] == Msgs(q[1..]);
    }
  }

  /** Shutdown loses nothing: when the condition for a graceful end holds, the peer has received every message ever
      sent and has consumed all of them except, possibly, messages without any bytes at the end.  If the last data is
      not empty, all data has been consumed. */
  lemma ExitMeansConsumed(run: seq<Sys>, i: nat)
    requires IsRun(Unbounded, run) && i < |run| && ExitReady(run[i].a.ep)
    ensures var x, y := run[i].a, run[i].b;
            var d := DataPart(x.hist.log);
            && y.ep.rx.next == |x.hist.log|
            && y.hist.consumed + Msgs(y.ep.rx.consumable) == OrderedPart(x.hist.log)
            && AllEmpty(y.ep.rx.consumable)
            && ((d != [] ==> d[|d| - 1] != []) ==> DataPart(y.hist.consumed) == d)
  {
    hide *;
    RunKeeps(run, i);
    ExitHere(run[i]);
    LastTellsAll(run[i].a.hist.log, run[i].b.ep.rx.consumable, run[i].b.hist.consumed);
  }

  lemma ExitHere(s: Sys)
    requires SysInv(s) && ExitReady(s.a.ep)
    ensures var x, y := s.a, s.b;
            && y.ep.rx.next == |x.hist.log|
            && y.hist.consumed + Msgs(y.ep.rx.consumable) == OrderedPart(x.hist.log)
            && AllEmpty(y.ep.rx.consumable)
  {
    var x, y := s.a, s.b;
    hide Inv, IdsAdded, LogMatches, WireTrue, RxMatches, AcksTrue, NothingForgotten, NotStranded, SenderOk, ReaderOk,
         MissingAt, TxOk, RxOk, AllEmpty, OrderedPart;
    InvTxRx(x.ep);
    InvTxRx(y.ep);
    EmptyMeansArrived(x.hist.log, x.ep.tx, y.ep.rx);
    RxHolds(y.ep.rx);
    NoBytesMeansEmpty(y.ep.rx.consumable);
    assert Upto(x.hist.log, y.ep.rx.next) == x.hist.log;
  }

  /** ... and `a` owes nothing: all credit for what it has received of `b` is back at `b`, so that `a` does not keep `b`
      from ending. */
  lemma ExitReturnsCredit(run: seq<Sys>, i: nat)
    requires IsRun(Unbounded, run) && i < |run| && ExitReady(run[i].a.ep)
    ensures run[i].b.ep.unconsumed == MissingAt(Payload, run[i].b.hist.log, run[i].a.ep.rx)
  {
    hide *;
    RunKeeps(run, i);
    NothingOwed(run[i]);
  }

  lemma NothingOwed(s: Sys)
    requires ExitReady(s.a.ep)
    requires SysInv(s)
    ensures s.b.ep.unconsumed == MissingAt(Payload, s.b.hist.log, s.a.ep.rx)
  {
    hide Inv, IdsAdded, LogMatches, WireTrue, RxMatches, AcksTrue, NothingForgotten, NotStranded, SenderOk, ReaderOk, InOrder,
         MissingAt, TxOk, RxOk;
    InvTxRx(s.b.ep);
    EmptyMeansArrived(s.a.hist.log, s.a.ep.tx, s.b.ep.rx);
    ArrivedMeansNothingMissing(Returned, s.a.hist.log, s.b.ep.rx);
  }

  // ----------------------------------------------------------------------- flow control

  /** In every run the credit window cannot deadlock. */
  lemma WindowOpensAgain(run: seq<Sys>, i: nat, data: Bytes)
    requires IsRun(Unbounded, run) && i < |run| && Drained(run[i].a, run[i].b)
    requires |data| <= MaxSendSize(run[i].a.ep.cfg.remoteRecvBuffer)
    ensures |data| <= TxSpace(run[i].a.ep) <==> |data| <= run[i].a.ep.cfg.sendBuffer
  {
    RunKeeps(run, i);
    RecvBufferPositive(run, i);
    var s := run[i];
    hide Inv, IdsAdded, LogMatches, WireTrue, RxMatches, AcksTrue, NothingForgotten, NotStranded, SenderOk, ReaderOk,
         InOrder, IsRun, Drained, TxSpace, MaxSendSize;
    WindowNeverDeadlocks(s.a, s.b, data);
  }

  lemma {:induction false} RecvBufferPositive(run: seq<Sys>, i: nat)
    requires IsRun(Unbounded, run) && i < |run|
    ensures run[i].a.ep.cfg.recvBuffer > 0 && run[i].b.ep.cfg.recvBuffer > 0
  {
    hide Act, Enabled, IsRun;
    RunStarts(run);
    if i > 0 {
      RecvBufferPositive(run, i - 1);
      RunHasSteps(run, i);
      var s, s' := run[i - 1], run[i];
      if StepAtA(Unbounded, s, s') {
        var act :| Enabled(Unbounded, s, act) && s' == Act(Unbounded, s, act);
        ActFrame(s, act);
      } else {
        var act :| Enabled(Unbounded, Swap(s), act) && Swap(s') == Act(Unbounded, Swap(s), act);
        ActFrame(Swap(s), act);
      }
    }
  }
}
