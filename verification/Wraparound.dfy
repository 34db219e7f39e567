/** An endpoint with 32-bit numbers steps exactly like one whose numbers never wrap. */
module Wraparound {
  import opened Numbering
  import opened Protocol

  // ------------------------------------------------------------- forgetting the high bits

  function NarrowPacket(p: Packet): Packet {
    p.(num := p.num % MODULUS)
  }

  function NarrowPackets(ps: seq<Packet>): seq<Packet> {
    seq(|ps|, i requires 0 <= i < |ps| => NarrowPacket(ps[i]))
  }

  function NarrowTx(tx: Tx): Tx {
    tx.(next := tx.next % MODULUS, packets := NarrowPackets(tx.packets))
  }

  function NarrowArrival(a: Arrival): Arrival {
    a.(num := a.num % MODULUS)
  }

  function NarrowEntry(a: Option<Arrival>): Option<Arrival> {
    if a.Some? then Some(NarrowArrival(a.value)) else None
  }

  function NarrowBuffer(b: seq<Option<Arrival>>): seq<Option<Arrival>> {
    seq(|b|, i requires 0 <= i < |b| => NarrowEntry(b[i]))
  }

  function NarrowArrivals(q: seq<Arrival>): seq<Arrival> {
    seq(|q|, i requires 0 <= i < |q| => NarrowArrival(q[i]))
  }

  function NarrowRx(rx: Rx): Rx {
    rx.(next := rx.next % MODULUS, buffer := NarrowBuffer(rx.buffer), consumable := NarrowArrivals(rx.consumable))
  }

  function NarrowNumbers(s: seq<nat>): seq<nat> {
    seq(|s|, i requires 0 <= i < |s| => s[i] % MODULUS)
  }

  function NarrowLink(l: Option<Link>): Option<Link> {
    if l.Some? then Some(l.value.(acks := NarrowNumbers(l.value.acks))) else None
  }

  function NarrowLinks(links: seq<Option<Link>>): seq<Option<Link>> {
    seq(|links|, i requires 0 <= i < |links| => NarrowLink(links[i]))
  }

  function Narrow(e: Ep): Ep {
    e.(tx := NarrowTx(e.tx), rx := NarrowRx(e.rx), links := NarrowLinks(e.links))
  }

  // ------------------------------------------------------------------ the sending side

  /** Nothing but numbers is forgotten about the packets. */
  lemma {:induction false} NarrowKeeps(ps: seq<Packet>)
    ensures Queued(NarrowPackets(ps)) == Queued(ps)
    ensures forall view :: Total(view, NarrowPackets(ps)) == Total(view, ps)
    ensures LeadingReceived(NarrowPackets(ps)) == LeadingReceived(ps)
  {
    if ps != [] {
      NarrowKeeps(ps[1..]);
      assert NarrowPackets(ps)[1..] == NarrowPackets(ps[1..]);
    }
  }

  lemma FlushNarrows(tx: Tx, l: LinkId, flush: bool)
    ensures NarrowTx(FlushTx(tx, l, flush)) == FlushTx(NarrowTx(tx), l, flush)
  {
    assert NarrowPackets(MarkFlushed(tx.packets, l)) == MarkFlushed(NarrowPackets(tx.packets), l);
  }

  lemma AppendNarrows(tx: Tx, slot: nat, l: LinkId, msg: ReliableMsg)
    ensures NarrowTx(TxAppend(Unbounded, tx, slot, l, msg)) == TxAppend(Wrapping, NarrowTx(tx), slot, l, msg)
  {
    var p := Packet(tx.created, tx.next, Sent(slot, l, msg, false, false));
    assert NarrowPackets(tx.packets + [p]) == NarrowPackets(tx.packets) + [NarrowPacket(p)];
    AdvanceReduce(Wrapping, tx.next, 1);
  }

  lemma ReturnNarrows(tx: Tx, slot: nat, l: LinkId)
    requires CanResend(tx)
    ensures CanResend(NarrowTx(tx)) && NarrowTx(TxReturn(tx, slot, l)) == TxReturn(NarrowTx(tx), slot, l)
  {
    assert NarrowTx(TxReturn(tx, slot, l)).packets == TxReturn(NarrowTx(tx), slot, l).packets;
  }

  lemma RequeueNarrows(tx: Tx, slot: nat)
    ensures NarrowTx(TxRequeue(tx, slot)) == TxRequeue(NarrowTx(tx), slot)
  {
    assert NarrowPackets(Requeue(tx.packets, slot)) == Requeue(NarrowPackets(tx.packets), slot);
    NarrowKeeps(Requeue(tx.packets, slot));
  }

  /** An acknowledgement finds the same packet. */
  lemma AckIndexNarrows(tx: Tx, n: nat)
    requires -HALF <= tx.next - n < HALF
    ensures AckIndex(Wrapping, NarrowTx(tx), n % MODULUS) == AckIndex(Unbounded, tx, n)
  {
    DiffExactIff(tx.next, n);
  }

  lemma MarkNarrows(tx: Tx, slot: nat, n: nat)
    requires -HALF <= tx.next - n < HALF
    ensures NarrowTx(TxMark(Unbounded, tx, slot, n)) == TxMark(Wrapping, NarrowTx(tx), slot, n % MODULUS)
  {
    AckIndexNarrows(tx, n);
    hide AckIndex;
    var i := AckIndex(Unbounded, tx, n);
    if i.Some? && Settles(tx.packets[i.value].status, slot) {
      SettleNarrows(tx, i.value);
    }
  }

  lemma SettleNarrows(tx: Tx, i: nat)
    requires i < |tx.packets| && !tx.packets[i].status.Received?
    ensures NarrowTx(TxSettle(tx, i)) == TxSettle(NarrowTx(tx), i)
  {
    assert NarrowTx(TxSettle(tx, i)).packets == TxSettle(NarrowTx(tx), i).packets;
  }

  lemma SwipeNarrows(tx: Tx)
    ensures NarrowTx(TxSwipe(tx)) == TxSwipe(NarrowTx(tx))
  {
    NarrowKeeps(tx.packets);
    var k := LeadingReceived(tx.packets);
    NarrowKeeps(tx.packets[..k]);
    assert NarrowPackets(tx.packets[..k]) == NarrowPackets(tx.packets)[..k];
    assert NarrowPackets(tx.packets[k..]) == NarrowPackets(tx.packets)[k..];
  }

  lemma {:induction false} StaleNarrows(txed: seq<nat>, tx: Tx, l: LinkId)
    ensures DropStale(txed, NarrowTx(tx), l) == DropStale(txed, tx, l)
  {
    if txed != [] {
      StaleNarrows(txed[1..], tx, l);
    }
  }

  lemma AckedOnNarrows(tx: Tx, slot: nat, n: nat)
    requires -HALF <= tx.next - n < HALF
    ensures AckedOn(Wrapping, NarrowTx(tx), slot, n % MODULUS) == AckedOn(Unbounded, tx, slot, n)
  {
    AckIndexNarrows(tx, n);
  }

  /** A number is available for the one exactly when it is for the other. */
  lemma SeqAvailNarrows(tx: Tx)
    requires tx.packets != [] ==> -HALF <= tx.next - tx.packets[0].num < HALF
    ensures SeqAvail(Wrapping, NarrowTx(tx)) == SeqAvail(Unbounded, tx)
  {
    if tx.packets != [] {
      DiffExactIff(tx.next, tx.packets[0].num);
    }
  }

  // ---------------------------------------------------------------- the receiving side

  /** Within a quarter of the number space, a number finds the same place. */
  lemma PlaceNarrows(rx: Rx, n: nat)
    requires Distance(n, rx.next) <= ONE_QUARTER
    ensures Place(Wrapping, NarrowRx(rx), n % MODULUS) == Place(Unbounded, rx, n)
  {
    CompareWithinQuarter(n, rx.next);
    DiffExactIff(n, rx.next);
  }

  /** Just outside, a delayed copy is mistaken for a message far ahead and ends the connection. */
  lemma PlaceFailsOutside() returns (rx: Rx, n: nat)
    ensures Distance(n, rx.next) == ONE_QUARTER + 1
    ensures Place(Unbounded, rx, n).Known? && Place(Wrapping, NarrowRx(rx), n % MODULUS).Refused?
  {
    rx, n := InitialRx().(next := MODULUS + ONE_QUARTER), MODULUS - 1;
    assert NarrowRx(rx).next == ONE_QUARTER;
    assert !Less(Wrapping, n, ONE_QUARTER);
    assert Diff(Wrapping, n, ONE_QUARTER) == -1 - ONE_QUARTER;
  }

  /** Every number at most `window` away finds the same place, in every state of the receiver, exactly when the window is
      at most one quarter. */
  lemma PlaceExactIff(window: nat)
    ensures (forall rx: Rx, n: nat | Distance(n, rx.next) <= window ::
               Place(Wrapping, NarrowRx(rx), n % MODULUS) == Place(Unbounded, rx, n))
            <==> window <= ONE_QUARTER
  {
    if window <= ONE_QUARTER {
      forall rx: Rx, n: nat | Distance(n, rx.next) <= window
        ensures Place(Wrapping, NarrowRx(rx), n % MODULUS) == Place(Unbounded, rx, n)
      {
        PlaceNarrows(rx, n);
      }
    } else {
      hide *;
      var rx, n := PlaceFailsOutside();
      assert Distance(n, rx.next) <= window;
    }
  }

  lemma StoreNarrows(rx: Rx, offset: nat, a: Arrival)
    ensures NarrowRx(RxStore(rx, offset, a)) == RxStore(NarrowRx(rx), offset, NarrowArrival(a))
  {
    assert NarrowRx(RxStore(rx, offset, a)).buffer == RxStore(NarrowRx(rx), offset, NarrowArrival(a)).buffer;
  }

  lemma {:induction false} LeadingNarrows(b: seq<Option<Arrival>>)
    ensures LeadingFull(NarrowBuffer(b)) == LeadingFull(b)
    ensures Deliverable(NarrowBuffer(b)) == NarrowArrivals(Deliverable(b))
  {
    if b != [] {
      LeadingNarrows(b[1..]);
      assert NarrowBuffer(b)[1..] == NarrowBuffer(b[1..]);
      var head := if b[0].Some? && Ordered(b[0].value.msg) then [b[0].value] else [];
      assert NarrowArrivals(head + Deliverable(b[1..])) == NarrowArrivals(head) + NarrowArrivals(Deliverable(b[1..]));
    }
  }

  lemma ArrivalsAppend(a: seq<Arrival>, b: seq<Arrival>)
    ensures NarrowArrivals(a + b) == NarrowArrivals(a) + NarrowArrivals(b)
  {
  }

  lemma ForwardNarrows(rx: Rx)
    ensures NarrowRx(Forward(Unbounded, rx)) == Forward(Wrapping, NarrowRx(rx))
  {
    var k := LeadingFull(rx.buffer);
    assert NarrowBuffer(rx.buffer[..k]) == NarrowBuffer(rx.buffer)[..k];
    assert NarrowBuffer(rx.buffer[k..]) == NarrowBuffer(rx.buffer)[k..];
    hide LeadingFull, Deliverable, NarrowBuffer, NarrowArrivals;
    LeadingNarrows(rx.buffer);
    LeadingNarrows(rx.buffer[..k]);
    ArrivalsAppend(rx.consumable, Deliverable(rx.buffer[..k]));
    AdvanceReduce(Wrapping, rx.next, k);
  }

  // ------------------------------------------------------------------- whole operations

  lemma SetNarrows(links: seq<Option<Link>>, slot: nat, link: Link)
    requires slot < |links|
    ensures NarrowLinks(links[slot := Some(link)]) == NarrowLinks(links)[slot := NarrowLink(Some(link))]
  {
  }

  lemma SendNarrows(e: Ep, slot: nat, msg: ReliableMsg, limitReached: bool)
    requires Ready(e, slot)
    ensures Ready(Narrow(e), slot)
    ensures Narrow(SendReliable(Unbounded, e, slot, msg, limitReached))
            == SendReliable(Wrapping, Narrow(e), slot, msg, limitReached)
  {
    var l := e.links[slot].value.id;
    var flush := limitReached || FlushesAlways(msg);
    FlushNarrows(e.tx, l, flush);
    AppendNarrows(FlushTx(e.tx, l, flush), slot, l, msg);
    hide NarrowTx, TxAppend, FlushTx;
    SetNarrows(e.links, slot, SendReliable(Unbounded, e, slot, msg, limitReached).links[slot].value);
    TxCounts(e.tx);
  }

  lemma TxCounts(tx: Tx)
    ensures NarrowTx(tx).created == tx.created && NarrowTx(tx).resend == tx.resend
  {
  }

  /** Flushing and narrowing leave a queued packet what it is. */
  lemma ResendableFlushed(tx: Tx, l: LinkId, flush: bool)
    requires CanResend(tx)
    ensures CanResend(FlushTx(tx, l, flush)) && FlushTx(tx, l, flush).resend == tx.resend
    ensures CanResend(NarrowTx(tx)) && NarrowTx(tx).resend == tx.resend
    ensures StatusOf(NarrowTx(tx), tx.resend[0]) == StatusOf(tx, tx.resend[0])
  {
  }

  lemma ResendNarrows(e: Ep, slot: nat, limitReached: bool)
    requires Ready(e, slot) && CanResend(e.tx)
    ensures Ready(Narrow(e), slot) && CanResend(Narrow(e).tx)
    ensures Narrow(ResendReliable(e, slot, limitReached)) == ResendReliable(Narrow(e), slot, limitReached)
  {
    var l := e.links[slot].value.id;
    var flush := limitReached || FlushesAlways(StatusOf(e.tx, e.tx.resend[0]).msg);
    ResendableFlushed(e.tx, l, flush);
    hide NarrowTx, FlushTx, TxReturn, CanResend, NarrowRx, StatusOf, FlushesAlways, Without;
    FlushNarrows(e.tx, l, flush);
    ReturnNarrows(FlushTx(e.tx, l, flush), slot, l);
    SetNarrows(e.links, slot, ResendReliable(e, slot, limitReached).links[slot].value);
  }

  lemma FlushLinkNarrows(e: Ep, slot: nat)
    requires Occupied(e.links, slot)
    ensures Narrow(FlushLink(e, slot)) == FlushLink(Narrow(e), slot)
  {
    FlushNarrows(e.tx, e.links[slot].value.id, true);
    SetNarrows(e.links, slot, e.links[slot].value.(polling := true));
  }

  lemma UnconfirmNarrows(e: Ep, slot: nat)
    requires Occupied(e.links, slot)
    ensures Narrow(UnconfirmLink(e, slot)) == UnconfirmLink(Narrow(e), slot)
  {
    RequeueNarrows(e.tx, slot);
    NarrowKeeps(e.tx.packets);
    SetNarrows(e.links, slot, UnconfirmLink(e, slot).links[slot].value);
  }

  lemma {:induction false} TrimNarrows(links: seq<Option<Link>>)
    ensures NarrowLinks(Trim(links)) == Trim(NarrowLinks(links))
  {
    if links != [] && links[|links| - 1].None? {
      TrimNarrows(links[..|links| - 1]);
      assert NarrowLinks(links)[..|links| - 1] == NarrowLinks(links[..|links| - 1]);
    }
  }

  lemma RemoveNarrows(e: Ep, slot: nat)
    requires Occupied(e.links, slot)
    ensures Narrow(RemoveLink(e, slot)) == RemoveLink(Narrow(e), slot)
  {
    UnconfirmNarrows(e, slot);
    var links := UnconfirmLink(e, slot).links;
    TrimNarrows(links[slot := None]);
    assert NarrowLinks(links[slot := None]) == NarrowLinks(links)[slot := None];
  }

  lemma {:induction false} FreeSlotNarrows(links: seq<Option<Link>>)
    ensures FreeSlot(NarrowLinks(links)) == FreeSlot(links)
  {
    if links != [] && links[0].Some? {
      FreeSlotNarrows(links[1..]);
      assert NarrowLinks(links)[1..] == NarrowLinks(links[1..]);
    }
  }

  lemma AddNarrows(e: Ep, l: LinkId, tested: bool, limit: nat)
    ensures Narrow(AddLink(e, l, tested, limit)) == AddLink(Narrow(e), l, tested, limit)
  {
    FreeSlotNarrows(e.links);
    assert NarrowNumbers([]) == [];
    assert Narrow(AddLink(e, l, tested, limit)).links == AddLink(Narrow(e), l, tested, limit).links;
  }

  /** Acknowledgements within half the number space commute with wrapping. */
  lemma AckNarrows(e: Ep, slot: nat, n: nat)
    requires Occupied(e.links, slot) && -HALF <= e.tx.next - n < HALF
    ensures Narrow(HandleAck(Unbounded, e, slot, n)) == HandleAck(Wrapping, Narrow(e), slot, n % MODULUS)
  {
    hide NarrowTx, TxMark, TxSwipe, AckedOn, DropStale, NarrowRx;
    MarkNarrows(e.tx, slot, n);
    SwipeNarrows(TxMark(Unbounded, e.tx, slot, n));
    AckedOnNarrows(e.tx, slot, n);
    var link, tx' := e.links[slot].value, TxAck(Unbounded, e.tx, slot, n);
    StaleNarrows(link.txed, tx', link.id);
    SetNarrows(e.links, slot, HandleAck(Unbounded, e, slot, n).links[slot].value);
  }

  lemma QueueAckNarrows(e: Ep, slot: nat, n: nat)
    requires Occupied(e.links, slot)
    ensures Narrow(QueueAck(e, slot, n)) == QueueAck(Narrow(e), slot, n % MODULUS)
  {
    var link := e.links[slot].value;
    assert NarrowNumbers(link.acks + [n]) == NarrowNumbers(link.acks) + [n % MODULUS];
    SetNarrows(e.links, slot, QueueAck(e, slot, n).links[slot].value);
  }

  function NarrowResult(r: Result<Ep>): Result<Ep> {
    if r.Ok? then Ok(Narrow(r.value)) else r
  }

  /** Messages within a quarter of the number space commute with wrapping: duplicates, offsets and errors alike. */
  lemma ReceiveNarrows(e: Ep, slot: nat, n: nat, msg: ReliableMsg)
    requires Occupied(e.links, slot) && Distance(n, e.rx.next) <= ONE_QUARTER
    ensures NarrowResult(HandleReceived(Unbounded, e, slot, n, msg))
            == HandleReceived(Wrapping, Narrow(e), slot, n % MODULUS, msg)
  {
    assert Occupied(Narrow(e).links, slot);
    hide Place, NarrowRx, NarrowTx, Forward, RxStore, OnArrival, QueueAck, NarrowLinks;
    PlaceNarrows(e.rx, n);
    RxSizes(e.rx);
    match Place(Unbounded, e.rx, n)
    case Known =>
      QueueAckNarrows(e, slot, n);
      ForwardNarrows(e.rx);
    case Refused =>
    case Fresh(offset) => StoredNarrows(e, slot, n, msg, offset);
  }

  lemma StoredNarrows(e: Ep, slot: nat, n: nat, msg: ReliableMsg, offset: nat)
    requires Occupied(e.links, slot)
    ensures Occupied(Narrow(e).links, slot)
    ensures Narrow(OnArrival(QueueAck(e, slot, n), msg).(rx := Forward(Unbounded, RxStore(e.rx, offset, Arrival(n, msg)))))
            == OnArrival(QueueAck(Narrow(e), slot, n % MODULUS), msg).(
                 rx := Forward(Wrapping, RxStore(NarrowRx(e.rx), offset, Arrival(n % MODULUS, msg))))
  {
    assert Occupied(Narrow(e).links, slot);
    hide NarrowRx, NarrowTx, Forward, RxStore, OnArrival, QueueAck, NarrowLinks;
    QueueAckNarrows(e, slot, n);
    StoreNarrows(e.rx, offset, Arrival(n, msg));
    ForwardNarrows(RxStore(e.rx, offset, Arrival(n, msg)));
    OnArrivalNarrows(QueueAck(e, slot, n), msg);
  }

  lemma RxSizes(rx: Rx)
    ensures NarrowRx(rx).size == rx.size && NarrowRx(rx).consumed == rx.consumed
  {
  }

  lemma OnArrivalNarrows(e: Ep, msg: ReliableMsg)
    ensures Narrow(OnArrival(e, msg)) == OnArrival(Narrow(e), msg)
  {
  }

  lemma SendAckNarrows(e: Ep, slot: nat)
    requires Ready(e, slot) && e.links[slot].value.acks != []
    ensures Ready(Narrow(e), slot) && Narrow(e).links[slot].value.acks != []
    ensures Narrow(SendAck(e, slot)) == SendAck(Narrow(e), slot)
    ensures Narrow(e).links[slot].value.acks[0] == e.links[slot].value.acks[0] % MODULUS
  {
    var link := e.links[slot].value;
    assert NarrowNumbers(link.acks[1..]) == NarrowNumbers(link.acks)[1..];
    SetNarrows(e.links, slot, SendAck(e, slot).links[slot].value);
  }

  lemma ConsumeNarrows(e: Ep)
    requires e.rx.consumable != []
    ensures Narrow(e).rx.consumable != []
    ensures Narrow(Consume(e)) == Consume(Narrow(e))
  {
    assert NarrowArrivals(e.rx.consumable[1..]) == NarrowArrivals(e.rx.consumable)[1..];
  }
}
