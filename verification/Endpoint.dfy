/** One endpoint with the queues and counters of the program, updated in place.
    Every method is proved to do what the specification in `Protocol.dfy` says. */
module EndpointTask {
  import opened Numbering
  import opened Protocol
  import opened Invariants
  import opened Preservation
  import opened Sorting

  class Endpoint {
    const cfg: Cfg
    var created: nat
    var txSeq: nat
    var txedPackets: seq<Packet>
    var txedUnacked: int
    var txedUnconsumed: int
    var txedUnconsumable: int
    var resendQueue: seq<nat>
    var links: seq<Option<Link>>
    var idleLinks: seq<nat>
    var rxSeq: nat
    var rxedReliable: seq<Option<Arrival>>
    var rxedConsumable: seq<Arrival>
    var rxedSize: int
    var rxedConsumed: int
    var user: User

    function TxState(): Tx
      reads this
    {
      Tx(created, txSeq, txedPackets, txedUnacked, txedUnconsumable, resendQueue)
    }

    function RxState(): Rx
      reads this
    {
      Rx(rxSeq, rxedReliable, rxedConsumable, rxedSize, rxedConsumed)
    }

    function State(): Ep
      reads this
    {
      Ep(cfg, TxState(), txedUnconsumed, RxState(), links, idleLinks, user)
    }

    /** The invariant, for 32-bit numbers. */
    ghost predicate Valid()
      reads this
    {
      Inv(Wrapping, State())
    }

    constructor (cfg: Cfg)
      ensures State() == Initial(cfg)
      ensures Valid()
    {
      hide Inv;
      this.cfg := cfg;
      created, txSeq, txedPackets, txedUnacked, txedUnconsumed, txedUnconsumable := 0, 0, [], 0, 0, 0;
      resendQueue, links, idleLinks := [], [], [];
      rxSeq, rxedReliable, rxedConsumable, rxedSize, rxedConsumed := 0, [], [], 0, 0;
      user := InitialUser();
      new;
      InitialInv(Wrapping, cfg);
    }

    // -------------------------------------------------------------------- flushing

    /** Marks the packets of a link as flushed, newest first, stopping at the first
        one that already is. */
    method MarkTxedPacketsFlushed(slot: nat)
      requires Occupied(links, slot) && Listed(TxState(), links)
      modifies this`txedPackets
      ensures txedPackets == MarkFlushed(old(txedPackets), links[slot].value.id)
    {
      hide FlushedFirst, Consecutive, FlushedDown;
      var link := links[slot].value;
      ghost var tx := TxState();
      var base := created - |txedPackets|;
      assert ListOk(tx, link);
      var k := |link.txed|;
      FlushStarts(tx, link);
      while k > 0
        invariant 0 <= k <= |link.txed| && |txedPackets| == |tx.packets|
        invariant FlushedDown(tx, link, txedPackets, k)
      {
        FlushOneMore(tx, link, txedPackets, k - 1);
        k := k - 1;
        var uid := link.txed[k];
        if base <= uid {
          var i := uid - base;
          var st := txedPackets[i].status;
          if st.Sent? && st.link == link.id {
            if st.flushed {
              break;
            }
            txedPackets := txedPackets[i := txedPackets[i].(status := st.(flushed := true))];
          }
        }
      }
      FlushComplete(tx, link, txedPackets, k);
    }

    /** Removes stale references from the front of a link's packet list. */
    method CleanTxedPackets(slot: nat)
      requires Occupied(links, slot) && |txedPackets| <= created
      modifies this`links
      ensures links == old(links)[slot := Some(old(links[slot].value).(
                         txed := DropStale(old(links[slot].value.txed), TxState(), old(links[slot].value.id))))]
    {
      var link := links[slot].value;
      var txed: seq<nat> := link.txed;
      var base := created - |txedPackets|;
      while txed != [] && !(base <= txed[0] < created && txedPackets[txed[0] - base].status.Sent?
                            && txedPackets[txed[0] - base].status.link == link.id)
        invariant DropStale(txed, TxState(), link.id) == DropStale(link.txed, TxState(), link.id)
        decreases |txed|
      {
        txed := txed[1..];
      }
      links := links[slot := Some(link.(txed := txed))];
    }

    method StartFlush(slot: nat)
      requires Occupied(links, slot) && Listed(TxState(), links)
      modifies this`txedPackets, this`links
      ensures txedPackets == MarkFlushed(old(txedPackets), old(links[slot].value.id))
      ensures links == old(links)[slot := Some(old(links[slot].value).(polling := true))]
    {
      MarkTxedPacketsFlushed(slot);
      links := links[slot := Some(links[slot].value.(polling := true))];
    }

    method FlushLink(slot: nat)
      requires Valid() && Occupied(links, slot)
      modifies this`txedPackets, this`links, this`idleLinks
      ensures State() == old(Protocol.FlushLink(State(), slot))
      ensures Valid()
    {
      StartFlush(slot);
      idleLinks := Without(idleLinks, slot);
      hide Inv;
      FlushKeeps(Wrapping, old(State()), slot);
    }

    // --------------------------------------------------------------------- sending

    /** Hands a message to the sink of a link that is ready for it. */
    method StartSendMsg(slot: nat, msg: ReliableMsg, limitReached: bool)
      requires Ready(State(), slot) && Listed(TxState(), links)
      modifies this`txedPackets, this`links
      ensures TxState() == old(FlushTx(TxState(), links[slot].value.id, limitReached || FlushesAlways(msg)))
      ensures links == old(links)[slot := Some(old(links[slot].value).(polling := true, payload := msg.Data?))]
    {
      links := links[slot := Some(links[slot].value.(polling := true, payload := msg.Data?))];
      if limitReached || FlushesAlways(msg) {
        ListedFrame(TxState(), old(links), links);
        StartFlush(slot);
      }
    }

    /** Sends a new reliable message; returns its number. */
    method SendReliableOverLink(slot: nat, msg: ReliableMsg, limitReached: bool) returns (num: nat)
      requires Ready(State(), slot) && slot !in idleLinks
      requires Valid()
      modifies this
      ensures State() == old(Protocol.SendReliable(Wrapping, State(), slot, msg, limitReached))
      ensures Valid() && num == old(txSeq)
    {
      hide Inv, Listed, FlushesAlways, Total, MarkFlushed, Without;
      InvIsListed(State());
      SendKeeps(Wrapping, State(), slot, msg, limitReached);
      StartSendMsg(slot, msg, limitReached);
      num := txSeq;
      txSeq := Next(Wrapping, txSeq);
      txedUnacked := txedUnacked + Size(msg);
      txedUnconsumed := txedUnconsumed + Size(msg);
      var link := links[slot].value;
      var packet := Packet(created, num, Sent(slot, link.id, msg, false, false));
      created := created + 1;
      links := links[slot := Some(link.(unackedData := link.unackedData + Size(msg), txed := link.txed + [packet.uid]))];
      txedPackets := txedPackets + [packet];
    }

    /** Resends the oldest queued packet; returns its number. */
    method ResendReliableOverLink(slot: nat, limitReached: bool) returns (num: nat)
      requires Ready(State(), slot) && slot !in idleLinks && CanResend(TxState())
      requires links[slot].value.id != StatusOf(TxState(), resendQueue[0]).sentLink
      requires Valid()
      modifies this
      ensures State() == old(Protocol.ResendReliable(State(), slot, limitReached))
      ensures Valid() && num == old(txedPackets[resendQueue[0] - Base(TxState())].num)
    {
      hide Inv, Listed, FlushesAlways, Total, Without;
      InvIsListed(State());
      ResendKeeps(Wrapping, State(), slot, limitReached);
      var uid := resendQueue[0];
      resendQueue := resendQueue[1..];
      var i := uid - (created - |txedPackets|);
      var msg := txedPackets[i].status.msg;
      num := txedPackets[i].num;
      ListedIgnoresQueue(old(TxState()), links, resendQueue);
      StartSendMsg(slot, msg, limitReached);
      var link := links[slot].value;
      links := links[slot := Some(link.(unackedData := link.unackedData + Size(msg), txed := link.txed + [uid]))];
      txedPackets := txedPackets[i := txedPackets[i].(status := Sent(slot, link.id, msg, false, true))];
    }

    // ----------------------------------------------------------------- unconfirming

    /** Puts every packet that is out on `slot` into the resend queue; returns what is left of
        the unacknowledged bytes of its link. */
    method RequeuePackets(slot: nat, unackedData: int) returns (rest: int)
      requires unackedData == Total(OnSlot(slot), txedPackets)
      modifies this`txedPackets, this`resendQueue
      ensures txedPackets == Requeue(old(txedPackets), slot)
      ensures resendQueue == old(resendQueue) + Newly(old(txedPackets), slot)
      ensures rest == 0
    {
      hide Total, Newly;
      rest := unackedData;
      ghost var ps, queue := txedPackets, resendQueue;
      var i := 0;
      assert ps[0..] == ps && ps[..0] == [];
      NoneNewly(slot);
      while i < |txedPackets|
        invariant i <= |ps| == |txedPackets|
        invariant forall k | 0 <= k < i :: txedPackets[k] == ps[k].(status := RequeueStatus(ps[k].status, slot))
        invariant forall k | i <= k < |ps| :: txedPackets[k] == ps[k]
        invariant resendQueue == queue + Newly(ps[..i], slot)
        invariant rest == Total(OnSlot(slot), ps[i..])
      {
        var p := txedPackets[i];
        RequeueOne(ps, i, slot);
        if p.status.Sent? && p.status.slot == slot {
          assert Size(p.status.msg) <= rest;
          rest := rest - Size(p.status.msg);
          txedPackets := txedPackets[i := p.(status := ResendQueued(p.status.msg, p.status.link))];
          resendQueue := resendQueue + [p.uid];
        }
        i := i + 1;
      }
      assert ps[..i] == ps && ps[i..] == [];
      NoneNewly(slot);
    }

    /** Re-queues the packets that are out on a link and halves its limit. */
    method RequeueLink(slot: nat)
      requires Occupied(links, slot)
      requires Valid()
      modifies this
      ensures State() == old(Requeued(State(), slot))
    {
      hide Inv, Numbered, Queued, Newly, Consecutive, Slotted, DistinctIds, Total, Requeue, MarkFlushed, Without;
      ghost var e := State();
      FlushLink(slot);
      InvForRequeue(e, State(), slot);
      NewlyIgnoresFlush(e.tx.packets, e.links[slot].value.id, slot);
      var link := links[slot].value;
      var rest := RequeuePackets(slot, link.unackedData);
      links := links[slot := Some(link.(unconfirmed := true, limit := Max(link.limit / 2, 128), unackedData := rest))];
      idleLinks := Without(idleLinks, slot);
      WithoutTwice(e.idle, slot);
    }

    /** Unconfirms a link: what it carries is queued for resending over other links.  Sorting demands a total order, which
        the comparison of numbers is within a quarter of the number space. */
    method UnconfirmLink(slot: nat)
      requires Occupied(links, slot) && |txedPackets| <= ONE_QUARTER
      requires Valid()
      modifies this
      ensures State() == old(Protocol.UnconfirmLink(State(), slot))
      ensures Valid()
    {
      hide Inv, Numbered, Queued, Newly, DropStale, Current, AllKept, NonDecreasing, Total, Requeue, Without;
      UnconfirmKeeps(Wrapping, State(), slot);
      ghost var e := State();
      InvForSort(e, slot);
      RequeueLink(slot);
      CleanTxedPackets(slot);
      resendQueue := SortByNumber(resendQueue, Tx(created, txSeq, txedPackets, txedUnacked, txedUnconsumable, resendQueue));
      SortedRequeueIsQueued(e.tx.packets, Base(e.tx), slot, resendQueue);
    }

    // ---------------------------------------------------------- links come and go

    method RemoveLink(slot: nat)
      requires Occupied(links, slot) && |txedPackets| <= ONE_QUARTER
      requires Valid()
      modifies this
      ensures State() == old(Protocol.RemoveLink(State(), slot))
      ensures Valid()
    {
      hide Inv;
      RemoveKeeps(Wrapping, State(), slot);
      UnconfirmLink(slot);
      links := links[slot := None];
      ghost var all := links;
      while links != [] && links[|links| - 1].None?
        modifies this`links
        invariant Trim(links) == Trim(all)
        decreases |links|
      {
        links := links[..|links| - 1];
      }
    }

    /** Adds a link, in the first free slot; returns the slot. */
    method AddLink(l: LinkId, tested: bool, limit: nat) returns (slot: nat)
      requires forall s | 0 <= s < |links| && links[s].Some? :: links[s].value.id != l
      requires Valid()
      modifies this`links
      ensures State() == old(Protocol.AddLink(State(), l, tested, limit))
      ensures Valid() && slot == old(FreeSlot(links))
    {
      hide Inv;
      AddKeeps(Wrapping, State(), l, tested, limit);
      var link := NewLink(l, tested, limit);
      slot := 0;
      while slot < |links|
        invariant slot <= |links| && links == old(links)
        invariant forall t | 0 <= t < slot :: links[t].Some?
      {
        if links[slot].None? {
          links := links[slot := Some(link)];
          return;
        }
        slot := slot + 1;
      }
      links := links + [Some(link)];
    }

    // ------------------------------------------------------------ acknowledgements

    /** Takes the packet with number `n` off the resend queue. */
    method RetainOthers(n: nat, ghost uid: nat)
      requires Numbered(Wrapping, TxState()) && |txedPackets| <= MODULUS && AllKept(TxState(), resendQueue)
      requires Kept(TxState(), uid) && txedPackets[uid - Base(TxState())].num == n
      modifies this`resendQueue
      ensures resendQueue == Without(old(resendQueue), uid)
    {
      var queue := resendQueue;
      var base := created - |txedPackets|;
      ghost var tx := TxState();
      var kept: seq<nat> := [];
      var i := 0;
      while i < |queue|
        invariant i <= |queue|
        invariant kept == Without(queue[..i], uid)
      {
        NumbersTellPackets(tx, queue[i], uid);
        WithoutAppend(queue[..i], [queue[i]], uid);
        assert queue[..i + 1] == queue[..i] + [queue[i]];
        if txedPackets[queue[i] - base].num != n {
          kept := kept + [queue[i]];
        }
        i := i + 1;
      }
      assert queue[..i] == queue;
      resendQueue := kept;
    }

    /** Marks the acknowledged packet as received, if it is still waited for on this link or queued. */
    method MarkReceived(slot: nat, n: nat)
      requires Occupied(links, slot) && n < MODULUS && |txedPackets| <= MODULUS
      requires Valid()
      modifies this`txedPackets, this`txedUnacked, this`txedUnconsumable, this`resendQueue, this`links
      ensures TxState() == old(TxMark(Wrapping, TxState(), slot, n))
      ensures links == old(links)[slot := Some(old(links[slot].value).(
                         unackedData := old(links[slot].value.unackedData) - old(AckedOn(Wrapping, TxState(), slot, n))))]
    {
      hide Inv, Numbered, AllKept;
      InvForAck(State(), slot, n);
      var link := links[slot].value;
      var back := Diff(Wrapping, txSeq, n);
      if 0 < back <= |txedPackets| {
        var i := |txedPackets| - back;
        var p := txedPackets[i];
        assert p.num == n;
        if p.status.Sent? && p.status.slot == slot {
          var size := Size(p.status.msg);
          assert size <= link.unackedData && size <= txedUnacked;
          links := links[slot := Some(link.(unackedData := link.unackedData - size))];
          txedUnacked := txedUnacked - size;
          txedUnconsumable := txedUnconsumable + size;
          txedPackets := txedPackets[i := p.(status := Received(size))];
        } else if p.status.ResendQueued? {
          var size := Size(p.status.msg);
          assert size <= txedUnacked;
          txedUnacked := txedUnacked - size;
          txedUnconsumable := txedUnconsumable + size;
          ghost var st := TxState();
          QueueReadable(old(TxState()), st);
          RetainOthers(n, p.uid);
          txedPackets := txedPackets[i := p.(status := Received(size))];
        }
      }
    }

    /** Drops the acknowledged packets at the front. */
    method SwipeFront()
      requires txedUnconsumable == Total(Unconsumable, txedPackets)
      modifies this`txedPackets, this`txedUnconsumable
      ensures txedPackets == old(txedPackets)[old(LeadingReceived(txedPackets))..]
      ensures txedUnconsumable == old(txedUnconsumable) - old(Total(Unconsumable, txedPackets[..LeadingReceived(txedPackets)]))
    {
      ghost var ps, u := txedPackets, txedUnconsumable;
      ghost var k := 0;
      LeadingReceivedExact(ps);
      while txedPackets != [] && txedPackets[0].status.Received?
        invariant 0 <= k <= LeadingReceived(ps) && txedPackets == ps[k..]
        invariant txedUnconsumable == u - Total(Unconsumable, ps[..k]) == Total(Unconsumable, txedPackets)
        decreases |txedPackets|
      {
        assert txedPackets[0] == ps[k];
        assert txedPackets[0].status.size <= txedUnconsumable;
        TotalAppend(Unconsumable, ps[..k], [ps[k]]);
        assert ps[..k + 1] == ps[..k] + [ps[k]];
        txedUnconsumable := txedUnconsumable - txedPackets[0].status.size;
        txedPackets := txedPackets[1..];
        k := k + 1;
      }
    }

    /** Processes an acknowledgement that arrived over a link. */
    method HandleAck(slot: nat, n: nat)
      requires Occupied(links, slot) && n < MODULUS && |txedPackets| <= MODULUS
      requires Valid()
      modifies this
      ensures State() == old(Protocol.HandleAck(Wrapping, State(), slot, n))
      ensures Valid()
    {
      hide Inv, TxMark, AckedOn, DropStale, LeadingReceived, Numbered, AllKept, AckIndex, Total, Without, Kept;
      ghost var e := State();
      AckKeeps(Wrapping, e, slot, n);
      AckLength(e, slot, n);
      MarkAccounted(e, slot, n);
      MarkReceived(slot, n);
      SwipeFront();
      assert TxState() == TxAck(Wrapping, e.tx, slot, n);
      CleanTxedPackets(slot);
    }

    // ------------------------------------------------------------------- receiving

    /** Hands the complete front of the receive buffer on for consumption. */
    method ForwardReceived()
      requires RxStored(Wrapping, RxState())
      modifies this`rxSeq, this`rxedReliable, this`rxedConsumable
      ensures RxState() == old(Forward(Wrapping, RxState()))
    {
      hide LeadingFull, Deliverable, BufferedBytes, ConsumableBytes, Ordered, Advance;
      ghost var rx := RxState();
      ghost var k := 0;
      ForwardNone(rx);
      while rxedReliable != [] && rxedReliable[0].Some?
        invariant 0 <= k <= LeadingFull(rx.buffer) && rxedReliable == rx.buffer[k..]
        invariant rxSeq == Advance(Wrapping, rx.next, k)
        invariant rxedConsumable == rx.consumable + Deliverable(rx.buffer[..k])
        decreases |rxedReliable|
      {
        var a := rxedReliable[0].value;
        assert rx.buffer[k] == Some(a);
        assert a.num == rxSeq;
        ForwardOne(rx, k);
        rxedReliable := rxedReliable[1..];
        rxSeq := Next(Wrapping, rxSeq);
        if Ordered(a.msg) {
          rxedConsumable := rxedConsumable + [a];
        }
        k := k + 1;
      }
    }

    /** Takes in a message whose number is new; returns the error of flow control it causes, if any. */
    method StoreReceived(offset: nat, n: nat, msg: ReliableMsg) returns (err: Option<ProtocolError>)
      requires offset < |rxedReliable| ==> rxedReliable[offset].None?
      modifies this`rxedReliable, this`rxedSize, this`txedUnconsumed, this`user
      ensures err == (if msg.Data? && old(rxedSize) + |msg.bytes| > cfg.recvBuffer then Some(ReceiveBufferOverflow)
                      else if msg.Consumed? && msg.count > old(txedUnconsumed) then Some(UnconsumedUnderflow)
                      else None)
      ensures err.None? ==> State() == old(OnArrival(State(), msg).(rx := RxStore(RxState(), offset, Arrival(n, msg))))
    {
      if |rxedReliable| <= offset {
        rxedReliable := Resize(rxedReliable, offset + 1);
      }
      match msg {
        case Data(bytes) =>
          rxedSize := rxedSize + |bytes|;
          if rxedSize > cfg.recvBuffer {
            return Some(ReceiveBufferOverflow);
          }
        case SendFinish =>
        case Consumed(count) =>
          if count > txedUnconsumed {
            return Some(UnconsumedUnderflow);
          }
          txedUnconsumed := txedUnconsumed - count;
        case ReceiveClose =>
          user := user.(writeClosed := true);
        case ReceiveFinish =>
          user := user.(writeOpen := false, writeQueue := [], sendFinishSent := true);
      }
      rxedReliable := rxedReliable[offset := Some(Arrival(n, msg))];
      err := None;
    }

    /** Takes in a reliable message; returns the protocol error it causes, if any. */
    method HandleReceivedReliableMsg(slot: nat, n: nat, msg: ReliableMsg) returns (err: Option<ProtocolError>)
      requires Occupied(links, slot) && n < MODULUS
      requires Valid()
      modifies this
      ensures match old(Protocol.HandleReceived(Wrapping, State(), slot, n, msg))
              case Ok(e) => err.None? && State() == e && Valid()
              case Err(x) => err == Some(x)
    {
      hide Inv, RxStored, RxStore, Forward, Less, Diff, OnArrival;
      ghost var e := State();
      ReceiveKeeps(Wrapping, e, slot, n, msg);
      InvForReceive(e, n, msg);
      var link := links[slot].value;
      links := links[slot := Some(link.(acks := link.acks + [n], polling := true))];
      idleLinks := Without(idleLinks, slot);
      ghost var e1 := State();
      assert e1 == QueueAck(e, slot, n);
      OnArrivalFrame(e1, msg);
      if !Less(Wrapping, n, rxSeq) {
        var offset := Diff(Wrapping, n, rxSeq);
        if offset < 0 || offset > USABLE_INTERVAL {
          return Some(SequenceUnderflow);
        }
        if |rxedReliable| <= offset || rxedReliable[offset].None? {
          err := StoreReceived(offset, n, msg);
          if err.Some? {
            return;
          }
        }
      }
      ForwardReceived();
      err := None;
    }

    // ------------------------------------------------------------- choosing a link

    /** The most recently idle link that can take more data, and the most recently idle one over
        which the oldest queued packet may be resent. */
    method SelectIdleLinks() returns (sendable: Option<nat>, resendable: Option<nat>)
      requires Valid()
      ensures LastTaker(TxState(), links, idleLinks, 0, None, sendable)
      ensures sendable.Some? ==> Ready(State(), sendable.value)
      ensures resendQueue != [] ==>
                CanResend(TxState())
                && LastTaker(TxState(), links, idleLinks, 0, Some(StatusOf(TxState(), resendQueue[0]).sentLink), resendable)
      ensures resendQueue != [] && resendable.Some? ==> Ready(State(), resendable.value)
    {
      InvForSelect(State());
      hide Inv, Total;
      sendable, resendable := None, None;
      var nonResendable: Option<LinkId> := None;
      if resendQueue != [] {
        nonResendable := Some(txedPackets[resendQueue[0] - (created - |txedPackets|)].status.sentLink);
      }
      var k := |idleLinks|;
      while k > 0
        invariant 0 <= k <= |idleLinks|
        invariant LastTaker(TxState(), links, idleLinks, k, None, sendable)
        invariant LastTaker(TxState(), links, idleLinks, k, nonResendable, resendable)
      {
        if sendable.Some? && (resendable.Some? || nonResendable.None?) {
          break;
        }
        k := k - 1;
        var link := links[idleLinks[k]].value;
        if Sendable(link) {
          if sendable.None? {
            sendable := Some(idleLinks[k]);
          }
          if resendable.None? && nonResendable != Some(link.id) {
            resendable := Some(idleLinks[k]);
          }
        }
      }
    }
  }

  /** Whether a link can take another message, when link `banned` may not be used: what is out on it is below its limit. */
  ghost predicate Takes(tx: Tx, links: seq<Option<Link>>, slot: nat, banned: Option<LinkId>) {
    && Occupied(links, slot) && banned != Some(links[slot].value.id)
    && Total(OnSlot(slot), tx.packets) < links[slot].value.limit
  }

  /** `choice` is the last idle link, from position `k` on, that can take a message, if there is one. */
  ghost predicate LastTaker(tx: Tx, links: seq<Option<Link>>, idle: seq<nat>, k: nat, banned: Option<LinkId>,
                            choice: Option<nat>) {
    match choice
    case None => forall j | k <= j < |idle| :: !Takes(tx, links, idle[j], banned)
    case Some(x) =>
      exists i | k <= i < |idle| ::
        idle[i] == x && Takes(tx, links, x, banned) && forall j | i < j < |idle| :: !Takes(tx, links, idle[j], banned)
  }

  lemma InvForSelect(e: Ep)
    requires Inv(Wrapping, e)
    ensures e.tx.resend != [] ==> CanResend(e.tx)
    ensures forall k | 0 <= k < |e.idle| :: Occupied(e.links, e.idle[k]) && Ready(e, e.idle[k])
    ensures forall s | 0 <= s < |e.links| && e.links[s].Some? :: e.links[s].value.unackedData == Total(OnSlot(s), e.tx.packets)
  {
    if e.tx.resend != [] {
      FrontIsQueued(Wrapping, e.tx);
    }
  }

  lemma ForwardNone(rx: Rx)
    requires rx.next < MODULUS
    ensures rx.buffer[0..] == rx.buffer && rx.consumable + Deliverable(rx.buffer[..0]) == rx.consumable
    ensures Advance(Wrapping, rx.next, 0) == rx.next
  {
    assert rx.buffer[..0] == [];
  }

  lemma ForwardOne(rx: Rx, k: nat)
    requires k < |rx.buffer| && rx.buffer[k].Some?
    ensures rx.consumable + Deliverable(rx.buffer[..k + 1])
            == rx.consumable + Deliverable(rx.buffer[..k])
               + (if Ordered(rx.buffer[k].value.msg) then [rx.buffer[k].value] else [])
    ensures Next(Wrapping, Advance(Wrapping, rx.next, k)) == Advance(Wrapping, rx.next, k + 1)
  {
    assert rx.buffer[..k + 1] == rx.buffer[..k] + [rx.buffer[k]];
    DeliverableAppend(rx.buffer[..k], rx.buffer[k]);
    AdvanceReduce(Wrapping, rx.next + k, 1);
  }

  lemma {:induction false} DeliverableAppend(b: seq<Option<Arrival>>, x: Option<Arrival>)
    ensures Deliverable(b + [x]) == Deliverable(b) + (if x.Some? && Ordered(x.value.msg) then [x.value] else [])
  {
    if b == [] {
      assert b + [x] == [x];
    } else {
      DeliverableAppend(b[1..], x);
      assert (b + [x])[1..] == b[1..] + [x] && (b + [x])[0] == b[0];
    }
  }

  /** What taking in a message relies on. */
  lemma InvForReceive(e: Ep, n: nat, msg: ReliableMsg)
    requires Inv(Wrapping, e) && n < MODULUS
    ensures RxStored(Wrapping, e.rx)
    ensures Place(Wrapping, e.rx, n).Fresh? ==>
              RxStored(Wrapping, RxStore(e.rx, Place(Wrapping, e.rx, n).offset, Arrival(n, msg)))
  {
    if Place(Wrapping, e.rx, n).Fresh? {
      PlaceExact(Wrapping, e.rx, n);
      StoreKeeps(Wrapping, e.rx, Place(Wrapping, e.rx, n).offset, Arrival(n, msg));
    }
  }

  /** What processing an acknowledgement relies on. */
  lemma InvForAck(e: Ep, slot: nat, n: nat)
    requires Occupied(e.links, slot) && n < MODULUS
    requires Inv(Wrapping, e)
    ensures Numbered(Wrapping, e.tx) && AllKept(e.tx, e.tx.resend) && |e.tx.packets| <= e.tx.created
    ensures AckIndex(Wrapping, e.tx, n).Some? ==>
              var p := e.tx.packets[AckIndex(Wrapping, e.tx, n).value];
              && p.num == n && p.uid == Base(e.tx) + AckIndex(Wrapping, e.tx, n).value && Kept(e.tx, p.uid)
              && (!p.status.Received? ==> Size(p.status.msg) <= e.tx.unacked)
              && (p.status.Sent? && p.status.slot == slot ==> Size(p.status.msg) <= e.links[slot].value.unackedData)
              && (!p.status.ResendQueued? ==> Without(e.tx.resend, p.uid) == e.tx.resend)
  {
    QueuedIsExact(e.tx.packets, Base(e.tx));
    forall i | 0 <= i < |e.tx.resend|
      ensures Kept(e.tx, e.tx.resend[i])
    {
      assert e.tx.resend[i] in e.tx.resend;
    }
    AckIndexExact(Wrapping, e.tx, n);
    if AckIndex(Wrapping, e.tx, n).Some? {
      var i := AckIndex(Wrapping, e.tx, n).value;
      TotalAtLeast(Unacked, e.tx.packets, i);
      TotalAtLeast(OnSlot(slot), e.tx.packets, i);
      WithoutExact(e.tx.resend, e.tx.packets[i].uid);
    }
  }

  lemma QueueReadable(tx: Tx, tx': Tx)
    requires Numbered(Wrapping, tx) && AllKept(tx, tx.resend)
    requires tx'.created == tx.created && tx'.packets == tx.packets && tx'.next == tx.next && tx'.resend == tx.resend
    ensures Numbered(Wrapping, tx') && AllKept(tx', tx'.resend)
  {
  }

  lemma AckLength(e: Ep, slot: nat, n: nat)
    requires Occupied(e.links, slot) && n < MODULUS
    requires Inv(Wrapping, e)
    ensures var tx := TxAck(Wrapping, e.tx, slot, n); |tx.packets| <= tx.created == e.tx.created
  {
    hide Inv, TxMark;
    InvForAck(e, slot, n);
    AckStatuses(Wrapping, e.tx, slot, n, 0);
  }

  lemma MarkAccounted(e: Ep, slot: nat, n: nat)
    requires Inv(Wrapping, e)
    ensures var tx := TxMark(Wrapping, e.tx, slot, n); tx.unconsumable == Total(Unconsumable, tx.packets)
  {
    var i := AckIndex(Wrapping, e.tx, n);
    if i.Some? && Settles(e.tx.packets[i.value].status, slot) {
      SettleKeepsTx(Wrapping, e.tx, i.value);
    }
  }

  lemma NoneNewly(slot: nat)
    ensures Newly([], slot) == [] && Total(OnSlot(slot), []) == 0
  {
  }

  /** What re-queuing one more packet adds and takes off. */
  lemma RequeueOne(ps: seq<Packet>, i: nat, slot: nat)
    requires i < |ps|
    ensures Newly(ps[..i + 1], slot) == Newly(ps[..i], slot) + NewlyOne(ps[i], slot)
    ensures Total(OnSlot(slot), ps[i..]) == Weight(OnSlot(slot), ps[i].status) + Total(OnSlot(slot), ps[i + 1..])
  {
    assert ps[..i + 1][..i] == ps[..i] && ps[i..][1..] == ps[i + 1..];
  }

  /** Flushing a link before unconfirming it leaves no trace. */
  lemma InvForRequeue(e: Ep, e': Ep, slot: nat)
    requires Occupied(e.links, slot) && e' == FlushLink(e, slot)
    requires Inv(Wrapping, e) && Inv(Wrapping, e')
    ensures Requeue(e'.tx.packets, slot) == Requeue(e.tx.packets, slot)
    ensures e'.links[slot].value.unackedData == Total(OnSlot(slot), e'.tx.packets)
  {
    var l := e.links[slot].value.id;
    forall i | 0 <= i < |e.tx.packets|
      ensures Requeue(e'.tx.packets, slot)[i] == Requeue(e.tx.packets, slot)[i]
    {
      var st := e.tx.packets[i].status;
      if st.Sent? && st.link == l {
        assert Occupied(e.links, st.slot) && e.links[st.slot].value.id == st.link;
        assert st.slot == slot;
      }
    }
  }

  /** The endpoint once the packets of a link are re-queued, in the order they were found. */
  ghost function Requeued(e: Ep, slot: nat): Ep
    requires Occupied(e.links, slot)
  {
    var link := e.links[slot].value;
    SetLink(e, slot, link.(unconfirmed := true, polling := true, unackedData := 0, limit := Max(link.limit / 2, 128))).(
      tx := e.tx.(packets := Requeue(e.tx.packets, slot), resend := e.tx.resend + Newly(e.tx.packets, slot)),
      idle := Without(e.idle, slot))
  }

  lemma InvForSort(e: Ep, slot: nat)
    requires Inv(Wrapping, e) && Occupied(e.links, slot)
    ensures var tx' := Requeued(e, slot).tx;
            && Numbered(Wrapping, tx') && AllKept(tx', tx'.resend) && |tx'.packets| == |e.tx.packets| <= e.tx.created
            && DropStale(e.links[slot].value.txed, tx', e.links[slot].value.id) == []
    ensures e.tx.resend == Queued(e.tx.packets) && Consecutive(e.tx.packets, Base(e.tx))
    ensures e.links[slot].value.unackedData == Total(OnSlot(slot), e.tx.packets)
  {
    var link := e.links[slot].value;
    RequeueKeepsNumbers(e.tx, e.tx.resend + Newly(e.tx.packets, slot), slot);
    NothingCurrent(e, slot, Requeued(e, slot).tx, link.txed);
  }

  lemma {:induction false} NewlyIgnoresFlush(ps: seq<Packet>, l: LinkId, slot: nat)
    ensures Newly(MarkFlushed(ps, l), slot) == Newly(ps, slot)
  {
    if ps != [] {
      var front := ps[..|ps| - 1];
      assert MarkFlushed(ps, l)[..|ps| - 1] == MarkFlushed(front, l);
      NewlyIgnoresFlush(front, l, slot);
    }
  }

  lemma RequeueKeepsNumbers(tx: Tx, queue: seq<nat>, slot: nat)
    requires Numbered(Wrapping, tx)
    requires queue == Queued(tx.packets) + Newly(tx.packets, slot)
    ensures var tx' := tx.(packets := Requeue(tx.packets, slot), resend := queue);
            Numbered(Wrapping, tx') && AllKept(tx', queue)
  {
    hide Queued, Newly;
    var ps := Requeue(tx.packets, slot);
    assert Consecutive(ps, Base(tx));
    QueueSplits(tx.packets, slot);
    QueuedInRange(ps, Base(tx), queue);
  }

  lemma QueuedInRange(ps: seq<Packet>, base: int, queue: seq<nat>)
    requires Consecutive(ps, base) && multiset(queue) == multiset(Queued(ps))
    ensures forall i | 0 <= i < |queue| :: base <= queue[i] < base + |ps|
  {
    QueuedIsExact(ps, base);
    SameElements(queue, Queued(ps));
    hide *;
  }

  lemma SameElements(s: seq<nat>, t: seq<nat>)
    requires multiset(s) == multiset(t)
    ensures forall i | 0 <= i < |s| :: s[i] in t
  {
    forall i | 0 <= i < |s|
      ensures s[i] in t
    {
      assert s[i] in multiset(s);
      assert s[i] in multiset(t);
    }
  }

  lemma NothingCurrent(e: Ep, slot: nat, tx: Tx, txed: seq<nat>)
    requires Occupied(e.links, slot) && Slotted(e.tx, e.links) && DistinctIds(e.links)
    requires tx.created == e.tx.created && tx.packets == Requeue(e.tx.packets, slot)
    ensures DropStale(txed, tx, e.links[slot].value.id) == []
  {
    RequeueEmpties(e.tx, e.links, slot);
    assert forall uid: nat :: Current(tx, e.links[slot].value.id, uid) == Current(TxRequeue(e.tx, slot), e.links[slot].value.id, uid);
    DropStaleExact(txed, tx, e.links[slot].value.id);
  }

  lemma WithoutTwice(s: seq<nat>, x: nat)
    ensures Without(Without(s, x), x) == Without(s, x)
  {
    WithoutExact(s, x);
    WithoutExact(Without(s, x), x);
  }

  /** The part of the invariant that flushing relies on. */
  ghost predicate Listed(tx: Tx, links: seq<Option<Link>>) {
    |tx.packets| <= tx.created && Consecutive(tx.packets, Base(tx)) && ListsOk(tx, links)
  }

  lemma InvIsListed(e: Ep)
    requires Inv(Wrapping, e)
    ensures Listed(e.tx, e.links) && |e.tx.packets| <= e.tx.created
  {
  }

  /** A link's packet list only depends on its identity and its entries. */
  lemma ListedFrame(tx: Tx, links: seq<Option<Link>>, links': seq<Option<Link>>)
    requires Listed(tx, links) && |links'| == |links|
    requires forall s | 0 <= s < |links| ::
               links'[s].Some? == links[s].Some?
               && (links[s].Some? ==> links'[s].value.id == links[s].value.id && links'[s].value.txed == links[s].value.txed)
    ensures Listed(tx, links')
  {
    forall s | 0 <= s < |links'| && links'[s].Some?
      ensures ListOk(tx, links'[s].value)
    {
      assert ListOk(tx, links[s].value);
    }
  }

  lemma ListedIgnoresQueue(tx: Tx, links: seq<Option<Link>>, queue: seq<nat>)
    requires Listed(tx, links)
    ensures Listed(tx.(resend := queue), links)
  {
    var tx' := tx.(resend := queue);
    assert forall uid: nat :: Kept(tx', uid) == Kept(tx, uid);
    assert forall uid: nat | Kept(tx, uid) :: StatusOf(tx', uid) == StatusOf(tx, uid);
    assert forall l: LinkId, uid: nat :: Current(tx', l, uid) == Current(tx, l, uid);
    forall s | 0 <= s < |links| && links[s].Some?
      ensures ListOk(tx', links[s].value)
    {
      assert ListOk(tx, links[s].value);
      forall k | 0 <= k < |links[s].value.txed|
        ensures EntryOk(tx', links[s].value.id, links[s].value.txed[k])
      {
        assert EntryOk(tx, links[s].value.id, links[s].value.txed[k]);
      }
    }
  }

  /** The packets listed from `k` on are flushed, those listed before are as they were. */
  ghost predicate FlushedDown(tx: Tx, link: Link, ps: seq<Packet>, k: int) {
    && |ps| == |tx.packets| <= tx.created
    && (forall i | 0 <= i < |ps| ::
          ps[i] == tx.packets[i] || ps[i] == tx.packets[i].(status := FlushStatus(tx.packets[i].status, link.id)))
    && (forall j | 0 <= j < |link.txed| && Current(tx, link.id, link.txed[j]) ::
          var i := link.txed[j] - Base(tx);
          ps[i] == if j < k then tx.packets[i] else tx.packets[i].(status := FlushStatus(tx.packets[i].status, link.id)))
  }

  lemma FlushStarts(tx: Tx, link: Link)
    requires |tx.packets| <= tx.created
    ensures FlushedDown(tx, link, tx.packets, |link.txed|)
  {
  }

  lemma FlushOneMore(tx: Tx, link: Link, ps: seq<Packet>, k: nat)
    requires ListOk(tx, link) && k < |link.txed| && FlushedDown(tx, link, ps, k + 1)
    ensures var uid := link.txed[k];
            && EntryOk(tx, link.id, uid)
            && if Current(tx, link.id, uid) then
                 var i := uid - Base(tx);
                 var st := StatusOf(tx, uid);
                 && ps[i] == tx.packets[i]
                 && (st.flushed ==> FlushedDown(tx, link, ps, k))
                 && FlushedDown(tx, link, ps[i := ps[i].(status := st.(flushed := true))], k)
               else
                 && FlushedDown(tx, link, ps, k)
                 && (Kept(tx, uid) ==> !(ps[uid - Base(tx)].status.Sent? && ps[uid - Base(tx)].status.link == link.id))
  {
  }


  /** Stopping early marks as much as marking every packet of the link. */
  lemma FlushComplete(tx: Tx, link: Link, ps: seq<Packet>, k: nat)
    requires |tx.packets| <= tx.created && Consecutive(tx.packets, Base(tx)) && ListOk(tx, link)
    requires k <= |link.txed| && FlushedDown(tx, link, ps, k)
    requires k == 0 || (k < |link.txed| && Current(tx, link.id, link.txed[k]) && StatusOf(tx, link.txed[k]).flushed)
    ensures ps == MarkFlushed(tx.packets, link.id)
  {
    forall i | 0 <= i < |ps|
      ensures ps[i] == tx.packets[i].(status := FlushStatus(tx.packets[i].status, link.id))
    {
      var uid := Base(tx) + i;
      assert StatusOf(tx, uid) == tx.packets[i].status;
      if Current(tx, link.id, uid) {
        var j :| 0 <= j < |link.txed| && link.txed[j] == uid;
        if j < k {
          assert StatusOf(tx, link.txed[j]).flushed;
        }
      }
    }
  }
}
