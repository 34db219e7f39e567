/** Every operation of an endpoint keeps its invariant. */
module Preservation {
  import opened Numbering
  import opened Protocol
  import opened Invariants

  // ----------------------------------------------------------------------- flushing

  /** Flushing changes nothing but the flush marks of one link's packets. */
  lemma FlushedPackets(ps: seq<Packet>, l: LinkId)
    ensures Total(Unacked, MarkFlushed(ps, l)) == Total(Unacked, ps)
    ensures Total(Unconsumable, MarkFlushed(ps, l)) == Total(Unconsumable, ps)
    ensures forall s: nat :: Total(OnSlot(s), MarkFlushed(ps, l)) == Total(OnSlot(s), ps)
    ensures Queued(MarkFlushed(ps, l)) == Queued(ps)
  {
    var qs := MarkFlushed(ps, l);
    TotalSame(Unacked, qs, ps);
    TotalSame(Unconsumable, qs, ps);
    forall s: nat
      ensures Total(OnSlot(s), qs) == Total(OnSlot(s), ps)
    {
      TotalSame(OnSlot(s), qs, ps);
    }
    QueuedSame(qs, ps);
  }

  lemma FlushKeepsTx(num: Numbering, tx: Tx, l: LinkId, flush: bool)
    requires TxOk(num, tx)
    ensures TxOk(num, FlushTx(tx, l, flush))
  {
    FlushedPackets(tx.packets, l);
  }

  lemma FlushKeepsList(tx: Tx, l: LinkId, link: Link)
    requires ListOk(tx, link)
    ensures ListOk(FlushTx(tx, l, true), link)
  {
    var tx' := FlushTx(tx, l, true);
    assert forall uid: nat :: Kept(tx', uid) == Kept(tx, uid);
    assert forall uid: nat | Kept(tx, uid) ::
      StatusOf(tx', uid) == FlushStatus(StatusOf(tx, uid), l);
    assert forall uid: nat :: Current(tx', link.id, uid) == Current(tx, link.id, uid);
    forall k | 0 <= k < |link.txed|
      ensures EntryOk(tx', link.id, link.txed[k])
    {
      assert EntryOk(tx, link.id, link.txed[k]);
    }
  }

  lemma FlushKeepsLinks(tx: Tx, links: seq<Option<Link>>, idle: seq<nat>, l: LinkId, flush: bool)
    requires LinksOk(tx, links, idle)
    ensures LinksOk(FlushTx(tx, l, flush), links, idle)
  {
    if flush {
      var tx' := FlushTx(tx, l, true);
      FlushedPackets(tx.packets, l);
      assert forall i | 0 <= i < |tx.packets| ::
        tx'.packets[i].status.Sent? == tx.packets[i].status.Sent?;
      forall s | 0 <= s < |links| && links[s].Some?
        ensures ListOk(tx', links[s].value)
      {
        FlushKeepsList(tx, l, links[s].value);
      }
    }
  }

  // ------------------------------------------------------------------------ sending

  lemma AppendKeepsTx(num: Numbering, tx: Tx, slot: nat, l: LinkId, msg: ReliableMsg)
    requires TxOk(num, tx)
    ensures TxOk(num, TxAppend(num, tx, slot, l, msg))
  {
    var p := Packet(tx.created, tx.next, Sent(slot, l, msg, false, false));
    TotalAppend(Unacked, tx.packets, [p]);
    TotalAppend(Unconsumable, tx.packets, [p]);
    QueuedAppend(tx.packets, [p]);
    AdvanceReduce(num, tx.created, 1);
  }

  /** The statuses an endpoint has after sending: one new packet, the rest unchanged. */
  lemma AppendStatuses(num: Numbering, tx: Tx, slot: nat, l: LinkId, msg: ReliableMsg)
    requires |tx.packets| <= tx.created
    ensures var tx' := TxAppend(num, tx, slot, l, msg);
            && Base(tx') == Base(tx)
            && (forall uid: nat :: Kept(tx', uid) <==> Kept(tx, uid) || uid == tx.created)
            && (forall uid: nat | Kept(tx, uid) :: StatusOf(tx', uid) == StatusOf(tx, uid))
            && StatusOf(tx', tx.created) == Sent(slot, l, msg, false, false)
  {
  }

  lemma AppendKeepsLists(num: Numbering, tx: Tx, links: seq<Option<Link>>, slot: nat, msg: ReliableMsg, link': Link)
    requires |tx.packets| <= tx.created && ListsOk(tx, links) && DistinctIds(links) && Occupied(links, slot)
    requires link'.id == links[slot].value.id && link'.txed == links[slot].value.txed + [tx.created]
    ensures ListsOk(TxAppend(num, tx, slot, link'.id, msg), links[slot := Some(link')])
  {
    hide ListOk, TxAppend;
    var links' := links[slot := Some(link')];
    forall s | 0 <= s < |links'| && links'[s].Some?
      ensures ListOk(TxAppend(num, tx, slot, link'.id, msg), links'[s].value)
    {
      AppendKeepsList(num, tx, links[s].value, slot, msg, link'.id, links'[s].value);
    }
  }

  lemma AppendKeepsList(num: Numbering, tx: Tx, link: Link, slot: nat, msg: ReliableMsg, l: LinkId, link': Link)
    requires |tx.packets| <= tx.created && ListOk(tx, link) && link'.id == link.id
    requires link'.txed == if link.id == l then link.txed + [tx.created] else link.txed
    ensures ListOk(TxAppend(num, tx, slot, l, msg), link')
  {
    var tx' := TxAppend(num, tx, slot, l, msg);
    AppendStatuses(num, tx, slot, l, msg);
    hide TxAppend, StatusOf;
    assert forall k | 0 <= k < |link.txed| :: EntryOk(tx, link.id, link.txed[k]);
    assert forall uid: nat | Kept(tx, uid) :: Current(tx', link.id, uid) == Current(tx, link.id, uid);
    assert link.id != l ==> !Current(tx', link.id, tx.created);
  }

  lemma AppendKeepsLinks(num: Numbering, tx: Tx, links: seq<Option<Link>>, idle: seq<nat>,
                         slot: nat, msg: ReliableMsg, link': Link)
    requires |tx.packets| <= tx.created && LinksOk(tx, links, idle)
    requires Occupied(links, slot) && slot !in idle
    requires link'.id == links[slot].value.id && link'.txed == links[slot].value.txed + [tx.created]
    requires link'.unackedData == links[slot].value.unackedData + Size(msg) && link'.polling
    ensures LinksOk(TxAppend(num, tx, slot, link'.id, msg), links[slot := Some(link')], idle)
  {
    var p := Packet(tx.created, tx.next, Sent(slot, link'.id, msg, false, false));
    forall s | 0 <= s < |links|
      ensures Total(OnSlot(s), tx.packets + [p]) == Total(OnSlot(s), tx.packets) + (if s == slot then Size(msg) else 0)
    {
      TotalAppend(OnSlot(s), tx.packets, [p]);
      assert Total(OnSlot(s), [p]) == Weight(OnSlot(s), p.status);
    }
    AppendKeepsLists(num, tx, links, slot, msg, link');
  }

  /** Sending keeps the invariant. */
  lemma SendKeeps(num: Numbering, e: Ep, slot: nat, msg: ReliableMsg, limitReached: bool)
    requires Inv(num, e) && Ready(e, slot) && slot !in e.idle
    ensures Inv(num, SendReliable(num, e, slot, msg, limitReached))
  {
    var link := e.links[slot].value;
    var flush := limitReached || FlushesAlways(msg);
    FlushKeepsTx(num, e.tx, link.id, flush);
    FlushKeepsLinks(e.tx, e.links, e.idle, link.id, flush);
    var tx := FlushTx(e.tx, link.id, flush);
    AppendKeepsTx(num, tx, slot, link.id, msg);
    var e' := SendReliable(num, e, slot, msg, limitReached);
    AppendKeepsLinks(num, tx, e.links, e.idle, slot, msg, e'.links[slot].value);
  }

  // ---------------------------------------------------------------------- resending

  /** The front of the resend queue always stands for a queued packet. */
  lemma FrontIsQueued(num: Numbering, tx: Tx)
    requires TxOk(num, tx) && tx.resend != []
    ensures CanResend(tx)
  {
    QueuedIsExact(tx.packets, Base(tx));
    assert tx.resend[0] in tx.resend;
  }

  lemma ReturnSums(tx: Tx, i: nat, p: Packet)
    requires i < |tx.packets| && tx.packets[i].status.ResendQueued? && p.status.Sent?
    requires p.status.msg == tx.packets[i].status.msg
    ensures Total(Unacked, tx.packets[i := p]) == Total(Unacked, tx.packets)
    ensures Total(Unconsumable, tx.packets[i := p]) == Total(Unconsumable, tx.packets)
  {
    TotalUpdate(Unacked, tx.packets, i, p);
    TotalUpdate(Unconsumable, tx.packets, i, p);
  }

  lemma ReturnQueue(tx: Tx, i: nat, p: Packet)
    requires Consecutive(tx.packets, Base(tx)) && |tx.packets| <= tx.created && ResendExact(tx)
    requires i < |tx.packets| && tx.resend != [] && tx.resend[0] == Base(tx) + i
    requires p.uid == tx.packets[i].uid && p.status.Sent?
    ensures Queued(tx.packets[i := p]) == tx.resend[1..]
  {
    QueuedUpdate(tx.packets, Base(tx), i, p);
    QueuedIsExact(tx.packets, Base(tx));
    WithoutExact(tx.resend[1..], tx.resend[0]);
  }

  lemma ReturnKeepsTx(num: Numbering, tx: Tx, slot: nat, l: LinkId)
    requires TxOk(num, tx) && CanResend(tx)
    ensures TxOk(num, TxReturn(tx, slot, l))
  {
    hide Total, Queued;
    var tx' := TxReturn(tx, slot, l);
    var i := tx.resend[0] - Base(tx);
    ReturnSums(tx, i, tx'.packets[i]);
    ReturnQueue(tx, i, tx'.packets[i]);
  }

  lemma ReturnStatuses(num: Numbering, tx: Tx, slot: nat, l: LinkId)
    requires TxOk(num, tx) && CanResend(tx)
    ensures var tx', u := TxReturn(tx, slot, l), tx.resend[0];
            && tx'.created == tx.created && (forall uid: nat :: Kept(tx', uid) == Kept(tx, uid))
            && (forall uid: nat | Kept(tx, uid) && uid != u :: StatusOf(tx', uid) == StatusOf(tx, uid))
            && StatusOf(tx', u) == Sent(slot, l, StatusOf(tx, u).msg, false, true)
  {
  }

  /** A queued packet is in no link's list; returning it leaves the entries of a list as they are. */
  lemma ReturnKeepsEntries(num: Numbering, tx: Tx, slot: nat, l: LinkId, link: Link)
    requires TxOk(num, tx) && CanResend(tx) && ListOk(tx, link)
    ensures var tx', u := TxReturn(tx, slot, l), tx.resend[0];
            && u !in link.txed && (forall uid: nat | uid != u :: Current(tx', link.id, uid) == Current(tx, link.id, uid))
            && (Current(tx', link.id, u) <==> l == link.id)
            && (forall k | 0 <= k < |link.txed| :: EntryOk(tx', link.id, link.txed[k]))
            && FlushedFirst(tx', link)
  {
    ReturnStatuses(num, tx, slot, l);
    hide TxOk, TxReturn, Distinct;
    assert forall k | 0 <= k < |link.txed| :: EntryOk(tx, link.id, link.txed[k]);
  }

  lemma ReturnKeepsLists(num: Numbering, tx: Tx, links: seq<Option<Link>>, slot: nat, link': Link)
    requires TxOk(num, tx) && CanResend(tx) && ListsOk(tx, links) && DistinctIds(links) && Occupied(links, slot)
    requires link'.id == links[slot].value.id && link'.txed == links[slot].value.txed + [tx.resend[0]]
    ensures ListsOk(TxReturn(tx, slot, link'.id), links[slot := Some(link')])
  {
    var u := tx.resend[0];
    var tx' := TxReturn(tx, slot, link'.id);
    var links' := links[slot := Some(link')];
    forall s | 0 <= s < |links'| && links'[s].Some?
      ensures ListOk(tx', links'[s].value)
    {
      var old' := links[s].value;
      assert ListOk(tx, old');
      ReturnKeepsEntries(num, tx, slot, link'.id, old');
      if s == slot {
        ReturnStatuses(num, tx, slot, link'.id);
      }
      hide TxOk, TxReturn;
    }
  }

  lemma ReturnKeepsLinks(num: Numbering, tx: Tx, links: seq<Option<Link>>, idle: seq<nat>, slot: nat, link': Link)
    requires TxOk(num, tx) && CanResend(tx) && LinksOk(tx, links, idle)
    requires Occupied(links, slot) && slot !in idle
    requires link'.id == links[slot].value.id && link'.txed == links[slot].value.txed + [tx.resend[0]]
    requires link'.unackedData == links[slot].value.unackedData + Size(StatusOf(tx, tx.resend[0]).msg) && link'.polling
    ensures LinksOk(TxReturn(tx, slot, link'.id), links[slot := Some(link')], idle)
  {
    var tx' := TxReturn(tx, slot, link'.id);
    var i := tx.resend[0] - Base(tx);
    forall s | 0 <= s < |links|
      ensures Total(OnSlot(s), tx'.packets) == Total(OnSlot(s), tx.packets)
                                               + (if s == slot then Size(tx.packets[i].status.msg) else 0)
    {
      TotalUpdate(OnSlot(s), tx.packets, i, tx'.packets[i]);
    }
    ReturnKeepsLists(num, tx, links, slot, link');
    hide TxReturn, TxOk, ListOk, Total, CanResend;
  }

  /** Resending keeps the invariant. */
  lemma ResendKeeps(num: Numbering, e: Ep, slot: nat, limitReached: bool)
    requires Inv(num, e) && Ready(e, slot) && slot !in e.idle && CanResend(e.tx)
    ensures Inv(num, ResendReliable(e, slot, limitReached))
  {
    hide TxOk, LinksOk, RxOk;
    var link := e.links[slot].value;
    var flush := limitReached || FlushesAlways(StatusOf(e.tx, e.tx.resend[0]).msg);
    FlushKeepsTx(num, e.tx, link.id, flush);
    FlushKeepsLinks(e.tx, e.links, e.idle, link.id, flush);
    var tx := FlushTx(e.tx, link.id, flush);
    ReturnKeepsTx(num, tx, slot, link.id);
    var e' := ResendReliable(e, slot, limitReached);
    ReturnKeepsLinks(num, tx, e.links, e.idle, slot, e'.links[slot].value);
  }

  // -------------------------------------------------------------------- unconfirming

  lemma RequeueKeepsTx(num: Numbering, tx: Tx, slot: nat)
    requires TxOk(num, tx)
    ensures TxOk(num, TxRequeue(tx, slot))
  {
    TotalSame(Unacked, Requeue(tx.packets, slot), tx.packets);
    TotalSame(Unconsumable, Requeue(tx.packets, slot), tx.packets);
  }

  lemma RequeueKeepsList(tx: Tx, links: seq<Option<Link>>, slot: nat, s: nat)
    requires Slotted(tx, links) && Occupied(links, slot) && Occupied(links, s) && s != slot
    requires DistinctIds(links) && ListOk(tx, links[s].value)
    ensures ListOk(TxRequeue(tx, slot), links[s].value)
  {
    var link := links[s].value;
    var tx' := TxRequeue(tx, slot);
    assert forall uid: nat :: Kept(tx', uid) == Kept(tx, uid);
    assert forall uid: nat | Kept(tx, uid) :: StatusOf(tx', uid) == RequeueStatus(StatusOf(tx, uid), slot);
    assert link.id != links[slot].value.id;
    forall uid: nat
      ensures Current(tx', link.id, uid) == Current(tx, link.id, uid)
      ensures Current(tx, link.id, uid) ==> StatusOf(tx', uid) == StatusOf(tx, uid)
    {
      if Current(tx, link.id, uid) {
        assert tx.packets[uid - Base(tx)].status.slot != slot;
      }
    }
    forall k | 0 <= k < |link.txed|
      ensures EntryOk(tx', link.id, link.txed[k])
    {
      assert EntryOk(tx, link.id, link.txed[k]);
    }
  }

  lemma RequeueEmpties(tx: Tx, links: seq<Option<Link>>, slot: nat)
    requires Slotted(tx, links) && Occupied(links, slot) && DistinctIds(links)
    ensures forall uid: nat :: !Current(TxRequeue(tx, slot), links[slot].value.id, uid)
  {
    var tx' := TxRequeue(tx, slot);
    forall uid: nat
      ensures !Current(tx', links[slot].value.id, uid)
    {
      if Kept(tx', uid) {
        assert StatusOf(tx', uid) == RequeueStatus(StatusOf(tx, uid), slot);
        assert StatusOf(tx, uid) == tx.packets[uid - Base(tx)].status;
      }
    }
  }

  lemma RequeueTotals(tx: Tx, slot: nat, s: nat)
    ensures Total(OnSlot(s), TxRequeue(tx, slot).packets) == if s == slot then 0 else Total(OnSlot(s), tx.packets)
  {
    if s == slot {
      TotalZero(OnSlot(s), TxRequeue(tx, slot).packets);
    } else {
      TotalSame(OnSlot(s), TxRequeue(tx, slot).packets, tx.packets);
    }
  }

  lemma UnconfirmKeepsIdle(links: seq<Option<Link>>, idle: seq<nat>, slot: nat, link': Link)
    requires Occupied(links, slot) && IdleOk(links, idle)
    ensures IdleOk(links[slot := Some(link')], Without(idle, slot))
  {
    WithoutExact(idle, slot);
    hide Without;
    var idle' := Without(idle, slot);
    forall k | 0 <= k < |idle'|
      ensures idle'[k] in idle && idle'[k] != slot
    {
      assert idle'[k] in idle';
    }
  }

  lemma UnconfirmKeepsSlotted(tx: Tx, links: seq<Option<Link>>, slot: nat, link': Link)
    requires Occupied(links, slot) && Slotted(tx, links) && link'.id == links[slot].value.id
    ensures Slotted(TxRequeue(tx, slot), links[slot := Some(link')])
  {
    var tx' := TxRequeue(tx, slot);
    forall i | 0 <= i < |tx'.packets| && tx'.packets[i].status.Sent?
      ensures tx'.packets[i].status == tx.packets[i].status
    {
    }
  }

  lemma UnconfirmKeepsLists(tx: Tx, links: seq<Option<Link>>, slot: nat, link': Link)
    requires Occupied(links, slot) && Slotted(tx, links) && DistinctIds(links) && ListsOk(tx, links)
    requires link'.id == links[slot].value.id && link'.txed == []
    ensures ListsOk(TxRequeue(tx, slot), links[slot := Some(link')])
  {
    var tx', links' := TxRequeue(tx, slot), links[slot := Some(link')];
    forall s | 0 <= s < |links'| && links'[s].Some?
      ensures ListOk(tx', links'[s].value)
    {
      if s != slot {
        RequeueKeepsList(tx, links, slot, s);
      } else {
        RequeueEmpties(tx, links, slot);
      }
    }
  }

  lemma UnconfirmKeepsTotals(tx: Tx, links: seq<Option<Link>>, slot: nat, link': Link)
    requires Occupied(links, slot) && LinkAccounted(tx, links) && link'.unackedData == 0
    ensures LinkAccounted(TxRequeue(tx, slot), links[slot := Some(link')])
  {
    var tx', links' := TxRequeue(tx, slot), links[slot := Some(link')];
    forall s | 0 <= s < |links'| && links'[s].Some?
      ensures links'[s].value.unackedData == Total(OnSlot(s), tx'.packets)
    {
      RequeueTotals(tx, slot, s);
    }
  }

  lemma UnconfirmKeeps(num: Numbering, e: Ep, slot: nat)
    requires Inv(num, e) && Occupied(e.links, slot)
    ensures Inv(num, UnconfirmLink(e, slot))
    ensures UnconfirmLink(e, slot).links[slot].value.unackedData == 0
  {
    hide TxOk, RxOk, IdleOk, Slotted, ListsOk, LinkAccounted, Total, Without, TxRequeue;
    var link' := UnconfirmLink(e, slot).links[slot].value;
    AccountedAt(e.tx, e.links, slot);
    RequeueKeepsTx(num, e.tx, slot);
    UnconfirmKeepsIdle(e.links, e.idle, slot, link');
    UnconfirmKeepsSlotted(e.tx, e.links, slot, link');
    UnconfirmKeepsLists(e.tx, e.links, slot, link');
    UnconfirmKeepsTotals(e.tx, e.links, slot, link');
  }

  lemma AccountedAt(tx: Tx, links: seq<Option<Link>>, slot: nat)
    requires LinkAccounted(tx, links) && Occupied(links, slot)
    ensures links[slot].value.unackedData == Total(OnSlot(slot), tx.packets)
  {
  }

  // ------------------------------------------------------------- adding and removing

  lemma {:induction false} TrimExact(links: seq<Option<Link>>)
    ensures Trim(links) <= links && Trimmed(Trim(links))
    ensures forall s | |Trim(links)| <= s < |links| :: links[s].None?
  {
    if links != [] && links[|links| - 1].None? {
      TrimExact(links[..|links| - 1]);
    }
  }

  /** After unconfirming, no packet names the slot any more. */
  lemma RequeueFrees(tx: Tx, slot: nat)
    ensures forall i | 0 <= i < |tx.packets| && TxRequeue(tx, slot).packets[i].status.Sent? ::
              TxRequeue(tx, slot).packets[i].status.slot != slot
  {
  }

  /** Clearing a slot that no packet names, and trimming, keeps the links coherent. */
  lemma ClearKeepsLinks(tx: Tx, links: seq<Option<Link>>, idle: seq<nat>, slot: nat)
    requires LinksOk(tx, links, idle) && Occupied(links, slot) && slot !in idle
    requires forall i | 0 <= i < |tx.packets| && tx.packets[i].status.Sent? :: tx.packets[i].status.slot != slot
    ensures LinksOk(tx, Trim(links[slot := None]), idle)
  {
    var links1 := links[slot := None];
    var links2 := Trim(links1);
    TrimExact(links1);
    assert forall s | 0 <= s < |links2| :: links2[s] == links1[s];
    forall s: nat | Occupied(links1, s)
      ensures Occupied(links2, s) && links2[s] == links[s]
    {
      assert s < |links2|;
    }
    forall k | 0 <= k < |idle|
      ensures Occupied(links2, idle[k]) && links2[idle[k]] == links[idle[k]]
    {
      assert idle[k] in idle;
      assert Occupied(links1, idle[k]);
    }
    forall i | 0 <= i < |tx.packets| && tx.packets[i].status.Sent?
      ensures Occupied(links2, tx.packets[i].status.slot)
              && links2[tx.packets[i].status.slot].value.id == tx.packets[i].status.link
    {
      assert Occupied(links1, tx.packets[i].status.slot);
    }
  }

  lemma RemoveKeeps(num: Numbering, e: Ep, slot: nat)
    requires Inv(num, e) && Occupied(e.links, slot)
    ensures Inv(num, RemoveLink(e, slot))
  {
    UnconfirmKeeps(num, e, slot);
    RequeueFrees(e.tx, slot);
    WithoutExact(e.idle, slot);
    var e1 := UnconfirmLink(e, slot);
    ClearKeepsLinks(e1.tx, e1.links, e1.idle, slot);
  }

  lemma FreeSlotIsUnused(tx: Tx, links: seq<Option<Link>>, f: nat, l: LinkId)
    requires Slotted(tx, links) && !Occupied(links, f)
    requires forall s | 0 <= s < |links| && links[s].Some? :: links[s].value.id != l
    ensures Total(OnSlot(f), tx.packets) == 0
    ensures forall uid: nat :: !Current(tx, l, uid)
  {
    forall i | 0 <= i < |tx.packets|
      ensures Weight(OnSlot(f), tx.packets[i].status) == 0
    {
      if tx.packets[i].status.Sent? {
        assert Occupied(links, tx.packets[i].status.slot);
      }
    }
    TotalZero(OnSlot(f), tx.packets);
  }

  lemma AddKeepsLinks(tx: Tx, links: seq<Option<Link>>, idle: seq<nat>, links': seq<Option<Link>>, f: nat, link: Link)
    requires LinksOk(tx, links, idle) && !Occupied(links, f) && f < |links'|
    requires forall s: nat | Occupied(links, s) :: Occupied(links', s) && links'[s] == links[s]
    requires forall s: nat | Occupied(links', s) :: s == f || Occupied(links, s)
    requires links'[f] == Some(link) && link.txed == [] && link.unackedData == 0 && !link.payload && Trimmed(links')
    requires forall s | 0 <= s < |links| && links[s].Some? :: links[s].value.id != link.id
    ensures LinksOk(tx, links', idle)
  {
    FreeSlotIsUnused(tx, links, f, link.id);
    assert ListOk(tx, link);
    hide ListOk, Total, Current;
    forall s | 0 <= s < |links'| && links'[s].Some?
      ensures ListOk(tx, links'[s].value)
      ensures links'[s].value.unackedData == Total(OnSlot(s), tx.packets)
      ensures links'[s].value.payload ==> links'[s].value.polling
    {
      assert Occupied(links', s);
    }
    forall s, t | 0 <= s < t < |links'| && links'[s].Some? && links'[t].Some?
      ensures links'[s].value.id != links'[t].value.id
    {
      assert Occupied(links', s) && Occupied(links', t);
    }
  }

  lemma AddKeeps(num: Numbering, e: Ep, l: LinkId, tested: bool, limit: nat)
    requires Inv(num, e)
    requires forall s | 0 <= s < |e.links| && e.links[s].Some? :: e.links[s].value.id != l
    ensures Inv(num, AddLink(e, l, tested, limit))
  {
    var e' := AddLink(e, l, tested, limit);
    var f := FreeSlot(e.links);
    assert Trimmed(e'.links);
    hide TxOk, LinksOk, RxOk, Trimmed;
    AddKeepsLinks(e.tx, e.links, e.idle, e'.links, f, NewLink(l, tested, limit));
  }

  // ----------------------------------------------------------------- acknowledgements

  /** The acknowledgement index is that of the packet carrying the acknowledged number. */
  lemma AckIndexExact(num: Numbering, tx: Tx, n: nat)
    requires Contiguous(num, tx) && (num.Wrapping? ==> n < MODULUS)
    ensures AckIndex(num, tx, n).Some? ==> tx.packets[AckIndex(num, tx, n).value].num == n
    ensures |tx.packets| < HALF ==>
              (AckIndex(num, tx, n).Some? <==> exists i | 0 <= i < |tx.packets| :: tx.packets[i].num == n)
  {
    if AckIndex(num, tx, n).Some? {
      var i := AckIndex(num, tx, n).value;
      assert tx.packets[i].num == Reduce(num, Base(tx) + i);
      if num.Wrapping? {
        BackIndex(tx.created, n, |tx.packets| - i);
      }
    }
    if |tx.packets| < HALF {
      forall i | 0 <= i < |tx.packets| && tx.packets[i].num == n
        ensures AckIndex(num, tx, n).Some?
      {
        if num.Wrapping? {
          DiffExactIff(tx.created, Base(tx) + i);
        }
      }
    }
  }

  lemma BackIndex(created: nat, n: nat, back: nat)
    requires n < MODULUS && 0 < back <= created && WrappingDiff(created % MODULUS, n) == back
    ensures (created - back) % MODULUS == n
  {
    var d := (created % MODULUS - n) % MODULUS;
    assert d == back;
    assert (created % MODULUS - d) % MODULUS == n % MODULUS by {
      var q := (created % MODULUS - n) / MODULUS;
      assert created % MODULUS - n == q * MODULUS + d;
      assert created % MODULUS - d == n + q * MODULUS;
      ShiftModulus(n, q);
    }
    var r := created / MODULUS;
    assert created - back == (created % MODULUS - d) + r * MODULUS;
    ShiftModulus(created % MODULUS - d, r);
  }

  /** All of `TxOk` except that the front may have been received meanwhile. */
  ghost predicate TxSettled(num: Numbering, tx: Tx) {
    Numbered(num, tx) && Accounted(tx) && ResendExact(tx)
  }

  lemma SettleKeepsTx(num: Numbering, tx: Tx, i: nat)
    requires TxSettled(num, tx) && i < |tx.packets| && !tx.packets[i].status.Received?
    ensures TxSettled(num, TxSettle(tx, i))
  {
    SettleKeepsNumbers(num, tx, i);
    SettleKeepsSums(num, tx, i);
    hide Numbered, Accounted, ResendExact, TxSettle;
  }

  lemma SettleKeepsNumbers(num: Numbering, tx: Tx, i: nat)
    requires Numbered(num, tx) && i < |tx.packets| && !tx.packets[i].status.Received?
    ensures Numbered(num, TxSettle(tx, i))
  {
    hide Without;
  }

  lemma SettleKeepsSums(num: Numbering, tx: Tx, i: nat)
    requires TxSettled(num, tx) && i < |tx.packets| && !tx.packets[i].status.Received?
    ensures Accounted(TxSettle(tx, i)) && ResendExact(TxSettle(tx, i))
  {
    hide Total, Queued, Without, Consecutive;
    var p := TxSettle(tx, i).packets[i];
    assert tx.packets[i].uid == p.uid;
    TotalUpdate(Unacked, tx.packets, i, p);
    TotalUpdate(Unconsumable, tx.packets, i, p);
    QueuedUpdate(tx.packets, Base(tx), i, p);
  }

  lemma {:induction false} LeadingReceivedExact(ps: seq<Packet>)
    ensures forall i | 0 <= i < LeadingReceived(ps) :: ps[i].status.Received?
    ensures LeadingReceived(ps) < |ps| ==> !ps[LeadingReceived(ps)].status.Received?
  {
    if ps != [] && ps[0].status.Received? {
      LeadingReceivedExact(ps[1..]);
    }
  }

  /** Received packets at the front count for nothing but the bytes not consumable yet. */
  lemma ReceivedFront(a: seq<Packet>, b: seq<Packet>)
    requires forall i | 0 <= i < |a| :: a[i].status.Received?
    ensures Total(Unacked, a + b) == Total(Unacked, b) && Queued(a + b) == Queued(b)
    ensures Total(Unconsumable, a + b) == Total(Unconsumable, a) + Total(Unconsumable, b)
  {
    TotalZero(Unacked, a);
    hide Total, Queued;
    TotalAppend(Unacked, a, b);
    TotalAppend(Unconsumable, a, b);
    QueuedAppend(a, b);
    QueuedNone(a);
    assert [] + Queued(b) == Queued(b);
  }

  lemma SwipeSums(tx: Tx)
    requires Accounted(tx) && ResendExact(tx)
    ensures Accounted(TxSwipe(tx)) && ResendExact(TxSwipe(tx))
  {
    LeadingReceivedExact(tx.packets);
    hide Total, Queued, LeadingReceived;
    var k := LeadingReceived(tx.packets);
    assert tx.packets == tx.packets[..k] + tx.packets[k..];
    ReceivedFront(tx.packets[..k], tx.packets[k..]);
  }

  lemma SwipeKeepsTx(num: Numbering, tx: Tx)
    requires TxSettled(num, tx)
    ensures TxOk(num, TxSwipe(tx))
  {
    SwipeSums(tx);
    var tx' := TxSwipe(tx);
    var k := LeadingReceived(tx.packets);
    LeadingReceivedExact(tx.packets);
    assert Base(tx') == Base(tx) + k;
    forall i | 0 <= i < |tx'.packets|
      ensures tx'.packets[i].uid == Base(tx') + i && tx'.packets[i].num == Reduce(num, tx'.packets[i].uid)
    {
      assert tx'.packets[i] == tx.packets[i + k];
    }
  }

  lemma AckKeepsTx(num: Numbering, tx: Tx, slot: nat, n: nat)
    requires TxOk(num, tx)
    ensures TxOk(num, TxAck(num, tx, slot, n))
  {
    var i := AckIndex(num, tx, n);
    if i.Some? && Settles(tx.packets[i.value].status, slot) {
      SettleKeepsTx(num, tx, i.value);
    }
    SwipeKeepsTx(num, TxMark(num, tx, slot, n));
  }

  /** What an acknowledgement changes: one packet may become received, and
      received packets may be dropped from the front. */
  lemma AckStatuses(num: Numbering, tx: Tx, slot: nat, n: nat, uid: nat)
    requires |tx.packets| <= tx.created
    ensures var tx' := TxAck(num, tx, slot, n);
            && tx'.created == tx.created && |tx'.packets| <= |tx.packets|
            && (Kept(tx', uid) ==> Kept(tx, uid))
            && (Kept(tx', uid) ==> StatusOf(tx', uid) == StatusOf(tx, uid) || StatusOf(tx', uid).Received?)
            && (Kept(tx, uid) && !Kept(tx', uid) ==>
                  StatusOf(TxMark(num, tx, slot, n), uid).Received?)
  {
    LeadingReceivedExact(TxMark(num, tx, slot, n).packets);
  }

  lemma {:induction false} DropStaleExact(txed: seq<nat>, tx: Tx, l: LinkId)
    ensures exists k | 0 <= k <= |txed| ::
              DropStale(txed, tx, l) == txed[k..] && forall j | 0 <= j < k :: !Current(tx, l, txed[j])
    ensures DropStale(txed, tx, l) != [] ==> Current(tx, l, DropStale(txed, tx, l)[0])
  {
    if txed == [] || Current(tx, l, txed[0]) {
      assert DropStale(txed, tx, l) == txed[0..];
    } else {
      DropStaleExact(txed[1..], tx, l);
      var k :| 0 <= k <= |txed[1..]| && DropStale(txed[1..], tx, l) == txed[1..][k..]
               && forall j | 0 <= j < k :: !Current(tx, l, txed[1..][j]);
      assert txed[1..][k..] == txed[k + 1..];
      forall j | 0 <= j < k + 1
        ensures !Current(tx, l, txed[j])
      {
        if j > 0 {
          assert txed[j] == txed[1..][j - 1];
        }
      }
    }
  }

  lemma SuffixKeepsList(tx: Tx, link: Link, k: nat)
    requires ListOk(tx, link) && k <= |link.txed|
    requires forall j | 0 <= j < k :: !Current(tx, link.id, link.txed[j])
    ensures ListOk(tx, link.(txed := link.txed[k..]))
  {
    var link' := link.(txed := link.txed[k..]);
    assert forall j | 0 <= j < |link'.txed| :: link'.txed[j] == link.txed[j + k];
    forall uid: nat | Current(tx, link.id, uid)
      ensures uid in link'.txed
    {
      var j :| 0 <= j < |link.txed| && link.txed[j] == uid;
      assert link'.txed[j - k] == uid;
    }
    assert FlushedFirst(tx, link') by {
      forall i, j | 0 <= i < j < |link'.txed|
                    && Current(tx, link.id, link'.txed[i]) && Current(tx, link.id, link'.txed[j])
        ensures StatusOf(tx, link'.txed[j]).flushed ==> StatusOf(tx, link'.txed[i]).flushed
      {
        assert link'.txed[i] == link.txed[i + k] && link'.txed[j] == link.txed[j + k];
      }
    }
  }

  lemma DropStaleKeepsList(tx: Tx, link: Link)
    requires ListOk(tx, link)
    ensures ListOk(tx, link.(txed := DropStale(link.txed, tx, link.id)))
  {
    DropStaleExact(link.txed, tx, link.id);
    var k: nat :| k <= |link.txed| && DropStale(link.txed, tx, link.id) == link.txed[k..]
             && forall j | 0 <= j < k :: !Current(tx, link.id, link.txed[j]);
    SuffixKeepsList(tx, link, k);
  }

  lemma AckKeepsList(num: Numbering, tx: Tx, slot: nat, n: nat, link: Link)
    requires |tx.packets| <= tx.created && ListOk(tx, link)
    ensures ListOk(TxAck(num, tx, slot, n), link)
  {
    var tx' := TxAck(num, tx, slot, n);
    forall uid: nat
      ensures Current(tx', link.id, uid) ==> Current(tx, link.id, uid) && StatusOf(tx', uid) == StatusOf(tx, uid)
      ensures EntryOk(tx, link.id, uid) ==> EntryOk(tx', link.id, uid)
    {
      AckStatuses(num, tx, slot, n, uid);
    }
    forall k | 0 <= k < |link.txed|
      ensures EntryOk(tx', link.id, link.txed[k])
    {
      assert EntryOk(tx, link.id, link.txed[k]);
    }
  }

  lemma AckTotals(num: Numbering, tx: Tx, slot: nat, n: nat, s: nat)
    ensures Total(OnSlot(s), TxAck(num, tx, slot, n).packets)
            == Total(OnSlot(s), tx.packets) - (if s == slot then AckedOn(num, tx, slot, n) else 0)
  {
    var marked := TxMark(num, tx, slot, n);
    var i := AckIndex(num, tx, n);
    if i.Some? && Settles(tx.packets[i.value].status, slot) {
      TotalUpdate(OnSlot(s), tx.packets, i.value, marked.packets[i.value]);
    }
    var k := LeadingReceived(marked.packets);
    LeadingReceivedExact(marked.packets);
    assert marked.packets == marked.packets[..k] + marked.packets[k..];
    TotalAppend(OnSlot(s), marked.packets[..k], marked.packets[k..]);
    TotalZero(OnSlot(s), marked.packets[..k]);
  }

  lemma AckKeepsSlots(num: Numbering, tx: Tx, links: seq<Option<Link>>, slot: nat, n: nat)
    requires |tx.packets| <= tx.created && Slotted(tx, links)
    ensures Slotted(TxAck(num, tx, slot, n), links)
  {
    var tx' := TxAck(num, tx, slot, n);
    forall i | 0 <= i < |tx'.packets| && tx'.packets[i].status.Sent?
      ensures Occupied(links, tx'.packets[i].status.slot)
              && links[tx'.packets[i].status.slot].value.id == tx'.packets[i].status.link
    {
      var uid := Base(tx') + i;
      AckStatuses(num, tx, slot, n, uid);
      hide TxAck;
      assert StatusOf(tx', uid) == tx'.packets[i].status;
      assert StatusOf(tx, uid) == tx.packets[uid - Base(tx)].status;
    }
  }

  /** The links after an acknowledgement: only the list and the count of the one it came over change. */
  lemma AckKeepsLinks(num: Numbering, e: Ep, slot: nat, n: nat)
    requires Occupied(e.links, slot) && |e.tx.packets| <= e.tx.created
    requires LinksOk(e.tx, e.links, e.idle)
    ensures var e' := HandleAck(num, e, slot, n); LinksOk(e'.tx, e'.links, e'.idle)
  {
    AckKeepsSlots(num, e.tx, e.links, slot, n);
    hide TxAck, AckedOn, Total, DropStale, ListOk;
    var e' := HandleAck(num, e, slot, n);
    forall s | 0 <= s < |e'.links| && e'.links[s].Some?
      ensures ListOk(e'.tx, e'.links[s].value)
      ensures e'.links[s].value.unackedData == Total(OnSlot(s), e'.tx.packets)
    {
      AckTotals(num, e.tx, slot, n, s);
      AckKeepsList(num, e.tx, slot, n, e.links[s].value);
      if s == slot {
        DropStaleKeepsList(e'.tx, e.links[s].value);
        SameList(e'.tx, e.links[s].value.(txed := e'.links[s].value.txed), e'.links[s].value);
      }
    }
  }

  lemma SameList(tx: Tx, a: Link, b: Link)
    requires ListOk(tx, a) && a.id == b.id && a.txed == b.txed
    ensures ListOk(tx, b)
  {
  }

  lemma AckKeeps(num: Numbering, e: Ep, slot: nat, n: nat)
    requires Inv(num, e) && Occupied(e.links, slot)
    ensures Inv(num, HandleAck(num, e, slot, n))
  {
    AckKeepsTx(num, e.tx, slot, n);
    AckKeepsLinks(num, e, slot, n) by {
      hide LinksOk, RxOk;
    }
    hide TxOk, LinksOk, RxOk, TxAck;
  }

  // ------------------------------------------------------- operations on one link only

  lemma TouchKeepsLinks(tx: Tx, links: seq<Option<Link>>, idle: seq<nat>, slot: nat, link': Link, idle': seq<nat>)
    requires LinksOk(tx, links, idle) && Occupied(links, slot)
    requires var link := links[slot].value;
             link'.id == link.id && link'.txed == link.txed && link'.unackedData == link.unackedData
    requires link'.payload ==> link'.polling
    requires Distinct(idle') && forall x | x in idle' :: x in idle
    requires slot in idle' ==> !link'.unconfirmed && !link'.polling
    ensures LinksOk(tx, links[slot := Some(link')], idle')
  {
    var links' := links[slot := Some(link')];
    forall s | 0 <= s < |links'| && links'[s].Some?
      ensures ListOk(tx, links'[s].value)
    {
      assert ListOk(tx, links[s].value);
    }
    forall k | 0 <= k < |idle'|
      ensures Occupied(links', idle'[k]) && !links'[idle'[k]].value.unconfirmed && !links'[idle'[k]].value.polling
    {
      assert idle'[k] in idle';
      assert idle'[k] in idle;
    }
  }

  lemma PartsForTouch(tx: Tx, links: seq<Option<Link>>, idle: seq<nat>, slot: nat)
    requires LinksOk(tx, links, idle) && Occupied(links, slot)
    ensures Distinct(idle)
    ensures links[slot].value.payload ==> links[slot].value.polling
    ensures slot in idle ==> !links[slot].value.unconfirmed && !links[slot].value.polling
  {
  }

  /** Operations that only concern one link and the idle list. */
  lemma TouchKeeps(num: Numbering, e: Ep, slot: nat)
    requires Inv(num, e) && Occupied(e.links, slot)
    ensures !e.links[slot].value.payload ==> Inv(num, Claim(e, slot))
    ensures Inv(num, Poll(e, slot))
    ensures Inv(num, PayloadSent(e, slot))
    ensures Inv(num, ConfirmLink(e, slot))
    ensures forall b :: Inv(num, BlockLink(e, slot, b))
    ensures forall n: nat :: Inv(num, LimitLink(e, slot, n))
    ensures forall n: nat :: Inv(num, QueueAck(e, slot, n))
    ensures Ready(e, slot) && slot !in e.idle && e.links[slot].value.acks != [] ==> Inv(num, SendAck(e, slot))
  {
    hide TxOk, LinksOk, RxOk, Without, Distinct;
    WithoutExact(e.idle, slot);
    PartsForTouch(e.tx, e.links, e.idle, slot);
    var link := e.links[slot].value;
    var rest := Without(e.idle, slot);
    if !link.payload {
      TouchKeepsLinks(e.tx, e.links, e.idle, slot, link.(polling := false), rest);
    }
    TouchKeepsLinks(e.tx, e.links, e.idle, slot, link.(polling := true), rest);
    TouchKeepsLinks(e.tx, e.links, e.idle, slot, link.(payload := false), e.idle);
    TouchKeepsLinks(e.tx, e.links, e.idle, slot, link.(unconfirmed := false, polling := true), rest);
    forall b
      ensures Inv(num, BlockLink(e, slot, b))
    {
      TouchKeepsLinks(e.tx, e.links, e.idle, slot, link.(blocked := b, polling := true), rest);
    }
    forall n: nat
      ensures Inv(num, LimitLink(e, slot, n))
    {
      TouchKeepsLinks(e.tx, e.links, e.idle, slot, link.(limit := n), e.idle);
    }
    forall n: nat
      ensures Inv(num, QueueAck(e, slot, n))
    {
      TouchKeepsLinks(e.tx, e.links, e.idle, slot, link.(acks := link.acks + [n], polling := true), rest);
    }
    if Ready(e, slot) && slot !in e.idle && link.acks != [] {
      TouchKeepsLinks(e.tx, e.links, e.idle, slot, link.(acks := link.acks[1..], polling := true), e.idle);
    }
  }

  lemma IdleKeeps(num: Numbering, e: Ep, slot: nat)
    requires Inv(num, e) && Ready(e, slot) && !e.links[slot].value.unconfirmed && slot !in e.idle
    ensures Inv(num, BecomeIdle(e, slot))
  {
  }

  lemma FlushKeeps(num: Numbering, e: Ep, slot: nat)
    requires Inv(num, e) && Occupied(e.links, slot)
    ensures Inv(num, FlushLink(e, slot))
  {
    var link := e.links[slot].value;
    FlushKeepsTx(num, e.tx, link.id, true);
    FlushKeepsLinks(e.tx, e.links, e.idle, link.id, true);
    WithoutExact(e.idle, slot);
    TouchKeepsLinks(FlushTx(e.tx, link.id, true), e.links, e.idle, slot, link.(polling := true), Without(e.idle, slot));
  }

  /** An idle link may be sent over: the assertions made at every send hold. */
  lemma IdleIsReady(num: Numbering, e: Ep, slot: nat)
    requires Inv(num, e) && slot in e.idle
    ensures Ready(e, slot) && !e.links[slot].value.unconfirmed
  {
  }

  // ---------------------------------------------------------------------- receiving

  lemma {:induction false} BufferedAppend(a: seq<Option<Arrival>>, b: seq<Option<Arrival>>)
    ensures BufferedBytes(a + b) == BufferedBytes(a) + BufferedBytes(b)
  {
    if a == [] {
      assert a + b == b;
    } else {
      BufferedAppend(a[1..], b);
      assert (a + b)[1..] == a[1..] + b;
    }
  }

  lemma {:induction false} BufferedEmpty(a: seq<Option<Arrival>>)
    requires forall i | 0 <= i < |a| :: a[i].None?
    ensures BufferedBytes(a) == 0
  {
    if a != [] {
      BufferedEmpty(a[1..]);
    }
  }

  lemma BufferedResize(a: seq<Option<Arrival>>, n: nat)
    ensures BufferedBytes(Resize(a, n)) == BufferedBytes(a)
  {
    var r := Resize(a, n);
    assert r == a + r[|a|..];
    BufferedAppend(a, r[|a|..]);
    BufferedEmpty(r[|a|..]);
  }

  lemma BufferedUpdate(a: seq<Option<Arrival>>, i: nat, x: Arrival)
    requires i < |a| && a[i].None?
    ensures BufferedBytes(a[i := Some(x)]) == BufferedBytes(a) + Size(x.msg)
  {
    assert a == a[..i] + [a[i]] + a[i + 1..];
    assert a[i := Some(x)] == a[..i] + [Some(x)] + a[i + 1..];
    BufferedAppend(a[..i] + [a[i]], a[i + 1..]);
    BufferedAppend(a[..i], [a[i]]);
    BufferedAppend(a[..i] + [Some(x)], a[i + 1..]);
    BufferedAppend(a[..i], [Some(x)]);
  }

  lemma {:induction false} ConsumableAppend(a: seq<Arrival>, b: seq<Arrival>)
    ensures ConsumableBytes(a + b) == ConsumableBytes(a) + ConsumableBytes(b)
  {
    if a == [] {
      assert a + b == b;
    } else {
      ConsumableAppend(a[1..], b);
      assert (a + b)[1..] == a[1..] + b;
    }
  }

  /** Only messages without bytes are left out when the buffer is handed on. */
  lemma {:induction false} DeliverableBytes(buffer: seq<Option<Arrival>>)
    ensures ConsumableBytes(Deliverable(buffer)) == BufferedBytes(buffer)
    ensures forall i | 0 <= i < |Deliverable(buffer)| :: Ordered(Deliverable(buffer)[i].msg)
  {
    if buffer != [] {
      DeliverableBytes(buffer[1..]);
      var head := if buffer[0].Some? && Ordered(buffer[0].value.msg) then [buffer[0].value] else [];
      ConsumableAppend(head, Deliverable(buffer[1..]));
      assert ConsumableBytes(head) == SizeOf(buffer[0]);
    }
  }

  /** `RxOk` except for the front of the buffer. */
  ghost predicate RxStored(num: Numbering, rx: Rx) {
    && (forall i | 0 <= i < |rx.buffer| && rx.buffer[i].Some? ::
          rx.buffer[i].value.num == Advance(num, rx.next, i))
    && |rx.buffer| <= USABLE_INTERVAL + 1
    && rx.size == BufferedBytes(rx.buffer) + ConsumableBytes(rx.consumable)
    && rx.consumed >= 0
    && (forall i | 0 <= i < |rx.consumable| :: Ordered(rx.consumable[i].msg))
    && (num.Wrapping? ==> rx.next < MODULUS)
  }

  lemma ForwardBytes(rx: Rx, k: nat)
    requires k <= |rx.buffer|
    ensures BufferedBytes(rx.buffer) + ConsumableBytes(rx.consumable)
            == BufferedBytes(rx.buffer[k..]) + ConsumableBytes(rx.consumable + Deliverable(rx.buffer[..k]))
    ensures (forall i | 0 <= i < |rx.consumable| :: Ordered(rx.consumable[i].msg)) ==>
              var q := rx.consumable + Deliverable(rx.buffer[..k]);
              forall i | 0 <= i < |q| :: Ordered(q[i].msg)
  {
    assert rx.buffer == rx.buffer[..k] + rx.buffer[k..];
    BufferedAppend(rx.buffer[..k], rx.buffer[k..]);
    DeliverableBytes(rx.buffer[..k]);
    ConsumableAppend(rx.consumable, Deliverable(rx.buffer[..k]));
    hide BufferedBytes, ConsumableBytes, Deliverable, Ordered;
  }

  lemma ForwardKeeps(num: Numbering, rx: Rx)
    requires RxStored(num, rx)
    ensures RxOk(num, Forward(num, rx))
  {
    hide BufferedBytes, ConsumableBytes, Deliverable, Ordered, LeadingFull;
    var k := LeadingFull(rx.buffer);
    var rx' := Forward(num, rx);
    ForwardBytes(rx, k);
    forall i | 0 <= i < |rx'.buffer| && rx'.buffer[i].Some?
      ensures rx'.buffer[i].value.num == Advance(num, rx'.next, i)
    {
      assert rx'.buffer[i] == rx.buffer[k + i];
      AdvanceReduce(num, rx.next + k, i);
    }
  }

  /** A fresh number is the one its place in the buffer stands for. */
  lemma PlaceExact(num: Numbering, rx: Rx, n: nat)
    requires num.Wrapping? ==> n < MODULUS && rx.next < MODULUS
    ensures Place(num, rx, n).Fresh? ==> n == Advance(num, rx.next, Place(num, rx, n).offset)
  {
  }

  lemma StoreKeeps(num: Numbering, rx: Rx, offset: nat, a: Arrival)
    requires RxOk(num, rx) && offset <= USABLE_INTERVAL
    requires offset < |rx.buffer| ==> rx.buffer[offset].None?
    requires a.num == Advance(num, rx.next, offset)
    ensures RxStored(num, RxStore(rx, offset, a))
  {
    BufferedResize(rx.buffer, offset + 1);
    BufferedUpdate(Resize(rx.buffer, offset + 1), offset, a);
  }

  lemma NothingToForward(num: Numbering, rx: Rx)
    requires RxOk(num, rx)
    ensures Forward(num, rx) == rx
  {
    assert LeadingFull(rx.buffer) == 0;
    assert rx.buffer[0..] == rx.buffer && rx.buffer[..0] == [];
    assert rx.consumable + [] == rx.consumable;
    assert Deliverable(rx.buffer[..0]) == [];
  }

  lemma FreshKeepsRx(num: Numbering, rx: Rx, n: nat, msg: ReliableMsg)
    requires RxOk(num, rx) && Place(num, rx, n).Fresh? && (num.Wrapping? ==> n < MODULUS)
    ensures RxOk(num, Forward(num, RxStore(rx, Place(num, rx, n).offset, Arrival(n, msg))))
  {
    var offset := Place(num, rx, n).offset;
    PlaceExact(num, rx, n);
    StoreKeeps(num, rx, offset, Arrival(n, msg));
    ForwardKeeps(num, RxStore(rx, offset, Arrival(n, msg)));
  }

  /** What arrives at once does not touch packets, links or the idle list. */
  lemma OnArrivalFrame(e: Ep, msg: ReliableMsg)
    ensures var e' := OnArrival(e, msg);
            e'.cfg == e.cfg && e'.tx == e.tx && e'.rx == e.rx && e'.links == e.links && e'.idle == e.idle
    ensures OnArrival(e, msg).unconsumed == e.unconsumed - (if msg.Consumed? then msg.count else 0)
  {
  }

  /** Receiving a message keeps the invariant. */
  lemma ReceiveKeeps(num: Numbering, e: Ep, slot: nat, n: nat, msg: ReliableMsg)
    requires Inv(num, e) && Occupied(e.links, slot) && (num.Wrapping? ==> n < MODULUS)
    ensures HandleReceived(num, e, slot, n, msg).Ok? ==> Inv(num, HandleReceived(num, e, slot, n, msg).value)
  {
    hide TxOk, LinksOk, RxOk, Place, Forward, RxStore, OnArrival;
    var e1 := QueueAck(e, slot, n);
    TouchKeeps(num, e, slot);
    var r := HandleReceived(num, e, slot, n, msg);
    if r.Ok? {
      if Place(num, e.rx, n).Fresh? {
        FreshKeepsRx(num, e.rx, n, msg);
        OnArrivalFrame(e1, msg);
      } else {
        NothingToForward(num, e.rx);
      }
    }
  }

  /** A message that is already known changes nothing but queues another acknowledgement. */
  lemma DuplicateIsHarmless(num: Numbering, e: Ep, slot: nat, n: nat, msg: ReliableMsg)
    requires Inv(num, e) && Occupied(e.links, slot) && Place(num, e.rx, n).Known?
    ensures HandleReceived(num, e, slot, n, msg) == Ok(QueueAck(e, slot, n))
  {
    NothingToForward(num, e.rx);
  }

  lemma ConsumeKeeps(num: Numbering, e: Ep)
    requires Inv(num, e) && e.rx.consumable != []
    ensures Inv(num, Consume(e))
  {
  }

  // ---------------------------------------------------------------------- the beginning

  lemma InitialParts(num: Numbering)
    ensures TxOk(num, InitialTx()) && RxOk(num, InitialRx())
  {
  }

  lemma InitialLinks()
    ensures LinksOk(InitialTx(), [], [])
  {
  }

  /** Endpoints start with nothing sent, received or linked. */
  lemma InitialInv(num: Numbering, cfg: Cfg)
    ensures Inv(num, Initial(cfg))
  {
    hide TxOk, RxOk, LinksOk;
    InitialParts(num);
    InitialLinks();
  }

  // ------------------------------------------------------------------ claiming and sending

  lemma ClaimReady(num: Numbering, e: Ep, slot: nat)
    requires Claimable(e, slot) && Inv(num, e)
    ensures Inv(num, Claim(e, slot)) && Ready(Claim(e, slot), slot) && slot !in Claim(e, slot).idle
  {
    assert Inv(num, Claim(e, slot)) by {
      hide Inv;
      TouchKeeps(num, e, slot);
    }
    WithoutExact(e.idle, slot);
  }

  lemma AfterSendKeeps(num: Numbering, e: Ep, kind: SendKind)
    requires kind.OfData? ==> e.user.writeQueue != []
    requires Inv(num, e)
    ensures Inv(num, AfterSend(e, kind))
  {
  }
}
