/** The life of a link: what is believed to be on it while it is unconfirmed, where a new one goes, how its limit shrinks
    and what a flush marks. */
module LinkLife {
  import opened Numbering
  import opened Protocol
  import opened Invariants
  import opened Preservation
  import opened System
  import opened Runs

  // --------------------------------------------------------------- nothing on unconfirmed links

  ghost predicate NothingOn(ps: seq<Packet>, slot: nat) {
    forall i | 0 <= i < |ps| && ps[i].status.Sent? :: ps[i].status.slot != slot
  }

  /** Nothing is out on a link that is not confirmed. */
  ghost predicate Vacant(tx: Tx, links: seq<Option<Link>>) {
    forall s | 0 <= s < |links| && links[s].Some? && links[s].value.unconfirmed :: NothingOn(tx.packets, s)
  }

  lemma SendLeavesVacant(e: Ep, slot: nat, kind: SendKind, limitReached: bool)
    requires CanSend(Unbounded, e, slot, kind) && Vacant(e.tx, e.links)
    ensures var e' := Send(Unbounded, e, slot, kind, limitReached); Vacant(e'.tx, e'.links)
  {
    hide Without, Due, MessageOf, FlushesAlways;
  }

  lemma ResendLeavesVacant(e: Ep, slot: nat, limitReached: bool)
    requires CanResendOver(e, slot) && Vacant(e.tx, e.links)
    ensures var e' := Resend(e, slot, limitReached); Vacant(e'.tx, e'.links)
  {
    hide Without, FlushesAlways;
  }

  lemma AckLeavesVacant(e: Ep, slot: nat, n: nat)
    requires Occupied(e.links, slot) && Vacant(e.tx, e.links)
    ensures var e' := HandleAck(Unbounded, e, slot, n); Vacant(e'.tx, e'.links)
  {
    hide DropStale, LeadingReceived, Total, Without;
  }

  lemma UnconfirmLeavesVacant(e: Ep, slot: nat)
    requires Occupied(e.links, slot) && Vacant(e.tx, e.links)
    ensures Vacant(UnconfirmLink(e, slot).tx, UnconfirmLink(e, slot).links)
    ensures Vacant(FlushLink(e, slot).tx, FlushLink(e, slot).links)
    ensures Vacant(RemoveLink(e, slot).tx, RemoveLink(e, slot).links)
  {
    hide Without, Total, Trim, Queued;
    TrimExact(UnconfirmLink(e, slot).links[slot := None]);
  }

  lemma AddLeavesVacant(e: Ep, l: LinkId, tested: bool, limit: nat)
    requires Vacant(e.tx, e.links) && Slotted(e.tx, e.links)
    ensures var e' := AddLink(e, l, tested, limit); Vacant(e'.tx, e'.links)
  {
    hide FreeSlot;
  }

  lemma TouchLeavesVacant(e: Ep, slot: nat, touch: Touch)
    requires TouchEnabled(e, slot, touch) && Vacant(e.tx, e.links)
    ensures var e' := ApplyTouch(e, slot, touch); Vacant(e'.tx, e'.links)
  {
    hide Without;
  }

  lemma ReceiveLeavesVacant(s: Sys, slot: nat)
    requires Enabled(Unbounded, s, Receive(slot)) && Vacant(s.a.ep.tx, s.a.ep.links)
    ensures var e' := ReceiveFrame(Unbounded, s, slot).a.ep; Vacant(e'.tx, e'.links)
  {
    hide HandleAck, HandleReceived, Pop, LinkIds, PipeOf, Vacant;
    var e := s.a.ep;
    match PipeOf(s.ba, IdAt(e, slot))[0]
    case Ack(n) => AckLeavesVacant(e, slot, n);
    case Reliable(n, msg) => CopyLeavesVacant(e, slot, n, msg);
  }

  lemma CopyLeavesVacant(e: Ep, slot: nat, n: nat, msg: ReliableMsg)
    requires Occupied(e.links, slot) && Vacant(e.tx, e.links)
    ensures match HandleReceived(Unbounded, e, slot, n, msg)
            case Ok(e') => Vacant(e'.tx, e'.links)
            case Err(_) => true
  {
    hide Without, Place, Forward, RxStore, NothingOn;
  }

  lemma ActLeavesVacant(s: Sys, act: Action)
    requires Enabled(Unbounded, s, act) && Vacant(s.a.ep.tx, s.a.ep.links) && Slotted(s.a.ep.tx, s.a.ep.links)
    ensures var e' := Act(Unbounded, s, act).a.ep; Vacant(e'.tx, e'.links)
  {
    hide Vacant, Slotted, Send, CanSend, Resend, CanResendOver, UnconfirmLink, FlushLink, RemoveLink, AddLink, ApplyTouch, TouchEnabled,
         ReceiveFrame, SeqAvail, Push, Cut, MessageOf, StatusOf;
    match act
    case SendNew(slot, kind, limitReached) => SendLeavesVacant(s.a.ep, slot, kind, limitReached);
    case SendAgain(slot, limitReached) => ResendLeavesVacant(s.a.ep, slot, limitReached);
    case SendAcknowledgement(slot) => SendAckLeavesVacant(s.a.ep, slot);
    case Receive(slot) => ReceiveLeavesVacant(s, slot);
    case Unconfirm(slot) => UnconfirmLeavesVacant(s.a.ep, slot);
    case Flush(slot) => UnconfirmLeavesVacant(s.a.ep, slot);
    case Remove(slot) => UnconfirmLeavesVacant(s.a.ep, slot);
    case Add(l, tested, limit) => AddLeavesVacant(s.a.ep, l, tested, limit);
    case TouchLink(slot, touch) => TouchLeavesVacant(s.a.ep, slot, touch);
    case _ =>
  }

  lemma SendAckLeavesVacant(e: Ep, slot: nat)
    requires Claimable(e, slot) && e.links[slot].value.acks != [] && Vacant(e.tx, e.links)
    ensures var e' := SendAck(Claim(e, slot), slot); Vacant(e'.tx, e'.links)
  {
    hide Without, NothingOn;
  }

  ghost predicate BothVacant(s: Sys) {
    Vacant(s.a.ep.tx, s.a.ep.links) && Vacant(s.b.ep.tx, s.b.ep.links)
  }

  lemma SlottedHere(s: Sys)
    requires SysInv(s)
    ensures Slotted(s.a.ep.tx, s.a.ep.links) && Slotted(s.b.ep.tx, s.b.ep.links)
  {
    hide Inv, Pair, Slotted, RxOk, DistinctIds, CanResend;
    InvParts(s.a.ep);
    InvParts(s.b.ep);
  }

  lemma StepLeavesVacant(s: Sys, s': Sys)
    requires Step(Unbounded, s, s') && BothVacant(s)
    requires SysInv(s)
    ensures BothVacant(s')
  {
    SlottedHere(s);
    hide SysInv, Enabled, Act, Vacant, Slotted;
    if StepAtA(Unbounded, s, s') {
      var act :| Enabled(Unbounded, s, act) && s' == Act(Unbounded, s, act);
      ActFrame(s, act);
      ActLeavesVacant(s, act);
    } else {
      var act :| Enabled(Unbounded, Swap(s), act) && Swap(s') == Act(Unbounded, Swap(s), act);
      ActFrame(Swap(s), act);
      ActLeavesVacant(Swap(s), act);
    }
  }

  lemma StartIsVacant(s: Sys)
    requires Start(s)
    ensures BothVacant(s)
  {
  }

  /** In every run, nothing is believed to be out on a link that is unconfirmed: whatever it carried is queued to be resent
      over another one. */
  lemma {:induction false} UnconfirmedIsEmpty(run: seq<Sys>, i: nat)
    requires IsRun(Unbounded, run) && i < |run|
    ensures BothVacant(run[i])
  {
    hide *;
    RunStarts(run);
    if i == 0 {
      StartIsVacant(run[0]);
    } else {
      RunHasSteps(run, i);
      UnconfirmedIsEmpty(run, i - 1);
      RunKeeps(run, i - 1);
      StepLeavesVacant(run[i - 1], run[i]);
    }
  }

  // ------------------------------------------------------------------------------- a new link

  /** A new link goes into the first free slot and leaves all others alone; nothing is out on it, and as long as it has to be
      tested it is used for no reliable message. */
  lemma NewLinkIsUnused(num: Numbering, e: Ep, l: LinkId, tested: bool, limit: nat) returns (s: nat)
    requires Inv(num, e)
    ensures var e' := AddLink(e, l, tested, limit);
            && AddedAt(e.links, e'.links, s) && IdAt(e', s) == l
            && NothingOn(e'.tx.packets, s) && s !in e'.idle
            && (CanSend(num, e', s, OfConsumed) <==> ConsumeAckRequired(e) && !tested)
  {
    hide Inv, NothingOn, AddedAt, ConsumeAckRequired;
    s := FreeSlot(e.links);
    FreeIsUnused(num, e, s);
    AddedIs(num, e, l, tested, limit);
  }

  /** Slot `s` was the first free one and is taken now. */
  ghost predicate AddedAt(links: seq<Option<Link>>, links': seq<Option<Link>>, s: nat) {
    && !Occupied(links, s) && Occupied(links', s) && |links'| == Max(|links|, s + 1)
    && (forall t: nat | t < s :: Occupied(links, t))
    && (forall t: nat | t != s :: Occupied(links', t) == Occupied(links, t) && (Occupied(links, t) ==> links'[t] == links[t]))
  }

  lemma FreeIsUnused(num: Numbering, e: Ep, s: nat)
    requires !Occupied(e.links, s)
    requires Inv(num, e)
    ensures NothingOn(e.tx.packets, s) && s !in e.idle
  {
    hide TxOk, RxOk, ListsOk, Total;
  }

  lemma AddedIs(num: Numbering, e: Ep, l: LinkId, tested: bool, limit: nat)
    ensures var e', s := AddLink(e, l, tested, limit), FreeSlot(e.links);
            && !Occupied(e.links, s) && AddedAt(e.links, e'.links, s) && IdAt(e', s) == l && e'.tx == e.tx && e'.idle == e.idle
            && (CanSend(num, e', s, OfConsumed) <==> ConsumeAckRequired(e) && !tested)
  {
    hide FreeSlot;
  }

  /** A link that has passed its test is used again at once, unless a payload is waiting for its sink. */
  lemma ConfirmedIsUsed(num: Numbering, e: Ep, slot: nat)
    requires Occupied(e.links, slot)
    ensures CanSend(num, ConfirmLink(e, slot), slot, OfConsumed) <==> ConsumeAckRequired(e) && !e.links[slot].value.payload
  {
    hide Without;
  }

  /** A link that is polled is off the idle list and is taken for sending when its sink reports it ready. */
  lemma PolledIsClaimable(e: Ep, slot: nat)
    requires Occupied(e.links, slot)
    ensures slot !in Poll(e, slot).idle && (Claimable(Poll(e, slot), slot) <==> !e.links[slot].value.payload)
  {
    WithoutExact(e.idle, slot);
    hide Without;
  }

  // -------------------------------------------------------------------------- limits and flushes

  function Halved(n: nat, k: nat): nat {
    if k == 0 then n else Halved(n, k - 1) / 2
  }

  /** A link that is declared not working `k` times in a row. */
  function Unconfirms(e: Ep, slot: nat, k: nat): (e': Ep)
    requires Occupied(e.links, slot)
    ensures Occupied(e'.links, slot)
  {
    if k == 0 then e else UnconfirmLink(Unconfirms(e, slot, k - 1), slot)
  }

  /** Every time a link is declared not working its limit is halved, down to 128 bytes. */
  lemma {:induction false} LimitHalves(e: Ep, slot: nat, k: nat)
    requires Occupied(e.links, slot) && k > 0
    ensures Unconfirms(e, slot, k).links[slot].value.limit == Max(Halved(e.links[slot].value.limit, k), 128)
    ensures Unconfirms(e, slot, k).links[slot].value.unconfirmed
  {
    hide UnconfirmLink;
    UnconfirmedOnce(Unconfirms(e, slot, k - 1), slot);
    if k > 1 {
      LimitHalves(e, slot, k - 1);
    } else {
      assert Halved(e.links[slot].value.limit, 0) == e.links[slot].value.limit;
    }
  }

  lemma UnconfirmedOnce(e: Ep, slot: nat)
    requires Occupied(e.links, slot)
    ensures var link, link' := e.links[slot].value, UnconfirmLink(e, slot).links[slot].value;
            link'.limit == Max(link.limit / 2, 128) && link'.unconfirmed
  {
    hide TxRequeue, Without, Total;
  }

  /** A flush marks everything that is out on the link, and nothing else. */
  lemma FlushMarksAll(e: Ep, slot: nat, uid: nat)
    requires Occupied(e.links, slot) && Kept(e.tx, uid)
    ensures var e' := FlushLink(e, slot);
            && Kept(e'.tx, uid)
            && var st, st' := StatusOf(e.tx, uid), StatusOf(e'.tx, uid);
               if Current(e.tx, IdAt(e, slot), uid) then st' == st.(flushed := true) else st' == st
  {
    hide Without;
  }

  /** A message that is flushed at once, or that reaches the limit of unflushed bytes, marks what was sent over the link
      before; it is not marked itself. */
  lemma SendFlushesEarlier(num: Numbering, e: Ep, slot: nat, msg: ReliableMsg, limitReached: bool, uid: nat)
    requires Ready(e, slot) && |e.tx.packets| <= e.tx.created
    ensures var e', l := SendReliable(num, e, slot, msg, limitReached), IdAt(e, slot);
            && Current(e'.tx, l, e.tx.created) && !StatusOf(e'.tx, e.tx.created).flushed && !StatusOf(e'.tx, e.tx.created).resent
            && (Current(e.tx, l, uid) ==>
                  && Current(e'.tx, l, uid)
                  && (StatusOf(e'.tx, uid).flushed <==> StatusOf(e.tx, uid).flushed || limitReached || FlushesAlways(msg)))
  {
    hide FlushesAlways, Size;
    var l, flush := IdAt(e, slot), limitReached || FlushesAlways(msg);
    FlushMarks(e.tx, l, flush, uid);
    AppendStatuses(num, FlushTx(e.tx, l, flush), slot, l, msg);
    hide FlushTx, TxAppend, StatusOf;
  }

  lemma FlushMarks(tx: Tx, l: LinkId, flush: bool, uid: nat)
    requires |tx.packets| <= tx.created
    ensures var tx' := FlushTx(tx, l, flush);
            && |tx'.packets| == |tx.packets| && tx'.created == tx.created && tx'.next == tx.next && tx'.resend == tx.resend
            && (Kept(tx, uid) <==> Kept(tx', uid))
            && (Kept(tx, uid) ==> StatusOf(tx', uid) == if flush then FlushStatus(StatusOf(tx, uid), l) else StatusOf(tx, uid))
  {
  }

  /** The same for a packet that is resent; it is marked as resent. */
  lemma ResendFlushesEarlier(num: Numbering, e: Ep, slot: nat, limitReached: bool, uid: nat)
    requires Ready(e, slot) && CanResend(e.tx) && TxOk(num, e.tx)
    ensures var e', l, u := ResendReliable(e, slot, limitReached), IdAt(e, slot), e.tx.resend[0];
            && Current(e'.tx, l, u) && !StatusOf(e'.tx, u).flushed && StatusOf(e'.tx, u).resent
            && (Current(e.tx, l, uid) ==>
                  && Current(e'.tx, l, uid)
                  && (StatusOf(e'.tx, uid).flushed <==>
                        StatusOf(e.tx, uid).flushed || limitReached || FlushesAlways(StatusOf(e.tx, u).msg)))
  {
    hide FlushesAlways, Size, TxOk;
    var l, u := IdAt(e, slot), e.tx.resend[0];
    var flush := limitReached || FlushesAlways(StatusOf(e.tx, u).msg);
    FlushMarks(e.tx, l, flush, uid);
    FlushMarks(e.tx, l, flush, u);
    FlushKeepsTx(num, e.tx, l, flush);
    ReturnStatuses(num, FlushTx(e.tx, l, flush), slot, l);
    hide FlushTx, TxReturn, StatusOf;
  }
}
