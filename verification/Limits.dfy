/** The limits on what is under way: the send buffer, the limit of a link, and the numbers in use. */
module Limits {
  import opened Numbering
  import opened Protocol
  import opened Invariants
  import opened System
  import opened Runs
  import opened Guarantees

  // -------------------------------------------------------------------------- the send buffer

  /** What is unacknowledged fits into the send buffer. */
  predicate Buffered(x: Node) {
    x.ep.tx.unacked <= x.ep.cfg.sendBuffer
  }

  lemma SentIsBuffered(e: Ep, slot: nat, kind: SendKind, limitReached: bool)
    requires CanSend(Unbounded, e, slot, kind) && 0 <= e.tx.unacked <= e.cfg.sendBuffer
    ensures var e' := Send(Unbounded, e, slot, kind, limitReached); e'.cfg == e.cfg && e'.tx.unacked <= e'.cfg.sendBuffer
  {
    hide FlushTx, Without, SeqAvail;
    FlushKeepsBytes(e.tx, IdAt(e, slot), limitReached || FlushesAlways(MessageOf(e, kind)));
  }

  lemma FlushKeepsBytes(tx: Tx, l: LinkId, flush: bool)
    ensures FlushTx(tx, l, flush).unacked == tx.unacked
  {
  }

  lemma AckFrees(e: Ep, slot: nat, n: nat)
    requires Occupied(e.links, slot)
    ensures var e' := HandleAck(Unbounded, e, slot, n); e'.cfg == e.cfg && e'.tx.unacked <= e.tx.unacked
  {
    hide DropStale, AckedOn, LeadingReceived, Total, Without;
  }

  lemma ReceiveIsBuffered(s: Sys, slot: nat)
    requires Enabled(Unbounded, s, Receive(slot)) && Buffered(s.a)
    ensures Buffered(ReceiveFrame(Unbounded, s, slot).a)
  {
    hide HandleAck, HandleReceived, Pop, LinkIds, PipeOf;
    var e := s.a.ep;
    match PipeOf(s.ba, IdAt(e, slot))[0]
    case Ack(n) => AckFrees(e, slot, n);
    case Reliable(n, msg) => CopyLeavesTx(e, slot, n, msg);
  }

  lemma CopyLeavesTx(e: Ep, slot: nat, n: nat, msg: ReliableMsg)
    requires Occupied(e.links, slot)
    ensures match HandleReceived(Unbounded, e, slot, n, msg)
            case Ok(e') => e'.tx == e.tx && e'.cfg == e.cfg
            case Err(_) => true
  {
    hide Without, Place, Forward, RxStore;
  }

  lemma ActIsBuffered(s: Sys, act: Action)
    requires Enabled(Unbounded, s, act) && Buffered(s.a) && s.a.ep.tx.unacked >= 0
    ensures Buffered(Act(Unbounded, s, act).a) && Act(Unbounded, s, act).b == s.b
  {
    ActFrame(s, act);
    match act
    case SendNew(slot, kind, limitReached) =>
      SentIsBuffered(s.a.ep, slot, kind, limitReached);
      hide Send, CanSend, SeqAvail, Push, MessageOf;
    case Receive(slot) =>
      ReceiveIsBuffered(s, slot);
      hide ReceiveFrame;
    case SendAgain(slot, limitReached) =>
      FlushKeepsBytes(s.a.ep.tx, IdAt(s.a.ep, slot), limitReached || FlushesAlways(StatusOf(s.a.ep.tx, s.a.ep.tx.resend[0]).msg));
      hide FlushTx, Without, Push;
    case _ => hide TxRequeue, Trim, FreeSlot, Without, Total, Push, Cut, MarkFlushed;
  }

  lemma StepIsBuffered(s: Sys, s': Sys)
    requires Step(Unbounded, s, s') && Buffered(s.a) && Buffered(s.b)
    requires s.a.ep.tx.unacked >= 0 && s.b.ep.tx.unacked >= 0
    ensures Buffered(s'.a) && Buffered(s'.b)
  {
    hide Enabled, Act;
    if StepAtA(Unbounded, s, s') {
      var act :| Enabled(Unbounded, s, act) && s' == Act(Unbounded, s, act);
      ActIsBuffered(s, act);
    } else {
      var act :| Enabled(Unbounded, Swap(s), act) && Swap(s') == Act(Unbounded, Swap(s), act);
      ActIsBuffered(Swap(s), act);
    }
  }

  lemma BytesAreCounted(run: seq<Sys>, i: nat)
    requires IsRun(Unbounded, run) && i < |run|
    ensures run[i].a.ep.tx.unacked >= 0 && run[i].b.ep.tx.unacked >= 0
  {
    EndpointsStayConsistent(run, i);
    hide IsRun, Inv;
    RxNonNegative(run[i].a.ep);
    RxNonNegative(run[i].b.ep);
  }

  lemma StartIsBuffered(s: Sys)
    requires Start(s)
    ensures Buffered(s.a) && Buffered(s.b)
  {
  }

  /** In every state of every run, at both ends, the unacknowledged bytes are within the send buffer. */
  lemma {:induction false} SendBufferHolds(run: seq<Sys>, i: nat)
    requires IsRun(Unbounded, run) && i < |run|
    ensures 0 <= run[i].a.ep.tx.unacked <= run[i].a.ep.cfg.sendBuffer
    ensures 0 <= run[i].b.ep.tx.unacked <= run[i].b.ep.cfg.sendBuffer
  {
    hide IsRun, Step, Start;
    BytesAreCounted(run, i);
    RunStarts(run);
    if i == 0 {
      StartIsBuffered(run[0]);
    } else {
      BytesAreCounted(run, i - 1);
      SendBufferHolds(run, i - 1);
      RunHasSteps(run, i);
      StepIsBuffered(run[i - 1], run[i]);
    }
  }

  // ------------------------------------------------------------------------ the limit of a link

  /** In every run, data is sent, and packets are resent, only over links on which less is unacknowledged than their
      limit allows. */
  lemma LinkLimitHolds(run: seq<Sys>, i: nat, act: Action, slot: nat)
    requires IsRun(Unbounded, run) && i < |run| && Enabled(Unbounded, run[i], act)
    requires act.SendAgain? || (act.SendNew? && act.kind.OfData?)
    requires slot == act.slot
    ensures Occupied(run[i].a.ep.links, slot)
    ensures Total(OnSlot(slot), run[i].a.ep.tx.packets) < run[i].a.ep.links[slot].value.limit
  {
    EndpointsStayConsistent(run, i);
    hide IsRun, Total, TxOk, RxOk, ListsOk, CanResend, Due, SeqAvail;
  }

  // ----------------------------------------------------------------------------- the numbers

  /** In every run, a number is free exactly when no more packets are kept than the usable interval has numbers. */
  lemma NumberIsFreeIff(run: seq<Sys>, i: nat)
    requires IsRun(Unbounded, run) && i < |run|
    ensures SeqAvail(Unbounded, run[i].a.ep.tx) <==> |run[i].a.ep.tx.packets| <= USABLE_INTERVAL
  {
    EndpointsStayConsistent(run, i);
    hide IsRun, Inv, RxOk, Slotted, DistinctIds, CanResend;
    InvParts(run[i].a.ep);
  }

  // ---------------------------------------------------------------------- a peer that is not honest

  /** Whatever the peer sends: the receive buffer is not overrun and no more credit is returned than was taken; and it is
      only for that that a message is refused, or for its number. */
  lemma NoPeerOverruns(num: Numbering, e: Ep, slot: nat, n: nat, msg: ReliableMsg)
    requires Occupied(e.links, slot) && e.rx.size <= e.cfg.recvBuffer && e.unconsumed >= 0
    ensures match HandleReceived(num, e, slot, n, msg)
            case Ok(e') => e'.cfg == e.cfg && e'.rx.size <= e'.cfg.recvBuffer && e'.unconsumed >= 0
            case Err(ReceiveBufferOverflow) => e.rx.size + Size(msg) > e.cfg.recvBuffer
            case Err(UnconsumedUnderflow) => msg.Consumed? && e.unconsumed - msg.count < 0
            case Err(SequenceUnderflow) => Place(num, e.rx, n).Refused?
  {
    hide Without, Place, LeadingFull, Deliverable, Resize;
  }
}
