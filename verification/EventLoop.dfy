/** What the event loop does when a link reports that it is ready, and that this is one of the actions of the system. */
module EventLoop {
  import opened Numbering
  import opened Protocol
  import opened Invariants
  import opened Preservation
  import opened System
  import opened EndpointTask

  // ----------------------------------------------------------------------- the decision

  /** The message a ready link is used for, by priority. */
  datatype Choice = Acknowledge | New(kind: SendKind) | Again | FlushNow | GoIdle | Nothing

  /** The reliable messages a working link may be used for, in the order in which they are considered. */
  function Choose(num: Numbering, e: Ep, slot: nat, needsFlush: bool): Choice
    requires Claimable(e, slot)
  {
    var link := e.links[slot].value;
    if link.acks != [] then Acknowledge
    else if link.unconfirmed || link.blocked then (if needsFlush then FlushNow else Nothing)
    else if ConsumeAckRequired(e) then New(OfConsumed)
    else if CanResendOver(e, slot) then Again
    else if Due(num, e, OfReceiveClose) then New(OfReceiveClose)
    else if Due(num, e, OfReceiveFinish) then New(OfReceiveFinish)
    else if Due(num, e, OfSendFinish) then New(OfSendFinish)
    else if Sendable(link) && Due(num, e, OfData) then New(OfData)
    else if needsFlush && !Sendable(link) then FlushNow
    else GoIdle
  }

  lemma ChoiceIsPossible(num: Numbering, e: Ep, slot: nat, needsFlush: bool)
    requires Claimable(e, slot)
    ensures match Choose(num, e, slot, needsFlush)
            case Acknowledge => e.links[slot].value.acks != []
            case New(kind) => CanSend(num, e, slot, kind)
            case Again => CanResendOver(e, slot)
            case GoIdle => !e.links[slot].value.unconfirmed
            case _ => true
  {
  }

  /** The endpoint after a ready link was dealt with. */
  function AfterReady(num: Numbering, e: Ep, slot: nat, needsFlush: bool, limitReached: bool): Ep
    requires Claimable(e, slot)
  {
    ChoiceIsPossible(num, e, slot, needsFlush);
    match Choose(num, e, slot, needsFlush)
    case Acknowledge => SendAck(Claim(e, slot), slot)
    case New(kind) => Send(num, e, slot, kind, limitReached)
    case Again => Resend(e, slot, limitReached)
    case FlushNow => FlushLink(Claim(e, slot), slot)
    case GoIdle => BecomeIdle(Claim(e, slot), slot)
    case Nothing => Claim(e, slot)
  }

  function ActionOf(e: Ep, slot: nat, needsFlush: bool, limitReached: bool): Action
    requires Claimable(e, slot)
  {
    match Choose(Unbounded, e, slot, needsFlush)
    case Acknowledge => SendAcknowledgement(slot)
    case New(kind) => SendNew(slot, kind, limitReached)
    case Again => SendAgain(slot, limitReached)
    case FlushNow => Flush(slot)
    case GoIdle => TouchLink(slot, Idled)
    case Nothing => TouchLink(slot, Unready)
  }

  /** What the event loop does on a ready link is an action of the system: whatever holds of every run holds of the
      runs the event loop can make. */
  lemma ReadyIsAction(s: Sys, slot: nat, needsFlush: bool, limitReached: bool)
    requires s.haltA.None? && !s.gated
    requires Claimable(s.a.ep, slot) && slot !in s.a.ep.idle
    ensures var act := ActionOf(s.a.ep, slot, needsFlush, limitReached);
            && Enabled(Unbounded, s, act)
            && Act(Unbounded, s, act).a.ep == AfterReady(Unbounded, s.a.ep, slot, needsFlush, limitReached)
            && Act(Unbounded, s, act).b == s.b && Act(Unbounded, s, act).ba == s.ba
  {
    var e := s.a.ep;
    ChoiceIsPossible(Unbounded, e, slot, needsFlush);
    ClaimThenFlush(e, slot);
    hide Choose, CanSend, CanResendOver, Send, Resend, FlushLink, SendAck, Claim, BecomeIdle, Claimable;
  }

  lemma ClaimThenFlush(e: Ep, slot: nat)
    requires Occupied(e.links, slot)
    ensures FlushLink(Claim(e, slot), slot) == FlushLink(e, slot)
  {
    WithoutTwice(e.idle, slot);
  }

  /** A link becomes idle only when there is nothing it could be used for. */
  lemma IdleMeansNothingDue(num: Numbering, e: Ep, slot: nat, needsFlush: bool, kind: SendKind)
    requires Claimable(e, slot) && Choose(num, e, slot, needsFlush).GoIdle?
    ensures !CanSend(num, e, slot, kind) && !CanResendOver(e, slot) && e.links[slot].value.acks == []
  {
  }

  /** Whether a link can be put to a use: its acknowledgements go out whatever its state, anything else needs a link that
      is confirmed and not blocked. */
  predicate Possible(num: Numbering, e: Ep, slot: nat, use: Choice) {
    match use
    case Acknowledge => Claimable(e, slot) && e.links[slot].value.acks != []
    case New(kind) => CanSend(num, e, slot, kind) && !e.links[slot].value.blocked
    case Again => CanResendOver(e, slot) && !e.links[slot].value.blocked
    case _ => false
  }

  /** Acknowledgements come first, then what frees the buffers of the peer, then what was lost, then the signals, and new
      data at last. */
  function Rank(use: Choice): nat {
    match use
    case Acknowledge => 0
    case New(OfConsumed) => 1
    case Again => 2
    case New(OfReceiveClose) => 3
    case New(OfReceiveFinish) => 4
    case New(OfSendFinish) => 5
    case New(OfData) => 6
    case _ => 7
  }

  /** A ready link is put to the most urgent use that is possible.  If there is none, it is flushed when it needs that and
      can take nothing for the time being, and becomes idle only when it is confirmed and not blocked. */
  lemma MostUrgentIsChosen(num: Numbering, e: Ep, slot: nat, needsFlush: bool)
    requires Claimable(e, slot)
    ensures var choice, link := Choose(num, e, slot, needsFlush), e.links[slot].value;
            && (forall use | Possible(num, e, slot, use) :: Possible(num, e, slot, choice) && Rank(choice) <= Rank(use))
            && (Possible(num, e, slot, choice) ||
                  choice == if needsFlush && (link.unconfirmed || link.blocked || link.unackedData >= link.limit) then FlushNow
                            else if link.unconfirmed || link.blocked then Nothing
                            else GoIdle)
  {
    var choice := Choose(num, e, slot, needsFlush);
    forall use | Possible(num, e, slot, use)
      ensures Possible(num, e, slot, choice) && Rank(choice) <= Rank(use)
    {
      match use
      case New(kind) =>
      case _ =>
    }
  }

  /** A blocked link only acknowledges; when it is unblocked it is used as before. */
  lemma BlockedOnlyAcknowledges(num: Numbering, e: Ep, slot: nat, use: Choice)
    requires Occupied(e.links, slot)
    ensures Possible(num, BlockLink(e, slot, true), slot, use) ==> use == Acknowledge
    ensures Possible(num, BlockLink(BlockLink(e, slot, true), slot, false), slot, New(OfConsumed)) <==>
            ConsumeAckRequired(e) && !e.links[slot].value.payload && !e.links[slot].value.unconfirmed
  {
    hide Without;
  }

  /** Of the idle links that can take a message, the one that became idle last is the first to be used. */
  lemma NewlyIdleIsChosen(e: Ep, slot: nat, banned: Option<LinkId>)
    requires Claimable(e, slot)
    ensures var e' := BecomeIdle(Claim(e, slot), slot);
            Takes(e'.tx, e'.links, slot, banned) ==> LastTaker(e'.tx, e'.links, e'.idle, 0, banned, Some(slot))
  {
    var e' := BecomeIdle(Claim(e, slot), slot);
    assert e'.idle[|e'.idle| - 1] == slot;
    hide Total, Without;
  }

  // -------------------------------------------------------------------- at an endpoint

  /** Sends a new reliable message over a link that was claimed, and notes that it was sent. */
  method SendNewMessage(ep: Endpoint, slot: nat, kind: SendKind, limitReached: bool)
    requires kind.OfData? ==> ep.user.writeQueue != []
    requires Ready(ep.State(), slot) && slot !in ep.idleLinks
    requires ep.Valid()
    modifies ep
    ensures ep.State() == old(AfterSend(SendReliable(Wrapping, ep.State(), slot, MessageOf(ep.State(), kind), limitReached), kind))
    ensures ep.Valid()
  {
    hide Inv;
    ghost var e := ep.State();
    var msg: ReliableMsg;
    match kind {
      case OfData => msg := Data(ep.user.writeQueue[0]);
      case OfConsumed => msg := Consumed(ep.rxedConsumed % MODULUS);
      case OfReceiveClose => msg := ReceiveClose;
      case OfReceiveFinish => msg := ReceiveFinish;
      case OfSendFinish => msg := SendFinish;
    }
    var num := ep.SendReliableOverLink(slot, msg, limitReached);
    AfterSendKeeps(Wrapping, ep.State(), kind);
    match kind {
      case OfData => ep.user := ep.user.(writeQueue := ep.user.writeQueue[1..]);
      case OfConsumed => ep.rxedConsumed := 0;
      case OfReceiveClose => ep.user := ep.user.(receiveCloseSent := true);
      case OfReceiveFinish => ep.user := ep.user.(receiveFinishSent := true);
      case OfSendFinish => ep.user := ep.user.(sendFinishSent := true);
    }
  }

  /** A link has reported that it is ready. */
  method OnTxReady(ep: Endpoint, slot: nat, needsFlush: bool, limitReached: bool)
    requires Claimable(ep.State(), slot)
    requires ep.Valid()
    modifies ep
    ensures ep.State() == old(AfterReady(Wrapping, ep.State(), slot, needsFlush, limitReached))
    ensures ep.Valid()
  {
    hide Inv;
    ghost var e := ep.State();
    ChoiceIsPossible(Wrapping, e, slot, needsFlush);
    ClaimReady(Wrapping, e, slot);
    var choice := Choose(Wrapping, ep.State(), slot, needsFlush);
    ep.links := ep.links[slot := Some(ep.links[slot].value.(polling := false))];
    ep.idleLinks := Without(ep.idleLinks, slot);
    assert ep.State() == Claim(e, slot);
    hide Claim, Choose;
    match choice {
      case Acknowledge =>
        AckIsFine(Wrapping, ep.State(), slot);
        var link := ep.links[slot].value;
        ep.links := ep.links[slot := Some(link.(acks := link.acks[1..], polling := true))];
      case New(kind) => SendNewMessage(ep, slot, kind, limitReached);
      case Again => var num := ep.ResendReliableOverLink(slot, limitReached);
      case FlushNow => ep.FlushLink(slot);
      case GoIdle =>
        IdleKeeps(Wrapping, ep.State(), slot);
        ep.idleLinks := ep.idleLinks + [slot];
      case Nothing =>
    }
  }

  lemma AckIsFine(num: Numbering, e: Ep, slot: nat)
    requires Ready(e, slot) && slot !in e.idle && e.links[slot].value.acks != []
    requires Inv(num, e)
    ensures Inv(num, SendAck(e, slot))
  {
    hide Inv;
    TouchKeeps(num, e, slot);
  }

  /** The user takes the next message. */
  method ConsumeReceived(ep: Endpoint) returns (data: Option<Bytes>)
    requires ep.rxedConsumable != []
    requires ep.Valid()
    modifies ep
    ensures ep.State() == old(Consume(ep.State()))
    ensures ep.Valid()
    ensures data.Some? <==> old(ep.rxedConsumable[0].msg).Data?
    ensures data.Some? ==> old(ep.rxedConsumable[0].msg) == Data(data.value)
  {
    ConsumeKeeps(Wrapping, ep.State());
    hide Inv;
    var m := ep.rxedConsumable[0].msg;
    data := None;
    ep.rxedConsumable := ep.rxedConsumable[1..];
    match m {
      case Data(bytes) =>
        ep.rxedSize := ep.rxedSize - |bytes|;
        ep.rxedConsumed := ep.rxedConsumed + |bytes|;
        data := Some(bytes);
      case SendFinish =>
        ep.user := ep.user.(readOpen := false, receiveFinishSent := true);
      case _ =>
    }
  }
}
