/** The invariant of an endpoint, in every run of two endpoints with 32-bit numbers: no bound on ages or on the number of
    kept packets is needed for it. */
module WrappedConsistency {
  import opened Numbering
  import opened Protocol
  import opened Invariants
  import opened Preservation
  import opened System
  import opened Runs

  // ------------------------------------------------------------------------- what is kept

  /** The links are known and owe acknowledgements of 32-bit numbers. */
  ghost predicate LinksNarrow(links: seq<Option<Link>>, added: set<LinkId>) {
    && (forall s | 0 <= s < |links| && links[s].Some? :: links[s].value.id in added)
    && (forall s, k | 0 <= s < |links| && links[s].Some? && 0 <= k < |links[s].value.acks| ::
          links[s].value.acks[k] < MODULUS)
  }

  ghost predicate PipesNarrow(p: Pipes) {
    forall l, k | l in p && 0 <= k < |p[l]| :: p[l][k].num < MODULUS
  }

  ghost predicate LocalNarrow(n: Node) {
    Inv(Wrapping, n.ep) && LinksNarrow(n.ep.links, n.hist.added)
  }

  ghost predicate Consistent(s: Sys) {
    LocalNarrow(s.a) && LocalNarrow(s.b) && PipesNarrow(s.ab) && PipesNarrow(s.ba)
  }

  // ------------------------------------------------------------------------------ pipes

  lemma PushNarrow(p: Pipes, l: LinkId, f: Frame)
    requires PipesNarrow(p) && f.num < MODULUS
    ensures PipesNarrow(Push(p, l, f))
  {
  }

  lemma PopNarrow(p: Pipes, l: LinkId)
    requires PipesNarrow(p) && PipeOf(p, l) != []
    ensures PipesNarrow(Pop(p, l)) && PipeOf(p, l)[0].num < MODULUS
  {
  }

  lemma CutNarrow(p: Pipes, l: LinkId, keep: nat)
    requires PipesNarrow(p)
    ensures PipesNarrow(Cut(p, l, keep))
  {
  }

  lemma NumbersAreNarrow(tx: Tx)
    requires Numbered(Wrapping, tx)
    ensures tx.next < MODULUS && forall i | 0 <= i < |tx.packets| :: tx.packets[i].num < MODULUS
  {
  }

  lemma InvIsNumbered(e: Ep)
    requires Inv(Wrapping, e)
    ensures Numbered(Wrapping, e.tx)
  {
  }

  // ------------------------------------------------------------------ the links of an endpoint

  lemma SendLinks(e: Ep, slot: nat, kind: SendKind, limitReached: bool, added: set<LinkId>)
    requires CanSend(Wrapping, e, slot, kind) && LinksNarrow(e.links, added)
    ensures LinksNarrow(Send(Wrapping, e, slot, kind, limitReached).links, added)
  {
    hide TxSend, Without, Due, MessageOf;
  }

  lemma ResendLinks(e: Ep, slot: nat, limitReached: bool, added: set<LinkId>)
    requires CanResendOver(e, slot) && LinksNarrow(e.links, added)
    ensures LinksNarrow(Resend(e, slot, limitReached).links, added)
  {
    hide TxResend, Without, FlushesAlways;
  }

  lemma SendAckLinks(e: Ep, slot: nat, added: set<LinkId>)
    requires Claimable(e, slot) && e.links[slot].value.acks != [] && LinksNarrow(e.links, added)
    ensures e.links[slot].value.acks[0] < MODULUS && LinksNarrow(SendAck(Claim(e, slot), slot).links, added)
  {
    hide Without;
  }

  lemma ReceiveLinks(e: Ep, slot: nat, n: nat, msg: ReliableMsg, added: set<LinkId>)
    requires Occupied(e.links, slot) && n < MODULUS && HandleReceived(Wrapping, e, slot, n, msg).Ok?
    requires LinksNarrow(e.links, added)
    ensures LinksNarrow(HandleReceived(Wrapping, e, slot, n, msg).value.links, added)
  {
    hide Without, Place, Forward, RxStore;
  }

  lemma AckLinks(e: Ep, slot: nat, n: nat, added: set<LinkId>)
    requires Occupied(e.links, slot) && LinksNarrow(e.links, added)
    ensures LinksNarrow(HandleAck(Wrapping, e, slot, n).links, added)
  {
    hide TxAck, AckedOn, DropStale;
  }

  lemma UnconfirmLinks(e: Ep, slot: nat, added: set<LinkId>)
    requires Occupied(e.links, slot) && LinksNarrow(e.links, added)
    ensures LinksNarrow(UnconfirmLink(e, slot).links, added) && LinksNarrow(FlushLink(e, slot).links, added)
    ensures LinksNarrow(RemoveLink(e, slot).links, added)
  {
    hide TxRequeue, FlushTx, Without, Total, Trim;
    TrimExact(UnconfirmLink(e, slot).links[slot := None]);
  }

  lemma AddLinks(e: Ep, l: LinkId, tested: bool, limit: nat, added: set<LinkId>)
    requires LinksNarrow(e.links, added)
    ensures LinksNarrow(AddLink(e, l, tested, limit).links, added + {l})
  {
    hide FreeSlot;
  }

  lemma TouchLinks(e: Ep, slot: nat, touch: Touch, added: set<LinkId>)
    requires TouchEnabled(e, slot, touch) && LinksNarrow(e.links, added)
    ensures LinksNarrow(ApplyTouch(e, slot, touch).links, added)
  {
    hide Without;
  }

  lemma LinksAreAdded(links: seq<Option<Link>>, added: set<LinkId>)
    requires LinksNarrow(links, added)
    ensures IdsAdded(links, added)
  {
  }

  // ------------------------------------------------------------------------------- the steps

  lemma SendConsistent(s: Sys, slot: nat, kind: SendKind, limitReached: bool)
    requires Enabled(Wrapping, s, SendNew(slot, kind, limitReached))
    requires Consistent(s)
    ensures Consistent(Act(Wrapping, s, SendNew(slot, kind, limitReached)))
  {
    hide Inv, LinksNarrow, PipesNarrow, Numbered, Send, Push, MessageOf, SeqAvail, CanSend;
    var e := s.a.ep;
    InvIsNumbered(e);
    NumbersAreNarrow(e.tx);
    SendKeepsInv(Wrapping, e, slot, kind, limitReached);
    SendLinks(e, slot, kind, limitReached, s.a.hist.added);
    SlotIsThere(e, slot, kind);
    PushNarrow(s.ab, IdAt(e, slot), Reliable(e.tx.next, MessageOf(e, kind)));
  }

  lemma SlotIsThere(e: Ep, slot: nat, kind: SendKind)
    requires CanSend(Wrapping, e, slot, kind)
    ensures Occupied(e.links, slot) && (kind.OfData? ==> e.user.writeQueue != [])
  {
  }

  lemma ResendConsistent(s: Sys, slot: nat, limitReached: bool)
    requires Enabled(Wrapping, s, SendAgain(slot, limitReached))
    requires Consistent(s)
    ensures Consistent(Act(Wrapping, s, SendAgain(slot, limitReached)))
  {
    hide Inv, LinksNarrow, PipesNarrow, Numbered, Resend, Push, IdsAdded, StatusOf;
    var e := s.a.ep;
    var u := e.tx.resend[0];
    InvIsNumbered(e);
    NumbersAreNarrow(e.tx);
    LinksAreAdded(e.links, s.a.hist.added);
    ResendKeepsInv(Wrapping, e, slot, limitReached, s.a.hist.added);
    ResendLinks(e, slot, limitReached, s.a.hist.added);
    PushNarrow(s.ab, IdAt(e, slot), Reliable(e.tx.packets[u - Base(e.tx)].num, StatusOf(e.tx, u).msg));
  }

  lemma SendAckConsistent(s: Sys, slot: nat)
    requires Enabled(Wrapping, s, SendAcknowledgement(slot))
    requires Consistent(s)
    ensures Consistent(Act(Wrapping, s, SendAcknowledgement(slot)))
  {
    hide Inv, LinksNarrow, PipesNarrow, SendAck, Claim, Push, IdsAdded;
    var e := s.a.ep;
    LinksAreAdded(e.links, s.a.hist.added);
    SendAckLocal(Wrapping, e, slot, s.a.hist.added);
    SendAckLinks(e, slot, s.a.hist.added);
    PushNarrow(s.ab, IdAt(e, slot), Ack(e.links[slot].value.acks[0]));
  }

  lemma ReceiveConsistent(s: Sys, slot: nat)
    requires Enabled(Wrapping, s, Receive(slot))
    requires Consistent(s)
    ensures Consistent(ReceiveFrame(Wrapping, s, slot))
  {
    hide Inv, LinksNarrow, PipesNarrow, HandleAck, HandleReceived, Pop, PipeOf, LinkIds;
    var e, l := s.a.ep, IdAt(s.a.ep, slot);
    PopNarrow(s.ba, l);
    match PipeOf(s.ba, l)[0]
    case Ack(n) =>
      AckKeeps(Wrapping, e, slot, n);
      AckLinks(e, slot, n, s.a.hist.added);
    case Reliable(n, msg) =>
      ReceiveKeeps(Wrapping, e, slot, n, msg);
      if HandleReceived(Wrapping, e, slot, n, msg).Ok? {
        ReceiveLinks(e, slot, n, msg, s.a.hist.added);
      }
  }

  lemma LinkConsistent(s: Sys, act: Action)
    requires act.Unconfirm? || act.Flush? || act.Remove?
    requires Enabled(Wrapping, s, act)
    requires Consistent(s)
    ensures Consistent(Act(Wrapping, s, act))
  {
    hide Inv, LinksNarrow, PipesNarrow, UnconfirmLink, FlushLink, RemoveLink;
    UnconfirmLinks(s.a.ep, act.slot, s.a.hist.added);
    UnconfirmKeeps(Wrapping, s.a.ep, act.slot);
    FlushKeeps(Wrapping, s.a.ep, act.slot);
    RemoveKeeps(Wrapping, s.a.ep, act.slot);
  }

  lemma NewLinkConsistent(s: Sys, act: Action)
    requires act.Add? || act.TouchLink?
    requires Enabled(Wrapping, s, act)
    requires Consistent(s)
    ensures Consistent(Act(Wrapping, s, act))
  {
    hide Inv, LinksNarrow, PipesNarrow, AddLink, ApplyTouch, TouchEnabled, IdsAdded;
    var e, added := s.a.ep, s.a.hist.added;
    LinksAreAdded(e.links, added);
    if act.Add? {
      AddLocal(Wrapping, e, act.link, act.tested, act.limit, added);
      AddLinks(e, act.link, act.tested, act.limit, added);
    } else {
      TouchLocal(Wrapping, e, act.slot, act.touch, added);
      TouchLinks(e, act.slot, act.touch, added);
    }
  }

  lemma UserConsistent(s: Sys, act: Action)
    requires act.Accept? || act.ConsumeNext? || act.WriteEnd? || act.ReadDropped? || act.ReadClosed? || act.Kill?
    requires Enabled(Wrapping, s, act)
    requires Consistent(s)
    ensures Consistent(Act(Wrapping, s, act))
  {
    hide Inv, LinksNarrow, PipesNarrow, Cut;
    if act.ConsumeNext? {
      ConsumeKeeps(Wrapping, s.a.ep);
      assert Consume(s.a.ep).links == s.a.ep.links && ConsumeHist(s.a).added == s.a.hist.added;
    } else if act.Kill? {
      CutNarrow(s.ab, act.link, act.keepOut);
      CutNarrow(s.ba, act.link, act.keepIn);
    } else {
      UserKeepsInv(Wrapping, s.a.ep, Act(Wrapping, s, act).a.ep.user);
    }
  }

  lemma ActConsistent(s: Sys, act: Action)
    requires Enabled(Wrapping, s, act)
    requires Consistent(s)
    ensures Consistent(Act(Wrapping, s, act))
  {
    hide Consistent;
    match act
    case SendNew(slot, kind, limitReached) => SendConsistent(s, slot, kind, limitReached);
    case SendAgain(slot, limitReached) => ResendConsistent(s, slot, limitReached);
    case SendAcknowledgement(slot) => SendAckConsistent(s, slot);
    case Receive(slot) => ReceiveConsistent(s, slot);
    case Unconfirm(_) => LinkConsistent(s, act);
    case Flush(_) => LinkConsistent(s, act);
    case Remove(_) => LinkConsistent(s, act);
    case Add(_, _, _) => NewLinkConsistent(s, act);
    case TouchLink(_, _) => NewLinkConsistent(s, act);
    case _ => UserConsistent(s, act);
  }

  lemma MirrorConsistent(s: Sys)
    ensures Consistent(Swap(s)) == Consistent(s) && Swap(Swap(s)) == s
  {
    hide LocalNarrow, PipesNarrow;
  }

  lemma StepConsistent(s: Sys, s': Sys)
    requires Step(Wrapping, s, s')
    requires Consistent(s)
    ensures Consistent(s')
  {
    hide Consistent, Enabled, Act;
    MirrorConsistent(s);
    MirrorConsistent(s');
    if StepAtA(Wrapping, s, s') {
      var act :| Enabled(Wrapping, s, act) && s' == Act(Wrapping, s, act);
      ActConsistent(s, act);
    } else {
      var act :| Enabled(Wrapping, Swap(s), act) && Swap(s') == Act(Wrapping, Swap(s), act);
      ActConsistent(Swap(s), act);
    }
  }

  lemma StartConsistent(s: Sys)
    requires Start(s)
    ensures Consistent(s)
  {
    hide Inv;
    InitialInv(Wrapping, s.a.ep.cfg);
    InitialInv(Wrapping, s.b.ep.cfg);
  }

  lemma {:induction false} RunConsistent(run: seq<Sys>, i: nat)
    requires IsRun(Wrapping, run) && i < |run|
    ensures Consistent(run[i])
  {
    hide Consistent, Step, Start;
    if i == 0 {
      StartConsistent(run[0]);
    } else {
      RunConsistent(run, i - 1);
      assert Step(Wrapping, run[i - 1], run[i - 1 + 1]);
      StepConsistent(run[i - 1], run[i]);
    }
  }

  /** In every state of every run with 32-bit numbers, however old frames get and however many packets are kept, both
      endpoints satisfy the local invariant. */
  lemma WrappedStayConsistent(run: seq<Sys>, i: nat)
    requires IsRun(Wrapping, run) && i < |run|
    ensures Inv(Wrapping, run[i].a.ep) && Inv(Wrapping, run[i].b.ep)
  {
    hide Inv, IsRun;
    RunConsistent(run, i);
  }
}
