/** What holds, in every run, as long as the reader at the other end is there. */
module HalfOpen {
  import opened Numbering
  import opened Protocol
  import opened Invariants
  import opened System
  import opened Truth
  import opened Stream
  import opened Runs
  import opened Scenarios
  import opened SendBuffer

  /** The writing half is as its user left it while the reader at the other end is there. */
  ghost predicate WriterTidy(log: seq<ReliableMsg>, accepted: seq<Bytes>, u: User, peerReads: bool) {
    && (ReceiveFinish in log ==> !u.readOpen)
    && (!u.writeOpen ==> u.writeQueue == [])
    && (peerReads ==> DataPart(log) + u.writeQueue == accepted && (u.sendFinishSent ==> SendFinish in log))
  }

  /** Frames only travel over known links. */
  ghost predicate OnAddedLinks(p: Pipes, added: set<LinkId>) {
    forall l: LinkId | PipeOf(p, l) != [] :: l in added
  }

  ghost predicate Tidy(x: Node, y: Node, fwd: Pipes) {
    WriterTidy(x.hist.log, x.hist.accepted, x.ep.user, y.ep.user.readOpen) && OnAddedLinks(fwd, x.hist.added)
  }

  ghost predicate BothTidy(s: Sys) {
    Tidy(s.a, s.b, s.ab) && Tidy(s.b, s.a, s.ba)
  }

  // --------------------------------------------------------------------------- what steps change

  lemma PopKnown(p: Pipes, l: LinkId, added: set<LinkId>)
    requires PipeOf(p, l) != [] && OnAddedLinks(p, added)
    ensures OnAddedLinks(Pop(p, l), added)
  {
  }

  lemma PushKnown(p: Pipes, l: LinkId, f: Frame, added: set<LinkId>)
    requires OnAddedLinks(p, added) && l in added
    ensures OnAddedLinks(Push(p, l, f), added)
  {
  }

  lemma CutKnown(p: Pipes, l: LinkId, keep: nat, added: set<LinkId>)
    requires OnAddedLinks(p, added)
    ensures OnAddedLinks(Cut(p, l, keep), added)
  {
  }

  /** The writing half changes by nothing that arrives but the message that ends it. */
  lemma ArrivalUser(e: Ep, slot: nat, n: nat, msg: ReliableMsg)
    requires Occupied(e.links, slot)
    ensures match HandleReceived(Unbounded, e, slot, n, msg)
            case Ok(e') =>
              && e'.tx == e.tx && e'.cfg == e.cfg && e'.user.readOpen == e.user.readOpen
              && (msg != ReceiveFinish ==> e'.user == e.user.(writeClosed := e'.user.writeClosed))
              && (e'.user.writeOpen ==> e.user.writeOpen)
              && (e'.user == e.user.(writeClosed := e'.user.writeClosed) || e'.user.writeQueue == [])
            case Err(_) => true
  {
    hide Without, Place, Forward, RxStore;
  }

  lemma ArrivalTidy(log: seq<ReliableMsg>, accepted: seq<Bytes>, u: User, u': User, peer: seq<ReliableMsg>, peerReads: bool,
                    msg: ReliableMsg)
    requires WriterTidy(log, accepted, u, peerReads) && msg in peer && (ReceiveFinish in peer ==> !peerReads)
    requires u'.readOpen == u.readOpen && (msg != ReceiveFinish ==> u' == u.(writeClosed := u'.writeClosed))
    requires u'.writeOpen ==> u.writeOpen
    requires u' == u.(writeClosed := u'.writeClosed) || u'.writeQueue == []
    ensures WriterTidy(log, accepted, u', peerReads)
  {
    hide DataPart;
  }

  lemma WireHere(s: Sys)
    requires SysInv(s)
    ensures WireTrue(s.b.hist.log, s.ba) && Local(s.a)
  {
    hide Local, LogMatches, RxMatches, AcksTrue, NothingForgotten, NotStranded, WireTrue, InOrder;
  }

  lemma ReceiveTidy(s: Sys, slot: nat)
    requires Enabled(Unbounded, s, Receive(slot)) && BothTidy(s)
    requires WireTrue(s.b.hist.log, s.ba)
    ensures BothTidy(ReceiveFrame(Unbounded, s, slot))
  {
    hide WireTrue, WriterTidy, OnAddedLinks, HandleAck, HandleReceived, LinkIds, PipeOf, Pop;
    var e, h, l := s.a.ep, s.a.hist, IdAt(s.a.ep, slot);
    PopKnown(s.ba, l, s.b.hist.added);
    match PipeOf(s.ba, l)[0]
    case Ack(n) => AckKeepsUser(e, slot, n);
    case Reliable(n, msg) =>
      ArrivalUser(e, slot, n, msg);
      HeadCopyIsTrue(s.b.hist.log, s.ba, l);
      var r := HandleReceived(Unbounded, e, slot, n, msg);
      if r.Ok? {
        PeerKnows(s);
        ArrivalTidy(h.log, h.accepted, e.user, r.value.user, s.b.hist.log, s.b.ep.user.readOpen, msg);
      }
  }

  lemma PeerKnows(s: Sys)
    requires BothTidy(s)
    ensures ReceiveFinish in s.b.hist.log ==> !s.b.ep.user.readOpen
  {
  }

  lemma SendUser(e: Ep, slot: nat, kind: SendKind, limitReached: bool)
    requires CanSend(Unbounded, e, slot, kind)
    ensures var u, u' := e.user, Send(Unbounded, e, slot, kind, limitReached).user;
            && Occupied(e.links, slot) && (kind.OfReceiveFinish? ==> !u.readOpen) && (kind.OfData? ==> u.writeQueue != [] && u.writeOpen)
            && u' == u.(writeQueue := if kind.OfData? then u.writeQueue[1..] else u.writeQueue,
                        sendFinishSent := u.sendFinishSent || kind.OfSendFinish?,
                        receiveCloseSent := u'.receiveCloseSent, receiveFinishSent := u'.receiveFinishSent)
  {
    hide TxSend, Without, SeqAvail, TxSpace;
  }

  /** What is sent next comes off the queue of the user. */
  lemma MessageTidy(log: seq<ReliableMsg>, e: Ep, kind: SendKind)
    requires kind.OfData? ==> e.user.writeQueue != []
    ensures var m := MessageOf(e, kind);
            var queue' := if kind.OfData? then e.user.writeQueue[1..] else e.user.writeQueue;
            && DataPart(log + [m]) + queue' == DataPart(log) + e.user.writeQueue
            && (m == ReceiveFinish <==> kind.OfReceiveFinish?) && (m == SendFinish <==> kind.OfSendFinish?)
  {
    var m := MessageOf(e, kind);
    if kind.OfData? {
      DataAppend(log, [m]);
      assert DataPart([m]) == [m.bytes];
      assert e.user.writeQueue == [m.bytes] + e.user.writeQueue[1..];
    } else {
      ControlIsNoData(log, m);
    }
  }

  lemma LinkIsAdded(n: Node, slot: nat)
    requires Occupied(n.ep.links, slot)
    requires Local(n)
    ensures IdAt(n.ep, slot) in n.hist.added
  {
    hide Inv;
  }

  lemma SendKeepsWriter(log: seq<ReliableMsg>, accepted: seq<Bytes>, e: Ep, slot: nat, kind: SendKind, limitReached: bool,
                        peerReads: bool)
    requires CanSend(Unbounded, e, slot, kind) && WriterTidy(log, accepted, e.user, peerReads)
    ensures kind.OfData? ==> e.user.writeQueue != []
    ensures WriterTidy(log + [MessageOf(e, kind)], accepted, Send(Unbounded, e, slot, kind, limitReached).user, peerReads)
  {
    SendUser(e, slot, kind, limitReached);
    MessageTidy(log, e, kind);
    hide Send, CanSend, MessageOf, DataPart;
  }

  lemma SendTidy(s: Sys, slot: nat, kind: SendKind, limitReached: bool)
    requires Enabled(Unbounded, s, SendNew(slot, kind, limitReached)) && BothTidy(s)
    requires Local(s.a)
    ensures BothTidy(Act(Unbounded, s, SendNew(slot, kind, limitReached)))
  {
    hide Local, Send, CanSend, SeqAvail, MessageOf, PipeOf, Push, WriterTidy, OnAddedLinks;
    var e, h := s.a.ep, s.a.hist;
    SendUser(e, slot, kind, limitReached);
    SendKeepsWriter(h.log, h.accepted, e, slot, kind, limitReached, s.b.ep.user.readOpen);
    LinkIsAdded(s.a, slot);
    PushKnown(s.ab, IdAt(e, slot), Reliable(e.tx.next, MessageOf(e, kind)), h.added);
  }

  lemma ResendTidy(s: Sys, slot: nat, limitReached: bool)
    requires Enabled(Unbounded, s, SendAgain(slot, limitReached)) && BothTidy(s)
    requires Local(s.a)
    ensures BothTidy(Act(Unbounded, s, SendAgain(slot, limitReached)))
  {
    hide Local, PipeOf, Push, WriterTidy, OnAddedLinks, StatusOf, TxResend, Without, FlushesAlways;
    var e := s.a.ep;
    var u := e.tx.resend[0];
    LinkIsAdded(s.a, slot);
    PushKnown(s.ab, IdAt(e, slot), Reliable(e.tx.packets[u - Base(e.tx)].num, StatusOf(e.tx, u).msg), s.a.hist.added);
  }

  lemma SendAckTidy(s: Sys, slot: nat)
    requires Enabled(Unbounded, s, SendAcknowledgement(slot)) && BothTidy(s)
    requires Local(s.a)
    ensures BothTidy(Act(Unbounded, s, SendAcknowledgement(slot)))
  {
    hide Local, PipeOf, Push, WriterTidy, OnAddedLinks, Without;
    LinkIsAdded(s.a, slot);
    PushKnown(s.ab, IdAt(s.a.ep, slot), Ack(s.a.ep.links[slot].value.acks[0]), s.a.hist.added);
  }

  /** The user at one end acts: the writing half of this end, and whether the other end has a reader. */
  lemma UserTidy(h: Hist, u: User, peerReads: bool, data: Bytes)
    requires WriterTidy(h.log, h.accepted, u, peerReads)
    ensures u.writeOpen ==> WriterTidy(h.log, h.accepted + [data], u.(writeQueue := u.writeQueue + [data]), peerReads)
    ensures u.writeQueue == [] ==> WriterTidy(h.log, h.accepted, u.(writeOpen := false), peerReads)
    ensures WriterTidy(h.log, h.accepted, u.(readOpen := false, closeOpen := false), peerReads)
    ensures WriterTidy(h.log, h.accepted, u.(readOpen := false, receiveFinishSent := true), peerReads)
    ensures WriterTidy(h.log, h.accepted, u.(closeOpen := false), peerReads)
    ensures WriterTidy(h.log, h.accepted, u, false)
  {
    assert DataPart(h.log) + (u.writeQueue + [data]) == DataPart(h.log) + u.writeQueue + [data];
    hide DataPart;
  }

  lemma LinkTidy(s: Sys, act: Action)
    requires act.Unconfirm? || act.Flush? || act.Remove? || act.Add? || act.TouchLink? || act.Kill?
    requires Enabled(Unbounded, s, act) && BothTidy(s)
    ensures BothTidy(Act(Unbounded, s, act))
  {
    hide WriterTidy, TxRequeue, FlushTx, Trim, FreeSlot, Without, Total, Cut;
    if act.Kill? {
      CutKnown(s.ab, act.link, act.keepOut, s.a.hist.added);
      CutKnown(s.ba, act.link, act.keepIn, s.b.hist.added);
    }
  }

  lemma OtherTidy(s: Sys, act: Action)
    requires act.Accept? || act.ConsumeNext? || act.WriteEnd? || act.ReadDropped? || act.ReadClosed?
    requires Enabled(Unbounded, s, act) && BothTidy(s)
    ensures BothTidy(Act(Unbounded, s, act))
  {
    hide WriterTidy, OnAddedLinks;
    UserTidy(s.a.hist, s.a.ep.user, s.b.ep.user.readOpen, if act.Accept? then act.data else []);
    UserTidy(s.b.hist, s.b.ep.user, s.a.ep.user.readOpen, []);
  }

  lemma ActTidy(s: Sys, act: Action)
    requires Enabled(Unbounded, s, act) && BothTidy(s)
    requires SysInv(s)
    ensures BothTidy(Act(Unbounded, s, act))
  {
    WireHere(s);
    hide SysInv, BothTidy, WireTrue, Local;
    match act
    case SendNew(slot, kind, limitReached) => SendTidy(s, slot, kind, limitReached);
    case SendAgain(slot, limitReached) => ResendTidy(s, slot, limitReached);
    case SendAcknowledgement(slot) => SendAckTidy(s, slot);
    case Receive(slot) => ReceiveTidy(s, slot);
    case Unconfirm(_) => LinkTidy(s, act);
    case Flush(_) => LinkTidy(s, act);
    case Remove(_) => LinkTidy(s, act);
    case Add(_, _, _) => LinkTidy(s, act);
    case TouchLink(_, _) => LinkTidy(s, act);
    case Kill(_, _, _) => LinkTidy(s, act);
    case _ => OtherTidy(s, act);
  }

  lemma StepTidy(s: Sys, s': Sys)
    requires Step(Unbounded, s, s') && BothTidy(s)
    requires SysInv(s)
    ensures BothTidy(s')
  {
    hide SysInv, Tidy, Enabled, Act;
    if StepAtA(Unbounded, s, s') {
      var act :| Enabled(Unbounded, s, act) && s' == Act(Unbounded, s, act);
      ActTidy(s, act);
    } else {
      var act :| Enabled(Unbounded, Swap(s), act) && Swap(s') == Act(Unbounded, Swap(s), act);
      SwapKeeps(s);
      ActTidy(Swap(s), act);
    }
  }

  lemma StartTidy(s: Sys)
    requires Start(s)
    ensures BothTidy(s)
  {
  }

  lemma {:induction false} RunStaysTidy(run: seq<Sys>, i: nat)
    requires IsRun(Unbounded, run) && i < |run|
    ensures BothTidy(run[i])
  {
    hide *;
    RunStarts(run);
    if i == 0 {
      StartTidy(run[0]);
    } else {
      RunHasSteps(run, i);
      RunStaysTidy(run, i - 1);
      RunKeeps(run, i - 1);
      StepTidy(run[i - 1], run[i]);
    }
  }

  /** What is known of a state that was reached. */
  lemma ReachedIsSound(s: Sys)
    requires Reachable(s)
    ensures SysInv(s) && BothTidy(s) && Sized(s.a) && Sized(s.b)
  {
    hide *;
    var run := RunTo(s);
    RunKeeps(run, |run| - 1);
    RunStaysTidy(run, |run| - 1);
    RunStaysSized(run, |run| - 1);
  }
}
