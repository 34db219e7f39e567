/** What the endpoints tell each other about their halves: every signal is sent once, and a half counts as closed by the
    peer exactly when the signal of the peer has arrived. */
module Signals {
  import opened Numbering
  import opened Protocol
  import opened Invariants
  import opened System
  import opened Truth
  import opened Credit
  import opened Stream
  import opened Runs
  import opened Guarantees

  // ------------------------------------------------------------------------ what is kept

  ghost predicate Once(log: seq<ReliableMsg>, m: ReliableMsg) {
    forall i, j | 0 <= i < j < |log| && log[i] == m :: log[j] != m
  }

  /** What `x` has said, as it noted it: that it wants no more data, and that it does not read any more, which goes
      without saying once it has consumed the end of the stream. */
  ghost predicate SaidOk(log: seq<ReliableMsg>, consumed: seq<ReliableMsg>, ended: bool, u: User) {
    && (u.receiveCloseSent <==> ReceiveClose in log)
    && (u.receiveCloseSent ==> !u.closeOpen)
    && (u.receiveFinishSent <==> ReceiveFinish in log || SendFinish in consumed)
    && (u.receiveFinishSent ==> !u.readOpen)
    && (ended ==> SendFinish in consumed && ReceiveFinish !in log)
    && Once(log, ReceiveClose) && Once(log, ReceiveFinish) && Once(log, SendFinish)
  }

  /** The signal `m` of the peer, whose messages are `log`, has arrived. */
  ghost predicate Told(log: seq<ReliableMsg>, rx: Rx, m: ReliableMsg) {
    exists n: nat :: n < |log| && log[n] == m && Got(rx, n)
  }

  /** The writing half: closed for more data, and given up, by what the peer has said. */
  ghost predicate ToldOk(log: seq<ReliableMsg>, u: User, closed: bool, finished: bool) {
    && (u.writeClosed <==> closed)
    && (finished ==> !u.writeOpen && u.writeQueue == [] && u.sendFinishSent)
    && (u.sendFinishSent ==> SendFinish in log || finished)
  }

  ghost predicate Said(x: Node) {
    SaidOk(x.hist.log, x.hist.consumed, x.hist.ended, x.ep.user)
  }

  ghost predicate Heard(x: Node, y: Node) {
    ToldOk(x.hist.log, x.ep.user, Told(y.hist.log, x.ep.rx, ReceiveClose), Told(y.hist.log, x.ep.rx, ReceiveFinish))
  }

  ghost predicate Agreed(s: Sys) {
    Said(s.a) && Said(s.b) && Heard(s.a, s.b) && Heard(s.b, s.a)
  }

  // ----------------------------------------------------------------------------- arrival

  lemma ToldFrame(log: seq<ReliableMsg>, rx: Rx, rx': Rx, m: ReliableMsg)
    requires rx'.next == rx.next && rx'.buffer == rx.buffer
    ensures Told(log, rx', m) == Told(log, rx, m)
  {
    assert forall n: nat :: Got(rx', n) == Got(rx, n);
  }

  /** What was just numbered has not arrived. */
  lemma ToldLater(log: seq<ReliableMsg>, rx: Rx, m: ReliableMsg, next: ReliableMsg)
    requires RxMatches(log, rx)
    ensures Told(log + [next], rx, m) == Told(log, rx, m)
  {
    assert !Got(rx, |log|);
    if n: nat :| n < |log + [next]| && (log + [next])[n] == m && Got(rx, n) {
      assert log[n] == m;
    }
    if n: nat :| n < |log| && log[n] == m && Got(rx, n) {
      assert (log + [next])[n] == m;
    }
  }

  lemma ToldNow(log: seq<ReliableMsg>, rx: Rx, n: nat, m: ReliableMsg)
    requires n < |log| && !Place(Unbounded, rx, n).Refused?
    ensures Told(log, RxAfter(rx, n, log[n]), m) <==> Told(log, rx, m) || log[n] == m
    ensures Place(Unbounded, rx, n).Known? ==> Got(rx, n)
  {
    forall k: nat ensures Got(RxAfter(rx, n, log[n]), k) <==> Got(rx, k) || k == n {
      ReceiveGot(rx, n, log[n], k);
    }
    hide RxAfter, Place;
    if log[n] == m {
      assert Got(RxAfter(rx, n, log[n]), n);
    }
  }

  /** The effect of a message at once, if it is new. */
  lemma ArrivalSignals(e: Ep, slot: nat, n: nat, msg: ReliableMsg)
    requires Occupied(e.links, slot) && HandleReceived(Unbounded, e, slot, n, msg).Ok?
    ensures var u, u' := e.user, HandleReceived(Unbounded, e, slot, n, msg).value.user;
            if Place(Unbounded, e.rx, n).Known? then u' == u
            else u' == match msg
                       case ReceiveClose => u.(writeClosed := true)
                       case ReceiveFinish => u.(writeOpen := false, writeQueue := [], sendFinishSent := true)
                       case _ => u
  {
    hide Without, Forward, RxStore;
  }

  lemma ArrivalToldOk(log: seq<ReliableMsg>, u: User, u': User, closed: bool, finished: bool, msg: ReliableMsg, known: bool)
    requires ToldOk(log, u, closed, finished)
    requires known ==> u' == u && (msg == ReceiveClose ==> closed) && (msg == ReceiveFinish ==> finished)
    requires !known ==> u' == match msg
                              case ReceiveClose => u.(writeClosed := true)
                              case ReceiveFinish => u.(writeOpen := false, writeQueue := [], sendFinishSent := true)
                              case _ => u
    ensures ToldOk(log, u', closed || msg == ReceiveClose, finished || msg == ReceiveFinish)
  {
  }

  lemma ArrivalSaid(x: Node, slot: nat, n: nat, msg: ReliableMsg)
    requires Occupied(x.ep.links, slot) && HandleReceived(Unbounded, x.ep, slot, n, msg).Ok? && Said(x)
    ensures Said(x.(ep := HandleReceived(Unbounded, x.ep, slot, n, msg).value))
  {
    ArrivalSignals(x.ep, slot, n, msg);
    hide HandleReceived, Once, Place;
  }

  // ------------------------------------------------------------------------------- sending

  lemma SendSignals(e: Ep, slot: nat, kind: SendKind, limitReached: bool)
    requires CanSend(Unbounded, e, slot, kind)
    ensures var u := e.user;
            && Send(Unbounded, e, slot, kind, limitReached).user
               == u.(writeQueue := if kind.OfData? then u.writeQueue[1..] else u.writeQueue,
                     sendFinishSent := u.sendFinishSent || kind.OfSendFinish?,
                     receiveCloseSent := u.receiveCloseSent || kind.OfReceiveClose?,
                     receiveFinishSent := u.receiveFinishSent || kind.OfReceiveFinish?)
            && Send(Unbounded, e, slot, kind, limitReached).rx == e.rx.(consumed := if kind.OfConsumed? then 0 else e.rx.consumed)
    ensures kind.OfData? ==> e.user.writeQueue != [] && e.user.writeOpen
    ensures kind.OfReceiveClose? ==> !e.user.closeOpen && !e.user.receiveCloseSent
    ensures kind.OfReceiveFinish? ==> !e.user.readOpen && !e.user.receiveFinishSent
    ensures kind.OfSendFinish? ==> !e.user.writeOpen && !e.user.sendFinishSent
    ensures var m := MessageOf(e, kind);
            && (m == ReceiveClose <==> kind.OfReceiveClose?) && (m == ReceiveFinish <==> kind.OfReceiveFinish?)
            && (m == SendFinish <==> kind.OfSendFinish?)
  {
    hide TxSend, Without, SeqAvail, TxSpace;
  }

  lemma OnceMore(log: seq<ReliableMsg>, m: ReliableMsg, next: ReliableMsg)
    requires Once(log, m) && (next == m ==> m !in log)
    ensures Once(log + [next], m)
  {
  }

  lemma SendSaid(x: Node, slot: nat, kind: SendKind, limitReached: bool)
    requires CanSend(Unbounded, x.ep, slot, kind)
    requires Said(x) && SenderOk(x.hist.log, x.hist.accepted, x.ep.user)
    ensures kind.OfData? ==> x.ep.user.writeQueue != []
    ensures Said(Node(Send(Unbounded, x.ep, slot, kind, limitReached), x.hist.(log := x.hist.log + [MessageOf(x.ep, kind)])))
  {
    SendSignals(x.ep, slot, kind, limitReached);
    var log, m := x.hist.log, MessageOf(x.ep, kind);
    hide Send, CanSend, MessageOf, Once, FinishLast, DataPart;
    OnceMore(log, ReceiveClose, m);
    OnceMore(log, ReceiveFinish, m);
    OnceMore(log, SendFinish, m);
  }

  lemma SendHeard(x: Node, y: Node, slot: nat, kind: SendKind, limitReached: bool)
    requires CanSend(Unbounded, x.ep, slot, kind)
    requires Heard(x, y) && Heard(y, x) && RxMatches(x.hist.log, y.ep.rx)
    ensures kind.OfData? ==> x.ep.user.writeQueue != []
    ensures var x' := Node(Send(Unbounded, x.ep, slot, kind, limitReached), x.hist.(log := x.hist.log + [MessageOf(x.ep, kind)]));
            Heard(x', y) && Heard(y, x')
  {
    SendSignals(x.ep, slot, kind, limitReached);
    var m, rx' := MessageOf(x.ep, kind), Send(Unbounded, x.ep, slot, kind, limitReached).rx;
    ToldFrame(y.hist.log, x.ep.rx, rx', ReceiveClose);
    ToldFrame(y.hist.log, x.ep.rx, rx', ReceiveFinish);
    ToldLater(x.hist.log, y.ep.rx, ReceiveClose, m);
    ToldLater(x.hist.log, y.ep.rx, ReceiveFinish, m);
    hide Send, CanSend, MessageOf, Told, RxMatches;
  }

  // ------------------------------------------------------------------------------- the steps

  lemma Matches(s: Sys)
    requires SysInv(s)
    ensures RxMatches(s.a.hist.log, s.b.ep.rx) && WireTrue(s.b.hist.log, s.ba)
    ensures SenderOk(s.a.hist.log, s.a.hist.accepted, s.a.ep.user)
    ensures ReaderOk(s.a.hist.consumed, s.a.hist.delivered, s.a.hist.ended, s.a.ep.user.readOpen)
  {
    hide Inv, IdsAdded, SenderOk, ReaderOk, LogMatches, WireTrue, RxMatches, AcksTrue, NothingForgotten, NotStranded, InOrder,
         Conserved, Bounded;
  }

  lemma SendAgrees(s: Sys, slot: nat, kind: SendKind, limitReached: bool)
    requires Enabled(Unbounded, s, SendNew(slot, kind, limitReached)) && Agreed(s)
    requires RxMatches(s.a.hist.log, s.b.ep.rx) && SenderOk(s.a.hist.log, s.a.hist.accepted, s.a.ep.user)
    ensures Agreed(Act(Unbounded, s, SendNew(slot, kind, limitReached)))
  {
    hide Said, Heard, SenderOk, RxMatches, Send, CanSend, SeqAvail, MessageOf, Push;
    SendSaid(s.a, slot, kind, limitReached);
    SendHeard(s.a, s.b, slot, kind, limitReached);
  }

  lemma ReceiveAgrees(s: Sys, slot: nat)
    requires Enabled(Unbounded, s, Receive(slot)) && Agreed(s)
    requires WireTrue(s.b.hist.log, s.ba)
    ensures Agreed(ReceiveFrame(Unbounded, s, slot))
  {
    hide WireTrue, HandleAck, HandleReceived, LinkIds, Pop, PipeOf, SaidOk, ToldOk, Told;
    var e, l := s.a.ep, IdAt(s.a.ep, slot);
    match PipeOf(s.ba, l)[0]
    case Ack(n) =>
      AckKeepsUser(e, slot, n);
      AckFrame(e, slot, n, LinkIds(e.links)) by { hide *; AddedHere(e.links); }
    case Reliable(n, msg) =>
      HeadCopyIsTrue(s.b.hist.log, s.ba, l);
      if HandleReceived(Unbounded, e, slot, n, msg).Ok? {
        CopyAgrees(s.a, s.b, slot, n);
      }
  }

  lemma AddedHere(links: seq<Option<Link>>)
    ensures IdsAdded(links, LinkIds(links))
  {
  }

  lemma CopyAgrees(x: Node, y: Node, slot: nat, n: nat)
    requires n < |y.hist.log| && Occupied(x.ep.links, slot)
    requires HandleReceived(Unbounded, x.ep, slot, n, y.hist.log[n]).Ok?
    requires Said(x) && Heard(x, y) && Heard(y, x)
    ensures var x' := x.(ep := HandleReceived(Unbounded, x.ep, slot, n, y.hist.log[n]).value);
            Said(x') && Heard(x', y) && Heard(y, x')
  {
    var log, msg := y.hist.log, y.hist.log[n];
    RxAfterIsReceived(x.ep, slot, n, msg);
    ArrivalSaid(x, slot, n, msg);
    ArrivalSignals(x.ep, slot, n, msg);
    ToldNow(log, x.ep.rx, n, ReceiveClose);
    ToldNow(log, x.ep.rx, n, ReceiveFinish);
    var known := Place(Unbounded, x.ep.rx, n).Known?;
    assert known ==> Got(x.ep.rx, n);
    var u' := HandleReceived(Unbounded, x.ep, slot, n, msg).value.user;
    ArrivalToldOk(x.hist.log, x.ep.user, u', Told(log, x.ep.rx, ReceiveClose), Told(log, x.ep.rx, ReceiveFinish), msg, known);
    hide HandleReceived, RxAfter, Place, Got, ToldOk, SaidOk;
  }

  /** The user at `a` acts. */
  lemma UserSaid(h: Hist, u: User)
    requires SaidOk(h.log, h.consumed, h.ended, u)
    ensures SaidOk(h.log, h.consumed, h.ended, u.(readOpen := false, closeOpen := false))
    ensures SaidOk(h.log, h.consumed, h.ended, u.(closeOpen := false))
    ensures forall q, open :: SaidOk(h.log, h.consumed, h.ended, u.(writeQueue := q, writeOpen := open))
  {
    hide Once;
  }

  lemma UserTold(log: seq<ReliableMsg>, u: User, closed: bool, finished: bool, q: seq<Bytes>)
    requires ToldOk(log, u, closed, finished)
    ensures ToldOk(log, u.(readOpen := false, closeOpen := false), closed, finished)
    ensures ToldOk(log, u.(closeOpen := false), closed, finished)
    ensures ToldOk(log, u.(readOpen := false, receiveFinishSent := true), closed, finished)
    ensures ToldOk(log, u.(writeOpen := false), closed, finished)
    ensures u.writeOpen ==> ToldOk(log, u.(writeQueue := q), closed, finished)
  {
  }

  lemma UserAgrees(s: Sys, act: Action)
    requires act.Accept? || act.WriteEnd? || act.ReadDropped? || act.ReadClosed?
    requires Enabled(Unbounded, s, act) && Agreed(s)
    ensures Agreed(Act(Unbounded, s, act))
  {
    hide SaidOk, ToldOk, Told;
    var h, u := s.a.hist, s.a.ep.user;
    UserSaid(h, u);
    UserTold(h.log, u, Told(s.b.hist.log, s.a.ep.rx, ReceiveClose), Told(s.b.hist.log, s.a.ep.rx, ReceiveFinish),
             if act.Accept? then u.writeQueue + [act.data] else []);
  }

  lemma ConsumeSaid(x: Node)
    requires x.ep.rx.consumable != [] && Said(x)
    ensures Said(Node(Consume(x.ep), ConsumeHist(x)))
  {
    hide Once;
    var m, c := x.ep.rx.consumable[0].msg, x.hist.consumed;
    assert SendFinish in c + [m] <==> SendFinish in c || m == SendFinish;
  }

  lemma ConsumeAgrees(s: Sys)
    requires Enabled(Unbounded, s, ConsumeNext) && Agreed(s)
    ensures Agreed(Act(Unbounded, s, ConsumeNext))
  {
    var e, h := s.a.ep, s.a.hist;
    ConsumeSaid(s.a);
    ToldFrame(s.b.hist.log, e.rx, Consume(e).rx, ReceiveClose);
    ToldFrame(s.b.hist.log, e.rx, Consume(e).rx, ReceiveFinish);
    UserTold(h.log, e.user, Told(s.b.hist.log, e.rx, ReceiveClose), Told(s.b.hist.log, e.rx, ReceiveFinish), []);
    hide SaidOk, ToldOk, Told;
  }

  lemma OtherAgrees(s: Sys, act: Action)
    requires act.SendAgain? || act.SendAcknowledgement? || act.Unconfirm? || act.Flush? || act.Remove? || act.Add?
             || act.TouchLink? || act.Kill?
    requires Enabled(Unbounded, s, act) && Agreed(s)
    ensures Agreed(Act(Unbounded, s, act))
  {
    hide SaidOk, ToldOk, Told, TxResend, TxRequeue, FlushTx, Trim, FreeSlot, Without, Total, Push, Cut, StatusOf, CanResend;
  }

  lemma ActAgrees(s: Sys, act: Action)
    requires Enabled(Unbounded, s, act) && Agreed(s)
    requires SysInv(s)
    ensures Agreed(Act(Unbounded, s, act))
  {
    Matches(s);
    hide SysInv, Agreed, RxMatches, WireTrue, SenderOk, ReaderOk;
    match act
    case SendNew(slot, kind, limitReached) => SendAgrees(s, slot, kind, limitReached);
    case Receive(slot) => ReceiveAgrees(s, slot);
    case ConsumeNext => ConsumeAgrees(s);
    case Accept(_) => UserAgrees(s, act);
    case WriteEnd => UserAgrees(s, act);
    case ReadDropped => UserAgrees(s, act);
    case ReadClosed => UserAgrees(s, act);
    case _ => OtherAgrees(s, act);
  }

  lemma StepAgrees(s: Sys, s': Sys)
    requires Step(Unbounded, s, s') && Agreed(s)
    requires SysInv(s)
    ensures Agreed(s')
  {
    hide SysInv, Said, Heard, Enabled, Act;
    if StepAtA(Unbounded, s, s') {
      var act :| Enabled(Unbounded, s, act) && s' == Act(Unbounded, s, act);
      ActAgrees(s, act);
    } else {
      var act :| Enabled(Unbounded, Swap(s), act) && Swap(s') == Act(Unbounded, Swap(s), act);
      SwapKeeps(s);
      ActAgrees(Swap(s), act);
    }
  }

  lemma StartAgrees(s: Sys)
    requires Start(s)
    ensures Agreed(s)
  {
  }

  lemma {:induction false} RunAgrees(run: seq<Sys>, i: nat)
    requires IsRun(Unbounded, run) && i < |run|
    ensures Agreed(run[i])
  {
    hide *;
    RunStarts(run);
    if i == 0 {
      StartAgrees(run[0]);
    } else {
      RunHasSteps(run, i);
      RunAgrees(run, i - 1);
      RunKeeps(run, i - 1);
      StepAgrees(run[i - 1], run[i]);
    }
  }

  // ------------------------------------------------------------------------- what follows

  /** In every run: the writing half is told to take no more data exactly when the signal of the peer has arrived, which
      means that its reader asked for it; when the peer does not read any more, the writing half is given up with all it
      has queued; and nothing is said twice. */
  lemma SignalsArrive(run: seq<Sys>, i: nat)
    requires IsRun(Unbounded, run) && i < |run|
    ensures var x, y := run[i].a, run[i].b;
            && (x.ep.user.writeClosed <==> exists n: nat :: n < |y.hist.log| && y.hist.log[n] == ReceiveClose && Got(x.ep.rx, n))
            && (x.ep.user.writeClosed ==> !y.ep.user.closeOpen)
            && ((exists n: nat :: n < |y.hist.log| && y.hist.log[n] == ReceiveFinish && Got(x.ep.rx, n)) ==>
                  !x.ep.user.writeOpen && x.ep.user.writeQueue == [] && !y.ep.user.readOpen)
            && (ReceiveFinish in y.hist.log ==> !y.hist.ended)
            && Once(y.hist.log, ReceiveClose) && Once(y.hist.log, ReceiveFinish) && Once(y.hist.log, SendFinish)
  {
    RunAgrees(run, i);
    hide IsRun, Got, Once;
  }

  /** In every run, closing a half makes its signal due at once: the reader that wants no more data, the reader that goes
      away, and the writer that has finished. */
  lemma ClosingIsDue(run: seq<Sys>, i: nat, act: Action)
    requires IsRun(Unbounded, run) && i < |run| && Enabled(Unbounded, run[i], act)
    ensures var e' := Act(Unbounded, run[i], act).a.ep;
            && (act.ReadClosed? ==> Due(Unbounded, e', OfReceiveClose) && e'.user.readOpen == run[i].a.ep.user.readOpen)
            && (act.ReadDropped? ==> Due(Unbounded, e', OfReceiveFinish))
            && (act.WriteEnd? ==> Due(Unbounded, e', OfSendFinish))
  {
    hide *;
    RunAgrees(run, i);
    RunKeeps(run, i);
    Matches(run[i]);
    SaidHere(run[i]);
    NotYetSaid(run[i].a);
    ClosingHere(run[i], act);
  }

  lemma SaidHere(s: Sys)
    requires Agreed(s)
    ensures Said(s.a)
  {
    hide Said, Heard;
  }

  /** What is open was not said to be closed. */
  predicate Unsaid(u: User) {
    (u.closeOpen ==> !u.receiveCloseSent) && (u.readOpen ==> !u.receiveFinishSent) && (u.writeOpen ==> !u.sendFinishSent)
  }

  lemma NotYetSaid(x: Node)
    requires Said(x) && SenderOk(x.hist.log, x.hist.accepted, x.ep.user)
    ensures Unsaid(x.ep.user)
  {
    hide Once, DataPart, FinishLast;
  }

  lemma ClosingHere(s: Sys, act: Action)
    requires Enabled(Unbounded, s, act) && Unsaid(s.a.ep.user)
    ensures var e' := Act(Unbounded, s, act).a.ep;
            && (act.ReadClosed? ==> Due(Unbounded, e', OfReceiveClose) && e'.user.readOpen == s.a.ep.user.readOpen)
            && (act.ReadDropped? ==> Due(Unbounded, e', OfReceiveFinish))
            && (act.WriteEnd? ==> Due(Unbounded, e', OfSendFinish))
  {
  }

  lemma AllGot(log: seq<ReliableMsg>, rx: Rx, m: ReliableMsg)
    requires rx.next == |log|
    ensures m in log <==> Told(log, rx, m)
  {
    if m in log {
      var n :| 0 <= n < |log| && log[n] == m;
      assert Got(rx, n);
    }
  }

  /** When an endpoint has no signal to send and all it sent was acknowledged, its peer knows: it takes no more data
      exactly when the reader was closed, and none at all when there is no reader. */
  lemma SignalsAreHeard(run: seq<Sys>, i: nat)
    requires IsRun(Unbounded, run) && i < |run| && run[i].b.ep.tx.packets == []
    requires !Due(Unbounded, run[i].b.ep, OfReceiveClose) && !Due(Unbounded, run[i].b.ep, OfReceiveFinish)
    ensures run[i].a.ep.user.writeClosed <==> !run[i].b.ep.user.closeOpen
    ensures !run[i].b.ep.user.readOpen ==> !run[i].a.ep.user.writeOpen
  {
    hide *;
    RunAgrees(run, i);
    RunKeeps(run, i);
    HeardHere(run[i]);
  }

  lemma HeardHere(s: Sys)
    requires s.b.ep.tx.packets == [] && Agreed(s)
    requires !Due(Unbounded, s.b.ep, OfReceiveClose) && !Due(Unbounded, s.b.ep, OfReceiveFinish)
    requires SysInv(s)
    ensures s.a.ep.user.writeClosed <==> !s.b.ep.user.closeOpen
    ensures !s.b.ep.user.readOpen ==> !s.a.ep.user.writeOpen
  {
    hide SysInv, Told, Once, SenderOk, RxMatches, WireTrue, ReaderOk;
    SwapKeeps(s);
    ArrivedAll(Swap(s));
    ConsumedIsLogged(Swap(s), SendFinish);
    Matches(s);
    EndIsLast(s.a.hist.log, s.a.hist.accepted, s.a.ep.user);
    AllGot(s.b.hist.log, s.a.ep.rx, ReceiveClose);
    AllGot(s.b.hist.log, s.a.ep.rx, ReceiveFinish);
  }

  lemma EndIsLast(log: seq<ReliableMsg>, accepted: seq<Bytes>, u: User)
    requires SenderOk(log, accepted, u)
    ensures SendFinish in log ==> !u.writeOpen
  {
  }

  lemma ArrivedAll(s: Sys)
    requires s.a.ep.tx.packets == []
    requires SysInv(s)
    ensures s.b.ep.rx.next == |s.a.hist.log| && s.b.ep.rx.buffer == []
  {
    hide Inv, IdsAdded, SenderOk, ReaderOk, LogMatches, WireTrue, RxMatches, AcksTrue, NothingForgotten, NotStranded, InOrder,
         Conserved, Bounded, TxOk, RxOk;
    InvTxRx(s.b.ep);
    EmptyMeansArrived(s.a.hist.log, s.a.ep.tx, s.b.ep.rx);
  }

  /** What `a` has consumed, `b` has sent. */
  lemma ConsumedIsLogged(s: Sys, m: ReliableMsg)
    requires SysInv(s)
    ensures m in s.a.hist.consumed ==> m in s.b.hist.log
  {
    hide Local, LogMatches, WireTrue, RxMatches, AcksTrue, NothingForgotten, NotStranded, Conserved, Bounded, OrderedPart;
    var upto := Upto(s.b.hist.log, s.a.ep.rx.next);
    OrderedIsIn(upto, m);
    assert m in s.a.hist.consumed ==> m in s.a.hist.consumed + Msgs(s.a.ep.rx.consumable);
  }

  lemma {:induction false} OrderedIsIn(log: seq<ReliableMsg>, m: ReliableMsg)
    ensures m in OrderedPart(log) ==> m in log
    ensures m in log && Ordered(m) ==> m in OrderedPart(log)
  {
    if log != [] {
      OrderedIsIn(log[1..], m);
    }
  }

  /** Whoever may end gracefully has told its peer everything: the peer sends no more data, and its reader is gone, has
      seen the end of the stream or finds it among what it has yet to consume. */
  lemma ExitTellsPeer(run: seq<Sys>, i: nat)
    requires IsRun(Unbounded, run) && i < |run| && ExitReady(run[i].a.ep)
    ensures var y := run[i].b;
            && !y.ep.user.writeOpen
            && (!y.ep.user.readOpen || SendFinish in y.hist.consumed + Msgs(y.ep.rx.consumable))
  {
    hide *;
    RunAgrees(run, i);
    RunKeeps(run, i);
    ExitHere(run[i]);
    PeerIsTold(run[i]);
  }

  lemma PeerIsTold(s: Sys)
    requires ExitReady(s.a.ep) && Agreed(s) && s.b.ep.rx.next == |s.a.hist.log|
    requires s.b.hist.consumed + Msgs(s.b.ep.rx.consumable) == OrderedPart(s.a.hist.log)
    requires SysInv(s)
    ensures !s.b.ep.user.writeOpen && (!s.b.ep.user.readOpen || SendFinish in s.b.hist.consumed + Msgs(s.b.ep.rx.consumable))
  {
    hide SysInv, Once, SenderOk, RxMatches, WireTrue, ReaderOk, OrderedPart;
    SwapKeeps(s);
    Matches(Swap(s));
    ConsumedIsLogged(s, SendFinish);
    EndIsLast(s.b.hist.log, s.b.hist.accepted, s.b.ep.user);
    AllGot(s.a.hist.log, s.b.ep.rx, ReceiveFinish);
    OrderedIsIn(s.a.hist.log, SendFinish);
  }
}
