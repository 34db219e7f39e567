/** Runs built step by step: what can be reached. */
module Scenarios {
  import opened Numbering
  import opened Protocol
  import opened System

  /** Where a run begins: with a fresh connection, or in a given state. */
  datatype Origin = Anew | At(state: Sys)

  ghost predicate Path(run: seq<Sys>, from: Origin) {
    match from
    case Anew => IsRun(Unbounded, run)
    case At(s) => run != [] && run[0] == s && forall i | 0 <= i < |run| - 1 :: Step(Unbounded, run[i], run[i + 1])
  }

  /** The states a connection can get into.  Its configurations and its gate can be read off the state. */
  ghost predicate Reachable(s: Sys, from: Origin := Anew) {
    exists run: seq<Sys> :: Path(run, from) && run[|run| - 1] == s
  }

  lemma RunTo(s: Sys) returns (run: seq<Sys>)
    requires Reachable(s)
    ensures IsRun(Unbounded, run) && |run| > 0 && run[|run| - 1] == s
  {
    hide Start, Step;
    run :| Path(run, Anew) && run[|run| - 1] == s;
  }

  lemma Stay(s: Sys)
    ensures Reachable(s, At(s))
  {
    assert Path([s], At(s)) && [s][|[s]| - 1] == s;
  }

  lemma Extend(s: Sys, s': Sys, from: Origin := Anew)
    requires Reachable(s, from) && Step(Unbounded, s, s')
    ensures Reachable(s', from)
  {
    hide Step, Start;
    var run: seq<Sys> :| Path(run, from) && run[|run| - 1] == s;
    var longer := run + [s'];
    forall i | 0 <= i < |longer| - 1 ensures Step(Unbounded, longer[i], longer[i + 1]) {
      if i < |run| - 1 {
        assert Step(Unbounded, run[i], run[i + 1]);
      }
    }
    assert Path(longer, from) && longer[|longer| - 1] == s';
  }

  /** What `a` does. */
  lemma Do(s: Sys, act: Action, from: Origin := Anew) returns (s': Sys)
    requires Enabled(Unbounded, s, act) && Reachable(s, from)
    ensures s' == Act(Unbounded, s, act) && Reachable(s', from)
  {
    hide Enabled, Act, Reachable;
    s' := Act(Unbounded, s, act);
    assert StepAtA(Unbounded, s, s');
    Extend(s, s', from);
  }

  /** What `b` does. */
  lemma DoB(s: Sys, act: Action, from: Origin := Anew) returns (s': Sys)
    requires Enabled(Unbounded, Swap(s), act) && Reachable(s, from)
    ensures s' == Swap(Act(Unbounded, Swap(s), act)) && Reachable(s', from)
  {
    hide Enabled, Act, Reachable;
    s' := Swap(Act(Unbounded, Swap(s), act));
    assert Swap(s') == Act(Unbounded, Swap(s), act);
    assert StepAtA(Unbounded, Swap(s), Swap(s'));
    Extend(s, s', from);
  }

  // ------------------------------------------------------------------------- symmetry

  /** The two sides are alike: the mirror image of a run is a run. */
  lemma RunsAreSymmetric(run: seq<Sys>, mirror: seq<Sys>)
    requires IsRun(Unbounded, run) && |mirror| == |run| && forall i | 0 <= i < |run| :: mirror[i] == Swap(run[i])
    ensures IsRun(Unbounded, mirror)
  {
    hide StepAtA;
    var ca, cb, gated :| Matching(ca, cb) && run[0] == StartOf(ca, cb, gated);
    assert mirror[0] == StartOf(cb, ca, gated);
    assert Start(mirror[0]);
    forall i | 0 <= i < |mirror| - 1 ensures Step(Unbounded, mirror[i], mirror[i + 1]) {
      assert Step(Unbounded, run[i], run[i + 1]);
      assert Swap(mirror[i]) == run[i] && Swap(mirror[i + 1]) == run[i + 1];
    }
  }

  function Mirror(from: Origin): Origin {
    match from
    case Anew => Anew
    case At(s) => At(Swap(s))
  }

  lemma ReachMirror(s: Sys, from: Origin := Anew)
    requires Reachable(s, from)
    ensures Reachable(Swap(s), Mirror(from))
  {
    hide StepAtA, Start;
    var run: seq<Sys> :| Path(run, from) && run[|run| - 1] == s;
    var mirror := seq(|run|, i requires 0 <= i < |run| => Swap(run[i]));
    if from.Anew? {
      RunsAreSymmetric(run, mirror);
    } else {
      forall i | 0 <= i < |mirror| - 1 ensures Step(Unbounded, mirror[i], mirror[i + 1]) {
        assert Step(Unbounded, run[i], run[i + 1]);
        assert Swap(mirror[i]) == run[i] && Swap(mirror[i + 1]) == run[i + 1];
      }
    }
    assert Path(mirror, Mirror(from)) && mirror[|mirror| - 1] == Swap(s);
  }

  // ------------------------------------------------------------------------- one round trip

  /** A link that carries nothing and has nothing to acknowledge. */
  predicate QuietAt(e: Ep, slot: nat) {
    Occupied(e.links, slot) && e.links[slot] == Some(NewLink(IdAt(e, slot), false, 1)) && e.idle == []
  }

  ghost predicate Quiet(s: Sys, slot: nat) {
    && s.haltA.None? && s.haltB.None?
    && QuietAt(s.a.ep, slot) && QuietAt(s.b.ep, slot) && IdAt(s.a.ep, slot) == IdAt(s.b.ep, slot)
    && PipeOf(s.ab, IdAt(s.a.ep, slot)) == [] && PipeOf(s.ba, IdAt(s.a.ep, slot)) == []
  }

  /** Nothing has changed on the other links. */
  ghost predicate SameElse(p: Pipes, p': Pipes, l: LinkId) {
    forall x: LinkId | x != l :: PipeOf(p', x) == PipeOf(p, x)
  }

  lemma Pushed(p: Pipes, l: LinkId, f: Frame)
    ensures PipeOf(Push(p, l, f), l) == PipeOf(p, l) + [f] && SameElse(p, Push(p, l, f), l)
  {
  }

  lemma Popped(p: Pipes, l: LinkId)
    requires PipeOf(p, l) != []
    ensures PipeOf(Pop(p, l), l) == PipeOf(p, l)[1..] && SameElse(p, Pop(p, l), l)
  {
  }

  /** The packets after a message was sent over a quiet link and acknowledged. */
  function Settled(tx: Tx, slot: nat, l: LinkId, m: ReliableMsg): Tx {
    TxAck(Unbounded, TxSend(Unbounded, tx, slot, l, m, FlushesAlways(m)), slot, tx.next)
  }

  function Busy(l: LinkId, payload: bool, uid: nat, size: nat): Link {
    NewLink(l, false, 1).(payload := payload, txed := [uid], unackedData := size)
  }

  /** The endpoint once a message was handed to the sink of a quiet link, its payload (if any) being still to be handed over. */
  function Sending(e: Ep, slot: nat, kind: SendKind, payload: bool): Ep
    requires QuietAt(e, slot) && (kind.OfData? ==> e.user.writeQueue != [])
  {
    var m, l := MessageOf(e, kind), IdAt(e, slot);
    AfterSend(e, kind).(tx := TxSend(Unbounded, e.tx, slot, l, m, FlushesAlways(m)), unconsumed := e.unconsumed + Size(m),
                        links := e.links[slot := Some(Busy(l, payload, e.tx.created, Size(m)))])
  }

  lemma SendOverQuiet(e: Ep, slot: nat, kind: SendKind)
    requires QuietAt(e, slot) && Due(Unbounded, e, kind)
    ensures CanSend(Unbounded, e, slot, kind)
    ensures Send(Unbounded, e, slot, kind, false) == Sending(e, slot, kind, MessageOf(e, kind).Data?)
  {
    hide TxSend, Due;
    assert NewLink(IdAt(e, slot), false, 1).txed + [e.tx.created] == [e.tx.created];
  }

  lemma PayloadGoes(e: Ep, slot: nat, kind: SendKind, payload: bool)
    requires QuietAt(e, slot) && (kind.OfData? ==> e.user.writeQueue != [])
    ensures var e1 := Sending(e, slot, kind, payload);
            TouchEnabled(e1, slot, PayloadGone) && ApplyTouch(e1, slot, PayloadGone) == Sending(e, slot, kind, false)
  {
    hide TxSend;
    assert Sending(e, slot, kind, payload).links[slot := Some(Busy(IdAt(e, slot), false, e.tx.created, Size(MessageOf(e, kind))))]
        == Sending(e, slot, kind, false).links;
  }

  lemma SendNewIs(s: Sys, slot: nat, kind: SendKind)
    requires s.haltA.None? && CanSend(Unbounded, s.a.ep, slot, kind) && (s.gated ==> SeqAvail(Unbounded, s.a.ep.tx))
    ensures var act := SendNew(slot, kind, false);
            var m := MessageOf(s.a.ep, kind);
            && Enabled(Unbounded, s, act)
            && Act(Unbounded, s, act)
               == s.(a := Node(Send(Unbounded, s.a.ep, slot, kind, false), s.a.hist.(log := s.a.hist.log + [m])),
                     ab := Push(s.ab, IdAt(s.a.ep, slot), Reliable(s.a.ep.tx.next, m)))
  {
    hide Send, MessageOf, SeqAvail, Due;
  }

  lemma TouchIs(s: Sys, slot: nat, touch: Touch)
    requires s.haltA.None? && TouchEnabled(s.a.ep, slot, touch)
    ensures Enabled(Unbounded, s, TouchLink(slot, touch))
    ensures Act(Unbounded, s, TouchLink(slot, touch)) == s.(a := s.a.(ep := ApplyTouch(s.a.ep, slot, touch)))
  {
    hide TouchEnabled, ApplyTouch;
  }

  lemma SendAckIs(s: Sys, slot: nat)
    requires s.haltA.None? && Claimable(s.a.ep, slot) && s.a.ep.links[slot].value.acks != []
    ensures var act := SendAcknowledgement(slot);
            && Enabled(Unbounded, s, act)
            && Act(Unbounded, s, act)
               == s.(a := s.a.(ep := SendAck(Claim(s.a.ep, slot), slot)),
                     ab := Push(s.ab, IdAt(s.a.ep, slot), Ack(s.a.ep.links[slot].value.acks[0])))
  {
  }

  lemma ReceiveIs(s: Sys, slot: nat)
    requires s.haltA.None? && Occupied(s.a.ep.links, slot) && PipeOf(s.ba, IdAt(s.a.ep, slot)) != []
    ensures Enabled(Unbounded, s, Receive(slot))
    ensures var f := PipeOf(s.ba, IdAt(s.a.ep, slot))[0];
            var s' := Act(Unbounded, s, Receive(slot));
            var popped := s.(ba := Pop(s.ba, IdAt(s.a.ep, slot)));
            match f
            case Ack(n) => s' == popped.(a := s.a.(ep := HandleAck(Unbounded, s.a.ep, slot, n)))
            case Reliable(n, m) =>
              match HandleReceived(Unbounded, s.a.ep, slot, n, m)
              case Ok(e) => s' == popped.(a := s.a.(ep := e))
              case Err(err) => s' == popped.(haltA := Some(err), dead := s.dead + LinkIds(s.a.ep.links))
  {
    hide HandleAck, HandleReceived, LinkIds;
  }

  /** The message is on the wire. */
  lemma SendIt(s: Sys, slot: nat, kind: SendKind, from: Origin := Anew) returns (s': Sys)
    requires Due(Unbounded, s.a.ep, kind) && (s.gated ==> SeqAvail(Unbounded, s.a.ep.tx))
    requires Quiet(s, slot)
    requires Reachable(s, from)
    ensures var m, l := MessageOf(s.a.ep, kind), IdAt(s.a.ep, slot);
            && s' == s.(a := Node(Sending(s.a.ep, slot, kind, false), s.a.hist.(log := s.a.hist.log + [m])), ab := s'.ab)
            && s'.ab == Push(s.ab, l, Reliable(s.a.ep.tx.next, m))
            && PipeOf(s'.ab, l) == [Reliable(s.a.ep.tx.next, m)]
    ensures Reachable(s', from)
  {
    assert kind.OfData? ==> s.a.ep.user.writeQueue != [];
    hide Reachable, Sending, Send, CanSend, SeqAvail, Due, TouchEnabled, ApplyTouch, MessageOf, QuietAt, Enabled, Act;
    SendOverQuiet(s.a.ep, slot, kind);
    PayloadGoes(s.a.ep, slot, kind, MessageOf(s.a.ep, kind).Data?);
    SendNewIs(s, slot, kind);
    var s1 := Do(s, SendNew(slot, kind, false), from);
    TouchIs(s1, slot, PayloadGone);
    s' := Do(s1, TouchLink(slot, PayloadGone), from);
  }

  // ------------------------------------------------------------------ arrival and acknowledgement

  lemma ReceivedOverQuiet(e: Ep, slot: nat, n: nat, m: ReliableMsg)
    requires QuietAt(e, slot) && HandleReceived(Unbounded, e, slot, n, m).Ok?
    ensures var e' := HandleReceived(Unbounded, e, slot, n, m).value;
            && e'.links == e.links[slot := Some(NewLink(IdAt(e, slot), false, 1).(acks := [n]))] && e'.idle == []
            && Claimable(e', slot) && SendAck(Claim(e', slot), slot) == e'.(links := e.links)
  {
    hide Place, Forward, RxStore;
    var e', l := HandleReceived(Unbounded, e, slot, n, m).value, IdAt(e, slot);
    assert NewLink(l, false, 1).acks + [n] == [n] && [n][1..] == [];
    assert e'.links[slot := Some(NewLink(l, false, 1))] == e.links;
  }

  /** The peer takes the message off the wire and acknowledges it. */
  lemma GetIt(s: Sys, slot: nat, l: LinkId, n: nat, m: ReliableMsg, from: Origin := Anew) returns (s': Sys)
    requires QuietAt(s.b.ep, slot) && IdAt(s.b.ep, slot) == l && HandleReceived(Unbounded, s.b.ep, slot, n, m).Ok?
    requires PipeOf(s.ab, l) == [Reliable(n, m)] && PipeOf(s.ba, l) == [] && s.haltB.None?
    requires Reachable(s, from)
    ensures var e := HandleReceived(Unbounded, s.b.ep, slot, n, m).value;
            && s' == s.(b := s.b.(ep := e.(links := s.b.ep.links)), ab := s'.ab, ba := s'.ba)
            && PipeOf(s'.ab, l) == [] && PipeOf(s'.ba, l) == [Ack(n)]
            && SameElse(s.ab, s'.ab, l) && SameElse(s.ba, s'.ba, l)
    ensures Reachable(s', from)
  {
    ReceivedOverQuiet(s.b.ep, slot, n, m);
    Popped(s.ab, l);
    Pushed(s.ba, l, Ack(n));
    hide Reachable, HandleReceived, SendAck, Claim, Claimable, Enabled, Act, SameElse, Push, Pop, PipeOf;
    ReceiveIs(Swap(s), slot);
    var s1 := DoB(s, Receive(slot), from);
    SendAckIs(Swap(s1), slot);
    s' := DoB(s1, SendAcknowledgement(slot), from);
  }

  /** The acknowledgement arrives. */
  lemma SettleIt(s: Sys, slot: nat, l: LinkId, n: nat, from: Origin := Anew) returns (s': Sys)
    requires Occupied(s.a.ep.links, slot) && IdAt(s.a.ep, slot) == l
    requires PipeOf(s.ba, l) == [Ack(n)] && s.haltA.None?
    requires Reachable(s, from)
    ensures s' == s.(a := s.a.(ep := HandleAck(Unbounded, s.a.ep, slot, n)), ba := s'.ba)
    ensures PipeOf(s'.ba, l) == [] && SameElse(s.ba, s'.ba, l)
    ensures Reachable(s', from)
  {
    hide Reachable, HandleAck, Enabled, Act;
    ReceiveIs(s, slot);
    s' := Do(s, Receive(slot), from);
  }

  /** The receiver once it has acknowledged the message. */
  function GotAndAcked(e: Ep, slot: nat, n: nat, m: ReliableMsg): Ep
    requires Occupied(e.links, slot) && HandleReceived(Unbounded, e, slot, n, m).Ok?
  {
    HandleReceived(Unbounded, e, slot, n, m).value.(links := e.links)
  }

  /** The only frame on a link is received and acknowledged, and the acknowledgement arrives. */
  lemma Arrives(s: Sys, slot: nat, l: LinkId, n: nat, m: ReliableMsg, from: Origin := Anew) returns (s': Sys)
    requires s.haltA.None? && s.haltB.None? && Occupied(s.a.ep.links, slot) && IdAt(s.a.ep, slot) == l
    requires QuietAt(s.b.ep, slot) && IdAt(s.b.ep, slot) == l && HandleReceived(Unbounded, s.b.ep, slot, n, m).Ok?
    requires PipeOf(s.ab, l) == [Reliable(n, m)] && PipeOf(s.ba, l) == []
    requires Reachable(s, from)
    ensures s' == s.(a := s'.a, b := s'.b, ab := s'.ab, ba := s'.ba)
    ensures s'.a == s.a.(ep := HandleAck(Unbounded, s.a.ep, slot, n))
    ensures s'.b == s.b.(ep := GotAndAcked(s.b.ep, slot, n, m))
    ensures QuietAt(s'.b.ep, slot) && IdAt(s'.b.ep, slot) == l && PipeOf(s'.ab, l) == [] && PipeOf(s'.ba, l) == []
    ensures SameElse(s.ab, s'.ab, l) && SameElse(s.ba, s'.ba, l)
    ensures Reachable(s', from)
  {
    ReceivedOverQuiet(s.b.ep, slot, n, m);
    hide Reachable, HandleReceived, HandleAck;
    var s1 := GetIt(s, slot, l, n, m, from);
    s' := SettleIt(s1, slot, l, n, from);
  }

  /** A packet that was just sent and is acknowledged is no longer current. */
  lemma SettledIsStale(tx: Tx, slot: nat, l: LinkId, m: ReliableMsg)
    requires tx.next == tx.created && |tx.packets| <= tx.created
    ensures var sent := TxSend(Unbounded, tx, slot, l, m, FlushesAlways(m));
            && AckIndex(Unbounded, sent, tx.next) == Some(|tx.packets|)
            && sent.packets[|tx.packets|].status == Sent(slot, l, m, false, false)
            && !Current(Settled(tx, slot, l, m), l, tx.created)
  {
  }

  lemma AckOverBusy(e: Ep, slot: nat, kind: SendKind)
    requires QuietAt(e, slot) && (kind.OfData? ==> e.user.writeQueue != [])
    requires e.tx.next == e.tx.created && |e.tx.packets| <= e.tx.created
    ensures HandleAck(Unbounded, Sending(e, slot, kind, false), slot, e.tx.next) == SentAndSettled(e, slot, kind)
  {
    var m, l := MessageOf(e, kind), IdAt(e, slot);
    SettledIsStale(e.tx, slot, l, m);
    hide TxSend, TxAck, AckIndex, Current;
    assert DropStale([e.tx.created], Settled(e.tx, slot, l, m), l) == [] by {
      assert DropStale([], Settled(e.tx, slot, l, m), l) == [];
    }
    assert e.links[slot := Some(NewLink(l, false, 1))] == e.links;
    assert Sending(e, slot, kind, false).links[slot := Some(NewLink(l, false, 1))] == e.links;
  }

  /** The sender once its message is settled. */
  function SentAndSettled(e: Ep, slot: nat, kind: SendKind): Ep
    requires QuietAt(e, slot) && (kind.OfData? ==> e.user.writeQueue != [])
  {
    var m := MessageOf(e, kind);
    AfterSend(e, kind).(tx := Settled(e.tx, slot, IdAt(e, slot), m), unconsumed := e.unconsumed + Size(m))
  }

  /** One message over a quiet link, from sending to its acknowledgement: the link is quiet again. */
  lemma ThereAndBack(s: Sys, slot: nat, kind: SendKind, from: Origin := Anew) returns (s': Sys)
    requires Due(Unbounded, s.a.ep, kind) && (s.gated ==> SeqAvail(Unbounded, s.a.ep.tx))
    requires s.a.ep.tx.next == s.a.ep.tx.created && |s.a.ep.tx.packets| <= s.a.ep.tx.created
    requires Quiet(s, slot)
    requires HandleReceived(Unbounded, s.b.ep, slot, s.a.ep.tx.next, MessageOf(s.a.ep, kind)).Ok?
    requires Reachable(s, from)
    ensures var m := MessageOf(s.a.ep, kind);
            && s' == s.(a := s'.a, b := s'.b, ab := s'.ab, ba := s'.ba)
            && s'.a == Node(SentAndSettled(s.a.ep, slot, kind), s.a.hist.(log := s.a.hist.log + [m]))
            && s'.b == s.b.(ep := GotAndAcked(s.b.ep, slot, s.a.ep.tx.next, m))
    ensures Quiet(s', slot) && IdAt(s'.a.ep, slot) == IdAt(s.a.ep, slot)
    ensures SameElse(s.ab, s'.ab, IdAt(s.a.ep, slot)) && SameElse(s.ba, s'.ba, IdAt(s.a.ep, slot))
    ensures Reachable(s', from)
  {
    assert kind.OfData? ==> s.a.ep.user.writeQueue != [];
    var m, n := MessageOf(s.a.ep, kind), s.a.ep.tx.next;
    hide Reachable, HandleReceived, HandleAck, Sending, Settled, MessageOf, SeqAvail, Due, QuietAt, AfterSend, GotAndAcked;
    AckOverBusy(s.a.ep, slot, kind);
    SendingId(s.a.ep, slot, kind);
    SettledIsQuiet(s.a.ep, slot, kind);
    var s1 := SendIt(s, slot, kind, from);
    s' := Arrives(s1, slot, IdAt(s.a.ep, slot), n, m, from);
  }

  lemma SettledIsQuiet(e: Ep, slot: nat, kind: SendKind)
    requires QuietAt(e, slot) && (kind.OfData? ==> e.user.writeQueue != [])
    ensures var e' := SentAndSettled(e, slot, kind); QuietAt(e', slot) && IdAt(e', slot) == IdAt(e, slot)
  {
    hide Settled;
  }

  lemma SendingId(e: Ep, slot: nat, kind: SendKind)
    requires QuietAt(e, slot) && (kind.OfData? ==> e.user.writeQueue != [])
    ensures var e' := Sending(e, slot, kind, false); Occupied(e'.links, slot) && IdAt(e', slot) == IdAt(e, slot)
  {
  }

  // ------------------------------------------------------------------------------ the same for a resend

  /** The oldest queued packet carries its identity as its number, as all packets do that are not counted in 32 bits. */
  predicate CanRetry(e: Ep, slot: nat) {
    && QuietAt(e, slot) && CanResend(e.tx) && StatusOf(e.tx, e.tx.resend[0]).sentLink != IdAt(e, slot)
    && e.tx.next == e.tx.created && e.tx.packets[e.tx.resend[0] - Base(e.tx)].num == e.tx.resend[0]
  }

  function OldestQueued(tx: Tx): ReliableMsg
    requires CanResend(tx)
  {
    StatusOf(tx, tx.resend[0]).msg
  }

  /** The endpoint once the oldest queued packet was handed to the sink of a quiet link. */
  function Resending(e: Ep, slot: nat, payload: bool): Ep
    requires CanRetry(e, slot)
  {
    var m, l := OldestQueued(e.tx), IdAt(e, slot);
    e.(tx := TxResend(e.tx, slot, l, FlushesAlways(m)), links := e.links[slot := Some(Busy(l, payload, e.tx.resend[0], Size(m)))])
  }

  /** The packets once it was acknowledged. */
  function Resettled(tx: Tx, slot: nat, l: LinkId): Tx
    requires CanResend(tx)
  {
    TxAck(Unbounded, TxResend(tx, slot, l, FlushesAlways(OldestQueued(tx))), slot, tx.resend[0])
  }

  lemma ResendOverQuiet(e: Ep, slot: nat)
    requires CanRetry(e, slot)
    ensures CanResendOver(e, slot) && Resend(e, slot, false) == Resending(e, slot, OldestQueued(e.tx).Data?)
  {
    hide TxResend, FlushesAlways;
    assert NewLink(IdAt(e, slot), false, 1).txed + [e.tx.resend[0]] == [e.tx.resend[0]];
  }

  lemma RetryPayloadGoes(e: Ep, slot: nat, payload: bool)
    requires CanRetry(e, slot)
    ensures var e1 := Resending(e, slot, payload);
            && Occupied(e1.links, slot) && IdAt(e1, slot) == IdAt(e, slot)
            && TouchEnabled(e1, slot, PayloadGone) && ApplyTouch(e1, slot, PayloadGone) == Resending(e, slot, false)
  {
    hide TxResend, FlushesAlways;
    var m := OldestQueued(e.tx);
    assert Resending(e, slot, payload).links[slot := Some(Busy(IdAt(e, slot), false, e.tx.resend[0], Size(m)))]
        == Resending(e, slot, false).links;
  }

  lemma ReturnedStatus(tx: Tx, slot: nat, l: LinkId, flush: bool)
    requires CanResend(tx) && tx.next == tx.created
    ensures var tx1, u, m := TxResend(tx, slot, l, flush), tx.resend[0], OldestQueued(tx);
            && AckIndex(Unbounded, tx1, u) == Some(u - Base(tx)) && tx1.resend == tx.resend[1..]
            && Base(tx1) == Base(tx) && tx1.created == tx.created && |tx1.packets| == |tx.packets|
            && tx1.packets[u - Base(tx)].status == Sent(slot, l, m, false, true)
            && tx1.packets[u - Base(tx)].uid == tx.packets[u - Base(tx)].uid
  {
  }

  lemma {:induction false} WithoutIsShorter(s: seq<nat>, x: nat)
    ensures |Without(s, x)| <= |s|
  {
    if s != [] {
      WithoutIsShorter(s[1..], x);
    }
  }

  /** The packet is settled and no longer queued. */
  lemma ResettledIsStale(tx: Tx, slot: nat, l: LinkId)
    requires CanResend(tx) && tx.next == tx.created
    ensures !Current(Resettled(tx, slot, l), l, tx.resend[0]) && |Resettled(tx, slot, l).resend| < |tx.resend|
    ensures AckedOn(Unbounded, TxResend(tx, slot, l, FlushesAlways(OldestQueued(tx))), slot, tx.resend[0]) == Size(OldestQueued(tx))
  {
    var u := tx.resend[0];
    var tx1 := TxResend(tx, slot, l, FlushesAlways(OldestQueued(tx)));
    ReturnedStatus(tx, slot, l, FlushesAlways(OldestQueued(tx)));
    hide TxResend, AckIndex, OldestQueued;
    var tx2 := TxMark(Unbounded, tx1, slot, u);
    assert tx2.packets[u - Base(tx)].status.Received?;
    WithoutIsShorter(tx1.resend, tx1.packets[u - Base(tx)].uid);
  }

  lemma RetryAcked(e: Ep, slot: nat)
    requires CanRetry(e, slot)
    ensures HandleAck(Unbounded, Resending(e, slot, false), slot, e.tx.resend[0])
            == e.(tx := Resettled(e.tx, slot, IdAt(e, slot)))
  {
    var u, l := e.tx.resend[0], IdAt(e, slot);
    var tx' := Resettled(e.tx, slot, l);
    ResettledIsStale(e.tx, slot, l);
    hide TxResend, TxAck, AckIndex, Current, AckedOn, OldestQueued, CanResend, FlushesAlways;
    assert DropStale([u], tx', l) == [] by {
      assert DropStale([], tx', l) == [];
    }
    assert e.links[slot := Some(NewLink(l, false, 1))] == e.links;
    assert Resending(e, slot, false).links[slot := Some(NewLink(l, false, 1))] == e.links;
  }

  lemma SendAgainIs(s: Sys, slot: nat)
    requires s.haltA.None? && CanResendOver(s.a.ep, slot)
    ensures Enabled(Unbounded, s, SendAgain(slot, false))
    ensures var tx := s.a.ep.tx;
            Act(Unbounded, s, SendAgain(slot, false))
            == s.(a := s.a.(ep := Resend(s.a.ep, slot, false)),
                  ab := Push(s.ab, IdAt(s.a.ep, slot), Reliable(tx.packets[tx.resend[0] - Base(tx)].num, OldestQueued(tx))))
  {
    hide Resend, Push;
  }

  lemma RetryIsPlain(e: Ep, slot: nat)
    requires CanRetry(e, slot)
    ensures CanResend(e.tx) && QuietAt(e, slot) && e.tx.packets[e.tx.resend[0] - Base(e.tx)].num == e.tx.resend[0]
    ensures var e' := e.(tx := Resettled(e.tx, slot, IdAt(e, slot))); QuietAt(e', slot) && IdAt(e', slot) == IdAt(e, slot)
  {
    hide Resettled;
  }

  /** The oldest queued packet over a quiet link, from resending to its acknowledgement. */
  lemma Retry(s: Sys, slot: nat, from: Origin := Anew) returns (s': Sys)
    requires CanRetry(s.a.ep, slot) && Quiet(s, slot)
    requires HandleReceived(Unbounded, s.b.ep, slot, s.a.ep.tx.resend[0], OldestQueued(s.a.ep.tx)).Ok?
    requires Reachable(s, from)
    ensures var e := s.a.ep;
            && s' == s.(a := s'.a, b := s'.b, ab := s'.ab, ba := s'.ba)
            && s'.a == s.a.(ep := e.(tx := Resettled(e.tx, slot, IdAt(e, slot))))
            && s'.b == s.b.(ep := GotAndAcked(s.b.ep, slot, e.tx.resend[0], OldestQueued(e.tx)))
    ensures Quiet(s', slot) && IdAt(s'.a.ep, slot) == IdAt(s.a.ep, slot)
    ensures SameElse(s.ab, s'.ab, IdAt(s.a.ep, slot)) && SameElse(s.ba, s'.ba, IdAt(s.a.ep, slot))
    ensures Reachable(s', from)
  {
    var e := s.a.ep;
    var u, m, l := e.tx.resend[0], OldestQueued(e.tx), IdAt(e, slot);
    ResendOverQuiet(e, slot);
    RetryPayloadGoes(e, slot, m.Data?);
    RetryAcked(e, slot);
    RetryIsPlain(e, slot);
    Pushed(s.ab, l, Reliable(u, m));
    hide Reachable, HandleReceived, HandleAck, Resending, Resend, Resettled, CanResendOver, CanRetry, QuietAt, GotAndAcked,
         OldestQueued, Enabled, Act, TouchEnabled, ApplyTouch, Push, PipeOf, SameElse, CanResend;
    SendAgainIs(s, slot);
    var s1 := Do(s, SendAgain(slot, false), from);
    TouchIs(s1, slot, PayloadGone);
    var s2 := Do(s1, TouchLink(slot, PayloadGone), from);
    s' := Arrives(s2, slot, l, u, m, from);
    SameElseTwice(s.ab, s2.ab, s'.ab, l);
  }

  lemma SameElseTwice(p: Pipes, q: Pipes, r: Pipes, l: LinkId)
    requires SameElse(p, q, l) && SameElse(q, r, l)
    ensures SameElse(p, r, l)
  {
  }

  // ----------------------------------------------------------- exchanges that leave nothing behind

  /** Everything that `x` numbered below `n` was received and acknowledged. */
  predicate Level(x: Ep, y: Ep, n: nat) {
    x.tx == Tx(n, n, [], 0, 0, []) && y.rx.next == n && y.rx.buffer == []
  }

  /** The receiver of a message has the space and the credit that it is about. */
  predicate Welcome(e: Ep, m: ReliableMsg) {
    e.rx.size + Size(m) <= e.cfg.recvBuffer && (m.Consumed? ==> m.count <= e.unconsumed)
  }

  function Taken(e: Ep, n: nat, m: ReliableMsg): Ep {
    OnArrival(e, m).(rx := Rx(n + 1, [], e.rx.consumable + (if Ordered(m) then [Arrival(n, m)] else []),
                              e.rx.size + Size(m), e.rx.consumed))
  }

  function Gone(e: Ep, n: nat, kind: SendKind): Ep
    requires kind.OfData? ==> e.user.writeQueue != []
  {
    AfterSend(e, kind).(tx := Tx(n + 1, n + 1, [], 0, 0, []), unconsumed := e.unconsumed + Size(MessageOf(e, kind)))
  }

  lemma SettledIsEmpty(n: nat, slot: nat, l: LinkId, m: ReliableMsg)
    ensures Settled(Tx(n, n, [], 0, 0, []), slot, l, m) == Tx(n + 1, n + 1, [], 0, 0, [])
  {
    SentAlone(n, slot, l, m);
    MarkedAlone(n, slot, l, m);
    SwipedAlone(n, Size(m));
    hide TxSend, TxMark, TxSwipe, Size;
  }

  lemma SentAlone(n: nat, slot: nat, l: LinkId, m: ReliableMsg)
    ensures TxSend(Unbounded, Tx(n, n, [], 0, 0, []), slot, l, m, FlushesAlways(m))
            == Tx(n + 1, n + 1, [Packet(n, n, Sent(slot, l, m, false, false))], Size(m), 0, [])
  {
    hide FlushesAlways, Size;
  }

  lemma MarkedAlone(n: nat, slot: nat, l: LinkId, m: ReliableMsg)
    ensures TxMark(Unbounded, Tx(n + 1, n + 1, [Packet(n, n, Sent(slot, l, m, false, false))], Size(m), 0, []), slot, n)
            == Tx(n + 1, n + 1, [Packet(n, n, Received(Size(m)))], 0, Size(m), [])
  {
    hide Size;
    assert Without([], n) == [];
  }

  lemma SwipedAlone(n: nat, size: nat)
    ensures TxSwipe(Tx(n + 1, n + 1, [Packet(n, n, Received(size))], 0, size, [])) == Tx(n + 1, n + 1, [], 0, 0, [])
  {
    var ps := [Packet(n, n, Received(size))];
    assert LeadingReceived(ps) == 1 by { assert LeadingReceived([]) == 0; }
    assert ps[..1] == ps && ps[1..] == [];
    assert Total(Unconsumable, ps) == size by { assert Total(Unconsumable, []) == 0; }
  }

  lemma SettledIsGone(x: Ep, y: Ep, slot: nat, n: nat, kind: SendKind)
    requires QuietAt(x, slot) && Level(x, y, n) && (kind.OfData? ==> x.user.writeQueue != [])
    ensures SentAndSettled(x, slot, kind) == Gone(x, n, kind) && SeqAvail(Unbounded, x.tx)
  {
    SettledIsEmpty(n, slot, IdAt(x, slot), MessageOf(x, kind));
    hide Settled, MessageOf;
  }

  lemma StoredIsForwarded(rx: Rx, n: nat, m: ReliableMsg)
    requires rx.next == n && rx.buffer == []
    ensures Place(Unbounded, rx, n) == Fresh(0)
    ensures Forward(Unbounded, RxStore(rx, 0, Arrival(n, m)))
            == Rx(n + 1, [], rx.consumable + (if Ordered(m) then [Arrival(n, m)] else []), rx.size + Size(m), rx.consumed)
  {
    hide LeadingFull, Deliverable, Ordered, Size;
    OneIsDeliverable(Arrival(n, m));
    assert RxStore(rx, 0, Arrival(n, m)).buffer == [Some(Arrival(n, m))];
  }

  lemma OneIsDeliverable(a: Arrival)
    ensures LeadingFull([Some(a)]) == 1 && [Some(a)][..1] == [Some(a)] && [Some(a)][1..] == []
    ensures Deliverable([Some(a)]) == if Ordered(a.msg) then [a] else []
  {
    assert LeadingFull([]) == 0 && Deliverable([]) == [];
  }

  lemma GotOverQuiet(e: Ep, slot: nat, n: nat, m: ReliableMsg)
    requires QuietAt(e, slot) && e.rx.next == n && e.rx.buffer == [] && Welcome(e, m)
    ensures HandleReceived(Unbounded, e, slot, n, m).Ok? && GotAndAcked(e, slot, n, m) == Taken(e, n, m)
  {
    StoredIsForwarded(e.rx, n, m);
    hide Place, Forward, RxStore;
  }

  /** A message from `a`, sent, received and acknowledged. */
  lemma Exchange(s: Sys, slot: nat, n: nat, kind: SendKind, from: Origin := Anew) returns (s': Sys)
    requires Due(Unbounded, s.a.ep, kind)
    requires Quiet(s, slot) && Level(s.a.ep, s.b.ep, n) && Welcome(s.b.ep, MessageOf(s.a.ep, kind))
    requires Reachable(s, from)
    ensures var m := MessageOf(s.a.ep, kind);
            && s' == s.(a := s'.a, b := s'.b, ab := s'.ab, ba := s'.ba)
            && s'.a == Node(Gone(s.a.ep, n, kind), s.a.hist.(log := s.a.hist.log + [m]))
            && s'.b == s.b.(ep := Taken(s.b.ep, n, m))
    ensures Quiet(s', slot) && IdAt(s'.a.ep, slot) == IdAt(s.a.ep, slot)
    ensures SameElse(s.ab, s'.ab, IdAt(s.a.ep, slot)) && SameElse(s.ba, s'.ba, IdAt(s.a.ep, slot))
    ensures Reachable(s', from)
  {
    assert kind.OfData? ==> s.a.ep.user.writeQueue != [];
    hide Reachable, HandleReceived, QuietAt, MessageOf, Taken, Gone, Due, Welcome, GotAndAcked, SentAndSettled, SeqAvail;
    GotOverQuiet(s.b.ep, slot, n, MessageOf(s.a.ep, kind));
    SettledIsGone(s.a.ep, s.b.ep, slot, n, kind);
    s' := ThereAndBack(s, slot, kind, from);
  }

  lemma MirrorIsQuiet(s: Sys, slot: nat)
    ensures Quiet(Swap(s), slot) == Quiet(s, slot) && Swap(Swap(s)) == s
    ensures Quiet(s, slot) ==> Occupied(s.a.ep.links, slot) && Occupied(s.b.ep.links, slot)
                               && IdAt(s.a.ep, slot) == IdAt(s.b.ep, slot)
  {
  }

  /** A message from `b`, sent, received and acknowledged. */
  lemma ExchangeB(s: Sys, slot: nat, n: nat, kind: SendKind, from: Origin := Anew) returns (s': Sys)
    requires Due(Unbounded, s.b.ep, kind)
    requires Quiet(s, slot) && Level(s.b.ep, s.a.ep, n) && Welcome(s.a.ep, MessageOf(s.b.ep, kind))
    requires Reachable(s, from)
    ensures var m := MessageOf(s.b.ep, kind);
            && s' == s.(a := s'.a, b := s'.b, ab := s'.ab, ba := s'.ba)
            && s'.b == Node(Gone(s.b.ep, n, kind), s.b.hist.(log := s.b.hist.log + [m]))
            && s'.a == s.a.(ep := Taken(s.a.ep, n, m))
    ensures Quiet(s', slot) && IdAt(s'.a.ep, slot) == IdAt(s.a.ep, slot)
    ensures SameElse(s.ab, s'.ab, IdAt(s.a.ep, slot)) && SameElse(s.ba, s'.ba, IdAt(s.a.ep, slot))
    ensures Reachable(s', from)
  {
    hide Reachable, Quiet, MessageOf, Gone, Taken, Due, Welcome;
    MirrorIsQuiet(s, slot);
    ReachMirror(s, from);
    var t := Exchange(Swap(s), slot, n, kind, Mirror(from));
    ReachMirror(t, Mirror(from));
    MirrorIsQuiet(t, slot);
    s' := Swap(t);
  }

  // --------------------------------------------------------------------------- a fresh connection

  /** Two fresh links at each side, and nothing else has happened. */
  lemma Connected(ca: Cfg, cb: Cfg, gated: bool) returns (s: Sys)
    requires Matching(ca, cb)
    ensures s.gated == gated && Quiet(s, 0) && Quiet(s, 1) && s.ab == map[] && s.ba == map[]
    ensures var links := [Some(NewLink(0, false, 1)), Some(NewLink(1, false, 1))];
            && s.a == Node(Initial(ca).(links := links), InitialNode(ca).hist.(added := {0, 1}))
            && s.b == Node(Initial(cb).(links := links), InitialNode(cb).hist.(added := {0, 1}))
    ensures Reachable(s)
  {
    var s0 := StartOf(ca, cb, gated);
    assert Start(s0);
    assert IsRun(Unbounded, [s0]) && [s0][|[s0]| - 1] == s0;
    assert Reachable(s0);
    hide Reachable, Start, IsRun;
    s := WithLinks(s0);
    ReachMirror(s);
    s := WithLinks(Swap(s));
    ReachMirror(s);
    s := Swap(s);
  }

  lemma WithLinks(s: Sys) returns (s': Sys)
    requires s.haltA.None? && s.a == InitialNode(s.a.ep.cfg)
    requires Reachable(s)
    ensures s' == s.(a := Node(s.a.ep.(links := [Some(NewLink(0, false, 1)), Some(NewLink(1, false, 1))]),
                               s.a.hist.(added := {0, 1})))
    ensures Reachable(s')
  {
    hide Reachable;
    var s1 := Do(s, Add(0, false, 1));
    assert s1.a.ep.links == [Some(NewLink(0, false, 1))];
    s' := Do(s1, Add(1, false, 1));
    assert FreeSlot(s1.a.ep.links) == 1 by { assert FreeSlot([]) == 0; }
    assert s1.a.hist.added + {1} == {0, 1};
  }

  // ----------------------------------------------------------------------- data and its credit

  /** All data sent by `a` was received and consumed; `c` bytes of credit have not been returned. */
  ghost predicate Metered(s: Sys, slot: nat, n: nat, c: nat) {
    && Quiet(s, slot) && Level(s.a.ep, s.b.ep, n) && Matching(s.a.ep.cfg, s.b.ep.cfg)
    && s.b.ep.rx == Rx(n, [], [], 0, c) && s.a.ep.unconsumed == c
    && s.a.ep.user.writeOpen && s.a.ep.user.writeQueue == []
  }

  /** What `a` can send at a time. */
  predicate Fits(cfg: Cfg, d: Bytes) {
    |d| <= MaxSendSize(cfg.remoteRecvBuffer) && |d| <= cfg.sendBuffer
  }

  lemma HasRoom(e: Ep, n: nat, c: nat, d: Bytes)
    requires e.tx == Tx(n, n, [], 0, 0, []) && e.unconsumed == c <= e.cfg.remoteRecvBuffer / 10 && e.cfg.remoteRecvBuffer > 0
    requires e.user.writeOpen && Fits(e.cfg, d)
    ensures var e' := e.(user := e.user.(writeQueue := [d])); Due(Unbounded, e', OfData) && MessageOf(e', OfData) == Data(d)
    ensures |d| <= e.cfg.remoteRecvBuffer
  {
  }

  lemma AcceptIs(s: Sys, d: Bytes)
    requires s.haltA.None? && s.a.ep.user.writeOpen && s.a.ep.user.writeQueue == []
    requires |d| <= MaxSendSize(s.a.ep.cfg.remoteRecvBuffer)
    ensures Enabled(Unbounded, s, Accept(d))
    ensures Act(Unbounded, s, Accept(d))
            == s.(a := Accepted(s.a, d))
  {
    assert [] + [d] == [d];
  }

  /** The sender of data, with `c` bytes of credit taken. */
  function DataGone(x: Node, n: nat, c: nat, d: Bytes): Node {
    Node(x.ep.(tx := Tx(n + 1, n + 1, [], 0, 0, []), unconsumed := c + |d|),
         x.hist.(accepted := x.hist.accepted + [d], log := x.hist.log + [Data(d)]))
  }

  function Accepted(x: Node, d: Bytes): Node {
    Node(x.ep.(user := x.ep.user.(writeQueue := [d])), x.hist.(accepted := x.hist.accepted + [d]))
  }

  lemma DataGoes(x: Node, n: nat, c: nat, d: Bytes)
    requires x.ep.user.writeQueue == [] && x.ep.unconsumed == c
    ensures var y := Accepted(x, d);
            Node(Gone(y.ep, n, OfData), y.hist.(log := y.hist.log + [Data(d)])) == DataGone(x, n, c, d)
  {
    assert [d][1..] == [];
  }

  /** Data is sent and received. */
  lemma Transfer(s: Sys, slot: nat, n: nat, c: nat, d: Bytes, from: Origin := Anew) returns (s': Sys)
    requires Metered(s, slot, n, c) && c <= s.a.ep.cfg.remoteRecvBuffer / 10 && Fits(s.a.ep.cfg, d)
    requires Reachable(s, from)
    ensures s' == s.(a := DataGone(s.a, n, c, d), b := s'.b, ab := s'.ab, ba := s'.ba)
    ensures s'.b == s.b.(ep := s.b.ep.(rx := Rx(n + 1, [], [Arrival(n, Data(d))], |d|, c)))
    ensures Quiet(s', slot) && IdAt(s'.a.ep, slot) == IdAt(s.a.ep, slot)
    ensures SameElse(s.ab, s'.ab, IdAt(s.a.ep, slot)) && SameElse(s.ba, s'.ba, IdAt(s.a.ep, slot))
    ensures Reachable(s', from)
  {
    HasRoom(s.a.ep, n, c, d);
    AcceptIs(s, d);
    hide Reachable, Enabled, Act, Due, MessageOf, QuietAt, Gone;
    var s1 := Do(s, Accept(d), from);
    DataGoes(s.a, n, c, d);
    hide Accepted;
    s' := Exchange(s1, slot, n, OfData, from);
    assert [] + [Arrival(n, Data(d))] == [Arrival(n, Data(d))];
  }

  lemma ConsumeIs(s: Sys, n: nat, c: nat, d: Bytes)
    requires n > 0 && s.haltA.None? && s.a.ep.rx == Rx(n, [], [Arrival(n - 1, Data(d))], |d|, c)
    ensures Enabled(Unbounded, s, ConsumeNext)
    ensures Act(Unbounded, s, ConsumeNext) == s.(a := Node(s.a.ep.(rx := Rx(n, [], [], 0, c + |d|)), ConsumeHist(s.a)))
  {
  }

  /** Consuming leaves the links alone. */
  lemma TakenIsQuiet(s: Sys, s': Sys, slot: nat)
    requires s' == s.(b := s'.b) && s'.b.ep == s.b.ep.(rx := s'.b.ep.rx, user := s'.b.ep.user)
    ensures Quiet(s', slot) == Quiet(s, slot)
  {
  }

  /** Data is sent, received and consumed. */
  lemma Deliver(s: Sys, slot: nat, n: nat, c: nat, d: Bytes, from: Origin := Anew) returns (s': Sys)
    requires Metered(s, slot, n, c) && c <= s.a.ep.cfg.remoteRecvBuffer / 10 && Fits(s.a.ep.cfg, d)
    requires Reachable(s, from)
    ensures s' == s.(a := DataGone(s.a, n, c, d), b := s'.b, ab := s'.ab, ba := s'.ba)
    ensures s'.b.ep == s.b.ep.(rx := Rx(n + 1, [], [], 0, c + |d|))
    ensures s'.b.hist.consumed == s.b.hist.consumed + [Data(d)]
    ensures Metered(s', slot, n + 1, c + |d|) && IdAt(s'.a.ep, slot) == IdAt(s.a.ep, slot)
    ensures SameElse(s.ab, s'.ab, IdAt(s.a.ep, slot)) && SameElse(s.ba, s'.ba, IdAt(s.a.ep, slot))
    ensures Reachable(s', from)
  {
    hide Reachable, Enabled, Act, Fits;
    var s1 := Transfer(s, slot, n, c, d, from);
    ConsumeIs(Swap(s1), n + 1, c, d);
    s' := DoB(s1, ConsumeNext, from);
  }

  /** `b` returns the credit. */
  lemma Return(s: Sys, slot: nat, n: nat, j: nat, c: nat, from: Origin := Anew) returns (s': Sys)
    requires Metered(s, slot, n, c) && Level(s.b.ep, s.a.ep, j) && 0 < c < MODULUS && ConsumeAckRequired(s.b.ep)
    requires s.a.ep.rx.size <= s.a.ep.cfg.recvBuffer
    requires Reachable(s, from)
    ensures s' == s.(a := s'.a, b := s'.b, ab := s'.ab, ba := s'.ba)
    ensures s'.a == s.a.(ep := s.a.ep.(unconsumed := 0, rx := s.a.ep.rx.(next := j + 1)))
    ensures s'.b == Node(s.b.ep.(tx := Tx(j + 1, j + 1, [], 0, 0, []), rx := Rx(n, [], [], 0, 0)),
                         s.b.hist.(log := s.b.hist.log + [Consumed(c)]))
    ensures Metered(s', slot, n, 0) && Level(s'.b.ep, s'.a.ep, j + 1)
    ensures Reachable(s', from)
  {
    hide Reachable, QuietAt;
    s' := ExchangeB(s, slot, j, OfConsumed, from);
    assert s.a.ep.rx.consumable + [] == s.a.ep.rx.consumable;
  }

  /** `b` consumes single bytes until it has to return credit. */
  lemma {:induction false} TopUp(s: Sys, slot: nat, n: nat, c: nat, goal: nat, from: Origin := Anew) returns (s': Sys, n': nat)
    requires Metered(s, slot, n, c) && c <= goal <= s.a.ep.cfg.remoteRecvBuffer / 10 + 1
    requires Reachable(s, from)
    ensures s' == s.(a := s'.a, b := s'.b, ab := s'.ab, ba := s'.ba)
    ensures s'.a.ep == s.a.ep.(tx := s'.a.ep.tx, unconsumed := goal) && s'.b.ep == s.b.ep.(rx := s'.b.ep.rx)
    ensures Metered(s', slot, n', goal)
    ensures Reachable(s', from)
    decreases goal - c
  {
    if c == goal {
      s', n' := s, n;
    } else {
      assert Fits(s.a.ep.cfg, [0]);
      hide Reachable, Quiet, Fits;
      var s1 := Deliver(s, slot, n, c, [0], from);
      s', n' := TopUp(s1, slot, n + 1, c + 1, goal, from);
    }
  }
}
