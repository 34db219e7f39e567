/** The byte stream as the two users see it. */
module Stream {
  import opened Numbering
  import opened Protocol
  import opened System
  import opened Truth

  function Msgs(q: seq<Arrival>): seq<ReliableMsg> {
    seq(|q|, i requires 0 <= i < |q| => q[i].msg)
  }

  function OrderedPart(ms: seq<ReliableMsg>): seq<ReliableMsg> {
    if ms == [] then [] else (if Ordered(ms[0]) then [ms[0]] else []) + OrderedPart(ms[1..])
  }

  function DataPart(ms: seq<ReliableMsg>): seq<Bytes> {
    if ms == [] then [] else (if ms[0].Data? then [ms[0].bytes] else []) + DataPart(ms[1..])
  }

  function Upto(log: seq<ReliableMsg>, n: nat): seq<ReliableMsg> {
    if n <= |log| then log[..n] else log
  }

  /** Nothing ordered follows the end of the stream. */
  ghost predicate FinishLast(ms: seq<ReliableMsg>) {
    forall i, j | 0 <= i < j < |ms| && ms[i].SendFinish? :: !Ordered(ms[j])
  }

  /** What the user handed in and what was sent of it. */
  ghost predicate SenderOk(log: seq<ReliableMsg>, accepted: seq<Bytes>, user: User) {
    && FinishLast(log)
    && DataPart(log) <= accepted
    && (user.writeOpen ==> SendFinish !in log && !user.sendFinishSent && DataPart(log) + user.writeQueue == accepted)
    && (!user.writeOpen && !user.sendFinishSent ==> SendFinish !in log && DataPart(log) == accepted)
    && (SendFinish in log ==> DataPart(log) == accepted)
  }

  /** What was consumed and what of it reached the user. */
  ghost predicate ReaderOk(consumed: seq<ReliableMsg>, delivered: seq<Bytes>, ended: bool, readOpen: bool) {
    && delivered <= DataPart(consumed)
    && (readOpen ==> delivered == DataPart(consumed) && !ended && SendFinish !in consumed)
    && (ended ==> delivered == DataPart(consumed) && SendFinish in consumed)
  }

  /** Consumption follows the order of the log of the peer. */
  ghost predicate InOrder(log: seq<ReliableMsg>, consumed: seq<ReliableMsg>, rx: Rx) {
    consumed + Msgs(rx.consumable) == OrderedPart(Upto(log, rx.next))
  }

  // ------------------------------------------------------------------- the two filters

  lemma {:induction false} OrderedAppend(a: seq<ReliableMsg>, b: seq<ReliableMsg>)
    ensures OrderedPart(a + b) == OrderedPart(a) + OrderedPart(b)
  {
    if a == [] {
      assert a + b == b;
    } else {
      OrderedAppend(a[1..], b);
      assert (a + b)[1..] == a[1..] + b;
      var head := if Ordered(a[0]) then [a[0]] else [];
      assert OrderedPart(a + b) == head + (OrderedPart(a[1..]) + OrderedPart(b));
      assert OrderedPart(a) + OrderedPart(b) == (head + OrderedPart(a[1..])) + OrderedPart(b);
    }
  }

  lemma {:induction false} DataAppend(a: seq<ReliableMsg>, b: seq<ReliableMsg>)
    ensures DataPart(a + b) == DataPart(a) + DataPart(b)
  {
    if a == [] {
      assert a + b == b;
    } else {
      DataAppend(a[1..], b);
      assert (a + b)[1..] == a[1..] + b;
      var head := if a[0].Data? then [a[0].bytes] else [];
      assert DataPart(a + b) == head + (DataPart(a[1..]) + DataPart(b));
      assert DataPart(a) + DataPart(b) == (head + DataPart(a[1..])) + DataPart(b);
    }
  }

  lemma {:induction false} DataOfOrdered(ms: seq<ReliableMsg>)
    ensures DataPart(OrderedPart(ms)) == DataPart(ms)
  {
    if ms != [] {
      DataOfOrdered(ms[1..]);
      var head := if Ordered(ms[0]) then [ms[0]] else [];
      DataAppend(head, OrderedPart(ms[1..]));
      assert DataPart(head) == if ms[0].Data? then [ms[0].bytes] else [];
    }
  }

  /** In the ordered part, the end of the stream can only be the last message. */
  lemma {:induction false} FinishEndsOrdered(ms: seq<ReliableMsg>)
    requires FinishLast(ms)
    ensures forall i | 0 <= i < |OrderedPart(ms)| && OrderedPart(ms)[i].SendFinish? :: i == |OrderedPart(ms)| - 1
    ensures SendFinish in OrderedPart(ms) ==> SendFinish in ms
  {
    if ms != [] {
      assert forall i, j | 0 <= i < j < |ms[1..]| && ms[1..][i].SendFinish? ::
        ms[1..][i] == ms[i + 1] && ms[1..][j] == ms[j + 1];
      FinishEndsOrdered(ms[1..]);
      if ms[0].SendFinish? {
        NoneOrdered(ms[1..]);
      }
    }
  }

  lemma {:induction false} NoneOrdered(ms: seq<ReliableMsg>)
    requires forall i | 0 <= i < |ms| :: !Ordered(ms[i])
    ensures OrderedPart(ms) == [] && DataPart(ms) == []
  {
    if ms != [] {
      NoneOrdered(ms[1..]);
    }
  }

  lemma {:induction false} OrderedIn(ms: seq<ReliableMsg>, m: ReliableMsg)
    ensures m in OrderedPart(ms) ==> m in ms
  {
    if ms != [] {
      OrderedIn(ms[1..], m);
      assert forall x :: x in ms[1..] ==> x in ms;
    }
  }

  // ------------------------------------------------------------------ steps of the reader

  /** What `Forward` hands on is the ordered part of the log it passes. */
  lemma {:induction false} DeliverableIsOrdered(buffer: seq<Option<Arrival>>, ms: seq<ReliableMsg>)
    requires |buffer| == |ms| && forall i | 0 <= i < |buffer| :: buffer[i].Some? && buffer[i].value.msg == ms[i]
    ensures Msgs(Deliverable(buffer)) == OrderedPart(ms)
  {
    if buffer != [] {
      DeliverableIsOrdered(buffer[1..], ms[1..]);
      var head := if Ordered(ms[0]) then [buffer[0].value] else [];
      assert Deliverable(buffer) == head + Deliverable(buffer[1..]);
      assert Msgs(head) == if Ordered(ms[0]) then [ms[0]] else [];
      MsgsAppend(head, Deliverable(buffer[1..]));
      hide Msgs, Deliverable;
    }
  }

  lemma MsgsAppend(a: seq<Arrival>, b: seq<Arrival>)
    ensures Msgs(a + b) == Msgs(a) + Msgs(b)
  {
  }

  /** The part of the log that `Forward` passes is what the buffer holds of it. */
  lemma PassedMatches(log: seq<ReliableMsg>, rx: Rx, k: nat)
    requires RxMatches(log, rx) && k <= LeadingFull(rx.buffer)
    ensures Msgs(Deliverable(rx.buffer[..k])) == OrderedPart(log[rx.next..rx.next + k])
  {
    var front, passed := rx.buffer[..k], log[rx.next..rx.next + k];
    assert forall i | 0 <= i < k :: front[i].Some? && front[i].value.msg == passed[i];
    hide *;
    DeliverableIsOrdered(front, passed);
  }

  lemma UptoGrows(log: seq<ReliableMsg>, n: nat, k: nat)
    requires n + k <= |log|
    ensures OrderedPart(Upto(log, n + k)) == OrderedPart(Upto(log, n)) + OrderedPart(log[n..n + k])
  {
    assert Upto(log, n + k) == Upto(log, n) + log[n..n + k];
    hide *;
    OrderedAppend(Upto(log, n), log[n..n + k]);
  }

  lemma ForwardInOrder(log: seq<ReliableMsg>, consumed: seq<ReliableMsg>, rx: Rx)
    requires RxMatches(log, rx) && InOrder(log, consumed, rx)
    ensures InOrder(log, consumed, Forward(Unbounded, rx))
  {
    var k := LeadingFull(rx.buffer);
    var more := Deliverable(rx.buffer[..k]);
    assert Forward(Unbounded, rx).consumable == rx.consumable + more && Forward(Unbounded, rx).next == rx.next + k;
    hide Forward, LeadingFull, Deliverable, OrderedPart, Upto, Msgs;
    calc {
      consumed + Msgs(Forward(Unbounded, rx).consumable);
      { MsgsAppend(rx.consumable, more); }
      consumed + (Msgs(rx.consumable) + Msgs(more));
      (consumed + Msgs(rx.consumable)) + Msgs(more);
      { PassedMatches(log, rx, k); }
      OrderedPart(Upto(log, rx.next)) + OrderedPart(log[rx.next..rx.next + k]);
      { UptoGrows(log, rx.next, k); }
      OrderedPart(Upto(log, rx.next + k));
    }
  }

  lemma StoreMatches(log: seq<ReliableMsg>, rx: Rx, n: nat)
    requires RxMatches(log, rx) && n < |log| && Place(Unbounded, rx, n).Fresh?
    ensures var stored := RxStore(rx, Place(Unbounded, rx, n).offset, Arrival(n, log[n]));
            RxMatches(log, stored) && stored.next == rx.next && stored.consumable == rx.consumable
  {
    KnownIffGot(rx, n);
  }

  lemma ReceiveInOrder(log: seq<ReliableMsg>, consumed: seq<ReliableMsg>, rx: Rx, n: nat)
    requires InOrder(log, consumed, rx) && RxMatches(log, rx) && n < |log|
    ensures InOrder(log, consumed, RxAfter(rx, n, log[n]))
  {
    hide Place, RxStore, Forward, RxMatches, OrderedPart, Upto, Msgs;
    if Place(Unbounded, rx, n).Fresh? {
      StoreMatches(log, rx, n);
      ForwardInOrder(log, consumed, RxStore(rx, Place(Unbounded, rx, n).offset, Arrival(n, log[n])));
    } else {
      ForwardInOrder(log, consumed, rx);
    }
  }

  /** Once the end of the stream is consumed, nothing else is left to consume. */
  lemma NothingAfterFinish(log: seq<ReliableMsg>, consumed: seq<ReliableMsg>, rx: Rx)
    requires FinishLast(log) && InOrder(log, consumed, rx) && SendFinish in consumed
    ensures rx.consumable == []
  {
    var rest := Msgs(rx.consumable);
    FinishEndsOrdered(Upto(log, rx.next));
    var i :| 0 <= i < |consumed| && consumed[i] == SendFinish;
    assert (consumed + rest)[i] == SendFinish;
    assert i == |consumed + rest| - 1;
    assert |rest| == 0;
  }

  lemma ConsumeKeepsStream(log: seq<ReliableMsg>, y: Node)
    requires FinishLast(log) && InOrder(log, y.hist.consumed, y.ep.rx) && y.ep.rx.consumable != []
    requires ReaderOk(y.hist.consumed, y.hist.delivered, y.hist.ended, y.ep.user.readOpen)
    requires Ordered(y.ep.rx.consumable[0].msg)
    ensures var e', h' := Consume(y.ep), ConsumeHist(y);
            InOrder(log, h'.consumed, e'.rx) && ReaderOk(h'.consumed, h'.delivered, h'.ended, e'.user.readOpen)
  {
    var m := y.ep.rx.consumable[0].msg;
    var e', h' := Consume(y.ep), ConsumeHist(y);
    DataAppend(y.hist.consumed, [m]);
    assert Msgs(y.ep.rx.consumable) == [m] + Msgs(e'.rx.consumable);
    assert h'.consumed + Msgs(e'.rx.consumable) == y.hist.consumed + Msgs(y.ep.rx.consumable);
    if SendFinish in y.hist.consumed {
      NothingAfterFinish(log, y.hist.consumed, y.ep.rx);
      assert false;
    }
    assert h'.consumed[|y.hist.consumed|] == m;
  }

  // ------------------------------------------------------------------ steps of the sender

  lemma SendKeepsFinishLast(log: seq<ReliableMsg>, m: ReliableMsg)
    requires FinishLast(log) && (Ordered(m) ==> SendFinish !in log)
    ensures FinishLast(log + [m])
  {
    var log' := log + [m];
    forall i, j | 0 <= i < j < |log'| && log'[i].SendFinish?
      ensures !Ordered(log'[j])
    {
      assert log'[i] in log;
    }
  }

  lemma SendKeepsSender(log: seq<ReliableMsg>, accepted: seq<Bytes>, e: Ep, slot: nat, kind: SendKind, limitReached: bool)
    requires SenderOk(log, accepted, e.user) && CanSend(Unbounded, e, slot, kind)
    ensures SenderOk(log + [MessageOf(e, kind)], accepted, Send(Unbounded, e, slot, kind, limitReached).user)
  {
    hide DataPart, FinishLast, TxSend, Without, SeqAvail, TxSpace;
    var m := MessageOf(e, kind);
    var log' := log + [m];
    SendKeepsFinishLast(log, m);
    DataAppend(log, [m]);
    DataOfOne(m);
    assert forall x :: x in log' <==> x in log || x == m;
    if kind.OfData? {
      assert e.user.writeQueue == [m.bytes] + e.user.writeQueue[1..];
      assert DataPart(log') + e.user.writeQueue[1..] == DataPart(log) + e.user.writeQueue;
    } else {
      assert DataPart(log') == DataPart(log);
    }
  }

  lemma DataOfOne(m: ReliableMsg)
    ensures DataPart([m]) == if m.Data? then [m.bytes] else []
  {
  }

  lemma GrowKeepsOrder(log: seq<ReliableMsg>, consumed: seq<ReliableMsg>, rx: Rx, m: ReliableMsg)
    requires InOrder(log, consumed, rx) && rx.next <= |log|
    ensures InOrder(log + [m], consumed, rx)
  {
    assert (log + [m])[..rx.next] == log[..rx.next];
  }

  lemma AcceptKeepsSender(log: seq<ReliableMsg>, accepted: seq<Bytes>, user: User, data: Bytes)
    requires SenderOk(log, accepted, user) && user.writeOpen
    ensures SenderOk(log, accepted + [data], user.(writeQueue := user.writeQueue + [data]))
  {
    assert DataPart(log) + (user.writeQueue + [data]) == accepted + [data];
  }

  lemma WriteEndKeepsSender(log: seq<ReliableMsg>, accepted: seq<Bytes>, user: User)
    requires SenderOk(log, accepted, user) && user.writeOpen && user.writeQueue == []
    ensures SenderOk(log, accepted, user.(writeOpen := false))
  {
    assert DataPart(log) + [] == DataPart(log);
  }

  /** The effect of an arrival on the user halves: at most, writing comes to an end. */
  lemma ArrivalKeepsSender(log: seq<ReliableMsg>, accepted: seq<Bytes>, e: Ep, slot: nat, n: nat, msg: ReliableMsg)
    requires Occupied(e.links, slot) && HandleReceived(Unbounded, e, slot, n, msg).Ok?
    requires SenderOk(log, accepted, e.user)
    ensures SenderOk(log, accepted, HandleReceived(Unbounded, e, slot, n, msg).value.user)
    ensures HandleReceived(Unbounded, e, slot, n, msg).value.user.readOpen == e.user.readOpen
  {
  }

  // ---------------------------------------------------------------------------- results

  /** The data handed to the receiving user is a prefix of the data accepted from the sending user. */
  lemma DeliveredIsPrefix(x: Node, y: Node)
    requires SenderOk(x.hist.log, x.hist.accepted, x.ep.user)
    requires ReaderOk(y.hist.consumed, y.hist.delivered, y.hist.ended, y.ep.user.readOpen)
    requires InOrder(x.hist.log, y.hist.consumed, y.ep.rx) && RxMatches(x.hist.log, y.ep.rx)
    ensures y.hist.delivered <= DataPart(x.hist.log) <= x.hist.accepted
  {
    var n := y.ep.rx.next;
    var rest := Msgs(y.ep.rx.consumable);
    DataOfOrdered(x.hist.log[..n]);
    DataAppend(y.hist.consumed, rest);
    assert x.hist.log == x.hist.log[..n] + x.hist.log[n..];
    DataAppend(x.hist.log[..n], x.hist.log[n..]);
    assert DataPart(x.hist.log) == DataPart(y.hist.consumed) + DataPart(rest) + DataPart(x.hist.log[n..]);
    assert DataPart(y.hist.consumed) <= DataPart(x.hist.log);
  }

  /** A clean end of the stream is only reported once everything was delivered. */
  lemma EndedIsComplete(x: Node, y: Node)
    requires SenderOk(x.hist.log, x.hist.accepted, x.ep.user) && y.hist.ended
    requires ReaderOk(y.hist.consumed, y.hist.delivered, y.hist.ended, y.ep.user.readOpen)
    requires InOrder(x.hist.log, y.hist.consumed, y.ep.rx) && RxMatches(x.hist.log, y.ep.rx)
    ensures y.hist.delivered == x.hist.accepted
  {
    var log, n := x.hist.log, y.ep.rx.next;
    NothingAfterFinish(log, y.hist.consumed, y.ep.rx);
    assert y.hist.consumed + Msgs(y.ep.rx.consumable) == y.hist.consumed;
    OrderedIn(log[..n], SendFinish);
    var i :| 0 <= i < n && log[i] == SendFinish;
    NoneOrdered(log[n..]);
    assert log == log[..n] + log[n..];
    DataAppend(log[..n], log[n..]);
    DataOfOrdered(log[..n]);
    assert SendFinish in log;
  }
}
