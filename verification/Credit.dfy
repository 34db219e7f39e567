/** Credit flow control across both endpoints and both directions. */
module Credit {
  import opened Numbering
  import opened Protocol
  import opened Invariants
  import opened Preservation
  import opened System
  import opened Truth

  /** What is counted: bytes of data, or bytes that `Consumed` messages give back. */
  datatype Kind = Payload | Returned

  function Worth(kind: Kind, m: ReliableMsg): nat {
    match kind
    case Payload => Size(m)
    case Returned => if m.Consumed? then m.count else 0
  }

  function Tail<T>(s: seq<T>): seq<T> {
    if s == [] then [] else s[1..]
  }

  /** The worth of the messages in `rest` that have not arrived, where `buffer`
      tells, from the first message of `rest` on, which ones have. */
  function Missing(kind: Kind, rest: seq<ReliableMsg>, buffer: seq<Option<Arrival>>): nat {
    if rest == [] then 0
    else (if buffer != [] && buffer[0].Some? then 0 else Worth(kind, rest[0])) + Missing(kind, rest[1..], Tail(buffer))
  }

  /** The part of the log that the receiver has not handed on yet. */
  function Rest(log: seq<ReliableMsg>, rx: Rx): seq<ReliableMsg> {
    if rx.next <= |log| then log[rx.next..] else []
  }

  function MissingAt(kind: Kind, log: seq<ReliableMsg>, rx: Rx): nat {
    Missing(kind, Rest(log, rx), rx.buffer)
  }

  /** Conservation: all credit taken by `x` is with bytes on the way to `y`, held by `y`, consumed
      by `y` and not yet returned, or being returned. */
  ghost predicate Conserved(x: Node, y: Node) {
    x.ep.unconsumed == MissingAt(Payload, x.hist.log, y.ep.rx) + y.ep.rx.size + y.ep.rx.consumed
                       + MissingAt(Returned, y.hist.log, x.ep.rx)
  }

  /** The credit taken never exceeds the peer's receive buffer. */
  ghost predicate Bounded(x: Node, y: Node) {
    && x.ep.cfg.remoteRecvBuffer == y.ep.cfg.recvBuffer < MODULUS
    && x.ep.unconsumed <= x.ep.cfg.remoteRecvBuffer
  }

  // ---------------------------------------------------------- arithmetic of missing worth

  lemma {:induction false} MissingAppend(kind: Kind, rest: seq<ReliableMsg>, m: ReliableMsg, buffer: seq<Option<Arrival>>)
    requires |buffer| <= |rest|
    ensures Missing(kind, rest + [m], buffer) == Missing(kind, rest, buffer) + Worth(kind, m)
  {
    if rest == [] {
      assert rest + [m] == [m];
    } else {
      MissingAppend(kind, rest[1..], m, Tail(buffer));
      assert (rest + [m])[1..] == rest[1..] + [m];
    }
  }

  /** The buffer holds message `i` of those that are awaited. */
  predicate Full(buffer: seq<Option<Arrival>>, i: int) {
    0 <= i < |buffer| && buffer[i].Some?
  }

  lemma TailFull(buffer: seq<Option<Arrival>>)
    ensures forall i: nat {:trigger Full(Tail(buffer), i)} :: Full(Tail(buffer), i) == Full(buffer, i + 1)
  {
  }

  /** A message that arrives alone takes its own worth off what is missing. */
  lemma {:induction false} MissingArrives(kind: Kind, rest: seq<ReliableMsg>, b: seq<Option<Arrival>>, c: seq<Option<Arrival>>, i: nat)
    requires i < |rest| && !Full(b, i) && Full(c, i)
    requires forall j: nat | j < |rest| && j != i :: Full(b, j) == Full(c, j)
    ensures Missing(kind, rest, b) == Missing(kind, rest, c) + Worth(kind, rest[i])
    decreases i
  {
    TailFull(b);
    TailFull(c);
    assert i == 0 || Full(b, 0) == Full(c, 0);
    assert Missing(kind, rest, b) == (if Full(b, 0) then 0 else Worth(kind, rest[0])) + Missing(kind, rest[1..], Tail(b));
    assert Missing(kind, rest, c) == (if Full(c, 0) then 0 else Worth(kind, rest[0])) + Missing(kind, rest[1..], Tail(c));
    hide Missing, Full, Tail, Worth;
    if i == 0 {
      MissingNones(kind, rest[1..], Tail(b), Tail(c));
    } else {
      MissingArrives(kind, rest[1..], Tail(b), Tail(c), i - 1);
    }
  }

  /** Absent entries and empty entries of the buffer count alike. */
  lemma {:induction false} MissingNones(kind: Kind, rest: seq<ReliableMsg>, b: seq<Option<Arrival>>, c: seq<Option<Arrival>>)
    requires forall i: nat | i < |rest| :: Full(b, i) == Full(c, i)
    ensures Missing(kind, rest, b) == Missing(kind, rest, c)
  {
    if rest != [] {
      assert Full(b, 0) == Full(c, 0);
      TailFull(b);
      TailFull(c);
      MissingNones(kind, rest[1..], Tail(b), Tail(c));
    }
  }

  lemma {:induction false} MissingForward(kind: Kind, rest: seq<ReliableMsg>, buffer: seq<Option<Arrival>>, k: nat)
    requires k <= |buffer| <= |rest|
    requires forall i | 0 <= i < k :: buffer[i].Some?
    ensures Missing(kind, rest[k..], buffer[k..]) == Missing(kind, rest, buffer)
  {
    if k == 0 {
      assert rest[0..] == rest && buffer[0..] == buffer;
    } else {
      MissingForward(kind, rest[1..], buffer[1..], k - 1);
      assert rest[1..][k - 1..] == rest[k..] && buffer[1..][k - 1..] == buffer[k..];
    }
  }

  // ------------------------------------------------------------------ effect of the steps

  lemma ForwardMissing(kind: Kind, log: seq<ReliableMsg>, rx: Rx)
    requires RxMatches(log, rx)
    ensures MissingAt(kind, log, Forward(Unbounded, rx)) == MissingAt(kind, log, rx)
  {
    var k := LeadingFull(rx.buffer);
    MissingForward(kind, log[rx.next..], rx.buffer, k);
    assert log[rx.next..][k..] == log[rx.next + k..];
  }

  /** A fresh arrival takes its own worth off what is missing, another copy takes nothing. */
  lemma ReceiveMissing(kind: Kind, log: seq<ReliableMsg>, rx: Rx, n: nat, msg: ReliableMsg)
    requires RxMatches(log, rx) && n < |log| && msg == log[n]
    ensures MissingAt(kind, log, rx) == MissingAt(kind, log, RxAfter(rx, n, msg))
                                        + (if Place(Unbounded, rx, n).Fresh? then Worth(kind, msg) else 0)
  {
    if Place(Unbounded, rx, n).Fresh? {
      var offset := Place(Unbounded, rx, n).offset;
      KnownIffGot(rx, n);
      var stored := RxStore(rx, offset, Arrival(n, msg));
      assert RxMatches(log, stored);
      MissingArrives(kind, log[rx.next..], rx.buffer, stored.buffer, offset);
      ForwardMissing(kind, log, stored);
    } else {
      ForwardMissing(kind, log, rx);
    }
  }

  lemma SendMissing(kind: Kind, log: seq<ReliableMsg>, rx: Rx, m: ReliableMsg)
    requires RxMatches(log, rx)
    ensures MissingAt(kind, log + [m], rx) == MissingAt(kind, log, rx) + Worth(kind, m)
  {
    MissingAppend(kind, log[rx.next..], m, rx.buffer);
    assert (log + [m])[rx.next..] == log[rx.next..] + [m];
  }

  /** Bytes held by the receiver after an arrival. */
  lemma ReceiveSize(rx: Rx, n: nat, msg: ReliableMsg)
    ensures var rx' := RxAfter(rx, n, msg);
            && rx'.consumed == rx.consumed
            && rx'.size == rx.size + (if Place(Unbounded, rx, n).Fresh? then Size(msg) else 0)
  {
  }

  /** Honest peers never overrun the receive buffer and never return more credit than was taken. */
  lemma NoFlowError(x: Node, y: Node, slot: nat, n: nat)
    requires Conserved(x, y) && Bounded(x, y) && Conserved(y, x)
    requires RxMatches(x.hist.log, y.ep.rx) && RxMatches(y.hist.log, x.ep.rx)
    requires RxOk(Unbounded, y.ep.rx) && RxOk(Unbounded, x.ep.rx)
    requires Occupied(y.ep.links, slot) && n < |x.hist.log|
    ensures HandleReceived(Unbounded, y.ep, slot, n, x.hist.log[n]).Err? ==>
              HandleReceived(Unbounded, y.ep, slot, n, x.hist.log[n]) == Err(SequenceUnderflow)
  {
    hide MissingAt, Place, RxAfter, RxMatches, RxOk, Forward, RxStore, OnArrival, QueueAck;
    var msg := x.hist.log[n];
    SizesAreBytes(x.ep.rx);
    SizesAreBytes(y.ep.rx);
    if Place(Unbounded, y.ep.rx, n).Fresh? {
      ReceiveMissing(Payload, x.hist.log, y.ep.rx, n, msg);
      ReceiveMissing(Returned, x.hist.log, y.ep.rx, n, msg);
    }
  }

  lemma SizesAreBytes(rx: Rx)
    requires RxOk(Unbounded, rx)
    ensures rx.size >= 0 && rx.consumed >= 0
  {
  }

  /** Receiving conserves the credit of both directions. */
  lemma ReceiveConserves(x: Node, y: Node, slot: nat, n: nat)
    requires Conserved(x, y) && Conserved(y, x) && RxMatches(x.hist.log, y.ep.rx)
    requires Occupied(y.ep.links, slot) && n < |x.hist.log|
    requires HandleReceived(Unbounded, y.ep, slot, n, x.hist.log[n]).Ok?
    ensures var y' := y.(ep := HandleReceived(Unbounded, y.ep, slot, n, x.hist.log[n]).value);
            && Conserved(x, y') && Conserved(y', x)
            && y'.ep.unconsumed <= y.ep.unconsumed && y'.ep.cfg == y.ep.cfg
  {
    var msg := x.hist.log[n];
    ReceiveMissing(Payload, x.hist.log, y.ep.rx, n, msg);
    ReceiveMissing(Returned, x.hist.log, y.ep.rx, n, msg);
    ReceiveSize(y.ep.rx, n, msg);
    RxAfterIsReceived(y.ep, slot, n, msg);
    OnArrivalFrame(QueueAck(y.ep, slot, n), msg);
  }

  /** A new message: data takes credit, `Consumed` starts returning exactly what was consumed. */
  lemma SendConserves(x: Node, y: Node, slot: nat, kind: SendKind, limitReached: bool)
    requires Conserved(x, y) && Conserved(y, x) && Bounded(x, y) && Bounded(y, x) && RxMatches(x.hist.log, y.ep.rx)
    requires RxOk(Unbounded, x.ep.rx) && RxOk(Unbounded, y.ep.rx)
    requires CanSend(Unbounded, x.ep, slot, kind)
    ensures var x' := x.(ep := Send(Unbounded, x.ep, slot, kind, limitReached),
                         hist := x.hist.(log := x.hist.log + [MessageOf(x.ep, kind)]));
            Conserved(x', y) && Conserved(y, x') && Bounded(x', y)
    ensures x.ep.rx.consumed < MODULUS
  {
    var m := MessageOf(x.ep, kind);
    SendMissing(Payload, x.hist.log, y.ep.rx, m);
    SendMissing(Returned, x.hist.log, y.ep.rx, m);
    SendCredit(x.ep, slot, kind, limitReached);
    assert x.ep.rx.consumed <= y.ep.unconsumed < MODULUS;
    hide Send, CanSend, RxMatches, RxOk, Missing, Rest;
  }

  /** Data takes its size of the free credit, and the consumed bytes are counted anew once they are returned. */
  lemma SendCredit(e: Ep, slot: nat, kind: SendKind, limitReached: bool)
    requires CanSend(Unbounded, e, slot, kind)
    ensures var e' := Send(Unbounded, e, slot, kind, limitReached);
            && e'.cfg == e.cfg && e'.unconsumed == e.unconsumed + Size(MessageOf(e, kind))
            && e'.rx == e.rx.(consumed := if kind.OfConsumed? then 0 else e.rx.consumed)
    ensures e.unconsumed <= e.cfg.remoteRecvBuffer ==> e.unconsumed + Size(MessageOf(e, kind)) <= e.cfg.remoteRecvBuffer
  {
    hide TxSend, SeqAvail, Without, Claimable;
  }

  /** Consuming turns held bytes into bytes to be returned. */
  lemma ConsumeConserves(x: Node, y: Node)
    requires Conserved(x, y) && y.ep.rx.consumable != []
    ensures Conserved(x, y.(ep := Consume(y.ep)))
  {
  }

  // ------------------------------------------------------------------------- no deadlock

  /** Everything sent has arrived, has been consumed, and no `Consumed` message is due or under way. */
  ghost predicate Drained(x: Node, y: Node) {
    && MissingAt(Payload, x.hist.log, y.ep.rx) == 0 && MissingAt(Returned, y.hist.log, x.ep.rx) == 0
    && y.ep.rx.size == 0 && !ConsumeAckRequired(y.ep)
    && x.ep.tx.unacked == 0
  }

  /** The credit window cannot deadlock: of the messages the sending half accepts, exactly those
      within the send buffer fit, whatever the size of the receive buffer. */
  lemma WindowNeverDeadlocks(x: Node, y: Node, data: Bytes)
    requires Conserved(x, y) && Bounded(x, y) && Drained(x, y) && y.ep.cfg.recvBuffer > 0
    requires |data| <= MaxSendSize(x.ep.cfg.remoteRecvBuffer)
    ensures |data| <= TxSpace(x.ep) <==> |data| <= x.ep.cfg.sendBuffer
  {
    assert x.ep.unconsumed <= x.ep.cfg.remoteRecvBuffer / 10;
  }
}
