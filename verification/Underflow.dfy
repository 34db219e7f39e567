/** Control messages do not wait for a free number: while one message is held up on a link, they run ahead of the
    receiver until it refuses one and ends the connection. */
module Underflow {
  import opened Numbering
  import opened Protocol
  import opened System
  import opened Runs
  import opened Guarantees
  import opened Scenarios

  // ------------------------------------------------------------------- the state of the flood

  /** Packets that no acknowledgement can remove: the oldest one is out on a link. */
  predicate Piled(tx: Tx, k: nat) {
    tx.created == tx.next == |tx.packets| == k + 1 && tx.packets[0].status.Sent?
  }

  /** The receiver waits for number 0 and has numbers up to `k` at most. */
  predicate Waiting(rx: Rx, k: nat) {
    rx.next == 0 && |rx.buffer| <= k + 1 && (rx.buffer != [] ==> rx.buffer[0].None?)
  }

  /** `b` has sent `k` messages after number 0, which is held up; all data of `a` was consumed and its credit returned. */
  ghost predicate Stuck(s: Sys, n: nat, k: nat) {
    && Metered(s, 1, n, 0) && !s.gated && s.b.ep.user.readOpen
    && Piled(s.b.ep.tx, k) && Waiting(s.a.ep.rx, k)
  }

  // ---------------------------------------------------------------------------- one more number

  lemma SettledIsPiled(tx: Tx, l: LinkId, k: nat, count: nat)
    requires Piled(tx, k)
    ensures Piled(Settled(tx, 1, l, Consumed(count)), k + 1)
  {
    var sent := TxSend(Unbounded, tx, 1, l, Consumed(count), false);
    var marked := TxMark(Unbounded, sent, 1, tx.next);
    assert AckIndex(Unbounded, sent, tx.next) == Some(k + 1);
    assert marked.packets[0] == tx.packets[0];
    assert LeadingReceived(marked.packets) == 0;
    assert marked.packets[0..] == marked.packets;
  }

  lemma NextIsFresh(rx: Rx, k: nat, m: ReliableMsg)
    requires Waiting(rx, k)
    ensures Place(Unbounded, rx, k + 1) == if k + 1 <= USABLE_INTERVAL then Fresh(k + 1) else Refused
    ensures Waiting(Forward(Unbounded, RxStore(rx, k + 1, Arrival(k + 1, m))), k + 1)
  {
    var stored := RxStore(rx, k + 1, Arrival(k + 1, m));
    assert stored.buffer[0].None?;
    assert LeadingFull(stored.buffer) == 0;
    assert stored.buffer[0..] == stored.buffer;
  }

  /** A number within the interval is kept for later, and the credit it returns is noted at once. */
  lemma CreditArrives(e: Ep, k: nat, count: nat)
    requires QuietAt(e, 1) && Waiting(e.rx, k) && k < USABLE_INTERVAL && e.unconsumed == count
    ensures HandleReceived(Unbounded, e, 1, k + 1, Consumed(count)).Ok?
    ensures var e' := GotAndAcked(e, 1, k + 1, Consumed(count));
            e' == e.(unconsumed := 0, rx := e'.rx) && Waiting(e'.rx, k + 1)
  {
    hide Place, Forward, RxStore, Waiting, NewLink;
    NextIsFresh(e.rx, k, Consumed(count));
    assert Without([], 1) == [];
  }

  /** The next number is refused. */
  lemma CreditRefused(e: Ep, count: nat)
    requires QuietAt(e, 1) && Waiting(e.rx, USABLE_INTERVAL)
    ensures HandleReceived(Unbounded, e, 1, USABLE_INTERVAL + 1, Consumed(count)) == Err(SequenceUnderflow)
  {
    NextIsFresh(e.rx, USABLE_INTERVAL, Consumed(count));
    hide Place, Forward, RxStore, Waiting;
  }

  /** `b` has consumed so much that it has to return credit. */
  lemma Owing(s: Sys, n: nat, k: nat) returns (s': Sys, n': nat, c: nat)
    requires Stuck(s, n, k)
    requires Reachable(s)
    ensures s'.gated == s.gated && s'.a.ep.cfg == s.a.ep.cfg && s'.b.ep.cfg == s.b.ep.cfg
    ensures Metered(s', 1, n', c) && Due(Unbounded, s'.b.ep, OfConsumed) && MessageOf(s'.b.ep, OfConsumed) == Consumed(c)
    ensures s'.b.ep.tx == s.b.ep.tx && s'.a.ep.rx == s.a.ep.rx && s'.b.ep.user == s.b.ep.user
    ensures Reachable(s')
  {
    c := s.a.ep.cfg.remoteRecvBuffer / 10 + 1;
    hide Reachable, Quiet, Piled, Waiting;
    s', n' := TopUp(s, 1, n, 0, c);
  }

  /** `b` returns credit with the next number. */
  lemma OneMore(s: Sys, n: nat, k: nat) returns (s': Sys, n': nat)
    requires Stuck(s, n, k) && k < USABLE_INTERVAL
    requires Reachable(s)
    ensures s'.a.ep.cfg == s.a.ep.cfg && s'.b.ep.cfg == s.b.ep.cfg && Stuck(s', n', k + 1)
    ensures Reachable(s')
  {
    var s1, m, c := Owing(s, n, k);
    n' := m;
    CreditArrives(s1.a.ep, k, c);
    SettledIsPiled(s1.b.ep.tx, IdAt(s1.b.ep, 1), k, c);
    assert s1.b.ep.tx.next == s1.b.ep.tx.created == k + 1 && |s1.b.ep.tx.packets| == k + 1;
    hide Reachable, Waiting, Piled, Settled, HandleReceived, GotAndAcked, Due, QuietAt;
    ReachMirror(s1);
    MirrorIsQuiet(s1, 1);
    var t := ThereAndBack(Swap(s1), 1, OfConsumed);
    ReachMirror(t);
    MirrorIsQuiet(t, 1);
    s' := Swap(t);
    assert s'.b.ep == s1.b.ep.(tx := Settled(s1.b.ep.tx, 1, IdAt(s1.b.ep, 1), Consumed(c)), rx := s1.b.ep.rx.(consumed := 0));
  }

  /** ... and the first number outside the interval ends the connection. */
  lemma LastStraw(s: Sys, n: nat) returns (s': Sys)
    requires Stuck(s, n, USABLE_INTERVAL)
    requires Reachable(s)
    ensures s'.a.ep.cfg == s.a.ep.cfg && s'.b.ep.cfg == s.b.ep.cfg
    ensures !s'.gated && s'.haltA == Some(SequenceUnderflow)
    ensures Reachable(s')
  {
    var s1, m, c := Owing(s, n, USABLE_INTERVAL);
    CreditRefused(s1.a.ep, c);
    assert s1.b.ep.tx.next == USABLE_INTERVAL + 1;
    SendingKeepsCfg(s1.b.ep, 1, OfConsumed);
    hide Reachable, Waiting, Piled, HandleReceived, Due, Sending, Enabled, Act;
    ReachMirror(s1);
    MirrorIsQuiet(s1, 1);
    var t := SendIt(Swap(s1), 1, OfConsumed);
    ReachMirror(t);
    var s2 := Swap(t);
    ReceiveIs(s2, 1);
    s' := Do(s2, Receive(1));
  }

  lemma SendingKeepsCfg(e: Ep, slot: nat, kind: SendKind)
    requires QuietAt(e, slot) && (kind.OfData? ==> e.user.writeQueue != [])
    ensures Sending(e, slot, kind, false).cfg == e.cfg
  {
  }

  lemma {:induction false} Flood(s: Sys, n: nat, k: nat) returns (s': Sys)
    requires Stuck(s, n, k) && k <= USABLE_INTERVAL
    requires Reachable(s)
    ensures s'.a.ep.cfg == s.a.ep.cfg && s'.b.ep.cfg == s.b.ep.cfg
    ensures !s'.gated && s'.haltA == Some(SequenceUnderflow)
    ensures Reachable(s')
    decreases USABLE_INTERVAL - k
  {
    hide Reachable, Stuck;
    if k == USABLE_INTERVAL {
      s' := LastStraw(s, n);
    } else {
      var s1, n1 := OneMore(s, n, k);
      s' := Flood(s1, n1, k + 1);
    }
  }

  /** `a` has one byte to send. */
  lemma ReadyToSend(ca: Cfg, cb: Cfg) returns (s: Sys)
    requires Matching(ca, cb)
    ensures s.a.ep.cfg == ca && s.b.ep.cfg == cb && !s.gated && Quiet(s, 0) && Quiet(s, 1)
    ensures IdAt(s.a.ep, 0) != IdAt(s.a.ep, 1)
    ensures Due(Unbounded, s.a.ep, OfData) && s.a.ep.tx == InitialTx() && s.a.ep.rx == InitialRx() && s.a.ep.user.readOpen
    ensures s.b.ep.tx == InitialTx() && s.b.ep.rx == InitialRx() && s.b.ep.user == InitialUser() && s.b.ep.unconsumed == 0
    ensures Reachable(s)
  {
    var s0 := Connected(ca, cb, false);
    HasRoom(s0.a.ep, 0, 0, [0]);
    AcceptIs(s0, [0]);
    hide Reachable, Due, Enabled, Act;
    s := Do(s0, Accept([0]));
  }

  /** Number 0 of `b` is one byte on a link that hangs. */
  lemma HeldUp(ca: Cfg, cb: Cfg) returns (s: Sys)
    requires Matching(ca, cb)
    ensures s.a.ep.cfg == ca && s.b.ep.cfg == cb && Stuck(s, 0, 0)
    ensures Reachable(s)
  {
    var s1 := ReadyToSend(cb, ca);
    FirstIsPiled(s1.a.ep);
    OtherStaysQuiet(s1.a.ep);
    assert s1.a.ep.user.writeQueue != [];
    hide Reachable, Due, MessageOf, Sending, Piled, QuietAt;
    var s2 := SendIt(s1, 0, OfData);
    ReachMirror(s2);
    s := Swap(s2);
  }

  lemma FirstIsPiled(e: Ep)
    requires e.tx == InitialTx() && QuietAt(e, 0) && e.user.writeQueue != []
    ensures Piled(Sending(e, 0, OfData, false).tx, 0)
    ensures Sending(e, 0, OfData, false).rx == e.rx && Sending(e, 0, OfData, false).cfg == e.cfg
    ensures Sending(e, 0, OfData, false).user.readOpen == e.user.readOpen
  {
  }

  lemma OtherStaysQuiet(e: Ep)
    requires QuietAt(e, 0) && QuietAt(e, 1) && e.user.writeQueue != []
    ensures QuietAt(Sending(e, 0, OfData, false), 1) && IdAt(Sending(e, 0, OfData, false), 1) == IdAt(e, 1)
  {
  }

  /** Whatever the configurations: when only data waits for a free number, an honest peer can be driven to refuse an
      honest message. */
  lemma UngatedRunHalts(ca: Cfg, cb: Cfg) returns (s: Sys)
    requires Matching(ca, cb)
    ensures s.a.ep.cfg == ca && s.b.ep.cfg == cb && !s.gated
    ensures s.haltA == Some(SequenceUnderflow)
    ensures Reachable(s)
  {
    hide Reachable, Stuck;
    s := HeldUp(ca, cb);
    s := Flood(s, 0, 0);
  }

  /** No endpoint ever ends with a protocol error, in any run of given configurations, exactly when control messages
      wait for a free number, too. */
  lemma NeverHaltsIffGated(ca: Cfg, cb: Cfg, gated: bool)
    requires Matching(ca, cb)
    ensures (forall s: Sys | Reachable(s) && s.a.ep.cfg == ca && s.b.ep.cfg == cb && s.gated == gated ::
               s.haltA.None? && s.haltB.None?)
            <==> gated
  {
    if gated {
      forall s: Sys | Reachable(s) && s.gated
        ensures s.haltA.None? && s.haltB.None?
      {
        hide IsRun;
        var run: seq<Sys> :| IsRun(Unbounded, run) && run[|run| - 1] == s;
        RunStarts(run);
        GatedRunsNeverHalt(run, |run| - 1);
      }
    } else {
      hide Reachable;
      var s := UngatedRunHalts(ca, cb);
      assert s.haltA.Some?;
    }
  }
}
