/** Age matters: with 32-bit numbers, a copy that is held back on a link while just over a quarter of the number space is
    numbered ends the connection, although all messages wait for a free number. */
module AgedCopy {
  import opened Numbering
  import opened Protocol
  import opened System
  import opened Runs
  import opened Scenarios
  import opened Wraparound
  import opened WrappedRuns
  import opened Ages

  const TWO_LINKS := [Some(NewLink(0, false, 1)), Some(NewLink(1, false, 1))]

  ghost predicate NoFrames(p: Pipes) {
    forall l: LinkId :: PipeOf(p, l) == []
  }

  // ----------------------------------------------------------- up to the last number before the wrap

  /** `n` empty messages were sent, received, acknowledged and consumed, and nothing else has happened. */
  ghost predicate InStep(s: Sys, n: nat) {
    && Metered(s, 1, n, 0) && s.gated && s.a.ep.links == TWO_LINKS && s.b.ep.links == TWO_LINKS
    && NoFrames(s.ab) && NoFrames(s.ba) && s.a.ep.rx.next == 0 && s.b.ep.tx == Tx(0, 0, [], 0, 0, [])
  }

  lemma InStepIsFrom(s: Sys, n: nat)
    requires InStep(s, n)
    ensures From(s, n, 0)
  {
    EmptyIsFrom(s.ab, n, 0);
    EmptyIsFrom(s.ba, 0, n);
  }

  lemma EmptyIsFrom(p: Pipes, n: nat, k: nat)
    requires NoFrames(p)
    ensures PipesFrom(p, n, k)
  {
    assert forall l | l in p :: PipeOf(p, l) == [];
  }

  lemma InStepIsNear(s: Sys, n: nat, s': Sys, n': nat)
    requires InStep(s, n) && n' <= n + ONE_QUARTER && s'.a.ep.tx.next <= n' + 1 && s'.b.ep.rx.next == n'
    requires s'.a.ep.rx.next == 0 && s'.b.ep.tx.next == 0
    ensures Near(s', n, 0)
  {
  }

  lemma StillEmpty(p: Pipes, p': Pipes, l: LinkId)
    requires NoFrames(p) && SameElse(p, p', l) && PipeOf(p', l) == []
    ensures NoFrames(p')
  {
    forall x: LinkId ensures PipeOf(p', x) == [] {
      assert x == l || PipeOf(p', x) == PipeOf(p, x);
    }
  }

  lemma StepOn(s: Sys, n: nat) returns (s': Sys)
    requires InStep(s, n) && Clean(s)
    ensures InStep(s', n + 1) && s'.a.ep.cfg == s.a.ep.cfg && s'.b.ep.cfg == s.b.ep.cfg
    ensures Clean(s')
  {
    Stay(s);
    InStepIsFrom(s, n);
    assert Fits(s.a.ep.cfg, []);
    hide Reachable, QuietAt, Fits, From, Near, Clean, NoFrames, SameElse;
    s' := Deliver(s, 1, n, 0, [], At(s));
    StillEmpty(s.ab, s'.ab, 1);
    StillEmpty(s.ba, s'.ba, 1);
    InStepIsNear(s, n, s', n + 1);
    CleanOn(s, s', n, 0);
  }

  /** A fresh connection is clean as long as little has happened. */
  lemma YoungIsClean(s: Sys)
    requires Reachable(s) && s.gated && Near(s, 0, 0)
    ensures Clean(s)
  {
    hide Step, Start, From, Near, SysInv, Distinguishable, Reachable;
    var run := RunTo(s);
    RunStarts(run);
    StartHolds(run[0]);
    StartIsFrom(run[0]);
    assert Path(run, At(run[0]));
    PathFrom(run, run[0], |run| - 1, 0, 0);
    forall i | 0 <= i < |run| ensures Distinguishable(run[i]) {
      YoungPath(run, run[0], s, i, 0, 0);
    }
    assert CleanRun(run) && run[|run| - 1] == s;
  }

  lemma StartIsFrom(s: Sys)
    requires Start(s)
    ensures From(s, 0, 0)
  {
  }

  lemma {:induction false} March(ca: Cfg, cb: Cfg, n: nat) returns (s: Sys)
    requires Matching(ca, cb)
    ensures s.a.ep.cfg == ca && s.b.ep.cfg == cb && InStep(s, n)
    ensures Clean(s)
  {
    hide Clean, Reachable;
    if n == 0 {
      s := Connected(ca, cb, true);
      YoungIsClean(s);
    } else {
      hide InStep;
      s := March(ca, cb, n - 1);
      s := StepOn(s, n - 1);
    }
  }

  // -------------------------------------------------------------------------- a copy is held back

  /** The last number before the wrap. */
  const LAST: nat := MODULUS - 1

  /** As before, but a copy of number `LAST` is still on link 0. */
  ghost predicate Behind(s: Sys, n: nat) {
    && Metered(s, 1, n, 0) && s.gated && s.b.ep.links == TWO_LINKS && IdAt(s.a.ep, 1) == 1
    && PipeOf(s.ab, 0) == [Reliable(LAST, Data([]))]
    && s.a.ep.rx.next == 0 && s.b.ep.tx == Tx(0, 0, [], 0, 0, [])
  }

  lemma UnconfirmIs(s: Sys, slot: nat)
    requires s.haltA.None? && Occupied(s.a.ep.links, slot)
    ensures Enabled(Unbounded, s, Unconfirm(slot))
    ensures Act(Unbounded, s, Unconfirm(slot)) == s.(a := s.a.(ep := UnconfirmLink(s.a.ep, slot)))
  {
    hide UnconfirmLink;
  }

  lemma SentThenUnconfirmed(e: Ep, n: nat)
    requires e.links == TWO_LINKS && e.idle == [] && e.tx == Tx(n, n, [], 0, 0, []) && e.user.writeQueue == [[]]
    ensures QuietAt(e, 0)
    ensures var e1 := UnconfirmLink(Sending(e, 0, OfData, false), 0);
            && e1.tx == Tx(n + 1, n + 1, [Packet(n, n, ResendQueued(Data([]), 0))], 0, 0, [n])
            && |e1.links| == 2 && e1.links[1] == TWO_LINKS[1] && e1.idle == []
            && e1 == e.(tx := e1.tx, links := e1.links, user := e.user.(writeQueue := []))
  {
    var sent := Sending(e, 0, OfData, false);
    SentAlone(n, 0, 0, Data([]));
    hide TxSend, FlushesAlways;
    assert sent.tx.packets == [Packet(n, n, Sent(0, 0, Data([]), false, false))];
    assert Requeue(sent.tx.packets, 0) == [Packet(n, n, ResendQueued(Data([]), 0))];
    assert Queued([Packet(n, n, ResendQueued(Data([]), 0))]) == [n] by { assert Queued([]) == []; }
    assert Total(OnSlot(0), sent.tx.packets) == 0 by { assert Total(OnSlot(0), []) == 0; }
    assert Without([], 0) == [];
    assert e.user.writeQueue[1..] == [];
  }

  lemma RetriedIsEmpty(n: nat)
    ensures var tx := Tx(n + 1, n + 1, [Packet(n, n, ResendQueued(Data([]), 0))], 0, 0, [n]);
            CanResend(tx) && OldestQueued(tx) == Data([]) && Resettled(tx, 1, 1) == Tx(n + 1, n + 1, [], 0, 0, [])
  {
    var tx := Tx(n + 1, n + 1, [Packet(n, n, ResendQueued(Data([]), 0))], 0, 0, [n]);
    var out := Tx(n + 1, n + 1, [Packet(n, n, Sent(1, 1, Data([]), false, true))], 0, 0, []);
    assert TxResend(tx, 1, 1, false) == out;
    assert Without([], n) == [];
    assert TxMark(Unbounded, out, 1, n) == Tx(n + 1, n + 1, [Packet(n, n, Received(0))], 0, 0, []);
    SwipedAlone(n, 0);
  }

  /** Number `LAST` is on link 0, which was unconfirmed; it is queued to be resent. */
  ghost predicate HeldBack(s: Sys) {
    && s.gated && Matching(s.a.ep.cfg, s.b.ep.cfg) && Quiet(s, 1) && IdAt(s.a.ep, 1) == 1
    && s.a.ep.tx == Tx(LAST + 1, LAST + 1, [Packet(LAST, LAST, ResendQueued(Data([]), 0))], 0, 0, [LAST])
    && s.a.ep.unconsumed == 0 && s.a.ep.user.writeOpen && s.a.ep.user.writeQueue == [] && s.a.ep.rx.next == 0
    && s.b.ep.links == TWO_LINKS && s.b.ep.rx == Rx(LAST, [], [], 0, 0) && s.b.ep.tx == Tx(0, 0, [], 0, 0, [])
    && PipeOf(s.ab, 0) == [Reliable(LAST, Data([]))]
  }

  /** `a` has an empty message to send. */
  lemma QueueOne(s: Sys, n: nat, from: Origin) returns (s': Sys)
    requires Metered(s, 1, n, 0)
    requires Reachable(s, from)
    ensures s' == s.(a := Accepted(s.a, []))
    ensures Due(Unbounded, s'.a.ep, OfData) && MessageOf(s'.a.ep, OfData) == Data([])
    ensures Reachable(s', from)
  {
    HasRoom(s.a.ep, n, 0, []);
    AcceptIs(s, []);
    hide Reachable, Enabled, Act, Due;
    s' := Do(s, Accept([]), from);
  }

  /** It goes out on link 0, which is then unconfirmed. */
  lemma HoldBack(s: Sys) returns (s': Sys)
    requires InStep(s, LAST) && Reachable(s)
    ensures HeldBack(s') && s'.a.ep.cfg == s.a.ep.cfg && s'.b.ep.cfg == s.b.ep.cfg
    ensures Reachable(s', At(s))
  {
    Stay(s);
    var s1 := QueueOne(s, LAST, At(s));
    SentThenUnconfirmed(s1.a.ep, LAST);
    LevelHasNumbers(s1.a.ep.tx, LAST);
    hide Reachable, Enabled, Act, Sending, Due, MessageOf, UnconfirmLink, SeqAvail;
    var s2 := SendIt(s1, 0, OfData, At(s));
    SendingId(s1.a.ep, 0, OfData);
    UnconfirmIs(s2, 0);
    s' := Do(s2, Unconfirm(0), At(s));
    assert PipeOf(s'.ab, 1) == PipeOf(s.ab, 1) == [];
  }

  lemma LevelHasNumbers(tx: Tx, n: nat)
    requires tx == Tx(n, n, [], 0, 0, [])
    ensures SeqAvail(Unbounded, tx)
  {
  }

  lemma RetryIsPossible(s: Sys)
    requires HeldBack(s)
    ensures CanRetry(s.a.ep, 1) && OldestQueued(s.a.ep.tx) == Data([])
    ensures HandleReceived(Unbounded, s.b.ep, 1, LAST, Data([])).Ok?
    ensures GotAndAcked(s.b.ep, 1, LAST, Data([])) == s.b.ep.(rx := Rx(LAST + 1, [], [Arrival(LAST, Data([]))], 0, 0))
  {
    hide HandleReceived, Resettled;
    RetriedIsEmpty(LAST);
    LastIsWelcome(s.b.ep);
  }

  lemma LastIsWelcome(e: Ep)
    requires e.links == TWO_LINKS && e.idle == [] && e.rx == Rx(LAST, [], [], 0, 0)
    ensures HandleReceived(Unbounded, e, 1, LAST, Data([])).Ok?
    ensures GotAndAcked(e, 1, LAST, Data([])) == e.(rx := Rx(LAST + 1, [], [Arrival(LAST, Data([]))], 0, 0))
  {
    hide HandleReceived, GotAndAcked;
    GotOverQuiet(e, 1, LAST, Data([]));
    assert [] + [Arrival(LAST, Data([]))] == [Arrival(LAST, Data([]))];
  }

  /** It goes out again, on link 1, and is consumed. */
  lemma Overtake(s: Sys, from: Origin) returns (s': Sys)
    requires HeldBack(s) && Reachable(s, from)
    ensures Behind(s', LAST + 1) && s'.a.ep.cfg == s.a.ep.cfg && s'.b.ep.cfg == s.b.ep.cfg
    ensures Reachable(s', from)
  {
    RetriedIsEmpty(LAST);
    hide Reachable, Enabled, Act, HandleReceived, GotAndAcked, CanRetry, CanResend, OldestQueued, Resettled, QuietAt;
    RetryIsPossible(s);
    var s1 := Retry(s, 1, from);
    ConsumeIs(Swap(s1), LAST + 1, 0, []);
    s' := DoB(s1, ConsumeNext, from);
    TakenIsQuiet(s1, s', 1);
  }

  /** More empty messages go by. */
  lemma {:induction false} GoBy(s: Sys, n: nat, goal: nat, from: Origin) returns (s': Sys)
    requires Behind(s, n) && n <= goal && Reachable(s, from)
    ensures Behind(s', goal) && s'.a.ep.cfg == s.a.ep.cfg && s'.b.ep.cfg == s.b.ep.cfg
    ensures Reachable(s', from)
    decreases goal - n
  {
    if n == goal {
      s' := s;
    } else {
      assert Fits(s.a.ep.cfg, []);
      hide Reachable, QuietAt, Fits;
      var s1 := Deliver(s, 1, n, 0, [], from);
      s' := GoBy(s1, n + 1, goal, from);
    }
  }

  // ------------------------------------------------------------------------------ and it arrives

  /** One more message is on its way, number `MODULUS + ONE_QUARTER - 1`. */
  ghost predicate LastOut(s: Sys) {
    && s.gated && s.haltB.None? && s.b.ep.links == TWO_LINKS && s.b.ep.idle == []
    && s.a.ep.tx.next == LAST + ONE_QUARTER + 1 && s.a.ep.rx.next == 0 && s.b.ep.tx.next == 0
    && s.b.ep.rx == Rx(LAST + ONE_QUARTER, [], [], 0, 0)
    && PipeOf(s.ab, 0) == [Reliable(LAST, Data([]))]
    && PipeOf(s.ab, 1) == [Reliable(LAST + ONE_QUARTER, Data([]))]
  }

  lemma SendLast(s: Sys, from: Origin) returns (s': Sys)
    requires Behind(s, LAST + ONE_QUARTER) && Reachable(s, from)
    ensures LastOut(s') && s'.a.ep.cfg == s.a.ep.cfg && s'.b.ep.cfg == s.b.ep.cfg
    ensures Reachable(s', from)
  {
    var s1 := QueueOne(s, LAST + ONE_QUARTER, from);
    LevelHasNumbers(s1.a.ep.tx, LAST + ONE_QUARTER);
    hide Reachable, Due, MessageOf, SeqAvail;
    s' := SendIt(s1, 1, OfData, from);
    SentCounts(s1.a.ep, LAST + ONE_QUARTER);
  }

  lemma SentCounts(e: Ep, n: nat)
    requires QuietAt(e, 1) && e.tx == Tx(n, n, [], 0, 0, []) && e.user.writeQueue != []
    ensures var e' := Sending(e, 1, OfData, false); e'.tx.next == n + 1 && e'.rx == e.rx && e'.cfg == e.cfg
  {
  }

  /** A number of the next round has arrived; the copy is still on its link. */
  ghost predicate Overtaken(s: Sys) {
    && s.gated && s.haltB.None? && s.b.ep.rx.next == MODULUS + ONE_QUARTER
    && Occupied(s.b.ep.links, 0) && IdAt(s.b.ep, 0) == 0 && PipeOf(s.ab, 0) == [Reliable(LAST, Data([]))]
  }

  lemma TakeLast(s: Sys) returns (s': Sys)
    requires LastOut(s)
    ensures Overtaken(s') && s'.a.ep.cfg == s.a.ep.cfg && s'.b.ep.cfg == s.b.ep.cfg
    ensures Step(Unbounded, s, s')
  {
    hide HandleReceived, Enabled, Act, Pop, PipeOf;
    LastIsTaken(s.b.ep);
    Popped(s.ab, 1);
    ReceiveIs(Swap(s), 1);
    s' := Swap(Act(Unbounded, Swap(s), Receive(1)));
    assert StepAtA(Unbounded, Swap(s), Swap(s'));
  }

  lemma LastIsTaken(e: Ep)
    requires e.links == TWO_LINKS && e.idle == [] && e.rx == Rx(LAST + ONE_QUARTER, [], [], 0, 0)
    ensures var r := HandleReceived(Unbounded, e, 1, LAST + ONE_QUARTER, Data([]));
            && r.Ok? && r.value.rx.next == MODULUS + ONE_QUARTER && r.value.cfg == e.cfg
            && Occupied(r.value.links, 0) && IdAt(r.value, 0) == 0
  {
    var m, n := Data([]), LAST + ONE_QUARTER;
    hide HandleReceived, GotAndAcked;
    GotOverQuiet(e, 1, n, m);
    ReceivedOverQuiet(e, 1, n, m);
    GotCounts(e, n, m);
  }

  lemma GotCounts(e: Ep, n: nat, m: ReliableMsg)
    requires QuietAt(e, 1) && HandleReceived(Unbounded, e, 1, n, m).Ok? && GotAndAcked(e, 1, n, m) == Taken(e, n, m) && m.Data?
    ensures var e' := HandleReceived(Unbounded, e, 1, n, m).value; e'.rx.next == n + 1 && e'.cfg == e.cfg
  {
    hide HandleReceived;
    assert GotAndAcked(e, 1, n, m).rx == HandleReceived(Unbounded, e, 1, n, m).value.rx;
    assert GotAndAcked(e, 1, n, m).cfg == HandleReceived(Unbounded, e, 1, n, m).value.cfg;
  }

  lemma CopyIsRefused(e: Ep)
    requires e.rx.next == MODULUS + ONE_QUARTER && Occupied(e.links, 0)
    ensures Occupied(Narrow(e).links, 0) && IdAt(Narrow(e), 0) == IdAt(e, 0)
    ensures HandleReceived(Wrapping, Narrow(e), 0, LAST, Data([])) == Err(SequenceUnderflow)
  {
    assert Narrow(e).rx.next == ONE_QUARTER;
    assert !Less(Wrapping, LAST, ONE_QUARTER);
    assert Diff(Wrapping, LAST, ONE_QUARTER) == -1 - ONE_QUARTER;
  }

  lemma CopyHalts(s: Sys) returns (t: Sys)
    requires Overtaken(s)
    ensures t.gated && t.haltB == Some(SequenceUnderflow) && t.a.ep.cfg == s.a.ep.cfg && t.b.ep.cfg == s.b.ep.cfg
    ensures Step(Wrapping, NarrowSys(s), t)
  {
    CopyIsRefused(s.b.ep);
    PipeNarrows(s.ab, 0);
    NarrowFrameOf(s.b.ep);
    NarrowFrameOf(s.a.ep);
    hide Narrow, NarrowPipes, PipeOf, HandleReceived, Pop, LinkIds;
    var n := Swap(NarrowSys(s));
    assert PipeOf(n.ba, 0) == [Reliable(LAST, Data([]))];
    assert Enabled(Wrapping, n, Receive(0));
    var n' := ReceiveFrame(Wrapping, n, 0);
    assert n' == Act(Wrapping, n, Receive(0));
    t := Swap(n');
    assert StepAtA(Wrapping, n, Swap(t));
  }

  // ------------------------------------------------------------------------------------ the run

  lemma ActKeepsGate(num: Numbering, s: Sys, act: Action)
    requires Enabled(num, s, act)
    ensures Act(num, s, act).gated == s.gated
  {
    if act.Receive? {
      ReceiveKeepsGate(num, s, act.slot);
    }
    hide Enabled, ReceiveFrame;
  }

  lemma ReceiveKeepsGate(num: Numbering, s: Sys, slot: nat)
    requires Enabled(num, s, Receive(slot))
    ensures ReceiveFrame(num, s, slot).gated == s.gated
  {
    hide HandleAck, HandleReceived, Pop, LinkIds;
  }

  lemma StepKeepsGate(num: Numbering, s: Sys, s': Sys)
    requires Step(num, s, s')
    ensures s'.gated == s.gated
  {
    hide Enabled, Act;
    if StepAtA(num, s, s') {
      var act :| Enabled(num, s, act) && s' == Act(num, s, act);
      ActKeepsGate(num, s, act);
    } else {
      var act :| Enabled(num, Swap(s), act) && Swap(s') == Act(num, Swap(s), act);
      ActKeepsGate(num, Swap(s), act);
    }
  }

  lemma {:induction false} GateStays(run: seq<Sys>, i: nat)
    requires IsRun(Wrapping, run) && i < |run| && run[|run| - 1].gated
    ensures run[i].gated
    decreases |run| - i
  {
    hide Step, Start;
    if i < |run| - 1 {
      GateStays(run, i + 1);
      assert Step(Wrapping, run[i], run[i + 1]);
      StepKeepsGate(Wrapping, run[i], run[i + 1]);
    }
  }

  /** The state before the last two steps, with all numbers told apart until then. */
  lemma Approach(ca: Cfg, cb: Cfg) returns (s: Sys)
    requires Matching(ca, cb)
    ensures s.a.ep.cfg == ca && s.b.ep.cfg == cb && LastOut(s)
    ensures Clean(s)
  {
    hide Reachable, Clean, From, Near, Behind, HeldBack, LastOut;
    var s0 := March(ca, cb, LAST);
    CleanIsReached(s0);
    var s1 := HoldBack(s0);
    var s2 := Overtake(s1, At(s0));
    var s3 := GoBy(s2, LAST + 1, LAST + ONE_QUARTER, At(s0));
    s := SendLast(s3, At(s0));
    InStepIsFrom(s0, LAST);
    LastIsNear(s);
    GateIsOn(s0, LAST);
    CleanOn(s0, s, LAST, 0);
  }

  lemma GateIsOn(s: Sys, n: nat)
    requires InStep(s, n)
    ensures s.gated
  {
  }

  lemma LastIsNear(s: Sys)
    requires LastOut(s)
    ensures Near(s, LAST, 0)
  {
  }

  lemma CleanIsReached(s: Sys)
    requires Clean(s)
    ensures Reachable(s)
  {
    hide Distinguishable, IsRun;
    var run: seq<Sys> :| CleanRun(run) && run[|run| - 1] == s;
    assert Path(run, Anew);
  }

  /** The narrow image of a clean run, and of one more step, is a run. */
  lemma NarrowRun(s: Sys, s': Sys) returns (r: seq<Sys>)
    requires Clean(s) && Step(Unbounded, s, s')
    ensures IsRun(Wrapping, r) && |r| > 0 && r[|r| - 1] == NarrowSys(s')
  {
    hide Distinguishable, Step, Start, NarrowSys;
    var run: seq<Sys> :| CleanRun(run) && run[|run| - 1] == s;
    var w := run + [s'];
    forall i | 0 <= i < |w| - 1 ensures Step(Unbounded, w[i], w[i + 1]) {
      if i < |run| - 1 {
        assert Step(Unbounded, run[i], run[i + 1]);
      }
    }
    r := seq(|w|, i requires 0 <= i < |w| => NarrowSys(w[i]));
    RunWidens(w, r);
  }

  lemma RunOn(r: seq<Sys>, t: Sys) returns (r': seq<Sys>)
    requires IsRun(Wrapping, r) && Step(Wrapping, r[|r| - 1], t)
    ensures IsRun(Wrapping, r') && |r'| > 0 && r'[|r'| - 1] == t
  {
    hide Step, Start;
    r' := r + [t];
    forall i | 0 <= i < |r'| - 1 ensures Step(Wrapping, r'[i], r'[i + 1]) {
      if i < |r| - 1 {
        assert Step(Wrapping, r[i], r[i + 1]);
      }
    }
  }

  /** For every pair of configurations there is a run of two honest endpoints with 32-bit numbers in which all reliable
      messages wait for a free number and still an endpoint halts: the bound on the age of frames is needed. */
  lemma AgedCopyHalts(ca: Cfg, cb: Cfg) returns (r: seq<Sys>)
    requires Matching(ca, cb)
    ensures IsRun(Wrapping, r) && |r| > 0 && forall i | 0 <= i < |r| :: r[i].gated
    ensures var t := r[|r| - 1]; t.a.ep.cfg == ca && t.b.ep.cfg == cb && t.haltB == Some(SequenceUnderflow)
  {
    hide IsRun, Clean, LastOut, Overtaken, Step, NarrowSys;
    var s := Approach(ca, cb);
    var s' := TakeLast(s);
    r := NarrowRun(s, s');
    var t := CopyHalts(s');
    r := RunOn(r, t);
    forall i | 0 <= i < |r| ensures r[i].gated {
      GateStays(r, i);
    }
  }
}
