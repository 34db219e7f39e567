/** Two endpoints with 32-bit numbers, and frames that carry 32-bit numbers: the whole system does what the one whose
    numbers never wrap does. */
module WrappedRuns {
  import opened Numbering
  import opened Protocol
  import opened Invariants
  import opened System
  import opened Runs
  import opened Guarantees
  import opened Wraparound
  import opened Sorting
  import opened WrappedConsistency

  // ------------------------------------------------------------- forgetting the high bits

  function NarrowFrame(f: Frame): Frame {
    f.(num := f.num % MODULUS)
  }

  function NarrowPipe(p: seq<Frame>): seq<Frame> {
    seq(|p|, i requires 0 <= i < |p| => NarrowFrame(p[i]))
  }

  function NarrowPipes(p: Pipes): Pipes {
    map l | l in p :: NarrowPipe(p[l])
  }

  function NarrowNode(x: Node): Node {
    Node(Narrow(x.ep), x.hist)
  }

  function NarrowSys(s: Sys): Sys {
    s.(a := NarrowNode(s.a), b := NarrowNode(s.b), ab := NarrowPipes(s.ab), ba := NarrowPipes(s.ba))
  }

  lemma PipeNarrows(p: Pipes, l: LinkId)
    ensures PipeOf(NarrowPipes(p), l) == NarrowPipe(PipeOf(p, l))
  {
  }

  lemma PushNarrows(p: Pipes, l: LinkId, f: Frame)
    ensures NarrowPipes(Push(p, l, f)) == Push(NarrowPipes(p), l, NarrowFrame(f))
  {
    PipeNarrows(p, l);
    assert NarrowPipe(PipeOf(p, l) + [f]) == NarrowPipe(PipeOf(p, l)) + [NarrowFrame(f)];
  }

  lemma PopNarrows(p: Pipes, l: LinkId)
    requires PipeOf(p, l) != []
    ensures PipeOf(NarrowPipes(p), l) != [] && NarrowPipes(Pop(p, l)) == Pop(NarrowPipes(p), l)
    ensures PipeOf(NarrowPipes(p), l)[0] == NarrowFrame(PipeOf(p, l)[0])
  {
    PipeNarrows(p, l);
    assert NarrowPipe(PipeOf(p, l)[1..]) == NarrowPipe(PipeOf(p, l))[1..];
  }

  lemma CutNarrows(p: Pipes, l: LinkId, keep: nat)
    ensures NarrowPipes(Cut(p, l, keep)) == Cut(NarrowPipes(p), l, keep)
  {
    PipeNarrows(p, l);
    var k := Min(keep, |PipeOf(p, l)|);
    assert NarrowPipe(PipeOf(p, l)[..k]) == NarrowPipe(PipeOf(p, l))[..k];
  }

  lemma SwapNarrows(s: Sys)
    ensures NarrowSys(Swap(s)) == Swap(NarrowSys(s)) && Swap(Swap(s)) == s
  {
  }

  // ------------------------------------------------------------------ operations of an endpoint

  /** No more packets are kept than can be put in order by their 32-bit numbers. */
  predicate Spacious(tx: Tx) {
    tx.packets != [] ==> 0 <= tx.next - tx.packets[0].num <= ONE_QUARTER
  }

  /** What narrowing leaves alone. */
  lemma NarrowFrameOf(e: Ep)
    ensures var n := Narrow(e);
            && n.cfg == e.cfg && n.user == e.user && n.idle == e.idle && n.unconsumed == e.unconsumed
            && n.tx.unacked == e.tx.unacked && n.tx.resend == e.tx.resend && n.tx.next == e.tx.next % MODULUS
            && n.rx.consumed == e.rx.consumed && n.rx.size == e.rx.size && n.tx == NarrowTx(e.tx)
            && |n.links| == |e.links| && |n.rx.consumable| == |e.rx.consumable|
  {
  }

  lemma LinkNarrows(e: Ep, slot: nat)
    ensures Occupied(Narrow(e).links, slot) == Occupied(e.links, slot)
    ensures Occupied(e.links, slot) ==>
              var l, n := e.links[slot].value, Narrow(e).links[slot].value;
              && n == l.(acks := NarrowNumbers(l.acks)) && IdAt(Narrow(e), slot) == IdAt(e, slot)
    ensures Claimable(Narrow(e), slot) == Claimable(e, slot)
  {
  }

  lemma DueNarrows(e: Ep, kind: SendKind)
    requires Spacious(e.tx)
    ensures Due(Wrapping, Narrow(e), kind) == Due(Unbounded, e, kind)
    ensures SeqAvail(Wrapping, Narrow(e).tx) == SeqAvail(Unbounded, e.tx)
    ensures (kind.OfData? ==> e.user.writeQueue != []) ==> MessageOf(Narrow(e), kind) == MessageOf(e, kind)
  {
    NarrowFrameOf(e);
    SeqAvailNarrows(e.tx);
    hide Narrow, SeqAvail;
  }

  lemma ClaimNarrows(e: Ep, slot: nat)
    requires Occupied(e.links, slot)
    ensures Narrow(Claim(e, slot)) == Claim(Narrow(e), slot)
  {
    SetNarrows(e.links, slot, e.links[slot].value.(polling := false));
  }

  lemma AfterSendNarrows(e: Ep, kind: SendKind)
    requires kind.OfData? ==> e.user.writeQueue != []
    ensures Narrow(AfterSend(e, kind)) == AfterSend(Narrow(e), kind)
  {
  }

  lemma WholeSendNarrows(e: Ep, slot: nat, kind: SendKind, limitReached: bool)
    requires Spacious(e.tx)
    ensures CanSend(Wrapping, Narrow(e), slot, kind) == CanSend(Unbounded, e, slot, kind)
    ensures CanSend(Unbounded, e, slot, kind) ==>
              Narrow(Send(Unbounded, e, slot, kind, limitReached)) == Send(Wrapping, Narrow(e), slot, kind, limitReached)
  {
    LinkNarrows(e, slot);
    DueNarrows(e, kind);
    if CanSend(Unbounded, e, slot, kind) {
      var e1 := Claim(e, slot);
      assert kind.OfData? ==> e.user.writeQueue != [];
      assert Ready(e1, slot);
      ClaimNarrows(e, slot);
      SendNarrows(e1, slot, MessageOf(e, kind), limitReached);
      hide Narrow, Due, SendReliable, Claim;
      SendKeepsQueue(e, slot, MessageOf(e, kind), limitReached);
      AfterSendNarrows(SendReliable(Unbounded, e1, slot, MessageOf(e, kind), limitReached), kind);
    }
  }

  lemma SendKeepsQueue(e: Ep, slot: nat, m: ReliableMsg, limitReached: bool)
    requires Occupied(e.links, slot) && Ready(Claim(e, slot), slot)
    ensures SendReliable(Unbounded, Claim(e, slot), slot, m, limitReached).user == e.user
  {
  }

  lemma ResendableNarrows(tx: Tx)
    ensures CanResend(NarrowTx(tx)) == CanResend(tx)
    ensures CanResend(tx) ==>
              var i := tx.resend[0] - Base(tx);
              && NarrowTx(tx).resend[0] - Base(NarrowTx(tx)) == i
              && NarrowTx(tx).packets[i].num == tx.packets[i].num % MODULUS
              && StatusOf(NarrowTx(tx), tx.resend[0]) == StatusOf(tx, tx.resend[0])
  {
  }

  lemma WholeResendNarrows(e: Ep, slot: nat, limitReached: bool)
    ensures CanResendOver(Narrow(e), slot) == CanResendOver(e, slot)
    ensures CanResendOver(e, slot) ==> Narrow(Resend(e, slot, limitReached)) == Resend(Narrow(e), slot, limitReached)
  {
    LinkNarrows(e, slot);
    NarrowFrameOf(e);
    ResendableNarrows(e.tx);
    if CanResendOver(e, slot) {
      ClaimNarrows(e, slot);
      ResendNarrows(Claim(e, slot), slot, limitReached);
    }
  }

  lemma WholeAckNarrows(e: Ep, slot: nat)
    requires Claimable(e, slot) && e.links[slot].value.acks != []
    ensures Claimable(Narrow(e), slot) && Narrow(e).links[slot].value.acks != []
    ensures Narrow(SendAck(Claim(e, slot), slot)) == SendAck(Claim(Narrow(e), slot), slot)
    ensures Narrow(e).links[slot].value.acks[0] == e.links[slot].value.acks[0] % MODULUS
  {
    LinkNarrows(e, slot);
    ClaimNarrows(e, slot);
    SendAckNarrows(Claim(e, slot), slot);
  }

  lemma TouchNarrows(e: Ep, slot: nat, touch: Touch)
    ensures TouchEnabled(Narrow(e), slot, touch) == TouchEnabled(e, slot, touch)
    ensures TouchEnabled(e, slot, touch) ==> Narrow(ApplyTouch(e, slot, touch)) == ApplyTouch(Narrow(e), slot, touch)
  {
    LinkNarrows(e, slot);
    if TouchEnabled(e, slot, touch) && !touch.Idled? {
      SetNarrows(e.links, slot, ApplyTouch(e, slot, touch).links[slot].value);
    } else if TouchEnabled(e, slot, touch) {
      ClaimNarrows(e, slot);
    }
  }

  // --------------------------------------------------------------------------- actions

  /** A frame whose number can be told apart from others in use: an acknowledgement from less than half, a message from at
      most a quarter of the number space away. */
  predicate InWindow(e: Ep, f: Frame) {
    match f
    case Ack(n) => -HALF <= e.tx.next - n < HALF
    case Reliable(n, _) => Distance(n, e.rx.next) <= ONE_QUARTER
  }

  /** All numbers that `a` may have to deal with next can be told apart. */
  ghost predicate Clear(s: Sys) {
    && Spacious(s.a.ep.tx)
    && forall slot: nat | Occupied(s.a.ep.links, slot) && PipeOf(s.ba, IdAt(s.a.ep, slot)) != [] ::
         InWindow(s.a.ep, PipeOf(s.ba, IdAt(s.a.ep, slot))[0])
  }

  /** An action is possible with 32-bit numbers when it is with unbounded ones, and does the same. */
  ghost predicate Alike(s: Sys, act: Action) {
    && Enabled(Wrapping, NarrowSys(s), act) == Enabled(Unbounded, s, act)
    && (Enabled(Unbounded, s, act) ==> Act(Wrapping, NarrowSys(s), act) == NarrowSys(Act(Unbounded, s, act)))
  }

  lemma UserAlike(s: Sys, act: Action)
    requires act.Accept? || act.WriteEnd? || act.ReadDropped? || act.ReadClosed?
    ensures Alike(s, act)
  {
    hide NarrowTx, NarrowRx, NarrowLinks, NarrowPipes;
  }

  lemma SendAlike(s: Sys, slot: nat, kind: SendKind, limitReached: bool)
    requires Spacious(s.a.ep.tx)
    ensures Alike(s, SendNew(slot, kind, limitReached))
  {
    var e := s.a.ep;
    hide Narrow, NarrowPipes, Send, Due, SeqAvail, Push, MessageOf, NarrowTx, CanSend, Spacious;
    WholeSendNarrows(e, slot, kind, limitReached);
    DueNarrows(e, kind);
    NarrowFrameOf(e);
    if CanSend(Unbounded, e, slot, kind) {
      CanSendHasData(e, slot, kind);
      LinkNarrows(e, slot);
      PushNarrows(s.ab, IdAt(e, slot), Reliable(e.tx.next, MessageOf(e, kind)));
    }
  }

  lemma CanSendHasData(e: Ep, slot: nat, kind: SendKind)
    requires CanSend(Unbounded, e, slot, kind)
    ensures Occupied(e.links, slot)
    ensures kind.OfData? ==> e.user.writeQueue != []
  {
  }

  lemma ResendIsKept(tx: Tx)
    requires CanResend(tx)
    ensures tx.resend != [] && Kept(tx, tx.resend[0]) && StatusOf(tx, tx.resend[0]).ResendQueued?
  {
  }

  lemma ResendAlike(s: Sys, slot: nat, limitReached: bool)
    ensures Alike(s, SendAgain(slot, limitReached))
  {
    var e := s.a.ep;
    hide Narrow, NarrowPipes, Resend, Push, StatusOf, NarrowTx, CanResend;
    WholeResendNarrows(e, slot, limitReached);
    NarrowFrameOf(e);
    ResendableNarrows(e.tx);
    if CanResendOver(e, slot) {
      ResendIsKept(e.tx);
      LinkNarrows(e, slot);
      var u := e.tx.resend[0];
      PushNarrows(s.ab, IdAt(e, slot), Reliable(e.tx.packets[u - Base(e.tx)].num, StatusOf(e.tx, u).msg));
    }
  }

  lemma SendAckAlike(s: Sys, slot: nat)
    ensures Alike(s, SendAcknowledgement(slot))
  {
    var e := s.a.ep;
    LinkNarrows(e, slot);
    if Claimable(e, slot) && e.links[slot].value.acks != [] {
      WholeAckNarrows(e, slot);
      PushNarrows(s.ab, IdAt(e, slot), Ack(e.links[slot].value.acks[0]));
      hide Narrow, NarrowPipes, SendAck, Claim, Push;
    }
  }

  lemma LinkIdsNarrow(e: Ep)
    ensures LinkIds(Narrow(e).links) == LinkIds(e.links)
  {
    forall l: LinkId ensures l in LinkIds(Narrow(e).links) <==> l in LinkIds(e.links) {
      if s :| 0 <= s < |e.links| && e.links[s].Some? && e.links[s].value.id == l {
        assert Narrow(e).links[s].Some? && Narrow(e).links[s].value.id == l;
      }
    }
  }

  lemma ReceiveAlike(s: Sys, slot: nat)
    requires Clear(s)
    ensures Alike(s, Receive(slot))
  {
    var e := s.a.ep;
    hide Narrow, NarrowPipes, HandleAck, HandleReceived, Pop, PipeOf, LinkIds;
    LinkNarrows(e, slot);
    if Occupied(e.links, slot) {
      var l := IdAt(e, slot);
      PipeNarrows(s.ba, l);
      if PipeOf(s.ba, l) != [] {
        PopNarrows(s.ba, l);
        LinkIdsNarrow(e);
        var f := PipeOf(s.ba, l)[0];
        assert InWindow(e, f);
        match f {
          case Ack(n) => AckNarrows(e, slot, n);
          case Reliable(n, msg) => ReceiveNarrows(e, slot, n, msg);
        }
      }
    }
  }

  lemma LinkAlike(s: Sys, act: Action)
    requires act.Unconfirm? || act.Flush? || act.Remove? || act.Add? || act.TouchLink? || act.ConsumeNext?
    ensures Alike(s, act)
  {
    var e := s.a.ep;
    hide Narrow, NarrowPipes, UnconfirmLink, FlushLink, RemoveLink, AddLink, ApplyTouch, TouchEnabled, Consume, ConsumeHist;
    match act
    case Unconfirm(slot) =>
      LinkNarrows(e, slot);
      if Occupied(e.links, slot) { UnconfirmNarrows(e, slot); }
    case Flush(slot) =>
      LinkNarrows(e, slot);
      if Occupied(e.links, slot) { FlushLinkNarrows(e, slot); }
    case Remove(slot) =>
      LinkNarrows(e, slot);
      if Occupied(e.links, slot) { RemoveNarrows(e, slot); }
    case Add(l, tested, limit) => AddNarrows(e, l, tested, limit);
    case TouchLink(slot, touch) => TouchNarrows(e, slot, touch);
    case ConsumeNext => ConsumeAlike(s);
  }

  lemma ConsumeAlike(s: Sys)
    ensures Alike(s, ConsumeNext)
  {
    NarrowFrameOf(s.a.ep);
    if s.a.ep.rx.consumable != [] {
      ConsumeNarrows(s.a.ep);
      HeadNarrows(s.a);
      hide Narrow, NarrowPipes, Consume, ConsumeHist;
    } else {
      hide Narrow, NarrowPipes;
    }
  }

  lemma HeadNarrows(x: Node)
    requires x.ep.rx.consumable != []
    ensures NarrowNode(x).ep.rx.consumable != [] && ConsumeHist(NarrowNode(x)) == ConsumeHist(x)
  {
  }

  lemma KillAlike(s: Sys, l: LinkId, keepOut: nat, keepIn: nat)
    ensures Alike(s, Kill(l, keepOut, keepIn))
  {
    CutNarrows(s.ab, l, keepOut);
    CutNarrows(s.ba, l, keepIn);
    hide Narrow, NarrowPipes, Cut;
  }

  /** As long as numbers can be told apart, every action is the same with 32-bit numbers. */
  lemma ActNarrows(s: Sys, act: Action)
    requires Clear(s)
    ensures Alike(s, act)
  {
    hide Alike, NarrowSys;
    match act
    case SendNew(slot, kind, limitReached) => SendAlike(s, slot, kind, limitReached);
    case SendAgain(slot, limitReached) => ResendAlike(s, slot, limitReached);
    case SendAcknowledgement(slot) => SendAckAlike(s, slot);
    case Receive(slot) => ReceiveAlike(s, slot);
    case Kill(l, keepOut, keepIn) => KillAlike(s, l, keepOut, keepIn);
    case Accept(_) => UserAlike(s, act);
    case WriteEnd => UserAlike(s, act);
    case ReadDropped => UserAlike(s, act);
    case ReadClosed => UserAlike(s, act);
    case _ => LinkAlike(s, act);
  }

  // ------------------------------------------------------------------------------ runs

  /** Neither side can take one number for another. */
  ghost predicate Distinguishable(s: Sys) {
    Clear(s) && Clear(Swap(s))
  }

  /** The two systems make the same steps. */
  lemma StepNarrows(s: Sys, t: Sys) returns (s': Sys)
    requires Distinguishable(s) && Step(Wrapping, NarrowSys(s), t)
    ensures Step(Unbounded, s, s') && t == NarrowSys(s')
  {
    hide NarrowSys, Enabled, Act, Clear;
    if StepAtA(Wrapping, NarrowSys(s), t) {
      var act :| Enabled(Wrapping, NarrowSys(s), act) && t == Act(Wrapping, NarrowSys(s), act);
      ActNarrows(s, act);
      s' := Act(Unbounded, s, act);
      assert StepAtA(Unbounded, s, s');
    } else {
      SwapNarrows(s);
      var act :| Enabled(Wrapping, Swap(NarrowSys(s)), act) && Swap(t) == Act(Wrapping, Swap(NarrowSys(s)), act);
      ActNarrows(Swap(s), act);
      s' := Swap(Act(Unbounded, Swap(s), act));
      SwapNarrows(s');
      assert Swap(s') == Act(Unbounded, Swap(s), act);
      assert StepAtA(Unbounded, Swap(s), Swap(s'));
      assert Swap(NarrowSys(s')) == Swap(t);
    }
  }

  lemma StepWidens(s: Sys, s': Sys)
    requires Distinguishable(s) && Step(Unbounded, s, s')
    ensures Step(Wrapping, NarrowSys(s), NarrowSys(s'))
  {
    hide NarrowSys, Enabled, Act, Clear;
    if StepAtA(Unbounded, s, s') {
      var act :| Enabled(Unbounded, s, act) && s' == Act(Unbounded, s, act);
      ActNarrows(s, act);
    } else {
      SwapNarrows(s);
      SwapNarrows(s');
      var act :| Enabled(Unbounded, Swap(s), act) && Swap(s') == Act(Unbounded, Swap(s), act);
      ActNarrows(Swap(s), act);
    }
  }

  /** The states of `r` are those of `w` without the high bits, as far as `w` goes. */
  ghost predicate Follows(r: seq<Sys>, w: seq<Sys>) {
    |w| <= |r| && forall i | 0 <= i < |w| :: r[i] == NarrowSys(w[i])
  }

  lemma StartIsNarrow(s: Sys)
    requires Start(s)
    ensures NarrowSys(s) == s
  {
    assert NarrowPackets([]) == [] && NarrowBuffer([]) == [] && NarrowArrivals([]) == [] && NarrowLinks([]) == [];
    assert NarrowPipes(map[]) == map[];
  }

  lemma PrefixIsRun(num: Numbering, run: seq<Sys>, k: nat)
    requires IsRun(num, run) && 0 < k <= |run|
    ensures IsRun(num, run[..k]) && Start(run[0])
    ensures k < |run| ==> Step(num, run[k - 1], run[k])
  {
    hide Step, Start;
    var p := run[..k];
    forall i | 0 <= i < |p| - 1 ensures Step(num, p[i], p[i + 1]) {
      assert Step(num, run[i], run[i + 1]);
    }
    assert k < |run| ==> Step(num, run[k - 1], run[k - 1 + 1]);
  }

  lemma LongerRun(num: Numbering, run: seq<Sys>, s: Sys)
    requires IsRun(num, run) && Step(num, run[|run| - 1], s)
    ensures IsRun(num, run + [s])
  {
    hide Step, Start;
    var longer := run + [s];
    forall i | 0 <= i < |longer| - 1 ensures Step(num, longer[i], longer[i + 1]) {
      if i < |run| - 1 {
        assert Step(num, run[i], run[i + 1]);
      }
    }
  }

  lemma NotEmpty(num: Numbering, run: seq<Sys>)
    requires IsRun(num, run)
    ensures |run| > 0
  {
    hide Step, Start;
  }

  lemma OneStateRun(num: Numbering, s: Sys)
    requires Start(s)
    ensures IsRun(num, [s])
  {
  }

  /** Every run with 32-bit numbers, across any number of wrap-arounds, is a run with unbounded numbers of which the high
      bits are forgotten, at least until numbers in use cannot be told apart any more. */
  lemma {:induction false} RunNarrows(r: seq<Sys>) returns (w: seq<Sys>)
    requires IsRun(Wrapping, r)
    ensures IsRun(Unbounded, w) && |w| > 0 && Follows(r, w)
    ensures |w| == |r| || !Distinguishable(w[|w| - 1])
    decreases |r|
  {
    hide IsRun, Step, NarrowSys, Distinguishable, Start;
    NotEmpty(Wrapping, r);
    var k := |r| - 1;
    if k == 0 {
      PrefixIsRun(Wrapping, r, 1);
      StartIsNarrow(r[0]);
      OneStateRun(Unbounded, r[0]);
      w := [r[0]];
    } else {
      PrefixIsRun(Wrapping, r, k);
      w := RunNarrows(r[..k]);
      if |w| == k && Distinguishable(w[k - 1]) {
        assert r[..k][k - 1] == r[k - 1];
        var s := StepNarrows(w[k - 1], r[k]);
        LongerRun(Unbounded, w, s);
        w := w + [s];
      }
    }
  }

  /** Conversely, a run with unbounded numbers that can always be told apart is one with 32-bit numbers. */
  lemma {:induction false} RunWidens(w: seq<Sys>, r: seq<Sys>)
    requires IsRun(Unbounded, w) && |r| == |w| && Follows(r, w)
    requires forall i | 0 <= i < |w| - 1 :: Distinguishable(w[i])
    ensures IsRun(Wrapping, r)
  {
    hide NarrowSys, Distinguishable, Step, Start;
    StartIsNarrow(w[0]);
    forall i | 0 <= i < |r| - 1 ensures Step(Wrapping, r[i], r[i + 1]) {
      assert Step(Unbounded, w[i], w[i + 1]);
      StepWidens(w[i], w[i + 1]);
    }
  }

  // ------------------------------------------------------------------- what the endpoint asks for

  lemma SpaceCounts(e: Ep)
    requires Spacious(e.tx)
    requires Inv(Unbounded, e)
    ensures |e.tx.packets| == |Narrow(e).tx.packets| <= ONE_QUARTER
  {
    hide Inv, Spacious;
    InvParts(e);
    SpaceIs(e.tx);
  }

  lemma SpaceIs(tx: Tx)
    requires Spacious(tx)
    ensures tx.packets != [] ==> tx.next - tx.packets[0].num <= ONE_QUARTER
  {
  }

  /** In a run with 32-bit numbers, while numbers can be told apart, an endpoint meets what the methods of the endpoint in
      place ask for; and the queue that a link leaves when it is unconfirmed is what any sort by 32-bit number makes of it. */
  lemma UnconfirmSorts(r: seq<Sys>, w: seq<Sys>, i: nat, slot: nat, q: seq<nat>)
    requires IsRun(Wrapping, r) && IsRun(Unbounded, w) && Follows(r, w) && i < |w| && Clear(w[i])
    requires Occupied(r[i].a.ep.links, slot)
    ensures Inv(Wrapping, r[i].a.ep) && |r[i].a.ep.tx.packets| <= ONE_QUARTER
    ensures var e := r[i].a.ep;
            SortedByNumber(e.tx, q) && multiset(q) == multiset(e.tx.resend + Newly(e.tx.packets, slot))
            ==> q == UnconfirmLink(e, slot).tx.resend
  {
    hide IsRun, NarrowSys, Narrow, Inv, Clear, Spacious, SortedByNumber, Newly, TxRequeue;
    var e := r[i].a.ep;
    EndpointsStayConsistent(w, i);
    IsSpacious(w[i]);
    SpaceCounts(w[i].a.ep);
    assert r[i] == NarrowSys(w[i]);
    NarrowSide(w[i]);
    WrappedStayConsistent(r, i);
    if SortedByNumber(e.tx, q) && multiset(q) == multiset(e.tx.resend + Newly(e.tx.packets, slot)) {
      InvIsQueued(e);
      AnySortIsRequeue(e.tx, slot, q);
    }
  }

  lemma IsSpacious(s: Sys)
    requires Clear(s)
    ensures Spacious(s.a.ep.tx)
  {
  }

  lemma NarrowSide(s: Sys)
    ensures NarrowSys(s).a.ep == Narrow(s.a.ep)
  {
    hide Narrow, NarrowPipes;
  }

  lemma InvIsQueued(e: Ep)
    requires Inv(Wrapping, e)
    ensures Numbered(Wrapping, e.tx) && e.tx.resend == Queued(e.tx.packets)
  {
  }

  // -------------------------------------------------------------------------- consequences

  /** A frame that is about to be received is older than a quarter (an acknowledgement: half) of the number space. */
  ghost predicate Aged(s: Sys) {
    exists slot: nat :: Occupied(s.a.ep.links, slot) && PipeOf(s.ba, IdAt(s.a.ep, slot)) != []
                        && match PipeOf(s.ba, IdAt(s.a.ep, slot))[0]
                           case Reliable(n, _) => s.a.ep.rx.next - n > ONE_QUARTER
                           case Ack(n) => s.a.ep.tx.next - n >= HALF
  }

  lemma SpaciousHere(s: Sys)
    requires SysInv(s) && s.gated
    ensures Spacious(s.a.ep.tx)
  {
    hide SysInv;
    GatedWindow(s);
  }

  /** When control messages wait for a free number, too, only age makes numbers indistinguishable. */
  lemma UnclearIsAged(s: Sys)
    requires s.gated && !Clear(s)
    requires SysInv(s)
    ensures Aged(s)
  {
    SpaciousHere(s);
    hide SysInv, Spacious, PipeOf;
    var slot: nat :| Occupied(s.a.ep.links, slot) && PipeOf(s.ba, IdAt(s.a.ep, slot)) != []
                     && !InWindow(s.a.ep, PipeOf(s.ba, IdAt(s.a.ep, slot))[0]);
    ArrivingNumber(s, IdAt(s.a.ep, slot));
  }

  lemma IndistinctIsAged(s: Sys)
    requires s.gated && !Distinguishable(s)
    requires SysInv(s)
    ensures Aged(s) || Aged(Swap(s))
  {
    hide SysInv, Clear, Aged;
    SwapKeeps(s);
    if !Clear(s) {
      UnclearIsAged(s);
    } else {
      UnclearIsAged(Swap(s));
    }
  }

  /** An unbounded run that `r` follows for at most `i` states and that ends with numbers that cannot be told apart. */
  ghost predicate LostBy(r: seq<Sys>, i: nat, w: seq<Sys>) {
    IsRun(Unbounded, w) && 0 < |w| <= i && Follows(r, w) && !Distinguishable(w[|w| - 1])
  }

  /** End-to-end delivery with 32-bit numbers: in every state of every run, unless numbers could not be told apart before. */
  lemma WrappedDelivery(r: seq<Sys>, i: nat)
    requires IsRun(Wrapping, r) && i < |r|
    ensures || (Delivers(r[i].a, r[i].b) && Delivers(r[i].b, r[i].a))
            || exists w: seq<Sys> :: LostBy(r, i, w)
  {
    hide IsRun, NarrowSys, Distinguishable, Delivers;
    var w := RunNarrows(r);
    if i < |w| {
      EndToEndDelivery(w, i);
      NarrowDelivers(w[i]);
    } else {
      assert LostBy(r, i, w);
    }
  }

  lemma NarrowDelivers(s: Sys)
    ensures Delivers(NarrowSys(s).a, NarrowSys(s).b) == Delivers(s.a, s.b)
    ensures Delivers(NarrowSys(s).b, NarrowSys(s).a) == Delivers(s.b, s.a)
  {
    hide Narrow, NarrowPipes;
  }

  /** When all reliable messages wait for a free number, numbers can only be lost to age. */
  lemma GatedLossIsAge(r: seq<Sys>, i: nat, w: seq<Sys>)
    requires LostBy(r, i, w) && w[|w| - 1].gated
    ensures Aged(w[|w| - 1]) || Aged(Swap(w[|w| - 1]))
  {
    hide IsRun, Distinguishable, Aged, SysInv;
    RunKeeps(w, |w| - 1);
    IndistinctIsAged(w[|w| - 1]);
  }

  /** End-to-end delivery with 32-bit numbers when all reliable messages wait for a free number: it holds up to the first
      frame that comes in older than a quarter (an acknowledgement: half) of the number space, and so long nobody halts. */
  lemma GatedWrappedDelivery(r: seq<Sys>, i: nat)
    requires IsRun(Wrapping, r) && i < |r| && forall k | 0 <= k < |r| :: r[k].gated
    ensures || (Delivers(r[i].a, r[i].b) && Delivers(r[i].b, r[i].a) && r[i].haltA.None? && r[i].haltB.None?)
            || exists w: seq<Sys> :: LostBy(r, i, w) && (Aged(w[|w| - 1]) || Aged(Swap(w[|w| - 1])))
  {
    hide IsRun, Distinguishable, Delivers, Aged, Narrow, NarrowPipes;
    var w := RunNarrows(r);
    if i < |w| {
      assert r[i] == NarrowSys(w[i]);
      EndToEndDelivery(w, i);
      NarrowDelivers(w[i]);
      GatedRunsNeverHalt(w, i);
    } else {
      assert LostBy(r, i, w) && r[|w| - 1] == NarrowSys(w[|w| - 1]);
      GatedLossIsAge(r, i, w);
    }
  }
}
