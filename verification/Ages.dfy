/** How old the frames of a connection can be: a frame is no older than what has been numbered since the pipes were last
    empty. */
module Ages {
  import opened Numbering
  import opened Protocol
  import opened Invariants
  import opened Preservation
  import opened System
  import opened Truth
  import opened Runs
  import opened Scenarios
  import opened WrappedRuns

  // -------------------------------------------------------------------------------- floors

  ghost predicate AcksFrom(links: seq<Option<Link>>, n: nat) {
    forall s, k | 0 <= s < |links| && links[s].Some? && 0 <= k < |links[s].value.acks| :: links[s].value.acks[k] >= n
  }

  /** Messages are numbered from `n`, acknowledgements from `k` on. */
  ghost predicate PipesFrom(p: Pipes, n: nat, k: nat) {
    forall l, i | l in p && 0 <= i < |p[l]| :: p[l][i].num >= if p[l][i].Reliable? then n else k
  }

  /** Nothing of `a` before `fa` and nothing of `b` before `fb` is kept, acknowledged or under way. */
  ghost predicate From(s: Sys, fa: nat, fb: nat) {
    && Base(s.a.ep.tx) >= fa && AcksFrom(s.a.ep.links, fb) && PipesFrom(s.ab, fa, fb)
    && Base(s.b.ep.tx) >= fb && AcksFrom(s.b.ep.links, fa) && PipesFrom(s.ba, fb, fa)
  }

  lemma PushFrom(p: Pipes, l: LinkId, f: Frame, n: nat, k: nat)
    requires PipesFrom(p, n, k) && f.num >= if f.Reliable? then n else k
    ensures PipesFrom(Push(p, l, f), n, k)
  {
  }

  lemma PopFrom(p: Pipes, l: LinkId, n: nat, k: nat)
    requires PipesFrom(p, n, k) && PipeOf(p, l) != []
    ensures PipesFrom(Pop(p, l), n, k)
    ensures var f := PipeOf(p, l)[0]; f.num >= if f.Reliable? then n else k
  {
  }

  lemma CutFrom(p: Pipes, l: LinkId, keep: nat, n: nat, k: nat)
    requires PipesFrom(p, n, k)
    ensures PipesFrom(Cut(p, l, keep), n, k)
  {
  }

  lemma SameAcksFrom(links: seq<Option<Link>>, links': seq<Option<Link>>, n: nat)
    requires SameAcks(links, links') && AcksFrom(links, n)
    ensures AcksFrom(links', n)
  {
  }

  // ------------------------------------------------------------------------------- the steps

  /** Numbers only grow. */
  predicate Onward(e: Ep, e': Ep) {
    e.tx.next <= e'.tx.next && e.rx.next <= e'.rx.next && Base(e.tx) <= Base(e'.tx)
  }

  lemma SendFrom(s: Sys, slot: nat, kind: SendKind, limitReached: bool, fa: nat, fb: nat)
    requires Enabled(Unbounded, s, SendNew(slot, kind, limitReached)) && From(s, fa, fb)
    requires Local(s.a)
    ensures var s' := Act(Unbounded, s, SendNew(slot, kind, limitReached)); From(s', fa, fb) && Onward(s.a.ep, s'.a.ep)
  {
    hide Inv, IdsAdded, AcksFrom, PipesFrom, SameAcks, Send, CanSend, SeqAvail, Push, MessageOf, FlushTx, RxOk, Slotted,
         DistinctIds, CanResend;
    var e := s.a.ep;
    InvParts(e);
    SendFrame(e, slot, kind, limitReached, s.a.hist.added);
    SentHasSlot(e, slot, kind);
    SameAcksFrom(e.links, Send(Unbounded, e, slot, kind, limitReached).links, fb);
    PushFrom(s.ab, IdAt(e, slot), Reliable(e.tx.next, MessageOf(e, kind)), fa, fb);
    FlushKeepsCount(e.tx, IdAt(e, slot), limitReached || FlushesAlways(MessageOf(e, kind)));
  }

  lemma SentHasSlot(e: Ep, slot: nat, kind: SendKind)
    requires CanSend(Unbounded, e, slot, kind)
    ensures Occupied(e.links, slot) && (kind.OfData? ==> e.user.writeQueue != [])
  {
  }

  lemma FlushKeepsCount(tx: Tx, l: LinkId, flush: bool)
    ensures var tx' := FlushTx(tx, l, flush); |tx'.packets| == |tx.packets| && tx'.created == tx.created && tx'.next == tx.next
  {
  }

  lemma ResendFrom(s: Sys, slot: nat, limitReached: bool, fa: nat, fb: nat)
    requires Enabled(Unbounded, s, SendAgain(slot, limitReached)) && From(s, fa, fb)
    requires Local(s.a)
    ensures var s' := Act(Unbounded, s, SendAgain(slot, limitReached)); From(s', fa, fb) && Onward(s.a.ep, s'.a.ep)
  {
    hide Inv, IdsAdded, AcksFrom, PipesFrom, SameAcks, Resend, Push, FlushTx, RxOk, Slotted, DistinctIds, StatusOf;
    var e := s.a.ep;
    var u := e.tx.resend[0];
    InvParts(e);
    ResendFrame(e, slot, limitReached, s.a.hist.added);
    SameAcksFrom(e.links, Resend(e, slot, limitReached).links, fb);
    PushFrom(s.ab, IdAt(e, slot), Reliable(e.tx.packets[u - Base(e.tx)].num, StatusOf(e.tx, u).msg), fa, fb);
    FlushKeepsCount(e.tx, IdAt(e, slot), limitReached || FlushesAlways(StatusOf(e.tx, u).msg));
  }

  lemma AckLeaves(e: Ep, slot: nat, n: nat)
    requires Claimable(e, slot) && e.links[slot].value.acks != [] && AcksFrom(e.links, n)
    ensures e.links[slot].value.acks[0] >= n
    ensures var e' := SendAck(Claim(e, slot), slot); AcksFrom(e'.links, n) && Onward(e, e')
  {
    hide Without;
  }

  lemma SendAckFrom(s: Sys, slot: nat, fa: nat, fb: nat)
    requires Enabled(Unbounded, s, SendAcknowledgement(slot)) && From(s, fa, fb)
    ensures var s' := Act(Unbounded, s, SendAcknowledgement(slot)); From(s', fa, fb) && Onward(s.a.ep, s'.a.ep)
  {
    AckLeaves(s.a.ep, slot, fb);
    PushFrom(s.ab, IdAt(s.a.ep, slot), Ack(s.a.ep.links[slot].value.acks[0]), fa, fb);
    hide AcksFrom, PipesFrom, Push, Without;
  }

  lemma AckArrives(e: Ep, slot: nat, n: nat, k: nat)
    requires Occupied(e.links, slot) && AcksFrom(e.links, k) && |e.tx.packets| <= e.tx.created
    ensures var e' := HandleAck(Unbounded, e, slot, n); AcksFrom(e'.links, k) && Onward(e, e')
  {
    AckStatuses(Unbounded, e.tx, slot, n, 0);
    hide TxMark, AckedOn, DropStale, LeadingReceived, Total;
    MarkKeepsCount(e.tx, slot, n);
  }

  lemma MarkKeepsCount(tx: Tx, slot: nat, n: nat)
    ensures var tx' := TxMark(Unbounded, tx, slot, n); |tx'.packets| == |tx.packets| && tx'.created == tx.created && tx'.next == tx.next
  {
  }

  lemma CopyArrives(e: Ep, slot: nat, n: nat, msg: ReliableMsg, k: nat)
    requires Occupied(e.links, slot) && AcksFrom(e.links, k) && n >= k && HandleReceived(Unbounded, e, slot, n, msg).Ok?
    ensures var e' := HandleReceived(Unbounded, e, slot, n, msg).value; AcksFrom(e'.links, k) && Onward(e, e')
  {
    RxAfterIsReceived(e, slot, n, msg);
    hide Place, RxStore, HandleReceived, Without, LeadingFull, Deliverable;
  }

  lemma ReceiveFrom(s: Sys, slot: nat, fa: nat, fb: nat)
    requires Enabled(Unbounded, s, Receive(slot)) && From(s, fa, fb)
    requires Local(s.a)
    ensures var s' := ReceiveFrame(Unbounded, s, slot); From(s', fa, fb) && Onward(s.a.ep, s'.a.ep)
  {
    hide Inv, IdsAdded, AcksFrom, PipesFrom, Pop, PipeOf, HandleAck, HandleReceived, LinkIds, RxOk, Slotted, DistinctIds,
         CanResend;
    var e, l := s.a.ep, IdAt(s.a.ep, slot);
    InvParts(e);
    PopFrom(s.ba, l, fb, fa);
    match PipeOf(s.ba, l)[0]
    case Ack(n) => AckArrives(e, slot, n, fb);
    case Reliable(n, msg) =>
      if HandleReceived(Unbounded, e, slot, n, msg).Ok? {
        CopyArrives(e, slot, n, msg, fb);
      }
  }

  lemma LinkFrom(e: Ep, slot: nat, n: nat)
    requires Occupied(e.links, slot) && AcksFrom(e.links, n)
    ensures AcksFrom(UnconfirmLink(e, slot).links, n) && AcksFrom(FlushLink(e, slot).links, n)
    ensures AcksFrom(RemoveLink(e, slot).links, n)
    ensures Onward(e, UnconfirmLink(e, slot)) && Onward(e, FlushLink(e, slot)) && Onward(e, RemoveLink(e, slot))
  {
    hide Without, Total, Trim, Queued;
    TrimExact(UnconfirmLink(e, slot).links[slot := None]);
  }

  lemma AddFrom(e: Ep, l: LinkId, tested: bool, limit: nat, n: nat)
    requires AcksFrom(e.links, n)
    ensures AcksFrom(AddLink(e, l, tested, limit).links, n)
  {
    hide FreeSlot;
  }

  lemma TouchFrom(e: Ep, slot: nat, touch: Touch, n: nat)
    requires TouchEnabled(e, slot, touch) && AcksFrom(e.links, n)
    ensures var e' := ApplyTouch(e, slot, touch); AcksFrom(e'.links, n) && Onward(e, e')
  {
    hide Without;
  }

  lemma OtherFrom(s: Sys, act: Action, fa: nat, fb: nat)
    requires !act.SendNew? && !act.SendAgain? && !act.SendAcknowledgement? && !act.Receive?
    requires Enabled(Unbounded, s, act) && From(s, fa, fb)
    ensures var s' := Act(Unbounded, s, act); From(s', fa, fb) && Onward(s.a.ep, s'.a.ep)
  {
    hide AcksFrom, PipesFrom, UnconfirmLink, FlushLink, RemoveLink, ApplyTouch, TouchEnabled, FreeSlot, Cut;
    if act.Unconfirm? || act.Flush? || act.Remove? {
      LinkFrom(s.a.ep, act.slot, fb);
    } else if act.TouchLink? {
      TouchFrom(s.a.ep, act.slot, act.touch, fb);
    } else if act.Add? {
      AddFrom(s.a.ep, act.link, act.tested, act.limit, fb);
    } else if act.Kill? {
      CutFrom(s.ab, act.link, act.keepOut, fa, fb);
      CutFrom(s.ba, act.link, act.keepIn, fb, fa);
    }
  }

  lemma ActFrom(s: Sys, act: Action, fa: nat, fb: nat)
    requires Enabled(Unbounded, s, act) && From(s, fa, fb)
    requires Local(s.a)
    ensures var s' := Act(Unbounded, s, act); From(s', fa, fb) && Onward(s.a.ep, s'.a.ep)
  {
    hide From, Local, Onward;
    match act
    case SendNew(slot, kind, limitReached) => SendFrom(s, slot, kind, limitReached, fa, fb);
    case SendAgain(slot, limitReached) => ResendFrom(s, slot, limitReached, fa, fb);
    case SendAcknowledgement(slot) => SendAckFrom(s, slot, fa, fb);
    case Receive(slot) => ReceiveFrom(s, slot, fa, fb);
    case _ => OtherFrom(s, act, fa, fb);
  }

  // --------------------------------------------------------------------------------- the runs

  ghost predicate BothOnward(s: Sys, s': Sys) {
    Onward(s.a.ep, s'.a.ep) && Onward(s.b.ep, s'.b.ep)
  }

  lemma MirrorFrom(s: Sys, fa: nat, fb: nat)
    ensures From(Swap(s), fb, fa) == From(s, fa, fb)
  {
    hide AcksFrom, PipesFrom;
  }

  lemma BothLocal(s: Sys)
    requires SysInv(s)
    ensures Local(s.a) && Local(s.b)
  {
    hide Local, Pair;
  }

  lemma StepFrom(s: Sys, s': Sys, fa: nat, fb: nat)
    requires Step(Unbounded, s, s') && From(s, fa, fb)
    requires SysInv(s)
    ensures From(s', fa, fb) && BothOnward(s, s') && s'.gated == s.gated
    ensures SysInv(s')
  {
    StepKeeps(s, s');
    BothLocal(s);
    hide SysInv, Local, From, Enabled, Act;
    if StepAtA(Unbounded, s, s') {
      var act :| Enabled(Unbounded, s, act) && s' == Act(Unbounded, s, act);
      ActFrame(s, act);
      ActFrom(s, act, fa, fb);
    } else {
      var act :| Enabled(Unbounded, Swap(s), act) && Swap(s') == Act(Unbounded, Swap(s), act);
      ActFrame(Swap(s), act);
      MirrorFrom(s, fa, fb);
      MirrorFrom(s', fa, fb);
      ActFrom(Swap(s), act, fb, fa);
    }
  }

  lemma {:induction false} PathFrom(path: seq<Sys>, s: Sys, i: nat, fa: nat, fb: nat)
    requires Path(path, At(s)) && i < |path| && From(s, fa, fb)
    requires SysInv(s)
    ensures From(path[i], fa, fb) && path[i].gated == s.gated
    ensures SysInv(path[i])
  {
    hide Step, From, SysInv;
    if i > 0 {
      PathFrom(path, s, i - 1, fa, fb);
      assert Step(Unbounded, path[i - 1], path[i - 1 + 1]);
      StepFrom(path[i - 1], path[i], fa, fb);
    }
  }

  lemma {:induction false} PathOnward(path: seq<Sys>, s: Sys, i: nat, j: nat, fa: nat, fb: nat)
    requires Path(path, At(s)) && i <= j < |path| && From(s, fa, fb)
    requires SysInv(s)
    ensures BothOnward(path[i], path[j])
    decreases j - i
  {
    hide Step, From, SysInv;
    if i < j {
      PathOnward(path, s, i, j - 1, fa, fb);
      PathFrom(path, s, j - 1, fa, fb);
      assert Step(Unbounded, path[j - 1], path[j - 1 + 1]);
      StepFrom(path[j - 1], path[j], fa, fb);
    }
  }

  /** No more than a quarter of the number space has been numbered since the floors. */
  predicate Near(s: Sys, fa: nat, fb: nat) {
    && s.a.ep.rx.next <= fb + ONE_QUARTER && s.a.ep.tx.next < fa + HALF
    && s.b.ep.rx.next <= fa + ONE_QUARTER && s.b.ep.tx.next < fb + HALF
  }

  lemma NearIsYoung(s: Sys, fa: nat, fb: nat)
    requires From(s, fa, fb) && Near(s, fa, fb)
    ensures !Aged(s)
  {
    forall slot: nat | Occupied(s.a.ep.links, slot) && PipeOf(s.ba, IdAt(s.a.ep, slot)) != []
      ensures var f := PipeOf(s.ba, IdAt(s.a.ep, slot))[0]; f.num >= if f.Reliable? then fb else fa
    {
      PopFrom(s.ba, IdAt(s.a.ep, slot), fb, fa);
    }
    hide AcksFrom, PipesFrom, PipeOf;
  }

  /** A state reached by a run in which numbers could always be told apart. */
  ghost predicate Clean(s: Sys) {
    exists run: seq<Sys> :: CleanRun(run) && run[|run| - 1] == s
  }

  ghost predicate CleanRun(run: seq<Sys>) {
    IsRun(Unbounded, run) && run != [] && forall i | 0 <= i < |run| :: Distinguishable(run[i])
  }

  lemma YoungPath(path: seq<Sys>, s: Sys, s': Sys, i: nat, fa: nat, fb: nat)
    requires Path(path, At(s)) && path[|path| - 1] == s' && i < |path|
    requires s.gated && From(s, fa, fb) && Near(s', fa, fb)
    requires SysInv(s)
    ensures Distinguishable(path[i])
  {
    hide SysInv, From, Path, Aged, Distinguishable;
    PathIsThere(path, s);
    PathFrom(path, s, i, fa, fb);
    PathOnward(path, s, i, |path| - 1, fa, fb);
    NearIsYoung(path[i], fa, fb);
    MirrorFrom(path[i], fa, fb);
    NearIsYoung(Swap(path[i]), fb, fa);
    if !Distinguishable(path[i]) {
      IndistinctIsAged(path[i]);
    }
  }

  lemma PathIsThere(path: seq<Sys>, s: Sys)
    requires Path(path, At(s))
    ensures path != [] && path[0] == s
  {
  }

  /** While no more than a quarter of the number space is numbered, numbers can be told apart. */
  lemma CleanOn(s: Sys, s': Sys, fa: nat, fb: nat)
    requires Clean(s) && s.gated && From(s, fa, fb) && Near(s', fa, fb)
    requires Reachable(s', At(s))
    ensures Clean(s')
  {
    hide Step, Start, Distinguishable, From, Near, SysInv;
    var run: seq<Sys> :| CleanRun(run) && run[|run| - 1] == s;
    var path: seq<Sys> :| Path(path, At(s)) && path[|path| - 1] == s';
    RunKeeps(run, |run| - 1);
    var all := run + path[1..];
    forall i | 0 <= i < |all| ensures Distinguishable(all[i]) {
      if i >= |run| {
        YoungPath(path, s, s', i - |run| + 1, fa, fb);
      }
    }
    forall i | 0 <= i < |all| - 1 ensures Step(Unbounded, all[i], all[i + 1]) {
      if i < |run| - 1 {
        assert Step(Unbounded, run[i], run[i + 1]);
      } else {
        assert Step(Unbounded, path[i - (|run| - 1)], path[i - (|run| - 1) + 1]);
      }
    }
    assert CleanRun(all) && all[|all| - 1] == s';
  }
}
