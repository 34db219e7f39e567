/** No state is a dead end: from whatever state a run has come to, all accepted data can still be delivered. */
module Progress {
  import opened Numbering
  import opened Protocol
  import opened Invariants
  import opened Preservation
  import opened System
  import opened Truth
  import opened Credit
  import opened Stream
  import opened Runs
  import opened Guarantees
  import opened Scenarios
  import opened SendBuffer
  import opened HalfOpen

  // ------------------------------------------------------------------------ continuations

  /** A run that has come to `o` can go on to `s`. */
  ghost predicate Leads(o: Sys, s: Sys) {
    Reachable(o) && Reachable(s, At(o))
  }

  lemma RunThrough(o: Sys, s: Sys)
    requires Leads(o, s)
    ensures Reachable(s)
  {
    hide Step, Start;
    var run := RunTo(o);
    var more: seq<Sys> :| Path(more, At(o)) && more[|more| - 1] == s;
    var all := run + more[1..];
    forall i | 0 <= i < |all| - 1 ensures Step(Unbounded, all[i], all[i + 1]) {
      if i < |run| - 1 {
        assert Step(Unbounded, run[i], run[i + 1]);
      } else {
        assert Step(Unbounded, more[i - (|run| - 1)], more[i - (|run| - 1) + 1]);
      }
    }
    assert Path(all, Anew) && all[|all| - 1] == s;
  }

  lemma MirrorLeads(o: Sys, s: Sys)
    requires Leads(o, s)
    ensures Leads(Swap(o), Swap(s))
  {
    hide Reachable;
    ReachMirror(o);
    ReachMirror(s, At(o));
  }

  lemma GoOn(o: Sys, s: Sys, act: Action) returns (s': Sys)
    requires Enabled(Unbounded, s, act) && Leads(o, s)
    ensures s' == Act(Unbounded, s, act) && Leads(o, s')
  {
    hide Enabled, Act, Reachable;
    s' := Do(s, act, At(o));
  }

  lemma GoOnB(o: Sys, s: Sys, act: Action) returns (s': Sys)
    requires Enabled(Unbounded, Swap(s), act) && Leads(o, s)
    ensures s' == Swap(Act(Unbounded, Swap(s), act)) && Leads(o, s')
  {
    hide Enabled, Act, Reachable;
    s' := DoB(s, act, At(o));
  }

  ghost predicate Sound(s: Sys) {
    SysInv(s) && BothTidy(s) && Sized(s.a) && Sized(s.b) && s.a.ep.cfg.recvBuffer > 0 && s.b.ep.cfg.recvBuffer > 0
  }

  lemma LeadsToSound(o: Sys, s: Sys)
    requires Leads(o, s)
    ensures Sound(s)
  {
    hide *;
    RunThrough(o, s);
    BuffersPositive(s);
    ReachedIsSound(s);
    SoundIs(s);
  }

  lemma SoundIs(s: Sys)
    ensures SysInv(s) && BothTidy(s) && Sized(s.a) && Sized(s.b) && s.a.ep.cfg.recvBuffer > 0 && s.b.ep.cfg.recvBuffer > 0
            ==> Sound(s)
  {
    hide SysInv, BothTidy, Sized;
  }

  lemma BuffersPositive(s: Sys)
    requires Reachable(s)
    ensures s.a.ep.cfg.recvBuffer > 0 && s.b.ep.cfg.recvBuffer > 0
  {
    hide Reachable, IsRun;
    var run := RunTo(s);
    RecvBufferPositive(run, |run| - 1);
    ReachMirror(s);
    var mirror := RunTo(Swap(s));
    RecvBufferPositive(mirror, |mirror| - 1);
  }

  // ------------------------------------------------------------------- all links are given up

  lemma LastSlotIsTaken(e: Ep)
    requires e.links != []
    requires Inv(Unbounded, e)
    ensures Occupied(e.links, |e.links| - 1)
    ensures |RemoveLink(e, |e.links| - 1).links| < |e.links|
  {
    TrimExact(UnconfirmLink(e, |e.links| - 1).links[|e.links| - 1 := None]);
  }

  lemma RemoveIs(s: Sys, slot: nat)
    requires s.haltA.None? && Occupied(s.a.ep.links, slot)
    ensures Enabled(Unbounded, s, Remove(slot))
    ensures var s' := Act(Unbounded, s, Remove(slot));
            && s' == s.(a := s.a.(ep := RemoveLink(s.a.ep, slot)), dead := s'.dead)
            && s'.a.ep == s.a.ep.(tx := s'.a.ep.tx, links := s'.a.ep.links, idle := s'.a.ep.idle)
  {
    hide TxRequeue, Trim, Without, Total;
  }

  lemma LocalInv(s: Sys)
    requires Sound(s)
    ensures Inv(Unbounded, s.a.ep) && Inv(Unbounded, s.b.ep)
  {
    hide Inv, Pair, BothTidy, Sized;
  }

  lemma {:induction false} GiveUpLinks(o: Sys, s: Sys) returns (s': Sys)
    requires Leads(o, s) && s.haltA.None?
    ensures s' == s.(a := s.a.(ep := s'.a.ep), dead := s'.dead)
    ensures s'.a.ep == s.a.ep.(tx := s'.a.ep.tx, links := [], idle := [])
    ensures Leads(o, s')
    decreases |s.a.ep.links|
  {
    hide Leads, Inv, Sound, Act, Enabled, RemoveLink, Occupied;
    LeadsToSound(o, s);
    LocalInv(s);
    if s.a.ep.links == [] {
      NoLinkIsIdle(s.a.ep);
      s' := s;
    } else {
      var slot := |s.a.ep.links| - 1;
      LastSlotIsTaken(s.a.ep);
      RemoveIs(s, slot);
      var s1 := GoOn(o, s, Remove(slot));
      s' := GiveUpLinks(o, s1);
    }
  }

  lemma NoLinkIsIdle(e: Ep)
    requires e.links == []
    requires Inv(Unbounded, e)
    ensures e.idle == []
  {
    assert 0 < |e.idle| ==> Occupied(e.links, e.idle[0]);
  }

  // -------------------------------------------------------------------- one new link for both

  lemma {:induction false} Above(used: set<LinkId>) returns (l: LinkId)
    ensures forall x | x in used :: x < l
    decreases |used|
  {
    if used == {} {
      l := 0;
    } else {
      var x :| x in used;
      var m := Above(used - {x});
      l := Max(m, x + 1);
      forall y | y in used ensures y < l {
        assert y == x || y in used - {x};
      }
    }
  }

  /** Both endpoints have one link only, the same, and it carries nothing and never did. */
  ghost predicate Alone(s: Sys) {
    && Quiet(s, 0) && |s.a.ep.links| == 1 && |s.b.ep.links| == 1 && IdAt(s.a.ep, 0) !in s.dead
  }

  lemma AddIs(s: Sys, l: LinkId)
    requires s.haltA.None? && s.a.ep.links == [] && l !in s.a.hist.added
    ensures Enabled(Unbounded, s, Add(l, false, 1))
    ensures Act(Unbounded, s, Add(l, false, 1))
            == s.(a := Node(s.a.ep.(links := [Some(NewLink(l, false, 1))]), s.a.hist.(added := s.a.hist.added + {l})))
  {
    assert FreeSlot([]) == 0;
  }

  lemma Unused(s: Sys, l: LinkId)
    requires Sound(s) && l !in s.a.hist.added && l !in s.b.hist.added
    ensures PipeOf(s.ab, l) == [] && PipeOf(s.ba, l) == []
  {
    hide SysInv, Sized, WriterTidy;
  }

  lemma NewLinkForBoth(o: Sys, s: Sys) returns (s': Sys)
    requires Leads(o, s) && s.haltA.None? && s.haltB.None?
    requires s.a.ep.links == [] && s.b.ep.links == [] && s.a.ep.idle == [] && s.b.ep.idle == []
    ensures s' == s.(a := s'.a, b := s'.b)
    ensures s'.a == Node(s.a.ep.(links := s'.a.ep.links), s.a.hist.(added := s'.a.hist.added))
    ensures s'.b == Node(s.b.ep.(links := s'.b.ep.links), s.b.hist.(added := s'.b.hist.added))
    ensures Alone(s')
    ensures Leads(o, s')
  {
    hide Leads, Sound, Act, Enabled, PipeOf, Alone, NewLink;
    LeadsToSound(o, s);
    var l := Above(s.a.hist.added + s.b.hist.added + s.dead);
    Unused(s, l);
    AddIs(s, l);
    var s1 := GoOn(o, s, Add(l, false, 1));
    AddIs(Swap(s1), l);
    s' := GoOnB(o, s1, Add(l, false, 1));
    NewIsAlone(s', l);
  }

  lemma NewIsAlone(s: Sys, l: LinkId)
    requires s.haltA.None? && s.haltB.None? && s.a.ep.idle == [] && s.b.ep.idle == []
    requires s.a.ep.links == s.b.ep.links == [Some(NewLink(l, false, 1))]
    requires PipeOf(s.ab, l) == [] && PipeOf(s.ba, l) == [] && l !in s.dead
    ensures Alone(s)
  {
  }

  // ------------------------------------------------------------------- everything is resent

  /** A link that nothing was sent over holds no packet: what has not been received is queued. */
  lemma NothingIsOut(s: Sys)
    requires Alone(s)
    requires SysInv(s)
    ensures var tx, l := s.a.ep.tx, IdAt(s.a.ep, 0);
            && |tx.packets| <= tx.created
            && forall uid: nat | Kept(tx, uid) && !StatusOf(tx, uid).Received? ::
                 StatusOf(tx, uid).ResendQueued? && StatusOf(tx, uid).sentLink != l
  {
    hide LogMatches, WireTrue, RxMatches, AcksTrue, NothingForgotten, SenderOk, ReaderOk, InOrder, Conserved, Bounded, IdsAdded,
         RxOk, DistinctIds, PipeOf, NotStranded, Inv;
    InvParts(s.a.ep);
    NotUnderWay(s);
    var tx, l := s.a.ep.tx, IdAt(s.a.ep, 0);
    forall uid: nat | Kept(tx, uid) && !StatusOf(tx, uid).Received?
      ensures StatusOf(tx, uid).ResendQueued? && StatusOf(tx, uid).sentLink != l
    {
      OnlyLinkIsNew(tx, s.ab, s.b.ep.links, s.ba, s.dead, l, uid);
    }
  }

  lemma NotUnderWay(s: Sys)
    requires Alone(s)
    ensures forall uid: nat :: !UnderWay(s.ab, s.b.ep.links, s.ba, IdAt(s.a.ep, 0), uid)
  {
  }

  lemma OnlyLinkIsNew(tx: Tx, fwd: Pipes, links: seq<Option<Link>>, rev: Pipes, dead: set<LinkId>, l: LinkId, uid: nat)
    requires NotStranded(tx, fwd, links, rev, dead) && l !in dead && !UnderWay(fwd, links, rev, l, uid)
    requires Kept(tx, uid) && !StatusOf(tx, uid).Received?
    ensures LastLink(StatusOf(tx, uid)) != l
  {
  }

  /** All numbers before the oldest queued one have arrived. */
  lemma OldestIsNext(x: Node, y: Node, u: nat)
    requires TxOk(Unbounded, x.ep.tx) && RxOk(Unbounded, y.ep.rx) && NothingForgotten(x.ep.tx, y.ep.rx)
    requires x.ep.tx.resend != [] && u == x.ep.tx.resend[0]
    requires forall uid: nat | Kept(x.ep.tx, uid) && !StatusOf(x.ep.tx, uid).Received? :: StatusOf(x.ep.tx, uid).ResendQueued?
    ensures u <= y.ep.rx.next
  {
    var tx, rx := x.ep.tx, y.ep.rx;
    QueuedIsExact(tx.packets, Base(tx));
    assert u in tx.resend && forall n | n in tx.resend :: u <= n;
    assert !Got(rx, rx.next);
    assert Kept(tx, rx.next) ==> StatusOf(tx, rx.next).ResendQueued? ==> rx.next in tx.resend;
  }

  /** What `a` has to resend next, `b` does not refuse. */
  lemma OldestIsWelcome(s: Sys)
    requires Alone(s) && s.a.ep.tx.resend != []
    requires SysInv(s)
    ensures CanRetry(s.a.ep, 0)
    ensures HandleReceived(Unbounded, s.b.ep, 0, s.a.ep.tx.resend[0], OldestQueued(s.a.ep.tx)).Ok?
  {
    var tx := s.a.ep.tx;
    NothingIsOut(s);
    hide LogMatches, WireTrue, RxMatches, AcksTrue, NothingForgotten, SenderOk, ReaderOk, InOrder, Conserved, Bounded, IdsAdded,
         RxOk, TxOk, DistinctIds, PipeOf, NotStranded, Inv, HandleReceived, Slotted, Kept, Place;
    InvParts(s.a.ep);
    InvParts(s.b.ep);
    InvTxRx(s.a.ep);
    InvTxRx(s.b.ep);
    FrontIsQueued(Unbounded, tx);
    OldestIsNext(s.a, s.b, tx.resend[0]);
    OldestIsLogged(s.a.hist.log, tx);
    NotAhead(s.b.ep.rx, tx.resend[0]);
    RefusedOnly(s.b.ep, 0, tx.resend[0], OldestQueued(tx));
    NoFlowError(s.a, s.b, 0, tx.resend[0]);
  }

  lemma OldestIsLogged(log: seq<ReliableMsg>, tx: Tx)
    requires LogMatches(log, tx) && CanResend(tx)
    ensures tx.resend[0] < |log| && OldestQueued(tx) == log[tx.resend[0]]
    ensures Kept(tx, tx.resend[0]) && !StatusOf(tx, tx.resend[0]).Received?
  {
    assert Faithful(log[tx.resend[0]], StatusOf(tx, tx.resend[0]));
  }

  lemma NotAhead(rx: Rx, n: nat)
    requires n <= rx.next
    ensures !Place(Unbounded, rx, n).Refused?
  {
  }

  /** The writing half of `u'` is that of `u`, unless the peer has told that it does not read any more. */
  ghost predicate SameUser(u: User, u': User, peer: seq<ReliableMsg>) {
    u'.readOpen == u.readOpen && (ReceiveFinish !in peer ==> u' == u.(writeClosed := u'.writeClosed))
  }

  /** Only the receiving side of `y` and what messages do on arrival has changed. */
  ghost predicate HasReceived(y: Node, y': Node, peer: seq<ReliableMsg>) {
    y' == y.(ep := y'.ep) && y'.ep.tx == y.ep.tx && y'.ep.cfg == y.ep.cfg && SameUser(y.ep.user, y'.ep.user, peer)
  }

  lemma ResendOne(o: Sys, s: Sys) returns (s': Sys)
    requires Leads(o, s) && Alone(s) && s.a.ep.tx.resend != []
    ensures s' == s.(a := s.a.(ep := s.a.ep.(tx := s'.a.ep.tx)), b := s'.b, ab := s'.ab, ba := s'.ba)
    ensures |s'.a.ep.tx.resend| < |s.a.ep.tx.resend| && HasReceived(s.b, s'.b, s.a.hist.log)
    ensures Alone(s')
    ensures Leads(o, s')
  {
    LeadsToSound(o, s);
    assert SysInv(s) by { hide SysInv, BothTidy, Sized; }
    hide Sound, SysInv, Reachable, HandleReceived, OldestQueued, CanRetry, QuietAt, CanResend, Resettled;
    OldestIsWelcome(s);
    RetryIsPlain(s.a.ep, 0);
    var e, u, m, l := s.a.ep, s.a.ep.tx.resend[0], OldestQueued(s.a.ep.tx), IdAt(s.a.ep, 0);
    PlainNumbers(e);
    ResettledIsStale(e.tx, 0, l);
    s' := Retry(s, 0, At(o));
    RetryLogged(s);
    ArrivalUser(s.b.ep, 0, u, m);
  }

  lemma PlainNumbers(e: Ep)
    requires CanRetry(e, 0)
    ensures e.tx.next == e.tx.created
  {
  }

  lemma RetryLogged(s: Sys)
    requires CanResend(s.a.ep.tx)
    requires SysInv(s)
    ensures OldestQueued(s.a.ep.tx) in s.a.hist.log
  {
    hide Local, WireTrue, RxMatches, AcksTrue, NothingForgotten, NotStranded, InOrder, Conserved, Bounded, LogMatches;
    OldestIsLogged(s.a.hist.log, s.a.ep.tx);
  }

  /** Everything that was sent before is resent, received and acknowledged. */
  lemma {:induction false} ResendAll(o: Sys, s: Sys) returns (s': Sys)
    requires Leads(o, s) && Alone(s)
    ensures s' == s.(a := s.a.(ep := s.a.ep.(tx := s'.a.ep.tx)), b := s'.b, ab := s'.ab, ba := s'.ba)
    ensures s'.a.ep.tx.resend == [] && HasReceived(s.b, s'.b, s.a.hist.log)
    ensures Alone(s')
    ensures Leads(o, s')
    decreases |s.a.ep.tx.resend|
  {
    hide Leads, Alone;
    if s.a.ep.tx.resend == [] {
      s' := s;
    } else {
      var s1 := ResendOne(o, s);
      s' := ResendAll(o, s1);
    }
  }

  // ----------------------------------------------------------------- nothing is left to resend

  lemma NothingIsKept(num: Numbering, tx: Tx)
    requires TxOk(num, tx) && tx.resend == []
    requires forall uid: nat | Kept(tx, uid) && !StatusOf(tx, uid).Received? :: StatusOf(tx, uid).ResendQueued?
    ensures tx == Tx(tx.created, tx.next, [], 0, 0, [])
  {
    QueuedIsExact(tx.packets, Base(tx));
    assert tx.packets != [] ==> Kept(tx, Base(tx));
  }

  lemma AllArrived(s: Sys)
    requires Alone(s) && s.a.ep.tx.resend == []
    requires SysInv(s)
    ensures Level(s.a.ep, s.b.ep, s.a.ep.tx.next) && s.a.ep.tx.next == |s.a.hist.log|
  {
    NothingIsOut(s);
    hide WireTrue, AcksTrue, NotStranded, SenderOk, ReaderOk, InOrder, Conserved, Bounded, IdsAdded, Inv, Slotted, DistinctIds,
         RxOk, TxOk, LogMatches, NothingForgotten, RxMatches, Alone, Kept, StatusOf;
    InvParts(s.a.ep);
    InvTxRx(s.a.ep);
    InvTxRx(s.b.ep);
    LogLength(s.a.hist.log, s.a.ep.tx);
    NothingIsKept(Unbounded, s.a.ep.tx);
    EmptyMeansArrived(s.a.hist.log, s.a.ep.tx, s.b.ep.rx);
  }

  lemma MirrorIsAlone(s: Sys)
    ensures Alone(Swap(s)) == Alone(s) && Swap(Swap(s)) == s
  {
    hide Quiet;
    MirrorIsQuiet(s, 0);
    MirrorIsQuiet(Swap(s), 0);
  }

  /** Both directions are settled over a link of their own. */
  ghost predicate Even(s: Sys) {
    Alone(s) && Level(s.a.ep, s.b.ep, s.a.ep.tx.next) && Level(s.b.ep, s.a.ep, s.b.ep.tx.next)
  }

  lemma EvenIs(s: Sys)
    requires Even(s)
    ensures s.haltB.None? && s.a.ep.tx.packets == []
  {
  }

  /** What the writer at `a` still has to say, and that the reader at `b` is there. */
  ghost predicate SameTask(s: Sys, s': Sys) {
    && s'.a.hist.accepted == s.a.hist.accepted && s'.a.ep.cfg == s.a.ep.cfg && s'.b.ep.cfg == s.b.ep.cfg
    && s'.a.ep.user == s.a.ep.user.(writeClosed := s'.a.ep.user.writeClosed)
    && s'.b.ep.user.readOpen == s.b.ep.user.readOpen
  }

  lemma IsSound(s: Sys)
    requires Sound(s)
    ensures SysInv(s) && BothTidy(s)
  {
    hide SysInv, BothTidy, Sized;
  }

  lemma ReaderTells(s: Sys)
    requires BothTidy(s) && s.b.ep.user.readOpen
    ensures ReceiveFinish !in s.b.hist.log
  {
  }

  lemma EvenOut(o: Sys, s: Sys) returns (s': Sys)
    requires Leads(o, s) && s.haltA.None? && s.haltB.None? && s.b.ep.user.readOpen
    ensures Even(s') && SameTask(s, s')
    ensures Leads(o, s')
  {
    hide Leads, Alone, Sound, BothTidy, SysInv, Level;
    LeadsToSound(o, s);
    IsSound(s);
    ReaderTells(s);
    var s1 := GiveUpLinks(o, s);
    MirrorLeads(o, s1);
    var t1 := GiveUpLinks(Swap(o), Swap(s1));
    MirrorLeads(Swap(o), t1);
    var s2 := NewLinkForBoth(o, Swap(t1));
    var s3 := ResendAll(o, s2);
    MirrorLeads(o, s3);
    MirrorIsAlone(s3);
    var t3 := ResendAll(Swap(o), Swap(s3));
    MirrorLeads(Swap(o), t3);
    MirrorIsAlone(t3);
    s' := Swap(t3);
    LeadsToSound(o, s');
    IsSound(s');
    SwapKeeps(s');
    AllArrived(s');
    AllArrived(t3);
  }

  // --------------------------------------------------------------- what has arrived is consumed

  lemma TakeIs(s: Sys)
    requires s.haltB.None? && s.b.ep.rx.consumable != [] && s.b.ep.user.readOpen
    ensures Enabled(Unbounded, Swap(s), ConsumeNext)
    ensures var s' := Swap(Act(Unbounded, Swap(s), ConsumeNext));
            && s' == s.(b := s'.b)
            && s'.b.ep == s.b.ep.(rx := s'.b.ep.rx, user := s'.b.ep.user)
            && s'.b.ep.rx.next == s.b.ep.rx.next && s'.b.ep.rx.buffer == s.b.ep.rx.buffer
            && s'.b.ep.rx.consumable == s.b.ep.rx.consumable[1..] && s'.b.hist.log == s.b.hist.log
            && (if s.b.ep.rx.consumable[0].msg.SendFinish? then s'.b.hist.ended else s'.b.ep.user == s.b.ep.user)
  {
  }

  lemma {:induction false} ConsumeAll(o: Sys, s: Sys) returns (s': Sys)
    requires Leads(o, s) && s.haltB.None? && s.b.ep.user.readOpen
    ensures s' == s.(b := s'.b) && s'.b.ep == s.b.ep.(rx := s'.b.ep.rx, user := s'.b.ep.user)
    ensures s'.b.hist.log == s.b.hist.log
    ensures s'.b.ep.rx.next == s.b.ep.rx.next && s'.b.ep.rx.buffer == s.b.ep.rx.buffer
    ensures s'.b.hist.ended || (s'.b.ep.user == s.b.ep.user && s'.b.ep.rx.consumable == [])
    ensures Leads(o, s')
    decreases |s.b.ep.rx.consumable|
  {
    hide Leads, Enabled, Act;
    if s.b.ep.rx.consumable == [] {
      s' := s;
    } else {
      TakeIs(s);
      s' := GoOnB(o, s, ConsumeNext);
      if !s.b.ep.rx.consumable[0].msg.SendFinish? {
        s' := ConsumeAll(o, s');
      }
    }
  }

  // --------------------------------------------------------------------------- credit is returned

  /** All has been received and consumed. */
  ghost predicate Calm(s: Sys) {
    Even(s) && s.b.ep.rx.consumable == [] && s.b.ep.user.readOpen
  }

  /** Credit, once everything has arrived and was consumed. */
  lemma CreditIs(s: Sys)
    requires s.b.ep.rx.next == |s.a.hist.log| && s.b.ep.rx.buffer == [] && s.b.ep.rx.consumable == []
    requires s.a.ep.rx.next == |s.b.hist.log|
    requires SysInv(s)
    ensures s.b.ep.rx.size == 0 <= s.b.ep.rx.consumed == s.a.ep.unconsumed <= s.a.ep.cfg.remoteRecvBuffer == s.b.ep.cfg.recvBuffer
    ensures s.b.ep.cfg.recvBuffer < MODULUS && s.a.ep.rx.size <= s.a.ep.cfg.recvBuffer
    ensures MissingAt(Payload, s.a.hist.log, s.b.ep.rx) == 0 && MissingAt(Returned, s.b.hist.log, s.a.ep.rx) == 0
    ensures Conserved(s.a, s.b) && Bounded(s.a, s.b)
  {
    hide WireTrue, AcksTrue, NotStranded, SenderOk, ReaderOk, InOrder, IdsAdded, Inv, Slotted, DistinctIds, RxOk, TxOk, LogMatches,
         NothingForgotten, RxMatches, MissingAt;
    InvTxRx(s.a.ep);
    InvTxRx(s.b.ep);
    ArrivedMeansNothingMissing(Payload, s.a.hist.log, s.b.ep.rx);
    ArrivedMeansNothingMissing(Returned, s.b.hist.log, s.a.ep.rx);
  }

  lemma LogLengths(s: Sys)
    requires SysInv(s)
    ensures |s.a.hist.log| == s.a.ep.tx.created && |s.b.hist.log| == s.b.ep.tx.created
  {
    hide Local, WireTrue, RxMatches, AcksTrue, NothingForgotten, NotStranded, InOrder, Conserved, Bounded;
  }

  lemma CalmCredit(o: Sys, s: Sys)
    requires Leads(o, s) && Calm(s)
    ensures s.b.ep.rx.size == 0 <= s.b.ep.rx.consumed == s.a.ep.unconsumed <= s.a.ep.cfg.remoteRecvBuffer == s.b.ep.cfg.recvBuffer
    ensures 0 < s.b.ep.cfg.recvBuffer < MODULUS && s.a.ep.rx.size <= s.a.ep.cfg.recvBuffer
    ensures !ConsumeAckRequired(s.b.ep) ==> Drained(s.a, s.b)
    ensures Conserved(s.a, s.b) && Bounded(s.a, s.b)
  {
    LeadsToSound(o, s);
    assert s.b.ep.cfg.recvBuffer > 0 by { hide SysInv, BothTidy, Sized; }
    IsSound(s);
    hide Leads, Sound, BothTidy, SysInv, Alone, MissingAt, Conserved, Bounded, ConsumeAckRequired;
    LogLengths(s);
    CreditIs(s);
  }

  /** `a` is told of what was consumed, if it has to be. */
  lemma ReturnCredit(o: Sys, s: Sys) returns (s': Sys)
    requires Leads(o, s) && Calm(s)
    ensures Calm(s') && !ConsumeAckRequired(s'.b.ep) && SameTask(s, s')
    ensures Leads(o, s')
  {
    if ConsumeAckRequired(s.b.ep) {
      hide Reachable, Quiet, Due, Welcome;
      CreditIsDue(o, s);
      s' := ExchangeB(s, 0, s.b.ep.tx.next, OfConsumed, At(o));
      assert s.a.ep.rx.consumable + [] == s.a.ep.rx.consumable;
    } else {
      s' := s;
    }
  }

  lemma CreditIsDue(o: Sys, s: Sys)
    requires Leads(o, s) && Calm(s) && ConsumeAckRequired(s.b.ep)
    ensures Due(Unbounded, s.b.ep, OfConsumed) && Welcome(s.a.ep, MessageOf(s.b.ep, OfConsumed))
  {
    hide Leads, Alone, Drained, Conserved, Bounded;
    CalmCredit(o, s);
  }

  // ------------------------------------------------------------------------- the queue is sent

  lemma QueueIsSized(s: Sys)
    requires s.b.ep.user.readOpen && Sound(s)
    ensures forall k | 0 <= k < |s.a.ep.user.writeQueue| :: |s.a.ep.user.writeQueue[k]| <= MaxSendSize(s.a.ep.cfg.remoteRecvBuffer)
    ensures !s.a.ep.user.writeOpen ==> s.a.ep.user.writeQueue == []
  {
    hide SysInv, DataPart, MaxSendSize, OnAddedLinks;
    var q := s.a.ep.user.writeQueue;
    forall k | 0 <= k < |q| ensures |q[k]| <= MaxSendSize(s.a.ep.cfg.remoteRecvBuffer) {
      assert q[k] == s.a.hist.accepted[|DataPart(s.a.hist.log)| + k];
    }
  }

  lemma HeadIsDue(s: Sys)
    requires s.a.ep.user.writeOpen && s.a.ep.user.writeQueue != [] && s.a.ep.tx.packets == []
    requires |s.a.ep.user.writeQueue[0]| <= TxSpace(s.a.ep)
    ensures Due(Unbounded, s.a.ep, OfData) && MessageOf(s.a.ep, OfData) == Data(s.a.ep.user.writeQueue[0])
  {
    hide TxSpace;
  }

  lemma MaxSendIsLess(recvBuffer: nat)
    ensures recvBuffer > 0 ==> MaxSendSize(recvBuffer) <= recvBuffer
  {
  }

  /** The next data fits, at both ends. */
  lemma HeadFits(o: Sys, s: Sys)
    requires Leads(o, s) && Calm(s) && !ConsumeAckRequired(s.b.ep)
    requires s.a.ep.user.writeQueue != [] && |s.a.ep.user.writeQueue[0]| <= s.a.ep.cfg.sendBuffer
    ensures Due(Unbounded, s.a.ep, OfData) && MessageOf(s.a.ep, OfData) == Data(s.a.ep.user.writeQueue[0])
    ensures Welcome(s.b.ep, MessageOf(s.a.ep, OfData))
  {
    hide *;
    LeadsToSound(o, s);
    CalmIs(s);
    QueueIsSized(s);
    CalmCredit(o, s);
    MaxSendIsLess(s.b.ep.cfg.recvBuffer);
    WindowNeverDeadlocks(s.a, s.b, s.a.ep.user.writeQueue[0]);
    HeadIsDue(s);
    RoomIsWelcome(s.b.ep, s.a.ep.user.writeQueue[0]);
  }

  lemma CalmIs(s: Sys)
    requires Calm(s)
    ensures s.b.ep.user.readOpen && s.a.ep.tx.packets == []
  {
    hide Alone;
  }

  lemma RoomIsWelcome(e: Ep, d: Bytes)
    requires e.rx.size + |d| <= e.cfg.recvBuffer
    ensures Welcome(e, Data(d))
  {
  }

  /** The next data is sent, received and consumed. */
  lemma SendHead(o: Sys, s: Sys) returns (s': Sys)
    requires Leads(o, s) && Calm(s) && !ConsumeAckRequired(s.b.ep)
    requires s.a.ep.user.writeQueue != [] && |s.a.ep.user.writeQueue[0]| <= s.a.ep.cfg.sendBuffer
    ensures Calm(s') && s'.a.hist.accepted == s.a.hist.accepted && s'.a.ep.cfg == s.a.ep.cfg && s'.b.ep.cfg == s.b.ep.cfg
    ensures s'.a.ep.user == s.a.ep.user.(writeQueue := s.a.ep.user.writeQueue[1..])
    ensures Leads(o, s')
  {
    var d, n := s.a.ep.user.writeQueue[0], s.a.ep.tx.next;
    HeadFits(o, s);
    hide Reachable, Quiet, ConsumeAckRequired, Due, Enabled, Act, Welcome;
    var s1 := Exchange(s, 0, n, OfData, At(o));
    assert [] + [Arrival(n, Data(d))] == [Arrival(n, Data(d))];
    TakeIs(s1);
    s' := GoOnB(o, s1, ConsumeNext);
    assert [Arrival(n, Data(d))][1..] == [];
    TakenIsQuiet(s1, s', 0);
  }

  predicate QueueFits(x: Node) {
    forall k | 0 <= k < |x.ep.user.writeQueue| :: |x.ep.user.writeQueue[k]| <= x.ep.cfg.sendBuffer
  }

  lemma {:induction false} SendQueue(o: Sys, s: Sys) returns (s': Sys)
    requires Leads(o, s) && Calm(s) && QueueFits(s.a)
    ensures Calm(s') && s'.a.hist.accepted == s.a.hist.accepted && s'.a.ep.cfg == s.a.ep.cfg
    ensures s'.a.ep.user.writeQueue == [] && s'.a.ep.user.writeOpen == s.a.ep.user.writeOpen
    ensures s'.a.ep.user.sendFinishSent == s.a.ep.user.sendFinishSent
    ensures Leads(o, s')
    decreases |s.a.ep.user.writeQueue|
  {
    hide Leads, Even, ConsumeAckRequired;
    if s.a.ep.user.writeQueue == [] {
      s' := s;
    } else {
      var s1 := ReturnCredit(o, s);
      assert s1.a.ep.user.writeQueue[0] == s.a.ep.user.writeQueue[0];
      var s2 := SendHead(o, s1);
      s' := SendQueue(o, s2);
    }
  }

  // ----------------------------------------------------------------------------- and the end

  /** When everything was sent, received and consumed by a reader that is there, everything was delivered. */
  lemma CalmIsDelivered(o: Sys, s: Sys)
    requires Leads(o, s) && Calm(s) && s.a.ep.user.writeQueue == []
    ensures s.b.hist.delivered == s.a.hist.accepted
    ensures SendFinish !in s.a.hist.log && (s.a.ep.user.writeOpen || !s.a.ep.user.sendFinishSent)
  {
    LeadsToSound(o, s);
    IsSound(s);
    hide Leads, Sound, Alone, OnAddedLinks;
    LogLengths(s);
    OrderHere(s);
    AllConsumed(s.a.hist.log, s.b.hist.consumed, s.b.ep.rx);
    ReadHere(s);
    hide SysInv, DataPart;
    assert DataPart(s.a.hist.log) + [] == DataPart(s.a.hist.log);
  }

  lemma OrderHere(s: Sys)
    requires SysInv(s)
    ensures InOrder(s.a.hist.log, s.b.hist.consumed, s.b.ep.rx)
  {
    hide Local, Direction, Conserved, Bounded, InOrder;
  }

  lemma ReadHere(s: Sys)
    requires SysInv(s)
    ensures ReaderOk(s.b.hist.consumed, s.b.hist.delivered, s.b.hist.ended, s.b.ep.user.readOpen)
    ensures SenderOk(s.a.hist.log, s.a.hist.accepted, s.a.ep.user)
  {
    hide Inv, Pair, ReaderOk, SenderOk, IdsAdded;
  }

  lemma AllConsumed(log: seq<ReliableMsg>, consumed: seq<ReliableMsg>, rx: Rx)
    requires InOrder(log, consumed, rx) && rx.next == |log| && rx.consumable == []
    ensures DataPart(consumed) == DataPart(log) && (SendFinish in log ==> SendFinish in consumed)
  {
    assert Upto(log, rx.next) == log;
    assert consumed + Msgs([]) == consumed;
    DataOfOrdered(log);
    OrderedStays(log, SendFinish);
  }

  lemma {:induction false} OrderedStays(log: seq<ReliableMsg>, m: ReliableMsg)
    requires Ordered(m)
    ensures m in log ==> m in OrderedPart(log)
  {
    if log != [] {
      OrderedStays(log[1..], m);
    }
  }

  /** The end of the stream is sent, received and consumed. */
  lemma SendEnd(o: Sys, s: Sys) returns (s': Sys)
    requires Leads(o, s) && Calm(s) && !s.a.ep.user.writeOpen && !s.a.ep.user.sendFinishSent
    ensures s'.a.hist.accepted == s.a.hist.accepted && s'.b.hist.ended
    ensures Leads(o, s')
  {
    var n := s.a.ep.tx.next;
    CalmCredit(o, s);
    hide Reachable, Quiet, Enabled, Act;
    var s1 := Exchange(s, 0, n, OfSendFinish, At(o));
    assert [] + [Arrival(n, SendFinish)] == [Arrival(n, SendFinish)];
    TakeIs(s1);
    s' := GoOnB(o, s1, ConsumeNext);
  }

  lemma EndedIsDelivered(o: Sys, s: Sys)
    requires Leads(o, s) && s.b.hist.ended
    ensures s.b.hist.delivered == s.a.hist.accepted
  {
    hide IsRun, Leads, Reachable;
    RunThrough(o, s);
    var run := RunTo(s);
    EndToEndDelivery(run, |run| - 1);
  }

  /** The task is done: all accepted data is delivered and, if the writer has finished, the end is reported. */
  ghost predicate Done(s: Sys, s': Sys) {
    && s'.a.hist.accepted == s'.b.hist.delivered == s.a.hist.accepted
    && (!s.a.ep.user.writeOpen ==> s'.b.hist.ended)
  }

  lemma DeliverQueue(o: Sys, s: Sys) returns (s': Sys)
    requires Leads(o, s) && Calm(s) && QueueFits(s.a)
    ensures Done(s, s') && Leads(o, s')
  {
    hide Leads, Calm;
    s' := SendQueue(o, s);
    CalmIsDelivered(o, s');
    if !s.a.ep.user.writeOpen {
      s' := SendEnd(o, s');
      EndedIsDelivered(o, s');
    }
  }

  /** From every state in which no endpoint has halted and the reader is there, if all queued data fits into the send
      buffer, the run can go on until all accepted data is delivered and, if the writer has finished, the end is reported. */
  lemma DeliveryStaysPossible(s: Sys) returns (s': Sys)
    requires s.haltA.None? && s.haltB.None? && s.b.ep.user.readOpen && QueueFits(s.a)
    requires Reachable(s)
    ensures Done(s, s') && Reachable(s', At(s))
  {
    hide Reachable, Calm, Even;
    Stay(s);
    var s1 := EvenOut(s, s);
    EvenIs(s1);
    s' := ConsumeAll(s, s1);
    if s'.b.hist.ended {
      EndedIsDelivered(s, s');
    } else {
      EvenIsCalm(s1, s');
      s' := DeliverQueue(s, s');
    }
  }

  lemma EvenIsCalm(s: Sys, s': Sys)
    requires Even(s) && s.b.ep.user.readOpen && s' == s.(b := s'.b) && s'.b.ep == s.b.ep.(rx := s'.b.ep.rx)
    requires s'.b.ep.rx.next == s.b.ep.rx.next && s'.b.ep.rx.buffer == s.b.ep.rx.buffer && s'.b.ep.rx.consumable == []
    ensures Calm(s')
  {
    TakenIsQuiet(s, s', 0);
    hide Quiet;
  }

  lemma StepKeepsCfg(s: Sys, s': Sys)
    requires Step(Unbounded, s, s')
    ensures s'.a.ep.cfg == s.a.ep.cfg
  {
    hide Enabled, Act;
    if StepAtA(Unbounded, s, s') {
      var act :| Enabled(Unbounded, s, act) && s' == Act(Unbounded, s, act);
      ActFrame(s, act);
    } else {
      var act :| Enabled(Unbounded, Swap(s), act) && Swap(s') == Act(Unbounded, Swap(s), act);
      ActFrame(Swap(s), act);
    }
  }

  lemma {:induction false} PathKeepsCfg(run: seq<Sys>, s: Sys, i: nat)
    requires Path(run, At(s)) && i < |run|
    ensures run[i].a.ep.cfg == s.a.ep.cfg
  {
    hide Step;
    if i > 0 {
      PathKeepsCfg(run, s, i - 1);
      assert Step(Unbounded, run[i - 1], run[i - 1 + 1]);
      StepKeepsCfg(run[i - 1], run[i]);
    }
  }

  /** What was delivered had been small enough to be sent. */
  lemma DeliveredFits(s: Sys, s': Sys)
    requires s.b.ep.user.readOpen && Leads(s, s') && Done(s, s')
    ensures QueueFits(s.a)
  {
    hide IsRun, SysInv, DataPart, Sized, Step;
    assert BothTidy(s) by { ReachedIsSound(s); }
    var path: seq<Sys> :| Path(path, At(s)) && path[|path| - 1] == s';
    PathKeepsCfg(path, s, |path| - 1);
    RunThrough(s, s');
    var run := RunTo(s');
    EndToEndDelivery(run, |run| - 1);
    var q, n := s.a.ep.user.writeQueue, |DataPart(s.a.hist.log)|;
    forall k | 0 <= k < |q| ensures |q[k]| <= s.a.ep.cfg.sendBuffer {
      assert q[k] == s.a.hist.accepted[n + k];
      SentDataFits(run, |run| - 1, n + k);
    }
  }

  /** The exact condition: in a state that was reached, without a halt and with the reader there, the run can go on until
      all accepted data is delivered and, if the writer has finished, the end is reported, if and only if every message
      in the queue fits into the send buffer. */
  lemma DeliveryPossibleIff(s: Sys)
    requires s.haltA.None? && s.haltB.None? && s.b.ep.user.readOpen
    requires Reachable(s)
    ensures (exists s': Sys :: Reachable(s', At(s)) && Done(s, s')) <==> QueueFits(s.a)
  {
    hide Reachable, QueueFits, Done;
    if QueueFits(s.a) {
      var s' := DeliveryStaysPossible(s);
    }
    if s': Sys :| Reachable(s', At(s)) && Done(s, s') {
      DeliveredFits(s, s');
    }
  }
}
