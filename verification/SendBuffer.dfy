/** Messages that are accepted but larger than the sender's own buffer. */
module SendBuffer {
  import opened Numbering
  import opened Protocol
  import opened Invariants
  import opened System
  import opened Stream
  import opened Runs
  import opened Guarantees
  import opened Scenarios

  /** What is accepted: a single byte always, and else what fits twice into the receive buffer of the peer with a byte to
      spare each time. */
  lemma AcceptedIff(recvBuffer: nat, size: nat)
    ensures size <= MaxSendSize(recvBuffer) <==> size <= 1 || 2 * (size + 1) <= recvBuffer
  {
  }

  // ------------------------------------------------------------ what is ever sent is small enough

  /** All data taken from the user is within the accepted size, all data sent within the send buffer. */
  ghost predicate Sized(x: Node) {
    && (forall i | 0 <= i < |x.hist.accepted| :: |x.hist.accepted[i]| <= MaxSendSize(x.ep.cfg.remoteRecvBuffer))
    && (forall i | 0 <= i < |x.hist.log| :: Size(x.hist.log[i]) <= x.ep.cfg.sendBuffer)
  }

  lemma SpaceIsWithinBuffer(e: Ep)
    requires Inv(Unbounded, e)
    ensures TxSpace(e) <= e.cfg.sendBuffer
  {
    RxNonNegative(e);
    hide Inv;
  }

  lemma ActKeepsSized(s: Sys, act: Action)
    requires Enabled(Unbounded, s, act)
    requires TxSpace(s.a.ep) <= s.a.ep.cfg.sendBuffer && Sized(s.a) && Sized(s.b)
    ensures Sized(Act(Unbounded, s, act).a) && Act(Unbounded, s, act).b == s.b
  {
    ActFrame(s, act);
    if act.SendNew? {
      SentIsSmall(s.a.ep, act.slot, act.kind);
    } else if act.Accept? {
      AcceptedIsSmall(s, act.data);
    }
    hide Enabled, Act, MessageOf, MaxSendSize;
  }

  lemma SentIsSmall(e: Ep, slot: nat, kind: SendKind)
    requires CanSend(Unbounded, e, slot, kind)
    ensures Size(MessageOf(e, kind)) <= TxSpace(e)
  {
  }

  lemma AcceptedIsSmall(s: Sys, data: Bytes)
    requires Enabled(Unbounded, s, Accept(data))
    ensures |data| <= MaxSendSize(s.a.ep.cfg.remoteRecvBuffer)
  {
  }

  lemma LocalHere(s: Sys)
    requires SysInv(s)
    ensures Inv(Unbounded, s.a.ep) && Inv(Unbounded, s.b.ep)
  {
    hide Inv, Pair;
  }

  lemma StepKeepsSized(s: Sys, s': Sys)
    requires Step(Unbounded, s, s') && Sized(s.a) && Sized(s.b)
    requires SysInv(s)
    ensures Sized(s'.a) && Sized(s'.b)
  {
    LocalHere(s);
    hide SysInv, Enabled, Act, Inv, TxSpace, Sized;
    SpaceIsWithinBuffer(s.a.ep);
    SpaceIsWithinBuffer(s.b.ep);
    if StepAtA(Unbounded, s, s') {
      var act :| Enabled(Unbounded, s, act) && s' == Act(Unbounded, s, act);
      ActKeepsSized(s, act);
    } else {
      var act :| Enabled(Unbounded, Swap(s), act) && Swap(s') == Act(Unbounded, Swap(s), act);
      ActKeepsSized(Swap(s), act);
    }
  }

  lemma StartIsSized(s: Sys)
    requires Start(s)
    ensures Sized(s.a) && Sized(s.b)
  {
  }

  lemma {:induction false} RunStaysSized(run: seq<Sys>, i: nat)
    requires IsRun(Unbounded, run) && i < |run|
    ensures Sized(run[i].a) && Sized(run[i].b)
  {
    hide *;
    RunStarts(run);
    if i == 0 {
      StartIsSized(run[0]);
    } else {
      RunHasSteps(run, i);
      RunStaysSized(run, i - 1);
      RunKeeps(run, i - 1);
      StepKeepsSized(run[i - 1], run[i]);
    }
  }

  lemma {:induction false} DataIsSized(log: seq<ReliableMsg>, limit: nat)
    requires forall i | 0 <= i < |log| :: Size(log[i]) <= limit
    ensures forall k | 0 <= k < |DataPart(log)| :: |DataPart(log)[k]| <= limit
  {
    if log != [] {
      DataIsSized(log[1..], limit);
      assert DataPart(log) == (if log[0].Data? then [log[0].bytes] else []) + DataPart(log[1..]);
    }
  }

  /** In every run, all data ever sent is within the accepted size and within the send buffer. */
  lemma SentDataFits(run: seq<Sys>, i: nat, k: nat)
    requires IsRun(Unbounded, run) && i < |run| && k < |DataPart(run[i].a.hist.log)|
    ensures Fits(run[i].a.ep.cfg, DataPart(run[i].a.hist.log)[k])
  {
    var x := run[i].a;
    RunStaysSized(run, i);
    RunKeeps(run, i);
    hide IsRun, DataPart;
    SentIsAccepted(run[i]);
    DataIsSized(x.hist.log, x.ep.cfg.sendBuffer);
    assert DataPart(x.hist.log)[k] == x.hist.accepted[k];
  }

  lemma SentIsAccepted(s: Sys)
    requires SysInv(s)
    ensures DataPart(s.a.hist.log) <= s.a.hist.accepted
    ensures s.a.ep.user.writeOpen ==> DataPart(s.a.hist.log) + s.a.ep.user.writeQueue == s.a.hist.accepted
  {
    hide Inv, Pair, DataPart, FinishLast, ReaderOk;
  }

  // ------------------------------------------------------------ what is too big blocks the rest

  /** The next data is larger than the send buffer. */
  predicate TooBig(x: Node) {
    x.ep.user.writeOpen && x.ep.user.writeQueue != [] && |x.ep.user.writeQueue[0]| > x.ep.cfg.sendBuffer
  }

  lemma ControlIsNoData(log: seq<ReliableMsg>, m: ReliableMsg)
    requires !m.Data?
    ensures DataPart(log + [m]) == DataPart(log)
  {
    DataAppend(log, [m]);
    assert DataPart([m]) == [];
  }

  lemma ActKeepsBlocked(s: Sys, act: Action)
    requires Enabled(Unbounded, s, act)
    requires TxSpace(s.a.ep) <= s.a.ep.cfg.sendBuffer && (TooBig(s.a) || !s.a.ep.user.writeOpen)
    ensures var s' := Act(Unbounded, s, act);
            && (TooBig(s'.a) || !s'.a.ep.user.writeOpen)
            && DataPart(s'.a.hist.log) == DataPart(s.a.hist.log) && s'.b == s.b
  {
    ActFrame(s, act);
    if act.SendNew? {
      NoDataIsDue(s.a, act.slot, act.kind);
      ControlIsNoData(s.a.hist.log, MessageOf(s.a.ep, act.kind));
    } else if act.WriteEnd? {
      EndsOnlyWhenEmpty(s);
    }
    hide Enabled, Act, MessageOf, DataPart, TxSpace;
  }

  lemma NoDataIsDue(x: Node, slot: nat, kind: SendKind)
    requires CanSend(Unbounded, x.ep, slot, kind) && TxSpace(x.ep) <= x.ep.cfg.sendBuffer
    requires TooBig(x) || !x.ep.user.writeOpen
    ensures !kind.OfData? && !MessageOf(x.ep, kind).Data?
  {
    hide TxSpace;
  }

  lemma EndsOnlyWhenEmpty(s: Sys)
    requires Enabled(Unbounded, s, WriteEnd)
    ensures s.a.ep.user.writeQueue == []
  {
  }

  lemma StepKeepsBlocked(s: Sys, s': Sys)
    requires Step(Unbounded, s, s') && (TooBig(s.a) || !s.a.ep.user.writeOpen)
    requires SysInv(s)
    ensures TooBig(s'.a) || !s'.a.ep.user.writeOpen
    ensures DataPart(s'.a.hist.log) == DataPart(s.a.hist.log)
  {
    LocalHere(s);
    hide SysInv, Enabled, Act, Inv, TxSpace, TooBig;
    SpaceIsWithinBuffer(s.a.ep);
    if StepAtA(Unbounded, s, s') {
      var act :| Enabled(Unbounded, s, act) && s' == Act(Unbounded, s, act);
      ActKeepsBlocked(s, act);
    } else {
      var act :| Enabled(Unbounded, Swap(s), act) && Swap(s') == Act(Unbounded, Swap(s), act);
      ActFrame(Swap(s), act);
    }
  }

  lemma {:induction false} StaysBlocked(run: seq<Sys>, i: nat, j: nat)
    requires IsRun(Unbounded, run) && i <= j < |run| && TooBig(run[i].a)
    ensures TooBig(run[j].a) || !run[j].a.ep.user.writeOpen
    ensures DataPart(run[j].a.hist.log) == DataPart(run[i].a.hist.log)
    decreases j - i
  {
    hide *;
    if i < j {
      RunHasSteps(run, j);
      hide TooBig;
      StaysBlocked(run, i, j - 1);
      RunKeeps(run, j - 1);
      StepKeepsBlocked(run[j - 1], run[j]);
    }
  }

  /** Once a message larger than the send buffer is next, no data is sent any more for the rest of the run: the peer gets
      nothing beyond what was sent before, and no clean end of the stream is ever reported. */
  lemma TooBigBlocksForGood(run: seq<Sys>, i: nat, j: nat)
    requires IsRun(Unbounded, run) && i <= j < |run| && TooBig(run[i].a)
    ensures DataPart(run[j].a.hist.log) == DataPart(run[i].a.hist.log)
    ensures run[j].b.hist.delivered <= DataPart(run[i].a.hist.log) && !run[j].b.hist.ended
  {
    StaysBlocked(run, i, j);
    RunKeeps(run, i);
    RunKeeps(run, j);
    AcceptedGrows(run, i, j);
    EndToEndDelivery(run, j);
    hide SysInv, IsRun, DataPart;
    SentIsAccepted(run[i]);
  }

  lemma {:induction false} AcceptedGrows(run: seq<Sys>, i: nat, j: nat)
    requires IsRun(Unbounded, run) && i <= j < |run|
    ensures run[i].a.hist.accepted <= run[j].a.hist.accepted
    decreases j - i
  {
    hide Act, Enabled, IsRun;
    if i < j {
      AcceptedGrows(run, i, j - 1);
      RunHasSteps(run, j);
      var s, s' := run[j - 1], run[j];
      if StepAtA(Unbounded, s, s') {
        var act :| Enabled(Unbounded, s, act) && s' == Act(Unbounded, s, act);
        ActFrame(s, act);
      } else {
        var act :| Enabled(Unbounded, Swap(s), act) && Swap(s') == Act(Unbounded, Swap(s), act);
        ActFrame(Swap(s), act);
      }
    }
  }

  // ------------------------------------------------------------------------ when it happens

  /** A writer can get stuck in this way exactly when the send buffer is smaller than what is accepted. */
  lemma WriterGetsStuckIff(ca: Cfg, cb: Cfg, gated: bool)
    requires Matching(ca, cb)
    ensures (exists s: Sys :: Reachable(s) && s.a.ep.cfg == ca && s.b.ep.cfg == cb && s.gated == gated && TooBig(s.a))
            <==> ca.sendBuffer < MaxSendSize(ca.remoteRecvBuffer)
  {
    hide *;
    if ca.sendBuffer < MaxSendSize(ca.remoteRecvBuffer) {
      var s := WriterGetsStuck(ca, cb, gated);
    }
    forall s: Sys | Reachable(s) && s.a.ep.cfg == ca && TooBig(s.a)
      ensures ca.sendBuffer < MaxSendSize(ca.remoteRecvBuffer)
    {
      StuckIsBig(s);
    }
  }

  lemma WriterGetsStuck(ca: Cfg, cb: Cfg, gated: bool) returns (s: Sys)
    requires Matching(ca, cb) && ca.sendBuffer < MaxSendSize(ca.remoteRecvBuffer)
    ensures Reachable(s) && s.a.ep.cfg == ca && s.b.ep.cfg == cb && s.gated == gated && TooBig(s.a)
  {
    hide MaxSendSize, Reachable, Enabled, Act;
    s := Connected(ca, cb, gated);
    var data: Bytes := seq(MaxSendSize(ca.remoteRecvBuffer), _ => 0);
    AcceptIs(s, data);
    s := Do(s, Accept(data));
  }

  lemma StuckIsBig(s: Sys)
    requires Reachable(s) && TooBig(s.a)
    ensures s.a.ep.cfg.sendBuffer < MaxSendSize(s.a.ep.cfg.remoteRecvBuffer)
  {
    var run: seq<Sys> :| IsRun(Unbounded, run) && run[|run| - 1] == s;
    hide IsRun, SysInv, DataPart, MaxSendSize;
    RunStarts(run);
    RunStaysSized(run, |run| - 1);
    RunKeeps(run, |run| - 1);
    SentIsAccepted(s);
    assert s.a.hist.accepted[|DataPart(s.a.hist.log)|] == s.a.ep.user.writeQueue[0];
  }
}
