/** Credit is returned in full and in bulk: what was consumed is returned exactly once, and while the reader is there no
    message returns less than a tenth of the receive buffer. */
module Returns {
  import opened Numbering
  import opened Protocol
  import opened System
  import opened Truth
  import opened Credit
  import opened Runs
  import opened Guarantees

  /** The worth of all messages. */
  function Sum(kind: Kind, ms: seq<ReliableMsg>): nat {
    if ms == [] then 0 else Sum(kind, ms[..|ms| - 1]) + Worth(kind, ms[|ms| - 1])
  }

  function Returns(log: seq<ReliableMsg>): nat {
    if log == [] then 0 else Returns(log[..|log| - 1]) + if log[|log| - 1].Consumed? then 1 else 0
  }

  /** The least that is returned at a time. */
  function Bulk(x: Node): nat {
    if x.ep.user.readOpen then x.ep.cfg.recvBuffer / 10 + 1 else 1
  }

  /** All bytes consumed have been returned or will be; and every return is of some size. */
  ghost predicate Balanced(x: Node) {
    && Sum(Returned, x.hist.log) + x.ep.rx.consumed == Sum(Payload, x.hist.consumed)
    && InBulk(x.hist.log, Bulk(x))
  }

  ghost predicate InBulk(log: seq<ReliableMsg>, least: nat) {
    forall i | 0 <= i < |log| && log[i].Consumed? :: log[i].count >= least
  }

  lemma SumSnoc(kind: Kind, ms: seq<ReliableMsg>, m: ReliableMsg)
    ensures Sum(kind, ms + [m]) == Sum(kind, ms) + Worth(kind, m)
  {
    assert (ms + [m])[..|ms + [m]| - 1] == ms;
  }

  // ------------------------------------------------------------------------------ the steps

  lemma SendParts(e: Ep, slot: nat, kind: SendKind, limitReached: bool)
    requires CanSend(Unbounded, e, slot, kind)
    ensures kind.OfData? ==> e.user.writeQueue != []
    ensures var e', m := Send(Unbounded, e, slot, kind, limitReached), MessageOf(e, kind);
            && e'.cfg == e.cfg && e'.user.readOpen == e.user.readOpen
            && e'.rx.consumed == (if kind.OfConsumed? then 0 else e.rx.consumed)
            && (m.Consumed? <==> kind.OfConsumed?)
            && (kind.OfConsumed? ==> e.rx.consumed > if e.user.readOpen then e.cfg.recvBuffer / 10 else 0)
            && (kind.OfConsumed? && e.rx.consumed < MODULUS ==> m.count == e.rx.consumed)
  {
    hide TxSend, Without, SeqAvail, TxSpace;
  }

  lemma SendSettles(x: Node, slot: nat, kind: SendKind, limitReached: bool)
    requires CanSend(Unbounded, x.ep, slot, kind) && Balanced(x) && 0 <= x.ep.rx.consumed < MODULUS
    ensures kind.OfData? ==> x.ep.user.writeQueue != []
    ensures Balanced(Node(Send(Unbounded, x.ep, slot, kind, limitReached), x.hist.(log := x.hist.log + [MessageOf(x.ep, kind)])))
  {
    SendParts(x.ep, slot, kind, limitReached);
    SumSnoc(Returned, x.hist.log, MessageOf(x.ep, kind));
    BulkSnoc(x.hist.log, MessageOf(x.ep, kind), Bulk(x));
    hide Send, CanSend, MessageOf, Sum, InBulk;
  }

  lemma BulkSnoc(log: seq<ReliableMsg>, m: ReliableMsg, least: nat)
    requires InBulk(log, least)
    ensures InBulk(log + [m], least) <==> (m.Consumed? ==> m.count >= least)
  {
    assert (log + [m])[|log|] == m;
  }

  lemma ConsumeSettles(x: Node)
    requires x.ep.rx.consumable != [] && Balanced(x)
    ensures Balanced(Node(Consume(x.ep), ConsumeHist(x)))
  {
    SumSnoc(Payload, x.hist.consumed, x.ep.rx.consumable[0].msg);
    hide Sum;
  }

  lemma BalancedFrame(x: Node, x': Node)
    requires Balanced(x) && x'.hist.log == x.hist.log && x'.hist.consumed == x.hist.consumed && x'.ep.cfg == x.ep.cfg
    requires x'.ep.rx.consumed == x.ep.rx.consumed && (x'.ep.user.readOpen ==> x.ep.user.readOpen)
    ensures Balanced(x')
  {
    hide Sum;
    assert Bulk(x') <= Bulk(x);
  }

  lemma ReceiveParts(s: Sys, slot: nat)
    requires Enabled(Unbounded, s, Receive(slot))
    ensures var e, e' := s.a.ep, ReceiveFrame(Unbounded, s, slot).a.ep;
            e'.rx.consumed == e.rx.consumed && e'.user.readOpen == e.user.readOpen && e'.cfg == e.cfg
    ensures ReceiveFrame(Unbounded, s, slot).a.hist == s.a.hist
  {
    hide TxAck, AckedOn, DropStale, Without, Place, LeadingFull, Deliverable, Resize, LinkIds, Pop, PipeOf;
  }

  lemma OtherParts(s: Sys, act: Action)
    requires !act.SendNew? && !act.ConsumeNext? && !act.Receive? && Enabled(Unbounded, s, act)
    ensures var x, x' := s.a, Act(Unbounded, s, act).a;
            && x'.hist.log == x.hist.log && x'.hist.consumed == x.hist.consumed && x'.ep.cfg == x.ep.cfg
            && x'.ep.rx.consumed == x.ep.rx.consumed && (x'.ep.user.readOpen ==> x.ep.user.readOpen)
  {
    hide TxResend, TxRequeue, FlushTx, Trim, FreeSlot, Without, Total, Push, Cut, StatusOf, CanResend;
  }

  lemma ActSettles(s: Sys, act: Action)
    requires Enabled(Unbounded, s, act) && Balanced(s.a) && 0 <= s.a.ep.rx.consumed < MODULUS
    ensures Balanced(Act(Unbounded, s, act).a)
  {
    hide Balanced;
    match act
    case SendNew(slot, kind, limitReached) =>
      SendSettles(s.a, slot, kind, limitReached);
      hide Send, CanSend, SeqAvail, MessageOf, Push;
    case ConsumeNext => ConsumeSettles(s.a);
    case Receive(slot) =>
      ReceiveParts(s, slot);
      BalancedFrame(s.a, ReceiveFrame(Unbounded, s, slot).a);
      hide ReceiveFrame;
    case _ =>
      OtherParts(s, act);
      BalancedFrame(s.a, Act(Unbounded, s, act).a);
      hide Act;
  }

  lemma StepSettles(s: Sys, s': Sys)
    requires Step(Unbounded, s, s') && Balanced(s.a) && Balanced(s.b)
    requires 0 <= s.a.ep.rx.consumed < MODULUS && 0 <= s.b.ep.rx.consumed < MODULUS
    ensures Balanced(s'.a) && Balanced(s'.b)
  {
    hide Enabled, Act, Balanced;
    if StepAtA(Unbounded, s, s') {
      var act :| Enabled(Unbounded, s, act) && s' == Act(Unbounded, s, act);
      ActFrame(s, act);
      ActSettles(s, act);
    } else {
      var act :| Enabled(Unbounded, Swap(s), act) && Swap(s') == Act(Unbounded, Swap(s), act);
      ActFrame(Swap(s), act);
      ActSettles(Swap(s), act);
    }
  }

  lemma ConsumedIsNarrow(run: seq<Sys>, i: nat)
    requires IsRun(Unbounded, run) && i < |run|
    ensures 0 <= run[i].a.ep.rx.consumed < MODULUS && 0 <= run[i].b.ep.rx.consumed < MODULUS
  {
    CreditIsConserved(run, i);
    RunKeeps(run, i);
    hide IsRun, Direction, Local, Missing;
  }

  lemma StartSettles(s: Sys)
    requires Start(s)
    ensures Balanced(s.a) && Balanced(s.b)
  {
  }

  lemma {:induction false} RunSettles(run: seq<Sys>, i: nat)
    requires IsRun(Unbounded, run) && i < |run|
    ensures Balanced(run[i].a) && Balanced(run[i].b)
  {
    hide *;
    RunStarts(run);
    if i == 0 {
      StartSettles(run[0]);
    } else {
      RunHasSteps(run, i);
      RunSettles(run, i - 1);
      ConsumedIsNarrow(run, i - 1);
      StepSettles(run[i - 1], run[i]);
    }
  }

  // ------------------------------------------------------------------------------ in bulk

  lemma {:induction false} BulkAdds(log: seq<ReliableMsg>, least: nat)
    requires InBulk(log, least)
    ensures least * Returns(log) <= Sum(Returned, log)
  {
    if log != [] {
      BulkAdds(log[..|log| - 1], least);
    }
  }

  /** In every run: the bytes returned and those yet to be returned are the bytes consumed; and while the reader is there
      the messages that return credit are few, because each returns more than a tenth of the receive buffer. */
  lemma CreditIsReturnedInBulk(run: seq<Sys>, i: nat)
    requires IsRun(Unbounded, run) && i < |run|
    ensures var x := run[i].a;
            && Sum(Returned, x.hist.log) + x.ep.rx.consumed == Sum(Payload, x.hist.consumed)
            && Returns(x.hist.log) <= Sum(Payload, x.hist.consumed)
            && (x.ep.user.readOpen ==> (x.ep.cfg.recvBuffer / 10 + 1) * Returns(x.hist.log) <= Sum(Payload, x.hist.consumed))
  {
    RunSettles(run, i);
    ConsumedIsNarrow(run, i);
    hide IsRun, Sum, Returns;
    BulkAdds(run[i].a.hist.log, Bulk(run[i].a));
  }
}
