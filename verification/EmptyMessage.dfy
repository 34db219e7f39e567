/** Runs that end gracefully although the peer has not consumed all data: exactly those whose last data is empty. */
module EmptyMessage {
  import opened Numbering
  import opened Protocol
  import opened System
  import opened Stream
  import opened Runs
  import opened Guarantees
  import opened Scenarios
  import opened SendBuffer

  // ------------------------------------------------------------------------ the data is sent

  /** The data `d` was sent, received and consumed, and no more credit is held back than need not be returned. */
  ghost predicate AllSent(s: Sys, n: nat, j: nat, c: nat, d: seq<Bytes>) {
    && Metered(s, 0, n, c) && c <= s.a.ep.cfg.remoteRecvBuffer / 10
    && s.a.ep.rx == Rx(j, [], [], 0, 0) && s.b.ep.tx == Tx(j, j, [], 0, 0, [])
    && s.a.ep.user == InitialUser() && s.b.ep.user.readOpen
    && DataPart(s.a.hist.log) == d && DataPart(s.b.hist.consumed) == d
  }

  lemma DataAppended(ms: seq<ReliableMsg>, d: seq<Bytes>, x: Bytes)
    requires DataPart(ms) == d
    ensures DataPart(ms + [Data(x)]) == d + [x]
  {
    DataAppend(ms, [Data(x)]);
    assert DataPart([Data(x)]) == [x];
  }

  lemma NothingSent(ca: Cfg, cb: Cfg, gated: bool) returns (s: Sys)
    requires Matching(ca, cb)
    ensures s.a.ep.cfg == ca && s.b.ep.cfg == cb && s.gated == gated && AllSent(s, 0, 0, 0, [])
    ensures Reachable(s)
  {
    hide Reachable;
    s := Connected(ca, cb, gated);
  }

  lemma SendOne(s: Sys, n: nat, j: nat, c: nat, d: seq<Bytes>, x: Bytes) returns (s': Sys, j': nat, c': nat)
    requires AllSent(s, n, j, c, d) && Fits(s.a.ep.cfg, x)
    requires Reachable(s)
    ensures AllSent(s', n + 1, j', c', d + [x])
    ensures s'.a.ep.cfg == s.a.ep.cfg && s'.b.ep.cfg == s.b.ep.cfg && s'.gated == s.gated
    ensures Reachable(s')
  {
    DataAppended(s.a.hist.log, d, x);
    DataAppended(s.b.hist.consumed, d, x);
    assert c + |x| <= s.a.ep.cfg.remoteRecvBuffer;
    hide Reachable, Quiet, DataPart;
    s' := Deliver(s, 0, n, c, x);
    j', c' := j, c + |x|;
    if c' > s.a.ep.cfg.remoteRecvBuffer / 10 {
      s' := Return(s', 0, n + 1, j, c');
      j', c' := j + 1, 0;
    }
  }

  lemma {:induction false} SendAll(s: Sys, n: nat, j: nat, c: nat, d: seq<Bytes>, rest: seq<Bytes>)
    returns (s': Sys, n': nat, j': nat, c': nat)
    requires AllSent(s, n, j, c, d) && forall i | 0 <= i < |rest| :: Fits(s.a.ep.cfg, rest[i])
    requires Reachable(s)
    ensures AllSent(s', n', j', c', d + rest)
    ensures s'.a.ep.cfg == s.a.ep.cfg && s'.b.ep.cfg == s.b.ep.cfg && s'.gated == s.gated
    ensures Reachable(s')
    decreases |rest|
  {
    hide *;
    if rest == [] {
      s', n', j', c' := s, n, j, c;
      assert d + rest == d;
    } else {
      var s1, j1, c1 := SendOne(s, n, j, c, d, rest[0]);
      s', n', j', c' := SendAll(s1, n + 1, j1, c1, d + [rest[0]], rest[1..]);
      assert d + [rest[0]] + rest[1..] == d + rest;
    }
  }

  // ---------------------------------------------------------------------------- and the end

  lemma ReadDroppedIs(s: Sys)
    requires s.haltA.None? && s.a.ep.user.readOpen
    ensures Enabled(Unbounded, s, ReadDropped)
    ensures Act(Unbounded, s, ReadDropped)
            == s.(a := s.a.(ep := s.a.ep.(user := s.a.ep.user.(readOpen := false, closeOpen := false))))
  {
  }

  lemma WriteEndIs(s: Sys)
    requires s.haltA.None? && s.a.ep.user.writeOpen && s.a.ep.user.writeQueue == []
    ensures Enabled(Unbounded, s, WriteEnd)
    ensures Act(Unbounded, s, WriteEnd) == s.(a := s.a.(ep := s.a.ep.(user := s.a.ep.user.(writeOpen := false))))
  {
  }

  /** All credit is returned, if need be because the reader goes away. */
  lemma AllReturned(s: Sys, n: nat, j: nat, c: nat, d: seq<Bytes>) returns (s': Sys, j': nat)
    requires AllSent(s, n, j, c, d)
    requires Reachable(s)
    ensures s'.a.ep.cfg == s.a.ep.cfg && s'.b.ep.cfg == s.b.ep.cfg && s'.gated == s.gated
    ensures Metered(s', 0, n, 0) && s'.a.ep.rx == Rx(j', [], [], 0, 0)
    ensures s'.a.ep.user == InitialUser() && s'.a.hist == s.a.hist && s'.b.hist.consumed == s.b.hist.consumed
    ensures Reachable(s')
  {
    hide Reachable, Enabled, Act, DataPart;
    if c == 0 {
      s', j' := s, j;
    } else {
      ReadDroppedIs(Swap(s));
      s' := DoB(s, ReadDropped);
      s' := Return(s', 0, n, j, c);
      j' := j + 1;
    }
  }

  /** An empty message is sent and left there; then `a` closes both halves. */
  lemma CloseDown(s: Sys, n: nat, j: nat) returns (s': Sys)
    requires Metered(s, 0, n, 0) && s.a.ep.rx == Rx(j, [], [], 0, 0) && s.a.ep.user == InitialUser()
    requires Reachable(s)
    ensures s'.a.ep.cfg == s.a.ep.cfg && s'.b.ep.cfg == s.b.ep.cfg && s'.gated == s.gated
    ensures ExitReady(s'.a.ep)
    ensures s'.a.hist.log == s.a.hist.log + [Data([])] + [SendFinish] + [ReceiveFinish]
    ensures s'.b.hist == s.b.hist && s'.b.ep.rx.consumable == [Arrival(n, Data([])), Arrival(n + 1, SendFinish)]
    ensures Reachable(s')
  {
    hide Reachable, Enabled, Act;
    s' := Transfer(s, 0, n, 0, []);
    WriteEndIs(s');
    s' := Do(s', WriteEnd);
    s' := Exchange(s', 0, n + 1, OfSendFinish);
    ReadDroppedIs(s');
    s' := Do(s', ReadDropped);
    s' := Exchange(s', 0, n + 2, OfReceiveFinish);
  }

  /** For every list of data within the limits that ends in an empty message there is a run in which this data is sent,
      one side may end gracefully, and the peer has not consumed the last message. */
  lemma LastEmptyIsLeft(ca: Cfg, cb: Cfg, gated: bool, d: seq<Bytes>) returns (s: Sys)
    requires Matching(ca, cb) && forall i | 0 <= i < |d| :: Fits(ca, d[i])
    requires d != [] && d[|d| - 1] == []
    ensures s.a.ep.cfg == ca && s.b.ep.cfg == cb && s.gated == gated && ExitReady(s.a.ep)
    ensures DataPart(s.a.hist.log) == d && DataPart(s.b.hist.consumed) == d[..|d| - 1]
    ensures s.b.ep.rx.consumable != [] && s.b.ep.rx.consumable[0].msg == Data([])
    ensures Reachable(s)
  {
    hide Reachable, AllSent, ExitReady, Metered, DataPart;
    s := NothingSent(ca, cb, gated);
    var most := d[..|d| - 1];
    var s1, n, j, c := SendAll(s, 0, 0, 0, [], most);
    assert [] + most == most;
    var s2, j2 := AllReturned(s1, n, j, c, most);
    s := CloseDown(s2, n, j2);
    TailIsNoData(s1, s, n, j, c, d);
  }

  lemma TailIsNoData(s1: Sys, s: Sys, n: nat, j: nat, c: nat, d: seq<Bytes>)
    requires d != [] && d[|d| - 1] == [] && AllSent(s1, n, j, c, d[..|d| - 1])
    requires s.a.hist.log == s1.a.hist.log + [Data([])] + [SendFinish] + [ReceiveFinish]
    requires s.b.hist.consumed == s1.b.hist.consumed
    ensures DataPart(s.a.hist.log) == d && DataPart(s.b.hist.consumed) == d[..|d| - 1]
  {
    var log := s1.a.hist.log + [Data([])];
    DataAppended(s1.a.hist.log, d[..|d| - 1], []);
    ControlIsNoData(log, SendFinish);
    ControlIsNoData(log + [SendFinish], ReceiveFinish);
    assert d[..|d| - 1] + [[]] == d;
  }

  /** The exact condition, for every connection and all data: whenever this data was sent and a side may end gracefully,
      all of it was consumed, if and only if the last of it is not empty (or it could not be sent at all). */
  lemma ExitConsumesIff(ca: Cfg, cb: Cfg, gated: bool, d: seq<Bytes>)
    requires Matching(ca, cb)
    ensures (forall s: Sys | Reachable(s) && s.a.ep.cfg == ca && s.b.ep.cfg == cb && s.gated == gated
                             && ExitReady(s.a.ep) && DataPart(s.a.hist.log) == d ::
               DataPart(s.b.hist.consumed) == d)
            <==> (d == [] || d[|d| - 1] != [] || exists i :: 0 <= i < |d| && !Fits(ca, d[i]))
  {
    hide Fits, ExitReady, DataPart;
    if d == [] || d[|d| - 1] != [] || exists i :: 0 <= i < |d| && !Fits(ca, d[i]) {
      forall s: Sys | Reachable(s) && s.a.ep.cfg == ca && ExitReady(s.a.ep) && DataPart(s.a.hist.log) == d
        ensures DataPart(s.b.hist.consumed) == d
      {
        hide IsRun;
        var run: seq<Sys> :| IsRun(Unbounded, run) && run[|run| - 1] == s;
        RunStarts(run);
        ExitMeansConsumed(run, |run| - 1);
        forall i | 0 <= i < |d| ensures Fits(ca, d[i]) {
          SentDataFits(run, |run| - 1, i);
        }
      }
    } else {
      hide Reachable;
      var s := LastEmptyIsLeft(ca, cb, gated, d);
      assert |DataPart(s.b.hist.consumed)| == |d| - 1;
    }
  }
}
