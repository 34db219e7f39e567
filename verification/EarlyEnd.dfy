/** Readers that take an empty packet for the end of the stream: exactly those of data in which an empty packet that can
    be sent stands before one that is not empty. */
module EarlyEnd {
  import opened Numbering
  import opened Protocol
  import opened Invariants
  import opened System
  import opened Stream
  import opened Runs
  import opened Scenarios
  import opened SendBuffer
  import opened EmptyMessage
  import opened ByteStream
  import opened Codec

  // ------------------------------------------------------------------ the run, up to the empty packet

  /** The user hands in more data. */
  lemma {:induction false} AcceptRest(s: Sys, rest: seq<Bytes>) returns (s': Sys)
    requires s.haltA.None? && s.a.ep.user.writeOpen
    requires forall i | 0 <= i < |rest| :: |rest[i]| <= MaxSendSize(s.a.ep.cfg.remoteRecvBuffer)
    requires Reachable(s)
    ensures s'.a.ep.cfg == s.a.ep.cfg && s'.gated == s.gated && s'.b == s.b
    ensures s'.a.hist.accepted == s.a.hist.accepted + rest
    ensures Reachable(s')
    decreases |rest|
  {
    hide Reachable, MaxSendSize;
    if rest == [] {
      s' := s;
    } else {
      var s1 := Do(s, Accept(rest[0]));
      s' := AcceptRest(s1, rest[1..]);
      assert s.a.hist.accepted + [rest[0]] + rest[1..] == s.a.hist.accepted + rest;
    }
  }

  /** What was sent and consumed was accepted and delivered. */
  lemma SentIsDelivered(s: Sys, n: nat, j: nat, c: nat, d: seq<Bytes>)
    requires AllSent(s, n, j, c, d)
    requires Reachable(s)
    ensures s.haltA.None? && s.a.ep.user.writeOpen && s.a.hist.accepted == d && s.b.hist.delivered == d
  {
    hide IsRun, SysInv, DataPart, QuietAt, Reachable;
    var run := RunTo(s);
    RunKeeps(run, |run| - 1);
    SentIsAccepted(s);
    OpenReaderHasAll(s);
  }

  lemma OpenReaderHasAll(s: Sys)
    requires SysInv(s)
    ensures s.b.ep.user.readOpen ==> s.b.hist.delivered == DataPart(s.b.hist.consumed)
  {
    hide Pair, Inv, SenderOk, IdsAdded, DataPart;
  }

  /** All of `d` is accepted, its first `i + 1` packets are delivered. */
  lemma DeliverSome(ca: Cfg, cb: Cfg, gated: bool, d: seq<Bytes>, i: nat) returns (s: Sys)
    requires Matching(ca, cb) && i < |d| && forall j | 0 <= j <= i :: Fits(ca, d[j])
    requires forall j | 0 <= j < |d| :: |d[j]| <= MaxSendSize(ca.remoteRecvBuffer)
    ensures s.a.ep.cfg == ca && s.b.ep.cfg == cb && s.gated == gated
    ensures s.a.hist.accepted == d && s.b.hist.delivered == d[..i + 1]
    ensures Reachable(s)
  {
    hide *;
    s := NothingSent(ca, cb, gated);
    var s1, n, j, c := SendAll(s, 0, 0, 0, [], d[..i + 1]);
    assert [] + d[..i + 1] == d[..i + 1];
    SentIsDelivered(s1, n, j, c, d[..i + 1]);
    s := AcceptRest(s1, d[i + 1..]);
    assert d[..i + 1] + d[i + 1..] == d;
  }

  // ------------------------------------------------------------------------------ the reads

  /** A read for each packet, with space for one byte more. */
  function WholeReads(packets: seq<Bytes>, at: nat): (r: seq<ReadAt>)
    ensures |r| == |packets| && forall p | 0 <= p < |r| :: r[p] == ReadAt(at, |packets[p]| + 1)
  {
    seq(|packets|, p requires 0 <= p < |packets| => ReadAt(at, |packets[p]| + 1))
  }

  lemma ReadsWhole(h: Hist, p: nat, bytes: Bytes, sawEnd: bool)
    requires p < |h.delivered|
    ensures var packet := h.delivered[p];
            ReadOnce(h, Reader([], p, bytes, sawEnd), |packet| + 1) == Reader([], p + 1, bytes + packet, sawEnd || packet == [])
  {
    var packet := h.delivered[p];
    var u := Ahead(h, Reader([], p, bytes, sawEnd));
    EndIsSeenIff(u, h.ended, |packet| + 1);
    assert u.queue[0] == packet && u.queue[1..] == h.delivered[p + 1..];
    assert packet[..|packet|] == packet && packet[|packet|..] == [];
  }

  lemma ConcatLast(before: seq<Bytes>, last: Bytes)
    ensures Concat(before + [last]) == Concat(before) + last
  {
    ConcatAppend(before, [last]);
    assert Concat([last]) == last;
  }

  lemma NothingReadAlong(run: seq<Sys>, at: nat)
    requires at < |run|
    ensures ReadAlong(run, WholeReads([], at)) == Reader([], 0, Concat([]), false)
  {
    ConcatNothing();
  }

  lemma LastReadAlong(run: seq<Sys>, at: nat, before: seq<Bytes>, last: Bytes)
    requires at < |run|
    ensures ReadAlong(run, WholeReads(before + [last], at))
            == ReadOnce(run[at].b.hist, ReadAlong(run, WholeReads(before, at)), |last| + 1)
  {
    var polls := WholeReads(before + [last], at);
    assert polls[..|polls| - 1] == WholeReads(before, at);
    hide ReadOnce;
  }

  lemma {:induction false} ReadsAllWhole(run: seq<Sys>, at: nat, packets: seq<Bytes>)
    requires at < |run| && packets <= run[at].b.hist.delivered
    ensures var r := ReadAlong(run, WholeReads(packets, at));
            && r == Reader([], |packets|, Concat(packets), r.sawEnd)
            && (packets != [] && packets[|packets| - 1] == [] ==> r.sawEnd)
    decreases |packets|
  {
    hide Concat, ReadOnce, ReadAlong;
    if packets == [] {
      NothingReadAlong(run, at);
    } else {
      var before, last := packets[..|packets| - 1], packets[|packets| - 1];
      assert packets == before + [last] && last == run[at].b.hist.delivered[|before|];
      ReadsAllWhole(run, at, before);
      LastReadAlong(run, at, before, last);
      ReadsWhole(run[at].b.hist, |before|, Concat(before), ReadAlong(run, WholeReads(before, at)).sawEnd);
      ConcatLast(before, last);
    }
  }

  // ------------------------------------------------------------------------- the exact condition

  /** A run of a connection in which the writer hands in `d`, and reads between its steps. */
  ghost predicate ReadIn(run: seq<Sys>, polls: seq<ReadAt>, ca: Cfg, cb: Cfg, gated: bool, d: seq<Bytes>) {
    && IsRun(Unbounded, run) && run != [] && Scheduled(polls, |run| - 1)
    && var s := run[|run| - 1];
       s.a.ep.cfg == ca && s.b.ep.cfg == cb && s.gated == gated && s.a.hist.accepted == d
  }

  ghost predicate Misled(run: seq<Sys>, polls: seq<ReadAt>, d: seq<Bytes>)
    requires forall k | 0 <= k < |polls| :: polls[k].at < |run|
  {
    ReadAlong(run, polls).sawEnd && ReadAlong(run, polls).bytes != Concat(d)
  }

  lemma {:induction false} MoreBytes(d: seq<Bytes>, i: nat, k: nat)
    requires i <= k < |d| && d[k] != []
    ensures Concat(d[..i]) != Concat(d)
  {
    ConcatAppend(d[..i], d[i..]);
    assert d == d[..i] + d[i..];
    ConcatAppend(d[i..k], d[k..]);
    assert d[i..] == d[i..k] + d[k..];
    assert |Concat(d[k..])| >= |d[k]|;
  }

  lemma GapFits(ca: Cfg, d: seq<Bytes>, i: nat, k: nat)
    requires Gap(ca, d, i, k)
    ensures i < k < |d| && d[i] == [] && d[k] != [] && forall j | 0 <= j <= i :: Fits(ca, d[j])
  {
  }

  lemma EmptyLooksLikeEnd(ca: Cfg, cb: Cfg, gated: bool, d: seq<Bytes>, i: nat, k: nat)
    returns (run: seq<Sys>, polls: seq<ReadAt>)
    requires Matching(ca, cb) && Gap(ca, d, i, k)
    requires forall j | 0 <= j < |d| :: |d[j]| <= MaxSendSize(ca.remoteRecvBuffer)
    ensures ReadIn(run, polls, ca, cb, gated, d) && Misled(run, polls, d)
  {
    hide *;
    GapFits(ca, d, i, k);
    var s := DeliverSome(ca, cb, gated, d, i);
    run := RunTo(s);
    polls := WholeReads(d[..i + 1], |run| - 1);
    ReadsSchedule(d[..i + 1], |run| - 1);
    ReadsInRun(run, polls, ca, cb, gated, d);
    MisledByEmpty(run, d, i, k);
  }

  lemma ReadsSchedule(packets: seq<Bytes>, at: nat)
    ensures Scheduled(WholeReads(packets, at), at)
  {
  }

  lemma ReadsInRun(run: seq<Sys>, polls: seq<ReadAt>, ca: Cfg, cb: Cfg, gated: bool, d: seq<Bytes>)
    requires IsRun(Unbounded, run) && |run| > 0 && Scheduled(polls, |run| - 1)
    requires var s := run[|run| - 1]; s.a.ep.cfg == ca && s.b.ep.cfg == cb && s.gated == gated && s.a.hist.accepted == d
    ensures ReadIn(run, polls, ca, cb, gated, d)
  {
    hide IsRun, Scheduled;
  }

  lemma MisledByEmpty(run: seq<Sys>, d: seq<Bytes>, i: nat, k: nat)
    requires |run| > 0 && i < k < |d| && d[i] == [] && d[k] != [] && run[|run| - 1].b.hist.delivered == d[..i + 1]
    ensures Misled(run, WholeReads(d[..i + 1], |run| - 1), d)
  {
    hide ReadAlong, Concat;
    ReadsAllWhole(run, |run| - 1, d[..i + 1]);
    MoreBytes(d, i + 1, k);
  }

  /** The exact condition, for every connection and all data: whoever sees the end, at any time in any run, has read all
      data handed in, if and only if no empty packet that can be sent stands before a packet that is not empty (or the data
      is not accepted at all). */
  lemma EndIsTrueIff(ca: Cfg, cb: Cfg, gated: bool, d: seq<Bytes>)
    requires Matching(ca, cb)
    ensures (forall run: seq<Sys>, polls: seq<ReadAt> | ReadIn(run, polls, ca, cb, gated, d) :: !Misled(run, polls, d))
            <==> ((forall i: nat, k: nat :: !Gap(ca, d, i, k))
                  || exists j :: 0 <= j < |d| && |d[j]| > MaxSendSize(ca.remoteRecvBuffer))
  {
    hide Gap, MaxSendSize, IsRun;
    if i: nat, k: nat :| Gap(ca, d, i, k) && forall j | 0 <= j < |d| :: |d[j]| <= MaxSendSize(ca.remoteRecvBuffer) {
      var run, polls := EmptyLooksLikeEnd(ca, cb, gated, d, i, k);
    } else {
      forall run: seq<Sys>, polls: seq<ReadAt> | ReadIn(run, polls, ca, cb, gated, d)
        ensures !Misled(run, polls, d)
      {
        BytesEndToEnd(run, polls, |run| - 1);
        RunStaysSized(run, |run| - 1);
      }
    }
  }
}
