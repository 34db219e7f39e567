/** The connection as a stream of bytes: writes are cut into packets, reads may take part of a packet. */
module ByteStream {
  import opened Numbering
  import opened Protocol
  import opened Invariants
  import opened System
  import opened Stream
  import opened Runs
  import opened Guarantees
  import opened Scenarios
  import opened SendBuffer
  import opened Codec

  // ------------------------------------------------------------------------------ writing

  /** The longest packet a write makes. */
  function MaxPacket(ioWriteSize: nat, recvBuffer: nat): nat {
    Min(ioWriteSize, recvBuffer)
  }

  /** One write: the packet it makes of the front of the buffer, or nothing when that is too big to be sent. */
  function PollWrite(ioWriteSize: nat, recvBuffer: nat, buf: Bytes): (r: Option<Bytes>)
    ensures r.None? <==> Min(|buf|, MaxPacket(ioWriteSize, recvBuffer)) > MaxSendSize(recvBuffer)
    ensures r.Some? ==> r.value <= buf && |r.value| <= MaxSendSize(recvBuffer)
    ensures r.Some? && buf != [] && ioWriteSize > 0 && recvBuffer > 0 ==> r.value != []
  {
    var len := Min(|buf|, MaxPacket(ioWriteSize, recvBuffer));
    if len > MaxSendSize(recvBuffer) then None else Some(buf[..len])
  }

  /** Writes until the buffer is empty; the packets made, or nothing when a write failed. */
  function WriteAll(ioWriteSize: nat, recvBuffer: nat, buf: Bytes): Option<seq<Bytes>>
    requires ioWriteSize > 0 && recvBuffer > 0
    decreases |buf|
  {
    if buf == [] then Some([])
    else
      var packet := PollWrite(ioWriteSize, recvBuffer, buf);
      if packet.None? then None
      else
        var rest := WriteAll(ioWriteSize, recvBuffer, buf[|packet.value|..]);
        if rest.None? then None else Some([packet.value] + rest.value)
  }

  /** Writing fails exactly when the first packet would be too big, which no later one can be if it is not; otherwise
      the packets are the bytes in order, none of them empty and each small enough to be accepted. */
  lemma {:induction false} WriteAllExact(ioWriteSize: nat, recvBuffer: nat, buf: Bytes)
    requires ioWriteSize > 0 && recvBuffer > 0
    ensures var r := WriteAll(ioWriteSize, recvBuffer, buf);
            && (r.None? <==> Min(|buf|, MaxPacket(ioWriteSize, recvBuffer)) > MaxSendSize(recvBuffer))
            && (r.Some? ==> Concat(r.value) == buf)
            && (r.Some? ==> forall i | 0 <= i < |r.value| :: 0 < |r.value[i]| <= MaxSendSize(recvBuffer))
    decreases |buf|
  {
    hide MaxPacket, MaxSendSize, PollWrite, Concat;
    ConcatNothing();
    if buf != [] {
      var packet := PollWrite(ioWriteSize, recvBuffer, buf);
      if packet.Some? {
        var rest := buf[|packet.value|..];
        WriteAllExact(ioWriteSize, recvBuffer, rest);
        var more := WriteAll(ioWriteSize, recvBuffer, rest);
        if more.Some? {
          ConcatCons(packet.value, more.value);
        }
        assert buf == packet.value + rest;
      }
    }
  }

  lemma ConcatNothing()
    ensures Concat([]) == []
  {
  }

  lemma ConcatCons(head: Bytes, tail: seq<Bytes>)
    ensures Concat([head] + tail) == head + Concat(tail)
  {
    assert ([head] + tail)[1..] == tail;
  }

  /** No write fails, whatever its length, exactly when packets are cut below half of the peer's receive buffer. */
  lemma WritesNeverFailIff(ioWriteSize: nat, recvBuffer: nat)
    requires ioWriteSize > 0 && recvBuffer > 0
    ensures (forall buf: Bytes :: WriteAll(ioWriteSize, recvBuffer, buf).Some?) <==>
            MaxPacket(ioWriteSize, recvBuffer) <= MaxSendSize(recvBuffer)
  {
    var big: Bytes := seq(MaxPacket(ioWriteSize, recvBuffer), _ => 0);
    WriteAllExact(ioWriteSize, recvBuffer, big);
    forall buf: Bytes ensures MaxPacket(ioWriteSize, recvBuffer) <= MaxSendSize(recvBuffer) ==>
                                WriteAll(ioWriteSize, recvBuffer, buf).Some? {
      WriteAllExact(ioWriteSize, recvBuffer, buf);
    }
  }

  // ------------------------------------------------------------------------------ reading

  /** `buf` is the unread part of a packet, `queue` holds the packets behind it. */
  datatype Unread = Unread(buf: Bytes, queue: seq<Bytes>)

  function AllUnread(u: Unread): Bytes {
    u.buf + Concat(u.queue)
  }

  /** One read of at most `space` bytes.  No bytes are the end of the stream to the caller; without a result
      the caller waits. */
  function PollRead(u: Unread, ended: bool, space: nat): (Unread, Option<Bytes>) {
    if u.buf == [] && u.queue == [] && !ended then (u, None)
    else
      var u1 := if u.buf == [] && u.queue != [] then Unread(u.queue[0], u.queue[1..]) else u;
      var len := Min(space, |u1.buf|);
      (u1.(buf := u1.buf[len..]), Some(u1.buf[..len]))
  }

  /** A read that has space and gets no bytes. */
  predicate LooksLikeEnd(u: Unread, ended: bool, space: nat) {
    space > 0 && PollRead(u, ended, space).1 == Some([])
  }

  /** The end of the stream is seen when it is reached, or when the next packet is empty. */
  lemma EndIsSeenIff(u: Unread, ended: bool, space: nat)
    requires space > 0
    ensures LooksLikeEnd(u, ended, space) <==>
            u.buf == [] && if u.queue == [] then ended else u.queue[0] == []
  {
    if u.buf == [] && u.queue != [] {
      assert u.queue[0][..0] == [];
    }
  }

  lemma PollReadConserves(u: Unread, ended: bool, space: nat)
    ensures var (u', got) := PollRead(u, ended, space);
            (if got.Some? then got.value else []) + AllUnread(u') == AllUnread(u)
  {
    var u1 := if u.buf == [] && u.queue != [] then Unread(u.queue[0], u.queue[1..]) else u;
    assert AllUnread(u1) == AllUnread(u);
    var len := Min(space, |u1.buf|);
    assert u1.buf[..len] + (u1.buf[len..] + Concat(u1.queue)) == (u1.buf[..len] + u1.buf[len..]) + Concat(u1.queue);
    assert u1.buf[..len] + u1.buf[len..] == u1.buf;
  }

  // -------------------------------------------------------------------- reading along a run

  /** A reader: the unread part of the packet it has begun, how many packets it has taken, what it has read, and whether it
      has seen the end. */
  datatype Reader = Reader(buf: Bytes, taken: nat, bytes: Bytes, sawEnd: bool)

  /** What a reader finds when the user at its end has been given `h.delivered`. */
  function Ahead(h: Hist, r: Reader): Unread {
    Unread(r.buf, if r.taken <= |h.delivered| then h.delivered[r.taken..] else [])
  }

  function ReadOnce(h: Hist, r: Reader, space: nat): Reader {
    var u := Ahead(h, r);
    var (u', got) := PollRead(u, h.ended, space);
    Reader(u'.buf, r.taken + |u.queue| - |u'.queue|, r.bytes + (if got.Some? then got.value else []),
           r.sawEnd || LooksLikeEnd(u, h.ended, space))
  }

  /** A read of at most `space` bytes in state `at` of a run. */
  datatype ReadAt = ReadAt(at: nat, space: nat)

  /** The reads are in the order of the run, all before or in state `j`. */
  predicate Scheduled(polls: seq<ReadAt>, j: nat) {
    && (forall k | 0 <= k < |polls| :: polls[k].at <= j)
    && (forall k | 0 < k < |polls| :: polls[k - 1].at <= polls[k].at)
  }

  /** The reader at `b` after reads that take place while the run goes on. */
  function ReadAlong(run: seq<Sys>, polls: seq<ReadAt>): Reader
    requires forall k | 0 <= k < |polls| :: polls[k].at < |run|
  {
    if polls == [] then Reader([], 0, [], false)
    else
      var last := polls[|polls| - 1];
      ReadOnce(run[last.at].b.hist, ReadAlong(run, polls[..|polls| - 1]), last.space)
  }

  /** Nothing is lost, repeated or reordered. */
  ghost predicate Whole(h: Hist, r: Reader) {
    r.taken <= |h.delivered| && r.bytes + AllUnread(Ahead(h, r)) == Concat(h.delivered)
  }

  /** Packet `i` is empty and was taken. */
  ghost predicate TookEmpty(h: Hist, r: Reader, i: nat) {
    i < r.taken <= |h.delivered| && h.delivered[i] == []
  }

  /** What looked like the end was the end, or an empty packet; and what is left of a packet is no longer than it was. */
  ghost predicate Honest(h: Hist, r: Reader) {
    && (r.sawEnd ==> (h.ended && Ahead(h, r) == Unread([], [])) || exists i: nat :: TookEmpty(h, r, i))
    && r.taken <= |h.delivered| && |r.buf| <= if r.taken == 0 then 0 else |h.delivered[r.taken - 1]|
  }

  ghost predicate Reading(h: Hist, r: Reader) {
    Whole(h, r) && Honest(h, r)
  }

  lemma ReadOnceIs(h: Hist, r: Reader, space: nat)
    requires r.taken <= |h.delivered|
    ensures var r' := ReadOnce(h, r, space);
            var (u', got) := PollRead(Ahead(h, r), h.ended, space);
            && r'.taken <= |h.delivered| && Ahead(h, r') == u'
            && r'.bytes == r.bytes + (if got.Some? then got.value else [])
  {
    hide LooksLikeEnd;
  }

  lemma RegroupThree(a: Bytes, b: Bytes, c: Bytes)
    ensures a + (b + c) == (a + b) + c
  {
  }

  lemma ReadKeepsWhole(h: Hist, r: Reader, space: nat)
    requires Whole(h, r)
    ensures Whole(h, ReadOnce(h, r, space))
  {
    hide PollRead, Concat, AllUnread, Ahead, ReadOnce;
    ReadOnceIs(h, r, space);
    PollReadConserves(Ahead(h, r), h.ended, space);
    var (u', got) := PollRead(Ahead(h, r), h.ended, space);
    RegroupThree(r.bytes, if got.Some? then got.value else [], AllUnread(u'));
  }

  /** Which packet the reader is at after a read. */
  lemma ReadMoves(h: Hist, r: Reader, space: nat)
    requires r.taken <= |h.delivered| && |r.buf| <= if r.taken == 0 then 0 else |h.delivered[r.taken - 1]|
    ensures var r' := ReadOnce(h, r, space);
            && r.taken <= r'.taken <= |h.delivered|
            && |r'.buf| <= (if r'.taken == 0 then 0 else |h.delivered[r'.taken - 1]|)
            && (r'.sawEnd <==> r.sawEnd || LooksLikeEnd(Ahead(h, r), h.ended, space))
            && (r.buf == [] && r.taken < |h.delivered| ==> r'.taken == r.taken + 1)
  {
    hide LooksLikeEnd;
  }

  /** Having seen the end at the end, a reader stays there. */
  lemma ReadAtEnd(h: Hist, r: Reader, space: nat)
    requires h.ended && Ahead(h, r) == Unread([], [])
    ensures Ahead(h, ReadOnce(h, r, space)) == Unread([], [])
  {
  }

  lemma ReadKeepsHonest(h: Hist, r: Reader, space: nat)
    requires Honest(h, r)
    ensures Honest(h, ReadOnce(h, r, space))
  {
    hide ReadOnce, Ahead, LooksLikeEnd;
    var r' := ReadOnce(h, r, space);
    ReadMoves(h, r, space);
    if r'.sawEnd {
      if i: nat :| TookEmpty(h, r, i) {
        assert TookEmpty(h, r', i);
      } else if h.ended && Ahead(h, r) == Unread([], []) {
        ReadAtEnd(h, r, space);
      } else {
        SeenIsEmpty(h, r, space);
        assert TookEmpty(h, r', r.taken);
      }
    }
  }

  lemma SeenIsEmpty(h: Hist, r: Reader, space: nat)
    requires LooksLikeEnd(Ahead(h, r), h.ended, space) && !(h.ended && Ahead(h, r) == Unread([], [])) && r.taken <= |h.delivered|
    ensures r.buf == [] && r.taken < |h.delivered| && h.delivered[r.taken] == []
  {
    EndIsSeenIff(Ahead(h, r), h.ended, space);
    hide PollRead;
  }

  lemma ReadKeeps(h: Hist, r: Reader, space: nat)
    requires Reading(h, r)
    ensures Reading(h, ReadOnce(h, r, space))
  {
    hide AllUnread, Concat, ReadOnce, Ahead;
    ReadKeepsWhole(h, r, space);
    ReadKeepsHonest(h, r, space);
  }

  lemma {:induction false} ConcatAppend(p: seq<Bytes>, q: seq<Bytes>)
    ensures Concat(p + q) == Concat(p) + Concat(q)
    decreases |p|
  {
    if p == [] {
      assert p + q == q;
    } else {
      ConcatAppend(p[1..], q);
      assert (p + q)[1..] == p[1..] + q;
    }
  }

  /** What the user was given only grows, and not after the end. */
  predicate Grows(h: Hist, h': Hist) {
    h.delivered <= h'.delivered && (h.ended ==> h'.ended && h'.delivered == h.delivered)
  }

  lemma RegroupFour(a: Bytes, b: Bytes, c: Bytes, d: Bytes)
    ensures a + (b + (c + d)) == (a + (b + c)) + d
  {
  }

  lemma GrowthKeepsWhole(h: Hist, more: seq<Bytes>, h': Hist, r: Reader)
    requires Whole(h, r) && h'.delivered == h.delivered + more
    ensures Whole(h', r)
  {
    hide Concat;
    var rest := h.delivered[r.taken..];
    assert h'.delivered[r.taken..] == rest + more;
    calc {
      r.bytes + AllUnread(Ahead(h', r));
      r.bytes + (r.buf + Concat(rest + more));
      { ConcatAppend(rest, more); }
      r.bytes + (r.buf + (Concat(rest) + Concat(more)));
      { RegroupFour(r.bytes, r.buf, Concat(rest), Concat(more)); }
      (r.bytes + (r.buf + Concat(rest))) + Concat(more);
      Concat(h.delivered) + Concat(more);
      { ConcatAppend(h.delivered, more); }
      Concat(h'.delivered);
    }
  }

  lemma GrowthKeeps(h: Hist, h': Hist, r: Reader)
    requires Reading(h, r) && Grows(h, h')
    ensures Reading(h', r)
  {
    assert h'.delivered == h.delivered + h'.delivered[|h.delivered|..];
    hide AllUnread, Concat;
    GrowthKeepsWhole(h, h'.delivered[|h.delivered|..], h', r);
    if i: nat :| TookEmpty(h, r, i) {
      assert TookEmpty(h', r, i);
    }
  }

  lemma ActGrows(s: Sys, act: Action)
    requires Enabled(Unbounded, s, act) && (s.a.hist.ended ==> !s.a.ep.user.readOpen)
    ensures Grows(s.a.hist, Act(Unbounded, s, act).a.hist) && Act(Unbounded, s, act).b == s.b
  {
    ActFrame(s, act);
    if act.ConsumeNext? {
      ConsumableFirst(s);
    }
    hide Enabled, Act;
  }

  lemma ConsumableFirst(s: Sys)
    requires Enabled(Unbounded, s, ConsumeNext)
    ensures s.a.ep.rx.consumable != []
  {
  }

  lemma StepGrows(s: Sys, s': Sys)
    requires Step(Unbounded, s, s')
    requires SysInv(s)
    ensures Grows(s.b.hist, s'.b.hist)
  {
    EndedIsClosed(s);
    hide SysInv, Enabled, Act, Grows;
    if StepAtA(Unbounded, s, s') {
      var act :| Enabled(Unbounded, s, act) && s' == Act(Unbounded, s, act);
      ActFrame(s, act);
      GrowsReflexive(s.b.hist);
    } else {
      var act :| Enabled(Unbounded, Swap(s), act) && Swap(s') == Act(Unbounded, Swap(s), act);
      ActGrows(Swap(s), act);
    }
  }

  lemma GrowsReflexive(h: Hist)
    ensures Grows(h, h)
  {
  }

  lemma EndedIsClosed(s: Sys)
    requires SysInv(s)
    ensures s.b.hist.ended ==> !s.b.ep.user.readOpen
  {
    hide Pair, Inv, SenderOk, IdsAdded, DataPart;
  }

  lemma {:induction false} RunGrows(run: seq<Sys>, i: nat, j: nat)
    requires IsRun(Unbounded, run) && i <= j < |run|
    ensures Grows(run[i].b.hist, run[j].b.hist)
    decreases j - i
  {
    hide IsRun, SysInv, Step;
    if i < j {
      RunGrows(run, i, j - 1);
      RunKeeps(run, j - 1);
      RunHasSteps(run, j);
      StepGrows(run[j - 1], run[j]);
    }
  }

  lemma {:induction false} ReadsKeep(run: seq<Sys>, polls: seq<ReadAt>, j: nat)
    requires IsRun(Unbounded, run) && j < |run| && Scheduled(polls, j)
    ensures Reading(run[j].b.hist, ReadAlong(run, polls))
    decreases |polls|
  {
    hide IsRun, Reading, ReadOnce, Grows;
    if polls == [] {
      NothingRead(run[j].b.hist);
    } else {
      var last, before := polls[|polls| - 1], polls[..|polls| - 1];
      ReadsKeep(run, before, last.at) by {
        AtMostLast(polls, j);
      }
      ReadKeeps(run[last.at].b.hist, ReadAlong(run, before), last.space);
      RunGrows(run, last.at, j);
      GrowthKeeps(run[last.at].b.hist, run[j].b.hist, ReadAlong(run, polls));
    }
  }

  lemma NothingRead(h: Hist)
    ensures Reading(h, Reader([], 0, [], false))
  {
    assert h.delivered[0..] == h.delivered && [] + ([] + Concat(h.delivered)) == Concat(h.delivered);
  }

  lemma {:induction false} AtMostLast(polls: seq<ReadAt>, j: nat)
    requires polls != [] && Scheduled(polls, j)
    ensures Scheduled(polls[..|polls| - 1], polls[|polls| - 1].at)
    decreases |polls|
  {
    var before := polls[..|polls| - 1];
    if before != [] {
      assert Scheduled(before, j);
      AtMostLast(before, j);
      assert polls[|polls| - 2].at <= polls[|polls| - 1].at;
      assert before == before[..|before| - 1] + [before[|before| - 1]];
    }
  }

  // --------------------------------------------------------------------------- end to end

  lemma {:induction false} ConcatPrefix(p: seq<Bytes>, q: seq<Bytes>)
    requires p <= q
    ensures Concat(p) <= Concat(q)
    decreases |p|
  {
    if p != [] {
      ConcatPrefix(p[1..], q[1..]);
    }
  }

  lemma {:induction false} ConcatOfEmpty(p: seq<Bytes>)
    requires forall i | 0 <= i < |p| :: p[i] == []
    ensures Concat(p) == []
  {
    if p != [] {
      ConcatOfEmpty(p[1..]);
    }
  }

  /** An empty packet that can be sent stands before one that is not empty. */
  ghost predicate Gap(cfg: Cfg, d: seq<Bytes>, i: nat, k: nat) {
    i < k < |d| && d[i] == [] && d[k] != [] && forall j | 0 <= j < i :: Fits(cfg, d[j])
  }

  /** A reader that took an empty packet behind which there are only empty ones has read everything. */
  lemma EmptyIsLast(h: Hist, r: Reader, accepted: seq<Bytes>, i: nat)
    requires Reading(h, r) && TookEmpty(h, r, i) && h.delivered <= accepted
    requires forall k | i < k < |accepted| :: accepted[k] == []
    ensures r.bytes == Concat(accepted)
  {
    hide Concat;
    var given, rest := h.delivered, accepted[|h.delivered|..];
    assert accepted == given + rest;
    ConcatOfEmpty(rest);
    ConcatAppend(given, rest);
    assert Concat(given) + [] == Concat(given);
    assert forall k | i < k < |given| :: given[k] == accepted[k];
    NothingAhead(h, r, i);
    assert r.bytes + [] == r.bytes;
  }

  lemma NothingAhead(h: Hist, r: Reader, i: nat)
    requires Honest(h, r) && TookEmpty(h, r, i) && forall k | i < k < |h.delivered| :: h.delivered[k] == []
    ensures AllUnread(Ahead(h, r)) == []
  {
    assert r.taken - 1 >= i && h.delivered[r.taken - 1] == [];
    ConcatOfEmpty(h.delivered[r.taken..]);
  }

  /** In every run, for any reads at one end while the run goes on, the bytes read up to a state are a prefix of the bytes
      accepted from the writer at the other end; and the end is seen only after all of them, unless an empty packet was sent
      before one that is not empty. */
  lemma BytesEndToEnd(run: seq<Sys>, polls: seq<ReadAt>, j: nat)
    requires IsRun(Unbounded, run) && j < |run| && Scheduled(polls, j)
    ensures var accepted, r := run[j].a.hist.accepted, ReadAlong(run, polls);
            && r.bytes <= Concat(accepted)
            && (r.sawEnd && r.bytes != Concat(accepted) ==> exists i: nat, k: nat :: Gap(run[j].a.ep.cfg, accepted, i, k))
  {
    EndToEndDelivery(run, j);
    ReadsKeep(run, polls, j);
    hide IsRun, ReadAlong, Concat, DataPart, Fits;
    var h, r, accepted := run[j].b.hist, ReadAlong(run, polls), run[j].a.hist.accepted;
    ConcatPrefix(h.delivered, accepted);
    NothingLeft();
    if i: nat :| TookEmpty(h, r, i) {
      assert forall k | 0 <= k < i :: Fits(run[j].a.ep.cfg, accepted[k]) by {
        forall k | 0 <= k < i ensures Fits(run[j].a.ep.cfg, accepted[k]) {
          SentDataFits(run, j, k);
        }
      }
      if k: nat :| i < k < |accepted| && accepted[k] != [] {
        assert Gap(run[j].a.ep.cfg, accepted, i, k);
      } else {
        EmptyIsLast(h, r, accepted, i);
      }
    }
  }

  lemma NothingLeft()
    ensures AllUnread(Unread([], [])) == []
  {
  }

  // ------------------------------------------------------------------- the reader in place

  class ReceiverStream {
    var buf: Bytes
    var queue: seq<Bytes>
    var ended: bool

    constructor ()
      ensures Unread(buf, queue) == Unread([], []) && !ended
    {
      buf, queue, ended := [], [], false;
    }

    method Read(space: nat) returns (got: Option<Bytes>)
      modifies this`buf, this`queue
      ensures (Unread(buf, queue), got) == old(PollRead(Unread(buf, queue), ended, space))
      ensures got.Some? ==> |got.value| <= space
      ensures (if got.Some? then got.value else []) + AllUnread(Unread(buf, queue)) == old(AllUnread(Unread(buf, queue)))
    {
      PollReadConserves(Unread(buf, queue), ended, space);
      if buf == [] {
        if queue != [] {
          buf, queue := queue[0], queue[1..];
        } else if !ended {
          return None;
        }
      }
      var len := Min(space, |buf|);
      got := Some(buf[..len]);
      buf := buf[len..];
    }

    /** Takes the rest of a packet, or the next packet. */
    method Next() returns (got: Option<Bytes>)
      modifies this`buf, this`queue
      ensures old(buf) != [] || old(queue) != [] ==> got.Some?
      ensures got.Some? ==> got.value + AllUnread(Unread(buf, queue)) == old(AllUnread(Unread(buf, queue)))
      ensures got.None? ==> Unread(buf, queue) == old(Unread(buf, queue)) == Unread([], [])
    {
      if buf != [] {
        got := Some(buf);
        buf := [];
        assert [] + Concat(queue) == Concat(queue);
        return;
      }
      if queue == [] {
        return None;
      }
      assert AllUnread(Unread(buf, queue)) == queue[0] + Concat(queue[1..]);
      got := Some(queue[0]);
      queue := queue[1..];
      assert [] + Concat(queue) == Concat(queue);
    }
  }
}
