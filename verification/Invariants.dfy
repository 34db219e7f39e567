/** What every operation of an endpoint keeps. */
module Invariants {
  import opened Numbering
  import opened Protocol

  // --------------------------------------------------------------- send accounting

  /** Kept packets are numbered without gaps up to the next number. */
  ghost predicate Numbered(num: Numbering, tx: Tx) {
    && |tx.packets| <= tx.created
    && tx.next == Reduce(num, tx.created)
    && Consecutive(tx.packets, Base(tx))
    && (forall i | 0 <= i < |tx.packets| :: tx.packets[i].num == Reduce(num, tx.packets[i].uid))
  }

  ghost predicate Consecutive(ps: seq<Packet>, base: int) {
    forall i | 0 <= i < |ps| :: ps[i].uid == base + i
  }

  /** ... and the oldest one is still unacknowledged. */
  ghost predicate Contiguous(num: Numbering, tx: Tx) {
    Numbered(num, tx) && (tx.packets != [] ==> !tx.packets[0].status.Received?)
  }

  /** The byte counters are the sums over the kept packets. */
  ghost predicate Accounted(tx: Tx) {
    && tx.unacked == Total(Unacked, tx.packets)
    && tx.unconsumable == Total(Unconsumable, tx.packets)
  }

  /** The resend queue holds exactly the queued packets, oldest first. */
  ghost predicate ResendExact(tx: Tx) {
    tx.resend == Queued(tx.packets)
  }

  ghost predicate TxOk(num: Numbering, tx: Tx) {
    Contiguous(num, tx) && Accounted(tx) && ResendExact(tx)
  }

  // ------------------------------------------------------------------------ slots

  ghost predicate DistinctIds(links: seq<Option<Link>>) {
    forall s, t | 0 <= s < t < |links| && links[s].Some? && links[t].Some? ::
      links[s].value.id != links[t].value.id
  }

  ghost predicate Trimmed(links: seq<Option<Link>>) {
    links != [] ==> links[|links| - 1].Some?
  }

  /** A packet that is out on a link names the slot that holds this very link. */
  ghost predicate Slotted(tx: Tx, links: seq<Option<Link>>) {
    forall i | 0 <= i < |tx.packets| && tx.packets[i].status.Sent? ::
      var st := tx.packets[i].status;
      Occupied(links, st.slot) && links[st.slot].value.id == st.link
  }

  ghost predicate LinkAccounted(tx: Tx, links: seq<Option<Link>>) {
    forall s | 0 <= s < |links| && links[s].Some? ::
      links[s].value.unackedData == Total(OnSlot(s), tx.packets)
  }

  ghost predicate Distinct(s: seq<nat>) {
    forall i, j | 0 <= i < j < |s| :: s[i] != s[j]
  }

  /** Idle links are distinct, present, confirmed and not being polled. */
  ghost predicate IdleOk(links: seq<Option<Link>>, idle: seq<nat>) {
    && Distinct(idle)
    && forall k | 0 <= k < |idle| ::
         Occupied(links, idle[k]) && !links[idle[k]].value.unconfirmed && !links[idle[k]].value.polling
  }

  /** A data message is never left without its payload by a link that counts as ready. */
  ghost predicate PayloadPolled(links: seq<Option<Link>>) {
    forall s | 0 <= s < |links| && links[s].Some? :: links[s].value.payload ==> links[s].value.polling
  }

  // ------------------------------------------------------------- link packet lists

  /** A link's own packet list: no packet twice, only packets that are out on
      this link or already received, none of the former missing, and flushed
      ones before unflushed ones. */
  ghost predicate ListOk(tx: Tx, link: Link) {
    && Distinct(link.txed)
    && (forall k | 0 <= k < |link.txed| :: EntryOk(tx, link.id, link.txed[k]))
    && (forall uid: nat | Current(tx, link.id, uid) :: uid in link.txed)
    && FlushedFirst(tx, link)
  }

  ghost predicate EntryOk(tx: Tx, l: LinkId, uid: nat) {
    uid < tx.created && (Kept(tx, uid) ==> StatusOf(tx, uid).Received? || Current(tx, l, uid))
  }

  ghost predicate FlushedFirst(tx: Tx, link: Link) {
    forall j, k | 0 <= j < k < |link.txed|
                  && Current(tx, link.id, link.txed[j]) && Current(tx, link.id, link.txed[k]) ::
      StatusOf(tx, link.txed[k]).flushed ==> StatusOf(tx, link.txed[j]).flushed
  }

  ghost predicate ListsOk(tx: Tx, links: seq<Option<Link>>) {
    forall s | 0 <= s < |links| && links[s].Some? :: ListOk(tx, links[s].value)
  }

  ghost predicate LinksOk(tx: Tx, links: seq<Option<Link>>, idle: seq<nat>) {
    && DistinctIds(links) && Trimmed(links) && Slotted(tx, links) && LinkAccounted(tx, links)
    && IdleOk(links, idle) && PayloadPolled(links) && ListsOk(tx, links)
  }

  // --------------------------------------------------------------- receive buffer

  function SizeOf(a: Option<Arrival>): nat {
    if a.Some? then Size(a.value.msg) else 0
  }

  function BufferedBytes(buffer: seq<Option<Arrival>>): nat {
    if buffer == [] then 0 else SizeOf(buffer[0]) + BufferedBytes(buffer[1..])
  }

  function ConsumableBytes(q: seq<Arrival>): nat {
    if q == [] then 0 else Size(q[0].msg) + ConsumableBytes(q[1..])
  }

  ghost predicate RxOk(num: Numbering, rx: Rx) {
    && (forall i | 0 <= i < |rx.buffer| && rx.buffer[i].Some? ::
          rx.buffer[i].value.num == Advance(num, rx.next, i))
    && (rx.buffer != [] ==> rx.buffer[0].None?)
    && |rx.buffer| <= USABLE_INTERVAL + 1
    && rx.size == BufferedBytes(rx.buffer) + ConsumableBytes(rx.consumable)
    && rx.consumed >= 0
    && (forall i | 0 <= i < |rx.consumable| :: Ordered(rx.consumable[i].msg))
    && (num.Wrapping? ==> rx.next < MODULUS)
  }

  ghost predicate Inv(num: Numbering, e: Ep) {
    TxOk(num, e.tx) && LinksOk(e.tx, e.links, e.idle) && RxOk(num, e.rx) && e.unconsumed >= 0
  }

  // ------------------------------------------------------- lemmas about the packet sums

  lemma {:induction false} TotalAppend(view: View, a: seq<Packet>, b: seq<Packet>)
    ensures Total(view, a + b) == Total(view, a) + Total(view, b)
  {
    if a == [] {
      assert a + b == b;
    } else {
      TotalAppend(view, a[1..], b);
      assert (a + b)[1..] == a[1..] + b;
    }
  }

  lemma {:induction false} TotalUpdate(view: View, ps: seq<Packet>, i: nat, p: Packet)
    requires i < |ps|
    ensures Total(view, ps[i := p]) == Total(view, ps) - Weight(view, ps[i].status) + Weight(view, p.status)
  {
    if i == 0 {
      assert ps[i := p][1..] == ps[1..];
    } else {
      TotalUpdate(view, ps[1..], i - 1, p);
      assert ps[i := p][1..] == ps[1..][i - 1 := p];
    }
  }

  /** Sums only depend on the weights. */
  lemma {:induction false} TotalSame(view: View, a: seq<Packet>, b: seq<Packet>)
    requires |a| == |b|
    requires forall i | 0 <= i < |a| :: Weight(view, a[i].status) == Weight(view, b[i].status)
    ensures Total(view, a) == Total(view, b)
  {
    if a != [] {
      TotalSame(view, a[1..], b[1..]);
    }
  }

  lemma {:induction false} TotalZero(view: View, ps: seq<Packet>)
    requires forall i | 0 <= i < |ps| :: Weight(view, ps[i].status) == 0
    ensures Total(view, ps) == 0
  {
    if ps != [] {
      TotalZero(view, ps[1..]);
    }
  }

  lemma {:induction false} TotalAtLeast(view: View, ps: seq<Packet>, i: nat)
    requires i < |ps|
    ensures Total(view, ps) >= Weight(view, ps[i].status)
  {
    if i > 0 {
      TotalAtLeast(view, ps[1..], i - 1);
    }
  }

  // ----------------------------------------------------- lemmas about the resend queue

  lemma {:induction false} QueuedAppend(a: seq<Packet>, b: seq<Packet>)
    ensures Queued(a + b) == Queued(a) + Queued(b)
  {
    if a == [] {
      assert a + b == b;
    } else {
      var head := if a[0].status.ResendQueued? then [a[0].uid] else [];
      assert (a + b)[1..] == a[1..] + b && (a + b)[0] == a[0];
      assert Queued(a + b) == head + Queued(a[1..] + b);
      assert Queued(a) == head + Queued(a[1..]);
      hide *;
      calc {
        Queued(a + b);
        head + Queued(a[1..] + b);
        { QueuedAppend(a[1..], b); }
        head + (Queued(a[1..]) + Queued(b));
        (head + Queued(a[1..])) + Queued(b);
        Queued(a) + Queued(b);
      }
    }
  }

  lemma {:induction false} QueuedSame(a: seq<Packet>, b: seq<Packet>)
    requires |a| == |b|
    requires forall i | 0 <= i < |a| ::
               a[i].uid == b[i].uid && a[i].status.ResendQueued? == b[i].status.ResendQueued?
    ensures Queued(a) == Queued(b)
  {
    if a != [] {
      QueuedSame(a[1..], b[1..]);
    }
  }

  lemma {:induction false} QueuedNone(ps: seq<Packet>)
    requires forall i | 0 <= i < |ps| :: !ps[i].status.ResendQueued?
    ensures Queued(ps) == []
  {
    if ps != [] {
      QueuedNone(ps[1..]);
    }
  }

  /** The queue read as a set, and its order. */
  lemma {:induction false} QueuedIsExact(ps: seq<Packet>, base: int)
    requires Consecutive(ps, base)
    ensures forall uid :: uid in Queued(ps) <==>
                          base <= uid < base + |ps| && ps[uid - base].status.ResendQueued?
    ensures forall i, j | 0 <= i < j < |Queued(ps)| :: Queued(ps)[i] < Queued(ps)[j]
  {
    if ps != [] {
      QueuedIsExact(ps[1..], base + 1);
      var head := if ps[0].status.ResendQueued? then [ps[0].uid] else [];
      var tail := Queued(ps[1..]);
      assert Queued(ps) == head + tail;
      forall k | 0 <= k < |tail|
        ensures base < tail[k]
      {
        assert tail[k] in tail;
      }
      forall uid
        ensures uid in Queued(ps) <==> base <= uid < base + |ps| && ps[uid - base].status.ResendQueued?
      {
        assert uid in Queued(ps) <==> uid in head || uid in Queued(ps[1..]);
        if base < uid < base + |ps| {
          assert ps[uid - base] == ps[1..][uid - (base + 1)];
        }
      }
    }
  }

  lemma {:induction false} WithoutAppend(a: seq<nat>, b: seq<nat>, x: nat)
    ensures Without(a + b, x) == Without(a, x) + Without(b, x)
  {
    if a == [] {
      assert a + b == b;
    } else {
      WithoutAppend(a[1..], b, x);
      assert (a + b)[1..] == a[1..] + b && (a + b)[0] == a[0];
      var head := if a[0] == x then [] else [a[0]];
      calc {
        Without(a + b, x);
        head + Without(a[1..] + b, x);
        head + (Without(a[1..], x) + Without(b, x));
        (head + Without(a[1..], x)) + Without(b, x);
        Without(a, x) + Without(b, x);
      }
    }
  }

  /** What filtering leaves: the other elements, in their order. */
  lemma {:induction false} WithoutExact(s: seq<nat>, x: nat)
    ensures forall y :: y in Without(s, x) <==> y in s && y != x
    ensures Distinct(s) ==> Distinct(Without(s, x))
    ensures x !in s ==> Without(s, x) == s
    ensures |Without(s, x)| <= |s|
  {
    if s != [] {
      WithoutExact(s[1..], x);
      var head := if s[0] == x then [] else [s[0]];
      var tail := Without(s[1..], x);
      assert Without(s, x) == head + tail;
      assert s == [s[0]] + s[1..];
      forall y
        ensures y in Without(s, x) <==> y in s && y != x
      {
        assert y in head + tail <==> y in head || y in tail;
        assert y in s <==> y == s[0] || y in s[1..];
      }
      if Distinct(s) {
        assert s[0] !in s[1..];
      }
    }
  }

  /** Taking one packet out of the queued state takes exactly it off the queue. */
  lemma {:induction false} QueuedUpdate(ps: seq<Packet>, base: int, i: nat, p: Packet)
    requires i < |ps| && Consecutive(ps, base)
    requires p.uid == ps[i].uid && !p.status.ResendQueued?
    ensures Queued(ps[i := p]) == Without(Queued(ps), p.uid)
  {
    QueuedIsExact(ps, base);
    var a, b := ps[..i], ps[i + 1..];
    assert ps == a + [ps[i]] + b;
    assert ps[i := p] == a + [p] + b;
    QueuedAppend(a + [ps[i]], b);
    QueuedAppend(a, [ps[i]]);
    QueuedAppend(a + [p], b);
    QueuedAppend(a, [p]);
    assert Consecutive(a, base) && Consecutive(b, base + i + 1);
    QueuedIsExact(a, base);
    QueuedIsExact(b, base + i + 1);
    WithoutAppend(Queued(a) + Queued([ps[i]]), Queued(b), p.uid);
    WithoutAppend(Queued(a), Queued([ps[i]]), p.uid);
    WithoutExact(Queued(a), p.uid);
    WithoutExact(Queued(b), p.uid);
    assert Queued([p]) == [];
    assert Without(Queued([ps[i]]), p.uid) == [] by {
      assert Queued([ps[i]]) == [] || Queued([ps[i]]) == [p.uid];
      assert Without([p.uid], p.uid) == [];
    }
  }
}
