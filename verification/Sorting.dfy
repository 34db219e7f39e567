/** Sorting the resend queue by the 32-bit numbers of its packets. */
module Sorting {
  import opened Numbering
  import opened Protocol
  import opened Invariants

  ghost predicate Increasing(s: seq<nat>) {
    forall i, j | 0 <= i < j < |s| :: s[i] < s[j]
  }

  ghost predicate NonDecreasing(s: seq<nat>) {
    forall i, j | 0 <= i < j < |s| :: s[i] <= s[j]
  }

  ghost predicate AllKept(tx: Tx, s: seq<nat>) {
    forall i | 0 <= i < |s| :: Kept(tx, s[i])
  }

  lemma SomeElement(s: seq<nat>)
    ensures s != [] ==> exists x :: x in s
  {
    if s != [] {
      assert s[0] in s;
    }
  }

  /** An increasing sequence is determined by its elements. */
  lemma {:induction false} IncreasingUnique(a: seq<nat>, b: seq<nat>)
    requires Increasing(a) && Increasing(b) && forall x :: x in a <==> x in b
    ensures a == b
  {
    SomeElement(a);
    SomeElement(b);
    if a != [] {
      assert a[0] in b && b[0] in a;
      assert a[0] == b[0];
      forall x
        ensures x in a[1..] <==> x in b[1..]
      {
        assert x in a[1..] <==> x in a && x != a[0] by {
          assert a == [a[0]] + a[1..];
        }
        assert x in b[1..] <==> x in b && x != b[0] by {
          assert b == [b[0]] + b[1..];
        }
      }
      IncreasingUnique(a[1..], b[1..]);
    }
  }

  /** Packets that are kept at the same time have different numbers. */
  lemma NumbersTellPackets(tx: Tx, u: nat, v: nat)
    requires Numbered(Wrapping, tx) && |tx.packets| <= MODULUS && Kept(tx, u) && Kept(tx, v)
    ensures tx.packets[u - Base(tx)].num == tx.packets[v - Base(tx)].num <==> u == v
  {
    assert tx.packets[u - Base(tx)].uid == u && tx.packets[v - Base(tx)].uid == v;
  }

  /** Within the window, comparing the numbers of two kept packets compares their age. */
  lemma NumbersOrderPackets(tx: Tx, u: nat, v: nat)
    requires Numbered(Wrapping, tx) && |tx.packets| <= ONE_QUARTER && Kept(tx, u) && Kept(tx, v)
    ensures Compare(Wrapping, tx.packets[u - Base(tx)].num, tx.packets[v - Base(tx)].num) == PlainCompare(u, v)
  {
    assert tx.packets[u - Base(tx)].uid == u && tx.packets[v - Base(tx)].uid == v;
    CompareWithinQuarter(u, v);
  }

  /** Inserts a packet behind all packets that are not younger. */
  method InsertByNumber(r: seq<nat>, u: nat, tx: Tx) returns (r': seq<nat>)
    requires Kept(tx, u) && AllKept(tx, r) && NonDecreasing(r)
    requires Numbered(Wrapping, tx) && |tx.packets| <= ONE_QUARTER
    ensures NonDecreasing(r') && AllKept(tx, r') && multiset(r') == multiset(r) + multiset{u}
  {
    hide Numbered, Compare;
    var k := |r|;
    while k > 0 && Compare(Wrapping, tx.packets[r[k - 1] - Base(tx)].num, tx.packets[u - Base(tx)].num) == Greater
      invariant 0 <= k <= |r|
      invariant forall j | k <= j < |r| :: u < r[j]
    {
      NumbersOrderPackets(tx, r[k - 1], u);
      k := k - 1;
    }
    if k > 0 {
      NumbersOrderPackets(tx, r[k - 1], u);
    }
    InsertSorted(r, u, k);
    InsertAdds(r, u, k);
    InsertKept(tx, r, u, k);
    hide *;
    r' := r[..k] + [u] + r[k..];
  }

  lemma InsertSorted(r: seq<nat>, u: nat, k: nat)
    requires NonDecreasing(r) && k <= |r| && (k > 0 ==> r[k - 1] <= u) && forall j | k <= j < |r| :: u < r[j]
    ensures NonDecreasing(r[..k] + [u] + r[k..])
  {
    var r' := r[..k] + [u] + r[k..];
    forall i, j | 0 <= i < j < |r'|
      ensures r'[i] <= r'[j]
    {
      var before, behind := if i < k then r[i] else if i == k then u else r[i - 1], if j < k then r[j] else if j == k then u else r[j - 1];
      assert r'[i] == before && r'[j] == behind;
      assert i < k ==> r[i] <= r[k - 1] <= u;
    }
  }

  lemma InsertAdds(r: seq<nat>, u: nat, k: nat)
    requires k <= |r|
    ensures multiset(r[..k] + [u] + r[k..]) == multiset(r) + multiset{u}
  {
    assert r == r[..k] + r[k..];
  }

  lemma InsertKept(tx: Tx, r: seq<nat>, u: nat, k: nat)
    requires AllKept(tx, r) && Kept(tx, u) && k <= |r|
    ensures AllKept(tx, r[..k] + [u] + r[k..])
  {
    hide Kept;
  }

  /** Stable sort by number, oldest first. */
  method SortByNumber(queue: seq<nat>, tx: Tx) returns (r: seq<nat>)
    requires AllKept(tx, queue)
    requires Numbered(Wrapping, tx) && |tx.packets| <= ONE_QUARTER
    ensures NonDecreasing(r) && multiset(r) == multiset(queue)
  {
    hide Numbered, NonDecreasing;
    NothingIsSorted();
    r := [];
    var i := 0;
    while i < |queue|
      invariant i <= |queue| && NonDecreasing(r) && AllKept(tx, r)
      invariant multiset(r) == multiset(queue[..i])
    {
      r := InsertByNumber(r, queue[i], tx);
      assert queue[..i + 1] == queue[..i] + [queue[i]];
      i := i + 1;
    }
    assert queue[..i] == queue;
  }

  lemma NothingIsSorted()
    ensures NonDecreasing([])
  {
  }

  /** What unconfirming a link adds to the queue for one packet. */
  function NewlyOne(p: Packet, slot: nat): seq<nat> {
    if p.status.Sent? && p.status.slot == slot then [p.uid] else []
  }

  /** The packets that unconfirming a link queues anew. */
  function Newly(ps: seq<Packet>, slot: nat): seq<nat> {
    if ps == [] then [] else Newly(ps[..|ps| - 1], slot) + NewlyOne(ps[|ps| - 1], slot)
  }

  lemma JoinSplits(a: seq<nat>, b: seq<nat>, c: seq<nat>, x: seq<nat>, y: seq<nat>, z: seq<nat>)
    requires multiset(a) + multiset(b) == multiset(c) && multiset(x) + multiset(y) == multiset(z)
    ensures multiset(a + x) + multiset(b + y) == multiset(c + z)
  {
  }

  lemma RequeueSnoc(front: seq<Packet>, last: Packet, slot: nat)
    ensures Newly(front + [last], slot) == Newly(front, slot) + NewlyOne(last, slot)
    ensures Requeue(front + [last], slot)
            == Requeue(front, slot) + [last.(status := RequeueStatus(last.status, slot))]
  {
    assert (front + [last])[..|front|] == front;
  }

  lemma QueueSplitsStep(front: seq<Packet>, last: Packet, slot: nat)
    requires multiset(Queued(front)) + multiset(Newly(front, slot)) == multiset(Queued(Requeue(front, slot)))
    ensures multiset(Queued(front + [last])) + multiset(Newly(front + [last], slot))
            == multiset(Queued(Requeue(front + [last], slot)))
  {
    hide *;
    var last' := last.(status := RequeueStatus(last.status, slot));
    RequeueSnoc(front, last, slot);
    QueuedAppend(front, [last]);
    QueuedAppend(Requeue(front, slot), [last']);
    QueueSplitsOne(last, slot);
    JoinSplits(Queued(front), Newly(front, slot), Queued(Requeue(front, slot)),
               Queued([last]), NewlyOne(last, slot), Queued([last']));
  }

  /** Old and new entries together are the queued packets afterwards, each of them once. */
  lemma {:induction false} QueueSplits(ps: seq<Packet>, slot: nat)
    ensures multiset(Queued(ps)) + multiset(Newly(ps, slot)) == multiset(Queued(Requeue(ps, slot)))
  {
    if ps == [] {
      assert Requeue(ps, slot) == [];
    } else {
      hide *;
      var front, last := ps[..|ps| - 1], ps[|ps| - 1];
      QueueSplits(front, slot);
      assert ps == front + [last];
      QueueSplitsStep(front, last, slot);
    }
  }

  lemma QueueSplitsOne(p: Packet, slot: nat)
    ensures multiset(Queued([p])) + multiset(NewlyOne(p, slot))
            == multiset(Queued([p.(status := RequeueStatus(p.status, slot))]))
  {
    assert Queued([]) == [];
  }

  lemma SortedRequeueIsQueued(ps: seq<Packet>, base: int, slot: nat, r: seq<nat>)
    requires Consecutive(ps, base) && NonDecreasing(r)
    requires multiset(r) == multiset(Queued(ps) + Newly(ps, slot))
    ensures r == Queued(Requeue(ps, slot))
  {
    var q := Queued(Requeue(ps, slot));
    QueueSplits(ps, slot);
    assert Consecutive(Requeue(ps, slot), base);
    QueuedIsExact(Requeue(ps, slot), base);
    hide Queued, Newly, Requeue;
    assert multiset(r) == multiset(q);
    SameMultisetSameOrder(r, q);
  }

  /** No packet is ahead of one that its 32-bit number makes older. */
  ghost predicate SortedByNumber(tx: Tx, r: seq<nat>) {
    && AllKept(tx, r)
    && forall i, j | 0 <= i < j < |r| ::
         Compare(Wrapping, tx.packets[r[i] - Base(tx)].num, tx.packets[r[j] - Base(tx)].num) != Greater
  }

  /** Whatever the algorithm, sorting the old and the new entries by 32-bit number gives the queue that unconfirming a link
      is specified to leave. */
  lemma AnySortIsRequeue(tx: Tx, slot: nat, r: seq<nat>)
    requires Numbered(Wrapping, tx) && |tx.packets| <= ONE_QUARTER && tx.resend == Queued(tx.packets)
    requires SortedByNumber(tx, r) && multiset(r) == multiset(tx.resend + Newly(tx.packets, slot))
    ensures r == TxRequeue(tx, slot).resend
  {
    hide Queued, Newly, Requeue, SortedByNumber, NonDecreasing;
    ByNumberIsByAge(tx, r);
    SortedRequeueIsQueued(tx.packets, Base(tx), slot, r);
  }

  lemma ByNumberIsByAge(tx: Tx, r: seq<nat>)
    requires Numbered(Wrapping, tx) && |tx.packets| <= ONE_QUARTER && SortedByNumber(tx, r)
    ensures NonDecreasing(r)
  {
    hide Numbered, Compare;
    forall i, j | 0 <= i < j < |r|
      ensures r[i] <= r[j]
    {
      NumbersOrderPackets(tx, r[i], r[j]);
    }
  }

  lemma SameMultisetSameOrder(r: seq<nat>, q: seq<nat>)
    requires NonDecreasing(r) && Increasing(q) && multiset(r) == multiset(q)
    ensures r == q
  {
    forall i, j | 0 <= i < j < |r|
      ensures r[i] < r[j]
    {
      OnceIn(q, r[i]);
      if r[i] == r[j] {
        TwiceIn(r, i, j);
      }
    }
    forall x
      ensures x in r <==> x in q
    {
      assert x in r <==> x in multiset(r);
      assert x in q <==> x in multiset(q);
    }
    IncreasingUnique(r, q);
  }

  lemma TwiceIn(s: seq<nat>, i: nat, j: nat)
    requires i < j < |s| && s[i] == s[j]
    ensures multiset(s)[s[i]] >= 2
  {
    assert s == s[..i] + [s[i]] + s[i + 1..j] + [s[j]] + s[j + 1..];
  }

  lemma {:induction false} OnceIn(s: seq<nat>, x: nat)
    requires Increasing(s)
    ensures multiset(s)[x] <= 1
  {
    if s != [] {
      OnceIn(s[1..], x);
      assert s == [s[0]] + s[1..];
      assert s[0] !in s[1..];
    }
  }
}
