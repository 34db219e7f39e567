/** Links whose round trips take too long are declared not working; the last usable link is spared. */
module Policing {
  import opened Numbering
  import opened Protocol
  import opened Invariants
  import opened EndpointTask

  /** What is known about the round trips of a link, and the longest one its configuration allows. */
  datatype Timing = Timing(roundtrip: nat, estimates: Option<nat>, maxPing: Option<nat>)

  type Links = seq<Option<Link>>

  const RELIABLE_ESTIMATES := 10

  predicate Confirmed(links: Links, id: nat) {
    Occupied(links, id) && !links[id].value.unconfirmed
  }

  predicate Usable(links: Links, id: nat) {
    Confirmed(links, id) && !links[id].value.blocked
  }

  predicate Measured(t: Timing) {
    t.estimates.Some? && t.estimates.value >= RELIABLE_ESTIMATES
  }

  predicate TooSlow(t: Timing) {
    t.maxPing.Some? && t.roundtrip > t.maxPing.value
  }

  predicate KnownFast(t: Timing) {
    t.maxPing.Some? && t.roundtrip <= t.maxPing.value
  }

  /** The links by whose round trips the others are judged. */
  predicate Trusted(links: Links, timing: seq<Timing>, id: nat)
    requires |timing| == |links|
  {
    Usable(links, id) && Measured(timing[id])
  }

  ghost predicate SomeFast(links: Links, timing: seq<Timing>)
    requires |timing| == |links|
  {
    exists id: nat :: Usable(links, id) && KnownFast(timing[id])
  }

  /** More than twice the allowed spread above some trusted link. */
  ghost predicate SpreadExceeded(links: Links, timing: seq<Timing>, spread: Option<nat>, roundtrip: nat)
    requires |timing| == |links|
  {
    spread.Some? && exists m: nat :: Trusted(links, timing, m) && roundtrip > 2 * (timing[m].roundtrip * spread.value)
  }

  /** Whether a link is declared not working. */
  ghost predicate Condemned(links: Links, timing: seq<Timing>, spread: Option<nat>, id: nat)
    requires |timing| == |links|
  {
    && Confirmed(links, id)
    && (|| (SomeFast(links, timing) && TooSlow(timing[id]))
        || (Measured(timing[id]) && SpreadExceeded(links, timing, spread, timing[id].roundtrip)))
  }

  ghost predicate Fastest(links: Links, timing: seq<Timing>, m: nat)
    requires |timing| == |links|
  {
    Trusted(links, timing, m) && forall j: nat :: Trusted(links, timing, j) ==> timing[m].roundtrip <= timing[j].roundtrip
  }

  // ----------------------------------------------------------------------- who judges whom

  /** All links but `k` are timed alike. */
  ghost predicate SameBut(timing: seq<Timing>, timing': seq<Timing>, k: nat) {
    |timing| == |timing'| && forall j | 0 <= j < |timing| && j != k :: timing'[j] == timing[j]
  }

  /** The round trips of a link that is blocked or unconfirmed do not count for any other link. */
  lemma UnusableJudgesNothing(links: Links, timing: seq<Timing>, timing': seq<Timing>, spread: Option<nat>, k: nat, id: nat)
    requires |timing| == |links| && SameBut(timing, timing', k) && id != k
    requires Occupied(links, k) ==> links[k].value.blocked || links[k].value.unconfirmed
    ensures Condemned(links, timing, spread, id) <==> Condemned(links, timing', spread, id)
  {
    hide Measured, TooSlow, KnownFast;
    forall m: nat
      ensures Trusted(links, timing, m) <==> Trusted(links, timing', m)
      ensures Usable(links, m) && KnownFast(timing[m]) <==> Usable(links, m) && KnownFast(timing'[m])
    {
      assert Usable(links, m) ==> timing'[m] == timing[m];
    }
  }

  predicate FewEstimates(t: Timing) {
    t.estimates.None? || t.estimates.value < 10
  }

  /** A link with fewer than ten estimates is not judged by the spread, and no other link is judged by it. */
  lemma FewEstimatesDoNotCount(links: Links, timing: seq<Timing>, timing': seq<Timing>, spread: Option<nat>, k: nat, roundtrip: nat)
    requires |timing| == |links| && k < |links| && SameBut(timing, timing', k)
    requires FewEstimates(timing[k]) && FewEstimates(timing'[k])
    ensures SpreadExceeded(links, timing, spread, roundtrip) <==> SpreadExceeded(links, timing', spread, roundtrip)
    ensures Condemned(links, timing, spread, k) ==> TooSlow(timing[k])
  {
    forall m: nat ensures Trusted(links, timing, m) <==> Trusted(links, timing', m) {
    }
  }

  // ------------------------------------------------------------------------ the check

  /** The limit given by the ping spread: a multiple of the shortest trusted round trip. */
  method PingSpreadLimit(links: Links, timing: seq<Timing>, spread: Option<nat>) returns (limit: Option<nat>)
    requires |timing| == |links|
    ensures limit.Some? <==> spread.Some? && exists m: nat :: Trusted(links, timing, m)
    ensures limit.Some? ==> exists m: nat :: Fastest(links, timing, m) && limit.value == timing[m].roundtrip * spread.value
  {
    var best: Option<nat> := None;
    for id := 0 to |links|
      invariant best.None? ==> forall j: nat :: Trusted(links, timing, j) ==> j >= id
      invariant best.Some? ==> best.value < id && Trusted(links, timing, best.value)
      invariant best.Some? ==> forall j: nat | j < id :: Trusted(links, timing, j) ==> timing[best.value].roundtrip <= timing[j].roundtrip
    {
      if Trusted(links, timing, id) && (best.None? || timing[id].roundtrip < timing[best.value].roundtrip) {
        best := Some(id);
      }
    }
    if best.None? || spread.None? {
      return None;
    }
    assert Fastest(links, timing, best.value);
    limit := Some(timing[best.value].roundtrip * spread.value);
  }

  method AllLinksSlow(links: Links, timing: seq<Timing>) returns (slow: bool)
    requires |timing| == |links|
    ensures slow <==> !SomeFast(links, timing)
  {
    slow := true;
    for id := 0 to |links|
      invariant slow <==> forall j: nat | j < id :: !(Usable(links, j) && KnownFast(timing[j]))
    {
      if Usable(links, id) && KnownFast(timing[id]) {
        slow := false;
      }
    }
  }

  lemma LimitDecides(links: Links, timing: seq<Timing>, spread: Option<nat>, limit: Option<nat>, roundtrip: nat)
    requires |timing| == |links|
    requires limit.Some? <==> spread.Some? && exists m: nat :: Trusted(links, timing, m)
    requires limit.Some? ==> exists m: nat :: Fastest(links, timing, m) && limit.value == timing[m].roundtrip * spread.value
    ensures SpreadExceeded(links, timing, spread, roundtrip) <==> limit.Some? && roundtrip > 2 * limit.value
  {
    if limit.Some? {
      var m: nat :| Fastest(links, timing, m) && limit.value == timing[m].roundtrip * spread.value;
      forall j: nat | Trusted(links, timing, j)
        ensures timing[m].roundtrip * spread.value <= timing[j].roundtrip * spread.value
      {
        Scaled(timing[m].roundtrip, timing[j].roundtrip, spread.value);
      }
    }
  }

  lemma Scaled(a: nat, b: nat, k: nat)
    requires a <= b
    ensures a * k <= b * k
  {
  }

  /** Collects the links to be declared not working; a link that offends twice is listed twice. */
  method LinksOverLimit(links: Links, timing: seq<Timing>, spread: Option<nat>) returns (ids: seq<nat>)
    requires |timing| == |links|
    ensures forall id: nat :: id in ids <==> Condemned(links, timing, spread, id)
  {
    hide Trusted, KnownFast, SomeFast, SpreadExceeded, Fastest;
    ids := [];
    var slow := AllLinksSlow(links, timing);
    if !slow {
      for id := 0 to |links|
        invariant forall j: nat :: j in ids <==> j < id && Confirmed(links, j) && TooSlow(timing[j])
      {
        if Confirmed(links, id) && TooSlow(timing[id]) {
          ids := ids + [id];
        }
      }
    }
    ghost var first := ids;
    var limit := PingSpreadLimit(links, timing, spread);
    if limit.Some? {
      for id := 0 to |links|
        invariant forall j: nat :: j in ids <==>
          j in first || (j < id && Confirmed(links, j) && Measured(timing[j]) && timing[j].roundtrip > 2 * limit.value)
      {
        if Confirmed(links, id) && Measured(timing[id]) && timing[id].roundtrip > 2 * limit.value {
          ids := ids + [id];
        }
      }
    }
    forall id: nat ensures id in ids <==> Condemned(links, timing, spread, id) {
      if Confirmed(links, id) {
        LimitDecides(links, timing, spread, limit, timing[id].roundtrip);
      }
    }
  }

  // ------------------------------------------------------------------ what it does to the links

  function UnconfirmAll(e: Ep, ids: seq<nat>): Ep {
    if ids == [] then e
    else
      var e1 := UnconfirmAll(e, ids[..|ids| - 1]);
      if Occupied(e1.links, ids[|ids| - 1]) then UnconfirmLink(e1, ids[|ids| - 1]) else e1
  }

  lemma {:induction false} UnconfirmAllExact(e: Ep, ids: seq<nat>)
    requires forall k | 0 <= k < |ids| :: Occupied(e.links, ids[k])
    ensures var e' := UnconfirmAll(e, ids);
            && |e'.links| == |e.links|
            && (forall id: nat :: Occupied(e'.links, id) <==> Occupied(e.links, id))
            && (forall id: nat | Occupied(e.links, id) :: e'.links[id].value.blocked == e.links[id].value.blocked)
            && (forall id: nat | Occupied(e.links, id) ::
                  e'.links[id].value.unconfirmed <==> e.links[id].value.unconfirmed || id in ids)
            && (forall id: nat :: id in e'.idle <==> id in e.idle && id !in ids)
            && |e'.tx.packets| == |e.tx.packets|
  {
    if ids != [] {
      var before, last := ids[..|ids| - 1], ids[|ids| - 1];
      UnconfirmAllExact(e, before);
      var e1 := UnconfirmAll(e, before);
      WithoutExact(e1.idle, last);
      assert forall id: nat :: id in ids <==> id in before || id == last;
    }
  }

  // ------------------------------------------------------------------ when a usable link is spared

  type Limits = seq<Option<nat>>

  /** Round trips and estimates are anything; the limits are configured. */
  ghost predicate HasLimits(timing: seq<Timing>, limits: Limits) {
    |timing| == |limits| && forall i | 0 <= i < |limits| :: timing[i].maxPing == limits[i]
  }

  /** No usable link may take so long that, by the spread, it is judged by another one that is itself too slow. */
  ghost predicate Compatible(links: Links, limits: Limits, spread: Option<nat>)
    requires |limits| == |links|
  {
    spread.None?
    || forall u: nat, v: nat | Usable(links, u) && Usable(links, v) && limits[u].Some? && limits[v].Some? ::
         limits[u].value <= 2 * ((limits[v].value + 1) * spread.value)
  }

  lemma {:induction false} FastestExists(links: Links, timing: seq<Timing>, m: nat) returns (f: nat)
    requires |timing| == |links| && Trusted(links, timing, m)
    ensures Fastest(links, timing, f)
    decreases timing[m].roundtrip
  {
    if j: nat :| Trusted(links, timing, j) && timing[j].roundtrip < timing[m].roundtrip {
      f := FastestExists(links, timing, j);
    } else {
      f := m;
    }
  }

  lemma FastestIsSpared(links: Links, timing: seq<Timing>, spread: Option<nat>, f: nat)
    requires |timing| == |links| && Fastest(links, timing, f)
    requires spread.Some? ==> spread.value > 0
    ensures !SpreadExceeded(links, timing, spread, timing[f].roundtrip)
  {
    if spread.Some? {
      forall m: nat | Trusted(links, timing, m) ensures timing[f].roundtrip <= 2 * (timing[m].roundtrip * spread.value) {
        Scaled(1, spread.value, timing[m].roundtrip);
      }
    }
  }

  /** A link within its own limit is spared when the trusted links are too slow but not by too much. */
  lemma FastIsSpared(links: Links, timing: seq<Timing>, limits: Limits, spread: Option<nat>, w: nat, f: nat)
    requires |timing| == |links| == |limits| && HasLimits(timing, limits) && Compatible(links, limits, spread)
    requires Usable(links, w) && KnownFast(timing[w])
    requires Fastest(links, timing, f) && TooSlow(timing[f])
    ensures !Condemned(links, timing, spread, w)
  {
    if spread.Some? {
      forall m: nat | Trusted(links, timing, m) ensures timing[w].roundtrip <= 2 * (timing[m].roundtrip * spread.value) {
        Scaled(limits[f].value + 1, timing[m].roundtrip, spread.value);
      }
    }
  }

  /** With compatible limits, whatever links are declared not working, some usable link is not. */
  lemma SomeLinkIsSpared(links: Links, timing: seq<Timing>, limits: Limits, spread: Option<nat>, id: nat) returns (spared: nat)
    requires |timing| == |links| == |limits| && HasLimits(timing, limits) && Compatible(links, limits, spread)
    requires spread.Some? ==> spread.value > 0
    requires Condemned(links, timing, spread, id)
    ensures Usable(links, spared) && !Condemned(links, timing, spread, spared)
  {
    if w: nat :| Usable(links, w) && KnownFast(timing[w]) {
      if !Measured(timing[w]) {
        spared := w;
      } else {
        spared := FastestExists(links, timing, w);
        FastestIsSpared(links, timing, spread, spared);
        if TooSlow(timing[spared]) {
          FastIsSpared(links, timing, limits, spread, w, spared);
          spared := w;
        }
      }
    } else {
      var m: nat :| Trusted(links, timing, m);
      spared := FastestExists(links, timing, m);
      FastestIsSpared(links, timing, spread, spared);
    }
  }

  /** Round trips by which limits that are not compatible make every usable link fail: `v` is just too slow, `u` just within
      its limit, and all the others as slow as `u`. */
  function Misjudged(limits: Limits, u: nat, v: nat): (timing: seq<Timing>)
    requires u < |limits| && v < |limits| && limits[u].Some? && limits[v].Some?
    ensures |timing| == |limits|
  {
    seq(|limits|, i requires 0 <= i < |limits| =>
      Timing(if i == v then limits[v].value + 1 else limits[u].value, Some(RELIABLE_ESTIMATES), limits[i]))
  }

  lemma AllAreTaken(links: Links, limits: Limits, k: nat, u: nat, v: nat, id: nat)
    requires |limits| == |links| && Usable(links, u) && Usable(links, v) && limits[u].Some? && limits[v].Some? && k > 0
    requires limits[u].value > 2 * ((limits[v].value + 1) * k)
    requires Usable(links, id)
    ensures Condemned(links, Misjudged(limits, u, v), Some(k), id)
  {
    var timing := Misjudged(limits, u, v);
    Scaled(1, k, limits[v].value + 1);
    assert Usable(links, u) && KnownFast(timing[u]);
    assert Trusted(links, timing, v) && limits[u].value > 2 * (timing[v].roundtrip * k);
  }

  /** The links listed are exactly those declared not working. */
  ghost predicate Lists(links: Links, timing: seq<Timing>, spread: Option<nat>, ids: seq<nat>)
    requires |timing| == |links|
  {
    forall id: nat :: id in ids <==> Condemned(links, timing, spread, id)
  }

  lemma {:induction false} ListExists(links: Links, timing: seq<Timing>, spread: Option<nat>, n: nat) returns (ids: seq<nat>)
    requires |timing| == |links| && n <= |links|
    ensures forall id: nat :: id in ids <==> id < n && Condemned(links, timing, spread, id)
  {
    hide Condemned;
    ids := [];
    if n > 0 {
      ids := ListExists(links, timing, spread, n - 1);
      if Condemned(links, timing, spread, n - 1) {
        ids := ids + [n - 1];
      }
    }
  }

  /** Some usable link is left at `e` after any round of policing that takes a link, whatever the round trips. */
  ghost predicate SparesSome(e: Ep, limits: Limits, spread: Option<nat>)
    requires |limits| == |e.links|
  {
    forall timing: seq<Timing>, ids: seq<nat> | HasLimits(timing, limits) && ids != [] && Lists(e.links, timing, spread, ids) ::
      exists id: nat :: Usable(UnconfirmAll(e, ids).links, id)
  }

  lemma UsableAfter(e: Ep, timing: seq<Timing>, spread: Option<nat>, ids: seq<nat>, id: nat)
    requires |timing| == |e.links| && Lists(e.links, timing, spread, ids)
    ensures Usable(UnconfirmAll(e, ids).links, id) <==> Usable(e.links, id) && !Condemned(e.links, timing, spread, id)
  {
    hide Condemned;
    forall k | 0 <= k < |ids| ensures Occupied(e.links, ids[k]) {
      CondemnedIsOccupied(e.links, timing, spread, ids[k]);
    }
    UnconfirmAllExact(e, ids);
    hide UnconfirmAll;
  }

  lemma CompatibleSpares(e: Ep, limits: Limits, spread: Option<nat>, timing: seq<Timing>, ids: seq<nat>)
    requires |limits| == |e.links| && (spread.Some? ==> spread.value > 0) && Compatible(e.links, limits, spread)
    requires HasLimits(timing, limits) && ids != [] && Lists(e.links, timing, spread, ids)
    ensures exists id: nat :: Usable(UnconfirmAll(e, ids).links, id)
  {
    assert ids[0] in ids;
    assert Condemned(e.links, timing, spread, ids[0]);
    hide *;
    var spared := SomeLinkIsSpared(e.links, timing, limits, spread, ids[0]);
    UsableAfter(e, timing, spread, ids, spared);
  }

  /** Policing never takes the last usable link, whatever the round trips, exactly when the limits are compatible. */
  lemma SparesIffCompatible(e: Ep, limits: Limits, spread: Option<nat>)
    requires |limits| == |e.links| && (spread.Some? ==> spread.value > 0)
    ensures SparesSome(e, limits, spread) <==> Compatible(e.links, limits, spread)
  {
    if Compatible(e.links, limits, spread) {
      forall timing: seq<Timing>, ids: seq<nat> | HasLimits(timing, limits) && ids != [] && Lists(e.links, timing, spread, ids)
        ensures exists id: nat :: Usable(UnconfirmAll(e, ids).links, id)
      {
        hide *;
        CompatibleSpares(e, limits, spread, timing, ids);
      }
    } else {
      var u: nat, v: nat :| Usable(e.links, u) && Usable(e.links, v) && limits[u].Some? && limits[v].Some?
                            && limits[u].value > 2 * ((limits[v].value + 1) * spread.value);
      var timing := Misjudged(limits, u, v);
      assert HasLimits(timing, limits);
      var ids := ListExists(e.links, timing, spread, |e.links|);
      assert Lists(e.links, timing, spread, ids);
      AllAreTaken(e.links, limits, spread.value, u, v, u);
      assert u in ids;
      forall id: nat ensures !Usable(UnconfirmAll(e, ids).links, id) {
        UsableAfter(e, timing, spread, ids, id);
        if Usable(e.links, id) {
          AllAreTaken(e.links, limits, spread.value, u, v, id);
        }
      }
      hide *;
    }
  }

  /** With one configuration for all links, policing never takes the last usable link. */
  lemma SharedLimitSpares(e: Ep, limits: Limits, spread: Option<nat>)
    requires |limits| == |e.links| && (spread.Some? ==> spread.value > 0)
    requires forall i: nat, j: nat | Occupied(e.links, i) && Occupied(e.links, j) :: limits[i] == limits[j]
    ensures SparesSome(e, limits, spread)
  {
    if spread.Some? {
      forall u: nat, v: nat | Usable(e.links, u) && Usable(e.links, v) && limits[u].Some? && limits[v].Some?
        ensures limits[u].value <= 2 * ((limits[v].value + 1) * spread.value)
      {
        Scaled(1, spread.value, limits[v].value + 1);
      }
    }
    SparesIffCompatible(e, limits, spread);
  }

  /** Two usable links of which one may be 100 slow and the other 5: with a spread of 5 all links can be taken. */
  lemma DifferentLimitsTakeAll(e: Ep)
    requires |e.links| == 2 && Usable(e.links, 0) && Usable(e.links, 1)
    ensures !SparesSome(e, [Some(100), Some(5)], Some(5))
  {
    var limits: Limits := [Some(100), Some(5)];
    assert Usable(e.links, 0) && Usable(e.links, 1) && limits[0].value > 2 * ((limits[1].value + 1) * 5);
    SparesIffCompatible(e, limits, Some(5));
  }

  // ---------------------------------------------------------------------- at an endpoint

  method CheckLinkLimits(ep: Endpoint, timing: seq<Timing>, spread: Option<nat>) returns (ids: seq<nat>)
    requires |timing| == |ep.links| && |ep.txedPackets| <= ONE_QUARTER
    requires ep.Valid()
    modifies ep
    ensures forall id: nat :: id in ids <==> old(Condemned(ep.links, timing, spread, id))
    ensures forall k | 0 <= k < |ids| :: old(Occupied(ep.links, ids[k]))
    ensures ep.State() == UnconfirmAll(old(ep.State()), ids)
    ensures ep.Valid()
  {
    hide Inv, Condemned, UnconfirmLink;
    ids := LinksOverLimit(ep.links, timing, spread);
    ghost var e := ep.State();
    forall k | 0 <= k < |ids| ensures Occupied(e.links, ids[k]) {
      CondemnedIsOccupied(e.links, timing, spread, ids[k]);
    }
    for k := 0 to |ids|
      invariant ep.Valid()
      invariant ep.State() == UnconfirmAll(e, ids[..k])
    {
      UnconfirmAllExact(e, ids[..k]);
      assert ids[..k + 1][..k] == ids[..k];
      ep.UnconfirmLink(ids[k]);
    }
    assert ids[..|ids|] == ids;
  }

  lemma CondemnedIsOccupied(links: Links, timing: seq<Timing>, spread: Option<nat>, id: nat)
    requires |timing| == |links| && Condemned(links, timing, spread, id)
    ensures Occupied(links, id)
  {
  }
}
