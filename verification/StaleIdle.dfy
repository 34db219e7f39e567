/** Whether any link idles is noted before slow links are declared not working, and used afterwards. */
module StaleIdle {
  import opened Protocol
  import opened System
  import opened Policing
  import opened Scenarios

  /** The event that returns credit over an idle link is raised by what was noted before the policing, and finds no idle
      link after it. */
  ghost predicate PopFails(e: Ep, ids: seq<nat>) {
    ConsumeAckRequired(e) && e.idle != [] && UnconfirmAll(e, ids).idle == []
  }

  /** This happens exactly when credit is due and links idle, all of which are declared not working. */
  lemma PopFailsIff(e: Ep, timing: seq<Timing>, spread: Option<nat>, ids: seq<nat>)
    requires |timing| == |e.links| && Lists(e.links, timing, spread, ids)
    ensures PopFails(e, ids) <==>
            ConsumeAckRequired(e) && e.idle != [] && forall id: nat | id in e.idle :: Condemned(e.links, timing, spread, id)
  {
    hide Condemned;
    forall k | 0 <= k < |ids| ensures Occupied(e.links, ids[k]) {
      CondemnedIsOccupied(e.links, timing, spread, ids[k]);
    }
    UnconfirmAllExact(e, ids);
    hide UnconfirmAll, ConsumeAckRequired;
    var idle := UnconfirmAll(e, ids).idle;
    assert idle != [] ==> idle[0] in idle;
  }

  // ------------------------------------------------------------------------ a run that gets there

  lemma ByteIsThere(ca: Cfg, cb: Cfg, gated: bool) returns (s: Sys, n: nat)
    requires Matching(ca, cb)
    ensures s.a.ep.cfg == ca && s.b.ep.cfg == cb && s.gated == gated && s.haltB.None? && s.b.ep.user.readOpen
    ensures s.b.ep.links == [Some(NewLink(0, false, 1)), Some(NewLink(1, false, 1))] && s.b.ep.idle == []
    ensures s.b.ep.rx == Rx(n + 1, [], [Arrival(n, Data([0]))], 1, cb.recvBuffer / 10)
    ensures Reachable(s)
  {
    s := Connected(ca, cb, gated);
    assert Metered(s, 1, 0, 0) && Fits(ca, [0]);
    hide Reachable, Quiet, Fits;
    s, n := TopUp(s, 1, 0, 0, ca.remoteRecvBuffer / 10);
    s := Transfer(s, 1, n, ca.remoteRecvBuffer / 10, [0]);
  }

  lemma IdledOver(e: Ep)
    requires e.links == [Some(NewLink(0, false, 1)), Some(NewLink(1, false, 1))] && e.idle == []
    ensures TouchEnabled(e, 0, Idled)
    ensures ApplyTouch(e, 0, Idled)
            == e.(links := [Some(NewLink(0, false, 1).(polling := false)), Some(NewLink(1, false, 1))], idle := [0])
  {
    assert Without([], 0) + [0] == [0];
  }

  /** In every configuration an endpoint can get into a state in which credit is due and link 0 is the only idle one. */
  lemma OnlyOneIdles(ca: Cfg, cb: Cfg, gated: bool) returns (s: Sys)
    requires Matching(ca, cb)
    ensures s.a.ep.cfg == ca && s.b.ep.cfg == cb && s.gated == gated
    ensures ConsumeAckRequired(s.b.ep) && s.b.ep.idle == [0]
    ensures s.b.ep.links == [Some(NewLink(0, false, 1).(polling := false)), Some(NewLink(1, false, 1))]
    ensures Reachable(s)
  {
    var n;
    s, n := ByteIsThere(ca, cb, gated);
    IdledOver(s.b.ep);
    hide Reachable, Enabled, Act, ApplyTouch, TouchEnabled;
    TouchIs(Swap(s), 0, Idled);
    s := DoB(s, TouchLink(0, Idled));
    ConsumeIs(Swap(s), n + 1, cb.recvBuffer / 10, [0]);
    s := DoB(s, ConsumeNext);
  }

  /** Link 0 is too slow for its limit, link 1 is not; the limits are the same. */
  const ONE_SLOW := [Timing(10, None, Some(5)), Timing(1, None, Some(5))]

  lemma OneIsCondemned(links: Links, spread: Option<nat>)
    requires links == [Some(NewLink(0, false, 1).(polling := false)), Some(NewLink(1, false, 1))]
    ensures Lists(links, ONE_SLOW, spread, [0])
  {
    assert Usable(links, 1) && KnownFast(ONE_SLOW[1]);
    assert Condemned(links, ONE_SLOW, spread, 0);
  }

  /** In every configuration there is a reachable state in which the policing takes the only idle link just when credit
      is to be returned over it, although all links have the same limit and another link stays usable. */
  lemma IdleSampleCanBeStale(ca: Cfg, cb: Cfg, gated: bool, spread: Option<nat>) returns (s: Sys)
    requires Matching(ca, cb)
    ensures s.a.ep.cfg == ca && s.b.ep.cfg == cb && s.gated == gated && |s.b.ep.links| == 2
    ensures Lists(s.b.ep.links, ONE_SLOW, spread, [0]) && PopFails(s.b.ep, [0])
    ensures Usable(UnconfirmAll(s.b.ep, [0]).links, 1)
    ensures Reachable(s)
  {
    s := OnlyOneIdles(ca, cb, gated);
    hide Reachable, ConsumeAckRequired, UnconfirmAll, Lists, Condemned;
    OneIsCondemned(s.b.ep.links, spread);
    ListsExactly(s.b.ep.links, spread);
    PopFailsIff(s.b.ep, ONE_SLOW, spread, [0]);
    UsableAfter(s.b.ep, ONE_SLOW, spread, [0], 1);
  }

  lemma ListsExactly(links: Links, spread: Option<nat>)
    requires |links| == 2 && Lists(links, ONE_SLOW, spread, [0])
    ensures Condemned(links, ONE_SLOW, spread, 0) && !Condemned(links, ONE_SLOW, spread, 1)
  {
    hide Condemned;
    assert 0 in [0] && 1 !in [0];
  }
}
