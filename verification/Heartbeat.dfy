// The rate-limited heartbeat of one connection, against the shared registry.
// All times are milliseconds of one clock.
module Heartbeat {
  import opened Basics
  import opened Presence
  import opened PresenceRuns

  datatype Timing = Timing(heartbeat: int, lease: int, sweep: int)

  const DEFAULT_HEARTBEAT := 10_000
  const DEFAULT_LEASE := 30_000
  const DEFAULT_SWEEP := 5_000

  /** Nonpositive values take their defaults; the lease covers three heartbeats. */
  function WithDefaults(p: Timing): (q: Timing)
    ensures q.heartbeat > 0 && q.sweep > 0 && q.lease >= 3 * q.heartbeat
    ensures p.heartbeat > 0 ==> q.heartbeat == p.heartbeat
    ensures p.sweep > 0 ==> q.sweep == p.sweep
    ensures p.lease > 0 ==> q.lease == Max(p.lease, 3 * q.heartbeat)
    ensures p.heartbeat <= 0 ==> q.heartbeat == 10_000
    ensures p.lease <= 0 ==> q.lease == Max(30_000, 3 * q.heartbeat)
    ensures p.sweep <= 0 ==> q.sweep == 5_000
  {
    var h := if p.heartbeat <= 0 then DEFAULT_HEARTBEAT else p.heartbeat;
    var l := if p.lease <= 0 then DEFAULT_LEASE else p.lease;
    var s := if p.sweep <= 0 then DEFAULT_SWEEP else p.sweep;
    Timing(h, if l < 3 * h then 3 * h else l, s)
  }

  datatype Beat = Beat(lastRenewal: int, closed: bool)

  /** Handling one observed activity; the second result is the registry after it. */
  function Handled(b: Beat, r: Registry, id: ConnectionId, timing: Timing,
                   observed: int, now: int, fate: Fate): (Beat, Registry)
  {
    if b.closed then (b, r)
    else if now - observed >= timing.lease then (b.(closed := true), r)
    else if now - b.lastRenewal < timing.heartbeat then (b, r)
    else if fate.NotRun? then (b.(closed := true), r)
    else
      var (r', renewed) := Renewed(r, id, timing.lease, now);
      if renewed && fate.Answered? then (Beat(now, false), r') else (b.(closed := true), r')
  }

  class ConnectionHeartbeat {
    var lastRenewal: int
    var closed: bool
    const id: ConnectionId
    const timing: Timing

    function State(): Beat
      reads this
    {
      Beat(lastRenewal, closed)
    }

    constructor (id: ConnectionId, timing: Timing, now: int)
      ensures State() == Beat(now, false) && this.id == id && this.timing == timing
    {
      lastRenewal, closed, this.id, this.timing := now, false, id, timing;
    }

    /** The activity branch of the heartbeat loop. */
    method OnActivity(keys: PresenceKeys, observed: int, now: int, fate: Fate)
      modifies this, keys`expiry
      ensures (State(), keys.State()) == Handled(old(State()), old(keys.State()), id, timing, observed, now, fate)
    {
      if closed { return; }
      if now - observed >= timing.lease {
        closed := true;
        return;
      }
      if now - lastRenewal < timing.heartbeat { return; }
      var renewed := false;
      if !fate.NotRun? { renewed := keys.RenewScript(id, timing.lease, now); }
      if !renewed || !fate.Answered? {
        closed := true;
        return;
      }
      lastRenewal := now;
    }
  }

  /** Whether an activity leads to a renewal. */
  predicate IsDue(b: Beat, timing: Timing, observed: int, now: int) {
    !b.closed && now < observed + timing.lease && now >= b.lastRenewal + timing.heartbeat
  }

  /** The loop ends exactly when an activity is handled a whole lease late, or
      when a due renewal is not confirmed: it was refused, since the membership
      is gone, or it failed. Whatever fails, the lease is renewed as by the
      script or not at all, and a loop that has ended never renews again. */
  lemma ClosesIff(b: Beat, r: Registry, id: ConnectionId, timing: Timing, observed: int, now: int, fate: Fate)
    requires timing.lease > 0
    ensures var (b', r') := Handled(b, r, id, timing, observed, now, fate);
      && (b'.closed <==> b.closed || now >= observed + timing.lease
                         || (now >= b.lastRenewal + timing.heartbeat && !(fate.Answered? && Listed(r, id, now))))
      && b'.lastRenewal == (if IsDue(b, timing, observed, now) && fate.Answered? && Listed(r, id, now)
                            then now else b.lastRenewal)
      && r' == (if IsDue(b, timing, observed, now) && !fate.NotRun?
                then Apply(r, Renew(id, timing.lease), now) else r)
  {
    RenewalIffListed(r, id, timing.lease, now);
  }

  // ---------------------------------------------------------------------
  // Runs of one connection among all others.

  datatype Live = Live(registry: Registry, beat: Beat, now: int, lastActivity: int)

  datatype Happening =
    | Activity(observed: int, t: int, fate: Fate)  // a pong or data frame, and when it is handled
    | Other(c: Command, t: int)                    // any script, by anyone

  function AtOnce(t: int): Happening {
    Activity(t, t, Answered)
  }

  /** The socket is never silent for more than `gap`, activity is handled at
      once, the store answers, and nobody removes this connection on purpose. */
  ghost predicate Enabled(s: Live, e: Happening, id: ConnectionId, gap: int) {
    && s.now <= e.t <= s.lastActivity + gap
    && (e.Activity? ==> e == AtOnce(e.t))
    && (e.Other? ==> e.c != Leave(id))
  }

  ghost function Step(s: Live, e: Happening, id: ConnectionId, timing: Timing): Live {
    match e
    case Activity(observed, t, fate) =>
      var (b, r) := Handled(s.beat, s.registry, id, timing, observed, t, fate);
      Live(r, b, t, t)
    case Other(c, t) => s.(registry := Apply(s.registry, c, t), now := t)
  }

  /** JoinPresence succeeded at t0 and the heartbeat started then. */
  ghost predicate Init(s: Live, id: ConnectionId, timing: Timing, t0: int) {
    && RegistryOk(s.registry)
    && s.beat == Beat(t0, false) && s.now == s.lastActivity == t0
    && id in s.registry.records && s.registry.expiry[id] == t0 + timing.lease
  }

  ghost predicate IsLife(states: seq<Live>, es: seq<Happening>, id: ConnectionId, timing: Timing, gap: int, t0: int) {
    && |states| == |es| + 1
    && Init(states[0], id, timing, t0)
    && forall i :: 0 <= i < |es| ==> IsStep(states, es, id, timing, gap, i)
  }

  ghost predicate IsStep(states: seq<Live>, es: seq<Happening>, id: ConnectionId, timing: Timing, gap: int, i: nat)
    requires |states| == |es| + 1 && i < |es|
  {
    Enabled(states[i], es[i], id, gap) && states[i + 1] == Step(states[i], es[i], id, timing)
  }

  /** Silences of at most `gap` leave room for one rate-limited activity. */
  predicate Covered(timing: Timing, gap: int) {
    gap <= timing.lease - timing.heartbeat
  }

  ghost predicate Alive(s: Live, id: ConnectionId, timing: Timing, gap: int) {
    && RegistryOk(s.registry) && !s.beat.closed
    && s.beat.lastRenewal <= s.lastActivity <= s.now
    && s.lastActivity < s.beat.lastRenewal + timing.heartbeat
    && s.now < s.beat.lastRenewal + timing.heartbeat + Max(gap, 0)
    && id in s.registry.records && s.registry.expiry[id] >= s.beat.lastRenewal + timing.lease
  }

  lemma StepKeepsAlive(s: Live, e: Happening, id: ConnectionId, timing: Timing, gap: int)
    requires 0 < timing.heartbeat <= timing.lease && Covered(timing, gap)
    requires Alive(s, id, timing, gap) && Enabled(s, e, id, gap)
    ensures Alive(Step(s, e, id, timing), id, timing, gap)
  {
    match e {
      case Activity(_, t, _) => ApplyKeepsRegistry(s.registry, Renew(id, timing.lease), t);
      case Other(c, t) =>
        ApplyKeepsRegistry(s.registry, c, t);
        LeaseNeverShortens(s.registry, c, t, id);
    }
  }

  lemma {:induction false} LifeStaysAlive(
    states: seq<Live>, es: seq<Happening>, id: ConnectionId, timing: Timing, gap: int, t0: int, i: nat)
    requires 0 < timing.heartbeat <= timing.lease && Covered(timing, gap)
    requires IsLife(states, es, id, timing, gap, t0) && i < |states|
    ensures Alive(states[i], id, timing, gap)
  {
    if i > 0 {
      LifeStaysAlive(states, es, id, timing, gap, t0, i - 1);
      assert IsStep(states, es, id, timing, gap, i - 1);
      StepKeepsAlive(states[i - 1], es[i - 1], id, timing, gap);
    }
  }

  /** The connection still has its lease and its loop. */
  ghost predicate Kept(s: Live, id: ConnectionId) {
    !s.beat.closed && Listed(s.registry, id, s.now)
  }

  /** No life with silences of at most `gap`, whatever else runs on the
      registry, ever loses its membership. */
  ghost predicate NeverLost(id: ConnectionId, timing: Timing, gap: int) {
    forall states, es, t0, i: nat :: IsLife(states, es, id, timing, gap, t0) && i < |states| ==> Kept(states[i], id)
  }

  /** A run that loses the lease when silence may last any longer: the activity
      just before the first heartbeat is rate-limited away, and the next one
      comes when the lease has run out. */
  lemma LosingRun(timing: Timing, p: Participant, gap: int) returns (states: seq<Live>, es: seq<Happening>)
    requires timing.heartbeat > 0 && timing.lease >= 2 * timing.heartbeat && !Covered(timing, gap)
    ensures IsLife(states, es, p.connectionId, timing, gap, 0)
    ensures states[|es|].beat.closed && !Listed(states[|es|].registry, p.connectionId, states[|es|].now)
  {
    var h, id := timing.heartbeat, p.connectionId;
    var r := Joined(EMPTY, p, timing.lease, 0);
    var s0 := Live(r, Beat(0, false), 0, 0);
    var s1 := Step(s0, AtOnce(h - 1), id, timing);
    var s2 := Step(s1, AtOnce(timing.lease), id, timing);
    states, es := [s0, s1, s2], [AtOnce(h - 1), AtOnce(timing.lease)];
    assert r.stream == [1];
    assert IsStep(states, es, id, timing, gap, 0);
    assert IsStep(states, es, id, timing, gap, 1);
  }

  /** The exact bound, for every setting: a membership can never be lost if and
      only if silences stay within the lease less one heartbeat. */
  lemma SilenceBoundIff(p: Timing, gap: int, q: Participant)
    ensures NeverLost(q.connectionId, WithDefaults(p), gap) <==> Covered(WithDefaults(p), gap)
  {
    var timing, id := WithDefaults(p), q.connectionId;
    if Covered(timing, gap) {
      forall states, es, t0, i: nat | IsLife(states, es, id, timing, gap, t0) && i < |states|
        ensures Kept(states[i], id)
      {
        LifeStaysAlive(states, es, id, timing, gap, t0, i);
      }
    } else {
      var states, es := LosingRun(timing, q, gap);
      assert IsLife(states, es, id, timing, gap, 0) && !Kept(states[|es|], id);
    }
  }

  /** The case the defaults are chosen for: silences of at most two heartbeats
      keep the membership, the rate limiter renews less than three heartbeats
      apart, and no renewal is ever refused. */
  lemma MembershipNeverExpires(
    states: seq<Live>, es: seq<Happening>, id: ConnectionId, p: Timing, t0: int, i: nat)
    requires var timing := WithDefaults(p);
      IsLife(states, es, id, timing, 2 * timing.heartbeat, t0) && i < |states|
    ensures var timing := WithDefaults(p);
      && Kept(states[i], id)
      && states[i].now - states[i].beat.lastRenewal < 3 * timing.heartbeat
  {
    var timing := WithDefaults(p);
    LifeStaysAlive(states, es, id, timing, 2 * timing.heartbeat, t0, i);
  }

  // ---------------------------------------------------------------------
  // Whatever else happens: late activity, failing renewals, removals.

  /** Anything at all, in the order of time; connection IDs are used once. */
  ghost predicate IsHistory(states: seq<Live>, es: seq<Happening>, id: ConnectionId, timing: Timing, t0: int) {
    && |states| == |es| + 1
    && Init(states[0], id, timing, t0)
    && forall i :: 0 <= i < |es| ==> IsTurn(states, es, id, timing, i)
  }

  ghost predicate IsTurn(states: seq<Live>, es: seq<Happening>, id: ConnectionId, timing: Timing, i: nat)
    requires |states| == |es| + 1 && i < |es|
  {
    && states[i].now <= es[i].t
    && !(es[i].Other? && es[i].c.Join? && es[i].c.p.connectionId == id)
    && states[i + 1] == Step(states[i], es[i], id, timing)
  }

  /** The last renewal that the loop believes in did reach the registry: a
      connection that still is a member holds its lease from then on, whether
      the loop is open or, for good, ended. */
  lemma {:induction false} BelievedRenewalHolds(
    states: seq<Live>, es: seq<Happening>, id: ConnectionId, timing: Timing, t0: int, i: nat)
    requires IsHistory(states, es, id, timing, t0) && i < |states| && timing.lease > 0
    ensures var s := states[i];
      && RegistryOk(s.registry) && t0 <= s.beat.lastRenewal <= s.now
      && (id in s.registry.records ==> s.registry.expiry[id] >= s.beat.lastRenewal + timing.lease)
      && (i > 0 && states[i - 1].beat.closed ==> s.beat == states[i - 1].beat)
  {
    if i > 0 {
      BelievedRenewalHolds(states, es, id, timing, t0, i - 1);
      assert IsTurn(states, es, id, timing, i - 1);
      TurnKeepsBelief(states[i - 1], es[i - 1], id, timing);
    }
  }

  lemma TurnKeepsBelief(s: Live, e: Happening, id: ConnectionId, timing: Timing)
    requires RegistryOk(s.registry) && s.now <= e.t && s.beat.lastRenewal <= s.now && timing.lease > 0
    requires id in s.registry.records ==> s.registry.expiry[id] >= s.beat.lastRenewal + timing.lease
    requires !(e.Other? && e.c.Join? && e.c.p.connectionId == id)
    ensures var s' := Step(s, e, id, timing);
      && RegistryOk(s'.registry) && s.beat.lastRenewal <= s'.beat.lastRenewal <= s'.now
      && (id in s'.registry.records ==> s'.registry.expiry[id] >= s'.beat.lastRenewal + timing.lease)
      && (s.beat.closed ==> s'.beat == s.beat)
  {
    match e {
      case Activity(observed, t, fate) =>
        ClosesIff(s.beat, s.registry, id, timing, observed, t, fate);
        ApplyKeepsRegistry(s.registry, Renew(id, timing.lease), t);
      case Other(c, t) =>
        ApplyKeepsRegistry(s.registry, c, t);
        if id in s.registry.records { LeaseNeverShortens(s.registry, c, t, id); }
    }
  }
}
