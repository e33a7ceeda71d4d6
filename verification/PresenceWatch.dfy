// The presence watcher's loop over real sockets, run until it has nothing left
// to consume while no other script intervenes.
module PresenceWatch {
  import opened Basics
  import opened Presence
  import opened PresenceRuns
  import opened PresenceDelivery

  class PresenceSocket {
    var sent: bool
    var revision: int
    var frames: seq<Loaded>
    const limit: nat

    function State(): Socket
      reads this
    {
      Socket(sent, revision, frames, limit, Ready)
    }

    constructor (limit: nat)
      ensures State() == Socket(false, 0, [], limit, Ready)
    {
      sent, revision, frames, this.limit := false, 0, [], limit;
    }

    /** The revision check and the write are one critical section. */
    method WritePresence(s: Loaded) returns (ok: bool)
      modifies this
      ensures State() == PresenceWritten(old(State()), s)
      ensures !ok ==> !State().CanWrite()
    {
      if sent && s.revision <= revision { return true; }
      ok := |frames| < limit;
      if !ok { return; }
      frames := frames + [s];
      revision := s.revision;
      sent := true;
    }
  }

  ghost predicate AllOk(sockets: set<PresenceSocket>, r: Registry)
    reads sockets
  {
    forall c :: c in sockets ==> SocketOk(c.State(), r)
  }

  ghost predicate AllCovered(sockets: set<PresenceSocket>, k: nat)
    reads sockets
  {
    forall c :: c in sockets ==> Covered(c.State(), k)
  }

  /** A socket that is listed twice gets no second frame. */
  lemma WrittenOnce(c: Socket, s: Loaded)
    ensures PresenceWritten(PresenceWritten(c, s), s) == PresenceWritten(c, s)
  {
  }

  method BroadcastPresenceSnapshot(sockets: seq<PresenceSocket>, s: Loaded, ghost r: Registry)
    requires Genuine(s, r) && s.revision >= 0 && AllOk(Elements(sockets), r)
    modifies Elements(sockets)
    ensures AllOk(Elements(sockets), r)
    ensures AllCovered(Elements(sockets), s.revision)
    ensures forall c :: c in sockets ==> c.State() == PresenceWritten(old(c.State()), s)
  {
    for i := 0 to |sockets|
      invariant forall c :: c in sockets ==>
        c.State() == if c in sockets[..i] then PresenceWritten(old(c.State()), s) else old(c.State())
    {
      WrittenOnce(old(sockets[i].State()), s);
      var ok := sockets[i].WritePresence(s);
      assert sockets[..i + 1] == sockets[..i] + [sockets[i]];
    }
    assert sockets[..|sockets|] == sockets;
    forall c | c in sockets ensures SocketOk(c.State(), r) && Covered(c.State(), s.revision) {
      WrittenIsOk(old(c.State()), s, r);
    }
  }

  lemma AllOkAfterPrune(sockets: set<PresenceSocket>, r: Registry, now: int)
    requires AllOk(sockets, r)
    ensures AllOk(sockets, Pruned(r, now))
  {
    forall c | c in sockets ensures SocketOk(c.State(), Pruned(r, now)) {
      var so := c.State();
      forall i | 0 <= i < |so.frames| ensures Genuine(so.frames[i], Pruned(r, now)) {
        GenuineAfter(so.frames[i], r, Read, now);
      }
    }
  }

  /** A prune takes members away, or leaves the notifications as they are. */
  lemma PruneOutcome(r: Registry, now: int)
    requires RegistryOk(r)
    ensures var r' := Pruned(r, now);
      && RegistryOk(r') && r'.revision == |r'.stream| >= |r.stream|
      && (|r'.records| < |r.records| || (|r'.records| == |r.records| && |r'.stream| == |r.stream|))
  {
    ApplyKeepsRegistry(r, Read, now);
    PrunedMembers(r, now);
    if |DeadMembers(r, now)| == 0 { assert DeadMembers(r, now) == {}; }
  }

  /** One turn: consume a batch, read one snapshot - which may prune and so
      notify again - and broadcast it. Either a member went or the cursor moved. */
  method Turn(keys: PresenceKeys, sockets: seq<PresenceSocket>, cursor: nat, pageSize: nat, now: int)
    returns (next: nat)
    requires RegistryOk(keys.State()) && cursor < |keys.stream| && pageSize > 0
    requires AllOk(Elements(sockets), keys.State())
    modifies keys, Elements(sockets)
    ensures RegistryOk(keys.State()) && next == Min(cursor + pageSize, |old(keys.stream)|)
    ensures keys.State() == Pruned(old(keys.State()), now) && cursor < next <= |keys.stream|
    ensures forall c :: c in sockets ==>
      c.State() == PresenceWritten(old(c.State()), Loaded(keys.revision, keys.records))
    ensures AllOk(Elements(sockets), keys.State()) && AllCovered(Elements(sockets), next)
    ensures |keys.records| < |old(keys.records)|
         || (|keys.records| == |old(keys.records)| && |keys.stream| == |old(keys.stream)|)
  {
    next := if cursor + pageSize < |keys.stream| then cursor + pageSize else |keys.stream|;
    ghost var before := keys.State();
    PruneOutcome(before, now);
    AllOkAfterPrune(Elements(sockets), before, now);
    var removed := keys.PruneScript(now);
    BroadcastPresenceSnapshot(sockets, Loaded(keys.revision, keys.records), keys.State());
  }

  lemma CoveredIsCurrent(c: PresenceSocket, r: Registry)
    requires RegistryOk(r) && SocketOk(c.State(), r) && Covered(c.State(), |r.stream|) && c.State().CanWrite()
    ensures c.frames != [] && c.frames[|c.frames| - 1] == Loaded(r.revision, r.records)
  {
    assert Genuine(c.frames[|c.frames| - 1], r);
  }

  /** watchPresence, from any cursor and with the clock moving at will: it ends
      with the current membership on every working socket. */
  method WatchPresence(keys: PresenceKeys, sockets: seq<PresenceSocket>, start: nat, pageSize: nat, now: int)
    returns (cursor: nat)
    requires RegistryOk(keys.State()) && start <= |keys.stream| && pageSize > 0
    requires AllOk(Elements(sockets), keys.State()) && AllCovered(Elements(sockets), start)
    modifies keys, Elements(sockets)
    ensures RegistryOk(keys.State()) && cursor == |keys.stream|
    ensures forall c :: c in sockets && c.State().CanWrite() ==>
      c.frames != [] && c.frames[|c.frames| - 1] == Loaded(keys.revision, keys.records)
  {
    cursor := start;
    var clock := now;
    while cursor < |keys.stream|
      invariant RegistryOk(keys.State()) && cursor <= |keys.stream|
      invariant AllOk(Elements(sockets), keys.State()) && AllCovered(Elements(sockets), cursor)
      decreases |keys.records|, |keys.stream| - cursor
    {
      var t: int := *;
      clock := Max(clock, t);
      cursor := Turn(keys, sockets, cursor, pageSize, clock);
    }
    forall c | c in sockets && c.State().CanWrite()
      ensures c.frames != [] && c.frames[|c.frames| - 1] == Loaded(keys.revision, keys.records)
    {
      CoveredIsCurrent(c, keys.State());
    }
  }
}
