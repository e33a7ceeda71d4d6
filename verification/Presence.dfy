// The presence registry of one room: a hash of records, a sorted set of lease
// expiries, a revision counter and a notification stream, changed by scripts.
module Presence {
  import opened Basics

  /** Connection IDs are fresh random strings; only their order matters. */
  type ConnectionId = int

  datatype Participant = Participant(
    connectionId: ConnectionId, clientId: string, username: string, instanceId: string)

  datatype Registry = Registry(
    records: map<ConnectionId, Participant>, expiry: map<ConnectionId, int>,
    revision: int, stream: seq<int>)

  const EMPTY := Registry(map[], map[], 0, [])

  function Notified(r: Registry): Registry {
    r.(revision := r.revision + 1, stream := r.stream + [r.revision + 1])
  }

  /** Has no lease, or one that has run out. */
  predicate Dead(r: Registry, id: ConnectionId, now: int) {
    id !in r.expiry || r.expiry[id] <= now
  }

  function Joined(r: Registry, p: Participant, lease: int, now: int): Registry {
    if p.connectionId in r.records then r
    else
      Notified(r.(records := r.records[p.connectionId := p],
                  expiry := r.expiry[p.connectionId := now + lease]))
  }

  function Left(r: Registry, id: ConnectionId): Registry {
    var r' := r.(records := r.records - {id}, expiry := r.expiry - {id});
    if id in r.records then Notified(r') else r'
  }

  function Renewed(r: Registry, id: ConnectionId, lease: int, now: int): (Registry, bool) {
    if id !in r.records || Dead(r, id, now) then (r, false)
    else if now + lease > r.expiry[id] then (r.(expiry := r.expiry[id := now + lease]), true)
    else (r, true)
  }

  function DeadMembers(r: Registry, now: int): set<ConnectionId> {
    set id | id in r.records && Dead(r, id, now)
  }

  /** What removing every score up to `now` from the sorted set leaves. */
  function Unexpired(expiry: map<ConnectionId, int>, now: int): map<ConnectionId, int> {
    map id | id in expiry && expiry[id] > now :: expiry[id]
  }

  function Pruned(r: Registry, now: int): Registry {
    var r' := r.(records := r.records - DeadMembers(r, now),
                 expiry := Unexpired(r.expiry, now));
    if DeadMembers(r, now) != {} then Notified(r') else r'
  }

  /** Both entries of each member in `gone` deleted. */
  function Swept(r: Registry, gone: set<ConnectionId>): Registry {
    r.(records := r.records - gone, expiry := r.expiry - gone)
  }

  /** The dead members among the hash keys already looked at. */
  ghost function Judged(r: Registry, now: int, todo: set<ConnectionId>): set<ConnectionId> {
    set id | id in r.records && id !in todo && Dead(r, id, now)
  }

  lemma NothingJudged(r: Registry, now: int)
    ensures Judged(r, now, r.records.Keys) == {} && Swept(r, {}) == r
  {
  }

  /** One turn of the prune loop. */
  lemma MemberJudged(r: Registry, now: int, todo: set<ConnectionId>, id: ConnectionId)
    requires id in todo && todo <= r.records.Keys
    ensures var s := Swept(r, Judged(r, now, todo));
      && (Dead(s, id, now) <==> Dead(r, id, now))
      && Swept(r, Judged(r, now, todo - {id})) == (if Dead(r, id, now) then Swept(s, {id}) else s)
      && |Judged(r, now, todo - {id})| == |Judged(r, now, todo)| + if Dead(r, id, now) then 1 else 0
  {
    if Dead(r, id, now) {
      assert Judged(r, now, todo - {id}) == Judged(r, now, todo) + {id};
    } else {
      assert Judged(r, now, todo - {id}) == Judged(r, now, todo);
    }
  }

  lemma SweepAfterMembers(r: Registry, now: int)
    ensures Unexpired(r.expiry - DeadMembers(r, now), now) == Unexpired(r.expiry, now)
  {
    var a, b := Unexpired(r.expiry - DeadMembers(r, now), now), Unexpired(r.expiry, now);
    forall id | id in b ensures id in a && a[id] == b[id] {
      assert !Dead(r, id, now);
    }
    assert a == b;
  }

  /** Deleting the dead members one by one and then every expired lease. */
  lemma PrunedIsSwept(r: Registry, now: int)
    ensures var s := Swept(r, Judged(r, now, {}));
      var s' := s.(expiry := Unexpired(s.expiry, now));
      && |Judged(r, now, {})| == |DeadMembers(r, now)|
      && Pruned(r, now) == if |DeadMembers(r, now)| > 0 then Notified(s') else s'
  {
    assert Judged(r, now, {}) == DeadMembers(r, now);
    SweepAfterMembers(r, now);
  }

  class PresenceKeys {
    var records: map<ConnectionId, Participant>
    var expiry: map<ConnectionId, int>
    var revision: int
    var stream: seq<int>

    function State(): Registry
      reads this
    {
      Registry(records, expiry, revision, stream)
    }

    constructor ()
      ensures State() == EMPTY
    {
      records, expiry, revision, stream := map[], map[], 0, [];
    }

    method Notify()
      modifies this`revision, this`stream
      ensures State() == Notified(old(State()))
    {
      revision := revision + 1;
      stream := stream + [revision];
    }

    method JoinScript(p: Participant, lease: int, now: int) returns (rev: int)
      modifies this
      ensures State() == Joined(old(State()), p, lease, now) && rev == revision
    {
      if p.connectionId in records { return revision; }
      records := records[p.connectionId := p];
      expiry := expiry[p.connectionId := now + lease];
      Notify();
      rev := revision;
    }

    method LeaveScript(id: ConnectionId) returns (rev: int)
      modifies this
      ensures State() == Left(old(State()), id) && rev == revision
    {
      var removed := id in records;
      records := records - {id};
      expiry := expiry - {id};
      if !removed { return revision; }
      Notify();
      rev := revision;
    }

    method RenewScript(id: ConnectionId, lease: int, now: int) returns (renewed: bool)
      modifies this`expiry
      ensures (State(), renewed) == Renewed(old(State()), id, lease, now)
    {
      if id !in records || id !in expiry || expiry[id] <= now { return false; }
      var nextExpiry := now + lease;
      if nextExpiry > expiry[id] { expiry := expiry[id := nextExpiry]; }
      renewed := true;
    }

    /** The loop body for one hash key. */
    method PruneMember(id: ConnectionId, now: int) returns (removed: bool)
      modifies this`records, this`expiry
      ensures removed <==> Dead(old(State()), id, now)
      ensures State() == if removed then Swept(old(State()), {id}) else old(State())
    {
      removed := id !in expiry || expiry[id] <= now;
      if removed {
        records := records - {id};
        expiry := expiry - {id};
      }
    }

    /** Shared by the prune and snapshot scripts: one pass over the hash keys in
        any order, then every remaining expired lease. */
    method PruneScript(now: int) returns (removed: nat)
      modifies this
      ensures State() == Pruned(old(State()), now)
      ensures removed == |DeadMembers(old(State()), now)|
    {
      ghost var before := State();
      removed := 0;
      var todo := records.Keys;
      NothingJudged(before, now);
      while todo != {}
        invariant todo <= before.records.Keys
        invariant State() == Swept(before, Judged(before, now, todo))
        invariant removed == |Judged(before, now, todo)|
        decreases todo
      {
        Inhabited(todo);
        var id :| id in todo;
        MemberJudged(before, now, todo, id);
        var gone := PruneMember(id, now);
        if gone { removed := removed + 1; }
        todo := todo - {id};
      }
      PrunedIsSwept(before, now);
      expiry := Unexpired(expiry, now);
      if removed > 0 { Notify(); }
    }
  }
}
