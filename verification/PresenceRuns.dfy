// What every run of the presence scripts keeps, from any backends, at
// nondecreasing Redis times.
module PresenceRuns {
  import opened Basics
  import opened Presence

  datatype Command =
    | Join(p: Participant, lease: int)
    | Leave(id: ConnectionId)
    | Renew(id: ConnectionId, lease: int)
    | Prune
    | Read  // a snapshot prunes first

  /** Nonpositive leases are refused before any script runs. */
  function Apply(r: Registry, c: Command, now: int): Registry {
    match c
    case Join(p, lease) => if lease <= 0 then r else Joined(r, p, lease, now)
    case Leave(id) => Left(r, id)
    case Renew(id, lease) => if lease <= 0 then r else Renewed(r, id, lease, now).0
    case Prune => Pruned(r, now)
    case Read => Pruned(r, now)
  }

  datatype Run = Run(states: seq<Registry>, commands: seq<Command>, times: seq<int>)

  ghost predicate ValidRun(r: Run) {
    && |r.states| == |r.commands| + 1 == |r.times| + 1
    && r.states[0] == EMPTY
    && (forall i, j :: 0 <= i <= j < |r.times| ==> r.times[i] <= r.times[j])
    && forall i :: 0 <= i < |r.commands| ==> IsCall(r, i)
  }

  ghost predicate IsCall(r: Run, i: nat)
    requires |r.states| == |r.commands| + 1 == |r.times| + 1 && i < |r.commands|
  {
    r.states[i + 1] == Apply(r.states[i], r.commands[i], r.times[i])
  }

  // ---------------------------------------------------------------------
  // The four structures agree.

  ghost predicate RegistryOk(r: Registry) {
    && r.records.Keys == r.expiry.Keys
    && (forall id :: id in r.records ==> r.records[id].connectionId == id)
    && r.revision == |r.stream|
    && forall i :: 0 <= i < |r.stream| ==> r.stream[i] == i + 1
  }

  lemma ApplyKeepsRegistry(r: Registry, c: Command, now: int)
    requires RegistryOk(r)
    ensures RegistryOk(Apply(r, c, now))
  {
    var r' := Apply(r, c, now);
    assert forall id :: id in r'.records <==> id in r'.expiry;
  }

  /** Metadata and expiry always have the same keys, and the revision is the
      length of a notification stream that reads 1, 2, 3, ... */
  lemma {:induction false} RegistryOnRuns(r: Run, i: nat)
    requires ValidRun(r) && i < |r.states|
    ensures RegistryOk(r.states[i])
  {
    if i > 0 {
      RegistryOnRuns(r, i - 1);
      assert IsCall(r, i - 1);
      ApplyKeepsRegistry(r.states[i - 1], r.commands[i - 1], r.times[i - 1]);
    }
  }

  // ---------------------------------------------------------------------
  // Where a record comes from.

  /** Command `k` is the join behind the record of `id` in state `i`: it found
      no such member, and the participant it named has been listed ever since. */
  ghost predicate IsJoinOf(r: Run, i: nat, k: nat, id: ConnectionId)
    requires ValidRun(r) && i < |r.states|
  {
    && k < i
    && r.commands[k].Join? && r.commands[k].p.connectionId == id
    && id !in r.states[k].records
    && forall j :: k < j <= i ==> id in r.states[j].records && r.states[j].records[id] == r.commands[k].p
  }

  /** The deadline that the join and the renewals in time since then have given. */
  ghost function Deadline(r: Run, i: nat, k: nat, id: ConnectionId): int
    requires ValidRun(r) && k < i < |r.states| && r.commands[k].Join?
    decreases i
  {
    if i == k + 1 then r.times[k] + r.commands[k].lease
    else
      var held, c, now := Deadline(r, i - 1, k, id), r.commands[i - 1], r.times[i - 1];
      if c.Renew? && c.id == id && c.lease > 0 && now < held then Max(held, now + c.lease) else held
  }

  /** Every listed record is the participant of the join that put it there, as it
      was given, and its lease is what that join and its renewals amount to. */
  lemma {:induction false} RecordsComeFromJoins(r: Run, i: nat, id: ConnectionId) returns (k: nat)
    requires ValidRun(r) && i < |r.states| && id in r.states[i].records
    ensures IsJoinOf(r, i, k, id)
    ensures id in r.states[i].expiry && r.states[i].expiry[id] == Deadline(r, i, k, id)
    decreases i
  {
    RegistryOnRuns(r, i - 1);
    assert IsCall(r, i - 1);
    if id in r.states[i - 1].records {
      k := RecordsComeFromJoins(r, i - 1, id);
      MemberKept(r.states[i - 1], r.commands[i - 1], r.times[i - 1], id);
    } else {
      MemberIsNew(r.states[i - 1], r.commands[i - 1], r.times[i - 1], id);
      k := i - 1;
    }
  }

  lemma MemberKept(r: Registry, c: Command, now: int, id: ConnectionId)
    requires RegistryOk(r) && id in r.records && id in Apply(r, c, now).records
    ensures var r' := Apply(r, c, now);
      && r'.records[id] == r.records[id] && id in r'.expiry
      && r'.expiry[id] == if c.Renew? && c.id == id && c.lease > 0 && now < r.expiry[id]
                          then Max(r.expiry[id], now + c.lease) else r.expiry[id]
  {
  }

  lemma MemberIsNew(r: Registry, c: Command, now: int, id: ConnectionId)
    requires id !in r.records && id in Apply(r, c, now).records
    ensures c.Join? && c.p.connectionId == id && c.lease > 0
    ensures var r' := Apply(r, c, now); r'.records[id] == c.p && id in r'.expiry && r'.expiry[id] == now + c.lease
  {
  }

  // ---------------------------------------------------------------------
  // Conservation.

  /** Members added, members that left, members pruned, and changed prune batches. */
  datatype Tally = Tally(joins: int, leaves: int, pruned: int, batches: int)

  function TallyStep(t: Tally, r: Registry, c: Command, now: int): Tally {
    match c
    case Join(p, lease) =>
      if lease > 0 && p.connectionId !in r.records then t.(joins := t.joins + 1) else t
    case Leave(id) => if id in r.records then t.(leaves := t.leaves + 1) else t
    case Renew(_, _) => t
    case _ =>
      t.(pruned := t.pruned + |DeadMembers(r, now)|,
         batches := t.batches + if DeadMembers(r, now) != {} then 1 else 0)
  }

  function TallyOf(r: Run, i: nat): Tally
    requires |r.states| == |r.commands| + 1 == |r.times| + 1 && i < |r.states|
  {
    if i == 0 then Tally(0, 0, 0, 0)
    else TallyStep(TallyOf(r, i - 1), r.states[i - 1], r.commands[i - 1], r.times[i - 1])
  }

  lemma MembersRemoved(m: map<ConnectionId, Participant>, gone: set<ConnectionId>)
    requires gone <= m.Keys
    ensures |m - gone| == |m| - |gone|
  {
    assert (m - gone).Keys == m.Keys - gone;
    assert |(m - gone).Keys| == |m.Keys| - |gone|;
  }

  lemma MemberAdded(m: map<ConnectionId, Participant>, id: ConnectionId, p: Participant)
    requires id !in m
    ensures |m[id := p]| == |m| + 1
  {
    assert m[id := p].Keys == m.Keys + {id};
  }

  /** Every successful join is accounted for: it left, was pruned, or is a
      current member; and each of these changes made one revision, prunes one
      per batch. */
  lemma {:induction false} Conservation(r: Run, i: nat)
    requires ValidRun(r) && i < |r.states|
    ensures var t := TallyOf(r, i);
      && t.joins == t.leaves + t.pruned + |r.states[i].records|
      && r.states[i].revision == t.joins + t.leaves + t.batches
  {
    if i > 0 {
      Conservation(r, i - 1);
      assert IsCall(r, i - 1);
      TallyStepConserves(TallyOf(r, i - 1), r.states[i - 1], r.commands[i - 1], r.times[i - 1]);
    }
  }

  lemma JoinedMembers(r: Registry, p: Participant, lease: int, now: int)
    ensures |Joined(r, p, lease, now).records| == |r.records| + if p.connectionId in r.records then 0 else 1
  {
    if p.connectionId !in r.records { MemberAdded(r.records, p.connectionId, p); }
  }

  lemma LeftMembers(r: Registry, id: ConnectionId)
    ensures |Left(r, id).records| == |r.records| - if id in r.records then 1 else 0
  {
    if id in r.records { MembersRemoved(r.records, {id}); } else { assert r.records - {id} == r.records; }
  }

  lemma PrunedMembers(r: Registry, now: int)
    ensures |Pruned(r, now).records| == |r.records| - |DeadMembers(r, now)|
  {
    MembersRemoved(r.records, DeadMembers(r, now));
  }

  lemma TallyStepConserves(t: Tally, r: Registry, c: Command, now: int)
    ensures var t', r' := TallyStep(t, r, c, now), Apply(r, c, now);
      && t'.joins - t'.leaves - t'.pruned - |r'.records| == t.joins - t.leaves - t.pruned - |r.records|
      && r'.revision - t'.joins - t'.leaves - t'.batches == r.revision - t.joins - t.leaves - t.batches
  {
    match c {
      case Join(p, lease) => JoinedMembers(r, p, lease, now);
      case Leave(id) => LeftMembers(r, id);
      case Renew(_, _) =>
      case _ => PrunedMembers(r, now);
    }
  }

  // ---------------------------------------------------------------------
  // Revision determines membership.

  lemma ApplyAdvancesRevision(r: Registry, c: Command, now: int)
    ensures r.revision <= Apply(r, c, now).revision <= r.revision + 1
    ensures Apply(r, c, now).revision == r.revision ==> Apply(r, c, now).records == r.records
  {
    match c {
      case Leave(id) => if id !in r.records { assert r.records - {id} == r.records; }
      case Prune => if DeadMembers(r, now) == {} { assert r.records - {} == r.records; }
      case Read => if DeadMembers(r, now) == {} { assert r.records - {} == r.records; }
      case _ =>
    }
  }

  /** Two states of a run with the same revision have identical records, so an
      equal-revision snapshot carries nothing new. */
  lemma {:induction false} RevisionDeterminesRecords(r: Run, i: nat, j: nat)
    requires ValidRun(r) && i <= j < |r.states|
    ensures r.states[i].revision <= r.states[j].revision
    ensures r.states[i].revision == r.states[j].revision ==> r.states[i].records == r.states[j].records
  {
    if i < j {
      RevisionDeterminesRecords(r, i, j - 1);
      assert IsCall(r, j - 1);
      ApplyAdvancesRevision(r.states[j - 1], r.commands[j - 1], r.times[j - 1]);
    }
  }

  // ---------------------------------------------------------------------
  // Leases.

  /** What a snapshot at time `now` lists. */
  predicate Listed(r: Registry, id: ConnectionId, now: int) {
    id in Pruned(r, now).records
  }

  /** A renewal succeeds exactly when a snapshot at that moment would list the
      connection; a refused one changes nothing, so nothing is ever revived. */
  lemma RenewalIffListed(r: Registry, id: ConnectionId, lease: int, now: int)
    ensures Renewed(r, id, lease, now).1 <==> Listed(r, id, now)
    ensures !Listed(r, id, now) ==> Renewed(r, id, lease, now).0 == r
    ensures Renewed(r, id, lease, now).0.records == r.records
    ensures Renewed(r, id, lease, now).0.revision == r.revision
  {
  }

  /** Only a leave, or a prune after it ran out, takes a lease away; while the
      connection stays a member its expiry never decreases. */
  lemma LeaseNeverShortens(r: Registry, c: Command, now: int, id: ConnectionId)
    requires RegistryOk(r) && id in r.records
    ensures var r' := Apply(r, c, now);
      && (id in r'.records ==> r'.expiry[id] >= r.expiry[id])
      && (id !in r'.records <==> c == Leave(id) || ((c == Prune || c == Read) && r.expiry[id] <= now))
  {
  }

  /** A join past `deadline`, or a renewal past it that comes before it. */
  predicate ExtendsPast(c: Command, id: ConnectionId, now: int, deadline: int) {
    || (c.Join? && c.p.connectionId == id && now + c.lease > deadline)
    || (c.Renew? && c.id == id && now < deadline && now + c.lease > deadline)
  }

  /** No member outlives its lease: if at state i the connection's expiry is at
      most `deadline` (or it is no member), and it is neither joined again nor
      renewed in time, no snapshot at or after `deadline` lists it - however
      often a renewal is tried at or after the deadline, for however long. */
  lemma {:induction false} LeaseEnds(r: Run, i: nat, j: nat, id: ConnectionId, deadline: int, now: int)
    requires ValidRun(r) && i <= j < |r.states| && now >= deadline
    requires id in r.states[i].records ==> id in r.states[i].expiry && r.states[i].expiry[id] <= deadline
    requires forall k :: i <= k < j ==> !ExtendsPast(r.commands[k], id, r.times[k], deadline)
    ensures id in r.states[j].records ==> id in r.states[j].expiry && r.states[j].expiry[id] <= deadline
    ensures !Listed(r.states[j], id, now)
    decreases j
  {
    RegistryOnRuns(r, j);
    if i < j {
      LeaseEnds(r, i, j - 1, id, deadline, now);
      assert IsCall(r, j - 1);
      RegistryOnRuns(r, j - 1);
    }
  }

  /** And no member is dropped early: from a join or renewal that held it until
      `deadline`, it is listed at every later moment before, unless it leaves. */
  lemma {:induction false} LeaseHolds(r: Run, i: nat, j: nat, id: ConnectionId, deadline: int, now: int)
    requires ValidRun(r) && i <= j < |r.states| && now < deadline
    requires id in r.states[i].records && id in r.states[i].expiry && r.states[i].expiry[id] >= deadline
    requires forall k :: i <= k < j ==> r.commands[k] != Leave(id) && r.times[k] < deadline
    ensures id in r.states[j].records && id in r.states[j].expiry && r.states[j].expiry[id] >= deadline
    ensures Listed(r.states[j], id, now)
    decreases j
  {
    if i < j {
      LeaseHolds(r, i, j - 1, id, deadline, now);
      assert IsCall(r, j - 1);
      RegistryOnRuns(r, j - 1);
      LeaseNeverShortens(r.states[j - 1], r.commands[j - 1], r.times[j - 1], id);
      RegistryOnRuns(r, j);
    }
  }

  // ---------------------------------------------------------------------
  // Snapshots.

  datatype Snapshot = Snapshot(revision: int, participants: seq<Participant>)

  ghost predicate IdsAscend(ps: seq<Participant>) {
    forall i, j :: 0 <= i < j < |ps| ==> ps[i].connectionId < ps[j].connectionId
  }

  /** Sorted snapshots of the same records are the same sequence, whatever order
      the hash values came in. */
  lemma {:induction false} SortedSnapshotIsUnique(a: seq<Participant>, b: seq<Participant>)
    requires IdsAscend(a) && IdsAscend(b) && forall p :: p in a <==> p in b
    ensures a == b
  {
    FirstIsMember(a);
    FirstIsMember(b);
    if a != [] {
      assert a[0] in b && b[0] in a;
      assert a[0] == b[0];
      forall p ensures p in a[1..] <==> p in b[1..] {
        if p in a[1..] { assert p in a && p != a[0]; }
        if p in b[1..] { assert p in b && p != b[0]; }
      }
      SortedSnapshotIsUnique(a[1..], b[1..]);
    }
  }

  function Placed(p: Participant, s: seq<Participant>): (t: seq<Participant>)
    requires IdsAscend(s) && forall q :: q in s ==> q.connectionId != p.connectionId
    ensures IdsAscend(t)
    ensures forall q :: q in t <==> q == p || q in s
  {
    if s == [] || p.connectionId < s[0].connectionId then [p] + s
    else
      assert s[0] in s;
      var rest := Placed(p, s[1..]);
      assert forall i :: 0 <= i < |rest| ==> rest[i] in rest;
      [s[0]] + rest
  }

  /** GetPresence: the snapshot script, then a sort of the hash values. */
  method GetPresence(keys: PresenceKeys, now: int) returns (s: Snapshot)
    requires RegistryOk(keys.State())
    modifies keys
    ensures keys.State() == Pruned(old(keys.State()), now)
    ensures s.revision == keys.revision && IdsAscend(s.participants)
    ensures forall p :: p in s.participants <==> exists id :: id in keys.records && keys.records[id] == p
  {
    ApplyKeepsRegistry(keys.State(), Read, now);
    var removed := keys.PruneScript(now);
    ghost var pruned := keys.State();
    var records := keys.records;
    var participants: seq<Participant> := [];
    var todo := records.Keys;
    while todo != {}
      invariant keys.State() == pruned && todo <= records.Keys && IdsAscend(participants)
      invariant forall p :: p in participants <==>
        exists id :: id in records && id !in todo && records[id] == p
      decreases todo
    {
      Inhabited(todo);
      var id :| id in todo;
      participants := Placed(records[id], participants);
      todo := todo - {id};
    }
    s := Snapshot(keys.revision, participants);
  }
}
