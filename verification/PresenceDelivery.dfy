// Presence snapshots on their way to the sockets of one backend, while scripts
// run anywhere: the watcher's loop, the snapshot each new client fetches for
// itself, and the revision guard on every socket.
module PresenceDelivery {
  import opened Basics
  import opened Presence
  import opened PresenceRuns

  type ClientId = nat

  datatype Loaded = Loaded(revision: int, records: map<ConnectionId, Participant>)

  datatype Stage =
    | Registered            // in the room's client list
    | HasJoined             // its join script has run
    | Fetched(own: Loaded)  // its own snapshot is loaded but not yet written
    | Ready                 // fully joined
    | Gone

  /** The presence fields of a socket; it accepts `limit` frames and then fails for good. */
  datatype Socket = Socket(sent: bool, revision: int, frames: seq<Loaded>, limit: nat, stage: Stage) {
    predicate CanWrite() {
      |frames| < limit
    }
  }

  function PresenceWritten(c: Socket, s: Loaded): Socket {
    if c.sent && s.revision <= c.revision then c
    else if !c.CanWrite() then c
    else c.(frames := c.frames + [s], revision := s.revision, sent := true)
  }

  /** One turn of the watcher's loop; `next` is the last notification of its batch. */
  datatype Turn =
    | Waiting
    | HasBatch(next: nat)
    | Snapshotted(next: nat, snapshot: Loaded)
    | Writing(next: nat, snapshot: Loaded, targets: seq<ClientId>)

  datatype System = System(
    registry: Registry, now: int, cursor: nat, turn: Turn,
    listed: set<ClientId>, sockets: map<ClientId, Socket>)

  datatype Action =
    | Script(c: Command, t: int)   // by any backend, including sweepers
    | Register(id: ClientId, limit: nat)
    | JoinOwn(id: ClientId, p: Participant, lease: int, t: int)
    | FetchOwn(id: ClientId, t: int)
    | WriteOwn(id: ClientId)
    | Remove(id: ClientId)
    | ReadChanges(count: nat)      // a batch of at most `count` notifications
    | LoadSnapshot(t: int)
    | LoadFails                    // the old cursor is kept and the batch read again
    | CopyListed(order: seq<ClientId>)
    | WriteNext
    | AdvanceCursor

  ghost predicate Init(s: System) {
    s.registry == EMPTY && s.cursor == 0 && s.turn == Waiting && s.listed == {} && s.sockets == map[]
  }

  function LoadedFrom(r: Registry): Loaded {
    Loaded(r.revision, r.records)
  }

  /** The client list: every listed client once, in any order. */
  ghost predicate Enumerates(order: seq<ClientId>, listed: set<ClientId>) {
    Distinct(order) && Elements(order) == listed
  }

  ghost predicate Enabled(s: System, a: Action) {
    match a
    case Script(_, t) => t >= s.now
    case Register(id, _) => id !in s.sockets
    case JoinOwn(id, _, _, t) => t >= s.now && id in s.sockets && s.sockets[id].stage.Registered?
    case FetchOwn(id, t) => t >= s.now && id in s.sockets && s.sockets[id].stage.HasJoined?
    case WriteOwn(id) => id in s.sockets && s.sockets[id].stage.Fetched?
    case Remove(id) => id in s.listed
    case ReadChanges(count) => s.turn.Waiting? && s.cursor < |s.registry.stream| && count > 0
    case LoadSnapshot(t) => t >= s.now && s.turn.HasBatch?
    case LoadFails => s.turn.HasBatch?
    case CopyListed(order) => s.turn.Snapshotted? && Enumerates(order, s.listed)
    case WriteNext => s.turn.Writing? && s.turn.targets != []
    case AdvanceCursor => s.turn.Writing? && s.turn.targets == []
  }

  ghost function Step(s: System, a: Action): System
    requires Enabled(s, a)
  {
    match a
    case Script(c, t) => s.(registry := Apply(s.registry, c, t), now := t)
    case Register(id, limit) =>
      s.(listed := s.listed + {id}, sockets := s.sockets[id := Socket(false, 0, [], limit, Registered)])
    case JoinOwn(id, p, lease, t) =>
      s.(registry := Apply(s.registry, Join(p, lease), t), now := t,
         sockets := s.sockets[id := s.sockets[id].(stage := HasJoined)])
    case FetchOwn(id, t) =>
      var r := Pruned(s.registry, t);
      s.(registry := r, now := t,
         sockets := s.sockets[id := s.sockets[id].(stage := Fetched(LoadedFrom(r)))])
    case WriteOwn(id) =>
      var c := PresenceWritten(s.sockets[id], s.sockets[id].stage.own);
      s.(sockets := s.sockets[id := c.(stage := Ready)])
    case Remove(id) =>
      s.(listed := s.listed - {id},
         sockets := if id in s.sockets then s.sockets[id := s.sockets[id].(stage := Gone)] else s.sockets)
    case ReadChanges(count) =>
      s.(turn := HasBatch(if s.cursor + count < |s.registry.stream| then s.cursor + count else |s.registry.stream|))
    case LoadSnapshot(t) =>
      var r := Pruned(s.registry, t);
      s.(registry := r, now := t, turn := Snapshotted(s.turn.next, LoadedFrom(r)))
    case LoadFails => s.(turn := Waiting)
    case CopyListed(order) => s.(turn := Writing(s.turn.next, s.turn.snapshot, order))
    case WriteNext =>
      var id := s.turn.targets[0];
      s.(turn := s.turn.(targets := s.turn.targets[1..]),
         sockets := if id in s.sockets
                    then s.sockets[id := PresenceWritten(s.sockets[id], s.turn.snapshot)] else s.sockets)
    case AdvanceCursor => s.(cursor := s.turn.next, turn := Waiting)
  }

  // ---------------------------------------------------------------------
  // The invariant.

  /** Not from the future, and the membership of its revision. */
  ghost predicate Genuine(s: Loaded, r: Registry) {
    s.revision <= r.revision && (s.revision == r.revision ==> s.records == r.records)
  }

  ghost predicate SocketOk(c: Socket, r: Registry) {
    && |c.frames| <= c.limit
    && (c.sent <==> c.frames != [])
    && (c.sent ==> c.frames[|c.frames| - 1].revision == c.revision)
    && (forall i, j :: 0 <= i < j < |c.frames| ==> c.frames[i].revision < c.frames[j].revision)
    && (forall i :: 0 <= i < |c.frames| ==> Genuine(c.frames[i], r))
    && (c.stage.Fetched? ==> Genuine(c.stage.own, r))
  }

  /** The client has, or is bound to get, a snapshot of revision `k` or later. */
  ghost predicate Covered(c: Socket, k: nat) {
    || !c.CanWrite()
    || (c.sent && c.revision >= k)
    || c.stage.Registered? || c.stage.HasJoined?
    || (c.stage.Fetched? && c.stage.own.revision >= k)
  }

  ghost predicate TurnOk(s: System) {
    match s.turn
    case Waiting => true
    case HasBatch(next) => s.cursor < next <= |s.registry.stream|
    case Snapshotted(next, snapshot) =>
      s.cursor < next <= |s.registry.stream| && snapshot.revision >= next && Genuine(snapshot, s.registry)
    case Writing(next, snapshot, targets) =>
      && s.cursor < next <= |s.registry.stream| && snapshot.revision >= next && Genuine(snapshot, s.registry)
      && forall id :: id in s.listed && id !in targets ==> id in s.sockets && Covered(s.sockets[id], next)
  }

  ghost predicate Inv(s: System) {
    && RegistryOk(s.registry)
    && s.cursor <= |s.registry.stream|
    && s.listed <= s.sockets.Keys
    && (forall id :: id in s.sockets ==> SocketOk(s.sockets[id], s.registry))
    && (forall id :: id in s.listed ==> Covered(s.sockets[id], s.cursor))
    && TurnOk(s)
  }

  lemma GenuineAfter(s: Loaded, r: Registry, c: Command, now: int)
    requires Genuine(s, r)
    ensures Genuine(s, Apply(r, c, now))
  {
    ApplyAdvancesRevision(r, c, now);
  }

  lemma ScriptKeepsInv(s: System, c: Command, t: int)
    requires Inv(s)
    ensures Inv(s.(registry := Apply(s.registry, c, t), now := t))
  {
    var r' := Apply(s.registry, c, t);
    ApplyKeepsRegistry(s.registry, c, t);
    ApplyAdvancesRevision(s.registry, c, t);
    forall id | id in s.sockets ensures SocketOk(s.sockets[id], r') {
      var so := s.sockets[id];
      forall i | 0 <= i < |so.frames| ensures Genuine(so.frames[i], r') {
        GenuineAfter(so.frames[i], s.registry, c, t);
      }
    }
  }

  /** Replacing one socket by one that is at least as well served. */
  lemma SocketChange(s: System, id: ClientId, c: Socket)
    requires Inv(s) && SocketOk(c, s.registry)
    requires id in s.sockets
    requires id in s.listed ==> forall k: nat :: k <= |s.registry.stream| && Covered(s.sockets[id], k) ==> Covered(c, k)
    ensures Inv(s.(sockets := s.sockets[id := c]))
  {
  }

  lemma WrittenIsOk(c: Socket, s: Loaded, r: Registry)
    requires SocketOk(c, r) && Genuine(s, r)
    ensures SocketOk(PresenceWritten(c, s), r)
    ensures PresenceWritten(c, s).stage == c.stage
    ensures forall k: nat :: k <= s.revision ==> Covered(PresenceWritten(c, s), k)
    ensures forall k: nat :: Covered(c, k) ==> Covered(PresenceWritten(c, s), k)
  {
  }

  lemma JoinOwnKeepsInv(s: System, a: Action)
    requires Inv(s) && Enabled(s, a) && a.JoinOwn?
    ensures Inv(Step(s, a))
  {
    ScriptKeepsInv(s, Join(a.p, a.lease), a.t);
    var s1 := s.(registry := Apply(s.registry, Join(a.p, a.lease), a.t), now := a.t);
    SocketChange(s1, a.id, s.sockets[a.id].(stage := HasJoined));
  }

  lemma FetchOwnKeepsInv(s: System, a: Action)
    requires Inv(s) && Enabled(s, a) && a.FetchOwn?
    ensures Inv(Step(s, a))
  {
    ScriptKeepsInv(s, Read, a.t);
    var s1 := s.(registry := Pruned(s.registry, a.t), now := a.t);
    SocketChange(s1, a.id, s.sockets[a.id].(stage := Fetched(LoadedFrom(s1.registry))));
  }

  lemma WriteOwnKeepsInv(s: System, a: Action)
    requires Inv(s) && Enabled(s, a) && a.WriteOwn?
    ensures Inv(Step(s, a))
  {
    var c := s.sockets[a.id];
    WrittenIsOk(c, c.stage.own, s.registry);
    SocketChange(s, a.id, PresenceWritten(c, c.stage.own).(stage := Ready));
  }

  lemma WriteNextKeepsInv(s: System, a: Action)
    requires Inv(s) && Enabled(s, a) && a.WriteNext?
    ensures Inv(Step(s, a))
  {
    var id := s.turn.targets[0];
    assert s.turn.targets == [id] + s.turn.targets[1..];
    if id in s.sockets {
      WrittenIsOk(s.sockets[id], s.turn.snapshot, s.registry);
      SocketChange(s, id, PresenceWritten(s.sockets[id], s.turn.snapshot));
    }
  }

  lemma ClientListKeepsInv(s: System, a: Action)
    requires Inv(s) && Enabled(s, a) && (a.Register? || a.Remove? || a.CopyListed?)
    ensures Inv(Step(s, a))
  {
    if a.CopyListed? {
      assert forall id :: id in s.listed ==> id in Elements(a.order);
    }
  }

  lemma StepKeepsInv(s: System, a: Action)
    requires Inv(s) && Enabled(s, a)
    ensures Inv(Step(s, a))
  {
    match a {
      case Script(c, t) => ScriptKeepsInv(s, c, t);
      case JoinOwn(_, _, _, _) => JoinOwnKeepsInv(s, a);
      case FetchOwn(_, _) => FetchOwnKeepsInv(s, a);
      case WriteOwn(_) => WriteOwnKeepsInv(s, a);
      case LoadSnapshot(t) => ScriptKeepsInv(s, Read, t);
      case WriteNext => WriteNextKeepsInv(s, a);
      case ReadChanges(_) =>
      case LoadFails =>
      case AdvanceCursor =>
      case _ => ClientListKeepsInv(s, a);
    }
  }

  ghost predicate IsBehavior(states: seq<System>, actions: seq<Action>) {
    && |states| == |actions| + 1
    && Init(states[0])
    && forall i :: 0 <= i < |actions| ==> IsStep(states, actions, i)
  }

  ghost predicate IsStep(states: seq<System>, actions: seq<Action>, i: nat)
    requires |states| == |actions| + 1 && i < |actions|
  {
    Enabled(states[i], actions[i]) && states[i + 1] == Step(states[i], actions[i])
  }

  lemma {:induction false} InvariantHolds(states: seq<System>, actions: seq<Action>, i: nat)
    requires IsBehavior(states, actions) && i < |states|
    ensures Inv(states[i])
  {
    if i > 0 {
      InvariantHolds(states, actions, i - 1);
      assert IsStep(states, actions, i - 1);
      StepKeepsInv(states[i - 1], actions[i - 1]);
    }
  }

  ghost predicate Quiet(s: System) {
    s.turn.Waiting? && s.cursor == |s.registry.stream|
  }

  /** The client's last presence frame is the current membership. */
  ghost predicate IsCurrent(c: Socket, r: Registry) {
    c.frames != [] && c.frames[|c.frames| - 1] == Loaded(r.revision, r.records)
  }

  /** Listed, through with its own join and snapshot, and with a working socket. */
  ghost predicate FullyJoined(s: System, id: ClientId) {
    id in s.listed && id in s.sockets && s.sockets[id].stage.Ready? && s.sockets[id].CanWrite()
  }

  lemma QuietIsCurrent(s: System, id: ClientId)
    requires Inv(s) && Quiet(s) && FullyJoined(s, id)
    ensures IsCurrent(s.sockets[id], s.registry)
  {
    var c := s.sockets[id];
    assert Covered(c, s.cursor);
    assert Genuine(c.frames[|c.frames| - 1], s.registry);
  }

  /** Convergence: once the watcher has consumed the last notification, the last
      presence frame of every fully joined client whose socket works is the
      current membership at the current revision. */
  lemma Convergence(states: seq<System>, actions: seq<Action>, i: nat, id: ClientId)
    requires IsBehavior(states, actions) && i < |states|
    requires Quiet(states[i]) && FullyJoined(states[i], id)
    ensures IsCurrent(states[i].sockets[id], states[i].registry)
  {
    InvariantHolds(states, actions, i);
    QuietIsCurrent(states[i], id);
  }

  /** On every socket, at any time, revisions strictly increase: a delayed
      snapshot never follows a newer one. */
  lemma FramesAscend(states: seq<System>, actions: seq<Action>, i: nat, id: ClientId)
    requires IsBehavior(states, actions) && i < |states| && id in states[i].sockets
    ensures var f := states[i].sockets[id].frames;
      forall j, k :: 0 <= j < k < |f| ==> f[j].revision < f[k].revision
  {
    InvariantHolds(states, actions, i);
  }

  // ---------------------------------------------------------------------
  // The watcher's own prunes die out.

  predicate IsWatcherStep(a: Action) {
    a.ReadChanges? || a.LoadSnapshot? || a.CopyListed? || a.WriteNext? || a.AdvanceCursor?
  }

  /** Notifications consumed once the present turn is over. */
  function Reached(s: System): int {
    match s.turn case Waiting => s.cursor case HasBatch(n) => n case Snapshotted(n, _) => n case Writing(n, _, _) => n
  }

  /** Notifications left, and members that could still be pruned and cause one more. */
  function Unsettled(s: System): int {
    |s.registry.records| + |s.registry.stream| - Reached(s)
  }

  /** Steps left in the present turn. */
  function TurnLeft(s: System): nat {
    match s.turn
    case Waiting => 0
    case HasBatch(_) => |s.listed| + 3
    case Snapshotted(_, _) => |s.listed| + 2
    case Writing(_, _, targets) => |targets| + 1
  }

  /** No run of the watcher alone is longer than this. */
  function Bound(s: System): int {
    Unsettled(s) * (|s.listed| + 4) + TurnLeft(s)
  }

  lemma PruneOpensNothing(r: Registry, now: int)
    ensures |Pruned(r, now).records| + |Pruned(r, now).stream| <= |r.records| + |r.stream|
  {
    PrunedMembers(r, now);
    if DeadMembers(r, now) != {} {
      Inhabited(DeadMembers(r, now));
      assert |DeadMembers(r, now)| > 0;
    }
  }

  lemma {:induction false} DistinctSize(order: seq<ClientId>)
    requires Distinct(order)
    ensures |Elements(order)| == |order|
  {
    if order != [] {
      DistinctSize(order[1..]);
      assert Elements(order) == {order[0]} + Elements(order[1..]);
      assert order[0] !in Elements(order[1..]);
    }
  }

  /** Per step either a whole turn's worth is closed or the turn gets shorter. */
  lemma WatcherStepCloses(s: System, a: Action)
    requires Inv(s) && Enabled(s, a) && IsWatcherStep(a)
    ensures var s' := Step(s, a);
      && s'.listed == s.listed
      && (if a.ReadChanges? then Unsettled(s') < Unsettled(s) && TurnLeft(s') == |s.listed| + 3
          else Unsettled(s') <= Unsettled(s) && TurnLeft(s') < TurnLeft(s))
  {
    if a.LoadSnapshot? { PruneOpensNothing(s.registry, a.t); }
    if a.CopyListed? { DistinctSize(a.order); }
  }

  lemma Scaled(x: int, y: int, k: nat)
    requires x <= y
    ensures x * k <= y * k
  {
  }

  lemma WatcherStepLowersBound(s: System, a: Action)
    requires Inv(s) && Enabled(s, a) && IsWatcherStep(a)
    ensures Bound(Step(s, a)) < Bound(s)
  {
    var s', k := Step(s, a), |s.listed| + 4;
    WatcherStepCloses(s, a);
    if a.ReadChanges? {
      Scaled(Unsettled(s'), Unsettled(s) - 1, k);
      assert (Unsettled(s) - 1) * k == Unsettled(s) * k - k;
    } else {
      Scaled(Unsettled(s'), Unsettled(s), k);
    }
  }

  lemma BoundIsNatural(s: System)
    requires Inv(s)
    ensures Bound(s) >= 0
  {
    Scaled(0, Unsettled(s), |s.listed| + 4);
  }

  ghost predicate CanStep(s: System) {
    exists a :: Enabled(s, a) && IsWatcherStep(a)
  }

  function NextOwn(s: System, order: seq<ClientId>): Action {
    match s.turn
    case Waiting => ReadChanges(1)
    case HasBatch(_) => LoadSnapshot(s.now)
    case Snapshotted(_, _) => CopyListed(order)
    case Writing(_, _, targets) => if targets == [] then AdvanceCursor else WriteNext
  }

  lemma Consed(id: ClientId, rest: seq<ClientId>)
    requires Distinct(rest) && id !in rest
    ensures Distinct([id] + rest) && Elements([id] + rest) == {id} + Elements(rest)
  {
    assert forall x :: x in [id] + rest <==> x == id || x in rest;
  }

  lemma {:induction false} OrderExists(listed: set<ClientId>) returns (order: seq<ClientId>)
    ensures Enumerates(order, listed)
  {
    if listed == {} {
      order := [];
    } else {
      var id :| id in listed;
      var rest := OrderExists(listed - {id});
      assert id !in Elements(rest);
      Consed(id, rest);
      order := [id] + rest;
    }
  }

  /** The watcher is stuck exactly when it has consumed everything. */
  lemma WatcherCanStepIff(s: System)
    requires Inv(s)
    ensures CanStep(s) <==> !Quiet(s)
  {
    if !Quiet(s) {
      var order := OrderExists(s.listed);
      var a := NextOwn(s, order);
      assert Enabled(s, a) && IsWatcherStep(a);
    }
  }

  /** A run of the watcher alone, at any nondecreasing times and page sizes. */
  ghost predicate WatcherRun(states: seq<System>, actions: seq<Action>) {
    && |states| == |actions| + 1
    && forall i :: 0 <= i < |actions| ==> IsStep(states, actions, i) && IsWatcherStep(actions[i])
  }

  lemma {:induction false} WatcherRunIsBounded(states: seq<System>, actions: seq<Action>, i: nat)
    requires WatcherRun(states, actions) && Inv(states[0]) && i < |states|
    ensures Inv(states[i]) && i + Bound(states[i]) <= Bound(states[0])
  {
    if i > 0 {
      WatcherRunIsBounded(states, actions, i - 1);
      assert IsStep(states, actions, i - 1) && IsWatcherStep(actions[i - 1]);
      StepKeepsInv(states[i - 1], actions[i - 1]);
      WatcherStepLowersBound(states[i - 1], actions[i - 1]);
    }
  }

  /** Left to itself the watcher comes to rest, though its own snapshot reads may
      prune members and so notify it again, at any times: no run of it is longer
      than the bound, and one that cannot be continued has consumed everything. */
  lemma WatcherComesToRest(states: seq<System>, actions: seq<Action>)
    requires WatcherRun(states, actions) && Inv(states[0])
    ensures |actions| <= Bound(states[0])
    ensures !CanStep(states[|actions|]) <==> Quiet(states[|actions|])
  {
    WatcherRunIsBounded(states, actions, |actions|);
    BoundIsNatural(states[|actions|]);
    WatcherCanStepIff(states[|actions|]);
  }

  /** Hence, from every reachable state: once scripts and clients pause, every
      run of the watcher is finite, and when it can go no further every fully
      joined working client has the current membership as its last frame. */
  lemma PresenceSettles(states: seq<System>, actions: seq<Action>, i: nat, more: seq<System>, own: seq<Action>)
    requires IsBehavior(states, actions) && i < |states|
    requires WatcherRun(more, own) && more[0] == states[i]
    ensures |own| <= Bound(states[i])
    ensures !CanStep(more[|own|]) ==>
      forall id :: FullyJoined(more[|own|], id) ==> IsCurrent(more[|own|].sockets[id], more[|own|].registry)
  {
    InvariantHolds(states, actions, i);
    WatcherComesToRest(more, own);
    WatcherRunIsBounded(more, own, |own|);
    if !CanStep(more[|own|]) {
      forall id | FullyJoined(more[|own|], id)
        ensures IsCurrent(more[|own|].sockets[id], more[|own|].registry)
      {
        QuietIsCurrent(more[|own|], id);
      }
    }
  }
}
