// What the delivery protocol guarantees in every run.
module DeliveryTheorems {
  import opened Basics
  import opened DocumentLog
  import opened StreamReads
  import opened ClientDelivery
  import opened ReplaySession
  import opened Handoff
  import opened HandoffInvariant
  import opened HandoffSteps
  import opened HandoffSockets

  predicate IsReplayAction(a: Action) {
    a.CaptureBoundary? || a.ReadPage? || a.VisitEntry? || a.FinishReplay?
  }

  predicate IsSocketAction(a: Action) {
    a.ReadRoomState? || a.WriteRoomState? || a.WriteOther? || a.FailResume?
  }

  predicate IsMembershipAction(a: Action) {
    a.Register? || a.LeaveRoom? || a.CloseConnection?
  }

  lemma StepKeepsInv(sys: System, a: Action)
    requires Inv(sys) && Enabled(sys, a)
    ensures Inv(Step(sys, a))
  {
    if IsReplayAction(a) {
      ReplayActionKeepsInv(sys, a);
    } else if IsSocketAction(a) {
      SocketActionKeepsInv(sys, a);
    } else if IsMembershipAction(a) {
      MembershipActionKeepsInv(sys, a);
    } else {
      BackendActionKeepsInv(sys, a);
    }
  }

  lemma BackendActionKeepsInv(sys: System, a: Action)
    requires Inv(sys) && Enabled(sys, a) && !IsReplayAction(a)
    requires !IsSocketAction(a) && !IsMembershipAction(a)
    ensures Inv(Step(sys, a))
  {
    match a {
      case Commit(op, id) => CommitStep(sys, op, id);
      case LoadRoom(b, snapshot) => LoadRoomStep(sys, b, snapshot);
      case AbsorbSnapshot(b, snapshot) => AbsorbSnapshotStep(sys, b, snapshot);
      case Restart(b) => RestartStep(sys, b);
      case ReadStream(b, count) => ReadStreamStep(sys, b, count);
      case TakeEvent(b) => TakeEventStep(sys, b);
      case CopyClients(b) => CopyClientsStep(sys, b);
      case SendNext(b) => SendNextStep(sys, b);
    }
  }

  lemma ReplayActionKeepsInv(sys: System, a: Action)
    requires Inv(sys) && Enabled(sys, a) && IsReplayAction(a)
    ensures Inv(Step(sys, a))
  {
    match a {
      case CaptureBoundary(s) => CaptureBoundaryStep(sys, s);
      case ReadPage(s, count) => ReadPageStep(sys, s, count);
      case VisitEntry(s) => VisitEntryStep(sys, s);
      case FinishReplay(s) => FinishReplayStep(sys, s);
    }
  }

  lemma SocketActionKeepsInv(sys: System, a: Action)
    requires Inv(sys) && Enabled(sys, a) && IsSocketAction(a)
    ensures Inv(Step(sys, a))
  {
    match a {
      case ReadRoomState(s) => ReadRoomStateStep(sys, s);
      case WriteRoomState(s) =>
        var t := sys.sockets[s].stated.value;
        CallStep(sys, s, Emit(RoomState(t.content, t.version, t.sequence)));
      case WriteOther(s, frame) => CallStep(sys, s, Emit(frame));
      case FailResume(s) => CallStep(sys, s, Abort);
    }
  }

  lemma MembershipActionKeepsInv(sys: System, a: Action)
    requires Inv(sys) && Enabled(sys, a) && IsMembershipAction(a)
    ensures Inv(Step(sys, a))
  {
    match a {
      case Register(s, b, cursor, limit) => RegisterStep(sys, s, b, cursor, limit);
      case LeaveRoom(s) => LeaveRoomStep(sys, s);
      case CloseConnection(s) => CloseConnectionStep(sys, s);
    }
  }

  lemma {:induction false} InvariantHolds(r: Behavior, i: nat)
    requires IsBehavior(r) && i < |r.states|
    ensures Inv(r.states[i])
  {
    if i > 0 {
      InvariantHolds(r, i - 1);
      assert IsStep(r, i - 1);
      StepKeepsInv(r.states[i - 1], r.actions[i - 1]);
    }
  }

  function UpdatesOn(sys: System, s: SocketId): seq<Message>
    requires s in sys.sockets
  {
    Updates(sys.sockets[s].session.client.wire)
  }

  // ---------------------------------------------------------------------
  // From an update back to the operation that made it.

  /** The k-th action is the commit that made version n + 1. */
  ghost predicate IsCommitOf(r: Behavior, k: nat, n: int)
    requires |r.states| == |r.actions| + 1
  {
    && k < |r.actions| && r.actions[k].Commit?
    && |r.states[k].doc.stream| == n && |r.states[k + 1].doc.stream| == n + 1
  }

  predicate EntryOf(e: Event, op: Operation, id: nat, version: int) {
    && e.content == op.content && e.username == op.username
    && e.operationId == op.operationId && e.clientId == op.clientId
    && e.version == version && e.sequence == version && e.id == id
  }

  /** Every log entry is what some earlier commit of the run wrote. */
  lemma {:induction false} CommitOf(r: Behavior, i: nat, n: nat) returns (k: nat)
    requires IsBehavior(r) && i < |r.states| && n < |r.states[i].doc.stream|
    ensures k < i && IsCommitOf(r, k, n)
    ensures EntryOf(r.states[i].doc.stream[n], r.actions[k].op, r.actions[k].id, n + 1)
    decreases i
  {
    assert i > 0 && IsStep(r, i - 1);
    DocOfStep(r.states[i - 1], r.actions[i - 1]);
    if n < |r.states[i - 1].doc.stream| {
      k := CommitOf(r, i - 1, n);
    } else {
      k := i - 1;
      InvariantHolds(r, i - 1);
    }
  }

  lemma DocOfStep(sys: System, a: Action)
    requires Enabled(sys, a)
    ensures Step(sys, a).doc == if a.Commit? then ApplyScript(sys.doc, a.op, a.id).0 else sys.doc
  {
  }

  /** The frame carries the operation committed as version n + 1, unaltered. */
  ghost predicate FromCommit(r: Behavior, i: nat, n: int, m: Message)
    requires |r.states| == |r.actions| + 1
  {
    exists k: nat :: k < i && IsCommitOf(r, k, n) && CarriesOperation(m, r.actions[k].op, r.actions[k].id, n + 1)
  }

  predicate CarriesOperation(m: Message, op: Operation, id: nat, version: int) {
    && m.ContentUpdate?
    && m.content == op.content && m.username == op.username
    && m.operationId == op.operationId && m.clientId == op.clientId
    && m.serverVersion == version && m.sequence == version && m.streamId == id
  }

  /** The updates are the operations committed as versions base + 1, base + 2, ... */
  ghost predicate TellsCommits(r: Behavior, i: nat, u: seq<Message>, base: int)
    requires |r.states| == |r.actions| + 1
  {
    forall j :: 0 <= j < |u| ==> FromCommit(r, i, base + j, u[j])
  }

  lemma SegmentTellsCommits(r: Behavior, i: nat, u: seq<Message>, base: nat)
    requires IsBehavior(r) && i < |r.states| && IsSegment(u, r.states[i].doc.stream, base)
    ensures TellsCommits(r, i, u, base)
  {
    var log := r.states[i].doc.stream;
    SegmentTells(u, log, base);
    forall j | 0 <= j < |u| ensures FromCommit(r, i, base + j, u[j]) {
      var k := CommitOf(r, i, base + j);
      assert CarriesOperation(u[j], r.actions[k].op, r.actions[k].id, base + j + 1);
    }
  }

  // ---------------------------------------------------------------------
  // Delivery.

  /** Handoff exactness: in every interleaving a socket resumed at cursor c has
      written exactly the log entries c + 1, c + 2, ..., c + n, each with every
      field of the operation that was committed as that version. */
  lemma HandoffExactness(r: Behavior, i: nat, s: SocketId)
    requires IsBehavior(r) && i < |r.states| && s in r.states[i].sockets
    requires r.states[i].sockets[s].cursor > 0
    ensures var cursor := r.states[i].sockets[s].cursor;
      var log, u := r.states[i].doc.stream, UpdatesOn(r.states[i], s);
      && (u != [] ==> cursor + |u| <= |log|)
      && (forall j :: 0 <= j < |u| ==> Tells(u[j], log[cursor + j]) && u[j].sequence == cursor + 1 + j)
      && TellsCommits(r, i, u, cursor)
  {
    var cursor := ResumedSegment(r, i, s);
    SegmentNumbers(r.states[i].doc.stream, UpdatesOn(r.states[i], s), cursor);
    SegmentTellsCommits(r, i, UpdatesOn(r.states[i], s), cursor);
  }

  lemma ResumedSegment(r: Behavior, i: nat, s: SocketId) returns (base: nat)
    requires IsBehavior(r) && i < |r.states| && s in r.states[i].sockets
    requires r.states[i].sockets[s].cursor > 0
    ensures base == r.states[i].sockets[s].cursor && Contiguous(r.states[i].doc.stream)
    ensures IsSegment(UpdatesOn(r.states[i], s), r.states[i].doc.stream, base)
  {
    InvariantHolds(r, i);
    assert SocketOk(r.states[i], s);
    base := r.states[i].sockets[s].base;
  }

  lemma SegmentNumbers(log: seq<Event>, u: seq<Message>, base: nat)
    requires Contiguous(log) && (forall m :: m in u ==> m.ContentUpdate?) && IsSegment(u, log, base)
    ensures u != [] ==> base + |u| <= |log|
    ensures forall j :: 0 <= j < |u| ==> Tells(u[j], log[base + j]) && u[j].sequence == base + 1 + j
  {
    SegmentTells(u, log, base);
  }

  /** ... and with n as large as it can be: once a resumed socket is live and
      still works, everything the watcher has fanned out to it is there, and all
      of the log when the watcher has caught up. */
  lemma LiveSocketIsCurrent(r: Behavior, i: nat, s: SocketId)
    requires IsBehavior(r) && i < |r.states| && Open(r.states[i], s)
    requires r.states[i].sockets[s].session.stage.Live? && r.states[i].sockets[s].session.client.CanWrite()
    requires r.states[i].sockets[s].cursor > 0
    ensures var sys := r.states[i];
      var so, w := sys.sockets[s], sys.backends[sys.sockets[s].backend].watcher;
      && so.cursor + |UpdatesOn(sys, s)| >= Max(w.initial, Reach(w, s))
      && (w.fanout.Idle? && w.position == |sys.doc.stream| ==>
            so.cursor + |UpdatesOn(sys, s)| == |sys.doc.stream|)
  {
    InvariantHolds(r, i);
    assert SocketOk(r.states[i], s);
  }

  /** On an undamaged log no replay ever meets a gap: pages below the boundary
      are never empty and every entry is the expected one. */
  lemma ReplayNeverGaps(r: Behavior, i: nat, s: SocketId, count: nat)
    requires IsBehavior(r) && i < |r.states| && Open(r.states[i], s)
    requires r.states[i].sockets[s].session.stage.Replaying?
    ensures var so := r.states[i].sockets[s];
      var replay, p := so.session.stage.replay, so.paging;
      && (Enabled(r.states[i], ReadPage(s, count)) ==>
            XRange(r.states[i].doc.stream, p.start, replay.boundary.id, count) != [])
      && (p.page != [] ==> !Judge(replay, p.page[0]).Gap?)
  {
    ReplayingIsOk(r, i, s);
    var log, so := r.states[i].doc.stream, r.states[i].sockets[s];
    var replay, p := so.session.stage.replay, so.paging;
    if Enabled(r.states[i], ReadPage(s, count)) { PageIsNext(log, replay, p, count); }
    if p.page != [] { EntryIsPassed(log, replay, p); }
  }

  lemma ReplayingIsOk(r: Behavior, i: nat, s: SocketId)
    requires IsBehavior(r) && i < |r.states| && Open(r.states[i], s)
    requires r.states[i].sockets[s].session.stage.Replaying?
    ensures LogInvariant(r.states[i].doc)
    ensures var so := r.states[i].sockets[s];
      var w, log, replay := r.states[i].backends[so.backend].watcher, r.states[i].doc.stream, so.session.stage.replay;
      BufferOk(log, w, so) && ReplayOk(log, w, so, s, replay)
  {
    InvariantHolds(r, i);
    assert SocketOk(r.states[i], s);
  }

  /** The handoff lemma: the watcher's startup skip point never exceeds the
      boundary, and at `finishReplay` the buffered sequences above the boundary
      are boundary + 1, boundary + 2, ... without a hole, up to the watcher's
      progress. */
  lemma NothingFallsBetween(r: Behavior, i: nat, s: SocketId)
    requires IsBehavior(r) && i < |r.states| && Open(r.states[i], s)
    requires r.states[i].sockets[s].session.stage.Replaying?
    ensures var so := r.states[i].sockets[s];
      var w := r.states[i].backends[so.backend].watcher;
      var boundary := so.session.stage.replay.boundary.sequence;
      var ks := KeysAbove(so.session.client.pending, boundary);
      && w.initial <= boundary
      && (forall j :: 0 <= j < |ks| ==> ks[j] == boundary + 1 + j)
      && Max(boundary, Reach(w, s)) <= boundary + |ks| <= Max(boundary, w.position)
  {
    ReplayingIsOk(r, i, s);
    var sys := r.states[i];
    var so := sys.sockets[s];
    var replay := so.session.stage.replay;
    BufferClosesTheGap(sys.doc.stream, sys.backends[so.backend].watcher, so, s, replay,
                       KeysAbove(so.session.client.pending, replay.boundary.sequence));
  }

  /** Fresh join: a socket whose room_state carries sequence t has every entry
      above t that its watcher has fanned out, once, in order, unaltered - even
      though the snapshot read may have failed and the cache may be torn. */
  lemma FreshJoin(r: Behavior, i: nat, s: SocketId)
    requires IsBehavior(r) && i < |r.states| && Open(r.states[i], s)
    requires r.states[i].sockets[s].cursor <= 0 && r.states[i].sockets[s].stated.Some?
    ensures var sys := r.states[i];
      var so, log, u := sys.sockets[s], sys.doc.stream, UpdatesOn(sys, s);
      var w := sys.backends[so.backend].watcher;
      && so.base <= so.stated.value.sequence
      && (forall j :: 0 <= j < |u| ==> so.base + j < |log| && Tells(u[j], log[so.base + j]))
      && TellsCommits(r, i, u, so.base)
      && (so.session.client.CanWrite() && so.session.stage.Live? ==>
            forall q :: so.stated.value.sequence < q <= Max(w.initial, Reach(w, s)) ==> HeldOnce(u, q))
  {
    InvariantHolds(r, i);
    var sys := r.states[i];
    assert SocketOk(sys, s);
    FreshSocket(sys.doc.stream, sys.backends[sys.sockets[s].backend], sys.sockets[s], s);
    SegmentTellsCommits(r, i, UpdatesOn(sys, s), sys.sockets[s].base);
  }

  /** Nothing about a socket's beginning ever changes, and what it was told is not told again. */
  lemma StepKeepsOrigin(sys: System, a: Action, s: SocketId)
    requires Enabled(sys, a) && s in sys.sockets
    ensures s in Step(sys, a).sockets
    ensures var so, so' := sys.sockets[s], Step(sys, a).sockets[s];
      && so'.cursor == so.cursor && so'.base == so.base && so'.backend == so.backend
      && (so.stated.Some? ==> so'.stated == so.stated)
      && (so.stated.None? && so'.stated.Some? ==>
            a == ReadRoomState(s) && so.backend in sys.backends && so'.stated == Some(sys.backends[so.backend].room))
  {
  }

  lemma {:induction false} StatedStays(r: Behavior, i: nat, j: nat, s: SocketId)
    requires IsBehavior(r) && i <= j < |r.states| && s in r.states[i].sockets && r.states[i].sockets[s].stated.Some?
    ensures s in r.states[j].sockets
    ensures r.states[j].sockets[s].stated == r.states[i].sockets[s].stated
    ensures r.states[j].sockets[s].cursor == r.states[i].sockets[s].cursor
    decreases j
  {
    if i < j {
      StatedStays(r, i, j - 1, s);
      assert IsStep(r, j - 1);
      StepKeepsOrigin(r.states[j - 1], r.actions[j - 1], s);
    }
  }

  lemma NewSocketIsUntold(sys: System, a: Action, s: SocketId)
    requires Enabled(sys, a) && s !in sys.sockets && s in Step(sys, a).sockets
    ensures Step(sys, a).sockets[s].stated.None?
  {
  }

  /** What a socket is told is what its backend's room held at some earlier time. */
  lemma {:induction false} StatedFrom(r: Behavior, i: nat, s: SocketId) returns (k: nat)
    requires IsBehavior(r) && i < |r.states| && s in r.states[i].sockets && r.states[i].sockets[s].stated.Some?
    ensures k < i && r.actions[k] == ReadRoomState(s)
    ensures var b := r.states[i].sockets[s].backend;
      b in r.states[k].backends && r.states[i].sockets[s].stated == Some(r.states[k].backends[b].room)
    decreases i
  {
    assert i > 0 && IsStep(r, i - 1);
    var before, a := r.states[i - 1], r.actions[i - 1];
    if s in before.sockets {
      StepKeepsOrigin(before, a, s);
      if before.sockets[s].stated.Some? { k := StatedFrom(r, i - 1, s); } else { k := i - 1; }
    } else {
      NewSocketIsUntold(before, a, s);
      assert false;
    }
  }

  /** The room_state frame of a fresh join and what follows it: the frame states
      the room as it was read at some time k before, and every entry above the
      sequence in that frame arrives exactly once. */
  lemma FreshJoinFromFrame(r: Behavior, i: nat, j: nat, s: SocketId) returns (k: nat)
    requires IsBehavior(r) && i < j < |r.states| && r.actions[i] == WriteRoomState(s) && IsStep(r, i)
    requires r.states[i].sockets[s].cursor <= 0 && r.states[i].sockets[s].session.client.CanWrite()
    requires Open(r.states[j], s)
    ensures k < i && r.actions[k] == ReadRoomState(s) && r.states[i].sockets[s].backend in r.states[k].backends
    ensures s in r.states[i + 1].sockets
    ensures var wire := r.states[i].sockets[s].session.client.wire;
      var wire' := r.states[i + 1].sockets[s].session.client.wire;
      var room := r.states[k].backends[r.states[i].sockets[s].backend].room;
      && |wire'| == |wire| + 1 && wire <= wire' && wire'[|wire|].RoomState?
      && wire'[|wire|].content == room.content
      && wire'[|wire|].serverVersion == room.version && wire'[|wire|].sequence == room.sequence
    ensures var sys := r.states[j];
      var t := r.states[i + 1].sockets[s].session.client.wire[|r.states[i].sockets[s].session.client.wire|].sequence;
      var so, w := sys.sockets[s], sys.backends[sys.sockets[s].backend].watcher;
      so.session.client.CanWrite() && so.session.stage.Live? ==>
        forall q :: t < q <= Max(w.initial, Reach(w, s)) ==> HeldOnce(UpdatesOn(sys, s), q)
  {
    k := StatedFrom(r, i, s);
    StatedStays(r, i, j, s);
    FreshJoin(r, j, s);
  }

  /** A fresh socket can always be told the state of its room. */
  lemma FreshCanBeTold(sys: System, s: SocketId)
    requires Open(sys, s) && sys.sockets[s].cursor <= 0 && sys.sockets[s].stated.None?
    ensures Enabled(sys, ReadRoomState(s)) && Enabled(Step(sys, ReadRoomState(s)), WriteRoomState(s))
    ensures var sys' := Step(Step(sys, ReadRoomState(s)), WriteRoomState(s));
      var room, c := sys.backends[sys.sockets[s].backend].room, sys.sockets[s].session.client;
      c.CanWrite() ==>
        sys'.sockets[s].session.client.wire == c.wire + [RoomState(room.content, room.version, room.sequence)]
  {
  }

  lemma FreshSocket(log: seq<Event>, be: Backend, so: Socket, s: SocketId)
    requires Contiguous(log) && SocketBase(log, so) && SocketOpen(log, be, so, s)
    requires so.cursor <= 0 && so.stated.Some?
    ensures var u, w := Updates(so.session.client.wire), be.watcher;
      && so.base <= so.stated.value.sequence
      && (forall j :: 0 <= j < |u| ==> so.base + j < |log| && Tells(u[j], log[so.base + j]))
      && (so.session.client.CanWrite() && so.session.stage.Live? ==>
            forall q :: so.stated.value.sequence < q <= Max(w.initial, Reach(w, s)) ==> HeldOnce(u, q))
  {
    var u, w := Updates(so.session.client.wire), be.watcher;
    if so.session.client.CanWrite() && so.session.stage.Live? {
      forall q | so.stated.value.sequence < q <= Max(w.initial, Reach(w, s)) ensures HeldOnce(u, q) {
        SegmentHoldsOnce(log, u, so.base, q);
      }
    }
  }

  lemma SegmentHoldsOnce(log: seq<Event>, u: seq<Message>, base: nat, q: int)
    requires Contiguous(log) && (forall m :: m in u ==> m.ContentUpdate?) && IsSegment(u, log, base)
    requires base < q <= base + |u|
    ensures HeldOnce(u, q)
  {
    forall k | 0 <= k < |u| ensures u[k].sequence == base + k + 1 {
      assert u[k] == MessageFromEvent(log[base + k]);
    }
    assert HeldAt(u, q, q - 1 - base);
  }

  ghost predicate HeldAt(u: seq<Message>, q: int, j: int)
    requires forall m :: m in u ==> m.ContentUpdate?
  {
    0 <= j < |u| && forall k :: 0 <= k < |u| ==> (u[k].sequence == q <==> k == j)
  }

  /** Exactly one of the updates carries sequence q. */
  ghost predicate HeldOnce(u: seq<Message>, q: int)
    requires forall m :: m in u ==> m.ContentUpdate?
  {
    exists j :: HeldAt(u, q, j)
  }

  /** Why a fresh join loses nothing: the events a watcher has taken never pass
      the sequence its backend would state. */
  lemma WatcherNeverPassesCache(r: Behavior, i: nat, b: BackendId)
    requires IsBehavior(r) && i < |r.states| && b in r.states[i].backends
    ensures var be := r.states[i].backends[b];
      Max(be.watcher.initial, be.watcher.position) <= be.room.sequence <= |r.states[i].doc.stream|
  {
    InvariantHolds(r, i);
    assert BackendOk(r.states[i], b);
  }

  /** Fan-out: whatever the batching, however far snapshots and acknowledgements
      have advanced the cached room, a watcher broadcasts exactly the entries
      above its startup boundary, once each, in log order. */
  lemma FanOutIsTheLog(r: Behavior, i: nat, b: BackendId)
    requires IsBehavior(r) && i < |r.states| && b in r.states[i].backends
    ensures var w := r.states[i].backends[b].watcher;
      && 0 <= w.initial <= Fanned(w) <= |r.states[i].doc.stream|
      && w.fanned == r.states[i].doc.stream[w.initial..Fanned(w)]
  {
    InvariantHolds(r, i);
    assert BackendOk(r.states[i], b);
  }

  lemma StepKeepsInitial(sys: System, a: Action, b: BackendId)
    requires Enabled(sys, a) && b in Step(sys, a).backends
    ensures var w' := Step(sys, a).backends[b].watcher;
      if b in sys.backends then w'.initial == sys.backends[b].watcher.initial && a != Restart(b)
      else a.LoadRoom? && a.b == b && w'.initial == a.snapshot.sequence
  {
  }

  /** Nothing old is broadcast: the startup boundary is the sequence that hydrated
      the backend's room at some time `k`, with no restart since, and every event
      broadcast lies above it. */
  lemma {:induction false} NothingOldIsBroadcast(r: Behavior, i: nat, b: BackendId) returns (k: nat)
    requires IsBehavior(r) && i < |r.states| && b in r.states[i].backends
    ensures k < i && r.actions[k].LoadRoom? && r.actions[k].b == b
    ensures forall j :: k < j < i ==> r.actions[j] != Restart(b)
    ensures var w := r.states[i].backends[b].watcher;
      && w.initial == r.actions[k].snapshot.sequence
      && forall j :: 0 <= j < |w.fanned| ==> w.fanned[j].sequence > r.actions[k].snapshot.sequence
    decreases i
  {
    assert IsStep(r, i - 1);
    StepKeepsInitial(r.states[i - 1], r.actions[i - 1], b);
    if b in r.states[i - 1].backends {
      k := NothingOldIsBroadcast(r, i - 1, b);
    } else {
      k := i - 1;
    }
    FannedIsAbove(r, i, b);
  }

  lemma FannedIsAbove(r: Behavior, i: nat, b: BackendId)
    requires IsBehavior(r) && i < |r.states| && b in r.states[i].backends
    ensures var w := r.states[i].backends[b].watcher;
      forall j :: 0 <= j < |w.fanned| ==> w.fanned[j].sequence > w.initial
  {
    FanOutIsTheLog(r, i, b);
    InvariantHolds(r, i);
  }
}
