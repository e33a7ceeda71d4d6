// The delivery protocol of one room as a step relation: commits from any
// backend, each backend's stream watcher, registration, boundary capture, page
// reads, replayed writes, the handoff, disconnects and restarts, interleaved
// in any way. Each step is one atomic section of the code.
module Handoff {
  import opened Basics
  import opened DocumentLog
  import opened StreamReads
  import opened ClientDelivery
  import opened ReplaySession
  import opened RoomCache

  type BackendId = nat
  type SocketId = nat

  /** Where the watcher is within one event: between events, after updating the
      cached room, or part-way through the copied client list. */
  datatype Fanout = Idle | Applied(event: Event) | Sending(event: Event, targets: seq<SocketId>)

  /** `position` counts the log entries taken and `fanned` lists the broadcasts
      begun; both are bookkeeping for the proof. */
  datatype Watcher = Watcher(
    initial: int, lastStreamId: nat, batch: seq<Event>, fanout: Fanout,
    position: nat, fanned: seq<Event>)

  datatype Backend = Backend(room: Snapshot, watcher: Watcher, clients: seq<SocketId>)

  /** The page loop of EventsAfterSequence; `index` counts entries passed. */
  datatype Paging = Paging(start: RangeStart, page: seq<Event>, index: nat)

  /** `base` is the sequence after which this socket's updates begin: the
      cursor of a resumed socket, the fan-out progress at registration of a
      fresh one. `stated` is the snapshot a fresh socket's room_state carries.
      A `removed` socket has left the client list but may still be a target of
      the broadcast in progress; a `closed` one accepts nothing. */
  datatype Socket = Socket(
    backend: BackendId, cursor: int, session: Session, paging: Paging,
    stated: Option<Snapshot>, removed: bool, closed: bool, base: nat)

  datatype System = System(
    doc: Doc, backends: map<BackendId, Backend>, sockets: map<SocketId, Socket>)

  datatype Action =
    // the store
    | Commit(op: Operation, id: nat)
    // a backend
    | LoadRoom(b: BackendId, snapshot: Snapshot)      // GetRoom / CreateRoom, then ensureWatcher
    | AbsorbSnapshot(b: BackendId, snapshot: Snapshot)// a reply or a GET reaches the cache
    | Restart(b: BackendId)
    | ReadStream(b: BackendId, count: nat)
    | TakeEvent(b: BackendId)
    | CopyClients(b: BackendId)
    | SendNext(b: BackendId)
    // a socket
    | Register(s: SocketId, b: BackendId, cursor: int, limit: nat)
    | CaptureBoundary(s: SocketId)
    | ReadPage(s: SocketId, count: nat)
    | VisitEntry(s: SocketId)
    | FinishReplay(s: SocketId)
    | ReadRoomState(s: SocketId)
    | WriteRoomState(s: SocketId)
    | WriteOther(s: SocketId, frame: Message)
    | FailResume(s: SocketId)
    | LeaveRoom(s: SocketId)        // RemoveClient, the start of cleanup
    | CloseConnection(s: SocketId)  // its end

  ghost predicate Init(sys: System) {
    sys == System(EMPTY, map[], map[])
  }

  ghost predicate Connected(sys: System, s: SocketId) {
    s in sys.sockets && !sys.sockets[s].closed && sys.sockets[s].backend in sys.backends
  }

  /** The part of a socket's handler that may act: not during cleanup. */
  ghost predicate Open(sys: System, s: SocketId) {
    Connected(sys, s) && !sys.sockets[s].removed
  }

  ghost predicate Enabled(sys: System, a: Action) {
    match a
    case Commit(op, id) => id > LastId(sys.doc.stream)
    // The sequence of the (possibly torn) hydration read was current at some earlier time.
    case LoadRoom(b, snapshot) => b !in sys.backends && 0 <= snapshot.sequence <= sys.doc.sequence
    case AbsorbSnapshot(b, snapshot) => b in sys.backends && snapshot.sequence <= sys.doc.sequence
    case Restart(b) => b in sys.backends
    case ReadStream(b, count) =>
      b in sys.backends && sys.backends[b].watcher.fanout.Idle? && sys.backends[b].watcher.batch == []
    case TakeEvent(b) =>
      b in sys.backends && sys.backends[b].watcher.fanout.Idle? && sys.backends[b].watcher.batch != []
    case CopyClients(b) => b in sys.backends && sys.backends[b].watcher.fanout.Applied?
    case SendNext(b) => b in sys.backends && sys.backends[b].watcher.fanout.Sending?
    case Register(s, b, cursor, limit) => s !in sys.sockets && b in sys.backends
    case CaptureBoundary(s) => Open(sys, s) && sys.sockets[s].session.stage.Awaiting?
    case ReadPage(s, count) =>
      && Open(sys, s) && sys.sockets[s].session.stage.Replaying? && count > 0
      && sys.sockets[s].paging.page == []
      && var r := sys.sockets[s].session.stage.replay; r.expected <= r.boundary.sequence
    case VisitEntry(s) =>
      Open(sys, s) && sys.sockets[s].session.stage.Replaying? && sys.sockets[s].paging.page != []
    case FinishReplay(s) =>
      && Open(sys, s) && sys.sockets[s].session.stage.Replaying?
      && sys.sockets[s].paging.page == []
      && var r := sys.sockets[s].session.stage.replay; r.expected > r.boundary.sequence
    case ReadRoomState(s) => Open(sys, s) && sys.sockets[s].cursor <= 0 && sys.sockets[s].stated.None?
    case WriteRoomState(s) => Open(sys, s) && sys.sockets[s].stated.Some?
    case WriteOther(s, frame) => Connected(sys, s) && !frame.ContentUpdate?
    case FailResume(s) => Open(sys, s) && !sys.sockets[s].session.stage.Live?
    case LeaveRoom(s) => Open(sys, s)
    case CloseConnection(s) => Connected(sys, s) && sys.sockets[s].removed
  }

  // ---------------------------------------------------------------------
  // Effects.

  function NewWatcher(initial: int): Watcher {
    Watcher(initial, 0, [], Idle, 0, [])
  }

  /** The reach of the fan-out for a socket: the last position whose event
      will not be handed to it any more. */
  function Reach(w: Watcher, s: SocketId): nat {
    if w.position > 0 && (w.fanout.Applied? || (w.fanout.Sending? && s in w.fanout.targets))
    then w.position - 1 else w.position
  }

  function NewSocket(s: SocketId, b: BackendId, w: Watcher, cursor: int, limit: nat): Socket {
    var progress := Max(w.initial, Reach(w, s));
    Socket(b, cursor, Start(cursor, limit), Paging(FromBeginning, [], 0), None, false, false,
           if cursor > 0 then cursor else if progress > 0 then progress else 0)
  }

  function Taken(be: Backend): Backend
    requires be.watcher.batch != []
  {
    var w := be.watcher;
    var e := w.batch[0];
    var w' := w.(lastStreamId := e.id, batch := w.batch[1..], position := w.position + 1);
    if e.sequence <= w.initial then be.(watcher := w')
    else be.(watcher := w'.(fanout := Applied(e)), room := EventApplied(be.room, e))
  }

  ghost function Sent(sys: System, b: BackendId): System
    requires b in sys.backends && sys.backends[b].watcher.fanout.Sending?
  {
    var be := sys.backends[b];
    var f := be.watcher.fanout;
    if f.targets == [] then
      sys.(backends := sys.backends[b := be.(watcher := be.watcher.(fanout := Idle))])
    else
      var s := f.targets[0];
      var w := be.watcher.(fanout := Sending(f.event, f.targets[1..]));
      var sys' := sys.(backends := sys.backends[b := be.(watcher := w)]);
      if s in sys.sockets then
        var so := sys.sockets[s];
        sys'.(sockets := sys.sockets[s := so.(session := Serve(so.session, Broadcast(MessageFromEvent(f.event))))])
      else sys'
  }

  /** The connection is gone: nothing is written any more. */
  function Closed(so: Socket): Socket {
    so.(closed := true, session := so.session.(
      stage := Stopped, client := so.session.client.(limit := |so.session.client.wire|)))
  }

  function PassEntry(p: Paging): Paging
    requires p.page != []
  {
    Paging(if |p.page| == 1 then After(p.page[0].id) else p.start, p.page[1..], p.index + 1)
  }

  ghost function Step(sys: System, a: Action): System
    requires Enabled(sys, a)
  {
    match a
    case Commit(op, id) => sys.(doc := ApplyScript(sys.doc, op, id).0)
    case LoadRoom(b, snapshot) =>
      sys.(backends := sys.backends[b := Backend(snapshot, NewWatcher(snapshot.sequence), [])])
    case AbsorbSnapshot(b, snapshot) =>
      var be := sys.backends[b];
      sys.(backends := sys.backends[b := be.(room := SnapshotApplied(be.room, snapshot))])
    case Restart(b) =>
      System(sys.doc, sys.backends - {b},
             map s | s in sys.sockets ::
               if sys.sockets[s].backend == b then Closed(sys.sockets[s]) else sys.sockets[s])
    case ReadStream(b, count) =>
      var be := sys.backends[b];
      var batch := XRead(sys.doc.stream, be.watcher.lastStreamId, count);
      sys.(backends := sys.backends[b := be.(watcher := be.watcher.(batch := batch))])
    case TakeEvent(b) => sys.(backends := sys.backends[b := Taken(sys.backends[b])])
    case CopyClients(b) =>
      var be := sys.backends[b];
      var e := be.watcher.fanout.event;
      var w := be.watcher.(fanout := Sending(e, be.clients), fanned := be.watcher.fanned + [e]);
      sys.(backends := sys.backends[b := be.(watcher := w)])
    case SendNext(b) => Sent(sys, b)
    case Register(s, b, cursor, limit) =>
      var be := sys.backends[b];
      System(sys.doc, sys.backends[b := be.(clients := be.clients + [s])],
             sys.sockets[s := NewSocket(s, b, be.watcher, cursor, limit)])
    case CaptureBoundary(s) => Called(sys, s, Capture(ReplayBoundary(sys.doc.stream)))
    case ReadPage(s, count) =>
      var so := sys.sockets[s];
      var page := XRange(sys.doc.stream, so.paging.start, so.session.stage.replay.boundary.id, count);
      if page == [] then Called(sys, s, Abort)
      else sys.(sockets := sys.sockets[s := so.(paging := so.paging.(page := page))])
    case VisitEntry(s) =>
      var so := sys.sockets[s];
      sys.(sockets := sys.sockets[s := so.(session := Serve(so.session, Entry(so.paging.page[0])),
                                           paging := PassEntry(so.paging))])
    case FinishReplay(s) => Called(sys, s, Complete)
    case ReadRoomState(s) =>
      var so := sys.sockets[s];
      sys.(sockets := sys.sockets[s := so.(stated := Some(sys.backends[so.backend].room))])
    case WriteRoomState(s) =>
      var t := sys.sockets[s].stated.value;
      Called(sys, s, Emit(RoomState(t.content, t.version, t.sequence)))
    case WriteOther(s, frame) => Called(sys, s, Emit(frame))
    case FailResume(s) => Called(sys, s, Abort)
    case LeaveRoom(s) =>
      var so := sys.sockets[s];
      var be := sys.backends[so.backend];
      System(sys.doc, sys.backends[so.backend := be.(clients := Without(be.clients, s))],
             sys.sockets[s := so.(removed := true)])
    case CloseConnection(s) => sys.(sockets := sys.sockets[s := Closed(sys.sockets[s])])
  }

  ghost function Called(sys: System, s: SocketId, call: Call): System
    requires s in sys.sockets
  {
    var so := sys.sockets[s];
    sys.(sockets := sys.sockets[s := so.(session := Serve(so.session, call))])
  }

  datatype Behavior = Behavior(states: seq<System>, actions: seq<Action>)

  ghost predicate IsBehavior(r: Behavior) {
    && |r.states| == |r.actions| + 1
    && Init(r.states[0])
    && forall i :: 0 <= i < |r.actions| ==> IsStep(r, i)
  }

  ghost predicate IsStep(r: Behavior, i: nat)
    requires |r.states| == |r.actions| + 1 && i < |r.actions|
  {
    Enabled(r.states[i], r.actions[i]) && r.states[i + 1] == Step(r.states[i], r.actions[i])
  }
}
