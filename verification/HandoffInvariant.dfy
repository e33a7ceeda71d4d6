// The inductive invariant of the delivery protocol and its preservation.
module HandoffInvariant {
  import opened Basics
  import opened DocumentLog
  import opened StreamReads
  import opened ClientDelivery
  import opened ReplaySession
  import opened Handoff

  // ---------------------------------------------------------------------
  // The watcher.

  ghost predicate WatcherOk(log: seq<Event>, be: Backend) {
    var w := be.watcher;
    && 0 <= w.initial <= |log|
    && w.position + |w.batch| <= |log|
    && w.batch == log[w.position..w.position + |w.batch|]
    && w.lastStreamId == IdAt(log, w.position)
    && (!w.fanout.Idle? ==>
          w.position > 0 && w.position > w.initial && w.fanout.event == log[w.position - 1])
    && Max(w.initial, w.position) <= be.room.sequence <= |log|
    && w.fanned == log[w.initial..Fanned(w)]
  }

  /** The log position up to which broadcasts have begun. */
  function Fanned(w: Watcher): int {
    Max(w.initial, if w.fanout.Applied? then w.position - 1 else w.position)
  }

  // ---------------------------------------------------------------------
  // A socket.

  ghost predicate IsSegment(u: seq<Message>, log: seq<Event>, base: nat) {
    u != [] ==> base + |u| <= |log| && forall i :: 0 <= i < |u| ==> u[i] == MessageFromEvent(log[base + i])
  }

  lemma SegmentTells(u: seq<Message>, log: seq<Event>, base: nat)
    requires IsSegment(u, log, base)
    ensures u != [] ==> base + |u| <= |log|
    ensures forall i :: 0 <= i < |u| ==> Tells(u[i], log[base + i])
  {
  }

  lemma EntryExtendsSegment(log: seq<Event>, u: seq<Message>, e: Event, base: nat)
    requires IsSegment(u, log, base) && base + |u| < |log| && e == log[base + |u|]
    ensures IsSegment(u + [MessageFromEvent(e)], log, base)
  {
  }

  /** True of every socket, open or closed. */
  ghost predicate SocketBase(log: seq<Event>, so: Socket) {
    var c := so.session.client;
    && |c.wire| <= c.limit
    && IsSegment(Updates(c.wire), log, so.base)
    && (so.cursor > 0 ==> so.base == so.cursor)
    && (so.closed ==> !c.CanWrite())
    && (so.cursor <= 0 && so.stated.Some? ==> so.base <= so.stated.value.sequence)
  }

  ghost predicate BufferOk(log: seq<Event>, w: Watcher, so: Socket) {
    var c := so.session.client;
    && c.replaying && so.cursor > 0 && c.lastSequence == so.cursor
    && w.position <= |log|
    && forall k :: k in c.pending ==>
        so.cursor < k <= w.position && c.pending[k] == MessageFromEvent(log[k - 1])
  }

  ghost predicate PagingOk(log: seq<Event>, r: Replay, p: Paging) {
    && p.index + |p.page| <= r.boundary.sequence <= |log|
    && p.page == log[p.index..p.index + |p.page|]
    && r.expected == Max(r.cursor, p.index) + 1
    && (p.page == [] ==> p.start == StartAt(log, p.index))
  }

  ghost predicate ReplayOk(log: seq<Event>, w: Watcher, so: Socket, s: SocketId, r: Replay) {
    var c := so.session.client;
    && r.cursor == so.cursor
    && 0 < r.boundary.sequence <= |log| && r.boundary == log[r.boundary.sequence - 1]
    && so.cursor <= r.boundary.sequence && r.expected <= r.boundary.sequence + 1
    && |Updates(c.wire)| == r.expected - 1 - so.cursor
    && PagingOk(log, r, so.paging)
    // Nothing falls between replay and live delivery.
    && w.initial <= r.boundary.sequence
    && forall q :: r.boundary.sequence < q <= Reach(w, s) ==> q in c.pending
  }

  ghost predicate LiveOk(w: Watcher, so: Socket, s: SocketId) {
    var c := so.session.client;
    var top := so.base + |Updates(c.wire)|;
    && !c.replaying
    && c.lastSequence == (if so.cursor <= 0 && Updates(c.wire) == [] then 0 else top)
    && (c.CanWrite() ==> top >= Max(w.initial, Reach(w, s)))
    && (so.cursor <= 0 ==> so.base <= Max(w.initial, Reach(w, s)))
  }

  /** True of every socket whose handler is still running. */
  ghost predicate SocketOpen(log: seq<Event>, be: Backend, so: Socket, s: SocketId) {
    && (so.cursor <= 0 ==> so.base <= be.room.sequence)
    && match so.session.stage
       case Live =>
         LiveOk(be.watcher, so, s) && so.base + |Updates(so.session.client.wire)| <= |log|
       case Awaiting(cursor) =>
         && cursor == so.cursor && BufferOk(log, be.watcher, so)
         && Updates(so.session.client.wire) == [] && so.paging == Paging(FromBeginning, [], 0)
       case Replaying(r) => BufferOk(log, be.watcher, so) && ReplayOk(log, be.watcher, so, s, r)
       case Stopped => so.session.client.replaying || !so.session.client.CanWrite()
  }

  // ---------------------------------------------------------------------
  // The system.

  ghost predicate ClientsKnown(sys: System, b: BackendId, clients: seq<SocketId>) {
    forall s :: s in clients ==> s in sys.sockets && sys.sockets[s].backend == b
  }

  ghost predicate BackendOk(sys: System, b: BackendId)
    requires b in sys.backends
  {
    var be := sys.backends[b];
    && WatcherOk(sys.doc.stream, be)
    && ClientsKnown(sys, b, be.clients)
    && (be.watcher.fanout.Sending? ==> ClientsKnown(sys, b, be.watcher.fanout.targets))
  }

  ghost predicate SocketOk(sys: System, s: SocketId)
    requires s in sys.sockets
  {
    var so := sys.sockets[s];
    && SocketBase(sys.doc.stream, so)
    && (!so.closed ==>
         && so.backend in sys.backends
         && var be := sys.backends[so.backend];
         && (s in be.clients <==> !so.removed)
         && (Served(be.watcher, so, s) ==> SocketOpen(sys.doc.stream, be, so, s)))
  }

  /** Broadcasts may still be handed to the socket: it is listed, or it is a
      remaining target of the one in progress. */
  ghost predicate Served(w: Watcher, so: Socket, s: SocketId) {
    !so.closed && (so.removed ==> w.fanout.Sending? && s in w.fanout.targets)
  }

  ghost predicate Inv(sys: System) {
    && LogInvariant(sys.doc)
    && (forall b :: b in sys.backends ==> BackendOk(sys, b))
    && (forall s :: s in sys.sockets ==> SocketOk(sys, s))
  }

  // ---------------------------------------------------------------------
  // Replacing one backend or one socket.

  /** A backend record stays good when it is kept and no socket is moved. */
  lemma BackendSurvives(sys: System, sys': System, b: BackendId)
    requires Inv(sys) && sys'.doc == sys.doc && b in sys.backends && b in sys'.backends
    requires SocketsStay(sys, sys') && sys'.backends[b] == sys.backends[b]
    ensures BackendOk(sys', b)
  {
    assert BackendOk(sys, b);
  }

  ghost predicate SocketsStay(sys: System, sys': System) {
    forall s :: s in sys.sockets ==> s in sys'.sockets && sys'.sockets[s].backend == sys.sockets[s].backend
  }

  lemma KnownSurvives(sys: System, sys': System, b: BackendId)
    requires SocketsStay(sys, sys')
    ensures forall clients :: ClientsKnown(sys, b, clients) ==> ClientsKnown(sys', b, clients)
    ensures Inv(sys) && b in sys.backends ==> ClientsKnown(sys', b, sys.backends[b].clients)
  {
    assert Inv(sys) && b in sys.backends ==> BackendOk(sys, b);
  }

  /** A socket stays good when it is kept and its backend keeps its client list. */
  lemma SocketSurvives(sys: System, sys': System, s: SocketId)
    requires Inv(sys) && sys'.doc == sys.doc && s in sys.sockets && s in sys'.sockets
    requires sys'.sockets[s] == sys.sockets[s]
    requires !sys.sockets[s].closed && sys.sockets[s].backend in sys.backends ==>
      var b := sys.sockets[s].backend;
      && b in sys'.backends && sys'.backends[b].clients == sys.backends[b].clients
      && (sys'.backends[b] != sys.backends[b] && Served(sys'.backends[b].watcher, sys.sockets[s], s) ==>
            SocketOpen(sys.doc.stream, sys'.backends[b], sys.sockets[s], s))
    ensures SocketOk(sys', s)
  {
    assert SocketOk(sys, s);
  }

  lemma ClosedIsBased(log: seq<Event>, so: Socket)
    requires SocketBase(log, so)
    ensures SocketBase(log, Closed(so))
  {
  }

  lemma BackendReplaced(sys: System, b: BackendId, be: Backend)
    requires Inv(sys) && b in sys.backends
    requires WatcherOk(sys.doc.stream, be) && be.clients == sys.backends[b].clients
    requires be.watcher.fanout.Sending? ==> ClientsKnown(sys, b, be.watcher.fanout.targets)
    requires forall s :: s in sys.sockets && sys.sockets[s].backend == b && Served(be.watcher, sys.sockets[s], s) ==>
      SocketOpen(sys.doc.stream, be, sys.sockets[s], s)
    ensures Inv(sys.(backends := sys.backends[b := be]))
  {
    var sys' := sys.(backends := sys.backends[b := be]);
    forall x | x in sys'.backends ensures BackendOk(sys', x) {
      if x != b { BackendSurvives(sys, sys', x); } else { KnownSurvives(sys, sys', b); }
    }
    forall s | s in sys'.sockets ensures SocketOk(sys', s) {
      SocketSurvives(sys, sys', s);
    }
  }

  /** The watcher moved, but still owes every socket it serves the same events. */
  ghost predicate OwesTheSame(sys: System, b: BackendId, w: Watcher, w': Watcher) {
    && w'.initial == w.initial && w'.position >= w.position
    && forall s :: s in sys.sockets && sys.sockets[s].backend == b && Served(w', sys.sockets[s], s) ==>
        Served(w, sys.sockets[s], s) && Max(w.initial, Reach(w', s)) == Max(w.initial, Reach(w, s))
  }

  lemma StillOpen(log: seq<Event>, be: Backend, be': Backend, so: Socket, s: SocketId)
    requires SocketOpen(log, be, so, s) && WatcherOk(log, be')
    requires be'.room.sequence >= be.room.sequence
    requires be'.watcher.initial == be.watcher.initial && be'.watcher.position >= be.watcher.position
    requires Max(be.watcher.initial, Reach(be'.watcher, s)) == Max(be.watcher.initial, Reach(be.watcher, s))
    ensures SocketOpen(log, be', so, s)
  {
  }

  lemma BackendMoved(sys: System, b: BackendId, be: Backend)
    requires Inv(sys) && b in sys.backends
    requires WatcherOk(sys.doc.stream, be) && be.clients == sys.backends[b].clients
    requires be.room.sequence >= sys.backends[b].room.sequence
    requires be.watcher.fanout.Sending? ==> ClientsKnown(sys, b, be.watcher.fanout.targets)
    requires OwesTheSame(sys, b, sys.backends[b].watcher, be.watcher)
    ensures Inv(sys.(backends := sys.backends[b := be]))
  {
    forall s | s in sys.sockets && sys.sockets[s].backend == b && Served(be.watcher, sys.sockets[s], s)
      ensures SocketOpen(sys.doc.stream, be, sys.sockets[s], s)
    {
      assert SocketOk(sys, s);
      StillOpen(sys.doc.stream, sys.backends[b], be, sys.sockets[s], s);
    }
    BackendReplaced(sys, b, be);
  }

  lemma SocketReplaced(sys: System, s: SocketId, so: Socket)
    requires Inv(sys) && s in sys.sockets
    requires so.backend == sys.sockets[s].backend && so.removed == sys.sockets[s].removed
    requires sys.sockets[s].closed ==> so.closed
    requires SocketBase(sys.doc.stream, so)
    requires !so.closed && Served(sys.backends[so.backend].watcher, so, s) ==>
      SocketOpen(sys.doc.stream, sys.backends[so.backend], so, s)
    ensures Inv(sys.(sockets := sys.sockets[s := so]))
  {
    var sys' := sys.(sockets := sys.sockets[s := so]);
    assert SocketOk(sys, s);
    forall x | x in sys'.backends ensures BackendOk(sys', x) {
      BackendSurvives(sys, sys', x);
    }
    forall x | x in sys'.sockets ensures SocketOk(sys', x) {
      if x != s { SocketSurvives(sys, sys', x); }
    }
  }
}
