// Every step of the delivery protocol keeps the invariant.
module HandoffSteps {
  import opened Basics
  import opened DocumentLog
  import opened StreamReads
  import opened ClientDelivery
  import opened ReplaySession
  import opened RoomCache
  import opened Handoff
  import opened HandoffInvariant

  // ---------------------------------------------------------------------
  // The store.

  lemma GrowWatcher(log: seq<Event>, later: seq<Event>, be: Backend)
    requires log <= later && WatcherOk(log, be)
    ensures WatcherOk(later, be)
  {
    var w := be.watcher;
    assert later[w.position..w.position + |w.batch|] == log[w.position..w.position + |w.batch|];
    assert later[w.initial..Fanned(w)] == log[w.initial..Fanned(w)];
  }

  lemma GrowSocket(log: seq<Event>, later: seq<Event>, be: Backend, so: Socket, s: SocketId)
    requires log <= later
    ensures SocketBase(log, so) ==> SocketBase(later, so)
    ensures SocketOpen(log, be, so, s) ==> SocketOpen(later, be, so, s)
  {
    if SocketOpen(log, be, so, s) && so.session.stage.Replaying? {
      var p := so.paging;
      assert later[p.index..p.index + |p.page|] == log[p.index..p.index + |p.page|];
    }
  }

  lemma CommitStep(sys: System, op: Operation, id: nat)
    requires Inv(sys) && Enabled(sys, Commit(op, id))
    ensures Inv(Step(sys, Commit(op, id)))
  {
    var sys' := Step(sys, Commit(op, id));
    var log, later := sys.doc.stream, sys'.doc.stream;
    ApplyKeepsLogInvariant(sys.doc, op, id);
    forall b | b in sys'.backends ensures BackendOk(sys', b) {
      assert BackendOk(sys, b);
      GrowWatcher(log, later, sys.backends[b]);
    }
    forall s | s in sys'.sockets ensures SocketOk(sys', s) {
      assert SocketOk(sys, s);
      var so := sys.sockets[s];
      if so.closed {
        GrowSocket(log, later, Backend(Snapshot("", 0, 0), NewWatcher(0), []), so, s);
      } else {
        GrowSocket(log, later, sys.backends[so.backend], so, s);
      }
    }
  }

  // ---------------------------------------------------------------------
  // Backends.

  lemma LoadRoomStep(sys: System, b: BackendId, snapshot: Snapshot)
    requires Inv(sys) && Enabled(sys, LoadRoom(b, snapshot))
    ensures Inv(Step(sys, LoadRoom(b, snapshot)))
  {
    var sys' := Step(sys, LoadRoom(b, snapshot));
    forall x | x in sys'.backends ensures BackendOk(sys', x) {
      if x != b { assert BackendOk(sys, x); }
    }
    forall s | s in sys'.sockets ensures SocketOk(sys', s) {
      assert SocketOk(sys, s);
    }
  }

  lemma AbsorbSnapshotStep(sys: System, b: BackendId, snapshot: Snapshot)
    requires Inv(sys) && Enabled(sys, AbsorbSnapshot(b, snapshot))
    ensures Inv(Step(sys, AbsorbSnapshot(b, snapshot)))
  {
    var be := sys.backends[b];
    assert BackendOk(sys, b);
    BackendMoved(sys, b, be.(room := SnapshotApplied(be.room, snapshot)));
  }

  lemma RestartStep(sys: System, b: BackendId)
    requires Inv(sys) && Enabled(sys, Restart(b))
    ensures Inv(Step(sys, Restart(b)))
  {
    var sys' := Step(sys, Restart(b));
    forall x | x in sys'.backends ensures BackendOk(sys', x) {
      BackendSurvives(sys, sys', x);
    }
    forall s | s in sys'.sockets ensures SocketOk(sys', s) {
      if sys.sockets[s].backend == b {
        ClosedIsBased(sys.doc.stream, sys.sockets[s]);
      } else {
        SocketSurvives(sys, sys', s);
      }
    }
  }

  function BatchRead(log: seq<Event>, be: Backend, count: nat): Backend {
    be.(watcher := be.watcher.(batch := XRead(log, be.watcher.lastStreamId, count)))
  }

  lemma BatchReadIsOk(log: seq<Event>, be: Backend, count: nat)
    requires IdsIncrease(log) && WatcherOk(log, be)
    ensures WatcherOk(log, BatchRead(log, be, count))
    ensures forall s :: Reach(BatchRead(log, be, count).watcher, s) == Reach(be.watcher, s)
  {
    XReadIsSlice(log, be.watcher.position, count);
  }

  lemma ReadStreamStep(sys: System, b: BackendId, count: nat)
    requires Inv(sys) && Enabled(sys, ReadStream(b, count))
    ensures Inv(Step(sys, ReadStream(b, count)))
  {
    var be := sys.backends[b];
    assert BackendOk(sys, b);
    BatchReadIsOk(sys.doc.stream, be, count);
    BackendMoved(sys, b, BatchRead(sys.doc.stream, be, count));
  }

  lemma TakenIsOk(log: seq<Event>, be: Backend)
    requires Contiguous(log) && WatcherOk(log, be) && be.watcher.fanout.Idle? && be.watcher.batch != []
    ensures WatcherOk(log, Taken(be))
    ensures forall s :: Max(be.watcher.initial, Reach(Taken(be).watcher, s))
                     == Max(be.watcher.initial, Reach(be.watcher, s))
    ensures Taken(be).watcher.initial == be.watcher.initial
    ensures Taken(be).watcher.position == be.watcher.position + 1
    ensures be.room.sequence <= Taken(be).room.sequence
  {
    var w := be.watcher;
    assert w.batch[0] == log[w.position];
    assert w.batch[1..] == log[w.position + 1..w.position + |w.batch|];
  }

  lemma TakeEventStep(sys: System, b: BackendId)
    requires Inv(sys) && Enabled(sys, TakeEvent(b))
    ensures Inv(Step(sys, TakeEvent(b)))
  {
    var be := sys.backends[b];
    assert BackendOk(sys, b);
    TakenIsOk(sys.doc.stream, be);
    BackendMoved(sys, b, Taken(be));
  }

  function Copied(be: Backend): Backend
    requires be.watcher.fanout.Applied?
  {
    var e := be.watcher.fanout.event;
    be.(watcher := be.watcher.(fanout := Sending(e, be.clients), fanned := be.watcher.fanned + [e]))
  }

  lemma CopiedIsOk(log: seq<Event>, be: Backend)
    requires WatcherOk(log, be) && be.watcher.fanout.Applied?
    ensures WatcherOk(log, Copied(be))
    ensures forall s :: s in be.clients ==> Reach(Copied(be).watcher, s) == Reach(be.watcher, s)
  {
    var w := be.watcher;
    assert log[w.initial..w.position] == log[w.initial..w.position - 1] + [log[w.position - 1]];
  }

  lemma CopyClientsStep(sys: System, b: BackendId)
    requires Inv(sys) && Enabled(sys, CopyClients(b))
    ensures Inv(Step(sys, CopyClients(b)))
  {
    var be := sys.backends[b];
    assert BackendOk(sys, b);
    CopiedIsOk(sys.doc.stream, be);
    forall s | s in sys.sockets && sys.sockets[s].backend == b && Served(Copied(be).watcher, sys.sockets[s], s)
      ensures Served(be.watcher, sys.sockets[s], s) && Reach(Copied(be).watcher, s) == Reach(be.watcher, s)
    {
      assert SocketOk(sys, s);
    }
    BackendMoved(sys, b, Copied(be));
  }

  // ---------------------------------------------------------------------
  // One delivery.

  /** Handing the event of the current broadcast to a socket still waiting for it. */
  lemma DeliverToLive(log: seq<Event>, w: Watcher, w': Watcher, so: Socket, s: SocketId, e: Event)
    requires Contiguous(log) && 0 < w.position <= |log| && e == log[w.position - 1]
    requires w.position > w.initial && Reach(w, s) == w.position - 1
    requires w' == w.(fanout := w'.fanout) && Reach(w', s) <= w.position
    requires w.position - 1 <= Reach(w', s)
    requires SocketBase(log, so) && !so.closed && so.session.stage.Live? && LiveOk(w, so, s)
    ensures var so' := so.(session := Serve(so.session, Broadcast(MessageFromEvent(e))));
      SocketBase(log, so') && so'.session.stage.Live? && LiveOk(w', so', s)
  {
    var c := so.session.client;
    if c.CanWrite() {
      var u := Updates(c.wire);
      UpdatesOfWritten(c, MessageFromEvent(e));
      if so.base + |u| == w.position - 1 { EntryExtendsSegment(log, u, e, so.base); }
    }
  }

  lemma DeliverToBuffer(log: seq<Event>, w: Watcher, w': Watcher, so: Socket, s: SocketId, e: Event)
    requires Contiguous(log) && 0 < w.position <= |log| && e == log[w.position - 1]
    requires Reach(w, s) == w.position - 1
    requires w' == w.(fanout := w'.fanout) && Reach(w', s) <= w.position
    requires BufferOk(log, w, so)
    ensures var so' := so.(session := Serve(so.session, Broadcast(MessageFromEvent(e))));
      && BufferOk(log, w', so')
      && so'.session.client.wire == so.session.client.wire
      && so'.session.stage == so.session.stage
      && (so.session.stage.Replaying? && ReplayOk(log, w, so, s, so.session.stage.replay) ==>
            ReplayOk(log, w', so', s, so.session.stage.replay))
  {
  }

  lemma SendNextStep(sys: System, b: BackendId)
    requires Inv(sys) && Enabled(sys, SendNext(b))
    ensures Inv(Step(sys, SendNext(b)))
  {
    var be := sys.backends[b];
    var w := be.watcher;
    assert BackendOk(sys, b);
    if w.fanout.targets == [] {
      BackendMoved(sys, b, be.(watcher := w.(fanout := Idle)));
    } else {
      DeliveryStep(sys, b, w.fanout.targets[0]);
    }
  }

  /** The backend once the first target of the current broadcast is dealt with. */
  function NextTarget(be: Backend): Backend
    requires be.watcher.fanout.Sending? && be.watcher.fanout.targets != []
  {
    be.(watcher := be.watcher.(fanout := Sending(be.watcher.fanout.event, be.watcher.fanout.targets[1..])))
  }

  lemma OtherSocket(log: seq<Event>, be: Backend, so: Socket, s: SocketId)
    requires be.watcher.fanout.Sending? && be.watcher.fanout.targets != []
    requires s != be.watcher.fanout.targets[0] && SocketOpen(log, be, so, s)
    ensures SocketOpen(log, NextTarget(be), so, s)
  {
    var targets := be.watcher.fanout.targets;
    assert targets == [targets[0]] + targets[1..];
    assert s in targets <==> s in targets[1..];
    assert Reach(NextTarget(be).watcher, s) == Reach(be.watcher, s);
  }

  lemma NextTargetIsOk(sys: System, b: BackendId)
    requires b in sys.backends && BackendOk(sys, b)
    requires sys.backends[b].watcher.fanout.Sending? && sys.backends[b].watcher.fanout.targets != []
    ensures WatcherOk(sys.doc.stream, NextTarget(sys.backends[b]))
    ensures ClientsKnown(sys, b, NextTarget(sys.backends[b]).watcher.fanout.targets)
  {
  }

  lemma DeliveryStep(sys: System, b: BackendId, t: SocketId)
    requires Inv(sys) && Enabled(sys, SendNext(b))
    requires sys.backends[b].watcher.fanout.targets != []
    requires t == sys.backends[b].watcher.fanout.targets[0]
    ensures Inv(Step(sys, SendNext(b)))
  {
    var be := sys.backends[b];
    var e := be.watcher.fanout.event;
    assert BackendOk(sys, b);
    NextTargetIsOk(sys, b);
    assert t in be.watcher.fanout.targets && SocketOk(sys, t);
    var so := sys.sockets[t];
    var so' := so.(session := Serve(so.session, Broadcast(MessageFromEvent(e))));
    DeliveredSocket(sys.doc.stream, be, be, so, t, e);
    DeliveredSocket(sys.doc.stream, be, NextTarget(be), so, t, e);
    SocketReplaced(sys, t, so');
    var sys1 := sys.(sockets := sys.sockets[t := so']);
    forall s | s in sys1.sockets && sys1.sockets[s].backend == b && Served(NextTarget(be).watcher, sys1.sockets[s], s)
      ensures SocketOpen(sys.doc.stream, NextTarget(be), sys1.sockets[s], s)
    {
      assert SocketOk(sys, s);
      if s != t { OtherSocket(sys.doc.stream, be, sys.sockets[s], s); }
    }
    BackendReplaced(sys1, b, NextTarget(be));
  }

  lemma DeliveredSocket(log: seq<Event>, be: Backend, be': Backend, so: Socket, s: SocketId, e: Event)
    requires Contiguous(log) && WatcherOk(log, be) && be.watcher.fanout.Sending?
    requires e == be.watcher.fanout.event && s in be.watcher.fanout.targets
    requires be' == be || be' == NextTarget(be)
    requires SocketBase(log, so) && (!so.closed ==> SocketOpen(log, be, so, s))
    ensures var so' := so.(session := Serve(so.session, Broadcast(MessageFromEvent(e))));
      SocketBase(log, so') && (!so.closed ==> SocketOpen(log, be', so', s))
  {
    var w, w' := be.watcher, be'.watcher;
    if !so.closed {
      match so.session.stage {
        case Live => DeliverToLive(log, w, w', so, s, e);
        case Awaiting(_) => DeliverToBuffer(log, w, w', so, s, e);
        case Replaying(r) => DeliverToBuffer(log, w, w', so, s, e);
        case Stopped =>
      }
    }
  }
}
