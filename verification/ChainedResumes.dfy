// A user who keeps coming back: connections to any backends, each resumed from
// the last sequence received, with drops at any point and restarts in between.
module ChainedResumes {
  import opened Basics
  import opened DocumentLog
  import opened ClientDelivery
  import opened ReplaySession
  import opened Handoff
  import opened HandoffInvariant
  import opened DeliveryTheorems

  /** `received` are the updates the user got, over all connections so far;
      `read` counts the frames taken from the current one. */
  datatype User = User(start: nat, received: seq<Message>, conn: Option<SocketId>, read: nat)

  datatype World = World(sys: System, user: User)

  datatype Happening =
    | Internal(a: Action)                                // anything in the system
    | Connect(s: SocketId, b: BackendId, limit: nat)     // resume from the last sequence received
    | Receive                                            // the next frame arrives
    | Drop                                               // the connection is lost; unread frames are lost

  ghost predicate Possible(w: World, e: Happening) {
    match e
    case Internal(a) => Enabled(w.sys, a)
    case Connect(s, b, limit) =>
      w.user.conn.None? && Enabled(w.sys, Register(s, b, w.user.start + |w.user.received|, limit))
    case Receive =>
      && w.user.conn.Some? && w.user.conn.value in w.sys.sockets
      && w.user.read < |w.sys.sockets[w.user.conn.value].session.client.wire|
    case Drop => w.user.conn.Some?
  }

  ghost function Next(w: World, e: Happening): World
    requires Possible(w, e)
  {
    match e
    case Internal(a) => World(Step(w.sys, a), w.user)
    case Connect(s, b, limit) =>
      World(Step(w.sys, Register(s, b, w.user.start + |w.user.received|, limit)),
            w.user.(conn := Some(s), read := 0))
    case Receive =>
      var frame := w.sys.sockets[w.user.conn.value].session.client.wire[w.user.read];
      w.(user := w.user.(read := w.user.read + 1,
                         received := if frame.ContentUpdate? then w.user.received + [frame] else w.user.received))
    case Drop => w.(user := w.user.(conn := None, read := 0))
  }

  ghost predicate IsHistory(worlds: seq<World>, events: seq<Happening>) {
    && |worlds| == |events| + 1
    && Init(worlds[0].sys)
    && worlds[0].user == User(worlds[0].user.start, [], None, 0) && worlds[0].user.start > 0
    && forall i :: 0 <= i < |events| ==> IsMove(worlds, events, i)
  }

  /** What has been received continues the log, and the current connection
      continues what has been received. */
  ghost predicate UserOk(sys: System, u: User) {
    && u.start > 0
    && IsSegment(u.received, sys.doc.stream, u.start)
    && (u.conn.Some? ==> u.conn.value in sys.sockets && ConnectionOk(sys.sockets[u.conn.value], u))
  }

  ghost predicate ConnectionOk(so: Socket, u: User) {
    var wire := so.session.client.wire;
    && so.cursor > 0 && u.read <= |wire|
    && so.cursor + |Updates(wire[..u.read])| == u.start + |u.received|
  }

  /** Frames handed to a socket stay there, and its cursor never changes. */
  lemma StepExtendsWire(sys: System, a: Action, s: SocketId)
    requires Enabled(sys, a) && s in sys.sockets
    ensures s in Step(sys, a).sockets
    ensures sys.sockets[s].session.client.wire <= Step(sys, a).sockets[s].session.client.wire
    ensures sys.sockets[s].cursor == Step(sys, a).sockets[s].cursor
    ensures sys.doc.stream <= Step(sys, a).doc.stream
  {
    match a {
      case SendNext(b) =>
        var f := sys.backends[b].watcher.fanout;
        if f.targets != [] && f.targets[0] == s {
          ServeExtendsWire(sys.sockets[s].session, Broadcast(MessageFromEvent(f.event)));
        }
      case FinishReplay(t) => if t == s { ServeExtendsWire(sys.sockets[s].session, Complete); }
      case _ =>
    }
  }

  lemma {:induction false} DrainExtendsWire(c: ClientState, ks: seq<int>)
    requires Held(c.pending, ks)
    ensures c.wire <= Drained(c, ks).wire
    decreases ks
  {
    if ks != [] && c.CanWrite() {
      DrainExtendsWire(Written(c, c.pending[ks[0]]).(lastSequence := ks[0]), ks[1..]);
    }
  }

  lemma ServeExtendsWire(s: Session, call: Call)
    ensures s.client.wire <= Serve(s, call).client.wire
  {
    if call.Complete? && s.stage.Replaying? && s.client.CanWrite() {
      var complete := CompleteMessage(s.stage.replay);
      var c1 := Written(s.client, complete).(lastSequence := complete.latestSequence);
      KeysAboveEnumerates(c1.pending, c1.lastSequence);
      DrainExtendsWire(c1, KeysAbove(c1.pending, c1.lastSequence));
    }
  }

  lemma InternalKeepsUser(sys: System, u: User, a: Action)
    requires UserOk(sys, u) && Enabled(sys, a)
    ensures UserOk(Step(sys, a), u)
  {
    if u.conn.Some? {
      var s := u.conn.value;
      StepExtendsWire(sys, a, s);
      var wire, wire' := sys.sockets[s].session.client.wire, Step(sys, a).sockets[s].session.client.wire;
      assert wire'[..u.read] == wire[..u.read];
    }
  }

  /** The next frame, if an update, is the one after those already taken. */
  lemma NextUpdate(wire: seq<Message>, n: nat)
    requires n < |wire|
    ensures |Updates(wire[..n + 1])| == |Updates(wire[..n])| + if wire[n].ContentUpdate? then 1 else 0
    ensures wire[n].ContentUpdate? ==>
      |Updates(wire[..n])| < |Updates(wire)| && Updates(wire)[|Updates(wire[..n])|] == wire[n]
  {
    assert wire[..n + 1] == wire[..n] + [wire[n]];
    assert wire == wire[..n + 1] + wire[n + 1..];
    UpdatesOfConcat(wire[..n], [wire[n]]);
    UpdatesOfConcat(wire[..n + 1], wire[n + 1..]);
    assert Updates([wire[n]]) == if wire[n].ContentUpdate? then [wire[n]] else [];
  }

  lemma ReceiveKeepsUser(w: World)
    requires UserOk(w.sys, w.user) && Possible(w, Receive)
    requires SocketBase(w.sys.doc.stream, w.sys.sockets[w.user.conn.value])
    ensures UserOk(w.sys, Next(w, Receive).user)
  {
    var so := w.sys.sockets[w.user.conn.value];
    ReceivedNext(w.sys.doc.stream, w.user.received, w.user.start, so.session.client.wire, w.user.read, so.cursor);
  }

  /** Taking one more frame extends the received segment by it, if an update. */
  lemma ReceivedNext(log: seq<Event>, received: seq<Message>, start: nat, wire: seq<Message>, read: nat, cursor: nat)
    requires IsSegment(received, log, start) && IsSegment(Updates(wire), log, cursor)
    requires read < |wire| && cursor + |Updates(wire[..read])| == start + |received|
    ensures var received' := if wire[read].ContentUpdate? then received + [wire[read]] else received;
      IsSegment(received', log, start) && cursor + |Updates(wire[..read + 1])| == start + |received'|
  {
    NextUpdate(wire, read);
    if wire[read].ContentUpdate? {
      SegmentMeets(log, received, start, Updates(wire), |Updates(wire[..read])|, cursor);
    }
  }

  lemma SegmentMeets(log: seq<Event>, received: seq<Message>, start: nat, u: seq<Message>, n: nat, cursor: nat)
    requires IsSegment(received, log, start) && IsSegment(u, log, cursor)
    requires n < |u| && cursor + n == start + |received|
    ensures IsSegment(received + [u[n]], log, start)
  {
    EntryExtendsSegment(log, received, log[cursor + n], start);
  }

  lemma ConnectKeepsUser(w: World, s: SocketId, b: BackendId, limit: nat)
    requires UserOk(w.sys, w.user) && Possible(w, Connect(s, b, limit))
    ensures var w' := Next(w, Connect(s, b, limit)); UserOk(w'.sys, w'.user)
  {
  }

  ghost predicate IsMove(worlds: seq<World>, events: seq<Happening>, i: nat)
    requires |worlds| == |events| + 1 && i < |events|
  {
    Possible(worlds[i], events[i]) && worlds[i + 1] == Next(worlds[i], events[i])
  }

  /** Chained resumes: over any chain of connections, drops, failed resumes and
      restarts, what the user has received is one contiguous log segment, each
      update with every field of the operation committed as that version. */
  lemma ChainIsContiguous(worlds: seq<World>, events: seq<Happening>, i: nat)
    requires IsHistory(worlds, events) && i < |worlds|
    ensures var u := worlds[i].user;
      var log := worlds[i].sys.doc.stream;
      && (u.received != [] ==> u.start + |u.received| <= |log|)
      && forall j :: 0 <= j < |u.received| ==>
          Tells(u.received[j], log[u.start + j]) && ReceivedCommit(worlds, events, i, u.start + j, u.received[j])
  {
    HistoryKeepsUser(worlds, events, i);
    var u, log := worlds[i].user, worlds[i].sys.doc.stream;
    SegmentTells(u.received, log, u.start);
    forall j | 0 <= j < |u.received|
      ensures ReceivedCommit(worlds, events, i, u.start + j, u.received[j])
    {
      var k := CommittedBy(worlds, events, i, u.start + j);
    }
  }

  /** Some earlier commit of the history made version n + 1, and the frame carries its operation. */
  ghost predicate ReceivedCommit(worlds: seq<World>, events: seq<Happening>, i: nat, n: int, m: Message)
    requires |worlds| == |events| + 1
  {
    exists k: nat :: k < i && MadeVersion(worlds, events, k, n)
      && CarriesOperation(m, events[k].a.op, events[k].a.id, n + 1)
  }

  ghost predicate MadeVersion(worlds: seq<World>, events: seq<Happening>, k: nat, n: int)
    requires |worlds| == |events| + 1
  {
    && k < |events| && events[k].Internal? && events[k].a.Commit?
    && |worlds[k].sys.doc.stream| == n && |worlds[k + 1].sys.doc.stream| == n + 1
  }

  lemma DocOfMove(w: World, e: Happening)
    requires Possible(w, e)
    ensures Next(w, e).sys.doc
         == if e.Internal? && e.a.Commit? then ApplyScript(w.sys.doc, e.a.op, e.a.id).0 else w.sys.doc
  {
    match e {
      case Internal(a) => DocOfStep(w.sys, a);
      case _ =>
    }
  }

  lemma {:induction false} CommittedBy(worlds: seq<World>, events: seq<Happening>, i: nat, n: nat) returns (k: nat)
    requires IsHistory(worlds, events) && i < |worlds| && n < |worlds[i].sys.doc.stream|
    ensures k < i && MadeVersion(worlds, events, k, n)
    ensures EntryOf(worlds[i].sys.doc.stream[n], events[k].a.op, events[k].a.id, n + 1)
    decreases i
  {
    assert i > 0 && IsMove(worlds, events, i - 1);
    DocOfMove(worlds[i - 1], events[i - 1]);
    if n < |worlds[i - 1].sys.doc.stream| {
      k := CommittedBy(worlds, events, i - 1, n);
    } else {
      k := i - 1;
      HistoryKeepsUser(worlds, events, i - 1);
    }
  }

  lemma {:induction false} HistoryKeepsUser(worlds: seq<World>, events: seq<Happening>, i: nat)
    requires IsHistory(worlds, events) && i < |worlds|
    ensures Inv(worlds[i].sys) && UserOk(worlds[i].sys, worlds[i].user)
  {
    if i > 0 {
      HistoryKeepsUser(worlds, events, i - 1);
      assert IsMove(worlds, events, i - 1);
      MoveKeepsAll(worlds[i - 1], events[i - 1]);
    }
  }

  lemma MoveKeepsAll(w: World, e: Happening)
    requires Inv(w.sys) && UserOk(w.sys, w.user) && Possible(w, e)
    ensures Inv(Next(w, e).sys) && UserOk(Next(w, e).sys, Next(w, e).user)
  {
    MoveKeepsSystem(w, e);
    if e.Receive? { SocketIsBased(w.sys, w.user.conn.value); }
    MoveKeepsUser(w, e);
  }

  lemma MoveKeepsSystem(w: World, e: Happening)
    requires Inv(w.sys) && Possible(w, e)
    ensures Inv(Next(w, e).sys)
  {
    match e {
      case Internal(a) => StepKeepsInv(w.sys, a);
      case Connect(s, b, limit) =>
        StepKeepsInv(w.sys, Register(s, b, w.user.start + |w.user.received|, limit));
      case Receive =>
      case Drop =>
    }
  }

  lemma SocketIsBased(sys: System, s: SocketId)
    requires Inv(sys) && s in sys.sockets
    ensures SocketBase(sys.doc.stream, sys.sockets[s])
  {
    assert SocketOk(sys, s);
  }

  lemma MoveKeepsUser(w: World, e: Happening)
    requires UserOk(w.sys, w.user) && Possible(w, e)
    requires e.Receive? ==> SocketBase(w.sys.doc.stream, w.sys.sockets[w.user.conn.value])
    ensures UserOk(Next(w, e).sys, Next(w, e).user)
  {
    match e {
      case Internal(a) => InternalKeepsUser(w.sys, w.user, a);
      case Connect(s, b, limit) => ConnectKeepsUser(w, s, b, limit);
      case Receive => ReceiveKeepsUser(w);
      case Drop =>
    }
  }
}
