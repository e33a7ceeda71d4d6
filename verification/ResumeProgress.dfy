// A resume cannot get stuck: with its cursor inside the log and a socket that
// takes enough frames, a resuming socket reaches live delivery by its own steps.
module ResumeProgress {
  import opened Basics
  import opened DocumentLog
  import opened StreamReads
  import opened ClientDelivery
  import opened ReplaySession
  import opened Handoff
  import opened HandoffInvariant
  import opened HandoffSockets
  import opened DeliveryTheorems

  ghost predicate Resuming(sys: System, s: SocketId) {
    Open(sys, s) && (sys.sockets[s].session.stage.Awaiting? || sys.sockets[s].session.stage.Replaying?)
  }

  /** The next step of resumeClient, reading at most `count` entries at a time. */
  ghost function NextOwn(sys: System, s: SocketId, count: nat): Action
    requires Resuming(sys, s)
  {
    var so := sys.sockets[s];
    if so.session.stage.Awaiting? then CaptureBoundary(s)
    else if so.paging.page != [] then VisitEntry(s)
    else if so.session.stage.replay.expected <= so.session.stage.replay.boundary.sequence then ReadPage(s, count)
    else FinishReplay(s)
  }

  /** Frames that the rest of the resume writes at most. */
  function Need(log: seq<Event>, so: Socket): int {
    match so.session.stage
    case Awaiting(cursor) => |log| - cursor + 2
    case Replaying(r) => |log| - r.expected + 2
    case _ => 0
  }

  /** The log position the resume is bound to reach. */
  function Goal(log: seq<Event>, so: Socket): int {
    match so.session.stage
    case Replaying(r) => r.boundary.sequence
    case _ => |log|
  }

  /** The cursor lies in the log and the socket takes what is still to come. */
  predicate CanFinish(log: seq<Event>, so: Socket) {
    so.cursor <= |log| && |so.session.client.wire| + Need(log, so) <= so.session.client.limit
  }

  /** What is left to do, lexicographically. */
  function Left(so: Socket): (nat, int, nat) {
    (if so.session.stage.Awaiting? then 1 else 0,
     if so.session.stage.Replaying? then so.session.stage.replay.boundary.sequence - so.paging.index else 0,
     if so.paging.page == [] then 1 else 0)
  }

  ghost predicate Smaller(x: (nat, int, nat), y: (nat, int, nat)) {
    x.0 < y.0 || (x.0 == y.0 && (0 <= x.1 < y.1 || (x.1 == y.1 && x.2 < y.2)))
  }

  /** What one own step brings, but for the last one. */
  ghost predicate Nearer(log: seq<Event>, so: Socket, so': Socket) {
    && so'.session.stage.Replaying? && so'.cursor == so.cursor
    && CanFinish(log, so') && Goal(log, so') == Goal(log, so) && Smaller(Left(so'), Left(so))
  }

  lemma CaptureIsNearer(log: seq<Event>, be: Backend, so: Socket, s: SocketId)
    requires Contiguous(log) && so.session.stage.Awaiting? && SocketOpen(log, be, so, s) && CanFinish(log, so)
    ensures Nearer(log, so, so.(session := Serve(so.session, Capture(ReplayBoundary(log)))))
  {
  }

  lemma PageIsNearer(log: seq<Event>, be: Backend, so: Socket, s: SocketId, count: nat)
    requires IdsIncrease(log) && so.session.stage.Replaying? && so.paging.page == [] && count > 0
    requires so.session.stage.replay.expected <= so.session.stage.replay.boundary.sequence
    requires SocketOpen(log, be, so, s) && CanFinish(log, so)
    ensures var page := XRange(log, so.paging.start, so.session.stage.replay.boundary.id, count);
      page != [] && Nearer(log, so, so.(paging := so.paging.(page := page)))
  {
    PageIsNext(log, so.session.stage.replay, so.paging, count);
  }

  lemma EntryIsNearer(log: seq<Event>, be: Backend, so: Socket, s: SocketId)
    requires Contiguous(log) && so.session.stage.Replaying? && so.paging.page != []
    requires SocketOpen(log, be, so, s) && CanFinish(log, so)
    ensures Nearer(log, so, so.(session := Serve(so.session, Entry(so.paging.page[0])), paging := PassEntry(so.paging)))
  {
    EntryIsPassed(log, so.session.stage.replay, so.paging);
  }

  /** The handoff writes all that is buffered, and the socket is live. */
  lemma FinishIsLive(log: seq<Event>, be: Backend, so: Socket, s: SocketId)
    requires Contiguous(log) && WatcherOk(log, be) && so.session.stage.Replaying?
    requires so.session.stage.replay.expected > so.session.stage.replay.boundary.sequence
    requires SocketBase(log, so) && SocketOpen(log, be, so, s) && CanFinish(log, so)
    ensures var so' := so.(session := Serve(so.session, Complete));
      && so'.session.stage.Live?
      && so.cursor + |Updates(so'.session.client.wire)| >= Goal(log, so)
  {
    var c, r := so.session.client, so.session.stage.replay;
    var ks := KeysAbove(c.pending, r.boundary.sequence);
    BufferClosesTheGap(log, be.watcher, so, s, r, ks);
    assert |ks| <= c.limit - |c.wire| - 1;
    BufferIsConsistent(log, be.watcher, so);
    CompletedEffect(so.session, ks, |ks|);
  }

  lemma BufferIsConsistent(log: seq<Event>, w: Watcher, so: Socket)
    requires SocketBase(log, so) && BufferOk(log, w, so) && Contiguous(log)
    ensures Consistent(so.session.client)
  {
  }

  /** A run in which only the resume of `s` acts. */
  ghost predicate OwnMove(r: Behavior, s: SocketId, count: nat, i: nat)
    requires |r.states| == |r.actions| + 1 && i < |r.actions|
  {
    Resuming(r.states[i], s) && r.actions[i] == NextOwn(r.states[i], s, count) && IsStep(r, i)
  }

  /** It ends live, with every update up to the goal on the wire. */
  ghost predicate Finishes(r: Behavior, sys: System, s: SocketId, count: nat, goal: int) {
    && |r.states| == |r.actions| + 1 && r.states[0] == sys
    && (forall i :: 0 <= i < |r.actions| ==> OwnMove(r, s, count, i))
    && IsFinished(r.states[|r.actions|], sys, s, goal)
  }

  ghost predicate IsFinished(end: System, sys: System, s: SocketId, goal: int) {
    && Inv(end) && end.doc == sys.doc && Open(end, s) && s in sys.sockets
    && end.sockets[s].cursor == sys.sockets[s].cursor
    && end.sockets[s].session.stage.Live?
    && end.sockets[s].cursor + |UpdatesOn(end, s)| >= goal
  }

  lemma OwnStepIsEnabled(sys: System, s: SocketId, count: nat)
    requires Resuming(sys, s) && count > 0
    ensures Enabled(sys, NextOwn(sys, s, count))
  {
  }

  lemma OwnStepChanges(sys: System, s: SocketId, count: nat)
    requires Inv(sys) && Resuming(sys, s) && count > 0 && CanFinish(sys.doc.stream, sys.sockets[s])
    requires Enabled(sys, NextOwn(sys, s, count))
    ensures var sys', log := Step(sys, NextOwn(sys, s, count)), sys.doc.stream;
      && sys'.doc == sys.doc && Open(sys', s)
      && if NextOwn(sys, s, count).FinishReplay?
         then IsLiveAt(sys'.sockets[s], sys.sockets[s].cursor, Goal(log, sys.sockets[s]))
         else Nearer(log, sys.sockets[s], sys'.sockets[s])
  {
    assert SocketOk(sys, s);
    var so := sys.sockets[s];
    var log, be := sys.doc.stream, sys.backends[so.backend];
    assert BackendOk(sys, so.backend);
    match NextOwn(sys, s, count) {
      case CaptureBoundary(_) => CaptureIsNearer(log, be, so, s);
      case VisitEntry(_) => EntryIsNearer(log, be, so, s);
      case ReadPage(_, _) => PageIsNearer(log, be, so, s, count);
      case FinishReplay(_) => FinishIsLive(log, be, so, s);
    }
  }

  predicate IsLiveAt(so: Socket, cursor: int, goal: int) {
    so.session.stage.Live? && so.cursor == cursor && cursor + |Updates(so.session.client.wire)| >= goal
  }

  lemma Prepended(sys: System, s: SocketId, count: nat, next: System, rest: Behavior, goal: int)
    requires Resuming(sys, s) && Enabled(sys, NextOwn(sys, s, count)) && next == Step(sys, NextOwn(sys, s, count))
    requires Finishes(rest, next, s, count, goal)
    requires next.doc == sys.doc && next.sockets[s].cursor == sys.sockets[s].cursor
    ensures Finishes(Behavior([sys] + rest.states, [NextOwn(sys, s, count)] + rest.actions), sys, s, count, goal)
  {
    var r := Behavior([sys] + rest.states, [NextOwn(sys, s, count)] + rest.actions);
    assert r.states[0] == sys && r.states[1] == rest.states[0] && r.states[|r.actions|] == rest.states[|rest.actions|];
    assert OwnMove(r, s, count, 0);
    forall i | 0 < i < |r.actions| ensures OwnMove(r, s, count, i) {
      LaterMove(sys, s, count, rest, NextOwn(sys, s, count), i);
    }
  }

  lemma LaterMove(sys: System, s: SocketId, count: nat, rest: Behavior, a: Action, i: nat)
    requires |rest.states| == |rest.actions| + 1 && 0 < i <= |rest.actions|
    requires OwnMove(rest, s, count, i - 1)
    ensures OwnMove(Behavior([sys] + rest.states, [a] + rest.actions), s, count, i)
  {
    var states, actions := [sys] + rest.states, [a] + rest.actions;
    assert states[i] == rest.states[i - 1] && states[i + 1] == rest.states[i] && actions[i] == rest.actions[i - 1];
  }

  lemma {:induction false} ResumeFinishes(sys: System, s: SocketId, count: nat) returns (r: Behavior)
    requires Inv(sys) && Resuming(sys, s) && count > 0 && CanFinish(sys.doc.stream, sys.sockets[s])
    ensures Finishes(r, sys, s, count, Goal(sys.doc.stream, sys.sockets[s]))
    decreases Left(sys.sockets[s]).0, Left(sys.sockets[s]).1, Left(sys.sockets[s]).2
  {
    var a := NextOwn(sys, s, count);
    var goal := Goal(sys.doc.stream, sys.sockets[s]);
    OwnStepIsEnabled(sys, s, count);
    OwnStepChanges(sys, s, count);
    StepKeepsInv(sys, a);
    var next, rest := Step(sys, a), Behavior([Step(sys, a)], []);
    if !a.FinishReplay? {
      rest := ResumeFinishes(next, s, count);
    }
    Prepended(sys, s, count, next, rest, goal);
    r := Behavior([sys] + rest.states, [a] + rest.actions);
  }

  /** From every reachable state: a resuming socket whose cursor lies in the log
      and that takes enough frames can finish by its own steps, at any page size;
      it is live then, and has every update up to the boundary - the whole log if
      the boundary was still to be captured. */
  lemma ResumeCanFinish(r: Behavior, i: nat, s: SocketId, count: nat) returns (more: Behavior)
    requires IsBehavior(r) && i < |r.states| && Resuming(r.states[i], s) && count > 0
    requires CanFinish(r.states[i].doc.stream, r.states[i].sockets[s])
    ensures Finishes(more, r.states[i], s, count, Goal(r.states[i].doc.stream, r.states[i].sockets[s]))
    ensures var end := more.states[|more.actions|];
      Goal(r.states[i].doc.stream, r.states[i].sockets[s])
      <= end.sockets[s].cursor + |UpdatesOn(end, s)| <= |end.doc.stream|
  {
    InvariantHolds(r, i);
    more := ResumeFinishes(r.states[i], s, count);
    var end := more.states[|more.actions|];
    assert SocketOk(end, s) && SocketOk(r.states[i], s);
  }

  /** A cursor beyond the log cannot be resumed from: the captured boundary
      starts a replay exactly when the cursor is not beyond it. */
  lemma ReplayStartsIff(r: Behavior, i: nat, s: SocketId)
    requires IsBehavior(r) && i < |r.states| && Open(r.states[i], s)
    requires r.states[i].sockets[s].session.stage.Awaiting? && r.states[i].sockets[s].session.client.CanWrite()
    ensures Step(r.states[i], CaptureBoundary(s)).sockets[s].session.stage.Replaying?
       <==> r.states[i].sockets[s].cursor <= |r.states[i].doc.stream|
  {
    InvariantHolds(r, i);
    assert SocketOk(r.states[i], s);
  }

  /** The frame that starts it tells the cursor and, twice, the length of the log. */
  lemma StartFrameTellsTheLog(r: Behavior, i: nat, s: SocketId)
    requires IsBehavior(r) && i < |r.states| && Open(r.states[i], s)
    requires r.states[i].sockets[s].session.stage.Awaiting? && r.states[i].sockets[s].session.client.CanWrite()
    requires r.states[i].sockets[s].cursor <= |r.states[i].doc.stream|
    ensures var so, n := r.states[i].sockets[s], |r.states[i].doc.stream|;
      Step(r.states[i], CaptureBoundary(s)).sockets[s].session.client.wire
        == so.session.client.wire + [ResumeStarted(so.cursor, n, n)]
  {
    InvariantHolds(r, i);
    assert SocketOk(r.states[i], s);
    BoundaryTellsTheLog(r.states[i].doc);
  }

  lemma BoundaryTellsTheLog(d: Doc)
    requires LogInvariant(d)
    ensures ReplayBoundary(d.stream).sequence == ReplayBoundary(d.stream).version == |d.stream|
  {
  }
}
