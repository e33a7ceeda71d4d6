// The steps of a socket's own handler keep the invariant.
module HandoffSockets {
  import opened Basics
  import opened DocumentLog
  import opened StreamReads
  import opened ClientDelivery
  import opened ReplaySession
  import opened Handoff
  import opened HandoffInvariant

  /** A socket joins or leaves the client list of its backend. */
  lemma MembershipChanged(sys: System, b: BackendId, clients: seq<SocketId>, s: SocketId, so: Socket)
    requires Inv(sys) && b in sys.backends && so.backend == b
    requires s in sys.sockets ==> sys.sockets[s].backend == b
    requires forall x :: x in clients ==> x == s || x in sys.backends[b].clients
    requires forall x :: x in sys.backends[b].clients && x != s ==> x in clients
    requires SocketBase(sys.doc.stream, so)
    requires !so.closed && (s in clients <==> !so.removed)
    requires Served(sys.backends[b].watcher, so, s) ==> SocketOpen(sys.doc.stream, sys.backends[b], so, s)
    ensures Inv(System(sys.doc, sys.backends[b := sys.backends[b].(clients := clients)], sys.sockets[s := so]))
  {
    var be := sys.backends[b].(clients := clients);
    var sys' := System(sys.doc, sys.backends[b := be], sys.sockets[s := so]);
    forall x | x in sys'.backends ensures BackendOk(sys', x) {
      assert BackendOk(sys, x);
      if x == b { ClientListIsIrrelevant(sys.doc.stream, sys.backends[b], clients, so, s); }
    }
    forall x | x in sys'.sockets ensures SocketOk(sys', x) {
      if x == s {
        ClientListIsIrrelevant(sys.doc.stream, sys.backends[b], clients, so, s);
      } else {
        assert SocketOk(sys, x);
        ClientListIsIrrelevant(sys.doc.stream, sys.backends[b], clients, sys.sockets[x], x);
      }
    }
  }

  lemma ClientListIsIrrelevant(log: seq<Event>, be: Backend, clients: seq<SocketId>, so: Socket, s: SocketId)
    ensures WatcherOk(log, be) <==> WatcherOk(log, be.(clients := clients))
    ensures SocketOpen(log, be, so, s) <==> SocketOpen(log, be.(clients := clients), so, s)
  {
  }

  lemma RegisterStep(sys: System, s: SocketId, b: BackendId, cursor: int, limit: nat)
    requires Inv(sys) && Enabled(sys, Register(s, b, cursor, limit))
    ensures Inv(Step(sys, Register(s, b, cursor, limit)))
  {
    var be := sys.backends[b];
    assert BackendOk(sys, b);
    NewSocketIsOk(sys.doc.stream, be, s, b, cursor, limit);
    MembershipChanged(sys, b, be.clients + [s], s, NewSocket(s, b, be.watcher, cursor, limit));
  }

  lemma NewSocketIsOk(log: seq<Event>, be: Backend, s: SocketId, b: BackendId, cursor: int, limit: nat)
    requires WatcherOk(log, be)
    ensures var so := NewSocket(s, b, be.watcher, cursor, limit);
      SocketBase(log, so) && SocketOpen(log, be, so, s)
  {
  }

  lemma CaptureBoundaryStep(sys: System, s: SocketId)
    requires Inv(sys) && Enabled(sys, CaptureBoundary(s))
    ensures Inv(Step(sys, CaptureBoundary(s)))
  {
    assert SocketOk(sys, s);
    var so := sys.sockets[s];
    assert BackendOk(sys, so.backend);
    CapturedSocket(sys.doc.stream, sys.backends[so.backend], so, s);
    var boundary := ReplayBoundary(sys.doc.stream);
    SocketReplaced(sys, s, so.(session := Serve(so.session, Capture(boundary))));
  }

  lemma CapturedSocket(log: seq<Event>, be: Backend, so: Socket, s: SocketId)
    requires Contiguous(log) && WatcherOk(log, be) && so.session.stage.Awaiting?
    requires !so.closed && SocketBase(log, so) && SocketOpen(log, be, so, s)
    ensures var so' := so.(session := Serve(so.session, Capture(ReplayBoundary(log))));
      SocketBase(log, so') && SocketOpen(log, be, so', s)
  {
    var boundary := ReplayBoundary(log);
    if so.session.client.CanWrite() {
      UpdatesOfWritten(so.session.client, ResumeStarted(so.cursor, boundary.sequence, boundary.version));
    }
  }

  lemma ReadPageStep(sys: System, s: SocketId, count: nat)
    requires Inv(sys) && Enabled(sys, ReadPage(s, count))
    ensures Inv(Step(sys, ReadPage(s, count)))
  {
    assert SocketOk(sys, s);
    var so := sys.sockets[s];
    PagedSocket(sys.doc.stream, sys.backends[so.backend], so, s, count);
    var page := XRange(sys.doc.stream, so.paging.start, so.session.stage.replay.boundary.id, count);
    SocketReplaced(sys, s, so.(paging := so.paging.(page := page)));
  }

  lemma PagedSocket(log: seq<Event>, be: Backend, so: Socket, s: SocketId, count: nat)
    requires IdsIncrease(log) && so.session.stage.Replaying? && so.paging.page == [] && count > 0
    requires so.session.stage.replay.expected <= so.session.stage.replay.boundary.sequence
    requires SocketBase(log, so) && SocketOpen(log, be, so, s)
    ensures var page := XRange(log, so.paging.start, so.session.stage.replay.boundary.id, count);
      var so' := so.(paging := so.paging.(page := page));
      page != [] && SocketBase(log, so') && SocketOpen(log, be, so', s)
  {
    PageIsNext(log, so.session.stage.replay, so.paging, count);
  }

  /** Below the boundary a page is never empty, and it continues the log. */
  lemma PageIsNext(log: seq<Event>, r: Replay, p: Paging, count: nat)
    requires IdsIncrease(log) && PagingOk(log, r, p) && p.page == [] && count > 0
    requires 0 < r.boundary.sequence && r.boundary == log[r.boundary.sequence - 1]
    requires r.expected <= r.boundary.sequence
    ensures var page := XRange(log, p.start, r.boundary.id, count);
      page != [] && PagingOk(log, r, p.(page := page))
  {
    XRangeIsSlice(log, p.index, r.boundary.sequence, count);
  }

  lemma VisitEntryStep(sys: System, s: SocketId)
    requires Inv(sys) && Enabled(sys, VisitEntry(s))
    ensures Inv(Step(sys, VisitEntry(s)))
  {
    assert SocketOk(sys, s);
    var so := sys.sockets[s];
    var be := sys.backends[so.backend];
    VisitedSocket(sys.doc.stream, be, so, s);
    SocketReplaced(sys, s, so.(session := Serve(so.session, Entry(so.paging.page[0])),
                               paging := PassEntry(so.paging)));
  }

  lemma PassedPage(log: seq<Event>, p: Paging, top: nat)
    requires p.page != [] && p.index + |p.page| <= top <= |log|
    requires p.page == log[p.index..p.index + |p.page|]
    ensures var p' := PassEntry(p);
      && p'.index + |p'.page| <= top
      && p'.page == log[p'.index..p'.index + |p'.page|]
      && (p'.page == [] ==> p'.start == StartAt(log, p'.index))
    ensures p.page[0] == log[p.index]
  {
    assert p.page[1..] == log[p.index + 1..p.index + |p.page|];
  }

  function Advanced(r: Replay, e: Event): Replay {
    if Judge(r, e).Visit? then r.(expected := r.expected + 1) else r
  }

  /** On an undamaged log the next entry is skipped or visited, never a gap. */
  lemma EntryIsPassed(log: seq<Event>, r: Replay, p: Paging)
    requires Contiguous(log) && PagingOk(log, r, p) && p.page != []
    ensures p.page[0] == log[p.index] && !Judge(r, p.page[0]).Gap?
    ensures Judge(r, p.page[0]).Visit? ==> r.expected == p.index + 1
    ensures PagingOk(log, Advanced(r, p.page[0]), PassEntry(p))
  {
    PassedPage(log, p, r.boundary.sequence);
  }

  lemma VisitedSocket(log: seq<Event>, be: Backend, so: Socket, s: SocketId)
    requires Contiguous(log) && !so.closed && so.session.stage.Replaying? && so.paging.page != []
    requires SocketBase(log, so) && SocketOpen(log, be, so, s)
    ensures var so' := so.(session := Serve(so.session, Entry(so.paging.page[0])), paging := PassEntry(so.paging));
      SocketBase(log, so') && SocketOpen(log, be, so', s)
  {
    var c := so.session.client;
    var r := so.session.stage.replay;
    var e := so.paging.page[0];
    EntryIsPassed(log, r, so.paging);
    if Judge(r, e).Visit? && c.CanWrite() {
      UpdatesOfWritten(c, MessageFromEvent(e));
      EntryExtendsSegment(log, Updates(c.wire), e, so.base);
    }
  }

  /** At the handoff the buffered sequences above the boundary are exactly
      boundary + 1 up to the watcher's progress: nothing falls between the
      replayed part and live delivery. */
  lemma BufferClosesTheGap(log: seq<Event>, w: Watcher, so: Socket, s: SocketId, r: Replay, ks: seq<int>)
    requires BufferOk(log, w, so) && ReplayOk(log, w, so, s, r)
    requires ks == KeysAbove(so.session.client.pending, r.boundary.sequence)
    ensures forall i :: 0 <= i < |ks| ==> ks[i] == r.boundary.sequence + 1 + i
    ensures Max(r.boundary.sequence, Reach(w, s)) <= r.boundary.sequence + |ks| <= Max(r.boundary.sequence, w.position)
  {
    var pending := so.session.client.pending;
    var bound := r.boundary.sequence;
    var top := if w.position in pending && w.position > bound then w.position else Max(bound, Reach(w, s));
    var run := seq(top - bound, i requires 0 <= i < top - bound => bound + 1 + i);
    KeysAboveEnumerates(pending, bound);
    forall k ensures k in ks <==> k in run {
      if k in run {
        assert k in pending;
      }
      if k in ks {
        var i :| 0 <= i < |ks| && ks[i] == k;
        assert k in pending && bound < k <= w.position;
        assert run[k - bound - 1] == k;
      }
    }
    AscendingIsUnique(ks, run);
  }

  lemma FinishReplayStep(sys: System, s: SocketId)
    requires Inv(sys) && Enabled(sys, FinishReplay(s))
    ensures Inv(Step(sys, FinishReplay(s)))
  {
    assert SocketOk(sys, s);
    var so := sys.sockets[s];
    assert BackendOk(sys, so.backend);
    FinishedSocket(sys.doc.stream, sys.backends[so.backend], so, s);
    SocketReplaced(sys, s, so.(session := Serve(so.session, Complete)));
  }

  lemma FinishedSocket(log: seq<Event>, be: Backend, so: Socket, s: SocketId)
    requires Contiguous(log) && WatcherOk(log, be) && !so.closed && so.session.stage.Replaying?
    requires SocketBase(log, so) && SocketOpen(log, be, so, s)
    requires so.session.stage.replay.expected > so.session.stage.replay.boundary.sequence
    ensures var so' := so.(session := Serve(so.session, Complete));
      SocketBase(log, so') && SocketOpen(log, be, so', s)
  {
    var c := so.session.client;
    var r := so.session.stage.replay;
    if c.CanWrite() {
      var ks := KeysAbove(c.pending, r.boundary.sequence);
      var n := Min(|ks|, c.limit - |c.wire| - 1);
      BufferClosesTheGap(log, be.watcher, so, s, r, ks);
      CompletedEffect(so.session, ks, n);
      BufferIsSegment(log, be.watcher, so, r, ks, n);
      HandoffLeaves(log, be, so, s, r, |ks|, n, Completed(so.session).client);
    }
  }

  /** The invariant after the handoff wrote `n` of `count` buffered updates. */
  lemma HandoffLeaves(log: seq<Event>, be: Backend, so: Socket, s: SocketId, r: Replay,
                      count: nat, n: nat, d: ClientState)
    requires so.cursor > 0 && so.base == so.cursor && !so.closed
    requires Consistent(d) && IsSegment(Updates(d.wire), log, so.base)
    requires so.base + |Updates(d.wire)| == r.boundary.sequence + n && n <= count
    requires be.watcher.initial <= r.boundary.sequence && Reach(be.watcher, s) <= r.boundary.sequence + count
    requires d.lastSequence == r.boundary.sequence + n <= |log|
    requires n == count ==> !d.replaying
    requires n < count ==> !d.CanWrite() && d.replaying
    ensures var so' := so.(session := Session(d, if d.replaying then Stopped else Live));
      SocketBase(log, so') && SocketOpen(log, be, so', s)
  {
  }

  lemma BufferIsSegment(log: seq<Event>, w: Watcher, so: Socket, r: Replay, ks: seq<int>, n: nat)
    requires BufferOk(log, w, so) && n <= |ks| && Held(so.session.client.pending, ks[..n])
    requires so.base == so.cursor
    requires IsSegment(Updates(so.session.client.wire), log, so.base)
    requires so.base + |Updates(so.session.client.wire)| == r.boundary.sequence <= |log|
    requires forall i :: 0 <= i < |ks| ==> ks[i] == r.boundary.sequence + 1 + i
    ensures IsSegment(Updates(so.session.client.wire) + Buffered(so.session.client.pending, ks[..n]), log, so.base)
    ensures r.boundary.sequence + n <= |log|
  {
    var c := so.session.client;
    var b := Buffered(c.pending, ks[..n]);
    forall i | 0 <= i < |b|
      ensures r.boundary.sequence + i < |log| && b[i] == MessageFromEvent(log[r.boundary.sequence + i])
    {
      assert ks[..n][i] == ks[i] && ks[i] in c.pending;
    }
    if n > 0 {
      assert ks[..n][n - 1] == ks[n - 1] && ks[n - 1] in c.pending;
      assert r.boundary.sequence + n <= |log|;
    }
    BufferExtendsSegment(log, Updates(c.wire), b, so.base);
  }

  lemma BufferExtendsSegment(log: seq<Event>, u: seq<Message>, b: seq<Message>, base: nat)
    requires IsSegment(u, log, base) && base + |u| + |b| <= |log|
    requires forall i :: 0 <= i < |b| ==> b[i] == MessageFromEvent(log[base + |u| + i])
    ensures IsSegment(u + b, log, base)
  {
  }

  lemma CallStep(sys: System, s: SocketId, call: ReplaySession.Call)
    requires Inv(sys) && Connected(sys, s)
    requires call.Abort? || (call.Emit? && !call.frame.ContentUpdate?)
    ensures Inv(Called(sys, s, call))
  {
    assert SocketOk(sys, s);
    var so := sys.sockets[s];
    if call.Emit? && so.session.client.CanWrite() { UpdatesOfWritten(so.session.client, call.frame); }
    SocketReplaced(sys, s, so.(session := Serve(so.session, call)));
  }

  lemma ReadRoomStateStep(sys: System, s: SocketId)
    requires Inv(sys) && Enabled(sys, ReadRoomState(s))
    ensures Inv(Step(sys, ReadRoomState(s)))
  {
    assert SocketOk(sys, s);
    var so := sys.sockets[s];
    SocketReplaced(sys, s, so.(stated := Some(sys.backends[so.backend].room)));
  }

  lemma LeaveRoomStep(sys: System, s: SocketId)
    requires Inv(sys) && Enabled(sys, LeaveRoom(s))
    ensures Inv(Step(sys, LeaveRoom(s)))
  {
    assert SocketOk(sys, s);
    var so := sys.sockets[s];
    WithoutMembers(sys.backends[so.backend].clients, s);
    MembershipChanged(sys, so.backend, Without(sys.backends[so.backend].clients, s), s, so.(removed := true));
  }

  lemma CloseConnectionStep(sys: System, s: SocketId)
    requires Inv(sys) && Enabled(sys, CloseConnection(s))
    ensures Inv(Step(sys, CloseConnection(s)))
  {
    assert SocketOk(sys, s);
    ClosedIsBased(sys.doc.stream, sys.sockets[s]);
    SocketReplaced(sys, s, Closed(sys.sockets[s]));
  }
}
