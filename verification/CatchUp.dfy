// Delivery cannot get stuck: left alone, a backend's watcher catches up with
// the log, and then every live socket of that backend has all of it.
module CatchUp {
  import opened Basics
  import opened DocumentLog
  import opened StreamReads
  import opened ClientDelivery
  import opened ReplaySession
  import opened Handoff
  import opened HandoffInvariant
  import opened DeliveryTheorems

  /** The watcher's next step, reading at most `count` entries at a time. */
  function NextOwn(sys: System, b: BackendId, count: nat): Action
    requires b in sys.backends
  {
    var w := sys.backends[b].watcher;
    match w.fanout
    case Applied(_) => CopyClients(b)
    case Sending(_, _) => SendNext(b)
    case Idle => if w.batch == [] then ReadStream(b, count) else TakeEvent(b)
  }

  ghost predicate CaughtUp(sys: System, b: BackendId) {
    b in sys.backends && sys.backends[b].watcher.fanout.Idle? && sys.backends[b].watcher.position == |sys.doc.stream|
  }

  /** How much a watcher still has to do for the present log, lexicographically. */
  function Backlog(log: seq<Event>, w: Watcher): (int, nat, nat, nat) {
    (|log| - w.position,
     match w.fanout case Applied(_) => 2 case Sending(_, _) => 1 case Idle => 0,
     if w.fanout.Sending? then |w.fanout.targets| else 0,
     if w.batch == [] then 1 else 0)
  }

  ghost predicate Smaller(x: (int, nat, nat, nat), y: (int, nat, nat, nat)) {
    || 0 <= x.0 < y.0
    || (x.0 == y.0 && (x.1 < y.1 || (x.1 == y.1 && (x.2 < y.2 || (x.2 == y.2 && x.3 < y.3)))))
  }

  ghost predicate Advances(sys: System, a: Action, b: BackendId)
    requires Enabled(sys, a) && b in sys.backends
  {
    var sys' := Step(sys, a);
    && sys'.doc == sys.doc && b in sys'.backends
    && Smaller(Backlog(sys'.doc.stream, sys'.backends[b].watcher), Backlog(sys.doc.stream, sys.backends[b].watcher))
  }

  /** A watcher that has not caught up can take its next step, and that step
      shrinks its backlog. */
  lemma WatcherMakesProgress(sys: System, b: BackendId, count: nat)
    requires Inv(sys) && b in sys.backends && count > 0 && !CaughtUp(sys, b)
    ensures Enabled(sys, NextOwn(sys, b, count)) && Advances(sys, NextOwn(sys, b, count), b)
  {
    assert BackendOk(sys, b);
    if sys.backends[b].watcher.fanout.Idle? { IdleWatcherAdvances(sys, b, count); }
  }

  lemma IdleWatcherAdvances(sys: System, b: BackendId, count: nat)
    requires IdsIncrease(sys.doc.stream) && b in sys.backends && count > 0
    requires WatcherOk(sys.doc.stream, sys.backends[b]) && sys.backends[b].watcher.fanout.Idle?
    requires sys.backends[b].watcher.position < |sys.doc.stream|
    ensures Enabled(sys, NextOwn(sys, b, count)) && Advances(sys, NextOwn(sys, b, count), b)
  {
    if sys.backends[b].watcher.batch == [] {
      XReadIsSlice(sys.doc.stream, sys.backends[b].watcher.position, count);
    }
  }

  /** The watcher's steps add no socket, close none and move none in its stage. */
  ghost predicate SameStages(sys: System, sys': System) {
    && sys.sockets.Keys == sys'.sockets.Keys
    && forall s :: s in sys.sockets ==>
        var so, so' := sys.sockets[s], sys'.sockets[s];
        so'.session.stage == so.session.stage && so' == so.(session := so'.session)
  }

  lemma OwnStepKeepsStages(sys: System, b: BackendId, count: nat)
    requires b in sys.backends && Enabled(sys, NextOwn(sys, b, count))
    ensures SameStages(sys, Step(sys, NextOwn(sys, b, count)))
  {
  }

  /** A run in which only the watcher of `b` acts. */
  ghost predicate OwnRun(r: Behavior, b: BackendId, count: nat) {
    && |r.states| == |r.actions| + 1
    && forall i :: 0 <= i < |r.actions| ==> OwnMove(r, b, count, i)
  }

  ghost predicate OwnMove(r: Behavior, b: BackendId, count: nat, i: nat)
    requires |r.states| == |r.actions| + 1 && i < |r.actions|
  {
    b in r.states[i].backends && r.actions[i] == NextOwn(r.states[i], b, count) && IsStep(r, i)
  }

  /** A run of the watcher of `b` from `sys` until it has caught up. */
  ghost predicate CatchesUp(r: Behavior, sys: System, b: BackendId, count: nat) {
    && OwnRun(r, b, count) && r.states[0] == sys
    && var end := r.states[|r.actions|];
      Inv(end) && CaughtUp(end, b) && end.doc == sys.doc && SameStages(sys, end)
  }

  lemma Prepended(sys: System, b: BackendId, count: nat, next: System, rest: Behavior)
    requires b in sys.backends && Enabled(sys, NextOwn(sys, b, count)) && next == Step(sys, NextOwn(sys, b, count))
    requires next.doc == sys.doc && SameStages(sys, next) && CatchesUp(rest, next, b, count)
    ensures CatchesUp(Behavior([sys] + rest.states, [NextOwn(sys, b, count)] + rest.actions), sys, b, count)
  {
    var r := Behavior([sys] + rest.states, [NextOwn(sys, b, count)] + rest.actions);
    assert OwnMove(r, b, count, 0);
    forall i | 0 < i < |r.actions| ensures OwnMove(r, b, count, i) {
      LaterMove(sys, b, count, rest, NextOwn(sys, b, count), i);
    }
    assert r.states[|r.actions|] == rest.states[|rest.actions|];
    StagesChain(sys, next, rest.states[|rest.actions|]);
  }

  lemma LaterMove(sys: System, b: BackendId, count: nat, rest: Behavior, a: Action, i: nat)
    requires |rest.states| == |rest.actions| + 1 && 0 < i <= |rest.actions|
    requires OwnMove(rest, b, count, i - 1)
    ensures OwnMove(Behavior([sys] + rest.states, [a] + rest.actions), b, count, i)
  {
    var states, actions := [sys] + rest.states, [a] + rest.actions;
    assert states[i] == rest.states[i - 1] && states[i + 1] == rest.states[i] && actions[i] == rest.actions[i - 1];
  }

  lemma StagesChain(a: System, b: System, c: System)
    requires SameStages(a, b) && SameStages(b, c)
    ensures SameStages(a, c)
  {
  }

  lemma {:induction false} WatcherCatchesUp(sys: System, b: BackendId, count: nat) returns (r: Behavior)
    requires Inv(sys) && b in sys.backends && count > 0
    ensures CatchesUp(r, sys, b, count)
    decreases Backlog(sys.doc.stream, sys.backends[b].watcher).0, Backlog(sys.doc.stream, sys.backends[b].watcher).1,
              Backlog(sys.doc.stream, sys.backends[b].watcher).2, Backlog(sys.doc.stream, sys.backends[b].watcher).3
  {
    if CaughtUp(sys, b) {
      r := Behavior([sys], []);
    } else {
      var a := NextOwn(sys, b, count);
      WatcherMakesProgress(sys, b, count);
      StepKeepsInv(sys, a);
      OwnStepKeepsStages(sys, b, count);
      var rest := WatcherCatchesUp(Step(sys, a), b, count);
      Prepended(sys, b, count, Step(sys, a), rest);
      r := Behavior([sys] + rest.states, [a] + rest.actions);
    }
  }

  /** When the watcher has caught up a live socket has its whole part of the log. */
  lemma CaughtUpIsComplete(sys: System, s: SocketId)
    requires Inv(sys) && Open(sys, s) && CaughtUp(sys, sys.sockets[s].backend)
    requires sys.sockets[s].session.stage.Live? && sys.sockets[s].session.client.CanWrite()
    ensures HasLogFrom(UpdatesOn(sys, s), sys.doc.stream, sys.sockets[s].base)
  {
    assert SocketOk(sys, s);
    assert BackendOk(sys, sys.sockets[s].backend);
    SegmentTells(UpdatesOn(sys, s), sys.doc.stream, sys.sockets[s].base);
  }

  /** The updates are exactly the log entries after `base`. */
  ghost predicate HasLogFrom(u: seq<Message>, log: seq<Event>, base: nat) {
    && base + |u| == |log|
    && forall j :: 0 <= j < |u| ==> Tells(u[j], log[base + j])
  }

  /** From every reachable state, whatever else was going on: letting the watcher
      of a backend run brings each of its live sockets, unless the socket breaks,
      to the complete log after its starting point - the cursor for a resumed
      socket, at most the stated sequence for a fresh one. */
  lemma EveryLiveSocketCatchesUp(r: Behavior, i: nat, b: BackendId, count: nat) returns (more: Behavior)
    requires IsBehavior(r) && i < |r.states| && b in r.states[i].backends && count > 0
    ensures CatchesUp(more, r.states[i], b, count)
    ensures var sys, end := r.states[i], more.states[|more.actions|];
      forall s :: Open(sys, s) && sys.sockets[s].backend == b && sys.sockets[s].session.stage.Live? ==>
          && Open(end, s)
          && (end.sockets[s].session.client.CanWrite() ==>
                HasLogFrom(UpdatesOn(end, s), end.doc.stream, sys.sockets[s].base))
          && (sys.sockets[s].cursor > 0 ==> sys.sockets[s].base == sys.sockets[s].cursor)
          && (sys.sockets[s].cursor <= 0 && sys.sockets[s].stated.Some? ==>
                sys.sockets[s].base <= sys.sockets[s].stated.value.sequence)
  {
    InvariantHolds(r, i);
    var sys := r.states[i];
    more := WatcherCatchesUp(sys, b, count);
    var end := more.states[|more.actions|];
    forall s | Open(sys, s) && sys.sockets[s].backend == b && sys.sockets[s].session.stage.Live?
      ensures Open(end, s)
      ensures end.sockets[s].session.client.CanWrite() ==>
        HasLogFrom(UpdatesOn(end, s), end.doc.stream, sys.sockets[s].base)
      ensures SocketBase(sys.doc.stream, sys.sockets[s])
    {
      assert SocketOk(sys, s);
      if end.sockets[s].session.client.CanWrite() { CaughtUpIsComplete(end, s); }
    }
  }
}
