// Where presence frames come from: each one is a snapshot that was loaded
// earlier in the run, and lists the members that held a lease at that moment.
module PresenceFrames {
  import opened Basics
  import opened Presence
  import opened PresenceRuns
  import opened PresenceDelivery

  /** Action `k` loaded this snapshot: exactly the members whose lease was still
      running then, as they were registered. */
  ghost predicate IsLoad(states: seq<System>, actions: seq<Action>, k: nat, s: Loaded)
    requires |states| == |actions| + 1 && k < |actions|
  {
    var a, r := actions[k], states[k].registry;
    && (a.FetchOwn? || a.LoadSnapshot?)
    && s.revision == states[k + 1].registry.revision
    && (forall id :: id in s.records <==> id in r.records && id in r.expiry && r.expiry[id] > a.t)
    && (forall id :: id in s.records ==> s.records[id] == r.records[id])
  }

  ghost predicate WasLoaded(states: seq<System>, actions: seq<Action>, i: nat, s: Loaded)
    requires |states| == |actions| + 1 && i <= |actions|
  {
    exists k: nat :: k < i && IsLoad(states, actions, k, s)
  }

  ghost predicate SocketLoaded(states: seq<System>, actions: seq<Action>, i: nat, c: Socket)
    requires |states| == |actions| + 1 && i <= |actions|
  {
    && (forall j :: 0 <= j < |c.frames| ==> WasLoaded(states, actions, i, c.frames[j]))
    && (c.stage.Fetched? ==> WasLoaded(states, actions, i, c.stage.own))
  }

  ghost predicate AllLoaded(states: seq<System>, actions: seq<Action>, i: nat)
    requires |states| == |actions| + 1 && i <= |actions|
  {
    && (forall id :: id in states[i].sockets ==> SocketLoaded(states, actions, i, states[i].sockets[id]))
    && (states[i].turn.Snapshotted? || states[i].turn.Writing? ==>
          WasLoaded(states, actions, i, states[i].turn.snapshot))
  }

  lemma LoadedStays(states: seq<System>, actions: seq<Action>, i: nat, s: Loaded)
    requires |states| == |actions| + 1 && i < |actions| && WasLoaded(states, actions, i, s)
    ensures WasLoaded(states, actions, i + 1, s)
  {
  }

  lemma SocketStays(states: seq<System>, actions: seq<Action>, i: nat, c: Socket)
    requires |states| == |actions| + 1 && i < |actions| && SocketLoaded(states, actions, i, c)
    ensures SocketLoaded(states, actions, i + 1, c)
  {
    forall j | 0 <= j < |c.frames| ensures WasLoaded(states, actions, i + 1, c.frames[j]) {
      LoadedStays(states, actions, i, c.frames[j]);
    }
    if c.stage.Fetched? { LoadedStays(states, actions, i, c.stage.own); }
  }

  lemma LoadIsLoad(states: seq<System>, actions: seq<Action>, i: nat)
    requires |states| == |actions| + 1 && i < |actions| && IsStep(states, actions, i)
    requires actions[i].FetchOwn? || actions[i].LoadSnapshot?
    ensures WasLoaded(states, actions, i + 1, LoadedFrom(Pruned(states[i].registry, actions[i].t)))
  {
    assert IsLoad(states, actions, i, LoadedFrom(Pruned(states[i].registry, actions[i].t)));
  }

  lemma WrittenIsLoaded(states: seq<System>, actions: seq<Action>, i: nat, c: Socket, s: Loaded)
    requires |states| == |actions| + 1 && i <= |actions|
    requires SocketLoaded(states, actions, i, c) && WasLoaded(states, actions, i, s)
    ensures SocketLoaded(states, actions, i, PresenceWritten(c, s))
  {
  }

  /** What each step does to one socket. */
  lemma SocketAfter(states: seq<System>, actions: seq<Action>, i: nat, id: ClientId)
    requires |states| == |actions| + 1 && i < |actions| && IsStep(states, actions, i)
    requires AllLoaded(states, actions, i) && id in states[i + 1].sockets
    ensures SocketLoaded(states, actions, i + 1, states[i + 1].sockets[id])
  {
    var s, a := states[i], actions[i];
    if id in s.sockets {
      var c := s.sockets[id];
      SocketStays(states, actions, i, c);
      if a.FetchOwn? { LoadIsLoad(states, actions, i); }
      if a == WriteOwn(id) { WrittenIsLoaded(states, actions, i + 1, c, c.stage.own); }
      if a.WriteNext? {
        LoadedStays(states, actions, i, s.turn.snapshot);
        WrittenIsLoaded(states, actions, i + 1, c, s.turn.snapshot);
      }
    }
  }

  lemma StepKeepsLoaded(states: seq<System>, actions: seq<Action>, i: nat)
    requires |states| == |actions| + 1 && i < |actions| && IsStep(states, actions, i)
    requires AllLoaded(states, actions, i)
    ensures AllLoaded(states, actions, i + 1)
  {
    var n, after := i + 1, states[i + 1];
    forall id | id in after.sockets ensures SocketLoaded(states, actions, n, after.sockets[id]) {
      SocketAfter(states, actions, i, id);
    }
    if actions[i].LoadSnapshot? {
      LoadIsLoad(states, actions, i);
    } else if states[i + 1].turn.Snapshotted? || states[i + 1].turn.Writing? {
      LoadedStays(states, actions, i, states[i].turn.snapshot);
    }
  }

  lemma {:induction false} AllAreLoaded(states: seq<System>, actions: seq<Action>, i: nat)
    requires IsBehavior(states, actions) && i < |states|
    ensures AllLoaded(states, actions, i)
  {
    if i > 0 {
      AllAreLoaded(states, actions, i - 1);
      assert IsStep(states, actions, i - 1);
      StepKeepsLoaded(states, actions, i - 1);
    }
  }

  /** In every run each frame on each socket was loaded at some earlier time `k`,
      and lists exactly the members that held a lease at that time. */
  lemma FramesListTheLiving(states: seq<System>, actions: seq<Action>, i: nat, id: ClientId, j: nat) returns (k: nat)
    requires IsBehavior(states, actions) && i < |states|
    requires id in states[i].sockets && j < |states[i].sockets[id].frames|
    ensures k < i && IsLoad(states, actions, k, states[i].sockets[id].frames[j])
  {
    AllAreLoaded(states, actions, i);
    var c := states[i].sockets[id];
    assert WasLoaded(states, actions, i, c.frames[j]);
    k :| k < i && IsLoad(states, actions, k, c.frames[j]);
  }

  /** A batch is at most a page, and a shorter one reaches the last notification. */
  lemma BatchIsAPage(s: System, count: nat)
    requires Enabled(s, ReadChanges(count))
    ensures var s' := Step(s, ReadChanges(count));
      && s'.turn.HasBatch? && s.cursor < s'.turn.next <= s.cursor + count
      && (s'.turn.next < s.cursor + count ==> s'.turn.next == |s.registry.stream|)
  {
  }
}
