// The room's client list, its broadcast loop, and the stream watcher's loop
// over real client objects.
module RoomFanout {
  import opened Basics
  import opened DocumentLog
  import opened StreamReads
  import opened ClientDelivery
  import opened ReplaySession
  import opened RoomCache
  import opened Resume

  const BATCH := 100

  /** What a client has after the events above `initial` were broadcast to it in turn. */
  function DeliveredAll(c: ClientState, events: seq<Event>, initial: int): ClientState {
    if events == [] then c
    else
      var e := events[|events| - 1];
      var before := DeliveredAll(c, events[..|events| - 1], initial);
      if e.sequence <= initial then before else ContentDelivered(before, MessageFromEvent(e))
  }

  function AppliedAll(r: Snapshot, events: seq<Event>, initial: int): Snapshot {
    if events == [] then r
    else
      var e := events[|events| - 1];
      var before := AppliedAll(r, events[..|events| - 1], initial);
      if e.sequence <= initial then before else EventApplied(before, e)
  }

  lemma {:induction false} DeliveredInTwo(c: ClientState, r: Snapshot, a: seq<Event>, b: seq<Event>, initial: int)
    ensures DeliveredAll(c, a + b, initial) == DeliveredAll(DeliveredAll(c, a, initial), b, initial)
    ensures AppliedAll(r, a + b, initial) == AppliedAll(AppliedAll(r, a, initial), b, initial)
  {
    if b == [] {
      assert a + b == a;
    } else {
      assert (a + b)[..|a + b| - 1] == a + b[..|b| - 1];
      DeliveredInTwo(c, r, a, b[..|b| - 1], initial);
    }
  }

  /** With a store, content updates go through the delivery guard; every other
      frame, and everything without a store, is written as it comes. */
  function Offered(c: ClientState, m: Message, distributed: bool): ClientState {
    if distributed && m.ContentUpdate? then ContentDelivered(c, m) else Written(c, m)
  }

  class RoomHub {
    const room: Room
    const distributed: bool  // backed by a store
    var clients: seq<Client>
    var localPresenceRevision: int

    constructor (room: Room, distributed: bool)
      ensures this.room == room && this.distributed == distributed && clients == [] && localPresenceRevision == 0
    {
      this.room, this.distributed := room, distributed;
      clients, localPresenceRevision := [], 0;
    }

    /** Clients are registered once each, and their buffers are consistent. */
    ghost predicate Valid()
      reads this, clients
    {
      && Distinct(clients)
      && forall c :: c in clients ==> c.Valid()
    }

    method AddClient(client: Client)
      requires Valid() && client.Valid() && client !in clients
      modifies this
      ensures Valid() && clients == old(clients) + [client]
      ensures localPresenceRevision == old(localPresenceRevision) + if distributed then 0 else 1
    {
      DistinctAppend(clients, client);
      clients := clients + [client];
      if !distributed { localPresenceRevision := localPresenceRevision + 1; }
    }

    method RemoveClient(target: Client)
      modifies this
      ensures clients == Without(old(clients), target)
      // The local revision moves exactly when the membership does.
      ensures localPresenceRevision
           == old(localPresenceRevision) + if !distributed && target in old(clients) then 1 else 0
    {
      var updated: seq<Client> := [];
      for i := 0 to |clients|
        invariant clients == old(clients) && localPresenceRevision == old(localPresenceRevision)
        invariant updated == Without(clients[..i], target)
      {
        assert clients[..i + 1] == clients[..i] + [clients[i]];
        WithoutOfConcat(clients[..i], [clients[i]], target);
        if clients[i] != target { updated := updated + [clients[i]]; }
      }
      assert clients[..|clients|] == clients;
      WithoutShrinksIff(clients, target);
      if !distributed && |updated| != |clients| { localPresenceRevision := localPresenceRevision + 1; }
      clients := updated;
    }

    /** Every registered client is offered the message exactly once. */
    method BroadcastJSON(m: Message)
      requires Valid()
      modifies Elements(clients)
      ensures Valid()
      ensures forall c :: c in clients ==> c.State() == Offered(old(c.State()), m, distributed)
    {
      for i := 0 to |clients|
        invariant Valid()
        invariant forall j :: 0 <= j < i ==> clients[j].State() == Offered(old(clients[j].State()), m, distributed)
        invariant forall j :: i <= j < |clients| ==> clients[j].State() == old(clients[j].State())
      {
        if distributed && m.ContentUpdate? {
          var ok := clients[i].WriteContentUpdate(m);
        } else {
          var ok := clients[i].WriteJSON(m);
        }
      }
    }

    /** The watcher's loop over one batch. */
    method ConsumeBatch(events: seq<Event>, initial: int)
      requires Valid() && distributed
      modifies room, Elements(clients)
      ensures Valid()
      ensures room.State() == AppliedAll(old(room.State()), events, initial)
      ensures forall c :: c in clients ==> c.State() == DeliveredAll(old(c.State()), events, initial)
    {
      for i := 0 to |events|
        invariant Valid()
        invariant room.State() == AppliedAll(old(room.State()), events[..i], initial)
        invariant forall c :: c in clients ==> c.State() == DeliveredAll(old(c.State()), events[..i], initial)
      {
        assert events[..i + 1][..i] == events[..i];
        var event := events[i];
        if event.sequence <= initial { continue; }
        var applied := room.ApplyDistributedEvent(event);
        BroadcastJSON(MessageFromEvent(event));
      }
      assert events[..|events|] == events;
    }

    /** One round: read after the cursor, handle the batch, advance the cursor. */
    method WatchOnce(s: RoomStream, initial: int, lastStreamId: nat, ghost position: nat)
      returns (next: nat, ghost advanced: nat)
      requires Valid() && distributed && s.Valid() && !s.trims
      requires position <= |s.stream| && lastStreamId == IdAt(s.stream, position)
      modifies s`stream, s`lastId, s`failures, room, Elements(clients)
      ensures Valid() && s.Valid() && old(s.stream) <= s.stream
      ensures position <= advanced <= |s.stream| && next == IdAt(s.stream, advanced)
      // A failed read moves nothing; an answered one passes a full batch, or reaches the end.
      ensures old(s.failures) <= s.failures <= old(s.failures) + 1
      ensures advanced == if s.failures > old(s.failures) then position else Min(position + BATCH, |s.stream|)
      ensures room.State() == AppliedAll(old(room.State()), s.stream[position..advanced], initial)
      ensures forall c :: c in clients ==>
        c.State() == DeliveredAll(old(c.State()), s.stream[position..advanced], initial)
    {
      next, advanced := lastStreamId, position;
      var reply := s.ReadAfterStreamID(lastStreamId, BATCH);
      if reply.None? { return; }
      XReadIsSlice(s.stream, position, BATCH);
      var events := reply.value;
      ConsumeBatch(events, initial);
      if |events| > 0 { next := events[|events| - 1].id; }
      advanced := position + |events|;
    }

    /** watchRoom for any number of rounds, with any read errors and any commits
        between reads: every client has been offered exactly the entries above
        the startup boundary up to some log position, once each and in order;
        and every answered read takes that position a batch further. */
    method WatchRoom(s: RoomStream, initial: int, rounds: nat) returns (ghost position: nat)
      requires Valid() && distributed && s.Valid() && !s.trims
      modifies s`stream, s`lastId, s`failures, room, Elements(clients)
      ensures Valid() && s.Valid() && old(s.stream) <= s.stream && position <= |s.stream|
      ensures old(s.failures) <= s.failures <= old(s.failures) + rounds
      ensures position >= Min(BATCH * (rounds - (s.failures - old(s.failures))), |old(s.stream)|)
      ensures room.State() == AppliedAll(old(room.State()), s.stream[..position], initial)
      ensures forall c :: c in clients ==> c.State() == DeliveredAll(old(c.State()), s.stream[..position], initial)
    {
      var lastStreamId: nat := 0;
      position := 0;
      for n := 0 to rounds
        invariant Valid() && s.Valid() && old(s.stream) <= s.stream && position <= |s.stream|
        invariant old(s.failures) <= s.failures <= old(s.failures) + n
        invariant position >= Min(BATCH * (n - (s.failures - old(s.failures))), |old(s.stream)|)
        invariant lastStreamId == IdAt(s.stream, position)
        invariant room.State() == AppliedAll(old(room.State()), s.stream[..position], initial)
        invariant forall c :: c in clients ==> c.State() == DeliveredAll(old(c.State()), s.stream[..position], initial)
      {
        ghost var passed := s.stream[..position];
        ghost var advanced;
        lastStreamId, advanced := WatchOnce(s, initial, lastStreamId, position);
        assert s.stream[..advanced] == passed + s.stream[position..advanced];
        forall c | c in clients
          ensures c.State() == DeliveredAll(old(c.State()), s.stream[..advanced], initial)
        {
          DeliveredInTwo(old(c.State()), old(room.State()), passed, s.stream[position..advanced], initial);
        }
        DeliveredInTwo(NewClient(0), old(room.State()), passed, s.stream[position..advanced], initial);
        position := advanced;
      }
    }
  }

  /** For a live client with a working socket that offering is the log itself. */
  lemma {:induction false} LiveClientGetsTheLog(c: ClientState, log: seq<Event>, initial: nat, p: nat)
    requires Contiguous(log) && initial <= p <= |log|
    requires !c.replaying && c.lastSequence <= initial && |c.wire| + p <= c.limit
    ensures var d := DeliveredAll(c, log[..p], initial);
      && Updates(d.wire) == Updates(c.wire) + Messages(log[initial..p])
      && TellsAll(Messages(log[initial..p]), log[initial..p])
      && !d.replaying && d.limit == c.limit && |d.wire| == |c.wire| + p - initial
      && d.lastSequence == if p == initial then c.lastSequence else p
  {
    MessagesTell(log[initial..p]);
    if p == initial {
      SkippedAll(c, log[..p], initial);
      assert Messages(log[initial..p]) == [];
    } else {
      LiveClientGetsTheLog(c, log, initial, p - 1);
      DeliveredNext(c, log, initial, p);
      LiveDelivery(DeliveredAll(c, log[..p - 1], initial), MessageFromEvent(log[p - 1]));
      MessagesOfNext(Updates(c.wire), log, initial, p);
    }
  }

  lemma DeliveredNext(c: ClientState, log: seq<Event>, initial: nat, p: nat)
    requires Contiguous(log) && initial < p <= |log|
    ensures DeliveredAll(c, log[..p], initial)
         == ContentDelivered(DeliveredAll(c, log[..p - 1], initial), MessageFromEvent(log[p - 1]))
  {
    assert log[..p][..p - 1] == log[..p - 1];
  }

  lemma LiveDelivery(d: ClientState, m: Message)
    requires m.ContentUpdate? && !d.replaying && d.lastSequence < m.sequence && d.CanWrite()
    ensures var d' := ContentDelivered(d, m);
      && Updates(d'.wire) == Updates(d.wire) + [m]
      && !d'.replaying && d'.limit == d.limit && |d'.wire| == |d.wire| + 1 && d'.lastSequence == m.sequence
  {
    UpdatesOfWritten(d, m);
  }

  lemma MessagesOfNext(u: seq<Message>, log: seq<Event>, initial: nat, p: nat)
    requires initial < p <= |log|
    ensures u + Messages(log[initial..p]) == u + Messages(log[initial..p - 1]) + [MessageFromEvent(log[p - 1])]
  {
    assert log[initial..p] == log[initial..p - 1] + [log[p - 1]];
    MessagesOfConcat(u, log[initial..p - 1], [log[p - 1]]);
    assert Messages([log[p - 1]]) == [MessageFromEvent(log[p - 1])];
  }

  lemma {:induction false} SkippedAll(c: ClientState, events: seq<Event>, initial: int)
    requires forall i :: 0 <= i < |events| ==> events[i].sequence <= initial
    ensures DeliveredAll(c, events, initial) == c
  {
    if events != [] {
      SkippedAll(c, events[..|events| - 1], initial);
    }
  }

  /** The cache follows: from any agreement with the log at or past the startup
      boundary, it agrees with the log where the watcher has arrived. */
  lemma {:induction false} RoomFollowsTheLog(r: Snapshot, log: seq<Event>, initial: nat, p: nat)
    requires Contiguous(log) && initial <= r.sequence <= |log| && p <= |log|
    requires r.version == r.sequence && r.content == ContentAt(log, r.sequence)
    ensures var r' := AppliedAll(r, log[..p], initial);
      && r'.sequence == r'.version == Max(r.sequence, p)
      && r'.content == ContentAt(log, Max(r.sequence, p))
  {
    if p > 0 {
      assert log[..p][..p - 1] == log[..p - 1];
      RoomFollowsTheLog(r, log, initial, p - 1);
    }
  }

  /** Event `k` is the first of the highest sequence in the list. */
  ghost predicate IsHighest(events: seq<Event>, k: nat) {
    && k < |events|
    && (forall j :: 0 <= j < |events| ==> events[j].sequence <= events[k].sequence)
    && forall j :: 0 <= j < k ==> events[j].sequence < events[k].sequence
  }

  /** On any events, in any order: the room takes over the three fields of the
      first event of the highest sequence, if that is new to it. */
  lemma {:induction false} RoomTakesTheHighest(r: Snapshot, events: seq<Event>, initial: int, k: nat)
    requires IsHighest(events, k)
    ensures AppliedAll(r, events, initial)
         == if events[k].sequence > Max(initial, r.sequence)
            then Snapshot(events[k].content, events[k].version, events[k].sequence) else r
  {
    var n := |events| - 1;
    if n == 0 {
      assert events[..0] == [];
    } else if k == n {
      var l := HighestExists(events[..n]);
      RoomTakesTheHighest(r, events[..n], initial, l);
    } else {
      assert IsHighest(events[..n], k);
      RoomTakesTheHighest(r, events[..n], initial, k);
    }
  }

  lemma {:induction false} HighestExists(events: seq<Event>) returns (k: nat)
    requires events != []
    ensures IsHighest(events, k)
  {
    var n := |events| - 1;
    if n == 0 {
      k := 0;
    } else {
      k := HighestExists(events[..n]);
      if events[n].sequence > events[k].sequence { k := n; }
    }
  }

  // ---------------------------------------------------------------------
  // Frames that the delivery guard does not hold back.

  function OfferedAll(c: ClientState, frames: seq<Message>, distributed: bool): ClientState {
    if frames == [] then c
    else Offered(OfferedAll(c, frames[..|frames| - 1], distributed), frames[|frames| - 1], distributed)
  }

  /** Without a store every client gets every frame as it was broadcast. */
  lemma {:induction false} WithoutStoreAllIsWritten(c: ClientState, frames: seq<Message>)
    requires |c.wire| + |frames| <= c.limit
    ensures var d := OfferedAll(c, frames, false);
      && d.wire == c.wire + frames && d.limit == c.limit
      && d.pending == c.pending && d.lastSequence == c.lastSequence && d.replaying == c.replaying
  {
    if frames != [] {
      WithoutStoreAllIsWritten(c, frames[..|frames| - 1]);
    }
  }

  /** The frames that carry no content update. */
  function Notices(frames: seq<Message>): seq<Message> {
    if frames == [] then []
    else
      var last := frames[|frames| - 1];
      Notices(frames[..|frames| - 1]) + if last.ContentUpdate? then [] else [last]
  }

  lemma NoticesOfNext(frames: seq<Message>, m: Message)
    ensures Notices(frames + [m]) == Notices(frames) + if m.ContentUpdate? then [] else [m]
  {
    assert (frames + [m])[..|frames|] == frames;
  }

  /** With one, a replaying or lagging socket still gets every other frame, in order. */
  lemma {:induction false} NoticesAreNotHeldBack(c: ClientState, frames: seq<Message>)
    requires |c.wire| + |frames| <= c.limit
    ensures var d := OfferedAll(c, frames, true);
      Notices(d.wire) == Notices(c.wire) + Notices(frames) && |d.wire| <= |c.wire| + |frames| && d.limit == c.limit
  {
    if frames != [] {
      var before := OfferedAll(c, frames[..|frames| - 1], true);
      NoticesAreNotHeldBack(c, frames[..|frames| - 1]);
      NoticesOfNext(before.wire, frames[|frames| - 1]);
    }
  }
}
