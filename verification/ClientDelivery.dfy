// One socket: buffering during replay, the switch to live delivery, and the
// order in which content updates reach the wire.
module ClientDelivery {
  import opened Basics
  import opened DocumentLog

  datatype Message =
    | ContentUpdate(content: string, username: string, operationId: string, clientId: string,
                    serverVersion: int, sequence: int, streamId: nat)
    | ResumeStarted(fromSequence: int, latestSequence: int, serverVersion: int)
    | ResumeComplete(fromSequence: int, latestSequence: int, serverVersion: int, replayed: int)
    | RoomState(content: string, serverVersion: int, sequence: int)
    | Other

  function MessageFromEvent(e: Event): Message {
    ContentUpdate(e.content, e.username, e.operationId, e.clientId, e.version, e.sequence, e.id)
  }

  /** The frame tells the browser this log entry, field by field. */
  predicate Tells(m: Message, e: Event) {
    && m.ContentUpdate?
    && m.content == e.content && m.username == e.username
    && m.operationId == e.operationId && m.clientId == e.clientId
    && m.serverVersion == e.version && m.sequence == e.sequence && m.streamId == e.id
  }

  lemma MessageTells(e: Event)
    ensures Tells(MessageFromEvent(e), e)
  {
  }

  /** The socket accepts `limit` frames and fails for good afterwards. Every
      behaviour of a socket whose failures are permanent has such a limit. */
  datatype ClientState = ClientState(
    replaying: bool, lastSequence: int, pending: map<int, Message>,
    wire: seq<Message>, limit: nat)
  {
    predicate CanWrite() {
      |wire| < limit
    }
  }

  ghost predicate Consistent(c: ClientState) {
    && |c.wire| <= c.limit
    && forall k :: k in c.pending ==> c.pending[k].ContentUpdate? && c.pending[k].sequence == k
  }

  function Written(c: ClientState, m: Message): ClientState {
    if c.CanWrite() then c.(wire := c.wire + [m]) else c
  }

  function NewClient(limit: nat): ClientState {
    ClientState(false, 0, map[], [], limit)
  }

  function ReplayBegun(c: ClientState, lastSequence: int): ClientState {
    c.(replaying := true, lastSequence := lastSequence, pending := map[])
  }

  function ContentDelivered(c: ClientState, m: Message): ClientState
    requires m.ContentUpdate?
  {
    if m.sequence <= c.lastSequence then c
    else if c.replaying then c.(pending := c.pending[m.sequence := m])
    else if !c.CanWrite() then c
    else Written(c, m).(lastSequence := m.sequence)
  }

  ghost predicate Held(pending: map<int, Message>, sequences: seq<int>) {
    forall i :: 0 <= i < |sequences| ==> sequences[i] in pending
  }

  /** The buffered sequences above `lo`, in ascending order. */
  ghost function KeysAbove(pending: map<int, Message>, lo: int): seq<int> {
    Ascending(set k | k in pending && k > lo)
  }

  lemma KeysAboveEnumerates(pending: map<int, Message>, lo: int)
    ensures var ks := KeysAbove(pending, lo);
      && StrictlyAscending(ks)
      && Held(pending, ks)
      && (forall i :: 0 <= i < |ks| ==> ks[i] > lo)
      && (forall k :: k in pending && k > lo ==> k in ks)
  {
    var above := set k | k in pending && k > lo;
    AscendingEnumerates(above);
    forall i | 0 <= i < |Ascending(above)|
      ensures Ascending(above)[i] in pending && Ascending(above)[i] > lo
    {
      assert Ascending(above)[i] in Ascending(above);
    }
  }

  /** Writes the buffered messages at `sequences`, then leaves replay mode. */
  ghost function Drained(c: ClientState, sequences: seq<int>): ClientState
    requires Held(c.pending, sequences)
    decreases sequences
  {
    if sequences == [] then c.(pending := map[], replaying := false)
    else if !c.CanWrite() then c
    else
      var k := sequences[0];
      Drained(Written(c, c.pending[k]).(lastSequence := k), sequences[1..])
  }

  ghost function ReplayFinished(c: ClientState, complete: Message): ClientState
    requires complete.ResumeComplete?
  {
    if !c.CanWrite() then c
    else
      var c1 := Written(c, complete).(lastSequence := complete.latestSequence);
      KeysAboveEnumerates(c1.pending, c1.lastSequence);
      Drained(c1, KeysAbove(c1.pending, c1.lastSequence))
  }

  lemma DrainedStep(c: ClientState, sequences: seq<int>, i: nat)
    requires Held(c.pending, sequences) && i < |sequences|
    ensures Held(c.pending, sequences[i..]) && Held(c.pending, sequences[i + 1..])
    ensures !c.CanWrite() ==> Drained(c, sequences[i..]) == c
    ensures var c' := Written(c, c.pending[sequences[i]]).(lastSequence := sequences[i]);
      c.CanWrite() ==> Drained(c, sequences[i..]) == Drained(c', sequences[i + 1..])
  {
    assert sequences[i..][1..] == sequences[i + 1..];
  }

  class Client {
    var replaying: bool
    var lastSequence: int
    var pending: map<int, Message>
    var wire: seq<Message>  // frames handed to the connection
    const limit: nat

    function State(): ClientState
      reads this
    {
      ClientState(replaying, lastSequence, pending, wire, limit)
    }

    ghost predicate Valid()
      reads this
    {
      Consistent(State())
    }

    constructor (limit: nat)
      ensures Valid()
      ensures State() == NewClient(limit)
    {
      replaying, lastSequence, pending, wire, this.limit := false, 0, map[], [], limit;
    }

    method BeginReplay(lastSequence: int)
      requires Valid()
      modifies this
      ensures Valid()
      ensures State() == ReplayBegun(old(State()), lastSequence)
      ensures pending == map[] && replaying && wire == old(wire)  // nothing buffered before is left over
    {
      replaying := true;
      this.lastSequence := lastSequence;
      pending := map[];
    }

    method WriteJSON(m: Message) returns (ok: bool)
      requires Valid()
      modifies this`wire
      ensures Valid()
      ensures State() == Written(old(State()), m)
      ensures ok == old(State().CanWrite())
    {
      ok := |wire| < limit;
      if ok { wire := wire + [m]; }
    }

    method WriteContentUpdate(m: Message) returns (ok: bool)
      requires Valid() && m.ContentUpdate?
      modifies this
      ensures Valid()
      ensures State() == ContentDelivered(old(State()), m)
      ensures !ok ==> !State().CanWrite() && State() == old(State())
    {
      if m.sequence <= lastSequence { return true; }
      if replaying {
        pending := pending[m.sequence := m];
        return true;
      }
      ok := WriteJSON(m);
      if !ok { return; }
      lastSequence := m.sequence;
    }

    /** The sorted slice of buffered sequences above the last one written. */
    method PendingAbove() returns (sequences: seq<int>)
      ensures sequences == KeysAbove(pending, lastSequence)
    {
      sequences := [];
      var keys := pending.Keys;
      while keys != {}
        invariant keys <= pending.Keys
        invariant forall k :: k in sequences <==> k in pending.Keys - keys && k > lastSequence
        invariant Distinct(sequences)
      {
        Inhabited(keys);
        var k :| k in keys;
        keys := keys - {k};
        if k > lastSequence {
          DistinctAppend(sequences, k);
          sequences := sequences + [k];
        }
      }
      sequences := Sort(sequences);
      AscendingEnumerates(set k | k in pending && k > lastSequence);
      AscendingIsUnique(sequences, KeysAbove(pending, lastSequence));
    }

    /** The loop over the sorted slice, and the switch to live delivery. */
    method WriteBuffered(sequences: seq<int>) returns (ok: bool)
      requires Valid() && Held(pending, sequences)
      modifies this
      ensures Valid()
      ensures State() == Drained(old(State()), sequences)
      ensures ok ==> !replaying
      ensures !ok ==> !State().CanWrite() && replaying == old(replaying)
    {
      assert sequences == sequences[0..];
      var i := 0;
      while i < |sequences|
        invariant i <= |sequences| && Valid()
        invariant pending == old(pending) && replaying == old(replaying)
        invariant Drained(State(), sequences[i..]) == Drained(old(State()), sequences)
      {
        DrainedStep(State(), sequences, i);
        var sequence := sequences[i];
        ok := WriteJSON(pending[sequence]);
        if !ok { return; }
        lastSequence := sequence;
        i := i + 1;
      }
      ok := true;
      pending := map[];
      replaying := false;
    }

    method FinishReplay(complete: Message) returns (ok: bool)
      requires Valid() && complete.ResumeComplete?
      modifies this
      ensures Valid()
      ensures State() == ReplayFinished(old(State()), complete)
      ensures old(replaying) ==> (ok <==> !replaying)
      ensures !ok ==> !State().CanWrite()
    {
      ok := WriteJSON(complete);
      if !ok { return; }
      lastSequence := complete.latestSequence;
      KeysAboveEnumerates(pending, lastSequence);
      var sequences := PendingAbove();
      ok := WriteBuffered(sequences);
    }
  }
}
