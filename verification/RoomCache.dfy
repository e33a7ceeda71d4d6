// A backend's in-memory room: a cache of the Redis document when there is a
// store, and the authoritative document when there is none.
module RoomCache {
  import opened Basics
  import opened DocumentLog

  datatype Snapshot = Snapshot(content: string, version: int, sequence: int)

  function EventApplied(r: Snapshot, e: Event): Snapshot {
    if e.sequence <= r.sequence then r else Snapshot(e.content, e.version, e.sequence)
  }

  /** Equal sequences overwrite: only an older snapshot is dropped. */
  function SnapshotApplied(r: Snapshot, s: Snapshot): Snapshot {
    if s.sequence < r.sequence then r else s
  }

  function LocalUpdate(r: Snapshot, op: Operation): (Snapshot, ApplyResult) {
    var stale := op.baseVersion != r.version;
    if stale && op.policy == Reject then
      (r, ApplyResult(false, StaleBaseVersion, r.content, op.baseVersion,
                      r.version, r.version, r.sequence, None, true))
    else
      (Snapshot(op.content, r.version + 1, r.sequence + 1),
       ApplyResult(true, NoReason, op.content, op.baseVersion,
                   r.version, r.version + 1, r.sequence + 1, None, stale))
  }

  function ResultSnapshot(res: ApplyResult): Snapshot {
    Snapshot(res.content, res.serverVersion, res.sequence)
  }

  class Room {
    var content: string
    var version: int
    var sequence: int

    function State(): Snapshot
      reads this
    {
      Snapshot(content, version, sequence)
    }

    constructor (s: Snapshot)
      ensures State() == s
    {
      content, version, sequence := s.content, s.version, s.sequence;
    }

    method ApplyDistributedEvent(e: Event) returns (applied: bool)
      modifies this
      ensures State() == EventApplied(old(State()), e)
      ensures applied <==> e.sequence > old(sequence)
    {
      if e.sequence <= sequence { return false; }
      content := e.content;
      version := e.version;
      sequence := e.sequence;
      applied := true;
    }

    method ApplySnapshot(s: Snapshot)
      modifies this
      ensures State() == SnapshotApplied(old(State()), s)
    {
      if s.sequence < sequence { return; }
      content := s.content;
      version := s.version;
      sequence := s.sequence;
    }

    method ApplyLocalContentUpdate(op: Operation) returns (r: ApplyResult)
      modifies this
      ensures (State(), r) == LocalUpdate(old(State()), op)
    {
      var previousVersion := version;
      var stale := op.baseVersion != previousVersion;
      if stale && op.policy == Reject {
        return ApplyResult(false, StaleBaseVersion, content, op.baseVersion,
                           previousVersion, version, sequence, None, true);
      }
      content := op.content;
      version := version + 1;
      sequence := sequence + 1;
      r := ApplyResult(true, NoReason, content, op.baseVersion,
                       previousVersion, version, sequence, None, stale);
    }

    /** With a store: run the script, then cache what it reports, accepted or
        not. An error leaves the cache alone and the outcome in the store open. */
    method ApplyOperation(keys: RoomKeys, op: Operation, id: nat, fate: Fate) returns (r: Option<ApplyResult>)
      modifies this, keys
      ensures r.Some? <==> fate.Answered?
      ensures r.Some? ==>
        && (keys.State(), r.value) == ApplyScript(old(keys.State()), op, id)
        && State() == SnapshotApplied(old(State()), ResultSnapshot(r.value))
      ensures r.None? ==>
        && State() == old(State())
        && keys.State() == if fate.NotRun? then old(keys.State()) else ApplyScript(old(keys.State()), op, id).0
    {
      if fate.NotRun? { return None; }
      var result := keys.Eval(op, id);
      if fate.ReplyLost? { return None; }
      ApplySnapshot(Snapshot(result.content, result.serverVersion, result.sequence));
      r := Some(result);
    }

    /** `stored` is the store's answer; on an error or a missing room the cache is used as it is. */
    method GetSnapshot(stored: Option<Snapshot>) returns (s: Snapshot)
      modifies this
      ensures s == State()
      ensures State() == match stored
                         case Some(t) => SnapshotApplied(old(State()), t)
                         case None => old(State())
    {
      if stored.Some? { ApplySnapshot(stored.value); }
      s := Snapshot(content, version, sequence);
    }
  }

  // ---------------------------------------------------------------------
  // The local room and the script are the same machine.

  datatype Outcome = Outcome(room: Snapshot, results: seq<ApplyResult>)

  function LocalRun(r: Snapshot, ops: seq<Operation>): Outcome
    decreases ops
  {
    if ops == [] then Outcome(r, [])
    else
      var (r1, res) := LocalUpdate(r, ops[0]);
      var rest := LocalRun(r1, ops[1..]);
      Outcome(rest.room, [res] + rest.results)
  }

  datatype StoreOutcome = StoreOutcome(doc: Doc, results: seq<ApplyResult>)

  function ScriptRun(d: Doc, ops: seq<Operation>, ids: seq<nat>): StoreOutcome
    requires |ids| == |ops|
    decreases ops
  {
    if ops == [] then StoreOutcome(d, [])
    else
      var (d1, res) := ApplyScript(d, ops[0], ids[0]);
      var rest := ScriptRun(d1, ops[1..], ids[1..]);
      StoreOutcome(rest.doc, [res] + rest.results)
  }

  function Visible(d: Doc): Snapshot {
    Snapshot(d.content, d.version, d.sequence)
  }

  /** An answered operation, accepted or refused, brings a cache that is not ahead
      of the store to the store's state, whatever the cache held. */
  lemma ReplyRefreshesCache(r: Snapshot, d: Doc, op: Operation, id: nat)
    requires r.sequence <= d.sequence
    ensures var (d', res) := ApplyScript(d, op, id);
      SnapshotApplied(r, ResultSnapshot(res)) == Snapshot(d'.content, d'.version, d'.sequence)
  {
  }

  /** The local answer `l` is the script's answer `s` but for the stream ID. */
  predicate SameAnswer(l: ApplyResult, s: ApplyResult, op: Operation, previous: int) {
    && l == s.(streamId := None)
    && (s.streamId.Some? <==> l.accepted)
    && l.previousVersion == previous
    && (l.stale <==> op.baseVersion != previous)
    && (!l.accepted <==> l.stale && op.policy == Reject)
  }

  /** Any updates under any policies, from equal states: the same state, and
      the same answers but for the stream ID; `stale` marks exactly the updates
      whose base is not the predecessor version. */
  lemma {:induction false} LocalRoomRefinesScript(r: Snapshot, d: Doc, ops: seq<Operation>, ids: seq<nat>)
    requires Visible(d) == r && |ids| == |ops|
    ensures var l, s := LocalRun(r, ops), ScriptRun(d, ops, ids);
      && Visible(s.doc) == l.room
      && |l.results| == |s.results| == |ops|
      && forall i :: 0 <= i < |ops| ==>
          SameAnswer(l.results[i], s.results[i], ops[i], if i == 0 then r.version else l.results[i - 1].serverVersion)
    decreases ops
  {
    if ops != [] {
      var r1, d1 := LocalUpdate(r, ops[0]).0, ApplyScript(d, ops[0], ids[0]).0;
      LocalRoomRefinesScript(r1, d1, ops[1..], ids[1..]);
      var l, l1 := LocalRun(r, ops), LocalRun(r1, ops[1..]);
      var s, s1 := ScriptRun(d, ops, ids), ScriptRun(d1, ops[1..], ids[1..]);
      assert SameAnswer(l.results[0], s.results[0], ops[0], r.version);
      forall i | 1 <= i < |ops|
        ensures SameAnswer(l.results[i], s.results[i], ops[i], l.results[i - 1].serverVersion)
      {
        var previous := if i == 1 then r1.version else l1.results[i - 2].serverVersion;
        assert SameAnswer(l1.results[i - 1], s1.results[i - 1], ops[1..][i - 1], previous);
      }
    }
  }

  // ---------------------------------------------------------------------
  // Snapshots and the log.

  /** The cached content and version are those of the log at the cached sequence. */
  ghost predicate Agrees(r: Snapshot, stream: seq<Event>) {
    && 0 <= r.version == r.sequence <= |stream|
    && r.content == ContentAt(stream, r.sequence)
  }

  /** Other backends run any number of scripts. */
  method OtherScripts(keys: RoomKeys)
    requires LogInvariant(keys.State())
    modifies keys
    ensures LogInvariant(keys.State()) && old(keys.stream) <= keys.stream
  {
    var n: nat := *;
    while n > 0
      invariant LogInvariant(keys.State()) && old(keys.stream) <= keys.stream
    {
      var op: Operation := *;
      var id: nat := *;
      if id > LastId(keys.stream) {
        ApplyKeepsLogInvariant(keys.State(), op, id);
        var r := keys.Eval(op, id);
      }
      n := n - 1;
    }
  }

  /** Content, version and sequence come from log positions k1 <= k2 <= k3. */
  method ReadSnapshot(keys: RoomKeys) returns (s: Snapshot, ghost k1: nat, ghost k2: nat)
    requires LogInvariant(keys.State())
    modifies keys
    ensures LogInvariant(keys.State()) && old(keys.stream) <= keys.stream
    ensures |old(keys.stream)| <= k1 <= k2 <= s.sequence == |keys.stream|
    ensures s.content == ContentAt(keys.stream, k1) && s.version == k2
    ensures |old(keys.stream)| == |keys.stream| ==> Agrees(s, keys.stream)
  {
    OtherScripts(keys);
    var content := keys.content;
    k1 := |keys.stream|;
    OtherScripts(keys);
    var version := keys.version;
    k2 := |keys.stream|;
    OtherScripts(keys);
    s := Snapshot(content, version, keys.sequence);
  }
}
