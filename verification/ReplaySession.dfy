// The life of one socket as the calls made on it: replayed log entries from
// its own goroutine, broadcasts from any other, and the handoff between them.
// Nothing is assumed here about the log or about the broadcasts.
module ReplaySession {
  import opened Basics
  import opened DocumentLog
  import opened ClientDelivery

  /** The loop variables of EventsAfterSequence and the boundary it runs to. */
  datatype Replay = Replay(cursor: int, boundary: Event, expected: int)

  datatype Verdict = Skip | Gap | Visit

  function Judge(r: Replay, e: Event): Verdict {
    if e.sequence <= r.cursor then Skip
    else if e.sequence != r.expected || e.sequence > r.boundary.sequence then Gap
    else Visit
  }

  datatype Stage = Live | Awaiting(cursor: int) | Replaying(replay: Replay) | Stopped

  datatype Session = Session(client: ClientState, stage: Stage)

  datatype Call =
    | Broadcast(update: Message)  // BroadcastJSON of a content update
    | Emit(frame: Message)        // presence, typing, results, errors
    | Capture(boundary: Event)    // ReplayBoundary answered
    | Entry(event: Event)         // the next entry of a page
    | Complete                    // EventsAfterSequence returned nil
    | Abort                       // a store error ended the resume

  function Start(cursor: int, limit: nat): Session {
    if cursor > 0 then Session(ReplayBegun(NewClient(limit), cursor), Awaiting(cursor))
    else Session(NewClient(limit), Live)
  }

  function Captured(s: Session, boundary: Event): Session
    requires s.stage.Awaiting?
  {
    var cursor := s.stage.cursor;
    if cursor > boundary.sequence || !s.client.CanWrite() then s.(stage := Stopped)
    else
      Session(Written(s.client, ResumeStarted(cursor, boundary.sequence, boundary.version)),
              Replaying(Replay(cursor, boundary, cursor + 1)))
  }

  function Visited(s: Session, e: Event): Session
    requires s.stage.Replaying?
  {
    var r := s.stage.replay;
    match Judge(r, e)
    case Skip => s
    case Gap => s.(stage := Stopped)
    case Visit =>
      if !s.client.CanWrite() then s.(stage := Stopped)
      else Session(Written(s.client, MessageFromEvent(e)), Replaying(r.(expected := r.expected + 1)))
  }

  function CompleteMessage(r: Replay): Message {
    ResumeComplete(r.cursor, r.boundary.sequence, r.boundary.version, r.expected - 1 - r.cursor)
  }

  ghost function Completed(s: Session): Session
    requires s.stage.Replaying?
  {
    var c := ReplayFinished(s.client, CompleteMessage(s.stage.replay));
    Session(c, if c.replaying then Stopped else Live)
  }

  /** One call; calls that the code cannot make at this stage are ignored. */
  ghost function Serve(s: Session, call: Call): Session {
    match call
    case Broadcast(m) => if m.ContentUpdate? then s.(client := ContentDelivered(s.client, m)) else s
    case Emit(m) => if m.ContentUpdate? then s else s.(client := Written(s.client, m))
    case Capture(b) => if s.stage.Awaiting? then Captured(s, b) else s
    case Entry(e) => if s.stage.Replaying? then Visited(s, e) else s
    case Complete =>
      if s.stage.Replaying? && s.stage.replay.expected > s.stage.replay.boundary.sequence
      then Completed(s) else s
    case Abort => if s.stage.Live? then s else s.(stage := Stopped)
  }

  ghost function ServeAll(s: Session, calls: seq<Call>): Session
    decreases calls
  {
    if calls == [] then s else ServeAll(Serve(s, calls[0]), calls[1..])
  }

  // ---------------------------------------------------------------------
  // The content updates on a wire.

  function Updates(wire: seq<Message>): (r: seq<Message>)
    ensures forall m :: m in r ==> m.ContentUpdate?
  {
    if wire == [] then []
    else if wire[0].ContentUpdate? then [wire[0]] + Updates(wire[1..])
    else Updates(wire[1..])
  }

  lemma {:induction false} UpdatesOfConcat(a: seq<Message>, b: seq<Message>)
    ensures Updates(a + b) == Updates(a) + Updates(b)
  {
    if a == [] {
      assert a + b == b;
    } else {
      assert (a + b)[1..] == a[1..] + b;
      UpdatesOfConcat(a[1..], b);
    }
  }

  lemma UpdatesOfWritten(c: ClientState, m: Message)
    requires c.CanWrite()
    ensures Updates(Written(c, m).wire)
         == if m.ContentUpdate? then Updates(c.wire) + [m] else Updates(c.wire)
  {
    UpdatesOfConcat(c.wire, [m]);
    assert Updates([m]) == if m.ContentUpdate? then [m] else [];
  }

  ghost predicate SequencesAscend(updates: seq<Message>)
    requires forall m :: m in updates ==> m.ContentUpdate?
  {
    forall i, j :: 0 <= i < j < |updates| ==> updates[i].sequence < updates[j].sequence
  }

  ghost predicate NoneAbove(updates: seq<Message>, top: int)
    requires forall m :: m in updates ==> m.ContentUpdate?
  {
    forall i :: 0 <= i < |updates| ==> updates[i].sequence <= top
  }

  // ---------------------------------------------------------------------
  // What the handoff writes.

  /** The buffered messages at `sequences`. */
  ghost function Buffered(pending: map<int, Message>, sequences: seq<int>): (r: seq<Message>)
    requires Held(pending, sequences)
    ensures |r| == |sequences|
    ensures forall i :: 0 <= i < |r| ==> r[i] == pending[sequences[i]]
    decreases sequences
  {
    if sequences == [] then []
    else [pending[sequences[0]]] + Buffered(pending, sequences[1..])
  }

  /** Draining writes a prefix, in order: all of it exactly when the socket
      accepts that many frames, and only then is replay mode left. */
  lemma {:induction false} DrainedEffect(c: ClientState, sequences: seq<int>, n: nat)
    requires Held(c.pending, sequences)
    requires |c.wire| <= c.limit && n == Min(|sequences|, c.limit - |c.wire|)
    ensures var d := Drained(c, sequences);
      && d.wire == c.wire + Buffered(c.pending, sequences[..n])
      && d.limit == c.limit
      && d.lastSequence == (if n == 0 then c.lastSequence else sequences[n - 1])
      && (n == |sequences| ==> !d.replaying && d.pending == map[])
      && (n < |sequences| ==> !d.CanWrite() && d.replaying == c.replaying && d.pending == c.pending)
    decreases sequences
  {
    if sequences != [] && c.CanWrite() {
      var k := sequences[0];
      var c1 := Written(c, c.pending[k]).(lastSequence := k);
      DrainedEffect(c1, sequences[1..], n - 1);
      FirstBuffered(c.pending, sequences, n, c.wire);
    }
  }

  lemma FirstBuffered(pending: map<int, Message>, sequences: seq<int>, n: nat, wire: seq<Message>)
    requires Held(pending, sequences) && 0 < n <= |sequences|
    ensures wire + Buffered(pending, sequences[..n])
         == wire + [pending[sequences[0]]] + Buffered(pending, sequences[1..][..n - 1])
  {
    assert sequences[..n][1..] == sequences[1..][..n - 1];
  }

  // ---------------------------------------------------------------------
  // Wire order without trust in the log or in the broadcaster.

  ghost predicate Ordered(s: Session) {
    var c := s.client;
    var u := Updates(c.wire);
    && Consistent(c)
    && SequencesAscend(u)
    && match s.stage
       case Live => !c.replaying && NoneAbove(u, c.lastSequence)
       case Awaiting(cursor) => c.replaying && c.lastSequence == cursor && u == []
       case Replaying(r) => c.replaying && c.lastSequence == r.cursor && IsRun(u, r)
       case Stopped => c.replaying || !c.CanWrite()
  }

  /** The updates are exactly cursor + 1, ..., expected - 1. */
  ghost predicate IsRun(u: seq<Message>, r: Replay)
    requires forall m :: m in u ==> m.ContentUpdate?
  {
    && r.cursor + 1 + |u| == r.expected <= r.boundary.sequence + 1
    && forall i :: 0 <= i < |u| ==> u[i].sequence == r.cursor + 1 + i
  }

  /** The updates written by a handoff: the replayed ones, then a prefix of the
      buffered ones above the boundary in ascending order. */
  lemma CompletedEffect(s: Session, ks: seq<int>, n: nat)
    requires s.stage.Replaying? && s.client.CanWrite() && s.client.replaying
    requires Consistent(s.client)
    requires ks == KeysAbove(s.client.pending, s.stage.replay.boundary.sequence)
    requires n == Min(|ks|, s.client.limit - |s.client.wire| - 1)
    ensures Held(s.client.pending, ks[..n])
    ensures var d := Completed(s).client;
      && s.client.wire + [CompleteMessage(s.stage.replay)] <= d.wire
      && Updates(d.wire) == Updates(s.client.wire) + Buffered(s.client.pending, ks[..n])
      && Consistent(d)
      && d.lastSequence == (if n == 0 then s.stage.replay.boundary.sequence else ks[n - 1])
      && (n == |ks| ==> !d.replaying && d.pending == map[])
      && (n < |ks| ==> !d.CanWrite() && d.replaying && d.pending == s.client.pending)
  {
    var complete := CompleteMessage(s.stage.replay);
    var c1 := Written(s.client, complete).(lastSequence := complete.latestSequence);
    UpdatesOfWritten(s.client, complete);
    KeysAboveEnumerates(s.client.pending, c1.lastSequence);
    DrainedEffect(c1, ks, n);
    UpdatesOfConcat(c1.wire, Buffered(c1.pending, ks[..n]));
    UpdatesOfUpdates(Buffered(c1.pending, ks[..n]));
  }

  /** A handoff only appends, and announces itself when the socket works. */
  lemma CompletedExtends(s: Session)
    requires s.stage.Replaying? && s.client.replaying && Consistent(s.client)
    ensures Updates(s.client.wire) <= Updates(Completed(s).client.wire)
    ensures s.client.CanWrite() ==> CompleteMessage(s.stage.replay) in Completed(s).client.wire
  {
    if s.client.CanWrite() {
      var ks := KeysAbove(s.client.pending, s.stage.replay.boundary.sequence);
      CompletedEffect(s, ks, Min(|ks|, s.client.limit - |s.client.wire| - 1));
      assert Completed(s).client.wire[|s.client.wire|] == CompleteMessage(s.stage.replay);
    }
  }

  lemma AppendKeepsOrder(u: seq<Message>, b: seq<Message>, ks: seq<int>, top: int)
    requires forall m :: m in u ==> m.ContentUpdate?
    requires SequencesAscend(u) && NoneAbove(u, top)
    requires StrictlyAscending(ks) && |b| <= |ks|
    requires forall i :: 0 <= i < |ks| ==> ks[i] > top
    requires forall i :: 0 <= i < |b| ==> b[i].ContentUpdate? && b[i].sequence == ks[i]
    ensures forall m :: m in u + b ==> m.ContentUpdate?
    ensures SequencesAscend(u + b)
    ensures NoneAbove(u + b, if b == [] then top else ks[|b| - 1])
  {
  }

  lemma BufferedInOrder(c: ClientState, ks: seq<int>, n: nat)
    requires Consistent(c) && n <= |ks| && Held(c.pending, ks[..n])
    ensures var b := Buffered(c.pending, ks[..n]);
      |b| == n && forall i :: 0 <= i < n ==> b[i].ContentUpdate? && b[i].sequence == ks[i]
  {
    var b := Buffered(c.pending, ks[..n]);
    forall i | 0 <= i < n ensures b[i].ContentUpdate? && b[i].sequence == ks[i] {
      assert ks[..n][i] == ks[i] && ks[i] in c.pending;
    }
  }

  /** From what CompletedEffect says of `d`, the client after the handoff. */
  lemma HandoffKeepsOrder(c: ClientState, d: ClientState, ks: seq<int>, n: nat, top: int)
    requires Consistent(c) && SequencesAscend(Updates(c.wire)) && NoneAbove(Updates(c.wire), top)
    requires StrictlyAscending(ks) && (forall i :: 0 <= i < |ks| ==> ks[i] > top)
    requires n <= |ks| && Held(c.pending, ks[..n])
    requires Consistent(d) && Updates(d.wire) == Updates(c.wire) + Buffered(c.pending, ks[..n])
    requires d.lastSequence == if n == 0 then top else ks[n - 1]
    ensures Ordered(Session(d, if d.replaying then Stopped else Live))
  {
    BufferedInOrder(c, ks, n);
    AppendKeepsOrder(Updates(c.wire), Buffered(c.pending, ks[..n]), ks, top);
  }

  lemma CompletedIsOrdered(s: Session)
    requires Ordered(s) && s.stage.Replaying?
    requires s.stage.replay.expected > s.stage.replay.boundary.sequence
    ensures Ordered(Completed(s))
  {
    if s.client.CanWrite() {
      var top := s.stage.replay.boundary.sequence;
      var ks := KeysAbove(s.client.pending, top);
      var n := Min(|ks|, s.client.limit - |s.client.wire| - 1);
      CompletedEffect(s, ks, n);
      KeysAboveEnumerates(s.client.pending, top);
      HandoffKeepsOrder(s.client, Completed(s).client, ks, n, top);
    }
  }

  lemma {:induction false} UpdatesOfUpdates(ms: seq<Message>)
    requires forall i :: 0 <= i < |ms| ==> ms[i].ContentUpdate?
    ensures Updates(ms) == ms
  {
    if ms != [] {
      UpdatesOfUpdates(ms[1..]);
    }
  }

  lemma ServeKeepsOrder(s: Session, call: Call)
    requires Ordered(s)
    ensures Ordered(Serve(s, call))
  {
    var c := s.client;
    match call {
      case Broadcast(m) =>
        if c.CanWrite() { UpdatesOfWritten(c, m); }
      case Emit(m) =>
        if c.CanWrite() { UpdatesOfWritten(c, m); }
      case Capture(b) =>
        if s.stage.Awaiting? && c.CanWrite() {
          UpdatesOfWritten(c, ResumeStarted(s.stage.cursor, b.sequence, b.version));
        }
      case Entry(e) =>
        if c.CanWrite() { UpdatesOfWritten(c, MessageFromEvent(e)); }
      case Complete =>
        if s.stage.Replaying? && s.stage.replay.expected > s.stage.replay.boundary.sequence {
          CompletedIsOrdered(s);
        }
      case Abort =>
    }
  }

  lemma {:induction false} ServeAllKeepsOrder(s: Session, calls: seq<Call>)
    requires Ordered(s)
    ensures Ordered(ServeAll(s, calls))
    decreases calls
  {
    if calls != [] {
      ServeKeepsOrder(s, calls[0]);
      ServeAllKeepsOrder(Serve(s, calls[0]), calls[1..]);
    }
  }

  /** What broadcasts of content updates do to a client. */
  function BroadcastAll(c: ClientState, updates: seq<Message>): ClientState
    requires forall m :: m in updates ==> m.ContentUpdate?
  {
    if updates == [] then c
    else ContentDelivered(BroadcastAll(c, updates[..|updates| - 1]), updates[|updates| - 1])
  }

  /** During replay nothing of them is written, and of several updates with one
      sequence above the cursor the buffer holds the last. */
  lemma {:induction false} LatestIsBuffered(c: ClientState, updates: seq<Message>, k: nat)
    requires c.replaying && forall m :: m in updates ==> m.ContentUpdate?
    requires k < |updates| && updates[k].sequence > c.lastSequence
    requires forall j :: k < j < |updates| ==> updates[j].sequence != updates[k].sequence
    ensures var d := BroadcastAll(c, updates);
      && d.replaying && d.wire == c.wire && d.lastSequence == c.lastSequence
      && updates[k].sequence in d.pending && d.pending[updates[k].sequence] == updates[k]
  {
    BroadcastsAreBuffered(c, updates[..|updates| - 1]);
    if k < |updates| - 1 { LatestIsBuffered(c, updates[..|updates| - 1], k); }
  }

  lemma {:induction false} BroadcastsAreBuffered(c: ClientState, updates: seq<Message>)
    requires c.replaying && forall m :: m in updates ==> m.ContentUpdate?
    ensures var d := BroadcastAll(c, updates);
      d.replaying && d.wire == c.wire && d.lastSequence == c.lastSequence
  {
    if updates != [] { BroadcastsAreBuffered(c, updates[..|updates| - 1]); }
  }

  /** Whatever is broadcast, how often and in which order, before, during or
      after the replay of whatever log, the content updates on one socket carry
      strictly increasing sequences. */
  lemma WireOrder(cursor: int, limit: nat, calls: seq<Call>)
    ensures SequencesAscend(Updates(ServeAll(Start(cursor, limit), calls).client.wire))
  {
    ServeAllKeepsOrder(Start(cursor, limit), calls);
  }
}
