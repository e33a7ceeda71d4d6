// EventsAfterSequence and resumeClient, run against a stream that other
// backends keep changing and a socket that other goroutines keep using.
module Resume {
  import opened Basics
  import opened DocumentLog
  import opened StreamReads
  import opened ClientDelivery
  import opened ReplaySession

  datatype ReplayError = NoError | CursorAhead | StoreError | ReplayGap | WriteError

  /** One room's stream as its readers see it. `lastId` is the last generated
      ID; a log that is trimmed meanwhile (`trims`) may lose entries but never
      reuses an ID. `failures` counts the commands that went unanswered. */
  class RoomStream {
    var stream: seq<Event>
    var lastId: nat
    ghost var failures: nat
    const pageSize: nat
    const trims: bool

    ghost predicate Valid()
      reads this
    {
      pageSize > 0 && IdsIncrease(stream) && LastId(stream) <= lastId
    }

    /** What happens between two commands of one reader. */
    method OtherCommands() returns (ghost dropped: nat, ghost more: seq<Event>)
      requires Valid()
      modifies this`stream, this`lastId
      ensures Valid() && old(lastId) <= lastId
      ensures dropped <= |old(stream)| && (!trims ==> dropped == 0)
      ensures stream == old(stream)[dropped..] + more
      ensures forall e :: e in more ==> e.id > old(lastId)
    {
      dropped, more := 0, [];
      var count: nat := *;
      var appended: seq<Event> := *;
      if trims && 0 <= count <= |stream| {
        dropped := count;
        stream := stream[count..];
      }
      if Appendable(lastId, appended) {
        AppendKeepsIds(stream, lastId, appended);
        more := appended;
        stream := stream + appended;
        lastId := Max(lastId, LastId(appended));
      }
    }

    method XRangeCommand(start: RangeStart, end: nat) returns (reply: Option<seq<Event>>)
      requires Valid() && end <= lastId
      modifies this`stream, this`lastId, this`failures
      ensures Valid() && old(lastId) <= lastId
      ensures !trims ==> old(stream) <= stream
      ensures failures == old(failures) + if reply.None? then 1 else 0
      ensures reply.Some? ==>
        && reply.value == XRange(stream, start, end, pageSize)
        && FromStream(reply.value, stream, end)
      // A nonempty page leaves less to read, whatever was appended meanwhile.
      ensures reply.Some? && reply.value != [] ==>
        |Range(stream, After(LastId(reply.value)), end)| < |Range(old(stream), start, end)|
    {
      ghost var dropped, more := OtherCommands();
      RangeIgnoresAppends(old(stream), dropped, more, start, end);
      var failed: bool := *;
      var page := XRange(stream, start, end, pageSize);
      PageLeavesLess(stream, start, end, pageSize, page);
      reply := if failed then None else Some(page);
      if failed { failures := failures + 1; }
    }

    /** XREAD after a stream ID; when the block runs out the answer is empty. */
    method ReadAfterStreamID(after: nat, count: nat) returns (reply: Option<seq<Event>>)
      requires Valid()
      modifies this`stream, this`lastId, this`failures
      ensures Valid() && (!trims ==> old(stream) <= stream)
      ensures failures == old(failures) + if reply.None? then 1 else 0
      ensures reply.Some? ==> reply.value == XRead(stream, after, count)
    {
      ghost var dropped, more := OtherCommands();
      var failed: bool := *;
      reply := if failed then None else Some(XRead(stream, after, count));
      if failed { failures := failures + 1; }
    }

    method ReplayBoundaryCommand() returns (reply: Option<Event>)
      requires Valid()
      modifies this`stream, this`lastId, this`failures
      ensures Valid() && old(lastId) <= lastId
      ensures !trims ==> old(stream) <= stream
      ensures failures == old(failures) + if reply.None? then 1 else 0
      ensures reply.Some? ==> reply.value == ReplayBoundary(stream)
    {
      ghost var dropped, more := OtherCommands();
      var failed: bool := *;
      reply := if failed then None else Some(ReplayBoundary(stream));
      if failed { failures := failures + 1; }
    }
  }

  lemma PageLeavesLess(stream: seq<Event>, start: RangeStart, end: nat, count: nat, page: seq<Event>)
    requires IdsIncrease(stream) && page == XRange(stream, start, end, count)
    ensures FromStream(page, stream, end)
    ensures page != [] ==> |Range(stream, After(LastId(page)), end)| < |Range(stream, start, end)|
  {
    assert forall e :: e in page ==> e in Range(stream, start, end);
    RangeMembers(stream, start, end);
    if page != [] { PageShrinksRange(stream, start, end, count, page); }
  }

  predicate Appendable(lastId: nat, appended: seq<Event>) {
    && (forall i :: 0 <= i < |appended| ==> appended[i].id > lastId)
    && (forall i, j :: 0 <= i < j < |appended| ==> appended[i].id < appended[j].id)
  }

  lemma AppendKeepsIds(stream: seq<Event>, lastId: nat, appended: seq<Event>)
    requires IdsIncrease(stream) && LastId(stream) <= lastId && Appendable(lastId, appended)
    ensures IdsIncrease(stream + appended)
    ensures LastId(stream + appended) <= Max(lastId, LastId(appended))
    ensures forall e :: e in appended ==> e.id > lastId
  {
    assert forall i :: 0 <= i < |stream| ==> stream[i].id <= LastId(stream);
  }

  function Messages(events: seq<Event>): (r: seq<Message>)
    ensures |r| == |events| && forall i :: 0 <= i < |r| ==> r[i] == MessageFromEvent(events[i])
  {
    seq(|events|, i requires 0 <= i < |events| => MessageFromEvent(events[i]))
  }

  lemma MessagesOfConcat(u: seq<Message>, a: seq<Event>, b: seq<Event>)
    ensures u + Messages(a + b) == u + Messages(a) + Messages(b)
  {
    assert Messages(a + b) == Messages(a) + Messages(b);
  }

  /** The frames tell the browser these entries, field by field. */
  ghost predicate TellsAll(u: seq<Message>, events: seq<Event>) {
    |u| == |events| && forall i :: 0 <= i < |u| ==> Tells(u[i], events[i])
  }

  lemma MessagesTell(events: seq<Event>)
    ensures TellsAll(Messages(events), events)
  {
    forall i | 0 <= i < |events| ensures Tells(Messages(events)[i], events[i]) {
      MessageTells(events[i]);
    }
  }

  lemma RunsJoin(a: seq<Event>, b: seq<Event>, first: int)
    requires IsRunFrom(a, first) && IsRunFrom(b, first + |a|)
    ensures IsRunFrom(a + b, first)
  {
  }

  ghost predicate IsRunFrom(events: seq<Event>, first: int) {
    forall i :: 0 <= i < |events| ==> events[i].sequence == first + i
  }

  /** A frame that carries no content update leaves the updates as they are. */
  method WriteNotice(client: Client, m: Message) returns (ok: bool)
    requires client.Valid() && !m.ContentUpdate?
    modifies client
    ensures client.Valid() && client.State() == Written(old(client.State()), m)
    ensures Updates(client.wire) == old(Updates(client.wire))
    ensures ok <==> old(client.State().CanWrite())
  {
    ghost var before := client.State();
    if before.CanWrite() { UpdatesOfWritten(before, m); }
    ok := client.WriteJSON(m);
  }

  /** A replaying socket on which something happened: nothing written or
      buffered is taken back, and it still replays from the same sequence. */
  ghost predicate Kept(client: Client, last: int, wire: seq<Message>, buffered: set<int>)
    reads client
  {
    && client.Valid() && client.replaying && client.lastSequence == last
    && wire <= client.wire && buffered <= client.pending.Keys
  }

  /** Broadcasts and other writes that reach a replaying socket meanwhile: any
      messages, in any order. They can only be buffered. */
  method LiveTraffic(client: Client)
    requires client.Valid() && client.replaying
    modifies client
    ensures Kept(client, old(client.lastSequence), old(client.wire), old(client.pending.Keys))
    ensures Updates(client.wire) == old(Updates(client.wire))
    ensures old(!client.State().CanWrite()) ==> !client.State().CanWrite()
  {
    var n: nat := *;
    while n > 0
      invariant Kept(client, old(client.lastSequence), old(client.wire), old(client.pending.Keys))
      invariant Updates(client.wire) == old(Updates(client.wire))
      invariant old(!client.State().CanWrite()) ==> !client.State().CanWrite()
    {
      var m: Message := *;
      if m.ContentUpdate? {
        var ok := client.WriteContentUpdate(m);
      } else {
        var ok := WriteNotice(client, m);
      }
      n := n - 1;
    }
  }

  // ---------------------------------------------------------------------
  // One page.

  /** The entries that the cursor does not cover. */
  function Above(events: seq<Event>, cursor: int): seq<Event> {
    if events == [] then []
    else if events[0].sequence <= cursor then Above(events[1..], cursor)
    else [events[0]] + Above(events[1..], cursor)
  }

  lemma {:induction false} AboveOfConcat(a: seq<Event>, b: seq<Event>, cursor: int)
    ensures Above(a + b, cursor) == Above(a, cursor) + Above(b, cursor)
  {
    if a == [] {
      assert a + b == b;
    } else {
      assert (a + b)[1..] == a[1..] + b;
      AboveOfConcat(a[1..], b, cursor);
    }
  }

  lemma {:induction false} AboveMembers(events: seq<Event>, cursor: int)
    ensures forall e :: e in Above(events, cursor) <==> e in events && e.sequence > cursor
  {
    if events != [] {
      AboveMembers(events[1..], cursor);
    }
  }

  lemma AboveOfOne(e: Event, cursor: int)
    ensures Above([e], cursor) == if e.sequence <= cursor then [] else [e]
  {
    assert [e][1..] == [];
  }

  /** Consecutive from `expected`, and none beyond the boundary. */
  ghost predicate Fits(events: seq<Event>, expected: int, boundary: Event) {
    IsRunFrom(events, expected) && |events| <= boundary.sequence + 1 - expected
  }

  /** The entries above the cursor are visited in order, and a gap is reported
      exactly when they do not fit. */
  ghost predicate PageVisited(err: ReplayError, seen: seq<Event>, events: seq<Event>, cursor: int, boundary: Event,
                              expected: int) {
    && seen <= Above(events, cursor) && Fits(seen, expected, boundary)
    && (err.NoError? || err.ReplayGap? || err.WriteError?)
    && (err.NoError? ==> seen == Above(events, cursor))
    && (err.ReplayGap? ==> !Fits(Above(events, cursor), expected, boundary))
  }

  lemma NextOfPage(events: seq<Event>, i: nat, cursor: int)
    requires i < |events|
    ensures Above(events[..i + 1], cursor)
         == Above(events[..i], cursor) + if events[i].sequence <= cursor then [] else [events[i]]
    ensures Above(events[..i + 1], cursor) <= Above(events, cursor)
  {
    assert events[..i + 1] == events[..i] + [events[i]];
    assert events == events[..i + 1] + events[i + 1..];
    AboveOfConcat(events[..i], [events[i]], cursor);
    AboveOfConcat(events[..i + 1], events[i + 1..], cursor);
    AboveOfOne(events[i], cursor);
  }

  lemma EntryDoesNotFit(all: seq<Event>, seen: seq<Event>, event: Event, expected: int, boundary: Event)
    requires seen + [event] <= all
    requires event.sequence != expected + |seen| || event.sequence > boundary.sequence
    ensures !Fits(all, expected, boundary)
  {
    assert all[|seen|] == (seen + [event])[|seen|] == event;
  }

  /** The loop body over one page: `seen` are the entries passed to visit. */
  method VisitPage(events: seq<Event>, lastSequence: int, boundary: Event, expected: int, client: Client)
    returns (err: ReplayError, seen: seq<Event>)
    requires client.Valid() && client.replaying && lastSequence < expected <= boundary.sequence + 1
    modifies client
    ensures Kept(client, old(client.lastSequence), old(client.wire), old(client.pending.Keys))
    ensures Updates(client.wire) == old(Updates(client.wire)) + Messages(seen) && TellsAll(Messages(seen), seen)
    ensures PageVisited(err, seen, events, lastSequence, boundary, expected)
    ensures err.WriteError? ==> !client.State().CanWrite()
  {
    seen := [];
    var next := expected;
    assert Messages(seen) == [];
    for i := 0 to |events|
      invariant Kept(client, old(client.lastSequence), old(client.wire), old(client.pending.Keys))
      invariant seen == Above(events[..i], lastSequence) && Fits(seen, expected, boundary)
      invariant next == expected + |seen|
      invariant Updates(client.wire) == old(Updates(client.wire)) + Messages(seen)
    {
      LiveTraffic(client);
      var event := events[i];
      NextOfPage(events, i, lastSequence);
      MessagesTell(seen);
      if event.sequence <= lastSequence { continue; }
      if event.sequence != next || event.sequence > boundary.sequence {
        EntryDoesNotFit(Above(events, lastSequence), seen, event, expected, boundary);
        return ReplayGap, seen;
      }
      ghost var c := client.State();
      var ok := client.WriteJSON(MessageFromEvent(event));
      if !ok { return WriteError, seen; }
      UpdatesOfWritten(c, MessageFromEvent(event));
      MessagesOfConcat(old(Updates(client.wire)), seen, [event]);
      seen := seen + [event];
      next := next + 1;
    }
    assert events[..|events|] == events;
    MessagesTell(seen);
    err := NoError;
  }

  /** One round of the outer loop: read a page, pass over it, advance the start. */
  method NextPage(s: RoomStream, lastSequence: int, boundary: Event, expected: int, start: RangeStart, client: Client)
    returns (err: ReplayError, seen: seq<Event>, next: RangeStart, ghost page: seq<Event>)
    requires s.Valid() && boundary.id <= s.lastId && client.Valid() && client.replaying
    requires lastSequence < expected <= boundary.sequence
    modifies s`stream, s`lastId, s`failures, client
    ensures s.Valid() && boundary.id <= s.lastId && (!s.trims ==> old(s.stream) <= s.stream)
    ensures Kept(client, old(client.lastSequence), old(client.wire), old(client.pending.Keys))
    ensures Updates(client.wire) == old(Updates(client.wire)) + Messages(seen)
    ensures FromStream(seen, s.stream, boundary.id)
    // The store failed, or it answered with this page.
    ensures s.failures == old(s.failures) + if err.StoreError? then 1 else 0
    ensures if err.StoreError? then seen == []
            else page == XRange(s.stream, start, boundary.id, s.pageSize)
                 && if page == [] then err.ReplayGap? && seen == []
                    else PageVisited(err, seen, page, lastSequence, boundary, expected)
    ensures err.WriteError? ==> !client.State().CanWrite()
    ensures err.NoError? ==> page != [] && next == After(LastId(page))
    ensures err.NoError? ==>
      |Range(s.stream, next, boundary.id)| < |Range(old(s.stream), start, boundary.id)|
  {
    seen, next, page := [], start, [];
    assert Messages(seen) == [];
    var reply := s.XRangeCommand(start, boundary.id);
    if reply.None? { return StoreError, seen, next, page; }
    var events := reply.value;
    page := events;
    if |events| == 0 { return ReplayGap, seen, next, page; }
    AboveMembers(events, lastSequence);
    err, seen := VisitPage(events, lastSequence, boundary, expected, client);
    next := After(LastId(events));
  }

  // ---------------------------------------------------------------------
  // The whole range.

  /** The boundary is entry number m of the log, or the zero event before it. */
  ghost predicate AtBoundary(log: seq<Event>, m: nat, boundary: Event) {
    m <= |log| && boundary == ReplayBoundary(log[..m])
  }

  /** The entries after the cursor are all there, up to the boundary. */
  ghost predicate IsFullRun(events: seq<Event>, cursor: int, boundary: Event) {
    IsRunFrom(events, cursor + 1) && |events| == boundary.sequence - cursor
  }

  /** The first `index` entries have been passed, and those above the cursor visited. */
  ghost predicate Passed(log: seq<Event>, m: nat, index: nat, start: RangeStart, cursor: int, visited: seq<Event>) {
    index <= m <= |log| && start == StartAt(log, index) && visited == Above(log[..index], cursor)
  }

  /** What the loop keeps: everything visited so far has been written after
      `wire`, is a run from the cursor, and comes from the stream; in a log that
      is not trimmed (`whole`) nothing above the cursor has been left out. */
  ghost predicate Replayed(s: RoomStream, client: Client, cursor: int, boundary: Event, wire: seq<Message>,
                           log: seq<Event>, whole: bool, m: nat, visited: seq<Event>)
    reads s, client
  {
    && s.Valid() && boundary.id <= s.lastId
    && Updates(client.wire) == wire + Messages(visited)
    && Fits(visited, cursor + 1, boundary)
    && (!s.trims ==> Seen(visited, log, s.stream, boundary))
    && (whole ==> !s.trims && AtBoundary(log, m, boundary) && visited <= Above(log[..m], cursor))
  }

  lemma PageFollows(log: seq<Event>, stream: seq<Event>, m: nat, boundary: Event, index: nat, count: nat)
    requires IdsIncrease(stream) && log <= stream && index <= m && AtBoundary(log, m, boundary)
    ensures XRange(stream, StartAt(log, index), boundary.id, count)
         == log[index..index + Min(count, m - index)]
  {
    var to := index + Min(count, m - index);
    XRangeIsSlice(stream, index, m, count);
    assert StartAt(log, index) == StartAt(stream, index) && boundary.id == IdAt(stream, m);
    assert stream[index..to] == log[index..to];
  }

  lemma AboveOfNext(log: seq<Event>, index: nat, n: nat, m: nat, cursor: int)
    requires index + n <= m <= |log|
    ensures Above(log[..index + n], cursor) == Above(log[..index], cursor) + Above(log[index..index + n], cursor)
    ensures Above(log[..index + n], cursor) <= Above(log[..m], cursor)
  {
    assert log[..index + n] == log[..index] + log[index..index + n];
    assert log[..m] == log[..index + n] + log[index + n..m];
    AboveOfConcat(log[..index], log[index..index + n], cursor);
    AboveOfConcat(log[..index + n], log[index + n..m], cursor);
  }

  lemma LastOfPage(log: seq<Event>, index: nat, n: nat)
    requires 0 < n && index + n <= |log|
    ensures After(LastId(log[index..index + n])) == StartAt(log, index + n)
  {
  }

  /** A run keeps fitting when it is cut into pages. */
  lemma PartFits(all: seq<Event>, visited: seq<Event>, part: seq<Event>, cursor: int, boundary: Event)
    requires IsFullRun(all, cursor, boundary) && visited + part <= all
    ensures Fits(part, cursor + 1 + |visited|, boundary)
  {
    forall i | 0 <= i < |part| ensures part[i].sequence == cursor + 1 + |visited| + i {
      assert part[i] == (visited + part)[|visited| + i] == all[|visited| + i];
    }
  }

  lemma PrefixSum(a: seq<Event>, b: seq<Event>, c: seq<Event>)
    requires b <= c
    ensures a + b <= a + c
  {
  }

  /** One page of a log that is not trimmed: what it adds, and that a gap is one. */
  lemma PageOfLog(log: seq<Event>, m: nat, boundary: Event, index: nat, n: nat, cursor: int, visited: seq<Event>,
                  err: ReplayError, seen: seq<Event>)
    requires AtBoundary(log, m, boundary) && index + n <= m
    requires Passed(log, m, index, StartAt(log, index), cursor, visited)
    requires n == 0 ==> index == m
    requires cursor + 1 + |visited| <= boundary.sequence
    requires if n == 0 then err.ReplayGap? && seen == []
             else PageVisited(err, seen, log[index..index + n], cursor, boundary, cursor + 1 + |visited|)
    ensures visited + seen <= Above(log[..m], cursor)
    ensures err.ReplayGap? ==> !IsFullRun(Above(log[..m], cursor), cursor, boundary)
    ensures err.NoError? ==> Passed(log, m, index + n, StartAt(log, index + n), cursor, visited + seen)
  {
    var page, all := log[index..index + n], Above(log[..m], cursor);
    AboveOfNext(log, index, n, m, cursor);
    if n == 0 {
      assert visited + seen == visited;
    } else {
      PrefixSum(visited, seen, Above(page, cursor));
      if IsFullRun(all, cursor, boundary) { PartFits(all, visited, Above(page, cursor), cursor, boundary); }
    }
  }

  lemma RoundOfLog(log: seq<Event>, stream: seq<Event>, m: nat, boundary: Event, index: nat, count: nat, cursor: int,
                   visited: seq<Event>, page: seq<Event>, err: ReplayError, seen: seq<Event>)
    requires IdsIncrease(stream) && log <= stream && count > 0 && AtBoundary(log, m, boundary)
    requires index <= m && Passed(log, m, index, StartAt(log, index), cursor, visited)
    requires page == XRange(stream, StartAt(log, index), boundary.id, count)
    requires cursor + 1 + |visited| <= boundary.sequence
    requires if page == [] then err.ReplayGap? && seen == []
             else PageVisited(err, seen, page, cursor, boundary, cursor + 1 + |visited|)
    ensures visited + seen <= Above(log[..m], cursor)
    ensures err.ReplayGap? ==> !IsFullRun(Above(log[..m], cursor), cursor, boundary)
    ensures err.NoError? ==>
      page != [] && Passed(log, m, index + |page|, After(LastId(page)), cursor, visited + seen)
  {
    PageFollows(log, stream, m, boundary, index, count);
    PageOfLog(log, m, boundary, index, |page|, cursor, visited, err, seen);
    if err.NoError? { LastOfPage(log, index, |page|); }
  }

  /** One round of the loop with the bookkeeping of what has been visited. */
  method VisitRound(s: RoomStream, cursor: int, boundary: Event, start: RangeStart, visited: seq<Event>, client: Client,
                    ghost wire: seq<Message>, ghost log: seq<Event>, ghost whole: bool, ghost m: nat, ghost index: nat)
    returns (err: ReplayError, more: seq<Event>, next: RangeStart, ghost passed: nat)
    requires client.Valid() && client.replaying
    requires Replayed(s, client, cursor, boundary, wire, log, whole, m, visited)
    requires cursor + 1 + |visited| <= boundary.sequence
    requires whole ==> Passed(log, m, index, start, cursor, visited)
    modifies s`stream, s`lastId, s`failures, client
    ensures Kept(client, old(client.lastSequence), old(client.wire), old(client.pending.Keys))
    ensures Replayed(s, client, cursor, boundary, wire, log, whole, m, more)
    ensures !err.CursorAhead? && (err.WriteError? ==> !client.State().CanWrite())
    ensures s.failures == old(s.failures) + if err.StoreError? then 1 else 0
    ensures whole && err.ReplayGap? ==> !IsFullRun(Above(log[..m], cursor), cursor, boundary)
    ensures err.NoError? ==>
      && |Range(s.stream, next, boundary.id)| < |Range(old(s.stream), start, boundary.id)|
      && (whole ==> Passed(log, m, passed, next, cursor, more))
  {
    passed := index;
    var expected, seen := cursor + 1 + |visited|, [];
    ghost var before, page := s.stream, [];
    err, seen, next, page := NextPage(s, cursor, boundary, expected, start, client);
    MessagesOfConcat(wire, visited, seen);
    FitsFurther(visited, seen, cursor, boundary);
    if !s.trims { SeenMore(visited, seen, log, before, s.stream, boundary); }
    more := visited + seen;
    if whole && err.StoreError? { assert more == visited; }
    if whole && !err.StoreError? {
      RoundOfLog(log, s.stream, m, boundary, index, s.pageSize, cursor, visited, page, err, seen);
      passed := index + |page|;
    }
  }

  method EventsAfterSequence(s: RoomStream, lastSequence: int, boundary: Event, client: Client, ghost m: nat)
    returns (err: ReplayError, visited: seq<Event>)
    requires s.Valid() && boundary.id <= s.lastId && client.Valid() && client.replaying
    modifies s`stream, s`lastId, s`failures, client
    ensures s.Valid() && Kept(client, old(client.lastSequence), old(client.wire), old(client.pending.Keys))
    // For any stream contents: what is visited, and written, is a contiguous run.
    ensures IsRunFrom(visited, lastSequence + 1)
    ensures !s.trims ==> old(s.stream) <= s.stream && FromStream(visited, s.stream, boundary.id)
    ensures Updates(client.wire) == old(Updates(client.wire)) + Messages(visited)
    ensures TellsAll(Messages(visited), visited)
    // What each answer means.
    ensures err.CursorAhead? <==> lastSequence > boundary.sequence
    ensures !err.CursorAhead? ==> |visited| <= boundary.sequence - lastSequence
    ensures err.NoError? ==> |visited| == boundary.sequence - lastSequence
    ensures err.WriteError? ==> !client.State().CanWrite()
    ensures s.failures == old(s.failures) + if err.StoreError? then 1 else 0
    // In a log that is not trimmed nothing above the cursor is left out, and a
    // gap is only reported when there is one.
    ensures old(!s.trims && AtBoundary(s.stream, m, boundary)) && !err.CursorAhead? ==>
      var all := Above(old(s.stream)[..m], lastSequence);
      && visited <= all
      && (err.ReplayGap? ==> !IsFullRun(all, lastSequence, boundary))
      && (IsFullRun(all, lastSequence, boundary) && s.failures == old(s.failures) && client.State().CanWrite() ==>
            err.NoError? && visited == all)
  {
    visited, err := [], NoError;
    MessagesTell(visited);
    assert Messages(visited) == [];
    if lastSequence > boundary.sequence { return CursorAhead, visited; }
    var expected := lastSequence + 1;
    var start := FromBeginning;

    ghost var log := s.stream;
    ghost var whole := !s.trims && AtBoundary(log, m, boundary);
    ghost var index: nat := 0;  // entries of the log already passed
    ghost var wire := Updates(client.wire);
    assert whole ==> Passed(log, m, 0, start, lastSequence, visited);

    while expected <= boundary.sequence
      invariant Kept(client, old(client.lastSequence), old(client.wire), old(client.pending.Keys))
      invariant Replayed(s, client, lastSequence, boundary, wire, log, whole, m, visited)
      invariant expected == lastSequence + 1 + |visited| && err.NoError? && s.failures == old(s.failures)
      invariant whole ==> Passed(log, m, index, start, lastSequence, visited)
      decreases |Range(s.stream, start, boundary.id)|
    {
      err, visited, start, index :=
        VisitRound(s, lastSequence, boundary, start, visited, client, wire, log, whole, m, index);
      MessagesTell(visited);
      if !err.NoError? { return; }
      expected := lastSequence + 1 + |visited|;
    }
  }

  lemma FitsFurther(visited: seq<Event>, seen: seq<Event>, cursor: int, boundary: Event)
    requires Fits(visited, cursor + 1, boundary) && (seen == [] || Fits(seen, cursor + 1 + |visited|, boundary))
    ensures Fits(visited + seen, cursor + 1, boundary)
  {
    RunsJoin(visited, seen, cursor + 1);
  }

  /** The stream has grown, and the visited entries are in it. */
  ghost predicate Seen(visited: seq<Event>, log: seq<Event>, stream: seq<Event>, boundary: Event) {
    log <= stream && FromStream(visited, stream, boundary.id)
  }

  lemma SeenMore(visited: seq<Event>, seen: seq<Event>, log: seq<Event>, before: seq<Event>, stream: seq<Event>,
                 boundary: Event)
    requires Seen(visited, log, before, boundary) && before <= stream && FromStream(seen, stream, boundary.id)
    ensures Seen(visited + seen, log, stream, boundary)
  {
  }

  ghost predicate FromStream(events: seq<Event>, stream: seq<Event>, end: nat) {
    forall e :: e in events ==> e in stream && e.id <= end
  }

  /** On a contiguous log the entries above a cursor within it are a slice, and a full run. */
  lemma ContiguousIsFullRun(log: seq<Event>, cursor: nat, boundary: Event)
    requires Contiguous(log) && boundary == ReplayBoundary(log) && cursor <= |log|
    ensures AtBoundary(log, |log|, boundary) && boundary.sequence == boundary.version == |log|
    ensures Above(log[..|log|], cursor) == log[cursor..] && IsFullRun(log[cursor..], cursor, boundary)
  {
    assert log[..|log|] == log && log == log[..cursor] + log[cursor..];
    AboveOfConcat(log[..cursor], log[cursor..], cursor);
    NoneAboveIt(log[..cursor], cursor);
    AllAboveIt(log[cursor..], cursor);
  }

  lemma {:induction false} NoneAboveIt(events: seq<Event>, cursor: int)
    requires forall i :: 0 <= i < |events| ==> events[i].sequence <= cursor
    ensures Above(events, cursor) == []
  {
    if events != [] { NoneAboveIt(events[1..], cursor); }
  }

  lemma {:induction false} AllAboveIt(events: seq<Event>, cursor: int)
    requires forall i :: 0 <= i < |events| ==> events[i].sequence > cursor
    ensures Above(events, cursor) == events
  {
    if events != [] { AllAboveIt(events[1..], cursor); }
  }

  // ---------------------------------------------------------------------
  // resumeClient.

  /** The handoff after a run of updates has been written. */
  method Complete(client: Client, replay: Replay, ghost written: seq<Message>) returns (ok: bool)
    requires client.Valid() && client.replaying && client.lastSequence == replay.cursor
    requires Updates(client.wire) == written && ReplaySession.IsRun(written, replay)
    requires replay.expected > replay.boundary.sequence
    modifies client
    ensures client.Valid() && client.State() == ReplayFinished(old(client.State()), CompleteMessage(replay))
    ensures SequencesAscend(Updates(client.wire)) && written <= Updates(client.wire)
    ensures old(client.wire) <= client.wire
    ensures ok ==> !client.replaying && HandedOver(old(client.State()), client.wire, replay)
    ensures !ok ==> !client.State().CanWrite() && client.replaying
  {
    ghost var session := Session(client.State(), Replaying(replay));
    CompletedIsOrdered(session);
    CompletedExtends(session);
    HandoffOutcome(session);
    ok := client.FinishReplay(CompleteMessage(replay));
  }

  /** After the completion frame come exactly the updates buffered above the boundary. */
  ghost predicate HandedOver(before: ClientState, wire: seq<Message>, replay: Replay) {
    var ks := KeysAbove(before.pending, replay.boundary.sequence);
    && before.wire + [CompleteMessage(replay)] <= wire
    && Held(before.pending, ks)
    && Updates(wire) == Updates(before.wire) + Buffered(before.pending, ks)
  }

  lemma HandoffOutcome(s: Session)
    requires s.stage.Replaying? && s.client.replaying && Consistent(s.client)
    ensures s.client.wire <= Completed(s).client.wire
    ensures !Completed(s).client.replaying ==> HandedOver(s.client, Completed(s).client.wire, s.stage.replay)
  {
    if s.client.CanWrite() {
      var ks := KeysAbove(s.client.pending, s.stage.replay.boundary.sequence);
      var n := Min(|ks|, s.client.limit - |s.client.wire| - 1);
      CompletedEffect(s, ks, n);
      assert s.client.wire <= s.client.wire + [CompleteMessage(s.stage.replay)];
      if n == |ks| { assert ks[..n] == ks; }
    }
  }

  /** resume_started comes before every update, and resume_complete directly
      after the replayed ones. */
  ghost predicate Framed(wire: seq<Message>, cursor: int, boundary: Event, visited: seq<Event>, k: nat, l: nat) {
    && k < l < |wire|
    && wire[k] == ResumeStarted(cursor, boundary.sequence, boundary.version) && Updates(wire[..k]) == []
    && wire[l] == ResumeComplete(cursor, boundary.sequence, boundary.version, |visited|)
    && Updates(wire[..l]) == Messages(visited)
  }

  /** resumeClient up to the start frame. `log` is the stream when the boundary was read. */
  method BeginResume(s: RoomStream, client: Client, lastSequence: int)
    returns (err: ReplayError, boundary: Option<Event>, ghost log: seq<Event>, ghost before: seq<Message>)
    requires s.Valid() && client.Valid() && client.replaying && Updates(client.wire) == []
    modifies s`stream, s`lastId, s`failures, client
    ensures s.Valid() && Kept(client, old(client.lastSequence), old(client.wire), old(client.pending.Keys))
    ensures (!s.trims ==> old(s.stream) <= log) && s.stream == log && Updates(client.wire) == []
    ensures err.NoError? || err.StoreError? || err.CursorAhead? || err.WriteError?
    ensures s.failures == old(s.failures) + if err.StoreError? then 1 else 0
    ensures boundary.None? <==> err.StoreError?
    ensures boundary.Some? ==> boundary.value == ReplayBoundary(log)
    ensures err.CursorAhead? <==> boundary.Some? && lastSequence > boundary.value.sequence
    ensures err.WriteError? ==> !client.State().CanWrite()
    ensures err.NoError? ==>
      && Updates(before) == []
      && before + [ResumeStarted(lastSequence, boundary.value.sequence, boundary.value.version)] <= client.wire
  {
    boundary, before := None, [];
    LiveTraffic(client);
    var reply := s.ReplayBoundaryCommand();
    log := s.stream;
    if reply.None? { err := StoreError; return; }
    boundary := reply;
    if lastSequence > boundary.value.sequence { err := CursorAhead; return; }
    LiveTraffic(client);
    before := client.wire;
    var ok := WriteNotice(client, ResumeStarted(lastSequence, boundary.value.sequence, boundary.value.version));
    err := if ok then NoError else WriteError;
  }

  /** The end of resumeClient, with the traffic before it. */
  method HandOver(client: Client, lastSequence: int, boundary: Event, visited: seq<Event>)
    returns (ok: bool, ghost buffered: map<int, Message>, ghost replayed: seq<Message>)
    requires client.Valid() && client.replaying && client.lastSequence == lastSequence
    requires Updates(client.wire) == Messages(visited) && IsRunFrom(visited, lastSequence + 1)
    requires |visited| == boundary.sequence - lastSequence
    modifies client
    ensures client.Valid() && SequencesAscend(Updates(client.wire)) && Messages(visited) <= Updates(client.wire)
    ensures if ok then !client.replaying else client.replaying && !client.State().CanWrite()
    ensures ok ==>
      && old(client.wire) <= replayed && Updates(replayed) == Messages(visited)
      && replayed + [ResumeComplete(lastSequence, boundary.sequence, boundary.version, |visited|)] <= client.wire
      && old(client.pending.Keys) <= buffered.Keys
      && Held(buffered, KeysAbove(buffered, boundary.sequence))
      && Updates(client.wire) == Messages(visited) + Buffered(buffered, KeysAbove(buffered, boundary.sequence))
  {
    LiveTraffic(client);
    var replay := Replay(lastSequence, boundary, lastSequence + 1 + |visited|);
    RunIsReplayed(visited, replay);
    buffered, replayed := client.pending, client.wire;
    ok := Complete(client, replay, Messages(visited));
  }

  /** resumeClient after the start frame. `buffered` is what had been buffered,
      and `replayed` what had been written, when the handoff came. */
  method ReplayAndHandOver(s: RoomStream, client: Client, lastSequence: int, boundary: Event)
    returns (err: ReplayError, visited: seq<Event>, ghost buffered: map<int, Message>, ghost replayed: seq<Message>)
    requires s.Valid() && client.Valid() && client.replaying && Updates(client.wire) == []
    requires client.lastSequence == lastSequence <= boundary.sequence && boundary == ReplayBoundary(s.stream)
    modifies s`stream, s`lastId, s`failures, client
    ensures client.Valid() && SequencesAscend(Updates(client.wire)) && (!s.trims ==> old(s.stream) <= s.stream)
    ensures s.failures == old(s.failures) + if err.StoreError? then 1 else 0
    ensures !err.CursorAhead? && (err.WriteError? ==> !client.State().CanWrite())
    ensures !err.NoError? ==> client.replaying || !client.State().CanWrite()
    ensures IsRunFrom(visited, lastSequence + 1) && TellsAll(Messages(visited), visited)
    ensures Messages(visited) <= Updates(client.wire)
    ensures err.NoError? ==>
      && !client.replaying && |visited| == boundary.sequence - lastSequence
      && old(client.wire) <= replayed && Updates(replayed) == Messages(visited)
      && replayed + [ResumeComplete(lastSequence, boundary.sequence, boundary.version, |visited|)] <= client.wire
      && old(client.pending.Keys) <= buffered.Keys
      && Held(buffered, KeysAbove(buffered, boundary.sequence))
      && Updates(client.wire) == Messages(visited) + Buffered(buffered, KeysAbove(buffered, boundary.sequence))
    ensures old(!s.trims && Contiguous(s.stream)) && 0 <= lastSequence ==>
      && boundary.sequence == boundary.version == old(|s.stream|)
      && !err.ReplayGap? && visited <= old(s.stream)[lastSequence..]
      && (s.failures == old(s.failures) && client.State().CanWrite() ==>
            err.NoError? && visited == old(s.stream)[lastSequence..])
  {
    buffered, replayed := map[], [];
    ghost var log := s.stream;
    if Contiguous(log) && 0 <= lastSequence { ContiguousIsFullRun(log, lastSequence, boundary); }
    assert log[..|log|] == log;
    err, visited := EventsAfterSequence(s, lastSequence, boundary, client, |log|);
    RunAscends(visited, lastSequence + 1);
    if !err.NoError? { return; }
    var ok;
    ok, buffered, replayed := HandOver(client, lastSequence, boundary, visited);
    if !ok { err := WriteError; }
  }

  /** A resume of a freshly registered socket. `log` is the stream when the
      boundary was read, `buffered` what had been buffered when the handoff came. */
  method ResumeClient(s: RoomStream, client: Client, lastSequence: int)
    returns (err: ReplayError, boundary: Option<Event>, visited: seq<Event>,
             ghost log: seq<Event>, ghost buffered: map<int, Message>, ghost k: nat, ghost l: nat)
    requires s.Valid() && client.Valid() && client.replaying
    requires client.lastSequence == lastSequence > 0 && Updates(client.wire) == []
    modifies s`stream, s`lastId, s`failures, client
    ensures client.Valid() && SequencesAscend(Updates(client.wire))
    ensures !s.trims ==> old(s.stream) <= log <= s.stream
    // What each answer means.
    ensures s.failures == old(s.failures) + if err.StoreError? then 1 else 0
    ensures boundary.None? ==> err.StoreError? && visited == []
    ensures boundary.Some? ==> boundary.value == ReplayBoundary(log)
    ensures err.CursorAhead? <==> boundary.Some? && lastSequence > boundary.value.sequence
    ensures err.WriteError? ==> !client.State().CanWrite()
    ensures !err.NoError? ==> client.replaying || !client.State().CanWrite()
    // The replayed run comes first, whatever is broadcast meanwhile.
    ensures IsRunFrom(visited, lastSequence + 1)
    ensures Messages(visited) <= Updates(client.wire) && TellsAll(Messages(visited), visited)
    // Success: the run reached the boundary, the frames are in their places,
    // what was buffered above the boundary follows, and the socket is live.
    ensures err.NoError? ==>
      && !client.replaying
      && boundary.Some? && |visited| == boundary.value.sequence - lastSequence
      && Framed(client.wire, lastSequence, boundary.value, visited, k, l)
      && old(client.pending.Keys) <= buffered.Keys
      && Held(buffered, KeysAbove(buffered, boundary.value.sequence))
      && Updates(client.wire)
         == Messages(visited) + Buffered(buffered, KeysAbove(buffered, boundary.value.sequence))
    // On an undamaged log a cursor within it is resumed from: no gap is
    // reported, and with an answering store and a working socket it succeeds.
    ensures !s.trims && Contiguous(log) && boundary.Some? && !err.CursorAhead? ==>
      && boundary.value.sequence == boundary.value.version == |log|
      && !err.ReplayGap? && visited <= log[lastSequence..]
      && (s.failures == old(s.failures) && client.State().CanWrite() ==> err.NoError? && visited == log[lastSequence..])
  {
    visited, buffered, k, l := [], map[], 0, 0;
    assert Messages(visited) == [];
    MessagesTell(visited);
    ghost var before;
    err, boundary, log, before := BeginResume(s, client, lastSequence);
    if !err.NoError? { return; }
    ghost var replayed;
    err, visited, buffered, replayed := ReplayAndHandOver(s, client, lastSequence, boundary.value);
    if err.NoError? {
      k, l := |before|, |replayed|;
      FramesInPlace(client.wire, before, replayed, lastSequence, boundary.value, visited);
    }
  }

  lemma FramesInPlace(wire: seq<Message>, before: seq<Message>, replayed: seq<Message>, cursor: int, boundary: Event,
                      visited: seq<Event>)
    requires Updates(before) == [] && Updates(replayed) == Messages(visited)
    requires before + [ResumeStarted(cursor, boundary.sequence, boundary.version)] <= replayed
    requires replayed + [ResumeComplete(cursor, boundary.sequence, boundary.version, |visited|)] <= wire
    ensures Framed(wire, cursor, boundary, visited, |before|, |replayed|)
  {
    FrameAt(wire, replayed, ResumeComplete(cursor, boundary.sequence, boundary.version, |visited|));
    PrefixOfPrefix(before + [ResumeStarted(cursor, boundary.sequence, boundary.version)], replayed, wire);
    FrameAt(wire, before, ResumeStarted(cursor, boundary.sequence, boundary.version));
    LongerPrefix(before, ResumeStarted(cursor, boundary.sequence, boundary.version), replayed);
  }

  lemma PrefixOfPrefix(a: seq<Message>, b: seq<Message>, wire: seq<Message>)
    requires a <= b && b <= wire
    ensures a <= wire
  {
  }

  lemma LongerPrefix(before: seq<Message>, frame: Message, replayed: seq<Message>)
    requires before + [frame] <= replayed
    ensures |before| < |replayed|
  {
  }

  lemma FrameAt(wire: seq<Message>, before: seq<Message>, frame: Message)
    requires before + [frame] <= wire
    ensures |before| < |wire| && wire[|before|] == frame && wire[..|before|] == before
  {
    assert wire[|before|] == (before + [frame])[|before|];
  }

  lemma RunIsReplayed(events: seq<Event>, replay: Replay)
    requires IsRunFrom(events, replay.cursor + 1)
    requires replay.cursor + 1 + |events| == replay.expected <= replay.boundary.sequence + 1
    ensures ReplaySession.IsRun(Messages(events), replay)
  {
  }

  lemma RunAscends(events: seq<Event>, first: int)
    requires IsRunFrom(events, first)
    ensures SequencesAscend(Messages(events))
  {
  }
}
