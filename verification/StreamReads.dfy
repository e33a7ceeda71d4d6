// What XRANGE, XREAD and XREVRANGE return for one room's stream.
module StreamReads {
  import opened DocumentLog

  /** `-`, or `(` followed by a stream ID: an exclusive start. */
  datatype RangeStart = FromBeginning | After(id: nat)

  predicate InRange(e: Event, start: RangeStart, end: nat) {
    (start.After? ==> e.id > start.id) && e.id <= end
  }

  function Range(stream: seq<Event>, start: RangeStart, end: nat): (r: seq<Event>)
    ensures |r| <= |stream|
  {
    if stream == [] then []
    else
      var rest := Range(stream[1..], start, end);
      if InRange(stream[0], start, end) then [stream[0]] + rest else rest
  }

  /** Exactly the entries within the exclusive start and the inclusive end. */
  lemma {:induction false} RangeMembers(stream: seq<Event>, start: RangeStart, end: nat)
    ensures forall e :: e in Range(stream, start, end) <==> e in stream && InRange(e, start, end)
  {
    if stream != [] {
      RangeMembers(stream[1..], start, end);
    }
  }

  function XRange(stream: seq<Event>, start: RangeStart, end: nat, count: nat): seq<Event> {
    var all := Range(stream, start, end);
    if count < |all| then all[..count] else all
  }

  function XRead(stream: seq<Event>, lastId: nat, count: nat): seq<Event> {
    XRange(stream, After(lastId), LastId(stream), count)
  }

  /** The final entry, or a zero event with ID 0-0 when the stream is empty. */
  function ReplayBoundary(stream: seq<Event>): Event {
    if stream == [] then Event(0, 0, 0, "", "", "", "") else stream[|stream| - 1]
  }

  /** The exclusive start from which exactly the first `index` entries are skipped. */
  function StartAt(stream: seq<Event>, index: nat): RangeStart
    requires index <= |stream|
  {
    if index == 0 then FromBeginning else After(stream[index - 1].id)
  }

  function IdAt(stream: seq<Event>, index: nat): nat
    requires index <= |stream|
  {
    if index == 0 then 0 else stream[index - 1].id
  }

  lemma {:induction false} RangeOfConcat(a: seq<Event>, b: seq<Event>, start: RangeStart, end: nat)
    ensures Range(a + b, start, end) == Range(a, start, end) + Range(b, start, end)
  {
    if a == [] {
      assert a + b == b;
    } else {
      assert (a + b)[1..] == a[1..] + b;
      RangeOfConcat(a[1..], b, start, end);
    }
  }

  lemma {:induction false} RangeOfAll(a: seq<Event>, start: RangeStart, end: nat)
    requires forall e :: e in a ==> InRange(e, start, end)
    ensures Range(a, start, end) == a
  {
    if a != [] {
      RangeOfAll(a[1..], start, end);
    }
  }

  lemma {:induction false} RangeOfNone(a: seq<Event>, start: RangeStart, end: nat)
    requires forall e :: e in a ==> !InRange(e, start, end)
    ensures Range(a, start, end) == []
  {
    if a != [] {
      RangeOfNone(a[1..], start, end);
    }
  }

  lemma SliceMembers(stream: seq<Event>, i: nat, j: nat)
    requires IdsIncrease(stream) && i <= j <= |stream|
    ensures forall e :: e in stream[..i] ==> !InRange(e, StartAt(stream, i), IdAt(stream, j))
    ensures forall e :: e in stream[i..j] ==> InRange(e, StartAt(stream, i), IdAt(stream, j))
    ensures forall e :: e in stream[j..] ==> !InRange(e, StartAt(stream, i), IdAt(stream, j))
  {
    forall e | e in stream[..i] ensures !InRange(e, StartAt(stream, i), IdAt(stream, j)) {
      var k :| 0 <= k < i && stream[k] == e;
    }
  }

  /** With increasing IDs a range read is a slice, and growth past its end
      does not change it. */
  lemma RangeIsSlice(stream: seq<Event>, i: nat, j: nat)
    requires IdsIncrease(stream) && i <= j <= |stream|
    ensures Range(stream, StartAt(stream, i), IdAt(stream, j)) == stream[i..j]
  {
    var start, end := StartAt(stream, i), IdAt(stream, j);
    InThree(stream, i, j);
    SliceMembers(stream, i, j);
    RangeOfThree(stream[..i], stream[i..j], stream[j..], start, end);
  }

  lemma InThree(stream: seq<Event>, i: nat, j: nat)
    requires i <= j <= |stream|
    ensures stream[..i] + stream[i..j] + stream[j..] == stream
  {
  }

  lemma RangeOfThree(a: seq<Event>, b: seq<Event>, c: seq<Event>, start: RangeStart, end: nat)
    requires forall e :: e in a ==> !InRange(e, start, end)
    requires forall e :: e in b ==> InRange(e, start, end)
    requires forall e :: e in c ==> !InRange(e, start, end)
    ensures Range(a + b + c, start, end) == b
  {
    RangeOfConcat(a + b, c, start, end);
    RangeOfConcat(a, b, start, end);
    RangeOfNone(a, start, end);
    RangeOfAll(b, start, end);
    RangeOfNone(c, start, end);
    assert [] + b + [] == b;
  }

  lemma XRangeIsSlice(stream: seq<Event>, i: nat, j: nat, count: nat)
    requires IdsIncrease(stream) && i <= j <= |stream|
    ensures XRange(stream, StartAt(stream, i), IdAt(stream, j), count)
         == stream[i..if i + count < j then i + count else j]
  {
    RangeIsSlice(stream, i, j);
    assert i + count < j ==> stream[i..j][..count] == stream[i..i + count];
  }

  lemma XReadIsSlice(stream: seq<Event>, i: nat, count: nat)
    requires IdsIncrease(stream) && i <= |stream|
    ensures XRead(stream, IdAt(stream, i), count)
         == stream[i..if i + count < |stream| then i + count else |stream|]
  {
    var n := |stream|;
    XRangeIsSlice(stream, i, n, count);
    assert Range(stream, FromBeginning, LastId(stream)) == Range(stream, After(0), LastId(stream)) by {
      RangeOfAll(stream, FromBeginning, LastId(stream));
      RangeOfAll(stream, After(0), LastId(stream));
    }
  }

  lemma {:induction false} NarrowerStart(stream: seq<Event>, wide: RangeStart, narrow: RangeStart, end: nat)
    requires forall e :: InRange(e, narrow, end) ==> InRange(e, wide, end)
    ensures |Range(stream, narrow, end)| <= |Range(stream, wide, end)|
    ensures (exists e :: e in stream && InRange(e, wide, end) && !InRange(e, narrow, end))
        ==> |Range(stream, narrow, end)| < |Range(stream, wide, end)|
  {
    if stream != [] {
      NarrowerStart(stream[1..], wide, narrow, end);
    }
  }

  /** A nonempty page leaves strictly fewer entries between the next exclusive
      start and the boundary. */
  lemma PageShrinksRange(stream: seq<Event>, start: RangeStart, end: nat, count: nat, page: seq<Event>)
    requires IdsIncrease(stream) && page == XRange(stream, start, end, count) && page != []
    ensures |Range(stream, After(page[|page| - 1].id), end)| < |Range(stream, start, end)|
  {
    var last := page[|page| - 1];
    RangeMembers(stream, start, end);
    assert last in Range(stream, start, end);
    NarrowerStart(stream, start, After(last.id), end);
  }

  /** Entries appended past `end`, or lost, never add to a range. */
  lemma RangeIgnoresAppends(stream: seq<Event>, dropped: nat, more: seq<Event>, start: RangeStart, end: nat)
    requires dropped <= |stream| && forall e :: e in more ==> e.id > end
    ensures |Range(stream[dropped..] + more, start, end)| <= |Range(stream, start, end)|
  {
    RangeOfConcat(stream[dropped..], more, start, end);
    RangeOfNone(more, start, end);
    assert stream == stream[..dropped] + stream[dropped..];
    RangeOfConcat(stream[..dropped], stream[dropped..], start, end);
  }
}
