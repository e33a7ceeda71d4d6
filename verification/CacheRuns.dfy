// A backend's cached room in every run: scripts by any backend, three-GET reads
// of any number of handlers interleaved with them, delayed and repeated
// arrivals, and stream events. The room itself is hydrated by such a read.
module CacheRuns {
  import opened Basics
  import opened DocumentLog
  import opened RoomCache

  /** Where a snapshot comes from: a script's reply or a stream event, or the
      GETs of reader `r` at the times t1, t2 and t3. */
  datatype Origin = FromLog | FromRead(r: nat, t1: nat, t2: nat, t3: nat)

  datatype Sighting = Sighting(snapshot: Snapshot, origin: Origin)

  /** A GetSnapshot in progress. */
  datatype Reader =
    | GotContent(content: string, t1: nat)
    | GotVersion(content: string, version: int, t1: nat, t2: nat)

  datatype CacheSystem = CacheSystem(
    doc: Doc, cache: Option<Sighting>, inFlight: set<Sighting>, readers: map<nat, Reader>, time: nat)

  datatype CacheAction =
    | Script(op: Operation, id: nat, own: bool)  // the reply of an own one is on its way
    | GetContent(r: nat)
    | GetVersion(r: nat)
    | GetSequence(r: nat)                        // the read is complete and on its way
    | ReadFails(r: nat)
    | Arrives(s: Sighting)                       // in any order, any time later, also repeatedly
    | StreamEvent(index: nat)

  const START := CacheSystem(DocumentLog.EMPTY, None, {}, map[], 0)

  ghost predicate Enabled(s: CacheSystem, a: CacheAction) {
    match a
    case Script(_, id, _) => id > LastId(s.doc.stream)
    case GetContent(r) => r !in s.readers
    case GetVersion(r) => r in s.readers && s.readers[r].GotContent?
    case GetSequence(r) => r in s.readers && s.readers[r].GotVersion?
    case ReadFails(r) => r in s.readers
    case Arrives(t) => t in s.inFlight && (s.cache.None? ==> t.origin.FromRead?)
    case StreamEvent(index) => s.cache.Some? && index < |s.doc.stream|
  }

  function Merged(cache: Option<Sighting>, t: Sighting): (m: Sighting)
    ensures m.snapshot == if cache.Some? then SnapshotApplied(cache.value.snapshot, t.snapshot) else t.snapshot
  {
    if cache.Some? && t.snapshot.sequence < cache.value.snapshot.sequence then cache.value else t
  }

  function Moved(s: CacheSystem, a: CacheAction): CacheSystem
    requires a.StreamEvent? ==> s.cache.Some? && a.index < |s.doc.stream|
    requires a.GetVersion? ==> a.r in s.readers && s.readers[a.r].GotContent?
    requires a.GetSequence? ==> a.r in s.readers && s.readers[a.r].GotVersion?
  {
    match a
    case Script(op, id, own) =>
      var (d, res) := ApplyScript(s.doc, op, id);
      s.(doc := d, inFlight := s.inFlight + if own then {Sighting(ResultSnapshot(res), FromLog)} else {})
    case GetContent(r) => s.(readers := s.readers[r := GotContent(s.doc.content, s.time)])
    case GetVersion(r) =>
      var g := s.readers[r];
      s.(readers := s.readers[r := GotVersion(g.content, s.doc.version, g.t1, s.time)])
    case GetSequence(r) =>
      var g := s.readers[r];
      var t := Sighting(Snapshot(g.content, g.version, s.doc.sequence), FromRead(r, g.t1, g.t2, s.time));
      s.(readers := s.readers - {r}, inFlight := s.inFlight + {t})
    case ReadFails(r) => s.(readers := s.readers - {r})
    case Arrives(t) => s.(cache := Some(Merged(s.cache, t)))
    case StreamEvent(index) =>
      var e := s.doc.stream[index];
      if e.sequence <= s.cache.value.snapshot.sequence then s
      else s.(cache := Some(Sighting(EventApplied(s.cache.value.snapshot, e), FromLog)))
  }

  ghost function Step(s: CacheSystem, a: CacheAction): CacheSystem
    requires Enabled(s, a)
  {
    Moved(s, a).(time := s.time + 1)
  }

  datatype CacheRun = CacheRun(states: seq<CacheSystem>, actions: seq<CacheAction>)

  ghost predicate ValidRun(run: CacheRun) {
    && |run.states| == |run.actions| + 1
    && run.states[0] == START
    && forall i :: 0 <= i < |run.actions| ==> IsMove(run, i)
  }

  ghost predicate IsMove(run: CacheRun, i: nat)
    requires |run.states| == |run.actions| + 1 && i < |run.actions|
  {
    Enabled(run.states[i], run.actions[i]) && run.states[i + 1] == Step(run.states[i], run.actions[i])
  }

  // ---------------------------------------------------------------------
  // What happens to the document between two times.

  ghost predicate IsCommit(run: CacheRun, i: nat)
    requires ValidRun(run) && i < |run.actions|
  {
    var a := run.actions[i];
    a.Script? && ApplyScript(run.states[i].doc, a.op, a.id).1.accepted
  }

  ghost predicate NoCommit(run: CacheRun, lo: nat, hi: nat)
    requires ValidRun(run) && hi <= |run.actions|
  {
    forall i :: lo <= i < hi ==> !IsCommit(run, i)
  }

  /** The content written by the last commit in the time span, if there is one. */
  ghost function LastWritten(run: CacheRun, lo: nat, hi: nat): Option<string>
    requires ValidRun(run) && hi <= |run.actions|
  {
    if hi <= lo then None
    else if IsCommit(run, hi - 1) then Some(run.actions[hi - 1].op.content)
    else LastWritten(run, lo, hi - 1)
  }

  lemma {:induction false} LogOnRuns(run: CacheRun, i: nat)
    requires ValidRun(run) && i < |run.states|
    ensures LogInvariant(run.states[i].doc) && run.states[i].time == i
  {
    if i > 0 {
      LogOnRuns(run, i - 1);
      assert IsMove(run, i - 1);
      var a := run.actions[i - 1];
      if a.Script? { ApplyKeepsLogInvariant(run.states[i - 1].doc, a.op, a.id); }
    }
  }

  lemma DocMoves(run: CacheRun, i: nat)
    requires ValidRun(run) && i < |run.actions|
    ensures var d, d' := run.states[i].doc, run.states[i + 1].doc;
      if IsCommit(run, i)
      then d.stream < d'.stream && d'.content == run.actions[i].op.content
      else d' == d
  {
    assert IsMove(run, i);
  }

  /** No commit means no growth, and the content is what was written last. */
  lemma {:induction false} DocBetween(run: CacheRun, lo: nat, hi: nat)
    requires ValidRun(run) && lo <= hi <= |run.actions|
    ensures run.states[lo].doc.stream <= run.states[hi].doc.stream
    ensures NoCommit(run, lo, hi) <==> |run.states[lo].doc.stream| == |run.states[hi].doc.stream|
    ensures run.states[hi].doc.content
         == match LastWritten(run, lo, hi) case None => run.states[lo].doc.content case Some(c) => c
    decreases hi
  {
    if lo < hi {
      DocBetween(run, lo, hi - 1);
      DocMoves(run, hi - 1);
      assert NoCommit(run, lo, hi) <==> NoCommit(run, lo, hi - 1) && !IsCommit(run, hi - 1);
    }
  }

  // ---------------------------------------------------------------------
  // Reads.

  /** Reader `r` took its three GETs at these times. */
  ghost predicate IsRead(run: CacheRun, r: nat, t1: nat, t2: nat, t3: nat)
    requires ValidRun(run)
  {
    && t1 < t2 < t3 < |run.actions| && run.actions[t3] == GetSequence(r)
    && r in run.states[t3].readers && run.states[t3].readers[r].GotVersion?
    && run.states[t3].readers[r].t1 == t1 && run.states[t3].readers[r].t2 == t2
  }

  /** No commit between the second and the third GET, and none between the first
      and the second but such as ended with the content the first one got. */
  ghost predicate Undisturbed(run: CacheRun, t1: nat, t2: nat, t3: nat)
    requires ValidRun(run) && t1 < t2 < t3 < |run.actions|
  {
    && NoCommit(run, t2, t3)
    && (LastWritten(run, t1, t2) == None || LastWritten(run, t1, t2) == Some(run.states[t1].doc.content))
  }

  ghost predicate ReaderOk(run: CacheRun, i: nat, g: Reader)
    requires |run.states| > i
  {
    match g
    case GotContent(content, t1) => t1 < i && content == run.states[t1].doc.content
    case GotVersion(content, version, t1, t2) =>
      t1 < t2 < i && content == run.states[t1].doc.content && version == run.states[t2].doc.version
  }

  ghost predicate SightingOk(run: CacheRun, i: nat, s: Sighting)
    requires ValidRun(run) && i < |run.states|
  {
    match s.origin
    case FromLog => Agrees(s.snapshot, run.states[i].doc.stream)
    case FromRead(r, t1, t2, t3) =>
      && IsRead(run, r, t1, t2, t3) && t3 < i
      && s.snapshot == Snapshot(run.states[t1].doc.content, run.states[t2].doc.version, run.states[t3].doc.sequence)
  }

  ghost predicate StateOk(run: CacheRun, i: nat)
    requires ValidRun(run) && i < |run.states|
  {
    var s := run.states[i];
    && (forall r :: r in s.readers ==> ReaderOk(run, i, s.readers[r]))
    && (forall t :: t in s.inFlight ==> SightingOk(run, i, t))
    && (s.cache.Some? ==> SightingOk(run, i, s.cache.value))
  }

  lemma SightingStaysOk(run: CacheRun, i: nat, t: Sighting)
    requires ValidRun(run) && i < |run.actions| && SightingOk(run, i, t)
    ensures SightingOk(run, i + 1, t)
  {
    DocMoves(run, i);
  }

  lemma MoveKeepsOk(run: CacheRun, i: nat)
    requires ValidRun(run) && i < |run.actions| && StateOk(run, i)
    ensures StateOk(run, i + 1)
  {
    var s, s', a := run.states[i], run.states[i + 1], run.actions[i];
    assert IsMove(run, i);
    LogOnRuns(run, i);
    LogOnRuns(run, i + 1);
    forall t | t in s'.inFlight ensures SightingOk(run, i + 1, t) {
      if t in s.inFlight { SightingStaysOk(run, i, t); }
    }
    if s.cache.Some? { SightingStaysOk(run, i, s.cache.value); }
    if a.Arrives? { SightingStaysOk(run, i, a.s); }
  }

  lemma {:induction false} RunsAreOk(run: CacheRun, i: nat)
    requires ValidRun(run) && i < |run.states|
    ensures StateOk(run, i)
  {
    if i > 0 {
      RunsAreOk(run, i - 1);
      MoveKeepsOk(run, i - 1);
    }
  }

  // ---------------------------------------------------------------------
  // The results.

  /** A read agrees with the log exactly when it was not disturbed. */
  lemma ReadAgreesIff(run: CacheRun, i: nat, s: Sighting)
    requires ValidRun(run) && i < |run.states| && SightingOk(run, i, s) && s.origin.FromRead?
    ensures Agrees(s.snapshot, run.states[i].doc.stream) <==> Undisturbed(run, s.origin.t1, s.origin.t2, s.origin.t3)
  {
    var t1, t2, t3 := s.origin.t1, s.origin.t2, s.origin.t3;
    LogOnRuns(run, t2);
    LogOnRuns(run, t3);
    DocBetween(run, t1, t2);
    DocBetween(run, t2, t3);
    DocBetween(run, t3, i);
  }

  /** In every run, at any time: the cached room is right if and only if what it
      last took over was a reply, an event or an undisturbed read. */
  lemma CacheAgreesIff(run: CacheRun, i: nat)
    requires ValidRun(run) && i < |run.states| && run.states[i].cache.Some?
    ensures var s := run.states[i].cache.value;
      Agrees(s.snapshot, run.states[i].doc.stream)
      <==> s.origin.FromLog?
           || (s.origin.FromRead? && IsRead(run, s.origin.r, s.origin.t1, s.origin.t2, s.origin.t3)
               && Undisturbed(run, s.origin.t1, s.origin.t2, s.origin.t3))
  {
    RunsAreOk(run, i);
    if run.states[i].cache.value.origin.FromRead? { ReadAgreesIff(run, i, run.states[i].cache.value); }
  }

  /** Hence, when no read is disturbed, the cache always agrees with the log. */
  lemma CacheAgreement(run: CacheRun, i: nat)
    requires ValidRun(run) && i < |run.states| && run.states[i].cache.Some?
    requires forall r, t1, t2, t3 :: IsRead(run, r, t1, t2, t3) ==> Undisturbed(run, t1, t2, t3)
    ensures Agrees(run.states[i].cache.value.snapshot, run.states[i].doc.stream)
  {
    RunsAreOk(run, i);
    CacheAgreesIff(run, i);
  }

  /** A snapshot of log positions k1 <= k2 <= k3. */
  ghost predicate AtPositions(s: Snapshot, log: seq<Event>, k1: nat, k2: nat, k3: nat) {
    k1 <= k2 <= k3 <= |log| && s == Snapshot(ContentAt(log, k1), k2, k3)
  }

  /** Disturbed or not, content, version and sequence of the cached room are
      those of log positions k1 <= k2 <= k3. */
  lemma CachePositions(run: CacheRun, i: nat) returns (k1: nat, k2: nat, k3: nat)
    requires ValidRun(run) && i < |run.states| && run.states[i].cache.Some?
    ensures AtPositions(run.states[i].cache.value.snapshot, run.states[i].doc.stream, k1, k2, k3)
  {
    RunsAreOk(run, i);
    var s := run.states[i].cache.value;
    match s.origin {
      case FromLog => k1, k2, k3 := s.snapshot.sequence, s.snapshot.sequence, s.snapshot.sequence;
      case FromRead(r, t1, t2, t3) =>
        LogOnRuns(run, t1);
        LogOnRuns(run, t2);
        LogOnRuns(run, t3);
        DocBetween(run, t1, t2);
        DocBetween(run, t2, t3);
        DocBetween(run, t3, i);
        k1, k2, k3 := |run.states[t1].doc.stream|, |run.states[t2].doc.stream|, |run.states[t3].doc.stream|;
    }
  }

  lemma {:induction false} CacheNeverGoesBack(run: CacheRun, i: nat, j: nat)
    requires ValidRun(run) && i <= j < |run.states| && run.states[i].cache.Some?
    ensures run.states[j].cache.Some?
    ensures run.states[i].cache.value.snapshot.sequence <= run.states[j].cache.value.snapshot.sequence
    decreases j
  {
    if i < j {
      CacheNeverGoesBack(run, i, j - 1);
      assert IsMove(run, j - 1);
    }
  }

  // ---------------------------------------------------------------------
  // Repair.

  /** A wrong cache is repaired by exactly two kinds of step: an event with a
      higher sequence, or the arrival of a right snapshot that is not older. */
  lemma RepairedIff(run: CacheRun, i: nat)
    requires ValidRun(run) && i < |run.actions| && run.states[i].cache.Some?
    requires !Agrees(run.states[i].cache.value.snapshot, run.states[i].doc.stream)
    ensures run.states[i + 1].cache.Some?
    ensures var cached, a, log := run.states[i].cache.value.snapshot, run.actions[i], run.states[i].doc.stream;
      Agrees(run.states[i + 1].cache.value.snapshot, run.states[i + 1].doc.stream)
      <==> || (a.StreamEvent? && a.index < |log| && log[a.index].sequence > cached.sequence)
           || (a.Arrives? && a.s.snapshot.sequence >= cached.sequence && Agrees(a.s.snapshot, log))
  {
    assert IsMove(run, i);
    LogOnRuns(run, i);
    LogOnRuns(run, i + 1);
    RunsAreOk(run, i);
    DocMoves(run, i);
    StaysWrong(run, i);
  }

  lemma StaysWrong(run: CacheRun, i: nat)
    requires ValidRun(run) && i < |run.actions| && StateOk(run, i) && run.states[i].cache.Some?
    requires !Agrees(run.states[i].cache.value.snapshot, run.states[i].doc.stream)
    ensures !Agrees(run.states[i].cache.value.snapshot, run.states[i + 1].doc.stream)
  {
    var s := run.states[i].cache.value;
    SightingStaysOk(run, i, s);
    ReadAgreesIff(run, i, s);
    ReadAgreesIff(run, i + 1, s);
  }

  /** The initial read of a room, disturbed by one commit after its first GET. */
  lemma DisturbedRunExists() returns (run: CacheRun)
    ensures ValidRun(run) && |run.actions| == 5 && run.states[5].cache.Some?
    ensures run.states[5].cache.value.snapshot == Snapshot("", 1, 1)
    ensures run.states[5].doc.content == "text" && |run.states[5].doc.stream| == 1
    ensures !Agrees(run.states[5].cache.value.snapshot, run.states[5].doc.stream)
  {
    var op := Operation("text", 0, Reject, "operation", "client", "user");
    var read := Sighting(Snapshot("", 1, 1), FromRead(0, 0, 2, 3));
    var s1 := Step(START, GetContent(0));
    var s2 := Step(s1, Script(op, 1, false));
    var s3 := Step(s2, GetVersion(0));
    var s4 := Step(s3, GetSequence(0));
    assert read in s4.inFlight;
    var s5 := Step(s4, Arrives(read));
    run := CacheRun([START, s1, s2, s3, s4, s5],
                    [GetContent(0), Script(op, 1, false), GetVersion(0), GetSequence(0), Arrives(read)]);
    assert forall i :: 0 <= i < 5 ==> IsMove(run, i);
  }
}
