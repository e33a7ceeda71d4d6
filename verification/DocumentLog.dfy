// The authoritative document state kept in Redis: three string keys and one
// stream, changed only by the apply-operation script.
module DocumentLog {
  import opened Basics

  /** One stream entry. `id` stands for the stream ID: only its order matters. */
  datatype Event = Event(
    id: nat, sequence: int, version: int,
    operationId: string, clientId: string, username: string, content: string)

  datatype Policy = Reject | Accept

  datatype Operation = Operation(
    content: string, baseVersion: int, policy: Policy,
    operationId: string, clientId: string, username: string)

  datatype Reason = NoReason | StaleBaseVersion

  datatype ApplyResult = ApplyResult(
    accepted: bool, reason: Reason, content: string, baseVersion: int,
    previousVersion: int, serverVersion: int, sequence: int,
    streamId: Option<nat>, stale: bool)

  datatype Doc = Doc(content: string, version: int, sequence: int, stream: seq<Event>)

  const EMPTY := Doc("", 0, 0, [])

  function LastId(stream: seq<Event>): nat {
    if stream == [] then 0 else stream[|stream| - 1].id
  }

  /** The script's effect on the keys; `id` is the ID that XADD generates. */
  function ApplyScript(d: Doc, op: Operation, id: nat): (Doc, ApplyResult) {
    var stale := op.baseVersion != d.version;
    if stale && op.policy == Reject then
      (d, ApplyResult(false, StaleBaseVersion, d.content, op.baseVersion,
                      d.version, d.version, d.sequence, None, stale))
    else
      var entry := Event(id, d.sequence + 1, d.version + 1,
                         op.operationId, op.clientId, op.username, op.content);
      (Doc(op.content, d.version + 1, d.sequence + 1, d.stream + [entry]),
       ApplyResult(true, NoReason, op.content, op.baseVersion,
                   d.version, d.version + 1, d.sequence + 1, Some(id), stale))
  }

  function Recreate(d: Doc): Doc {
    d.(content := "", version := 0, sequence := 0)
  }

  ghost predicate IdsIncrease(stream: seq<Event>) {
    && (forall i :: 0 <= i < |stream| ==> stream[i].id > 0)
    && (forall i, j :: 0 <= i < j < |stream| ==> stream[i].id < stream[j].id)
  }

  /** Entry number i carries sequence and version i + 1. */
  ghost predicate Contiguous(stream: seq<Event>) {
    forall i :: 0 <= i < |stream| ==> stream[i].sequence == i + 1 && stream[i].version == i + 1
  }

  ghost predicate LogInvariant(d: Doc) {
    && d.version == d.sequence == |d.stream|
    && IdsIncrease(d.stream)
    && Contiguous(d.stream)
    && d.content == ContentAt(d.stream, |d.stream|)
  }

  /** The document after the first `k` commits. */
  function ContentAt(stream: seq<Event>, k: nat): string
    requires k <= |stream|
  {
    if k == 0 then "" else stream[k - 1].content
  }

  lemma ApplyKeepsLogInvariant(d: Doc, op: Operation, id: nat)
    requires LogInvariant(d) && id > LastId(d.stream)
    ensures LogInvariant(ApplyScript(d, op, id).0)
    ensures d.stream <= ApplyScript(d, op, id).0.stream
  {
    var d' := ApplyScript(d, op, id).0;
    forall i, j | 0 <= i < j < |d'.stream| ensures d'.stream[i].id < d'.stream[j].id {
      if j == |d.stream| && i < j - 1 { assert d.stream[i].id < d.stream[j - 1].id; }
    }
  }

  /** Creating a room is safe exactly when its stream is still empty. */
  lemma RecreateKeepsInvariantIff(d: Doc)
    requires LogInvariant(d)
    ensures LogInvariant(Recreate(d)) <==> d.stream == []
    ensures Recreate(d) == Doc("", 0, 0, d.stream)
  {
  }

  /** The keys of one room, changed in place by the scripts. */
  class RoomKeys {
    var content: string
    var version: int
    var sequence: int
    var stream: seq<Event>

    function State(): Doc
      reads this
    {
      Doc(content, version, sequence, stream)
    }

    /** Missing keys read as the empty string and as zero. */
    constructor ()
      ensures State() == EMPTY
    {
      content, version, sequence, stream := "", 0, 0, [];
    }

    /** Resets the counters and the content, but not the stream. */
    method CreateRoom()
      modifies this
      ensures State() == Recreate(old(State()))
    {
      content := "";
      version := 0;
      sequence := 0;
    }

    /** The body of the apply-operation script, command by command. */
    method Eval(op: Operation, id: nat) returns (r: ApplyResult)
      modifies this
      ensures (State(), r) == ApplyScript(old(State()), op, id)
    {
      var currentVersion := version;
      var currentContent := content;
      var currentSequence := sequence;
      var stale := false;
      if op.baseVersion != currentVersion { stale := true; }
      if stale && op.policy == Reject {
        return ApplyResult(false, StaleBaseVersion, currentContent, op.baseVersion,
                           currentVersion, currentVersion, currentSequence, None, stale);
      }
      var nextVersion := currentVersion + 1;
      sequence := sequence + 1;
      var nextSequence := sequence;
      version := nextVersion;
      content := op.content;
      stream := stream + [Event(id, nextSequence, nextVersion,
                                op.operationId, op.clientId, op.username, op.content)];
      r := ApplyResult(true, NoReason, op.content, op.baseVersion,
                       currentVersion, nextVersion, nextSequence, Some(id), stale);
    }
  }

  // ---------------------------------------------------------------------
  // Runs: any operations, from any backends, under any policies.

  /** docs[i] is the state before the i-th script call, results[i] its reply. */
  datatype Run = Run(docs: seq<Doc>, ops: seq<Operation>, ids: seq<nat>, results: seq<ApplyResult>)

  ghost predicate ValidRun(r: Run) {
    && |r.docs| == |r.ops| + 1 == |r.ids| + 1 == |r.results| + 1
    && r.docs[0] == EMPTY
    && forall i :: 0 <= i < |r.ops| ==> IsCall(r, i)
  }

  ghost predicate IsCall(r: Run, i: nat)
    requires |r.docs| == |r.ops| + 1 == |r.ids| + 1 == |r.results| + 1
    requires i < |r.ops|
  {
    && r.ids[i] > LastId(r.docs[i].stream)
    && (r.docs[i + 1], r.results[i]) == ApplyScript(r.docs[i], r.ops[i], r.ids[i])
  }

  /** In every run version = sequence = stream length and the content is the
      last entry's; the entries are numbered 1, 2, 3, ... */
  lemma {:induction false} LogInvariantOnRuns(r: Run, i: nat)
    requires ValidRun(r) && i < |r.docs|
    ensures LogInvariant(r.docs[i])
  {
    if i > 0 {
      LogInvariantOnRuns(r, i - 1);
      assert IsCall(r, i - 1);
      ApplyKeepsLogInvariant(r.docs[i - 1], r.ops[i - 1], r.ids[i - 1]);
    }
  }

  /** The log only grows, so version and sequence never decrease. */
  lemma {:induction false} LogGrows(r: Run, i: nat, j: nat)
    requires ValidRun(r) && i <= j < |r.docs|
    ensures r.docs[i].stream <= r.docs[j].stream
    ensures r.docs[i].version <= r.docs[j].version
  {
    if i < j {
      LogGrows(r, i, j - 1);
      assert IsCall(r, j - 1);
    }
  }

  /** No acknowledged update is lost: whatever runs afterwards, the log still
      holds the accepted operation, unaltered, at the version it was given;
      under `reject` that version directly follows the base it was written on. */
  lemma AcceptedUpdateIsNeverLost(r: Run, i: nat, j: nat)
    requires ValidRun(r) && i < j < |r.docs| && r.results[i].accepted
    ensures 1 <= r.results[i].serverVersion <= |r.docs[j].stream|
    ensures r.docs[j].stream[r.results[i].serverVersion - 1]
         == Event(r.ids[i], r.results[i].sequence, r.results[i].serverVersion,
                  r.ops[i].operationId, r.ops[i].clientId, r.ops[i].username, r.ops[i].content)
    ensures r.results[i].previousVersion == r.results[i].serverVersion - 1 == r.docs[i].version
    ensures r.ops[i].policy == Reject ==> r.ops[i].baseVersion == r.results[i].serverVersion - 1
  {
    assert IsCall(r, i);
    LogInvariantOnRuns(r, i);
    LogInvariantOnRuns(r, i + 1);
    LogGrows(r, i + 1, j);
  }

  /** Once an operation written on the current version has been accepted, every
      later operation with the same base is stale, and refused under `reject`. */
  lemma SameBaseIsStaleAfterwards(r: Run, i: nat, j: nat)
    requires ValidRun(r) && i < j < |r.ops|
    requires r.ops[i].baseVersion == r.ops[j].baseVersion
    requires r.results[i].accepted && !r.results[i].stale
    ensures r.results[j].stale
    ensures r.ops[j].policy == Reject ==> !r.results[j].accepted
  {
    assert IsCall(r, i) && IsCall(r, j);
    LogGrows(r, i + 1, j);
  }

  /** An operation retried under `reject` with an unchanged base is accepted at
      most once, whatever policies the calls in between use. */
  lemma RetryAcceptedAtMostOnce(r: Run, retries: set<nat>, base: int)
    requires ValidRun(r)
    requires forall i :: i in retries ==>
      i < |r.ops| && r.ops[i].baseVersion == base && r.ops[i].policy == Reject
    ensures |set i | i in retries && r.results[i].accepted| <= 1
  {
    var accepted := set i | i in retries && r.results[i].accepted;
    if accepted != {} {
      var i :| i in accepted;
      forall j | j in accepted ensures j == i {
        assert IsCall(r, i) && IsCall(r, j);
        if i < j { SameBaseIsStaleAfterwards(r, i, j); }
        if j < i { SameBaseIsStaleAfterwards(r, j, i); }
      }
      assert accepted == {i};
    }
  }

  /** A refused operation changes nothing and reports the current state. */
  lemma RefusalReportsCurrentState(d: Doc, op: Operation, id: nat)
    requires LogInvariant(d)
    ensures var (d', res) := ApplyScript(d, op, id);
      && (res.accepted <==> op.policy == Accept || op.baseVersion == |d.stream|)
      && (res.stale <==> op.baseVersion != |d.stream|)
      && (!res.accepted ==> d' == d && res.sequence == |d.stream|
                            && res.content == ContentAt(d.stream, |d.stream|))
  {
  }

  /** In every run each reply describes its call in terms of the log: whether it
      added the entry, at which stream ID, and what the document then holds. */
  lemma ReplyDescribesCall(r: Run, i: nat)
    requires ValidRun(r) && i < |r.ops|
    ensures var before, after, op, res := r.docs[i].stream, r.docs[i + 1].stream, r.ops[i], r.results[i];
      && (res.accepted <==> |after| == |before| + 1) && (!res.accepted <==> after == before)
      && res.streamId == (if res.accepted then Some(LastId(after)) else None)
      && (res.accepted ==> LastId(after) == r.ids[i])
      && res.reason == (if res.accepted then NoReason else StaleBaseVersion)
      && res.baseVersion == op.baseVersion && (res.stale <==> op.baseVersion != |before|)
      && res.previousVersion == |before| && res.serverVersion == res.sequence == |after|
      && res.content == ContentAt(after, |after|)
  {
    assert IsCall(r, i);
    LogInvariantOnRuns(r, i);
    LogInvariantOnRuns(r, i + 1);
  }
}
