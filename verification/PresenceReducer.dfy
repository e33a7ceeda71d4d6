// The browser's presence reducer over arbitrary incoming JSON.
module PresenceReducer {
  import opened Basics

  datatype Json =
    | Null
    | Bool(b: bool)
    | Number(value: real)
    | NonFinite
    | Text(s: string)
    | List(items: seq<Json>)
    | Object(fields: map<string, Json>)

  datatype PresenceState = PresenceState(revision: int, participants: seq<Json>)

  const INITIAL := PresenceState(-1, [])

  const SAFE_MAX := 0x1F_FFFF_FFFF_FFFF

  /** Property access; anything but an object with that field gives undefined. */
  function Field(j: Json, name: string): Option<Json> {
    if j.Object? && name in j.fields then Some(j.fields[name]) else None
  }

  predicate IsSafeInteger(j: Json) {
    j.Number? && j.value.Floor as real == j.value && -SAFE_MAX <= j.value.Floor <= SAFE_MAX
  }

  predicate IsText(j: Option<Json>) {
    j.Some? && j.value.Text?
  }

  predicate ValidRecord(r: Json) {
    && IsText(Field(r, "connectionId")) && Field(r, "connectionId").value.s != ""
    && IsText(Field(r, "clientId")) && IsText(Field(r, "username"))
    && (Field(r, "instanceId").None? || IsText(Field(r, "instanceId")))
  }

  function ConnectionOf(r: Json): string
    requires ValidRecord(r)
  {
    Field(r, "connectionId").value.s
  }

  /** Every record is valid and no connection occurs twice. */
  ghost predicate ValidRecords(items: seq<Json>) {
    && (forall i :: 0 <= i < |items| ==> ValidRecord(items[i]))
    && forall i, j :: 0 <= i < j < |items| ==> ConnectionOf(items[i]) != ConnectionOf(items[j])
  }

  /** A message that carries a membership, regardless of the current state. */
  ghost predicate WellFormed(m: Json) {
    && Field(m, "type") == Some(Text("presence_update"))
    && Field(m, "presenceRevision").Some? && IsSafeInteger(Field(m, "presenceRevision").value)
    && Field(m, "presenceRevision").value.value.Floor >= 0
    && Field(m, "participants").Some? && Field(m, "participants").value.List?
    && ValidRecords(Field(m, "participants").value.items)
  }

  /** The membership a message carries, if any. */
  ghost function Content(m: Json): (c: Option<PresenceState>)
    ensures c.Some? ==> c.value.revision >= 0
  {
    if WellFormed(m)
    then Some(PresenceState(Field(m, "presenceRevision").value.value.Floor, Field(m, "participants").value.items))
    else None
  }

  /** The newer of the two, the present one on a tie. */
  ghost function Newer(current: PresenceState, c: Option<PresenceState>): PresenceState {
    if c.Some? && c.value.revision > current.revision then c.value else current
  }

  method ApplyPresenceMessage(current: PresenceState, m: Json) returns (next: PresenceState)
    ensures next == Newer(current, Content(m))
  {
    if !m.Object? { return current; }
    var revision := Field(m, "presenceRevision");
    var records := Field(m, "participants");
    if Field(m, "type") != Some(Text("presence_update")) || revision.None? || !revision.value.Number?
      || !IsSafeInteger(revision.value) || revision.value.value.Floor < 0
      || revision.value.value.Floor <= current.revision
      || records.None? || !records.value.List? {
      return current;
    }
    var items := records.value.items;
    var participants: seq<Json> := [];
    var connections: set<string> := {};
    for i := 0 to |items|
      invariant participants == items[..i]
      invariant ValidRecords(participants)
      invariant connections == set j | 0 <= j < i :: ConnectionOf(participants[j])
    {
      var record := items[i];
      if !ValidRecord(record) || ConnectionOf(record) in connections {
        InvalidRecords(items, i);
        return current;
      }
      connections := connections + {ConnectionOf(record)};
      participants := participants + [record];
    }
    assert items[..|items|] == items;
    next := PresenceState(revision.value.value.Floor, participants);
  }

  /** One bad or repeated record spoils the whole list. */
  lemma InvalidRecords(items: seq<Json>, i: nat)
    requires i < |items| && ValidRecords(items[..i])
    requires !ValidRecord(items[i]) || exists j :: 0 <= j < i && ConnectionOf(items[..i][j]) == ConnectionOf(items[i])
    ensures !ValidRecords(items)
  {
    if ValidRecord(items[i]) {
      var j :| 0 <= j < i && ConnectionOf(items[..i][j]) == ConnectionOf(items[i]);
      assert items[..i][j] == items[j];
    }
  }

  // ---------------------------------------------------------------------
  // Which messages carry a membership, on the raw fields.

  function CountJson(n: nat): Json {
    Number(n as real)
  }

  ghost predicate IsCount(j: Json) {
    exists n: nat :: n <= 0x1F_FFFF_FFFF_FFFF && j == CountJson(n)
  }

  ghost predicate HasText(j: Json, name: string) {
    j.Object? && name in j.fields && exists s: string :: j.fields[name] == Text(s)
  }

  ghost predicate IsMember(j: Json) {
    && HasText(j, "connectionId") && j.fields["connectionId"] != Text("")
    && HasText(j, "clientId") && HasText(j, "username")
    && ("instanceId" in j.fields ==> HasText(j, "instanceId"))
  }

  ghost predicate AreMembers(items: seq<Json>) {
    && (forall i :: 0 <= i < |items| ==> IsMember(items[i]))
    && forall i, j :: 0 <= i < j < |items| ==> items[i].fields["connectionId"] != items[j].fields["connectionId"]
  }

  lemma CountIff(j: Json)
    ensures IsCount(j) <==> IsSafeInteger(j) && j.value.Floor >= 0
    ensures IsCount(j) ==> j.value.Floor >= 0 && j == CountJson(j.value.Floor)
  {
    if IsSafeInteger(j) && j.value.Floor >= 0 {
      var n: nat := j.value.Floor;
      assert j == CountJson(n);
    }
    if IsCount(j) {
      var n: nat :| n <= 0x1F_FFFF_FFFF_FFFF && j == CountJson(n);
      assert (n as real).Floor == n;
    }
  }

  lemma MemberIff(j: Json)
    ensures IsMember(j) <==> ValidRecord(j)
    ensures IsMember(j) ==> j.fields["connectionId"] == Text(ConnectionOf(j))
  {
    if ValidRecord(j) {
      assert j.fields["connectionId"] == Text(j.fields["connectionId"].s);
      assert j.fields["clientId"] == Text(j.fields["clientId"].s);
      assert j.fields["username"] == Text(j.fields["username"].s);
      if "instanceId" in j.fields { assert j.fields["instanceId"] == Text(j.fields["instanceId"].s); }
    }
  }

  lemma MembersIff(items: seq<Json>)
    ensures AreMembers(items) <==> ValidRecords(items)
  {
    forall i | 0 <= i < |items|
      ensures IsMember(items[i]) <==> ValidRecord(items[i])
      ensures IsMember(items[i]) ==> items[i].fields["connectionId"] == Text(ConnectionOf(items[i]))
    {
      MemberIff(items[i]);
    }
  }

  /** Exactly these messages carry a membership: a presence update with a safe
      nonnegative revision and a list of members on distinct connections. */
  lemma CarriesIff(m: Json)
    ensures Content(m).Some? <==>
      && m.Object?
      && "type" in m.fields && m.fields["type"] == Text("presence_update")
      && "presenceRevision" in m.fields && IsCount(m.fields["presenceRevision"])
      && "participants" in m.fields && m.fields["participants"].List?
      && AreMembers(m.fields["participants"].items)
    ensures Content(m).Some? ==>
      && m.fields["presenceRevision"] == CountJson(Content(m).value.revision)
      && m.fields["participants"] == List(Content(m).value.participants)
  {
    if m.Object? && "presenceRevision" in m.fields { CountIff(m.fields["presenceRevision"]); }
    if m.Object? && "participants" in m.fields && m.fields["participants"].List? {
      MembersIff(m.fields["participants"].items);
    }
  }

  // ---------------------------------------------------------------------
  // What the backend sends.

  datatype Member = Member(connectionId: string, clientId: string, username: string, instanceId: string)

  function RecordJson(p: Member): Json {
    Object(map["connectionId" := Text(p.connectionId), "clientId" := Text(p.clientId),
               "username" := Text(p.username), "instanceId" := Text(p.instanceId)])
  }

  function RecordsJson(ps: seq<Member>): (items: seq<Json>)
    ensures |items| == |ps| && forall i :: 0 <= i < |items| ==> items[i] == RecordJson(ps[i])
  {
    seq(|ps|, i requires 0 <= i < |ps| => RecordJson(ps[i]))
  }

  function FrameJson(revision: nat, ps: seq<Member>): Json {
    Object(map["type" := Text("presence_update"), "presenceRevision" := CountJson(revision),
               "participants" := List(RecordsJson(ps))])
  }

  predicate OnDistinctConnections(ps: seq<Member>) {
    forall i, j :: 0 <= i < j < |ps| ==> ps[i].connectionId != ps[j].connectionId
  }

  lemma RecordIsMember(p: Member)
    ensures RecordJson(p).fields["connectionId"] == Text(p.connectionId)
    ensures IsMember(RecordJson(p)) <==> p.connectionId != ""
  {
    var r := RecordJson(p);
    assert "clientId"[0] != "username"[0];
    assert r.fields["connectionId"] == Text(p.connectionId) && r.fields["clientId"] == Text(p.clientId);
    assert r.fields["username"] == Text(p.username) && r.fields["instanceId"] == Text(p.instanceId);
  }

  lemma RecordsAreMembers(ps: seq<Member>)
    ensures AreMembers(RecordsJson(ps)) <==>
      (forall i :: 0 <= i < |ps| ==> ps[i].connectionId != "") && OnDistinctConnections(ps)
  {
    forall i | 0 <= i < |ps|
      ensures RecordsJson(ps)[i].fields["connectionId"] == Text(ps[i].connectionId)
      ensures IsMember(RecordsJson(ps)[i]) <==> ps[i].connectionId != ""
    {
      RecordIsMember(ps[i]);
    }
  }

  /** A backend's frame replaces an older state exactly when its members are on
      distinct, nonempty connections; client IDs and names may repeat. */
  lemma BackendFrameIff(current: PresenceState, revision: nat, ps: seq<Member>)
    requires revision <= 0x1F_FFFF_FFFF_FFFF && revision > current.revision
    ensures Newer(current, Content(FrameJson(revision, ps))) == PresenceState(revision, RecordsJson(ps)) <==>
      (forall i :: 0 <= i < |ps| ==> ps[i].connectionId != "") && OnDistinctConnections(ps)
  {
    var m := FrameJson(revision, ps);
    CarriesIff(m);
    RecordsAreMembers(ps);
    assert m.fields["type"] == Text("presence_update") && m.fields["participants"] == List(RecordsJson(ps));
    assert m.fields["presenceRevision"] == CountJson(revision);
    assert IsCount(m.fields["presenceRevision"]);
    if Content(m).Some? { SameFloor(revision, Content(m).value.revision); }
  }

  lemma SameFloor(m: nat, n: int)
    ensures m as real == n as real ==> m == n
  {
  }

  // ---------------------------------------------------------------------
  // Many messages.

  /** The state after a list of messages. */
  ghost function ReduceAll(ms: seq<Json>): PresenceState {
    if ms == [] then INITIAL else Newer(ReduceAll(ms[..|ms| - 1]), Content(ms[|ms| - 1]))
  }

  ghost function Contents(ms: seq<Json>): (cs: seq<Option<PresenceState>>)
    ensures |cs| == |ms| && forall i :: 0 <= i < |cs| ==> cs[i] == Content(ms[i])
  {
    seq(|ms|, i requires 0 <= i < |ms| => Content(ms[i]))
  }

  /** The first message of the highest revision among those that carry one. */
  ghost predicate Wins(cs: seq<Option<PresenceState>>, k: nat) {
    && k < |cs| && cs[k].Some?
    && forall j :: 0 <= j < |cs| && cs[j].Some? ==>
        && cs[j].value.revision <= cs[k].value.revision
        && (j < k ==> cs[j].value.revision < cs[k].value.revision)
  }

  ghost predicate NoneCarries(cs: seq<Option<PresenceState>>) {
    forall j :: 0 <= j < |cs| ==> cs[j].None?
  }

  lemma WinnerAfter(cs: seq<Option<PresenceState>>, c: Option<PresenceState>, k: nat)
    requires Wins(cs, k)
    ensures if c.Some? && c.value.revision > cs[k].value.revision then Wins(cs + [c], |cs|) else Wins(cs + [c], k)
  {
  }

  /** Folding any message list gives the first well-formed message of the
      highest revision, or the initial state when there is none. */
  lemma {:induction false} FoldIsFirstOfHighest(ms: seq<Json>) returns (k: nat)
    ensures NoneCarries(Contents(ms)) ==> ReduceAll(ms) == INITIAL
    ensures !NoneCarries(Contents(ms)) ==>
      Wins(Contents(ms), k) && Some(ReduceAll(ms)) == Content(ms[k])
  {
    k := 0;
    if ms != [] {
      var n: nat := |ms| - 1;
      var before, last := ms[..n], Content(ms[n]);
      k := FoldIsFirstOfHighest(before);
      assert Contents(ms) == Contents(before) + [last];
      if NoneCarries(Contents(before)) {
        if last.Some? { k := n; }
      } else {
        WinnerAfter(Contents(before), last, k);
        if last.Some? && last.value.revision > Content(ms[k]).value.revision { k := n; }
      }
    }
  }

  /** Equal revisions carry equal memberships, as the server's do. */
  ghost predicate Consistent(cs: seq<Option<PresenceState>>) {
    forall i, j :: 0 <= i < |cs| && 0 <= j < |cs| && cs[i].Some? && cs[j].Some? ==>
      (cs[i].value.revision == cs[j].value.revision ==> cs[i] == cs[j])
  }

  lemma SameWinner(a: seq<Option<PresenceState>>, b: seq<Option<PresenceState>>, k: nat, l: nat)
    requires Consistent(a) && Wins(a, k) && Wins(b, l)
    requires a[k] in b && b[l] in a
    ensures a[k] == b[l]
  {
  }

  lemma SameContents(a: seq<Json>, b: seq<Json>)
    requires forall m :: m in a ==> m in b
    ensures forall i :: 0 <= i < |a| ==> Contents(a)[i] in Contents(b)
  {
    forall i | 0 <= i < |a| ensures Contents(a)[i] in Contents(b) {
      assert a[i] in b;
      var j :| 0 <= j < |b| && b[j] == a[i];
      assert Contents(b)[j] == Contents(a)[i];
    }
  }

  /** Then reordering and repeating messages does not change where a browser ends up. */
  lemma OrderDoesNotMatter(a: seq<Json>, b: seq<Json>)
    requires Consistent(Contents(a)) && forall m :: m in a <==> m in b
    ensures ReduceAll(a) == ReduceAll(b)
  {
    var k := FoldIsFirstOfHighest(a);
    var l := FoldIsFirstOfHighest(b);
    SameContents(a, b);
    SameContents(b, a);
    var cs, ds := Contents(a), Contents(b);
    if !NoneCarries(cs) {
      assert cs[k] in ds && cs[k].Some?;
      assert !NoneCarries(ds);
      SameWinner(cs, ds, k, l);
    }
  }
}
