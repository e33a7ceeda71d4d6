// The test server's incremental command parser: bytes arrive in chunks of any
// size, commands come out. Headers are read by JavaScript's Number, which
// accepts more than lengths; Buffer.subarray then counts from the end.
module JsAccumulator {
  import opened Basics
  import opened Bytes
  import opened Resp
  import Utf8

  const SAFE_MAX := 0x1F_FFFF_FFFF_FFFF

  /** A JavaScript number: its floor, and whether it is that whole number or
      lies above it. Infinities are left out. */
  datatype JsNumber = NaN | Num(floor: int, whole: bool)

  function Int(n: int): JsNumber {
    Num(n, true)
  }

  /** The header texts that denote numbers, with their values. */
  type Numbers = imap<Text, JsNumber>

  /** Number(bytes.toString()) */
  function Number(numbers: Numbers, t: Text): JsNumber {
    if t in numbers then numbers[t] else NaN
  }

  /** All that is assumed about Number: decimals have their value, a minus sign
      negates it, and what begins with a dollar sign or is just x is no number. */
  ghost predicate IsNumber(numbers: Numbers) {
    && (forall t :: AllDigits(t) && Value(t) <= SAFE_MAX ==> Number(numbers, t) == Int(Value(t)))
    && (forall t :: t != [] && AllDigits(t) && Value(t) <= SAFE_MAX ==>
          Number(numbers, [MINUS] + t) == Int(-(Value(t) as int)))
    && (forall t :: t != [] && t[0] == DOLLAR ==> Number(numbers, t) == NaN)
    && Number(numbers, [LETTER_X]) == NaN
  }

  const LETTER_X: Byte := 120

  predicate IsDecimal(t: Text) {
    AllDigits(t) && Value(t) <= SAFE_MAX
  }

  predicate IsNegated(t: Text) {
    |t| > 1 && t[0] == MINUS && IsDecimal(t[1..])
  }

  function DecimalOnly(t: Text): JsNumber {
    if IsDecimal(t) then Int(Value(t))
    else if IsNegated(t) then Int(-(Value(t[1..]) as int))
    else NaN
  }

  lemma NegatedIsRead(t: Text)
    requires t != [] && IsDecimal(t)
    ensures DecimalOnly([MINUS] + t) == Int(-(Value(t) as int))
  {
    var u := [MINUS] + t;
    assert u[1..] == t && !IsDigit(u[0]);
  }

  lemma NothingIsRead(t: Text)
    requires t != [] && (t[0] == DOLLAR || t[0] == LETTER_X)
    ensures DecimalOnly(t) == NaN
  {
    assert !IsDigit(t[0]);
  }

  /** The assumptions can be met: by the function that knows no other numbers. */
  lemma NumbersExist() returns (numbers: Numbers)
    ensures IsNumber(numbers)
  {
    numbers := imap t: Text | true :: DecimalOnly(t);
    assert forall t :: Number(numbers, t) == DecimalOnly(t);
    forall t: Text | t != [] && AllDigits(t) && Value(t) <= SAFE_MAX
      ensures Number(numbers, [MINUS] + t) == Int(-(Value(t) as int))
    {
      NegatedIsRead(t);
    }
    forall t: Text | t != [] && t[0] == DOLLAR ensures Number(numbers, t) == NaN {
      NothingIsRead(t);
    }
    NothingIsRead([LETTER_X]);
  }

  function Plus(a: JsNumber, n: int): JsNumber {
    match a case NaN => NaN case Num(floor, whole) => Num(floor + n, whole)
  }

  /** n < a */
  predicate Less(n: int, a: JsNumber) {
    a.Num? && (n < a.floor || (n == a.floor && !a.whole))
  }

  /** Rounding towards zero. */
  function Trunc(a: JsNumber): int
    requires a.Num?
  {
    if a.whole || a.floor >= 0 then a.floor else a.floor + 1
  }

  /** A finite number in this representation. */
  function OfReal(x: real): JsNumber {
    Num(x.Floor, x.Floor as real == x)
  }

  /** These are the comparisons, sums and roundings of the numbers themselves. */
  lemma LikeReals(x: real, n: int)
    ensures Less(n, OfReal(x)) <==> n as real < x
    ensures Trunc(OfReal(x)) == if x >= 0.0 then x.Floor else -((-x).Floor)
    ensures Int(n) == OfReal(n as real)
  {
  }

  lemma PlusLikeReals(x: real, n: int)
    ensures Plus(OfReal(x), n) == OfReal(x + n as real)
  {
  }

  /** A position in a buffer of length n: negative ones count from its end. */
  function Clamp(p: JsNumber, n: nat): (k: nat)
    ensures k <= n
  {
    if p.NaN? then 0
    else
      var t := Trunc(p);
      if t < 0 then (if n + t < 0 then 0 else n + t) else if t < n then t else n
  }

  /** buffer.subarray(start, end) */
  function Subarray(b: Text, start: JsNumber, end: JsNumber): Text {
    var lo, hi := Clamp(start, |b|), Clamp(end, |b|);
    if hi < lo then [] else b[lo..hi]
  }

  /** The index that buffer[offset] reads, if it is one. */
  function AsIndex(offset: JsNumber, n: nat): (k: Option<nat>)
    ensures k.Some? ==> k.value < n && offset == Int(k.value)
  {
    if offset.Num? && offset.whole && 0 <= offset.floor < n then Some(offset.floor) else None
  }

  /** buffer.indexOf("\r\n", from) */
  function IndexOfCRLF(b: Text, from: nat): (r: Option<nat>)
    ensures r.Some? ==> from <= r.value && r.value + 1 < |b| && b[r.value] == CR && b[r.value + 1] == LF
    decreases |b| - from
  {
    if from + 1 >= |b| then None
    else if b[from] == CR && b[from + 1] == LF then Some(from)
    else IndexOfCRLF(b, from + 1)
  }

  lemma {:induction false} FirstCRLF(b: Text, from: nat, k: nat)
    requires from <= k && k + 1 < |b| && b[k] == CR && b[k + 1] == LF
    requires forall i :: from <= i < k ==> b[i] != CR
    ensures IndexOfCRLF(b, from) == Some(k)
    decreases k - from
  {
    if from < k { FirstCRLF(b, from + 1, k); }
  }

  datatype Argument = Missing | Argument(length: JsNumber, payload: Text, next: JsNumber)

  /** One turn of the argument loop: a `$` header, its payload and two bytes. */
  function NextArgument(numbers: Numbers, b: Text, offset: JsNumber): Argument {
    match AsIndex(offset, |b|)
    case None => Missing
    case Some(k) =>
      if b[k] != DOLLAR then Missing
      else
        match IndexOfCRLF(b, k)
        case None => Missing
        case Some(lenEnd) =>
          Payload(b, lenEnd + 2, Number(numbers, b[k + 1..lenEnd]))
  }

  function Payload(b: Text, dataStart: nat, length: JsNumber): Argument {
    var dataEnd := Plus(length, dataStart);
    if Less(|b|, Plus(dataEnd, 2)) then Missing
    else Argument(length, Subarray(b, Int(dataStart), dataEnd), Plus(dataEnd, 2))
  }

  /** Turns of a loop that counts up from zero while below `count`. */
  function Rounds(count: JsNumber): nat {
    if count.NaN? || count.floor < 0 then 0 else if count.whole then count.floor else count.floor + 1
  }

  lemma RoundsCount(i: nat, count: JsNumber)
    ensures Less(i, count) <==> i < Rounds(count)
  {
  }

  /** The payloads of a command; they are decoded when it is handed on. */
  datatype Parsed = Incomplete | Command(args: seq<Text>, consumed: JsNumber)

  function ParseArgs(numbers: Numbers, b: Text, offset: JsNumber, count: nat,
                     args: seq<Text>): Parsed
    decreases count
  {
    if count == 0 then Command(args, offset)
    else
      match NextArgument(numbers, b, offset)
      case Missing => Incomplete
      case Argument(_, payload, next) => ParseArgs(numbers, b, next, count - 1, args + [payload])
  }

  function TryParse(numbers: Numbers, b: Text): Parsed {
    if b == [] || b[0] != STAR then Incomplete
    else
      match IndexOfCRLF(b, 0)
      case None => Incomplete
      case Some(lineEnd) =>
        ParseArgs(numbers, b, Int(lineEnd + 2), Rounds(Number(numbers, b[1..lineEnd])), [])
  }

  lemma NextRound(numbers: Numbers, b: Text, offset: JsNumber, count: nat, args: seq<Text>)
    requires count > 0
    ensures ParseArgs(numbers, b, offset, count, args)
         == match NextArgument(numbers, b, offset)
            case Missing => Incomplete
            case Argument(_, payload, next) => ParseArgs(numbers, b, next, count - 1, args + [payload])
  {
  }

  /** The argument loop. */
  method ParseArguments(numbers: Numbers, b: Text, start: JsNumber, rounds: nat) returns (p: Parsed)
    ensures p == ParseArgs(numbers, b, start, rounds, [])
  {
    var offset := start;
    var args: seq<Text> := [];
    for i := 0 to rounds
      invariant ParseArgs(numbers, b, offset, rounds - i, args) == ParseArgs(numbers, b, start, rounds, [])
    {
      var argument := NextArgument(numbers, b, offset);
      NextRound(numbers, b, offset, rounds - i, args);
      if argument.Missing? { return Incomplete; }
      args := args + [argument.payload];
      offset := argument.next;
    }
    p := Command(args, offset);
  }

  method TryParseCommand(numbers: Numbers, b: Text) returns (p: Parsed)
    ensures p == TryParse(numbers, b)
  {
    if |b| == 0 || b[0] != STAR { return Incomplete; }
    var firstLineEnd := IndexOfCRLF(b, 0);
    if firstLineEnd.None? { return Incomplete; }
    var count := Number(numbers, b[1..firstLineEnd.value]);
    p := ParseArguments(numbers, b, Int(firstLineEnd.value + 2), Rounds(count));
  }

  /** What toString makes of the payloads. */
  function Decoded(args: seq<Text>): (r: seq<seq<Utf8.Scalar>>)
    ensures |r| == |args| && forall i :: 0 <= i < |r| ==> r[i] == Utf8.Decode(args[i])
  {
    seq(|args|, i requires 0 <= i < |args| => Utf8.Decode(args[i]))
  }

  /** Unread bytes and commands handed on so far; `Hung` is a handler that
      recognises its last command over and over without consuming a byte. */
  datatype Connection =
    | Reading(buffer: Text, commands: seq<seq<seq<Utf8.Scalar>>>)
    | Hung(commands: seq<seq<seq<Utf8.Scalar>>>)

  const FRESH := Reading([], [])

  function Rest(b: Text, consumed: JsNumber): (r: Text)
    ensures |r| <= |b|
    ensures |r| == |b| ==> r == b
  {
    Subarray(b, consumed, Int(|b|))
  }

  function Drain(numbers: Numbers, c: Connection): Connection
    decreases if c.Reading? then |c.buffer| else 0
  {
    if c.Hung? then c
    else
      match TryParse(numbers, c.buffer)
      case Incomplete => c
      case Command(args, consumed) =>
        var rest := Rest(c.buffer, consumed);
        if |rest| == |c.buffer| then Hung(c.commands + [Decoded(args)])
        else Drain(numbers, Reading(rest, c.commands + [Decoded(args)]))
  }

  function OnChunk(numbers: Numbers, c: Connection, chunk: Text): Connection {
    if c.Hung? then c else Drain(numbers, c.(buffer := c.buffer + chunk))
  }

  function OnChunks(numbers: Numbers, c: Connection, chunks: seq<Text>): Connection
    decreases chunks
  {
    if chunks == [] then c else OnChunks(numbers, OnChunk(numbers, c, chunks[0]), chunks[1..])
  }

  function Joined(chunks: seq<Text>): Text {
    if chunks == [] then [] else chunks[0] + Joined(chunks[1..])
  }

  /** The `data` event handler of one socket. */
  class Accumulator {
    const numbers: Numbers
    var buffer: Text
    var commands: seq<seq<seq<Utf8.Scalar>>>
    var hung: bool  // stands for the endless loop; no further event is handled then

    function State(): Connection
      reads this
    {
      if hung then Hung(commands) else Reading(buffer, commands)
    }

    constructor (numbers: Numbers)
      ensures State() == FRESH && this.numbers == numbers
    {
      this.numbers, buffer, commands, hung := numbers, [], [], false;
    }

    method OnData(chunk: Text)
      modifies this
      ensures State() == OnChunk(numbers, old(State()), chunk)
    {
      if hung { return; }
      buffer := buffer + chunk;
      ghost var start := State();
      while true
        invariant !hung && Drain(numbers, State()) == Drain(numbers, start)
        decreases |buffer|
      {
        var parsed := TryParseCommand(numbers, buffer);
        if parsed.Incomplete? { break; }
        var rest := Rest(buffer, parsed.consumed);
        commands := commands + [Decoded(parsed.args)];
        if |rest| == |buffer| {
          hung := true;
          return;
        }
        buffer := rest;
      }
    }
  }

  // ---------------------------------------------------------------------
  // When a recognised command stays what it is.

  /** The last payload does not end before the buffer begins: its length header
      does not reach back that far. (NaN ends at the beginning.) */
  predicate Tame(consumed: JsNumber) {
    consumed.NaN? || Trunc(Plus(consumed, -2)) >= 0
  }

  lemma {:induction false} IndexIsStable(b: Text, x: Text, from: nat)
    ensures IndexOfCRLF(b, from).Some? ==> IndexOfCRLF(b + x, from) == IndexOfCRLF(b, from)
    decreases |b| - from
  {
    if from + 1 < |b| {
      IndexIsStable(b, x, from + 1);
    }
  }

  lemma SubarrayIsStable(b: Text, x: Text, start: nat, end: JsNumber)
    requires start <= |b| && (end.NaN? || (Trunc(end) >= 0 && !Less(|b|, end)))
    ensures Subarray(b + x, Int(start), end) == Subarray(b, Int(start), end)
  {
    ClampIsStable(end, |b|, |b + x|);
    ClampIsStable(Int(start), |b|, |b + x|);
    var hi := Clamp(end, |b|);
    if start <= hi { assert (b + x)[start..hi] == b[start..hi]; }
  }

  lemma ClampIsStable(end: JsNumber, n: nat, m: nat)
    requires n <= m && (end.NaN? || (Trunc(end) >= 0 && !Less(n, end)))
    ensures Clamp(end, m) == Clamp(end, n)
  {
  }

  lemma PayloadIsStable(b: Text, x: Text, start: nat, length: JsNumber)
    requires start <= |b|
    ensures var a, a' := Payload(b, start, length), Payload(b + x, start, length);
      a.Argument? ==>
        a'.Argument? && a'.next == a.next && a'.length == a.length && (Tame(a.next) ==> a' == a)
  {
    var a := Payload(b, start, length);
    if a.Argument? && Tame(a.next) { SubarrayIsStable(b, x, start, Plus(length, start)); }
  }

  lemma HeaderIsStable(numbers: Numbers, b: Text, x: Text, offset: JsNumber)
    returns (start: nat, length: JsNumber)
    requires NextArgument(numbers, b, offset).Argument?
    ensures start <= |b|
    ensures NextArgument(numbers, b, offset) == Payload(b, start, length)
    ensures NextArgument(numbers, b + x, offset) == Payload(b + x, start, length)
  {
    var k := AsIndex(offset, |b|).value;
    var lenEnd := IndexOfCRLF(b, k).value;
    start, length := lenEnd + 2, Number(numbers, b[k + 1..lenEnd]);
    IndexIsStable(b, x, k);
    assert (b + x)[k] == b[k] && (b + x)[k + 1..lenEnd] == b[k + 1..lenEnd];
    ArgumentFrom(numbers, b, k, lenEnd, length);
    ArgumentFrom(numbers, b + x, k, lenEnd, length);
  }

  /** More bytes change neither where an argument ends nor, if that is tame, what it is. */
  lemma ArgumentIsStable(numbers: Numbers, b: Text, x: Text, offset: JsNumber)
    ensures var a, a' := NextArgument(numbers, b, offset), NextArgument(numbers, b + x, offset);
      a.Argument? ==>
        a'.Argument? && a'.next == a.next && a'.length == a.length && (Tame(a.next) ==> a' == a)
  {
    if NextArgument(numbers, b, offset).Argument? {
      var start, length := HeaderIsStable(numbers, b, x, offset);
      PayloadIsStable(b, x, start, length);
    }
  }

  /** The bytes before the first argument: no `$` among the first two. */
  predicate Headed(b: Text) {
    |b| >= 2 && b[0] != DOLLAR && b[1] != DOLLAR
  }

  lemma {:induction false} ArgsAreStable(numbers: Numbers, b: Text, x: Text, offset: JsNumber, count: nat,
                                         args: seq<Text>)
    requires Headed(b)
    ensures var p, p' := ParseArgs(numbers, b, offset, count, args), ParseArgs(numbers, b + x, offset, count, args);
      p.Command? ==> p'.Command? && p'.consumed == p.consumed && (Tame(p.consumed) ==> p' == p)
    decreases count
  {
    if count > 0 {
      ArgumentIsStable(numbers, b, x, offset);
      var a := NextArgument(numbers, b, offset);
      NextRound(numbers, b, offset, count, args);
      NextRound(numbers, b + x, offset, count, args);
      ArgumentIsStable(numbers, b, x, offset);
      if a.Argument? {
        if Tame(a.next) {
          ArgsAreStable(numbers, b, x, a.next, count - 1, args + [a.payload]);
        } else if count > 1 {
          NothingAfterUntamed(numbers, b, a.next);
          NextRound(numbers, b, a.next, count - 1, args + [a.payload]);
        }
      }
    }
  }

  lemma NothingAfterUntamed(numbers: Numbers, b: Text, offset: JsNumber)
    requires Headed(b) && !Tame(offset)
    ensures NextArgument(numbers, b, offset).Missing?
  {
  }
  lemma HeadedIfCounting(numbers: Numbers, b: Text, lineEnd: nat)
    requires IsNumber(numbers) && b != [] && b[0] == STAR && IndexOfCRLF(b, 0) == Some(lineEnd)
    requires Rounds(Number(numbers, b[1..lineEnd])) > 0
    ensures Headed(b)
  {
    if lineEnd > 1 { assert b[1..lineEnd][0] == b[1]; }
  }

  /** What has been recognised stays recognised when more bytes arrive, and ends
      at the same place; unless it is untamed its arguments stay the same too. */
  lemma ParseIsStable(numbers: Numbers, b: Text, x: Text)
    requires IsNumber(numbers)
    ensures var p, p' := TryParse(numbers, b), TryParse(numbers, b + x);
      p.Command? ==> p'.Command? && p'.consumed == p.consumed && (Tame(p.consumed) ==> p' == p)
  {
    if TryParse(numbers, b).Command? {
      IndexIsStable(b, x, 0);
      var lineEnd := IndexOfCRLF(b, 0).value;
      assert (b + x)[1..lineEnd] == b[1..lineEnd];
      var count := Rounds(Number(numbers, b[1..lineEnd]));
      if count > 0 {
        HeadedIfCounting(numbers, b, lineEnd);
        ArgsAreStable(numbers, b, x, Int(lineEnd + 2), count, []);
      }
    }
  }

  lemma {:induction false} ArgsFit(numbers: Numbers, b: Text, offset: JsNumber, count: nat,
                                   args: seq<Text>)
    requires !Less(|b|, offset)
    ensures var p := ParseArgs(numbers, b, offset, count, args);
      p.Command? ==> !Less(|b|, p.consumed)
    decreases count
  {
    if count > 0 {
      var a := NextArgument(numbers, b, offset);
      if a.Argument? { ArgsFit(numbers, b, a.next, count - 1, args + [a.payload]); }
    }
  }

  lemma CommandFits(numbers: Numbers, b: Text)
    ensures var p := TryParse(numbers, b);
      p.Command? ==> !Less(|b|, p.consumed)
  {
    if TryParse(numbers, b).Command? {
      var lineEnd := IndexOfCRLF(b, 0).value;
      ArgsFit(numbers, b, Int(lineEnd + 2), Rounds(Number(numbers, b[1..lineEnd])), []);
    }
  }

  // ---------------------------------------------------------------------
  // When it does not: a payload that ends before the buffer begins is cut
  // relative to the end of what has arrived.

  /** Enough further bytes to make such a payload longer than the buffer was. */
  function Enough(b: Text, consumed: JsNumber): int
    requires consumed.Num?
  {
    4 * |b| + 4 - Trunc(Plus(consumed, -2))
  }

  lemma PayloadGrows(b: Text, x: Text, start: nat, length: JsNumber)
    requires start <= |b| && Payload(b, start, length).Argument? && !Tame(Payload(b, start, length).next)
    requires |x| >= Enough(b, Payload(b, start, length).next)
    ensures Payload(b + x, start, length).Argument?
    ensures |Payload(b, start, length).payload| <= |b|
    ensures |Payload(b + x, start, length).payload| > 4 * |b|
  {
    assert Plus(Payload(b, start, length).next, -2) == Plus(length, start);
  }

  lemma ArgumentGrows(numbers: Numbers, b: Text, x: Text, offset: JsNumber)
    requires NextArgument(numbers, b, offset).Argument? && !Tame(NextArgument(numbers, b, offset).next)
    requires |x| >= Enough(b, NextArgument(numbers, b, offset).next)
    ensures NextArgument(numbers, b + x, offset).Argument?
    ensures |NextArgument(numbers, b, offset).payload| <= |b|
    ensures |NextArgument(numbers, b + x, offset).payload| > 4 * |b|
  {
    var start, length := HeaderIsStable(numbers, b, x, offset);
    PayloadGrows(b, x, start, length);
  }

  ghost predicate LastGrew(args: seq<Text>, grown: seq<Text>, n: nat) {
    0 < |args| == |grown| && |args[|args| - 1]| <= n && |grown[|args| - 1]| > 4 * n
  }

  lemma DecodedGrew(args: seq<Text>, grown: seq<Text>, n: nat)
    requires LastGrew(args, grown, n)
    ensures Decoded(args) != Decoded(grown)
  {
    Utf8.DecodeLength(args[|args| - 1]);
    Utf8.DecodeLength(grown[|args| - 1]);
    assert |Decoded(args)[|args| - 1]| < |Decoded(grown)[|args| - 1]|;
  }

  lemma OnlyArgGrows(numbers: Numbers, b: Text, x: Text, offset: JsNumber, args: seq<Text>, args': seq<Text>)
    requires NextArgument(numbers, b, offset).Argument? && |args| == |args'|
    requires !Tame(NextArgument(numbers, b, offset).next)
    requires |x| >= Enough(b, NextArgument(numbers, b, offset).next)
    ensures NextArgument(numbers, b + x, offset).Argument?
    ensures LastGrew(args + [NextArgument(numbers, b, offset).payload],
                     args' + [NextArgument(numbers, b + x, offset).payload], |b|)
  {
    ArgumentGrows(numbers, b, x, offset);
  }

  lemma {:induction false} ArgsGrow(numbers: Numbers, b: Text, x: Text, offset: JsNumber, count: nat,
                                    args: seq<Text>, args': seq<Text>)
    requires count > 0 && |args| == |args'|
    requires ParseArgs(numbers, b, offset, count, args).Command?
    requires !Tame(ParseArgs(numbers, b, offset, count, args).consumed)
    requires |x| >= Enough(b, ParseArgs(numbers, b, offset, count, args).consumed)
    ensures var p' := ParseArgs(numbers, b + x, offset, count, args');
      p'.Command? && LastGrew(ParseArgs(numbers, b, offset, count, args).args, p'.args, |b|)
    decreases count
  {
    var a := NextArgument(numbers, b, offset);
    NextRound(numbers, b, offset, count, args);
    NextRound(numbers, b + x, offset, count, args');
    ArgumentIsStable(numbers, b, x, offset);
    if count == 1 {
      OnlyArgGrows(numbers, b, x, offset, args, args');
    } else {
      var a' := NextArgument(numbers, b + x, offset);
      ArgsGrow(numbers, b, x, a.next, count - 1, args + [a.payload], args' + [a'.payload]);
    }
  }

  lemma ParseGrows(numbers: Numbers, b: Text, x: Text)
    requires TryParse(numbers, b).Command? && !Tame(TryParse(numbers, b).consumed)
    requires |x| >= Enough(b, TryParse(numbers, b).consumed)
    ensures TryParse(numbers, b + x).Command?
    ensures LastGrew(TryParse(numbers, b).args, TryParse(numbers, b + x).args, |b|)
  {
    IndexIsStable(b, x, 0);
    var lineEnd := IndexOfCRLF(b, 0).value;
    assert (b + x)[1..lineEnd] == b[1..lineEnd];
    ArgsGrow(numbers, b, x, Int(lineEnd + 2), Rounds(Number(numbers, b[1..lineEnd])), [], []);
  }

  function Padding(n: int): (x: Text)
    ensures n >= 0 ==> |x| == n
  {
    if n < 0 then [] else seq(n, _ => 0)
  }

  /** Exactly when a recognised command stays the same under all continuations. */
  lemma CommandIsSettledIff(numbers: Numbers, b: Text)
    requires IsNumber(numbers) && TryParse(numbers, b).Command?
    ensures (forall x :: TryParse(numbers, b + x) == TryParse(numbers, b)) <==> Tame(TryParse(numbers, b).consumed)
  {
    var p := TryParse(numbers, b);
    if Tame(p.consumed) {
      forall x ensures TryParse(numbers, b + x) == p { ParseIsStable(numbers, b, x); }
    } else {
      var x := Padding(Enough(b, p.consumed));
      ParseGrows(numbers, b, x);
      assert TryParse(numbers, b + x) != p;
    }
  }

  // ---------------------------------------------------------------------
  // Streams.

  /** The handler makes no progress in exactly these cases. */
  lemma HangsIff(b: Text, consumed: JsNumber)
    requires b != []
    ensures |Rest(b, consumed)| == |b|
       <==> consumed.NaN? || Trunc(consumed) == 0 || Trunc(consumed) <= -|b|
  {
  }

  lemma RestIsStable(b: Text, x: Text, consumed: JsNumber)
    requires consumed.Num? && Tame(consumed) && !Less(|b|, consumed)
    ensures |Rest(b, consumed)| < |b|
    ensures Rest(b + x, consumed) == Rest(b, consumed) + x
  {
    var k := Trunc(consumed);
    RestFrom(b, consumed, k);
    RestFrom(b + x, consumed, k);
    assert (b + x)[k..] == b[k..] + x;
  }

  lemma RestFrom(b: Text, consumed: JsNumber, k: nat)
    requires consumed.Num? && Trunc(consumed) == k <= |b|
    ensures Rest(b, consumed) == b[k..]
  {
    assert Clamp(consumed, |b|) == k && Clamp(Int(|b|), |b|) == |b|;
  }

  /** Every command of the stream is tame. */
  ghost predicate TameStream(numbers: Numbers, b: Text)
    decreases |b|
  {
    match TryParse(numbers, b)
    case Incomplete => true
    case Command(_, consumed) =>
      Tame(consumed) && (|Rest(b, consumed)| < |b| ==> TameStream(numbers, Rest(b, consumed)))
  }

  lemma {:induction false} PrefixIsTame(numbers: Numbers, b: Text, x: Text)
    requires IsNumber(numbers) && TameStream(numbers, b + x)
    ensures TameStream(numbers, b)
    decreases |b|
  {
    var p := TryParse(numbers, b);
    if p.Command? {
      ParseIsStable(numbers, b, x);
      CommandFits(numbers, b);
      if p.consumed.Num? {
        RestIsStable(b, x, p.consumed);
        RestIsStable(b + x, [], p.consumed);
        PrefixIsTame(numbers, Rest(b, p.consumed), x);
      } else {
        assert Rest(b, p.consumed) == b;
      }
    }
  }

  /** After the first command of the buffer. */
  function Next(numbers: Numbers, c: Connection): (next: Connection)
    requires c.Reading? && TryParse(numbers, c.buffer).Command?
    ensures next.commands == c.commands + [Decoded(TryParse(numbers, c.buffer).args)]
    ensures next.Reading? ==> |next.buffer| < |c.buffer|
  {
    var p := TryParse(numbers, c.buffer);
    var rest := Rest(c.buffer, p.consumed);
    if |rest| == |c.buffer| then Hung(c.commands + [Decoded(p.args)]) else Reading(rest, c.commands + [Decoded(p.args)])
  }

  lemma DrainNext(numbers: Numbers, c: Connection)
    requires c.Reading? && TryParse(numbers, c.buffer).Command?
    ensures Drain(numbers, c) == Drain(numbers, Next(numbers, c))
  {
  }

  lemma TameNext(numbers: Numbers, c: Connection)
    requires c.Reading? && TryParse(numbers, c.buffer).Command?
    ensures TameStream(numbers, c.buffer)
       <==> Tame(TryParse(numbers, c.buffer).consumed)
            && (Next(numbers, c).Reading? ==> TameStream(numbers, Next(numbers, c).buffer))
  {
  }

  /** One tame command is handled alike now or with more bytes behind it. */
  lemma DrainBoth(numbers: Numbers, c: Connection, x: Text)
    requires IsNumber(numbers) && c.Reading? && TryParse(numbers, c.buffer).Command?
    requires Tame(TryParse(numbers, c.buffer).consumed)
    ensures Drain(numbers, c) == Drain(numbers, Next(numbers, c))
    ensures OnChunk(numbers, c, x) == OnChunk(numbers, Next(numbers, c), x)
  {
    var consumed := TryParse(numbers, c.buffer).consumed;
    ParseIsStable(numbers, c.buffer, x);
    CommandFits(numbers, c.buffer);
    DrainNext(numbers, c);
    DrainNext(numbers, c.(buffer := c.buffer + x));
    if consumed.Num? {
      RestIsStable(c.buffer, x, consumed);
    } else {
      assert Rest(c.buffer, consumed) == c.buffer && Rest(c.buffer + x, consumed) == c.buffer + x;
    }
  }

  /** Draining early and then again equals draining once. */
  lemma {:induction false} DrainInTwo(numbers: Numbers, c: Connection, x: Text)
    requires IsNumber(numbers) && (c.Reading? ==> TameStream(numbers, c.buffer))
    ensures OnChunk(numbers, Drain(numbers, c), x) == OnChunk(numbers, c, x)
    decreases if c.Reading? then |c.buffer| + 1 else 0
  {
    if c.Reading? && TryParse(numbers, c.buffer).Command? {
      TameNext(numbers, c);
      DrainBoth(numbers, c, x);
      DrainInTwo(numbers, Next(numbers, c), x);
    }
  }

  lemma ConcatAssociates(a: Text, b: Text, c: Text)
    ensures a + (b + c) == (a + b) + c
  {
  }

  lemma {:induction false} HungStays(numbers: Numbers, c: Connection, chunks: seq<Text>)
    requires c.Hung?
    ensures OnChunks(numbers, c, chunks) == c
    decreases chunks
  {
    if chunks != [] { HungStays(numbers, c, chunks[1..]); }
  }

  /** Every chunking of a tame stream yields the same commands and leaves the
      same unread bytes as one single chunk. */
  lemma {:induction false} ChunkingDoesNotMatter(numbers: Numbers, c: Connection, chunks: seq<Text>)
    requires IsNumber(numbers) && c.Reading? && TameStream(numbers, c.buffer + Joined(chunks))
    ensures OnChunks(numbers, Drain(numbers, c), chunks) == OnChunk(numbers, c, Joined(chunks))
    decreases chunks
  {
    if chunks == [] {
      assert c.buffer + [] == c.buffer;
    } else {
      var c1 := c.(buffer := c.buffer + chunks[0]);
      ConcatAssociates(c.buffer, chunks[0], Joined(chunks[1..]));
      PrefixIsTame(numbers, c.buffer, Joined(chunks));
      DrainInTwo(numbers, c, chunks[0]);
      assert OnChunk(numbers, Drain(numbers, c), chunks[0]) == Drain(numbers, c1);
      ChunkingDoesNotMatter(numbers, c1, chunks[1..]);
    }
  }

  lemma {:induction false} DrainExtends(numbers: Numbers, c: Connection)
    ensures c.commands <= Drain(numbers, c).commands
    decreases if c.Reading? then |c.buffer| + 1 else 0
  {
    if c.Reading? && TryParse(numbers, c.buffer).Command? {
      DrainNext(numbers, c);
      DrainExtends(numbers, Next(numbers, c));
    }
  }

  lemma FirstDrained(numbers: Numbers, c: Connection)
    requires c.Reading? && TryParse(numbers, c.buffer).Command?
    ensures c.commands + [Decoded(TryParse(numbers, c.buffer).args)] <= Drain(numbers, c).commands
  {
    DrainNext(numbers, c);
    DrainExtends(numbers, Next(numbers, c));
  }

  lemma OnChunkExtends(numbers: Numbers, c: Connection, x: Text)
    ensures c.commands <= OnChunk(numbers, c, x).commands
  {
    if c.Reading? { DrainExtends(numbers, c.(buffer := c.buffer + x)); }
  }

  /** Some continuation tells whether an untamed command was cut off there. */
  lemma {:induction false} UntamedCutMatters(numbers: Numbers, c: Connection) returns (x: Text)
    requires IsNumber(numbers) && c.Reading? && !TameStream(numbers, c.buffer)
    ensures OnChunk(numbers, Drain(numbers, c), x) != OnChunk(numbers, c, x)
    decreases |c.buffer|
  {
    TameNext(numbers, c);
    if Tame(TryParse(numbers, c.buffer).consumed) {
      x := UntamedCutMatters(numbers, Next(numbers, c));
      DrainBoth(numbers, c, x);
    } else {
      x := UntamedCommandMatters(numbers, c);
    }
  }

  lemma UntamedCommandMatters(numbers: Numbers, c: Connection) returns (x: Text)
    requires c.Reading? && TryParse(numbers, c.buffer).Command? && !Tame(TryParse(numbers, c.buffer).consumed)
    ensures OnChunk(numbers, Drain(numbers, c), x) != OnChunk(numbers, c, x)
  {
    var p := TryParse(numbers, c.buffer);
    x := Padding(Enough(c.buffer, p.consumed));
    ParseGrows(numbers, c.buffer, x);
    FirstDrained(numbers, c);
    OnChunkExtends(numbers, Drain(numbers, c), x);
    FirstDrained(numbers, c.(buffer := c.buffer + x));
    DecodedGrew(p.args, TryParse(numbers, c.buffer + x).args, |c.buffer|);
    DifferAfter(c.commands, Decoded(p.args), Decoded(TryParse(numbers, c.buffer + x).args),
                OnChunk(numbers, Drain(numbers, c), x).commands, OnChunk(numbers, c, x).commands);
  }

  lemma DifferAfter<T>(done: seq<T>, x: T, y: T, a: seq<T>, b: seq<T>)
    requires x != y && done + [x] <= a && done + [y] <= b
    ensures a != b
  {
    assert (done + [x])[|done|] == a[|done|] && (done + [y])[|done|] == b[|done|];
  }

  /** Where a stream may be cut: a cut after `t` makes no difference to any
      continuation if and only if every command of `t` is tame. */
  lemma CutIsHarmlessIff(numbers: Numbers, t: Text)
    requires IsNumber(numbers)
    ensures (forall x :: OnChunks(numbers, FRESH, [t, x]) == OnChunk(numbers, FRESH, t + x)) <==> TameStream(numbers, t)
  {
    var c := Reading(t, []);
    forall x ensures OnChunks(numbers, FRESH, [t, x]) == OnChunk(numbers, Drain(numbers, c), x)
             ensures OnChunk(numbers, FRESH, t + x) == OnChunk(numbers, c, x)
    {
      TwoChunks(numbers, t, x);
    }
    if TameStream(numbers, t) {
      forall x ensures OnChunks(numbers, FRESH, [t, x]) == OnChunk(numbers, FRESH, t + x) {
        DrainInTwo(numbers, c, x);
      }
    } else {
      var x := UntamedCutMatters(numbers, c);
      assert OnChunks(numbers, FRESH, [t, x]) != OnChunk(numbers, FRESH, t + x);
    }
  }

  lemma TwoChunks(numbers: Numbers, t: Text, x: Text)
    ensures OnChunks(numbers, FRESH, [t, x]) == OnChunk(numbers, Drain(numbers, Reading(t, [])), x)
    ensures OnChunk(numbers, FRESH, t + x) == OnChunk(numbers, Reading(t, []), x)
  {
    assert [] + t == t && [] + (t + x) == t + x;
    assert [t, x][1..] == [x];
    assert OnChunks(numbers, OnChunk(numbers, FRESH, t), [x]) == OnChunk(numbers, OnChunk(numbers, FRESH, t), x);
  }

  // ---------------------------------------------------------------------
  // Plain headers are tame.

  /** Every length header met is a number and not negative. */
  ghost predicate PlainArgs(numbers: Numbers, b: Text, offset: JsNumber, count: nat)
    decreases count
  {
    count > 0 && NextArgument(numbers, b, offset).Argument? ==>
      var a := NextArgument(numbers, b, offset);
      a.length.Num? && a.length.floor >= 0 && PlainArgs(numbers, b, a.next, count - 1)
  }

  ghost predicate PlainCommand(numbers: Numbers, b: Text) {
    b != [] && b[0] == STAR && IndexOfCRLF(b, 0).Some? ==>
      var lineEnd := IndexOfCRLF(b, 0).value;
      PlainArgs(numbers, b, Int(lineEnd + 2), Rounds(Number(numbers, b[1..lineEnd])))
  }

  lemma {:induction false} PlainArgsAdvance(numbers: Numbers, b: Text, offset: JsNumber, count: nat,
                                            args: seq<Text>)
    requires offset.Num? && PlainArgs(numbers, b, offset, count)
    ensures var p := ParseArgs(numbers, b, offset, count, args);
      p.Command? ==> p.consumed.Num? && p.consumed.floor >= offset.floor
    decreases count
  {
    if count > 0 {
      var a := NextArgument(numbers, b, offset);
      if a.Argument? { PlainArgsAdvance(numbers, b, a.next, count - 1, args + [a.payload]); }
    }
  }

  /** A command with plain length headers is tame and consumes some bytes. */
  lemma PlainIsTame(numbers: Numbers, b: Text)
    requires PlainCommand(numbers, b) && TryParse(numbers, b).Command?
    ensures var consumed := TryParse(numbers, b).consumed;
      consumed.Num? && Tame(consumed) && |Rest(b, consumed)| < |b|
  {
    var lineEnd := IndexOfCRLF(b, 0).value;
    PlainArgsAdvance(numbers, b, Int(lineEnd + 2), Rounds(Number(numbers, b[1..lineEnd])), []);
    CommandFits(numbers, b);
    RestIsStable(b, [], TryParse(numbers, b).consumed);
  }

  ghost predicate PlainStream(numbers: Numbers, b: Text)
    decreases |b|
  {
    && PlainCommand(numbers, b)
    && (TryParse(numbers, b).Command? ==>
          var rest := Rest(b, TryParse(numbers, b).consumed);
          |rest| < |b| ==> PlainStream(numbers, rest))
  }

  /** A stream whose length headers are all plain is tame, and never hangs the handler. */
  lemma {:induction false} PlainStreamIsTame(numbers: Numbers, c: Connection)
    requires c.Reading? && PlainStream(numbers, c.buffer)
    ensures TameStream(numbers, c.buffer) && Drain(numbers, c).Reading?
    decreases |c.buffer|
  {
    var p := TryParse(numbers, c.buffer);
    if p.Command? {
      PlainIsTame(numbers, c.buffer);
      DrainNext(numbers, c);
      PlainStreamIsTame(numbers, Next(numbers, c));
    }
  }

  // ---------------------------------------------------------------------
  // Two streams that go wrong.

  const ONE: Text := [STAR, 49, CR, LF, DOLLAR]  // *1\r\n$
  const BACK: Text := ONE + [MINUS, 49, 51, CR, LF]  // a length of -13
  const PING: Text := ONE + [52, CR, LF, 80, 73, 78, 71, CR, LF]

  /** A command of one argument whose length header ends at `lenEnd`. */
  lemma SingleArgument(numbers: Numbers, b: Text, lenEnd: nat)
    requires IsNumber(numbers) && |b| >= 5 && b[..5] == ONE
    requires 5 <= lenEnd && lenEnd + 1 < |b| && b[lenEnd] == CR && b[lenEnd + 1] == LF
    requires forall i :: 5 <= i < lenEnd ==> b[i] != CR
    ensures var a := Payload(b, lenEnd + 2, Number(numbers, b[5..lenEnd]));
      TryParse(numbers, b) == if a.Missing? then Incomplete else Command([a.payload], a.next)
  {
    assert b[0] == ONE[0] && b[1] == ONE[1] && b[2] == ONE[2] && b[3] == ONE[3] && b[4] == ONE[4];
    FirstCRLF(b, 0, 2);
    FirstCRLF(b, 4, lenEnd);
    assert b[1..2] == [49] && Value([49]) == 1;
    assert Rounds(Number(numbers, b[1..2])) == 1;
    ArgumentFrom(numbers, b, 4, lenEnd, Number(numbers, b[5..lenEnd]));
    var a := NextArgument(numbers, b, Int(4));
    NextRound(numbers, b, Int(4), 1, []);
    if a.Argument? { assert [] + [a.payload] == [a.payload]; }
  }

  lemma BackIsRead(numbers: Numbers, x: Text)
    requires IsNumber(numbers)
    ensures TryParse(numbers, BACK + x)
         == Command([Subarray(BACK + x, Int(10), Int(-3))], Int(-1))
  {
    var b := BACK + x;
    assert b[..5] == ONE && b[8] == CR && b[9] == LF;
    assert b[5..8] == [MINUS] + [49, 51];
    Thirteen(numbers);
    SingleArgument(numbers, b, 8);
  }

  lemma Thirteen(numbers: Numbers)
    requires IsNumber(numbers)
    ensures Number(numbers, [MINUS] + [49, 51]) == Int(-13)
  {
    assert [49, 51][..1] == [49] && Value([49]) == 1 && Value([49, 51]) == 13;
  }

  lemma NothingWithoutStar(numbers: Numbers, c: Connection)
    requires c.Reading? && c.buffer != [] && c.buffer[0] != STAR
    ensures Drain(numbers, c) == c
  {
  }

  lemma RestOfBack(x: Text)
    requires x != [] ==> x[|x| - 1] == LF
    ensures Rest(BACK + x, Int(-1)) == [LF]
  {
    var b := BACK + x;
    assert b[|b| - 1] == LF;
    assert Rest(b, Int(-1)) == b[|b| - 1..];
  }

  lemma DrainBack(numbers: Numbers, x: Text, first: Text)
    requires IsNumber(numbers) && first == Subarray(BACK + x, Int(10), Int(-3))
    requires x != [] ==> x[|x| - 1] == LF
    ensures OnChunk(numbers, FRESH, BACK + x) == Reading([LF], [Decoded([first])])
  {
    var b := BACK + x;
    BackIsRead(numbers, x);
    RestOfBack(x);
    assert [] + b == b;
    DrainToOneByte(numbers, b, [first], LF);
  }

  lemma DrainToOneByte(numbers: Numbers, b: Text, args: seq<Text>, last: Byte)
    requires |b| > 1 && last != STAR && TryParse(numbers, b) == Command(args, Int(-1)) && Rest(b, Int(-1)) == [last]
    ensures Drain(numbers, Reading(b, [])) == Reading([last], [Decoded(args)])
  {
    DrainNext(numbers, Reading(b, []));
    NothingWithoutStar(numbers, Reading([last], [Decoded(args)]));
  }

  lemma WholeSwallows(numbers: Numbers)
    requires IsNumber(numbers)
    ensures OnChunk(numbers, FRESH, BACK + PING) == Reading([LF], [Decoded([PING[..11]])])
  {
    assert Subarray(BACK + PING, Int(10), Int(-3)) == PING[..11];
    DrainBack(numbers, PING, PING[..11]);
  }

  lemma CutIsEmpty(numbers: Numbers)
    requires IsNumber(numbers)
    ensures OnChunks(numbers, FRESH, [BACK, PING]) == Reading([LF] + PING, [Decoded([[]])])
  {
    assert BACK + [] == BACK && Subarray(BACK, Int(10), Int(-3)) == [];
    DrainBack(numbers, [], []);
    NothingWithoutStar(numbers, Reading([LF] + PING, [Decoded([[]])]));
    assert [BACK, PING][1..] == [PING];
    var c := Reading([LF], [Decoded([[]])]);
    assert OnChunks(numbers, c, [PING]) == OnChunk(numbers, c, PING);
  }

  /** The same bytes, whole and cut in two: the first argument swallows the next
      command or is empty, and other bytes are left. */
  lemma CutMatters(numbers: Numbers)
    requires IsNumber(numbers)
    ensures OnChunk(numbers, FRESH, BACK + PING) == Reading([LF], [Decoded([PING[..11]])])
    ensures OnChunks(numbers, FRESH, [BACK, PING]) == Reading([LF] + PING, [Decoded([[]])])
    ensures OnChunk(numbers, FRESH, BACK + PING) != OnChunks(numbers, FRESH, [BACK, PING])
  {
    WholeSwallows(numbers);
    CutIsEmpty(numbers);
  }

  lemma NoNumberIsRead(numbers: Numbers, rest: Text)
    requires IsNumber(numbers)
    ensures TryParse(numbers, ONE + [LETTER_X, CR, LF] + rest) == Command([[]], NaN)
  {
    var b := ONE + [LETTER_X, CR, LF] + rest;
    assert b[..5] == ONE && b[6] == CR && b[7] == LF && b[5..6] == [LETTER_X];
    SingleArgument(numbers, b, 6);
    assert Subarray(b, Int(8), NaN) == [];
  }

  /** After a length that is no number the handler never comes to rest. */
  lemma NoNumberHangs(numbers: Numbers, rest: Text)
    requires IsNumber(numbers)
    ensures OnChunk(numbers, FRESH, ONE + [LETTER_X, CR, LF] + rest) == Hung([Decoded([[]])])
  {
    var b := ONE + [LETTER_X, CR, LF] + rest;
    NoNumberIsRead(numbers, rest);
    assert [] + b == b;
    HangsAtOnce(numbers, b, [[]]);
  }

  lemma HangsAtOnce(numbers: Numbers, b: Text, args: seq<Text>)
    requires TryParse(numbers, b) == Command(args, NaN)
    ensures Drain(numbers, Reading(b, [])) == Hung([Decoded(args)])
  {
    assert Rest(b, NaN) == b;
    DrainNext(numbers, Reading(b, []));
  }

  // ---------------------------------------------------------------------
  // The backend's writer against this parser.

  /** A header at `offset`: prefix, decimal length, line end. */
  lemma HeaderIsFound(b: Text, offset: nat, prefix: Byte, n: nat, rest: Text)
    requires prefix != CR && offset <= |b| && b[offset..] == [prefix] + Digits(n) + CRLF + rest
    ensures var k := offset + 1 + |Digits(n)|;
      && k + 2 <= |b| && b[offset] == prefix && b[offset + 1..k] == Digits(n) && b[k + 2..] == rest
      && IndexOfCRLF(b, offset) == Some(k)
  {
    var k := offset + 1 + |Digits(n)|;
    var t := [prefix] + Digits(n) + CRLF + rest;
    assert forall i :: 0 <= i < |t| ==> b[offset + i] == t[i];
    assert b[k] == t[k - offset] == CR && b[k + 1] == t[k + 1 - offset] == LF;
    assert b[offset + 1..k] == Digits(n);
    assert b[k + 2..] == rest;
    forall i | offset <= i < k ensures b[i] != CR {
      assert b[i] == t[i - offset];
    }
    FirstCRLF(b, offset, k);
  }

  lemma BulkShape(a: Text, later: Text)
    ensures BulkText(a) + later == [DOLLAR] + Digits(|a|) + CRLF + (a + CRLF + later)
    ensures |BulkText(a)| == 1 + |Digits(|a|)| + 2 + |a| + 2
  {
  }

  lemma NumberOfDigits(numbers: Numbers, n: nat)
    requires IsNumber(numbers) && n <= SAFE_MAX
    ensures Number(numbers, Digits(n)) == Int(n)
  {
    ValueOfDigits(n);
  }

  lemma BulkHeader(numbers: Numbers, b: Text, offset: nat, a: Text, rest: Text)
    requires Number(numbers, Digits(|a|)) == Int(|a|) && offset <= |b|
    requires b[offset..] == [DOLLAR] + Digits(|a|) + CRLF + rest
    ensures var start := offset + 1 + |Digits(|a|)| + 2;
      && start <= |b| && b[start..] == rest
      && NextArgument(numbers, b, Int(offset)) == Payload(b, start, Int(|a|))
  {
    HeaderIsFound(b, offset, DOLLAR, |a|, rest);
    ArgumentFrom(numbers, b, offset, offset + 1 + |Digits(|a|)|, Int(|a|));
  }

  lemma BulkIsFound(numbers: Numbers, b: Text, offset: nat, a: Text, later: Text, next: nat)
    requires Number(numbers, Digits(|a|)) == Int(|a|) && offset <= |b|
    requires b[offset..] == [DOLLAR] + Digits(|a|) + CRLF + (a + CRLF + later)
    requires next == offset + 1 + |Digits(|a|)| + 2 + |a| + 2
    ensures next <= |b| && b[next..] == later
    ensures ArgumentAt(numbers, b, offset, a, next)
  {
    BulkHeader(numbers, b, offset, a, a + CRLF + later);
    BulkPayload(b, offset + 1 + |Digits(|a|)| + 2, a, later, next);
  }

  lemma BulkPayload(b: Text, start: nat, a: Text, later: Text, next: nat)
    requires start <= |b| && b[start..] == a + CRLF + later && next == start + |a| + 2
    ensures next <= |b| && b[next..] == later
    ensures Payload(b, start, Int(|a|)) == Argument(Int(|a|), a, Int(next))
  {
    PayloadIsFound(b, start, a, later);
    PayloadIsRead(b, start, a);
  }

  lemma PayloadIsRead(b: Text, start: nat, a: Text)
    requires start + |a| + 2 <= |b| && b[start..start + |a|] == a
    ensures Payload(b, start, Int(|a|))
         == Argument(Int(|a|), a, Int(start + |a| + 2))
  {
    PlusNat(|a|, start);
    PlusNat(start + |a|, 2);
    SubarrayNat(b, start, start + |a|);
  }

  lemma PlusNat(n: nat, k: nat)
    ensures Plus(Int(n), k) == Int(k + n)
  {
  }

  lemma ClampNat(k: nat, n: nat)
    requires k <= n
    ensures Clamp(Int(k), n) == k
  {
  }

  lemma SubarrayNat(b: Text, lo: nat, hi: nat)
    requires lo <= hi <= |b|
    ensures Subarray(b, Int(lo), Int(hi)) == b[lo..hi]
  {
    ClampNat(lo, |b|);
    ClampNat(hi, |b|);
  }

  lemma ArgumentFrom(numbers: Numbers, b: Text, offset: nat, lenEnd: nat, length: JsNumber)
    requires offset < |b| && b[offset] == DOLLAR && IndexOfCRLF(b, offset) == Some(lenEnd)
    requires Number(numbers, b[offset + 1..lenEnd]) == length
    ensures NextArgument(numbers, b, Int(offset)) == Payload(b, lenEnd + 2, length)
  {
    assert AsIndex(Int(offset), |b|) == Some(offset);
  }

  lemma PayloadIsFound(b: Text, start: nat, a: Text, later: Text)
    requires start <= |b| && b[start..] == a + CRLF + later
    ensures start + |a| + 2 <= |b| && b[start..start + |a|] == a && b[start + |a| + 2..] == later
  {
    assert b[start..][..|a|] == a;
    assert b[start..][|a| + 2..] == later;
    assert b[start..start + |a|] == b[start..][..|a|];
    assert b[start + |a| + 2..] == b[start..][|a| + 2..];
  }

  lemma FirstArgument(args: seq<Text>, rest: Text)
    requires args != []
    ensures Arguments(args) + rest == BulkText(args[0]) + (Arguments(args[1..]) + rest)
    ensures |Arguments(args)| == |BulkText(args[0])| + |Arguments(args[1..])|
  {
    ConcatAssociates(BulkText(args[0]), Arguments(args[1..]), rest);
  }

  lemma FirstOf<T>(done: seq<T>, args: seq<T>)
    requires args != []
    ensures done + [args[0]] + args[1..] == done + args
  {
  }

  /** The argument loop finds these arguments from `offset` to `end`. */
  ghost predicate ArgsAt(numbers: Numbers, b: Text, offset: nat, args: seq<Text>, end: nat)
    decreases args
  {
    if args == [] then offset == end
    else
      exists next: nat :: ArgumentAt(numbers, b, offset, args[0], next) && ArgsAt(numbers, b, next, args[1..], end)
  }

  ghost predicate ArgumentAt(numbers: Numbers, b: Text, offset: nat, arg: Text, next: nat) {
    NextArgument(numbers, b, Int(offset)) == Argument(Int(|arg|), arg, Int(next))
  }

  lemma {:induction false} ParseOfArgsAt(numbers: Numbers, b: Text, offset: nat, args: seq<Text>,
                                         done: seq<Text>, end: nat)
    requires ArgsAt(numbers, b, offset, args, end)
    ensures ParseArgs(numbers, b, Int(offset), |args|, done) == Command(done + args, Int(end))
    decreases args
  {
    if args == [] {
      assert done + args == done;
    } else {
      var next: nat :| ArgumentAt(numbers, b, offset, args[0], next) && ArgsAt(numbers, b, next, args[1..], end);
      NextRound(numbers, b, Int(offset), |args|, done);
      ParseOfArgsAt(numbers, b, next, args[1..], done + [args[0]], end);
      FirstOf(done, args);
    }
  }

  lemma FirstIsFound(numbers: Numbers, b: Text, offset: nat, args: seq<Text>, rest: Text, next: nat)
    requires IsNumber(numbers) && args != [] && |args[0]| <= SAFE_MAX && next == offset + |BulkText(args[0])|
    requires offset <= |b| && b[offset..] == Arguments(args) + rest
    ensures next <= |b| && b[next..] == Arguments(args[1..]) + rest
    ensures ArgumentAt(numbers, b, offset, args[0], next)
    ensures |Arguments(args)| == |BulkText(args[0])| + |Arguments(args[1..])|
  {
    FirstArgument(args, rest);
    NumberOfDigits(numbers, |args[0]|);
    BulkShape(args[0], Arguments(args[1..]) + rest);
    BulkIsFound(numbers, b, offset, args[0], Arguments(args[1..]) + rest, next);
  }

  lemma {:induction false} WrittenArgsAt(numbers: Numbers, b: Text, offset: nat, args: seq<Text>, rest: Text, end: nat)
    requires IsNumber(numbers) && end == offset + |Arguments(args)|
    requires forall i :: 0 <= i < |args| ==> |args[i]| <= SAFE_MAX
    requires offset <= |b| && b[offset..] == Arguments(args) + rest
    ensures ArgsAt(numbers, b, offset, args, end)
    decreases args
  {
    if args != [] {
      var next := offset + |BulkText(args[0])|;
      FirstIsFound(numbers, b, offset, args, rest, next);
      WrittenArgsAt(numbers, b, next, args[1..], rest, end);
    }
  }

  lemma ParseFrom(numbers: Numbers, b: Text, lineEnd: nat, args: seq<Text>, end: nat)
    requires b != [] && b[0] == STAR && IndexOfCRLF(b, 0) == Some(lineEnd)
    requires Number(numbers, b[1..lineEnd]) == Int(|args|) && ArgsAt(numbers, b, lineEnd + 2, args, end)
    ensures TryParse(numbers, b) == Command(args, Int(end))
  {
    WholeRounds(|args|);
    ParseOfArgsAt(numbers, b, lineEnd + 2, args, [], end);
    assert [] + args == args;
  }

  lemma WholeRounds(n: nat)
    ensures Rounds(Int(n)) == n
  {
    RoundsCount(n, Int(n));
    if n > 0 { RoundsCount(n - 1, Int(n)); }
  }

  lemma CommandShape(args: seq<Text>, rest: Text)
    ensures CommandText(args) + rest == [STAR] + Digits(|args|) + CRLF + (Arguments(args) + rest)
    ensures |CommandText(args)| == 1 + |Digits(|args|)| + 2 + |Arguments(args)|
  {
    ConcatAssociates([STAR] + Digits(|args|) + CRLF, Arguments(args), rest);
  }

  lemma CommandHeader(b: Text, args: seq<Text>, rest: Text)
    requires b == [STAR] + Digits(|args|) + CRLF + (Arguments(args) + rest)
    ensures var k := 1 + |Digits(|args|)|;
      && k + 2 <= |b| && b[0] == STAR && b[1..k] == Digits(|args|) && b[k + 2..] == Arguments(args) + rest
      && IndexOfCRLF(b, 0) == Some(k)
  {
    assert b[0..] == b;
    HeaderIsFound(b, 0, STAR, |args|, Arguments(args) + rest);
  }

  // ---------------------------------------------------------------------
  // Which bytes are recognised, without reference to the parser.

  /** The first line end at or after `start`. */
  ghost predicate IsLineEnd(b: Text, start: nat, k: nat) {
    && start <= k && k + 1 < |b| && b[k] == 13 && b[k + 1] == 10
    && forall i :: start <= i < k ==> b[i] != 13 || b[i + 1] != 10
  }

  lemma {:induction false} LineEndIff(b: Text, start: nat, k: nat)
    ensures IndexOfCRLF(b, start) == Some(k) <==> IsLineEnd(b, start, k)
    decreases |b| - start
  {
    if start + 1 < |b| { LineEndIff(b, start + 1, k); }
  }

  /** At `offset`: a dollar sign, the length of `arg`, a line end, `arg`, and two more bytes. */
  ghost predicate LiesAt(numbers: Numbers, b: Text, offset: nat, lenEnd: nat, arg: Text, next: nat) {
    && offset < |b| && b[offset] == 36
    && IsLineEnd(b, offset, lenEnd) && Number(numbers, b[offset + 1..lenEnd]) == Int(|arg|)
    && next == lenEnd + 2 + |arg| + 2 <= |b| && b[lenEnd + 2..lenEnd + 2 + |arg|] == arg
  }

  lemma ArgumentIff(numbers: Numbers, b: Text, offset: nat, arg: Text, next: nat)
    ensures ArgumentAt(numbers, b, offset, arg, next) <==>
      exists lenEnd: nat :: LiesAt(numbers, b, offset, lenEnd, arg, next)
  {
    if ArgumentAt(numbers, b, offset, arg, next) {
      var lenEnd := ArgumentLies(numbers, b, offset, arg, next);
    }
    if exists lenEnd: nat :: LiesAt(numbers, b, offset, lenEnd, arg, next) {
      var lenEnd: nat :| LiesAt(numbers, b, offset, lenEnd, arg, next);
      LyingIsRead(numbers, b, offset, lenEnd, arg, next);
    }
  }

  lemma ArgumentLies(numbers: Numbers, b: Text, offset: nat, arg: Text, next: nat) returns (lenEnd: nat)
    requires ArgumentAt(numbers, b, offset, arg, next)
    ensures LiesAt(numbers, b, offset, lenEnd, arg, next)
  {
    lenEnd := IndexOfCRLF(b, offset).value;
    LineEndIff(b, offset, lenEnd);
    WholePayload(b, lenEnd + 2, |arg|);
  }

  lemma LyingIsRead(numbers: Numbers, b: Text, offset: nat, lenEnd: nat, arg: Text, next: nat)
    requires LiesAt(numbers, b, offset, lenEnd, arg, next)
    ensures ArgumentAt(numbers, b, offset, arg, next)
  {
    LineEndIff(b, offset, lenEnd);
    WholePayload(b, lenEnd + 2, |arg|);
    ArgumentFrom(numbers, b, offset, lenEnd, Int(|arg|));
  }

  lemma WholePayload(b: Text, start: nat, n: nat)
    ensures Payload(b, start, Int(n))
         == if |b| < start + n + 2 then Missing else Argument(Int(n), b[start..start + n], Int(start + n + 2))
  {
    PlusNat(n, start);
    if start + n + 2 <= |b| { SubarrayNat(b, start, start + n); }
  }

  /** The arguments lie one after the other from `offset` to `end`. */
  ghost predicate ArgsLie(numbers: Numbers, b: Text, offset: nat, args: seq<Text>, end: nat)
    decreases args
  {
    if args == [] then offset == end
    else
      exists lenEnd: nat, next: nat ::
        LiesAt(numbers, b, offset, lenEnd, args[0], next) && ArgsLie(numbers, b, next, args[1..], end)
  }

  lemma {:induction false} ArgsLieIff(numbers: Numbers, b: Text, offset: nat, args: seq<Text>, end: nat)
    ensures ArgsLie(numbers, b, offset, args, end) <==> ArgsAt(numbers, b, offset, args, end)
    decreases args
  {
    if args != [] {
      forall next: nat
        ensures ArgumentAt(numbers, b, offset, args[0], next) <==>
          exists lenEnd: nat :: LiesAt(numbers, b, offset, lenEnd, args[0], next)
        ensures ArgsLie(numbers, b, next, args[1..], end) <==> ArgsAt(numbers, b, next, args[1..], end)
      {
        ArgumentIff(numbers, b, offset, args[0], next);
        ArgsLieIff(numbers, b, next, args[1..], end);
      }
    }
  }

  /** Every length met is a whole number from zero up. */
  ghost predicate WholeArgs(numbers: Numbers, b: Text, offset: JsNumber, count: nat)
    decreases count
  {
    count > 0 && NextArgument(numbers, b, offset).Argument? ==>
      var a := NextArgument(numbers, b, offset);
      a.length.Num? && a.length.whole && a.length.floor >= 0 && WholeArgs(numbers, b, a.next, count - 1)
  }

  lemma WholeArgument(numbers: Numbers, b: Text, offset: nat)
    requires var a := NextArgument(numbers, b, Int(offset));
      a.Argument? && a.length.Num? && a.length.whole && a.length.floor >= 0
    ensures var a := NextArgument(numbers, b, Int(offset));
      && a.length == Int(|a.payload|) && a.next.Num? && a.next.whole && a.next.floor >= 0
      && ArgumentAt(numbers, b, offset, a.payload, a.next.floor)
  {
    var a := NextArgument(numbers, b, Int(offset));
    var lenEnd := IndexOfCRLF(b, offset).value;
    ArgumentFrom(numbers, b, offset, lenEnd, a.length);
    WholePayload(b, lenEnd + 2, a.length.floor);
  }

  lemma {:induction false} ArgsAtOfParse(numbers: Numbers, b: Text, offset: nat, count: nat, done: seq<Text>)
    returns (args: seq<Text>, end: nat)
    requires WholeArgs(numbers, b, Int(offset), count) && ParseArgs(numbers, b, Int(offset), count, done).Command?
    ensures ParseArgs(numbers, b, Int(offset), count, done) == Command(done + args, Int(end))
    ensures |args| == count && ArgsAt(numbers, b, offset, args, end)
    decreases count
  {
    if count == 0 {
      args, end := [], offset;
      assert done + [] == done;
    } else {
      NextRound(numbers, b, Int(offset), count, done);
      var a := NextArgument(numbers, b, Int(offset));
      WholeArgument(numbers, b, offset);
      var more;
      more, end := ArgsAtOfParse(numbers, b, a.next.floor, count - 1, done + [a.payload]);
      args := [a.payload] + more;
      assert args[1..] == more;
      assert done + [a.payload] + more == done + args;
    }
  }

  /** A whole command of `n` arguments: a star, the count, a line end, and the arguments up to `end`. */
  ghost predicate IsCommand(numbers: Numbers, b: Text, lineEnd: nat, args: seq<Text>, end: nat) {
    && b != [] && b[0] == 42
    && IsLineEnd(b, 0, lineEnd) && Number(numbers, b[1..lineEnd]) == Int(|args|)
    && ArgsLie(numbers, b, lineEnd + 2, args, end)
  }

  /** The count and every length met are whole numbers from zero up. */
  ghost predicate WholeCommand(numbers: Numbers, b: Text) {
    b != [] && b[0] == 42 && IndexOfCRLF(b, 0).Some? ==>
      var lineEnd := IndexOfCRLF(b, 0).value;
      var count := Number(numbers, b[1..lineEnd]);
      count.Num? && count.whole && count.floor >= 0 && WholeArgs(numbers, b, Int(lineEnd + 2), count.floor)
  }

  /** With whole headers exactly the commands are recognised, at their end;
      everything else is taken for incomplete. */
  lemma RecognisedIff(numbers: Numbers, b: Text, args: seq<Text>, end: nat)
    requires WholeCommand(numbers, b)
    ensures TryParse(numbers, b) == Command(args, Int(end)) <==>
      exists lineEnd: nat :: IsCommand(numbers, b, lineEnd, args, end)
    ensures TryParse(numbers, b).Command? ==>
      exists k: nat :: TryParse(numbers, b) == Command(TryParse(numbers, b).args, Int(k))
  {
    if TryParse(numbers, b).Command? {
      var lineEnd := IndexOfCRLF(b, 0).value;
      var count := Number(numbers, b[1..lineEnd]);
      WholeRounds(count.floor);
      LineEndIff(b, 0, lineEnd);
      var found, k := ArgsAtOfParse(numbers, b, lineEnd + 2, count.floor, []);
      assert [] + found == found;
      assert TryParse(numbers, b) == Command(found, Int(k));
      ArgsLieIff(numbers, b, lineEnd + 2, found, k);
      assert IsCommand(numbers, b, lineEnd, found, k);
    }
    if exists lineEnd: nat :: IsCommand(numbers, b, lineEnd, args, end) {
      var lineEnd: nat :| IsCommand(numbers, b, lineEnd, args, end);
      LineEndIff(b, 0, lineEnd);
      ArgsLieIff(numbers, b, lineEnd + 2, args, end);
      ParseFrom(numbers, b, lineEnd, args, end);
    }
  }

  /** What writeRESPCommand writes, tryParseCommand reads: every payload, byte by
      byte, and nothing after it. */
  lemma ParseInvertsWriter(numbers: Numbers, args: seq<Text>, rest: Text)
    requires IsNumber(numbers) && |args| <= SAFE_MAX && forall i :: 0 <= i < |args| ==> |args[i]| <= SAFE_MAX
    ensures TryParse(numbers, CommandText(args) + rest) == Command(args, Int(|CommandText(args)|))
  {
    var b := CommandText(args) + rest;
    var lineEnd := 1 + |Digits(|args|)|;
    CommandShape(args, rest);
    CommandHeader(b, args, rest);
    NumberOfDigits(numbers, |args|);
    WrittenArgsAt(numbers, b, lineEnd + 2, args, rest, |CommandText(args)|);
    ParseFrom(numbers, b, lineEnd, args, |CommandText(args)|);
  }

  function Encoded(args: seq<seq<Utf8.Scalar>>): (r: seq<Text>)
    ensures |r| == |args| && forall i :: 0 <= i < |r| ==> r[i] == Utf8.Encode(args[i])
  {
    seq(|args|, i requires 0 <= i < |args| => Utf8.Encode(args[i]))
  }

  /** The arguments read are the ones written exactly when those are valid UTF-8. */
  lemma ArgumentsSurviveIff(args: seq<Text>)
    ensures Encoded(Decoded(args)) == args <==> forall i :: 0 <= i < |args| ==> Utf8.Valid(args[i])
  {
    forall i | 0 <= i < |args| ensures Encoded(Decoded(args))[i] == args[i] <==> Utf8.Valid(args[i]) {
      Utf8.ReencodesIff(args[i]);
    }
  }

  function Commands(sent: seq<seq<Text>>): Text {
    if sent == [] then [] else CommandText(sent[0]) + Commands(sent[1..])
  }

  ghost predicate Sendable(sent: seq<seq<Text>>) {
    forall i :: 0 <= i < |sent| ==>
      |sent[i]| <= SAFE_MAX && forall j :: 0 <= j < |sent[i]| ==> |sent[i][j]| <= SAFE_MAX
  }

  function AllDecoded(sent: seq<seq<Text>>): (r: seq<seq<seq<Utf8.Scalar>>>)
    ensures |r| == |sent| && forall i :: 0 <= i < |r| ==> r[i] == Decoded(sent[i])
  {
    seq(|sent|, i requires 0 <= i < |sent| => Decoded(sent[i]))
  }

  lemma DropFirst(a: Text, b: Text)
    ensures (a + b)[|a|..] == b
  {
  }

  lemma RestOfCommand(args: seq<Text>, later: Text)
    ensures Rest(CommandText(args) + later, Int(|CommandText(args)|)) == later
    ensures |CommandText(args)| > 1
  {
    var n := |CommandText(args)|;
    assert Clamp(Int(n), n + |later|) == n;
    DropFirst(CommandText(args), later);
  }

  lemma {:induction false} DrainOfCommands(numbers: Numbers, c: Connection, sent: seq<seq<Text>>)
    requires IsNumber(numbers) && c.Reading? && c.buffer == Commands(sent) && Sendable(sent)
    ensures Drain(numbers, c) == Reading([], c.commands + AllDecoded(sent))
    ensures TameStream(numbers, c.buffer)
    decreases sent
  {
    if sent == [] {
      assert c.commands + AllDecoded(sent) == c.commands;
    } else {
      var later := Commands(sent[1..]);
      ParseInvertsWriter(numbers, sent[0], later);
      var c1 := Reading(later, c.commands + [Decoded(sent[0])]);
      CommandIsNext(numbers, c, sent[0], later);
      DrainOfCommands(numbers, c1, sent[1..]);
      AllDecodedFirst(sent);
      FirstOf(c.commands, AllDecoded(sent));
    }
  }

  lemma CommandIsNext(numbers: Numbers, c: Connection, args: seq<Text>, later: Text)
    requires c.Reading? && c.buffer == CommandText(args) + later
    requires TryParse(numbers, c.buffer) == Command(args, Int(|CommandText(args)|))
    ensures var c1 := Reading(later, c.commands + [Decoded(args)]);
      Drain(numbers, c) == Drain(numbers, c1) && (TameStream(numbers, later) ==> TameStream(numbers, c.buffer))
  {
    RestOfCommand(args, later);
    DrainNext(numbers, c);
    TameNext(numbers, c);
  }

  lemma AllDecodedFirst(sent: seq<seq<Text>>)
    requires sent != []
    ensures AllDecoded(sent)[0] == Decoded(sent[0]) && AllDecoded(sent)[1..] == AllDecoded(sent[1..])
  {
  }

  /** Commands written by the backend, cut into chunks anywhere, arrive decoded:
      all of them, in order, with nothing left over. */
  lemma CommandsSurviveChunking(numbers: Numbers, sent: seq<seq<Text>>, chunks: seq<Text>)
    requires IsNumber(numbers) && Joined(chunks) == Commands(sent) && Sendable(sent)
    ensures OnChunks(numbers, FRESH, chunks) == Reading([], AllDecoded(sent))
  {
    var bytes := Commands(sent);
    assert [] + bytes == bytes && [] + AllDecoded(sent) == AllDecoded(sent);
    DrainOfCommands(numbers, Reading(bytes, []), sent);
    NothingToDrain(numbers);
    ChunkingDoesNotMatter(numbers, FRESH, chunks);
  }

  lemma NothingToDrain(numbers: Numbers)
    ensures Drain(numbers, FRESH) == FRESH
  {
  }
}
