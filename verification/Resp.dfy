// The Redis serialization protocol as the backend writes and reads it.
module Resp {
  import opened Basics
  import opened Bytes

  const STAR: Byte := 42
  const DOLLAR: Byte := 36
  const COLON: Byte := 58
  const ERROR: Byte := 45
  const SIMPLE: Byte := 43

  datatype Reply = Null | Bulk(text: Text) | Integer(n: int) | Array(items: seq<Reply>)

  /** `Panic` is the run-time failure on a length below -1. */
  datatype Outcome =
    | Ok(reply: Reply, rest: Text)
    | RedisError(message: Text)
    | BadNumber
    | BadPrefix
    | EndOfInput
    | Panic

  // ---------------------------------------------------------------------
  // Writing.

  function BulkText(t: Text): Text {
    [DOLLAR] + Decimal(|t|) + CRLF + t + CRLF
  }

  function Arguments(args: seq<Text>): Text {
    if args == [] then [] else BulkText(args[0]) + Arguments(args[1..])
  }

  function CommandText(args: seq<Text>): Text {
    [STAR] + Decimal(|args|) + CRLF + Arguments(args)
  }

  lemma {:induction false} ArgumentsOfConcat(a: seq<Text>, b: seq<Text>)
    ensures Arguments(a + b) == Arguments(a) + Arguments(b)
  {
    if a == [] {
      assert a + b == b;
    } else {
      assert (a + b)[1..] == a[1..] + b;
      ArgumentsOfConcat(a[1..], b);
    }
  }

  lemma AppendBulk(out: Text, head: Text, done: Text, arg: Text)
    requires out == head + done
    ensures out + [DOLLAR] + Decimal(|arg|) + CRLF + arg + CRLF == head + (done + BulkText(arg))
  {
  }

  method WriteCommand(args: seq<Text>) returns (out: Text)
    ensures out == CommandText(args)
  {
    out := [STAR] + Decimal(|args|) + CRLF;
    var head := out;
    for i := 0 to |args|
      invariant out == head + Arguments(args[..i])
    {
      assert args[..i + 1] == args[..i] + [args[i]];
      ArgumentsOfConcat(args[..i], [args[i]]);
      assert Arguments([args[i]]) == BulkText(args[i]);
      AppendBulk(out, head, Arguments(args[..i]), args[i]);
      out := out + [DOLLAR] + Decimal(|args[i]|) + CRLF + args[i] + CRLF;
    }
    assert args[..|args|] == args;
  }

  /** What a server sends: nulls, integers, arrays and bulk strings. */
  function ReplyText(r: Reply): Text {
    match r
    case Null => [DOLLAR] + Decimal(-1) + CRLF
    case Integer(n) => [COLON] + Decimal(n) + CRLF
    case Bulk(t) => BulkText(t)
    case Array(items) => [STAR] + Decimal(|items|) + CRLF + ItemsText(items)
  }

  function ItemsText(items: seq<Reply>): Text {
    if items == [] then [] else ReplyText(items[0]) + ItemsText(items[1..])
  }

  // ---------------------------------------------------------------------
  // Reading.

  function Read(s: Text): (o: Outcome)
    ensures o.Ok? ==> |o.rest| < |s|
    decreases |s|, 0, 0
  {
    if s == [] then EndOfInput
    else
      match ReadLine(s[1..])
      case None => EndOfInput
      case Some((line, rest)) =>
        if s[0] == SIMPLE then Ok(Bulk(line), rest)
        else if s[0] == ERROR then RedisError(line)
        else if s[0] == COLON then
          match ParseInt(line) case Some(n) => Ok(Integer(n), rest) case None => BadNumber
        else if s[0] == DOLLAR then
          match ParseInt(line) case Some(n) => ReadBulk(n, rest) case None => BadNumber
        else if s[0] == STAR then
          match ParseInt(line)
          case Some(n) =>
            if n == -1 then Ok(Null, rest) else if n < -1 then Panic else ReadItems(n, rest)
          case None => BadNumber
        else BadPrefix
  }

  /** The payload and two more bytes, whatever those are. */
  function ReadBulk(n: int, s: Text): (o: Outcome)
    ensures o.Ok? ==> |o.rest| <= |s|
  {
    if n == -1 then Ok(Null, s)
    else if n < -1 then Panic
    else if |s| < n + 2 then EndOfInput
    else Ok(Bulk(s[..n]), s[n + 2..])
  }

  function ReadItems(n: nat, s: Text): (o: Outcome)
    ensures o.Ok? ==> |o.rest| <= |s| && o.reply.Array?
    decreases |s|, 1, n
  {
    if n == 0 then Ok(Array([]), s)
    else
      match Read(s)
      case Ok(first, rest) =>
        (match ReadItems(n - 1, rest)
         case Ok(more, rest') => Ok(Array([first] + more.items), rest')
         case e => e)
      case e => e
  }

  /** The connection's buffered reader. */
  class Reader {
    var input: Text

    constructor (input: Text)
      ensures this.input == input
    {
      this.input := input;
    }

    method ReadRESPLine() returns (line: Option<Text>)
      modifies this
      ensures line.None? <==> ReadLine(old(input)).None?
      ensures line.None? ==> input == []
      ensures line.Some? ==> ReadLine(old(input)) == Some((line.value, input))
    {
      var k := IndexOf(input, LF);
      if k.None? {
        input := [];
        return None;
      }
      var text := input[..k.value];
      input := input[k.value + 1..];
      if text != [] && text[|text| - 1] == CR { text := text[..|text| - 1]; }
      line := Some(text);
    }

    method ReadRESP() returns (o: Outcome)
      modifies this
      ensures Same(o, Read(old(input)))
      ensures o.Ok? ==> o.rest == input == Read(old(input)).rest
      decreases |input|, 0
    {
      if input == [] { return EndOfInput; }
      var prefix := input[0];
      input := input[1..];
      var text := ReadRESPLine();
      if text.None? { return EndOfInput; }
      var line := text.value;
      if prefix == SIMPLE { return Ok(Bulk(line), input); }
      if prefix == ERROR { return RedisError(line); }
      if prefix != COLON && prefix != DOLLAR && prefix != STAR { return BadPrefix; }
      var number := ParseInt(line);
      if number.None? { return BadNumber; }
      var n := number.value;
      if prefix == COLON { return Ok(Integer(n), input); }
      if n == -1 { return Ok(Null, input); }
      if n < -1 { return Panic; }
      if prefix == DOLLAR {
        if |input| < n + 2 { return EndOfInput; }
        var payload := input[..n];
        input := input[n + 2..];
        return Ok(Bulk(payload), input);
      }
      o := ReadArray(n);
    }

    /** The element loop. */
    method ReadArray(n: nat) returns (o: Outcome)
      modifies this
      ensures Same(o, ReadItems(n, old(input)))
      ensures o.Ok? ==> o.rest == input == ReadItems(n, old(input)).rest
      decreases |input|, 1
    {
      ghost var body := input;
      var values: seq<Reply> := [];
      var i := 0;
      while i < n
        invariant 0 <= i <= n && |values| == i && |input| <= |body|
        invariant AfterItems(values, ReadItems(n - i, input)) == ReadItems(n, body)
        decreases n - i
      {
        NextItem(values, n - i, input);
        var item := ReadRESP();
        if !item.Ok? { return item; }
        values := values + [item.reply];
        i := i + 1;
      }
      o := Ok(Array(values), input);
    }
  }

  /** Equal up to the unread input, which is the reader's own state. */
  predicate Same(o: Outcome, p: Outcome) {
    if o.Ok? then p.Ok? && o.reply == p.reply else o == p
  }

  function AfterItems(done: seq<Reply>, o: Outcome): Outcome
    requires o.Ok? ==> o.reply.Array?
  {
    match o case Ok(more, rest) => Ok(Array(done + more.items), rest) case e => e
  }

  lemma NextItem(done: seq<Reply>, n: nat, s: Text)
    requires n > 0
    ensures match Read(s)
            case Ok(first, rest) =>
              AfterItems(done, ReadItems(n, s)) == AfterItems(done + [first], ReadItems(n - 1, rest))
            case e => AfterItems(done, ReadItems(n, s)) == e
  {
    var o := Read(s);
    if o.Ok? {
      var more := ReadItems(n - 1, o.rest);
      if more.Ok? {
        assert done + ([o.reply] + more.reply.items) == done + [o.reply] + more.reply.items;
      }
    }
  }

  // ---------------------------------------------------------------------
  // The bytes of a reply, without reference to the reader.

  /** A prefix, text without a line feed, and a line end. */
  predicate IsLine(h: Text, prefix: Byte, line: Text) {
    && LF !in line
    && (h == [prefix] + line + CRLF || (h == [prefix] + line + [LF] && (line == [] || line[|line| - 1] != CR)))
  }

  ghost predicate IsNumberLine(h: Text, prefix: Byte, n: int) {
    exists line :: IsLine(h, prefix, line) && IsNumeral(line, n)
  }

  ghost predicate IsBulk(head: Text, body: Text, payload: Text) {
    IsNumberLine(head, DOLLAR, |payload|) && |body| == |payload| + 2 && body[..|payload|] == payload
  }

  /** The bytes `t` are one encoding of `r`. Both the null bulk string and the
      null array stand for null; a text may also come as a simple string. */
  ghost predicate Encodes(t: Text, r: Reply)
    decreases r, 0
  {
    match r
    case Null => IsNumberLine(t, DOLLAR, -1) || IsNumberLine(t, STAR, -1)
    case Integer(n) => IsNumberLine(t, COLON, n)
    case Bulk(payload) => IsLine(t, SIMPLE, payload) || exists k: nat :: k <= |t| && IsBulk(t[..k], t[k..], payload)
    case Array(items) => exists k: nat :: IsArrayAt(t, k, items)
  }

  ghost predicate IsArrayAt(t: Text, k: nat, items: seq<Reply>)
    decreases items, 2
  {
    k <= |t| && IsNumberLine(t[..k], STAR, |items|) && EncodesAll(t[k..], items)
  }

  ghost predicate EncodesAll(t: Text, items: seq<Reply>)
    decreases items, 1
  {
    if items == [] then t == []
    else exists k: nat :: IsItemAt(t, k, items)
  }

  ghost predicate IsItemAt(t: Text, k: nat, items: seq<Reply>)
    requires items != []
    decreases items, 0
  {
    k <= |t| && Encodes(t[..k], items[0]) && EncodesAll(t[k..], items[1..])
  }

  /** The reader takes `r` from the input `s` and leaves `rest`. */
  predicate Reads(s: Text, r: Reply, rest: Text) {
    Read(s) == Ok(r, rest)
  }

  predicate ReadsAll(s: Text, items: seq<Reply>, rest: Text) {
    ReadItems(|items|, s) == Ok(Array(items), rest)
  }

  lemma LineIsRead(h: Text, prefix: Byte, line: Text, rest: Text)
    requires IsLine(h, prefix, line)
    ensures h + rest != [] && (h + rest)[0] == prefix && ReadLine((h + rest)[1..]) == Some((line, rest))
  {
    if h == [prefix] + line + CRLF {
      ReadLineOf(line, rest);
      assert (h + rest)[1..] == line + CRLF + rest;
    } else {
      ReadLineOfBare(line, rest);
      assert (h + rest)[1..] == line + [LF] + rest;
    }
  }

  /** What the reader makes of a first line, right or wrong. */
  lemma ReadOfLine(h: Text, prefix: Byte, line: Text, rest: Text)
    requires IsLine(h, prefix, line)
    ensures var o := Read(h + rest);
      && (prefix == SIMPLE ==> o == Ok(Bulk(line), rest))
      && (prefix == ERROR ==> o == RedisError(line))
      && (prefix !in {SIMPLE, ERROR, COLON, DOLLAR, STAR} ==> o == BadPrefix)
      && (prefix in {COLON, DOLLAR, STAR} && ParseInt(line).None? ==> o == BadNumber)
  {
    LineIsRead(h, prefix, line, rest);
  }

  lemma ReadOfNumberLine(h: Text, prefix: Byte, n: int, rest: Text)
    requires IsNumberLine(h, prefix, n)
    ensures var o := Read(h + rest);
      && (prefix == COLON ==> o == Ok(Integer(n), rest))
      && (prefix == DOLLAR || prefix == STAR ==>
            && (n == -1 ==> o == Ok(Null, rest))
            && (n < -1 ==> o == Panic))
      && (prefix == DOLLAR && n >= 0 ==>
            if |rest| < n + 2 then o == EndOfInput else o == Ok(Bulk(rest[..n]), rest[n + 2..]))
      && (prefix == STAR && n >= 0 ==> o == ReadItems(n, rest))
  {
    var line :| IsLine(h, prefix, line) && IsNumeral(line, n);
    ParseIntIff(line, n);
    LineIsRead(h, prefix, line, rest);
    ReadOfNumber(h + rest, line, rest, n);
  }

  lemma ReadOfNumber(s: Text, line: Text, rest: Text, n: int)
    requires s != [] && ReadLine(s[1..]) == Some((line, rest)) && ParseInt(line) == Some(n)
    ensures s[0] == COLON ==> Read(s) == Ok(Integer(n), rest)
    ensures s[0] == DOLLAR ==> Read(s) == ReadBulk(n, rest)
    ensures s[0] == STAR ==> Read(s) == if n == -1 then Ok(Null, rest) else if n < -1 then Panic else ReadItems(n, rest)
  {
  }

  /** readRESP reads every encoding of every reply and leaves the bytes after it untouched. */
  lemma {:induction false} EncodingIsRead(t: Text, r: Reply, rest: Text)
    requires Encodes(t, r)
    ensures Reads(t + rest, r, rest)
    decreases r, 0
  {
    match r {
      case Null =>
        if IsNumberLine(t, DOLLAR, -1) { ReadOfNumberLine(t, DOLLAR, -1, rest); }
        else { ReadOfNumberLine(t, STAR, -1, rest); }
      case Integer(n) => ReadOfNumberLine(t, COLON, n, rest);
      case Bulk(payload) => BulkIsRead(t, payload, rest);
      case Array(items) =>
        var k: nat :| IsArrayAt(t, k, items);
        ItemsAreRead(t[k..], items, rest);
        ArrayIsRead(t[..k], t[k..] + rest, items, rest);
        Split(t, k, rest);
    }
  }

  lemma ArrayIsRead(head: Text, body: Text, items: seq<Reply>, rest: Text)
    requires IsNumberLine(head, STAR, |items|) && ReadsAll(body, items, rest)
    ensures Reads(head + body, Array(items), rest)
  {
    ReadOfNumberLine(head, STAR, |items|, body);
  }

  lemma Split(t: Text, k: nat, rest: Text)
    requires k <= |t|
    ensures t[..k] + (t[k..] + rest) == t + rest
  {
  }

  lemma BulkIsRead(t: Text, payload: Text, rest: Text)
    requires Encodes(t, Bulk(payload))
    ensures Reads(t + rest, Bulk(payload), rest)
  {
    if IsLine(t, SIMPLE, payload) {
      ReadOfLine(t, SIMPLE, payload, rest);
    } else {
      var k: nat :| k <= |t| && IsBulk(t[..k], t[k..], payload);
      var body := t[k..] + rest;
      ReadOfNumberLine(t[..k], DOLLAR, |payload|, body);
      Split(t, k, rest);
      assert body[..|payload|] == t[k..][..|payload|] && body[|payload| + 2..] == rest;
    }
  }

  lemma {:induction false} ItemsAreRead(t: Text, items: seq<Reply>, rest: Text)
    requires EncodesAll(t, items)
    ensures ReadsAll(t + rest, items, rest)
    decreases items, 1
  {
    if items == [] {
      assert t + rest == rest;
    } else {
      var first, later := FirstOfItems(t, items);
      EncodingIsRead(first, items[0], later + rest);
      ItemsAreRead(later, items[1..], rest);
      FirstAndRest(items);
      Associated(first, later, rest);
      ItemThenItems(t + rest, items[0], later + rest, items[1..], rest);
    }
  }

  lemma ItemThenItems(s: Text, first: Reply, later: Text, more: seq<Reply>, rest: Text)
    requires Reads(s, first, later) && ReadsAll(later, more, rest)
    ensures ReadsAll(s, [first] + more, rest)
  {
  }

  lemma FirstOfItems(t: Text, items: seq<Reply>) returns (first: Text, later: Text)
    requires EncodesAll(t, items) && items != []
    ensures t == first + later && Encodes(first, items[0]) && EncodesAll(later, items[1..])
  {
    var k: nat :| IsItemAt(t, k, items);
    first, later := t[..k], t[k..];
  }

  lemma Associated(a: Text, b: Text, c: Text)
    ensures a + (b + c) == a + b + c
  {
  }

  lemma FirstAndRest(items: seq<Reply>)
    requires items != []
    ensures [items[0]] + items[1..] == items
  {
  }

  /** And it reads nothing else: what it takes from the input is an encoding of its answer. */
  lemma {:induction false} ReadIsEncoding(s: Text, r: Reply, rest: Text) returns (t: Text)
    requires Reads(s, r, rest)
    ensures s == t + rest && Encodes(t, r)
    decreases |s|, 0, 0
  {
    var (line, after) := ReadLine(s[1..]).value;
    var head := FirstLine(s);
    if s[0] == STAR && ParseInt(line).value >= 0 {
      ReadOfNumber(s, line, after, ParseInt(line).value);
      ReadItemsShape(ParseInt(line).value, after);
      var body := ReadItemsIsEncoding(after, r.items, rest);
      NumberLine(head, STAR, line, |r.items|);
      ArrayEncodes(head, body, r.items);
      Associated(head, body, rest);
      t := head + body;
    } else {
      t := TakenOther(s, head, line, after, r, rest);
    }
  }

  lemma FirstLine(s: Text) returns (head: Text)
    requires s != [] && ReadLine(s[1..]).Some?
    ensures var (line, rest) := ReadLine(s[1..]).value; s == head + rest && IsLine(head, s[0], line)
  {
    ReadLineSplits(s[1..]);
    var (line, rest) := ReadLine(s[1..]).value;
    if s[1..] == line + CRLF + rest {
      head := [s[0]] + line + CRLF;
    } else {
      head := [s[0]] + line + [LF];
    }
    assert s == [s[0]] + s[1..];
  }

  lemma NumberLine(head: Text, prefix: Byte, line: Text, n: int)
    requires IsLine(head, prefix, line) && ParseInt(line) == Some(n)
    ensures IsNumberLine(head, prefix, n)
  {
    ParseIntIff(line, n);
  }

  lemma TakenOther(s: Text, head: Text, line: Text, after: Text, r: Reply, rest: Text) returns (t: Text)
    requires Reads(s, r, rest) && ReadLine(s[1..]) == Some((line, after)) && s == head + after
    requires IsLine(head, s[0], line) && (s[0] == STAR ==> ParseInt(line).Some? && ParseInt(line).value < 0)
    ensures s == t + rest && Encodes(t, r)
  {
    t := head;
    if s[0] != SIMPLE {
      var n := ParseInt(line).value;
      NumberLine(head, s[0], line, n);
      ReadOfNumber(s, line, after, n);
      if s[0] == DOLLAR && n >= 0 { t := TakenBulk(head, after, n); }
    }
  }

  lemma TakenBulk(head: Text, after: Text, n: nat) returns (t: Text)
    requires IsNumberLine(head, DOLLAR, n) && |after| >= n + 2
    ensures head + after == t + after[n + 2..] && Encodes(t, Bulk(after[..n]))
  {
    var body := after[..n + 2];
    assert body[..n] == after[..n];
    BulkEncodes(head, body, after[..n]);
    Associated(head, body, after[n + 2..]);
    assert after == body + after[n + 2..];
    t := head + body;
  }

  lemma BulkEncodes(head: Text, body: Text, payload: Text)
    requires IsBulk(head, body, payload)
    ensures Encodes(head + body, Bulk(payload))
  {
    var t, k := head + body, |head|;
    assert t[..k] == head && t[k..] == body;
  }

  lemma ArrayEncodes(head: Text, body: Text, items: seq<Reply>)
    requires IsNumberLine(head, STAR, |items|) && EncodesAll(body, items)
    ensures Encodes(head + body, Array(items))
  {
    var t, k := head + body, |head|;
    assert t[..k] == head && t[k..] == body;
    assert IsArrayAt(t, k, items);
  }

  lemma ItemsEncode(first: Text, later: Text, r: Reply, more: seq<Reply>)
    requires Encodes(first, r) && EncodesAll(later, more)
    ensures EncodesAll(first + later, [r] + more)
  {
    var t, k, items := first + later, |first|, [r] + more;
    assert t[..k] == first && t[k..] == later;
    assert items[0] == r && items[1..] == more;
    assert IsItemAt(t, k, items);
  }

  lemma {:induction false} ReadItemsIsEncoding(s: Text, items: seq<Reply>, rest: Text) returns (t: Text)
    requires ReadsAll(s, items, rest)
    ensures s == t + rest && EncodesAll(t, items)
    decreases |s|, 1, |items|
  {
    if items == [] {
      t := [];
    } else {
      var later := ItemsStep(s, items, rest);
      var head := ReadIsEncoding(s, items[0], later);
      var body := ReadItemsIsEncoding(later, items[1..], rest);
      ItemsEncode(head, body, items[0], items[1..]);
      FirstAndRest(items);
      Associated(head, body, rest);
      t := head + body;
    }
  }

  lemma ItemsStep(s: Text, items: seq<Reply>, rest: Text) returns (later: Text)
    requires ReadsAll(s, items, rest) && items != []
    ensures Reads(s, items[0], later) && ReadsAll(later, items[1..], rest) && |later| < |s|
  {
    var first := Read(s);
    later := first.rest;
    var more := ReadItems(|items| - 1, later);
    assert items == [first.reply] + more.reply.items;
    assert items[1..] == more.reply.items;
  }

  lemma {:induction false} ReadItemsShape(n: nat, s: Text)
    ensures ReadItems(n, s).Ok? ==> |ReadItems(n, s).reply.items| == n
    decreases n
  {
    if n > 0 && Read(s).Ok? { ReadItemsShape(n - 1, Read(s).rest); }
  }

  // ---------------------------------------------------------------------
  // Truncated and faulty input.

  /** A reply that is cut off anywhere is never taken for another one. */
  lemma {:induction false} CutOffIsIncomplete(t: Text, r: Reply, k: nat)
    requires Encodes(t, r) && k < |t|
    ensures Read(t[..k]) == EndOfInput
    decreases r, 0
  {
    match r {
      case Null => CutNumberLine(t, if IsNumberLine(t, DOLLAR, -1) then DOLLAR else STAR, -1, k);
      case Integer(n) => CutNumberLine(t, COLON, n, k);
      case Bulk(payload) => CutBulk(t, payload, k);
      case Array(items) =>
        var h: nat :| IsArrayAt(t, h, items);
        CutHead(t, h, STAR, |items|, k);
        if h <= k {
          CutOffItems(t[h..], items, k - h);
          assert t[h..][..k - h] == t[h..k];
          ErrorInArray(t[..h], t[h..k], |items|, EndOfInput);
        }
    }
  }

  lemma CutBulk(t: Text, payload: Text, k: nat)
    requires Encodes(t, Bulk(payload)) && k < |t|
    ensures Read(t[..k]) == EndOfInput
  {
    if IsLine(t, SIMPLE, payload) {
      CutLine(t, SIMPLE, payload, k);
    } else {
      var h: nat :| h <= |t| && IsBulk(t[..h], t[h..], payload);
      CutHead(t, h, DOLLAR, |payload|, k);
      if h <= k { ReadOfNumberLine(t[..h], DOLLAR, |payload|, t[h..k]); }
    }
  }

  lemma CutLine(t: Text, prefix: Byte, line: Text, k: nat)
    requires IsLine(t, prefix, line) && k < |t|
    ensures Read(t[..k]) == EndOfInput
  {
    var cut := t[..k];
    if cut != [] {
      forall i | 0 <= i < |cut| - 1 ensures cut[1..][i] != LF {
        assert cut[1..][i] == t[i + 1];
        if i < |line| { assert t[i + 1] == line[i] && line[i] in line; }
      }
      IndexIsFirst(cut[1..], LF);
    }
  }

  lemma CutNumberLine(t: Text, prefix: Byte, n: int, k: nat)
    requires IsNumberLine(t, prefix, n) && k < |t|
    ensures Read(t[..k]) == EndOfInput
  {
    var line :| IsLine(t, prefix, line) && IsNumeral(line, n);
    CutLine(t, prefix, line, k);
  }

  lemma CutHead(t: Text, h: nat, prefix: Byte, n: int, k: nat)
    requires h <= |t| && k < |t| && IsNumberLine(t[..h], prefix, n)
    ensures k < h ==> Read(t[..k]) == EndOfInput
    ensures h <= k ==> t[..k] == t[..h] + t[h..k]
  {
    if k < h {
      CutNumberLine(t[..h], prefix, n, k);
      assert t[..h][..k] == t[..k];
    }
  }

  /** The reader stops with `e` within the next `n` elements. */
  predicate Fails(s: Text, n: nat, e: Outcome) {
    !e.Ok? && ReadItems(n, s) == e
  }

  lemma {:induction false} CutOffItems(t: Text, items: seq<Reply>, k: nat)
    requires EncodesAll(t, items) && k < |t|
    ensures Fails(t[..k], |items|, EndOfInput)
    decreases items, 1
  {
    var first, later := FirstOfItems(t, items);
    var h := |first|;
    if k < h {
      CutOffIsIncomplete(first, items[0], k);
      CutInFirst(first, later, k);
      ErrorFirst(t[..k], |items|, EndOfInput);
    } else {
      CutOffItems(later, items[1..], k - h);
      CutAfterFirst(t, first, items[0], later, k, |items| - 1);
    }
  }

  lemma CutAfterFirst(t: Text, first: Text, r: Reply, later: Text, k: nat, n: nat)
    requires t == first + later && Encodes(first, r) && |first| <= k < |t|
    requires Fails(later[..k - |first|], n, EndOfInput)
    ensures Fails(t[..k], n + 1, EndOfInput)
  {
    CutInSecond(first, later, k);
    ErrorAfterItem(first, r, later[..k - |first|], n, EndOfInput);
  }

  lemma CutInFirst(a: Text, b: Text, k: nat)
    requires k < |a|
    ensures (a + b)[..k] == a[..k]
  {
  }

  lemma CutInSecond(a: Text, b: Text, k: nat)
    requires |a| <= k < |a + b|
    ensures (a + b)[..k] == a + b[..k - |a|]
  {
  }

  lemma ErrorFirst(bad: Text, n: nat, e: Outcome)
    requires n > 0 && !e.Ok? && Read(bad) == e
    ensures Fails(bad, n, e)
  {
  }

  lemma ErrorAfterItem(first: Text, r: Reply, later: Text, n: nat, e: Outcome)
    requires Encodes(first, r) && Fails(later, n, e)
    ensures Fails(first + later, n + 1, e)
  {
    EncodingIsRead(first, r, later);
    ItemThenError(first + later, r, later, n, e);
  }

  lemma ItemThenError(s: Text, first: Reply, later: Text, n: nat, e: Outcome)
    requires Reads(s, first, later) && Fails(later, n, e)
    ensures Fails(s, n + 1, e)
  {
  }

  lemma {:induction false} ErrorAfterItems(t: Text, items: seq<Reply>, bad: Text, m: nat, n: nat, e: Outcome)
    requires EncodesAll(t, items) && n == |items| + m && Fails(bad, m, e)
    ensures Fails(t + bad, n, e)
    decreases items
  {
    if items == [] {
      NothingBefore(t, bad);
    } else {
      var first, later := FirstOfItems(t, items);
      ErrorAfterItems(later, items[1..], bad, m, n - 1, e);
      ErrorAfterFirst(t, first, items[0], later, bad, n, e);
    }
  }

  lemma NothingBefore(t: Text, bad: Text)
    requires t == []
    ensures t + bad == bad
  {
  }

  lemma ErrorAfterFirst(t: Text, first: Text, r: Reply, later: Text, bad: Text, n: nat, e: Outcome)
    requires t == first + later && Encodes(first, r) && n > 0 && Fails(later + bad, n - 1, e)
    ensures Fails(t + bad, n, e)
  {
    Associated(first, later, bad);
    ErrorAfterItem(first, r, later + bad, n - 1, e);
  }

  /** In an array the first element that is no reply decides. */
  lemma FirstErrorDecides(head: Text, t: Text, items: seq<Reply>, n: nat, bad: Text, e: Outcome)
    requires IsNumberLine(head, STAR, n) && EncodesAll(t, items) && |items| < n
    requires Read(bad) == e && !e.Ok?
    ensures Read(head + (t + bad)) == e
  {
    ErrorFirst(bad, n - |items|, e);
    ErrorAfterItems(t, items, bad, n - |items|, n, e);
    ErrorInArray(head, t + bad, n, e);
  }

  lemma ErrorInArray(head: Text, body: Text, n: nat, e: Outcome)
    requires IsNumberLine(head, STAR, n) && Fails(body, n, e)
    ensures Read(head + body) == e
  {
    ReadOfNumberLine(head, STAR, n, body);
  }

  // ---------------------------------------------------------------------
  // Round trips.

  /** Every integer and length in the reply is an int64. */
  predicate Representable(r: Reply) {
    match r
    case Null => true
    case Integer(n) => IsInt64(n)
    case Bulk(t) => IsInt64(|t|)
    case Array(items) => IsInt64(|items|) && forall i :: 0 <= i < |items| ==> Representable(items[i])
  }

  lemma DecimalLine(prefix: Byte, n: int)
    requires IsInt64(n)
    ensures IsNumberLine([prefix] + Decimal(n) + CRLF, prefix, n)
  {
    DecimalHasNoLF(n);
    ParseOfDecimal(n);
    ParseIntIff(Decimal(n), n);
    assert IsLine([prefix] + Decimal(n) + CRLF, prefix, Decimal(n));
  }

  lemma BulkTextEncodes(p: Text)
    requires IsInt64(|p|)
    ensures Encodes(BulkText(p), Bulk(p))
  {
    DecimalLine(DOLLAR, |p|);
    BulkEncodes([DOLLAR] + Decimal(|p|) + CRLF, p + CRLF, p);
    Associated([DOLLAR] + Decimal(|p|) + CRLF, p, CRLF);
  }

  lemma {:induction false} ReplyTextEncodes(r: Reply)
    requires Representable(r)
    ensures Encodes(ReplyText(r), r)
    decreases r, 0
  {
    match r {
      case Null => DecimalLine(DOLLAR, -1);
      case Integer(n) => DecimalLine(COLON, n);
      case Bulk(t) => BulkTextEncodes(t);
      case Array(items) =>
        ItemsTextEncodes(items);
        DecimalLine(STAR, |items|);
        ArrayEncodes([STAR] + Decimal(|items|) + CRLF, ItemsText(items), items);
    }
  }

  lemma {:induction false} ItemsTextEncodes(items: seq<Reply>)
    requires forall i :: 0 <= i < |items| ==> Representable(items[i])
    ensures EncodesAll(ItemsText(items), items)
    decreases items, 1
  {
    if items != [] {
      ReplyTextEncodes(items[0]);
      ItemsTextEncodes(items[1..]);
      ItemsEncode(ReplyText(items[0]), ItemsText(items[1..]), items[0], items[1..]);
      FirstAndRest(items);
    }
  }

  /** readRESP inverts what a server sends; bulk strings may hold any bytes, line ends included. */
  lemma ReadInvertsReply(r: Reply, rest: Text)
    requires Representable(r)
    ensures Read(ReplyText(r) + rest) == Ok(r, rest)
  {
    ReplyTextEncodes(r);
    EncodingIsRead(ReplyText(r), r, rest);
  }

  /** The replies of an idle server and of a missing key, and one command, byte by byte. */
  lemma KnownBytes()
    ensures Encodes([36, 45, 49, 13, 10], Null) && Encodes([42, 45, 49, 13, 10], Null)
    ensures Encodes([42, 48, 13, 10], Array([])) && Encodes([58, 55, 13, 10], Integer(7))
    ensures CommandText([[71, 69, 84], [107]])
         == [42, 50, 13, 10, 36, 51, 13, 10, 71, 69, 84, 13, 10, 36, 49, 13, 10, 107, 13, 10]
  {
    KnownNulls();
    KnownReplies();
    KnownCommand();
  }

  lemma KnownNulls()
    ensures IsNumberLine([36, 45, 49, 13, 10], DOLLAR, -1) && IsNumberLine([42, 45, 49, 13, 10], STAR, -1)
  {
    SomeDecimals();
    DecimalLine(DOLLAR, -1);
    DecimalLine(STAR, -1);
    assert [DOLLAR] + Decimal(-1) + CRLF == [36, 45, 49, 13, 10];
    assert [STAR] + Decimal(-1) + CRLF == [42, 45, 49, 13, 10];
  }

  lemma KnownReplies()
    ensures Encodes([42, 48, 13, 10], Array([])) && Encodes([58, 55, 13, 10], Integer(7))
  {
    SomeDecimals();
    ReplyTextEncodes(Array([]));
    ReplyTextEncodes(Integer(7));
    assert ReplyText(Array([])) == [42, 48, 13, 10];
    assert ReplyText(Integer(7)) == [58, 55, 13, 10];
  }

  lemma KnownCommand()
    ensures CommandText([[71, 69, 84], [107]])
         == [42, 50, 13, 10, 36, 51, 13, 10, 71, 69, 84, 13, 10, 36, 49, 13, 10, 107, 13, 10]
  {
    var get: Text, key: Text := [71, 69, 84], [107];
    assert BulkText(get) == [36, 51, 13, 10, 71, 69, 84, 13, 10];
    assert BulkText(key) == [36, 49, 13, 10, 107, 13, 10];
    assert [get, key][1..] == [key] && [key][1..] == [];
    assert Arguments([key]) == BulkText(key);
    assert Arguments([get, key]) == BulkText(get) + BulkText(key);
  }

  function AsReplies(args: seq<Text>): (r: seq<Reply>)
    ensures |r| == |args| && forall i :: 0 <= i < |r| ==> r[i] == Bulk(args[i])
  {
    seq(|args|, i requires 0 <= i < |args| => Bulk(args[i]))
  }

  lemma {:induction false} ArgumentsAreItems(args: seq<Text>)
    ensures Arguments(args) == ItemsText(AsReplies(args))
  {
    if args != [] {
      ArgumentsAreItems(args[1..]);
      assert AsReplies(args)[1..] == AsReplies(args[1..]);
    }
  }

  /** readRESP inverts writeRESPCommand on arbitrary byte strings. */
  lemma ReadInvertsCommand(args: seq<Text>, rest: Text)
    requires IsInt64(|args|) && forall i :: 0 <= i < |args| ==> IsInt64(|args[i]|)
    ensures Read(CommandText(args) + rest) == Ok(Array(AsReplies(args)), rest)
  {
    ArgumentsAreItems(args);
    ReadInvertsReply(Array(AsReplies(args)), rest);
  }

  /** Simple strings and error messages survive exactly when they hold no line feed. */
  lemma SimpleTextIff(t: Text, rest: Text)
    ensures Read([SIMPLE] + (t + CRLF + rest)) == Ok(Bulk(t), rest) <==> LF !in t
    ensures Read([ERROR] + (t + CRLF + rest)) == RedisError(t) <==> LF !in t
  {
    LineIff(t, rest);
    ReadOfText(t + CRLF + rest);
  }

  lemma ReadOfText(body: Text)
    requires ReadLine(body).Some?
    ensures Read([SIMPLE] + body) == Ok(Bulk(ReadLine(body).value.0), ReadLine(body).value.1)
    ensures Read([ERROR] + body) == RedisError(ReadLine(body).value.0)
  {
    assert ([SIMPLE] + body)[1..] == body;
    assert ([ERROR] + body)[1..] == body;
  }

  lemma LineIff(t: Text, rest: Text)
    ensures ReadLine(t + CRLF + rest).Some?
    ensures ReadLine(t + CRLF + rest).value.0 == t <==> LF !in t
    ensures LF !in t ==> ReadLine(t + CRLF + rest).value.1 == rest
  {
    var s := t + CRLF + rest;
    IndexIsFirst(s, LF);
    assert s[|t| + 1] == LF;
    if LF !in t {
      ReadLineOf(t, rest);
    } else {
      var i :| 0 <= i < |t| && t[i] == LF;
      assert s[i] == LF;
      assert IndexOf(s, LF).value <= i;
    }
  }
}
