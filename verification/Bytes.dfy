// Byte strings, decimal numbers and lines.
module Bytes {
  import opened Basics

  type Byte = b: int | 0 <= b < 256

  type Text = seq<Byte>

  const CR: Byte := 13
  const LF: Byte := 10
  const MINUS: Byte := 45
  const PLUS: Byte := 43
  const CRLF: Text := [CR, LF]

  predicate IsDigit(b: Byte) {
    48 <= b <= 57
  }

  predicate AllDigits(s: Text) {
    forall i :: 0 <= i < |s| ==> IsDigit(s[i])
  }

  function Value(s: Text): nat
    requires AllDigits(s)
  {
    if s == [] then 0 else 10 * Value(s[..|s| - 1]) + (s[|s| - 1] - 48)
  }

  function Digits(n: nat): (s: Text)
    ensures s != [] && AllDigits(s)
  {
    if n < 10 then [48 + n] else Digits(n / 10) + [48 + n % 10]
  }

  function Decimal(n: int): Text {
    if n < 0 then [MINUS] + Digits(-n) else Digits(n)
  }

  const INT64_MAX := 0x7FFF_FFFF_FFFF_FFFF

  predicate IsInt64(n: int) {
    -INT64_MAX - 1 <= n <= INT64_MAX
  }

  /** strconv.ParseInt in base 10: an optional sign, digits, and the int64 range. */
  function ParseInt(s: Text): Option<int> {
    var signed := s != [] && (s[0] == MINUS || s[0] == PLUS);
    var digits := if signed then s[1..] else s;
    if digits == [] || !AllDigits(digits) then None
    else
      var value: int := Value(digits);
      var n := if signed && s[0] == MINUS then -value else value;
      if IsInt64(n) then Some(n) else None
  }

  predicate IsNatural(s: Text, n: int) {
    s != [] && AllDigits(s) && Value(s) == n
  }

  /** An int64 in base 10: digits, with a sign or without. */
  predicate IsNumeral(s: Text, n: int) {
    && IsInt64(n)
    && (|| IsNatural(s, n)
        || (s != [] && s[0] == PLUS && IsNatural(s[1..], n))
        || (s != [] && s[0] == MINUS && IsNatural(s[1..], -n)))
  }

  lemma ParseIntIff(s: Text, n: int)
    ensures ParseInt(s) == Some(n) <==> IsNumeral(s, n)
  {
    if s != [] && (s[0] == MINUS || s[0] == PLUS) { assert !IsDigit(s[0]); }
  }

  lemma {:induction false} ValueOfDigits(n: nat)
    ensures Value(Digits(n)) == n
  {
    if n >= 10 {
      ValueOfDigits(n / 10);
      var s := Digits(n);
      assert s[..|s| - 1] == Digits(n / 10);
    }
  }

  /** Formatting and parsing are inverse on every int64. */
  lemma ParseOfDecimal(n: int)
    requires IsInt64(n)
    ensures ParseInt(Decimal(n)) == Some(n)
  {
    ValueOfDigits(if n < 0 then -n else n);
    if n < 0 {
      assert Decimal(n)[1..] == Digits(-n);
    }
  }

  /** No superfluous zeros: each int64 has one decimal form. */
  lemma {:induction false} DigitsAreCanonical(n: nat)
    ensures Digits(n)[0] == 48 <==> n == 0
    ensures n < 10 <==> |Digits(n)| == 1
  {
    if n >= 10 { DigitsAreCanonical(n / 10); }
  }

  lemma SomeDecimals()
    ensures Decimal(0) == [48] && Decimal(7) == [55] && Decimal(205) == [50, 48, 53]
    ensures Decimal(-1) == [45, 49] && Decimal(-12) == [45, 49, 50]
  {
    assert Digits(20) == [50, 48];
    assert Digits(12) == [49, 50];
  }

  /** The text up to the first LF without it and one CR before it, and what follows. */
  function ReadLine(s: Text): (r: Option<(Text, Text)>)
    ensures r.Some? ==> |r.value.1| < |s|
  {
    match IndexOf(s, LF)
    case None => None
    case Some(k) =>
      var line := s[..k];
      Some((if line != [] && line[|line| - 1] == CR then line[..|line| - 1] else line, s[k + 1..]))
  }

  function IndexOf(s: Text, b: Byte): (r: Option<nat>)
    ensures r.Some? ==> r.value < |s|
  {
    if s == [] then None
    else if s[0] == b then Some(0)
    else
      match IndexOf(s[1..], b)
      case None => None
      case Some(k) => Some(k + 1)
  }

  lemma {:induction false} IndexIsFirst(s: Text, b: Byte)
    ensures IndexOf(s, b).Some? <==> b in s
    ensures IndexOf(s, b).Some? ==>
      var k := IndexOf(s, b).value; s[k] == b && forall i :: 0 <= i < k ==> s[i] != b
  {
    if s != [] && s[0] != b {
      IndexIsFirst(s[1..], b);
      assert forall i :: 1 <= i < |s| ==> s[i] == s[1..][i - 1];
    }
  }

  lemma ReadLineOf(line: Text, rest: Text)
    requires LF !in line
    ensures ReadLine(line + CRLF + rest) == Some((line, rest))
  {
    var s := line + CRLF + rest;
    IndexIsFirst(s, LF);
    assert s[|line| + 1] == LF && s[|line|] == CR;
    assert forall i :: 0 <= i < |line| ==> s[i] == line[i] && line[i] in line;
    var k := IndexOf(s, LF).value;
    assert k == |line| + 1;
    assert s[..k] == line + [CR];
    assert s[k + 1..] == rest;
  }

  lemma ReadLineOfBare(line: Text, rest: Text)
    requires LF !in line && (line == [] || line[|line| - 1] != CR)
    ensures ReadLine(line + [LF] + rest) == Some((line, rest))
  {
    var s := line + [LF] + rest;
    IndexIsFirst(s, LF);
    assert s[|line|] == LF;
    assert forall i :: 0 <= i < |line| ==> s[i] == line[i] && line[i] in line;
    var k := IndexOf(s, LF).value;
    assert k == |line|;
    assert s[..k] == line;
    assert s[k + 1..] == rest;
  }

  lemma ReadLineSplits(s: Text)
    requires ReadLine(s).Some?
    ensures var (line, rest) := ReadLine(s).value;
      && LF !in line
      && (s == line + CRLF + rest || (s == line + [LF] + rest && (line == [] || line[|line| - 1] != CR)))
  {
    IndexIsFirst(s, LF);
    var k := IndexOf(s, LF).value;
    assert s == s[..k] + [LF] + s[k + 1..];
    assert forall i :: 0 <= i < k ==> s[..k][i] == s[i];
    if k > 0 && s[k - 1] == CR {
      assert s[..k] == s[..k - 1] + [CR];
      assert s[..k - 1] + [CR] + [LF] + s[k + 1..] == s[..k - 1] + CRLF + s[k + 1..];
    }
  }

  lemma DecimalHasNoLF(n: int)
    ensures LF !in Decimal(n)
  {
    var s := Decimal(n);
    forall i | 0 <= i < |s| ensures s[i] != LF {
      if n < 0 && i > 0 { assert s[i] == Digits(-n)[i - 1]; }
    }
  }
}
