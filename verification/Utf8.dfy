// UTF-8 as JavaScript buffers decode it: ill-formed parts become U+FFFD.
module Utf8 {
  import opened Basics
  import opened Bytes

  type Scalar = c: int | 0 <= c < 0x110000 && !(0xD800 <= c < 0xE000)

  const REPLACEMENT: Scalar := 0xFFFD

  function EncodeOne(c: Scalar): (t: Text)
    ensures 1 <= |t| <= 4
  {
    if c < 0x80 then [c]
    else if c < 0x800 then [0xC0 + c / 64, 0x80 + c % 64]
    else if c < 0x10000 then [0xE0 + c / 4096, 0x80 + c / 64 % 64, 0x80 + c % 64]
    else [0xF0 + c / 262144, 0x80 + c / 4096 % 64, 0x80 + c / 64 % 64, 0x80 + c % 64]
  }

  function Encode(s: seq<Scalar>): Text {
    if s == [] then [] else EncodeOne(s[0]) + Encode(s[1..])
  }

  /** Bytes announced by a lead byte; zero for a byte that cannot lead. */
  function Announced(lead: Byte): nat {
    if lead < 0x80 then 1
    else if 0xC2 <= lead <= 0xDF then 2
    else if 0xE0 <= lead <= 0xEF then 3
    else if 0xF0 <= lead <= 0xF4 then 4
    else 0
  }

  /** Second bytes that exclude overlong forms, surrogates and values too large. */
  predicate Second(lead: Byte, b: Byte) {
    (if lead == 0xE0 then 0xA0 else if lead == 0xF0 then 0x90 else 0x80) <= b
    <= (if lead == 0xED then 0x9F else if lead == 0xF4 then 0x8F else 0xBF)
  }

  predicate Continues(b: Text, k: nat) {
    k < |b| && 0x80 <= b[k] <= 0xBF
  }

  function Bits(b: Byte, base: int): int {
    b - base
  }

  datatype Unit = Unit(scalar: Scalar, size: nat)

  /** The first scalar, or U+FFFD for the longest prefix that could have begun one. */
  function DecodeOne(b: Text): (u: Unit)
    requires b != []
    ensures 1 <= u.size <= |b| && u.size <= 4
  {
    var n := Announced(b[0]);
    if n == 1 then Unit(b[0], 1)
    else if n == 0 || |b| < 2 || !Second(b[0], b[1]) then Unit(REPLACEMENT, 1)
    else if n == 2 then Unit(Bits(b[0], 0xC0) * 64 + Bits(b[1], 0x80), 2)
    else if !Continues(b, 2) then Unit(REPLACEMENT, 2)
    else if n == 3 then Unit(Bits(b[0], 0xE0) * 4096 + Bits(b[1], 0x80) * 64 + Bits(b[2], 0x80), 3)
    else if !Continues(b, 3) then Unit(REPLACEMENT, 3)
    else Unit(Bits(b[0], 0xF0) * 262144 + Bits(b[1], 0x80) * 4096 + Bits(b[2], 0x80) * 64 + Bits(b[3], 0x80), 4)
  }

  function Decode(b: Text): seq<Scalar> {
    if b == [] then []
    else
      var u := DecodeOne(b);
      [u.scalar] + Decode(b[u.size..])
  }

  lemma {:induction false} DecodeLength(b: Text)
    ensures |Decode(b)| <= |b| <= 4 * |Decode(b)|
  {
    if b != [] {
      DecodeLength(b[DecodeOne(b).size..]);
    }
  }

  lemma Digits64(c: nat)
    ensures c == c / 64 * 64 + c % 64
    ensures c / 4096 == c / 64 / 64 && c / 262144 == c / 64 / 64 / 64
    ensures c == c / 4096 * 4096 + c / 64 % 64 * 64 + c % 64
    ensures c == c / 262144 * 262144 + c / 4096 % 64 * 4096 + c / 64 % 64 * 64 + c % 64
  {
  }

  lemma DecodeOneOfEncode(c: Scalar, rest: Text)
    ensures DecodeOne(EncodeOne(c) + rest) == Unit(c, |EncodeOne(c)|)
  {
    Digits64(c);
  }

  /** These bytes are the beginning of some scalar's encoding, or all of it. */
  ghost predicate Begins(p: Text) {
    exists c: Scalar :: p <= EncodeOne(c)
  }

  /** Lead bytes announce the length, and what follows them is as expected. */
  lemma EncodedShape(c: Scalar)
    ensures var t := EncodeOne(c);
      && Announced(t[0]) == |t|
      && (|t| > 1 ==> Second(t[0], t[1]))
      && (|t| > 2 ==> Continues(t, 2))
      && (|t| > 3 ==> Continues(t, 3))
  {
    Digits64(c);
  }

  /** No longer beginning is passed over. */
  lemma BeginningIsTaken(b: Text, k: nat, c: Scalar)
    requires b != [] && k <= |b| && b[..k] <= EncodeOne(c)
    ensures k <= DecodeOne(b).size
  {
    var t := EncodeOne(c);
    EncodedShape(c);
    assert forall i :: 0 <= i < k ==> b[i] == b[..k][i] == t[i];
  }

  lemma Base64(a: nat, b: nat)
    requires b < 64
    ensures (a * 64 + b) / 64 == a && (a * 64 + b) % 64 == b
  {
  }

  /** The scalar with these sextets. */
  lemma Sextets(a: nat, b: nat, c: nat, d: nat)
    requires b < 64 && c < 64 && d < 64
    ensures var v := a * 262144 + b * 4096 + c * 64 + d;
      v / 262144 == a && v / 4096 % 64 == b && v / 64 % 64 == c && v % 64 == d && v / 4096 == a * 64 + b
  {
    var v := a * 262144 + b * 4096 + c * 64 + d;
    Digits64(v);
    Base64((a * 64 + b) * 64 + c, d);
    Base64(a * 64 + b, c);
    Base64(a, b);
  }

  lemma TwoBegin(x: Byte, y: Byte)
    requires Announced(x) > 2 && Second(x, y)
    ensures Begins([x, y])
  {
    if Announced(x) == 3 {
      ThreeOf(x, y, 0x80);
      var c: Scalar := (x - 0xE0) * 4096 + (y - 0x80) * 64;
      assert [x, y] <= EncodeOne(c);
    } else {
      FourOf(x, y, 0x80, 0x80);
      var c: Scalar := (x - 0xF0) * 262144 + (y - 0x80) * 4096;
      assert [x, y] <= EncodeOne(c);
    }
  }

  /** The encodings of three and four bytes. */
  lemma ThreeOf(x: Byte, y: Byte, z: Byte)
    requires Announced(x) == 3 && Second(x, y) && 0x80 <= z <= 0xBF
    ensures var v := (x - 0xE0) * 4096 + (y - 0x80) * 64 + (z - 0x80);
      0x800 <= v < 0x10000 && !(0xD800 <= v < 0xE000) && EncodeOne(v) == [x, y, z]
  {
    Sextets(0, x - 0xE0, y - 0x80, z - 0x80);
  }

  lemma FourOf(x: Byte, y: Byte, z: Byte, w: Byte)
    requires Announced(x) == 4 && Second(x, y) && 0x80 <= z <= 0xBF && 0x80 <= w <= 0xBF
    ensures var v := (x - 0xF0) * 262144 + (y - 0x80) * 4096 + (z - 0x80) * 64 + (w - 0x80);
      0x10000 <= v < 0x110000 && EncodeOne(v) == [x, y, z, w]
  {
    Sextets(x - 0xF0, y - 0x80, z - 0x80, w - 0x80);
  }

  /** Where no scalar is encoded, one U+FFFD stands for the longest beginning of
      an encoding, or for a single byte that cannot begin one. */
  lemma IllFormedIsReplaced(b: Text)
    requires b != [] && forall c: Scalar :: !(EncodeOne(c) <= b)
    ensures var u := DecodeOne(b);
      && u.scalar == 0xFFFD
      && (u.size == 1 || Begins(b[..u.size]))
      && forall k: nat :: u.size < k <= |b| ==> !Begins(b[..k])
  {
    var u := DecodeOne(b);
    forall k: nat | u.size < k <= |b| ensures !Begins(b[..k]) {
      if Begins(b[..k]) {
        var c: Scalar :| b[..k] <= EncodeOne(c);
        BeginningIsTaken(b, k, c);
      }
    }
    IllFormedUnit(b);
  }

  lemma IllFormedUnit(b: Text)
    requires b != [] && forall c: Scalar :: !(EncodeOne(c) <= b)
    ensures DecodeOne(b).scalar == 0xFFFD
    ensures DecodeOne(b).size == 1 || Begins(b[..DecodeOne(b).size])
  {
    var u := DecodeOne(b);
    if u.size == Announced(b[0]) {
      WellFormedUnit(b);
    } else if u.size == 2 {
      TwoBegin(b[0], b[1]);
      assert b[..2] == [b[0], b[1]];
    } else if u.size == 3 {
      FourOf(b[0], b[1], b[2], 0x80);
      var c: Scalar := Bits(b[0], 0xF0) * 262144 + Bits(b[1], 0x80) * 4096 + Bits(b[2], 0x80) * 64;
      assert b[..3] == [b[0], b[1], b[2]] <= EncodeOne(c);
    }
  }

  lemma WellFormedUnit(b: Text)
    requires b != [] && DecodeOne(b).size == Announced(b[0])
    ensures EncodeOne(DecodeOne(b).scalar) <= b
  {
    var n := Announced(b[0]);
    if n == 2 { Base64(Bits(b[0], 0xC0), Bits(b[1], 0x80)); }
    if n == 3 { ThreeOf(b[0], b[1], b[2]); }
    if n == 4 { FourOf(b[0], b[1], b[2], b[3]); }
  }

  /** Decoding inverts encoding. */
  lemma {:induction false} DecodeOfEncode(s: seq<Scalar>)
    ensures Decode(Encode(s)) == s
  {
    if s != [] {
      DecodeOneOfEncode(s[0], Encode(s[1..]));
      assert Encode(s)[|EncodeOne(s[0])|..] == Encode(s[1..]);
      DecodeOfEncode(s[1..]);
    }
  }

  ghost predicate Valid(b: Text) {
    exists s :: b == Encode(s)
  }

  /** Bytes survive decoding and encoding exactly when they are valid UTF-8. */
  lemma ReencodesIff(b: Text)
    ensures Encode(Decode(b)) == b <==> Valid(b)
  {
    if Valid(b) {
      var s :| b == Encode(s);
      DecodeOfEncode(s);
    }
  }
}
