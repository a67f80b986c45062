/** The hand-written UTF-8 codec of the sandbox polyfills, against RFC 3629. */
module Utf8 {
  import opened Frames
  import opened Bits

  /** A UTF-16 code unit. */
  type unit = u: int | 0 <= u < 0x1_0000

  predicate High(u: int) { 0xD800 <= u <= 0xDBFF }
  predicate Low(u: int) { 0xDC00 <= u <= 0xDFFF }
  predicate Scalar(c: int) { 0 <= c < 0xD800 || 0xE000 <= c <= 0x10FFFF }

  // ---- Reference definitions ----

  /** Section 3 of RFC 3629: the octets of one scalar value. */
  function Octets(c: int): seq<byte>
    requires Scalar(c)
  {
    if c < 0x80 then [c]
    else if c < 0x800 then [192 + c / 64, 128 + c % 64]
    else if c < 0x10000 then [224 + c / 4096, 128 + c / 64 % 64, 128 + c % 64]
    else [240 + c / 262144, 128 + c / 4096 % 64, 128 + c / 64 % 64, 128 + c % 64]
  }

  predicate Tail(b: byte) { 0x80 <= b <= 0xBF }

  /** Section 4 of RFC 3629: the length of the well-formed character at the front, 0 if there is none. */
  function CharLength(b: seq<byte>): (n: nat)
    ensures n <= |b|
  {
    if |b| >= 1 && b[0] <= 0x7F then 1
    else if |b| >= 2 && 0xC2 <= b[0] <= 0xDF && Tail(b[1]) then 2
    else if |b| >= 3 && Tail(b[2])
         && ((b[0] == 0xE0 && 0xA0 <= b[1] <= 0xBF) || (0xE1 <= b[0] <= 0xEC && Tail(b[1]))
          || (b[0] == 0xED && 0x80 <= b[1] <= 0x9F) || (0xEE <= b[0] <= 0xEF && Tail(b[1]))) then 3
    else if |b| >= 4 && Tail(b[2]) && Tail(b[3])
         && ((b[0] == 0xF0 && 0x90 <= b[1] <= 0xBF) || (0xF1 <= b[0] <= 0xF3 && Tail(b[1]))
          || (b[0] == 0xF4 && 0x80 <= b[1] <= 0x8F)) then 4
    else 0
  }

  predicate WellFormed(b: seq<byte>) {
    b == [] || (CharLength(b) > 0 && WellFormed(b[CharLength(b)..]))
  }

  /** The code point of a surrogate pair. */
  function Combined(high: int, low: int): int { 0x10000 + (high - 0xD800) * 1024 + (low - 0xDC00) }

  /** The code point at the front of a UTF-16 string, U+FFFD for a lone surrogate. */
  function FirstPoint(s: seq<unit>): (c: int)
    requires s != []
    ensures Scalar(c)
  {
    if High(s[0]) && |s| > 1 && Low(s[1]) then Combined(s[0], s[1])
    else if High(s[0]) || Low(s[0]) then 0xFFFD
    else s[0]
  }

  /** The number of code units the code point at the front takes. */
  function FirstWidth(s: seq<unit>): (n: nat)
    requires s != []
    ensures 1 <= n <= |s|
  {
    if High(s[0]) && |s| > 1 && Low(s[1]) then 2 else 1
  }

  /** UTF-16 of a scalar value. */
  function Units(c: int): seq<unit>
    requires Scalar(c)
  {
    if c < 0x10000 then [c] else [0xD800 + (c - 0x10000) / 1024, 0xDC00 + (c - 0x10000) % 1024]
  }

  /** The string with every lone surrogate replaced by U+FFFD. */
  function Scrubbed(s: seq<unit>): seq<unit> {
    if s == [] then [] else Units(FirstPoint(s)) + Scrubbed(s[FirstWidth(s)..])
  }

  function Encoding(s: seq<unit>): seq<byte> {
    if s == [] then [] else Octets(FirstPoint(s)) + Encoding(s[FirstWidth(s)..])
  }

  // ---- The decoder's step, on any bytes ----

  /** A byte as an operand of &: past the end it is undefined, which counts as zero. */
  function At(b: seq<byte>, i: nat): byte { if i < |b| then b[i] else 0 }

  function LeadLength(b: byte): nat { if b < 128 then 1 else if b < 224 then 2 else if b < 240 then 3 else 4 }

  function DecodedPoint(b: seq<byte>): (c: nat)
    requires b != []
    ensures c <= 0x1FFFFF
  {
    if b[0] < 128 then b[0]
    else if b[0] < 224 then b[0] % 32 * 64 + At(b, 1) % 64
    else if b[0] < 240 then b[0] % 16 * 4096 + At(b, 1) % 64 * 64 + At(b, 2) % 64
    else b[0] % 8 * 262144 + At(b, 1) % 64 * 4096 + At(b, 2) % 64 * 64 + At(b, 3) % 64
  }

  /** String.fromCharCode of a code point, as a pair if it needs one. */
  function DecodedUnits(c: nat): seq<unit>
    requires c <= 0x1FFFFF
  {
    if c > 0xFFFF then [0xD800 + (c - 0x10000) / 1024, 0xDC00 + (c - 0x10000) % 1024] else [c]
  }

  function Drop(b: seq<byte>, n: nat): seq<byte> { if n <= |b| then b[n..] else [] }

  /** What the polyfill decodes any bytes to, well-formed or not. */
  function Decoding(b: seq<byte>): seq<unit>
    decreases |b|
  {
    if b == [] then [] else DecodedUnits(DecodedPoint(b)) + Decoding(Drop(b, LeadLength(b[0])))
  }

  // ---- The polyfill loops ----

  /** The bytes the encoder pushes for a code point, as it computes them. */
  function Pushed(c: int): seq<int>
    requires Scalar(c)
  {
    if c < 0x80 then [c]
    else if c < 0x800 then [Or(0xC0, c / 64), Or(0x80, c % 64)]
    else if c < 0x10000 then [Or(0xE0, c / 4096), Or(0x80, c / 64 % 64), Or(0x80, c % 64)]
    else [Or(0xF0, c / 262144), Or(0x80, c / 4096 % 64), Or(0x80, c / 64 % 64), Or(0x80, c % 64)]
  }

  lemma Continuation(d: int)
    requires 0 <= d < 64
    ensures Or(0x80, d) == 128 + d
  {
    OrAdds6(2, d);
  }

  lemma Lead2(d: int)
    requires 0 <= d < 32
    ensures Or(0xC0, d) == 192 + d
  {
    OrAdds6(3, d);
  }

  lemma Lead3(d: int)
    requires 0 <= d < 16
    ensures Or(0xE0, d) == 224 + d
  {
    OrAdds4(14, d);
  }

  lemma Lead4(d: int)
    requires 0 <= d < 8
    ensures Or(0xF0, d) == 240 + d
  {
    OrAdds4(15, d);
  }

  lemma PushedIsOctets(c: int)
    requires Scalar(c)
    ensures Pushed(c) == Octets(c)
  {
    var d0, d1, d2 := c % 64, c / 64 % 64, c / 4096 % 64;
    Continuation(d0);
    if 0x80 <= c < 0x800 {
      Lead2(c / 64);
    } else if 0x800 <= c < 0x10000 {
      Continuation(d1);
      Lead3(c / 4096);
    } else if 0x10000 <= c {
      Continuation(d1);
      Continuation(d2);
      Lead4(c / 262144);
    }
  }

  /** The code point the decoder assembles from a lead byte and its followers, as it computes it. */
  function Assembled(b: int, b1: int, b2: int, b3: int): int {
    if b < 128 then b
    else if b < 224 then Or(b % 32 * 64, b1 % 64)
    else if b < 240 then Or(Or(b % 16 * 4096, b1 % 64 * 64), b2 % 64)
    else Or(Or(Or(b % 8 * 262144, b1 % 64 * 4096), b2 % 64 * 64), b3 % 64)
  }

  lemma AssembledIsDecodedPoint(b: seq<byte>)
    requires b != []
    ensures Assembled(b[0], At(b, 1), At(b, 2), At(b, 3)) == DecodedPoint(b)
  {
    var x1, x2, x3 := At(b, 1) as int % 64, At(b, 2) as int % 64, At(b, 3) as int % 64;
    if 128 <= b[0] < 224 { OrAdds6(b[0] as int % 32, x1); }
    else if 224 <= b[0] < 240 { Or3(b[0] as int % 16, x1, x2); }
    else if 240 <= b[0] { Or4(b[0] as int % 8, x1, x2, x3); }
  }

  lemma Or3(x0: int, x1: int, x2: int)
    requires 0 <= x1 < 64 && 0 <= x2 < 64
    ensures Or(Or(x0 * 4096, x1 * 64), x2) == x0 * 4096 + x1 * 64 + x2
  {
    OrAdds12(x0, x1 * 64);
    OrAdds6(x0 * 64 + x1, x2);
    assert (x0 * 64 + x1) * 64 == x0 * 4096 + x1 * 64;
  }

  lemma Or4(x0: int, x1: int, x2: int, x3: int)
    requires 0 <= x1 < 64 && 0 <= x2 < 64 && 0 <= x3 < 64
    ensures Or(Or(Or(x0 * 262144, x1 * 4096), x2 * 64), x3) == x0 * 262144 + x1 * 4096 + x2 * 64 + x3
  {
    OrAdds18(x0, x1 * 4096);
    assert (x0 * 64 + x1) * 4096 == x0 * 262144 + x1 * 4096;
    Or3(x0 * 64 + x1, x2, x3);
  }

  lemma EncodeStep(done: seq<byte>, s: seq<unit>, i: nat)
    requires i < |s|
    ensures var c, w := FirstPoint(s[i..]), FirstWidth(s[i..]);
      done + Encoding(s[i..]) == done + Octets(c) + Encoding(s[i + w..])
  {
    var rest := s[i..];
    assert rest[FirstWidth(rest)..] == s[i + FirstWidth(rest)..];
  }

  lemma DecodingUnfolds(done: seq<unit>, rest: seq<byte>)
    requires rest != []
    ensures done + Decoding(rest) == done + DecodedUnits(DecodedPoint(rest)) + Decoding(Drop(rest, LeadLength(rest[0])))
  {
  }

  /** TextEncoder.encode */
  method Encode(s: seq<unit>) returns (bytes: seq<byte>)
    ensures bytes == Encoding(s)
  {
    bytes := [];
    var i := 0;
    while i < |s|
      invariant 0 <= i <= |s|
      invariant bytes + Encoding(s[i..]) == Encoding(s)
    {
      ghost var start := i;
      var codeUnit := s[i];
      var codePoint: int := codeUnit;
      if 0xD800 <= codeUnit <= 0xDBFF {
        var next := if i + 1 < |s| then s[i + 1] else 0;
        if 0xDC00 <= next <= 0xDFFF {
          codePoint := Combined(codeUnit, next);
          i := i + 1;
        } else {
          codePoint := 0xFFFD;
        }
      } else if 0xDC00 <= codeUnit <= 0xDFFF {
        codePoint := 0xFFFD;
      }
      i := i + 1;
      assert codePoint == FirstPoint(s[start..]) && i == start + FirstWidth(s[start..]);
      PushedIsOctets(codePoint);
      EncodeStep(bytes, s, start);
      bytes := bytes + Pushed(codePoint);
    }
    assert s[i..] == [];
  }

  /** TextDecoder.decode, on the bytes of the whole buffer. */
  method Decode(u8: seq<byte>) returns (s: seq<unit>)
    ensures s == Decoding(u8)
  {
    s := [];
    var i := 0;
    while i < |u8|
      invariant 0 <= i
      invariant s + Decoding(Drop(u8, i)) == Decoding(u8)
    {
      ghost var rest := u8[i..];
      var b := u8[i];
      assert forall k: nat :: At(rest, k) == At(u8, i + k);
      assert Drop(rest, LeadLength(b)) == Drop(u8, i + LeadLength(b));
      AssembledIsDecodedPoint(rest);
      var cp := Assembled(b, At(u8, i + 1), At(u8, i + 2), At(u8, i + 3));
      DecodingUnfolds(s, rest);
      s := s + DecodedUnits(cp);
      i := i + LeadLength(b);
    }
  }

  // ---- Properties ----

  /** One character: what follows it does not matter, and the decoder reads it back. */
  lemma CharRoundTrip(c: int, rest: seq<byte>)
    requires Scalar(c)
    ensures var b := Octets(c) + rest;
      && CharLength(b) == |Octets(c)| == LeadLength(b[0]) && b[|Octets(c)|..] == rest
      && DecodedPoint(b) == c && DecodedUnits(c) == Units(c)
  {
    var o := Octets(c);
    var b := o + rest;
    assert forall k :: 0 <= k < |o| ==> b[k] == o[k];
    OctetsReadBack(c);
  }

  lemma OctetsReadBack(c: int)
    requires Scalar(c)
    ensures var o := Octets(c); CharLength(o) == |o| == LeadLength(o[0]) && DecodedPoint(o) == c
  {
    if c < 0x80 {}
    else if c < 0x800 { ReadBack2(c); }
    else if c < 0x10000 { ReadBack3(c); }
    else { ReadBack4(c); }
  }

  lemma ReadBack2(c: int)
    requires 0x80 <= c < 0x800
    ensures CharLength(Octets(c)) == 2 && DecodedPoint(Octets(c)) == c
  {
    var o := Octets(c);
    assert At(o, 1) == 128 + c % 64;
    assert (192 + c / 64) % 32 == c / 64 && (128 + c % 64) % 64 == c % 64;
  }

  lemma ReadBack3(c: int)
    requires Scalar(c) && 0x800 <= c < 0x10000
    ensures CharLength(Octets(c)) == 3 && DecodedPoint(Octets(c)) == c
  {
    var o := Octets(c);
    Digits(c);
    var d0, d1, d2 := c % 64, c / 64 % 64, c / 4096;
    assert At(o, 1) == 128 + d1 && At(o, 2) == 128 + d0;
    assert (224 + d2) % 16 == d2 && (128 + d1) % 64 == d1 && (128 + d0) % 64 == d0;
  }

  lemma ReadBack4(c: int)
    requires 0x10000 <= c <= 0x10FFFF
    ensures CharLength(Octets(c)) == 4 && DecodedPoint(Octets(c)) == c
  {
    var o := Octets(c);
    Digits(c);
    var d0, d1, d2, d3 := c % 64, c / 64 % 64, c / 4096 % 64, c / 262144;
    assert At(o, 1) == 128 + d2 && At(o, 2) == 128 + d1 && At(o, 3) == 128 + d0;
    assert (240 + d3) % 8 == d3 && (128 + d2) % 64 == d2 && (128 + d1) % 64 == d1 && (128 + d0) % 64 == d0;
  }

  /** A code point in base 64. */
  lemma Digits(c: int)
    requires 0 <= c <= 0x10FFFF
    ensures c == c / 64 * 64 + c % 64 && c / 64 == c / 4096 * 64 + c / 64 % 64
    ensures c / 4096 == c / 262144 * 64 + c / 4096 % 64
    ensures c / 262144 <= 4
  {
  }

  /** The encoder only produces well-formed UTF-8. */
  lemma {:induction false} EncodingIsWellFormed(s: seq<unit>)
    ensures WellFormed(Encoding(s))
  {
    if s != [] {
      var rest := Encoding(s[FirstWidth(s)..]);
      CharRoundTrip(FirstPoint(s), rest);
      EncodingIsWellFormed(s[FirstWidth(s)..]);
    }
  }

  /** Decoding the encoding gives the string back, with lone surrogates replaced. */
  lemma {:induction false} DecodeEncode(s: seq<unit>)
    ensures Decoding(Encoding(s)) == Scrubbed(s)
  {
    if s != [] {
      CharRoundTrip(FirstPoint(s), Encoding(s[FirstWidth(s)..]));
      DecodeEncode(s[FirstWidth(s)..]);
    }
  }

  lemma DecodedChar1or2(b: seq<byte>)
    requires 1 <= CharLength(b) <= 2
    ensures var n, c := CharLength(b), DecodedPoint(b); Scalar(c) && LeadLength(b[0]) == n && Octets(c) == b[..n]
  {
    var n, c := CharLength(b), DecodedPoint(b);
    if n == 2 {
      var x0, x1 := b[0] as int - 192, b[1] as int - 128;
      assert c == x0 * 64 + x1;
      assert c / 64 == x0 && c % 64 == x1;
    }
  }

  lemma DecodedChar3(b: seq<byte>)
    requires CharLength(b) == 3
    ensures var c := DecodedPoint(b); Scalar(c) && LeadLength(b[0]) == 3 && Octets(c) == b[..3]
  {
    var c := DecodedPoint(b);
    var x0, x1, x2 := b[0] as int - 224, b[1] as int - 128, b[2] as int - 128;
    assert c == x0 * 4096 + x1 * 64 + x2;
    Digits3(x0, x1, x2);
  }

  lemma Digits4(x0: int, x1: int, x2: int, x3: int)
    requires 0 <= x0 && 0 <= x1 < 64 && 0 <= x2 < 64 && 0 <= x3 < 64
    ensures var c := x0 * 262144 + x1 * 4096 + x2 * 64 + x3;
      c / 262144 == x0 && c / 4096 % 64 == x1 && c / 64 % 64 == x2 && c % 64 == x3
  {
    Digits3(x0 * 64 + x1, x2, x3);
  }

  lemma Digits3(x0: int, x1: int, x2: int)
    requires 0 <= x0 && 0 <= x1 < 64 && 0 <= x2 < 64
    ensures var c := x0 * 4096 + x1 * 64 + x2;
      c / 4096 == x0 && c / 64 == x0 * 64 + x1 && c / 64 % 64 == x1 && c % 64 == x2
  {
  }

  lemma DecodedChar4(b: seq<byte>)
    requires CharLength(b) == 4
    ensures var c := DecodedPoint(b); Scalar(c) && LeadLength(b[0]) == 4 && Octets(c) == b[..4]
  {
    var c := DecodedPoint(b);
    var x0, x1, x2, x3 := b[0] as int - 240, b[1] as int - 128, b[2] as int - 128, b[3] as int - 128;
    assert 0 <= x0 <= 4 && 0 <= x1 < 64 && 0 <= x2 < 64 && 0 <= x3 < 64;
    assert b[0] as int % 8 == x0;
    assert c == x0 * 262144 + x1 * 4096 + x2 * 64 + x3;
    Digits4(x0, x1, x2, x3);
  }

  /** A well-formed character decodes to the scalar value it is the encoding of. */
  lemma DecodedChar(b: seq<byte>)
    requires CharLength(b) > 0
    ensures var n, c := CharLength(b), DecodedPoint(b); Scalar(c) && LeadLength(b[0]) == n && Octets(c) == b[..n]
  {
    if CharLength(b) <= 2 { DecodedChar1or2(b); }
    else if CharLength(b) == 3 { DecodedChar3(b); }
    else { DecodedChar4(b); }
  }

  /** UTF-16 of a scalar value is read back whatever follows it. */
  lemma UnitsReadBack(c: int, rest: seq<unit>)
    requires Scalar(c)
    ensures var s := Units(c) + rest;
      FirstPoint(s) == c && FirstWidth(s) == |Units(c)| && s[FirstWidth(s)..] == rest
  {
    var s := Units(c) + rest;
    if c >= 0x10000 {
      assert s[0] as int == 0xD800 + (c - 0x10000) / 1024 && s[1] as int == 0xDC00 + (c - 0x10000) % 1024;
    } else {
      assert s[0] as int == c;
    }
  }

  lemma UnitsStep(c: int, rest: seq<unit>)
    requires Scalar(c)
    ensures Encoding(Units(c) + rest) == Octets(c) + Encoding(rest)
    ensures Scrubbed(Units(c) + rest) == Units(c) + Scrubbed(rest)
  {
    UnitsReadBack(c, rest);
  }

  lemma CharStep(b: seq<byte>)
    requires CharLength(b) > 0
    ensures var n, c := CharLength(b), DecodedPoint(b);
      Scalar(c) && b == Octets(c) + b[n..] && Decoding(b) == Units(c) + Decoding(b[n..])
  {
    DecodedChar(b);
    var n, c := CharLength(b), DecodedPoint(b);
    assert b == b[..n] + b[n..] && Drop(b, n) == b[n..];
    assert DecodedUnits(c) == Units(c);
  }

  /** On well-formed bytes the decoder is undone by the encoder, and its output has no lone surrogate. */
  lemma {:induction false} EncodeDecode(b: seq<byte>)
    requires WellFormed(b)
    ensures Encoding(Decoding(b)) == b && Scrubbed(Decoding(b)) == Decoding(b)
    decreases |b|
  {
    if b != [] {
      var n := CharLength(b);
      EncodeDecode(b[n..]);
      CharStep(b);
      UnitsStep(DecodedPoint(b), Decoding(b[n..]));
    }
  }

  /** The well-formed byte strings are exactly the encoder's outputs. */
  lemma WellFormedIffEncoded(b: seq<byte>)
    ensures WellFormed(b) <==> exists s :: Encoding(s) == b
  {
    if WellFormed(b) { EncodeDecode(b); assert Encoding(Decoding(b)) == b; }
    if s :| Encoding(s) == b { EncodingIsWellFormed(s); }
  }
}
