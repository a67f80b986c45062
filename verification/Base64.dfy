/**
 The fallback btoa and atob of the sandbox polyfills, against section 4 of RFC 4648. The encoder
 shifts the third octet of a group by four where six is meant, so it agrees with the standard,
 and is undone by the decoder, exactly on the strings characterised below.
 */
module Base64 {
  import opened Frames
  import opened Bits
  import opened Utf8
  import TextOps

  const PAD := '='

  /** The base 64 alphabet. */
  function Digit(v: int): char
    requires 0 <= v < 64
  {
    if v < 26 then 'A' + v as char
    else if v < 52 then 'a' + (v - 26) as char
    else if v < 62 then '0' + (v - 52) as char
    else if v == 62 then '+' else '/'
  }

  /** indexOf in the alphabet followed by the pad character; -1 for anything else. */
  function IndexOf(c: char): (v: int)
    ensures -1 <= v <= 64
  {
    if 'A' <= c <= 'Z' then (c - 'A') as int
    else if 'a' <= c <= 'z' then 26 + (c - 'a') as int
    else if '0' <= c <= '9' then 52 + (c - '0') as int
    else if c == '+' then 62
    else if c == '/' then 63
    else if c == PAD then 64
    else -1
  }

  /** A value below 64 is written as its digit, 64 as the pad character. */
  type sextet = v: int | 0 <= v <= 64

  function Symbol(v: sextet): (c: char)
    ensures IndexOf(c) == v && (c == PAD <==> v == 64)
  {
    if v == 64 then PAD else Digit(v)
  }

  /** Four characters, by value. */
  datatype Quad = Quad(d0: sextet, d1: sextet, d2: sextet, d3: sextet) {
    function Text(): (t: string) ensures |t| == 4 { [Symbol(d0), Symbol(d1), Symbol(d2), Symbol(d3)] }
  }

  lemma TextDetermines(q: Quad, r: Quad)
    ensures q.Text() == r.Text() ==> q == r
  {
    assert forall i :: 0 <= i < 4 ==> IndexOf(q.Text()[i]) == [q.d0, q.d1, q.d2, q.d3][i];
    assert forall i :: 0 <= i < 4 ==> IndexOf(r.Text()[i]) == [r.d0, r.d1, r.d2, r.d3][i];
    if q.Text() == r.Text() {
      assert q.Text()[0] == r.Text()[0] && q.Text()[1] == r.Text()[1];
      assert q.Text()[2] == r.Text()[2] && q.Text()[3] == r.Text()[3];
    }
  }

  type octet = x: int | 0 <= x < 256

  /** Three octets of which the last one or two may be missing. */
  datatype Chunk = One(a: octet) | Two(a: octet, b: octet) | Three(a: octet, b: octet, c: octet) {
    function Octets(): seq<byte> {
      match this case One(a) => [a] case Two(a, b) => [a, b] case Three(a, b, c) => [a, b, c]
    }
    /** The second and the third octet, zero where missing. */
    function B(): int { if One? then 0 else b }
    function C(): int { if Three? then c else 0 }
  }

  function FirstChunk(s: seq<byte>): (c: Chunk)
    requires s != []
    ensures c.Octets() == s[..if |s| < 3 then |s| else 3]
  {
    if |s| == 1 then One(s[0]) else if |s| == 2 then Two(s[0], s[1]) else Three(s[0], s[1], s[2])
  }

  lemma ChunkSplit(s: seq<byte>)
    requires s != []
    ensures s == FirstChunk(s).Octets() + Drop(s, 3)
  {
  }

  // ---- Reference: section 4 of RFC 4648 ----

  /** Four digits of a 24-bit group; a short group is filled up with zero bits and pad characters. */
  function RfcQuad(k: Chunk): Quad {
    var v := k.a as int * 65536 + k.B() * 256 + k.C();
    Quad(v / 262144, v / 4096 % 64, if k.One? then 64 else v / 64 % 64, if k.Three? then v % 64 else 64)
  }

  function Rfc4648(s: seq<byte>): string
    decreases |s|
  {
    if s == [] then "" else RfcQuad(FirstChunk(s)).Text() + Rfc4648(Drop(s, 3))
  }

  // ---- The encoder ----

  /** One turn of the btoa loop. Where charCodeAt gives NaN, >> makes it 0. */
  function BtoaQuad(k: Chunk): Quad {
    OrAdds4(k.a % 4, k.B() / 16);
    ThirdDigit(k.B(), k.C());
    Quad(k.a / 4, Or(k.a % 4 * 16, k.B() / 16),
         if k.One? then 64 else Or(k.B() % 16 * 4, k.C() / 16),
         if k.Three? then k.C() % 64 else 64)
  }

  /** What the third digit works out to. */
  lemma ThirdDigit(b: int, c: int)
    requires 0 <= b < 256 && 0 <= c < 256
    ensures Or(b % 16 * 4, c / 16) == Or(b % 16, c / 64) * 4 + c / 16 % 4
    ensures 0 <= Or(b % 16, c / 64) < 16
  {
    OrShifted(b % 16, c / 16);
    assert c / 16 / 4 == c / 64;
    SmallPowers();
    OrBounded(b % 16, c / 64, 4);
  }

  function Encoded(s: seq<byte>): string
    decreases |s|
  {
    if s == [] then "" else BtoaQuad(FirstChunk(s)).Text() + Encoded(Drop(s, 3))
  }

  method Btoa(s: seq<byte>) returns (out: string)
    ensures out == Encoded(s)
  {
    out := "";
    var i := 0;
    while i < |s|
      invariant 0 <= i
      invariant out + Encoded(Drop(s, i)) == Encoded(s)
    {
      var chunk :=
        if i + 1 == |s| then One(s[i])
        else if i + 2 == |s| then Two(s[i], s[i+1])
        else Three(s[i], s[i+1], s[i+2]);
      assert chunk == FirstChunk(Drop(s, i)) && Drop(Drop(s, i), 3) == Drop(s, i + 3);
      out := out + BtoaQuad(chunk).Text();
      i := i + 3;
    }
  }

  // ---- The decoder ----

  /** indexOf(undefined) is -1. */
  function IndexAt(t: string, i: nat): int { if i < |t| then IndexOf(t[i]) else -1 }

  /** String.fromCharCode */
  function CharCode(x: int): unit { x % 0x1_0000 }

  /** One turn of the atob loop, on whatever the four look-ups gave. */
  function AtobTurn(a: int, b: int, c: int, d: int): seq<unit> {
    [CharCode(Or(a * 4, b / 16))]
    + (if c != 64 then [CharCode(Or(b % 16 * 16, c / 4))] else [])
    + (if d != 64 then [CharCode(Or(c % 4 * 64, d))] else [])
  }

  function Rest(t: string, n: nat): string { if n <= |t| then t[n..] else "" }

  /** What the fallback decodes any string to. */
  function Decoded(t: string): seq<unit>
    decreases |t|
  {
    if t == "" then []
    else AtobTurn(IndexAt(t, 0), IndexAt(t, 1), IndexAt(t, 2), IndexAt(t, 3)) + Decoded(Rest(t, 4))
  }

  lemma AtobStep(done: seq<unit>, t: string, i: nat)
    requires i < |t|
    ensures done + Decoded(Rest(t, i))
         == done + AtobTurn(IndexAt(t, i), IndexAt(t, i + 1), IndexAt(t, i + 2), IndexAt(t, i + 3))
            + Decoded(Rest(t, i + 4))
  {
    var rest := Rest(t, i);
    assert IndexAt(rest, 0) == IndexAt(t, i) && IndexAt(rest, 1) == IndexAt(t, i + 1);
    assert IndexAt(rest, 2) == IndexAt(t, i + 2) && IndexAt(rest, 3) == IndexAt(t, i + 3);
    assert Rest(rest, 4) == Rest(t, i + 4);
  }

  method Atob(t: string) returns (out: seq<unit>)
    ensures out == Decoded(t)
  {
    out := [];
    var i := 0;
    while i < |t|
      invariant 0 <= i
      invariant out + Decoded(Rest(t, i)) == Decoded(t)
    {
      AtobStep(out, t, i);
      out := out + AtobTurn(IndexAt(t, i), IndexAt(t, i + 1), IndexAt(t, i + 2), IndexAt(t, i + 3));
      i := i + 4;
    }
  }

  // ---- Properties ----

  /** The octets of a group the encoder's shift does no harm to: the top two bits of the third octet
      equal its next two and are among the low bits of the second. */
  predicate Unharmed(k: Chunk) {
    k.Three? ==> k.c / 16 % 4 == k.c / 64 && Or(k.b % 16, k.c / 64) == k.b % 16
  }

  predicate AllUnharmed(s: seq<byte>)
    decreases |s|
  {
    s == [] || (Unharmed(FirstChunk(s)) && AllUnharmed(Drop(s, 3)))
  }

  lemma SixBits(x: int, y: int)
    requires 0 <= y < 64
    ensures (x * 64 + y) / 64 == x && (x * 64 + y) % 64 == y
  {
  }

  lemma UpperDigits(a: int, b: int, c: int)
    requires 0 <= a < 256 && 0 <= b < 256 && 0 <= c < 256
    ensures var v := a * 65536 + b * 256 + c; v / 262144 == a / 4 && v / 4096 % 64 == a % 4 * 16 + b / 16
  {
    HighBits(b, c);
    var v, x, y := a * 65536 + b * 256 + c, a % 4 * 16 + b / 16, b % 16 * 256 + c;
    assert v == (a / 4 * 64 + x) * 4096 + y;
    assert v / 4096 == a / 4 * 64 + x;
    SixBits(a / 4, x);
  }

  lemma LowerDigits(a: int, b: int, c: int)
    requires 0 <= a < 256 && 0 <= b < 256 && 0 <= c < 256
    ensures var v := a * 65536 + b * 256 + c; v / 64 % 64 == b % 16 * 4 + c / 64 && v % 64 == c % 64
  {
    HighBits(b, c);
    var v, x, y := a * 65536 + b * 256 + c, a * 16 + b / 16, b % 16 * 4 + c / 64;
    assert v == (x * 64 + y) * 64 + c % 64;
    SixBits(x * 64 + y, c % 64);
    SixBits(x, y);
  }

  /** Six bits at a time. */
  lemma GroupDigits(a: int, b: int, c: int)
    requires 0 <= a < 256 && 0 <= b < 256 && 0 <= c < 256
    ensures var v := a * 65536 + b * 256 + c;
      && v / 262144 == a / 4 && v / 4096 % 64 == a % 4 * 16 + b / 16
      && v / 64 % 64 == b % 16 * 4 + c / 64 && v % 64 == c % 64
  {
    UpperDigits(a, b, c);
    LowerDigits(a, b, c);
  }

  lemma RfcValues(k: Chunk)
    ensures var q := RfcQuad(k);
      && q.d0 == k.a / 4 && q.d1 == k.a % 4 * 16 + k.B() / 16
      && q.d2 == (if k.One? then 64 else k.B() % 16 * 4 + k.C() / 64) && q.d3 == (if k.Three? then k.C() % 64 else 64)
  {
    GroupDigits(k.a, k.B(), k.C());
  }

  lemma BtoaValues(k: Chunk)
    ensures var q := BtoaQuad(k);
      && q.d0 == k.a / 4 && q.d1 == k.a % 4 * 16 + k.B() / 16
      && q.d2 == (if k.One? then 64 else Or(k.B() % 16, k.C() / 64) * 4 + k.C() / 16 % 4)
      && q.d3 == (if k.Three? then k.C() % 64 else 64)
      && 0 <= Or(k.B() % 16, k.C() / 64) < 16
  {
    OrAdds4(k.a % 4, k.B() / 16);
    ThirdDigit(k.B(), k.C());
  }

  lemma InBaseFour(x: int, y: int, u: int, v: int)
    requires 0 <= y < 4 && 0 <= v < 4
    ensures x * 4 + y == u * 4 + v <==> x == u && y == v
    ensures (x * 4 + y) / 4 == x && (x * 4 + y) % 4 == y
  {
  }

  /** A turn of the encoder follows the standard exactly on unharmed groups. */
  lemma TurnIsRfc(k: Chunk)
    ensures BtoaQuad(k) == RfcQuad(k) <==> Unharmed(k)
  {
    RfcValues(k);
    BtoaValues(k);
    if k.Three? {
      InBaseFour(Or(k.b % 16, k.c / 64), k.c / 16 % 4, k.b % 16, k.c / 64);
    } else {
      OrZero(k.B() % 16);
    }
  }

  /** btoa follows section 4 of RFC 4648 if and only if every full group is unharmed. */
  lemma {:induction false} BtoaIsRfcIff(s: seq<byte>)
    ensures Encoded(s) == Rfc4648(s) <==> AllUnharmed(s)
    decreases |s|
  {
    if s != [] {
      var k, t, u := FirstChunk(s), Encoded(Drop(s, 3)), Rfc4648(Drop(s, 3));
      BtoaIsRfcIff(Drop(s, 3));
      TurnIsRfc(k);
      TextDetermines(BtoaQuad(k), RfcQuad(k));
      TextOps.SameHeads(BtoaQuad(k).Text(), t, RfcQuad(k).Text(), u);
    }
  }

  function AtobOf(q: Quad): seq<unit> { AtobTurn(q.d0, q.d1, q.d2, q.d3) }

  /** The octets the decoder splices from digits. */
  lemma FirstSplice(x: int, y: int)
    requires 0 <= x < 64 && 0 <= y < 64
    ensures CharCode(Or(x * 4, y / 16)) == x * 4 + y / 16
  {
    OrAdds2(x, y / 16);
    Small(x * 4 + y / 16);
  }

  lemma SecondSplice(x: int, y: int)
    requires 0 <= x < 64 && 0 <= y < 64
    ensures CharCode(Or(x % 16 * 16, y / 4)) == x % 16 * 16 + y / 4
  {
    OrAdds4(x % 16, y / 4);
    Small(x % 16 * 16 + y / 4);
  }

  lemma ThirdSplice(x: int, y: int)
    requires 0 <= x < 64 && 0 <= y < 64
    ensures CharCode(Or(x % 4 * 64, y)) == x % 4 * 64 + y
  {
    OrAdds6(x % 4, y);
    Small(x % 4 * 64 + y);
  }

  lemma Small(x: int)
    requires 0 <= x < 0x1_0000
    ensures CharCode(x) == x
  {
  }

  /** A quad whose first digits are those of a and the top of b gives them back. */
  lemma HeadReadBack(a: int, b: int)
    requires 0 <= a < 256 && 0 <= b < 256
    ensures var d0, d1 := a / 4, a % 4 * 16 + b / 16;
      0 <= d1 < 64 && CharCode(Or(d0 * 4, d1 / 16)) == a && d1 % 16 == b / 16
  {
    var d1 := a % 4 * 16 + b / 16;
    assert d1 / 16 == a % 4 && d1 % 16 == b / 16;
    FirstSplice(a / 4, d1);
  }

  /** The second octet comes back as its upper half and the upper bits of the third digit. */
  lemma MiddleReadBack(a: int, b: int, o: int, r: int)
    requires 0 <= a < 256 && 0 <= b < 256 && 0 <= o < 16 && 0 <= r < 4
    ensures var d1, d2 := a % 4 * 16 + b / 16, o * 4 + r; CharCode(Or(d1 % 16 * 16, d2 / 4)) == b / 16 * 16 + o
  {
    HeadReadBack(a, b);
    SecondSplice(a % 4 * 16 + b / 16, o * 4 + r);
    InBaseFour(o, r, 0, 0);
  }

  lemma LastReadBack(o: int, r: int, d: int)
    requires 0 <= o < 16 && 0 <= r < 4 && 0 <= d < 64
    ensures CharCode(Or((o * 4 + r) % 4 * 64, d)) == r * 64 + d
  {
    ThirdSplice(o * 4 + r, d);
    InBaseFour(o, r, 0, 0);
  }

  /** What the decoder makes of a quad with the digits of a, b, and a third and fourth of its own. */
  lemma QuadReadBack(q: Quad, a: int, b: int, o: int, r: int)
    requires 0 <= a < 256 && 0 <= b < 256 && 0 <= o < 16 && 0 <= r < 4
    requires q.d0 == a / 4 && q.d1 == a % 4 * 16 + b / 16 && q.d2 == o * 4 + r
    ensures AtobOf(q) == [a, b / 16 * 16 + o] + if q.d3 == 64 then [] else [r * 64 + q.d3]
  {
    HeadReadBack(a, b);
    MiddleReadBack(a, b, o, r);
    if q.d3 < 64 {
      LastReadBack(o, r, q.d3);
    }
  }

  /** The decoder undoes a turn of the encoder exactly on unharmed groups. */
  lemma TurnRoundTrip(k: Chunk)
    ensures AtobOf(BtoaQuad(k)) == k.Octets() <==> Unharmed(k)
    ensures |AtobOf(BtoaQuad(k))| == |k.Octets()|
  {
    if k.Three? {
      FullTurnRoundTrip(k);
    } else {
      BtoaValues(k);
      OrZero(k.B() % 16);
      ShortTurnReadBack(BtoaQuad(k), k);
    }
  }

  lemma ShortTurnReadBack(q: Quad, k: Chunk)
    requires !k.Three? && q.d0 == k.a / 4 && q.d1 == k.a % 4 * 16 + k.B() / 16 && q.d3 == 64
    requires q.d2 == if k.One? then 64 else k.b % 16 * 4
    ensures AtobOf(q) == k.Octets()
  {
    if k.One? {
      HeadReadBack(k.a, 0);
    } else {
      QuadReadBack(q, k.a, k.b, k.b % 16, 0);
      HighBits(k.b, 0);
    }
  }

  lemma FullTurnRoundTrip(k: Chunk)
    requires k.Three?
    ensures AtobOf(BtoaQuad(k)) == k.Octets() <==> Unharmed(k)
    ensures |AtobOf(BtoaQuad(k))| == 3
  {
    var q, o, r := BtoaQuad(k), Or(k.b % 16, k.c / 64), k.c / 16 % 4;
    BtoaValues(k);
    QuadReadBack(q, k.a, k.b, o, r);
    HighBits(k.b, k.c);
    assert AtobOf(q) == [k.a, k.b / 16 * 16 + o, r * 64 + k.c % 64];
    SameOctets(k, k.b / 16 * 16 + o, r * 64 + k.c % 64);
  }

  lemma SameOctets(k: Chunk, y: int, z: int)
    requires k.Three?
    ensures [k.a as int, y, z] == k.Octets() <==> y == k.b && z == k.c
  {
    var x := [k.a as int, y, z];
    assert x == k.Octets() ==> x[1] == k.b && x[2] == k.c;
  }

  /** An octet by its upper and lower half, and by its top two bits and the rest. */
  lemma HighBits(b: int, c: int)
    requires 0 <= b < 256 && 0 <= c < 256
    ensures b == b / 16 * 16 + b % 16 && c == c / 64 * 64 + c % 64 && 0 <= c / 64 < 4
  {
  }

  /** The same four characters in front of more text. */
  lemma DecodedUnfolds(q: Quad, e: string)
    ensures Decoded(q.Text() + e) == AtobOf(q) + Decoded(e)
  {
    var t := q.Text() + e;
    assert t[0] == Symbol(q.d0) && t[1] == Symbol(q.d1) && t[2] == Symbol(q.d2) && t[3] == Symbol(q.d3);
    assert Rest(t, 4) == e;
  }

  /** atob undoes btoa if and only if every full group is unharmed. */
  lemma {:induction false} AtobBtoaIff(s: seq<byte>)
    ensures Decoded(Encoded(s)) == s <==> AllUnharmed(s)
    decreases |s|
  {
    if s != [] {
      var k, e := FirstChunk(s), Encoded(Drop(s, 3));
      TurnRoundTrip(k);
      AtobBtoaIff(Drop(s, 3));
      DecodedUnfolds(BtoaQuad(k), e);
      ChunkSplit(s);
      TextOps.SameHeads(AtobOf(BtoaQuad(k)), Decoded(e), k.Octets(), Drop(s, 3));
    }
  }

  /** The decoder is not at fault: it undoes the standard encoding of every octet string. */
  lemma {:induction false} AtobDecodesRfc(s: seq<byte>)
    ensures Decoded(Rfc4648(s)) == s
    decreases |s|
  {
    if s != [] {
      var k, e := FirstChunk(s), Rfc4648(Drop(s, 3));
      RfcTurnReadBack(k);
      AtobDecodesRfc(Drop(s, 3));
      DecodedUnfolds(RfcQuad(k), e);
      ChunkSplit(s);
    }
  }

  lemma RfcTurnReadBack(k: Chunk)
    ensures AtobOf(RfcQuad(k)) == k.Octets()
  {
    var q := RfcQuad(k);
    RfcValues(k);
    if !k.Three? {
      ShortTurnReadBack(q, k);
    } else {
      HighBits(k.B(), k.C());
      QuadReadBack(q, k.a, k.B(), k.B() % 16, k.C() / 64);
      assert AtobOf(q) == [k.a, k.b, k.c];
    }
  }

  /** Whenever the top two bits of the third octet differ from its next two, the string does not come back. */
  lemma HarmedByThirdOctet(s: seq<byte>)
    requires |s| >= 3 && s[2] as int / 16 % 4 != s[2] as int / 64
    ensures Decoded(Encoded(s)) != s
  {
    AtobBtoaIff(s);
    assert FirstChunk(s).Three? && FirstChunk(s).c == s[2];
  }

  /** "abc", for one: 0x63 has top bits 01 and next bits 10. */
  lemma AbcDoesNotRoundTrip(s: seq<byte>)
    requires s == [0x61, 0x62, 0x63]
    ensures Decoded(Encoded(s)) != s
  {
    HarmedByThirdOctet(s);
  }

  lemma EncodedUnfolds(s: seq<byte>)
    requires s != []
    ensures |Encoded(s)| == 4 + |Encoded(Drop(s, 3))|
  {
  }

  lemma OneGroupLess(n: nat)
    ensures n >= 3 ==> (n + 2) / 3 == (n - 3 + 2) / 3 + 1
    ensures 0 < n < 3 ==> (n + 2) / 3 == 1
  {
  }

  lemma {:induction false} EncodedLength(s: seq<byte>)
    ensures |Encoded(s)| == (|s| + 2) / 3 * 4
    decreases |s|
  {
    if s != [] {
      EncodedLength(Drop(s, 3));
      EncodedUnfolds(s);
      OneGroupLess(|s|);
    }
  }

  lemma TurnPadding(k: Chunk)
    ensures forall i :: 0 <= i < 4 ==> (BtoaQuad(k).Text()[i] == PAD <==> i > |k.Octets()|)
  {
    BtoaValues(k);
  }

  /** Length and padding are right even so: four characters per three octets, pads only at the end. */
  lemma {:induction false} LengthAndPadding(s: seq<byte>)
    ensures var t := Encoded(s);
      && |t| == (|s| + 2) / 3 * 4
      && forall i :: 0 <= i < |t| ==> (t[i] == PAD <==> i >= |t| - Missing(|s|))
    decreases |s|
  {
    EncodedLength(s);
    if s != [] {
      var k := FirstChunk(s);
      var t, e := BtoaQuad(k).Text(), Encoded(Drop(s, 3));
      TurnPadding(k);
      if k.Three? {
        LengthAndPadding(Drop(s, 3));
        assert Missing(|s|) == Missing(|s| - 3) <= |e|;
        forall i | 0 <= i < |t + e| ensures (t + e)[i] == PAD <==> i >= |t + e| - Missing(|s|) {
          if i >= 4 { assert (t + e)[i] == e[i - 4]; }
        }
      } else {
        assert e == "" && t + e == t;
      }
    }
  }

  /** How many octets the last group of n is short. */
  function Missing(n: nat): nat { (3 - n % 3) % 3 }
}
