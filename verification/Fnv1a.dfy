/** The FNV-1a hash that decides whether cached bridge bytecode is still good. */
module Fnv1a {
  import opened Frames

  import opened Bits

  const BASIS: u64 := 0xcbf29ce484222325

  /** 64-bit words: exclusive or, and wrapping multiplication by the FNV prime. */
  function Flip(h: u64, b: u64): u64 {
    WordSize();
    XorBounded(h, b, 64);
    Xor(h, b)
  }

  function Times(x: u64): u64 { x * 0x100000001b3 % 0x1_0000_0000_0000_0000 }

  /** What one byte does to the state. */
  function Mix(h: u64, b: byte): u64 { Times(Flip(h, b)) }

  function HashFrom(h: u64, s: seq<byte>): u64
    decreases |s|
  {
    if s == [] then h else HashFrom(Mix(h, s[0]), s[1..])
  }

  function Hash(s: seq<byte>): u64 { HashFrom(BASIS, s) }

  lemma {:induction false} XorZero(x: nat)
    ensures Xor(x, 0) == x
  {
    if x != 0 { XorZero(x / 2); }
  }

  /** The exclusive or of the basis and the letter a, from the highest bit that changes down. */
  lemma BasisFlipped(start: u64, a: byte)
    requires start == 0xcbf29ce484222325 && a == 0x61
    ensures Xor(start, a) == 0xcbf29ce484222344
  {
    XorZero(0x197e539c9084446);
    assert Xor(0x32fca739210888c, 0x1) == 0x32fca739210888d;
    assert Xor(0x65f94e724211119, 0x3) == 0x65f94e72421111a;
    assert Xor(0xcbf29ce48422232, 0x6) == 0xcbf29ce48422234;
    assert Xor(0x197e539c90844464, 0xc) == 0x197e539c90844468;
    assert Xor(0x32fca739210888c9, 0x18) == 0x32fca739210888d1;
    assert Xor(0x65f94e7242111192, 0x30) == 0x65f94e72421111a2;
    assert Xor(0xcbf29ce484222325, 0x61) == 0xcbf29ce484222344;
  }

  lemma HashFromOne(h: u64, b: byte, flipped: u64)
    requires Xor(h, b) == flipped
    ensures HashFrom(h, [b]) == Times(flipped)
  {
    assert [b][1..] == [];
    assert HashFrom(h, [b]) == HashFrom(Mix(h, b), []);
  }

  lemma TimesIs(x: u64, wraps: nat, rest: u64)
    requires x * 0x100000001b3 == wraps * 0x1_0000_0000_0000_0000 + rest
    ensures Times(x) == rest
  {
  }

  /** Two values of the published algorithm: the hash of the empty string, which every hash starts from, and of "a". */
  lemma KnownHashes(start: u64, a: byte)
    requires start == 0xcbf29ce484222325 && a == 0x61
    ensures Hash([]) == start && HashFrom(start, [a]) == 0xaf63dc4c8601ec8c
  {
    BasisFlipped(start, a);
    var flipped := 0xcbf29ce484222344;
    HashFromOne(start, a, flipped);
    TimesIs(flipped, 0xcbf29ce5de, 0xaf63dc4c8601ec8c);
  }

  lemma HashUnfolds(h: u64, s: seq<byte>, i: nat)
    requires i < |s|
    ensures HashFrom(h, s[i..]) == HashFrom(Mix(h, s[i]), s[i + 1..])
  {
    assert s[i..][1..] == s[i + 1..];
  }

  /** hash_source */
  method HashSource(source: seq<byte>) returns (hash: u64)
    ensures hash == Hash(source)
  {
    hash := BASIS;
    assert source[0..] == source;
    for i := 0 to |source|
      invariant HashFrom(hash, source[i..]) == Hash(source)
    {
      HashUnfolds(hash, source, i);
      hash := Mix(hash, source[i]);
    }
  }

  lemma WrappedProduct(x: u64) returns (p: int)
    ensures x * 0x100000001b3 == p * 0x1_0000_0000_0000_0000 + Times(x)
  {
    p := x * 0x100000001b3 / 0x1_0000_0000_0000_0000;
  }

  lemma PrimeIsInvertible(d: int, e: int)
    requires d * 0x100000001b3 == e * 0x1_0000_0000_0000_0000
    requires -0x1_0000_0000_0000_0000 < d < 0x1_0000_0000_0000_0000
    ensures d == 0
  {
    var m := e * 0xce965057aff6957b - d * 0xce9650590f;
    assert d * 0x100000001b3 * 0xce965057aff6957b == e * 0x1_0000_0000_0000_0000 * 0xce965057aff6957b;
    assert d == 0x1_0000_0000_0000_0000 * m;
  }

  /** The prime is odd, so multiplying by it can be undone: its inverse modulo 2^64 is 0xce965057aff6957b. */
  lemma TimesInjective(x: u64, y: u64)
    requires Times(x) == Times(y)
    ensures x == y
  {
    var p := WrappedProduct(x);
    var q := WrappedProduct(y);
    PrimeIsInvertible(x - y, p - q);
  }

  /** A step keeps different states apart. */
  lemma MixSeparatesStates(h: u64, k: u64, b: byte)
    requires Mix(h, b) == Mix(k, b)
    ensures h == k
  {
    TimesInjective(Flip(h, b), Flip(k, b));
    XorUndone(h, b);
    XorUndone(k, b);
  }

  /** A step keeps different bytes apart. */
  lemma MixSeparatesBytes(h: u64, b: byte, c: byte)
    requires Mix(h, b) == Mix(h, c)
    ensures b == c
  {
    TimesInjective(Flip(h, b), Flip(h, c));
    XorSymmetric(h, b);
    XorSymmetric(h, c);
    XorUndone(b, h);
    XorUndone(c, h);
  }

  /** A common tail keeps different states apart, so it does not matter whether two sources collide. */
  lemma {:induction false} TailSeparatesStates(h: u64, k: u64, s: seq<byte>)
    ensures HashFrom(h, s) == HashFrom(k, s) <==> h == k
    decreases |s|
  {
    if s != [] && HashFrom(h, s) == HashFrom(k, s) {
      TailSeparatesStates(Mix(h, s[0]), Mix(k, s[0]), s[1..]);
      MixSeparatesStates(h, k, s[0]);
    }
  }

  lemma {:induction false} HashFromConcat(h: u64, s: seq<byte>, t: seq<byte>)
    ensures HashFrom(h, s + t) == HashFrom(HashFrom(h, s), t)
    decreases |s|
  {
    if s == [] {
      assert s + t == t;
    } else {
      assert (s + t)[1..] == s[1..] + t;
      HashFromConcat(Mix(h, s[0]), s[1..], t);
    }
  }

  /** Two sources with a common tail collide exactly if they collide without it. */
  lemma CommonTailCancels(s: seq<byte>, t: seq<byte>, tail: seq<byte>)
    ensures Hash(s + tail) == Hash(t + tail) <==> Hash(s) == Hash(t)
  {
    HashFromConcat(BASIS, s, tail);
    HashFromConcat(BASIS, t, tail);
    TailSeparatesStates(Hash(s), Hash(t), tail);
  }

  /** Replacing one byte by another always changes the hash. */
  lemma OneByteChangesTheHash(s: seq<byte>, t: seq<byte>, i: nat)
    requires |s| == |t| && i < |s| && s[i] != t[i]
    requires forall j :: 0 <= j < |s| && j != i ==> s[j] == t[j]
    ensures Hash(s) != Hash(t)
  {
    var head, tail := s[..i], s[i + 1..];
    assert s == (head + [s[i]]) + tail && t == (head + [t[i]]) + tail;
    CommonTailCancels(head + [s[i]], head + [t[i]], tail);
    HeadSeparatesBytes(head, s[i], t[i]);
  }

  lemma HeadSeparatesBytes(head: seq<byte>, b: byte, c: byte)
    requires b != c
    ensures Hash(head + [b]) != Hash(head + [c])
  {
    LastByte(head, b);
    LastByte(head, c);
    if Hash(head + [b]) == Hash(head + [c]) {
      MixSeparatesBytes(Hash(head), b, c);
    }
  }

  lemma LastByte(head: seq<byte>, b: byte)
    ensures Hash(head + [b]) == Mix(Hash(head), b)
  {
    HashFromConcat(BASIS, head, [b]);
  }

  // ---- The code cache ----

  datatype CachedCode = CachedCode(sourceHash: u64, data: seq<byte>)

  /** What V8 does with a compilation: rejects the bytecode it was offered, or produces new bytecode. */
  datatype Compilation = Compilation(rejected: bool, produced: Option<seq<byte>>)

  /** One isolate's cache of the bridge's bytecode. */
  class BridgeCodeCache {
    var entry: Option<CachedCode>
    /** The source the entry was made from. */
    ghost var origin: seq<byte>

    ghost predicate Valid()
      reads this
    {
      entry.Some? ==> entry.value.sourceHash == Hash(origin)
    }

    constructor ()
      ensures Valid() && entry == None
    {
      entry := None;
      origin := [];
    }

    /** Compiles a source: used is the bytecode offered to V8, if any. */
    method Compile(source: seq<byte>, v8: Compilation) returns (used: Option<seq<byte>>)
      requires Valid()
      modifies this
      ensures Valid()
      ensures used ==
        if old(entry).Some? && Hash(old(origin)) == Hash(source) then Some(old(entry).value.data) else None
      ensures used.Some? && !v8.rejected ==> entry == old(entry) && origin == old(origin)
      ensures used.Some? && v8.rejected ==> entry == None
      ensures used == None && v8.produced == None ==> entry == old(entry) && origin == old(origin)
      ensures used == None && v8.produced.Some? ==>
        entry == Some(CachedCode(Hash(source), v8.produced.value)) && origin == source
    {
      var sourceHash := HashSource(source);
      if entry.Some? && entry.value.sourceHash == sourceHash {
        used := Some(entry.value.data);
        if v8.rejected {
          entry := None;
        }
      } else {
        used := None;
        if v8.produced.Some? {
          entry := Some(CachedCode(sourceHash, v8.produced.value));
          origin := source;
        }
      }
    }

    /** A source that differs from the cached one in a single byte never runs on its bytecode. */
    method CompileEdited(source: seq<byte>, i: nat, v8: Compilation) returns (used: Option<seq<byte>>)
      requires Valid() && |source| == |origin| && i < |source| && source[i] != origin[i]
      requires forall j :: 0 <= j < |source| && j != i ==> source[j] == origin[j]
      modifies this
      ensures Valid() && used == None
    {
      OneByteChangesTheHash(origin, source, i);
      used := Compile(source, v8);
    }
  }
}
