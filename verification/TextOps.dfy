/** Strings taken apart at separators. */
module TextOps {
  predicate Free(s: string, sep: char) { sep !in s }

  /** What precedes the first separator determines the rest. */
  lemma SameUpToSeparator(a: string, x: string, b: string, y: string, sep: char)
    requires Free(a, sep) && Free(b, sep) && a + [sep] + x == b + [sep] + y
    ensures a == b && x == y
  {
    var s := a + [sep] + x;
    assert s[|a|] == sep && s[|b|] == sep;
    assert |a| == |b|;
    assert a == s[..|a|] && b == s[..|a|];
    assert x == s[|a|+1..] && y == s[|a|+1..];
  }

  lemma Assoc<T>(a: seq<T>, b: seq<T>, c: seq<T>)
    ensures a + b + c == a + (b + c)
  {
  }

  /** Concatenations with heads of the same length agree piece by piece. */
  lemma SameHeads<T>(x: seq<T>, t: seq<T>, y: seq<T>, u: seq<T>)
    requires |x| == |y|
    ensures x + t == y + u <==> x == y && t == u
  {
    assert (x + t)[..|x|] == x && (y + u)[..|x|] == y && (x + t)[|x|..] == t && (y + u)[|x|..] == u;
  }

  /** What a front without its first element is. */
  lemma FrontTail<T>(s: seq<T>, i: nat, j: nat)
    requires 0 < i <= |s| && j == i - 1
    ensures s[0] in s[..i] && s[1..][..j] == s[..i][1..] && forall x <- s[1..][..j] :: x in s[..i]
  {
  }

  /** s.split(sep) */
  function Split(s: string, sep: char): (parts: seq<string>)
    ensures parts != [] && forall p <- parts :: Free(p, sep)
  {
    if s == [] then [[]]
    else
      var rest := Split(s[1..], sep);
      assert rest[0] in rest;
      if s[0] == sep then [[]] + rest else [[s[0]] + rest[0]] + rest[1..]
  }

  /** parts.join(sep) */
  function Join(parts: seq<string>, sep: char): string {
    if parts == [] then []
    else if |parts| == 1 then parts[0]
    else parts[0] + [sep] + Join(parts[1..], sep)
  }

  lemma {:induction false} SplitPrefix(a: string, s: string, sep: char)
    requires Free(a, sep)
    ensures Split(a + [sep] + s, sep) == [a] + Split(s, sep)
  {
    var t := a + [sep] + s;
    if a == [] { assert t[1..] == s; }
    else {
      SplitPrefix(a[1..], s, sep);
      assert t[1..] == a[1..] + [sep] + s;
      assert Free(a[1..], sep);
      assert ([a[1..]] + Split(s, sep))[1..] == Split(s, sep);
      assert [a[0]] + a[1..] == a;
    }
  }

  lemma {:induction false} SplitFree(a: string, sep: char)
    requires Free(a, sep)
    ensures Split(a, sep) == [a]
  {
    if a != [] { SplitFree(a[1..], sep); assert [a[0]] + a[1..] == a; }
  }

  /** Splitting undoes joining. */
  lemma {:induction false} SplitJoin(parts: seq<string>, sep: char)
    requires parts != [] && forall p <- parts :: Free(p, sep)
    ensures Split(Join(parts, sep), sep) == parts
  {
    if |parts| == 1 { SplitFree(parts[0], sep); }
    else {
      SplitJoin(parts[1..], sep);
      SplitPrefix(parts[0], Join(parts[1..], sep), sep);
      assert [parts[0]] + parts[1..] == parts;
    }
  }

  /** Joining undoes splitting. */
  lemma {:induction false} JoinSplit(s: string, sep: char)
    ensures Join(Split(s, sep), sep) == s
  {
    if s != [] {
      JoinSplit(s[1..], sep);
      var rest := Split(s[1..], sep);
      if s[0] == sep { assert ([[]] + rest)[1..] == rest; }
      else {
        var parts := [[s[0]] + rest[0]] + rest[1..];
        assert parts[1..] == rest[1..];
      }
    }
  }
}
