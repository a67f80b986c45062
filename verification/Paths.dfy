/** The resolver's own path functions: join, dirname and the walk from a directory to the root. */
module Paths {
  import opened TextOps

  predicate Absolute(p: string) { p != "" && p[0] == '/' }

  /** A path segment that join keeps. */
  predicate Proper(seg: string) { seg != "" && seg != "." && seg != ".." && Free(seg, '/') }

  predicate AllProper(segs: seq<string>) { forall s <- segs :: Proper(s) }

  /** The normalized absolute path with these segments. */
  function Normal(segs: seq<string>): string { "/" + Join(segs, '/') }

  // ---- join ----

  /** What one segment does to the segments kept so far. */
  function Keep(segs: seq<string>, seg: string): (r: seq<string>)
    ensures AllProper(segs) && Free(seg, '/') ==> AllProper(r)
  {
    if seg == ".." then (if segs == [] then [] else segs[..|segs| - 1])
    else if seg != "" && seg != "." then segs + [seg]
    else segs
  }

  function KeepAll(segs: seq<string>, more: seq<string>): seq<string>
    decreases |more|
  {
    if more == [] then segs else KeepAll(Keep(segs, more[0]), more[1..])
  }

  function AddPart(segs: seq<string>, part: string): seq<string> {
    KeepAll(if Absolute(part) then [] else segs, Split(part, '/'))
  }

  function AddParts(segs: seq<string>, parts: seq<string>): seq<string>
    decreases |parts|
  {
    if parts == [] then segs else AddParts(AddPart(segs, parts[0]), parts[1..])
  }

  /** join(...parts) */
  function Joined(parts: seq<string>): string { Normal(AddParts([], parts)) }

  method JoinPaths(parts: seq<string>) returns (path: string)
    ensures path == Joined(parts)
  {
    var segments: seq<string> := [];
    for i := 0 to |parts|
      invariant AddParts(segments, parts[i..]) == AddParts([], parts)
    {
      var part := parts[i];
      ghost var added := AddPart(segments, part);
      if Absolute(part) {
        segments := [];
      }
      var split := Split(part, '/');
      for j := 0 to |split|
        invariant KeepAll(segments, split[j..]) == added
      {
        var seg := split[j];
        assert split[j..][1..] == split[j + 1..];
        if seg == ".." {
          if segments != [] {
            segments := segments[..|segments| - 1];
          }
        } else if seg != "" && seg != "." {
          segments := segments + [seg];
        }
      }
      assert parts[i..][1..] == parts[i + 1..];
    }
    path := Normal(segments);
  }

  lemma {:induction false} KeepAllProper(segs: seq<string>, more: seq<string>)
    requires AllProper(segs) && forall s <- more :: Free(s, '/')
    ensures AllProper(KeepAll(segs, more))
    decreases |more|
  {
    if more != [] { KeepAllProper(Keep(segs, more[0]), more[1..]); }
  }

  lemma {:induction false} AddPartsProper(segs: seq<string>, parts: seq<string>)
    requires AllProper(segs)
    ensures AllProper(AddParts(segs, parts))
    decreases |parts|
  {
    if parts != [] {
      KeepAllProper(if Absolute(parts[0]) then [] else segs, Split(parts[0], '/'));
      AddPartsProper(AddPart(segs, parts[0]), parts[1..]);
    }
  }

  /** join always yields an absolute path whose segments are not empty, "." or "..". */
  lemma JoinIsNormal(parts: seq<string>)
    ensures Absolute(Joined(parts)) && exists segs :: AllProper(segs) && Joined(parts) == Normal(segs)
  {
    AddPartsProper([], parts);
  }

  lemma {:induction false} KeepAllOfProper(segs: seq<string>, more: seq<string>)
    requires AllProper(more)
    ensures KeepAll(segs, more) == segs + more
    decreases |more|
  {
    if more == [] {
      assert segs + more == segs;
    } else {
      assert more[0] in more;
      KeepAllOfProper(segs + [more[0]], more[1..]);
      assert segs + [more[0]] + more[1..] == segs + more;
    }
  }

  /** A normalized path is split into its segments, behind an empty one for the leading slash. */
  lemma SplitNormal(segs: seq<string>)
    requires AllProper(segs)
    ensures Split(Normal(segs), '/') == [""] + if segs == [] then [""] else segs
  {
    SplitPrefix("", Join(segs, '/'), '/');
    assert "" + ['/'] + Join(segs, '/') == Normal(segs);
    if segs == [] { SplitFree("", '/'); } else { SplitJoin(segs, '/'); }
  }

  /** A normalized path replaces whatever precedes it by its own segments. */
  lemma AddNormal(before: seq<string>, segs: seq<string>)
    requires AllProper(segs)
    ensures AddPart(before, Normal(segs)) == segs
  {
    SplitNormal(segs);
    var split := Split(Normal(segs), '/');
    assert KeepAll([], split) == KeepAll([], split[1..]);
    if segs != [] {
      assert split[1..] == segs;
      KeepAllOfProper([], segs);
    } else {
      assert split[1..] == [""];
      assert KeepAll([], [""]) == KeepAll([], [""][1..]);
    }
  }

  lemma {:induction false} AddPartsConcat(segs: seq<string>, a: seq<string>, b: seq<string>)
    ensures AddParts(segs, a + b) == AddParts(AddParts(segs, a), b)
    decreases |a|
  {
    if a == [] { assert a + b == b; } else {
      assert (a + b)[1..] == a[1..] + b;
      AddPartsConcat(AddPart(segs, a[0]), a[1..], b);
    }
  }

  /** join(join(a...), b...) is join(a..., b...). */
  lemma JoinAbsorbs(a: seq<string>, b: seq<string>)
    ensures Joined([Joined(a)] + b) == Joined(a + b)
  {
    var segs := AddParts([], a);
    AddPartsProper([], a);
    AddNormal([], segs);
    assert ([Joined(a)] + b)[1..] == b;
    AddPartsConcat([], a, b);
  }

  /** Joining a joined path again changes nothing. */
  lemma JoinIsIdempotent(parts: seq<string>)
    ensures Joined([Joined(parts)]) == Joined(parts)
  {
    JoinAbsorbs(parts, []);
    assert [Joined(parts)] + [] == [Joined(parts)] && parts + [] == parts;
  }

  /** An absolute part makes everything before it irrelevant. */
  lemma AbsolutePartResets(a: seq<string>, p: string, b: seq<string>)
    requires Absolute(p)
    ensures Joined(a + [p] + b) == Joined([p] + b)
  {
    AddPartsConcat([], a, [p] + b);
    assert a + [p] + b == a + ([p] + b) && ([p] + b)[1..] == b;
  }

  // ---- dirname ----

  function LastSlash(p: string): (i: int)
    ensures -1 <= i < |p|
    ensures i >= 0 ==> p[i] == '/'
    ensures forall j :: i < j < |p| ==> p[j] != '/'
  {
    if p == "" then -1 else if p[|p| - 1] == '/' then |p| - 1 else LastSlash(p[..|p| - 1])
  }

  function Dirname(p: string): string {
    var i := LastSlash(p);
    if i == -1 then "." else if i == 0 then "/" else p[..i]
  }

  lemma {:induction false} JoinSnoc(segs: seq<string>, last: string)
    requires segs != []
    ensures Join(segs + [last], '/') == Join(segs, '/') + "/" + last
  {
    if |segs| == 1 {
      assert (segs + [last])[1..] == [last];
    } else {
      assert (segs + [last])[1..] == segs[1..] + [last];
      JoinSnoc(segs[1..], last);
    }
  }

  lemma LastSlashIs(front: string, last: string)
    requires Free(last, '/')
    ensures var p := front + "/" + last; LastSlash(p) == |front| && p[..|front|] == front
  {
    var p := front + "/" + last;
    forall j | |front| < j < |p| ensures p[j] != '/' {
      assert p[j] == last[j - |front| - 1];
    }
    assert p[|front|] == '/';
  }

  /** dirname of a normalized path drops its last segment. */
  lemma DirnameOfNormal(segs: seq<string>, last: string)
    requires Proper(last)
    ensures Dirname(Normal(segs + [last])) == Normal(segs)
  {
    var p := Normal(segs + [last]);
    if segs == [] {
      assert segs + [last] == [last] && p == "" + "/" + last;
      LastSlashIs("", last);
    } else {
      JoinSnoc(segs, last);
      var d := Normal(segs);
      assert p == d + "/" + last;
      LastSlashIs(d, last);
    }
  }

  /** On normalized paths dirname is join(p, ".."). */
  lemma DirnameIsDotDot(segs: seq<string>)
    requires AllProper(segs) && segs != []
    ensures Dirname(Normal(segs)) == Joined([Normal(segs), ".."])
  {
    var front, last := segs[..|segs| - 1], segs[|segs| - 1];
    assert segs == front + [last];
    DirnameOfNormal(front, last);
    AddNormal([], segs);
    SplitFree("..", '/');
    assert KeepAll(segs, [".."]) == KeepAll(Keep(segs, ".."), [".."][1..]) == front;
    assert AddPart(segs, "..") == front;
    assert [Normal(segs), ".."][1..] == [".."] && [".."][1..] == [];
    assert AddParts([], [Normal(segs), ".."]) == AddParts(segs, [".."]) == AddParts(front, []);
  }

  // ---- The upward walk ----

  /** What the walks stop at without looking. */
  predicate Outside(dir: string) { dir == "" || dir == "." }

  /** A bound on the turns left. */
  function Climb(dir: string): nat { if Outside(dir) then 0 else |dir| + 1 }

  lemma DirnameClimbs(dir: string)
    requires !Outside(dir) && dir != "/"
    ensures Climb(Dirname(dir)) < Climb(dir)
  {
  }

  /** The directories a walk from dir visits, in order; it ends for every string. */
  function Visited(dir: string): seq<string>
    decreases Climb(dir)
  {
    if Outside(dir) then []
    else if dir == "/" then [dir]
    else
      DirnameClimbs(dir);
      [dir] + Visited(Dirname(dir))
  }

  lemma VisitedUp(segs: seq<string>)
    requires AllProper(segs) && segs != []
    ensures Visited(Normal(segs)) == [Normal(segs)] + Visited(Normal(segs[..|segs| - 1]))
  {
    var dir, front, last := Normal(segs), segs[..|segs| - 1], segs[|segs| - 1];
    assert segs == front + [last];
    DirnameOfNormal(front, last);
    NormalInjective(segs, []);
    assert dir[0] == '/' && dir != "/";
  }

  lemma NormalInjective(a: seq<string>, b: seq<string>)
    requires AllProper(a) && AllProper(b)
    ensures Normal(a) == Normal(b) ==> a == b
  {
    if Normal(a) == Normal(b) {
      AddNormal([], a);
      AddNormal([], b);
    }
  }

  lemma {:induction false} VisitedAt(segs: seq<string>, i: nat)
    requires AllProper(segs) && i <= |segs|
    ensures |Visited(Normal(segs))| == |segs| + 1
    ensures Visited(Normal(segs))[i] == Normal(segs[..|segs| - i])
    decreases |segs|
  {
    if segs == [] {
      assert segs[..0] == [];
    } else {
      var front := segs[..|segs| - 1];
      VisitedUp(segs);
      if i == 0 {
        VisitedAt(front, 0);
        assert segs[..|segs|] == segs;
      } else {
        VisitedAt(front, i - 1);
        assert front[..|front| - (i - 1)] == segs[..|segs| - i];
      }
    }
  }

  /** From a normalized directory every ancestor is visited, nearest first, the root included. */
  lemma WalkVisitsAncestors(segs: seq<string>)
    requires AllProper(segs)
    ensures |Visited(Normal(segs))| == |segs| + 1
    ensures forall i :: 0 <= i <= |segs| ==> Visited(Normal(segs))[i] == Normal(segs[..|segs| - i])
  {
    VisitedAt(segs, 0);
    forall i | 0 <= i <= |segs| ensures Visited(Normal(segs))[i] == Normal(segs[..|segs| - i]) {
      VisitedAt(segs, i);
    }
  }

  /** No directory is visited twice. */
  lemma WalkVisitsOnce(segs: seq<string>, i: nat, j: nat)
    requires AllProper(segs) && i < j < |Visited(Normal(segs))|
    ensures Visited(Normal(segs))[i] != Visited(Normal(segs))[j]
  {
    WalkVisitsAncestors(segs);
    NormalInjective(segs[..|segs| - i], segs[..|segs| - j]);
  }
}
