/** The resolver with its four caches, proved to resolve as if it had none. */
module Resolver {
  import opened Frames
  import opened TextOps
  import opened Paths
  import opened PackageMaps
  import opened Resolution

  // ---- Cache keys ----

  function ModeText(mode: Mode): string { if mode == Import then "import" else "require" }

  function Key(q: Query): string { q.request + ['\0'] + (q.fromDir + ['\0'] + ModeText(q.mode)) }

  predicate NulFree(q: Query) { Free(q.request, '\0') && Free(q.fromDir, '\0') }

  /** Without NUL characters in the parts, the key tells queries apart. */
  lemma KeyInjective(q: Query, r: Query)
    requires NulFree(q) && NulFree(r) && Key(q) == Key(r)
    ensures q == r
  {
    var x, y := q.fromDir + ['\0'] + ModeText(q.mode), r.fromDir + ['\0'] + ModeText(r.mode);
    SameUpToSeparator(q.request, x, r.request, y, '\0');
    SameUpToSeparator(q.fromDir, ModeText(q.mode), r.fromDir, ModeText(r.mode), '\0');
    assert ModeText(Import)[0] == 'i' && ModeText(Require)[0] == 'r';
  }

  /** With NUL characters it does not. */
  lemma KeysCollide(a: string, b: string, c: string, mode: Mode)
    ensures Key(Query(a + ['\0'] + b, c, mode)) == Key(Query(a, b + ['\0'] + c, mode))
  {
    var m := ['\0'] + ModeText(mode);
    assert Key(Query(a + ['\0'] + b, c, mode)) == a + ['\0'] + b + ['\0'] + c + m;
    assert Key(Query(a, b + ['\0'] + c, mode)) == a + ['\0'] + b + ['\0'] + c + m;
  }

  /** v is what the query resolves to. */
  ghost predicate Resolves(fs: FileSystem, q: Query,
                           v: Option<string>) { exists n: nat :: ResolveModule(fs, q, n) == Done(v) }

  class ResolutionCache {
    var resolveResults: map<string, Option<string>>
    var packageJsonResults: map<string, Option<Json>>
    var existsResults: map<string, bool>
    var statResults: map<string, Option<bool>>

    constructor ()
      ensures resolveResults == map[] && packageJsonResults == map[] && existsResults == map[] && statResults == map[]
    {
      resolveResults, packageJsonResults, existsResults, statResults := map[], map[], map[], map[];
    }

    /** Every entry is what the uncached step yields; nothing is cached for a step that throws. */
    ghost predicate Coherent(fs: FileSystem)
      reads this
    {
      && (forall p <- existsResults :: SafeExists(fs, p) == Done(existsResults[p]))
      && (forall p <- statResults :: Stat(fs, p) == Done(statResults[p]))
      && (forall p <- packageJsonResults :: Package(fs, p) == Done(packageJsonResults[p]))
      && (forall q :: NulFree(q) && Key(q) in resolveResults ==> Resolves(fs, q, resolveResults[Key(q)]))
    }
  }

  /** No cache, or a coherent one. */
  ghost predicate Good(cache: ResolutionCache?, fs: FileSystem)
    reads cache
  {
    cache != null ==> cache.Coherent(fs)
  }

  method CachedSafeExists(fs: FileSystem, path: string, cache: ResolutionCache?) returns (r: Outcome<bool>)
    requires Good(cache, fs)
    modifies cache
    ensures Good(cache, fs) && r == SafeExists(fs, path)
    ensures cache != null && r.Done? ==> path in cache.existsResults
  {
    if cache != null && path in cache.existsResults {
      return Done(cache.existsResults[path]);
    }
    var result :- SafeExists(fs, path);
    if cache != null {
      cache.existsResults := cache.existsResults[path := result];
    }
    return Done(result);
  }

  method CachedStat(fs: FileSystem, path: string, cache: ResolutionCache?) returns (r: Outcome<Option<bool>>)
    requires Good(cache, fs)
    modifies cache
    ensures Good(cache, fs) && r == Stat(fs, path)
    ensures cache != null && r.Done? ==> path in cache.statResults
  {
    if cache != null && path in cache.statResults {
      return Done(cache.statResults[path]);
    }
    var result :- Stat(fs, path);
    if cache != null {
      cache.statResults := cache.statResults[path := result];
    }
    return Done(result);
  }

  method ReadPackageJson(fs: FileSystem, path: string, cache: ResolutionCache?) returns (r: Outcome<Option<Json>>)
    requires Good(cache, fs)
    modifies cache
    ensures Good(cache, fs) && r == Package(fs, path)
    ensures cache != null && r.Done? ==> path in cache.packageJsonResults
  {
    if cache != null && path in cache.packageJsonResults {
      return Done(cache.packageJsonResults[path]);
    }
    var present :- CachedSafeExists(fs, path, cache);
    var result := if present then Parsed(fs, path) else None;
    if cache != null {
      cache.packageJsonResults := cache.packageJsonResults[path := result];
    }
    return Done(result);
  }

  /** The loops over file extensions. */
  method FirstExistingCached(fs: FileSystem, paths: seq<string>, cache: ResolutionCache?)
    returns (r: Outcome<Option<string>>)
    requires Good(cache, fs)
    modifies cache
    ensures Good(cache, fs) && r == FirstExisting(fs, paths)
  {
    for i := 0 to |paths|
      invariant Good(cache, fs) && FirstExisting(fs, paths[i..]) == FirstExisting(fs, paths)
    {
      var present :- CachedSafeExists(fs, paths[i], cache);
      if present {
        return Done(Some(paths[i]));
      }
      assert paths[i..][1..] == paths[i + 1..];
    }
    return Done(None);
  }

  /** What comes of a path without looking inside it, from its stat and its sibling files; None if that does
      not tell. */
  function FromOutside(base: string, stat: Outcome<Option<bool>>,
                       files: Outcome<Option<string>>): Option<Outcome<Option<string>>> {
    match stat
    case Failed(code) => Some(Failed(code))
    case Unfinished => Some(Unfinished)
    case Done(Some(false)) => Some(Done(Some(base)))
    case Done(isDirectory) =>
      match files
      case Done(None) => if isDirectory == None then Some(Done(None)) else None
      case _ => Some(files)
  }

  function OutsideOf(fs: FileSystem, base: string): Option<Outcome<Option<string>>> {
    FromOutside(base, Stat(fs, base), FirstExisting(fs, Siblings(base)))
  }

  /** What is inside it: where its package.json leads, or its index file. */
  function FromInside(w: Links, base: string, lead: Outcome<Option<string>>, fuel: nat): Outcome<Option<string>> {
    match lead
    case Done(Some(next)) =>
      var entry := Follow(w, next, fuel);
      if entry.Done? && !Truthy(entry.value) then w.index(base) else entry
    case Done(None) => w.index(base)
    case _ => lead
  }

  function Inside(fs: FileSystem, base: string, fuel: nat): Outcome<Option<string>> {
    FromInside(LinksOf(fs), base, Lead(fs, base), fuel)
  }

  function Either(outside: Option<Outcome<Option<string>>>, inside: Outcome<Option<string>>): Outcome<Option<string>> {
    match outside case Some(r) => r case None => inside
  }

  lemma FollowUnfolds(w: Links, base: string, fuel: nat, stat: Outcome<Option<bool>>, files: Outcome<Option<string>>,
                      lead: Outcome<Option<string>>)
    requires fuel > 0 && w.hop(base) == HopOf(stat, files, lead)
    requires w.local(base) == LocalOf(base, stat, files, lead, w.index(base))
    ensures Follow(w, base, fuel) == Either(FromOutside(base, stat, files), FromInside(w, base, lead, fuel - 1))
  {
  }

  /** resolvePath looks outside first, then inside. */
  lemma PathUnfolds(fs: FileSystem, base: string, fuel: nat)
    requires fuel > 0
    ensures ResolvePath(fs, base, fuel) == Either(OutsideOf(fs, base), Inside(fs, base, fuel - 1))
  {
    var w := LinksOf(fs);
    assert w.hop(base) == Hop(fs, base) && w.local(base) == Local(fs, base) && w.index(base) == Index(fs, base);
    FollowUnfolds(w, base, fuel, Stat(fs, base), FirstExisting(fs, Siblings(base)), Lead(fs, base));
  }

  lemma KnownFromOutside(fs: FileSystem, base: string, fuel: nat, known: Option<Outcome<Option<string>>>)
    requires fuel > 0 && known == OutsideOf(fs, base) && known.Some?
    ensures known.value == ResolvePath(fs, base, fuel)
  {
    PathUnfolds(fs, base, fuel);
  }

  lemma KnownFromInside(fs: FileSystem, base: string, fuel: nat, whole: Outcome<Option<string>>)
    requires OutsideOf(fs, base) == None && whole == ResolvePath(fs, base, fuel + 1)
    ensures Inside(fs, base, fuel) == whole
  {
    PathUnfolds(fs, base, fuel + 1);
  }

  /** resolvePath; it is only known to return for paths whose chain of main fields ends. */
  method ResolvePathCached(fs: FileSystem, base: string, cache: ResolutionCache?, ghost fuel: nat)
    returns (r: Outcome<Option<string>>)
    requires Good(cache, fs) && !ResolvePath(fs, base, fuel).Unfinished?
    modifies cache
    ensures Good(cache, fs) && r == ResolvePath(fs, base, fuel)
    decreases fuel, 2
  {
    ghost var whole := ResolvePath(fs, base, fuel);
    var known := ProbePath(fs, base, cache);
    if known.Some? {
      KnownFromOutside(fs, base, fuel, known);
      return known.value;
    }
    ghost var less: nat := fuel - 1;
    KnownFromInside(fs, base, less, whole);
    r := ResolveInside(fs, base, cache, less, whole);
  }

  /** The first part of resolvePath: files before directories. */
  method ProbePath(fs: FileSystem, base: string, cache: ResolutionCache?)
    returns (known: Option<Outcome<Option<string>>>)
    requires Good(cache, fs)
    modifies cache
    ensures Good(cache, fs) && known == OutsideOf(fs, base)
  {
    var stat := CachedStat(fs, base, cache);
    if stat.Failed? {
      return Some(Failed(stat.code));
    }
    if stat.value == Some(false) {
      return Some(Done(Some(base)));
    }
    var file := FirstExistingCached(fs, Siblings(base), cache);
    if file != Done(None) {
      return Some(file);
    }
    return if stat.value == None then Some(Done(None)) else None;
  }

  /** The last part of resolvePath. */
  method ResolveInside(fs: FileSystem, base: string, cache: ResolutionCache?, ghost fuel: nat,
                       ghost whole: Outcome<Option<string>>)
    returns (r: Outcome<Option<string>>)
    requires Good(cache, fs) && Inside(fs, base, fuel) == whole && !whole.Unfinished?
    modifies cache
    ensures Good(cache, fs) && r == whole
    decreases fuel, 3
  {
    var pkg :- ReadPackageJson(fs, PackageFile(base), cache);
    if Redirects(base, pkg) {
      var entry :- ResolvePathCached(fs, EntryPath(base, pkg), cache, fuel);
      if Truthy(entry) {
        return Done(entry);
      }
    }
    r := FirstExistingCached(fs, IndexPaths(base), cache);
  }

  method ResolvePackageEntryFromDir(fs: FileSystem, dir: string, subpath: string, mode: Mode, cache: ResolutionCache?,
                                    ghost fuel: nat)
    returns (r: Outcome<Option<string>>)
    requires Good(cache, fs) && !PackageEntry(fs, dir, subpath, mode, fuel).Unfinished?
    modifies cache
    ensures Good(cache, fs) && r == PackageEntry(fs, dir, subpath, mode, fuel)
  {
    ghost var plan := EntryPlan(fs, dir, subpath, mode);
    var pkg :- ReadPackageJson(fs, PackageFile(dir), cache);
    if Falsy(pkg) {
      var present :- CachedSafeExists(fs, dir, cache);
      if !present {
        return Done(None);
      }
    }
    assert plan == PresentPlan(dir, pkg, subpath, mode);
    if Member(pkg, "exports").Some? {
      var asked := if subpath != "" then "./" + subpath else ".";
      var exportsTarget := ExportsTarget(Member(pkg, "exports").value, asked, mode);
      if !Truthy(exportsTarget) {
        return Done(None);
      }
      var targetPath := Joined([dir, NormalizePackagePath(exportsTarget.value)]);
      assert plan == OrItself(targetPath);
      var resolved :- ResolvePathCached(fs, targetPath, cache, fuel);
      return Done(if resolved.Some? then resolved else Some(targetPath));
    }
    if subpath != "" {
      assert plan == Only(Joined([dir, subpath]));
      r := ResolvePathCached(fs, Joined([dir, subpath]), cache, fuel);
      return;
    }
    r := ResolveRootEntry(fs, dir, pkg, plan, cache, fuel);
  }

  /** The last part: the main field, then the index files. */
  method ResolveRootEntry(fs: FileSystem, dir: string, pkg: Option<Json>, ghost plan: Plan, cache: ResolutionCache?,
                          ghost fuel: nat)
    returns (r: Outcome<Option<string>>)
    requires Good(cache, fs) && plan == RootPlan(dir, pkg) && !Carry(fs, plan, fuel).Unfinished?
    modifies cache
    ensures Good(cache, fs) && r == Carry(fs, plan, fuel)
  {
    var entryField := EntryField(pkg);
    if entryField != "" {
      var entryPath := Joined([dir, NormalizePackagePath(entryField)]);
      assert plan.OrElse? && plan.path == entryPath;
      var resolved :- ResolvePathCached(fs, entryPath, cache, fuel);
      if Truthy(resolved) {
        return Done(resolved);
      }
      if !Falsy(pkg) {
        return Done(Some(entryPath));
      }
    }
    r := ResolvePathCached(fs, Joined([dir, "index"]), cache, fuel);
  }

  method ResolvePackageImports(fs: FileSystem, request: string, fromDir: string, mode: Mode, cache: ResolutionCache?,
                               ghost fuel: nat)
    returns (r: Outcome<Option<string>>)
    requires Good(cache, fs) && !ResolveImports(fs, request, fromDir, mode, fuel).Unfinished?
    modifies cache
    ensures Good(cache, fs) && r == ResolveImports(fs, request, fromDir, mode, fuel)
  {
    var dir := fromDir;
    while !Outside(dir)
      invariant Good(cache, fs)
      invariant NearestImports(fs, request, dir, mode) == NearestImports(fs, request, fromDir, mode)
      decreases Climb(dir)
    {
      var pkg :- ReadPackageJson(fs, PackageFile(dir), cache);
      if Member(pkg, "imports").Some? {
        var target := ImportsTarget(Member(pkg, "imports").value, request, mode);
        if !Truthy(target) {
          return Done(None);
        }
        if target.value[0] == '#' {
          return Done(None);
        }
        r := ResolvePathCached(fs, ImportedPath(dir, target.value), cache, fuel);
        return;
      }
      if dir == "/" {
        break;
      }
      DirnameClimbs(dir);
      dir := Dirname(dir);
    }
    return Done(None);
  }

  /** The first entry among directories, passing over those that may not be looked at. */
  method TryDirs(fs: FileSystem, dirs: seq<string>, subpath: string, mode: Mode, cache: ResolutionCache?,
                 ghost fuel: nat)
    returns (r: Outcome<Option<string>>)
    requires Good(cache, fs) && !FirstEntry(fs, dirs, subpath, mode, fuel).Unfinished?
    modifies cache
    ensures Good(cache, fs) && r == FirstEntry(fs, dirs, subpath, mode, fuel)
  {
    for i := 0 to |dirs|
      invariant Good(cache, fs)
      invariant FirstEntry(fs, dirs[i..], subpath, mode, fuel) == FirstEntry(fs, dirs, subpath, mode, fuel)
    {
      assert dirs[i..][1..] == dirs[i + 1..];
      var entry := ResolvePackageEntryFromDir(fs, dirs[i], subpath, mode, cache, fuel);
      if entry.Failed? && !Permission(entry.code) {
        return entry;
      }
      if entry.Done? && Truthy(entry.value) {
        return entry;
      }
    }
    return Done(None);
  }

  lemma {:induction false} FirstEntryConcat(fs: FileSystem, a: seq<string>, b: seq<string>, subpath: string, mode: Mode,
                                            fuel: nat)
    ensures var first := FirstEntry(fs, a, subpath, mode, fuel);
      FirstEntry(fs, a + b, subpath, mode, fuel) ==
      if first.Done? && !Truthy(first.value) then FirstEntry(fs, b, subpath, mode, fuel) else first
    decreases |a|
  {
    if a == [] {
      assert a + b == b;
    } else {
      assert (a + b)[1..] == a[1..] + b;
      FirstEntryConcat(fs, a[1..], b, subpath, mode, fuel);
    }
  }

  method ResolveNodeModulesCached(fs: FileSystem, name: string, subpath: string, fromDir: string, mode: Mode,
                                  cache: ResolutionCache?, ghost fuel: nat)
    returns (r: Outcome<Option<string>>)
    requires Good(cache, fs) && !ResolveNodeModules(fs, name, subpath, fromDir, mode, fuel).Unfinished?
    modifies cache
    ensures Good(cache, fs) && r == ResolveNodeModules(fs, name, subpath, fromDir, mode, fuel)
  {
    var dir := fromDir;
    ghost var left := SearchPath(name, dir);
    while !Outside(dir)
      invariant Good(cache, fs) && left == SearchPath(name, dir)
      invariant FirstEntry(fs, left, subpath, mode, fuel) == ResolveNodeModules(fs, name, subpath, fromDir, mode, fuel)
      decreases Climb(dir)
    {
      left := if dir == "/" then RootDirs(name) else SearchPath(name, Dirname(dir));
      FirstEntryConcat(fs, CandidateDirs(dir, name), left, subpath, mode, fuel);
      var entry :- TryDirs(fs, CandidateDirs(dir, name), subpath, mode, cache, fuel);
      if Truthy(entry) {
        return Done(entry);
      }
      if dir == "/" {
        break;
      }
      DirnameClimbs(dir);
      dir := Dirname(dir);
    }
    r := TryDirs(fs, RootDirs(name), subpath, mode, cache, fuel);
  }

  /** resolveModule: whatever was resolved before, the result is the one without a cache. */
  method Resolve(fs: FileSystem, q: Query, cache: ResolutionCache?, ghost fuel: nat)
    returns (r: Outcome<Option<string>>)
    requires NulFree(q) && Good(cache, fs) && !ResolveModule(fs, q, fuel).Unfinished?
    modifies cache
    ensures Good(cache, fs) && r == ResolveModule(fs, q, fuel)
    ensures cache != null && r.Done? ==> Key(q) in cache.resolveResults && cache.resolveResults[Key(q)] == r.value
  {
    if cache != null && Key(q) in cache.resolveResults {
      r := Done(cache.resolveResults[Key(q)]);
      ghost var n: nat :| ResolveModule(fs, q, n) == r;
      ModuleDeterministic(fs, q, n, fuel);
      return;
    }
    var result: Option<string>;
    if Absolute(q.request) {
      result :- ResolvePathCached(fs, q.request, cache, fuel);
    } else if Relative(q.request) {
      result :- ResolvePathCached(fs, Joined([q.fromDir, q.request]), cache, fuel);
    } else if "#" <= q.request {
      result :- ResolvePackageImports(fs, q.request, q.fromDir, q.mode, cache, fuel);
    } else {
      var parsed := PackageName(q.request);
      if parsed == None {
        result := None;
      } else {
        result :- ResolveNodeModulesCached(fs, parsed.value.0, parsed.value.1, q.fromDir, q.mode, cache, fuel);
      }
    }
    if cache != null {
      StoreIsCoherent(fs, cache, q, result, fuel);
      cache.resolveResults := cache.resolveResults[Key(q) := result];
    }
    return Done(result);
  }

  /** A new result may be stored under its key. */
  lemma StoreIsCoherent(fs: FileSystem, cache: ResolutionCache, q: Query, v: Option<string>, fuel: nat)
    requires NulFree(q) && cache.Coherent(fs) && ResolveModule(fs, q, fuel) == Done(v)
    ensures var m := cache.resolveResults[Key(q) := v];
      forall p :: NulFree(p) && Key(p) in m ==> Resolves(fs, p, m[Key(p)])
  {
    var m := cache.resolveResults[Key(q) := v];
    forall p | NulFree(p) && Key(p) in m ensures Resolves(fs, p, m[Key(p)]) {
      if Key(p) == Key(q) { KeyInjective(p, q); }
    }
  }

  /** The outcomes of a sequence of queries without a cache. */
  function Outcomes(fs: FileSystem, qs: seq<Query>, fuel: nat): seq<Outcome<Option<string>>>
    decreases |qs|
  {
    if qs == [] then [] else Outcomes(fs, qs[..|qs| - 1], fuel) + [ResolveModule(fs, qs[|qs| - 1], fuel)]
  }

  /** All of them end, and none has a NUL in it. */
  predicate AllEnd(fs: FileSystem, qs: seq<Query>, fuel: nat)
    decreases |qs|
  {
    qs == [] ||
    (var front, last := qs[..|qs| - 1], qs[|qs| - 1];
     AllEnd(fs, front, fuel) && NulFree(last) && !ResolveModule(fs, last, fuel).Unfinished?)
  }

  /** Any sequence of resolutions over one cache. */
  method ResolveSequence(fs: FileSystem, qs: seq<Query>, cache: ResolutionCache?, ghost fuel: nat)
    returns (rs: seq<Outcome<Option<string>>>)
    requires Good(cache, fs) && AllEnd(fs, qs, fuel)
    modifies cache
    ensures Good(cache, fs) && rs == Outcomes(fs, qs, fuel)
    decreases |qs|
  {
    if qs == [] {
      return [];
    }
    rs := ResolveSequence(fs, qs[..|qs| - 1], cache, fuel);
    var r := Resolve(fs, qs[|qs| - 1], cache, fuel);
    rs := rs + [r];
  }

  /** The cache is invisible: every sequence of resolutions gives the same results and errors with and without it. */
  method ResolveWithAndWithoutCache(fs: FileSystem, qs: seq<Query>, ghost fuel: nat)
    returns (cached: seq<Outcome<Option<string>>>, plain: seq<Outcome<Option<string>>>)
    requires AllEnd(fs, qs, fuel)
    ensures cached == plain == Outcomes(fs, qs, fuel)
  {
    var cache := new ResolutionCache();
    cached := ResolveSequence(fs, qs, cache, fuel);
    plain := ResolveSequence(fs, qs, null, fuel);
  }
}
