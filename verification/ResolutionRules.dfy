/**
 What resolution comes to, rule by rule, said of the file system and of package.json rather than of the functions that
 resolve: what is found exists, what decides is the first of its kind, and exports shuts out everything else.
 */
module ResolutionRules {
  import opened Frames
  import opened TextOps
  import opened Paths
  import opened PackageMaps
  import opened Chains
  import opened Resolution
  import Resolver

  // ---- Probes ----

  /** A probe that is not permitted counts as a no. */
  predicate Missing(fs: FileSystem, path: string) {
    fs.has(path) == Found(false) || fs.has(path) == Throws("EACCES") || fs.has(path) == Throws("EPERM")
  }

  /** An error other than that is the caller's. */
  predicate Breaks(fs: FileSystem, path: string, code: string) {
    fs.has(path) == Throws(code) && code != "EACCES" && code != "EPERM"
  }

  predicate AllMissing(fs: FileSystem, paths: seq<string>) { forall p <- paths :: Missing(fs, p) }

  /** The first path that is not missing decides, */
  lemma {:induction false} FirstPresentWins(fs: FileSystem, paths: seq<string>, i: nat)
    requires i < |paths| && AllMissing(fs, paths[..i])
    ensures fs.has(paths[i]) == Found(true) ==> FirstExisting(fs, paths) == Done(Some(paths[i]))
    ensures forall code :: Breaks(fs, paths[i], code) ==> FirstExisting(fs, paths) == Failed(code)
    decreases i
  {
    if i > 0 {
      assert paths[0] in paths[..i] && paths[1..][..i - 1] == paths[..i][1..];
      FirstPresentWins(fs, paths[1..], i - 1);
    }
  }

  /** and if there is none nothing is found. */
  lemma {:induction false} NothingPresent(fs: FileSystem, paths: seq<string>)
    requires AllMissing(fs, paths)
    ensures FirstExisting(fs, paths) == Done(None)
    decreases |paths|
  {
    if paths != [] {
      assert paths[0] in paths;
      NothingPresent(fs, paths[1..]);
    }
  }

  lemma {:induction false} FoundIsPresent(fs: FileSystem, paths: seq<string>, p: string)
    requires FirstExisting(fs, paths) == Done(Some(p))
    ensures p in paths && fs.has(p) == Found(true)
    decreases |paths|
  {
    if fs.has(paths[0]) != Found(true) { FoundIsPresent(fs, paths[1..], p); }
  }

  /** What a package.json says: nothing if it is missing, unreadable or null, else what it parses to. */
  lemma PackageReads(fs: FileSystem, path: string)
    ensures Missing(fs, path) ==> Package(fs, path) == Done(None)
    ensures forall code :: Breaks(fs, path, code) ==> Package(fs, path) == Failed(code)
    ensures fs.has(path) == Found(true) ==>
      Package(fs, path) == Done(match fs.json(path) case Some(Null) => None case json => json)
  {
  }

  /** The paths tried beside, in order, */
  lemma SiblingsInOrder(base: string)
    ensures Siblings(base) == [base + ".js", base + ".json", base + ".mjs", base + ".cjs"]
  {
    var e1, e2, e3 := FILE_EXTENSIONS[1..], FILE_EXTENSIONS[2..], FILE_EXTENSIONS[3..];
    assert e1[1..] == e2 && e2[1..] == e3 && e3[1..] == [] && e1[0] == ".json" && e2[0] == ".mjs" && e3[0] == ".cjs";
    assert WithExtensions(base, e3) == [base + ".cjs"];
    assert WithExtensions(base, e2) == [base + ".mjs"] + WithExtensions(base, e3);
    assert WithExtensions(base, e1) == [base + ".json"] + WithExtensions(base, e2);
  }

  /** and inside. */
  lemma IndexesInOrder(base: string)
    ensures IndexPaths(base) == [Joined([base, "index.js"]), Joined([base, "index.json"]),
                                 Joined([base, "index.mjs"]), Joined([base, "index.cjs"])]
  {
    var e1, e2, e3 := FILE_EXTENSIONS[1..], FILE_EXTENSIONS[2..], FILE_EXTENSIONS[3..];
    assert e1[1..] == e2 && e2[1..] == e3 && e3[1..] == [] && e1[0] == ".json" && e2[0] == ".mjs" && e3[0] == ".cjs";
    assert "index" + ".js" == "index.js" && "index" + ".json" == "index.json";
    assert "index" + ".mjs" == "index.mjs" && "index" + ".cjs" == "index.cjs";
    assert Indexes(base, e3) == [Joined([base, "index.cjs"])];
    assert Indexes(base, e2) == [Joined([base, "index.mjs"])] + Indexes(base, e3);
    assert Indexes(base, e1) == [Joined([base, "index.json"])] + Indexes(base, e2);
  }

  // ---- resolvePath ----

  /** A stat that fails for another reason than a missing file, or without a code, is the caller's. */
  predicate StatBreaks(fs: FileSystem, path: string, code: string) {
    fs.stat(path) == Throws(code) && code != "" && code != "ENOENT"
  }

  /** A file is what it is; a broken stat breaks the resolution; otherwise a file with an extension comes before
      anything inside the directory, and where there is neither there is nothing. */
  lemma OutsideDecides(fs: FileSystem, base: string, fuel: nat)
    requires fuel > 0
    ensures fs.stat(base) == Found(false) ==> ResolvePath(fs, base, fuel) == Done(Some(base))
    ensures forall code :: StatBreaks(fs, base, code) ==> ResolvePath(fs, base, fuel) == Failed(code)
    ensures var files := FirstExisting(fs, Siblings(base));
      fs.stat(base) != Found(false) && (forall code :: !StatBreaks(fs, base, code)) ==>
        && (files != Done(None) ==> ResolvePath(fs, base, fuel) == files)
        && (files == Done(None) && fs.stat(base) != Found(true) ==> ResolvePath(fs, base, fuel) == Done(None))
  {
    var w := LinksOf(fs);
    assert w.hop(base) == Hop(fs, base) && w.local(base) == Local(fs, base);
    if fs.stat(base).Throws? { assert StatBreaks(fs, base, fs.stat(base).code) || Stat(fs, base) == Done(None); }
  }

  /** The text of the main field, index.js by default. */
  function Main(pkg: Option<Json>): string {
    match pkg
    case Some(Obj(fields)) => (match Lookup(fields, "main") case Some(Str(text)) => text case _ => "index.js")
    case _ => "index.js"
  }

  /** Inside a directory the main field comes first, unless it is empty or names the directory itself, and the index
      files last; a main that resolves to nothing counts as none. */
  lemma InsideDecides(fs: FileSystem, base: string, fuel: nat, pkg: Option<Json>)
    requires fuel > 0 && fs.stat(base) == Found(true) && AllMissing(fs, Siblings(base))
    requires Package(fs, Joined([base, "package.json"])) == Done(pkg)
    ensures var next := Joined([base, NormalizePackagePath(Main(pkg))]);
      var index := FirstExisting(fs, IndexPaths(base));
      ResolvePath(fs, base, fuel) ==
      if Main(pkg) == "" || next == base then index
      else
        match ResolvePath(fs, next, fuel - 1)
        case Done(entry) => if entry == None || entry == Some("") then index else Done(entry)
        case r => r
  {
    OutsideSaysNothing(fs, base);
    MainIsEntryField(pkg);
    LeadIs(fs, base, pkg, EntryPath(base, pkg));
    ghost var less: nat := fuel - 1;
    Resolver.PathUnfolds(fs, base, fuel);
    assert LinksOf(fs).index(base) == Index(fs, base);
  }

  lemma OutsideSaysNothing(fs: FileSystem, base: string)
    requires fs.stat(base) == Found(true) && AllMissing(fs, Siblings(base))
    ensures Resolver.OutsideOf(fs, base) == None
  {
    NothingPresent(fs, Siblings(base));
  }

  lemma LeadIs(fs: FileSystem, base: string, pkg: Option<Json>, next: string)
    requires Package(fs, PackageFile(base)) == Done(pkg) && next == EntryPath(base, pkg)
    ensures Lead(fs, base) == Done(if EntryField(pkg) == "" || next == base then None else Some(next))
  {
  }

  lemma MainIsEntryField(pkg: Option<Json>)
    ensures Main(pkg) == EntryField(pkg)
  {
  }

  /** What a path is: itself, or itself with an extension, or an index file inside. */
  ghost predicate At(base: string, p: string) { p == base || p in Siblings(base) || p in IndexPaths(base) }

  /** Whatever resolvePath finds is there, at the path asked for or at one that the main fields lead to from it. */
  lemma {:induction false} WhatIsFoundExists(fs: FileSystem, base: string, fuel: nat, p: string) returns (k: nat)
    requires ResolvePath(fs, base, fuel) == Done(Some(p))
    ensures fs.stat(p) == Found(false) || fs.has(p) == Found(true)
    ensures var chain := After(LinksOf(fs).hop, base, k); chain.Some? && At(chain.value, p)
    decreases fuel
  {
    var w := LinksOf(fs);
    assert w.hop(base) == Hop(fs, base) && w.local(base) == Local(fs, base) && w.index(base) == Index(fs, base);
    k := 0;
    if w.hop(base).Some? {
      var next := w.hop(base).value;
      ghost var less: nat := fuel - 1;
      var entry := Follow(w, next, less).value;
      if Truthy(entry) {
        k := WhatIsFoundExists(fs, next, less, p);
        k := k + 1;
      } else {
        FoundIsPresent(fs, IndexPaths(base), p);
      }
    } else {
      LocalIsPresent(fs, base, p);
    }
  }

  lemma LocalIsPresent(fs: FileSystem, base: string, p: string)
    requires Local(fs, base) == Done(Some(p))
    ensures (fs.stat(p) == Found(false) || fs.has(p) == Found(true)) && At(base, p)
  {
    var stat, files, index := Stat(fs, base), FirstExisting(fs, Siblings(base)), Index(fs, base);
    LocalOfThree(base, stat, files, Lead(fs, base), index, p);
    if files == Done(Some(p)) { FoundIsPresent(fs, Siblings(base), p); }
    else if index == Done(Some(p)) { FoundIsPresent(fs, IndexPaths(base), p); }
    else { assert fs.stat(base) == Found(false); }
  }

  lemma LocalOfThree(base: string, stat: Outcome<Option<bool>>, files: Outcome<Option<string>>,
                     lead: Outcome<Option<string>>, index: Outcome<Option<string>>, p: string)
    requires LocalOf(base, stat, files, lead, index) == Done(Some(p))
    ensures (stat == Done(Some(false)) && p == base) || files == Done(Some(p)) || index == Done(Some(p))
  {
  }

  // ---- Paths in package.json ----

  lemma {:induction false} SplitTrailing(s: string, sep: char)
    ensures Split(s + [sep], sep) == Split(s, sep) + [[]]
  {
    if s == "" {
      assert Split([sep][1..], sep) == [[]];
    } else {
      SplitTrailing(s[1..], sep);
      assert (s + [sep])[1..] == s[1..] + [sep];
    }
  }

  lemma {:induction false} KeepAllLast(segs: seq<string>, more: seq<string>, seg: string)
    ensures KeepAll(segs, more + [seg]) == Keep(KeepAll(segs, more), seg)
    decreases |more|
  {
    if more == [] {
      assert [seg][1..] == [];
    } else {
      assert (more + [seg])[1..] == more[1..] + [seg];
      KeepAllLast(Keep(segs, more[0]), more[1..], seg);
    }
  }

  /** Trimming a leading "./" and a trailing slash off a value makes no difference to the path it is joined to, as long
      as it makes no relative value absolute, nor the root a relative one. */
  lemma TrimmingIsInvisible(dir: string, value: string)
    requires Absolute(NormalizePackagePath(value)) <==> Absolute(value)
    ensures Joined([dir, NormalizePackagePath(value)]) == Joined([dir, value])
  {
    var v := if "./" <= value then value[2..] else value;
    var segs := AddPart([], dir);
    var from := if Absolute(value) then [] else segs;
    if "./" <= value {
      assert value == "." + "/" + v;
      SplitPrefix(".", v, '/');
      assert KeepAll(from, ["."] + Split(v, '/')) == KeepAll(from, (["."] + Split(v, '/'))[1..]);
    }
    if EndsWith(v, "/") {
      var w := v[..|v| - 1];
      assert v == w + "/";
      SplitTrailing(w, '/');
      KeepAllLast(from, Split(w, '/'), "");
    }
    assert AddPart(segs, NormalizePackagePath(value)) == AddPart(segs, value);
    JoinedTwo(dir, value);
    JoinedTwo(dir, NormalizePackagePath(value));
  }

  lemma JoinedTwo(a: string, b: string)
    ensures Joined([a, b]) == Normal(AddPart(AddPart([], a), b))
  {
    assert [a, b][1..] == [b] && [b][1..] == [];
    assert AddParts([], [a, b]) == AddParts(AddPart([], a), [b]) == AddParts(AddPart(AddPart([], a), b), []);
  }

  // ---- Package entries ----

  /** A package that has an exports field. */
  ghost predicate Exporting(fs: FileSystem, dir: string, exports: Json) {
    exists fields ::
      && Package(fs, Joined([dir, "package.json"])) == Done(Some(Obj(fields)))
      && Lookup(fields, "exports") == Some(exports)
  }

  /** A package that is there goes by its package.json, or by the lack of one. */
  lemma PresentPackage(fs: FileSystem, dir: string, pkg: Option<Json>, subpath: string, mode: Mode)
    requires Package(fs, Joined([dir, "package.json"])) == Done(pkg) && (Falsy(pkg) ==> fs.has(dir) == Found(true))
    ensures EntryPlan(fs, dir, subpath, mode) == PresentPlan(dir, pkg, subpath, mode)
  {
  }

  /** Where a target of the field leads. */
  function TargetPath(dir: string, target: string): string { Joined([dir, NormalizePackagePath(target)]) }

  /** What is asked of the field. */
  function Asked(subpath: string): string { if subpath == "" then "." else "./" + subpath }

  /** The exports field alone decides: without a target for what is asked there is no entry, whatever else the
      package says; otherwise the entry is what the target's path resolves to, or else that path itself. */
  lemma ExportsDecide(fs: FileSystem, dir: string, exports: Json, subpath: string, mode: Mode, fuel: nat,
                      target: Option<string>)
    requires Exporting(fs, dir, exports) && target == ExportsTarget(exports, Asked(subpath), mode)
    ensures PackageEntry(fs, dir, subpath, mode, fuel) ==
      if target == None || target == Some("") then Done(None) else OrSelf(fs, TargetPath(dir, target.value), fuel)
  {
    ExportsPlan(fs, dir, exports, subpath, mode, target);
    if Truthy(target) { CarryOrItself(fs, TargetPath(dir, target.value), fuel); }
  }

  lemma CarryOrItself(fs: FileSystem, path: string, fuel: nat)
    ensures Carry(fs, OrItself(path), fuel) == OrSelf(fs, path, fuel)
  {
  }

  lemma ExportsPlan(fs: FileSystem, dir: string, exports: Json, subpath: string, mode: Mode, target: Option<string>)
    requires Exporting(fs, dir, exports) && target == ExportsTarget(exports, Asked(subpath), mode)
    ensures EntryPlan(fs, dir, subpath, mode) ==
      if Truthy(target) then OrItself(TargetPath(dir, target.value)) else Answer(Done(None))
  {
    var fields :|
      && Package(fs, Joined([dir, "package.json"])) == Done(Some(Obj(fields)))
      && Lookup(fields, "exports") == Some(exports);
    PresentPackage(fs, dir, Some(Obj(fields)), subpath, mode);
  }

  /** What the path resolves to, or else the path itself. */
  function OrSelf(fs: FileSystem, path: string, fuel: nat): Outcome<Option<string>> {
    match ResolvePath(fs, path, fuel)
    case Done(resolved) => Done(if resolved == None then Some(path) else resolved)
    case r => r
  }

  /** So an entry of such a package always stems from a string written in the field, up to filled-in stars. */
  lemma NoWayAroundExports(fs: FileSystem, dir: string, exports: Json, subpath: string, mode: Mode, fuel: nat,
                           p: string)
    requires Exporting(fs, dir, exports) && PackageEntry(fs, dir, subpath, mode, fuel) == Done(Some(p))
    ensures exists target ::
      && Comes(exports, target)
      && (p == TargetPath(dir, target) || ResolvePath(fs, TargetPath(dir, target), fuel) == Done(Some(p)))
  {
    var target := ExportsTarget(exports, Asked(subpath), mode);
    ExportsDecide(fs, dir, exports, subpath, mode, fuel, target);
    ExportsTargetComes(exports, Asked(subpath), mode);
  }

  /** A package.json, or the lack of one, without exports. */
  predicate Plain(fs: FileSystem, dir: string, pkg: Option<Json>) {
    && Package(fs, Joined([dir, "package.json"])) == Done(pkg)
    && (pkg.Some? && pkg.value.Obj? ==> Lookup(pkg.value.fields, "exports") == None)
  }

  /** Without exports a subpath is a path inside the package. */
  lemma SubpathIsInside(fs: FileSystem, dir: string, pkg: Option<Json>, subpath: string, mode: Mode, fuel: nat)
    requires Plain(fs, dir, pkg) && subpath != "" && (Falsy(pkg) ==> fs.has(dir) == Found(true))
    ensures PackageEntry(fs, dir, subpath, mode, fuel) == ResolvePath(fs, Joined([dir, subpath]), fuel)
  {
    PresentPackage(fs, dir, pkg, subpath, mode);
  }

  /** Without exports the package itself is its main file, the path of which is the answer even if nothing is there;
      only without a package.json, or with an empty main, does index come in. */
  lemma MainThenIndex(fs: FileSystem, dir: string, pkg: Option<Json>, mode: Mode, fuel: nat)
    requires Plain(fs, dir, pkg) && (Falsy(pkg) ==> fs.has(dir) == Found(true))
    ensures var (main, index) := (TargetPath(dir, Main(pkg)), ResolvePath(fs, Joined([dir, "index"]), fuel));
      PackageEntry(fs, dir, "", mode, fuel) ==
      if Main(pkg) == "" then index
      else
        match ResolvePath(fs, main, fuel)
        case Done(resolved) =>
          if resolved != None && resolved != Some("") then Done(resolved)
          else if Falsy(pkg) then index else Done(Some(main))
        case r => r
  {
    PresentPackage(fs, dir, pkg, "", mode);
    MainIsEntryField(pkg);
    assert PresentPlan(dir, pkg, "", mode) == RootPlan(dir, pkg);
    var plan := RootPlan(dir, pkg);
    if plan.OrElse? {
      assert Carry(fs, plan.second, fuel) ==
        if Falsy(pkg) then ResolvePath(fs, Joined([dir, "index"]), fuel) else Done(Some(plan.path));
    }
  }

  /** Without a package.json and without a directory there is no package. */
  lemma NoPackage(fs: FileSystem, dir: string, subpath: string, mode: Mode, fuel: nat)
    requires Missing(fs, Joined([dir, "package.json"])) && Missing(fs, dir)
    ensures PackageEntry(fs, dir, subpath, mode, fuel) == Done(None)
  {
  }

  // ---- The walks ----

  /** There is nothing for a bare request in this directory. */
  predicate PassedOver(fs: FileSystem, dir: string, subpath: string, mode: Mode, fuel: nat) {
    match PackageEntry(fs, dir, subpath, mode, fuel)
    case Done(entry) => entry == None || entry == Some("")
    case Failed(code) => code == "EACCES" || code == "EPERM"
    case Unfinished => false
  }

  lemma FirstEntryStep(fs: FileSystem, dirs: seq<string>, subpath: string, mode: Mode, fuel: nat)
    requires dirs != []
    ensures FirstEntry(fs, dirs, subpath, mode, fuel) ==
      if PassedOver(fs, dirs[0], subpath, mode, fuel) then FirstEntry(fs, dirs[1..], subpath, mode, fuel)
      else PackageEntry(fs, dirs[0], subpath, mode, fuel)
  {
  }

  /** A bare request is settled by the first directory of its search path that is not passed over, */
  lemma {:induction false} FirstDirectoryWins(fs: FileSystem, dirs: seq<string>, subpath: string, mode: Mode, fuel: nat,
                                              i: nat)
    requires i < |dirs| && !PassedOver(fs, dirs[i], subpath, mode, fuel)
    requires forall d <- dirs[..i] :: PassedOver(fs, d, subpath, mode, fuel)
    ensures FirstEntry(fs, dirs, subpath, mode, fuel) == PackageEntry(fs, dirs[i], subpath, mode, fuel)
    decreases i
  {
    FirstEntryStep(fs, dirs, subpath, mode, fuel);
    if i > 0 {
      var later: nat := i - 1;
      FrontTail(dirs, i, later);
      FirstDirectoryWins(fs, dirs[1..], subpath, mode, fuel, later);
    }
  }

  /** and by none if all are. */
  lemma {:induction false} NoDirectory(fs: FileSystem, dirs: seq<string>, subpath: string, mode: Mode, fuel: nat)
    requires forall d <- dirs :: PassedOver(fs, d, subpath, mode, fuel)
    ensures FirstEntry(fs, dirs, subpath, mode, fuel) == Done(None)
    decreases |dirs|
  {
    if dirs != [] {
      FirstEntryStep(fs, dirs, subpath, mode, fuel);
      assert dirs[0] in dirs;
      NoDirectory(fs, dirs[1..], subpath, mode, fuel);
    }
  }

  /** The package.json there has no imports field. */
  predicate WithoutImports(fs: FileSystem, dir: string) {
    var pkg := Package(fs, Joined([dir, "package.json"]));
    pkg.Done? && match pkg.value case Some(Obj(fields)) => Lookup(fields, "imports") == None case _ => true
  }

  ghost predicate Importing(fs: FileSystem, dir: string, imports: Json) {
    exists fields ::
      && Package(fs, Joined([dir, "package.json"])) == Done(Some(Obj(fields)))
      && Lookup(fields, "imports") == Some(imports)
  }

  /** What a request with a number sign comes to once the field is found. */
  function ImportsOutcome(fs: FileSystem, dir: string, target: Option<string>, fuel: nat): Outcome<Option<string>> {
    if target == None || target == Some("") || target.value[0] == '#' then Done(None)
    else ResolvePath(fs, if Absolute(target.value) then target.value else TargetPath(dir, target.value), fuel)
  }

  lemma NearestStep(fs: FileSystem, request: string, dir: string, mode: Mode)
    requires !Outside(dir) && WithoutImports(fs, dir)
    ensures NearestImports(fs, request, dir, mode) ==
      if dir == "/" then Answer(Done(None)) else NearestImports(fs, request, Dirname(dir), mode)
  {
    if dir != "/" { DirnameClimbs(dir); }
  }

  /** The nearest directory on the way up whose package.json has an imports field decides, by a target written in that
      field; a target that is again such a request is refused. */
  lemma {:induction false} NearestImportsWin(fs: FileSystem, request: string, dir: string, mode: Mode, fuel: nat,
                                             i: nat, imports: Json, target: Option<string>)
    requires i < |Visited(dir)| && Importing(fs, Visited(dir)[i], imports)
    requires forall d <- Visited(dir)[..i] :: WithoutImports(fs, d)
    requires target == ImportsTarget(imports, request, mode)
    ensures ResolveImports(fs, request, dir, mode, fuel) == ImportsOutcome(fs, Visited(dir)[i], target, fuel)
    ensures target.Some? ==> Comes(imports, target.value)
    decreases i
  {
    if i == 0 {
      ImportsHere(fs, request, dir, mode, fuel, imports, target);
    } else {
      var (v, later: nat) := (Visited(dir), i - 1);
      FrontTail(v, i, later);
      NearestStep(fs, request, dir, mode);
      assert v[0] == dir && v[1..] == Visited(Dirname(dir));
      NearestImportsWin(fs, request, Dirname(dir), mode, fuel, later, imports, target);
    }
  }

  lemma ImportsHere(fs: FileSystem, request: string, dir: string, mode: Mode, fuel: nat, imports: Json,
                    target: Option<string>)
    requires !Outside(dir) && Importing(fs, dir, imports) && target == ImportsTarget(imports, request, mode)
    ensures ResolveImports(fs, request, dir, mode, fuel) == ImportsOutcome(fs, dir, target, fuel)
    ensures target.Some? ==> Comes(imports, target.value)
  {
    if target.Some? { ImportsTargetComes(imports, request, mode); }
    assert NearestImports(fs, request, dir, mode) == ImportsPlan(imports, request, dir, mode);
  }

  /** Without any such field there is nothing. */
  lemma {:induction false} NoImports(fs: FileSystem, request: string, dir: string, mode: Mode, fuel: nat)
    requires forall d <- Visited(dir) :: WithoutImports(fs, d)
    ensures ResolveImports(fs, request, dir, mode, fuel) == Done(None)
    decreases Climb(dir)
  {
    if !Outside(dir) {
      var v := Visited(dir);
      assert v[0] in v;
      NearestStep(fs, request, dir, mode);
      if dir != "/" {
        DirnameClimbs(dir);
        assert v[1..] == Visited(Dirname(dir));
        NoImports(fs, request, Dirname(dir), mode, fuel);
      }
    }
  }

  /** The directories of the search path that belong to one directory of the walk. */
  lemma CandidatesAre(dir: string, name: string, c: string)
    ensures c in CandidateDirs(dir, name) <==>
      || c == Joined([dir, "node_modules", name]) || c == Joined([dir, "node_modules", ".pnpm", "node_modules", name])
      || (EndsWith(dir, "/node_modules") && c == Joined([dir, name]))
      || (var i := LastIndexOf(dir, "/node_modules/");
          i >= 0 && c == Joined([dir[..i] + "/node_modules", ".pnpm", "node_modules", name]))
  {
    var i := LastIndexOf(dir, "/node_modules/");
    if i >= 0 { SliceIs(dir, i); }
    var p1, p2 := Joined([dir, "node_modules", name]), Joined([dir, "node_modules", ".pnpm", "node_modules", name]);
    var p3, p4 := Joined([dir, name]), Joined([Slice(dir, 0, i + 13), ".pnpm", "node_modules", name]);
    var c2 := Added([p1], p2);
    var c3 := if EndsWith(dir, "/node_modules") then Added(c2, p3) else c2;
    AddedMember([p1], p2, c);
    AddedMember(c2, p3, c);
    AddedMember(c3, p4, c);
    assert CandidateDirs(dir, name) == if i >= 0 then Added(c3, p4) else c3;
  }

  lemma AddedMember(s: seq<string>, x: string, c: string)
    ensures c in Added(s, x) <==> c in s || c == x
  {
  }

  lemma SliceIs(dir: string, i: nat)
    requires StandsAt(dir, "/node_modules/", i)
    ensures Slice(dir, 0, i + 13) == dir[..i] + "/node_modules"
  {
    var t := "/node_modules/";
    assert t[..13] == "/node_modules" && dir[i..i + 14][..13] == dir[i..i + 13];
  }

  // ---- resolveModule ----

  /** A relative request is the absolute request for the joined path, from anywhere and in either mode. */
  lemma RelativeIsAbsolute(fs: FileSystem, q: Query, elsewhere: string, mode: Mode, fuel: nat)
    requires "./" <= q.request || "../" <= q.request || q.request == "." || q.request == ".."
    ensures var absolute := Query(Joined([q.fromDir, q.request]), elsewhere, mode);
      ResolveModule(fs, q, fuel) == ResolveModule(fs, absolute, fuel)
  {
    JoinIsNormal([q.fromDir, q.request]);
  }

  /** A scope without a package resolves to nothing, wherever it is asked for. */
  lemma BareScope(fs: FileSystem, q: Query, fuel: nat)
    requires "@" <= q.request && '/' !in q.request
    ensures ResolveModule(fs, q, fuel) == Done(None)
  {
    SplitFree(q.request, '/');
  }

  /** Any other request for a package goes by the first directory that has an entry: beside each directory on the way
      up, nearest first, and at the root at last. */
  lemma BareRequestsWalkUp(fs: FileSystem, q: Query, fuel: nat, name: string, subpath: string, i: nat)
    requires !Absolute(q.request) && !Relative(q.request) && !("#" <= q.request)
    requires PackageName(q.request) == Some((name, subpath))
    requires var dirs := Gathered(name, Visited(q.fromDir)) + [Joined(["/node_modules", name])];
      && i < |dirs| && !PassedOver(fs, dirs[i], subpath, q.mode, fuel)
      && forall d <- dirs[..i] :: PassedOver(fs, d, subpath, q.mode, fuel)
    ensures var dirs := Gathered(name, Visited(q.fromDir)) + [Joined(["/node_modules", name])];
      ResolveModule(fs, q, fuel) == PackageEntry(fs, dirs[i], subpath, q.mode, fuel)
  {
    SearchFollowsTheWalk(name, q.fromDir);
    FirstDirectoryWins(fs, SearchPath(name, q.fromDir), subpath, q.mode, fuel, i);
  }
}
