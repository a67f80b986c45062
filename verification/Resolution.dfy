/** What resolving a module request means, without any cache. */
module Resolution {
  import opened Frames
  import opened TextOps
  import opened Paths
  import opened PackageMaps
  import opened Chains

  /** The outcome of a resolution step: a value, a thrown error with its code, or no outcome within
      the given number of nested resolutions. */
  datatype Outcome<+T> = Done(value: T) | Failed(code: string) | Unfinished {
    predicate IsFailure() { !Done? }
    function PropagateFailure<U>(): Outcome<U> requires !Done? { if Failed? then Failed(code) else Unfinished }
    function Extract(): T requires Done? { value }
  }

  datatype Probe<+T> = Found(value: T) | Throws(code: string)

  /** An unchanging file system; stat tells whether a path is a directory, json reads and parses a file.
      An error without a code has the empty one. */
  datatype FileSystem = FileSystem(
    has: string -> Probe<bool>,
    stat: string -> Probe<bool>,
    json: string -> Option<Json>)

  predicate Permission(code: string) { code == "EACCES" || code == "EPERM" }

  function SafeExists(fs: FileSystem, path: string): (r: Outcome<bool>)
    ensures r != Unfinished
  {
    match fs.has(path)
    case Found(b) => Done(b)
    case Throws(code) => if Permission(code) then Done(false) else Failed(code)
  }

  function Stat(fs: FileSystem, path: string): (r: Outcome<Option<bool>>)
    ensures r != Unfinished
  {
    match fs.stat(path)
    case Found(isDirectory) => Done(Some(isDirectory))
    case Throws(code) => if code != "" && code != "ENOENT" then Failed(code) else Done(None)
  }

  /** A file that cannot be read or parsed counts as null, like one that says null. */
  function Parsed(fs: FileSystem, path: string): Option<Json> {
    if fs.json(path) == Some(Null) then None else fs.json(path)
  }

  function Package(fs: FileSystem, path: string): (r: Outcome<Option<Json>>)
    ensures r != Unfinished
  {
    var present :- SafeExists(fs, path);
    Done(if present then Parsed(fs, path) else None)
  }

  predicate Falsy(pkg: Option<Json>) {
    pkg == None || pkg == Some(Null) || pkg == Some(Boolean(false)) || pkg == Some(Number(0.0)) || pkg == Some(Str(""))
  }

  /** pkg?.key, None for undefined. */
  function Member(pkg: Option<Json>, key: string): Option<Json> {
    if pkg.Some? && pkg.value.Obj? then Lookup(pkg.value.fields, key) else None
  }

  function EntryField(pkg: Option<Json>): string {
    match Member(pkg, "main") case Some(Str(text)) => text case _ => "index.js"
  }

  function NormalizePackagePath(value: string): string {
    var v := if "./" <= value then value[2..] else value;
    if EndsWith(v, "/") then v[..|v| - 1] else v
  }

  const FILE_EXTENSIONS: seq<string> := [".js", ".json", ".mjs", ".cjs"]

  function WithExtensions(base: string, exts: seq<string>): seq<string>
    decreases |exts|
  {
    if exts == [] then [] else [base + exts[0]] + WithExtensions(base, exts[1..])
  }

  /** The paths tried beside base, and inside it. */
  function Siblings(base: string): seq<string> { WithExtensions(base, FILE_EXTENSIONS) }

  function Indexes(base: string, exts: seq<string>): seq<string>
    decreases |exts|
  {
    if exts == [] then [] else [Joined([base, "index" + exts[0]])] + Indexes(base, exts[1..])
  }

  function IndexPaths(base: string): seq<string> { Indexes(base, FILE_EXTENSIONS) }

  function PackageFile(dir: string): string { Joined([dir, "package.json"]) }

  function FirstExisting(fs: FileSystem, paths: seq<string>): (r: Outcome<Option<string>>)
    ensures r != Unfinished
  {
    if paths == [] then Done(None)
    else
      var present :- SafeExists(fs, paths[0]);
      if present then Done(Some(paths[0])) else FirstExisting(fs, paths[1..])
  }

  // ---- resolvePath ----

  function EntryPath(base: string, pkg: Option<Json>): string { Joined([base, NormalizePackagePath(EntryField(pkg))]) }

  predicate Redirects(base: string, pkg: Option<Json>) { EntryField(pkg) != "" && EntryPath(base, pkg) != base }

  /** Where a directory's package.json leads, None if nowhere else. */
  function Lead(fs: FileSystem, base: string): (r: Outcome<Option<string>>)
    ensures r != Unfinished
  {
    var pkg :- Package(fs, PackageFile(base));
    Done(if Redirects(base, pkg) then Some(EntryPath(base, pkg)) else None)
  }

  function HopOf(stat: Outcome<Option<bool>>, files: Outcome<Option<string>>,
                 lead: Outcome<Option<string>>): Option<string> {
    if stat == Done(Some(true)) && files == Done(None) && lead.Done? then lead.value else None
  }

  function LocalOf(base: string, stat: Outcome<Option<bool>>, files: Outcome<Option<string>>,
                   lead: Outcome<Option<string>>, index: Outcome<Option<string>>): Outcome<Option<string>>
  {
    var isDirectory :- stat;
    if isDirectory == Some(false) then Done(Some(base))
    else
      var file :- files;
      if file.Some? then Done(file)
      else if isDirectory == None then Done(None)
      else
        var _ :- lead;
        index
  }

  /** The path a directory's package.json sends resolvePath on to, if it gets that far. */
  function Hop(fs: FileSystem, base: string): Option<string> {
    HopOf(Stat(fs, base), FirstExisting(fs, Siblings(base)), Lead(fs, base))
  }

  /** What comes of a path that leads nowhere else. */
  function Local(fs: FileSystem, base: string): (r: Outcome<Option<string>>)
    ensures r != Unfinished
  {
    LocalOf(base, Stat(fs, base), FirstExisting(fs, Siblings(base)), Lead(fs, base), Index(fs, base))
  }

  function Index(fs: FileSystem, base: string): (r: Outcome<Option<string>>)
    ensures r != Unfinished
  { FirstExisting(fs, IndexPaths(base)) }

  /** Where paths lead, what comes of those that lead nowhere, and what is left when leading on gave nothing. */
  datatype Links = Links(hop: string -> Option<string>, local: string -> Outcome<Option<string>>,
                         index: string -> Outcome<Option<string>>)

  function Follow(w: Links, base: string, fuel: nat): Outcome<Option<string>>
    decreases fuel
  {
    if fuel == 0 then Unfinished
    else
      match w.hop(base)
      case None => w.local(base)
      case Some(next) =>
        var entry :- Follow(w, next, fuel - 1);
        if Truthy(entry) then Done(entry) else w.index(base)
  }

  function LinksOf(fs: FileSystem): Links {
    Links((base: string) => Hop(fs, base), (base: string) => Local(fs, base), (base: string) => Index(fs, base))
  }

  function ResolvePath(fs: FileSystem, base: string,
                       fuel: nat): Outcome<Option<string>> { Follow(LinksOf(fs), base, fuel) }

  // ---- Package entries ----

  /** What is left to do once the package.json files have been looked at. */
  datatype Plan =
    | Answer(outcome: Outcome<Option<string>>)
    | Only(path: string)
    | OrItself(path: string)
    | OrElse(path: string, second: Plan)

  function Carry(fs: FileSystem, plan: Plan, fuel: nat): Outcome<Option<string>> {
    match plan
    case Answer(outcome) => outcome
    case Only(path) => ResolvePath(fs, path, fuel)
    case OrItself(path) =>
      var resolved :- ResolvePath(fs, path, fuel);
      Done(if resolved.Some? then resolved else Some(path))
    case OrElse(path, second) =>
      var resolved :- ResolvePath(fs, path, fuel);
      if Truthy(resolved) then Done(resolved) else Carry(fs, second, fuel)
  }

  function EntryPlan(fs: FileSystem, dir: string, subpath: string, mode: Mode): Plan {
    match Package(fs, PackageFile(dir))
    case Failed(code) => Answer(Failed(code))
    case Unfinished => Answer(Unfinished)
    case Done(pkg) =>
      match if Falsy(pkg) then SafeExists(fs, dir) else Done(true)
      case Failed(code) => Answer(Failed(code))
      case Unfinished => Answer(Unfinished)
      case Done(present) => if present then PresentPlan(dir, pkg, subpath, mode) else Answer(Done(None))
  }

  /** The entry of a package that is there. */
  function PresentPlan(dir: string, pkg: Option<Json>, subpath: string, mode: Mode): Plan {
    match Member(pkg, "exports")
    case Some(exports) =>
      var target := ExportsTarget(exports, if subpath != "" then "./" + subpath else ".", mode);
      if Truthy(target) then OrItself(Joined([dir, NormalizePackagePath(target.value)])) else Answer(Done(None))
    case None =>
      if subpath != "" then Only(Joined([dir, subpath])) else RootPlan(dir, pkg)
  }

  /** The entry of a package without exports that is asked for by its name alone. */
  function RootPlan(dir: string, pkg: Option<Json>): Plan {
    if EntryField(pkg) == "" then Only(Joined([dir, "index"]))
    else
      var entry := EntryPath(dir, pkg);
      OrElse(entry, if Falsy(pkg) then Only(Joined([dir, "index"])) else Answer(Done(Some(entry))))
  }

  function PackageEntry(fs: FileSystem, dir: string, subpath: string, mode: Mode, fuel: nat): Outcome<Option<string>> {
    Carry(fs, EntryPlan(fs, dir, subpath, mode), fuel)
  }

  // ---- The walks ----

  function ImportedPath(dir: string, target: string): string {
    if Absolute(target) then target else Joined([dir, NormalizePackagePath(target)])
  }

  /** What an imports field makes of a request. */
  function ImportsPlan(imports: Json, request: string, dir: string, mode: Mode): Plan {
    var target := ImportsTarget(imports, request, mode);
    if !Truthy(target) || target.value[0] == '#' then Answer(Done(None)) else Only(ImportedPath(dir, target.value))
  }

  /** The nearest package.json with an imports field decides. */
  function NearestImports(fs: FileSystem, request: string, dir: string, mode: Mode): Plan
    decreases Climb(dir)
  {
    if Outside(dir) then Answer(Done(None))
    else
      match Package(fs, PackageFile(dir))
      case Failed(code) => Answer(Failed(code))
      case Unfinished => Answer(Unfinished)
      case Done(pkg) =>
        match Member(pkg, "imports")
        case Some(imports) => ImportsPlan(imports, request, dir, mode)
        case None =>
          if dir == "/" then Answer(Done(None))
          else
            DirnameClimbs(dir);
            NearestImports(fs, request, Dirname(dir), mode)
  }

  function ResolveImports(fs: FileSystem, request: string, dir: string, mode: Mode,
                          fuel: nat): Outcome<Option<string>> {
    Carry(fs, NearestImports(fs, request, dir, mode), fuel)
  }

  /** Adding to an insertion-ordered set. */
  function Added(s: seq<string>, x: string): seq<string> { if x in s then s else s + [x] }

  predicate StandsAt(s: string, t: string, i: int) { 0 <= i <= |s| - |t| && s[i..i + |t|] == t }

  /** s.lastIndexOf(t), -1 if there is none. */
  function LastIndexOf(s: string, t: string): (i: int)
    ensures i == -1 || StandsAt(s, t, i)
    ensures forall j :: i < j ==> !StandsAt(s, t, j)
    decreases |s|
  {
    if EndsWith(s, t) then |s| - |t|
    else if s == "" then -1
    else
      var front := s[..|s| - 1];
      assert forall j :: StandsAt(s, t, j) ==> StandsAt(front, t, j);
      assert forall j :: StandsAt(front, t, j) ==> StandsAt(s, t, j);
      LastIndexOf(front, t)
  }

  function CandidateDirs(dir: string, name: string): seq<string> {
    var c := Added([Joined([dir, "node_modules", name])], Joined([dir, "node_modules", ".pnpm", "node_modules", name]));
    var c := if EndsWith(dir, "/node_modules") then Added(c, Joined([dir, name])) else c;
    var i := LastIndexOf(dir, "/node_modules/");
    if i >= 0 then Added(c, Joined([Slice(dir, 0, i + 13), ".pnpm", "node_modules", name])) else c
  }

  /** The first of the directories with an entry; one that may not be looked at is passed over. */
  function FirstEntry(fs: FileSystem, dirs: seq<string>, subpath: string, mode: Mode,
                      fuel: nat): Outcome<Option<string>>
    decreases |dirs|
  {
    if dirs == [] then Done(None)
    else
      match PackageEntry(fs, dirs[0], subpath, mode, fuel)
      case Unfinished => Unfinished
      case Failed(code) => if Permission(code) then FirstEntry(fs, dirs[1..], subpath, mode, fuel) else Failed(code)
      case Done(entry) => if Truthy(entry) then Done(entry) else FirstEntry(fs, dirs[1..], subpath, mode, fuel)
  }

  function RootDirs(name: string): seq<string> { [Joined(["/node_modules", name])] }

  /** Every directory a bare request is looked for in, in order. */
  function SearchPath(name: string, dir: string): seq<string>
    decreases Climb(dir)
  {
    if Outside(dir) then RootDirs(name)
    else if dir == "/" then CandidateDirs(dir, name) + RootDirs(name)
    else
      DirnameClimbs(dir);
      CandidateDirs(dir, name) + SearchPath(name, Dirname(dir))
  }

  /** The candidates of a list of directories, one after the other. */
  function Gathered(name: string, dirs: seq<string>): seq<string>
    decreases |dirs|
  {
    if dirs == [] then [] else CandidateDirs(dirs[0], name) + Gathered(name, dirs[1..])
  }

  /** A bare request is looked for beside every directory the walk visits, in that order, and then at the root. */
  lemma {:induction false} SearchFollowsTheWalk(name: string, dir: string)
    ensures SearchPath(name, dir) == Gathered(name, Visited(dir)) + RootDirs(name)
    decreases Climb(dir)
  {
    if !Outside(dir) {
      var v := Visited(dir);
      assert v[0] == dir;
      if dir == "/" {
        assert v[1..] == [];
        assert Gathered(name, v) == CandidateDirs(dir, name) + [];
      } else {
        DirnameClimbs(dir);
        SearchFollowsTheWalk(name, Dirname(dir));
        assert v[1..] == Visited(Dirname(dir));
      }
    } else {
      assert Gathered(name, []) == [];
    }
  }

  predicate NoRepeats(s: seq<string>) { forall i, j :: 0 <= i < j < |s| ==> s[i] != s[j] }

  lemma AddedKeepsOrder(s: seq<string>, x: string)
    requires NoRepeats(s)
    ensures NoRepeats(Added(s, x)) && s <= Added(s, x)
  {
  }

  /** The package beside the directory itself comes first, and no candidate is tried twice. */
  lemma CandidatesInOrder(dir: string, name: string)
    ensures var c := CandidateDirs(dir, name);
      NoRepeats(c) && c != [] && c[0] == Joined([dir, "node_modules", name])
  {
    var own := [Joined([dir, "node_modules", name])];
    var c1 := Added(own, Joined([dir, "node_modules", ".pnpm", "node_modules", name]));
    var c2 := if EndsWith(dir, "/node_modules") then Added(c1, Joined([dir, name])) else c1;
    AddedKeepsOrder(own, Joined([dir, "node_modules", ".pnpm", "node_modules", name]));
    AddedKeepsOrder(c1, Joined([dir, name]));
    var root := Slice(dir, 0, LastIndexOf(dir, "/node_modules/") + 13);
    AddedKeepsOrder(c2, Joined([root, ".pnpm", "node_modules", name]));
  }

  function ResolveNodeModules(fs: FileSystem, name: string, subpath: string, dir: string, mode: Mode, fuel: nat)
    : Outcome<Option<string>>
  {
    FirstEntry(fs, SearchPath(name, dir), subpath, mode, fuel)
  }

  // ---- resolveModule ----

  datatype Query = Query(request: string, fromDir: string, mode: Mode)

  predicate Relative(request: string) { "./" <= request || "../" <= request || request == "." || request == ".." }

  /** s.indexOf("/"), -1 if there is none. */
  function FirstSlash(s: string): (i: int)
    ensures -1 <= i < |s| && (i == -1 ==> Free(s, '/'))
    ensures i >= 0 ==> s[i] == '/' && Free(s[..i], '/')
  {
    if s == "" then -1
    else if s[0] == '/' then 0
    else
      var i := FirstSlash(s[1..]);
      assert i >= 0 ==> s[..i + 1] == [s[0]] + s[1..][..i];
      if i == -1 then -1 else i + 1
  }

  /** The package name and the path inside it; None for a scope without a package. */
  function PackageName(request: string): Option<(string, string)> {
    if request != "" && request[0] == '@' then
      var parts := Split(request, '/');
      if |parts| >= 2 then Some((parts[0] + "/" + parts[1], Join(parts[2..], '/'))) else None
    else
      var i := FirstSlash(request);
      if i == -1 then Some((request, "")) else Some((request[..i], request[i + 1..]))
  }

  /** The request is taken apart at its first slash, or behind a scope at its second, and nothing is lost. */
  lemma PackageNameRejoins(request: string, name: string, subpath: string)
    requires PackageName(request) == Some((name, subpath))
    ensures (request == name && subpath == "") || request == name + "/" + subpath
    ensures |Split(name, '/')| == if "@" <= request then 2 else 1
  {
    if "@" <= request {
      var parts := Split(request, '/');
      assert parts[0] in parts && parts[1] in parts;
      JoinSplit(request, '/');
      SplitPrefix(parts[0], parts[1], '/');
      SplitFree(parts[1], '/');
      if |parts| == 2 {
        assert parts[1..] == [parts[1]];
      } else {
        assert parts[1..][1..] == parts[2..];
      }
    } else {
      SplitFree(name, '/');
      if FirstSlash(request) >= 0 { assert request == name + "/" + subpath; }
    }
  }

  function ResolveModule(fs: FileSystem, q: Query, fuel: nat): Outcome<Option<string>> {
    if Absolute(q.request) then ResolvePath(fs, q.request, fuel)
    else if Relative(q.request) then ResolvePath(fs, Joined([q.fromDir, q.request]), fuel)
    else if "#" <= q.request then ResolveImports(fs, q.request, q.fromDir, q.mode, fuel)
    else
      match PackageName(q.request)
      case None => Done(None)
      case Some((name, subpath)) => ResolveNodeModules(fs, name, subpath, q.fromDir, q.mode, fuel)
  }

  // ---- More fuel changes nothing ----

  lemma {:induction false} FollowSettled(w: Links, base: string, n: nat, m: nat)
    requires n <= m && Follow(w, base, n) != Unfinished
    ensures Follow(w, base, m) == Follow(w, base, n)
    decreases n
  {
    if w.hop(base).Some? { FollowSettled(w, w.hop(base).value, n - 1, m - 1); }
  }

  lemma {:induction false} CarrySettled(fs: FileSystem, plan: Plan, n: nat, m: nat)
    requires n <= m && Carry(fs, plan, n) != Unfinished
    ensures Carry(fs, plan, m) == Carry(fs, plan, n)
    decreases plan
  {
    if !plan.Answer? {
      FollowSettled(LinksOf(fs), plan.path, n, m);
      if plan.OrElse? && Carry(fs, plan.second, n) != Unfinished { CarrySettled(fs, plan.second, n, m); }
    }
  }

  lemma EntrySettled(fs: FileSystem, dir: string, subpath: string, mode: Mode, n: nat, m: nat)
    requires n <= m && PackageEntry(fs, dir, subpath, mode, n) != Unfinished
    ensures PackageEntry(fs, dir, subpath, mode, m) == PackageEntry(fs, dir, subpath, mode, n)
  {
    CarrySettled(fs, EntryPlan(fs, dir, subpath, mode), n, m);
  }

  lemma {:induction false} FirstEntrySettled(fs: FileSystem, dirs: seq<string>, subpath: string, mode: Mode, n: nat,
                                             m: nat)
    requires n <= m && FirstEntry(fs, dirs, subpath, mode, n) != Unfinished
    ensures FirstEntry(fs, dirs, subpath, mode, m) == FirstEntry(fs, dirs, subpath, mode, n)
    decreases |dirs|
  {
    if dirs != [] {
      EntrySettled(fs, dirs[0], subpath, mode, n, m);
      if FirstEntry(fs, dirs[1..], subpath, mode, n) != Unfinished {
        FirstEntrySettled(fs, dirs[1..], subpath, mode, n, m);
      }
    }
  }

  /** A resolution that ends has the same outcome however much deeper it is allowed to nest. */
  lemma ModuleSettled(fs: FileSystem, q: Query, n: nat, m: nat)
    requires n <= m && ResolveModule(fs, q, n) != Unfinished
    ensures ResolveModule(fs, q, m) == ResolveModule(fs, q, n)
  {
    if Absolute(q.request) {
      FollowSettled(LinksOf(fs), q.request, n, m);
    } else if Relative(q.request) {
      FollowSettled(LinksOf(fs), Joined([q.fromDir, q.request]), n, m);
    } else if "#" <= q.request {
      CarrySettled(fs, NearestImports(fs, q.request, q.fromDir, q.mode), n, m);
    } else if PackageName(q.request).Some? {
      var (name, subpath) := PackageName(q.request).value;
      FirstEntrySettled(fs, SearchPath(name, q.fromDir), subpath, q.mode, n, m);
    }
  }

  /** Two finished runs agree. */
  lemma ModuleDeterministic(fs: FileSystem, q: Query, n: nat, m: nat)
    requires ResolveModule(fs, q, n) != Unfinished && ResolveModule(fs, q, m) != Unfinished
    ensures ResolveModule(fs, q, n) == ResolveModule(fs, q, m)
  {
    if n <= m { ModuleSettled(fs, q, n, m); } else { ModuleSettled(fs, q, m, n); }
  }

  // ---- When resolvePath ends ----

  /** Nothing but following links takes long. */
  ghost predicate Direct(w: Links) { forall p :: w.local(p) != Unfinished && w.index(p) != Unfinished }

  lemma LinksAreDirect(fs: FileSystem)
    ensures Direct(LinksOf(fs))
  {
  }

  /** Following ends, with n resolutions nested, exactly if the chain of hops is shorter than n. */
  lemma {:induction false} EndsIffStops(w: Links, base: string, n: nat)
    requires Direct(w)
    ensures Follow(w, base, n + 1) != Unfinished <==> Stops(w.hop, base, n)
    decreases n
  {
    if w.hop(base).Some? && n > 0 { EndsIffStops(w, w.hop(base).value, n - 1); }
  }

  /** A path as join makes it. */
  predicate Normalized(p: string) { Joined([p]) == p }

  /** The normalized paths that are directories are among these. */
  ghost predicate NormalizedDirectories(fs: FileSystem, dirs: set<string>) {
    forall p :: Normalized(p) && Stat(fs, p) == Done(Some(true)) ==> p in dirs
  }

  /** A hop leads from a directory to a normalized path. */
  lemma HopsFromDirectories(fs: FileSystem, p: string)
    requires Hop(fs, p).Some?
    ensures Stat(fs, p) == Done(Some(true)) && Normalized(Hop(fs, p).value)
  {
    var pkg := Package(fs, PackageFile(p)).value;
    JoinIsIdempotent([p, NormalizePackagePath(EntryField(pkg))]);
  }

  /** After the first path all those on the chain are normalized. */
  lemma {:induction false} ChainIsNormalized(fs: FileSystem, base: string, k: nat)
    requires k > 0 && After(LinksOf(fs).hop, base, k).Some?
    ensures Normalized(After(LinksOf(fs).hop, base, k).value)
    decreases k
  {
    var next := Hop(fs, base).value;
    HopsFromDirectories(fs, base);
    if k > 1 { ChainIsNormalized(fs, next, k - 1); }
  }

  lemma ChainStaysWithin(fs: FileSystem, base: string, dirs: set<string>)
    requires NormalizedDirectories(fs, dirs)
    ensures var hop := LinksOf(fs).hop;
      forall k: nat :: After(hop, base, k).Some? && hop(After(hop, base, k).value).Some? ==>
        After(hop, base, k).value in dirs + {base}
  {
    var hop := LinksOf(fs).hop;
    forall k: nat | After(hop, base, k).Some? && hop(After(hop, base, k).value).Some?
      ensures After(hop, base, k).value in dirs + {base}
    {
      var p := After(hop, base, k).value;
      assert hop(p) == Hop(fs, p);
      HopsFromDirectories(fs, p);
      if k > 0 { ChainIsNormalized(fs, base, k); }
    }
  }

  /** Following never ends exactly if it comes to some path twice, provided it stays among finitely many. */
  lemma FollowEndsIff(w: Links, base: string, linked: set<string>)
    requires Direct(w)
    requires forall k: nat ::
      After(w.hop, base, k).Some? && w.hop(After(w.hop, base, k).value).Some? ==> After(w.hop, base, k).value in linked
    ensures (forall n: nat :: Follow(w, base, n).Unfinished?) <==> Repeats(w.hop, base)
    ensures Follow(w, base, |linked| + 1).Unfinished? <==> Repeats(w.hop, base)
  {
    StopsOrRepeats(w.hop, base, linked);
    EndsIffStops(w, base, |linked|);
    if Repeats(w.hop, base) {
      forall n: nat ensures Follow(w, base, n).Unfinished? { FollowRepeats(w, base, n); }
    }
  }

  lemma FollowRepeats(w: Links, base: string, n: nat)
    requires Direct(w) && Repeats(w.hop, base)
    ensures Follow(w, base, n).Unfinished?
  {
    if n > 0 {
      RepeatsNeverStop(w.hop, base, n - 1);
      EndsIffStops(w, base, n - 1);
    }
  }

  /** If the chain of main fields comes to some path twice, resolvePath has no outcome, however deep it may nest. */
  lemma RepeatedPathsNeverEnd(fs: FileSystem, base: string, n: nat)
    requires Repeats(LinksOf(fs).hop, base)
    ensures ResolvePath(fs, base, n).Unfinished?
  {
    LinksAreDirect(fs);
    FollowRepeats(LinksOf(fs), base, n);
  }

  /** Over finitely many normalized directories that is the only way not to end, and it shows within as many
      nested resolutions as there are such directories, plus two: one for a first path that is not normalized,
      one for the last, which leads nowhere. */
  lemma NeverEndsIffRepeats(fs: FileSystem, base: string, dirs: set<string>)
    requires NormalizedDirectories(fs, dirs)
    ensures (forall n: nat :: ResolvePath(fs, base, n).Unfinished?) <==> Repeats(LinksOf(fs).hop, base)
    ensures ResolvePath(fs, base, |dirs| + 2).Unfinished? <==> Repeats(LinksOf(fs).hop, base)
  {
    if Repeats(LinksOf(fs).hop, base) {
      forall n: nat ensures ResolvePath(fs, base, n).Unfinished? { RepeatedPathsNeverEnd(fs, base, n); }
    } else {
      EndsWithoutRepeats(fs, base, dirs);
    }
  }

  lemma EndsWithoutRepeats(fs: FileSystem, base: string, dirs: set<string>)
    requires NormalizedDirectories(fs, dirs) && !Repeats(LinksOf(fs).hop, base)
    ensures !ResolvePath(fs, base, |dirs| + 2).Unfinished?
  {
    var w, linked := LinksOf(fs), dirs + {base};
    LinksAreDirect(fs);
    ChainStaysWithin(fs, base, dirs);
    FollowEndsIff(w, base, linked);
    FollowSettled(w, base, |linked| + 1, |dirs| + 2);
  }

  lemma TwoHops(hop: string -> Option<string>, a: string, b: string)
    requires hop(a) == Some(b) && hop(b) == Some(a)
    ensures Repeats(hop, a)
  {
    assert After(hop, b, 1) == After(hop, a, 0);
    assert After(hop, a, 0).Some? && After(hop, a, 0) == After(hop, a, 2);
  }

  function MainOnly(main: string): Json { Obj([Field("main", Str(main))]) }

  /** A file system of two directories, each with a main field that names the other. */
  function Crossed(): FileSystem {
    FileSystem((p: string) => Found(p == "/a/package.json" || p == "/b/package.json"),
               (p: string) => if p == "/a" || p == "/b" then Found(true) else Throws("ENOENT"),
               (p: string) => Some(MainOnly(if p == "/a/package.json" then "/b" else "/a")))
  }

  lemma JoinedChild(segs: seq<string>, last: string)
    requires AllProper(segs) && Proper(last)
    ensures Joined([Normal(segs), last]) == Normal(segs + [last])
  {
    AddNormal([], segs);
    SplitFree(last, '/');
    KeepAllOfProper(segs, [last]);
    assert [Normal(segs), last][1..] == [last] && [last][1..] == [];
    assert AddParts([], [Normal(segs), last]) == AddParts(segs, [last]) == AddParts(segs + [last], []);
  }

  lemma JoinedAbsolute(a: seq<string>, b: seq<string>)
    requires AllProper(a) && AllProper(b)
    ensures Joined([Normal(a), Normal(b)]) == Normal(b)
  {
    AddNormal([], a);
    AddNormal(a, b);
    assert [Normal(a), Normal(b)][1..] == [Normal(b)] && [Normal(b)][1..] == [];
    assert AddParts([], [Normal(a), Normal(b)]) == AddParts(a, [Normal(b)]) == AddParts(b, []);
  }

  lemma MainOf(main: string)
    ensures EntryField(Some(MainOnly(main))) == main
  {
  }

  lemma PackageFileOf(dir: string, name: string)
    requires Proper(name) && dir == "/" + name
    ensures PackageFile(dir) == dir + "/package.json"
  {
    assert Normal([name]) == dir;
    JoinedChild([name], "package.json");
    JoinSnoc([name], "package.json");
  }

  /** A directory whose main is another one, given by its absolute path. */
  lemma MainLeadsOn(fs: FileSystem, x: string, y: string)
    requires Proper(x) && Proper(y) && x != y
    requires Stat(fs, "/" + x) == Done(Some(true)) && FirstExisting(fs, Siblings("/" + x)) == Done(None)
    requires Package(fs, "/" + x + "/package.json") == Done(Some(MainOnly("/" + y)))
    ensures Hop(fs, "/" + x) == Some("/" + y)
  {
    var a, b := "/" + x, "/" + y;
    PackageFileOf(a, x);
    MainOf(b);
    assert Normal([x]) == a && Normal([y]) == b;
    assert b[1..] == y && y[|y| - 1] in y;
    assert !EndsWith(b, "/") && !("./" <= b);
    JoinedAbsolute([x], [y]);
    assert a[1..] == x;
  }

  lemma {:induction false} ExtendedLength(base: string, exts: seq<string>)
    requires forall e <- exts :: |e| <= 5
    ensures forall p <- WithExtensions(base, exts) :: |p| <= |base| + 5
    decreases |exts|
  {
    if exts != [] {
      assert exts[0] in exts;
      ExtendedLength(base, exts[1..]);
    }
  }

  lemma CrossedProbes(a: string)
    requires |a| == 2
    ensures FirstExisting(Crossed(), Siblings(a)) == Done(None)
  {
    ExtendedLength(a, FILE_EXTENSIONS);
    assert forall p <- Siblings(a) :: p != "/a/package.json" && p != "/b/package.json";
    NoneExist(Crossed(), Siblings(a));
  }

  lemma {:induction false} NoneExist(fs: FileSystem, paths: seq<string>)
    requires forall p <- paths :: fs.has(p) == Found(false)
    ensures FirstExisting(fs, paths) == Done(None)
    decreases |paths|
  {
    if paths != [] {
      assert paths[0] in paths;
      NoneExist(fs, paths[1..]);
    }
  }

  lemma CrossedPackage(x: string, y: string)
    requires (x == "a" && y == "b") || (x == "b" && y == "a")
    ensures Package(Crossed(), "/" + x + "/package.json") == Done(Some(MainOnly("/" + y)))
  {
    var p := "/" + x + "/package.json";
    if x == "a" {
      assert p == "/a/package.json";
    } else {
      assert p == "/b/package.json";
      assert p[1] == 'b' && "/a/package.json"[1] == 'a';
    }
    assert Crossed().json(p) == Some(MainOnly(if x == "a" then "/b" else "/a"));
    assert "/" + y == if x == "a" then "/b" else "/a";
  }

  lemma CrossedHop(x: string, y: string)
    requires (x == "a" && y == "b") || (x == "b" && y == "a")
    ensures Hop(Crossed(), "/" + x) == Some("/" + y)
  {
    var fs := Crossed();
    assert Stat(fs, "/" + x) == Done(Some(true));
    CrossedPackage(x, y);
    CrossedProbes("/" + x);
    MainLeadsOn(fs, x, y);
  }

  /** There, neither directory resolves, however long one waits. */
  lemma CrossedMainsNeverEnd(x: string, n: nat)
    requires x == "a" || x == "b"
    ensures ResolvePath(Crossed(), "/" + x, n).Unfinished?
  {
    var y := if x == "a" then "b" else "a";
    CrossedHop(x, y);
    CrossedHop(y, x);
    MutualMainsNeverEnd(Crossed(), "/" + x, "/" + y, n);
  }

  /** Two directories whose main fields name each other. */
  lemma MutualMainsNeverEnd(fs: FileSystem, a: string, b: string, n: nat)
    requires Hop(fs, a) == Some(b) && Hop(fs, b) == Some(a)
    ensures ResolvePath(fs, a, n).Unfinished?
  {
    TwoHops(LinksOf(fs).hop, a, b);
    RepeatedPathsNeverEnd(fs, a, n);
  }
}
