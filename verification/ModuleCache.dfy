/**
 ES module resolution in the sidecar: one-at-a-time resolution through the host, and the batched
 breadth-first prefetch that fills the same cache beforehand. V8 and the host are parameters.
 */
module ModuleCache {
  import opened Frames
  import opened TextOps
  import Chains

  /** A compiled module: its identity, its resource name and the source that was compiled. */
  datatype Module = Module(id: nat, path: string, source: string)

  datatype Request = Request(specifier: string, referrer: string)
  datatype Answer = Answer(path: string, source: string)

  /** The three host calls _resolveModule, _loadFile and _batchResolveModules. */
  datatype Host = Host(
    resolve: Request -> Option<string>,
    load: string -> Option<string>,
    batch: seq<Request> -> Option<seq<Option<Answer>>>)

  /** V8 and the source heuristics: the CommonJS shim, acceptance by the compiler, static imports. */
  datatype Engine = Engine(
    effective: (string, string) -> string,
    compiles: (string, string) -> bool,
    imports: string -> seq<string>)

  predicate NulFree(s: string) { Free(s, '\0') }

  function RequestKey(r: Request): string { r.referrer + ['\0'] + r.specifier }

  /** Keys identify their requests, and no request key is a path. */
  lemma RequestKeyInjective(q: Request, r: Request)
    requires NulFree(q.referrer) && NulFree(r.referrer)
    ensures RequestKey(q) == RequestKey(r) ==> q == r
    ensures !NulFree(RequestKey(r))
  {
    if RequestKey(q) == RequestKey(r) {
      SameUpToSeparator(q.referrer, q.specifier, r.referrer, r.specifier, '\0');
    }
    assert RequestKey(r)[|r.referrer|] == '\0';
  }

  // ---- What is asked of the host ----

  /** Batch answers agree with single answers. A batch may be refused, cut short, or left unanswered in places. */
  ghost predicate Agrees(host: Host) {
    forall b, i ::
      host.batch(b).Some? && 0 <= i < |b| && i < |host.batch(b).value| && host.batch(b).value[i].Some? ==>
        var a := host.batch(b).value[i].value;
        host.resolve(b[i]) == Some(a.path) && host.load(a.path) == Some(a.source)
  }

  /** No NUL in the referrer or in what the request resolves to. */
  predicate Clean(host: Host, r: Request) {
    NulFree(r.referrer) && (host.resolve(r).Some? ==> NulFree(host.resolve(r).value))
  }

  /** What compiling the file at path gives, None if it cannot be loaded or compiled. */
  function SourceAt(host: Host, engine: Engine, path: string): Option<string> {
    if host.load(path).None? then None
    else
      var source := engine.effective(path, host.load(path).value);
      if engine.compiles(path, source) then Some(source) else None
  }

  /** The module a request denotes, cache or no cache. */
  function Denoted(host: Host, engine: Engine, r: Request): Option<Answer> {
    if host.resolve(r).None? then None
    else if SourceAt(host, engine, host.resolve(r).value).None? then None
    else Some(Answer(host.resolve(r).value, SourceAt(host, engine, host.resolve(r).value).value))
  }

  /** Said of host and V8: the file the request resolves to must load, and compile once it has been put into effect. */
  lemma DenotedIs(host: Host, engine: Engine, r: Request)
    ensures Denoted(host, engine, r) ==
      match host.resolve(r)
      case None => None
      case Some(path) =>
        match host.load(path)
        case None => None
        case Some(raw) =>
          if engine.compiles(path, engine.effective(path, raw)) then Some(Answer(path, engine.effective(path, raw)))
          else None
  {
  }

  /** Every import of this source, asked for under this name, denotes a module at one of these paths. */
  ghost predicate ImportsDenoted(host: Host, engine: Engine, source: string, name: string, paths: set<string>) {
    forall specifier <- engine.imports(source) ::
      var a := Denoted(host, engine, Request(specifier, name));
      a.Some? && a.value.path in paths
  }

  ghost predicate AllDenoted(host: Host, engine: Engine, source: string, name: string) {
    forall specifier <- engine.imports(source) :: Denoted(host, engine, Request(specifier, name)).Some?
  }

  /** The paths hold modules, the imports of the root among them and those of each of them. */
  ghost predicate ClosedGraph(host: Host, engine: Engine, source: string, name: string, paths: set<string>) {
    && ImportsDenoted(host, engine, source, name, paths)
    && forall p <- paths ::
         SourceAt(host, engine, p).Some? && ImportsDenoted(host, engine, SourceAt(host, engine, p).value, p, paths)
  }

  /** Every import reachable from the root denotes a module: a matter of host and engine alone. */
  ghost predicate Instantiable(host: Host, engine: Engine, source: string, name: string) {
    exists paths: set<string> :: ClosedGraph(host, engine, source, name, paths)
  }

  /** The paths are exactly those reachable from the root, the least that hold its imports and their own. */
  ghost predicate Reachable(host: Host, engine: Engine, source: string, name: string, paths: set<string>) {
    && ClosedGraph(host, engine, source, name, paths)
    && forall others :: ClosedGraph(host, engine, source, name, others) ==> paths <= others
  }

  /** Whatever the imports of this source resolve to is in the universe. */
  ghost predicate LeadsInto(host: Host, engine: Engine, source: string, name: string, universe: set<string>) {
    forall specifier <- engine.imports(source) ::
      var p := host.resolve(Request(specifier, name));
      p.Some? ==> p.value in universe
  }

  /** A finite set of NUL-free paths that the imports of its own modules do not lead out of. */
  ghost predicate ClosedUniverse(host: Host, engine: Engine, universe: set<string>) {
    forall p <- universe ::
      && NulFree(p)
      && (SourceAt(host, engine, p).Some? ==> LeadsInto(host, engine, SourceAt(host, engine, p).value, p, universe))
  }

  /** The host answers the batch without gaps and everything in it compiles. */
  ghost predicate AnsweredFully(host: Host, engine: Engine, b: seq<Request>) {
    && host.batch(b).Some? && |b| <= |host.batch(b).value|
    && forall i :: 0 <= i < |b| ==>
         host.batch(b).value[i].Some? && SourceAt(host, engine, host.batch(b).value[i].value.path).Some?
  }

  /** Answering the batch, the host gives the file at path. */
  ghost predicate Gives(host: Host, b: seq<Request>, path: string) {
    host.batch(b).Some? && exists i ::
      0 <= i < |host.batch(b).value| && host.batch(b).value[i].Some? && host.batch(b).value[i].value.path == path
  }

  ghost predicate GivenIn(host: Host, batches: seq<seq<Request>>, path: string) {
    exists b <- batches :: Gives(host, b, path)
  }

  // ---- What the cache holds ----

  type Cache = map<string, Module>

  /** A compiled module whose imports are still to be prefetched, and its name as a referrer. */
  datatype Pending = Pending(m: Module, name: string)

  /** Its imports stay inside the universe. */
  ghost predicate Ready(host: Host, engine: Engine, p: Pending, universe: set<string>) {
    NulFree(p.name) && LeadsInto(host, engine, p.m.source, p.name, universe)
  }

  /** It is the root, or the module at its path of the universe. */
  ghost predicate FromGraph(host: Host, engine: Engine, p: Pending, root: Pending, universe: set<string>) {
    p == root || (p.name in universe && SourceAt(host, engine, p.name) == Some(p.m.source))
  }

  /** The request is an import of the pending module. */
  ghost predicate ImportOf(engine: Engine, r: Request, p: Pending) {
    r.referrer == p.name && r.specifier in engine.imports(p.m.source)
  }

  /** An import of a pending module that is not cached. */
  ghost predicate Wanted(engine: Engine, cache: Cache, pending: seq<Pending>, r: Request) {
    RequestKey(r) !in cache && exists p <- pending :: ImportOf(engine, r, p)
  }

  /** An import of the root or of the module at a path of the universe. */
  ghost predicate GraphImport(host: Host, engine: Engine, r: Request, root: Pending, universe: set<string>) {
    ImportOf(engine, r, root) ||
    (r.referrer in universe && SourceAt(host, engine, r.referrer).Some?
     && r.specifier in engine.imports(SourceAt(host, engine, r.referrer).value))
  }

  /** The batches that prefetching this root can come to send. */
  ghost predicate Sendable(host: Host, engine: Engine, b: seq<Request>, root: Pending, universe: set<string>) {
    b != [] && Distinct(b) && forall r <- b :: GraphImport(host, engine, r, root, universe)
  }

  /** The host answers each of them without gaps. */
  ghost predicate AnswersAll(host: Host, engine: Engine, root: Pending, universe: set<string>) {
    forall b :: Sendable(host, engine, b, root, universe) ==> AnsweredFully(host, engine, b)
  }

  /** The module's imports all resolve, to one of these paths. */
  ghost predicate Covered(host: Host, engine: Engine, paths: set<string>, m: Module, name: string) {
    forall specifier <- engine.imports(m.source) ::
      var p := host.resolve(Request(specifier, name));
      p.Some? && p.value in paths
  }

  /** The cache is closed under static imports, except for the modules still to be looked at. */
  ghost predicate ClosedBut(host: Host, engine: Engine, cache: Cache, pending: seq<Pending>) {
    forall k <- cache :: NulFree(k) ==>
      Covered(host, engine, cache.Keys, cache[k], k) || Pending(cache[k], k) in pending
  }

  ghost predicate Extends(before: Cache, after: Cache) {
    forall k <- before :: k in after && after[k] == before[k]
  }

  /** How many paths the host could still add. */
  ghost function Remaining(cache: Cache, universe: set<string>): nat { |universe - cache.Keys| }

  ghost predicate Distinct(batch: seq<Request>) {
    forall i, j :: 0 <= i < j < |batch| ==> batch[i] != batch[j]
  }

  /** An uncached request that stays inside the universe. */
  ghost predicate Askable(host: Host, cache: Cache, r: Request, universe: set<string>) {
    && NulFree(r.referrer) && RequestKey(r) !in cache
    && (host.resolve(r).Some? ==> host.resolve(r).value in universe)
  }

  /** If the answer can be compiled at all, its path is cached. */
  ghost predicate Kept(host: Host, engine: Engine, cache: Cache, result: Option<Answer>) {
    result.Some? && SourceAt(host, engine, result.value.path).Some? ==> result.value.path in cache
  }

  /** Whatever the host answers the batch with, gaps or not, is cached if it can be compiled. */
  ghost predicate AnswersKept(host: Host, engine: Engine, cache: Cache, b: seq<Request>) {
    var results := host.batch(b);
    results.Some? ==>
      forall i :: 0 <= i < |b| && i < |results.value| ==> Kept(host, engine, cache, results.value[i])
  }

  ghost predicate AllKept(host: Host, engine: Engine, cache: Cache, batches: seq<seq<Request>>) {
    forall b <- batches :: AnswersKept(host, engine, cache, b)
  }

  ghost predicate AllSendable(host: Host, engine: Engine, batches: seq<seq<Request>>, root: Pending,
                              universe: set<string>) {
    forall b <- batches :: Sendable(host, engine, b, root, universe)
  }

  ghost predicate AllFull(host: Host, engine: Engine, batches: seq<seq<Request>>) {
    forall b <- batches :: AnsweredFully(host, engine, b)
  }

  lemma KeptStays(host: Host, engine: Engine, before: Cache, after: Cache, b: seq<Request>)
    requires Extends(before, after) && AnswersKept(host, engine, before, b)
    ensures AnswersKept(host, engine, after, b)
  {
  }

  /** One batch, if any, after those sent so far. */
  lemma SentOn(host: Host, engine: Engine, before: Cache, after: Cache, sent: seq<seq<Request>>, batch: seq<Request>,
               root: Pending, universe: set<string>)
    requires Extends(before, after) && AllKept(host, engine, before, sent)
    requires AllSendable(host, engine, sent, root, universe)
    requires batch != [] ==>
      AnswersKept(host, engine, after, batch) && Sendable(host, engine, batch, root, universe)
    ensures var sent' := sent + if batch == [] then [] else [batch];
      && AllKept(host, engine, after, sent') && AllSendable(host, engine, sent', root, universe)
      && (AllFull(host, engine, sent') <==>
            AllFull(host, engine, sent) && (batch == [] || AnsweredFully(host, engine, batch)))
  {
    var sent' := sent + if batch == [] then [] else [batch];
    forall b <- sent' ensures AnswersKept(host, engine, after, b) {
      if b in sent { KeptStays(host, engine, before, after, b); }
    }
    assert batch != [] ==> batch in sent';
    forall b <- sent ensures b in sent' {}
  }

  /** The level lists exactly the paths cached since before. */
  ghost predicate NewlyCached(before: Cache, after: Cache, level: seq<Pending>, universe: set<string>) {
    && (forall p <- level ::
          NulFree(p.name) && p.name in universe && p.name !in before && p.name in after && after[p.name] == p.m)
    && (forall k <- after :: NulFree(k) && k !in before ==> Pending(after[k], k) in level)
  }

  lemma SmallerUniverse(universe: set<string>, few: set<string>, many: set<string>)
    requires few <= many <= universe && few != many
    ensures |universe - many| < |universe - few|
  {
    var p :| p in many && p !in few;
    Chains.SmallerSubset(universe - many, universe - few - {p});
  }

  lemma RemainingShrinks(before: Cache, after: Cache, level: seq<Pending>, universe: set<string>)
    requires Extends(before, after) && NewlyCached(before, after, level, universe)
    ensures Remaining(after, universe) <= Remaining(before, universe)
    ensures level != [] ==> Remaining(after, universe) < Remaining(before, universe)
  {
    if level != [] {
      assert level[0] in level;
      Chains.SmallerSubset(universe - after.Keys, universe - before.Keys - {level[0].name});
    } else {
      Chains.SmallerSubset(universe - after.Keys, universe - before.Keys);
    }
  }

  /** After a complete level only the new modules are left to look at. */
  lemma LevelCloses(host: Host, engine: Engine, before: Cache, after: Cache,
                    pending: seq<Pending>, next: seq<Pending>, universe: set<string>)
    requires Extends(before, after) && NewlyCached(before, after, next, universe)
    requires ClosedBut(host, engine, before, pending)
    requires forall p <- pending :: Covered(host, engine, after.Keys, p.m, p.name)
    ensures ClosedBut(host, engine, after, next)
  {
    forall k | k in after && NulFree(k) && k in before ensures Covered(host, engine, after.Keys, after[k], k) {
      if Pending(after[k], k) !in pending { assert Covered(host, engine, before.Keys, after[k], k); }
    }
  }

  /** The host was asked for each of the module's imports that is not cached. */
  ghost predicate Asked(engine: Engine, cache: Cache, batches: seq<seq<Request>>, p: Pending) {
    forall specifier <- engine.imports(p.m.source) ::
      RequestKey(Request(specifier, p.name)) in cache || AskedIn(batches, Request(specifier, p.name))
  }

  ghost predicate AskedIn(batches: seq<seq<Request>>, r: Request) { exists b <- batches :: r in b }

  /** So it was for the root and for every module cached since the start, except for the modules still to be
      looked at. */
  ghost predicate AskedBut(engine: Engine, start: Cache, cache: Cache, batches: seq<seq<Request>>, root: Pending,
                           pending: seq<Pending>) {
    && (Asked(engine, cache, batches, root) || root in pending)
    && forall k <- cache :: NulFree(k) && k !in start ==>
         Asked(engine, cache, batches, Pending(cache[k], k)) || Pending(cache[k], k) in pending
  }

  lemma AskedStays(engine: Engine, before: Cache, after: Cache, sent: seq<seq<Request>>, more: seq<seq<Request>>,
                   p: Pending)
    requires Extends(before, after)
    ensures Asked(engine, before, sent, p) ==> Asked(engine, after, sent + more, p)
  {
    if Asked(engine, before, sent, p) {
      forall specifier <- engine.imports(p.m.source)
        ensures RequestKey(Request(specifier, p.name)) in after || AskedIn(sent + more, Request(specifier, p.name))
      {
        var r := Request(specifier, p.name);
        if RequestKey(r) !in before { assert AskedIn(sent, r); }
      }
    }
  }

  /** After a level has gone out only the new modules are left to ask for. */
  lemma LevelAsks(engine: Engine, start: Cache, before: Cache, after: Cache, sent: seq<seq<Request>>,
                  batch: seq<Request>, root: Pending, pending: seq<Pending>, next: seq<Pending>, universe: set<string>)
    requires Extends(before, after) && NewlyCached(before, after, next, universe)
    requires AskedBut(engine, start, before, sent, root, pending)
    requires forall r :: r in batch <==> Wanted(engine, before, pending, r)
    ensures AskedBut(engine, start, after, sent + (if batch == [] then [] else [batch]), root, next)
  {
    var more := if batch == [] then [] else [batch];
    forall p <- pending ensures Asked(engine, after, sent + more, p) {
      forall specifier <- engine.imports(p.m.source)
        ensures RequestKey(Request(specifier, p.name)) in after || AskedIn(sent + more, Request(specifier, p.name))
      {
        var r := Request(specifier, p.name);
        assert ImportOf(engine, r, p);
        if r in batch { assert batch in sent + more; }
      }
    }
    AskedStays(engine, before, after, sent, more, root);
    forall k <- after | NulFree(k) && k !in start && Pending(after[k], k) !in next
      ensures Asked(engine, after, sent + more, Pending(after[k], k))
    {
      if Pending(after[k], k) !in pending { AskedStays(engine, before, after, sent, more, Pending(after[k], k)); }
    }
  }

  /**
   What prefetching gives while these modules are still to be looked at: the batches sent consist of imports of the
   graph; every answer that compiles is kept, gaps or not; the host was asked for every uncached import of the root
   and of the modules that came in. If no batch had gaps, the root is covered, and a cache that was closed is so again.
   */
  ghost predicate Prefetched(host: Host, engine: Engine, start: Cache, cache: Cache, sent: seq<seq<Request>>,
                             root: Pending, pending: seq<Pending>, universe: set<string>) {
    && AllSendable(host, engine, sent, root, universe) && AllKept(host, engine, cache, sent)
    && AskedBut(engine, start, cache, sent, root, pending)
    && (AllFull(host, engine, sent) ==>
          && (Covered(host, engine, cache.Keys, root.m, root.name) || root in pending)
          && (ClosedBut(host, engine, start, []) ==> ClosedBut(host, engine, cache, pending)))
  }

  lemma LevelDone(host: Host, engine: Engine, start: Cache, before: Cache, after: Cache, sent: seq<seq<Request>>,
                  batch: seq<Request>, root: Pending, pending: seq<Pending>, next: seq<Pending>, universe: set<string>)
    requires Prefetched(host, engine, start, before, sent, root, pending, universe)
    requires Extends(before, after) && NewlyCached(before, after, next, universe)
    requires forall r :: r in batch <==> Wanted(engine, before, pending, r)
    requires batch != [] ==>
      AnswersKept(host, engine, after, batch) && Sendable(host, engine, batch, root, universe)
    requires batch == [] || AnsweredFully(host, engine, batch) ==>
      && (forall p <- pending :: Covered(host, engine, after.Keys, p.m, p.name))
      && (ClosedBut(host, engine, before, pending) ==> ClosedBut(host, engine, after, next))
    ensures Prefetched(host, engine, start, after, sent + (if batch == [] then [] else [batch]), root, next, universe)
  {
    LevelAsks(engine, start, before, after, sent, batch, root, pending, next, universe);
    SentOn(host, engine, before, after, sent, batch, root, universe);
    CoveredGrows(host, engine, before.Keys, after.Keys, root.m, root.name);
  }

  lemma ExtendLevel(before: Cache, mid: Cache, level: seq<Pending>, p: Pending, key: string, universe: set<string>)
    requires NewlyCached(before, mid, level, universe) && before.Keys <= mid.Keys
    requires NulFree(p.name) && p.name in universe && p.name !in mid && !NulFree(key)
    ensures NewlyCached(before, mid[p.name := p.m][key := p.m], level + [p], universe)
  {
    var after := mid[p.name := p.m][key := p.m];
    forall k | k in after && NulFree(k) && k !in before ensures Pending(after[k], k) in level + [p] {
      if k == p.name { assert p == (level + [p])[|level|]; } else { assert Pending(mid[k], k) in level; }
    }
  }

  lemma CoveredGrows(host: Host, engine: Engine, few: set<string>, many: set<string>, m: Module, name: string)
    requires few <= many
    ensures Covered(host, engine, few, m, name) ==> Covered(host, engine, many, m, name)
  {
  }

  function Describe(m: Option<Module>): Option<Answer> {
    if m.None? then None else Some(Answer(m.value.path, m.value.source))
  }

  function PathsOf(ms: seq<Module>): set<string> { set m <- ms :: m.path }

  /** The targets not linked yet, one for each path. */
  method Unlinked(linked: set<string>, targets: seq<Module>) returns (added: seq<Module>, linked': set<string>)
    ensures linked' == linked + PathsOf(targets) && linked' - linked <= PathsOf(added)
    ensures forall m <- added :: m in targets
    ensures linked' == linked ==> added == []
  {
    added, linked' := [], linked;
    for i := 0 to |targets|
      invariant linked' == linked + PathsOf(targets[..i]) && linked' - linked <= PathsOf(added)
      invariant forall m <- added :: m in targets
      invariant linked' == linked ==> added == []
    {
      assert targets[..i + 1] == targets[..i] + [targets[i]];
      assert PathsOf(targets[..i + 1]) == PathsOf(targets[..i]) + {targets[i].path};
      assert PathsOf(added + [targets[i]]) == PathsOf(added) + {targets[i].path};
      if targets[i].path !in linked' {
        added, linked' := added + [targets[i]], linked' + {targets[i].path};
      }
    }
    assert targets[..|targets|] == targets;
  }

  /** Instantiation has reached linked and has yet to look at the imports of what is on the stack. */
  ghost predicate Explored(host: Host, engine: Engine, cache: Cache, linked: set<string>, stack: seq<Module>,
                           root: Pending) {
    && (forall p <- linked :: NulFree(p) && p in cache && cache[p].path == p)
    && (forall m <- stack :: m == root.m || (m.path in linked && cache[m.path] == m))
    && (root.m in stack || Covered(host, engine, linked, root.m, root.name))
    && (forall p <- linked :: cache[p] in stack || Covered(host, engine, linked, cache[p], p))
  }

  /** Everything reachable is among the linked paths and cached. */
  ghost predicate Linked(host: Host, engine: Engine, cache: Cache, linked: set<string>, root: Pending) {
    && Covered(host, engine, linked, root.m, root.name)
    && forall p <- linked :: p in cache && Covered(host, engine, linked, cache[p], p)
  }

  /** Looking at the imports of the top of the stack. */
  lemma StepExplores(host: Host, engine: Engine, before: Cache, after: Cache, linked: set<string>, linked': set<string>,
                     stack: seq<Module>, added: seq<Module>, m: Module, name: string, targets: seq<Module>,
                     root: Pending)
    requires Explored(host, engine, before, linked, stack + [m], root) && Extends(before, after)
    requires Covered(host, engine, PathsOf(targets), m, name)
    requires (m == root.m ==> name == root.name) && (m.path in linked && before[m.path] == m ==> name == m.path)
    requires forall t <- targets :: NulFree(t.path) && t.path in after && after[t.path] == t
    requires linked' == linked + PathsOf(targets) && linked' - linked <= PathsOf(added)
    requires forall x <- added :: x in targets
    ensures Explored(host, engine, after, linked', stack + added, root)
  {
    CoveredGrows(host, engine, PathsOf(targets), linked', m, name);
    CoveredGrows(host, engine, linked, linked', root.m, root.name);
    forall x <- stack + added ensures x == root.m || (x.path in linked' && after[x.path] == x) {
      if x in stack { assert x in stack + [m]; } else { assert x.path in PathsOf(targets); }
    }
    assert root.m in stack + [m] ==> root.m in stack + added || root.m == m;
    forall p <- linked' ensures after[p] in stack + added || Covered(host, engine, linked', after[p], p) {
      if p in linked {
        CoveredGrows(host, engine, linked, linked', before[p], p);
        assert before[p] in stack + [m] ==> before[p] in stack || before[p] == m;
      } else {
        assert p in PathsOf(added);
        var x :| x in added && x.path == p;
        assert x in stack + added;
      }
    }
  }

  // ---- The resolve state of a session ----

  class ResolveState {
    const host: Host
    const engine: Engine
    var moduleNames: map<nat, string>
    var moduleCache: Cache
    var nextIdentity: nat
    ghost var loads: seq<string>           // the _loadFile calls made
    ghost var batches: seq<seq<Request>>   // the _batchResolveModules calls made

    constructor (host: Host, engine: Engine)
      ensures this.host == host && this.engine == engine && moduleNames == map[] && moduleCache == map[]
      ensures Valid() && loads == [] && batches == []
    {
      this.host, this.engine, moduleNames, moduleCache := host, engine, map[], map[];
      nextIdentity, loads, batches := 0, [], [];
    }

    /** A path key holds the module of that path, which was loaded or came with a batch; a request key holds
        the module cached at its resolved path; every cached module's name is on record. */
    ghost predicate Valid()
      reads this
    {
      && (forall k <- moduleCache :: NulFree(k) ==>
            moduleCache[k].path == k && SourceAt(host, engine, k) == Some(moduleCache[k].source))
      && (forall r: Request :: NulFree(r.referrer) && RequestKey(r) in moduleCache ==> PointsToPath(r))
      && (forall k <- moduleCache ::
            moduleCache[k].id in moduleNames && moduleNames[moduleCache[k].id] == moduleCache[k].path)
      && (forall i <- moduleNames :: i < nextIdentity)
      && (forall k <- moduleCache :: NulFree(k) ==> Obtained(k))
    }

    /** The file at path came by a _loadFile call or with a batch. */
    ghost predicate Obtained(path: string)
      reads this
    {
      path in loads || GivenIn(host, batches, path)
    }

    ghost predicate PointsToPath(r: Request)
      requires RequestKey(r) in moduleCache
      reads this
    {
      && host.resolve(r).Some? && host.resolve(r).value in moduleCache
      && moduleCache[RequestKey(r)] == moduleCache[host.resolve(r).value]
    }

    /** Every entry is still there, with the same module in it. */
    twostate predicate OnlyGrew()
      reads this
    {
      && Extends(old(moduleCache), moduleCache)
      && (forall i <- old(moduleNames) :: i in moduleNames && moduleNames[i] == old(moduleNames)[i])
    }

    /** The root module: only its name is recorded, under its identity. */
    method CompileRoot(name: string, source: string) returns (root: Module)
      requires Valid()
      modifies this`moduleNames, this`nextIdentity
      ensures Valid() && OnlyGrew() && root.source == source
      ensures root.id !in old(moduleNames) && moduleNames == old(moduleNames)[root.id := name]
    {
      root := Module(nextIdentity, name, source);
      nextIdentity := nextIdentity + 1;
      moduleNames := moduleNames[root.id := name];
    }

    /** Compile, and cache under both keys. */
    method CompileAndCache(r: Request, path: string, source: string) returns (m: Module)
      requires Valid() && NulFree(r.referrer) && NulFree(path) && host.resolve(r) == Some(path)
      requires SourceAt(host, engine, path) == Some(source)
      requires path !in moduleCache && RequestKey(r) !in moduleCache && Obtained(path)
      modifies this`moduleNames, this`moduleCache, this`nextIdentity
      ensures Valid() && OnlyGrew() && m.path == path && m.source == source
      ensures moduleCache == old(moduleCache)[path := m][RequestKey(r) := m]
    {
      m := Module(nextIdentity, path, source);
      nextIdentity := nextIdentity + 1;
      moduleNames := moduleNames[m.id := path];
      moduleCache := moduleCache[path := m][RequestKey(r) := m];
      RequestKeyInjective(r, r);
      forall q: Request | NulFree(q.referrer) && RequestKey(q) in moduleCache ensures PointsToPath(q) {
        RequestKeyInjective(q, r);
      }
    }

    /** resolve_or_compile_module. The answer depends only on what the request denotes; a load happens
        exactly for a path that is not cached yet; nothing cached is ever replaced. */
    method ResolveOrCompile(r: Request) returns (m: Option<Module>)
      requires Valid() && Clean(host, r)
      modifies this`moduleNames, this`moduleCache, this`nextIdentity, this`loads
      ensures Valid() && OnlyGrew()
      ensures Describe(m) == Denoted(host, engine, r)
      ensures m.Some? ==> m.value.path in moduleCache && moduleCache[m.value.path] == m.value
      ensures moduleCache ==
        if m.Some? && RequestKey(r) !in old(moduleCache) && m.value.path !in old(moduleCache)
        then old(moduleCache)[m.value.path := m.value][RequestKey(r) := m.value] else old(moduleCache)
      ensures loads == old(loads) +
        if RequestKey(r) !in old(moduleCache) && host.resolve(r).Some? && host.resolve(r).value !in old(moduleCache)
        then [host.resolve(r).value] else []
    {
      var key := RequestKey(r);
      if key in moduleCache {
        assert PointsToPath(r);
        return Some(moduleCache[key]);
      }
      var resolved := host.resolve(r);
      if resolved.None? { return None; }
      var path := resolved.value;
      if path in moduleCache { return Some(moduleCache[path]); }
      loads := loads + [path];
      var raw := host.load(path);
      if raw.None? { return None; }
      var source := engine.effective(path, raw.value);
      if !engine.compiles(path, source) { return None; }
      var compiled := CompileAndCache(r, path, source);
      m := Some(compiled);
    }

    /** module_resolve_callback: the referrer is found by identity. */
    method ResolveCallback(specifier: string, referrer: Module) returns (m: Option<Module>)
      requires Valid()
      requires referrer.id in moduleNames ==> Clean(host, Request(specifier, moduleNames[referrer.id]))
      modifies this`moduleNames, this`moduleCache, this`nextIdentity, this`loads
      ensures Valid() && OnlyGrew()
      ensures referrer.id !in old(moduleNames) ==> m == None && moduleCache == old(moduleCache) && loads == old(loads)
      ensures referrer.id in old(moduleNames) ==>
        Describe(m) == Denoted(host, engine, Request(specifier, old(moduleNames)[referrer.id]))
      ensures m.Some? ==> m.value.path in moduleCache && moduleCache[m.value.path] == m.value
      ensures referrer.id in old(moduleNames) ==>
        var p := host.resolve(Request(specifier, old(moduleNames)[referrer.id]));
        p.Some? && p.value in old(moduleCache) ==> moduleCache == old(moduleCache) && loads == old(loads)
    {
      if referrer.id !in moduleNames { return None; }
      m := ResolveOrCompile(Request(specifier, moduleNames[referrer.id]));
    }

    /** A sequence of requests, one after the other. */
    method ResolveAll(requests: seq<Request>) returns (results: seq<Option<Answer>>)
      requires Valid() && forall r <- requests :: Clean(host, r)
      modifies this`moduleNames, this`moduleCache, this`nextIdentity, this`loads
      ensures Valid() && OnlyGrew() && |results| == |requests|
      ensures forall i :: 0 <= i < |requests| ==> results[i] == Denoted(host, engine, requests[i])
    {
      results := [];
      for i := 0 to |requests|
        invariant Valid() && OnlyGrew() && |results| == i
        invariant forall j :: 0 <= j < i ==> results[j] == Denoted(host, engine, requests[j])
      {
        assert requests[i] in requests;
        var m := ResolveOrCompile(requests[i]);
        results := results + [Describe(m)];
      }
    }

    // ---- Prefetch ----

    /** extract_uncached_imports, merged into the batch without duplicates. */
    method AddUncachedImports(batch: seq<Request>, p: Pending) returns (b: seq<Request>)
      requires Distinct(batch)
      ensures Distinct(b)
      ensures forall r :: r in b <==> r in batch || (RequestKey(r) !in moduleCache && ImportOf(engine, r, p))
    {
      var specifiers := engine.imports(p.m.source);
      b := batch;
      for i := 0 to |specifiers|
        invariant Distinct(b)
        invariant forall r :: r in b <==>
          r in batch || (RequestKey(r) !in moduleCache && r.referrer == p.name && r.specifier in specifiers[..i])
      {
        assert specifiers[..i + 1] == specifiers[..i] + [specifiers[i]];
        var r := Request(specifiers[i], p.name);
        if RequestKey(r) !in moduleCache && r !in b { b := b + [r]; }
      }
      assert specifiers[..|specifiers|] == specifiers;
    }

    /** Exactly the uncached imports of the pending modules, each once. */
    method CollectBatch(pending: seq<Pending>) returns (batch: seq<Request>)
      ensures Distinct(batch) && forall r :: r in batch <==> Wanted(engine, moduleCache, pending, r)
    {
      batch := [];
      for i := 0 to |pending|
        invariant Distinct(batch) && forall r :: r in batch <==> Wanted(engine, moduleCache, pending[..i], r)
      {
        assert pending[..i + 1] == pending[..i] + [pending[i]];
        batch := AddUncachedImports(batch, pending[i]);
      }
      assert pending[..|pending|] == pending;
    }

    /** One answer of a batch: compile and cache it unless its path is cached already. */
    method CacheAnswer(r: Request, result: Option<Answer>) returns (added: seq<Pending>)
      requires Valid() && NulFree(r.referrer) && RequestKey(r) !in moduleCache
      requires result.Some? ==> NulFree(result.value.path) && host.resolve(r) == Some(result.value.path)
      requires result.Some? ==>
        host.load(result.value.path) == Some(result.value.source) && GivenIn(host, batches, result.value.path)
      modifies this`moduleNames, this`moduleCache, this`nextIdentity
      ensures Valid() && OnlyGrew()
      ensures added == [] ==> moduleCache == old(moduleCache)
      ensures added != [] ==>
        var p := added[0];
        && added == [p] && host.resolve(r) == Some(p.name) && NulFree(p.name) && p.name !in old(moduleCache)
        && moduleCache == old(moduleCache)[p.name := p.m][RequestKey(r) := p.m]
      ensures Kept(host, engine, moduleCache, result)
    {
      added := [];
      if result.Some? {
        var Answer(path, raw) := result.value;
        if path !in moduleCache {
          var source := engine.effective(path, raw);
          if engine.compiles(path, source) {
            var m := CompileAndCache(r, path, source);
            RequestKeyInjective(r, r);
            added := [Pending(m, path)];
          }
        }
      }
    }

    /** Compile and cache what the host answered; the newly compiled modules are the next level. */
    method CacheAnswers(batch: seq<Request>, results: seq<Option<Answer>>, ghost universe: set<string>)
      returns (level: seq<Pending>)
      requires Valid() && Agrees(host) && ClosedUniverse(host, engine, universe)
      requires host.batch(batch) == Some(results) && batch in batches
      requires Distinct(batch) && forall r <- batch :: Askable(host, moduleCache, r, universe)
      modifies this`moduleNames, this`moduleCache, this`nextIdentity
      ensures Valid() && OnlyGrew() && NewlyCached(old(moduleCache), moduleCache, level, universe)
      ensures AnswersKept(host, engine, moduleCache, batch)
      ensures AnsweredFully(host, engine, batch) ==>
        forall r <- batch :: host.resolve(r).Some? && host.resolve(r).value in moduleCache
    {
      level := [];
      var i := 0;
      forall j | 0 <= j < |batch| ensures Askable(host, moduleCache, batch[j], universe) { assert batch[j] in batch; }
      while i < |results| && i < |batch|
        invariant 0 <= i <= |results| && i <= |batch|
        invariant Valid() && OnlyGrew() && NewlyCached(old(moduleCache), moduleCache, level, universe)
        invariant forall j :: i <= j < |batch| ==> RequestKey(batch[j]) !in moduleCache
        invariant forall j :: 0 <= j < i ==> Kept(host, engine, moduleCache, results[j])
      {
        assert batch[i] in batch;
        level := CacheNext(batch, results, i, level, old(moduleCache), universe);
        i := i + 1;
      }
      if AnsweredFully(host, engine, batch) {
        forall r | r in batch ensures host.resolve(r).Some? && host.resolve(r).value in moduleCache {
          var j :| 0 <= j < |batch| && batch[j] == r;
          assert Kept(host, engine, moduleCache, results[j]);
        }
      }
    }

    /** One turn of that loop; start is the cache at its beginning. */
    method CacheNext(batch: seq<Request>, results: seq<Option<Answer>>, i: nat, level: seq<Pending>,
                     ghost start: Cache, ghost universe: set<string>)
      returns (level': seq<Pending>)
      requires Valid() && Agrees(host) && ClosedUniverse(host, engine, universe)
      requires host.batch(batch) == Some(results) && batch in batches && i < |results| && i < |batch| && Distinct(batch)
      requires forall r <- batch :: NulFree(r.referrer) && (host.resolve(r).Some? ==> host.resolve(r).value in universe)
      requires forall j :: i <= j < |batch| ==> RequestKey(batch[j]) !in moduleCache
      requires Extends(start, moduleCache) && NewlyCached(start, moduleCache, level, universe)
      modifies this`moduleNames, this`moduleCache, this`nextIdentity
      ensures Valid() && OnlyGrew() && NewlyCached(start, moduleCache, level', universe)
      ensures forall j :: i < j < |batch| ==> RequestKey(batch[j]) !in moduleCache
      ensures Kept(host, engine, moduleCache, results[i])
    {
      assert batch[i] in batch;
      assert results[i].Some? ==> Gives(host, batch, results[i].value.path);
      var added := CacheAnswer(batch[i], results[i]);
      RequestKeyInjective(batch[i], batch[i]);
      if added != [] {
        ExtendLevel(start, old(moduleCache), level, added[0], RequestKey(batch[i]), universe);
      }
      forall j | i < j < |batch| ensures RequestKey(batch[j]) !in moduleCache {
        assert batch[j] in batch;
        RequestKeyInjective(batch[j], batch[i]);
      }
      level' := level + added;
    }

    /** Ask the host for a batch; whatever it does not answer stays uncached. */
    method SendBatch(batch: seq<Request>, ghost universe: set<string>) returns (level: seq<Pending>)
      requires Valid() && Agrees(host) && ClosedUniverse(host, engine, universe)
      requires Distinct(batch) && forall r <- batch :: Askable(host, moduleCache, r, universe)
      modifies this`moduleNames, this`moduleCache, this`nextIdentity, this`batches
      ensures Valid() && OnlyGrew() && NewlyCached(old(moduleCache), moduleCache, level, universe)
      ensures batches == old(batches) + [batch] && AnswersKept(host, engine, moduleCache, batch)
      ensures AnsweredFully(host, engine, batch) ==>
        forall r <- batch :: host.resolve(r).Some? && host.resolve(r).value in moduleCache
    {
      batches := batches + [batch];
      level := [];
      var answers := host.batch(batch);
      if answers.Some? { level := CacheAnswers(batch, answers.value, universe); }
    }

    /** One level of the breadth-first search: the batch is exactly the uncached imports of the pending modules;
        nothing is sent if there are none, and nothing follows then or when the host refuses. */
    method PrefetchLevel(pending: seq<Pending>, ghost root: Pending, ghost universe: set<string>)
      returns (next: seq<Pending>, ghost batch: seq<Request>)
      requires Valid() && Agrees(host) && ClosedUniverse(host, engine, universe)
      requires forall p <- pending :: Ready(host, engine, p, universe) && FromGraph(host, engine, p, root, universe)
      modifies this`moduleNames, this`moduleCache, this`nextIdentity, this`batches
      ensures Valid() && OnlyGrew()
      ensures Distinct(batch) && forall r :: r in batch <==> Wanted(engine, old(moduleCache), pending, r)
      ensures batches == old(batches) + if batch == [] then [] else [batch]
      ensures batch != [] ==>
        Sendable(host, engine, batch, root, universe) && AnswersKept(host, engine, moduleCache, batch)
      ensures NewlyCached(old(moduleCache), moduleCache, next, universe)
      ensures forall p <- next :: Ready(host, engine, p, universe) && FromGraph(host, engine, p, root, universe)
      ensures batch == [] || AnsweredFully(host, engine, batch) ==>
        && (forall p <- pending :: Covered(host, engine, moduleCache.Keys, p.m, p.name))
        && (ClosedBut(host, engine, old(moduleCache), pending) ==> ClosedBut(host, engine, moduleCache, next))
      ensures Remaining(moduleCache, universe) <= Remaining(old(moduleCache), universe)
      ensures next != [] ==> Remaining(moduleCache, universe) < Remaining(old(moduleCache), universe)
    {
      var wanted := CollectBatch(pending);
      batch, next := wanted, [];
      forall r <- wanted
        ensures Askable(host, moduleCache, r, universe) && GraphImport(host, engine, r, root, universe)
      {
        var p :| p in pending && ImportOf(engine, r, p);
        assert Request(r.specifier, p.name) == r;
      }
      if wanted != [] { next := SendBatch(wanted, universe); }
      if batch == [] || AnsweredFully(host, engine, batch) {
        forall p <- pending ensures Covered(host, engine, moduleCache.Keys, p.m, p.name) {
          PendingCovered(old(moduleCache), pending, p, batch);
        }
        if ClosedBut(host, engine, old(moduleCache), pending) {
          LevelCloses(host, engine, old(moduleCache), moduleCache, pending, next, universe);
        }
      }
      RemainingShrinks(old(moduleCache), moduleCache, next, universe);
    }

    lemma PendingCovered(before: Cache, pending: seq<Pending>, p: Pending, batch: seq<Request>)
      requires Valid() && NulFree(p.name) && p in pending && Extends(before, moduleCache)
      requires forall r <- batch :: host.resolve(r).Some? && host.resolve(r).value in moduleCache
      requires forall r :: r in batch <==> Wanted(engine, before, pending, r)
      ensures Covered(host, engine, moduleCache.Keys, p.m, p.name)
    {
      forall specifier <- engine.imports(p.m.source)
        ensures host.resolve(Request(specifier, p.name)).Some?
        ensures host.resolve(Request(specifier, p.name)).value in moduleCache
      {
        var r := Request(specifier, p.name);
        assert ImportOf(engine, r, p);
        if r !in batch { assert RequestKey(r) in before && PointsToPath(r); }
      }
    }

    /**
     prefetch_module_imports, breadth first. It terminates because every further level caches a new
     path of the finite universe. It never makes a _loadFile call and never replaces a cached module.
     It sends only batches of imports of the graph, keeps every answer that compiles, gaps or not, and asks for
     every uncached import of the root and of the modules it brought. If it was answered without gaps each time, the
     root's imports are all cached, and a cache that was closed under static imports, as the empty one is, ends closed.
     */
    method Prefetch(root: Module, rootName: string, ghost universe: set<string>)
      requires Valid() && Agrees(host) && ClosedUniverse(host, engine, universe)
      requires Ready(host, engine, Pending(root, rootName), universe)
      modifies this`moduleNames, this`moduleCache, this`nextIdentity, this`batches
      ensures Valid() && OnlyGrew() && old(batches) <= batches
      ensures Prefetched(host, engine, old(moduleCache), moduleCache, batches[|old(batches)|..],
                         Pending(root, rootName), [], universe)
    {
      ghost var top, n := Pending(root, rootName), |batches|;
      var pending := [Pending(root, rootName)];
      while pending != []
        invariant Valid() && OnlyGrew() && old(batches) <= batches
        invariant Prefetched(host, engine, old(moduleCache), moduleCache, batches[n..], top, pending, universe)
        invariant forall p <- pending :: Ready(host, engine, p, universe) && FromGraph(host, engine, p, top, universe)
        decreases Remaining(moduleCache, universe) + if pending == [] then 0 else 1
      {
        pending := PrefetchTurn(pending, n, old(moduleCache), top, universe);
      }
    }

    /** One turn of the loop. */
    method PrefetchTurn(pending: seq<Pending>, ghost n: nat, ghost start: Cache, ghost root: Pending,
                        ghost universe: set<string>)
      returns (next: seq<Pending>)
      requires Valid() && Agrees(host) && ClosedUniverse(host, engine, universe) && n <= |batches|
      requires forall p <- pending :: Ready(host, engine, p, universe) && FromGraph(host, engine, p, root, universe)
      requires Prefetched(host, engine, start, moduleCache, batches[n..], root, pending, universe)
      modifies this`moduleNames, this`moduleCache, this`nextIdentity, this`batches
      ensures Valid() && OnlyGrew() && old(batches) <= batches
      ensures forall p <- next :: Ready(host, engine, p, universe) && FromGraph(host, engine, p, root, universe)
      ensures Prefetched(host, engine, start, moduleCache, batches[n..], root, next, universe)
      ensures Remaining(moduleCache, universe) <= Remaining(old(moduleCache), universe)
      ensures next != [] ==> Remaining(moduleCache, universe) < Remaining(old(moduleCache), universe)
    {
      ghost var batch;
      next, batch := PrefetchLevel(pending, root, universe);
      assert batches[n..] == old(batches[n..]) + (if batch == [] then [] else [batch]);
      LevelDone(host, engine, start, old(moduleCache), moduleCache, old(batches[n..]), batch, root, pending, next,
                universe);
    }

    // ---- Instantiation ----

    /** The import denotes the module. */
    ghost predicate IsTarget(specifier: string, name: string, t: Module)
      reads this
    {
      Denoted(host, engine, Request(specifier, name)) == Some(Answer(t.path, t.source))
    }

    ghost predicate TargetOf(t: Module, m: Module, name: string)
      reads this
    {
      exists specifier <- engine.imports(m.source) :: IsTarget(specifier, name, t)
    }

    /** The resolve callbacks V8 makes for one module's imports: they succeed exactly if every import denotes a
        module, from the cache or not. */
    method LinkImports(m: Module, ghost universe: set<string>) returns (ok: bool, targets: seq<Module>)
      requires Valid() && ClosedUniverse(host, engine, universe)
      requires m.id in moduleNames && Ready(host, engine, Pending(m, moduleNames[m.id]), universe)
      modifies this`moduleNames, this`moduleCache, this`nextIdentity, this`loads
      ensures Valid() && OnlyGrew()
      ensures ok <==> AllDenoted(host, engine, m.source, old(moduleNames)[m.id])
      ensures forall t <- targets :: t.path in universe && t.path in moduleCache && moduleCache[t.path] == t
      ensures ok ==> forall t <- targets :: TargetOf(t, m, old(moduleNames)[m.id])
      ensures ok ==> Covered(host, engine, PathsOf(targets), m, old(moduleNames)[m.id])
      ensures Covered(host, engine, old(moduleCache).Keys, m, old(moduleNames)[m.id]) ==>
        ok && moduleCache == old(moduleCache) && loads == old(loads)
    {
      ghost var name := moduleNames[m.id];
      var specifiers := engine.imports(m.source);
      targets := [];
      for i := 0 to |specifiers|
        invariant Valid() && OnlyGrew() && moduleNames[m.id] == name && |targets| == i
        invariant forall t <- targets :: t.path in universe && t.path in moduleCache && moduleCache[t.path] == t
        invariant forall j :: 0 <= j < i ==> IsTarget(specifiers[j], name, targets[j])
        invariant Covered(host, engine, old(moduleCache).Keys, m, name) ==>
          moduleCache == old(moduleCache) && loads == old(loads)
      {
        assert specifiers[i] in specifiers;
        ghost var p := host.resolve(Request(specifiers[i], name));
        var r := ResolveCallback(specifiers[i], m);
        if r.None? { return false, targets; }
        targets := targets + [r.value];
      }
      ok := true;
      AllTargets(m, name, targets);
    }

    lemma AllTargets(m: Module, name: string, targets: seq<Module>)
      requires var specifiers := engine.imports(m.source);
        |targets| == |specifiers| && forall j :: 0 <= j < |targets| ==> IsTarget(specifiers[j], name, targets[j])
      ensures forall t <- targets :: TargetOf(t, m, name)
      ensures AllDenoted(host, engine, m.source, name)
      ensures Covered(host, engine, PathsOf(targets), m, name)
    {
      forall t <- targets ensures TargetOf(t, m, name) {
        var j :| 0 <= j < |targets| && targets[j] == t;
        assert IsTarget(engine.imports(m.source)[j], name, t);
      }
      forall specifier <- engine.imports(m.source)
        ensures Denoted(host, engine, Request(specifier, name)).Some?
        ensures host.resolve(Request(specifier, name)).value in PathsOf(targets)
      {
        var j :| 0 <= j < |targets| && engine.imports(m.source)[j] == specifier;
        assert IsTarget(specifier, name, targets[j]) && targets[j] in targets;
      }
    }

    /** Instantiation: V8 asks for the imports of the root and of every module that comes up, each module once.
        It succeeds exactly if everything reachable denotes a module, whatever the cache holds, and linked is then
        what is reachable. After a complete prefetch it succeeds from the cache alone: nothing is loaded and
        nothing compiled. */
    method Instantiate(root: Module, ghost universe: set<string>) returns (ok: bool, linked: set<string>)
      requires Valid() && ClosedUniverse(host, engine, universe)
      requires root.id in moduleNames && Ready(host, engine, Pending(root, moduleNames[root.id]), universe)
      modifies this`moduleNames, this`moduleCache, this`nextIdentity, this`loads
      ensures Valid() && OnlyGrew()
      ensures ok <==> Instantiable(host, engine, root.source, old(moduleNames)[root.id])
      ensures ok ==>
        && Linked(host, engine, moduleCache, linked, Pending(root, old(moduleNames)[root.id]))
        && Reachable(host, engine, root.source, old(moduleNames)[root.id], linked)
      ensures Covered(host, engine, old(moduleCache).Keys, root, old(moduleNames)[root.id])
              && ClosedBut(host, engine, old(moduleCache), []) ==>
        ok && moduleCache == old(moduleCache) && loads == old(loads)
    {
      ghost var top := Pending(root, moduleNames[root.id]);
      ghost var closed :=
        Covered(host, engine, moduleCache.Keys, root, top.name) && ClosedBut(host, engine, moduleCache, []);
      var stack := [root];
      linked := {};
      while stack != []
        invariant Valid() && OnlyGrew() && linked <= universe && moduleNames[root.id] == top.name
        invariant Explored(host, engine, moduleCache, linked, stack, top) && Reached(linked, top)
        invariant closed ==> moduleCache == old(moduleCache) && loads == old(loads)
        decreases |universe - linked|, |stack|
      {
        ok, stack, linked := InstantiateTurn(stack, linked, top, universe);
        if !ok { return; }
      }
      ok := true;
      LinkedIsReachable(linked, top);
    }

    /** Every closed graph of the root has these paths. */
    ghost predicate Reached(linked: set<string>, root: Pending)
      reads this
    {
      forall paths :: ClosedGraph(host, engine, root.m.source, root.name, paths) ==> linked <= paths
    }

    /** The module on top of the stack. */
    method InstantiateTurn(stack: seq<Module>, linked: set<string>, ghost root: Pending, ghost universe: set<string>)
      returns (ok: bool, stack': seq<Module>, linked': set<string>)
      requires Valid() && ClosedUniverse(host, engine, universe) && linked <= universe && stack != []
      requires Explored(host, engine, moduleCache, linked, stack, root) && Reached(linked, root)
      requires root.m.id in moduleNames && moduleNames[root.m.id] == root.name && Ready(host, engine, root, universe)
      modifies this`moduleNames, this`moduleCache, this`nextIdentity, this`loads
      ensures Valid() && OnlyGrew()
      ensures ok ==> linked <= linked' <= universe && Explored(host, engine, moduleCache, linked', stack', root)
      ensures ok ==> |universe - linked'| < |universe - linked| || (linked' == linked && |stack'| < |stack|)
      ensures if ok then Reached(linked', root) else !Instantiable(host, engine, root.m.source, root.name)
      ensures Covered(host, engine, old(moduleCache).Keys, root.m, root.name)
              && ClosedBut(host, engine, old(moduleCache), []) ==>
        ok && moduleCache == old(moduleCache) && loads == old(loads)
    {
      var m, rest := stack[|stack| - 1], stack[..|stack| - 1];
      assert stack == rest + [m] && m in stack;
      TopIsReady(stack, linked, m, root, universe);
      ghost var before, name := moduleCache, moduleNames[m.id];
      TopIsReached(linked, m, name, root);
      var targets;
      ok, targets := LinkImports(m, universe);
      stack', linked' := stack, linked;
      if ok { stack', linked' := PushTargets(rest, m, name, linked, targets, before, root, universe); }
    }

    /** The targets not linked yet go on the stack in place of the module that imports them. */
    method PushTargets(rest: seq<Module>, ghost m: Module, ghost name: string, linked: set<string>,
                       targets: seq<Module>, ghost before: Cache, ghost root: Pending, ghost universe: set<string>)
      returns (stack: seq<Module>, linked': set<string>)
      requires Explored(host, engine, before, linked, rest + [m], root) && Extends(before, moduleCache)
      requires Covered(host, engine, PathsOf(targets), m, name)
      requires (m == root.m ==> name == root.name) && (m.path in linked && before[m.path] == m ==> name == m.path)
      requires forall t <- targets :: t.path in universe && t.path in moduleCache && moduleCache[t.path] == t
      requires forall t <- targets :: TargetOf(t, m, name)
      requires ClosedUniverse(host, engine, universe) && linked <= universe
      requires Reached(linked, root) && Needed(m, name, root)
      ensures linked <= linked' <= universe && Explored(host, engine, moduleCache, linked', stack, root)
      ensures |universe - linked'| < |universe - linked| || (linked' == linked && |stack| <= |rest|)
      ensures Reached(linked', root)
    {
      var added;
      added, linked' := Unlinked(linked, targets);
      stack := rest + added;
      StepExplores(host, engine, before, moduleCache, linked, linked', rest, added, m, name, targets, root);
      TargetsAreReached(linked, targets, m, name, root);
      if linked != linked' { SmallerUniverse(universe, linked, linked'); }
    }

    /** In every closed graph of the root the imports of this module denote modules of the graph. */
    ghost predicate Needed(m: Module, name: string, root: Pending)
      reads this
    {
      forall paths :: ClosedGraph(host, engine, root.m.source, root.name, paths) ==>
        ImportsDenoted(host, engine, m.source, name, paths)
    }

    lemma TopIsReached(linked: set<string>, m: Module, name: string, root: Pending)
      requires Valid() && Reached(linked, root)
      requires (m == root.m && name == root.name) ||
        (m.path in linked && NulFree(m.path) && m.path in moduleCache && moduleCache[m.path] == m && name == m.path)
      ensures Needed(m, name, root)
      ensures !AllDenoted(host, engine, m.source, name) ==> !Instantiable(host, engine, root.m.source, root.name)
    {
    }

    lemma TargetsAreReached(linked: set<string>, targets: seq<Module>, m: Module, name: string, root: Pending)
      requires Reached(linked, root) && forall t <- targets :: TargetOf(t, m, name)
      requires Needed(m, name, root)
      ensures Reached(linked + PathsOf(targets), root)
    {
      forall paths | ClosedGraph(host, engine, root.m.source, root.name, paths)
        ensures linked + PathsOf(targets) <= paths
      {
        forall t <- targets ensures t.path in paths {
          var specifier :| specifier in engine.imports(m.source) && IsTarget(specifier, name, t);
        }
      }
    }

    /** Nothing is left to look at. */
    lemma LinkedIsReachable(linked: set<string>, root: Pending)
      requires Valid() && Explored(host, engine, moduleCache, linked, [], root) && Reached(linked, root)
      ensures Reachable(host, engine, root.m.source, root.name, linked)
    {
    }

    lemma TopIsReady(stack: seq<Module>, linked: set<string>, m: Module, top: Pending, universe: set<string>)
      requires Valid() && ClosedUniverse(host, engine, universe) && linked <= universe
      requires Explored(host, engine, moduleCache, linked, stack, top) && m in stack
      requires top.m.id in moduleNames && moduleNames[top.m.id] == top.name && Ready(host, engine, top, universe)
      ensures m.id in moduleNames && Ready(host, engine, Pending(m, moduleNames[m.id]), universe)
      ensures (m == top.m ==> moduleNames[m.id] == top.name)
           && (m.path in linked && moduleCache[m.path] == m ==> moduleNames[m.id] == m.path)
      ensures Covered(host, engine, moduleCache.Keys, top.m, top.name) && ClosedBut(host, engine, moduleCache, []) ==>
        Covered(host, engine, moduleCache.Keys, m, moduleNames[m.id])
    {
      if m != top.m { assert NulFree(m.path) && moduleCache[m.path] == m; }
    }
  }

  // ---- Main results ----

  /** Prefetch is invisible: whatever the batch calls returned, any later request has the same outcome
      as in a session that never prefetched. */
  method ResolveWithAndWithoutPrefetch(host: Host, engine: Engine, rootName: string, rootSource: string,
                                       requests: seq<Request>, ghost universe: set<string>)
    returns (with: seq<Option<Answer>>, without: seq<Option<Answer>>)
    requires Agrees(host) && ClosedUniverse(host, engine, universe)
    requires NulFree(rootName) && LeadsInto(host, engine, rootSource, rootName, universe)
    requires forall r <- requests :: Clean(host, r)
    ensures with == without && |with| == |requests|
    ensures forall i :: 0 <= i < |requests| ==> with[i] == Denoted(host, engine, requests[i])
  {
    var prefetched := new ResolveState(host, engine);
    var root := prefetched.CompileRoot(rootName, rootSource);
    prefetched.Prefetch(root, rootName, universe);
    with := prefetched.ResolveAll(requests);
    var plain := new ResolveState(host, engine);
    without := plain.ResolveAll(requests);
  }

  /** Prefetch, then instantiation by way of module identities. The batches sent consist of imports of the graph.
      Instantiation succeeds exactly if everything reachable denotes a module, also where prefetch was refused or
      answered with gaps, and everything reachable is linked and cached then. If each batch was answered without
      gaps, and so in particular if the host answers every such batch, it succeeds without a single _loadFile call. */
  method InstantiateAfterPrefetch(host: Host, engine: Engine, rootName: string, rootSource: string,
                                  ghost universe: set<string>)
    returns (ok: bool, linked: set<string>, state: ResolveState, root: Module, ghost prefetched: Cache)
    requires Agrees(host) && ClosedUniverse(host, engine, universe)
    requires NulFree(rootName) && LeadsInto(host, engine, rootSource, rootName, universe)
    ensures fresh(state) && state.Valid() && state.host == host && state.engine == engine && root.source == rootSource
    ensures Prefetched(host, engine, map[], prefetched, state.batches, Pending(root, rootName), [], universe)
    ensures Extends(prefetched, state.moduleCache)
    ensures ok <==> Instantiable(host, engine, rootSource, rootName)
    ensures ok ==>
      && Linked(host, engine, state.moduleCache, linked, Pending(root, rootName))
      && Reachable(host, engine, rootSource, rootName, linked)
    ensures AllFull(host, engine, state.batches) ==>
      ok && state.loads == [] && ClosedBut(host, engine, state.moduleCache, [])
    ensures AnswersAll(host, engine, Pending(root, rootName), universe) ==> ok && state.loads == []
  {
    state := new ResolveState(host, engine);
    root := state.CompileRoot(rootName, rootSource);
    state.Prefetch(root, rootName, universe);
    assert state.batches[0..] == state.batches;
    prefetched := state.moduleCache;
    ok, linked := state.Instantiate(root, universe);
  }

  lemma ReachableIsUnique(host: Host, engine: Engine, source: string, name: string, p: set<string>, q: set<string>)
    requires Reachable(host, engine, source, name, p) && Reachable(host, engine, source, name, q)
    ensures p == q
  {
  }

  /** Prefetch does not change the verdict on the whole program, nor what is linked. */
  method InstantiateWithAndWithoutPrefetch(host: Host, engine: Engine, rootName: string, rootSource: string,
                                           ghost universe: set<string>)
    returns (with: Option<set<string>>, without: Option<set<string>>)
    requires Agrees(host) && ClosedUniverse(host, engine, universe)
    requires NulFree(rootName) && LeadsInto(host, engine, rootSource, rootName, universe)
    ensures with == without
    ensures match with
      case Some(linked) => Reachable(host, engine, rootSource, rootName, linked)
      case None => !Instantiable(host, engine, rootSource, rootName)
  {
    var ok, linked, _, _, _ := InstantiateAfterPrefetch(host, engine, rootName, rootSource, universe);
    with := if ok then Some(linked) else None;
    var plain := new ResolveState(host, engine);
    var root := plain.CompileRoot(rootName, rootSource);
    ok, linked := plain.Instantiate(root, universe);
    without := if ok then Some(linked) else None;
    if ok { ReachableIsUnique(host, engine, rootSource, rootName, with.value, linked); }
  }
}
