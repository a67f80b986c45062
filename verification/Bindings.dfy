/** Host bindings: a tree of functions is flattened to dotted keys on the host and inflated from them
    inside the sandbox. */
module Bindings {
  import opened Frames
  import opened TextOps

  const BINDING_PREFIX := "__bind."
  const MAX_DEPTH := 4
  const MAX_LEAVES := 64

  /** What a property of a binding tree may hold: a function, an object with its own keys in order, or
      anything else. */
  datatype Binding = Fn(handler: nat, isAsync: bool) | Tree(entries: seq<Entry>) | Other
  datatype Entry = Entry(key: string, value: Binding)

  datatype Flattened = Flattened(key: string, handler: nat, isAsync: bool)

  datatype Refusal = TooDeep | InvalidKey | ReservedKey | Collision | TooManyLeaves | InvalidValue
  datatype Verdict = Accepted | Refused(refusal: Refusal) {
    predicate IsFailure() { Refused? }
    function PropagateFailure(): Verdict { this }
  }

  predicate Letter(c: char) { 'a' <= c <= 'z' || 'A' <= c <= 'Z' || c == '_' || c == '$' }

  predicate Identifier(key: string) {
    key != "" && Letter(key[0]) && forall c <- key :: Letter(c) || '0' <= c <= '9'
  }

  // ---- Reference definitions ----

  /** A function of the tree: its path from some node down, and from the root. */
  datatype Leaf = Leaf(rel: seq<string>, full: seq<string>, handler: nat, isAsync: bool)

  function Under(key: string, leaves: seq<Leaf>): (r: seq<Leaf>)
    ensures |r| == |leaves|
    ensures forall i :: 0 <= i < |r| ==> r[i] == leaves[i].(rel := [key] + leaves[i].rel)
  {
    seq(|leaves|, i requires 0 <= i < |leaves| => leaves[i].(rel := [key] + leaves[i].rel))
  }

  /** The functions below a node at path, in order. */
  function Leaves(entries: seq<Entry>, path: seq<string>): seq<Leaf>
    decreases entries
  {
    if entries == [] then [] else LeavesOf(entries[0], path) + Leaves(entries[1..], path)
  }

  function LeavesOf(e: Entry, path: seq<string>): seq<Leaf>
    decreases e
  {
    match e.value
    case Fn(handler, isAsync) => [Leaf([e.key], path + [e.key], handler, isAsync)]
    case Tree(entries) => Under(e.key, Leaves(entries, path + [e.key]))
    case Other => []
  }

  function FlatKey(full: seq<string>): string { BINDING_PREFIX + Join(full, '.') }

  function Flat(leaf: Leaf): Flattened { Flattened(FlatKey(leaf.full), leaf.handler, leaf.isAsync) }

  function FlatAll(leaves: seq<Leaf>): (r: seq<Flattened>)
    ensures |r| == |leaves| && forall i :: 0 <= i < |r| ==> r[i] == Flat(leaves[i])
  {
    seq(|leaves|, i requires 0 <= i < |leaves| => Flat(leaves[i]))
  }

  /** What is demanded of the entries of a node at this depth, leaving aside how many functions there are. */
  predicate Fit(entries: seq<Entry>, path: seq<string>, depth: nat, internal: set<string>)
    decreases entries
  {
    entries == [] || (FitEntry(entries[0], path, depth, internal) && Fit(entries[1..], path, depth, internal))
  }

  predicate FitEntry(e: Entry, path: seq<string>, depth: nat, internal: set<string>)
    decreases e
  {
    && Identifier(e.key) && e.key[0] != '_'
    && match e.value
       case Fn(_, _) => FlatKey(path + [e.key]) !in internal
       case Tree(entries) => depth < MAX_DEPTH && Fit(entries, path + [e.key], depth + 1, internal)
       case Other => false
  }

  /** The trees that flattening accepts. */
  predicate Acceptable(tree: Binding, internal: set<string>) {
    tree.Tree? && Fit(tree.entries, [], 1, internal) && |Leaves(tree.entries, [])| <= MAX_LEAVES
  }

  /** What the walk says of a node when count functions have been found before it: the first refusal, in the order of
      the keys and of the tests made for each. */
  function NodeVerdict(entries: seq<Entry>, path: seq<string>, depth: nat, internal: set<string>, count: nat): Verdict
    decreases entries, 1
  {
    if depth > MAX_DEPTH then Refused(TooDeep) else KeysVerdict(entries, path, depth, internal, count)
  }

  function KeysVerdict(entries: seq<Entry>, path: seq<string>, depth: nat, internal: set<string>, count: nat): Verdict
    decreases entries, 0
  {
    if entries == [] then Accepted
    else
      var first := KeyVerdict(entries[0], path, depth, internal, count);
      if first.Refused? then first
      else KeysVerdict(entries[1..], path, depth, internal, count + |LeavesOf(entries[0], path)|)
  }

  function KeyVerdict(e: Entry, path: seq<string>, depth: nat, internal: set<string>, count: nat): Verdict
    decreases e
  {
    if !Identifier(e.key) then Refused(InvalidKey)
    else if e.key[0] == '_' then Refused(ReservedKey)
    else
      match e.value
      case Fn(_, _) =>
        if FlatKey(path + [e.key]) in internal then Refused(Collision)
        else if count >= MAX_LEAVES then Refused(TooManyLeaves) else Accepted
      case Tree(entries) => NodeVerdict(entries, path + [e.key], depth + 1, internal, count)
      case Other => Refused(InvalidValue)
  }

  /** Somewhere among the entries of a node there is what this refusal speaks of. */
  predicate HasFault(entries: seq<Entry>, path: seq<string>, depth: nat, internal: set<string>, refusal: Refusal)
    decreases entries
  {
    entries != [] &&
    (KeyHasFault(entries[0], path, depth, internal, refusal) || HasFault(entries[1..], path, depth, internal, refusal))
  }

  predicate KeyHasFault(e: Entry, path: seq<string>, depth: nat, internal: set<string>, refusal: Refusal)
    decreases e
  {
    || (match refusal
        case InvalidKey => !Identifier(e.key)
        case ReservedKey => "_" <= e.key
        case Collision => e.value.Fn? && BINDING_PREFIX + Join(path + [e.key], '.') in internal
        case InvalidValue => e.value.Other?
        case TooDeep => e.value.Tree? && depth >= 4
        case TooManyLeaves => false)
    || (e.value.Tree? && HasFault(e.value.entries, path + [e.key], depth + 1, internal, refusal))
  }

  /** Every refusal is true of the tree. */
  lemma {:induction false} RefusalIsTrue(entries: seq<Entry>, path: seq<string>, depth: nat, internal: set<string>,
                                         count: nat)
    requires depth <= MAX_DEPTH && KeysVerdict(entries, path, depth, internal, count).Refused?
    ensures var refusal := KeysVerdict(entries, path, depth, internal, count).refusal;
      if refusal == TooManyLeaves then count + |Leaves(entries, path)| > 64
      else HasFault(entries, path, depth, internal, refusal)
    decreases entries
  {
    if KeyVerdict(entries[0], path, depth, internal, count).Refused? {
      KeyRefusalIsTrue(entries[0], path, depth, internal, count);
    } else {
      RefusalIsTrue(entries[1..], path, depth, internal, count + |LeavesOf(entries[0], path)|);
    }
  }

  lemma {:induction false} KeyRefusalIsTrue(e: Entry, path: seq<string>, depth: nat, internal: set<string>, count: nat)
    requires depth <= MAX_DEPTH && KeyVerdict(e, path, depth, internal, count).Refused?
    ensures var refusal := KeyVerdict(e, path, depth, internal, count).refusal;
      if refusal == TooManyLeaves then count + |LeavesOf(e, path)| > 64
      else KeyHasFault(e, path, depth, internal, refusal)
    decreases e
  {
    if e.value.Tree? && Identifier(e.key) && e.key[0] != '_' && depth < MAX_DEPTH {
      RefusalIsTrue(e.value.entries, path + [e.key], depth + 1, internal, count);
    }
  }

  // ---- flattenBindingTree ----

  class Flattener {
    const internalKeys: set<string>
    var result: seq<Flattened>

    constructor (internalKeys: set<string>)
      ensures this.internalKeys == internalKeys && result == []
    {
      this.internalKeys := internalKeys;
      result := [];
    }

    /** The recursive walk; it stops at the first thing it refuses. */
    method Walk(node: Binding, path: seq<string>, depth: nat) returns (r: Verdict)
      requires node.Tree? && |result| <= MAX_LEAVES
      modifies this
      ensures r == NodeVerdict(node.entries, path, depth, internalKeys, |old(result)|)
      ensures r.Accepted? <==>
        && depth <= MAX_DEPTH && Fit(node.entries, path, depth, internalKeys)
        && |old(result)| + |Leaves(node.entries, path)| <= MAX_LEAVES
      ensures r.Accepted? ==> result == old(result) + FlatAll(Leaves(node.entries, path))
      decreases node
    {
      if depth > MAX_DEPTH {
        return Refused(TooDeep);
      }
      var entries := node.entries;
      for i := 0 to |entries|
        invariant |result| <= MAX_LEAVES
        invariant Fit(entries, path, depth, internalKeys) <==> Fit(entries[i..], path, depth, internalKeys)
        invariant KeysVerdict(entries, path, depth, internalKeys, |old(result)|)
               == KeysVerdict(entries[i..], path, depth, internalKeys, |result|)
        invariant result + FlatAll(Leaves(entries[i..], path)) == old(result) + FlatAll(Leaves(entries, path))
      {
        FlatStep(result, entries, i, path);
        assert entries[i..][1..] == entries[i + 1..];
        :- Visit(entries[i], path, depth);
      }
      return Accepted;
    }

    /** One turn of the walk's loop. */
    method Visit(e: Entry, path: seq<string>, depth: nat) returns (r: Verdict)
      requires depth <= MAX_DEPTH && |result| <= MAX_LEAVES
      modifies this
      ensures r == KeyVerdict(e, path, depth, internalKeys, |old(result)|)
      ensures r.Accepted? <==>
        && FitEntry(e, path, depth, internalKeys)
        && |old(result)| + |LeavesOf(e, path)| <= MAX_LEAVES
      ensures r.Accepted? ==> result == old(result) + FlatAll(LeavesOf(e, path))
      decreases e
    {
      if !Identifier(e.key) {
        return Refused(InvalidKey);
      }
      if e.key[0] == '_' {
        return Refused(ReservedKey);
      }
      var fullPath := path + [e.key];
      match e.value {
        case Fn(handler, isAsync) =>
          var flatKey := BINDING_PREFIX + Join(fullPath, '.');
          if flatKey in internalKeys {
            return Refused(Collision);
          }
          result := result + [Flattened(flatKey, handler, isAsync)];
          if |result| > MAX_LEAVES {
            return Refused(TooManyLeaves);
          }
        case Tree(entries) =>
          :- Walk(e.value, fullPath, depth + 1);
          FlatUnder(e.key, Leaves(entries, fullPath));
        case Other =>
          return Refused(InvalidValue);
      }
      return Accepted;
    }
  }

  method FlattenBindingTree(tree: Binding, internal: set<string>) returns (r: Verdict, result: seq<Flattened>)
    requires tree.Tree?
    ensures r.Accepted? <==> Acceptable(tree, internal)
    ensures r.Refused? ==>
      if r.refusal == TooManyLeaves then |Leaves(tree.entries, [])| > 64
      else HasFault(tree.entries, [], 1, internal, r.refusal)
    ensures r.Accepted? ==> result == FlatAll(Leaves(tree.entries, []))
  {
    var f := new Flattener(internal);
    r := f.Walk(tree, [], 1);
    result := f.result;
    if r.Refused? { RefusalIsTrue(tree.entries, [], 1, internal, 0); }
  }

  lemma FlatConcat(a: seq<Leaf>, b: seq<Leaf>)
    ensures FlatAll(a + b) == FlatAll(a) + FlatAll(b)
  {
  }

  lemma FlatStep(done: seq<Flattened>, entries: seq<Entry>, i: nat, path: seq<string>)
    requires i < |entries|
    ensures done + FlatAll(Leaves(entries[i..], path))
         == done + FlatAll(LeavesOf(entries[i], path)) + FlatAll(Leaves(entries[i + 1..], path))
  {
    assert entries[i..][1..] == entries[i + 1..];
    FlatConcat(LeavesOf(entries[i], path), Leaves(entries[i + 1..], path));
  }

  lemma FlatUnder(key: string, leaves: seq<Leaf>)
    ensures FlatAll(Under(key, leaves)) == FlatAll(leaves)
  {
  }

  // ---- The flat keys ----

  /** No object has a key twice. */
  predicate DistinctKeys(entries: seq<Entry>)
    decreases entries
  {
    entries == [] ||
    ((forall e <- entries[1..] :: e.key != entries[0].key) && DistinctEntry(entries[0]) && DistinctKeys(entries[1..]))
  }

  predicate DistinctEntry(e: Entry)
    decreases e
  {
    e.value.Tree? ==> DistinctKeys(e.value.entries)
  }

  /** No leaf's path is, or extends, another's. */
  ghost predicate PrefixFree(leaves: seq<Leaf>) {
    forall i, j :: 0 <= i < |leaves| && 0 <= j < |leaves| && i != j ==> !(leaves[i].rel <= leaves[j].rel)
  }

  lemma PrefixUnder(key: string, a: seq<string>, b: seq<string>)
    ensures [key] + a <= [key] + b ==> a <= b
  {
    assert ([key] + a)[1..] == a && ([key] + b)[1..] == b;
  }

  lemma UnderPrefixFree(key: string, leaves: seq<Leaf>)
    requires PrefixFree(leaves)
    ensures PrefixFree(Under(key, leaves))
  {
    var u := Under(key, leaves);
    forall i, j | 0 <= i < |u| && 0 <= j < |u| && i != j ensures !(u[i].rel <= u[j].rel) {
      PrefixUnder(key, leaves[i].rel, leaves[j].rel);
    }
  }

  lemma {:induction false} LeavesStart(entries: seq<Entry>, path: seq<string>)
    ensures forall l <- Leaves(entries, path) :: l.rel != [] && exists e <- entries :: e.key == l.rel[0]
    decreases entries
  {
    if entries != [] {
      LeavesStart(entries[1..], path);
      LeafStarts(entries[0], path);
      assert entries[0] in entries;
      assert forall e <- entries[1..] :: e in entries;
    }
  }

  lemma LeafStarts(e: Entry, path: seq<string>)
    ensures forall l <- LeavesOf(e, path) :: l.rel != [] && l.rel[0] == e.key
  {
  }

  lemma {:induction false} LeavesPrefixFree(entries: seq<Entry>, path: seq<string>)
    requires DistinctKeys(entries)
    ensures PrefixFree(Leaves(entries, path))
    decreases entries
  {
    if entries != [] {
      EntryPrefixFree(entries[0], path);
      LeavesPrefixFree(entries[1..], path);
      LeafStarts(entries[0], path);
      LeavesStart(entries[1..], path);
      ApartPrefixFree(LeavesOf(entries[0], path), Leaves(entries[1..], path), entries[0].key);
    }
  }

  lemma {:induction false} EntryPrefixFree(e: Entry, path: seq<string>)
    requires DistinctEntry(e)
    ensures PrefixFree(LeavesOf(e, path))
    decreases e
  {
    if e.value.Tree? {
      LeavesPrefixFree(e.value.entries, path + [e.key]);
      UnderPrefixFree(e.key, Leaves(e.value.entries, path + [e.key]));
    }
  }

  lemma ApartPrefixFree(a: seq<Leaf>, b: seq<Leaf>, key: string)
    requires PrefixFree(a) && PrefixFree(b)
    requires (forall l <- a :: l.rel != [] && l.rel[0] == key) && (forall l <- b :: l.rel != [] && l.rel[0] != key)
    ensures PrefixFree(a + b)
  {
    var c := a + b;
    forall i, j | 0 <= i < |c| && 0 <= j < |c| && i != j ensures !(c[i].rel <= c[j].rel) {
      assert c[i] in a || c[i] in b;
      assert c[j] in a || c[j] in b;
      if i < |a| && j < |a| { assert c[i] == a[i] && c[j] == a[j]; }
      else if i >= |a| && j >= |a| { assert c[i] == b[i - |a|] && c[j] == b[j - |a|]; }
      else { assert c[i].rel[0] != c[j].rel[0]; }
    }
  }

  /** A leaf's path: from the root, what leads to the node and then on from it; made of identifiers; not too long. */
  predicate PathOk(l: Leaf, path: seq<string>, depth: nat) {
    && l.full == path + l.rel && 0 < |l.rel| && depth + |l.rel| <= MAX_DEPTH + 1
    && forall k <- l.rel :: Identifier(k)
  }

  lemma {:induction false} LeavesPaths(entries: seq<Entry>, path: seq<string>, depth: nat, internal: set<string>)
    requires depth <= MAX_DEPTH && Fit(entries, path, depth, internal)
    ensures forall l <- Leaves(entries, path) :: PathOk(l, path, depth)
    decreases entries
  {
    if entries != [] {
      EntryPaths(entries[0], path, depth, internal);
      LeavesPaths(entries[1..], path, depth, internal);
    }
  }

  lemma {:induction false} EntryPaths(e: Entry, path: seq<string>, depth: nat, internal: set<string>)
    requires depth <= MAX_DEPTH && FitEntry(e, path, depth, internal)
    ensures forall l <- LeavesOf(e, path) :: PathOk(l, path, depth)
    decreases e
  {
    if e.value.Tree? {
      var below := Leaves(e.value.entries, path + [e.key]);
      LeavesPaths(e.value.entries, path + [e.key], depth + 1, internal);
      forall l <- Under(e.key, below) ensures PathOk(l, path, depth) {
        var i :| 0 <= i < |below| && l == Under(e.key, below)[i];
        assert below[i] in below;
        assert path + [e.key] + below[i].rel == path + ([e.key] + below[i].rel);
      }
    }
  }

  lemma IdentifierHasNoDot(key: string)
    requires Identifier(key)
    ensures Free(key, '.')
  {
  }

  /** Splitting at the dots undoes flattening. */
  lemma KeySplits(full: seq<string>)
    requires full != [] && forall k <- full :: Identifier(k)
    ensures Split(Join(full, '.'), '.') == full
  {
    forall k <- full ensures Free(k, '.') { IdentifierHasNoDot(k); }
    SplitJoin(full, '.');
  }

  lemma JoinExtended(parts: seq<string>, rest: string)
    requires |parts| > 1
    ensures Join(parts, '.') + ['.'] + rest == parts[0] + ['.'] + (Join(parts[1..], '.') + ['.'] + rest)
  {
  }

  lemma {:induction false} SplitExtended(parts: seq<string>, rest: string)
    requires parts != [] && forall p <- parts :: Free(p, '.')
    ensures Split(Join(parts, '.') + ['.'] + rest, '.') == parts + Split(rest, '.')
    decreases |parts|
  {
    if |parts| == 1 {
      SplitPrefix(parts[0], rest, '.');
    } else {
      var tail, last := Join(parts[1..], '.') + ['.'] + rest, Split(rest, '.');
      assert Split(tail, '.') == parts[1..] + last by { SplitExtended(parts[1..], rest); }
      JoinExtended(parts, rest);
      SplitPrefix(parts[0], tail, '.');
      assert [parts[0]] + parts[1..] == parts;
      Assoc([parts[0]], parts[1..], last);
    }
  }

  /** Flattening an accepted tree gives at most 64 keys of at most four segments; no key occurs twice, and
      none extends another by further dotted segments. */
  lemma FlatKeysAreIndependent(tree: Binding, internal: set<string>, i: nat, j: nat, rest: string)
    requires Acceptable(tree, internal) && DistinctKeys(tree.entries)
    requires i < |Leaves(tree.entries, [])| && j < |Leaves(tree.entries, [])| && i != j
    ensures var flat := FlatAll(Leaves(tree.entries, []));
      |flat| <= 64 && flat[i].key != flat[j].key && flat[j].key != flat[i].key + ['.'] + rest
  {
    var leaves := Leaves(tree.entries, []);
    LeavesPrefixFree(tree.entries, []);
    LeavesPaths(tree.entries, [], 1, internal);
    assert leaves[i] in leaves && leaves[j] in leaves;
    var p, q := leaves[i].full, leaves[j].full;
    assert p == leaves[i].rel && q == leaves[j].rel;
    KeySplits(p);
    KeySplits(q);
    forall k <- p ensures Free(k, '.') { IdentifierHasNoDot(k); }
    SplitExtended(p, rest);
    SamePrefix(BINDING_PREFIX, Join(p, '.'), Join(q, '.'), rest);
  }

  lemma SamePrefix(prefix: string, x: string, y: string, rest: string)
    ensures prefix + x == prefix + y ==> x == y
    ensures prefix + y == prefix + x + ['.'] + rest ==> y == x + ['.'] + rest
  {
    assert (prefix + x)[|prefix|..] == x && (prefix + y)[|prefix|..] == y;
    assert (prefix + x + ['.'] + rest)[|prefix|..] == x + ['.'] + rest;
  }

  /** Every flat key has between one and four segments, each an identifier. */
  lemma FlatKeySegments(tree: Binding, internal: set<string>, i: nat)
    requires Acceptable(tree, internal) && i < |Leaves(tree.entries, [])|
    ensures var key := FlatAll(Leaves(tree.entries, []))[i].key;
      && BINDING_PREFIX <= key
      && var parts := Split(key[|BINDING_PREFIX|..], '.');
         1 <= |parts| <= 4 && forall p <- parts :: Identifier(p)
  {
    var leaves := Leaves(tree.entries, []);
    LeavesPaths(tree.entries, [], 1, internal);
    assert leaves[i] in leaves;
    KeySplits(leaves[i].full);
    assert FlatKey(leaves[i].full)[|BINDING_PREFIX|..] == Join(leaves[i].full, '.');
  }

  // ---- The inflation snippet ----

  /** A value of the inflated tree: a function that dispatches to a key, an object with its own properties
      in order, or a reference to something outside the tree. */
  datatype Value = Func(key: string) | Obj(props: seq<Prop>) | Outside(what: string)
  datatype Prop = Prop(name: string, value: Value)

  /** What every object inherits from Object.prototype to begin with, as far as binding keys can name it. */
  predicate OnPrototype(name: string) {
    name in {"constructor", "hasOwnProperty", "isPrototypeOf", "propertyIsEnumerable", "toLocaleString", "toString",
             "valueOf"}
  }

  /** The world outside the tree: what an object inherits under a name, and what becomes of the world when a
      function is assigned at a path below a value that is not an object of the tree. Assignments may reach
      Object.prototype itself, so nothing is said about what is inherited afterwards. */
  datatype Env<!W> = Env(inherits: (W, string) -> Option<string>, assign: (W, Value, seq<string>, Value) -> W)

  ghost predicate Pristine<W>(env: Env<W>, w: W) { forall name :: env.inherits(w, name).Some? <==> OnPrototype(name) }

  predicate Has(props: seq<Prop>, name: string) { exists p <- props :: p.name == name }

  function Get(props: seq<Prop>, name: string): Value
    requires Has(props, name)
  {
    if props[0].name == name then props[0].value else Get(props[1..], name)
  }

  /** node[name] = value */
  function Set(props: seq<Prop>, name: string, value: Value): seq<Prop> {
    if props == [] then [Prop(name, value)]
    else if props[0].name == name then [Prop(name, value)] + props[1..]
    else [props[0]] + Set(props[1..], name, value)
  }

  /** node[name] || {} */
  function ReadOrNew<W>(env: Env<W>, w: W, props: seq<Prop>, name: string): Value {
    if Has(props, name) then Get(props, name)
    else match env.inherits(w, name) case Some(what) => Outside(what) case None => Obj([])
  }

  /** An object's properties and the world around the tree. */
  datatype State<W> = State(props: seq<Prop>, w: W)

  /** Assigning a function at a path, making objects on the way. Below what is not an object of the tree the
      assignment goes into the world. */
  function Assign<W>(env: Env<W>, s: State<W>, parts: seq<string>, f: Value): State<W>
    requires parts != []
    decreases |parts|
  {
    if |parts| == 1 then s.(props := Set(s.props, parts[0], f))
    else
      match ReadOrNew(env, s.w, s.props, parts[0])
      case Obj(sub) =>
        var inner := Assign(env, State(sub, s.w), parts[1..], f);
        State(Set(s.props, parts[0], Obj(inner.props)), inner.w)
      case other => State(Set(s.props, parts[0], other), env.assign(s.w, other, parts[1..], f))
  }

  function Dispatcher(key: string): Value { Func(BINDING_PREFIX + key) }

  function AssignAll<W>(env: Env<W>, s: State<W>, keys: seq<string>): State<W>
    decreases |keys|
  {
    if keys == [] then s else AssignAll(env, Assign(env, s, Split(keys[0], '.'), Dispatcher(keys[0])), keys[1..])
  }

  method Inflate<W>(env: Env<W>, w: W, keys: seq<string>) returns (tree: Value, w': W)
    ensures tree.Obj? && State(tree.props, w') == AssignAll(env, State([], w), keys)
  {
    var s := State([], w);
    for i := 0 to |keys|
      invariant AssignAll(env, s, keys[i..]) == AssignAll(env, State([], w), keys)
    {
      var parts := Split(keys[i], '.');
      assert keys[i..][1..] == keys[i + 1..];
      s := Assign(env, s, parts, Dispatcher(keys[i]));
    }
    tree, w' := Obj(s.props), s.w;
  }

  // ---- What inflation rebuilds ----

  /** The tree without empty subtrees, each function dispatching to its own path. */
  function Pruned(entries: seq<Entry>, path: seq<string>): seq<Prop>
    decreases entries
  {
    if entries == [] then [] else PrunedEntry(entries[0], path) + Pruned(entries[1..], path)
  }

  function PrunedEntry(e: Entry, path: seq<string>): seq<Prop>
    decreases e
  {
    match e.value
    case Fn(_, _) => [Prop(e.key, Func(FlatKey(path + [e.key])))]
    case Tree(entries) =>
      if LeavesOf(e, path) == [] then [] else [Prop(e.key, Obj(Pruned(entries, path + [e.key])))]
    case Other => []
  }

  /** No subtree with a function in it goes by a name that objects inherit. */
  predicate Clean(entries: seq<Entry>, path: seq<string>)
    decreases entries
  {
    entries == [] || (CleanEntry(entries[0], path) && Clean(entries[1..], path))
  }

  predicate CleanEntry(e: Entry, path: seq<string>)
    decreases e
  {
    e.value.Tree? && LeavesOf(e, path) != [] ==> !OnPrototype(e.key) && Clean(e.value.entries, path + [e.key])
  }

  /** What inflation really builds, and what becomes of the world: a subtree whose name is inherited when its
      first function comes up stays what was inherited, and its functions are assigned out there. */
  function Built<W>(env: Env<W>, entries: seq<Entry>, path: seq<string>, w: W): State<W>
    decreases entries
  {
    if entries == [] then State([], w)
    else
      var first := BuiltEntry(env, entries[0], path, w);
      var rest := Built(env, entries[1..], path, first.w);
      State(first.props + rest.props, rest.w)
  }

  function BuiltEntry<W>(env: Env<W>, e: Entry, path: seq<string>, w: W): State<W>
    decreases e
  {
    match e.value
    case Fn(_, _) => State([Prop(e.key, Func(FlatKey(path + [e.key])))], w)
    case Tree(entries) =>
      if LeavesOf(e, path) == [] then State([], w)
      else (
        match env.inherits(w, e.key)
        case Some(what) =>
          State([Prop(e.key, Outside(what))], AssignBelow(env, w, Outside(what), Leaves(entries, path + [e.key])))
        case None =>
          var sub := Built(env, entries, path + [e.key], w);
          State([Prop(e.key, Obj(sub.props))], sub.w)
      )
    case Other => State([], w)
  }

  /** Assigning the functions of leaves below something outside the tree. */
  function AssignBelow<W>(env: Env<W>, w: W, target: Value, leaves: seq<Leaf>): W
    decreases |leaves|
  {
    if leaves == [] then w
    else AssignBelow(env, env.assign(w, target, leaves[0].rel, Func(FlatKey(leaves[0].full))), target, leaves[1..])
  }

  /** Assigning the functions of leaves, along their paths from the node. */
  function Place<W>(env: Env<W>, s: State<W>, leaves: seq<Leaf>): State<W>
    requires forall l <- leaves :: l.rel != []
    decreases |leaves|
  {
    if leaves == [] then s
    else
      assert leaves[0] in leaves;
      Place(env, Assign(env, s, leaves[0].rel, Func(FlatKey(leaves[0].full))), leaves[1..])
  }

  lemma {:induction false} PlaceConcat<W>(env: Env<W>, s: State<W>, a: seq<Leaf>, b: seq<Leaf>)
    requires forall l <- a + b :: l.rel != []
    ensures (forall l <- a :: l in a + b) && (forall l <- b :: l in a + b)
    ensures Place(env, s, a + b) == Place(env, Place(env, s, a), b)
    decreases |a|
  {
    if a == [] {
      assert a + b == b;
    } else {
      assert (a + b)[1..] == a[1..] + b && a[0] in a + b;
      PlaceConcat(env, Assign(env, s, a[0].rel, Func(FlatKey(a[0].full))), a[1..], b);
    }
  }

  lemma {:induction false} SetNew(props: seq<Prop>, name: string, v: Value)
    requires !Has(props, name)
    ensures Set(props, name, v) == props + [Prop(name, v)]
    decreases |props|
  {
    if props != [] {
      assert props[0] in props;
      SetNew(props[1..], name, v);
    }
  }

  lemma {:induction false} SetLast(props: seq<Prop>, name: string, u: Value, v: Value)
    requires !Has(props, name)
    ensures var p := props + [Prop(name, u)];
      Has(p, name) && Get(p, name) == u && Set(p, name, v) == props + [Prop(name, v)]
    decreases |props|
  {
    var p := props + [Prop(name, u)];
    assert p[|props|] in p;
    if props != [] {
      assert props[0] in props;
      assert p[1..] == props[1..] + [Prop(name, u)];
      SetLast(props[1..], name, u, v);
    }
  }

  /** More leaves under a name that already is an object of the tree. */
  lemma {:induction false} PlaceInside<W>(env: Env<W>, w: W, props: seq<Prop>, key: string, sub: seq<Prop>,
                                          leaves: seq<Leaf>)
    requires !Has(props, key) && forall l <- leaves :: l.rel != []
    ensures var inner := Place(env, State(sub, w), leaves);
      Place(env, State(props + [Prop(key, Obj(sub))], w), Under(key, leaves))
      == State(props + [Prop(key, Obj(inner.props))], inner.w)
    decreases |leaves|
  {
    if leaves != [] {
      var u, f := Under(key, leaves), Func(FlatKey(leaves[0].full));
      assert leaves[0] in leaves && u[0].rel[1..] == leaves[0].rel;
      var next := Assign(env, State(sub, w), leaves[0].rel, f);
      SetLast(props, key, Obj(sub), Obj(next.props));
      assert u[1..] == Under(key, leaves[1..]);
      PlaceInside(env, next.w, props, key, next.props, leaves[1..]);
    }
  }

  /** More leaves under a name that was inherited. */
  lemma {:induction false} PlaceOutside<W>(env: Env<W>, w: W, props: seq<Prop>, key: string, what: string,
                                           leaves: seq<Leaf>)
    requires !Has(props, key) && forall l <- leaves :: l.rel != []
    ensures var p := props + [Prop(key, Outside(what))];
      Place(env, State(p, w), Under(key, leaves)) == State(p, AssignBelow(env, w, Outside(what), leaves))
    decreases |leaves|
  {
    if leaves != [] {
      var u, f := Under(key, leaves), Func(FlatKey(leaves[0].full));
      assert leaves[0] in leaves && u[0].rel[1..] == leaves[0].rel;
      SetLast(props, key, Outside(what), Outside(what));
      assert u[1..] == Under(key, leaves[1..]);
      PlaceOutside(env, env.assign(w, Outside(what), leaves[0].rel, f), props, key, what, leaves[1..]);
    }
  }

  /** The leaves of a subtree, under a new name that is not inherited. */
  lemma PlaceNew<W>(env: Env<W>, s: State<W>, key: string, leaves: seq<Leaf>)
    requires !Has(s.props, key) && leaves != [] && (forall l <- leaves :: l.rel != []) && env.inherits(s.w, key).None?
    ensures var inner := Place(env, State([], s.w), leaves);
      Place(env, s, Under(key, leaves)) == State(s.props + [Prop(key, Obj(inner.props))], inner.w)
  {
    var u, f := Under(key, leaves), Func(FlatKey(leaves[0].full));
    assert leaves[0] in leaves && u[0].rel[1..] == leaves[0].rel && u[1..] == Under(key, leaves[1..]);
    var sub := Assign(env, State([], s.w), leaves[0].rel, f);
    SetNew(s.props, key, Obj(sub.props));
    PlaceInside(env, sub.w, s.props, key, sub.props, leaves[1..]);
  }

  /** And under one that is. */
  lemma PlaceInherited<W>(env: Env<W>, s: State<W>, key: string, leaves: seq<Leaf>, what: string)
    requires !Has(s.props, key) && leaves != [] && (forall l <- leaves :: l.rel != [])
    requires env.inherits(s.w, key) == Some(what)
    ensures Place(env, s, Under(key, leaves))
         == State(s.props + [Prop(key, Outside(what))], AssignBelow(env, s.w, Outside(what), leaves))
  {
    var u, f := Under(key, leaves), Func(FlatKey(leaves[0].full));
    assert leaves[0] in leaves && u[0].rel[1..] == leaves[0].rel && u[1..] == Under(key, leaves[1..]);
    SetNew(s.props, key, Outside(what));
    PlaceOutside(env, env.assign(s.w, Outside(what), leaves[0].rel, f), s.props, key, what, leaves[1..]);
  }

  predicate AllNew(props: seq<Prop>, entries: seq<Entry>) { forall e <- entries :: !Has(props, e.key) }

  lemma {:induction false} BuiltNames<W>(env: Env<W>, e: Entry, path: seq<string>, w: W)
    ensures forall p <- BuiltEntry(env, e, path, w).props :: p.name == e.key
  {
  }

  /** Placing the leaves of a node's entries adds what is built from them. */
  lemma {:induction false} PlaceBuilds<W>(env: Env<W>, s: State<W>, entries: seq<Entry>, path: seq<string>)
    requires DistinctKeys(entries) && AllNew(s.props, entries)
    ensures forall l <- Leaves(entries, path) :: l.rel != []
    ensures var b := Built(env, entries, path, s.w);
      Place(env, s, Leaves(entries, path)) == State(s.props + b.props, b.w)
    decreases entries
  {
    LeavesStart(entries, path);
    if entries != [] {
      var e, rest := entries[0], entries[1..];
      assert e in entries;
      PlaceConcat(env, s, LeavesOf(e, path), Leaves(rest, path));
      EntryBuilds(env, s, e, path);
      var first := BuiltEntry(env, e, path, s.w);
      BuiltNames(env, e, path, s.w);
      assert AllNew(s.props + first.props, rest) by {
        forall x <- rest ensures !Has(s.props + first.props, x.key) { assert x in entries; }
      }
      PlaceBuilds(env, State(s.props + first.props, first.w), rest, path);
      var later := Built(env, rest, path, first.w);
      Assoc(s.props, first.props, later.props);
    }
  }

  lemma {:induction false} EntryBuilds<W>(env: Env<W>, s: State<W>, e: Entry, path: seq<string>)
    requires DistinctEntry(e) && !Has(s.props, e.key)
    ensures forall l <- LeavesOf(e, path) :: l.rel != []
    ensures var b := BuiltEntry(env, e, path, s.w);
      Place(env, s, LeavesOf(e, path)) == State(s.props + b.props, b.w)
    decreases e
  {
    LeafStarts(e, path);
    match e.value
    case Fn(_, _) => SetNew(s.props, e.key, Func(FlatKey(path + [e.key])));
    case Tree(entries) =>
      var below, down := Leaves(entries, path + [e.key]), path + [e.key];
      PlaceBuilds(env, State([], s.w), entries, down);
      assert [] + Built(env, entries, down, s.w).props == Built(env, entries, down, s.w).props;
      if below != [] {
        match env.inherits(s.w, e.key)
        case Some(what) => PlaceInherited(env, s, e.key, below, what);
        case None => PlaceNew(env, s, e.key, below);
      } else {
        assert s.props + [] == s.props;
      }
    case Other => assert s.props + [] == s.props;
  }

  /** The keys without their prefix, as they are handed to the snippet. */
  function BareKeys(leaves: seq<Leaf>): (r: seq<string>)
    ensures |r| == |leaves| && forall i :: 0 <= i < |r| ==> r[i] == Join(leaves[i].full, '.')
  {
    seq(|leaves|, i requires 0 <= i < |leaves| => Join(leaves[i].full, '.'))
  }

  lemma {:induction false} KeysPlace<W>(env: Env<W>, s: State<W>, leaves: seq<Leaf>)
    requires forall l <- leaves :: PathOk(l, [], 1) && l.rel != []
    ensures AssignAll(env, s, BareKeys(leaves)) == Place(env, s, leaves)
    decreases |leaves|
  {
    if leaves != [] {
      var l := leaves[0];
      assert l in leaves && l.full == l.rel;
      KeySplits(l.full);
      assert BareKeys(leaves)[1..] == BareKeys(leaves[1..]);
      KeysPlace(env, Assign(env, s, l.rel, Func(FlatKey(l.full))), leaves[1..]);
    }
  }

  /** In a world where nothing but the built-in names is inherited yet, what is built is the pruned tree exactly
      for clean entries, and then the world is left alone. */
  lemma {:induction false} BuiltIffClean<W>(env: Env<W>, entries: seq<Entry>, path: seq<string>, w: W)
    requires Pristine(env, w)
    ensures Built(env, entries, path, w).props == Pruned(entries, path) <==> Clean(entries, path)
    ensures Clean(entries, path) ==> Built(env, entries, path, w).w == w
    decreases entries
  {
    if entries != [] {
      var e, rest := entries[0], entries[1..];
      var first := BuiltEntry(env, e, path, w);
      EntryIffClean(env, e, path, w);
      if CleanEntry(e, path) { BuiltIffClean(env, rest, path, w); }
      SameHeads(first.props, Built(env, rest, path, first.w).props, PrunedEntry(e, path), Pruned(rest, path));
    }
  }

  lemma {:induction false} EntryIffClean<W>(env: Env<W>, e: Entry, path: seq<string>, w: W)
    requires Pristine(env, w)
    ensures |BuiltEntry(env, e, path, w).props| == |PrunedEntry(e, path)|
    ensures BuiltEntry(env, e, path, w).props == PrunedEntry(e, path) <==> CleanEntry(e, path)
    ensures CleanEntry(e, path) ==> BuiltEntry(env, e, path, w).w == w
    decreases e
  {
    if e.value.Tree? && LeavesOf(e, path) != [] {
      var b, p := BuiltEntry(env, e, path, w).props, PrunedEntry(e, path);
      if !OnPrototype(e.key) { BuiltIffClean(env, e.value.entries, path + [e.key], w); }
      assert b == p <==> b[0].value == p[0].value;
    }
  }

  /** Inflating the keys of an accepted tree: what comes out and what becomes of the world, whatever the world
      lets objects inherit as assignments go out to it. */
  lemma InflationBuilds<W>(env: Env<W>, w: W, tree: Binding, internal: set<string>)
    requires Acceptable(tree, internal) && DistinctKeys(tree.entries)
    ensures AssignAll(env, State([], w), BareKeys(Leaves(tree.entries, []))) == Built(env, tree.entries, [], w)
  {
    LeavesPaths(tree.entries, [], 1, internal);
    LeavesStart(tree.entries, []);
    KeysPlace(env, State([], w), Leaves(tree.entries, []));
    PlaceBuilds(env, State([], w), tree.entries, []);
    assert [] + Built(env, tree.entries, [], w).props == Built(env, tree.entries, [], w).props;
  }

  /** It rebuilds the tree without its empty subtrees, each function under its own key, if and only if no
      subtree with functions in it goes by an inherited name; and then nothing outside the tree is touched. */
  lemma InflationRebuildsIffClean<W>(env: Env<W>, w: W, tree: Binding, internal: set<string>)
    requires Acceptable(tree, internal) && DistinctKeys(tree.entries) && Pristine(env, w)
    ensures var s := AssignAll(env, State([], w), BareKeys(Leaves(tree.entries, [])));
      && (s.props == Pruned(tree.entries, []) <==> Clean(tree.entries, []))
      && (Clean(tree.entries, []) ==> s.w == w)
  {
    InflationBuilds(env, w, tree, internal);
    BuiltIffClean(env, tree.entries, [], w);
  }

  /** The sandbox side of a flattened tree: strip the prefix, then inflate. */
  method FlattenThenInflate<W>(env: Env<W>, w: W, tree: Binding, internal: set<string>)
    returns (r: Verdict, inflated: Value, w': W)
    requires tree.Tree? && DistinctKeys(tree.entries) && Pristine(env, w)
    ensures r.Accepted? <==> Acceptable(tree, internal)
    ensures r.Accepted? ==> (inflated == Obj(Pruned(tree.entries, [])) <==> Clean(tree.entries, []))
  {
    var flat;
    r, flat := FlattenBindingTree(tree, internal);
    inflated, w' := Obj([]), w;
    if r.Accepted? {
      ghost var leaves := Leaves(tree.entries, []);
      assert forall i :: 0 <= i < |flat| ==> flat[i].key[|BINDING_PREFIX|..] == Join(leaves[i].full, '.');
      var keys := seq(|flat|, i requires 0 <= i < |flat| => flat[i].key[|BINDING_PREFIX|..]);
      assert keys == BareKeys(leaves);
      inflated, w' := Inflate(env, w, keys);
      InflationRebuildsIffClean(env, w, tree, internal);
    }
  }

  // ---- Trees that come out wrong ----

  lemma OneEntry<W>(env: Env<W>, w: W, e: Entry, path: seq<string>, depth: nat)
    ensures Leaves([e], path) == LeavesOf(e, path) && Pruned([e], path) == PrunedEntry(e, path)
    ensures Built(env, [e], path, w) == BuiltEntry(env, e, path, w)
    ensures Fit([e], path, depth, {}) == FitEntry(e, path, depth, {}) && DistinctKeys([e]) == DistinctEntry(e)
  {
    assert [e][1..] == [];
    var b := BuiltEntry(env, e, path, w);
    assert b.props + [] == b.props;
  }

  /** The functions of a subtree called "constructor" are not in the tree. */
  lemma ConstructorIsLost<W>(env: Env<W>, w: W, handler: nat, f: Entry, e: Entry)
    requires Pristine(env, w)
    requires f == Entry("f", Fn(handler, false)) && e == Entry("constructor", Tree([f]))
    ensures Acceptable(Tree([e]), {}) && DistinctKeys([e]) && env.inherits(w, "constructor").Some?
    ensures AssignAll(env, State([], w), BareKeys(Leaves([e], []))).props
         == [Prop("constructor", Outside(env.inherits(w, "constructor").value))]
    ensures Pruned([e], []) == [Prop("constructor", Obj([Prop("f", Func("__bind.constructor.f"))]))]
  {
    OneEntry(env, w, f, ["constructor"], 2);
    OneEntry(env, w, e, [], 1);
    assert [] + ["constructor"] == ["constructor"] && ["constructor"] + ["f"] == ["constructor", "f"];
    assert |LeavesOf(e, [])| == 1;
    InflationBuilds(env, w, Tree([e]), {});
    ConstructorKey();
  }

  lemma ConstructorKey()
    ensures FlatKey(["constructor", "f"]) == "__bind.constructor.f"
  {
    assert ["constructor", "f"][1..] == ["f"];
    assert Join(["constructor", "f"], '.') == "constructor.f";
  }

  /** A world that knows which names were put on Object.prototype: constructor.prototype.x puts x there. */
  function Polluted(): Env<set<string>> {
    Env((w: set<string>, name: string) => if name in w || OnPrototype(name) then Some(name) else None,
        (w: set<string>, target: Value, parts: seq<string>, f: Value) =>
          if target == Outside("constructor") && |parts| == 2 && parts[0] == "prototype" then w + {parts[1]} else w)
  }

  /** There an assignment through constructor.prototype is found by a later key: of the functions f and g in
      { constructor: { prototype: { foo: f } }, foo: { bar: g } } neither is in the tree. */
  lemma PrototypeIsPolluted(e1: Entry, e2: Entry, foo: Entry, bar: Entry)
    requires foo == Entry("foo", Fn(0, false)) && bar == Entry("bar", Fn(1, false))
    requires e1 == Entry("constructor", Tree([Entry("prototype", Tree([foo]))])) && e2 == Entry("foo", Tree([bar]))
    ensures Acceptable(Tree([e1, e2]), {}) && DistinctKeys([e1, e2]) && Pristine(Polluted(), {})
    ensures AssignAll(Polluted(), State([], {}), BareKeys(Leaves([e1, e2], []))).props
         == [Prop("constructor", Outside("constructor")), Prop("foo", Outside("foo"))]
  {
    PollutedTree(e1, e2, foo, bar);
    PollutedBuilds(e1, e2, foo, bar);
    InflationBuilds(Polluted(), {}, Tree([e1, e2]), {});
  }

  lemma PollutedTree(e1: Entry, e2: Entry, foo: Entry, bar: Entry)
    requires foo == Entry("foo", Fn(0, false)) && bar == Entry("bar", Fn(1, false))
    requires e1 == Entry("constructor", Tree([Entry("prototype", Tree([foo]))])) && e2 == Entry("foo", Tree([bar]))
    ensures Acceptable(Tree([e1, e2]), {}) && DistinctKeys([e1, e2])
  {
    var proto := Entry("prototype", Tree([foo]));
    assert [] + ["constructor"] == ["constructor"] && ["constructor"] + ["prototype"] == ["constructor", "prototype"];
    assert [] + ["foo"] == ["foo"];
    OneLeaf(foo, ["constructor", "prototype"], 3);
    OneBranch(proto, foo, ["constructor"], 2);
    OneBranch(e1, proto, [], 1);
    OneLeaf(bar, ["foo"], 2);
    OneBranch(e2, bar, [], 1);
    assert [e1, e2][1..] == [e2] && [e2][1..] == [];
    assert Leaves([e1, e2], []) == LeavesOf(e1, []) + Leaves([e2], []);
  }

  predicate Slim(e: Entry, path: seq<string>, depth: nat) {
    FitEntry(e, path, depth, {}) && DistinctEntry(e) && |LeavesOf(e, path)| == 1
  }

  lemma OneLeaf(e: Entry, path: seq<string>, depth: nat)
    requires e.value.Fn? && Identifier(e.key) && e.key[0] != '_'
    ensures Slim(e, path, depth)
  {
  }

  lemma OneBranch(e: Entry, below: Entry, path: seq<string>, depth: nat)
    requires e.value == Tree([below]) && Identifier(e.key) && e.key[0] != '_' && depth < MAX_DEPTH
    requires Slim(below, path + [e.key], depth + 1)
    ensures Slim(e, path, depth) && |Leaves([e], path)| == 1
  {
    assert [below][1..] == [] && [e][1..] == [];
    assert Leaves([below], path + [e.key]) == LeavesOf(below, path + [e.key]);
    assert Leaves([e], path) == LeavesOf(e, path);
  }

  lemma PollutedBuilds(e1: Entry, e2: Entry, foo: Entry, bar: Entry)
    requires foo == Entry("foo", Fn(0, false)) && bar == Entry("bar", Fn(1, false))
    requires e1 == Entry("constructor", Tree([Entry("prototype", Tree([foo]))])) && e2 == Entry("foo", Tree([bar]))
    ensures Built(Polluted(), [e1, e2], [], {}).props
         == [Prop("constructor", Outside("constructor")), Prop("foo", Outside("foo"))]
  {
    var env, proto := Polluted(), Entry("prototype", Tree([foo]));
    assert [e1, e2][1..] == [e2];
    OneEntry(env, {}, foo, ["constructor", "prototype"], 3);
    OneEntry(env, {}, proto, ["constructor"], 2);
    OneEntry(env, {"foo"}, bar, ["foo"], 2);
    OneEntry(env, {"foo"}, e2, [], 1);
    assert [] + ["constructor"] == ["constructor"] && ["constructor"] + ["prototype"] == ["constructor", "prototype"];
    var below := Leaves([proto], ["constructor"]);
    assert |below| == 1 && below[0].rel == ["prototype"] + ["foo"] == ["prototype", "foo"];
    assert below[1..] == [];
    assert AssignBelow(env, {}, Outside("constructor"), below) == {} + {"foo"} == {"foo"};
    assert BuiltEntry(env, e1, [], {}) == State([Prop("constructor", Outside("constructor"))], {"foo"});
    assert [] + ["foo"] == ["foo"];
    assert BuiltEntry(env, e2, [], {"foo"}).props == [Prop("foo", Outside("foo"))];
  }
}
