/** The "exports" and "imports" fields of package.json. */
module PackageMaps {
  import opened Frames
  import opened TextOps

  /** A parsed JSON value; the fields of an object are in enumeration order. */
  datatype Json =
    | Null
    | Boolean(flag: bool)
    | Number(number: real)
    | Str(text: string)
    | Arr(items: seq<Json>)
    | Obj(fields: seq<Field>)

  datatype Field = Field(key: string, value: Json)

  datatype Mode = Require | Import

  // ---- Strings ----

  predicate EndsWith(s: string, suffix: string) { |suffix| <= |s| && s[|s| - |suffix|..] == suffix }

  /** s.slice(i, j) for non-negative i: empty when the bounds cross. */
  function Slice(s: string, i: nat, j: int): string { if i <= j <= |s| then s[i..j] else "" }

  /** What a replacement text stands for: $$, $&, $` and $' have their JavaScript meaning. */
  function Expand(w: string, before: string, after: string): string {
    if w == "" then ""
    else if |w| >= 2 && w[0] == '$' && w[1] == '$' then "$" + Expand(w[2..], before, after)
    else if |w| >= 2 && w[0] == '$' && w[1] == '&' then "*" + Expand(w[2..], before, after)
    else if |w| >= 2 && w[0] == '$' && w[1] == '`' then before + Expand(w[2..], before, after)
    else if |w| >= 2 && w[0] == '$' && w[1] == '\'' then after + Expand(w[2..], before, after)
    else [w[0]] + Expand(w[1..], before, after)
  }

  /** (done + s).replaceAll("*", w), from where done ends. */
  function ReplaceStars(done: string, s: string, w: string): string
    decreases |s|
  {
    if s == "" then ""
    else if s[0] == '*' then Expand(w, done, s[1..]) + ReplaceStars(done + "*", s[1..], w)
    else [s[0]] + ReplaceStars(done + [s[0]], s[1..], w)
  }

  // ---- Pattern keys ----

  /** The parts of a key around its first star. */
  function Prefix(key: string): string { Split(key, '*')[0] }
  function Suffix(key: string): string { if |Split(key, '*')| > 1 then Split(key, '*')[1] else "" }

  predicate Matches(key: string, name: string) {
    '*' in key && Prefix(key) <= name && EndsWith(name, Suffix(key))
  }

  function Wildcard(key: string, name: string): string { Slice(name, |Prefix(key)|, |name| - |Suffix(key)|) }

  // ---- Targets ----

  function KeyIndex(fields: seq<Field>, key: string): (i: nat)
    ensures i <= |fields|
    ensures i < |fields| ==> fields[i].key == key
    ensures forall j :: 0 <= j < i ==> fields[j].key != key
  {
    if fields == [] || fields[0].key == key then 0 else 1 + KeyIndex(fields[1..], key)
  }

  function Lookup(fields: seq<Field>, key: string): Option<Json> {
    var i := KeyIndex(fields, key);
    if i < |fields| then Some(fields[i].value) else None
  }

  /** Neither null nor the empty string. */
  predicate Truthy(t: Option<string>) { t.Some? && t.value != "" }

  function Order(mode: Mode): seq<string> {
    if mode == Import then ["import", "node", "module", "default", "require"]
    else ["require", "node", "default", "import", "module"]
  }

  /** The values of a conditions object in the order they are tried: by condition, then all of them. */
  function TryOrder(fields: seq<Field>, order: seq<string>): (idx: seq<nat>)
    ensures forall i <- idx :: i < |fields|
    decreases |order|
  {
    if order == [] then seq(|fields|, i requires 0 <= i < |fields| => i)
    else if KeyIndex(fields, order[0]) < |fields| then [KeyIndex(fields, order[0])] + TryOrder(fields, order[1..])
    else TryOrder(fields, order[1..])
  }

  /** resolveExportsTarget */
  function ExportsTarget(field: Json, subpath: string, mode: Mode): Option<string>
    decreases field, 1, 0
  {
    match field
    case Str(text) => if subpath == "." then Some(text) else None
    case Arr(items) => FirstItem(field, 0, subpath, mode)
    case Obj(fields) =>
      if subpath == "." && !(exists f <- fields :: "./" <= f.key) then
        FirstOf(field, TryOrder(fields, Order(mode)), mode)
      else if KeyIndex(fields, subpath) < |fields| then
        ExportsTarget(fields[KeyIndex(fields, subpath)].value, ".", mode)
      else PatternTarget(field, 0, subpath, mode)
    case _ => None
  }

  function FirstItem(field: Json, i: nat, subpath: string, mode: Mode): Option<string>
    requires field.Arr? && i <= |field.items|
    decreases field, 0, |field.items| - i
  {
    if i == |field.items| then None
    else
      var resolved := ExportsTarget(field.items[i], subpath, mode);
      if Truthy(resolved) then resolved else FirstItem(field, i + 1, subpath, mode)
  }

  /** resolveConditionalTarget */
  function FirstOf(field: Json, idx: seq<nat>, mode: Mode): Option<string>
    requires field.Obj? && forall i <- idx :: i < |field.fields|
    decreases field, 0, |idx|
  {
    if idx == [] then None
    else
      assert idx[0] in idx && forall i <- idx[1..] :: i in idx;
      var resolved := ExportsTarget(field.fields[idx[0]].value, ".", mode);
      if Truthy(resolved) then resolved else FirstOf(field, idx[1..], mode)
  }

  function PatternTarget(field: Json, i: nat, name: string, mode: Mode): Option<string>
    requires field.Obj? && i <= |field.fields|
    decreases field, 0, |field.fields| - i
  {
    if i == |field.fields| then None
    else
      var key := field.fields[i].key;
      var resolved := ExportsTarget(field.fields[i].value, ".", mode);
      if Matches(key, name) && Truthy(resolved) then Some(ReplaceStars("", resolved.value, Wildcard(key, name)))
      else PatternTarget(field, i + 1, name, mode)
  }

  /** resolveImportsTarget */
  function ImportsTarget(field: Json, specifier: string, mode: Mode): Option<string>
    decreases field, 1, 0
  {
    match field
    case Str(text) => Some(text)
    case Arr(items) => FirstImport(field, 0, specifier, mode)
    case Obj(fields) =>
      if KeyIndex(fields, specifier) < |fields| then ExportsTarget(fields[KeyIndex(fields, specifier)].value, ".", mode)
      else PatternTarget(field, 0, specifier, mode)
    case _ => None
  }

  function FirstImport(field: Json, i: nat, specifier: string, mode: Mode): Option<string>
    requires field.Arr? && i <= |field.items|
    decreases field, 0, |field.items| - i
  {
    if i == |field.items| then None
    else
      var resolved := ImportsTarget(field.items[i], specifier, mode);
      if Truthy(resolved) then resolved else FirstImport(field, i + 1, specifier, mode)
  }

  // ---- Properties ----

  /** A star in a pattern stands for the part of the name between prefix and suffix; where those two
      overlap in the name it stands for nothing. */
  lemma WildcardFillsTheGap(key: string, name: string)
    requires Matches(key, name)
    ensures |Prefix(key)| + |Suffix(key)| <= |name| ==> name == Prefix(key) + Wildcard(key, name) + Suffix(key)
    ensures |Prefix(key)| + |Suffix(key)| > |name| ==> Wildcard(key, name) == ""
  {
  }

  /** Without a dollar sign a replacement text stands for itself. */
  lemma {:induction false} ExpandPlain(w: string, before: string, after: string)
    requires '$' !in w
    ensures Expand(w, before, after) == w
  {
    if w != "" {
      ExpandPlain(w[1..], before, after);
      assert w[0] in w && w == [w[0]] + w[1..];
    }
  }

  /** A text without stars is left alone; otherwise every star becomes the wildcard. */
  lemma {:induction false} ReplaceStarsJoins(done: string, s: string, w: string)
    requires '$' !in w
    ensures ReplaceStars(done, s, w) == Glued(Split(s, '*'), w)
    decreases |s|
  {
    if s != "" {
      var rest := Split(s[1..], '*');
      if s[0] == '*' {
        ReplaceStarsJoins(done + "*", s[1..], w);
        ExpandPlain(w, done, s[1..]);
        GluedStar(rest, w);
      } else {
        ReplaceStarsJoins(done + [s[0]], s[1..], w);
        GluedChar(s[0], rest, w);
      }
    }
  }

  lemma GluedStar(rest: seq<string>, w: string)
    requires rest != []
    ensures Glued([[]] + rest, w) == w + Glued(rest, w)
  {
    assert ([[]] + rest)[1..] == rest;
  }

  lemma GluedChar(c: char, rest: seq<string>, w: string)
    requires rest != []
    ensures Glued([[c] + rest[0]] + rest[1..], w) == [c] + Glued(rest, w)
  {
    assert ([[c] + rest[0]] + rest[1..])[1..] == rest[1..];
  }

  /** parts.join(w) */
  function Glued(parts: seq<string>, w: string): string {
    if parts == [] then "" else if |parts| == 1 then parts[0] else parts[0] + w + Glued(parts[1..], w)
  }

  /** The value of a key is there and gives a target. */
  predicate Gives(fields: seq<Field>, key: string, mode: Mode) {
    var value := Lookup(fields, key);
    value.Some? && Truthy(ExportsTarget(value.value, ".", mode))
  }

  /** Of a conditions object the first condition of the mode's order that gives a target decides. */
  lemma ConditionsInOrder(field: Json, mode: Mode, order: seq<string>, k: nat)
    requires field.Obj? && !(exists f <- field.fields :: "./" <= f.key)
    requires mode == Import ==> order == ["import", "node", "module", "default", "require"]
    requires mode == Require ==> order == ["require", "node", "default", "import", "module"]
    requires k < |order| && Gives(field.fields, order[k], mode)
    requires forall j :: 0 <= j < k ==> !Gives(field.fields, order[j], mode)
    ensures ExportsTarget(field, ".", mode) == ExportsTarget(Lookup(field.fields, order[k]).value, ".", mode)
  {
    FirstOfOrder(field, order, mode, k);
  }

  lemma {:induction false} FirstOfOrder(field: Json, order: seq<string>, mode: Mode, k: nat)
    requires field.Obj? && k < |order| && Gives(field.fields, order[k], mode)
    requires forall j :: 0 <= j < k ==> !Gives(field.fields, order[j], mode)
    ensures FirstOf(field, TryOrder(field.fields, order), mode)
         == ExportsTarget(Lookup(field.fields, order[k]).value, ".", mode)
    decreases k
  {
    FirstOfStep(field, order, mode);
    if k > 0 {
      var later: nat := k - 1;
      assert order[1..][later] == order[k];
      FirstOfOrder(field, order[1..], mode, later);
    }
  }

  /** A condition that gives no target is passed over. */
  lemma FirstOfStep(field: Json, order: seq<string>, mode: Mode)
    requires field.Obj? && order != []
    ensures FirstOf(field, TryOrder(field.fields, order), mode) ==
      if Gives(field.fields, order[0], mode) then ExportsTarget(Lookup(field.fields, order[0]).value, ".", mode)
      else FirstOf(field, TryOrder(field.fields, order[1..]), mode)
  {
    var i, rest := KeyIndex(field.fields, order[0]), TryOrder(field.fields, order[1..]);
    if i < |field.fields| { assert ([i] + rest)[0] == i && ([i] + rest)[1..] == rest; }
  }

  /** If no condition gives one, the first field of all that does decides. */
  lemma OtherFieldsLast(field: Json, mode: Mode, k: nat)
    requires field.Obj? && !(exists f <- field.fields :: "./" <= f.key) && k < |field.fields|
    requires forall c <- ["import", "require", "node", "default", "module"] :: !Gives(field.fields, c, mode)
    requires Truthy(ExportsTarget(field.fields[k].value, ".", mode))
    requires forall j :: 0 <= j < k ==> !Truthy(ExportsTarget(field.fields[j].value, ".", mode))
    ensures ExportsTarget(field, ".", mode) == ExportsTarget(field.fields[k].value, ".", mode)
  {
    NoneGives(field, Order(mode), mode);
    FirstField(field, seq(|field.fields|, i requires 0 <= i < |field.fields| => i), mode, k);
  }

  lemma {:induction false} NoneGives(field: Json, order: seq<string>, mode: Mode)
    requires field.Obj? && forall c <- order :: !Gives(field.fields, c, mode)
    ensures FirstOf(field, TryOrder(field.fields, order), mode) == FirstOf(field, TryOrder(field.fields, []), mode)
    decreases |order|
  {
    if order != [] {
      assert order[0] in order;
      FirstOfStep(field, order, mode);
      NoneGives(field, order[1..], mode);
    }
  }

  lemma {:induction false} FirstField(field: Json, idx: seq<nat>, mode: Mode, k: nat)
    requires field.Obj? && (forall j :: 0 <= j < |idx| ==> idx[j] < |field.fields|) && k < |idx|
    requires Truthy(ExportsTarget(field.fields[idx[k]].value, ".", mode))
    requires forall j :: 0 <= j < k ==> !Truthy(ExportsTarget(field.fields[idx[j]].value, ".", mode))
    ensures FirstOf(field, idx, mode) == ExportsTarget(field.fields[idx[k]].value, ".", mode)
    decreases k
  {
    if k > 0 {
      var later: nat := k - 1;
      assert idx[1..][later] == idx[k];
      FirstField(field, idx[1..], mode, later);
    }
  }

  /** A text stands for the package itself only; a subpath goes by its own key, or else by the patterns. */
  lemma ExportsForms(fields: seq<Field>, text: string, subpath: string, mode: Mode)
    ensures ExportsTarget(Str(text), subpath, mode) == if subpath == "." then Some(text) else None
    ensures ExportsTarget(Null, subpath, mode) == None
    ensures "./" <= subpath && Lookup(fields, subpath).Some? ==>
      ExportsTarget(Obj(fields), subpath, mode) == ExportsTarget(Lookup(fields, subpath).value, ".", mode)
    ensures "./" <= subpath && Lookup(fields, subpath).None? ==>
      ExportsTarget(Obj(fields), subpath, mode) == PatternTarget(Obj(fields), 0, subpath, mode)
  {
  }

  predicate PatternApplies(f: Field, name: string, mode: Mode) {
    Matches(f.key, name) && Truthy(ExportsTarget(f.value, ".", mode))
  }

  /** The target of a pattern that applies. */
  function Filled(f: Field, name: string, mode: Mode): string
    requires PatternApplies(f, name, mode)
  {
    ReplaceStars("", ExportsTarget(f.value, ".", mode).value, Wildcard(f.key, name))
  }

  lemma PatternStep(field: Json, i: nat, name: string, mode: Mode)
    requires field.Obj? && i < |field.fields|
    ensures PatternTarget(field, i, name, mode)
         == if PatternApplies(field.fields[i], name, mode) then Some(Filled(field.fields[i], name, mode))
            else PatternTarget(field, i + 1, name, mode)
  {
  }

  /** The first pattern from i on that applies, or the number of fields. */
  function FirstApplying(fields: seq<Field>, i: nat, name: string, mode: Mode): (k: nat)
    requires i <= |fields|
    ensures i <= k <= |fields| && (k < |fields| ==> PatternApplies(fields[k], name, mode))
    ensures forall j :: i <= j < k ==> !PatternApplies(fields[j], name, mode)
    decreases |fields| - i
  {
    if i == |fields| || PatternApplies(fields[i], name, mode) then i else FirstApplying(fields, i + 1, name, mode)
  }

  /** Without its own key a name goes by the first pattern that matches and resolves, or by none. */
  lemma {:induction false} FirstPatternWins(field: Json, i: nat, name: string, mode: Mode)
    requires field.Obj? && i <= |field.fields|
    ensures var k := FirstApplying(field.fields, i, name, mode);
      PatternTarget(field, i, name, mode) ==
      if k < |field.fields| then Some(Filled(field.fields[k], name, mode)) else None
    decreases |field.fields| - i
  {
    if i < |field.fields| {
      PatternStep(field, i, name, mode);
      FirstPatternWins(field, i + 1, name, mode);
    }
  }

  /** t is one of the strings written in the JSON value. */
  ghost predicate Written(field: Json, t: string)
    decreases field
  {
    match field
    case Str(text) => t == text
    case Arr(items) => exists i :: 0 <= i < |items| && Written(items[i], t)
    case Obj(fields) => exists i :: 0 <= i < |fields| && Written(fields[i].value, t)
    case _ => false
  }

  /** t comes from a written string by filling in stars any number of times. */
  ghost predicate Derived(field: Json, t: string, n: nat)
    decreases n
  {
    Written(field, t) || (n > 0 && exists u, w :: Derived(field, u, n - 1) && t == ReplaceStars("", u, w))
  }

  ghost predicate Comes(field: Json, t: string) { exists n: nat :: Derived(field, t, n) }

  lemma {:induction false} DerivedLifts(part: Json, whole: Json, t: string, n: nat)
    requires Derived(part, t, n) && forall u :: Written(part, u) ==> Written(whole, u)
    ensures Derived(whole, t, n)
    decreases n
  {
    if !Written(part, t) {
      var u, w :| Derived(part, u, n - 1) && t == ReplaceStars("", u, w);
      DerivedLifts(part, whole, u, n - 1);
    }
  }

  lemma ItemComes(field: Json, i: nat, t: string)
    requires field.Arr? && i < |field.items| && Comes(field.items[i], t)
    ensures Comes(field, t)
  {
    var n: nat :| Derived(field.items[i], t, n);
    DerivedLifts(field.items[i], field, t, n);
  }

  lemma FieldComes(field: Json, i: nat, t: string)
    requires field.Obj? && i < |field.fields| && Comes(field.fields[i].value, t)
    ensures Comes(field, t)
  {
    var n: nat :| Derived(field.fields[i].value, t, n);
    DerivedLifts(field.fields[i].value, field, t, n);
  }

  lemma FilledComes(field: Json, u: string, w: string)
    requires Comes(field, u)
    ensures Comes(field, ReplaceStars("", u, w))
  {
    var n: nat :| Derived(field, u, n);
    assert Derived(field, ReplaceStars("", u, w), n + 1);
  }

  /** No target is invented: it is a string of the "exports" field, up to filled-in stars. */
  lemma {:induction false} ExportsTargetComes(field: Json, subpath: string, mode: Mode)
    requires ExportsTarget(field, subpath, mode).Some?
    ensures Comes(field, ExportsTarget(field, subpath, mode).value)
    decreases field, 1, 0
  {
    match field
    case Str(text) => assert Derived(field, text, 0);
    case Arr(items) => FirstItemComes(field, 0, subpath, mode);
    case Obj(fields) =>
      if subpath == "." && !(exists f <- fields :: "./" <= f.key) {
        FirstOfComes(field, TryOrder(fields, Order(mode)), mode);
      } else if KeyIndex(fields, subpath) < |fields| {
        var i := KeyIndex(fields, subpath);
        ExportsTargetComes(fields[i].value, ".", mode);
        FieldComes(field, i, ExportsTarget(field, subpath, mode).value);
      } else {
        PatternTargetComes(field, 0, subpath, mode);
      }
  }

  lemma {:induction false} FirstItemComes(field: Json, i: nat, subpath: string, mode: Mode)
    requires field.Arr? && i <= |field.items| && FirstItem(field, i, subpath, mode).Some?
    ensures Comes(field, FirstItem(field, i, subpath, mode).value)
    decreases field, 0, |field.items| - i
  {
    var resolved := ExportsTarget(field.items[i], subpath, mode);
    if Truthy(resolved) {
      ExportsTargetComes(field.items[i], subpath, mode);
      ItemComes(field, i, resolved.value);
    } else {
      FirstItemComes(field, i + 1, subpath, mode);
    }
  }

  lemma {:induction false} FirstOfComes(field: Json, idx: seq<nat>, mode: Mode)
    requires field.Obj? && (forall i <- idx :: i < |field.fields|) && FirstOf(field, idx, mode).Some?
    ensures Comes(field, FirstOf(field, idx, mode).value)
    decreases field, 0, |idx|
  {
    assert idx[0] in idx && forall i <- idx[1..] :: i in idx;
    var resolved := ExportsTarget(field.fields[idx[0]].value, ".", mode);
    if Truthy(resolved) {
      ExportsTargetComes(field.fields[idx[0]].value, ".", mode);
      FieldComes(field, idx[0], resolved.value);
    } else {
      FirstOfComes(field, idx[1..], mode);
    }
  }

  lemma {:induction false} PatternTargetComes(field: Json, i: nat, name: string, mode: Mode)
    requires field.Obj? && i <= |field.fields| && PatternTarget(field, i, name, mode).Some?
    ensures Comes(field, PatternTarget(field, i, name, mode).value)
    decreases field, 0, |field.fields| - i
  {
    var key := field.fields[i].key;
    var resolved := ExportsTarget(field.fields[i].value, ".", mode);
    if Matches(key, name) && Truthy(resolved) {
      ExportsTargetComes(field.fields[i].value, ".", mode);
      FieldComes(field, i, resolved.value);
      FilledComes(field, resolved.value, Wildcard(key, name));
    } else {
      PatternTargetComes(field, i + 1, name, mode);
    }
  }

  lemma {:induction false} ImportsTargetComes(field: Json, specifier: string, mode: Mode)
    requires ImportsTarget(field, specifier, mode).Some?
    ensures Comes(field, ImportsTarget(field, specifier, mode).value)
    decreases field, 1, 0
  {
    match field
    case Str(text) => assert Derived(field, text, 0);
    case Arr(items) => FirstImportComes(field, 0, specifier, mode);
    case Obj(fields) =>
      if KeyIndex(fields, specifier) < |fields| {
        var i := KeyIndex(fields, specifier);
        ExportsTargetComes(fields[i].value, ".", mode);
        FieldComes(field, i, ImportsTarget(field, specifier, mode).value);
      } else {
        PatternTargetComes(field, 0, specifier, mode);
      }
  }

  lemma {:induction false} FirstImportComes(field: Json, i: nat, specifier: string, mode: Mode)
    requires field.Arr? && i <= |field.items| && FirstImport(field, i, specifier, mode).Some?
    ensures Comes(field, FirstImport(field, i, specifier, mode).value)
    decreases field, 0, |field.items| - i
  {
    var resolved := ImportsTarget(field.items[i], specifier, mode);
    if Truthy(resolved) {
      ImportsTargetComes(field.items[i], specifier, mode);
      ItemComes(field, i, resolved.value);
    } else {
      FirstImportComes(field, i + 1, specifier, mode);
    }
  }
}
