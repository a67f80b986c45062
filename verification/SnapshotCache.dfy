/**
 The snapshot cache: an LRU list and a table of in-flight creations behind one mutex, held only for
 the look-up and for the publication, never while a snapshot is created. Each critical section is
 a step; a run is any interleaving of any number of threads, with any creation times and outcomes.
 */
module SnapshotCache {
  import opened Frames

  type Code = Text
  type Hash = u64

  /** A snapshot remembers the bridge code it was created from. */
  datatype Blob = Blob(code: Code, bytes: seq<byte>)
  type Outcome = Result<Blob, Text>
  datatype Entry = Entry(hash: Hash, blob: Blob)

  /** What the mutex protects. An in-flight entry is an index into results, None until it is filled. */
  datatype Inner = Inner(entries: seq<Entry>, inFlight: map<Hash, nat>, results: seq<Option<Outcome>>)

  datatype Claim = Hit(blob: Blob) | Wait(entry: nat) | Create(entry: nat)

  /** The first position of a hash, or the length of the list. */
  function Position(entries: seq<Entry>, hash: Hash): (p: nat)
    ensures p <= |entries| && (p < |entries| ==> entries[p].hash == hash)
    ensures forall i :: 0 <= i < p ==> entries[i].hash != hash
  {
    if entries == [] || entries[0].hash == hash then 0 else 1 + Position(entries[1..], hash)
  }

  /** First critical section: hit, join a creation in progress, or claim the creation. */
  function LookUp(inner: Inner, hash: Hash): (Inner, Claim) {
    var p := Position(inner.entries, hash);
    if p < |inner.entries| then
      var e := inner.entries[p];
      (inner.(entries := Without(inner.entries, p) + [e]), Hit(e.blob))
    else if hash in inner.inFlight then (inner, Wait(inner.inFlight[hash]))
    else
      var id := |inner.results|;
      (inner.(inFlight := inner.inFlight[hash := id], results := inner.results + [None]), Create(id))
  }

  /** Removing the front of an empty list is where the second critical section would panic. */
  predicate Panics(entries: seq<Entry>, max: nat, outcome: Outcome) {
    outcome.Ok? && |entries| >= max && entries == []
  }

  function Stored(entries: seq<Entry>, max: nat, hash: Hash, outcome: Outcome): seq<Entry>
    requires !Panics(entries, max, outcome)
  {
    if outcome.Err? then entries
    else (if |entries| >= max then entries[1..] else entries) + [Entry(hash, outcome.value)]
  }

  /** Second critical section: store a success, fill the in-flight entry, unregister it. */
  function Publish(inner: Inner, max: nat, hash: Hash, outcome: Outcome): Inner
    requires !Panics(inner.entries, max, outcome)
  {
    Inner(Stored(inner.entries, max, hash, outcome),
          inner.inFlight - {hash},
          if hash in inner.inFlight && inner.inFlight[hash] < |inner.results|
          then inner.results[inner.inFlight[hash] := Some(outcome)] else inner.results)
  }

  /** The same two critical sections on the mutable cache. */
  class Cache {
    const maxEntries: nat
    var entries: seq<Entry>
    var inFlight: map<Hash, nat>
    var results: seq<Option<Outcome>>

    constructor (maxEntries: nat)
      ensures this.maxEntries == maxEntries && Contents() == Inner([], map[], [])
    {
      this.maxEntries, entries, inFlight, results := maxEntries, [], map[], [];
    }

    ghost function Contents(): Inner
      reads this
    {
      Inner(entries, inFlight, results)
    }

    method Begin(hash: Hash) returns (claim: Claim)
      modifies this
      ensures (Contents(), claim) == LookUp(old(Contents()), hash)
      ensures claim.Hit? <==> hash in Hashes(old(entries))
      ensures claim.Hit? ==>
        exists p ::
          && 0 <= p < |old(entries)| && Entry(hash, claim.blob) == old(entries)[p]
          && entries == old(entries)[..p] + old(entries)[p+1..] + [old(entries)[p]]
      ensures claim.Wait? ==>
        hash in old(inFlight) && old(inFlight)[hash] == claim.entry && Contents() == old(Contents())
      ensures claim.Create? ==>
        && hash !in old(inFlight) && entries == old(entries)
        && inFlight == old(inFlight)[hash := claim.entry] && results == old(results) + [None]
    {
      var p := 0;
      while p < |entries| && entries[p].hash != hash
        invariant p <= |entries| && forall i :: 0 <= i < p ==> entries[i].hash != hash
      {
        p := p + 1;
      }
      if p < |entries| {
        var entry := entries[p];
        assert entry in entries;
        entries := entries[..p] + entries[p+1..];
        entries := entries + [entry];
        return Hit(entry.blob);
      }
      if hash in inFlight { return Wait(inFlight[hash]); }
      var id := |results|;
      results := results + [None];
      inFlight := inFlight[hash := id];
      claim := Create(id);
    }

    method Finish(hash: Hash, outcome: Outcome)
      requires !Panics(entries, maxEntries, outcome)
      requires hash in inFlight ==> inFlight[hash] < |results|
      modifies this
      ensures Contents() == Publish(old(Contents()), maxEntries, hash, outcome)
    {
      if outcome.Ok? {
        if |entries| >= maxEntries { entries := entries[1..]; }
        entries := entries + [Entry(hash, outcome.value)];
      }
      if hash in inFlight {
        results := results[inFlight[hash] := Some(outcome)];
        inFlight := inFlight - {hash};
      } else {
        assert inFlight - {hash} == inFlight;
      }
    }
  }

  // ---- The abstract LRU map ----

  datatype Cell = Cell(blob: Blob, lastUse: nat)
  datatype Lru = Lru(clock: nat, cells: map<Hash, Cell>)

  ghost predicate LeastRecent(cells: map<Hash, Cell>, h: Hash) {
    h in cells && forall g <- cells :: cells[h].lastUse <= cells[g].lastUse
  }

  function Touch(l: Lru, h: Hash): Lru
    requires h in l.cells
  {
    Lru(l.clock + 1, l.cells[h := l.cells[h].(lastUse := l.clock)])
  }

  /** l' is l with h inserted, after a least recently used cell made room for it if l was full. */
  ghost predicate Inserted(l: Lru, max: nat, h: Hash, blob: Blob, l': Lru) {
    && l'.clock == l.clock + 1
    && if |l.cells| < max then l'.cells == l.cells[h := Cell(blob, l.clock)]
       else exists victim: Hash ::
         LeastRecent(l.cells, victim) && l'.cells == (l.cells - {victim})[h := Cell(blob, l.clock)]
  }

  /** The list represents the map: same hashes, same blobs, from the least to the most recently used. */
  ghost predicate Represents(entries: seq<Entry>, l: Lru) {
    if entries == [] then l.cells == map[]
    else
      var e := entries[0];
      && e.hash in l.cells && l.cells[e.hash].blob == e.blob && l.cells[e.hash].lastUse < l.clock
      && (forall g <- l.cells :: g != e.hash ==> l.cells[e.hash].lastUse < l.cells[g].lastUse)
      && Represents(entries[1..], Drop(l, e.hash))
  }

  function Drop(l: Lru, h: Hash): Lru { l.(cells := l.cells - {h}) }

  function Hashes(entries: seq<Entry>): set<Hash> { set e <- entries :: e.hash }

  ghost predicate Distinct(entries: seq<Entry>) {
    forall i, j :: 0 <= i < j < |entries| ==> entries[i].hash != entries[j].hash
  }

  lemma HashesOfTail(entries: seq<Entry>)
    requires entries != []
    ensures Hashes(entries) == {entries[0].hash} + Hashes(entries[1..])
  {
    assert entries == [entries[0]] + entries[1..];
  }

  lemma {:induction false} RepresentedHashes(entries: seq<Entry>, l: Lru)
    requires Represents(entries, l)
    ensures l.cells.Keys == Hashes(entries) && |l.cells| == |entries|
  {
    if entries != [] {
      var h := entries[0].hash;
      RepresentedHashes(entries[1..], Drop(l, h));
      HashesOfTail(entries);
      assert l.cells.Keys == {h} + Drop(l, h).cells.Keys;
      assert |l.cells| == |l.cells.Keys| == 1 + |Drop(l, h).cells.Keys|;
    }
  }

  function Without(entries: seq<Entry>, p: nat): seq<Entry>
    requires p < |entries|
  {
    entries[..p] + entries[p+1..]
  }

  lemma {:induction false} RemoveAt(entries: seq<Entry>, p: nat, l: Lru)
    requires Represents(entries, l) && p < |entries|
    ensures Represents(Without(entries, p), Drop(l, entries[p].hash))
  {
    if p == 0 {
      assert Without(entries, 0) == entries[1..];
    } else {
      var tail, h0, h := entries[1..], entries[0].hash, entries[p].hash;
      RemoveAt(tail, p - 1, Drop(l, h0));
      RepresentedBlob(tail, p - 1, Drop(l, h0));
      assert Without(entries, p)[1..] == Without(tail, p - 1);
      assert Drop(Drop(l, h0), h) == Drop(Drop(l, h), h0);
    }
  }

  lemma {:induction false} Append(entries: seq<Entry>, l: Lru, hash: Hash, blob: Blob)
    requires Represents(entries, l) && hash !in l.cells && forall g <- l.cells :: l.cells[g].lastUse < l.clock
    ensures Represents(entries + [Entry(hash, blob)], Lru(l.clock + 1, l.cells[hash := Cell(blob, l.clock)]))
  {
    var l' := Lru(l.clock + 1, l.cells[hash := Cell(blob, l.clock)]);
    var es := entries + [Entry(hash, blob)];
    if entries == [] {
      assert es == [Entry(hash, blob)] && es[1..] == [];
      assert l.cells == map[] && Drop(l', hash).cells == map[];
      assert Represents(es[1..], Drop(l', hash));
    } else {
      var h := entries[0].hash;
      Append(entries[1..], Drop(l, h), hash, blob);
      assert es[1..] == entries[1..] + [Entry(hash, blob)];
      assert Drop(l, h).cells[hash := Cell(blob, l.clock)] == Drop(l', h).cells;
    }
  }

  /** All uses lie before the clock. */
  lemma {:induction false} UsesAreOld(entries: seq<Entry>, l: Lru)
    requires Represents(entries, l)
    ensures forall g <- l.cells :: l.cells[g].lastUse < l.clock
  {
    if entries != [] {
      UsesAreOld(entries[1..], Drop(l, entries[0].hash));
      assert forall g <- l.cells :: g == entries[0].hash || g in Drop(l, entries[0].hash).cells;
    }
  }

  /** Moving a hit to the end of the list is touching it in the map. */
  lemma HitRefinesTouch(entries: seq<Entry>, p: nat, l: Lru)
    requires Represents(entries, l) && p < |entries|
    ensures entries[p].hash in l.cells && l.cells[entries[p].hash].blob == entries[p].blob
    ensures Represents(Without(entries, p) + [entries[p]], Touch(l, entries[p].hash))
  {
    RepresentedBlob(entries, p, l);
    var e := entries[p];
    var rest := Drop(l, e.hash);
    assert Represents(Without(entries, p), rest) by { RemoveAt(entries, p, l); }
    assert forall g <- rest.cells :: rest.cells[g].lastUse < rest.clock by { UsesAreOld(entries, l); }
    Append(Without(entries, p), rest, e.hash, e.blob);
    assert rest.cells[e.hash := Cell(e.blob, l.clock)] == Touch(l, e.hash).cells;
  }

  lemma {:induction false} RepresentedBlob(entries: seq<Entry>, p: nat, l: Lru)
    requires Represents(entries, l) && p < |entries|
    ensures entries[p].hash in l.cells && l.cells[entries[p].hash].blob == entries[p].blob
  {
    if p > 0 { RepresentedBlob(entries[1..], p - 1, Drop(l, entries[0].hash)); }
  }

  /** Storing a success is inserting it in the map: what leaves is always least recently used. */
  lemma StoreRefinesInsert(entries: seq<Entry>, l: Lru, max: nat, hash: Hash, blob: Blob) returns (l': Lru)
    requires Represents(entries, l) && hash !in Hashes(entries) && 1 <= max && |entries| <= max
    ensures Inserted(l, max, hash, blob, l')
    ensures Represents(Stored(entries, max, hash, Ok(blob)), l')
  {
    RepresentedHashes(entries, l);
    UsesAreOld(entries, l);
    var kept := if |entries| < max then l else Drop(l, entries[0].hash);
    l' := Lru(l.clock + 1, kept.cells[hash := Cell(blob, l.clock)]);
    if |entries| < max {
      Append(entries, l, hash, blob);
    } else {
      Append(entries[1..], kept, hash, blob);
      assert LeastRecent(l.cells, entries[0].hash);
    }
  }

  // ---- Many threads ----

  datatype Pc =
    | Idle
    | Creating(code: Code, entry: nat)
    | Checking(code: Code, entry: nat)  // holds the in-flight entry, about to look at its result
    | Asleep(code: Code, entry: nat)    // inside done.wait
    | Done(code: Code, outcome: Outcome, source: Option<nat>)  // source: the in-flight entry, None for a hit

  /** owner is a history: the hash each in-flight entry was made for. */
  datatype State = State(inner: Inner, threads: seq<Pc>, owner: seq<Hash>)

  datatype Action =
    | Request(thread: nat, code: Code)
    | Complete(thread: nat, created: Option<seq<byte>>, message: Text)
    | Check(thread: nat)
    | SpuriousWake(thread: nat)

  /** The hash function and the capacity. */
  datatype Setup = Setup(hash: Code -> Hash, max: nat)

  function Start(threads: nat): State { State(Inner([], map[], []), seq(threads, i => Idle), []) }

  function Made(code: Code, created: Option<seq<byte>>, message: Text): Outcome {
    if created.Some? then Ok(Blob(code, created.value)) else Err(message)
  }

  predicate Enabled(setup: Setup, s: State, a: Action) {
    a.thread < |s.threads| &&
    match a
    case Request(t, _) => s.threads[t].Idle? || s.threads[t].Done?
    case Complete(t, created, message) =>
      s.threads[t].Creating? && !Panics(s.inner.entries, setup.max, Made(s.threads[t].code, created, message))
    case Check(t) => s.threads[t].Checking? && s.threads[t].entry < |s.inner.results|
    case SpuriousWake(t) => s.threads[t].Asleep?
  }

  /** notify_all on the in-flight entry. */
  function Notified(threads: seq<Pc>, entry: nat): seq<Pc> {
    seq(|threads|, i requires 0 <= i < |threads| =>
      if threads[i].Asleep? && threads[i].entry == entry then Checking(threads[i].code, entry) else threads[i])
  }

  function Step(setup: Setup, s: State, a: Action): State
    requires Enabled(setup, s, a)
  {
    match a
    case Request(t, code) =>
      var (inner, claim) := LookUp(s.inner, setup.hash(code));
      (match claim
       case Hit(blob) => s.(inner := inner, threads := s.threads[t := Done(code, Ok(blob), None)])
       case Wait(e) => s.(threads := s.threads[t := Checking(code, e)])
       case Create(e) => State(inner, s.threads[t := Creating(code, e)], s.owner + [setup.hash(code)]))
    case Complete(t, created, message) =>
      var pc := s.threads[t];
      var outcome := Made(pc.code, created, message);
      State(Publish(s.inner, setup.max, setup.hash(pc.code), outcome),
            Notified(s.threads, pc.entry)[t := Done(pc.code, outcome, Some(pc.entry))], s.owner)
    case Check(t) =>
      var pc := s.threads[t];
      s.(threads := s.threads[t :=
        if s.inner.results[pc.entry].None? then Asleep(pc.code, pc.entry)
        else Done(pc.code, s.inner.results[pc.entry].value, Some(pc.entry))])
    case SpuriousWake(t) =>
      s.(threads := s.threads[t := Checking(s.threads[t].code, s.threads[t].entry)])
  }

  /** The cached hashes are distinct, within capacity, none of them in flight, each blob made from code with
      that hash. */
  ghost predicate CacheOk(setup: Setup, inner: Inner) {
    && Distinct(inner.entries) && |inner.entries| <= setup.max
    && (forall e <- inner.entries :: e.hash !in inner.inFlight && setup.hash(e.blob.code) == e.hash)
  }

  /** Registered in-flight entries are unfilled; an unfilled one is registered under its own hash; a
      filled one holds a failure or a blob of its own hash. */
  ghost predicate InFlightOk(setup: Setup, s: State) {
    && |s.owner| == |s.inner.results|
    && (forall h <- s.inner.inFlight ::
          && s.inner.inFlight[h] < |s.owner| && s.owner[s.inner.inFlight[h]] == h
          && s.inner.results[s.inner.inFlight[h]].None?)
    && (forall e {:trigger s.inner.results[e]} :: 0 <= e < |s.owner| && s.inner.results[e].None? ==>
          s.owner[e] in s.inner.inFlight && s.inner.inFlight[s.owner[e]] == e)
    && (forall e {:trigger s.inner.results[e]} ::
          0 <= e < |s.owner| && s.inner.results[e].Some? && s.inner.results[e].value.Ok? ==>
          setup.hash(s.inner.results[e].value.value.code) == s.owner[e])
  }

  /** The pc holds an in-flight entry made for the hash of its code. */
  ghost predicate Holds(setup: Setup, s: State, pc: Pc)
    requires pc.Creating? || pc.Checking? || pc.Asleep?
  {
    pc.entry < |s.owner| && pc.entry < |s.inner.results| && s.owner[pc.entry] == setup.hash(pc.code)
  }

  ghost predicate PcOk(setup: Setup, s: State, pc: Pc) {
    match pc
    case Idle => true
    case Creating(_, e) => Holds(setup, s, pc) && s.inner.results[e].None?
    case Checking(_, e) => Holds(setup, s, pc)
    case Asleep(_, e) => Holds(setup, s, pc) && s.inner.results[e].None?
    case Done(code, outcome, source) =>
      && (outcome.Ok? ==> Produced(s, setup.hash(code), outcome.value))
      && (source.Some? ==> source.value < |s.inner.results| && s.inner.results[source.value] == Some(outcome))
  }

  /** A creation for the hash brought this blob. */
  ghost predicate Produced(s: State, hash: Hash, blob: Blob) {
    exists k ::
      && 0 <= k < |s.owner| && k < |s.inner.results|
      && s.owner[k] == hash && s.inner.results[k] == Some(Ok(blob))
  }

  /** Exactly one thread is at work on each unfilled in-flight entry. */
  ghost predicate CreatorsOk(s: State) {
    && (forall t, u {:trigger s.threads[t], s.threads[u]} ::
          0 <= t < u < |s.threads| && s.threads[t].Creating? && s.threads[u].Creating? ==>
          s.threads[t].entry != s.threads[u].entry)
    && (forall e {:trigger s.inner.results[e]} :: 0 <= e < |s.inner.results| && s.inner.results[e].None? ==>
          exists t :: 0 <= t < |s.threads| && s.threads[t].Creating? && s.threads[t].entry == e)
  }

  ghost predicate Inv(setup: Setup, s: State) {
    && CacheOk(setup, s.inner) && InFlightOk(setup, s) && CreatorsOk(s)
    && (forall e <- s.inner.entries :: Produced(s, e.hash, e.blob))
    && forall t {:trigger s.threads[t]} :: 0 <= t < |s.threads| ==> PcOk(setup, s, s.threads[t])
  }

  lemma HitKeepsInv(setup: Setup, s: State, t: nat, code: Code)
    requires Inv(setup, s) && Enabled(setup, s, Request(t, code)) && LookUp(s.inner, setup.hash(code)).1.Hit?
    ensures Inv(setup, Step(setup, s, Request(t, code)))
  {
    var s' := Step(setup, s, Request(t, code));
    var p := Position(s.inner.entries, setup.hash(code));
    assert s.inner.entries[p] in s.inner.entries;
    MovedToEnd(s.inner.entries, p);
    ReplacePc(setup, s, t, s'.threads[t]);
    var s1 := s.(threads := s'.threads);
    assert s' == s1.(inner := s1.inner.(entries := s'.inner.entries));
    forall u | 0 <= u < |s'.threads| ensures PcOk(setup, s', s'.threads[u]) { assert PcOk(setup, s1, s1.threads[u]); }
  }

  /** Moving an entry to the end permutes the list. */
  lemma MovedToEnd(entries: seq<Entry>, p: nat)
    requires p < |entries| && Distinct(entries)
    ensures Distinct(Without(entries, p) + [entries[p]]) && |Without(entries, p) + [entries[p]]| == |entries|
    ensures forall e <- Without(entries, p) + [entries[p]] :: e in entries
  {
    var es := Without(entries, p) + [entries[p]];
    assert forall i :: 0 <= i < |es| ==> es[i] == entries[if i < p then i else if i < |es| - 1 then i + 1 else p];
  }

  /** A thread that does not enter or leave Creating may move to any pc that is right for the state. */
  lemma ReplacePc(setup: Setup, s: State, t: nat, pc: Pc)
    requires Inv(setup, s) && t < |s.threads| && !s.threads[t].Creating? && !pc.Creating? && PcOk(setup, s, pc)
    ensures Inv(setup, s.(threads := s.threads[t := pc]))
  {
    var s' := s.(threads := s.threads[t := pc]);
    forall e | 0 <= e < |s.inner.results| && s.inner.results[e].None?
      ensures exists u :: 0 <= u < |s'.threads| && s'.threads[u].Creating? && s'.threads[u].entry == e
    {
      var u :| 0 <= u < |s.threads| && s.threads[u].Creating? && s.threads[u].entry == e;
      assert s'.threads[u] == s.threads[u];
    }
    forall u | 0 <= u < |s'.threads| ensures PcOk(setup, s', s'.threads[u]) {
      if u != t { assert PcOk(setup, s, s.threads[u]); }
    }
  }

  lemma ClaimKeepsInv(setup: Setup, s: State, t: nat, code: Code)
    requires Inv(setup, s) && Enabled(setup, s, Request(t, code)) && LookUp(s.inner, setup.hash(code)).1.Create?
    ensures Inv(setup, Step(setup, s, Request(t, code)))
  {
    var s' := Step(setup, s, Request(t, code));
    assert s'.inner.results[..|s.inner.results|] == s.inner.results;
    ClaimKeepsInner(setup, s, t, code);
    ClaimKeepsCreators(setup, s, t, code);
    forall u | 0 <= u < |s'.threads| ensures PcOk(setup, s', s'.threads[u]) {
      if u != t { assert PcOk(setup, s, s.threads[u]); }
    }
  }

  lemma ClaimKeepsInner(setup: Setup, s: State, t: nat, code: Code)
    requires Inv(setup, s) && Enabled(setup, s, Request(t, code)) && LookUp(s.inner, setup.hash(code)).1.Create?
    ensures var s' := Step(setup, s, Request(t, code));
      && CacheOk(setup, s'.inner) && InFlightOk(setup, s')
      && forall e <- s'.inner.entries :: Produced(s', e.hash, e.blob)
  {
    var s' := Step(setup, s, Request(t, code));
    assert s'.inner.results[..|s.inner.results|] == s.inner.results;
    forall e | e in s'.inner.entries ensures e.hash != setup.hash(code) && Produced(s', e.hash, e.blob) {
      var i :| 0 <= i < |s.inner.entries| && s.inner.entries[i] == e;
      assert Produced(s, e.hash, e.blob);
    }
  }

  lemma ClaimKeepsCreators(setup: Setup, s: State, t: nat, code: Code)
    requires Inv(setup, s) && Enabled(setup, s, Request(t, code)) && LookUp(s.inner, setup.hash(code)).1.Create?
    ensures CreatorsOk(Step(setup, s, Request(t, code)))
  {
    var id := |s.inner.results|;
    var s' := Step(setup, s, Request(t, code));
    forall e | 0 <= e < |s'.inner.results| && s'.inner.results[e].None?
      ensures exists u :: 0 <= u < |s'.threads| && s'.threads[u].Creating? && s'.threads[u].entry == e
    {
      if e == id { assert s'.threads[t].entry == e; }
      else {
        assert s.inner.results[e].None?;
        var u :| 0 <= u < |s.threads| && s.threads[u].Creating? && s.threads[u].entry == e;
        assert s'.threads[u] == s.threads[u];
      }
    }
    forall u | 0 <= u < |s.threads| && s.threads[u].Creating? ensures s.threads[u].entry < id {
      assert PcOk(setup, s, s.threads[u]);
    }
  }

  lemma StoredEntries(entries: seq<Entry>, max: nat, hash: Hash, outcome: Outcome)
    requires !Panics(entries, max, outcome) && Distinct(entries) && |entries| <= max && hash !in Hashes(entries)
    ensures var es := Stored(entries, max, hash, outcome);
      && Distinct(es) && |es| <= max
      && forall e <- es :: e in entries || (outcome.Ok? && e == Entry(hash, outcome.value))
  {
    if outcome.Ok? {
      var kept := if |entries| >= max then entries[1..] else entries;
      forall e | e in kept ensures e in entries && e.hash != hash { assert e.hash in Hashes(entries); }
      forall i | 0 <= i < |kept| ensures kept[i].hash != hash { assert kept[i] in kept; }
    }
  }

  /** The creator's in-flight entry is the one registered under its hash. */
  lemma CreatorIsRegistered(setup: Setup, s: State, t: nat)
    requires Inv(setup, s) && t < |s.threads| && s.threads[t].Creating?
    ensures var h := setup.hash(s.threads[t].code);
      && h in s.inner.inFlight && s.inner.inFlight[h] == s.threads[t].entry < |s.inner.results|
      && h !in Hashes(s.inner.entries)
  {
    assert PcOk(setup, s, s.threads[t]);
    assert s.inner.results[s.threads[t].entry].None?;
  }

  lemma CompleteKeepsInner(setup: Setup, s: State, t: nat, created: Option<seq<byte>>, message: Text)
    requires Inv(setup, s) && Enabled(setup, s, Complete(t, created, message))
    ensures var s' := Step(setup, s, Complete(t, created, message)); CacheOk(setup, s'.inner) && InFlightOk(setup, s')
  {
    var h, id := setup.hash(s.threads[t].code), s.threads[t].entry;
    var outcome := Made(s.threads[t].code, created, message);
    CreatorIsRegistered(setup, s, t);
    StoredEntries(s.inner.entries, setup.max, h, outcome);
  }

  lemma CompleteKeepsThreads(setup: Setup, s: State, t: nat, created: Option<seq<byte>>, message: Text)
    requires Inv(setup, s) && Enabled(setup, s, Complete(t, created, message))
    ensures var s' := Step(setup, s, Complete(t, created, message));
      CreatorsOk(s') && forall u {:trigger s'.threads[u]} :: 0 <= u < |s'.threads| ==> PcOk(setup, s', s'.threads[u])
  {
    var s' := Step(setup, s, Complete(t, created, message));
    var id := s.threads[t].entry;
    CreatorIsRegistered(setup, s, t);
    forall u | 0 <= u < |s'.threads| ensures PcOk(setup, s', s'.threads[u]) {
      assert PcOk(setup, s, s.threads[u]);
      assert s.threads[u].Creating? && u != t ==> s.threads[u].entry != id;
    }
    forall e | 0 <= e < |s'.inner.results| && s'.inner.results[e].None?
      ensures exists u :: 0 <= u < |s'.threads| && s'.threads[u].Creating? && s'.threads[u].entry == e
    {
      assert s.inner.results[e].None?;
      var u :| 0 <= u < |s.threads| && s.threads[u].Creating? && s.threads[u].entry == e;
      assert s'.threads[u] == s.threads[u];
    }
  }

  lemma CompleteKeepsProduced(setup: Setup, s: State, t: nat, created: Option<seq<byte>>, message: Text)
    requires Inv(setup, s) && Enabled(setup, s, Complete(t, created, message))
    ensures var s' := Step(setup, s, Complete(t, created, message));
      forall e <- s'.inner.entries :: Produced(s', e.hash, e.blob)
  {
    var s' := Step(setup, s, Complete(t, created, message));
    var h, id := setup.hash(s.threads[t].code), s.threads[t].entry;
    var outcome := Made(s.threads[t].code, created, message);
    CreatorIsRegistered(setup, s, t);
    StoredEntries(s.inner.entries, setup.max, h, outcome);
    forall e | e in s'.inner.entries ensures Produced(s', e.hash, e.blob) {
      if e in s.inner.entries {
        var k :| 0 <= k < |s.owner| && k < |s.inner.results| && s.owner[k] == e.hash
          && s.inner.results[k] == Some(Ok(e.blob));
        assert s'.inner.results[k] == s.inner.results[k];
      } else {
        assert s'.inner.results[id] == Some(outcome);
      }
    }
  }

  lemma RequestKeepsInv(setup: Setup, s: State, t: nat, code: Code)
    requires Inv(setup, s) && Enabled(setup, s, Request(t, code))
    ensures Inv(setup, Step(setup, s, Request(t, code)))
  {
    var claim := LookUp(s.inner, setup.hash(code)).1;
    if claim.Hit? { HitKeepsInv(setup, s, t, code); }
    else if claim.Create? { ClaimKeepsInv(setup, s, t, code); }
    else { ReplacePc(setup, s, t, Checking(code, claim.entry)); }
  }

  lemma CheckKeepsInv(setup: Setup, s: State, t: nat)
    requires Inv(setup, s) && Enabled(setup, s, Check(t))
    ensures Inv(setup, Step(setup, s, Check(t)))
  {
    assert PcOk(setup, s, s.threads[t]);
    ReplacePc(setup, s, t, Step(setup, s, Check(t)).threads[t]);
  }

  lemma StepKeepsInv(setup: Setup, s: State, a: Action)
    requires Inv(setup, s) && Enabled(setup, s, a)
    ensures Inv(setup, Step(setup, s, a))
  {
    match a
    case Request(t, code) => RequestKeepsInv(setup, s, t, code);
    case Complete(t, created, message) =>
      CompleteKeepsInner(setup, s, t, created, message);
      CompleteKeepsThreads(setup, s, t, created, message);
      CompleteKeepsProduced(setup, s, t, created, message);
    case Check(t) => CheckKeepsInv(setup, s, t);
    case SpuriousWake(t) =>
      assert PcOk(setup, s, s.threads[t]);
      ReplacePc(setup, s, t, Checking(s.threads[t].code, s.threads[t].entry));
  }

  // ---- Whole runs ----

  ghost predicate Run(setup: Setup, states: seq<State>, actions: seq<Action>) {
    && |states| == |actions| + 1 && states[0] == Start(|states[0].threads|)
    && forall k {:trigger actions[k]} :: 0 <= k < |actions| ==>
         Enabled(setup, states[k], actions[k]) && states[k+1] == Step(setup, states[k], actions[k])
  }

  lemma {:induction false} ReachableInv(setup: Setup, states: seq<State>, actions: seq<Action>, k: nat)
    requires Run(setup, states, actions) && k < |states|
    ensures Inv(setup, states[k])
    decreases k
  {
    if k > 0 {
      assert Enabled(setup, states[k-1], actions[k-1]);
      ReachableInv(setup, states, actions, k - 1);
      StepKeepsInv(setup, states[k-1], actions[k-1]);
    }
  }

  /**
   Single flight: at every moment of every run no two threads create for the same hash, no cached
   hash is in flight, every cached blob is one that a creation for its hash brought, and whoever is
   done has such a blob or the very outcome of the creation it waited for.
   */
  lemma CreationIsSingleFlight(setup: Setup, states: seq<State>, actions: seq<Action>, k: nat)
    requires Run(setup, states, actions) && k < |states|
    ensures CacheOk(setup, states[k].inner)
    ensures forall e <- states[k].inner.entries :: Produced(states[k], e.hash, e.blob)
    ensures var threads := states[k].threads;
      forall t, u :: 0 <= t < u < |threads| && threads[t].Creating? && threads[u].Creating? ==>
        setup.hash(threads[t].code) != setup.hash(threads[u].code)
    ensures forall t :: 0 <= t < |states[k].threads| && states[k].threads[t].Done? ==>
      PcOk(setup, states[k], states[k].threads[t])
  {
    ReachableInv(setup, states, actions, k);
    var s := states[k];
    forall t, u | 0 <= t < u < |s.threads| && s.threads[t].Creating? && s.threads[u].Creating?
      ensures setup.hash(s.threads[t].code) != setup.hash(s.threads[u].code)
    {
      CreatorIsRegistered(setup, s, t);
      CreatorIsRegistered(setup, s, u);
    }
  }

  /** Entry k was filled by action i: the thread that created it for the hash of its code completed then. */
  ghost predicate FilledBy(setup: Setup, s: State, a: Action, k: nat, hash: Hash, outcome: Outcome) {
    && a.Complete? && a.thread < |s.threads| && s.threads[a.thread].Creating? && s.threads[a.thread].entry == k
    && setup.hash(s.threads[a.thread].code) == hash
    && outcome == match a.created
                  case Some(bytes) => Ok(Blob(s.threads[a.thread].code, bytes))
                  case None => Err(a.message)
  }

  /** A step fills at most the entry its own thread creates, rewrites none, and keeps every owner. */
  lemma StepFills(setup: Setup, s: State, a: Action, k: nat)
    requires Inv(setup, s) && Enabled(setup, s, a)
    requires var s' := Step(setup, s, a); k < |s'.inner.results| && s'.inner.results[k].Some?
    ensures var s' := Step(setup, s, a);
      if k < |s.inner.results| && s.inner.results[k].Some?
      then s'.inner.results[k] == s.inner.results[k] && s'.owner[k] == s.owner[k]
      else FilledBy(setup, s, a, k, s'.owner[k], s'.inner.results[k].value)
  {
    StepKeepsInv(setup, s, a);
    if a.Complete? { CreatorIsRegistered(setup, s, a.thread); }
  }

  /**
   Every result there is was brought by the completion of the thread that created its entry, for the hash it was
   created for. With CreationIsSingleFlight: nobody is ever served anything but what some completed
   creation for the requested hash brought, byte for byte.
   */
  lemma {:induction false} ResultsComeFromCompletions(
      setup: Setup, states: seq<State>, actions: seq<Action>, j: nat, k: nat)
    returns (i: nat)
    requires Run(setup, states, actions) && j < |states|
    requires k < |states[j].inner.results| && states[j].inner.results[k].Some?
    ensures k < |states[j].owner| && i < j
    ensures FilledBy(setup, states[i], actions[i], k, states[j].owner[k], states[j].inner.results[k].value)
    decreases j
  {
    ReachableInv(setup, states, actions, j);
    i := j - 1;
    assert Enabled(setup, states[i], actions[i]);
    ReachableInv(setup, states, actions, i);
    StepFills(setup, states[i], actions[i], k);
    if k < |states[i].inner.results| && states[i].inner.results[k].Some? {
      i := ResultsComeFromCompletions(setup, states, actions, i, k);
    }
  }

  /** Thread t is creating what w sleeps on, and however that ends, w finds a result. */
  ghost predicate Rescues(setup: Setup, s: State, t: nat, w: nat)
    requires t < |s.threads| && w < |s.threads| && s.threads[w].Asleep?
  {
    && s.threads[t].Creating? && s.threads[t].entry == s.threads[w].entry
    && forall created, message ::
         var a := Complete(t, created, message);
         && Enabled(setup, s, a)
         && var s' := Step(setup, s, a);
            && s'.threads[w].Checking? && s'.threads[w].entry < |s'.inner.results|
            && s'.inner.results[s'.threads[w].entry].Some?
  }

  /** No waiter is stranded: a sleeping one always has a creator at work on its entry, and that
      creator's completion, whatever it brings, leaves the entry filled and the waiter awake. */
  lemma NoWaiterIsStranded(setup: Setup, states: seq<State>, actions: seq<Action>, k: nat, w: nat)
    requires Run(setup, states, actions) && k < |states| && setup.max >= 1
    requires w < |states[k].threads| && states[k].threads[w].Asleep?
    ensures exists t :: 0 <= t < |states[k].threads| && Rescues(setup, states[k], t, w)
  {
    ReachableInv(setup, states, actions, k);
    var s := states[k];
    assert PcOk(setup, s, s.threads[w]);
    assert s.inner.results[s.threads[w].entry].None?;
    var t :| 0 <= t < |s.threads| && s.threads[t].Creating? && s.threads[t].entry == s.threads[w].entry;
    CreatorIsRegistered(setup, s, t);
    assert Rescues(setup, s, t, w);
  }

  /** The eviction panics exactly when the cache was built with no room at all. */
  lemma EvictionPanicsIffNoCapacity(setup: Setup, states: seq<State>, actions: seq<Action>, k: nat, blob: Blob)
    requires Run(setup, states, actions) && k < |states|
    ensures Panics(states[k].inner.entries, setup.max, Ok(blob)) <==> setup.max == 0
  {
    ReachableInv(setup, states, actions, k);
  }

  /** One step of the abstract map: a hit touches, a successful creation inserts, nothing else counts. */
  ghost predicate LruStep(setup: Setup, s: State, a: Action, l: Lru, l': Lru)
    requires Enabled(setup, s, a)
  {
    if a.Request? && setup.hash(a.code) in l.cells then l' == Touch(l, setup.hash(a.code))
    else if a.Complete? && a.created.Some? then
      Inserted(l, setup.max, setup.hash(s.threads[a.thread].code), Blob(s.threads[a.thread].code, a.created.value), l')
    else l' == l
  }

  /** Some thread is creating for the hash, in this entry. */
  ghost predicate InCreation(setup: Setup, s: State, hash: Hash, entry: nat) {
    exists u ::
      && 0 <= u < |s.threads| && s.threads[u].Creating? && s.threads[u].entry == entry
      && setup.hash(s.threads[u].code) == hash
  }

  /**
   What the acting thread gets, read off the abstract map and the other threads: a request for a cached hash the
   blob of its cell; a request for a hash some thread is creating, that thread's entry; any other request, a new
   entry to create; a creator, what it created; a waiter, the result of its entry, or sleep while there is none.
   */
  ghost predicate Served(setup: Setup, s: State, a: Action, l: Lru, pc: Pc)
    requires Enabled(setup, s, a)
  {
    var was := s.threads[a.thread];
    match a
    case Request(_, code) =>
      var h := setup.hash(code);
      if h in l.cells then pc == Done(code, Ok(l.cells[h].blob), None)
      else if exists e :: InCreation(setup, s, h, e) then
        pc.Checking? && pc.code == code && InCreation(setup, s, h, pc.entry)
      else pc == Creating(code, |s.inner.results|)
    case Complete(_, Some(bytes), _) => pc == Done(was.code, Ok(Blob(was.code, bytes)), Some(was.entry))
    case Complete(_, None, message) => pc == Done(was.code, Err(message), Some(was.entry))
    case Check(_) =>
      (match s.inner.results[was.entry]
       case Some(outcome) => pc == Done(was.code, outcome, Some(was.entry))
       case None => pc == Asleep(was.code, was.entry))
    case SpuriousWake(_) => pc == Checking(was.code, was.entry)
  }

  /** Every step serves its thread so, */
  lemma StepServes(setup: Setup, s: State, a: Action, l: Lru)
    requires Inv(setup, s) && Enabled(setup, s, a) && Represents(s.inner.entries, l)
    ensures var s' := Step(setup, s, a); |s'.threads| == |s.threads| && Served(setup, s, a, l, s'.threads[a.thread])
  {
    if a.Request? { RequestServes(setup, s, a.thread, a.code, l); }
  }

  /** and wakes exactly the sleepers on an entry it fills. */
  lemma StepWakes(setup: Setup, s: State, a: Action, u: nat)
    requires Enabled(setup, s, a) && u < |s.threads| && u != a.thread
    ensures var (pc, s') := (s.threads[u], Step(setup, s, a));
      u < |s'.threads| && s'.threads[u] ==
        if a.Complete? && pc.Asleep? && pc.entry == s.threads[a.thread].entry then Checking(pc.code, pc.entry) else pc
  {
  }

  lemma RequestServes(setup: Setup, s: State, t: nat, code: Code, l: Lru)
    requires Inv(setup, s) && Enabled(setup, s, Request(t, code)) && Represents(s.inner.entries, l)
    ensures Served(setup, s, Request(t, code), l, Step(setup, s, Request(t, code)).threads[t])
  {
    RepresentedHashes(s.inner.entries, l);
    var h := setup.hash(code);
    var p := Position(s.inner.entries, h);
    if p < |s.inner.entries| {
      RepresentedBlob(s.inner.entries, p, l);
    } else if h in s.inner.inFlight {
      RegisteredInCreation(setup, s, h);
    } else {
      forall e | InCreation(setup, s, h, e) ensures false { CreationIsRegistered(setup, s, h, e); }
    }
  }

  lemma CreationIsRegistered(setup: Setup, s: State, h: Hash, e: nat)
    requires Inv(setup, s) && InCreation(setup, s, h, e)
    ensures h in s.inner.inFlight && s.inner.inFlight[h] == e
  {
    var u :| 0 <= u < |s.threads| && s.threads[u].Creating? && s.threads[u].entry == e
      && setup.hash(s.threads[u].code) == h;
    CreatorIsRegistered(setup, s, u);
  }

  /** A registered hash has a thread that creates for it. */
  lemma RegisteredInCreation(setup: Setup, s: State, h: Hash)
    requires Inv(setup, s) && h in s.inner.inFlight
    ensures InCreation(setup, s, h, s.inner.inFlight[h])
  {
    var e := s.inner.inFlight[h];
    assert s.inner.results[e].None?;
    var u :| 0 <= u < |s.threads| && s.threads[u].Creating? && s.threads[u].entry == e;
    assert PcOk(setup, s, s.threads[u]);
  }

  lemma StepRefinesLru(setup: Setup, s: State, a: Action, l: Lru) returns (l': Lru)
    requires Inv(setup, s) && Enabled(setup, s, a) && Represents(s.inner.entries, l) && setup.max >= 1
    ensures LruStep(setup, s, a, l, l') && Represents(Step(setup, s, a).inner.entries, l')
  {
    RepresentedHashes(s.inner.entries, l);
    l' := l;
    if a.Request? {
      var p := Position(s.inner.entries, setup.hash(a.code));
      if p < |s.inner.entries| {
        HitRefinesTouch(s.inner.entries, p, l);
        l' := Touch(l, setup.hash(a.code));
      }
    } else if a.Complete? && a.created.Some? {
      CreatorIsRegistered(setup, s, a.thread);
      var pc := s.threads[a.thread];
      l' := StoreRefinesInsert(s.inner.entries, l, setup.max, setup.hash(pc.code), Blob(pc.code, a.created.value));
    }
  }

  /** Between states and maps: the map makes its step, and the thread is served out of it. */
  ghost predicate StepsAs(setup: Setup, s: State, a: Action, s': State, l: Lru, l': Lru) {
    && Enabled(setup, s, a) && LruStep(setup, s, a, l, l')
    && a.thread < |s'.threads| && Served(setup, s, a, l, s'.threads[a.thread])
  }

  /** The maps are a run of the LRU map from nothing, beside the states. */
  ghost predicate Tracks(setup: Setup, states: seq<State>, actions: seq<Action>, ls: seq<Lru>) {
    && 1 <= |ls| <= |states| <= |actions| + 1 && ls[0] == Lru(0, map[])
    && (forall j :: 0 <= j < |ls| ==> Represents(states[j].inner.entries, ls[j]))
    && (forall j {:trigger actions[j]} :: 0 <= j < |ls| - 1 ==>
          StepsAs(setup, states[j], actions[j], states[j+1], ls[j], ls[j+1]))
  }

  lemma TracksOn(setup: Setup, states: seq<State>, actions: seq<Action>, ls: seq<Lru>, l: Lru)
    requires Tracks(setup, states, actions, ls) && |ls| < |states|
    requires StepsAs(setup, states[|ls|-1], actions[|ls|-1], states[|ls|], ls[|ls|-1], l)
    requires Represents(states[|ls|].inner.entries, l)
    ensures Tracks(setup, states, actions, ls + [l])
  {
  }

  /** Every run of the cache is, step by step, a run of an LRU map of the same capacity, and every
      request is answered out of that map. */
  lemma {:induction false} RunRefinesLru(setup: Setup, states: seq<State>, actions: seq<Action>, k: nat)
    returns (ls: seq<Lru>)
    requires Run(setup, states, actions) && k < |states| && setup.max >= 1
    ensures |ls| == k + 1 && Tracks(setup, states, actions, ls)
    decreases k
  {
    if k == 0 { return [Lru(0, map[])]; }
    var i := k - 1;
    var before := RunRefinesLru(setup, states, actions, i);
    var l := TrackNext(setup, states, actions, before, i);
    TracksOn(setup, states, actions, before, l);
    ls := before + [l];
  }

  lemma TrackNext(setup: Setup, states: seq<State>, actions: seq<Action>, ls: seq<Lru>, i: nat) returns (l: Lru)
    requires Run(setup, states, actions) && i < |actions| && setup.max >= 1
    requires |ls| == i + 1 && Tracks(setup, states, actions, ls)
    ensures StepsAs(setup, states[i], actions[i], states[i+1], ls[i], l)
    ensures Represents(states[i+1].inner.entries, l)
  {
    ReachableInv(setup, states, actions, i);
    l := NextMap(setup, states[i], actions[i], ls[i]);
  }

  lemma NextMap(setup: Setup, s: State, a: Action, l: Lru) returns (l': Lru)
    requires Inv(setup, s) && Enabled(setup, s, a) && Represents(s.inner.entries, l) && setup.max >= 1
    ensures StepsAs(setup, s, a, Step(setup, s, a), l, l') && Represents(Step(setup, s, a).inner.entries, l')
  {
    l' := StepRefinesLru(setup, s, a, l);
    StepServes(setup, s, a, l);
  }
}
