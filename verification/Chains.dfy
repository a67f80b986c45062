/** Following links until there is none. */
module Chains {
  import opened Frames

  /** The chain of hops from x has at most n hops. */
  predicate Stops<T>(hop: T -> Option<T>, x: T, n: nat)
    decreases n
  {
    match hop(x) case None => true case Some(next) => n > 0 && Stops(hop, next, n - 1)
  }

  /** The chain, n hops on. */
  function After<T>(hop: T -> Option<T>, x: T, n: nat): Option<T> {
    if n == 0 then Some(x)
    else match hop(x) case None => None case Some(next) => After(hop, next, n - 1)
  }

  /** Two different numbers of hops lead to the same place. */
  ghost predicate Repeats<T(!new)>(hop: T -> Option<T>, x: T) {
    exists i: nat, j: nat :: i < j && After(hop, x, i).Some? && After(hop, x, i) == After(hop, x, j)
  }

  lemma {:induction false} StopsIffChainEnds<T>(hop: T -> Option<T>, x: T, n: nat)
    ensures Stops(hop, x, n) <==> After(hop, x, n + 1).None?
    decreases n
  {
    if hop(x).Some? {
      if n > 0 { StopsIffChainEnds(hop, hop(x).value, n - 1); }
      else { assert After(hop, hop(x).value, 0).Some?; }
    }
  }

  lemma {:induction false} AfterAdds<T>(hop: T -> Option<T>, x: T, i: nat, k: nat)
    requires After(hop, x, i).Some?
    ensures After(hop, x, i + k) == After(hop, After(hop, x, i).value, k)
    decreases i
  {
    if i > 0 { AfterAdds(hop, hop(x).value, i - 1, k); }
  }

  lemma {:induction false} StopsDownstream<T>(hop: T -> Option<T>, x: T, n: nat, k: nat)
    requires After(hop, x, k).Some? && Stops(hop, x, n)
    ensures k <= n && Stops(hop, After(hop, x, k).value, n - k)
    decreases k
  {
    if k > 0 { StopsDownstream(hop, hop(x).value, n - 1, k - 1); }
  }

  /** A chain that comes back to where it was never stops. */
  lemma {:induction false} CyclesNeverStop<T>(hop: T -> Option<T>, x: T, k: nat, n: nat)
    requires k > 0 && After(hop, x, k) == Some(x)
    ensures !Stops(hop, x, n)
    decreases n
  {
    if Stops(hop, x, n) {
      StopsDownstream(hop, x, n, k);
      CyclesNeverStop(hop, x, k, n - k);
    }
  }

  /** Nor does one that runs into a cycle later on. */
  lemma RepeatsNeverStop<T(!new)>(hop: T -> Option<T>, x: T, n: nat)
    requires Repeats(hop, x)
    ensures !Stops(hop, x, n)
  {
    var i: nat, j: nat :| i < j && After(hop, x, i).Some? && After(hop, x, i) == After(hop, x, j);
    if Stops(hop, x, n) {
      var y := After(hop, x, i).value;
      StopsDownstream(hop, x, n, i);
      AfterAdds(hop, x, i, j - i);
      CyclesNeverStop(hop, y, j - i, n - i);
    }
  }

  /** What the first n places of a chain are. */
  ghost function Places<T>(hop: T -> Option<T>, x: T, n: nat): set<T>
    requires forall k :: 0 <= k < n ==> After(hop, x, k).Some?
  {
    if n == 0 then {} else Places(hop, x, n - 1) + {After(hop, x, n - 1).value}
  }

  lemma {:induction false} PlacesAre<T>(hop: T -> Option<T>, x: T, n: nat, y: T)
    requires (forall k :: 0 <= k < n ==> After(hop, x, k).Some?) && y in Places(hop, x, n)
    ensures exists k :: 0 <= k < n && After(hop, x, k) == Some(y)
    decreases n
  {
    if y == After(hop, x, n - 1).value {
      assert After(hop, x, n - 1) == Some(y);
    } else {
      PlacesAre(hop, x, n - 1, y);
    }
  }

  /** Without repetition the places are as many as the hops. */
  lemma {:induction false} PlacesDiffer<T(!new)>(hop: T -> Option<T>, x: T, n: nat)
    requires (forall k :: 0 <= k < n ==> After(hop, x, k).Some?) && !Repeats(hop, x)
    ensures |Places(hop, x, n)| == n
    decreases n
  {
    if n > 0 {
      var y := After(hop, x, n - 1).value;
      PlacesDiffer(hop, x, n - 1);
      if y in Places(hop, x, n - 1) {
        PlacesAre(hop, x, n - 1, y);
      }
    }
  }

  lemma {:induction false} PlacesWithin<T>(hop: T -> Option<T>, x: T, n: nat, linked: set<T>)
    requires forall k :: 0 <= k < n ==> After(hop, x, k).Some? && After(hop, x, k).value in linked
    ensures Places(hop, x, n) <= linked
    decreases n
  {
    if n > 0 { PlacesWithin(hop, x, n - 1, linked); }
  }

  lemma {:induction false} ChainGoesThrough<T>(hop: T -> Option<T>, x: T, n: nat, k: nat)
    requires After(hop, x, n).Some? && k <= n
    ensures After(hop, x, k).Some? && (k < n ==> hop(After(hop, x, k).value).Some?)
    decreases k
  {
    if k > 0 { ChainGoesThrough(hop, hop(x).value, n - 1, k - 1); }
  }

  /** A subset is no larger. */
  lemma SmallerSubset<T>(a: set<T>, b: set<T>)
    requires a <= b
    ensures |a| <= |b|
  {
    assert b == a + (b - a);
  }

  /** So many places do not fit among so few. */
  lemma TooManyPlaces<T(!new)>(hop: T -> Option<T>, x: T, linked: set<T>)
    requires forall k :: 0 <= k <= |linked| ==> After(hop, x, k).Some? && After(hop, x, k).value in linked
    ensures Repeats(hop, x)
  {
    if !Repeats(hop, x) {
      PlacesDiffer(hop, x, |linked| + 1);
      PlacesWithin(hop, x, |linked| + 1, linked);
      SmallerSubset(Places(hop, x, |linked| + 1), linked);
    }
  }

  /** If the places on the chain that lead on are among finitely many, the chain either stops within that many
      hops or comes to some place twice. */
  lemma StopsOrRepeats<T(!new)>(hop: T -> Option<T>, x: T, linked: set<T>)
    requires forall k: nat ::
      After(hop, x, k).Some? && hop(After(hop, x, k).value).Some? ==> After(hop, x, k).value in linked
    ensures Stops(hop, x, |linked|) || Repeats(hop, x)
  {
    if !Stops(hop, x, |linked|) {
      StopsIffChainEnds(hop, x, |linked|);
      forall k | 0 <= k <= |linked| ensures After(hop, x, k).Some? && After(hop, x, k).value in linked {
        ChainGoesThrough(hop, x, |linked| + 1, k);
      }
      TooManyPlaces(hop, x, linked);
    }
  }
}
