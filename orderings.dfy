/**
  The process-wide cache of random access orderings
  (randomize_lookup_indices in data_structure_benchmarks.cpp).

  The first request for a size builds [0, size) with push_back, shuffles it in
  place with std::shuffle and a std::default_random_engine seeded with 0, and
  stores it under that size; every later request returns the stored ordering.

  The engine std::default_random_engine names is implementation-defined
  (minstd_rand0 in libstdc++, minstd_rand in libc++, mt19937 in MSVC). The
  shuffle is modelled as a forward Fisher-Yates pass driven by libstdc++'s
  choice, minstd_rand0, as a stand-in: step i (1 <= i < n) swaps position i
  with a position drawn from [0, i]. How the library turns engine output into
  that draw is not modelled (the draw here is the engine state modulo i + 1).
  No property proved below depends on the engine: each holds for any draw in
  [0, i] that is the same on every call.
*/
module Orderings {
  import opened DataTypes

  /** [0, 1, ..., n - 1]: what the push_back loop of randomize_lookup_indices builds. */
  function Range(n: nat): (r: seq<int>)
    ensures |r| == n
    ensures forall i :: 0 <= i < n ==> r[i] == i
  {
    if n == 0 then [] else Range(n - 1) + [n - 1]
  }

  // ---------------------------------------------------------------------------
  // The deterministic random engine (seed 0) and the shuffle it drives
  // ---------------------------------------------------------------------------

  const ENGINE_MULTIPLIER: nat := 16807
  const ENGINE_MODULUS: nat := 0x7fff_ffff

  /**
    State of the stand-in engine (minstd_rand0) after k draws; seeding it with
    0 sets its state to 1.
  */
  function EngineState(k: nat): (x: nat)
    ensures x < ENGINE_MODULUS
  {
    if k == 0 then 1 else (ENGINE_MULTIPLIER * EngineState(k - 1)) % ENGINE_MODULUS
  }

  /** The position that step i of the shuffle exchanges with position i: a draw in [0, i]. */
  function SwapPartner(i: nat): (j: nat)
    ensures j <= i
  {
    EngineState(i) % (i + 1)
  }

  /** s with the elements at positions i and j exchanged (std::iter_swap). */
  function Swap<T>(s: seq<T>, i: nat, j: nat): (r: seq<T>)
    requires i < |s| && j < |s|
    ensures |r| == |s| && r[i] == s[j] && r[j] == s[i]
    ensures forall k :: 0 <= k < |s| && k != i && k != j ==> r[k] == s[k]
    ensures multiset(r) == multiset(s)
  {
    s[i := s[j]][j := s[i]]
  }

  /** s after steps 1, ..., k - 1 of the shuffle. */
  function ShuffleSteps<T>(s: seq<T>, k: nat): (r: seq<T>)
    requires k <= |s|
    ensures |r| == |s|
    decreases k
  {
    if k <= 1 then s else Swap(ShuffleSteps(s, k - 1), k - 1, SwapPartner(k - 1))
  }

  /** shuffle(s.begin(), s.end(), std::default_random_engine(0)). */
  function Shuffle<T>(s: seq<T>): seq<T> {
    ShuffleSteps(s, |s|)
  }

  /** std::iter_swap of two array elements. */
  method SwapInPlace<T>(a: array<T>, i: nat, j: nat)
    requires i < a.Length && j < a.Length
    modifies a
    ensures a[..] == Swap(old(a[..]), i, j)
  {
    var tmp := a[i];
    a[i] := a[j];
    a[j] := tmp;
  }

  /** The in-place shuffle: the array ends up holding Shuffle of its old contents. */
  method ShuffleInPlace<T>(a: array<T>)
    modifies a
    ensures a[..] == Shuffle(old(a[..]))
  {
    if a.Length == 0 {
      return;
    }
    ghost var original := a[..];
    var state := 1;
    for i := 1 to a.Length
      invariant a[..] == ShuffleSteps(original, i)
      invariant state == EngineState(i - 1)
    {
      state := (ENGINE_MULTIPLIER * state) % ENGINE_MODULUS;
      SwapInPlace(a, i, state % (i + 1));
    }
  }

  // ---------------------------------------------------------------------------
  // The shuffle is a permutation, and it moves positions independently of the
  // values being shuffled
  // ---------------------------------------------------------------------------

  lemma {:induction false} ShuffleStepsPermutes<T>(s: seq<T>, k: nat)
    requires k <= |s|
    ensures multiset(ShuffleSteps(s, k)) == multiset(s)
    decreases k
  {
    if k > 1 {
      ShuffleStepsPermutes(s, k - 1);
    }
  }

  /** Shuffle reorders its input: the same elements with the same multiplicities. */
  lemma ShufflePermutes<T>(s: seq<T>)
    ensures |Shuffle(s)| == |s| && multiset(Shuffle(s)) == multiset(s)
  {
    ShuffleStepsPermutes(s, |s|);
  }

  /** s read at the positions listed in order. */
  function Permute<T>(s: seq<T>, order: seq<int>): (r: seq<T>)
    requires forall k :: 0 <= k < |order| ==> 0 <= order[k] < |s|
    ensures |r| == |order| && forall k :: 0 <= k < |order| ==> r[k] == s[order[k]]
  {
    seq(|order|, k requires 0 <= k < |order| => s[order[k]])
  }

  /**
    Every step of the shuffle depends only on the length of the sequence: the
    steps applied to s equal s read through the same steps applied to [0, |s|).
  */
  lemma {:induction false} ShuffleStepsFollowIndices<T>(s: seq<T>, k: nat)
    requires k <= |s|
    ensures forall p :: 0 <= p < |s| ==> 0 <= ShuffleSteps(Range(|s|), k)[p] < |s|
    ensures ShuffleSteps(s, k) == Permute(s, ShuffleSteps(Range(|s|), k))
    decreases k
  {
    if k > 1 {
      ShuffleStepsFollowIndices(s, k - 1);
      var prev := ShuffleSteps(Range(|s|), k - 1);
      var j := SwapPartner(k - 1);
      assert ShuffleSteps(Range(|s|), k) == Swap(prev, k - 1, j);
      assert ShuffleSteps(s, k) == Swap(Permute(s, prev), k - 1, j);
    }
  }

  /** Shuffling any sequence of length n gives it in the order Shuffle(Range(n)). */
  lemma ShuffleFollowsIndices<T>(s: seq<T>)
    ensures forall p :: 0 <= p < |s| ==> 0 <= Shuffle(Range(|s|))[p] < |s|
    ensures Shuffle(s) == Permute(s, Shuffle(Range(|s|)))
  {
    ShuffleStepsFollowIndices(s, |s|);
  }

  // ---------------------------------------------------------------------------
  // Orderings: permutations of [0, n)
  // ---------------------------------------------------------------------------

  /** r holds each of 0, ..., n - 1 exactly once. */
  ghost predicate IsOrdering(r: seq<int>, n: nat) {
    && |r| == n
    && (forall k :: 0 <= k < n ==> 0 <= r[k] < n)
    && (forall x :: 0 <= x < n ==> x in r)
    && (forall p, q :: 0 <= p < q < n ==> r[p] != r[q])
  }

  lemma {:induction false} RangeMultiplicity(n: nat, x: int)
    ensures multiset(Range(n))[x] == if 0 <= x < n then 1 else 0
  {
    if n > 0 {
      RangeMultiplicity(n - 1, x);
      assert Range(n) == Range(n - 1) + [n - 1];
      assert multiset(Range(n)) == multiset(Range(n - 1)) + multiset{n - 1};
    }
  }

  /** A sequence in which nothing occurs twice has pairwise distinct positions. */
  lemma NoRepeats<T>(s: seq<T>)
    requires forall x :: multiset(s)[x] <= 1
    ensures forall p, q :: 0 <= p < q < |s| ==> s[p] != s[q]
  {
    forall p, q | 0 <= p < q < |s|
      ensures s[p] != s[q]
    {
      assert s == s[..q] + s[q..];
      assert multiset(s)[s[p]] == multiset(s[..q])[s[p]] + multiset(s[q..])[s[p]];
      assert s[..q][p] == s[p] && s[q..][0] == s[q];
      assert s[p] in multiset(s[..q]) && s[q] in multiset(s[q..]);
    }
  }

  /** randomize_lookup_indices(n) is a permutation of [0, n); for n == 0 it is empty. */
  lemma ShuffledRangeIsOrdering(n: nat)
    ensures IsOrdering(Shuffle(Range(n)), n)
    ensures n == 0 ==> Shuffle(Range(n)) == []
  {
    var r := Shuffle(Range(n));
    ShufflePermutes(Range(n));
    forall x
      ensures multiset(r)[x] == if 0 <= x < n then 1 else 0
    {
      RangeMultiplicity(n, x);
    }
    forall k | 0 <= k < n
      ensures 0 <= r[k] < n
    {
      assert r[k] in multiset(r);
    }
    forall x | 0 <= x < n
      ensures x in r
    {
      assert x in multiset(r);
    }
    NoRepeats(r);
  }

  // ---------------------------------------------------------------------------
  // The cache
  // ---------------------------------------------------------------------------

  /** The static s_existing_orderings map and randomize_lookup_indices. */
  class OrderingCache {
    /** size -> stored ordering (an llvm::DenseMap<int, std::vector<int>>). */
    var orderings: map<int, seq<int>>

    /** Every stored entry is the ordering computed for its own size. */
    ghost predicate Valid()
      reads this
    {
      forall size :: size in orderings ==> 0 <= size && orderings[size] == Shuffle(Range(size))
    }

    /** The cache starts empty. */
    constructor ()
      ensures Valid() && orderings == map[]
    {
      orderings := map[];
    }

    /**
      randomize_lookup_indices(size). Sizes stay below INT32_MAX: the key is an
      int, and DenseMap<int> reserves INT_MAX as its empty-bucket marker.
    */
    method RandomizeLookupIndices(size: nat) returns (ordering: seq<int>)
      requires Valid()
      requires size < INT32_MAX
      modifies this
      ensures Valid()
      ensures ordering == Shuffle(Range(size))
      ensures size in orderings && orderings[size] == ordering
      ensures size in old(orderings) ==> orderings == old(orderings) && ordering == old(orderings)[size]
      ensures size !in old(orderings) ==> orderings == old(orderings)[size := ordering]
    {
      if size !in orderings {
        var newOrdering := IdentityOrdering(size);
        ShuffleInPlace(newOrdering);
        orderings := orderings[size := newOrdering[..]];
      }
      ordering := orderings[size];
    }
  }

  /** new_ordering after its reserve and push_back loop: [0, size). */
  method IdentityOrdering(size: nat) returns (a: array<int>)
    ensures fresh(a) && a[..] == Range(size)
  {
    a := new int[size];
    for i := 0 to size
      invariant a[..i] == Range(i)
    {
      a[i] := i;
      assert a[..i + 1] == a[..i] + [i];
    }
    assert a[..] == a[..size];
  }

  /**
    Two containers benchmarked at the same size ask for their ordering one
    after the other; the second request sees the first one's ordering and
    changes nothing.
  */
  method SameOrderingForEveryContainer(cache: OrderingCache, size: nat) returns (first: seq<int>, second: seq<int>)
    requires cache.Valid() && size < INT32_MAX
    modifies cache
    ensures cache.Valid()
    ensures cache.orderings == old(cache.orderings)[size := first]
    ensures first == second && IsOrdering(first, size)
  {
    first := cache.RandomizeLookupIndices(size);
    ghost var afterFirst := cache.orderings;
    second := cache.RandomizeLookupIndices(size);
    assert cache.orderings == afterFirst;
    ShuffledRangeIsOrdering(size);
  }
}
