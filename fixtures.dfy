/**
  The fixtures the benchmark cases build before the timed region
  (data_structure_benchmarks.cpp): the generated client containers, the
  interval layout of the interval-map insertion case, the access orders taken
  from the ordering cache, and the size ladder every case is registered with.

  The containers under test are external; a fixture is modelled by the
  sequence, map or set of values it fills, and by the indices or keys the
  timed loop will use.
*/
module Fixtures {
  import opened DataTypes
  import opened Orderings

  // ---------------------------------------------------------------------------
  // Interval layout of BM_interval_map_insert
  // ---------------------------------------------------------------------------

  /** Interval i covers [i * A, i * A + B). */
  const INTERVAL_PARA_A: int := 37
  const INTERVAL_PARA_B: int := 31

  /** The preprocessor check `#if INTERVAL_PARA_A < INTERVAL_PARA_B #error`. */
  lemma IntervalParametersChecked()
    ensures INTERVAL_PARA_A >= INTERVAL_PARA_B > 0
  {
  }

  /** One `container.insert(low, up, value)` call. */
  datatype IntervalInsert = IntervalInsert(low: int, up: int, value: Value)

  /**
    The insertion loop `for (int i = 0; i < N * A; i += A) insert(i, i + B,
    generate_value<T>(i))`: exactly N non-empty half-open intervals, in
    ascending order and pairwise disjoint. The loop counter is an int, so
    N * A must fit in 32 bits.
  */
  method IntervalInsertCalls(t: ValueType, n: nat) returns (calls: seq<IntervalInsert>)
    requires n * INTERVAL_PARA_A <= INT32_MAX
    requires n == 0 || GenerateDefined(t, (n - 1) * INTERVAL_PARA_A)
    ensures |calls| == n
    ensures forall k :: 0 <= k < n ==>
              calls[k].low == k * INTERVAL_PARA_A && calls[k].value == Generate(t, calls[k].low)
    ensures forall k :: 0 <= k < n ==> calls[k].low < calls[k].up == calls[k].low + INTERVAL_PARA_B
    ensures forall p, q :: 0 <= p < q < n ==> calls[p].up <= calls[q].low
  {
    calls := [];
    var i := 0;
    while i < n * INTERVAL_PARA_A
      invariant i == |calls| * INTERVAL_PARA_A && |calls| <= n
      invariant forall k :: 0 <= k < |calls| ==>
                  calls[k] == IntervalInsert(k * INTERVAL_PARA_A, k * INTERVAL_PARA_A + INTERVAL_PARA_B,
                                             Generate(t, k * INTERVAL_PARA_A))
    {
      calls := calls + [IntervalInsert(i, i + INTERVAL_PARA_B, Generate(t, i))];
      i := i + INTERVAL_PARA_A;
    }
  }

  /**
    A key lies in interval p of that layout exactly when p is the key's
    quotient by A and its remainder is below B; so a key is covered by at most
    one interval, e.g. key 40 by interval 1 and key 33 by none.
  */
  lemma IntervalOwner(p: int, key: int)
    ensures (p * INTERVAL_PARA_A <= key < p * INTERVAL_PARA_A + INTERVAL_PARA_B)
              <==> (key / INTERVAL_PARA_A == p && key % INTERVAL_PARA_A < INTERVAL_PARA_B)
  {
    var q, r := key / INTERVAL_PARA_A, key % INTERVAL_PARA_A;
    assert key == q * INTERVAL_PARA_A + r && 0 <= r < INTERVAL_PARA_A;
    if p < q {
      assert p * INTERVAL_PARA_A + INTERVAL_PARA_A <= q * INTERVAL_PARA_A;
    } else if q < p {
      assert q * INTERVAL_PARA_A + INTERVAL_PARA_A <= p * INTERVAL_PARA_A;
    }
  }

  // ---------------------------------------------------------------------------
  // Client layout of BM_interval_map_lookup
  // ---------------------------------------------------------------------------

  /**
    The client loop of BM_interval_map_lookup as written:
    `client.insert(i, i + B, generate_value<T>(i))` for i = 0, ..., n - 1.
    Intervals that start fewer than B apart overlap and carry different
    values, which llvm::IntervalMap::insert does not allow.
  */
  method IntervalLookupClientAsWritten(t: ValueType, n: nat) returns (calls: seq<IntervalInsert>)
    requires n <= MaxIndex(t) + 1 && n + INTERVAL_PARA_B <= INT32_MAX
    ensures |calls| == n
    ensures forall k :: 0 <= k < n ==>
              calls[k] == IntervalInsert(k, k + INTERVAL_PARA_B, Generate(t, k))
    ensures forall p, q :: 0 <= p < q < n && q - p < INTERVAL_PARA_B ==>
              calls[q].low < calls[p].up && calls[p].value != calls[q].value
  {
    calls := [];
    for i := 0 to n
      invariant |calls| == i
      invariant forall k :: 0 <= k < i ==> calls[k] == IntervalInsert(k, k + INTERVAL_PARA_B, Generate(t, k))
    {
      calls := calls + [IntervalInsert(i, i + INTERVAL_PARA_B, Generate(t, i))];
    }
    forall p, q | 0 <= p < q < n && q - p < INTERVAL_PARA_B
      ensures calls[p].value != calls[q].value
    {
      GenerateInjective(t, p, q);
    }
  }

  /**
    The fixture of BM_interval_map_lookup with the client laid out as the
    insertion case lays it out ([i * A, i * A + B)): the intervals are disjoint
    and all lie inside [0, (n + 1) * A), the key range the lookup ordering
    covers, and a queried key is covered exactly when its quotient by A is
    below n and its remainder below B.
  */
  method IntervalLookupFixture(cache: OrderingCache, t: ValueType, n: nat)
    returns (calls: seq<IntervalInsert>, keysToLookup: seq<int>)
    requires cache.Valid()
    requires (n + 1) * INTERVAL_PARA_A < INT32_MAX
    requires n == 0 || GenerateDefined(t, (n - 1) * INTERVAL_PARA_A)
    modifies cache
    ensures cache.Valid()
    ensures cache.orderings == old(cache.orderings)[(n + 1) * INTERVAL_PARA_A := keysToLookup]
    ensures |calls| == n
    ensures forall k :: 0 <= k < n ==>
              calls[k].low == k * INTERVAL_PARA_A && calls[k].up == calls[k].low + INTERVAL_PARA_B
              && calls[k].value == Generate(t, calls[k].low)
    ensures forall p, q :: 0 <= p < q < n ==> calls[p].up <= calls[q].low
    ensures forall k :: 0 <= k < n ==> 0 <= calls[k].low && calls[k].up <= (n + 1) * INTERVAL_PARA_A
    ensures keysToLookup == Shuffle(Range((n + 1) * INTERVAL_PARA_A))
    ensures IsOrdering(keysToLookup, (n + 1) * INTERVAL_PARA_A)
    ensures forall j, k :: 0 <= j < |keysToLookup| && 0 <= k < n ==>
              (calls[k].low <= keysToLookup[j] < calls[k].up <==>
                 keysToLookup[j] / INTERVAL_PARA_A == k && keysToLookup[j] % INTERVAL_PARA_A < INTERVAL_PARA_B)
  {
    calls := IntervalInsertCalls(t, n);
    keysToLookup := cache.RandomizeLookupIndices((n + 1) * INTERVAL_PARA_A);
    ShuffledRangeIsOrdering((n + 1) * INTERVAL_PARA_A);
    forall k | 0 <= k < n
      ensures calls[k].up <= (n + 1) * INTERVAL_PARA_A
    {
      assert k * INTERVAL_PARA_A <= n * INTERVAL_PARA_A;
    }
    forall j, k | 0 <= j < |keysToLookup| && 0 <= k < n
      ensures calls[k].low <= keysToLookup[j] < calls[k].up <==>
                keysToLookup[j] / INTERVAL_PARA_A == k && keysToLookup[j] % INTERVAL_PARA_A < INTERVAL_PARA_B
    {
      IntervalOwner(k, keysToLookup[j]);
    }
  }

  // ---------------------------------------------------------------------------
  // Generated clients
  // ---------------------------------------------------------------------------

  /** generate_value<T>(0), ..., generate_value<T>(n - 1). */
  function GeneratedValues(t: ValueType, n: nat): (r: seq<Value>)
    requires n <= MaxIndex(t) + 1
    ensures |r| == n
    ensures forall i :: 0 <= i < n ==> r[i] == Generate(t, i)
  {
    if n == 0 then [] else GeneratedValues(t, n - 1) + [Generate(t, n - 1)]
  }

  /** The `client.emplace_back(generate_value<T>(i))` loop of the vector cases. */
  method VectorClient(t: ValueType, n: nat) returns (client: seq<Value>)
    requires n <= MaxIndex(t) + 1
    ensures client == GeneratedValues(t, n)
  {
    client := [];
    for i := 0 to n
      invariant client == GeneratedValues(t, i)
    {
      client := client + [Generate(t, i)];
    }
  }

  /** The `client[i] = generate_value<T>(i)` loop of BM_map_lookup: keys [0, n), each with its value. */
  method MapClient(t: ValueType, n: nat) returns (client: map<int, Value>)
    requires n <= MaxIndex(t) + 1
    ensures forall key :: key in client <==> 0 <= key < n
    ensures forall key :: key in client ==> client[key] == Generate(t, key)
  {
    client := map[];
    for i := 0 to n
      invariant forall key :: key in client <==> 0 <= key < i
      invariant forall key :: key in client ==> client[key] == Generate(t, key)
    {
      client := client[i := Generate(t, i)];
    }
  }

  /** The `client.insert(generate_value<T>(i))` loop of BM_set_read: n distinct values. */
  method SetClient(t: ValueType, n: nat) returns (client: set<Value>)
    requires n <= MaxIndex(t) + 1
    ensures |client| == n
    ensures forall v :: v in client <==> v in GeneratedValues(t, n)
  {
    client := {};
    for i := 0 to n
      invariant |client| == i
      invariant forall v :: v in client <==> exists j :: 0 <= j < i && v == Generate(t, j)
    {
      // std::set keeps a value unless an element is equivalent to it (neither
      // compares below the other); on generated values that is equality, so a
      // set of values is the container, and distinct indices give distinct values.
      forall j | 0 <= j < i
        ensures Generate(t, j) != Generate(t, i)
        ensures ValueLess(Generate(t, j), Generate(t, i)) || ValueLess(Generate(t, i), Generate(t, j))
      {
        GenerateInjective(t, i, j);
        GeneratedValuesTotallyOrdered(t, i, j);
      }
      client := client + {Generate(t, i)};
    }
    forall v | v in GeneratedValues(t, n)
      ensures v in client
    {
      var j :| 0 <= j < n && GeneratedValues(t, n)[j] == v;
    }
  }

  /**
    The fixture of BM_set_read: the set receives n distinct generated values,
    and `vals_to_lookup`, shuffled with a fresh engine seeded with 0, holds
    exactly those values reordered, so every `count(val)` finds its value.
  */
  method SetReadFixture(t: ValueType, n: nat) returns (client: set<Value>, valsToLookup: seq<Value>)
    requires n <= MaxIndex(t) + 1
    ensures |client| == n
    ensures forall v :: v in client <==> v in GeneratedValues(t, n)
    ensures valsToLookup == Shuffle(GeneratedValues(t, n))
    ensures multiset(valsToLookup) == multiset(GeneratedValues(t, n))
    ensures forall k :: 0 <= k < |valsToLookup| ==> valsToLookup[k] in client
  {
    client := SetClient(t, n);
    var vals := new Value[n](i requires 0 <= i < n => Generate(t, i));
    assert vals[..] == GeneratedValues(t, n);
    ShuffleInPlace(vals);
    valsToLookup := vals[..];
    ShufflePermutes(GeneratedValues(t, n));
    forall k | 0 <= k < |valsToLookup|
      ensures valsToLookup[k] in client
    {
      assert valsToLookup[k] in multiset(GeneratedValues(t, n));
    }
  }

  /**
    BM_set_read shuffles with its own engine seeded with 0, so its lookup list
    is the generated values read in the order randomize_lookup_indices(n)
    gives: the set and the vector/map cases see the same access pattern.
  */
  lemma SetReadFollowsCachedOrdering(t: ValueType, n: nat)
    requires n <= MaxIndex(t) + 1
    ensures forall p :: 0 <= p < n ==>
              GenerateDefined(t, Shuffle(Range(n))[p]) &&
              Shuffle(GeneratedValues(t, n))[p] == Generate(t, Shuffle(Range(n))[p])
  {
    ShuffleFollowsIndices(GeneratedValues(t, n));
  }

  // ---------------------------------------------------------------------------
  // Fixtures that use the ordering cache
  // ---------------------------------------------------------------------------

  /**
    The fixture of BM_vector_rand_read: every index of the cached ordering is
    inside the n-element container, so `container.begin() + idx` never leaves
    it, and each is visited once.
  */
  method VectorRandReadFixture(cache: OrderingCache, t: ValueType, n: nat)
    returns (client: seq<Value>, indicesToLookup: seq<int>)
    requires cache.Valid()
    requires n <= MaxIndex(t) + 1 && n < INT32_MAX
    modifies cache
    ensures cache.Valid()
    ensures cache.orderings == old(cache.orderings)[n := indicesToLookup]
    ensures client == GeneratedValues(t, n)
    ensures indicesToLookup == Shuffle(Range(n))
    ensures forall k :: 0 <= k < |indicesToLookup| ==> 0 <= indicesToLookup[k] < |client|
    ensures IsOrdering(indicesToLookup, |client|)
  {
    client := VectorClient(t, n);
    indicesToLookup := cache.RandomizeLookupIndices(n);
    ShuffledRangeIsOrdering(n);
  }

  /**
    The fixture of BM_map_lookup: every key of the cached ordering was
    inserted into the client, so `container[key]` never creates an entry and
    reads the value generated for that key.
  */
  method MapLookupFixture(cache: OrderingCache, t: ValueType, n: nat)
    returns (client: map<int, Value>, keysToLookup: seq<int>)
    requires cache.Valid()
    requires n <= MaxIndex(t) + 1 && n < INT32_MAX
    modifies cache
    ensures cache.Valid()
    ensures cache.orderings == old(cache.orderings)[n := keysToLookup]
    ensures forall key :: key in client <==> 0 <= key < n
    ensures keysToLookup == Shuffle(Range(n))
    ensures forall k :: 0 <= k < |keysToLookup| ==>
              keysToLookup[k] in client && client[keysToLookup[k]] == Generate(t, keysToLookup[k])
  {
    client := MapClient(t, n);
    keysToLookup := cache.RandomizeLookupIndices(n);
    LookupKeysWereInserted(n);
  }

  /** Every key in randomize_lookup_indices(n) is one of the n inserted keys 0, ..., n - 1. */
  lemma LookupKeysWereInserted(n: nat)
    ensures |Shuffle(Range(n))| == n
    ensures forall k :: 0 <= k < n ==> 0 <= Shuffle(Range(n))[k] < n
  {
    ShuffleFollowsIndices(Range(n));
  }

  // ---------------------------------------------------------------------------
  // Registration: DO_BENCHMARK_TEMPLATE and the size ladder
  // ---------------------------------------------------------------------------

  /** The `->Arg(...)` list every registered case carries. */
  const SIZE_LADDER: seq<int> := [4, 8, 16, 32, 64, 128, 256, 512, 1024, 2048, 4096, 8192, 16384]

  function Pow2(k: nat): (r: nat)
    ensures r >= 1
  {
    if k == 0 then 1 else 2 * Pow2(k - 1)
  }

  /** 4 * 2^0, ..., 4 * 2^(n - 1). */
  function Doublings(n: nat): seq<int> {
    if n == 0 then [] else Doublings(n - 1) + [4 * Pow2(n - 1)]
  }

  /**
    The size ladder is 4 * 2^k for k = 0, ..., 12: thirteen strictly
    increasing sizes from 4 to 16384, each twice the one before.
  */
  lemma SizeLadderDoubles()
    ensures SIZE_LADDER == Doublings(13)
    ensures |SIZE_LADDER| == 13 && SIZE_LADDER[0] == 4 && SIZE_LADDER[12] == 16384
    ensures forall k :: 0 <= k < 12 ==> SIZE_LADDER[k + 1] == 2 * SIZE_LADDER[k]
    ensures forall p, q :: 0 <= p < q < 13 ==> SIZE_LADDER[p] < SIZE_LADDER[q]
  {
    DoublingsDouble(13);
    assert Doublings(13) == SIZE_LADDER;
  }

  lemma {:induction false} DoublingsDouble(n: nat)
    ensures |Doublings(n)| == n
    ensures forall k :: 0 <= k < n ==> Doublings(n)[k] == 4 * Pow2(k)
    ensures forall p, q :: 0 <= p < q < n ==> Doublings(n)[p] < Doublings(n)[q]
  {
    if n > 0 {
      DoublingsDouble(n - 1);
      PowMonotone(n - 1);
    }
  }

  lemma {:induction false} PowMonotone(n: nat)
    ensures forall k :: 0 <= k < n ==> Pow2(k) < Pow2(n)
  {
    if n > 0 {
      PowMonotone(n - 1);
    }
  }

  /** One registered case: function, container template, value type, size arguments. */
  datatype Registration = Registration(benchmark: string, container: string, valueType: ValueType, args: seq<int>)

  /**
    DO_BENCHMARK_TEMPLATE(bm_function, container): one case per value type,
    each with the full size ladder.
  */
  function DoBenchmarkTemplate(benchmark: string, container: string): (cases: seq<Registration>)
    ensures |cases| == 4
    ensures forall k :: 0 <= k < 4 ==>
              cases[k].args == SIZE_LADDER && cases[k].benchmark == benchmark && cases[k].container == container
    ensures forall p, q :: 0 <= p < q < 4 ==> cases[p].valueType != cases[q].valueType
  {
    [ Registration(benchmark, container, Int32Type, SIZE_LADDER),
      Registration(benchmark, container, Int64Type, SIZE_LADDER),
      Registration(benchmark, container, Size16Type, SIZE_LADDER),
      Registration(benchmark, container, Size64Type, SIZE_LADDER) ]
  }
}
