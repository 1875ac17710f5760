# LLVM data-structure benchmarks: the fairness core and the result parser, in Dafny

This project models the parts of the llvm-data-structure-benchmarks harness
that make its comparisons fair and reproducible, and the script that turns the
benchmark runner's output into graphs:

- `data_types.dfy` (module `DataTypes`) holds the payload types. These are
  `int32_t`, `int64_t`, and the composites `size_16` and `size_64`. The module
  models their `<`, `==` and `!=` operators and the `generate_value<T>`
  specialisations that derive a deterministic payload from an index.
- `orderings.dfy` (module `Orderings`) holds the process-wide cache of random
  access orderings (`randomize_lookup_indices`). It is a class whose map field
  is updated in place. It also holds the in-place Fisher–Yates shuffle on an
  array that fills the cache, and the proofs that every cached ordering is a
  permutation of `[0, size)`.
- `fixtures.dfy` (module `Fixtures`) holds what the benchmark cases build
  before the timed loop:
  - the interval layout of the interval-map insertion case (`A = 37`, `B = 31`);
  - the generated vector, map and set clients;
  - the access orders of the vector, map, set and interval-map read and lookup
    cases;
  - the size ladder `4 … 16384` that `DO_BENCHMARK_TEMPLATE` registers with
    each value type.
- `strings.dfy` (module `Strings`) holds the string operations the script
  relies on: the Python `in` operator, `str.replace`, and `%d` formatting.
- `graph_results.dfy` (module `GraphResults`) models two parts of
  `scripts/graph_results.py`. The first is `parse_benchmark_results`, with its
  nested `defaultdict` table, its element-count filters and `data_type_to_size`.
  The second is `name_file`.
- `wrappers.dfy` (module `Wrappers`) holds `Option` and `Result`.

`std::shuffle` is modelled by a specification function `Shuffle`. It is a
forward Fisher–Yates pass seeded with 0. Which engine
`std::default_random_engine` names is left to the C++ library. libstdc++ uses
`minstd_rand0` (multiplier 16807). libc++ uses `minstd_rand` (multiplier
48271). MSVC uses `mt19937`. The model uses `minstd_rand0` as a stand-in. No
property proved here depends on that choice: each step only needs a draw in
`[0, i]` that is the same on every call. The in-place methods are proved
against that function. The script's loop is modelled twice: by a left fold
`Accumulate`, and by the method `ParseBenchmarkResults`, whose loop invariant
ties the two together. The lemmas about `Accumulate` give the meaning of the
result:
- which line raises;
- which lines are kept;
- that the last write wins;
- that unmatched lines are ignored.

## Model

| member | source | states |
|---|---|---|
| DataTypes.EqualityOperators | data_types.h:15-16 | `!=` is the negation of `==`, and `==` is field-wise equality (the same holds for `size_64`, lines 42-43) |
| DataTypes.LessIsStrictPartialOrder | data_types.h:14 | `size_16::operator<` and `size_64::operator<` are irreflexive and transitive |
| DataTypes.LessNotStrictWeakOrder | data_types.h:41 | on arbitrary values neither `operator<` is a strict weak order: (0,2) and (1,1) are unequal yet incomparable, and incomparability is not transitive |
| DataTypes.MaxIndex | data_types.h:74-75 | the largest index for which `iteration + k` does not overflow 32 bits is positive and at most `INT32_MAX` |
| DataTypes.GenerateInt64 | data_types.h:73 | `iteration + (iteration << 32)` fits in `int64_t`, and both 32-bit halves of the result hold the index |
| DataTypes.Generate | data_types.h:71-75 | `generate_value<T>` returns a value of type `T` |
| DataTypes.GenerateInt32IsIdentity | data_types.h:72 | `generate_value<int32_t>` is the identity |
| DataTypes.GenerateInt64Injective | data_types.h:73 | distinct indices give distinct `int64_t` values |
| DataTypes.GenerateSize64Fields | data_types.h:75 | the eight doubles of `generate_value<size_64>(i)` are `i … i+7`, pairwise distinct |
| DataTypes.GenerateInjective | data_types.h:71-75 | for every type, generated values are equal (under `==` and under the type's `operator==`) iff the indices are |
| DataTypes.GeneratedLessIff | data_types.h:71-75 | on generated values `operator<` holds iff the first index is smaller |
| DataTypes.GeneratedValuesTotallyOrdered | data_types.h:71-75 | on generated values `operator<` is a strict total order whose equivalence is equality, as `std::set`/`std::map` need |
| Orderings.Range | data_structure_benchmarks.cpp:340-345 | the `push_back` loop builds the sequence `[0, n)` |
| Orderings.EngineState | data_structure_benchmarks.cpp:346 | the stand-in engine (libstdc++'s `minstd_rand0`) seeded with 0 starts at state 1 and stays below `2^31 - 1` |
| Orderings.SwapPartner | data_structure_benchmarks.cpp:346 | step `i` of the shuffle exchanges position `i` with a position in `[0, i]` |
| Orderings.Swap | data_structure_benchmarks.cpp:346 | exchanging two elements changes only those two positions and keeps the multiset |
| Orderings.ShuffleSteps | data_structure_benchmarks.cpp:346 | the steps of the shuffle keep the length |
| Orderings.SwapInPlace | data_structure_benchmarks.cpp:346 | the array after an in-place exchange is `Swap` of the old array |
| Orderings.ShuffleInPlace | data_structure_benchmarks.cpp:346 | the array after the in-place shuffle is `Shuffle` of its old contents |
| Orderings.ShufflePermutes | data_structure_benchmarks.cpp:346 | the shuffle is a permutation: same length, same multiset |
| Orderings.ShuffleFollowsIndices | data_structure_benchmarks.cpp:346 | the shuffle of any length-`n` sequence is that sequence read in the order `Shuffle([0, n))`: the moves depend only on the length |
| Orderings.ShuffledRangeIsOrdering | data_structure_benchmarks.cpp:333-350 | the ordering for size `n` holds each of `0 … n-1` exactly once, and is empty for `n = 0` |
| Orderings.OrderingCache.constructor | data_structure_benchmarks.cpp:335 | the static cache starts empty and consistent |
| Orderings.OrderingCache.RandomizeLookupIndices | data_structure_benchmarks.cpp:333-350 | returns `Shuffle([0, size))`; on a hit the cache is unchanged and the stored ordering is returned; on a miss only the new entry is added; every entry stays the ordering of its own size |
| Orderings.IdentityOrdering | data_structure_benchmarks.cpp:340-345 | the fresh vector holds `[0, size)` |
| Orderings.SameOrderingForEveryContainer | data_structure_benchmarks.cpp:61-68 | two requests for the same size, as made by two containers, return the same ordering, which is a permutation of `[0, size)`; the cache afterwards holds that ordering under `size` and nothing else changes |
| Fixtures.IntervalParametersChecked | data_structure_benchmarks.cpp:24-29 | the preprocessor check holds: `A >= B > 0` |
| Fixtures.IntervalInsertCalls | data_structure_benchmarks.cpp:284-286 | the insertion loop makes exactly `N` calls, call `k` inserting `[k*A, k*A + B)` with `generate_value(k*A)`; the intervals are non-empty, ascending and pairwise disjoint |
| Fixtures.IntervalOwner | data_structure_benchmarks.cpp:24 | a key lies in interval `p` iff `key / A == p` and `key % A < B`; for example key 40 lies in interval 1, and key 33 lies in none |
| Fixtures.IntervalLookupClientAsWritten | data_structure_benchmarks.cpp:296-299 | the lookup case's client loop inserts `[i, i + B)`; intervals fewer than `B` apart overlap and carry different values |
| Fixtures.IntervalLookupFixture | data_structure_benchmarks.cpp:294-307 | with the client laid out as in the insertion case, the intervals are disjoint and lie inside the queried key range `[0, (N+1)*A)`; the keys are a permutation of that range, and a key is covered by interval `k` iff `key / A == k` and `key % A < B`; the cache afterwards holds the keys under `(N+1)*A` and nothing else changes |
| Fixtures.GeneratedValues | data_structure_benchmarks.cpp:116-121 | the client holds `generate_value(0) … generate_value(n-1)` in order |
| Fixtures.VectorClient | data_structure_benchmarks.cpp:116-121 | the `emplace_back` loop builds `GeneratedValues(n)` |
| Fixtures.MapClient | data_structure_benchmarks.cpp:162-166 | the map client has exactly the keys `[0, n)`, each mapped to its generated value |
| Fixtures.SetClient | data_structure_benchmarks.cpp:207-212 | the set client holds exactly the generated values, `n` of them (none collapse: distinct generated values are always ordered one below the other, so `std::set` never finds two of them equivalent) |
| Fixtures.SetReadFixture | data_structure_benchmarks.cpp:205-213 | `vals_to_lookup` is the shuffle of the generated values, a permutation of them, and every value looked up is in the set |
| Fixtures.SetReadFollowsCachedOrdering | data_structure_benchmarks.cpp:213 | because it reseeds its own engine with 0, the set case looks values up in the same order as the cached ordering for `n` |
| Fixtures.VectorRandReadFixture | data_structure_benchmarks.cpp:116-131 | every index in the lookup order is inside the `n`-element container, and each index is visited exactly once; the cache afterwards holds the indices under `n` and nothing else changes |
| Fixtures.MapLookupFixture | data_structure_benchmarks.cpp:162-177 | every key in the lookup order was inserted, so `container[key]` reads the key's generated value and never inserts; the cache afterwards holds the keys under `n` and nothing else changes |
| Fixtures.LookupKeysWereInserted | data_structure_benchmarks.cpp:168 | every entry of the ordering for `n` lies in `[0, n)` |
| Fixtures.SizeLadderDoubles | data_structure_benchmarks.cpp:34-37 | the `Arg` list is `4 * 2^k` for `k = 0 … 12`: thirteen strictly increasing sizes from 4 to 16384, each twice the one before |
| Fixtures.DoBenchmarkTemplate | data_structure_benchmarks.cpp:33-37 | one registration per value type (four distinct types), each with the full size ladder |
| Strings.ContainsAt | scripts/graph_results.py:95 | Python's `part in s` holds iff `part` occurs at some index of `s` |
| Strings.ContainsTransitive | scripts/graph_results.py:95 | if `s` contains `part` and `part` contains `inner`, then `s` contains `inner` |
| Strings.ReplaceAbsent | scripts/graph_results.py:73 | `str.replace` leaves a string without the pattern unchanged |
| Strings.ReplaceAllKeepsPrefix | scripts/graph_results.py:73 | `str.replace` keeps the text before the first occurrence, puts the replacement in its place and goes on after it |
| Strings.ReplaceStdOnlyPrefix | scripts/graph_results.py:72-73 | a name whose only `std_` is its prefix becomes `std::` followed by the rest of the name |
| Strings.ReplaceStdKeepsFirst | scripts/graph_results.py:73 | replacing `std_` keeps the first character, and the result is empty only for empty input |
| Strings.ReplaceStdLeavesNone | scripts/graph_results.py:73 | after `replace('std_', 'std::')` no index starts an occurrence of `std_` |
| Strings.ReplaceStdRemovesAll | scripts/graph_results.py:72-73 | `'std_' in container_type` is false after the replacement |
| Strings.NatToDecimal | scripts/graph_results.py:108 | `%d` of a natural number is a non-empty string of digits with no leading zero |
| Strings.DecimalRoundTrip | scripts/graph_results.py:108 | reading the `%d` text back gives the number |
| GraphResults.DataTypeToSizeMatchesTypes | scripts/graph_results.py:42-51 | `data_type_to_size` succeeds exactly on the four type names and returns `sizeof` that type; otherwise it raises `"Unknown type " + name` |
| GraphResults.Store | scripts/graph_results.py:81 | writing `data[fn][size][container][n]` sets exactly that entry and leaves every other entry as it was |
| GraphResults.NormalizeContainer | scripts/graph_results.py:72-73 | names without the `std_` prefix are kept; names with it start with `std::` and contain no `std_` afterwards; when the prefix is the only `std_`, the result is `std::` followed by the rest of the name unchanged |
| GraphResults.FailureIsFinal | scripts/graph_results.py:75 | once a line raises, the whole call raises that exception |
| GraphResults.AccumulateFailsOnUnknownType | scripts/graph_results.py:67-75 | the call raises iff some matched line names an unknown type (even one the filters would drop), and the message names the first such line's type |
| GraphResults.LastIteration | scripts/graph_results.py:67-83 | the last iteration records the last line when it is kept and changes nothing otherwise |
| GraphResults.AccumulatedSetsAreKeptValues | scripts/graph_results.py:80-83 | `data_sizes` and `cardinalities` are exactly the sizes and element counts of the lines that pass the filters |
| GraphResults.AccumulatedTableKeepsLastCpuTime | scripts/graph_results.py:80-81 | the table has an entry for a key iff a kept line writes it, and the entry is the CPU time of the last such line |
| GraphResults.InertLineIgnored | scripts/graph_results.py:68-80 | removing a non-matching line, or a line outside the filters, from anywhere in the input leaves the result unchanged |
| GraphResults.SortedList | scripts/graph_results.py:84 | `sorted(set)` lists the set's elements in strictly ascending order |
| GraphResults.ParseBenchmarkResults | scripts/graph_results.py:24-84 | raises what the loop raises; otherwise returns the loop's table, and the sizes and element counts sorted strictly ascending with exactly the elements of the sets |
| GraphResults.FirstOccurring | scripts/graph_results.py:94-97 | the search returns the first candidate whose pattern occurs in the name, or none when no pattern occurs |
| GraphResults.NameFileDescribesFirstOp | scripts/graph_results.py:99-108 | when the `op_decoder` key at `k` is the first, in insertion order, that occurs in the name, the file is `"<decoded> in <type>s up to <max> elements (<size> byte data).png"` |
| GraphResults.NameFileFallback | scripts/graph_results.py:109 | when no `op_decoder` key occurs, the file is `<name>_data_size_<size>.png` |
| GraphResults.IntervalMapLabelledMap | scripts/graph_results.py:94-97 | `_map_` is tried before `_interval_map_` and occurs inside it, so interval-map functions are labelled `map` |

## Left out

- The containers under test are not modelled. That covers `std::vector`, `SmallVector`, `FixedArray`, `std::map`, `std::unordered_map`, `DenseMap`, `ArrayMap`, `std::set`, `SmallSet`, `llvm::IntervalMap` and `boost::icl::interval_map`. They are external libraries (`ArrayTypes.h` is not part of this model). A fixture is modelled by the sequence, map or set it fills, and by the indices or keys its timed loop uses.
- The interval-map adapters (`LLVMIntervalMap`, `BoostIntervalMap`, lines 235-277) are not modelled: they forward to those libraries. `LLVMIntervalMap::lookup` (line 259) has no `return` statement, so its result is undefined behaviour and there is nothing to model.
- The lookup keys of the interval-map lookup case are not all covered. It queries every key of `[0, (N+1)*A)`, and that range includes keys no interval covers (remainder `>= B`, or the last block). `Fixtures.IntervalLookupFixture` states exactly which keys are covered; what the libraries return for the others is not modelled.
- The timed loops, `benchmark::State`, `DoNotOptimize`, `ClobberMemory` and `BENCHMARK_MAIN` are not modelled. They belong to the timing library.
- `BM_vector_emplace_back`, `BM_vector_sequential_read`, `BM_map_insert` and `BM_set_insert` only fill containers from `generate_value`. Their client loops are the ones `Fixtures.VectorClient`, `Fixtures.MapClient` and `Fixtures.SetClient` model.
- `rand(int, int)` (line 16) is unused and is not modelled.
- `size_16::operator+=` and `operator+` (and those of `size_64`) are left out: they are floating-point additions the benchmarks never call.
- DataTypes.Generate: defined only for `0 <= i` with `i + 7` (or `i + 1`) within 32 bits. The specialisations add in 32-bit signed arithmetic, where overflow is undefined behaviour. A negative index makes `(int64_t)i << 32` undefined before C++20. The benchmarks only use indices below 16384 * 37.
- The composite fields are C++ `double`s, modelled as integers. Every generated value is an integer below 2^31, which a double represents exactly.
- Orderings.Shuffle: not any library's exact `std::shuffle`. It is a forward Fisher–Yates pass driven by a stand-in engine, `minstd_rand0` seeded with 0 (state `1`, then `16807 * x mod (2^31 - 1)`), with the draw `state mod (i + 1)`. `std::default_random_engine` is implementation-defined: `minstd_rand0` in libstdc++, `minstd_rand` in libc++, `mt19937` in MSVC. The library's `uniform_int_distribution` reduction is not modelled. Every property proved holds for any draw in `[0, i]`; only the exact orderings differ.
- Orderings.OrderingCache.RandomizeLookupIndices: takes a `nat` below `INT32_MAX`. The source converts a `size_t` to the `int` key of an `llvm::DenseMap<int, …>`, which reserves `INT_MAX` as its empty marker; a larger size is a narrowing the model does not capture. The returned reference is modelled as the returned value: no caller mutates it.
- The benchmark-line regular expression (scripts/graph_results.py:61) is not modelled. Each line is given as the seven groups it matched, or as no match. `int(...)` of the digit groups is given as natural numbers.
- GraphResults.ParseBenchmarkResults: returns the exception as `Failure("Unknown type …")` instead of raising it. The nested `defaultdict` is modelled as nested maps, where a missing entry is absent rather than 0.
- GraphResults.NameFile: the fallback at line 109 formats `benchmark_fn`, the loop variable of `graph_results`, rather than the parameter. The two are equal at the only call site (line 142), so the model uses the parameter. Python formats `type = None` as `None`, and so does the model.
- Python's `dict` iteration order (insertion order) is modelled as a list for `op_decoder`. The key order of the returned `data` table is not modelled.
- `graph_results` itself (plotly traces, layouts, `os.makedirs`, `write_image`), `debug_dump_data`, `main` and the argument parsing are I/O and plotting, and are not modelled.

## Findings

| source | as written | input that shows it | evidently intended | confidence | as-written member | corrected member |
|---|---|---|---|---|---|---|
| data_structure_benchmarks.cpp:296-298 | the lookup client inserts `[i, i + B)` for `i = 0 … N-1`, so consecutive intervals overlap and carry different values. `llvm::IntervalMap::insert` requires the new interval not to overlap one mapped to another value | `N = 2`: `[0, 31)` and `[1, 32)` with `generate_value(0) != generate_value(1)` | the insertion case's layout `[i*A, i*A + B)`. Its intervals are disjoint and lie inside the key range `[0, (N+1)*A)` that line 301 queries | not executed; high | Fixtures.IntervalLookupClientAsWritten | Fixtures.IntervalLookupFixture |
