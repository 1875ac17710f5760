/**
  The result-graphing script (scripts/graph_results.py): parsing the benchmark
  runner's console output into a nested table, and choosing the file name of
  each graph.

  The benchmark-line regular expression is not modelled: each input line is
  given as the seven groups it matched (Some) or as no match (None).
*/
module GraphResults {
  import opened Wrappers
  import opened Strings
  import opened DataTypes

  // ---------------------------------------------------------------------------
  // data_type_to_size
  // ---------------------------------------------------------------------------

  /** data_type_to_size: the byte size named by a type, or the exception it raises. */
  function DataTypeToSize(dataType: string): Result<int, string> {
    if dataType == "int32_t" then Success(4)
    else if dataType == "int64_t" then Success(8)
    else if dataType == "size_16" then Success(16)
    else if dataType == "size_64" then Success(64)
    else Failure("Unknown type " + dataType)
  }

  /**
    data_type_to_size maps the name of each benchmarked type to sizeof that
    type, and raises "Unknown type ..." for every other name.
  */
  lemma DataTypeToSizeMatchesTypes(dataType: string)
    ensures DataTypeToSize(dataType).Success? <==> exists t :: TypeName(t) == dataType
    ensures forall t :: TypeName(t) == dataType ==> DataTypeToSize(dataType) == Success(ByteSize(t))
    ensures DataTypeToSize(dataType).Failure? ==> DataTypeToSize(dataType).error == "Unknown type " + dataType
  {
    if dataType == "int32_t" {
      assert TypeName(Int32Type) == dataType;
    } else if dataType == "int64_t" {
      assert TypeName(Int64Type) == dataType;
    } else if dataType == "size_16" {
      assert TypeName(Size16Type) == dataType;
    } else if dataType == "size_64" {
      assert TypeName(Size64Type) == dataType;
    }
  }

  // ---------------------------------------------------------------------------
  // Records, the nested table and the filters
  // ---------------------------------------------------------------------------

  /**
    The groups of a matched line: function name, container type, data type,
    number of elements, wall time, CPU time and iteration count.
  */
  datatype ResultLine = ResultLine(
    benchmark: string, container: string, dataType: string,
    numElements: nat, realTime: nat, cpuTime: nat, iterations: nat)

  /** data[benchmark_fn][data_size][container_type][num_elements] = cpu_time */
  type Table = map<string, map<int, map<string, map<int, int>>>>

  datatype Key = Key(benchmark: string, dataSize: int, container: string, numElements: int)

  /** The entry of the nested table at a key, if there is one. */
  function Lookup(data: Table, key: Key): Option<int> {
    if key.benchmark in data
       && key.dataSize in data[key.benchmark]
       && key.container in data[key.benchmark][key.dataSize]
       && key.numElements in data[key.benchmark][key.dataSize][key.container]
    then Some(data[key.benchmark][key.dataSize][key.container][key.numElements])
    else None
  }

  /** `data[fn][size][container][n] = v` on the nested defaultdict: missing levels start empty. */
  function Store(data: Table, key: Key, v: int): (r: Table)
    ensures forall other :: Lookup(r, other) == if other == key then Some(v) else Lookup(data, other)
  {
    var bySize := if key.benchmark in data then data[key.benchmark] else map[];
    var byContainer := if key.dataSize in bySize then bySize[key.dataSize] else map[];
    var byCount := if key.container in byContainer then byContainer[key.container] else map[];
    data[key.benchmark := bySize[key.dataSize := byContainer[key.container := byCount[key.numElements := v]]]]
  }

  /** Python truthiness of min_elements / max_elements: None and 0 switch the filter off. */
  predicate Falsy(bound: Option<int>) {
    bound == None || bound == Some(0)
  }

  /** meets_min_requirements and meets_max_requirements */
  predicate MeetsBounds(n: int, minElements: Option<int>, maxElements: Option<int>) {
    && (Falsy(minElements) || n >= minElements.value)
    && (Falsy(maxElements) || n <= maxElements.value)
  }

  /**
    Container names starting with std_ have every std_ rewritten to std::. A
    name with no further std_ (every name the runner prints, such as
    std_map<int32_t>) keeps the rest of its text: std::map<int32_t>.
  */
  function NormalizeContainer(container: string): (r: string)
    ensures !StartsWith(container, "std_") ==> r == container
    ensures StartsWith(container, "std_") ==> StartsWith(r, "std::") && !Contains(r, "std_")
    ensures StartsWith(container, "std_") && !Contains(container[4..], "std_") ==> r == "std::" + container[4..]
  {
    if StartsWith(container, "std_") then
      ReplaceStdRemovesAll(container);
      assert ReplaceStd(container) == "std::" + ReplaceStd(container[4..]);
      ReplaceStdOnlyPrefix(container);
      ReplaceStd(container)
    else container
  }

  // ---------------------------------------------------------------------------
  // The loop of parse_benchmark_results, as a fold over the lines
  // ---------------------------------------------------------------------------

  /** The state the loop mutates: the table and the two sets. */
  datatype Accumulator = Accumulator(data: Table, dataSizes: set<int>, cardinalities: set<int>)

  /** One iteration of the loop: skip, raise, filter out, or record the line. */
  function Step(acc: Accumulator, line: Option<ResultLine>, minElements: Option<int>, maxElements: Option<int>)
    : Result<Accumulator, string>
  {
    match line
    case None => Success(acc)
    case Some(m) =>
      match DataTypeToSize(m.dataType)
      case Failure(e) => Failure(e)
      case Success(size) =>
        if MeetsBounds(m.numElements, minElements, maxElements) then
          Success(Accumulator(
            Store(acc.data, KeyOf(m), m.cpuTime),
            acc.dataSizes + {size},
            acc.cardinalities + {m.numElements}))
        else Success(acc)
  }

  /** The state after the loop has run over all of lines (or the exception it raised). */
  function Accumulate(lines: seq<Option<ResultLine>>, minElements: Option<int>, maxElements: Option<int>)
    : Result<Accumulator, string>
    decreases |lines|
  {
    if |lines| == 0 then Success(Accumulator(map[], {}, {}))
    else
      match Accumulate(lines[..|lines| - 1], minElements, maxElements)
      case Failure(e) => Failure(e)
      case Success(acc) => Step(acc, lines[|lines| - 1], minElements, maxElements)
  }

  /** Line k matched but names a type data_type_to_size rejects. */
  predicate UnknownTypeAt(lines: seq<Option<ResultLine>>, k: int) {
    0 <= k < |lines| && lines[k].Some? && DataTypeToSize(lines[k].value.dataType).Failure?
  }

  /** The line matched, names a known type and passes the element-count filters. */
  predicate Kept(line: Option<ResultLine>, minElements: Option<int>, maxElements: Option<int>) {
    && line.Some?
    && DataTypeToSize(line.value.dataType).Success?
    && MeetsBounds(line.value.numElements, minElements, maxElements)
  }

  /** The table key a record with a known type writes. */
  function KeyOf(m: ResultLine): Key
    requires DataTypeToSize(m.dataType).Success?
  {
    Key(m.benchmark, DataTypeToSize(m.dataType).value, NormalizeContainer(m.container), m.numElements)
  }

  /** The line is kept and writes the entry at key. */
  predicate Writes(line: Option<ResultLine>, minElements: Option<int>, maxElements: Option<int>, key: Key) {
    Kept(line, minElements, maxElements) && KeyOf(line.value) == key
  }

  /** Once the loop has raised, the whole call has raised that exception. */
  lemma {:induction false} FailureIsFinal(lines: seq<Option<ResultLine>>, j: nat, minElements: Option<int>, maxElements: Option<int>)
    requires j <= |lines| && Accumulate(lines[..j], minElements, maxElements).Failure?
    ensures Accumulate(lines, minElements, maxElements) == Accumulate(lines[..j], minElements, maxElements)
    decreases |lines|
  {
    if j < |lines| {
      var init := lines[..|lines| - 1];
      assert init[..j] == lines[..j];
      FailureIsFinal(init, j, minElements, maxElements);
    } else {
      assert lines[..j] == lines;
    }
  }

  /**
    The call raises exactly when some matched line names an unknown type, and
    it raises for the first such line, whether or not that line would have
    passed the element-count filters.
  */
  lemma {:induction false} AccumulateFailsOnUnknownType(lines: seq<Option<ResultLine>>, minElements: Option<int>, maxElements: Option<int>)
    ensures Accumulate(lines, minElements, maxElements).Failure? <==> exists k :: UnknownTypeAt(lines, k)
    ensures Accumulate(lines, minElements, maxElements).Failure? ==>
              exists k :: UnknownTypeAt(lines, k) && (forall j :: 0 <= j < k ==> !UnknownTypeAt(lines, j))
                && Accumulate(lines, minElements, maxElements).error == "Unknown type " + lines[k].value.dataType
    decreases |lines|
  {
    if |lines| > 0 {
      var n := |lines| - 1;
      var init := lines[..n];
      AccumulateFailsOnUnknownType(init, minElements, maxElements);
      forall k | 0 <= k < n
        ensures UnknownTypeAt(init, k) <==> UnknownTypeAt(lines, k)
      {
        assert init[k] == lines[k];
      }
      if Accumulate(init, minElements, maxElements).Failure? {
        var k :| UnknownTypeAt(init, k) && (forall j :: 0 <= j < k ==> !UnknownTypeAt(init, j))
                 && Accumulate(init, minElements, maxElements).error == "Unknown type " + init[k].value.dataType;
        assert UnknownTypeAt(lines, k);
      } else if UnknownTypeAt(lines, n) {
        assert forall j :: 0 <= j < n ==> !UnknownTypeAt(lines, j);
      }
    }
  }

  /**
    The last iteration of a successful run: it records the last line when that
    line is kept, and changes nothing otherwise.
  */
  lemma LastIteration(lines: seq<Option<ResultLine>>, minElements: Option<int>, maxElements: Option<int>)
    requires |lines| > 0 && Accumulate(lines, minElements, maxElements).Success?
    ensures Accumulate(lines[..|lines| - 1], minElements, maxElements).Success?
    ensures var prev := Accumulate(lines[..|lines| - 1], minElements, maxElements).value;
            var line := lines[|lines| - 1];
            Accumulate(lines, minElements, maxElements).value ==
              if Kept(line, minElements, maxElements) then
                Accumulator(Store(prev.data, KeyOf(line.value), line.value.cpuTime),
                            prev.dataSizes + {DataTypeToSize(line.value.dataType).value},
                            prev.cardinalities + {line.value.numElements})
              else prev
  {
  }

  /**
    After a successful run, the sets hold exactly the data sizes and the
    element counts of the kept lines.
  */
  lemma {:induction false} AccumulatedSetsAreKeptValues(lines: seq<Option<ResultLine>>, minElements: Option<int>, maxElements: Option<int>)
    requires Accumulate(lines, minElements, maxElements).Success?
    ensures forall x :: x in Accumulate(lines, minElements, maxElements).value.dataSizes <==>
              exists k :: 0 <= k < |lines| && Kept(lines[k], minElements, maxElements)
                          && DataTypeToSize(lines[k].value.dataType).value == x
    ensures forall x :: x in Accumulate(lines, minElements, maxElements).value.cardinalities <==>
              exists k :: 0 <= k < |lines| && Kept(lines[k], minElements, maxElements) && lines[k].value.numElements == x
    decreases |lines|
  {
    if |lines| > 0 {
      var n := |lines| - 1;
      LastIteration(lines, minElements, maxElements);
      AccumulatedSetsAreKeptValues(lines[..n], minElements, maxElements);
      assert forall k :: 0 <= k < n ==> lines[..n][k] == lines[k];
    }
  }

  /** The table has an entry for key exactly when some kept line of lines writes it. */
  ghost predicate EntryIffWritten(lines: seq<Option<ResultLine>>, minElements: Option<int>, maxElements: Option<int>, data: Table, key: Key) {
    Lookup(data, key).Some? <==> exists k :: 0 <= k < |lines| && Writes(lines[k], minElements, maxElements, key)
  }

  /** An entry at key is the CPU time of the last line of lines that writes it. */
  ghost predicate EntryFromLastWriter(lines: seq<Option<ResultLine>>, minElements: Option<int>, maxElements: Option<int>, data: Table, key: Key) {
    Lookup(data, key).Some? ==>
      exists k :: && 0 <= k < |lines| && Writes(lines[k], minElements, maxElements, key)
                  && Lookup(data, key) == Some(lines[k].value.cpuTime)
                  && forall j :: k < j < |lines| ==> !Writes(lines[j], minElements, maxElements, key)
  }

  /** A last line that does not write the key leaves the set of writers of the key as it was. */
  lemma LastLineSkipsWriters(lines: seq<Option<ResultLine>>, minElements: Option<int>, maxElements: Option<int>, data: Table, key: Key)
    requires |lines| > 0
    requires !Writes(lines[|lines| - 1], minElements, maxElements, key)
    requires EntryIffWritten(lines[..|lines| - 1], minElements, maxElements, data, key)
    ensures EntryIffWritten(lines, minElements, maxElements, data, key)
  {
    var init := lines[..|lines| - 1];
    assert forall k :: 0 <= k < |init| ==> init[k] == lines[k];
  }

  /** A last line that does not write the key leaves the last writer of the key as it was. */
  lemma LastLineSkipsLastWriter(lines: seq<Option<ResultLine>>, minElements: Option<int>, maxElements: Option<int>, data: Table, key: Key)
    requires |lines| > 0
    requires !Writes(lines[|lines| - 1], minElements, maxElements, key)
    requires EntryFromLastWriter(lines[..|lines| - 1], minElements, maxElements, data, key)
    ensures EntryFromLastWriter(lines, minElements, maxElements, data, key)
  {
    var init := lines[..|lines| - 1];
    if Lookup(data, key).Some? {
      var k :| && 0 <= k < |init| && Writes(init[k], minElements, maxElements, key)
               && Lookup(data, key) == Some(init[k].value.cpuTime)
               && forall j :: k < j < |init| ==> !Writes(init[j], minElements, maxElements, key);
      assert init[k] == lines[k];
      forall j | k < j < |lines|
        ensures !Writes(lines[j], minElements, maxElements, key)
      {
        if j < |init| {
          assert init[j] == lines[j];
        }
      }
    }
  }

  /**
    After a successful run, the table has an entry for a key exactly when
    some kept line has that key, and the entry is the CPU time of the last such
    line: later lines overwrite earlier ones.
  */
  lemma {:induction false} AccumulatedTableKeepsLastCpuTime(lines: seq<Option<ResultLine>>, minElements: Option<int>, maxElements: Option<int>, key: Key)
    requires Accumulate(lines, minElements, maxElements).Success?
    ensures EntryIffWritten(lines, minElements, maxElements, Accumulate(lines, minElements, maxElements).value.data, key)
    ensures EntryFromLastWriter(lines, minElements, maxElements, Accumulate(lines, minElements, maxElements).value.data, key)
    decreases |lines|
  {
    if |lines| > 0 {
      var n := |lines| - 1;
      LastIteration(lines, minElements, maxElements);
      AccumulatedTableKeepsLastCpuTime(lines[..n], minElements, maxElements, key);
      var prev := Accumulate(lines[..n], minElements, maxElements).value.data;
      var data := Accumulate(lines, minElements, maxElements).value.data;
      if Writes(lines[n], minElements, maxElements, key) {
        assert Lookup(data, key) == Some(lines[n].value.cpuTime);
      } else {
        assert Lookup(data, key) == Lookup(prev, key);
        LastLineSkipsWriters(lines, minElements, maxElements, prev, key);
        LastLineSkipsLastWriter(lines, minElements, maxElements, prev, key);
      }
    }
  }

  /** A line that matches nothing, or a record the filters drop. */
  predicate Inert(line: Option<ResultLine>, minElements: Option<int>, maxElements: Option<int>) {
    line.None? ||
    (DataTypeToSize(line.value.dataType).Success? && !MeetsBounds(line.value.numElements, minElements, maxElements))
  }

  /**
    A line that does not match the pattern, or a record outside the
    element-count filters, has no effect on data, data_sizes or cardinalities:
    removing it from anywhere in the input leaves the result unchanged.
  */
  lemma {:induction false} InertLineIgnored(before: seq<Option<ResultLine>>, line: Option<ResultLine>, after: seq<Option<ResultLine>>,
                                            minElements: Option<int>, maxElements: Option<int>)
    requires Inert(line, minElements, maxElements)
    ensures Accumulate(before + [line] + after, minElements, maxElements) == Accumulate(before + after, minElements, maxElements)
    decreases |after|
  {
    if |after| == 0 {
      assert before + [line] + after == before + [line];
      assert (before + [line])[..|before|] == before;
      assert before + after == before;
    } else {
      var n := |after| - 1;
      InertLineIgnored(before, line, after[..n], minElements, maxElements);
      assert (before + [line] + after)[..|before| + 1 + n] == before + [line] + after[..n];
      assert (before + after)[..|before| + n] == before + after[..n];
    }
  }

  // ---------------------------------------------------------------------------
  // parse_benchmark_results
  // ---------------------------------------------------------------------------

  /** BenchmarkResults(data, sizes_in_bytes, cardinalities) */
  datatype BenchmarkResults = BenchmarkResults(data: Table, sizesInBytes: seq<int>, cardinalities: seq<int>)

  predicate StrictlyAscending(s: seq<int>) {
    forall p, q :: 0 <= p < q < |s| ==> s[p] < s[q]
  }

  /** A set with no members is the empty set. */
  lemma EmptyWithoutMembers(s: set<int>)
    requires forall x :: x !in s
    ensures s == {}
  {
    assert forall x :: x in s <==> x in {};
  }

  /** A non-empty finite set of integers has a least element. */
  lemma {:induction false} MinimumExists(s: set<int>)
    requires s != {}
    ensures exists m :: m in s && forall y :: y in s ==> m <= y
    decreases |s|
  {
    if forall y :: y !in s {
      EmptyWithoutMembers(s);
    }
    var x :| x in s;
    var rest := s - {x};
    if forall y :: y !in rest {
      EmptyWithoutMembers(rest);
      forall y | y in s
        ensures x <= y
      {
        assert y !in rest;
      }
    } else {
      assert rest != {};
      MinimumExists(rest);
      var m :| m in rest && forall y :: y in rest ==> m <= y;
      var least := if x < m then x else m;
      forall y | y in s
        ensures least <= y
      {
        if y != x {
          assert y in rest;
        }
      }
      assert least in s;
    }
  }

  lemma AppendKeepsAscending(r: seq<int>, m: int)
    requires StrictlyAscending(r) && forall x :: x in r ==> x < m
    ensures StrictlyAscending(r + [m])
  {
    var r' := r + [m];
    forall p, q | 0 <= p < q < |r'|
      ensures r'[p] < r'[q]
    {
      assert r'[p] == r[p] && r[p] in r;
    }
  }

  /** sorted(s) for a set of integers: its elements in strictly ascending order. */
  method SortedList(s: set<int>) returns (r: seq<int>)
    ensures StrictlyAscending(r)
    ensures forall x :: x in r <==> x in s
    ensures |r| == |s|
  {
    r := [];
    var remaining := s;
    while remaining != {}
      invariant StrictlyAscending(r)
      invariant forall x :: x in s <==> x in r || x in remaining
      invariant forall x, y :: x in r && y in remaining ==> x < y
      invariant forall x :: x in r ==> x !in remaining
      invariant |r| + |remaining| == |s|
      decreases |remaining|
    {
      MinimumExists(remaining);
      var m :| m in remaining && forall y :: y in remaining ==> m <= y;
      AppendKeepsAscending(r, m);
      r := r + [m];
      remaining := remaining - {m};
    }
  }

  /**
    parse_benchmark_results: runs the loop over the lines and returns the table
    with the sorted sizes and element counts, or the exception the loop raised.
  */
  method ParseBenchmarkResults(benchmarkOutput: seq<Option<ResultLine>>, minElements: Option<int>, maxElements: Option<int>)
    returns (r: Result<BenchmarkResults, string>)
    ensures Accumulate(benchmarkOutput, minElements, maxElements).Failure? ==>
              r == Failure(Accumulate(benchmarkOutput, minElements, maxElements).error)
    ensures Accumulate(benchmarkOutput, minElements, maxElements).Success? ==>
              && r.Success?
              && r.value.data == Accumulate(benchmarkOutput, minElements, maxElements).value.data
              && StrictlyAscending(r.value.sizesInBytes)
              && (forall x :: x in r.value.sizesInBytes <==> x in Accumulate(benchmarkOutput, minElements, maxElements).value.dataSizes)
              && StrictlyAscending(r.value.cardinalities)
              && (forall x :: x in r.value.cardinalities <==> x in Accumulate(benchmarkOutput, minElements, maxElements).value.cardinalities)
  {
    var data: Table := map[];
    var dataSizes: set<int> := {};
    var cardinalities: set<int> := {};
    for i := 0 to |benchmarkOutput|
      invariant Accumulate(benchmarkOutput[..i], minElements, maxElements) == Success(Accumulator(data, dataSizes, cardinalities))
    {
      assert benchmarkOutput[..i + 1][..i] == benchmarkOutput[..i];
      var line := benchmarkOutput[i];
      if line.Some? {
        var benchmarkFn := line.value.benchmark;
        var containerType := line.value.container;
        if StartsWith(containerType, "std_") {
          containerType := ReplaceStd(containerType);
        }
        var dataSize := DataTypeToSize(line.value.dataType);
        if dataSize.Failure? {
          FailureIsFinal(benchmarkOutput, i + 1, minElements, maxElements);
          return Failure(dataSize.error);
        }
        var numElements := line.value.numElements;
        var cpuTime := line.value.cpuTime;
        var meetsMinRequirements := Falsy(minElements) || numElements >= minElements.value;
        var meetsMaxRequirements := Falsy(maxElements) || numElements <= maxElements.value;
        if meetsMinRequirements && meetsMaxRequirements {
          data := Store(data, Key(benchmarkFn, dataSize.value, containerType, numElements), cpuTime);
          dataSizes := dataSizes + {dataSize.value};
          cardinalities := cardinalities + {numElements};
        }
      }
    }
    assert benchmarkOutput[..|benchmarkOutput|] == benchmarkOutput;
    var sizesInBytes := SortedList(dataSizes);
    var sortedCardinalities := SortedList(cardinalities);
    r := Success(BenchmarkResults(data, sizesInBytes, sortedCardinalities));
  }

  // ---------------------------------------------------------------------------
  // name_file (inside graph_results)
  // ---------------------------------------------------------------------------

  /** The container kinds tried, in order, as `_kind_` substrings of the function name. */
  const CONTAINER_KINDS: seq<string> := ["vector", "set", "map", "interval_map"]

  /** op_decoder, in insertion order: function-name fragment and its description. */
  const OP_DECODER: seq<(string, string)> := [
    ("rand_read", "Random reads"),
    ("sequential_read", "Sequential reads"),
    ("insert", "Insertion"),
    ("lookup", "Random lookup"),
    ("set_read", "Random lookup")
  ]

  /** The index of the first of items[from..] whose pattern occurs in name, if any. */
  function FirstOccurring<T>(name: string, items: seq<T>, pattern: T -> string, from: nat): (r: Option<nat>)
    requires from <= |items|
    ensures r.Some? ==>
              && from <= r.value < |items| && Contains(name, pattern(items[r.value]))
              && forall j :: from <= j < r.value ==> !Contains(name, pattern(items[j]))
    ensures r.None? ==> forall j :: from <= j < |items| ==> !Contains(name, pattern(items[j]))
    decreases |items| - from
  {
    if from == |items| then None
    else if Contains(name, pattern(items[from])) then Some(from)
    else FirstOccurring(name, items, pattern, from + 1)
  }

  /** The `_kind_` substring that identifies a container kind. */
  function KindPattern(kind: string): string {
    "_" + kind + "_"
  }

  /** The function-name fragment of an op_decoder entry. */
  function OpKey(op: (string, string)): string {
    op.0
  }

  /** The `type` name_file picks: the first kind whose `_kind_` occurs in the name. */
  function ContainerKind(name: string): Option<string> {
    match FirstOccurring(name, CONTAINER_KINDS, KindPattern, 0)
    case Some(k) => Some(CONTAINER_KINDS[k])
    case None => None
  }

  /** How `"%s" % type` prints the kind: Python formats None as "None". */
  function KindText(name: string): string {
    match ContainerKind(name)
    case Some(kind) => kind
    case None => "None"
  }

  /**
    name_file(benchmark_function_name, data_size, max_container_size). The
    fallback uses the enclosing loop's benchmark_fn, which is the name passed
    in at the only call site.
  */
  function NameFile(name: string, dataSize: int, maxContainerSize: int): string {
    match FirstOccurring(name, OP_DECODER, OpKey, 0)
    case Some(k) =>
      OP_DECODER[k].1 + " in " + KindText(name) + "s up to " + IntToDecimal(maxContainerSize)
        + " elements (" + IntToDecimal(dataSize) + " byte data).png"
    case None => name + "_data_size_" + IntToDecimal(dataSize) + ".png"
  }

  /**
    When the op_decoder key at k is the first one (in insertion order) that
    occurs in the name, the file is named after its description.
  */
  lemma NameFileDescribesFirstOp(name: string, dataSize: int, maxContainerSize: int, k: int)
    requires 0 <= k < |OP_DECODER| && Contains(name, OpKey(OP_DECODER[k]))
    requires forall j :: 0 <= j < k ==> !Contains(name, OpKey(OP_DECODER[j]))
    ensures NameFile(name, dataSize, maxContainerSize) ==
              OP_DECODER[k].1 + " in " + KindText(name) + "s up to " + IntToDecimal(maxContainerSize)
                + " elements (" + IntToDecimal(dataSize) + " byte data).png"
  {
    assert FirstOccurring(name, OP_DECODER, OpKey, 0) == Some(k);
  }

  /** When no op_decoder key occurs in the name, the file is `<name>_data_size_<size>.png`. */
  lemma NameFileFallback(name: string, dataSize: int, maxContainerSize: int)
    requires forall k :: 0 <= k < |OP_DECODER| ==> !Contains(name, OpKey(OP_DECODER[k]))
    ensures NameFile(name, dataSize, maxContainerSize) == name + "_data_size_" + IntToDecimal(dataSize) + ".png"
  {
    assert FirstOccurring(name, OP_DECODER, OpKey, 0) == None;
  }

  /** `_map_` occurs inside `_interval_map_`. */
  lemma MapInsideIntervalMap()
    ensures Contains(KindPattern("interval_map"), KindPattern("map"))
  {
    assert OccursAt(KindPattern("interval_map"), KindPattern("map"), 9);
    ContainsAt(KindPattern("interval_map"), KindPattern("map"));
  }

  /**
    Because `_map_` is tried before `_interval_map_`, and occurs inside it,
    interval-map functions are labelled "map".
  */
  lemma IntervalMapLabelledMap(name: string)
    requires Contains(name, KindPattern("interval_map"))
    requires !Contains(name, KindPattern("vector")) && !Contains(name, KindPattern("set"))
    ensures ContainerKind(name) == Some("map")
  {
    MapInsideIntervalMap();
    ContainsTransitive(name, KindPattern("interval_map"), KindPattern("map"));
    assert CONTAINER_KINDS[0] == "vector" && CONTAINER_KINDS[1] == "set" && CONTAINER_KINDS[2] == "map";
    assert FirstOccurring(name, CONTAINER_KINDS, KindPattern, 2) == Some(2);
    assert FirstOccurring(name, CONTAINER_KINDS, KindPattern, 1) == Some(2);
    assert FirstOccurring(name, CONTAINER_KINDS, KindPattern, 0) == Some(2);
  }
}
