/**
  The payload types of the benchmarks and their synthetic value generator
  (data_types.h).

  The composites hold C++ `double` fields. Every value the generator stores in
  them is an integer of magnitude below 2^31, which a double represents
  exactly, so the fields are modelled as mathematical integers (NaN and
  rounding never arise).
*/
module DataTypes {

  const INT32_MAX: int := 0x7fff_ffff
  const INT64_MAX: int := 0x7fff_ffff_ffff_ffff
  const TWO_TO_32: int := 0x1_0000_0000

  /** size_16: two doubles, 16 bytes. */
  datatype Size16 = Size16(a: int, b: int)

  /** size_64: four size_16 members, 64 bytes. */
  datatype Size64 = Size64(a: Size16, b: Size16, c: Size16, d: Size16)

  // ---------------------------------------------------------------------------
  // Operators of size_16 and size_64
  // ---------------------------------------------------------------------------

  /** size_16::operator<: BOTH fields strictly smaller (not lexicographic). */
  predicate Less16(x: Size16, y: Size16) {
    x.a < y.a && x.b < y.b
  }

  /** size_16::operator== */
  predicate Equal16(x: Size16, y: Size16) {
    x.a == y.a && x.b == y.b
  }

  /** size_16::operator!=, written as the negation of operator== */
  predicate NotEqual16(x: Size16, y: Size16) {
    !Equal16(x, y)
  }

  /** size_64::operator<: every member strictly smaller under size_16::operator<. */
  predicate Less64(x: Size64, y: Size64) {
    Less16(x.a, y.a) && Less16(x.b, y.b) && Less16(x.c, y.c) && Less16(x.d, y.d)
  }

  /** size_64::operator== */
  predicate Equal64(x: Size64, y: Size64) {
    Equal16(x.a, y.a) && Equal16(x.b, y.b) && Equal16(x.c, y.c) && Equal16(x.d, y.d)
  }

  /** size_64::operator!= */
  predicate NotEqual64(x: Size64, y: Size64) {
    !Equal64(x, y)
  }

  /** The eight numeric fields of a size_64 in declaration order a.a, a.b, b.a, ..., d.b. */
  function Fields64(x: Size64): (r: seq<int>)
    ensures |r| == 8
  {
    [x.a.a, x.a.b, x.b.a, x.b.b, x.c.a, x.c.b, x.d.a, x.d.b]
  }

  // ---------------------------------------------------------------------------
  // generate_value<T>
  // ---------------------------------------------------------------------------

  /** The four template arguments the benchmarks are instantiated with. */
  datatype ValueType = Int32Type | Int64Type | Size16Type | Size64Type

  /** A generated payload of one of the four types. */
  datatype Value =
    | Int32Value(i32: int)
    | Int64Value(i64: int)
    | Size16Value(s16: Size16)
    | Size64Value(s64: Size64)

  /**
    The largest index generate_value<T> accepts: the specialisations compute
    `iteration + k` in 32-bit signed arithmetic (k up to 1 for size_16, up to 7
    for size_64), which must not overflow.
  */
  function MaxIndex(t: ValueType): (m: int)
    ensures 0 < m <= INT32_MAX
  {
    match t
    case Int32Type => INT32_MAX
    case Int64Type => INT32_MAX
    case Size16Type => INT32_MAX - 1
    case Size64Type => INT32_MAX - 7
  }

  /** Indices for which the model of generate_value<T> is defined: non-negative and without overflow. */
  predicate GenerateDefined(t: ValueType, i: int) {
    0 <= i <= MaxIndex(t)
  }

  /** generate_value<int32_t>: the index itself. */
  function GenerateInt32(i: int): int
    requires 0 <= i <= INT32_MAX
  {
    i
  }

  /**
    generate_value<int64_t>: `iteration + ((int64_t)iteration << 32)`. For a
    non-negative index the shift is a multiplication by 2^32, and both 32-bit
    halves of the result hold the index.
  */
  function GenerateInt64(i: int): (r: int)
    requires 0 <= i <= INT32_MAX
    ensures 0 <= r <= INT64_MAX
    ensures r % TWO_TO_32 == i && r / TWO_TO_32 == i
  {
    i + i * TWO_TO_32
  }

  /** generate_value<size_16>: (iteration, iteration + 1). */
  function GenerateSize16(i: int): Size16
    requires 0 <= i < INT32_MAX
  {
    Size16(i, i + 1)
  }

  /** generate_value<size_64>: four size_16 seeded at iteration, +2, +4, +6. */
  function GenerateSize64(i: int): Size64
    requires 0 <= i <= INT32_MAX - 7
  {
    Size64(Size16(i, i + 1), Size16(i + 2, i + 3), Size16(i + 4, i + 5), Size16(i + 6, i + 7))
  }

  /** generate_value<T>(i) for the template argument T. */
  function Generate(t: ValueType, i: int): (v: Value)
    requires GenerateDefined(t, i)
    ensures HasType(v, t)
  {
    match t
    case Int32Type => Int32Value(GenerateInt32(i))
    case Int64Type => Int64Value(GenerateInt64(i))
    case Size16Type => Size16Value(GenerateSize16(i))
    case Size64Type => Size64Value(GenerateSize64(i))
  }

  predicate HasType(v: Value, t: ValueType) {
    match t
    case Int32Type => v.Int32Value?
    case Int64Type => v.Int64Value?
    case Size16Type => v.Size16Value?
    case Size64Type => v.Size64Value?
  }

  /** operator< of the payload type (built-in < for the integers). */
  predicate ValueLess(x: Value, y: Value) {
    match (x, y)
    case (Int32Value(p), Int32Value(q)) => p < q
    case (Int64Value(p), Int64Value(q)) => p < q
    case (Size16Value(p), Size16Value(q)) => Less16(p, q)
    case (Size64Value(p), Size64Value(q)) => Less64(p, q)
    case _ => false
  }

  /** operator== of the payload type (built-in == for the integers). */
  predicate ValueEqual(x: Value, y: Value) {
    match (x, y)
    case (Int32Value(p), Int32Value(q)) => p == q
    case (Int64Value(p), Int64Value(q)) => p == q
    case (Size16Value(p), Size16Value(q)) => Equal16(p, q)
    case (Size64Value(p), Size64Value(q)) => Equal64(p, q)
    case _ => false
  }

  /** The C++ spelling of the template argument, as it appears in benchmark names. */
  function TypeName(t: ValueType): string {
    match t
    case Int32Type => "int32_t"
    case Int64Type => "int64_t"
    case Size16Type => "size_16"
    case Size64Type => "size_64"
  }

  /** sizeof(T) in bytes. */
  function ByteSize(t: ValueType): nat {
    match t
    case Int32Type => 4
    case Int64Type => 8
    case Size16Type => 16
    case Size64Type => 64
  }

  // ---------------------------------------------------------------------------
  // Properties of the operators
  // ---------------------------------------------------------------------------

  /** operator!= is exactly the negation of operator==, which is structural equality. */
  lemma EqualityOperators(x: Size16, y: Size16, u: Size64, w: Size64)
    ensures NotEqual16(x, y) <==> !Equal16(x, y)
    ensures Equal16(x, y) <==> x == y
    ensures NotEqual64(u, w) <==> !Equal64(u, w)
    ensures Equal64(u, w) <==> u == w
  {
  }

  /** operator< of both composites is a strict partial order: irreflexive and transitive. */
  lemma LessIsStrictPartialOrder(x: Size16, y: Size16, z: Size16, u: Size64, v: Size64, w: Size64)
    ensures !Less16(x, x) && (Less16(x, y) && Less16(y, z) ==> Less16(x, z))
    ensures !Less64(u, u) && (Less64(u, v) && Less64(v, w) ==> Less64(u, w))
  {
  }

  /** Two values neither of which is below the other under operator<. */
  predicate Incomparable16(x: Size16, y: Size16) {
    !Less16(x, y) && !Less16(y, x)
  }

  predicate Incomparable64(x: Size64, y: Size64) {
    !Less64(x, y) && !Less64(y, x)
  }

  /**
    A strict weak order (what std::set and std::map need of their comparator)
    requires incomparability to be transitive.
  */
  ghost predicate IncomparabilityTransitive16() {
    forall x, y, z :: Incomparable16(x, y) && Incomparable16(y, z) ==> Incomparable16(x, z)
  }

  ghost predicate IncomparabilityTransitive64() {
    forall x, y, z :: Incomparable64(x, y) && Incomparable64(y, z) ==> Incomparable64(x, z)
  }

  /**
    On arbitrary values operator< is NOT a strict weak order: (0,2) and (1,1)
    are unequal and incomparable, and (0,0) ~ (0,5) ~ (1,1) while (0,0) < (1,1).
  */
  lemma LessNotStrictWeakOrder()
    ensures NotEqual16(Size16(0, 2), Size16(1, 1)) && Incomparable16(Size16(0, 2), Size16(1, 1))
    ensures !IncomparabilityTransitive16()
    ensures !IncomparabilityTransitive64()
  {
    var x, y, z := Size16(0, 0), Size16(0, 5), Size16(1, 1);
    assert Incomparable16(x, y) && Incomparable16(y, z) && !Incomparable16(x, z);
    var u, v, w := Size64(x, x, x, x), Size64(y, y, y, y), Size64(z, z, z, z);
    assert Incomparable64(u, v) && Incomparable64(v, w) && !Incomparable64(u, w);
  }

  // ---------------------------------------------------------------------------
  // Properties of generate_value
  // ---------------------------------------------------------------------------

  /** generate_value<int32_t> is the identity. */
  lemma GenerateInt32IsIdentity(i: int)
    requires 0 <= i <= INT32_MAX
    ensures Generate(Int32Type, i) == Int32Value(i)
  {
  }

  /** The two 32-bit halves of generate_value<int64_t>(i) both decode to i, so the map is injective. */
  lemma GenerateInt64Injective(i: int, j: int)
    requires 0 <= i <= INT32_MAX && 0 <= j <= INT32_MAX
    ensures GenerateInt64(i) == GenerateInt64(j) <==> i == j
  {
    if GenerateInt64(i) == GenerateInt64(j) {
      assert i == GenerateInt64(i) % TWO_TO_32 == GenerateInt64(j) % TWO_TO_32 == j;
    }
  }

  /** The eight fields of generate_value<size_64>(i) are i, i+1, ..., i+7 in order, hence pairwise distinct. */
  lemma GenerateSize64Fields(i: int)
    requires 0 <= i <= INT32_MAX - 7
    ensures forall k :: 0 <= k < 8 ==> Fields64(GenerateSize64(i))[k] == i + k
    ensures forall p, q :: 0 <= p < q < 8 ==> Fields64(GenerateSize64(i))[p] != Fields64(GenerateSize64(i))[q]
  {
  }

  /**
    Generation is deterministic and injective under the type's own operator==:
    the same index gives equal values, distinct indices give unequal values.
  */
  lemma GenerateInjective(t: ValueType, i: int, j: int)
    requires GenerateDefined(t, i) && GenerateDefined(t, j)
    ensures ValueEqual(Generate(t, i), Generate(t, j)) <==> i == j
    ensures Generate(t, i) == Generate(t, j) <==> i == j
  {
    if t == Int64Type {
      GenerateInt64Injective(i, j);
    }
  }

  /** On generated values operator< follows the indices: generate(i) < generate(j) iff i < j. */
  lemma GeneratedLessIff(t: ValueType, i: int, j: int)
    requires GenerateDefined(t, i) && GenerateDefined(t, j)
    ensures ValueLess(Generate(t, i), Generate(t, j)) <==> i < j
  {
    if t == Int64Type && i < j {
      assert GenerateInt64(i) < GenerateInt64(j) by {
        assert i * TWO_TO_32 < j * TWO_TO_32;
      }
    }
    if t == Int64Type && j <= i {
      assert GenerateInt64(j) <= GenerateInt64(i) by {
        assert j * TWO_TO_32 <= i * TWO_TO_32;
      }
    }
  }

  /**
    Hence operator< is a strict total order on any set of generated values:
    two of them are either equal or comparable, and they are equal under
    operator< equivalence (neither below the other) only when they are the
    same value.
  */
  lemma GeneratedValuesTotallyOrdered(t: ValueType, i: int, j: int)
    requires GenerateDefined(t, i) && GenerateDefined(t, j)
    ensures Generate(t, i) != Generate(t, j) ==>
              ValueLess(Generate(t, i), Generate(t, j)) || ValueLess(Generate(t, j), Generate(t, i))
    ensures (!ValueLess(Generate(t, i), Generate(t, j)) && !ValueLess(Generate(t, j), Generate(t, i)))
              <==> Generate(t, i) == Generate(t, j)
  {
    GeneratedLessIff(t, i, j);
    GeneratedLessIff(t, j, i);
    GenerateInjective(t, i, j);
  }
}
