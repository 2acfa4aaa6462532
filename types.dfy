/**
 * The type catalog of bearly (src/bearly/types.hpp): the closed `Type`
 * variant of column markers, the closed `Scalar` variant of result values,
 * the map from a nanoarrow type tag to a marker, the reverse map from a
 * scalar to a tag, and the choice of append routine for a scalar.
 */
module Types {
  import opened Wrappers

  // Fixed-width C integer types.
  type uint8 = x: int | 0 <= x < 0x100
  type int8 = x: int | -0x80 <= x < 0x80
  type uint16 = x: int | 0 <= x < 0x1_0000
  type int16 = x: int | -0x8000 <= x < 0x8000
  type uint32 = x: int | 0 <= x < 0x1_0000_0000
  type int32 = x: int | -0x8000_0000 <= x < 0x8000_0000
  type uint64 = x: int | 0 <= x < 0x1_0000_0000_0000_0000
  type int64 = x: int | -0x8000_0000_0000_0000 <= x < 0x8000_0000_0000_0000

  const Two64: int := 0x1_0000_0000_0000_0000

  predicate InInt64(x: int) {
    -0x8000_0000_0000_0000 <= x < 0x8000_0000_0000_0000
  }

  /** The markers of the `Type` variant; `MonostateType` is std::monostate. */
  datatype Type =
    | UninitializedType | NAType | BooleanType | UInt8Type | Int8Type | UInt16Type
    | Int16Type | UInt32Type | Int32Type | UInt64Type | Int64Type | HalfFloatType
    | FloatType | DoubleType | StringType | BinaryType | MonostateType

  /** std::variant_size_v<Type>. */
  const TypeVariantSize: nat := 17

  /** The alternatives of `Type` in declaration order: position i is std::in_place_index<i>. */
  const Alternatives: seq<Type> :=
    [ UninitializedType, NAType, BooleanType, UInt8Type, Int8Type, UInt16Type,
      Int16Type, UInt32Type, Int32Type, UInt64Type, Int64Type, HalfFloatType,
      FloatType, DoubleType, StringType, BinaryType, MonostateType ]

  /** The position of a marker in the variant (Type::index()). */
  function VariantIndex(t: Type): (i: nat)
    ensures i < TypeVariantSize == |Alternatives|
    ensures Alternatives[i] == t
  {
    match t
    case UninitializedType => 0
    case NAType => 1
    case BooleanType => 2
    case UInt8Type => 3
    case Int8Type => 4
    case UInt16Type => 5
    case Int16Type => 6
    case UInt32Type => 7
    case Int32Type => 8
    case UInt64Type => 9
    case Int64Type => 10
    case HalfFloatType => 11
    case FloatType => 12
    case DoubleType => 13
    case StringType => 14
    case BinaryType => 15
    case MonostateType => 16
  }

  /**
   * The compile-time recursion of TypeVariantFromArrowType<I>: at level `i`
   * a remaining index of 0 picks alternative `i`, otherwise the index is
   * decremented and the next level is tried; past the last level the result
   * is std::monostate.
   */
  function TypeVariantFrom(i: nat, index: nat): (r: Type)
    requires i <= TypeVariantSize
    decreases TypeVariantSize - i
    ensures r == if i + index < TypeVariantSize then Alternatives[i + index] else MonostateType
  {
    if i >= TypeVariantSize then MonostateType
    else if index == 0 then Alternatives[i]
    else TypeVariantFrom(i + 1, index - 1)
  }

  /** The marker for a type tag: total, and std::monostate for every tag past the variant. */
  function TypeVariantFromArrowType(index: nat): (r: Type)
    ensures index < TypeVariantSize ==> r == Alternatives[index] && VariantIndex(r) == index
    ensures index >= TypeVariantSize ==> r == MonostateType
  {
    TypeVariantFrom(0, index)
  }

  /** The enumerators of nanoarrow's ArrowType that this catalog uses. */
  datatype ArrowType =
    | Uninitialized | Na | Bool | UInt8 | Int8 | UInt16 | Int16 | UInt32 | Int32
    | UInt64 | Int64 | HalfFloat | Float | Double | String | Binary
  {
    /** The enumerator's integer value (NANOARROW_TYPE_UNINITIALIZED = 0, ..., NANOARROW_TYPE_BINARY = 15). */
    function Tag(): nat {
      match this
      case Uninitialized => 0
      case Na => 1
      case Bool => 2
      case UInt8 => 3
      case Int8 => 4
      case UInt16 => 5
      case Int16 => 6
      case UInt32 => 7
      case Int32 => 8
      case UInt64 => 9
      case Int64 => 10
      case HalfFloat => 11
      case Float => 12
      case Double => 13
      case String => 14
      case Binary => 15
    }
  }

  /** The marker named after an enumerator (NANOARROW_TYPE_STRING names StringType, and so on). */
  function NamesakeMarker(a: ArrowType): Type {
    match a
    case Uninitialized => UninitializedType
    case Na => NAType
    case Bool => BooleanType
    case UInt8 => UInt8Type
    case Int8 => Int8Type
    case UInt16 => UInt16Type
    case Int16 => Int16Type
    case UInt32 => UInt32Type
    case Int32 => Int32Type
    case UInt64 => UInt64Type
    case Int64 => Int64Type
    case HalfFloat => HalfFloatType
    case Float => FloatType
    case Double => DoubleType
    case String => StringType
    case Binary => BinaryType
  }

  /** The tag table mirrors the variant order: every tag resolves to the marker of its own name. */
  lemma TagsMirrorVariantOrder(a: ArrowType)
    ensures a.Tag() < TypeVariantSize - 1
    ensures TypeVariantFromArrowType(a.Tag()) == NamesakeMarker(a)
  {
  }

  /** Distinct enumerators have distinct tags. */
  lemma TagInjective(a: ArrowType, b: ArrowType)
    requires a.Tag() == b.Tag()
    ensures a == b
  {
  }

  /** The values of the `Scalar` variant; `NoValue` is std::monostate. */
  datatype Scalar =
    | BoolScalar(b: bool)
    | UInt8Scalar(u8: uint8)
    | Int8Scalar(i8: int8)
    | UInt16Scalar(u16: uint16)
    | Int16Scalar(i16: int16)
    | UInt32Scalar(u32: uint32)
    | Int32Scalar(i32: int32)
    | UInt64Scalar(u64: uint64)
    | Int64Scalar(i64: int64)
    | FloatScalar(f: real)
    | DoubleScalar(d: real)
    | NoValue

  /** The marker whose c_type is the scalar's alternative. */
  function MarkerOf(s: Scalar): Type {
    match s
    case BoolScalar(_) => BooleanType
    case UInt8Scalar(_) => UInt8Type
    case Int8Scalar(_) => Int8Type
    case UInt16Scalar(_) => UInt16Type
    case Int16Scalar(_) => Int16Type
    case UInt32Scalar(_) => UInt32Type
    case Int32Scalar(_) => Int32Type
    case UInt64Scalar(_) => UInt64Type
    case Int64Scalar(_) => Int64Type
    case FloatScalar(_) => FloatType
    case DoubleScalar(_) => DoubleType
    case NoValue => MonostateType
  }

  /** The marker declares a c_type (every marker but Uninitialized, NA, HalfFloat, String, Binary, monostate). */
  predicate HasCType(t: Type) {
    t in {BooleanType, UInt8Type, Int8Type, UInt16Type, Int16Type, UInt32Type,
          Int32Type, UInt64Type, Int64Type, FloatType, DoubleType}
  }

  /** std::is_unsigned_v<T::c_type>: true for bool and the unsigned integers. */
  predicate IsUnsignedCType(t: Type) {
    t in {BooleanType, UInt8Type, UInt16Type, UInt32Type, UInt64Type}
  }

  /** Every scalar other than monostate holds the c_type of some marker, and only those. */
  lemma MarkerOfHasCType(s: Scalar)
    ensures HasCType(MarkerOf(s)) <==> !s.NoValue?
  {
  }

  /** ArrowTypeVisitor: the type tag for a scalar's alternative. */
  function ArrowTypeVisitor(s: Scalar): (a: ArrowType)
    ensures s.NoValue? <==> a == Uninitialized
    ensures !s.NoValue? ==> TypeVariantFromArrowType(a.Tag()) == MarkerOf(s)
  {
    match s
    case BoolScalar(_) => Bool
    case UInt8Scalar(_) => UInt8
    case Int8Scalar(_) => Int8
    case UInt16Scalar(_) => UInt16
    case Int16Scalar(_) => Int16
    case UInt32Scalar(_) => UInt32
    case Int32Scalar(_) => Int32
    case UInt64Scalar(_) => UInt64
    case Int64Scalar(_) => Int64
    case FloatScalar(_) => Float
    case DoubleScalar(_) => Double
    case NoValue => Uninitialized
  }

  /** Scalars of different alternatives get different tags. */
  lemma ArrowTypeVisitorInjective(s1: Scalar, s2: Scalar)
    requires !s1.NoValue? && !s2.NoValue?
    requires MarkerOf(s1) != MarkerOf(s2)
    ensures ArrowTypeVisitor(s1) != ArrowTypeVisitor(s2)
  {
  }

  /** The monostate scalar does not round-trip: its tag resolves to UninitializedType. */
  lemma MonostateRoundTrip()
    ensures TypeVariantFromArrowType(ArrowTypeVisitor(NoValue).Tag()) == UninitializedType
    ensures MarkerOf(NoValue) == MonostateType
  {
  }

  /** The scalar as an integer (bool as 0 or 1); none for floating point and monostate. */
  function IntegerValue(s: Scalar): Option<int> {
    match s
    case BoolScalar(b) => Some(if b then 1 else 0)
    case UInt8Scalar(v) => Some(v)
    case Int8Scalar(v) => Some(v)
    case UInt16Scalar(v) => Some(v)
    case Int16Scalar(v) => Some(v)
    case UInt32Scalar(v) => Some(v)
    case Int32Scalar(v) => Some(v)
    case UInt64Scalar(v) => Some(v)
    case Int64Scalar(v) => Some(v)
    case FloatScalar(_) => None
    case DoubleScalar(_) => None
    case NoValue => None
  }

  /**
   * The nanoarrow append routine ArrowArrayAppendVisitor calls for a scalar,
   * with the argument it passes, or EINVAL. Only the choice is modelled.
   */
  datatype AppendCall =
    | AppendInt(iv: int64)
    | AppendUInt(uv: uint64)
    | AppendDouble(dv: real)
    | Einval

  function ArrowArrayAppendVisitor(s: Scalar): (c: AppendCall)
    ensures c == Einval <==> s.NoValue?
    ensures c.AppendDouble? <==> s.FloatScalar? || s.DoubleScalar?
    ensures c.AppendUInt? <==> !s.BoolScalar? && IsUnsignedCType(MarkerOf(s))
    ensures c.AppendInt? <==> IntegerValue(s).Some? && !c.AppendUInt?
    ensures c.AppendInt? ==> IntegerValue(s) == Some(c.iv as int)
    ensures c.AppendUInt? ==> IntegerValue(s) == Some(c.uv as int)
    ensures c.AppendDouble? ==> c.dv == if s.FloatScalar? then s.f else s.d
  {
    match s
    case BoolScalar(b) => AppendInt(if b then 1 else 0)
    case UInt8Scalar(v) => AppendUInt(v)
    case Int8Scalar(v) => AppendInt(v)
    case UInt16Scalar(v) => AppendUInt(v)
    case Int16Scalar(v) => AppendInt(v)
    case UInt32Scalar(v) => AppendUInt(v)
    case Int32Scalar(v) => AppendInt(v)
    case UInt64Scalar(v) => AppendUInt(v)
    case Int64Scalar(v) => AppendInt(v)
    case FloatScalar(x) => AppendDouble(x)
    case DoubleScalar(x) => AppendDouble(x)
    case NoValue => Einval
  }
}
