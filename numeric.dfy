/**
 * The sum accumulator of bearly (src/bearly/computations/numeric.hpp):
 * SumVisitor folds one column of optional values into a 64-bit scalar when
 * the column's marker is a fixed-size primitive, and gives std::monostate
 * for every other marker.
 */
module Numeric {
  import opened Wrappers
  import opened Types

  /** One column as the view yields it: an entry per row, `None` for a null. */
  type Column = seq<Option<int>>

  /** The FixedSizePrimitive concept: bool, the eight integer widths, float and double. */
  predicate IsFixedSizePrimitive(t: Type) {
    t in {BooleanType, Int8Type, UInt8Type, Int16Type, UInt16Type, Int32Type,
          UInt32Type, Int64Type, UInt64Type, FloatType, DoubleType}
  }

  /** Every FixedSizePrimitive marker declares a c_type, and no other marker does. */
  lemma FixedSizeHasCType(t: Type)
    ensures IsFixedSizePrimitive(t) <==> HasCType(t)
  {
  }

  /** The mathematical sum of a column, nulls counting as 0, as a left fold. */
  function Total(column: Column): int {
    if column == [] then 0
    else Total(column[..|column| - 1]) + column[|column| - 1].GetOr(0)
  }

  /** Every partial sum of the left fold fits in int64 (signed overflow is undefined behaviour). */
  predicate NoSignedOverflow(column: Column) {
    forall k :: 0 <= k <= |column| ==> InInt64(Total(column[..k]))
  }

  /** The number of true entries of a boolean column (true is 1). */
  function CountTrue(column: Column): nat {
    if column == [] then 0
    else CountTrue(column[..|column| - 1]) + (if column[|column| - 1] == Some(1) then 1 else 0)
  }

  /** Every non-null entry is a value of the marker's c_type (bool as 0 or 1). */
  predicate ColumnFits(t: Type, column: Column) {
    forall k :: 0 <= k < |column| && column[k].Some? ==> FitsCType(t, column[k].value)
  }

  predicate FitsCType(t: Type, v: int) {
    match t
    case BooleanType => v == 0 || v == 1
    case UInt8Type => 0 <= v < 0x100
    case Int8Type => -0x80 <= v < 0x80
    case UInt16Type => 0 <= v < 0x1_0000
    case Int16Type => -0x8000 <= v < 0x8000
    case UInt32Type => 0 <= v < 0x1_0000_0000
    case Int32Type => -0x8000_0000 <= v < 0x8000_0000
    case UInt64Type => 0 <= v < Two64
    case Int64Type => InInt64(v)
    case _ => true
  }

  lemma ModAddLeft(a: int, v: int)
    ensures ((a % Two64) + v) % Two64 == (a + v) % Two64
  {
    var q := a / Two64;
    assert a == q * Two64 + a % Two64;
    assert (a + v) == ((a % Two64) + v) + q * Two64;
  }

  /** The fold `a += b.value_or(0)` with a uint64_t accumulator, which wraps modulo 2^64. */
  function WrappingFold(column: Column): (r: uint64)
    ensures r == Total(column) % Two64
  {
    if column == [] then 0
    else
      var prefix := column[..|column| - 1];
      var a := WrappingFold(prefix);
      ModAddLeft(Total(prefix), column[|column| - 1].GetOr(0));
      (a + column[|column| - 1].GetOr(0)) % Two64
  }

  /** The fold `a += b.value_or(0)` with an int64_t accumulator, for inputs that never overflow. */
  function CheckedFold(column: Column): (r: int64)
    requires NoSignedOverflow(column)
    ensures r == Total(column)
  {
    if column == [] then 0
    else
      var prefix := column[..|column| - 1];
      assert NoSignedOverflow(prefix) by {
        forall k | 0 <= k <= |prefix| ensures InInt64(Total(prefix[..k])) {
          assert prefix[..k] == column[..k];
        }
      }
      assert column[..|column|] == column;
      CheckedFold(prefix) + column[|column| - 1].GetOr(0)
  }

  /**
   * SumVisitor applied to a marker and the column viewed as its c_type:
   * the fold into uint64 for unsigned c_types (bool included), into int64
   * for every other fixed-size primitive, and monostate for the rest.
   */
  function SumVisitor(t: Type, column: Column): (r: Scalar)
    requires IsFixedSizePrimitive(t) && !IsUnsignedCType(t) ==> NoSignedOverflow(column)
    ensures r == NoValue <==> !IsFixedSizePrimitive(t)
    ensures IsFixedSizePrimitive(t) && IsUnsignedCType(t) ==> r.UInt64Scalar? && r.u64 == Total(column) % Two64
    ensures IsFixedSizePrimitive(t) && !IsUnsignedCType(t) ==> r.Int64Scalar? && r.i64 == Total(column)
  {
    if !IsFixedSizePrimitive(t) then NoValue
    else if IsUnsignedCType(t) then UInt64Scalar(WrappingFold(column))
    else Int64Scalar(CheckedFold(column))
  }

  /** The sum of a concatenation is the sum of the parts: chunk boundaries do not matter. */
  lemma {:induction false} TotalAppend(xs: Column, ys: Column)
    ensures Total(xs + ys) == Total(xs) + Total(ys)
    decreases |ys|
  {
    if ys == [] {
      assert xs + ys == xs;
    } else {
      var ys' := ys[..|ys| - 1];
      assert (xs + ys)[..|xs + ys| - 1] == xs + ys';
      TotalAppend(xs, ys');
    }
  }

  /** A null inserted anywhere leaves the sum unchanged. */
  lemma NullInsertion(xs: Column, ys: Column)
    ensures Total(xs + [None] + ys) == Total(xs + ys)
  {
    TotalAppend(xs + [None], ys);
    TotalAppend(xs, [None]);
    TotalAppend(xs, ys);
    assert Total([None]) == Total([]) + 0;
  }

  /** An all-null column sums to 0. */
  lemma {:induction false} TotalAllNull(column: Column)
    requires forall k :: 0 <= k < |column| ==> column[k] == None
    ensures Total(column) == 0
    decreases |column|
  {
    if column != [] {
      TotalAllNull(column[..|column| - 1]);
    }
  }

  /** An empty or all-null fixed-size column sums to the zero of its result type, not to monostate. */
  lemma SumVisitorAllNull(t: Type, column: Column)
    requires IsFixedSizePrimitive(t)
    requires forall k :: 0 <= k < |column| ==> column[k] == None
    ensures NoSignedOverflow(column)
    ensures SumVisitor(t, column) == if IsUnsignedCType(t) then UInt64Scalar(0) else Int64Scalar(0)
  {
    TotalAllNull(column);
    assert NoSignedOverflow(column) by {
      forall k | 0 <= k <= |column| ensures InInt64(Total(column[..k])) {
        TotalAllNull(column[..k]);
      }
    }
  }

  /** The result is uint64 for unsigned sources and int64 for the rest, never the source's own width. */
  lemma SumVisitorResultKind(t: Type, column: Column)
    requires IsFixedSizePrimitive(t) && !IsUnsignedCType(t) ==> NoSignedOverflow(column)
    requires IsFixedSizePrimitive(t)
    ensures MarkerOf(SumVisitor(t, column)) == if IsUnsignedCType(t) then UInt64Type else Int64Type
    ensures MarkerOf(SumVisitor(t, column)) == t <==> t == UInt64Type || t == Int64Type
  {
  }

  /** Summing two parts and adding the results in the result domain gives the sum of the whole. */
  lemma SumVisitorConcat(t: Type, xs: Column, ys: Column)
    requires IsFixedSizePrimitive(t)
    requires !IsUnsignedCType(t) ==> NoSignedOverflow(xs) && NoSignedOverflow(ys) && NoSignedOverflow(xs + ys)
    ensures IsUnsignedCType(t) ==>
      SumVisitor(t, xs + ys).u64 == (SumVisitor(t, xs).u64 + SumVisitor(t, ys).u64) % Two64
    ensures !IsUnsignedCType(t) ==>
      SumVisitor(t, xs + ys).i64 == SumVisitor(t, xs).i64 + SumVisitor(t, ys).i64
  {
    TotalAppend(xs, ys);
    var a, b := Total(xs), Total(ys);
    ModAddLeft(a, b);
    ModAddLeft(b, a % Two64);
  }

  /** A boolean column sums to its count of true entries, modulo 2^64. */
  lemma {:induction false} BoolSumCountsTrue(column: Column)
    requires ColumnFits(BooleanType, column)
    ensures Total(column) == CountTrue(column) <= |column|
    ensures SumVisitor(BooleanType, column) == UInt64Scalar(CountTrue(column) % Two64)
    decreases |column|
  {
    if column != [] {
      var prefix := column[..|column| - 1];
      assert ColumnFits(BooleanType, prefix) by {
        forall k | 0 <= k < |prefix| && prefix[k].Some? ensures FitsCType(BooleanType, prefix[k].value) {
          assert prefix[k] == column[k];
        }
      }
      BoolSumCountsTrue(prefix);
      assert column[|column| - 1].Some? ==> FitsCType(BooleanType, column[|column| - 1].value);
    }
  }

  /** The integer columns of the package's sum test: [1, 2, null] gives 3, [3, null, 4] gives 7, a string column, whatever it holds, gives nothing. */
  lemma SumTestExamples()
    ensures NoSignedOverflow([Some(1), Some(2), None])
    ensures NoSignedOverflow([Some(3), None, Some(4)])
    ensures SumVisitor(Int64Type, [Some(1), Some(2), None]) == Int64Scalar(3)
    ensures SumVisitor(Int64Type, [Some(3), None, Some(4)]) == Int64Scalar(7)
    ensures forall column: Column :: SumVisitor(TypeVariantFromArrowType(String.Tag()), column) == NoValue
  {
    var c0: Column := [Some(1), Some(2), None];
    var c1: Column := [Some(3), None, Some(4)];
    assert c0[..0] == [] && c0[..1] == [Some(1)] && c0[..2] == [Some(1), Some(2)] && c0[..3] == c0;
    assert c1[..0] == [] && c1[..1] == [Some(3)] && c1[..2] == [Some(3), None] && c1[..3] == c1;
    assert c0[..2][..1] == c0[..1] && c1[..2][..1] == c1[..1];
    assert Total(c0[..1]) == 1 && Total(c0[..2]) == 3 && Total(c0) == 3;
    assert Total(c1[..1]) == 3 && Total(c1[..2]) == 3 && Total(c1) == 7;
  }
}
