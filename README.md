# bearly: type catalog, column sum and stream sum in Dafny

bearly is a small Python extension over Arrow C streams. This project models its core:

- the type catalog (`src/bearly/types.hpp`): the closed `Type` variant of 17 column markers, the closed `Scalar` variant of 12 result kinds, the total map from a nanoarrow type tag to a marker, the reverse map from a scalar to a tag, and the choice of append routine for a scalar;
- the sum accumulator (`src/bearly/computations/numeric.hpp`): `SumVisitor`, which folds one column of optional values into a uint64 (unsigned sources, bool included) or an int64 (every other fixed-size primitive), and gives std::monostate for every other marker;
- the `sum` entry point (`src/bearly/bearly_ext.cc`, `SumChunks`): nested loops over the chunks of a stream and the schema's columns that add every value, read as int64 with nulls as 0, into one running int64 total.

Modules: `Wrappers` (Option, Result), `Types`, `Numeric`, `BearlyExt`.

Modelling choices:

- The tag numbering is nanoarrow's ArrowType enumeration, NANOARROW_TYPE_UNINITIALIZED = 0 through NANOARROW_TYPE_BINARY = 15, which mirrors the order of the `Type` variant. `TypeVariantFromArrowType` maps tag n to alternative n. Tag 16 lands on alternative 16, std::monostate. Every tag from 17 on runs off the end of the recursion and also gives std::monostate.
- A column is `seq<Option<int>>`, one entry per row, `None` for a null. It holds the entries as the typed view yields them; bool entries are 0 or 1.
- Unsigned sums wrap modulo 2^64, as uint64_t arithmetic does. Signed int64 overflow is undefined behaviour in C++. It therefore appears as a precondition: every running total the fold computes fits in int64 (`NoSignedOverflow`, `NoRunningOverflow`).
- The stream behind a capsule is abstracted as an `ArrayStream`: the schema's child count, or none when fetching or parsing the schema fails, and the chunks it delivers. A null capsule pointer is `None`. A chunk holds one `ChildArray` per schema child. A child array is either `Readable`, with its entries as the int64 view yields them, or `Unreadable`, when ArrowArrayViewSetArray rejects it.
- The protocol guarantees that each chunk has exactly one child per schema child. `SumChunks` requires this (`WellFormed`), because the source indexes `chunk.children[i]` for every schema child without a check.
- `SumChunks` returns one combined int64 total over all columns. The package's test of `sum` expects a stream of per-column sums with the string column dropped. No code in the modelled files builds such a stream. The model follows the code. `StreamTotalIsSumOfColumnSums` shows that the combined total is the sum of the per-column totals of every schema column, each read as int64. It therefore differs from the test's per-column output whenever a column is not int64: the test's string column is added too, not dropped, and what is added for it is not its data (see the out-of-bounds read under "## Left out").
- `SumChunks` filters no column: every schema child is viewed as int64 (src/bearly/bearly_ext.cc:32-39).

## Model

| member | source | states |
|---|---|---|
| Types.VariantIndex | src/bearly/types.hpp:53-56 | every marker sits at one position below 17 of the variant, and the alternative at that position is that marker |
| Types.TypeVariantFrom | src/bearly/types.hpp:63-71 | the recursion from level i with remaining index k yields alternative i + k when that is below 17, and std::monostate otherwise |
| Types.TypeVariantFromArrowType | src/bearly/types.hpp:64-71 | total: index n below 17 gives alternative n (e.g. 0 gives UninitializedType, 10 gives Int64Type); every index of 17 or more gives std::monostate |
| Types.TagsMirrorVariantOrder | src/bearly/types.hpp:53-56 | every nanoarrow tag the catalog uses is below 16 and resolves to the marker of its own name (NANOARROW_TYPE_STRING to StringType, and so on), i.e. the tag order mirrors the variant order |
| Types.TagInjective | src/bearly/types.hpp:79-89 | distinct tags have distinct enumerator values |
| Types.MarkerOfHasCType | src/bearly/types.hpp:9-45 | a scalar kind other than monostate is exactly the c_type of some marker |
| Types.ArrowTypeVisitor | src/bearly/types.hpp:77-90 | monostate, and only monostate, maps to UNINITIALIZED; every other scalar kind maps to a tag that resolves back to the marker of the same kind |
| Types.ArrowTypeVisitorInjective | src/bearly/types.hpp:79-89 | scalars of different kinds get different tags |
| Types.MonostateRoundTrip | src/bearly/types.hpp:78 | the monostate scalar does not round-trip: its tag resolves to UninitializedType, not to std::monostate |
| Types.ArrowArrayAppendVisitor | src/bearly/types.hpp:92-125 | monostate, and only monostate, gives EINVAL; unsigned integer kinds use the UInt append; bool and signed kinds use the Int append; float and double use the Double append; the value passed is the scalar's value (bool as 0 or 1) |
| Numeric.FixedSizeHasCType | src/bearly/computations/numeric.hpp:16-22 | the FixedSizePrimitive markers are exactly the markers that declare a c_type, which the fixed-size overload reads at lines 35-36 |
| Numeric.WrappingFold | src/bearly/computations/numeric.hpp:35-43 | the left fold into a uint64 accumulator equals the mathematical sum of the non-null entries modulo 2^64 |
| Numeric.CheckedFold | src/bearly/computations/numeric.hpp:35-43 | when no partial sum overflows int64, the left fold into an int64 accumulator equals the mathematical sum of the non-null entries |
| Numeric.SumVisitor | src/bearly/computations/numeric.hpp:28-50 | monostate exactly for markers outside FixedSizePrimitive, whatever the column holds; a uint64 holding the sum modulo 2^64 for unsigned c_types (bool included); an int64 holding the exact sum for the other fixed-size primitives |
| Numeric.TotalAppend | src/bearly/computations/numeric.hpp:38-43 | the sum of a concatenation is the sum of the sums of its parts |
| Numeric.NullInsertion | src/bearly/computations/numeric.hpp:38-40 | a null inserted anywhere in a column leaves its sum unchanged |
| Numeric.TotalAllNull | src/bearly/computations/numeric.hpp:37-43 | an empty or all-null column sums to 0 |
| Numeric.SumVisitorAllNull | src/bearly/computations/numeric.hpp:37-45 | an empty or all-null fixed-size column gives the zero of its result type (uint64 or int64), not monostate |
| Numeric.SumVisitorResultKind | src/bearly/computations/numeric.hpp:35-45 | the result kind is uint64 for unsigned sources and int64 for the rest; it has the source's own kind only for UInt64Type and Int64Type |
| Numeric.SumVisitorConcat | src/bearly/computations/numeric.hpp:38-43 | the sum of two concatenated parts is the sum of their results added in the result domain: modulo 2^64 for uint64, exactly for int64 |
| Numeric.BoolSumCountsTrue | src/bearly/computations/numeric.hpp:35-43 | a boolean column sums to its count of true entries, at most its length, as a uint64 |
| Numeric.SumTestExamples | tests/test_bearly.py:23-39 | int64 columns [1, 2, null] and [3, null, 4] sum to 3 and 7; a column whose tag is NANOARROW_TYPE_STRING resolves to StringType and gives no value, whatever it holds |
| BearlyExt.SumChunks | src/bearly/bearly_ext.cc:7-46 | a null capsule gives the invalid-capsule error; a schema failure, or any child array that ArrowArrayViewSetArray rejects, gives an Arrow error and no partial total; otherwise the result is the one total over all chunks, all schema columns and all values, with nulls as 0 (0 for no chunks) |
| BearlyExt.ChunkTotalAppend | src/bearly/bearly_ext.cc:32-42 | the total of a chunk whose columns are two runs joined is the sum of the runs' totals |
| BearlyExt.StreamTotalAppend | src/bearly/bearly_ext.cc:31-43 | concatenating two chunk sequences adds their totals |
| BearlyExt.SplitChunkTotal | src/bearly/bearly_ext.cc:31-43 | the two chunks obtained by cutting a chunk at any row have totals adding up to the chunk's total |
| BearlyExt.ResplitChunkPreservesTotal | src/bearly/bearly_ext.cc:31-43 | re-splitting any chunk of a stream into two at any row leaves the stream total unchanged |
| BearlyExt.StreamTotalIsSumOfColumnSums | src/bearly/bearly_ext.cc:31-45 | the combined total equals the totals of every schema column, each read as int64 and concatenated across chunks, added together; a non-int64 column is added, not dropped |
| BearlyExt.StreamTotalNullInsertion | src/bearly/bearly_ext.cc:38-41 | a null inserted into any column of any chunk leaves the stream total unchanged |

## Left out

- The Python bindings: the `NB_MODULE` registration, the `__arrow_c_stream__` lookup and the capsule cast. The capsule's stream pointer is the parameter of `SumChunks`.
- The nanoarrow calls: stream and schema ownership, `ArrowArrayStreamGetSchema`, `ArrowSchemaViewInit`, `ArrowArrayViewInitFromSchema` and the pulling of chunks. The stream is an already-pulled sequence of chunks. A schema failure or a rejected child array is an error result. The unchecked status of `ArrowArrayViewInitFromSchema` and a pull error that ends the stream early are not modelled.
- The decoding of Arrow buffers by the typed views (validity bitmaps, value buffers, reinterpreting a column of another type as int64): a column is the sequence of entries the view yields.
- The out-of-bounds read in `SumChunks` for columns narrower than 64 bits (src/bearly/bearly_ext.cc:38-39): `ViewArrayAs<int64_t>` reads buffer 1 of every child as int64 values. For a string child that buffer holds the int32 offsets, 4·(n+1) bytes, read as n int64 values, which runs past its end for n ≥ 2; any column of 8, 16 or 32-bit values is overread the same way. The model's int64 entries for such a column are whatever the view yields; they do not come from the column's data, and the undefined behaviour of the overread is not modelled.
- The side effects of the `ArrowArrayAppend*` routines: only the routine chosen and its argument are modelled.
- `visit_with_args`: generic forwarding with nothing to state.
- SumVisitor: for Float and Double columns the entries are taken as integers and added exactly into the int64 result; IEEE rounding and the truncation of the float sum back to int64 are not modelled.
- SumVisitor: signed int64 overflow is undefined behaviour in the source, so the model requires that no partial sum overflows instead of giving it a meaning. `SumChunks` requires the same of its running total.
- HalfFloat has no c_type in the source; it is outside FixedSizePrimitive and sums to monostate.
- The unused `BooleanType::arrow_type_` constant, the unused `Sumable` concept and the commented-out `MinVisitor`.
- The `produce_array` and `produce_stream` entry points and the pyarrow round trips in the tests: that code is not part of this model.
- The per-column output stream that the package's test of `sum` expects: no modelled code builds it.
