/**
 * The `sum` entry point of bearly (src/bearly/bearly_ext.cc, SumChunks):
 * every value of every column of every chunk of an Arrow C stream, read as
 * int64 with nulls as 0, is added into one running int64 total.
 *
 * The stream is abstracted as its already-pulled chunks. A chunk holds one
 * child array per schema child; a child array is either readable, with its
 * entries as the int64 view yields them, or one that ArrowArrayViewSetArray
 * rejects.
 */
module BearlyExt {
  import opened Wrappers
  import opened Types
  import opened Numeric

  /** One child array of a chunk, as ArrowArrayViewSetArray sees it. */
  datatype ChildArray = Readable(values: Column) | Unreadable

  /** One record batch: its child arrays, in schema order. */
  type Chunk = seq<ChildArray>

  /**
   * The stream behind a capsule: the schema's child count (none when
   * fetching or parsing the schema fails) and the chunks it delivers.
   */
  datatype ArrayStream = ArrayStream(schema: Option<nat>, chunks: seq<Chunk>)

  /** Why SumChunks aborts: a null capsule pointer (value_error), or a failing nanoarrow call. */
  datatype SumError = InvalidCapsule | ArrowError

  /**
   * What the stream protocol guarantees: each chunk has one child per schema
   * child, and the int64 view yields int64 values.
   */
  predicate WellFormed(stream: ArrayStream) {
    stream.schema.Some? ==>
      forall c :: 0 <= c < |stream.chunks| ==> ChunkFits(stream.chunks[c], stream.schema.value)
  }

  predicate ChunkFits(chunk: Chunk, n: nat) {
    && |chunk| == n
    && forall i :: 0 <= i < |chunk| && chunk[i].Readable? ==> ColumnFits(Int64Type, chunk[i].values)
  }

  predicate ChunkReadable(chunk: Chunk) {
    forall i :: 0 <= i < |chunk| ==> chunk[i].Readable?
  }

  predicate AllReadable(chunks: seq<Chunk>) {
    forall c :: 0 <= c < |chunks| ==> ChunkReadable(chunks[c])
  }

  /** The entries of a child array (none for an unreadable one). */
  function ValuesOf(a: ChildArray): Column {
    match a
    case Readable(v) => v
    case Unreadable => []
  }

  /** The sum of one chunk's child arrays, column after column. */
  function ChunkTotal(chunk: Chunk): int {
    if chunk == [] then 0
    else ChunkTotal(chunk[..|chunk| - 1]) + Total(ValuesOf(chunk[|chunk| - 1]))
  }

  /** The sum over all chunks, all columns and all values, nulls as 0. */
  function StreamTotal(chunks: seq<Chunk>): int {
    if chunks == [] then 0
    else StreamTotal(chunks[..|chunks| - 1]) + ChunkTotal(chunks[|chunks| - 1])
  }

  /** The running total after the first j values of column i of chunk c. */
  function RunningTotal(chunks: seq<Chunk>, c: nat, i: nat, j: nat): int
    requires c < |chunks| && i < |chunks[c]| && j <= |ValuesOf(chunks[c][i])|
  {
    StreamTotal(chunks[..c]) + ChunkTotal(chunks[c][..i]) + Total(ValuesOf(chunks[c][i])[..j])
  }

  /** Column i of chunk c is reached: nothing before it aborted the sum. */
  predicate Reached(chunks: seq<Chunk>, c: nat, i: nat)
    requires c < |chunks| && i <= |chunks[c]|
  {
    AllReadable(chunks[..c]) && ChunkReadable(chunks[c][..i])
  }

  /**
   * Every running total the loop computes fits in int64 (signed overflow is
   * undefined behaviour in the source).
   */
  predicate NoRunningOverflow(chunks: seq<Chunk>) {
    forall c, i, j ::
      0 <= c < |chunks| && 0 <= i < |chunks[c]| && 0 <= j <= |ValuesOf(chunks[c][i])| && Reached(chunks, c, i)
      ==> InInt64(RunningTotal(chunks, c, i, j))
  }

  /** Adding the next value advances the running total by that value. */
  lemma RunningStep(chunks: seq<Chunk>, c: nat, i: nat, j: nat)
    requires c < |chunks| && i < |chunks[c]| && j < |ValuesOf(chunks[c][i])|
    ensures RunningTotal(chunks, c, i, j + 1) == RunningTotal(chunks, c, i, j) + ValuesOf(chunks[c][i])[j].GetOr(0)
  {
    var values := ValuesOf(chunks[c][i]);
    assert values[..j + 1][..j] == values[..j];
  }

  /** After the last value of column i, the running total covers columns 0..i of chunk c. */
  lemma ColumnDone(chunks: seq<Chunk>, c: nat, i: nat)
    requires c < |chunks| && i < |chunks[c]|
    ensures RunningTotal(chunks, c, i, |ValuesOf(chunks[c][i])|) == StreamTotal(chunks[..c]) + ChunkTotal(chunks[c][..i + 1])
  {
    var values := ValuesOf(chunks[c][i]);
    assert values[..|values|] == values;
    assert chunks[c][..i + 1][..i] == chunks[c][..i];
  }

  /** After the last column of chunk c, the running total covers chunks 0..c. */
  lemma ChunkDone(chunks: seq<Chunk>, c: nat)
    requires c < |chunks|
    ensures StreamTotal(chunks[..c]) + ChunkTotal(chunks[c][..|chunks[c]|]) == StreamTotal(chunks[..c + 1])
  {
    assert chunks[c][..|chunks[c]|] == chunks[c];
    assert chunks[..c + 1][..c] == chunks[..c];
  }

  lemma ReadablePrefixGrows(chunk: Chunk, i: nat)
    requires i < |chunk| && ChunkReadable(chunk[..i]) && chunk[i].Readable?
    ensures ChunkReadable(chunk[..i + 1])
  {
    assert forall k :: 0 <= k <= i ==> chunk[..i + 1][k] == chunk[k];
  }

  lemma AllReadablePrefixGrows(chunks: seq<Chunk>, c: nat)
    requires c < |chunks| && AllReadable(chunks[..c]) && ChunkReadable(chunks[c][..|chunks[c]|])
    ensures AllReadable(chunks[..c + 1])
  {
    assert chunks[c][..|chunks[c]|] == chunks[c];
    assert forall k :: 0 <= k <= c ==> chunks[..c + 1][k] == chunks[k];
  }

  /**
   * SumChunks: a null capsule is rejected before the stream is touched, a
   * schema failure or any rejected child array aborts with no partial total,
   * and otherwise the result is the one combined total of the stream.
   */
  method SumChunks(capsule: Option<ArrayStream>) returns (r: Result<int64, SumError>)
    requires capsule.Some? ==> WellFormed(capsule.value) && NoRunningOverflow(capsule.value.chunks)
    ensures capsule.None? ==> r == Err(InvalidCapsule)
    ensures capsule.Some? && capsule.value.schema.None? ==> r == Err(ArrowError)
    ensures capsule.Some? && capsule.value.schema.Some? ==>
      && (r.Err? <==> !AllReadable(capsule.value.chunks))
      && (r.Err? ==> r.error == ArrowError)
      && (r.Ok? ==> r.value == StreamTotal(capsule.value.chunks))
  {
    if capsule.None? {
      return Err(InvalidCapsule);
    }
    var stream := capsule.value;
    if stream.schema.None? {
      return Err(ArrowError);
    }
    var n := stream.schema.value;
    var chunks := stream.chunks;
    var result: int64 := 0;
    var c := 0;
    while c < |chunks|
      invariant 0 <= c <= |chunks|
      invariant AllReadable(chunks[..c])
      invariant result == StreamTotal(chunks[..c])
    {
      assert ChunkFits(chunks[c], n);
      var i := 0;
      while i < n
        invariant 0 <= i <= n
        invariant ChunkReadable(chunks[c][..i])
        invariant result == StreamTotal(chunks[..c]) + ChunkTotal(chunks[c][..i])
      {
        match chunks[c][i]
        case Unreadable =>
          assert !ChunkReadable(chunks[c]);
          return Err(ArrowError);
        case Readable(values) =>
          assert Reached(chunks, c, i);
          var j := 0;
          while j < |values|
            invariant 0 <= j <= |values|
            invariant result == RunningTotal(chunks, c, i, j)
          {
            RunningStep(chunks, c, i, j);
            assert InInt64(RunningTotal(chunks, c, i, j + 1));
            result := result + values[j].GetOr(0);
            j := j + 1;
          }
          ColumnDone(chunks, c, i);
          ReadablePrefixGrows(chunks[c], i);
        i := i + 1;
      }
      ChunkDone(chunks, c);
      AllReadablePrefixGrows(chunks, c);
      c := c + 1;
    }
    assert chunks[..c] == chunks;
    return Ok(result);
  }

  /** The total of a chunk built from two runs of columns is the sum of their totals. */
  lemma {:induction false} ChunkTotalAppend(a: Chunk, b: Chunk)
    ensures ChunkTotal(a + b) == ChunkTotal(a) + ChunkTotal(b)
    decreases |b|
  {
    if b == [] {
      assert a + b == a;
    } else {
      assert (a + b)[..|a + b| - 1] == a + b[..|b| - 1];
      ChunkTotalAppend(a, b[..|b| - 1]);
    }
  }

  /** Concatenating two chunk sequences adds their totals: chunk boundaries do not matter. */
  lemma {:induction false} StreamTotalAppend(a: seq<Chunk>, b: seq<Chunk>)
    ensures StreamTotal(a + b) == StreamTotal(a) + StreamTotal(b)
    decreases |b|
  {
    if b == [] {
      assert a + b == a;
    } else {
      assert (a + b)[..|a + b| - 1] == a + b[..|b| - 1];
      StreamTotalAppend(a, b[..|b| - 1]);
    }
  }

  /** Rows 0..k of a child array (all of it if shorter); an unreadable one stays unreadable. */
  function TopRows(a: ChildArray, k: nat): ChildArray {
    match a
    case Readable(v) => Readable(v[..if k <= |v| then k else |v|])
    case Unreadable => Unreadable
  }

  /** The rows of a child array from row k on (none if shorter). */
  function BottomRows(a: ChildArray, k: nat): ChildArray {
    match a
    case Readable(v) => Readable(v[if k <= |v| then k else |v|..])
    case Unreadable => Unreadable
  }

  /** The chunk cut after row k into two chunks with the same columns. */
  function SplitChunk(chunk: Chunk, k: nat): (halves: (Chunk, Chunk))
    ensures |halves.0| == |halves.1| == |chunk|
  {
    (seq(|chunk|, i requires 0 <= i < |chunk| => TopRows(chunk[i], k)),
     seq(|chunk|, i requires 0 <= i < |chunk| => BottomRows(chunk[i], k)))
  }

  lemma {:induction false} SplitChunkTotal(chunk: Chunk, k: nat)
    ensures ChunkTotal(SplitChunk(chunk, k).0) + ChunkTotal(SplitChunk(chunk, k).1) == ChunkTotal(chunk)
    decreases |chunk|
  {
    if chunk != [] {
      var m := |chunk| - 1;
      var init := chunk[..m];
      var (top, bottom) := SplitChunk(chunk, k);
      SplitChunkTotal(init, k);
      assert top[..m] == SplitChunk(init, k).0;
      assert bottom[..m] == SplitChunk(init, k).1;
      var v := ValuesOf(chunk[m]);
      var cut := if k <= |v| then k else |v|;
      assert v == v[..cut] + v[cut..];
      TotalAppend(v[..cut], v[cut..]);
    }
  }

  /** Re-splitting one chunk into two at any row leaves the stream total unchanged. */
  lemma ResplitChunkPreservesTotal(before: seq<Chunk>, chunk: Chunk, after: seq<Chunk>, k: nat)
    ensures StreamTotal(before + [SplitChunk(chunk, k).0, SplitChunk(chunk, k).1] + after)
         == StreamTotal(before + [chunk] + after)
  {
    var (top, bottom) := SplitChunk(chunk, k);
    StreamTotalAppend(before + [top, bottom], after);
    StreamTotalAppend(before, [top, bottom]);
    StreamTotalAppend(before + [chunk], after);
    StreamTotalAppend(before, [chunk]);
    assert [top, bottom][..1] == [top];
    assert [top][..0] == [] && [chunk][..0] == [];
    SplitChunkTotal(chunk, k);
  }

  /** Column i of every chunk, concatenated in chunk order (what a per-column sum would add). */
  function ColumnAcross(chunks: seq<Chunk>, i: nat): Column
    requires forall c :: 0 <= c < |chunks| ==> i < |chunks[c]|
  {
    if chunks == [] then []
    else ColumnAcross(chunks[..|chunks| - 1], i) + ValuesOf(chunks[|chunks| - 1][i])
  }

  /** The per-column sums over columns 0..n-1, added together. */
  function ColumnSums(chunks: seq<Chunk>, n: nat): int
    requires forall c :: 0 <= c < |chunks| ==> n <= |chunks[c]|
  {
    if n == 0 then 0 else ColumnSums(chunks, n - 1) + Total(ColumnAcross(chunks, n - 1))
  }

  lemma {:induction false} ColumnSumsLastChunk(chunks: seq<Chunk>, n: nat)
    requires chunks != []
    requires forall c :: 0 <= c < |chunks| ==> n <= |chunks[c]|
    ensures ColumnSums(chunks, n) == ColumnSums(chunks[..|chunks| - 1], n) + ChunkTotal(chunks[|chunks| - 1][..n])
    decreases n
  {
    var init, last := chunks[..|chunks| - 1], chunks[|chunks| - 1];
    if n > 0 {
      ColumnSumsLastChunk(chunks, n - 1);
      TotalAppend(ColumnAcross(init, n - 1), ValuesOf(last[n - 1]));
      assert last[..n][..n - 1] == last[..n - 1];
    }
  }

  /**
   * The one combined total equals the per-column sums added together: the
   * source returns their sum, not the per-column values.
   */
  lemma {:induction false} StreamTotalIsSumOfColumnSums(chunks: seq<Chunk>, n: nat)
    requires forall c :: 0 <= c < |chunks| ==> |chunks[c]| == n
    ensures StreamTotal(chunks) == ColumnSums(chunks, n)
    decreases |chunks|
  {
    if chunks == [] {
      ColumnSumsEmpty(n);
    } else {
      var last := chunks[|chunks| - 1];
      StreamTotalIsSumOfColumnSums(chunks[..|chunks| - 1], n);
      ColumnSumsLastChunk(chunks, n);
      assert last[..n] == last;
    }
  }

  lemma {:induction false} ColumnSumsEmpty(n: nat)
    ensures ColumnSums([], n) == 0
    decreases n
  {
    if n > 0 {
      ColumnSumsEmpty(n - 1);
    }
  }

  /** Replacing one child array by one with the same total leaves the chunk total unchanged. */
  lemma {:induction false} ChunkTotalUpdate(chunk: Chunk, i: nat, a: ChildArray)
    requires i < |chunk| && Total(ValuesOf(a)) == Total(ValuesOf(chunk[i]))
    ensures ChunkTotal(chunk[i := a]) == ChunkTotal(chunk)
    decreases |chunk|
  {
    var m := |chunk| - 1;
    if i == m {
      assert chunk[i := a][..m] == chunk[..m];
    } else {
      assert chunk[i := a][..m] == chunk[..m][i := a];
      ChunkTotalUpdate(chunk[..m], i, a);
    }
  }

  /** Replacing one chunk by one with the same total leaves the stream total unchanged. */
  lemma {:induction false} StreamTotalUpdate(chunks: seq<Chunk>, c: nat, chunk: Chunk)
    requires c < |chunks| && ChunkTotal(chunk) == ChunkTotal(chunks[c])
    ensures StreamTotal(chunks[c := chunk]) == StreamTotal(chunks)
    decreases |chunks|
  {
    var m := |chunks| - 1;
    if c == m {
      assert chunks[c := chunk][..m] == chunks[..m];
    } else {
      assert chunks[c := chunk][..m] == chunks[..m][c := chunk];
      StreamTotalUpdate(chunks[..m], c, chunk);
    }
  }

  /** A null inserted into any readable column of any chunk leaves the stream total unchanged. */
  lemma StreamTotalNullInsertion(chunks: seq<Chunk>, c: nat, i: nat, k: nat)
    requires c < |chunks| && i < |chunks[c]| && chunks[c][i].Readable?
    requires k <= |chunks[c][i].values|
    ensures var v := chunks[c][i].values;
      StreamTotal(chunks[c := chunks[c][i := Readable(v[..k] + [None] + v[k..])]]) == StreamTotal(chunks)
  {
    var v := chunks[c][i].values;
    NullInsertion(v[..k], v[k..]);
    assert v[..k] + v[k..] == v;
    ChunkTotalUpdate(chunks[c], i, Readable(v[..k] + [None] + v[k..]));
    StreamTotalUpdate(chunks, c, chunks[c][i := Readable(v[..k] + [None] + v[k..])]);
  }
}
