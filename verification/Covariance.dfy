/**
  Covariance accumulated over row chunks of a return panel: the sums of rows and of
  outer products are kept, and the population covariance formed once at the end.
*/
module Covariance {
  import opened Options
  import opened Sums

  type Row = seq<real>
  type Matrix = seq<seq<real>>

  /** A chunk as `np.asarray` sees it: a two-dimensional block, or something else. */
  datatype Chunk = Block(cols: nat, rows: seq<Row>) | NotTwoDimensional

  datatype Result = Ok(cov: Matrix, count: nat) | ColumnMismatch

  predicate WellShaped(c: Chunk) {
    c.Block? ==> Wide(c.rows, c.cols)
  }

  predicate Skipped(c: Chunk) {
    c.NotTwoDimensional? || c.rows == []
  }

  /** The rows that reach the accumulator. */
  function AllRows(chunks: seq<Chunk>): seq<Row> {
    if chunks == [] then [] else
      var last := chunks[|chunks| - 1];
      AllRows(chunks[..|chunks| - 1]) + (if Skipped(last) then [] else last.rows)
  }

  /** Number of columns: that of the first chunk with rows. */
  function Columns(chunks: seq<Chunk>): nat {
    if chunks == [] then 0
    else if Skipped(chunks[0]) then Columns(chunks[1..]) else chunks[0].cols
  }

  predicate SameColumns(chunks: seq<Chunk>) {
    forall i :: 0 <= i < |chunks| && !Skipped(chunks[i]) ==> chunks[i].cols == Columns(chunks)
  }

  /** Two blocks with rows and of different widths. */
  ghost predicate WidthsDiffer(c: Chunk, d: Chunk) {
    c.Block? && c.rows != [] && d.Block? && d.rows != [] && c.cols != d.cols
  }

  // ------------------------------------------------------------------------
  // What is accumulated, and what is returned
  // ------------------------------------------------------------------------

  function Total(rows: seq<Row>, k: nat, i: nat): real
    requires Wide(rows, k) && i < k
  {
    if rows == [] then 0.0 else Total(rows[..|rows| - 1], k, i) + rows[|rows| - 1][i]
  }

  function Cross(rows: seq<Row>, k: nat, i: nat, j: nat): real
    requires Wide(rows, k) && i < k && j < k
  {
    if rows == [] then 0.0 else Cross(rows[..|rows| - 1], k, i, j) + rows[|rows| - 1][i] * rows[|rows| - 1][j]
  }

  function Totals(rows: seq<Row>, k: nat): seq<real>
    requires Wide(rows, k)
  {
    seq(k, i requires 0 <= i < k => Total(rows, k, i))
  }

  function Crosses(rows: seq<Row>, k: nat): Matrix
    requires Wide(rows, k)
  {
    seq(k, i requires 0 <= i < k => seq(k, j requires 0 <= j < k => Cross(rows, k, i, j)))
  }

  lemma {:induction false} TotalConcat(xs: seq<Row>, ys: seq<Row>, k: nat, i: nat)
    requires Wide(xs, k) && Wide(ys, k) && i < k
    ensures Total(xs + ys, k, i) == Total(xs, k, i) + Total(ys, k, i)
  {
    if ys == [] {
      assert xs + ys == xs;
    } else {
      assert (xs + ys)[..|xs + ys| - 1] == xs + ys[..|ys| - 1];
      TotalConcat(xs, ys[..|ys| - 1], k, i);
    }
  }

  lemma {:induction false} CrossConcat(xs: seq<Row>, ys: seq<Row>, k: nat, i: nat, j: nat)
    requires Wide(xs, k) && Wide(ys, k) && i < k && j < k
    ensures Cross(xs + ys, k, i, j) == Cross(xs, k, i, j) + Cross(ys, k, i, j)
  {
    if ys == [] {
      assert xs + ys == xs;
    } else {
      assert (xs + ys)[..|xs + ys| - 1] == xs + ys[..|ys| - 1];
      CrossConcat(xs, ys[..|ys| - 1], k, i, j);
    }
  }

  /** The centred average of outer products: the definition of population covariance. */
  function CentredSum(rows: seq<Row>, k: nat, mean: seq<real>, i: nat, j: nat): real
    requires Wide(rows, k) && |mean| == k && i < k && j < k
  {
    if rows == [] then 0.0 else
      var x := rows[|rows| - 1];
      CentredSum(rows[..|rows| - 1], k, mean, i, j) + (x[i] - mean[i]) * (x[j] - mean[j])
  }

  function PerRow(x: real, n: nat): real
    requires n > 0
  {
    x / n as real
  }

  function Means(rows: seq<Row>, k: nat): (ms: seq<real>)
    requires Wide(rows, k) && rows != []
    ensures |ms| == k
  {
    seq(k, i requires 0 <= i < k => PerRow(Total(rows, k, i), |rows|))
  }

  /** The matrix promised for a panel of rows, zero when there are fewer than two. */
  function PanelCovariance(rows: seq<Row>, k: nat): (m: Matrix)
    requires Wide(rows, k)
    ensures |m| == k && Wide(m, k)
  {
    if |rows| < 2 then seq(k, i => seq(k, j => 0.0))
    else seq(k, i requires 0 <= i < k => seq(k, j requires 0 <= j < k =>
               PerRow(CentredSum(rows, k, Means(rows, k), i, j), |rows|)))
  }

  // ------------------------------------------------------------------------
  // The uncentred form equals the centred one
  // ------------------------------------------------------------------------

  lemma {:induction false} CentredExpands(rows: seq<Row>, k: nat, mean: seq<real>, i: nat, j: nat)
    requires Wide(rows, k) && |mean| == k && i < k && j < k
    ensures CentredSum(rows, k, mean, i, j) ==
      Expanded(Cross(rows, k, i, j), Total(rows, k, i), Total(rows, k, j), |rows| as real, mean[i], mean[j])
  {
    if rows != [] {
      var front, x := rows[..|rows| - 1], rows[|rows| - 1];
      CentredExpands(front, k, mean, i, j);
      ExpandedStep(Cross(front, k, i, j), Total(front, k, i), Total(front, k, j), |front| as real, mean[i], mean[j], x[i], x[j]);
    }
  }

  /** One cell as the streaming pass computes it from its accumulators. */
  function Uncentred(cross: real, n: nat, a: real, b: real): real
    requires n > 0
  {
    cross / n as real - a * b
  }

  lemma UncentredAlgebra(centred: real, cross: real, ti: real, tj: real, n: nat, a: real, b: real)
    requires n > 0 && a == PerRow(ti, n) && b == PerRow(tj, n) && centred == Expanded(cross, ti, tj, n as real, a, b)
    ensures Uncentred(cross, n, a, b) == PerRow(centred, n)
  {
    var m, ab := n as real, a * b;
    assert ti == m * a && tj == m * b;
    assert b * ti == m * ab && a * tj == m * ab;
    assert centred == cross - m * ab;
    assert (cross - m * ab) / m == cross / m - ab;
  }

  lemma UncentredAround(rows: seq<Row>, k: nat, mean: seq<real>, i: nat, j: nat)
    requires Wide(rows, k) && rows != [] && |mean| == k && i < k && j < k
    requires mean[i] == PerRow(Total(rows, k, i), |rows|) && mean[j] == PerRow(Total(rows, k, j), |rows|)
    ensures Uncentred(Cross(rows, k, i, j), |rows|, mean[i], mean[j]) == PerRow(CentredSum(rows, k, mean, i, j), |rows|)
  {
    CentredExpands(rows, k, mean, i, j);
    UncentredAlgebra(CentredSum(rows, k, mean, i, j), Cross(rows, k, i, j), Total(rows, k, i), Total(rows, k, j), |rows|, mean[i], mean[j]);
  }

  /** `S2/n - (s/n)(s/n)'`, as it is computed, is the centred average. */
  lemma UncentredIsCentred(rows: seq<Row>, k: nat, i: nat, j: nat)
    requires Wide(rows, k) && |rows| >= 2 && i < k && j < k
    ensures Uncentred(Cross(rows, k, i, j), |rows|, Means(rows, k)[i], Means(rows, k)[j]) == PanelCovariance(rows, k)[i][j]
  {
    UncentredAround(rows, k, Means(rows, k), i, j);
  }

  // ------------------------------------------------------------------------
  // The streaming pass
  // ------------------------------------------------------------------------

  lemma ColumnsSnoc(chunks: seq<Chunk>, n: nat)
    requires n < |chunks|
    ensures AllRows(chunks[..n + 1]) == AllRows(chunks[..n]) + (if Skipped(chunks[n]) then [] else chunks[n].rows)
  {
    assert chunks[..n + 1][..n] == chunks[..n];
  }

  lemma {:induction false} ColumnsOfPrefix(chunks: seq<Chunk>, n: nat)
    requires n < |chunks| && !Skipped(chunks[n])
    requires forall i :: 0 <= i < n ==> Skipped(chunks[i])
    ensures Columns(chunks) == chunks[n].cols
  {
    if n > 0 { ColumnsOfPrefix(chunks[1..], n - 1); }
  }

  lemma {:induction false} ColumnsOfNothing(chunks: seq<Chunk>)
    requires forall i :: 0 <= i < |chunks| ==> Skipped(chunks[i])
    ensures Columns(chunks) == 0
  {
    if chunks != [] { ColumnsOfNothing(chunks[1..]); }
  }

  lemma {:induction false} FirstWithRows(chunks: seq<Chunk>, i: nat) returns (n: nat)
    requires i < |chunks| && !Skipped(chunks[i])
    ensures n <= i && !Skipped(chunks[n]) && chunks[n].cols == Columns(chunks)
  {
    n := 0;
    if Skipped(chunks[0]) {
      var m := FirstWithRows(chunks[1..], i - 1);
      n := m + 1;
    }
  }

  /** The blocks with rows have one width exactly when no two of them differ. */
  lemma SameColumnsMeans(chunks: seq<Chunk>)
    ensures SameColumns(chunks) <==> forall i, j :: 0 <= i < |chunks| && 0 <= j < |chunks| ==> !WidthsDiffer(chunks[i], chunks[j])
  {
    if i :| 0 <= i < |chunks| && !Skipped(chunks[i]) && chunks[i].cols != Columns(chunks) {
      var n := FirstWithRows(chunks, i);
      assert WidthsDiffer(chunks[i], chunks[n]);
    }
  }

  function AddRows(s: seq<real>, rows: seq<Row>, k: nat): seq<real>
    requires Wide(rows, k) && |s| == k
  {
    seq(k, i requires 0 <= i < k => s[i] + Total(rows, k, i))
  }

  function AddCrosses(s2: Matrix, rows: seq<Row>, k: nat): Matrix
    requires Wide(rows, k) && |s2| == k && Wide(s2, k)
  {
    seq(k, i requires 0 <= i < k => seq(k, j requires 0 <= j < k => s2[i][j] + Cross(rows, k, i, j)))
  }

  /** `s`, `S2` and the count after the given rows. */
  ghost predicate Accumulated(s: seq<real>, s2: Matrix, count: nat, rows: seq<Row>, k: nat) {
    Wide(rows, k) && count == |rows| && s == Totals(rows, k) && s2 == Crosses(rows, k)
  }

  lemma AccumulatedNext(s: seq<real>, s2: Matrix, count: nat, xs: seq<Row>, ys: seq<Row>, k: nat)
    requires Accumulated(s, s2, count, xs, k) && Wide(ys, k)
    ensures |s| == |s2| == k && Wide(s2, k)
    ensures Accumulated(AddRows(s, ys, k), AddCrosses(s2, ys, k), count + |ys|, xs + ys, k)
  {
    AccumulatorsExtend(xs, ys, k);
  }

  lemma AccumulatorsExtend(xs: seq<Row>, ys: seq<Row>, k: nat)
    requires Wide(xs, k) && Wide(ys, k)
    ensures AddRows(Totals(xs, k), ys, k) == Totals(xs + ys, k)
    ensures AddCrosses(Crosses(xs, k), ys, k) == Crosses(xs + ys, k)
  {
    forall i | 0 <= i < k ensures Total(xs + ys, k, i) == Total(xs, k, i) + Total(ys, k, i) { TotalConcat(xs, ys, k, i); }
    var sum, whole := AddCrosses(Crosses(xs, k), ys, k), Crosses(xs + ys, k);
    forall i | 0 <= i < k ensures sum[i] == whole[i] {
      forall j | 0 <= j < k ensures sum[i][j] == whole[i][j] { CrossConcat(xs, ys, k, i, j); }
    }
  }

  lemma ZeroAccumulators(k: nat)
    ensures Accumulated(seq(k, i => 0.0), seq(k, i => seq(k, j => 0.0)), 0, [], k)
  {
    var zero: Matrix := seq(k, i => seq(k, j => 0.0));
    forall i | 0 <= i < k ensures Crosses([], k)[i] == zero[i] {
      assert |zero[i]| == k;
    }
  }

  method Finish(s: seq<real>, s2: Matrix, count: nat, k: nat, ghost rows: seq<Row>) returns (cov: Matrix)
    requires Accumulated(s, s2, count, rows, k)
    ensures Wide(rows, k) && cov == PanelCovariance(rows, k)
  {
    if count < 2 {
      return seq(k, i => seq(k, j => 0.0));
    }
    var mean := seq(k, i requires 0 <= i < k => PerRow(s[i], count));
    cov := seq(k, i requires 0 <= i < k => seq(k, j requires 0 <= j < k => Uncentred(s2[i][j], count, mean[i], mean[j])));
    forall i, j | 0 <= i < k && 0 <= j < k ensures cov[i][j] == PanelCovariance(rows, k)[i][j] {
      UncentredIsCentred(rows, k, i, j);
    }
    forall i | 0 <= i < k ensures cov[i] == PanelCovariance(rows, k)[i] {
      assert |cov[i]| == k;
    }
  }

  /**
    One pass over the chunks. The answer depends on the rows alone, not on how they were
    split, and chunks of different widths are refused exactly when there are some.
  */
  method StreamingCovariance(chunks: seq<Chunk>) returns (r: Result)
    requires forall i :: 0 <= i < |chunks| ==> WellShaped(chunks[i])
    ensures r.ColumnMismatch? <==> exists i, j :: 0 <= i < |chunks| && 0 <= j < |chunks| && WidthsDiffer(chunks[i], chunks[j])
    ensures r.Ok? ==> Wide(AllRows(chunks), Columns(chunks)) && r == Ok(PanelCovariance(AllRows(chunks), Columns(chunks)), |AllRows(chunks)|)
  {
    SameColumnsMeans(chunks);
    var s: seq<real>, s2: Matrix, count: nat, k: nat, started := [], [], 0, 0, false;
    for n := 0 to |chunks|
      invariant !started ==> k == 0 && forall i :: 0 <= i < n ==> Skipped(chunks[i])
      invariant started ==> k == Columns(chunks)
      invariant forall i :: 0 <= i < n && !Skipped(chunks[i]) ==> started && chunks[i].cols == k
      invariant !started ==> AllRows(chunks[..n]) == []
      invariant Accumulated(s, s2, count, AllRows(chunks[..n]), k)
    {
      var x := chunks[n];
      ghost var before, after := AllRows(chunks[..n]), AllRows(chunks[..n + 1]);
      ColumnsSnoc(chunks, n);
      if Skipped(x) {
        assert after == before;
        continue;
      }
      if !started {
        ColumnsOfPrefix(chunks, n);
        started := true;
        k := x.cols;
        s := seq(k, i => 0.0);
        s2 := seq(k, i => seq(k, j => 0.0));
        ZeroAccumulators(k);
        assert before == [];
      } else if x.cols != k {
        return ColumnMismatch;
      }
      AccumulatedNext(s, s2, count, before, x.rows, k);
      s := AddRows(s, x.rows, k);
      s2 := AddCrosses(s2, x.rows, k);
      count := count + |x.rows|;
    }
    assert chunks[..|chunks|] == chunks;
    if !started { ColumnsOfNothing(chunks); }
    var cov := Finish(s, s2, count, k, AllRows(chunks));
    r := Ok(cov, count);
  }

  /** Blocks of one width and of some rows, `size` of them in every block but the last, and there too if `full`. */
  ghost predicate Cut(chunks: seq<Chunk>, cols: nat, size: int, full: bool) {
    forall i :: 0 <= i < |chunks| ==>
      && WellShaped(chunks[i]) && chunks[i].Block? && chunks[i].cols == cols && 0 < |chunks[i].rows| <= size
      && (i < |chunks| - 1 || full ==> |chunks[i].rows| == size)
  }

  lemma CutNext(chunks: seq<Chunk>, cols: nat, size: int, block: Chunk, full: bool)
    requires Cut(chunks, cols, size, true) && WellShaped(block) && block.Block? && block.cols == cols && 0 < |block.rows| <= size
    requires full ==> |block.rows| == size
    ensures Cut(chunks + [block], cols, size, full)
    ensures AllRows(chunks + [block]) == AllRows(chunks) + block.rows
  {
    assert (chunks + [block])[..|chunks|] == chunks;
  }

  /** Row blocks of `chunkRows` rows, the last one with what is left, in order; a size below one is an error. */
  method IterRowChunks(matrix: seq<Row>, cols: nat, chunkRows: int) returns (ok: bool, chunks: seq<Chunk>)
    requires Wide(matrix, cols)
    ensures ok <==> chunkRows >= 1
    ensures Cut(chunks, cols, chunkRows, false)
    ensures ok ==> AllRows(chunks) == matrix && (matrix == [] <==> chunks == [])
  {
    chunks := [];
    ok := chunkRows >= 1;
    if !ok { return; }
    var start := 0;
    while start < |matrix|
      invariant 0 <= start <= |matrix|
      invariant AllRows(chunks) == matrix[..start] && (start == 0 <==> chunks == [])
      invariant Cut(chunks, cols, chunkRows, start < |matrix|)
    {
      var stop := if start + chunkRows < |matrix| then start + chunkRows else |matrix|;
      CutNext(chunks, cols, chunkRows, Block(cols, matrix[start..stop]), stop < |matrix|);
      assert matrix[..start] + matrix[start..stop] == matrix[..stop];
      chunks := chunks + [Block(cols, matrix[start..stop])];
      start := stop;
    }
  }

  lemma {:induction false} ColumnsOfBlocks(chunks: seq<Chunk>, cols: nat)
    requires forall i :: 0 <= i < |chunks| ==> chunks[i].Block? && chunks[i].cols == cols && chunks[i].rows != []
    ensures chunks != [] ==> Columns(chunks) == cols
    ensures SameColumns(chunks)
  {
  }

  /**
    Splitting a panel and streaming it gives the panel's covariance, for any block size;
    `None` is the error of a size below one. An empty panel loses its width on the way.
  */
  method CovarianceInChunks(matrix: seq<Row>, cols: nat, chunkRows: int) returns (r: Option<Result>)
    requires Wide(matrix, cols)
    ensures r.None? <==> chunkRows < 1
    ensures r.Some? ==> r.value == Ok(PanelCovariance(matrix, if matrix == [] then 0 else cols), |matrix|)
  {
    var ok, chunks := IterRowChunks(matrix, cols, chunkRows);
    if !ok { return None; }
    ColumnsOfBlocks(chunks, cols);
    if chunks == [] { ColumnsOfNothing(chunks); }
    var cov := StreamingCovariance(chunks);
    r := Some(cov);
  }

  // ------------------------------------------------------------------------
  // Symmetric and positive semi-definite
  // ------------------------------------------------------------------------

  lemma {:induction false} CentredIsSymmetric(rows: seq<Row>, k: nat, mean: seq<real>, i: nat, j: nat)
    requires Wide(rows, k) && |mean| == k && i < k && j < k
    ensures CentredSum(rows, k, mean, i, j) == CentredSum(rows, k, mean, j, i)
  {
    if rows != [] { CentredIsSymmetric(rows[..|rows| - 1], k, mean, i, j); }
  }

  lemma CovarianceIsSymmetric(rows: seq<Row>, k: nat, i: nat, j: nat)
    requires Wide(rows, k) && i < k && j < k
    ensures PanelCovariance(rows, k)[i][j] == PanelCovariance(rows, k)[j][i]
  {
    if |rows| >= 2 { CentredIsSymmetric(rows, k, Means(rows, k), i, j); }
  }

  function Times(m: Matrix, v: seq<real>): (w: seq<real>)
    requires Wide(m, |v|)
    ensures |w| == |m|
  {
    seq(|m|, i requires 0 <= i < |m| => Dot(v, m[i]))
  }

  /** `v' M v`. */
  function Quadratic(m: Matrix, v: seq<real>): real
    requires |m| == |v| && Wide(m, |v|)
  {
    Dot(v, Times(m, v))
  }

  function Scatter(rows: seq<Row>, k: nat, mean: seq<real>): (m: Matrix)
    requires Wide(rows, k) && |mean| == k
    ensures |m| == k && Wide(m, k)
  {
    seq(k, i requires 0 <= i < k => seq(k, j requires 0 <= j < k => CentredSum(rows, k, mean, i, j)))
  }

  function Minus(x: seq<real>, y: seq<real>): (d: seq<real>)
    requires |x| == |y|
    ensures |d| == |x|
  {
    seq(|x|, i requires 0 <= i < |x| => x[i] - y[i])
  }

  /** The squared lengths of the centred rows along `v`, added up. */
  function SquaresAlong(rows: seq<Row>, mean: seq<real>, v: seq<real>): real
    requires Wide(rows, |v|) && |mean| == |v|
  {
    if rows == [] then 0.0 else
      var d := Dot(v, Minus(rows[|rows| - 1], mean));
      SquaresAlong(rows[..|rows| - 1], mean, v) + d * d
  }

  lemma RowAddsOuter(a: Matrix, b: Matrix, d: seq<real>, v: seq<real>, i: nat)
    requires |a| == |b| == |d| == |v| && Wide(a, |v|) && Wide(b, |v|) && i < |v|
    requires forall j :: 0 <= j < |v| ==> b[i][j] == a[i][j] + d[i] * d[j]
    ensures Times(b, v)[i] == Times(a, v)[i] + Dot(v, d) * d[i]
  {
    DotAdds(v, a[i], d, b[i], d[i]);
  }

  /** Adding the outer product of `d` with itself adds the square of `v.d`. */
  lemma QuadraticAddsOuter(a: Matrix, b: Matrix, d: seq<real>, v: seq<real>)
    requires |a| == |b| == |d| == |v| && Wide(a, |v|) && Wide(b, |v|)
    requires forall i, j :: 0 <= i < |v| && 0 <= j < |v| ==> b[i][j] == a[i][j] + d[i] * d[j]
    ensures Quadratic(b, v) == Quadratic(a, v) + Dot(v, d) * Dot(v, d)
  {
    var x, z := Times(a, v), Times(b, v);
    forall i | 0 <= i < |z| ensures z[i] == x[i] + Dot(v, d) * d[i] {
      RowAddsOuter(a, b, d, v, i);
    }
    DotAdds(v, x, d, z, Dot(v, d));
  }

  lemma QuadraticScales(a: Matrix, b: Matrix, t: real, v: seq<real>)
    requires |a| == |b| == |v| && Wide(a, |v|) && Wide(b, |v|)
    requires forall i, j :: 0 <= i < |v| && 0 <= j < |v| ==> b[i][j] == t * a[i][j]
    ensures Quadratic(b, v) == t * Quadratic(a, v)
  {
    forall i | 0 <= i < |v| ensures Times(b, v)[i] == t * Times(a, v)[i] {
      DotScales(v, a[i], b[i], t);
    }
    DotScales(v, Times(a, v), Times(b, v), t);
  }

  lemma ScatterSnoc(rows: seq<Row>, k: nat, mean: seq<real>, i: nat, j: nat)
    requires Wide(rows, k) && |mean| == k && rows != [] && i < k && j < k
    ensures var d := Minus(rows[|rows| - 1], mean);
            Scatter(rows, k, mean)[i][j] == Scatter(rows[..|rows| - 1], k, mean)[i][j] + d[i] * d[j]
  {
  }

  lemma {:induction false} QuadraticIsSquares(rows: seq<Row>, mean: seq<real>, v: seq<real>)
    requires Wide(rows, |v|) && |mean| == |v|
    ensures Quadratic(Scatter(rows, |v|, mean), v) == SquaresAlong(rows, mean, v)
  {
    var k, s := |v|, Scatter(rows, |v|, mean);
    if rows == [] {
      QuadraticZero(s, v);
    } else {
      var front, d := rows[..|rows| - 1], Minus(rows[|rows| - 1], mean);
      var a := Scatter(front, k, mean);
      QuadraticIsSquares(front, mean, v);
      forall i, j | 0 <= i < k && 0 <= j < k ensures s[i][j] == a[i][j] + d[i] * d[j] {
        ScatterSnoc(rows, k, mean, i, j);
      }
      QuadraticAddsOuter(a, s, d, v);
    }
  }

  lemma QuadraticZero(m: Matrix, v: seq<real>)
    requires |m| == |v| && Wide(m, |v|)
    requires forall i, j :: 0 <= i < |v| && 0 <= j < |v| ==> m[i][j] == 0.0
    ensures Quadratic(m, v) == 0.0
  {
    forall i | 0 <= i < |v| ensures Times(m, v)[i] == 0.0 { DotZeroTo(v, m[i], |v|); }
    DotZeroTo(v, Times(m, v), |v|);
  }

  lemma {:induction false} SquaresAreNonNegative(rows: seq<Row>, mean: seq<real>, v: seq<real>)
    requires Wide(rows, |v|) && |mean| == |v|
    ensures SquaresAlong(rows, mean, v) >= 0.0
  {
    if rows != [] { SquaresAreNonNegative(rows[..|rows| - 1], mean, v); }
  }

  lemma Reciprocal(x: real, n: nat)
    requires n > 0
    ensures PerRow(x, n) == (1.0 / n as real) * x
  {
  }

  lemma QuadraticPerRow(a: Matrix, b: Matrix, n: nat, v: seq<real>)
    requires n > 0 && |a| == |b| == |v| && Wide(a, |v|) && Wide(b, |v|)
    requires forall i, j :: 0 <= i < |v| && 0 <= j < |v| ==> b[i][j] == PerRow(a[i][j], n)
    ensures Quadratic(b, v) == PerRow(Quadratic(a, v), n)
  {
    var t := 1.0 / n as real;
    forall i, j | 0 <= i < |v| && 0 <= j < |v| ensures b[i][j] == t * a[i][j] { Reciprocal(a[i][j], n); }
    QuadraticScales(a, b, t, v);
    Reciprocal(Quadratic(a, v), n);
  }

  lemma CovarianceIsScaledScatter(rows: seq<Row>, v: seq<real>)
    requires Wide(rows, |v|) && |rows| >= 2
    ensures Quadratic(PanelCovariance(rows, |v|), v) == PerRow(Quadratic(Scatter(rows, |v|, Means(rows, |v|)), v), |rows|)
  {
    QuadraticPerRow(Scatter(rows, |v|, Means(rows, |v|)), PanelCovariance(rows, |v|), |rows|, v);
  }

  /** The variance of a portfolio is the mean squared length of the centred rows along it. */
  lemma VarianceIsMeanSquare(rows: seq<Row>, v: seq<real>)
    requires Wide(rows, |v|) && |rows| >= 2
    ensures Quadratic(PanelCovariance(rows, |v|), v) == PerRow(SquaresAlong(rows, Means(rows, |v|), v), |rows|)
  {
    CovarianceIsScaledScatter(rows, v);
    QuadraticIsSquares(rows, Means(rows, |v|), v);
  }

  lemma PerRowIsNonNegative(x: real, n: nat)
    requires n > 0 && x >= 0.0
    ensures PerRow(x, n) >= 0.0
  {
  }

  /** No portfolio has negative variance: `v' C v >= 0` for every `v`. */
  lemma CovarianceIsPositive(rows: seq<Row>, v: seq<real>)
    requires Wide(rows, |v|)
    ensures Quadratic(PanelCovariance(rows, |v|), v) >= 0.0
  {
    if |rows| < 2 {
      QuadraticZero(PanelCovariance(rows, |v|), v);
    } else {
      VarianceIsMeanSquare(rows, v);
      SquaresAreNonNegative(rows, Means(rows, |v|), v);
      PerRowIsNonNegative(SquaresAlong(rows, Means(rows, |v|), v), |rows|);
    }
  }
}
