/**
  What the regression's coefficients are: those whose residual is orthogonal to every
  column. They exist for every design, repeated and empty columns included, and no other
  coefficients leave smaller squares.
*/
module LeastSquares {
  import opened Sums
  import opened Attribution

  function Column(x: Matrix, k: nat, c: nat): (col: seq<real>)
    requires Wide(x, k) && c < k
    ensures |col| == |x|
  {
    seq(|x|, i requires 0 <= i < |x| => x[i][c])
  }

  /** What the first `n` columns leave of `r`. */
  function Left(x: Matrix, k: nat, r: seq<real>, b: seq<real>, n: nat): (e: seq<real>)
    requires Wide(x, k) && |x| == |r| && |b| == k && n <= k
    ensures |e| == |r|
  {
    seq(|r|, i requires 0 <= i < |r| => r[i] - DotTo(x[i], b, n))
  }

  ghost predicate Orthogonal(x: Matrix, k: nat, e: seq<real>, n: nat)
    requires Wide(x, k) && |x| == |e| && n <= k
  {
    forall c :: 0 <= c < n ==> Dot(e, Column(x, k, c)) == 0.0
  }

  /** The normal equations `x'x b = x'r`. */
  ghost predicate Normal(x: Matrix, k: nat, r: seq<real>, b: seq<real>)
    requires Wide(x, k) && |x| == |r|
  {
    |b| == k && Orthogonal(x, k, Left(x, k, r, b, k), k)
  }

  /** A solver that answers every regression by its normal equations, as a pseudo-inverse does. */
  ghost predicate SolvesLeastSquares(solve: Solver, k: nat) {
    GivesCoefficients(solve, k) && forall x, r :: Wide(x, k) && |x| == |r| ==> Normal(x, k, r, solve(x, r))
  }

  // ------------------------------------------------------------------------
  // No other coefficients leave less
  // ------------------------------------------------------------------------

  /** Orthogonal to the columns is orthogonal to whatever they fit. */
  lemma OrthogonalToFit(x: Matrix, k: nat, e: seq<real>, d: seq<real>, n: nat)
    requires Wide(x, k) && |x| == |e| && |d| == k && n <= k && Orthogonal(x, k, e, n)
    ensures Dot(e, Fit(x, d, k, n)) == 0.0
  {
    FitIsContributions(e, x, d, k, n);
    forall c | 0 <= c < n ensures Contributions(e, x, d, k)[c] == 0.0 {
      DotScales(e, Column(x, k, c), seq(|x|, i requires 0 <= i < |x| => x[i][c] * d[c]), d[c]);
    }
    ZeroSum(Contributions(e, x, d, k), n);
  }

  /** `e'` is `e` with something orthogonal to it taken away. */
  lemma Pythagoras(e: seq<real>, f: seq<real>, e': seq<real>)
    requires |e| == |f| == |e'| && Dot(e, f) == 0.0
    requires forall i :: 0 <= i < |e| ==> e'[i] == e[i] + -1.0 * f[i]
    ensures Dot(e', e') == Dot(e, e) + Dot(f, f)
  {
    DotAdds(e', e, f, e', -1.0);
    DotAdds(e, e, f, e', -1.0);
    DotAdds(f, e, f, e', -1.0);
    DotSwaps(e, e', |e|);
    DotSwaps(f, e', |e|);
    DotSwaps(e, f, |e|);
  }

  function Minus(a: seq<real>, b: seq<real>): (d: seq<real>)
    requires |a| == |b|
    ensures |d| == |a| && forall i :: 0 <= i < |d| ==> a[i] == b[i] + 1.0 * d[i]
  {
    seq(|a|, i requires 0 <= i < |a| => a[i] - b[i])
  }

  /** Coefficients that solve the normal equations leave the least squares. */
  lemma NormalIsLeast(x: Matrix, k: nat, r: seq<real>, b: seq<real>, other: seq<real>)
    requires Wide(x, k) && |x| == |r| && Normal(x, k, r, b) && |other| == k
    ensures var e, e' := Left(x, k, r, b, k), Left(x, k, r, other, k); Dot(e, e) <= Dot(e', e')
  {
    var d := Minus(other, b);
    var e, e', f := Left(x, k, r, b, k), Left(x, k, r, other, k), Fit(x, d, k, k);
    OrthogonalToFit(x, k, e, d, k);
    forall i | 0 <= i < |r| ensures e'[i] == e[i] + -1.0 * f[i] { DotAddsTo(x[i], b, d, other, 1.0, k); }
    Pythagoras(e, f, e');
    SquaresGrow(f, |f|);
  }

  /** With more names than columns the regression's residual is orthogonal to each column, and least. */
  lemma RegressionIsLeast(x: Matrix, k: nat, r: seq<real>, solve: Solver, other: seq<real>)
    requires Wide(x, k) && |x| == |r| && |x| > k > 0 && SolvesLeastSquares(solve, k) && |other| == k
    ensures var e, e' := Regression(x, k, r, solve).1, Left(x, k, r, other, k);
            Orthogonal(x, k, e, k) && Dot(e, e) <= Dot(e', e')
  {
    var b, e := solve(x, r), Regression(x, k, r, solve).1;
    forall i | 0 <= i < |r| ensures e[i] == Left(x, k, r, b, k)[i] { assert Fit(x, b, k, k)[i] == DotTo(x[i], b, k); }
    assert e == Left(x, k, r, b, k);
    NormalIsLeast(x, k, r, b, other);
  }

  // ------------------------------------------------------------------------
  // There are always some
  // ------------------------------------------------------------------------

  /** `b - t d` over the first `n` columns and `t` on the next. */
  function Extended(b: seq<real>, d: seq<real>, t: real, n: nat): (b': seq<real>)
    requires |b| == |d|
    ensures |b'| == |b|
  {
    seq(|b|, j requires 0 <= j < |b| => if j == n then t else b[j] + -t * d[j])
  }

  lemma ExtendedFit(row: seq<real>, b: seq<real>, d: seq<real>, t: real, n: nat)
    requires |row| == |b| == |d| && n < |row|
    ensures DotTo(row, Extended(b, d, t, n), n + 1) == (DotTo(row, b, n) + -t * DotTo(row, d, n)) + row[n] * t
  {
    var plain := seq(|b|, j requires 0 <= j < |b| => b[j] + -t * d[j]);
    DotToAgrees(row, Extended(b, d, t, n), plain, n);
    DotAddsTo(row, b, d, plain, -t, n);
  }

  lemma LeftOver(r: real, fit: real, own: real, t: real, u: real, all: real)
    requires all == (fit + -t * own) + u * t
    ensures r - all == (r - fit) + -t * (u - own)
  {
    assert -t * (u - own) == -t * u + t * own && -t * own == -(t * own) && -t * u == -(u * t);
  }

  /** Fitting the extended coefficients takes `t` times what is left of the next column. */
  lemma ExtendedLeaves(x: Matrix, k: nat, r: seq<real>, b: seq<real>, d: seq<real>, t: real, n: nat, i: nat)
    requires Wide(x, k) && |x| == |r| && |b| == |d| == k && n < k && i < |r|
    ensures Left(x, k, r, Extended(b, d, t, n), n + 1)[i]
         == Left(x, k, r, b, n)[i] + -t * Left(x, k, Column(x, k, n), d, n)[i]
  {
    ExtendedFit(x[i], b, d, t, n);
    LeftOver(r[i], DotTo(x[i], b, n), DotTo(x[i], d, n), t, x[i][n], DotTo(x[i], Extended(b, d, t, n), n + 1));
  }

  /** The multiple of `f` that leaves nothing of it in `e`. */
  function Share(e: seq<real>, f: seq<real>): real
    requires |e| == |f|
  {
    if Dot(f, f) == 0.0 then 0.0 else Dot(e, f) / Dot(f, f)
  }

  lemma ShareClears(e: seq<real>, f: seq<real>)
    requires |e| == |f|
    ensures Dot(e, f) + -Share(e, f) * Dot(f, f) == 0.0
  {
    if Dot(f, f) == 0.0 {
      SquaresGrow(f, |f|);
      DotZeroTo(e, f, |f|);
    }
  }

  /** Left of `r` and of a column by the same columns, both cleared: the next one is cleared too. */
  lemma OneMoreColumn(x: Matrix, k: nat, r: seq<real>, b: seq<real>, d: seq<real>, n: nat)
    requires Wide(x, k) && |x| == |r| && |b| == |d| == k && n < k
    requires Orthogonal(x, k, Left(x, k, r, b, n), n) && Orthogonal(x, k, Left(x, k, Column(x, k, n), d, n), n)
    ensures var t := Share(Left(x, k, r, b, n), Left(x, k, Column(x, k, n), d, n));
            Orthogonal(x, k, Left(x, k, r, Extended(b, d, t, n), n + 1), n + 1)
  {
    var col := Column(x, k, n);
    var e, f := Left(x, k, r, b, n), Left(x, k, col, d, n);
    var t := Share(e, f);
    var e' := Left(x, k, r, Extended(b, d, t, n), n + 1);
    forall i | 0 <= i < |r| ensures e'[i] == e[i] + -t * f[i] { ExtendedLeaves(x, k, r, b, d, t, n, i); }
    forall c | 0 <= c < n ensures Dot(e', Column(x, k, c)) == 0.0 { ClearedOf(e, f, e', t, Column(x, k, c)); }
    ShareClears(e, f);
    LastCleared(e, f, e', t, col, Fit(x, d, k, n)) by {
      OrthogonalToFit(x, k, e, d, n);
      OrthogonalToFit(x, k, f, d, n);
    }
  }

  lemma ClearedOf(e: seq<real>, f: seq<real>, e': seq<real>, t: real, col: seq<real>)
    requires |e| == |f| == |e'| == |col| && Dot(e, col) == 0.0 && Dot(f, col) == 0.0
    requires forall i :: 0 <= i < |e| ==> e'[i] == e[i] + -t * f[i]
    ensures Dot(e', col) == 0.0
  {
    DotAdds(col, e, f, e', -t);
    DotSwaps(col, e, |e|);
    DotSwaps(col, f, |e|);
    DotSwaps(col, e', |e|);
  }

  lemma LastCleared(e: seq<real>, f: seq<real>, e': seq<real>, t: real, col: seq<real>, fit: seq<real>)
    requires |e| == |f| == |e'| == |col| == |fit| && Dot(e, fit) == 0.0 && Dot(f, fit) == 0.0
    requires forall i :: 0 <= i < |e| ==> e'[i] == e[i] + -t * f[i]
    requires forall i :: 0 <= i < |e| ==> f[i] == col[i] - fit[i]
    requires Dot(e, f) + -t * Dot(f, f) == 0.0
    ensures Dot(e', col) == 0.0
  {
    ClearedOf(e, f, e', t, fit);
    DotAdds(f, e, f, e', -t);
    DotSwaps(f, e, |e|);
    DotSwaps(f, e', |e|);
    DotAdds(e', f, fit, col, 1.0);
  }

  /** Column by column, by induction: coefficients over the first `n` whose residual is orthogonal to them. */
  lemma {:induction false} Projects(x: Matrix, k: nat, r: seq<real>, n: nat) returns (b: seq<real>)
    requires Wide(x, k) && |x| == |r| && n <= k
    ensures |b| == k && Orthogonal(x, k, Left(x, k, r, b, n), n)
    decreases n
  {
    if n == 0 { return Zeros(k); }
    var m := n - 1;
    var c := Projects(x, k, r, m);
    var d := Projects(x, k, Column(x, k, m), m);
    OneMoreColumn(x, k, r, c, d, m);
    b := Extended(c, d, Share(Left(x, k, r, c, m), Left(x, k, Column(x, k, m), d, m)), m);
  }

  lemma NormalHasSolution(x: Matrix, k: nat, r: seq<real>)
    requires Wide(x, k) && |x| == |r|
    ensures exists b :: Normal(x, k, r, b)
  {
    var b := Projects(x, k, r, k);
    assert Normal(x, k, r, b);
  }

  ghost function Answer(x: Matrix, k: nat, r: seq<real>): (b: seq<real>)
    ensures |b| == k && (Wide(x, k) && |x| == |r| ==> Normal(x, k, r, b))
  {
    if Wide(x, k) && |x| == |r| then
      NormalHasSolution(x, k, r);
      var b :| Normal(x, k, r, b);
      b
    else Zeros(k)
  }

  /** Some solver answers every regression of a given width by least squares. */
  lemma LeastSquaresExist(k: nat) returns (solve: Solver)
    ensures SolvesLeastSquares(solve, k)
  {
    solve := (x: Matrix, r: seq<real>) => Answer(x, k, r);
  }
}
