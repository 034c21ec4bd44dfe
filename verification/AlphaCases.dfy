/** When the two scalings of a forecast agree: the Case 2 constant on names of one volatility. */
module AlphaCases {
  import opened Options
  import opened Sums
  import opened AlphaRefine
  import opened AlphaPipeline

  predicate Uniform(vols: seq<real>, v: real) {
    forall i :: 0 <= i < |vols| ==> vols[i] == v
  }

  lemma {:induction false} UniformRatios(gs: seq<real>, vols: seq<real>, v: real)
    requires |gs| == |vols| && v > 0.0 && Uniform(vols, v)
    ensures |Ratios(gs, vols)| == |gs| && forall i :: 0 <= i < |gs| ==> Ratios(gs, vols)[i] == gs[i] / v
  {
    if gs != [] {
      var n := |gs| - 1;
      UniformRatios(gs[..n], vols[..n], v);
    }
  }

  lemma {:induction false} NoRatios(gs: seq<real>, vols: seq<real>)
    requires |gs| == |vols| && Uniform(vols, 0.0)
    ensures Ratios(gs, vols) == []
  {
    if gs != [] { NoRatios(gs[..|gs| - 1], vols[..|gs| - 1]); }
  }

  function Over(x: real, n: real): real
    requires n != 0.0
  {
    x / n
  }

  lemma OverScales(t: real, x: real, n: real)
    requires n != 0.0
    ensures Over(t * x, n) == t * Over(x, n)
  {
  }

  lemma Factor(t: real, x: real, m: real)
    ensures t * x - t * m == t * (x - m)
  {
  }

  lemma MeanScales(xs: seq<real>, zs: seq<real>, t: real)
    requires |xs| == |zs| && xs != [] && forall k :: 0 <= k < |xs| ==> zs[k] == t * xs[k]
    ensures Mean(zs) == t * Mean(xs)
  {
    SumScalesTo(xs, zs, t, |zs|);
    OverScales(t, Sum(xs), |xs| as real);
  }

  lemma DemeanScales(xs: seq<real>, zs: seq<real>, t: real, i: nat)
    requires |xs| == |zs| && i < |xs| && forall k :: 0 <= k < |xs| ==> zs[k] == t * xs[k]
    ensures Demean(zs)[i] == t * Demean(xs)[i]
  {
    MeanScales(xs, zs, t);
    Factor(t, xs[i], Mean(xs));
  }

  lemma SquaresScale(xs: seq<real>, zs: seq<real>, t: real)
    requires |xs| == |zs| && xs != [] && forall i :: 0 <= i < |xs| ==> zs[i] == t * xs[i]
    ensures Squares(zs) == (t * t) * Squares(xs)
  {
    DemeansScale(xs, zs, t);
    DotOfScaled(Demean(xs), Demean(zs), t, |xs|);
  }

  lemma DemeansScale(xs: seq<real>, zs: seq<real>, t: real)
    requires |xs| == |zs| && xs != [] && forall i :: 0 <= i < |xs| ==> zs[i] == t * xs[i]
    ensures forall i :: 0 <= i < |xs| ==> Demean(zs)[i] == t * Demean(xs)[i]
  {
    forall i | 0 <= i < |xs| ensures Demean(zs)[i] == t * Demean(xs)[i] { DemeanScales(xs, zs, t, i); }
  }

  /** Deviations from the mean, squared and added up. */
  function Squares(xs: seq<real>): real {
    Dot(Demean(xs), Demean(xs))
  }

  lemma VarianceIsOver(xs: seq<real>)
    requires xs != []
    ensures Variance(xs) == Over(Squares(xs), |xs| as real)
  {
  }

  lemma OverOfScaled(y: real, x: real, s: real, n: real)
    requires n != 0.0 && y == s * x
    ensures Over(y, n) == s * Over(x, n)
  {
    OverScales(s, x, n);
  }

  lemma VarianceScales(xs: seq<real>, zs: seq<real>, t: real, s: real)
    requires |xs| == |zs| && xs != [] && forall i :: 0 <= i < |xs| ==> zs[i] == t * xs[i]
    requires s == t * t
    ensures Variance(zs) == s * Variance(xs)
  {
    VarianceIsOver(xs);
    VarianceIsOver(zs);
    SquaresScale(xs, zs, t);
    OverOfScaled(Squares(zs), Squares(xs), s, |xs| as real);
  }

  lemma SquareLess(r: real, s: real)
    requires 0.0 <= r < s
    ensures r * r < s * s
  {
    var a, b, c := r * r, r * s, s * s;
    assert b - a == r * (s - r) && c - b == s * (s - r);
    ProductSign(r, s - r);
    ProductOrderStrict(s, 0.0, s - r);
  }

  lemma SameSquare(r: real, s: real)
    requires r >= 0.0 && s >= 0.0 && r * r == s * s
    ensures r == s
  {
    if r < s { SquareLess(r, s); }
    if s < r { SquareLess(s, r); }
  }

  lemma RootsScale(num: real, den: real, t: real, variance: real)
    requires t >= 0.0 && num >= 0.0 && den >= 0.0
    requires num * num == variance && den * den == (t * t) * variance
    ensures den == t * num
  {
    ProductSign(t, num);
    assert (t * num) * (t * num) == (t * t) * (num * num);
    SameSquare(den, t * num);
  }

  lemma UndoScale(num: real, den: real, v: real)
    requires v > 0.0 && den != 0.0 && den == (1.0 / v) * num
    ensures num / den == v
  {
    var t := 1.0 / v;
    assert t * v == 1.0;
    assert num == (t * num) * v;
    assert num == den * v;
    assert (den * v) / den == v;
  }

  lemma DividedIsScaled(x: real, v: real)
    requires v != 0.0
    ensures x / v == (1.0 / v) * x
  {
  }

  lemma RatiosVariance(g: seq<real>, rs: seq<real>, v: real)
    requires |g| == |rs| && g != [] && v > 0.0 && forall i :: 0 <= i < |g| ==> rs[i] == g[i] / v
    ensures Variance(rs) == ((1.0 / v) * (1.0 / v)) * Variance(g)
  {
    var t := 1.0 / v;
    forall i | 0 <= i < |g| ensures rs[i] == t * g[i] { DividedIsScaled(g[i], v); }
    VarianceScales(g, rs, t, t * t);
  }

  lemma UniformRoots(num: real, den: real, v: real, variance: real, scaled: real)
    requires v > 0.0 && num >= 0.0 && den >= 0.0 && num * num == variance && den * den == scaled
    requires scaled == ((1.0 / v) * (1.0 / v)) * variance
    ensures den != 0.0 ==> num / den == v
  {
    var t := 1.0 / v;
    assert t >= 0.0;
    RootsScale(num, den, t, variance);
    if den != 0.0 { UndoScale(num, den, v); }
  }

  lemma UniformQuotient(g: seq<real>, rs: seq<real>, num: real, den: real, v: real)
    requires |g| == |rs| && g != [] && v > 0.0 && forall i :: 0 <= i < |g| ==> rs[i] == g[i] / v
    requires IsStd(num, g) && IsStd(den, rs)
    ensures den != 0.0 ==> num / den == v
  {
    RatiosVariance(g, rs, v);
    UniformRoots(num, den, v, Variance(g), Variance(rs));
  }

  /** On names that share one positive vol, the Case 2 constant is that vol, where it can be formed. */
  lemma UniformFactor(scores: seq<real>, vols: seq<real>, lower: real, upper: real, num: real, den: real, v: real)
    requires |scores| == |vols| >= 1 && 0.0 <= lower <= 1.0 && 0.0 <= upper <= 1.0 && v > 0.0 && Uniform(vols, v)
    requires IsStd(num, Winsorize(scores, lower, upper))
    requires IsStd(den, Ratios(Winsorize(scores, lower, upper), vols))
    ensures var c := CaseScaleFactor(scores, vols, lower, upper, num, den); c.Some? ==> c.value == v
  {
    var g := Winsorize(scores, lower, upper);
    var rs := Ratios(g, vols);
    UniformRatios(g, vols, v);
    UniformQuotient(g, rs, num, den, v);
  }

  lemma UniformMean(vols: seq<real>, v: real)
    requires vols != [] && Uniform(vols, v)
    ensures Mean(vols) == v
  {
    var n := |vols| as real;
    SumOfConstant(vols, v, |vols|);
    assert Sum(vols) == n * v;
    assert (n * v) / n == v;
  }

  /** With the fallback, the scale is the common vol on every cross-section, a zero vol included. */
  lemma UniformScale(scores: seq<real>, vols: seq<real>, ctx: Context, roots: Roots, v: real)
    requires ProperLimits(ctx) && |scores| == |vols| > 0 && UsesCase2(scores, ctx) && ScaleRootsOk(scores, vols, ctx, roots)
    requires v >= 0.0 && Uniform(vols, v)
    ensures Scale(scores, vols, ctx, roots) == v
  {
    var g := Winsorize(scores, ctx.lower, ctx.upper);
    UniformMean(vols, v);
    if v > 0.0 {
      UniformRatios(g, vols, v);
      UniformFactor(scores, vols, ctx.lower, ctx.upper, roots.num, roots.den, v);
    } else {
      NoRatios(g, vols);
    }
  }

  /**
    The Case 2 constant stands in for the names' own vols: on a cross-section that shares
    one vol the two scalings are the same forecast, before the cap and after it.
  */
  lemma CasesAgreeOnUniformVols(scores: seq<real>, vols: seq<real>, ctx: Context, roots: Roots, residual: Option<seq<real>>, v: real)
    requires ProperLimits(ctx) && |scores| == |vols| > 0 && v >= 0.0 && Uniform(vols, v)
    requires residual.Some? ==> |residual.value| == |scores|
    requires RootsOk(scores, vols, ctx, roots, residual)
    ensures var own := ctx.(case2 := false);
      && RootsOk(scores, vols, own, roots, residual)
      && Refine(scores, vols, own, roots, residual).uncapped == Refine(scores, vols, ctx, roots, residual).uncapped
      && Refine(scores, vols, own, roots, residual).alpha == Refine(scores, vols, ctx, roots, residual).alpha
  {
    var own := ctx.(case2 := false);
    if UsesCase2(scores, ctx) { UniformScale(scores, vols, ctx, roots, v); }
    assert VolVector(scores, vols, ctx, roots) == VolVector(scores, vols, own, roots);
    assert Standardized(scores, ctx, roots.score, residual) == Standardized(scores, own, roots.score, residual);
    var z, vs := Standardized(scores, ctx, roots.score, residual), VolVector(scores, vols, ctx, roots);
    assert Forecast(z, vs, ctx) == Forecast(z, vs, own);
  }
}
