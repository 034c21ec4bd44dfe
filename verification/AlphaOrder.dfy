/** Which forecasts the cap bounds, and when names' own vols keep the order of their scores. */
module AlphaOrder {
  import opened Options
  import opened Sums
  import opened AlphaRefine
  import opened AlphaPipeline
  import opened AlphaCases

  // ------------------------------------------------------------------------
  // The cap, on forecasts that do not vary
  // ------------------------------------------------------------------------

  /** `x` within `m` of zero. */
  predicate Within(x: real, m: real) { -m <= x <= m }

  lemma CappedWithin(uncapped: seq<real>, nStd: real, std: real, i: nat, m: real)
    requires IsStd(std, uncapped) && nStd >= 0.0 && i < |uncapped| && m == nStd * std
    ensures Within(Cap(uncapped, nStd, std)[i], m) <==> std > 0.0 || uncapped[i] == 0.0
  {
    CapBounds(uncapped, nStd, std, i, m);
  }

  /**
    The cap is a no-op on forecasts with no dispersion, so a forecast lies within the
    allowed number of standard deviations exactly when they have some or it is zero.
  */
  lemma AlphaIsCapped(scores: seq<real>, vols: seq<real>, ctx: Context, roots: Roots, residual: Option<seq<real>>, i: nat)
    requires ProperLimits(ctx) && |scores| == |vols| > 0 && i < |scores|
    requires residual.Some? ==> |residual.value| == |scores|
    requires RootsOk(scores, vols, ctx, roots, residual)
    requires ctx.capStd >= 0.0 && !Thin(scores, ctx)
    ensures var r := Refine(scores, vols, ctx, roots, residual);
      Within(r.alpha[i], ctx.capStd * roots.cap) <==> roots.cap > 0.0 || r.uncapped[i] == 0.0
  {
    RefinedIsCapped(scores, vols, ctx, roots, residual);
    CappedWithin(Refine(scores, vols, ctx, roots, residual).uncapped, ctx.capStd, roots.cap, i, ctx.capStd * roots.cap);
  }

  lemma NegatedFactor(x: real, y: real)
    ensures (-x) * y == -(x * y)
  {
  }

  lemma NoQuotientNoNumerator(x: real, n: real)
    requires n != 0.0 && x / n == 0.0
    ensures x == 0.0
  {
    assert (x / n) * n == x;
  }

  lemma ZeroDispersionIsConstant(xs: seq<real>, i: nat)
    requires IsStd(0.0, xs) && i < |xs|
    ensures xs[i] == Mean(xs)
  {
    NoQuotientNoNumerator(Dot(Demean(xs), Demean(xs)), |xs| as real);
    SquaresGrow(Demean(xs), |xs|);
    assert Demean(xs)[i] == 0.0;
  }

  lemma {:induction false} AllPositive(xs: seq<real>, n: nat)
    requires n <= |xs| && forall i :: 0 <= i < |xs| ==> xs[i] > 0.0
    ensures n > 0 ==> SumTo(xs, n) > 0.0
  {
    if n > 0 { AllPositive(xs, n - 1); }
  }

  lemma SignOfFactor(vol: real, x: real)
    requires vol >= 0.0 && vol * x > 0.0
    ensures x > 0.0
  {
    if x <= 0.0 { ProductSign(vol, -x); }
  }

  function Signed(t: real, z: seq<real>): (xs: seq<real>)
    ensures |xs| == |z|
  {
    seq(|z|, i requires 0 <= i < |z| => t * z[i])
  }

  /** Scores that sum to zero are not all on one side, whatever they are scaled by. */
  lemma NotAllOneSide(z: seq<real>, t: real)
    requires z != [] && Sum(z) == 0.0
    ensures exists i :: 0 <= i < |z| && t * z[i] <= 0.0
  {
    var xs := Signed(t, z);
    SumScalesTo(z, xs, t, |z|);
    if forall i :: 0 <= i < |z| ==> t * z[i] > 0.0 {
      forall i | 0 <= i < |z| ensures xs[i] > 0.0 { assert t * z[i] > 0.0; }
      AllPositive(xs, |xs|);
    }
  }

  lemma ScaledAsProduct(vol: real, ic: real, z: real, f: real, sign: real)
    ensures sign * Scaled(vol, ic, z, f) == vol * ((sign * (ic * f)) * z)
  {
    var k := ic * f;
    assert Scaled(vol, ic, z, f) == vol * (k * z);
    assert sign * (vol * (k * z)) == vol * (sign * (k * z));
    assert (sign * k) * z == sign * (k * z);
  }

  /** If centred scores and non-negative vols give one forecast to every name, it is zero. */
  lemma OneForecastIsZero(z: seq<real>, vs: seq<real>, ctx: Context, v: real, sign: real)
    requires |z| == |vs| > 0 && Sum(z) == 0.0 && sign != 0.0
    requires forall i :: 0 <= i < |vs| ==> vs[i] >= 0.0
    requires forall i :: 0 <= i < |z| ==> Forecast(z, vs, ctx)[i] == v
    ensures sign * v <= 0.0
  {
    var t := sign * (ctx.ic * ShrinkFactor(ctx));
    NotAllOneSide(z, t);
    var i :| 0 <= i < |z| && t * z[i] <= 0.0;
    ForecastAt(z, vs, ctx, i);
    ScaledAsProduct(vs[i], ctx.ic, z[i], ShrinkFactor(ctx), sign);
    if sign * v > 0.0 { SignOfFactor(vs[i], t * z[i]); }
  }

  /**
    So every forecast of a full universe is capped when the scores it is made of sum to
    zero, as standardized scores and a residual over all its names do, and vols are not
    negative.
  */
  lemma CentredAlphasAreCapped(scores: seq<real>, vols: seq<real>, ctx: Context, roots: Roots, residual: Option<seq<real>>, i: nat)
    requires ProperLimits(ctx) && |scores| == |vols| > 0 && i < |scores|
    requires residual.Some? ==> |residual.value| == |scores| && Sum(residual.value) == 0.0
    requires RootsOk(scores, vols, ctx, roots, residual)
    requires ctx.capStd >= 0.0 && !Thin(scores, ctx) && forall k :: 0 <= k < |vols| ==> vols[k] >= 0.0
    ensures Within(Refine(scores, vols, ctx, roots, residual).alpha[i], ctx.capStd * roots.cap)
  {
    AlphaIsCapped(scores, vols, ctx, roots, residual, i);
    if roots.cap == 0.0 { FlatForecastIsZero(scores, vols, ctx, roots, residual, i); }
  }

  lemma FlatIsZero(z: seq<real>, vs: seq<real>, ctx: Context, i: nat)
    requires |z| == |vs| && i < |z| && Sum(z) == 0.0 && forall k :: 0 <= k < |vs| ==> vs[k] >= 0.0
    requires IsStd(0.0, Forecast(z, vs, ctx))
    ensures Forecast(z, vs, ctx)[i] == 0.0
  {
    var v := Mean(Forecast(z, vs, ctx));
    forall k | 0 <= k < |z| ensures Forecast(z, vs, ctx)[k] == v { ZeroDispersionIsConstant(Forecast(z, vs, ctx), k); }
    OneForecastIsZero(z, vs, ctx, v, 1.0);
    OneForecastIsZero(z, vs, ctx, v, -1.0);
  }

  lemma StandardizedIsCentred(scores: seq<real>, ctx: Context, root: real, residual: Option<seq<real>>)
    requires ProperLimits(ctx) && ScoreRootOk(scores, ctx, root) && scores != [] && !Thin(scores, ctx)
    requires residual.Some? ==> |residual.value| == |scores| && Sum(residual.value) == 0.0
    ensures Sum(Standardized(scores, ctx, root, residual)) == 0.0
  {
    if residual.None? { ZscoreIsStandard(Winsorize(scores, ctx.lower, ctx.upper), root); }
  }

  lemma VolVectorIsNonNegative(scores: seq<real>, vols: seq<real>, ctx: Context, roots: Roots)
    requires ProperLimits(ctx) && |scores| == |vols| > 0 && ScaleRootsOk(scores, vols, ctx, roots)
    requires forall k :: 0 <= k < |vols| ==> vols[k] >= 0.0
    ensures forall k :: 0 <= k < |vols| ==> VolVector(scores, vols, ctx, roots)[k] >= 0.0
  {
    if UsesCase2(scores, ctx) { ScaleIsNonNegative(scores, vols, ctx, roots); }
  }

  lemma FlatForecastIsZero(scores: seq<real>, vols: seq<real>, ctx: Context, roots: Roots, residual: Option<seq<real>>, i: nat)
    requires ProperLimits(ctx) && |scores| == |vols| > 0 && i < |scores|
    requires residual.Some? ==> |residual.value| == |scores| && Sum(residual.value) == 0.0
    requires RootsOk(scores, vols, ctx, roots, residual)
    requires !Thin(scores, ctx) && roots.cap == 0.0 && forall k :: 0 <= k < |vols| ==> vols[k] >= 0.0
    ensures Refine(scores, vols, ctx, roots, residual).uncapped[i] == 0.0
  {
    StandardizedIsCentred(scores, ctx, roots.score, residual);
    VolVectorIsNonNegative(scores, vols, ctx, roots);
    FlatIsZero(Standardized(scores, ctx, roots.score, residual), VolVector(scores, vols, ctx, roots), ctx, i);
  }

  // ------------------------------------------------------------------------
  // When per-name vols keep the order
  // ------------------------------------------------------------------------

  ghost predicate OrderKept(z: seq<real>, alphas: seq<real>)
    requires |z| == |alphas|
  {
    forall i, j :: 0 <= i < |z| && 0 <= j < |z| && z[i] <= z[j] ==> alphas[i] <= alphas[j]
  }

  /** Case 1 scaling keeps the order of one centred cross-section. */
  ghost predicate KeepsOrderOf(z: seq<real>, vols: seq<real>, ctx: Context) {
    |z| == |vols| && Sum(z) == 0.0 ==> OrderKept(z, Forecast(z, vols, ctx))
  }

  /** Of two names with different vols, scores against the order of their vols, a third name balancing them. */
  function Opposed(n: nat, i: nat, j: nat, k: nat, lo: real, hi: real): (z: seq<real>)
    ensures |z| == n
  {
    seq(n, m => if m == i then -(hi + hi) else if m == j then -(lo + hi) else if m == k then hi + hi + hi + lo else 0.0)
  }

  lemma {:induction false} OpposedSum(n: nat, i: nat, j: nat, k: nat, lo: real, hi: real, m: nat)
    requires i != j && j != k && i != k && m <= n
    ensures SumTo(Opposed(n, i, j, k, lo, hi), m)
      == (if i < m then -(hi + hi) else 0.0) + (if j < m then -(lo + hi) else 0.0) + (if k < m then hi + hi + hi + lo else 0.0)
  {
    if m > 0 { OpposedSum(n, i, j, k, lo, hi, m - 1); }
  }

  lemma OpposedForecasts(lo: real, hi: real, ic: real, f: real)
    requires 0.0 <= lo < hi && ic > 0.0 && f > 0.0
    ensures Scaled(lo, ic, -(hi + hi), f) > Scaled(hi, ic, -(lo + hi), f)
  {
    var k := ic * f;
    ProductOrderStrict(ic, 0.0, f);
    var x, y := lo * -(hi + hi), hi * -(lo + hi);
    assert x - y == hi * (hi - lo);
    ProductOrderStrict(hi, 0.0, hi - lo);
    ProductOrderStrict(k, y, x);
    ScaledAsProduct(lo, ic, -(hi + hi), f, 1.0);
    ScaledAsProduct(hi, ic, -(lo + hi), f, 1.0);
    Regroup(lo, k, -(hi + hi));
    Regroup(hi, k, -(lo + hi));
  }

  lemma Regroup(a: real, k: real, z: real)
    ensures a * ((1.0 * k) * z) == k * (a * z)
  {
  }

  lemma UnequalVolsReorder(vols: seq<real>, ctx: Context, i: nat, j: nat, k: nat)
    requires i < |vols| && j < |vols| && k < |vols| && i != j && j != k && i != k
    requires 0.0 <= vols[i] < vols[j] && ctx.ic > 0.0 && ShrinkFactor(ctx) > 0.0
    ensures !KeepsOrderOf(Opposed(|vols|, i, j, k, vols[i], vols[j]), vols, ctx)
  {
    var z := Opposed(|vols|, i, j, k, vols[i], vols[j]);
    OpposedSum(|vols|, i, j, k, vols[i], vols[j], |vols|);
    ForecastAt(z, vols, ctx, i);
    ForecastAt(z, vols, ctx, j);
    OpposedForecasts(vols[i], vols[j], ctx.ic, ShrinkFactor(ctx));
    assert z[i] <= z[j];
  }

  /** Two centred scores lie on either side of zero, so any two vols keep their order. */
  lemma PairKeepsOrder(z: seq<real>, vols: seq<real>, ctx: Context)
    requires |z| == |vols| == 2 && Sum(z) == 0.0 && vols[0] >= 0.0 && vols[1] >= 0.0 && ctx.ic >= 0.0
    ensures OrderKept(z, Forecast(z, vols, ctx))
  {
    assert SumTo(z, 1) == z[0] && z[1] == -z[0];
    forall i, j | 0 <= i < 2 && 0 <= j < 2 && i != j && z[i] <= z[j] ensures Forecast(z, vols, ctx)[i] <= Forecast(z, vols, ctx)[j] {
      ForecastAt(z, vols, ctx, i);
      ForecastAt(z, vols, ctx, j);
      SignOfScaled(vols[i], ctx.ic, z[i], ShrinkFactor(ctx));
      SignOfScaled(vols[j], ctx.ic, z[j], ShrinkFactor(ctx));
    }
  }

  lemma SignOfScaled(vol: real, ic: real, z: real, f: real)
    requires vol >= 0.0 && ic >= 0.0 && f >= 0.0
    ensures z >= 0.0 ==> Scaled(vol, ic, z, f) >= 0.0
    ensures z <= 0.0 ==> Scaled(vol, ic, z, f) <= 0.0
  {
    ProductSign(vol, ic);
    var k := vol * ic;
    var s := k * z;
    if z >= 0.0 {
      ProductSign(k, z);
      ProductSign(s, f);
    }
    if z <= 0.0 {
      ProductSign(k, -z);
      assert k * -z == -s;
      var minus := -s;
      ProductSign(minus, f);
      NegatedFactor(s, f);
    }
  }

  /**
    Per-name vols keep the order of every centred cross-section exactly when they do not
    differ, or there are at most two names.
  */
  lemma PerNameVolsKeepOrderIff(vols: seq<real>, ctx: Context)
    requires ctx.ic > 0.0 && ShrinkFactor(ctx) > 0.0 && forall k :: 0 <= k < |vols| ==> vols[k] >= 0.0
    ensures (forall z :: KeepsOrderOf(z, vols, ctx)) <==> |vols| <= 2 || Uniform(vols, vols[0])
  {
    if |vols| > 2 && !Uniform(vols, vols[0]) {
      var m :| 0 <= m < |vols| && vols[m] != vols[0];
      var i, j := if vols[m] < vols[0] then m else 0, if vols[m] < vols[0] then 0 else m;
      var k := if i != 1 && j != 1 then 1 else 2;
      UnequalVolsReorder(vols, ctx, i, j, k);
    } else {
      forall z ensures KeepsOrderOf(z, vols, ctx) {
        if |z| == |vols| && Sum(z) == 0.0 { EqualVolsKeepOrder(z, vols, ctx); }
      }
    }
  }

  lemma EqualVolsKeepOrder(z: seq<real>, vols: seq<real>, ctx: Context)
    requires |z| == |vols| && Sum(z) == 0.0 && ctx.ic > 0.0 && forall k :: 0 <= k < |vols| ==> vols[k] >= 0.0
    requires |vols| <= 2 || Uniform(vols, vols[0])
    ensures OrderKept(z, Forecast(z, vols, ctx))
  {
    if |vols| == 2 {
      PairKeepsOrder(z, vols, ctx);
    } else {
      forall i, j | 0 <= i < |z| && 0 <= j < |z| && z[i] <= z[j] ensures Forecast(z, vols, ctx)[i] <= Forecast(z, vols, ctx)[j] {
        ForecastKeepsOrder(z, vols, ctx, i, j);
      }
    }
  }
}
