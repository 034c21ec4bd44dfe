/** The whole refinement of one cross-section, and what it keeps of the scores' order. */
module AlphaPipeline {
  import opened Options
  import opened Sums
  import opened AlphaRefine

  datatype Context = Context(
    ic: real, defaultVol: real, lower: real, upper: real, capStd: real, minUniverse: nat,
    case2: bool, levelShrink: Option<(real, real)>)

  predicate ProperLimits(ctx: Context) {
    0.0 <= ctx.lower <= 1.0 && 0.0 <= ctx.upper <= 1.0
  }

  /** Witnesses for the four standard deviations the pipeline takes. */
  datatype Roots = Roots(score: real, num: real, den: real, cap: real)

  datatype Step =
    | Case1(multiplier: real)
    | Case2(scale: real, multiplier: real)
    | IcUncertainty(ic: real, tEff: real, multiplier: real)

  datatype Refined = Refined(z: seq<real>, uncapped: seq<real>, alpha: seq<real>, chain: seq<Step>, thin: bool)

  function Product(chain: seq<Step>): real {
    if chain == [] then 1.0 else Product(chain[..|chain| - 1]) * chain[|chain| - 1].multiplier
  }

  function Thin(scores: seq<real>, ctx: Context): bool { |scores| < ctx.minUniverse }

  predicate UsesCase2(scores: seq<real>, ctx: Context) { ctx.case2 && !Thin(scores, ctx) }

  predicate ScoreRootOk(scores: seq<real>, ctx: Context, root: real)
    requires ProperLimits(ctx)
  {
    scores != [] && !Thin(scores, ctx) ==> IsStd(root, Winsorize(scores, ctx.lower, ctx.upper))
  }

  predicate ScaleRootsOk(scores: seq<real>, vols: seq<real>, ctx: Context, roots: Roots)
    requires ProperLimits(ctx) && |scores| == |vols|
  {
    UsesCase2(scores, ctx) ==>
      var g := Winsorize(scores, ctx.lower, ctx.upper);
      && (scores != [] ==> IsStd(roots.num, g))
      && (Ratios(g, vols) != [] ==> IsStd(roots.den, Ratios(g, vols)))
  }

  /** Steps 1-3: standardized scores, or the regression residual when neutralizing. */
  function Standardized(scores: seq<real>, ctx: Context, root: real, residual: Option<seq<real>>): (z: seq<real>)
    requires ProperLimits(ctx) && ScoreRootOk(scores, ctx, root)
    requires residual.Some? ==> |residual.value| == |scores|
    ensures |z| == |scores|
  {
    if Thin(scores, ctx) then Demean(scores)
    else if residual.Some? then residual.value
    else Zscore(Winsorize(scores, ctx.lower, ctx.upper), root)
  }

  /** The Case 2 constant, or a representative vol when it cannot be formed. */
  function Scale(scores: seq<real>, vols: seq<real>, ctx: Context, roots: Roots): real
    requires ProperLimits(ctx) && |scores| == |vols| > 0 && UsesCase2(scores, ctx) && ScaleRootsOk(scores, vols, ctx, roots)
  {
    var c := CaseScaleFactor(scores, vols, ctx.lower, ctx.upper, roots.num, roots.den);
    if c.Some? then c.value else Mean(vols)
  }

  function Constant(x: real, n: nat): (xs: seq<real>)
    ensures |xs| == n && forall i :: 0 <= i < n ==> xs[i] == x
  {
    seq(n, i => x)
  }

  function Times(xs: seq<real>, t: real): (ys: seq<real>)
    ensures |ys| == |xs| && forall i :: 0 <= i < |ys| ==> ys[i] == xs[i] * t
  {
    seq(|xs|, i requires 0 <= i < |xs| => xs[i] * t)
  }

  function ShrinkSteps(ctx: Context): seq<Step> {
    if ctx.levelShrink.None? then []
    else
      var (ic, tEff) := ctx.levelShrink.value;
      [IcUncertainty(ic, tEff, LevelShrinkFactor(ic, tEff))]
  }

  function Shrunk(alphas: seq<real>, ctx: Context): (bs: seq<real>)
    ensures |bs| == |alphas|
  {
    if ctx.levelShrink.None? then alphas
    else Times(alphas, LevelShrinkFactor(ctx.levelShrink.value.0, ctx.levelShrink.value.1))
  }

  /** The vols names are scaled by: one constant under Case 2, their own otherwise. */
  function VolVector(scores: seq<real>, vols: seq<real>, ctx: Context, roots: Roots): (vs: seq<real>)
    requires ProperLimits(ctx) && |scores| == |vols| > 0 && ScaleRootsOk(scores, vols, ctx, roots)
    ensures |vs| == |scores|
    ensures !UsesCase2(scores, ctx) ==> vs == vols
    ensures UsesCase2(scores, ctx) ==> forall i :: 0 <= i < |vs| ==> vs[i] == vs[0]
  {
    if UsesCase2(scores, ctx) then Constant(Scale(scores, vols, ctx, roots), |scores|) else vols
  }

  /** Step 4: scale, then shrink the level once. */
  function Forecast(z: seq<real>, vs: seq<real>, ctx: Context): (alphas: seq<real>)
    requires |z| == |vs|
    ensures |alphas| == |z|
  {
    Shrunk(ScaleToAlpha(z, vs, ctx.ic), ctx)
  }

  /** The audit trail of step 4. */
  function Chain(case2: bool, scale: real, ctx: Context): seq<Step> {
    [if case2 then Case2(scale, ctx.ic * scale) else Case1(ctx.ic)] + ShrinkSteps(ctx)
  }

  ghost predicate RootsOk(scores: seq<real>, vols: seq<real>, ctx: Context, roots: Roots, residual: Option<seq<real>>)
    requires ProperLimits(ctx) && |scores| == |vols| > 0
    requires residual.Some? ==> |residual.value| == |scores|
  {
    && ScoreRootOk(scores, ctx, roots.score) && ScaleRootsOk(scores, vols, ctx, roots)
    && (!Thin(scores, ctx) ==> IsStd(roots.cap, Forecast(Standardized(scores, ctx, roots.score, residual), VolVector(scores, vols, ctx, roots), ctx)))
  }

  function Refine(scores: seq<real>, vols: seq<real>, ctx: Context, roots: Roots, residual: Option<seq<real>>): (r: Refined)
    requires ProperLimits(ctx) && |scores| == |vols| > 0
    requires residual.Some? ==> |residual.value| == |scores|
    requires RootsOk(scores, vols, ctx, roots, residual)
    ensures |r.z| == |r.uncapped| == |r.alpha| == |scores|
  {
    var z := Standardized(scores, ctx, roots.score, residual);
    var vs := VolVector(scores, vols, ctx, roots);
    var alpha := Forecast(z, vs, ctx);
    Refined(z, alpha, if Thin(scores, ctx) then alpha else Cap(alpha, ctx.capStd, roots.cap),
            Chain(UsesCase2(scores, ctx), vs[0], ctx), Thin(scores, ctx))
  }

  // ------------------------------------------------------------------------
  // What the pipeline promises
  // ------------------------------------------------------------------------

  function ShrinkFactor(ctx: Context): (f: real)
    ensures f >= 0.0
  {
    if ctx.levelShrink.None? then 1.0 else LevelShrinkFactor(ctx.levelShrink.value.0, ctx.levelShrink.value.1)
  }

  lemma ChainProduct(first: Step, ctx: Context)
    ensures Product([first] + ShrinkSteps(ctx)) == first.multiplier * ShrinkFactor(ctx)
  {
    assert Product([first]) == first.multiplier by { assert [first][..0] == []; }
    if ctx.levelShrink.Some? {
      assert ([first] + ShrinkSteps(ctx))[..1] == [first];
    } else {
      assert [first] + ShrinkSteps(ctx) == [first];
    }
  }

  /** One name's forecast: vol times IC times score, shrunk. */
  function Scaled(vol: real, ic: real, z: real, f: real): real {
    (vol * ic * z) * f
  }

  lemma ForecastAt(z: seq<real>, vs: seq<real>, ctx: Context, i: nat)
    requires |z| == |vs| && i < |z|
    ensures Forecast(z, vs, ctx)[i] == Scaled(vs[i], ctx.ic, z[i], ShrinkFactor(ctx))
  {
  }

  /** What the chain says a forecast is: its score times the multipliers, and under Case 1 its own vol. */
  function ViaChain(case2: bool, vol: real, z: real, chain: seq<Step>): real {
    if case2 then z * Product(chain) else vol * z * Product(chain)
  }

  lemma ChainExplainsForecast(z: seq<real>, vs: seq<real>, ctx: Context, case2: bool, i: nat)
    requires |z| == |vs| && i < |z|
    ensures Forecast(z, vs, ctx)[i] == ViaChain(case2, vs[i], z[i], Chain(case2, vs[i], ctx))
  {
    ForecastAt(z, vs, ctx, i);
    ChainProduct(if case2 then Case2(vs[i], ctx.ic * vs[i]) else Case1(ctx.ic), ctx);
    Reassociate(case2, vs[i], ctx.ic, z[i], ShrinkFactor(ctx), Chain(case2, vs[i], ctx));
  }

  lemma Reassociate(case2: bool, vol: real, ic: real, z: real, f: real, chain: seq<Step>)
    requires Product(chain) == (if case2 then ic * vol else ic) * f
    ensures Scaled(vol, ic, z, f) == ViaChain(case2, vol, z, chain)
  {
    var p := Product(chain);
    if case2 {
      assert vol * ic * z == z * (ic * vol);
      assert z * p == z * ((ic * vol) * f);
    } else {
      assert vol * ic * z == (vol * z) * ic;
      assert (vol * z) * p == (vol * z) * (ic * f);
    }
  }

  /**
    The audit trail is complete: under Case 2 every forecast before the cap is its
    standardized score times the chain's multipliers, and under Case 1 times its own vol too.
  */
  lemma ChainExplainsAlpha(scores: seq<real>, vols: seq<real>, ctx: Context, roots: Roots, residual: Option<seq<real>>, i: nat)
    requires ProperLimits(ctx) && |scores| == |vols| > 0 && i < |scores|
    requires residual.Some? ==> |residual.value| == |scores|
    requires RootsOk(scores, vols, ctx, roots, residual)
    ensures var r := Refine(scores, vols, ctx, roots, residual);
      r.uncapped[i] == ViaChain(UsesCase2(scores, ctx), vols[i], r.z[i], r.chain)
  {
    var r, vs, case2 := Refine(scores, vols, ctx, roots, residual), VolVector(scores, vols, ctx, roots), UsesCase2(scores, ctx);
    assert Chain(case2, vs[0], ctx) == Chain(case2, vs[i], ctx);
    ChainExplainsForecast(r.z, vs, ctx, case2, i);
  }

  lemma StandardizedKeepsOrder(scores: seq<real>, ctx: Context, root: real, i: nat, j: nat)
    requires ProperLimits(ctx) && ScoreRootOk(scores, ctx, root) && i < |scores| && j < |scores|
    requires !Thin(scores, ctx) && scores[i] <= scores[j]
    ensures Standardized(scores, ctx, root, None)[i] <= Standardized(scores, ctx, root, None)[j]
  {
    var w := Winsorize(scores, ctx.lower, ctx.upper);
    ClipKeepsOrder(scores[i], scores[j], Quantile(scores, ctx.lower), Quantile(scores, ctx.upper));
    assert Demean(w)[i] <= Demean(w)[j];
    if root != 0.0 { DivideOrder(Demean(w)[i], Demean(w)[j], root); }
  }

  lemma ScaleIsNonNegative(scores: seq<real>, vols: seq<real>, ctx: Context, roots: Roots)
    requires ProperLimits(ctx) && |scores| == |vols| > 0 && UsesCase2(scores, ctx) && ScaleRootsOk(scores, vols, ctx, roots)
    requires forall k :: 0 <= k < |vols| ==> vols[k] >= 0.0
    ensures Scale(scores, vols, ctx, roots) >= 0.0
  {
    SumNonNegative(vols, |vols|);
    DivideOrder(0.0, Sum(vols), |vols| as real);
  }

  lemma MultiplierKeepsOrder(c: real, d: real, ic: real, x: real, y: real, f: real)
    requires c == d && c >= 0.0 && ic >= 0.0 && f >= 0.0 && x <= y
    ensures Scaled(c, ic, x, f) <= Scaled(d, ic, y, f)
  {
    ProductSign(c, ic);
    ProductOrder(c * ic, x, y);
    ProductOrder(f, c * ic * x, c * ic * y);
  }

  lemma ForecastKeepsOrder(z: seq<real>, vs: seq<real>, ctx: Context, i: nat, j: nat)
    requires |z| == |vs| && i < |z| && j < |z|
    requires ctx.ic >= 0.0 && vs[i] == vs[j] >= 0.0 && z[i] <= z[j]
    ensures Forecast(z, vs, ctx)[i] <= Forecast(z, vs, ctx)[j]
  {
    ForecastAt(z, vs, ctx, i);
    ForecastAt(z, vs, ctx, j);
    MultiplierKeepsOrder(vs[i], vs[j], ctx.ic, z[i], z[j], ShrinkFactor(ctx));
  }

  /**
    Conviction is preserved end to end: on a full universe with Case 2 scaling and no
    neutralization, a name scored no higher is never forecast higher.
  */
  lemma RefinementKeepsOrder(scores: seq<real>, vols: seq<real>, ctx: Context, roots: Roots, i: nat, j: nat)
    requires ProperLimits(ctx) && |scores| == |vols| > 0 && i < |scores| && j < |scores|
    requires RootsOk(scores, vols, ctx, roots, None)
    requires UsesCase2(scores, ctx) && ctx.ic >= 0.0 && forall k :: 0 <= k < |vols| ==> vols[k] >= 0.0
    requires scores[i] <= scores[j]
    ensures var r := Refine(scores, vols, ctx, roots, None); r.alpha[i] <= r.alpha[j]
  {
    StandardizedKeepsOrder(scores, ctx, roots.score, i, j);
    ScaleIsNonNegative(scores, vols, ctx, roots);
    ForecastKeepsOrder(Standardized(scores, ctx, roots.score, None), VolVector(scores, vols, ctx, roots), ctx, i, j);
    CapKeepsOrder(Refine(scores, vols, ctx, roots, None).uncapped, ctx.capStd, roots.cap, i, j);
  }

  /** Per-name vols do not keep the order: a thin universe scored 0, 1, 5 reverses its first two. */
  lemma PerNameVolsReorder(ctx: Context, roots: Roots)
    requires ProperLimits(ctx) && ctx.minUniverse > 3 && ctx.levelShrink.None? && ctx.ic > 0.0
    ensures RootsOk([0.0, 1.0, 5.0], [1.0, 5.0, 1.0], ctx, roots, None)
    ensures var r := Refine([0.0, 1.0, 5.0], [1.0, 5.0, 1.0], ctx, roots, None); r.alpha[0] > r.alpha[1]
  {
    var scores := [0.0, 1.0, 5.0];
    assert SumTo(scores, 1) == 0.0 && SumTo(scores, 2) == 1.0 && Sum(scores) == 6.0;
    assert Demean(scores)[0] == -2.0 && Demean(scores)[1] == -1.0;
  }

  // ------------------------------------------------------------------------
  // One name's forecast, in the terms of the panel
  // ------------------------------------------------------------------------

  /** The share of a forecast that survives the uncertainty of its IC. */
  ghost predicate IsKept(f: real, ctx: Context) {
    match ctx.levelShrink
    case None => f == 1.0
    case Some((ic, tEff)) => var g := tEff * ic * ic; if g > 0.0 then f * (1.0 + 1.0 / g) == 1.0 else f == 0.0
  }

  /** The constant the names are scaled by: the ratio of the two dispersions, or the mean vol where there is none. */
  ghost predicate IsScale(c: real, scores: seq<real>, vols: seq<real>, ctx: Context, roots: Roots)
    requires ProperLimits(ctx) && |scores| == |vols| > 0
  {
    if |scores| >= 2 && Ratios(Winsorize(scores, ctx.lower, ctx.upper), vols) != [] && roots.den != 0.0
    then IsRatio(c, roots.num, roots.den) else IsMean(c, vols)
  }

  ghost predicate IsMean(m: real, xs: seq<real>) {
    m * |xs| as real == Sum(xs)
  }

  lemma MeanIsMean(xs: seq<real>)
    requires xs != []
    ensures IsMean(Mean(xs), xs)
  {
  }

  lemma ScaleIs(scores: seq<real>, vols: seq<real>, ctx: Context, roots: Roots)
    requires ProperLimits(ctx) && |scores| == |vols| > 0 && UsesCase2(scores, ctx) && ScaleRootsOk(scores, vols, ctx, roots)
    ensures IsScale(Scale(scores, vols, ctx, roots), scores, vols, ctx, roots)
  {
    MeanIsMean(vols);
  }

  /** What a score is turned into before it is scaled. */
  lemma StandardizedMeans(scores: seq<real>, ctx: Context, root: real, residual: Option<seq<real>>, i: nat)
    requires ProperLimits(ctx) && ScoreRootOk(scores, ctx, root) && i < |scores|
    requires residual.Some? ==> |residual.value| == |scores|
    ensures var z := Standardized(scores, ctx, root, residual)[i];
      if |scores| < ctx.minUniverse then z == scores[i] - Sum(scores) / |scores| as real
      else if residual.Some? then z == residual.value[i]
      else if root == 0.0 then z == 0.0
      else var w := Winsorize(scores, ctx.lower, ctx.upper); z * root == w[i] - Sum(w) / |w| as real
  {
    if |scores| >= ctx.minUniverse && residual.None? && root != 0.0 {
      var w := Winsorize(scores, ctx.lower, ctx.upper);
      assert (Demean(w)[i] / root) * root == Demean(w)[i];
    }
  }

  /** What one name is scaled by: its own vol, or on a full universe under Case 2 the one constant. */
  ghost predicate IsSigma(sigma: real, scores: seq<real>, vols: seq<real>, ctx: Context, roots: Roots, i: nat)
    requires ProperLimits(ctx) && |scores| == |vols| > 0 && i < |scores|
  {
    if ctx.case2 && |scores| >= ctx.minUniverse then IsScale(sigma, scores, vols, ctx, roots) else sigma == vols[i]
  }

  lemma VolIsSigma(scores: seq<real>, vols: seq<real>, ctx: Context, roots: Roots, i: nat)
    requires ProperLimits(ctx) && |scores| == |vols| > 0 && ScaleRootsOk(scores, vols, ctx, roots) && i < |scores|
    ensures IsSigma(VolVector(scores, vols, ctx, roots)[i], scores, vols, ctx, roots, i)
  {
    if UsesCase2(scores, ctx) {
      ScaleIs(scores, vols, ctx, roots);
      assert VolVector(scores, vols, ctx, roots)[i] == Scale(scores, vols, ctx, roots);
    }
  }

  /** The trail: how names were scaled, and what was kept where the IC is uncertain. */
  ghost predicate IsTrail(chain: seq<Step>, single: bool, sigma: real, f: real, ctx: Context) {
    && |chain| == (if ctx.levelShrink.None? then 1 else 2)
    && chain[0] == (if single then Case2(sigma, ctx.ic * sigma) else Case1(ctx.ic))
    && (ctx.levelShrink.Some? ==> chain[1] == IcUncertainty(ctx.levelShrink.value.0, ctx.levelShrink.value.1, f))
  }

  lemma ChainIsTrail(case2: bool, sigma: real, ctx: Context)
    ensures IsTrail(Chain(case2, sigma, ctx), case2, sigma, ShrinkFactor(ctx), ctx) && IsKept(ShrinkFactor(ctx), ctx)
  {
  }

  lemma RefinedParts(scores: seq<real>, vols: seq<real>, ctx: Context, roots: Roots, residual: Option<seq<real>>, i: nat)
    requires ProperLimits(ctx) && |scores| == |vols| > 0 && i < |scores|
    requires residual.Some? ==> |residual.value| == |scores|
    requires RootsOk(scores, vols, ctx, roots, residual)
    ensures var r, vs := Refine(scores, vols, ctx, roots, residual), VolVector(scores, vols, ctx, roots);
      && (r.thin <==> |scores| < ctx.minUniverse) && r.z == Standardized(scores, ctx, roots.score, residual)
      && r.uncapped == Forecast(r.z, vs, ctx)
      && r.chain == Chain(ctx.case2 && |scores| >= ctx.minUniverse, vs[i], ctx)
  {
  }

  /**
    A forecast before the cap: the name's vol, or the one constant, times the IC times what
    its score was turned into, times the share kept; and the audit trail says exactly that.
  */
  lemma ForecastMeans(scores: seq<real>, vols: seq<real>, ctx: Context, roots: Roots, residual: Option<seq<real>>, i: nat) returns (sigma: real, f: real)
    requires ProperLimits(ctx) && |scores| == |vols| > 0 && i < |scores|
    requires residual.Some? ==> |residual.value| == |scores|
    requires RootsOk(scores, vols, ctx, roots, residual)
    ensures IsSigma(sigma, scores, vols, ctx, roots, i) && IsKept(f, ctx)
    ensures var r := Refine(scores, vols, ctx, roots, residual);
      && (r.thin <==> |scores| < ctx.minUniverse) && r.z == Standardized(scores, ctx, roots.score, residual)
      && r.uncapped[i] == Scaled(sigma, ctx.ic, r.z[i], f)
      && IsTrail(r.chain, ctx.case2 && |scores| >= ctx.minUniverse, sigma, f, ctx)
  {
    var vs := VolVector(scores, vols, ctx, roots);
    sigma, f := vs[i], ShrinkFactor(ctx);
    VolIsSigma(scores, vols, ctx, roots, i);
    RefinedParts(scores, vols, ctx, roots, residual, i);
    ChainIsTrail(ctx.case2 && |scores| >= ctx.minUniverse, sigma, ctx);
    ForecastAt(Standardized(scores, ctx, roots.score, residual), vs, ctx, i);
  }

  lemma RefinedIsCapped(scores: seq<real>, vols: seq<real>, ctx: Context, roots: Roots, residual: Option<seq<real>>)
    requires ProperLimits(ctx) && |scores| == |vols| > 0
    requires residual.Some? ==> |residual.value| == |scores|
    requires RootsOk(scores, vols, ctx, roots, residual) && !Thin(scores, ctx)
    ensures var r := Refine(scores, vols, ctx, roots, residual);
      IsStd(roots.cap, r.uncapped) && r.alpha == Cap(r.uncapped, ctx.capStd, roots.cap)
  {
  }

  /** After it: pulled in to so many standard deviations on a full universe that varies, and as it was otherwise. */
  lemma AlphaMeans(scores: seq<real>, vols: seq<real>, ctx: Context, roots: Roots, residual: Option<seq<real>>, i: nat, m: real)
    requires ProperLimits(ctx) && |scores| == |vols| > 0 && i < |scores| && ctx.capStd >= 0.0
    requires residual.Some? ==> |residual.value| == |scores|
    requires RootsOk(scores, vols, ctx, roots, residual) && m == ctx.capStd * roots.cap
    ensures var r := Refine(scores, vols, ctx, roots, residual);
      r.alpha[i] ==
        if |scores| < ctx.minUniverse || roots.cap == 0.0 then r.uncapped[i]
        else if r.uncapped[i] > m then m
        else if r.uncapped[i] < -m then -m
        else r.uncapped[i]
  {
    if |scores| >= ctx.minUniverse {
      RefinedIsCapped(scores, vols, ctx, roots, residual);
      PulledIn(Refine(scores, vols, ctx, roots, residual).uncapped, ctx.capStd, roots.cap, i, m);
    }
  }

  lemma PulledIn(uncapped: seq<real>, nStd: real, std: real, i: nat, m: real)
    requires IsStd(std, uncapped) && nStd >= 0.0 && i < |uncapped| && m == nStd * std
    ensures Cap(uncapped, nStd, std)[i] ==
      if std == 0.0 then uncapped[i] else if uncapped[i] > m then m else if uncapped[i] < -m then -m else uncapped[i]
  {
    CapMeans(uncapped, nStd, std, i);
  }
}
