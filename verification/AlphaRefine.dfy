/**
  The cross-sectional steps that turn raw scores into forecasts: winsorize, standardize,
  scale, shrink, cap. A standard deviation comes in as a witness for the square root.
*/
module AlphaRefine {
  import opened Options
  import opened Seqs
  import opened Sums

  // ------------------------------------------------------------------------
  // Clipping and quantiles
  // ------------------------------------------------------------------------

  function Min(x: real, y: real): real { if x < y then x else y }
  function Max(x: real, y: real): real { if x < y then y else x }

  /** Scalar clip; reversed limits are put the right way round. */
  function Clip(x: real, a: real, b: real): real {
    Min(Max(x, Min(a, b)), Max(a, b))
  }

  lemma ClipKeepsOrder(x: real, y: real, a: real, b: real)
    requires x <= y
    ensures Clip(x, a, b) <= Clip(y, a, b)
    ensures Min(a, b) <= Clip(x, a, b) <= Max(a, b)
    ensures Min(a, b) <= x <= Max(a, b) ==> Clip(x, a, b) == x
  {
  }

  function Ascending(): (real, real) -> bool {
    (x: real, y: real) => x <= y
  }

  /** The value at a fractional position of a sorted sample, by linear interpolation. */
  function AtPosition(s: seq<real>, pos: real): real
    requires s != [] && 0.0 <= pos <= (|s| - 1) as real
  {
    var i := pos.Floor;
    if i == |s| - 1 then s[i] else s[i] + (pos - i as real) * (s[i + 1] - s[i])
  }

  function Position(n: nat, q: real): (pos: real)
    requires n > 0 && 0.0 <= q <= 1.0
    ensures 0.0 <= pos <= (n - 1) as real
  {
    QuantilePositionBounds(q, (n - 1) as real);
    q * (n - 1) as real
  }

  lemma QuantilePositionBounds(q: real, n: real)
    requires 0.0 <= q <= 1.0 && n >= 0.0
    ensures 0.0 <= q * n <= n
  {
    assert (1.0 - q) * n >= 0.0;
  }

  function Quantile(xs: seq<real>, q: real): real
    requires xs != [] && 0.0 <= q <= 1.0
  {
    var s := Sorted(xs, Ascending());
    SortedSorts(xs, Ascending());
    AtPosition(s, Position(|s|, q))
  }

  lemma BetweenNeighbours(a: real, b: real, f: real)
    requires a <= b && 0.0 <= f <= 1.0
    ensures a <= a + f * (b - a) <= b
  {
    ProductSign(f, b - a);
    ProductSign(1.0 - f, b - a);
  }

  lemma FactorOrder(d: real, f: real, g: real)
    requires d >= 0.0 && f <= g
    ensures f * d <= g * d
  {
    ProductOrder(d, f, g);
  }

  lemma FurtherBetween(a: real, b: real, f: real, g: real)
    requires a <= b && f <= g
    ensures a + f * (b - a) <= a + g * (b - a)
  {
    FactorOrder(b - a, f, g);
  }

  lemma RanksInOrder(s: seq<real>, a: nat, b: nat)
    requires SortedBy(s, Ascending()) && a <= b < |s|
    ensures s[a] <= s[b]
  {
    if a < b { assert Ascending()(s[a], s[b]); }
  }

  /** A position's value lies between those of the ranks around it. */
  lemma AtBounds(s: seq<real>, p: real)
    requires s != [] && SortedBy(s, Ascending()) && 0.0 <= p <= (|s| - 1) as real
    ensures s[p.Floor] <= AtPosition(s, p) && (p.Floor < |s| - 1 ==> AtPosition(s, p) <= s[p.Floor + 1])
  {
    var i := p.Floor;
    if i < |s| - 1 {
      RanksInOrder(s, i, i + 1);
      BetweenNeighbours(s[i], s[i + 1], p - i as real);
    }
  }

  lemma PositionKeepsOrder(s: seq<real>, p: real, q: real)
    requires s != [] && SortedBy(s, Ascending()) && 0.0 <= p <= q <= (|s| - 1) as real
    ensures AtPosition(s, p) <= AtPosition(s, q)
  {
    var i, j := p.Floor, q.Floor;
    if i < j {
      AtBounds(s, p);
      AtBounds(s, q);
      RanksInOrder(s, i + 1, j);
    } else if i < |s| - 1 {
      RanksInOrder(s, i, i + 1);
      FurtherBetween(s[i], s[i + 1], p - i as real, q - i as real);
    }
  }

  lemma PositionsInOrder(n: nat, p: real, q: real)
    requires n > 0 && 0.0 <= p <= q <= 1.0
    ensures Position(n, p) <= Position(n, q)
  {
    var m := (n - 1) as real;
    ProductSign(q - p, m);
    assert (q - p) * m == q * m - p * m;
  }

  /** A higher quantile is no lower, so winsorize limits in order clip in order. */
  lemma QuantileKeepsOrder(xs: seq<real>, p: real, q: real)
    requires xs != [] && 0.0 <= p <= q <= 1.0
    ensures Quantile(xs, p) <= Quantile(xs, q)
  {
    var s := Sorted(xs, Ascending());
    SortedSorts(xs, Ascending());
    PositionsInOrder(|s|, p, q);
    PositionKeepsOrder(s, Position(|s|, p), Position(|s|, q));
  }

  /** `s` is the sample `xs` in ascending order. */
  ghost predicate Orders(s: seq<real>, xs: seq<real>) {
    multiset(s) == multiset(xs) && forall i, j :: 0 <= i < j < |s| ==> s[i] <= s[j]
  }

  lemma OrdersIsSorted(s: seq<real>, xs: seq<real>)
    requires Orders(s, xs)
    ensures s == Sorted(xs, Ascending()) && |s| == |xs|
  {
    SortedSorts(xs, Ascending());
    assert SortedBy(s, Ascending());
    SortedIsUnique(s, Sorted(xs, Ascending()), Ascending());
  }

  /** Two values, the second with weight `f`. */
  function Mixed(a: real, b: real, f: real): real {
    (1.0 - f) * a + f * b
  }

  lemma MixedIsBetween(a: real, b: real, f: real)
    ensures Mixed(a, b, f) == a + f * (b - a)
    ensures Mixed(a, b, 1.0) == b
  {
  }

  lemma AtBetween(s: seq<real>, k: nat, pos: real)
    requires k + 1 < |s| && k as real <= pos <= (k + 1) as real
    ensures AtPosition(s, pos) == Mixed(s[k], s[k + 1], pos - k as real)
  {
    MixedIsBetween(s[k], s[k + 1], pos - k as real);
    if pos < (k + 1) as real {
      assert pos.Floor == k;
    } else {
      AtWholePosition(s, k + 1);
    }
  }

  /** Between two ranks the quantile mixes their values, each weighted by how near the position is to it. */
  lemma QuantileMixes(xs: seq<real>, s: seq<real>, k: nat, q: real)
    requires Orders(s, xs) && k + 1 < |xs| && 0.0 <= q <= 1.0
    requires k as real <= q * (|xs| - 1) as real <= (k + 1) as real
    ensures |s| == |xs| && Quantile(xs, q) == Mixed(s[k], s[k + 1], q * (|xs| - 1) as real - k as real)
  {
    OrdersIsSorted(s, xs);
    AtBetween(s, k, Position(|xs|, q));
  }

  /** At a rank the quantile is the value of that rank: no interpolation, the ends included. */
  lemma QuantileAtRank(xs: seq<real>, s: seq<real>, k: nat, q: real)
    requires Orders(s, xs) && k < |xs| && 0.0 <= q <= 1.0 && q * (|xs| - 1) as real == k as real
    ensures |s| == |xs| && Quantile(xs, q) == s[k]
  {
    OrdersIsSorted(s, xs);
    AtWholePosition(s, k);
  }

  lemma AtWholePosition(s: seq<real>, k: nat)
    requires k < |s|
    ensures AtPosition(s, k as real) == s[k]
  {
    assert (k as real).Floor == k;
  }

  function Winsorize(xs: seq<real>, lower: real, upper: real): (ys: seq<real>)
    requires 0.0 <= lower <= 1.0 && 0.0 <= upper <= 1.0
    ensures |ys| == |xs|
  {
    if xs == [] then xs else
      var lo, hi := Quantile(xs, lower), Quantile(xs, upper);
      seq(|xs|, i requires 0 <= i < |xs| => Clip(xs[i], lo, hi))
  }

  /** Outliers are pulled in to the quantiles, limits given backwards taken the right way round, and nothing else moves. */
  lemma WinsorizeMeans(xs: seq<real>, lower: real, upper: real, i: nat)
    requires 0.0 <= lower <= 1.0 && 0.0 <= upper <= 1.0 && i < |xs|
    ensures var lo, hi := Quantile(xs, if lower <= upper then lower else upper), Quantile(xs, if lower <= upper then upper else lower);
      Winsorize(xs, lower, upper)[i] == (if xs[i] < lo then lo else if xs[i] > hi then hi else xs[i]) && lo <= hi
  {
    if lower <= upper { QuantileKeepsOrder(xs, lower, upper); } else { QuantileKeepsOrder(xs, upper, lower); }
  }

  // ------------------------------------------------------------------------
  // Standardization
  // ------------------------------------------------------------------------

  function Variance(xs: seq<real>): real
    requires xs != []
  {
    Dot(Demean(xs), Demean(xs)) / |xs| as real
  }

  /** `std(ddof=0)` of a non-empty sample. */
  predicate IsStd(std: real, xs: seq<real>) {
    xs != [] && std >= 0.0 && std * std == Variance(xs)
  }

  function Zscore(xs: seq<real>, std: real): (zs: seq<real>)
    requires xs != [] ==> IsStd(std, xs)
    ensures |zs| == |xs|
  {
    if xs == [] then xs
    else if std == 0.0 then seq(|xs|, i requires 0 <= i < |xs| => 0.0)
    else seq(|xs|, i requires 0 <= i < |xs| => Demean(xs)[i] / std)
  }

  lemma DemeanSumsToZero(xs: seq<real>)
    ensures Sum(Demean(xs)) == 0.0
  {
    if xs != [] {
      var ones := seq(|xs|, i => 1.0);
      var m := Mean(xs);
      SumAdds(xs, ones, Demean(xs), -m);
      SumOfConstant(ones, 1.0, |ones|);
      assert m * |xs| as real == Sum(xs);
    }
  }

  lemma {:induction false} DotOfScaled(us: seq<real>, vs: seq<real>, t: real, n: nat)
    requires n <= |us| == |vs|
    requires forall i :: 0 <= i < |us| ==> vs[i] == t * us[i]
    ensures DotTo(vs, vs, n) == t * t * DotTo(us, us, n)
  {
    if n > 0 {
      DotOfScaled(us, vs, t, n - 1);
      var u := us[n - 1];
      assert (t * u) * (t * u) == t * t * (u * u);
      Distribute(t * t, DotTo(us, us, n - 1), u * u);
    }
  }

  lemma Inverse(x: real)
    requires x != 0.0
    ensures 1.0 / x != 0.0 && (1.0 / x) * x == 1.0
  {
  }

  lemma ZscoreIsScaled(xs: seq<real>, std: real, i: nat)
    requires IsStd(std, xs) && std != 0.0 && i < |xs|
    ensures Zscore(xs, std)[i] == (1.0 / std) * Demean(xs)[i]
  {
  }

  lemma ZscoresScale(xs: seq<real>, std: real)
    requires IsStd(std, xs) && std != 0.0
    ensures forall i :: 0 <= i < |xs| ==> Zscore(xs, std)[i] == (1.0 / std) * Demean(xs)[i]
  {
    forall i | 0 <= i < |xs| ensures Zscore(xs, std)[i] == (1.0 / std) * Demean(xs)[i] { ZscoreIsScaled(xs, std, i); }
  }

  lemma ScaledIsStandard(d: seq<real>, z: seq<real>, std: real)
    requires d != [] && |d| == |z| && Sum(d) == 0.0 && std != 0.0 && std * std == Dot(d, d) / |d| as real
    requires forall i :: 0 <= i < |d| ==> z[i] == (1.0 / std) * d[i]
    ensures Sum(z) == 0.0 && Dot(z, z) == |d| as real
  {
    var t := 1.0 / std;
    SumScalesTo(d, z, t, |z|);
    DotOfScaled(d, z, t, |z|);
    UnitDispersion(Dot(d, d), |d| as real, std, t);
  }

  /** The output has mean zero, and unit dispersion unless every score is the same. */
  lemma ZscoreIsStandard(xs: seq<real>, std: real)
    requires IsStd(std, xs)
    ensures Sum(Zscore(xs, std)) == 0.0
    ensures std != 0.0 ==> Dot(Zscore(xs, std), Zscore(xs, std)) == |xs| as real
    ensures std == 0.0 ==> forall i :: 0 <= i < |xs| ==> Zscore(xs, std)[i] == 0.0
  {
    if std == 0.0 {
      ZeroSum(Zscore(xs, std), |xs|);
    } else {
      DemeanSumsToZero(xs);
      ZscoresScale(xs, std);
      ScaledIsStandard(Demean(xs), Zscore(xs, std), std);
    }
  }

  lemma UnitDispersion(dot: real, n: real, std: real, t: real)
    requires n > 0.0 && std != 0.0 && t == 1.0 / std && std * std == dot / n
    ensures t * t * dot == n
  {
    Inverse(std);
    assert dot == (std * std) * n;
    assert t * t * ((std * std) * n) == (t * std) * (t * std) * n;
  }

  lemma DivideOrder(x: real, y: real, d: real)
    requires d > 0.0 && x <= y
    ensures x / d <= y / d
  {
    var p, q := x / d, y / d;
    assert p * d == x && q * d == y;
    assert p > q ==> p * d > q * d;
  }

  // ------------------------------------------------------------------------
  // Scaling, shrinking, capping
  // ------------------------------------------------------------------------

  function ScaleToAlpha(zs: seq<real>, vols: seq<real>, ic: real): (alphas: seq<real>)
    requires |zs| == |vols|
    ensures |alphas| == |zs|
  {
    seq(|zs|, i requires 0 <= i < |zs| => vols[i] * ic * zs[i])
  }

  /** `g / vol` where the vol is positive; the rest drop out. */
  function Ratios(gs: seq<real>, vols: seq<real>): (rs: seq<real>)
    requires |gs| == |vols|
  {
    if gs == [] then [] else
      var n := |gs| - 1;
      Ratios(gs[..n], vols[..n]) + (if vols[n] > 0.0 then [gs[n] / vols[n]] else [])
  }

  /** The names of positive vol among the first `i`. */
  ghost function PricedBefore(vols: seq<real>, i: nat): set<nat>
    requires i <= |vols|
  {
    set j: nat | j < i && vols[j] > 0.0
  }

  lemma PricedNext(vols: seq<real>, n: nat)
    requires n < |vols|
    ensures |PricedBefore(vols, n + 1)| == |PricedBefore(vols, n)| + if vols[n] > 0.0 then 1 else 0
  {
    assert PricedBefore(vols, n + 1) == PricedBefore(vols, n) + (if vols[n] > 0.0 then {n} else {});
  }

  lemma PricedInPrefix(vols: seq<real>, n: nat, i: nat)
    requires i <= n <= |vols|
    ensures PricedBefore(vols[..n], i) == PricedBefore(vols, i)
  {
  }

  lemma UndoRatio(g: real, vol: real)
    requires vol > 0.0
    ensures (g / vol) * vol == g
  {
  }

  /** One ratio for each name of positive vol. */
  lemma {:induction false} RatiosCount(gs: seq<real>, vols: seq<real>)
    requires |gs| == |vols|
    ensures |Ratios(gs, vols)| == |PricedBefore(vols, |vols|)|
  {
    if gs == [] {
      assert PricedBefore(vols, 0) == {};
    } else {
      var n := |gs| - 1;
      RatiosCount(gs[..n], vols[..n]);
      PricedInPrefix(vols, n, n);
      PricedNext(vols, n);
    }
  }

  /** In order, each so many vols of its name as make the score. */
  lemma {:induction false} RatioAt(gs: seq<real>, vols: seq<real>, i: nat)
    requires |gs| == |vols| && i < |gs| && vols[i] > 0.0
    ensures |PricedBefore(vols, i)| < |Ratios(gs, vols)| && Ratios(gs, vols)[|PricedBefore(vols, i)|] * vols[i] == gs[i]
  {
    var n := |gs| - 1;
    PricedInPrefix(vols, n, i);
    if i < n {
      RatioAt(gs[..n], vols[..n], i);
    } else {
      RatiosCount(gs[..n], vols[..n]);
      UndoRatio(gs[n], vols[n]);
    }
  }

  /** `c` units of `den` are `num`. */
  predicate IsRatio(c: real, num: real, den: real) {
    c * den == num
  }

  lemma QuotientIsRatio(num: real, den: real)
    requires num >= 0.0 && den > 0.0
    ensures num / den >= 0.0 && IsRatio(num / den, num, den)
  {
    DivideOrder(0.0, num, den);
  }

  /** The Case 2 constant, `None` for the NaN of a ratio that cannot be formed. */
  function CaseScaleFactor(scores: seq<real>, vols: seq<real>, lower: real, upper: real, num: real, den: real): (c: Option<real>)
    requires |scores| == |vols| && 0.0 <= lower <= 1.0 && 0.0 <= upper <= 1.0
    requires scores != [] ==> IsStd(num, Winsorize(scores, lower, upper))
    requires var rs := Ratios(Winsorize(scores, lower, upper), vols); rs != [] ==> IsStd(den, rs)
    ensures c.Some? <==> |scores| >= 2 && Ratios(Winsorize(scores, lower, upper), vols) != [] && den != 0.0
    ensures c.Some? ==> c.value >= 0.0 && IsRatio(c.value, num, den)
  {
    if |scores| < 2 then None
    else if Ratios(Winsorize(scores, lower, upper), vols) == [] || den == 0.0 then None
    else
      QuotientIsRatio(num, den);
      Some(num / den)
  }

  /** `1/(1 + 1/(T IC^2))`, zero when the evidence is not positive. */
  function LevelShrinkFactor(ic: real, tEff: real): (f: real)
    ensures 0.0 <= f < 1.0
    ensures var g := tEff * ic * ic; if g > 0.0 then f * (1.0 + 1.0 / g) == 1.0 else f == 0.0
  {
    var g := tEff * ic * ic;
    if g > 0.0 then
      assert (g / (g + 1.0)) * (g + 1.0) == g;
      DivideOrder(0.0, g, g + 1.0);
      ShrinkBelowOne(g);
      ShrinkIsInverse(g);
      g / (g + 1.0)
    else 0.0
  }

  lemma ShrinkIsInverse(g: real)
    requires g > 0.0
    ensures (g / (g + 1.0)) * (1.0 + 1.0 / g) == 1.0
  {
    var f, h := g / (g + 1.0), 1.0 / g;
    assert f * (g + 1.0) == g && h * g == 1.0;
    assert (1.0 + h) * g == g + 1.0;
    assert (f * (1.0 + h)) * g == g;
  }

  lemma ShrinkBelowOne(g: real)
    requires g > 0.0
    ensures g / (g + 1.0) < 1.0
  {
    var f := g / (g + 1.0);
    assert f * (g + 1.0) == g;
    assert f >= 1.0 ==> f * (g + 1.0) >= g + 1.0;
  }

  /** More evidence shrinks less. */
  lemma MoreEvidenceShrinksLess(ic: real, t: real, u: real)
    requires t <= u
    ensures LevelShrinkFactor(ic, t) <= LevelShrinkFactor(ic, u)
  {
    var e := ic * ic;
    assert t * ic * ic == t * e && u * ic * ic == u * e;
    ProductSign(u - t, e);
    assert (u - t) * e == u * e - t * e;
    if t * e > 0.0 { ShrinkOrder(t * e, u * e); }
  }

  lemma ShrinkOrder(g: real, h: real)
    requires 0.0 < g <= h
    ensures g / (g + 1.0) <= h / (h + 1.0)
  {
    var a, b := g / (g + 1.0), h / (h + 1.0);
    assert a * (g + 1.0) == g && b * (h + 1.0) == h;
    var p, q := 1.0 - a, 1.0 - b;
    assert p * (g + 1.0) == 1.0 && q * (h + 1.0) == 1.0;
    ShrinkBelowOne(h);
    ProductOrder(q, g + 1.0, h + 1.0);
    assert p < q ==> p * (g + 1.0) < q * (g + 1.0);
  }

  function Bound(nStd: real, std: real): real { nStd * std }

  function Cap(alphas: seq<real>, nStd: real, std: real): (capped: seq<real>)
    requires alphas != [] ==> IsStd(std, alphas)
    ensures |capped| == |alphas|
  {
    if alphas == [] || std == 0.0 then alphas
    else seq(|alphas|, i requires 0 <= i < |alphas| => Clip(alphas[i], -Bound(nStd, std), Bound(nStd, std)))
  }

  lemma CapKeepsOrder(alphas: seq<real>, nStd: real, std: real, i: nat, j: nat)
    requires IsStd(std, alphas) && i < |alphas| && j < |alphas| && alphas[i] <= alphas[j]
    ensures Cap(alphas, nStd, std)[i] <= Cap(alphas, nStd, std)[j]
  {
    ClipKeepsOrder(alphas[i], alphas[j], -Bound(nStd, std), Bound(nStd, std));
  }

  /**
    A forecast beyond so many standard deviations is pulled in to them, on its own side of
    zero; one within them, and every one where there is no dispersion, is untouched.
  */
  lemma CapMeans(alphas: seq<real>, nStd: real, std: real, i: nat)
    requires IsStd(std, alphas) && nStd >= 0.0 && i < |alphas|
    ensures Cap(alphas, nStd, std)[i] ==
      if std == 0.0 then alphas[i]
      else if alphas[i] > nStd * std then nStd * std
      else if alphas[i] < -(nStd * std) then -(nStd * std)
      else alphas[i]
  {
    ProductSign(nStd, std);
  }

  /** So with any dispersion every forecast ends within them. */
  lemma CapBounds(alphas: seq<real>, nStd: real, std: real, i: nat, m: real)
    requires IsStd(std, alphas) && nStd >= 0.0 && i < |alphas| && m == nStd * std
    ensures std > 0.0 ==> -m <= Cap(alphas, nStd, std)[i] <= m
    ensures std == 0.0 ==> m == 0.0 && Cap(alphas, nStd, std)[i] == alphas[i]
  {
    CapMeans(alphas, nStd, std, i);
    ProductSign(nStd, std);
  }
}
