/** Splitting and cumulating attributed returns over many periods. */
module Cumulation {
  import opened Options
  import opened Sums

  // ------------------------------------------------------------------------
  // Expected, surprise, timing
  // ------------------------------------------------------------------------

  datatype Split = Split(expected: real, surprise: real, timing: real, series: seq<real>, betaBar: real, benchBar: real)

  /** One period's joint move of beta and benchmark around their means. */
  function JointMove(x: real, y: real, a: real, b: real): real {
    (x - a) * (y - b)
  }

  function TimingSeries(beta: seq<real>, bench: seq<real>, a: real, b: real): (ts: seq<real>)
    requires |beta| == |bench|
    ensures |ts| == |beta|
  {
    seq(|beta|, t requires 0 <= t < |beta| => JointMove(beta[t], bench[t], a, b))
  }

  function SystematicSplit(beta: seq<real>, bench: seq<real>, muPeriod: real): Split
    requires |beta| == |bench|
  {
    if beta == [] then Split(0.0, 0.0, 0.0, [], 0.0, 0.0) else
      var t, a, b := |beta| as real, Mean(beta), Mean(bench);
      var series := TimingSeries(beta, bench, a, b);
      Split(a * muPeriod * t, a * (b - muPeriod) * t, Sum(series), series, a, b)
  }

  function CentredTo(beta: seq<real>, bench: seq<real>, a: real, b: real, n: nat): real
    requires n <= |beta| == |bench|
  {
    if n == 0 then 0.0 else CentredTo(beta, bench, a, b, n - 1) + JointMove(beta[n - 1], bench[n - 1], a, b)
  }

  lemma {:induction false} TimingIsCentred(beta: seq<real>, bench: seq<real>, a: real, b: real, n: nat)
    requires n <= |beta| == |bench|
    ensures SumTo(TimingSeries(beta, bench, a, b), n) == CentredTo(beta, bench, a, b, n)
  {
    if n > 0 {
      TimingIsCentred(beta, bench, a, b, n - 1);
      assert TimingSeries(beta, bench, a, b)[n - 1] == JointMove(beta[n - 1], bench[n - 1], a, b);
    }
  }

  /** `t` times each of the first `n` terms, added up. */
  function ScaledTo(t: real, xs: seq<real>, n: nat): real
    requires n <= |xs|
  {
    if n == 0 then 0.0 else ScaledTo(t, xs, n - 1) + t * xs[n - 1]
  }

  lemma {:induction false} ScaledIs(t: real, xs: seq<real>, n: nat)
    requires n <= |xs|
    ensures ScaledTo(t, xs, n) == t * SumTo(xs, n)
  {
    if n > 0 {
      ScaledIs(t, xs, n - 1);
      Distribute(t, SumTo(xs, n - 1), xs[n - 1]);
    }
  }

  function Times(c: real, n: nat): real {
    if n == 0 then 0.0 else Times(c, n - 1) + c
  }

  lemma {:induction false} TimesIs(c: real, n: nat)
    ensures Times(c, n) == n as real * c
  {
    if n > 0 {
      TimesIs(c, n - 1);
      Distribute(c, (n - 1) as real, 1.0);
    }
  }

  lemma {:induction false} CentredTerms(beta: seq<real>, bench: seq<real>, a: real, b: real, n: nat)
    requires n <= |beta| == |bench|
    ensures CentredTo(beta, bench, a, b, n) == DotTo(beta, bench, n) - ScaledTo(b, beta, n) - ScaledTo(a, bench, n) + Times(a * b, n)
  {
    if n > 0 {
      CentredTerms(beta, bench, a, b, n - 1);
      ExpandTerm(beta[n - 1], bench[n - 1], a, b);
    }
  }

  lemma CentredExpands(beta: seq<real>, bench: seq<real>, a: real, b: real, n: nat)
    requires n <= |beta| == |bench|
    ensures CentredTo(beta, bench, a, b, n) == Expanded(DotTo(beta, bench, n), SumTo(beta, n), SumTo(bench, n), n as real, a, b)
  {
    CentredTerms(beta, bench, a, b, n);
    ScaledIs(b, beta, n);
    ScaledIs(a, bench, n);
    TimesIs(a * b, n);
  }

  lemma SplitAlgebra(cross: real, sumX: real, sumY: real, n: real, a: real, b: real, mu: real)
    requires n > 0.0 && a == sumX / n && b == sumY / n
    ensures a * mu * n + a * (b - mu) * n + Expanded(cross, sumX, sumY, n, a, b) == cross
  {
    var ab := a * b;
    assert sumX == n * a && sumY == n * b;
    assert b * sumX == n * ab && a * sumY == n * ab;
    assert a * (b - mu) == ab - a * mu;
    assert a * (b - mu) * n == ab * n - a * mu * n;
  }

  /** The three parts are the whole, whatever return the benchmark was assumed to have. */
  lemma SplitIsExact(beta: seq<real>, bench: seq<real>, muPeriod: real)
    requires |beta| == |bench|
    ensures var s := SystematicSplit(beta, bench, muPeriod); s.expected + s.surprise + s.timing == Dot(beta, bench)
  {
    if beta != [] {
      var s, n, a, b := SystematicSplit(beta, bench, muPeriod), |beta| as real, Mean(beta), Mean(bench);
      var timing := Expanded(Dot(beta, bench), Sum(beta), Sum(bench), n, a, b);
      assert s.timing == timing by {
        TimingIsCentred(beta, bench, a, b, |beta|);
        CentredExpands(beta, bench, a, b, |beta|);
      }
      assert a * muPeriod * n + a * (b - muPeriod) * n + timing == Dot(beta, bench) by {
        SplitAlgebra(Dot(beta, bench), Sum(beta), Sum(bench), n, a, b, muPeriod);
      }
    }
  }

  lemma MeanTimesCount(xs: seq<real>)
    requires xs != []
    ensures Mean(xs) * |xs| as real == Sum(xs)
  {
  }

  lemma ScaledMean(a: real, x: real, n: real, total: real)
    requires a * n == total
    ensures a * x * n == x * total
  {
    assert a * x * n == x * (a * n);
  }

  /**
    What each part is. Expected is what the betas would have earned had the benchmark made
    the assumed return every period; surprise is what they earn from its average beating
    that; timing is what is earned by leaning in when the benchmark does better than its own
    average, period by period.
  */
  lemma SplitParts(beta: seq<real>, bench: seq<real>, muPeriod: real)
    requires |beta| == |bench|
    ensures var s := SystematicSplit(beta, bench, muPeriod);
      && s.betaBar * |beta| as real == Sum(beta) && s.benchBar * |bench| as real == Sum(bench)
      && s.expected == muPeriod * Sum(beta) && s.surprise == (s.benchBar - muPeriod) * Sum(beta)
      && |s.series| == |beta| && s.timing == Sum(s.series)
      && forall t :: 0 <= t < |beta| ==> s.series[t] == (beta[t] - s.betaBar) * (bench[t] - s.benchBar)
  {
    if beta != [] {
      MeanTimesCount(beta);
      MeanTimesCount(bench);
      ScaledMean(Mean(beta), muPeriod, |beta| as real, Sum(beta));
      ScaledMean(Mean(beta), Mean(bench) - muPeriod, |beta| as real, Sum(beta));
    }
  }

  /** A constant beta times nothing, and a benchmark that earned what was assumed surprises nobody. */
  lemma NothingLeftToChance(beta: seq<real>, bench: seq<real>, muPeriod: real)
    requires |beta| == |bench|
    ensures var s := SystematicSplit(beta, bench, muPeriod);
      && ((forall t :: 0 <= t < |beta| ==> beta[t] == s.betaBar) ==> s.timing == 0.0)
      && (s.benchBar == muPeriod ==> s.surprise == 0.0)
  {
    var s := SystematicSplit(beta, bench, muPeriod);
    SplitParts(beta, bench, muPeriod);
    if forall t :: 0 <= t < |beta| ==> beta[t] == s.betaBar { ZeroSum(s.series, |s.series|); }
  }

  // ------------------------------------------------------------------------
  // Chain-linked cumulation
  // ------------------------------------------------------------------------

  type Name = string

  /** Compounded growth over the first `n` periods. */
  function Growth(r: seq<real>, n: nat): real
    requires n <= |r|
  {
    if n == 0 then 1.0 else Growth(r, n - 1) * (1.0 + r[n - 1])
  }

  /** `concatenate([1], cumprod(1 + r))[:-1]`: growth up to, not including, each period. */
  function GrowthPath(r: seq<real>): (g: seq<real>)
    ensures |g| == |r|
  {
    seq(|r|, t requires 0 <= t < |r| => Growth(r, t))
  }

  datatype Cumulated = Cumulated(linked: map<Name, real>, naive: real, honest: real, deltaCp: real)

  type Components = seq<(Name, seq<real>)>

  /** The keys of a dict. */
  predicate DistinctNames(components: Components) {
    forall c, d :: 0 <= c < d < |components| ==> components[c].0 != components[d].0
  }

  predicate WellFormed(components: Components, active: seq<real>) {
    DistinctNames(components) && forall c :: 0 <= c < |components| ==> |components[c].1| == |active|
  }

  function Repeated(x: real, n: nat): (xs: seq<real>)
    ensures |xs| == n
  {
    seq(n, i => x)
  }

  /** `sum(arr * growth)`: one of length one is stretched to the other, other lengths do not fit. */
  function LinkedValue(arr: seq<real>, growth: seq<real>): Option<real> {
    if |arr| == |growth| then Some(Dot(arr, growth))
    else if |arr| == 1 then Some(Dot(Repeated(arr[0], |growth|), growth))
    else if |growth| == 1 then Some(Dot(arr, Repeated(growth[0], |arr|)))
    else None
  }

  /** With no periods nothing is linked and nothing can fail to fit. */
  function LinkedAgainst(arr: seq<real>, active: seq<real>): Option<real> {
    if active == [] then Some(0.0) else LinkedValue(arr, GrowthPath(active))
  }

  /** A product with one number throughout is that many times the sum. */
  lemma {:induction false} ConstantDot(us: seq<real>, ys: seq<real>, x: real, n: nat)
    requires n <= |ys| == |us| && forall i :: 0 <= i < |us| ==> us[i] == x
    ensures DotTo(us, ys, n) == x * SumTo(ys, n)
  {
    if n > 0 {
      ConstantDot(us, ys, x, n - 1);
      Distribute(x, SumTo(ys, n - 1), ys[n - 1]);
    }
  }

  lemma OneByOne(xs: seq<real>, ys: seq<real>)
    requires |xs| == |ys| == 1
    ensures Dot(xs, ys) == xs[0] * ys[0] && Sum(xs) == xs[0] && Sum(ys) == ys[0]
  {
    assert DotTo(xs, ys, 0) == 0.0 && SumTo(xs, 0) == 0.0 && SumTo(ys, 0) == 0.0;
  }

  lemma StretchedReturn(arr: seq<real>, growth: seq<real>)
    requires |arr| == 1
    ensures LinkedValue(arr, growth).Some? && LinkedValue(arr, growth).value == arr[0] * Sum(growth)
  {
    if |growth| == 1 { OneByOne(arr, growth); } else { ConstantDot(Repeated(arr[0], |growth|), growth, arr[0], |growth|); }
  }

  lemma StretchedPeriod(arr: seq<real>, growth: seq<real>)
    requires |growth| == 1 && growth[0] == 1.0
    ensures LinkedValue(arr, growth).Some? && LinkedValue(arr, growth).value == Sum(arr)
  {
    if |arr| == 1 {
      OneByOne(arr, growth);
    } else {
      var us := Repeated(1.0, |arr|);
      ConstantDot(us, arr, 1.0, |arr|);
      DotSwaps(arr, us, |arr|);
    }
  }

  /**
    Lengths that match are linked period by period, each return times the growth before it;
    a single return is linked to every period and a single period takes every return, as
    stretching does; any other lengths are the error, unless there are no periods at all.
  */
  lemma LinkedMeans(arr: seq<real>, active: seq<real>)
    ensures active == [] ==> LinkedAgainst(arr, active) == Some(0.0)
    ensures active != [] && |arr| == |active| ==> LinkedAgainst(arr, active) == Some(Dot(arr, GrowthPath(active)))
    ensures active != [] && |arr| == 1 ==>
      LinkedAgainst(arr, active).Some? && LinkedAgainst(arr, active).value == arr[0] * Sum(GrowthPath(active))
    ensures |active| == 1 ==> LinkedAgainst(arr, active) == Some(Sum(arr))
    ensures LinkedAgainst(arr, active).None? <==> active != [] && |arr| != |active| && |arr| != 1 && |active| != 1
  {
    if |arr| == 1 { StretchedReturn(arr, GrowthPath(active)); }
    if |active| == 1 { StretchedPeriod(arr, GrowthPath(active)); }
  }

  /** Growth starts at one and compounds each period's return. */
  lemma GrowthCompounds(r: seq<real>, t: nat)
    requires t < |r|
    ensures GrowthPath(r)[0] == 1.0 && (t > 0 ==> GrowthPath(r)[t] == GrowthPath(r)[t - 1] * (1.0 + r[t - 1]))
    ensures Growth(r, t + 1) == GrowthPath(r)[t] * (1.0 + r[t])
  {
  }

  predicate Fits(components: Components, active: seq<real>) {
    forall c :: 0 <= c < |components| ==> LinkedAgainst(components[c].1, active).Some?
  }

  /** The dict holds the first `n` components, each linked, and nothing else. */
  ghost predicate LinksFirst(linked: map<Name, real>, components: Components, active: seq<real>, n: nat)
    requires n <= |components|
  {
    && (forall name :: name in linked <==> exists c :: 0 <= c < n && components[c].0 == name)
    && (forall c :: 0 <= c < n ==> components[c].0 in linked && Some(linked[components[c].0]) == LinkedAgainst(components[c].1, active))
  }

  /** One period's components, across names. */
  function AtPeriod(components: Components, active: seq<real>, t: nat): (xs: seq<real>)
    requires WellFormed(components, active) && t < |active|
    ensures |xs| == |components|
  {
    seq(|components|, c requires 0 <= c < |components| => components[c].1[t])
  }

  /** What each component has been linked to over the first `n` periods. */
  function LinkedTo(components: Components, active: seq<real>, n: nat): (xs: seq<real>)
    requires WellFormed(components, active) && n <= |active|
    ensures |xs| == |components|
  {
    seq(|components|, c requires 0 <= c < |components| => DotTo(components[c].1, GrowthPath(active), n))
  }

  /** The dict holds each component's linked value over all periods. */
  ghost predicate Holds(components: Components, active: seq<real>, linked: map<Name, real>)
    requires WellFormed(components, active)
  {
    forall c :: 0 <= c < |components| ==>
      components[c].0 in linked && linked[components[c].0] == LinkedTo(components, active, |active|)[c]
  }

  /** The linked total, names in insertion order. */
  function LinkedSum(components: Components, linked: map<Name, real>): real
    requires forall c :: 0 <= c < |components| ==> components[c].0 in linked
  {
    Sum(seq(|components|, c requires 0 <= c < |components| => linked[components[c].0]))
  }

  /** The loop over components; one that does not fit ends it with an error. */
  method LinkAll(components: Components, active: seq<real>) returns (result: Option<map<Name, real>>)
    requires DistinctNames(components)
    ensures result.Some? <==> Fits(components, active)
    ensures result.Some? ==> LinksFirst(result.value, components, active, |components|)
  {
    var linked: map<Name, real> := map[];
    var growth := GrowthPath(active);
    for c := 0 to |components|
      invariant LinksFirst(linked, components, active, c)
    {
      var value := if active == [] then Some(0.0) else LinkedValue(components[c].1, growth);
      assert value == LinkedAgainst(components[c].1, active);
      if value.None? { return None; }
      linked := linked[components[c].0 := value.value];
    }
    result := Some(linked);
  }

  /** `None` is the error of a component whose length does not fit the active series. */
  method CumulateTopDown(components: Components, active: seq<real>, portfolio: seq<real>, bench: seq<real>) returns (result: Option<Cumulated>)
    requires DistinctNames(components)
    ensures result.Some? <==> Fits(components, active)
    ensures result.Some? ==>
      var r := result.value;
      && LinksFirst(r.linked, components, active, |components|)
      && (WellFormed(components, active) ==> Holds(components, active, r.linked))
      && r.naive == Growth(active, |active|) - 1.0 && r.deltaCp == r.honest - r.naive
      && r.honest == (if active == [] then 0.0
                      else if portfolio == [] || bench == [] then r.naive
                      else Growth(portfolio, |portfolio|) - Growth(bench, |bench|))
  {
    var each := LinkAll(components, active);
    if each.None? { return None; }
    var linked := each.value;
    if active == [] {
      return Some(Cumulated(linked, 0.0, 0.0, 0.0));
    }
    var naive := Growth(active, |active|) - 1.0;
    var honest := if portfolio != [] && bench != [] then Growth(portfolio, |portfolio|) - Growth(bench, |bench|) else naive;
    result := Some(Cumulated(linked, naive, honest, honest - naive));
  }

  /** The linking telescopes: each period adds its components times the growth before it. */
  lemma {:induction false} LinkingTelescopes(components: Components, active: seq<real>, n: nat)
    requires WellFormed(components, active) && n <= |active|
    requires forall t :: 0 <= t < |active| ==> Sum(AtPeriod(components, active, t)) == active[t]
    ensures Sum(LinkedTo(components, active, n)) == Growth(active, n) - 1.0
  {
    if n == 0 {
      SumOfConstant(LinkedTo(components, active, 0), 0.0, |components|);
    } else {
      LinkingTelescopes(components, active, n - 1);
      var g := Growth(active, n - 1);
      SumAdds(LinkedTo(components, active, n - 1), AtPeriod(components, active, n - 1), LinkedTo(components, active, n), g);
      assert Sum(AtPeriod(components, active, n - 1)) == active[n - 1];
      assert g * (1.0 + active[n - 1]) == g + g * active[n - 1];
    }
  }

  /**
    Honest cumulation. When the components sum to the active return in every period, the
    linked components sum to the naive compounding exactly, and adding the compounding
    residual gives the difference of the two compounded books.
  */
  lemma CumulationIsExact(components: Components, active: seq<real>, r: Cumulated)
    requires WellFormed(components, active)
    requires forall t :: 0 <= t < |active| ==> Sum(AtPeriod(components, active, t)) == active[t]
    requires Holds(components, active, r.linked)
    requires r.naive == Growth(active, |active|) - 1.0 && r.deltaCp == r.honest - r.naive
    ensures LinkedSum(components, r.linked) == r.naive
    ensures LinkedSum(components, r.linked) + r.deltaCp == r.honest
  {
    var values := seq(|components|, c requires 0 <= c < |components| => r.linked[components[c].0]);
    SumToAgrees(values, LinkedTo(components, active, |active|), |components|);
    LinkingTelescopes(components, active, |active|);
  }
}
