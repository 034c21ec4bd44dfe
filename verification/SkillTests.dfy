/**
  Two questions over the same resampling: is this track record skill, and is the best of
  all the trials tried skill. The second never answers more favourably than the first.
*/
module SkillTests {
  import opened Options
  import opened Sums
  import opened Bootstrap

  /** An annualized information ratio, and a block length chosen from a series. */
  type Statistic = seq<real> -> real

  /** One resampled series. */
  function Resample(resid: seq<real>, d: Draws, blockLength: real, b: nat, r: nat): (xs: seq<real>)
    requires |resid| > 0 && DrawsFor(d, |resid|, b) && r < b
    ensures |xs| == |resid|
  {
    var t, p := |resid|, RestartChance(blockLength);
    seq(t, s requires 0 <= s < t => resid[IndexAt(d, p, t, b, s, r)])
  }

  /** How many of the first `n` null values reach the observed one. */
  function Reaching(nulls: seq<real>, observed: real, n: nat): (k: nat)
    requires n <= |nulls|
    ensures k <= n
  {
    if n == 0 then 0 else Reaching(nulls, observed, n - 1) + (if nulls[n - 1] >= observed then 1 else 0)
  }

  /** `(1 + #{null >= observed}) / (B + 1)`. */
  function PValue(nulls: seq<real>, observed: real): real {
    (1 + Reaching(nulls, observed, |nulls|)) as real / (|nulls| + 1) as real
  }

  lemma {:induction false} ReachingCounts(nulls: seq<real>, observed: real, n: nat)
    requires n <= |nulls|
    ensures Reaching(nulls, observed, n) == |set r: nat | r < n && nulls[r] >= observed|
  {
    var now := set r: nat | r < n && nulls[r] >= observed;
    if n == 0 {
      assert now == {};
    } else {
      var before := set r: nat | r < n - 1 && nulls[r] >= observed;
      ReachingCounts(nulls, observed, n - 1);
      assert now == before + (if nulls[n - 1] >= observed then {n - 1} else {});
    }
  }

  lemma TimesOut(x: real, n: real)
    requires n > 0.0
    ensures (x / n) * n == x
  {
  }

  /** The p-value is one more than the number of rounds that reach the observed figure, over one more than all. */
  lemma PValueCounts(nulls: seq<real>, observed: real)
    ensures PValue(nulls, observed) * (|nulls| + 1) as real == (1 + |set r: nat | r < |nulls| && nulls[r] >= observed|) as real
  {
    ReachingCounts(nulls, observed, |nulls|);
    TimesOut((1 + Reaching(nulls, observed, |nulls|)) as real, (|nulls| + 1) as real);
  }

  lemma {:induction false} ReachingExtremes(nulls: seq<real>, observed: real, n: nat)
    requires n <= |nulls|
    ensures Reaching(nulls, observed, n) == n <==> forall r :: 0 <= r < n ==> nulls[r] >= observed
    ensures Reaching(nulls, observed, n) == 0 <==> forall r :: 0 <= r < n ==> nulls[r] < observed
  {
    if n > 0 { ReachingExtremes(nulls, observed, n - 1); }
  }

  lemma SameRatio(x: real, y: real, n: real)
    requires n > 0.0
    ensures x / n == y / n <==> x == y
  {
    TimesOut(x, n);
    TimesOut(y, n);
  }

  /** It is one exactly when every round reaches the observed figure, and at its least exactly when none does. */
  lemma PValueExtremes(nulls: seq<real>, observed: real)
    ensures PValue(nulls, observed) == 1.0 <==> forall r :: 0 <= r < |nulls| ==> nulls[r] >= observed
    ensures PValue(nulls, observed) == 1.0 / (|nulls| + 1) as real <==> forall r :: 0 <= r < |nulls| ==> nulls[r] < observed
  {
    var k, n := (1 + Reaching(nulls, observed, |nulls|)) as real, (|nulls| + 1) as real;
    ReachingExtremes(nulls, observed, |nulls|);
    assert k == n <==> Reaching(nulls, observed, |nulls|) == |nulls|;
    assert k == 1.0 <==> Reaching(nulls, observed, |nulls|) == 0;
    SameRatio(k, n, n);
    SameRatio(k, 1.0, n);
    WholeRatio(n);
  }

  lemma WholeRatio(n: real)
    requires n > 0.0
    ensures n / n == 1.0
  {
  }

  lemma {:induction false} ReachingMoves(nulls: seq<real>, observed: real, at: nat, x: real, n: nat)
    requires at < |nulls| && n <= |nulls| && nulls[at] < observed <= x
    ensures Reaching(nulls[at := x], observed, n) == Reaching(nulls, observed, n) + if at < n then 1 else 0
  {
    if n > 0 { ReachingMoves(nulls, observed, at, x, n - 1); }
  }

  lemma RatioAdds(x: real, n: real)
    requires n > 0.0
    ensures (x + 1.0) / n == x / n + 1.0 / n
  {
  }

  /** One more round that reaches it adds exactly one part in B + 1. */
  lemma OneMoreReaches(nulls: seq<real>, observed: real, at: nat, x: real)
    requires at < |nulls| && nulls[at] < observed <= x
    ensures PValue(nulls[at := x], observed) == PValue(nulls, observed) + 1.0 / (|nulls| + 1) as real
  {
    ReachingMoves(nulls, observed, at, x, |nulls|);
    RatioAdds((1 + Reaching(nulls, observed, |nulls|)) as real, (|nulls| + 1) as real);
  }

  lemma RatioOrder(x: real, y: real, d: real)
    requires d > 0.0 && x <= y
    ensures x / d <= y / d
  {
    var p, q := x / d, y / d;
    assert p * d == x && q * d == y;
    assert p > q ==> p * d > q * d;
  }

  /** Never zero from finitely many rounds, never above one. */
  lemma PValueRange(nulls: seq<real>, observed: real)
    ensures 1.0 / (|nulls| + 1) as real <= PValue(nulls, observed) <= 1.0
  {
    var n := (|nulls| + 1) as real;
    RatioOrder(1.0, (1 + Reaching(nulls, observed, |nulls|)) as real, n);
    RatioOrder((1 + Reaching(nulls, observed, |nulls|)) as real, n, n);
    assert n / n == 1.0;
  }

  lemma {:induction false} ReachingGrows(low: seq<real>, high: seq<real>, observed: real, n: nat)
    requires n <= |low| == |high| && forall r :: 0 <= r < |low| ==> low[r] <= high[r]
    ensures Reaching(low, observed, n) <= Reaching(high, observed, n)
  {
    if n > 0 { ReachingGrows(low, high, observed, n - 1); }
  }

  /** A null distribution that is nowhere lower gives a p-value that is no smaller. */
  lemma HigherNullsHigherP(low: seq<real>, high: seq<real>, observed: real)
    requires |low| == |high| && forall r :: 0 <= r < |low| ==> low[r] <= high[r]
    ensures PValue(low, observed) <= PValue(high, observed)
  {
    ReachingGrows(low, high, observed, |low|);
    RatioOrder((1 + Reaching(low, observed, |low|)) as real, (1 + Reaching(high, observed, |high|)) as real, (|low| + 1) as real);
  }

  datatype Outcome = Outcome(p: real, half: real, double: real, rounds: nat, insufficient: bool, flips: bool)

  const INSUFFICIENT := Outcome(1.0, 1.0, 1.0, 0, true, false)

  const LEVEL := 0.05

  /** Significance changes somewhere between half and double the block length. */
  predicate Flips(p: real, half: real, double: real) {
    ((p < LEVEL) != (half < LEVEL)) || ((p < LEVEL) != (double < LEVEL))
  }

  function Assess(p: real, half: real, double: real, b: nat): Outcome {
    Outcome(p, half, double, b, false, Flips(p, half, double))
  }

  /** `b` finds no more evidence than `a`, at every block length tried. */
  predicate NoMoreEvidence(a: Outcome, b: Outcome) {
    a.p <= b.p && a.half <= b.half && a.double <= b.double
  }

  function HalfLength(length: real): real { if length / 2.0 > 1.0 then length / 2.0 else 1.0 }

  // ------------------------------------------------------------------------
  // One track record
  // ------------------------------------------------------------------------

  function OwnNulls(series: seq<real>, centre: real, ir: Statistic, d: Draws, length: real, b: nat): (ns: seq<real>)
    requires |series| > 0 && DrawsFor(d, |series|, b)
    ensures |ns| == b
  {
    var resid := seq(|series|, i requires 0 <= i < |series| => series[i] - centre);
    seq(b, r requires 0 <= r < b => ir(Resample(resid, d, length, b, r)))
  }

  function OwnP(series: seq<real>, centre: real, ir: Statistic, d: Draws, length: real, b: nat): real
    requires |series| > 0 && DrawsFor(d, |series|, b)
  {
    PValue(OwnNulls(series, centre, ir, d, length, b), ir(series))
  }

  /** At the block length and at half and double it. */
  function OwnOutcome(series: seq<real>, centre: real, ir: Statistic, d: Draws, length: real, b: nat): Outcome
    requires |series| > 0 && DrawsFor(d, |series|, b)
  {
    Assess(OwnP(series, centre, ir, d, length, b), OwnP(series, centre, ir, d, HalfLength(length), b), OwnP(series, centre, ir, d, length * 2.0, b), b)
  }

  /** Zero-alpha bootstrap of one series; `alpha` overrides the sample mean as the centre. */
  function BootstrapNull(series: seq<real>, b: nat, blockLength: Option<real>, d: Draws, alpha: Option<real>, ir: Statistic, auto: Statistic): Outcome
    requires |series| >= 8 ==> b > 0 && DrawsFor(d, |series|, b)
  {
    if |series| < 8 then INSUFFICIENT else
      var centre := if alpha.Some? then alpha.value else Mean(series);
      OwnOutcome(series, centre, ir, d, if blockLength.Some? then blockLength.value else auto(series), b)
  }

  // ------------------------------------------------------------------------
  // The best of many
  // ------------------------------------------------------------------------

  /** A panel of trials, one column each, all of the same length. */
  predicate IsPanel(columns: seq<seq<real>>, t: nat) {
    forall c :: 0 <= c < |columns| ==> |columns[c]| == t
  }

  /** `argmax`: the first column whose own ratio is largest among the first `n`. */
  function Best(columns: seq<seq<real>>, ir: Statistic, n: nat): (best: nat)
    requires 0 < n <= |columns|
    ensures best < n
    ensures forall c :: 0 <= c < n ==> ir(columns[c]) <= ir(columns[best])
    ensures forall c :: 0 <= c < best ==> ir(columns[c]) < ir(columns[best])
  {
    if n == 1 then 0 else
      var before := Best(columns, ir, n - 1);
      if ir(columns[n - 1]) > ir(columns[before]) then n - 1 else before
  }

  /** The largest ratio across columns when all are resampled with the same indices. */
  function MaxNull(columns: seq<seq<real>>, ir: Statistic, d: Draws, length: real, b: nat, r: nat, n: nat): (x: real)
    requires 0 < n <= |columns| && |columns[0]| > 0 && IsPanel(columns, |columns[0]|)
    requires DrawsFor(d, |columns[0]|, b) && r < b
  {
    var last := ir(Resample(Demean(columns[n - 1]), d, length, b, r));
    if n == 1 then last else
      var before := MaxNull(columns, ir, d, length, b, r, n - 1);
      if last > before then last else before
  }

  function FamilyNulls(columns: seq<seq<real>>, ir: Statistic, d: Draws, length: real, b: nat): (ns: seq<real>)
    requires |columns| > 0 && |columns[0]| > 0 && IsPanel(columns, |columns[0]|) && DrawsFor(d, |columns[0]|, b)
    ensures |ns| == b
  {
    seq(b, r requires 0 <= r < b => MaxNull(columns, ir, d, length, b, r, |columns|))
  }

  function FamilyP(columns: seq<seq<real>>, ir: Statistic, d: Draws, length: real, b: nat): real
    requires |columns| > 0 && |columns[0]| > 0 && IsPanel(columns, |columns[0]|) && DrawsFor(d, |columns[0]|, b)
  {
    PValue(FamilyNulls(columns, ir, d, length, b), ir(columns[Best(columns, ir, |columns|)]))
  }

  function FamilyOutcome(columns: seq<seq<real>>, ir: Statistic, d: Draws, length: real, b: nat): Outcome
    requires |columns| > 0 && |columns[0]| > 0 && IsPanel(columns, |columns[0]|) && DrawsFor(d, |columns[0]|, b)
  {
    Assess(FamilyP(columns, ir, d, length, b), FamilyP(columns, ir, d, HalfLength(length), b), FamilyP(columns, ir, d, length * 2.0, b), b)
  }

  /** The block length asked for, or the selected trial's own. */
  function LengthUsed(columns: seq<seq<real>>, blockLength: Option<real>, ir: Statistic, auto: Statistic): real
    requires columns != []
  {
    if blockLength.Some? then blockLength.value else auto(columns[Best(columns, ir, |columns|)])
  }

  /** The Reality Check over a panel of `t` periods. */
  function RealityCheck(columns: seq<seq<real>>, t: nat, b: nat, blockLength: Option<real>, d: Draws, ir: Statistic, auto: Statistic): Outcome
    requires IsPanel(columns, t)
    requires columns != [] && t >= 8 ==> b > 0 && DrawsFor(d, t, b)
  {
    if columns == [] || t < 8 then INSUFFICIENT else
      FamilyOutcome(columns, ir, d, LengthUsed(columns, blockLength, ir, auto), b)
  }

  /** The family statistic of a round is the largest of its columns': none exceeds it and some column attains it. */
  lemma {:induction false} MaxNullIsMax(columns: seq<seq<real>>, ir: Statistic, d: Draws, length: real, b: nat, r: nat, n: nat) returns (at: nat)
    requires 0 < n <= |columns| && |columns[0]| > 0 && IsPanel(columns, |columns[0]|)
    requires DrawsFor(d, |columns[0]|, b) && r < b
    ensures forall c :: 0 <= c < n ==> ir(Resample(Demean(columns[c]), d, length, b, r)) <= MaxNull(columns, ir, d, length, b, r, n)
    ensures at < n && ir(Resample(Demean(columns[at]), d, length, b, r)) == MaxNull(columns, ir, d, length, b, r, n)
  {
    at := n - 1;
    if n > 1 {
      var before := MaxNullIsMax(columns, ir, d, length, b, r, n - 1);
      if ir(Resample(Demean(columns[n - 1]), d, length, b, r)) <= MaxNull(columns, ir, d, length, b, r, n - 1) { at := before; }
    }
  }

  lemma OwnNullIsOwnColumn(column: seq<real>, ir: Statistic, d: Draws, length: real, b: nat, r: nat)
    requires |column| > 0 && DrawsFor(d, |column|, b) && r < b
    ensures OwnNulls(column, Mean(column), ir, d, length, b)[r] == ir(Resample(Demean(column), d, length, b, r))
  {
    var m := Mean(column);
    assert seq(|column|, i requires 0 <= i < |column| => column[i] - m) == Demean(column);
  }

  /** At any block length, the selected trial's own p-value is no larger than the family's. */
  lemma FamilyDominates(columns: seq<seq<real>>, ir: Statistic, d: Draws, length: real, b: nat)
    requires |columns| > 0 && |columns[0]| > 0 && IsPanel(columns, |columns[0]|) && DrawsFor(d, |columns[0]|, b)
    ensures var best := columns[Best(columns, ir, |columns|)];
            OwnP(best, Mean(best), ir, d, length, b) <= FamilyP(columns, ir, d, length, b)
  {
    var best := Best(columns, ir, |columns|);
    var own, family := OwnNulls(columns[best], Mean(columns[best]), ir, d, length, b), FamilyNulls(columns, ir, d, length, b);
    forall r | 0 <= r < b ensures own[r] <= family[r] {
      OwnNullIsOwnColumn(columns[best], ir, d, length, b, r);
      var at := MaxNullIsMax(columns, ir, d, length, b, r, |columns|);
    }
    HigherNullsHigherP(own, family, ir(columns[best]));
  }

  lemma FamilyOutcomeDominates(columns: seq<seq<real>>, ir: Statistic, d: Draws, length: real, b: nat)
    requires |columns| > 0 && |columns[0]| > 0 && IsPanel(columns, |columns[0]|) && DrawsFor(d, |columns[0]|, b)
    ensures var best := columns[Best(columns, ir, |columns|)];
            NoMoreEvidence(OwnOutcome(best, Mean(best), ir, d, length, b), FamilyOutcome(columns, ir, d, length, b))
  {
    FamilyDominates(columns, ir, d, length, b);
    FamilyDominates(columns, ir, d, HalfLength(length), b);
    FamilyDominates(columns, ir, d, length * 2.0, b);
  }

  /**
    Selection is never free. With the same draws, rounds and block length, the family
    p-value of the Reality Check is at least the p-value the selected trial gets on its
    own, at the block length used and at both sensitivity lengths.
  */
  lemma FamilyIsNeverMoreSignificant(columns: seq<seq<real>>, t: nat, b: nat, blockLength: Option<real>, d: Draws, ir: Statistic, auto: Statistic)
    requires IsPanel(columns, t) && columns != []
    requires t >= 8 ==> b > 0 && DrawsFor(d, t, b)
    ensures NoMoreEvidence(BootstrapNull(columns[Best(columns, ir, |columns|)], b, blockLength, d, None, ir, auto),
                           RealityCheck(columns, t, b, blockLength, d, ir, auto))
  {
    if t >= 8 {
      var best := columns[Best(columns, ir, |columns|)];
      FamilyOutcomeDominates(columns, ir, d, if blockLength.Some? then blockLength.value else auto(best), b);
    }
  }

  /** With one trial the two questions are the same question. */
  lemma OneTrialFamily(column: seq<real>, b: nat, blockLength: Option<real>, d: Draws, ir: Statistic, auto: Statistic)
    requires |column| >= 8 ==> b > 0 && DrawsFor(d, |column|, b)
    ensures RealityCheck([column], |column|, b, blockLength, d, ir, auto) == BootstrapNull(column, b, blockLength, d, None, ir, auto)
  {
    if |column| >= 8 {
      var length := if blockLength.Some? then blockLength.value else auto(column);
      OneColumnNulls(column, ir, d, length, b);
      OneColumnNulls(column, ir, d, HalfLength(length), b);
      OneColumnNulls(column, ir, d, length * 2.0, b);
    }
  }

  lemma OneColumnNulls(column: seq<real>, ir: Statistic, d: Draws, length: real, b: nat)
    requires |column| > 0 && DrawsFor(d, |column|, b)
    ensures FamilyNulls([column], ir, d, length, b) == OwnNulls(column, Mean(column), ir, d, length, b)
  {
    forall r | 0 <= r < b ensures FamilyNulls([column], ir, d, length, b)[r] == OwnNulls(column, Mean(column), ir, d, length, b)[r] {
      OwnNullIsOwnColumn(column, ir, d, length, b, r);
    }
  }

  // ------------------------------------------------------------------------
  // The outcomes, in the terms of the series
  // ------------------------------------------------------------------------

  /** Round `r` of a series taken less `centre`: the series read along that round's blocks. */
  ghost function Round(series: seq<real>, centre: real, d: Draws, length: real, b: nat, r: nat): (xs: seq<real>)
    requires |series| > 0 && DrawsFor(d, |series|, b) && r < b
  {
    seq(|series|, s requires 0 <= s < |series| => series[IndexAt(d, RestartChance(length), |series|, b, s, r)] - centre)
  }

  /** The rounds in which the resampled series does as well as the series itself. */
  ghost function Hits(series: seq<real>, centre: real, ir: Statistic, d: Draws, length: real, b: nat): set<nat>
    requires |series| > 0 && DrawsFor(d, |series|, b)
  {
    set r: nat | r < b && ir(Round(series, centre, d, length, b, r)) >= ir(series)
  }

  ghost predicate ReachesAll(columns: seq<seq<real>>, ir: Statistic, x: real) {
    forall k :: 0 <= k < |columns| ==> x >= ir(columns[k])
  }

  ghost predicate SomeReaches(columns: seq<seq<real>>, t: nat, ir: Statistic, d: Draws, length: real, b: nat, r: nat)
    requires t > 0 && IsPanel(columns, t) && DrawsFor(d, t, b) && r < b
  {
    exists c :: 0 <= c < |columns| && ReachesAll(columns, ir, ir(Round(columns[c], Sum(columns[c]) / t as real, d, length, b, r)))
  }

  /** The rounds in which some trial, resampled less its own mean, does as well as every trial did. */
  ghost function FamilyHits(columns: seq<seq<real>>, t: nat, ir: Statistic, d: Draws, length: real, b: nat): set<nat>
    requires t > 0 && IsPanel(columns, t) && DrawsFor(d, t, b)
  {
    set r: nat | r < b && SomeReaches(columns, t, ir, d, length, b, r)
  }

  /** `p` is the chance of a hit: one more hit than there were, over one more round than there were. */
  ghost predicate IsChance(p: real, hits: set<nat>, b: nat) {
    p * (b + 1) as real == (1 + |hits|) as real
  }

  /** The figures at the block length and at half and double it, and whether significance changes among them. */
  ghost predicate IsOutcome(o: Outcome, hits: real -> set<nat>, length: real, b: nat) {
    && o.rounds == b && !o.insufficient
    && IsChance(o.p, hits(length), b)
    && IsChance(o.half, hits(if length > 2.0 then length / 2.0 else 1.0), b)
    && IsChance(o.double, hits(2.0 * length), b)
    && (o.flips <==> (o.p < 0.05 <==> o.half >= 0.05) || (o.p < 0.05 <==> o.double >= 0.05))
  }

  lemma OwnRound(series: seq<real>, centre: real, ir: Statistic, d: Draws, length: real, b: nat, r: nat)
    requires |series| > 0 && DrawsFor(d, |series|, b) && r < b
    ensures OwnNulls(series, centre, ir, d, length, b)[r] == ir(Round(series, centre, d, length, b, r))
  {
    var resid := seq(|series|, i requires 0 <= i < |series| => series[i] - centre);
    assert Resample(resid, d, length, b, r) == Round(series, centre, d, length, b, r);
  }

  lemma ChanceOf(nulls: seq<real>, observed: real, hits: set<nat>)
    requires forall r: nat :: r in hits <==> r < |nulls| && nulls[r] >= observed
    ensures IsChance(PValue(nulls, observed), hits, |nulls|)
  {
    PValueCounts(nulls, observed);
    assert hits == set r: nat | r < |nulls| && nulls[r] >= observed;
  }

  lemma OwnPIsChance(series: seq<real>, centre: real, ir: Statistic, d: Draws, length: real, b: nat)
    requires |series| > 0 && DrawsFor(d, |series|, b)
    ensures IsChance(OwnP(series, centre, ir, d, length, b), Hits(series, centre, ir, d, length, b), b)
  {
    var nulls := OwnNulls(series, centre, ir, d, length, b);
    forall r: nat | r < b ensures nulls[r] == ir(Round(series, centre, d, length, b, r)) { OwnRound(series, centre, ir, d, length, b, r); }
    ChanceOf(nulls, ir(series), Hits(series, centre, ir, d, length, b));
  }

  /** What the bootstrap of one record reports: too short a record is no evidence, a longer one is a count of rounds. */
  lemma BootstrapNullCounts(series: seq<real>, b: nat, blockLength: Option<real>, d: Draws, alpha: Option<real>, ir: Statistic, auto: Statistic)
    requires |series| >= 8 ==> b > 0 && DrawsFor(d, |series|, b)
    ensures var o := BootstrapNull(series, b, blockLength, d, alpha, ir, auto);
      if |series| < 8 then o == Outcome(1.0, 1.0, 1.0, 0, true, false) else
        var centre := if alpha.Some? then alpha.value else Sum(series) / |series| as real;
        IsOutcome(o, length => Hits(series, centre, ir, d, length, b), if blockLength.Some? then blockLength.value else auto(series), b)
  {
    if |series| >= 8 {
      var centre := if alpha.Some? then alpha.value else Mean(series);
      var length := if blockLength.Some? then blockLength.value else auto(series);
      OwnPIsChance(series, centre, ir, d, length, b);
      OwnPIsChance(series, centre, ir, d, if length > 2.0 then length / 2.0 else 1.0, b);
      OwnPIsChance(series, centre, ir, d, 2.0 * length, b);
    }
  }

  lemma ColumnRound(column: seq<real>, ir: Statistic, d: Draws, length: real, b: nat, r: nat)
    requires |column| > 0 && DrawsFor(d, |column|, b) && r < b
    ensures ir(Resample(Demean(column), d, length, b, r)) == ir(Round(column, Sum(column) / |column| as real, d, length, b, r))
  {
    assert Resample(Demean(column), d, length, b, r) == Round(column, Mean(column), d, length, b, r);
  }

  lemma BestIsReached(columns: seq<seq<real>>, ir: Statistic, x: real)
    requires |columns| > 0
    ensures x >= ir(columns[Best(columns, ir, |columns|)]) <==> ReachesAll(columns, ir, x)
  {
    var best := Best(columns, ir, |columns|);
  }

  /** The family statistic reaches the best ratio exactly when some column reaches them all. */
  lemma FamilyRound(columns: seq<seq<real>>, t: nat, ir: Statistic, d: Draws, length: real, b: nat, r: nat)
    requires |columns| > 0 && t > 0 && IsPanel(columns, t) && DrawsFor(d, t, b) && r < b
    ensures |columns[0]| == t
    ensures MaxNull(columns, ir, d, length, b, r, |columns|) >= ir(columns[Best(columns, ir, |columns|)])
      <==> SomeReaches(columns, t, ir, d, length, b, r)
  {
    var x := MaxNull(columns, ir, d, length, b, r, |columns|);
    var at := MaxNullIsMax(columns, ir, d, length, b, r, |columns|);
    BestIsReached(columns, ir, x);
    ColumnRound(columns[at], ir, d, length, b, r);
    forall c | 0 <= c < |columns| ensures ir(Round(columns[c], Sum(columns[c]) / t as real, d, length, b, r)) <= x {
      ColumnRound(columns[c], ir, d, length, b, r);
    }
    if SomeReaches(columns, t, ir, d, length, b, r) {
      var c :| 0 <= c < |columns| && ReachesAll(columns, ir, ir(Round(columns[c], Sum(columns[c]) / t as real, d, length, b, r)));
    }
  }

  lemma FamilyPIsChance(columns: seq<seq<real>>, t: nat, ir: Statistic, d: Draws, length: real, b: nat)
    requires |columns| > 0 && t > 0 && IsPanel(columns, t) && DrawsFor(d, t, b)
    ensures |columns[0]| == t && IsChance(FamilyP(columns, ir, d, length, b), FamilyHits(columns, t, ir, d, length, b), b)
  {
    var nulls, observed := FamilyNulls(columns, ir, d, length, b), ir(columns[Best(columns, ir, |columns|)]);
    forall r: nat | r < b ensures nulls[r] >= observed <==> SomeReaches(columns, t, ir, d, length, b, r) {
      FamilyRound(columns, t, ir, d, length, b, r);
    }
    ChanceOf(nulls, observed, FamilyHits(columns, t, ir, d, length, b));
  }

  lemma FamilyOutcomeCounts(columns: seq<seq<real>>, t: nat, ir: Statistic, d: Draws, length: real, b: nat)
    requires |columns| > 0 && t > 0 && IsPanel(columns, t) && DrawsFor(d, t, b)
    ensures |columns[0]| == t && IsOutcome(FamilyOutcome(columns, ir, d, length, b), l => FamilyHits(columns, t, ir, d, l, b), length, b)
  {
    FamilyPIsChance(columns, t, ir, d, length, b);
    FamilyPIsChance(columns, t, ir, d, if length > 2.0 then length / 2.0 else 1.0, b);
    FamilyPIsChance(columns, t, ir, d, 2.0 * length, b);
  }

  /** What the Reality Check reports: no trials or too few periods are no evidence, more are a count of rounds. */
  lemma RealityCheckCounts(columns: seq<seq<real>>, t: nat, b: nat, blockLength: Option<real>, d: Draws, ir: Statistic, auto: Statistic)
    requires IsPanel(columns, t)
    requires columns != [] && t >= 8 ==> b > 0 && DrawsFor(d, t, b)
    ensures var o := RealityCheck(columns, t, b, blockLength, d, ir, auto);
      if columns == [] || t < 8 then o == Outcome(1.0, 1.0, 1.0, 0, true, false) else
        var length := if blockLength.Some? then blockLength.value else auto(columns[Best(columns, ir, |columns|)]);
        IsOutcome(o, l => FamilyHits(columns, t, ir, d, l, b), length, b)
  {
    if columns != [] && t >= 8 {
      FamilyOutcomeCounts(columns, t, ir, d, LengthUsed(columns, blockLength, ir, auto), b);
    }
  }

  lemma {:induction false} MaxNullOfPrefix(columns: seq<seq<real>>, extra: seq<real>, ir: Statistic, d: Draws, length: real, b: nat, r: nat, n: nat)
    requires 0 < n <= |columns| && |columns[0]| > 0 && IsPanel(columns, |columns[0]|) && |extra| == |columns[0]|
    requires DrawsFor(d, |columns[0]|, b) && r < b
    ensures IsPanel(columns + [extra], |columns[0]|)
    ensures MaxNull(columns + [extra], ir, d, length, b, r, n) == MaxNull(columns, ir, d, length, b, r, n)
  {
    if n > 1 { MaxNullOfPrefix(columns, extra, ir, d, length, b, r, n - 1); }
  }

  lemma {:induction false} BestOfPrefix(columns: seq<seq<real>>, extra: seq<real>, ir: Statistic, n: nat)
    requires 0 < n <= |columns|
    ensures Best(columns + [extra], ir, n) == Best(columns, ir, n)
  {
    if n > 1 { BestOfPrefix(columns, extra, ir, n - 1); }
  }

  lemma BestStaysBest(columns: seq<seq<real>>, extra: seq<real>, ir: Statistic)
    requires columns != [] && ir(extra) <= ir(columns[Best(columns, ir, |columns|)])
    ensures Best(columns + [extra], ir, |columns| + 1) == Best(columns, ir, |columns|)
  {
    BestOfPrefix(columns, extra, ir, |columns|);
  }

  lemma MoreTrialsHigherNulls(columns: seq<seq<real>>, more: seq<seq<real>>, extra: seq<real>, ir: Statistic, d: Draws, length: real, b: nat, observed: real)
    requires |columns| > 0 && |columns[0]| > 0 && IsPanel(columns, |columns[0]|) && |extra| == |columns[0]| && more == columns + [extra]
    requires DrawsFor(d, |columns[0]|, b)
    ensures IsPanel(more, |more[0]|) && more[0] == columns[0]
    ensures PValue(FamilyNulls(columns, ir, d, length, b), observed) <= PValue(FamilyNulls(more, ir, d, length, b), observed)
  {
    var low, high := FamilyNulls(columns, ir, d, length, b), FamilyNulls(more, ir, d, length, b);
    forall r | 0 <= r < b ensures low[r] <= high[r] { MaxNullOfPrefix(columns, extra, ir, d, length, b, r, |columns|); }
    HigherNullsHigherP(low, high, observed);
  }

  lemma MoreTrialsHigherP(columns: seq<seq<real>>, more: seq<seq<real>>, extra: seq<real>, ir: Statistic, d: Draws, length: real, b: nat)
    requires |columns| > 0 && |columns[0]| > 0 && IsPanel(columns, |columns[0]|) && |extra| == |columns[0]| && more == columns + [extra]
    requires DrawsFor(d, |columns[0]|, b)
    requires ir(extra) <= ir(columns[Best(columns, ir, |columns|)])
    ensures IsPanel(more, |more[0]|) && more[0] == columns[0]
    ensures FamilyP(columns, ir, d, length, b) <= FamilyP(more, ir, d, length, b)
  {
    var best := Best(columns, ir, |columns|);
    MoreTrialsHigherNulls(columns, more, extra, ir, d, length, b, ir(columns[best]));
    BestStaysBest(columns, extra, ir);
    assert more[best] == columns[best];
  }

  lemma OutcomesCompare(columns: seq<seq<real>>, more: seq<seq<real>>, ir: Statistic, d: Draws, length: real, b: nat)
    requires columns != [] && more != [] && |columns[0]| == |more[0]| > 0 && DrawsFor(d, |columns[0]|, b)
    requires IsPanel(columns, |columns[0]|) && IsPanel(more, |more[0]|)
    requires FamilyP(columns, ir, d, length, b) <= FamilyP(more, ir, d, length, b)
    requires FamilyP(columns, ir, d, HalfLength(length), b) <= FamilyP(more, ir, d, HalfLength(length), b)
    requires FamilyP(columns, ir, d, length * 2.0, b) <= FamilyP(more, ir, d, length * 2.0, b)
    ensures NoMoreEvidence(FamilyOutcome(columns, ir, d, length, b), FamilyOutcome(more, ir, d, length, b))
  {
  }

  lemma MoreTrialsNoMoreEvidence(columns: seq<seq<real>>, more: seq<seq<real>>, extra: seq<real>, ir: Statistic, d: Draws, length: real, b: nat)
    requires |columns| > 0 && |columns[0]| > 0 && IsPanel(columns, |columns[0]|) && |extra| == |columns[0]| && more == columns + [extra]
    requires DrawsFor(d, |columns[0]|, b)
    requires ir(extra) <= ir(columns[Best(columns, ir, |columns|)])
    ensures IsPanel(more, |more[0]|) && more[0] == columns[0]
    ensures NoMoreEvidence(FamilyOutcome(columns, ir, d, length, b), FamilyOutcome(more, ir, d, length, b))
  {
    MoreTrialsHigherP(columns, more, extra, ir, d, length, b);
    MoreTrialsHigherP(columns, more, extra, ir, d, HalfLength(length), b);
    MoreTrialsHigherP(columns, more, extra, ir, d, length * 2.0, b);
    OutcomesCompare(columns, more, ir, d, length, b);
  }

  lemma LengthStays(columns: seq<seq<real>>, more: seq<seq<real>>, extra: seq<real>, blockLength: Option<real>, ir: Statistic, auto: Statistic)
    requires columns != [] && more == columns + [extra] && ir(extra) <= ir(columns[Best(columns, ir, |columns|)])
    ensures LengthUsed(more, blockLength, ir, auto) == LengthUsed(columns, blockLength, ir, auto)
  {
    BestColumnStays(columns, more, extra, ir, Best(columns, ir, |columns|));
  }

  lemma BestColumnStays(columns: seq<seq<real>>, more: seq<seq<real>>, extra: seq<real>, ir: Statistic, best: nat)
    requires columns != [] && more == columns + [extra] && ir(extra) <= ir(columns[Best(columns, ir, |columns|)])
    requires best == Best(columns, ir, |columns|)
    ensures Best(more, ir, |more|) == best && more[best] == columns[best]
  {
    BestStaysBest(columns, extra, ir);
  }

  /** Trying one more configuration that does not win can only raise the family p-value. */
  lemma AnotherTrialCosts(columns: seq<seq<real>>, extra: seq<real>, t: nat, b: nat, blockLength: Option<real>, d: Draws, ir: Statistic, auto: Statistic)
    requires IsPanel(columns, t) && columns != [] && |extra| == t
    requires t >= 8 ==> b > 0 && DrawsFor(d, t, b)
    requires ir(extra) <= ir(columns[Best(columns, ir, |columns|)])
    ensures IsPanel(columns + [extra], t)
    ensures NoMoreEvidence(RealityCheck(columns, t, b, blockLength, d, ir, auto), RealityCheck(columns + [extra], t, b, blockLength, d, ir, auto))
  {
    var more := columns + [extra];
    assert IsPanel(more, t);
    if t >= 8 {
      LengthStays(columns, more, extra, blockLength, ir, auto);
      MoreTrialsNoMoreEvidence(columns, more, extra, ir, d, LengthUsed(columns, blockLength, ir, auto), b);
    }
  }
}
