/**
  How bad the book got while it was open: the worst simultaneous-extremes mark and the
  worst closing mark, both against the running peak of the closing curve.
*/
module Excursion {
  import opened Options
  import opened Drawdown

  /** One step's record of the book; an absent close reads as zero, an absent extreme as the close. */
  datatype Sample = Sample(close: Option<real>, adverse: Option<real>, favourable: Option<real>)

  function Close(s: Sample): real { if s.close.Some? then s.close.value else 0.0 }

  function Adverse(s: Sample): real { if s.adverse.Some? then s.adverse.value else Close(s) }

  function Favourable(s: Sample): real { if s.favourable.Some? then s.favourable.value else Close(s) }

  /** The equity a moment is reported with: there an absent extreme reads as zero. */
  function Shown(recorded: Option<real>): real { if recorded.Some? then recorded.value else 0.0 }

  function AdversesShown(samples: seq<Sample>): seq<real> {
    seq(|samples|, i requires 0 <= i < |samples| => Shown(samples[i].adverse))
  }

  function FavourablesShown(samples: seq<Sample>): seq<real> {
    seq(|samples|, i requires 0 <= i < |samples| => Shown(samples[i].favourable))
  }

  function Closes(samples: seq<Sample>): seq<real> {
    seq(|samples|, i requires 0 <= i < |samples| => Close(samples[i]))
  }

  function Adverses(samples: seq<Sample>): seq<real> {
    seq(|samples|, i requires 0 <= i < |samples| => Adverse(samples[i]))
  }

  function Favourables(samples: seq<Sample>): seq<real> {
    seq(|samples|, i requires 0 <= i < |samples| => Favourable(samples[i]))
  }

  /** How far a mark lies below the peak, or above it, in percent of the peak. */
  function Below(peak: real, mark: real): real
    requires peak > 0.0
  {
    (peak - mark) / peak * 100.0
  }

  function Above(peak: real, mark: real): real
    requires peak > 0.0
  {
    (mark - peak) / peak * 100.0
  }

  /** Per step; a book with no equity has no meaningful fraction of one. */
  function DepthAt(closes: seq<real>, marks: seq<real>, t: nat): Option<real>
    requires t < |closes| == |marks|
  {
    if Peak(closes, t) > 0.0 then Some(Below(Peak(closes, t), marks[t])) else None
  }

  function HeightAt(closes: seq<real>, marks: seq<real>, t: nat): Option<real>
    requires t < |closes| == |marks|
  {
    if Peak(closes, t) > 0.0 then Some(Above(Peak(closes, t), marks[t])) else None
  }

  function Depths(closes: seq<real>, marks: seq<real>): (ds: seq<Option<real>>)
    requires |closes| == |marks|
    ensures |ds| == |closes|
  {
    seq(|closes|, t requires 0 <= t < |closes| => DepthAt(closes, marks, t))
  }

  function Heights(closes: seq<real>, marks: seq<real>): (hs: seq<Option<real>>)
    requires |closes| == |marks|
    ensures |hs| == |closes|
  {
    seq(|closes|, t requires 0 <= t < |closes| => HeightAt(closes, marks, t))
  }

  /** `pct` is the largest value among the first `n`, and `at` the first place it occurs. */
  ghost predicate FirstMax(xs: seq<Option<real>>, n: nat, at: Option<nat>, pct: real)
    requires n <= |xs|
  {
    && (at.None? ==> pct == 0.0 && forall t :: 0 <= t < n ==> xs[t].None?)
    && (at.Some? ==> at.value < n && xs[at.value] == Some(pct)
                     && (forall t :: 0 <= t < n && xs[t].Some? ==> xs[t].value <= pct)
                     && (forall t :: 0 <= t < at.value && xs[t].Some? ==> xs[t].value < pct))
  }

  /** A moment the report points at: the step, the equity shown for it, the peak then. */
  datatype Instant = Instant(step: nat, equity: real, peak: real)

  /** A running extreme and where it was first reached. */
  datatype Extreme = Extreme(pct: real, at: Option<Instant>)

  ghost predicate Found(x: Extreme, xs: seq<Option<real>>, closes: seq<real>, shown: seq<real>, n: nat)
    requires n <= |xs| == |closes| == |shown|
  {
    && FirstMax(xs, n, if x.at.Some? then Some(x.at.value.step) else None, x.pct)
    && (x.at.Some? ==> x.at.value.equity == shown[x.at.value.step] && x.at.value.peak == Peak(closes, x.at.value.step))
  }

  datatype Report = Report(
    available: bool, steps: nat, adverse: Extreme, favourable: Extreme, closing: Extreme,
    understatement: real, sampledTheSamePain: bool)

  const MATERIAL_GAP_PCT := 1.0
  const NOWHERE := Extreme(0.0, None)
  const NOTHING := Report(false, 0, NOWHERE, NOWHERE, NOWHERE, 0.0, false)

  /** The report's extremes are the true extremes of the first `n` steps. */
  ghost predicate Reports(r: Report, samples: seq<Sample>, n: nat)
    requires n <= |samples|
  {
    var closes := Closes(samples);
    && Found(r.adverse, Depths(closes, Adverses(samples)), closes, AdversesShown(samples), n)
    && Found(r.closing, Depths(closes, closes), closes, closes, n)
    && Found(r.favourable, Heights(closes, Favourables(samples)), closes, FavourablesShown(samples), n)
  }

  /** One step of a running extreme: taken over when beaten, or when there is none yet. */
  function Beat(x: Extreme, pct: real, i: Instant): Extreme {
    if pct > x.pct || x.at.None? then Extreme(pct, Some(i)) else x
  }

  lemma FoundStep(x: Extreme, xs: seq<Option<real>>, closes: seq<real>, shown: seq<real>, n: nat)
    requires n < |xs| == |closes| == |shown| && Found(x, xs, closes, shown, n)
    ensures xs[n].None? ==> Found(x, xs, closes, shown, n + 1)
    ensures xs[n].Some? ==> Found(Beat(x, xs[n].value, Instant(n, shown[n], Peak(closes, n))), xs, closes, shown, n + 1)
  {
  }

  /** The pass after `n` steps: the running peak, and the three extremes so far. */
  ghost predicate Tracks(samples: seq<Sample>, n: nat, peak: real, adverse: Extreme, closing: Extreme, favourable: Extreme)
    requires 0 < |samples| && n <= |samples|
  {
    var closes := Closes(samples);
    && peak == (if n == 0 then closes[0] else Peak(closes, n - 1))
    && Found(adverse, Depths(closes, Adverses(samples)), closes, AdversesShown(samples), n)
    && Found(closing, Depths(closes, closes), closes, closes, n)
    && Found(favourable, Heights(closes, Favourables(samples)), closes, FavourablesShown(samples), n)
  }

  lemma TracksStep(samples: seq<Sample>, n: nat, was: real, peak: real, adverse: Extreme, closing: Extreme, favourable: Extreme)
    requires n < |samples| && Tracks(samples, n, was, adverse, closing, favourable) && peak == Max(was, Close(samples[n]))
    ensures peak == Peak(Closes(samples), n)
    ensures peak <= 0.0 ==> Tracks(samples, n + 1, peak, adverse, closing, favourable)
    ensures peak > 0.0 ==> var x := samples[n];
      Tracks(samples, n + 1, peak,
             Beat(adverse, Below(peak, Adverse(x)), Instant(n, Shown(x.adverse), peak)),
             Beat(closing, Below(peak, Close(x)), Instant(n, Close(x), peak)),
             Beat(favourable, Above(peak, Favourable(x)), Instant(n, Shown(x.favourable), peak)))
  {
    var closes := Closes(samples);
    FoundStep(adverse, Depths(closes, Adverses(samples)), closes, AdversesShown(samples), n);
    FoundStep(closing, Depths(closes, closes), closes, closes, n);
    FoundStep(favourable, Heights(closes, Favourables(samples)), closes, FavourablesShown(samples), n);
  }

  method PortfolioExcursion(samples: Option<seq<Sample>>) returns (r: Report)
    ensures samples.None? || samples.value == [] ==>
      r == Report(false, 0, Extreme(0.0, None), Extreme(0.0, None), Extreme(0.0, None), 0.0, false)
    ensures samples.Some? && samples.value != [] ==>
      && r.available && r.steps == |samples.value|
      && Reports(r, samples.value, |samples.value|)
      && r.understatement == r.adverse.pct - r.closing.pct
      && (r.sampledTheSamePain <==> r.understatement < 1.0)
  {
    r := NOTHING;
    if samples.None? || samples.value == [] { return; }
    var xs := samples.value;
    var peak := Close(xs[0]);
    var adverse, favourable, closing := NOWHERE, NOWHERE, NOWHERE;
    for t := 0 to |xs|
      invariant Tracks(xs, t, peak, adverse, closing, favourable)
    {
      var close := Close(xs[t]);
      TracksStep(xs, t, peak, Max(peak, close), adverse, closing, favourable);
      peak := Max(peak, close);
      if peak <= 0.0 { continue; }
      adverse := Beat(adverse, Below(peak, Adverse(xs[t])), Instant(t, Shown(xs[t].adverse), peak));
      favourable := Beat(favourable, Above(peak, Favourable(xs[t])), Instant(t, Shown(xs[t].favourable), peak));
      closing := Beat(closing, Below(peak, close), Instant(t, close, peak));
    }
    var gap := adverse.pct - closing.pct;
    r := Report(true, |xs|, adverse, favourable, closing, gap, gap < MATERIAL_GAP_PCT);
  }

  // ------------------------------------------------------------------------
  // What the two numbers mean
  // ------------------------------------------------------------------------

  lemma DeeperMark(peak: real, low: real, high: real)
    requires peak > 0.0 && low <= high
    ensures Below(peak, high) <= Below(peak, low)
  {
    var x, y := (peak - high) / peak, (peak - low) / peak;
    assert x * peak == peak - high && y * peak == peak - low;
    CancelLeq(x, y, peak);
  }

  /** Depths that are nowhere smaller have a largest one that is no smaller. */
  lemma LargerDepths(xs: seq<Option<real>>, ys: seq<Option<real>>, at: Option<nat>, x: real, at': Option<nat>, y: real)
    requires |xs| == |ys|
    requires forall t :: 0 <= t < |xs| ==> (xs[t].Some? <==> ys[t].Some?) && (xs[t].Some? ==> xs[t].value <= ys[t].value)
    requires FirstMax(xs, |xs|, at, x) && FirstMax(ys, |ys|, at', y)
    ensures x <= y
  {
    if at.Some? { assert ys[at.value].Some?; }
    if at'.Some? { assert xs[at'.value].Some?; }
  }

  lemma LowerMarksAreDeeper(closes: seq<real>, low: seq<real>, high: seq<real>, t: nat)
    requires t < |closes| == |low| == |high| && low[t] <= high[t]
    ensures DepthAt(closes, low, t).Some? <==> DepthAt(closes, high, t).Some?
    ensures DepthAt(closes, low, t).Some? ==> DepthAt(closes, high, t).value <= DepthAt(closes, low, t).value
  {
    if Peak(closes, t) > 0.0 { DeeperMark(Peak(closes, t), low[t], high[t]); }
  }

  lemma LowerMarksAreWorse(closes: seq<real>, low: seq<real>, high: seq<real>, at: Option<nat>, pct: real, at': Option<nat>, pct': real)
    requires |closes| == |low| == |high|
    requires forall t :: 0 <= t < |closes| ==> low[t] <= high[t]
    requires FirstMax(Depths(closes, low), |closes|, at, pct) && FirstMax(Depths(closes, high), |closes|, at', pct')
    ensures pct' <= pct
  {
    forall t | 0 <= t < |closes|
      ensures (Depths(closes, high)[t].Some? <==> Depths(closes, low)[t].Some?)
              && (Depths(closes, high)[t].Some? ==> Depths(closes, high)[t].value <= Depths(closes, low)[t].value)
    {
      LowerMarksAreDeeper(closes, low, high, t);
    }
    LargerDepths(Depths(closes, high), Depths(closes, low), at', pct', at, pct);
  }

  function StepOf(x: Extreme): Option<nat> {
    if x.at.Some? then Some(x.at.value.step) else None
  }

  /**
    The realized worst lies between the two. Take any path of the book through the steps
    that is, at each, no better than the close and no worse than the simultaneous
    extremes: its own worst depth lies between the closing figure and the reported bound.
  */
  lemma RealizedWorstIsBracketed(samples: seq<Sample>, r: Report, path: seq<real>, at: Option<nat>, pct: real)
    requires Reports(r, samples, |samples|) && |path| == |samples|
    requires forall t :: 0 <= t < |samples| ==> Adverse(samples[t]) <= path[t] <= Close(samples[t])
    requires FirstMax(Depths(Closes(samples), path), |samples|, at, pct)
    ensures r.closing.pct <= pct <= r.adverse.pct
  {
    LowerMarksAreWorse(Closes(samples), Adverses(samples), path, StepOf(r.adverse), r.adverse.pct, at, pct);
    LowerMarksAreWorse(Closes(samples), path, Closes(samples), at, pct, StepOf(r.closing), r.closing.pct);
  }

  /** The curve never overstates: the intra-bar worst is at least the closing worst. */
  lemma UnderstatementIsNonNegative(samples: seq<Sample>, r: Report)
    requires Reports(r, samples, |samples|)
    requires forall t :: 0 <= t < |samples| ==> Adverse(samples[t]) <= Close(samples[t])
    ensures r.adverse.pct - r.closing.pct >= 0.0
  {
    LowerMarksAreWorse(Closes(samples), Adverses(samples), Closes(samples),
                       StepOf(r.adverse), r.adverse.pct, StepOf(r.closing), r.closing.pct);
  }

  function Recorded(x: Option<real>, otherwise: real): real {
    if x.Some? then x.value else otherwise
  }

  /** The extreme is no smaller than a step's figure, and if it points at that step it is that figure. */
  ghost predicate Covers(x: Extreme, t: nat, figure: real, shown: real, peak: real) {
    figure <= x.pct && x.at.Some? && (x.at.value.step == t ==> x == Extreme(figure, Some(Instant(t, shown, peak))))
  }

  lemma FoundCovers(x: Extreme, xs: seq<Option<real>>, closes: seq<real>, shown: seq<real>, t: nat)
    requires t < |xs| == |closes| == |shown| && Found(x, xs, closes, shown, |xs|) && xs[t].Some?
    ensures Covers(x, t, xs[t].value, shown[t], Peak(closes, t))
  {
  }

  function InPercent(gap: real, peak: real): real
    requires peak > 0.0
  {
    gap / peak * 100.0
  }

  lemma InPercentOfPeak(peak: real, mark: real)
    requires peak > 0.0
    ensures Below(peak, mark) == InPercent(peak - mark, peak) && Above(peak, mark) == InPercent(mark - peak, peak)
  {
  }

  lemma FiguresAt(closes: seq<real>, marks: seq<real>, t: nat)
    requires t < |closes| == |marks| && Peak(closes, t) > 0.0
    ensures Depths(closes, marks)[t] == Some(InPercent(Peak(closes, t) - marks[t], Peak(closes, t)))
    ensures Heights(closes, marks)[t] == Some(InPercent(marks[t] - Peak(closes, t), Peak(closes, t)))
  {
    InPercentOfPeak(Peak(closes, t), marks[t]);
  }

  lemma ReadAt(samples: seq<Sample>, t: nat)
    requires t < |samples|
    ensures var s := samples[t];
      var close := Recorded(s.close, 0.0);
      && Closes(samples)[t] == close
      && Adverses(samples)[t] == Recorded(s.adverse, close) && Favourables(samples)[t] == Recorded(s.favourable, close)
      && AdversesShown(samples)[t] == Recorded(s.adverse, 0.0) && FavourablesShown(samples)[t] == Recorded(s.favourable, 0.0)
  {
  }

  lemma DepthCovers(x: Extreme, closes: seq<real>, marks: seq<real>, shown: seq<real>, t: nat)
    requires t < |closes| == |marks| == |shown| && Peak(closes, t) > 0.0
    requires Found(x, Depths(closes, marks), closes, shown, |closes|)
    ensures Covers(x, t, InPercent(Peak(closes, t) - marks[t], Peak(closes, t)), shown[t], Peak(closes, t))
  {
    FiguresAt(closes, marks, t);
    FoundCovers(x, Depths(closes, marks), closes, shown, t);
  }

  lemma HeightCovers(x: Extreme, closes: seq<real>, marks: seq<real>, shown: seq<real>, t: nat)
    requires t < |closes| == |marks| == |shown| && Peak(closes, t) > 0.0
    requires Found(x, Heights(closes, marks), closes, shown, |closes|)
    ensures Covers(x, t, InPercent(marks[t] - Peak(closes, t), Peak(closes, t)), shown[t], Peak(closes, t))
  {
    FiguresAt(closes, marks, t);
    FoundCovers(x, Heights(closes, marks), closes, shown, t);
  }

  /**
    The figures in the terms of the samples. At every step with a positive running peak of
    the closes, none of the three is smaller than that step's own percentage of the peak;
    and at the step it points at, each is that percentage, with the equity recorded there.
  */
  lemma FiguresMean(samples: seq<Sample>, r: Report, t: nat, close: real, peak: real)
    requires Reports(r, samples, |samples|) && t < |samples|
    requires close == Recorded(samples[t].close, 0.0) && peak == Peak(Closes(samples), t) > 0.0
    ensures var s := samples[t];
      && Closes(samples)[t] == close
      && Covers(r.adverse, t, InPercent(peak - Recorded(s.adverse, close), peak), Recorded(s.adverse, 0.0), peak)
      && Covers(r.favourable, t, InPercent(Recorded(s.favourable, close) - peak, peak), Recorded(s.favourable, 0.0), peak)
      && Covers(r.closing, t, InPercent(peak - close, peak), close, peak)
  {
    var closes := Closes(samples);
    ReadAt(samples, t);
    DepthCovers(r.adverse, closes, Adverses(samples), AdversesShown(samples), t);
    HeightCovers(r.favourable, closes, Favourables(samples), FavourablesShown(samples), t);
    DepthCovers(r.closing, closes, closes, closes, t);
  }

  function Percent(x: real): real { 100.0 * x }

  /** Per step, the fraction lost from a positive running peak. */
  function Losses(e: seq<real>): (ls: seq<Option<real>>)
    ensures |ls| == |e|
  {
    seq(|e|, t requires 0 <= t < |e| => if Peak(e, t) > 0.0 then Some(FractionLost(Peak(e, t), e[t])) else None)
  }

  lemma ClosingDepth(e: seq<real>, t: nat)
    requires t < |e|
    ensures Depths(e, e)[t].Some? <==> Losses(e)[t].Some?
    ensures Losses(e)[t].Some? ==> Losses(e)[t].value >= 0.0 && Depths(e, e)[t].value == Percent(Losses(e)[t].value)
  {
    DepthIsLoss(e, t);
  }

  /** `x` is the largest of the given losses, or zero where there are none. */
  ghost predicate IsLargest(ls: seq<Option<real>>, x: real) {
    && x >= 0.0 && (x > 0.0 ==> Some(x) in ls)
    && forall t :: 0 <= t < |ls| && ls[t].Some? ==> 0.0 <= ls[t].value <= x
  }

  lemma LargestInPercent(ds: seq<Option<real>>, ls: seq<Option<real>>, at: Option<nat>, pct: real, x: real)
    requires |ds| == |ls| && FirstMax(ds, |ds|, at, pct) && IsLargest(ls, x)
    requires forall t :: 0 <= t < |ds| ==> (ds[t].Some? <==> ls[t].Some?) && (ls[t].Some? ==> ds[t].value == Percent(ls[t].value))
    ensures pct == Percent(x)
  {
    if x > 0.0 {
      var j :| 0 <= j < |ls| && ls[j] == Some(x);
      assert ds[j] == Some(Percent(x));
    }
  }

  lemma FigureIsLargest(e: seq<real>)
    requires e != [] && MaxDrawdownOf(e).Fraction?
    ensures IsLargest(Losses(e), MaxDrawdownOf(e).x)
  {
    FigureIsDeepestFall(e);
    var x := MaxDrawdownOf(e).x;
    forall t | 0 <= t < |e| && Losses(e)[t].Some? ensures 0.0 <= Losses(e)[t].value <= x { ClosingDepth(e, t); }
    if x > 0.0 {
      var j :| 0 <= j < |e| && Peak(e, j) > 0.0 && FractionLost(Peak(e, j), e[j]) == x;
      assert Losses(e)[j] == Some(x);
    }
  }

  /** The closing figure is the equity curve's own maximum drawdown, in percent, whenever that is a number. */
  lemma ClosingFigureIsMaxDrawdown(samples: seq<Sample>, r: Report)
    requires samples != [] && Reports(r, samples, |samples|) && MaxDrawdownOf(Closes(samples)).Fraction?
    ensures r.closing.pct == Percent(MaxDrawdownOf(Closes(samples)).x)
  {
    var e := Closes(samples);
    FigureIsLargest(e);
    forall t | 0 <= t < |e|
      ensures Depths(e, e)[t].Some? <==> Losses(e)[t].Some?
      ensures Losses(e)[t].Some? ==> Depths(e, e)[t].value == Percent(Losses(e)[t].value)
    {
      ClosingDepth(e, t);
    }
    LargestInPercent(Depths(e, e), Losses(e), StepOf(r.closing), r.closing.pct, MaxDrawdownOf(e).x);
  }
}
