/** The shape of an equity curve: drawdowns from the running peak, and time underwater. */
module Drawdown {

  function Max(x: real, y: real): real { if x < y then y else x }

  function Abs(x: real): real { if x < 0.0 then -x else x }

  /** `cummax`: the running maximum up to and including point `j`. */
  function Peak(e: seq<real>, j: nat): real
    requires j < |e|
  {
    if j == 0 then e[0] else Max(Peak(e, j - 1), e[j])
  }

  lemma {:induction false} PeakIsMaximum(e: seq<real>, j: nat) returns (top: nat)
    requires j < |e|
    ensures forall i :: 0 <= i <= j ==> e[i] <= Peak(e, j)
    ensures top <= j && e[top] == Peak(e, j)
  {
    if j == 0 {
      top := 0;
    } else {
      top := PeakIsMaximum(e, j - 1);
      if Peak(e, j - 1) < e[j] { top := j; }
    }
  }

  lemma PeakFromStart(e: seq<real>, j: nat)
    requires j < |e|
    ensures e[0] <= Peak(e, j)
  {
    var top := PeakIsMaximum(e, j);
  }

  // ------------------------------------------------------------------------
  // Depth
  // ------------------------------------------------------------------------

  /** A curve whose running peaks are all positive. */
  predicate Funded(e: seq<real>) {
    e != [] && e[0] > 0.0
  }

  /** Per-point drawdown as a non-positive fraction of the running peak. */
  function DrawdownAt(e: seq<real>, j: nat): (d: real)
    requires Funded(e) && j < |e|
    ensures Peak(e, j) > 0.0
  {
    PeakFromStart(e, j);
    (e[j] - Peak(e, j)) / Peak(e, j)
  }

  /** `drawdown_series(...).min()` over the first `n` points. */
  function MinDrawdown(e: seq<real>, n: nat): real
    requires Funded(e) && 0 < n <= |e|
  {
    if n == 1 then DrawdownAt(e, 0)
    else if DrawdownAt(e, n - 1) < MinDrawdown(e, n - 1) then DrawdownAt(e, n - 1) else MinDrawdown(e, n - 1)
  }

  function MaxDrawdown(e: seq<real>): real
    requires e != [] ==> Funded(e)
  {
    if e == [] then 0.0 else Abs(MinDrawdown(e, |e|))
  }

  function FractionLost(from: real, to: real): real
    requires from != 0.0
  {
    (from - to) / from
  }

  lemma QuotientOfNegative(x: real, p: real)
    requires p != 0.0
    ensures (-x) / p == -(x / p)
  {
  }

  lemma QuotientSign(x: real, p: real)
    requires p > 0.0 && x >= 0.0
    ensures x / p >= 0.0
  {
  }

  lemma Scale(a: real, x: real, y: real)
    requires a >= 0.0 && x <= y
    ensures a * x <= a * y
  {
  }

  lemma ScaleLess(x: real, y: real, p: real)
    requires p > 0.0 && x < y
    ensures x * p < y * p
  {
  }

  lemma Cancel(x: real, y: real, p: real)
    requires p > 0.0 && x * p == y * p
    ensures x == y
  {
    if x < y { ScaleLess(x, y, p); }
    if y < x { ScaleLess(y, x, p); }
  }

  lemma CancelLeq(x: real, y: real, p: real)
    requires p > 0.0 && x * p <= y * p
    ensures x <= y
  {
    if y < x { ScaleLess(y, x, p); }
  }

  /** A larger divisor gives the smaller quotient. */
  lemma QuotientFalls(to: real, low: real, high: real)
    requires 0.0 < low <= high && to >= 0.0
    ensures to / high <= to / low
  {
    var p, q := to / low, to / high;
    assert p * low == to && q * high == to;
    QuotientSign(to, low);
    Scale(p, low, high);
    if p < q { ScaleLess(p, q, high); }
  }

  lemma LossIsRest(from: real, to: real)
    requires from > 0.0
    ensures FractionLost(from, to) == 1.0 - to / from
  {
    var kept, lost := to / from, FractionLost(from, to);
    assert kept * from == to && lost * from == from - to;
    var rest := 1.0 - kept;
    assert rest * from == lost * from;
    Cancel(lost, rest, from);
  }

  /** Losing to the same level from a higher start is the larger fraction. */
  lemma HigherStartLosesMore(low: real, high: real, to: real)
    requires 0.0 < low <= high && to >= 0.0
    ensures FractionLost(low, to) <= FractionLost(high, to)
  {
    LossIsRest(low, to);
    LossIsRest(high, to);
    QuotientFalls(to, low, high);
  }

  /** The fraction lost from an earlier point to a later or the same one. */
  ghost predicate IsPairLoss(e: seq<real>, i: int, j: int, loss: real) {
    0 <= i <= j < |e| && e[i] > 0.0 && loss == FractionLost(e[i], e[j])
  }

  // ------------------------------------------------------------------------
  // Any curve at all
  // ------------------------------------------------------------------------

  /** Over a zero peak the quotient of floats is no number, or minus infinity. */
  datatype Depth = NoNumber | MinusInfinity | Finite(d: real)

  function DepthOf(e: seq<real>, j: nat): Depth
    requires j < |e|
  {
    var p := Peak(e, j);
    if p != 0.0 then Finite((e[j] - p) / p) else if e[j] < 0.0 then MinusInfinity else NoNumber
  }

  /** `min` of two, skipping what is no number. */
  function Lesser(a: Depth, b: Depth): Depth {
    if a.NoNumber? then b
    else if b.NoNumber? then a
    else if a.MinusInfinity? || b.MinusInfinity? then MinusInfinity
    else if a.d < b.d then a else b
  }

  function LeastDepth(e: seq<real>, n: nat): Depth
    requires n <= |e|
  {
    if n == 0 then NoNumber else Lesser(LeastDepth(e, n - 1), DepthOf(e, n - 1))
  }

  datatype Figure = Undefined | Infinite | Fraction(x: real)

  /** `max_drawdown`. */
  function MaxDrawdownOf(e: seq<real>): Figure {
    if e == [] then Fraction(0.0) else
      match LeastDepth(e, |e|)
      case NoNumber => Undefined
      case MinusInfinity => Infinite
      case Finite(d) => Fraction(Abs(d))
  }

  lemma {:induction false} LeastDepthIsLeast(e: seq<real>, n: nat)
    requires n <= |e|
    ensures LeastDepth(e, n) == NoNumber <==> forall j :: 0 <= j < n ==> DepthOf(e, j) == NoNumber
    ensures LeastDepth(e, n) == MinusInfinity <==> exists j :: 0 <= j < n && DepthOf(e, j) == MinusInfinity
    ensures LeastDepth(e, n).Finite? ==>
      && (exists j :: 0 <= j < n && DepthOf(e, j) == LeastDepth(e, n))
      && (forall j :: 0 <= j < n && DepthOf(e, j).Finite? ==> LeastDepth(e, n).d <= DepthOf(e, j).d)
  {
    if n > 0 { LeastDepthIsLeast(e, n - 1); }
  }

  /** Over a positive peak a depth is a loss; over a negative one it is nothing to speak of. */
  lemma DepthIsLoss(e: seq<real>, j: nat)
    requires j < |e|
    ensures Peak(e, j) > 0.0 ==> DepthOf(e, j) == Finite(-FractionLost(Peak(e, j), e[j])) && FractionLost(Peak(e, j), e[j]) >= 0.0
    ensures Peak(e, j) < 0.0 ==> DepthOf(e, j).Finite? && DepthOf(e, j).d >= 0.0
  {
    var top := PeakIsMaximum(e, j);
    var p := Peak(e, j);
    if p > 0.0 {
      QuotientOfNegative(p - e[j], p);
      assert -(p - e[j]) == e[j] - p;
      QuotientSign(p - e[j], p);
    } else if p < 0.0 {
      QuotientSign(p - e[j], -p);
      NegatedQuotient(e[j] - p, p);
    }
  }

  lemma NegatedQuotient(x: real, p: real)
    requires p != 0.0
    ensures x / p == (-x) / (-p)
  {
  }

  /** The first point is no depth, or none at all. */
  lemma FirstDepth(e: seq<real>)
    requires e != []
    ensures DepthOf(e, 0) == if e[0] == 0.0 then NoNumber else Finite(0.0)
  {
    assert e[0] != 0.0 ==> (e[0] - e[0]) / e[0] == 0.0;
  }

  lemma PeaksRise(e: seq<real>, i: nat, j: nat)
    requires i <= j < |e|
    ensures Peak(e, i) <= Peak(e, j)
  {
    var top := PeakIsMaximum(e, j);
    var at := PeakIsMaximum(e, i);
  }

  /** Some depth is not above zero, whenever there is any. */
  lemma LeastIsNotPositive(e: seq<real>)
    requires e != [] && LeastDepth(e, |e|).Finite?
    ensures LeastDepth(e, |e|).d <= 0.0
  {
    LeastDepthIsLeast(e, |e|);
    FirstDepth(e);
    var j :| 0 <= j < |e| && DepthOf(e, j) == LeastDepth(e, |e|);
    PeaksRise(e, 0, j);
    DepthIsLoss(e, j);
  }

  /**
    What the figure is for every curve. It is infinite when equity falls below a peak of
    zero, undefined when the curve is zero throughout, and otherwise the deepest fall from
    a positive running peak, zero if there is none.
  */
  lemma FigureIsDeepestFall(e: seq<real>)
    requires e != []
    ensures MaxDrawdownOf(e).Infinite? <==> exists j :: 0 <= j < |e| && Peak(e, j) == 0.0 && e[j] < 0.0
    ensures MaxDrawdownOf(e).Undefined? <==> forall j :: 0 <= j < |e| ==> Peak(e, j) == 0.0 && e[j] >= 0.0
    ensures MaxDrawdownOf(e).Fraction? ==>
      var x := MaxDrawdownOf(e).x;
      && x >= 0.0
      && (x > 0.0 ==> exists j :: 0 <= j < |e| && Peak(e, j) > 0.0 && FractionLost(Peak(e, j), e[j]) == x)
      && (forall j :: 0 <= j < |e| && Peak(e, j) > 0.0 ==> FractionLost(Peak(e, j), e[j]) <= x)
  {
    LeastDepthIsLeast(e, |e|);
    forall j | 0 <= j < |e|
      ensures Peak(e, j) > 0.0 ==> DepthOf(e, j) == Finite(-FractionLost(Peak(e, j), e[j]))
      ensures Peak(e, j) < 0.0 ==> DepthOf(e, j).Finite? && DepthOf(e, j).d >= 0.0
    {
      DepthIsLoss(e, j);
    }
    if j :| 0 <= j < |e| && DepthOf(e, j) == MinusInfinity { assert Peak(e, j) == 0.0 && e[j] < 0.0; }
    if j :| 0 <= j < |e| && Peak(e, j) == 0.0 && e[j] < 0.0 { assert DepthOf(e, j) == MinusInfinity; }
    assert forall j :: 0 <= j < |e| ==> (DepthOf(e, j) == NoNumber <==> Peak(e, j) == 0.0 && e[j] >= 0.0);
    if MaxDrawdownOf(e).Fraction? { LeastIsNotPositive(e); }
  }

  lemma {:induction false} FundedFigure(e: seq<real>, n: nat)
    requires Funded(e) && 0 < n <= |e|
    ensures LeastDepth(e, n) == Finite(MinDrawdown(e, n))
  {
    PeakFromStart(e, n - 1);
    assert DepthOf(e, n - 1) == Finite(DrawdownAt(e, n - 1));
    if n == 1 {
      assert LeastDepth(e, 0) == NoNumber && LeastDepth(e, 1) == DepthOf(e, 0);
    } else {
      FundedFigure(e, n - 1);
    }
  }

  /** On a curve that starts funded it is the plain minimum. */
  lemma FundedFigureIsFraction(e: seq<real>)
    requires Funded(e)
    ensures MaxDrawdownOf(e) == Fraction(MaxDrawdown(e))
  {
    FundedFigure(e, |e|);
  }

  /** A loss down to a level that is not negative is no larger than the loss from the running peak. */
  lemma PeakLosesMost(e: seq<real>, i: nat, j: nat)
    requires i <= j < |e| && e[i] > 0.0 && e[j] >= 0.0
    ensures Peak(e, j) > 0.0 && FractionLost(e[i], e[j]) <= FractionLost(Peak(e, j), e[j])
  {
    var at := PeakIsMaximum(e, j);
    HigherStartLosesMore(e[i], Peak(e, j), e[j]);
  }

  /** The loss over every pair that ends in debt is within `x`. */
  ghost predicate DebtsWithin(e: seq<real>, x: real) {
    forall i, j :: 0 <= i <= j < |e| && e[i] > 0.0 && e[j] < 0.0 ==> FractionLost(e[i], e[j]) <= x
  }

  /**
    On any curve with a positive point and a finite figure, some pair of an earlier and a
    later point loses exactly the figure. No pair loses more if and only if none does that
    ends with negative equity.
  */
  lemma WorstPairIff(e: seq<real>) returns (from: nat, to: nat)
    requires MaxDrawdownOf(e).Fraction? && exists j :: 0 <= j < |e| && e[j] > 0.0
    ensures IsPairLoss(e, from, to, MaxDrawdownOf(e).x)
    ensures (forall i, j, loss :: IsPairLoss(e, i, j, loss) ==> loss <= MaxDrawdownOf(e).x) <==> DebtsWithin(e, MaxDrawdownOf(e).x)
  {
    FigureIsDeepestFall(e);
    var x := MaxDrawdownOf(e).x;
    if x > 0.0 {
      to :| 0 <= to < |e| && Peak(e, to) > 0.0 && FractionLost(Peak(e, to), e[to]) == x;
      from := PeakIsMaximum(e, to);
    } else {
      from :| 0 <= from < |e| && e[from] > 0.0;
      to := from;
      assert FractionLost(e[from], e[from]) == 0.0;
    }
    forall i, j, loss | IsPairLoss(e, i, j, loss) && e[j] >= 0.0 ensures loss <= x { PeakLosesMost(e, i, j); }
    forall i, j | 0 <= i <= j < |e| && e[i] > 0.0 && e[j] < 0.0
      ensures IsPairLoss(e, i, j, FractionLost(e[i], e[j]))
    {
    }
  }

  /**
    The running-peak drawdown is the worst loss over all pairs of an earlier and a later
    point, for every curve that is never negative and not zero throughout.
  */
  lemma MaxDrawdownIsWorstPair(e: seq<real>) returns (from: nat, to: nat)
    requires forall j :: 0 <= j < |e| ==> e[j] >= 0.0
    requires exists j :: 0 <= j < |e| && e[j] > 0.0
    ensures MaxDrawdownOf(e).Fraction? && IsPairLoss(e, from, to, MaxDrawdownOf(e).x)
    ensures forall i, j, loss :: IsPairLoss(e, i, j, loss) ==> loss <= MaxDrawdownOf(e).x
  {
    FigureIsDeepestFall(e);
    var k :| 0 <= k < |e| && e[k] > 0.0;
    var top := PeakIsMaximum(e, k);
    from, to := WorstPairIff(e);
  }

  /** Negative equity is the exception: the lower start then loses the larger fraction of itself. */
  lemma NegativeEquityBreaksPairs()
    ensures MaxDrawdownOf([1.0, 2.0, -1.0]) == Fraction(1.5) && IsPairLoss([1.0, 2.0, -1.0], 0, 2, 2.0)
  {
    var e := [1.0, 2.0, -1.0];
    assert Peak(e, 0) == 1.0 && Peak(e, 1) == 2.0 && Peak(e, 2) == 2.0;
    assert MinDrawdown(e, 1) == 0.0 && MinDrawdown(e, 2) == 0.0 && DrawdownAt(e, 2) == -1.5;
    FundedFigureIsFraction(e);
  }

  /** `(cummax - equity).max()` over the first `n` points. */
  function MaxFall(e: seq<real>, n: nat): real
    requires 0 < n <= |e|
  {
    if n == 1 then Peak(e, 0) - e[0] else Max(MaxFall(e, n - 1), Peak(e, n - 1) - e[n - 1])
  }

  function MaxDrawdownDollars(e: seq<real>): real {
    if e == [] then 0.0 else MaxFall(e, |e|)
  }

  /** An empty curve has not fallen. */
  lemma NothingHasFallen()
    ensures MaxDrawdownOf([]) == Fraction(0.0) && MaxDrawdownDollars([]) == 0.0
  {
  }

  lemma {:induction false} MaxFallIsWorst(e: seq<real>, n: nat) returns (from: nat, to: nat)
    requires 0 < n <= |e|
    ensures from <= to < n && MaxFall(e, n) == e[from] - e[to]
    ensures forall i, j :: 0 <= i <= j < n ==> e[i] - e[j] <= MaxFall(e, n)
  {
    var top := PeakIsMaximum(e, n - 1);
    if n == 1 {
      from, to := 0, 0;
    } else {
      from, to := MaxFallIsWorst(e, n - 1);
      if MaxFall(e, n - 1) < Peak(e, n - 1) - e[n - 1] { from, to := top, n - 1; }
    }
  }

  /** In currency the same holds for every curve at all, negative equity included. */
  lemma DollarDrawdownIsWorstPair(e: seq<real>) returns (from: nat, to: nat)
    requires e != []
    ensures from <= to < |e| && MaxDrawdownDollars(e) == e[from] - e[to]
    ensures forall i, j :: 0 <= i <= j < |e| ==> e[i] - e[j] <= MaxDrawdownDollars(e)
  {
    from, to := MaxFallIsWorst(e, |e|);
  }

  // ------------------------------------------------------------------------
  // Duration
  // ------------------------------------------------------------------------

  /** Every point from `a` up to `b` is marked. */
  ghost predicate Stretch(marked: nat -> bool, n: nat, a: nat, b: nat) {
    a <= b <= n && forall k: nat :: a <= k < b ==> marked(k)
  }

  /** `r` is the length of the longest stretch of marked points among the first `n`. */
  ghost predicate IsLongest(marked: nat -> bool, n: nat, r: nat) {
    && (exists a: nat, b: nat :: Stretch(marked, n, a, b) && b - a == r)
    && (forall a: nat, b: nat :: Stretch(marked, n, a, b) ==> b - a <= r)
  }

  /** The longest stretch so far, and the one now running, which no earlier point extends. */
  ghost predicate RunState(marked: nat -> bool, n: nat, longest: nat, current: nat) {
    && IsLongest(marked, n, longest)
    && current <= n && Stretch(marked, n, n - current, n)
    && (current < n ==> !marked(n - current - 1))
  }

  lemma RunStep(marked: nat -> bool, n: nat, longest: nat, current: nat)
    requires RunState(marked, n, longest, current)
    ensures var now := if marked(n) then current + 1 else 0;
            RunState(marked, n + 1, if now > longest then now else longest, now)
  {
    var now := if marked(n) then current + 1 else 0;
    var best := if now > longest then now else longest;
    var m := n + 1;
    var a0: nat, b0: nat :| Stretch(marked, n, a0, b0) && b0 - a0 == longest;
    assert Stretch(marked, m, a0, b0);
    assert Stretch(marked, m, m - now, m);
    forall a: nat, b: nat | Stretch(marked, m, a, b) ensures b - a <= best {
      if b <= n {
        assert Stretch(marked, n, a, b);
      } else if a < b {
        assert marked(n);
        assert current < n ==> !(a <= n - current - 1 < b);
      }
    }
  }

  lemma RunStart(marked: nat -> bool)
    ensures RunState(marked, 0, 0, 0)
  {
    assert Stretch(marked, 0, 0, 0);
    assert forall a: nat, b: nat :: Stretch(marked, 0, a, b) ==> b - a <= 0;
  }

  /** Point `k` lies below some earlier point. */
  ghost predicate BelowEarlier(e: seq<real>, k: nat) {
    k < |e| && exists i :: 0 <= i < k && e[i] > e[k]
  }

  ghost function BelowEarlierIn(e: seq<real>): nat -> bool {
    (k: nat) => BelowEarlier(e, k)
  }

  lemma UnderwaterIsBelowEarlier(e: seq<real>, k: nat)
    requires k < |e|
    ensures e[k] < Peak(e, k) <==> BelowEarlier(e, k)
  {
    var top := PeakIsMaximum(e, k);
  }

  /** Longest run of consecutive points below some earlier point. */
  method MaxDrawdownDuration(e: seq<real>) returns (longest: nat)
    ensures IsLongest(BelowEarlierIn(e), |e|, longest)
  {
    longest := 0;
    RunStart(BelowEarlierIn(e));
    if |e| < 2 {
      if |e| == 1 { RunStep(BelowEarlierIn(e), 0, 0, 0); }
      return;
    }
    var current, peak := 0, e[0];
    for k := 0 to |e|
      invariant RunState(BelowEarlierIn(e), k, longest, current)
      invariant k > 0 ==> peak == Peak(e, k - 1)
    {
      peak := if k == 0 then e[0] else Max(peak, e[k]);
      UnderwaterIsBelowEarlier(e, k);
      RunStep(BelowEarlierIn(e), k, longest, current);
      current := if e[k] < peak then current + 1 else 0;
      longest := if current > longest then current else longest;
    }
  }

  predicate Hit(pnl: seq<real>, winning: bool, k: nat) {
    k < |pnl| && if winning then pnl[k] > 0.0 else pnl[k] < 0.0
  }

  function HitsIn(pnl: seq<real>, winning: bool): nat -> bool {
    (k: nat) => Hit(pnl, winning, k)
  }

  /** Longest run of consecutive winning, or losing, trades. */
  method Consecutive(pnl: seq<real>, winning: bool) returns (longest: nat)
    ensures IsLongest(HitsIn(pnl, winning), |pnl|, longest)
  {
    longest := 0;
    var current := 0;
    RunStart(HitsIn(pnl, winning));
    for k := 0 to |pnl|
      invariant RunState(HitsIn(pnl, winning), k, longest, current)
    {
      RunStep(HitsIn(pnl, winning), k, longest, current);
      var hit := if winning then pnl[k] > 0.0 else pnl[k] < 0.0;
      current := if hit then current + 1 else 0;
      longest := if current > longest then current else longest;
    }
  }
}
