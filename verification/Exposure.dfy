/**
  Time in the market: the fraction of a window during which some position was open.
  Times are whole microseconds, so the measure of a union of holds is the number of
  microseconds it contains.
*/
module Exposure {
  import opened Options
  import opened Seqs

  datatype Hold = Hold(entry: int, exit: int)

  /** The microseconds from `a` up to, not including, `b`. */
  function Ticks(a: int, b: int): (ts: set<int>)
    ensures forall t :: t in ts <==> a <= t < b
    ensures |ts| == if a <= b then b - a else 0
    decreases b - a
  {
    if b <= a then {} else Ticks(a, b - 1) + {b - 1}
  }

  /** The union of all holding intervals. */
  ghost function Covered(holds: seq<Hold>): set<int> {
    if holds == [] then {} else Covered(holds[..|holds| - 1]) + Ticks(holds[|holds| - 1].entry, holds[|holds| - 1].exit)
  }

  lemma {:induction false} CoveredMembers(holds: seq<Hold>, t: int)
    ensures t in Covered(holds) <==> exists h :: h in holds && h.entry <= t < h.exit
  {
    if holds != [] {
      var front, last := holds[..|holds| - 1], holds[|holds| - 1];
      assert holds == front + [last];
      CoveredMembers(front, t);
    }
  }

  lemma CoveredIgnoresOrder(xs: seq<Hold>, ys: seq<Hold>)
    requires multiset(xs) == multiset(ys)
    ensures Covered(xs) == Covered(ys)
  {
    forall t ensures t in Covered(xs) <==> t in Covered(ys) {
      CoveredMembers(xs, t);
      CoveredMembers(ys, t);
      forall h | h in xs ensures h in ys { MultisetMember(xs, ys, h); }
      forall h | h in ys ensures h in xs { MultisetMember(ys, xs, h); }
    }
  }

  /** Tuples sort by entry, then exit. */
  function ByEntry(): (Hold, Hold) -> bool {
    (a: Hold, b: Hold) => a.entry < b.entry || (a.entry == b.entry && a.exit <= b.exit)
  }

  // ------------------------------------------------------------------------
  // Holds that end before they start
  // ------------------------------------------------------------------------

  /** Some hold begun earlier still runs at the entry of `h`. */
  ghost predicate RunsAt(holds: seq<Hold>, h: Hold) {
    exists f :: f in holds && f.entry < h.entry <= f.exit
  }

  /** What a hold takes off the figure: its length backwards, unless an earlier hold absorbs it. */
  ghost function Loss(holds: seq<Hold>, h: Hold): nat {
    if h.entry <= h.exit || RunsAt(holds, h) then 0 else h.entry - h.exit
  }

  ghost function LossTo(holds: seq<Hold>, n: nat): nat
    requires n <= |holds|
  {
    if n == 0 then 0 else LossTo(holds, n - 1) + Loss(holds, holds[n - 1])
  }

  /** What the holds that end before they start take off in all. */
  ghost function Lost(holds: seq<Hold>): nat {
    LossTo(Sorted(holds, ByEntry()), |Sorted(holds, ByEntry())|)
  }

  lemma {:induction false} NothingLostTo(holds: seq<Hold>, n: nat)
    requires n <= |holds|
    ensures LossTo(holds, n) == 0 <==> forall i :: 0 <= i < n ==> holds[i].entry <= holds[i].exit || RunsAt(holds, holds[i])
  {
    if n > 0 { NothingLostTo(holds, n - 1); }
  }

  /** Nothing is lost exactly when every hold that ends before it starts is absorbed by an earlier one. */
  lemma NothingLostIff(holds: seq<Hold>)
    ensures Lost(holds) == 0 <==> forall h :: h in holds ==> h.entry <= h.exit || RunsAt(holds, h)
  {
    var sorted := Sorted(holds, ByEntry());
    SortedSorts(holds, ByEntry());
    NothingLostTo(sorted, |sorted|);
    forall h ensures h in holds <==> h in sorted {
      if h in holds { MultisetMember(holds, sorted, h); }
      if h in sorted { MultisetMember(sorted, holds, h); }
    }
    assert forall h :: RunsAt(holds, h) <==> RunsAt(sorted, h);
  }

  // ------------------------------------------------------------------------
  // The single pass
  // ------------------------------------------------------------------------

  /** An interval starting inside the current one extends it. */
  lemma Overlapping(s: int, e: int, a: int, b: int)
    requires s <= a <= e
    ensures Ticks(s, e) + Ticks(a, b) == Ticks(s, if b > e then b else e)
  {
  }

  /** An interval adds its length to what lies before it. */
  lemma Closing(past: set<int>, s: int, e: int)
    requires forall t :: t in past ==> t < s
    ensures |past + Ticks(s, e)| == |past| + if s <= e then e - s else 0
  {
    assert past !! Ticks(s, e);
  }

  lemma CoveredOneMore(holds: seq<Hold>, i: nat)
    requires i < |holds|
    ensures Covered(holds[..i + 1]) == Covered(holds[..i]) + Ticks(holds[i].entry, holds[i].exit)
  {
    assert holds[..i + 1][..i] == holds[..i];
  }

  /** The first `n` holds, as the pass has them: closed ones before the current interval. */
  ghost predicate Current(holds: seq<Hold>, n: nat, s: int, e: int) {
    && 0 < n <= |holds|
    && (exists k :: 0 <= k < n && holds[k].exit == e)
    && (forall k :: 0 <= k < n ==> holds[k].exit <= e || holds[k].exit < s)
    && (forall k :: n <= k < |holds| ==> s <= holds[k].entry)
  }

  /** A backward hold falls inside the current interval exactly when an earlier hold absorbs it. */
  lemma AbsorbedIff(holds: seq<Hold>, n: nat, s: int, e: int)
    requires SortedBy(holds, ByEntry()) && Current(holds, n, s, e) && n < |holds| && holds[n].exit < holds[n].entry
    ensures holds[n].entry <= e <==> RunsAt(holds, holds[n])
  {
    var h := holds[n];
    if h.entry <= e {
      var k :| 0 <= k < n && holds[k].exit == e;
      assert ByEntry()(holds[k], h);
      assert holds[k] in holds && holds[k].entry < h.entry;
    }
    forall k | n < k < |holds| ensures h.entry <= holds[k].entry { assert ByEntry()(h, holds[k]); }
    if f :| f in holds && f.entry < h.entry <= f.exit {
      var k :| 0 <= k < |holds| && holds[k] == f;
    }
  }

  lemma CurrentExtends(holds: seq<Hold>, n: nat, s: int, e: int)
    requires Current(holds, n, s, e) && n < |holds| && holds[n].entry <= e
    ensures Current(holds, n + 1, s, if holds[n].exit > e then holds[n].exit else e)
  {
    var k :| 0 <= k < n && holds[k].exit == e;
    var top := if holds[n].exit > e then holds[n].exit else e;
    assert holds[if holds[n].exit > e then n else k].exit == top;
  }

  lemma CurrentMovesOn(holds: seq<Hold>, n: nat, s: int, e: int)
    requires SortedBy(holds, ByEntry()) && Current(holds, n, s, e) && n < |holds| && e < holds[n].entry
    ensures Current(holds, n + 1, holds[n].entry, holds[n].exit)
  {
    forall k | n + 1 <= k < |holds| ensures holds[n].entry <= holds[k].entry { assert ByEntry()(holds[n], holds[k]); }
  }

  /** The account so far: `past` is closed, and the figure is the union's measure less what is lost. */
  ghost predicate Merged(holds: seq<Hold>, n: nat, covered: int, s: int, e: int, past: set<int>) {
    && Current(holds, n, s, e)
    && Covered(holds[..n]) == past + Ticks(s, e) && (forall t :: t in past ==> t < s)
    && covered + (e - s) == |past + Ticks(s, e)| - LossTo(holds, n)
  }

  /** The union with an overlapping interval, and how much larger it is. */
  lemma UnionExtends(past: set<int>, s: int, e: int, a: int, b: int)
    requires s <= a <= e && forall t :: t in past ==> t < s
    ensures var top := if b > e then b else e;
      (past + Ticks(s, e)) + Ticks(a, b) == past + Ticks(s, top) && |past + Ticks(s, top)| == |past + Ticks(s, e)| + (top - e)
  {
    Overlapping(s, e, a, b);
    assert (past + Ticks(s, e)) + Ticks(a, b) == past + (Ticks(s, e) + Ticks(a, b));
    Closing(past, s, e);
    Closing(past, s, if b > e then b else e);
  }

  lemma MergedExtends(holds: seq<Hold>, n: nat, covered: int, s: int, e: int, past: set<int>)
    requires SortedBy(holds, ByEntry()) && Merged(holds, n, covered, s, e, past) && n < |holds| && holds[n].entry <= e
    ensures Merged(holds, n + 1, covered, s, if holds[n].exit > e then holds[n].exit else e, past)
  {
    var a, b := holds[n].entry, holds[n].exit;
    CoveredOneMore(holds, n);
    UnionExtends(past, s, e, a, b);
    CurrentExtends(holds, n, s, e);
    if b < a { AbsorbedIff(holds, n, s, e); }
  }

  lemma MergedMovesOn(holds: seq<Hold>, n: nat, covered: int, s: int, e: int, past: set<int>)
    requires SortedBy(holds, ByEntry()) && Merged(holds, n, covered, s, e, past) && n < |holds| && e < holds[n].entry
    ensures Merged(holds, n + 1, covered + (e - s), holds[n].entry, holds[n].exit, past + Ticks(s, e))
  {
    var a, b := holds[n].entry, holds[n].exit;
    CoveredOneMore(holds, n);
    CurrentMovesOn(holds, n, s, e);
    Closing(past + Ticks(s, e), a, b);
    if b < a { AbsorbedIff(holds, n, s, e); }
  }

  lemma MergedStarts(holds: seq<Hold>)
    requires SortedBy(holds, ByEntry()) && holds != []
    ensures Merged(holds, 1, 0, holds[0].entry, holds[0].exit, {})
  {
    var h := holds[0];
    CoveredOneMore(holds, 0);
    assert Covered(holds[..1]) == Ticks(h.entry, h.exit) && {} + Ticks(h.entry, h.exit) == Ticks(h.entry, h.exit);
    forall k | 1 <= k < |holds| ensures h.entry <= holds[k].entry { assert ByEntry()(h, holds[k]); }
    forall f | f in holds ensures h.entry <= f.entry {
      var k :| 0 <= k < |holds| && holds[k] == f;
    }
    assert LossTo(holds, 1) == Loss(holds, h);
  }

  /**
    The single pass over sorted intervals accumulates the measure of their union, less the
    length of every interval that runs backwards and falls inside no earlier one.
  */
  method MergeSorted(holds: seq<Hold>) returns (covered: int)
    requires SortedBy(holds, ByEntry())
    ensures covered == |Covered(holds)| - LossTo(holds, |holds|)
  {
    covered := 0;
    if holds == [] { return; }
    var curStart, curEnd := holds[0].entry, holds[0].exit;
    ghost var past: set<int> := {};
    MergedStarts(holds);
    for i := 1 to |holds|
      invariant Merged(holds, i, covered, curStart, curEnd, past)
    {
      var a, b := holds[i].entry, holds[i].exit;
      if a <= curEnd {
        MergedExtends(holds, i, covered, curStart, curEnd, past);
        curEnd := if b > curEnd then b else curEnd;
      } else {
        MergedMovesOn(holds, i, covered, curStart, curEnd, past);
        covered := covered + (curEnd - curStart);
        past := past + Ticks(curStart, curEnd);
        curStart, curEnd := a, b;
      }
    }
    assert holds[..|holds|] == holds;
    covered := covered + (curEnd - curStart);
  }

  /** The measure of what is held, less what backward holds take off, over the window's length; one at most. */
  ghost function Figure(holds: seq<Hold>, total: int): real
    requires total > 0
  {
    Capped(|Covered(holds)| - Lost(holds), total)
  }

  /** No table, no window, or an empty window: exposure is reported as zero. */
  predicate Measurable(trades: Option<seq<Hold>>, start: Option<int>, end: Option<int>) {
    trades.Some? && trades.value != [] && start.Some? && end.Some? && start.value < end.value
  }

  method MeasureOf(holds: seq<Hold>) returns (covered: int)
    ensures covered == |Covered(holds)| - Lost(holds)
  {
    var sorted := Sorted(holds, ByEntry());
    SortedSorts(holds, ByEntry());
    CoveredIgnoresOrder(holds, sorted);
    covered := MergeSorted(sorted);
  }

  method Exposure(trades: Option<seq<Hold>>, start: Option<int>, end: Option<int>) returns (fraction: real)
    ensures !Measurable(trades, start, end) ==> fraction == 0.0
    ensures Measurable(trades, start, end) ==>
      && fraction == Figure(trades.value, end.value - start.value)
      && IsShare(fraction, |Covered(trades.value)| - Lost(trades.value), end.value - start.value)
  {
    if trades.None? || trades.value == [] { return 0.0; }
    if start.None? || end.None? { return 0.0; }
    var total := end.value - start.value;
    if total <= 0 { return 0.0; }
    var covered := MeasureOf(trades.value);
    fraction := Capped(covered, total);
    CappedIsShare(covered, total);
  }

  /** The part of a whole, never more than all of it. */
  ghost predicate IsShare(x: real, part: int, whole: int)
    requires whole > 0
  {
    if part < whole then x * whole as real == part as real else x == 1.0
  }

  lemma CappedIsShare(part: int, whole: int)
    requires whole > 0
    ensures IsShare(Capped(part, whole), part, whole)
  {
    RatioOrder(part, whole, whole);
    WholeFraction(whole);
    UndoFraction(part, whole);
  }

  lemma UndoFraction(part: int, whole: int)
    requires whole > 0
    ensures (part as real / whole as real) * whole as real == part as real
  {
  }

  function Capped(covered: int, total: int): real
    requires total > 0
  {
    if covered as real / total as real < 1.0 then covered as real / total as real else 1.0
  }

  lemma RatioOrder(a: int, b: int, n: int)
    requires n > 0
    ensures a < b <==> a as real / n as real < b as real / n as real
  {
    var x, y, d := a as real / n as real, b as real / n as real, n as real;
    assert x * d == a as real && y * d == b as real;
    if x < y { assert x * d < y * d; } else { assert x * d >= y * d; }
  }

  /** A set split on what it shares with a window. */
  lemma Overlap(c: set<int>, w: set<int>)
    ensures |c| == |c * w| + |c - w| && |c * w| <= |w|
    ensures |c * w| == |w| <==> w <= c
  {
    assert c == c * w + (c - w) && w == c * w + (w - c);
    assert |w| == |c * w| + |w - c|;
    if |w - c| == 0 { assert w - c == {}; }
  }

  function Fraction(part: int, total: int): real
    requires total > 0
  {
    part as real / total as real
  }

  lemma WholeFraction(n: int)
    requires n > 0
    ensures Fraction(n, n) == 1.0
  {
    var x := n as real;
    assert x / x == 1.0;
  }

  /** Of `shared + outside - lost` over `n`: what is outside must be what is lost, unless the cap hides it. */
  lemma CappedEquals(shared: nat, outside: nat, lost: nat, n: nat)
    requires 0 < n && shared <= n
    ensures Capped(shared + outside - lost, n) == Fraction(shared, n) <==> outside == lost || (shared == n && outside >= lost)
  {
    var all := shared + outside - lost;
    RatioOrder(all, n, n);
    RatioOrder(shared, all, n);
    RatioOrder(all, shared, n);
    RatioOrder(shared, n, n);
    WholeFraction(n);
  }

  lemma CappedShare(c: set<int>, w: set<int>, lost: nat, n: int, figure: real)
    requires n == |w| > 0 && figure == Capped(|c| - lost, n)
    ensures figure == Fraction(|c * w|, n) <==> |c - w| == lost || (w <= c && |c - w| >= lost)
  {
    Overlap(c, w);
    CappedEquals(|c * w|, |c - w|, lost, n);
  }

  /** The moments of a window. */
  ghost predicate IsWindow(w: set<int>, start: int, total: int) {
    forall t :: t in w <==> start <= t < start + total
  }

  lemma WindowMeasure(w: set<int>, start: int, total: nat)
    requires IsWindow(w, start, total)
    ensures |w| == total
  {
    assert w == Ticks(start, start + total);
  }

  /**
    The figure is described as the fraction of the window with a position open. Holds are
    not clipped to the window, and a hold recorded backwards is subtracted, so that is what
    it is exactly when as much is held outside the window as is lost, or the whole window
    is held and at least as much outside as is lost.
  */
  lemma ExposureIsFractionOfWindow(holds: seq<Hold>, w: set<int>, start: int, total: int)
    requires total > 0 && IsWindow(w, start, total)
    ensures var c := Covered(holds);
      (Figure(holds, total) == Fraction(|c * w|, total)) <==> |c - w| == Lost(holds) || (w <= c && |c - w| >= Lost(holds))
  {
    WindowMeasure(w, start, total);
    CappedShare(Covered(holds), w, Lost(holds), total, Figure(holds, total));
  }

  lemma OneHold(h: Hold)
    ensures Covered([h]) == Ticks(h.entry, h.exit)
  {
    assert [h][..0] == [] && Covered([h][..0]) == {};
  }

  lemma SomeFractions()
    ensures Fraction(0, 5) == 0.0 && Capped(10, 5) == 1.0 && Fraction(4, 10) == 0.4 && Capped(2, 10) == 0.2
  {
  }

  /** Concretely: nothing is held in a window that ends before the only hold begins, and the figure is one. */
  lemma HoldOutsideCountsFully()
    ensures var c, w := Covered([Hold(10, 20)]), Ticks(0, 5);
      Lost([Hold(10, 20)]) == 0 && |c| == 10 && |c * w| == 0 && Fraction(|c * w|, 5) == 0.0 && Figure([Hold(10, 20)], 5) == 1.0
  {
    OneHold(Hold(10, 20));
    assert Ticks(10, 20) * Ticks(0, 5) == {};
    NothingLostIff([Hold(10, 20)]);
    SomeFractions();
  }

  /** Concretely: a hold recorded backwards makes the figure negative. */
  lemma BackwardHoldGoesNegative()
    ensures Lost([Hold(5, 2)]) == 3 && |Covered([Hold(5, 2)])| == 0 && Figure([Hold(5, 2)], 10) < 0.0
  {
    var holds := [Hold(5, 2)];
    assert holds[..0] == [] && Covered(holds) == Ticks(5, 2);
    assert Sorted(holds, ByEntry()) == holds;
    assert Loss(holds, holds[0]) == 3;
    assert LossTo(holds, 0) == 0;
  }

  lemma ForwardThenBackward()
    ensures Lost([Hold(0, 4), Hold(8, 6)]) == 2
  {
    var holds := [Hold(0, 4), Hold(8, 6)];
    assert Sorted(holds[1..], ByEntry()) == [Hold(8, 6)];
    assert Sorted(holds, ByEntry()) == holds;
    assert LossTo(holds, 0) == 0 && LossTo(holds, 1) == 0 && Loss(holds, holds[1]) == 2;
  }

  lemma ForwardIsCovered()
    ensures Covered([Hold(0, 4), Hold(8, 6)]) == Ticks(0, 4)
  {
    var holds := [Hold(0, 4), Hold(8, 6)];
    assert holds[..1] == [Hold(0, 4)];
    OneHold(Hold(0, 4));
    assert Covered(holds) == Ticks(0, 4) + Ticks(8, 6);
  }

  /** Concretely: beside a hold inside the window, one recorded backwards halves the figure. */
  lemma BackwardHoldHalves()
    ensures var holds, w := [Hold(0, 4), Hold(8, 6)], Ticks(0, 10);
      Covered(holds) <= w && Fraction(|Covered(holds) * w|, 10) == 0.4 && Figure(holds, 10) == 0.2
  {
    ForwardThenBackward();
    ForwardIsCovered();
    assert Ticks(0, 4) * Ticks(0, 10) == Ticks(0, 4);
    SomeFractions();
  }
}
