/** One pair of recorded return series: their overlap, and the correlation or the refusal. */
module SeriesPairs {
  import opened Options
  import opened Seqs

  /** A recorded series; the values are `None` where not finite. */
  datatype Entry = Entry(id: string, dates: Option<seq<string>>, values: Option<seq<Option<real>>>, accounting: Option<int>)

  datatype Coefficient = NaN | Value(r: real)

  /** `corrcoef` over the shared points, whatever it makes of them. */
  type Correlation = (seq<real>, seq<real>) -> Coefficient

  datatype Outcome = NoSeries(id: string) | OtherAccounting | TooShort | Flat | Compared(r: Coefficient, comparable: bool)

  datatype Pair = Pair(a: string, b: string, outcome: Outcome, overlap: nat)

  predicate HasSeries(e: Entry) {
    e.dates.Some? && e.dates.value != [] && e.values.Some? && e.values.value != []
  }

  /** `dict(zip(dates, values))`: cut to the shorter, a repeated date keeps its last value. */
  function ByDate(dates: seq<string>, values: seq<Option<real>>): map<string, Option<real>> {
    if dates == [] || values == [] then map[]
    else
      var n := if |dates| < |values| then |dates| else |values|;
      ByDate(dates[..n - 1], values[..n - 1])[dates[n - 1] := values[n - 1]]
  }

  /** The dates both series carry a finite value on, in order. */
  predicate Usable(a: map<string, Option<real>>, b: map<string, Option<real>>, d: string) {
    d in a && d in b && a[d].Some? && b[d].Some?
  }

  function SortedDates(dates: seq<string>): seq<string> {
    Sorted(FromKeys(dates), Alphabetical())
  }

  function SharedDates(left: Entry, right: Entry): seq<string>
    requires HasSeries(left) && HasSeries(right)
  {
    var a, b := ByDate(left.dates.value, left.values.value), ByDate(right.dates.value, right.values.value);
    Filter(SortedDates(left.dates.value), (d: string) => Usable(a, b, d))
  }

  function Points(m: map<string, Option<real>>, dates: seq<string>): (xs: seq<real>)
    ensures |xs| == |dates|
  {
    seq(|dates|, i requires 0 <= i < |dates| => if dates[i] in m && m[dates[i]].Some? then m[dates[i]].value else 0.0)
  }

  /** A standard deviation of zero: at least one point, and all the same. */
  predicate DoesNotVary(xs: seq<real>) {
    xs != [] && forall i :: 0 <= i < |xs| ==> xs[i] == xs[0]
  }

  function LeftPoints(left: Entry, right: Entry): seq<real>
    requires HasSeries(left) && HasSeries(right)
  {
    Points(ByDate(left.dates.value, left.values.value), SharedDates(left, right))
  }

  function RightPoints(left: Entry, right: Entry): seq<real>
    requires HasSeries(left) && HasSeries(right)
  {
    Points(ByDate(right.dates.value, right.values.value), SharedDates(left, right))
  }

  function Compare(left: Entry, right: Entry, minOverlap: int, across: bool, corr: Correlation): (p: Pair)
    ensures p.a == left.id && p.b == right.id
  {
    if !HasSeries(left) then Pair(left.id, right.id, NoSeries(left.id), 0)
    else if !HasSeries(right) then Pair(left.id, right.id, NoSeries(right.id), 0)
    else if left.accounting != right.accounting && !across then Pair(left.id, right.id, OtherAccounting, 0)
    else
      var x, y := LeftPoints(left, right), RightPoints(left, right);
      if |x| < minOverlap then Pair(left.id, right.id, TooShort, |x|)
      else if DoesNotVary(x) || DoesNotVary(y) then Pair(left.id, right.id, Flat, |x|)
      else Pair(left.id, right.id, Compared(corr(x, y), left.accounting == right.accounting), |x|)
  }

  /** Some date and some value were recorded. */
  ghost predicate IsRecorded(e: Entry) {
    e.dates.Some? && |e.dates.value| > 0 && e.values.Some? && |e.values.value| > 0
  }

  /** A pair is refused for the first thing that rules it out, and compared when nothing does. */
  lemma VerdictIsExact(left: Entry, right: Entry, minOverlap: int, across: bool, corr: Correlation)
    ensures var p := Compare(left, right, minOverlap, across, corr);
      var both, sameBasis := IsRecorded(left) && IsRecorded(right), across || left.accounting == right.accounting;
      && (!IsRecorded(left) ==> p.outcome == NoSeries(left.id)) && (IsRecorded(left) && !both ==> p.outcome == NoSeries(right.id))
      && (p.outcome.NoSeries? <==> !both)
      && (p.outcome.OtherAccounting? <==> both && !sameBasis)
      && (!both || !sameBasis ==> p.overlap == 0)
      && (both && sameBasis ==>
            var x, y := LeftPoints(left, right), RightPoints(left, right);
            var flat := (forall i :: 0 < i < |x| ==> x[i] == x[0]) || (forall i :: 0 < i < |y| ==> y[i] == y[0]);
            && p.overlap == |SharedDates(left, right)|
            && (p.outcome.TooShort? <==> p.overlap < minOverlap)
            && (p.outcome.Flat? <==> p.overlap >= minOverlap && p.overlap > 0 && flat)
            && (p.outcome.Compared? <==> p.overlap >= minOverlap && (p.overlap == 0 || !flat))
            && (p.outcome.Compared? ==> p.outcome == Outcome.Compared(corr(x, y), left.accounting == right.accounting)))
  {
  }

  // ------------------------------------------------------------------------
  // The shared points, in the terms of the recorded series
  // ------------------------------------------------------------------------

  /** The last place, among those both lists reach, that carries `d`. */
  ghost predicate LastAt(dates: seq<string>, values: seq<Option<real>>, d: string, k: int) {
    && 0 <= k < |dates| && k < |values| && dates[k] == d
    && forall j :: k < j < |dates| && j < |values| ==> dates[j] != d
  }

  lemma {:induction false} ByDateIsLast(dates: seq<string>, values: seq<Option<real>>, d: string)
    ensures d in ByDate(dates, values) <==> exists k :: LastAt(dates, values, d, k)
    ensures forall k :: LastAt(dates, values, d, k) ==> ByDate(dates, values)[d] == values[k]
  {
    if dates != [] && values != [] {
      var n := if |dates| < |values| then |dates| else |values|;
      var front, rest := dates[..n - 1], values[..n - 1];
      ByDateIsLast(front, rest, d);
      if dates[n - 1] == d {
        assert LastAt(dates, values, d, n - 1);
      } else {
        forall k ensures LastAt(front, rest, d, k) <==> LastAt(dates, values, d, k) {
          if LastAt(front, rest, d, k) { assert dates[k] == front[k]; }
          if LastAt(dates, values, d, k) { assert dates[k] == front[k]; }
        }
      }
    }
  }

  /** The series has the finite value `x` on `d`: the last one recorded for it. */
  ghost predicate Carries(e: Entry, d: string, x: real)
    requires HasSeries(e)
  {
    exists k :: LastAt(e.dates.value, e.values.value, d, k) && e.values.value[k] == Some(x)
  }

  lemma CarriesByDate(e: Entry, d: string, x: real)
    requires HasSeries(e)
    ensures var m := ByDate(e.dates.value, e.values.value); Carries(e, d, x) <==> d in m && m[d] == Some(x)
  {
    ByDateIsLast(e.dates.value, e.values.value, d);
  }

  /** A shared date is one on which each series has a finite value of its own. */
  lemma SharedMeansBothCarry(left: Entry, right: Entry, d: string)
    requires HasSeries(left) && HasSeries(right)
    ensures d in SharedDates(left, right) <==> (exists x :: Carries(left, d, x)) && (exists y :: Carries(right, d, y))
  {
    SharedDatesAreUsable(left, right, d);
    var a, b := ByDate(left.dates.value, left.values.value), ByDate(right.dates.value, right.values.value);
    forall x ensures Carries(left, d, x) <==> d in a && a[d] == Some(x) { CarriesByDate(left, d, x); }
    forall y ensures Carries(right, d, y) <==> d in b && b[d] == Some(y) { CarriesByDate(right, d, y); }
    if Usable(a, b, d) { assert Carries(left, d, a[d].value) && Carries(right, d, b[d].value); }
  }

  /** The points compared are each series' own values on the shared dates, date by date. */
  lemma PointsAreOwn(left: Entry, right: Entry, i: nat)
    requires HasSeries(left) && HasSeries(right) && i < |SharedDates(left, right)|
    ensures |LeftPoints(left, right)| == |RightPoints(left, right)| == |SharedDates(left, right)|
    ensures Carries(left, SharedDates(left, right)[i], LeftPoints(left, right)[i])
    ensures Carries(right, SharedDates(left, right)[i], RightPoints(left, right)[i])
  {
    var d := SharedDates(left, right)[i];
    SharedDatesAreUsable(left, right, d);
    CarriesByDate(left, d, LeftPoints(left, right)[i]);
    CarriesByDate(right, d, RightPoints(left, right)[i]);
  }

  /** Every date of a series is one of its dict's keys' dates: the keys are its own dates. */
  lemma {:induction false} ByDateKeys(dates: seq<string>, values: seq<Option<real>>, d: string)
    requires d in ByDate(dates, values)
    ensures d in dates
  {
    var n := if |dates| < |values| then |dates| else |values|;
    assert dates[n - 1] in dates;
    if d != dates[n - 1] {
      ByDateKeys(dates[..n - 1], values[..n - 1], d);
      var i :| 0 <= i < n - 1 && dates[..n - 1][i] == d;
      assert dates[i] == d;
    }
  }

  /**
    The shared points are exactly the usable dates, whichever series is asked first, and
    they come in date order.
  */
  lemma SharedDatesAreUsable(left: Entry, right: Entry, d: string)
    requires HasSeries(left) && HasSeries(right)
    ensures d in SharedDates(left, right) <==>
      Usable(ByDate(left.dates.value, left.values.value), ByDate(right.dates.value, right.values.value), d)
  {
    var a, b := ByDate(left.dates.value, left.values.value), ByDate(right.dates.value, right.values.value);
    FilterMembers(SortedDates(left.dates.value), (e: string) => Usable(a, b, e), d);
    SortedMembers(FromKeys(left.dates.value), Alphabetical());
    if d in a { ByDateKeys(left.dates.value, left.values.value, d); }
  }

  lemma SharedDatesInOrder(left: Entry, right: Entry)
    requires HasSeries(left) && HasSeries(right)
    ensures SortedBy(SharedDates(left, right), Alphabetical()) && NoRepeats(SharedDates(left, right))
  {
    var firsts := FromKeys(left.dates.value);
    AlphabeticalIsPreorder();
    SortedSorts(firsts, Alphabetical());
    NoRepeatsAnyOrder(firsts, SortedDates(left.dates.value));
    var a, b := ByDate(left.dates.value, left.values.value), ByDate(right.dates.value, right.values.value);
    FilterKeepsOrder(SortedDates(left.dates.value), (d: string) => Usable(a, b, d), Alphabetical());
  }

  /** The overlap is the same whichever series comes first. */
  lemma OverlapIsSymmetric(left: Entry, right: Entry)
    requires HasSeries(left) && HasSeries(right)
    ensures SharedDates(left, right) == SharedDates(right, left)
  {
    var xs, ys := SharedDates(left, right), SharedDates(right, left);
    SharedDatesInOrder(left, right);
    SharedDatesInOrder(right, left);
    forall d ensures d in xs <==> d in ys {
      SharedDatesAreUsable(left, right, d);
      SharedDatesAreUsable(right, left, d);
    }
    SameMembers(xs, ys);
    forall i, j | 0 <= i < |xs| && 0 <= j < |xs| && Alphabetical()(xs[i], xs[j]) && Alphabetical()(xs[j], xs[i]) ensures xs[i] == xs[j] {
      StringLeqTotal(xs[i], xs[j]);
    }
    SortedIsUnique(xs, ys, Alphabetical());
  }

  /** So is the verdict: a pair is compared either way round or refused either way round. */
  lemma VerdictIsSymmetric(left: Entry, right: Entry, minOverlap: int, across: bool, corr: Correlation)
    ensures var p, q := Compare(left, right, minOverlap, across, corr), Compare(right, left, minOverlap, across, corr);
      && p.overlap == q.overlap && (p.outcome.Compared? <==> q.outcome.Compared?)
      && (p.outcome.Compared? && corr(LeftPoints(left, right), RightPoints(left, right)) == corr(RightPoints(left, right), LeftPoints(left, right))
          ==> p.outcome.r == q.outcome.r)
  {
    if HasSeries(left) && HasSeries(right) { OverlapIsSymmetric(left, right); }
  }
}
