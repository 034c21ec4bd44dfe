/** When a period's slack is zero: exactly when no column name is repeated. */
module AttributionRepeats {
  import opened Options
  import opened Seqs
  import opened Sums
  import opened Attribution
  import opened LeastSquares

  /** One in place `j`, zero elsewhere. */
  function Unit(k: nat, j: nat): (u: seq<real>)
    ensures |u| == k
  {
    seq(k, i => if i == j then 1.0 else 0.0)
  }

  lemma {:induction false} SumOfUnit(k: nat, j: nat, n: nat)
    requires n <= k
    ensures SumTo(Unit(k, j), n) == if j < n then 1.0 else 0.0
  {
    if n > 0 { SumOfUnit(k, j, n - 1); }
  }

  lemma {:induction false} DotWithUnit(k: nat, j: nat, v: seq<real>, n: nat)
    requires n <= k && n <= |v|
    ensures DotTo(Unit(k, j), v, n) == if j < n then v[j] else 0.0
  {
    if n > 0 { DotWithUnit(k, j, v, n - 1); }
  }

  // ------------------------------------------------------------------------
  // What a dict drops
  // ------------------------------------------------------------------------

  /** A one under a name that comes again later is overwritten by the later zero. */
  lemma {:induction false} LaterZeroWins(names: seq<Name>, values: seq<real>, j: nat, l: nat, n: Name)
    requires |names| == |values| && j < l && n in names
    requires forall i :: 0 <= i < |values| ==> values[i] == if i == j then 1.0 else 0.0
    requires j < |names| ==> l < |names| ==> names[j] == names[l]
    ensures l < |names| || j >= |names| || n != names[j] ==> ToDict(names, values)[n] == 0.0
  {
    var m := |names| - 1;
    var front, rest := names[..m], values[..m];
    assert names == front + [names[m]];
    assert ToDict(names, values) == ToDict(front, rest)[names[m] := values[m]];
    if n != names[m] { LaterZeroWins(front, rest, j, l, n); }
  }

  lemma DictOfNothing(names: seq<Name>, values: seq<real>)
    requires |names| == |values| && forall n :: n in names ==> ToDict(names, values)[n] == 0.0
    ensures DictSum(names, values) == 0.0
  {
    var vs := KeyValues(ToDict(names, values), FromKeys(names));
    ZeroSum(vs, |vs|);
  }

  /** A repeated name loses its first one: the slack of that block is one. */
  lemma RepeatDropsOne(names: seq<Name>, j: nat, l: nat)
    requires j < l < |names| && names[j] == names[l]
    ensures Sum(Unit(|names|, j)) - DictSum(names, Unit(|names|, j)) == 1.0
  {
    SumOfUnit(|names|, j, |names|);
    forall n | n in names ensures ToDict(names, Unit(|names|, j))[n] == 0.0 {
      LaterZeroWins(names, Unit(|names|, j), j, l, n);
    }
    DictOfNothing(names, Unit(|names|, j));
  }

  lemma {:induction false} ZerosInDict(names: seq<Name>, values: seq<real>, n: Name)
    requires |names| == |values| && n in names && forall i :: 0 <= i < |values| ==> values[i] == 0.0
    ensures ToDict(names, values)[n] == 0.0
  {
    var m := |names| - 1;
    assert names == names[..m] + [names[m]];
    if n != names[m] { ZerosInDict(names[..m], values[..m], n); }
  }

  lemma ZerosDropNothing(names: seq<Name>, values: seq<real>)
    requires |names| == |values| && forall i :: 0 <= i < |values| ==> values[i] == 0.0
    ensures Sum(values) - DictSum(names, values) == 0.0
  {
    ZeroSum(values, |values|);
    forall n | n in names ensures ToDict(names, values)[n] == 0.0 { ZerosInDict(names, values, n); }
    DictOfNothing(names, values);
  }

  // ------------------------------------------------------------------------
  // A period whose whole active return falls on one column
  // ------------------------------------------------------------------------

  /** Distinct names, as many as are wanted. */
  function Label(i: nat): (n: Name)
    ensures |n| == i
  {
    seq(i, k => 'A')
  }

  function Labels(k: nat): (ns: seq<Name>)
    ensures |ns| == k && forall i :: 0 <= i < k ==> ns[i] == Label(i)
  {
    seq(k, i requires 0 <= i < k => Label(i))
  }

  function Known(xs: seq<real>): (cells: seq<Option<real>>)
    ensures |cells| == |xs|
  {
    seq(|xs|, i requires 0 <= i < |xs| => Some(xs[i]))
  }

  function Mark(n: Name, j: nat): real {
    if |n| == j then 1.0 else 0.0
  }

  /** Name `i` is exposed to column `i` alone, the last two to none; name `j` is held, and gains one. */
  function OneColumn(risk: seq<Name>, signals: seq<Name>, k: nat, j: nat): Period
    requires k == |risk| + |signals|
  {
    var index, kr := Labels(k + 2), |risk|;
    Period(index, map n | n in index :: Mark(n, j),
           risk, map n | n in index :: Unit(k, |n|)[..kr],
           map n | n in index :: Some(Mark(n, j)), map n | n in index :: Some(0.0), 0.0,
           signals, if signals == [] then None else Some(map n | n in index :: Known(Unit(k, |n|)[kr..])))
  }

  lemma {:induction false} FilterKeepsAll(xs: seq<Name>, p: Name -> bool)
    requires forall x :: x in xs ==> p(x)
    ensures Filter(xs, p) == xs
  {
    if xs != [] { FilterKeepsAll(xs[1..], p); }
  }

  lemma AllAreCommon(p: Period)
    requires forall n :: n in p.index ==> IsCommon(p, n)
    ensures Common(p) == p.index
  {
    FilterKeepsAll(p.index, (n: Name) => IsCommon(p, n));
  }

  lemma OneColumnShape(risk: seq<Name>, signals: seq<Name>, k: nat, j: nat)
    requires k == |risk| + |signals|
    ensures var p := OneColumn(risk, signals, k, j); WellFormed(p) && SignalColumns(p) == signals
  {
    assert Labels(k + 2)[0] in Labels(k + 2);
  }

  /** The two halves of a row, put together again. */
  lemma RowIsWhole(risk: seq<Name>, signals: seq<Name>, k: nat, j: nat, n: Name)
    requires k == |risk| + |signals| && n in Labels(k + 2)
    ensures var p := OneColumn(risk, signals, k, j);
            WellFormed(p) && IsCommon(p, n) && DesignRow(p, n) == Unit(k, |n|)
  {
    var p, row, kr := OneColumn(risk, signals, k, j), Unit(k, |n|), |risk|;
    assert n in p.index;
    OneColumnShape(risk, signals, k, j);
    SplitRow(row, kr);
    KnownCells(row[kr..]);
  }

  lemma SplitRow(row: seq<real>, n: nat)
    requires n <= |row|
    ensures row == row[..n] + row[n..] && (n == |row| ==> row == row[..n])
  {
  }

  lemma KnownCells(xs: seq<real>)
    ensures Complete(Known(xs)) && Cells(Known(xs)) == xs
  {
  }

  /** What the regression is given: the unit vectors for rows, one of them for holdings and returns. */
  ghost predicate OneName(q: Panel, k: nat, j: nat) {
    && |q.x| == k + 2 && q.w == q.r == Unit(k + 2, j) && q.beta == Zeros(k + 2)
    && forall i :: 0 <= i < k + 2 ==> q.x[i] == Unit(k, i)
  }

  ghost predicate UnitCells(p: Period, k: nat, j: nat, n: Name) {
    && WellFormed(p) && n in p.index && IsCommon(p, n)
    && p.w[n] == Mark(n, j) && p.raw[n] == Some(Mark(n, j)) && p.beta[n] == Some(0.0) && DesignRow(p, n) == Unit(k, |n|)
  }

  lemma OneColumnCells(risk: seq<Name>, signals: seq<Name>, k: nat, j: nat, n: Name)
    requires k == |risk| + |signals| && n in OneColumn(risk, signals, k, j).index
    ensures UnitCells(OneColumn(risk, signals, k, j), k, j, n)
  {
    RowIsWhole(risk, signals, k, j, n);
  }

  lemma HasCells(risk: seq<Name>, signals: seq<Name>, k: nat, j: nat) returns (p: Period)
    requires k == |risk| + |signals|
    ensures WellFormed(p) && p.riskColumns == risk && SignalColumns(p) == signals && p.index == Labels(k + 2)
    ensures forall n :: n in p.index ==> UnitCells(p, k, j, n)
  {
    p := OneColumn(risk, signals, k, j);
    OneColumnShape(risk, signals, k, j);
    forall n | n in p.index ensures UnitCells(p, k, j, n) { OneColumnCells(risk, signals, k, j, n); }
  }

  /** Any period with such cells has such a panel. */
  lemma PanelOfUnits(p: Period, k: nat, j: nat)
    requires WellFormed(p) && Width(p) == k && p.index == Labels(k + 2)
    requires forall n :: n in p.index ==> UnitCells(p, k, j, n)
    ensures OneName(ToPanel(p), k, j)
  {
    AllAreCommon(p);
    var q := ToPanel(p);
    forall i | 0 <= i < k + 2
      ensures q.w[i] == q.r[i] == Unit(k + 2, j)[i] && q.beta[i] == 0.0 && q.x[i] == Unit(k, i)
    {
      assert p.index[i] in p.index;
      assert UnitCells(p, k, j, p.index[i]);
    }
    assert q.beta == Zeros(k + 2);
  }

  lemma HasOneColumn(risk: seq<Name>, signals: seq<Name>, k: nat, j: nat) returns (p: Period)
    requires k == |risk| + |signals|
    ensures WellFormed(p) && p.riskColumns == risk && SignalColumns(p) == signals && OneName(ToPanel(p), k, j)
  {
    p := HasCells(risk, signals, k, j);
    PanelOfUnits(p, k, j);
  }

  // ------------------------------------------------------------------------
  // What least squares makes of it
  // ------------------------------------------------------------------------

  /** Over the unit vectors the normal equations leave no choice. */
  lemma NormalOnUnits(x: Matrix, k: nat, j: nat, b: seq<real>, c: nat)
    requires Wide(x, k) && |x| == k + 2 && c < k && Normal(x, k, Unit(k + 2, j), b)
    requires forall i :: 0 <= i < k + 2 ==> x[i] == Unit(k, i)
    ensures b[c] == Unit(k, j)[c]
  {
    var e := Left(x, k, Unit(k + 2, j), b, k);
    assert Column(x, k, c) == Unit(k + 2, c);
    DotSwaps(e, Unit(k + 2, c), k + 2);
    DotWithUnit(k + 2, c, e, k + 2);
    DotWithUnit(k, c, b, k);
  }

  lemma OneNameStripped(q: Panel, k: nat, j: nat, bench: real)
    requires OneName(q, k, j)
    ensures Stripped(q, bench) == Unit(k + 2, j)
  {
  }

  lemma OneNameSolved(q: Panel, k: nat, j: nat, bench: real, solve: Solver)
    requires Aligned(q, k) && OneName(q, k, j) && k > 0 && SolvesLeastSquares(solve, k)
    ensures Regression(q.x, k, Stripped(q, bench), solve).0 == Unit(k, j)
  {
    OneNameStripped(q, k, j, bench);
    var r := Unit(k + 2, j);
    var b := solve(q.x, r);
    assert Normal(q.x, k, r, b);
    forall c | 0 <= c < k ensures b[c] == Unit(k, j)[c] { NormalOnUnits(q.x, k, j, b, c); }
  }

  lemma UnitContributions(x: Matrix, k: nat, j: nat, c: nat)
    requires Wide(x, k) && |x| == k + 2 && j < k && c < k && x[j] == Unit(k, j)
    ensures Contribution(Unit(k + 2, j), x, Unit(k, j), k, c) == Unit(k, j)[c]
  {
    DotWithUnit(k + 2, j, seq(|x|, i requires 0 <= i < |x| => x[i][c] * Unit(k, j)[c]), k + 2);
  }

  /** Any period whose panel is like that gains one in all, credited to column `j`. */
  lemma UnitPeriod(p: Period, j: nat, solve: Solver)
    requires WellFormed(p) && j < Width(p) && OneName(ToPanel(p), Width(p), j) && SolvesLeastSquares(solve, Width(p))
    ensures ContributionsOf(p, solve) == Unit(Width(p), j)
    ensures |Common(p)| == Width(p) + 2 && Dot(ToPanel(p).w, ToPanel(p).r) == 1.0
  {
    var q, k := ToPanel(p), Width(p);
    OneNameSolved(q, k, j, p.bench, solve);
    forall c | 0 <= c < k ensures ContributionsOf(p, solve)[c] == Unit(k, j)[c] { UnitContributions(q.x, k, j, c); }
    DotWithUnit(k + 2, j, q.r, k + 2);
  }

  lemma EnoughNames(p: Period, solve: Solver)
    requires WellFormed(p) && GivesCoefficients(solve, Width(p)) && |Common(p)| >= Width(p) + 2
    ensures AttributePeriod(p, solve).Some? && AttributePeriod(p, solve).value.active == Dot(ToPanel(p).w, ToPanel(p).r)
  {
  }

  function Dropped(names: seq<Name>, values: seq<real>): real
    requires |names| == |values|
  {
    Sum(values) - DictSum(names, values)
  }

  /** Such a period's slack is what the two dicts drop of a single one in place `j`. */
  lemma UnitSlack(p: Period, k: nat, j: nat, solve: Solver)
    requires WellFormed(p) && Width(p) == k && j < k && OneName(ToPanel(p), k, j) && SolvesLeastSquares(solve, k)
    ensures AttributePeriod(p, solve).Some? && AttributePeriod(p, solve).value.active == 1.0
    ensures var u, kr := Unit(k, j), |p.riskColumns|;
            AttributePeriod(p, solve).value.residual == Dropped(p.riskColumns, u[..kr]) + Dropped(SignalColumns(p), u[kr..])
  {
    UnitPeriod(p, j, solve);
    EnoughNames(p, solve);
    ResidualIsWhatRepeatsDrop(p, solve);
  }

  lemma SlackOfOneColumn(risk: seq<Name>, signals: seq<Name>, k: nat, j: nat, solve: Solver) returns (p: Period)
    requires j < k == |risk| + |signals| && SolvesLeastSquares(solve, k)
    ensures Covers(p, solve, risk, signals) && AttributePeriod(p, solve).value.active == 1.0
    ensures var u, kr := Unit(k, j), |risk|;
            AttributePeriod(p, solve).value.residual == Dropped(risk, u[..kr]) + Dropped(signals, u[kr..])
  {
    p := HasOneColumn(risk, signals, k, j);
    UnitSlack(p, k, j, solve);
  }

  lemma RepeatedRisk(risk: seq<Name>, signals: seq<Name>, j: nat, l: nat)
    requires j < l < |risk| && risk[j] == risk[l]
    ensures var u, kr := Unit(|risk| + |signals|, j), |risk|;
            Dropped(risk, u[..kr]) + Dropped(signals, u[kr..]) == 1.0
  {
    var u, kr := Unit(|risk| + |signals|, j), |risk|;
    assert u[..kr] == Unit(kr, j);
    RepeatDropsOne(risk, j, l);
    ZerosDropNothing(signals, u[kr..]);
  }

  lemma RepeatedSignal(risk: seq<Name>, signals: seq<Name>, c: nat, l: nat)
    requires |risk| <= c < l < |risk| + |signals| && signals[c - |risk|] == signals[l - |risk|]
    ensures var u, kr := Unit(|risk| + |signals|, c), |risk|;
            Dropped(risk, u[..kr]) + Dropped(signals, u[kr..]) == 1.0
  {
    var u, kr := Unit(|risk| + |signals|, c), |risk|;
    assert u[kr..] == Unit(|signals|, c - kr);
    RepeatDropsOne(signals, c - kr, l - kr);
    ZerosDropNothing(risk, u[..kr]);
  }

  lemma RepeatedRiskSlack(risk: seq<Name>, signals: seq<Name>, j: nat, l: nat, solve: Solver) returns (p: Period)
    requires j < l < |risk| && risk[j] == risk[l] && SolvesLeastSquares(solve, |risk| + |signals|)
    ensures LeavesAll(p, solve, risk, signals)
  {
    p := SlackOfOneColumn(risk, signals, |risk| + |signals|, j, solve);
    RepeatedRisk(risk, signals, j, l);
  }

  lemma RepeatedSignalSlack(risk: seq<Name>, signals: seq<Name>, c: nat, l: nat, solve: Solver) returns (p: Period)
    requires |risk| <= c < l < |risk| + |signals| && signals[c - |risk|] == signals[l - |risk|]
    requires SolvesLeastSquares(solve, |risk| + |signals|)
    ensures LeavesAll(p, solve, risk, signals)
  {
    p := SlackOfOneColumn(risk, signals, |risk| + |signals|, c, solve);
    RepeatedSignal(risk, signals, c, l);
  }

  /** Whatever columns there are, repeating one leaves a period whose slack is its whole active return. */
  lemma RepeatLeavesSlack(risk: seq<Name>, signals: seq<Name>, solve: Solver) returns (p: Period)
    requires SolvesLeastSquares(solve, |risk| + |signals|)
    requires !NoRepeats(risk) || !NoRepeats(signals)
    ensures LeavesAll(p, solve, risk, signals)
  {
    if !NoRepeats(risk) {
      var j, l :| 0 <= j < l < |risk| && risk[j] == risk[l];
      p := RepeatedRiskSlack(risk, signals, j, l, solve);
    } else {
      var j, l :| 0 <= j < l < |signals| && signals[j] == signals[l];
      p := RepeatedSignalSlack(risk, signals, |risk| + j, |risk| + l, solve);
    }
  }

  // ------------------------------------------------------------------------
  // The exact condition
  // ------------------------------------------------------------------------

  /** A period over the given columns that there are enough names to attribute. */
  ghost predicate Covers(p: Period, solve: Solver, risk: seq<Name>, signals: seq<Name>) {
    && WellFormed(p) && p.riskColumns == risk && SignalColumns(p) == signals
    && GivesCoefficients(solve, Width(p)) && AttributePeriod(p, solve).Some?
  }

  /** An active return of one, none of which the parts account for. */
  ghost predicate LeavesAll(p: Period, solve: Solver, risk: seq<Name>, signals: seq<Name>) {
    && Covers(p, solve, risk, signals)
    && AttributePeriod(p, solve).value.active == 1.0 && AttributePeriod(p, solve).value.residual == 1.0
  }

  ghost predicate AddsUp(p: Period, solve: Solver, risk: seq<Name>, signals: seq<Name>) {
    Covers(p, solve, risk, signals) ==> AttributePeriod(p, solve).value.residual == 0.0
  }

  /**
    Whichever least-squares coefficients the regression picks, the slack is zero for every
    period over given columns exactly when neither list repeats a name.
  */
  lemma AddsUpIffDistinct(risk: seq<Name>, signals: seq<Name>, solve: Solver)
    requires SolvesLeastSquares(solve, |risk| + |signals|)
    ensures (forall p :: AddsUp(p, solve, risk, signals)) <==> NoRepeats(risk) && NoRepeats(signals)
  {
    if NoRepeats(risk) && NoRepeats(signals) {
      forall p ensures AddsUp(p, solve, risk, signals) {
        if Covers(p, solve, risk, signals) { AttributionIsExact(p, solve); }
      }
    } else {
      var p := RepeatLeavesSlack(risk, signals, solve);
      assert !AddsUp(p, solve, risk, signals);
    }
  }

  /** Concretely: two risk columns both named "size", and the whole active return is lost. */
  lemma TwoSizesLeaveOne() returns (p: Period, solve: Solver)
    ensures SolvesLeastSquares(solve, 2) && LeavesAll(p, solve, ["size", "size"], [])
  {
    solve := LeastSquaresExist(2);
    p := RepeatedRiskSlack(["size", "size"], [], 0, 1, solve);
  }
}
