/**
  Performance attribution: one period's active return split exactly into a systematic
  bucket, factor and signal contributions and a specific remainder; the systematic
  return split into expected, surprise and timing; and honest cumulation over periods.
*/
module Attribution {
  import opened Options
  import opened Seqs
  import opened Sums

  type Name = string
  type Matrix = seq<seq<real>>

  // ------------------------------------------------------------------------
  // The cross-sectional regression
  // ------------------------------------------------------------------------

  /** Coefficients `pinv(x'x) x' r`, whatever the linear algebra makes of them. */
  type Solver = (Matrix, seq<real>) -> seq<real>

  ghost predicate GivesCoefficients(solve: Solver, k: nat) {
    forall x, r :: |solve(x, r)| == k
  }

  /** `x @ b` restricted to the first `j` columns. */
  function Fit(x: Matrix, b: seq<real>, k: nat, j: nat): (y: seq<real>)
    requires Wide(x, k) && |b| == k && j <= k
    ensures |y| == |x|
  {
    seq(|x|, i requires 0 <= i < |x| => DotTo(x[i], b, j))
  }

  function Zeros(k: nat): (z: seq<real>)
    ensures |z| == k && forall j :: 0 <= j < k ==> z[j] == 0.0
  {
    seq(k, j => 0.0)
  }

  /** The fitted part taken away; degenerate inputs explain nothing and keep everything. */
  function Regression(x: Matrix, k: nat, r: seq<real>, solve: Solver): (br: (seq<real>, seq<real>))
    requires Wide(x, k) && |x| == |r| && GivesCoefficients(solve, k)
    ensures |br.0| == k && |br.1| == |r|
  {
    if |x| == 0 || k == 0 || |x| < k + 1 then (Zeros(k), r)
    else
      var b := solve(x, r);
      (b, seq(|r|, i requires 0 <= i < |r| => r[i] - Fit(x, b, k, k)[i]))
  }

  lemma {:induction false} ZeroFit(row: seq<real>, k: nat, j: nat)
    requires |row| == k && j <= k
    ensures DotTo(row, Zeros(k), j) == 0.0
  {
    if j > 0 { ZeroFit(row, k, j - 1); }
  }

  /** `r = x.b + residual` exactly, in the degenerate branch too. */
  lemma RegressionIdentity(x: Matrix, k: nat, r: seq<real>, solve: Solver, i: nat)
    requires Wide(x, k) && |x| == |r| && GivesCoefficients(solve, k) && i < |r|
    ensures var (b, e) := Regression(x, k, r, solve); r[i] == e[i] + Fit(x, b, k, k)[i]
  {
    ZeroFit(x[i], k, k);
  }

  /** Without columns, or with no more names than columns, nothing is explained and everything kept. */
  lemma DegenerateRegression(x: Matrix, k: nat, r: seq<real>, solve: Solver)
    requires Wide(x, k) && |x| == |r| && GivesCoefficients(solve, k) && (k == 0 || |x| <= k)
    ensures Regression(x, k, r, solve) == (seq(k, j => 0.0), r)
  {
    assert Zeros(k) == seq(k, j => 0.0);
  }

  // ------------------------------------------------------------------------
  // One period
  // ------------------------------------------------------------------------

  /** The portfolio's share of column `j`: `w . (x_j * b_j)`. */
  function Contribution(w: seq<real>, x: Matrix, b: seq<real>, k: nat, j: nat): real
    requires Wide(x, k) && |b| == k && |w| == |x| && j < k
  {
    Dot(w, seq(|x|, i requires 0 <= i < |x| => x[i][j] * b[j]))
  }

  function Contributions(w: seq<real>, x: Matrix, b: seq<real>, k: nat): (cs: seq<real>)
    requires Wide(x, k) && |b| == k && |w| == |x|
    ensures |cs| == k
  {
    seq(k, j requires 0 <= j < k => Contribution(w, x, b, k, j))
  }

  /** Exchange of the two sums: weighting the fit is adding up the columns' shares. */
  lemma {:induction false} FitIsContributions(w: seq<real>, x: Matrix, b: seq<real>, k: nat, j: nat)
    requires Wide(x, k) && |b| == k && |w| == |x| && j <= k
    ensures Dot(w, Fit(x, b, k, j)) == SumTo(Contributions(w, x, b, k), j)
  {
    if j == 0 {
      DotZeroTo(w, Fit(x, b, k, 0), |w|);
    } else {
      FitIsContributions(w, x, b, k, j - 1);
      var term := seq(|x|, i requires 0 <= i < |x| => x[i][j - 1] * b[j - 1]);
      DotAdds(w, Fit(x, b, k, j - 1), term, Fit(x, b, k, j), 1.0);
    }
  }

  /** A dict comprehension over columns: a repeated name keeps its last value. */
  function ToDict(names: seq<Name>, values: seq<real>): (d: map<Name, real>)
    requires |names| == |values|
    ensures forall n :: n in d <==> n in names
  {
    if names == [] then map[] else
      var front, last := names[..|names| - 1], names[|names| - 1];
      assert names == front + [last];
      ToDict(front, values[..|values| - 1])[last := values[|values| - 1]]
  }

  function KeyValues(d: map<Name, real>, keys: seq<Name>): (vs: seq<real>)
    requires forall i :: 0 <= i < |keys| ==> keys[i] in d
    ensures |vs| == |keys|
  {
    seq(|keys|, i requires 0 <= i < |keys| => d[keys[i]])
  }

  /** `sum(d.values())`: each key once, in insertion order. */
  function DictSum(names: seq<Name>, values: seq<real>): real
    requires |names| == |values|
  {
    Sum(KeyValues(ToDict(names, values), FromKeys(names)))
  }

  lemma {:induction false} DistinctFromKeys(names: seq<Name>)
    requires NoRepeats(names)
    ensures FromKeys(names) == names
  {
    if names != [] {
      var front, last := names[..|names| - 1], names[|names| - 1];
      assert names == front + [last];
      DistinctFromKeys(front);
    }
  }

  lemma {:induction false} DistinctToDict(names: seq<Name>, values: seq<real>, i: nat)
    requires |names| == |values| && NoRepeats(names) && i < |names|
    ensures ToDict(names, values)[names[i]] == values[i]
  {
    var n := |names| - 1;
    var front, rest := names[..n], values[..n];
    assert ToDict(names, values) == ToDict(front, rest)[names[n] := values[n]];
    if i < n {
      assert front[i] == names[i] && rest[i] == values[i] && names[i] != names[n];
      DistinctToDict(front, rest, i);
    }
  }

  /** Two dicts over the two halves of one vector: each name gets its own value. */
  lemma SplitDicts(risk: seq<Name>, signals: seq<Name>, cs: seq<real>, j: nat)
    requires NoRepeats(risk) && NoRepeats(signals) && j < |cs| == |risk| + |signals|
    ensures j < |risk| ==> ToDict(risk, cs[..|risk|])[risk[j]] == cs[j]
    ensures j >= |risk| ==> ToDict(signals, cs[|risk|..])[signals[j - |risk|]] == cs[j]
  {
    if j < |risk| {
      DistinctToDict(risk, cs[..|risk|], j);
    } else {
      DistinctToDict(signals, cs[|risk|..], j - |risk|);
    }
  }

  /** With distinct names, adding up the dict adds up the values. */
  lemma DistinctDictSum(names: seq<Name>, values: seq<real>)
    requires |names| == |values| && NoRepeats(names)
    ensures DictSum(names, values) == Sum(values)
  {
    DistinctFromKeys(names);
    forall i | 0 <= i < |names| ensures KeyValues(ToDict(names, values), names)[i] == values[i] {
      DistinctToDict(names, values, i);
    }
    SumToAgrees(KeyValues(ToDict(names, values), names), values, |values|);
  }

  /** The inputs to one period, each indexed by name; absent and NaN cells are `None`. */
  datatype Period = Period(
    index: seq<Name>, w: map<Name, real>,
    riskColumns: seq<Name>, risk: map<Name, seq<real>>,
    raw: map<Name, Option<real>>, beta: map<Name, Option<real>>, bench: real,
    signalColumns: seq<Name>, signals: Option<map<Name, seq<Option<real>>>>)

  predicate WellFormed(p: Period) {
    && (forall n :: n in p.index ==> n in p.w)
    && (forall n :: n in p.risk ==> |p.risk[n]| == |p.riskColumns|)
    && (p.signals.Some? ==> forall n :: n in p.signals.value ==> |p.signals.value[n]| == |p.signalColumns|)
  }

  predicate HasSignals(p: Period) {
    p.signals.Some? && p.signals.value != map[] && p.signalColumns != []
  }

  predicate Present(m: map<Name, Option<real>>, n: Name) {
    n in m && m[n].Some?
  }

  predicate Complete(cells: seq<Option<real>>) {
    forall j :: 0 <= j < |cells| ==> cells[j].Some?
  }

  predicate IsCommon(p: Period, n: Name) {
    n in p.risk && Present(p.raw, n) && Present(p.beta, n)
    && (HasSignals(p) ==> n in p.signals.value && Complete(p.signals.value[n]))
  }

  function Common(p: Period): seq<Name> {
    Filter(p.index, (n: Name) => IsCommon(p, n))
  }

  function SignalColumns(p: Period): seq<Name> {
    if HasSignals(p) then p.signalColumns else []
  }

  function Width(p: Period): nat { |p.riskColumns| + |SignalColumns(p)| }

  function Cells(cells: seq<Option<real>>): (rs: seq<real>)
    requires Complete(cells)
    ensures |rs| == |cells|
  {
    seq(|cells|, j requires 0 <= j < |cells| => cells[j].value)
  }

  /** One row of the joint design: risk exposures, then signals. */
  function DesignRow(p: Period, n: Name): (row: seq<real>)
    requires WellFormed(p) && IsCommon(p, n)
    ensures |row| == Width(p)
  {
    p.risk[n] + (if HasSignals(p) then Cells(p.signals.value[n]) else [])
  }

  datatype Panel = Panel(w: seq<real>, x: Matrix, r: seq<real>, beta: seq<real>)

  ghost predicate Aligned(q: Panel, k: nat) {
    |q.w| == |q.x| == |q.r| == |q.beta| && Wide(q.x, k)
  }

  lemma CommonIsCommon(p: Period, n: Name)
    requires n in Common(p)
    ensures n in p.index && IsCommon(p, n)
  {
    FilterMembers(p.index, (m: Name) => IsCommon(p, m), n);
  }

  function ToPanel(p: Period): (q: Panel)
    requires WellFormed(p)
    ensures Aligned(q, Width(p)) && |q.w| == |Common(p)|
  {
    var names := Common(p);
    assert forall i :: 0 <= i < |names| ==> names[i] in p.index && IsCommon(p, names[i]) by {
      forall i | 0 <= i < |names| ensures names[i] in p.index && IsCommon(p, names[i]) { CommonIsCommon(p, names[i]); }
    }
    Panel(
      seq(|names|, i requires 0 <= i < |names| => p.w[names[i]]),
      seq(|names|, i requires 0 <= i < |names| => DesignRow(p, names[i])),
      seq(|names|, i requires 0 <= i < |names| => p.raw[names[i]].value),
      seq(|names|, i requires 0 <= i < |names| => p.beta[names[i]].value))
  }

  datatype Attributed = Attributed(
    active: real, betaActive: real, systematic: real,
    factors: map<Name, real>, signals: map<Name, real>,
    specific: real, residual: real)

  /** Per-name return with `beta * bench` taken off. */
  function Stripped(q: Panel, bench: real): (u: seq<real>)
    requires |q.r| == |q.beta|
    ensures |u| == |q.r|
  {
    seq(|q.r|, i requires 0 <= i < |q.r| => q.r[i] - q.beta[i] * bench)
  }

  /** The return the panel's beta earns from a benchmark return of `bench`. */
  function Systematic(q: Panel, bench: real): real
    requires |q.w| == |q.beta|
  {
    Dot(q.w, q.beta) * bench
  }

  /** What one period comes to, `None` with too few names in common to regress. */
  function AttributePeriod(p: Period, solve: Solver): (a: Option<Attributed>)
    requires WellFormed(p) && GivesCoefficients(solve, Width(p))
  {
    var k, kr := Width(p), |p.riskColumns|;
    if |Common(p)| < k + 2 then None else
      var q := ToPanel(p);
      var (b, e) := Regression(q.x, k, Stripped(q, p.bench), solve);
      var cs := Contributions(q.w, q.x, b, k);
      var systematic, specific := Systematic(q, p.bench), Dot(q.w, e);
      var reconstructed := systematic + DictSum(p.riskColumns, cs[..kr]) + DictSum(SignalColumns(p), cs[kr..]) + specific;
      Some(Attributed(Dot(q.w, q.r), Dot(q.w, q.beta), systematic,
                      ToDict(p.riskColumns, cs[..kr]), ToDict(SignalColumns(p), cs[kr..]),
                      specific, Dot(q.w, q.r) - reconstructed))
  }

  /** A name takes part when every input has all of its cells; signals count once there are any. */
  ghost predicate TakesPart(p: Period, n: Name) {
    && n in p.index && n in p.risk && n in p.raw && p.raw[n].Some? && n in p.beta && p.beta[n].Some?
    && (p.signals.Some? && p.signals.value != map[] && p.signalColumns != [] ==>
          n in p.signals.value && forall j :: 0 <= j < |p.signals.value[n]| ==> p.signals.value[n][j].Some?)
  }

  lemma CommonMeans(p: Period, n: Name)
    ensures n in Common(p) <==> TakesPart(p, n)
  {
    FilterMembers(p.index, (m: Name) => IsCommon(p, m), n);
  }

  /** Weights, returns and betas of the names that take part, in their order. */
  lemma PanelMeans(p: Period, i: nat)
    requires WellFormed(p) && i < |Common(p)|
    ensures var q, n := ToPanel(p), Common(p)[i];
      && TakesPart(p, n) && q.w[i] == p.w[n] && q.r[i] == p.raw[n].value && q.beta[i] == p.beta[n].value
      && (forall j :: 0 <= j < |p.riskColumns| ==> q.x[i][j] == p.risk[n][j])
      && (forall j :: 0 <= j < |SignalColumns(p)| ==> Some(q.x[i][|p.riskColumns| + j]) == p.signals.value[n][j])
  {
    assert Common(p)[i] in Common(p);
    CommonMeans(p, Common(p)[i]);
  }

  /** What is regressed is each return less what its beta earned of the benchmark's, and that adds up over the book. */
  lemma StrippedMeans(q: Panel, k: nat, bench: real, i: nat)
    requires Aligned(q, k) && i < |q.r|
    ensures Stripped(q, bench)[i] == q.r[i] - q.beta[i] * bench
    ensures Systematic(q, bench) == Dot(q.w, q.beta) * bench
  {
  }

  /**
    What a period reports over those names, unless they are fewer than two more than the
    columns: the weighted return, the weighted beta, what that beta earned, and the weighted
    remainder of the regression.
  */
  lemma AttributedMeans(p: Period, solve: Solver)
    requires WellFormed(p) && GivesCoefficients(solve, Width(p))
    ensures AttributePeriod(p, solve).None? <==> |Common(p)| < |p.riskColumns| + |SignalColumns(p)| + 2
    ensures AttributePeriod(p, solve).Some? ==>
      var v, q := AttributePeriod(p, solve).value, ToPanel(p);
      && v.active == Dot(q.w, q.r) && v.betaActive == Dot(q.w, q.beta) && v.systematic == Systematic(q, p.bench)
      && v.specific == Dot(q.w, Regression(q.x, Width(p), Stripped(q, p.bench), solve).1)
  {
  }

  /** The slack is whatever the reported parts, each dict's values once, miss of the return. */
  lemma SlackMeans(p: Period, solve: Solver)
    requires WellFormed(p) && GivesCoefficients(solve, Width(p)) && AttributePeriod(p, solve).Some?
    ensures var v := AttributePeriod(p, solve).value;
      v.active == v.systematic + Sum(KeyValues(v.factors, FromKeys(p.riskColumns)))
                  + Sum(KeyValues(v.signals, FromKeys(SignalColumns(p)))) + v.specific + v.residual
  {
  }

  /** A column's share is its coefficient times the book's exposure to it. */
  lemma ContributionMeans(w: seq<real>, x: Matrix, b: seq<real>, k: nat, j: nat)
    requires Wide(x, k) && |b| == k && |w| == |x| && j < k
    ensures Contributions(w, x, b, k)[j] == b[j] * Dot(w, seq(|x|, i requires 0 <= i < |x| => x[i][j]))
  {
    DotScales(w, seq(|x|, i requires 0 <= i < |x| => x[i][j]), seq(|x|, i requires 0 <= i < |x| => x[i][j] * b[j]), b[j]);
  }

  /** Before any dict is formed: the parts add up to the active return exactly. */
  lemma PartsAddUp(q: Panel, k: nat, bench: real, solve: Solver)
    requires Aligned(q, k) && GivesCoefficients(solve, k)
    ensures var (b, e) := Regression(q.x, k, Stripped(q, bench), solve);
            Dot(q.w, q.r) == Systematic(q, bench) + Sum(Contributions(q.w, q.x, b, k)) + Dot(q.w, e)
  {
    var u := Stripped(q, bench);
    var (b, e) := Regression(q.x, k, u, solve);
    var fit := Fit(q.x, b, k, k);
    forall i | 0 <= i < |u| ensures u[i] == e[i] + 1.0 * fit[i] { RegressionIdentity(q.x, k, u, solve, i); }
    DotAdds(q.w, e, fit, u, 1.0);
    FitIsContributions(q.w, q.x, b, k, k);
    DotAdds(q.w, u, q.beta, q.r, bench);
  }

  /** What each column of the joint design contributed, risk factors first. */
  function ContributionsOf(p: Period, solve: Solver): (cs: seq<real>)
    requires WellFormed(p) && GivesCoefficients(solve, Width(p))
    ensures |cs| == Width(p)
  {
    var q := ToPanel(p);
    Contributions(q.w, q.x, Regression(q.x, Width(p), Stripped(q, p.bench), solve).0, Width(p))
  }

  lemma DictsOfPeriod(p: Period, solve: Solver)
    requires WellFormed(p) && GivesCoefficients(solve, Width(p)) && AttributePeriod(p, solve).Some?
    ensures var a, cs, kr := AttributePeriod(p, solve).value, ContributionsOf(p, solve), |p.riskColumns|;
            a.factors == ToDict(p.riskColumns, cs[..kr]) && a.signals == ToDict(SignalColumns(p), cs[kr..])
  {
  }

  /**
    The adding-up slack is exactly what repeated column names drop from the two dicts,
    whatever coefficients the regression returns.
  */
  lemma ResidualIsWhatRepeatsDrop(p: Period, solve: Solver)
    requires WellFormed(p) && GivesCoefficients(solve, Width(p)) && AttributePeriod(p, solve).Some?
    ensures var kr := |p.riskColumns|;
            var cs := ContributionsOf(p, solve);
            AttributePeriod(p, solve).value.residual
              == (Sum(cs[..kr]) - DictSum(p.riskColumns, cs[..kr])) + (Sum(cs[kr..]) - DictSum(SignalColumns(p), cs[kr..]))
  {
    var kr, q, cs := |p.riskColumns|, ToPanel(p), ContributionsOf(p, solve);
    PartsAddUp(q, Width(p), p.bench, solve);
    SplitSum(cs, kr);
  }

  lemma SplitSum(cs: seq<real>, n: nat)
    requires n <= |cs|
    ensures Sum(cs) == Sum(cs[..n]) + Sum(cs[n..])
  {
    SumConcat(cs[..n], cs[n..]);
    assert cs == cs[..n] + cs[n..];
  }

  /** With distinct column names nothing is lost and nothing double-counted. */
  lemma AttributionIsExact(p: Period, solve: Solver)
    requires WellFormed(p) && GivesCoefficients(solve, Width(p)) && AttributePeriod(p, solve).Some?
    requires NoRepeats(p.riskColumns) && NoRepeats(SignalColumns(p))
    ensures AttributePeriod(p, solve).value.residual == 0.0
  {
    var kr, cs := |p.riskColumns|, ContributionsOf(p, solve);
    ResidualIsWhatRepeatsDrop(p, solve);
    DistinctDictSum(p.riskColumns, cs[..kr]);
    DistinctDictSum(SignalColumns(p), cs[kr..]);
  }

  /** Where a column's contribution is reported: risk factors first, then signals. */
  function Credited(a: Attributed, risk: seq<Name>, signals: seq<Name>, j: nat): Option<real>
    requires j < |risk| + |signals|
  {
    if j < |risk| then (if risk[j] in a.factors then Some(a.factors[risk[j]]) else None)
    else if signals[j - |risk|] in a.signals then Some(a.signals[signals[j - |risk|]]) else None
  }

  lemma CreditedFromDicts(a: Attributed, risk: seq<Name>, signals: seq<Name>, cs: seq<real>, j: nat)
    requires NoRepeats(risk) && NoRepeats(signals) && j < |cs| == |risk| + |signals|
    requires a.factors == ToDict(risk, cs[..|risk|]) && a.signals == ToDict(signals, cs[|risk|..])
    ensures Credited(a, risk, signals, j) == Some(cs[j])
  {
    SplitDicts(risk, signals, cs, j);
  }

  /** With distinct names every column is credited with its own contribution, signals after risk factors. */
  lemma EachColumnOwnsItsContribution(p: Period, solve: Solver, j: nat)
    requires WellFormed(p) && GivesCoefficients(solve, Width(p)) && AttributePeriod(p, solve).Some?
    requires NoRepeats(p.riskColumns) && NoRepeats(SignalColumns(p)) && j < Width(p)
    ensures Credited(AttributePeriod(p, solve).value, p.riskColumns, SignalColumns(p), j) == Some(ContributionsOf(p, solve)[j])
  {
    DictsOfPeriod(p, solve);
    CreditedFromDicts(AttributePeriod(p, solve).value, p.riskColumns, SignalColumns(p), ContributionsOf(p, solve), j);
  }
}
