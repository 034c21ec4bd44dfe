/** Grouping trades by exit reason, and what the grouping conserves. */
module TradeGroups {
  import opened Options
  import opened Seqs
  import opened Sums

  /** A trade's P&L, `None` where it could not be measured. */
  type Pnl = Option<real>

  // ------------------------------------------------------------------------
  // Wins and losses of one set of trades
  // ------------------------------------------------------------------------

  datatype WinLoss = WinLoss(
    trades: nat, unmeasured: nat, wins: nat, losses: nat, flat: nat,
    net: Option<real>, grossProfit: real, grossLoss: real)

  function Measured(pnl: seq<Pnl>): (xs: seq<real>)
    ensures |xs| <= |pnl|
  {
    if pnl == [] then [] else
      Measured(pnl[..|pnl| - 1]) + (if pnl[|pnl| - 1].Some? then [pnl[|pnl| - 1].value] else [])
  }

  function Winning(): real -> bool { (x: real) => x > 0.0 }
  function Losing(): real -> bool { (x: real) => x < 0.0 }
  function Level(): real -> bool { (x: real) => x == 0.0 }

  /** Winners, losers and level trades are all of the measured ones, in number and in money. */
  lemma {:induction false} WinnersAndLosers(xs: seq<real>)
    ensures |Filter(xs, Winning())| + |Filter(xs, Losing())| + |Filter(xs, Level())| == |xs|
    ensures Sum(Filter(xs, Winning())) + Sum(Filter(xs, Losing())) == Sum(xs)
  {
    if xs != [] {
      var x, rest := xs[0], xs[1..];
      assert xs == [x] + rest;
      WinnersAndLosers(rest);
      SumConcat([x], rest);
      SumConcat([x], Filter(rest, Winning()));
      SumConcat([x], Filter(rest, Losing()));
      SumSnoc([], x);
      assert [x] == [] + [x];
    }
  }

  /** The places of the trades that meet `p`. */
  ghost function Where(pnl: seq<Pnl>, p: Pnl -> bool): set<nat> {
    set i: nat | i < |pnl| && p(pnl[i])
  }

  lemma WhereNext(pnl: seq<Pnl>, p: Pnl -> bool)
    requires pnl != []
    ensures |Where(pnl, p)| == |Where(pnl[..|pnl| - 1], p)| + if p(pnl[|pnl| - 1]) then 1 else 0
  {
    var n := |pnl| - 1;
    assert Where(pnl, p) == Where(pnl[..n], p) + (if p(pnl[n]) then {n} else {});
  }

  /** A quantity of each trade, added up over a set of them. */
  function Added(pnl: seq<Pnl>, val: Pnl -> real): real {
    if pnl == [] then 0.0 else Added(pnl[..|pnl| - 1], val) + val(pnl[|pnl| - 1])
  }

  function Meets(p: real -> bool): Pnl -> bool { (x: Pnl) => x.Some? && p(x.value) }

  function AmountIf(p: real -> bool): Pnl -> real { (x: Pnl) => if x.Some? && p(x.value) then x.value else 0.0 }

  /** Filtering the measured trades keeps as many, and as much, as there are places that meet the filter. */
  lemma {:induction false} MeasuredWhere(pnl: seq<Pnl>, p: real -> bool)
    ensures |Filter(Measured(pnl), p)| == |Where(pnl, Meets(p))|
    ensures Sum(Filter(Measured(pnl), p)) == Added(pnl, AmountIf(p))
  {
    if pnl == [] {
      assert Where(pnl, Meets(p)) == {};
    } else {
      var front, last := pnl[..|pnl| - 1], pnl[|pnl| - 1];
      MeasuredWhere(front, p);
      WhereNext(pnl, Meets(p));
      if last.Some? {
        FilterConcat(Measured(front), [last.value], p);
        SumSnoc(Filter(Measured(front), p), last.value);
        assert Measured(pnl) == Measured(front) + [last.value];
        assert Filter(Measured(pnl), p) == if p(last.value) then Filter(Measured(front), p) + [last.value] else Filter(Measured(front), p);
      } else {
        assert Measured(pnl) == Measured(front);
      }
    }
  }

  function Any(): real -> bool { (x: real) => true }

  lemma {:induction false} FilterAny(xs: seq<real>)
    ensures Filter(xs, Any()) == xs
  {
    if xs != [] { FilterAny(xs[1..]); }
  }

  lemma MeasuredAll(pnl: seq<Pnl>)
    ensures |Measured(pnl)| == |set i: nat | i < |pnl| && pnl[i].Some?|
  {
    MeasuredWhere(pnl, Any());
    FilterAny(Measured(pnl));
    assert Where(pnl, Meets(Any())) == set i: nat | i < |pnl| && pnl[i].Some?;
  }

  lemma {:induction false} AllGains(xs: seq<real>, n: nat)
    requires n <= |xs| && forall i :: 0 <= i < |xs| ==> xs[i] > 0.0
    ensures SumTo(xs, n) >= 0.0 && (n > 0 <==> SumTo(xs, n) > 0.0)
  {
    if n > 0 { AllGains(xs, n - 1); }
  }

  lemma {:induction false} AllLosses(xs: seq<real>, n: nat)
    requires n <= |xs| && forall i :: 0 <= i < |xs| ==> xs[i] < 0.0
    ensures SumTo(xs, n) <= 0.0 && (n > 0 <==> SumTo(xs, n) < 0.0)
  {
    if n > 0 { AllLosses(xs, n - 1); }
  }

  lemma SignsOfGross(xs: seq<real>)
    ensures Sum(Filter(xs, Winning())) >= 0.0 >= Sum(Filter(xs, Losing()))
    ensures Filter(xs, Winning()) != [] <==> Sum(Filter(xs, Winning())) > 0.0
    ensures Filter(xs, Losing()) != [] <==> Sum(Filter(xs, Losing())) < 0.0
  {
    var wins, losses := Filter(xs, Winning()), Filter(xs, Losing());
    forall i | 0 <= i < |wins| ensures wins[i] > 0.0 { FilterMembers(xs, Winning(), wins[i]); }
    forall i | 0 <= i < |losses| ensures losses[i] < 0.0 { FilterMembers(xs, Losing(), losses[i]); }
    AllGains(wins, |wins|);
    AllLosses(losses, |losses|);
  }

  /** What winning trades made, and losing ones lost, added up over the first `n`. */
  ghost function GainTo(pnl: seq<Pnl>, n: nat): real
    requires n <= |pnl|
  {
    if n == 0 then 0.0 else GainTo(pnl, n - 1) + (if pnl[n - 1].Some? && pnl[n - 1].value > 0.0 then pnl[n - 1].value else 0.0)
  }

  ghost function LossTo(pnl: seq<Pnl>, n: nat): real
    requires n <= |pnl|
  {
    if n == 0 then 0.0 else LossTo(pnl, n - 1) + (if pnl[n - 1].Some? && pnl[n - 1].value < 0.0 then pnl[n - 1].value else 0.0)
  }

  lemma {:induction false} GrossAdds(pnl: seq<Pnl>, n: nat)
    requires n <= |pnl|
    ensures Added(pnl[..n], AmountIf(Winning())) == GainTo(pnl, n) && Added(pnl[..n], AmountIf(Losing())) == LossTo(pnl, n)
  {
    if n > 0 {
      GrossAdds(pnl, n - 1);
      assert pnl[..n][..n - 1] == pnl[..n - 1];
    }
  }

  lemma GrossOf(pnl: seq<Pnl>)
    ensures Sum(Filter(Measured(pnl), Winning())) == GainTo(pnl, |pnl|) && Sum(Filter(Measured(pnl), Losing())) == LossTo(pnl, |pnl|)
  {
    MeasuredWhere(pnl, Winning());
    MeasuredWhere(pnl, Losing());
    GrossAdds(pnl, |pnl|);
    assert pnl[..|pnl|] == pnl;
  }

  lemma CountsOf(pnl: seq<Pnl>)
    ensures |Filter(Measured(pnl), Winning())| == |set i: nat | i < |pnl| && pnl[i].Some? && pnl[i].value > 0.0|
    ensures |Filter(Measured(pnl), Losing())| == |set i: nat | i < |pnl| && pnl[i].Some? && pnl[i].value < 0.0|
  {
    MeasuredWhere(pnl, Winning());
    MeasuredWhere(pnl, Losing());
    assert Where(pnl, Meets(Winning())) == set i: nat | i < |pnl| && pnl[i].Some? && pnl[i].value > 0.0;
    assert Where(pnl, Meets(Losing())) == set i: nat | i < |pnl| && pnl[i].Some? && pnl[i].value < 0.0;
  }

  /** Wins are the trades measured above zero, losses those below, the others are level; the money goes with them. */
  function WinLossOver(pnl: seq<Pnl>): (w: WinLoss)
    ensures w.trades == |set i: nat | i < |pnl| && pnl[i].Some?| && w.trades + w.unmeasured == |pnl|
    ensures w.wins == |set i: nat | i < |pnl| && pnl[i].Some? && pnl[i].value > 0.0|
    ensures w.losses == |set i: nat | i < |pnl| && pnl[i].Some? && pnl[i].value < 0.0|
    ensures w.wins + w.losses + w.flat + w.unmeasured == |pnl|
    ensures w.grossProfit == GainTo(pnl, |pnl|) && w.grossLoss == LossTo(pnl, |pnl|)
    ensures w.grossProfit >= 0.0 >= w.grossLoss
    ensures (w.wins > 0 <==> w.grossProfit > 0.0) && (w.losses > 0 <==> w.grossLoss < 0.0)
    ensures w.net.Some? <==> w.trades > 0
    ensures w.net.Some? ==> w.net.value == w.grossProfit + w.grossLoss
  {
    var finite := Measured(pnl);
    var wins, losses := Filter(finite, Winning()), Filter(finite, Losing());
    WinnersAndLosers(finite);
    MeasuredAll(pnl);
    CountsOf(pnl);
    GrossOf(pnl);
    SignsOfGross(finite);
    WinLoss(|finite|, |pnl| - |finite|, |wins|, |losses|, |finite| - |wins| - |losses|,
            if finite != [] then Some(Sum(finite)) else None, Sum(wins), Sum(losses))
  }

  /** A missing net counts as nothing when nets are added up. */
  function NetOrZero(w: WinLoss): real { if w.net.Some? then w.net.value else 0.0 }

  // ------------------------------------------------------------------------
  // Groups
  // ------------------------------------------------------------------------

  datatype Group = Group(reason: string, summary: WinLoss, rows: nat, share: Option<real>)

  /** The P&Ls of the first `n` trades that exited for one reason. */
  function Masked(reasons: seq<string>, pnl: seq<Pnl>, reason: string, n: nat): seq<Pnl>
    requires n <= |reasons| == |pnl|
  {
    if n == 0 then []
    else Masked(reasons, pnl, reason, n - 1) + (if reasons[n - 1] == reason then [pnl[n - 1]] else [])
  }

  function GroupOf(reasons: seq<string>, pnl: seq<Pnl>, reason: string): Group
    requires |reasons| == |pnl|
  {
    var mine := Masked(reasons, pnl, reason, |reasons|);
    Group(reason, WinLossOver(mine), |mine|, if |reasons| > 0 then Some(|mine| as real / |reasons| as real) else None)
  }

  function Groups(reasons: seq<string>, pnl: seq<Pnl>, keys: seq<string>): (gs: seq<Group>)
    requires |reasons| == |pnl|
    ensures |gs| == |keys|
  {
    seq(|keys|, k requires 0 <= k < |keys| => GroupOf(reasons, pnl, keys[k]))
  }

  /** `sorted(set(reasons))`. */
  function Keys(reasons: seq<string>): seq<string> {
    Sorted(FromKeys(reasons), Alphabetical())
  }

  /** Most profitable first; groups with nothing measured last. */
  predicate NoLessProfitable(a: Option<real>, b: Option<real>) {
    b.None? || (a.Some? && a.value >= b.value)
  }

  function ByNet(): (Group, Group) -> bool {
    (a: Group, b: Group) => NoLessProfitable(a.summary.net, b.summary.net)
  }

  function ByReason(): (Group, Group) -> bool {
    (a: Group, b: Group) => StringLeq(a.reason, b.reason)
  }

  // ------------------------------------------------------------------------
  // The order of the rows
  // ------------------------------------------------------------------------

  lemma KeysAreTheReasons(reasons: seq<string>)
    ensures SortedBy(Keys(reasons), Alphabetical()) && NoRepeats(Keys(reasons))
    ensures forall r :: r in Keys(reasons) <==> r in reasons
  {
    var firsts := FromKeys(reasons);
    AlphabeticalIsPreorder();
    SortedSorts(firsts, Alphabetical());
    SortedMembers(firsts, Alphabetical());
    NoRepeatsAnyOrder(firsts, Keys(reasons));
  }

  lemma ByNetIsPreorder()
    ensures TotalPreorder(ByNet())
  {
    forall x: Group, y: Group ensures ByNet()(x, y) || ByNet()(y, x) {
      assert NoLessProfitable(x.summary.net, y.summary.net) || NoLessProfitable(y.summary.net, x.summary.net);
    }
    forall x: Group, y: Group, z: Group | ByNet()(x, y) && ByNet()(y, z) ensures ByNet()(x, z) {
      assert NoLessProfitable(x.summary.net, z.summary.net);
    }
  }

  /** Rows come out by descending net P&L, unmeasured groups last, ties alphabetical. */
  lemma RowsAreRanked(reasons: seq<string>, pnl: seq<Pnl>)
    requires |reasons| == |pnl|
    ensures Lexicographic(Sorted(Groups(reasons, pnl, Keys(reasons)), ByNet()), ByNet(), ByReason())
  {
    var groups := Groups(reasons, pnl, Keys(reasons));
    KeysAreTheReasons(reasons);
    forall i, j | 0 <= i < j < |groups| ensures ByReason()(groups[i], groups[j]) {
      assert Alphabetical()(Keys(reasons)[i], Keys(reasons)[j]);
    }
    ByNetIsPreorder();
    SortedIsStable(groups, ByNet(), ByReason());
  }

  // ------------------------------------------------------------------------
  // Conservation
  // ------------------------------------------------------------------------

  function AddedTo(pnl: seq<Pnl>, val: Pnl -> real, n: nat): real
    requires n <= |pnl|
  {
    if n == 0 then 0.0 else AddedTo(pnl, val, n - 1) + val(pnl[n - 1])
  }

  lemma {:induction false} AddedIsAddedTo(pnl: seq<Pnl>, val: Pnl -> real, n: nat)
    requires n <= |pnl|
    ensures Added(pnl[..n], val) == AddedTo(pnl, val, n)
  {
    if n > 0 {
      AddedIsAddedTo(pnl, val, n - 1);
      assert pnl[..n][..n - 1] == pnl[..n - 1];
    }
  }

  function AddedByKey(reasons: seq<string>, pnl: seq<Pnl>, keys: seq<string>, val: Pnl -> real, n: nat): (xs: seq<real>)
    requires n <= |reasons| == |pnl|
    ensures |xs| == |keys|
  {
    seq(|keys|, k requires 0 <= k < |keys| => Added(Masked(reasons, pnl, keys[k], n), val))
  }

  function Indicator(keys: seq<string>, reason: string): (xs: seq<real>)
    ensures |xs| == |keys|
  {
    seq(|keys|, k requires 0 <= k < |keys| => if keys[k] == reason then 1.0 else 0.0)
  }

  lemma {:induction false} IndicatorSums(keys: seq<string>, reason: string, n: nat)
    requires NoRepeats(keys) && n <= |keys|
    ensures SumTo(Indicator(keys, reason), n) == if reason in keys[..n] then 1.0 else 0.0
  {
    if n > 0 {
      IndicatorSums(keys, reason, n - 1);
      assert keys[..n] == keys[..n - 1] + [keys[n - 1]];
      if keys[n - 1] == reason { assert reason !in keys[..n - 1]; }
    }
  }

  lemma AddedSnoc(pnl: seq<Pnl>, p: Pnl, val: Pnl -> real)
    ensures Added(pnl + [p], val) == Added(pnl, val) + val(p)
  {
    assert (pnl + [p])[..|pnl|] == pnl;
  }

  /** One more trade adds its amount to its own group and nothing to the others. */
  lemma OneMoreTrade(reasons: seq<string>, pnl: seq<Pnl>, key: string, val: Pnl -> real, n: nat)
    requires 0 < n <= |reasons| == |pnl|
    ensures Added(Masked(reasons, pnl, key, n), val)
      == Added(Masked(reasons, pnl, key, n - 1), val) + (if key == reasons[n - 1] then val(pnl[n - 1]) else 0.0)
  {
    var before := Masked(reasons, pnl, key, n - 1);
    AddedSnoc(before, pnl[n - 1], val);
    assert Masked(reasons, pnl, key, n) == if reasons[n - 1] == key then before + [pnl[n - 1]] else before;
  }

  /**
    Any quantity that adds up over trades adds up to the same total over the groups:
    every trade is in exactly one group.
  */
  lemma {:induction false} GroupsConserve(reasons: seq<string>, pnl: seq<Pnl>, keys: seq<string>, val: Pnl -> real, n: nat)
    requires n <= |reasons| == |pnl| && NoRepeats(keys)
    requires forall r :: r in reasons ==> r in keys
    ensures Sum(AddedByKey(reasons, pnl, keys, val, n)) == AddedTo(pnl, val, n)
  {
    var now := AddedByKey(reasons, pnl, keys, val, n);
    if n == 0 {
      SumOfConstant(now, 0.0, |keys|);
      assert |keys| as real * 0.0 == 0.0;
    } else {
      var before, hit, v := AddedByKey(reasons, pnl, keys, val, n - 1), Indicator(keys, reasons[n - 1]), val(pnl[n - 1]);
      GroupsConserve(reasons, pnl, keys, val, n - 1);
      forall k | 0 <= k < |keys| ensures now[k] == before[k] + v * hit[k] {
        OneMoreTrade(reasons, pnl, keys[k], val, n);
      }
      SumAdds(before, hit, now, v);
      IndicatorSums(keys, reasons[n - 1], |keys|);
      assert keys[..|keys|] == keys;
      assert reasons[n - 1] in keys;
    }
  }

  // ------------------------------------------------------------------------
  // From sequences of groups to sums over the sorted rows
  // ------------------------------------------------------------------------

  function Total(rows: seq<Group>, f: Group -> real): real {
    if rows == [] then 0.0 else Total(rows[..|rows| - 1], f) + f(rows[|rows| - 1])
  }

  lemma {:induction false} TotalInserted(rows: seq<Group>, x: Group, leq: (Group, Group) -> bool, f: Group -> real)
    ensures Total(Insert(rows, x, leq), f) == Total(rows, f) + f(x)
  {
    if rows == [] || leq(rows[|rows| - 1], x) {
      assert (rows + [x])[..|rows|] == rows;
    } else {
      var front, last := rows[..|rows| - 1], rows[|rows| - 1];
      TotalInserted(front, x, leq, f);
      assert (Insert(front, x, leq) + [last])[..|Insert(front, x, leq)|] == Insert(front, x, leq);
    }
  }

  /** Sorting the rows changes no total over them. */
  lemma {:induction false} TotalSorted(rows: seq<Group>, leq: (Group, Group) -> bool, f: Group -> real)
    ensures Total(Sorted(rows, leq), f) == Total(rows, f)
  {
    if rows != [] {
      TotalSorted(rows[..|rows| - 1], leq, f);
      TotalInserted(Sorted(rows[..|rows| - 1], leq), rows[|rows| - 1], leq, f);
    }
  }

  function Values(rows: seq<Group>, f: Group -> real): (xs: seq<real>)
    ensures |xs| == |rows|
  {
    seq(|rows|, k requires 0 <= k < |rows| => f(rows[k]))
  }

  lemma {:induction false} TotalIsSum(rows: seq<Group>, f: Group -> real)
    ensures Total(rows, f) == Sum(Values(rows, f))
  {
    if rows != [] {
      var front := rows[..|rows| - 1];
      TotalIsSum(front, f);
      assert Values(rows, f) == Values(front, f) + [f(rows[|rows| - 1])];
      SumSnoc(Values(front, f), f(rows[|rows| - 1]));
    }
  }

  /** The rows' values of `f`, when `f` is what `val` adds up to over a group's trades. */
  lemma RowsTotal(reasons: seq<string>, pnl: seq<Pnl>, f: Group -> real, val: Pnl -> real)
    requires |reasons| == |pnl|
    requires forall r :: f(GroupOf(reasons, pnl, r)) == Added(Masked(reasons, pnl, r, |reasons|), val)
    ensures Total(Sorted(Groups(reasons, pnl, Keys(reasons)), ByNet()), f) == Added(pnl, val)
  {
    var keys, groups, n := Keys(reasons), Groups(reasons, pnl, Keys(reasons)), |reasons|;
    KeysAreTheReasons(reasons);
    TotalSorted(groups, ByNet(), f);
    TotalIsSum(groups, f);
    forall k | 0 <= k < |keys| ensures Values(groups, f)[k] == AddedByKey(reasons, pnl, keys, val, n)[k] {
      assert groups[k] == GroupOf(reasons, pnl, keys[k]);
    }
    SumToAgrees(Values(groups, f), AddedByKey(reasons, pnl, keys, val, n), |keys|);
    GroupsConserve(reasons, pnl, keys, val, n);
    AddedIsAddedTo(pnl, val, n);
    assert pnl[..n] == pnl;
  }

  function One(): Pnl -> real { (p: Pnl) => 1.0 }
  function Amount(): Pnl -> real { (p: Pnl) => if p.Some? then p.value else 0.0 }
  function RowCount(): Group -> real { (g: Group) => g.rows as real }
  function Net(): Group -> real { (g: Group) => NetOrZero(g.summary) }
  function Share(): Group -> real { (g: Group) => if g.share.Some? then g.share.value else 0.0 }

  lemma {:induction false} AddedOnes(pnl: seq<Pnl>)
    ensures Added(pnl, One()) == |pnl| as real
  {
    if pnl != [] { AddedOnes(pnl[..|pnl| - 1]); }
  }

  lemma {:induction false} AddedAmounts(pnl: seq<Pnl>)
    ensures Added(pnl, Amount()) == Sum(Measured(pnl))
  {
    if pnl != [] {
      var front, last := pnl[..|pnl| - 1], pnl[|pnl| - 1];
      AddedAmounts(front);
      if last.Some? {
        SumSnoc(Measured(front), last.value);
      } else {
        assert Measured(pnl) == Measured(front);
      }
    }
  }

  lemma NetIsSum(pnl: seq<Pnl>)
    ensures NetOrZero(WinLossOver(pnl)) == Added(pnl, Amount())
  {
    AddedAmounts(pnl);
  }

  /** Every trade is in exactly one row, and the rows' nets add up to the overall net. */
  lemma BreakdownConserves(reasons: seq<string>, pnl: seq<Pnl>)
    requires |reasons| == |pnl|
    ensures var rows := Sorted(Groups(reasons, pnl, Keys(reasons)), ByNet());
      Total(rows, RowCount()) == |reasons| as real && Total(rows, Net()) == NetOrZero(WinLossOver(pnl))
  {
    forall r ensures RowCount()(GroupOf(reasons, pnl, r)) == Added(Masked(reasons, pnl, r, |reasons|), One()) {
      AddedOnes(Masked(reasons, pnl, r, |reasons|));
    }
    RowsTotal(reasons, pnl, RowCount(), One());
    AddedOnes(pnl);
    forall r ensures Net()(GroupOf(reasons, pnl, r)) == Added(Masked(reasons, pnl, r, |reasons|), Amount()) {
      NetIsSum(Masked(reasons, pnl, r, |reasons|));
    }
    RowsTotal(reasons, pnl, Net(), Amount());
    NetIsSum(pnl);
  }

  lemma {:induction false} SharesAreScaledRows(rows: seq<Group>, n: nat)
    requires n > 0
    requires forall k :: 0 <= k < |rows| ==> rows[k].share == Some(rows[k].rows as real / n as real)
    ensures Total(rows, Share()) == (1.0 / n as real) * Total(rows, RowCount())
  {
    if rows != [] {
      SharesAreScaledRows(rows[..|rows| - 1], n);
      Distribute(1.0 / n as real, Total(rows[..|rows| - 1], RowCount()), rows[|rows| - 1].rows as real);
    }
  }

  lemma WholeOverItself(x: real, n: real)
    requires n > 0.0 && x == n
    ensures (1.0 / n) * x == 1.0
  {
  }

  lemma SharesOfAll(rows: seq<Group>, n: nat)
    requires n > 0 && Total(rows, RowCount()) == n as real
    requires forall k :: 0 <= k < |rows| ==> rows[k].share == Some(rows[k].rows as real / n as real)
    ensures Total(rows, Share()) == 1.0
  {
    SharesAreScaledRows(rows, n);
    WholeOverItself(Total(rows, RowCount()), n as real);
  }

  /** The shares sum to one whenever there are trades. */
  lemma SharesSumToOne(reasons: seq<string>, pnl: seq<Pnl>)
    requires |reasons| == |pnl| > 0
    ensures Total(Sorted(Groups(reasons, pnl, Keys(reasons)), ByNet()), Share()) == 1.0
  {
    var groups, n := Groups(reasons, pnl, Keys(reasons)), |reasons|;
    assert Total(groups, RowCount()) == n as real by {
      BreakdownConserves(reasons, pnl);
      TotalSorted(groups, ByNet(), RowCount());
    }
    SharesOfAll(groups, n);
    TotalSorted(groups, ByNet(), Share());
  }

  // ------------------------------------------------------------------------
  // The breakdown
  // ------------------------------------------------------------------------

  /** More net before less, anything measured before nothing, and equals by their reasons in dictionary order. */
  predicate Ranked(a: Group, b: Group) {
    match b.summary.net
    case None => a.summary.net.None? ==> StringLeq(a.reason, b.reason)
    case Some(y) => a.summary.net.Some? && (a.summary.net.value > y || (a.summary.net.value == y && StringLeq(a.reason, b.reason)))
  }

  /** What the trades that left for one reason gained, over the first `n`; and what they lost. */
  ghost function GainOf(reasons: seq<string>, pnl: seq<Pnl>, reason: string, n: nat): real
    requires n <= |reasons| == |pnl|
  {
    if n == 0 then 0.0 else
      var x := pnl[n - 1];
      GainOf(reasons, pnl, reason, n - 1) + (if reasons[n - 1] == reason && x.Some? && x.value > 0.0 then x.value else 0.0)
  }

  ghost function LossOf(reasons: seq<string>, pnl: seq<Pnl>, reason: string, n: nat): real
    requires n <= |reasons| == |pnl|
  {
    if n == 0 then 0.0 else
      var x := pnl[n - 1];
      LossOf(reasons, pnl, reason, n - 1) + (if reasons[n - 1] == reason && x.Some? && x.value < 0.0 then x.value else 0.0)
  }

  /** How many trades left for a reason, and how many of those were measured, won and lost. */
  ghost predicate CountsTrades(w: WinLoss, rows: nat, reasons: seq<string>, pnl: seq<Pnl>, reason: string)
    requires |reasons| == |pnl|
  {
    var n := |reasons|;
    && rows == |set i: nat | i < n && reasons[i] == reason|
    && w.trades == |set i: nat | i < n && reasons[i] == reason && pnl[i].Some?| && w.trades + w.unmeasured == rows
    && w.wins == |set i: nat | i < n && reasons[i] == reason && pnl[i].Some? && pnl[i].value > 0.0|
    && w.losses == |set i: nat | i < n && reasons[i] == reason && pnl[i].Some? && pnl[i].value < 0.0|
  }

  /** What they made and lost, and both together where any was measured. */
  ghost predicate AddsTrades(w: WinLoss, reasons: seq<string>, pnl: seq<Pnl>, reason: string)
    requires |reasons| == |pnl|
  {
    && w.grossProfit == GainOf(reasons, pnl, reason, |reasons|) && w.grossLoss == LossOf(reasons, pnl, reason, |reasons|)
    && w.net == if w.trades > 0 then Some(w.grossProfit + w.grossLoss) else None
  }

  /** A row is about the trades of its reason: how many, which share of all, how many won and lost, and how much. */
  ghost predicate Summarizes(g: Group, reasons: seq<string>, pnl: seq<Pnl>)
    requires |reasons| == |pnl|
  {
    && CountsTrades(g.summary, g.rows, reasons, pnl, g.reason) && AddsTrades(g.summary, reasons, pnl, g.reason)
    && g.share.Some? && g.share.value * |reasons| as real == g.rows as real
  }

  method ExitReasonBreakdown(reasons: seq<string>, pnl: seq<Pnl>) returns (rows: seq<Group>)
    requires |reasons| == |pnl|
    ensures rows == Sorted(Groups(reasons, pnl, Keys(reasons)), ByNet())
    ensures forall r :: r in reasons <==> exists k :: 0 <= k < |rows| && rows[k].reason == r
    ensures forall j, k :: 0 <= j < k < |rows| ==> rows[j].reason != rows[k].reason && Ranked(rows[j], rows[k])
    ensures forall k :: 0 <= k < |rows| ==> Summarizes(rows[k], reasons, pnl)
  {
    var keys := Keys(reasons);
    ghost var groups := Groups(reasons, pnl, keys);
    rows := [];
    for k := 0 to |keys|
      invariant rows == groups[..k]
    {
      assert groups[..k + 1] == groups[..k] + [groups[k]];
      rows := rows + [GroupOf(reasons, pnl, keys[k])];
    }
    assert groups[..|keys|] == groups;
    rows := Sorted(rows, ByNet());
    RowsSummarize(reasons, pnl);
  }


  ghost function WhereOf(reasons: seq<string>, pnl: seq<Pnl>, reason: string, p: Pnl -> bool, n: nat): set<nat>
    requires n <= |reasons| == |pnl|
  {
    set i: nat | i < n && reasons[i] == reason && p(pnl[i])
  }

  lemma {:induction false} MaskedWhere(reasons: seq<string>, pnl: seq<Pnl>, reason: string, p: Pnl -> bool, n: nat)
    requires n <= |reasons| == |pnl|
    ensures |Where(Masked(reasons, pnl, reason, n), p)| == |WhereOf(reasons, pnl, reason, p, n)|
  {
    var mine := Masked(reasons, pnl, reason, n);
    if n == 0 {
      assert Where(mine, p) == {} && WhereOf(reasons, pnl, reason, p, n) == {};
    } else {
      MaskedWhere(reasons, pnl, reason, p, n - 1);
      var hit := reasons[n - 1] == reason && p(pnl[n - 1]);
      assert WhereOf(reasons, pnl, reason, p, n) == WhereOf(reasons, pnl, reason, p, n - 1) + (if hit then {n - 1} else {});
      if reasons[n - 1] == reason {
        WhereNext(mine, p);
        assert mine[..|mine| - 1] == Masked(reasons, pnl, reason, n - 1);
      } else {
        assert mine == Masked(reasons, pnl, reason, n - 1);
      }
    }
  }

  lemma {:induction false} MaskedGross(reasons: seq<string>, pnl: seq<Pnl>, reason: string, n: nat)
    requires n <= |reasons| == |pnl|
    ensures Added(Masked(reasons, pnl, reason, n), AmountIf(Winning())) == GainOf(reasons, pnl, reason, n)
    ensures Added(Masked(reasons, pnl, reason, n), AmountIf(Losing())) == LossOf(reasons, pnl, reason, n)
  {
    if n > 0 {
      MaskedGross(reasons, pnl, reason, n - 1);
      OneMoreTrade(reasons, pnl, reason, AmountIf(Winning()), n);
      OneMoreTrade(reasons, pnl, reason, AmountIf(Losing()), n);
    }
  }

  lemma GrossOfMasked(reasons: seq<string>, pnl: seq<Pnl>, reason: string)
    requires |reasons| == |pnl|
    ensures AddsTrades(WinLossOver(Masked(reasons, pnl, reason, |reasons|)), reasons, pnl, reason)
  {
    var mine := Masked(reasons, pnl, reason, |reasons|);
    MaskedGross(reasons, pnl, reason, |reasons|);
    GrossAdds(mine, |mine|);
    assert mine[..|mine|] == mine;
  }

  function IsAny(): Pnl -> bool { (x: Pnl) => true }

  lemma CountsOfMasked(reasons: seq<string>, pnl: seq<Pnl>, reason: string)
    requires |reasons| == |pnl|
    ensures var mine := Masked(reasons, pnl, reason, |reasons|); CountsTrades(WinLossOver(mine), |mine|, reasons, pnl, reason)
  {
    var mine, n := Masked(reasons, pnl, reason, |reasons|), |reasons|;
    MaskedAll(reasons, pnl, reason);
    MaskedWhere(reasons, pnl, reason, Meets(Any()), n);
    MaskedWhere(reasons, pnl, reason, Meets(Winning()), n);
    MaskedWhere(reasons, pnl, reason, Meets(Losing()), n);
    assert Where(mine, Meets(Any())) == set i: nat | i < |mine| && mine[i].Some?;
    assert Where(mine, Meets(Winning())) == set i: nat | i < |mine| && mine[i].Some? && mine[i].value > 0.0;
    assert Where(mine, Meets(Losing())) == set i: nat | i < |mine| && mine[i].Some? && mine[i].value < 0.0;
    assert WhereOf(reasons, pnl, reason, Meets(Any()), n) == set i: nat | i < n && reasons[i] == reason && pnl[i].Some?;
    assert WhereOf(reasons, pnl, reason, Meets(Winning()), n) == set i: nat | i < n && reasons[i] == reason && pnl[i].Some? && pnl[i].value > 0.0;
    assert WhereOf(reasons, pnl, reason, Meets(Losing()), n) == set i: nat | i < n && reasons[i] == reason && pnl[i].Some? && pnl[i].value < 0.0;
  }

  lemma {:induction false} WhereAll(pnl: seq<Pnl>)
    ensures |Where(pnl, IsAny())| == |pnl|
  {
    if pnl == [] {
      assert Where(pnl, IsAny()) == {};
    } else {
      WhereAll(pnl[..|pnl| - 1]);
      WhereNext(pnl, IsAny());
    }
  }

  lemma MaskedAll(reasons: seq<string>, pnl: seq<Pnl>, reason: string)
    requires |reasons| == |pnl|
    ensures |Masked(reasons, pnl, reason, |reasons|)| == |set i: nat | i < |reasons| && reasons[i] == reason|
  {
    WhereAll(Masked(reasons, pnl, reason, |reasons|));
    MaskedWhere(reasons, pnl, reason, IsAny(), |reasons|);
    assert WhereOf(reasons, pnl, reason, IsAny(), |reasons|) == set i: nat | i < |reasons| && reasons[i] == reason;
  }

  lemma ShareOf(rows: nat, n: nat)
    requires n > 0
    ensures (rows as real / n as real) * n as real == rows as real
  {
  }

  lemma Assembled(g: Group, reasons: seq<string>, pnl: seq<Pnl>)
    requires |reasons| == |pnl| > 0 && g.share == Some(g.rows as real / |reasons| as real)
    requires CountsTrades(g.summary, g.rows, reasons, pnl, g.reason) && AddsTrades(g.summary, reasons, pnl, g.reason)
    ensures Summarizes(g, reasons, pnl)
  {
    ShareOf(g.rows, |reasons|);
  }

  lemma GroupParts(reasons: seq<string>, pnl: seq<Pnl>, reason: string, g: Group)
    requires |reasons| == |pnl| > 0 && g == GroupOf(reasons, pnl, reason)
    ensures g.reason == reason && g.share == Some(g.rows as real / |reasons| as real)
    ensures CountsTrades(g.summary, g.rows, reasons, pnl, reason) && AddsTrades(g.summary, reasons, pnl, reason)
  {
    CountsOfMasked(reasons, pnl, reason);
    GrossOfMasked(reasons, pnl, reason);
  }

  lemma GroupSummarizes(reasons: seq<string>, pnl: seq<Pnl>, reason: string)
    requires |reasons| == |pnl| > 0
    ensures Summarizes(GroupOf(reasons, pnl, reason), reasons, pnl)
  {
    var g := GroupOf(reasons, pnl, reason);
    GroupParts(reasons, pnl, reason, g);
    Assembled(g, reasons, pnl);
  }

  /** Groups told apart by their reasons stay so in any order. */
  lemma DistinctInAnyOrder(groups: seq<Group>, rows: seq<Group>)
    requires multiset(groups) == multiset(rows) && forall a, b :: 0 <= a < b < |groups| ==> groups[a].reason != groups[b].reason
    ensures forall j, k :: 0 <= j < k < |rows| ==> rows[j].reason != rows[k].reason
  {
    NoRepeatsAnyOrder(groups, rows);
    forall j, k | 0 <= j < k < |rows| ensures rows[j].reason != rows[k].reason {
      MultisetMember(rows, groups, rows[j]);
      MultisetMember(rows, groups, rows[k]);
    }
  }

  lemma GroupsAreDistinct(reasons: seq<string>, pnl: seq<Pnl>)
    requires |reasons| == |pnl|
    ensures var groups := Groups(reasons, pnl, Keys(reasons)); forall a, b :: 0 <= a < b < |groups| ==> groups[a].reason != groups[b].reason
  {
    KeysAreTheReasons(reasons);
  }

  lemma GroupOfReason(reasons: seq<string>, pnl: seq<Pnl>, r: string)
    requires |reasons| == |pnl| && r in reasons
    ensures GroupOf(reasons, pnl, r) in Groups(reasons, pnl, Keys(reasons)) && GroupOf(reasons, pnl, r).reason == r
  {
    KeysAreTheReasons(reasons);
    var k :| 0 <= k < |Keys(reasons)| && Keys(reasons)[k] == r;
    assert Groups(reasons, pnl, Keys(reasons))[k] == GroupOf(reasons, pnl, r);
  }

  lemma EachGroupSummarizes(reasons: seq<string>, pnl: seq<Pnl>, g: Group)
    requires |reasons| == |pnl| && g in Groups(reasons, pnl, Keys(reasons))
    ensures g.reason in reasons && Summarizes(g, reasons, pnl)
  {
    KeysAreTheReasons(reasons);
    var k :| 0 <= k < |Keys(reasons)| && Groups(reasons, pnl, Keys(reasons))[k] == g;
    assert Keys(reasons)[k] in Keys(reasons);
    GroupSummarizes(reasons, pnl, Keys(reasons)[k]);
  }

  lemma RankedRows(rows: seq<Group>)
    requires Lexicographic(rows, ByNet(), ByReason())
    ensures forall j, k :: 0 <= j < k < |rows| ==> Ranked(rows[j], rows[k])
  {
    forall j, k | 0 <= j < k < |rows| ensures Ranked(rows[j], rows[k]) {
      assert ByNet()(rows[j], rows[k]) && (ByNet()(rows[k], rows[j]) ==> ByReason()(rows[j], rows[k]));
    }
  }

  /** One row for each reason, about that reason's trades, and the rows in rank. */
  lemma RowsSummarize(reasons: seq<string>, pnl: seq<Pnl>)
    requires |reasons| == |pnl|
    ensures var rows := Sorted(Groups(reasons, pnl, Keys(reasons)), ByNet());
      && (forall r :: r in reasons <==> exists k :: 0 <= k < |rows| && rows[k].reason == r)
      && (forall j, k :: 0 <= j < k < |rows| ==> rows[j].reason != rows[k].reason && Ranked(rows[j], rows[k]))
      && (forall k :: 0 <= k < |rows| ==> Summarizes(rows[k], reasons, pnl))
  {
    var groups := Groups(reasons, pnl, Keys(reasons));
    var rows := Sorted(groups, ByNet());
    ByNetIsPreorder();
    SortedSorts(groups, ByNet());
    GroupsAreDistinct(reasons, pnl);
    DistinctInAnyOrder(groups, rows);
    RowsAreRanked(reasons, pnl);
    RankedRows(rows);
    forall k | 0 <= k < |rows| ensures rows[k].reason in reasons && Summarizes(rows[k], reasons, pnl) {
      MultisetMember(rows, groups, rows[k]);
      EachGroupSummarizes(reasons, pnl, rows[k]);
    }
    forall r | r in reasons ensures exists k :: 0 <= k < |rows| && rows[k].reason == r {
      GroupOfReason(reasons, pnl, r);
      MultisetMember(groups, rows, GroupOf(reasons, pnl, r));
      var k :| 0 <= k < |rows| && rows[k] == GroupOf(reasons, pnl, r);
    }
  }
}
