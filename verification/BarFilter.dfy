/** The filter object: counts what it saw and rejected, remembers each symbol's last bar. */
module BarFilter {
  import opened Options
  import opened BarChecks
  import opened BarStream

  type Counter = map<Reason, nat>

  /** `sum(counter.values())`. */
  ghost function Sum(m: Counter): nat {
    if m == map[] then 0 else
      var r :| r in m;
      m[r] + Sum(m - {r})
  }

  lemma SumUnfolds(m: Counter) returns (q: Reason)
    requires m != map[]
    ensures q in m && Sum(m) == m[q] + Sum(m - {q})
  {
    q :| q in m && Sum(m) == m[q] + Sum(m - {q});
  }

  lemma Shrinks(m: Counter, r: Reason)
    requires r in m
    ensures |m - {r}| < |m|
  {
    assert (m - {r}).Keys == m.Keys - {r};
  }

  /** The sum does not depend on the order the entries are taken in. */
  lemma {:induction false} SumTakesAny(m: Counter, r: Reason)
    requires r in m
    ensures Sum(m) == m[r] + Sum(m - {r})
    decreases |m|
  {
    var q := SumUnfolds(m);
    if q != r {
      Shrinks(m, q);
      Shrinks(m, r);
      SumTakesAny(m - {q}, r);
      SumTakesAny(m - {r}, q);
      assert m - {q} - {r} == m - {r} - {q};
    }
  }

  function Got(m: Counter, r: Reason): nat { if r in m then m[r] else 0 }

  lemma SumBump(m: Counter, r: Reason)
    ensures Sum(m[r := Got(m, r) + 1]) == Sum(m) + 1
  {
    var bumped := m[r := Got(m, r) + 1];
    SumTakesAny(bumped, r);
    if r in m {
      SumTakesAny(m, r);
      assert bumped - {r} == m - {r};
    } else {
      assert bumped - {r} == m;
    }
  }

  function CountOf(js: seq<(Tick, Verdict)>, v: Verdict): nat {
    if js == [] then 0 else CountOf(js[..|js| - 1], v) + (if js[|js| - 1].1 == v then 1 else 0)
  }

  function RejectedIn(js: seq<(Tick, Verdict)>): nat {
    if js == [] then 0 else RejectedIn(js[..|js| - 1]) + (if js[|js| - 1].1.Rejected? then 1 else 0)
  }

  /** The rejection counter of a judged stream: per reason how often, and nothing else. */
  ghost predicate Tallies(m: Counter, js: seq<(Tick, Verdict)>) {
    && (forall r :: Got(m, r) == CountOf(js, Rejected(r)))
    && (forall r :: r in m ==> m[r] > 0)
    && Sum(m) == RejectedIn(js)
  }

  /** Every bar of a stream is accepted, rejected, or raised: nothing is lost to the counts. */
  lemma {:induction false} EveryBarIsCounted(js: seq<(Tick, Verdict)>)
    ensures |js| == CountOf(js, Accepted) + RejectedIn(js) + CountOf(js, Raised)
  {
    if js != [] { EveryBarIsCounted(js[..|js| - 1]); }
  }

  /** One more verdict on the stream, one more count if it rejects. */
  lemma TallyStep(m: Counter, js: seq<(Tick, Verdict)>, t: Tick, v: Verdict)
    requires Tallies(m, js)
    ensures Tallies(if v.Rejected? then m[v.reason := Got(m, v.reason) + 1] else m, js + [(t, v)])
  {
    assert (js + [(t, v)])[..|js|] == js;
    if v.Rejected? { SumBump(m, v.reason); }
  }

  datatype Report = Report(seen: nat, rejected: nat, rate: real, byReason: Counter, elevated: bool)

  lemma SomeReason(m: Counter)
    requires m != map[]
    ensures exists k :: k in m.Keys
  {
    var q := SumUnfolds(m);
  }

  method TotalOf(m: Counter) returns (total: nat)
    ensures total == Sum(m)
  {
    total := 0;
    var left := m;
    while left != map[]
      invariant total + Sum(left) == Sum(m)
      decreases |left|
    {
      SomeReason(left);
      var k :| k in left.Keys;
      SumTakesAny(left, k);
      Shrinks(left, k);
      total := total + left[k];
      left := left - {k};
    }
  }

  /** The evaluation of one bar and, unless it is vetoed, the field by field update it causes. */
  method Absorb(config: Config, before: SymbolState, t: Tick) returns (st: SymbolState, verdict: Verdict)
    ensures verdict == Decide(config, before, t)
    ensures st == Remember(config, before, t)
  {
    st := before;
    verdict := Evaluate(config, before, t);
    if verdict != Accepted { return; }
    st := st.(last := Some(t.at));
    if !IsFloat(t.bar.close) { return st, Raised; }
    st := st.(close := Some(t.bar.close));
    if t.bar.volume.Garbage? { return st, Raised; }
    if t.bar.volume.Num? && t.bar.volume.v > 0.0 {
      st := st.(traded := true);
    }
  }

  /** What the object's fields say about everything it was shown. */
  ghost predicate Tracks(config: Config, ticks: seq<Tick>, seen: nat, state: States, rejected: Counter) {
    seen == |ticks| && state == Run(config, ticks) && Tallies(rejected, Judged(config, ticks))
  }

  function Bumped(m: Counter, v: Verdict): Counter {
    if v.Rejected? then m[v.reason := Got(m, v.reason) + 1] else m
  }

  lemma TracksOneMore(config: Config, ticks: seq<Tick>, seen: nat, state: States, rejected: Counter, t: Tick, st: SymbolState, v: Verdict)
    requires Tracks(config, ticks, seen, state, rejected)
    requires st == Remember(config, Of(state, t.symbol), t) && v == Decide(config, Of(state, t.symbol), t)
    ensures Tracks(config, ticks + [t], seen + 1, state[t.symbol := st], Bumped(rejected, v))
    ensures Judged(config, ticks + [t]) == Judged(config, ticks) + [(t, v)]
  {
    OneMore(config, ticks, t);
    TallyStep(rejected, Judged(config, ticks), t, v);
  }

  class BarQualityFilter {
    const config: Config
    var rejected: Counter
    var seen: nat
    var state: States
    /** Everything the filter was shown. */
    ghost var ticks: seq<Tick>

    ghost predicate Valid()
      reads this
    {
      Tracks(config, ticks, seen, state, rejected)
    }

    constructor (config: Config)
      ensures Valid() && ticks == [] && this.config == config
    {
      this.config := config;
      rejected, seen, state, ticks := map[], 0, map[], [];
    }

    /** The verdict on one bar; a vetoed bar never becomes the baseline for the next. */
    method Check(t: Tick) returns (verdict: Verdict)
      requires Valid()
      modifies this
      ensures Valid() && ticks == old(ticks) + [t]
      ensures Judged(config, ticks) == Judged(config, old(ticks)) + [(t, verdict)]
    {
      var st;
      st, verdict := Absorb(config, Of(state, t.symbol), t);
      TracksOneMore(config, ticks, seen, state, rejected, t, st, verdict);
      seen := seen + 1;
      if verdict.Rejected? {
        rejected := rejected[verdict.reason := Got(rejected, verdict.reason) + 1];
      }
      state := state[t.symbol := st];
      ticks := ticks + [t];
    }

    /** The counts as a rate, and whether it is one to act on. */
    method ReportCounts() returns (r: Report)
      requires Valid()
      ensures r.seen == |ticks| && r.byReason == rejected
      ensures r.rejected == RejectedIn(Judged(config, ticks)) <= r.seen
      ensures r.rate == if r.seen > 0 then r.rejected as real / r.seen as real else 0.0
      ensures r.elevated <==> r.rejected > 5 && 20 * r.rejected > r.seen
    {
      var total := TotalOf(rejected);
      RejectedIsSome(config, ticks);
      var rate := if seen != 0 then total as real / seen as real else 0.0;
      if seen > 0 { OneInTwenty(total, seen); }
      r := Report(seen, total, rate, rejected, rate > 0.05 && total > 5);
    }
  }

  lemma RejectedIsSome(config: Config, ticks: seq<Tick>)
    ensures RejectedIn(Judged(config, ticks)) <= |ticks|
  {
    EveryBarIsCounted(Judged(config, ticks));
  }

  lemma OneInTwenty(total: nat, seen: nat)
    requires seen > 0
    ensures total as real / seen as real > 0.05 <==> 20 * total > seen
  {
    var rate, n := total as real / seen as real, seen as real;
    assert rate * n == total as real;
    assert rate > 0.05 ==> rate * n > 0.05 * n;
    assert rate <= 0.05 ==> rate * n <= 0.05 * n;
    assert 20 * total > seen <==> 20.0 * (total as real) > n;
  }
}
