/**
  The bar filter over whole streams: replayable, per symbol, ordered, and bounded.
*/
module BarStream {
  import opened Options
  import opened Seqs
  import opened Stamps
  import opened BarChecks

  type States = map<Symbol, SymbolState>

  function Of(m: States, s: Symbol): SymbolState {
    if s in m then m[s] else BLANK
  }

  /** The states after a stream; every symbol seen gets an entry, as `setdefault` gives it. */
  function Run(c: Config, ticks: seq<Tick>): States {
    if ticks == [] then map[] else
      var before, t := Run(c, ticks[..|ticks| - 1]), ticks[|ticks| - 1];
      before[t.symbol := Remember(c, Of(before, t.symbol), t)]
  }

  /** Every bar of a stream with the verdict it got. */
  function Judged(c: Config, ticks: seq<Tick>): (js: seq<(Tick, Verdict)>)
    ensures |js| == |ticks|
  {
    if ticks == [] then [] else
      var front, t := ticks[..|ticks| - 1], ticks[|ticks| - 1];
      Judged(c, front) + [(t, Decide(c, Of(Run(c, front), t.symbol), t))]
  }

  function OfSymbol(s: Symbol): Tick -> bool {
    (t: Tick) => t.symbol == s
  }

  function JudgedOfSymbol(s: Symbol): ((Tick, Verdict)) -> bool {
    (j: (Tick, Verdict)) => j.0.symbol == s
  }

  lemma FilterSnoc<T>(xs: seq<T>, p: T -> bool)
    requires xs != []
    ensures Filter(xs, p) == Filter(xs[..|xs| - 1], p) + (if p(xs[|xs| - 1]) then [xs[|xs| - 1]] else [])
  {
    assert xs == xs[..|xs| - 1] + [xs[|xs| - 1]];
    FilterConcat(xs[..|xs| - 1], [xs[|xs| - 1]], p);
  }

  lemma OneMore(c: Config, ticks: seq<Tick>, t: Tick)
    ensures Run(c, ticks + [t]) == Run(c, ticks)[t.symbol := Remember(c, Of(Run(c, ticks), t.symbol), t)]
    ensures Judged(c, ticks + [t]) == Judged(c, ticks) + [(t, Decide(c, Of(Run(c, ticks), t.symbol), t))]
  {
    assert (ticks + [t])[..|ticks|] == ticks;
  }

  /**
    Symbols are judged independently: in any interleaving, a symbol's verdicts and its
    remembered state are those of a filter fed that symbol's bars alone.
  */
  lemma {:induction false} SymbolsAreIndependent(c: Config, ticks: seq<Tick>, s: Symbol)
    ensures Filter(Judged(c, ticks), JudgedOfSymbol(s)) == Judged(c, Filter(ticks, OfSymbol(s)))
    ensures Of(Run(c, ticks), s) == Of(Run(c, Filter(ticks, OfSymbol(s))), s)
  {
    if ticks != [] {
      var front, t := ticks[..|ticks| - 1], ticks[|ticks| - 1];
      assert ticks == front + [t];
      SymbolsAreIndependent(c, front, s);
      OneMore(c, front, t);
      FilterSnoc(ticks, OfSymbol(s));
      FilterSnoc(Judged(c, ticks), JudgedOfSymbol(s));
      var last := (t, Decide(c, Of(Run(c, front), t.symbol), t));
      assert Judged(c, ticks)[..|ticks| - 1] == Judged(c, front);
      assert Judged(c, ticks)[|ticks| - 1] == last && JudgedOfSymbol(s)(last) == (t.symbol == s);
      var own := Filter(front, OfSymbol(s));
      assert Filter(Judged(c, ticks), JudgedOfSymbol(s)) == Judged(c, own) + (if t.symbol == s then [last] else []);
      if t.symbol == s {
        OneMore(c, own, t);
        assert Filter(ticks, OfSymbol(s)) == own + [t];
      } else {
        assert Filter(ticks, OfSymbol(s)) == own;
      }
    }
  }

  // ------------------------------------------------------------------------
  // Replay
  // ------------------------------------------------------------------------

  /** The bars that reached the strategy. */
  function Passed(c: Config, ticks: seq<Tick>): seq<Tick> {
    if ticks == [] then [] else
      var front, t := ticks[..|ticks| - 1], ticks[|ticks| - 1];
      if Decide(c, Of(Run(c, front), t.symbol), t) == Accepted then Passed(c, front) + [t] else Passed(c, front)
  }

  /** No bar was remembered and then raised: what was taken in was also let through. */
  ghost predicate NothingHalfTaken(c: Config, ticks: seq<Tick>) {
    forall k :: 0 <= k < |ticks| ==>
      var st := Of(Run(c, ticks[..k]), ticks[k].symbol);
      Evaluate(c, st, ticks[k]) == Accepted ==> Decide(c, st, ticks[k]) == Accepted
  }

  /** With the consistency check on, which it is by default, that never happens. */
  lemma OhlcCheckPreventsHalfTaken(c: Config, ticks: seq<Tick>)
    requires c.checks.ohlc
    ensures NothingHalfTaken(c, ticks)
  {
  }

  lemma FrontNotHalfTaken(c: Config, ticks: seq<Tick>)
    requires NothingHalfTaken(c, ticks) && ticks != []
    ensures NothingHalfTaken(c, ticks[..|ticks| - 1])
    ensures var st := Of(Run(c, ticks[..|ticks| - 1]), ticks[|ticks| - 1].symbol);
            Evaluate(c, st, ticks[|ticks| - 1]) == Accepted ==> Decide(c, st, ticks[|ticks| - 1]) == Accepted
  {
    var front := ticks[..|ticks| - 1];
    forall k | 0 <= k < |front|
      ensures var st := Of(Run(c, front[..k]), front[k].symbol);
              Evaluate(c, st, front[k]) == Accepted ==> Decide(c, st, front[k]) == Accepted
    {
      assert front[..k] == ticks[..k];
    }
  }

  /**
    Reject, never repair: feeding only the accepted bars to a fresh filter accepts every
    one of them and ends with the same memory of every symbol.
  */
  lemma {:induction false} ReplayAcceptsAll(c: Config, ticks: seq<Tick>, s: Symbol)
    requires NothingHalfTaken(c, ticks)
    ensures forall j :: j in Judged(c, Passed(c, ticks)) ==> j.1 == Accepted
    ensures Of(Run(c, Passed(c, ticks)), s) == Of(Run(c, ticks), s)
  {
    if ticks != [] {
      var front, t := ticks[..|ticks| - 1], ticks[|ticks| - 1];
      FrontNotHalfTaken(c, ticks);
      ReplayAcceptsAll(c, front, s);
      ReplayAcceptsAll(c, front, t.symbol);
      OneMore(c, Passed(c, front), t);
    }
  }

  /** The replay law for one stream. */
  ghost predicate Replays(c: Config, ticks: seq<Tick>) {
    && (forall j :: j in Judged(c, Passed(c, ticks)) ==> j.1 == Accepted)
    && (forall s :: Of(Run(c, Passed(c, ticks)), s) == Of(Run(c, ticks), s))
  }

  /** A bar with an unreadable close that is fresh under any staleness limit. */
  function HalfReadable(c: Config): Tick {
    Tick("AAA", Bar(Num(1.0), Num(1.0), Num(1.0), Garbage, Num(1.0)), Stamp(0, None),
         Given(Stamp((c.interval as real * c.checks.maxStaleness).Floor, None)))
  }

  /** Without the consistency check that bar is remembered, then raised, and the replay differs. */
  lemma HalfTakenBarBreaksReplay(c: Config)
    requires !c.checks.ohlc
    ensures !Replays(c, [HalfReadable(c)])
  {
    var t := HalfReadable(c);
    assert [t][..0] == [];
    assert !TooOld(c, t);
    assert Decide(c, BLANK, t) == Raised;
    assert Passed(c, [t]) == [];
    assert Of(Run(c, [t]), "AAA").last == Some(t.at);
    assert Of(Run(c, Passed(c, [t])), "AAA").last == None;
  }

  /** The filter is replayable on every stream exactly when its consistency check is on. */
  lemma ReplayableIffChecked(c: Config)
    ensures (forall ticks :: Replays(c, ticks)) <==> c.checks.ohlc
  {
    if c.checks.ohlc {
      forall ticks ensures Replays(c, ticks) {
        OhlcCheckPreventsHalfTaken(c, ticks);
        ReplayAcceptsAll(c, ticks, "");
        forall s ensures Of(Run(c, Passed(c, ticks)), s) == Of(Run(c, ticks), s) { ReplayAcceptsAll(c, ticks, s); }
      }
    } else {
      HalfTakenBarBreaksReplay(c);
    }
  }

  // ------------------------------------------------------------------------
  // One symbol's accepted bars
  // ------------------------------------------------------------------------

  /** The accepted bars of one symbol, in order. */
  function PassedOf(c: Config, ticks: seq<Tick>, s: Symbol): seq<Tick> {
    Filter(Passed(c, ticks), OfSymbol(s))
  }

  /** Those bars, alone in a fresh filter, are all accepted again. */
  lemma PassedOfReplays(c: Config, ticks: seq<Tick>, s: Symbol)
    requires NothingHalfTaken(c, ticks)
    ensures forall j :: j in Judged(c, PassedOf(c, ticks, s)) ==> j.1 == Accepted
    ensures forall t :: t in PassedOf(c, ticks, s) ==> t.symbol == s
  {
    ReplayAcceptsAll(c, ticks, s);
    SymbolsAreIndependent(c, Passed(c, ticks), s);
    forall j | j in Judged(c, PassedOf(c, ticks, s)) ensures j.1 == Accepted {
      FilterMembers(Judged(c, Passed(c, ticks)), JudgedOfSymbol(s), j);
    }
    forall t | t in PassedOf(c, ticks, s) ensures t.symbol == s {
      FilterMembers(Passed(c, ticks), OfSymbol(s), t);
    }
  }

  /** A chain of bars of one symbol, every one accepted. */
  ghost predicate Chain(c: Config, ticks: seq<Tick>, s: Symbol) {
    && (forall i :: 0 <= i < |ticks| ==> ticks[i].symbol == s)
    && (forall i :: 0 <= i < |ticks| ==> Judged(c, ticks)[i].1 == Accepted)
  }

  lemma ChainStep(c: Config, ticks: seq<Tick>, s: Symbol)
    requires Chain(c, ticks, s) && ticks != []
    ensures var front, t := ticks[..|ticks| - 1], ticks[|ticks| - 1];
            && Chain(c, front, s)
            && Decide(c, Of(Run(c, front), s), t) == Accepted
            && Of(Run(c, ticks), s) == Remember(c, Of(Run(c, front), s), t)
  {
    var front := ticks[..|ticks| - 1];
    assert Judged(c, ticks)[|ticks| - 1].1 == Accepted;
    forall i | 0 <= i < |front| ensures Judged(c, front)[i].1 == Accepted {
      assert Judged(c, ticks)[i].1 == Accepted;
    }
  }

  /** After a chain the filter remembers its last bar. */
  lemma ChainMemory(c: Config, ticks: seq<Tick>, s: Symbol)
    requires Chain(c, ticks, s)
    ensures ticks == [] ==> Of(Run(c, ticks), s) == BLANK
    ensures ticks != [] ==> Of(Run(c, ticks), s).last == Some(ticks[|ticks| - 1].at)
                            && Of(Run(c, ticks), s).close == Some(ticks[|ticks| - 1].bar.close)
  {
    if ticks != [] { ChainStep(c, ticks, s); }
  }

  function Pow(x: real, k: nat): real {
    if k == 0 then 1.0 else Grown(x, Pow(x, k - 1))
  }

  function AtLeastZero(x: real): real { if x < 0.0 then 0.0 else x }

  /** One accepted step after another moves the close by at most the allowed fraction. */
  lemma ChainMove(c: Config, ticks: seq<Tick>, s: Symbol, k: nat)
    requires c.checks.ohlc && c.checks.spike && Chain(c, ticks, s) && k < |ticks|
    ensures ticks[k].bar.close.Num? && ticks[k].bar.close.v > 0.0
    ensures k > 0 && ticks[k - 1].bar.close.Num? && ticks[k - 1].bar.close.v > 0.0 ==>
      Abs(ticks[k].bar.close.v / ticks[k - 1].bar.close.v - 1.0) <= c.checks.maxReturn
    decreases |ticks|
  {
    var front := ticks[..|ticks| - 1];
    ChainStep(c, ticks, s);
    if k < |front| {
      ChainMove(c, front, s, k);
    } else {
      ChainMemory(c, front, s);
      assert Num(ticks[k].bar.close.v) in [ticks[k].bar.open, ticks[k].bar.high, ticks[k].bar.low, ticks[k].bar.close];
    }
  }

  function Grown(first: real, factor: real): real {
    first * factor
  }

  lemma GrownMore(first: real, low: real, high: real)
    requires first >= 0.0 && low <= high
    ensures Grown(first, low) <= Grown(first, high)
  {
  }

  lemma GrownTwice(first: real, a: real, factor: real)
    ensures Grown(first, Grown(a, factor)) == Grown(a, Grown(first, factor))
  {
  }

  lemma GrownCommutes(x: real, y: real)
    ensures Grown(x, y) == Grown(y, x)
  {
  }

  lemma MoveBounds(prev: real, next: real, a: real, b: real)
    requires prev > 0.0 && a <= next / prev <= b
    ensures Grown(prev, a) <= next <= Grown(prev, b)
  {
    var q := next / prev;
    assert next == Grown(prev, q);
    GrownMore(prev, a, q);
    GrownMore(prev, q, b);
  }

  /** A bounded close followed by a bounded move. */
  lemma CompoundMove(first: real, prev: real, next: real, a: real, b: real, low: real, high: real)
    requires a >= 0.0 && b >= 0.0 && Grown(first, low) <= prev <= Grown(first, high)
    requires Grown(prev, a) <= next <= Grown(prev, b)
    ensures Grown(first, Grown(a, low)) <= next <= Grown(first, Grown(b, high))
  {
    GrownTwice(first, a, low);
    GrownTwice(first, b, high);
    GrownMore(a, Grown(first, low), prev);
    GrownMore(b, prev, Grown(first, high));
    GrownCommutes(a, prev);
    GrownCommutes(b, prev);
  }

  /** `x` is within `k` compounded moves of `m` from `first`. */
  predicate Bounded(first: real, x: real, m: real, k: nat) {
    Grown(first, Pow(AtLeastZero(1.0 - m), k)) <= x <= Grown(first, Pow(1.0 + m, k))
  }

  lemma RatioBounds(q: real, m: real)
    requires q > 0.0 && Abs(q - 1.0) <= m
    ensures 0.0 <= AtLeastZero(1.0 - m) <= q <= 1.0 + m
  {
  }

  lemma BoundedNext(first: real, prev: real, next: real, m: real, k: nat)
    requires prev > 0.0 && next > 0.0 && Abs(next / prev - 1.0) <= m && Bounded(first, prev, m, k)
    ensures Bounded(first, next, m, k + 1)
  {
    var a, b := AtLeastZero(1.0 - m), 1.0 + m;
    assert next / prev > 0.0;
    RatioBounds(next / prev, m);
    MoveBounds(prev, next, a, b);
    CompoundMove(first, prev, next, a, b, Pow(a, k), Pow(b, k));
  }

  lemma {:induction false} ChainBounds(c: Config, ticks: seq<Tick>, s: Symbol, k: nat)
    requires c.checks.ohlc && c.checks.spike && Chain(c, ticks, s) && k < |ticks|
    ensures ticks[0].bar.close.Num? && ticks[k].bar.close.Num? && ticks[0].bar.close.v > 0.0 && ticks[k].bar.close.v > 0.0
    ensures Bounded(ticks[0].bar.close.v, ticks[k].bar.close.v, c.checks.maxReturn, k)
  {
    ChainMove(c, ticks, s, 0);
    ChainMove(c, ticks, s, k);
    if k > 0 {
      ChainBounds(c, ticks, s, k - 1);
      var m := c.checks.maxReturn;
      BoundedNext(ticks[0].bar.close.v, ticks[k - 1].bar.close.v, ticks[k].bar.close.v, m, k - 1);
    }
  }

  /** No bar moves a symbol's remembered time back, and an accepted one moves it to itself. */
  lemma MemoryMovesForward(c: Config, st: SymbolState, t: Tick)
    requires c.checks.monotonic
    ensures st.last.Some? ==> Remember(c, st, t).last.Some? && Utc(st.last.value) <= Utc(Remember(c, st, t).last.value)
    ensures Decide(c, st, t) == Accepted ==> Remember(c, st, t).last == Some(t.at) && (st.last.Some? ==> Utc(st.last.value) < Utc(t.at))
  {
  }

  /** The bars' times strictly increase and none is after the remembered one. */
  ghost predicate Ascending(bars: seq<Tick>, last: Option<Stamp>) {
    && (forall i :: 0 <= i < |bars| ==> last.Some? && Utc(bars[i].at) <= Utc(last.value))
    && (forall i, j :: 0 <= i < j < |bars| ==> Utc(bars[i].at) < Utc(bars[j].at))
  }

  lemma AscendingNext(c: Config, bars: seq<Tick>, st: SymbolState, t: Tick)
    requires c.checks.monotonic && Ascending(bars, st.last)
    ensures Ascending(if Decide(c, st, t) == Accepted then bars + [t] else bars, Remember(c, st, t).last)
  {
    MemoryMovesForward(c, st, t);
  }

  /** What is remembered of a symbol is its latest accepted bar or a later one, half taken. */
  lemma {:induction false} RememberedIsLatest(c: Config, ticks: seq<Tick>, s: Symbol)
    requires c.checks.monotonic
    ensures Ascending(PassedOf(c, ticks, s), Of(Run(c, ticks), s).last)
  {
    if ticks == [] {
      assert PassedOf(c, ticks, s) == [];
    } else {
      var front, t := ticks[..|ticks| - 1], ticks[|ticks| - 1];
      RememberedIsLatest(c, front, s);
      FilterConcat(Passed(c, front), [t], OfSymbol(s));
      var own, st := PassedOf(c, front, s), Of(Run(c, front), t.symbol);
      assert PassedOf(c, ticks, s) == if Decide(c, st, t) == Accepted && t.symbol == s then own + [t] else own;
      if t.symbol == s { AscendingNext(c, own, st, t); }
    }
  }

  /** Each symbol's accepted timestamps strictly increase over any stream. */
  lemma AcceptedTimesIncrease(c: Config, ticks: seq<Tick>, s: Symbol, i: nat, j: nat)
    requires c.checks.monotonic
    requires i < j < |PassedOf(c, ticks, s)|
    ensures Utc(PassedOf(c, ticks, s)[i].at) < Utc(PassedOf(c, ticks, s)[j].at)
  {
    RememberedIsLatest(c, ticks, s);
  }

  ghost predicate HasVolume(t: Tick) { t.bar.volume.Num? && t.bar.volume.v > 0.0 }

  /** The time and close of the last of the bars, and whether any of them had volume. */
  ghost predicate Remembers(st: SymbolState, own: seq<Tick>) {
    && st.last == (if own == [] then None else Some(own[|own| - 1].at))
    && st.close == (if own == [] then None else Some(own[|own| - 1].bar.close))
    && (st.traded <==> exists t :: t in own && HasVolume(t))
  }

  lemma RemembersNext(c: Config, st: SymbolState, own: seq<Tick>, t: Tick)
    requires Remembers(st, own) && (Evaluate(c, st, t) == Accepted ==> Decide(c, st, t) == Accepted)
    ensures Remembers(Remember(c, st, t), if Decide(c, st, t) == Accepted then own + [t] else own)
  {
    MemoryIsExact(c, st, t);
    if Decide(c, st, t) == Accepted {
      if u :| u in own && HasVolume(u) { assert u in own + [t]; }
      assert t in own + [t];
    } else {
      assert Remember(c, st, t) == st;
    }
  }

  /** What the filter remembers of a symbol is its last accepted bar, and whether any accepted one had volume. */
  lemma {:induction false} MemoryIsLastAccepted(c: Config, ticks: seq<Tick>, s: Symbol)
    requires NothingHalfTaken(c, ticks)
    ensures Remembers(Of(Run(c, ticks), s), PassedOf(c, ticks, s))
  {
    if ticks == [] {
      assert PassedOf(c, ticks, s) == [];
    } else {
      var front, t := ticks[..|ticks| - 1], ticks[|ticks| - 1];
      FrontNotHalfTaken(c, ticks);
      MemoryIsLastAccepted(c, front, s);
      FilterConcat(Passed(c, front), [t], OfSymbol(s));
      var own, st := PassedOf(c, front, s), Of(Run(c, front), t.symbol);
      assert PassedOf(c, ticks, s) == if Decide(c, st, t) == Accepted && t.symbol == s then own + [t] else own;
      if t.symbol == s { RemembersNext(c, st, own, t); }
    }
  }

  /** The k-th later accepted close stays within the compounded allowed move. */
  lemma AcceptedClosesAreBounded(c: Config, ticks: seq<Tick>, s: Symbol, k: nat)
    requires c.checks.ohlc && c.checks.spike && k < |PassedOf(c, ticks, s)|
    ensures var bars, m := PassedOf(c, ticks, s), c.checks.maxReturn;
            && bars[0].bar.close.Num? && bars[k].bar.close.Num? && bars[0].bar.close.v > 0.0
            && Bounded(bars[0].bar.close.v, bars[k].bar.close.v, m, k)
  {
    OhlcCheckPreventsHalfTaken(c, ticks);
    PassedOfReplays(c, ticks, s);
    ChainBounds(c, PassedOf(c, ticks, s), s, k);
  }
}
