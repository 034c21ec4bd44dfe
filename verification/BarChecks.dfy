/** The bar-quality guards as functions of one symbol's remembered state and one bar. */
module BarChecks {
  import opened Options
  import opened Stamps

  type Symbol = string

  /** A vendor's field: absent, not a number at all, the float NaN, or a finite number. */
  datatype Cell = Missing | Garbage | NaN | Num(v: real)

  datatype Bar = Bar(open: Cell, high: Cell, low: Cell, close: Cell, volume: Cell)

  datatype Reason = Malformed | NonPositive | InvertedRange | OutsideRange | NegativeVolume | OutOfOrder | Stale | Spike | ZeroVolume

  /** `Raised` is an exception out of `check`: a field that cannot be read as a float. */
  datatype Verdict = Accepted | Rejected(reason: Reason) | Raised

  datatype Checks = Checks(
    maxReturn: real, maxStaleness: real,
    zeroVolume: bool, monotonic: bool, ohlc: bool, staleness: bool, spike: bool)

  datatype Config = Config(checks: Checks, interval: int)

  datatype SymbolState = SymbolState(last: Option<Stamp>, close: Option<Cell>, traded: bool)

  const BLANK := SymbolState(None, None, false)

  /** The instant the staleness check measures from: injected, or the clock read like the bar. */
  datatype Now = Given(at: Stamp) | Clock(localWall: int, utcWall: int)

  datatype Tick = Tick(symbol: Symbol, bar: Bar, at: Stamp, now: Now)

  predicate IsFloat(c: Cell) { c.NaN? || c.Num? }

  /** `float(bar.get("volume") or 0.0)`: an absent volume counts as zero. */
  function VolumeOrZero(c: Cell): Cell { if c.Missing? then Num(0.0) else c }

  function Abs(x: real): real { if x < 0.0 then -x else x }

  function OhlcVerdict(b: Bar): Verdict {
    if !(IsFloat(b.open) && IsFloat(b.high) && IsFloat(b.low) && IsFloat(b.close)) then Rejected(Malformed)
    else if exists p | p in [b.open, b.high, b.low, b.close] :: p.Num? && p.v <= 0.0 then Rejected(NonPositive)
    else if b.high.Num? && b.low.Num? && b.high.v < b.low.v then Rejected(InvertedRange)
    else if !(Within(b.low, b.close, b.high) && Within(b.low, b.open, b.high)) then Rejected(OutsideRange)
    else if b.volume.Garbage? then Raised
    else if b.volume.Num? && b.volume.v < 0.0 then Rejected(NegativeVolume)
    else Accepted
  }

  /** `lo <= x <= hi` on floats: false as soon as one of them is NaN. */
  predicate Within(lo: Cell, x: Cell, hi: Cell) {
    lo.Num? && x.Num? && hi.Num? && lo.v <= x.v <= hi.v
  }

  function Reference(t: Tick): Stamp {
    match t.now
    case Given(at) => at
    case Clock(localWall, utcWall) => if t.at.offset.None? then Stamp(localWall, None) else Stamp(utcWall, Some(0))
  }

  predicate TooOld(c: Config, t: Tick) {
    (Utc(Reference(t)) - Utc(t.at)) as real > c.interval as real * c.checks.maxStaleness
  }

  /** `state.last_close` is truthy: remembered and not zero. */
  predicate HasBase(st: SymbolState) {
    st.close.Some? && st.close.value != Num(0.0)
  }

  predicate Jumps(c: Config, base: Cell, close: Cell) {
    base.Num? && close.Num? && base.v != 0.0 && Abs(close.v / base.v - 1.0) > c.checks.maxReturn
  }

  /** The guards in their order; the first that objects decides. */
  function Evaluate(c: Config, st: SymbolState, t: Tick): Verdict {
    var k := c.checks;
    var shape := if k.ohlc then OhlcVerdict(t.bar) else Accepted;
    if shape != Accepted then shape
    else if k.monotonic && st.last.Some? && Utc(t.at) <= Utc(st.last.value) then Rejected(OutOfOrder)
    else if k.staleness && TooOld(c, t) then Rejected(Stale)
    else if k.spike && HasBase(st) && !IsFloat(t.bar.close) then Raised
    else if k.spike && HasBase(st) && Jumps(c, st.close.value, t.bar.close) then Rejected(Spike)
    else if k.zeroVolume && st.traded && t.bar.volume.Garbage? then Raised
    else if k.zeroVolume && st.traded && VolumeOrZero(t.bar.volume).Num? && VolumeOrZero(t.bar.volume).v <= 0.0 then Rejected(ZeroVolume)
    else Accepted
  }

  /** What the filter remembers of a symbol after a bar, exception paths included. */
  function Remember(c: Config, st: SymbolState, t: Tick): SymbolState {
    if Evaluate(c, st, t) != Accepted then st
    else if !IsFloat(t.bar.close) then st.(last := Some(t.at))
    else if t.bar.volume.Garbage? then st.(last := Some(t.at), close := Some(t.bar.close))
    else st.(last := Some(t.at), close := Some(t.bar.close),
             traded := st.traded || (t.bar.volume.Num? && t.bar.volume.v > 0.0))
  }

  /** The verdict the caller sees: an unreadable close or volume raises while being remembered. */
  function Decide(c: Config, st: SymbolState, t: Tick): Verdict {
    var v := Evaluate(c, st, t);
    if v == Accepted && (!IsFloat(t.bar.close) || t.bar.volume.Garbage?) then Raised else v
  }

  // ------------------------------------------------------------------------
  // What the verdicts mean
  // ------------------------------------------------------------------------

  /** Four positive finite prices, open and close between low and high, a volume not known negative. */
  predicate WellShaped(b: Bar) {
    && b.open.Num? && b.high.Num? && b.low.Num? && b.close.Num?
    && 0.0 < b.low.v <= b.open.v <= b.high.v && b.low.v <= b.close.v <= b.high.v
    && !b.volume.Garbage? && (b.volume.Num? ==> b.volume.v >= 0.0)
  }

  /** A NaN price never passes, though no check looks for one. */
  lemma ShapeIsExact(b: Bar)
    ensures OhlcVerdict(b) == Accepted <==> WellShaped(b)
  {
    assert WellShaped(b) ==> forall p :: p in [b.open, b.high, b.low, b.close] ==> p.Num? && p.v > 0.0;
    assert b.low in [b.open, b.high, b.low, b.close];
  }

  /** What a vendor's price can be: a number, or the float that is none. */
  ghost predicate Readable(c: Cell) { c.Num? || c.NaN? }

  ghost predicate PricesReadable(b: Bar) {
    Readable(b.open) && Readable(b.high) && Readable(b.low) && Readable(b.close)
  }

  ghost predicate SomePriceNotPositive(b: Bar) {
    || (b.open.Num? && b.open.v <= 0.0) || (b.high.Num? && b.high.v <= 0.0)
    || (b.low.Num? && b.low.v <= 0.0) || (b.close.Num? && b.close.v <= 0.0)
  }

  ghost predicate HighBelowLow(b: Bar) {
    b.high.Num? && b.low.Num? && b.high.v < b.low.v
  }

  /** Known to lie between low and high; nothing is known of a price that is no number. */
  ghost predicate BetweenLowAndHigh(b: Bar) {
    && b.low.Num? && b.high.Num? && b.open.Num? && b.close.Num?
    && b.low.v <= b.open.v <= b.high.v && b.low.v <= b.close.v <= b.high.v
  }

  /** The consistency check's five reasons, each given when its test is the first that fails; a volume that cannot be read raises. */
  lemma ShapeReasonsAreExact(c: Config, st: SymbolState, t: Tick)
    requires c.checks.ohlc
    ensures var b, v := t.bar, Decide(c, st, t);
      var positive := PricesReadable(b) && !SomePriceNotPositive(b);
      var ranged := positive && !HighBelowLow(b);
      var inside := ranged && BetweenLowAndHigh(b);
      && (v == Rejected(Malformed) <==> !PricesReadable(b))
      && (v == Rejected(NonPositive) <==> PricesReadable(b) && SomePriceNotPositive(b))
      && (v == Rejected(InvertedRange) <==> positive && HighBelowLow(b))
      && (v == Rejected(OutsideRange) <==> ranged && !BetweenLowAndHigh(b))
      && (v == Raised <==> inside && b.volume.Garbage?)
      && (v == Rejected(NegativeVolume) <==> inside && b.volume.Num? && b.volume.v < 0.0)
  {
    ShapeIsExact(t.bar);
    PricesInList(t.bar);
  }

  lemma PricesInList(b: Bar)
    ensures (exists p :: p in [b.open, b.high, b.low, b.close] && p.Num? && p.v <= 0.0) <==> SomePriceNotPositive(b)
  {
    assert b.open in [b.open, b.high, b.low, b.close] && b.high in [b.open, b.high, b.low, b.close];
    assert b.low in [b.open, b.high, b.low, b.close] && b.close in [b.open, b.high, b.low, b.close];
  }

  /** A bar's age: to the instant given, or to the clock's local reading for a bar without offset and its UTC one for others. */
  ghost function Age(t: Tick): int {
    match t.now
    case Given(at) => Instant(at) - Instant(t.at)
    case Clock(localWall, utcWall) => (if t.at.offset.None? then localWall else utcWall) - Instant(t.at)
  }

  ghost predicate InOrder(c: Config, st: SymbolState, t: Tick) {
    c.checks.monotonic && st.last.Some? ==> Instant(st.last.value) < Instant(t.at)
  }

  /** Not older than so many bar intervals. */
  ghost predicate Fresh(c: Config, t: Tick) {
    c.checks.staleness ==> Age(t) as real <= c.interval as real * c.checks.maxStaleness
  }

  /** There is a close to compare with: remembered, and not the zero that counts as none. */
  ghost predicate Comparable(c: Config, st: SymbolState) {
    c.checks.spike && st.close.Some? && st.close.value != Num(0.0)
  }

  /** Two numbers further apart than the allowed return. */
  ghost predicate MovesTooFar(c: Config, st: SymbolState, b: Bar) {
    && st.close.Some? && st.close.value.Num? && st.close.value.v != 0.0 && b.close.Num?
    && (var r := b.close.v / st.close.value.v - 1.0; r > c.checks.maxReturn || -r > c.checks.maxReturn)
  }

  /** A bar without volume, of a symbol that is known to trade. */
  ghost predicate Untraded(c: Config, st: SymbolState, b: Bar) {
    c.checks.zeroVolume && st.traded && (b.volume.Missing? || (b.volume.Num? && b.volume.v <= 0.0))
  }

  lemma TooOldIsNotFresh(c: Config, t: Tick)
    requires c.checks.staleness
    ensures TooOld(c, t) <==> !Fresh(c, t)
  {
  }

  /** Whatever is switched on, the guards apply in a fixed order: each reason says that every earlier one was passed. */
  lemma ReasonsAreExact(c: Config, st: SymbolState, t: Tick)
    ensures var b, v, shaped := t.bar, Decide(c, st, t), c.checks.ohlc ==> WellShaped(t.bar);
      var passed := shaped && InOrder(c, st, t) && Fresh(c, t);
      var near := passed && !(Comparable(c, st) && (!Readable(b.close) || MovesTooFar(c, st, b)));
      && (v == Rejected(OutOfOrder) <==> shaped && !InOrder(c, st, t))
      && (v == Rejected(Stale) <==> shaped && InOrder(c, st, t) && !Fresh(c, t))
      && (v == Rejected(Spike) <==> passed && Comparable(c, st) && MovesTooFar(c, st, b))
      && (v == Rejected(ZeroVolume) <==> near && Untraded(c, st, b))
      && (v == Accepted <==> near && !Untraded(c, st, b) && Readable(b.close) && !b.volume.Garbage?)
  {
    ShapeIsExact(t.bar);
    if c.checks.staleness { TooOldIsNotFresh(c, t); }
  }

  /** With every check on: an accepted bar is well shaped, later, fresh, near, and traded if its symbol ever did. */
  lemma AcceptanceIsExact(c: Config, st: SymbolState, t: Tick)
    requires c.checks.ohlc && c.checks.monotonic && c.checks.staleness && c.checks.spike && c.checks.zeroVolume
    requires st.close.Some? ==> st.close.value.Num? && st.close.value.v > 0.0
    ensures Decide(c, st, t) == Accepted <==>
      && WellShaped(t.bar) && (st.last.Some? ==> Instant(st.last.value) < Instant(t.at))
      && Age(t) as real <= c.interval as real * c.checks.maxStaleness
      && (st.close.Some? ==> -c.checks.maxReturn <= t.bar.close.v / st.close.value.v - 1.0 <= c.checks.maxReturn)
      && (st.traded ==> t.bar.volume.NaN? || (t.bar.volume.Num? && t.bar.volume.v > 0.0))
  {
    ReasonsAreExact(c, st, t);
  }

  /** The consistency check, the spike guard or the volume guard is the one that cannot read the bar. */
  ghost predicate GuardRaises(c: Config, st: SymbolState, b: Bar) {
    || c.checks.ohlc
    || (Comparable(c, st) && !Readable(b.close))
    || (c.checks.zeroVolume && st.traded && b.volume.Garbage?)
  }

  /** The time, and the close if it could be read. */
  ghost function TakenAsFarAs(st: SymbolState, t: Tick): SymbolState {
    if Readable(t.bar.close) then st.(last := Some(t.at), close := Some(t.bar.close)) else st.(last := Some(t.at))
  }

  /**
    A bar leaves a trace only if every guard let it through: its time, its close and whether
    it traded, as far as they could be read before the exception, and nothing if a guard
    itself raised.
  */
  lemma MemoryIsExact(c: Config, st: SymbolState, t: Tick)
    ensures Decide(c, st, t) == Accepted ==>
      Remember(c, st, t) == SymbolState(Some(t.at), Some(t.bar.close), st.traded || (t.bar.volume.Num? && t.bar.volume.v > 0.0))
    ensures Decide(c, st, t).Rejected? ==> Remember(c, st, t) == st
    ensures Decide(c, st, t) == Raised ==> Remember(c, st, t) == (if GuardRaises(c, st, t.bar) then st else TakenAsFarAs(st, t))
  {
  }
}
