/**
  How far back the live engine fetches so that warm-up yields enough bars, what the
  warm-up then covered, and when the engine refuses to start.
*/
module WarmUp {
  import opened Options

  datatype Timeframe = Minutes(amount: nat) | Hours(amount: nat) | Days(amount: nat) | Weeks(amount: nat)

  /** Bars one regular session of 6.5 hours produces, fractional for long bars. */
  function BarsPerDay(tf: Timeframe): (b: real)
    requires tf.amount >= 1
    ensures b > 0.0
  {
    match tf
    case Minutes(n) => 6.5 * 60.0 / n as real
    case Hours(n) => 6.5 / n as real
    case Days(n) => 1.0 / n as real
    case Weeks(n) => 1.0 / (5.0 * n as real)
  }

  lemma UndoQuotient(x: real, n: real)
    requires n > 0.0
    ensures (x / n) * n == x
  {
  }

  /** A session is 390 minutes, or six and a half hours; a day's bar is one session, and a week's five. */
  lemma SessionLength(tf: Timeframe)
    requires tf.amount >= 1
    ensures BarsPerDay(tf) * tf.amount as real ==
      match tf case Minutes(_) => 390.0 case Hours(_) => 6.5 case Days(_) => 1.0 case Weeks(_) => 0.2
  {
    var n := tf.amount as real;
    match tf
    case Minutes(_) => UndoQuotient(6.5 * 60.0, n);
    case Hours(_) => UndoQuotient(6.5, n);
    case Days(_) => UndoQuotient(1.0, n);
    case Weeks(_) => UndoQuotient(1.0, 5.0 * n);
  }

  function Ceil(x: real): (c: int)
    ensures c as real - 1.0 < x <= c as real
  {
    -((-x).Floor)
  }

  const WARMUP_BUFFER := 2
  const HOLIDAY_PADDING_DAYS := 5

  function BarsNeeded(periods: int): (n: int)
    ensures n == if periods > 1 then 2 * periods else 2
  {
    (if periods > 1 then periods else 1) * WARMUP_BUFFER
  }

  function Sessions(tf: Timeframe, periods: int): int
    requires tf.amount >= 1
  {
    Ceil(BarsNeeded(periods) as real / BarsPerDay(tf))
  }

  /** Five trading days per seven calendar days, plus slack for holidays. */
  function CalendarDays(sessions: int): (days: int)
    ensures sessions >= 0 ==> days >= 0
  {
    Ceil(sessions as real * 7.0 / 5.0) + HOLIDAY_PADDING_DAYS
  }

  // ------------------------------------------------------------------------
  // Weekdays in a run of days
  // ------------------------------------------------------------------------

  /** Day 0 is a Monday. */
  predicate IsWeekday(day: int) { day % 7 < 5 }

  function Weekdays(start: int, n: nat): nat {
    if n == 0 then 0 else Weekdays(start, n - 1) + (if IsWeekday(start + n - 1) then 1 else 0)
  }

  lemma NextDay(day: int)
    ensures (day + 1) % 7 == if day % 7 == 6 then 0 else day % 7 + 1
  {
  }

  function One(day: int): nat { if IsWeekday(day) then 1 else 0 }

  lemma OneWeek(d: int)
    ensures One(d) + One(d + 1) + One(d + 2) + One(d + 3) + One(d + 4) + One(d + 5) + One(d + 6) == 5
  {
    NextDay(d);
    NextDay(d + 1);
    NextDay(d + 2);
    NextDay(d + 3);
    NextDay(d + 4);
    NextDay(d + 5);
  }

  lemma NextWeekday(start: int, n: nat)
    ensures Weekdays(start, n + 1) == Weekdays(start, n) + One(start + n)
  {
  }

  lemma SevenDays(start: int, n: nat)
    ensures Weekdays(start, n + 7) == Weekdays(start, n) + 5
  {
    OneWeek(start + n);
    NextWeekday(start, n);
    NextWeekday(start, n + 1);
    NextWeekday(start, n + 2);
    NextWeekday(start, n + 3);
    NextWeekday(start, n + 4);
    NextWeekday(start, n + 5);
    NextWeekday(start, n + 6);
  }

  lemma {:induction false} WholeWeeks(start: int, weeks: nat, n: nat)
    ensures Weekdays(start, 7 * weeks + n) == 5 * weeks + Weekdays(start, n)
  {
    if weeks > 0 {
      WholeWeeks(start, weeks - 1, n);
      SevenDays(start, 7 * (weeks - 1) + n);
      assert 7 * (weeks - 1) + n + 7 == 7 * weeks + n;
    }
  }

  lemma {:induction false} WeekdaysAtMostDays(start: int, m: nat, n: nat)
    requires m <= n
    ensures Weekdays(start, m) <= Weekdays(start, n) <= Weekdays(start, m) + (n - m)
    decreases n
  {
    if m < n { WeekdaysAtMostDays(start, m, n - 1); }
  }

  /** A week or less loses at most a weekend. */
  lemma PartOfAWeek(start: int, n: nat)
    requires n <= 7
    ensures Weekdays(start, n) >= n - 2
  {
    SevenDays(start, 0);
    WeekdaysAtMostDays(start, n, 7);
  }

  const SATURDAY := 5

  /** Starting on a Saturday loses the whole weekend at once. */
  lemma FromSaturday(n: nat)
    requires n <= 7
    ensures Weekdays(SATURDAY, n) == if n < 2 then 0 else n - 2
  {
    assert Weekdays(SATURDAY, 1) == 0 && Weekdays(SATURDAY, 2) == 0;
    assert Weekdays(SATURDAY, 3) == 1;
    assert Weekdays(SATURDAY, 4) == 2;
    assert Weekdays(SATURDAY, 5) == 3;
    assert Weekdays(SATURDAY, 6) == 4;
    SevenDays(SATURDAY, 0);
  }

  /** The calendar window in whole weeks and left-over days. */
  function LeftOver(sessions: nat): nat {
    match sessions % 5
    case 0 => 5
    case 1 => 7
    case 2 => 8
    case 3 => 10
    case _ => 11
  }

  lemma WindowInWeeks(sessions: nat)
    ensures CalendarDays(sessions) == 7 * (sessions / 5) + LeftOver(sessions)
  {
    var k, r := sessions / 5, sessions % 5;
    assert sessions == 5 * k + r;
    assert sessions as real * 7.0 / 5.0 == (7 * k) as real + (r as real * 7.0 / 5.0);
  }

  /** The spare weekdays of the worst window: three, or four when one session is left over. */
  function Slack(sessions: nat): nat { if sessions % 5 == 1 then 4 else 3 }

  /**
    Warm-up never under-fetches: any run of `CalendarDays` consecutive days, starting on
    any day of the week, holds the sessions and at least three weekdays to spare.
  */
  lemma WindowHasSpareWeekdays(sessions: nat, start: int)
    ensures CalendarDays(sessions) >= 0
    ensures Weekdays(start, CalendarDays(sessions)) >= sessions + Slack(sessions)
  {
    var k, r := sessions / 5, LeftOver(sessions);
    WindowInWeeks(sessions);
    WholeWeeks(start, k, r);
    if r <= 7 {
      PartOfAWeek(start, r);
    } else {
      WholeWeeks(start, 1, r - 7);
      PartOfAWeek(start, r - 7);
    }
  }

  /** And exactly that many when the window starts on a Saturday: the slack cannot be improved. */
  lemma SlackIsExact(sessions: nat)
    ensures CalendarDays(sessions) >= 0
    ensures Weekdays(SATURDAY, CalendarDays(sessions)) == sessions + Slack(sessions)
  {
    var k, r := sessions / 5, LeftOver(sessions);
    WindowInWeeks(sessions);
    WholeWeeks(SATURDAY, k, r);
    if r <= 7 {
      FromSaturday(r);
    } else {
      WholeWeeks(SATURDAY, 1, r - 7);
      FromSaturday(r - 7);
    }
  }

  /** How many bars so many sessions yield. */
  function BarsIn(sessions: int, tf: Timeframe): real
    requires tf.amount >= 1
  {
    Times(sessions, BarsPerDay(tf))
  }

  function Times(n: int, b: real): real { n as real * b }

  lemma CeilOfQuotient(need: real, b: real, s: int)
    requires need > 0.0 && b > 0.0 && s == Ceil(need / b)
    ensures s >= 1 && Times(s - 1, b) < need <= Times(s, b)
  {
    var x := need / b;
    UndoQuotient(need, b);
    assert x <= 0.0 ==> x * b <= 0.0;
    TimesInOrder(s - 1, x, s, b);
  }

  lemma TimesInOrder(m: int, x: real, n: int, b: real)
    requires m as real < x <= n as real && b > 0.0
    ensures Times(m, b) < x * b <= Times(n, b)
  {
    var y, z := m as real, n as real;
    assert (x - y) * b > 0.0 && (z - x) * b >= 0.0;
    assert (x - y) * b == x * b - y * b && (z - x) * b == z * b - x * b;
  }

  /** The sessions asked for carry the doubled bar count, and one session fewer would not. */
  lemma SessionsSuffice(tf: Timeframe, periods: int)
    requires tf.amount >= 1
    ensures Sessions(tf, periods) >= 1
    ensures BarsIn(Sessions(tf, periods), tf) >= BarsNeeded(periods) as real
    ensures BarsIn(Sessions(tf, periods) - 1, tf) < BarsNeeded(periods) as real
  {
    CeilOfQuotient(BarsNeeded(periods) as real, BarsPerDay(tf), Sessions(tf, periods));
  }

  lemma MoreSessionsMoreBars(few: int, many: int, tf: Timeframe)
    requires tf.amount >= 1 && few <= many
    ensures BarsIn(few, tf) <= BarsIn(many, tf)
  {
    var x, y, b := few as real, many as real, BarsPerDay(tf);
    assert (y - x) * b >= 0.0;
    assert (y - x) * b == y * b - x * b;
  }

  lemma EnoughWeekdays(sessions: nat, start: int, holidays: nat)
    requires holidays <= 3
    ensures Weekdays(start, CalendarDays(sessions)) - holidays >= sessions
  {
    WindowHasSpareWeekdays(sessions, start);
  }

  /** Up to three holidays still leave twice the bars the indicators look back over. */
  lemma HolidaysAreCovered(tf: Timeframe, periods: int, start: int, holidays: nat)
    requires tf.amount >= 1 && holidays <= 3
    ensures Sessions(tf, periods) >= 1
    ensures BarsIn(Weekdays(start, CalendarDays(Sessions(tf, periods))) - holidays, tf) >= (2 * periods) as real
  {
    SessionsSuffice(tf, periods);
    EnoughWeekdays(Sessions(tf, periods), start, holidays);
    MoreSessionsMoreBars(Sessions(tf, periods), Weekdays(start, CalendarDays(Sessions(tf, periods))) - holidays, tf);
  }

  // ------------------------------------------------------------------------
  // Coverage, and the refusal to start blind
  // ------------------------------------------------------------------------

  type Symbol = string

  datatype Coverage = Coverage(warmed: nat, sufficient: nat, asked: nat, failed: bool)

  /** Number of bars fetched for a symbol; none when the feed returned nothing for it. */
  function Bars(history: map<Symbol, nat>, s: Symbol): nat {
    if s in history then history[s] else 0
  }

  function CountAtLeast(symbols: seq<Symbol>, history: map<Symbol, nat>, floor: int): nat {
    if symbols == [] then 0 else
      CountAtLeast(symbols[..|symbols| - 1], history, floor) + (if Bars(history, symbols[|symbols| - 1]) >= floor then 1 else 0)
  }

  ghost function Places(symbols: seq<Symbol>, history: map<Symbol, nat>, floor: int): set<nat> {
    set i: nat | i < |symbols| && symbols[i] in history && history[symbols[i]] >= floor
  }

  lemma {:induction false} CountsPlaces(symbols: seq<Symbol>, history: map<Symbol, nat>, floor: int)
    requires floor > 0
    ensures CountAtLeast(symbols, history, floor) == |Places(symbols, history, floor)|
  {
    if symbols == [] {
      assert Places(symbols, history, floor) == {};
    } else {
      var n := |symbols| - 1;
      CountsPlaces(symbols[..n], history, floor);
      assert Places(symbols, history, floor)
          == Places(symbols[..n], history, floor) + (if symbols[n] in history && history[symbols[n]] >= floor then {n} else {});
    }
  }

  /** `_warm_up`: `None` history is a fetch that did not complete, which is not an empty one. */
  method WarmUpSymbols(symbols: seq<Symbol>, history: Option<map<Symbol, nat>>, periods: int) returns (c: Coverage)
    ensures c.asked == |symbols| && (c.failed <==> history.None?)
    ensures history.None? ==> c.warmed == 0 && c.sufficient == 0
    ensures history.Some? ==> c.warmed == CountAtLeast(symbols, history.value, 1)
    ensures history.Some? ==> c.sufficient == CountAtLeast(symbols, history.value, if periods > 1 then periods else 1)
    ensures history.Some? ==> c.warmed == |set i: nat | i < |symbols| && symbols[i] in history.value && history.value[symbols[i]] >= 1|
    ensures history.Some? ==>
      c.sufficient == |set i: nat | i < |symbols| && symbols[i] in history.value && history.value[symbols[i]] >= 1 && history.value[symbols[i]] >= periods|
  {
    if history.None? { return Coverage(0, 0, |symbols|, true); }
    var warmed, sufficient := 0, 0;
    for i := 0 to |symbols|
      invariant warmed == CountAtLeast(symbols[..i], history.value, 1)
      invariant sufficient == CountAtLeast(symbols[..i], history.value, if periods > 1 then periods else 1)
    {
      assert symbols[..i + 1][..i] == symbols[..i];
      var bars := Bars(history.value, symbols[i]);
      if bars == 0 { continue; }
      warmed := warmed + 1;
      if bars >= periods {
        sufficient := sufficient + 1;
      }
    }
    assert symbols[..|symbols|] == symbols;
    CountsPlaces(symbols, history.value, 1);
    CountsPlaces(symbols, history.value, if periods > 1 then periods else 1);
    assert Places(symbols, history.value, 1) == set i: nat | i < |symbols| && symbols[i] in history.value && history.value[symbols[i]] >= 1;
    assert Places(symbols, history.value, if periods > 1 then periods else 1)
        == set i: nat | i < |symbols| && symbols[i] in history.value && history.value[symbols[i]] >= 1 && history.value[symbols[i]] >= periods;
    c := Coverage(warmed, sufficient, |symbols|, false);
  }

  /** The two refusals of `start`. */
  predicate RefusesToStart(c: Coverage, allowBlind: bool) {
    !allowBlind && (c.failed || (c.warmed == 0 && c.asked > 0))
  }

  lemma {:induction false} CountedMeansSome(symbols: seq<Symbol>, history: map<Symbol, nat>, floor: int)
    requires floor > 0
    ensures CountAtLeast(symbols, history, floor) > 0
      <==> exists i :: 0 <= i < |symbols| && symbols[i] in history && history[symbols[i]] >= floor
  {
    if symbols != [] {
      var front := symbols[..|symbols| - 1];
      CountedMeansSome(front, history, floor);
      if i :| 0 <= i < |symbols| && symbols[i] in history && history[symbols[i]] >= floor {
        if i < |front| { assert front[i] == symbols[i]; }
      }
    }
  }

  /** A run that begins without the blind-start flag has history for at least one of its symbols. */
  lemma StartedMeansWarm(symbols: seq<Symbol>, history: Option<map<Symbol, nat>>, c: Coverage)
    requires c.asked == |symbols| && (c.failed <==> history.None?)
    requires history.Some? ==> c.warmed == CountAtLeast(symbols, history.value, 1)
    ensures !RefusesToStart(c, false) <==>
      history.Some? && (symbols == [] || exists i :: 0 <= i < |symbols| && symbols[i] in history.value && history.value[symbols[i]] >= 1)
  {
    if history.Some? { CountedMeansSome(symbols, history.value, 1); }
  }
}
