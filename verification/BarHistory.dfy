/**
  What the partitioned bar store is for: the latest history written for each symbol,
  and the window of it that a point-in-time scan is entitled to see.
*/
module BarHistory {
  import opened Options
  import opened Seqs
  import opened Stamps

  type Symbol = string
  type Timeframe = string

  /** One row of a frame as the caller hands it over. */
  datatype FrameRow = FrameRow(stamp: Stamp, open: real, high: real, low: real, close: real, volume: real)

  /** One stored row: the stamp normalized to UTC, the symbol a real column. */
  datatype Record = Record(ts: int, symbol: Symbol, open: real, high: real, low: real, close: real, volume: real)

  type Key = (Timeframe, Symbol)
  type Flat = map<Key, seq<Record>>

  function ToRecord(symbol: Symbol, r: FrameRow): Record {
    Record(Utc(r.stamp), symbol, r.open, r.high, r.low, r.close, r.volume)
  }

  function ToRecords(symbol: Symbol, frame: seq<FrameRow>): (rs: seq<Record>)
    ensures |rs| == |frame|
    ensures forall i :: 0 <= i < |rs| ==> rs[i] == ToRecord(symbol, frame[i])
  {
    if frame == [] then [] else [ToRecord(symbol, frame[0])] + ToRecords(symbol, frame[1..])
  }

  /** One write call: every non-empty frame replaces its symbol's whole history. */
  function WriteFlat(flat: Flat, tf: Timeframe, bars: seq<(Symbol, Option<seq<FrameRow>>)>): Flat {
    if bars == [] then flat else
      var before := WriteFlat(flat, tf, bars[..|bars| - 1]);
      var (symbol, frame) := bars[|bars| - 1];
      if frame.None? || frame.value == [] then before
      else before[(tf, symbol) := ToRecords(symbol, frame.value)]
  }

  datatype Op =
    | Write(bars: seq<(Symbol, Option<seq<FrameRow>>)>, tf: Timeframe)
    | Delete(symbol: Symbol, tf: Timeframe)

  function Apply(flat: Flat, op: Op): Flat {
    match op
    case Write(bars, tf) => WriteFlat(flat, tf, bars)
    case Delete(symbol, tf) => flat - {(tf, symbol)}
  }

  function ApplyAll(flat: Flat, ops: seq<Op>): Flat {
    if ops == [] then flat else Apply(ApplyAll(flat, ops[..|ops| - 1]), ops[|ops| - 1])
  }

  /** The last frame that any operation left for a key, as the caller handed it over. */
  function LatestFrame(ops: seq<Op>, key: Key): Option<seq<FrameRow>> {
    if ops == [] then None else
      match ops[|ops| - 1]
      case Delete(symbol, tf) =>
        if key == (tf, symbol) then None else LatestFrame(ops[..|ops| - 1], key)
      case Write(bars, tf) =>
        if key.0 == tf && LastWritten(bars, key.1).Some? then LastWritten(bars, key.1)
        else LatestFrame(ops[..|ops| - 1], key)
  }

  function LastWritten(bars: seq<(Symbol, Option<seq<FrameRow>>)>, symbol: Symbol): Option<seq<FrameRow>> {
    if bars == [] then None else
      var (s, frame) := bars[|bars| - 1];
      if s == symbol && frame.Some? && frame.value != [] then frame
      else LastWritten(bars[..|bars| - 1], symbol)
  }

  lemma {:induction false} WriteFlatAt(flat: Flat, tf: Timeframe, bars: seq<(Symbol, Option<seq<FrameRow>>)>, key: Key)
    ensures var after := WriteFlat(flat, tf, bars);
            if key.0 == tf && LastWritten(bars, key.1).Some?
            then key in after && after[key] == ToRecords(key.1, LastWritten(bars, key.1).value)
            else (key in after <==> key in flat) && (key in flat ==> after[key] == flat[key])
  {
    if bars != [] {
      var last := bars[|bars| - 1];
      assert key == (tf, last.0) <==> key.0 == tf && key.1 == last.0;
      WriteFlatAt(flat, tf, bars[..|bars| - 1], key);
    }
  }

  /** Timeframes and symbols never affect each other: each key sees only its own operations. */
  lemma {:induction false} HistoryIsLatest(ops: seq<Op>, key: Key)
    ensures var flat, frame := ApplyAll(map[], ops), LatestFrame(ops, key);
            && (key in flat <==> frame.Some?)
            && (key in flat ==> flat[key] == ToRecords(key.1, frame.value))
  {
    if ops != [] {
      var before, op := ops[..|ops| - 1], ops[|ops| - 1];
      HistoryIsLatest(before, key);
      if op.Write? { WriteFlatAt(ApplyAll(map[], before), op.tf, op.bars, key); }
    }
  }

  // ------------------------------------------------------------------------
  // The window
  // ------------------------------------------------------------------------

  function WindowEnd(asOf: Stamp): int { Utc(asOf) }

  function WindowStart(asOf: Stamp, lookbackDays: int): int {
    Utc(asOf) - lookbackDays * MICROS_PER_DAY
  }

  function InWindow(start: int, end: int): Record -> bool {
    (r: Record) => start < r.ts <= end
  }

  /** The rows of a key's history in `(as_of - lookback, as_of]`. */
  function FlatWindow(flat: Flat, key: Key, asOf: Stamp, lookbackDays: int): seq<Record> {
    if key in flat then Filter(flat[key], InWindow(WindowStart(asOf, lookbackDays), WindowEnd(asOf))) else []
  }

  function ByTs(): (Record, Record) -> bool {
    (a: Record, b: Record) => a.ts <= b.ts
  }

  ghost predicate Ascending(rows: seq<Record>) {
    forall i, j :: 0 <= i < j < |rows| ==> rows[i].ts <= rows[j].ts
  }

  /** What a scan must return: per symbol, its window's rows, sorted by timestamp. */
  ghost predicate Answers(out: map<Symbol, seq<Record>>, flat: Flat, universe: seq<Symbol>, tf: Timeframe, asOf: Stamp, lookbackDays: int) {
    && (forall s :: s in out <==> s in universe && FlatWindow(flat, (tf, s), asOf, lookbackDays) != [])
    && (forall s :: s in out ==> Ascending(out[s])
                                 && multiset(out[s]) == multiset(FlatWindow(flat, (tf, s), asOf, lookbackDays)))
  }

  // ------------------------------------------------------------------------
  // The window, in the terms of the frames written
  // ------------------------------------------------------------------------

  /** The instant of `t` is after `lookbackDays` days before that of `asOf`, and not after `asOf`. */
  predicate Visible(t: Stamp, asOf: Stamp, lookbackDays: int) {
    var age := (asOf.wall - OffsetOf(asOf)) - (t.wall - OffsetOf(t));
    0 <= age < 86_400_000_000 * lookbackDays
  }

  /** A record carries its frame row's instant and its own five figures. */
  predicate Carries(r: Record, symbol: Symbol, f: FrameRow) {
    && r.ts == f.stamp.wall - OffsetOf(f.stamp) && r.symbol == symbol
    && r.open == f.open && r.high == f.high && r.low == f.low && r.close == f.close && r.volume == f.volume
  }

  /** Two rows are stored alike exactly when they read the same instant and the same five figures. */
  lemma SameInstantSameRow(symbol: Symbol, f: FrameRow, g: FrameRow)
    ensures ToRecord(symbol, f) == ToRecord(symbol, g) <==> Carries(ToRecord(symbol, f), symbol, g)
    ensures Carries(ToRecord(symbol, f), symbol, f)
  {
  }

  /** Where the rows of a frame that `asOf` may see stand. */
  function VisibleAt(frame: seq<FrameRow>, asOf: Stamp, lookbackDays: int): (at: seq<nat>)
    ensures forall k :: 0 <= k < |at| ==> at[k] < |frame|
    ensures forall i :: i in at <==> 0 <= i < |frame| && Visible(frame[i].stamp, asOf, lookbackDays)
    ensures forall j, k :: 0 <= j < k < |at| ==> at[j] < at[k]
  {
    if frame == [] then [] else
      var n := |frame| - 1;
      var front := VisibleAt(frame[..n], asOf, lookbackDays);
      if Visible(frame[n].stamp, asOf, lookbackDays) then front + [n] else front
  }

  /** The window of what was written for a key holds one record for each visible row, in order, and no other. */
  ghost predicate Entitled(rows: seq<Record>, frame: Option<seq<FrameRow>>, symbol: Symbol, asOf: Stamp, lookbackDays: int) {
    if frame.None? then rows == [] else
      CarriesEach(rows, symbol, frame.value, VisibleAt(frame.value, asOf, lookbackDays))
  }

  /** One record for each of the places, in order. */
  ghost predicate CarriesEach(rows: seq<Record>, symbol: Symbol, frame: seq<FrameRow>, at: seq<nat>) {
    |rows| == |at| && forall k :: 0 <= k < |at| ==> at[k] < |frame| && Carries(rows[k], symbol, frame[at[k]])
  }

  lemma CarriesOneMore(rows: seq<Record>, symbol: Symbol, front: seq<FrameRow>, f: FrameRow, at: seq<nat>, r: Record)
    requires CarriesEach(rows, symbol, front, at) && Carries(r, symbol, f)
    ensures CarriesEach(rows, symbol, front + [f], at)
    ensures CarriesEach(rows + [r], symbol, front + [f], at + [|front|])
  {
  }

  lemma WindowSnoc(rows: seq<Record>, r: Record, p: Record -> bool)
    ensures Filter(rows + [r], p) == Filter(rows, p) + (if p(r) then [r] else [])
  {
    FilterConcat(rows, [r], p);
  }

  lemma ToRecordsSnoc(symbol: Symbol, frame: seq<FrameRow>, f: FrameRow)
    ensures ToRecords(symbol, frame + [f]) == ToRecords(symbol, frame) + [ToRecord(symbol, f)]
  {
  }

  /** The window in the store's own terms, of one row: it is in exactly when the row is visible, and carries it. */
  lemma InWindowIsVisible(symbol: Symbol, f: FrameRow, asOf: Stamp, lookbackDays: int)
    ensures InWindow(WindowStart(asOf, lookbackDays), WindowEnd(asOf))(ToRecord(symbol, f)) <==> Visible(f.stamp, asOf, lookbackDays)
    ensures Carries(ToRecord(symbol, f), symbol, f)
  {
  }

  lemma VisibleNext(front: seq<FrameRow>, f: FrameRow, asOf: Stamp, lookbackDays: int)
    ensures VisibleAt(front + [f], asOf, lookbackDays)
         == VisibleAt(front, asOf, lookbackDays) + (if Visible(f.stamp, asOf, lookbackDays) then [|front|] else [])
  {
    assert (front + [f])[..|front|] == front;
  }

  lemma EntitledNext(rows: seq<Record>, front: seq<FrameRow>, f: FrameRow, symbol: Symbol, asOf: Stamp, lookbackDays: int, r: Record)
    requires Entitled(rows, Some(front), symbol, asOf, lookbackDays) && Carries(r, symbol, f)
    ensures Entitled(if Visible(f.stamp, asOf, lookbackDays) then rows + [r] else rows, Some(front + [f]), symbol, asOf, lookbackDays)
  {
    VisibleNext(front, f, asOf, lookbackDays);
    var at := VisibleAt(front, asOf, lookbackDays);
    CarriesOneMore(rows, symbol, front, f, at, r);
    assert at + [] == at;
  }

  lemma {:induction false} FrameWindow(symbol: Symbol, frame: seq<FrameRow>, asOf: Stamp, lookbackDays: int)
    ensures Entitled(Filter(ToRecords(symbol, frame), InWindow(WindowStart(asOf, lookbackDays), WindowEnd(asOf))),
                     Some(frame), symbol, asOf, lookbackDays)
  {
    if frame != [] {
      var front, f := frame[..|frame| - 1], frame[|frame| - 1];
      var p, r := InWindow(WindowStart(asOf, lookbackDays), WindowEnd(asOf)), ToRecord(symbol, f);
      assert frame == front + [f];
      FrameWindow(symbol, front, asOf, lookbackDays);
      ToRecordsSnoc(symbol, front, f);
      WindowSnoc(ToRecords(symbol, front), r, p);
      InWindowIsVisible(symbol, f, asOf, lookbackDays);
      EntitledNext(Filter(ToRecords(symbol, front), p), front, f, symbol, asOf, lookbackDays, r);
      assert Filter(ToRecords(symbol, front), p) + [] == Filter(ToRecords(symbol, front), p);
    }
  }

  lemma WindowIsEntitled(ops: seq<Op>, key: Key, asOf: Stamp, lookbackDays: int)
    ensures Entitled(FlatWindow(ApplyAll(map[], ops), key, asOf, lookbackDays), LatestFrame(ops, key), key.1, asOf, lookbackDays)
  {
    HistoryIsLatest(ops, key);
    if LatestFrame(ops, key).Some? { FrameWindow(key.1, LatestFrame(ops, key).value, asOf, lookbackDays); }
  }

  /**
    A scan's row is one a caller last wrote for its symbol: read at an instant not after
    `asOf` and less than the look-back before it, and with its own figures.
  */
  lemma NoRowOutsideWindow(out: map<Symbol, seq<Record>>, ops: seq<Op>, universe: seq<Symbol>, tf: Timeframe, asOf: Stamp, lookbackDays: int, s: Symbol, r: Record)
    requires Answers(out, ApplyAll(map[], ops), universe, tf, asOf, lookbackDays)
    ensures s in out && r in out[s] <==>
      && s in universe && LatestFrame(ops, (tf, s)).Some?
      && exists f :: f in LatestFrame(ops, (tf, s)).value && Visible(f.stamp, asOf, lookbackDays) && Carries(r, s, f)
  {
    var w, frame := FlatWindow(ApplyAll(map[], ops), (tf, s), asOf, lookbackDays), LatestFrame(ops, (tf, s));
    WindowIsEntitled(ops, (tf, s), asOf, lookbackDays);
    if s in out {
      if r in out[s] { MultisetMember(out[s], w, r); }
      if r in w { MultisetMember(w, out[s], r); }
    }
    if frame.Some? { EntitledMember(w, frame.value, s, asOf, lookbackDays, r); }
  }

  lemma EntitledMember(rows: seq<Record>, frame: seq<FrameRow>, symbol: Symbol, asOf: Stamp, lookbackDays: int, r: Record)
    requires Entitled(rows, Some(frame), symbol, asOf, lookbackDays)
    ensures r in rows <==> exists f :: f in frame && Visible(f.stamp, asOf, lookbackDays) && Carries(r, symbol, f)
  {
    var at := VisibleAt(frame, asOf, lookbackDays);
    if k :| 0 <= k < |rows| && rows[k] == r {
      assert at[k] in at;
      assert frame[at[k]] in frame && Visible(frame[at[k]].stamp, asOf, lookbackDays);
    }
    if f :| f in frame && Visible(f.stamp, asOf, lookbackDays) && Carries(r, symbol, f) {
      var i :| 0 <= i < |frame| && frame[i] == f;
      assert i in at;
      var k :| 0 <= k < |at| && at[k] == i;
      assert rows[k] == r;
    }
  }

  ghost predicate DistinctTs(rows: seq<Record>) {
    forall i, j :: 0 <= i < |rows| && 0 <= j < |rows| && rows[i].ts == rows[j].ts ==> rows[i] == rows[j]
  }

  /** When a symbol's timestamps are distinct, the scan's answer is one definite frame. */
  lemma AnswerIsSortedWindow(out: map<Symbol, seq<Record>>, flat: Flat, universe: seq<Symbol>, tf: Timeframe, asOf: Stamp, lookbackDays: int, s: Symbol)
    requires Answers(out, flat, universe, tf, asOf, lookbackDays)
    requires s in out && DistinctTs(flat[(tf, s)])
    ensures out[s] == Sorted(FlatWindow(flat, (tf, s), asOf, lookbackDays), ByTs())
  {
    var rows, p := flat[(tf, s)], InWindow(WindowStart(asOf, lookbackDays), WindowEnd(asOf));
    var w := FlatWindow(flat, (tf, s), asOf, lookbackDays);
    SortedSorts(w, ByTs());
    forall i, j | 0 <= i < |out[s]| && 0 <= j < |out[s]| && out[s][i].ts == out[s][j].ts ensures out[s][i] == out[s][j] {
      MultisetMember(out[s], w, out[s][i]);
      MultisetMember(out[s], w, out[s][j]);
      FilterMembers(rows, p, out[s][i]);
      FilterMembers(rows, p, out[s][j]);
    }
    assert SortedBy(out[s], ByTs());
    SortedIsUnique(out[s], Sorted(w, ByTs()), ByTs());
  }
}
