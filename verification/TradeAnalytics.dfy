/** Reading a stored trade table: what may be aggregated, and the sections over it. */
module TradeAnalytics {
  import opened Options
  import opened Seqs
  import opened Stamps
  import opened TradeGroups

  /**
    A stored cell: absent, or its text with the finite number and the timestamp it reads as,
    if any. A whole number beyond the range of floats is a cell of its own.
  */
  datatype Cell = Null | Huge(text: string) | Cell(text: string, number: Option<real>, stamp: Option<Stamp>)

  datatype Table = Table(columns: seq<string>, rows: seq<seq<Cell>>, totalRows: Option<nat>, truncated: Option<bool>)

  datatype Completeness = Whole | Capped | Unknown | Absent

  datatype Status = Complete | Truncated | Unavailable

  function Describe(table: Option<Table>): Completeness {
    if table.None? then Absent
    else if table.value.truncated.None? then Unknown
    else if table.value.truncated.value then Capped else Whole
  }

  // ------------------------------------------------------------------------
  // The table transposed
  // ------------------------------------------------------------------------

  function CellAt(row: seq<Cell>, i: nat): Cell {
    if i < |row| then row[i] else Null
  }

  /** What one row adds to the column of `name`: a cell for each of the first `n` headers so named. */
  function RowCells(names: seq<string>, row: seq<Cell>, name: string, n: nat): seq<Cell>
    requires n <= |names|
  {
    if n == 0 then []
    else RowCells(names, row, name, n - 1) + (if names[n - 1] == name then [CellAt(row, n - 1)] else [])
  }

  /** The column of `name` over the first `n` rows; a repeated header interleaves its cells. */
  function CellsOf(table: Table, name: string, n: nat): seq<Cell>
    requires n <= |table.rows|
  {
    if n == 0 then []
    else CellsOf(table, name, n - 1) + RowCells(table.columns, table.rows[n - 1], name, |table.columns|)
  }

  function ColumnCells(table: Table, name: string): seq<Cell> {
    CellsOf(table, name, |table.rows|)
  }

  /** Each column has the row's cells under its first `i` headers at its end. */
  ghost predicate Appended(out: map<string, seq<Cell>>, before: map<string, seq<Cell>>, names: seq<string>, row: seq<Cell>, i: nat)
    requires i <= |names|
  {
    out.Keys == before.Keys && forall name :: name in before ==> out[name] == before[name] + RowCells(names, row, name, i)
  }

  lemma AppendedNext(out: map<string, seq<Cell>>, before: map<string, seq<Cell>>, names: seq<string>, row: seq<Cell>, i: nat)
    requires i < |names| && names[i] in before && Appended(out, before, names, row, i)
    ensures Appended(out[names[i] := out[names[i]] + [CellAt(row, i)]], before, names, row, i + 1)
  {
    var next := out[names[i] := out[names[i]] + [CellAt(row, i)]];
    forall name | name in before ensures next[name] == before[name] + RowCells(names, row, name, i + 1) {
      var cells := RowCells(names, row, name, i);
      assert out[name] == before[name] + cells;
      if names[i] == name {
        assert (before[name] + cells) + [CellAt(row, i)] == before[name] + (cells + [CellAt(row, i)]);
      }
    }
  }

  /** The inner loop: one row's cells go to the ends of their columns. */
  method AppendRow(before: map<string, seq<Cell>>, names: seq<string>, row: seq<Cell>) returns (out: map<string, seq<Cell>>)
    requires forall i :: 0 <= i < |names| ==> names[i] in before
    ensures Appended(out, before, names, row, |names|)
  {
    out := before;
    for i := 0 to |names|
      invariant Appended(out, before, names, row, i)
    {
      AppendedNext(out, before, names, row, i);
      out := out[names[i] := out[names[i]] + [CellAt(row, i)]];
    }
  }

  method Columns(table: Table) returns (out: map<string, seq<Cell>>)
    ensures forall name :: name in out <==> name in table.columns
    ensures forall name :: name in out ==> out[name] == ColumnCells(table, name)
  {
    var names := table.columns;
    out := map name | name in names :: [];
    for r := 0 to |table.rows|
      invariant out.Keys == set name | name in names
      invariant forall name :: name in out ==> out[name] == CellsOf(table, name, r)
    {
      out := AppendRow(out, names, table.rows[r]);
    }
  }

  lemma {:induction false} OwnCell(names: seq<string>, row: seq<Cell>, i: nat, n: nat)
    requires NoRepeats(names) && i < |names| && n <= |names|
    ensures RowCells(names, row, names[i], n) == if i < n then [CellAt(row, i)] else []
  {
    if n > 0 { OwnCell(names, row, i, n - 1); }
  }

  lemma OneRowMore(table: Table, i: nat, n: nat)
    requires NoRepeats(table.columns) && i < |table.columns| && 0 < n <= |table.rows|
    ensures CellsOf(table, table.columns[i], n) == CellsOf(table, table.columns[i], n - 1) + [CellAt(table.rows[n - 1], i)]
  {
    OwnCell(table.columns, table.rows[n - 1], i, |table.columns|);
  }

  /** With distinct headers, a column holds one cell per row: a short row is padded, never dropped. */
  lemma {:induction false} ColumnIsPadded(table: Table, i: nat, n: nat)
    requires NoRepeats(table.columns) && i < |table.columns| && n <= |table.rows|
    ensures |CellsOf(table, table.columns[i], n)| == n
    ensures forall r :: 0 <= r < n ==> CellsOf(table, table.columns[i], n)[r] == CellAt(table.rows[r], i)
  {
    if n > 0 {
      ColumnIsPadded(table, i, n - 1);
      OneRowMore(table, i, n);
    }
  }

  function Reasons(cells: seq<Cell>): (rs: seq<string>)
    ensures |rs| == |cells|
  {
    seq(|cells|, i requires 0 <= i < |cells| => if cells[i].Null? then "" else cells[i].text)
  }

  function Floats(cells: seq<Cell>): (xs: seq<Pnl>)
    ensures |xs| == |cells|
  {
    seq(|cells|, i requires 0 <= i < |cells| => if cells[i].Cell? then cells[i].number else None)
  }

  // ------------------------------------------------------------------------
  // How long positions were held
  // ------------------------------------------------------------------------

  function StampOf(c: Cell): Option<Stamp> {
    if c.Cell? then c.stamp else None
  }

  /** One stamp carries an offset and the other does not: the two cannot be subtracted. */
  predicate Mixed(a: Cell, b: Cell) {
    var start, end := StampOf(a), StampOf(b);
    start.Some? && end.Some? && (start.value.offset.Some? <==> end.value.offset.None?)
  }

  predicate AnyMixed(entries: seq<Cell>, exits: seq<Cell>) {
    exists i :: 0 <= i < |entries| && i < |exits| && Mixed(entries[i], exits[i])
  }

  /** The time from one stamp to the other, where both can be read. */
  function Held(a: Cell, b: Cell): Option<int> {
    var start, end := StampOf(a), StampOf(b);
    if start.Some? && end.Some? then Some(Utc(end.value) - Utc(start.value)) else None
  }

  function HeldTimes(entries: seq<Cell>, exits: seq<Cell>): (held: seq<Option<int>>)
    ensures |held| == |entries|
  {
    seq(|entries|, i requires 0 <= i < |entries| => if i < |exits| then Held(entries[i], exits[i]) else None)
  }

  ghost predicate Stamped(c: Cell) { c.Cell? && c.stamp.Some? }

  /** Both cells read as timestamps, one with an offset and one without. */
  ghost predicate Clash(a: Cell, b: Cell) {
    Stamped(a) && Stamped(b) && (a.stamp.value.offset.Some? <==> b.stamp.value.offset.None?)
  }

  /** `None` is the exception of subtracting a naive stamp and an aware one. */
  method Durations(entries: seq<Cell>, exits: seq<Cell>) returns (held: Option<seq<Option<int>>>)
    ensures held == if AnyMixed(entries, exits) then None else Some(HeldTimes(entries, exits))
    ensures held.None? <==> exists i :: 0 <= i < |entries| && i < |exits| && Clash(entries[i], exits[i])
    ensures held.Some? ==> |held.value| == |entries|
    ensures held.Some? ==> forall i :: 0 <= i < |entries| ==>
      if i < |exits| && Stamped(entries[i]) && Stamped(exits[i])
      then held.value[i] == Some(Instant(exits[i].stamp.value) - Instant(entries[i].stamp.value)) else held.value[i] == None
  {
    var days := seq(|entries|, i => None);
    var n := if |exits| < |entries| then |exits| else |entries|;
    for i := 0 to n
      invariant |days| == |entries|
      invariant forall k :: 0 <= k < i ==> !Mixed(entries[k], exits[k]) && days[k] == Held(entries[k], exits[k])
      invariant forall k :: i <= k < |entries| ==> days[k] == None
    {
      if Mixed(entries[i], exits[i]) {
        assert Clash(entries[i], exits[i]);
        return None;
      }
      days := days[i := Held(entries[i], exits[i])];
    }
    assert days == HeldTimes(entries, exits);
    held := Some(days);
  }

  predicate AnyHuge(cells: seq<Cell>) {
    exists i :: 0 <= i < |cells| && cells[i].Huge?
  }

  // ------------------------------------------------------------------------
  // The report
  // ------------------------------------------------------------------------

  datatype Report = Report(status: Status, source: Completeness, trades: nat, overall: Option<WinLoss>, exits: Option<seq<Group>>,
    held: Option<seq<Option<int>>>)

  const REFUSED := Report(Unavailable, Absent, 0, None, None, None)

  /** A total over part of a run is refused unless a partial one is asked for. */
  predicate Aggregates(table: Option<Table>, allowPartial: bool) {
    table.Some? && (Describe(table) == Whole || allowPartial)
  }

  /** The two columns of the exit breakdown pair up; with a header repeated they may not. */
  predicate PairsUp(table: Table) {
    "pnl" in table.columns && "exit_reason" in table.columns ==> |ColumnCells(table, "pnl")| == |ColumnCells(table, "exit_reason")|
  }

  function Overall(table: Table): WinLoss {
    WinLossOver(Floats(ColumnCells(table, "pnl")))
  }

  function Exits(table: Table): seq<Group>
    requires |ColumnCells(table, "pnl")| == |ColumnCells(table, "exit_reason")|
  {
    var reasons := Reasons(ColumnCells(table, "exit_reason"));
    Sorted(Groups(reasons, Floats(ColumnCells(table, "pnl")), Keys(reasons)), ByNet())
  }

  /** The refusal of a capped table names how many trades it was capped from. */
  predicate RefusesWithoutTotal(table: Option<Table>, allowPartial: bool) {
    table.Some? && Describe(table) == Capped && !allowPartial && table.value.totalRows.None?
  }

  /** A column of that name is asked for floats, and one of its cells is beyond their range. */
  predicate Overflows(table: Table, name: string) {
    name in table.columns && AnyHuge(ColumnCells(table, name))
  }

  predicate FloatsOverflow(table: Table) {
    Overflows(table, "pnl") || Overflows(table, "mae_pct") || Overflows(table, "mfe_pct")
  }

  predicate RecordsTimes(table: Table) {
    "entry_time" in table.columns && "exit_time" in table.columns
  }

  predicate MixesStamps(table: Table) {
    RecordsTimes(table) && AnyMixed(ColumnCells(table, "entry_time"), ColumnCells(table, "exit_time"))
  }

  /**
    An exception: formatting a missing total, masking one column by another of a different
    length, subtracting a naive timestamp and an aware one, or a number too large for a float.
  */
  predicate Raises(table: Option<Table>, allowPartial: bool) {
    || RefusesWithoutTotal(table, allowPartial)
    || (Aggregates(table, allowPartial) && (!PairsUp(table.value) || MixesStamps(table.value) || FloatsOverflow(table.value)))
  }

  /** The sections that are there are those of the table. */
  ghost predicate Reported(r: Report, table: Table) {
    && (r.overall == if "pnl" in table.columns then Some(Overall(table)) else None)
    && ("pnl" in table.columns && "exit_reason" in table.columns ==> PairsUp(table) && r.exits == Some(Exits(table)))
    && ("pnl" !in table.columns || "exit_reason" !in table.columns ==> r.exits == None)
    && (r.held == if RecordsTimes(table) then Some(HeldTimes(ColumnCells(table, "entry_time"), ColumnCells(table, "exit_time"))) else None)
  }

  /** The sections over an aggregated table; `None` is an exception. */
  method Sections(table: Table, blank: Report) returns (result: Option<Report>)
    requires blank.overall.None? && blank.exits.None? && blank.held.None?
    ensures result.None? <==> !PairsUp(table) || MixesStamps(table) || FloatsOverflow(table)
    ensures result.Some? ==> Reported(result.value, table)
    ensures result.Some? ==> result.value.status == blank.status && result.value.source == blank.source && result.value.trades == blank.trades
  {
    var columns := Columns(table);
    var r := blank;
    if "pnl" in columns {
      var pnl := columns["pnl"];
      if AnyHuge(pnl) { return None; }
      r := r.(overall := Some(WinLossOver(Floats(pnl))));
      if "exit_reason" in columns {
        var reasons := columns["exit_reason"];
        if |reasons| != |pnl| { return None; }
        var rows := ExitReasonBreakdown(Reasons(reasons), Floats(pnl));
        r := r.(exits := Some(rows));
      }
    }
    if "entry_time" in columns && "exit_time" in columns {
      var held := Durations(columns["entry_time"], columns["exit_time"]);
      if held.None? { return None; }
      r := r.(held := held);
    }
    if "mae_pct" in columns && AnyHuge(columns["mae_pct"]) { return None; }
    if "mfe_pct" in columns && AnyHuge(columns["mfe_pct"]) { return None; }
    result := Some(r);
  }

  /** `None` is an exception. */
  method AnalyzeTrades(table: Option<Table>, allowPartial: bool) returns (result: Option<Report>)
    ensures result.None? <==> Raises(table, allowPartial)
    ensures result.Some? ==>
      var r := result.value;
      && (r.source == match table
            case None => Absent
            case Some(t) => (match t.truncated case None => Unknown case Some(true) => Capped case Some(false) => Whole))
      && (r.status == Unavailable <==> table.None? || (table.value.truncated != Some(false) && !allowPartial))
      && (r.status == Complete <==> table.Some? && table.value.truncated == Some(false))
      && (r.status == Unavailable ==> r.trades == 0 && r.overall.None? && r.exits.None? && r.held.None?)
      && (r.status != Unavailable ==> r.trades == |table.value.rows| && Reported(r, table.value))
  {
    var source := Describe(table);
    var r := REFUSED.(source := source);
    if table.None? { return Some(r); }
    if source != Whole && !allowPartial {
      if source == Capped && table.value.totalRows.None? { return None; }
      return Some(r);
    }
    result := Sections(table.value, r.(status := if source == Whole then Complete else Truncated, trades := |table.value.rows|));
  }

  const NAIVE := Cell("2024-01-02T09:30:00", None, Some(Stamp(1_704_187_800_000_000, None)))
  const AWARE := Cell("2024-01-02T16:00:00+00:00", None, Some(Stamp(1_704_211_200_000_000, Some(0))))

  /**
    A recorded table may lack its total: capped, it raises instead of being refused. A
    column repeated beside another raises too, and so does a trade entered at a naive
    timestamp and left at an aware one.
  */
  lemma SomeTablesRaise()
    ensures Raises(Some(Table([], [], None, Some(true))), false)
    ensures Raises(Some(Table(["pnl", "pnl", "exit_reason"], [[]], Some(1), Some(false))), false)
    ensures Raises(Some(Table(["entry_time", "exit_time"], [[NAIVE, AWARE]], Some(1), Some(false))), false)
  {
    RepeatedHeaderRaises();
    MixedStampsRaise();
  }

  lemma RepeatedHeaderRaises()
    ensures !PairsUp(Table(["pnl", "pnl", "exit_reason"], [[]], Some(1), Some(false)))
  {
    var table := Table(["pnl", "pnl", "exit_reason"], [[]], Some(1), Some(false));
    assert RowCells(table.columns, [], "pnl", 1) == [Null];
    assert RowCells(table.columns, [], "pnl", 2) == [Null, Null];
    assert RowCells(table.columns, [], "pnl", 3) == [Null, Null];
    assert RowCells(table.columns, [], "exit_reason", 2) == [];
    assert CellsOf(table, "pnl", 0) == [] && CellsOf(table, "exit_reason", 0) == [];
    assert |CellsOf(table, "pnl", 1)| == 2 && |CellsOf(table, "exit_reason", 1)| == 1;
    assert table.columns[0] == "pnl" && table.columns[2] == "exit_reason";
  }

  lemma MixedStampsRaise()
    ensures MixesStamps(Table(["entry_time", "exit_time"], [[NAIVE, AWARE]], Some(1), Some(false)))
  {
    var table := Table(["entry_time", "exit_time"], [[NAIVE, AWARE]], Some(1), Some(false));
    ColumnIsPadded(table, 0, 1);
    ColumnIsPadded(table, 1, 1);
    assert table.columns[0] == "entry_time" && table.columns[1] == "exit_time";
    assert Mixed(ColumnCells(table, "entry_time")[0], ColumnCells(table, "exit_time")[0]);
  }

  // ------------------------------------------------------------------------
  // Which tables raise, by their rows
  // ------------------------------------------------------------------------

  predicate IsFloatColumn(name: string) {
    name == "pnl" || name == "mae_pct" || name == "mfe_pct"
  }

  /** A stored row no section can take: entered and left by different clocks, or beyond the floats. */
  ghost predicate Unsound(names: seq<string>, row: seq<Cell>) {
    || (exists i, j :: 0 <= i < |names| && 0 <= j < |names| && names[i] == "entry_time" && names[j] == "exit_time"
          && i < |row| && j < |row| && Clash(row[i], row[j]))
    || (exists i :: 0 <= i < |names| && i < |row| && IsFloatColumn(names[i]) && row[i].Huge?)
  }

  lemma OverflowIsInRow(table: Table, i: nat)
    requires NoRepeats(table.columns) && i < |table.columns|
    ensures Overflows(table, table.columns[i]) <==> exists r :: 0 <= r < |table.rows| && CellAt(table.rows[r], i).Huge?
  {
    ColumnIsPadded(table, i, |table.rows|);
    if r :| 0 <= r < |table.rows| && CellAt(table.rows[r], i).Huge? {
      assert ColumnCells(table, table.columns[i])[r].Huge?;
    }
  }

  lemma MixedIsInRow(table: Table, i: nat, j: nat)
    requires NoRepeats(table.columns) && i < |table.columns| && j < |table.columns|
    requires table.columns[i] == "entry_time" && table.columns[j] == "exit_time"
    ensures MixesStamps(table) <==> exists r :: 0 <= r < |table.rows| && Mixed(CellAt(table.rows[r], i), CellAt(table.rows[r], j))
  {
    ColumnIsPadded(table, i, |table.rows|);
    ColumnIsPadded(table, j, |table.rows|);
    if r :| 0 <= r < |table.rows| && Mixed(CellAt(table.rows[r], i), CellAt(table.rows[r], j)) {
      assert Mixed(ColumnCells(table, "entry_time")[r], ColumnCells(table, "exit_time")[r]);
    }
  }

  lemma UnsoundRowRaises(table: Table, r: nat)
    requires NoRepeats(table.columns) && r < |table.rows| && Unsound(table.columns, table.rows[r])
    ensures MixesStamps(table) || FloatsOverflow(table)
  {
    var names, row := table.columns, table.rows[r];
    if i :| 0 <= i < |names| && i < |row| && IsFloatColumn(names[i]) && row[i].Huge? {
      OverflowIsInRow(table, i);
    } else {
      var i, j :| 0 <= i < |names| && 0 <= j < |names| && names[i] == "entry_time" && names[j] == "exit_time"
        && i < |row| && j < |row| && Clash(row[i], row[j]);
      assert Mixed(CellAt(row, i), CellAt(row, j));
      MixedIsInRow(table, i, j);
    }
  }

  lemma RaisingRow(table: Table) returns (r: nat)
    requires NoRepeats(table.columns) && (MixesStamps(table) || FloatsOverflow(table))
    ensures r < |table.rows| && Unsound(table.columns, table.rows[r])
  {
    var names := table.columns;
    if MixesStamps(table) {
      var i, j :| 0 <= i < |names| && 0 <= j < |names| && names[i] == "entry_time" && names[j] == "exit_time";
      MixedIsInRow(table, i, j);
      r :| 0 <= r < |table.rows| && Mixed(CellAt(table.rows[r], i), CellAt(table.rows[r], j));
      assert Clash(table.rows[r][i], table.rows[r][j]);
    } else {
      var i :| 0 <= i < |names| && IsFloatColumn(names[i]) && Overflows(table, names[i]);
      OverflowIsInRow(table, i);
      r :| 0 <= r < |table.rows| && CellAt(table.rows[r], i).Huge?;
    }
  }

  /**
    A table with distinct headers raises exactly when it is capped, refused and without a
    total to name, or is aggregated and holds an unsound row.
  */
  lemma RaisesIffUnsoundRow(table: Table, allowPartial: bool)
    requires NoRepeats(table.columns)
    ensures var aggregated := allowPartial || table.truncated == Some(false);
      Raises(Some(table), allowPartial)
      <==> (table.truncated == Some(true) && !allowPartial && table.totalRows.None?)
           || (aggregated && exists r :: 0 <= r < |table.rows| && Unsound(table.columns, table.rows[r]))
  {
    DistinctHeadersPairUp(table);
    if r :| 0 <= r < |table.rows| && Unsound(table.columns, table.rows[r]) { UnsoundRowRaises(table, r); }
    if MixesStamps(table) || FloatsOverflow(table) { var r := RaisingRow(table); }
  }

  /** With distinct headers the columns always pair up, one cell per stored row. */
  lemma DistinctHeadersPairUp(table: Table)
    requires NoRepeats(table.columns)
    ensures PairsUp(table)
    ensures "pnl" in table.columns && "exit_reason" in table.columns ==> |ColumnCells(table, "exit_reason")| == |table.rows|
  {
    if i, j :| 0 <= i < |table.columns| && 0 <= j < |table.columns| && table.columns[i] == "pnl" && table.columns[j] == "exit_reason" {
      ColumnIsPadded(table, i, |table.rows|);
      ColumnIsPadded(table, j, |table.rows|);
    }
  }

  // ------------------------------------------------------------------------
  // The sections, by the stored rows
  // ------------------------------------------------------------------------

  /** The finite number a row holds under one header, if it is long enough and holds one there. */
  ghost function NumberAt(row: seq<Cell>, i: nat): Pnl {
    if i < |row| && row[i].Cell? then row[i].number else None
  }

  /** The text there, blank where nothing is. */
  ghost function TextAt(row: seq<Cell>, i: nat): string {
    if i < |row| && !row[i].Null? then row[i].text else ""
  }

  /** With distinct headers the sections are taken over one number, and one reason, for each stored row in order. */
  lemma SectionsByRow(table: Table, i: nat, j: nat, pnl: seq<Pnl>, reasons: seq<string>)
    requires NoRepeats(table.columns) && i < |table.columns| && j < |table.columns|
    requires table.columns[i] == "pnl" && table.columns[j] == "exit_reason"
    requires |pnl| == |reasons| == |table.rows|
    requires forall r :: 0 <= r < |table.rows| ==> pnl[r] == NumberAt(table.rows[r], i) && reasons[r] == TextAt(table.rows[r], j)
    ensures PairsUp(table)
    ensures Overall(table) == WinLossOver(pnl)
    ensures Exits(table) == Sorted(Groups(reasons, pnl, Keys(reasons)), ByNet())
  {
    DistinctHeadersPairUp(table);
    ColumnIsPadded(table, i, |table.rows|);
    ColumnIsPadded(table, j, |table.rows|);
    assert Floats(ColumnCells(table, "pnl")) == pnl;
    assert Reasons(ColumnCells(table, "exit_reason")) == reasons;
  }

  /**
    The report accounts for every stored trade: its exit rows add up to the number of
    stored rows, their nets to the overall net, and their shares to one.
  */
  lemma ReportConserves(table: Table)
    requires NoRepeats(table.columns) && "pnl" in table.columns && "exit_reason" in table.columns
    ensures PairsUp(table)
    ensures Total(Exits(table), RowCount()) == |table.rows| as real
    ensures Total(Exits(table), Net()) == NetOrZero(Overall(table))
    ensures table.rows != [] ==> Total(Exits(table), Share()) == 1.0
  {
    var reasons, pnl := Reasons(ColumnCells(table, "exit_reason")), Floats(ColumnCells(table, "pnl"));
    DistinctHeadersPairUp(table);
    BreakdownConserves(reasons, pnl);
    if table.rows != [] { SharesSumToOne(reasons, pnl); }
  }
}
