/**
  The partitioned store: one subtree per timeframe and symbol, one file per UTC year.
  Its writes, deletes and scans are proved against the flat history of BarHistory.
*/
module BarStore {
  import opened Options
  import opened Seqs
  import opened Stamps
  import opened BarHistory

  type Subtree = map<int, seq<Record>>

  function OfYear(year: int): Record -> bool {
    (r: Record) => Year(r.ts) == year
  }

  /** The subtree holds exactly the rows, split by year: no row lost, no stale year. */
  ghost predicate Partitions(tree: Subtree, rows: seq<Record>) {
    && (forall y :: y in tree <==> exists r :: r in rows && Year(r.ts) == y)
    && (forall y :: y in tree ==> tree[y] == Filter(rows, OfYear(y)))
  }

  // ------------------------------------------------------------------------
  // Reading back a set of year files
  // ------------------------------------------------------------------------

  /** The rows of the given year files, one file after another. */
  function Rows(tree: Subtree, years: seq<int>): seq<Record>
    requires forall i :: 0 <= i < |years| ==> years[i] in tree
  {
    if years == [] then [] else Rows(tree, years[..|years| - 1]) + tree[years[|years| - 1]]
  }

  lemma {:induction false} RowsCount(tree: Subtree, rows: seq<Record>, years: seq<int>, r: Record)
    requires Partitions(tree, rows) && NoRepeats(years)
    requires forall i :: 0 <= i < |years| ==> years[i] in tree
    ensures multiset(Rows(tree, years))[r] == if Year(r.ts) in years then multiset(rows)[r] else 0
  {
    if years != [] {
      var front, last := years[..|years| - 1], years[|years| - 1];
      LastIsNew(years);
      RowsCount(tree, rows, front, r);
      YearCount(tree, rows, last, r);
      ConcatCount(Rows(tree, front), tree[last], r);
      assert Year(r.ts) in years <==> Year(r.ts) in front || Year(r.ts) == last;
    }
  }

  lemma LastIsNew(years: seq<int>)
    requires NoRepeats(years) && years != []
    ensures years == years[..|years| - 1] + [years[|years| - 1]] && years[|years| - 1] !in years[..|years| - 1]
    ensures NoRepeats(years[..|years| - 1])
  {
  }

  lemma ConcatCount(xs: seq<Record>, ys: seq<Record>, r: Record)
    ensures multiset(xs + ys)[r] == multiset(xs)[r] + multiset(ys)[r]
  {
  }

  /** One year's file holds a row as often as the history does, if it is of that year. */
  lemma YearCount(tree: Subtree, rows: seq<Record>, year: int, r: Record)
    requires Partitions(tree, rows) && year in tree
    ensures multiset(tree[year])[r] == if Year(r.ts) == year then multiset(rows)[r] else 0
  {
    FilterCount(rows, OfYear(year), r);
  }

  lemma SomeYear(years: set<int>)
    requires years != {}
    ensures exists y :: y in years
  {
    if forall y :: y !in years { assert false; }
  }

  predicate InYears(y: int, lo: Option<int>, hi: Option<int>) {
    (lo.Some? ==> y >= lo.value) && (hi.Some? ==> y <= hi.value)
  }

  /** Exactly the subtree's years between the bounds, each once. */
  ghost predicate YearsBetween(years: seq<int>, tree: Subtree, lo: Option<int>, hi: Option<int>) {
    && NoRepeats(years)
    && (forall i :: 0 <= i < |years| ==> years[i] in tree)
    && (forall y :: y in years <==> y in tree && (lo.Some? ==> lo.value <= y) && (hi.Some? ==> y <= hi.value))
  }

  /** Pruning to the window's years loses no row of the window. */
  lemma PruningIsExact(tree: Subtree, rows: seq<Record>, years: seq<int>, start: int, end: int)
    requires Partitions(tree, rows)
    requires YearsBetween(years, tree, Some(Year(start)), Some(Year(end)))
    ensures multiset(Filter(Rows(tree, years), InWindow(start, end))) == multiset(Filter(rows, InWindow(start, end)))
  {
    var p := InWindow(start, end);
    var a, b := multiset(Filter(Rows(tree, years), p)), multiset(Filter(rows, p));
    forall r ensures a[r] == b[r] {
      FilterCount(Rows(tree, years), p, r);
      FilterCount(rows, p, r);
      RowsCount(tree, rows, years, r);
      if p(r) && multiset(rows)[r] > 0 {
        YearMonotone(start, r.ts);
        YearMonotone(r.ts, end);
        assert r in rows;
      }
    }
  }

  // ------------------------------------------------------------------------
  // Helpers for the lazy panel
  // ------------------------------------------------------------------------

  /** Every symbol's window, as one bag of rows. */
  ghost function WindowBag(flat: Flat, tf: Timeframe, symbols: seq<Symbol>, asOf: Stamp, lookbackDays: int): multiset<Record> {
    if symbols == [] then multiset{} else
      WindowBag(flat, tf, symbols[..|symbols| - 1], asOf, lookbackDays)
      + multiset(FlatWindow(flat, (tf, symbols[|symbols| - 1]), asOf, lookbackDays))
  }

  ghost function AnswerBag(out: map<Symbol, seq<Record>>, symbols: seq<Symbol>): multiset<Record> {
    if symbols == [] then multiset{} else
      var last := symbols[|symbols| - 1];
      AnswerBag(out, symbols[..|symbols| - 1]) + (if last in out then multiset(out[last]) else multiset{})
  }

  /** The lazy panel holds the same rows as the eager scan, whatever the universe repeats. */
  lemma {:induction false} LazyMatchesEager(out: map<Symbol, seq<Record>>, flat: Flat, universe: seq<Symbol>, tf: Timeframe, asOf: Stamp, lookbackDays: int, symbols: seq<Symbol>)
    requires Answers(out, flat, universe, tf, asOf, lookbackDays)
    requires forall s :: s in symbols ==> s in universe
    ensures WindowBag(flat, tf, symbols, asOf, lookbackDays) == AnswerBag(out, symbols)
  {
    if symbols != [] {
      LazyMatchesEager(out, flat, universe, tf, asOf, lookbackDays, symbols[..|symbols| - 1]);
    }
  }

  // ------------------------------------------------------------------------
  // The store
  // ------------------------------------------------------------------------

  class ParquetBarStore {
    /** Timeframe directories that exist; one is never removed once made. */
    var roots: set<Timeframe>
    /** The `symbol=.../year=...` subtrees that exist. */
    var trees: map<Key, Subtree>
    /** The latest history written for each key and not deleted since. */
    ghost var flat: Flat

    ghost predicate Valid()
      reads this
    {
      && trees.Keys == flat.Keys
      && (forall k :: k in trees ==> k.0 in roots && Partitions(trees[k], flat[k]))
    }

    constructor ()
      ensures Valid() && flat == map[]
    {
      roots, trees, flat := {}, map[], map[];
    }

    /** One year file for each year that occurs in the rows. */
    method Split(rows: seq<Record>) returns (tree: Subtree)
      ensures Partitions(tree, rows)
    {
      tree := map[];
      for i := 0 to |rows|
        invariant forall y :: y in tree <==> exists r :: r in rows[..i] && Year(r.ts) == y
        invariant forall y :: y in tree ==> tree[y] == Filter(rows, OfYear(y))
      {
        var y := Year(rows[i].ts);
        assert rows[..i + 1] == rows[..i] + [rows[i]];
        if y !in tree {
          tree := tree[y := Filter(rows, OfYear(y))];
        }
        assert rows[i] in rows[..i + 1];
      }
      assert rows[..|rows|] == rows;
    }

    method Write(bars: seq<(Symbol, Option<seq<FrameRow>>)>, tf: Timeframe)
      requires Valid()
      modifies this
      ensures Valid() && flat == WriteFlat(old(flat), tf, bars)
    {
      for i := 0 to |bars|
        invariant Valid() && flat == WriteFlat(old(flat), tf, bars[..i])
      {
        assert bars[..i + 1][..i] == bars[..i];
        var (symbol, frame) := bars[i];
        if frame.None? || frame.value == [] { continue; }
        var records := ToRecords(symbol, frame.value);
        trees := trees - {(tf, symbol)};
        var tree := Split(records);
        roots := roots + {tf};
        trees := trees[(tf, symbol) := tree];
        flat := flat[(tf, symbol) := records];
      }
      assert bars[..|bars|] == bars;
    }

    method DeleteSymbol(symbol: Symbol, tf: Timeframe)
      requires Valid()
      modifies this
      ensures Valid() && flat == old(flat) - {(tf, symbol)}
    {
      if (tf, symbol) in trees {
        trees := trees - {(tf, symbol)};
        flat := flat - {(tf, symbol)};
      }
    }

    /** Any sequence of writes and deletes leaves the flat history those operations define. */
    method Perform(ops: seq<Op>)
      requires Valid()
      modifies this
      ensures Valid() && flat == ApplyAll(old(flat), ops)
    {
      for i := 0 to |ops|
        invariant Valid() && flat == ApplyAll(old(flat), ops[..i])
      {
        assert ops[..i + 1][..i] == ops[..i];
        match ops[i]
        case Write(bars, tf) => Write(bars, tf);
        case Delete(symbol, tf) => DeleteSymbol(symbol, tf);
      }
      assert ops[..|ops|] == ops;
    }

    /** The year files of one subtree within the bounds; an absent bound is open. */
    method YearFiles(key: Key, lo: Option<int>, hi: Option<int>) returns (years: seq<int>)
      ensures key !in trees ==> years == []
      ensures key in trees ==> YearsBetween(years, trees[key], lo, hi)
    {
      years := [];
      if key !in trees { return; }
      var found := trees[key].Keys;
      while found != {}
        invariant found <= trees[key].Keys && NoRepeats(years)
        invariant forall i :: 0 <= i < |years| ==> years[i] in trees[key]
        invariant forall y :: y in years <==> y in trees[key] && y !in found && InYears(y, lo, hi)
        decreases found
      {
        SomeYear(found);
        var y :| y in found;
        if InYears(y, lo, hi) {
          years := years + [y];
        }
        found := found - {y};
      }
    }

    /** `sort_values("ts")`: sorted, the same rows, ties in any order. */
    method SortByTs(rows: seq<Record>) returns (sorted: seq<Record>)
      ensures Ascending(sorted) && multiset(sorted) == multiset(rows)
    {
      SortedSorts(rows, ByTs());
      sorted := Sorted(rows, ByTs());
      assert forall i, j :: 0 <= i < j < |sorted| ==> ByTs()(sorted[i], sorted[j]);
    }

    method Scan(universe: seq<Symbol>, tf: Timeframe, asOf: Stamp, lookbackDays: int) returns (out: map<Symbol, seq<Record>>)
      requires Valid()
      ensures Answers(out, flat, universe, tf, asOf, lookbackDays)
    {
      out := map[];
      if tf !in roots {
        return;
      }
      var start, end := WindowStart(asOf, lookbackDays), WindowEnd(asOf);
      var symbols := FromKeys(universe);
      for i := 0 to |symbols|
        invariant Answers(out, flat, symbols[..i], tf, asOf, lookbackDays)
      {
        var symbol := symbols[i];
        assert symbols[..i + 1] == symbols[..i] + [symbol];
        var years := YearFiles((tf, symbol), Some(Year(start)), Some(Year(end)));
        if (tf, symbol) in trees {
          PruningIsExact(trees[(tf, symbol)], flat[(tf, symbol)], years, start, end);
        }
        var table := if years == [] then [] else Filter(Rows(trees[(tf, symbol)], years), InWindow(start, end));
        assert multiset(table) == multiset(FlatWindow(flat, (tf, symbol), asOf, lookbackDays));
        if table != [] {
          var frame := SortByTs(table);
          out := out[symbol := frame];
        }
        assert |table| == |multiset(table)|;
      }
      assert symbols[..|symbols|] == symbols;
    }

    /** The partition files behind a universe; with `asOf` given, pruned to its window's years. */
    method PartitionPaths(universe: seq<Symbol>, tf: Timeframe, asOf: Option<Stamp>, lookbackDays: int) returns (paths: seq<(Symbol, seq<int>)>)
      ensures |paths| == |FromKeys(universe)|
      ensures forall i :: 0 <= i < |paths| ==>
        var s := FromKeys(universe)[i];
        && paths[i].0 == s
        && ((tf, s) !in trees ==> paths[i].1 == [])
        && ((tf, s) in trees ==> YearsBetween(paths[i].1, trees[(tf, s)],
             if asOf.None? then None else Some(Year(WindowStart(asOf.value, lookbackDays))),
             if asOf.None? then None else Some(Year(WindowEnd(asOf.value)))))
    {
      var lo, hi := None, None;
      if asOf.Some? {
        lo, hi := Some(Year(WindowStart(asOf.value, lookbackDays))), Some(Year(WindowEnd(asOf.value)));
      }
      paths := [];
      var symbols := FromKeys(universe);
      for i := 0 to |symbols|
        invariant |paths| == i
        invariant forall j :: 0 <= j < i ==>
          && paths[j].0 == symbols[j]
          && ((tf, symbols[j]) !in trees ==> paths[j].1 == [])
          && ((tf, symbols[j]) in trees ==> YearsBetween(paths[j].1, trees[(tf, symbols[j])], lo, hi))
      {
        var years := YearFiles((tf, symbols[i]), lo, hi);
        paths := paths + [(symbols[i], years)];
      }
    }

    /** The long panel: one filter over the pruned files of the whole universe. */
    method ScanLazy(universe: seq<Symbol>, tf: Timeframe, asOf: Stamp, lookbackDays: int) returns (rows: seq<Record>)
      requires Valid()
      ensures multiset(rows) == WindowBag(flat, tf, FromKeys(universe), asOf, lookbackDays)
    {
      var start, end := WindowStart(asOf, lookbackDays), WindowEnd(asOf);
      var paths := PartitionPaths(universe, tf, Some(asOf), lookbackDays);
      ghost var symbols := FromKeys(universe);
      rows := [];
      for i := 0 to |paths|
        invariant multiset(rows) == WindowBag(flat, tf, symbols[..i], asOf, lookbackDays)
      {
        var (symbol, years) := paths[i];
        assert symbols[..i + 1][..i] == symbols[..i];
        if (tf, symbol) in trees {
          PruningIsExact(trees[(tf, symbol)], flat[(tf, symbol)], years, start, end);
          rows := rows + Filter(Rows(trees[(tf, symbol)], years), InWindow(start, end));
        }
      }
      assert symbols[..|symbols|] == symbols;
    }
  }

  /** What the last frame written for a symbol shows of itself at `asOf`. */
  ghost function Window(ops: seq<Op>, tf: Timeframe, s: Symbol, asOf: Stamp, lookbackDays: int): (rows: seq<Record>)
    ensures Entitled(rows, LatestFrame(ops, (tf, s)), s, asOf, lookbackDays)
  {
    WindowIsEntitled(ops, (tf, s), asOf, lookbackDays);
    FlatWindow(ApplyAll(map[], ops), (tf, s), asOf, lookbackDays)
  }

  /**
    A scan after any sequence of operations on a new store: for each symbol asked for whose
    last frame shows any row, those rows, as often as the frame has them, by timestamp.
  */
  method ScanAfter(ops: seq<Op>, universe: seq<Symbol>, tf: Timeframe, asOf: Stamp, lookbackDays: int) returns (out: map<Symbol, seq<Record>>)
    ensures forall s :: s in out <==> s in universe && Window(ops, tf, s, asOf, lookbackDays) != []
    ensures forall s :: s in out ==> multiset(out[s]) == multiset(Window(ops, tf, s, asOf, lookbackDays))
    ensures forall s, i, j :: s in out && 0 <= i < j < |out[s]| ==> out[s][i].ts <= out[s][j].ts
  {
    var store := new ParquetBarStore();
    store.Perform(ops);
    out := store.Scan(universe, tf, asOf, lookbackDays);
  }

  lemma {:induction false} BagOfWindows(ops: seq<Op>, tf: Timeframe, symbols: seq<Symbol>, asOf: Stamp, lookbackDays: int, r: Record)
    requires NoRepeats(symbols)
    ensures WindowBag(ApplyAll(map[], ops), tf, symbols, asOf, lookbackDays)[r]
      == if r.symbol in symbols then multiset(Window(ops, tf, r.symbol, asOf, lookbackDays))[r] else 0
  {
    if symbols != [] {
      var front, last := symbols[..|symbols| - 1], symbols[|symbols| - 1];
      assert symbols == front + [last];
      BagOfWindows(ops, tf, front, asOf, lookbackDays, r);
      var w := Window(ops, tf, last, asOf, lookbackDays);
      assert r in w ==> r.symbol == last;
    }
  }

  /** The lazy panel after any operations holds the same rows, each symbol's once however often it is asked for. */
  method PanelAfter(ops: seq<Op>, universe: seq<Symbol>, tf: Timeframe, asOf: Stamp, lookbackDays: int) returns (rows: seq<Record>)
    ensures forall r :: multiset(rows)[r] == if r.symbol in universe then multiset(Window(ops, tf, r.symbol, asOf, lookbackDays))[r] else 0
  {
    var store := new ParquetBarStore();
    store.Perform(ops);
    rows := store.ScanLazy(universe, tf, asOf, lookbackDays);
    forall r ensures multiset(rows)[r] == if r.symbol in universe then multiset(Window(ops, tf, r.symbol, asOf, lookbackDays))[r] else 0 {
      BagOfWindows(ops, tf, FromKeys(universe), asOf, lookbackDays, r);
    }
  }
}
