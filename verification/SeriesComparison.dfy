/** Every pair among the given trials, and the matrix that must agree with the pair list. */
module SeriesComparison {
  import opened Options
  import opened SeriesPairs

  /** First occurrence of each id, and the ids that came again, in the order they did. */
  function Firsts(entries: seq<Entry>): (fs: seq<Entry>) {
    if entries == [] then [] else
      var before, last := Firsts(entries[..|entries| - 1]), entries[|entries| - 1];
      if HasId(before, last.id) then before else before + [last]
  }

  predicate HasId(entries: seq<Entry>, id: string) {
    exists i :: 0 <= i < |entries| && entries[i].id == id
  }

  function Repeats(entries: seq<Entry>): seq<string> {
    if entries == [] then [] else
      var front, last := entries[..|entries| - 1], entries[|entries| - 1];
      Repeats(front) + (if HasId(Firsts(front), last.id) then [last.id] else [])
  }

  predicate DistinctIds(entries: seq<Entry>) {
    forall i, j :: 0 <= i < j < |entries| ==> entries[i].id != entries[j].id
  }

  lemma {:induction false} FirstsAreDistinct(entries: seq<Entry>)
    ensures DistinctIds(Firsts(entries))
    ensures forall id :: HasId(Firsts(entries), id) <==> HasId(entries, id)
    ensures |Firsts(entries)| + |Repeats(entries)| == |entries|
  {
    if entries != [] {
      var front, last := entries[..|entries| - 1], entries[|entries| - 1];
      FirstsAreDistinct(front);
      var fs := Firsts(entries);
      assert forall i :: 0 <= i < |front| ==> entries[i] == front[i];
      forall id ensures HasId(fs, id) <==> HasId(entries, id) {
        if HasId(front, id) {
          var k :| 0 <= k < |front| && front[k].id == id;
          assert entries[k].id == id;
          var m :| 0 <= m < |Firsts(front)| && Firsts(front)[m].id == id;
          assert fs[m].id == id;
        }
        if id == last.id && !HasId(Firsts(front), id) { assert fs[|fs| - 1].id == id; }
        if id == last.id { assert entries[|entries| - 1].id == id; }
        if HasId(entries, id) && id != last.id {
          var k :| 0 <= k < |entries| && entries[k].id == id;
          assert front[k].id == id;
        }
      }
    }
  }

  /** What is kept under an id is the first entry that carried it. */
  lemma {:induction false} FirstsKeepFirst(entries: seq<Entry>, i: nat)
    requires i < |entries| && forall j :: 0 <= j < i ==> entries[j].id != entries[i].id
    ensures entries[i] in Firsts(entries)
  {
    var front := entries[..|entries| - 1];
    if i < |front| {
      assert front[i] == entries[i];
      FirstsKeepFirst(front, i);
    } else {
      FirstsAreDistinct(front);
    }
  }

  method Deduplicate(entries: seq<Entry>) returns (kept: seq<Entry>, duplicates: seq<string>)
    ensures kept == Firsts(entries) && duplicates == Repeats(entries)
  {
    var seen: set<string> := {};
    kept, duplicates := [], [];
    for k := 0 to |entries|
      invariant kept == Firsts(entries[..k]) && duplicates == Repeats(entries[..k])
      invariant forall id :: id in seen <==> HasId(kept, id)
    {
      assert entries[..k + 1][..k] == entries[..k];
      if entries[k].id in seen {
        duplicates := duplicates + [entries[k].id];
        continue;
      }
      assert forall id :: HasId(kept, id) ==> HasId(kept + [entries[k]], id) by {
        forall id | HasId(kept, id) ensures HasId(kept + [entries[k]], id) {
          var i :| 0 <= i < |kept| && kept[i].id == id;
          assert (kept + [entries[k]])[i].id == id;
        }
      }
      assert (kept + [entries[k]])[|kept|].id == entries[k].id;
      seen := seen + {entries[k].id};
      kept := kept + [entries[k]];
    }
    assert entries[..|entries|] == entries;
  }

  // ------------------------------------------------------------------------
  // The index pairs, in the order the nested loops visit them
  // ------------------------------------------------------------------------

  /** `(i, i+1) .. (i, j-1)`. */
  function RowPairs(i: nat, j: nat): (ps: seq<(nat, nat)>)
    requires i < j
    ensures |ps| == j - i - 1
    decreases j
  {
    if j == i + 1 then [] else RowPairs(i, j - 1) + [(i, j - 1)]
  }

  /** All pairs whose first index is below `i`, out of `n`. */
  function PairsBelow(i: nat, n: nat): seq<(nat, nat)>
    requires i <= n
  {
    if i == 0 then [] else PairsBelow(i - 1, n) + RowPairs(i - 1, n)
  }

  lemma {:induction false} RowPairsHas(i: nat, j: nat, a: nat, b: nat)
    requires i < j
    ensures (a, b) in RowPairs(i, j) <==> a == i && i < b < j
    decreases j
  {
    if j > i + 1 { RowPairsHas(i, j - 1, a, b); }
  }

  lemma {:induction false} PairsBelowHas(i: nat, n: nat, a: nat, b: nat)
    requires i <= n
    ensures (a, b) in PairsBelow(i, n) <==> a < i && a < b < n
  {
    if i > 0 {
      PairsBelowHas(i - 1, n, a, b);
      RowPairsHas(i - 1, n, a, b);
      assert (a, b) in PairsBelow(i, n) <==> (a, b) in PairsBelow(i - 1, n) || (a, b) in RowPairs(i - 1, n);
    }
  }

  lemma {:induction false} PairsBelowCount(i: nat, n: nat)
    requires i <= n
    ensures 2 * |PairsBelow(i, n)| == i * (2 * n - i - 1)
  {
    if i > 0 {
      PairsBelowCount(i - 1, n);
      assert (i - 1) * (2 * n - i) + 2 * (n - i) == i * (2 * n - i - 1);
    }
  }

  function Compared(entries: seq<Entry>, index: seq<(nat, nat)>, minOverlap: int, across: bool, corr: Correlation): (ps: seq<Pair>)
    requires forall k :: 0 <= k < |index| ==> index[k].0 < |entries| && index[k].1 < |entries|
    ensures |ps| == |index|
  {
    seq(|index|, k requires 0 <= k < |index| => Compare(entries[index[k].0], entries[index[k].1], minOverlap, across, corr))
  }

  // ------------------------------------------------------------------------
  // The matrix
  // ------------------------------------------------------------------------

  type Matrix = seq<seq<Option<Coefficient>>>

  /** A cell's number: one on the diagonal, the pair's correlation where it was compared. */
  function CellOf(entries: seq<Entry>, i: nat, j: nat, minOverlap: int, across: bool, corr: Correlation): Option<Coefficient>
    requires i < |entries| && j < |entries|
  {
    if i == j then Some(Value(1.0)) else
      var p := if i < j then Compare(entries[i], entries[j], minOverlap, across, corr)
               else Compare(entries[j], entries[i], minOverlap, across, corr);
      if p.outcome.Compared? then Some(p.outcome.r) else None
  }

  predicate Square(m: Matrix, n: nat) {
    |m| == n && forall i :: 0 <= i < n ==> |m[i]| == n
  }

  /** The cell after the pairs of `done` have been written: unvisited pairs still hold nothing. */
  ghost predicate Written(m: Matrix, entries: seq<Entry>, done: seq<(nat, nat)>, minOverlap: int, across: bool, corr: Correlation) {
    && Square(m, |entries|)
    && forall i, j :: 0 <= i < |entries| && 0 <= j < |entries| ==>
         m[i][j] == if i == j || (i, j) in done || (j, i) in done then CellOf(entries, i, j, minOverlap, across, corr) else None
  }

  function Identity(n: nat): Matrix {
    seq(n, i => seq(n, j => if i == j then Some(Value(1.0)) else None))
  }

  function Put(m: Matrix, i: nat, j: nat, c: Coefficient): (m': Matrix)
    requires Square(m, |m|) && i < |m| && j < |m| && i != j
    ensures Square(m', |m|)
    ensures forall a, b :: 0 <= a < |m| && 0 <= b < |m| ==>
      m'[a][b] == if (a == i && b == j) || (a == j && b == i) then Some(c) else m[a][b]
  {
    m[i := m[i][j := Some(c)]][j := m[j][i := Some(c)]]
  }

  datatype Comparison = Comparison(
    duplicates: seq<string>, kept: seq<Entry>, pairs: seq<Pair>, matrix: Matrix, compared: nat, refused: nat)

  ghost function ComparedPlaces(ps: seq<Pair>): set<nat> {
    set k: nat | k < |ps| && ps[k].outcome.Compared?
  }

  lemma OneMorePlace(ps: seq<Pair>, p: Pair)
    ensures |ComparedPlaces(ps + [p])| == |ComparedPlaces(ps)| + if p.outcome.Compared? then 1 else 0
  {
    assert ComparedPlaces(ps + [p]) == ComparedPlaces(ps) + (if p.outcome.Compared? then {|ps|} else {});
  }

  function CountCompared(ps: seq<Pair>): (n: nat)
    ensures n == |ComparedPlaces(ps)| && n <= |ps|
  {
    if ps == [] then
      assert ComparedPlaces(ps) == {};
      0
    else
      var front, last := ps[..|ps| - 1], ps[|ps| - 1];
      assert ps == front + [last];
      OneMorePlace(front, last);
      CountCompared(front) + (if last.outcome.Compared? then 1 else 0)
  }

  lemma ComparedSnoc(entries: seq<Entry>, index: seq<(nat, nat)>, i: nat, j: nat, minOverlap: int, across: bool, corr: Correlation)
    requires ValidPrefix(entries, index) && i < |entries| && j < |entries|
    ensures Compared(entries, index + [(i, j)], minOverlap, across, corr)
      == Compared(entries, index, minOverlap, across, corr) + [Compare(entries[i], entries[j], minOverlap, across, corr)]
  {
  }

  lemma RowSnoc(i: nat, j: nat, n: nat)
    requires i < j < n
    ensures PairsBelow(i, n) + RowPairs(i, j + 1) == (PairsBelow(i, n) + RowPairs(i, j)) + [(i, j)]
  {
  }

  /** The pairs listed so far are those of the given index pairs, compared. */
  ghost predicate Lists(pairs: seq<Pair>, entries: seq<Entry>, index: seq<(nat, nat)>, minOverlap: int, across: bool, corr: Correlation) {
    ValidPrefix(entries, index) && pairs == Compared(entries, index, minOverlap, across, corr)
  }

  lemma ListsOneMore(pairs: seq<Pair>, entries: seq<Entry>, index: seq<(nat, nat)>, i: nat, j: nat, minOverlap: int, across: bool, corr: Correlation)
    requires Lists(pairs, entries, index, minOverlap, across, corr) && i < |entries| && j < |entries|
    ensures Lists(pairs + [Compare(entries[i], entries[j], minOverlap, across, corr)], entries, index + [(i, j)], minOverlap, across, corr)
  {
    ComparedSnoc(entries, index, i, j, minOverlap, across, corr);
  }

  /** The inner loop: one entry against all later ones. */
  method ListRow(before: seq<Pair>, entries: seq<Entry>, i: nat, minOverlap: int, across: bool, corr: Correlation) returns (pairs: seq<Pair>)
    requires i < |entries| && Lists(before, entries, PairsBelow(i, |entries|), minOverlap, across, corr)
    ensures Lists(pairs, entries, PairsBelow(i + 1, |entries|), minOverlap, across, corr)
  {
    var n := |entries|;
    pairs := before;
    assert PairsBelow(i, n) + RowPairs(i, i + 1) == PairsBelow(i, n);
    for j := i + 1 to n
      invariant Lists(pairs, entries, PairsBelow(i, n) + RowPairs(i, j), minOverlap, across, corr)
    {
      RowSnoc(i, j, n);
      ListsOneMore(pairs, entries, PairsBelow(i, n) + RowPairs(i, j), i, j, minOverlap, across, corr);
      pairs := pairs + [Compare(entries[i], entries[j], minOverlap, across, corr)];
    }
    assert PairsBelow(i + 1, n) == PairsBelow(i, n) + RowPairs(i, n);
  }

  method ListPairs(entries: seq<Entry>, minOverlap: int, across: bool, corr: Correlation) returns (pairs: seq<Pair>)
    ensures ValidIndex(entries)
    ensures pairs == Compared(entries, PairsBelow(|entries|, |entries|), minOverlap, across, corr)
  {
    pairs := [];
    for i := 0 to |entries|
      invariant Lists(pairs, entries, PairsBelow(i, |entries|), minOverlap, across, corr)
    {
      pairs := ListRow(pairs, entries, i, minOverlap, across, corr);
    }
  }

  predicate ValidPrefix(entries: seq<Entry>, index: seq<(nat, nat)>) {
    forall k :: 0 <= k < |index| ==> index[k].0 < |entries| && index[k].1 < |entries|
  }

  predicate ValidIndex(entries: seq<Entry>) {
    ValidPrefix(entries, PairsBelow(|entries|, |entries|))
  }

  /** One more pair visited: nothing changes if it was refused, two cells if it was compared. */
  lemma WrittenSnoc(m: Matrix, entries: seq<Entry>, done: seq<(nat, nat)>, i: nat, j: nat, minOverlap: int, across: bool, corr: Correlation)
    requires Written(m, entries, done, minOverlap, across, corr) && i < j < |entries|
    ensures var p := Compare(entries[i], entries[j], minOverlap, across, corr);
      Written(if p.outcome.Compared? then Put(m, i, j, p.outcome.r) else m, entries, done + [(i, j)], minOverlap, across, corr)
  {
    assert forall a, b :: (a, b) in done + [(i, j)] <==> (a, b) in done || (a == i && b == j);
  }

  /** The place of each id. */
  method IndexById(entries: seq<Entry>) returns (index: map<string, nat>)
    requires DistinctIds(entries)
    ensures forall i :: 0 <= i < |entries| ==> entries[i].id in index && index[entries[i].id] == i
  {
    index := map i: nat | 0 <= i < |entries| :: entries[i].id := i;
  }

  /** The k-th pair is of two places in order, and carries their ids. */
  lemma PairAt(entries: seq<Entry>, k: nat, minOverlap: int, across: bool, corr: Correlation)
    requires ValidIndex(entries) && k < |PairsBelow(|entries|, |entries|)|
    ensures var where := PairsBelow(|entries|, |entries|);
      && where[k].0 < where[k].1 < |entries|
      && Compared(entries, where, minOverlap, across, corr)[k] == Compare(entries[where[k].0], entries[where[k].1], minOverlap, across, corr)
      && where[..k + 1] == where[..k] + [where[k]]
  {
    var where, n := PairsBelow(|entries|, |entries|), |entries|;
    PairsBelowHas(n, n, where[k].0, where[k].1);
    assert where[k] == (where[k].0, where[k].1) && where[k] in where;
  }

  /** The matrix is filled in place from the pair list, each compared pair into two cells. */
  method FillMatrix(entries: seq<Entry>, pairs: seq<Pair>, minOverlap: int, across: bool, corr: Correlation) returns (m: Matrix)
    requires DistinctIds(entries) && ValidIndex(entries)
    requires pairs == Compared(entries, PairsBelow(|entries|, |entries|), minOverlap, across, corr)
    ensures Written(m, entries, PairsBelow(|entries|, |entries|), minOverlap, across, corr)
  {
    var n := |entries|;
    ghost var where := PairsBelow(n, n);
    var index := IndexById(entries);
    m := Identity(n);
    for k := 0 to |pairs|
      invariant Written(m, entries, where[..k], minOverlap, across, corr)
    {
      PairAt(entries, k, minOverlap, across, corr);
      var i, j := index[pairs[k].a], index[pairs[k].b];
      assert (i, j) == where[k];
      WrittenSnoc(m, entries, where[..k], i, j, minOverlap, across, corr);
      if !pairs[k].outcome.Compared? { continue; }
      m := Put(m, i, j, pairs[k].outcome.r);
    }
    assert where[..|where|] == where;
  }

  lemma CellIsSymmetric(entries: seq<Entry>, i: nat, j: nat, minOverlap: int, across: bool, corr: Correlation)
    requires i < |entries| && j < |entries|
    ensures CellOf(entries, i, j, minOverlap, across, corr) == CellOf(entries, j, i, minOverlap, across, corr)
  {
  }

  /** Once every pair is written, the matrix is square and symmetric, and says what the pairs say. */
  lemma WrittenMatrix(m: Matrix, entries: seq<Entry>, minOverlap: int, across: bool, corr: Correlation)
    requires Written(m, entries, PairsBelow(|entries|, |entries|), minOverlap, across, corr)
    ensures Square(m, |entries|)
    ensures forall i, j :: 0 <= i < |entries| && 0 <= j < |entries| ==> m[i][j] == CellOf(entries, i, j, minOverlap, across, corr)
    ensures forall i, j :: 0 <= i < |entries| && 0 <= j < |entries| ==> m[i][j] == m[j][i]
  {
    var n := |entries|;
    forall i, j | 0 <= i < n && 0 <= j < n ensures m[i][j] == CellOf(entries, i, j, minOverlap, across, corr) {
      PairsBelowHas(n, n, i, j);
      PairsBelowHas(n, n, j, i);
    }
    forall i, j | 0 <= i < n && 0 <= j < n ensures m[i][j] == m[j][i] {
      CellIsSymmetric(entries, i, j, minOverlap, across, corr);
    }
  }

  /**
    The comparison of every pair: each distinct trial once, every pair listed once, and a
    symmetric matrix with ones on its diagonal whose other cells hold a number exactly
    where the pair was compared.
  */
  method CompareSeries(entries: seq<Entry>, minOverlap: int, across: bool, corr: Correlation) returns (r: Comparison)
    ensures r.kept == Firsts(entries) && r.duplicates == Repeats(entries) && DistinctIds(r.kept)
    ensures ValidIndex(r.kept)
    ensures r.pairs == Compared(r.kept, PairsBelow(|r.kept|, |r.kept|), minOverlap, across, corr)
    ensures 2 * |r.pairs| == |r.kept| * (|r.kept| - 1)
    ensures r.compared == |ComparedPlaces(r.pairs)| && r.compared + r.refused == |r.pairs|
    ensures Square(r.matrix, |r.kept|)
    ensures forall i, j :: 0 <= i < |r.kept| && 0 <= j < |r.kept| ==> r.matrix[i][j] == r.matrix[j][i]
    ensures forall i, j :: 0 <= i < |r.kept| && 0 <= j < |r.kept| ==>
      r.matrix[i][j] == CellOf(r.kept, i, j, minOverlap, across, corr)
  {
    var kept, duplicates := Deduplicate(entries);
    FirstsAreDistinct(entries);
    var pairs := ListPairs(kept, minOverlap, across, corr);
    var matrix := FillMatrix(kept, pairs, minOverlap, across, corr);
    PairsBelowCount(|kept|, |kept|);
    WrittenMatrix(matrix, kept, minOverlap, across, corr);
    var compared := CountCompared(pairs);
    r := Comparison(duplicates, kept, pairs, matrix, compared, |pairs| - compared);
  }
}
