/** The feature panel the refinement reads from and writes to, and the ranked export. */
module AlphaPanel {
  import opened Options
  import opened Seqs
  import opened AlphaPipeline

  type Symbol = string

  /** One value per symbol; `None` is NaN. */
  type Column = seq<Option<real>>

  // ------------------------------------------------------------------------
  // Dropping and restoring the missing names
  // ------------------------------------------------------------------------

  /** How many of the first `i` cells hold a value. */
  function Rank(col: Column, i: nat): nat
    requires i <= |col|
  {
    if i == 0 then 0 else Rank(col, i - 1) + (if col[i - 1].Some? then 1 else 0)
  }

  lemma {:induction false} RankGrows(col: Column, i: nat, j: nat)
    requires i <= j <= |col|
    ensures Rank(col, i) <= Rank(col, j)
    decreases j
  {
    if i < j { RankGrows(col, i, j - 1); }
  }

  lemma RankOfValue(col: Column, i: nat)
    requires i < |col| && col[i].Some?
    ensures Rank(col, i) < Rank(col, |col|)
  {
    RankGrows(col, i + 1, |col|);
  }

  /** `dropna()`: the values, in order. */
  function Present(col: Column, n: nat): (xs: seq<real>)
    requires n <= |col|
    ensures |xs| == Rank(col, n)
  {
    if n == 0 then []
    else Present(col, n - 1) + (if col[n - 1].Some? then [col[n - 1].value] else [])
  }

  lemma {:induction false} PresentAt(col: Column, n: nat, i: nat)
    requires i < n <= |col| && col[i].Some?
    ensures Rank(col, i) < Rank(col, n) && Present(col, n)[Rank(col, i)] == col[i].value
  {
    RankGrows(col, i + 1, n);
    if i < n - 1 { PresentAt(col, n - 1, i); }
  }

  /** A series over the scored names, reindexed to the panel: NaN where there was no score. */
  function Spread(col: Column, values: seq<real>): (out: Column)
    requires |values| == Rank(col, |col|)
    ensures |out| == |col|
  {
    seq(|col|, i requires 0 <= i < |col| =>
      if col[i].None? then None
      else
        RankOfValue(col, i);
        Some(values[Rank(col, i)]))
  }

  /** Vols of the scored names, with the default where there is none. */
  function VolsFor(col: Column, vol: Option<Column>, default: real, n: nat): (vs: seq<real>)
    requires n <= |col| && (vol.Some? ==> |vol.value| == |col|)
    ensures |vs| == Rank(col, n)
  {
    if n == 0 then []
    else VolsFor(col, vol, default, n - 1)
         + (if col[n - 1].None? then [] else [if vol.Some? && vol.value[n - 1].Some? then vol.value[n - 1].value else default])
  }

  lemma {:induction false} VolsAreNonNegative(col: Column, vol: Option<Column>, default: real, n: nat)
    requires n <= |col| && (vol.Some? ==> |vol.value| == |col|)
    requires default >= 0.0
    requires vol.Some? ==> forall i :: 0 <= i < |col| && vol.value[i].Some? ==> vol.value[i].value >= 0.0
    ensures forall k :: 0 <= k < Rank(col, n) ==> VolsFor(col, vol, default, n)[k] >= 0.0
  {
    if n > 0 { VolsAreNonNegative(col, vol, default, n - 1); }
  }

  function Scores(col: Column): seq<real> { Present(col, |col|) }

  function Vols(col: Column, vol: Option<Column>, default: real): seq<real>
    requires vol.Some? ==> |vol.value| == |col|
  {
    VolsFor(col, vol, default, |col|)
  }

  ghost predicate Prepared(col: Column, vol: Option<Column>, ctx: Context, roots: Roots, residual: Option<seq<real>>) {
    && ProperLimits(ctx) && (vol.Some? ==> |vol.value| == |col|)
    && (Scores(col) != [] ==>
        && (residual.Some? ==> |residual.value| == |Scores(col)|)
        && RootsOk(Scores(col), Vols(col, vol, ctx.defaultVol), ctx, roots, residual))
  }

  // ------------------------------------------------------------------------
  // One scored name
  // ------------------------------------------------------------------------

  /** The scored names before place `i`. */
  ghost function ScoredBefore(col: Column, i: nat): set<nat>
    requires i <= |col|
  {
    set j: nat | j < i && col[j].Some?
  }

  lemma {:induction false} RankCounts(col: Column, i: nat)
    requires i <= |col|
    ensures Rank(col, i) == |ScoredBefore(col, i)|
  {
    if i == 0 {
      assert ScoredBefore(col, 0) == {};
    } else {
      RankCounts(col, i - 1);
      assert ScoredBefore(col, i) == ScoredBefore(col, i - 1) + (if col[i - 1].Some? then {i - 1} else {});
    }
  }

  lemma {:induction false} VolsForAt(col: Column, vol: Option<Column>, default: real, n: nat, i: nat)
    requires i < n <= |col| && (vol.Some? ==> |vol.value| == |col|) && col[i].Some?
    ensures Rank(col, i) < Rank(col, n)
    ensures VolsFor(col, vol, default, n)[Rank(col, i)] == if vol.Some? && vol.value[i].Some? then vol.value[i].value else default
  {
    RankGrows(col, i + 1, n);
    if i < n - 1 { VolsForAt(col, vol, default, n - 1, i); }
  }

  /**
    The refined cross-section has one entry for each scored name, in panel order: its own
    score and its own vol, the default where it has none; and what comes out for it goes
    back to its own place.
  */
  lemma ScoredName(col: Column, vol: Option<Column>, default: real, values: seq<real>, i: nat)
    requires i < |col| && |values| == |ScoredBefore(col, |col|)| && (vol.Some? ==> |vol.value| == |col|)
    ensures |Scores(col)| == |Vols(col, vol, default)| == |values| == Rank(col, |col|)
    ensures col[i].None? ==> Spread(col, values)[i] == None
    ensures col[i].Some? ==>
      var k := |ScoredBefore(col, i)|;
      && k < |values| && Scores(col)[k] == col[i].value && Spread(col, values)[i] == Some(values[k])
      && Vols(col, vol, default)[k] == if vol.Some? && vol.value[i].Some? then vol.value[i].value else default
  {
    RankCounts(col, i);
    RankCounts(col, |col|);
    if col[i].Some? {
      PresentAt(col, |col|, i);
      VolsForAt(col, vol, default, |col|, i);
    }
  }

  datatype Alpha = Alpha(symbol: Symbol, alpha: real, residualVol: real, ic: real, rawZ: real)

  class FeaturePanel {
    const symbols: seq<Symbol>
    var columns: map<string, Column>
    var lowConfidence: Option<bool>
    var shrinkChain: Option<seq<Step>>

    ghost predicate Valid()
      reads this
    {
      forall name :: name in columns ==> |columns[name]| == |symbols|
    }

    constructor (universe: seq<Symbol>)
      ensures Valid() && columns == map[] && symbols == FromKeys(universe)
    {
      symbols := FromKeys(universe);
      columns, lowConfidence, shrinkChain := map[], None, None;
    }

    function Vol(): Option<Column>
      reads this
    {
      if "residual_vol" in columns then Some(columns["residual_vol"]) else None
    }

    /** `refine_alpha`: writes `z` and `alpha` beside the score, and the flags that go with them. */
    method RefineAlpha(ctx: Context, scoreCol: string, roots: Roots, residual: Option<seq<real>>)
      requires Valid()
      requires scoreCol in columns ==> Prepared(columns[scoreCol], Vol(), ctx, roots, residual)
      modifies this
      ensures Valid()
      ensures scoreCol !in old(columns) || Scores(old(columns)[scoreCol]) == [] ==>
        columns == old(columns) && lowConfidence == Some(false) && shrinkChain == old(shrinkChain)
      ensures scoreCol in old(columns) && Scores(old(columns)[scoreCol]) != [] ==>
        var col := old(columns)[scoreCol];
        var r := Refine(Scores(col), Vols(col, old(Vol()), ctx.defaultVol), ctx, roots, residual);
        && columns == old(columns)["z" := Spread(col, r.z)]["alpha" := Spread(col, r.alpha)]
        && lowConfidence == Some(r.thin) && shrinkChain == Some(r.chain)
      ensures scoreCol in old(columns) && Scores(old(columns)[scoreCol]) != [] ==>
        var col := old(columns)[scoreCol];
        var r := Refine(Scores(col), Vols(col, old(Vol()), ctx.defaultVol), ctx, roots, residual);
        forall i :: 0 <= i < |symbols| ==>
          var k := |ScoredBefore(col, i)|;
          && (columns["alpha"][i].Some? <==> col[i].Some?) && (columns["z"][i].Some? <==> col[i].Some?)
          && (col[i].Some? ==> k < |r.alpha| && columns["alpha"][i].value == r.alpha[k] && columns["z"][i].value == r.z[k])
    {
      if scoreCol !in columns {
        lowConfidence := Some(false);
        return;
      }
      var col := columns[scoreCol];
      var s := Scores(col);
      if s == [] {
        lowConfidence := Some(false);
        return;
      }
      var r := Refine(s, Vols(col, Vol(), ctx.defaultVol), ctx, roots, residual);
      lowConfidence := Some(r.thin);
      shrinkChain := Some(r.chain);
      columns := columns["z" := Spread(col, r.z)];
      columns := columns["alpha" := Spread(col, r.alpha)];
      RankCounts(col, |col|);
      forall i | 0 <= i < |symbols|
        ensures col[i].None? ==> Spread(col, r.alpha)[i].None? && Spread(col, r.z)[i].None?
        ensures col[i].Some? ==> |ScoredBefore(col, i)| < |r.alpha| == |r.z|
        ensures col[i].Some? ==> Spread(col, r.alpha)[i] == Some(r.alpha[|ScoredBefore(col, i)|])
        ensures col[i].Some? ==> Spread(col, r.z)[i] == Some(r.z[|ScoredBefore(col, i)|])
      {
        ScoredName(col, None, ctx.defaultVol, r.alpha, i);
        ScoredName(col, None, ctx.defaultVol, r.z, i);
      }
    }

    /** `panel_to_alphas`: the names with a forecast, highest first, ties in panel order. */
    method ToAlphas(ctx: Context) returns (ranked: seq<Alpha>)
      requires Valid()
      ensures "alpha" !in columns ==> ranked == []
      ensures "alpha" in columns ==> ranked == Sorted(Rows(ctx, |symbols|), HighestFirst())
      ensures forall i, j :: 0 <= i < j < |ranked| ==> ranked[i].alpha >= ranked[j].alpha
      ensures "alpha" in columns ==> forall a :: a in ranked <==> exists i :: 0 <= i < |symbols| && Exports(a, i, ctx)
    {
      if "alpha" !in columns { return []; }
      var rows := [];
      for i := 0 to |symbols|
        invariant rows == Rows(ctx, i)
      {
        if columns["alpha"][i].Some? {
          rows := rows + [Row(ctx, i)];
        }
      }
      ranked := Sorted(rows, HighestFirst());
      SortedSorts(rows, HighestFirst());
      assert forall i, j :: 0 <= i < j < |ranked| ==> HighestFirst()(ranked[i], ranked[j]);
      RowsExport(ctx, |symbols|);
      SortedMembers(rows, HighestFirst());
    }

    /** `a` is the record of the name in place `i`: its forecast, and its vol and score or what stands in for them. */
    ghost predicate Exports(a: Alpha, i: int, ctx: Context)
      requires Valid() && "alpha" in columns && 0 <= i < |symbols|
      reads this
    {
      && a.symbol == symbols[i] && Some(a.alpha) == columns["alpha"][i] && a.ic == ctx.ic
      && (if "residual_vol" in columns && columns["residual_vol"][i].Some?
          then Some(a.residualVol) == columns["residual_vol"][i] else a.residualVol == ctx.defaultVol)
      && (if "z" in columns && columns["z"][i].Some? then Some(a.rawZ) == columns["z"][i] else a.rawZ == 0.0)
    }

    lemma {:induction false} RowsExport(ctx: Context, n: nat)
      requires Valid() && "alpha" in columns && n <= |symbols|
      ensures forall a :: a in Rows(ctx, n) <==> exists i :: 0 <= i < n && Exports(a, i, ctx)
    {
      if n > 0 {
        var m := n - 1;
        RowsExport(ctx, m);
        forall a | Exports(a, m, ctx) ensures a == Row(ctx, m) {}
        if columns["alpha"][m].Some? { assert Exports(Row(ctx, m), m, ctx); }
      }
    }

    function Row(ctx: Context, i: nat): Alpha
      requires Valid() && "alpha" in columns && i < |symbols| && columns["alpha"][i].Some?
      reads this
    {
      var vol := if Vol().Some? && Vol().value[i].Some? then Vol().value[i].value else ctx.defaultVol;
      var z := if "z" in columns && columns["z"][i].Some? then columns["z"][i].value else 0.0;
      Alpha(symbols[i], columns["alpha"][i].value, vol, ctx.ic, z)
    }

    function Rows(ctx: Context, n: nat): seq<Alpha>
      requires Valid() && "alpha" in columns && n <= |symbols|
      reads this
    {
      if n == 0 then []
      else Rows(ctx, n - 1) + (if columns["alpha"][n - 1].Some? then [Row(ctx, n - 1)] else [])
    }
  }

  function HighestFirst(): (Alpha, Alpha) -> bool {
    (a: Alpha, b: Alpha) => a.alpha >= b.alpha
  }

  /**
    On the panel: after a full Case 2 refinement, of two scored names the one scored no
    higher has no higher forecast, and names without a score have none.
  */
  lemma PanelOrderIsKept(col: Column, vol: Option<Column>, ctx: Context, roots: Roots, i: nat, j: nat)
    requires Prepared(col, vol, ctx, roots, None) && Scores(col) != []
    requires UsesCase2(Scores(col), ctx) && ctx.ic >= 0.0 && ctx.defaultVol >= 0.0
    requires vol.Some? ==> forall k :: 0 <= k < |col| && vol.value[k].Some? ==> vol.value[k].value >= 0.0
    requires i < |col| && j < |col|
    ensures var alpha := Spread(col, Refine(Scores(col), Vols(col, vol, ctx.defaultVol), ctx, roots, None).alpha);
      && (alpha[i].Some? <==> col[i].Some?)
      && (col[i].Some? && col[j].Some? && col[i].value <= col[j].value ==> alpha[i].value <= alpha[j].value)
  {
    if col[i].Some? && col[j].Some? && col[i].value <= col[j].value {
      PresentAt(col, |col|, i);
      PresentAt(col, |col|, j);
      VolsAreNonNegative(col, vol, ctx.defaultVol, |col|);
      RefinementKeepsOrder(Scores(col), Vols(col, vol, ctx.defaultVol), ctx, roots, Rank(col, i), Rank(col, j));
    }
  }
}
