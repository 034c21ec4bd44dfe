/**
  The parametric cost model: commission, half-spread, and market impact by the
  square-root law. A square root comes in as a witness: a non-negative number whose
  square is the participation.
*/
module CostModel {
  import opened Options
  import opened Sums

  datatype Model = Model(commission: real, defaultSpread: real, eta: real, cap: real, linear: bool)

  /** The liquidity context of a trade, apart from its size. */
  datatype Context = Context(price: real, adv: real, dailyVol: real, spread: Option<real>)

  /** `None` participation is the infinity reported without volume information. */
  datatype Cost = Cost(commission: real, spread: real, impact: real, participation: Option<real>, capped: bool)

  function Abs(x: real): real { if x < 0.0 then -x else x }

  predicate IsRoot(root: real, x: real) {
    root >= 0.0 && root * root == x
  }

  function Notional(shares: real, c: Context): real { Abs(shares) * c.price }

  function Participation(shares: real, c: Context): Option<real> {
    if c.adv > 0.0 then Some(Abs(shares) / c.adv) else None
  }

  function Spread(m: Model, spread: Option<real>): real {
    if spread.Some? then spread.value else m.defaultSpread
  }

  /** A root is needed only where the source takes one. */
  predicate RootFor(root: real, shares: real, c: Context) {
    c.adv > 0.0 ==> IsRoot(root, Abs(shares) / c.adv)
  }

  function ImpactRate(m: Model, part: Option<real>, dailyVol: real, root: real): real {
    if part.None? then 0.0
    else if m.linear then m.eta * dailyVol * part.value
    else m.eta * dailyVol * root
  }

  /** `cost` on the trade's own notional and participation. */
  function Price(m: Model, notional: real, part: Option<real>, dailyVol: real, spread: Option<real>, root: real): Cost {
    if notional <= 0.0 then Cost(0.0, 0.0, 0.0, Some(0.0), false)
    else Cost(m.commission * notional, Spread(m, spread) / 2.0 * notional, ImpactRate(m, part, dailyVol, root) * notional,
              part, part.None? || part.value > m.cap)
  }

  function CostOf(m: Model, shares: real, c: Context, root: real): Cost {
    Price(m, Notional(shares, c), Participation(shares, c), c.dailyVol, c.spread, root)
  }

  function Total(k: Cost): real { k.commission + k.spread + k.impact }

  function TurnoverCostRate(m: Model, spread: Option<real>): real {
    m.commission + Spread(m, spread) / 2.0
  }

  /** The size-independent part of a cost is the optimizer's linear rate times notional. */
  lemma LinearPartIsTurnoverRate(m: Model, notional: real, part: Option<real>, dailyVol: real, spread: Option<real>, root: real)
    requires notional >= 0.0
    ensures var k := Price(m, notional, part, dailyVol, spread, root); k.commission + k.spread == TurnoverCostRate(m, spread) * notional
  {
    var h := Spread(m, spread) / 2.0;
    assert (m.commission + h) * notional == m.commission * notional + h * notional;
  }

  lemma HalfOfTwice(h: real, n: real)
    ensures 2.0 * (h / 2.0 * n) == h * n
  {
  }

  lemma UndoQuotient(x: real, d: real)
    requires d > 0.0
    ensures (x / d) * d == x
  {
  }

  /** A trade of this many dollars: half the quoted spread is paid, the default only where none was quoted. */
  lemma SpreadIsHalfTheQuote(m: Model, notional: real, part: Option<real>, dailyVol: real, spread: Option<real>, root: real)
    requires notional > 0.0
    ensures var k := Price(m, notional, part, dailyVol, spread, root);
      && 2.0 * k.spread == (match spread case Some(quoted) => quoted case None => m.defaultSpread) * notional
      && k.commission == m.commission * notional
  {
    HalfOfTwice(Spread(m, spread), notional);
  }

  /**
    What a trade is charged, in its own terms: nothing without a positive value; without
    volume information no impact but the flag; otherwise impact in proportion to its share
    of the day's volume under the linear model and to the root of that share without it,
    flagged when the share is above the cap.
  */
  lemma ImpactIsCharged(m: Model, shares: real, c: Context, root: real, size: real)
    requires size == (if shares >= 0.0 then shares else -shares) && RootFor(root, shares, c)
    ensures var k := CostOf(m, shares, c, root);
      && (size * c.price <= 0.0 ==> k == Cost(0.0, 0.0, 0.0, Some(0.0), false))
      && (size * c.price > 0.0 && c.adv <= 0.0 ==> k.impact == 0.0 && k.participation == None && k.capped)
      && (size * c.price > 0.0 && c.adv > 0.0 ==>
            && k.participation.Some? && k.participation.value * c.adv == size
            && (k.capped <==> k.participation.value > m.cap)
            && k.impact == (m.eta * c.dailyVol * (if m.linear then k.participation.value else root)) * (size * c.price)
            && root >= 0.0 && root * root == k.participation.value)
  {
    assert Abs(shares) == size;
    if c.adv > 0.0 { UndoQuotient(size, c.adv); }
  }

  // ------------------------------------------------------------------------
  // One trade against its pieces
  // ------------------------------------------------------------------------

  lemma RatioOrder(x: real, y: real, d: real)
    requires d > 0.0
    ensures x <= y ==> x / d <= y / d
    ensures x < y ==> x / d < y / d
  {
    var p, q := x / d, y / d;
    assert p * d == x && q * d == y;
    assert p > q ==> p * d > q * d;
    assert p >= q ==> p * d >= q * d;
  }

  lemma SquareOrder(r: real, s: real)
    requires 0.0 <= s < r
    ensures s * s < r * r
  {
    var a, b, c := s * s, s * r, r * r;
    assert b - a == s * (r - s);
    assert c - b == r * (r - s);
    assert s * (r - s) >= 0.0 && r * (r - s) > 0.0;
  }

  lemma RootOrder(r: real, s: real, x: real, y: real)
    requires IsRoot(r, x) && IsRoot(s, y)
    ensures x <= y ==> r <= s
    ensures x < y ==> r < s
  {
    if s < r { SquareOrder(r, s); }
  }

  /** Both trades see the same volume, or neither sees any. */
  predicate NoLarger(small: Option<real>, large: Option<real>) {
    (small.None? <==> large.None?) && (small.Some? ==> 0.0 <= small.value <= large.value)
  }

  predicate Rooted(root: real, part: Option<real>) {
    part.Some? ==> IsRoot(root, part.value)
  }

  /** A smaller participation never pays a higher impact rate, and a strictly smaller one a lower. */
  lemma SmallerRate(m: Model, dailyVol: real, small: Option<real>, large: Option<real>, r: real, s: real)
    requires m.eta * dailyVol >= 0.0 && NoLarger(small, large) && Rooted(r, small) && Rooted(s, large)
    ensures ImpactRate(m, small, dailyVol, r) <= ImpactRate(m, large, dailyVol, s)
    ensures small.Some? && small.value < large.value && m.eta * dailyVol > 0.0 ==>
      ImpactRate(m, small, dailyVol, r) < ImpactRate(m, large, dailyVol, s)
  {
    if small.Some? {
      var k := m.eta * dailyVol;
      RootOrder(r, s, small.value, large.value);
      if m.linear { ProductOrder(k, small.value, large.value); } else { ProductOrder(k, r, s); }
      if small.value < large.value && k > 0.0 {
        if m.linear { ProductOrderStrict(k, small.value, large.value); } else { ProductOrderStrict(k, r, s); }
      }
    }
  }

  /** What a size costs at given commission, half-spread and impact rates. */
  function AtRates(commission: real, half: real, rate: real, notional: real): real {
    commission * notional + half * notional + rate * notional
  }

  lemma NothingAtRates(commission: real, half: real, rate: real)
    ensures AtRates(commission, half, rate, 0.0) == 0.0
  {
  }

  lemma TotalIsAtRates(m: Model, notional: real, part: Option<real>, dailyVol: real, spread: Option<real>, root: real)
    requires notional >= 0.0
    ensures Total(Price(m, notional, part, dailyVol, spread, root))
      == AtRates(m.commission, Spread(m, spread) / 2.0, ImpactRate(m, part, dailyVol, root), notional)
  {
    if notional <= 0.0 {
      assert notional == 0.0;
      NothingAtRates(m.commission, Spread(m, spread) / 2.0, ImpactRate(m, part, dailyVol, root));
    }
  }

  lemma ScaledOrder(n: real, x: real, y: real)
    requires n >= 0.0 && x <= y
    ensures x * n <= y * n
    ensures n > 0.0 && x < y ==> x * n < y * n
  {
  }

  lemma RatesOrder(commission: real, half: real, low: real, high: real, n: real)
    requires n >= 0.0 && low <= high
    ensures AtRates(commission, half, low, n) <= AtRates(commission, half, high, n)
    ensures n > 0.0 && low < high ==> AtRates(commission, half, low, n) < AtRates(commission, half, high, n)
  {
    var base, x, y := commission * n + half * n, low * n, high * n;
    ScaledOrder(n, low, high);
    assert AtRates(commission, half, low, n) == base + x && AtRates(commission, half, high, n) == base + y;
    assert n > 0.0 && low < high ==> x < y;
  }

  /** What a piece of the whole would cost at the whole trade's rates. */
  function AtWholeRate(m: Model, c: Context, piece: real, whole: real, root: real): real {
    AtRates(m.commission, Spread(m, c.spread) / 2.0, ImpactRate(m, Participation(whole, c), c.dailyVol, root), Notional(piece, c))
  }

  lemma SizesCompare(c: Context, piece: real, whole: real)
    requires c.price > 0.0 && 0.0 <= piece <= whole
    ensures Notional(piece, c) >= 0.0 && (piece > 0.0 ==> Notional(piece, c) > 0.0)
    ensures NoLarger(Participation(piece, c), Participation(whole, c))
    ensures c.adv > 0.0 && piece < whole ==> Participation(piece, c).value < Participation(whole, c).value
  {
    ProductSign(piece, c.price);
    if piece > 0.0 { ProductOrderStrict(piece, 0.0, c.price); }
    if c.adv > 0.0 {
      RatioOrder(piece, whole, c.adv);
      RatioOrder(0.0, piece, c.adv);
    }
  }

  /** Impact is charged at a positive rate. */
  predicate ChargesImpact(m: Model, c: Context) {
    c.price > 0.0 && c.adv > 0.0 && m.eta * c.dailyVol > 0.0
  }

  /** A notional priced at a smaller participation, against the same notional at a larger one's rates. */
  lemma PriceIsNoDearer(m: Model, n: real, p: Option<real>, q: Option<real>, dailyVol: real, spread: Option<real>, r: real, s: real)
    requires m.eta * dailyVol >= 0.0 && n >= 0.0 && NoLarger(p, q) && Rooted(r, p) && Rooted(s, q)
    ensures var whole := AtRates(m.commission, Spread(m, spread) / 2.0, ImpactRate(m, q, dailyVol, s), n);
      && Total(Price(m, n, p, dailyVol, spread, r)) <= whole
      && (n > 0.0 && m.eta * dailyVol > 0.0 && p.Some? && p.value < q.value ==> Total(Price(m, n, p, dailyVol, spread, r)) < whole)
  {
    SmallerRate(m, dailyVol, p, q, r, s);
    TotalIsAtRates(m, n, p, dailyVol, spread, r);
    RatesOrder(m.commission, Spread(m, spread) / 2.0, ImpactRate(m, p, dailyVol, r), ImpactRate(m, q, dailyVol, s), n);
  }

  /** Sizes, participations and roots of a piece and of the whole it belongs to. */
  predicate Nested(c: Context, piece: real, r: real, whole: real, s: real) {
    && Notional(piece, c) >= 0.0 && NoLarger(Participation(piece, c), Participation(whole, c))
    && Rooted(r, Participation(piece, c)) && Rooted(s, Participation(whole, c))
  }

  lemma PieceIsNested(c: Context, piece: real, r: real, whole: real, s: real)
    requires c.price > 0.0 && 0.0 <= piece <= whole && RootFor(r, piece, c) && RootFor(s, whole, c)
    ensures Nested(c, piece, r, whole, s)
  {
    SizesCompare(c, piece, whole);
  }

  /** A trade of known notional and participation costs what those cost. */
  lemma CostAt(m: Model, c: Context, shares: real, root: real, n: real, p: Option<real>)
    requires n == Notional(shares, c) && p == Participation(shares, c)
    ensures CostOf(m, shares, c, root) == Price(m, n, p, c.dailyVol, c.spread, root)
  {
  }

  lemma ShareAt(m: Model, c: Context, piece: real, whole: real, root: real, n: real, q: Option<real>)
    requires n == Notional(piece, c) && q == Participation(whole, c)
    ensures AtWholeRate(m, c, piece, whole, root) == AtRates(m.commission, Spread(m, c.spread) / 2.0, ImpactRate(m, q, c.dailyVol, root), n)
  {
  }

  lemma NestedIsNoDearer(m: Model, c: Context, piece: real, r: real, whole: real, s: real)
    requires m.eta * c.dailyVol >= 0.0 && Nested(c, piece, r, whole, s)
    ensures Total(CostOf(m, piece, c, r)) <= AtWholeRate(m, c, piece, whole, s)
    ensures ChargesImpact(m, c) && Notional(piece, c) > 0.0 && Participation(piece, c).value < Participation(whole, c).value ==>
      Total(CostOf(m, piece, c, r)) < AtWholeRate(m, c, piece, whole, s)
  {
    var n, p, q := Notional(piece, c), Participation(piece, c), Participation(whole, c);
    var cost, share := Total(CostOf(m, piece, c, r)), AtWholeRate(m, c, piece, whole, s);
    assert cost == Total(Price(m, n, p, c.dailyVol, c.spread, r)) by { CostAt(m, c, piece, r, n, p); }
    assert share == AtRates(m.commission, Spread(m, c.spread) / 2.0, ImpactRate(m, q, c.dailyVol, s), n) by { ShareAt(m, c, piece, whole, s, n, q); }
    PriceIsNoDearer(m, n, p, q, c.dailyVol, c.spread, r, s);
  }

  lemma PieceIsNoDearer(m: Model, c: Context, piece: real, r: real, whole: real, s: real)
    requires m.eta * c.dailyVol >= 0.0 && c.price > 0.0
    requires 0.0 <= piece <= whole && RootFor(r, piece, c) && RootFor(s, whole, c)
    ensures Total(CostOf(m, piece, c, r)) <= AtWholeRate(m, c, piece, whole, s)
    ensures 0.0 < piece < whole && ChargesImpact(m, c) ==> Total(CostOf(m, piece, c, r)) < AtWholeRate(m, c, piece, whole, s)
  {
    SizesCompare(c, piece, whole);
    PieceIsNested(c, piece, r, whole, s);
    NestedIsNoDearer(m, c, piece, r, whole, s);
  }

  /** What a trade of a signed size costs, given its root. */
  type Pricing = (real, real) -> real

  function Coster(m: Model, c: Context): Pricing {
    (shares: real, root: real) => Total(CostOf(m, shares, c, root))
  }

  function Each(f: Pricing, pieces: seq<real>, roots: seq<real>): (ks: seq<real>)
    requires |pieces| == |roots|
    ensures |ks| == |pieces|
  {
    seq(|pieces|, i requires 0 <= i < |pieces| => f(pieces[i], roots[i]))
  }

  function WholeShares(m: Model, c: Context, pieces: seq<real>, whole: real, root: real): (ks: seq<real>)
    ensures |ks| == |pieces|
  {
    seq(|pieces|, i requires 0 <= i < |pieces| => AtWholeRate(m, c, pieces[i], whole, root))
  }

  lemma RatesAdd(commission: real, half: real, rate: real, x: real, y: real)
    ensures AtRates(commission, half, rate, x + y) == AtRates(commission, half, rate, x) + AtRates(commission, half, rate, y)
  {
    Distribute(commission, x, y);
    Distribute(half, x, y);
    Distribute(rate, x, y);
  }

  /** At fixed rates, what notionals cost adds up to what their sum costs. */
  lemma {:induction false} RatesAddUp(a: real, b: real, k: real, notionals: seq<real>, costs: seq<real>, n: nat)
    requires n <= |notionals| == |costs|
    requires forall i :: 0 <= i < |costs| ==> costs[i] == AtRates(a, b, k, notionals[i])
    ensures SumTo(costs, n) == AtRates(a, b, k, SumTo(notionals, n))
  {
    if n == 0 {
      NothingAtRates(a, b, k);
    } else {
      RatesAddUp(a, b, k, notionals, costs, n - 1);
      RatesAdd(a, b, k, SumTo(notionals, n - 1), notionals[n - 1]);
    }
  }

  function Notionals(pieces: seq<real>, c: Context): (ns: seq<real>)
    ensures |ns| == |pieces|
  {
    seq(|pieces|, i requires 0 <= i < |pieces| => Notional(pieces[i], c))
  }

  lemma NotionalsAddUp(pieces: seq<real>, c: Context)
    requires forall i :: 0 <= i < |pieces| ==> pieces[i] >= 0.0
    ensures Sum(Notionals(pieces, c)) == Notional(Sum(pieces), c)
  {
    SumNonNegative(pieces, |pieces|);
    SumScalesTo(pieces, Notionals(pieces, c), c.price, |pieces|);
  }

  /** Each difference is non-negative, so the totals compare; one positive makes it strict. */
  lemma SumOrder(xs: seq<real>, ys: seq<real>)
    requires |xs| == |ys| && forall i :: 0 <= i < |xs| ==> xs[i] <= ys[i]
    ensures Sum(xs) <= Sum(ys)
    ensures (exists i :: 0 <= i < |xs| && xs[i] < ys[i]) ==> Sum(xs) < Sum(ys)
  {
    var gaps := seq(|xs|, i requires 0 <= i < |xs| => ys[i] - xs[i]);
    SumNonNegative(gaps, |gaps|);
    SumAdds(xs, gaps, ys, 1.0);
    if i :| 0 <= i < |xs| && xs[i] < ys[i] { assert gaps[i] > 0.0; }
  }

  predicate Bought(pieces: seq<real>, roots: seq<real>, c: Context) {
    |pieces| == |roots| && forall i :: 0 <= i < |pieces| ==> pieces[i] >= 0.0 && RootFor(roots[i], pieces[i], c)
  }

  /** Pieces that cost no more than shares adding up to the whole cost no more than the whole. */
  lemma NoDearerInPieces(f: Pricing, shares: seq<real>, pieces: seq<real>, roots: seq<real>, whole: real, root: real)
    requires |shares| == |pieces| == |roots| && Sum(shares) == f(whole, root)
    requires forall i :: 0 <= i < |pieces| ==> f(pieces[i], roots[i]) <= shares[i]
    ensures Sum(Each(f, pieces, roots)) <= f(whole, root)
    ensures (exists i :: 0 <= i < |pieces| && f(pieces[i], roots[i]) < shares[i]) ==> Sum(Each(f, pieces, roots)) < f(whole, root)
  {
    var costs := Each(f, pieces, roots);
    SumOrder(costs, shares);
    if i :| 0 <= i < |pieces| && f(pieces[i], roots[i]) < shares[i] { assert costs[i] < shares[i]; }
  }

  lemma PieceOfWhole(m: Model, c: Context, piece: real, r: real, whole: real, s: real)
    requires m.eta * c.dailyVol >= 0.0 && c.price > 0.0
    requires 0.0 <= piece <= whole && RootFor(r, piece, c) && RootFor(s, whole, c)
    ensures Coster(m, c)(piece, r) <= AtWholeRate(m, c, piece, whole, s)
    ensures 0.0 < piece < whole && ChargesImpact(m, c) ==> Coster(m, c)(piece, r) < AtWholeRate(m, c, piece, whole, s)
  {
    PieceIsNoDearer(m, c, piece, r, whole, s);
  }

  lemma SharesAddUp(m: Model, c: Context, pieces: seq<real>, root: real)
    requires c.price > 0.0 && forall i :: 0 <= i < |pieces| ==> pieces[i] >= 0.0
    ensures Sum(WholeShares(m, c, pieces, Sum(pieces), root)) == Coster(m, c)(Sum(pieces), root)
  {
    var whole := Sum(pieces);
    assert Sum(WholeShares(m, c, pieces, whole, root)) == AtWholeRate(m, c, whole, whole, root) by {
      NotionalsAddUp(pieces, c);
      RatesAddUp(m.commission, Spread(m, c.spread) / 2.0, ImpactRate(m, Participation(whole, c), c.dailyVol, root),
                 Notionals(pieces, c), WholeShares(m, c, pieces, whole, root), |pieces|);
    }
    assert AtWholeRate(m, c, whole, whole, root) == Total(CostOf(m, whole, c, root)) by {
      assert Notional(whole, c) >= 0.0 by {
        SumNonNegative(pieces, |pieces|);
        SizesCompare(c, whole, whole);
      }
      TotalIsAtRates(m, Notional(whole, c), Participation(whole, c), c.dailyVol, c.spread, root);
    }
  }

  /** Without a positive price a trade costs nothing. */
  lemma FreeOfCharge(m: Model, c: Context, shares: real, root: real)
    requires c.price <= 0.0 && shares >= 0.0
    ensures Coster(m, c)(shares, root) == 0.0
  {
    assert Notional(shares, c) <= 0.0 by { ProductOrder(shares, c.price, 0.0); }
  }

  lemma {:induction false} SumOfNothing(xs: seq<real>, n: nat)
    requires n <= |xs| && forall i :: 0 <= i < |xs| ==> xs[i] == 0.0
    ensures SumTo(xs, n) == 0.0
  {
    if n > 0 { SumOfNothing(xs, n - 1); }
  }

  lemma NothingInPieces(f: Pricing, pieces: seq<real>, roots: seq<real>)
    requires |pieces| == |roots| && forall i :: 0 <= i < |pieces| ==> f(pieces[i], roots[i]) == 0.0
    ensures Sum(Each(f, pieces, roots)) == 0.0
  {
    SumOfNothing(Each(f, pieces, roots), |pieces|);
  }

  /** Only the size of a trade is priced. */
  lemma SameSizeSameCost(m: Model, c: Context, x: real, y: real, root: real)
    requires y == -x
    ensures RootFor(root, y, c) == RootFor(root, x, c) && CostOf(m, y, c, root) == CostOf(m, x, c, root)
  {
    assert Abs(y) == Abs(x);
  }

  function Flipped(pieces: seq<real>): (fs: seq<real>)
    ensures |fs| == |pieces|
  {
    seq(|pieces|, i requires 0 <= i < |pieces| => -pieces[i])
  }

  lemma FlippedSum(pieces: seq<real>)
    ensures Sum(Flipped(pieces)) == -Sum(pieces)
  {
    SumScalesTo(pieces, Flipped(pieces), -1.0, |pieces|);
  }

  ghost predicate Even(f: Pricing) {
    forall x, y, root :: y == -x ==> f(y, root) == f(x, root)
  }

  lemma EvenAt(f: Pricing, x: real, y: real, root: real)
    requires Even(f) && y == -x
    ensures f(y, root) == f(x, root)
  {
  }

  lemma CostIsEven(m: Model, c: Context, x: real, y: real, root: real)
    requires y == -x
    ensures Coster(m, c)(y, root) == Coster(m, c)(x, root)
  {
    SameSizeSameCost(m, c, x, y, root);
  }

  lemma CostsAreEven(m: Model, c: Context)
    ensures Even(Coster(m, c))
  {
    forall x, y, root | y == -x ensures Coster(m, c)(y, root) == Coster(m, c)(x, root) { CostIsEven(m, c, x, y, root); }
  }

  /** Sold, the same pieces cost the same, one by one and at once. */
  lemma FlippedEach(f: Pricing, pieces: seq<real>, roots: seq<real>, root: real)
    requires |pieces| == |roots| && Even(f)
    ensures Each(f, Flipped(pieces), roots) == Each(f, pieces, roots)
    ensures f(Sum(Flipped(pieces)), root) == f(Sum(pieces), root)
  {
    FlippedSum(pieces);
    forall i | 0 <= i < |pieces| ensures f(Flipped(pieces)[i], roots[i]) == f(pieces[i], roots[i]) {
      EvenAt(f, pieces[i], Flipped(pieces)[i], roots[i]);
    }
    EvenAt(f, Sum(pieces), Sum(Flipped(pieces)), root);
  }

  /** All bought or all sold. */
  predicate SameDirection(pieces: seq<real>, roots: seq<real>, c: Context) {
    Bought(pieces, roots, c) || Bought(Flipped(pieces), roots, c)
  }

  /** Some piece is more than nothing and less than the whole. */
  ghost predicate Splits(pieces: seq<real>) {
    exists i :: 0 <= i < |pieces| && 0.0 < Abs(pieces[i]) < Abs(Sum(pieces))
  }

  /** The pieces together cost no more than their sum as one trade, and less where `strict`. */
  ghost predicate NoDearer(f: Pricing, pieces: seq<real>, roots: seq<real>, root: real, strict: bool)
    requires |pieces| == |roots|
  {
    && Sum(Each(f, pieces, roots)) <= f(Sum(pieces), root)
    && (strict ==> Sum(Each(f, pieces, roots)) < f(Sum(pieces), root))
  }

  lemma FlippedNoDearer(f: Pricing, pieces: seq<real>, roots: seq<real>, root: real, strict: bool)
    requires |pieces| == |roots| && Even(f) && NoDearer(f, Flipped(pieces), roots, root, strict)
    ensures NoDearer(f, pieces, roots, root, strict)
  {
    FlippedEach(f, pieces, roots, root);
  }

  lemma FreePieces(f: Pricing, pieces: seq<real>, roots: seq<real>, root: real)
    requires |pieces| == |roots| && f(Sum(pieces), root) == 0.0 && forall i :: 0 <= i < |pieces| ==> f(pieces[i], roots[i]) == 0.0
    ensures NoDearer(f, pieces, roots, root, false)
  {
    NothingInPieces(f, pieces, roots);
  }

  lemma PricedPieces(m: Model, c: Context, pieces: seq<real>, roots: seq<real>, root: real)
    requires m.eta * c.dailyVol >= 0.0 && c.price > 0.0 && Bought(pieces, roots, c) && RootFor(root, Sum(pieces), c)
    ensures NoDearer(Coster(m, c), pieces, roots, root, ChargesImpact(m, c) && Splits(pieces))
  {
    var f, shares, whole := Coster(m, c), WholeShares(m, c, pieces, Sum(pieces), root), Sum(pieces);
    SumNonNegative(pieces, |pieces|);
    forall i | 0 <= i < |pieces|
      ensures f(pieces[i], roots[i]) <= shares[i]
      ensures 0.0 < pieces[i] < whole && ChargesImpact(m, c) ==> f(pieces[i], roots[i]) < shares[i]
    {
      PieceOfWhole(m, c, pieces[i], roots[i], whole, root);
    }
    SharesAddUp(m, c, pieces, root);
    NoDearerInPieces(f, shares, pieces, roots, whole, root);
  }

  lemma BoughtPieces(m: Model, c: Context, pieces: seq<real>, roots: seq<real>, root: real)
    requires m.eta * c.dailyVol >= 0.0 && Bought(pieces, roots, c) && RootFor(root, Sum(pieces), c)
    ensures NoDearer(Coster(m, c), pieces, roots, root, ChargesImpact(m, c) && Splits(pieces))
  {
    if c.price > 0.0 {
      PricedPieces(m, c, pieces, roots, root);
    } else {
      SumNonNegative(pieces, |pieces|);
      FreeOfCharge(m, c, Sum(pieces), root);
      forall i | 0 <= i < |pieces| ensures Coster(m, c)(pieces[i], roots[i]) == 0.0 { FreeOfCharge(m, c, pieces[i], roots[i]); }
      FreePieces(Coster(m, c), pieces, roots, root);
    }
  }

  lemma FlippedSplits(pieces: seq<real>)
    ensures Splits(Flipped(pieces)) <==> Splits(pieces)
  {
    FlippedSum(pieces);
    var fs := Flipped(pieces);
    if i :| 0 <= i < |fs| && 0.0 < Abs(fs[i]) < Abs(Sum(fs)) { assert 0.0 < Abs(pieces[i]) < Abs(Sum(pieces)); }
    if i :| 0 <= i < |pieces| && 0.0 < Abs(pieces[i]) < Abs(Sum(pieces)) { assert 0.0 < Abs(fs[i]) < Abs(Sum(fs)); }
  }

  lemma FlippedRoot(c: Context, pieces: seq<real>, root: real)
    requires RootFor(root, Sum(pieces), c)
    ensures RootFor(root, Sum(Flipped(pieces)), c)
  {
    FlippedSum(pieces);
    assert Abs(-Sum(pieces)) == Abs(Sum(pieces));
  }

  /**
    Splitting saves impact. However a trade is cut into pieces of its own direction, long
    or short, the pieces together never cost more than the whole; with impact charged and
    a piece strictly inside the whole, they cost strictly less.
  */
  lemma PiecesCostNoMore(m: Model, c: Context, pieces: seq<real>, roots: seq<real>, root: real)
    requires m.eta * c.dailyVol >= 0.0 && |pieces| == |roots|
    requires SameDirection(pieces, roots, c) && RootFor(root, Sum(pieces), c)
    ensures NoDearer(Coster(m, c), pieces, roots, root, ChargesImpact(m, c) && Splits(pieces))
  {
    if Bought(pieces, roots, c) {
      BoughtPieces(m, c, pieces, roots, root);
    } else {
      FlippedRoot(c, pieces, root);
      FlippedSplits(pieces);
      BoughtPieces(m, c, Flipped(pieces), roots, root);
      CostsAreEven(m, c);
      FlippedNoDearer(Coster(m, c), pieces, roots, root, ChargesImpact(m, c) && Splits(pieces));
    }
  }

  // ------------------------------------------------------------------------
  // The optimizer's coefficient
  // ------------------------------------------------------------------------

  /** `k` in `k |dw|^(3/2)`: the root law per unit of capital. */
  function ImpactCoefficient(m: Model, dailyVol: real, advDollar: real, capital: real, root: real): real
    requires !m.linear && advDollar > 0.0 && capital > 0.0 && dailyVol > 0.0 ==> IsRoot(root, capital / advDollar)
  {
    if m.linear || advDollar <= 0.0 || capital <= 0.0 || dailyVol <= 0.0 then 0.0 else m.eta * dailyVol * root
  }

  /** No impact term where there is no volume, no capital or no volatility, or impact is linear. */
  lemma NoCoefficient(m: Model, dailyVol: real, advDollar: real, capital: real, root: real)
    requires m.linear || advDollar <= 0.0 || capital <= 0.0 || dailyVol <= 0.0
    ensures ImpactCoefficient(m, dailyVol, advDollar, capital, root) == 0.0
  {
  }

  lemma RootOfProduct(a: real, b: real, x: real, y: real)
    requires IsRoot(a, x) && IsRoot(b, y)
    ensures IsRoot(a * b, x * y)
  {
    assert (a * b) * (a * b) == (a * a) * (b * b);
  }

  lemma OneRoot(r: real, s: real, x: real)
    requires IsRoot(r, x) && IsRoot(s, x)
    ensures r == s
  {
    RootOrder(r, s, x, x);
    RootOrder(s, r, x, x);
  }

  lemma ParticipationOfWeight(weight: real, capital: real, price: real, adv: real)
    requires price > 0.0 && adv > 0.0
    ensures (weight * capital / price) / adv == weight * (capital / (price * adv))
  {
    var shares, k := weight * capital / price, capital / (price * adv);
    ProductOrderStrict(price, 0.0, adv);
    assert shares * price == weight * capital && k * (price * adv) == capital;
    var part := shares / adv;
    assert part * adv == shares;
    assert part * (adv * price) == weight * capital;
    assert (weight * k) * (price * adv) == weight * capital;
    SameQuotient(part, weight * k, price * adv);
  }

  lemma SameQuotient(x: real, y: real, d: real)
    requires d > 0.0 && x * d == y * d
    ensures x == y
  {
    assert x < y ==> x * d < y * d;
    assert y < x ==> y * d < x * d;
  }

  /**
    Trading a weight `w` of a book pays, in impact, exactly capital times the optimizer's
    coefficient times `w^(3/2)`: `weightRoot` is the root of `w`.
  */
  lemma ImpactMatchesCoefficient(m: Model, c: Context, capital: real, weight: real, shareRoot: real, capitalRoot: real, weightRoot: real)
    requires !m.linear && c.price > 0.0 && c.adv > 0.0 && capital > 0.0 && c.dailyVol >= 0.0 && weight >= 0.0
    requires IsRoot(capitalRoot, capital / (c.price * c.adv)) && IsRoot(weightRoot, weight)
    requires RootFor(shareRoot, weight * capital / c.price, c)
    ensures c.price * c.adv > 0.0
    ensures CostOf(m, weight * capital / c.price, c, shareRoot).impact
      == capital * ImpactCoefficient(m, c.dailyVol, c.price * c.adv, capital, capitalRoot) * (weight * weightRoot)
  {
    var shares, advDollar := weight * capital / c.price, c.price * c.adv;
    ProductOrderStrict(c.price, 0.0, c.adv);
    ProductSign(weight, capital);
    assert shares * c.price == weight * capital;
    assert shares >= 0.0 by { assert shares < 0.0 ==> shares * c.price < 0.0; }
    ParticipationOfWeight(weight, capital, c.price, c.adv);
    RootOfProduct(weightRoot, capitalRoot, weight, capital / advDollar);
    OneRoot(shareRoot, weightRoot * capitalRoot, shares / c.adv);
    var es := m.eta * c.dailyVol;
    assert Notional(shares, c) == weight * capital;
    RateTimesSize(es, weightRoot, capitalRoot, weight, capital);
    if weight * capital <= 0.0 { assert weight == 0.0 by { assert weight > 0.0 ==> weight * capital > 0.0; } }
  }

  lemma RateTimesSize(es: real, weightRoot: real, capitalRoot: real, weight: real, capital: real)
    ensures (es * (weightRoot * capitalRoot)) * (weight * capital) == capital * (es * capitalRoot) * (weight * weightRoot)
  {
    var a := es * capitalRoot;
    assert es * (weightRoot * capitalRoot) == a * weightRoot;
    assert (a * weightRoot) * (weight * capital) == capital * a * (weight * weightRoot);
  }
}
