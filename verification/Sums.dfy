/** Finite sums and dot products of reals, and the few laws the other modules use. */
module Sums {

  // ------------------------------------------------------------------------
  // Sums
  // ------------------------------------------------------------------------

  /** The first `n` terms, added up. */
  function SumTo(xs: seq<real>, n: nat): real
    requires n <= |xs|
  {
    if n == 0 then 0.0 else SumTo(xs, n - 1) + xs[n - 1]
  }

  function Sum(xs: seq<real>): real {
    SumTo(xs, |xs|)
  }

  function Mean(xs: seq<real>): real
    requires xs != []
  {
    Sum(xs) / |xs| as real
  }

  function Demean(xs: seq<real>): (ys: seq<real>)
    ensures |ys| == |xs|
  {
    if xs == [] then xs else
      var m := Mean(xs);
      seq(|xs|, i requires 0 <= i < |xs| => xs[i] - m)
  }

  lemma {:induction false} SumToAgrees(xs: seq<real>, ys: seq<real>, n: nat)
    requires n <= |xs| && n <= |ys|
    requires forall i :: 0 <= i < n ==> xs[i] == ys[i]
    ensures SumTo(xs, n) == SumTo(ys, n)
  {
    if n > 0 { SumToAgrees(xs, ys, n - 1); }
  }

  lemma SumSnoc(xs: seq<real>, x: real)
    ensures Sum(xs + [x]) == Sum(xs) + x
  {
    SumToAgrees(xs + [x], xs, |xs|);
  }

  lemma {:induction false} SumConcat(xs: seq<real>, ys: seq<real>)
    ensures Sum(xs + ys) == Sum(xs) + Sum(ys)
  {
    if ys == [] {
      assert xs + ys == xs;
    } else {
      var front, last := ys[..|ys| - 1], ys[|ys| - 1];
      assert ys == front + [last] && xs + ys == (xs + front) + [last];
      SumConcat(xs, front);
      SumSnoc(xs + front, last);
      SumSnoc(front, last);
    }
  }

  lemma Distribute(a: real, x: real, y: real)
    ensures a * (x + y) == a * x + a * y
  {
  }

  lemma {:induction false} SumAddsTo(xs: seq<real>, ys: seq<real>, zs: seq<real>, b: real, n: nat)
    requires n <= |xs| == |ys| == |zs|
    requires forall i :: 0 <= i < |zs| ==> zs[i] == xs[i] + b * ys[i]
    ensures SumTo(zs, n) == SumTo(xs, n) + b * SumTo(ys, n)
  {
    if n > 0 {
      SumAddsTo(xs, ys, zs, b, n - 1);
      Distribute(b, SumTo(ys, n - 1), ys[n - 1]);
    }
  }

  /** A pointwise combination sums to the combination of the sums. */
  lemma SumAdds(xs: seq<real>, ys: seq<real>, zs: seq<real>, b: real)
    requires |xs| == |ys| == |zs|
    requires forall i :: 0 <= i < |zs| ==> zs[i] == xs[i] + b * ys[i]
    ensures Sum(zs) == Sum(xs) + b * Sum(ys)
  {
    SumAddsTo(xs, ys, zs, b, |zs|);
  }

  lemma {:induction false} SumScalesTo(xs: seq<real>, zs: seq<real>, t: real, n: nat)
    requires n <= |xs| == |zs|
    requires forall i :: 0 <= i < |zs| ==> zs[i] == t * xs[i]
    ensures SumTo(zs, n) == t * SumTo(xs, n)
  {
    if n > 0 {
      SumScalesTo(xs, zs, t, n - 1);
      Distribute(t, SumTo(xs, n - 1), xs[n - 1]);
    }
  }

  lemma {:induction false} SumOfConstant(xs: seq<real>, c: real, n: nat)
    requires n <= |xs|
    requires forall i :: 0 <= i < |xs| ==> xs[i] == c
    ensures SumTo(xs, n) == n as real * c
  {
    if n > 0 {
      SumOfConstant(xs, c, n - 1);
      assert n as real * c == (n - 1) as real * c + c;
    }
  }

  lemma {:induction false} ZeroSum(xs: seq<real>, n: nat)
    requires n <= |xs| && forall i :: 0 <= i < n ==> xs[i] == 0.0
    ensures SumTo(xs, n) == 0.0
  {
    if n > 0 { ZeroSum(xs, n - 1); }
  }

  lemma {:induction false} SumNonNegative(xs: seq<real>, n: nat)
    requires n <= |xs|
    requires forall i :: 0 <= i < |xs| ==> xs[i] >= 0.0
    ensures SumTo(xs, n) >= 0.0
    ensures forall i :: 0 <= i < n ==> xs[i] <= SumTo(xs, n)
  {
    if n > 0 { SumNonNegative(xs, n - 1); }
  }

  // ------------------------------------------------------------------------
  // Dot products
  // ------------------------------------------------------------------------

  /** The first `n` products, added up. */
  function DotTo(u: seq<real>, v: seq<real>, n: nat): real
    requires n <= |u| && n <= |v|
  {
    if n == 0 then 0.0 else DotTo(u, v, n - 1) + u[n - 1] * v[n - 1]
  }

  function Dot(u: seq<real>, v: seq<real>): real
    requires |u| == |v|
  {
    DotTo(u, v, |u|)
  }

  lemma DotTerm(dot: real, dotX: real, dotY: real, u: real, x: real, y: real, b: real)
    requires dot == dotX + b * dotY
    ensures dot + u * (x + b * y) == (dotX + u * x) + b * (dotY + u * y)
  {
    assert u * (b * y) == b * (u * y);
    assert b * (dotY + u * y) == b * dotY + b * (u * y);
  }

  lemma {:induction false} DotAddsTo(u: seq<real>, x: seq<real>, y: seq<real>, z: seq<real>, b: real, n: nat)
    requires n <= |u| == |x| == |y| == |z|
    requires forall i :: 0 <= i < |z| ==> z[i] == x[i] + b * y[i]
    ensures DotTo(u, z, n) == DotTo(u, x, n) + b * DotTo(u, y, n)
  {
    if n > 0 {
      DotAddsTo(u, x, y, z, b, n - 1);
      DotTerm(DotTo(u, z, n - 1), DotTo(u, x, n - 1), DotTo(u, y, n - 1), u[n - 1], x[n - 1], y[n - 1], b);
    }
  }

  /** A product against a pointwise combination is that combination of the products. */
  lemma DotAdds(u: seq<real>, x: seq<real>, y: seq<real>, z: seq<real>, b: real)
    requires |u| == |x| == |y| == |z|
    requires forall i :: 0 <= i < |z| ==> z[i] == x[i] + b * y[i]
    ensures Dot(u, z) == Dot(u, x) + b * Dot(u, y)
  {
    DotAddsTo(u, x, y, z, b, |u|);
  }

  lemma {:induction false} DotZeroTo(u: seq<real>, z: seq<real>, n: nat)
    requires n <= |u| == |z|
    requires forall i :: 0 <= i < |z| ==> z[i] == 0.0
    ensures DotTo(u, z, n) == 0.0
  {
    if n > 0 { DotZeroTo(u, z, n - 1); }
  }

  lemma {:induction false} DotScalesTo(u: seq<real>, x: seq<real>, z: seq<real>, t: real, n: nat)
    requires n <= |u| == |x| == |z|
    requires forall i :: 0 <= i < |z| ==> z[i] == t * x[i]
    ensures DotTo(u, z, n) == t * DotTo(u, x, n)
  {
    if n > 0 {
      DotScalesTo(u, x, z, t, n - 1);
      assert u[n - 1] * (t * x[n - 1]) == t * (u[n - 1] * x[n - 1]);
      Distribute(t, DotTo(u, x, n - 1), u[n - 1] * x[n - 1]);
    }
  }

  lemma DotScales(u: seq<real>, x: seq<real>, z: seq<real>, t: real)
    requires |u| == |x| == |z|
    requires forall i :: 0 <= i < |z| ==> z[i] == t * x[i]
    ensures Dot(u, z) == t * Dot(u, x)
  {
    DotScalesTo(u, x, z, t, |u|);
  }

  lemma {:induction false} DotToAgrees(u: seq<real>, x: seq<real>, y: seq<real>, n: nat)
    requires n <= |u| && n <= |x| && n <= |y|
    requires forall i :: 0 <= i < n ==> x[i] == y[i]
    ensures DotTo(u, x, n) == DotTo(u, y, n)
  {
    if n > 0 { DotToAgrees(u, x, y, n - 1); }
  }

  lemma {:induction false} DotSwaps(u: seq<real>, v: seq<real>, n: nat)
    requires n <= |u| && n <= |v|
    ensures DotTo(u, v, n) == DotTo(v, u, n)
  {
    if n > 0 { DotSwaps(u, v, n - 1); }
  }

  // ------------------------------------------------------------------------
  // Centred products
  // ------------------------------------------------------------------------

  /** A sum of `(x - a)(y - b)` over `n` pairs, multiplied out. */
  function Expanded(cross: real, sumX: real, sumY: real, n: real, a: real, b: real): real {
    cross - b * sumX - a * sumY + n * (a * b)
  }

  lemma ExpandTerm(x: real, y: real, a: real, b: real)
    ensures (x - a) * (y - b) == x * y - b * x - a * y + a * b
  {
  }

  lemma ExpandedStep(cross: real, sumX: real, sumY: real, n: real, a: real, b: real, x: real, y: real)
    ensures Expanded(cross + x * y, sumX + x, sumY + y, n + 1.0, a, b) == Expanded(cross, sumX, sumY, n, a, b) + (x - a) * (y - b)
  {
    ExpandTerm(x, y, a, b);
    Distribute(b, sumX, x);
    Distribute(a, sumY, y);
    Distribute(a * b, n, 1.0);
  }

  // ------------------------------------------------------------------------
  // Order and products
  // ------------------------------------------------------------------------

  lemma ProductSign(x: real, y: real)
    requires x >= 0.0 && y >= 0.0
    ensures x * y >= 0.0
  {
  }

  lemma ProductOrder(a: real, x: real, y: real)
    requires a >= 0.0 && x <= y
    ensures a * x <= a * y
  {
  }

  lemma ProductOrderStrict(a: real, x: real, y: real)
    requires a > 0.0 && x < y
    ensures a * x < a * y
  {
  }

  lemma ZeroProduct(x: real, y: real)
    requires x * y == 0.0
    ensures x == 0.0 || y == 0.0
  {
  }

  function Square(x: real): real { x * x }

  lemma SquareIsPositive(x: real)
    ensures Square(x) >= 0.0 && (Square(x) == 0.0 <==> x == 0.0)
  {
    if Square(x) == 0.0 { ZeroProduct(x, x); }
  }

  lemma {:induction false} SquaresGrow(d: seq<real>, n: nat)
    requires n <= |d|
    ensures DotTo(d, d, n) >= 0.0
    ensures DotTo(d, d, n) == 0.0 ==> forall i :: 0 <= i < n ==> d[i] == 0.0
  {
    if n > 0 {
      SquaresGrow(d, n - 1);
      SquareIsPositive(d[n - 1]);
      assert DotTo(d, d, n) == DotTo(d, d, n - 1) + Square(d[n - 1]);
    }
  }

  // ------------------------------------------------------------------------
  // Tables of numbers, given by rows
  // ------------------------------------------------------------------------

  predicate Wide(m: seq<seq<real>>, k: nat) {
    forall i :: 0 <= i < |m| ==> |m[i]| == k
  }
}
