/**
  Bootstrap skill inference: block-resampled null distributions, the p-value of one
  track record, and the family p-value of the best of many.

  Random draws come in as a seeded stream; the annualized information ratio and the
  automatic block length are arbitrary functions of a series.
*/
module Bootstrap {
  import opened Sums

  // ------------------------------------------------------------------------
  // Stationary bootstrap indices
  // ------------------------------------------------------------------------

  /** What the generator yields: first indices, restart uniforms and fresh indices, by step and round. */
  datatype Draws = Draws(first: seq<nat>, uniform: seq<seq<real>>, restart: seq<seq<nat>>)

  ghost predicate DrawsFor(d: Draws, t: nat, b: nat) {
    && |d.first| == b && (forall r :: 0 <= r < b ==> d.first[r] < t)
    && |d.uniform| == |d.restart| == t - 1
    && (forall s :: 0 <= s < t - 1 ==> |d.uniform[s]| == |d.restart[s]| == b)
    && (forall s, r :: 0 <= s < t - 1 && 0 <= r < b ==> d.restart[s][r] < t)
  }

  /** The chance of starting a new block at a step. */
  function RestartChance(blockLength: real): (p: real)
    ensures 0.0 < p <= 1.0
    ensures blockLength >= 1.0 ==> p * blockLength == 1.0
    ensures blockLength < 1.0 ==> p == 1.0
  {
    var length := if blockLength > 1.0 then blockLength else 1.0;
    ReciprocalOrder(1.0, length);
    1.0 / length
  }

  lemma ReciprocalOrder(x: real, y: real)
    requires 0.0 < x <= y
    ensures 0.0 < 1.0 / y <= 1.0 / x
  {
    var p, q := 1.0 / x, 1.0 / y;
    assert p * x == 1.0 && q * y == 1.0;
    assert q <= 0.0 ==> q * y <= 0.0;
    ProductOrder(q, x, y);
    assert p < q ==> p * x < q * x;
  }

  predicate Restarts(d: Draws, p: real, s: nat, r: nat)
    requires s < |d.uniform| && r < |d.uniform[s]|
  {
    d.uniform[s][r] < p
  }

  /** The step at which the block covering step `s` of round `r` began. */
  function BlockStart(d: Draws, p: real, s: nat, r: nat): (start: nat)
    requires s <= |d.uniform| && forall k :: 0 <= k < |d.uniform| ==> r < |d.uniform[k]|
    ensures start <= s
  {
    if s == 0 || Restarts(d, p, s - 1, r) then s else BlockStart(d, p, s - 1, r)
  }

  /** The block's first index: the round's first draw, or the fresh draw of its restart. */
  function BlockHead(d: Draws, start: nat, r: nat): nat
    requires r < |d.first| && start <= |d.restart| && (start > 0 ==> r < |d.restart[start - 1]|)
  {
    if start == 0 then d.first[r] else d.restart[start - 1][r]
  }

  /**
    Closed form: each round is a chain of blocks, and within a block the index runs on
    from the block's head, wrapping around the sample.
  */
  function IndexAt(d: Draws, p: real, t: nat, b: nat, s: nat, r: nat): (i: nat)
    requires t > 0 && DrawsFor(d, t, b) && s < t && r < b
    ensures i < t
  {
    var start := BlockStart(d, p, s, r);
    (BlockHead(d, start, r) + (s - start)) % t
  }

  lemma WrapStep(x: nat, t: nat)
    requires t > 0
    ensures (x % t + 1) % t == (x + 1) % t
  {
    var q, m := x / t, x % t;
    assert x == q * t + m;
    if m + 1 < t {
      Remainder(x + 1, q, m + 1, t);
    } else {
      assert (q + 1) * t == q * t + t;
      Remainder(x + 1, q + 1, 0, t);
      Remainder(t, 1, 0, t);
    }
  }

  lemma Remainder(x: nat, q: nat, m: nat, t: nat)
    requires m < t && x == q * t + m
    ensures x % t == m
  {
    var q', m' := x / t, x % t;
    var k: int := q - q';
    assert x == q' * t + m';
    assert k * t == q * t - q' * t;
    NonzeroMultiple(k, t);
  }

  lemma NonzeroMultiple(k: int, t: nat)
    ensures k >= 1 ==> k * t >= t
    ensures k <= -1 ==> k * t + t <= 0
  {
    if k >= 1 { TimesAtLeastOne(k, t); }
    if k <= -1 {
      TimesAtLeastOne(-k, t);
      assert -k * t == -(k * t);
    }
  }

  lemma TimesAtLeastOne(k: nat, t: nat)
    requires k >= 1
    ensures k * t >= t
  {
    assert (k - 1) * t >= 0;
  }

  /** One step of the recurrence for one round. */
  lemma Continues(d: Draws, p: real, t: nat, b: nat, s: nat, r: nat)
    requires t > 0 && DrawsFor(d, t, b) && 0 < s < t && r < b
    ensures IndexAt(d, p, t, b, s, r) ==
      if d.uniform[s - 1][r] < p then d.restart[s - 1][r] else (IndexAt(d, p, t, b, s - 1, r) + 1) % t
  {
    if Restarts(d, p, s - 1, r) {
      SmallRemainder(d.restart[s - 1][r], t);
    } else {
      var start := BlockStart(d, p, s - 1, r);
      WrapStep(BlockHead(d, start, r) + (s - 1 - start), t);
    }
  }

  /** Every round starts at its first draw. */
  lemma StartsAtFirst(d: Draws, p: real, t: nat, b: nat, r: nat)
    requires t > 0 && DrawsFor(d, t, b) && r < b
    ensures IndexAt(d, p, t, b, 0, r) == d.first[r]
  {
    SmallRemainder(d.first[r], t);
  }

  /** The recurrence the source runs computes the closed form. */
  method StationaryBootstrapIndices(t: nat, blockLength: real, b: nat, d: Draws) returns (idx: seq<seq<nat>>)
    requires t > 0 ==> DrawsFor(d, t, b)
    ensures |idx| == b && forall r :: 0 <= r < b ==> |idx[r]| == t
    ensures t > 0 ==> forall r, s :: 0 <= r < b && 0 <= s < t ==> idx[r][s] == IndexAt(d, RestartChance(blockLength), t, b, s, r)
  {
    if t == 0 {
      return seq(b, r => []);
    }
    var p := RestartChance(blockLength);
    var table := [d.first];
    forall r | 0 <= r < b ensures d.first[r] == IndexAt(d, p, t, b, 0, r) { StartsAtFirst(d, p, t, b, r); }
    for step := 1 to t
      invariant |table| == step && forall s :: 0 <= s < step ==> |table[s]| == b
      invariant forall s, r :: 0 <= s < step && 0 <= r < b ==> table[s][r] == IndexAt(d, p, t, b, s, r)
    {
      var prev := table[step - 1];
      var row := seq(b, r requires 0 <= r < b => if Restarts(d, p, step - 1, r) then d.restart[step - 1][r] else (prev[r] + 1) % t);
      forall r | 0 <= r < b ensures row[r] == IndexAt(d, p, t, b, step, r) { Continues(d, p, t, b, step, r); }
      table := table + [row];
    }
    idx := seq(b, r requires 0 <= r < b => seq(t, s requires 0 <= s < t => table[s][r]));
  }

  lemma SmallRemainder(x: nat, t: nat)
    requires x < t
    ensures x % t == x
  {
  }

  /** Longer blocks restart less: every block boundary at the longer length is one at the shorter. */
  lemma LongerBlocksRestartLess(d: Draws, short: real, long: real, s: nat, r: nat)
    requires short <= long && s < |d.uniform| && r < |d.uniform[s]|
    ensures Restarts(d, RestartChance(long), s, r) ==> Restarts(d, RestartChance(short), s, r)
  {
    ReciprocalOrder(if short > 1.0 then short else 1.0, if long > 1.0 then long else 1.0);
  }
}
