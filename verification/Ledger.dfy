/**
  The position ledger's replay: what the append-only file says we hold. Cumulative fill
  reports are resolved to the last one per order; closes, flattens and adoptions reset a
  symbol. The two-dictionary pass is proved against reading the file backwards.
*/
module Ledger {
  import opened Options

  type Symbol = string

  datatype Record =
    | Close(symbol: Symbol)
    | Flattened(symbol: Symbol)
    | Adopt(symbol: Symbol, short: bool, qty: real)
    | Fill(symbol: Symbol, short: bool, qty: real, cumulative: bool, order: Option<string>)
    | Header

  function Abs(x: real): real { if x < 0.0 then -x else x }

  predicate Resets(r: Record, s: Symbol) {
    (r.Close? || r.Flattened? || r.Adopt?) && r.symbol == s
  }

  /** What a reset leaves the symbol at. */
  function Baseline(r: Record): real {
    if r.Adopt? then (if r.short then -Abs(r.qty) else Abs(r.qty)) else 0.0
  }

  function Signed(r: Record): real
    requires r.Fill?
  {
    if r.short then -r.qty else r.qty
  }

  /** A running total for an order: the last such report is the whole truth about it. */
  predicate Reports(r: Record, order: string) {
    r.Fill? && r.cumulative && r.order == Some(order)
  }

  predicate IsReport(r: Record) {
    r.Fill? && r.cumulative && r.order.Some?
  }

  // ------------------------------------------------------------------------
  // The meaning of a file: read it backwards
  // ------------------------------------------------------------------------

  /**
    The net position of `s` in the first `n` records, leaving out the orders in `seen`.
    The first report met of an order is its last; the first reset met ends the reading.
  */
  ghost function Net(log: seq<Record>, n: nat, s: Symbol, seen: set<string>): real
    requires n <= |log|
  {
    if n == 0 then 0.0 else
      var r := log[n - 1];
      if Resets(r, s) then Baseline(r)
      else if IsReport(r) then
        if r.order.value in seen then Net(log, n - 1, s, seen)
        else (if r.symbol == s then Signed(r) else 0.0) + Net(log, n - 1, s, seen + {r.order.value})
      else (if r.Fill? && r.symbol == s then Signed(r) else 0.0) + Net(log, n - 1, s, seen)
  }

  ghost function Position(log: seq<Record>, s: Symbol): real {
    Net(log, |log|, s, {})
  }

  // ------------------------------------------------------------------------
  // The two dictionaries
  // ------------------------------------------------------------------------

  /** A cumulative report is keyed by its order, any other fill by its own line. */
  datatype Key = Order(id: string) | Line(seqNo: nat)

  datatype Item = Item(symbol: Symbol, qty: real, seqNo: nat)

  datatype Replayed = Replayed(byOrder: map<Key, Item>, reset: map<Symbol, (nat, real)>)

  function KeyOf(r: Record, seqNo: nat): Key
    requires r.Fill?
  {
    if IsReport(r) then Order(r.order.value) else Line(seqNo)
  }

  /** One line of the file, numbered from one. */
  function Take(d: Replayed, r: Record, seqNo: nat): Replayed {
    match r
    case Header => d
    case Close(s) => d.(reset := d.reset[s := (seqNo, 0.0)])
    case Flattened(s) => d.(reset := d.reset[s := (seqNo, 0.0)])
    case Adopt(s, _, _) => d.(reset := d.reset[s := (seqNo, Baseline(r))])
    case Fill(s, _, _, _, _) => d.(byOrder := d.byOrder[KeyOf(r, seqNo) := Item(s, Signed(r), seqNo)])
  }

  function ReadAll(log: seq<Record>, n: nat): Replayed
    requires n <= |log|
  {
    if n == 0 then Replayed(map[], map[]) else Take(ReadAll(log, n - 1), log[n - 1], n)
  }

  function ResetAt(d: Replayed, s: Symbol): nat { if s in d.reset then d.reset[s].0 else 0 }

  function ResetTo(d: Replayed, s: Symbol): real { if s in d.reset then d.reset[s].1 else 0.0 }

  /** What one entry adds to `s`: nothing if superseded by a later reset, or set aside. */
  function Adds(k: Key, i: Item, s: Symbol, base: nat, seen: set<string>): real {
    if i.symbol != s || i.seqNo < base || (k.Order? && k.id in seen) then 0.0 else i.qty
  }

  ghost function Sum(m: map<Key, Item>, s: Symbol, base: nat, seen: set<string>): real {
    if m == map[] then 0.0 else
      var k :| k in m;
      Adds(k, m[k], s, base, seen) + Sum(m - {k}, s, base, seen)
  }

  lemma SumUnfolds(m: map<Key, Item>, s: Symbol, base: nat, seen: set<string>) returns (q: Key)
    requires m != map[]
    ensures q in m && Sum(m, s, base, seen) == Adds(q, m[q], s, base, seen) + Sum(m - {q}, s, base, seen)
  {
    q :| q in m && Sum(m, s, base, seen) == Adds(q, m[q], s, base, seen) + Sum(m - {q}, s, base, seen);
  }

  lemma Shrinks(m: map<Key, Item>, k: Key)
    requires k in m
    ensures |m - {k}| < |m|
  {
    assert (m - {k}).Keys == m.Keys - {k};
  }

  lemma {:induction false} SumTakesAny(m: map<Key, Item>, k: Key, s: Symbol, base: nat, seen: set<string>)
    requires k in m
    ensures Sum(m, s, base, seen) == Adds(k, m[k], s, base, seen) + Sum(m - {k}, s, base, seen)
    decreases |m|
  {
    var q := SumUnfolds(m, s, base, seen);
    if q != k {
      Shrinks(m, q);
      Shrinks(m, k);
      SumTakesAny(m - {q}, k, s, base, seen);
      SumTakesAny(m - {k}, q, s, base, seen);
      assert m - {q} - {k} == m - {k} - {q};
    }
  }

  /** Entries that add the same under two readings sum the same. */
  lemma {:induction false} SumAgrees(m: map<Key, Item>, s: Symbol, base: nat, seen: set<string>, base': nat, seen': set<string>)
    requires forall k :: k in m ==> Adds(k, m[k], s, base, seen) == Adds(k, m[k], s, base', seen')
    ensures Sum(m, s, base, seen) == Sum(m, s, base', seen')
    decreases |m|
  {
    if m != map[] {
      var q := SumUnfolds(m, s, base, seen);
      Shrinks(m, q);
      SumTakesAny(m, q, s, base', seen');
      SumAgrees(m - {q}, s, base, seen, base', seen');
    }
  }

  lemma {:induction false} SumOfNothing(m: map<Key, Item>, s: Symbol, base: nat, seen: set<string>)
    requires forall k :: k in m ==> Adds(k, m[k], s, base, seen) == 0.0
    ensures Sum(m, s, base, seen) == 0.0
    decreases |m|
  {
    if m != map[] {
      var q := SumUnfolds(m, s, base, seen);
      Shrinks(m, q);
      SumOfNothing(m - {q}, s, base, seen);
    }
  }

  /** Writing one entry exchanges what the key added before for what it adds now. */
  lemma SumUpdates(m: map<Key, Item>, k: Key, i: Item, s: Symbol, base: nat, seen: set<string>)
    ensures Sum(m[k := i], s, base, seen) == Adds(k, i, s, base, seen) + Sum(m - {k}, s, base, seen)
  {
    SumTakesAny(m[k := i], k, s, base, seen);
    assert m[k := i] - {k} == m - {k};
  }

  ghost predicate Older(d: Replayed, n: nat) {
    && (forall k :: k in d.byOrder ==> d.byOrder[k].seqNo <= n && (k.Line? ==> k.seqNo <= n))
    && (forall s :: s in d.reset ==> ResetAt(d, s) <= n)
  }

  lemma {:induction false} NumbersAreOld(log: seq<Record>, n: nat)
    requires n <= |log|
    ensures Older(ReadAll(log, n), n)
  {
    if n > 0 {
      var before, d := ReadAll(log, n - 1), ReadAll(log, n);
      NumbersAreOld(log, n - 1);
      forall s | s in d.reset ensures ResetAt(d, s) <= n {
        assert ResetAt(d, s) == n || (s in before.reset && ResetAt(d, s) == ResetAt(before, s));
      }
    }
  }

  /** Setting an order aside is leaving its entry out. */
  lemma SumSetsAside(m: map<Key, Item>, id: string, s: Symbol, base: nat, seen: set<string>)
    ensures Sum(m, s, base, seen + {id}) == Sum(m - {Order(id)}, s, base, seen)
  {
    var k := Order(id);
    if k in m {
      SumTakesAny(m, k, s, base, seen + {id});
    } else {
      assert m - {k} == m;
    }
    SumAgrees(m - {k}, s, base, seen + {id}, base, seen);
  }

  lemma SetAsideAddsNothing(m: map<Key, Item>, id: string, s: Symbol, base: nat, seen: set<string>)
    requires id in seen
    ensures Sum(m - {Order(id)}, s, base, seen) == Sum(m, s, base, seen)
  {
    var k := Order(id);
    if k in m { SumTakesAny(m, k, s, base, seen); } else { assert m - {k} == m; }
  }

  /** The forward pass over two dictionaries is the backward reading, whatever is set aside. */
  lemma {:induction false} ReplayIsNet(log: seq<Record>, n: nat, s: Symbol, seen: set<string>)
    requires n <= |log|
    ensures var d := ReadAll(log, n);
      ResetTo(d, s) + Sum(d.byOrder, s, ResetAt(d, s), seen) == Net(log, n, s, seen)
  {
    if n > 0 {
      var r, before, d := log[n - 1], ReadAll(log, n - 1), ReadAll(log, n);
      var m, base := before.byOrder, ResetAt(before, s);
      NumbersAreOld(log, n - 1);
      ReplayIsNet(log, n - 1, s, seen);
      if Resets(r, s) {
        SumOfNothing(m, s, n, seen);
      } else if r.Fill? {
        var k := KeyOf(r, n);
        SumUpdates(m, k, Item(r.symbol, Signed(r), n), s, base, seen);
        if IsReport(r) {
          if r.order.value in seen {
            SetAsideAddsNothing(m, r.order.value, s, base, seen);
          } else {
            ReplayIsNet(log, n - 1, s, seen + {r.order.value});
            SumSetsAside(m, r.order.value, s, base, seen);
          }
        } else {
          assert m - {k} == m;
        }
      }
    }
  }

  // ------------------------------------------------------------------------
  // The replay itself
  // ------------------------------------------------------------------------

  function Held(net: map<Symbol, real>, s: Symbol): real { if s in net then net[s] else 0.0 }

  lemma SomeKey(m: map<Key, Item>)
    requires m != map[]
    ensures exists k :: k in m.Keys
  {
    var q := SumUnfolds(m, "", 0, {});
  }

  const DUST := 0.000000001

  /** `expected_positions`: every symbol whose replayed net is more than dust, and that net. */
  method ExpectedPositions(log: seq<Record>) returns (net: map<Symbol, real>)
    ensures forall s :: s in net <==> Position(log, s) > 0.000000001 || Position(log, s) < -0.000000001
    ensures forall s :: s in net ==> net[s] == Position(log, s)
  {
    var d := Replayed(map[], map[]);
    for n := 0 to |log|
      invariant d == ReadAll(log, n)
    {
      d := Take(d, log[n], n + 1);
    }
    net := map s | s in d.reset :: d.reset[s].1;
    var left := d.byOrder;
    while left != map[]
      invariant forall k :: k in left ==> k in d.byOrder && left[k] == d.byOrder[k]
      invariant forall s :: Held(net, s) + Sum(left, s, ResetAt(d, s), {}) == ResetTo(d, s) + Sum(d.byOrder, s, ResetAt(d, s), {})
      decreases |left|
    {
      SomeKey(left);
      var k :| k in left.Keys;
      var i := left[k];
      Shrinks(left, k);
      forall s ensures Sum(left, s, ResetAt(d, s), {}) == Adds(k, i, s, ResetAt(d, s), {}) + Sum(left - {k}, s, ResetAt(d, s), {}) {
        SumTakesAny(left, k, s, ResetAt(d, s), {});
      }
      if i.seqNo >= ResetAt(d, i.symbol) {
        net := net[i.symbol := Held(net, i.symbol) + i.qty];
      }
      left := left - {k};
    }
    forall s ensures Held(net, s) == Position(log, s) { ReplayIsNet(log, |log|, s, {}); }
    net := map s | s in net && Abs(net[s]) > DUST :: net[s];
  }

  // ------------------------------------------------------------------------
  // What can be missing from a file, or be in it twice
  // ------------------------------------------------------------------------

  /** The last of the first `n` records to report the order, if it comes after every reset of `s`. */
  ghost function LiveReport(log: seq<Record>, n: nat, s: Symbol, order: string): Option<Record>
    requires n <= |log|
  {
    if n == 0 || Resets(log[n - 1], s) then None
    else if Reports(log[n - 1], order) then Some(log[n - 1])
    else LiveReport(log, n - 1, s, order)
  }

  ghost function Counted(r: Option<Record>, s: Symbol): real {
    if r.Some? && r.value.Fill? && r.value.symbol == s then Signed(r.value) else 0.0
  }

  /** Setting one more order aside takes exactly its live report away. */
  lemma {:induction false} NetWithout(log: seq<Record>, n: nat, s: Symbol, seen: set<string>, order: string)
    requires n <= |log| && order !in seen
    ensures Net(log, n, s, seen) == Net(log, n, s, seen + {order}) + Counted(LiveReport(log, n, s, order), s)
  {
    if n > 0 && !Resets(log[n - 1], s) {
      var r := log[n - 1];
      if Reports(r, order) {
      } else if IsReport(r) && r.order.value !in seen {
        NetWithout(log, n - 1, s, seen + {r.order.value}, order);
        assert seen + {r.order.value} + {order} == seen + {order} + {r.order.value};
      } else {
        NetWithout(log, n - 1, s, seen, order);
      }
    }
  }

  lemma {:induction false} NetOfPrefix(log: seq<Record>, more: seq<Record>, n: nat, s: Symbol, seen: set<string>)
    requires n <= |log|
    ensures Net(log + more, n, s, seen) == Net(log, n, s, seen)
  {
    if n > 0 {
      var r := log[n - 1];
      assert (log + more)[n - 1] == r;
      NetOfPrefix(log, more, n - 1, s, seen);
      if IsReport(r) { NetOfPrefix(log, more, n - 1, s, seen + {r.order.value}); }
    }
  }

  lemma PositionSnoc(log: seq<Record>, r: Record, s: Symbol)
    requires IsReport(r)
    ensures Position(log + [r], s) == Counted(Some(r), s) + Net(log, |log|, s, {r.order.value})
  {
    NetOfPrefix(log, [r], |log|, s, {r.order.value});
    assert {} + {r.order.value} == {r.order.value};
  }

  lemma NetOfLog(log: seq<Record>, r: Record, s: Symbol, seen: set<string>)
    ensures Net(log + [r], |log|, s, seen) == Net(log, |log|, s, seen)
  {
    NetOfPrefix(log, [r], |log|, s, seen);
  }

  /**
    What one more line does to a position. A close or a flatten makes it zero and an
    adoption what was adopted, short below zero; a fill of its own line adds what was
    bought or takes off what was sold; a cumulative report of an order not reported before
    does the same; a line about another symbol does nothing unless it reports an order again.
  */
  lemma PositionAfter(log: seq<Record>, r: Record, s: Symbol)
    ensures var before, after := Position(log, s), Position(log + [r], s);
      var repeats := IsRepeat(log, r);
      && (r.Header? || (r.symbol != s && !repeats) ==> after == before)
      && ((r.Close? || r.Flattened?) && r.symbol == s ==> after == 0.0)
      && (r.Adopt? && r.symbol == s ==> after == (if (r.qty >= 0.0) == r.short then -r.qty else r.qty))
      && (r.Fill? && r.symbol == s && !repeats ==> after == (if r.short then before - r.qty else before + r.qty))
  {
    NetOfLog(log, r, s, {});
    if IsReport(r) {
      PositionSnoc(log, r, s);
      if !IsRepeat(log, r) {
        NetOfOthers(log, |log|, s, {}, r.order.value);
        assert {} + {r.order.value} == {r.order.value};
      }
    }
  }

  /** A running total of an order that has been reported before. */
  ghost predicate IsRepeat(log: seq<Record>, r: Record) {
    && r.Fill? && r.cumulative && r.order.Some?
    && exists k :: 0 <= k < |log| && log[k].Fill? && log[k].cumulative && log[k].order == r.order
  }

  /** Setting aside an order that was never reported changes nothing. */
  lemma {:induction false} NetOfOthers(log: seq<Record>, n: nat, s: Symbol, seen: set<string>, order: string)
    requires n <= |log| && forall k :: 0 <= k < n ==> !Reports(log[k], order)
    ensures Net(log, n, s, seen) == Net(log, n, s, seen + {order})
  {
    if n > 0 {
      var r := log[n - 1];
      NetOfOthers(log, n - 1, s, seen, order);
      if IsReport(r) {
        assert r.order.value != order;
        NetOfOthers(log, n - 1, s, seen + {r.order.value}, order);
        assert seen + {r.order.value} + {order} == seen + {order} + {r.order.value};
      }
    }
  }

  /**
    A report repeated at the end of the file. The position is unchanged exactly when the
    order's live report already counts the same: so a duplicated event is harmless while
    no close, flatten or adoption of the symbol has come in between, and a report of a
    position since closed brings it back.
  */
  lemma RepeatedReport(log: seq<Record>, r: Record, s: Symbol)
    requires IsReport(r)
    ensures Position(log + [r], s) == Position(log, s) <==> Counted(LiveReport(log, |log|, s, r.order.value), s) == Counted(Some(r), s)
  {
    PositionSnoc(log, r, s);
    NetWithout(log, |log|, s, {}, r.order.value);
    assert {} + {r.order.value} == {r.order.value};
  }

  lemma {:induction false} LiveSinceReset(log: seq<Record>, at: nat, n: nat, s: Symbol, order: string)
    requires at < n <= |log| && Reports(log[at], order) && !Resets(log[at], s)
    requires forall k :: at < k < n ==> !Resets(log[k], s) && !Reports(log[k], order)
    ensures LiveReport(log, n, s, order) == Some(log[at])
  {
    if n > at + 1 { LiveSinceReset(log, at, n - 1, s, order); }
  }

  lemma {:induction false} DeadAfterReset(log: seq<Record>, at: nat, n: nat, s: Symbol, order: string)
    requires at < n <= |log| && Resets(log[at], s)
    requires forall k :: at < k < n ==> !Reports(log[k], order)
    ensures LiveReport(log, n, s, order) == None
  {
    if n > at + 1 { DeadAfterReset(log, at, n - 1, s, order); }
  }

  /** Replaying an order's last report is harmless if and only if its symbol was not reset since. */
  lemma DuplicateIsHarmless(log: seq<Record>, at: nat)
    requires at < |log| && IsReport(log[at]) && log[at].qty != 0.0
    requires forall k :: at < k < |log| ==> !Reports(log[k], log[at].order.value)
    ensures Position(log + [log[at]], log[at].symbol) == Position(log, log[at].symbol)
      <==> forall k :: at < k < |log| ==> !Resets(log[k], log[at].symbol)
  {
    var r := log[at];
    RepeatedReport(log, r, r.symbol);
    if k :| at < k < |log| && Resets(log[k], r.symbol) {
      DeadAfterReset(log, k, |log|, r.symbol, r.order.value);
    } else {
      LiveSinceReset(log, at, |log|, r.symbol, r.order.value);
    }
  }

  const BOUGHT := Fill("AAA", false, 1.0, true, Some("1"))

  /** Concretely: a filled and closed position comes back when its fill is reported again. */
  lemma RepeatAfterCloseComesBack()
    ensures Position([BOUGHT, Close("AAA")], "AAA") == 0.0
    ensures Position([BOUGHT, Close("AAA"), BOUGHT], "AAA") == 1.0
  {
    var log := [BOUGHT, Close("AAA")];
    assert log + [BOUGHT] == [BOUGHT, Close("AAA"), BOUGHT];
    assert Resets(log[1], "AAA") && IsReport(BOUGHT);
    PositionSnoc(log, BOUGHT, "AAA");
  }

  const HALF_FILLED := Fill("AAA", false, 5.0, true, Some("1"))
  const FILLED := Fill("AAA", false, 10.0, true, Some("1"))

  /** Concretely: with nothing reset, repeating a report that a later one superseded takes the later one's place. */
  lemma SupersededRepeatRollsBack()
    ensures Position([HALF_FILLED, FILLED], "AAA") == 10.0
    ensures Position([HALF_FILLED, FILLED, HALF_FILLED], "AAA") == 5.0
  {
    var log := [HALF_FILLED, FILLED];
    assert log + [HALF_FILLED] == [HALF_FILLED, FILLED, HALF_FILLED];
    assert IsReport(HALF_FILLED) && IsReport(FILLED) && {} + {"1"} == {"1"};
    PositionSnoc([HALF_FILLED], FILLED, "AAA");
    PositionSnoc(log, HALF_FILLED, "AAA");
    assert [HALF_FILLED] + [FILLED] == log;
    assert Net(log, 1, "AAA", {"1"}) == 0.0 && Net(log, 2, "AAA", {"1"}) == 0.0;
    assert Net([HALF_FILLED], 1, "AAA", {"1"}) == 0.0;
  }

  /** An order already set aside may lose any of its reports. */
  lemma {:induction false} ReportOfSeenOrder(log: seq<Record>, at: nat, n: nat, s: Symbol, seen: set<string>)
    requires at < n <= |log| && IsReport(log[at]) && log[at].order.value in seen
    ensures Net(log, n, s, seen) == Net(log[..at] + log[at + 1..], n - 1, s, seen)
  {
    var without := log[..at] + log[at + 1..];
    if n == at + 1 {
      NetOfPrefix(log[..at], log[at + 1..], at, s, seen);
      NetOfPrefix(log[..at], log[at..], at, s, seen);
      assert log == log[..at] + log[at..];
    } else {
      var r := log[n - 1];
      assert without[n - 2] == r;
      ReportOfSeenOrder(log, at, n - 1, s, seen);
      if IsReport(r) { ReportOfSeenOrder(log, at, n - 1, s, seen + {r.order.value}); }
    }
  }

  lemma {:induction false} SupersededNet(log: seq<Record>, at: nat, later: nat, n: nat, s: Symbol, seen: set<string>)
    requires at < later < n <= |log| && IsReport(log[at]) && Reports(log[later], log[at].order.value)
    ensures Net(log, n, s, seen) == Net(log[..at] + log[at + 1..], n - 1, s, seen)
  {
    var without, r := log[..at] + log[at + 1..], log[n - 1];
    assert without[n - 2] == r;
    if n == later + 1 {
      ReportOfSeenOrder(log, at, n - 1, s, seen + {log[at].order.value});
      if log[at].order.value in seen { ReportOfSeenOrder(log, at, n - 1, s, seen); }
    } else {
      SupersededNet(log, at, later, n - 1, s, seen);
      if IsReport(r) { SupersededNet(log, at, later, n - 1, s, seen + {r.order.value}); }
    }
  }

  /** A report that a later one of the same order supersedes can be missed, wherever it stood. */
  lemma MissedPartialIsHarmless(log: seq<Record>, at: nat, later: nat, s: Symbol)
    requires at < later < |log| && IsReport(log[at]) && Reports(log[later], log[at].order.value)
    ensures Position(log[..at] + log[at + 1..], s) == Position(log, s)
  {
    SupersededNet(log, at, later, |log|, s, {});
  }
}
