/** The order loop over whole runs: safety, exact convergence of the book, and settling. */
module OrderLoopTheorems {
  import opened Options
  import opened OrderLoop
  import opened OrderLoopSafety

  lemma {:induction false} RunKeepsInv(every: int, ws: seq<World>, acts: seq<Action>, k: nat)
    requires IsRun(every, ws, acts) && k < |ws|
    ensures Inv(ws[k], every)
  {
    if k == 0 {
      StartHolds(ws[0], every);
    } else {
      RunKeepsInv(every, ws, acts, k - 1);
      StepKeepsInv(ws[k - 1], every, acts[k - 1]);
    }
  }

  /**
    At every point of every run: at most one handler is in its critical section, the
    queue is served first come first served, orders go out in arrival order, a symbol has
    a second engine entry open only when the broker answered the later one's open-order
    check with "nothing" in place of an error, and sweeps are claimed an interval apart.
  */
  lemma OrderPathSafety(every: int, ws: seq<World>, acts: seq<Action>, k: nat)
    requires IsRun(every, ws, acts) && k < |ws|
    ensures |ws[k].engine.inside| <= 1 && (ws[k].engine.slots > 0 <==> ws[k].engine.inside == [])
    ensures ServedInOrder(ws[k])
    ensures forall i, j :: 0 <= i < j < |ws[k].sent| ==> ws[k].sent[i] < ws[k].sent[j] < |ws[k].arrived|
    ensures OneEntryPerSymbol(ws[k].open, ws[k].erased.entries)
    ensures forall i :: 0 <= i < |ws[k].claims| - 1 ==> ws[k].claims[i + 1] - ws[k].claims[i] >= every
  {
    RunKeepsInv(every, ws, acts, k);
  }

  /** Without erased open-order checks no entry is ever marked as sent after one. */
  lemma {:induction false} NoErasureNoExemption(every: int, ws: seq<World>, acts: seq<Action>, k: nat)
    requires IsRun(every, ws, acts) && k < |ws|
    requires forall i :: 0 <= i < k ==> !acts[i].CheckErased?
    ensures ws[k].erased.entries == {} && !ws[k].erased.check
  {
    if k > 0 {
      NoErasureNoExemption(every, ws, acts, k - 1);
      assert ws[k] == Step(ws[k - 1], every, acts[k - 1]);
    }
  }

  /** A broker that never erases that check keeps one engine entry per symbol outright. */
  lemma HonestChecksMeanOneEntry(every: int, ws: seq<World>, acts: seq<Action>, k: nat, i: OrderId, j: OrderId)
    requires IsRun(every, ws, acts) && k < |ws|
    requires forall n :: 0 <= n < k ==> !acts[n].CheckErased?
    requires i in ws[k].open && j in ws[k].open && ws[k].open[i].engineEntry && ws[k].open[j].engineEntry
    requires ws[k].open[i].symbol == ws[k].open[j].symbol
    ensures i == j
  {
    NoErasureNoExemption(every, ws, acts, k);
    RunKeepsInv(every, ws, acts, k);
  }

  /** What keeps a settled row from being the broker's, basis by basis. */
  ghost predicate Misleads(w: World, s: Symbol) {
    match BasisOf(w.log, s)
    case NeverRead => s in w.held
    case FromSweep => false
    case FromRefresh => s in w.held && w.held[s].qty == 0.0
    case Erased => s in w.held
    case Failed(row) => row != Truth(w.held, s)
    case FromIntent(_, row, blind) => !blind || row != Truth(w.held, s)
  }

  /**
    Any disagreement with the broker, of any symbol at any moment, has a cause: a fill
    unread or an answer not yet written, or a row that rests on something other than a
    true reading of the broker.
  */
  lemma DisagreementIsExplained(every: int, ws: seq<World>, acts: seq<Action>, k: nat, s: Symbol)
    requires IsRun(every, ws, acts) && k < |ws|
    requires !Agree(ws[k], s)
    ensures Pending(ws[k], s) || Misleads(ws[k], s)
    ensures Pending(ws[k], s) || (BasisOf(ws[k].log, s).FromIntent? ==> RestsOnUnfilled(ws[k], s))
  {
    RunKeepsInv(every, ws, acts, k);
    AgreeIsTruth(ws[k], s);
    assert Explained(ws[k], s);
  }

  /** With nothing left to deliver or write, and no fill of `s` lost, the log determines the row. */
  lemma QuiescentBook(every: int, ws: seq<World>, acts: seq<Action>, k: nat, s: Symbol)
    requires IsRun(every, ws, acts) && k < |ws|
    requires Quiescent(ws[k]) && s !in ws[k].erased.missed
    ensures !Pending(ws[k], s)
    ensures Lookup(ws[k].engine.book, s) == SettledRow(BasisOf(ws[k].log, s), ws[k].held, s)
    ensures BasisOf(ws[k].log, s).FromIntent? ==> RestsOnUnfilled(ws[k], s)
  {
    RunKeepsInv(every, ws, acts, k);
    assert Explained(ws[k], s);
  }

  /**
    So the book agrees with the broker on `s` exactly when that row does not mislead: it
    was swept, or refreshed to a quantity other than zero, or never read and the broker is
    flat, and it does not rest on an order of the engine's own that has not filled.
  */
  lemma QuiescentAgreement(every: int, ws: seq<World>, acts: seq<Action>, k: nat, s: Symbol)
    requires IsRun(every, ws, acts) && k < |ws|
    requires Quiescent(ws[k]) && s !in ws[k].erased.missed
    ensures Agree(ws[k], s) <==> !Misleads(ws[k], s)
  {
    RunKeepsInv(every, ws, acts, k);
    AgreeIsTruth(ws[k], s);
    assert Explained(ws[k], s);
  }

  /**
    A sweep written to the book leaves an unread fill or the broker's own quantity, price
    and direction in the row of every symbol held, and no row for any other.
  */
  lemma SweepRestores(every: int, ws: seq<World>, acts: seq<Action>, k: nat, s: Symbol)
    requires IsRun(every, ws, acts) && k < |acts|
    requires acts[k].Write? && ws[k].engine.inside[acts[k].i].job.Sweep?
    ensures BasisOf(ws[k + 1].log, s) == FromSweep && (Agree(ws[k + 1], s) || Unread(ws[k + 1], s))
    ensures !Unread(ws[k + 1], s) ==>
      var book, held := ws[k + 1].engine.book, ws[k + 1].held;
      && (s in book <==> s in held)
      && (s in held ==> book[s].qty == held[s].qty && book[s].price == held[s].avgEntry && (book[s].side == Buy <==> held[s].long))
  {
    RunKeepsInv(every, ws, acts, k);
    RunKeepsInv(every, ws, acts, k + 1);
    AgreeIsTruth(ws[k + 1], s);
    Alone(ws[k], acts[k].i);
    BasisSnoc(ws[k].log, Swept, s);
    assert Explained(ws[k + 1], s);
  }

  /** Once a symbol agrees, an exit on its row's own side is one that closes the position, and no other is. */
  lemma OwnSideCloses(w: World, s: Symbol, side: Side)
    requires s in w.held && Agree(w, s)
    ensures Closes(side, w.held[s]) <==> side == w.engine.book[s].side
  {
  }

  /**
    An entry written as intended and then filled exactly as asked, long for a buy and short
    for a sell, keeps its row when the fill is re-read.
  */
  lemma FilledAsAskedKeepsRow(book: map<Symbol, Entry>, s: Symbol, side: Side, price: real, id: OrderId, qty: real, p: Position)
    requires qty != 0.0 && p == Position(qty, side == Buy, price)
    ensures var intended := Written(book, Running(Enter(s, side, price), Sent(id, qty)));
      Written(intended, Running(Refresh(s), ReadOne(Some(p)))) == intended
  {
  }

  /** Every entry sent, and every row an entry wrote, is for a positive quantity. */
  ghost predicate Sized(w: World) {
    && (forall r :: r in w.engine.inside && r.job.Enter? && r.stage.Sent? ==> r.stage.qty > 0.0)
    && (forall t :: t in w.log && t.Intended? && t.row.Some? ==> t.row.value.qty > 0.0)
  }

  lemma HandlerKeepsSized(w: World, every: int, a: Action)
    requires OneSlot(w) && Sized(w) && Enabled(w, a) && !Outside(a) && !a.Take?
    ensures Sized(Step(w, every, a))
  {
    Alone(w, a.i);
    assert w.engine.inside[a.i] in w.engine.inside;
  }

  lemma StepKeepsSized(w: World, every: int, a: Action)
    requires OneSlot(w) && Sized(w) && Enabled(w, a)
    ensures Sized(Step(w, every, a))
  {
    if Outside(a) {
      assert Step(w, every, a).engine.inside == w.engine.inside && Step(w, every, a).log == w.log;
    } else if !a.Take? {
      HandlerKeepsSized(w, every, a);
    }
  }

  /** So an intended row always asks for something, at every point of every run. */
  lemma {:induction false} IntentsAreSized(every: int, ws: seq<World>, acts: seq<Action>, k: nat)
    requires IsRun(every, ws, acts) && k < |ws|
    ensures forall t :: t in ws[k].log && t.Intended? && t.row.Some? ==> t.row.value.qty > 0.0
    ensures Sized(ws[k])
  {
    if k > 0 {
      IntentsAreSized(every, ws, acts, k - 1);
      RunKeepsInv(every, ws, acts, k - 1);
      StepKeepsSized(ws[k - 1], every, acts[k - 1]);
      assert ws[k] == Step(ws[k - 1], every, acts[k - 1]);
    }
  }

  // ------------------------------------------------------------------------
  // Settling: the engine's own steps run out, and only at quiescence
  // ------------------------------------------------------------------------

  /** A step of work already queued: nothing new arrives from a bar or the timer. */
  predicate Drains(a: Action) {
    !(a.BrokerOpens? || a.BrokerFills? || a.BrokerLapses? || a.Tick? || a.Signal? || a.Timer?)
  }

  function StageWork(r: Running): nat {
    match r.stage
    case Started => 5
    case ReadOne(_) => 4
    case ReadAll(_) => 4
    case NoneOpen => 3
    case Sent(_, _) => 2
  }

  function Work(w: World): nat {
    8 * |w.updates| + 6 * |w.engine.waiters| + (if w.engine.inside == [] then 0 else StageWork(w.engine.inside[0]))
  }

  /** Delivering an update turns it into at most one waiter; losing it, into none. */
  lemma ArrivingDoesWork(w: World, every: int, a: Action)
    requires Enabled(w, a) && (a.Deliver? || a.UpdateLost?)
    ensures Work(Step(w, every, a)) < Work(w)
  {
    assert |w.updates - multiset{a.update}| == |w.updates| - 1;
  }

  lemma HandlingDoesWork(w: World, every: int, a: Action)
    requires Inv(w, every) && Enabled(w, a) && Drains(a) && !a.Deliver? && !a.UpdateLost? && !a.Take?
    ensures Work(Step(w, every, a)) < Work(w)
  {
    Alone(w, a.i);
  }

  lemma DrainingDoesWork(w: World, every: int, a: Action)
    requires Inv(w, every) && Enabled(w, a) && Drains(a)
    ensures Work(Step(w, every, a)) < Work(w)
  {
    if a.Deliver? || a.UpdateLost? { ArrivingDoesWork(w, every, a); }
    else if !a.Take? { HandlingDoesWork(w, every, a); }
  }

  /** No deadlock: while anything is queued, some queued step can be taken. */
  lemma SomethingDrains(w: World, every: int) returns (a: Action)
    requires Inv(w, every) && !Quiescent(w)
    ensures Enabled(w, a) && Drains(a)
  {
    var e := w.engine;
    if e.inside != [] {
      var r := e.inside[0];
      assert r in e.inside && Informed(w, r);
      a := if r.stage == Started then Read(0) else if Finished(r) then Write(0) else Decline(0);
    } else if e.waiters != [] {
      a := Take;
    } else {
      var u :| u in w.updates;
      a := Deliver(u);
    }
  }

  lemma TraceTail(every: int, ws: seq<World>, acts: seq<Action>, n: nat)
    requires IsTrace(every, ws, acts) && n <= |acts|
    ensures IsTrace(every, ws[n..], acts[n..])
  {
    forall k | 0 <= k < |acts[n..]|
      ensures Enabled(ws[n..][k], acts[n..][k]) && ws[n..][k + 1] == Step(ws[n..][k], every, acts[n..][k])
    {
      assert Enabled(ws[n + k], acts[n + k]) && ws[n + k + 1] == Step(ws[n + k], every, acts[n + k]);
    }
  }

  /** However the queued steps are interleaved, there are at most `Work` of them. */
  lemma {:induction false} DrainsAreBounded(every: int, ws: seq<World>, acts: seq<Action>)
    requires IsTrace(every, ws, acts) && Inv(ws[0], every)
    requires forall k :: 0 <= k < |acts| ==> Drains(acts[k])
    ensures |acts| + Work(ws[|acts|]) <= Work(ws[0])
    decreases |acts|
  {
    if acts != [] {
      assert Enabled(ws[0], acts[0]) && Drains(acts[0]) && ws[1] == Step(ws[0], every, acts[0]);
      DrainingDoesWork(ws[0], every, acts[0]);
      StepKeepsInv(ws[0], every, acts[0]);
      TraceTail(every, ws, acts, 1);
      DrainsAreBounded(every, ws[1..], acts[1..]);
    }
  }

  /**
    Convergence. From any point of any run, let the engine finish what is queued in any
    order it likes until nothing queued can move: it stops, it stops only at quiescence,
    and there the book agrees with the broker on every symbol with no fill lost since it
    was last read, exactly when what its row rests on does not mislead. The queued steps
    include reads that raise, reads and checks the broker erases, and updates that get lost.
  */
  lemma BookConverges(every: int, ws: seq<World>, acts: seq<Action>, k: nat, s: Symbol)
    requires IsRun(every, ws, acts) && k < |ws|
    requires forall i :: k <= i < |acts| ==> Drains(acts[i])
    requires forall a :: Drains(a) ==> !Enabled(ws[|acts|], a)
    ensures |acts| - k <= Work(ws[k])
    ensures Quiescent(ws[|acts|])
    ensures s !in ws[|acts|].erased.missed ==> (Agree(ws[|acts|], s) <==> !Misleads(ws[|acts|], s))
  {
    RunKeepsInv(every, ws, acts, k);
    RunKeepsInv(every, ws, acts, |acts|);
    TraceTail(every, ws, acts, k);
    DrainsAreBounded(every, ws[k..], acts[k..]);
    if !Quiescent(ws[|acts|]) {
      var a := SomethingDrains(ws[|acts|], every);
    }
    if s !in ws[|acts|].erased.missed { QuiescentAgreement(every, ws, acts, |acts|, s); }
  }

  /** One more step on the end of a run. */
  lemma Extend(ws: seq<World>, acts: seq<Action>, a: Action, w: World) returns (ws': seq<World>, acts': seq<Action>)
    requires IsRun(0, ws, acts)
    requires Enabled(ws[|acts|], a) && w == Step(ws[|acts|], 0, a)
    ensures IsRun(0, ws', acts') && |ws'| == |acts'| + 1 && ws'[|acts'|] == w
  {
    ws', acts' := ws + [w], acts + [a];
    forall k | 0 <= k < |acts'| ensures Enabled(ws'[k], acts'[k]) && ws'[k + 1] == Step(ws'[k], 0, acts'[k]) {
      if k < |acts| { assert Enabled(ws[k], acts[k]) && ws[k + 1] == Step(ws[k], 0, acts[k]); }
    }
  }

  const JOB := Enter("AAA", Buy, 10.0)
  const ROW := Entry(Buy, 1.0, 10.0)
  const FLAT := Engine(map[], 1, [], [], Some(0))
  const HONEST := Erasures(false, false, {}, {})
  const ORIGIN := World(FLAT, map[], map[], 0, multiset{}, 0, HONEST, [Swept], {}, [], 0, [], [0])

  lemma EntryTakesLock() returns (ws: seq<World>, acts: seq<Action>)
    ensures IsRun(0, ws, acts)
    ensures ws[|acts|] == ORIGIN.(engine := FLAT.(slots := 0, inside := [Running(JOB, Started)]), arrived := [JOB], entered := 1)
  {
    ws, acts := [ORIGIN], [];
    ws, acts := Extend(ws, acts, Signal(JOB), ORIGIN.(engine := FLAT.(waiters := [JOB]), arrived := [JOB]));
    ws, acts := Extend(ws, acts, Take, ORIGIN.(engine := FLAT.(slots := 0, inside := [Running(JOB, Started)]), arrived := [JOB], entered := 1));
  }

  /** A flat start at which one buy signal has taken the lock and read the broker. */
  lemma EntryReadsFlat() returns (ws: seq<World>, acts: seq<Action>)
    ensures IsRun(0, ws, acts)
    ensures ws[|acts|] == ORIGIN.(engine := FLAT.(slots := 0, inside := [Running(JOB, ReadOne(None))]), arrived := [JOB], entered := 1)
  {
    ws, acts := EntryTakesLock();
    ws, acts := Extend(ws, acts, Read(0),
      ORIGIN.(engine := FLAT.(slots := 0, inside := [Running(JOB, ReadOne(None))]), arrived := [JOB], entered := 1));
  }

  /** The world after one entry has been sent and its intent written to the book. */
  const RECORDED := ORIGIN.(
    engine := FLAT.(book := map["AAA" := ROW]), open := map[0 := Order("AAA", true)], nextId := 1,
    log := [Swept, Intended("AAA", 0, Some(ROW), false)], arrived := [JOB], entered := 1, sent := [0])

  lemma EntryIsSent() returns (ws: seq<World>, acts: seq<Action>)
    ensures IsRun(0, ws, acts)
    ensures ws[|acts|] == RECORDED.(engine := FLAT.(slots := 0, inside := [Running(JOB, Sent(0, 1.0))]), log := [Swept])
  {
    ws, acts := EntryReadsFlat();
    var w := ws[|acts|].(engine := FLAT.(slots := 0, inside := [Running(JOB, NoneOpen)]));
    ws, acts := Extend(ws, acts, CheckOpen(0), w);
    ws, acts := Extend(ws, acts, SubmitEntry(0, 1.0), RECORDED.(engine := FLAT.(slots := 0, inside := [Running(JOB, Sent(0, 1.0))]), log := [Swept]));
  }

  /** The order goes out and its intent is written to the book. */
  lemma EntryIsRecorded() returns (ws: seq<World>, acts: seq<Action>)
    ensures IsRun(0, ws, acts)
    ensures ws[|acts|] == RECORDED
  {
    ws, acts := EntryIsSent();
    ws, acts := Extend(ws, acts, Write(0), RECORDED);
  }

  /**
    The exception is real: an entry the venue cancels unfilled leaves a book row for a
    position nobody holds. The cancel is delivered, but only fills cause a re-read.
  */
  lemma CancelledEntryLeavesPhantom() returns (ws: seq<World>, acts: seq<Action>)
    ensures IsRun(0, ws, acts)
    ensures var w := ws[|acts|]; Quiescent(w) && w.open == map[] && w.held == map[] && "AAA" in w.engine.book && !Agree(w, "AAA")
                                 && w.erased == HONEST && RestsOnUnfilled(w, "AAA")
  {
    ws, acts := EntryIsRecorded();
    var u := Update("AAA", OtherEvent, 0.0);
    ws, acts := Extend(ws, acts, BrokerLapses(0), RECORDED.(open := map[], updates := multiset{u}));
    ws, acts := Extend(ws, acts, Deliver(u), RECORDED.(open := map[]));
    assert BasisOf(RECORDED.log, "AAA") == FromIntent(0, Some(ROW), false);
  }

  const HOLDING := Position(1.0, true, 10.0)
  const FILLED := Update("AAA", FillEvent, 1.0)
  const REFRESH := Refresh("AAA")

  const HELD := RECORDED.(held := map["AAA" := HOLDING], open := map[], filled := {0})

  lemma EntryIsFilled() returns (ws: seq<World>, acts: seq<Action>)
    ensures IsRun(0, ws, acts)
    ensures ws[|acts|] == HELD.(updates := multiset{FILLED})
  {
    ws, acts := EntryIsRecorded();
    ws, acts := Extend(ws, acts, BrokerFills(0, Some(HOLDING), true, 1.0), HELD.(updates := multiset{FILLED}));
  }

  lemma FillIsQueued() returns (ws: seq<World>, acts: seq<Action>)
    ensures IsRun(0, ws, acts)
    ensures ws[|acts|] == HELD.(engine := RECORDED.engine.(waiters := [REFRESH]), arrived := [JOB, REFRESH])
  {
    ws, acts := EntryIsFilled();
    ws, acts := Extend(ws, acts, Deliver(FILLED), HELD.(engine := RECORDED.engine.(waiters := [REFRESH]), arrived := [JOB, REFRESH]));
  }

  /** The entry fills and its refresh takes the lock. */
  lemma FillIsDelivered() returns (ws: seq<World>, acts: seq<Action>)
    ensures IsRun(0, ws, acts)
    ensures ws[|acts|] == HELD.(
      engine := RECORDED.engine.(slots := 0, inside := [Running(REFRESH, Started)]), arrived := [JOB, REFRESH], entered := 2)
  {
    ws, acts := FillIsQueued();
    ws, acts := Extend(ws, acts, Take, HELD.(
      engine := RECORDED.engine.(slots := 0, inside := [Running(REFRESH, Started)]), arrived := [JOB, REFRESH], entered := 2));
  }

  /**
    An erased read is an exception of its own: the broker answers "no position" for a read
    that failed, the refresh drops the row of a position that is held, every order has
    filled, and nothing is left that would put the row back.
  */
  lemma ErasedRefreshDropsRow() returns (ws: seq<World>, acts: seq<Action>)
    ensures IsRun(0, ws, acts)
    ensures var w := ws[|acts|]; Quiescent(w) && w.erased.missed == {} && "AAA" in w.held && "AAA" !in w.engine.book
                                 && !Agree(w, "AAA") && !RestsOnUnfilled(w, "AAA") && w.filled == {0} && w.nextId == 1
  {
    ws, acts := FillIsDelivered();
    var w := ws[|acts|];
    var read := w.(engine := w.engine.(inside := [Running(REFRESH, ReadOne(None))]), erased := HONEST.(read := true));
    ws, acts := Extend(ws, acts, ReadErased(0), read);
    var log := RECORDED.log + [RefreshErased("AAA")];
    ws, acts := Extend(ws, acts, Write(0), read.(engine := FLAT, log := log));
    BasisSnoc(RECORDED.log, RefreshErased("AAA"), "AAA");
  }

  /** A second signal for the same symbol takes the lock while the first order is still open. */
  lemma SecondEntryReads() returns (ws: seq<World>, acts: seq<Action>)
    ensures IsRun(0, ws, acts)
    ensures ws[|acts|] == RECORDED.(
      engine := RECORDED.engine.(slots := 0, inside := [Running(JOB, ReadOne(None))]), arrived := [JOB, JOB], entered := 2)
  {
    ws, acts := EntryIsRecorded();
    var w := RECORDED.(arrived := [JOB, JOB]);
    ws, acts := Extend(ws, acts, Signal(JOB), w.(engine := RECORDED.engine.(waiters := [JOB])));
    var e := RECORDED.engine.(slots := 0, inside := [Running(JOB, Started)]);
    ws, acts := Extend(ws, acts, Take, w.(engine := e, entered := 2));
    ws, acts := Extend(ws, acts, Read(0), w.(engine := e.(inside := [Running(JOB, ReadOne(None))]), entered := 2));
  }

  /** So is an erased check: two engine entries end up open for one symbol. */
  lemma ErasedCheckDoublesEntry() returns (ws: seq<World>, acts: seq<Action>)
    ensures IsRun(0, ws, acts)
    ensures ws[|acts|].open == map[0 := Order("AAA", true), 1 := Order("AAA", true)]
  {
    ws, acts := SecondEntryReads();
    var w := ws[|acts|];
    var checked := w.(engine := w.engine.(inside := [Running(JOB, NoneOpen)]), erased := HONEST.(check := true));
    ws, acts := Extend(ws, acts, CheckErased(0), checked);
    var sent := checked.(
      engine := w.engine.(inside := [Running(JOB, Sent(1, 1.0))]),
      open := map[0 := Order("AAA", true), 1 := Order("AAA", true)], nextId := 2,
      erased := HONEST.(check := true, entries := {1}), sent := [0, 1]);
    ws, acts := Extend(ws, acts, SubmitEntry(0, 1.0), sent);
  }
}
