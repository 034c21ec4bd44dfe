/**
  What every interleaving of the order loop keeps: one handler in its critical section,
  handlers served in arrival order, a second engine entry open for a symbol only after an
  erased open-order check, sweeps spaced by the interval, and a book row for every symbol
  that its latest deciding event determines, up to fills not yet read.
*/
module OrderLoopSafety {
  import opened Options
  import opened OrderLoop

  // ------------------------------------------------------------------------
  // The statements
  // ------------------------------------------------------------------------

  /** The row adopting the broker's position gives; a sweep writes it. */
  function Truth(held: map<Symbol, Position>, s: Symbol): Option<Entry> {
    if s in held then Some(Adopted(held[s])) else None
  }

  /** The row a refresh writes: a zero quantity counts as flat. */
  function Seen(held: map<Symbol, Position>, s: Symbol): Option<Entry> {
    if s in held && held[s].qty != 0.0 then Some(Adopted(held[s])) else None
  }

  /** A row shows a position: its quantity, its average entry price, and which way it points. */
  predicate Shows(row: Entry, p: Position) {
    row.qty == p.qty && row.price == p.avgEntry && (row.side == Buy <==> p.long)
  }

  /** The book has a row for `s` exactly when the broker holds it, and the row shows the position. */
  predicate Agree(w: World, s: Symbol) {
    (s in w.engine.book <==> s in w.held) && (s in w.held ==> Shows(w.engine.book[s], w.held[s]))
  }

  /** What is adopted is the one row that shows the position. */
  lemma AdoptedShows(row: Entry, p: Position)
    ensures Shows(row, p) <==> row == Adopted(p)
  {
  }

  /** Adopting a whole book gives a row for each position, showing it, and no other row. */
  lemma AdoptAllShows(all: map<Symbol, Position>)
    ensures AdoptAll(all).Keys == all.Keys && forall s :: s in all ==> Shows(AdoptAll(all)[s], all[s])
  {
  }

  /** So agreeing is having the row that adopting the position gives. */
  lemma AgreeIsTruth(w: World, s: Symbol)
    ensures Agree(w, s) <==> Lookup(w.engine.book, s) == Truth(w.held, s)
  {
    if s in w.held && s in w.engine.book { AdoptedShows(w.engine.book[s], w.held[s]); }
  }

  /** A fill of `s` has been reported, its refresh queued, or its report lost, and the broker not yet re-read. */
  ghost predicate Unread(w: World, s: Symbol) {
    || (exists u :: u in w.updates && IsFill(u) && u.symbol == s)
    || Refresh(s) in w.engine.waiters
    || Running(Refresh(s), Started) in w.engine.inside
    || s in w.erased.missed
  }

  /** An answer that covers `s` is in hand and not yet written to the book. */
  predicate InHand(r: Running, s: Symbol) {
    (r.job == Refresh(s) && r.stage.ReadOne?) || (r.job == Sweep && r.stage.ReadAll?)
  }

  ghost predicate Pending(w: World, s: Symbol) {
    Unread(w, s) || exists r :: r in w.engine.inside && InHand(r, s)
  }

  datatype Basis =
    | NeverRead
    | FromSweep
    | FromRefresh
    | Erased
    | Failed(row: Option<Entry>)
    | FromIntent(id: OrderId, row: Option<Entry>, blind: bool)

  /** What one event makes of the book's row for `s`, if it touches it. */
  function BasisOfTouch(t: Touch, s: Symbol): Option<Basis> {
    match t
    case Swept => Some(FromSweep)
    case Refreshed(x) => if x == s then Some(FromRefresh) else None
    case RefreshErased(x) => if x == s then Some(Erased) else None
    case RefreshFailed(x, row) => if x == s then Some(Failed(row)) else None
    case Intended(x, id, row, blind) => if x == s then Some(FromIntent(id, row, blind)) else None
  }

  /** What the book's row for `s` rests on: the latest event that decided it. */
  function BasisOf(log: seq<Touch>, s: Symbol): Basis {
    if log == [] then NeverRead else
      var now := BasisOfTouch(log[|log| - 1], s);
      if now.Some? then now.value else BasisOf(log[..|log| - 1], s)
  }

  /** The row that basis gives, once nothing of `s` is pending. */
  function SettledRow(b: Basis, held: map<Symbol, Position>, s: Symbol): Option<Entry> {
    match b
    case NeverRead => None
    case FromSweep => Truth(held, s)
    case FromRefresh => Seen(held, s)
    case Erased => None
    case Failed(row) => row
    case FromIntent(_, row, _) => row
  }

  /** The book rests on an order of the engine's own that has never filled, even in part. */
  ghost predicate RestsOnUnfilled(w: World, s: Symbol) {
    BasisOf(w.log, s).FromIntent? && BasisOf(w.log, s).id !in w.filled
  }

  predicate Quiescent(w: World) {
    w.updates == multiset{} && w.engine.waiters == [] && w.engine.inside == []
  }

  ghost predicate OneSlot(w: World) {
    w.engine.slots + |w.engine.inside| == 1
  }

  /** Handlers enter the critical section in the order they queued for it. */
  ghost predicate ServedInOrder(w: World) {
    && w.entered <= |w.arrived|
    && w.engine.waiters == w.arrived[w.entered..]
    && (forall r :: r in w.engine.inside ==> w.entered > 0 && r.job == w.arrived[w.entered - 1])
  }

  ghost predicate SentInOrder(w: World) {
    && (forall k :: 0 <= k < |w.sent| ==> w.sent[k] < w.entered)
    && (forall j, k :: 0 <= j < k < |w.sent| ==> w.sent[j] < w.sent[k])
    && (forall r :: r in w.engine.inside && !r.stage.Sent? ==> forall k :: 0 <= k < |w.sent| ==> w.sent[k] < w.entered - 1)
  }

  /** Of two engine entries open for one symbol, the later was sent after an erased check. */
  ghost predicate OneEntryPerSymbol(open: map<OrderId, Order>, afterErasure: set<OrderId>) {
    forall i, j :: i in open && j in open && i < j && open[i].engineEntry && open[j].engineEntry && open[i].symbol == open[j].symbol
      ==> j in afterErasure
  }

  ghost predicate SweepsSpaced(w: World, every: int) {
    && (forall k :: 0 <= k < |w.claims| - 1 ==> w.claims[k + 1] - w.claims[k] >= every)
    && (w.claims == [] <==> w.engine.lastReconcile.None?)
    && (w.claims != [] ==> w.engine.lastReconcile == Some(w.claims[|w.claims| - 1]) && w.claims[|w.claims| - 1] <= w.clock)
  }

  // ------------------------------------------------------------------------
  // The inductive invariant
  // ------------------------------------------------------------------------

  ghost predicate NoEngineEntry(open: map<OrderId, Order>, s: Symbol) {
    forall id :: id in open && open[id].engineEntry ==> open[id].symbol != s
  }

  /** A position read describes the broker, unless it was erased or a fill is unread. */
  ghost predicate Answered(w: World, s: Symbol, found: Option<Position>) {
    && (w.erased.read ==> found.None?)
    && (w.erased.read || found == Lookup(w.held, s) || Unread(w, s))
  }

  /** What a handler inside the critical section knows about the broker. */
  ghost predicate Informed(w: World, r: Running) {
    match r
    case Running(Refresh(s), ReadOne(found)) => Answered(w, s, found)
    case Running(Sweep, ReadAll(all)) => forall s :: Lookup(all, s) == Lookup(w.held, s) || Unread(w, s)
    case Running(Enter(s, _, _), ReadOne(found)) => Answered(w, s, found)
    case Running(Enter(s, _, _), NoneOpen) =>
      (w.erased.check || NoEngineEntry(w.open, s)) && (w.erased.read || s !in w.held || Unread(w, s))
    case Running(Enter(s, _, _), Sent(id, _)) =>
      id < w.nextId && (w.erased.read || s !in w.held || Unread(w, s)) && (id in w.filled ==> Unread(w, s))
    case Running(Exit(s, _), ReadOne(found)) => Answered(w, s, found)
    case Running(Exit(s, _), Sent(id, _)) =>
      id < w.nextId && !w.erased.read && (s in w.held || Unread(w, s)) && (id in w.filled ==> Unread(w, s))
    case Running(_, stage) => stage == Started && !w.erased.read
  }

  ghost predicate OwnOrder(w: World, s: Symbol, id: OrderId) {
    id < w.nextId && (id in w.open ==> w.open[id].symbol == s)
  }

  ghost predicate SentOwn(w: World, r: Running) {
    match r
    case Running(Enter(s, _, _), Sent(id, _)) => OwnOrder(w, s, id)
    case Running(Exit(s, _), Sent(id, _)) => OwnOrder(w, s, id)
    case _ => true
  }

  /** An order not yet filled leaves the row it wrote a guess, and a wrong one unless its own read was erased. */
  ghost predicate Guess(w: World, b: Basis, s: Symbol)
    requires b.FromIntent?
  {
    OwnOrder(w, s, b.id) && (Pending(w, s) || (b.id !in w.filled && (b.blind || b.row != Truth(w.held, s))))
  }

  ghost predicate Explained(w: World, s: Symbol) {
    var b := BasisOf(w.log, s);
    && (Lookup(w.engine.book, s) == SettledRow(b, w.held, s) || ((b.FromSweep? || b.FromRefresh?) && Pending(w, s)))
    && (b.FromIntent? ==> Guess(w, b, s))
  }

  ghost predicate BrokerOk(w: World) {
    && (forall id :: id in w.open ==> id < w.nextId)
    && (forall id :: id in w.filled ==> id < w.nextId)
  }

  ghost predicate Inv(w: World, every: int) {
    && OneSlot(w) && ServedInOrder(w) && SentInOrder(w)
    && OneEntryPerSymbol(w.open, w.erased.entries) && SweepsSpaced(w, every) && BrokerOk(w)
    && (forall r :: r in w.engine.inside ==> Informed(w, r) && SentOwn(w, r))
    && (forall s :: Explained(w, s))
  }

  // ------------------------------------------------------------------------
  // Every step keeps it
  // ------------------------------------------------------------------------

  lemma StartHolds(w: World, every: int)
    requires Start(w)
    ensures Inv(w, every)
  {
  }

  /** An action of the broker, of the clock, or of a handler still arriving. */
  predicate Outside(a: Action) {
    a.BrokerOpens? || a.BrokerFills? || a.BrokerLapses? || a.UpdateLost? || a.Tick? || a.Signal? || a.Timer? || a.Deliver?
  }

  /** While the slot is taken, exactly one handler is inside; leaving empties the section. */
  lemma Alone(w: World, i: nat)
    requires OneSlot(w) && i < |w.engine.inside|
    ensures i == 0 && w.engine.inside == [w.engine.inside[0]] && Leave(w.engine, i).inside == []
  {
  }

  lemma StepKeepsOneSlot(w: World, every: int, a: Action)
    requires OneSlot(w) && Enabled(w, a)
    ensures OneSlot(Step(w, every, a))
  {
  }

  /** What arrives joins the queue's end; nothing outside the lock enters or leaves it. */
  lemma ArrivalsQueue(w: World, every: int, a: Action)
    requires OneSlot(w) && ServedInOrder(w) && Enabled(w, a) && Outside(a)
    ensures var w' := Step(w, every, a);
      && w'.engine.inside == w.engine.inside && w'.entered == w.entered
      && w.arrived <= w'.arrived && w'.engine.waiters == w.engine.waiters + w'.arrived[|w.arrived|..]
  {
  }

  lemma ArrivalKeepsService(w: World, every: int, a: Action)
    requires OneSlot(w) && ServedInOrder(w) && Enabled(w, a) && Outside(a)
    ensures ServedInOrder(Step(w, every, a))
  {
    var w' := Step(w, every, a);
    ArrivalsQueue(w, every, a);
    assert w'.arrived == w.arrived + w'.arrived[|w.arrived|..];
  }

  lemma TakeKeepsService(w: World, every: int, a: Action)
    requires OneSlot(w) && ServedInOrder(w) && Enabled(w, a) && a.Take?
    ensures ServedInOrder(Step(w, every, a))
  {
    assert Step(w, every, a).engine.inside == [Running(w.engine.waiters[0], Started)];
  }

  lemma StepKeepsService(w: World, every: int, a: Action)
    requires OneSlot(w) && ServedInOrder(w) && Enabled(w, a)
    ensures ServedInOrder(Step(w, every, a))
  {
    if Outside(a) { ArrivalKeepsService(w, every, a); }
    else if a.Take? { TakeKeepsService(w, every, a); }
    else { Alone(w, a.i); }
  }

  lemma SubmitKeepsSending(w: World, every: int, a: Action)
    requires OneSlot(w) && ServedInOrder(w) && SentInOrder(w) && Enabled(w, a) && (a.SubmitEntry? || a.SubmitClose?)
    ensures SentInOrder(Step(w, every, a))
  {
    Alone(w, a.i);
    assert w.engine.inside[a.i] in w.engine.inside;
  }

  lemma StepKeepsSending(w: World, every: int, a: Action)
    requires OneSlot(w) && ServedInOrder(w) && SentInOrder(w) && Enabled(w, a)
    ensures SentInOrder(Step(w, every, a))
  {
    if a.SubmitEntry? || a.SubmitClose? {
      SubmitKeepsSending(w, every, a);
    } else if a.Take? {
      assert Step(w, every, a).engine.inside == [Running(w.engine.waiters[0], Started)];
    } else if Outside(a) {
      ArrivalsQueue(w, every, a);
    } else {
      Alone(w, a.i);
    }
  }

  lemma StepKeepsOneEntry(w: World, every: int, a: Action)
    requires Inv(w, every) && Enabled(w, a)
    ensures OneEntryPerSymbol(Step(w, every, a).open, Step(w, every, a).erased.entries)
  {
    if a.SubmitEntry? { assert Informed(w, w.engine.inside[a.i]); }
  }

  /** Only the timer claims a sweep, and only a tick moves the clock. */
  lemma OthersLeaveClaims(w: World, every: int, a: Action)
    requires Enabled(w, a) && !a.Timer? && !a.Tick?
    ensures var w' := Step(w, every, a);
      w'.claims == w.claims && w'.clock == w.clock && w'.engine.lastReconcile == w.engine.lastReconcile
  {
  }

  lemma StepKeepsSpacing(w: World, every: int, a: Action)
    requires SweepsSpaced(w, every) && Enabled(w, a)
    ensures SweepsSpaced(Step(w, every, a), every)
  {
    if !a.Timer? && !a.Tick? { OthersLeaveClaims(w, every, a); }
  }

  lemma StepKeepsBroker(w: World, every: int, a: Action)
    requires BrokerOk(w) && Enabled(w, a)
    ensures BrokerOk(Step(w, every, a))
  {
  }

  lemma ArrivalsKeepUnread(w: World, every: int, a: Action, s: Symbol)
    requires Inv(w, every) && Enabled(w, a) && Outside(a) && Unread(w, s)
    ensures Unread(Step(w, every, a), s)
  {
    var w' := Step(w, every, a);
    ArrivalsQueue(w, every, a);
    if u :| u in w.updates && IsFill(u) && u.symbol == s {
      assert u in w'.updates || (a.Deliver? && a.update == u) || (a.UpdateLost? && a.update == u);
    }
  }

  /** A step that reads the broker, or tries to, for the row of `s`. */
  ghost predicate Reads(w: World, a: Action, s: Symbol)
    requires Enabled(w, a)
  {
    || ((a.Read? || a.ReadErased? || a.ReadFails?) && w.engine.inside[a.i] == Running(Refresh(s), Started))
    || (a.Read? && w.engine.inside[a.i] == Running(Sweep, Started))
  }

  /** Only a refresh of `s` that reads, or fails to, or a sweep that reads, settles an unread fill. */
  lemma UnreadLasts(w: World, every: int, a: Action, s: Symbol)
    requires Inv(w, every) && Enabled(w, a) && Unread(w, s)
    ensures Unread(Step(w, every, a), s) || Reads(w, a, s)
  {
    if Outside(a) { ArrivalsKeepUnread(w, every, a, s); }
    else if !a.Take? { Alone(w, a.i); }
  }

  lemma FillUnread(w: World, every: int, a: Action)
    requires Enabled(w, a) && a.BrokerFills?
    ensures Unread(Step(w, every, a), w.open[a.id].symbol)
    ensures forall t :: t != w.open[a.id].symbol ==> Lookup(Step(w, every, a).held, t) == Lookup(w.held, t)
  {
    var u := Update(w.open[a.id].symbol, if a.complete then FillEvent else PartialFillEvent, a.qty);
    assert u in Step(w, every, a).updates && IsFill(u);
  }

  /** What a handler knows survives a change of the world that a fill does not leave unread. */
  lemma KnowledgeLasts(w: World, w': World, r: Running)
    requires Informed(w, r) && SentOwn(w, r)
    requires w'.erased.read == w.erased.read && w'.erased.check == w.erased.check && w.nextId <= w'.nextId
    requires forall s :: Unread(w, s) ==> Unread(w', s)
    requires forall s :: Lookup(w'.held, s) == Lookup(w.held, s) || Unread(w', s)
    requires forall id :: id in w'.open && (id < w.nextId || w'.open[id].engineEntry) ==> id in w.open && w'.open[id] == w.open[id]
    requires forall id, s :: id in w'.filled && id !in w.filled && OwnOrder(w, s, id) ==> Unread(w', s)
    ensures Informed(w', r) && SentOwn(w', r)
  {
    assert forall s :: (s in w'.held <==> s in w.held) || Unread(w', s);
  }

  lemma OutsideKeepsInformed(w: World, every: int, a: Action, r: Running)
    requires Inv(w, every) && Enabled(w, a) && Outside(a) && r in w.engine.inside
    ensures var w' := Step(w, every, a); Informed(w', r) && SentOwn(w', r)
  {
    var w' := Step(w, every, a);
    forall s | Unread(w, s) ensures Unread(w', s) { UnreadLasts(w, every, a, s); }
    if a.BrokerFills? { FillUnread(w, every, a); }
    assert Informed(w, r) && SentOwn(w, r);
    KnowledgeLasts(w, w', r);
  }

  /** A read answers for the broker as it is, or is erased to "nothing". */
  lemma ReadInforms(w: World, every: int, a: Action)
    requires Inv(w, every) && Enabled(w, a) && (a.Read? || a.ReadErased?)
    ensures var w' := Step(w, every, a); forall r :: r in w'.engine.inside ==> Informed(w', r) && SentOwn(w', r)
  {
    Alone(w, a.i);
    assert Informed(w, w.engine.inside[a.i]);
  }

  /** A handler that goes on holding what it read loses no unread fill doing so. */
  lemma GoingOnKeepsUnread(w: World, every: int, a: Action, s: Symbol)
    requires Inv(w, every) && Enabled(w, a) && Unread(w, s)
    requires a.CheckOpen? || a.CheckErased? || a.SubmitEntry? || a.SubmitClose?
    ensures Unread(Step(w, every, a), s)
  {
    UnreadLasts(w, every, a, s);
  }

  lemma CheckInforms(w: World, every: int, a: Action)
    requires Inv(w, every) && Enabled(w, a) && (a.CheckOpen? || a.CheckErased?)
    ensures var w' := Step(w, every, a); forall r :: r in w'.engine.inside ==> Informed(w', r) && SentOwn(w', r)
  {
    var before := w.engine.inside[a.i];
    Alone(w, a.i);
    assert Informed(w, before);
    if Unread(w, before.job.symbol) { GoingOnKeepsUnread(w, every, a, before.job.symbol); }
    var w' := Step(w, every, a);
    assert w'.engine.inside == [Running(before.job, NoneOpen)] && w'.held == w.held && w'.open == w.open;
  }

  /** What submitting does: the order is new, and open under its own id. */
  lemma SubmitShape(w: World, every: int, a: Action)
    requires Inv(w, every) && Enabled(w, a) && (a.SubmitEntry? || a.SubmitClose?)
    ensures var w', job := Step(w, every, a), w.engine.inside[a.i].job;
      && w'.held == w.held && w'.filled == w.filled && w.nextId !in w.filled && w'.nextId == w.nextId + 1
      && w'.erased.read == w.erased.read
      && w.nextId in w'.open && w'.open[w.nextId].symbol == job.symbol
      && |w'.engine.inside| == 1 && w'.engine.inside[0].job == job
      && w'.engine.inside[0].stage.Sent? && w'.engine.inside[0].stage.id == w.nextId
      && Informed(w, w.engine.inside[a.i])
  {
    Alone(w, a.i);
    assert Informed(w, w.engine.inside[a.i]);
  }

  lemma SubmitInforms(w: World, every: int, a: Action)
    requires Inv(w, every) && Enabled(w, a) && (a.SubmitEntry? || a.SubmitClose?)
    ensures var w' := Step(w, every, a); forall r :: r in w'.engine.inside ==> Informed(w', r) && SentOwn(w', r)
  {
    var before := w.engine.inside[a.i];
    SubmitShape(w, every, a);
    if Unread(w, before.job.symbol) { GoingOnKeepsUnread(w, every, a, before.job.symbol); }
  }

  /** A handler's own step: what it learns, or what it goes on knowing. */
  lemma InsideKeepsInformed(w: World, every: int, a: Action)
    requires Inv(w, every) && Enabled(w, a) && !Outside(a)
    ensures var w' := Step(w, every, a); forall r :: r in w'.engine.inside ==> Informed(w', r) && SentOwn(w', r)
  {
    if a.Read? || a.ReadErased? { ReadInforms(w, every, a); }
    else if a.CheckOpen? || a.CheckErased? { CheckInforms(w, every, a); }
    else if a.SubmitEntry? || a.SubmitClose? { SubmitInforms(w, every, a); }
    else if !a.Take? { Alone(w, a.i); }
  }

  lemma StepKeepsInformed(w: World, every: int, a: Action)
    requires Inv(w, every) && Enabled(w, a)
    ensures var w' := Step(w, every, a); forall r :: r in w'.engine.inside ==> Informed(w', r) && SentOwn(w', r)
  {
    if Outside(a) {
      ArrivalsQueue(w, every, a);
      forall r | r in w.engine.inside ensures Informed(Step(w, every, a), r) && SentOwn(Step(w, every, a), r) {
        OutsideKeepsInformed(w, every, a, r);
      }
    } else {
      InsideKeepsInformed(w, every, a);
    }
  }

  /** A step that settles what is pending for `s`: a write of an answer for it, or a refresh that raised. */
  ghost predicate Settles(w: World, a: Action, s: Symbol)
    requires Enabled(w, a)
  {
    || ((a.Write? || a.ReadFails?) && w.engine.inside[a.i].job == Refresh(s))
    || (a.Write? && w.engine.inside[a.i].job == Sweep)
  }

  /** With an answer for `s` in hand, the next step under the lock writes it. */
  lemma InHandIsWritten(w: World, a: Action, r: Running, s: Symbol)
    requires OneSlot(w) && Enabled(w, a) && r in w.engine.inside && InHand(r, s)
    ensures Outside(a) || Settles(w, a, s)
  {
  }

  lemma InHandLasts(w: World, every: int, a: Action, r: Running, s: Symbol)
    requires Inv(w, every) && Enabled(w, a) && r in w.engine.inside && InHand(r, s) && !Settles(w, a, s)
    ensures r in Step(w, every, a).engine.inside
  {
    InHandIsWritten(w, a, r, s);
    ArrivalsQueue(w, every, a);
  }

  lemma ReadingIsInHand(w: World, every: int, a: Action, s: Symbol)
    requires OneSlot(w) && Enabled(w, a) && Reads(w, a, s) && !a.ReadFails?
    ensures Pending(Step(w, every, a), s)
  {
    Alone(w, a.i);
    var r := Step(w, every, a).engine.inside[a.i];
    assert r in Step(w, every, a).engine.inside && InHand(r, s);
  }

  /** Only writing an answer for `s` into the book, or failing to get one, settles it. */
  lemma PendingLasts(w: World, every: int, a: Action, s: Symbol)
    requires Inv(w, every) && Enabled(w, a) && Pending(w, s)
    ensures Pending(Step(w, every, a), s) || Settles(w, a, s)
  {
    if !Settles(w, a, s) {
      if Unread(w, s) {
        UnreadLasts(w, every, a, s);
        if Reads(w, a, s) { ReadingIsInHand(w, every, a, s); }
      } else {
        var r :| r in w.engine.inside && InHand(r, s);
        InHandLasts(w, every, a, r, s);
      }
    }
  }

  /** The row of `s`, its basis and the broker's side of it are as they were. */
  ghost predicate SameGround(w: World, w': World, s: Symbol) {
    && BasisOf(w'.log, s) == BasisOf(w.log, s) && Lookup(w'.engine.book, s) == Lookup(w.engine.book, s)
    && w'.held == w.held && w'.filled == w.filled
    && w.nextId <= w'.nextId && forall id :: id in w'.open && id < w.nextId ==> id in w.open && w'.open[id] == w.open[id]
  }

  lemma UntouchedExplains(w: World, w': World, s: Symbol)
    requires Explained(w, s) && (Pending(w, s) ==> Pending(w', s))
    requires SameGround(w, w', s)
    ensures Explained(w', s)
  {
  }

  /** Only a write, a fill or a failed refresh touches the book, the holdings or the log. */
  lemma OtherStepsLeaveGround(w: World, every: int, a: Action, s: Symbol)
    requires Enabled(w, a) && !a.Write? && !a.BrokerFills? && !a.ReadFails?
    ensures SameGround(w, Step(w, every, a), s)
  {
  }

  lemma OtherStepsExplain(w: World, every: int, a: Action, s: Symbol)
    requires Inv(w, every) && Enabled(w, a) && !a.Write? && !a.BrokerFills? && !a.ReadFails?
    ensures Explained(Step(w, every, a), s)
  {
    assert Explained(w, s);
    if Pending(w, s) { PendingLasts(w, every, a, s); }
    OtherStepsLeaveGround(w, every, a, s);
    UntouchedExplains(w, Step(w, every, a), s);
  }

  lemma BasisSnoc(log: seq<Touch>, t: Touch, s: Symbol)
    ensures BasisOf(log + [t], s) == if BasisOfTouch(t, s).Some? then BasisOfTouch(t, s).value else BasisOf(log, s)
  {
    assert (log + [t])[..|log|] == log;
  }

  /** What a write does to the world, its touch apart. */
  lemma WriteShape(w: World, every: int, a: Action)
    requires Inv(w, every) && Enabled(w, a) && a.Write?
    ensures var w', r := Step(w, every, a), w.engine.inside[a.i];
      && w'.held == w.held && w'.open == w.open && w'.nextId == w.nextId && w'.filled == w.filled
      && w'.engine.book == Written(w.engine.book, r)
      && |TouchOf(r, w.erased.read)| == 1 && w'.log == w.log + TouchOf(r, w.erased.read)
      && Informed(w, r) && SentOwn(w, r)
      && forall s :: Unread(w, s) ==> Unread(w', s)
  {
    var r := w.engine.inside[a.i];
    assert Informed(w, r) && SentOwn(w, r);
    forall s | Unread(w, s) ensures Unread(Step(w, every, a), s) { UnreadLasts(w, every, a, s); }
  }

  lemma WriteLeavesGround(w: World, every: int, a: Action, s: Symbol)
    requires Inv(w, every) && Enabled(w, a) && a.Write?
    requires !w.engine.inside[a.i].job.Sweep? && w.engine.inside[a.i].job.symbol != s
    ensures SameGround(w, Step(w, every, a), s)
  {
    WriteShape(w, every, a);
    BasisSnoc(w.log, TouchOf(w.engine.inside[a.i], w.erased.read)[0], s);
  }

  /** Writing for another symbol leaves the row, the broker and any pending fill of `s`. */
  lemma WriteElsewhere(w: World, every: int, a: Action, s: Symbol)
    requires Inv(w, every) && Enabled(w, a) && a.Write?
    requires !w.engine.inside[a.i].job.Sweep? && w.engine.inside[a.i].job.symbol != s
    ensures Explained(Step(w, every, a), s)
  {
    assert Explained(w, s);
    if Pending(w, s) { PendingLasts(w, every, a, s); }
    WriteLeavesGround(w, every, a, s);
    UntouchedExplains(w, Step(w, every, a), s);
  }

  /** A row for `p`, showing it, exactly when there is one and, if zero counts as flat, of some quantity. */
  predicate ShowsOrNone(row: Option<Entry>, p: Option<Position>, zeroIsFlat: bool) {
    && (row.Some? <==> p.Some? && !(zeroIsFlat && p.value.qty == 0.0))
    && (row.Some? ==> Shows(row.value, p.value))
  }

  /** The row a written reading leaves, in the broker's own terms. */
  lemma WrittenShows(w: World, every: int, a: Action, s: Symbol)
    requires Inv(w, every) && Enabled(w, a) && a.Write?
    requires w.engine.inside[a.i].job == Sweep || w.engine.inside[a.i].job == Refresh(s)
    ensures var w', sweep := Step(w, every, a), w.engine.inside[a.i].job == Sweep;
      || Unread(w', s)
      || (!sweep && w.erased.read && s !in w'.engine.book)
      || ShowsOrNone(Lookup(w'.engine.book, s), Lookup(w'.held, s), !sweep)
  {
    WriteShape(w, every, a);
    assert w.engine.inside[a.i] in w.engine.inside;
  }

  /** A write of what was read: the row is what the broker shows, unless a fill has come in since. */
  lemma WriteOfReading(w: World, every: int, a: Action, s: Symbol)
    requires Inv(w, every) && Enabled(w, a) && a.Write?
    requires w.engine.inside[a.i].job == Sweep || w.engine.inside[a.i].job == Refresh(s)
    ensures Explained(Step(w, every, a), s)
  {
    WriteShape(w, every, a);
    BasisSnoc(w.log, TouchOf(w.engine.inside[a.i], w.erased.read)[0], s);
  }

  /** A write of what was asked for: until a fill arrives, the broker does not hold it yet. */
  lemma WriteOfIntent(w: World, every: int, a: Action, s: Symbol)
    requires Inv(w, every) && Enabled(w, a) && a.Write?
    requires (w.engine.inside[a.i].job.Enter? || w.engine.inside[a.i].job.Exit?) && w.engine.inside[a.i].job.symbol == s
    ensures Explained(Step(w, every, a), s)
  {
    WriteShape(w, every, a);
    BasisSnoc(w.log, TouchOf(w.engine.inside[a.i], w.erased.read)[0], s);
  }

  lemma FillExplains(w: World, every: int, a: Action, s: Symbol)
    requires Inv(w, every) && Enabled(w, a) && a.BrokerFills?
    ensures Explained(Step(w, every, a), s)
  {
    assert Explained(w, s);
    FillUnread(w, every, a);
    if Pending(w, s) { PendingLasts(w, every, a, s); }
  }

  lemma FailureExplains(w: World, every: int, a: Action, s: Symbol)
    requires Inv(w, every) && Enabled(w, a) && a.ReadFails?
    ensures Explained(Step(w, every, a), s)
  {
    var job := w.engine.inside[a.i].job;
    assert Explained(w, s);
    if Pending(w, s) { PendingLasts(w, every, a, s); }
    if job.Refresh? { BasisSnoc(w.log, RefreshFailed(job.symbol, Lookup(w.engine.book, job.symbol)), s); }
    if job != Refresh(s) { UntouchedExplains(w, Step(w, every, a), s); }
  }

  lemma StepKeepsExplained(w: World, every: int, a: Action, s: Symbol)
    requires Inv(w, every) && Enabled(w, a)
    ensures Explained(Step(w, every, a), s)
  {
    if a.Write? {
      var job := w.engine.inside[a.i].job;
      if !job.Sweep? && job.symbol != s {
        WriteElsewhere(w, every, a, s);
      } else if job.Sweep? || job.Refresh? {
        WriteOfReading(w, every, a, s);
      } else {
        WriteOfIntent(w, every, a, s);
      }
    } else if a.BrokerFills? {
      FillExplains(w, every, a, s);
    } else if a.ReadFails? {
      FailureExplains(w, every, a, s);
    } else {
      OtherStepsExplain(w, every, a, s);
    }
  }

  lemma StepKeepsInv(w: World, every: int, a: Action)
    requires Inv(w, every) && Enabled(w, a)
    ensures Inv(Step(w, every, a), every)
  {
    StepKeepsOneSlot(w, every, a);
    StepKeepsService(w, every, a);
    StepKeepsSending(w, every, a);
    StepKeepsOneEntry(w, every, a);
    StepKeepsSpacing(w, every, a);
    StepKeepsBroker(w, every, a);
    StepKeepsInformed(w, every, a);
    forall s ensures Explained(Step(w, every, a), s) { StepKeepsExplained(w, every, a, s); }
  }
}
