/**
  The live order loop as a transition system.

  Bar signals, fill refreshes and whole-book sweeps are handlers that wait for one
  order lock, read the broker, and then write the strategy's position book. Broker
  events (fills, lapsed orders, orders placed elsewhere) happen at any moment. A step
  is one stretch between two suspension points, so every interleaving of steps is a run.

  The class in LiveEngine.dfy performs the engine's steps on mutable fields and is
  proved against the functions on `Engine` defined here.
*/
module OrderLoop {
  import opened Options

  type Symbol = string
  type OrderId = nat

  datatype Side = Buy | Sell

  /** An open position as the broker reports it; an unreadable quantity comes out as zero. */
  datatype Position = Position(qty: real, long: bool, avgEntry: real)

  /** One row of the strategy's book. Stop levels are a function of side and price. */
  datatype Entry = Entry(side: Side, qty: real, price: real)

  datatype Event = FillEvent | PartialFillEvent | OtherEvent

  datatype Update = Update(symbol: Symbol, event: Event, filledQty: real)

  /** The orders that matter to the engine's own safety are its entries. */
  datatype Order = Order(symbol: Symbol, engineEntry: bool)

  /** What a handler is waiting to do under the order lock. */
  datatype Job =
    | Refresh(symbol: Symbol)
    | Sweep
    | Enter(symbol: Symbol, side: Side, price: real)
    | Exit(symbol: Symbol, side: Side)

  datatype Stage =
    | Started
    | ReadOne(found: Option<Position>)
    | ReadAll(all: map<Symbol, Position>)
    | NoneOpen
    | Sent(id: OrderId, qty: real)

  datatype Running = Running(job: Job, stage: Stage)

  /** What last decided a symbol's book entry. */
  datatype Touch =
    | Swept
    | Refreshed(symbol: Symbol)
    | RefreshErased(symbol: Symbol)
    | RefreshFailed(symbol: Symbol, row: Option<Entry>)
    | Intended(symbol: Symbol, id: OrderId, row: Option<Entry>, blind: bool)

  /** The engine's own mutable state. */
  datatype Engine = Engine(
    book: map<Symbol, Entry>,
    slots: nat,
    waiters: seq<Job>,
    inside: seq<Running>,
    lastReconcile: Option<int>)

  /** Failed calls that the broker answered with "nothing" instead of an error. */
  datatype Erasures = Erasures(
    read: bool,                 // the position read of the handler now inside
    check: bool,                // its open-order check
    entries: set<OrderId>,      // the entries sent after such a check
    missed: set<Symbol>)        // symbols with a fill lost since they were last read for the book

  /** Engine, broker, clock, and the history the properties speak about. */
  datatype World = World(
    engine: Engine,
    held: map<Symbol, Position>,
    open: map<OrderId, Order>,
    nextId: OrderId,
    updates: multiset<Update>,
    clock: int,
    erased: Erasures,
    log: seq<Touch>,
    filled: set<OrderId>,
    arrived: seq<Job>,
    entered: nat,
    sent: seq<nat>,
    claims: seq<int>)

  // ------------------------------------------------------------------------
  // Book entries
  // ------------------------------------------------------------------------

  function Lookup<V>(m: map<Symbol, V>, s: Symbol): Option<V> {
    if s in m then Some(m[s]) else None
  }

  function Adopted(p: Position): Entry {
    Entry(if p.long then Buy else Sell, p.qty, p.avgEntry)
  }

  /** The whole book a sweep builds from `list_positions`. */
  function AdoptAll(all: map<Symbol, Position>): map<Symbol, Entry> {
    map s | s in all :: Adopted(all[s])
  }

  /** What a refresh does to the book: a flat or zero-sized position leaves it. */
  function AdoptOne(book: map<Symbol, Entry>, s: Symbol, found: Option<Position>): map<Symbol, Entry> {
    if found.None? || found.value.qty == 0.0 then book - {s} else book[s := Adopted(found.value)]
  }

  predicate IsFill(u: Update) {
    (u.event == FillEvent || u.event == PartialFillEvent) && u.filledQty != 0.0
  }

  // ------------------------------------------------------------------------
  // The engine's steps, as functions of its own state
  // ------------------------------------------------------------------------

  function Arrive(e: Engine, job: Job): Engine {
    e.(waiters := e.waiters + [job])
  }

  function OnUpdate(e: Engine, u: Update): Engine {
    if IsFill(u) then Arrive(e, Refresh(u.symbol)) else e
  }

  predicate SweepDue(e: Engine, every: int, now: int) {
    every > 0 && (e.lastReconcile.None? || now - e.lastReconcile.value >= every)
  }

  function MaybeReconcile(e: Engine, every: int, now: int): Engine {
    if SweepDue(e, every, now) then Arrive(e.(lastReconcile := Some(now)), Sweep) else e
  }

  function Acquire(e: Engine): Engine
    requires e.slots > 0 && e.waiters != []
  {
    e.(slots := e.slots - 1, waiters := e.waiters[1..], inside := e.inside + [Running(e.waiters[0], Started)])
  }

  function Advance(e: Engine, i: nat, stage: Stage): Engine
    requires i < |e.inside|
  {
    e.(inside := e.inside[i := e.inside[i].(stage := stage)])
  }

  function Leave(e: Engine, i: nat): Engine
    requires i < |e.inside|
  {
    e.(inside := e.inside[..i] + e.inside[i + 1..], slots := e.slots + 1)
  }

  /** The book after a handler that has read the broker, or sent an order, writes it. */
  function Written(book: map<Symbol, Entry>, r: Running): map<Symbol, Entry> {
    match r
    case Running(Refresh(s), ReadOne(found)) => AdoptOne(book, s, found)
    case Running(Sweep, ReadAll(all)) => AdoptAll(all)
    case Running(Enter(s, side, price), Sent(_, qty)) => book[s := Entry(side, qty, price)]
    case Running(Exit(s, _), Sent(_, _)) => book - {s}
    case _ => book
  }

  function WriteBook(e: Engine, i: nat): Engine
    requires i < |e.inside|
  {
    Leave(e.(book := Written(e.book, e.inside[i])), i)
  }

  /** Ready to write: everything was read, or the order was accepted. */
  predicate Finished(r: Running) {
    match r
    case Running(Refresh(_), ReadOne(_)) => true
    case Running(Sweep, ReadAll(_)) => true
    case Running(Enter(_, _, _), Sent(_, _)) => true
    case Running(Exit(_, _), Sent(_, _)) => true
    case _ => false
  }

  // ------------------------------------------------------------------------
  // Actions
  // ------------------------------------------------------------------------

  datatype Action =
    // the world outside the engine
    | BrokerOpens(symbol: Symbol)
    | BrokerFills(id: OrderId, now: Option<Position>, complete: bool, qty: real)
    | BrokerLapses(id: OrderId)
    | UpdateLost(update: Update)
    | Tick(elapsed: nat)
    // arrivals
    | Signal(job: Job)
    | Timer
    | Deliver(update: Update)
    // under the lock
    | Take
    | Read(i: nat)
    | ReadErased(i: nat)
    | ReadFails(i: nat)
    | CheckOpen(i: nat)
    | CheckErased(i: nat)
    | SubmitEntry(i: nat, qty: real)
    | SubmitClose(i: nat)
    | Decline(i: nat)
    | Write(i: nat)

  predicate Closes(side: Side, p: Position) {
    (side == Buy) == p.long
  }

  /** `list_open_orders(symbol)` is empty. */
  ghost predicate NoOpenOrder(open: map<OrderId, Order>, s: Symbol) {
    forall id :: id in open ==> open[id].symbol != s
  }

  ghost predicate Enabled(w: World, a: Action) {
    var e := w.engine;
    match a
    case BrokerOpens(_) => true
    case BrokerFills(id, now, _, qty) => id in w.open && qty > 0.0 && (now.Some? ==> now.value.qty >= 0.0)
    case BrokerLapses(id) => id in w.open
    case UpdateLost(u) => u in w.updates
    case Tick(_) => true
    case Signal(job) => job.Enter? || job.Exit?
    case Timer => true
    case Deliver(u) => u in w.updates
    case Take => e.slots > 0 && e.waiters != []
    case Read(i) => i < |e.inside| && e.inside[i].stage == Started
    case ReadErased(i) => i < |e.inside| && e.inside[i].stage == Started && !e.inside[i].job.Sweep?
    case ReadFails(i) => i < |e.inside| && e.inside[i].stage == Started
    case CheckOpen(i) =>
      i < |e.inside| && e.inside[i].job.Enter? && e.inside[i].stage == ReadOne(None)
      && NoOpenOrder(w.open, e.inside[i].job.symbol)
    case CheckErased(i) => i < |e.inside| && e.inside[i].job.Enter? && e.inside[i].stage == ReadOne(None)
    case SubmitEntry(i, qty) => i < |e.inside| && e.inside[i].job.Enter? && e.inside[i].stage == NoneOpen && qty > 0.0
    case SubmitClose(i) =>
      i < |e.inside| && e.inside[i].job.Exit? && e.inside[i].stage.ReadOne? && e.inside[i].stage.found.Some?
      && Closes(e.inside[i].job.side, e.inside[i].stage.found.value)
    case Decline(i) => i < |e.inside| && (e.inside[i].job.Enter? || e.inside[i].job.Exit?) && !e.inside[i].stage.Sent?
    case Write(i) => i < |e.inside| && Finished(e.inside[i])
  }

  function ReadStage(w: World, job: Job): Stage {
    match job
    case Sweep => ReadAll(w.held)
    case Refresh(s) => ReadOne(Lookup(w.held, s))
    case Enter(s, _, _) => ReadOne(Lookup(w.held, s))
    case Exit(s, _) => ReadOne(Lookup(w.held, s))
  }

  function TouchOf(r: Running, erased: bool): seq<Touch> {
    match r
    case Running(Refresh(s), ReadOne(_)) => [if erased then RefreshErased(s) else Refreshed(s)]
    case Running(Sweep, ReadAll(_)) => [Swept]
    case Running(Enter(s, side, price), Sent(id, qty)) => [Intended(s, id, Some(Entry(side, qty, price)), erased)]
    case Running(Exit(s, _), Sent(id, _)) => [Intended(s, id, None, erased)]
    case _ => []
  }

  /** A read whose answer goes into the book makes good any fill lost before it. */
  function MissedAfterRead(missed: set<Symbol>, job: Job): set<Symbol> {
    match job
    case Sweep => {}
    case Refresh(s) => missed - {s}
    case _ => missed
  }

  function Submit(w: World, i: nat, engineEntry: bool, qty: real): World
    requires i < |w.engine.inside| && !w.engine.inside[i].job.Sweep?
  {
    w.(engine := Advance(w.engine, i, Sent(w.nextId, qty)),
       open := w.open[w.nextId := Order(w.engine.inside[i].job.symbol, engineEntry)],
       nextId := w.nextId + 1,
       erased := if engineEntry && w.erased.check then w.erased.(entries := w.erased.entries + {w.nextId}) else w.erased,
       sent := w.sent + [if w.entered > 0 then w.entered - 1 else 0])
  }

  function Fill(w: World, id: OrderId, now: Option<Position>, complete: bool, qty: real): World
    requires id in w.open
  {
    var s := w.open[id].symbol;
    w.(held := if now.Some? then w.held[s := now.value] else w.held - {s},
       open := if complete then w.open - {id} else w.open,
       updates := w.updates + multiset{Update(s, if complete then FillEvent else PartialFillEvent, qty)},
       filled := w.filled + {id})
  }

  function Step(w: World, every: int, a: Action): World
    requires Enabled(w, a)
  {
    var e := w.engine;
    match a
    case BrokerOpens(s) => w.(open := w.open[w.nextId := Order(s, false)], nextId := w.nextId + 1)
    case BrokerFills(id, now, complete, qty) => Fill(w, id, now, complete, qty)
    case BrokerLapses(id) =>
      w.(open := w.open - {id}, updates := w.updates + multiset{Update(w.open[id].symbol, OtherEvent, 0.0)})
    case UpdateLost(u) =>
      w.(updates := w.updates - multiset{u},
         erased := if IsFill(u) then w.erased.(missed := w.erased.missed + {u.symbol}) else w.erased)
    case Tick(elapsed) => w.(clock := w.clock + elapsed)
    case Signal(job) => w.(engine := Arrive(e, job), arrived := w.arrived + [job])
    case Timer =>
      if SweepDue(e, every, w.clock)
      then w.(engine := MaybeReconcile(e, every, w.clock), arrived := w.arrived + [Sweep], claims := w.claims + [w.clock])
      else w
    case Deliver(u) =>
      w.(engine := OnUpdate(e, u),
         updates := w.updates - multiset{u},
         arrived := if IsFill(u) then w.arrived + [Refresh(u.symbol)] else w.arrived)
    case Take => w.(engine := Acquire(e), entered := w.entered + 1, erased := w.erased.(read := false, check := false))
    case Read(i) =>
      w.(engine := Advance(e, i, ReadStage(w, e.inside[i].job)),
         erased := w.erased.(missed := MissedAfterRead(w.erased.missed, e.inside[i].job)))
    case ReadErased(i) => w.(engine := Advance(e, i, ReadOne(None)), erased := w.erased.(read := true))
    case ReadFails(i) =>
      w.(engine := Leave(e, i),
         log := if e.inside[i].job.Refresh? then w.log + [RefreshFailed(e.inside[i].job.symbol, Lookup(e.book, e.inside[i].job.symbol))] else w.log)
    case CheckOpen(i) => w.(engine := Advance(e, i, NoneOpen))
    case CheckErased(i) => w.(engine := Advance(e, i, NoneOpen), erased := w.erased.(check := true))
    case SubmitEntry(i, qty) => Submit(w, i, true, qty)
    case SubmitClose(i) => Submit(w, i, false, e.inside[i].stage.found.value.qty)
    case Decline(i) => w.(engine := Leave(e, i))
    case Write(i) => w.(engine := WriteBook(e, i), log := w.log + TouchOf(e.inside[i], w.erased.read))
  }

  /** After `_cold_start`: either the book was read from the broker, or it is empty. */
  ghost predicate Start(w: World) {
    && w.engine.slots == 1 && w.engine.waiters == [] && w.engine.inside == []
    && w.arrived == [] && w.entered == 0 && w.sent == [] && w.filled == {} && w.updates == multiset{}
    && w.erased == Erasures(false, false, {}, {})
    && (forall id :: id in w.open ==> id < w.nextId && !w.open[id].engineEntry)
    && ( || (w.engine.book == AdoptAll(w.held) && w.engine.lastReconcile == Some(w.clock) && w.claims == [w.clock] && w.log == [Swept])
         || (w.engine.book == map[] && w.engine.lastReconcile == None && w.claims == [] && w.log == []))
  }

  /** Consecutive worlds, each one enabled step after the one before it. */
  ghost predicate IsTrace(every: int, ws: seq<World>, acts: seq<Action>) {
    && |ws| == |acts| + 1
    && forall k :: 0 <= k < |acts| ==> Enabled(ws[k], acts[k]) && ws[k + 1] == Step(ws[k], every, acts[k])
  }

  /** A run of the engine from its start. */
  ghost predicate IsRun(every: int, ws: seq<World>, acts: seq<Action>) {
    IsTrace(every, ws, acts) && Start(ws[0])
  }
}
