/**
  The live engine's mutable state and the atomic sections of its handlers.

  Each method is one stretch between two suspension points of a handler; the broker's
  answers come in as arguments. A ghost world beside the fields is the rest of the story:
  the broker, the clock and the history. Every method performs one enabled step of that
  world, so a sequence of calls is a run and keeps every invariant of runs.
*/
module LiveOrderEngine {
  import opened Options
  import opened OrderLoop
  import opened OrderLoopSafety

  ghost predicate Idle(w: World) {
    w.engine.slots == 1 && w.engine.waiters == [] && w.engine.inside == []
  }

  lemma LoneDelivery(w: World, every: int, u: Update)
    requires Idle(w) && u in w.updates && IsFill(u)
    ensures Enabled(w, Deliver(u))
    ensures var w' := Step(w, every, Deliver(u)); w'.held == w.held && w'.engine == w.engine.(waiters := [Refresh(u.symbol)])
  {
  }

  /** One job at an idle engine takes the lock. */
  lemma LoneTake(w: World, every: int, job: Job)
    requires w.engine.slots == 1 && w.engine.waiters == [job] && w.engine.inside == []
    ensures Enabled(w, Take)
    ensures var w' := Step(w, every, Take);
      && w'.held == w.held && w'.engine == w.engine.(slots := 0, waiters := [], inside := [Running(job, Started)])
  {
  }

  /** A handler alone under the lock reads and then writes what it read. */
  lemma LoneReadAndWrite(w: World, every: int, job: Job)
    requires (job.Refresh? || job.Sweep?) && w.engine.slots == 0 && w.engine.waiters == [] && w.engine.inside == [Running(job, Started)]
    ensures Enabled(w, Read(0))
    ensures var w1 := Step(w, every, Read(0));
      && Enabled(w1, Write(0))
      && w1.engine == w.engine.(inside := [Running(job, ReadStage(w, job))])
      && var w2 := Step(w1, every, Write(0));
         Idle(w2) && w2.held == w.held && w2.engine.lastReconcile == w.engine.lastReconcile
         && w2.engine.book == Written(w.engine.book, Running(job, ReadStage(w, job)))
  {
  }

  class LiveEngine {
    var book: map<Symbol, Entry>
    var slots: nat
    var waiters: seq<Job>
    var inside: seq<Running>
    var lastReconcile: Option<int>
    const reconcileEvery: int
    ghost var world: World

    ghost predicate Valid()
      reads this
    {
      world.engine == Engine(book, slots, waiters, inside, lastReconcile) && Inv(world, reconcileEvery)
    }

    /** A new engine has swept nothing; `w` is the broker it finds itself beside. */
    constructor (reconcileEvery: int, ghost w: World)
      requires Start(w) && w.log == []
      ensures Valid() && world == w && this.reconcileEvery == reconcileEvery
    {
      book, slots, waiters, inside := map[], 1, [], [];
      lastReconcile := None;
      this.reconcileEvery := reconcileEvery;
      world := w;
      new;
      StartHolds(w, reconcileEvery);
    }

    /** `_cold_start`: adopt what the broker holds, or carry on flat if it cannot be read. */
    method ColdStart(held: Option<map<Symbol, Position>>, now: int)
      requires Valid() && Start(world) && world.log == [] && now == world.clock
      requires held.Some? ==> held.value == world.held
      modifies this
      ensures Valid() && Start(world)
      ensures held.Some? ==> book.Keys == held.value.Keys && lastReconcile == Some(now)
      ensures held.Some? ==> forall s :: s in held.value ==>
        && book[s].qty == held.value[s].qty && book[s].price == held.value[s].avgEntry
        && (book[s].side == Buy <==> held.value[s].long)
      ensures held.None? ==> world == old(world) && book == old(book)
    {
      if held.None? { return; }
      book := AdoptAll(held.value);
      lastReconcile := Some(now);
      world := world.(engine := Engine(book, slots, waiters, inside, lastReconcile), log := [Swept], claims := [now]);
      StartHolds(world, reconcileEvery);
    }

    /** The broker, the clock or the stream moves on; nothing of the engine's changes. */
    ghost method Elsewhere(a: Action)
      requires Valid() && Enabled(world, a)
      requires a.BrokerOpens? || a.BrokerFills? || a.BrokerLapses? || a.UpdateLost? || a.Tick?
      modifies `world
      ensures Valid() && world == Step(old(world), reconcileEvery, a)
    {
      StepKeepsInv(world, reconcileEvery, a);
      world := Step(world, reconcileEvery, a);
    }

    /** A bar's signal that is not HOLD queues for the order lock. */
    method OnSignal(job: Job)
      requires Valid() && Enabled(world, Signal(job))
      modifies `waiters, `world
      ensures Valid() && world == Step(old(world), reconcileEvery, Signal(job))
    {
      StepKeepsInv(world, reconcileEvery, Signal(job));
      world := Step(world, reconcileEvery, Signal(job));
      waiters := waiters + [job];
    }

    /** `_on_trade_update`: only a fill, whole or partial, queues a refresh. */
    method OnTradeUpdate(u: Update)
      requires Valid() && Enabled(world, Deliver(u))
      modifies `waiters, `world
      ensures Valid() && world == Step(old(world), reconcileEvery, Deliver(u))
    {
      StepKeepsInv(world, reconcileEvery, Deliver(u));
      world := Step(world, reconcileEvery, Deliver(u));
      if !((u.event == FillEvent || u.event == PartialFillEvent) && u.filledQty != 0.0) { return; }
      waiters := waiters + [Refresh(u.symbol)];
    }

    /** `_maybe_reconcile` up to its lock: the claim and the timestamp in one section. */
    method MaybeSweep(now: int)
      requires Valid() && now == world.clock
      modifies `waiters, `lastReconcile, `world
      ensures Valid() && world == Step(old(world), reconcileEvery, Timer)
    {
      StepKeepsInv(world, reconcileEvery, Timer);
      world := Step(world, reconcileEvery, Timer);
      if reconcileEvery <= 0 { return; }
      if lastReconcile.Some? && now - lastReconcile.value < reconcileEvery { return; }
      lastReconcile := Some(now);
      waiters := waiters + [Sweep];
    }

    /** The semaphore lets the oldest waiter in. */
    method TakeSlot()
      requires Valid() && Enabled(world, Take)
      modifies `slots, `waiters, `inside, `world
      ensures Valid() && world == Step(old(world), reconcileEvery, Take)
    {
      StepKeepsInv(world, reconcileEvery, Take);
      world := Step(world, reconcileEvery, Take);
      slots := slots - 1;
      inside := inside + [Running(waiters[0], Started)];
      waiters := waiters[1..];
    }

    /** `get_position` returned; `erased` says that "nothing" stands for an error. */
    method PositionRead(i: nat, found: Option<Position>, ghost erased: bool)
      requires Valid() && Enabled(world, if erased then ReadErased(i) else Read(i)) && !inside[i].job.Sweep?
      requires found == if erased then None else Lookup(world.held, inside[i].job.symbol)
      modifies `inside, `world
      ensures Valid() && world == Step(old(world), reconcileEvery, if erased then ReadErased(i) else Read(i))
    {
      ghost var a := if erased then ReadErased(i) else Read(i);
      StepKeepsInv(world, reconcileEvery, a);
      world := Step(world, reconcileEvery, a);
      inside := inside[i := inside[i].(stage := ReadOne(found))];
    }

    /** `list_positions` returned. */
    method BookRead(i: nat, all: map<Symbol, Position>)
      requires Valid() && Enabled(world, Read(i)) && inside[i].job.Sweep? && all == world.held
      modifies `inside, `world
      ensures Valid() && world == Step(old(world), reconcileEvery, Read(i))
    {
      StepKeepsInv(world, reconcileEvery, Read(i));
      world := Step(world, reconcileEvery, Read(i));
      inside := inside[i := inside[i].(stage := ReadAll(all))];
    }

    /** `list_open_orders` returned no order. */
    method NothingOpen(i: nat, ghost erased: bool)
      requires Valid() && Enabled(world, if erased then CheckErased(i) else CheckOpen(i))
      modifies `inside, `world
      ensures Valid() && world == Step(old(world), reconcileEvery, if erased then CheckErased(i) else CheckOpen(i))
    {
      ghost var a := if erased then CheckErased(i) else CheckOpen(i);
      StepKeepsInv(world, reconcileEvery, a);
      world := Step(world, reconcileEvery, a);
      inside := inside[i := inside[i].(stage := NoneOpen)];
    }

    /** The broker accepted the entry, or the close, under `id`. */
    method Accepted(i: nat, id: OrderId, qty: real)
      requires Valid() && id == world.nextId && i < |inside|
      requires Enabled(world, if inside[i].job.Enter? then SubmitEntry(i, qty) else SubmitClose(i))
      requires inside[i].job.Exit? ==> qty == inside[i].stage.found.value.qty
      modifies `inside, `world
      ensures Valid() && world == Step(old(world), reconcileEvery, if old(inside)[i].job.Enter? then SubmitEntry(i, qty) else SubmitClose(i))
    {
      ghost var a := if inside[i].job.Enter? then SubmitEntry(i, qty) else SubmitClose(i);
      StepKeepsInv(world, reconcileEvery, a);
      world := Step(world, reconcileEvery, a);
      inside := inside[i := inside[i].(stage := Sent(id, qty))];
    }

    /** The handler declines, or its read raised: the book stays and the lock is released. */
    method Release(i: nat, raised: bool)
      requires Valid() && Enabled(world, if raised then ReadFails(i) else Decline(i))
      modifies `inside, `slots, `world
      ensures Valid() && world == Step(old(world), reconcileEvery, if raised then ReadFails(i) else Decline(i))
    {
      ghost var a := if raised then ReadFails(i) else Decline(i);
      StepKeepsInv(world, reconcileEvery, a);
      world := Step(world, reconcileEvery, a);
      inside := inside[..i] + inside[i + 1..];
      slots := slots + 1;
    }

    /** The write each kind of handler ends with, under the lock it still holds. */
    method WriteAndRelease(i: nat)
      requires Valid() && Enabled(world, Write(i))
      modifies `book, `inside, `slots, `world
      ensures Valid() && world == Step(old(world), reconcileEvery, Write(i))
      ensures old(inside)[i].job.Sweep? ==>
        var all := old(inside)[i].stage.all; book.Keys == all.Keys && forall s :: s in all ==> Shows(book[s], all[s])
      ensures old(inside)[i].job.Refresh? ==>
        var s, found := old(inside)[i].job.symbol, old(inside)[i].stage.found;
        ShowsOrNone(Lookup(book, s), found, true) && book - {s} == old(book) - {s}
      ensures old(inside)[i].job.Enter? ==>
        var job := old(inside)[i].job; book == old(book)[job.symbol := Entry(job.side, old(inside)[i].stage.qty, job.price)]
      ensures old(inside)[i].job.Exit? ==> book == old(book) - {old(inside)[i].job.symbol}
    {
      StepKeepsInv(world, reconcileEvery, Write(i));
      world := Step(world, reconcileEvery, Write(i));
      match inside[i] {
        case Running(Refresh(s), ReadOne(found)) =>
          if found.None? || found.value.qty == 0.0 {
            book := book - {s};
          } else {
            book := book[s := Adopted(found.value)];
          }
        case Running(Sweep, ReadAll(all)) =>
          book := AdoptAll(all);
          AdoptAllShows(all);
        case Running(Enter(s, side, price), Sent(_, qty)) =>
          book := book[s := Entry(side, qty, price)];
        case Running(Exit(s, _), Sent(_, _)) =>
          book := book - {s};
      }
      inside := inside[..i] + inside[i + 1..];
      slots := slots + 1;
    }

    /** The rest of a refresh whose handler is alone under the lock. */
    method FinishRefresh(s: Symbol, found: Option<Position>)
      requires Valid() && slots == 0 && waiters == [] && inside == [Running(Refresh(s), Started)]
      requires found == Lookup(world.held, s)
      modifies this
      ensures Valid() && Idle(world) && world.held == old(world).held
      ensures book == AdoptOne(old(book), s, found)
    {
      LoneReadAndWrite(world, reconcileEvery, Refresh(s));
      PositionRead(0, found, false);
      WriteAndRelease(0);
    }

    /** A fill delivered to an idle engine: its refresh is alone under the lock. */
    method StartRefresh(u: Update)
      requires Valid() && Idle(world) && u in world.updates && IsFill(u)
      modifies this
      ensures Valid() && slots == 0 && waiters == [] && inside == [Running(Refresh(u.symbol), Started)]
      ensures world.held == old(world).held && book == old(book)
    {
      LoneDelivery(world, reconcileEvery, u);
      OnTradeUpdate(u);
      LoneTake(world, reconcileEvery, Refresh(u.symbol));
      TakeSlot();
    }

    /** A fill delivered to an idle engine: the whole refresh, after which the row is what the broker shows. */
    method RefreshWhenIdle(u: Update, found: Option<Position>)
      requires Valid() && Idle(world)
      requires u in world.updates && IsFill(u) && found == Lookup(world.held, u.symbol)
      modifies this
      ensures Valid() && Idle(world) && world.held == old(world).held
      ensures u.symbol in book <==> found.Some? && found.value.qty != 0.0
      ensures u.symbol in book ==>
        var row, p := book[u.symbol], found.value;
        row.qty == p.qty && row.price == p.avgEntry && (row.side == Buy <==> p.long)
      ensures forall s :: s != u.symbol ==> Lookup(book, s) == Lookup(old(book), s)
    {
      StartRefresh(u);
      FinishRefresh(u.symbol, found);
    }

    /** The rest of a sweep whose handler is alone under the lock. */
    method FinishSweep(all: map<Symbol, Position>)
      requires Valid() && slots == 0 && waiters == [] && inside == [Running(Sweep, Started)] && all == world.held
      modifies this
      ensures Valid() && Idle(world) && world.held == all && lastReconcile == old(lastReconcile)
      ensures book == AdoptAll(all)
    {
      LoneReadAndWrite(world, reconcileEvery, Sweep);
      BookRead(0, all);
      WriteAndRelease(0);
    }

    /** A sweep due on an idle engine: the whole book is the broker's afterwards. */
    method SweepWhenIdle(all: map<Symbol, Position>, now: int)
      requires Valid() && Idle(world)
      requires all == world.held && now == world.clock && SweepDue(world.engine, reconcileEvery, now)
      modifies this
      ensures Valid() && Idle(world) && world.held == old(world).held && lastReconcile == Some(now)
      ensures book.Keys == all.Keys
      ensures forall s :: s in all ==>
        book[s].qty == all[s].qty && book[s].price == all[s].avgEntry && (book[s].side == Buy <==> all[s].long)
    {
      MaybeSweep(now);
      LoneTake(world, reconcileEvery, Sweep);
      TakeSlot();
      FinishSweep(all);
      AdoptAllShows(all);
    }
  }
}
