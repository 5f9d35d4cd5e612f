/** What holds in every run of one engine: the book is never crossed, fills are conserved, finished orders
    stay finished, every stop accepted is delivered at most once and only after a trade through its price. */
module RunTheorems {
  import opened Orders
  import opened Sums
  import opened Priority
  import opened Matching
  import opened Levels
  import opened EngineModel
  import opened EngineProofs
  import opened Runs

  // ----- the cascade -----

  /** A pending stop is absent from everything else once taken, and ready to be handled. */
  lemma TakenReady(w: World, i: nat)
    requires Sound(w) && i < |w.engine.pending|
    ensures var o := w.engine.pending[i]; var w1 := w.(engine := TakePending(w.engine, i));
      && Sound(w1) && IsStop(o) && o.status.Pending?
      && o.id in w.seen && w.seen[o.id] == o
      && Incoming(Converted(o)) && AbsentAll(w1.engine, o.id) && FreshOrWaiting(w.seen, Converted(o))
      && Stops(w.engine) == Stops(w1.engine) + multiset{o}
  {
    hide BookSound, StopsSound, Accounted, Absent, Registered;
    var e := w.engine;
    var o, e1 := e.pending[i], TakePending(e, i);
    TakenStops(e, w.seen, i);
    BookOnly(e1, e);
    LiveNotPending(e, w.seen, o.id);
    assert Absent(e1, o.id) by { SameSides(e, e1, o.id); }
  }

  lemma TakeFirst(e: State)
    requires e.pending != []
    ensures TakePending(e, 0) == PopPending(e)
  {
    assert e.pending[..0] + e.pending[1..] == e.pending[1..];
  }

  lemma PoppedReady(w: World)
    requires Sound(w) && w.engine.pending != []
    ensures var o := w.engine.pending[0]; var w1 := w.(engine := PopPending(w.engine));
      && Sound(w1) && IsStop(o) && o.status.Pending?
      && o.id in w.seen && w.seen[o.id] == o
      && Incoming(Converted(o)) && AbsentAll(w1.engine, o.id) && FreshOrWaiting(w.seen, Converted(o))
      && Stops(w.engine) == Stops(w1.engine) + multiset{o}
  {
    hide *;
    TakenReady(w, 0);
    TakeFirst(w.engine);
  }

  lemma SameSides(a: State, b: State, id: OrderId)
    requires a.bids == b.bids && a.asks == b.asks && Absent(a, id)
    ensures Absent(b, id)
  {
  }

  lemma TakenStops(e: State, seen: map<OrderId, Order>, i: nat)
    requires StopsSound(e) && Registered(e, seen) && i < |e.pending|
    ensures var o, e1 := e.pending[i], TakePending(e, i);
      && Stops(e) == Stops(e1) + multiset{o} && StopsSound(e1) && Registered(e1, seen)
      && Waiting(o) && o.id in seen && seen[o.id] == o && Incoming(Converted(o))
      && (forall x :: x in Stops(e1) ==> x.id != o.id)
  {
    hide Ordered, Known;
    var o, e1 := e.pending[i], TakePending(e, i);
    assert e.pending == e.pending[..i] + [o] + e.pending[i + 1..];
    assert Stops(e) == Stops(e1) + multiset{o};
    assert o in Stops(e) && Stops(e1)[o] == 0;
    assert Waiting(o);
    forall x | x in Stops(e1) ensures x.id != o.id && Waiting(x) && Stops(e1)[x] == 1 {
      assert x in Stops(e) && x != o;
    }
  }

  lemma LiveNotPending(e: State, seen: map<OrderId, Order>, id: OrderId)
    requires BookSound(e) && Registered(e, seen) && id in seen && !seen[id].status.Live()
    ensures Absent(e, id)
  {
  }

  /** The cascade keeps a sound world sound, leaves nothing pending, and delivers every triggered stop
      exactly once: what was waiting or pending is, stop for stop, what was delivered plus what still
      waits. */
  lemma {:induction false} CascadeDelivers(w: World, fees: Fees)
    requires Sound(w)
    ensures var (w', delivered) := Cascade(w, fees);
      && Sound(w')
      && w'.engine.pending == []
      && Stops(w.engine) == multiset(delivered) + Stops(w'.engine)
      && (forall o :: o in delivered ==> multiset(delivered)[o] == 1)
    decreases w.engine.StopCount()
  {
    hide Sound, Stops, Handle;
    if w.engine.pending == [] {
    } else {
      var o, w1 := w.engine.pending[0], w.(engine := PopPending(w.engine));
      PoppedReady(w);
      StopCountKept(w1.engine, Converted(o), false);
      HandleSound(w1, Converted(o), false, fees);
      HandleEngine(w1, Converted(o), false, fees);
      CascadeDelivers(Handle(w1, Converted(o), false, fees), fees);
      var (w2, rest) := Cascade(Handle(w1, Converted(o), false, fees), fees);
      assert multiset([o] + rest) == multiset{o} + multiset(rest);
    }
    DeliveredOnce(w, fees);
  }

  lemma HandleEngine(w: World, o: Order, expired: bool, fees: Fees)
    ensures Handle(w, o, expired, fees).engine == Process(w.engine, o, expired).0
  {
  }

  lemma DeliveredOnce(w: World, fees: Fees)
    requires Sound(w)
    ensures var (w', delivered) := Cascade(w, fees);
      Stops(w.engine) == multiset(delivered) + Stops(w'.engine) ==>
        forall o :: o in delivered ==> multiset(delivered)[o] == 1
  {
    hide Cascade, BookSound, Registered, Accounted;
    var (w', delivered) := Cascade(w, fees);
    if Stops(w.engine) == multiset(delivered) + Stops(w'.engine) {
      forall o | o in delivered ensures multiset(delivered)[o] == 1 {
        assert o in multiset(delivered);
        assert Stops(w.engine)[o] == multiset(delivered)[o] + Stops(w'.engine)[o];
      }
    }
  }

  /** A cascade is a run of deliveries, each of the first stop pending. */
  function Deliveries(n: nat): seq<Event> {
    if n == 0 then [] else [Deliver(0)] + Deliveries(n - 1)
  }

  lemma FirstDelivery(w: World, n: nat, fees: Fees)
    ensures Run(w, Deliveries(n + 1), fees) == Run(DeliverAt(w, 0, fees), Deliveries(n), fees)
  {
    hide DeliverAt;
    assert Deliveries(n + 1)[1..] == Deliveries(n);
  }

  lemma {:induction false} CascadeIsRun(w: World, fees: Fees)
    requires Sound(w)
    ensures var (w', delivered) := Cascade(w, fees); Run(w, Deliveries(|delivered|), fees) == w'
    decreases w.engine.StopCount()
  {
    hide Sound, Stops, Handle, Run;
    if w.engine.pending == [] {
      assert Run(w, [], fees) == w by { NoEvents(w, fees); }
    } else {
      var o, w1 := w.engine.pending[0], w.(engine := PopPending(w.engine));
      PoppedReady(w);
      TakeFirst(w.engine);
      StopCountKept(w1.engine, Converted(o), false);
      HandleSound(w1, Converted(o), false, fees);
      HandleEngine(w1, Converted(o), false, fees);
      CascadeIsRun(Handle(w1, Converted(o), false, fees), fees);
      FirstDelivery(w, |Cascade(w, fees).1| - 1, fees);
    }
  }

  lemma NoEvents(w: World, fees: Fees)
    ensures Run(w, [], fees) == w
  {
  }

  // ----- every run -----

  lemma SubmitReady(w: World, o: Order)
    requires Sound(w) && o.id !in w.seen
    ensures AbsentAll(w.engine, o.id)
  {
    hide BookSound, StopsSound, Accounted;
  }

  /** Cancelling a resting order leaves the record of every waiting stop alone. */
  lemma CancelRegistered(e: State, seen: map<OrderId, Order>, id: OrderId)
    requires BookSound(e) && Registered(e, seen) && StopsSound(e)
    ensures Registered(Cancel(e, id),
                       if id in seen && !Absent(e, id) then seen[id := seen[id].(status := Cancelled)] else seen)
  {
    hide BookSound, Without, Absent, Ordered, Incoming;
    var seen' := if id in seen && !Absent(e, id) then seen[id := seen[id].(status := Cancelled)] else seen;
    assert Stops(Cancel(e, id)) == Stops(e);
    CancelSound(e, id);
    forall o | o in Stops(e) ensures o.id in seen' && seen'[o.id] == o {
      LiveNotPending(e, seen, o.id);
    }
  }

  lemma CancelKeeps(w: World, id: OrderId, fees: Fees)
    requires Sound(w)
    ensures Sound(Step(w, CancelOrder(id), fees))
    ensures w.engine.pending == Step(w, CancelOrder(id), fees).engine.pending
  {
    hide SideSound, Uncrossed, Ordered, Incoming, Traded, Without, Registered;
    CancelSound(w.engine, id);
    CancelRegistered(w.engine, w.seen, id);
    assert Stops(Step(w, CancelOrder(id), fees).engine) == Stops(w.engine);
  }

  lemma StepSound(w: World, ev: Event, fees: Fees)
    requires Sound(w) && Admits(w, ev)
    ensures Sound(Step(w, ev, fees))
  {
    hide Sound, Handle, Stops;
    match ev
    case Submit(o, expired) =>
      SubmitReady(w, o);
      HandleSound(w, o, expired, fees);
    case Deliver(i) =>
      if i < |w.engine.pending| {
        TakenReady(w, i);
        HandleSound(w.(engine := TakePending(w.engine, i)), Converted(w.engine.pending[i]), false, fees);
      }
    case CancelOrder(id) =>
      CancelKeeps(w, id, fees);
  }

  lemma {:induction false} RunSound(w: World, evs: seq<Event>, fees: Fees)
    requires Sound(w) && Admissible(w, evs, fees)
    ensures Sound(Run(w, evs, fees))
    decreases |evs|
  {
    hide Sound, Step;
    if evs == [] {
    } else {
      StepSound(w, evs[0], fees);
      RunSound(Step(w, evs[0], fees), evs[1..], fees);
    }
  }

  lemma StartSound()
    ensures Sound(Start)
  {
  }

  // ----- where stops go -----

  /** The stop an event files, as it waits. */
  function StopPlaced(ev: Event): multiset<Order> {
    if ev.Submit? && IsStop(ev.order) && !ev.expired then multiset{ev.order.(status := Pending)} else multiset{}
  }

  function StopDelivered(w: World, ev: Event): multiset<Order> {
    if ev.Deliver? && ev.index < |w.engine.pending| then multiset{w.engine.pending[ev.index]} else multiset{}
  }

  ghost function StopsPlaced(evs: seq<Event>): multiset<Order>
    decreases |evs|
  {
    if evs == [] then multiset{} else StopPlaced(evs[0]) + StopsPlaced(evs[1..])
  }

  ghost function StopsDelivered(w: World, evs: seq<Event>, fees: Fees): multiset<Order>
    decreases |evs|
  {
    if evs == [] then multiset{}
    else StopDelivered(w, evs[0]) + StopsDelivered(Step(w, evs[0], fees), evs[1..], fees)
  }

  lemma SubmitStops(e: State, o: Order, expired: bool)
    requires StopsSound(e)
    ensures Stops(Process(e, o, expired).0) == Stops(e) + StopPlaced(Submit(o, expired))
  {
    hide ProcessLimit, ProcessMarket, StopsSound, AddStop;
    if !IsStop(o) {
      StopCountKept(e, o, expired);
    } else {
      var e0 := e.(sequence := e.sequence + 1);
      assert StopsSound(e0) && Stops(e0) == Stops(e) by { SameStopsSound(e, e0); }
      AddStopStops(e0, o.(status := Pending));
    }
  }

  lemma SameStopsSound(a: State, b: State)
    requires a.stopBuys == b.stopBuys && a.stopSells == b.stopSells && a.pending == b.pending && StopsSound(a)
    ensures StopsSound(b) && Stops(a) == Stops(b)
  {
  }

  lemma SoundStops(w: World)
    requires Sound(w)
    ensures StopsSound(w.engine)
  {
    hide BookSound, StopsSound, Registered, Accounted;
  }

  /** Whatever an event is, the stops it delivers and those it leaves are those it found and the one it filed. */
  lemma StepStops(w: World, ev: Event, fees: Fees)
    requires Sound(w) && Admits(w, ev)
    ensures Stops(Step(w, ev, fees).engine) + StopDelivered(w, ev) == Stops(w.engine) + StopPlaced(ev)
  {
    hide Sound, Handle, Stops, Process, Incoming, AbsentAll;
    match ev
    case Submit(o, expired) =>
      SoundStops(w);
      HandleEngine(w, o, expired, fees);
      SubmitStops(w.engine, o, expired);
    case Deliver(i) =>
      if i < |w.engine.pending| {
        var o, w1 := w.engine.pending[i], w.(engine := TakePending(w.engine, i));
        TakenReady(w, i);
        HandleEngine(w1, Converted(o), false, fees);
        StopCountKept(w1.engine, Converted(o), false);
      }
    case CancelOrder(id) =>
      CancelStops(w.engine, id);
  }

  lemma CancelStops(e: State, id: OrderId)
    ensures Stops(Cancel(e, id)) == Stops(e)
  {
  }

  lemma {:induction false} RunStops(w: World, evs: seq<Event>, fees: Fees)
    requires Sound(w) && Admissible(w, evs, fees)
    ensures Stops(Run(w, evs, fees).engine) + StopsDelivered(w, evs, fees) == Stops(w.engine) + StopsPlaced(evs)
    decreases |evs|
  {
    hide Sound, Step, Stops, StopDelivered, StopPlaced, Admits;
    if evs == [] {
    } else {
      StepSound(w, evs[0], fees);
      StepStops(w, evs[0], fees);
      var w1 := Step(w, evs[0], fees);
      RunStops(w1, evs[1..], fees);
      Rearranged(Stops(w.engine), StopPlaced(evs[0]), Stops(w1.engine), StopDelivered(w, evs[0]), StopsPlaced(evs[1..]),
                 Stops(Run(w, evs, fees).engine), StopsDelivered(w1, evs[1..], fees));
    }
  }

  lemma Rearranged(s: multiset<Order>, p: multiset<Order>, s1: multiset<Order>, d: multiset<Order>,
                   p1: multiset<Order>, s2: multiset<Order>, d1: multiset<Order>)
    requires s1 + d == s + p && s2 + d1 == s1 + p1
    ensures s2 + (d + d1) == s + (p + p1)
  {
    assert s2 + (d + d1) == s2 + d1 + d;
    assert s1 + p1 + d == s1 + d + p1;
  }

  lemma {:induction false} RecordGrows(seen: map<OrderId, Order>, fills: seq<Fill>)
    ensures seen.Keys <= Record(seen, fills).Keys
    decreases |fills|
  {
    if fills == [] {
    } else {
      var f := fills[0];
      assert seen.Keys <= seen[f.maker.id := AfterFill(f)].Keys;
      RecordGrows(seen[f.maker.id := AfterFill(f)], fills[1..]);
    }
  }

  lemma HandleGrows(w: World, o: Order, expired: bool, fees: Fees)
    requires Incoming(o)
    ensures w.seen.Keys + {o.id} <= Handle(w, o, expired, fees).seen.Keys
  {
    hide Process, Record;
    RecordGrows(w.seen, Process(w.engine, o, expired).1.fills);
  }

  /** No order leaves the record, and one that is submitted enters it. */
  lemma StepGrows(w: World, ev: Event, fees: Fees)
    requires Sound(w) && Admits(w, ev)
    ensures w.seen.Keys <= Step(w, ev, fees).seen.Keys
    ensures ev.Submit? ==> ev.order.id in Step(w, ev, fees).seen
  {
    hide Sound, Handle, Stops, Incoming, AbsentAll;
    match ev
    case Submit(o, expired) =>
      HandleGrows(w, o, expired, fees);
    case Deliver(i) =>
      if i < |w.engine.pending| {
        TakenReady(w, i);
        HandleGrows(w.(engine := TakePending(w.engine, i)), Converted(w.engine.pending[i]), false, fees);
      }
    case CancelOrder(id) =>
  }

  /** Every stop a run files is new to it, and filed once. */
  lemma {:induction false} PlacedOnce(w: World, evs: seq<Event>, fees: Fees, o: Order)
    requires Sound(w) && Admissible(w, evs, fees)
    ensures StopsPlaced(evs)[o] <= (if o.id in w.seen then 0 else 1)
    decreases |evs|
  {
    hide Sound, Step, Stops;
    if evs == [] {
    } else {
      var w1 := Step(w, evs[0], fees);
      StepSound(w, evs[0], fees);
      StepGrows(w, evs[0], fees);
      PlacedOnce(w1, evs[1..], fees, o);
    }
  }

  lemma Balanced(placed: multiset<Order>, delivered: multiset<Order>, left: multiset<Order>, before: multiset<Order>)
    requires before == multiset{} && left + delivered == before + placed
    ensures placed == delivered + left
  {
    assert before + placed == placed;
  }

  /** In every run from an empty engine, whatever came between the deliveries, the stops accepted are those delivered,
      those triggered and pending, and those still waiting; and none is delivered twice. */
  lemma StopsConserved(evs: seq<Event>, fees: Fees)
    requires Admissible(Start, evs, fees)
    ensures var delivered := StopsDelivered(Start, evs, fees);
      && StopsPlaced(evs) == delivered + Stops(Run(Start, evs, fees).engine)
      && (forall o :: o in delivered ==> delivered[o] == 1 && o !in Stops(Run(Start, evs, fees).engine))
  {
    hide Run, Admissible, Sound, StopsPlaced, StopsDelivered;
    StartSound();
    RunStops(Start, evs, fees);
    var delivered, left := StopsDelivered(Start, evs, fees), Stops(Run(Start, evs, fees).engine);
    assert Stops(Start.engine) == multiset{};
    Balanced(StopsPlaced(evs), delivered, left, Stops(Start.engine));
    forall o | o in delivered ensures delivered[o] == 1 && o !in left {
      PlacedOnce(Start, evs, fees, o);
      assert StopsPlaced(evs)[o] == delivered[o] + left[o];
    }
  }

  /** In every run from an empty engine, no bid ever reaches an ask. */
  lemma NeverCrossed(evs: seq<Event>, fees: Fees)
    requires Admissible(Start, evs, fees)
    ensures var e := Run(Start, evs, fees).engine;
      && (forall b, a :: b in e.bids && a in e.asks ==> b.price < a.price)
      && Ordered(ByPrice, Buy, e.bids) && Ordered(ByPrice, Sell, e.asks)
  {
    hide Run, Admissible;
    StartSound();
    RunSound(Start, evs, fees);
  }

  /** In every run, no order is filled beyond its quantity, a quantity-funded order's fill is exactly the
      sum of its trades, and everything on the book is live with something left to fill. */
  lemma FillsConserved(evs: seq<Event>, fees: Fees, id: OrderId)
    requires Admissible(Start, evs, fees) && id in Run(Start, evs, fees).seen
    ensures var w := Run(Start, evs, fees); var o := w.seen[id];
      && 0.0 <= o.filled <= o.quantity
      && (QuantityFunded(o) ==> o.filled == Traded(w.trades, id))
      && (!Absent(w.engine, id) ==> o.status.Live() && o.filled < o.quantity
                                    && (o in w.engine.bids || o in w.engine.asks))
  {
    hide Run, Admissible;
    StartSound();
    RunSound(Start, evs, fees);
    var w := Run(Start, evs, fees);
    if !Absent(w.engine, id) {
      assert w.seen[id] in w.engine.bids || w.seen[id] in w.engine.asks;
    }
  }

  // ----- why stops are delivered -----

  /** Some trade went through a stop's price. */
  ghost predicate Triggered(trades: seq<Trade>, o: Order) {
    exists i :: 0 <= i < |trades| && Fires(o.side, o.stopPrice, trades[i].price)
  }

  /** The last price is the last trade's, and every pending stop was triggered by some trade. */
  ghost predicate Honest(w: World) {
    && w.engine.lastPrice == (if w.trades == [] then 0.0 else w.trades[|w.trades| - 1].price)
    && forall o :: o in w.engine.pending ==> Triggered(w.trades, o)
  }

  lemma TriggeredStays(a: seq<Trade>, b: seq<Trade>, o: Order)
    requires Triggered(a, o)
    ensures Triggered(a + b, o)
  {
    var i :| 0 <= i < |a| && Fires(o.side, o.stopPrice, a[i].price);
    assert (a + b)[i] == a[i];
  }

  /** A stop check sets off only what the last trade goes through. */
  lemma CheckStopsHonest(e: State, trades: seq<Trade>)
    requires StopsSound(e) && e.lastPrice == (if trades == [] then 0.0 else trades[|trades| - 1].price)
    requires forall o :: o in e.pending ==> Triggered(trades, o)
    ensures forall o :: o in CheckStops(e).pending ==> Triggered(trades, o)
  {
    hide Ordered, Fired, Unfired, Waiting, Stops;
    FiredMembers(Buy, e.stopBuys, e.lastPrice);
    FiredMembers(Sell, e.stopSells, e.lastPrice);
    forall o | o in CheckStops(e).pending && o !in e.pending ensures Triggered(trades, o) {
      assert Fires(o.side, o.stopPrice, trades[|trades| - 1].price);
    }
  }

  lemma HandleHonest(w: World, o: Order, expired: bool, fees: Fees)
    requires StopsSound(w.engine) && Honest(w)
    ensures Honest(Handle(w, o, expired, fees))
  {
    hide Process, StopsSound, Triggered, CheckStops, Record, Mul;
    var e, r := w.engine, Process(w.engine, o, expired).1;
    var all := w.trades + TradesOf(r.fills, o, fees);
    forall p | p in e.pending ensures Triggered(all, p) { TriggeredStays(w.trades, TradesOf(r.fills, o, fees), p); }
    LastTraded(w.trades, r.fills, o, fees);
    if IsStop(o) {
      StopOnlyFiled(e, o, expired);
    } else {
      var x := ProcessChecked(e, o, expired);
      assert StopsSound(x) by { SameStopsSound(e, x); }
      CheckStopsHonest(x, all);
      CheckStopsKeepsBook(x);
    }
  }

  lemma LastTraded(trades: seq<Trade>, fills: seq<Fill>, o: Order, fees: Fees)
    ensures var all := trades + TradesOf(fills, o, fees);
      (if all == [] then 0.0 else all[|all| - 1].price)
        == LastPrice(if trades == [] then 0.0 else trades[|trades| - 1].price, fills)
  {
    hide Mul;
  }

  lemma StopOnlyFiled(e: State, o: Order, expired: bool)
    requires IsStop(o)
    ensures var (e', r) := Process(e, o, expired);
      e'.pending == e.pending && e'.lastPrice == e.lastPrice && r.fills == []
  {
  }

  lemma StepHonest(w: World, ev: Event, fees: Fees)
    requires Sound(w) && Honest(w)
    ensures Honest(Step(w, ev, fees))
  {
    hide Sound, Stops, Handle, Triggered, AbsentAll, Incoming;
    SoundStops(w);
    match ev
    case Submit(o, expired) =>
      HandleHonest(w, o, expired, fees);
    case Deliver(i) =>
      if i < |w.engine.pending| {
        var w1 := w.(engine := TakePending(w.engine, i));
        TakenReady(w, i);
        SoundStops(w1);
        HandleHonest(w1, Converted(w.engine.pending[i]), false, fees);
      }
    case CancelOrder(id) =>
  }

  lemma {:induction false} RunHonest(w: World, evs: seq<Event>, fees: Fees)
    requires Sound(w) && Honest(w) && Admissible(w, evs, fees)
    ensures Honest(Run(w, evs, fees))
    decreases |evs|
  {
    hide Sound, Step, Honest, Admits;
    if evs == [] {
    } else {
      StepSound(w, evs[0], fees);
      StepHonest(w, evs[0], fees);
      RunHonest(Step(w, evs[0], fees), evs[1..], fees);
    }
  }

  /** In every run a stop becomes pending, and so is delivered, only after some trade went through its stop price. */
  lemma DeliveredWereTriggered(evs: seq<Event>, fees: Fees, i: nat)
    requires Admissible(Start, evs, fees) && i < |Run(Start, evs, fees).engine.pending|
    ensures var w := Run(Start, evs, fees); Triggered(w.trades, w.engine.pending[i])
  {
    hide Run, Admissible, Sound;
    StartSound();
    RunHonest(Start, evs, fees);
  }

  // ----- the order stops are triggered in -----

  /** One order waits ahead of another. */
  ghost predicate Queued(s: seq<Order>, a: Order, b: Order) {
    exists p, q :: 0 <= p < q < |s| && s[p] == a && s[q] == b
  }

  lemma {:induction false} FiredInTurn(side: Side, s: seq<Order>, last: real, i: nat, j: nat)
    requires i < j < |Fired(side, s, last)|
    ensures Queued(s, Fired(side, s, last)[i], Fired(side, s, last)[j])
    decreases |s|
  {
    var fired, rest := Fired(side, s, last), Fired(side, s[1..], last);
    if Fires(side, s[0].stopPrice, last) && i == 0 {
      FiredMembers(side, s[1..], last);
      assert fired[j] == rest[j - 1] && rest[j - 1] in rest;
      var q :| 0 <= q < |s[1..]| && s[1..][q] == fired[j];
      assert s[q + 1] == fired[j];
    } else {
      var n := if Fires(side, s[0].stopPrice, last) then 1 else 0;
      FiredInTurn(side, s[1..], last, i - n, j - n);
      var p, q :| 0 <= p < q < |s[1..]| && s[1..][p] == rest[i - n] && s[1..][q] == rest[j - n];
      assert s[p + 1] == fired[i] && s[q + 1] == fired[j];
    }
  }

  /** Sells go before buys; sells go from the lowest stop price up and buys from the highest down, in the order they
      wait. */
  ghost predicate InTurn(e: State, a: Order, b: Order) {
    && (a.side.Buy? ==> b.side.Buy?)
    && (a.side.Sell? && b.side.Sell? ==> a.stopPrice <= b.stopPrice && Queued(e.stopSells, a, b))
    && (a.side.Buy? && b.side.Buy? ==> a.stopPrice >= b.stopPrice && Queued(e.stopBuys, a, b))
  }

  lemma CheckedInTurn(e: State, i: nat, j: nat)
    requires StopsSound(e) && |e.pending| <= i < j < |CheckStops(e).pending|
    ensures e.pending <= CheckStops(e).pending && InTurn(e, CheckStops(e).pending[i], CheckStops(e).pending[j])
  {
    hide Fired, Unfired, Waiting, Stops, Queued;
    var sells, buys := Fired(Sell, e.stopSells, e.lastPrice), Fired(Buy, e.stopBuys, e.lastPrice);
    var all, n := CheckStops(e).pending, |e.pending|;
    FiredMembers(Sell, e.stopSells, e.lastPrice);
    FiredMembers(Buy, e.stopBuys, e.lastPrice);
    assert all[n..] == sells + buys && all[i] == (sells + buys)[i - n] && all[j] == (sells + buys)[j - n];
    if j - n < |sells| {
      FiredInTurn(Sell, e.stopSells, e.lastPrice, i - n, j - n);
      QueuedOrdered(Sell, e.stopSells, all[i], all[j]);
    } else if i - n >= |sells| {
      FiredInTurn(Buy, e.stopBuys, e.lastPrice, i - n - |sells|, j - n - |sells|);
      QueuedOrdered(Buy, e.stopBuys, all[i], all[j]);
    } else {
      assert all[i] in sells && all[j] in buys;
    }
  }

  lemma QueuedOrdered(side: Side, s: seq<Order>, a: Order, b: Order)
    requires Ordered(ByStop, side, s) && Queued(s, a, b)
    ensures if side.Sell? then a.stopPrice <= b.stopPrice else a.stopPrice >= b.stopPrice
  {
  }

  /** In every run, the stops that one more order sets off join the pending list behind those that are there, in turn.
      */
  lemma TriggeredInTurn(evs: seq<Event>, fees: Fees, o: Order, expired: bool, i: nat, j: nat)
    requires Admissible(Start, evs, fees) && !IsStop(o)
    requires var e := Run(Start, evs, fees).engine; |e.pending| <= i < j < |Process(e, o, expired).0.pending|
    ensures var e := Run(Start, evs, fees).engine; var pending := Process(e, o, expired).0.pending;
      && e.pending <= pending
      && var a, b := pending[i], pending[j];
      && (a.side.Buy? ==> b.side.Buy?)
      && (a.side.Sell? && b.side.Sell? ==> a.stopPrice <= b.stopPrice && Queued(e.stopSells, a, b))
      && (a.side.Buy? && b.side.Buy? ==> a.stopPrice >= b.stopPrice && Queued(e.stopBuys, a, b))
  {
    hide Run, Admissible, Process, CheckStops, StopsSound, Queued;
    StartSound();
    RunSound(Start, evs, fees);
    var e := Run(Start, evs, fees).engine;
    var x := ProcessChecked(e, o, expired);
    SameStopsSound(e, x);
    CheckedInTurn(x, i, j);
  }

  /** A new stop waits behind every stop of its side at its own stop price. */
  lemma StopsQueueUp(e: State, o: Order, x: Order)
    requires StopsSound(e) && IsStop(o) && x.stopPrice == o.stopPrice
    requires x in (if o.side.Buy? then e.stopBuys else e.stopSells)
    ensures var e' := Process(e, o, false).0;
      Queued(if o.side.Buy? then e'.stopBuys else e'.stopSells, x, o.(status := Pending))
  {
    hide Waiting, Stops, Insert;
    var s, at := if o.side.Buy? then e.stopBuys else e.stopSells, o.(status := Pending);
    var n := InsertSplits(ByStop, o.side, s, at);
    var p :| 0 <= p < |s| && s[p] == x;
    assert p < n;
    var s' := Insert(ByStop, o.side, s, at);
    assert s'[p] == x && s'[n] == at;
  }

  // ----- finished orders -----

  ghost predicate Untouched(w: World, w': World, id: OrderId) {
    && id in w.seen && id in w'.seen && w'.seen[id] == w.seen[id]
    && |w.trades| <= |w'.trades| && w'.trades[..|w.trades|] == w.trades
    && (forall i :: |w.trades| <= i < |w'.trades| ==> w'.trades[i].makerOrder != id && w'.trades[i].takerOrder != id)
  }

  lemma UntouchedChain(a: World, b: World, c: World, id: OrderId)
    requires Untouched(a, b, id) && Untouched(b, c, id)
    ensures Untouched(a, c, id)
  {
    assert forall i :: 0 <= i < |b.trades| ==> c.trades[i] == c.trades[..|b.trades|][i];
  }

  lemma HandleFinal(w: World, o: Order, expired: bool, fees: Fees, id: OrderId)
    requires Sound(w) && Incoming(o) && AbsentAll(w.engine, o.id) && FreshOrWaiting(w.seen, o)
    requires id in w.seen && w.seen[id].status.Terminal() && id != o.id
    ensures Untouched(w, Handle(w, o, expired, fees), id)
  {
    hide Process, BookSound, StopsSound, Record, Faithful, AbsentAll, Incoming, Mul, Registered, Given, FreshOrWaiting;
    ProcessRegistered(w.engine, w.seen, o, expired);
    var r := Process(w.engine, o, expired).1;
    FaithfulGives(w.seen, r.fills, id);
  }

  lemma UntouchedRefl(w: World, id: OrderId)
    requires id in w.seen
    ensures Untouched(w, w, id)
  {
  }

  lemma UntouchedSelf(w: World, w1: World, w2: World, id: OrderId)
    requires w.seen == w1.seen && w.trades == w1.trades && Untouched(w1, w2, id)
    ensures Untouched(w, w2, id)
  {
  }

  lemma UntouchedSame(w: World, w': World, id: OrderId)
    requires Untouched(w, w', id)
    ensures id in w'.seen && id in w.seen && w'.seen[id] == w.seen[id]
  {
  }

  lemma StepFinal(w: World, ev: Event, fees: Fees, id: OrderId)
    requires Sound(w) && Admits(w, ev) && id in w.seen && w.seen[id].status.Terminal()
    ensures Untouched(w, Step(w, ev, fees), id)
  {
    hide Sound, Handle, Untouched, Incoming, Stops, AbsentAll;
    match ev
    case Submit(o, expired) =>
      SubmitReady(w, o);
      HandleFinal(w, o, expired, fees, id);
    case Deliver(i) =>
      if i < |w.engine.pending| {
        TakenReady(w, i);
        var w1 := w.(engine := TakePending(w.engine, i));
        HandleFinal(w1, Converted(w.engine.pending[i]), false, fees, id);
        UntouchedSelf(w, w1, Step(w, ev, fees), id);
      } else {
        UntouchedRefl(w, id);
      }
    case CancelOrder(x) =>
      CancelFinal(w, x, fees, id);
  }

  lemma CancelFinal(w: World, x: OrderId, fees: Fees, id: OrderId)
    requires Sound(w) && id in w.seen && w.seen[id].status.Terminal()
    ensures Untouched(w, Step(w, CancelOrder(x), fees), id)
  {
    hide Without, StopsSound, Accounted;
    LiveNotPending(w.engine, w.seen, id);
  }

  /** Terminal is final: however a run goes on, an order once filled, cancelled, rejected or expired is not
      on the book, keeps its exact value, and takes part in no later trade. */
  lemma {:induction false} TerminalIsFinal(w: World, evs: seq<Event>, fees: Fees, id: OrderId)
    requires Sound(w) && Admissible(w, evs, fees)
    requires id in w.seen && w.seen[id].status.Terminal()
    ensures Untouched(w, Run(w, evs, fees), id)
    ensures Absent(Run(w, evs, fees).engine, id)
    decreases |evs|
  {
    hide Sound, Step, Untouched, Absent, Admits;
    if evs == [] {
      UntouchedRefl(w, id);
      assert Absent(w.engine, id) by { FinishedAbsent(w, id); }
    } else {
      var w1 := Step(w, evs[0], fees);
      StepSound(w, evs[0], fees);
      StepFinal(w, evs[0], fees, id);
      UntouchedSame(w, w1, id);
      TerminalIsFinal(w1, evs[1..], fees, id);
      UntouchedChain(w, w1, Run(w, evs, fees), id);
    }
  }

  lemma FinishedAbsent(w: World, id: OrderId)
    requires Sound(w) && id in w.seen && w.seen[id].status.Terminal()
    ensures Absent(w.engine, id)
  {
    hide StopsSound, Accounted;
    LiveNotPending(w.engine, w.seen, id);
  }

  // ----- stops and the last price -----

  /** No waiting stop is triggered by the last trade. */
  ghost predicate Quiet(e: State) {
    e.lastPrice != 0.0 ==>
      && (forall o :: o in e.stopBuys ==> o.stopPrice > e.lastPrice)
      && (forall o :: o in e.stopSells ==> o.stopPrice < e.lastPrice)
  }

  /** The stop check is exhaustive. */
  lemma CheckStopsQuiet(e: State)
    ensures Quiet(CheckStops(e))
  {
    if e.lastPrice != 0.0 {
      FiredMembers(Buy, e.stopBuys, e.lastPrice);
      FiredMembers(Sell, e.stopSells, e.lastPrice);
    }
  }

  /** Processing any order but a stop keeps the stop book quiet; matching makes it so whatever it was. */
  lemma ProcessQuiet(e: State, o: Order, expired: bool)
    requires !IsStop(o)
    ensures Quiet(e) ==> Quiet(Process(e, o, expired).0)
    ensures Process(e, o, expired).1.fills != [] ==> Quiet(Process(e, o, expired).0)
  {
    hide MatchQuantity, MatchMarket, Fillable, Insert, LimitTaker, MarketTaker, CheckStops, Quiet;
    forall x: State ensures Quiet(CheckStops(x)) { CheckStopsQuiet(x); }
    var e0 := e.(sequence := e.sequence + 1);
    assert Quiet(e) ==> Quiet(e0) by { QuietSame(e, e0); }
  }

  lemma QuietSame(a: State, b: State)
    requires a.stopBuys == b.stopBuys && a.stopSells == b.stopSells && a.lastPrice == b.lastPrice
    ensures Quiet(a) == Quiet(b)
  {
  }

  /** Whatever trades, once its cascade has run no waiting stop is triggered by the last price. */
  lemma {:induction false} CascadeQuiet(w: World, fees: Fees)
    requires Sound(w) && Quiet(w.engine)
    ensures Quiet(Cascade(w, fees).0.engine)
    decreases w.engine.StopCount()
  {
    hide Sound, Stops, Handle, Quiet;
    if w.engine.pending == [] {
    } else {
      var o, w1 := w.engine.pending[0], w.(engine := PopPending(w.engine));
      PoppedReady(w);
      StopCountKept(w1.engine, Converted(o), false);
      HandleSound(w1, Converted(o), false, fees);
      HandleEngine(w1, Converted(o), false, fees);
      QuietSame(w.engine, w1.engine);
      ProcessQuiet(w1.engine, Converted(o), false);
      CascadeQuiet(Handle(w1, Converted(o), false, fees), fees);
    }
  }

  /** Anything but placing a stop keeps a quiet stop book quiet. */
  lemma StepQuiet(w: World, ev: Event, fees: Fees)
    requires Sound(w) && Quiet(w.engine) && !(ev.Submit? && IsStop(ev.order))
    ensures Quiet(Step(w, ev, fees).engine)
  {
    hide Sound, Stops, Handle, Quiet, Incoming, AbsentAll, Process;
    match ev
    case Submit(o, expired) =>
      HandleEngine(w, o, expired, fees);
      ProcessQuiet(w.engine, o, expired);
    case Deliver(i) =>
      if i < |w.engine.pending| {
        var o, w1 := w.engine.pending[i], w.(engine := TakePending(w.engine, i));
        TakenReady(w, i);
        HandleEngine(w1, Converted(o), false, fees);
        QuietSame(w.engine, w1.engine);
        ProcessQuiet(w1.engine, Converted(o), false);
      }
    case CancelOrder(id) =>
      QuietSame(w.engine, Cancel(w.engine, id));
  }

  ghost predicate PlacesNoStop(evs: seq<Event>) {
    forall i :: 0 <= i < |evs| && evs[i].Submit? ==> !IsStop(evs[i].order)
  }

  lemma {:induction false} RunQuiet(w: World, evs: seq<Event>, fees: Fees)
    requires Sound(w) && Admissible(w, evs, fees) && Quiet(w.engine) && PlacesNoStop(evs)
    ensures Quiet(Run(w, evs, fees).engine)
    decreases |evs|
  {
    hide Sound, Step, Quiet, Admits;
    if evs == [] {
    } else {
      StepSound(w, evs[0], fees);
      StepQuiet(w, evs[0], fees);
      RunQuiet(Step(w, evs[0], fees), evs[1..], fees);
    }
  }

  /** After a submission that trades no waiting stop is triggered by the last price, and none is while plain orders,
      deliveries and cancels follow, in whatever order, until another stop is placed. */
  lemma TradesSettleStops(w: World, o: Order, expired: bool, evs: seq<Event>, fees: Fees)
    requires Sound(w) && !IsStop(o) && Process(w.engine, o, expired).1.fills != []
    requires Admissible(w, [Submit(o, expired)] + evs, fees) && PlacesNoStop(evs)
    ensures Quiet(Run(w, [Submit(o, expired)] + evs, fees).engine)
  {
    hide Sound, Handle, Quiet, Process, Admits;
    var ev, all := Submit(o, expired), [Submit(o, expired)] + evs;
    assert all[1..] == evs;
    StepSound(w, ev, fees);
    HandleEngine(w, o, expired, fees);
    ProcessQuiet(w.engine, o, expired);
    RunQuiet(Step(w, ev, fees), evs, fees);
  }

  /** Placing a stop checks nothing: it leaves a quiet stop book quiet exactly when the last price does not
      already trigger it. */
  lemma StopPlacementUnchecked(e: State, o: Order)
    requires Quiet(e) && IsStop(o) && e.lastPrice != 0.0
    requires Ordered(ByStop, o.side, if o.side.Buy? then e.stopBuys else e.stopSells)
    ensures Quiet(Process(e, o, false).0) <==> !Fires(o.side, o.stopPrice, e.lastPrice)
    ensures Process(e, o, false).0.pending == e.pending
  {
    hide Insert;
    var t := o.(status := Pending);
    InsertMembers(ByStop, o.side, if o.side.Buy? then e.stopBuys else e.stopSells, t);
  }

  /** Cancelling never reaches a waiting stop: it stays in the stop book and the next trade through its
      price still sets it off. */
  lemma CancelMissesStops(w: World, fees: Fees, o: Order, last: real)
    requires Sound(w) && last > 0.0
    requires o in (if o.side.Buy? then w.engine.stopBuys else w.engine.stopSells)
    ensures var e := Step(w, CancelOrder(o.id), fees).engine;
      && o in (if o.side.Buy? then e.stopBuys else e.stopSells)
      && (o in CheckStops(e.(lastPrice := last)).pending <==> Fires(o.side, o.stopPrice, last))
  {
    hide Without, BookSound, Registered, Accounted, StopsSound, Fired, Unfired, Stops;
    FiredMembers(Buy, w.engine.stopBuys, last);
    FiredMembers(Sell, w.engine.stopSells, last);
    WaitingIsNotPending(w.engine, o);
  }

  lemma WaitingIsNotPending(e: State, o: Order)
    requires StopsSound(e) && o in (if o.side.Buy? then e.stopBuys else e.stopSells)
    ensures o !in e.pending
    ensures o !in (if o.side.Buy? then e.stopSells else e.stopBuys)
  {
    hide Waiting, Ordered;
    assert o in Stops(e);
    assert Stops(e)[o] == multiset(e.stopBuys)[o] + multiset(e.stopSells)[o] + multiset(e.pending)[o];
    assert multiset(e.pending)[o] == 0;
  }

  // ----- two runs -----

  /** A user's limit order for one coin. */
  function OneCoin(id: OrderId, user: UserId, side: Side, price: real): Order {
    Order(id, user, side, Limit, price, 1.0, 0.0, 0.0, 0.0, Gtc, 0.0, Pending)
  }

  /** One coin offered by a user and then bought by the same at a price, on an engine with empty sides that has not
      traded yet. */
  ghost function TradeAt(w: World, user: UserId, price: real, fees: Fees): World {
    Step(Step(w, Submit(OneCoin(1, user, Sell, price), false), fees), Submit(OneCoin(2, user, Buy, price), false), fees)
  }

  lemma OfferRests(e: State, o: Order)
    requires e.bids == e.asks == [] && e.lastPrice == 0.0 && o.price > 0.0
    requires o == OneCoin(o.id, o.user, Sell, o.price)
    ensures Process(e, o, false).0 == e.(asks := [o.(status := Open)], sequence := e.sequence + 1)
  {
    assert Insert(ByPrice, Sell, [], o.(status := Open)) == [o.(status := Open)];
  }

  lemma OfferTaken(e: State, ask: Order, o: Order)
    requires e.bids == [] && e.asks == [ask] && ask == OneCoin(ask.id, ask.user, Sell, o.price).(status := Open)
    requires o == OneCoin(o.id, o.user, Buy, o.price) && o.price > 0.0
    ensures Process(e, o, false).0
         == CheckStops(e.(asks := [], lastPrice := o.price, sequence := e.sequence + 1))
  {
    hide CheckStops;
    var m := MatchQuantity([ask], Buy, At(o.price), 1.0);
    assert [ask][1..] == [];
    assert MatchQuantity([], Buy, At(o.price), 0.0) == Outcome([], [], 0.0);
    assert m == Outcome([Fill(ask, 1.0)] + [], [], 0.0);
  }

  lemma TradedAt(w: World, user: UserId, price: real, fees: Fees)
    requires w.engine.bids == w.engine.asks == [] && w.engine.lastPrice == 0.0 && price > 0.0
    ensures TradeAt(w, user, price, fees).engine
         == CheckStops(w.engine.(lastPrice := price, sequence := w.engine.sequence + 2))
  {
    hide Process, Handle, CheckStops;
    var ask, bid := OneCoin(1, user, Sell, price), OneCoin(2, user, Buy, price);
    var w1 := Handle(w, ask, false, fees);
    HandleEngine(w, ask, false, fees);
    HandleEngine(w1, bid, false, fees);
    OfferRests(w.engine, ask);
    OfferTaken(w1.engine, ask.(status := Open), bid);
    assert w1.engine.(asks := [], lastPrice := price, sequence := w1.engine.sequence + 1)
        == w.engine.(lastPrice := price, sequence := w.engine.sequence + 2);
  }

  /** A user's stop sell at 12. */
  function StopAtTwelve(user: UserId): Order {
    Order(0, user, Sell, StopMarket, 0.0, 1.0, 0.0, 0.0, 12.0, Gtc, 0.0, Pending)
  }

  /** Submitted after a trade at 10 it is placed though it is already triggered, and waits in the stop book. */
  lemma StopPlacementExample(user: UserId, fees: Fees)
    ensures var w := TradeAt(Start, user, 10.0, fees); var e := Step(w, Submit(StopAtTwelve(user), false), fees).engine;
      Quiet(w.engine) && !Quiet(e) && e.stopSells == [StopAtTwelve(user)] && e.pending == []
  {
    hide Process, Handle, TradeAt;
    var w := TradeAt(Start, user, 10.0, fees);
    TradedAt(Start, user, 10.0, fees);
    CheckStopsQuiet(Start.engine.(lastPrice := 10.0, sequence := 2));
    HandleEngine(w, StopAtTwelve(user), false, fees);
    StopPlacementUnchecked(w.engine, StopAtTwelve(user));
    StopFiled(w.engine, StopAtTwelve(user));
  }

  lemma StopFiled(e: State, o: Order)
    requires o.kind.StopMarket? && o.side.Sell? && o.status.Pending? && e.stopSells == []
    ensures Process(e, o, false).0 == e.(stopSells := [o], sequence := e.sequence + 1)
  {
    assert Insert(ByStop, Sell, [], o) == [o];
  }

  /** Submitted to an empty engine and cancelled, it still waits, and a trade at 11 sets it off. */
  lemma CancelStopExample(user: UserId, fees: Fees)
    ensures var w := Step(Step(Start, Submit(StopAtTwelve(user), false), fees), CancelOrder(0), fees);
      w.engine.stopSells == [StopAtTwelve(user)] && TradeAt(w, user, 11.0, fees).engine.pending == [StopAtTwelve(user)]
  {
    hide Process, Handle, TradeAt;
    var w := Step(Step(Start, Submit(StopAtTwelve(user), false), fees), CancelOrder(0), fees);
    HandleEngine(Start, StopAtTwelve(user), false, fees);
    StopFiled(EmptyState, StopAtTwelve(user));
    assert w.engine == EmptyState.(stopSells := [StopAtTwelve(user)], sequence := 1);
    TradedAt(w, user, 11.0, fees);
    assert Fired(Sell, [StopAtTwelve(user)], 11.0) == [StopAtTwelve(user)];
  }
}
