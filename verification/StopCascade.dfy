/** Delivering triggered stops (backend/app/api/v1/trading.py:194-246): the loop that takes the pending list in
    batches, turns each stop into a plain order and processes it, until no batch comes back. */
module StopCascade {
  import opened Orders
  import opened Priority
  import opened Matching
  import opened Levels
  import opened EngineModel
  import opened EngineProofs
  import opened Runs
  import opened RunTheorems
  import opened BookSides
  import opened StopBooks
  import opened OrderBooks
  import opened Engine

  lemma CheckStopsAhead(e: State, ahead: seq<Order>)
    ensures CheckStops(e.(pending := ahead + e.pending)) == CheckStops(e).(pending := ahead + CheckStops(e).pending)
  {
    hide Fired, Unfired;
    var f := Fired(Sell, e.stopSells, e.lastPrice) + Fired(Buy, e.stopBuys, e.lastPrice);
    assert ahead + (e.pending + f) == ahead + e.pending + f;
  }

  /** Orders ahead in the pending list play no part in processing another one. */
  lemma PendingAhead(e: State, ahead: seq<Order>, o: Order)
    requires !IsStop(o)
    ensures var (e1, r) := Process(e, o, false);
      Process(e.(pending := ahead + e.pending), o, false) == (e1.(pending := ahead + e1.pending), r)
  {
    hide MatchQuantity, MatchMarket, Fillable, Insert, LimitTaker, MarketTaker, CheckStops;
    forall x: State | x.pending == e.pending
      ensures CheckStops(x.(pending := ahead + e.pending)) == CheckStops(x).(pending := ahead + CheckStops(x).pending)
    {
      CheckStopsAhead(x, ahead);
    }
  }

  /** What is left of a batch, seen as the head of the pending list. */
  ghost predicate Virtual(e: State, batch: seq<Order>, w: World) {
    w.engine == e.(pending := batch + e.pending)
  }

  /** Handling the head of a batch is processing it on the engine without the batch. */
  lemma HandleHead(e: State, batch: seq<Order>, w: World, fees: Fees)
    requires Sound(w) && batch != [] && Virtual(e, batch, w)
    ensures var o := batch[0]; var w1 := w.(engine := PopPending(w.engine));
      && IsStop(o) && Incoming(Converted(o)) && Absent(e, o.id) && BookSound(e)
      && Sound(Handle(w1, Converted(o), false, fees))
      && Virtual(Process(e, Converted(o), false).0, batch[1..], Handle(w1, Converted(o), false, fees))
      && Handle(w1, Converted(o), false, fees).engine.StopCount() < w.engine.StopCount()
      && Cascade(w, fees) == (var (w', rest) := Cascade(Handle(w1, Converted(o), false, fees), fees); (w', [o] + rest))
  {
    hide Process, SideSound, Uncrossed, Ordered, Registered, Accounted, Incoming, FreshOrWaiting, Record, TradesOf,
         Stops;
    var o, w1 := batch[0], w.(engine := PopPending(w.engine));
    PoppedReady(w);
    assert (batch + e.pending)[1..] == batch[1..] + e.pending;
    StopCountKept(w1.engine, Converted(o), false);
    HandleSound(w1, Converted(o), false, fees);
    HandleEngine(w1, Converted(o), false, fees);
    PendingAhead(e, batch[1..], Converted(o));
    AbsentBook(w1.engine, o.id);
  }

  ghost predicate Delivers(w0: World, done: seq<Order>, w: World, fees: Fees) {
    var (w', rest) := Cascade(w, fees);
    Cascade(w0, fees) == (w', done + rest)
  }

  lemma NothingDelivered(w: World, fees: Fees)
    ensures Delivers(w, [], w, fees)
  {
    hide Cascade;
    assert [] + Cascade(w, fees).1 == Cascade(w, fees).1;
  }

  lemma DeliverOne(w0: World, done: seq<Order>, w: World, o: Order, fees: Fees)
    requires Delivers(w0, done, w, fees) && IsStop(o) && w.engine.pending != []
    requires var w1 := Handle(w.(engine := PopPending(w.engine)), Converted(o), false, fees);
      Cascade(w, fees) == (var (w', rest) := Cascade(w1, fees); (w', [o] + rest))
    ensures Delivers(w0, done + [o], Handle(w.(engine := PopPending(w.engine)), Converted(o), false, fees), fees)
  {
    hide Cascade, Handle;
    var rest := Cascade(Handle(w.(engine := PopPending(w.engine)), Converted(o), false, fees), fees).1;
    assert done + ([o] + rest) == done + [o] + rest;
  }

  lemma SoundPending(w: World)
    requires Sound(w)
    ensures PendingApart(w.engine) && UniqueIds(w.engine.pending)
    ensures w.engine.pending == [] ==> forall fees :: Cascade(w, fees) == (w, [])
  {
    hide BookSound, Accounted;
    var p, e := w.engine.pending, w.engine;
    forall v | v in p ensures v !in e.stopBuys && v !in e.stopSells {
      assert v in Stops(e);
      assert Stops(e)[v] == multiset(e.stopBuys)[v] + multiset(e.stopSells)[v] + multiset(p)[v];
      assert multiset(e.stopBuys)[v] == 0 && multiset(e.stopSells)[v] == 0;
    }
    forall i, j | 0 <= i < j < |p| ensures p[i].id != p[j].id {
      assert p[i] in Stops(e) && p[j] in Stops(e);
      assert Stops(e)[p[i]] == multiset(e.stopBuys)[p[i]] + multiset(e.stopSells)[p[i]] + multiset(p)[p[i]];
      PairCount(p, i, j);
    }
  }

  lemma PairCount(p: seq<Order>, i: nat, j: nat)
    requires i < j < |p| && multiset(p)[p[i]] <= 1
    ensures p[i] != p[j]
  {
    assert p == p[..j] + [p[j]] + p[j + 1..];
    assert p[..j][i] == p[i];
    assert multiset(p)[p[i]] == multiset(p[..j])[p[i]] + multiset([p[j]])[p[i]] + multiset(p[j + 1..])[p[i]];
  }

  /** Turn one triggered stop into a plain order and process it. */
  method DeliverStop(engine: MatchingEngine, order: EngineOrder, ghost rest: seq<Order>, ghost w: World,
                     ghost fees: Fees)
    requires engine.Valid() && Sound(w) && Virtual(engine.View(), [order.Value()] + rest, w)
    requires order !in engine.book.Resting() && order !in engine.book.waiting
    modifies engine`pending, order, engine.book, engine.book.Repr, engine.book.Resting()
    ensures engine.Valid()
    ensures fresh(engine.book.Repr - old(engine.book.Repr))
    ensures engine.book.Resting() <= old(engine.book.Resting()) + {order}
    ensures engine.book.waiting <= old(engine.book.waiting) + {order}
    ensures w.engine.pending != [] && IsStop(old(order.Value()))
    ensures var w1 := Handle(w.(engine := PopPending(w.engine)), Converted(old(order.Value())), false, fees);
      && Sound(w1) && Virtual(engine.View(), rest, w1) && w1.engine.StopCount() < w.engine.StopCount()
      && Cascade(w, fees)
         == (var (w', more) := Cascade(w1, fees); (w', [old(order.Value())] + more))
  {
    hide Sound, Cascade, Handle, MatchingEngine.Valid, MatchingEngine.View, BookSound, Incoming, Absent, Process;
    ghost var batch := [order.Value()] + rest;
    assert batch[1..] == rest;
    HandleHead(engine.View(), batch, w, fees);
    engine.Apart(order);
    KindOutside(engine, order);
    engine.IndexView();
    var _, _ := engine.ProcessOrder(order, false);
  }

  /** Changing the kind of an order that is on no book and in no stop queue disturbs nothing. */
  method KindOutside(engine: MatchingEngine, order: EngineOrder)
    requires engine.Valid() && IsStop(order.Value())
    requires order !in engine.book.Resting() && order !in engine.book.waiting
    modifies order`kind
    ensures engine.Valid() && engine.View() == old(engine.View())
    ensures order.Value() == Converted(old(order.Value()))
  {
    hide BookSide.Loose, BookSide.Filed, BookSide.NoEmptyLevel, BookSide.View, StopView, StopsFiled, BookParts,
         Indexes, Sided;
    order.kind := if order.kind.StopMarket? then Market else Limit;
  }

  /** Deliver one batch, in order. */
  method DeliverBatch(engine: MatchingEngine, batch: seq<EngineOrder>, ghost w0: World, ghost fees: Fees)
      returns (ghost w: World, ghost delivered: seq<Order>)
    requires engine.Valid() && Sound(w0) && Virtual(engine.View(), Values(batch), w0) && DistinctIds(batch)
    requires forall o :: o in batch ==> o !in engine.book.Resting() && o !in engine.book.waiting
    modifies engine`pending, engine.book, engine.book.Repr, engine.book.Resting(), batch
    ensures engine.Valid() && Sound(w) && w.engine == engine.View() && Delivers(w0, delivered, w, fees)
    ensures fresh(engine.book.Repr - old(engine.book.Repr))
    ensures engine.book.Resting() <= old(engine.book.Resting()) + (set o | o in batch)
    ensures engine.book.waiting <= old(engine.book.waiting) + (set o | o in batch)
    ensures w.engine.StopCount() <= w0.engine.StopCount() - |batch|
  {
    hide Sound, Cascade, Handle, MatchingEngine.Valid, MatchingEngine.View, StopsSound, BookSound, Incoming, Absent,
         Delivers, Virtual, DistinctIds;
    w, delivered := w0, [];
    NothingDelivered(w0, fees);
    var todo := batch;
    while todo != []
      invariant engine.Valid() && Sound(w) && Virtual(engine.View(), Values(todo), w)
      invariant Delivers(w0, delivered, w, fees)
      invariant fresh(engine.book.Repr - old(engine.book.Repr))
      invariant DistinctIds(todo) && |todo| <= |batch|
      invariant forall o :: o in todo ==> o in batch && o !in engine.book.Resting() && o !in engine.book.waiting
      invariant engine.book.Resting() <= old(engine.book.Resting()) + (set o | o in batch)
      invariant engine.book.waiting <= old(engine.book.waiting) + (set o | o in batch)
      invariant w.engine.StopCount() <= w0.engine.StopCount() - |batch| + |todo|
    {
      var order, rest := todo[0], todo[1..];
      ghost var o, later := order.Value(), Values(rest);
      HeadAndRest(order, rest, todo);
      forall x | x in rest ensures x !in engine.book.Repr { engine.Apart(x); }
      DeliverStop(engine, order, later, w, fees);
      assert Values(rest) == later;
      DeliverOne(w0, delivered, w, o, fees);
      delivered, w := delivered + [o], Handle(w.(engine := PopPending(w.engine)), Converted(o), false, fees);
      todo := rest;
    }
    BatchDone(engine.View(), w, Values(todo));
  }

  lemma BatchDone(e: State, w: World, none: seq<Order>)
    requires none == [] && Virtual(e, none, w)
    ensures w.engine == e
  {
    assert [] + e.pending == e.pending;
  }

  lemma HeadAndRest(order: EngineOrder, rest: seq<EngineOrder>, all: seq<EngineOrder>)
    requires all != [] && order == all[0] && rest == all[1..] && DistinctIds(all)
    ensures Values(all) == [order.Value()] + Values(rest)
    ensures order in all && order !in rest && DistinctIds(rest) && forall o :: o in rest ==> o in all
  {
    forall k | 0 <= k < |rest| ensures rest[k].id != order.id {
      assert all[k + 1] == rest[k];
    }
  }

  lemma EngineApart(engine: MatchingEngine)
    requires engine.Valid()
    ensures engine !in engine.book.Repr && engine.book in engine.book.Repr
  {
  }

  /** Batch after batch until none comes back: in all, exactly the first-in, first-out cascade. */
  method ProcessTriggeredStops(engine: MatchingEngine, ghost w0: World)
      returns (ghost w: World, ghost delivered: seq<Order>)
    requires engine.Valid() && Sound(w0) && w0.engine == engine.View()
    modifies engine`pending, engine.book, engine.book.Repr, engine.book.Resting(), engine.book.waiting
    ensures engine.Valid() && w.engine == engine.View()
    ensures (w, delivered) == Cascade(w0, engine.FeesNow())
  {
    hide Sound, Cascade, Handle, MatchingEngine.Valid, MatchingEngine.View, Delivers, PendingApart;
    EngineApart(engine);
    w, delivered := w0, [];
    ghost var fees := engine.FeesNow();
    ghost var open := engine.book.Resting() + engine.book.waiting;
    assert forall o :: o in open ==> o in old(engine.book.Resting()) || o in old(engine.book.waiting);
    NothingDelivered(w0, fees);
    while true
      invariant engine.Valid() && Sound(w) && w.engine == engine.View()
      invariant Delivers(w0, delivered, w, fees)
      invariant fresh(engine.book.Repr - old(engine.book.Repr))
      invariant engine.book.Resting() <= open && engine.book.waiting <= open
      decreases w.engine.StopCount()
    {
      SoundPending(w);
      ghost var held := engine.book.waiting;
      var batch := engine.GetPendingStopOrders();
      forall o | o in batch ensures o in open {
        assert o in held;
      }
      if batch == [] {
        break;
      }
      ghost var w1, more := DeliverBatch(engine, batch, w, fees);
      DeliverMore(w0, delivered, w, more, w1, fees);
      delivered, w := delivered + more, w1;
    }
    SoundPending(w);
    AllDelivered(w0, delivered, w, fees);
  }

  lemma DeliverMore(w0: World, a: seq<Order>, w: World, b: seq<Order>, w1: World, fees: Fees)
    requires Delivers(w0, a, w, fees) && Delivers(w, b, w1, fees)
    ensures Delivers(w0, a + b, w1, fees)
  {
    hide Cascade;
    assert a + (b + Cascade(w1, fees).1) == a + b + Cascade(w1, fees).1;
  }

  lemma AllDelivered(w0: World, done: seq<Order>, w: World, fees: Fees)
    requires Delivers(w0, done, w, fees) && w.engine.pending == []
    ensures Cascade(w0, fees) == (w, done)
  {
    assert done + [] == done;
  }
}
