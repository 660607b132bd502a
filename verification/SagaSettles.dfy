/** The saga is never stuck: from every state its own relayers and handlers can bring it to rest. */
module SagaSettles {
  import opened Events
  import opened OrderDb
  import opened ProductDb
  import opened Saga
  import opened SagaInvariants
  import opened SagaTheorems
  import opened SagaCalls
  import opened SagaStock
  import CartConsumer
  import CartDb
  import Draining
  import Inboxes
  import Outboxes
  import Relayer

  /** A step of a relayer or of a message handler. */
  predicate Internal(step: Step) {
    step.OrderRelay? || step.ProductRelay? || step.ProductHandler? || step.CartHandler? || step.FailureHandler?
  }

  ghost predicate AllInternal(steps: seq<Step>) {
    forall i :: 0 <= i < |steps| ==> Internal(steps[i])
  }

  // ------------------------------------------------ the three consumers

  predicate StockDone(db: ProductDb.Db, m: OrderCreated) {
    m.order in db.processed
  }

  function StockResult(db: ProductDb.Db, m: OrderCreated): Option<ProductDb.Db> {
    Some(StockTx(db, m))
  }

  /** The cart tables with the history of clears. */
  type Clears = (CartConsumer.Db, multiset<OrderId>)

  predicate ClearDone(d: Clears, m: OrderCreated) {
    m.order in d.0.processed
  }

  function ClearResult(d: Clears, m: OrderCreated): Option<Clears> {
    var tx := CartConsumer.ClearTx(d.0, m);
    if tx.Some? then Some((tx.value, d.1 + multiset{m.order})) else None
  }

  /** The order database with the history of cancellations. */
  type Cancels = (OrderDb.Db, set<OrderId>)

  predicate CancelDone(d: Cancels, f: StockUpdateFailed) {
    NothingToCancel(d.0, f.order)
  }

  function CancelResult(d: Cancels, f: StockUpdateFailed): Option<Cancels> {
    if f.order in d.0.orders then Some((CancelByStock(d.0, f.order), d.1 + {f.order})) else None
  }

  function StockLogic(): Draining.Logic<OrderCreated, ProductDb.Db> {
    Draining.Logic(StockDone, StockResult)
  }

  function ClearLogic(): Draining.Logic<OrderCreated, Clears> {
    Draining.Logic(ClearDone, ClearResult)
  }

  function CancelLogic(): Draining.Logic<StockUpdateFailed, Cancels> {
    Draining.Logic(CancelDone, CancelResult)
  }

  lemma {:induction false} ProductHandlerStep(s: State, h: Inboxes.HandlerStep<OrderCreated>)
    ensures var c := Draining.StepOf(Draining.Consumer(s.productInbox, s.products), h, StockLogic());
            ProductHandlerNext(s, h) == s.(products := c.db, productInbox := c.inbox)
  {
    hide Inboxes.Next, Inboxes.Transacts, StockTx, CartDb.DeleteCartByUser;
  }

  lemma {:induction false} ProductHandlersRun(s: State, hs: seq<Inboxes.HandlerStep<OrderCreated>>)
    ensures var c := Draining.StepsOf(Draining.Consumer(s.productInbox, s.products), hs, StockLogic());
            Run(s, ProductSteps(hs)) == s.(products := c.db, productInbox := c.inbox)
  {
    hide ProductHandlerNext, Draining.StepOf;
    if hs != [] {
      var n := |hs| - 1;
      ProductHandlersRun(s, hs[..n]);
      assert ProductSteps(hs)[..n] == ProductSteps(hs[..n]);
      ProductHandlerStep(Run(s, ProductSteps(hs[..n])), hs[n]);
    }
  }

  lemma {:induction false} CartHandlerStep(s: State, h: Inboxes.HandlerStep<OrderCreated>)
    ensures var c := Draining.StepOf(Draining.Consumer(s.cartInbox, (s.carts, s.clears)), h, ClearLogic());
            CartHandlerNext(s, h) == s.(carts := c.db.0, clears := c.db.1, cartInbox := c.inbox)
  {
    hide Inboxes.Next, Inboxes.Transacts, StockTx, CartDb.DeleteCartByUser;
  }

  lemma {:induction false} CartHandlersRun(s: State, hs: seq<Inboxes.HandlerStep<OrderCreated>>)
    ensures var c := Draining.StepsOf(Draining.Consumer(s.cartInbox, (s.carts, s.clears)), hs, ClearLogic());
            Run(s, CartSteps(hs)) == s.(carts := c.db.0, clears := c.db.1, cartInbox := c.inbox)
  {
    hide CartHandlerNext, Draining.StepOf;
    if hs != [] {
      var n := |hs| - 1;
      CartHandlersRun(s, hs[..n]);
      assert CartSteps(hs)[..n] == CartSteps(hs[..n]);
      CartHandlerStep(Run(s, CartSteps(hs[..n])), hs[n]);
    }
  }

  lemma {:induction false} FailureHandlerStep(s: State, h: Inboxes.HandlerStep<StockUpdateFailed>)
    requires StCancelled in s.orders.catalogue
    ensures var c := Draining.StepOf(Draining.Consumer(s.failureInbox, (s.orders, s.stockCancels)), h, CancelLogic());
            && FailureHandlerNext(s, h) == s.(orders := c.db.0, stockCancels := c.db.1, failureInbox := c.inbox)
            && c.db.0.outbox == s.orders.outbox && c.db.0.catalogue == s.orders.catalogue
  {
    hide Inboxes.Next, Inboxes.Transacts;
  }

  lemma {:induction false} FailureHandlersRun(s: State, hs: seq<Inboxes.HandlerStep<StockUpdateFailed>>)
    requires StCancelled in s.orders.catalogue
    ensures var c := Draining.StepsOf(Draining.Consumer(s.failureInbox, (s.orders, s.stockCancels)), hs, CancelLogic());
            && Run(s, FailureSteps(hs)) == s.(orders := c.db.0, stockCancels := c.db.1, failureInbox := c.inbox)
            && c.db.0.outbox == s.orders.outbox && c.db.0.catalogue == s.orders.catalogue
  {
    hide FailureHandlerNext, Draining.StepOf;
    if hs != [] {
      var n := |hs| - 1;
      FailureHandlersRun(s, hs[..n]);
      assert FailureSteps(hs)[..n] == FailureSteps(hs[..n]);
      FailureHandlerStep(Run(s, FailureSteps(hs[..n])), hs[n]);
    }
  }

  lemma {:induction false} DrainProducts(s: State) returns (steps: seq<Step>)
    ensures AllInternal(steps)
    ensures Run(s, steps) == s.(products := Run(s, steps).products, productInbox := Inboxes.Empty())
  {
    hide Run, Draining.StepsOf;
    var hs := Draining.CanDrain(Draining.Consumer(s.productInbox, s.products), StockLogic());
    ProductHandlersRun(s, hs);
    steps := ProductSteps(hs);
  }

  lemma {:induction false} DrainCarts(s: State) returns (steps: seq<Step>)
    ensures AllInternal(steps)
    ensures Run(s, steps)
         == s.(carts := Run(s, steps).carts, clears := Run(s, steps).clears, cartInbox := Inboxes.Empty())
  {
    hide Run, Draining.StepsOf, CartDb.DeleteCartByUser;
    var hs := Draining.CanDrain(Draining.Consumer(s.cartInbox, (s.carts, s.clears)), ClearLogic());
    CartHandlersRun(s, hs);
    steps := CartSteps(hs);
  }

  lemma {:induction false} DrainFailures(s: State) returns (steps: seq<Step>)
    requires StCancelled in s.orders.catalogue
    ensures AllInternal(steps)
    ensures var s' := Run(s, steps);
            && s' == s.(orders := s'.orders, stockCancels := s'.stockCancels, failureInbox := Inboxes.Empty())
            && s'.orders.outbox == s.orders.outbox
  {
    hide Run, Draining.StepsOf;
    var hs := Draining.CanDrain(Draining.Consumer(s.failureInbox, (s.orders, s.stockCancels)), CancelLogic());
    FailureHandlersRun(s, hs);
    steps := FailureSteps(hs);
  }

  // ------------------------------------------------ the two relayers

  lemma {:induction false} PassStepsRelay<M>(n: nat, answer: nat -> Relayer.Outcome)
    ensures AllRelays(Relayer.PassSteps<M>(n, answer))
  {
    if n > 0 {
      PassStepsRelay<M>(n - 1, answer);
    }
  }

  /** After a restart one pass over everything leaves nothing unpublished. */
  lemma {:induction false} CanRelayAll<M>(o: Outboxes.Outbox<M>) returns (steps: seq<Outboxes.Step<M>>)
    ensures AllRelays(steps) && NothingUnpublished(Outboxes.Run(o, steps))
  {
    hide Outboxes.Run, Outboxes.UnpublishedEvents, AllRelays;
    hide Relayer.Passes, Relayer.UnsentSet, Relayer.PassSteps, Relayer.Fetched;
    var verdict: nat -> Relayer.Outcome := (id: nat) => Relayer.Relayed;
    var o1, limit := Outboxes.RelayNext(o, Outboxes.Crash), |o.rows| + 1;
    OnePassRelaysAll(o1, limit, verdict);
    var events := Relayer.Fetched(o1, limit);
    var pass := Relayer.PassSteps<M>(|events|, Relayer.Answers(events, verdict));
    steps := [Outboxes.Relay(Outboxes.Crash), Outboxes.Relay(Outboxes.Fetch(limit))] + pass;
    PassStepsRelay<M>(|events|, Relayer.Answers(events, verdict));
    RelaysJoined(Outboxes.Crash, Outboxes.Fetch(limit), pass);
    RunPair(o, Outboxes.Relay(Outboxes.Crash), Outboxes.Relay(Outboxes.Fetch(limit)), pass);
  }

  lemma {:induction false} RelaysJoined<M>(a: Outboxes.RelayStep, b: Outboxes.RelayStep, rest: seq<Outboxes.Step<M>>)
    requires AllRelays(rest)
    ensures AllRelays([Outboxes.Relay(a), Outboxes.Relay(b)] + rest)
  {
  }

  lemma {:induction false} OnePassRelaysAll<M>(o: Outboxes.Outbox<M>, limit: nat, verdict: nat -> Relayer.Outcome)
    requires Relayer.Idle(o) && limit > |o.rows| && forall id: nat :: verdict(id) == Relayer.Relayed
    ensures NothingUnpublished(Relayer.PassBy(o, limit, verdict))
  {
    hide Relayer.PassBy, Relayer.UnsentSet, NothingUnpublished;
    AllWithinLimit(o);
    AllRelayedFailsOnNone(verdict);
    Relayer.DrainBound(o, limit, [verdict], {});
    Relayer.PassesStep(o, limit, [verdict]);
    assert Relayer.UnsentSet(o) * {} == {} && Relayer.UnsentSet(o) - {} == Relayer.UnsentSet(o);
    NothingUnsent(Relayer.PassBy(o, limit, verdict));
  }

  lemma {:induction false} AllRelayedFailsOnNone(verdict: nat -> Relayer.Outcome)
    requires forall id: nat :: verdict(id) == Relayer.Relayed
    ensures Relayer.FailsOn(verdict, {})
  {
  }

  lemma {:induction false} NothingUnsent<M>(o: Outboxes.Outbox<M>)
    requires Relayer.UnsentSet(o) == {}
    ensures NothingUnpublished(o)
  {
    forall i | 0 <= i < |o.rows| ensures o.rows[i].status != Outboxes.Unpublished {
      assert i !in Relayer.UnsentSet(o);
    }
  }

  lemma {:induction false} FewUnpublished<M>(rows: seq<Outboxes.Row<M>>)
    ensures |Outboxes.UnpublishedEvents(rows)| <= |rows|
  {
    if rows != [] {
      FewUnpublished(rows[..|rows| - 1]);
    }
  }

  lemma {:induction false} AllWithinLimit<M>(o: Outboxes.Outbox<M>)
    ensures |Relayer.UnsentSet(o)| <= |o.rows|
  {
    hide Outboxes.UnpublishedEvents, Relayer.UnsentSet, Relayer.IdSet;
    FewUnpublished(o.rows);
    Relayer.AllUnsent(o);
    Relayer.IdCount(Outboxes.UnpublishedEvents(o.rows));
  }

  lemma {:induction false} RunPair<M>(o: Outboxes.Outbox<M>, a: Outboxes.Step<M>, b: Outboxes.Step<M>,
        rest: seq<Outboxes.Step<M>>)
    ensures Outboxes.Run(o, [a, b] + rest) == Outboxes.Run(Outboxes.Next(Outboxes.Next(o, a), b), rest)
  {
    hide Outboxes.Next;
    assert [a][..0] == [] && Outboxes.Run(o, [a][..0]) == o;
    assert [a, b][..1] == [a];
    Outboxes.RunConcat(o, [a, b], rest);
  }

  lemma {:induction false} OneProductRelay(s: State, r: Outboxes.RelayStep)
    ensures var s' := ProductRelayNext(s, r);
            && s' == s.(products := s.products.(outbox := s'.products.outbox), failureInbox := s'.failureInbox)
            && s'.products.outbox == Outboxes.RelayNext(s.products.outbox, r)
  {
    hide Outboxes.RelayNext, Inboxes.Arrive;
  }

  ghost function LiftProductRelay(steps: seq<Outboxes.Step<Message>>): seq<Step>
    requires AllRelays(steps)
  {
    seq(|steps|, i requires 0 <= i < |steps| => ProductRelay(steps[i].step))
  }

  lemma {:induction false} ProductRelaysRun(s: State, steps: seq<Outboxes.Step<Message>>)
    requires AllRelays(steps)
    ensures var s' := Run(s, LiftProductRelay(steps));
            && s' == s.(products := s.products.(outbox := s'.products.outbox), failureInbox := s'.failureInbox)
            && s'.products.outbox == Outboxes.Run(s.products.outbox, steps)
  {
    hide ProductRelayNext, Outboxes.RelayNext;
    if steps != [] {
      var n := |steps| - 1;
      ProductRelaysRun(s, steps[..n]);
      assert LiftProductRelay(steps)[..n] == LiftProductRelay(steps[..n]);
      OneProductRelay(Run(s, LiftProductRelay(steps[..n])), steps[n].step);
    }
  }

  lemma {:induction false} RelayOrders(s: State) returns (steps: seq<Step>)
    ensures AllInternal(steps)
    ensures var s' := Run(s, steps);
            && s' == s.(orders := s.orders.(outbox := s'.orders.outbox), productInbox := s'.productInbox,
                 cartInbox := s'.cartInbox)
            && NothingUnpublished(s'.orders.outbox)
  {
    hide Run, Outboxes.Run, NothingUnpublished;
    var relays := CanRelayAll(s.orders.outbox);
    LiftedRun(s, relays);
    OrderRelaysFrame(s, relays);
    steps := LiftRelay(relays);
  }

  lemma {:induction false} RelayProducts(s: State) returns (steps: seq<Step>)
    ensures AllInternal(steps)
    ensures var s' := Run(s, steps);
            && s' == s.(products := s.products.(outbox := s'.products.outbox), failureInbox := s'.failureInbox)
            && NothingUnpublished(s'.products.outbox)
  {
    hide Run, Outboxes.Run, NothingUnpublished;
    var relays := CanRelayAll(s.products.outbox);
    ProductRelaysRun(s, relays);
    steps := LiftProductRelay(relays);
  }

  /** However many messages, handlers, batches and calls are in flight, relayers and handlers alone can
      settle the saga, provided the consumer of stock failures could subscribe. */
  lemma {:induction false} CanSettle(s: State)
    requires StCancelled in s.orders.catalogue
    ensures exists steps :: AllInternal(steps) && Quiescent(Run(s, steps))
  {
    hide Run, AllInternal, NothingUnpublished;
    var a := RelayOrders(s);
    var s1 := Run(s, a);
    var b := DrainCarts(s1);
    var s2 := Run(s1, b);
    var c := DrainProducts(s2);
    var s3 := Run(s2, c);
    var d := RelayProducts(s3);
    var s4 := Run(s3, d);
    var e := DrainFailures(s4);
    RunConcat(s, a, b);
    RunConcat(s, a + b, c);
    RunConcat(s, a + b + c, d);
    RunConcat(s, a + b + c + d, e);
    var steps := a + b + c + d + e;
    assert AllInternal(steps) by { InternalParts(a, b, c, d, e); }
    assert Quiescent(Run(s, steps));
  }

  lemma {:induction false} InternalParts(a: seq<Step>, b: seq<Step>, c: seq<Step>, d: seq<Step>, e: seq<Step>)
    requires AllInternal(a) && AllInternal(b) && AllInternal(c) && AllInternal(d) && AllInternal(e)
    ensures AllInternal(a + b + c + d + e)
  {
  }

  /** So every published order of a reachable state can be brought to its outcome: processed by both services
      and cancelled exactly if a stock transaction of it falls short or a CancelOrder for it has committed. */
  lemma {:induction false} OutcomeIsAttainable(s: State, m: OrderCreated)
    requires Reachable(s) && StCancelled in s.orders.catalogue && Sent(s, m)
    ensures exists steps :: AllInternal(steps) && Quiescent(Run(s, steps)) && Settled(Run(s, steps), m.order)
  {
    hide Run, Reachable, Quiescent, Sent, AllInternal, Inv;
    CanSettle(s);
    var steps :| AllInternal(steps) && Quiescent(Run(s, steps));
    ReachableRun(s, steps);
    ReachableInv(s);
    RunKeepsSent(s, steps, m);
    QuiescentOutcome(Run(s, steps), m);
    assert Settled(Run(s, steps), m.order);
  }

  ghost predicate Settled(s: State, id: OrderId) {
    && id in s.orders.orders && id in s.products.processed && id in s.carts.processed
    && (IsCancelled(s.orders.orders[id]) <==> FellShort(s.products.commits, id) || id in s.cancels)
  }
}
