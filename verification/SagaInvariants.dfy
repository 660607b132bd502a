/** What every step of the saga keeps. */
module SagaInvariants {
  import opened Events
  import opened Carts
  import opened OrderDb
  import opened ProductDb
  import opened Saga
  import CartDb
  import CartConsumer
  import Inboxes
  import Outboxes

  // ------------------------------------------------ vocabulary

  /** The broker has accepted this OrderCreated message. */
  ghost predicate Sent(s: State, m: OrderCreated) {
    exists k :: 0 <= k < |s.orders.outbox.log| && s.orders.outbox.log[k].body == m
  }

  ghost predicate FailureSent(s: State, f: StockUpdateFailed) {
    exists k :: 0 <= k < |s.products.outbox.log| && s.products.outbox.log[k].body == StockFailed(f)
  }

  ghost predicate OrderRow(outbox: Outboxes.Outbox<OrderCreated>, id: OrderId) {
    exists i :: 0 <= i < |outbox.rows| && outbox.rows[i].body.order == id
  }

  ghost predicate FailureRow(outbox: Outboxes.Outbox<Message>, f: StockUpdateFailed) {
    exists i :: 0 <= i < |outbox.rows| && outbox.rows[i].body == StockFailed(f)
  }

  /** A committed stock transaction of this event fell short. */
  ghost predicate ShortCommit(commits: seq<StockCommit>, f: StockUpdateFailed) {
    exists j :: 0 <= j < |commits| && Short(commits[j]) && FailureOf(commits[j].event) == f
  }

  ghost predicate FellShort(commits: seq<StockCommit>, id: OrderId) {
    exists j :: 0 <= j < |commits| && Short(commits[j]) && commits[j].event.order == id
  }

  ghost predicate CommittedFor(commits: seq<StockCommit>, id: OrderId) {
    exists j :: 0 <= j < |commits| && commits[j].event.order == id
  }

  // ------------------------------------------------ the invariant, one concern at a time

  ghost predicate OutboxesOk(s: State) {
    Outboxes.Valid(s.orders.outbox) && Outboxes.Valid(s.products.outbox) && s.products.outbox.cancels == {}
  }

  ghost predicate RowOk(orders: map<OrderId, Order>, body: OrderCreated) {
    && body.order in orders && orders[body.order].user == body.user
    && body.items != [] && DistinctProducts(body.items) && PositiveQuantities(body.items)
  }

  /** Orders and their outbox rows correspond one to one. */
  ghost predicate RowsOk(db: OrderDb.Db) {
    && (forall i :: 0 <= i < |db.outbox.rows| ==> RowOk(db.orders, db.outbox.rows[i].body))
    && (forall i, j :: 0 <= i < j < |db.outbox.rows| ==> db.outbox.rows[i].body.order != db.outbox.rows[j].body.order)
    && (forall id :: id in db.orders ==> OrderRow(db.outbox, id))
  }

  /** Every message in a queue or a handler has been published. */
  ghost predicate ProvenanceOk(s: State) {
    && (forall m :: Inboxes.Holds(s.productInbox, m) ==> Sent(s, m))
    && (forall m :: Inboxes.Holds(s.cartInbox, m) ==> Sent(s, m))
    && (forall f :: Inboxes.Holds(s.failureInbox, f) ==> FailureSent(s, f))
  }

  /** Every published order event is still to be handled or has been processed, at both consumers. */
  ghost predicate ProgressOk(s: State) {
    && (forall m :: Sent(s, m) ==> Inboxes.Outstanding(s.productInbox, m) || m.order in s.products.processed)
    && (forall m :: Sent(s, m) ==> Inboxes.Outstanding(s.cartInbox, m) || m.order in s.carts.processed)
  }

  /** Stock transactions, processed records and failure rows tell the same story. */
  ghost predicate CommitsOk(s: State) {
    && (forall id :: id in s.products.processed <==> CommittedFor(s.products.commits, id))
    && (forall j :: 0 <= j < |s.products.commits| ==>
          && Sent(s, s.products.commits[j].event)
          && s.products.commits[j].affected
               == Affected(s.products.commits[j].before, s.products.commits[j].event.items))
    && (forall f :: FailureRow(s.products.outbox, f) <==> ShortCommit(s.products.commits, f))
  }

  /** A published failure is still to be handled, or has cancelled its order. */
  ghost predicate CompensationOk(s: State) {
    forall f :: FailureSent(s, f) ==> Inboxes.Outstanding(s.failureInbox, f) || f.order in s.stockCancels
  }

  /** Nothing but the two compensations cancels an order. */
  ghost predicate CancellationOk(s: State) {
    && s.cancels <= s.orders.orders.Keys && s.stockCancels <= s.orders.orders.Keys
    && (forall id :: id in s.orders.orders ==>
          (IsCancelled(s.orders.orders[id]) <==> id in s.cancels || id in s.stockCancels))
    && (forall id :: id in s.orders.orders && s.orders.orders[id].status == StCancelled ==> id in s.stockCancels)
    && (forall id :: id in s.stockCancels ==> FellShort(s.products.commits, id))
  }

  ghost predicate CartsOk(s: State) {
    && CartDb.Valid(s.carts.tables)
    && s.clears == multiset(s.carts.processed)
    && (forall id :: id in s.carts.processed ==> exists m :: Sent(s, m) && m.order == id)
  }

  /** The payment row of an order, by how far its request has come. */
  ghost predicate PaymentAgrees(s: State, id: OrderId)
    requires id in s.drivers && id in s.charges && id in s.orders.orders
  {
    var d := s.drivers[id];
    && WellFormed(d.view)
    && s.orders.orders[id].user == d.user && s.orders.orders[id].total == d.view.totalPrice
    && (d.phase == Returned ==> s.charges[id] == Settled)
    && (s.charges[id] == Requested ==> id !in s.payments)
    && (s.charges[id] == Inserted ==>
          id in s.payments && s.payments[id] == Payment(d.user, d.view.totalPrice, Processing))
    && (s.charges[id] == Errored && id in s.payments ==>
          s.payments[id] == Payment(d.user, d.view.totalPrice, Processing))
    && (s.charges[id] == Settled ==>
          id in s.payments && s.payments[id] == Payment(d.user, d.view.totalPrice, Succeeded))
  }

  /** The payload announces the products and quantities of the cart the order was placed with. */
  ghost predicate PayloadOk(s: State, body: OrderCreated) {
    body.order in s.drivers && body.items == ItemsOf(s.drivers[body.order].view.products)
  }

  ghost predicate PaymentsOk(s: State) {
    && s.drivers.Keys == s.orders.orders.Keys == s.charges.Keys
    && s.payments.Keys <= s.orders.orders.Keys
    && (forall id :: id in s.drivers ==> PaymentAgrees(s, id))
    && (forall i :: 0 <= i < |s.orders.outbox.rows| ==> PayloadOk(s, s.orders.outbox.rows[i].body))
  }

  ghost predicate Inv(s: State) {
    && OutboxesOk(s) && RowsOk(s.orders) && ProvenanceOk(s) && ProgressOk(s) && CommitsOk(s)
    && CompensationOk(s) && CancellationOk(s) && CartsOk(s) && PaymentsOk(s)
    && StockNonNegative(s.products.products)
  }

  // ------------------------------------------------ frames

  lemma {:induction false} PlaceFrame(s: State, id: OrderId, user: UserId, email: string, view: CartView)
    ensures var s' := PlaceNext(s, id, user, email, view);
            s' == s.(orders := s'.orders, drivers := s'.drivers, charges := s'.charges)
  {
    hide CreateTx, WellFormed;
  }

  lemma {:induction false} PaymentFrame(s: State, id: OrderId, ok: bool)
    ensures var s' := PaymentInsertNext(s, id, ok); s' == s.(payments := s'.payments, charges := s'.charges)
    ensures var s' := PaymentSettleNext(s, id, ok); s' == s.(payments := s'.payments, charges := s'.charges)
  {
    hide InsertPayment, SettlePayment;
  }

  lemma {:induction false} DriverFrame(s: State, id: OrderId, phase: Phase)
    ensures var s' := DriverNext(s, id, phase); s' == s.(drivers := s'.drivers)
  {
  }

  lemma {:induction false} CancelFrame(s: State, id: OrderId, ok: bool)
    ensures var s' := CancelNext(s, id, ok);
            s' == s.(orders := s'.orders, drivers := s'.drivers, cancels := s'.cancels)
  {
    hide CancelTx;
  }

  lemma {:induction false} RelayFrame(s: State, r: Outboxes.RelayStep)
    ensures var s' := OrderRelayNext(s, r);
            s' == s.(orders := s'.orders, productInbox := s'.productInbox, cartInbox := s'.cartInbox)
    ensures var s' := ProductRelayNext(s, r); s' == s.(products := s'.products, failureInbox := s'.failureInbox)
  {
    hide Outboxes.RelayNext;
  }

  lemma {:induction false} ConsumerFrame(s: State, h: Inboxes.HandlerStep<OrderCreated>)
    ensures var s' := ProductHandlerNext(s, h); s' == s.(products := s'.products, productInbox := s'.productInbox)
    ensures var s' := CartHandlerNext(s, h); s' == s.(carts := s'.carts, cartInbox := s'.cartInbox, clears := s'.clears)
  {
    hide StockTx, Inboxes.Next, Inboxes.Transacts, CartConsumer.ClearTx;
  }

  lemma {:induction false} FailureFrame(s: State, h: Inboxes.HandlerStep<StockUpdateFailed>)
    ensures var s' := FailureHandlerNext(s, h);
            s' == s.(orders := s'.orders, failureInbox := s'.failureInbox, stockCancels := s'.stockCancels)
  {
    hide CancelByStock, Inboxes.Next, Inboxes.Transacts;
  }

  /** Which part of the system each step moves. */
  lemma {:induction false} Frame(s: State, step: Step)
    ensures var s' := Next(s, step);
            && (!(step.ProductRelay? || step.ProductHandler? || step.CatalogueWrite?) ==> s'.products == s.products)
            && (!(step.OrderRelay? || step.ProductHandler?) ==> s'.productInbox == s.productInbox)
            && (!(step.OrderRelay? || step.CartHandler?) ==> s'.cartInbox == s.cartInbox)
            && (!(step.ProductRelay? || step.FailureHandler?) ==> s'.failureInbox == s.failureInbox)
            && (!(step.CartHandler? || step.CartWrite?) ==> s'.carts == s.carts)
            && (!step.CartHandler? ==> s'.clears == s.clears)
            && (!(step.Place? || step.Cancel? || step.OrderRelay? || step.FailureHandler?) ==> s'.orders == s.orders)
            && (!step.Cancel? ==> s'.cancels == s.cancels)
            && (!step.FailureHandler? ==> s'.stockCancels == s.stockCancels)
            && (!(step.PaymentInsert? || step.PaymentSettle?) ==> s'.payments == s.payments)
            && (!(step.Place? || step.PaymentInsert? || step.PaymentSettle?) ==> s'.charges == s.charges)
            && (!(step.Place? || step.Reply? || step.GiveUp? || step.Cancel?) ==> s'.drivers == s.drivers)
  {
    hide PlaceNext, PaymentInsertNext, PaymentSettleNext, DriverNext, CancelNext, OrderRelayNext, ProductRelayNext;
    hide ProductHandlerNext, CartHandlerNext, FailureHandlerNext, CatalogueTx, CartDb.Perform;
    match step
    case Place(id, user, email, view) => PlaceFrame(s, id, user, email, view);
    case PaymentInsert(id, ok) => PaymentFrame(s, id, ok);
    case PaymentSettle(id, ok) => PaymentFrame(s, id, ok);
    case Reply(id) => DriverFrame(s, id, Returned);
    case GiveUp(id) => DriverFrame(s, id, Cancelling);
    case Cancel(id, ok) => CancelFrame(s, id, ok);
    case OrderRelay(r) => RelayFrame(s, r);
    case ProductRelay(r) => RelayFrame(s, r);
    case ProductHandler(h) => ConsumerFrame(s, h);
    case CartHandler(h) => ConsumerFrame(s, h);
    case FailureHandler(h) => FailureFrame(s, h);
    case _ =>
  }

  // ------------------------------------------------ outboxes

  lemma {:induction false} RunOne<M>(o: Outboxes.Outbox<M>, steps: seq<Outboxes.Step<M>>)
    requires |steps| <= 1
    ensures Outboxes.Run(o, steps) == if steps == [] then o else Outboxes.Next(o, steps[0])
  {
    if steps != [] {
      assert steps[..0] == [];
      assert Outboxes.Run(o, steps[..0]) == o;
    }
  }

  lemma {:induction false} LogGrows<M>(o: Outboxes.Outbox<M>, steps: seq<Outboxes.Step<M>>)
    ensures o.log <= Outboxes.Run(o, steps).log
    decreases |steps|
  {
    if steps != [] {
      LogGrows(o, steps[..|steps| - 1]);
    }
  }

  /** What a step does to the order outbox, as steps of that outbox. */
  ghost function OrderOutboxSteps(s: State, step: Step): seq<Outboxes.Step<OrderCreated>> {
    match step
    case Place(id, user, email, view) =>
      if PlaceNext(s, id, user, email, view).orders == s.orders then []
      else [Outboxes.Insert(OrderCreated(id, user, email, ItemsOf(view.products)))]
    case Cancel(id, ok) =>
      if CancelNext(s, id, ok).orders == s.orders then [] else [Outboxes.Cancel(RowsOf(s.orders.outbox, id))]
    case OrderRelay(r) => [Outboxes.Relay(r)]
    case _ => []
  }

  ghost function ProductOutboxSteps(s: State, step: Step): seq<Outboxes.Step<Message>> {
    match step
    case ProductRelay(r) => [Outboxes.Relay(r)]
    case ProductHandler(h) =>
      if ProductHandlerNext(s, h).products.outbox == s.products.outbox then []
      else [Outboxes.Insert(StockFailed(FailureOf(h.m)))]
    case CatalogueWrite(op) =>
      if op.ClearCategory? || CatalogueTx(s.products, op) == s.products then [] else [Outboxes.Insert(ChangeEvent(op))]
    case _ => []
  }

  /** The saga moves each of its outboxes only by steps of the outbox. */
  lemma {:induction false} OrderOutboxMoves(s: State, step: Step)
    ensures |OrderOutboxSteps(s, step)| <= 1
    ensures Next(s, step).orders.outbox == Outboxes.Run(s.orders.outbox, OrderOutboxSteps(s, step))
  {
    hide Outboxes.RelayNext, Outboxes.Run, WellFormed;
    Frame(s, step);
    RunOne(s.orders.outbox, OrderOutboxSteps(s, step));
  }

  lemma {:induction false} ProductOutboxMoves(s: State, step: Step)
    ensures |ProductOutboxSteps(s, step)| <= 1
    ensures Next(s, step).products.outbox == Outboxes.Run(s.products.outbox, ProductOutboxSteps(s, step))
  {
    hide Outboxes.RelayNext, Outboxes.Run, WellFormed;
    Frame(s, step);
    RunOne(s.products.outbox, ProductOutboxSteps(s, step));
  }

  lemma {:induction false} NoCancelNoCancels<M>(o: Outboxes.Outbox<M>, step: Outboxes.Step<M>)
    requires !step.Cancel?
    ensures Outboxes.Next(o, step).cancels == o.cancels
  {
  }

  lemma {:induction false} KeepsOutboxes(s: State, step: Step)
    requires OutboxesOk(s)
    ensures OutboxesOk(Next(s, step))
    ensures s.orders.outbox.log <= Next(s, step).orders.outbox.log
    ensures s.products.outbox.log <= Next(s, step).products.outbox.log
  {
    hide Next, OrderOutboxSteps, Outboxes.Valid, Outboxes.Run, Outboxes.Next;
    OrderOutboxMoves(s, step);
    ProductOutboxMoves(s, step);
    Outboxes.RunKeepsValid(s.orders.outbox, OrderOutboxSteps(s, step));
    Outboxes.RunKeepsValid(s.products.outbox, ProductOutboxSteps(s, step));
    LogGrows(s.orders.outbox, OrderOutboxSteps(s, step));
    LogGrows(s.products.outbox, ProductOutboxSteps(s, step));
    RunOne(s.products.outbox, ProductOutboxSteps(s, step));
    if ProductOutboxSteps(s, step) != [] {
      NoCancelNoCancels(s.products.outbox, ProductOutboxSteps(s, step)[0]);
    }
  }

  // ------------------------------------------------ published messages

  lemma {:induction false} SentStays(s: State, s': State, m: OrderCreated)
    requires s.orders.outbox.log <= s'.orders.outbox.log && Sent(s, m)
    ensures Sent(s', m)
  {
    var k :| 0 <= k < |s.orders.outbox.log| && s.orders.outbox.log[k].body == m;
    assert s'.orders.outbox.log[k].body == m;
  }

  lemma {:induction false} FailureSentStays(s: State, s': State, f: StockUpdateFailed)
    requires s.products.outbox.log <= s'.products.outbox.log && FailureSent(s, f)
    ensures FailureSent(s', f)
  {
    var k :| 0 <= k < |s.products.outbox.log| && s.products.outbox.log[k].body == StockFailed(f);
    assert s'.products.outbox.log[k].body == StockFailed(f);
  }

  /** A relayer step publishes at most one message, which it puts into both queues. */
  ghost predicate Publishes(s: State, s': State, m: OrderCreated) {
    && s'.productInbox == Inboxes.Arrive(s.productInbox, m) && s'.cartInbox == Inboxes.Arrive(s.cartInbox, m)
    && |s'.orders.outbox.log| == |s.orders.outbox.log| + 1
    && s.orders.outbox.log <= s'.orders.outbox.log
    && s'.orders.outbox.log[|s.orders.outbox.log|].body == m
  }

  lemma {:induction false} OrderRelayEffect(s: State, r: Outboxes.RelayStep)
    ensures var s' := OrderRelayNext(s, r);
            || (s'.orders.outbox.log == s.orders.outbox.log && s'.productInbox == s.productInbox
                 && s'.cartInbox == s.cartInbox)
            || (s.orders.outbox.batch != [] && Publishes(s, s', s.orders.outbox.batch[0].body))
  {
    hide Outboxes.RelayNext, Inboxes.Arrive;
    Outboxes.RelayLog(s.orders.outbox, r);
  }

  ghost predicate PublishesFailure(s: State, s': State, message: Message) {
    && s'.failureInbox == (if message.StockFailed? then Inboxes.Arrive(s.failureInbox, message.event)
         else s.failureInbox)
    && |s'.products.outbox.log| == |s.products.outbox.log| + 1
    && s.products.outbox.log <= s'.products.outbox.log
    && s'.products.outbox.log[|s.products.outbox.log|].body == message
  }

  lemma {:induction false} ProductRelayEffect(s: State, r: Outboxes.RelayStep)
    ensures var s' := ProductRelayNext(s, r);
            || (s'.products.outbox.log == s.products.outbox.log && s'.failureInbox == s.failureInbox)
            || (s.products.outbox.batch != [] && PublishesFailure(s, s', s.products.outbox.batch[0].body))
  {
    hide Outboxes.RelayNext, Inboxes.Arrive;
    Outboxes.RelayLog(s.products.outbox, r);
  }

  lemma {:induction false} OrderLogFrame(s: State, step: Step)
    requires !step.OrderRelay?
    ensures Next(s, step).orders.outbox.log == s.orders.outbox.log
  {
    hide WellFormed;
    Frame(s, step);
  }

  lemma {:induction false} ProductLogFrame(s: State, step: Step)
    requires !step.ProductRelay?
    ensures Next(s, step).products.outbox.log == s.products.outbox.log
  {
    hide WellFormed;
    Frame(s, step);
  }

  /** Only a relayer step publishes, and what it publishes is in the queues. */
  lemma {:induction false} NewlySent(s: State, step: Step, m: OrderCreated)
    requires Sent(Next(s, step), m) && !Sent(s, m)
    ensures step.OrderRelay?
    ensures Next(s, step).productInbox == Inboxes.Arrive(s.productInbox, m)
    ensures Next(s, step).cartInbox == Inboxes.Arrive(s.cartInbox, m)
  {
    hide OrderRelayNext, Inboxes.Arrive;
    var s' := Next(s, step);
    if step.OrderRelay? {
      OrderRelayEffect(s, step.relay);
    } else {
      OrderLogFrame(s, step);
    }
    var k :| 0 <= k < |s'.orders.outbox.log| && s'.orders.outbox.log[k].body == m;
    assert forall j :: 0 <= j < |s.orders.outbox.log| ==> s.orders.outbox.log[j].body != m;
  }

  lemma {:induction false} NewlyFailureSent(s: State, step: Step, f: StockUpdateFailed)
    requires FailureSent(Next(s, step), f) && !FailureSent(s, f)
    ensures step.ProductRelay?
    ensures Next(s, step).failureInbox == Inboxes.Arrive(s.failureInbox, f)
  {
    hide ProductRelayNext, Inboxes.Arrive;
    var s' := Next(s, step);
    if step.ProductRelay? {
      ProductRelayEffect(s, step.relay);
    } else {
      ProductLogFrame(s, step);
    }
    var k :| 0 <= k < |s'.products.outbox.log| && s'.products.outbox.log[k].body == StockFailed(f);
    assert forall j :: 0 <= j < |s.products.outbox.log| ==> s.products.outbox.log[j].body != StockFailed(f);
  }

  // ------------------------------------------------ provenance

  lemma {:induction false} ProductHandlerOrigin(s: State, h: Inboxes.HandlerStep<OrderCreated>, m: OrderCreated)
    requires Inboxes.Holds(ProductHandlerNext(s, h).productInbox, m)
    ensures Inboxes.Holds(s.productInbox, m)
  {
    hide Inboxes.Next, Inboxes.Holds, Inboxes.Transacts, StockTx;
    Inboxes.NoInvention(s.productInbox, h, h.m.order in s.products.processed, true, m);
  }

  lemma {:induction false} CartHandlerOrigin(s: State, h: Inboxes.HandlerStep<OrderCreated>, m: OrderCreated)
    requires Inboxes.Holds(CartHandlerNext(s, h).cartInbox, m)
    ensures Inboxes.Holds(s.cartInbox, m)
  {
    hide Inboxes.Next, Inboxes.Holds, Inboxes.Transacts, CartConsumer.ClearTx;
    Inboxes.NoInvention(s.cartInbox, h, h.m.order in s.carts.processed, CartConsumer.ClearTx(s.carts, h.m).Some?, m);
  }

  lemma {:induction false} FailureHandlerOrigin(s: State, h: Inboxes.HandlerStep<StockUpdateFailed>,
        f: StockUpdateFailed)
    requires Inboxes.Holds(FailureHandlerNext(s, h).failureInbox, f)
    ensures Inboxes.Holds(s.failureInbox, f)
  {
    hide Inboxes.Next, Inboxes.Holds, Inboxes.Transacts, CancelByStock;
    if StCancelled in s.orders.catalogue {
      var found := h.m.order in s.orders.orders;
      Inboxes.NoInvention(s.failureInbox, h, !found || s.orders.orders[h.m.order].status == StCancelled, found, f);
    }
  }

  lemma {:induction false} ProductMessageOrigin(s: State, step: Step, m: OrderCreated)
    requires Inboxes.Holds(Next(s, step).productInbox, m)
    ensures Inboxes.Holds(s.productInbox, m) || Sent(Next(s, step), m)
  {
    hide OrderRelayNext, ProductHandlerNext, Inboxes.Holds, Inboxes.Arrive;
    Frame(s, step);
    if step.OrderRelay? {
      OrderRelayEffect(s, step.relay);
      if s.orders.outbox.batch != [] {
        Inboxes.ArriveHolds(s.productInbox, s.orders.outbox.batch[0].body, m);
      }
    } else if step.ProductHandler? {
      ProductHandlerOrigin(s, step.order, m);
    }
  }

  lemma {:induction false} CartMessageOrigin(s: State, step: Step, m: OrderCreated)
    requires Inboxes.Holds(Next(s, step).cartInbox, m)
    ensures Inboxes.Holds(s.cartInbox, m) || Sent(Next(s, step), m)
  {
    hide OrderRelayNext, CartHandlerNext, Inboxes.Holds, Inboxes.Arrive;
    Frame(s, step);
    if step.OrderRelay? {
      OrderRelayEffect(s, step.relay);
      if s.orders.outbox.batch != [] {
        Inboxes.ArriveHolds(s.cartInbox, s.orders.outbox.batch[0].body, m);
      }
    } else if step.CartHandler? {
      CartHandlerOrigin(s, step.order, m);
    }
  }

  lemma {:induction false} FailureMessageOrigin(s: State, step: Step, f: StockUpdateFailed)
    requires Inboxes.Holds(Next(s, step).failureInbox, f)
    ensures Inboxes.Holds(s.failureInbox, f) || FailureSent(Next(s, step), f)
  {
    hide ProductRelayNext, FailureHandlerNext, Inboxes.Holds, Inboxes.Arrive;
    Frame(s, step);
    if step.ProductRelay? {
      ProductRelayEffect(s, step.relay);
      if s.products.outbox.batch != [] && s.products.outbox.batch[0].body.StockFailed? {
        Inboxes.ArriveHolds(s.failureInbox, s.products.outbox.batch[0].body.event, f);
      }
    } else if step.FailureHandler? {
      FailureHandlerOrigin(s, step.failure, f);
    }
  }

  lemma {:induction false} KeepsProvenance(s: State, step: Step)
    requires OutboxesOk(s) && ProvenanceOk(s)
    ensures ProvenanceOk(Next(s, step))
  {
    hide Next, OutboxesOk, Sent, FailureSent, Inboxes.Holds;
    var s' := Next(s, step);
    KeepsOutboxes(s, step);
    forall m | Inboxes.Holds(s'.productInbox, m) ensures Sent(s', m) {
      ProductMessageOrigin(s, step, m);
      if Inboxes.Holds(s.productInbox, m) {
        SentStays(s, s', m);
      }
    }
    forall m | Inboxes.Holds(s'.cartInbox, m) ensures Sent(s', m) {
      CartMessageOrigin(s, step, m);
      if Inboxes.Holds(s.cartInbox, m) {
        SentStays(s, s', m);
      }
    }
    forall f | Inboxes.Holds(s'.failureInbox, f) ensures FailureSent(s', f) {
      FailureMessageOrigin(s, step, f);
      if Inboxes.Holds(s.failureInbox, f) {
        FailureSentStays(s, s', f);
      }
    }
  }

  // ------------------------------------------------ progress

  lemma {:induction false} ProductHandlerProgress(s: State, h: Inboxes.HandlerStep<OrderCreated>, m: OrderCreated)
    requires Inboxes.Outstanding(s.productInbox, m) || m.order in s.products.processed
    ensures Inboxes.Outstanding(ProductHandlerNext(s, h).productInbox, m)
         || m.order in ProductHandlerNext(s, h).products.processed
  {
    hide Inboxes.Next, Inboxes.Outstanding;
    if Inboxes.Transacts(s.productInbox, h) && h.m == m {
      assert m.order in StockTx(s.products, m).processed;
    } else if m.order !in s.products.processed && h == Inboxes.Commit(m) {
      CommitWithoutEffect(s.productInbox, h, h.m.order in s.products.processed, true);
    } else if m.order !in s.products.processed {
      Inboxes.OutstandingUntilHandled(s.productInbox, h, h.m.order in s.products.processed, true, m);
    }
  }

  lemma {:induction false} CommitWithoutEffect<M>(i: Inboxes.Inbox<M>, h: Inboxes.HandlerStep<M>, done: bool,
        commits: bool)
    requires h.Commit? && !Inboxes.Transacts(i, h)
    ensures Inboxes.Next(i, h, done, commits) == i
  {
  }

  lemma {:induction false} CartHandlerProgress(s: State, h: Inboxes.HandlerStep<OrderCreated>, m: OrderCreated)
    requires Inboxes.Outstanding(s.cartInbox, m) || m.order in s.carts.processed
    ensures Inboxes.Outstanding(CartHandlerNext(s, h).cartInbox, m) || m.order in CartHandlerNext(s, h).carts.processed
  {
    hide Inboxes.Next, Inboxes.Outstanding, CartDb.DeleteCartByUser;
    var commits := CartConsumer.ClearTx(s.carts, h.m).Some?;
    if m.order !in s.carts.processed {
      if Inboxes.Transacts(s.cartInbox, h) && h.m == m {
        assert m.order in CartHandlerNext(s, h).carts.processed;
      } else if h == Inboxes.Commit(m) {
        CommitWithoutEffect(s.cartInbox, h, h.m.order in s.carts.processed, commits);
      } else {
        Inboxes.OutstandingUntilHandled(s.cartInbox, h, h.m.order in s.carts.processed, commits, m);
      }
    }
  }

  lemma {:induction false} OrderRelayProgress(s: State, r: Outboxes.RelayStep, m: OrderCreated)
    ensures Inboxes.Outstanding(s.productInbox, m) ==> Inboxes.Outstanding(OrderRelayNext(s, r).productInbox, m)
    ensures Inboxes.Outstanding(s.cartInbox, m) ==> Inboxes.Outstanding(OrderRelayNext(s, r).cartInbox, m)
  {
    hide OrderRelayNext;
    OrderRelayEffect(s, r);
  }

  lemma {:induction false} ProductProgress(s: State, step: Step, m: OrderCreated)
    requires Inboxes.Outstanding(s.productInbox, m) || m.order in s.products.processed
    ensures Inboxes.Outstanding(Next(s, step).productInbox, m) || m.order in Next(s, step).products.processed
  {
    hide OrderRelayNext, ProductHandlerNext, Inboxes.Outstanding, Outboxes.RelayNext, Outboxes.InsertRow;
    Frame(s, step);
    if step.OrderRelay? {
      OrderRelayProgress(s, step.relay, m);
    } else if step.ProductHandler? {
      ProductHandlerProgress(s, step.order, m);
    }
  }

  lemma {:induction false} CartProgress(s: State, step: Step, m: OrderCreated)
    requires Inboxes.Outstanding(s.cartInbox, m) || m.order in s.carts.processed
    ensures Inboxes.Outstanding(Next(s, step).cartInbox, m) || m.order in Next(s, step).carts.processed
  {
    hide OrderRelayNext, CartHandlerNext, Inboxes.Outstanding, CartDb.Perform;
    Frame(s, step);
    if step.OrderRelay? {
      OrderRelayProgress(s, step.relay, m);
    } else if step.CartHandler? {
      CartHandlerProgress(s, step.order, m);
    }
  }

  lemma {:induction false} KeepsProgress(s: State, step: Step)
    requires OutboxesOk(s) && ProgressOk(s)
    ensures ProgressOk(Next(s, step))
  {
    hide Next, OutboxesOk, Sent;
    var s' := Next(s, step);
    forall m | Sent(s', m)
      ensures Inboxes.Outstanding(s'.productInbox, m) || m.order in s'.products.processed
      ensures Inboxes.Outstanding(s'.cartInbox, m) || m.order in s'.carts.processed
    {
      if !Sent(s, m) {
        NewlySent(s, step, m);
        Inboxes.ArriveHolds(s.productInbox, m, m);
        Inboxes.ArriveHolds(s.cartInbox, m, m);
      } else {
        ProductProgress(s, step, m);
        CartProgress(s, step, m);
      }
    }
  }

  // ------------------------------------------------ order rows

  /** No step but Place changes which rows there are, what they say, or whose the orders are. */
  ghost predicate SameBodies(db: OrderDb.Db, db': OrderDb.Db) {
    && |db'.outbox.rows| == |db.outbox.rows| && db.orders.Keys == db'.orders.Keys
    && (forall i :: 0 <= i < |db.outbox.rows| ==> db'.outbox.rows[i].body == db.outbox.rows[i].body)
    && (forall id :: id in db.orders ==>
          db'.orders[id].user == db.orders[id].user && db'.orders[id].total == db.orders[id].total)
  }

  lemma {:induction false} CancelSameBodies(s: State, id: OrderId, ok: bool)
    ensures SameBodies(s.orders, CancelNext(s, id, ok).orders)
  {
  }

  lemma {:induction false} RelaySameBodies(s: State, r: Outboxes.RelayStep)
    ensures OrderRelayNext(s, r).orders == s.orders.(outbox := Outboxes.RelayNext(s.orders.outbox, r))
    ensures SameBodies(s.orders, OrderRelayNext(s, r).orders)
  {
  }

  /** The stock consumer changes nothing of the orders but one status. */
  lemma {:induction false} FailureSameBodies(s: State, h: Inboxes.HandlerStep<StockUpdateFailed>)
    ensures FailureHandlerNext(s, h).orders == s.orders
         || FailureHandlerNext(s, h).orders == CancelByStock(s.orders, h.m.order)
    ensures SameBodies(s.orders, FailureHandlerNext(s, h).orders)
  {
    hide Inboxes.Next, Inboxes.Transacts;
  }

  lemma {:induction false} OnlyPlaceAddsRows(s: State, step: Step)
    requires !step.Place?
    ensures SameBodies(s.orders, Next(s, step).orders)
  {
    hide CancelNext, OrderRelayNext, FailureHandlerNext;
    Frame(s, step);
    if step.Cancel? {
      CancelSameBodies(s, step.id, step.ok);
    } else if step.OrderRelay? {
      RelaySameBodies(s, step.relay);
    } else if step.FailureHandler? {
      FailureSameBodies(s, step.failure);
    }
  }

  lemma {:induction false} KeepsRows(s: State, step: Step)
    requires RowsOk(s.orders)
    ensures RowsOk(Next(s, step).orders)
  {
    hide RowsOk, PlaceNext;
    if step.Place? {
      PlaceKeepsRows(s, step.id, step.user, step.email, step.view);
    } else {
      hide Next;
      OnlyPlaceAddsRows(s, step);
      SameBodiesKeepRows(s.orders, Next(s, step).orders);
    }
  }

  lemma {:induction false} SameBodiesKeepRows(db: OrderDb.Db, db': OrderDb.Db)
    requires RowsOk(db) && SameBodies(db, db')
    ensures RowsOk(db')
  {
    forall i | 0 <= i < |db'.outbox.rows| ensures RowOk(db'.orders, db'.outbox.rows[i].body) {
      assert RowOk(db.orders, db.outbox.rows[i].body);
    }
    forall id | id in db'.orders ensures OrderRow(db'.outbox, id) {
      assert OrderRow(db.outbox, id);
      var i :| 0 <= i < |db.outbox.rows| && db.outbox.rows[i].body.order == id;
      assert db'.outbox.rows[i].body.order == id;
    }
  }

  lemma {:induction false} PlaceKeepsRows(s: State, id: OrderId, user: UserId, email: string, view: CartView)
    requires RowsOk(s.orders)
    ensures RowsOk(PlaceNext(s, id, user, email, view).orders)
  {
    var db, db' := s.orders, PlaceNext(s, id, user, email, view).orders;
    if db' != db {
      var n := |db.outbox.rows|;
      ItemsOfView(view);
      assert db'.outbox.rows[n].body.order == id;
      forall i | 0 <= i <= n ensures RowOk(db'.orders, db'.outbox.rows[i].body) {
        if i < n {
          assert RowOk(db.orders, db.outbox.rows[i].body);
        }
      }
      forall i | 0 <= i < n ensures db.outbox.rows[i].body.order != id {
        assert i !in RowsOf(db.outbox, id);
      }
      forall other | other in db'.orders ensures OrderRow(db'.outbox, other) {
        if other != id {
          assert OrderRow(db.outbox, other);
          var i :| 0 <= i < n && db.outbox.rows[i].body.order == other;
          assert db'.outbox.rows[i].body.order == other;
        }
      }
    }
  }

  // ------------------------------------------------ stock commits

  lemma {:induction false} FailureRowsFrame(o: Outboxes.Outbox<Message>, o': Outboxes.Outbox<Message>,
        f: StockUpdateFailed)
    requires |o'.rows| == |o.rows| && forall i :: 0 <= i < |o.rows| ==> o'.rows[i].body == o.rows[i].body
    ensures FailureRow(o, f) <==> FailureRow(o', f)
  {
    if FailureRow(o, f) {
      var i :| 0 <= i < |o.rows| && o.rows[i].body == StockFailed(f);
      assert o'.rows[i].body == StockFailed(f);
    }
    if FailureRow(o', f) {
      var i :| 0 <= i < |o'.rows| && o'.rows[i].body == StockFailed(f);
      assert o.rows[i].body == StockFailed(f);
    }
  }

  lemma {:induction false} FailureRowsInserted(o: Outboxes.Outbox<Message>, m: Message, f: StockUpdateFailed)
    ensures FailureRow(Outboxes.InsertRow(o, m), f) <==> FailureRow(o, f) || m == StockFailed(f)
  {
    var o' := Outboxes.InsertRow(o, m);
    assert o'.rows[|o.rows|].body == m;
    if FailureRow(o, f) {
      var i :| 0 <= i < |o.rows| && o.rows[i].body == StockFailed(f);
      assert o'.rows[i].body == StockFailed(f);
    }
  }

  lemma {:induction false} CommitAppended(commits: seq<StockCommit>, c: StockCommit, f: StockUpdateFailed, id: OrderId)
    ensures ShortCommit(commits + [c], f) <==> ShortCommit(commits, f) || (Short(c) && FailureOf(c.event) == f)
    ensures CommittedFor(commits + [c], id) <==> CommittedFor(commits, id) || c.event.order == id
    ensures FellShort(commits + [c], id) <==> FellShort(commits, id) || (Short(c) && c.event.order == id)
  {
    var all := commits + [c];
    assert all[|commits|] == c;
    if j :| 0 <= j < |commits| && Short(commits[j]) && FailureOf(commits[j].event) == f {
      assert all[j] == commits[j];
    }
    if j :| 0 <= j < |commits| && commits[j].event.order == id {
      assert all[j] == commits[j];
    }
    if j :| 0 <= j < |commits| && Short(commits[j]) && commits[j].event.order == id {
      assert all[j] == commits[j];
    }
  }

  /** Commits, processed records and stock move only in a handler's transaction. */
  lemma {:induction false} CommitsFrame(s: State, step: Step)
    ensures if step.ProductHandler? && Inboxes.Transacts(s.productInbox, step.order)
            then Next(s, step).products == StockTx(s.products, step.order.m)
            else && Next(s, step).products.commits == s.products.commits
                 && Next(s, step).products.processed == s.products.processed
  {
    hide Inboxes.Next, Inboxes.Transacts, StockTx, Outboxes.RelayNext, Outboxes.InsertRow, Written, Accepted;
    Frame(s, step);
  }

  lemma {:induction false} OtherStepKeepsFailureRows(s: State, step: Step, f: StockUpdateFailed)
    requires !(step.ProductHandler? && Inboxes.Transacts(s.productInbox, step.order))
    ensures FailureRow(Next(s, step).products.outbox, f) <==> FailureRow(s.products.outbox, f)
  {
    hide FailureRow, ProductRelayNext, Inboxes.Transacts, Inboxes.Next, StockTx;
    Frame(s, step);
    if step.ProductRelay? {
      ProductRelayRows(s, step.relay, f);
    } else if step.CatalogueWrite? {
      CatalogueRows(s.products, step.write, f);
    }
  }

  lemma {:induction false} ProductRelayRows(s: State, r: Outboxes.RelayStep, f: StockUpdateFailed)
    ensures FailureRow(ProductRelayNext(s, r).products.outbox, f) <==> FailureRow(s.products.outbox, f)
  {
    hide FailureRow;
    FailureRowsFrame(s.products.outbox, Outboxes.RelayNext(s.products.outbox, r), f);
  }

  lemma {:induction false} CatalogueRows(db: ProductDb.Db, op: CatalogueOp, f: StockUpdateFailed)
    ensures FailureRow(CatalogueTx(db, op).outbox, f) <==> FailureRow(db.outbox, f)
  {
    hide FailureRow;
    if !op.ClearCategory? {
      FailureRowsInserted(db.outbox, ChangeEvent(op), f);
    }
  }

  lemma {:induction false} StockTxKeepsCommits(s: State, s': State, m: OrderCreated)
    requires CommitsOk(s) && Sent(s, m)
    requires s'.products == StockTx(s.products, m) && s.orders.outbox.log <= s'.orders.outbox.log
    ensures CommitsOk(s')
  {
    hide Sent, FailureRow, CommittedFor, ShortCommit, FellShort, Affected, Decremented, Outboxes.InsertRow;
    var db := s.products;
    var c := StockCommit(m, db.products, Affected(db.products, m.items));
    forall j | 0 <= j < |s'.products.commits|
      ensures Sent(s', s'.products.commits[j].event)
    {
      SentStays(s, s', s'.products.commits[j].event);
    }
    forall id ensures id in s'.products.processed <==> CommittedFor(s'.products.commits, id) {
      CommitAppended(db.commits, c, FailureOf(m), id);
    }
    forall f ensures FailureRow(s'.products.outbox, f) <==> ShortCommit(s'.products.commits, f) {
      CommitAppended(db.commits, c, f, m.order);
      FailureRowsInserted(db.outbox, StockFailed(FailureOf(m)), f);
    }
  }

  lemma {:induction false} KeepsCommits(s: State, step: Step)
    requires OutboxesOk(s) && ProvenanceOk(s) && CommitsOk(s)
    ensures CommitsOk(Next(s, step))
  {
    hide Next, OutboxesOk, Sent, StockTx, FailureRow, CommittedFor, ShortCommit;
    var s' := Next(s, step);
    KeepsOutboxes(s, step);
    CommitsFrame(s, step);
    if step.ProductHandler? && Inboxes.Transacts(s.productInbox, step.order) {
      assert Inboxes.Holds(s.productInbox, step.order.m);
      StockTxKeepsCommits(s, s', step.order.m);
    } else {
      forall j | 0 <= j < |s.products.commits| ensures Sent(s', s.products.commits[j].event) {
        SentStays(s, s', s.products.commits[j].event);
      }
      forall f ensures FailureRow(s'.products.outbox, f) <==> FailureRow(s.products.outbox, f) {
        OtherStepKeepsFailureRows(s, step, f);
      }
    }
  }

  // ------------------------------------------------ compensation

  /** A published failure comes from a short commit of an existing order. */
  lemma {:induction false} FailureOrigin(s: State, f: StockUpdateFailed)
    requires OutboxesOk(s) && RowsOk(s.orders) && CommitsOk(s) && FailureSent(s, f)
    ensures ShortCommit(s.products.commits, f) && FellShort(s.products.commits, f.order)
    ensures f.order in s.orders.orders
  {
    var k :| 0 <= k < |s.products.outbox.log| && s.products.outbox.log[k].body == StockFailed(f);
    assert Outboxes.CopyOf(s.products.outbox.log[k], s.products.outbox.rows);
    assert FailureRow(s.products.outbox, f);
    var j :| 0 <= j < |s.products.commits| && Short(s.products.commits[j])
         && FailureOf(s.products.commits[j].event) == f;
    SentOrderExists(s, s.products.commits[j].event);
  }

  lemma {:induction false} SentOrderExists(s: State, m: OrderCreated)
    requires OutboxesOk(s) && RowsOk(s.orders) && Sent(s, m)
    ensures RowOk(s.orders.orders, m)
    ensures exists i :: 0 <= i < |s.orders.outbox.rows| && s.orders.outbox.rows[i].body == m
  {
    var k :| 0 <= k < |s.orders.outbox.log| && s.orders.outbox.log[k].body == m;
    assert Outboxes.CopyOf(s.orders.outbox.log[k], s.orders.outbox.rows);
  }

  lemma {:induction false} PlaceKeepsOrders(s: State, step: Step, id: OrderId)
    requires step.Place? && id in s.orders.orders
    ensures id in Next(s, step).orders.orders && Next(s, step).orders.orders[id] == s.orders.orders[id]
  {
    hide WellFormed, RowsOf;
  }

  /** An order once cancelled, under either name, stays cancelled. */
  lemma {:induction false} CancelledStays(s: State, step: Step, id: OrderId)
    requires id in s.orders.orders && IsCancelled(s.orders.orders[id])
    ensures id in Next(s, step).orders.orders && IsCancelled(Next(s, step).orders.orders[id])
  {
    hide PlaceNext, OrderRelayNext, FailureHandlerNext, RowsOf, Outboxes.CancelRows;
    Frame(s, step);
    if step.Place? {
      PlaceKeepsOrders(s, step, id);
    } else if step.OrderRelay? {
      RelaySameBodies(s, step.relay);
    } else if step.FailureHandler? {
      FailureSameBodies(s, step.failure);
    }
  }

  lemma {:induction false} FailureHandlerProgress(s: State, h: Inboxes.HandlerStep<StockUpdateFailed>,
        f: StockUpdateFailed)
    requires CancellationOk(s) && Inboxes.Outstanding(s.failureInbox, f) && f.order in s.orders.orders
    ensures var s' := FailureHandlerNext(s, h);
            Inboxes.Outstanding(s'.failureInbox, f) || f.order in s'.stockCancels
  {
    hide Inboxes.Next, Inboxes.Outstanding, FellShort;
    if StCancelled in s.orders.catalogue {
      var found := h.m.order in s.orders.orders;
      var done := !found || s.orders.orders[h.m.order].status == StCancelled;
      if Inboxes.Transacts(s.failureInbox, h) && h.m == f {
        assert FailureHandlerNext(s, h).stockCancels == s.stockCancels + {f.order};
      } else if h == Inboxes.Commit(f) {
        CommitWithoutEffect(s.failureInbox, h, done, found);
      } else if h == Inboxes.Check(f) && done {
        assert f.order in s.stockCancels;
      } else {
        Inboxes.OutstandingUntilHandled(s.failureInbox, h, done, found, f);
      }
    }
  }

  lemma {:induction false} CompensationProgress(s: State, step: Step, f: StockUpdateFailed)
    requires CancellationOk(s) && Inboxes.Outstanding(s.failureInbox, f) && f.order in s.orders.orders
    ensures var s' := Next(s, step);
            Inboxes.Outstanding(s'.failureInbox, f) || f.order in s'.stockCancels
  {
    hide FailureHandlerNext, ProductRelayNext, CancellationOk;
    Frame(s, step);
    if step.FailureHandler? {
      FailureHandlerProgress(s, step.failure, f);
    } else if step.ProductRelay? {
      ProductRelayEffect(s, step.relay);
    }
  }

  lemma {:induction false} KeepsCompensation(s: State, step: Step)
    requires OutboxesOk(s) && RowsOk(s.orders) && CommitsOk(s) && CompensationOk(s) && CancellationOk(s)
    ensures CompensationOk(Next(s, step))
  {
    hide Next, OutboxesOk, RowsOk, CommitsOk, CancellationOk, FailureSent, ShortCommit, FellShort;
    var s' := Next(s, step);
    forall f | FailureSent(s', f)
      ensures Inboxes.Outstanding(s'.failureInbox, f) || f.order in s'.stockCancels
    {
      if !FailureSent(s, f) {
        NewlyFailureSent(s, step, f);
        Inboxes.ArriveHolds(s.failureInbox, f, f);
      } else if f.order in s.stockCancels {
        CancellationMoves(s, step, f.order);
      } else {
        FailureOrigin(s, f);
        CompensationProgress(s, step, f);
      }
    }
  }

  lemma {:induction false} FellShortStays(commits: seq<StockCommit>, commits': seq<StockCommit>, id: OrderId)
    requires commits <= commits' && FellShort(commits, id)
    ensures FellShort(commits', id)
  {
    var j :| 0 <= j < |commits| && Short(commits[j]) && commits[j].event.order == id;
    assert commits'[j] == commits[j];
  }

  /** Between two states, an order becomes cancelled exactly when a cancellation of it is recorded. */
  ghost predicate CancellationStep(s: State, s': State, id: OrderId) {
    && s.cancels <= s'.cancels <= s'.orders.orders.Keys
    && s.stockCancels <= s'.stockCancels <= s'.orders.orders.Keys
    && (id in s'.orders.orders ==>
          (IsCancelled(s'.orders.orders[id]) <==> id in s'.cancels || id in s'.stockCancels))
    && (id in s'.orders.orders && s'.orders.orders[id].status == StCancelled ==> id in s'.stockCancels)
  }

  lemma {:induction false} PlaceCancellation(s: State, step: Step, id: OrderId)
    requires CancellationOk(s) && step.Place?
    ensures CancellationStep(s, Next(s, step), id)
  {
    hide WellFormed, RowsOf, FellShort;
    assert step.id in s.cancels || step.id in s.stockCancels ==> step.id in s.orders.orders;
  }

  lemma {:induction false} CancelCancellation(s: State, step: Step, id: OrderId)
    requires CancellationOk(s) && step.Cancel?
    ensures CancellationStep(s, Next(s, step), id)
  {
    hide RowsOf, FellShort, Outboxes.CancelRows;
  }

  lemma {:induction false} FailureCancellation(s: State, step: Step, id: OrderId)
    requires CancellationOk(s) && step.FailureHandler?
    ensures CancellationStep(s, Next(s, step), id)
    ensures id in Next(s, step).stockCancels && id !in s.stockCancels ==>
              step.failure.m.order == id && Inboxes.Holds(s.failureInbox, step.failure.m)
  {
    hide FellShort, Inboxes.Next;
  }

  lemma {:induction false} CancellationMoves(s: State, step: Step, id: OrderId)
    requires CancellationOk(s)
    ensures CancellationStep(s, Next(s, step), id)
    ensures id in Next(s, step).stockCancels && id !in s.stockCancels ==>
              step.FailureHandler? && step.failure.m.order == id && Inboxes.Holds(s.failureInbox, step.failure.m)
  {
    hide PlaceNext, CancelNext, OrderRelayNext, FailureHandlerNext, FellShort;
    Frame(s, step);
    if step.Place? {
      PlaceCancellation(s, step, id);
    } else if step.Cancel? {
      CancelCancellation(s, step, id);
    } else if step.OrderRelay? {
      RelaySameBodies(s, step.relay);
    } else if step.FailureHandler? {
      FailureCancellation(s, step, id);
    }
  }

  lemma {:induction false} KeepsCancellation(s: State, step: Step)
    requires OutboxesOk(s) && RowsOk(s.orders) && ProvenanceOk(s) && CommitsOk(s) && CancellationOk(s)
    ensures CancellationOk(Next(s, step))
  {
    hide Next, OutboxesOk, RowsOk, CommitsOk, FellShort, StockTx, Sent;
    var s' := Next(s, step);
    CommitsGrow(s, step);
    forall id | id in s'.orders.orders
      ensures IsCancelled(s'.orders.orders[id]) <==> id in s'.cancels || id in s'.stockCancels
      ensures s'.orders.orders[id].status == StCancelled ==> id in s'.stockCancels
    {
      CancellationMoves(s, step, id);
    }
    CancellationMoves(s, step, 0);
    forall id | id in s'.stockCancels ensures FellShort(s'.products.commits, id) {
      CancellationMoves(s, step, id);
      if id !in s.stockCancels {
        FailureOrigin(s, step.failure.m);
      }
      FellShortStays(s.products.commits, s'.products.commits, id);
    }
  }

  lemma {:induction false} CommitsGrow(s: State, step: Step)
    ensures s.products.commits <= Next(s, step).products.commits
  {
    hide Next;
    CommitsFrame(s, step);
  }

  // ------------------------------------------------ carts and payments

  lemma {:induction false} CartHandlerMoves(s: State, h: Inboxes.HandlerStep<OrderCreated>, id: OrderId)
    requires CartsOk(s)
    ensures var s' := CartHandlerNext(s, h);
            && CartDb.Valid(s'.carts.tables) && s'.clears == multiset(s'.carts.processed)
            && (id in s'.carts.processed && id !in s.carts.processed ==>
                  h.m.order == id && Inboxes.Holds(s.cartInbox, h.m))
  {
    hide Sent, CartDb.Valid, CartDb.DeleteCartByUser, Inboxes.Next;
    CartDb.DeleteKeepsValid(s.carts.tables, h.m.user);
  }

  lemma {:induction false} CartsMove(s: State, step: Step, id: OrderId)
    requires CartsOk(s)
    ensures var s' := Next(s, step);
            && CartDb.Valid(s'.carts.tables) && s'.clears == multiset(s'.carts.processed)
            && (id in s'.carts.processed && id !in s.carts.processed ==>
                  step.CartHandler? && step.order.m.order == id && Inboxes.Holds(s.cartInbox, step.order.m))
  {
    hide CartHandlerNext, Sent, CartDb.Valid, CartDb.Perform, Inboxes.Holds;
    Frame(s, step);
    if step.CartWrite? {
      CartDb.PerformKeepsValid(s.carts.tables, step.op);
    } else if step.CartHandler? {
      CartHandlerMoves(s, step.order, id);
    }
  }

  lemma {:induction false} KeepsCarts(s: State, step: Step)
    requires OutboxesOk(s) && ProvenanceOk(s) && CartsOk(s)
    ensures CartsOk(Next(s, step))
  {
    hide Next, OutboxesOk, CartDb.Valid, Sent;
    var s' := Next(s, step);
    KeepsOutboxes(s, step);
    CartsMove(s, step, 0);
    forall id | id in s'.carts.processed ensures exists m :: Sent(s', m) && m.order == id {
      CartsMove(s, step, id);
      if id in s.carts.processed {
        var m :| Sent(s, m) && m.order == id;
        SentStays(s, s', m);
      } else {
        SentStays(s, s', step.order.m);
      }
    }
  }

  ghost predicate SameKeys(s: State) {
    s.drivers.Keys == s.orders.orders.Keys == s.charges.Keys && s.payments.Keys <= s.orders.orders.Keys
  }

  /** The payment facts of all orders, for a state in which only `id` may have moved. */
  ghost predicate ChargeOk(s: State) {
    SameKeys(s) && forall id :: id in s.drivers ==> PaymentAgrees(s, id)
  }

  /** Same payment-related tables, up to the order statuses. */
  ghost predicate SamePayments(s: State, s': State) {
    && s'.drivers == s.drivers && s'.charges == s.charges && s'.payments == s.payments
    && s'.orders.orders.Keys == s.orders.orders.Keys
    && forall id :: id in s.orders.orders ==>
         s'.orders.orders[id].user == s.orders.orders[id].user
              && s'.orders.orders[id].total == s.orders.orders[id].total
  }

  lemma {:induction false} SamePaymentsOk(s: State, s': State)
    requires ChargeOk(s) && SamePayments(s, s')
    ensures ChargeOk(s')
  {
    hide WellFormed;
    forall id | id in s'.drivers ensures PaymentAgrees(s', id) {
      assert PaymentAgrees(s, id);
    }
  }

  /** Everything PaymentAgrees looks at is the same for this order. */
  ghost predicate SameEntries(s: State, s': State, id: OrderId) {
    && id in s.drivers && id in s.charges && id in s.orders.orders
    && id in s'.drivers && id in s'.charges && id in s'.orders.orders
    && s'.drivers[id] == s.drivers[id] && s'.charges[id] == s.charges[id] && s'.orders.orders[id] == s.orders.orders[id]
    && (id in s'.payments <==> id in s.payments) && (id in s.payments ==> s'.payments[id] == s.payments[id])
  }

  lemma {:induction false} SameEntriesAgree(s: State, s': State, id: OrderId)
    requires SameEntries(s, s', id) && PaymentAgrees(s, id)
    ensures PaymentAgrees(s', id)
  {
    hide WellFormed;
  }

  /** Only one order's entries have moved, and they still agree. */
  lemma {:induction false} OneChargeMoved(s: State, s': State, id: OrderId)
    requires ChargeOk(s) && SameKeys(s') && id in s'.drivers && s'.drivers.Keys == s.drivers.Keys + {id}
    requires forall other :: other in s.drivers && other != id ==> SameEntries(s, s', other)
    requires PaymentAgrees(s', id)
    ensures ChargeOk(s')
  {
    hide WellFormed, PaymentAgrees, SameEntries;
    forall other | other in s'.drivers ensures PaymentAgrees(s', other) {
      if other != id {
        assert other in s.drivers;
        SameEntriesAgree(s, s', other);
      }
    }
  }

  lemma {:induction false} PlaceElsewhere(s: State, step: Step, other: OrderId)
    requires step.Place? && SameKeys(s) && other in s.drivers && other != step.id
    ensures SameEntries(s, Next(s, step), other)
  {
    hide WellFormed, RowsOf;
  }

  lemma {:induction false} PlaceHere(s: State, step: Step)
    requires step.Place? && ChargeOk(s) && Next(s, step) != s
    ensures var s' := Next(s, step);
            SameKeys(s') && step.id in s'.drivers && s'.drivers.Keys == s.drivers.Keys + {step.id}
                 && PaymentAgrees(s', step.id)
  {
    hide WellFormed, RowsOf, ItemsOf, Outboxes.InsertRow;
    assert step.id !in s.payments;
  }

  lemma {:induction false} PlaceCharge(s: State, step: Step)
    requires ChargeOk(s) && step.Place?
    ensures ChargeOk(Next(s, step))
  {
    hide SameEntries, PaymentAgrees, PlaceNext;
    if Next(s, step) != s {
      PlaceHere(s, step);
      forall other | other in s.drivers && other != step.id ensures SameEntries(s, Next(s, step), other) {
        PlaceElsewhere(s, step, other);
      }
      OneChargeMoved(s, Next(s, step), step.id);
    }
  }

  lemma {:induction false} InsertElsewhere(s: State, id: OrderId, ok: bool, other: OrderId)
    requires SameKeys(s) && other in s.drivers && other != id
    ensures SameEntries(s, PaymentInsertNext(s, id, ok), other)
  {
    hide WellFormed;
  }

  lemma {:induction false} InsertHere(s: State, id: OrderId, ok: bool)
    requires ChargeOk(s) && PaymentInsertNext(s, id, ok) != s
    ensures var s' := PaymentInsertNext(s, id, ok);
            SameKeys(s') && id in s'.drivers && s'.drivers.Keys == s.drivers.Keys + {id} && PaymentAgrees(s', id)
  {
    hide WellFormed;
    assert PaymentAgrees(s, id);
  }

  lemma {:induction false} InsertCharge(s: State, id: OrderId, ok: bool)
    requires ChargeOk(s)
    ensures ChargeOk(PaymentInsertNext(s, id, ok))
  {
    hide SameEntries, PaymentAgrees, PaymentInsertNext;
    if PaymentInsertNext(s, id, ok) != s {
      InsertHere(s, id, ok);
      forall other | other in s.drivers && other != id ensures SameEntries(s, PaymentInsertNext(s, id, ok), other) {
        InsertElsewhere(s, id, ok, other);
      }
      OneChargeMoved(s, PaymentInsertNext(s, id, ok), id);
    }
  }

  lemma {:induction false} SettleElsewhere(s: State, id: OrderId, ok: bool, other: OrderId)
    requires SameKeys(s) && other in s.drivers && other != id
    ensures SameEntries(s, PaymentSettleNext(s, id, ok), other)
  {
    hide WellFormed;
  }

  lemma {:induction false} SettleHere(s: State, id: OrderId, ok: bool)
    requires ChargeOk(s) && PaymentSettleNext(s, id, ok) != s
    ensures var s' := PaymentSettleNext(s, id, ok);
            SameKeys(s') && id in s'.drivers && s'.drivers.Keys == s.drivers.Keys + {id} && PaymentAgrees(s', id)
  {
    hide WellFormed;
    assert PaymentAgrees(s, id);
  }

  lemma {:induction false} SettleCharge(s: State, id: OrderId, ok: bool)
    requires ChargeOk(s)
    ensures ChargeOk(PaymentSettleNext(s, id, ok))
  {
    hide SameEntries, PaymentAgrees, PaymentSettleNext;
    if PaymentSettleNext(s, id, ok) != s {
      SettleHere(s, id, ok);
      forall other | other in s.drivers && other != id ensures SameEntries(s, PaymentSettleNext(s, id, ok), other) {
        SettleElsewhere(s, id, ok, other);
      }
      OneChargeMoved(s, PaymentSettleNext(s, id, ok), id);
    }
  }

  lemma {:induction false} DriverStepsCharge(s: State, id: OrderId, phase: Phase)
    requires ChargeOk(s) && id in s.drivers && (phase == Returned ==> s.charges[id] == Settled)
    ensures ChargeOk(DriverNext(s, id, phase))
  {
    hide WellFormed;
    var s' := DriverNext(s, id, phase);
    forall other | other in s'.drivers ensures PaymentAgrees(s', other) {
      assert PaymentAgrees(s, other);
    }
  }

  lemma {:induction false} CancelCharge(s: State, id: OrderId, ok: bool)
    requires ChargeOk(s)
    ensures ChargeOk(CancelNext(s, id, ok))
  {
    hide WellFormed, PaymentAgrees;
    if id in s.drivers {
      DriverStepsCharge(s, id, Failed);
      var s1 := DriverNext(s, id, Failed);
      if CancelNext(s, id, ok) != s {
        SamePaymentsOk(s1, CancelNext(s, id, ok));
      }
    }
  }

  lemma {:induction false} RelayCharge(s: State, r: Outboxes.RelayStep)
    ensures SamePayments(s, OrderRelayNext(s, r))
  {
  }

  lemma {:induction false} FailureCharge(s: State, h: Inboxes.HandlerStep<StockUpdateFailed>)
    ensures SamePayments(s, FailureHandlerNext(s, h))
  {
    assert FailureHandlerNext(s, h).orders == s.orders
         || FailureHandlerNext(s, h).orders == CancelByStock(s.orders, h.m.order);
  }

  lemma {:induction false} KeepsCharges(s: State, step: Step)
    requires ChargeOk(s)
    ensures ChargeOk(Next(s, step))
  {
    hide ChargeOk, PlaceNext, PaymentInsertNext, PaymentSettleNext, DriverNext, CancelNext, OrderRelayNext;
    hide FailureHandlerNext, ProductHandlerNext, CartHandlerNext, ProductRelayNext, CatalogueTx, CartDb.Perform;
    match step
    case Place(_, _, _, _) => PlaceCharge(s, step);
    case PaymentInsert(id, ok) => InsertCharge(s, id, ok);
    case PaymentSettle(id, ok) => SettleCharge(s, id, ok);
    case Reply(id) =>
      if Next(s, step) != s {
        DriverStepsCharge(s, id, Returned);
      }
    case GiveUp(id) =>
      if Next(s, step) != s {
        DriverStepsCharge(s, id, Cancelling);
      }
    case Cancel(id, ok) => CancelCharge(s, id, ok);
    case OrderRelay(r) =>
      RelayCharge(s, r);
      SamePaymentsOk(s, Next(s, step));
    case FailureHandler(h) =>
      FailureCharge(s, h);
      SamePaymentsOk(s, Next(s, step));
    case _ =>
      Frame(s, step);
      SamePaymentsOk(s, Next(s, step));
  }

  lemma {:induction false} DriverViewStays(s: State, step: Step, id: OrderId)
    requires id in s.drivers && s.drivers.Keys == s.orders.orders.Keys
    ensures id in Next(s, step).drivers && Next(s, step).drivers[id].view == s.drivers[id].view
  {
    hide WellFormed, RowsOf, CancelTx;
    Frame(s, step);
  }

  lemma {:induction false} PlaceAddsItsRow(s: State, id: OrderId, user: UserId, email: string, view: CartView)
    ensures var s' := PlaceNext(s, id, user, email, view);
            s' == s ||
            (|s'.orders.outbox.rows| == |s.orders.outbox.rows| + 1
             && s'.orders.outbox.rows[..|s.orders.outbox.rows|] == s.orders.outbox.rows
             && s'.orders.outbox.rows[|s.orders.outbox.rows|].body
                  == OrderCreated(id, user, email, ItemsOf(view.products))
             && id in s'.drivers && s'.drivers[id].view == view)
  {
  }

  lemma {:induction false} PayloadStays(s: State, step: Step, body: OrderCreated)
    requires PayloadOk(s, body) && s.drivers.Keys == s.orders.orders.Keys
    ensures PayloadOk(Next(s, step), body)
  {
    hide Next;
    DriverViewStays(s, step, body.order);
  }

  lemma {:induction false} KeepsPayloads(s: State, step: Step)
    requires s.drivers.Keys == s.orders.orders.Keys
    requires forall i :: 0 <= i < |s.orders.outbox.rows| ==> PayloadOk(s, s.orders.outbox.rows[i].body)
    ensures var s' := Next(s, step);
            forall i :: 0 <= i < |s'.orders.outbox.rows| ==> PayloadOk(s', s'.orders.outbox.rows[i].body)
  {
    var s' := Next(s, step);
    forall i | 0 <= i < |s.orders.outbox.rows| ensures PayloadOk(s', s.orders.outbox.rows[i].body) {
      PayloadStays(s, step, s.orders.outbox.rows[i].body);
    }
    hide PlaceNext, PayloadOk;
    if step.Place? {
      PlaceAddsItsRow(s, step.id, step.user, step.email, step.view);
      if s' != s {
        PlacePayload(s, step.id, step.user, step.email, step.view);
      }
    } else {
      hide Next;
      OnlyPlaceAddsRows(s, step);
    }
  }

  lemma {:induction false} PlacePayload(s: State, id: OrderId, user: UserId, email: string, view: CartView)
    requires PlaceNext(s, id, user, email, view) != s
    ensures PayloadOk(PlaceNext(s, id, user, email, view), OrderCreated(id, user, email, ItemsOf(view.products)))
  {
  }

  lemma {:induction false} KeepsPayments(s: State, step: Step)
    requires PaymentsOk(s)
    ensures PaymentsOk(Next(s, step))
  {
    hide Next, PaymentAgrees, PayloadOk;
    KeepsCharges(s, step);
    KeepsPayloads(s, step);
  }

  lemma {:induction false} KeepsStock(s: State, step: Step)
    requires StockNonNegative(s.products.products)
    ensures StockNonNegative(Next(s, step).products.products)
  {
    hide Decremented, Inboxes.Next, Outboxes.RelayNext, Outboxes.InsertRow;
    Frame(s, step);
    if step.ProductHandler? {
      StockStaysNonNegative(s.products.products, step.order.m.items);
    }
  }

  /** Every step keeps the whole invariant. */
  lemma {:induction false} KeepsInv(s: State, step: Step)
    requires Inv(s)
    ensures Inv(Next(s, step))
  {
    hide Next, OutboxesOk, RowsOk, ProvenanceOk, ProgressOk, CommitsOk, CompensationOk, CancellationOk, CartsOk;
    hide PaymentsOk;
    KeepsOutboxes(s, step);
    KeepsRows(s, step);
    KeepsProvenance(s, step);
    KeepsProgress(s, step);
    KeepsCommits(s, step);
    KeepsCompensation(s, step);
    KeepsCancellation(s, step);
    KeepsCarts(s, step);
    KeepsPayments(s, step);
    KeepsStock(s, step);
  }
}
