/** The order saga as one distributed system: the databases of the order, payment, product and cart
    services, the relayers of both outboxes, the broker queues, and any number of calls and message
    handlers in flight, interleaved in every possible way. */
module Saga {
  import opened Events
  import opened Carts
  import opened OrderDb
  import opened ProductDb
  import CartDb
  import CartConsumer
  import Inboxes
  import Outboxes

  /** A CreateOrder call after its order transaction. */
  datatype Phase = Waiting | Cancelling | Returned | Failed

  datatype Driver = Driver(view: CartView, user: UserId, email: string, phase: Phase)

  /** The payment service's work on one request. */
  datatype Charge = Requested | Inserted | Settled | Errored

  datatype State = State(
    orders: OrderDb.Db,
    drivers: map<OrderId, Driver>,
    payments: Payments,
    charges: map<OrderId, Charge>,
    products: ProductDb.Db,
    productInbox: Inboxes.Inbox<OrderCreated>,
    carts: CartConsumer.Db,
    cartInbox: Inboxes.Inbox<OrderCreated>,
    failureInbox: Inboxes.Inbox<StockUpdateFailed>,
    cancels: set<OrderId>,            // history: committed CancelOrder transactions
    stockCancels: set<OrderId>,       // history: orders cancelled by the stock-failure consumer
    clears: multiset<OrderId>)        // history: committed cart-deleting transactions

  datatype Step =
    | Place(id: OrderId, user: UserId, email: string, view: CartView)
    | PaymentInsert(id: OrderId, ok: bool)
    | PaymentSettle(id: OrderId, ok: bool)
    | Reply(id: OrderId)              // the payment response arrives; the order is returned
    | GiveUp(id: OrderId)             // an error or a timeout instead, even if the payment goes through
    | Cancel(id: OrderId, ok: bool)
    | OrderRelay(relay: Outboxes.RelayStep)
    | ProductRelay(relay: Outboxes.RelayStep)
    | ProductHandler(order: Inboxes.HandlerStep<OrderCreated>)
    | CartHandler(order: Inboxes.HandlerStep<OrderCreated>)
    | FailureHandler(failure: Inboxes.HandlerStep<StockUpdateFailed>)
    | CartWrite(op: CartDb.CartOp)
    | CatalogueWrite(write: CatalogueOp)

  ghost function Initial(catalogue: set<OrderStatus>, products: map<ProductId, Product>, tables: CartDb.Db): State {
    State(OrderDb.Db(catalogue, map[], Outboxes.Empty()), map[], map[], map[],
          ProductDb.Db(products, [], Outboxes.Empty(), []), Inboxes.Empty(),
          CartConsumer.Db(tables, {}), Inboxes.Empty(), Inboxes.Empty(), {}, {}, multiset{})
  }

  // ------------------------------------------------ steps; an impossible one changes nothing

  ghost function PlaceNext(s: State, id: OrderId, user: UserId, email: string, view: CartView): State {
    var tx := CreateTx(s.orders, id, user, email, view.totalPrice, view.products);
    if !WellFormed(view) || view.products == [] || tx.None? then s
    else s.(orders := tx.value, drivers := s.drivers[id := Driver(view, user, email, Waiting)],
            charges := s.charges[id := Requested])
  }

  ghost function PaymentInsertNext(s: State, id: OrderId, ok: bool): State {
    if id !in s.charges || id !in s.drivers || s.charges[id] != Requested then s
    else
      var tx := InsertPayment(s.payments, id, s.drivers[id].user, s.drivers[id].view.totalPrice);
      if !ok || tx.None? then s.(charges := s.charges[id := Errored])
      else s.(payments := tx.value, charges := s.charges[id := Inserted])
  }

  ghost function PaymentSettleNext(s: State, id: OrderId, ok: bool): State {
    if id !in s.charges || s.charges[id] != Inserted then s
    else if !ok then s.(charges := s.charges[id := Errored])
    else s.(payments := SettlePayment(s.payments, id), charges := s.charges[id := Settled])
  }

  ghost function DriverNext(s: State, id: OrderId, phase: Phase): State {
    if id in s.drivers then s.(drivers := s.drivers[id := s.drivers[id].(phase := phase)]) else s
  }

  ghost function CancelNext(s: State, id: OrderId, ok: bool): State {
    if id !in s.drivers || s.drivers[id].phase != Cancelling then s
    else
      var tx := CancelTx(s.orders, id);
      var s1 := DriverNext(s, id, Failed);
      if !ok || tx.None? then s1 else s1.(orders := tx.value, cancels := s.cancels + {id})
  }

  /** A publish the broker accepts reaches the product and the cart queue. */
  ghost function OrderRelayNext(s: State, r: Outboxes.RelayStep): State {
    var o, o' := s.orders.outbox, Outboxes.RelayNext(s.orders.outbox, r);
    var s1 := s.(orders := s.orders.(outbox := o'));
    if |o'.log| == |o.log| then s1
    else
      var m := o'.log[|o'.log| - 1].body;
      s1.(productInbox := Inboxes.Arrive(s.productInbox, m), cartInbox := Inboxes.Arrive(s.cartInbox, m))
  }

  ghost function ProductRelayNext(s: State, r: Outboxes.RelayStep): State {
    var o, o' := s.products.outbox, Outboxes.RelayNext(s.products.outbox, r);
    var s1 := s.(products := s.products.(outbox := o'));
    if |o'.log| == |o.log| || !o'.log[|o'.log| - 1].body.StockFailed? then s1
    else s1.(failureInbox := Inboxes.Arrive(s.failureInbox, o'.log[|o'.log| - 1].body.event))
  }

  ghost function ProductHandlerNext(s: State, h: Inboxes.HandlerStep<OrderCreated>): State {
    var done := h.m.order in s.products.processed;
    var s1 := s.(productInbox := Inboxes.Next(s.productInbox, h, done, true));
    if Inboxes.Transacts(s.productInbox, h) then s1.(products := StockTx(s.products, h.m)) else s1
  }

  ghost function CartHandlerNext(s: State, h: Inboxes.HandlerStep<OrderCreated>): State {
    var tx := CartConsumer.ClearTx(s.carts, h.m);
    var done := h.m.order in s.carts.processed;
    var s1 := s.(cartInbox := Inboxes.Next(s.cartInbox, h, done, tx.Some?));
    if Inboxes.Transacts(s.cartInbox, h) && tx.Some? then
      s1.(carts := tx.value, clears := s.clears + multiset{h.m.order})
    else s1
  }

  /** Without its status name the consumer never subscribes. */
  ghost function FailureHandlerNext(s: State, h: Inboxes.HandlerStep<StockUpdateFailed>): State {
    if StCancelled !in s.orders.catalogue then s
    else
      var id := h.m.order;
      var done := id !in s.orders.orders || s.orders.orders[id].status == StCancelled;
      var found := id in s.orders.orders;
      var s1 := s.(failureInbox := Inboxes.Next(s.failureInbox, h, done, found));
      if Inboxes.Transacts(s.failureInbox, h) && found then
        s1.(orders := CancelByStock(s.orders, id), stockCancels := s.stockCancels + {id})
      else s1
  }

  ghost function Next(s: State, step: Step): State {
    match step
    case Place(id, user, email, view) => PlaceNext(s, id, user, email, view)
    case PaymentInsert(id, ok) => PaymentInsertNext(s, id, ok)
    case PaymentSettle(id, ok) => PaymentSettleNext(s, id, ok)
    case Reply(id) =>
      if id in s.drivers && s.drivers[id].phase == Waiting && id in s.charges && s.charges[id] == Settled
      then DriverNext(s, id, Returned) else s
    case GiveUp(id) =>
      if id in s.drivers && s.drivers[id].phase == Waiting then DriverNext(s, id, Cancelling) else s
    case Cancel(id, ok) => CancelNext(s, id, ok)
    case OrderRelay(r) => OrderRelayNext(s, r)
    case ProductRelay(r) => ProductRelayNext(s, r)
    case ProductHandler(h) => ProductHandlerNext(s, h)
    case CartHandler(h) => CartHandlerNext(s, h)
    case FailureHandler(h) => FailureHandlerNext(s, h)
    case CartWrite(op) => s.(carts := s.carts.(tables := CartDb.Perform(s.carts.tables, op).0))
    case CatalogueWrite(op) => s.(products := CatalogueTx(s.products, op))
  }

  ghost function Run(s: State, steps: seq<Step>): State {
    if steps == [] then s else Next(Run(s, steps[..|steps| - 1]), steps[|steps| - 1])
  }

  lemma {:induction false} RunConcat(s: State, a: seq<Step>, b: seq<Step>)
    ensures Run(s, a + b) == Run(Run(s, a), b)
  {
    if b == [] {
      assert a + b == a;
    } else {
      var n := |b| - 1;
      RunConcat(s, a, b[..n]);
      assert (a + b)[..|a + b| - 1] == a + b[..n];
    }
  }

  /** A state some run reaches from empty order and payment databases and arbitrary products and carts. */
  ghost predicate Reachable(s: State) {
    exists catalogue, products, tables, steps ::
      CartDb.Valid(tables) && StockNonNegative(products) && s == Run(Initial(catalogue, products, tables), steps)
  }
}
