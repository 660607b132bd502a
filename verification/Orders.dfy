/** The order service: repository, CreateOrder and the stock-failure consumer; and the payment server. */
module Orders {
  import opened Events
  import opened Carts
  import opened OrderDb
  import Outboxes

  method GenerateOrderCreatedEventPayload(id: OrderId, user: UserId, email: string, products: seq<CartProduct>)
    returns (payload: OrderCreated)
    ensures payload == OrderCreated(id, user, email, ItemsOf(products))
  {
    var items := new OrderItem[|products|](_ => OrderItem(0, 0));
    var i := 0;
    while i < |products|
      invariant 0 <= i <= |products|
      invariant items[..i] == ItemsOf(products)[..i]
    {
      items[i] := OrderItem(products[i].product, products[i].quantity);
      i := i + 1;
    }
    assert items[..] == ItemsOf(products);
    payload := OrderCreated(id, user, email, items[..]);
  }

  class PostgreSQLOrderRepository {
    const catalogue: set<OrderStatus>
    var orders: map<OrderId, Order>
    var outbox: Outboxes.Outbox<OrderCreated>

    ghost function View(): Db
      reads this
    {
      Db(catalogue, orders, outbox)
    }

    constructor (catalogue: set<OrderStatus>)
      ensures View() == Db(catalogue, map[], Outboxes.Empty())
    {
      this.catalogue, orders, outbox := catalogue, map[], Outboxes.Empty();
    }

    /** `id` is the key the database generates. */
    method CreateOrder(id: OrderId, user: UserId, email: string, total: int, products: seq<CartProduct>, fault: TxFault)
      returns (response: Option<OrderResponse>)
      modifies this
      ensures var tx := CreateTx(old(View()), id, user, email, total, products);
              if fault != NoFault || tx.None? then response.None? && View() == old(View())
              else View() == tx.value && response == Some(OrderResponse(id, user, total, StCreated))
    {
      if fault.BeginFails? || fault.OrderFails? || StCreated !in catalogue || id in orders || total <= 0
           || total > MAX_AMOUNT {
        return None;
      }
      var orders0, outbox0 := orders, outbox;
      orders := orders[id := Order(user, total, StCreated)];
      var payload := GenerateOrderCreatedEventPayload(id, user, email, products);
      if fault.OutboxFails? || RowsOf(outbox, id) != {} {
        orders := orders0;
        return None;
      }
      outbox := Outboxes.InsertRow(outbox, payload);
      if fault.StatusFails? || fault.CommitFails? {
        orders, outbox := orders0, outbox0;
        return None;
      }
      response := Some(OrderResponse(id, user, total, StCreated));
    }

    method CancelOrder(id: OrderId, fault: TxFault) returns (ok: bool)
      modifies this
      ensures ok <==> fault == NoFault && CancelTx(old(View()), id).Some?
      ensures View() == if ok then CancelTx(old(View()), id).value else old(View())
    {
      if fault.BeginFails? || fault.StatusFails? || StCanceled !in catalogue {
        return false;
      }
      if fault.OrderFails? || id !in orders {
        return false;
      }
      var orders0, outbox0 := orders, outbox;
      orders := orders[id := orders[id].(status := StCanceled)];
      if fault.OutboxFails? {
        orders := orders0;
        return false;
      }
      outbox := Outboxes.CancelRows(outbox, RowsOf(outbox, id));
      if fault.CommitFails? {
        orders, outbox := orders0, outbox0;
        return false;
      }
      ok := true;
    }

    method UpdateOrderStatus(id: OrderId, status: OrderStatus, fails: bool) returns (ok: bool)
      modifies this`orders
      ensures ok <==> !fails && id in old(orders)
      ensures orders == if ok then old(orders)[id := old(orders)[id].(status := status)] else old(orders)
    {
      if fails || id !in orders {
        return false;
      }
      orders := orders[id := orders[id].(status := status)];
      ok := true;
    }
  }

  class PaymentServer {
    var payments: Payments

    constructor ()
      ensures payments == map[]
    {
      payments := map[];
    }

    method ProcessPayment(id: OrderId, user: UserId, amount: int, fault: PaymentFault)
      returns (payment: Option<Payment>)
      modifies this
      ensures (payments, payment) == OrderDb.ProcessPayment(old(payments), id, user, amount, fault)
    {
      if amount <= 0 {
        return None;
      }
      if fault.InsertFails? || amount > MAX_AMOUNT || id in payments {
        return None;
      }
      payments := payments[id := Payment(user, amount, Processing)];
      if fault.LookupFails? || fault.UpdateFails? {
        return None;
      }
      payments := payments[id := payments[id].(status := Succeeded)];
      payment := Some(payments[id]);
    }
  }

  class OrderServer {
    const repository: PostgreSQLOrderRepository
    const paymentServer: PaymentServer

    constructor (repository: PostgreSQLOrderRepository, paymentServer: PaymentServer)
      ensures this.repository == repository && this.paymentServer == paymentServer
    {
      this.repository, this.paymentServer := repository, paymentServer;
    }

    /** The saga as one uninterrupted call. */
    method CreateOrder(call: Call) returns (response: Option<OrderResponse>)
      modifies repository, paymentServer
      ensures (repository.View(), paymentServer.payments, response)
           == PlaceOrder(old(repository.View()), old(paymentServer.payments), call)
    {
      if call.user.None? {
        return None;
      }
      if call.cart.None? || |call.cart.value.products| == 0 || call.cart.value.totalPrice <= 0 {
        return None;
      }
      if call.email.None? {
        return None;
      }
      var user, cart := call.user.value, call.cart.value;
      var order := repository.CreateOrder(call.newId, user, call.email.value, cart.totalPrice, cart.products,
           call.createFault);
      if order.None? {
        return None;
      }
      var payment := paymentServer.ProcessPayment(order.value.id, user, cart.totalPrice, call.paymentFault);
      if payment.None? || call.replyLost {
        var _ := repository.CancelOrder(order.value.id, call.cancelFault);
        return None;
      }
      response := order;
    }
  }

  /** The whole handler on values. */
  function FailureHandled(db: Db, event: StockUpdateFailed, selectFails: bool, updateFails: bool): (Db, Disposition) {
    if selectFails then (db, Requeue)
    else if event.order !in db.orders || db.orders[event.order].status == StCancelled then (db, Ack)
    else if updateFails then (db, Requeue)
    else (CancelByStock(db, event.order), Ack)
  }

  /** The failure event is put back exactly if a statement that runs fails.  Acknowledged, it leaves an existing
      order CANCELLED, with its user and total; no other order and no outbox row ever changes. */
  lemma {:induction false} FailureHandledExactly(db: Db, event: StockUpdateFailed, selectFails: bool, updateFails: bool)
    ensures var (db', answer) := FailureHandled(db, event, selectFails, updateFails);
            var open := event.order in db.orders && db.orders[event.order].status != StCancelled;
            && answer == (if selectFails || (open && updateFails) then Requeue else Ack)
            && db'.catalogue == db.catalogue && db'.outbox == db.outbox && db'.orders.Keys == db.orders.Keys
            && (forall id :: id in db.orders && id != event.order ==> db'.orders[id] == db.orders[id])
            && (event.order in db.orders ==>
                  var order := db.orders[event.order];
                  db'.orders[event.order]
                  == if answer == Ack then Order(order.user, order.total, StCancelled) else order)
  {
  }

  class StockUpdateFailedConsumer {
    const repo: PostgreSQLOrderRepository
    var cancelledOrderStatusId: Option<OrderStatus>

    constructor (repo: PostgreSQLOrderRepository)
      ensures this.repo == repo && cancelledOrderStatusId == None
    {
      this.repo, cancelledOrderStatusId := repo, None;
    }

    /** Without the name in the catalogue the consumer never subscribes. */
    method InitStatus(lookupFails: bool) returns (ok: bool)
      requires cancelledOrderStatusId.Some? ==> cancelledOrderStatusId.value == StCancelled
      modifies this
      ensures ok ==> cancelledOrderStatusId == Some(StCancelled)
      ensures ok <==> old(cancelledOrderStatusId).Some? || (!lookupFails && StCancelled in repo.catalogue)
      ensures !ok ==> cancelledOrderStatusId == old(cancelledOrderStatusId)
    {
      if cancelledOrderStatusId.Some? {
        return true;
      }
      if lookupFails || StCancelled !in repo.catalogue {
        return false;
      }
      cancelledOrderStatusId := Some(StCancelled);
      ok := true;
    }

    /** `body` is None when the message does not decode. */
    method HandleStockUpdateFailedEvent(body: Option<StockUpdateFailed>, selectFails: bool, updateFails: bool)
      returns (answer: Disposition)
      requires cancelledOrderStatusId == Some(StCancelled)
      modifies repo
      ensures body.None? ==> answer == DeadLetter && repo.View() == old(repo.View())
      ensures body.Some? ==>
                (repo.View(), answer) == FailureHandled(old(repo.View()), body.value, selectFails, updateFails)
    {
      if body.None? {
        return DeadLetter;
      }
      var event := body.value;
      if selectFails {
        return Requeue;
      }
      if event.order !in repo.orders {
        return Ack;
      }
      if repo.orders[event.order].status == cancelledOrderStatusId.value {
        return Ack;
      }
      var ok := repo.UpdateOrderStatus(event.order, cancelledOrderStatusId.value, updateFails);
      answer := if ok then Ack else Requeue;
    }
  }
}
