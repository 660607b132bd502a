/** The order service's database and its transactions, and the payment service's table. */
module OrderDb {
  import opened Events
  import opened Carts
  import Outboxes

  /** Names in `order_statuses`.  CancelOrder looks up "CANCELED", the stock consumer "CANCELLED". */
  datatype OrderStatus = StCreated | StDelivered | StCanceled | StCancelled

  /** The names the migration inserts. */
  const MIGRATION_CATALOGUE: set<OrderStatus> := {StCreated, StDelivered, StCancelled}

  /** NUMERIC(10, 2), in cents. */
  const MAX_AMOUNT := 9_999_999_999

  datatype Order = Order(user: UserId, total: int, status: OrderStatus)

  datatype Db = Db(catalogue: set<OrderStatus>, orders: map<OrderId, Order>, outbox: Outboxes.Outbox<OrderCreated>)

  datatype OrderResponse = OrderResponse(id: OrderId, user: UserId, total: int, status: OrderStatus)

  predicate IsCancelled(order: Order) {
    order.status == StCanceled || order.status == StCancelled
  }

  function ItemsOf(products: seq<CartProduct>): seq<OrderItem> {
    seq(|products|, i requires 0 <= i < |products| => OrderItem(products[i].product, products[i].quantity))
  }

  /** Outbox rows with this aggregate id. */
  function RowsOf(outbox: Outboxes.Outbox<OrderCreated>, id: OrderId): set<nat> {
    set i | 0 <= i < |outbox.rows| && outbox.rows[i].body.order == id
  }

  /** The order and its outbox row, or None when a constraint or the status lookup fails. */
  function CreateTx(db: Db, id: OrderId, user: UserId, email: string, total: int,
        products: seq<CartProduct>): Option<Db> {
    if StCreated !in db.catalogue || id in db.orders || total <= 0 || total > MAX_AMOUNT || RowsOf(db.outbox, id) != {}
    then None
    else Some(db.(orders := db.orders[id := Order(user, total, StCreated)],
                  outbox := Outboxes.InsertRow(db.outbox, OrderCreated(id, user, email, ItemsOf(products)))))
  }

  /** Order status and outbox row together, or None when the status name or the order is missing. */
  function CancelTx(db: Db, id: OrderId): Option<Db> {
    if StCanceled !in db.catalogue || id !in db.orders then None
    else Some(db.(orders := db.orders[id := db.orders[id].(status := StCanceled)],
                  outbox := Outboxes.CancelRows(db.outbox, RowsOf(db.outbox, id))))
  }

  /** UPDATE orders SET status = ... by the stock consumer. */
  function CancelByStock(db: Db, id: OrderId): Db {
    if id in db.orders then db.(orders := db.orders[id := db.orders[id].(status := StCancelled)]) else db
  }

  lemma {:induction false} ItemsOfView(view: CartView)
    requires WellFormed(view)
    ensures DistinctProducts(ItemsOf(view.products)) && PositiveQuantities(ItemsOf(view.products))
  {
  }

  /** The payload has a line for each product of the cart, in order, with its quantity. */
  lemma {:induction false} ItemsExactly(products: seq<CartProduct>, i: nat)
    requires i < |products|
    ensures |ItemsOf(products)| == |products|
    ensures ItemsOf(products)[i].product == products[i].product
    ensures ItemsOf(products)[i].quantity == products[i].quantity
  {
    assert ItemsOf(products)[i] == OrderItem(products[i].product, products[i].quantity);
  }

  // ------------------------------------------------ payments

  datatype PaymentStatus = Processing | Succeeded | Rejected

  datatype Payment = Payment(user: UserId, amount: int, status: PaymentStatus)

  type Payments = map<OrderId, Payment>

  /** INSERT INTO payments; None when a constraint is violated. */
  function InsertPayment(payments: Payments, id: OrderId, user: UserId, amount: int): Option<Payments> {
    if amount <= 0 || amount > MAX_AMOUNT || id in payments then None
    else Some(payments[id := Payment(user, amount, Processing)])
  }

  function SettlePayment(payments: Payments, id: OrderId): Payments {
    if id in payments then payments[id := payments[id].(status := Succeeded)] else payments
  }

  /** The statement of a payment that returns an error, if any. */
  datatype PaymentFault = PaymentOk | InsertFails | LookupFails | UpdateFails

  function ProcessPayment(payments: Payments, id: OrderId, user: UserId, amount: int,
        fault: PaymentFault): (Payments, Option<Payment>) {
    var inserted := InsertPayment(payments, id, user, amount);
    if fault.InsertFails? || inserted.None? then (payments, None)
    else if fault.LookupFails? || fault.UpdateFails? then (inserted.value, None)
    else (SettlePayment(inserted.value, id), Some(Payment(user, amount, Succeeded)))
  }

  /** A payment is answered exactly if its amount is positive and fits the column, the order has no payment yet
      and no statement fails; a failure after the insert leaves the PROCESSING row, any other leaves nothing. */
  lemma {:induction false} PaymentExactly(payments: Payments, id: OrderId, user: UserId, amount: int,
        fault: PaymentFault)
    ensures var (payments', payment) := ProcessPayment(payments, id, user, amount, fault);
            var inserted := 0 < amount <= 9_999_999_999 && id !in payments && fault != InsertFails;
            && (payment.Some? <==> inserted && fault == PaymentOk)
            && (payment.Some? ==> payment.value == Payment(user, amount, Succeeded))
            && payments'.Keys == payments.Keys + (if inserted then {id} else {})
            && (inserted ==>
                  payments'[id] == Payment(user, amount, if fault == PaymentOk then Succeeded else Processing))
            && forall other :: other in payments ==> payments'[other] == payments[other]
  {
  }

  // ------------------------------------------------ the order call

  datatype TxFault = NoFault | BeginFails | OrderFails | OutboxFails | StatusFails | CommitFails

  /** Everything around one CreateOrder call: what the other services answer and what fails.
      `replyLost`: the payment went through, but its response does not arrive. */
  datatype Call = Call(
    user: Option<UserId>, cart: Option<CartView>, email: Option<string>, newId: OrderId,
    createFault: TxFault, paymentFault: PaymentFault, replyLost: bool, cancelFault: TxFault)

  predicate Refused(call: Call) {
    || call.user.None? || call.cart.None? || call.email.None?
    || |call.cart.value.products| == 0 || call.cart.value.totalPrice <= 0
  }

  function Created(db: Db, call: Call): Option<Db>
    requires !Refused(call)
  {
    if call.createFault != NoFault then None
    else CreateTx(db, call.newId, call.user.value, call.email.value, call.cart.value.totalPrice,
         call.cart.value.products)
  }

  function Compensated(db: Db, call: Call): Db {
    if call.cancelFault != NoFault || CancelTx(db, call.newId).None? then db else CancelTx(db, call.newId).value
  }

  /** The whole call on values: both databases afterwards, and the order it returns. */
  function PlaceOrder(db: Db, payments: Payments, call: Call): (Db, Payments, Option<OrderResponse>) {
    if Refused(call) || Created(db, call).None? then (db, payments, None)
    else
      var db1 := Created(db, call).value;
      var user, total := call.user.value, call.cart.value.totalPrice;
      var (payments1, payment) := ProcessPayment(payments, call.newId, user, total, call.paymentFault);
      if payment.None? || call.replyLost then (Compensated(db1, call), payments1, None)
      else (db1, payments1, Some(OrderResponse(call.newId, user, total, StCreated)))
  }

  /** When a call places its order and when it returns it, told from what it meets: the cart has products and a
      total that is positive and fits the column, the first status is seeded, the new key is used nowhere, no
      statement fails; and then the payment goes through and its reply arrives. */
  lemma {:induction false} OrderReturnedExactly(db: Db, payments: Payments, call: Call)
    ensures var (db', payments', response) := PlaceOrder(db, payments, call);
            var placed :=
              && call.user.Some? && call.cart.Some? && call.email.Some?
              && call.cart.value.products != [] && 0 < call.cart.value.totalPrice <= 9_999_999_999
              && StCreated in db.catalogue && call.newId !in db.orders
              && (forall i :: 0 <= i < |db.outbox.rows| ==> db.outbox.rows[i].body.order != call.newId)
              && call.createFault == NoFault;
            var returned := placed && call.newId !in payments && call.paymentFault == PaymentOk && !call.replyLost;
            && response == (if returned
                            then Some(OrderResponse(call.newId, call.user.value, call.cart.value.totalPrice, StCreated))
                            else None)
            && (!placed ==> db' == db && payments' == payments)
            && (placed ==> db'.orders.Keys == db.orders.Keys + {call.newId}
                           && |db'.outbox.rows| == |db.outbox.rows| + 1)
  {
    if i :| 0 <= i < |db.outbox.rows| && db.outbox.rows[i].body.order == call.newId {
      assert i in RowsOf(db.outbox, call.newId);
    }
  }

  /** When an order is returned, its payment row is SUCCEEDED for the same user and the same cents as
      the order; those cents are the sum over the cart lines that the outbox payload announces. */
  lemma {:induction false} OrderAndPaymentAgree(db: Db, payments: Payments, call: Call)
    requires call.cart.Some? ==> WellFormed(call.cart.value)
    ensures var (db', payments', response) := PlaceOrder(db, payments, call);
            response.Some? ==>
              var id := response.value.id;
              && id !in db.orders && id in db'.orders && id in payments'
              && db'.orders[id] == Order(response.value.user, response.value.total, StCreated)
              && payments'[id] == Payment(response.value.user, response.value.total, Succeeded)
              && response.value.total == TotalOf(call.cart.value.products)
              && |db'.outbox.rows| == |db.outbox.rows| + 1
              && db'.outbox.rows[|db.outbox.rows|].body
                 == OrderCreated(id, response.value.user, call.email.value, ItemsOf(call.cart.value.products))
  {
  }

  /** A call that returns no order leaves its order cancelled, or untouched only if the compensation
      itself failed: exactly then it stays CREATED with its event still to be published.  It leaves a
      SUCCEEDED payment exactly when the payment went through and its reply was lost. */
  lemma {:induction false} FailedCallCompensates(db: Db, payments: Payments, call: Call)
    requires !Refused(call) && Created(db, call).Some?
    ensures var (db', payments', response) := PlaceOrder(db, payments, call);
            response.None? ==>
              && call.newId in db'.orders
              && (!IsCancelled(db'.orders[call.newId]) <==> call.cancelFault != NoFault || StCanceled !in db.catalogue)
              && (IsCancelled(db'.orders[call.newId])
                  <==> db'.outbox.rows[|db.outbox.rows|].status == Outboxes.Cancelled)
              && (call.newId !in payments ==>
                    ((call.newId in payments' && payments'[call.newId].status == Succeeded)
                     <==> call.paymentFault == PaymentOk && call.replyLost))
  {
    var db1 := Created(db, call).value;
    assert |db.outbox.rows| in RowsOf(db1.outbox, call.newId);
  }
}
