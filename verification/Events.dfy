/** Identifiers and event payloads shared by the services. */
module Events {

  type OrderId = nat
  type UserId = nat
  type ProductId = nat

  datatype Option<+T> = None | Some(value: T)

  /** One line of an order: the product and how many of it. */
  datatype OrderItem = OrderItem(product: ProductId, quantity: int)

  /** Payload of the `order_created_exchange` message. */
  datatype OrderCreated = OrderCreated(order: OrderId, user: UserId, email: string, items: seq<OrderItem>)

  /** Payload of the `stock_update_failed_exchange` message. */
  datatype StockUpdateFailed = StockUpdateFailed(order: OrderId, items: seq<OrderItem>)

  /** A consumer's answer to a delivery: done, put back into the queue, or out of it as undeliverable. */
  datatype Disposition = Ack | Requeue | DeadLetter

  predicate DistinctProducts(items: seq<OrderItem>) {
    forall i, j :: 0 <= i < j < |items| ==> items[i].product != items[j].product
  }

  predicate PositiveQuantities(items: seq<OrderItem>) {
    forall i :: 0 <= i < |items| ==> items[i].quantity > 0
  }
}
