/** The product service's OrderCreated consumer and its repository. */
module Stock {
  import opened Events
  import opened ProductDb
  import Outboxes

  /** The statement of the transaction that returns an error, if any. */
  datatype TxFault = NoFault | BeginFails | UpdateFails | ProcessedFails | OutboxFails | CommitFails

  predicate Aborts(fault: TxFault, writesOutbox: bool) {
    match fault
    case NoFault => false
    case OutboxFails => writesOutbox
    case _ => true
  }

  /** Fills a fresh array with the lines to encode. */
  method MarshalOrderItems(event: OrderCreated) returns (encoded: seq<OrderItem>)
    ensures encoded == event.items
  {
    var items := new OrderItem[|event.items|](_ => OrderItem(0, 0));
    var i := 0;
    while i < |event.items|
      invariant 0 <= i <= |event.items|
      invariant items[..i] == event.items[..i]
    {
      items[i] := OrderItem(event.items[i].product, event.items[i].quantity);
      i := i + 1;
    }
    return items[..];
  }

  class PostgreSQLOrderCreatedConsumerRepository {
    var products: map<ProductId, Product>
    var processed: seq<OrderId>
    var outbox: Outboxes.Outbox<Message>
    ghost var commits: seq<StockCommit>

    ghost function View(): Db
      reads this
    {
      Db(products, processed, outbox, commits)
    }

    constructor (products: map<ProductId, Product>)
      ensures View() == Db(products, [], Outboxes.Empty(), [])
    {
      this.products, processed, outbox, commits := products, [], Outboxes.Empty(), [];
    }

    /** One transaction: all of `StockTx`, or nothing and an error. */
    method UpdateStockBatch(event: OrderCreated, fault: TxFault) returns (rowsAffected: Option<nat>)
      modifies this
      ensures rowsAffected.None? <==>
                Aborts(fault, Affected(old(products), event.items) != |event.items|)
      ensures rowsAffected.None? ==> View() == old(View())
      ensures rowsAffected.Some? ==>
                View() == StockTx(old(View()), event) && rowsAffected.value == Affected(old(products), event.items)
    {
      if fault.BeginFails? {
        return None;
      }
      var products0, processed0, outbox0 := products, processed, outbox;
      var encodedOrderItems := MarshalOrderItems(event);
      if fault.UpdateFails? {
        return None;
      }
      var affected := Affected(products, encodedOrderItems);
      products := Decremented(products, encodedOrderItems);
      if fault.ProcessedFails? {
        products := products0;
        return None;
      }
      processed := processed + [event.order];
      if affected != |event.items| {
        if fault.OutboxFails? {
          products, processed := products0, processed0;
          return None;
        }
        outbox := Outboxes.InsertRow(outbox, StockFailed(StockUpdateFailed(event.order, event.items)));
      }
      if fault.CommitFails? {
        products, processed, outbox := products0, processed0, outbox0;
        return None;
      }
      commits := commits + [StockCommit(event, products0, affected)];
      return Some(affected);
    }
  }

  /** One delivery, as the handler and the database see it. */
  datatype Delivery = Delivery(event: OrderCreated, checkFails: bool, fault: TxFault)

  predicate Failing(db: Db, d: Delivery) {
    d.checkFails
    || (d.event.order !in db.processed
        && Aborts(d.fault, Affected(db.products, d.event.items) != |d.event.items|))
  }

  function Handled(db: Db, d: Delivery): Db {
    if Failing(db, d) || d.event.order in db.processed then db else StockTx(db, d.event)
  }

  function Answer(db: Db, d: Delivery): Disposition {
    if Failing(db, d) then Requeue
    else if d.event.order in db.processed then Ack
    else if Affected(db.products, d.event.items) != |d.event.items| then DeadLetter
    else Ack
  }

  /** Products whose cache entries the handler goes on to delete: none after a short update, although
      its applied lines have changed their rows. */
  function Invalidated(db: Db, d: Delivery): seq<ProductId> {
    if Failing(db, d) || d.event.order in db.processed
       || Affected(db.products, d.event.items) != |d.event.items| then []
    else seq(|d.event.items|, i requires 0 <= i < |d.event.items| => d.event.items[i].product)
  }

  /** The answer, told from the lines of the order: a first delivery that no statement fails is acknowledged if
      the lines name distinct products and each of them exists with enough stock, and dead-lettered otherwise. */
  lemma {:induction false} AnswerExactly(db: Db, d: Delivery)
    ensures var items := d.event.items;
            var served := DistinctProducts(items) && forall i :: 0 <= i < |items| ==>
              && items[i].product in db.products
              && db.products[items[i].product].stock >= items[i].quantity;
            Answer(db, d) == if d.checkFails then Requeue
                             else if d.event.order in db.processed then Ack
                             else if d.fault != NoFault && !(d.fault == OutboxFails && served) then Requeue
                             else if served then Ack
                             else DeadLetter
  {
    RowCountExact(db.products, d.event.items);
  }

  /** What a delivery leaves behind, for distinct products: nothing when it is requeued or repeats an order;
      otherwise each line that finds enough stock is taken from its product and no other row changes, the order
      is processed, and the failure event is added exactly if some line found too little. */
  lemma {:induction false} HandledExactly(db: Db, d: Delivery)
    requires DistinctProducts(d.event.items)
    ensures var (items, db') := (d.event.items, Handled(db, d));
            if Answer(db, d) == Requeue || d.event.order in db.processed then db' == db
            else
              && db'.products.Keys == db.products.Keys
              && (forall i :: 0 <= i < |items| && items[i].product in db.products ==>
                    var row := db.products[items[i].product];
                    db'.products[items[i].product]
                    == if row.stock >= items[i].quantity then row.(stock := row.stock - items[i].quantity) else row)
              && (forall p :: p in db.products && (forall i :: 0 <= i < |items| ==> items[i].product != p) ==>
                    db'.products[p] == db.products[p])
              && db'.processed == db.processed + [d.event.order]
              && (if Answer(db, d) == Ack then db'.outbox == db.outbox
                  else
                    && |db'.outbox.rows| == |db.outbox.rows| + 1
                    && db'.outbox.rows[..|db.outbox.rows|] == db.outbox.rows
                    && db'.outbox.rows[|db.outbox.rows|].status == Outboxes.Unpublished
                    && db'.outbox.rows[|db.outbox.rows|].body == StockFailed(StockUpdateFailed(d.event.order, items)))
  {
    hide Taken, Affected, DistinctProducts;
    var items := d.event.items;
    forall i | 0 <= i < |items|
      ensures Taken(db.products, items, items[i].product)
           == if Joins(db.products, items[i]) then items[i].quantity else 0
    {
      TakenOfLine(db.products, items, i);
    }
    forall p | forall i :: 0 <= i < |items| ==> items[i].product != p ensures Taken(db.products, items, p) == 0 {
      TakenElsewhere(db.products, items, p);
    }
  }

  /** The handler deletes the cache entries of exactly the ordered products, after a full update only. */
  lemma {:induction false} InvalidatedExactly(db: Db, d: Delivery, p: ProductId)
    ensures p in Invalidated(db, d)
       <==> Answer(db, d) == Ack && d.event.order !in db.processed
            && exists i :: 0 <= i < |d.event.items| && d.event.items[i].product == p
  {
    hide Affected, Failing;
    var items := d.event.items;
    if i :| 0 <= i < |items| && items[i].product == p && Invalidated(db, d) != [] {
      assert Invalidated(db, d)[i] == p;
    }
  }

  lemma {:induction false} TakenPositive(products: map<ProductId, Product>, items: seq<OrderItem>, i: nat)
    requires i < |items| && Joins(products, items[i]) && PositiveQuantities(items)
    ensures Taken(products, items, items[i].product) > 0
  {
    if i > 0 {
      assert forall k :: 0 <= k < |items[1..]| ==> items[1..][k] == items[k + 1];
      TakenPositive(products, items[1..], i - 1);
    }
  }

  /** The handler deletes the cache entry of every product whose row it has changed. */
  ghost predicate CacheCleared(db: Db, d: Delivery) {
    forall p :: p in db.products && Handled(db, d).products[p] != db.products[p] ==> p in Invalidated(db, d)
  }

  /** After a committed update every changed product has its cache entry deleted if and only if the update was
      full or applied nothing: a short update leaves the entries of the products it did decrement. */
  lemma {:induction false} ShortUpdateLeavesCache(db: Db, d: Delivery)
    requires !Failing(db, d) && d.event.order !in db.processed && PositiveQuantities(d.event.items)
    ensures CacheCleared(db, d)
       <==> Affected(db.products, d.event.items) == |d.event.items|
            || forall i :: 0 <= i < |d.event.items| ==> !Joins(db.products, d.event.items[i])
  {
    hide Joins, Affected, Failing, Taken, Outboxes.InsertRow;
    var items := d.event.items;
    var left := Handled(db, d).products;
    forall p | p in db.products && left[p] != db.products[p]
      ensures exists i :: 0 <= i < |items| && items[i].product == p && Joins(db.products, items[i])
    {
      TakenFromLine(db.products, items, p);
    }
    if Affected(db.products, items) == |items| {
      assert |Invalidated(db, d)| == |items|
           && forall i :: 0 <= i < |items| ==> Invalidated(db, d)[i] == items[i].product;
    } else if i :| 0 <= i < |items| && Joins(db.products, items[i]) {
      TakenPositive(db.products, items, i);
      JoinsRow(db.products, items[i]);
      assert left[items[i].product] != db.products[items[i].product];
    }
  }

  lemma {:induction false} JoinsRow(products: map<ProductId, Product>, line: OrderItem)
    requires Joins(products, line)
    ensures line.product in products
  {
  }

  class OrderCreatedConsumer {
    const repo: PostgreSQLOrderCreatedConsumerRepository

    constructor (repo: PostgreSQLOrderCreatedConsumerRepository)
      ensures this.repo == repo
    {
      this.repo := repo;
    }

    /** `body` is None when the message does not decode.  `invalidated` lists the products whose cache
        entries the asynchronous clean-up deletes. */
    method HandleOrderCreatedEvent(body: Option<OrderCreated>, checkFails: bool, fault: TxFault)
      returns (answer: Disposition, invalidated: seq<ProductId>)
      modifies repo
      ensures body.None? ==> answer == DeadLetter && repo.View() == old(repo.View()) && invalidated == []
      ensures body.Some? ==>
                var d := Delivery(body.value, checkFails, fault);
                && answer == Answer(old(repo.View()), d)
                && repo.View() == Handled(old(repo.View()), d)
                && invalidated == Invalidated(old(repo.View()), d)
    {
      invalidated := [];
      if body.None? {
        return DeadLetter, [];
      }
      var event := body.value;
      if checkFails {
        return Requeue, [];
      }
      if event.order in repo.processed {
        return Ack, [];
      }
      var rowsAffected := repo.UpdateStockBatch(event, fault);
      if rowsAffected.None? {
        return Requeue, [];
      }
      if rowsAffected.value != |event.items| {
        return DeadLetter, [];
      }
      invalidated := seq(|event.items|, i requires 0 <= i < |event.items| => event.items[i].product);
      answer := Ack;
    }
  }

  // ------------------------------------------------ deduplication

  function HandleAll(db: Db, deliveries: seq<Delivery>): Db {
    if deliveries == [] then db else
      Handled(HandleAll(db, deliveries[..|deliveries| - 1]), deliveries[|deliveries| - 1])
  }

  /** Every event applied once, without any check: the reference the consumer is compared with. */
  function ApplyAll(db: Db, events: seq<OrderCreated>): Db {
    if events == [] then db else
      StockTx(ApplyAll(db, events[..|events| - 1]), events[|events| - 1])
  }

  predicate Contains(events: seq<OrderCreated>, order: OrderId) {
    exists i :: 0 <= i < |events| && events[i].order == order
  }

  /** Of each order not processed before, its first delivery that does not fail. */
  function FirstOccurrences(db: Db, deliveries: seq<Delivery>): seq<OrderCreated> {
    if deliveries == [] then [] else
      var init, last := deliveries[..|deliveries| - 1], deliveries[|deliveries| - 1];
      var before := FirstOccurrences(db, init);
      if Failing(HandleAll(db, init), last) || last.event.order in db.processed || Contains(before, last.event.order)
      then before
      else before + [last.event]
  }

  lemma {:induction false} AppliedIsProcessed(db: Db, events: seq<OrderCreated>, order: OrderId)
    ensures order in ApplyAll(db, events).processed <==> order in db.processed || Contains(events, order)
  {
    if events != [] {
      var init, last := events[..|events| - 1], events[|events| - 1];
      AppliedIsProcessed(db, init, order);
      if Contains(init, order) {
        var i :| 0 <= i < |init| && init[i].order == order;
        assert events[i].order == order;
      }
      if i :| 0 <= i < |events| && events[i].order == order {
        if i < |init| {
          assert init[i].order == order;
        }
      }
    }
  }

  ghost predicate DistinctOrders(events: seq<OrderCreated>) {
    forall i, j :: 0 <= i < j < |events| ==> events[i].order != events[j].order
  }

  lemma {:induction false} FreshStaysDistinct(events: seq<OrderCreated>, last: OrderCreated)
    requires DistinctOrders(events) && !Contains(events, last.order)
    ensures DistinctOrders(events + [last])
  {
  }

  /** Repeats and failed attempts leave no trace: stock, processed events, failure outbox and commit
      history equal those of applying only the first effective delivery of each order, exactly once. */
  lemma {:induction false} DedupRefinesExactlyOnce(db: Db, deliveries: seq<Delivery>)
    ensures var events := FirstOccurrences(db, deliveries);
            && HandleAll(db, deliveries) == ApplyAll(db, events)
            && DistinctOrders(events)
            && forall i :: 0 <= i < |events| ==> events[i].order !in db.processed
  {
    hide StockTx, Failing, Contains;
    if deliveries != [] {
      var init, last := deliveries[..|deliveries| - 1], deliveries[|deliveries| - 1];
      var before := FirstOccurrences(db, init);
      DedupRefinesExactlyOnce(db, init);
      AppliedIsProcessed(db, before, last.event.order);
      if !Contains(before, last.event.order) {
        FreshStaysDistinct(before, last.event);
      }
      assert (before + [last.event])[..|before|] == before;
    }
  }

  /** Every delivered order is processed once one of its deliveries does not fail. */
  lemma {:induction false} DeliveredIsProcessed(db: Db, deliveries: seq<Delivery>, k: nat)
    requires k < |deliveries| && !Failing(HandleAll(db, deliveries[..k]), deliveries[k])
    ensures deliveries[k].event.order in HandleAll(db, deliveries).processed
    decreases |deliveries|
  {
    var n := |deliveries| - 1;
    if k < n {
      assert deliveries[..n][..k] == deliveries[..k];
      DeliveredIsProcessed(db, deliveries[..n], k);
    }
  }

  // ------------------------------------------------ conservation

  /** Everything these transactions took is missing from the stock, and nothing else. */
  lemma {:induction false} StockConserved(db: Db, events: seq<OrderCreated>, p: ProductId)
    requires p in db.products && StockNonNegative(db.products)
    ensures var db' := ApplyAll(db, events);
            && p in db'.products && StockNonNegative(db'.products)
            && db'.products[p].stock + TakenBy(db'.commits, p) == db.products[p].stock + TakenBy(db.commits, p)
  {
    if events != [] {
      var init, last := events[..|events| - 1], events[|events| - 1];
      var before := ApplyAll(db, init);
      StockConserved(db, init, p);
      StockStaysNonNegative(before.products, last.items);
      assert ApplyAll(db, events).commits[..|before.commits|] == before.commits;
    }
  }
}
