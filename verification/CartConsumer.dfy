/** The cart service's OrderCreated consumer and its repository. */
module CartConsumer {
  import opened Events
  import CartDb

  /** The cart tables with `processed_events`, on which UNIQUE(aggregate_id, event_name) holds. */
  datatype Db = Db(tables: CartDb.Db, processed: set<OrderId>)

  datatype TxFault = NoFault | BeginFails | DeleteFails | ProcessedFails | CommitFails

  /** Cart deletion and processed record in one transaction; None when the record is already there. */
  function ClearTx(db: Db, event: OrderCreated): Option<Db> {
    if event.order in db.processed then None
    else Some(Db(CartDb.DeleteCartByUser(db.tables, event.user), db.processed + {event.order}))
  }

  function Handled(db: Db, event: OrderCreated, checkFails: bool, fault: TxFault): (Db, Disposition) {
    if checkFails then (db, Requeue)
    else if event.order in db.processed then (db, Ack)
    else if fault != NoFault then (db, Requeue)
    else (ClearTx(db, event).value, Ack)
  }

  /** The consumer's transaction removes the cart of the order's user with its lines, and nothing of any other. */
  lemma {:induction false} ClearsOnlyThisUser(db: Db, event: OrderCreated)
    requires CartDb.Valid(db.tables)
    ensures ClearTx(db, event).None? <==> event.order in db.processed
    ensures var db' := ClearTx(db, event);
            db'.Some? ==>
              && db'.value.processed == db.processed + {event.order}
              && CartDb.Valid(db'.value.tables)
              && (forall c :: c in db'.value.tables.carts <==> c in db.tables.carts && c.user != event.user)
              && (forall l :: l in db'.value.tables.lines
                         <==> l in db.tables.lines && !CartDb.OfUser(db.tables.carts, l, event.user))
  {
    hide CartDb.DeleteCartByUser, CartDb.Valid, CartDb.OfUser;
    CartDb.DeleteExactly(db.tables, event.user);
    CartDb.DeleteKeepsValid(db.tables, event.user);
  }

  /** A delivery is put back exactly if its check fails or, for an order not yet processed, its transaction; it
      changes the tables exactly if it is acknowledged for an order not yet processed, by the transaction. */
  lemma {:induction false} HandledExactly(db: Db, event: OrderCreated, checkFails: bool, fault: TxFault)
    ensures var (db', answer) := Handled(db, event, checkFails, fault);
            var known := event.order in db.processed;
            && answer == (if checkFails || (!known && fault != NoFault) then Requeue else Ack)
            && (if answer == Ack && !known then ClearTx(db, event) == Some(db') else db' == db)
  {
  }

  class PostgreSQLOrderCreatedConsumerRepository {
    var tables: CartDb.Db
    var processed: set<OrderId>

    ghost function View(): Db
      reads this
    {
      Db(tables, processed)
    }

    constructor (tables: CartDb.Db)
      ensures View() == Db(tables, {})
    {
      this.tables, processed := tables, {};
    }

    /** The error of the DELETE is ignored, but it has already aborted the transaction. */
    method DeleteCartAndCreateProcessedEvent(event: OrderCreated, fault: TxFault) returns (ok: bool)
      modifies this
      ensures ok <==> fault == NoFault && event.order !in old(processed)
      ensures View() == if ok then ClearTx(old(View()), event).value else old(View())
    {
      if fault.BeginFails? {
        return false;
      }
      var tables0, processed0 := tables, processed;
      var aborted := fault.DeleteFails?;
      if !aborted {
        tables := CartDb.DeleteCartByUser(tables, event.user);
      }
      if aborted || fault.ProcessedFails? || event.order in processed {
        tables := tables0;
        return false;
      }
      processed := processed + {event.order};
      if fault.CommitFails? {
        tables, processed := tables0, processed0;
        return false;
      }
      ok := true;
    }
  }

  class OrderCreatedConsumer {
    const repo: PostgreSQLOrderCreatedConsumerRepository

    constructor (repo: PostgreSQLOrderCreatedConsumerRepository)
      ensures this.repo == repo
    {
      this.repo := repo;
    }

    /** `cleared` names the user whose cached cart the asynchronous clean-up deletes. */
    method HandleOrderCreatedEvent(body: Option<OrderCreated>, checkFails: bool, fault: TxFault)
      returns (answer: Disposition, cleared: Option<UserId>)
      modifies repo
      ensures body.None? ==> answer == DeadLetter && repo.View() == old(repo.View()) && cleared == None
      ensures body.Some? ==> (repo.View(), answer) == Handled(old(repo.View()), body.value, checkFails, fault)
      ensures body.Some? ==>
                cleared == if repo.processed != old(repo.processed) then Some(body.value.user) else None
    {
      cleared := None;
      if body.None? {
        return DeadLetter, None;
      }
      if checkFails {
        return Requeue, None;
      }
      if body.value.order in repo.processed {
        return Ack, None;
      }
      var ok := repo.DeleteCartAndCreateProcessedEvent(body.value, fault);
      if !ok {
        return Requeue, None;
      }
      answer, cleared := Ack, Some(body.value.user);
    }
  }
}
