/** Short stock transactions to their end: which orders the stock-failure consumer can still cancel, and that
    the stock they took stays taken. */
module SagaShortfall {
  import opened Events
  import opened OrderDb
  import opened ProductDb
  import opened Saga
  import opened SagaInvariants
  import opened SagaTheorems
  import opened SagaCalls
  import opened SagaStock
  import opened SagaSettles
  import opened SagaDecrements
  import opened SagaPublication
  import Inboxes
  import Outboxes
  import Stock

  // ------------------------------------------------ a failure row is carried out

  lemma {:induction false} StepKeepsFailure(s: State, step: Step, f: StockUpdateFailed)
    requires FailureRow(s.products.outbox, f)
    ensures FailureRow(Next(s, step).products.outbox, f)
  {
    hide Next, ProductOutboxSteps, Outboxes.Run;
    var i :| 0 <= i < |s.products.outbox.rows| && s.products.outbox.rows[i].body == StockFailed(f);
    ProductOutboxMoves(s, step);
    Outboxes.NeverReentered(s.products.outbox, ProductOutboxSteps(s, step), i);
  }

  lemma {:induction false} RunKeepsFailure(s: State, steps: seq<Step>, f: StockUpdateFailed)
    requires FailureRow(s.products.outbox, f)
    ensures FailureRow(Run(s, steps).products.outbox, f)
  {
    hide Next, FailureRow;
    if steps != [] {
      RunKeepsFailure(s, steps[..|steps| - 1], f);
      StepKeepsFailure(Run(s, steps[..|steps| - 1]), steps[|steps| - 1], f);
    }
  }

  lemma {:induction false} DrainedIsCancelled(s: State, f: StockUpdateFailed)
    requires Inv(s) && NothingUnpublished(s.products.outbox) && s.failureInbox == Inboxes.Empty()
    requires FailureRow(s.products.outbox, f)
    ensures f.order in s.stockCancels && f.order in s.orders.orders && IsCancelled(s.orders.orders[f.order])
  {
    hide RowsOk, ProvenanceOk, ProgressOk, CommitsOk, CartsOk, PaymentsOk, OutboxesOk, IsCancelled, FellShort;
    hide NothingUnpublished, FailureRow, FailureSent;
    PublishedFailureSent(s, f);
  }

  /** Cancelled by the stock-failure consumer, with this stock. */
  ghost predicate CancelledWith(s: State, id: OrderId, products: map<ProductId, Product>) {
    id in s.stockCancels && id in s.orders.orders && IsCancelled(s.orders.orders[id]) && s.products.products == products
  }

  /** From every reachable state with a failure row for it, relayers and handlers alone can cancel the order,
      and the stock stays as it is. */
  lemma {:induction false} FailureIsCarriedOut(s: State, f: StockUpdateFailed)
    requires Reachable(s) && StCancelled in s.orders.catalogue && FailureRow(s.products.outbox, f)
    ensures exists steps :: AllInternal(steps) && CancelledWith(Run(s, steps), f.order, s.products.products)
  {
    hide Run, Reachable, Inv, AllInternal, NothingUnpublished, FailureRow, CancelledWith;
    var a := RelayProducts(s);
    var s1 := Run(s, a);
    var b := DrainFailures(s1);
    var s2 := Run(s1, b);
    RunConcat(s, a, b);
    ReachableRun(s, a + b);
    ReachableInv(s2);
    RunKeepsFailure(s, a, f);
    DrainedIsCancelled(s2, f);
    InternalJoined(a, b);
    assert CancelledWith(Run(s, a + b), f.order, s.products.products) by {
      CancelledNow(s2, f.order);
    }
  }

  lemma {:induction false} CancelledNow(s: State, id: OrderId)
    requires id in s.stockCancels && id in s.orders.orders && IsCancelled(s.orders.orders[id])
    ensures CancelledWith(s, id, s.products.products)
  {
  }

  lemma {:induction false} InternalJoined(a: seq<Step>, b: seq<Step>)
    requires AllInternal(a) && AllInternal(b)
    ensures AllInternal(a + b)
  {
  }

  // ------------------------------------------------ partial decrements stay

  /** The order's stock transaction, uninterrupted. */
  lemma {:induction false} ApplyQueued(s: State, m: OrderCreated) returns (steps: seq<Step>)
    requires m in s.productInbox.queue && m.order !in s.products.processed
    ensures AllInternal(steps)
    ensures Run(s, steps) == s.(products := StockTx(s.products, m), productInbox := Without(s.productInbox, m))
  {
    hide Run, StockTx, Affected;
    var d := Stock.Delivery(m, false, Stock.NoFault);
    StockHandlerIsARun(s, d);
    steps := ProductSteps(Handling(m, false, false, false));
  }

  lemma {:induction false} ShortTxAddsFailure(db: ProductDb.Db, m: OrderCreated)
    requires Affected(db.products, m.items) != |m.items|
    ensures FailureRow(StockTx(db, m).outbox, FailureOf(m))
    ensures StockTx(db, m).products == Decremented(db.products, m.items)
  {
    hide Affected, Decremented;
    var rows := StockTx(db, m).outbox.rows;
    assert rows[|db.outbox.rows|].body == StockFailed(FailureOf(m));
  }

  /** From every reachable state with the message of a short, unprocessed order waiting, relayers and handlers
      alone lead to a state in which the order is cancelled and the stock is what its update left: every
      satisfiable line stays decremented. */
  lemma {:induction false} ShortOrderKeepsStock(s: State, m: OrderCreated)
    requires Reachable(s) && StCancelled in s.orders.catalogue
    requires m in s.productInbox.queue && m.order !in s.products.processed
    requires Affected(s.products.products, m.items) != |m.items|
    ensures exists steps ::
              AllInternal(steps) && CancelledWith(Run(s, steps), m.order, Decremented(s.products.products, m.items))
  {
    hide Run, Reachable, AllInternal, FailureRow, StockTx, Affected, CancelledWith;
    var a := ApplyQueued(s, m);
    var s1 := Run(s, a);
    ShortTxAddsFailure(s.products, m);
    ReachableRun(s, a);
    FailureIsCarriedOut(s1, FailureOf(m));
    var b :| AllInternal(b) && CancelledWith(Run(s1, b), m.order, s1.products.products);
    RunConcat(s, a, b);
    InternalJoined(a, b);
    assert CancelledWith(Run(s, a + b), m.order, Decremented(s.products.products, m.items));
  }

  // ------------------------------------------------ when the stock consumer can no longer cancel

  /** The order's stock transaction has run, none fell short, and no handler can run another. */
  ghost predicate StockSettled(s: State, m: OrderCreated) {
    && m.order in s.products.processed && !FellShort(s.products.commits, m.order)
    && m !in s.productInbox.passed
  }

  lemma {:induction false} FellShortAppended(commits: seq<StockCommit>, c: StockCommit, id: OrderId)
    requires c.event.order != id
    ensures FellShort(commits + [c], id) ==> FellShort(commits, id)
  {
    hide Short;
    if j :| 0 <= j < |commits + [c]| && Short((commits + [c])[j]) && (commits + [c])[j].event.order == id {
      assert j < |commits| && (commits + [c])[j] == commits[j];
    }
  }

  lemma {:induction false} StepKeepsSettled(s: State, step: Step, m: OrderCreated)
    requires Inv(s) && Sent(s, m) && StockSettled(s, m)
    ensures StockSettled(Next(s, step), m)
  {
    hide Inv, Sent, Next, Inboxes.Transacts, FellShort, Affected, Decremented, Outboxes.InsertRow;
    CommitsFrame(s, step);
    PassedMoves(s, step, m);
    if step.ProductHandler? && Inboxes.Transacts(s.productInbox, step.order) {
      var event := step.order.m;
      OtherOrderCommits(s, step.order, m);
      FellShortAppended(s.products.commits,
           StockCommit(event, s.products.products, Affected(s.products.products, event.items)), m.order);
    }
  }

  lemma {:induction false} OtherOrderCommits(s: State, h: Inboxes.HandlerStep<OrderCreated>, m: OrderCreated)
    requires Inv(s) && Sent(s, m) && m !in s.productInbox.passed && Inboxes.Transacts(s.productInbox, h)
    ensures h.m.order != m.order
  {
    hide Inv, Sent;
    PassedIsSent(s, h.m);
    if h.m.order == m.order {
      SameOrderSameMessage(s, h.m, m);
    }
  }

  lemma {:induction false} RunKeepsSettled(s: State, steps: seq<Step>, m: OrderCreated)
    requires Inv(s) && Sent(s, m) && StockSettled(s, m)
    ensures StockSettled(Run(s, steps), m)
  {
    hide Next, Inv, Sent, StockSettled;
    if steps != [] {
      var init, last := steps[..|steps| - 1], steps[|steps| - 1];
      RunKeepsSettled(s, init, m);
      RunKeepsInv(s, init);
      RunKeepsSent(s, init, m);
      StepKeepsSettled(Run(s, init), last, m);
    }
  }

  /** Without its status name the consumer never subscribes and cancels nothing. */
  lemma {:induction false} NoSubscriber(s: State, steps: seq<Step>)
    requires StCancelled !in s.orders.catalogue
    ensures Run(s, steps).stockCancels == s.stockCancels && Run(s, steps).orders.catalogue == s.orders.catalogue
  {
    hide Next;
    if steps != [] {
      var s1, last := Run(s, steps[..|steps| - 1]), steps[|steps| - 1];
      NoSubscriber(s, steps[..|steps| - 1]);
      CatalogueStays(s1, last);
      Frame(s1, last);
      if last.FailureHandler? {
        Unsubscribed(s1, last);
      }
    }
  }

  lemma {:induction false} Unsubscribed(s: State, step: Step)
    requires StCancelled !in s.orders.catalogue && step.FailureHandler?
    ensures Next(s, step).stockCancels == s.stockCancels
  {
  }

  ghost predicate CanBeStockCancelled(s: State, id: OrderId) {
    exists steps :: id in Run(s, steps).stockCancels
  }

  lemma {:induction false} StockCancelledLater(s: State, steps: seq<Step>, id: OrderId)
    requires CanBeStockCancelled(Run(s, steps), id)
    ensures CanBeStockCancelled(s, id)
  {
    hide Run;
    var more :| id in Run(Run(s, steps), more).stockCancels;
    RunConcat(s, steps, more);
    assert id in Run(s, steps + more).stockCancels;
  }

  lemma {:induction false} ShortIsCancelled(s: State, id: OrderId)
    requires Reachable(s) && StCancelled in s.orders.catalogue && FellShort(s.products.commits, id)
    ensures CanBeStockCancelled(s, id)
  {
    hide Run, Reachable, Short, FailureRow, AllInternal, Inv;
    ReachableInv(s);
    var j :| 0 <= j < |s.products.commits| && Short(s.products.commits[j]) && s.products.commits[j].event.order == id;
    var f := FailureOf(s.products.commits[j].event);
    assert ShortCommit(s.products.commits, f);
    ShortHasRow(s, f);
    FailureIsCarriedOut(s, f);
    var steps :| AllInternal(steps) && CancelledWith(Run(s, steps), id, s.products.products);
    assert id in Run(s, steps).stockCancels;
  }

  lemma {:induction false} ShortHasRow(s: State, f: StockUpdateFailed)
    requires Inv(s) && ShortCommit(s.products.commits, f)
    ensures FailureRow(s.products.outbox, f)
  {
    hide OutboxesOk, RowsOk, ProvenanceOk, ProgressOk, CompensationOk, CancellationOk, CartsOk, PaymentsOk;
    hide ShortCommit, FailureRow, CommittedFor;
  }

  /** The catalogue deletes the first product of the order before the handler's transaction. */
  ghost function SellOut(m: OrderCreated): seq<Step>
    requires m.items != []
  {
    [CatalogueWrite(Delete(m.items[0].product)), ProductHandler(Inboxes.Commit(m))]
  }

  lemma {:induction false} SellOutFallsShort(s: State, m: OrderCreated)
    requires m in s.productInbox.passed && m.items != []
    ensures FellShort(Run(s, SellOut(m)).products.commits, m.order)
    ensures Run(s, SellOut(m)).orders == s.orders
  {
    hide Run, Next, Affected, Decremented, Outboxes.InsertRow;
    var delete, commit := CatalogueWrite(Delete(m.items[0].product)), ProductHandler(Inboxes.Commit(m));
    var s1 := Next(s, delete);
    RunTwo(s, delete, commit);
    Frame(s, delete);
    Frame(s1, commit);
    ProductDeleted(s, m.items[0].product);
    CommitLeavesNext(s1, m);
    RowCountExact(s1.products.products, m.items);
    var c := StockCommit(m, s1.products.products, Affected(s1.products.products, m.items));
    assert Short(c);
    assert (s1.products.commits + [c])[|s1.products.commits|] == c;
  }

  lemma {:induction false} ProductDeleted(s: State, p: ProductId)
    ensures var s' := Next(s, CatalogueWrite(Delete(p)));
            p !in s'.products.products && s'.productInbox == s.productInbox
  {
    hide Outboxes.InsertRow;
  }

  lemma {:induction false} PassedCanFallShort(s: State, m: OrderCreated)
    requires Reachable(s) && StCancelled in s.orders.catalogue && m in s.productInbox.passed && m.items != []
    ensures CanBeStockCancelled(s, m.order)
  {
    hide Run, Reachable, FellShort, SellOut, CanBeStockCancelled;
    SellOutFallsShort(s, m);
    ReachableRun(s, SellOut(m));
    ShortIsCancelled(Run(s, SellOut(m)), m.order);
    StockCancelledLater(s, SellOut(m), m.order);
  }

  lemma {:induction false} RunKeepsCatalogue(s: State, steps: seq<Step>)
    ensures Run(s, steps).orders.catalogue == s.orders.catalogue
  {
    hide Next;
    if steps != [] {
      RunKeepsCatalogue(s, steps[..|steps| - 1]);
      CatalogueStays(Run(s, steps[..|steps| - 1]), steps[|steps| - 1]);
    }
  }

  lemma {:induction false} OverlapCanFallShort(s: State, m: OrderCreated)
    requires Reachable(s) && StCancelled in s.orders.catalogue && CanOverlap(s, m) && m.items != []
    ensures CanBeStockCancelled(s, m.order)
  {
    hide Run, Reachable, CanBeStockCancelled;
    var steps :| Run(s, steps).productInbox.passed[m] >= 2;
    ReachableRun(s, steps);
    RunKeepsCatalogue(s, steps);
    PassedCanFallShort(Run(s, steps), m);
    StockCancelledLater(s, steps, m.order);
  }

  /** Taking all its stock does not protect an order: a redelivery that overlaps can still fall short.  A
      published order is cancelled by the stock-failure consumer in no future if and only if it has not been
      yet and either that consumer lacks its status name, or the order is processed, none of its transactions
      fell short, and no handler of it is past its check. */
  lemma {:induction false} StockCancelExactly(s: State, m: OrderCreated)
    requires Reachable(s) && Sent(s, m)
    ensures (forall steps :: m.order !in Run(s, steps).stockCancels)
       <==> m.order !in s.stockCancels
            && (StCancelled !in s.orders.catalogue
                || (m.order in s.products.processed && !FellShort(s.products.commits, m.order)
                    && m !in s.productInbox.passed))
  {
    hide Run, Reachable, Inv, Sent, FellShort, CanBeStockCancelled, CanOverlap, Inboxes.Outstanding;
    ReachableInv(s);
    SentLinesOk(s, m);
    if m.order in s.stockCancels {
      RunNone(s);
      assert m.order in Run(s, []).stockCancels;
    } else if StCancelled !in s.orders.catalogue {
      forall steps ensures m.order !in Run(s, steps).stockCancels {
        NoSubscriber(s, steps);
      }
    } else if StockSettled(s, m) {
      forall steps ensures m.order !in Run(s, steps).stockCancels {
        RunKeepsInv(s, steps);
        RunKeepsSettled(s, steps, m);
        NotShortNotCancelled(Run(s, steps), m.order);
      }
    } else {
      if FellShort(s.products.commits, m.order) {
        ShortIsCancelled(s, m.order);
      } else if m in s.productInbox.passed {
        PassedCanFallShort(s, m);
      } else {
        OneOutstanding(s, m);
        OverlapCanFallShort(s, m);
      }
      CancelledSomeday(s, m.order);
    }
  }

  lemma {:induction false} CancelledSomeday(s: State, id: OrderId)
    requires CanBeStockCancelled(s, id)
    ensures exists steps :: id in Run(s, steps).stockCancels
  {
    hide Run;
  }

  lemma {:induction false} NotShortNotCancelled(s: State, id: OrderId)
    requires Inv(s) && !FellShort(s.products.commits, id)
    ensures id !in s.stockCancels
  {
    hide OutboxesOk, RowsOk, ProvenanceOk, ProgressOk, CommitsOk, CompensationOk, CartsOk, PaymentsOk, FellShort;
  }
}
