/** How often an order can take stock of the same product. */
module SagaDecrements {
  import opened Events
  import opened Carts
  import opened OrderDb
  import opened ProductDb
  import opened Saga
  import opened SagaInvariants
  import opened SagaTheorems
  import opened SagaCalls
  import opened SagaStock
  import opened SagaSettles
  import Inboxes
  import Outboxes

  /** Committed transactions of the order that took stock of the product. */
  function Took(commits: seq<StockCommit>, id: OrderId, p: ProductId): nat {
    if commits == [] then 0 else
      var n := |commits| - 1;
      Took(commits[..n], id, p)
      + if commits[n].event.order == id && Taken(commits[n].before, commits[n].event.items, p) != 0 then 1 else 0
  }

  lemma {:induction false} TookAppended(commits: seq<StockCommit>, c: StockCommit, id: OrderId, p: ProductId)
    ensures Took(commits + [c], id, p)
         == Took(commits, id, p) + if c.event.order == id && Taken(c.before, c.event.items, p) != 0 then 1 else 0
  {
    hide Taken;
    assert (commits + [c])[..|commits|] == commits;
  }

  // ------------------------------------------------ never again

  /** The order is processed, and what it has taken and what its handlers may still take is one decrement. */
  ghost predicate OnceOnly(s: State, m: OrderCreated, p: ProductId) {
    m.order in s.products.processed && Took(s.products.commits, m.order, p) + s.productInbox.passed[m] <= 1
  }

  lemma {:induction false} CommitLeaves(s: State, h: Inboxes.HandlerStep<OrderCreated>)
    requires Inboxes.Transacts(s.productInbox, h)
    ensures ProductHandlerNext(s, h).products == StockTx(s.products, h.m)
    ensures ProductHandlerNext(s, h).productInbox.passed == s.productInbox.passed - multiset{h.m}
  {
    hide StockTx;
  }

  lemma {:induction false} CommitKeepsOnce(s: State, h: Inboxes.HandlerStep<OrderCreated>, m: OrderCreated,
        p: ProductId)
    requires Inv(s) && Sent(s, m) && OnceOnly(s, m, p) && Inboxes.Transacts(s.productInbox, h)
    ensures OnceOnly(ProductHandlerNext(s, h), m, p)
  {
    hide Inv, Sent, Took, Taken, Affected, Decremented, Outboxes.InsertRow, ProductHandlerNext;
    CommitLeaves(s, h);
    TookAppended(s.products.commits, StockCommit(h.m, s.products.products, Affected(s.products.products, h.m.items)),
         m.order, p);
    PassedIsSent(s, h.m);
    if h.m.order == m.order {
      SameOrderSameMessage(s, h.m, m);
    }
  }

  lemma {:induction false} StepKeepsOnce(s: State, step: Step, m: OrderCreated, p: ProductId)
    requires Inv(s) && Sent(s, m) && OnceOnly(s, m, p)
    ensures OnceOnly(Next(s, step), m, p)
  {
    hide Inv, Sent, Took, Inboxes.Transacts, StockTx, ProductHandlerNext;
    if step.ProductHandler? && Inboxes.Transacts(s.productInbox, step.order) {
      CommitKeepsOnce(s, step.order, m, p);
    } else {
      hide Next;
      CommitsFrame(s, step);
      PassedFrame(s, step);
    }
  }

  lemma {:induction false} RunKeepsOnce(s: State, steps: seq<Step>, m: OrderCreated, p: ProductId)
    requires Inv(s) && Sent(s, m) && OnceOnly(s, m, p)
    ensures OnceOnly(Run(s, steps), m, p)
  {
    hide Next, Inv, Sent, OnceOnly;
    if steps != [] {
      var init, last := steps[..|steps| - 1], steps[|steps| - 1];
      RunKeepsOnce(s, init, m, p);
      RunKeepsInv(s, init);
      RunKeepsSent(s, init, m);
      StepKeepsOnce(Run(s, init), last, m, p);
    }
  }

  // ------------------------------------------------ once more

  ghost predicate CanTakeTwice(s: State, id: OrderId, p: ProductId) {
    exists steps :: Took(Run(s, steps).products.commits, id, p) >= 2
  }

  lemma {:induction false} TwiceLater(s: State, steps: seq<Step>, id: OrderId, p: ProductId)
    requires CanTakeTwice(Run(s, steps), id, p)
    ensures CanTakeTwice(s, id, p)
  {
    hide Took, Run;
    var more :| Took(Run(Run(s, steps), more).products.commits, id, p) >= 2;
    RunConcat(s, steps, more);
    assert Took(Run(s, steps + more).products.commits, id, p) >= 2;
  }

  lemma {:induction false} TookTwice(s: State, id: OrderId, p: ProductId)
    requires Took(s.products.commits, id, p) >= 2
    ensures CanTakeTwice(s, id, p)
  {
    hide Took;
    RunNone(s);
    assert Took(Run(s, []).products.commits, id, p) >= 2;
  }

  /** The catalogue puts just enough of the product back on the shelf. */
  function Restock(products: map<ProductId, Product>, line: OrderItem): CatalogueOp {
    if line.product in products then Update(line.product, products[line.product].(stock := line.quantity))
    else Create(line.product, Product(None, "", "", 0, line.quantity))
  }

  ghost function TakeAgain(s: State, m: OrderCreated, line: OrderItem): seq<Step> {
    [CatalogueWrite(Restock(s.products.products, line)), ProductHandler(Inboxes.Commit(m))]
  }

  lemma {:induction false} Restocked(s: State, line: OrderItem)
    requires line.quantity > 0
    ensures var s' := Next(s, CatalogueWrite(Restock(s.products.products, line)));
            && s'.productInbox == s.productInbox && s'.products.commits == s.products.commits
            && Joins(s'.products.products, line)
  {
    hide Outboxes.InsertRow;
  }

  lemma {:induction false} TakesAgain(s: State, m: OrderCreated, i: nat)
    requires m in s.productInbox.passed && i < |m.items| && DistinctProducts(m.items) && PositiveQuantities(m.items)
    ensures var s' := Run(s, TakeAgain(s, m, m.items[i]));
            && Took(s'.products.commits, m.order, m.items[i].product)
                 == Took(s.products.commits, m.order, m.items[i].product) + 1
            && s'.productInbox.passed == s.productInbox.passed - multiset{m}
  {
    hide Run, Next, Took, Taken, Joins, Affected, Decremented, Outboxes.InsertRow, Inboxes.Next, Restock;
    var restock := CatalogueWrite(Restock(s.products.products, m.items[i]));
    var commit := ProductHandler(Inboxes.Commit(m));
    var s1 := Next(s, restock);
    RunTwo(s, restock, commit);
    Restocked(s, m.items[i]);
    CommitLeavesNext(s1, m);
    TakenOfLine(s1.products.products, m.items, i);
    var c := StockCommit(m, s1.products.products, Affected(s1.products.products, m.items));
    TookAppended(s1.products.commits, c, m.order, m.items[i].product);
  }

  lemma {:induction false} CommitLeavesNext(s: State, m: OrderCreated)
    requires m in s.productInbox.passed
    ensures var s' := Next(s, ProductHandler(Inboxes.Commit(m)));
            s'.products == StockTx(s.products, m) && s'.productInbox.passed == s.productInbox.passed - multiset{m}
  {
    hide StockTx;
    CommitLeaves(s, Inboxes.Commit(m));
  }

  /** Enough handlers are past their checks. */
  lemma {:induction false} PassedTakeTwice(s: State, m: OrderCreated, i: nat)
    requires i < |m.items| && DistinctProducts(m.items) && PositiveQuantities(m.items)
    requires Took(s.products.commits, m.order, m.items[i].product) + s.productInbox.passed[m] >= 2
    ensures CanTakeTwice(s, m.order, m.items[i].product)
    decreases s.productInbox.passed[m]
  {
    hide Run, Took, CanTakeTwice, TakeAgain;
    var p := m.items[i].product;
    if Took(s.products.commits, m.order, p) >= 2 {
      TookTwice(s, m.order, p);
    } else {
      TakesAgain(s, m, i);
      PassedTakeTwice(Run(s, TakeAgain(s, m, m.items[i])), m, i);
      TwiceLater(s, TakeAgain(s, m, m.items[i]), m.order, p);
    }
  }

  lemma {:induction false} OverlapTakesTwice(s: State, m: OrderCreated, i: nat)
    requires i < |m.items| && DistinctProducts(m.items) && PositiveQuantities(m.items) && CanOverlap(s, m)
    ensures CanTakeTwice(s, m.order, m.items[i].product)
  {
    hide Run, Took, CanTakeTwice;
    var steps :| Run(s, steps).productInbox.passed[m] >= 2;
    PassedTakeTwice(Run(s, steps), m, i);
    TwiceLater(s, steps, m.order, m.items[i].product);
  }

  lemma {:induction false} SentLinesOk(s: State, m: OrderCreated)
    requires Inv(s) && Sent(s, m)
    ensures m.items != [] && DistinctProducts(m.items) && PositiveQuantities(m.items)
    ensures Inboxes.Outstanding(s.productInbox, m) || m.order in s.products.processed
  {
    hide ProvenanceOk, CommitsOk, CompensationOk, CancellationOk, CartsOk, PaymentsOk, OutboxesOk, RowsOk, Sent;
    SentOrderExists(s, m);
  }

  /** Overlapping redeliveries can decrement stock twice.  A published order decrements a product of its lines
      at most once in every future if and only if it has been processed and its decrements so far, plus the
      handlers of it that have passed their checks, are at most one. */
  lemma {:induction false} DecrementsOnceExactly(s: State, m: OrderCreated, i: nat)
    requires Reachable(s) && Sent(s, m) && i < |m.items|
    ensures var p := m.items[i].product;
            (forall steps :: Took(Run(s, steps).products.commits, m.order, p) <= 1)
            <==> m.order in s.products.processed && Took(s.products.commits, m.order, p) + s.productInbox.passed[m] <= 1
  {
    hide Reachable, Inv, Sent, Run, Took, Inboxes.Outstanding, CanOverlap;
    var p := m.items[i].product;
    ReachableInv(s);
    SentLinesOk(s, m);
    if OnceOnly(s, m, p) {
      forall steps ensures Took(Run(s, steps).products.commits, m.order, p) <= 1 {
        RunKeepsOnce(s, steps, m, p);
      }
    } else {
      if m.order !in s.products.processed {
        OneOutstanding(s, m);
        OverlapTakesTwice(s, m, i);
      } else {
        PassedTakeTwice(s, m, i);
      }
      var steps :| Took(Run(s, steps).products.commits, m.order, p) >= 2;
      assert !(Took(Run(s, steps).products.commits, m.order, p) <= 1);
    }
  }

  // ------------------------------------------------ the stock falls twice

  /** A delivery, its redelivery, and both of their checks before either transaction. */
  ghost function Overlap(m: OrderCreated): seq<Inboxes.HandlerStep<OrderCreated>> {
    [Inboxes.Deliver(m), Inboxes.Duplicate(m)] + [Inboxes.Deliver(m), Inboxes.Check(m)]
    + [Inboxes.Check(m), Inboxes.Commit(m)] + [Inboxes.Commit(m)]
  }

  lemma {:induction false} OverlapSteps(s: State, m: OrderCreated)
    requires m in s.productInbox.queue && m.order !in s.products.processed
    ensures var s2 := Next(Next(s, ProductHandler(Inboxes.Deliver(m))), ProductHandler(Inboxes.Duplicate(m)));
            var s4 := Next(Next(s2, ProductHandler(Inboxes.Deliver(m))), ProductHandler(Inboxes.Check(m)));
            var s5 := Next(s4, ProductHandler(Inboxes.Check(m)));
            s5.products == s.products && s5.productInbox.passed[m] >= 2
  {
    hide StockTx, Next;
    DeliveredAgain(s, m);
    Redelivered(Next(s, ProductHandler(Inboxes.Deliver(m))), m);
    var s2 := Next(Next(s, ProductHandler(Inboxes.Deliver(m))), ProductHandler(Inboxes.Duplicate(m)));
    DeliveredAgain(s2, m);
    var s3 := Next(s2, ProductHandler(Inboxes.Deliver(m)));
    CheckPasses(s3, m);
    CheckPasses(Next(s3, ProductHandler(Inboxes.Check(m))), m);
  }

  lemma {:induction false} Redelivered(s: State, m: OrderCreated)
    requires m in s.productInbox.checking
    ensures var s' := Next(s, ProductHandler(Inboxes.Duplicate(m)));
            && s'.products == s.products && s'.productInbox.checking == s.productInbox.checking
            && m in s'.productInbox.queue
  {
    hide StockTx;
  }

  lemma {:induction false} DeliveredAgain(s: State, m: OrderCreated)
    requires m in s.productInbox.queue
    ensures var s' := Next(s, ProductHandler(Inboxes.Deliver(m)));
            s'.products == s.products && s'.productInbox.checking[m] == s.productInbox.checking[m] + 1
  {
    hide StockTx;
  }

  lemma {:induction false} CheckPasses(s: State, m: OrderCreated)
    requires m in s.productInbox.checking && m.order !in s.products.processed
    ensures var s' := Next(s, ProductHandler(Inboxes.Check(m)));
            && s'.products == s.products && s'.productInbox.checking[m] == s.productInbox.checking[m] - 1
            && s'.productInbox.passed[m] == s.productInbox.passed[m] + 1
  {
    hide StockTx;
  }

  lemma {:induction false} CommitTwice(s: State, m: OrderCreated)
    requires s.productInbox.passed[m] >= 2
    ensures var s' := Next(Next(s, ProductHandler(Inboxes.Commit(m))), ProductHandler(Inboxes.Commit(m)));
            s'.products == StockTx(StockTx(s.products, m), m)
  {
    hide StockTx, Next;
    CommitLeavesNext(s, m);
    CommitLeavesNext(Next(s, ProductHandler(Inboxes.Commit(m))), m);
  }

  /** From every state with an unprocessed order's message waiting, one redelivery in time is enough for the
      order to be applied to the stock twice. */
  lemma {:induction false} StockFallsTwice(s: State, m: OrderCreated)
    requires m in s.productInbox.queue && m.order !in s.products.processed
    ensures Run(s, ProductSteps(Overlap(m))).products == StockTx(StockTx(s.products, m), m)
  {
    hide Next, Run, StockTx;
    var deliver, again := ProductHandler(Inboxes.Deliver(m)), ProductHandler(Inboxes.Duplicate(m));
    var check, commit := ProductHandler(Inboxes.Check(m)), ProductHandler(Inboxes.Commit(m));
    var s2 := Next(Next(s, deliver), again);
    var s4 := Next(Next(s2, deliver), check);
    OverlapSteps(s, m);
    CommitTwice(Next(s4, check), m);
    RunTwo(Next(Next(s4, check), commit), commit, commit);
    RunPairThen(s4, check, commit, [commit]);
    RunPairThen(s2, deliver, check, [check, commit] + [commit]);
    RunPairThen(s, deliver, again, [deliver, check] + ([check, commit] + [commit]));
    assert ProductSteps(Overlap(m)) == [deliver, again] + ([deliver, check] + ([check, commit] + [commit]));
  }
}
