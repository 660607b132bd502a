/** Stock over whole runs of the saga: what is conserved, and when an order is applied exactly once. */
module SagaStock {
  import opened Events
  import opened Carts
  import opened OrderDb
  import opened ProductDb
  import opened Saga
  import opened SagaInvariants
  import opened SagaTheorems
  import CartDb
  import Inboxes
  import Outboxes
  import Stock

  // ------------------------------------------------ conservation

  function StockOf(products: map<ProductId, Product>, p: ProductId): int {
    if p in products then products[p].stock else 0
  }

  /** Stock of product p that a catalogue write puts in, or takes out. */
  function Restocked(products: map<ProductId, Product>, op: CatalogueOp, p: ProductId): int {
    match op
    case Create(id, product) => if id == p && Accepted(products, op) then product.stock else 0
    case Update(id, product) => if id == p && Accepted(products, op) then product.stock - StockOf(products, p) else 0
    case Delete(id) => if id == p then -StockOf(products, p) else 0
    case ClearCategory(_) => 0
  }

  ghost function RestockedBy(s: State, step: Step, p: ProductId): int {
    if step.CatalogueWrite? then Restocked(s.products.products, step.write, p) else 0
  }

  ghost function RestockedIn(s: State, steps: seq<Step>, p: ProductId): int {
    if steps == [] then 0 else
      var n := |steps| - 1;
      RestockedIn(s, steps[..n], p) + RestockedBy(Run(s, steps[..n]), steps[n], p)
  }

  lemma {:induction false} StockTxConserves(db: ProductDb.Db, event: OrderCreated, p: ProductId)
    ensures var db' := StockTx(db, event);
            StockOf(db'.products, p) + TakenBy(db'.commits, p) == StockOf(db.products, p) + TakenBy(db.commits, p)
  {
    hide Outboxes.InsertRow, Affected;
    var db' := StockTx(db, event);
    assert db'.commits[..|db.commits|] == db.commits;
    TakenFromLine(db.products, event.items, p);
  }

  lemma {:induction false} CatalogueConserves(db: ProductDb.Db, op: CatalogueOp, p: ProductId)
    ensures var db' := CatalogueTx(db, op);
            StockOf(db'.products, p) == StockOf(db.products, p) + Restocked(db.products, op, p)
                 && db'.commits == db.commits
  {
    hide Outboxes.InsertRow;
  }

  lemma {:induction false} StepConserves(s: State, step: Step, p: ProductId)
    ensures var s' := Next(s, step);
            StockOf(s'.products.products, p) + TakenBy(s'.products.commits, p) ==
            StockOf(s.products.products, p) + TakenBy(s.products.commits, p) + RestockedBy(s, step, p)
  {
    hide StockTx, CatalogueTx, StockOf, TakenBy, Restocked, Inboxes.Next, Outboxes.RelayNext;
    Frame(s, step);
    if step.ProductHandler? {
      StockTxConserves(s.products, step.order.m, p);
    } else if step.CatalogueWrite? {
      CatalogueConserves(s.products, step.write, p);
    }
  }

  /** In every run from every state, what the committed stock transactions took and what the catalogue put
      in account for the whole change of a product's stock; nothing else moves it. */
  lemma {:induction false} StockAccounted(s: State, steps: seq<Step>, p: ProductId)
    ensures var s' := Run(s, steps);
            StockOf(s'.products.products, p) + TakenBy(s'.products.commits, p) ==
            StockOf(s.products.products, p) + TakenBy(s.products.commits, p) + RestockedIn(s, steps, p)
  {
    hide Next, StockOf, TakenBy, RestockedBy;
    if steps != [] {
      StockAccounted(s, steps[..|steps| - 1], p);
      StepConserves(Run(s, steps[..|steps| - 1]), steps[|steps| - 1], p);
    }
  }

  /** A committed transaction took from each product exactly the quantity of the order's line for it when
      the stock sufficed, and nothing otherwise. */
  lemma {:induction false} CommitTook(s: State, j: nat, p: ProductId)
    requires Reachable(s) && j < |s.products.commits|
    ensures var c := s.products.commits[j];
            && Taken(c.before, c.event.items, p) >= 0
            && (forall i :: 0 <= i < |c.event.items| && c.event.items[i].product == p ==>
                  Taken(c.before, c.event.items, p)
                    == if Unsatisfiable(c.before, c.event.items[i]) then 0 else c.event.items[i].quantity)
            && ((forall i :: 0 <= i < |c.event.items| ==> c.event.items[i].product != p) ==>
                  Taken(c.before, c.event.items, p) == 0)
  {
    hide Reachable, Inv, Taken;
    ReachableInv(s);
    CommitRowOk(s, j);
    var c := s.products.commits[j];
    TakenFromLine(c.before, c.event.items, p);
    forall i | 0 <= i < |c.event.items| && c.event.items[i].product == p
      ensures Taken(c.before, c.event.items, p)
           == if Unsatisfiable(c.before, c.event.items[i]) then 0 else c.event.items[i].quantity
    {
      TakenOfLine(c.before, c.event.items, i);
    }
  }

  /** A committed transaction took nothing from any product exactly when no line could be satisfied; so a short
      one with a satisfiable line has taken stock, and keeps it. */
  lemma {:induction false} NothingTakenExactly(s: State, j: nat)
    requires Reachable(s) && j < |s.products.commits|
    ensures var c := s.products.commits[j];
            (forall p :: Taken(c.before, c.event.items, p) == 0)
            <==> forall i :: 0 <= i < |c.event.items| ==> Unsatisfiable(c.before, c.event.items[i])
  {
    hide Reachable, Inv, Taken, Unsatisfiable;
    ReachableInv(s);
    CommitRowOk(s, j);
    var c := s.products.commits[j];
    if forall i :: 0 <= i < |c.event.items| ==> Unsatisfiable(c.before, c.event.items[i]) {
      forall p ensures Taken(c.before, c.event.items, p) == 0 {
        CommitTook(s, j, p);
        if i :| 0 <= i < |c.event.items| && c.event.items[i].product == p {
          assert Unsatisfiable(c.before, c.event.items[i]);
        }
      }
    } else {
      var i :| 0 <= i < |c.event.items| && !Unsatisfiable(c.before, c.event.items[i]);
      CommitTook(s, j, c.event.items[i].product);
      assert Taken(c.before, c.event.items, c.event.items[i].product) != 0;
    }
  }

  lemma {:induction false} CommitRowOk(s: State, j: nat)
    requires Inv(s) && j < |s.products.commits|
    ensures RowOk(s.orders.orders, s.products.commits[j].event)
  {
    hide CompensationOk, CancellationOk, CartsOk, PaymentsOk, ProvenanceOk, ProgressOk, OutboxesOk, RowsOk, RowOk, Sent;
    SentOrderExists(s, s.products.commits[j].event);
  }

  lemma {:induction false} TakenByGrows(commits: seq<StockCommit>, n: nat, p: ProductId)
    requires n <= |commits|
         && forall j :: 0 <= j < |commits| ==> Taken(commits[j].before, commits[j].event.items, p) >= 0
    ensures TakenBy(commits[..n], p) <= TakenBy(commits, p)
  {
    hide Taken;
    if n < |commits| {
      var k := |commits| - 1;
      assert commits[..k][..n] == commits[..n];
      TakenByGrows(commits[..k], n, p);
    } else {
      assert commits[..n] == commits;
    }
  }

  lemma {:induction false} RunCommitsGrow(s: State, steps: seq<Step>)
    ensures s.products.commits <= Run(s, steps).products.commits
  {
    hide Next;
    if steps != [] {
      RunCommitsGrow(s, steps[..|steps| - 1]);
      CommitsGrow(Run(s, steps[..|steps| - 1]), steps[|steps| - 1]);
    }
  }

  /** Orders only ever take stock: nothing in a run, cancellations included, gives any back.  What is
      left is never negative. */
  lemma {:induction false} CancellationRestoresNothing(s: State, steps: seq<Step>, p: ProductId)
    requires Reachable(s)
    ensures 0 <= StockOf(Run(s, steps).products.products, p)
              <= StockOf(s.products.products, p) + RestockedIn(s, steps, p)
  {
    hide Reachable, Run, Inv, Taken, TakenBy, RestockedIn;
    var s' := Run(s, steps);
    ReachableRun(s, steps);
    ReachableInv(s');
    assert StockNonNegative(s'.products.products) by { InvStock(s'); }
    StockAccounted(s, steps, p);
    RunCommitsGrow(s, steps);
    forall j | 0 <= j < |s'.products.commits|
      ensures Taken(s'.products.commits[j].before, s'.products.commits[j].event.items, p) >= 0
    {
      CommitTook(s', j, p);
    }
    assert s'.products.commits[..|s.products.commits|] == s.products.commits;
    TakenByGrows(s'.products.commits, |s.products.commits|, p);
  }

  lemma {:induction false} InvStock(s: State)
    requires Inv(s)
    ensures StockNonNegative(s.products.products)
  {
    hide OutboxesOk, RowsOk, ProvenanceOk, ProgressOk, CommitsOk, CompensationOk, CancellationOk, CartsOk, PaymentsOk;
  }

  // ------------------------------------------------ how often an order is applied

  /** Committed stock transactions of one order. */
  function CommitCount(commits: seq<StockCommit>, id: OrderId): nat {
    if commits == [] then 0 else
      var n := |commits| - 1;
      CommitCount(commits[..n], id) + if commits[n].event.order == id then 1 else 0
  }

  lemma {:induction false} CountAppended(commits: seq<StockCommit>, c: StockCommit, id: OrderId)
    ensures CommitCount(commits + [c], id) == CommitCount(commits, id) + if c.event.order == id then 1 else 0
  {
    assert (commits + [c])[..|commits|] == commits;
  }

  lemma {:induction false} CountPositive(commits: seq<StockCommit>, id: OrderId)
    ensures CommitCount(commits, id) > 0 <==> CommittedFor(commits, id)
  {
    if commits != [] {
      var n := |commits| - 1;
      CountPositive(commits[..n], id);
      if j :| 0 <= j < |commits| && commits[j].event.order == id {
        if j < n {
          assert commits[..n][j].event.order == id;
        }
      }
      if j :| 0 <= j < n && commits[..n][j].event.order == id {
        assert commits[j].event.order == id;
      }
    }
  }

  lemma {:induction false} SameOrderSameMessage(s: State, m: OrderCreated, n: OrderCreated)
    requires Inv(s) && Sent(s, m) && Sent(s, n) && m.order == n.order
    ensures m == n
  {
    hide ProvenanceOk, ProgressOk, CommitsOk, CompensationOk, CancellationOk, CartsOk, PaymentsOk, Sent, OutboxesOk;
    hide RowOk;
    SentOrderExists(s, m);
    SentOrderExists(s, n);
    var i :| 0 <= i < |s.orders.outbox.rows| && s.orders.outbox.rows[i].body == m;
    var j :| 0 <= j < |s.orders.outbox.rows| && s.orders.outbox.rows[j].body == n;
    assert i == j;
  }

  /** The order is applied, and no handler of it can apply it again. */
  ghost predicate AppliedOnce(s: State, m: OrderCreated) {
    && CommitCount(s.products.commits, m.order) == 1 && m.order in s.products.processed
    && m !in s.productInbox.passed
  }

  lemma {:induction false} PassedIsSent(s: State, m: OrderCreated)
    requires Inv(s) && m in s.productInbox.passed
    ensures Sent(s, m)
  {
    hide OutboxesOk, RowsOk, ProgressOk, CommitsOk, CompensationOk, CancellationOk, CartsOk, PaymentsOk, Sent;
    assert Inboxes.Holds(s.productInbox, m);
  }

  lemma {:induction false} TransactionSparesApplied(s: State, h: Inboxes.HandlerStep<OrderCreated>, m: OrderCreated)
    requires Inv(s) && Sent(s, m) && AppliedOnce(s, m) && Inboxes.Transacts(s.productInbox, h)
    ensures h.m.order != m.order
  {
    hide Inv, Sent;
    PassedIsSent(s, h.m);
    if h.m.order == m.order {
      SameOrderSameMessage(s, h.m, m);
    }
  }

  /** Only a passing check adds to the handlers between check and transaction. */
  lemma {:induction false} PassedFrame(s: State, step: Step)
    ensures var i, i' := s.productInbox, Next(s, step).productInbox;
            || i'.passed <= i.passed
            || (step.ProductHandler? && step.order.Check? && step.order.m.order !in s.products.processed
                && i'.passed == i.passed + multiset{step.order.m})
  {
    hide OrderRelayNext, StockTx, PlaceNext, CancelNext, CartHandlerNext, FailureHandlerNext, ProductRelayNext;
    Frame(s, step);
    if step.OrderRelay? {
      OrderRelayEffect(s, step.relay);
    }
  }

  lemma {:induction false} PassedMoves(s: State, step: Step, m: OrderCreated)
    requires m.order in s.products.processed && m !in s.productInbox.passed
    ensures m !in Next(s, step).productInbox.passed
  {
    hide Next;
    PassedFrame(s, step);
  }

  lemma {:induction false} AppliedOnceStays(s: State, step: Step, m: OrderCreated)
    requires Inv(s) && Sent(s, m) && AppliedOnce(s, m)
    ensures AppliedOnce(Next(s, step), m)
  {
    hide Inv, Sent, Next, Inboxes.Transacts, CommitCount, Affected, Decremented, Outboxes.InsertRow;
    CommitsFrame(s, step);
    PassedMoves(s, step, m);
    if step.ProductHandler? && Inboxes.Transacts(s.productInbox, step.order) {
      TransactionSparesApplied(s, step.order, m);
      var c := StockCommit(step.order.m, s.products.products, Affected(s.products.products, step.order.m.items));
      CountAppended(s.products.commits, c, m.order);
    }
  }

  lemma {:induction false} RunKeepsSent(s: State, steps: seq<Step>, m: OrderCreated)
    requires Inv(s) && Sent(s, m)
    ensures Sent(Run(s, steps), m)
  {
    hide Next, Inv, Sent;
    if steps != [] {
      var init, last := steps[..|steps| - 1], steps[|steps| - 1];
      RunKeepsSent(s, init, m);
      RunKeepsInv(s, init);
      StepKeepsSent(Run(s, init), last, m);
    }
  }

  lemma {:induction false} StepKeepsSent(s: State, step: Step, m: OrderCreated)
    requires Inv(s) && Sent(s, m)
    ensures Sent(Next(s, step), m)
  {
    hide Next, Sent, Inv;
    InvParts(s);
    KeepsOutboxes(s, step);
    SentStays(s, Next(s, step), m);
  }

  lemma {:induction false} RunKeepsAppliedOnce(s: State, steps: seq<Step>, m: OrderCreated)
    requires Inv(s) && Sent(s, m) && AppliedOnce(s, m)
    ensures AppliedOnce(Run(s, steps), m)
  {
    hide Next, Inv, Sent, AppliedOnce;
    if steps != [] {
      var init, last := steps[..|steps| - 1], steps[|steps| - 1];
      RunKeepsAppliedOnce(s, init, m);
      RunKeepsInv(s, init);
      RunKeepsSent(s, init, m);
      AppliedOnceStays(Run(s, init), last, m);
    }
  }

  // ------------------------------------------------ overlapping handlers

  /** Two handlers of this message can come to stand between their checks and their transactions. */
  ghost predicate CanOverlap(s: State, m: OrderCreated) {
    exists steps :: Run(s, steps).productInbox.passed[m] >= 2
  }

  lemma {:induction false} OneStepEarlier(s: State, h: Inboxes.HandlerStep<OrderCreated>, m: OrderCreated)
    requires CanOverlap(ProductHandlerNext(s, h), m)
    ensures CanOverlap(s, m)
  {
    hide ProductHandlerNext, Run;
    var s' := ProductHandlerNext(s, h);
    var steps :| Run(s', steps).productInbox.passed[m] >= 2;
    assert Run(s, [ProductHandler(h)]) == s' by { RunTwo(s, ProductHandler(h), ProductHandler(h)); }
    RunConcat(s, [ProductHandler(h)], steps);
    assert Run(s, [ProductHandler(h)] + steps).productInbox.passed[m] >= 2;
  }

  lemma {:induction false} AlreadyOverlapping(s: State, m: OrderCreated)
    requires s.productInbox.passed[m] >= 2
    ensures CanOverlap(s, m)
  {
    RunNone(s);
    assert Run(s, []).productInbox.passed[m] >= 2;
  }

  /** One handler is between its check and its transaction: a redelivery catches up with it. */
  lemma {:induction false} OnePassed(s: State, m: OrderCreated)
    requires m in s.productInbox.passed && m.order !in s.products.processed
    ensures CanOverlap(s, m)
  {
    hide CanOverlap, StockTx;
    var s1 := ProductHandlerNext(s, Inboxes.Duplicate(m));
    var s2 := ProductHandlerNext(s1, Inboxes.Deliver(m));
    var s3 := ProductHandlerNext(s2, Inboxes.Check(m));
    AlreadyOverlapping(s3, m);
    OneStepEarlier(s2, Inboxes.Check(m), m);
    OneStepEarlier(s1, Inboxes.Deliver(m), m);
    OneStepEarlier(s, Inboxes.Duplicate(m), m);
  }

  lemma {:induction false} OneChecking(s: State, m: OrderCreated)
    requires m in s.productInbox.checking && m.order !in s.products.processed
    ensures CanOverlap(s, m)
  {
    hide CanOverlap, StockTx;
    OnePassed(ProductHandlerNext(s, Inboxes.Check(m)), m);
    OneStepEarlier(s, Inboxes.Check(m), m);
  }

  /** A message that is still to be handled can be handled twice at once. */
  lemma {:induction false} OneOutstanding(s: State, m: OrderCreated)
    requires Inboxes.Outstanding(s.productInbox, m) && m.order !in s.products.processed
    ensures CanOverlap(s, m)
  {
    hide CanOverlap, StockTx;
    if m in s.productInbox.passed {
      OnePassed(s, m);
    } else if m in s.productInbox.checking {
      OneChecking(s, m);
    } else {
      OneChecking(ProductHandlerNext(s, Inboxes.Deliver(m)), m);
      OneStepEarlier(s, Inboxes.Deliver(m), m);
    }
  }

  // ------------------------------------------------ two transactions of one order

  ghost predicate CanDouble(s: State, id: OrderId) {
    exists steps :: CommitCount(Run(s, steps).products.commits, id) >= 2
  }

  lemma {:induction false} DoubleLater(s: State, steps: seq<Step>, id: OrderId)
    requires CanDouble(Run(s, steps), id)
    ensures CanDouble(s, id)
  {
    hide CommitCount, Run;
    var more :| CommitCount(Run(Run(s, steps), more).products.commits, id) >= 2;
    RunConcat(s, steps, more);
    assert CommitCount(Run(s, steps + more).products.commits, id) >= 2;
  }

  lemma {:induction false} DoubleAfterCommit(s: State, m: OrderCreated)
    requires CanDouble(ProductHandlerNext(s, Inboxes.Commit(m)), m.order)
    ensures CanDouble(s, m.order)
  {
    hide CanDouble, ProductHandlerNext, Run;
    var step := ProductHandler(Inboxes.Commit(m));
    RunTwo(s, step, step);
    DoubleLater(s, [step], m.order);
  }

  lemma {:induction false} AlreadyDouble(s: State, id: OrderId)
    requires CommitCount(s.products.commits, id) >= 2
    ensures CanDouble(s, id)
  {
    hide CommitCount;
    RunNone(s);
    assert CommitCount(Run(s, []).products.commits, id) >= 2;
  }

  lemma {:induction false} SecondCommit(s: State, m: OrderCreated)
    requires m in s.productInbox.passed && CommitCount(s.products.commits, m.order) >= 1
    ensures CanDouble(s, m.order)
  {
    hide CanDouble, CommitCount, Affected, Decremented, Outboxes.InsertRow;
    CountAppended(s.products.commits, StockCommit(m, s.products.products, Affected(s.products.products, m.items)),
         m.order);
    AlreadyDouble(ProductHandlerNext(s, Inboxes.Commit(m)), m.order);
    DoubleAfterCommit(s, m);
  }

  lemma {:induction false} TwoPassed(s: State, m: OrderCreated)
    requires s.productInbox.passed[m] >= 2
    ensures CanDouble(s, m.order)
  {
    hide CommitCount, CanDouble, Affected, Decremented, Outboxes.InsertRow;
    CountAppended(s.products.commits, StockCommit(m, s.products.products, Affected(s.products.products, m.items)),
         m.order);
    SecondCommit(ProductHandlerNext(s, Inboxes.Commit(m)), m);
    DoubleAfterCommit(s, m);
  }

  lemma {:induction false} OverlapDoubles(s: State, m: OrderCreated)
    requires CanOverlap(s, m)
    ensures CanDouble(s, m.order)
  {
    hide CanDouble, Run;
    var steps :| Run(s, steps).productInbox.passed[m] >= 2;
    TwoPassed(Run(s, steps), m);
    DoubleLater(s, steps, m.order);
  }

  lemma {:induction false} UnsafeCanDouble(s: State, m: OrderCreated)
    requires Inv(s) && Sent(s, m) && !AppliedOnce(s, m)
    ensures CanDouble(s, m.order)
  {
    hide CanDouble, CanOverlap, Sent, CommitCount, OutboxesOk, RowsOk, ProvenanceOk, CompensationOk, CancellationOk;
    hide CartsOk, PaymentsOk;
    CountPositive(s.products.commits, m.order);
    if m.order !in s.products.processed {
      OneOutstanding(s, m);
      OverlapDoubles(s, m);
    } else if m in s.productInbox.passed {
      SecondCommit(s, m);
    } else {
      AlreadyDouble(s, m.order);
    }
  }

  /** The processed_events table of the product service is not UNIQUE, so the transactions of overlapping
      redeliveries can both commit.  Exactly when a published order is safe from a second one in every future:
      one transaction of it has committed and no handler of it has passed its check and not finished. */
  lemma {:induction false} AppliedOnceExactly(s: State, m: OrderCreated)
    requires Reachable(s) && Sent(s, m)
    ensures (forall steps :: CommitCount(Run(s, steps).products.commits, m.order) <= 1)
       <==> CommitCount(s.products.commits, m.order) == 1 && m !in s.productInbox.passed
  {
    hide Reachable, Inv, Sent, Run, CommitCount;
    ReachableInv(s);
    CountPositive(s.products.commits, m.order);
    CommittedIsProcessed(s, m.order);
    if CommitCount(s.products.commits, m.order) == 1 && m !in s.productInbox.passed {
      forall steps ensures CommitCount(Run(s, steps).products.commits, m.order) <= 1 {
        RunKeepsAppliedOnce(s, steps, m);
      }
    } else {
      UnsafeCanDouble(s, m);
      var steps :| CommitCount(Run(s, steps).products.commits, m.order) >= 2;
      assert !(CommitCount(Run(s, steps).products.commits, m.order) <= 1);
    }
  }

  lemma {:induction false} CommittedIsProcessed(s: State, id: OrderId)
    requires Inv(s)
    ensures id in s.products.processed <==> CommittedFor(s.products.commits, id)
  {
    hide OutboxesOk, RowsOk, ProvenanceOk, ProgressOk, CompensationOk, CancellationOk, CartsOk, PaymentsOk;
    hide CommittedFor;
  }

  // ------------------------------------------------ runs without overlap

  /** No handler passes its check while another one of the same order is between check and transaction. */
  ghost predicate Alone(s: State, step: Step) {
    step.ProductHandler? && step.order.Check? ==>
      forall m :: m in s.productInbox.passed ==> m.order != step.order.m.order
  }

  ghost predicate NoOverlap(s: State, steps: seq<Step>) {
    steps == [] || (NoOverlap(s, steps[..|steps| - 1]) && Alone(Run(s, steps[..|steps| - 1]), steps[|steps| - 1]))
  }

  /** At most one handler of each order is past its check, and only while the order is unprocessed. */
  ghost predicate SingleFlight(s: State) {
    && (forall m :: m in s.productInbox.passed ==> s.productInbox.passed[m] == 1 && m.order !in s.products.processed)
    && (forall m, n :: m in s.productInbox.passed && n in s.productInbox.passed && m.order == n.order ==> m == n)
  }

  ghost predicate EachOnce(s: State) {
    forall id :: CommitCount(s.products.commits, id) == if id in s.products.processed then 1 else 0
  }

  lemma {:induction false} OtherStepKeepsFlight(s: State, step: Step)
    requires SingleFlight(s) && Alone(s, step)
    requires !(step.ProductHandler? && Inboxes.Transacts(s.productInbox, step.order))
    ensures SingleFlight(Next(s, step))
  {
    hide Next, SingleFlight, Inboxes.Transacts, Inboxes.Next, StockTx;
    CommitsFrame(s, step);
    PassedFrame(s, step);
    var i, i' := s.productInbox, Next(s, step).productInbox;
    if i'.passed <= i.passed {
      FewerPassed(s, Next(s, step));
    } else {
      OneMorePassed(s, Next(s, step), step.order.m);
    }
  }

  lemma {:induction false} FewerPassed(s: State, s': State)
    requires SingleFlight(s) && s'.productInbox.passed <= s.productInbox.passed
         && s'.products.processed == s.products.processed
    ensures SingleFlight(s')
  {
    forall m | m in s'.productInbox.passed ensures m in s.productInbox.passed && s'.productInbox.passed[m] == 1 {
      assert s'.productInbox.passed[m] <= s.productInbox.passed[m];
    }
  }

  lemma {:induction false} OneMorePassed(s: State, s': State, m: OrderCreated)
    requires SingleFlight(s) && forall n :: n in s.productInbox.passed ==> n.order != m.order
    requires s'.productInbox.passed == s.productInbox.passed + multiset{m}
    requires s'.products.processed == s.products.processed && m.order !in s.products.processed
    ensures SingleFlight(s')
  {
  }

  lemma {:induction false} CommitKeepsFlight(s: State, h: Inboxes.HandlerStep<OrderCreated>)
    requires SingleFlight(s) && EachOnce(s) && Inboxes.Transacts(s.productInbox, h)
    ensures SingleFlight(ProductHandlerNext(s, h)) && EachOnce(ProductHandlerNext(s, h))
  {
    hide CommitCount, Affected, Decremented, Outboxes.InsertRow;
    var s' := ProductHandlerNext(s, h);
    forall id ensures CommitCount(s'.products.commits, id) == if id in s'.products.processed then 1 else 0 {
      CountAppended(s.products.commits,
           StockCommit(h.m, s.products.products, Affected(s.products.products, h.m.items)), id);
    }
  }

  lemma {:induction false} StepKeepsFlight(s: State, step: Step)
    requires SingleFlight(s) && EachOnce(s) && Alone(s, step)
    ensures SingleFlight(Next(s, step)) && EachOnce(Next(s, step))
  {
    hide SingleFlight, Alone, ProductHandlerNext, Inboxes.Transacts, CommitCount, StockTx;
    if step.ProductHandler? && Inboxes.Transacts(s.productInbox, step.order) {
      CommitKeepsFlight(s, step.order);
    } else {
      OtherStepKeepsFlight(s, step);
      hide Next;
      CommitsFrame(s, step);
    }
  }

  lemma {:induction false} NoOverlapKeepsFlight(s: State, steps: seq<Step>)
    requires SingleFlight(s) && EachOnce(s) && NoOverlap(s, steps)
    ensures SingleFlight(Run(s, steps)) && EachOnce(Run(s, steps))
  {
    hide Next, SingleFlight, EachOnce, Alone;
    if steps != [] {
      NoOverlapKeepsFlight(s, steps[..|steps| - 1]);
      StepKeepsFlight(Run(s, steps[..|steps| - 1]), steps[|steps| - 1]);
    }
  }

  function EventsOf(commits: seq<StockCommit>): seq<OrderCreated> {
    seq(|commits|, i requires 0 <= i < |commits| => commits[i].event)
  }

  /** Equal up to how far the relayer has come. */
  ghost predicate SameStock(db: ProductDb.Db, ref: ProductDb.Db) {
    && db.products == ref.products && db.processed == ref.processed && db.commits == ref.commits
    && |db.outbox.rows| == |ref.outbox.rows|
    && forall i :: 0 <= i < |db.outbox.rows| ==> db.outbox.rows[i].body == ref.outbox.rows[i].body
  }

  lemma {:induction false} SameStockTx(db: ProductDb.Db, ref: ProductDb.Db, event: OrderCreated)
    requires SameStock(db, ref)
    ensures SameStock(StockTx(db, event), StockTx(ref, event))
  {
    hide Affected, Decremented;
  }

  lemma {:induction false} SameCatalogueTx(db: ProductDb.Db, ref: ProductDb.Db, op: CatalogueOp)
    requires SameStock(db, ref)
    ensures SameStock(CatalogueTx(db, op), CatalogueTx(ref, op))
  {
    hide Accepted, Written;
  }

  lemma {:induction false} RelayedDb(s: State, r: Outboxes.RelayStep)
    ensures ProductRelayNext(s, r).products == s.products.(outbox := Outboxes.RelayNext(s.products.outbox, r))
  {
    hide Outboxes.RelayNext;
  }

  lemma {:induction false} RelayedSameStock(db: ProductDb.Db, r: Outboxes.RelayStep, ref: ProductDb.Db)
    requires SameStock(db, ref)
    ensures SameStock(db.(outbox := Outboxes.RelayNext(db.outbox, r)), ref)
  {
  }

  /** The transaction on the product database that a step runs, if it runs one. */
  ghost function TransactionOf(s: State, step: Step): seq<Transaction> {
    if step.CatalogueWrite? then [Catalogue(step.write)]
    else if step.ProductHandler? && Inboxes.Transacts(s.productInbox, step.order) then [Sale(step.order.m)]
    else []
  }

  ghost function TransactionsOf(s: State, steps: seq<Step>): seq<Transaction> {
    if steps == [] then [] else
      var n := |steps| - 1;
      TransactionsOf(s, steps[..n]) + TransactionOf(Run(s, steps[..n]), steps[n])
  }

  lemma {:induction false} StepIsTransaction(s: State, step: Step, ref: ProductDb.Db)
    requires SameStock(s.products, ref)
    ensures SameStock(Next(s, step).products,
                      if TransactionOf(s, step) == [] then ref else TransactionNext(ref, TransactionOf(s, step)[0]))
  {
    hide SameStock, ProductRelayNext, Inboxes.Next, Inboxes.Transacts, StockTx, CatalogueTx;
    Frame(s, step);
    if step.CatalogueWrite? {
      SameCatalogueTx(s.products, ref, step.write);
    } else if step.ProductHandler? && Inboxes.Transacts(s.productInbox, step.order) {
      SameStockTx(s.products, ref, step.order.m);
    } else if step.ProductRelay? {
      RelayedDb(s, step.relay);
      RelayedSameStock(s.products, step.relay, ref);
    }
  }

  lemma {:induction false} AfterMore(db: ProductDb.Db, txs: seq<Transaction>, more: seq<Transaction>)
    requires |more| <= 1
    ensures After(db, txs + more) == if more == [] then After(db, txs) else TransactionNext(After(db, txs), more[0])
  {
    hide TransactionNext;
    if more == [] {
      assert txs + more == txs;
    } else {
      assert (txs + more)[..|txs + more| - 1] == txs;
    }
  }

  /** In every run from every state, the product database is what running the committed stock transactions and
      the catalogue transactions one after the other gives, up to how far the relayer has come. */
  lemma {:induction false} RunIsHistory(s: State, steps: seq<Step>)
    ensures SameStock(Run(s, steps).products, After(s.products, TransactionsOf(s, steps)))
  {
    hide Next, SameStock, TransactionNext;
    if steps == [] {
      SameAsItself(s.products);
    } else {
      var s1, last := Run(s, steps[..|steps| - 1]), steps[|steps| - 1];
      var txs := TransactionsOf(s, steps[..|steps| - 1]);
      RunIsHistory(s, steps[..|steps| - 1]);
      StepIsTransaction(s1, last, After(s.products, txs));
      AfterMore(s.products, txs, TransactionOf(s1, last));
    }
  }

  lemma {:induction false} SameAsItself(db: ProductDb.Db)
    ensures SameStock(db, db)
  {
  }

  /** The order events applied in a history, in order. */
  function SalesOf(txs: seq<Transaction>): seq<OrderCreated> {
    if txs == [] then [] else
      var n := |txs| - 1;
      SalesOf(txs[..n]) + if txs[n].Sale? then [txs[n].event] else []
  }

  lemma {:induction false} EventsAppended(commits: seq<StockCommit>, c: StockCommit)
    ensures EventsOf(commits + [c]) == EventsOf(commits) + [c.event]
  {
  }

  lemma {:induction false} HistoryCommits(db: ProductDb.Db, txs: seq<Transaction>)
    ensures EventsOf(After(db, txs).commits) == EventsOf(db.commits) + SalesOf(txs)
  {
    hide EventsOf, Affected, Decremented, Outboxes.InsertRow, Accepted, Written;
    if txs != [] {
      var n := |txs| - 1;
      var before := After(db, txs[..n]);
      HistoryCommits(db, txs[..n]);
      if txs[n].Sale? {
        var event := txs[n].event;
        EventsAppended(before.commits, StockCommit(event, before.products, Affected(before.products, event.items)));
        assert EventsOf(db.commits) + SalesOf(txs[..n]) + [event]
             == EventsOf(db.commits) + (SalesOf(txs[..n]) + [event]);
      }
    }
  }

  /** A history of orders alone is the reference the sequential consumer is compared with. */
  lemma {:induction false} SalesAlone(db: ProductDb.Db, txs: seq<Transaction>)
    requires forall i :: 0 <= i < |txs| ==> txs[i].Sale?
    ensures After(db, txs) == Stock.ApplyAll(db, SalesOf(txs))
  {
    hide StockTx;
    if txs != [] {
      var n := |txs| - 1;
      SalesAlone(db, txs[..n]);
      assert SalesOf(txs)[..|SalesOf(txs)| - 1] == SalesOf(txs[..n]);
    }
  }

  lemma {:induction false} CountedTwice(commits: seq<StockCommit>, i: nat, j: nat)
    requires i < j < |commits| && commits[i].event.order == commits[j].event.order
    ensures CommitCount(commits, commits[i].event.order) >= 2
    decreases |commits|
  {
    var n := |commits| - 1;
    if j < n {
      CountedTwice(commits[..n], i, j);
    } else {
      assert commits[..n][i].event.order == commits[i].event.order;
      CountPositive(commits[..n], commits[i].event.order);
    }
  }

  /** While same-order handlers never overlap, deduplication refines exactly-once over the whole saga: the
      product database is that of a history of catalogue transactions and order events in which each
      processed order occurs exactly once and no other order at all. */
  lemma {:induction false} NoOverlapRefinesExactlyOnce(catalogue: set<OrderStatus>, products: map<ProductId, Product>,
        tables: CartDb.Db, steps: seq<Step>)
    requires NoOverlap(Initial(catalogue, products, tables), steps)
    ensures var s0, s := Initial(catalogue, products, tables), Run(Initial(catalogue, products, tables), steps);
            var txs := TransactionsOf(s0, steps);
            && SameStock(s.products, After(s0.products, txs))
            && Stock.DistinctOrders(SalesOf(txs))
            && forall id :: id in s.products.processed <==> Stock.Contains(SalesOf(txs), id)
  {
    hide Run, NoOverlap, CommitCount, After, TransactionsOf, SalesOf, SameStock, EventsOf, CommittedFor;
    hide Stock.Contains, Stock.DistinctOrders, SingleFlight, EachOnce;
    var s0, s := Initial(catalogue, products, tables), Run(Initial(catalogue, products, tables), steps);
    var events := SalesOf(TransactionsOf(s0, steps));
    NothingInFlight(s0);
    NoOverlapKeepsFlight(s0, steps);
    RunIsHistory(s0, steps);
    HistoryCommits(s0.products, TransactionsOf(s0, steps));
    SameCommits(s.products, After(s0.products, TransactionsOf(s0, steps)));
    assert events == EventsOf(s.products.commits);
    CountedOnceIsDistinct(s);
    forall id ensures id in s.products.processed <==> Stock.Contains(events, id) {
      ContainedIsCommitted(s.products.commits, id);
    }
  }

  lemma {:induction false} SameCommits(db: ProductDb.Db, ref: ProductDb.Db)
    requires SameStock(db, ref)
    ensures db.commits == ref.commits
    ensures EventsOf([]) == []
  {
  }

  lemma {:induction false} CountedOnceIsDistinct(s: State)
    requires EachOnce(s)
    ensures Stock.DistinctOrders(EventsOf(s.products.commits))
    ensures forall id :: id in s.products.processed <==> CommittedFor(s.products.commits, id)
  {
    hide CommittedFor;
    var commits := s.products.commits;
    forall i, j | 0 <= i < j < |commits| ensures commits[i].event.order != commits[j].event.order {
      if commits[i].event.order == commits[j].event.order {
        CountedTwice(commits, i, j);
      }
    }
    forall id ensures id in s.products.processed <==> CommittedFor(commits, id) {
      CountPositive(commits, id);
    }
  }

  lemma {:induction false} ContainedIsCommitted(commits: seq<StockCommit>, id: OrderId)
    ensures Stock.Contains(EventsOf(commits), id) <==> CommittedFor(commits, id)
  {
    if j :| 0 <= j < |commits| && commits[j].event.order == id {
      assert EventsOf(commits)[j].order == id;
    }
  }

  lemma {:induction false} NothingInFlight(s: State)
    requires s.products.commits == [] && s.products.processed == [] && s.productInbox == Inboxes.Empty()
    ensures SingleFlight(s) && EachOnce(s)
  {
  }
}
