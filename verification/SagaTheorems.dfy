/** What holds in every reachable state of the saga and over its runs. */
module SagaTheorems {
  import opened Events
  import opened Carts
  import opened OrderDb
  import opened ProductDb
  import opened Saga
  import opened SagaInvariants
  import CartDb
  import Inboxes
  import Outboxes

  lemma {:induction false} InitialInv(catalogue: set<OrderStatus>, products: map<ProductId, Product>, tables: CartDb.Db)
    requires CartDb.Valid(tables) && StockNonNegative(products)
    ensures Inv(Initial(catalogue, products, tables))
  {
  }

  lemma {:induction false} RunKeepsInv(s: State, steps: seq<Step>)
    requires Inv(s)
    ensures Inv(Run(s, steps))
  {
    hide Next, Inv;
    if steps != [] {
      RunKeepsInv(s, steps[..|steps| - 1]);
      KeepsInv(Run(s, steps[..|steps| - 1]), steps[|steps| - 1]);
    }
  }

  /** Every reachable state satisfies the whole invariant, whatever fails, repeats or overlaps. */
  lemma {:induction false} ReachableInv(s: State)
    requires Reachable(s)
    ensures Inv(s)
  {
    hide Inv, Initial, Run;
    var catalogue, products, tables, steps :|
      CartDb.Valid(tables) && StockNonNegative(products) && s == Run(Initial(catalogue, products, tables), steps);
    InitialInv(catalogue, products, tables);
    RunKeepsInv(Initial(catalogue, products, tables), steps);
  }

  lemma {:induction false} ReachableRun(s: State, steps: seq<Step>)
    requires Reachable(s)
    ensures Reachable(Run(s, steps))
  {
    hide Run, Initial;
    var catalogue, products, tables, before :|
      CartDb.Valid(tables) && StockNonNegative(products) && s == Run(Initial(catalogue, products, tables), before);
    RunConcat(Initial(catalogue, products, tables), before, steps);
    assert Run(s, steps) == Run(Initial(catalogue, products, tables), before + steps);
  }

  // ------------------------------------------------ quiescence

  ghost predicate NothingUnpublished<M>(o: Outboxes.Outbox<M>) {
    forall i :: 0 <= i < |o.rows| ==> o.rows[i].status != Outboxes.Unpublished
  }

  /** No row waits in an outbox, no message in a queue, no handler is at work. */
  ghost predicate Quiescent(s: State) {
    && NothingUnpublished(s.orders.outbox) && NothingUnpublished(s.products.outbox)
    && Inboxes.Quiet(s.productInbox) && Inboxes.Quiet(s.cartInbox) && Inboxes.Quiet(s.failureInbox)
  }

  lemma {:induction false} PublishedFailureSent(s: State, f: StockUpdateFailed)
    requires OutboxesOk(s) && NothingUnpublished(s.products.outbox) && FailureRow(s.products.outbox, f)
    ensures FailureSent(s, f)
  {
    var o := s.products.outbox;
    var i :| 0 <= i < |o.rows| && o.rows[i].body == StockFailed(f);
    assert Outboxes.StatusExplained(o, i);
    Outboxes.PublishedIsLogged(o, i);
    var k :| 0 <= k < |o.log| && o.log[k].id == i;
    assert Outboxes.CopyOf(o.log[k], o.rows);
  }

  /** The outcome of the saga.  Once everything is quiet, each order whose event reached the broker has
      been processed by the product and by the cart service, and it is cancelled exactly when one of
      its committed stock transactions fell short or a CancelOrder for it committed. */
  lemma {:induction false} QuiescentOutcome(s: State, m: OrderCreated)
    requires Reachable(s) && Quiescent(s) && Sent(s, m)
    ensures m.order in s.products.processed && m.order in s.carts.processed
    ensures m.order in s.orders.orders
    ensures IsCancelled(s.orders.orders[m.order])
       <==> FellShort(s.products.commits, m.order) || m.order in s.cancels
  {
    hide Reachable;
    ReachableInv(s);
    SentOrderExists(s, m);
    if FellShort(s.products.commits, m.order) {
      var j :| 0 <= j < |s.products.commits| && Short(s.products.commits[j])
           && s.products.commits[j].event.order == m.order;
      var f := FailureOf(s.products.commits[j].event);
      assert ShortCommit(s.products.commits, f);
      PublishedFailureSent(s, f);
    }
  }

  /** No message of this order has been published. */
  ghost predicate Unsent(s: State, id: OrderId) {
    forall m :: Sent(s, m) ==> m.order != id
  }

  /** The same for orders that never reached the broker: they are cancelled by CancelOrder alone. */
  lemma {:induction false} UnsentOutcome(s: State, id: OrderId)
    requires Reachable(s) && id in s.orders.orders && Unsent(s, id)
    ensures id !in s.products.processed && id !in s.carts.processed
    ensures IsCancelled(s.orders.orders[id]) <==> id in s.cancels
    ensures forall m: OrderCreated :: m.order == id ==>
              !Inboxes.Holds(s.productInbox, m) && !Inboxes.Holds(s.cartInbox, m)
  {
    hide Reachable, Affected, IsCancelled, OutboxesOk, RowsOk, CompensationOk, PaymentsOk, StockNonNegative;
    hide CartDb.Valid;
    ReachableInv(s);
    forall j | 0 <= j < |s.products.commits| ensures s.products.commits[j].event.order != id {
      assert Sent(s, s.products.commits[j].event);
    }
  }

  // ------------------------------------------------ justified compensation

  /** At the transaction's own view of the stock, the line has no product or more than is there. */
  ghost predicate Unsatisfiable(products: map<ProductId, Product>, line: OrderItem) {
    line.product !in products || products[line.product].stock < line.quantity
  }

  lemma {:induction false} ShortHasUnsatisfiable(c: StockCommit)
    requires Short(c) && c.affected == Affected(c.before, c.event.items) && DistinctProducts(c.event.items)
    ensures exists i :: 0 <= i < |c.event.items| && Unsatisfiable(c.before, c.event.items[i])
  {
    hide Affected, DistinctProducts;
    RowCountExact(c.before, c.event.items);
  }

  /** Behind every cancellation by the stock-failure consumer stands a committed stock transaction of that
      order, with its processed record and its failure row, in which some line could not be satisfied. */
  lemma {:induction false} CompensationJustified(s: State, id: OrderId)
    requires Reachable(s) && id in s.stockCancels
    ensures id in s.orders.orders && IsCancelled(s.orders.orders[id]) && id in s.products.processed
    ensures exists j :: 0 <= j < |s.products.commits|
              && s.products.commits[j].event.order == id
              && FailureRow(s.products.outbox, FailureOf(s.products.commits[j].event))
              && exists i :: 0 <= i < |s.products.commits[j].event.items|
                   && Unsatisfiable(s.products.commits[j].before, s.products.commits[j].event.items[i])
  {
    hide Reachable, Affected, OutboxesOk, ProvenanceOk, ProgressOk, CompensationOk, CartsOk, PaymentsOk;
    hide StockNonNegative;
    ReachableInv(s);
    assert FellShort(s.products.commits, id);
    var j :| 0 <= j < |s.products.commits| && Short(s.products.commits[j]) && s.products.commits[j].event.order == id;
    var c := s.products.commits[j];
    assert CommittedFor(s.products.commits, id);
    assert ShortCommit(s.products.commits, FailureOf(c.event));
    SentOrderExists(s, c.event);
    ShortHasUnsatisfiable(c);
    var i :| 0 <= i < |c.event.items| && Unsatisfiable(c.before, c.event.items[i]);
  }

  ghost predicate Satisfied(c: StockCommit) {
    forall i :: 0 <= i < |c.event.items| ==> !Unsatisfiable(c.before, c.event.items[i])
  }

  /** Conversely, a committed transaction that satisfied every line never asks for compensation. */
  lemma {:induction false} FullCommitsAreNotCompensated(s: State, id: OrderId)
    requires Reachable(s) && id in s.orders.orders && id !in s.cancels
    requires forall j :: 0 <= j < |s.products.commits| && s.products.commits[j].event.order == id ==>
               Satisfied(s.products.commits[j])
    ensures !IsCancelled(s.orders.orders[id])
  {
    if id in s.stockCancels {
      CompensationJustified(s, id);
    }
    ReachableInv(s);
  }

  // ------------------------------------------------ order rows and terminal status

  /** Orders and outbox rows are the same set, one row each; each payload names its order and user and
      announces the products and quantities of the cart the order was placed with. */
  lemma {:induction false} OutboxAtomicity(s: State)
    requires Reachable(s)
    ensures forall id :: id in s.orders.orders <==> OrderRow(s.orders.outbox, id)
    ensures forall i, j :: 0 <= i < j < |s.orders.outbox.rows| ==>
              s.orders.outbox.rows[i].body.order != s.orders.outbox.rows[j].body.order
    ensures forall i :: 0 <= i < |s.orders.outbox.rows| ==>
              RowOk(s.orders.orders, s.orders.outbox.rows[i].body) && PayloadOk(s, s.orders.outbox.rows[i].body)
  {
    ReachableInv(s);
    forall id | OrderRow(s.orders.outbox, id) ensures id in s.orders.orders {
      var i :| 0 <= i < |s.orders.outbox.rows| && s.orders.outbox.rows[i].body.order == id;
      assert RowOk(s.orders.orders, s.orders.outbox.rows[i].body);
    }
  }

  /** Cancellation, under either of its two names, is never left. */
  lemma {:induction false} CancelledForever(s: State, steps: seq<Step>, id: OrderId)
    requires id in s.orders.orders && IsCancelled(s.orders.orders[id])
    ensures id in Run(s, steps).orders.orders && IsCancelled(Run(s, steps).orders.orders[id])
  {
    hide Next;
    if steps != [] {
      CancelledForever(s, steps[..|steps| - 1], id);
      CancelledStays(Run(s, steps[..|steps| - 1]), steps[|steps| - 1], id);
    }
  }

  ghost predicate CallOver(s: State, id: OrderId) {
    id in s.drivers && (s.drivers[id].phase == Returned || s.drivers[id].phase == Failed)
  }

  lemma {:induction false} CallOverStays(s: State, step: Step, id: OrderId)
    requires CallOver(s, id) && s.drivers.Keys == s.orders.orders.Keys
    ensures CallOver(Next(s, step), id)
  {
    hide WellFormed, CancelTx, RowsOf;
    Frame(s, step);
  }

  ghost predicate NameIs(s: State, id: OrderId, status: OrderStatus) {
    id in s.orders.orders && s.orders.orders[id].status == status
  }

  lemma {:induction false} CancelKeepsName(s: State, step: Step, id: OrderId)
    requires step.Cancel? && NameIs(s, id, StCancelled)
    requires StCanceled !in s.orders.catalogue || CallOver(s, id)
    ensures NameIs(Next(s, step), id, StCancelled)
  {
  }

  lemma {:induction false} StepKeepsName(s: State, step: Step, id: OrderId)
    requires NameIs(s, id, StCancelled)
    requires StCanceled !in s.orders.catalogue || CallOver(s, id)
    ensures NameIs(Next(s, step), id, StCancelled) && Next(s, step).orders.catalogue == s.orders.catalogue
  {
    hide PlaceNext, OrderRelayNext, FailureHandlerNext;
    Frame(s, step);
    CatalogueStays(s, step);
    if step.Place? {
      PlaceKeepsOrders(s, step, id);
    } else if step.Cancel? {
      CancelKeepsName(s, step, id);
    } else if step.OrderRelay? {
      RelaySameBodies(s, step.relay);
    } else if step.FailureHandler? {
      FailureSameBodies(s, step.failure);
    }
  }

  lemma {:induction false} CatalogueStays(s: State, step: Step)
    ensures Next(s, step).orders.catalogue == s.orders.catalogue
  {
    hide WellFormed, RowsOf, Outboxes.RelayNext, Outboxes.CancelRows;
    Frame(s, step);
  }

  lemma {:induction false} RunKeepsName(s: State, steps: seq<Step>, id: OrderId)
    requires Inv(s) && NameIs(s, id, StCancelled)
    requires StCanceled !in s.orders.catalogue || CallOver(s, id)
    ensures var s' := Run(s, steps);
            && NameIs(s', id, StCancelled) && s'.orders.catalogue == s.orders.catalogue
            && (CallOver(s, id) ==> CallOver(s', id))
  {
    hide Next, NameIs, CallOver;
    if steps != [] {
      var init := steps[..|steps| - 1];
      RunKeepsName(s, init, id);
      RunKeepsInv(s, init);
      StepKeepsName(Run(s, init), steps[|steps| - 1], id);
      if CallOver(s, id) {
        CallOverStays(Run(s, init), steps[|steps| - 1], id);
      }
    }
  }

  ghost function CancelRun(id: OrderId, waiting: bool): seq<Step> {
    if waiting then [GiveUp(id), Cancel(id, true)] else [Cancel(id, true)]
  }

  lemma {:induction false} RunTwo(s: State, a: Step, b: Step)
    ensures Run(s, [a]) == Next(s, a) && Run(s, [a, b]) == Next(Next(s, a), b)
  {
    hide Next;
    assert [a][..0] == [] && Run(s, [a][..0]) == s;
    assert [a, b][..1] == [a];
  }

  lemma {:induction false} OpenCallCanRename(s: State, id: OrderId)
    requires id in s.orders.orders && id in s.drivers && StCanceled in s.orders.catalogue && !CallOver(s, id)
    ensures NameIs(Run(s, CancelRun(id, s.drivers[id].phase == Waiting)), id, StCanceled)
  {
    RunTwo(s, GiveUp(id), Cancel(id, true));
    RunTwo(s, Cancel(id, true), Cancel(id, true));
  }

  lemma {:induction false} NameOfOrder(s: State, id: OrderId, status: OrderStatus)
    requires NameIs(s, id, status)
    ensures id in s.orders.orders
    ensures forall other :: NameIs(s, id, other) ==> other == status
  {
  }

  lemma {:induction false} InvDrivers(s: State)
    requires Inv(s)
    ensures s.drivers.Keys == s.orders.orders.Keys
  {
    hide OutboxesOk, RowsOk, ProvenanceOk, ProgressOk, CommitsOk, CompensationOk, CancellationOk, CartsOk;
    hide PaymentAgrees;
  }

  /** The name CANCELLED itself can still be overwritten, by CancelOrder's other spelling, exactly while
      the order call is open and the catalogue holds that spelling. */
  lemma {:induction false} CancelledNameKept(s: State, id: OrderId)
    requires Reachable(s) && NameIs(s, id, StCancelled)
    ensures (forall steps :: NameIs(Run(s, steps), id, StCancelled))
       <==> StCanceled !in s.orders.catalogue || CallOver(s, id)
  {
    hide Run, Reachable, Inv, NameIs, CallOver;
    ReachableInv(s);
    InvDrivers(s);
    assert id in s.orders.orders by { NameOfOrder(s, id, StCancelled); }
    if StCanceled !in s.orders.catalogue || CallOver(s, id) {
      forall steps ensures NameIs(Run(s, steps), id, StCancelled) {
        RunKeepsName(s, steps, id);
      }
    } else {
      var steps := CancelRun(id, s.drivers[id].phase == Waiting);
      OpenCallCanRename(s, id);
      NameOfOrder(Run(s, steps), id, StCanceled);
      assert !NameIs(Run(s, steps), id, StCancelled);
    }
  }

  // ------------------------------------------------ cancelling an order before it is published

  lemma {:induction false} UnsentRow(s: State, i: nat)
    requires OutboxesOk(s) && RowsOk(s.orders) && i < |s.orders.outbox.rows|
    ensures Unsent(s, s.orders.outbox.rows[i].body.order) <==> !Outboxes.Logged(s.orders.outbox, i)
  {
    var o := s.orders.outbox;
    var id := o.rows[i].body.order;
    if Outboxes.Logged(o, i) {
      var k :| 0 <= k < |o.log| && o.log[k].id == i;
      assert Outboxes.CopyOf(o.log[k], o.rows);
      assert Sent(s, o.log[k].body);
    } else {
      forall m | Sent(s, m) ensures m.order != id {
        var k :| 0 <= k < |o.log| && o.log[k].body == m;
        assert Outboxes.CopyOf(o.log[k], o.rows);
        assert o.log[k].id != i;
        assert o.rows[o.log[k].id].body.order != o.rows[i].body.order;
      }
    }
  }

  lemma {:induction false} OutOfReachInSaga(s: State, steps: seq<Step>, i: nat)
    requires Inv(s) && Outboxes.OutOfReach(s.orders.outbox, i)
    ensures Outboxes.OutOfReach(Run(s, steps).orders.outbox, i)
    ensures Run(s, steps).orders.outbox.rows[i].body == s.orders.outbox.rows[i].body
  {
    hide Next, OrderOutboxSteps, Outboxes.Run, Outboxes.OutOfReach;
    assert i < |s.orders.outbox.rows| by { OutOfReachIsRow(s.orders.outbox, i); }
    if steps != [] {
      var init, last := steps[..|steps| - 1], steps[|steps| - 1];
      OutOfReachInSaga(s, init, i);
      RunKeepsInv(s, init);
      var s1 := Run(s, init);
      OutOfReachIsRow(s1.orders.outbox, i);
      OrderOutboxMoves(s1, last);
      Outboxes.OutOfReachForever(s1.orders.outbox, OrderOutboxSteps(s1, last), i);
      Outboxes.NeverReentered(s1.orders.outbox, OrderOutboxSteps(s1, last), i);
    }
    OutOfReachIsRow(Run(s, steps).orders.outbox, i);
  }

  lemma {:induction false} OutOfReachIsRow<M>(o: Outboxes.Outbox<M>, i: nat)
    requires Outboxes.OutOfReach(o, i)
    ensures i < |o.rows| && !Outboxes.Logged(o, i)
  {
  }

  ghost predicate AllRelays<M>(steps: seq<Outboxes.Step<M>>) {
    forall i :: 0 <= i < |steps| ==> steps[i].Relay?
  }

  ghost function LiftRelay(steps: seq<Outboxes.Step<OrderCreated>>): seq<Step>
    requires AllRelays(steps)
  {
    seq(|steps|, i requires 0 <= i < |steps| => OrderRelay(steps[i].step))
  }

  lemma {:induction false} OneOrderRelay(s: State, r: Outboxes.RelayStep)
    ensures var s' := OrderRelayNext(s, r);
            s' == s.(orders := s.orders.(outbox := s'.orders.outbox), productInbox := s'.productInbox,
                 cartInbox := s'.cartInbox)
  {
    hide Outboxes.RelayNext, Inboxes.Arrive;
  }

  lemma {:induction false} OrderRelaysFrame(s: State, steps: seq<Outboxes.Step<OrderCreated>>)
    requires AllRelays(steps)
    ensures var s' := Run(s, LiftRelay(steps));
            s' == s.(orders := s.orders.(outbox := s'.orders.outbox), productInbox := s'.productInbox,
                 cartInbox := s'.cartInbox)
  {
    hide OrderRelayNext;
    if steps != [] {
      var n := |steps| - 1;
      OrderRelaysFrame(s, steps[..n]);
      assert LiftRelay(steps)[..n] == LiftRelay(steps[..n]);
      OneOrderRelay(Run(s, LiftRelay(steps[..n])), steps[n].step);
    }
  }

  lemma {:induction false} LiftedRun(s: State, steps: seq<Outboxes.Step<OrderCreated>>)
    requires AllRelays(steps)
    ensures Run(s, LiftRelay(steps)).orders.outbox == Outboxes.Run(s.orders.outbox, steps)
  {
    hide Outboxes.RelayNext, OrderRelayNext;
    if steps != [] {
      var n := |steps| - 1;
      LiftedRun(s, steps[..n]);
      assert LiftRelay(steps)[..n] == LiftRelay(steps[..n]);
      RelaySameBodies(Run(s, LiftRelay(steps[..n])), steps[n].step);
    }
  }

  /** A cancelled order is sent in some run exactly if its row is in the relayer's current batch or has been
      published already.  Otherwise no run ever sends a message of it, and so no product or cart step ever
      touches it. */
  lemma {:induction false} CancelBeatsRelayer(s: State, i: nat)
    requires Reachable(s) && i < |s.orders.outbox.rows| && s.orders.outbox.rows[i].status == Outboxes.Cancelled
    ensures (forall steps :: Unsent(Run(s, steps), s.orders.outbox.rows[i].body.order))
       <==> !Outboxes.InBatch(s.orders.outbox, i) && !Outboxes.Logged(s.orders.outbox, i)
  {
    hide Run, Reachable, Unsent, Outboxes.InBatch, Outboxes.Logged;
    ReachableInv(s);
    var o := s.orders.outbox;
    var id := o.rows[i].body.order;
    if !Outboxes.InBatch(o, i) && !Outboxes.Logged(o, i) {
      forall steps ensures Unsent(Run(s, steps), id) {
        OutOfReachInSaga(s, steps, i);
        OutOfReachIsRow(Run(s, steps).orders.outbox, i);
        RunKeepsInv(s, steps);
        UnsentRow(Run(s, steps), i);
      }
    } else {
      FetchedIsSent(s, i);
      var steps :| SentUnpaid(s, steps, id);
      assert !Unsent(Run(s, steps), id);
    }
  }

  /** This run publishes the order and leaves all payments as they are. */
  ghost predicate SentUnpaid(s: State, steps: seq<Step>, id: OrderId) {
    !Unsent(Run(s, steps), id) && Run(s, steps).payments == s.payments && Run(s, steps).charges == s.charges
  }

  lemma {:induction false} FetchedIsSent(s: State, i: nat)
    requires Inv(s) && i < |s.orders.outbox.rows|
    requires Outboxes.InBatch(s.orders.outbox, i) || Outboxes.Logged(s.orders.outbox, i)
    ensures exists steps :: SentUnpaid(s, steps, s.orders.outbox.rows[i].body.order)
  {
    hide Inv, Unsent, Outboxes.Run, Run, Outboxes.Overtake, Outboxes.Logged;
    var o := s.orders.outbox;
    if Outboxes.Logged(o, i) {
      assert OutboxesOk(s) && RowsOk(s.orders) by { InvParts(s); }
      UnsentRow(s, i);
      assert Run(s, []) == s by { RunNone(s); }
      assert SentUnpaid(s, [], o.rows[i].body.order);
    } else {
      var k :| 0 <= k < |o.batch| && o.batch[k].id == i;
      InvParts(s);
      Outboxes.FetchedCanBePublished(o, k);
      var relays: seq<Outboxes.Step<OrderCreated>> := Outboxes.Overtake(o.unmarked.Some?, k);
      OvertakeRelays<OrderCreated>(o.unmarked.Some?, k);
      LiftedRun(s, relays);
      var steps := LiftRelay(relays);
      RunKeepsInv(s, steps);
      InvParts(Run(s, steps));
      Outboxes.NeverReentered(o, relays, i);
      UnsentRow(Run(s, steps), i);
      OrderRelaysFrame(s, relays);
      assert SentUnpaid(s, steps, o.rows[i].body.order);
    }
  }

  lemma {:induction false} RunNone(s: State)
    ensures Run(s, []) == s
  {
  }

  lemma {:induction false} OvertakeRelays<M>(pending: bool, k: nat)
    ensures AllRelays(Outboxes.Overtake<M>(pending, k))
  {
  }

  lemma {:induction false} InvParts(s: State)
    requires Inv(s)
    ensures OutboxesOk(s) && RowsOk(s.orders)
  {
  }

  /** CancelOrder has an effect exactly when its status name is in the catalogue; with the catalogue of
      the migration it never changes the order database. */
  lemma {:induction false} CancelOrderTakesEffect(s: State, id: OrderId)
    requires Reachable(s) && id in s.drivers && s.drivers[id].phase == Cancelling
    ensures id in Next(s, Cancel(id, true)).cancels <==> id in s.cancels || StCanceled in s.orders.catalogue
    ensures s.orders.catalogue == MIGRATION_CATALOGUE ==>
              forall other, ok :: Next(s, Cancel(other, ok)).orders == s.orders
  {
    hide Reachable, Inv, RowsOf, Outboxes.CancelRows;
    ReachableInv(s);
    InvDrivers(s);
  }

  /** A committed CancelOrder cancels the order and its outbox row together. */
  lemma {:induction false} CancelOrderIsAtomic(s: State, id: OrderId, i: nat)
    requires Reachable(s) && id in s.drivers && s.drivers[id].phase == Cancelling && StCanceled in s.orders.catalogue
    requires i < |s.orders.outbox.rows| && s.orders.outbox.rows[i].body.order == id
    ensures var s' := Next(s, Cancel(id, true));
            && NameIs(s', id, StCanceled)
            && s'.orders.outbox.rows[i].status == Outboxes.Cancelled
            && forall j :: 0 <= j < |s.orders.outbox.rows| && j != i ==>
                 s'.orders.outbox.rows[j] == s.orders.outbox.rows[j]
  {
    hide Reachable, Inv, OutboxesOk, RowOk;
    ReachableInv(s);
    InvDrivers(s);
    InvParts(s);
    assert i in RowsOf(s.orders.outbox, id);
    forall j | 0 <= j < |s.orders.outbox.rows| && j != i ensures j !in RowsOf(s.orders.outbox, id) {
    }
  }

  // ------------------------------------------------ cart clearing

  /** However deliveries repeat and overlap, at most one cart-deleting transaction commits per order. */
  lemma {:induction false} CartClearedAtMostOnce(s: State, id: OrderId)
    requires Reachable(s)
    ensures s.clears[id] == if id in s.carts.processed then 1 else 0
  {
    ReachableInv(s);
  }

  // ------------------------------------------------ order and payment

  /** A returned order has exactly the payment it claims: SUCCEEDED, same user, same cents, and those
      cents are the sum over the cart lines whose products and quantities its event announces. */
  lemma {:induction false} ReturnedOrderIsPaid(s: State, id: OrderId)
    requires Reachable(s) && id in s.drivers && s.drivers[id].phase == Returned
    ensures id in s.orders.orders && id in s.payments
    ensures s.payments[id] == Payment(s.orders.orders[id].user, s.orders.orders[id].total, Succeeded)
    ensures s.orders.orders[id].total == TotalOf(s.drivers[id].view.products)
    ensures exists i :: 0 <= i < |s.orders.outbox.rows| && s.orders.outbox.rows[i].body.order == id
              && s.orders.outbox.rows[i].body.items == ItemsOf(s.drivers[id].view.products)
  {
    hide Reachable;
    ReachableInv(s);
    assert PaymentAgrees(s, id);
    assert OrderRow(s.orders.outbox, id);
    var i :| 0 <= i < |s.orders.outbox.rows| && s.orders.outbox.rows[i].body.order == id;
    assert PayloadOk(s, s.orders.outbox.rows[i].body);
  }
}
