/** Publication and payment: an order's event does not wait for its payment. */
module SagaPublication {
  import opened Events
  import opened Carts
  import opened OrderDb
  import opened ProductDb
  import opened Saga
  import opened SagaInvariants
  import opened SagaTheorems
  import opened SagaSettles
  import CartDb
  import Inboxes
  import Outboxes

  ghost predicate Paid(s: State, id: OrderId) {
    id in s.payments && s.payments[id].status == Succeeded
  }

  /** An order is paid exactly when its request has been worked through. */
  lemma {:induction false} PaidIsSettled(s: State, id: OrderId)
    requires Reachable(s) && id in s.orders.orders
    ensures id in s.charges && (Paid(s, id) <==> s.charges[id] == Settled)
  {
    hide Reachable, OutboxesOk, RowsOk, ProvenanceOk, ProgressOk, CommitsOk, CompensationOk, CancellationOk, CartsOk;
    ReachableInv(s);
    assert PaymentAgrees(s, id);
  }

  lemma {:induction false} EventListed<M>(o: Outboxes.Outbox<M>, i: nat)
    requires i < |o.rows| && o.rows[i].status == Outboxes.Unpublished
    ensures exists k :: 0 <= k < |Outboxes.UnpublishedEvents(o.rows)| && Outboxes.UnpublishedEvents(o.rows)[k].id == i
  {
    hide Outboxes.UnpublishedEvents;
    Outboxes.UnpublishedExact(o.rows);
    var e := Outboxes.Event(i, o.rows[i].body);
    assert Outboxes.Unsent(e, o.rows);
    var k :| 0 <= k < |Outboxes.UnpublishedEvents(o.rows)| && Outboxes.UnpublishedEvents(o.rows)[k] == e;
  }

  lemma {:induction false} RestartFetches<M>(o: Outboxes.Outbox<M>, i: nat)
    requires i < |o.rows| && o.rows[i].status == Outboxes.Unpublished
    ensures var o' := Outboxes.RelayNext(Outboxes.RelayNext(o, Outboxes.Crash), Outboxes.Fetch(|o.rows| + 1));
            Outboxes.InBatch(o', i) && o'.rows == o.rows
  {
    hide Outboxes.UnpublishedEvents;
    FewUnpublished(o.rows);
    EventListed(o, i);
  }

  /** The relayer restarts and fetches everything. */
  ghost function Refetch(s: State): seq<Step> {
    [OrderRelay(Outboxes.Crash), OrderRelay(Outboxes.Fetch(|s.orders.outbox.rows| + 1))]
  }

  lemma {:induction false} RefetchState(s: State)
    ensures var o := s.orders.outbox;
            var s' := Run(s, Refetch(s));
            && s'.orders.outbox
               == Outboxes.RelayNext(Outboxes.RelayNext(o, Outboxes.Crash), Outboxes.Fetch(|o.rows| + 1))
            && s'.payments == s.payments && s'.charges == s.charges
  {
    hide Outboxes.RelayNext, OrderRelayNext, Run;
    var first, second := OrderRelay(Outboxes.Crash), OrderRelay(Outboxes.Fetch(|s.orders.outbox.rows| + 1));
    RunTwo(s, first, second);
    RelaySameOutbox(s, Outboxes.Crash);
    RelaySameOutbox(Next(s, first), Outboxes.Fetch(|s.orders.outbox.rows| + 1));
  }

  lemma {:induction false} RelaySameOutbox(s: State, r: Outboxes.RelayStep)
    ensures var s' := OrderRelayNext(s, r);
            && s'.orders.outbox == Outboxes.RelayNext(s.orders.outbox, r)
            && s'.payments == s.payments && s'.charges == s.charges
  {
    hide Outboxes.RelayNext;
  }

  lemma {:induction false} UnpublishedIsSent(s: State, i: nat)
    requires Inv(s) && i < |s.orders.outbox.rows| && s.orders.outbox.rows[i].status == Outboxes.Unpublished
    ensures exists steps :: SentUnpaid(s, steps, s.orders.outbox.rows[i].body.order)
  {
    hide Inv, Run, Outboxes.RelayNext, Outboxes.InBatch, Outboxes.Logged, Unsent, Refetch;
    var id := s.orders.outbox.rows[i].body.order;
    var s1 := Run(s, Refetch(s));
    RefetchState(s);
    RestartFetches(s.orders.outbox, i);
    RunKeepsInv(s, Refetch(s));
    FetchedIsSent(s1, i);
    var steps :| SentUnpaid(s1, steps, id);
    RunConcat(s, Refetch(s), steps);
    assert SentUnpaid(s, Refetch(s) + steps, id);
  }

  /** In some future the broker has the order's event and the order is not paid. */
  ghost predicate CanBeSentUnpaid(s: State, id: OrderId) {
    exists steps :: !Unsent(Run(s, steps), id) && !Paid(Run(s, steps), id)
  }

  /** An order is published before it is paid in some future if and only if its outbox row has not been put
      out of the relayer's reach: cancelled, not in its current batch and never published.  Nothing about its
      payment delays it. */
  lemma {:induction false} UnpaidCanBePublished(s: State, i: nat)
    requires Reachable(s) && i < |s.orders.outbox.rows| && !Paid(s, s.orders.outbox.rows[i].body.order)
    ensures CanBeSentUnpaid(s, s.orders.outbox.rows[i].body.order) <==> !Outboxes.OutOfReach(s.orders.outbox, i)
  {
    hide Reachable, Inv, Run, Unsent, Outboxes.InBatch, Outboxes.Logged;
    ReachableInv(s);
    var id := s.orders.outbox.rows[i].body.order;
    if Outboxes.OutOfReach(s.orders.outbox, i) {
      forall steps ensures Unsent(Run(s, steps), id) {
        OutOfReachInSaga(s, steps, i);
        OutOfReachIsRow(Run(s, steps).orders.outbox, i);
        RunKeepsInv(s, steps);
        InvParts(Run(s, steps));
        UnsentRow(Run(s, steps), i);
      }
    } else {
      if s.orders.outbox.rows[i].status == Outboxes.Unpublished {
        UnpublishedIsSent(s, i);
      } else {
        FetchedIsSent(s, i);
      }
      var steps :| SentUnpaid(s, steps, id);
      assert !Unsent(Run(s, steps), id) && !Paid(Run(s, steps), id);
    }
  }

  /** So every order that is placed can reach product and cart service before its payment is even requested. */
  lemma {:induction false} PlacedCanBePublishedUnpaid(s: State, id: OrderId, user: UserId, email: string,
        view: CartView)
    requires Reachable(s) && PlaceNext(s, id, user, email, view) != s
    ensures CanBeSentUnpaid(Next(s, Place(id, user, email, view)), id)
  {
    hide Reachable, Run, Paid, CanBeSentUnpaid, Outboxes.OutOfReach, PlaceNext;
    var step := Place(id, user, email, view);
    var s', i := Next(s, step), |s.orders.outbox.rows|;
    RunTwo(s, step, step);
    ReachableRun(s, [step]);
    PlacedRow(s, id, user, email, view);
    PaidIsSettled(s', id);
    UnpaidCanBePublished(s', i);
  }

  lemma {:induction false} PlacedRow(s: State, id: OrderId, user: UserId, email: string, view: CartView)
    requires PlaceNext(s, id, user, email, view) != s
    ensures var s' := PlaceNext(s, id, user, email, view);
            var i := |s.orders.outbox.rows|;
            && i < |s'.orders.outbox.rows| && s'.orders.outbox.rows[i].body.order == id
            && !Outboxes.OutOfReach(s'.orders.outbox, i)
            && id in s'.orders.orders && s'.charges[id] == Requested
  {
    hide WellFormed, RowsOf;
  }

  // ------------------------------------------------ with the migration's catalogue

  /** No CancelOrder has ever committed. */
  ghost predicate NoCancelOrder(s: State) {
    s.orders.catalogue == MIGRATION_CATALOGUE && s.cancels == {} && s.orders.outbox.cancels == {}
  }

  lemma {:induction false} StepWithoutCancel(s: State, step: Step)
    requires NoCancelOrder(s)
    ensures NoCancelOrder(Next(s, step))
  {
    hide PlaceNext, OrderRelayNext, FailureHandlerNext, RowsOf, Outboxes.CancelRows;
    Frame(s, step);
    CatalogueStays(s, step);
    if step.Place? {
      PlaceCancelsNothing(s, step.id, step.user, step.email, step.view);
    } else if step.OrderRelay? {
      RelaySameOutbox(s, step.relay);
      RelayCancelsNothing(s.orders.outbox, step.relay);
    } else if step.FailureHandler? {
      assert FailureHandlerNext(s, step.failure).orders.outbox == s.orders.outbox by {
        FailureCancelsNothing(s, step.failure);
      }
    }
  }

  lemma {:induction false} PlaceCancelsNothing(s: State, id: OrderId, user: UserId, email: string, view: CartView)
    ensures PlaceNext(s, id, user, email, view).orders.outbox.cancels == s.orders.outbox.cancels
  {
    hide WellFormed, RowsOf;
  }

  lemma {:induction false} RelayCancelsNothing<M>(o: Outboxes.Outbox<M>, r: Outboxes.RelayStep)
    ensures Outboxes.RelayNext(o, r).cancels == o.cancels
  {
  }

  lemma {:induction false} FailureCancelsNothing(s: State, h: Inboxes.HandlerStep<StockUpdateFailed>)
    ensures FailureHandlerNext(s, h).orders.outbox == s.orders.outbox
  {
    hide Inboxes.Next;
  }

  lemma {:induction false} RunWithoutCancel(s: State, steps: seq<Step>)
    requires NoCancelOrder(s)
    ensures NoCancelOrder(Run(s, steps))
  {
    hide Next, NoCancelOrder;
    if steps != [] {
      RunWithoutCancel(s, steps[..|steps| - 1]);
      StepWithoutCancel(Run(s, steps[..|steps| - 1]), steps[|steps| - 1]);
    }
  }

  lemma {:induction false} NoRowCancelled(s: State, i: nat)
    requires OutboxesOk(s) && s.orders.outbox.cancels == {} && i < |s.orders.outbox.rows|
    ensures s.orders.outbox.rows[i].status != Outboxes.Cancelled && !Outboxes.OutOfReach(s.orders.outbox, i)
  {
    hide Outboxes.FetchedValid, Outboxes.LogValid;
    assert Outboxes.StatusExplained(s.orders.outbox, i);
    if s.orders.outbox.rows[i].status == Outboxes.Published {
      Outboxes.PublishedIsLogged(s.orders.outbox, i);
    }
  }

  /** With the statuses the migration inserts, no run ever commits a CancelOrder: no outbox row is ever
      cancelled, an unpaid order can always still be published, and once everything is quiet the published
      orders that are cancelled are exactly those one of whose stock transactions fell short. */
  lemma {:induction false} AsSeeded(products: map<ProductId, Product>, tables: CartDb.Db, steps: seq<Step>)
    requires CartDb.Valid(tables) && StockNonNegative(products)
    ensures var s := Run(Initial(MIGRATION_CATALOGUE, products, tables), steps);
            && s.cancels == {}
            && (forall i :: 0 <= i < |s.orders.outbox.rows| ==> s.orders.outbox.rows[i].status != Outboxes.Cancelled)
            && (forall i :: 0 <= i < |s.orders.outbox.rows| && !Paid(s, s.orders.outbox.rows[i].body.order) ==>
                  CanBeSentUnpaid(s, s.orders.outbox.rows[i].body.order))
            && (Quiescent(s) ==> forall m :: Sent(s, m) ==>
                  m.order in s.orders.orders
                  && (IsCancelled(s.orders.orders[m.order]) <==> FellShort(s.products.commits, m.order)))
  {
    hide Run, Reachable, Inv, Quiescent, Sent, FellShort, CanBeSentUnpaid, Outboxes.OutOfReach, Paid;
    var s0 := Initial(MIGRATION_CATALOGUE, products, tables);
    var s := Run(s0, steps);
    RunIsReachable(MIGRATION_CATALOGUE, products, tables, steps);
    ReachableInv(s);
    InvParts(s);
    RunWithoutCancel(s0, steps);
    forall i | 0 <= i < |s.orders.outbox.rows|
      ensures s.orders.outbox.rows[i].status != Outboxes.Cancelled
      ensures !Paid(s, s.orders.outbox.rows[i].body.order) ==> CanBeSentUnpaid(s, s.orders.outbox.rows[i].body.order)
    {
      NoRowCancelled(s, i);
      if !Paid(s, s.orders.outbox.rows[i].body.order) {
        UnpaidCanBePublished(s, i);
      }
    }
    if Quiescent(s) {
      forall m | Sent(s, m)
        ensures m.order in s.orders.orders
        ensures IsCancelled(s.orders.orders[m.order]) <==> FellShort(s.products.commits, m.order)
      {
        QuiescentOutcome(s, m);
      }
    }
  }

  lemma {:induction false} RunIsReachable(catalogue: set<OrderStatus>, products: map<ProductId, Product>,
        tables: CartDb.Db, steps: seq<Step>)
    requires CartDb.Valid(tables) && StockNonNegative(products)
    ensures Reachable(Run(Initial(catalogue, products, tables), steps))
  {
    hide Run, Initial;
  }
}
