/** Redelivered order events and the carts: over whole runs they might as well not have come. */
module SagaDuplicates {
  import opened Events
  import opened OrderDb
  import Carts
  import opened ProductDb
  import opened Saga
  import opened SagaInvariants
  import CartConsumer
  import CartDb
  import Inboxes
  import Outboxes

  predicate HandlesInCart(step: Step, id: OrderId) {
    step.CartHandler? && step.order.m.order == id
  }

  /** The run without the cart handlers of one order. */
  ghost function WithoutHandlersOf(steps: seq<Step>, id: OrderId): seq<Step> {
    if steps == [] then [] else
      var n := |steps| - 1;
      WithoutHandlersOf(steps[..n], id) + if HandlesInCart(steps[n], id) then [] else [steps[n]]
  }

  predicate SameCopies(i: Inboxes.Inbox<OrderCreated>, j: Inboxes.Inbox<OrderCreated>, m: OrderCreated) {
    && i.queue[m] == j.queue[m] && i.checking[m] == j.checking[m]
    && i.passed[m] == j.passed[m] && i.settled[m] == j.settled[m]
  }

  ghost predicate SameOthers(i: Inboxes.Inbox<OrderCreated>, j: Inboxes.Inbox<OrderCreated>, id: OrderId) {
    forall m: OrderCreated :: m.order != id ==> SameCopies(i, j, m)
  }

  /** Equal but for the cart inbox, and there but for messages of the order. */
  ghost predicate Alike(s: State, t: State, id: OrderId) {
    t == s.(cartInbox := t.cartInbox) && SameOthers(s.cartInbox, t.cartInbox, id)
  }

  // ------------------------------------------------ most steps do not look at the cart inbox

  lemma {:induction false} PaymentsIgnore(s: State, i: Inboxes.Inbox<OrderCreated>, step: Step)
    requires step.PaymentInsert? || step.PaymentSettle? || step.Reply? || step.GiveUp?
    ensures Next(s.(cartInbox := i), step) == Next(s, step).(cartInbox := i)
  {
    hide InsertPayment, SettlePayment;
  }

  lemma {:induction false} OrdersIgnore(s: State, i: Inboxes.Inbox<OrderCreated>, step: Step)
    requires step.Place? || step.Cancel?
    ensures Next(s.(cartInbox := i), step) == Next(s, step).(cartInbox := i)
  {
    hide CreateTx, CancelTx, Carts.WellFormed;
  }

  lemma {:induction false} ProductHandlerIgnores(s: State, i: Inboxes.Inbox<OrderCreated>,
        h: Inboxes.HandlerStep<OrderCreated>)
    ensures ProductHandlerNext(s.(cartInbox := i), h) == ProductHandlerNext(s, h).(cartInbox := i)
  {
    hide Inboxes.Next, Inboxes.Transacts, StockTx;
  }

  lemma {:induction false} FailureHandlerIgnores(s: State, i: Inboxes.Inbox<OrderCreated>,
        h: Inboxes.HandlerStep<StockUpdateFailed>)
    ensures FailureHandlerNext(s.(cartInbox := i), h) == FailureHandlerNext(s, h).(cartInbox := i)
  {
    hide Inboxes.Next, Inboxes.Transacts, CancelByStock;
  }

  lemma {:induction false} WritesIgnore(s: State, i: Inboxes.Inbox<OrderCreated>, step: Step)
    requires step.ProductRelay? || step.CartWrite? || step.CatalogueWrite?
    ensures Next(s.(cartInbox := i), step) == Next(s, step).(cartInbox := i)
  {
    hide Outboxes.RelayNext, CartDb.Perform, CatalogueTx;
  }

  lemma {:induction false} RelayArrives(s: State, i: Inboxes.Inbox<OrderCreated>, r: Outboxes.RelayStep)
    ensures var s', t' := OrderRelayNext(s, r), OrderRelayNext(s.(cartInbox := i), r);
            && t' == s'.(cartInbox := t'.cartInbox)
            && ((s'.cartInbox == s.cartInbox && t'.cartInbox == i)
                || exists m :: s'.cartInbox == Inboxes.Arrive(s.cartInbox, m) && t'.cartInbox == Inboxes.Arrive(i, m))
  {
    hide Outboxes.RelayNext, Inboxes.Arrive;
    var o, o' := s.orders.outbox, Outboxes.RelayNext(s.orders.outbox, r);
    Outboxes.RelayLog(o, r);
    if |o'.log| != |o.log| {
      var m := o'.log[|o'.log| - 1].body;
      assert OrderRelayNext(s, r).cartInbox == Inboxes.Arrive(s.cartInbox, m);
    }
  }

  lemma {:induction false} SameAfterArrival(i: Inboxes.Inbox<OrderCreated>, j: Inboxes.Inbox<OrderCreated>,
        n: OrderCreated, id: OrderId)
    requires SameOthers(i, j, id)
    ensures SameOthers(Inboxes.Arrive(i, n), Inboxes.Arrive(j, n), id)
  {
    forall m: OrderCreated | m.order != id ensures SameCopies(Inboxes.Arrive(i, n), Inboxes.Arrive(j, n), m) {
      assert SameCopies(i, j, m);
    }
  }

  // ------------------------------------------------ cart handlers

  /** A handler's step moves copies of its own message only, and depends on no others. */
  lemma {:induction false} InboxStepIsLocal(i: Inboxes.Inbox<OrderCreated>, h: Inboxes.HandlerStep<OrderCreated>,
        done: bool,
        commits: bool, m: OrderCreated)
    requires m != h.m
    ensures SameCopies(i, Inboxes.Next(i, h, done, commits), m)
  {
  }

  lemma {:induction false} SameBeforeCheck(i: Inboxes.Inbox<OrderCreated>, j: Inboxes.Inbox<OrderCreated>,
        h: Inboxes.HandlerStep<OrderCreated>, done: bool, commits: bool)
    requires SameCopies(i, j, h.m) && (h.Deliver? || h.CheckFails? || h.Check?)
    ensures SameCopies(Inboxes.Next(i, h, done, commits), Inboxes.Next(j, h, done, commits), h.m)
  {
  }

  lemma {:induction false} SameDuplicate(i: Inboxes.Inbox<OrderCreated>, j: Inboxes.Inbox<OrderCreated>,
        h: Inboxes.HandlerStep<OrderCreated>, done: bool, commits: bool)
    requires SameCopies(i, j, h.m) && h.Duplicate?
    ensures SameCopies(Inboxes.Next(i, h, done, commits), Inboxes.Next(j, h, done, commits), h.m)
  {
    var m := h.m;
    assert m in i.checking + i.passed + i.settled <==> i.checking[m] + i.passed[m] + i.settled[m] > 0;
    assert m in j.checking + j.passed + j.settled <==> j.checking[m] + j.passed[m] + j.settled[m] > 0;
  }

  lemma {:induction false} SameTransaction(i: Inboxes.Inbox<OrderCreated>, j: Inboxes.Inbox<OrderCreated>,
        h: Inboxes.HandlerStep<OrderCreated>, done: bool, commits: bool)
    requires SameCopies(i, j, h.m) && (h.TxFails? || h.Commit?)
    ensures SameCopies(Inboxes.Next(i, h, done, commits), Inboxes.Next(j, h, done, commits), h.m)
  {
  }

  lemma {:induction false} SameAnswer(i: Inboxes.Inbox<OrderCreated>, j: Inboxes.Inbox<OrderCreated>,
        h: Inboxes.HandlerStep<OrderCreated>, done: bool, commits: bool)
    requires SameCopies(i, j, h.m) && (h.Acknowledge? || h.AckLost?)
    ensures SameCopies(Inboxes.Next(i, h, done, commits), Inboxes.Next(j, h, done, commits), h.m)
  {
  }

  lemma {:induction false} SameMessageSameStep(i: Inboxes.Inbox<OrderCreated>, j: Inboxes.Inbox<OrderCreated>,
        h: Inboxes.HandlerStep<OrderCreated>, done: bool, commits: bool)
    requires SameCopies(i, j, h.m)
    ensures SameCopies(Inboxes.Next(i, h, done, commits), Inboxes.Next(j, h, done, commits), h.m)
    ensures Inboxes.Transacts(i, h) <==> Inboxes.Transacts(j, h)
  {
    hide Inboxes.Next;
    match h
    case Duplicate(_) => SameDuplicate(i, j, h, done, commits);
    case TxFails(_) => SameTransaction(i, j, h, done, commits);
    case Commit(_) => SameTransaction(i, j, h, done, commits);
    case Acknowledge(_) => SameAnswer(i, j, h, done, commits);
    case AckLost(_) => SameAnswer(i, j, h, done, commits);
    case _ => SameBeforeCheck(i, j, h, done, commits);
  }

  /** A handler of a processed order leaves everything but its own message alone. */
  lemma {:induction false} DuplicateStep(s: State, step: Step, id: OrderId)
    requires id in s.carts.processed && HandlesInCart(step, id)
    ensures Alike(s, Next(s, step), id)
  {
    hide Inboxes.Next, SameCopies;
    forall m: OrderCreated | m.order != id ensures SameCopies(s.cartInbox, Next(s, step).cartInbox, m) {
      InboxStepIsLocal(s.cartInbox, step.order, true, false, m);
    }
  }

  lemma {:induction false} OtherCartStep(s: State, t: State, h: Inboxes.HandlerStep<OrderCreated>, id: OrderId)
    requires Alike(s, t, id) && h.m.order != id
    ensures Alike(CartHandlerNext(s, h), CartHandlerNext(t, h), id)
  {
    hide Inboxes.Next, Inboxes.Transacts, SameCopies, CartDb.DeleteCartByUser;
    var done, commits := h.m.order in s.carts.processed, CartConsumer.ClearTx(s.carts, h.m).Some?;
    var i', j' := Inboxes.Next(s.cartInbox, h, done, commits), Inboxes.Next(t.cartInbox, h, done, commits);
    SameMessageSameStep(s.cartInbox, t.cartInbox, h, done, commits);
    forall m: OrderCreated | m.order != id ensures SameCopies(i', j', m) {
      if m != h.m {
        CopiesThrough(s.cartInbox, i', t.cartInbox, j', h, done, commits, m);
      }
    }
  }

  lemma {:induction false} CopiesThrough(i: Inboxes.Inbox<OrderCreated>, i': Inboxes.Inbox<OrderCreated>,
        j: Inboxes.Inbox<OrderCreated>, j': Inboxes.Inbox<OrderCreated>,
        h: Inboxes.HandlerStep<OrderCreated>, done: bool, commits: bool, m: OrderCreated)
    requires m != h.m && SameCopies(i, j, m)
    requires i' == Inboxes.Next(i, h, done, commits) && j' == Inboxes.Next(j, h, done, commits)
    ensures SameCopies(i', j', m)
  {
    hide Inboxes.Next;
    InboxStepIsLocal(i, h, done, commits, m);
    InboxStepIsLocal(j, h, done, commits, m);
  }

  lemma {:induction false} OtherStep(s: State, t: State, step: Step, id: OrderId)
    requires Alike(s, t, id) && !HandlesInCart(step, id)
    ensures Alike(Next(s, step), Next(t, step), id)
  {
    hide CartHandlerNext, OrderRelayNext, SameOthers, PlaceNext, CancelNext, ProductHandlerNext, FailureHandlerNext;
    if step.CartHandler? {
      OtherCartStep(s, t, step.order, id);
    } else if step.OrderRelay? {
      OtherRelayStep(s, t, step.relay, id);
    } else {
      Frame(s, step);
      OutsideIgnores(s, t.cartInbox, step);
    }
  }

  lemma {:induction false} OutsideIgnores(s: State, i: Inboxes.Inbox<OrderCreated>, step: Step)
    requires !step.CartHandler? && !step.OrderRelay?
    ensures Next(s.(cartInbox := i), step) == Next(s, step).(cartInbox := i)
  {
    hide ProductHandlerNext, FailureHandlerNext, PlaceNext, PaymentInsertNext, PaymentSettleNext, DriverNext;
    hide CancelNext;
    hide ProductRelayNext, CartDb.Perform, CatalogueTx;
    if step.ProductHandler? {
      ProductHandlerIgnores(s, i, step.order);
    } else if step.FailureHandler? {
      FailureHandlerIgnores(s, i, step.failure);
    } else {
      hide Next;
      if step.ProductRelay? || step.CartWrite? || step.CatalogueWrite? {
        WritesIgnore(s, i, step);
      } else if step.Place? || step.Cancel? {
        OrdersIgnore(s, i, step);
      } else {
        PaymentsIgnore(s, i, step);
      }
    }
  }

  lemma {:induction false} OtherRelayStep(s: State, t: State, r: Outboxes.RelayStep, id: OrderId)
    requires Alike(s, t, id)
    ensures Alike(OrderRelayNext(s, r), OrderRelayNext(t, r), id)
  {
    hide OrderRelayNext, SameOthers, Inboxes.Arrive;
    RelayArrives(s, t.cartInbox, r);
    var s', t' := OrderRelayNext(s, r), OrderRelayNext(t, r);
    if m :| s'.cartInbox == Inboxes.Arrive(s.cartInbox, m) && t'.cartInbox == Inboxes.Arrive(t.cartInbox, m) {
      SameAfterArrival(s.cartInbox, t.cartInbox, m, id);
    }
  }

  lemma {:induction false} StaysProcessed(s: State, step: Step, id: OrderId)
    requires id in s.carts.processed
    ensures id in Next(s, step).carts.processed
  {
    hide Inboxes.Next, CartDb.Perform, CartDb.DeleteCartByUser;
    Frame(s, step);
  }

  lemma {:induction false} AlikeTrans(s: State, t: State, u: State, id: OrderId)
    requires Alike(s, t, id) && Alike(s, u, id)
    ensures Alike(t, u, id)
  {
    forall m: OrderCreated | m.order != id ensures SameCopies(t.cartInbox, u.cartInbox, m) {
      assert SameCopies(s.cartInbox, t.cartInbox, m) && SameCopies(s.cartInbox, u.cartInbox, m);
    }
  }

  lemma {:induction false} RunsAlike(s: State, steps: seq<Step>, id: OrderId)
    requires id in s.carts.processed
    ensures id in Run(s, steps).carts.processed && Alike(Run(s, steps), Run(s, WithoutHandlersOf(steps, id)), id)
  {
    hide Next, Alike;
    if steps == [] {
      AlikeSelf(s, id);
    } else {
      var n := |steps| - 1;
      var rest := WithoutHandlersOf(steps[..n], id);
      var s1, t1 := Run(s, steps[..n]), Run(s, rest);
      RunsAlike(s, steps[..n], id);
      StaysProcessed(s1, steps[n], id);
      if HandlesInCart(steps[n], id) {
        DuplicateStep(s1, steps[n], id);
        AlikeTrans(s1, Next(s1, steps[n]), t1, id);
        assert WithoutHandlersOf(steps, id) == rest;
      } else {
        OtherStep(s1, t1, steps[n], id);
        assert (rest + [steps[n]])[..|rest|] == rest;
      }
    }
  }

  lemma {:induction false} AlikeSelf(s: State, id: OrderId)
    ensures Alike(s, s, id)
  {
  }

  /** Once an order is processed, later deliveries of it make no difference to any run whatsoever, with cart
      operations and other orders in between: without their handlers the same run leads to the same state,
      carts included, but for copies of that message in the cart inbox.  So a cart made since survives. */
  lemma {:induction false} NewCartSurvivesDuplicates(s: State, steps: seq<Step>, id: OrderId)
    requires id in s.carts.processed
    ensures var s', t' := Run(s, steps), Run(s, WithoutHandlersOf(steps, id));
            && t' == s'.(cartInbox := t'.cartInbox)
            && forall m: OrderCreated :: m.order != id ==>
                 && s'.cartInbox.queue[m] == t'.cartInbox.queue[m]
                      && s'.cartInbox.checking[m] == t'.cartInbox.checking[m]
                 && s'.cartInbox.passed[m] == t'.cartInbox.passed[m]
                      && s'.cartInbox.settled[m] == t'.cartInbox.settled[m]
  {
    hide Run, WithoutHandlersOf;
    RunsAlike(s, steps, id);
    var s', t' := Run(s, steps), Run(s, WithoutHandlersOf(steps, id));
    assert forall m: OrderCreated :: m.order != id ==> SameCopies(s'.cartInbox, t'.cartInbox, m);
  }
}
