/** An undisturbed call or handler is one particular run of the saga: the value-level specifications that
    the services' methods are proved against are special cases of the machine's steps. */
module SagaCalls {
  import opened Events
  import opened Carts
  import opened OrderDb
  import opened ProductDb
  import opened Saga
  import opened SagaTheorems
  import CartConsumer
  import CartDb
  import Inboxes
  import Orders
  import Outboxes
  import Stock

  lemma {:induction false} RunPairThen(s: State, a: Step, b: Step, rest: seq<Step>)
    ensures Run(s, [a, b] + rest) == Run(Next(Next(s, a), b), rest)
  {
    hide Next, Run;
    RunTwo(s, a, b);
    RunConcat(s, [a, b], rest);
  }

  function Without<M>(i: Inboxes.Inbox<M>, m: M): Inboxes.Inbox<M> {
    i.(queue := i.queue - multiset{m})
  }

  // ------------------------------------------------ consumers

  /** One delivery from its arrival to the answer, without interruption. */
  ghost function Handling<M>(m: M, checkFails: bool, done: bool, txFails: bool): seq<Inboxes.HandlerStep<M>> {
    [Inboxes.Deliver(m), if checkFails then Inboxes.CheckFails(m) else Inboxes.Check(m)]
    + if checkFails || done then []
      else if txFails then [Inboxes.TxFails(m)]
      else [Inboxes.Commit(m), Inboxes.Acknowledge(m)]
  }

  ghost function Received<M>(i: Inboxes.Inbox<M>, m: M, checkFails: bool, done: bool): Inboxes.Inbox<M> {
    if checkFails then i
    else if done then Without(i, m)
    else Without(i, m).(passed := i.passed + multiset{m})
  }

  lemma {:induction false} Undone<M>(queue: multiset<M>, others: multiset<M>, m: M)
    requires m in queue
    ensures queue - multiset{m} + multiset{m} == queue && others + multiset{m} - multiset{m} == others
  {
  }

  /** The first two steps of one delivery. */
  lemma {:induction false} InboxReceives<M>(i: Inboxes.Inbox<M>, m: M, checkFails: bool, done: bool, commits: bool)
    requires m in i.queue
    ensures var i1 := Inboxes.Next(i, Inboxes.Deliver(m), done, commits);
            var i2 := Inboxes.Next(i1, if checkFails then Inboxes.CheckFails(m) else Inboxes.Check(m), done, commits);
            i2 == Received(i, m, checkFails, done)
  {
    Undone(i.queue, i.checking, m);
  }

  /** The rest, when the check let it pass. */
  lemma {:induction false} InboxFinishes<M>(i: Inboxes.Inbox<M>, m: M, done: bool, again: bool, commits: bool)
    requires m in i.queue
    ensures var i2 := Received(i, m, false, false);
            && Inboxes.Next(i2, Inboxes.TxFails(m), done, true) == i
            && Inboxes.Transacts(i2, Inboxes.Commit(m))
            && Inboxes.Next(Inboxes.Next(i2, Inboxes.Commit(m), done, true), Inboxes.Acknowledge(m), again, commits)
                 == Without(i, m)
  {
    Undone(i.queue, i.passed, m);
    Undone(i.queue, i.settled, m);
  }

  ghost function ProductSteps(steps: seq<Inboxes.HandlerStep<OrderCreated>>): seq<Step> {
    seq(|steps|, i requires 0 <= i < |steps| => ProductHandler(steps[i]))
  }

  ghost function CartSteps(steps: seq<Inboxes.HandlerStep<OrderCreated>>): seq<Step> {
    seq(|steps|, i requires 0 <= i < |steps| => CartHandler(steps[i]))
  }

  ghost function FailureSteps(steps: seq<Inboxes.HandlerStep<StockUpdateFailed>>): seq<Step> {
    seq(|steps|, i requires 0 <= i < |steps| => FailureHandler(steps[i]))
  }

  lemma {:induction false} ProductReceives(s: State, m: OrderCreated, checkFails: bool)
    requires m in s.productInbox.queue
    ensures var h := if checkFails then Inboxes.CheckFails(m) else Inboxes.Check(m);
            var done := m.order in s.products.processed;
            Next(Next(s, ProductHandler(Inboxes.Deliver(m))), ProductHandler(h)) ==
            s.(productInbox := Received(s.productInbox, m, checkFails, done))
  {
    hide Inboxes.Next, StockTx, Received;
    InboxReceives(s.productInbox, m, checkFails, m.order in s.products.processed, true);
  }

  lemma {:induction false} ProductFinishes(s: State, m: OrderCreated)
    requires m in s.productInbox.queue && m.order !in s.products.processed
    ensures var s2 := s.(productInbox := Received(s.productInbox, m, false, false));
            && Next(s2, ProductHandler(Inboxes.TxFails(m))) == s
            && Next(Next(s2, ProductHandler(Inboxes.Commit(m))), ProductHandler(Inboxes.Acknowledge(m))) ==
               s.(products := StockTx(s.products, m), productInbox := Without(s.productInbox, m))
  {
    hide Inboxes.Next, Received, Affected, Decremented, Outboxes.InsertRow;
    InboxFinishes(s.productInbox, m, false, true, true);
  }

  /** The product handler's run: the database of `Stock.Handled`; the message is gone unless requeued. */
  lemma {:induction false} StockHandlerIsARun(s: State, d: Stock.Delivery)
    requires d.event in s.productInbox.queue
    ensures var db := s.products;
            var steps := ProductSteps(Handling(d.event, d.checkFails, d.event.order in db.processed,
                 Stock.Failing(db, d)));
            Run(s, steps) ==
            s.(products := Stock.Handled(db, d),
               productInbox := if Stock.Answer(db, d).Requeue? then s.productInbox
                    else Without(s.productInbox, d.event))
  {
    hide StockTx, Affected, Run, Next;
    var m, db := d.event, s.products;
    var first := ProductHandler(Inboxes.Deliver(m));
    var second := ProductHandler(if d.checkFails then Inboxes.CheckFails(m) else Inboxes.Check(m));
    var s2 := Next(Next(s, first), second);
    var all := Handling(m, d.checkFails, m.order in db.processed, Stock.Failing(db, d));
    var rest := ProductSteps(all[2..]);
    RunPairThen(s, first, second, rest);
    assert ProductSteps(all) == [first, second] + rest;
    ProductReceives(s, m, d.checkFails);
    if d.checkFails || m.order in db.processed {
      assert rest == [];
      RunNone(s2);
    } else {
      ProductFinishes(s, m);
      assert rest == if Stock.Failing(db, d) then [ProductHandler(Inboxes.TxFails(m))]
                     else [ProductHandler(Inboxes.Commit(m)), ProductHandler(Inboxes.Acknowledge(m))];
      RunTwo(s2, ProductHandler(Inboxes.TxFails(m)), first);
      RunTwo(s2, ProductHandler(Inboxes.Commit(m)), ProductHandler(Inboxes.Acknowledge(m)));
    }
  }

  lemma {:induction false} CartReceives(s: State, m: OrderCreated, checkFails: bool)
    requires m in s.cartInbox.queue
    ensures var h := if checkFails then Inboxes.CheckFails(m) else Inboxes.Check(m);
            var done := m.order in s.carts.processed;
            Next(Next(s, CartHandler(Inboxes.Deliver(m))), CartHandler(h)) ==
            s.(cartInbox := Received(s.cartInbox, m, checkFails, done))
  {
    hide Inboxes.Next, CartDb.DeleteCartByUser, Received;
    InboxReceives(s.cartInbox, m, checkFails, m.order in s.carts.processed, CartConsumer.ClearTx(s.carts, m).Some?);
  }

  lemma {:induction false} CartFinishes(s: State, m: OrderCreated)
    requires m in s.cartInbox.queue && m.order !in s.carts.processed
    ensures var s2 := s.(cartInbox := Received(s.cartInbox, m, false, false));
            && Next(s2, CartHandler(Inboxes.TxFails(m))) == s
            && Next(Next(s2, CartHandler(Inboxes.Commit(m))), CartHandler(Inboxes.Acknowledge(m))) ==
               s.(carts := CartConsumer.ClearTx(s.carts, m).value, cartInbox := Without(s.cartInbox, m),
                  clears := s.clears + multiset{m.order})
  {
    hide Inboxes.Next, Received, CartDb.DeleteCartByUser;
    InboxFinishes(s.cartInbox, m, false, true, false);
  }

  /** The cart handler's run. */
  lemma {:induction false} CartHandlerIsARun(s: State, m: OrderCreated, checkFails: bool, fault: CartConsumer.TxFault)
    requires m in s.cartInbox.queue
    ensures var (db', answer) := CartConsumer.Handled(s.carts, m, checkFails, fault);
            var steps := CartSteps(Handling(m, checkFails, m.order in s.carts.processed,
                 fault != CartConsumer.NoFault));
            Run(s, steps) ==
            s.(carts := db', cartInbox := if answer.Requeue? then s.cartInbox else Without(s.cartInbox, m),
               clears := if m.order in db'.processed - s.carts.processed then s.clears + multiset{m.order}
                    else s.clears)
  {
    hide CartDb.DeleteCartByUser, Run, Next;
    var first := CartHandler(Inboxes.Deliver(m));
    var second := CartHandler(if checkFails then Inboxes.CheckFails(m) else Inboxes.Check(m));
    var s2 := Next(Next(s, first), second);
    var all := Handling(m, checkFails, m.order in s.carts.processed, fault != CartConsumer.NoFault);
    var rest := CartSteps(all[2..]);
    RunPairThen(s, first, second, rest);
    assert CartSteps(all) == [first, second] + rest;
    CartReceives(s, m, checkFails);
    if checkFails || m.order in s.carts.processed {
      assert rest == [];
      RunNone(s2);
    } else {
      CartFinishes(s, m);
      assert rest == if fault != CartConsumer.NoFault then [CartHandler(Inboxes.TxFails(m))]
                     else [CartHandler(Inboxes.Commit(m)), CartHandler(Inboxes.Acknowledge(m))];
      RunTwo(s2, CartHandler(Inboxes.TxFails(m)), first);
      RunTwo(s2, CartHandler(Inboxes.Commit(m)), CartHandler(Inboxes.Acknowledge(m)));
    }
  }

  predicate NothingToCancel(db: OrderDb.Db, id: OrderId) {
    id !in db.orders || db.orders[id].status == StCancelled
  }

  lemma {:induction false} FailureReceives(s: State, f: StockUpdateFailed, selectFails: bool)
    requires f in s.failureInbox.queue && StCancelled in s.orders.catalogue
    ensures var h := if selectFails then Inboxes.CheckFails(f) else Inboxes.Check(f);
            Next(Next(s, FailureHandler(Inboxes.Deliver(f))), FailureHandler(h)) ==
            s.(failureInbox := Received(s.failureInbox, f, selectFails, NothingToCancel(s.orders, f.order)))
  {
    hide Inboxes.Next, Received;
    InboxReceives(s.failureInbox, f, selectFails, NothingToCancel(s.orders, f.order), f.order in s.orders.orders);
  }

  lemma {:induction false} FailureFinishes(s: State, f: StockUpdateFailed)
    requires f in s.failureInbox.queue && StCancelled in s.orders.catalogue && !NothingToCancel(s.orders, f.order)
    ensures var s2 := s.(failureInbox := Received(s.failureInbox, f, false, false));
            && Next(s2, FailureHandler(Inboxes.TxFails(f))) == s
            && Next(Next(s2, FailureHandler(Inboxes.Commit(f))), FailureHandler(Inboxes.Acknowledge(f))) ==
               s.(orders := CancelByStock(s.orders, f.order), failureInbox := Without(s.failureInbox, f),
                  stockCancels := s.stockCancels + {f.order})
  {
    hide Inboxes.Next, Received;
    InboxFinishes(s.failureInbox, f, false, true, true);
  }

  /** The stock-failure handler's run. */
  lemma {:induction false} FailureHandlerIsARun(s: State, f: StockUpdateFailed, selectFails: bool, updateFails: bool)
    requires f in s.failureInbox.queue && StCancelled in s.orders.catalogue
    ensures var (db', answer) := Orders.FailureHandled(s.orders, f, selectFails, updateFails);
            var steps := FailureSteps(Handling(f, selectFails, NothingToCancel(s.orders, f.order), updateFails));
            Run(s, steps) ==
            s.(orders := db', failureInbox := if answer.Requeue? then s.failureInbox else Without(s.failureInbox, f),
               stockCancels := if db' == s.orders then s.stockCancels else s.stockCancels + {f.order})
  {
    hide Run, Next;
    var first := FailureHandler(Inboxes.Deliver(f));
    var second := FailureHandler(if selectFails then Inboxes.CheckFails(f) else Inboxes.Check(f));
    var s2 := Next(Next(s, first), second);
    var all := Handling(f, selectFails, NothingToCancel(s.orders, f.order), updateFails);
    var rest := FailureSteps(all[2..]);
    RunPairThen(s, first, second, rest);
    assert FailureSteps(all) == [first, second] + rest;
    FailureReceives(s, f, selectFails);
    if selectFails || NothingToCancel(s.orders, f.order) {
      assert rest == [];
      RunNone(s2);
    } else {
      FailureFinishes(s, f);
      assert CancelByStock(s.orders, f.order).orders[f.order].status == StCancelled;
      assert rest == if updateFails then [FailureHandler(Inboxes.TxFails(f))]
                     else [FailureHandler(Inboxes.Commit(f)), FailureHandler(Inboxes.Acknowledge(f))];
      RunTwo(s2, FailureHandler(Inboxes.TxFails(f)), first);
      RunTwo(s2, FailureHandler(Inboxes.Commit(f)), FailureHandler(Inboxes.Acknowledge(f)));
    }
  }

  // ------------------------------------------------ CreateOrder

  ghost function Compensating(call: Call): seq<Step> {
    [GiveUp(call.newId), Cancel(call.newId, call.cancelFault == NoFault)]
  }

  ghost function AfterInsertSteps(call: Call, inserted: bool): seq<Step> {
    if !inserted then Compensating(call)
    else
      [PaymentSettle(call.newId, call.paymentFault == PaymentOk)]
      + if call.paymentFault != PaymentOk || call.replyLost then Compensating(call) else [Reply(call.newId)]
  }

  ghost function CallSteps(s: State, call: Call): seq<Step> {
    if Refused(call) || OrderDb.Created(s.orders, call).None? then []
    else
      var charged := InsertPayment(s.payments, call.newId, call.user.value, call.cart.value.totalPrice);
      [Place(call.newId, call.user.value, call.email.value, call.cart.value),
       PaymentInsert(call.newId, call.paymentFault != InsertFails)]
      + AfterInsertSteps(call, call.paymentFault != InsertFails && charged.Some?)
  }

  ghost predicate Open(s: State, id: OrderId) {
    id in s.drivers && s.drivers[id].phase == Waiting && id in s.charges
  }

  /** The call is over; the rest of the system is as given. */
  ghost predicate Ended(s: State, id: OrderId, phase: Phase, orders: OrderDb.Db, payments: Payments) {
    id in s.drivers && s.drivers[id].phase == phase && s.orders == orders && s.payments == payments
  }

  lemma {:induction false} CompensatingEnds(s: State, call: Call)
    requires Open(s, call.newId)
    ensures Ended(Run(s, Compensating(call)), call.newId, Failed, Compensated(s.orders, call), s.payments)
  {
    hide Run, CancelTx;
    RunTwo(s, GiveUp(call.newId), Cancel(call.newId, call.cancelFault == NoFault));
  }

  lemma {:induction false} SettleThen(s: State, id: OrderId, ok: bool, rest: seq<Step>)
    requires Open(s, id) && s.charges[id] == Inserted
    ensures var s' := PaymentSettleNext(s, id, ok);
            && Open(s', id) && s'.orders == s.orders && Run(s, [PaymentSettle(id, ok)] + rest) == Run(s', rest)
            && s'.payments == (if ok then SettlePayment(s.payments, id) else s.payments)
            && (ok ==> s'.charges[id] == Settled)
  {
    hide Run, SettlePayment;
    RunTwo(s, PaymentSettle(id, ok), PaymentSettle(id, ok));
    RunConcat(s, [PaymentSettle(id, ok)], rest);
  }

  lemma {:induction false} ReplyEnds(s: State, id: OrderId)
    requires Open(s, id) && s.charges[id] == Settled
    ensures Ended(Run(s, [Reply(id)]), id, Returned, s.orders, s.payments)
  {
    hide Run;
    RunTwo(s, Reply(id), Reply(id));
  }

  lemma {:induction false} AfterInsert(s: State, call: Call, inserted: bool)
    requires !Refused(call) && Open(s, call.newId) && inserted == (s.charges[call.newId] == Inserted)
    requires inserted ==> call.paymentFault != InsertFails
    ensures var (id, total) := (call.newId, call.cart.value.totalPrice);
            var settled := inserted && call.paymentFault == PaymentOk;
            var returned := settled && !call.replyLost;
            Ended(Run(s, AfterInsertSteps(call, inserted)), id, if returned then Returned else Failed,
                  if returned then s.orders else Compensated(s.orders, call),
                  if settled then SettlePayment(s.payments, id) else s.payments)
  {
    hide Run, Ended, Compensated, SettlePayment;
    if !inserted {
      CompensatingEnds(s, call);
    } else if call.paymentFault != PaymentOk {
      SettleThen(s, call.newId, false, Compensating(call));
      CompensatingEnds(PaymentSettleNext(s, call.newId, false), call);
    } else if call.replyLost {
      SettleThen(s, call.newId, true, Compensating(call));
      CompensatingEnds(PaymentSettleNext(s, call.newId, true), call);
    } else {
      SettleThen(s, call.newId, true, [Reply(call.newId)]);
      ReplyEnds(PaymentSettleNext(s, call.newId, true), call.newId);
    }
  }

  lemma {:induction false} PlaceAndInsert(s: State, call: Call)
    requires !Refused(call) && WellFormed(call.cart.value) && OrderDb.Created(s.orders, call).Some?
    ensures var place := Place(call.newId, call.user.value, call.email.value, call.cart.value);
            var s2 := Next(Next(s, place), PaymentInsert(call.newId, call.paymentFault != InsertFails));
            var charged := InsertPayment(s.payments, call.newId, call.user.value, call.cart.value.totalPrice);
            var inserted := call.paymentFault != InsertFails && charged.Some?;
            && Open(s2, call.newId) && s2.orders == OrderDb.Created(s.orders, call).value
            && (s2.charges[call.newId] == Inserted <==> inserted)
            && s2.payments == if inserted then charged.value else s.payments
  {
    hide WellFormed, RowsOf;
  }

  /** An undisturbed CreateOrder call: both databases of `PlaceOrder`, and the call ends in an order
      exactly when `PlaceOrder` returns one. */
  lemma {:induction false} CallIsARun(s: State, call: Call)
    requires call.cart.Some? ==> WellFormed(call.cart.value)
    ensures var (db', payments', response) := PlaceOrder(s.orders, s.payments, call);
            var s' := Run(s, CallSteps(s, call));
            && s'.orders == db' && s'.payments == payments'
            && (response.Some? ==> call.newId in s'.drivers && s'.drivers[call.newId].phase == Returned)
            && (response.None? ==> s' == s || (call.newId in s'.drivers && s'.drivers[call.newId].phase == Failed))
  {
    hide Run, Next, WellFormed, OrderDb.Created;
    if Refused(call) || OrderDb.Created(s.orders, call).None? {
      RunNone(s);
    } else {
      var id := call.newId;
      var place := Place(id, call.user.value, call.email.value, call.cart.value);
      var insert := PaymentInsert(id, call.paymentFault != InsertFails);
      var s2 := Next(Next(s, place), insert);
      PlaceAndInsert(s, call);
      RunPairThen(s, place, insert, CallSteps(s, call)[2..]);
      assert CallSteps(s, call) == [place, insert] + CallSteps(s, call)[2..];
      AfterInsert(s2, call, s2.charges[id] == Inserted);
    }
  }
}
