/** The search index over the saga: it is fed by what the product relayer publishes, in that order. */
module SagaIndex {
  import opened Events
  import opened OrderDb
  import opened ProductDb
  import opened Saga
  import opened SagaInvariants
  import opened SagaTheorems
  import opened SagaCalls
  import opened SagaSettles
  import opened SagaStock
  import opened SearchIndex
  import CartDb
  import Outboxes

  /** The messages the broker has accepted, in order. */
  function Published(log: seq<Outboxes.Event<Message>>): seq<Message> {
    seq(|log|, i requires 0 <= i < |log| => log[i].body)
  }

  /** A run of the saga that starts with an empty products table. */
  ghost function FromEmpty(catalogue: set<OrderStatus>, tables: CartDb.Db, steps: seq<Step>): State {
    Run(Initial(catalogue, map[], tables), steps)
  }

  lemma {:induction false} SameBodiesShown(db: ProductDb.Db, ref: ProductDb.Db)
    requires SameStock(db, ref)
    ensures db.products == ref.products && Bodies(db.outbox.rows) == Bodies(ref.outbox.rows)
  {
  }

  /** One successful delivery of each of n messages. */
  function DeliveredOnce(n: nat): seq<seq<Outcome>> {
    seq(n, k => [Done])
  }

  lemma {:induction false} DeliveredOnceIsEffective(n: nat)
    ensures forall i :: 0 <= i < n ==> Effective(DeliveredOnce(n)[i])
  {
    forall i | 0 <= i < n ensures Effective(DeliveredOnce(n)[i]) {
      assert !DeliveredOnce(n)[i][0].Refused?;
    }
  }

  /** The rows in their order would give the table at the end of any run from an empty one. */
  lemma {:induction false} RowsGiveTable(catalogue: set<OrderStatus>, tables: CartDb.Db, steps: seq<Step>)
    ensures var db := FromEmpty(catalogue, tables, steps).products;
            IndexListings(Consumed(Bodies(db.outbox.rows))) == TableListings(db.products)
  {
    hide Run, After, TransactionsOf, Replay, Consumed, IndexListings, TableListings, Effective, SameStock;
    var s0 := Initial(catalogue, map[], tables);
    var txs := TransactionsOf(s0, steps);
    var rows := After(EmptyDb(), txs).outbox.rows;
    RunIsHistory(s0, steps);
    assert s0.products == EmptyDb();
    SameBodiesShown(Run(s0, steps).products, After(EmptyDb(), txs));
    DeliveredOnceIsEffective(|rows|);
    ReplayIsConsumed(Bodies(rows), DeliveredOnce(|rows|));
    IndexIsTheTable(txs, DeliveredOnce(|rows|));
  }

  /** In every run from an empty table, with every failed publish and mark, repeat and restart: when the consumer
      has worked through the first k published messages, whatever repeats or fails at each, the index shows the
      products table if and only if of each product the last of these messages shows what its newest outbox
      row shows. */
  lemma {:induction false} IndexFollowsLog(catalogue: set<OrderStatus>, tables: CartDb.Db, steps: seq<Step>, k: nat,
        outcomes: seq<seq<Outcome>>)
    requires k == |outcomes| <= |FromEmpty(catalogue, tables, steps).products.outbox.log|
    requires forall i :: 0 <= i < k ==> Effective(outcomes[i])
    ensures var db := FromEmpty(catalogue, tables, steps).products;
            var received := Published(db.outbox.log)[..k];
            IndexListings(Replay(received, outcomes)) == TableListings(db.products)
            <==> forall p :: EndAlike(received, Bodies(db.outbox.rows), p)
  {
    hide FromEmpty, Replay, Consumed, IndexListings, TableListings, Effective, EndAlike, Bodies;
    var db := FromEmpty(catalogue, tables, steps).products;
    var received := Published(db.outbox.log)[..k];
    ReplayIsConsumed(received, outcomes);
    RowsGiveTable(catalogue, tables, steps);
    SameLastMessages(received, Bodies(db.outbox.rows));
  }

  // ------------------------------------------------ runs in which the product relayer does not fail

  predicate Unfailing(step: Step) {
    step.ProductRelay? ==> Outboxes.Succeeds(step.relay)
  }

  ghost predicate AllUnfailing(steps: seq<Step>) {
    forall i :: 0 <= i < |steps| ==> Unfailing(steps[i])
  }

  lemma {:induction false} StepStaysSmooth(s: State, step: Step)
    requires Outboxes.Smooth(s.products.outbox) && Unfailing(step)
    ensures Outboxes.Smooth(Next(s, step).products.outbox)
  {
    hide Next, Outboxes.Smooth, Outboxes.Next, Outboxes.Run, Outboxes.Succeeds, ProductHandlerNext, CatalogueTx;
    var moves := ProductOutboxSteps(s, step);
    ProductOutboxMoves(s, step);
    RunOne(s.products.outbox, moves);
    if moves != [] {
      Outboxes.StaysSmooth(s.products.outbox, moves[0]);
    }
  }

  lemma {:induction false} RunStaysSmooth(s: State, steps: seq<Step>)
    requires Outboxes.Smooth(s.products.outbox) && AllUnfailing(steps)
    ensures Outboxes.Smooth(Run(s, steps).products.outbox)
  {
    hide Next, Outboxes.Smooth, Unfailing;
    if steps != [] {
      RunStaysSmooth(s, steps[..|steps| - 1]);
      StepStaysSmooth(Run(s, steps[..|steps| - 1]), steps[|steps| - 1]);
    }
  }

  lemma {:induction false} SmoothLogIsRows(o: Outboxes.Outbox<Message>)
    requires Outboxes.Smooth(o)
    ensures |o.log| <= |o.rows| && Published(o.log) == Bodies(o.rows)[..|o.log|]
    ensures NothingUnpublished(o) ==> |o.log| == |o.rows|
  {
    assert |o.log| < |o.rows| ==> o.rows[|o.log|].status == Outboxes.Unpublished;
  }

  /** A step appends at most one product row and changes no row's content. */
  lemma {:induction false} StepAppendsRow(s: State, step: Step)
    ensures var rows, rows' := s.products.outbox.rows, Next(s, step).products.outbox.rows;
            |rows| <= |rows'| <= |rows| + 1 && Bodies(rows')[..|rows|] == Bodies(rows)
  {
    hide Next, Outboxes.RelayNext, Outboxes.Run, ProductHandlerNext, CatalogueTx;
    var o, moves := s.products.outbox, ProductOutboxSteps(s, step);
    ProductOutboxMoves(s, step);
    RunOne(o, moves);
    if moves != [] {
      OutboxStepAppends(o, moves[0]);
    }
  }

  lemma {:induction false} OutboxStepAppends(o: Outboxes.Outbox<Message>, step: Outboxes.Step<Message>)
    ensures var rows' := Outboxes.Next(o, step).rows;
            |o.rows| <= |rows'| <= |o.rows| + 1 && Bodies(rows')[..|o.rows|] == Bodies(o.rows)
  {
  }

  /** The first k rows are all the rows there were after some part of the run. */
  ghost predicate RowsAfter(s: State, steps: seq<Step>, k: nat, j: nat) {
    && j <= |steps| && k <= |Run(s, steps).products.outbox.rows|
    && Bodies(Run(s, steps[..j]).products.outbox.rows) == Bodies(Run(s, steps).products.outbox.rows)[..k]
  }

  lemma {:induction false} RowsOfPastState(s: State, steps: seq<Step>, k: nat)
    requires s.products.outbox.rows == [] && k <= |Run(s, steps).products.outbox.rows|
    ensures exists j :: 0 <= j <= |steps| && RowsAfter(s, steps, k, j)
  {
    hide Next, Bodies;
    var rows := Run(s, steps).products.outbox.rows;
    BodiesCut(rows, k);
    if k == |rows| {
      assert steps[..|steps|] == steps && rows[..k] == rows;
      assert RowsAfter(s, steps, k, |steps|);
    } else {
      var n := |steps| - 1;
      var before := Run(s, steps[..n]).products.outbox.rows;
      StepAppendsRow(Run(s, steps[..n]), steps[n]);
      BodiesCut(before, k);
      RowsOfPastState(s, steps[..n], k);
      var j :| 0 <= j <= n && RowsAfter(s, steps[..n], k, j);
      assert steps[..n][..j] == steps[..j];
      BodiesCut(rows, |before|);
      assert rows[..|before|][..k] == rows[..k];
      BodiesPrefix(rows, before, k);
      assert RowsAfter(s, steps, k, j);
    }
  }

  lemma {:induction false} BodiesPrefix(rows: seq<Outboxes.Row<Message>>, before: seq<Outboxes.Row<Message>>, k: nat)
    requires k <= |before| <= |rows| && Bodies(rows)[..|before|] == Bodies(before)
    ensures Bodies(rows)[..k] == Bodies(before)[..k]
  {
    forall i | 0 <= i < k ensures Bodies(rows)[i] == Bodies(before)[i] {
      assert Bodies(rows)[..|before|][i] == Bodies(before)[i];
    }
  }

  /** As long as no publish and no mark of the product relayer fails and it does not restart, the index is at
      every point the table as it was at some point of the run, and the table itself once everything
      published has been worked through and nothing is unpublished. */
  lemma {:induction false} UnfailingRelayGivesPastTable(catalogue: set<OrderStatus>, tables: CartDb.Db,
        steps: seq<Step>, k: nat, outcomes: seq<seq<Outcome>>)
    requires AllUnfailing(steps)
    requires k == |outcomes| <= |FromEmpty(catalogue, tables, steps).products.outbox.log|
    requires forall i :: 0 <= i < k ==> Effective(outcomes[i])
    ensures var db := FromEmpty(catalogue, tables, steps).products;
            var index := IndexListings(Replay(Published(db.outbox.log)[..k], outcomes));
            && (exists j :: 0 <= j <= |steps|
                 && index == TableListings(FromEmpty(catalogue, tables, steps[..j]).products.products))
            && (k == |db.outbox.log| && NothingUnpublished(db.outbox) ==> index == TableListings(db.products))
  {
    hide Run, Replay, Consumed, IndexListings, TableListings, Effective, Bodies, Outboxes.Smooth, NothingUnpublished;
    var s0 := Initial(catalogue, map[], tables);
    var o := Run(s0, steps).products.outbox;
    StartsSmooth(s0.products);
    RunStaysSmooth(s0, steps);
    SmoothLogIsRows(o);
    var received := Published(o.log)[..k];
    ReplayIsConsumed(received, outcomes);
    BodiesCut(o.rows, |o.rows|);
    assert received == Bodies(o.rows)[..k];
    RowsOfPastState(s0, steps, k);
    var j :| 0 <= j <= |steps| && RowsAfter(s0, steps, k, j);
    RowsGiveTable(catalogue, tables, steps[..j]);
    if k == |o.log| && NothingUnpublished(o) {
      assert Bodies(o.rows)[..k] == Bodies(o.rows);
      RowsGiveTable(catalogue, tables, steps);
    }
  }

  lemma {:induction false} StartsSmooth(db: ProductDb.Db)
    requires db.outbox == Outboxes.Empty()
    ensures Outboxes.Smooth(db.outbox)
  {
  }

  // ------------------------------------------------ an instance

  function Named(name: string): Product {
    Product(None, name, "", 1, 1)
  }

  /** Two rows are fetched, the publish of the first fails once; the second pass makes up for it. */
  ghost function Hiccup(): seq<Outboxes.Step<Message>> {
    [Outboxes.Relay(Outboxes.Fetch(2)), Outboxes.Relay(Outboxes.Publish(false))]
    + [Outboxes.Relay(Outboxes.Publish(true)), Outboxes.Relay(Outboxes.Mark(true))]
    + [Outboxes.Relay(Outboxes.Fetch(2)), Outboxes.Relay(Outboxes.Publish(true))]
    + [Outboxes.Relay(Outboxes.Mark(true))]
  }

  lemma {:induction false} OneUnpublished(a: Message, b: Message, second: Outboxes.Status)
    requires second != Outboxes.Cancelled
    ensures var rows := [Outboxes.Row(a, Outboxes.Unpublished), Outboxes.Row(b, second)];
            Outboxes.UnpublishedEvents(rows)
            == [Outboxes.Event(0, a)] + if second.Unpublished? then [Outboxes.Event(1, b)] else []
  {
    var rows := [Outboxes.Row(a, Outboxes.Unpublished), Outboxes.Row(b, second)];
    assert rows[..1][..0] == [] && Outboxes.UnpublishedEvents(rows[..1][..0]) == [];
    assert Outboxes.UnpublishedEvents(rows[..1]) == [Outboxes.Event(0, a)];
  }

  lemma {:induction false} HiccupReorders(o: Outboxes.Outbox<Message>, a: Message, b: Message)
    requires o == Outboxes.InsertRow(Outboxes.InsertRow(Outboxes.Empty(), a), b)
    ensures var o' := Outboxes.Run(o, Hiccup());
            && o'.log == [Outboxes.Event(1, b), Outboxes.Event(0, a)]
            && o'.rows == [Outboxes.Row(a, Outboxes.Published), Outboxes.Row(b, Outboxes.Published)]
  {
    hide Outboxes.UnpublishedEvents, Outboxes.Run;
    OneUnpublished(a, b, Outboxes.Unpublished);
    OneUnpublished(a, b, Outboxes.Published);
    var fetch, lost: Outboxes.Step<Message> := Outboxes.Relay(Outboxes.Fetch(2)),
         Outboxes.Relay(Outboxes.Publish(false));
    var publish, mark: Outboxes.Step<Message> := Outboxes.Relay(Outboxes.Publish(true)),
         Outboxes.Relay(Outboxes.Mark(true));
    assert o.rows == [Outboxes.Row(a, Outboxes.Unpublished), Outboxes.Row(b, Outboxes.Unpublished)];
    var o2 := Outboxes.Next(Outboxes.Next(o, fetch), lost);
    assert o2.batch == [Outboxes.Event(1, b)];
    var o4 := Outboxes.Next(Outboxes.Next(o2, publish), mark);
    assert o4.rows == [Outboxes.Row(a, Outboxes.Unpublished), Outboxes.Row(b, Outboxes.Published)];
    var o6 := Outboxes.Next(Outboxes.Next(o4, fetch), publish);
    assert o6.log == [Outboxes.Event(1, b), Outboxes.Event(0, a)];
    RunPair(o, fetch, lost, [publish, mark] + ([fetch, publish] + [mark]));
    RunPair(o2, publish, mark, [fetch, publish] + [mark]);
    RunPair(o4, fetch, publish, [mark]);
    RunOne(o6, [mark]);
    assert Hiccup() == [fetch, lost] + ([publish, mark] + ([fetch, publish] + [mark]));
  }

  lemma {:induction false} RenamedLast(a: Message, b: Message)
    requires About(a, 0) && About(b, 0) && Shown(Some(a)) != Shown(Some(b))
    ensures !EndAlike([b, a], [a, b], 0)
  {
  }

  /** A product is created as "a" and renamed to "b".  The publish of the first event fails once, so that it
      follows the second; in the end everything is PUBLISHED and worked through, and the index says "a". */
  lemma {:induction false} IndexCanStayBehind(catalogue: set<OrderStatus>, tables: CartDb.Db)
    ensures exists steps ::
              var db := FromEmpty(catalogue, tables, steps).products;
              NothingUnpublished(db.outbox)
                   && IndexListings(Consumed(Published(db.outbox.log))) != TableListings(db.products)
  {
    hide Run, IndexListings, TableListings, Consumed, Shown, LastAbout, EndAlike, Outboxes.Run, Hiccup, CatalogueTx;
    var s0 := Initial(catalogue, map[], tables);
    var create, rename := CatalogueWrite(Create(0, Named("a"))), CatalogueWrite(Update(0, Named("b")));
    var a, b := ChangeEvent(create.write), ChangeEvent(rename.write);
    var s2 := Next(Next(s0, create), rename);
    TwoWrites(s0.products, create.write, rename.write);
    HiccupReorders(s2.products.outbox, a, b);
    HiccupRelays();
    ProductRelaysRun(s2, Hiccup());
    RunPairThen(s0, create, rename, LiftProductRelay(Hiccup()));
    var steps := [create, rename] + LiftProductRelay(Hiccup());
    var db := Run(s0, steps).products;
    assert Published(db.outbox.log) == [b, a] && Bodies(db.outbox.rows) == [a, b];
    DifferentNames(a, b);
    RenamedLast(a, b);
    RowsGiveTable(catalogue, tables, steps);
    SameLastMessages([b, a], [a, b]);
    assert FromEmpty(catalogue, tables, steps).products == db;
  }

  lemma {:induction false} TwoWrites(db: ProductDb.Db, create: CatalogueOp, rename: CatalogueOp)
    requires db == EmptyDb() && create == Create(0, Named("a")) && rename == Update(0, Named("b"))
    ensures CatalogueTx(CatalogueTx(db, create), rename).outbox
         == Outboxes.InsertRow(Outboxes.InsertRow(Outboxes.Empty(), ChangeEvent(create)), ChangeEvent(rename))
  {
  }

  lemma {:induction false} HiccupRelays()
    ensures AllRelays(Hiccup())
  {
  }

  lemma {:induction false} DifferentNames(a: Message, b: Message)
    requires a == ChangeEvent(Create(0, Named("a"))) && b == ChangeEvent(Update(0, Named("b")))
    ensures About(a, 0) && About(b, 0) && Shown(Some(a)) != Shown(Some(b))
  {
    assert "a"[0] != "b"[0];
  }
}
