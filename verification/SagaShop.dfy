/** A small shop, to see the findings happen: the cart is filled, ordered and published step by step. */
module SagaShop {
  import opened Events
  import opened Carts
  import opened OrderDb
  import opened ProductDb
  import opened Saga
  import opened SagaTheorems
  import opened SagaCalls
  import opened SagaInvariants
  import opened SagaDecrements
  import opened SagaShortfall
  import opened SagaPublication
  import CartDb
  import Inboxes
  import Outboxes

  /** Two products, with so much of each on the shelf. */
  function Shelf(first: int, second: int): map<ProductId, Product> {
    map[0 := Product(None, "", "", 1, first), 1 := Product(None, "", "", 1, second)]
  }

  ghost function Shop(first: int, second: int): State {
    Initial(MIGRATION_CATALOGUE, Shelf(first, second), CartDb.Db([], []))
  }

  function Add(p: ProductId): CartDb.CartOp {
    CartDb.AddProduct(0, p, 1, CartDb.Priced(1), CartDb.Env(0, Some(0), 0, CartDb.NoFault))
  }

  /** The user's cart after one piece of each product; adding does not look at the stock. */
  function Filled(): CartDb.Db {
    CartDb.Db([CartDb.CartRow(0, 0, 0)], [CartDb.LineRow(0, 0, 1, 1), CartDb.LineRow(0, 1, 1, 1)])
  }

  function Infos(): map<ProductId, ProductInfo> {
    map[0 := ProductInfo(0, "", "", 1), 1 := ProductInfo(1, "", "", 1)]
  }

  function Basket(): CartView {
    CartView(0, 0, [CartProduct(0, "", "", 1, 1), CartProduct(1, "", "", 1, 1)], 2)
  }

  /** The message of the order. */
  function Ordered(): OrderCreated {
    OrderCreated(0, 0, "", [OrderItem(0, 1), OrderItem(1, 1)])
  }

  /** The user fills the cart and orders; the relayer publishes. */
  ghost function Shopping(): seq<Step> {
    [CartWrite(Add(0)), CartWrite(Add(1))]
    + [Place(0, 0, "", Basket()), OrderRelay(Outboxes.Fetch(1))] + [OrderRelay(Outboxes.Publish(true))]
  }

  lemma {:induction false} AddingFirst()
    ensures CartDb.Perform(CartDb.Db([], []), Add(0))
         == (CartDb.Db([CartDb.CartRow(0, 0, 0)], [CartDb.LineRow(0, 0, 1, 1)]), CartDb.Done)
  {
    var row, line := CartDb.CartRow(0, 0, 0), CartDb.LineRow(0, 0, 1, 1);
    var carts: seq<CartDb.CartRow> := [];
    assert carts + [row] == [row] && [row][0].id == 0;
    assert CartDb.GetOrCreate(CartDb.Db([], []), 0, Add(0).env)
         == (CartDb.Db([row], []), Some(CartDb.Found(row, true)));
    assert CartDb.UpsertLine(CartDb.Db([row], []), line) == Some(CartDb.Db([row], [line]));
  }

  lemma {:induction false} AddingSecond()
    ensures CartDb.Perform(CartDb.Db([CartDb.CartRow(0, 0, 0)], [CartDb.LineRow(0, 0, 1, 1)]), Add(1))
         == (Filled(), CartDb.Done)
  {
    var row, first, line := CartDb.CartRow(0, 0, 0), CartDb.LineRow(0, 0, 1, 1), CartDb.LineRow(0, 1, 1, 1);
    var db := CartDb.Db([row], [first]);
    assert CartDb.GetOrCreate(db, 0, Add(1).env) == (db, Some(CartDb.Found(row, false)));
    assert [row][0].id == 0 && [first][1..] == [];
    assert CartDb.Upserted([], line) == [line] && [first] + [line] == [first, line];
    assert CartDb.Upserted([first], line) == [first, line];
    assert CartDb.UpsertLine(db, line) == Some(Filled());
  }

  lemma {:induction false} LinesOfTwo(a: CartDb.LineRow, b: CartDb.LineRow, id: CartDb.CartId)
    requires a.cart == id && b.cart == id
    ensures CartDb.LinesOf([a, b], id) == [a, b]
  {
    assert [a][..0] == [] && CartDb.LinesOf([a][..0], id) == [];
    assert CartDb.LinesOf([a], id) == [a];
    assert [a, b][..1] == [a];
  }

  lemma {:induction false} ViewOfTwo(a: CartDb.LineRow, b: CartDb.LineRow)
    requires a.product in Infos() && b.product in Infos()
    ensures var i, j := Infos()[a.product], Infos()[b.product];
            ViewProducts([a, b], Infos()) == [CartProduct(i.id, i.name, i.description, a.price, a.quantity),
                                              CartProduct(j.id, j.name, j.description, b.price, b.quantity)]
  {
    hide Infos;
    assert [a][..0] == [] && ViewProducts([a][..0], Infos()) == [];
    assert [a, b][..1] == [a];
  }

  lemma {:induction false} TotalOfTwo(a: CartProduct, b: CartProduct)
    ensures TotalOf([a, b]) == a.price * a.quantity + b.price * b.quantity
  {
    assert [a][..0] == [] && TotalOf([a][..0]) == 0;
    assert [a, b][..1] == [a];
  }

  /** The basket is what GetCart makes of the cart's own lines. */
  lemma {:induction false} BasketIsTheCart()
    ensures Basket().products == ViewProducts(CartDb.LinesOf(Filled().lines, 0), Infos())
    ensures WellFormed(Basket())
  {
    hide CartDb.LinesOf, ViewProducts, TotalOf;
    var lines, products := Filled().lines, Basket().products;
    LinesOfTwo(lines[0], lines[1], 0);
    ViewOfTwo(lines[0], lines[1]);
    TotalOfTwo(products[0], products[1]);
  }

  lemma {:induction false} CartIsFilled(first: int, second: int)
    ensures var s := Next(Next(Shop(first, second), CartWrite(Add(0))), CartWrite(Add(1)));
            s == Shop(first, second).(carts := s.carts) && s.carts.tables == Filled()
  {
    hide CartDb.Perform, Add;
    AddingFirst();
    AddingSecond();
  }

  lemma {:induction false} BasketItems()
    ensures ItemsOf(Basket().products) == Ordered().items
    ensures RowsOf(Outboxes.Empty(), 0) == {}
  {
  }

  lemma {:induction false} BasketIsAccepted(db: OrderDb.Db)
    requires db == OrderDb.Db(MIGRATION_CATALOGUE, map[], Outboxes.Empty())
    ensures CreateTx(db, 0, 0, "", Basket().totalPrice, Basket().products)
         == Some(db.(orders := map[0 := Order(0, 2, StCreated)], outbox := Outboxes.InsertRow(db.outbox, Ordered())))
  {
    hide ItemsOf, RowsOf, Outboxes.InsertRow;
    BasketItems();
  }

  lemma {:induction false} BasketIsPlaced(s: State)
    requires s.orders == OrderDb.Db(MIGRATION_CATALOGUE, map[], Outboxes.Empty())
    ensures var s' := Next(s, Place(0, 0, "", Basket()));
            && s'.orders.outbox == Outboxes.InsertRow(Outboxes.Empty(), Ordered())
                 && s'.orders.catalogue == MIGRATION_CATALOGUE
            && s'.products == s.products && s'.productInbox == s.productInbox
  {
    hide WellFormed, CreateTx, Outboxes.InsertRow, Ordered;
    BasketIsTheCart();
    BasketIsAccepted(s.orders);
  }

  lemma {:induction false} OnlyRowIsPublished(m: OrderCreated)
    ensures var o := Outboxes.RelayNext(Outboxes.InsertRow(Outboxes.Empty(), m), Outboxes.Fetch(1));
            && o.batch == [Outboxes.Event(0, m)] && o.unmarked.None? && o.log == []
            && Outboxes.RelayNext(o, Outboxes.Publish(true)).log == [Outboxes.Event(0, m)]
  {
    var rows := [Outboxes.Row(m, Outboxes.Unpublished)];
    assert Outboxes.UnpublishedEvents(rows[..0]) == [];
    assert Outboxes.UnpublishedEvents(rows) == [Outboxes.Event(0, m)];
  }

  lemma {:induction false} RelayArrival(s: State, r: Outboxes.RelayStep)
    ensures var o' := Outboxes.RelayNext(s.orders.outbox, r);
            var s' := OrderRelayNext(s, r);
            && s'.orders == s.orders.(outbox := o') && s'.products == s.products
            && (o'.log == s.orders.outbox.log ==> s'.productInbox == s.productInbox)
            && (|o'.log| == |s.orders.outbox.log| + 1 ==>
                  s'.productInbox == Inboxes.Arrive(s.productInbox, o'.log[|s.orders.outbox.log|].body))
  {
    hide Outboxes.RelayNext;
  }

  /** After the shopping the order waits at the product service. */
  lemma {:induction false} OrderIsPublished(first: int, second: int)
    ensures var s := Run(Shop(first, second), Shopping());
            && s.orders.catalogue == MIGRATION_CATALOGUE && s.products == Shop(first, second).products
            && Ordered() in s.productInbox.queue
  {
    hide Run, Basket, Ordered, PlaceNext, OrderRelayNext, Outboxes.RelayNext, CartDb.Perform, Add, Filled, Shelf;
    var add, more, place := CartWrite(Add(0)), CartWrite(Add(1)), Place(0, 0, "", Basket());
    var fetch, publish := OrderRelay(Outboxes.Fetch(1)), OrderRelay(Outboxes.Publish(true));
    var s0 := Shop(first, second);
    var s2 := Next(Next(s0, add), more);
    var s3 := Next(s2, place);
    var s4 := Next(s3, fetch);
    assert Shopping() == [add, more] + ([place, fetch] + [publish]);
    RunPairThen(s0, add, more, [place, fetch] + [publish]);
    RunPairThen(s2, place, fetch, [publish]);
    RunTwo(s4, publish, publish);
    CartIsFilled(first, second);
    BasketIsPlaced(s2);
    OnlyRowIsPublished(Ordered());
    RelayArrival(s3, Outboxes.Fetch(1));
    RelayArrival(s4, Outboxes.Publish(true));
  }

  lemma {:induction false} OneOfEach(first: int, second: int)
    requires first >= 1
    ensures second >= 1 ==> Decremented(Shelf(first, second), Ordered().items) == Shelf(first - 1, second - 1)
    ensures second == 0 ==> Decremented(Shelf(first, second), Ordered().items) == Shelf(first - 1, second)
    ensures second == 0 ==> Affected(Shelf(first, second), Ordered().items) != 2
  {
    var shelf, items := Shelf(first, second), Ordered().items;
    RowCountExact(shelf, items);
    TakenOfLine(shelf, items, 0);
    TakenOfLine(shelf, items, 1);
    assert items[1].quantity == 1;
  }

  lemma {:induction false} ShopOpens(first: int, second: int)
    requires first >= 0 && second >= 0
    ensures CartDb.Valid(CartDb.Db([], [])) && StockNonNegative(Shelf(first, second))
    ensures Shop(first, second).products.products == Shelf(first, second)
         && Shop(first, second).products.processed == []
  {
  }

  /** With five of product 0 and none of product 1, an order of one each ends cancelled, and four are left. */
  lemma {:induction false} PartialDecrementWitness()
    ensures exists steps :: Shopping() <= steps && CancelledWith(Run(Shop(5, 0), steps), 0, Shelf(4, 0))
  {
    hide Run, Initial, Shopping, Decremented, Affected, CancelledWith, Shelf;
    var s := Run(Shop(5, 0), Shopping());
    OrderIsPublished(5, 0);
    OneOfEach(5, 0);
    ShopOpens(5, 0);
    RunIsReachable(MIGRATION_CATALOGUE, Shelf(5, 0), CartDb.Db([], []), Shopping());
    ShortOrderKeepsStock(s, Ordered());
    var steps :| CancelledWith(Run(s, steps), 0, Decremented(s.products.products, Ordered().items));
    RunConcat(Shop(5, 0), Shopping(), steps);
    assert CancelledWith(Run(Shop(5, 0), Shopping() + steps), 0, Shelf(4, 0));
  }

  /** With five of each, the same order is applied twice when a redelivery overlaps: three of each are left. */
  lemma {:induction false} DoubleDecrementWitness()
    ensures Run(Shop(5, 5), Shopping() + ProductSteps(Overlap(Ordered()))).products.products == Shelf(3, 3)
  {
    hide Run, Initial, Shopping, Overlap, Affected, Shelf;
    var s, m := Run(Shop(5, 5), Shopping()), Ordered();
    OrderIsPublished(5, 5);
    ShopOpens(5, 5);
    StockFallsTwice(s, m);
    RunConcat(Shop(5, 5), Shopping(), ProductSteps(Overlap(m)));
    OneOfEach(5, 5);
    OneOfEach(4, 4);
  }
}
