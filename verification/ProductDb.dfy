/** The product service's database: products, processed events and outbox, with its transactions. */
module ProductDb {
  import opened Events
  import Outboxes

  /** A products row.  The price is in cents. */
  datatype Product = Product(category: Option<nat>, name: string, description: string, price: int, stock: int)

  datatype ChangeKind = Created | Updated | Deleted

  /** Payload of a `products.events` message; a deletion fills in the id only. */
  datatype Payload = Payload(id: ProductId, category: Option<nat>, name: string, description: string, price: int,
       stock: int)

  datatype Message = StockFailed(event: StockUpdateFailed) | ProductChanged(kind: ChangeKind, payload: Payload)

  /** A committed stock transaction: what it saw and how many rows its UPDATE reported. */
  datatype StockCommit = StockCommit(event: OrderCreated, before: map<ProductId, Product>, affected: nat)

  datatype Db = Db(
    products: map<ProductId, Product>,
    processed: seq<OrderId>,              // no uniqueness constraint on this table
    outbox: Outboxes.Outbox<Message>,
    commits: seq<StockCommit>)            // history

  // ------------------------------------------------ UPDATE products ... FROM json_to_recordset

  /** The line joins a products row and passes the stock guard. */
  predicate Joins(products: map<ProductId, Product>, line: OrderItem) {
    line.product in products && products[line.product].stock >= line.quantity
  }

  /** What the UPDATE subtracts from product p: the quantity of its first joining line, 0 without one. */
  function Taken(products: map<ProductId, Product>, items: seq<OrderItem>, p: ProductId): int {
    if items == [] then 0
    else if items[0].product == p && Joins(products, items[0]) then items[0].quantity
    else Taken(products, items[1..], p)
  }

  function Decremented(products: map<ProductId, Product>, items: seq<OrderItem>): map<ProductId, Product> {
    map p | p in products :: products[p].(stock := products[p].stock - Taken(products, items, p))
  }

  /** The products rows the UPDATE changes; their number is the affected-row count. */
  function Touched(products: map<ProductId, Product>, items: seq<OrderItem>): set<ProductId> {
    set i | 0 <= i < |items| && Joins(products, items[i]) :: items[i].product
  }

  function Affected(products: map<ProductId, Product>, items: seq<OrderItem>): nat {
    |Touched(products, items)|
  }

  predicate AllJoin(products: map<ProductId, Product>, items: seq<OrderItem>) {
    forall i :: 0 <= i < |items| ==> Joins(products, items[i])
  }

  lemma {:induction false} TouchedAppended(products: map<ProductId, Product>, items: seq<OrderItem>, last: OrderItem)
    ensures Touched(products, items + [last])
         == Touched(products, items) + if Joins(products, last) then {last.product} else {}
  {
    var all := items + [last];
    forall p | p in Touched(products, items) ensures p in Touched(products, all) {
      var i :| 0 <= i < |items| && Joins(products, items[i]) && items[i].product == p;
      assert all[i] == items[i];
    }
    assert all[|items|] == last;
  }

  lemma {:induction false} AppendedLines(products: map<ProductId, Product>, items: seq<OrderItem>, last: OrderItem)
    ensures AllJoin(products, items + [last]) <==> AllJoin(products, items) && Joins(products, last)
    ensures AllJoin(products, items + [last]) ==>
              (DistinctProducts(items + [last])
               <==> DistinctProducts(items) && last.product !in Touched(products, items))
  {
    var all := items + [last];
    assert all[|items|] == last && forall i :: 0 <= i < |items| ==> all[i] == items[i];
    if AllJoin(products, all) && DistinctProducts(items) && last.product !in Touched(products, items) {
      forall i | 0 <= i < |items| ensures items[i].product != last.product {
        assert Joins(products, all[i]);
        assert items[i].product in Touched(products, items);
      }
    }
  }

  lemma {:induction false} RowCountBound(products: map<ProductId, Product>, items: seq<OrderItem>)
    ensures Affected(products, items) <= |items|
    ensures Affected(products, items) == |items| <==> DistinctProducts(items) && AllJoin(products, items)
  {
    hide Touched, AllJoin, Joins, DistinctProducts;
    if items == [] {
      NoLines(products, items);
    } else {
      var n := |items| - 1;
      assert items == items[..n] + [items[n]];
      RowCountBound(products, items[..n]);
      TouchedAppended(products, items[..n], items[n]);
      AppendedLines(products, items[..n], items[n]);
    }
  }

  lemma {:induction false} NoLines(products: map<ProductId, Product>, items: seq<OrderItem>)
    requires items == []
    ensures Touched(products, items) == {} && AllJoin(products, items) && DistinctProducts(items)
  {
  }

  /** The affected-row count equals the number of lines exactly when every line was applied to its own
      row: a missing product, too little stock or a repeated product each make it smaller. */
  lemma {:induction false} RowCountExact(products: map<ProductId, Product>, items: seq<OrderItem>)
    ensures Affected(products, items) == |items|
       <==> DistinctProducts(items) && forall i :: 0 <= i < |items| ==>
              && items[i].product in products
              && products[items[i].product].stock >= items[i].quantity
  {
    RowCountBound(products, items);
    if AllJoin(products, items) {
      forall i | 0 <= i < |items| ensures items[i].product in products
           && products[items[i].product].stock >= items[i].quantity {
        assert Joins(products, items[i]);
      }
    }
  }

  /** How many lines find their product with enough stock. */
  function Satisfiable(products: map<ProductId, Product>, items: seq<OrderItem>): nat {
    if items == [] then 0 else
      var n := |items| - 1;
      Satisfiable(products, items[..n]) + if Joins(products, items[n]) then 1 else 0
  }

  lemma {:induction false} NotTouchedBefore(products: map<ProductId, Product>, items: seq<OrderItem>)
    requires items != [] && DistinctProducts(items)
    ensures items[|items| - 1].product !in Touched(products, items[..|items| - 1])
  {
  }

  /** For distinct products the row count is the number of satisfiable lines. */
  lemma {:induction false} RowCountIsSatisfiable(products: map<ProductId, Product>, items: seq<OrderItem>)
    requires DistinctProducts(items)
    ensures Affected(products, items) == Satisfiable(products, items)
  {
    hide Touched, Joins;
    if items == [] {
      NoLines(products, items);
    } else {
      var n := |items| - 1;
      assert items == items[..n] + [items[n]];
      RowCountIsSatisfiable(products, items[..n]);
      TouchedAppended(products, items[..n], items[n]);
      NotTouchedBefore(products, items);
    }
  }

  lemma {:induction false} TakenFromLine(products: map<ProductId, Product>, items: seq<OrderItem>, p: ProductId)
    ensures if Taken(products, items, p) == 0 then true
            else exists i :: 0 <= i < |items| && items[i].product == p && Joins(products, items[i])
                             && Taken(products, items, p) == items[i].quantity
    ensures (forall i :: 0 <= i < |items| && items[i].product == p ==> !Joins(products, items[i]))
            ==> Taken(products, items, p) == 0
  {
    if items != [] {
      if !(items[0].product == p && Joins(products, items[0])) {
        TakenFromLine(products, items[1..], p);
        if Taken(products, items[1..], p) != 0 {
          var i :| 0 <= i < |items[1..]| && items[1..][i].product == p && Joins(products, items[1..][i])
                   && Taken(products, items[1..], p) == items[1..][i].quantity;
          assert items[i + 1] == items[1..][i];
        }
        forall i | 0 <= i < |items[1..]| ensures items[1..][i] == items[i + 1] {
        }
      }
    }
  }

  lemma {:induction false} TakenOfLine(products: map<ProductId, Product>, items: seq<OrderItem>, i: nat)
    requires i < |items| && DistinctProducts(items)
    ensures Taken(products, items, items[i].product)
         == if Joins(products, items[i]) then items[i].quantity else 0
  {
    if i > 0 {
      TakenOfLine(products, items[1..], i - 1);
    } else if !Joins(products, items[0]) {
      TakenFromLine(products, items[1..], items[0].product);
    }
  }

  lemma {:induction false} TakenElsewhere(products: map<ProductId, Product>, items: seq<OrderItem>, p: ProductId)
    requires forall i :: 0 <= i < |items| ==> items[i].product != p
    ensures Taken(products, items, p) == 0
  {
    TakenFromLine(products, items, p);
  }

  lemma {:induction false} TakenPermuted(products: map<ProductId, Product>, items: seq<OrderItem>,
        other: seq<OrderItem>, p: ProductId)
    requires DistinctProducts(items) && DistinctProducts(other) && multiset(items) == multiset(other)
    ensures Taken(products, items, p) == Taken(products, other, p)
  {
    if i :| 0 <= i < |items| && items[i].product == p {
      assert items[i] in multiset(other);
      var j :| 0 <= j < |other| && other[j] == items[i];
      TakenOfLine(products, items, i);
      TakenOfLine(products, other, j);
    } else {
      forall j | 0 <= j < |other| ensures other[j].product != p {
        assert other[j] in multiset(items);
      }
      TakenElsewhere(products, items, p);
      TakenElsewhere(products, other, p);
    }
  }

  /** For distinct products neither the new stock nor the row count depends on the order of the lines. */
  lemma {:induction false} LineOrderIrrelevant(products: map<ProductId, Product>, items: seq<OrderItem>,
        other: seq<OrderItem>)
    requires DistinctProducts(items) && DistinctProducts(other) && multiset(items) == multiset(other)
    ensures Decremented(products, items) == Decremented(products, other)
    ensures Affected(products, items) == Affected(products, other)
  {
    forall p | p in products ensures Taken(products, items, p) == Taken(products, other, p) {
      TakenPermuted(products, items, other, p);
    }
    assert Touched(products, items) == Touched(products, other) by {
      forall i | 0 <= i < |items| ensures items[i] in other {
        assert items[i] in multiset(other);
      }
      forall j | 0 <= j < |other| ensures other[j] in items {
        assert other[j] in multiset(items);
      }
    }
  }

  /** When the row count matches, each ordered product has lost exactly its quantity and no other row changed. */
  lemma {:induction false} FullUpdateAppliesEveryLine(products: map<ProductId, Product>, items: seq<OrderItem>,
        p: ProductId)
    requires Affected(products, items) == |items| && p in products
    ensures forall i :: 0 <= i < |items| && items[i].product == p ==>
              Decremented(products, items)[p].stock == products[p].stock - items[i].quantity
    ensures (forall i :: 0 <= i < |items| ==> items[i].product != p) ==> Decremented(products, items)[p] == products[p]
  {
    RowCountBound(products, items);
    forall i | 0 <= i < |items| && items[i].product == p
      ensures Decremented(products, items)[p].stock == products[p].stock - items[i].quantity
    {
      TakenOfLine(products, items, i);
      assert Joins(products, items[i]);
    }
    if forall i :: 0 <= i < |items| ==> items[i].product != p {
      TakenElsewhere(products, items, p);
    }
  }

  predicate StockNonNegative(products: map<ProductId, Product>) {
    forall p :: p in products ==> products[p].stock >= 0
  }

  /** The guard keeps the CHECK (stock_quantity >= 0) satisfied, so the UPDATE never violates it. */
  lemma {:induction false} StockStaysNonNegative(products: map<ProductId, Product>, items: seq<OrderItem>)
    requires StockNonNegative(products)
    ensures StockNonNegative(Decremented(products, items))
  {
    forall p | p in products ensures products[p].stock - Taken(products, items, p) >= 0 {
      TakenFromLine(products, items, p);
    }
  }

  // ------------------------------------------------ the stock transaction

  predicate Short(c: StockCommit) {
    c.affected != |c.event.items|
  }

  function FailureOf(event: OrderCreated): StockUpdateFailed {
    StockUpdateFailed(event.order, event.items)
  }

  /** The committed transaction: a short update keeps its decrements and adds the failure event. */
  function StockTx(db: Db, event: OrderCreated): Db {
    var commit := StockCommit(event, db.products, Affected(db.products, event.items));
    Db(Decremented(db.products, event.items),
       db.processed + [event.order],
       if Short(commit) then Outboxes.InsertRow(db.outbox, StockFailed(FailureOf(event))) else db.outbox,
       db.commits + [commit])
  }

  /** Quantity of product p taken by all these transactions. */
  function TakenBy(commits: seq<StockCommit>, p: ProductId): int {
    if commits == [] then 0 else
      var n := |commits| - 1;
      TakenBy(commits[..n], p) + Taken(commits[n].before, commits[n].event.items, p)
  }

  // ------------------------------------------------ catalogue transactions

  datatype CatalogueOp =
    | Create(id: ProductId, product: Product)
    | Update(id: ProductId, product: Product)
    | Delete(id: ProductId)
    | ClearCategory(category: nat)     // a deleted category sets category_id to NULL, without an event

  function PayloadOf(id: ProductId, p: Product): Payload {
    Payload(id, p.category, p.name, p.description, p.price, p.stock)
  }

  function ChangeEvent(op: CatalogueOp): Message
    requires !op.ClearCategory?
  {
    match op
    case Create(id, product) => ProductChanged(Created, PayloadOf(id, product))
    case Update(id, product) => ProductChanged(Updated, PayloadOf(id, product))
    case Delete(id) => ProductChanged(Deleted, Payload(id, None, "", "", 0, 0))
  }

  /** Whether the statement succeeds: a fresh key, an existing row, non-negative stock. */
  predicate Accepted(products: map<ProductId, Product>, op: CatalogueOp) {
    match op
    case Create(id, product) => id !in products && product.stock >= 0
    case Update(id, product) => id in products && product.stock >= 0
    case Delete(_) => true
    case ClearCategory(_) => true
  }

  function Written(products: map<ProductId, Product>, op: CatalogueOp): map<ProductId, Product> {
    match op
    case Create(id, product) => products[id := product]
    case Update(id, product) => products[id := product]
    case Delete(id) => products - {id}
    case ClearCategory(c) =>
      map p | p in products :: if products[p].category == Some(c) then products[p].(category := None) else products[p]
  }

  /** A catalogue transaction; a rejected one rolls back. */
  function CatalogueTx(db: Db, op: CatalogueOp): Db {
    if !Accepted(db.products, op) then db
    else if op.ClearCategory? then db.(products := Written(db.products, op))
    else db.(products := Written(db.products, op), outbox := Outboxes.InsertRow(db.outbox, ChangeEvent(op)))
  }

  /** A catalogue transaction, row by row.  It is rejected exactly if it creates a product that is there, updates
      one that is not, or writes a negative stock; otherwise it writes or removes its own row, a deleted category
      goes from every product that has it, and no other row changes.  Unless it deletes a category, it adds one
      outbox row. */
  lemma {:induction false} CatalogueExactly(db: Db, op: CatalogueOp, p: ProductId)
    ensures var db' := CatalogueTx(db, op);
            var rejected := (op.Create? && (op.id in db.products || op.product.stock < 0))
                            || (op.Update? && (op.id !in db.products || op.product.stock < 0));
            var mine := !rejected && !op.ClearCategory? && op.id == p;
            && db'.processed == db.processed && db'.commits == db.commits
            && (p in db'.products <==> if mine then !op.Delete? else p in db.products)
            && (p in db'.products ==>
                  db'.products[p]
                  == if mine then op.product
                     else if op.ClearCategory? && db.products[p].category == Some(op.category)
                     then db.products[p].(category := None)
                     else db.products[p])
            && (if rejected || op.ClearCategory? then db'.outbox == db.outbox
                else |db'.outbox.rows| == |db.outbox.rows| + 1 && db'.outbox.rows[..|db.outbox.rows|] == db.outbox.rows)
  {
  }

  // ------------------------------------------------ histories

  /** A transaction on the product database; a rejected one counts too, it changes nothing. */
  datatype Transaction = Catalogue(op: CatalogueOp) | Sale(event: OrderCreated)

  function TransactionNext(db: Db, tx: Transaction): Db {
    match tx
    case Catalogue(op) => CatalogueTx(db, op)
    case Sale(event) => StockTx(db, event)
  }

  /** The database after these transactions, one by one. */
  function After(db: Db, txs: seq<Transaction>): Db {
    if txs == [] then db else TransactionNext(After(db, txs[..|txs| - 1]), txs[|txs| - 1])
  }

  function EmptyDb(): Db {
    Db(map[], [], Outboxes.Empty(), [])
  }
}
