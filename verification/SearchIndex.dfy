/** The product repository's transactions and the search index that is fed from their outbox. */
module SearchIndex {
  import opened Events
  import opened ProductDb
  import Outboxes

  // ------------------------------------------------ the writer

  /** The statement of a product transaction that returns an error, if any. */
  datatype TxFault = NoFault | BeginFails | StatementFails | PayloadFails | OutboxFails | CommitFails

  class ProductRepository {
    var products: map<ProductId, Product>
    var outbox: Outboxes.Outbox<Message>

    constructor ()
      ensures products == map[] && outbox == Outboxes.Empty()
    {
      products, outbox := map[], Outboxes.Empty();
    }

    /** The database as a value; this repository never touches the stock consumer's tables. */
    ghost function View(): Db
      reads this
    {
      Db(products, [], outbox, [])
    }

    /** `id` is the key the database generates. */
    method CreateProduct(id: ProductId, product: Product, fault: TxFault) returns (created: Option<Product>)
      modifies this
      ensures created.Some? <==> fault == NoFault && Accepted(old(products), Create(id, product))
      ensures created.Some? ==> id in products && created.value == products[id]
      ensures View() == if created.Some? then CatalogueTx(old(View()), Create(id, product)) else old(View())
    {
      if fault.BeginFails? || fault.StatementFails? || id in products || product.stock < 0 {
        return None;
      }
      var products0, outbox0 := products, outbox;
      products := products[id := product];
      if fault.PayloadFails? || fault.OutboxFails? {
        products := products0;
        return None;
      }
      outbox := Outboxes.InsertRow(outbox, ProductChanged(Created, PayloadOf(id, products[id])));
      if fault.CommitFails? {
        products, outbox := products0, outbox0;
        return None;
      }
      created := Some(products[id]);
    }

    method UpdateProduct(id: ProductId, product: Product, fault: TxFault) returns (updated: Option<Product>)
      modifies this
      ensures updated.Some? <==> fault == NoFault && Accepted(old(products), Update(id, product))
      ensures updated.Some? ==> id in products && updated.value == products[id]
      ensures View() == if updated.Some? then CatalogueTx(old(View()), Update(id, product)) else old(View())
    {
      if fault.BeginFails? || fault.StatementFails? || id !in products || product.stock < 0 {
        return None;
      }
      var products0, outbox0 := products, outbox;
      products := products[id := product];
      if fault.PayloadFails? || fault.OutboxFails? {
        products := products0;
        return None;
      }
      outbox := Outboxes.InsertRow(outbox, ProductChanged(Updated, PayloadOf(id, products[id])));
      if fault.CommitFails? {
        products, outbox := products0, outbox0;
        return None;
      }
      updated := Some(products[id]);
    }

    /** Deleting a missing row succeeds and still writes its event. */
    method DeleteProduct(id: ProductId, fault: TxFault) returns (ok: bool)
      modifies this
      ensures ok <==> fault == NoFault
      ensures View() == if ok then CatalogueTx(old(View()), Delete(id)) else old(View())
    {
      if fault.BeginFails? || fault.StatementFails? {
        return false;
      }
      var products0, outbox0 := products, outbox;
      products := products - {id};
      if fault.PayloadFails? || fault.OutboxFails? {
        products := products0;
        return false;
      }
      outbox := Outboxes.InsertRow(outbox, ProductChanged(Deleted, Payload(id, None, "", "", 0, 0)));
      if fault.CommitFails? {
        products, outbox := products0, outbox0;
        return false;
      }
      ok := true;
    }
  }

  // ------------------------------------------------ the reader

  /** What becomes of one request to the document store: done; refused, by an error or an error status;
      or done although an error is reported. */
  datatype Outcome = Done | Refused | ReplyLost

  type Docs = map<ProductId, Payload>

  /** Indexing overwrites, deleting a missing document changes nothing. */
  function Applied(docs: Docs, m: Message): Docs {
    match m
    case StockFailed(_) => docs               // goes to another exchange
    case ProductChanged(kind, payload) =>
      if kind.Deleted? then docs - {payload.id} else docs[payload.id := payload]
  }

  function Attempted(docs: Docs, m: Message, outcome: Outcome): Docs {
    if outcome.Refused? then docs else Applied(docs, m)
  }

  /** The document store answers 404, an error status, when the document to delete is missing. */
  predicate Settles(docs: Docs, kind: ChangeKind, payload: Payload, outcome: Outcome) {
    outcome.Done? && (kind.Deleted? ==> payload.id in docs)
  }

  class ProductEventsConsumer {
    var docs: Docs

    constructor ()
      ensures docs == map[]
    {
      docs := map[];
    }

    /** `body` is None when the message does not decode; `kind` is the routing key. */
    method HandleProductCreatedEvent(kind: ChangeKind, body: Option<Payload>, outcome: Outcome)
      returns (answer: Disposition)
      modifies this
      ensures body.None? ==> answer == DeadLetter && docs == old(docs)
      ensures body.Some? ==> docs == Attempted(old(docs), ProductChanged(kind, body.value), outcome)
      ensures body.Some? ==> answer == if Settles(old(docs), kind, body.value, outcome) then Ack else Requeue
    {
      if body.None? {
        return DeadLetter;
      }
      if kind != Deleted {
        answer := IndexProduct(body.value, outcome);
      } else {
        answer := DeleteProduct(body.value, outcome);
      }
    }

    method IndexProduct(payload: Payload, outcome: Outcome) returns (answer: Disposition)
      modifies this
      ensures docs == if outcome.Refused? then old(docs) else old(docs)[payload.id := payload]
      ensures answer == if outcome.Done? then Ack else Requeue
    {
      if outcome.Refused? {
        return Requeue;
      }
      docs := docs[payload.id := payload];
      answer := if outcome.ReplyLost? then Requeue else Ack;
    }

    method DeleteProduct(payload: Payload, outcome: Outcome) returns (answer: Disposition)
      modifies this
      ensures docs == if outcome.Refused? then old(docs) else old(docs) - {payload.id}
      ensures answer == if outcome.Done? && payload.id in old(docs) then Ack else Requeue
    {
      if outcome.Refused? {
        return Requeue;
      }
      var found := payload.id in docs;
      docs := docs - {payload.id};
      answer := if outcome.ReplyLost? || !found then Requeue else Ack;
    }
  }

  // ------------------------------------------------ the index follows the table

  function Bodies(rows: seq<Outboxes.Row<Message>>): seq<Message> {
    seq(|rows|, i requires 0 <= i < |rows| => rows[i].body)
  }

  /** All deliveries of one message, one after the other. */
  function Redelivered(docs: Docs, m: Message, outcomes: seq<Outcome>): Docs {
    if outcomes == [] then docs else
      Attempted(Redelivered(docs, m, outcomes[..|outcomes| - 1]), m, outcomes[|outcomes| - 1])
  }

  /** The consumer works through these messages; `outcomes[i]` are all the deliveries of the i-th. */
  function Replay(messages: seq<Message>, outcomes: seq<seq<Outcome>>): Docs
    requires |messages| == |outcomes|
  {
    if messages == [] then map[] else
      var n := |messages| - 1;
      Redelivered(Replay(messages[..n], outcomes[..n]), messages[n], outcomes[n])
  }

  predicate Effective(outcomes: seq<Outcome>) {
    exists i :: 0 <= i < |outcomes| && !outcomes[i].Refused?
  }

  /** What a search result is made of. */
  datatype Listing = Listing(id: ProductId, name: string, description: string, price: int)

  function TableListings(products: map<ProductId, Product>): map<ProductId, Listing> {
    map p | p in products :: Listing(p, products[p].name, products[p].description, products[p].price)
  }

  function IndexListings(docs: Docs): map<ProductId, Listing> {
    map p | p in docs :: Listing(docs[p].id, docs[p].name, docs[p].description, docs[p].price)
  }

  /** Applying an event again changes nothing, so repeats and failed attempts do not matter. */
  lemma {:induction false} RepeatsDoNotMatter(docs: Docs, m: Message, outcomes: seq<Outcome>)
    ensures Redelivered(docs, m, outcomes) == if Effective(outcomes) then Applied(docs, m) else docs
  {
    if outcomes != [] {
      var n := |outcomes| - 1;
      RepeatsDoNotMatter(docs, m, outcomes[..n]);
      if Effective(outcomes) {
        var i :| 0 <= i < |outcomes| && !outcomes[i].Refused?;
        if i < n {
          assert !outcomes[..n][i].Refused?;
        }
      }
      if Effective(outcomes[..n]) {
        var i :| 0 <= i < n && !outcomes[..n][i].Refused?;
        assert !outcomes[i].Refused?;
      }
    }
  }

  lemma {:induction false} AppliedListings(docs: Docs, products: map<ProductId, Product>, op: CatalogueOp)
    requires IndexListings(docs) == TableListings(products) && !op.ClearCategory? && Accepted(products, op)
    ensures IndexListings(Applied(docs, ChangeEvent(op))) == TableListings(Written(products, op))
  {
    var docs', products' := Applied(docs, ChangeEvent(op)), Written(products, op);
    forall p ensures p in docs' <==> p in products' {
      assert p in IndexListings(docs) <==> p in TableListings(products);
    }
    forall p | p in docs' ensures IndexListings(docs')[p] == TableListings(products')[p] {
      assert p in docs ==> IndexListings(docs)[p] == TableListings(products)[p];
    }
  }

  lemma {:induction false} SilentWriters(db: Db, tx: Transaction)
    requires tx.Sale? || tx.op.ClearCategory?
    ensures TableListings(TransactionNext(db, tx).products) == TableListings(db.products)
  {
    hide Taken;
  }

  lemma {:induction false} RowsAppended(db: Db, tx: Transaction)
    ensures var rows, rows' := db.outbox.rows, TransactionNext(db, tx).outbox.rows;
            |rows| <= |rows'| <= |rows| + 1 && rows'[..|rows|] == rows
  {
    hide Affected, Decremented, Written, Accepted;
  }

  /** The event of a transaction turns the index of the old table into that of the new one. */
  lemma {:induction false} StepFollowed(db: Db, tx: Transaction, docs: Docs)
    requires IndexListings(docs) == TableListings(db.products)
    ensures var rows, rows' := db.outbox.rows, TransactionNext(db, tx).outbox.rows;
            IndexListings(if |rows'| <= |rows| then docs else Applied(docs, rows'[|rows|].body))
            == TableListings(TransactionNext(db, tx).products)
  {
    hide Affected, Decremented, IndexListings, TableListings, Written, Accepted;
    if tx.Sale? || tx.op.ClearCategory? {
      SilentWriters(db, tx);
    } else if Accepted(db.products, tx.op) {
      AppliedListings(docs, db.products, tx.op);
    }
  }

  /** After any history of committed and rejected product transactions, with stock updates and category
      deletions in between, working through the outbox rows in commit order gives exactly the table's id,
      name, description and price of every product, and no other document; whatever repeats or fails. */
  lemma {:induction false} IndexIsTheTable(txs: seq<Transaction>, outcomes: seq<seq<Outcome>>)
    requires |outcomes| == |After(EmptyDb(), txs).outbox.rows|
         && forall i :: 0 <= i < |outcomes| ==> Effective(outcomes[i])
    ensures IndexListings(Replay(Bodies(After(EmptyDb(), txs).outbox.rows), outcomes))
         == TableListings(After(EmptyDb(), txs).products)
  {
    hide TransactionNext, IndexListings, TableListings, Effective, Applied, Redelivered;
    if txs == [] {
      NothingListed();
    } else {
      var init, last := txs[..|txs| - 1], txs[|txs| - 1];
      var db := After(EmptyDb(), init);
      var n := |db.outbox.rows|;
      RowsAppended(db, last);
      IndexIsTheTable(init, outcomes[..n]);
      var docs := Replay(Bodies(db.outbox.rows), outcomes[..n]);
      StepFollowed(db, last, docs);
      var bodies := Bodies(After(EmptyDb(), txs).outbox.rows);
      assert bodies[..n] == Bodies(db.outbox.rows);
      if |bodies| == n {
        assert bodies == Bodies(db.outbox.rows) && outcomes == outcomes[..n];
      } else {
        RepeatsDoNotMatter(docs, bodies[n], outcomes[n]);
      }
    }
  }

  lemma {:induction false} NothingListed()
    ensures IndexListings(map[]) == TableListings(map[])
  {
  }

  /** Worked through in the order of the rows, the first k of them give the table as it was after some earlier
      transaction.  What the relayer sends need not come in that order. */
  lemma {:induction false} IndexIsAPastTable(txs: seq<Transaction>, k: nat, outcomes: seq<seq<Outcome>>)
    requires k == |outcomes| <= |After(EmptyDb(), txs).outbox.rows| && forall i :: 0 <= i < k ==> Effective(outcomes[i])
    ensures exists j :: 0 <= j <= |txs| && |After(EmptyDb(), txs[..j]).outbox.rows| == k
              && IndexListings(Replay(Bodies(After(EmptyDb(), txs).outbox.rows)[..k], outcomes))
                 == TableListings(After(EmptyDb(), txs[..j]).products)
  {
    hide TransactionNext, IndexListings, TableListings, Effective, Replay, Bodies;
    var rows := After(EmptyDb(), txs).outbox.rows;
    if k == |rows| {
      IndexIsTheTable(txs, outcomes);
      assert txs[..|txs|] == txs;
      assert Bodies(rows)[..k] == Bodies(rows) by { BodiesCut(rows, k); }
    } else {
      NoRowsYet(txs);
      var init := txs[..|txs| - 1];
      RowsAppended(After(EmptyDb(), init), txs[|txs| - 1]);
      assert rows == TransactionNext(After(EmptyDb(), init), txs[|txs| - 1]).outbox.rows;
      BodiesCut(rows, k);
      BodiesCut(After(EmptyDb(), init).outbox.rows, k);
      IndexIsAPastTable(init, k, outcomes);
      var j :| 0 <= j <= |init| && |After(EmptyDb(), init[..j]).outbox.rows| == k
               && IndexListings(Replay(Bodies(After(EmptyDb(), init).outbox.rows)[..k], outcomes))
                  == TableListings(After(EmptyDb(), init[..j]).products);
      assert init[..j] == txs[..j];
      assert rows[..k] == After(EmptyDb(), init).outbox.rows[..k];
    }
  }

  lemma {:induction false} BodiesCut(rows: seq<Outboxes.Row<Message>>, k: nat)
    requires k <= |rows|
    ensures |Bodies(rows)| == |rows| && Bodies(rows)[..k] == Bodies(rows[..k])
  {
    assert forall i :: 0 <= i < k ==> rows[..k][i] == rows[i];
  }

  lemma {:induction false} NoRowsYet(txs: seq<Transaction>)
    ensures txs == [] ==> After(EmptyDb(), txs).outbox.rows == []
  {
  }

  // ------------------------------------------------ messages in any order

  /** The documents after these messages, each applied once. */
  function Consumed(messages: seq<Message>): Docs {
    if messages == [] then map[] else
      Applied(Consumed(messages[..|messages| - 1]), messages[|messages| - 1])
  }

  predicate About(m: Message, p: ProductId) {
    m.ProductChanged? && m.payload.id == p
  }

  /** The last of these messages about product p. */
  function LastAbout(messages: seq<Message>, p: ProductId): Option<Message> {
    if messages == [] then None else
      var n := |messages| - 1;
      if About(messages[n], p) then Some(messages[n]) else LastAbout(messages[..n], p)
  }

  /** What a search shows after this message about a product; None when it deletes it, or without one. */
  function Shown(m: Option<Message>): Option<Listing> {
    if m.None? || m.value.StockFailed? || m.value.kind.Deleted? then None
    else
      var p := m.value.payload;
      Some(Listing(p.id, p.name, p.description, p.price))
  }

  lemma {:induction false} ReplayIsConsumed(messages: seq<Message>, outcomes: seq<seq<Outcome>>)
    requires |outcomes| == |messages| && forall i :: 0 <= i < |outcomes| ==> Effective(outcomes[i])
    ensures Replay(messages, outcomes) == Consumed(messages)
  {
    hide Applied, Redelivered, Effective;
    if messages != [] {
      var n := |messages| - 1;
      ReplayIsConsumed(messages[..n], outcomes[..n]);
      RepeatsDoNotMatter(Consumed(messages[..n]), messages[n], outcomes[n]);
    }
  }

  /** The index shows of each product what the last message about it shows. */
  lemma {:induction false} LastMessageShows(messages: seq<Message>, p: ProductId)
    ensures var listings := IndexListings(Consumed(messages));
            && (p in listings <==> Shown(LastAbout(messages, p)).Some?)
            && (p in listings ==> Some(listings[p]) == Shown(LastAbout(messages, p)))
  {
    if messages != [] {
      LastMessageShows(messages[..|messages| - 1], p);
    }
  }

  /** The last message about the product shows the same in both. */
  predicate EndAlike(a: seq<Message>, b: seq<Message>, p: ProductId) {
    Shown(LastAbout(a, p)) == Shown(LastAbout(b, p))
  }

  predicate SameAt(a: map<ProductId, Listing>, b: map<ProductId, Listing>, p: ProductId) {
    (p in a <==> p in b) && (p in a && p in b ==> a[p] == b[p])
  }

  lemma {:induction false} SameEverywhere(a: map<ProductId, Listing>, b: map<ProductId, Listing>)
    ensures a == b <==> forall p :: SameAt(a, b, p)
  {
    if forall p :: SameAt(a, b, p) {
      forall p ensures p in a <==> p in b {
        assert SameAt(a, b, p);
      }
      forall p | p in a ensures a[p] == b[p] {
        assert SameAt(a, b, p);
      }
    }
  }

  lemma {:induction false} EndAlikeSameAt(a: seq<Message>, b: seq<Message>, p: ProductId)
    ensures EndAlike(a, b, p) <==> SameAt(IndexListings(Consumed(a)), IndexListings(Consumed(b)), p)
  {
    hide Consumed, LastAbout, Shown, IndexListings;
    LastMessageShows(a, p);
    LastMessageShows(b, p);
  }

  /** Two lists of messages give the same index if and only if they end alike for every product. */
  lemma {:induction false} SameLastMessages(a: seq<Message>, b: seq<Message>)
    ensures IndexListings(Consumed(a)) == IndexListings(Consumed(b)) <==> forall p :: EndAlike(a, b, p)
  {
    hide Consumed, IndexListings, EndAlike, SameAt;
    SameEverywhere(IndexListings(Consumed(a)), IndexListings(Consumed(b)));
    forall p ensures EndAlike(a, b, p) <==> SameAt(IndexListings(Consumed(a)), IndexListings(Consumed(b)), p) {
      EndAlikeSameAt(a, b, p);
    }
    if forall p :: EndAlike(a, b, p) {
      assert forall p :: SameAt(IndexListings(Consumed(a)), IndexListings(Consumed(b)), p);
    }
  }

  // ------------------------------------------------ the whole document

  /** What the last create or update of the product in this history wrote; None without one, or when the product
      has been deleted since.  A rejected transaction writes nothing. */
  function LastWritten(txs: seq<Transaction>, p: ProductId): Option<Product> {
    if txs == [] then None
    else
      var init, last := txs[..|txs| - 1], txs[|txs| - 1];
      if last.Sale? || last.op.ClearCategory? || last.op.id != p || !Accepted(After(EmptyDb(), init).products, last.op)
      then LastWritten(init, p)
      else if last.op.Delete? then None
      else Some(last.op.product)
  }

  lemma {:induction false} EventShows(db: Db, tx: Transaction, docs: Docs, p: ProductId)
    ensures var rows, rows' := db.outbox.rows, TransactionNext(db, tx).outbox.rows;
            var docs' := if |rows'| <= |rows| then docs else Applied(docs, rows'[|rows|].body);
            if tx.Sale? || tx.op.ClearCategory? || tx.op.id != p || !Accepted(db.products, tx.op)
            then (p in docs' <==> p in docs) && (p in docs ==> docs'[p] == docs[p])
            else if tx.op.Delete? then p !in docs'
            else
              var w := tx.op.product;
              p in docs' && docs'[p] == Payload(p, w.category, w.name, w.description, w.price, w.stock)
  {
    hide Affected, Decremented, Written, Accepted;
  }

  /** After any history the document of a product is, category and stock included, what the last create or update
      of it wrote, whatever orders and deleted categories have made of the row since. */
  lemma {:induction false} DocumentIsLastWrite(txs: seq<Transaction>, p: ProductId)
    ensures var docs := Consumed(Bodies(After(EmptyDb(), txs).outbox.rows));
            && (p in docs <==> LastWritten(txs, p).Some?)
            && (p in docs ==>
                  var w := LastWritten(txs, p).value;
                  docs[p] == Payload(p, w.category, w.name, w.description, w.price, w.stock))
  {
    hide TransactionNext, Accepted, Applied;
    if txs != [] {
      var init, last := txs[..|txs| - 1], txs[|txs| - 1];
      var db := After(EmptyDb(), init);
      var n := |db.outbox.rows|;
      DocumentIsLastWrite(init, p);
      RowsAppended(db, last);
      EventShows(db, last, Consumed(Bodies(db.outbox.rows)), p);
      var bodies := Bodies(After(EmptyDb(), txs).outbox.rows);
      assert bodies[..n] == Bodies(db.outbox.rows);
      assert |bodies| == n ==> bodies == Bodies(db.outbox.rows);
    }
  }

  // ------------------------------------------------ a repeated delete

  /** One delivery of a product message. */
  datatype Delivery = Delivery(kind: ChangeKind, payload: Payload, outcome: Outcome)

  function AfterDeliveries(docs: Docs, deliveries: seq<Delivery>): Docs {
    if deliveries == [] then docs else
      var d := deliveries[|deliveries| - 1];
      Attempted(AfterDeliveries(docs, deliveries[..|deliveries| - 1]), ProductChanged(d.kind, d.payload), d.outcome)
  }

  /** The last of these deliveries that had an effect on the product indexed it. */
  predicate Reindexed(deliveries: seq<Delivery>, id: ProductId) {
    if deliveries == [] then false else
      var d := deliveries[|deliveries| - 1];
      if d.payload.id == id && !d.outcome.Refused? then !d.kind.Deleted?
      else Reindexed(deliveries[..|deliveries| - 1], id)
  }

  /** A delete that has taken effect settles at a later delivery exactly if that request succeeds and the
      product has been indexed anew in between; otherwise it is requeued and changes nothing. */
  lemma {:induction false} RepeatedDeleteSettles(docs: Docs, payload: Payload, first: Outcome,
        between: seq<Delivery>, again: Outcome)
    requires !first.Refused?
    ensures var docs' := AfterDeliveries(Attempted(docs, ProductChanged(Deleted, payload), first), between);
            && (Settles(docs', Deleted, payload, again) <==> again.Done? && Reindexed(between, payload.id))
            && (!Reindexed(between, payload.id) ==> Attempted(docs', ProductChanged(Deleted, payload), again) == docs')
  {
    if between != [] {
      RepeatedDeleteSettles(docs, payload, first, between[..|between| - 1], again);
    }
  }
}
