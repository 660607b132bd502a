/** The product service's Redis cache: converter, single read and batch read. */
module ProductCache {
  import opened Events
  import opened ProductDb
  import opened Decimals

  datatype Timestamp = Timestamp(seconds: int, nanos: nat)

  /** A products row with its timestamps, and the same row under its key. */
  datatype Row = Row(product: Product, createdAt: Timestamp, updatedAt: Option<Timestamp>)

  datatype Stored = Stored(id: ProductId, row: Row)

  datatype GrpcProduct = GrpcProduct(
    id: string, categoryId: string, name: string, description: string, price: int, stock: int,
    createdAt: Timestamp, updatedAt: Option<Timestamp>)

  /** Decimal numerals stand for UUID texts: one canonical text per identifier, several that scan to it. */
  function IdText(id: ProductId): string {
    FormatNat(id)
  }

  function ScanId(text: string): Option<ProductId> {
    ParseNat(text)
  }

  function ToGrpcProduct(stored: Stored): GrpcProduct {
    var p := stored.row.product;
    GrpcProduct(IdText(stored.id), if p.category.Some? then IdText(p.category.value) else "",
                p.name, p.description, p.price, p.stock, stored.row.createdAt, stored.row.updatedAt)
  }

  // ------------------------------------------------ the converter

  datatype Field = FId | FCategoryId | FName | FDescription | FPrice | FStockQuantity | FCreatedAt | FUpdatedAt

  /** A Redis hash. */
  type Hash = map<Field, string>

  /** A missing timestamp counts as the epoch. */
  function UnixOf(t: Option<Timestamp>): int {
    if t.Some? then t.value.seconds else 0
  }

  function ProductToMap(p: GrpcProduct): Hash {
    map[FId := p.id, FCategoryId := p.categoryId, FName := p.name, FDescription := p.description,
        FPrice := FormatPrice(p.price), FStockQuantity := FormatInt(p.stock),
        FCreatedAt := FormatInt(p.createdAt.seconds), FUpdatedAt := FormatInt(UnixOf(p.updatedAt))]
  }

  /** A missing key reads as the empty string. */
  function Get(data: Hash, field: Field): string {
    if field in data then data[field] else ""
  }

  function MapToProduct(data: Hash): Option<GrpcProduct> {
    var price := ParsePrice(Get(data, FPrice));
    var stock := ParseInt(Get(data, FStockQuantity), 32);
    var createdAt, updatedAt := ParseInt(Get(data, FCreatedAt), 64), ParseInt(Get(data, FUpdatedAt), 64);
    if price.None? || stock.None? || createdAt.None? || updatedAt.None? then None
    else Some(GrpcProduct(Get(data, FId), Get(data, FCategoryId), Get(data, FName), Get(data, FDescription),
                          price.value, stock.value, Timestamp(createdAt.value, 0), Some(Timestamp(updatedAt.value, 0))))
  }

  /** What the cache keeps of a product: whole seconds, and an epoch for a missing update. */
  function Normalise(p: GrpcProduct): GrpcProduct {
    p.(createdAt := Timestamp(p.createdAt.seconds, 0), updatedAt := Some(Timestamp(UnixOf(p.updatedAt), 0)))
  }

  predicate InRange(p: GrpcProduct) {
    Fits(p.stock, 32) && Fits(p.createdAt.seconds, 64) && Fits(UnixOf(p.updatedAt), 64)
  }

  /** The round trip succeeds exactly for values within the column widths, and then loses nothing but the
      fractions of seconds and the difference between no update and an update at the epoch. */
  lemma {:induction false} ConverterRoundTrip(p: GrpcProduct)
    ensures MapToProduct(ProductToMap(p)) == if InRange(p) then Some(Normalise(p)) else None
    ensures Normalise(p) == p <==> p.createdAt.nanos == 0 && p.updatedAt.Some? && p.updatedAt.value.nanos == 0
  {
    hide Fits, ParseInt, ParsePrice, FormatInt, FormatPrice;
    PriceRoundTrip(p.price);
    IntRoundTrip(p.stock, 32);
    IntRoundTrip(p.createdAt.seconds, 64);
    IntRoundTrip(UnixOf(p.updatedAt), 64);
  }

  // ------------------------------------------------ what a message says of a row

  /** The message names the row by its canonical identifier text and carries its values, field by field. */
  predicate ShowsRow(p: GrpcProduct, stored: Stored) {
    var row := stored.row.product;
    && p.id == IdText(stored.id) && ScanId(p.id) == Some(stored.id)
    && p.categoryId == (if row.category.Some? then IdText(row.category.value) else "")
    && (row.category.Some? ==> ScanId(p.categoryId) == row.category)
    && p.name == row.name && p.description == row.description
    && p.price == row.price && p.stock == row.stock
  }

  /** As read from the table: with the row's timestamps. */
  predicate ShowsFresh(p: GrpcProduct, stored: Stored) {
    ShowsRow(p, stored) && p.createdAt == stored.row.createdAt && p.updatedAt == stored.row.updatedAt
  }

  /** As read from the cache: whole seconds, and the epoch for a missing update. */
  predicate ShowsCached(p: GrpcProduct, stored: Stored) {
    && ShowsRow(p, stored)
    && p.createdAt == Timestamp(stored.row.createdAt.seconds, 0)
    && p.updatedAt == Some(Timestamp(if stored.row.updatedAt.Some? then stored.row.updatedAt.value.seconds else 0, 0))
  }

  /** The message made from a row is the one that shows it, and the converter makes it the one that shows it as
      cached. */
  lemma {:induction false} RowShown(stored: Stored, p: GrpcProduct)
    ensures p == ToGrpcProduct(stored) <==> ShowsFresh(p, stored)
    ensures p == Normalise(ToGrpcProduct(stored)) <==> ShowsCached(p, stored)
  {
    hide FormatNat, ParseNat;
    NatRoundTrip(stored.id);
    if stored.row.product.category.Some? {
      NatRoundTrip(stored.row.product.category.value);
    }
  }

  // ------------------------------------------------ looking into the cache

  type Cache = map<string, Hash>

  datatype Probe = Hit(product: GrpcProduct) | Undecodable | Miss

  function Probed(cache: Cache, key: string): Probe {
    if key !in cache || cache[key] == map[] then Miss
    else match MapToProduct(cache[key])
      case None => Undecodable
      case Some(p) => Hit(p)
  }

  /** No entry, or an empty one, is a miss; an entry with one of its four numbers unreadable does not decode. */
  lemma {:induction false} ProbedExactly(cache: Cache, key: string)
    ensures Probed(cache, key).Miss? <==> key !in cache || cache[key] == map[]
    ensures Probed(cache, key).Undecodable?
       <==> key in cache && cache[key] != map[]
            && (ParsePrice(Get(cache[key], FPrice)).None? || ParseInt(Get(cache[key], FStockQuantity), 32).None?
                || ParseInt(Get(cache[key], FCreatedAt), 64).None? || ParseInt(Get(cache[key], FUpdatedAt), 64).None?)
  {
    hide ParsePrice, ParseInt;
  }

  function Hits(cache: Cache, ids: seq<string>): seq<GrpcProduct> {
    if ids == [] then [] else
      var n := |ids| - 1;
      var probe := Probed(cache, ids[n]);
      Hits(cache, ids[..n]) + if probe.Hit? then [probe.product] else []
  }

  function Missed(cache: Cache, ids: seq<string>): seq<string> {
    if ids == [] then [] else
      var n := |ids| - 1;
      Missed(cache, ids[..n]) + if Probed(cache, ids[n]).Miss? then [ids[n]] else []
  }

  lemma {:induction false} MissedExactly(cache: Cache, ids: seq<string>, text: string)
    ensures text in Missed(cache, ids) <==> text in ids && Probed(cache, text).Miss?
  {
    hide Probed;
    if ids != [] {
      MissedExactly(cache, ids[..|ids| - 1], text);
    }
  }

  /** SELECT ... WHERE id = ANY(ids), in the table's order. */
  function Select(rows: seq<Stored>, ids: seq<ProductId>): seq<Stored> {
    if rows == [] then [] else
      var n := |rows| - 1;
      Select(rows[..n], ids) + if rows[n].id in ids then [rows[n]] else []
  }

  function ToGrpcProducts(rows: seq<Stored>): seq<GrpcProduct> {
    seq(|rows|, i requires 0 <= i < |rows| => ToGrpcProduct(rows[i]))
  }

  predicate AllScan(ids: seq<string>) {
    forall i :: 0 <= i < |ids| ==> ScanId(ids[i]).Some?
  }

  function Scanned(ids: seq<string>): seq<ProductId>
    requires AllScan(ids)
  {
    seq(|ids|, i requires 0 <= i < |ids| => ScanId(ids[i]).value)
  }

  predicate UniqueKeys(rows: seq<Stored>) {
    forall i, j :: 0 <= i < j < |rows| ==> rows[i].id != rows[j].id
  }

  datatype ReadResult = Found(product: GrpcProduct) | NotFound | InvalidId | Internal

  /** A cache write that is still to be done, by a goroutine of its own. */
  datatype Fill = Fill(key: string, product: GrpcProduct)

  class GRPCServer {
    var rows: seq<Stored>
    var cache: Cache

    constructor (rows: seq<Stored>)
      ensures this.rows == rows && cache == map[]
    {
      this.rows, cache := rows, map[];
    }

    /** HSET keeps fields that the new map lacks; there are none. */
    method CacheProduct(key: string, product: GrpcProduct, fails: bool) returns (ok: bool)
      modifies this`cache
      ensures ok == !fails
      ensures cache == if fails then old(cache) else old(cache)[key := ProductToMap(product)]
    {
      if fails {
        return false;
      }
      var before := if key in cache then cache[key] else map[];
      AllFieldsWritten(before, product);
      cache := cache[key := before + ProductToMap(product)];
      ok := true;
    }

    method DeleteProductCache(key: string, fails: bool) returns (ok: bool)
      modifies this`cache
      ensures ok == !fails
      ensures cache == if fails then old(cache) else old(cache) - {key}
    {
      if fails {
        return false;
      }
      cache := cache - {key};
      ok := true;
    }

    /** Cache first; an undecodable entry falls through to the table. */
    method GetProduct(reqId: string, redisFails: bool, dbFails: bool) returns (result: ReadResult, fill: Option<Fill>)
      requires UniqueKeys(rows)
      ensures !redisFails && Probed(cache, reqId).Hit? ==> result == Found(Probed(cache, reqId).product) && fill == None
      ensures redisFails || !Probed(cache, reqId).Hit? ==>
                match result
                case InvalidId => ScanId(reqId).None?
                case Internal => ScanId(reqId).Some? && dbFails
                case NotFound =>
                  ScanId(reqId).Some? && !dbFails && forall k :: 0 <= k < |rows| ==> rows[k].id != ScanId(reqId).value
                case Found(p) =>
                  ScanId(reqId).Some? && !dbFails
                  && exists k :: 0 <= k < |rows| && rows[k].id == ScanId(reqId).value && ShowsFresh(p, rows[k])
      ensures redisFails || !Probed(cache, reqId).Hit? ==>
                fill == if result.Found? then Some(Fill(reqId, result.product)) else None
    {
      if !redisFails && reqId in cache && cache[reqId] != map[] {
        var product := MapToProduct(cache[reqId]);
        if product.Some? {
          return Found(product.value), None;
        }
      }
      var uid := ScanId(reqId);
      if uid.None? {
        return InvalidId, None;
      }
      if dbFails {
        return Internal, None;
      }
      for i := 0 to |rows|
        invariant forall k :: 0 <= k < i ==> rows[k].id != uid.value
      {
        if rows[i].id == uid.value {
          var product := ToGrpcProduct(rows[i]);
          RowShown(rows[i], product);
          return Found(product), Some(Fill(reqId, product));
        }
      }
      return NotFound, None;
    }

    method GetProductsFromCache(ids: seq<string>, pipelineFails: bool)
      returns (products: seq<GrpcProduct>, missedIds: seq<string>)
      ensures products == if pipelineFails then [] else Hits(cache, ids)
      ensures missedIds == if pipelineFails then ids else Missed(cache, ids)
    {
      products, missedIds := [], [];
      if pipelineFails {
        return products, ids;
      }
      for i := 0 to |ids|
        invariant products == Hits(cache, ids[..i]) && missedIds == Missed(cache, ids[..i])
      {
        assert ids[..i + 1][..i] == ids[..i];
        if ids[i] in cache && cache[ids[i]] != map[] {
          var product := MapToProduct(cache[ids[i]]);
          if product.Some? {
            products := products + [product.value];
          }
        } else {
          missedIds := missedIds + [ids[i]];
        }
      }
      assert ids[..|ids|] == ids;
    }

    method ConvertToUUIDs(ids: seq<string>) returns (uuids: Option<seq<ProductId>>)
      ensures uuids.Some? <==> AllScan(ids)
      ensures uuids.Some? ==> uuids.value == Scanned(ids)
    {
      var converted := new ProductId[|ids|](_ => 0);
      for i := 0 to |ids|
        invariant AllScan(ids[..i]) && converted[..i] == Scanned(ids[..i])
      {
        var uid := ScanId(ids[i]);
        if uid.None? {
          return None;
        }
        converted[i] := uid.value;
        assert ids[..i + 1] == ids[..i] + [ids[i]];
      }
      assert ids[..|ids|] == ids;
      return Some(converted[..]);
    }

    method GetProductsFromDB(missedIds: seq<string>, dbFails: bool) returns (products: Option<seq<GrpcProduct>>)
      ensures products.Some? <==> AllScan(missedIds) && !dbFails
      ensures products.Some? ==> products.value == FromDB(rows, missedIds)
      ensures products.Some? ==> forall p :: p in products.value <==> FreshRow(rows, Scanned(missedIds), p)
    {
      var uuids := ConvertToUUIDs(missedIds);
      if uuids.None? || dbFails {
        return None;
      }
      var found := Select(rows, uuids.value);
      var converted := [];
      for i := 0 to |found|
        invariant converted == ToGrpcProducts(found[..i])
      {
        converted := converted + [ToGrpcProduct(found[i])];
      }
      assert found[..|found|] == found;
      forall p ensures p in converted <==> FreshRow(rows, Scanned(missedIds), p) {
        TableReadExactly(rows, missedIds, p);
      }
      products := Some(converted);
    }

    /** The cache writes it starts in the background. */
    method CacheProducts(products: seq<GrpcProduct>) returns (fills: seq<Fill>)
      ensures fills == FillsFor(products) && |fills| == |products|
      ensures forall i :: 0 <= i < |fills| ==> fills[i].key == products[i].id && fills[i].product == products[i]
    {
      fills := [];
      for i := 0 to |products|
        invariant fills == FillsFor(products[..i])
      {
        fills := fills + [Fill(products[i].id, products[i])];
      }
      assert products[..|products|] == products;
    }

    method GetProductsByIDs(ids: seq<string>, pipelineFails: bool, dbFails: bool)
      returns (response: Option<seq<GrpcProduct>>, fills: seq<Fill>)
      ensures var missed := MissedIds(cache, ids, pipelineFails);
              && (response.Some? <==> missed == [] || (AllScan(missed) && !dbFails))
              && (response.Some? ==> AllScan(missed) && response.value == BatchResult(rows, cache, ids, pipelineFails))
              && fills == if response.Some? then FillsFor(FromDB(rows, missed)) else []
    {
      NoneSelected(rows);
      fills := [];
      if |ids| == 0 {
        assert ids == [];
        return Some([]), [];
      }
      var products, missedIds := GetProductsFromCache(ids, pipelineFails);
      if |missedIds| == 0 {
        return Some(products), [];
      }
      var dbProducts := GetProductsFromDB(missedIds, dbFails);
      if dbProducts.None? {
        return None, [];
      }
      response := Some(products + dbProducts.value);
      fills := CacheProducts(dbProducts.value);
    }
  }

  function FillsFor(products: seq<GrpcProduct>): seq<Fill> {
    seq(|products|, i requires 0 <= i < |products| => Fill(products[i].id, products[i]))
  }

  function MissedIds(cache: Cache, ids: seq<string>, pipelineFails: bool): seq<string> {
    if pipelineFails then ids else Missed(cache, ids)
  }

  function FromDB(rows: seq<Stored>, missed: seq<string>): seq<GrpcProduct>
    requires AllScan(missed)
  {
    ToGrpcProducts(Select(rows, Scanned(missed)))
  }

  /** Cache hits first, then the rows of the missed identifiers. */
  function BatchResult(rows: seq<Stored>, cache: Cache, ids: seq<string>, pipelineFails: bool): seq<GrpcProduct>
    requires AllScan(MissedIds(cache, ids, pipelineFails))
  {
    (if pipelineFails then [] else Hits(cache, ids)) + FromDB(rows, MissedIds(cache, ids, pipelineFails))
  }

  lemma {:induction false} AllFieldsWritten(before: Hash, p: GrpcProduct)
    ensures before + ProductToMap(p) == ProductToMap(p)
  {
    forall f: Field ensures f in ProductToMap(p) {
      match f
      case FId => case FCategoryId => case FName => case FDescription =>
      case FPrice => case FStockQuantity => case FCreatedAt => case FUpdatedAt =>
    }
  }

  /** A row of one of these products, as read from the table. */
  predicate FreshRow(rows: seq<Stored>, uuids: seq<ProductId>, p: GrpcProduct) {
    exists k :: 0 <= k < |rows| && rows[k].id in uuids && ShowsFresh(p, rows[k])
  }

  lemma {:induction false} SelectExactly(rows: seq<Stored>, ids: seq<ProductId>, stored: Stored)
    ensures stored in Select(rows, ids) <==> stored in rows && stored.id in ids
  {
    if rows != [] {
      SelectExactly(rows[..|rows| - 1], ids, stored);
    }
  }

  /** The table read answers exactly the rows asked for, field by field. */
  lemma {:induction false} TableReadExactly(rows: seq<Stored>, missed: seq<string>, p: GrpcProduct)
    requires AllScan(missed)
    ensures p in FromDB(rows, missed) <==> FreshRow(rows, Scanned(missed), p)
  {
    hide Select, ShowsFresh, ToGrpcProduct, Scanned;
    var uuids := Scanned(missed);
    var found := Select(rows, uuids);
    if p in FromDB(rows, missed) {
      var j :| 0 <= j < |found| && p == ToGrpcProduct(found[j]);
      RowShown(found[j], p);
      SelectExactly(rows, uuids, found[j]);
      var k :| 0 <= k < |rows| && rows[k] == found[j];
    }
    if k :| 0 <= k < |rows| && rows[k].id in uuids && ShowsFresh(p, rows[k]) {
      RowShown(rows[k], p);
      SelectExactly(rows, uuids, rows[k]);
      var j :| 0 <= j < |found| && found[j] == rows[k];
      assert FromDB(rows, missed)[j] == p;
    }
  }

  lemma {:induction false} NoneSelected(rows: seq<Stored>)
    ensures Select(rows, []) == [] && FromDB(rows, []) == []
  {
    if rows != [] {
      NoneSelected(rows[..|rows| - 1]);
    }
  }
}
