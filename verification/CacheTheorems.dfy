/** The batch read against the products table, and what can ever be found in the cache. */
module CacheTheorems {
  import opened Events
  import opened ProductDb
  import opened Decimals
  import opened ProductCache

  // ------------------------------------------------ the batch read

  function Appearances(products: seq<GrpcProduct>, id: string): nat {
    if products == [] then 0 else
      var n := |products| - 1;
      Appearances(products[..n], id) + if products[n].id == id then 1 else 0
  }

  predicate HasRow(rows: seq<Stored>, id: ProductId) {
    exists k :: 0 <= k < |rows| && rows[k].id == id
  }

  predicate AskedAt(ids: seq<string>, id: ProductId, k: nat) {
    k < |ids| && ScanId(ids[k]) == Some(id)
  }

  predicate Asked(ids: seq<string>, id: ProductId) {
    exists k :: 0 <= k < |ids| && AskedAt(ids, id, k)
  }

  /** No product is asked for twice, under whichever spelling. */
  predicate DistinctIds(ids: seq<string>) {
    forall i, j :: 0 <= i < j < |ids| && ScanId(ids[i]).Some? ==> ScanId(ids[i]) != ScanId(ids[j])
  }

  /** The current row of some product, as it is or after the converter. */
  predicate CurrentVersion(rows: seq<Stored>, p: GrpcProduct) {
    exists k :: 0 <= k < |rows| && (ShowsFresh(p, rows[k]) || ShowsCached(p, rows[k]))
  }

  /** Each entry that decodes is the current row under a spelling of its key. */
  ghost predicate Agrees(cache: Cache, rows: seq<Stored>) {
    forall key :: Probed(cache, key).Hit? ==> AgreesAt(cache, rows, key)
  }

  ghost predicate AgreesAt(cache: Cache, rows: seq<Stored>, key: string)
    requires Probed(cache, key).Hit?
  {
    exists k :: 0 <= k < |rows| && ScanId(key) == Some(rows[k].id)
                && ShowsCached(Probed(cache, key).product, rows[k])
  }

  /** Asked for, but its entry is there and does not decode. */
  predicate Dropped(cache: Cache, ids: seq<string>, id: ProductId) {
    exists k :: 0 <= k < |ids| && AskedAt(ids, id, k) && Probed(cache, ids[k]).Undecodable?
  }

  predicate AskedHit(cache: Cache, ids: seq<string>, id: ProductId) {
    exists k :: 0 <= k < |ids| && AskedAt(ids, id, k) && Probed(cache, ids[k]).Hit?
  }

  predicate AskedMiss(cache: Cache, ids: seq<string>, id: ProductId) {
    exists k :: 0 <= k < |ids| && AskedAt(ids, id, k) && Probed(cache, ids[k]).Miss?
  }

  lemma {:induction false} AppearancesConcat(a: seq<GrpcProduct>, b: seq<GrpcProduct>, id: string)
    ensures Appearances(a + b, id) == Appearances(a, id) + Appearances(b, id)
  {
    if b == [] {
      assert a + b == a;
    } else {
      var n := |b| - 1;
      AppearancesConcat(a, b[..n], id);
      assert (a + b)[..|a + b| - 1] == a + b[..n];
    }
  }

  lemma {:induction false} AppearsAlone(p: GrpcProduct, id: string)
    ensures Appearances([p], id) == if p.id == id then 1 else 0
  {
    assert [p][..0] == [] && Appearances([], id) == 0;
  }

  lemma {:induction false} IdTextInjective(i: ProductId, j: ProductId)
    ensures ScanId(IdText(i)) == Some(i)
    ensures IdText(i) == IdText(j) <==> i == j
  {
    NatRoundTrip(i);
    NatRoundTrip(j);
  }

  /** What decodes under a key names the product the key scans to, current or not. */
  ghost predicate Names(cache: Cache) {
    forall key :: Probed(cache, key).Hit? ==>
      ScanId(key).Some? && Probed(cache, key).product.id == IdText(ScanId(key).value)
  }

  lemma {:induction false} HitNames(cache: Cache, key: string, id: ProductId)
    requires Names(cache) && Probed(cache, key).Hit?
    ensures Probed(cache, key).product.id == IdText(id) <==> ScanId(key) == Some(id)
  {
    hide Probed, ScanId, IdText;
    IdTextInjective(ScanId(key).value, id);
  }

  lemma {:induction false} AgreeingHit(cache: Cache, rows: seq<Stored>, key: string)
    requires Agrees(cache, rows) && Probed(cache, key).Hit?
    ensures ScanId(key).Some? && Probed(cache, key).product.id == IdText(ScanId(key).value)
    ensures HasRow(rows, ScanId(key).value)
  {
    hide Probed, MapToProduct, FormatNat, ParseNat;
    assert AgreesAt(cache, rows, key);
  }

  lemma {:induction false} AgreesNames(cache: Cache, rows: seq<Stored>)
    requires Agrees(cache, rows)
    ensures Names(cache)
  {
    hide Probed, Agrees, ScanId, IdText;
    forall key | Probed(cache, key).Hit?
      ensures ScanId(key).Some? && Probed(cache, key).product.id == IdText(ScanId(key).value)
    {
      AgreeingHit(cache, rows, key);
    }
  }

  /** The quantified facts about a request, when one more identifier is asked for. */
  lemma {:induction false} OneMoreAsked(cache: Cache, ids: seq<string>, last: string, id: ProductId)
    ensures var all, here := ids + [last], ScanId(last) == Some(id);
            && (AskedHit(cache, all, id) <==> AskedHit(cache, ids, id) || (here && Probed(cache, last).Hit?))
            && (AskedMiss(cache, all, id) <==> AskedMiss(cache, ids, id) || (here && Probed(cache, last).Miss?))
            && (Asked(all, id) <==> Asked(ids, id) || here)
            && (DistinctIds(all) ==> DistinctIds(ids) && (here ==> !Asked(ids, id)))
  {
    hide Probed, ScanId;
    var all := ids + [last];
    assert AskedAt(all, id, |ids|) <==> ScanId(last) == Some(id);
    assert forall k :: 0 <= k < |ids| ==> all[k] == ids[k];
    forall k | 0 <= k < |ids| ensures AskedAt(all, id, k) <==> AskedAt(ids, id, k) {
    }
    forall k | 0 <= k < |all| && AskedAt(all, id, k) ensures k == |ids| || AskedAt(ids, id, k) {
    }
  }

  lemma {:induction false} HitsAppear(cache: Cache, ids: seq<string>, id: ProductId)
    requires Names(cache) && DistinctIds(ids)
    ensures Appearances(Hits(cache, ids), IdText(id)) == if AskedHit(cache, ids, id) then 1 else 0
  {
    hide Names, Probed, ScanId, IdText, DistinctIds, AskedHit, AskedMiss, Asked;
    if ids == [] {
      NobodyAsked(cache, ids, id);
    } else {
      var n := |ids| - 1;
      assert ids == ids[..n] + [ids[n]];
      OneMoreAsked(cache, ids[..n], ids[n], id);
      HitsAppear(cache, ids[..n], id);
      var probe := Probed(cache, ids[n]);
      if probe.Hit? {
        HitNames(cache, ids[n], id);
        AppearancesConcat(Hits(cache, ids[..n]), [probe.product], IdText(id));
        AppearsAlone(probe.product, IdText(id));
        AskedHitAsked(cache, ids[..n], id);
      } else {
        assert Hits(cache, ids) == Hits(cache, ids[..n]);
      }
    }
  }

  lemma {:induction false} AskedHitAsked(cache: Cache, ids: seq<string>, id: ProductId)
    ensures AskedHit(cache, ids, id) || AskedMiss(cache, ids, id) ==> Asked(ids, id)
  {
  }

  lemma {:induction false} NobodyAsked(cache: Cache, ids: seq<string>, id: ProductId)
    requires ids == []
    ensures !AskedHit(cache, ids, id) && !AskedMiss(cache, ids, id) && !Asked(ids, id)
  {
  }

  lemma {:induction false} MissedAsked(cache: Cache, ids: seq<string>, id: ProductId)
    ensures Asked(Missed(cache, ids), id) <==> AskedMiss(cache, ids, id)
  {
    hide Probed, ScanId, AskedHit, AskedMiss, Asked;
    if ids == [] {
      NobodyAsked(cache, ids, id);
    } else {
      var n := |ids| - 1;
      assert ids == ids[..n] + [ids[n]];
      OneMoreAsked(cache, ids[..n], ids[n], id);
      MissedAsked(cache, ids[..n], id);
      OneMoreAsked(cache, Missed(cache, ids[..n]), ids[n], id);
      var before := Missed(cache, ids[..n]);
      assert Missed(cache, ids) == if Probed(cache, ids[n]).Miss? then before + [ids[n]] else before;
    }
  }

  lemma {:induction false} SelectAppears(rows: seq<Stored>, uuids: seq<ProductId>, id: ProductId)
    requires UniqueKeys(rows)
    ensures Appearances(ToGrpcProducts(Select(rows, uuids)), IdText(id))
         == if id in uuids && HasRow(rows, id) then 1 else 0
  {
    hide IdText;
    if rows != [] {
      var n := |rows| - 1;
      SelectAppears(rows[..n], uuids, id);
      IdTextInjective(rows[n].id, id);
      assert HasRow(rows, id) <==> HasRow(rows[..n], id) || rows[n].id == id by {
        if HasRow(rows, id) {
          var k :| 0 <= k < |rows| && rows[k].id == id;
          assert k < n ==> rows[..n][k].id == id;
        }
        if HasRow(rows[..n], id) {
          var k :| 0 <= k < n && rows[..n][k].id == id;
          assert rows[k].id == id;
        }
      }
      if rows[n].id in uuids {
        assert ToGrpcProducts(Select(rows, uuids))
             == ToGrpcProducts(Select(rows[..n], uuids)) + [ToGrpcProduct(rows[n])];
        AppearancesConcat(ToGrpcProducts(Select(rows[..n], uuids)), [ToGrpcProduct(rows[n])], IdText(id));
        AppearsAlone(ToGrpcProduct(rows[n]), IdText(id));
      } else {
        assert Select(rows, uuids) == Select(rows[..n], uuids);
      }
    }
  }

  lemma {:induction false} FromDBAppears(rows: seq<Stored>, missed: seq<string>, id: ProductId)
    requires UniqueKeys(rows) && AllScan(missed)
    ensures Appearances(FromDB(rows, missed), IdText(id)) == if Asked(missed, id) && HasRow(rows, id) then 1 else 0
  {
    hide Appearances, IdText;
    SelectAppears(rows, Scanned(missed), id);
    ScannedAsked(missed, id);
  }

  lemma {:induction false} HitsExactly(cache: Cache, ids: seq<string>, p: GrpcProduct)
    ensures p in Hits(cache, ids) <==> exists i :: 0 <= i < |ids| && Probed(cache, ids[i]) == Hit(p)
  {
    hide Probed;
    if ids != [] {
      var n := |ids| - 1;
      HitsExactly(cache, ids[..n], p);
      if i :| 0 <= i < |ids| && Probed(cache, ids[i]) == Hit(p) {
        assert i < n ==> ids[..n][i] == ids[i];
      }
      if i :| 0 <= i < n && Probed(cache, ids[..n][i]) == Hit(p) {
        assert ids[i] == ids[..n][i];
      }
    }
  }

  /** The answer consists of what decodes under an identifier asked for, and of the rows, field by field, of the
      products asked for under an identifier without an entry; under any identifier when the pipeline fails. */
  lemma {:induction false} BatchReadExactly(rows: seq<Stored>, cache: Cache, ids: seq<string>, pipelineFails: bool,
        p: GrpcProduct)
    requires AllScan(MissedIds(cache, ids, pipelineFails))
    ensures p in BatchResult(rows, cache, ids, pipelineFails)
       <==> (!pipelineFails && exists i :: 0 <= i < |ids| && Probed(cache, ids[i]) == Hit(p))
            || exists k :: 0 <= k < |rows| && ShowsFresh(p, rows[k])
                 && if pipelineFails then Asked(ids, rows[k].id) else AskedMiss(cache, ids, rows[k].id)
  {
    hide Probed, ScanId, Hits, Missed, FromDB, ShowsFresh, AskedMiss, Scanned;
    var missed := MissedIds(cache, ids, pipelineFails);
    TableReadExactly(rows, missed, p);
    HitsExactly(cache, ids, p);
    forall id
      ensures id in Scanned(missed) <==> if pipelineFails then Asked(ids, id) else AskedMiss(cache, ids, id)
    {
      ScannedAsked(missed, id);
      MissedAsked(cache, ids, id);
    }
  }

  lemma {:induction false} ScannedAsked(ids: seq<string>, id: ProductId)
    requires AllScan(ids)
    ensures id in Scanned(ids) <==> Asked(ids, id)
  {
    hide ScanId;
    if Asked(ids, id) {
      var k :| 0 <= k < |ids| && AskedAt(ids, id, k);
      assert Scanned(ids)[k] == id;
    }
    if id in Scanned(ids) {
      var k :| 0 <= k < |ids| && Scanned(ids)[k] == id;
      assert AskedAt(ids, id, k);
    }
  }

  /** The one position that asks for the product decides between cache and table. */
  lemma {:induction false} OneProbe(cache: Cache, ids: seq<string>, id: ProductId)
    requires DistinctIds(ids)
    ensures Asked(ids, id) <==> AskedHit(cache, ids, id) || AskedMiss(cache, ids, id) || Dropped(cache, ids, id)
    ensures !(AskedHit(cache, ids, id) && AskedMiss(cache, ids, id))
    ensures Dropped(cache, ids, id) ==> !AskedHit(cache, ids, id) && !AskedMiss(cache, ids, id)
  {
    hide Probed, ScanId;
    forall i, j | AskedAt(ids, id, i) && AskedAt(ids, id, j) ensures i == j {
    }
  }

  /** How often a product appears in the answer, for entries that may be stale: once if it was asked for and
      either exists or is served from the cache, unless its entry is there but does not decode; such an entry
      is neither a hit nor a miss. */
  lemma {:induction false} BatchReadCount(rows: seq<Stored>, cache: Cache, ids: seq<string>, pipelineFails: bool,
        id: ProductId)
    requires UniqueKeys(rows) && DistinctIds(ids) && Names(cache) && AllScan(MissedIds(cache, ids, pipelineFails))
    ensures Appearances(BatchResult(rows, cache, ids, pipelineFails), IdText(id)) ==
            if pipelineFails then (if Asked(ids, id) && HasRow(rows, id) then 1 else 0)
            else if AskedHit(cache, ids, id) || (Asked(ids, id) && HasRow(rows, id) && !Dropped(cache, ids, id)) then 1
            else 0
  {
    hide Appearances, IdText, Names, DistinctIds, Hits, Missed, FromDB, AskedHit, AskedMiss, Dropped, HasRow;
    var missed := MissedIds(cache, ids, pipelineFails);
    FromDBAppears(rows, missed, id);
    if pipelineFails {
      assert BatchResult(rows, cache, ids, pipelineFails) == FromDB(rows, missed);
    } else {
      AppearancesConcat(Hits(cache, ids), FromDB(rows, missed), IdText(id));
      HitsAppear(cache, ids, id);
      MissedAsked(cache, ids, id);
      OneProbe(cache, ids, id);
    }
  }

  lemma {:induction false} AskedHitExists(rows: seq<Stored>, cache: Cache, ids: seq<string>, id: ProductId)
    requires Agrees(cache, rows) && AskedHit(cache, ids, id)
    ensures HasRow(rows, id)
  {
    hide Probed, ScanId, Agrees, HasRow;
    var k :| 0 <= k < |ids| && AskedAt(ids, id, k) && Probed(cache, ids[k]).Hit?;
    AgreeingHit(cache, rows, ids[k]);
  }

  lemma {:induction false} HitsAreVersions(cache: Cache, rows: seq<Stored>, ids: seq<string>, j: nat)
    requires Agrees(cache, rows) && j < |Hits(cache, ids)|
    ensures CurrentVersion(rows, Hits(cache, ids)[j])
  {
    hide Probed, Agrees, CurrentVersion;
    var n := |ids| - 1;
    if j < |Hits(cache, ids[..n])| {
      assert Hits(cache, ids)[j] == Hits(cache, ids[..n])[j];
      HitsAreVersions(cache, rows, ids[..n], j);
    } else {
      assert Hits(cache, ids)[j] == Probed(cache, ids[n]).product;
      HitIsVersion(cache, rows, ids[n]);
    }
  }

  lemma {:induction false} HitIsVersion(cache: Cache, rows: seq<Stored>, key: string)
    requires Agrees(cache, rows) && Probed(cache, key).Hit?
    ensures CurrentVersion(rows, Probed(cache, key).product)
  {
    hide Probed, ShowsCached, ShowsFresh;
    assert AgreesAt(cache, rows, key);
    var k :| 0 <= k < |rows| && ShowsCached(Probed(cache, key).product, rows[k]);
  }

  lemma {:induction false} SelectedAreRows(rows: seq<Stored>, uuids: seq<ProductId>, j: nat)
    requires j < |Select(rows, uuids)|
    ensures Select(rows, uuids)[j] in rows
  {
    if j < |Select(rows[..|rows| - 1], uuids)| {
      SelectedAreRows(rows[..|rows| - 1], uuids, j);
    }
  }

  lemma {:induction false} ResultsAreVersions(rows: seq<Stored>, cache: Cache, ids: seq<string>,
        pipelineFails: bool, j: nat)
    requires Agrees(cache, rows) && AllScan(MissedIds(cache, ids, pipelineFails))
    requires j < |BatchResult(rows, cache, ids, pipelineFails)|
    ensures CurrentVersion(rows, BatchResult(rows, cache, ids, pipelineFails)[j])
  {
    hide Agrees, Hits, Missed, ToGrpcProduct, ShowsCached, ShowsFresh, Select, ScanId;
    var result := BatchResult(rows, cache, ids, pipelineFails);
    var missed := MissedIds(cache, ids, pipelineFails);
    var hits := if pipelineFails then [] else Hits(cache, ids);
    if j < |hits| {
      assert result[j] == hits[j];
      HitsAreVersions(cache, rows, ids, j);
    } else {
      SelectedAreRows(rows, Scanned(missed), j - |hits|);
      var k :| 0 <= k < |rows| && rows[k] == Select(rows, Scanned(missed))[j - |hits|];
      assert result[j] == ToGrpcProduct(rows[k]);
      RowShown(rows[k], result[j]);
    }
  }

  ghost predicate OnceEach(rows: seq<Stored>, ids: seq<string>, result: seq<GrpcProduct>, id: ProductId) {
    Appearances(result, IdText(id)) == if Asked(ids, id) && HasRow(rows, id) then 1 else 0
  }

  /** The batch read refines a read of the table: with distinct identifiers and entries that agree with the
      table, it returns each existing product asked for exactly once and no other, each as its current row up
      to the converter's normalisation, for every split into hits and misses and when the pipeline fails,
      exactly if no such product has an entry that does not decode. */
  lemma {:induction false} BatchReadRefinesTable(rows: seq<Stored>, cache: Cache, ids: seq<string>, pipelineFails: bool)
    requires UniqueKeys(rows) && DistinctIds(ids) && Agrees(cache, rows)
         && AllScan(MissedIds(cache, ids, pipelineFails))
    ensures forall p :: p in BatchResult(rows, cache, ids, pipelineFails) ==> CurrentVersion(rows, p)
    ensures (forall id :: OnceEach(rows, ids, BatchResult(rows, cache, ids, pipelineFails), id))
       <==> pipelineFails || forall id :: Asked(ids, id) && HasRow(rows, id) ==> !Dropped(cache, ids, id)
  {
    hide Appearances, IdText, Agrees, DistinctIds, BatchResult, Dropped, HasRow, CurrentVersion, Asked;
    hide AskedHit;
    hide AskedMiss, Names;
    AgreesNames(cache, rows);
    var result := BatchResult(rows, cache, ids, pipelineFails);
    forall p | p in result ensures CurrentVersion(rows, p) {
      var j :| 0 <= j < |result| && result[j] == p;
      ResultsAreVersions(rows, cache, ids, pipelineFails, j);
    }
    forall id
      ensures OnceEach(rows, ids, result, id)
         <==> pipelineFails || !(Asked(ids, id) && HasRow(rows, id) && Dropped(cache, ids, id))
    {
      BatchReadCount(rows, cache, ids, pipelineFails, id);
      OneProbe(cache, ids, id);
      if AskedHit(cache, ids, id) {
        AskedHitExists(rows, cache, ids, id);
      }
    }
    if pipelineFails || forall id :: Asked(ids, id) && HasRow(rows, id) ==> !Dropped(cache, ids, id) {
      assert forall id :: OnceEach(rows, ids, result, id);
    } else {
      var id :| Asked(ids, id) && HasRow(rows, id) && Dropped(cache, ids, id);
      assert !OnceEach(rows, ids, result, id);
    }
  }
}
