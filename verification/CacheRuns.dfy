/** The products table and its cache over time, with cache writes delayed arbitrarily. */
module CacheRuns {
  import opened Events
  import opened ProductDb
  import opened ProductCache
  import opened CacheTheorems

  datatype State = State(table: map<ProductId, Row>, cache: Cache, fills: multiset<Fill>)

  datatype Step =
    | Write(id: ProductId, row: Row)                    // any write of a row, stock decrements included
    | Remove(id: ProductId)
    | WriteBack(id: ProductId, row: Row, key: string)   // CreateProduct, UpdateProduct: the result is to be cached
    | Read(id: ProductId, key: string)                  // a miss: the row read is to be cached
    | Store(fill: Fill)
    | Drop(fill: Fill)                                  // the cache write fails
    | Evict(key: string)                                // deletion or expiry

  function Next(s: State, step: Step): State {
    match step
    case Write(id, row) => s.(table := s.table[id := row])
    case Remove(id) => s.(table := s.table - {id})
    case WriteBack(id, row, key) =>
      if ScanId(key) != Some(id) then s
      else s.(table := s.table[id := row], fills := s.fills + multiset{Fill(key, ToGrpcProduct(Stored(id, row)))})
    case Read(id, key) =>
      if ScanId(key) != Some(id) || id !in s.table then s
      else s.(fills := s.fills + multiset{Fill(key, ToGrpcProduct(Stored(id, s.table[id])))})
    case Store(f) =>
      if f !in s.fills then s
      else s.(cache := s.cache[f.key := ProductToMap(f.product)], fills := s.fills - multiset{f})
    case Drop(f) => s.(fills := s.fills - multiset{f})
    case Evict(key) => s.(cache := s.cache - {key})
  }

  function Run(s: State, steps: seq<Step>): State {
    if steps == [] then s else Next(Run(s, steps[..|steps| - 1]), steps[|steps| - 1])
  }

  /** A table with an empty cache and nothing under way. */
  function Start(table: map<ProductId, Row>): State {
    State(table, map[], multiset{})
  }

  /** After the first `j` steps the table held this version of the product the key names. */
  predicate Held(table: map<ProductId, Row>, steps: seq<Step>, j: nat, key: string, p: GrpcProduct) {
    && j <= |steps| && ScanId(key).Some? && ScanId(key).value in Run(Start(table), steps[..j]).table
    && ShowsFresh(p, Stored(ScanId(key).value, Run(Start(table), steps[..j]).table[ScanId(key).value]))
  }

  predicate OnceHeld(table: map<ProductId, Row>, steps: seq<Step>, key: string, p: GrpcProduct) {
    exists j :: 0 <= j <= |steps| && Held(table, steps, j, key, p)
  }

  ghost predicate EntryOk(table: map<ProductId, Row>, steps: seq<Step>, key: string, entry: Hash) {
    exists p :: entry == ProductToMap(p) && OnceHeld(table, steps, key, p)
  }

  lemma {:induction false} HeldLater(table: map<ProductId, Row>, steps: seq<Step>, last: Step, key: string,
        p: GrpcProduct)
    requires OnceHeld(table, steps, key, p)
    ensures OnceHeld(table, steps + [last], key, p)
  {
    var j :| 0 <= j <= |steps| && Held(table, steps, j, key, p);
    assert (steps + [last])[..j] == steps[..j];
    assert Held(table, steps + [last], j, key, p);
  }

  lemma {:induction false} HeldNow(table: map<ProductId, Row>, steps: seq<Step>, key: string)
    requires ScanId(key).Some? && ScanId(key).value in Run(Start(table), steps).table
    ensures var id := ScanId(key).value;
            OnceHeld(table, steps, key, ToGrpcProduct(Stored(id, Run(Start(table), steps).table[id])))
  {
    hide Run, ShowsFresh, ScanId, ToGrpcProduct;
    var id := ScanId(key).value;
    var stored := Stored(id, Run(Start(table), steps).table[id]);
    assert steps[..|steps|] == steps;
    RowShown(stored, ToGrpcProduct(stored));
    assert Held(table, steps, |steps|, key, ToGrpcProduct(stored));
  }

  lemma {:induction false} NewFillIsCurrent(s: State, step: Step, f: Fill)
    requires f in Next(s, step).fills && f !in s.fills
    ensures ScanId(f.key).Some? && ScanId(f.key).value in Next(s, step).table
    ensures f.product == ToGrpcProduct(Stored(ScanId(f.key).value, Next(s, step).table[ScanId(f.key).value]))
  {
    hide ProductToMap, ToGrpcProduct, ScanId;
  }

  /** Whatever waits to be cached is a version its row had. */
  lemma {:induction false} FillsAreOld(table: map<ProductId, Row>, steps: seq<Step>, f: Fill)
    requires f in Run(Start(table), steps).fills
    ensures OnceHeld(table, steps, f.key, f.product)
  {
    hide OnceHeld, Next, ToGrpcProduct, ScanId;
    if steps != [] {
      var init, last := steps[..|steps| - 1], steps[|steps| - 1];
      assert steps == init + [last];
      if f in Run(Start(table), init).fills {
        FillsAreOld(table, init, f);
        HeldLater(table, init, last, f.key, f.product);
      } else {
        NewFillIsCurrent(Run(Start(table), init), last, f);
        HeldNow(table, steps, f.key);
      }
    }
  }

  /** Only a cache write puts an entry into the cache. */
  lemma {:induction false} EntryKept(s: State, step: Step, key: string)
    requires key in Next(s, step).cache && !(step.Store? && step.fill in s.fills && step.fill.key == key)
    ensures key in s.cache && Next(s, step).cache[key] == s.cache[key]
  {
    hide ProductToMap, ToGrpcProduct, ScanId;
  }

  lemma {:induction false} StoredEntry(s: State, f: Fill)
    requires f in s.fills
    ensures f.key in Next(s, Store(f)).cache && Next(s, Store(f)).cache[f.key] == ProductToMap(f.product)
  {
    hide ProductToMap;
  }

  lemma {:induction false} EntriesAreOld(table: map<ProductId, Row>, steps: seq<Step>, key: string)
    requires key in Run(Start(table), steps).cache
    ensures EntryOk(table, steps, key, Run(Start(table), steps).cache[key])
  {
    hide OnceHeld, ProductToMap, Next;
    if steps != [] {
      var init, last := steps[..|steps| - 1], steps[|steps| - 1];
      var s := Run(Start(table), init);
      assert steps == init + [last];
      if last.Store? && last.fill in s.fills && last.fill.key == key {
        FillsAreOld(table, init, last.fill);
        HeldLater(table, init, last, key, last.fill.product);
        StoredEntry(s, last.fill);
      } else {
        EntryKept(s, last, key);
        EntriesAreOld(table, init, key);
        var p :| s.cache[key] == ProductToMap(p) && OnceHeld(table, init, key, p);
        HeldLater(table, init, last, key, p);
      }
    }
  }

  /** No invented values: with fills delayed arbitrarily and interleaved with any table writes, what the
      cache answers for a key is, after normalisation, a version that product's row had at some earlier
      point of the run; it decodes exactly when that version is within the column widths. */
  lemma {:induction false} NoInventedValues(table: map<ProductId, Row>, steps: seq<Step>, key: string)
    requires key in Run(Start(table), steps).cache
    ensures exists p :: OnceHeld(table, steps, key, p)
              && Probed(Run(Start(table), steps).cache, key) == if InRange(p) then Hit(Normalise(p)) else Undecodable
  {
    hide OnceHeld, Run, InRange, Normalise, MapToProduct;
    EntriesAreOld(table, steps, key);
    var p :| Run(Start(table), steps).cache[key] == ProductToMap(p) && OnceHeld(table, steps, key, p);
    ConverterRoundTrip(p);
    assert FId in ProductToMap(p);
  }

  /** So whatever the cache answers shows, field by field, the product's row as it was at some earlier point of
      the run. */
  lemma {:induction false} CacheShowsPastRow(table: map<ProductId, Row>, steps: seq<Step>, key: string)
    requires Probed(Run(Start(table), steps).cache, key).Hit?
    ensures exists j ::
              && 0 <= j <= |steps| && ScanId(key).Some? && ScanId(key).value in Run(Start(table), steps[..j]).table
              && ShowsCached(Probed(Run(Start(table), steps).cache, key).product,
                             Stored(ScanId(key).value, Run(Start(table), steps[..j]).table[ScanId(key).value]))
  {
    hide Run, InRange, Normalise, MapToProduct, ScanId, ShowsFresh, ShowsCached, ToGrpcProduct;
    NoInventedValues(table, steps, key);
    var cache := Run(Start(table), steps).cache;
    var p :| OnceHeld(table, steps, key, p)
             && Probed(cache, key) == if InRange(p) then Hit(Normalise(p)) else Undecodable;
    var j :| 0 <= j <= |steps| && Held(table, steps, j, key, p);
    var stored := Stored(ScanId(key).value, Run(Start(table), steps[..j]).table[ScanId(key).value]);
    RowShown(stored, p);
    RowShown(stored, Normalise(p));
  }

  lemma {:induction false} RunOneMore(s: State, steps: seq<Step>, last: Step)
    ensures Run(s, steps + [last]) == Next(Run(s, steps), last)
  {
    hide Next;
    assert (steps + [last])[..|steps|] == steps;
  }

  lemma {:induction false} RunFourMore(s: State, steps: seq<Step>, a: Step, b: Step, c: Step, d: Step)
    ensures Run(s, steps + [a, b, c, d]) == Next(Next(Next(Next(Run(s, steps), a), b), c), d)
  {
    hide Run, Next;
    RunOneMore(s, steps, a);
    RunOneMore(s, steps + [a], b);
    RunOneMore(s, steps + [a] + [b], c);
    RunOneMore(s, steps + [a] + [b] + [c], d);
    assert steps + [a, b, c, d] == steps + [a] + [b] + [c] + [d];
  }

  /** A row written and then cached without anything in between is served, field by field, under its key. */
  lemma {:induction false} WrittenThenServed(s: State, id: ProductId, row: Row, key: string)
    requires ScanId(key) == Some(id) && InRange(ToGrpcProduct(Stored(id, row)))
    ensures var s' := Next(Next(s, WriteBack(id, row, key)), Store(Fill(key, ToGrpcProduct(Stored(id, row)))));
            && s'.table == s.table[id := row]
            && Probed(s'.cache, key).Hit? && ShowsCached(Probed(s'.cache, key).product, Stored(id, row))
  {
    hide InRange, ScanId, MapToProduct, ToGrpcProduct, ShowsCached, Normalise, ProductToMap;
    var p := ToGrpcProduct(Stored(id, row));
    ConverterRoundTrip(p);
    RowShown(Stored(id, row), Normalise(p));
    HashNotEmpty(p);
  }

  lemma {:induction false} HashNotEmpty(p: GrpcProduct)
    ensures ProductToMap(p) != map[]
  {
    assert FId in ProductToMap(p);
  }

  /** Storing under a key and evicting it change what is served under that key only. */
  lemma {:induction false} OtherKeysKept(s: State, f: Fill, key: string)
    ensures Probed(Next(s, Evict(key)).cache, key).Miss?
    ensures key != f.key ==> Probed(Next(s, Store(f)).cache, key) == Probed(s.cache, key)
    ensures key != f.key ==> Probed(Next(s, Evict(f.key)).cache, key) == Probed(s.cache, key)
  {
    hide MapToProduct, ProductToMap;
  }

  /** Old values do come back: a read that overlaps a deletion can cache the product after the deletion has
      evicted it, and from then on the cache serves a product that no longer exists. */
  lemma {:induction false} DeletedCanBeServed(table: map<ProductId, Row>, steps: seq<Step>, id: ProductId, key: string)
    requires id in Run(Start(table), steps).table && ScanId(key) == Some(id)
    requires InRange(ToGrpcProduct(Stored(id, Run(Start(table), steps).table[id])))
    ensures var p := ToGrpcProduct(Stored(id, Run(Start(table), steps).table[id]));
            var s' := Run(Start(table), steps + [Read(id, key), Remove(id), Evict(key), Store(Fill(key, p))]);
            id !in s'.table && Probed(s'.cache, key) == Hit(Normalise(p))
  {
    hide Run, InRange, Normalise, ToGrpcProduct, MapToProduct, ScanId;
    var p := ToGrpcProduct(Stored(id, Run(Start(table), steps).table[id]));
    RunFourMore(Start(table), steps, Read(id, key), Remove(id), Evict(key), Store(Fill(key, p)));
    ConverterRoundTrip(p);
    assert FId in ProductToMap(p);
  }

  // ------------------------------------------------ when a deleted product stays gone

  ghost predicate Serves(s: State, id: ProductId) {
    exists key :: ServesAt(s, id, key)
  }

  predicate ServesAt(s: State, id: ProductId, key: string) {
    ScanId(key) == Some(id) && Probed(s.cache, key).Hit?
  }

  /** A cache write under way that would serve the product. */
  predicate WouldServe(f: Fill, id: ProductId) {
    ScanId(f.key) == Some(id) && InRange(f.product)
  }

  ghost predicate Gone(s: State, id: ProductId) {
    id !in s.table && !Serves(s, id) && forall f :: f in s.fills ==> !WouldServe(f, id)
  }

  predicate Recreates(step: Step, id: ProductId) {
    (step.Write? || step.WriteBack?) && step.id == id
  }

  ghost predicate NeverRecreated(steps: seq<Step>, id: ProductId) {
    forall i :: 0 <= i < |steps| ==> !Recreates(steps[i], id)
  }

  lemma {:induction false} StoreKeepsGone(s: State, f: Fill, id: ProductId)
    requires Gone(s, id)
    ensures Gone(Next(s, Store(f)), id)
  {
    hide ScanId, InRange, MapToProduct, ProductToMap;
    var s' := Next(s, Store(f));
    ConverterRoundTrip(f.product);
    forall key ensures !ServesAt(s', id, key) {
      assert !ServesAt(s, id, key);
      if key == f.key && f in s.fills {
        assert !WouldServe(f, id);
      }
    }
  }

  lemma {:induction false} StaysRemoved(s: State, step: Step, id: ProductId)
    requires id !in s.table && !Recreates(step, id)
    ensures id !in Next(s, step).table
  {
    hide ProductToMap, ToGrpcProduct, ScanId;
  }

  lemma {:induction false} StepKeepsGone(s: State, step: Step, id: ProductId)
    requires Gone(s, id) && !Recreates(step, id)
    ensures Gone(Next(s, step), id)
  {
    hide ScanId, InRange, MapToProduct, Next, Recreates;
    if step.Store? {
      StoreKeepsGone(s, step.fill, id);
    } else {
      var s' := Next(s, step);
      StaysRemoved(s, step, id);
      forall key ensures !ServesAt(s', id, key) {
        if key in s'.cache {
          EntryKept(s, step, key);
        }
        assert !ServesAt(s, id, key);
      }
      forall f | f in s'.fills ensures !WouldServe(f, id) {
        if f !in s.fills {
          NewFillIsCurrent(s, step, f);
        }
      }
    }
  }

  lemma {:induction false} RunKeepsGone(s: State, steps: seq<Step>, id: ProductId)
    requires Gone(s, id) && NeverRecreated(steps, id)
    ensures Gone(Run(s, steps), id)
  {
    hide Next, Gone, Recreates;
    if steps != [] {
      RunKeepsGone(s, steps[..|steps| - 1], id);
      StepKeepsGone(Run(s, steps[..|steps| - 1]), steps[|steps| - 1], id);
    }
  }

  lemma {:induction false} PendingFillServes(s: State, f: Fill, id: ProductId)
    requires f in s.fills && WouldServe(f, id)
    ensures Serves(Run(s, [Store(f)]), id)
  {
    hide ScanId, InRange, MapToProduct;
    RunOneMore(s, [], Store(f));
    assert [] + [Store(f)] == [Store(f)];
    ConverterRoundTrip(f.product);
    assert FId in ProductToMap(f.product);
    assert ServesAt(Run(s, [Store(f)]), id, f.key);
  }

  /** A deleted product is served in no future that does not write it again if and only if, at this moment,
      no entry under any of its spellings decodes and no cache write under way for one of them carries a
      product within the column widths. */
  lemma {:induction false} DeletedStaysGone(s: State, id: ProductId)
    requires id !in s.table
    ensures (forall steps :: NeverRecreated(steps, id) ==> !Serves(Run(s, steps), id))
       <==> !Serves(s, id) && forall f :: f in s.fills ==> !WouldServe(f, id)
  {
    hide Run, Serves, WouldServe, Next;
    if Gone(s, id) {
      forall steps | NeverRecreated(steps, id) ensures !Serves(Run(s, steps), id) {
        RunKeepsGone(s, steps, id);
      }
    } else if Serves(s, id) {
      RunNothing(s);
      assert NeverRecreated([], id) && Serves(Run(s, []), id);
    } else {
      var f :| f in s.fills && WouldServe(f, id);
      PendingFillServes(s, f, id);
      assert NeverRecreated([Store(f)], id);
    }
  }

  lemma {:induction false} RunNothing(s: State)
    ensures Run(s, []) == s
  {
  }

  // ------------------------------------------------ rows within the column widths

  predicate RowFits(id: ProductId, row: Row) {
    InRange(ToGrpcProduct(Stored(id, row)))
  }

  ghost predicate TableFits(table: map<ProductId, Row>) {
    forall id :: id in table ==> RowFits(id, table[id])
  }

  /** INTEGER and TIMESTAMP columns cannot hold anything else. */
  ghost predicate WritesFit(steps: seq<Step>) {
    forall i :: 0 <= i < |steps| && (steps[i].Write? || steps[i].WriteBack?) ==> RowFits(steps[i].id, steps[i].row)
  }

  lemma {:induction false} RunFits(table: map<ProductId, Row>, steps: seq<Step>)
    requires TableFits(table) && WritesFit(steps)
    ensures TableFits(Run(Start(table), steps).table)
  {
    hide RowFits, ScanId, ProductToMap, ToGrpcProduct;
    if steps != [] {
      RunFits(table, steps[..|steps| - 1]);
    }
  }

  lemma {:induction false} HeldFits(table: map<ProductId, Row>, steps: seq<Step>, key: string, p: GrpcProduct)
    requires TableFits(table) && WritesFit(steps) && OnceHeld(table, steps, key, p)
    ensures InRange(p) && ScanId(key).Some? && p.id == IdText(ScanId(key).value)
  {
    hide InRange, Run, ScanId, IdText;
    var j :| 0 <= j <= |steps| && Held(table, steps, j, key, p);
    RunFits(table, steps[..j]);
    assert RowFits(ScanId(key).value, Run(Start(table), steps[..j]).table[ScanId(key).value]);
  }

  /** What the service itself writes into the cache always decodes, in every run: an entry that does not must
      have been written by someone else.  And it names the product of its key. */
  lemma {:induction false} OwnEntriesDecode(table: map<ProductId, Row>, steps: seq<Step>)
    requires TableFits(table) && WritesFit(steps)
    ensures forall key :: !Probed(Run(Start(table), steps).cache, key).Undecodable?
    ensures Names(Run(Start(table), steps).cache)
  {
    hide Run, InRange, Probed, ScanId, IdText, OnceHeld, TableFits, WritesFit;
    var cache := Run(Start(table), steps).cache;
    forall key
      ensures !Probed(cache, key).Undecodable?
      ensures Probed(cache, key).Hit? ==>
                ScanId(key).Some? && Probed(cache, key).product.id == IdText(ScanId(key).value)
    {
      if key in cache {
        NoInventedValues(table, steps, key);
        var p :| OnceHeld(table, steps, key, p)
                 && Probed(cache, key) == if InRange(p) then Hit(Normalise(p)) else Undecodable;
        HeldFits(table, steps, key, p);
      } else {
        NotThere(cache, key);
      }
    }
  }

  lemma {:induction false} NotThere(cache: Cache, key: string)
    requires key !in cache
    ensures Probed(cache, key).Miss?
  {
  }

  /** So over every cache the service can bring about, stale or not, the batch read returns each existing
      product asked for exactly once. */
  lemma {:induction false} OwnBatchReadIsComplete(table: map<ProductId, Row>, steps: seq<Step>, rows: seq<Stored>,
        ids: seq<string>, pipelineFails: bool, id: ProductId)
    requires TableFits(table) && WritesFit(steps) && UniqueKeys(rows) && DistinctIds(ids)
    requires AllScan(MissedIds(Run(Start(table), steps).cache, ids, pipelineFails))
    requires Asked(ids, id) && HasRow(rows, id)
    ensures Appearances(BatchResult(rows, Run(Start(table), steps).cache, ids, pipelineFails), IdText(id)) == 1
  {
    hide Run, Probed, ScanId, IdText, Appearances, Names, UniqueKeys, DistinctIds, TableFits, WritesFit, BatchResult;
    OwnEntriesDecode(table, steps);
    BatchReadCount(rows, Run(Start(table), steps).cache, ids, pipelineFails, id);
  }
}
