/** The item store with expiring items: four parallel indices kept in step (store.py). */
module ItemStore {
  import opened Wrappers
  import opened SizeTracking

  type Time = int

  datatype ItemKey = ItemKey(ns: seq<string>, key: string)
  datatype Item = Item(value: string)
  type Vectors = string

  /** A TTL record: the moment of expiry and the item's TTL. */
  datatype TtlRecord = TtlRecord(expiresAt: Time, ttl: int)

  /** A write; no value stands for a deletion, no TTL for "never expires". */
  datatype PutOp = PutOp(value: Option<Item>, ttl: Option<int>)

  /** `_data`, `_vectors` and `_ttl`. */
  datatype Contents = Contents(data: map<ItemKey, Item>, vectors: map<ItemKey, Vectors>, ttl: map<ItemKey, TtlRecord>)

  const NO_ITEMS := Contents(map[], map[], map[])

  // ---- What each operation does to the indices -----------------------------------------------------

  function RefreshedRecord(record: TtlRecord, now: Time): TtlRecord {
    TtlRecord(now + record.ttl, record.ttl)
  }

  /** Reads of `keys` move their expiry to a full TTL from now. */
  function Refreshed(c: Contents, keys: set<ItemKey>, now: Time): Contents {
    c.(ttl := map k | k in c.ttl :: if k in keys then RefreshedRecord(c.ttl[k], now) else c.ttl[k])
  }

  function PutRecord(op: PutOp, now: Time): Option<TtlRecord> {
    if op.value.None? || op.ttl.None? then None else Some(TtlRecord(now + op.ttl.value, op.ttl.value))
  }

  function Written(c: Contents, puts: map<ItemKey, PutOp>, embeddings: map<ItemKey, Vectors>, now: Time): Contents {
    Contents(
      map k | k in c.data.Keys + puts.Keys && (k in puts ==> puts[k].value.Some?) ::
        if k in puts then puts[k].value.value else c.data[k],
      map k | k in c.vectors.Keys + embeddings.Keys && VectorsAfter(c, puts, embeddings, k).Some? ::
        VectorsAfter(c, puts, embeddings, k).value,
      map k | k in c.ttl.Keys + puts.Keys && (k in puts ==> PutRecord(puts[k], now).Some?) ::
        if k in puts then PutRecord(puts[k], now).value else c.ttl[k])
  }

  /** A deleted item loses its vectors; a written item takes its new embedding if it has one. */
  function VectorsAfter(c: Contents, puts: map<ItemKey, PutOp>, embeddings: map<ItemKey, Vectors>, k: ItemKey): Option<Vectors> {
    if k in puts && puts[k].value.None? then None
    else if k in puts && k in embeddings then Some(embeddings[k])
    else VectorsOf(c.vectors, k)
  }

  function VectorsOf(vectors: map<ItemKey, Vectors>, k: ItemKey): Option<Vectors> {
    if k in vectors then Some(vectors[k]) else None
  }

  function ExpiredKeys(ttl: map<ItemKey, TtlRecord>, now: Time): set<ItemKey> {
    set k | k in ttl && ttl[k].expiresAt <= now
  }

  function Swept(c: Contents, now: Time): Contents {
    Without(c, ExpiredKeys(c.ttl, now))
  }

  /** One `abatch` call: reads and search hits that refresh, then writes, each with its own clock
      reading. */
  datatype Batch = Batch(gets: set<ItemKey>, getsAt: Time, hits: set<ItemKey>, hitsAt: Time,
                         puts: map<ItemKey, PutOp>, embeddings: map<ItemKey, Vectors>, putsAt: Time)

  function Batched(c: Contents, b: Batch): Contents {
    Written(Refreshed(Refreshed(c, b.gets, b.getsAt), b.hits, b.hitsAt), b.puts, b.embeddings, b.putsAt)
  }

  // ---- The store ---------------------------------------------------------------------------------

  datatype SweepStats = SweepStats(deletedItems: int, deletedBytes: int, totalBefore: int)

  class DiskBackedInMemStore {
    var data: map<ItemKey, Item>
    var vectors: map<ItemKey, Vectors>
    var ttl: map<ItemKey, TtlRecord>
    var lastSweep: SweepStats
    const sizeTracker: SizeTracker<ItemKey>
    /** `estimate_pickle_size` of an item with its vectors. */
    const estimate: (ItemKey, Item, Option<Vectors>) -> nat

    ghost function Value(): Contents
      reads this`data, this`vectors, this`ttl
    {
      Contents(data, vectors, ttl)
    }

    /** Only stored items have TTL records, and exactly the stored items are measured, each by its
        current estimate. */
    ghost predicate Valid()
      reads this`data, this`vectors, this`ttl, sizeTracker
    {
      && ttl.Keys <= data.Keys
      && Measured({})
    }

    /** Only stored items have vectors.  The indices are loaded from files of their own, so a loaded
        store has this if the files agree; every operation keeps it. */
    ghost predicate Aligned()
      reads this`data, this`vectors
    {
      vectors.Keys <= data.Keys
    }

    /** All items but those of `except` have their tracked size. */
    ghost predicate Measured(except: set<ItemKey>)
      reads this`data, this`vectors, sizeTracker
    {
      && sizeTracker.Valid()
      && (forall k :: k !in except ==> (k in sizeTracker.entries <==> k in data))
      && (forall k :: k in data && k !in except ==> sizeTracker.entries[k] == estimate(k, data[k], VectorsOf(vectors, k)))
    }

    /** Loads persisted indices: orphaned TTL records are dropped and every item measured once. */
    constructor (data: map<ItemKey, Item>, vectors: map<ItemKey, Vectors>, ttl: map<ItemKey, TtlRecord>,
                 estimate: (ItemKey, Item, Option<Vectors>) -> nat)
      ensures Valid() && fresh(sizeTracker) && this.estimate == estimate
      ensures Value() == Contents(data, vectors, map k | k in ttl && k in data :: ttl[k])
      ensures Aligned() <==> vectors.Keys <= data.Keys
    {
      this.data, this.vectors, this.ttl, this.estimate := data, vectors, ttl, estimate;
      lastSweep := SweepStats(0, 0, 0);
      sizeTracker := new SizeTracker();
      new;
      hide Measured;
      DropOrphanedTtlRecords();
      RebuildSizeTracking();
      lastSweep := SweepStats(0, 0, sizeTracker.totalBytes);
    }

    /** `_drop_orphaned_ttl_records`. */
    method DropOrphanedTtlRecords()
      modifies this`ttl
      ensures ttl == map k | k in old(ttl) && k in data :: old(ttl)[k]
    {
      var todo := ttl.Keys;
      while todo != {}
        invariant todo <= old(ttl).Keys
        invariant ttl == map k | k in old(ttl) && (k in todo || k in data) :: old(ttl)[k]
      {
        var k :| k in todo;
        if k !in data { ttl := ttl - {k}; }
        todo := todo - {k};
      }
    }

    /** `_track_item_size`. */
    method TrackItemSize(k: ItemKey, ghost except: set<ItemKey>)
      requires Measured(except)
      modifies sizeTracker
      ensures Measured(except - {k})
    {
      if k !in data {
        var _ := sizeTracker.Remove(k);
      } else {
        sizeTracker.SetSize(k, estimate(k, data[k], VectorsOf(vectors, k)));
      }
    }

    /** `_rebuild_size_tracking`: on a measured store it changes nothing. */
    method RebuildSizeTracking()
      modifies sizeTracker
      ensures Measured({})
      ensures old(Measured({})) ==> sizeTracker.entries == old(sizeTracker.entries) && sizeTracker.totalBytes == old(sizeTracker.totalBytes)
    {
      sizeTracker.Clear();
      var todo := data.Keys;
      while todo != {}
        invariant todo <= data.Keys
        invariant Measured(todo)
      {
        var k :| k in todo;
        TrackItemSize(k, todo);
        todo := todo - {k};
      }
      if old(Measured({})) { assert sizeTracker.entries == old(sizeTracker.entries); }
    }

    /** `_refresh_ttl`. */
    method RefreshTtl(k: ItemKey, now: Time)
      modifies this`ttl
      ensures ttl == if k in old(ttl) then old(ttl)[k := RefreshedRecord(old(ttl)[k], now)] else old(ttl)
    {
      if k !in ttl { return; }
      ttl := ttl[k := TtlRecord(now + ttl[k].ttl, ttl[k].ttl)];
    }

    /** `_prepare_ops` for the reads that refresh: an item that is not there is not refreshed. */
    method PrepareOps(gets: set<ItemKey>, now: Time)
      requires Valid()
      modifies this`ttl
      ensures Valid()
      ensures Value() == Refreshed(old(Value()), gets, now)
    {
      var todo := gets;
      while todo != {}
        invariant todo <= gets
        invariant ttl == map k | k in old(ttl) :: if k in gets && k !in todo then RefreshedRecord(old(ttl)[k], now) else old(ttl)[k]
      {
        var k :| k in todo;
        if k in data { RefreshTtl(k, now); }
        todo := todo - {k};
      }
    }

    /** `_batch_search` for the searches that refresh. */
    method BatchSearch(hits: set<ItemKey>, now: Time)
      requires Valid()
      modifies this`ttl
      ensures Valid()
      ensures Value() == Refreshed(old(Value()), hits, now)
    {
      var todo := hits;
      while todo != {}
        invariant todo <= hits
        invariant ttl == map k | k in old(ttl) :: if k in hits && k !in todo then RefreshedRecord(old(ttl)[k], now) else old(ttl)[k]
      {
        var k :| k in todo;
        RefreshTtl(k, now);
        todo := todo - {k};
      }
    }

    /** The library's `_apply_put_ops` and vector insertion. */
    method BaseApplyPutOps(puts: map<ItemKey, PutOp>, embeddings: map<ItemKey, Vectors>)
      modifies this`data, this`vectors
      ensures data == Written(old(Value()), puts, embeddings, 0).data
      ensures vectors == Written(old(Value()), puts, embeddings, 0).vectors
    {
      var before := Contents(data, vectors, ttl);
      data := map k | k in before.data.Keys + puts.Keys && (k in puts ==> puts[k].value.Some?) ::
        if k in puts then puts[k].value.value else before.data[k];
      vectors := map k | k in before.vectors.Keys + embeddings.Keys && VectorsAfter(before, puts, embeddings, k).Some? ::
        VectorsAfter(before, puts, embeddings, k).value;
    }

    /** `_apply_put_ops`: the writes, then their TTL records, then their sizes. */
    method ApplyPutOps(puts: map<ItemKey, PutOp>, embeddings: map<ItemKey, Vectors>, now: Time)
      requires Valid()
      modifies this`data, this`vectors, this`ttl, sizeTracker
      ensures Valid()
      ensures Value() == Written(old(Value()), puts, embeddings, now)
      ensures old(Aligned()) ==> Aligned()
    {
      ghost var before := Value();
      BaseApplyPutOps(puts, embeddings);
      UnwrittenUnchanged(before, Value(), puts, embeddings);
      UpdateTtls(puts, now);
      ghost var after := Value();
      assert after == Written(before, puts, embeddings, now);
      assert ttl.Keys <= data.Keys;
      var todo := puts.Keys;
      while todo != {}
        invariant todo <= puts.Keys && Value() == after
        invariant Measured(todo)
      {
        var k :| k in todo;
        TrackItemSize(k, todo);
        todo := todo - {k};
      }
    }

    method UpdateTtls(puts: map<ItemKey, PutOp>, now: Time)
      modifies this`ttl
      ensures ttl == map k | k in old(ttl).Keys + puts.Keys && (k in puts ==> PutRecord(puts[k], now).Some?) ::
        if k in puts then PutRecord(puts[k], now).value else old(ttl)[k]
    {
      var todo := puts.Keys;
      while todo != {}
        invariant todo <= puts.Keys
        invariant ttl == map k | k in old(ttl).Keys + (puts.Keys - todo) && (k in puts && k !in todo ==> PutRecord(puts[k], now).Some?) ::
          if k in puts && k !in todo then PutRecord(puts[k], now).value else old(ttl)[k]
      {
        var k :| k in todo;
        var record := PutRecord(puts[k], now);
        if record.None? { ttl := ttl - {k}; } else { ttl := ttl[k := record.value]; }
        todo := todo - {k};
      }
    }

    /** `abatch`. */
    method RunBatch(b: Batch)
      requires Valid()
      modifies this`data, this`vectors, this`ttl, sizeTracker
      ensures Valid()
      ensures Value() == Batched(old(Value()), b)
      ensures old(Aligned()) ==> Aligned()
    {
      PrepareOps(b.gets, b.getsAt);
      BatchSearch(b.hits, b.hitsAt);
      ApplyPutOps(b.puts, b.embeddings, b.putsAt);
    }

    /** `sweep_ttl`: removes exactly the expired items from all four indices, and reports their
        number and what the size total lost. */
    method SweepTtl(now: Time) returns (deleted: nat)
      requires Valid()
      modifies this, sizeTracker
      ensures Valid()
      ensures Value() == Swept(old(Value()), now)
      ensures old(Aligned()) ==> Aligned()
      ensures deleted == |ExpiredKeys(old(ttl), now)|
      ensures lastSweep == SweepStats(deleted, old(sizeTracker.totalBytes) - sizeTracker.totalBytes, old(sizeTracker.totalBytes))
    {
      hide Without, Measured;
      var totalBefore := sizeTracker.totalBytes;
      var expired := ExpiredKeys(ttl, now);
      ghost var before := Value();
      ghost var done: set<ItemKey> := {};
      var deletedSize := 0;
      var todo := expired;
      deleted := 0;
      NothingWithout(before);
      while todo != {}
        invariant todo <= expired && done == expired - todo && deleted == |done|
        invariant Value() == Without(before, done)
        invariant Valid() && (old(Aligned()) ==> Aligned())
        invariant sizeTracker.totalBytes == totalBefore - deletedSize
      {
        var k :| k in todo;
        WithoutOneMore(before, done, k);
        var known, size := RemoveItem(k);
        if known {
          deleted := deleted + 1;
          deletedSize := deletedSize + size;
        }
        done, todo := done + {k}, todo - {k};
      }
      assert done == expired;
      lastSweep := SweepStats(deleted, deletedSize, totalBefore);
    }

    /** One expired key of the sweep. */
    method RemoveItem(k: ItemKey) returns (known: bool, size: int)
      requires Valid()
      modifies this`data, this`vectors, this`ttl, sizeTracker
      ensures Valid()
      ensures Value() == Without(old(Value()), {k})
      ensures old(Aligned()) ==> Aligned()
      ensures known == (k in old(data))
      ensures sizeTracker.totalBytes == old(sizeTracker.totalBytes) - size
      ensures !known ==> size == 0
    {
      known := k in data;
      size := sizeTracker.Remove(k);
      data := data - {k};
      vectors := vectors - {k};
      ttl := ttl - {k};
    }
  }

  function Without(c: Contents, gone: set<ItemKey>): Contents {
    Contents(c.data - gone, c.vectors - gone, c.ttl - gone)
  }

  lemma NothingWithout(c: Contents)
    ensures Without(c, {}) == c
  {
  }

  lemma WithoutOneMore(c: Contents, gone: set<ItemKey>, k: ItemKey)
    ensures Without(Without(c, gone), {k}) == Without(c, gone + {k})
    ensures k in c.ttl && k !in gone ==> k in Without(c, gone).ttl
  {
    assert c.data - gone - {k} == c.data - (gone + {k});
    assert c.vectors - gone - {k} == c.vectors - (gone + {k});
    assert c.ttl - gone - {k} == c.ttl - (gone + {k});
  }

  lemma UnwrittenUnchanged(before: Contents, after: Contents, puts: map<ItemKey, PutOp>, embeddings: map<ItemKey, Vectors>)
    requires after.data == Written(before, puts, embeddings, 0).data && after.vectors == Written(before, puts, embeddings, 0).vectors
    ensures forall k :: k !in puts ==>
      (k in after.data <==> k in before.data) && (k in before.data ==> after.data[k] == before.data[k])
      && VectorsOf(after.vectors, k) == VectorsOf(before.vectors, k)
  {
  }
}
