/** The checkpoint saver and its size state, updated in place (checkpoint.py). */
module CheckpointSaver {
  import opened Wrappers
  import Lex
  import opened MapSums
  import opened CheckpointModel
  import opened CheckpointPruning
  import opened CheckpointSizes

  /** `_CheckpointSizeState`. */
  class CheckpointSizeState {
    var byThread: map<ThreadId, Totals>
    var totalBytes: int
    var totalCheckpoints: int

    ghost function Value(): Tally
      reads this
    {
      Tally(byThread, totalBytes, totalCheckpoints)
    }

    constructor ()
      ensures Value() == Tally(map[], 0, 0)
    {
      byThread, totalBytes, totalCheckpoints := map[], 0, 0;
    }

    function ThreadBytes(t: ThreadId): int
      reads this
    {
      if t in byThread then byThread[t].bytes else 0
    }

    function ThreadCheckpoints(t: ThreadId): int
      reads this
    {
      if t in byThread then byThread[t].count else 0
    }

    /** Moves one thread's record, never below zero, and the totals with it. */
    method Adjust(t: ThreadId, sizeDelta: int, checkpointDelta: int)
      modifies this
      ensures var before := old(Value()).Of(t);
        Value() == WithRecord(old(Value()), t, Totals(Max0(before.bytes + sizeDelta), Max0(before.count + checkpointDelta)))
    {
      var oldRecord := if t in byThread then byThread[t] else Totals(0, 0);
      var newSize := Max0(oldRecord.bytes + sizeDelta);
      var newCount := Max0(oldRecord.count + checkpointDelta);
      totalBytes := totalBytes + (newSize - oldRecord.bytes);
      totalCheckpoints := totalCheckpoints + (newCount - oldRecord.count);
      if newSize != 0 || newCount != 0 {
        byThread := byThread[t := Totals(newSize, newCount)];
      } else {
        byThread := byThread - {t};
      }
    }

    method RemoveThread(t: ThreadId) returns (bytes: int)
      modifies this
      ensures Value() == WithRecord(old(Value()), t, Totals(0, 0))
      ensures bytes == old(Value()).Of(t).bytes
    {
      var oldRecord := if t in byThread then byThread[t] else Totals(0, 0);
      byThread := byThread - {t};
      totalBytes := totalBytes - oldRecord.bytes;
      totalCheckpoints := totalCheckpoints - oldRecord.count;
      bytes := oldRecord.bytes;
    }

    method CopyThread(source: ThreadId, target: ThreadId)
      modifies this
      ensures Value() == WithRecord(old(Value()), target, old(Value()).Of(source))
    {
      var oldRecord := if target in byThread then byThread[target] else Totals(0, 0);
      var newRecord := if source in byThread then byThread[source] else Totals(0, 0);
      totalBytes := totalBytes + (newRecord.bytes - oldRecord.bytes);
      totalCheckpoints := totalCheckpoints + (newRecord.count - oldRecord.count);
      if newRecord.bytes != 0 || newRecord.count != 0 {
        byThread := byThread[target := newRecord];
      } else {
        byThread := byThread - {target};
      }
    }

    method Clear()
      modifies this
      ensures Value() == Tally(map[], 0, 0)
    {
      byThread, totalBytes, totalCheckpoints := map[], 0, 0;
    }
  }

  /** `_write_group_size`. */
  method WriteGroupSize(id: CheckpointId, group: WriteGroup) returns (size: int)
    ensures size == GroupBytes(id, group)
  {
    size := |id|;
    var todo := group.Keys;
    ghost var seen: WriteGroup := map[];
    while todo != {}
      invariant todo <= group.Keys
      invariant seen == map k | k in group && k !in todo :: group[k]
      invariant size == |id| + SumOver(seen, WriteBytes)
    {
      var k :| k in todo;
      SumInsert(seen, WriteBytes, k, group[k]);
      size := size + WriteBytes(k, group[k]);
      seen := seen[k := group[k]];
      todo := todo - {k};
    }
    assert seen == group;
  }

  /** `max(checkpoints, key=str)`. */
  method FindLatest(checkpoints: Space) returns (id: CheckpointId)
    requires checkpoints != map[]
    ensures id == Latest(checkpoints)
  {
    id :| id in checkpoints;
    var todo := checkpoints.Keys - {id};
    while todo != {}
      invariant todo <= checkpoints.Keys
      invariant id in checkpoints
      invariant forall j :: j in checkpoints && j !in todo ==> Lex.AtMost(j, id)
    {
      var k :| k in todo;
      Lex.Total(id, k);
      if Lex.Less(id, k) {
        forall j | j in checkpoints && j !in todo ensures Lex.AtMost(j, k) {
          if j != id { Lex.Transitive(j, id, k); }
        }
        id := k;
      }
      todo := todo - {k};
    }
    LatestUnique(checkpoints, id, Latest(checkpoints));
  }

  /** One more namespace of a thread has been pruned: which write and blob keys are kept so far. */
  ghost predicate KeptWritesIn(v: View, t: ThreadId, done: set<Namespace>, keys: set<WriteKey>) {
    forall k: WriteKey :: k in keys <==> k.thread == t && k.ns in done && KeepsCheckpoint(v, k.ns, k.id)
  }

  ghost predicate KeptBlobsIn(v: View, t: ThreadId, done: set<Namespace>, keys: set<BlobKey>) {
    forall k: BlobKey :: k in keys <==>
      k.thread == t && k.ns in done && KeepsBlob(v, BlobSlot(k.ns, k.channel, k.version))
  }

  ghost predicate OthersUntouched(before: map<SpaceKey, Space>, after: map<SpaceKey, Space>, t: ThreadId) {
    forall u :: u != t ==> SpacesOf(after, u) == SpacesOf(before, u)
  }

  /** `InMemorySaver`, with the library base class's effect on the three maps. */
  class InMemorySaver {
    var storage: map<SpaceKey, Space>
    var writes: map<WriteKey, WriteGroup>
    var blobs: map<BlobKey, Typed>
    const sizeState: CheckpointSizeState

    ghost function Contents(): Data
      reads this
    {
      Data(storage, writes, blobs)
    }

    /** The incremental tally is what a recomputation over the three maps would give. */
    ghost predicate Valid()
      reads this, sizeState
    {
      Tracks(sizeState.Value(), Contents())
    }

    /** Loads persisted maps and measures them once. */
    constructor (storage: map<SpaceKey, Space>, writes: map<WriteKey, WriteGroup>, blobs: map<BlobKey, Typed>)
      ensures Valid() && fresh(sizeState)
      ensures Contents() == Data(storage, writes, blobs)
    {
      this.storage, this.writes, this.blobs := storage, writes, blobs;
      sizeState := new CheckpointSizeState();
      new;
      RebuildSizeTracking();
    }

    /** Moves the tally by a change already made to one thread's rows. */
    method AdjustFor(ghost before: Data, t: ThreadId, bytes: int, count: int)
      requires Tracks(sizeState.Value(), before)
      requires forall u :: u != t ==> ViewOf(Contents(), u) == ViewOf(before, u)
      requires ViewBytes(ViewOf(Contents(), t)) == ViewBytes(ViewOf(before, t)) + bytes
      requires ViewCount(ViewOf(Contents(), t)) == ViewCount(ViewOf(before, t)) + count
      modifies sizeState
      ensures Valid()
    {
      hide ViewOf, ViewBytes, ViewCount, WithRecord, Tracks;
      AdjustTracks(sizeState.Value(), before, Contents(), t, bytes, count);
      sizeState.Adjust(t, bytes, count);
    }

    /** `_rebuild_size_tracking`: on a store whose tally is right it changes nothing. */
    method RebuildSizeTracking()
      modifies sizeState
      ensures Valid()
      ensures old(Valid()) ==> sizeState.Value() == old(sizeState.Value())
    {
      ghost var tallyBefore := sizeState.Value();
      sizeState.Clear();
      EmptyTallyTracks();
      ghost var seen := RebuildFromStorage(NO_DATA);
      seen := RebuildFromWrites(seen);
      seen := RebuildFromBlobs(seen);
      if Tracks(tallyBefore, Contents()) { TallyUnique(tallyBefore, sizeState.Value(), Contents()); }
    }

    method RebuildFromStorage(ghost start: Data) returns (ghost seen: Data)
      requires start == NO_DATA && Tracks(sizeState.Value(), start)
      modifies sizeState
      ensures seen == start.(storage := storage) && Tracks(sizeState.Value(), seen)
    {
      seen := start;
      var todo := storage.Keys;
      while todo != {}
        invariant todo <= storage.Keys
        invariant seen == start.(storage := map k | k in storage && k !in todo :: storage[k])
        invariant Tracks(sizeState.Value(), seen)
      {
        var k :| k in todo;
        seen := RebuildFromSpace(k, storage[k], seen);
        todo := todo - {k};
        assert seen.storage == map j | j in storage && j !in todo :: storage[j];
      }
      assert seen.storage == storage;
    }

    method RebuildFromSpace(k: SpaceKey, space: Space, ghost start: Data) returns (ghost seen: Data)
      requires k !in start.storage
      requires Tracks(sizeState.Value(), start)
      modifies sizeState
      ensures seen == start.(storage := start.storage[k := space]) && Tracks(sizeState.Value(), seen)
    {
      hide SpacesOf, WritesOf, BlobsOf, Tracks, ViewBytes, ViewCount;
      ghost var part: Space := map[];
      seen := start.(storage := start.storage[k := part]);
      EmptySpaceTracks(sizeState.Value(), start, k);
      var todo := space.Keys;
      while todo != {}
        invariant todo <= space.Keys
        invariant part == map id | id in space && id !in todo :: space[id]
        invariant seen == start.(storage := start.storage[k := part])
        invariant Tracks(sizeState.Value(), seen)
      {
        var id :| id in todo;
        ghost var larger: Space := map j | j in space && j !in todo - {id} :: space[j];
        assert larger == part[id := space[id]];
        ghost var after := start.(storage := start.storage[k := larger]);
        EntryTracks(sizeState.Value(), seen, after, k, part, id, space[id], larger);
        sizeState.Adjust(k.thread, EntryBytes(id, space[id]), 1);
        part, seen, todo := larger, after, todo - {id};
      }
      assert part == space;
    }

    method RebuildFromWrites(ghost start: Data) returns (ghost seen: Data)
      requires start == Data(storage, map[], map[]) && Tracks(sizeState.Value(), start)
      modifies sizeState
      ensures seen == start.(writes := writes) && Tracks(sizeState.Value(), seen)
    {
      hide SpacesOf, WritesOf, BlobsOf, Tracks;
      seen := start;
      var todo := writes.Keys;
      while todo != {}
        invariant todo <= writes.Keys
        invariant seen == start.(writes := map k | k in writes && k !in todo :: writes[k])
        invariant Tracks(sizeState.Value(), seen)
      {
        var k :| k in todo;
        ghost var after := seen.(writes := seen.writes[k := writes[k]]);
        var size := WriteGroupSize(k.id, writes[k]);
        GroupTracks(sizeState.Value(), seen, after, k, writes[k]);
        sizeState.Adjust(k.thread, size, 0);
        seen, todo := after, todo - {k};
        assert seen.writes == map j | j in writes && j !in todo :: writes[j];
      }
      assert seen.writes == writes;
    }

    method RebuildFromBlobs(ghost start: Data) returns (ghost seen: Data)
      requires start == Data(storage, writes, map[]) && Tracks(sizeState.Value(), start)
      modifies sizeState
      ensures seen == Contents() && Tracks(sizeState.Value(), seen)
    {
      hide SpacesOf, WritesOf, BlobsOf, Tracks;
      seen := start;
      var todo := blobs.Keys;
      while todo != {}
        invariant todo <= blobs.Keys
        invariant seen == start.(blobs := map k | k in blobs && k !in todo :: blobs[k])
        invariant Tracks(sizeState.Value(), seen)
      {
        var k :| k in todo;
        ghost var after := seen.(blobs := seen.blobs[k := blobs[k]]);
        BlobTracks(sizeState.Value(), seen, after, k, blobs[k]);
        sizeState.Adjust(k.thread, BlobBytes(k.channel, k.version, blobs[k]), 0);
        seen, todo := after, todo - {k};
        assert seen.blobs == map j | j in blobs && j !in todo :: blobs[j];
      }
      assert seen.blobs == blobs;
    }

    /** Bytes of the stored blobs a `put` names. */
    method NamedBlobsSize(t: ThreadId, ns: Namespace, newVersions: map<Channel, Version>) returns (size: int)
      ensures size == SumOver(Shared(BlobsOf(blobs, t), NewBlobs(ns, newVersions, map[])), BlobWeight)
    {
      hide BlobsOf, NewBlobs;
      size := 0;
      var todo := newVersions.Keys;
      ghost var rows := BlobsOf(blobs, t);
      ghost var seen: map<Channel, Version> := map[];
      NoNewBlobs(ns, map[]);
      assert Shared(rows, NewBlobs(ns, seen, map[])) == map[];
      while todo != {}
        invariant todo <= newVersions.Keys
        invariant seen == map c | c in newVersions && c !in todo :: newVersions[c]
        invariant size == SumOver(Shared(rows, NewBlobs(ns, seen, map[])), BlobWeight)
      {
        var c :| c in todo;
        var key := BlobKey(t, ns, c, newVersions[c]);
        var slot := BlobSlot(ns, c, newVersions[c]);
        BlobsOfRows(blobs, t, slot);
        NewBlobsInsert(ns, seen, map[], c, newVersions[c]);
        SharedInsert(rows, NewBlobs(ns, seen, map[]), BlobWeight, slot, EMPTY);
        if key in blobs {
          size := size + BlobBytes(c, newVersions[c], blobs[key]);
        }
        seen := seen[c := newVersions[c]];
        todo := todo - {c};
      }
      assert seen == newVersions;
    }

    /** The library's `put`: one storage entry, and one blob per new version. */
    method BasePut(t: ThreadId, ns: Namespace, id: CheckpointId, entry: Entry,
                   newVersions: map<Channel, Version>, values: map<Channel, Typed>)
      requires ParentIsOlder(id, entry)
      modifies this`storage, this`blobs
      ensures Contents() == WithView(old(Contents()), t, PutView(ViewOf(old(Contents()), t), ns, id, entry, newVersions, values))
    {
      hide SpacesOf, WritesOf, BlobsOf, NewBlobs, WithView;
      ghost var before := Contents();
      var key := SpaceKey(t, ns);
      SpacesOfRows(storage, t, ns);
      var space: Space := (if key in storage then storage[key] else map[])[id := entry];
      forall u ensures SpacesOf(storage[key := space], u) == if u == t then SpacesOf(storage, u)[ns := space] else SpacesOf(storage, u) {
        SpaceSet(storage, key, space, u);
      }
      storage := storage[key := space];
      BasePutBlobs(t, ns, newVersions, values);
      RowsReplaced(before, Contents(), t, PutView(ViewOf(before, t), ns, id, entry, newVersions, values));
    }

    method BasePutBlobs(t: ThreadId, ns: Namespace, newVersions: map<Channel, Version>, values: map<Channel, Typed>)
      modifies this`blobs
      ensures forall u :: BlobsOf(blobs, u) == BlobsOf(old(blobs), u) + if u == t then NewBlobs(ns, newVersions, values) else map[]
    {
      hide BlobsOf, NewBlobs;
      ghost var before := blobs;
      var todo := newVersions.Keys;
      ghost var seen: map<Channel, Version> := map[];
      NoNewBlobs(ns, values);
      while todo != {}
        invariant todo <= newVersions.Keys
        invariant seen == map c | c in newVersions && c !in todo :: newVersions[c]
        invariant forall u :: BlobsOf(blobs, u) == BlobsOf(before, u) + if u == t then NewBlobs(ns, seen, values) else map[]
      {
        var c :| c in todo;
        var value := if c in values then values[c] else EMPTY;
        var blobKey := BlobKey(t, ns, c, newVersions[c]);
        NewBlobsInsert(ns, seen, values, c, newVersions[c]);
        seen := seen[c := newVersions[c]];
        forall u ensures BlobsOf(blobs[blobKey := value], u) == BlobsOf(before, u) + if u == t then NewBlobs(ns, seen, values) else map[] {
          BlobSet(blobs, blobKey, value, u);
        }
        blobs := blobs[blobKey := value];
        todo := todo - {c};
      }
      assert seen == newVersions;
    }

    /** `put`: the rows the library writes, and the tally moved by the bytes gained. */
    method Put(t: ThreadId, ns: Namespace, id: CheckpointId, entry: Entry,
               newVersions: map<Channel, Version>, values: map<Channel, Typed>)
      requires Valid()
      requires ParentIsOlder(id, entry)
      modifies this`storage, this`blobs, sizeState
      ensures Valid()
      ensures Contents() == WithView(old(Contents()), t, PutView(ViewOf(old(Contents()), t), ns, id, entry, newVersions, values))
    {
      hide SpacesOf, WritesOf, BlobsOf, NewBlobs, WithView, Tracks, PutView;
      ghost var before := Contents();
      ghost var v := ViewOf(before, t);
      var key := SpaceKey(t, ns);
      SpacesOfRows(storage, t, ns);
      var known := key in storage && id in storage[key];
      var oldSize := if known then EntryBytes(id, storage[key][id]) else 0;
      var oldBlobs := NamedBlobsSize(t, ns, newVersions);
      BasePut(t, ns, id, entry, newVersions, values);
      ghost var after := PutView(v, ns, id, entry, newVersions, values);
      forall u ensures ViewOf(Contents(), u) == if u == t then after else ViewOf(before, u) { ViewOfWith(before, t, after, u); }
      EntryAfterPut(v, ns, id, entry, newVersions, values);
      SpacesOfRows(storage, t, ns);
      var newSize := EntryBytes(id, storage[key][id]);
      var newBlobs := NamedBlobsSize(t, ns, newVersions);
      PutSizes(v, ns, id, entry, newVersions, values);
      NewBlobsKeys(ns, newVersions, values, map[]);
      SharedByKeys(v.blobs, NewBlobs(ns, newVersions, values), NewBlobs(ns, newVersions, map[]));
      SharedByKeys(after.blobs, NewBlobs(ns, newVersions, values), NewBlobs(ns, newVersions, map[]));
      AdjustFor(before, t, newSize + newBlobs - (oldSize + oldBlobs), if known then 0 else 1);
    }

    /** `put_writes`: the library merges into one group; the tally moves by the group's change. */
    method PutWrites(t: ThreadId, ns: Namespace, id: CheckpointId, merge: Option<WriteGroup> -> Option<WriteGroup>)
      requires Valid()
      modifies this`writes, sizeState
      ensures Valid()
      ensures Contents() == WithView(old(Contents()), t, PutWritesView(ViewOf(old(Contents()), t), ns, id, merge))
    {
      hide SpacesOf, WritesOf, BlobsOf, WithView, Tracks;
      ghost var before := Contents();
      ghost var v := ViewOf(before, t);
      ghost var after := PutWritesView(v, ns, id, merge);
      var outerKey := WriteKey(t, ns, id);
      WritesOfRows(writes, t, WriteSlot(ns, id));
      var oldSize := 0;
      if outerKey in writes { oldSize := WriteGroupSize(id, writes[outerKey]); }
      var merged := merge(if outerKey in writes then Some(writes[outerKey]) else None);
      var newSize := 0;
      if merged.Some? {
        forall u ensures WritesOf(writes[outerKey := merged.value], u)
          == if u == t then WritesOf(writes, u)[WriteSlot(ns, id) := merged.value] else WritesOf(writes, u) {
          GroupSet(writes, outerKey, merged.value, u);
        }
        writes := writes[outerKey := merged.value];
        newSize := WriteGroupSize(id, merged.value);
      } else {
        forall u ensures WritesOf(writes - {outerKey}, u)
          == if u == t then WritesOf(writes, u) - {WriteSlot(ns, id)} else WritesOf(writes, u) {
          GroupRemoved(writes, outerKey, u);
        }
        writes := writes - {outerKey};
      }
      assert ViewOf(Contents(), t) == after;
      RowsReplaced(before, Contents(), t, after);
      PutWritesSizes(v, ns, id, merge);
      AdjustFor(before, t, newSize - oldSize, 0);
    }

    /** `delete_thread`: the library removes the thread's rows; its record leaves the tally. */
    method DeleteThread(t: ThreadId)
      requires Valid()
      modifies this`storage, this`writes, this`blobs, sizeState
      ensures Valid()
      ensures Contents() == DeleteData(old(Contents()), t)
    {
      hide Tracks, WithRecord, DeleteData;
      ghost var before := Contents();
      storage := map k | k in storage && k.thread != t :: storage[k];
      writes := map k | k in writes && k.thread != t :: writes[k];
      blobs := map k | k in blobs && k.thread != t :: blobs[k];
      DeletedRows(before, t);
      DeletedTracks(sizeState.Value(), before, t);
      var _ := sizeState.RemoveThread(t);
    }

    /** `clear`. */
    method Clear()
      modifies this, sizeState
      ensures Valid()
      ensures Contents() == NO_DATA
    {
      hide Tracks;
      storage, writes, blobs := map[], map[], map[];
      sizeState.Clear();
      EmptyTallyTracks();
    }

    /** The entry holds a snapshot of the channel. */
    predicate HasSnapshot(t: ThreadId, ns: Namespace, entry: Entry, c: Channel)
      reads this
    {
      c in entry.Versions() &&
      var key := BlobKey(t, ns, c, entry.Versions()[c]);
      key in blobs && blobs[key].tag != "empty"
    }

    lemma HasSnapshotIsSnapshotAt(t: ThreadId, v: View, ns: Namespace, id: CheckpointId, c: Channel)
      requires id in SpaceIn(v, ns) && v.blobs == BlobsOf(blobs, t)
      ensures HasSnapshot(t, ns, SpaceIn(v, ns)[id], c) == SnapshotAt(v, ns, id, c)
    {
      hide BlobsOf;
      var versions := SpaceIn(v, ns)[id].Versions();
      if c in versions {
        BlobsOfRows(blobs, t, BlobSlot(ns, c, versions[c]));
      }
    }

    /** The channels of `needed` that still have no snapshot at this ancestor. */
    method StillNeeded(t: ThreadId, ns: Namespace, needed: set<Channel>, entry: Entry) returns (rest: set<Channel>)
      ensures rest == set c | c in needed && !HasSnapshot(t, ns, entry, c)
    {
      rest := needed;
      var todo := needed;
      while todo != {}
        invariant todo <= needed
        invariant rest == set c | c in needed && (c in todo || !HasSnapshot(t, ns, entry, c))
      {
        var c :| c in todo;
        if HasSnapshot(t, ns, entry, c) {
          rest := rest - {c};
        }
        todo := todo - {c};
      }
    }

    /** The parent walk of `prune`: one walk for all channels at once, dropping each channel at its
        nearest snapshot, keeps what the separate walks of the channels visit. */
    method FindKept(t: ThreadId, ns: Namespace, checkpoints: Space, ghost v: View) returns (keep: set<CheckpointId>)
      requires checkpoints != map[] && checkpoints == SpaceIn(v, ns) && v.blobs == BlobsOf(blobs, t)
      ensures keep == Kept(v, ns)
    {
      hide BlobsOf, WalkedSoFar, Kept;
      var latest := FindLatest(checkpoints);
      keep := {latest};
      forall c ensures HasSnapshot(t, ns, checkpoints[latest], c) == SnapshotAt(v, ns, latest, c) {
        HasSnapshotIsSnapshotAt(t, v, ns, latest, c);
      }
      var needed := set c | c in checkpoints[latest].Versions().Keys && !HasSnapshot(t, ns, checkpoints[latest], c);
      ghost var all := needed;
      assert all == NeededChannels(v, ns);
      var parent := checkpoints[latest].parent;
      ghost var start := parent;
      ghost var walked: set<CheckpointId> := {};
      WalkStarts(v, ns, all, start);
      while parent.Some? && needed != {}
        invariant needed <= all
        invariant keep == {latest} + walked
        invariant WalkedSoFar(v, ns, all, start, walked, needed, parent)
        decreases Rank(checkpoints, parent)
      {
        var id := parent.value;
        if id !in checkpoints { break; }
        keep := keep + {id};
        var rest := StillNeeded(t, ns, needed, checkpoints[id]);
        forall c ensures HasSnapshot(t, ns, checkpoints[id], c) == SnapshotAt(v, ns, id, c) {
          HasSnapshotIsSnapshotAt(t, v, ns, id, c);
        }
        WalkAdvances(v, ns, all, start, walked, needed, id, rest);
        RankDecreases(checkpoints, id);
        walked, needed, parent := walked + {id}, rest, checkpoints[id].parent;
      }
      KeptFromWalk(v, ns, all, start, walked, needed, parent);
    }

    /** Entries of a namespace that a prune drops, their bytes and their number. */
    method DropCheckpoints(checkpoints: Space, keep: set<CheckpointId>) returns (kept: Space, size: int, count: int)
      ensures kept == Restrict(checkpoints, keep)
      ensures SumOver(checkpoints, EntryBytes) == SumOver(kept, EntryBytes) + size
      ensures |checkpoints| == |kept| + count
    {
      hide EntryBytes;
      size, count := 0, 0;
      var todo := checkpoints.Keys - keep;
      ghost var left: map<CheckpointId, Entry> := checkpoints;
      while todo != {}
        invariant todo <= checkpoints.Keys - keep
        invariant left == map id | id in checkpoints && (id in keep || id in todo) :: checkpoints[id]
        invariant SumOver(checkpoints, EntryBytes) == SumOver(left, EntryBytes) + size
        invariant |checkpoints| == |left| + count
      {
        var id :| id in todo;
        SumRemove(left, EntryBytes, id);
        assert (left - {id}).Keys == left.Keys - {id};
        size := size + EntryBytes(id, checkpoints[id]);
        count := count + 1;
        left := left - {id};
        todo := todo - {id};
      }
      kept := map id | id in checkpoints && id in keep :: checkpoints[id];
      assert left == kept;
    }

    /** The first half of `prune` for one thread: cut every namespace down to its kept checkpoints
        and collect the keys of the writes and blobs they own. */
    method PruneSpaces(t: ThreadId, namespaces: set<Namespace>, ghost v: View)
      returns (keptWrites: set<WriteKey>, keptBlobs: set<BlobKey>, size: int, count: int)
      requires v == ViewOf(Contents(), t) && namespaces == v.spaces.Keys
      modifies this`storage
      ensures KeptWritesIn(v, t, namespaces, keptWrites) && KeptBlobsIn(v, t, namespaces, keptBlobs)
      ensures OthersUntouched(old(storage), storage, t)
      ensures SpacesOf(storage, t) == PrunedSpaces(v, {})
      ensures SumOver(v.spaces, SpaceWeight) == SumOver(SpacesOf(storage, t), SpaceWeight) + size
      ensures SumOver(v.spaces, CountWeight) == SumOver(SpacesOf(storage, t), CountWeight) + count
    {
      hide SpacesOf, WritesOf, BlobsOf, PrunedSpaces, KeptWritesIn, KeptBlobsIn, SumOver;
      NothingKept(v, t);
      PrunedSpacesStart(v);
      keptWrites, keptBlobs, size, count := {}, {}, 0, 0;
      ghost var done: set<Namespace> := {};
      var todo := namespaces;
      while todo != {}
        invariant todo <= namespaces && done == namespaces - todo
        invariant blobs == old(blobs)
        invariant KeptWritesIn(v, t, done, keptWrites) && KeptBlobsIn(v, t, done, keptBlobs)
        invariant OthersUntouched(old(storage), storage, t)
        invariant SpacesOf(storage, t) == PrunedSpaces(v, todo)
        invariant SumOver(v.spaces, SpaceWeight) == SumOver(SpacesOf(storage, t), SpaceWeight) + size
        invariant SumOver(v.spaces, CountWeight) == SumOver(SpacesOf(storage, t), CountWeight) + count
      {
        var ns :| ns in todo;
        var more, moreBlobs, droppedSize, droppedCount := PruneSpace(t, ns, todo, v);
        MoreKept(v, t, done, ns, keptWrites, more, keptBlobs, moreBlobs);
        keptWrites, keptBlobs := keptWrites + more, keptBlobs + moreBlobs;
        size, count := size + droppedSize, count + droppedCount;
        done, todo := done + {ns}, todo - {ns};
      }
      assert done == namespaces;
    }

    /** One namespace of `prune`. */
    method PruneSpace(t: ThreadId, ns: Namespace, ghost todo: set<Namespace>, ghost v: View)
      returns (keptWrites: set<WriteKey>, keptBlobs: set<BlobKey>, size: int, count: int)
      requires ns in todo && todo <= v.spaces.Keys && v.blobs == BlobsOf(blobs, t)
      requires SpacesOf(storage, t) == PrunedSpaces(v, todo)
      modifies this`storage
      ensures KeptWritesIn(v, t, {ns}, keptWrites) && KeptBlobsIn(v, t, {ns}, keptBlobs)
      ensures OthersUntouched(old(storage), storage, t)
      ensures SpacesOf(storage, t) == PrunedSpaces(v, todo - {ns})
      ensures SumOver(SpacesOf(old(storage), t), SpaceWeight) == SumOver(SpacesOf(storage, t), SpaceWeight) + size
      ensures SumOver(SpacesOf(old(storage), t), CountWeight) == SumOver(SpacesOf(storage, t), CountWeight) + count
    {
      hide SpacesOf, WritesOf, BlobsOf, Kept, Restrict;
      var key := SpaceKey(t, ns);
      SpacesOfRows(storage, t, ns);
      var checkpoints := storage[key];
      ghost var before := SpacesOf(storage, t);
      PrunedSpacesNext(v, todo, ns);
      if checkpoints == map[] {
        forall u ensures SpacesOf(storage - {key}, u) == if u == t then SpacesOf(storage, u) - {ns} else SpacesOf(storage, u) {
          SpaceRemoved(storage, key, u);
        }
        storage := storage - {key};
        SumRemove(before, SpaceWeight, ns);
        SumRemove(before, CountWeight, ns);
        return {}, {}, 0, 0;
      }
      var keep := FindKept(t, ns, checkpoints, v);
      var kept: Space;
      kept, size, count := DropCheckpoints(checkpoints, keep);
      forall u ensures SpacesOf(storage[key := kept], u) == if u == t then SpacesOf(storage, u)[ns := kept] else SpacesOf(storage, u) {
        SpaceSet(storage, key, kept, u);
      }
      storage := storage[key := kept];
      SumUpdate(before, SpaceWeight, ns, kept);
      SumUpdate(before, CountWeight, ns, kept);
      keptWrites := set id | id in keep :: WriteKey(t, ns, id);
      keptBlobs := set id, c | id in keep && id in checkpoints && c in checkpoints[id].Versions() ::
        BlobKey(t, ns, c, checkpoints[id].Versions()[c]);
      KeptKeys(v, t, ns, keptWrites, keptBlobs);
    }

    /** Deletes the thread's write groups that no kept checkpoint owns. */
    method PruneWrites(t: ThreadId, kept: set<WriteKey>, ghost v: View) returns (size: int)
      requires v.writes == WritesOf(writes, t) && KeptWritesIn(v, t, v.spaces.Keys, kept)
      modifies this`writes
      ensures forall u :: u != t ==> WritesOf(writes, u) == WritesOf(old(writes), u)
      ensures WritesOf(writes, t) == map s | s in v.writes && KeepsCheckpoint(v, s.ns, s.id) :: v.writes[s]
      ensures SumOver(v.writes, GroupWeight) == SumOver(WritesOf(writes, t), GroupWeight) + size
    {
      hide WritesOf, Kept, KeptWritesIn, Left;
      ghost var gone := (k: WriteKey) => k.thread == t && k !in kept;
      size := 0;
      var todo := writes.Keys;
      NothingLeftOut(writes, gone);
      while todo != {}
        invariant todo <= old(writes).Keys
        invariant writes == Left(old(writes), todo, gone)
        invariant SumOver(v.writes, GroupWeight) == SumOver(WritesOf(writes, t), GroupWeight) + size
      {
        var k :| k in todo;
        LeaveOut(old(writes), todo, gone, k);
        if k.thread == t && k !in kept {
          var groupSize := WriteGroupSize(k.id, writes[k]);
          GroupDropped(writes, k);
          size := size + groupSize;
          writes := writes - {k};
        }
        todo := todo - {k};
      }
      LeftIs(old(writes), gone);
      WritesCut(old(writes), writes, t, kept, v);
    }

    /** Deletes the thread's blobs that no kept checkpoint names. */
    method PruneBlobs(t: ThreadId, kept: set<BlobKey>, ghost v: View) returns (size: int)
      requires v.blobs == BlobsOf(blobs, t) && KeptBlobsIn(v, t, v.spaces.Keys, kept)
      modifies this`blobs
      ensures forall u :: u != t ==> BlobsOf(blobs, u) == BlobsOf(old(blobs), u)
      ensures BlobsOf(blobs, t) == map s | s in v.blobs && KeepsBlob(v, s) :: v.blobs[s]
      ensures SumOver(v.blobs, BlobWeight) == SumOver(BlobsOf(blobs, t), BlobWeight) + size
    {
      hide BlobsOf, Kept, KeptBlobsIn, Left;
      ghost var gone := (k: BlobKey) => k.thread == t && k !in kept;
      size := 0;
      var todo := blobs.Keys;
      NothingLeftOut(blobs, gone);
      while todo != {}
        invariant todo <= old(blobs).Keys
        invariant blobs == Left(old(blobs), todo, gone)
        invariant SumOver(v.blobs, BlobWeight) == SumOver(BlobsOf(blobs, t), BlobWeight) + size
      {
        var k :| k in todo;
        LeaveOut(old(blobs), todo, gone, k);
        if k.thread == t && k !in kept {
          BlobDropped(blobs, k);
          size := size + BlobBytes(k.channel, k.version, blobs[k]);
          blobs := blobs - {k};
        }
        todo := todo - {k};
      }
      LeftIs(old(blobs), gone);
      BlobsCut(old(blobs), blobs, t, kept, v);
    }

    /** `prune(strategy="keep_latest")` of one thread. */
    method PruneThread(t: ThreadId)
      requires Valid()
      modifies this`storage, this`writes, this`blobs, sizeState
      ensures Valid()
      ensures Contents() == PruneData(old(Contents()), t)
    {
      hide SpacesOf, WritesOf, BlobsOf, Tracks, WithView, Kept, Restrict;
      ghost var before := Contents();
      ghost var v := ViewOf(before, t);
      var namespaces := set k | k in storage && k.thread == t :: k.ns;
      NamespacesAreSpaces(storage, t, namespaces);
      if namespaces == {} {
        assert v.spaces == map[];
        RowsReplaced(before, before, t, v);
        return;
      }
      var keptWrites, keptBlobs, size, count := PruneSpaces(t, namespaces, v);
      var writesSize := PruneWrites(t, keptWrites, v);
      var blobsSize := PruneBlobs(t, keptBlobs, v);
      PrunedSpacesDone(v);
      assert ViewOf(Contents(), t) == PruneView(v);
      RowsReplaced(before, Contents(), t, PruneView(v));
      AdjustFor(before, t, -(size + writesSize + blobsSize), -count);
    }

    /** `prune`; false stands for the error raised for a strategy it does not know. */
    method Prune(threads: seq<ThreadId>, strategy: string) returns (supported: bool)
      requires Valid()
      modifies this`storage, this`writes, this`blobs, sizeState
      ensures Valid()
      ensures supported <==> strategy == "keep_latest" || strategy == "delete" || strategy == "delete_all"
      ensures strategy == "keep_latest" ==> Contents() == PruneAll(old(Contents()), threads)
      ensures strategy == "delete" || strategy == "delete_all" ==> Contents() == DeleteAll(old(Contents()), threads)
      ensures !supported ==> Contents() == old(Contents())
    {
      hide Tracks, PruneData, DeleteData;
      if strategy == "delete" || strategy == "delete_all" {
        for i := 0 to |threads|
          invariant Valid()
          invariant Contents() == DeleteAll(old(Contents()), threads[..i])
        {
          DeleteThread(threads[i]);
          assert threads[..i + 1][..i] == threads[..i];
        }
        assert threads[..|threads|] == threads;
        return true;
      }
      if strategy != "keep_latest" { return false; }
      for i := 0 to |threads|
        invariant Valid()
        invariant Contents() == PruneAll(old(Contents()), threads[..i])
      {
        PruneThread(threads[i]);
        assert threads[..i + 1][..i] == threads[..i];
      }
      assert threads[..|threads|] == threads;
      return true;
    }

    /** `discard_checkpoint_size` and the deletion of one checkpoint; a namespace left empty goes too. */
    method DiscardCheckpoint(t: ThreadId, ns: Namespace, id: CheckpointId)
      requires Valid()
      requires SpaceKey(t, ns) in storage && id in storage[SpaceKey(t, ns)]
      modifies this`storage, sizeState
      ensures Valid()
      ensures var k := SpaceKey(t, ns);
        storage == if old(storage)[k].Keys == {id} then old(storage) - {k} else old(storage)[k := old(storage)[k] - {id}]
    {
      hide ViewOf, ViewBytes, ViewCount, Tracks, EntryBytes;
      ghost var before := Contents();
      var k := SpaceKey(t, ns);
      var space := storage[k];
      var rest: Space := space - {id};
      LastEntry(space, id);
      storage := if rest == map[] then storage - {k} else storage[k := rest];
      DiscardedSizes(before, Contents(), k, id, rest);
      AdjustFor(before, t, -EntryBytes(id, space[id]), -1);
    }

    /** `_delete_checkpoints_for_thread` with a run id (ops.py): the run's checkpoints go, one by
        one; writes and blobs stay. */
    method DeleteRun(t: ThreadId, run: RunId)
      requires Valid()
      modifies this`storage, sizeState
      ensures Valid()
      ensures Contents() == DeleteRunData(old(Contents()), t, run)
    {
      hide SpacesOf, WritesOf, BlobsOf, Tracks, WithView, WithoutRun;
      ghost var before := Contents();
      ghost var v := ViewOf(before, t);
      var todo := set k | k in storage && k.thread == t :: k.ns;
      NamespacesAreSpaces(storage, t, todo);
      RunCutStart(v, run);
      while todo != {}
        invariant todo <= v.spaces.Keys
        invariant Valid()
        invariant forall u :: SpacesOf(storage, u) == if u == t then RunCut(v, run, todo) else SpacesOf(before.storage, u)
      {
        var ns :| ns in todo;
        RunCutNext(v, run, todo, ns);
        SpacesOfRows(storage, t, ns);
        DeleteRunSpace(t, ns, run);
        todo := todo - {ns};
      }
      RunCutDone(v, run);
      assert ViewOf(Contents(), t) == DeleteRunView(v, run);
      RowsReplaced(before, Contents(), t, DeleteRunView(v, run));
    }

    /** One namespace of `DeleteRun`. */
    method DeleteRunSpace(t: ThreadId, ns: Namespace, run: RunId)
      requires Valid()
      requires SpaceKey(t, ns) in storage
      modifies this`storage, sizeState
      ensures Valid()
      ensures var space := old(storage)[SpaceKey(t, ns)];
        forall u :: SpacesOf(storage, u) ==
          if u != t then SpacesOf(old(storage), u)
          else if space != map[] && WithoutRun(space, run) == map[] then SpacesOf(old(storage), u) - {ns}
          else SpacesOf(old(storage), u)[ns := WithoutRun(space, run)]
    {
      hide Tracks, WithoutRun, SpacesOf, Left;
      ghost var before := storage;
      var k := SpaceKey(t, ns);
      var space := storage[k];
      var todo := space.Keys;
      ghost var left: Space := space;
      ghost var gone := (id: CheckpointId) => id in space && space[id].metadata.value == Some(run);
      NothingLeftOut(space, gone);
      assert before[k := left] == before;
      while todo != {}
        invariant todo <= space.Keys
        invariant left == Left(space, todo, gone)
        invariant Valid()
        invariant storage == if left == map[] && space != map[] then before - {k} else before[k := left]
      {
        var id :| id in todo;
        LeaveOut(space, todo, gone, id);
        if space[id].metadata.value == Some(run) {
          DiscardCheckpoint(t, ns, id);
          LastEntry(left, id);
          left := left - {id};
        }
        todo := todo - {id};
      }
      LeftIs(space, gone);
      WithoutRunRows(space, run, left);
      SpaceReplaced(before, storage, k, left, left == map[] && space != map[]);
    }

    /** The checkpoint part of `Threads.copy` (ops.py): the target is a new thread. */
    method CopyThread(source: ThreadId, target: ThreadId)
      requires Valid()
      requires source != target && ViewOf(Contents(), target) == NO_ROWS
      modifies this`storage, this`writes, this`blobs, sizeState
      ensures Valid()
      ensures Contents() == CopyData(old(Contents()), source, target)
    {
      hide Tracks, WithRecord, CopyData, ViewOf;
      ghost var before := Contents();
      storage := storage + SpaceCopies(storage, source, target);
      writes := writes + WriteCopies(writes, source, target);
      blobs := blobs + BlobCopies(blobs, source, target);
      CopiedRows(before, Contents(), source, target);
      CopiedTracks(sizeState.Value(), before, source, target);
      sizeState.CopyThread(source, target);
    }
  }

  /** The one walk, at `parent` with `needed` still open, against the walks of the channels. */
  ghost predicate WalkedSoFar(v: View, ns: Namespace, all: set<Channel>, start: Option<CheckpointId>,
                              walked: set<CheckpointId>, needed: set<Channel>, parent: Option<CheckpointId>)
  {
    && (forall c :: c in needed ==> WalkIds(History(v, ns, start, c)) == walked + WalkIds(History(v, ns, parent, c)))
    && (forall c :: c in all && c !in needed ==> WalkIds(History(v, ns, start, c)) <= walked)
    && (walked == {} || exists c :: c in all && walked <= WalkIds(History(v, ns, start, c)))
  }

  lemma WalkStarts(v: View, ns: Namespace, all: set<Channel>, start: Option<CheckpointId>)
    ensures WalkedSoFar(v, ns, all, start, {}, all, start)
  {
  }

  lemma WalkAdvances(v: View, ns: Namespace, all: set<Channel>, start: Option<CheckpointId>,
                     walked: set<CheckpointId>, needed: set<Channel>, id: CheckpointId, rest: set<Channel>)
    requires needed <= all && needed != {} && id in SpaceIn(v, ns)
    requires WalkedSoFar(v, ns, all, start, walked, needed, Some(id))
    requires rest == set c | c in needed && !SnapshotAt(v, ns, id, c)
    ensures WalkedSoFar(v, ns, all, start, walked + {id}, rest, SpaceIn(v, ns)[id].parent)
  {
    hide History, WalkIds, SnapshotAt;
    forall c ensures WalkIds(History(v, ns, Some(id), c))
      == {id} + if SnapshotAt(v, ns, id, c) then {} else WalkIds(History(v, ns, SpaceIn(v, ns)[id].parent, c))
    {
      WalkStep(v, ns, id, c);
    }
    var open :| open in needed;
    assert walked + {id} <= WalkIds(History(v, ns, start, open));
  }

  /** Where the walk has stopped, it has visited exactly what the separate walks visit. */
  lemma KeptFromWalk(v: View, ns: Namespace, all: set<Channel>, start: Option<CheckpointId>,
                     walked: set<CheckpointId>, needed: set<Channel>, parent: Option<CheckpointId>)
    requires SpaceIn(v, ns) != map[]
    requires all == NeededChannels(v, ns) && start == SpaceIn(v, ns)[Latest(SpaceIn(v, ns))].parent
    requires needed <= all
    requires needed == {} || parent.None? || parent.value !in SpaceIn(v, ns)
    requires WalkedSoFar(v, ns, all, start, walked, needed, parent)
    ensures Kept(v, ns) == {Latest(SpaceIn(v, ns))} + walked
  {
    forall c | c in all ensures WalkIds(History(v, ns, start, c)) <= walked {
      if c in needed { assert WalkIds(History(v, ns, parent, c)) == {}; }
    }
  }

  /** The namespaces of a thread while a prune still has `todo` ahead of it. */
  ghost function PrunedSpaces(v: View, todo: set<Namespace>): map<Namespace, Space> {
    map ns | ns in v.spaces && (ns in todo || v.spaces[ns] != map[]) ::
      if ns in todo then v.spaces[ns] else Restrict(v.spaces[ns], Kept(v, ns))
  }

  lemma PrunedSpacesStart(v: View)
    ensures PrunedSpaces(v, v.spaces.Keys) == v.spaces
  {
  }

  lemma PrunedSpacesNext(v: View, todo: set<Namespace>, ns: Namespace)
    requires ns in todo && ns in v.spaces
    ensures ns in PrunedSpaces(v, todo) && PrunedSpaces(v, todo)[ns] == v.spaces[ns]
    ensures PrunedSpaces(v, todo - {ns})
         == if v.spaces[ns] == map[] then PrunedSpaces(v, todo) - {ns}
            else PrunedSpaces(v, todo)[ns := Restrict(v.spaces[ns], Kept(v, ns))]
  {
    hide Kept, Restrict;
  }

  lemma PrunedSpacesDone(v: View)
    requires v.spaces != map[]
    ensures PrunedSpaces(v, {}) == PruneView(v).spaces
  {
    hide Kept, Restrict;
  }

  lemma NamespacesAreSpaces(storage: map<SpaceKey, Space>, t: ThreadId, namespaces: set<Namespace>)
    requires namespaces == set k | k in storage && k.thread == t :: k.ns
    ensures namespaces == SpacesOf(storage, t).Keys
  {
  }

  lemma KeptKeys(v: View, t: ThreadId, ns: Namespace, keptWrites: set<WriteKey>, keptBlobs: set<BlobKey>)
    requires SpaceIn(v, ns) != map[]
    requires keptWrites == set id | id in Kept(v, ns) :: WriteKey(t, ns, id)
    requires keptBlobs == set id, c | id in Kept(v, ns) && id in SpaceIn(v, ns) && c in SpaceIn(v, ns)[id].Versions() ::
      BlobKey(t, ns, c, SpaceIn(v, ns)[id].Versions()[c])
    ensures KeptWritesIn(v, t, {ns}, keptWrites) && KeptBlobsIn(v, t, {ns}, keptBlobs)
  {
    KeptInSpace(v, ns);
    hide Kept;
    forall k: BlobKey ensures k in keptBlobs <==> k.thread == t && k.ns == ns && KeepsBlob(v, BlobSlot(k.ns, k.channel, k.version)) {
      var slot := BlobSlot(k.ns, k.channel, k.version);
      if k.thread == t && k.ns == ns && KeepsBlob(v, slot) {
        var id :| KeepsCheckpoint(v, ns, id) && Names(SpaceIn(v, ns)[id], slot);
        assert BlobKey(t, ns, k.channel, SpaceIn(v, ns)[id].Versions()[k.channel]) == k;
      }
      if k in keptBlobs {
        var id, c :| id in Kept(v, ns) && id in SpaceIn(v, ns) && c in SpaceIn(v, ns)[id].Versions()
          && k == BlobKey(t, ns, c, SpaceIn(v, ns)[id].Versions()[c]);
        assert KeepsCheckpoint(v, ns, id) && Names(SpaceIn(v, ns)[id], slot);
      }
    }
  }

  lemma NothingKept(v: View, t: ThreadId)
    ensures KeptWritesIn(v, t, {}, {}) && KeptBlobsIn(v, t, {}, {})
  {
  }

  lemma MoreKept(v: View, t: ThreadId, done: set<Namespace>, ns: Namespace,
                 writes: set<WriteKey>, moreWrites: set<WriteKey>, blobs: set<BlobKey>, moreBlobs: set<BlobKey>)
    requires KeptWritesIn(v, t, done, writes) && KeptBlobsIn(v, t, done, blobs)
    requires KeptWritesIn(v, t, {ns}, moreWrites) && KeptBlobsIn(v, t, {ns}, moreBlobs)
    ensures KeptWritesIn(v, t, done + {ns}, writes + moreWrites) && KeptBlobsIn(v, t, done + {ns}, blobs + moreBlobs)
  {
    hide KeepsCheckpoint, KeepsBlob;
  }

  lemma WritesCut(before: map<WriteKey, WriteGroup>, after: map<WriteKey, WriteGroup>, t: ThreadId, kept: set<WriteKey>, v: View)
    requires v.writes == WritesOf(before, t) && KeptWritesIn(v, t, v.spaces.Keys, kept)
    requires after == map k | k in before && (k.thread != t || k in kept) :: before[k]
    ensures forall u :: u != t ==> WritesOf(after, u) == WritesOf(before, u)
    ensures WritesOf(after, t) == map s | s in v.writes && KeepsCheckpoint(v, s.ns, s.id) :: v.writes[s]
  {
    hide WritesOf, KeepsCheckpoint;
    KeptHasNamespace(v);
    forall u ensures WritesOf(after, u) == if u == t then map s | s in v.writes && KeepsCheckpoint(v, s.ns, s.id) :: v.writes[s] else WritesOf(before, u) {
      forall s: WriteSlot
        ensures s in WritesOf(after, u) <==> WriteKey(u, s.ns, s.id) in after
        ensures s in WritesOf(after, u) ==> WritesOf(after, u)[s] == after[WriteKey(u, s.ns, s.id)]
        ensures s in WritesOf(before, u) <==> WriteKey(u, s.ns, s.id) in before
        ensures s in WritesOf(before, u) ==> WritesOf(before, u)[s] == before[WriteKey(u, s.ns, s.id)]
      {
        WritesOfRows(after, u, s);
        WritesOfRows(before, u, s);
      }
    }
  }

  lemma KeptHasNamespace(v: View)
    ensures forall ns, id :: KeepsCheckpoint(v, ns, id) ==> ns in v.spaces
    ensures forall s :: KeepsBlob(v, s) ==> s.ns in v.spaces
  {
  }

  lemma BlobsCut(before: map<BlobKey, Typed>, after: map<BlobKey, Typed>, t: ThreadId, kept: set<BlobKey>, v: View)
    requires v.blobs == BlobsOf(before, t) && KeptBlobsIn(v, t, v.spaces.Keys, kept)
    requires after == map k | k in before && (k.thread != t || k in kept) :: before[k]
    ensures forall u :: u != t ==> BlobsOf(after, u) == BlobsOf(before, u)
    ensures BlobsOf(after, t) == map s | s in v.blobs && KeepsBlob(v, s) :: v.blobs[s]
  {
    hide BlobsOf, KeepsBlob;
    KeptHasNamespace(v);
    forall u ensures BlobsOf(after, u) == if u == t then map s | s in v.blobs && KeepsBlob(v, s) :: v.blobs[s] else BlobsOf(before, u) {
      forall s: BlobSlot
        ensures s in BlobsOf(after, u) <==> BlobKey(u, s.ns, s.channel, s.version) in after
        ensures s in BlobsOf(after, u) ==> BlobsOf(after, u)[s] == after[BlobKey(u, s.ns, s.channel, s.version)]
        ensures s in BlobsOf(before, u) <==> BlobKey(u, s.ns, s.channel, s.version) in before
        ensures s in BlobsOf(before, u) ==> BlobsOf(before, u)[s] == before[BlobKey(u, s.ns, s.channel, s.version)]
      {
        BlobsOfRows(after, u, s);
        BlobsOfRows(before, u, s);
        assert s == BlobSlot(s.ns, s.channel, s.version);
      }
    }
  }

  lemma NoNewBlobs(ns: Namespace, values: map<Channel, Typed>)
    ensures NewBlobs(ns, map[], values) == map[]
  {
  }

  /** After a put the entry is there, and every named blob is stored. */
  lemma EntryAfterPut(v: View, ns: Namespace, id: CheckpointId, entry: Entry,
                      newVersions: map<Channel, Version>, values: map<Channel, Typed>)
    requires ParentIsOlder(id, entry)
    ensures var after := PutView(v, ns, id, entry, newVersions, values);
      && ns in after.spaces && id in after.spaces[ns] && after.spaces[ns][id] == entry
      && Shared(after.blobs, NewBlobs(ns, newVersions, values)) == NewBlobs(ns, newVersions, values)
  {
  }

  lemma DeletedRows(before: Data, t: ThreadId)
    ensures Data(map k | k in before.storage && k.thread != t :: before.storage[k],
                 map k | k in before.writes && k.thread != t :: before.writes[k],
                 map k | k in before.blobs && k.thread != t :: before.blobs[k]) == DeleteData(before, t)
  {
    hide WithSpaces, WithWrites, WithBlobs;
    WithNoSpaces(before.storage, t);
    WithNoWrites(before.writes, t);
    WithNoBlobs(before.blobs, t);
  }

  lemma WithNoSpaces(storage: map<SpaceKey, Space>, t: ThreadId)
    ensures WithSpaces(storage, t, map[]) == map k | k in storage && k.thread != t :: storage[k]
  {
  }

  lemma WithNoWrites(writes: map<WriteKey, WriteGroup>, t: ThreadId)
    ensures WithWrites(writes, t, map[]) == map k | k in writes && k.thread != t :: writes[k]
  {
  }

  lemma WithNoBlobs(blobs: map<BlobKey, Typed>, t: ThreadId)
    ensures WithBlobs(blobs, t, map[]) == map k | k in blobs && k.thread != t :: blobs[k]
  {
  }

  lemma DeletedTracks(tally: Tally, before: Data, t: ThreadId)
    requires Tracks(tally, before)
    ensures Tracks(WithRecord(tally, t, Totals(0, 0)), DeleteData(before, t))
  {
    hide ViewOf, ViewBytes, ViewCount, WithRecord, WithView;
    var after := DeleteData(before, t);
    forall u ensures ViewOf(after, u) == if u == t then NO_ROWS else ViewOf(before, u) {
      ViewOfWith(before, t, NO_ROWS, u);
    }
    DeletedSizes();
    AdjustTracks(tally, before, after, t, -tally.Of(t).bytes, -tally.Of(t).count);
  }

  /** A namespace without one of its checkpoints, or without its last one. */
  lemma SpaceWithoutEntry(spaces: map<Namespace, Space>, ns: Namespace, space: Space, id: CheckpointId, rest: Space)
    requires ns in spaces && spaces[ns] == space && id in space && rest == space - {id}
    ensures SumOver(spaces[ns := rest], SpaceWeight) == SumOver(spaces, SpaceWeight) - EntryBytes(id, space[id])
    ensures SumOver(spaces[ns := rest], CountWeight) == SumOver(spaces, CountWeight) - 1
    ensures rest == map[] ==>
      && SumOver(spaces - {ns}, SpaceWeight) == SumOver(spaces, SpaceWeight) - EntryBytes(id, space[id])
      && SumOver(spaces - {ns}, CountWeight) == SumOver(spaces, CountWeight) - 1
  {
    hide EntryBytes;
    SumRemove(space, EntryBytes, id);
    assert rest.Keys == space.Keys - {id};
    SumUpdate(spaces, SpaceWeight, ns, rest);
    SumUpdate(spaces, CountWeight, ns, rest);
    if rest == map[] {
      SumRemove(spaces, SpaceWeight, ns);
      SumRemove(spaces, CountWeight, ns);
    }
  }

  /** The namespaces of a thread while the deletion of a run still has `todo` ahead of it. */
  ghost function RunCut(v: View, run: RunId, todo: set<Namespace>): map<Namespace, Space> {
    map ns | ns in v.spaces && (ns in todo || v.spaces[ns] == map[] || WithoutRun(v.spaces[ns], run) != map[]) ::
      if ns in todo then v.spaces[ns] else WithoutRun(v.spaces[ns], run)
  }

  lemma RunCutStart(v: View, run: RunId)
    ensures RunCut(v, run, v.spaces.Keys) == v.spaces
  {
  }

  lemma RunCutNext(v: View, run: RunId, todo: set<Namespace>, ns: Namespace)
    requires ns in todo && ns in v.spaces
    ensures ns in RunCut(v, run, todo) && RunCut(v, run, todo)[ns] == v.spaces[ns]
    ensures RunCut(v, run, todo - {ns})
         == if v.spaces[ns] != map[] && WithoutRun(v.spaces[ns], run) == map[] then RunCut(v, run, todo) - {ns}
            else RunCut(v, run, todo)[ns := WithoutRun(v.spaces[ns], run)]
  {
    hide WithoutRun;
  }

  lemma RunCutDone(v: View, run: RunId)
    ensures RunCut(v, run, {}) == DeleteRunView(v, run).spaces
  {
    hide WithoutRun;
  }

  function SpaceCopies(storage: map<SpaceKey, Space>, source: ThreadId, target: ThreadId): map<SpaceKey, Space> {
    map k | k in storage && k.thread == source :: SpaceKey(target, k.ns) := storage[k]
  }

  function WriteCopies(writes: map<WriteKey, WriteGroup>, source: ThreadId, target: ThreadId): map<WriteKey, WriteGroup> {
    map k | k in writes && k.thread == source :: WriteKey(target, k.ns, k.id) := writes[k]
  }

  function BlobCopies(blobs: map<BlobKey, Typed>, source: ThreadId, target: ThreadId): map<BlobKey, Typed> {
    map k | k in blobs && k.thread == source :: BlobKey(target, k.ns, k.channel, k.version) := blobs[k]
  }

  lemma CopiedRows(before: Data, after: Data, source: ThreadId, target: ThreadId)
    requires source != target && ViewOf(before, target) == NO_ROWS
    requires after == Data(before.storage + SpaceCopies(before.storage, source, target),
                           before.writes + WriteCopies(before.writes, source, target),
                           before.blobs + BlobCopies(before.blobs, source, target))
    ensures after == CopyData(before, source, target)
  {
    hide SpacesOf, WritesOf, BlobsOf, WithSpaces, WithWrites, WithBlobs, SpaceCopies, WriteCopies, BlobCopies;
    CopiedSpaces(before.storage, source, target);
    CopiedWrites(before.writes, source, target);
    CopiedBlobs(before.blobs, source, target);
  }

  lemma CopiedSpaces(storage: map<SpaceKey, Space>, source: ThreadId, target: ThreadId)
    requires source != target && SpacesOf(storage, target) == map[]
    ensures storage + SpaceCopies(storage, source, target) == WithSpaces(storage, target, SpacesOf(storage, source))
  {
    hide SpacesOf, WithSpaces;
    var copied, replaced := storage + SpaceCopies(storage, source, target), WithSpaces(storage, target, SpacesOf(storage, source));
    forall k: SpaceKey ensures (k in copied <==> k in replaced) && (k in copied ==> copied[k] == replaced[k]) {
      assert k == SpaceKey(k.thread, k.ns);
      SpacesOfRows(storage, k.thread, k.ns);
      SpacesOfRows(storage, source, k.ns);
      SpacesOfRows(replaced, k.thread, k.ns);
      SpacesOfWith(storage, target, SpacesOf(storage, source), k.thread);
      if SpaceKey(source, k.ns) in storage { assert SpaceKey(target, SpaceKey(source, k.ns).ns) in SpaceCopies(storage, source, target); }
    }
  }

  lemma CopiedWrites(writes: map<WriteKey, WriteGroup>, source: ThreadId, target: ThreadId)
    requires source != target && WritesOf(writes, target) == map[]
    ensures writes + WriteCopies(writes, source, target) == WithWrites(writes, target, WritesOf(writes, source))
  {
    hide WritesOf, WithWrites;
    var copied, replaced := writes + WriteCopies(writes, source, target), WithWrites(writes, target, WritesOf(writes, source));
    forall k: WriteKey ensures (k in copied <==> k in replaced) && (k in copied ==> copied[k] == replaced[k]) {
      var s, origin := WriteSlot(k.ns, k.id), WriteKey(source, k.ns, k.id);
      assert k == WriteKey(k.thread, s.ns, s.id);
      WritesOfRows(writes, k.thread, s);
      WritesOfRows(writes, source, s);
      WritesOfRows(replaced, k.thread, s);
      WritesOfWith(writes, target, WritesOf(writes, source), k.thread);
      if origin in writes { assert WriteKey(target, origin.ns, origin.id) in WriteCopies(writes, source, target); }
    }
  }

  lemma CopiedBlobs(blobs: map<BlobKey, Typed>, source: ThreadId, target: ThreadId)
    requires source != target && BlobsOf(blobs, target) == map[]
    ensures blobs + BlobCopies(blobs, source, target) == WithBlobs(blobs, target, BlobsOf(blobs, source))
  {
    hide BlobsOf, WithBlobs;
    var copied, replaced := blobs + BlobCopies(blobs, source, target), WithBlobs(blobs, target, BlobsOf(blobs, source));
    forall k: BlobKey ensures (k in copied <==> k in replaced) && (k in copied ==> copied[k] == replaced[k]) {
      var s, origin := BlobSlot(k.ns, k.channel, k.version), BlobKey(source, k.ns, k.channel, k.version);
      assert k == BlobKey(k.thread, s.ns, s.channel, s.version);
      BlobsOfRows(blobs, k.thread, s);
      BlobsOfRows(blobs, source, s);
      BlobsOfRows(replaced, k.thread, s);
      BlobsOfWith(blobs, target, BlobsOf(blobs, source), k.thread);
      if origin in blobs { assert BlobKey(target, origin.ns, origin.channel, origin.version) in BlobCopies(blobs, source, target); }
    }
  }

  /** One namespace of one thread set to other entries, or gone. */
  lemma SpaceReplaced(before: map<SpaceKey, Space>, after: map<SpaceKey, Space>, k: SpaceKey, space: Space, gone: bool)
    requires after == if gone then before - {k} else before[k := space]
    ensures forall u ::
      SpacesOf(after, u) ==
        if u != k.thread then SpacesOf(before, u)
        else if gone then SpacesOf(before, u) - {k.ns}
        else SpacesOf(before, u)[k.ns := space]
  {
    hide SpacesOf;
    forall u ensures SpacesOf(after, u) ==
        if u != k.thread then SpacesOf(before, u)
        else if gone then SpacesOf(before, u) - {k.ns}
        else SpacesOf(before, u)[k.ns := space] {
      SpaceRemoved(before, k, u);
      SpaceSet(before, k, space, u);
    }
  }

  /** What a thread loses with one checkpoint. */
  lemma DiscardedSizes(before: Data, after: Data, k: SpaceKey, id: CheckpointId, rest: Space)
    requires k in before.storage && id in before.storage[k] && rest == before.storage[k] - {id}
    requires after == before.(storage := if rest == map[] then before.storage - {k} else before.storage[k := rest])
    ensures forall u :: u != k.thread ==> ViewOf(after, u) == ViewOf(before, u)
    ensures ViewBytes(ViewOf(after, k.thread)) == ViewBytes(ViewOf(before, k.thread)) - EntryBytes(id, before.storage[k][id])
    ensures ViewCount(ViewOf(after, k.thread)) == ViewCount(ViewOf(before, k.thread)) - 1
  {
    hide SpacesOf, WritesOf, BlobsOf, EntryBytes;
    SpaceReplaced(before.storage, after.storage, k, rest, rest == map[]);
    SpacesOfRows(before.storage, k.thread, k.ns);
    SpaceWithoutEntry(SpacesOf(before.storage, k.thread), k.ns, before.storage[k], id, rest);
  }

  /** What is left of a map while a loop still has the keys `todo` ahead of it and deletes those
      that are to go. */
  ghost function Left<K, V>(m: map<K, V>, todo: set<K>, gone: K -> bool): map<K, V> {
    map k | k in m && (k in todo || !gone(k)) :: m[k]
  }

  lemma NothingLeftOut<K, V>(m: map<K, V>, gone: K -> bool)
    ensures Left(m, m.Keys, gone) == m
  {
  }

  lemma LeaveOut<K, V>(m: map<K, V>, todo: set<K>, gone: K -> bool, k: K)
    requires k in todo && k in m
    ensures k in Left(m, todo, gone) && Left(m, todo, gone)[k] == m[k]
    ensures Left(m, todo - {k}, gone) == if gone(k) then Left(m, todo, gone) - {k} else Left(m, todo, gone)
  {
  }

  lemma LeftIs<K, V>(m: map<K, V>, gone: K -> bool)
    ensures Left(m, {}, gone) == map k | k in m && !gone(k) :: m[k]
  {
  }

  lemma GroupDropped(writes: map<WriteKey, WriteGroup>, k: WriteKey)
    requires k in writes
    ensures SumOver(WritesOf(writes, k.thread), GroupWeight)
         == SumOver(WritesOf(writes - {k}, k.thread), GroupWeight) + GroupBytes(k.id, writes[k])
  {
    hide WritesOf;
    GroupRemoved(writes, k, k.thread);
    WritesOfRows(writes, k.thread, WriteSlot(k.ns, k.id));
    SumRemove(WritesOf(writes, k.thread), GroupWeight, WriteSlot(k.ns, k.id));
  }

  lemma BlobDropped(blobs: map<BlobKey, Typed>, k: BlobKey)
    requires k in blobs
    ensures SumOver(BlobsOf(blobs, k.thread), BlobWeight)
         == SumOver(BlobsOf(blobs - {k}, k.thread), BlobWeight) + BlobBytes(k.channel, k.version, blobs[k])
  {
    hide BlobsOf;
    var slot := BlobSlot(k.ns, k.channel, k.version);
    BlobRemoved(blobs, k, k.thread);
    BlobsOfRows(blobs, k.thread, slot);
    SumRemove(BlobsOf(blobs, k.thread), BlobWeight, slot);
  }

  lemma LastEntry(space: map<CheckpointId, Entry>, id: CheckpointId)
    requires id in space
    ensures space.Keys == {id} <==> space - {id} == map[]
  {
    if space - {id} == map[] {
      assert forall j :: j in space && j != id ==> j in space - {id};
    }
  }

  lemma WithoutRunRows(space: Space, run: RunId, left: Space)
    requires left == map id | id in space && space[id].metadata.value != Some(run) :: space[id]
    ensures left == WithoutRun(space, run)
  {
  }

  lemma CopiedTracks(tally: Tally, before: Data, source: ThreadId, target: ThreadId)
    requires Tracks(tally, before) && source != target && ViewOf(before, target) == NO_ROWS
    ensures Tracks(WithRecord(tally, target, tally.Of(source)), CopyData(before, source, target))
  {
    hide ViewOf, ViewBytes, ViewCount, WithRecord, WithView;
    var after := CopyData(before, source, target);
    forall u ensures ViewOf(after, u) == if u == target then ViewOf(before, source) else ViewOf(before, u) {
      ViewOfWith(before, target, ViewOf(before, source), u);
    }
    DeletedSizes();
    AdjustTracks(tally, before, after, target, tally.Of(source).bytes, tally.Of(source).count);
  }

  // ---- One row added to a measured store ------------------------------------------------------

  lemma EmptySpaceTracks(tally: Tally, before: Data, k: SpaceKey)
    requires Tracks(tally, before) && k !in before.storage
    ensures Tracks(tally, before.(storage := before.storage[k := map[]]))
  {
    hide ViewBytes, ViewCount, ViewOf;
    var empty: Space := map[];
    var after := before.(storage := before.storage[k := empty]);
    forall u ensures ViewBytes(ViewOf(after, u)) == ViewBytes(ViewOf(before, u)) && ViewCount(ViewOf(after, u)) == ViewCount(ViewOf(before, u)) {
      EmptySpaceSizes(before, after, k, empty, u);
    }
  }

  lemma EmptySpaceSizes(before: Data, after: Data, k: SpaceKey, empty: Space, u: ThreadId)
    requires k !in before.storage && empty == map[] && after == before.(storage := before.storage[k := empty])
    ensures ViewBytes(ViewOf(after, u)) == ViewBytes(ViewOf(before, u))
    ensures ViewCount(ViewOf(after, u)) == ViewCount(ViewOf(before, u))
  {
    hide SpacesOf, WritesOf, BlobsOf;
    SpaceSet(before.storage, k, empty, u);
    SpacesOfRows(before.storage, u, k.ns);
    if u == k.thread {
      SumInsert(SpacesOf(before.storage, u), SpaceWeight, k.ns, empty);
      SumInsert(SpacesOf(before.storage, u), CountWeight, k.ns, empty);
    }
  }

  lemma EntryTracks(tally: Tally, before: Data, after: Data, k: SpaceKey, space: Space, id: CheckpointId, entry: Entry, larger: Space)
    requires Tracks(tally, before)
    requires k in before.storage && before.storage[k] == space && id !in space
    requires larger == space[id := entry] && after == before.(storage := before.storage[k := larger])
    ensures 0 <= tally.Of(k.thread).bytes + EntryBytes(id, entry) && 0 <= tally.Of(k.thread).count + 1
    ensures Tracks(WithRecord(tally, k.thread, Totals(tally.Of(k.thread).bytes + EntryBytes(id, entry), tally.Of(k.thread).count + 1)), after)
  {
    hide SpacesOf, WritesOf, BlobsOf, Tracks, EntryBytes, ViewBytes, ViewCount, WithRecord;
    forall u | u != k.thread ensures ViewOf(after, u) == ViewOf(before, u) {
      SpaceSet(before.storage, k, larger, u);
    }
    EntrySizes(before, after, k, space, id, entry, larger);
    AdjustTracks(tally, before, after, k.thread, EntryBytes(id, entry), 1);
  }

  lemma EntrySizes(before: Data, after: Data, k: SpaceKey, space: Space, id: CheckpointId, entry: Entry, larger: Space)
    requires k in before.storage && before.storage[k] == space && id !in space
    requires larger == space[id := entry] && after == before.(storage := before.storage[k := larger])
    ensures ViewBytes(ViewOf(after, k.thread)) == ViewBytes(ViewOf(before, k.thread)) + EntryBytes(id, entry)
    ensures ViewCount(ViewOf(after, k.thread)) == ViewCount(ViewOf(before, k.thread)) + 1
  {
    hide SpacesOf, WritesOf, BlobsOf, EntryBytes;
    SpaceSet(before.storage, k, larger, k.thread);
    SpacesOfRows(before.storage, k.thread, k.ns);
    SpacesAfterEntry(SpacesOf(before.storage, k.thread), k.ns, space, id, entry, larger);
  }

  lemma GroupTracks(tally: Tally, before: Data, after: Data, k: WriteKey, group: WriteGroup)
    requires Tracks(tally, before)
    requires k !in before.writes && after == before.(writes := before.writes[k := group])
    ensures 0 <= tally.Of(k.thread).bytes + GroupBytes(k.id, group) && 0 <= tally.Of(k.thread).count
    ensures Tracks(WithRecord(tally, k.thread, Totals(tally.Of(k.thread).bytes + GroupBytes(k.id, group), tally.Of(k.thread).count)), after)
  {
    hide SpacesOf, WritesOf, BlobsOf, Tracks;
    forall u ensures WritesOf(after.writes, u) == if u == k.thread then WritesOf(before.writes, u)[WriteSlot(k.ns, k.id) := group] else WritesOf(before.writes, u) {
      GroupSet(before.writes, k, group, u);
    }
    WritesOfRows(before.writes, k.thread, WriteSlot(k.ns, k.id));
    SumInsert(WritesOf(before.writes, k.thread), GroupWeight, WriteSlot(k.ns, k.id), group);
    AdjustTracks(tally, before, after, k.thread, GroupBytes(k.id, group), 0);
  }

  lemma BlobTracks(tally: Tally, before: Data, after: Data, k: BlobKey, value: Typed)
    requires Tracks(tally, before)
    requires k !in before.blobs && after == before.(blobs := before.blobs[k := value])
    ensures 0 <= tally.Of(k.thread).bytes + BlobBytes(k.channel, k.version, value) && 0 <= tally.Of(k.thread).count
    ensures Tracks(WithRecord(tally, k.thread, Totals(tally.Of(k.thread).bytes + BlobBytes(k.channel, k.version, value), tally.Of(k.thread).count)), after)
  {
    hide SpacesOf, WritesOf, BlobsOf, Tracks;
    var slot := BlobSlot(k.ns, k.channel, k.version);
    forall u ensures BlobsOf(after.blobs, u) == if u == k.thread then BlobsOf(before.blobs, u)[slot := value] else BlobsOf(before.blobs, u) {
      BlobSet(before.blobs, k, value, u);
    }
    BlobsOfRows(before.blobs, k.thread, slot);
    SumInsert(BlobsOf(before.blobs, k.thread), BlobWeight, slot, value);
    AdjustTracks(tally, before, after, k.thread, BlobBytes(k.channel, k.version, value), 0);
  }
}
