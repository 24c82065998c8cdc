/** Byte and checkpoint counts per thread: the plain sums, and the incremental tally that must
    always agree with them (checkpoint.py). */
module CheckpointSizes {
  import opened Wrappers
  import opened MapSums
  import opened Decimals
  import opened CheckpointModel

  // ---- Sizes of single rows ---------------------------------------------------------------

  function OptionalBytes(s: Option<string>): nat {
    if s.Some? then |s.value| else 0
  }

  function TypedBytes(value: Typed): nat {
    |value.tag| + |value.data|
  }

  function EntryBytes(id: CheckpointId, entry: Entry): int {
    |id| + entry.checkpoint.bytes + entry.metadata.bytes + OptionalBytes(entry.parent)
  }

  /** Length of a number's decimal form. */
  function DecimalLength(n: int): nat
    decreases if n < 0 then 1 - n else n
  {
    if n < 0 then 1 + DecimalLength(-n) else if n < 10 then 1 else 1 + DecimalLength(n / 10)
  }

  function WriteBytes(index: WriteIndex, write: Write): int {
    |index.taskId| + DecimalLength(index.index) + |write.taskId| + |write.channel| + TypedBytes(write.value) + |write.taskPath|
  }

  ghost function GroupBytes(id: CheckpointId, group: WriteGroup): int {
    |id| + SumOver(group, WriteBytes)
  }

  function BlobBytes(channel: Channel, version: Version, value: Typed): nat {
    |channel| + |version| + TypedBytes(value)
  }

  /** `str` of a number. */
  function Written(n: int): string {
    if n < 0 then "-" + Decimal(-n) else Decimal(n)
  }

  lemma {:induction false} DecimalLengthIs(n: int)
    ensures DecimalLength(n) == |Written(n)|
    decreases if n < 0 then 1 - n else n
  {
    if n < 0 { DecimalLengthIs(-n); } else if n >= 10 { DecimalLengthIs(n / 10); }
  }

  /** A row counts every string stored with it, once: its size is the length of all of them written
      one after the other; of a checkpoint's two payloads, their serialised lengths. */
  lemma RowsAreMeasured(id: CheckpointId, entry: Entry, channel: Channel, version: Version, value: Typed, index: WriteIndex, write: Write)
    ensures EntryBytes(id, entry) == |id + (if entry.parent.Some? then entry.parent.value else "")| + entry.checkpoint.bytes + entry.metadata.bytes
    ensures BlobBytes(channel, version, value) == |channel + version + value.tag + value.data|
    ensures forall ns :: BlobWeight(BlobSlot(ns, channel, version), value) == |channel + version + value.tag + value.data|
    ensures WriteBytes(index, write)
      == |index.taskId + Written(index.index) + write.taskId + write.channel + write.value.tag + write.value.data + write.taskPath|
  {
    DecimalLengthIs(index.index);
  }

  /** A group counts its checkpoint's id once and each of its writes. */
  lemma GroupIsMeasured(id: CheckpointId, group: WriteGroup, index: WriteIndex, write: Write)
    ensures GroupBytes(id, map[]) == |id|
    ensures index !in group ==> GroupBytes(id, group[index := write]) == GroupBytes(id, group) + WriteBytes(index, write)
  {
    if index !in group { SumInsert(group, WriteBytes, index, write); }
  }

  // ---- Sums over a thread -----------------------------------------------------------------

  ghost function SpaceWeight(ns: Namespace, space: Space): int { SumOver(space, EntryBytes) }

  ghost function CountWeight(ns: Namespace, space: Space): int { |space| }

  ghost function GroupWeight(slot: WriteSlot, group: WriteGroup): int { GroupBytes(slot.id, group) }

  function BlobWeight(slot: BlobSlot, value: Typed): int { BlobBytes(slot.channel, slot.version, value) }

  /** Serialised bytes held by one thread, recomputed from all its rows. */
  ghost function ViewBytes(v: View): int {
    SumOver(v.spaces, SpaceWeight) + SumOver(v.writes, GroupWeight) + SumOver(v.blobs, BlobWeight)
  }

  /** Checkpoints held by one thread. */
  ghost function ViewCount(v: View): int {
    SumOver(v.spaces, CountWeight)
  }

  lemma GroupBytesNonNegative(id: CheckpointId, group: WriteGroup)
    ensures 0 <= GroupBytes(id, group)
  {
    SumNonNegative(group, WriteBytes);
  }

  lemma ViewSizesNonNegative(v: View)
    ensures 0 <= ViewBytes(v) && 0 <= ViewCount(v)
  {
    forall ns | ns in v.spaces ensures 0 <= SpaceWeight(ns, v.spaces[ns]) {
      SumNonNegative(v.spaces[ns], EntryBytes);
    }
    SumNonNegative(v.spaces, SpaceWeight);
    forall s | s in v.writes ensures 0 <= GroupWeight(s, v.writes[s]) {
      GroupBytesNonNegative(s.id, v.writes[s]);
    }
    SumNonNegative(v.writes, GroupWeight);
    SumNonNegative(v.blobs, BlobWeight);
    SumNonNegative(v.spaces, CountWeight);
  }

  // ---- The tally --------------------------------------------------------------------------

  datatype Totals = Totals(bytes: int, count: int)

  /** The fields of `_CheckpointSizeState`. */
  datatype Tally = Tally(byThread: map<ThreadId, Totals>, totalBytes: int, totalCount: int)
  {
    function Of(t: ThreadId): Totals { if t in byThread then byThread[t] else Totals(0, 0) }
  }

  function BytesPart(t: ThreadId, sizes: Totals): int { sizes.bytes }

  function CountPart(t: ThreadId, sizes: Totals): int { sizes.count }

  /** The tally says of every thread, and in total, what the recomputation would say. */
  ghost predicate Tracks(tally: Tally, d: Data) {
    && (forall t :: tally.Of(t) == Totals(ViewBytes(ViewOf(d, t)), ViewCount(ViewOf(d, t))))
    && Consistent(tally)
  }

  /** No empty records, and the totals are the sums of the records. */
  ghost predicate Consistent(tally: Tally) {
    && (forall t :: t in tally.byThread ==> tally.byThread[t] != Totals(0, 0))
    && tally.totalBytes == SumOver(tally.byThread, BytesPart)
    && tally.totalCount == SumOver(tally.byThread, CountPart)
  }

  /** A store has one correct tally. */
  lemma TallyUnique(a: Tally, b: Tally, d: Data)
    requires Tracks(a, d) && Tracks(b, d)
    ensures a == b
  {
    forall t ensures (t in a.byThread <==> t in b.byThread) && (t in a.byThread ==> a.byThread[t] == b.byThread[t]) {
      assert a.Of(t) == b.Of(t);
    }
    assert a.byThread == b.byThread;
  }

  /** `max(0, n)`. */
  function Max0(n: int): (r: int)
    ensures 0 <= r && n <= r && (r == 0 || r == n)
  {
    if n < 0 then 0 else n
  }

  /** A record replaced, or dropped when it is empty, with the totals moved along. */
  function WithRecord(tally: Tally, t: ThreadId, after: Totals): Tally {
    var before := tally.Of(t);
    Tally(if after != Totals(0, 0) then tally.byThread[t := after] else tally.byThread - {t},
          tally.totalBytes + after.bytes - before.bytes,
          tally.totalCount + after.count - before.count)
  }

  lemma WithRecordConsistent(tally: Tally, t: ThreadId, after: Totals)
    requires Consistent(tally)
    ensures Consistent(WithRecord(tally, t, after))
    ensures forall u :: WithRecord(tally, t, after).Of(u) == if u == t then after else tally.Of(u)
  {
    var m := tally.byThread;
    if after != Totals(0, 0) {
      SumUpdate(m, BytesPart, t, after);
      SumUpdate(m, CountPart, t, after);
    } else if t in m {
      SumRemove(m, BytesPart, t);
      SumRemove(m, CountPart, t);
    } else {
      assert m - {t} == m;
    }
  }

  /** When one thread's rows change and its record is moved by exactly the change, the tally stays
      right; and the record never goes below zero, so clamping it there changes nothing. */
  lemma AdjustTracks(tally: Tally, before: Data, after: Data, t: ThreadId, bytes: int, count: int)
    requires Tracks(tally, before)
    requires forall u :: u != t ==> ViewOf(after, u) == ViewOf(before, u)
    requires ViewBytes(ViewOf(after, t)) == ViewBytes(ViewOf(before, t)) + bytes
    requires ViewCount(ViewOf(after, t)) == ViewCount(ViewOf(before, t)) + count
    ensures 0 <= tally.Of(t).bytes + bytes && 0 <= tally.Of(t).count + count
    ensures Tracks(WithRecord(tally, t, Totals(tally.Of(t).bytes + bytes, tally.Of(t).count + count)), after)
  {
    hide ViewBytes, ViewCount, ViewOf, WithRecord, Consistent;
    ViewSizesNonNegative(ViewOf(after, t));
    WithRecordConsistent(tally, t, Totals(tally.Of(t).bytes + bytes, tally.Of(t).count + count));
  }

  lemma EmptyTallyTracks()
    ensures Tracks(Tally(map[], 0, 0), NO_DATA)
  {
    forall t ensures ViewBytes(ViewOf(NO_DATA, t)) == 0 && ViewCount(ViewOf(NO_DATA, t)) == 0 {
      assert ViewOf(NO_DATA, t) == NO_ROWS;
    }
  }

  // ---- How each operation changes a thread's size -------------------------------------------

  /** The bytes of a replaced row, or nothing. */
  ghost function EntryBytesAt(v: View, ns: Namespace, id: CheckpointId): int {
    if id in SpaceIn(v, ns) then EntryBytes(id, SpaceIn(v, ns)[id]) else 0
  }

  ghost function GroupBytesAt(v: View, ns: Namespace, id: CheckpointId): int {
    if WriteSlot(ns, id) in v.writes then GroupBytes(id, v.writes[WriteSlot(ns, id)]) else 0
  }

  lemma SpacesAfterEntry(spaces: map<Namespace, Space>, ns: Namespace, space: Space, id: CheckpointId, entry: Entry, after: Space)
    requires space == if ns in spaces then spaces[ns] else map[]
    requires after == space[id := entry]
    ensures SumOver(spaces[ns := after], SpaceWeight)
         == SumOver(spaces, SpaceWeight) + EntryBytes(id, entry) - (if id in space then EntryBytes(id, space[id]) else 0)
    ensures SumOver(spaces[ns := after], CountWeight) == SumOver(spaces, CountWeight) + if id in space then 0 else 1
  {
    hide EntryBytes;
    SumUpdate(spaces, SpaceWeight, ns, after);
    SumUpdate(spaces, CountWeight, ns, after);
    SpaceAfterEntry(space, id, entry, after);
  }

  lemma SpaceAfterEntry(space: Space, id: CheckpointId, entry: Entry, after: Space)
    requires after == space[id := entry]
    ensures SumOver(after, EntryBytes) == SumOver(space, EntryBytes) + EntryBytes(id, entry) - (if id in space then EntryBytes(id, space[id]) else 0)
    ensures |after| == |space| + if id in space then 0 else 1
  {
    SumUpdate(space, EntryBytes, id, entry);
    assert after.Keys == space.Keys + {id};
  }

  lemma PutSizes(v: View, ns: Namespace, id: CheckpointId, entry: Entry,
                 newVersions: map<Channel, Version>, values: map<Channel, Typed>)
    requires ParentIsOlder(id, entry)
    ensures var after := PutView(v, ns, id, entry, newVersions, values);
            var added := NewBlobs(ns, newVersions, values);
      && ViewBytes(after) == ViewBytes(v) + EntryBytes(id, entry) - EntryBytesAt(v, ns, id)
           + SumOver(added, BlobWeight) - SumOver(Shared(v.blobs, added), BlobWeight)
      && ViewCount(after) == ViewCount(v) + if id in SpaceIn(v, ns) then 0 else 1
  {
    SpacesAfterEntry(v.spaces, ns, SpaceIn(v, ns), id, entry, SpaceIn(v, ns)[id := entry]);
    SumMerge(v.blobs, NewBlobs(ns, newVersions, values), BlobWeight);
  }

  lemma PutWritesSizes(v: View, ns: Namespace, id: CheckpointId, merge: Option<WriteGroup> -> Option<WriteGroup>)
    ensures var after := PutWritesView(v, ns, id, merge);
      && ViewBytes(after) == ViewBytes(v) + GroupBytesAt(after, ns, id) - GroupBytesAt(v, ns, id)
      && ViewCount(after) == ViewCount(v)
  {
    var slot := WriteSlot(ns, id);
    var after := merge(GroupAt(v, ns, id));
    if after.Some? {
      SumUpdate(v.writes, GroupWeight, slot, after.value);
    } else if slot in v.writes {
      SumRemove(v.writes, GroupWeight, slot);
    } else {
      assert v.writes - {slot} == v.writes;
    }
  }

  /** The overwritten rows depend only on which keys are written. */
  lemma SharedByKeys<K, V>(m: map<K, V>, a: map<K, V>, b: map<K, V>)
    requires a.Keys == b.Keys
    ensures Shared(m, a) == Shared(m, b)
  {
    assert forall k :: k in a <==> k in b;
  }

  lemma NewBlobsKeys(ns: Namespace, newVersions: map<Channel, Version>, values: map<Channel, Typed>, others: map<Channel, Typed>)
    ensures NewBlobs(ns, newVersions, values).Keys == NewBlobs(ns, newVersions, others).Keys
  {
    forall s | s in NewBlobs(ns, newVersions, values) || s in NewBlobs(ns, newVersions, others)
      ensures s in NewBlobs(ns, newVersions, values) && s in NewBlobs(ns, newVersions, others)
    {
      var c :| c in newVersions && s == BlobSlot(ns, c, newVersions[c]);
      assert BlobSlot(ns, c, newVersions[c]) in NewBlobs(ns, newVersions, values);
      assert BlobSlot(ns, c, newVersions[c]) in NewBlobs(ns, newVersions, others);
    }
  }

  lemma NewBlobsInsert(ns: Namespace, newVersions: map<Channel, Version>, values: map<Channel, Typed>, c: Channel, version: Version)
    requires c !in newVersions
    ensures NewBlobs(ns, newVersions[c := version], values)
         == NewBlobs(ns, newVersions, values)[BlobSlot(ns, c, version) := if c in values then values[c] else EMPTY]
    ensures BlobSlot(ns, c, version) !in NewBlobs(ns, newVersions, values)
  {
    var before, after := NewBlobs(ns, newVersions, values), NewBlobs(ns, newVersions[c := version], values);
    forall s ensures s in after <==> s in before || s == BlobSlot(ns, c, version) {
      if s in before {
        var x :| x in newVersions && s == BlobSlot(ns, x, newVersions[x]);
        assert BlobSlot(ns, x, newVersions[c := version][x]) in after;
      }
      assert BlobSlot(ns, c, newVersions[c := version][c]) in after;
    }
  }

  lemma DeletedSizes()
    ensures ViewBytes(NO_ROWS) == 0 && ViewCount(NO_ROWS) == 0
  {
  }
}
