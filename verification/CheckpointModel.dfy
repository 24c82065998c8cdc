/** The checkpoint saver's three maps, the rows of one thread, and what each operation does to
    those rows (checkpoint.py).

    A serialised payload is opaque: it has a length, and where the saver decodes it, the part of
    the decoded value the saver looks at.  */
module CheckpointModel {
  import opened Wrappers
  import Lex

  type ThreadId = string
  type Namespace = string
  type CheckpointId = string
  type Channel = string
  type Version = string
  type RunId = string

  /** A `(type tag, serialised bytes)` pair. */
  datatype Typed = Typed(tag: string, data: string)

  const EMPTY := Typed("empty", "")

  /** A serialised payload of the given length that decodes to `value`. */
  datatype Encoded<+T> = Encoded(value: T, bytes: nat)

  /** A stored checkpoint: its channel versions, the run that wrote it, and its parent. */
  datatype Entry = Entry(checkpoint: Encoded<map<Channel, Version>>,
                         metadata: Encoded<Option<RunId>>,
                         parent: Option<CheckpointId>)
  {
    function Versions(): map<Channel, Version> { checkpoint.value }
  }

  datatype Write = Write(taskId: string, channel: Channel, value: Typed, taskPath: string)
  datatype WriteIndex = WriteIndex(taskId: string, index: int)
  type WriteGroup = map<WriteIndex, Write>

  ghost predicate ParentFirst(checkpoints: map<CheckpointId, Entry>) {
    forall id :: id in checkpoints && checkpoints[id].parent.Some? ==>
      Lex.Less(checkpoints[id].parent.value, id)
  }

  /** The checkpoints of one namespace: ids grow along the parent relation. */
  type Space = checkpoints: map<CheckpointId, Entry> | ParentFirst(checkpoints) witness map[]

  datatype SpaceKey = SpaceKey(thread: ThreadId, ns: Namespace)
  datatype WriteKey = WriteKey(thread: ThreadId, ns: Namespace, id: CheckpointId)
  datatype BlobKey = BlobKey(thread: ThreadId, ns: Namespace, channel: Channel, version: Version)

  /** `storage`, `writes` and `blobs`.  The two outer levels of `storage` are one key, so a
      thread without namespaces and an absent thread are the same. */
  datatype Data = Data(storage: map<SpaceKey, Space>,
                       writes: map<WriteKey, WriteGroup>,
                       blobs: map<BlobKey, Typed>)

  const NO_DATA := Data(map[], map[], map[])

  datatype WriteSlot = WriteSlot(ns: Namespace, id: CheckpointId)
  datatype BlobSlot = BlobSlot(ns: Namespace, channel: Channel, version: Version)

  /** The rows of one thread. */
  datatype View = View(spaces: map<Namespace, Space>,
                       writes: map<WriteSlot, WriteGroup>,
                       blobs: map<BlobSlot, Typed>)

  const NO_ROWS := View(map[], map[], map[])

  // ---- Rows of a thread -----------------------------------------------------------------

  ghost function SpacesOf(storage: map<SpaceKey, Space>, t: ThreadId): map<Namespace, Space> {
    map k | k in storage && k.thread == t :: k.ns := storage[k]
  }

  ghost function WritesOf(writes: map<WriteKey, WriteGroup>, t: ThreadId): map<WriteSlot, WriteGroup> {
    map k | k in writes && k.thread == t :: WriteSlot(k.ns, k.id) := writes[k]
  }

  ghost function BlobsOf(blobs: map<BlobKey, Typed>, t: ThreadId): map<BlobSlot, Typed> {
    map k | k in blobs && k.thread == t :: BlobSlot(k.ns, k.channel, k.version) := blobs[k]
  }

  ghost function ViewOf(d: Data, t: ThreadId): View {
    View(SpacesOf(d.storage, t), WritesOf(d.writes, t), BlobsOf(d.blobs, t))
  }

  lemma SpacesOfRows(storage: map<SpaceKey, Space>, t: ThreadId, ns: Namespace)
    ensures ns in SpacesOf(storage, t) <==> SpaceKey(t, ns) in storage
    ensures ns in SpacesOf(storage, t) ==> SpacesOf(storage, t)[ns] == storage[SpaceKey(t, ns)]
  {
    if SpaceKey(t, ns) in storage { assert SpaceKey(t, ns).ns in SpacesOf(storage, t); }
  }

  lemma WritesOfRows(writes: map<WriteKey, WriteGroup>, t: ThreadId, s: WriteSlot)
    ensures s in WritesOf(writes, t) <==> WriteKey(t, s.ns, s.id) in writes
    ensures s in WritesOf(writes, t) ==> WritesOf(writes, t)[s] == writes[WriteKey(t, s.ns, s.id)]
  {
    var k := WriteKey(t, s.ns, s.id);
    if k in writes { assert WriteSlot(k.ns, k.id) in WritesOf(writes, t); }
  }

  lemma BlobsOfRows(blobs: map<BlobKey, Typed>, t: ThreadId, s: BlobSlot)
    ensures s in BlobsOf(blobs, t) <==> BlobKey(t, s.ns, s.channel, s.version) in blobs
    ensures s in BlobsOf(blobs, t) ==> BlobsOf(blobs, t)[s] == blobs[BlobKey(t, s.ns, s.channel, s.version)]
  {
    var k := BlobKey(t, s.ns, s.channel, s.version);
    if k in blobs { assert BlobSlot(k.ns, k.channel, k.version) in BlobsOf(blobs, t); }
  }

  ghost function WithSpaces(storage: map<SpaceKey, Space>, t: ThreadId, spaces: map<Namespace, Space>): map<SpaceKey, Space> {
    (map k | k in storage && k.thread != t :: storage[k]) + map ns | ns in spaces :: SpaceKey(t, ns) := spaces[ns]
  }

  ghost function WithWrites(writes: map<WriteKey, WriteGroup>, t: ThreadId, rows: map<WriteSlot, WriteGroup>): map<WriteKey, WriteGroup> {
    (map k | k in writes && k.thread != t :: writes[k]) + map s | s in rows :: WriteKey(t, s.ns, s.id) := rows[s]
  }

  ghost function WithBlobs(blobs: map<BlobKey, Typed>, t: ThreadId, rows: map<BlobSlot, Typed>): map<BlobKey, Typed> {
    (map k | k in blobs && k.thread != t :: blobs[k]) + map s | s in rows :: BlobKey(t, s.ns, s.channel, s.version) := rows[s]
  }

  /** `d` with the rows of thread `t` replaced by `v`. */
  ghost function WithView(d: Data, t: ThreadId, v: View): Data {
    Data(WithSpaces(d.storage, t, v.spaces), WithWrites(d.writes, t, v.writes), WithBlobs(d.blobs, t, v.blobs))
  }

  lemma SpacesOfWith(storage: map<SpaceKey, Space>, t: ThreadId, spaces: map<Namespace, Space>, u: ThreadId)
    ensures SpacesOf(WithSpaces(storage, t, spaces), u) == if u == t then spaces else SpacesOf(storage, u)
  {
    var after := WithSpaces(storage, t, spaces);
    forall ns ensures SpaceKey(u, ns) in after <==> if u == t then ns in spaces else SpaceKey(u, ns) in storage
              ensures SpaceKey(u, ns) in after ==> after[SpaceKey(u, ns)] == if u == t then spaces[ns] else storage[SpaceKey(u, ns)] {}
    forall ns ensures ns in SpacesOf(after, u) <==> SpaceKey(u, ns) in after
              ensures ns in SpacesOf(after, u) ==> SpacesOf(after, u)[ns] == after[SpaceKey(u, ns)]
              ensures ns in SpacesOf(storage, u) <==> SpaceKey(u, ns) in storage
              ensures ns in SpacesOf(storage, u) ==> SpacesOf(storage, u)[ns] == storage[SpaceKey(u, ns)] {
      SpacesOfRows(after, u, ns);
      SpacesOfRows(storage, u, ns);
    }
  }

  lemma WithWritesRow(writes: map<WriteKey, WriteGroup>, t: ThreadId, rows: map<WriteSlot, WriteGroup>, u: ThreadId, s: WriteSlot)
    ensures var k := WriteKey(u, s.ns, s.id); var after := WithWrites(writes, t, rows);
      && (k in after <==> if u == t then s in rows else k in writes)
      && (k in after ==> after[k] == if u == t then rows[s] else writes[k])
  {
    assert s == WriteSlot(s.ns, s.id);
  }

  lemma WritesOfWith(writes: map<WriteKey, WriteGroup>, t: ThreadId, rows: map<WriteSlot, WriteGroup>, u: ThreadId)
    ensures WritesOf(WithWrites(writes, t, rows), u) == if u == t then rows else WritesOf(writes, u)
  {
    hide WritesOf, WithWrites;
    var after := WritesOf(WithWrites(writes, t, rows), u);
    forall s: WriteSlot ensures s in after <==> if u == t then s in rows else s in WritesOf(writes, u)
              ensures s in after ==> after[s] == if u == t then rows[s] else WritesOf(writes, u)[s] {
      WithWritesRow(writes, t, rows, u, s);
      WritesOfRows(WithWrites(writes, t, rows), u, s);
      WritesOfRows(writes, u, s);
    }
  }

  lemma WithBlobsRow(blobs: map<BlobKey, Typed>, t: ThreadId, rows: map<BlobSlot, Typed>, u: ThreadId, s: BlobSlot)
    ensures var k := BlobKey(u, s.ns, s.channel, s.version); var after := WithBlobs(blobs, t, rows);
      && (k in after <==> if u == t then s in rows else k in blobs)
      && (k in after ==> after[k] == if u == t then rows[s] else blobs[k])
  {
    assert s == BlobSlot(s.ns, s.channel, s.version);
  }

  lemma BlobsOfWith(blobs: map<BlobKey, Typed>, t: ThreadId, rows: map<BlobSlot, Typed>, u: ThreadId)
    ensures BlobsOf(WithBlobs(blobs, t, rows), u) == if u == t then rows else BlobsOf(blobs, u)
  {
    hide BlobsOf, WithBlobs;
    var after := BlobsOf(WithBlobs(blobs, t, rows), u);
    forall s: BlobSlot ensures s in after <==> if u == t then s in rows else s in BlobsOf(blobs, u)
              ensures s in after ==> after[s] == if u == t then rows[s] else BlobsOf(blobs, u)[s] {
      WithBlobsRow(blobs, t, rows, u, s);
      BlobsOfRows(WithBlobs(blobs, t, rows), u, s);
      BlobsOfRows(blobs, u, s);
    }
  }

  /** Replacing one thread's rows gives that thread those rows and leaves every other thread alone. */
  lemma ViewOfWith(d: Data, t: ThreadId, v: View, u: ThreadId)
    ensures ViewOf(WithView(d, t, v), u) == if u == t then v else ViewOf(d, u)
  {
    SpacesOfWith(d.storage, t, v.spaces, u);
    WritesOfWith(d.writes, t, v.writes, u);
    BlobsOfWith(d.blobs, t, v.blobs, u);
  }

  // One row set or removed, seen from any thread `u`.

  lemma SpaceSet(storage: map<SpaceKey, Space>, k: SpaceKey, space: Space, u: ThreadId)
    ensures SpacesOf(storage[k := space], u) == if u == k.thread then SpacesOf(storage, u)[k.ns := space] else SpacesOf(storage, u)
  {
    hide SpacesOf;
    forall ns ensures SpaceKey(u, ns) == k <==> u == k.thread && ns == k.ns
              ensures ns in SpacesOf(storage[k := space], u) <==> SpaceKey(u, ns) in storage[k := space]
              ensures ns in SpacesOf(storage[k := space], u) ==> SpacesOf(storage[k := space], u)[ns] == storage[k := space][SpaceKey(u, ns)]
              ensures ns in SpacesOf(storage, u) <==> SpaceKey(u, ns) in storage
              ensures ns in SpacesOf(storage, u) ==> SpacesOf(storage, u)[ns] == storage[SpaceKey(u, ns)] {
      SpacesOfRows(storage[k := space], u, ns);
      SpacesOfRows(storage, u, ns);
    }
  }

  lemma SpaceRemoved(storage: map<SpaceKey, Space>, k: SpaceKey, u: ThreadId)
    ensures SpacesOf(storage - {k}, u) == if u == k.thread then SpacesOf(storage, u) - {k.ns} else SpacesOf(storage, u)
  {
    hide SpacesOf;
    forall ns ensures SpaceKey(u, ns) == k <==> u == k.thread && ns == k.ns
              ensures ns in SpacesOf(storage - {k}, u) <==> SpaceKey(u, ns) in storage - {k}
              ensures ns in SpacesOf(storage - {k}, u) ==> SpacesOf(storage - {k}, u)[ns] == (storage - {k})[SpaceKey(u, ns)]
              ensures ns in SpacesOf(storage, u) <==> SpaceKey(u, ns) in storage
              ensures ns in SpacesOf(storage, u) ==> SpacesOf(storage, u)[ns] == storage[SpaceKey(u, ns)] {
      SpacesOfRows(storage - {k}, u, ns);
      SpacesOfRows(storage, u, ns);
    }
  }

  lemma GroupSet(writes: map<WriteKey, WriteGroup>, k: WriteKey, group: WriteGroup, u: ThreadId)
    ensures WritesOf(writes[k := group], u) == if u == k.thread then WritesOf(writes, u)[WriteSlot(k.ns, k.id) := group] else WritesOf(writes, u)
  {
    hide WritesOf;
    forall s: WriteSlot ensures WriteKey(u, s.ns, s.id) == k <==> u == k.thread && s == WriteSlot(k.ns, k.id)
              ensures s in WritesOf(writes[k := group], u) <==> WriteKey(u, s.ns, s.id) in writes[k := group]
              ensures s in WritesOf(writes[k := group], u) ==> WritesOf(writes[k := group], u)[s] == writes[k := group][WriteKey(u, s.ns, s.id)]
              ensures s in WritesOf(writes, u) <==> WriteKey(u, s.ns, s.id) in writes
              ensures s in WritesOf(writes, u) ==> WritesOf(writes, u)[s] == writes[WriteKey(u, s.ns, s.id)] {
      WritesOfRows(writes[k := group], u, s);
      WritesOfRows(writes, u, s);
    }
  }

  lemma GroupRemoved(writes: map<WriteKey, WriteGroup>, k: WriteKey, u: ThreadId)
    ensures WritesOf(writes - {k}, u) == if u == k.thread then WritesOf(writes, u) - {WriteSlot(k.ns, k.id)} else WritesOf(writes, u)
  {
    hide WritesOf;
    forall s: WriteSlot ensures WriteKey(u, s.ns, s.id) == k <==> u == k.thread && s == WriteSlot(k.ns, k.id)
              ensures s in WritesOf(writes - {k}, u) <==> WriteKey(u, s.ns, s.id) in writes - {k}
              ensures s in WritesOf(writes - {k}, u) ==> WritesOf(writes - {k}, u)[s] == (writes - {k})[WriteKey(u, s.ns, s.id)]
              ensures s in WritesOf(writes, u) <==> WriteKey(u, s.ns, s.id) in writes
              ensures s in WritesOf(writes, u) ==> WritesOf(writes, u)[s] == writes[WriteKey(u, s.ns, s.id)] {
      WritesOfRows(writes - {k}, u, s);
      WritesOfRows(writes, u, s);
    }
  }

  lemma BlobSet(blobs: map<BlobKey, Typed>, k: BlobKey, value: Typed, u: ThreadId)
    ensures BlobsOf(blobs[k := value], u)
      == if u == k.thread then BlobsOf(blobs, u)[BlobSlot(k.ns, k.channel, k.version) := value] else BlobsOf(blobs, u)
  {
    hide BlobsOf;
    forall s: BlobSlot ensures BlobKey(u, s.ns, s.channel, s.version) == k <==> u == k.thread && s == BlobSlot(k.ns, k.channel, k.version)
              ensures s in BlobsOf(blobs[k := value], u) <==> BlobKey(u, s.ns, s.channel, s.version) in blobs[k := value]
              ensures s in BlobsOf(blobs[k := value], u) ==> BlobsOf(blobs[k := value], u)[s] == blobs[k := value][BlobKey(u, s.ns, s.channel, s.version)]
              ensures s in BlobsOf(blobs, u) <==> BlobKey(u, s.ns, s.channel, s.version) in blobs
              ensures s in BlobsOf(blobs, u) ==> BlobsOf(blobs, u)[s] == blobs[BlobKey(u, s.ns, s.channel, s.version)] {
      BlobsOfRows(blobs[k := value], u, s);
      BlobsOfRows(blobs, u, s);
    }
  }

  lemma BlobRemoved(blobs: map<BlobKey, Typed>, k: BlobKey, u: ThreadId)
    ensures BlobsOf(blobs - {k}, u)
      == if u == k.thread then BlobsOf(blobs, u) - {BlobSlot(k.ns, k.channel, k.version)} else BlobsOf(blobs, u)
  {
    hide BlobsOf;
    forall s: BlobSlot ensures BlobKey(u, s.ns, s.channel, s.version) == k <==> u == k.thread && s == BlobSlot(k.ns, k.channel, k.version)
              ensures s in BlobsOf(blobs - {k}, u) <==> BlobKey(u, s.ns, s.channel, s.version) in blobs - {k}
              ensures s in BlobsOf(blobs - {k}, u) ==> BlobsOf(blobs - {k}, u)[s] == (blobs - {k})[BlobKey(u, s.ns, s.channel, s.version)]
              ensures s in BlobsOf(blobs, u) <==> BlobKey(u, s.ns, s.channel, s.version) in blobs
              ensures s in BlobsOf(blobs, u) ==> BlobsOf(blobs, u)[s] == blobs[BlobKey(u, s.ns, s.channel, s.version)] {
      BlobsOfRows(blobs - {k}, u, s);
      BlobsOfRows(blobs, u, s);
    }
  }

  /** The three maps are nothing but the rows of their threads. */
  lemma DataExtensional(a: Data, b: Data)
    requires forall t :: ViewOf(a, t) == ViewOf(b, t)
    ensures a == b
  {
    forall k: SpaceKey ensures (k in a.storage <==> k in b.storage) && (k in a.storage ==> a.storage[k] == b.storage[k]) {
      assert ViewOf(a, k.thread) == ViewOf(b, k.thread);
      assert k == SpaceKey(k.thread, k.ns);
      SpacesOfRows(a.storage, k.thread, k.ns);
      SpacesOfRows(b.storage, k.thread, k.ns);
    }
    assert a.storage == b.storage;
    forall k: WriteKey ensures (k in a.writes <==> k in b.writes) && (k in a.writes ==> a.writes[k] == b.writes[k]) {
      assert ViewOf(a, k.thread) == ViewOf(b, k.thread);
      assert k == WriteKey(k.thread, k.ns, k.id);
      WritesOfRows(a.writes, k.thread, WriteSlot(k.ns, k.id));
      WritesOfRows(b.writes, k.thread, WriteSlot(k.ns, k.id));
    }
    assert a.writes == b.writes;
    forall k: BlobKey ensures (k in a.blobs <==> k in b.blobs) && (k in a.blobs ==> a.blobs[k] == b.blobs[k]) {
      assert ViewOf(a, k.thread) == ViewOf(b, k.thread);
      assert k == BlobKey(k.thread, k.ns, k.channel, k.version);
      BlobsOfRows(a.blobs, k.thread, BlobSlot(k.ns, k.channel, k.version));
      BlobsOfRows(b.blobs, k.thread, BlobSlot(k.ns, k.channel, k.version));
    }
    assert a.blobs == b.blobs;
  }

  /** Two stores that differ in one thread only. */
  lemma RowsReplaced(before: Data, after: Data, t: ThreadId, v: View)
    requires forall u :: ViewOf(after, u) == if u == t then v else ViewOf(before, u)
    ensures after == WithView(before, t, v)
  {
    hide ViewOf, WithView;
    forall u ensures ViewOf(after, u) == ViewOf(WithView(before, t, v), u) {
      ViewOfWith(before, t, v, u);
    }
    DataExtensional(after, WithView(before, t, v));
  }

  /** Changes to the rows of two different threads commute. */
  lemma ViewsCommute(d: Data, t: ThreadId, v: View, u: ThreadId, w: View)
    requires t != u
    ensures WithView(WithView(d, t, v), u, w) == WithView(WithView(d, u, w), t, v)
  {
    var a, b := WithView(WithView(d, t, v), u, w), WithView(WithView(d, u, w), t, v);
    forall x ensures ViewOf(a, x) == ViewOf(b, x) {
      ViewOfWith(WithView(d, t, v), u, w, x);
      ViewOfWith(d, t, v, x);
      ViewOfWith(WithView(d, u, w), t, v, x);
      ViewOfWith(d, u, w, x);
    }
    DataExtensional(a, b);
  }

  // ---- Reconstruction of a channel ------------------------------------------------------

  function SpaceIn(v: View, ns: Namespace): Space {
    if ns in v.spaces then v.spaces[ns] else map[]
  }

  ghost predicate IsLatest(checkpoints: map<CheckpointId, Entry>, id: CheckpointId) {
    id in checkpoints && forall j :: j in checkpoints ==> Lex.AtMost(j, id)
  }

  lemma {:induction false} LatestExists(checkpoints: map<CheckpointId, Entry>)
    requires checkpoints != map[]
    ensures exists id :: IsLatest(checkpoints, id)
    decreases |checkpoints|
  {
    var k :| k in checkpoints;
    var rest := checkpoints - {k};
    assert rest.Keys == checkpoints.Keys - {k};
    if rest == map[] {
      assert forall j :: j in checkpoints && j != k ==> j in rest;
      assert IsLatest(checkpoints, k);
    } else {
      LatestExists(rest);
      var m :| IsLatest(rest, m);
      Lex.Total(k, m);
      var top := if Lex.Less(m, k) then k else m;
      forall j | j in checkpoints ensures Lex.AtMost(j, top) {
        if j != k {
          assert j in rest && Lex.AtMost(j, m);
          if top == k && j != m { Lex.Transitive(j, m, k); }
        }
      }
      assert IsLatest(checkpoints, top);
    }
  }

  lemma LatestUnique(checkpoints: map<CheckpointId, Entry>, a: CheckpointId, b: CheckpointId)
    requires IsLatest(checkpoints, a) && IsLatest(checkpoints, b)
    ensures a == b
  {
    if a != b { Lex.Asymmetric(a, b); }
  }

  /** The newest checkpoint of a namespace. */
  ghost function Latest(checkpoints: map<CheckpointId, Entry>): (id: CheckpointId)
    requires checkpoints != map[]
    ensures IsLatest(checkpoints, id)
  {
    LatestExists(checkpoints);
    var id :| IsLatest(checkpoints, id);
    id
  }

  /** A blob is materialised when it is present and not tagged "empty". */
  predicate Materialized(v: View, slot: BlobSlot) {
    slot in v.blobs && v.blobs[slot].tag != "empty"
  }

  /** Checkpoint `id` holds a snapshot of the channel. */
  predicate SnapshotAt(v: View, ns: Namespace, id: CheckpointId, c: Channel)
    requires id in SpaceIn(v, ns)
  {
    var versions := SpaceIn(v, ns)[id].Versions();
    c in versions && Materialized(v, BlobSlot(ns, c, versions[c]))
  }

  function BlobAt(v: View, slot: BlobSlot): Option<Typed> {
    if slot in v.blobs then Some(v.blobs[slot]) else None
  }

  function GroupAt(v: View, ns: Namespace, id: CheckpointId): Option<WriteGroup> {
    if WriteSlot(ns, id) in v.writes then Some(v.writes[WriteSlot(ns, id)]) else None
  }

  /** One ancestor of the walk, with the writes recorded at it. */
  datatype Step = Step(id: CheckpointId, writes: Option<WriteGroup>)

  /** What rebuilding a channel reads: the ancestors walked, newest first, with the writes to
      replay, and the snapshot the walk ended at (none when it ran out of ancestors). */
  datatype Trace = Trace(steps: seq<Step>, base: Option<Typed>)

  /** How many checkpoints are no newer than `from`: the measure of the parent walk. */
  ghost function Rank(checkpoints: map<CheckpointId, Entry>, from: Option<CheckpointId>): nat {
    if from.None? then 0 else |set i | i in checkpoints && Lex.AtMost(i, from.value)|
  }

  lemma RankDecreases(space: Space, id: CheckpointId)
    requires id in space
    ensures Rank(space, space[id].parent) < Rank(space, Some(id))
  {
    var here := set i | i in space && Lex.AtMost(i, id);
    assert id in here;
    if space[id].parent.Some? {
      var parent := space[id].parent.value;
      var below := set i | i in space && Lex.AtMost(i, parent);
      assert below <= here by {
        forall i | i in below ensures i in here {
          if i != parent { Lex.Transitive(i, parent, id); }
        }
      }
      assert id !in below by { Lex.Asymmetric(parent, id); }
      assert below <= here - {id};
      CardinalityMonotone(below, here - {id});
    }
  }

  lemma {:induction false} CardinalityMonotone<T>(a: set<T>, b: set<T>)
    requires a <= b
    ensures |a| <= |b|
  {
    if a != {} {
      var x :| x in a;
      CardinalityMonotone(a - {x}, b - {x});
    }
  }

  /** The parent walk for one channel: up to and including the nearest snapshot. */
  ghost function History(v: View, ns: Namespace, from: Option<CheckpointId>, c: Channel): Trace
    decreases Rank(SpaceIn(v, ns), from)
  {
    var space := SpaceIn(v, ns);
    if from.None? || from.value !in space then Trace([], None)
    else
      var id := from.value;
      var step := Step(id, GroupAt(v, ns, id));
      if SnapshotAt(v, ns, id, c) then
        Trace([step], Some(v.blobs[BlobSlot(ns, c, space[id].Versions()[c])]))
      else
        RankDecreases(space, id);
        var rest := History(v, ns, space[id].parent, c);
        Trace([step] + rest.steps, rest.base)
  }

  /** What the newest checkpoint's channel reconstructs from. */
  ghost function Reconstruction(v: View, ns: Namespace, c: Channel): Trace
    requires SpaceIn(v, ns) != map[]
  {
    var head := Latest(SpaceIn(v, ns));
    if SnapshotAt(v, ns, head, c) then
      Trace([], Some(v.blobs[BlobSlot(ns, c, SpaceIn(v, ns)[head].Versions()[c])]))
    else
      History(v, ns, SpaceIn(v, ns)[head].parent, c)
  }

  // ---- Pruning --------------------------------------------------------------------------

  /** Channels of the newest checkpoint that need the ancestor walk. */
  ghost function NeededChannels(v: View, ns: Namespace): set<Channel>
    requires SpaceIn(v, ns) != map[]
  {
    var head := Latest(SpaceIn(v, ns));
    set c | c in SpaceIn(v, ns)[head].Versions() && !SnapshotAt(v, ns, head, c)
  }

  ghost function WalkIds(trace: Trace): set<CheckpointId> {
    set s | s in trace.steps :: s.id
  }

  /** The checkpoints `keep_latest` retains: the newest and everything its channels are rebuilt from. */
  ghost function Kept(v: View, ns: Namespace): set<CheckpointId>
    requires SpaceIn(v, ns) != map[]
  {
    var head := Latest(SpaceIn(v, ns));
    {head} + set c, id | c in NeededChannels(v, ns)
                      && id in WalkIds(History(v, ns, SpaceIn(v, ns)[head].parent, c)) :: id
  }

  ghost predicate KeepsCheckpoint(v: View, ns: Namespace, id: CheckpointId) {
    SpaceIn(v, ns) != map[] && id in SpaceIn(v, ns) && id in Kept(v, ns)
  }

  /** Some kept checkpoint names this blob. */
  ghost predicate KeepsBlob(v: View, slot: BlobSlot) {
    exists id :: KeepsCheckpoint(v, slot.ns, id) && Names(SpaceIn(v, slot.ns)[id], slot)
  }

  predicate Names(entry: Entry, slot: BlobSlot) {
    slot.channel in entry.Versions() && entry.Versions()[slot.channel] == slot.version
  }

  ghost function Restrict(space: Space, ids: set<CheckpointId>): Space {
    map id | id in space && id in ids :: space[id]
  }

  /** The rows of a thread after `prune(strategy="keep_latest")`. */
  ghost function PruneView(v: View): View {
    if v.spaces == map[] then v
    else
      View(map ns | ns in v.spaces && v.spaces[ns] != map[] :: Restrict(v.spaces[ns], Kept(v, ns)),
           map s | s in v.writes && KeepsCheckpoint(v, s.ns, s.id) :: v.writes[s],
           map s | s in v.blobs && KeepsBlob(v, s) :: v.blobs[s])
  }

  // ---- The other operations -------------------------------------------------------------

  /** The blobs a `put` writes: one per new version, tagged "empty" when there is no value. */
  function NewBlobs(ns: Namespace, newVersions: map<Channel, Version>, values: map<Channel, Typed>): map<BlobSlot, Typed> {
    map c | c in newVersions :: BlobSlot(ns, c, newVersions[c]) := if c in values then values[c] else EMPTY
  }

  ghost predicate ParentIsOlder(id: CheckpointId, entry: Entry) {
    entry.parent.Some? ==> Lex.Less(entry.parent.value, id)
  }

  /** The rows of a thread after `put`. */
  ghost function PutView(v: View, ns: Namespace, id: CheckpointId, entry: Entry,
                         newVersions: map<Channel, Version>, values: map<Channel, Typed>): View
    requires ParentIsOlder(id, entry)
  {
    var space: Space := SpaceIn(v, ns)[id := entry];
    View(v.spaces[ns := space], v.writes, v.blobs + NewBlobs(ns, newVersions, values))
  }

  /** The rows of a thread after `put_writes`.  How the library merges new writes into the group
      is left to `merge`; it may only touch the one group. */
  function PutWritesView(v: View, ns: Namespace, id: CheckpointId,
                         merge: Option<WriteGroup> -> Option<WriteGroup>): View
  {
    var after := merge(GroupAt(v, ns, id));
    v.(writes := if after.Some? then v.writes[WriteSlot(ns, id) := after.value]
                 else v.writes - {WriteSlot(ns, id)})
  }

  ghost function WithoutRun(space: Space, run: RunId): Space {
    map id | id in space && space[id].metadata.value != Some(run) :: space[id]
  }

  /** The rows of a thread after deleting the checkpoints one run wrote. */
  ghost function DeleteRunView(v: View, run: RunId): View {
    v.(spaces := map ns | ns in v.spaces && (v.spaces[ns] == map[] || WithoutRun(v.spaces[ns], run) != map[]) ::
         WithoutRun(v.spaces[ns], run))
  }

  ghost function PruneData(d: Data, t: ThreadId): Data { WithView(d, t, PruneView(ViewOf(d, t))) }

  ghost function DeleteData(d: Data, t: ThreadId): Data { WithView(d, t, NO_ROWS) }

  ghost function CopyData(d: Data, source: ThreadId, target: ThreadId): Data { WithView(d, target, ViewOf(d, source)) }

  ghost function DeleteRunData(d: Data, t: ThreadId, run: RunId): Data { WithView(d, t, DeleteRunView(ViewOf(d, t), run)) }

  ghost function PruneAll(d: Data, threads: seq<ThreadId>): Data {
    if |threads| == 0 then d else PruneData(PruneAll(d, threads[..|threads| - 1]), threads[|threads| - 1])
  }

  ghost function DeleteAll(d: Data, threads: seq<ThreadId>): Data {
    if |threads| == 0 then d else DeleteData(DeleteAll(d, threads[..|threads| - 1]), threads[|threads| - 1])
  }
}
