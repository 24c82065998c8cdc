/** Pruning and the runs that go on after it: exactly when `prune(keep_latest)`, inserted between
    `put`s and `put_writes`, is invisible to what every namespace head reconstructs to. */
module PruneInvisible {
  import opened Wrappers
  import Lex
  import opened CheckpointModel
  import opened CheckpointPruning

  // ---- Runs -----------------------------------------------------------------------------

  datatype Event =
    | Put(t: ThreadId, ns: Namespace, id: CheckpointId, entry: Entry,
          newVersions: map<Channel, Version>, values: map<Channel, Typed>)
    | PutWrites(t: ThreadId, ns: Namespace, id: CheckpointId, merge: Option<WriteGroup> -> Option<WriteGroup>)
    | DeleteThread(t: ThreadId)
    | DeleteRun(t: ThreadId, run: RunId)
    | Prune(t: ThreadId)

  /** A `put` on top of the newest checkpoint, if there is one. */
  ghost predicate OnHead(v: View, ns: Namespace, id: CheckpointId, entry: Entry) {
    && ParentIsOlder(id, entry)
    && (SpaceIn(v, ns) != map[] ==> Lex.Less(Latest(SpaceIn(v, ns)), id) && entry.parent == Some(Latest(SpaceIn(v, ns))))
  }

  /** A `put` that extends the newest checkpoint: each of its channels is a new version or the
      parent's, a channel without a snapshot was already carried by the parent, and no materialised
      blob is overwritten by an empty one. */
  ghost predicate ExtendsHead(v: View, ns: Namespace, id: CheckpointId, entry: Entry,
                              newVersions: map<Channel, Version>, values: map<Channel, Typed>)
  {
    && OnHead(v, ns, id, entry)
    && KeepsSnapshots(v, ns, newVersions, values)
    && (SpaceIn(v, ns) != map[] ==>
          var before := SpaceIn(v, ns)[Latest(SpaceIn(v, ns))].Versions();
          forall c :: c in entry.Versions() ==>
            && (WritesVersion(entry, newVersions, c) || (c in before && before[c] == entry.Versions()[c]))
            && (c in before || NewSnapshot(v, ns, entry, newVersions, values, c)))
  }

  /** A new version of a channel is fresh, or at least does not empty an existing snapshot. */
  predicate KeepsSnapshots(v: View, ns: Namespace, newVersions: map<Channel, Version>, values: map<Channel, Typed>) {
    forall c :: c in newVersions && Materialized(v, BlobSlot(ns, c, newVersions[c])) ==>
      c in values && values[c].tag != "empty"
  }

  /** Writes are recorded at the newest checkpoint or an older one. */
  ghost predicate WritesAtHead(v: View, ns: Namespace, id: CheckpointId) {
    SpaceIn(v, ns) != map[] && Lex.AtMost(id, Latest(SpaceIn(v, ns)))
  }

  /** No newest checkpoint of the thread was written by the run. */
  ghost predicate SparesHeads(v: View, run: RunId) {
    forall ns :: SpaceIn(v, ns) != map[] ==> SpaceIn(v, ns)[Latest(SpaceIn(v, ns))].metadata.value != Some(run)
  }

  /** What every run does: puts are on top of their heads, writes at or below them, and deletions of
      a run's checkpoints leave the heads. */
  ghost predicate AtHeads(d: Data, e: Event) {
    match e
    case Put(t, ns, id, entry, newVersions, values) => OnHead(ViewOf(d, t), ns, id, entry)
    case PutWrites(t, ns, id, merge) => WritesAtHead(ViewOf(d, t), ns, id)
    case DeleteThread(t) => true
    case DeleteRun(t, run) => SparesHeads(ViewOf(d, t), run)
    case Prune(t) => true
  }

  /** What a continuing run does besides: its puts extend their heads. */
  ghost predicate Admissible(d: Data, e: Event) {
    AtHeads(d, e) && (e.Put? ==> ExtendsHead(ViewOf(d, e.t), e.ns, e.id, e.entry, e.newVersions, e.values))
  }

  ghost function Apply(d: Data, e: Event): Data {
    match e
    case Put(t, ns, id, entry, newVersions, values) =>
      if ParentIsOlder(id, entry) then WithView(d, t, PutView(ViewOf(d, t), ns, id, entry, newVersions, values)) else d
    case PutWrites(t, ns, id, merge) => WithView(d, t, PutWritesView(ViewOf(d, t), ns, id, merge))
    case DeleteThread(t) => DeleteData(d, t)
    case DeleteRun(t, run) => DeleteRunData(d, t, run)
    case Prune(t) => PruneData(d, t)
  }

  /** The same run without its prunes. */
  ghost function ApplyUnpruned(d: Data, e: Event): Data {
    if e.Prune? then d else Apply(d, e)
  }

  ghost function Run(d: Data, events: seq<Event>): Data {
    if |events| == 0 then d else Apply(Run(d, events[..|events| - 1]), events[|events| - 1])
  }

  ghost function RunUnpruned(d: Data, events: seq<Event>): Data {
    if |events| == 0 then d else ApplyUnpruned(RunUnpruned(d, events[..|events| - 1]), events[|events| - 1])
  }

  ghost predicate AtHeadsRun(d: Data, events: seq<Event>) {
    forall i :: 0 <= i < |events| ==> AtHeads(RunUnpruned(d, events[..i]), events[i])
  }

  /** Every event is admissible where the run without prunes has got to. */
  ghost predicate AdmissibleRun(d: Data, events: seq<Event>) {
    forall i :: 0 <= i < |events| ==> Admissible(RunUnpruned(d, events[..i]), events[i])
  }

  // ---- A store with prunes beside one without --------------------------------------------

  ghost predicate NoRowsIn(v: View, ns: Namespace) {
    && SpaceIn(v, ns) == map[]
    && (forall s: WriteSlot :: s in v.writes ==> s.ns != ns)
    && (forall s: BlobSlot :: s in v.blobs ==> s.ns != ns)
  }

  ghost predicate NoWritesAfter(v: View, ns: Namespace, head: CheckpointId) {
    forall s: WriteSlot :: s.ns == ns && s in v.writes ==> Lex.AtMost(s.id, head)
  }

  /** Two namespaces with the same newest checkpoint. */
  ghost predicate SameLatest(u: View, p: View, ns: Namespace) {
    SpaceIn(u, ns) != map[] && SpaceIn(p, ns) != map[] && Latest(SpaceIn(p, ns)) == Latest(SpaceIn(u, ns))
  }

  /** The same newest checkpoint, and no writes past it. */
  ghost predicate HeadsMeet(u: View, p: View, ns: Namespace) {
    && SameLatest(u, p, ns)
    && NoWritesAfter(u, ns, Latest(SpaceIn(u, ns))) && NoWritesAfter(p, ns, Latest(SpaceIn(u, ns)))
  }

  /** `p` holds part of `u`, with the same newest checkpoint. */
  ghost predicate Covers(u: View, p: View, ns: Namespace) {
    (NoRowsIn(u, ns) && NoRowsIn(p, ns)) || (HoldsPart(u, p, ns) && HeadsMeet(u, p, ns))
  }

  /** Nothing shows: the namespace has the same head in both, with the same entry and pending
      writes, and each of its channels reconstructs from the same steps and snapshot. */
  ghost predicate SameHead(u: View, p: View, ns: Namespace) {
    if SpaceIn(u, ns) == map[] then SpaceIn(p, ns) == map[]
    else
      var head := Latest(SpaceIn(u, ns));
      && SpaceIn(p, ns) != map[] && Latest(SpaceIn(p, ns)) == head
      && SpaceIn(p, ns)[head] == SpaceIn(u, ns)[head]
      && GroupAt(p, ns, head) == GroupAt(u, ns, head)
      && forall c :: c in SpaceIn(u, ns)[head].Versions() ==> Reconstruction(p, ns, c) == Reconstruction(u, ns, c)
  }

  /** A channel of the newest checkpoint has all it is rebuilt from in `p`. */
  ghost predicate Rebuilds(u: View, p: View, ns: Namespace, c: Channel)
    requires SpaceIn(u, ns) != map[]
  {
    var head := Latest(SpaceIn(u, ns));
    SnapshotAt(u, ns, head, c) || WalkIds(History(u, ns, SpaceIn(u, ns)[head].parent, c)) <= SpaceIn(p, ns).Keys
  }

  lemma HeadIsHeld(u: View, p: View, ns: Namespace)
    requires HoldsPart(u, p, ns) && SameLatest(u, p, ns)
    ensures var head := Latest(SpaceIn(u, ns));
      head in SpaceIn(p, ns) && SpaceIn(p, ns)[head] == SpaceIn(u, ns)[head] && GroupAt(p, ns, head) == GroupAt(u, ns, head)
  {
    assert HasRows(u, p, ns, Latest(SpaceIn(u, ns)));
  }

  /** Whether anything shows is a question of which ancestors `p` holds. */
  lemma SameHeadIff(u: View, p: View, ns: Namespace)
    requires HoldsPart(u, p, ns) && SameLatest(u, p, ns)
    ensures SameHead(u, p, ns) <==>
      forall c :: c in SpaceIn(u, ns)[Latest(SpaceIn(u, ns))].Versions() ==> Rebuilds(u, p, ns, c)
  {
    var head := Latest(SpaceIn(u, ns));
    HeadIsHeld(u, p, ns);
    forall c | c in SpaceIn(u, ns)[head].Versions()
      ensures Reconstruction(p, ns, c) == Reconstruction(u, ns, c) <==> Rebuilds(u, p, ns, c)
    {
      RebuildsIff(u, p, ns, c);
    }
  }

  lemma RebuildsIff(u: View, p: View, ns: Namespace, c: Channel)
    requires HoldsPart(u, p, ns) && SameLatest(u, p, ns) && c in SpaceIn(u, ns)[Latest(SpaceIn(u, ns))].Versions()
    ensures Reconstruction(p, ns, c) == Reconstruction(u, ns, c) <==> Rebuilds(u, p, ns, c)
  {
    hide History, WalkIds, SnapshotAt;
    var head := Latest(SpaceIn(u, ns));
    StepInPart(u, p, ns, head, c);
    WalksAgreeIff(u, p, ns, SpaceIn(u, ns)[head].parent, c);
    hide HoldsPart;
    if SnapshotAt(u, ns, head, c) { SnapshotIsCarried(u, ns, head, c); }
  }

  lemma SnapshotIsCarried(v: View, ns: Namespace, id: CheckpointId, c: Channel)
    requires id in SpaceIn(v, ns) && SnapshotAt(v, ns, id, c)
    ensures c in SpaceIn(v, ns)[id].Versions() && BlobSlot(ns, c, SpaceIn(v, ns)[id].Versions()[c]) in v.blobs
  {
  }

  // ---- One namespace at a time --------------------------------------------------------------

  /** A walk reads one namespace only. */
  lemma {:induction false} HistoryLocal(v: View, w: View, ns: Namespace, from: Option<CheckpointId>, c: Channel)
    requires SameRows(v, w, ns)
    ensures History(w, ns, from, c) == History(v, ns, from, c)
    decreases Rank(SpaceIn(v, ns), from)
  {
    var space := SpaceIn(v, ns);
    if from.Some? && from.value in space {
      assert GroupAt(v, ns, from.value) == GroupAt(w, ns, from.value);
      if c in space[from.value].Versions() {
        var slot := BlobSlot(ns, c, space[from.value].Versions()[c]);
        assert BlobAt(v, slot) == BlobAt(w, slot);
      }
      if !SnapshotAt(v, ns, from.value, c) {
        RankDecreases(space, from.value);
        HistoryLocal(v, w, ns, space[from.value].parent, c);
      }
    }
  }

  ghost predicate SameRows(v: View, w: View, ns: Namespace) {
    && SpaceIn(v, ns) == SpaceIn(w, ns)
    && (forall id :: GroupAt(v, ns, id) == GroupAt(w, ns, id))
    && (forall s: BlobSlot :: s.ns == ns ==> BlobAt(v, s) == BlobAt(w, s))
  }

  lemma OtherNamespace(v: View, ns: Namespace, id: CheckpointId, entry: Entry,
                       newVersions: map<Channel, Version>, values: map<Channel, Typed>, other: Namespace)
    requires ParentIsOlder(id, entry) && other != ns
    ensures SameRows(v, PutView(v, ns, id, entry, newVersions, values), other)
  {
  }

  lemma OtherNamespaceWrites(v: View, ns: Namespace, id: CheckpointId,
                             merge: Option<WriteGroup> -> Option<WriteGroup>, other: Namespace)
    requires other != ns
    ensures SameRows(v, PutWritesView(v, ns, id, merge), other)
  {
  }

  // ---- Agreement is kept ------------------------------------------------------------------

  lemma RowsLocal(v: View, w: View, ns: Namespace)
    requires SameRows(v, w, ns)
    ensures forall s: WriteSlot :: s.ns == ns ==> (s in v.writes <==> s in w.writes)
    ensures forall s: BlobSlot :: s.ns == ns ==> (s in v.blobs <==> s in w.blobs) && (s in v.blobs ==> v.blobs[s] == w.blobs[s])
  {
    forall s: WriteSlot | s.ns == ns ensures s in v.writes <==> s in w.writes {
      assert GroupAt(v, ns, s.id) == GroupAt(w, ns, s.id);
      assert s == WriteSlot(ns, s.id);
    }
    forall s: BlobSlot | s.ns == ns ensures (s in v.blobs <==> s in w.blobs) && (s in v.blobs ==> v.blobs[s] == w.blobs[s]) {
      assert BlobAt(v, s) == BlobAt(w, s);
    }
  }

  lemma PartLocal(u: View, p: View, u': View, p': View, ns: Namespace)
    requires SameRows(u, u', ns) && SameRows(p, p', ns) && HoldsPart(u, p, ns)
    ensures HoldsPart(u', p', ns)
  {
    RowsLocal(u, u', ns);
    RowsLocal(p, p', ns);
    forall id | id in SpaceIn(p', ns) ensures HasRows(u', p', ns, id) {
      assert HasRows(u, p, ns, id);
      assert GroupAt(u, ns, id) == GroupAt(u', ns, id) && GroupAt(p, ns, id) == GroupAt(p', ns, id);
    }
  }

  lemma CoversLocal(u: View, p: View, u': View, p': View, ns: Namespace)
    requires SameRows(u, u', ns) && SameRows(p, p', ns) && Covers(u, p, ns)
    ensures Covers(u', p', ns)
  {
    hide HoldsPart;
    RowsLocal(u, u', ns);
    RowsLocal(p, p', ns);
    if HoldsPart(u, p, ns) { PartLocal(u, p, u', p', ns); }
  }

  lemma ReconstructionLocal(v: View, w: View, ns: Namespace, c: Channel)
    requires SameRows(v, w, ns) && SpaceIn(v, ns) != map[]
    ensures Reconstruction(w, ns, c) == Reconstruction(v, ns, c)
  {
    var head := Latest(SpaceIn(v, ns));
    HistoryLocal(v, w, ns, SpaceIn(v, ns)[head].parent, c);
    RowsLocal(v, w, ns);
    hide History;
  }

  lemma SameHeadLocal(u: View, p: View, u': View, p': View, ns: Namespace)
    requires SameRows(u, u', ns) && SameRows(p, p', ns)
    ensures SameHead(u', p', ns) <==> SameHead(u, p, ns)
  {
    hide Reconstruction;
    if SpaceIn(u, ns) != map[] && SpaceIn(p, ns) != map[] {
      forall c ensures Reconstruction(u', ns, c) == Reconstruction(u, ns, c) && Reconstruction(p', ns, c) == Reconstruction(p, ns, c) {
        ReconstructionLocal(u, u', ns, c);
        ReconstructionLocal(p, p', ns, c);
      }
    }
  }

  // ---- A put -----------------------------------------------------------------------------------

  lemma BlobAfterPut(v: View, ns: Namespace, id: CheckpointId, entry: Entry,
                     newVersions: map<Channel, Version>, values: map<Channel, Typed>, slot: BlobSlot)
    requires ParentIsOlder(id, entry) && slot.ns == ns
    ensures BlobAt(PutView(v, ns, id, entry, newVersions, values), slot)
         == if slot.channel in newVersions && newVersions[slot.channel] == slot.version
            then Some(if slot.channel in values then values[slot.channel] else EMPTY)
            else BlobAt(v, slot)
  {
    var added := NewBlobs(ns, newVersions, values);
    if slot.channel in newVersions && newVersions[slot.channel] == slot.version {
      assert slot == BlobSlot(ns, slot.channel, newVersions[slot.channel]);
      assert slot in added;
    } else {
      assert slot !in added;
    }
  }

  /** The rows as they stand, with the blobs a put is about to write. */
  ghost function WithNewBlobs(v: View, ns: Namespace, newVersions: map<Channel, Version>, values: map<Channel, Typed>): View {
    v.(blobs := v.blobs + NewBlobs(ns, newVersions, values))
  }

  /** Adding a checkpoint does not matter to the walks below it: only the new blobs do. */
  lemma {:induction false} HistoryBelowPut(v: View, ns: Namespace, id: CheckpointId, entry: Entry,
                                           newVersions: map<Channel, Version>, values: map<Channel, Typed>,
                                           from: Option<CheckpointId>, c: Channel)
    requires ParentIsOlder(id, entry) && (from.Some? ==> Lex.Less(from.value, id))
    ensures History(PutView(v, ns, id, entry, newVersions, values), ns, from, c)
         == History(WithNewBlobs(v, ns, newVersions, values), ns, from, c)
    decreases Rank(SpaceIn(v, ns), from)
  {
    hide NewBlobs;
    var put, blobs := PutView(v, ns, id, entry, newVersions, values), WithNewBlobs(v, ns, newVersions, values);
    assert put.blobs == blobs.blobs && put.writes == blobs.writes;
    if from.Some? && from.value in SpaceIn(v, ns) {
      Lex.Asymmetric(from.value, id);
      var parent := SpaceIn(v, ns)[from.value].parent;
      if parent.Some? { Lex.Transitive(parent.value, from.value, id); }
      RankDecreases(SpaceIn(v, ns), from.value);
      HistoryBelowPut(v, ns, id, entry, newVersions, values, parent, c);
      hide History, PutView, WithNewBlobs;
      assert SpaceIn(put, ns)[from.value] == SpaceIn(v, ns)[from.value];
      SameStep(put, blobs, ns, from.value, c);
    } else if from.Some? {
      Lex.Irreflexive(id);
    }
  }

  lemma SameStep(v: View, w: View, ns: Namespace, at: CheckpointId, c: Channel)
    requires v.blobs == w.blobs && v.writes == w.writes
    requires at in SpaceIn(v, ns) && at in SpaceIn(w, ns) && SpaceIn(v, ns)[at] == SpaceIn(w, ns)[at]
    requires History(v, ns, SpaceIn(v, ns)[at].parent, c) == History(w, ns, SpaceIn(v, ns)[at].parent, c)
    ensures History(v, ns, Some(at), c) == History(w, ns, Some(at), c)
  {
  }

  /** The put itself writes the blob of this channel of its checkpoint. */
  predicate WritesVersion(entry: Entry, newVersions: map<Channel, Version>, c: Channel)
    requires c in entry.Versions()
  {
    c in newVersions && newVersions[c] == entry.Versions()[c]
  }

  /** The channel is materialised at the new checkpoint: by the put, or by a blob stored before. */
  predicate NewSnapshot(v: View, ns: Namespace, entry: Entry, newVersions: map<Channel, Version>, values: map<Channel, Typed>, c: Channel)
    requires c in entry.Versions()
  {
    if WritesVersion(entry, newVersions, c) then c in values && values[c].tag != "empty"
    else Materialized(v, BlobSlot(ns, c, entry.Versions()[c]))
  }

  /** What a put needs of the store with prunes, told before it, from the stores and the put.  A
      channel with a snapshot at the new checkpoint brings it along or finds it stored; for any
      other, the walk from the old head, given the new blobs, meets held checkpoints only. */
  ghost predicate ForeseenIn(u: View, p: View, ns: Namespace, entry: Entry,
                             newVersions: map<Channel, Version>, values: map<Channel, Typed>, c: Channel)
    requires c in entry.Versions()
  {
    if NewSnapshot(u, ns, entry, newVersions, values, c) then
      WritesVersion(entry, newVersions, c) || BlobSlot(ns, c, entry.Versions()[c]) in p.blobs
    else
      WalkIds(History(WithNewBlobs(u, ns, newVersions, values), ns, entry.parent, c)) <= SpaceIn(p, ns).Keys
  }

  lemma PartWithNewBlobs(u: View, p: View, ns: Namespace, newVersions: map<Channel, Version>, values: map<Channel, Typed>)
    requires HoldsPart(u, p, ns)
    ensures HoldsPart(WithNewBlobs(u, ns, newVersions, values), WithNewBlobs(p, ns, newVersions, values), ns)
  {
    hide NewBlobs;
    var u', p' := WithNewBlobs(u, ns, newVersions, values), WithNewBlobs(p, ns, newVersions, values);
    assert SpaceIn(u', ns) == SpaceIn(u, ns) && SpaceIn(p', ns) == SpaceIn(p, ns);
    assert SubRows(u', p', ns);
    forall id | id in SpaceIn(p', ns) ensures HasRows(u', p', ns, id) {
      assert HasRows(u, p, ns, id);
      assert GroupAt(u', ns, id) == GroupAt(u, ns, id) && GroupAt(p', ns, id) == GroupAt(p, ns, id);
    }
  }

  /** A put on top of the head becomes the head. */
  lemma PutOnHead(v: View, ns: Namespace, id: CheckpointId, entry: Entry,
                  newVersions: map<Channel, Version>, values: map<Channel, Typed>)
    requires SpaceIn(v, ns) != map[] && Lex.Less(Latest(SpaceIn(v, ns)), id) && ParentIsOlder(id, entry)
    ensures var u' := PutView(v, ns, id, entry, newVersions, values);
      SpaceIn(u', ns) != map[] && Latest(SpaceIn(u', ns)) == id && SpaceIn(u', ns)[id] == entry
  {
    hide NewBlobs;
    var space := SpaceIn(PutView(v, ns, id, entry, newVersions, values), ns);
    var head := Latest(SpaceIn(v, ns));
    forall i | i in space ensures Lex.AtMost(i, id) {
      if i != id && i != head { Lex.Transitive(i, head, id); }
    }
    assert IsLatest(space, id);
    LatestUnique(space, id, Latest(space));
  }

  lemma SnapshotAfterPut(v: View, ns: Namespace, id: CheckpointId, entry: Entry,
                         newVersions: map<Channel, Version>, values: map<Channel, Typed>, c: Channel)
    requires ParentIsOlder(id, entry) && c in entry.Versions()
    ensures var v' := PutView(v, ns, id, entry, newVersions, values); var slot := BlobSlot(ns, c, entry.Versions()[c]);
      && id in SpaceIn(v', ns) && SpaceIn(v', ns)[id] == entry
      && (SnapshotAt(v', ns, id, c) <==> NewSnapshot(v, ns, entry, newVersions, values, c))
      && BlobAt(v', slot) == if WritesVersion(entry, newVersions, c) then Some(if c in values then values[c] else EMPTY) else BlobAt(v, slot)
  {
    hide NewBlobs;
    BlobAfterPut(v, ns, id, entry, newVersions, values, BlobSlot(ns, c, entry.Versions()[c]));
  }

  lemma HeadStaysAfterPut(v: View, ns: Namespace, id: CheckpointId, entry: Entry,
                          newVersions: map<Channel, Version>, values: map<Channel, Typed>)
    requires SpaceIn(v, ns) != map[] && ParentIsOlder(id, entry)
    ensures Latest(SpaceIn(v, ns)) in SpaceIn(PutView(v, ns, id, entry, newVersions, values), ns)
  {
    hide NewBlobs;
  }

  lemma WalkIsNotEmpty(v: View, ns: Namespace, at: CheckpointId, c: Channel)
    requires at in SpaceIn(v, ns)
    ensures History(v, ns, Some(at), c).steps != []
  {
  }

  /** After a put on a head both stores share, a channel of the new head reconstructs alike if and
      only if the put was foreseen for it. */
  lemma ChannelAfterPut(u: View, p: View, ns: Namespace, id: CheckpointId, entry: Entry,
                        newVersions: map<Channel, Version>, values: map<Channel, Typed>, c: Channel)
    requires HoldsPart(u, p, ns) && SameLatest(u, p, ns) && OnHead(u, ns, id, entry) && c in entry.Versions()
    requires var u', p' := PutView(u, ns, id, entry, newVersions, values), PutView(p, ns, id, entry, newVersions, values);
      && SpaceIn(u', ns) != map[] && Latest(SpaceIn(u', ns)) == id && SpaceIn(u', ns)[id] == entry
      && SpaceIn(p', ns) != map[] && Latest(SpaceIn(p', ns)) == id && SpaceIn(p', ns)[id] == entry
    ensures var u', p' := PutView(u, ns, id, entry, newVersions, values), PutView(p, ns, id, entry, newVersions, values);
      Reconstruction(p', ns, c) == Reconstruction(u', ns, c) <==> ForeseenIn(u, p, ns, entry, newVersions, values, c)
  {
    hide PutView, History, WalkIds, WithNewBlobs, NewBlobs;
    var u', p' := PutView(u, ns, id, entry, newVersions, values), PutView(p, ns, id, entry, newVersions, values);
    SnapshotAfterPut(u, ns, id, entry, newVersions, values, c);
    SnapshotAfterPut(p, ns, id, entry, newVersions, values, c);
    PartWithNewBlobs(u, p, ns, newVersions, values);
    WalksAgreeIff(WithNewBlobs(u, ns, newVersions, values), WithNewBlobs(p, ns, newVersions, values), ns, entry.parent, c);
    BlobsAddNoCheckpoints(p, ns, newVersions, values);
    HistoryBelowPut(u, ns, id, entry, newVersions, values, entry.parent, c);
    HistoryBelowPut(p, ns, id, entry, newVersions, values, entry.parent, c);
    HeadStaysAfterPut(p, ns, id, entry, newVersions, values);
    WalkIsNotEmpty(p', ns, entry.parent.value, c);
  }

  lemma BlobsAddNoCheckpoints(v: View, ns: Namespace, newVersions: map<Channel, Version>, values: map<Channel, Typed>)
    ensures SpaceIn(WithNewBlobs(v, ns, newVersions, values), ns) == SpaceIn(v, ns)
  {
  }

  /** Exactly when prunes are invisible to a put on top of the head, whatever went before: the new
      head is the put's checkpoint either way, its pending writes are the same, and each of its
      channels reconstructs as without the prunes if and only if the put was foreseen for it. */
  lemma PutOnPart(u: View, p: View, ns: Namespace, id: CheckpointId, entry: Entry,
                  newVersions: map<Channel, Version>, values: map<Channel, Typed>)
    requires HoldsPart(u, p, ns) && HeadsMeet(u, p, ns) && OnHead(u, ns, id, entry)
    ensures var u', p' := PutView(u, ns, id, entry, newVersions, values), PutView(p, ns, id, entry, newVersions, values);
      && HeadsMeet(u', p', ns) && Latest(SpaceIn(u', ns)) == id
      && SpaceIn(u', ns)[id] == entry && SpaceIn(p', ns)[id] == entry
      && GroupAt(u', ns, id) == None && GroupAt(p', ns, id) == None
      && forall c :: c in entry.Versions() ==>
           (Reconstruction(p', ns, c) == Reconstruction(u', ns, c) <==> ForeseenIn(u, p, ns, entry, newVersions, values, c))
  {
    hide PutView, ForeseenIn, Reconstruction, HoldsPart;
    PutOnHead(u, ns, id, entry, newVersions, values);
    PutOnHead(p, ns, id, entry, newVersions, values);
    WritesAfterPut(u, ns, id, entry, newVersions, values);
    WritesAfterPut(p, ns, id, entry, newVersions, values);
    forall c | c in entry.Versions()
      ensures var u', p' := PutView(u, ns, id, entry, newVersions, values), PutView(p, ns, id, entry, newVersions, values);
        Reconstruction(p', ns, c) == Reconstruction(u', ns, c) <==> ForeseenIn(u, p, ns, entry, newVersions, values, c)
    {
      ChannelAfterPut(u, p, ns, id, entry, newVersions, values, c);
    }
  }

  /** No writes are recorded at a checkpoint before it is put, or past it after. */
  lemma WritesAfterPut(v: View, ns: Namespace, id: CheckpointId, entry: Entry,
                       newVersions: map<Channel, Version>, values: map<Channel, Typed>)
    requires SpaceIn(v, ns) != map[] && NoWritesAfter(v, ns, Latest(SpaceIn(v, ns)))
    requires Lex.Less(Latest(SpaceIn(v, ns)), id) && ParentIsOlder(id, entry)
    ensures var v' := PutView(v, ns, id, entry, newVersions, values); NoWritesAfter(v', ns, id) && GroupAt(v', ns, id) == None
  {
    hide NewBlobs;
    var head := Latest(SpaceIn(v, ns));
    Lex.Asymmetric(head, id);
    forall s: WriteSlot | s.ns == ns && s in v.writes ensures Lex.AtMost(s.id, id) {
      if s.id != head { Lex.Transitive(s.id, head, id); }
    }
  }

  /** A put that was foreseen leaves the one store a part of the other. */
  lemma PartAfterPut(u: View, p: View, ns: Namespace, id: CheckpointId, entry: Entry,
                     newVersions: map<Channel, Version>, values: map<Channel, Typed>)
    requires HoldsPart(u, p, ns) && HeadsMeet(u, p, ns) && OnHead(u, ns, id, entry)
    requires forall c :: c in entry.Versions() ==> ForeseenIn(u, p, ns, entry, newVersions, values, c)
    ensures HoldsPart(PutView(u, ns, id, entry, newVersions, values), PutView(p, ns, id, entry, newVersions, values), ns)
  {
    hide WalkIds, History, NewBlobs, Reconstruction;
    var u', p' := PutView(u, ns, id, entry, newVersions, values), PutView(p, ns, id, entry, newVersions, values);
    PutOnPart(u, p, ns, id, entry, newVersions, values);
    PartWithNewBlobs(u, p, ns, newVersions, values);
    assert SubRows(u', p', ns);
    forall i | i in SpaceIn(p', ns) ensures HasRows(u', p', ns, i) {
      if i == id {
        forall c | c in entry.Versions() && Materialized(u', BlobSlot(ns, c, entry.Versions()[c]))
          ensures BlobSlot(ns, c, entry.Versions()[c]) in p'.blobs
        {
          assert ForeseenIn(u, p, ns, entry, newVersions, values, c);
          SnapshotAfterPut(u, ns, id, entry, newVersions, values, c);
          SnapshotAfterPut(p, ns, id, entry, newVersions, values, c);
        }
      } else {
        OldRowsAfterPut(u, p, ns, id, entry, newVersions, values, i);
      }
    }
  }

  lemma OldRowsAfterPut(u: View, p: View, ns: Namespace, id: CheckpointId, entry: Entry,
                        newVersions: map<Channel, Version>, values: map<Channel, Typed>, i: CheckpointId)
    requires ParentIsOlder(id, entry) && HoldsPart(u, p, ns) && i != id && i in SpaceIn(p, ns)
    ensures var u', p' := PutView(u, ns, id, entry, newVersions, values), PutView(p, ns, id, entry, newVersions, values);
      i in SpaceIn(p', ns) && HasRows(u', p', ns, i)
  {
    hide NewBlobs;
    assert HasRows(u, p, ns, i);
  }

  /** The first put of a namespace. */
  lemma FirstPut(u: View, p: View, ns: Namespace, id: CheckpointId, entry: Entry,
                 newVersions: map<Channel, Version>, values: map<Channel, Typed>)
    requires NoRowsIn(u, ns) && NoRowsIn(p, ns) && ParentIsOlder(id, entry)
    ensures var u', p' := PutView(u, ns, id, entry, newVersions, values), PutView(p, ns, id, entry, newVersions, values);
      Covers(u', p', ns) && SameHead(u', p', ns)
    ensures forall c :: c in entry.Versions() ==> ForeseenIn(u, p, ns, entry, newVersions, values, c)
  {
    hide NewBlobs;
    var u', p' := PutView(u, ns, id, entry, newVersions, values), PutView(p, ns, id, entry, newVersions, values);
    assert SpaceIn(u', ns) == map[id := entry] && SpaceIn(p', ns) == map[id := entry];
    forall i ensures GroupAt(u', ns, i) == None && GroupAt(p', ns, i) == None {
      assert WriteSlot(ns, i).ns == ns;
    }
    forall s: BlobSlot | s.ns == ns ensures BlobAt(u', s) == BlobAt(p', s) {
      BlobAfterPut(u, ns, id, entry, newVersions, values, s);
      BlobAfterPut(p, ns, id, entry, newVersions, values, s);
    }
    assert id in SpaceIn(u', ns);
    SameRowsCover(u', p', ns);
    forall c | c in entry.Versions() ensures ForeseenIn(u, p, ns, entry, newVersions, values, c) {
      assert SpaceIn(WithNewBlobs(u, ns, newVersions, values), ns) == map[];
      assert BlobSlot(ns, c, entry.Versions()[c]) !in u.blobs;
      assert History(WithNewBlobs(u, ns, newVersions, values), ns, entry.parent, c) == Trace([], None);
    }
  }

  lemma SameRowsCover(u: View, p: View, ns: Namespace)
    requires SameRows(u, p, ns) && SpaceIn(u, ns) != map[]
    requires forall s: WriteSlot :: s in u.writes || s in p.writes ==> s.ns != ns
    ensures Covers(u, p, ns) && SameHead(u, p, ns)
  {
    hide Reconstruction;
    RowsLocal(u, p, ns);
    forall id | id in SpaceIn(p, ns) ensures HasRows(u, p, ns, id) {
      assert GroupAt(p, ns, id) == GroupAt(u, ns, id);
    }
    forall c ensures Reconstruction(p, ns, c) == Reconstruction(u, ns, c) { ReconstructionLocal(u, p, ns, c); }
  }

  /** Both cases of a put. */
  lemma CoversAfterPut(u: View, p: View, ns: Namespace, id: CheckpointId, entry: Entry,
                       newVersions: map<Channel, Version>, values: map<Channel, Typed>)
    requires Covers(u, p, ns) && OnHead(u, ns, id, entry)
    ensures var u', p' := PutView(u, ns, id, entry, newVersions, values), PutView(p, ns, id, entry, newVersions, values);
      && (SameHead(u', p', ns) <==> forall c :: c in entry.Versions() ==> ForeseenIn(u, p, ns, entry, newVersions, values, c))
      && (SameHead(u', p', ns) ==> Covers(u', p', ns))
  {
    hide PutView, ForeseenIn, Reconstruction, HoldsPart;
    if NoRowsIn(u, ns) && NoRowsIn(p, ns) {
      FirstPut(u, p, ns, id, entry, newVersions, values);
    } else {
      PutOnPart(u, p, ns, id, entry, newVersions, values);
      if forall c :: c in entry.Versions() ==> ForeseenIn(u, p, ns, entry, newVersions, values, c) {
        PartAfterPut(u, p, ns, id, entry, newVersions, values);
      }
    }
  }

  // ---- Writes and prunes --------------------------------------------------------------------------

  lemma {:induction false} WalkIdsAfterWrites(v: View, ns: Namespace, id: CheckpointId,
                                              merge: Option<WriteGroup> -> Option<WriteGroup>,
                                              from: Option<CheckpointId>, c: Channel)
    ensures WalkIds(History(PutWritesView(v, ns, id, merge), ns, from, c)) == WalkIds(History(v, ns, from, c))
    decreases Rank(SpaceIn(v, ns), from)
  {
    var w := PutWritesView(v, ns, id, merge);
    if from.Some? && from.value in SpaceIn(v, ns) {
      WalkStep(v, ns, from.value, c);
      WalkStep(w, ns, from.value, c);
      if !SnapshotAt(v, ns, from.value, c) {
        RankDecreases(SpaceIn(v, ns), from.value);
        WalkIdsAfterWrites(v, ns, id, merge, SpaceIn(v, ns)[from.value].parent, c);
      }
      hide WalkIds, History;
    }
  }

  lemma GroupAfterWrites(v: View, ns: Namespace, id: CheckpointId, merge: Option<WriteGroup> -> Option<WriteGroup>, i: CheckpointId)
    ensures GroupAt(PutWritesView(v, ns, id, merge), ns, i) == if i == id then merge(GroupAt(v, ns, id)) else GroupAt(v, ns, i)
  {
  }

  lemma PartAfterWrites(u: View, p: View, ns: Namespace, id: CheckpointId, merge: Option<WriteGroup> -> Option<WriteGroup>)
    requires HoldsPart(u, p, ns)
    ensures HoldsPart(PutWritesView(u, ns, id, merge), PutWritesView(p, ns, id, merge), ns)
  {
    var u', p' := PutWritesView(u, ns, id, merge), PutWritesView(p, ns, id, merge);
    assert SpaceIn(u', ns) == SpaceIn(u, ns) && SpaceIn(p', ns) == SpaceIn(p, ns);
    assert SubRows(u', p', ns);
    hide GroupAt;
    forall i | i in SpaceIn(p', ns) ensures HasRows(u', p', ns, i) {
      assert HasRows(u, p, ns, i);
      GroupAfterWrites(u, ns, id, merge, i);
      GroupAfterWrites(p, ns, id, merge, i);
    }
  }

  lemma CoversAfterWrites(u: View, p: View, ns: Namespace, id: CheckpointId, merge: Option<WriteGroup> -> Option<WriteGroup>)
    requires Covers(u, p, ns) && SameHead(u, p, ns) && WritesAtHead(u, ns, id)
    ensures var u', p' := PutWritesView(u, ns, id, merge), PutWritesView(p, ns, id, merge); Covers(u', p', ns) && SameHead(u', p', ns)
  {
    var u', p' := PutWritesView(u, ns, id, merge), PutWritesView(p, ns, id, merge);
    PartAfterWrites(u, p, ns, id, merge);
    SameHeadIff(u, p, ns);
    hide HoldsPart, SameHead;
    assert HeadsMeet(u', p', ns);
    SameHeadIff(u', p', ns);
    var head := Latest(SpaceIn(u, ns));
    forall c | c in SpaceIn(u', ns)[head].Versions() ensures Rebuilds(u', p', ns, c) {
      assert Rebuilds(u, p, ns, c);
      WalkIdsAfterWrites(u, ns, id, merge, SpaceIn(u, ns)[head].parent, c);
    }
  }

  lemma CoversAfterRunDeletion(u: View, p: View, ns: Namespace, run: RunId)
    requires Covers(u, p, ns) && SameHead(u, p, ns) && SparesHeads(u, run)
    ensures var u', p' := DeleteRunView(u, run), DeleteRunView(p, run); Covers(u', p', ns) && SameHead(u', p', ns)
  {
    hide HoldsPart, SameHead, WalkIds, History;
    var u', p' := DeleteRunView(u, run), DeleteRunView(p, run);
    SpaceAfterRunDeletion(u, ns, run);
    SpaceAfterRunDeletion(p, ns, run);
    if NoRowsIn(u, ns) && NoRowsIn(p, ns) {
      EmptyWithoutRun(run);
      assert SameHead(u', p', ns) by { NoHeads(u', p', ns); }
    } else {
      var head := Latest(SpaceIn(u, ns));
      HeadIsHeld(u, p, ns);
      PartAfterRunDeletion(u, p, ns, run);
      HeadSpared(SpaceIn(u, ns), head, run);
      HeadSpared(SpaceIn(p, ns), head, run);
      SameHeadIff(u, p, ns);
      SameHeadIff(u', p', ns);
      forall c | c in SpaceIn(u', ns)[head].Versions() ensures Rebuilds(u', p', ns, c) {
        assert Rebuilds(u, p, ns, c);
        var parent := SpaceIn(u, ns)[head].parent;
        SnapshotAfterRunDeletion(u, ns, run, head, c);
        WalkAfterRunDeletion(u, ns, run, parent, c);
        HistoryIdsInSpace(u', ns, parent, c);
        LeftOfPart(u, p, ns, run);
      }
    }
  }

  lemma NoHeads(u: View, p: View, ns: Namespace)
    requires SpaceIn(u, ns) == map[] && SpaceIn(p, ns) == map[]
    ensures SameHead(u, p, ns)
  {
  }

  lemma HeadSpared(space: Space, head: CheckpointId, run: RunId)
    requires space != map[] && head == Latest(space) && space[head].metadata.value != Some(run)
    ensures var left := WithoutRun(space, run); left != map[] && head in left && left[head] == space[head] && Latest(left) == head
  {
    var left := WithoutRun(space, run);
    assert head in left && IsLatest(left, head);
    LatestUnique(left, head, Latest(left));
  }

  /** Only the store with prunes is pruned. */
  lemma CoversAfterPrune(u: View, p: View, ns: Namespace)
    requires Covers(u, p, ns) && SameHead(u, p, ns)
    ensures Covers(u, PruneView(p), ns) && SameHead(u, PruneView(p), ns)
  {
    hide PruneView, HoldsPart, Reconstruction, Kept;
    if SpaceIn(u, ns) == map[] {
      PruneAddsNothing(p, ns);
    } else {
      PrunedIsPart(u, p, ns);
      PruneKeepsReconstruction(p, ns);
      PruneAddsNothing(p, ns);
    }
  }

  lemma PruneAddsNothing(v: View, ns: Namespace)
    ensures NoRowsIn(v, ns) ==> NoRowsIn(PruneView(v), ns)
    ensures forall s :: s in PruneView(v).writes ==> s in v.writes
  {
  }

  // ---- Whole runs ---------------------------------------------------------------------------

  ghost predicate CoversAll(u: Data, p: Data) {
    forall t, ns :: Covers(ViewOf(u, t), ViewOf(p, t), ns)
  }

  ghost predicate SameHeads(u: Data, p: Data) {
    forall t, ns :: SameHead(ViewOf(u, t), ViewOf(p, t), ns)
  }

  /** A put that every channel of it was foreseen for; other events need no foresight. */
  ghost predicate Foresees(u: Data, p: Data, e: Event) {
    e.Put? ==> forall c :: c in e.entry.Versions() ==>
      ForeseenIn(ViewOf(u, e.t), ViewOf(p, e.t), e.ns, e.entry, e.newVersions, e.values, c)
  }

  /** The namespace an event is about. */
  ghost predicate About(e: Event, t: ThreadId, ns: Namespace) {
    e.t == t && (e.Put? || e.PutWrites? ==> e.ns == ns)
  }

  lemma EventElsewhere(u: Data, p: Data, e: Event, t: ThreadId, ns: Namespace)
    requires !About(e, t, ns) && (e.Put? ==> ParentIsOlder(e.id, e.entry))
    requires Covers(ViewOf(u, t), ViewOf(p, t), ns) && SameHead(ViewOf(u, t), ViewOf(p, t), ns)
    ensures Covers(ViewOf(ApplyUnpruned(u, e), t), ViewOf(Apply(p, e), t), ns)
    ensures SameHead(ViewOf(ApplyUnpruned(u, e), t), ViewOf(Apply(p, e), t), ns)
  {
    hide Covers, SameHead, PutView, PutWritesView, PruneView, ViewOf, WithView, SameRows;
    var vu, vp := ViewOf(u, t), ViewOf(p, t);
    match e
    case Put(t0, ns0, id, entry, newVersions, values) =>
      var wu, wp := PutView(ViewOf(u, t0), ns0, id, entry, newVersions, values), PutView(ViewOf(p, t0), ns0, id, entry, newVersions, values);
      ViewOfWith(u, t0, wu, t);
      ViewOfWith(p, t0, wp, t);
      if t == t0 {
        OtherNamespace(vu, ns0, id, entry, newVersions, values, ns);
        OtherNamespace(vp, ns0, id, entry, newVersions, values, ns);
        CoversLocal(vu, vp, wu, wp, ns);
        SameHeadLocal(vu, vp, wu, wp, ns);
      }
    case PutWrites(t0, ns0, id, merge) =>
      var wu, wp := PutWritesView(ViewOf(u, t0), ns0, id, merge), PutWritesView(ViewOf(p, t0), ns0, id, merge);
      ViewOfWith(u, t0, wu, t);
      ViewOfWith(p, t0, wp, t);
      if t == t0 {
        OtherNamespaceWrites(vu, ns0, id, merge, ns);
        OtherNamespaceWrites(vp, ns0, id, merge, ns);
        CoversLocal(vu, vp, wu, wp, ns);
        SameHeadLocal(vu, vp, wu, wp, ns);
      }
    case DeleteThread(t0) =>
      ViewOfWith(u, t0, NO_ROWS, t);
      ViewOfWith(p, t0, NO_ROWS, t);
    case DeleteRun(t0, run) =>
      ViewOfWith(u, t0, DeleteRunView(ViewOf(u, t0), run), t);
      ViewOfWith(p, t0, DeleteRunView(ViewOf(p, t0), run), t);
    case Prune(t0) =>
      ViewOfWith(p, t0, PruneView(ViewOf(p, t0)), t);
  }

  lemma NothingCovers(ns: Namespace)
    ensures Covers(NO_ROWS, NO_ROWS, ns) && SameHead(NO_ROWS, NO_ROWS, ns)
  {
  }

  lemma EventHere(u: Data, p: Data, e: Event, t: ThreadId, ns: Namespace)
    requires About(e, t, ns) && AtHeads(u, e)
    requires Covers(ViewOf(u, t), ViewOf(p, t), ns) && SameHead(ViewOf(u, t), ViewOf(p, t), ns)
    ensures SameHead(ViewOf(ApplyUnpruned(u, e), t), ViewOf(Apply(p, e), t), ns) <==> Foresees(u, p, e)
    ensures Foresees(u, p, e) ==> Covers(ViewOf(ApplyUnpruned(u, e), t), ViewOf(Apply(p, e), t), ns)
  {
    hide Covers, SameHead, PutView, PutWritesView, PruneView, ViewOf, WithView, ForeseenIn, WritesAtHead;
    var vu, vp := ViewOf(u, t), ViewOf(p, t);
    match e
    case Put(t0, ns0, id, entry, newVersions, values) =>
      ViewOfWith(u, t, PutView(vu, ns, id, entry, newVersions, values), t);
      ViewOfWith(p, t, PutView(vp, ns, id, entry, newVersions, values), t);
      CoversAfterPut(vu, vp, ns, id, entry, newVersions, values);
    case PutWrites(t0, ns0, id, merge) =>
      ViewOfWith(u, t, PutWritesView(vu, ns, id, merge), t);
      ViewOfWith(p, t, PutWritesView(vp, ns, id, merge), t);
      CoversAfterWrites(vu, vp, ns, id, merge);
    case DeleteThread(t0) =>
      ViewOfWith(u, t, NO_ROWS, t);
      ViewOfWith(p, t, NO_ROWS, t);
      NothingCovers(ns);
    case DeleteRun(t0, run) =>
      ViewOfWith(u, t, DeleteRunView(vu, run), t);
      ViewOfWith(p, t, DeleteRunView(vp, run), t);
      CoversAfterRunDeletion(vu, vp, ns, run);
    case Prune(t0) =>
      ViewOfWith(p, t, PruneView(vp), t);
      CoversAfterPrune(vu, vp, ns);
  }

  /** One event keeps everything hidden if and only if it is foreseen. */
  lemma EventHiddenIff(u: Data, p: Data, e: Event)
    requires CoversAll(u, p) && SameHeads(u, p) && AtHeads(u, e)
    ensures SameHeads(ApplyUnpruned(u, e), Apply(p, e)) <==> Foresees(u, p, e)
    ensures Foresees(u, p, e) ==> CoversAll(ApplyUnpruned(u, e), Apply(p, e))
  {
    hide Covers, SameHead, Apply, ApplyUnpruned, AtHeads, ViewOf, Foresees;
    var u', p' := ApplyUnpruned(u, e), Apply(p, e);
    var here := if e.Put? || e.PutWrites? then e.ns else "";
    EventHere(u, p, e, e.t, here);
    forall t, ns ensures Foresees(u, p, e) ==> Covers(ViewOf(u', t), ViewOf(p', t), ns) && SameHead(ViewOf(u', t), ViewOf(p', t), ns) {
      if About(e, t, ns) { EventHere(u, p, e, t, ns); }
      else {
        OlderParent(u, e);
        EventElsewhere(u, p, e, t, ns);
      }
    }
  }

  lemma OlderParent(d: Data, e: Event)
    requires AtHeads(d, e)
    ensures e.Put? ==> ParentIsOlder(e.id, e.entry)
  {
  }

  /** Every put of the run was foreseen in the stores it met. */
  ghost predicate ForeseenRun(d: Data, events: seq<Event>) {
    forall i :: 0 <= i < |events| ==> Foresees(RunUnpruned(d, events[..i]), Run(d, events[..i]), events[i])
  }

  /** At no point of the run does a prune show. */
  ghost predicate NothingShows(d: Data, events: seq<Event>) {
    forall k :: 0 <= k <= |events| ==> SameHeads(RunUnpruned(d, events[..k]), Run(d, events[..k]))
  }

  /** The namespaces of a store that are still empty hold no stray writes or blobs, and no writes
      were recorded past a head. */
  ghost predicate Tidy(d: Data) {
    forall t, ns :: NoRowsIn(ViewOf(d, t), ns)
      || (SpaceIn(ViewOf(d, t), ns) != map[] && NoWritesAfter(ViewOf(d, t), ns, Latest(SpaceIn(ViewOf(d, t), ns))))
  }

  lemma TidyCovers(d: Data)
    requires Tidy(d)
    ensures CoversAll(d, d) && SameHeads(d, d)
  {
    hide ViewOf, HoldsPart;
    forall t, ns ensures Covers(ViewOf(d, t), ViewOf(d, t), ns) && SameHead(ViewOf(d, t), ViewOf(d, t), ns) {
      var v := ViewOf(d, t);
      WholeIsPart(v, ns);
      assert NoRowsIn(v, ns) || (SpaceIn(v, ns) != map[] && NoWritesAfter(v, ns, Latest(SpaceIn(v, ns))));
    }
  }

  lemma {:induction false} ForeseenRunCovers(d: Data, events: seq<Event>)
    requires Tidy(d) && AtHeadsRun(d, events) && ForeseenRun(d, events)
    ensures CoversAll(RunUnpruned(d, events), Run(d, events)) && SameHeads(RunUnpruned(d, events), Run(d, events))
  {
    hide CoversAll, SameHeads, Apply, ApplyUnpruned, AtHeads, Foresees, Tidy;
    if |events| == 0 {
      TidyCovers(d);
    } else {
      var n := |events| - 1;
      forall i | 0 <= i < n ensures events[..n][..i] == events[..i] && events[..n][i] == events[i] {}
      ForeseenRunCovers(d, events[..n]);
      EventHiddenIff(RunUnpruned(d, events[..n]), Run(d, events[..n]), events[n]);
    }
  }

  /** Exactly when pruning is invisible: in any run at its heads, from a tidy store, with prunes at
      arbitrary points, no prune ever shows if and only if every put is foreseen when it comes. */
  lemma {:induction false} InvisibleIffForeseen(d: Data, events: seq<Event>)
    requires Tidy(d) && AtHeadsRun(d, events)
    ensures NothingShows(d, events) <==> ForeseenRun(d, events)
  {
    hide CoversAll, SameHeads, Run, RunUnpruned, AtHeads, Foresees, Tidy;
    forall k | 0 <= k <= |events| && (forall i :: 0 <= i < k ==> Foresees(RunUnpruned(d, events[..i]), Run(d, events[..i]), events[i]))
      ensures CoversAll(RunUnpruned(d, events[..k]), Run(d, events[..k])) && SameHeads(RunUnpruned(d, events[..k]), Run(d, events[..k]))
    {
      forall i | 0 <= i < k ensures events[..k][..i] == events[..i] && events[..k][i] == events[i] {}
      ForeseenRunCovers(d, events[..k]);
    }
    if NothingShows(d, events) {
      ShownIsForeseen(d, events, |events|);
    }
  }

  lemma {:induction false} ShownIsForeseen(d: Data, events: seq<Event>, n: nat)
    requires Tidy(d) && AtHeadsRun(d, events) && NothingShows(d, events) && n <= |events|
    ensures forall i :: 0 <= i < n ==> Foresees(RunUnpruned(d, events[..i]), Run(d, events[..i]), events[i])
  {
    hide CoversAll, SameHeads, AtHeads, Foresees, Tidy, Run, RunUnpruned;
    if n > 0 {
      var k := n - 1;
      ShownIsForeseen(d, events, k);
      forall i | 0 <= i < k ensures events[..k][..i] == events[..i] && events[..k][i] == events[i] {}
      ForeseenRunCovers(d, events[..k]);
      assert AtHeads(RunUnpruned(d, events[..k]), events[k]);
      assert SameHeads(RunUnpruned(d, events[..n]), Run(d, events[..n]));
      RunStep(d, events, k);
      hide Apply, ApplyUnpruned, AtHeadsRun, ForeseenRun, NothingShows;
      EventHiddenIff(RunUnpruned(d, events[..k]), Run(d, events[..k]), events[k]);
    }
  }

  lemma RunStep(d: Data, events: seq<Event>, k: nat)
    requires k < |events|
    ensures RunUnpruned(d, events[..k + 1]) == ApplyUnpruned(RunUnpruned(d, events[..k]), events[k])
    ensures Run(d, events[..k + 1]) == Apply(Run(d, events[..k]), events[k])
  {
    hide Apply, ApplyUnpruned;
    assert events[..k + 1][..k] == events[..k];
  }

  // ---- Continuing runs --------------------------------------------------------------------------

  /** New blobs that empty no snapshot only shorten walks. */
  lemma {:induction false} WalkShrinks(v: View, ns: Namespace, newVersions: map<Channel, Version>, values: map<Channel, Typed>,
                                       from: Option<CheckpointId>, c: Channel)
    requires KeepsSnapshots(v, ns, newVersions, values)
    ensures WalkIds(History(WithNewBlobs(v, ns, newVersions, values), ns, from, c)) <= WalkIds(History(v, ns, from, c))
    decreases Rank(SpaceIn(v, ns), from)
  {
    var w := WithNewBlobs(v, ns, newVersions, values);
    if from.Some? && from.value in SpaceIn(v, ns) {
      if SnapshotAt(v, ns, from.value, c) { SnapshotsStay(v, ns, newVersions, values, from.value, c); }
      WalkStep(v, ns, from.value, c);
      WalkStep(w, ns, from.value, c);
      if !SnapshotAt(v, ns, from.value, c) {
        RankDecreases(SpaceIn(v, ns), from.value);
        WalkShrinks(v, ns, newVersions, values, SpaceIn(v, ns)[from.value].parent, c);
      }
      hide WalkIds, History;
    }
  }

  lemma SnapshotsStay(v: View, ns: Namespace, newVersions: map<Channel, Version>, values: map<Channel, Typed>,
                      id: CheckpointId, c: Channel)
    requires KeepsSnapshots(v, ns, newVersions, values) && id in SpaceIn(v, ns) && SnapshotAt(v, ns, id, c)
    ensures SnapshotAt(WithNewBlobs(v, ns, newVersions, values), ns, id, c)
  {
    var slot := BlobSlot(ns, c, SpaceIn(v, ns)[id].Versions()[c]);
    if slot in NewBlobs(ns, newVersions, values) { assert newVersions[c] == slot.version; }
  }

  /** The puts of a continuing run are foreseen: their conditions are enough for the exact one. */
  lemma HeadExtendingIsForeseen(u: View, p: View, ns: Namespace, id: CheckpointId, entry: Entry,
                                newVersions: map<Channel, Version>, values: map<Channel, Typed>, c: Channel)
    requires Covers(u, p, ns) && SameHead(u, p, ns)
    requires ExtendsHead(u, ns, id, entry, newVersions, values) && c in entry.Versions()
    ensures ForeseenIn(u, p, ns, entry, newVersions, values, c)
  {
    if NoRowsIn(u, ns) && NoRowsIn(p, ns) {
      FirstPut(u, p, ns, id, entry, newVersions, values);
    } else {
      var head := Latest(SpaceIn(u, ns));
      SameHeadIff(u, p, ns);
      HeadIsHeld(u, p, ns);
      assert HasRows(u, p, ns, head);
      if !NewSnapshot(u, ns, entry, newVersions, values, c) {
        assert Rebuilds(u, p, ns, c);
        HeadWalkIsHeld(u, p, ns, newVersions, values, c);
      }
    }
  }

  lemma HeadWalkIsHeld(u: View, p: View, ns: Namespace, newVersions: map<Channel, Version>, values: map<Channel, Typed>, c: Channel)
    requires SpaceIn(u, ns) != map[] && Latest(SpaceIn(u, ns)) in SpaceIn(p, ns)
    requires KeepsSnapshots(u, ns, newVersions, values) && Rebuilds(u, p, ns, c)
    ensures WalkIds(History(WithNewBlobs(u, ns, newVersions, values), ns, Some(Latest(SpaceIn(u, ns))), c)) <= SpaceIn(p, ns).Keys
  {
    hide WalkIds, History;
    var head := Latest(SpaceIn(u, ns));
    BlobsAddNoCheckpoints(u, ns, newVersions, values);
    WalkStep(WithNewBlobs(u, ns, newVersions, values), ns, head, c);
    WalkShrinks(u, ns, newVersions, values, SpaceIn(u, ns)[head].parent, c);
    if SnapshotAt(u, ns, head, c) { SnapshotsStay(u, ns, newVersions, values, head, c); }
  }

  lemma {:induction false} AdmissibleIsForeseen(d: Data, events: seq<Event>)
    requires Tidy(d) && AdmissibleRun(d, events)
    ensures AtHeadsRun(d, events) && ForeseenRun(d, events)
  {
    hide Tidy, ViewOf, Apply, ApplyUnpruned, Covers, SameHead, ForeseenIn, ExtendsHead, AtHeads;
    if |events| > 0 {
      var n := |events| - 1;
      forall i | 0 <= i < n ensures events[..n][..i] == events[..i] && events[..n][i] == events[i] {}
      AdmissibleIsForeseen(d, events[..n]);
      ForeseenRunCovers(d, events[..n]);
      var u, p, e := RunUnpruned(d, events[..n]), Run(d, events[..n]), events[n];
      assert Admissible(u, e);
      if e.Put? {
        forall c | c in e.entry.Versions()
          ensures ForeseenIn(ViewOf(u, e.t), ViewOf(p, e.t), e.ns, e.entry, e.newVersions, e.values, c)
        {
          assert Covers(ViewOf(u, e.t), ViewOf(p, e.t), e.ns) && SameHead(ViewOf(u, e.t), ViewOf(p, e.t), e.ns);
          HeadExtendingIsForeseen(ViewOf(u, e.t), ViewOf(p, e.t), e.ns, e.id, e.entry, e.newVersions, e.values, c);
        }
      }
      assert Foresees(u, p, e);
      forall i | 0 <= i < |events| ensures AtHeads(RunUnpruned(d, events[..i]), events[i]) && Foresees(RunUnpruned(d, events[..i]), Run(d, events[..i]), events[i]) {
        if i < n {
          assert AtHeads(RunUnpruned(d, events[..n][..i]), events[..n][i]);
          assert Foresees(RunUnpruned(d, events[..n][..i]), Run(d, events[..n][..i]), events[..n][i]);
        }
      }
    }
  }

  /** Pruning is invisible: after any admissible run from a tidy store, with prunes at arbitrary
      points, every namespace has the head it would have without them, with the same pending
      writes, and every channel of that head reconstructs from the same steps and snapshot. */
  lemma PruningIsInvisible(d: Data, events: seq<Event>, t: ThreadId, ns: Namespace)
    requires Tidy(d)
    requires AdmissibleRun(d, events)
    ensures var u, p := ViewOf(RunUnpruned(d, events), t), ViewOf(Run(d, events), t);
      && (SpaceIn(u, ns) == map[] <==> SpaceIn(p, ns) == map[])
      && (SpaceIn(u, ns) != map[] ==>
            var head := Latest(SpaceIn(u, ns));
            && Latest(SpaceIn(p, ns)) == head
            && SpaceIn(p, ns)[head] == SpaceIn(u, ns)[head]
            && GroupAt(p, ns, head) == GroupAt(u, ns, head)
            && forall c :: c in SpaceIn(u, ns)[head].Versions() ==> Reconstruction(p, ns, c) == Reconstruction(u, ns, c))
  {
    hide Run, RunUnpruned, ViewOf, AdmissibleRun, AtHeadsRun, ForeseenRun, Tidy, Reconstruction;
    AdmissibleIsForeseen(d, events);
    ForeseenRunCovers(d, events);
    assert SameHead(ViewOf(RunUnpruned(d, events), t), ViewOf(Run(d, events), t), ns);
  }

  // ---- One prune right before a put ---------------------------------------------------------------

  /** What a put needs of a prune right before it, from the store before both: a channel with a
      snapshot at the new checkpoint brings it along or finds it among the kept blobs; for any
      other, the walk from the old head, given the new blobs, meets kept checkpoints only. */
  ghost predicate Foreseen(v: View, ns: Namespace, entry: Entry, newVersions: map<Channel, Version>, values: map<Channel, Typed>, c: Channel)
    requires SpaceIn(v, ns) != map[] && c in entry.Versions()
  {
    if NewSnapshot(v, ns, entry, newVersions, values, c) then
      WritesVersion(entry, newVersions, c) || KeepsBlob(v, BlobSlot(ns, c, entry.Versions()[c]))
    else
      WalkIds(History(WithNewBlobs(v, ns, newVersions, values), ns, entry.parent, c)) <= Kept(v, ns)
  }

  lemma ForeseenAfterPrune(v: View, ns: Namespace, entry: Entry, newVersions: map<Channel, Version>, values: map<Channel, Typed>, c: Channel)
    requires SpaceIn(v, ns) != map[] && c in entry.Versions()
    ensures Foreseen(v, ns, entry, newVersions, values, c) <==> ForeseenIn(v, PruneView(v), ns, entry, newVersions, values, c)
  {
    hide Kept, History, WalkIds, KeepsBlob, HoldsPart, WithNewBlobs;
    WholeIsPart(v, ns);
    PrunedIsPart(v, v, ns);
  }

  /** Exactly when a prune is invisible to any put on top of the head right after it: the new head
      is the put's checkpoint either way, each of its channels reconstructs as without the prune if
      and only if the put was foreseen for it, and its pending writes are the same if and only if
      none were recorded for it before it was put. */
  lemma PruneThenPut(v: View, ns: Namespace, id: CheckpointId, entry: Entry,
                     newVersions: map<Channel, Version>, values: map<Channel, Typed>)
    requires SpaceIn(v, ns) != map[]
    requires var head := Latest(SpaceIn(v, ns)); Lex.Less(head, id) && entry.parent == Some(head)
    ensures ParentIsOlder(id, entry)
    ensures var u', p' := PutView(v, ns, id, entry, newVersions, values), PutView(PruneView(v), ns, id, entry, newVersions, values);
      && SpaceIn(u', ns) != map[] && Latest(SpaceIn(u', ns)) == id && SpaceIn(u', ns)[id] == entry
      && SpaceIn(p', ns) != map[] && Latest(SpaceIn(p', ns)) == id && SpaceIn(p', ns)[id] == entry
      && (GroupAt(p', ns, id) == GroupAt(u', ns, id) <==> WriteSlot(ns, id) !in v.writes)
      && forall c :: c in entry.Versions() ==>
           (Reconstruction(p', ns, c) == Reconstruction(u', ns, c) <==> Foreseen(v, ns, entry, newVersions, values, c))
  {
    hide PutView, PruneView, Kept, Foreseen, ForeseenIn, Reconstruction, HoldsPart;
    var p := PruneView(v);
    KeptNonEmpty(v, ns);
    WholeIsPart(v, ns);
    PrunedIsPart(v, v, ns);
    PutOnHead(v, ns, id, entry, newVersions, values);
    PutOnHead(p, ns, id, entry, newVersions, values);
    GroupAfterPruneAndPut(v, ns, id, entry, newVersions, values);
    forall c | c in entry.Versions()
      ensures var u', p' := PutView(v, ns, id, entry, newVersions, values), PutView(p, ns, id, entry, newVersions, values);
        Reconstruction(p', ns, c) == Reconstruction(u', ns, c) <==> Foreseen(v, ns, entry, newVersions, values, c)
    {
      ChannelAfterPut(v, p, ns, id, entry, newVersions, values, c);
      ForeseenAfterPrune(v, ns, entry, newVersions, values, c);
    }
  }

  lemma GroupAfterPruneAndPut(v: View, ns: Namespace, id: CheckpointId, entry: Entry,
                              newVersions: map<Channel, Version>, values: map<Channel, Typed>)
    requires SpaceIn(v, ns) != map[] && Lex.Less(Latest(SpaceIn(v, ns)), id) && ParentIsOlder(id, entry)
    ensures var u', p' := PutView(v, ns, id, entry, newVersions, values), PutView(PruneView(v), ns, id, entry, newVersions, values);
      GroupAt(p', ns, id) == GroupAt(u', ns, id) <==> WriteSlot(ns, id) !in v.writes
  {
    hide Kept, NewBlobs;
    Lex.Asymmetric(Latest(SpaceIn(v, ns)), id);
    assert id !in SpaceIn(v, ns);
  }

  // ---- The conditions on continuing runs are needed ---------------------------------------------------

  function Checkpoint(versions: map<Channel, Version>, parent: Option<CheckpointId>): Entry {
    Entry(Encoded(versions, 0), Encoded(None, 0), parent)
  }

  const SEED := Typed("msgpack", "seed")

  /** Two checkpoints, the channel materialised at both. */
  ghost function TwoSnapshots(): View {
    View(map["" := map["1" := Checkpoint(map["c" := "1"], None), "2" := Checkpoint(map["c" := "2"], Some("1"))]],
         map[],
         map[BlobSlot("", "c", "1") := SEED, BlobSlot("", "c", "2") := SEED])
  }

  /** One channel at the older checkpoint only, and never materialised. */
  ghost function DroppedChannel(): View {
    View(map["" := map["1" := Checkpoint(map["c" := "1"], None), "2" := Checkpoint(map[], Some("1"))]], map[], map[])
  }

  lemma LatestIsSecond(space: Space)
    requires space.Keys == {"1", "2"}
    ensures Latest(space) == "2"
  {
    assert Lex.Less("1", "2");
    assert IsLatest(space, "2");
    LatestUnique(space, "2", Latest(space));
  }

  /** Both stores have checkpoint "3" for their head, and rebuild its channel from different rows. */
  ghost predicate RebuiltDifferently(u: View, p: View) {
    && SpaceIn(u, "") != map[] && Latest(SpaceIn(u, "")) == "3"
    && SpaceIn(p, "") != map[] && Latest(SpaceIn(p, "")) == "3"
    && Reconstruction(p, "", "c") != Reconstruction(u, "", "c")
  }

  /** A prune before putting checkpoint "3" changes what its channel reconstructs to. */
  ghost predicate PruneShows(v: View, entry: Entry, newVersions: map<Channel, Version>) {
    && ParentIsOlder("3", entry)
    && RebuiltDifferently(PutView(v, "", "3", entry, newVersions, map[]), PutView(PruneView(v), "", "3", entry, newVersions, map[]))
  }

  lemma UnforeseenShows(v: View, entry: Entry, newVersions: map<Channel, Version>)
    requires SpaceIn(v, "").Keys == {"1", "2"} && entry.parent == Some("2") && "c" in entry.Versions()
    requires !Foreseen(v, "", entry, newVersions, map[], "c")
    ensures PruneShows(v, entry, newVersions)
  {
    hide PruneView, PutView, Foreseen, Reconstruction;
    LatestIsSecond(SpaceIn(v, ""));
    assert Lex.Less("2", "3");
    PruneThenPut(v, "", "3", entry, newVersions, map[]);
  }

  /** A prune that kept only the second checkpoint is felt, if the walk goes on to the first. */
  lemma PrunedParentIsMissed(v: View, entry: Entry, newVersions: map<Channel, Version>)
    requires SpaceIn(v, "").Keys == {"1", "2"} && SpaceIn(v, "")["2"].parent == Some("1") && Kept(v, "") == {"2"}
    requires entry.parent == Some("2") && "c" in entry.Versions()
    requires !NewSnapshot(v, "", entry, newVersions, map[], "c")
    requires !SnapshotAt(WithNewBlobs(v, "", newVersions, map[]), "", "2", "c")
    ensures !Foreseen(v, "", entry, newVersions, map[], "c")
  {
    hide Kept, History, WalkIds, SnapshotAt, NewSnapshot;
    var u := WithNewBlobs(v, "", newVersions, map[]);
    WalkStep(u, "", "2", "c");
    WalkStep(u, "", "1", "c");
  }

  /** What a prune keeps of a namespace whose newest checkpoint needs no ancestor. */
  lemma KeepsOnlySecond(v: View)
    requires SpaceIn(v, "").Keys == {"1", "2"}
    requires forall c :: c in SpaceIn(v, "")["2"].Versions() ==> SnapshotAt(v, "", "2", c)
    ensures Kept(v, "") == {"2"}
  {
    LatestIsSecond(SpaceIn(v, ""));
    assert NeededChannels(v, "") == {};
  }

  /** Giving a channel its old version again, without a value, empties the snapshot the prune relied
      on: the walk then goes on to an ancestor the prune has dropped. */
  lemma ReusedVersionIsVisible()
    ensures var entry := Checkpoint(map["c" := "2"], Some("2"));
      !KeepsSnapshots(TwoSnapshots(), "", map["c" := "2"], map[]) && PruneShows(TwoSnapshots(), entry, map["c" := "2"])
  {
    hide PruneShows, Foreseen, Kept;
    var v, entry := TwoSnapshots(), Checkpoint(map["c" := "2"], Some("2"));
    assert Materialized(v, BlobSlot("", "c", "2"));
    KeepsOnlySecond(v);
    NewBlob("", map["c" := "2"], "c");
    PrunedParentIsMissed(v, entry, map["c" := "2"]);
    UnforeseenShows(v, entry, map["c" := "2"]);
  }

  lemma NewBlob(ns: Namespace, newVersions: map<Channel, Version>, c: Channel)
    requires c in newVersions
    ensures var slot := BlobSlot(ns, c, newVersions[c]); slot in NewBlobs(ns, newVersions, map[]) && NewBlobs(ns, newVersions, map[])[slot] == EMPTY
  {
  }

  /** A channel its parent did not carry, brought back without a value: its old writes hang on an
      ancestor the prune has dropped. */
  lemma UncarriedChannelIsVisible()
    ensures var entry := Checkpoint(map["c" := "3"], Some("2"));
      KeepsSnapshots(DroppedChannel(), "", map["c" := "3"], map[]) && PruneShows(DroppedChannel(), entry, map["c" := "3"])
  {
    hide PruneShows, Foreseen, Kept;
    var v, entry := DroppedChannel(), Checkpoint(map["c" := "3"], Some("2"));
    KeepsOnlySecond(v);
    PrunedParentIsMissed(v, entry, map["c" := "3"]);
    UnforeseenShows(v, entry, map["c" := "3"]);
  }

  /** Going back to an older version than the parent's: the prune has dropped that version's blob. */
  lemma SupersededVersionIsVisible()
    ensures var entry := Checkpoint(map["c" := "1"], Some("2"));
      KeepsSnapshots(TwoSnapshots(), "", map[], map[]) && PruneShows(TwoSnapshots(), entry, map[])
  {
    hide PruneShows, Kept;
    var v, entry := TwoSnapshots(), Checkpoint(map["c" := "1"], Some("2"));
    assert Materialized(v, BlobSlot("", "c", "1")) && Materialized(v, BlobSlot("", "c", "2"));
    KeepsOnlySecond(v);
    assert NewSnapshot(v, "", entry, map[], map[], "c");
    assert !KeepsBlob(v, BlobSlot("", "c", "1"));
    assert !Foreseen(v, "", entry, map[], map[], "c") by { hide KeepsBlob; }
    UnforeseenShows(v, entry, map[]);
  }
}

