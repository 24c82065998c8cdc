/** `prune(keep_latest)` removes exactly what no newest checkpoint is rebuilt from. */
module CheckpointPruning {
  import opened Wrappers
  import opened CheckpointModel

  // ---- What a prune leaves of one namespace ----------------------------------------------

  lemma KeptNonEmpty(v: View, ns: Namespace)
    requires SpaceIn(v, ns) != map[]
    ensures SpaceIn(PruneView(v), ns) == Restrict(SpaceIn(v, ns), Kept(v, ns))
    ensures SpaceIn(PruneView(v), ns) != map[]
    ensures Latest(SpaceIn(PruneView(v), ns)) == Latest(SpaceIn(v, ns))
  {
    var space, after := SpaceIn(v, ns), SpaceIn(PruneView(v), ns);
    var head := Latest(space);
    assert after == Restrict(space, Kept(v, ns));
    assert head in after;
    assert IsLatest(after, head);
    LatestUnique(after, head, Latest(after));
  }

  /** A kept checkpoint keeps its row, its writes and every blob it names. */
  lemma KeptCheckpointRows(v: View, ns: Namespace, id: CheckpointId)
    requires KeepsCheckpoint(v, ns, id)
    ensures id in SpaceIn(PruneView(v), ns) && SpaceIn(PruneView(v), ns)[id] == SpaceIn(v, ns)[id]
    ensures GroupAt(PruneView(v), ns, id) == GroupAt(v, ns, id)
    ensures forall s: BlobSlot :: s.ns == ns && Names(SpaceIn(v, ns)[id], s) ==> BlobAt(PruneView(v), s) == BlobAt(v, s)
    ensures forall c :: SnapshotAt(PruneView(v), ns, id, c) == SnapshotAt(v, ns, id, c)
  {
    hide Kept;
    var p := PruneView(v);
    forall s: BlobSlot | s.ns == ns && Names(SpaceIn(v, ns)[id], s) ensures BlobAt(p, s) == BlobAt(v, s) {
      assert KeepsBlob(v, s);
    }
    forall c ensures SnapshotAt(p, ns, id, c) == SnapshotAt(v, ns, id, c) {
      var versions := SpaceIn(v, ns)[id].Versions();
      if c in versions {
        var s := BlobSlot(ns, c, versions[c]);
        assert BlobAt(p, s) == BlobAt(v, s);
      }
    }
  }

  lemma {:induction false} HistoryIdsInSpace(v: View, ns: Namespace, from: Option<CheckpointId>, c: Channel)
    ensures WalkIds(History(v, ns, from, c)) <= SpaceIn(v, ns).Keys
    decreases Rank(SpaceIn(v, ns), from)
  {
    var space := SpaceIn(v, ns);
    if from.Some? && from.value in space && !SnapshotAt(v, ns, from.value, c) {
      RankDecreases(space, from.value);
      HistoryIdsInSpace(v, ns, space[from.value].parent, c);
    }
  }

  lemma WalkStep(v: View, ns: Namespace, id: CheckpointId, c: Channel)
    requires id in SpaceIn(v, ns)
    ensures WalkIds(History(v, ns, Some(id), c))
         == {id} + if SnapshotAt(v, ns, id, c) then {} else WalkIds(History(v, ns, SpaceIn(v, ns)[id].parent, c))
  {
    var trace := History(v, ns, Some(id), c);
    if SnapshotAt(v, ns, id, c) {
      assert WalkIds(trace) == {id};
    } else {
      var rest := History(v, ns, SpaceIn(v, ns)[id].parent, c);
      assert trace.steps == [Step(id, GroupAt(v, ns, id))] + rest.steps;
      forall x ensures x in WalkIds(trace) <==> x == id || x in WalkIds(rest) {
        if x in WalkIds(rest) {
          var s :| s in rest.steps && s.id == x;
          assert s in trace.steps;
        }
        assert trace.steps[0] in trace.steps;
      }
    }
  }

  // ---- A part of a store ------------------------------------------------------------------

  /** All rows of `p` in the namespace are rows of `u`. */
  ghost predicate SubRows(u: View, p: View, ns: Namespace) {
    && (forall id :: id in SpaceIn(p, ns) ==> id in SpaceIn(u, ns) && SpaceIn(p, ns)[id] == SpaceIn(u, ns)[id])
    && (forall s: BlobSlot :: s.ns == ns && s in p.blobs ==> s in u.blobs && p.blobs[s] == u.blobs[s])
  }

  /** The writes at the checkpoint, and the materialised blobs it names, are in `p` too. */
  ghost predicate HasRows(u: View, p: View, ns: Namespace, id: CheckpointId)
    requires id in SpaceIn(p, ns)
  {
    var versions := SpaceIn(p, ns)[id].Versions();
    && GroupAt(p, ns, id) == GroupAt(u, ns, id)
    && forall c :: c in versions && Materialized(u, BlobSlot(ns, c, versions[c])) ==> BlobSlot(ns, c, versions[c]) in p.blobs
  }

  /** `p` holds some of the checkpoints of `u`, each with everything a walk reads there. */
  ghost predicate HoldsPart(u: View, p: View, ns: Namespace) {
    SubRows(u, p, ns) && forall id :: id in SpaceIn(p, ns) ==> HasRows(u, p, ns, id)
  }

  /** One step of a walk reads the same in a part. */
  lemma StepInPart(u: View, p: View, ns: Namespace, id: CheckpointId, c: Channel)
    requires HoldsPart(u, p, ns) && id in SpaceIn(p, ns)
    ensures id in SpaceIn(u, ns) && SpaceIn(p, ns)[id] == SpaceIn(u, ns)[id] && GroupAt(p, ns, id) == GroupAt(u, ns, id)
    ensures SnapshotAt(p, ns, id, c) == SnapshotAt(u, ns, id, c)
    ensures SnapshotAt(u, ns, id, c) ==>
      var slot := BlobSlot(ns, c, SpaceIn(u, ns)[id].Versions()[c]); slot in p.blobs && p.blobs[slot] == u.blobs[slot]
  {
    assert HasRows(u, p, ns, id);
  }

  lemma {:induction false} WalkWithinPart(u: View, p: View, ns: Namespace, from: Option<CheckpointId>, c: Channel)
    requires HoldsPart(u, p, ns)
    requires WalkIds(History(u, ns, from, c)) <= SpaceIn(p, ns).Keys
    ensures History(p, ns, from, c) == History(u, ns, from, c)
    decreases Rank(SpaceIn(u, ns), from)
  {
    var space := SpaceIn(u, ns);
    if from.Some? && from.value in space {
      var id := from.value;
      var trace := History(u, ns, from, c);
      assert trace.steps[0].id == id && id in WalkIds(trace);
      StepInPart(u, p, ns, id, c);
      if !SnapshotAt(u, ns, id, c) {
        RankDecreases(space, id);
        var rest := History(u, ns, space[id].parent, c);
        assert trace.steps[1..] == rest.steps;
        assert WalkIds(rest) <= WalkIds(trace);
        hide HoldsPart;
        WalkWithinPart(u, p, ns, space[id].parent, c);
      }
    }
  }

  /** From any checkpoint and for any channel, a walk is the same in a part of a store if and only
      if the part holds every checkpoint on it. */
  lemma WalksAgreeIff(u: View, p: View, ns: Namespace, from: Option<CheckpointId>, c: Channel)
    requires HoldsPart(u, p, ns)
    ensures History(p, ns, from, c) == History(u, ns, from, c) <==> WalkIds(History(u, ns, from, c)) <= SpaceIn(p, ns).Keys
  {
    hide HoldsPart;
    HistoryIdsInSpace(p, ns, from, c);
    if WalkIds(History(u, ns, from, c)) <= SpaceIn(p, ns).Keys { WalkWithinPart(u, p, ns, from, c); }
  }

  /** What a prune leaves is such a part: of a store, or of any part of it. */
  lemma PrunedIsPart(u: View, p: View, ns: Namespace)
    requires HoldsPart(u, p, ns) && SpaceIn(p, ns) != map[]
    ensures HoldsPart(u, PruneView(p), ns) && SpaceIn(PruneView(p), ns).Keys == Kept(p, ns)
  {
    hide PruneView, Kept, HasRows;
    var q := PruneView(p);
    KeptNonEmpty(p, ns);
    KeptInSpace(p, ns);
    PrunedRows(p, ns);
    forall id | id in SpaceIn(q, ns) ensures HasRows(u, q, ns, id) {
      assert HasRows(u, p, ns, id);
      PrunedHasRows(u, p, ns, id);
    }
  }

  lemma PrunedRows(v: View, ns: Namespace)
    requires SpaceIn(v, ns) != map[]
    ensures SubRows(v, PruneView(v), ns)
  {
    hide Kept;
    KeptNonEmpty(v, ns);
  }

  lemma PrunedHasRows(u: View, p: View, ns: Namespace, id: CheckpointId)
    requires KeepsCheckpoint(p, ns, id) && HasRows(u, p, ns, id)
    ensures id in SpaceIn(PruneView(p), ns) && HasRows(u, PruneView(p), ns, id)
  {
    var q := PruneView(p);
    KeptCheckpointRows(p, ns, id);
    hide PruneView, Kept;
    var versions := SpaceIn(q, ns)[id].Versions();
    forall c | c in versions && Materialized(u, BlobSlot(ns, c, versions[c])) ensures BlobSlot(ns, c, versions[c]) in q.blobs {
      var s := BlobSlot(ns, c, versions[c]);
      assert Names(SpaceIn(p, ns)[id], s) && BlobAt(q, s) == BlobAt(p, s);
    }
  }

  lemma KeptInSpace(v: View, ns: Namespace)
    requires SpaceIn(v, ns) != map[]
    ensures Kept(v, ns) <= SpaceIn(v, ns).Keys
  {
    var head := Latest(SpaceIn(v, ns));
    forall c ensures WalkIds(History(v, ns, SpaceIn(v, ns)[head].parent, c)) <= SpaceIn(v, ns).Keys {
      HistoryIdsInSpace(v, ns, SpaceIn(v, ns)[head].parent, c);
    }
  }

  lemma WholeIsPart(v: View, ns: Namespace)
    ensures HoldsPart(v, v, ns)
  {
  }

  /** From any checkpoint and for any channel, a prune leaves the walk alone if and only if it
      keeps every checkpoint on it. */
  lemma WalkSurvivesIffKept(v: View, ns: Namespace, from: Option<CheckpointId>, c: Channel)
    requires SpaceIn(v, ns) != map[]
    ensures History(PruneView(v), ns, from, c) == History(v, ns, from, c)
      <==> WalkIds(History(v, ns, from, c)) <= Kept(v, ns)
  {
    hide PruneView, Kept, HoldsPart;
    WholeIsPart(v, ns);
    PrunedIsPart(v, v, ns);
    WalksAgreeIff(v, PruneView(v), ns, from, c);
  }

  /** The newest checkpoint of every namespace, its pending writes, and what each of its channels
      reconstructs from are untouched by a prune. */
  lemma PruneKeepsReconstruction(v: View, ns: Namespace)
    requires SpaceIn(v, ns) != map[]
    ensures var head := Latest(SpaceIn(v, ns)); var p := PruneView(v);
      && SpaceIn(p, ns) != map[] && Latest(SpaceIn(p, ns)) == head
      && SpaceIn(p, ns)[head] == SpaceIn(v, ns)[head]
      && GroupAt(p, ns, head) == GroupAt(v, ns, head)
      && forall c :: c in SpaceIn(v, ns)[head].Versions() ==>
           BlobAt(p, BlobSlot(ns, c, SpaceIn(v, ns)[head].Versions()[c])) == BlobAt(v, BlobSlot(ns, c, SpaceIn(v, ns)[head].Versions()[c]))
           && Reconstruction(p, ns, c) == Reconstruction(v, ns, c)
  {
    var space := SpaceIn(v, ns);
    var head := Latest(space);
    var p := PruneView(v);
    KeptNonEmpty(v, ns);
    KeptCheckpointRows(v, ns, head);
    forall c | c in space[head].Versions()
      ensures BlobAt(p, BlobSlot(ns, c, space[head].Versions()[c])) == BlobAt(v, BlobSlot(ns, c, space[head].Versions()[c]))
      ensures Reconstruction(p, ns, c) == Reconstruction(v, ns, c)
    {
      var s := BlobSlot(ns, c, space[head].Versions()[c]);
      assert Names(space[head], s);
      if !SnapshotAt(v, ns, head, c) {
        assert c in NeededChannels(v, ns);
        WalkSurvivesIffKept(v, ns, space[head].parent, c);
      }
    }
  }

  // ---- Nothing unneeded is kept -----------------------------------------------------------

  /** The rows of a thread with one namespace cut down to `ids`. */
  ghost function CutTo(v: View, ns: Namespace, ids: set<CheckpointId>): View {
    v.(spaces := v.spaces[ns := Restrict(SpaceIn(v, ns), ids)])
  }

  /** Keeping fewer checkpoints loses something: any choice of checkpoints that leaves the newest
      one reconstructing as before includes every kept checkpoint. */
  lemma KeptIsLeast(v: View, ns: Namespace, ids: set<CheckpointId>)
    requires SpaceIn(v, ns) != map[]
    requires Latest(SpaceIn(v, ns)) in ids
    requires var head := Latest(SpaceIn(v, ns));
      SpaceIn(CutTo(v, ns, ids), ns) != map[] ==>
        forall c :: c in SpaceIn(v, ns)[head].Versions() ==> Reconstruction(CutTo(v, ns, ids), ns, c) == Reconstruction(v, ns, c)
    ensures Kept(v, ns) <= ids
  {
    var space := SpaceIn(v, ns);
    var head := Latest(space);
    var cut := CutTo(v, ns, ids);
    assert SpaceIn(cut, ns) == Restrict(space, ids);
    assert head in SpaceIn(cut, ns);
    assert IsLatest(SpaceIn(cut, ns), head);
    LatestUnique(SpaceIn(cut, ns), head, Latest(SpaceIn(cut, ns)));
    forall id | id in Kept(v, ns) ensures id in ids {
      if id != head {
        var c :| c in NeededChannels(v, ns) && id in WalkIds(History(v, ns, space[head].parent, c));
        assert Reconstruction(cut, ns, c) == History(v, ns, space[head].parent, c);
        assert !SnapshotAt(cut, ns, head, c);
        HistoryIdsInSpace(cut, ns, space[head].parent, c);
      }
    }
  }

  /** Every checkpoint a prune leaves would be kept by a second prune. */
  lemma KeptAgain(v: View, ns: Namespace)
    requires SpaceIn(v, ns) != map[]
    ensures SpaceIn(PruneView(v), ns) != map[]
    ensures SpaceIn(PruneView(v), ns).Keys <= Kept(PruneView(v), ns)
  {
    var p := PruneView(v);
    var space := SpaceIn(v, ns);
    var head := Latest(space);
    PruneKeepsReconstruction(v, ns);
    KeptNonEmpty(v, ns);
    KeptCheckpointRows(v, ns, head);
    forall id | id in SpaceIn(p, ns) ensures id in Kept(p, ns) {
      if id != head {
        var c :| c in NeededChannels(v, ns) && id in WalkIds(History(v, ns, space[head].parent, c));
        assert Reconstruction(p, ns, c) == Reconstruction(v, ns, c);
        assert c in NeededChannels(p, ns);
        assert id in WalkIds(History(p, ns, SpaceIn(p, ns)[head].parent, c));
      }
    }
  }

  /** Pruning twice is pruning once. */
  lemma PruneIdempotent(v: View)
    ensures PruneView(PruneView(v)) == PruneView(v)
  {
    var p := PruneView(v);
    if p.spaces != map[] {
      SpacesKeptAgain(v);
      WritesKeptAgain(v);
      BlobsKeptAgain(v);
    }
  }

  lemma SpacesKeptAgain(v: View)
    requires PruneView(v).spaces != map[]
    ensures PruneView(PruneView(v)).spaces == PruneView(v).spaces
  {
    forall ns | ns in PruneView(v).spaces
      ensures PruneView(v).spaces[ns] != map[]
      ensures Restrict(PruneView(v).spaces[ns], Kept(PruneView(v), ns)) == PruneView(v).spaces[ns]
    {
      SpaceKeptAgain(v, ns);
    }
    FixedSpaces(PruneView(v));
  }

  lemma FixedSpaces(p: View)
    requires forall ns :: ns in p.spaces ==>
      p.spaces[ns] != map[] && Restrict(p.spaces[ns], Kept(p, ns)) == p.spaces[ns]
    ensures PruneView(p).spaces == p.spaces
  {
    hide Kept, Restrict;
  }

  lemma SpaceKeptAgain(v: View, ns: Namespace)
    requires ns in PruneView(v).spaces
    ensures PruneView(v).spaces[ns] != map[]
    ensures Restrict(PruneView(v).spaces[ns], Kept(PruneView(v), ns)) == PruneView(v).spaces[ns]
  {
    KeptAgain(v, ns);
    assert SpaceIn(PruneView(v), ns) == PruneView(v).spaces[ns];
  }

  lemma WritesKeptAgain(v: View)
    requires PruneView(v).spaces != map[]
    ensures PruneView(PruneView(v)).writes == PruneView(v).writes
  {
    hide Kept, History;
    var p := PruneView(v);
    forall s | s in p.writes ensures KeepsCheckpoint(p, s.ns, s.id) {
      KeptCheckpointRows(v, s.ns, s.id);
      KeptAgain(v, s.ns);
    }
  }

  lemma BlobsKeptAgain(v: View)
    requires PruneView(v).spaces != map[]
    ensures PruneView(PruneView(v)).blobs == PruneView(v).blobs
  {
    var p := PruneView(v);
    forall s | s in p.blobs ensures KeepsBlob(p, s) {
      var id :| KeepsCheckpoint(v, s.ns, id) && Names(SpaceIn(v, s.ns)[id], s);
      KeptCheckpointRows(v, s.ns, id);
      KeptAgain(v, s.ns);
      assert KeepsCheckpoint(p, s.ns, id);
    }
  }

  /** In a thread with namespaces, every write group and blob left by a prune belongs to a
      checkpoint left by it. */
  lemma SurvivorsBelongToKept(v: View)
    requires v.spaces != map[]
    ensures var p := PruneView(v);
      && (forall s :: s in p.writes ==> s.id in SpaceIn(p, s.ns) && p.writes[s] == v.writes[s])
      && (forall s :: s in p.blobs ==>
           p.blobs[s] == v.blobs[s] && exists id :: id in SpaceIn(p, s.ns) && Names(SpaceIn(p, s.ns)[id], s))
      && (forall ns :: ns in p.spaces ==> SpaceIn(p, ns) != map[] && SpaceIn(p, ns).Items <= SpaceIn(v, ns).Items)
  {
    var p := PruneView(v);
    forall s | s in p.writes ensures s.id in SpaceIn(p, s.ns) {
      KeptCheckpointRows(v, s.ns, s.id);
    }
    forall s | s in p.blobs ensures exists id :: id in SpaceIn(p, s.ns) && Names(SpaceIn(p, s.ns)[id], s) {
      var id :| KeepsCheckpoint(v, s.ns, id) && Names(SpaceIn(v, s.ns)[id], s);
      KeptCheckpointRows(v, s.ns, id);
      assert id in SpaceIn(p, s.ns) && Names(SpaceIn(p, s.ns)[id], s);
    }
    forall ns | ns in p.spaces ensures SpaceIn(p, ns) != map[] && SpaceIn(p, ns).Items <= SpaceIn(v, ns).Items {
      KeptNonEmpty(v, ns);
      forall item | item in SpaceIn(p, ns).Items ensures item in SpaceIn(v, ns).Items {
        assert item.0 in SpaceIn(v, ns) && SpaceIn(v, ns)[item.0] == item.1;
      }
    }
  }

  // ---- The checkpoints of one run deleted ---------------------------------------------------

  lemma SpaceAfterRunDeletion(v: View, ns: Namespace, run: RunId)
    ensures SpaceIn(DeleteRunView(v, run), ns) == WithoutRun(SpaceIn(v, ns), run)
  {
    hide WithoutRun;
    EmptyWithoutRun(run);
  }

  /** A namespace goes with its last checkpoint; one that was empty before, or keeps some, stays. */
  lemma EmptiedNamespaceGoes(v: View, run: RunId, ns: Namespace)
    ensures ns in DeleteRunView(v, run).spaces <==>
      ns in v.spaces && (v.spaces[ns] == map[] || exists id :: id in v.spaces[ns] && v.spaces[ns][id].metadata.value != Some(run))
  {
    if ns in v.spaces {
      var left := WithoutRun(v.spaces[ns], run);
      if id :| id in v.spaces[ns] && v.spaces[ns][id].metadata.value != Some(run) { assert id in left; }
      if left != map[] {
        var id :| id in left;
        assert id in v.spaces[ns] && v.spaces[ns][id].metadata.value != Some(run);
      }
    }
  }

  lemma EmptyWithoutRun(run: RunId)
    ensures WithoutRun(map[], run) == map[]
  {
  }

  lemma PartAfterRunDeletion(u: View, p: View, ns: Namespace, run: RunId)
    requires HoldsPart(u, p, ns)
    ensures HoldsPart(DeleteRunView(u, run), DeleteRunView(p, run), ns)
  {
    var u', p' := DeleteRunView(u, run), DeleteRunView(p, run);
    SpaceAfterRunDeletion(u, ns, run);
    SpaceAfterRunDeletion(p, ns, run);
    forall id | id in SpaceIn(p', ns) ensures HasRows(u', p', ns, id) {
      assert HasRows(u, p, ns, id);
      assert GroupAt(u', ns, id) == GroupAt(u, ns, id) && GroupAt(p', ns, id) == GroupAt(p, ns, id);
    }
  }

  /** Without the run's checkpoints a walk goes no further than before. */
  lemma {:induction false} WalkAfterRunDeletion(v: View, ns: Namespace, run: RunId, from: Option<CheckpointId>, c: Channel)
    ensures WalkIds(History(DeleteRunView(v, run), ns, from, c)) <= WalkIds(History(v, ns, from, c))
    decreases Rank(SpaceIn(v, ns), from)
  {
    var w := DeleteRunView(v, run);
    SpaceAfterRunDeletion(v, ns, run);
    if from.Some? && from.value in SpaceIn(w, ns) {
      WalkStep(v, ns, from.value, c);
      WalkStep(w, ns, from.value, c);
      if !SnapshotAt(v, ns, from.value, c) {
        RankDecreases(SpaceIn(v, ns), from.value);
        WalkAfterRunDeletion(v, ns, run, SpaceIn(v, ns)[from.value].parent, c);
      }
      hide WalkIds, History;
    }
  }

  lemma SnapshotAfterRunDeletion(v: View, ns: Namespace, run: RunId, id: CheckpointId, c: Channel)
    requires id in SpaceIn(DeleteRunView(v, run), ns)
    ensures id in SpaceIn(v, ns) && SpaceIn(DeleteRunView(v, run), ns)[id] == SpaceIn(v, ns)[id]
    ensures SnapshotAt(DeleteRunView(v, run), ns, id, c) == SnapshotAt(v, ns, id, c)
  {
    SpaceAfterRunDeletion(v, ns, run);
  }

  lemma LeftInSpace(v: View, ns: Namespace, run: RunId)
    ensures WithoutRun(SpaceIn(v, ns), run).Keys <= SpaceIn(v, ns).Keys
  {
  }

  /** The checkpoints of other runs in a part are those of the part among what is left. */
  lemma LeftOfPart(u: View, p: View, ns: Namespace, run: RunId)
    requires HoldsPart(u, p, ns)
    ensures var left := WithoutRun(SpaceIn(u, ns), run);
      SpaceIn(DeleteRunView(p, run), ns).Keys == left.Keys * SpaceIn(p, ns).Keys
  {
    hide HasRows;
    SpaceAfterRunDeletion(p, ns, run);
  }

  // ---- Many threads ---------------------------------------------------------------------

  /** Pruning a list of threads prunes each of them once, however often it is listed, and leaves
      every other thread alone. */
  lemma {:induction false} PruneAllRows(d: Data, threads: seq<ThreadId>, t: ThreadId)
    ensures ViewOf(PruneAll(d, threads), t) == if t in threads then PruneView(ViewOf(d, t)) else ViewOf(d, t)
  {
    hide PruneView, ViewOf, WithView;
    if |threads| > 0 {
      var n := |threads| - 1;
      var before := PruneAll(d, threads[..n]);
      PruneAllRows(d, threads[..n], t);
      ViewOfWith(before, threads[n], PruneView(ViewOf(before, threads[n])), t);
      PruneIdempotent(ViewOf(d, t));
      assert threads == threads[..n] + [threads[n]];
    }
  }

  lemma {:induction false} DeleteAllRows(d: Data, threads: seq<ThreadId>, t: ThreadId)
    ensures ViewOf(DeleteAll(d, threads), t) == if t in threads then NO_ROWS else ViewOf(d, t)
  {
    hide ViewOf, WithView;
    if |threads| > 0 {
      var n := |threads| - 1;
      DeleteAllRows(d, threads[..n], t);
      ViewOfWith(DeleteAll(d, threads[..n]), threads[n], NO_ROWS, t);
      assert threads == threads[..n] + [threads[n]];
    }
  }
}
