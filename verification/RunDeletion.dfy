/** Deleting the checkpoints of one run after a prune: exactly when the prune shows (ops.py). */
module RunDeletion {
  import opened Wrappers
  import opened CheckpointModel
  import opened CheckpointPruning
  import opened PruneInvisible

  /** A channel's ancestors that are left without the run are all kept. */
  ghost predicate StillKept(v: View, ns: Namespace, run: RunId, head: CheckpointId, c: Channel)
    requires SpaceIn(v, ns) != map[] && head in SpaceIn(v, ns)
  {
    SnapshotAt(v, ns, head, c) || WalkIds(History(DeleteRunView(v, run), ns, SpaceIn(v, ns)[head].parent, c)) <= Kept(v, ns)
  }

  /** Exactly when a prune shows once a run is deleted: the store without the prune falls back to the
      newest checkpoint of the other runs; that is the head with the prune if and only if the prune
      kept it, and then a channel of it reconstructs alike if and only if the prune kept the ancestors
      of other runs that it walks.  If no other run has a checkpoint, none is left either way. */
  lemma PruneThenDeleteRun(v: View, ns: Namespace, run: RunId)
    requires SpaceIn(v, ns) != map[]
    ensures var u', p' := DeleteRunView(v, run), DeleteRunView(PruneView(v), run); var left := WithoutRun(SpaceIn(v, ns), run);
      && SpaceIn(u', ns) == left
      && (left == map[] ==> SpaceIn(p', ns) == map[])
      && (left != map[] ==>
            && (SameLatest(u', p', ns) <==> Latest(left) in Kept(v, ns))
            && (Latest(left) in Kept(v, ns) ==>
                  && SpaceIn(p', ns)[Latest(left)] == left[Latest(left)]
                  && GroupAt(p', ns, Latest(left)) == GroupAt(u', ns, Latest(left))
                  && forall c :: c in left[Latest(left)].Versions() ==>
                       (Reconstruction(p', ns, c) == Reconstruction(u', ns, c) <==> StillKept(v, ns, run, Latest(left), c))))
  {
    hide PruneView, Kept, HoldsPart, DeleteRunView, WithoutRun, Reconstruction;
    var p := PruneView(v);
    var u', p' := DeleteRunView(v, run), DeleteRunView(p, run);
    var left := WithoutRun(SpaceIn(v, ns), run);
    WholeIsPart(v, ns);
    PrunedIsPart(v, v, ns);
    PartAfterRunDeletion(v, p, ns, run);
    SpaceAfterRunDeletion(v, ns, run);
    LeftOfPart(v, p, ns, run);
    if left != map[] {
      LatestOfPart(u', p', ns);
      if Latest(left) in Kept(v, ns) {
        HeadIsHeld(u', p', ns);
        LeftInSpace(v, ns, run);
        forall c | c in left[Latest(left)].Versions()
          ensures Reconstruction(p', ns, c) == Reconstruction(u', ns, c) <==> StillKept(v, ns, run, Latest(left), c)
        {
          RebuildsIff(u', p', ns, c);
          StillKeptIff(v, ns, run, c);
        }
      }
    }
  }

  lemma LatestOfPart(u: View, p: View, ns: Namespace)
    requires HoldsPart(u, p, ns) && SpaceIn(u, ns) != map[]
    ensures SameLatest(u, p, ns) <==> Latest(SpaceIn(u, ns)) in SpaceIn(p, ns)
  {
    var head := Latest(SpaceIn(u, ns));
    if head in SpaceIn(p, ns) {
      assert IsLatest(SpaceIn(p, ns), head);
      LatestUnique(SpaceIn(p, ns), head, Latest(SpaceIn(p, ns)));
    }
  }

  lemma StillKeptIff(v: View, ns: Namespace, run: RunId, c: Channel)
    requires SpaceIn(v, ns) != map[] && WithoutRun(SpaceIn(v, ns), run) != map[]
    ensures var u', p' := DeleteRunView(v, run), DeleteRunView(PruneView(v), run); var head := Latest(WithoutRun(SpaceIn(v, ns), run));
      && SpaceIn(u', ns) == WithoutRun(SpaceIn(v, ns), run) && head in SpaceIn(v, ns)
      && (Rebuilds(u', p', ns, c) <==> StillKept(v, ns, run, head, c))
  {
    hide PruneView, Kept, HoldsPart, History, WalkIds, DeleteRunView, SnapshotAt;
    var p := PruneView(v);
    var u' := DeleteRunView(v, run);
    SpaceAfterRunDeletion(v, ns, run);
    var head := Latest(WithoutRun(SpaceIn(v, ns), run));
    SnapshotAfterRunDeletion(v, ns, run, head, c);
    HistoryIdsInSpace(u', ns, SpaceIn(v, ns)[head].parent, c);
    WholeIsPart(v, ns);
    PrunedIsPart(v, v, ns);
    LeftOfPart(v, p, ns, run);
  }

  /** Deleting any run but the head's own never lets a prune show. */
  lemma OtherRunsDeletedInvisibly(v: View, ns: Namespace, run: RunId)
    requires SpaceIn(v, ns) != map[]
    requires SpaceIn(v, ns)[Latest(SpaceIn(v, ns))].metadata.value != Some(run)
    ensures SameHead(DeleteRunView(v, run), DeleteRunView(PruneView(v), run), ns)
  {
    var head, left := Latest(SpaceIn(v, ns)), WithoutRun(SpaceIn(v, ns), run);
    HeadSpared(SpaceIn(v, ns), head, run);
    PruneThenDeleteRun(v, ns, run);
    hide PruneView, DeleteRunView, Reconstruction, History, WalkIds;
    forall c | c in left[head].Versions() ensures StillKept(v, ns, run, head, c) {
      WalkAfterRunDeletion(v, ns, run, SpaceIn(v, ns)[head].parent, c);
      if !SnapshotAt(v, ns, head, c) { assert c in NeededChannels(v, ns); }
    }
  }
}
