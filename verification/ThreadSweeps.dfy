/** Whole sweeps: draining in limited portions, accounting of freed bytes, and protection of
    threads with active runs (ops.py). */
module ThreadSweeps {
  import opened Wrappers
  import opened MapSums
  import opened CheckpointModel
  import opened CheckpointPruning
  import opened CheckpointSizes
  import opened RuntimeState
  import opened ThreadTtl

  /** One sweep at `now`. */
  ghost function Sweep(w: World, global: Option<Policy>, limit: Option<nat>, batchSize: nat, now: Time): Progress
    requires batchSize > 0
  {
    ProcessBatched(Progress(w, 0, 0), Take(DueList(w, global, now), limit), batchSize)
  }

  lemma TakeDue(w: World, global: Option<Policy>, limit: Option<nat>, now: Time)
    requires UniqueThreads(w.threads)
    ensures var due := DueList(w, global, now); var taken := Take(due, limit);
      && StrictlySorted(due) && DistinctIds(taken) && FromWorld(w, taken)
      && Take(due, limit) + Drop(due, limit) == due
      && forall x :: x in taken ==> Eligible(w, global, now, x)
  {
    hide DueList, Take, Drop, StrictlySorted, Candidate;
    DueListMembers(w, global, now);
    var due := DueList(w, global, now);
    TakenOf(due, limit);
    forall x | x in Take(due, limit) ensures Eligible(w, global, now, x) && HasThread(w.threads, x.id) && x.state == StateOf(w.ttls, x.id) {
      var t :| t in w.threads && Candidate(w, global, now, ActiveThreads(w.runs), t) == Some(x);
      CandidateRecord(w, global, now, ActiveThreads(w.runs), t);
      HasThreadMember(w.threads, x.id);
    }
  }

  lemma TakenOf(due: seq<Expired>, limit: Option<nat>)
    requires StrictlySorted(due)
    ensures DistinctIds(Take(due, limit)) && Take(due, limit) + Drop(due, limit) == due
    ensures forall x :: x in Take(due, limit) ==> x in due
  {
  }

  lemma CandidateRecord(w: World, global: Option<Policy>, now: Time, active: set<ThreadId>, t: Thread)
    ensures var c := Candidate(w, global, now, active, t);
      c.Some? ==> c.value.id == t.id && c.value.state == StateOf(w.ttls, t.id)
  {
  }

  ghost predicate Eligible(w: World, global: Option<Policy>, now: Time, x: Expired) {
    exists t :: t in w.threads && Candidate(w, global, now, ActiveThreads(w.runs), t) == Some(x)
  }

  /** The state and counts a sweep leaves, for any batch size. */
  lemma SweepResult(w: World, global: Option<Policy>, limit: Option<nat>, batchSize: nat, now: Time)
    requires batchSize > 0 && UniqueThreads(w.threads)
    ensures var taken := Take(DueList(w, global, now), limit); var p := Sweep(w, global, limit, batchSize, now);
      && p == ProcessEach(Progress(w, 0, 0), taken)
      && Swept(w, p.world, taken) && p.processed == |taken| && p.deleted == CountDeletes(taken)
  {
    hide Swept;
    var taken := Take(DueList(w, global, now), limit);
    TakeDue(w, global, limit, now);
    BatchedIsSequential(Progress(w, 0, 0), taken, batchSize);
    SweepOutcome(w, taken);
  }

  // ---- Draining -----------------------------------------------------------------------------------

  lemma {:induction false} MarkedStateOf(ttls: map<ThreadId, TtlState>, id: ThreadId, items: seq<Expired>)
    requires DistinctIds(items)
    ensures id !in PrunedIds(items) ==> MarkedState(ttls, id, items) == StateOf(ttls, id)
    ensures forall x :: x in items && x.policy.strategy == KeepLatest && x.id == id ==>
      MarkedState(ttls, id, items) == x.state.(lastSwept := Some(x.updatedAt))
  {
    if |items| > 0 {
      var n := |items| - 1;
      MarkedStateOf(ttls, id, items[..n]);
      IdsGrow(items);
      assert items == items[..n] + [items[n]];
      forall x | x in items && x.policy.strategy == KeepLatest && x.id == id
        ensures MarkedState(ttls, id, items) == x.state.(lastSwept := Some(x.updatedAt))
      {
        var i :| 0 <= i < |items| && items[i] == x;
        if i < n { assert items[..n][i] == x; }
      }
    }
  }

  lemma UniqueThread(threads: seq<Thread>, a: Thread, b: Thread)
    requires UniqueThreads(threads) && a in threads && b in threads && a.id == b.id
    ensures a == b
  {
    var i :| 0 <= i < |threads| && threads[i] == a;
    var j :| 0 <= j < |threads| && threads[j] == b;
  }

  /** A thread the sweep did not take looks to the next sweep as it did to this one. */
  lemma UntakenUnchanged(w: World, after: World, taken: seq<Expired>, global: Option<Policy>, now: Time, t: Thread)
    requires Swept(w, after, taken) && DistinctIds(taken)
    requires t.id !in DeletedIds(taken) && t.id !in PrunedIds(taken)
    ensures Candidate(after, global, now, ActiveThreads(after.runs), t) == Candidate(w, global, now, ActiveThreads(w.runs), t)
  {
    MarkedStateOf(w.ttls, t.id, taken);
    assert StateOf(after.ttls, t.id) == StateOf(w.ttls, t.id);
    ActiveAfterSweep(w, after, taken, t.id);
  }

  lemma ActiveAfterSweep(w: World, after: World, taken: seq<Expired>, id: ThreadId)
    requires Swept(w, after, taken) && id !in DeletedIds(taken)
    ensures id in ActiveThreads(after.runs) <==> id in ActiveThreads(w.runs)
  {
    if id in ActiveThreads(w.runs) {
      var r :| r in w.runs && r.Active() && r.thread == id;
      assert r in after.runs;
    }
    if id in ActiveThreads(after.runs) {
      var r :| r in after.runs && r.Active() && r.thread == id;
      assert r in w.runs;
    }
  }

  /** A thread the sweep pruned is not due again until it is updated. */
  lemma PrunedNotDue(w: World, after: World, taken: seq<Expired>, global: Option<Policy>, now: Time, t: Thread, x: Expired)
    requires UniqueThreads(w.threads) && t in w.threads
    requires Swept(w, after, taken) && DistinctIds(taken)
    requires x in taken && x.policy.strategy == KeepLatest && x.id == t.id && Eligible(w, global, now, x)
    requires t.id !in DeletedIds(taken)
    ensures Candidate(after, global, now, ActiveThreads(after.runs), t).None?
  {
    var u :| u in w.threads && Candidate(w, global, now, ActiveThreads(w.runs), u) == Some(x);
    UniqueThread(w.threads, t, u);
    MarkedStateOf(w.ttls, t.id, taken);
    assert StateOf(after.ttls, t.id) == x.state.(lastSwept := Some(t.updatedAt));
  }

  /** What is due after a sweep is what it left of the due list, in the same order. */
  lemma DueAfterSweep(w: World, global: Option<Policy>, limit: Option<nat>, batchSize: nat, now: Time)
    requires batchSize > 0 && UniqueThreads(w.threads)
    ensures var after := Sweep(w, global, limit, batchSize, now).world;
      UniqueThreads(after.threads) && DueList(after, global, now) == Drop(DueList(w, global, now), limit)
  {
    hide Sweep, DueList, Candidate;
    var due, taken, left := DueList(w, global, now), Take(DueList(w, global, now), limit), Drop(DueList(w, global, now), limit);
    var after := Sweep(w, global, limit, batchSize, now).world;
    TakeDue(w, global, limit, now);
    SweepResult(w, global, limit, batchSize, now);
    DueListMembers(w, global, now);
    DueListMembers(after, global, now);
    DropSorted(due, limit);
    forall y ensures y in DueList(after, global, now) <==> y in left {
      DueMemberAfterSweep(w, after, global, limit, now, y);
    }
    SameElementsSameOrder(DueList(after, global, now), left);
  }

  lemma DropSorted(due: seq<Expired>, limit: Option<nat>)
    requires StrictlySorted(due)
    ensures StrictlySorted(Drop(due, limit))
    ensures forall x, y :: x in Take(due, limit) && y in Drop(due, limit) ==> x.id != y.id
    ensures forall x :: x in due <==> x in Take(due, limit) || x in Drop(due, limit)
  {
    assert due == Take(due, limit) + Drop(due, limit);
    hide Take, Drop;
    SortedParts(Take(due, limit), Drop(due, limit));
  }

  lemma SortedParts(a: seq<Expired>, b: seq<Expired>)
    requires StrictlySorted(a + b)
    ensures StrictlySorted(b)
    ensures forall x, y :: x in a && y in b ==> x.id != y.id
  {
    hide Before;
    forall i, j | 0 <= i < j < |b| ensures Before(b[i], b[j]) && b[i].id != b[j].id {
      assert (a + b)[|a| + i] == b[i] && (a + b)[|a| + j] == b[j];
    }
    forall x, y | x in a && y in b ensures x.id != y.id {
      var i :| 0 <= i < |a| && a[i] == x;
      var j :| 0 <= j < |b| && b[j] == y;
      assert (a + b)[i] == x && (a + b)[|a| + j] == y;
    }
  }

  lemma DueMemberAfterSweep(w: World, after: World, global: Option<Policy>, limit: Option<nat>, now: Time, y: Expired)
    requires UniqueThreads(w.threads) && Swept(w, after, Take(DueList(w, global, now), limit))
    ensures y in DueList(after, global, now) <==> y in Drop(DueList(w, global, now), limit)
  {
    hide DueList, Candidate, ActiveThreads;
    var due, taken, left := DueList(w, global, now), Take(DueList(w, global, now), limit), Drop(DueList(w, global, now), limit);
    TakeDue(w, global, limit, now);
    DueListMembers(w, global, now);
    DueListMembers(after, global, now);
    DropSorted(due, limit);
    if y in left {
      var t :| t in w.threads && Candidate(w, global, now, ActiveThreads(w.runs), t) == Some(y);
      CandidateId(w, global, now, ActiveThreads(w.runs), t);
      assert t.id !in DeletedIds(taken) && t.id !in PrunedIds(taken);
      UntakenUnchanged(w, after, taken, global, now, t);
      assert t in after.threads;
    }
    if y in DueList(after, global, now) {
      var t :| t in after.threads && Candidate(after, global, now, ActiveThreads(after.runs), t) == Some(y);
      CandidateId(after, global, now, ActiveThreads(after.runs), t);
      if t.id in PrunedIds(taken) {
        var x :| x in taken && x.policy.strategy == KeepLatest && x.id == t.id;
        PrunedNotDue(w, after, taken, global, now, t, x);
      } else {
        UntakenUnchanged(w, after, taken, global, now, t);
        assert y in due;
        if y in taken { TakenIsHandled(taken, y); }
      }
    }
  }

  lemma CandidateId(w: World, global: Option<Policy>, now: Time, active: set<ThreadId>, t: Thread)
    ensures var c := Candidate(w, global, now, active, t); c.Some? ==> c.value.id == t.id
  {
  }

  lemma TakenIsHandled(taken: seq<Expired>, y: Expired)
    requires y in taken
    ensures y.id in DeletedIds(taken) || y.id in PrunedIds(taken)
  {
  }

  /** The world after `k` sweeps at the same time with the same limit. */
  ghost function Sweeps(w: World, global: Option<Policy>, limit: nat, batchSize: nat, now: Time, k: nat): World
    requires batchSize > 0
  {
    if k == 0 then w
    else Sweep(Sweeps(w, global, limit, batchSize, now, k - 1), global, Some(limit), batchSize, now).world
  }

  /** The threads handled by the first `k` sweeps, in order. */
  ghost function Handled(w: World, global: Option<Policy>, limit: nat, batchSize: nat, now: Time, k: nat): seq<Expired>
    requires batchSize > 0
  {
    if k == 0 then []
    else
      var before := Sweeps(w, global, limit, batchSize, now, k - 1);
      Handled(w, global, limit, batchSize, now, k - 1) + Take(DueList(before, global, now), Some(limit))
  }

  /** How many threads `k` sweeps may take. */
  function Portion(k: nat, limit: nat): nat
    ensures k > 0 ==> Portion(k, limit) == Portion(k - 1, limit) + limit
  {
    k * limit
  }

  /** `k` sweeps of at most `limit` threads handle the first `k * limit` due threads in order, each
      once, and leave the rest due. */
  lemma {:induction false} SweepsDrain(w: World, global: Option<Policy>, limit: nat, batchSize: nat, now: Time, k: nat)
    requires batchSize > 0 && UniqueThreads(w.threads)
    ensures UniqueThreads(Sweeps(w, global, limit, batchSize, now, k).threads)
    ensures Handled(w, global, limit, batchSize, now, k) == Take(DueList(w, global, now), Some(Portion(k, limit)))
    ensures DueList(Sweeps(w, global, limit, batchSize, now, k), global, now) == Drop(DueList(w, global, now), Some(Portion(k, limit)))
    ensures DistinctIds(DueList(w, global, now))
  {
    hide Sweep, DueList;
    DueListMembers(w, global, now);
    DrainStart(DueList(w, global, now));
    if k > 0 {
      hide Take, Drop;
      var before := Sweeps(w, global, limit, batchSize, now, k - 1);
      SweepsDrain(w, global, limit, batchSize, now, k - 1);
      DueAfterSweep(before, global, Some(limit), batchSize, now);
      Portions(DueList(w, global, now), Portion(k - 1, limit), limit);
    }
  }

  lemma DrainStart(due: seq<Expired>)
    requires StrictlySorted(due)
    ensures Take(due, Some(0)) == [] && Drop(due, Some(0)) == due && DistinctIds(due)
  {
  }

  lemma Portions(due: seq<Expired>, a: nat, b: nat)
    ensures Take(due, Some(a)) + Take(Drop(due, Some(a)), Some(b)) == Take(due, Some(a + b))
    ensures Drop(Drop(due, Some(a)), Some(b)) == Drop(due, Some(a + b))
  {
  }

  /** Enough sweeps handle everyone; one more handles nobody and changes nothing. */
  lemma DrainedSweepIsIdle(w: World, global: Option<Policy>, limit: nat, batchSize: nat, now: Time, k: nat)
    requires batchSize > 0 && UniqueThreads(w.threads)
    requires |DueList(w, global, now)| <= Portion(k, limit)
    ensures Handled(w, global, limit, batchSize, now, k) == DueList(w, global, now)
    ensures var last := Sweeps(w, global, limit, batchSize, now, k);
      Sweep(last, global, Some(limit), batchSize, now) == Progress(last, 0, 0)
  {
    hide DueList;
    SweepsDrain(w, global, limit, batchSize, now, k);
  }

  // ---- Threads with active runs ----------------------------------------------------------------------

  /** A thread with a pending or running run keeps its row, runs, TTL record and all checkpoint rows. */
  lemma ActiveThreadsProtected(w: World, global: Option<Policy>, limit: Option<nat>, batchSize: nat, now: Time, t: Thread)
    requires batchSize > 0 && UniqueThreads(w.threads)
    requires t in w.threads && t.id in ActiveThreads(w.runs)
    ensures var after := Sweep(w, global, limit, batchSize, now).world;
      && t in after.threads
      && (forall r :: r in w.runs && r.thread == t.id ==> r in after.runs)
      && (forall c :: c in w.crons && c.thread == Some(t.id) ==> c in after.crons)
      && (t.id in after.ttls <==> t.id in w.ttls) && StateOf(after.ttls, t.id) == StateOf(w.ttls, t.id)
      && ViewOf(after.data, t.id) == ViewOf(w.data, t.id)
  {
    hide Sweep, DueList, Take, Swept, StateOf, ViewOf, ActiveThreads;
    var taken := Take(DueList(w, global, now), limit);
    var after := Sweep(w, global, limit, batchSize, now).world;
    TakeDue(w, global, limit, now);
    SweepResult(w, global, limit, batchSize, now);
    forall x | x in taken ensures x.id != t.id { ActiveNotEligible(w, global, now, x); }
    UntakenIds(taken, t.id);
    UntakenThread(w, after, taken, t);
    UntakenLists(w, after, taken, t.id);
    UntakenState(w, after, taken, t.id);
    UntakenRows(w, after, taken, t.id);
  }

  lemma ActiveNotEligible(w: World, global: Option<Policy>, now: Time, x: Expired)
    requires Eligible(w, global, now, x)
    ensures x.id !in ActiveThreads(w.runs)
  {
  }

  lemma UntakenIds(taken: seq<Expired>, id: ThreadId)
    requires forall x :: x in taken ==> x.id != id
    ensures id !in DeletedIds(taken) && id !in PrunedIds(taken)
  {
  }

  lemma UntakenThread(w: World, after: World, taken: seq<Expired>, t: Thread)
    requires Swept(w, after, taken) && t.id !in DeletedIds(taken) && t in w.threads
    ensures t in after.threads
  {
  }

  lemma UntakenLists(w: World, after: World, taken: seq<Expired>, id: ThreadId)
    requires Swept(w, after, taken) && id !in DeletedIds(taken)
    ensures forall r :: r in w.runs && r.thread == id ==> r in after.runs
    ensures forall c :: c in w.crons && c.thread == Some(id) ==> c in after.crons
  {
    hide ViewOf, StateOf;
  }

  lemma UntakenState(w: World, after: World, taken: seq<Expired>, id: ThreadId)
    requires Swept(w, after, taken) && DistinctIds(taken)
    requires id !in DeletedIds(taken) && id !in PrunedIds(taken)
    ensures (id in after.ttls <==> id in w.ttls) && StateOf(after.ttls, id) == StateOf(w.ttls, id)
  {
    hide ViewOf;
    MarkedStateOf(w.ttls, id, taken);
  }

  lemma UntakenRows(w: World, after: World, taken: seq<Expired>, id: ThreadId)
    requires Swept(w, after, taken) && id !in DeletedIds(taken) && id !in PrunedIds(taken)
    ensures ViewOf(after.data, id) == ViewOf(w.data, id)
  {
    hide ViewOf, StateOf;
  }

  /** A sweep never changes what a surviving thread's heads are rebuilt from, whatever it prunes. */
  lemma SweepKeepsReconstruction(w: World, global: Option<Policy>, limit: Option<nat>, batchSize: nat, now: Time, t: Thread, ns: Namespace)
    requires batchSize > 0 && UniqueThreads(w.threads)
    requires t in Sweep(w, global, limit, batchSize, now).world.threads
    requires SpaceIn(ViewOf(w.data, t.id), ns) != map[]
    ensures var before, after := ViewOf(w.data, t.id), ViewOf(Sweep(w, global, limit, batchSize, now).world.data, t.id);
            var head := Latest(SpaceIn(before, ns));
      && SpaceIn(after, ns) != map[] && Latest(SpaceIn(after, ns)) == head
      && SpaceIn(after, ns)[head] == SpaceIn(before, ns)[head] && GroupAt(after, ns, head) == GroupAt(before, ns, head)
      && forall c :: c in SpaceIn(before, ns)[head].Versions() ==> Reconstruction(after, ns, c) == Reconstruction(before, ns, c)
  {
    hide ViewOf, Sweep, DueList, PruneView;
    SweepResult(w, global, limit, batchSize, now);
    PruneKeepsReconstruction(ViewOf(w.data, t.id), ns);
  }

  // ---- Accounting -----------------------------------------------------------------------------------

  /** A prune never makes a thread bigger. */
  lemma PruneShrinksSizes(v: View)
    ensures ViewBytes(PruneView(v)) <= ViewBytes(v) && ViewCount(PruneView(v)) <= ViewCount(v)
  {
    hide Kept, EntryBytes;
    var p := PruneView(v);
    forall ns | ns in v.spaces ensures 0 <= SpaceWeight(ns, v.spaces[ns]) {
      EntriesNonNegative(v.spaces[ns]);
    }
    forall ns | ns in p.spaces
      ensures ns in v.spaces && SpaceWeight(ns, p.spaces[ns]) <= SpaceWeight(ns, v.spaces[ns]) && CountWeight(ns, p.spaces[ns]) <= CountWeight(ns, v.spaces[ns])
    {
      if v.spaces != map[] { RestrictShrinks(v.spaces[ns], Kept(v, ns)); }
    }
    SumMonotone(p.spaces, v.spaces, SpaceWeight);
    SumMonotone(p.spaces, v.spaces, CountWeight);
    forall s | s in v.writes ensures 0 <= GroupWeight(s, v.writes[s]) { GroupBytesNonNegative(s.id, v.writes[s]); }
    SumMonotone(p.writes, v.writes, GroupWeight);
    SumMonotone(p.blobs, v.blobs, BlobWeight);
  }

  lemma EntriesNonNegative(space: Space)
    ensures 0 <= SumOver(space, EntryBytes)
  {
    SumNonNegative(space, EntryBytes);
  }

  lemma RestrictShrinks(space: Space, ids: set<CheckpointId>)
    ensures SumOver(Restrict(space, ids), EntryBytes) <= SumOver(space, EntryBytes)
    ensures |Restrict(space, ids)| <= |space|
  {
    SumMonotone(Restrict(space, ids), space, EntryBytes);
    CardinalityMonotone(Restrict(space, ids).Keys, space.Keys);
  }

  /** Bytes and checkpoints the listed threads lost between two tallies. */
  ghost function Released(before: Tally, after: Tally, items: seq<Expired>): Totals {
    if |items| == 0 then Totals(0, 0)
    else
      var id := items[|items| - 1].id;
      var rest := Released(before, after, items[..|items| - 1]);
      Totals(rest.bytes + before.Of(id).bytes - after.Of(id).bytes, rest.count + before.Of(id).count - after.Of(id).count)
  }

  /** The tally with the listed threads' records taken over from `after`. */
  ghost function TakeOver(before: Tally, after: Tally, items: seq<Expired>): Tally {
    if |items| == 0 then before
    else
      var id := items[|items| - 1].id;
      WithRecord(TakeOver(before, after, items[..|items| - 1]), id, after.Of(id))
  }

  ghost predicate Lists(items: seq<Expired>, id: ThreadId) {
    exists x :: x in items && x.id == id
  }

  lemma {:induction false} TakeOverTotals(before: Tally, after: Tally, items: seq<Expired>)
    requires Consistent(before) && DistinctIds(items)
    ensures var t := TakeOver(before, after, items);
      && Consistent(t)
      && (forall id :: t.Of(id) == if Lists(items, id) then after.Of(id) else before.Of(id))
      && t.totalBytes == before.totalBytes - Released(before, after, items).bytes
      && t.totalCount == before.totalCount - Released(before, after, items).count
  {
    if |items| > 0 {
      hide WithRecord, Consistent;
      var n := |items| - 1;
      TakeOverTotals(before, after, items[..n]);
      var partial := TakeOver(before, after, items[..n]);
      var id := items[n].id;
      WithRecordConsistent(partial, id, after.Of(id));
      LastIsNew(items);
      hide Lists;
      assert partial.Of(id) == before.Of(id);
      WithRecordTotals(partial, id, after.Of(id));
    }
  }

  lemma LastIsNew(items: seq<Expired>)
    requires |items| > 0 && DistinctIds(items)
    ensures var n := |items| - 1;
      && !Lists(items[..n], items[n].id)
      && forall id :: Lists(items, id) <==> Lists(items[..n], id) || id == items[n].id
  {
    var n := |items| - 1;
    assert items == items[..n] + [items[n]];
    forall x | x in items[..n] ensures x.id != items[n].id { var i :| 0 <= i < n && items[i] == x; }
    assert items[n] in items;
  }

  lemma WithRecordTotals(tally: Tally, id: ThreadId, record: Totals)
    ensures WithRecord(tally, id, record).totalBytes == tally.totalBytes + record.bytes - tally.Of(id).bytes
    ensures WithRecord(tally, id, record).totalCount == tally.totalCount + record.count - tally.Of(id).count
  {
  }

  lemma SameRecordsSameTotals(a: Tally, b: Tally)
    requires Consistent(a) && Consistent(b)
    requires forall id :: a.Of(id) == b.Of(id)
    ensures a == b
  {
    forall t ensures (t in a.byThread <==> t in b.byThread) && (t in a.byThread ==> a.byThread[t] == b.byThread[t]) {
      assert a.Of(t) == b.Of(t);
    }
    assert a.byThread == b.byThread;
  }

  /** Conservation: what the swept threads lost, thread by thread, is what the totals lost, and no
      thread gained anything. */
  lemma SweepAccounts(before: Tally, after: Tally, w: World, v: World, items: seq<Expired>)
    requires Tracks(before, w.data) && Tracks(after, v.data)
    requires Swept(w, v, items) && DistinctIds(items)
    ensures before.totalBytes - after.totalBytes == Released(before, after, items).bytes
    ensures before.totalCount - after.totalCount == Released(before, after, items).count
    ensures forall x :: x in items ==> after.Of(x.id).bytes <= before.Of(x.id).bytes && after.Of(x.id).count <= before.Of(x.id).count
  {
    hide ViewOf, ViewBytes, ViewCount, PruneView, Consistent;
    TakeOverTotals(before, after, items);
    forall id ensures TakeOver(before, after, items).Of(id) == after.Of(id) {
      if !Lists(items, id) {
        assert id !in DeletedIds(items) && id !in PrunedIds(items);
        assert ViewOf(v.data, id) == ViewOf(w.data, id);
      }
    }
    SameRecordsSameTotals(TakeOver(before, after, items), after);
    forall x | x in items ensures after.Of(x.id).bytes <= before.Of(x.id).bytes && after.Of(x.id).count <= before.Of(x.id).count {
      DeletedSizes();
      ViewSizesNonNegative(ViewOf(w.data, x.id));
      PruneShrinksSizes(ViewOf(w.data, x.id));
    }
  }
}
