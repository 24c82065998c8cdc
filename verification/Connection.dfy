/** The runtime's store and its operations, updated in place (ops.py). */
module Connection {
  import opened Wrappers
  import opened CheckpointModel
  import opened CheckpointSizes
  import opened CheckpointSaver
  import opened RuntimeState
  import opened ThreadTtl
  import opened ThreadSweeps
  import opened Dispatch
  import opened RunLifecycle
  import Histories = DispatchRuns

  /** The measurements a sweep reports. */
  datatype SweepStats = SweepStats(deletedItems: int, deletedBytes: int, totalBefore: int)

  class Store {
    var threads: seq<Thread>
    var runs: seq<Run>
    var crons: seq<Cron>
    var ttls: map<ThreadId, TtlState>
    var attempts: map<RunId, nat>
    const saver: InMemorySaver

    ghost function Value(): World
      reads this, saver
    {
      World(threads, runs, crons, ttls, attempts, saver.Contents())
    }

    ghost predicate Valid()
      reads this, saver, saver.sizeState
    {
      saver.Valid()
    }

    constructor (saver: InMemorySaver)
      requires saver.Valid()
      ensures Valid() && this.saver == saver
      ensures Value() == World([], [], [], map[], map[], saver.Contents())
    {
      threads, runs, crons, ttls, attempts := [], [], [], map[], map[];
      this.saver := saver;
    }

    /** `Threads.delete`; false stands for "not found". */
    method DeleteThread(id: ThreadId) returns (found: bool)
      requires Valid()
      modifies this, saver, saver.sizeState
      ensures Valid()
      ensures found == HasThread(old(threads), id)
      ensures Value() == RuntimeState.DeleteThread(old(Value()), id)
      ensures Value() == Histories.Apply(old(Value()), Histories.RemoveThread(id))
    {
      hide Histories.Apply;
      RemovalIsEvent(Value(), id);
      hide Tracks, DeleteData;
      var index := 0;
      while index < |threads| && threads[index].id != id
        invariant index <= |threads|
        invariant forall i :: 0 <= i < index ==> threads[i].id != id
      {
        index := index + 1;
      }
      if index == |threads| { return false; }
      assert HasThread(threads, id) by { assert threads[index].id == id; }
      runs := RunsWithout(runs, id);
      crons := CronsWithout(crons, id);
      saver.DeleteThread(id);
      WithoutAt(threads, id, index);
      threads := threads[..index] + threads[index + 1..];
      ttls := ttls - {id};
      found := true;
    }

    /** One item of a batch, after the batch was pruned. */
    method FinishItem(item: Expired, processed: nat, deleted: nat) returns (processed': nat, deleted': nat)
      requires Valid()
      modifies this, saver, saver.sizeState
      ensures Valid()
      ensures Progress(Value(), processed', deleted') == Finish(Progress(old(Value()), processed, deleted), item)
    {
      hide Tracks, RuntimeState.DeleteThread;
      processed', deleted' := processed, deleted;
      if item.policy.strategy == Delete {
        NotFoundUnchanged(Value(), item.id);
        var found := DeleteThread(item.id);
        if found { processed', deleted' := processed + 1, deleted + 1; }
      } else {
        ttls := ttls[item.id := item.state.(lastSwept := Some(item.updatedAt))];
        processed' := processed + 1;
      }
    }

    /** One batch of the sweep. */
    method SweepBatch(batch: seq<Expired>, processed: nat, deleted: nat) returns (processed': nat, deleted': nat)
      requires Valid()
      modifies this, saver, saver.sizeState
      ensures Valid()
      ensures Progress(Value(), processed', deleted') == ProcessBatch(Progress(old(Value()), processed, deleted), batch)
    {
      hide Tracks, Finish, PruneData;
      ghost var start := Progress(Value(), processed, deleted);
      var keepLatest := KeepLatestIds(batch);
      if |keepLatest| > 0 {
        var _ := saver.Prune(keepLatest, "keep_latest");
      }
      ghost var pruned := Progress(Value(), processed, deleted);
      assert pruned == WithData(start, PruneAll(start.world.data, keepLatest));
      processed', deleted' := processed, deleted;
      for i := 0 to |batch|
        invariant Valid()
        invariant Progress(Value(), processed', deleted') == FinishAll(pruned, batch[..i])
      {
        assert batch[..i + 1][..i] == batch[..i];
        processed', deleted' := FinishItem(batch[i], processed', deleted');
      }
      assert batch[..|batch|] == batch;
    }

    /** The sweep's work list. */
    method CollectExpired(global: Option<Policy>, limit: Option<nat>, now: Time) returns (expired: seq<Expired>)
      ensures expired == Take(DueList(Value(), global, now), limit)
    {
      var active := ActiveThreads(runs);
      expired := [];
      for i := 0 to |threads|
        invariant expired == Candidates(Value(), global, now, active, threads[..i])
      {
        assert threads[..i + 1][..i] == threads[..i];
        var found := Candidate(StoreView(), global, now, active, threads[i]);
        CandidateReadsTtls(StoreView(), Value(), global, now, active, threads[i]);
        if found.Some? { expired := expired + [found.value]; }
      }
      assert threads[..|threads|] == threads;
      expired := Take(Sort(expired), limit);
    }

    /** The lists without the checkpoint rows. */
    function StoreView(): World
      reads this
    {
      World(threads, runs, crons, ttls, attempts, NO_DATA)
    }

    /** `Threads.sweep_ttl` with `stats`: the threads handled, how many were deleted, and what the
        size tally says was freed. */
    method SweepTtl(global: Option<Policy>, limit: Option<int>, configured: Option<int>, batchSize: int, now: Time)
      returns (processed: nat, deleted: nat, stats: SweepStats)
      requires Valid() && UniqueThreads(threads)
      modifies this, saver, saver.sizeState
      ensures Valid()
      ensures var taken := Take(DueList(old(Value()), global, now), EffectiveLimit(limit, configured));
        && Progress(Value(), processed, deleted) == ProcessEach(Progress(old(Value()), 0, 0), taken)
        && Swept(old(Value()), Value(), taken)
        && processed == |taken| && deleted == CountDeletes(taken)
      ensures Value() == Histories.Apply(old(Value()),
        Histories.SweepThreads(global, EffectiveLimit(limit, configured), if batchSize < 1 then 1 else batchSize, now))
      ensures stats.totalBefore == old(saver.sizeState.totalBytes)
      ensures stats.deletedBytes == old(saver.sizeState.totalBytes) - saver.sizeState.totalBytes
      ensures stats.deletedItems == old(saver.sizeState.totalCheckpoints) - saver.sizeState.totalCheckpoints
    {
      hide Tracks, Swept, DueList, ProcessEach, Histories.Apply;
      ghost var before := Value();
      var totalBefore := saver.sizeState.totalBytes;
      var effective := EffectiveLimit(limit, configured);
      TakeDue(before, global, effective, now);
      if limit.Some? && limit.value <= 0 {
        assert Take(DueList(before, global, now), effective) == [];
        SweepOutcome(before, []);
        NothingToProcess(Progress(before, 0, 0), []);
        SweepIsEvent(before, global, effective, if batchSize < 1 then 1 else batchSize, now);
        return 0, 0, SweepStats(0, 0, totalBefore);
      }
      var size := if batchSize < 1 then 1 else batchSize;
      SweepIsEvent(before, global, effective, size, now);
      var expired := CollectExpired(global, effective, now);
      var bytes, items;
      processed, deleted, bytes, items := SweepSelected(expired, size);
      stats := SweepStats(items, bytes, totalBefore);
    }

    /** Handles the selected threads and measures what that freed. */
    method SweepSelected(expired: seq<Expired>, size: nat) returns (processed: nat, deleted: nat, bytes: int, items: int)
      requires Valid() && size > 0
      requires UniqueThreads(threads) && DistinctIds(expired) && FromWorld(Value(), expired)
      modifies this, saver, saver.sizeState
      ensures Valid()
      ensures Progress(Value(), processed, deleted) == ProcessEach(Progress(old(Value()), 0, 0), expired)
      ensures Swept(old(Value()), Value(), expired) && processed == |expired| && deleted == CountDeletes(expired)
      ensures bytes == old(saver.sizeState.totalBytes) - saver.sizeState.totalBytes
      ensures items == old(saver.sizeState.totalCheckpoints) - saver.sizeState.totalCheckpoints
    {
      hide Tracks, Swept, ProcessEach, ProcessBatched, Released, UniqueThreads, FromWorld;
      ghost var before := Value();
      ghost var tally := saver.sizeState.Value();
      var sizes := map x | x in expired :: saver.sizeState.ThreadBytes(x.id);
      var counts := map x | x in expired :: saver.sizeState.ThreadCheckpoints(x.id);
      assert forall x :: x in expired ==> x in sizes && x in counts && Totals(sizes[x], counts[x]) == tally.Of(x.id);
      BatchedIsSequential(Progress(before, 0, 0), expired, size);
      SweepOutcome(before, expired);
      processed, deleted := SweepExpired(expired, size);
      SweepAccounts(tally, saver.sizeState.Value(), before, Value(), expired);
      bytes, items := Freed(expired, sizes, counts, tally);
    }

    /** The sweep's loop over batches. */
    method SweepExpired(expired: seq<Expired>, size: nat) returns (processed: nat, deleted: nat)
      requires Valid() && size > 0
      modifies this, saver, saver.sizeState
      ensures Valid()
      ensures Progress(Value(), processed, deleted) == ProcessBatched(Progress(old(Value()), 0, 0), expired, size)
    {
      hide Tracks, ProcessBatch;
      processed, deleted := 0, 0;
      var offset := 0;
      assert expired[0..] == expired;
      while offset < |expired|
        invariant offset <= |expired|
        invariant Valid()
        invariant ProcessBatched(Progress(Value(), processed, deleted), expired[offset..], size)
               == ProcessBatched(Progress(old(Value()), 0, 0), expired, size)
        decreases |expired| - offset
      {
        var next := if offset + size < |expired| then offset + size else |expired|;
        ghost var rest := expired[offset..];
        assert rest[..next - offset] == expired[offset..next];
        assert rest[next - offset..] == expired[next..];
        if next == |expired| { assert expired[offset..next] == rest; }
        processed, deleted := SweepBatch(expired[offset..next], processed, deleted);
        offset := next;
      }
    }

    /** The sums of `max(before - after, 0)` over the swept threads. */
    method Freed(expired: seq<Expired>, sizes: map<Expired, int>, counts: map<Expired, int>, ghost tally: Tally)
      returns (bytes: int, items: int)
      requires forall x :: x in expired ==> x in sizes && x in counts && Totals(sizes[x], counts[x]) == tally.Of(x.id)
      requires forall x :: x in expired ==>
        saver.sizeState.Value().Of(x.id).bytes <= tally.Of(x.id).bytes && saver.sizeState.Value().Of(x.id).count <= tally.Of(x.id).count
      ensures Totals(bytes, items) == Released(tally, saver.sizeState.Value(), expired)
    {
      bytes, items := 0, 0;
      for i := 0 to |expired|
        invariant Totals(bytes, items) == Released(tally, saver.sizeState.Value(), expired[..i])
      {
        var x := expired[i];
        assert x in expired;
        bytes := bytes + Max0(sizes[x] - saver.sizeState.ThreadBytes(x.id));
        items := items + Max0(counts[x] - saver.sizeState.ThreadCheckpoints(x.id));
        assert expired[..i + 1][..i] == expired[..i];
      }
      assert expired[..|expired|] == expired;
    }

    /** `Threads.put`; false stands for the conflict, or the thread handed back as it is. */
    method PutThread(id: ThreadId, ttl: Option<Option<Policy>>, now: Time) returns (created: bool)
      modifies this`threads, this`ttls
      ensures created == !HasThread(old(threads), id)
      ensures Value() == RuntimeState.PutThread(old(Value()), id, ttl, now)
      ensures Value() == Histories.Apply(old(Value()), Histories.CreateThread(id, ttl, now))
    {
      if HasThread(threads, id) { return false; }
      threads := threads + [Thread(id, now, Idle)];
      if ttl.Some? {
        ttls := if ttl.value.None? then ttls - {id} else ttls[id := TtlState(ttl.value, None)];
      }
      return true;
    }

    /** `Threads.copy`. */
    method CopyThread(source: ThreadId, target: ThreadId, now: Time) returns (found: bool)
      requires Valid()
      requires !HasThread(threads, target) && ViewOf(saver.Contents(), target) == NO_ROWS
      modifies this, saver, saver.sizeState
      ensures Valid()
      ensures found == HasThread(old(threads), source)
      ensures Value() == CopyOf(old(Value()), source, target, now)
      ensures Value() == Histories.Apply(old(Value()), Histories.CopyThread(source, target, now))
    {
      hide Tracks, CopyData, ViewOf;
      found := HasThread(threads, source);
      if !found { return; }
      var policy := StateOf(ttls, source).policy;
      threads := threads + [Thread(target, now, Idle)];
      if policy.Some? {
        ttls := ttls[target := TtlState(policy, None)];
      }
      saver.CopyThread(source, target);
    }

    /** `Runs.next`. */
    method NextRuns(now: Time, limit: int) returns (started: seq<Start>)
      modifies this`runs, this`attempts
      ensures Queue(runs, attempts, started) == Next(old(Value()), now, limit)
      ensures Value() == Histories.Apply(old(Value()), Histories.Dispatch(now, limit))
    {
      started := [];
      ghost var start := Queue(runs, attempts, []);
      var window := Window(runs, now, limit);
      for k := 0 to |window|
        invariant |runs| == |start.runs| && Positions(start.runs, window[..k])
        invariant Queue(runs, attempts, started) == StartAll(start, threads, window[..k])
      {
        assert window[..k + 1][..k] == window[..k];
        var i := window[k];
        var run := runs[i];
        if run.status == Pending && HasThread(threads, run.thread) && !RunningOn(runs, run.thread) {
          var attempt := AttemptsOf(attempts, run.id) + 1;
          attempts := attempts[run.id := attempt];
          runs := runs[i := run.(status := Running)];
          started := started + [Start(i, run.id, run.thread, run.createdAt, attempt)];
        }
      }
      assert window[..|window|] == window;
    }

    /** `Runs.put` of a pending run. */
    method PutRun(q: PutRequest) returns (yielded: seq<Run>)
      modifies this`threads, this`runs
      ensures PutResult(Value(), yielded) == RunLifecycle.PutRun(old(Value()), q)
      ensures Value() == Histories.Apply(old(Value()), Histories.Put(q))
    {
      if !q.assistantExists { return []; }
      var existing := if q.thread.Some? then FindThread(threads, q.thread.value) else None;
      var target := q.Target();
      if existing.None? && (q.thread.None? || q.createIfMissing) {
        threads := threads + [Thread(target, q.now, Busy)];
      } else if existing.Some? {
        if threads[existing.value].status != Busy {
          threads := threads[existing.value := threads[existing.value].(status := Busy, updatedAt := q.now)];
        }
      } else {
        return [];
      }
      var inflight := ActiveOn(runs, target);
      if q.preventIfInflight && |inflight| > 0 { return inflight; }
      var run := Run(q.run, target, q.assistant, Pending, q.now + q.after);
      runs := runs + [run];
      yielded := [run] + inflight;
    }

    /** `Runs.delete`; false stands for "not found", when the run's checkpoints are gone all the same. */
    method DeleteRun(run: RunId, thread: ThreadId) returns (found: bool)
      requires Valid()
      modifies this`runs, saver, saver.sizeState
      ensures Valid()
      ensures found == exists i :: 0 <= i < |old(runs)| && IsRun(old(runs)[i], run, thread)
      ensures Value() == RunLifecycle.DeleteRun(old(Value()), run, thread)
      ensures Value() == Histories.Apply(old(Value()), Histories.RemoveOneRun(run, thread))
    {
      hide Tracks, DeleteRunData;
      saver.DeleteRun(thread, run);
      var i := 0;
      while i < |runs| && !IsRun(runs[i], run, thread)
        invariant i <= |runs|
        invariant forall j :: 0 <= j < i ==> !IsRun(runs[j], run, thread)
      {
        i := i + 1;
      }
      found := i < |runs|;
      RemoveRunAt(runs, run, thread, i);
      if found { runs := runs[..i] + runs[i + 1..]; }
    }

    /** `Runs.cancel`; false stands for "nothing to cancel". */
    method CancelRuns(s: Selector, rollback: bool, queues: set<RunId>, now: Time) returns (cancelled: bool)
      requires Valid()
      modifies this`threads, this`runs, saver, saver.sizeState
      ensures Valid()
      ensures cancelled == exists i :: 0 <= i < |old(runs)| && Selects(s, old(runs)[i]) && old(runs)[i].Active()
      ensures Value() == Cancel(old(Value()), s, rollback, queues, now)
      ensures Value() == Histories.Apply(old(Value()), Histories.CancelRuns(s, rollback, queues, now))
    {
      hide Histories.Apply;
      CancelIsEvent(Value(), s, rollback, queues, now);
      hide Tracks, DeleteRuns, InterruptAll, EagerDeletes;
      var deletes;
      deletes, cancelled := InterruptRuns(s, rollback, queues, now);
      ghost var interrupted := Value();
      DeleteRunsNone(interrupted, deletes[..0]);
      for k := 0 to |deletes|
        invariant Valid()
        invariant Value() == DeleteRuns(interrupted, deletes[..k])
      {
        DeleteRunsNext(interrupted, deletes, k);
        var _ := DeleteRun(deletes[k].id, deletes[k].thread);
      }
      assert deletes[..|deletes|] == deletes;
    }

    /** The first pass of `cancel`: interrupts, and collects the runs to delete. */
    method InterruptRuns(s: Selector, rollback: bool, queues: set<RunId>, now: Time)
      returns (deletes: seq<Run>, cancelled: bool)
      modifies this`threads, this`runs
      ensures Value() == InterruptAll(old(Value()), Selecting(s), rollback, queues, now, |old(runs)|)
      ensures deletes == EagerDeletes(old(runs), Selecting(s), rollback, queues)
      ensures cancelled == exists i :: 0 <= i < |old(runs)| && Selects(s, old(runs)[i]) && old(runs)[i].Active()
    {
      hide Selects, SetThread, InterruptAll, EagerDeletes;
      ghost var before := Value();
      InterruptNone(before, Selecting(s), rollback, queues, now);
      var candidates := runs;
      deletes, cancelled := [], false;
      for i := 0 to |candidates|
        invariant candidates == before.runs && |runs| == |candidates|
        invariant Value() == InterruptAll(before, Selecting(s), rollback, queues, now, i)
        invariant deletes == EagerDeletes(candidates[..i], Selecting(s), rollback, queues)
        invariant cancelled == exists j :: 0 <= j < i && Selects(s, candidates[j]) && candidates[j].Active()
      {
        InterruptNext(before, Selecting(s), rollback, queues, now, i);
        var r := candidates[i];
        assert Selecting(s)(r) == Selects(s, r);
        if Selects(s, r) && r.Active() {
          cancelled := true;
          if r.id in queues || !rollback {
            if r.status == Pending { threads := SetThread(threads, r.thread, Idle, now); }
            runs := runs[i := r.(status := Interrupted)];
          } else {
            deletes := deletes + [r];
          }
        }
      }
      assert candidates[..|candidates|] == candidates;
    }

    /** `Threads.set_joint_status`; false stands for "not found". */
    method SetJointStatus(thread: ThreadId, run: RunId, status: JointStatus, hasNext: bool, failed: bool, now: Time) returns (found: bool)
      requires Valid()
      modifies this`threads, this`runs, saver, saver.sizeState
      ensures Valid()
      ensures var r := RunLifecycle.SetJointStatus(old(Value()), thread, run, status, hasNext, failed, now);
        found == r.Some? && Value() == if r.Some? then r.value else old(Value())
      ensures Value() == Histories.Apply(old(Value()), Histories.SetJoint(thread, run, status, hasNext, failed, now))
    {
      hide Histories.Apply;
      JointIsEvent(Value(), thread, run, status, hasNext, failed, now);
      hide Tracks, DeleteRunData;
      found := HasThread(threads, thread) && exists i :: 0 <= i < |runs| && IsRun(runs[i], run, thread);
      if !found { return; }
      var base := if failed then ThreadError else if hasNext then ThreadInterrupted else Idle;
      var final;
      if status.Rollback? {
        var _ := DeleteRun(run, thread);
        final := if |ActiveOn(runs, thread)| > 0 then Busy else base;
      } else {
        runs := SetRunStatusOn(runs, run, thread, status.status);
        final := if status.status == Pending || status.status == Running || |ActiveOn(runs, thread)| > 0 then Busy else base;
      }
      threads := SetThread(threads, thread, final, now);
    }
  }

  // ---- Lemmas for the loops ----------------------------------------------------------------------------

  lemma {:induction false} WithoutAt(threads: seq<Thread>, id: ThreadId, index: nat)
    requires index < |threads| && threads[index].id == id
    requires forall i :: 0 <= i < index ==> threads[i].id != id
    ensures ThreadsWithout(threads, id) == threads[..index] + threads[index + 1..]
  {
    if index > 0 {
      WithoutAt(threads[1..], id, index - 1);
      assert [threads[0]] + threads[1..][..index - 1] == threads[..index];
      assert threads[1..][index..] == threads[index + 1..];
    }
  }

  lemma {:induction false} RemoveRunAt(runs: seq<Run>, run: RunId, thread: ThreadId, index: nat)
    requires index <= |runs|
    requires forall i :: 0 <= i < index ==> !IsRun(runs[i], run, thread)
    requires index < |runs| ==> IsRun(runs[index], run, thread)
    ensures RemoveRun(runs, run, thread) == if index < |runs| then runs[..index] + runs[index + 1..] else runs
  {
    if 0 < index {
      RemoveRunAt(runs[1..], run, thread, index - 1);
      assert runs == [runs[0]] + runs[1..];
      if index < |runs| {
        assert [runs[0]] + runs[1..][..index - 1] == runs[..index];
        assert runs[1..][index..] == runs[index + 1..];
      }
    }
  }

  lemma DeleteRunsNext(w: World, runs: seq<Run>, k: nat)
    requires k < |runs|
    ensures DeleteRuns(w, runs[..k + 1]) == RunLifecycle.DeleteRun(DeleteRuns(w, runs[..k]), runs[k].id, runs[k].thread)
  {
    hide RunLifecycle.DeleteRun;
    assert runs[..k + 1][..k] == runs[..k];
  }

  lemma DeleteRunsNone(w: World, runs: seq<Run>)
    requires |runs| == 0
    ensures DeleteRuns(w, runs) == w
  {
  }

  lemma InterruptNext(w: World, selected: Run -> bool, rollback: bool, queues: set<RunId>, now: Time, n: nat)
    requires n < |w.runs|
    ensures var v, r := InterruptAll(w, selected, rollback, queues, now, n), w.runs[n];
      && InterruptAll(w, selected, rollback, queues, now, n + 1) ==
           (if selected(r) && r.Active() && !DeletedEagerly(r, rollback, queues) then
              v.(threads := if r.status == Pending then SetThread(v.threads, r.thread, Idle, now) else v.threads,
                 runs := v.runs[n := r.(status := Interrupted)])
            else v)
      && EagerDeletes(w.runs[..n + 1], selected, rollback, queues) ==
           EagerDeletes(w.runs[..n], selected, rollback, queues)
             + (if selected(r) && r.Active() && DeletedEagerly(r, rollback, queues) then [r] else [])
  {
    assert w.runs[..n + 1][..n] == w.runs[..n];
  }

  lemma InterruptNone(w: World, selected: Run -> bool, rollback: bool, queues: set<RunId>, now: Time)
    ensures InterruptAll(w, selected, rollback, queues, now, 0) == w
    ensures EagerDeletes(w.runs[..0], selected, rollback, queues) == []
  {
  }

  lemma RemovalIsEvent(w: World, id: ThreadId)
    ensures Histories.Apply(w, Histories.RemoveThread(id)) == RuntimeState.DeleteThread(w, id)
  {
  }

  lemma JointIsEvent(w: World, thread: ThreadId, run: RunId, status: JointStatus, hasNext: bool, failed: bool, now: Time)
    ensures var r := RunLifecycle.SetJointStatus(w, thread, run, status, hasNext, failed, now);
      Histories.Apply(w, Histories.SetJoint(thread, run, status, hasNext, failed, now)) == if r.Some? then r.value else w
  {
    hide RunLifecycle.SetJointStatus;
  }

  lemma CancelIsEvent(w: World, s: Selector, rollback: bool, queues: set<RunId>, now: Time)
    ensures Histories.Apply(w, Histories.CancelRuns(s, rollback, queues, now)) == Cancel(w, s, rollback, queues, now)
  {
    hide Cancel;
  }

  lemma SweepIsEvent(w: World, global: Option<Policy>, limit: Option<nat>, batchSize: nat, now: Time)
    requires batchSize > 0 && UniqueThreads(w.threads)
    ensures Histories.Apply(w, Histories.SweepThreads(global, limit, batchSize, now))
      == ProcessEach(Progress(w, 0, 0), Take(DueList(w, global, now), limit)).world
  {
    hide Sweep, ProcessEach, DueList, Swept;
    SweepResult(w, global, limit, batchSize, now);
  }

  lemma NotFoundUnchanged(w: World, id: ThreadId)
    ensures !HasThread(w.threads, id) ==> RuntimeState.DeleteThread(w, id) == w
  {
  }

  lemma CandidateReadsTtls(a: World, b: World, global: Option<Policy>, now: Time, active: set<ThreadId>, t: Thread)
    requires a.ttls == b.ttls
    ensures Candidate(a, global, now, active, t) == Candidate(b, global, now, active, t)
  {
  }

  /** A copy is a new idle thread, updated now, with the source's rows and policy, and disturbs no
      other thread. */
  lemma CopyIsFaithful(w: World, source: ThreadId, target: ThreadId, now: Time)
    requires HasThread(w.threads, source) && !HasThread(w.threads, target) && target !in w.ttls
    ensures var v := CopyOf(w, source, target, now);
      && v.threads == w.threads + [Thread(target, now, Idle)]
      && v.runs == w.runs && v.crons == w.crons && v.attempts == w.attempts
      && ViewOf(v.data, target) == ViewOf(w.data, source)
      && (forall u :: u != target ==> ViewOf(v.data, u) == ViewOf(w.data, u))
      && StateOf(v.ttls, target) == TtlState(StateOf(w.ttls, source).policy, None)
      && (forall u :: u != target ==> StateOf(v.ttls, u) == StateOf(w.ttls, u))
  {
    hide ViewOf, WithView;
    var v := CopyOf(w, source, target, now);
    forall u ensures ViewOf(v.data, u) == if u == target then ViewOf(w.data, source) else ViewOf(w.data, u) {
      ViewOfWith(w.data, target, ViewOf(w.data, source), u);
    }
  }
}
