/** The whole effect of cancelling and finishing runs, row by row (ops.py). */
module RunEffects {
  import opened Wrappers
  import opened CheckpointModel
  import opened RuntimeState
  import opened RunLifecycle
  import opened RunOutcomes

  // ---- Rows kept -----------------------------------------------------------------------------------------

  function Keep(runs: seq<Run>, keep: Run -> bool): seq<Run> {
    if |runs| == 0 then []
    else (if keep(runs[0]) then [runs[0]] else []) + Keep(runs[1..], keep)
  }

  lemma {:induction false} KeepAll(runs: seq<Run>, keep: Run -> bool)
    requires forall r :: r in runs ==> keep(r)
    ensures Keep(runs, keep) == runs
  {
    if |runs| > 0 {
      assert runs[0] in runs && forall r :: r in runs[1..] ==> r in runs;
      KeepAll(runs[1..], keep);
    }
  }

  lemma {:induction false} KeepKeep(runs: seq<Run>, a: Run -> bool, b: Run -> bool, both: Run -> bool)
    requires forall r :: both(r) <==> a(r) && b(r)
    ensures Keep(Keep(runs, a), b) == Keep(runs, both)
  {
    if |runs| > 0 {
      KeepKeep(runs[1..], a, b, both);
      var rest := Keep(runs[1..], a);
      if a(runs[0]) { assert ([runs[0]] + rest)[1..] == rest && ([runs[0]] + rest)[0] == runs[0]; } else { assert [] + rest == rest; }
    }
  }

  /** Where ids are distinct, deleting a run takes out exactly the rows with its id and thread. */
  lemma {:induction false} RemoveRunKeeps(runs: seq<Run>, id: RunId, thread: ThreadId)
    requires DistinctRuns(runs)
    ensures RemoveRun(runs, id, thread) == Keep(runs, (r: Run) => !(r.id == id && r.thread == thread))
  {
    if |runs| > 0 {
      var others := (r: Run) => !(r.id == id && r.thread == thread);
      if IsRun(runs[0], id, thread) {
        forall r | r in runs[1..] ensures others(r) {
          var i :| 0 <= i < |runs[1..]| && runs[1..][i] == r;
          assert runs[i + 1] == r;
        }
        KeepAll(runs[1..], others);
      } else {
        RemoveRunKeeps(runs[1..], id, thread);
      }
    }
  }

  ghost predicate Listed(gone: seq<Run>, r: Run) {
    exists g :: g in gone && r.id == g.id && r.thread == g.thread
  }

  lemma {:induction false} DeleteRunsKeeps(w: World, gone: seq<Run>)
    requires DistinctRuns(w.runs)
    ensures DeleteRuns(w, gone).runs == Keep(w.runs, (r: Run) => !Listed(gone, r)) && DistinctRuns(DeleteRuns(w, gone).runs)
  {
    hide DeleteRunData, DistinctRuns, Keep;
    if |gone| == 0 {
      KeepAll(w.runs, (r: Run) => !Listed(gone, r));
    } else {
      var n := |gone| - 1;
      var init, g := gone[..n], gone[n];
      assert gone == init + [g];
      var runs := DeleteRuns(w, init).runs;
      DeleteRunsKeeps(w, init);
      RemoveRunKeeps(runs, g.id, g.thread);
      RemoveRunMembers(runs, g.id, g.thread);
      var a, b := (r: Run) => !Listed(init, r), (r: Run) => !(r.id == g.id && r.thread == g.thread);
      var both := (r: Run) => !Listed(gone, r);
      forall r ensures both(r) <==> a(r) && b(r) { ListedSnoc(init, g, r); }
      KeepKeep(w.runs, a, b, both);
    }
  }

  lemma ListedSnoc(init: seq<Run>, g: Run, r: Run)
    ensures Listed(init + [g], r) <==> Listed(init, r) || (r.id == g.id && r.thread == g.thread)
  {
    assert g in init + [g];
    assert forall x :: x in init ==> x in init + [g];
  }

  // ---- Runs.cancel ----------------------------------------------------------------------------------------

  /** Cancelled rows: a run that is hit is interrupted, or gone if it is rolled back and nobody
      listens to it; every other run stays as it is, and the order is kept. */
  function Cancelled(runs: seq<Run>, hit: Run -> bool, rollback: bool, queues: set<RunId>): seq<Run> {
    if |runs| == 0 then []
    else
      (if !hit(runs[0]) then [runs[0]]
       else if rollback && runs[0].id !in queues then []
       else [runs[0].(status := Interrupted)])
        + Cancelled(runs[1..], hit, rollback, queues)
  }

  lemma StoppedKey(s: Selector, rollback: bool, queues: set<RunId>, r: Run)
    ensures Stopped(s, rollback, queues, r).id == r.id && Stopped(s, rollback, queues, r).thread == r.thread
  {
  }

  ghost predicate HitsActive(s: Selector, hit: Run -> bool) {
    forall r :: hit(r) <==> Selects(s, r) && (r.status == Pending || r.status == Running)
  }

  lemma StoppedOrRolled(s: Selector, hit: Run -> bool, rollback: bool, queues: set<RunId>, r: Run)
    requires HitsActive(s, hit)
    ensures Rolled(s, rollback, queues, r) <==> hit(r) && rollback && r.id !in queues
    ensures Stopped(s, rollback, queues, r) == if hit(r) && !(rollback && r.id !in queues) then r.(status := Interrupted) else r
  {
    assert hit(r) <==> Selects(s, r) && (r.status == Pending || r.status == Running);
  }

  lemma {:induction false} KeepStopped(s: Selector, hit: Run -> bool, rollback: bool, queues: set<RunId>, runs: seq<Run>, keep: Run -> bool)
    requires HitsActive(s, hit)
    requires forall r :: r in runs ==> keep(Stopped(s, rollback, queues, r)) == !Rolled(s, rollback, queues, r)
    ensures Keep(StopAll(s, rollback, queues, runs), keep) == Cancelled(runs, hit, rollback, queues)
  {
    hide HitsActive, Stopped, Rolled, StopAll;
    if |runs| == 0 {
      assert runs == [];
      NothingStopped(s, rollback, queues);
    } else {
      var r, rest := runs[0], runs[1..];
      assert r in runs && forall x :: x in rest ==> x in runs;
      KeepStopped(s, hit, rollback, queues, rest, keep);
      StopFirst(s, rollback, queues, r, rest);
      StoppedOrRolled(s, hit, rollback, queues, r);
      assert runs == [r] + rest;
      var first, others := Stopped(s, rollback, queues, r), StopAll(s, rollback, queues, rest);
      assert ([first] + others)[1..] == others && ([first] + others)[0] == first;
    }
  }

  lemma CancelIs(w: World, s: Selector, hit: Run -> bool, rollback: bool, queues: set<RunId>, now: Time)
    requires DistinctRuns(w.runs) && HitsActive(s, hit)
    ensures Cancel(w, s, rollback, queues, now).runs == Cancelled(w.runs, hit, rollback, queues)
  {
    hide HitsActive, InterruptAll, DeleteRuns, EagerDeletes, Keep, Cancelled, StopAll;
    var v := InterruptAll(w, Selecting(s), rollback, queues, now, |w.runs|);
    var gone := EagerDeletes(w.runs, Selecting(s), rollback, queues);
    InterruptStopsAll(w, s, rollback, queues, now);
    InterruptKeepsDistinct(w, Selecting(s), rollback, queues, now);
    DeleteRunsKeeps(v, gone);
    var keep := (r: Run) => !Listed(gone, r);
    forall r | r in w.runs ensures keep(Stopped(s, rollback, queues, r)) == !Rolled(s, rollback, queues, r) {
      var i :| 0 <= i < |w.runs| && w.runs[i] == r;
      EagerDeletesMembers(w.runs, Selecting(s), rollback, queues);
      GoneIsSelf(w.runs, gone, i);
      StoppedKey(s, rollback, queues, r);
      hide Stopped, DistinctRuns;
    }
    KeepStopped(s, hit, rollback, queues, w.runs, keep);
  }

  /** Cancelling by status: exactly the runs of the named statuses are hit. */
  lemma CancelByStatus(w: World, pending: bool, running: bool, rollback: bool, queues: set<RunId>, now: Time)
    requires DistinctRuns(w.runs)
    ensures Cancel(w, ByStatus(pending, running), rollback, queues, now).runs
      == Cancelled(w.runs, (r: Run) => (pending && r.status == Pending) || (running && r.status == Running), rollback, queues)
  {
    CancelIs(w, ByStatus(pending, running), (r: Run) => (pending && r.status == Pending) || (running && r.status == Running), rollback, queues, now);
  }

  /** By ids: exactly the pending and running runs with one of the ids on the thread. */
  lemma CancelByIds(w: World, thread: ThreadId, ids: set<RunId>, rollback: bool, queues: set<RunId>, now: Time)
    requires DistinctRuns(w.runs)
    ensures Cancel(w, ByIds(thread, ids), rollback, queues, now).runs
      == Cancelled(w.runs, (r: Run) => r.thread == thread && r.id in ids && (r.status == Pending || r.status == Running), rollback, queues)
  {
    CancelIs(w, ByIds(thread, ids), (r: Run) => r.thread == thread && r.id in ids && (r.status == Pending || r.status == Running), rollback, queues, now);
  }

  /** By assistant: exactly the assistant's pending and running runs. */
  lemma CancelByAssistant(w: World, assistant: AssistantId, rollback: bool, queues: set<RunId>, now: Time)
    requires DistinctRuns(w.runs)
    ensures Cancel(w, ByAssistant(assistant), rollback, queues, now).runs
      == Cancelled(w.runs, (r: Run) => r.assistant == assistant && (r.status == Pending || r.status == Running), rollback, queues)
  {
    CancelIs(w, ByAssistant(assistant), (r: Run) => r.assistant == assistant && (r.status == Pending || r.status == Running), rollback, queues, now);
  }

  /** The rows left by a cancellation, one by one. */
  lemma {:induction false} CancelledMembers(runs: seq<Run>, hit: Run -> bool, rollback: bool, queues: set<RunId>)
    ensures forall q :: q in Cancelled(runs, hit, rollback, queues) <==>
      exists r :: r in runs && !(hit(r) && rollback && r.id !in queues) && q == if hit(r) then r.(status := Interrupted) else r
  {
    if |runs| > 0 {
      CancelledMembers(runs[1..], hit, rollback, queues);
      assert forall r :: r in runs <==> r == runs[0] || r in runs[1..];
    }
  }

  // ---- The threads and checkpoints of cancelled runs -----------------------------------------------------

  /** Some pending run of the thread is hit and not rolled back. */
  ghost predicate LosesPending(runs: seq<Run>, hit: Run -> bool, rollback: bool, queues: set<RunId>, thread: ThreadId) {
    exists r :: r in runs && hit(r) && r.status == Pending && !(rollback && r.id !in queues) && r.thread == thread
  }

  lemma SetThreadAt(threads: seq<Thread>, id: ThreadId, status: ThreadStatus, at: Time, i: nat)
    requires UniqueThreads(threads) && i < |threads|
    ensures |SetThread(threads, id, status, at)| == |threads|
    ensures SetThread(threads, id, status, at)[i] == if threads[i].id == id then threads[i].(status := status, updatedAt := at) else threads[i]
  {
    var found := FindThread(threads, id);
    if threads[i].id == id { assert HasThread(threads, id); }
  }

  lemma {:induction false} InterruptThreadAt(w: World, s: Selector, hit: Run -> bool, rollback: bool, queues: set<RunId>, now: Time, n: nat, i: nat)
    requires UniqueThreads(w.threads) && HitsActive(s, hit) && n <= |w.runs| && i < |w.threads|
    ensures var after := InterruptAll(w, Selecting(s), rollback, queues, now, n).threads; var t := w.threads[i];
      && UniqueThreads(after) && after[i].id == t.id
      && after[i] == if LosesPending(w.runs[..n], hit, rollback, queues, t.id) then t.(status := Idle, updatedAt := now) else t
  {
    hide HitsActive, SetThread;
    if n > 0 {
      InterruptThreadAt(w, s, hit, rollback, queues, now, n - 1, i);
      var before := InterruptAll(w, Selecting(s), rollback, queues, now, n - 1).threads;
      var r := w.runs[n - 1];
      assert w.runs[..n] == w.runs[..n - 1] + [r];
      StoppedOrRolled(s, hit, rollback, queues, r);
      HitIsSelected(s, hit, r);
      SetThreadAt(before, r.thread, Idle, now, i);
      LosesNext(w.runs[..n - 1], r, hit, rollback, queues, w.threads[i].id);
      hide LosesPending;
    }
  }

  lemma HitIsSelected(s: Selector, hit: Run -> bool, r: Run)
    requires HitsActive(s, hit)
    ensures hit(r) <==> Selects(s, r) && r.Active()
  {
  }

  lemma LosesNext(runs: seq<Run>, r: Run, hit: Run -> bool, rollback: bool, queues: set<RunId>, thread: ThreadId)
    ensures LosesPending(runs + [r], hit, rollback, queues, thread) <==>
      LosesPending(runs, hit, rollback, queues, thread)
      || (hit(r) && r.status == Pending && !(rollback && r.id !in queues) && r.thread == thread)
  {
    assert r in runs + [r];
    assert forall x :: x in runs ==> x in runs + [r];
  }

  /** A cancellation sets exactly the threads idle that lose a pending run to an interruption. */
  lemma CancelThreadsAre(w: World, s: Selector, hit: Run -> bool, rollback: bool, queues: set<RunId>, now: Time, i: nat)
    requires UniqueThreads(w.threads) && HitsActive(s, hit) && i < |w.threads|
    ensures var v := Cancel(w, s, rollback, queues, now); var t := w.threads[i];
      && |v.threads| == |w.threads| && v.crons == w.crons && v.ttls == w.ttls && v.attempts == w.attempts
      && v.threads[i] == if LosesPending(w.runs, hit, rollback, queues, t.id) then t.(status := Idle, updatedAt := now) else t
  {
    hide InterruptAll, DeleteRuns, EagerDeletes, HitsActive;
    InterruptThreadAt(w, s, hit, rollback, queues, now, |w.runs|, i);
    assert w.runs[..|w.runs|] == w.runs;
    InterruptLists(w, Selecting(s), rollback, queues, now, |w.runs|);
    DeleteRunsLists(InterruptAll(w, Selecting(s), rollback, queues, now, |w.runs|), EagerDeletes(w.runs, Selecting(s), rollback, queues));
  }

  lemma {:induction false} InterruptLists(w: World, selected: Run -> bool, rollback: bool, queues: set<RunId>, now: Time, n: nat)
    requires n <= |w.runs|
    ensures var v := InterruptAll(w, selected, rollback, queues, now, n);
      v.crons == w.crons && v.ttls == w.ttls && v.attempts == w.attempts && v.data == w.data && |v.threads| == |w.threads|
  {
    hide SetThread;
    if n > 0 { InterruptLists(w, selected, rollback, queues, now, n - 1); }
  }

  lemma {:induction false} DeleteRunsLists(w: World, gone: seq<Run>)
    ensures var v := DeleteRuns(w, gone); v.threads == w.threads && v.crons == w.crons && v.ttls == w.ttls && v.attempts == w.attempts
  {
    hide DeleteRunData;
    if |gone| > 0 { DeleteRunsLists(w, gone[..|gone| - 1]); }
  }

  lemma CancelByStatusThreads(w: World, pending: bool, running: bool, rollback: bool, queues: set<RunId>, now: Time, i: nat)
    requires UniqueThreads(w.threads) && i < |w.threads|
    ensures var v := Cancel(w, ByStatus(pending, running), rollback, queues, now); var t := w.threads[i];
      |v.threads| == |w.threads| && v.threads[i] ==
        if pending && (exists r :: r in w.runs && r.status == Pending && !(rollback && r.id !in queues) && r.thread == t.id)
        then t.(status := Idle, updatedAt := now) else t
  {
    CancelThreadsAre(w, ByStatus(pending, running), (r: Run) => (pending && r.status == Pending) || (running && r.status == Running), rollback, queues, now, i);
  }

  lemma CancelByIdsThreads(w: World, thread: ThreadId, ids: set<RunId>, rollback: bool, queues: set<RunId>, now: Time, i: nat)
    requires UniqueThreads(w.threads) && i < |w.threads|
    ensures var v := Cancel(w, ByIds(thread, ids), rollback, queues, now); var t := w.threads[i];
      |v.threads| == |w.threads| && v.threads[i] ==
        if t.id == thread && (exists r :: r in w.runs && r.id in ids && r.status == Pending && !(rollback && r.id !in queues) && r.thread == thread)
        then t.(status := Idle, updatedAt := now) else t
  {
    CancelThreadsAre(w, ByIds(thread, ids), (r: Run) => r.thread == thread && r.id in ids && (r.status == Pending || r.status == Running), rollback, queues, now, i);
  }

  lemma CancelByAssistantThreads(w: World, assistant: AssistantId, rollback: bool, queues: set<RunId>, now: Time, i: nat)
    requires UniqueThreads(w.threads) && i < |w.threads|
    ensures var v := Cancel(w, ByAssistant(assistant), rollback, queues, now); var t := w.threads[i];
      |v.threads| == |w.threads| && v.threads[i] ==
        if (exists r :: r in w.runs && r.assistant == assistant && r.status == Pending && !(rollback && r.id !in queues) && r.thread == t.id)
        then t.(status := Idle, updatedAt := now) else t
  {
    CancelThreadsAre(w, ByAssistant(assistant), (r: Run) => r.assistant == assistant && (r.status == Pending || r.status == Running), rollback, queues, now, i);
  }

  /** A checkpoint of the thread was written by a run that is hit and rolled back. */
  ghost predicate RolledCheckpoint(gone: seq<Run>, thread: ThreadId, entry: Entry) {
    exists g :: g in gone && g.thread == thread && entry.metadata.value == Some(g.id)
  }

  /** Deleting runs deletes exactly the checkpoints they wrote on their threads; writes and blobs stay. */
  lemma {:induction false} DeleteRunsCheckpoints(w: World, gone: seq<Run>, t: ThreadId, ns: Namespace)
    ensures var before, after := ViewOf(w.data, t), ViewOf(DeleteRuns(w, gone).data, t);
      && SpaceIn(after, ns) == (map id | id in SpaceIn(before, ns) && !RolledCheckpoint(gone, t, SpaceIn(before, ns)[id]) :: SpaceIn(before, ns)[id])
      && after.writes == before.writes && after.blobs == before.blobs
  {
    hide ViewOf, WithView, SpaceIn;
    if |gone| > 0 {
      var n := |gone| - 1;
      var g := gone[n];
      var v := DeleteRuns(w, gone[..n]);
      DeleteRunsCheckpoints(w, gone[..n], t, ns);
      ViewOfWith(v.data, g.thread, DeleteRunView(ViewOf(v.data, g.thread), g.id), t);
      SpaceWithout(ViewOf(v.data, t), ns, g.id);
      assert gone == gone[..n] + [g];
      forall entry ensures RolledCheckpoint(gone, t, entry) <==> RolledCheckpoint(gone[..n], t, entry) || (g.thread == t && entry.metadata.value == Some(g.id)) {
        RolledNext(gone[..n], g, t, entry);
      }
    }
  }

  lemma RolledNext(init: seq<Run>, g: Run, t: ThreadId, entry: Entry)
    ensures RolledCheckpoint(init + [g], t, entry) <==> RolledCheckpoint(init, t, entry) || (g.thread == t && entry.metadata.value == Some(g.id))
  {
    assert g in init + [g];
    assert forall x :: x in init ==> x in init + [g];
  }

  lemma SpaceWithout(v: View, ns: Namespace, run: RunId)
    ensures SpaceIn(DeleteRunView(v, run), ns) == map id | id in SpaceIn(v, ns) && SpaceIn(v, ns)[id].metadata.value != Some(run) :: SpaceIn(v, ns)[id]
    ensures DeleteRunView(v, run).writes == v.writes && DeleteRunView(v, run).blobs == v.blobs
  {
  }

  /** A cancellation deletes exactly the checkpoints of the runs it rolls back. */
  lemma CancelCheckpoints(w: World, s: Selector, hit: Run -> bool, rollback: bool, queues: set<RunId>, now: Time, t: ThreadId, ns: Namespace)
    requires HitsActive(s, hit)
    ensures var before, after := ViewOf(w.data, t), ViewOf(Cancel(w, s, rollback, queues, now).data, t);
      && (forall id :: id in SpaceIn(after, ns) <==>
            id in SpaceIn(before, ns)
            && !exists r :: r in w.runs && hit(r) && rollback && r.id !in queues && r.thread == t && SpaceIn(before, ns)[id].metadata.value == Some(r.id))
      && (forall id :: id in SpaceIn(after, ns) ==> SpaceIn(after, ns)[id] == SpaceIn(before, ns)[id])
      && after.writes == before.writes && after.blobs == before.blobs
  {
    hide InterruptAll, DeleteRuns, HitsActive, ViewOf, SpaceIn, EagerDeletes, Selecting;
    var v := InterruptAll(w, Selecting(s), rollback, queues, now, |w.runs|);
    var gone := EagerDeletes(w.runs, Selecting(s), rollback, queues);
    InterruptLists(w, Selecting(s), rollback, queues, now, |w.runs|);
    DeleteRunsCheckpoints(v, gone, t, ns);
    forall r ensures r in gone <==> r in w.runs && hit(r) && rollback && r.id !in queues {
      GoneAreHit(w.runs, s, hit, rollback, queues, r);
    }
    hide RolledCheckpoint;
    forall entry ensures RolledCheckpoint(gone, t, entry) <==>
      exists r :: r in w.runs && hit(r) && rollback && r.id !in queues && r.thread == t && entry.metadata.value == Some(r.id) {
      RolledIs(gone, t, entry);
    }
  }

  lemma RolledIs(gone: seq<Run>, t: ThreadId, entry: Entry)
    ensures RolledCheckpoint(gone, t, entry) <==> exists g :: g in gone && g.thread == t && entry.metadata.value == Some(g.id)
  {
  }

  lemma GoneAreHit(runs: seq<Run>, s: Selector, hit: Run -> bool, rollback: bool, queues: set<RunId>, r: Run)
    requires HitsActive(s, hit)
    ensures r in EagerDeletes(runs, Selecting(s), rollback, queues) <==> r in runs && hit(r) && rollback && r.id !in queues
  {
    EagerDeletesMembers(runs, Selecting(s), rollback, queues);
    StoppedOrRolled(s, hit, rollback, queues, r);
    hide EagerDeletes, HitsActive;
  }

  // ---- Threads.set_joint_status, Threads.set_status -----------------------------------------------------------

  /** The status a thread gets when a run on it has come to an end: busy while others are pending or
      running, otherwise as the end was. */
  ghost function EndStatus(runs: seq<Run>, thread: ThreadId, hasNext: bool, failed: bool): ThreadStatus {
    if exists r :: r in runs && r.thread == thread && (r.status == Pending || r.status == Running) then Busy
    else if failed then ThreadError
    else if hasNext then ThreadInterrupted
    else Idle
  }

  /** Only this thread's row is touched: its status, and its `updated_at`, which becomes `now`. */
  ghost predicate ThreadEnded(before: seq<Thread>, after: seq<Thread>, thread: ThreadId, status: ThreadStatus, now: Time) {
    |after| == |before| && forall i :: 0 <= i < |before| ==>
      after[i] == if before[i].id == thread then before[i].(status := status, updatedAt := now) else before[i]
  }

  lemma SetThreadEnds(threads: seq<Thread>, thread: ThreadId, status: ThreadStatus, now: Time)
    requires UniqueThreads(threads)
    ensures ThreadEnded(threads, SetThread(threads, thread, status, now), thread, status, now)
  {
    forall i | 0 <= i < |threads|
      ensures SetThread(threads, thread, status, now)[i] == if threads[i].id == thread then threads[i].(status := status, updatedAt := now) else threads[i]
    {
      SetThreadAt(threads, thread, status, now, i);
    }
  }

  lemma {:induction false} StatusSetAt(runs: seq<Run>, run: RunId, thread: ThreadId, status: RunStatus, i: nat)
    requires DistinctRuns(runs) && i < |runs|
    ensures |SetRunStatusOn(runs, run, thread, status)| == |runs|
    ensures SetRunStatusOn(runs, run, thread, status)[i] == if runs[i].id == run && runs[i].thread == thread then runs[i].(status := status) else runs[i]
  {
    if IsRun(runs[0], run, thread) {
      if i > 0 { assert !IsRun(runs[i], run, thread); }
    } else {
      if |runs| > 1 { StatusSetAt(runs[1..], run, thread, status, if i > 0 then i - 1 else 0); }
    }
  }

  lemma ActiveOnLiteral(runs: seq<Run>, thread: ThreadId)
    ensures |ActiveOn(runs, thread)| > 0 <==> exists r :: r in runs && r.thread == thread && (r.status == Pending || r.status == Running)
  {
    ActiveOnMembers(runs, thread);
    NonEmptyHasMember(ActiveOn(runs, thread));
  }

  /** The whole joint update: refused exactly when the thread or the run is missing; otherwise the
      run has the status, or is gone with its checkpoints, the thread has ended accordingly, and
      nothing else changes. */
  lemma JointOutcome(w: World, thread: ThreadId, run: RunId, status: JointStatus, hasNext: bool, failed: bool, now: Time)
    requires UniqueThreads(w.threads) && DistinctRuns(w.runs)
    ensures var r := SetJointStatus(w, thread, run, status, hasNext, failed, now);
      && (r.Some? <==> (exists t :: t in w.threads && t.id == thread) && (exists q :: q in w.runs && q.id == run && q.thread == thread))
      && (r.Some? ==>
            var v := r.value;
            && ThreadEnded(w.threads, v.threads, thread, EndStatus(v.runs, thread, hasNext, failed), now)
            && v.crons == w.crons && v.ttls == w.ttls && v.attempts == w.attempts
            && match status
               case To(s) =>
                 && v.data == w.data && |v.runs| == |w.runs|
                 && forall i :: 0 <= i < |w.runs| ==>
                      v.runs[i] == if w.runs[i].id == run && w.runs[i].thread == thread then w.runs[i].(status := s) else w.runs[i]
               case Rollback =>
                 && v.data == DeleteRunData(w.data, thread, run)
                 && v.runs == Keep(w.runs, (q: Run) => !(q.id == run && q.thread == thread)))
  {
    hide DeleteRunData, SetThread, Keep, IsRun;
    RowsByPosition(w, thread, run);
    if SetJointStatus(w, thread, run, status, hasNext, failed, now).Some? {
      if status.To? {
        JointTo(w, thread, run, status.status, hasNext, failed, now);
      } else {
        RemoveRunKeeps(w.runs, run, thread);
        var runs := RemoveRun(w.runs, run, thread);
        ActiveOnLiteral(runs, thread);
        SetThreadEnds(w.threads, thread, EndStatus(runs, thread, hasNext, failed), now);
        hide ThreadEnded, ActiveOn;
      }
    }
  }

  lemma JointTo(w: World, thread: ThreadId, run: RunId, status: RunStatus, hasNext: bool, failed: bool, now: Time)
    requires UniqueThreads(w.threads) && DistinctRuns(w.runs)
    requires SetJointStatus(w, thread, run, To(status), hasNext, failed, now).Some?
    ensures var v := SetJointStatus(w, thread, run, To(status), hasNext, failed, now).value;
      && ThreadEnded(w.threads, v.threads, thread, EndStatus(v.runs, thread, hasNext, failed), now)
      && |v.runs| == |w.runs|
      && forall i :: 0 <= i < |w.runs| ==>
           v.runs[i] == if w.runs[i].id == run && w.runs[i].thread == thread then w.runs[i].(status := status) else w.runs[i]
  {
    hide SetThread, ThreadEnded, ActiveOn;
    var runs := SetRunStatusOn(w.runs, run, thread, status);
    StatusIsSet(w.runs, run, thread, status);
    ActiveOnLiteral(runs, thread);
    SetThreadEnds(w.threads, thread, EndStatus(runs, thread, hasNext, failed), now);
    forall i | 0 <= i < |w.runs| ensures |runs| == |w.runs| && runs[i] == if w.runs[i].id == run && w.runs[i].thread == thread then w.runs[i].(status := status) else w.runs[i] {
      StatusSetAt(w.runs, run, thread, status, i);
    }
    hide SetRunStatusOn, DistinctRuns, UniqueThreads;
  }

  lemma RowsByPosition(w: World, thread: ThreadId, run: RunId)
    ensures HasThread(w.threads, thread) <==> exists t :: t in w.threads && t.id == thread
    ensures (exists i :: 0 <= i < |w.runs| && IsRun(w.runs[i], run, thread)) <==> exists q :: q in w.runs && q.id == run && q.thread == thread
  {
    if HasThread(w.threads, thread) {
      var i :| 0 <= i < |w.threads| && w.threads[i].id == thread;
      assert w.threads[i] in w.threads;
    }
    if exists i :: 0 <= i < |w.runs| && IsRun(w.runs[i], run, thread) {
      var i :| 0 <= i < |w.runs| && IsRun(w.runs[i], run, thread);
      assert w.runs[i] in w.runs;
    }
  }

  /** The whole update of a thread's status. */
  lemma ThreadStatusOutcome(w: World, thread: ThreadId, hasNext: bool, failed: bool, now: Time)
    requires UniqueThreads(w.threads)
    ensures var r := SetThreadStatus(w, thread, hasNext, failed, now);
      && (r.Some? <==> exists t :: t in w.threads && t.id == thread)
      && (r.Some? ==>
            && r.value == w.(threads := r.value.threads)
            && ThreadEnded(w.threads, r.value.threads, thread, EndStatus(w.runs, thread, hasNext, failed), now))
  {
    hide SetThread;
    RowsByPosition(w, thread, "");
    ActiveOnLiteral(w.runs, thread);
    SetThreadEnds(w.threads, thread, EndStatus(w.runs, thread, hasNext, failed), now);
  }

  // ---- Crons.put, Crons.delete ----------------------------------------------------------------------------------

  /** A cron is added at the end if its id is new and the thread it is bound to, if any, is there;
      otherwise nothing changes. */
  lemma PutCronOutcome(w: World, cron: Cron)
    ensures var known := exists c :: c in w.crons && c.id == cron.id;
      var bound := cron.thread.Some? ==> exists t :: t in w.threads && t.id == cron.thread.value;
      PutCron(w, cron) == if bound && !known then w.(crons := w.crons + [cron]) else w
  {
    if cron.thread.Some? { RowsByPosition(w, cron.thread.value, ""); }
    if exists i :: 0 <= i < |w.crons| && w.crons[i].id == cron.id {
      var i :| 0 <= i < |w.crons| && w.crons[i].id == cron.id;
      assert w.crons[i] in w.crons;
    }
  }
}
