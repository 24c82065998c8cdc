/** The dispatcher over whole runs: at most one running run per thread, no dangling references,
    attempt numbers 1, 2, 3, ..., and progress (ops.py, database.py). */
module DispatchRuns {
  import opened Wrappers
  import opened CheckpointModel
  import opened RuntimeState
  import opened Dispatch
  import opened RunLifecycle
  import opened ThreadTtl
  import opened ThreadSweeps

  // ---- Counting -------------------------------------------------------------------------------------

  function One(b: bool): nat { if b then 1 else 0 }

  function RunningCount(runs: seq<Run>, t: ThreadId): nat {
    if |runs| == 0 then 0
    else RunningCount(runs[..|runs| - 1], t) + One(runs[|runs| - 1].status == Running && runs[|runs| - 1].thread == t)
  }

  /** At most one running run per thread. */
  ghost predicate Exclusive(runs: seq<Run>) {
    forall t :: RunningCount(runs, t) <= 1
  }

  lemma {:induction false} RunningCountPositive(runs: seq<Run>, t: ThreadId)
    ensures RunningCount(runs, t) > 0 <==> RunningOn(runs, t)
  {
    if |runs| > 0 {
      var n := |runs| - 1;
      RunningCountPositive(runs[..n], t);
      if RunningOn(runs, t) {
        var i :| 0 <= i < |runs| && runs[i].status == Running && runs[i].thread == t;
        if i < n { assert runs[..n][i].status == Running; }
      }
      if RunningOn(runs[..n], t) {
        var i :| 0 <= i < n && runs[..n][i].status == Running && runs[..n][i].thread == t;
        assert runs[i].status == Running;
      }
      if RunningCount(runs, t) > 0 && !RunningOn(runs[..n], t) { assert runs[n].status == Running; }
    }
  }

  lemma {:induction false} RunningCountUpdate(runs: seq<Run>, i: nat, r: Run, t: ThreadId)
    requires i < |runs|
    ensures RunningCount(runs[i := r], t) ==
      RunningCount(runs, t) - One(runs[i].status == Running && runs[i].thread == t) + One(r.status == Running && r.thread == t)
  {
    var n := |runs| - 1;
    if i == n {
      assert runs[i := r][..n] == runs[..n];
    } else {
      RunningCountUpdate(runs[..n], i, r, t);
      assert runs[i := r][..n] == runs[..n][i := r];
    }
  }

  lemma {:induction false} RunningCountConcat(a: seq<Run>, b: seq<Run>, t: ThreadId)
    ensures RunningCount(a + b, t) == RunningCount(a, t) + RunningCount(b, t)
  {
    if |b| == 0 {
      assert a + b == a;
    } else {
      assert (a + b)[..|a + b| - 1] == a + b[..|b| - 1];
      RunningCountConcat(a, b[..|b| - 1], t);
    }
  }

  lemma RunningCountHead(runs: seq<Run>, t: ThreadId)
    requires |runs| > 0
    ensures RunningCount(runs, t) == One(runs[0].status == Running && runs[0].thread == t) + RunningCount(runs[1..], t)
  {
    RunningCountConcat([runs[0]], runs[1..], t);
    assert runs == [runs[0]] + runs[1..];
    assert [runs[0]][..0] == [];
  }

  /** What `Exclusive` says about two positions. */
  lemma ExclusiveMeaning(runs: seq<Run>, i: nat, j: nat)
    requires Exclusive(runs) && i < j < |runs|
    requires runs[i].status == Running && runs[j].status == Running
    ensures runs[i].thread != runs[j].thread
  {
    var t := runs[j].thread;
    if runs[i].thread == t {
      assert runs == runs[..j] + runs[j..];
      RunningCountConcat(runs[..j], runs[j..], t);
      assert runs[..j][i].status == Running && runs[j..][0].status == Running;
      RunningCountPositive(runs[..j], t);
      RunningCountPositive(runs[j..], t);
      assert false;
    }
  }

  // ---- Each operation keeps threads exclusive --------------------------------------------------------

  /** Nothing becomes running. */
  ghost predicate NoNewRunning(before: seq<Run>, after: seq<Run>) {
    forall t :: RunningCount(after, t) <= RunningCount(before, t)
  }

  lemma NoNewRunningKeepsExclusive(before: seq<Run>, after: seq<Run>)
    requires Exclusive(before) && NoNewRunning(before, after)
    ensures Exclusive(after)
  {
    forall t ensures RunningCount(after, t) <= 1 { assert RunningCount(before, t) <= 1; }
  }

  lemma TryStartExclusive(q: Queue, threads: seq<Thread>, i: nat)
    requires i < |q.runs| && Exclusive(q.runs)
    ensures Exclusive(TryStart(q, threads, i).runs)
  {
    forall t ensures RunningCount(TryStart(q, threads, i).runs, t) <= 1 {
      assert RunningCount(q.runs, t) <= 1;
      RunningCountPositive(q.runs, t);
      RunningCountUpdate(q.runs, i, q.runs[i].(status := Running), t);
    }
  }

  lemma {:induction false} StartAllExclusive(q: Queue, threads: seq<Thread>, window: seq<nat>)
    requires Positions(q.runs, window) && Exclusive(q.runs)
    ensures Exclusive(StartAll(q, threads, window).runs)
  {
    if |window| > 0 {
      var n := |window| - 1;
      StartAllExclusive(q, threads, window[..n]);
      TryStartExclusive(StartAll(q, threads, window[..n]), threads, window[n]);
    }
  }

  lemma {:induction false} RemoveRunStarts(runs: seq<Run>, run: RunId, thread: ThreadId)
    ensures NoNewRunning(runs, RemoveRun(runs, run, thread))
    ensures forall r :: r in RemoveRun(runs, run, thread) ==> r in runs
  {
    if |runs| > 0 {
      RemoveRunStarts(runs[1..], run, thread);
      forall t ensures RunningCount(RemoveRun(runs, run, thread), t) <= RunningCount(runs, t) {
        RunningCountHead(runs, t);
        if !IsRun(runs[0], run, thread) {
          assert RemoveRun(runs, run, thread)[1..] == RemoveRun(runs[1..], run, thread);
          RunningCountHead(RemoveRun(runs, run, thread), t);
          assert RunningCount(RemoveRun(runs[1..], run, thread), t) <= RunningCount(runs[1..], t);
        }
      }
    }
  }

  lemma {:induction false} RunsWithoutStarts(runs: seq<Run>, id: ThreadId)
    ensures NoNewRunning(runs, RunsWithout(runs, id))
  {
    if |runs| > 0 {
      RunsWithoutStarts(runs[1..], id);
      var after := RunsWithout(runs, id);
      forall t ensures RunningCount(after, t) <= RunningCount(runs, t) {
        RunningCountHead(runs, t);
        assert RunningCount(RunsWithout(runs[1..], id), t) <= RunningCount(runs[1..], t);
        if runs[0].thread != id {
          assert after == [runs[0]] + RunsWithout(runs[1..], id) && after[1..] == RunsWithout(runs[1..], id);
          RunningCountHead(after, t);
        } else {
          assert after == RunsWithout(runs[1..], id);
        }
      }
    }
  }

  lemma {:induction false} SetRunStatusStarts(runs: seq<Run>, run: RunId, status: RunStatus)
    requires status != Running
    ensures NoNewRunning(runs, SetRunStatus(runs, run, status))
    ensures SameThreads(runs, SetRunStatus(runs, run, status))
  {
    if |runs| > 0 {
      SetRunStatusStarts(runs[1..], run, status);
      var after := SetRunStatus(runs, run, status);
      forall t ensures RunningCount(after, t) <= RunningCount(runs, t) {
        RunningCountHead(runs, t);
        RunningCountHead(after, t);
        if runs[0].id != run {
          assert after[1..] == SetRunStatus(runs[1..], run, status);
          assert RunningCount(after[1..], t) <= RunningCount(runs[1..], t);
        }
      }
    }
  }

  lemma {:induction false} SetRunStatusOnStarts(runs: seq<Run>, run: RunId, thread: ThreadId, status: RunStatus)
    requires status != Running
    ensures NoNewRunning(runs, SetRunStatusOn(runs, run, thread, status))
    ensures SameThreads(runs, SetRunStatusOn(runs, run, thread, status))
  {
    if |runs| > 0 {
      SetRunStatusOnStarts(runs[1..], run, thread, status);
      var after := SetRunStatusOn(runs, run, thread, status);
      forall t ensures RunningCount(after, t) <= RunningCount(runs, t) {
        RunningCountHead(runs, t);
        RunningCountHead(after, t);
        if !IsRun(runs[0], run, thread) {
          assert after[1..] == SetRunStatusOn(runs[1..], run, thread, status);
          assert RunningCount(after[1..], t) <= RunningCount(runs[1..], t);
        }
      }
    }
  }

  /** Same runs on the same threads, position by position. */
  ghost predicate SameThreads(before: seq<Run>, after: seq<Run>) {
    |after| == |before| && forall i :: 0 <= i < |before| ==> after[i].thread == before[i].thread
  }

  lemma {:induction false} InterruptAllShape(w: World, selected: Run -> bool, rollback: bool, queues: set<RunId>, now: Time, n: nat)
    requires n <= |w.runs|
    ensures var v := InterruptAll(w, selected, rollback, queues, now, n);
      && SameThreads(w.runs, v.runs)
      && (forall i :: 0 <= i < |w.threads| ==> v.threads[i].id == w.threads[i].id)
      && (forall i :: n <= i < |w.runs| ==> v.runs[i] == w.runs[i])
      && v.crons == w.crons && v.attempts == w.attempts
  {
    if n > 0 {
      InterruptAllShape(w, selected, rollback, queues, now, n - 1);
    }
  }

  lemma StopOne(before: seq<Run>, runs: seq<Run>, i: nat, r: Run)
    requires i < |runs| && r.status != Running && NoNewRunning(before, runs)
    ensures NoNewRunning(before, runs[i := r])
  {
    forall t ensures RunningCount(runs[i := r], t) <= RunningCount(before, t) {
      assert RunningCount(runs, t) <= RunningCount(before, t);
      RunningCountUpdate(runs, i, r, t);
    }
  }

  lemma {:induction false} InterruptAllStarts(w: World, selected: Run -> bool, rollback: bool, queues: set<RunId>, now: Time, n: nat)
    requires n <= |w.runs|
    ensures NoNewRunning(w.runs, InterruptAll(w, selected, rollback, queues, now, n).runs)
  {
    hide NoNewRunning;
    if n > 0 {
      InterruptAllStarts(w, selected, rollback, queues, now, n - 1);
      StopOne(w.runs, InterruptAll(w, selected, rollback, queues, now, n - 1).runs, n - 1, w.runs[n - 1].(status := Interrupted));
    } else {
      NothingStarted(w.runs);
    }
  }

  lemma NothingStarted(runs: seq<Run>)
    ensures NoNewRunning(runs, runs)
  {
  }

  lemma {:induction false} DeleteRunsStarts(w: World, runs: seq<Run>)
    ensures var v := DeleteRuns(w, runs);
      && NoNewRunning(w.runs, v.runs) && (forall r :: r in v.runs ==> r in w.runs)
      && v.threads == w.threads && v.crons == w.crons && v.attempts == w.attempts
  {
    hide DeleteRunData;
    if |runs| > 0 {
      var n := |runs| - 1;
      DeleteRunsStarts(w, runs[..n]);
      var v := DeleteRuns(w, runs[..n]);
      RemoveRunStarts(v.runs, runs[n].id, runs[n].thread);
      forall t ensures RunningCount(DeleteRuns(w, runs).runs, t) <= RunningCount(w.runs, t) {
        assert RunningCount(v.runs, t) <= RunningCount(w.runs, t);
      }
    }
  }

  // ---- References -------------------------------------------------------------------------------------

  /** Every run, and every cron bound to a thread, refers to an existing thread. */
  ghost predicate RefsExist(w: World) {
    && (forall r :: r in w.runs ==> HasThread(w.threads, r.thread))
    && (forall c :: c in w.crons && c.thread.Some? ==> HasThread(w.threads, c.thread.value))
  }

  /** All the runs' threads occur among `before`'s. */
  lemma SameThreadsKeepRefs(before: seq<Run>, after: seq<Run>, threads: seq<Thread>, later: seq<Thread>)
    requires SameThreads(before, after)
    requires |later| == |threads| && forall i :: 0 <= i < |threads| ==> later[i].id == threads[i].id
    requires forall r :: r in before ==> HasThread(threads, r.thread)
    ensures forall r :: r in after ==> HasThread(later, r.thread)
  {
    forall r | r in after ensures HasThread(later, r.thread) {
      var i :| 0 <= i < |after| && after[i] == r;
      assert before[i] in before;
      SameIdsSameThreads(threads, later, r.thread);
    }
  }

  lemma SameIdsSameThreads(threads: seq<Thread>, later: seq<Thread>, id: ThreadId)
    requires |later| == |threads| && forall i :: 0 <= i < |threads| ==> later[i].id == threads[i].id
    ensures HasThread(later, id) <==> HasThread(threads, id)
  {
  }

  // ---- Runs of operations --------------------------------------------------------------------------------

  datatype Event =
    | Put(request: PutRequest)
    | Dispatch(now: Time, limit: int)
    | CancelRuns(selector: Selector, rollback: bool, queues: set<RunId>, at: Time)
    | CreateThread(created: ThreadId, ttl: Option<Option<Policy>>, at: Time)
    | PatchThread(patched: ThreadId, ttl: Option<Option<Policy>>, at: Time)
    | SetThreadStatus(thread: ThreadId, hasNext: bool, failed: bool, at: Time)
    | CopyThread(source: ThreadId, target: ThreadId, at: Time)
    | RemoveThread(thread: ThreadId)
    | RemoveOneRun(run: RunId, of: ThreadId)
    | SetStatus(run: RunId, status: RunStatus)
    | SetJoint(thread: ThreadId, run: RunId, joint: JointStatus, hasNext: bool, failed: bool, at: Time)
    | AddCron(cron: Cron)
    | RemoveCrons(gone: Cron -> bool)
    | SweepThreads(global: Option<Policy>, most: Option<nat>, batchSize: nat, when: Time)

  /** Status updates other than the dispatcher's own never set a run to running. */
  predicate Allowed(e: Event) {
    (e.SetStatus? ==> e.status != Running) && (e.SetJoint? && e.joint.To? ==> e.joint.status != Running)
  }

  ghost function Apply(w: World, e: Event): World {
    match e
    case Put(q) => PutRun(w, q).world
    case Dispatch(now, limit) => var q := Next(w, now, limit); w.(runs := q.runs, attempts := q.attempts)
    case CancelRuns(s, rollback, queues, at) => Cancel(w, s, rollback, queues, at)
    case CreateThread(t, ttl, at) => PutThread(w, t, ttl, at)
    case PatchThread(t, ttl, at) => RuntimeState.PatchThread(w, t, ttl, at)
    case SetThreadStatus(t, hasNext, failed, at) =>
      var r := RunLifecycle.SetThreadStatus(w, t, hasNext, failed, at);
      if r.Some? then r.value else w
    case CopyThread(source, target, at) => CopyOf(w, source, target, at)
    case RemoveThread(t) => DeleteThread(w, t)
    case RemoveOneRun(run, t) => DeleteRun(w, run, t)
    case SetStatus(run, status) => w.(runs := SetRunStatus(w.runs, run, status))
    case SetJoint(t, run, joint, hasNext, failed, at) =>
      var r := SetJointStatus(w, t, run, joint, hasNext, failed, at);
      if r.Some? then r.value else w
    case AddCron(cron) => PutCron(w, cron)
    case RemoveCrons(gone) => w.(crons := CronsLeft(w.crons, gone))
    case SweepThreads(global, most, batchSize, when) =>
      if batchSize > 0 then Sweep(w, global, most, batchSize, when).world else w
  }

  ghost function After(w: World, events: seq<Event>): World {
    if |events| == 0 then w else Apply(After(w, events[..|events| - 1]), events[|events| - 1])
  }

  ghost predicate Consistent(w: World) {
    Exclusive(w.runs) && RefsExist(w) && UniqueThreads(w.threads)
  }

  /** A new thread's generated id is unused. */
  ghost predicate FreshIds(w: World, e: Event) {
    && (e.Put? && e.request.thread.None? ==> !HasThread(w.threads, e.request.newThread))
    && (e.CopyThread? ==> !HasThread(w.threads, e.target))
  }

  /** One more thread keeps everything in place. */
  lemma AddThreadKeepsConsistent(w: World, v: World, t: Thread)
    requires Consistent(w) && !HasThread(w.threads, t.id)
    requires v.threads == w.threads + [t] && v.runs == w.runs && v.crons == w.crons
    ensures Consistent(v)
  {
    forall id | HasThread(w.threads, id) ensures HasThread(v.threads, id) {
      var i :| 0 <= i < |w.threads| && w.threads[i].id == id;
      assert v.threads[i].id == id;
    }
  }

  lemma PutKeepsConsistent(w: World, q: PutRequest)
    requires Consistent(w) && (q.thread.None? ==> !HasThread(w.threads, q.newThread))
    ensures Consistent(PutRun(w, q).world)
  {
    var v := PutRun(w, q).world;
    var run := Run(q.run, q.Target(), q.assistant, Pending, q.now + q.after);
    forall t ensures RunningCount(w.runs + [run], t) == RunningCount(w.runs, t) {
      RunningCountConcat(w.runs, [run], t);
      assert [run][..0] == [];
    }
    assert |v.threads| >= |w.threads| && forall i :: 0 <= i < |w.threads| ==> v.threads[i].id == w.threads[i].id;
    forall id | HasThread(w.threads, id) ensures HasThread(v.threads, id) {
      var i :| 0 <= i < |w.threads| && w.threads[i].id == id;
      assert v.threads[i].id == id;
    }
    if v.runs != w.runs {
      assert HasThread(v.threads, q.Target()) by {
        if !HasThread(w.threads, q.Target()) { assert v.threads[|w.threads|].id == q.Target(); }
      }
    }
  }

  lemma DispatchKeepsConsistent(w: World, now: Time, limit: int)
    requires Consistent(w)
    ensures Consistent(Apply(w, Dispatch(now, limit)))
  {
    var q := Next(w, now, limit);
    StartAllExclusive(Queue(w.runs, w.attempts, []), w.threads, Window(w.runs, now, limit));
    NextStartsExactly(w, now, limit);
    SameThreadsKeepRefs(w.runs, q.runs, w.threads, w.threads);
  }

  lemma CancelKeepsConsistent(w: World, s: Selector, rollback: bool, queues: set<RunId>, now: Time)
    requires Consistent(w)
    ensures Consistent(Cancel(w, s, rollback, queues, now))
  {
    hide DeleteRuns, InterruptAll, EagerDeletes;
    var selected := Selecting(s);
    InterruptAllStarts(w, selected, rollback, queues, now, |w.runs|);
    InterruptAllShape(w, selected, rollback, queues, now, |w.runs|);
    var v := InterruptAll(w, selected, rollback, queues, now, |w.runs|);
    SameThreadsKeepRefs(w.runs, v.runs, w.threads, v.threads);
    NoNewRunningKeepsExclusive(w.runs, v.runs);
    DeleteRunsStarts(v, EagerDeletes(w.runs, selected, rollback, queues));
    NoNewRunningKeepsExclusive(v.runs, Cancel(w, s, rollback, queues, now).runs);
    forall id ensures HasThread(v.threads, id) <==> HasThread(w.threads, id) { SameIdsSameThreads(w.threads, v.threads, id); }
  }

  lemma RemoveThreadKeepsConsistent(w: World, t: ThreadId)
    requires Consistent(w)
    ensures Consistent(DeleteThread(w, t))
  {
    hide DeleteData;
    if HasThread(w.threads, t) {
      var v := DeleteThread(w, t);
      ThreadsWithoutMembers(w.threads, t);
      RunsWithoutMembers(w.runs, t);
      CronsWithoutMembers(w.crons, t);
      RunsWithoutStarts(w.runs, t);
      NoNewRunningKeepsExclusive(w.runs, v.runs);
      forall id | HasThread(w.threads, id) && id != t ensures HasThread(v.threads, id) {
        HasThreadMember(w.threads, id);
        HasThreadMember(v.threads, id);
      }
    }
  }

  lemma RemoveRunKeepsConsistent(w: World, run: RunId, t: ThreadId)
    requires Consistent(w)
    ensures Consistent(DeleteRun(w, run, t))
  {
    RemoveRunStarts(w.runs, run, t);
    NoNewRunningKeepsExclusive(w.runs, RemoveRun(w.runs, run, t));
  }

  lemma JointKeepsConsistent(w: World, t: ThreadId, run: RunId, joint: JointStatus, hasNext: bool, failed: bool, at: Time)
    requires Consistent(w) && (joint.To? ==> joint.status != Running)
    ensures var r := SetJointStatus(w, t, run, joint, hasNext, failed, at); r.Some? ==> Consistent(r.value)
  {
    hide DeleteRunData;
    var r := SetJointStatus(w, t, run, joint, hasNext, failed, at);
    if r.Some? {
      if joint.Rollback? {
        RemoveRunStarts(w.runs, run, t);
      } else {
        SetRunStatusOnStarts(w.runs, run, t, joint.status);
        SameThreadsKeepRefs(w.runs, r.value.runs, w.threads, w.threads);
      }
      NoNewRunningKeepsExclusive(w.runs, r.value.runs);
      forall id ensures HasThread(r.value.threads, id) <==> HasThread(w.threads, id) { SameIdsSameThreads(w.threads, r.value.threads, id); }
    }
  }

  /** Rows of threads changed in place, ids and order kept. */
  lemma ThreadsInPlaceConsistent(w: World, v: World)
    requires Consistent(w) && v.runs == w.runs && v.crons == w.crons
    requires |v.threads| == |w.threads| && forall i :: 0 <= i < |w.threads| ==> v.threads[i].id == w.threads[i].id
    ensures Consistent(v)
  {
    forall id ensures HasThread(v.threads, id) <==> HasThread(w.threads, id) { SameIdsSameThreads(w.threads, v.threads, id); }
  }

  lemma PatchKeepsConsistent(w: World, t: ThreadId, ttl: Option<Option<Policy>>, at: Time)
    requires Consistent(w)
    ensures Consistent(RuntimeState.PatchThread(w, t, ttl, at))
  {
    hide Consistent, HasThread, Override;
    ThreadsInPlaceConsistent(w, RuntimeState.PatchThread(w, t, ttl, at));
  }

  lemma ThreadStatusKeepsConsistent(w: World, t: ThreadId, hasNext: bool, failed: bool, at: Time)
    requires Consistent(w)
    ensures var r := RunLifecycle.SetThreadStatus(w, t, hasNext, failed, at); r.Some? ==> Consistent(r.value)
  {
    hide Consistent, HasThread, SetThread;
    var r := RunLifecycle.SetThreadStatus(w, t, hasNext, failed, at);
    if r.Some? { ThreadsInPlaceConsistent(w, r.value); }
  }

  lemma {:induction false} CronsLeftMembers(crons: seq<Cron>, gone: Cron -> bool)
    ensures forall c :: c in CronsLeft(crons, gone) <==> c in crons && !gone(c)
  {
    if |crons| > 0 {
      CronsLeftMembers(crons[1..], gone);
      assert forall c :: c in crons <==> c == crons[0] || c in crons[1..];
    }
  }

  lemma FewerCronsConsistent(w: World, gone: Cron -> bool)
    requires Consistent(w)
    ensures Consistent(w.(crons := CronsLeft(w.crons, gone)))
  {
    CronsLeftMembers(w.crons, gone);
  }

  lemma CreateKeepsConsistent(w: World, t: ThreadId, ttl: Option<Option<Policy>>, at: Time)
    requires Consistent(w)
    ensures Consistent(PutThread(w, t, ttl, at))
  {
    hide Consistent, Override;
    if !HasThread(w.threads, t) { AddThreadKeepsConsistent(w, PutThread(w, t, ttl, at), Thread(t, at, Idle)); }
  }

  lemma CopyKeepsConsistent(w: World, source: ThreadId, target: ThreadId, at: Time)
    requires Consistent(w) && !HasThread(w.threads, target)
    ensures Consistent(CopyOf(w, source, target, at))
  {
    hide Consistent, CopyData, StateOf;
    if HasThread(w.threads, source) { AddThreadKeepsConsistent(w, CopyOf(w, source, target, at), Thread(target, at, Idle)); }
  }

  lemma StepKeepsConsistent(w: World, e: Event)
    requires Consistent(w) && Allowed(e) && FreshIds(w, e)
    ensures Consistent(Apply(w, e))
  {
    hide Consistent, Cancel, DeleteThread, DeleteRun, SetJointStatus, Next, PutRun, SetRunStatus, Sweep, PutCron, PutThread, CopyOf, HasThread, CronsLeft, RuntimeState.PatchThread, RunLifecycle.SetThreadStatus;
    match e
    case Put(q) => PutKeepsConsistent(w, q);
    case Dispatch(now, limit) => DispatchKeepsConsistent(w, now, limit);
    case CancelRuns(s, rollback, queues, at) => CancelKeepsConsistent(w, s, rollback, queues, at);
    case CreateThread(t, ttl, at) => CreateKeepsConsistent(w, t, ttl, at);
    case PatchThread(t, ttl, at) => PatchKeepsConsistent(w, t, ttl, at);
    case SetThreadStatus(t, hasNext, failed, at) => ThreadStatusKeepsConsistent(w, t, hasNext, failed, at);
    case CopyThread(source, target, at) => CopyKeepsConsistent(w, source, target, at);
    case RemoveThread(t) => RemoveThreadKeepsConsistent(w, t);
    case RemoveOneRun(run, t) => RemoveRunKeepsConsistent(w, run, t);
    case SetStatus(run, status) => SetStatusKeepsConsistent(w, run, status);
    case SetJoint(t, run, joint, hasNext, failed, at) => JointKeepsConsistent(w, t, run, joint, hasNext, failed, at);
    case AddCron(cron) => AddCronKeepsConsistent(w, cron);
    case RemoveCrons(gone) => FewerCronsConsistent(w, gone);
    case SweepThreads(global, most, batchSize, when) =>
      if batchSize > 0 { SweepKeepsConsistent(w, global, most, batchSize, when); }
  }

  lemma SweepKeepsConsistent(w: World, global: Option<Policy>, most: Option<nat>, batchSize: nat, when: Time)
    requires Consistent(w) && batchSize > 0
    ensures Consistent(Sweep(w, global, most, batchSize, when).world)
  {
    hide Sweep, DueList, Swept, RefsExist, Exclusive;
    SweepResult(w, global, most, batchSize, when);
    EachKeepsConsistent(Progress(w, 0, 0), Take(DueList(w, global, when), most));
  }

  lemma {:induction false} EachKeepsConsistent(p: Progress, items: seq<Expired>)
    requires Consistent(p.world)
    ensures Consistent(ProcessEach(p, items).world)
  {
    hide Consistent, DeleteThread, PruneData;
    if |items| > 0 {
      var n := |items| - 1;
      EachKeepsConsistent(p, items[..n]);
      var q := ProcessEach(p, items[..n]);
      RemoveThreadKeepsConsistent(q.world, items[n].id);
      assert Consistent(MarkSwept(q.world.(data := PruneData(q.world.data, items[n].id)), items[n])) by {
        SameListsConsistent(q.world, MarkSwept(q.world.(data := PruneData(q.world.data, items[n].id)), items[n]));
      }
    }
  }

  lemma SameListsConsistent(w: World, v: World)
    requires Consistent(w) && v.threads == w.threads && v.runs == w.runs && v.crons == w.crons
    ensures Consistent(v)
  {
  }

  lemma SetStatusKeepsConsistent(w: World, run: RunId, status: RunStatus)
    requires Consistent(w) && status != Running
    ensures Consistent(w.(runs := SetRunStatus(w.runs, run, status)))
  {
    SetRunStatusStarts(w.runs, run, status);
    NoNewRunningKeepsExclusive(w.runs, SetRunStatus(w.runs, run, status));
    SameThreadsKeepRefs(w.runs, SetRunStatus(w.runs, run, status), w.threads, w.threads);
  }

  lemma AddCronKeepsConsistent(w: World, cron: Cron)
    requires Consistent(w)
    ensures Consistent(PutCron(w, cron))
  {
  }

  /** In every reachable state no thread has two running runs, every run and thread-bound cron has
      its thread, and thread ids are unique. */
  lemma {:induction false} AlwaysConsistent(w: World, events: seq<Event>)
    requires Consistent(w)
    requires forall i :: 0 <= i < |events| ==> Allowed(events[i]) && FreshIds(After(w, events[..i]), events[i])
    ensures Consistent(After(w, events))
  {
    hide Consistent, Apply, Allowed, FreshIds;
    if |events| > 0 {
      var n := |events| - 1;
      forall i | 0 <= i < n ensures Allowed(events[..n][i]) && FreshIds(After(w, events[..n][..i]), events[..n][i]) {
        assert events[..n][..i] == events[..i];
      }
      AlwaysConsistent(w, events[..n]);
      StepKeepsConsistent(After(w, events[..n]), events[n]);
    }
  }
}
