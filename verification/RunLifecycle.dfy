/** The operations that create, cancel, delete and finish runs (ops.py). */
module RunLifecycle {
  import opened Wrappers
  import opened CheckpointModel
  import opened RuntimeState

  // ---- Rows found by id ---------------------------------------------------------------------------

  /** Position of the first thread of that id. */
  function FindThread(threads: seq<Thread>, id: ThreadId): (r: Option<nat>)
    ensures r.Some? <==> HasThread(threads, id)
    ensures r.Some? ==> r.value < |threads| && threads[r.value].id == id
    ensures r.Some? ==> forall i :: 0 <= i < r.value ==> threads[i].id != id
  {
    if |threads| == 0 then None
    else if threads[0].id == id then Some(0)
    else
      var rest := FindThread(threads[1..], id);
      assert HasThread(threads, id) ==> HasThread(threads[1..], id) by {
        if HasThread(threads, id) {
          var i :| 0 <= i < |threads| && threads[i].id == id;
          assert threads[1..][i - 1].id == id;
        }
      }
      if rest.Some? then Some(rest.value + 1) else None
  }

  function SetThread(threads: seq<Thread>, id: ThreadId, status: ThreadStatus, at: Time): (r: seq<Thread>)
    ensures |r| == |threads| && forall i :: 0 <= i < |threads| ==> r[i].id == threads[i].id
  {
    var found := FindThread(threads, id);
    if found.Some? then threads[found.value := threads[found.value].(status := status, updatedAt := at)] else threads
  }

  predicate IsRun(r: Run, run: RunId, thread: ThreadId) {
    r.id == run && r.thread == thread
  }

  /** `del runs[i]` for the first run of that id and thread. */
  function RemoveRun(runs: seq<Run>, run: RunId, thread: ThreadId): seq<Run> {
    if |runs| == 0 then []
    else if IsRun(runs[0], run, thread) then runs[1..]
    else [runs[0]] + RemoveRun(runs[1..], run, thread)
  }

  function ActiveOn(runs: seq<Run>, thread: ThreadId): seq<Run> {
    if |runs| == 0 then []
    else (if runs[0].thread == thread && runs[0].Active() then [runs[0]] else []) + ActiveOn(runs[1..], thread)
  }

  lemma {:induction false} ActiveOnMembers(runs: seq<Run>, thread: ThreadId)
    ensures forall r :: r in ActiveOn(runs, thread) <==> r in runs && r.thread == thread && r.Active()
  {
    if |runs| > 0 {
      ActiveOnMembers(runs[1..], thread);
      assert forall r :: r in runs <==> r == runs[0] || r in runs[1..];
    }
  }

  // ---- Runs.put ------------------------------------------------------------------------------------

  /** A request to create a pending run.  `newThread` is the id a new thread would get. */
  datatype PutRequest = PutRequest(assistantExists: bool, assistant: AssistantId, thread: Option<ThreadId>, newThread: ThreadId,
                                   run: RunId, createIfMissing: bool, preventIfInflight: bool, after: int, now: Time)
  {
    function Target(): ThreadId { if thread.Some? then thread.value else newThread }
  }

  /** The world after a request, and the runs handed back: the new one first, then those in flight. */
  datatype PutResult = PutResult(world: World, yielded: seq<Run>)

  function PutRun(w: World, q: PutRequest): PutResult {
    var existing := if q.thread.Some? then FindThread(w.threads, q.thread.value) else None;
    if !q.assistantExists || (existing.None? && q.thread.Some? && !q.createIfMissing) then PutResult(w, [])
    else
      var threads :=
        if existing.None? then w.threads + [Thread(q.Target(), q.now, Busy)]
        else if w.threads[existing.value].status != Busy then SetThread(w.threads, q.Target(), Busy, q.now)
        else w.threads;
      var inflight := ActiveOn(w.runs, q.Target());
      if q.preventIfInflight && |inflight| > 0 then PutResult(w.(threads := threads), inflight)
      else
        var run := Run(q.run, q.Target(), q.assistant, Pending, q.now + q.after);
        PutResult(w.(threads := threads, runs := w.runs + [run]), [run] + inflight)
  }

  // ---- Runs.delete, Runs.set_status, Threads.set_joint_status --------------------------------------

  /** `Runs.delete`: the run's checkpoints go first, then the run if it is there. */
  ghost function DeleteRun(w: World, run: RunId, thread: ThreadId): World {
    w.(data := DeleteRunData(w.data, thread, run), runs := RemoveRun(w.runs, run, thread))
  }

  function SetRunStatus(runs: seq<Run>, run: RunId, status: RunStatus): seq<Run> {
    if |runs| == 0 then []
    else if runs[0].id == run then [runs[0].(status := status)] + runs[1..]
    else [runs[0]] + SetRunStatus(runs[1..], run, status)
  }

  function SetRunStatusOn(runs: seq<Run>, run: RunId, thread: ThreadId, status: RunStatus): seq<Run> {
    if |runs| == 0 then []
    else if IsRun(runs[0], run, thread) then [runs[0].(status := status)] + runs[1..]
    else [runs[0]] + SetRunStatusOn(runs[1..], run, thread, status)
  }

  /** A run's new status, or its removal. */
  datatype JointStatus = Rollback | To(status: RunStatus)

  /** `Threads.set_joint_status`: nothing when the thread or the run is missing. */
  ghost function SetJointStatus(w: World, thread: ThreadId, run: RunId, status: JointStatus, hasNext: bool, failed: bool, now: Time): Option<World> {
    if !HasThread(w.threads, thread) || !(exists i :: 0 <= i < |w.runs| && IsRun(w.runs[i], run, thread)) then None
    else
      var v := if status.Rollback? then DeleteRun(w, run, thread)
               else w.(runs := SetRunStatusOn(w.runs, run, thread, status.status));
      var base := if failed then ThreadError else if hasNext then ThreadInterrupted else Idle;
      var active := |ActiveOn(v.runs, thread)| > 0 || (status.To? && (status.status == Pending || status.status == Running));
      Some(v.(threads := SetThread(v.threads, thread, if active then Busy else base, now)))
  }

  /** `Threads.set_status`: nothing when the thread is missing. */
  function SetThreadStatus(w: World, thread: ThreadId, hasNext: bool, failed: bool, now: Time): Option<World> {
    if !HasThread(w.threads, thread) then None
    else
      var base := if failed then ThreadError else if hasNext then ThreadInterrupted else Idle;
      Some(w.(threads := SetThread(w.threads, thread, if |ActiveOn(w.runs, thread)| > 0 then Busy else base, now)))
  }

  // ---- Runs.cancel ---------------------------------------------------------------------------------

  datatype Selector =
    | ByAssistant(assistant: AssistantId)
    | ByStatus(pending: bool, running: bool)
    | ByIds(thread: ThreadId, runs: set<RunId>)

  predicate Selects(s: Selector, r: Run) {
    match s
    case ByAssistant(a) => r.assistant == a && r.Active()
    case ByStatus(pending, running) => (pending && r.status == Pending) || (running && r.status == Running)
    case ByIds(t, ids) => r.thread == t && r.id in ids
  }

  function Selecting(s: Selector): Run -> bool {
    (r: Run) => Selects(s, r)
  }

  /** A cancelled run is deleted at once when it is to be rolled back and nobody listens to it. */
  predicate DeletedEagerly(r: Run, rollback: bool, queues: set<RunId>) {
    rollback && r.id !in queues
  }

  /** The first pass of `cancel` over the selected runs: interrupt, and set the thread idle if the
      run was pending. */
  function InterruptAll(w: World, selected: Run -> bool, rollback: bool, queues: set<RunId>, now: Time, n: nat): (v: World)
    requires n <= |w.runs|
    ensures |v.runs| == |w.runs| && |v.threads| == |w.threads|
  {
    if n == 0 then w
    else
      var v := InterruptAll(w, selected, rollback, queues, now, n - 1);
      var r := w.runs[n - 1];
      if selected(r) && r.Active() && !DeletedEagerly(r, rollback, queues) then
        v.(threads := if r.status == Pending then SetThread(v.threads, r.thread, Idle, now) else v.threads,
           runs := v.runs[n - 1 := r.(status := Interrupted)])
      else v
  }

  /** The runs `cancel` deletes after that pass. */
  function EagerDeletes(runs: seq<Run>, selected: Run -> bool, rollback: bool, queues: set<RunId>): seq<Run> {
    if |runs| == 0 then []
    else
      EagerDeletes(runs[..|runs| - 1], selected, rollback, queues)
        + var r := runs[|runs| - 1];
          if selected(r) && r.Active() && DeletedEagerly(r, rollback, queues) then [r] else []
  }

  ghost function DeleteRuns(w: World, runs: seq<Run>): World {
    if |runs| == 0 then w
    else
      var last := runs[|runs| - 1];
      DeleteRun(DeleteRuns(w, runs[..|runs| - 1]), last.id, last.thread)
  }

  /** `Runs.cancel`: "no runs found" and "nothing to cancel" change nothing. */
  ghost function Cancel(w: World, s: Selector, rollback: bool, queues: set<RunId>, now: Time): World {
    DeleteRuns(InterruptAll(w, Selecting(s), rollback, queues, now, |w.runs|),
               EagerDeletes(w.runs, Selecting(s), rollback, queues))
  }

  // ---- Crons.put -----------------------------------------------------------------------------------

  /** `Crons.put`: a cron for a missing thread is refused, and an existing id keeps its cron. */
  function PutCron(w: World, cron: Cron): World {
    if cron.thread.Some? && !HasThread(w.threads, cron.thread.value) then w
    else if exists i :: 0 <= i < |w.crons| && w.crons[i].id == cron.id then w
    else w.(crons := w.crons + [cron])
  }

  /** What `Crons.delete`, or the deletion of an assistant, leaves. */
  function CronsLeft(crons: seq<Cron>, gone: Cron -> bool): seq<Cron> {
    if |crons| == 0 then []
    else (if gone(crons[0]) then [] else [crons[0]]) + CronsLeft(crons[1..], gone)
  }
}
