/** The runtime's in-memory lists and sidecar maps (ops.py, database.py). */
module RuntimeState {
  import opened Wrappers
  import opened CheckpointModel

  /** A moment or a duration, in the clock's smallest unit. */
  type Time = int

  type AssistantId = string

  datatype ThreadStatus = Idle | Busy | ThreadInterrupted | ThreadError

  datatype Thread = Thread(id: ThreadId, updatedAt: Time, status: ThreadStatus)

  datatype RunStatus = Pending | Running | Success | Failed | Timeout | Interrupted

  datatype Run = Run(id: RunId, thread: ThreadId, assistant: AssistantId, status: RunStatus, createdAt: Time)
  {
    predicate Active() { status == Pending || status == Running }
  }

  datatype Cron = Cron(id: string, thread: Option<ThreadId>)

  datatype Strategy = Delete | KeepLatest

  /** A normalised TTL configuration. */
  datatype Policy = Policy(strategy: Strategy, ttl: nat)

  /** One thread's record in `thread_ttls`: its override, and the update its last prune saw. */
  datatype TtlState = TtlState(policy: Option<Policy>, lastSwept: Option<Time>)

  /** The lists and sidecar maps of the store, the retry counters and the checkpoint rows. */
  datatype World = World(threads: seq<Thread>, runs: seq<Run>, crons: seq<Cron>,
                         ttls: map<ThreadId, TtlState>, attempts: map<RunId, nat>, data: Data)

  ghost predicate UniqueThreads(threads: seq<Thread>) {
    forall i, j :: 0 <= i < j < |threads| ==> threads[i].id != threads[j].id
  }

  predicate HasThread(threads: seq<Thread>, id: ThreadId) {
    exists i :: 0 <= i < |threads| && threads[i].id == id
  }

  function ActiveThreads(runs: seq<Run>): set<ThreadId> {
    set r | r in runs && r.Active() :: r.thread
  }

  // ---- Adding a thread ------------------------------------------------------------------------

  function StateOf(ttls: map<ThreadId, TtlState>, id: ThreadId): TtlState {
    if id in ttls then ttls[id] else TtlState(None, None)
  }

  /** `_set_thread_ttl_override`: the whole record is replaced, its sweep marker included. */
  function Override(ttls: map<ThreadId, TtlState>, id: ThreadId, policy: Option<Policy>): map<ThreadId, TtlState> {
    if policy.None? then ttls - {id} else ttls[id := TtlState(policy, None)]
  }

  /** `Threads.put`: a thread that is there stays as it is; `ttl` is the policy given, if any. */
  function PutThread(w: World, id: ThreadId, ttl: Option<Option<Policy>>, now: Time): World {
    if HasThread(w.threads, id) then w
    else w.(threads := w.threads + [Thread(id, now, Idle)],
            ttls := if ttl.Some? then Override(w.ttls, id, ttl.value) else w.ttls)
  }

  function Touched(t: Thread, id: ThreadId, at: Time): Thread {
    if t.id == id then t.(updatedAt := at) else t
  }

  function Touch(threads: seq<Thread>, id: ThreadId, at: Time): seq<Thread> {
    seq(|threads|, i requires 0 <= i < |threads| => Touched(threads[i], id, at))
  }

  /** `Threads.patch`: the thread is updated, and gets the policy given, if any. */
  function PatchThread(w: World, id: ThreadId, ttl: Option<Option<Policy>>, now: Time): World {
    if !HasThread(w.threads, id) then w
    else w.(threads := Touch(w.threads, id, now), ttls := if ttl.Some? then Override(w.ttls, id, ttl.value) else w.ttls)
  }

  /** `Threads.copy`: a new thread with the source's policy and checkpoint rows, and no marker. */
  ghost function CopyOf(w: World, source: ThreadId, target: ThreadId, now: Time): World {
    if !HasThread(w.threads, source) then w
    else
      w.(threads := w.threads + [Thread(target, now, Idle)],
         ttls := if StateOf(w.ttls, source).policy.Some? then w.ttls[target := TtlState(StateOf(w.ttls, source).policy, None)] else w.ttls,
         data := CopyData(w.data, source, target))
  }

  // ---- Deleting a thread --------------------------------------------------------------------

  function ThreadsWithout(threads: seq<Thread>, id: ThreadId): seq<Thread> {
    if |threads| == 0 then []
    else if threads[0].id == id then threads[1..]
    else [threads[0]] + ThreadsWithout(threads[1..], id)
  }

  function RunsWithout(runs: seq<Run>, id: ThreadId): seq<Run> {
    if |runs| == 0 then []
    else (if runs[0].thread == id then [] else [runs[0]]) + RunsWithout(runs[1..], id)
  }

  function CronsWithout(crons: seq<Cron>, id: ThreadId): seq<Cron> {
    if |crons| == 0 then []
    else (if crons[0].thread == Some(id) then [] else [crons[0]]) + CronsWithout(crons[1..], id)
  }

  /** `Threads.delete`: the first thread of that id, its runs, crons, checkpoints and TTL record. */
  ghost function DeleteThread(w: World, id: ThreadId): World {
    if HasThread(w.threads, id) then
      World(ThreadsWithout(w.threads, id), RunsWithout(w.runs, id), CronsWithout(w.crons, id),
            w.ttls - {id}, w.attempts, DeleteData(w.data, id))
    else w
  }

  lemma {:induction false} ThreadsWithoutMembers(threads: seq<Thread>, id: ThreadId)
    requires UniqueThreads(threads)
    ensures UniqueThreads(ThreadsWithout(threads, id))
    ensures forall t :: t in ThreadsWithout(threads, id) <==> t in threads && t.id != id
  {
    if |threads| > 0 {
      var head, tail := threads[0], threads[1..];
      assert forall t :: t in threads <==> t == head || t in tail;
      assert forall t :: t in tail ==> t.id != head.id;
      ThreadsWithoutMembers(tail, id);
      if head.id != id {
        var after := ThreadsWithout(threads, id);
        assert after == [head] + ThreadsWithout(tail, id);
        forall i, j | 0 <= i < j < |after| ensures after[i].id != after[j].id {
          if i == 0 { assert after[j] in ThreadsWithout(tail, id); }
        }
        assert forall t :: t in after <==> t == head || t in ThreadsWithout(tail, id);
      }
    }
  }

  lemma {:induction false} RunsWithoutMembers(runs: seq<Run>, id: ThreadId)
    ensures forall r :: r in RunsWithout(runs, id) <==> r in runs && r.thread != id
  {
    if |runs| > 0 {
      RunsWithoutMembers(runs[1..], id);
      assert forall r :: r in runs <==> r == runs[0] || r in runs[1..];
    }
  }

  lemma {:induction false} CronsWithoutMembers(crons: seq<Cron>, id: ThreadId)
    ensures forall c :: c in CronsWithout(crons, id) <==> c in crons && c.thread != Some(id)
  {
    if |crons| > 0 {
      CronsWithoutMembers(crons[1..], id);
      assert forall c :: c in crons <==> c == crons[0] || c in crons[1..];
    }
  }
}
