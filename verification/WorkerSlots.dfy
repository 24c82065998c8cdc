/** The worker-slot loop: runners move between the idle queue, running tasks and the way back, and
    none is ever lost or duplicated (queue.py). */
module WorkerSlots {
  import opened RuntimeState
  import opened Dispatch
  import opened DispatchProgress

  type Runner = nat
  type Task = string

  /** A task in `WORKERS` and the runner it holds. */
  datatype Job = Job(task: Task, runner: Runner)

  /** Idle runners, executing jobs, runners handed back but not yet queued, the tasks in `WORKERS`,
      and how many more runs the current call of `Runs.next` may yield. */
  datatype Pool = Pool(idle: seq<Runner>, executing: seq<Job>, returning: seq<Runner>, workers: set<Task>, budget: nat)

  function Held(jobs: seq<Job>): seq<Runner> {
    seq(|jobs|, i requires 0 <= i < |jobs| => jobs[i].runner)
  }

  datatype Step =
    | BeginCall(limit: nat)        // Runs.next(limit=runners.qsize())
    | Yielded(task: Task)          // a run was yielded: take a runner and start its task
    | EndCall                      // Runs.next is exhausted
    | Finished(position: nat)      // the cleanup callback of a finished task
    | Delivered                    // the scheduled put of a runner handed back from another thread

  /** What the loop and its callbacks may do: a call is begun with the queue's size as its limit, a
      run is yielded within the limit and starts a task of its own, a task finishes once. */
  ghost predicate Enabled(p: Pool, step: Step) {
    match step
    case BeginCall(limit) => limit == |p.idle|
    case Yielded(task) => p.budget > 0 && task !in p.workers
    case EndCall => true
    case Finished(position) => position < |p.executing|
    case Delivered => |p.returning| > 0
  }

  /** The step, given whether loops are isolated: then a runner comes back through the loop's own
      thread, otherwise at once. */
  ghost function Advance(p: Pool, step: Step, isolated: bool): Pool
    requires Enabled(p, step) && Conserved(p)
  {
    match step
    case BeginCall(limit) => p.(budget := limit)
    case Yielded(task) =>
      p.(idle := p.idle[1..], executing := p.executing + [Job(task, p.idle[0])],
         workers := p.workers + {task}, budget := p.budget - 1)
    case EndCall => p.(budget := 0)
    case Finished(position) =>
      var job := p.executing[position];
      var q := p.(executing := p.executing[..position] + p.executing[position + 1..], workers := p.workers - {job.task});
      if isolated then q.(returning := q.returning + [job.runner]) else q.(idle := q.idle + [job.runner])
    case Delivered => p.(idle := p.idle + [p.returning[0]], returning := p.returning[1..])
  }

  /** All runners, wherever they are. */
  ghost function Everyone(p: Pool): multiset<Runner> {
    multiset(p.idle) + multiset(Held(p.executing)) + multiset(p.returning)
  }

  /** The part that makes the next runner available: a call never has more runs left to yield than
      there are idle runners; and `WORKERS` holds one task per executing job. */
  ghost predicate Conserved(p: Pool) {
    && p.budget <= |p.idle|
    && (forall i, j :: 0 <= i < j < |p.executing| ==> p.executing[i].task != p.executing[j].task)
    && p.workers == (set i | 0 <= i < |p.executing| :: p.executing[i].task)
  }

  /** The pool as it is set up: every runner idle. */
  ghost function Initial(runners: seq<Runner>): Pool {
    Pool(runners, [], [], {}, 0)
  }

  lemma HeldWithout(jobs: seq<Job>, position: nat)
    requires position < |jobs|
    ensures multiset(Held(jobs)) == multiset(Held(jobs[..position] + jobs[position + 1..])) + multiset{jobs[position].runner}
  {
    var held := Held(jobs);
    assert held == held[..position] + [held[position]] + held[position + 1..];
    assert Held(jobs[..position] + jobs[position + 1..]) == held[..position] + held[position + 1..];
  }

  lemma HeldWith(jobs: seq<Job>, job: Job)
    ensures multiset(Held(jobs + [job])) == multiset(Held(jobs)) + multiset{job.runner}
  {
    assert Held(jobs + [job]) == Held(jobs) + [job.runner];
  }

  lemma YieldConserves(p: Pool, task: Task)
    requires Conserved(p) && Enabled(p, Yielded(task))
    ensures Everyone(Advance(p, Yielded(task), false)) == Everyone(p)
  {
    assert p.idle == [p.idle[0]] + p.idle[1..];
    HeldWith(p.executing, Job(task, p.idle[0]));
  }

  lemma AdvanceConserves(p: Pool, step: Step, isolated: bool)
    requires Enabled(p, step) && Conserved(p)
    ensures Everyone(Advance(p, step, isolated)) == Everyone(p)
  {
    hide Conserved, Held;
    match step
    case BeginCall(limit) =>
    case Yielded(task) => YieldConserves(p, task);
    case EndCall =>
    case Finished(position) => HeldWithout(p.executing, position);
    case Delivered => assert p.returning == [p.returning[0]] + p.returning[1..];
  }

  /** Where a finished task's runner goes: with isolated loops it is on its way until its put comes
      round, and from then on all is as if it had been queued at once, as it is without them. */
  lemma FinishedRunner(p: Pool, position: nat)
    requires Conserved(p) && Enabled(p, Finished(position)) && p.returning == []
    ensures var away, back := Advance(p, Finished(position), true), Advance(p, Finished(position), false);
      && away.idle == p.idle && away.returning == [p.executing[position].runner]
      && back.idle == p.idle + [p.executing[position].runner] && back.returning == []
      && Conserved(away) && Enabled(away, Delivered) && Advance(away, Delivered, true) == back
  {
    AdvanceKeepsWorkers(p, Finished(position), true);
    hide Conserved;
  }

  lemma WorkersWith(p: Pool, task: Task)
    requires Conserved(p) && Enabled(p, Yielded(task))
    ensures Conserved(Advance(p, Yielded(task), false))
  {
    var q := Advance(p, Yielded(task), false);
    forall i | 0 <= i < |p.executing| ensures p.executing[i].task in p.workers {}
    assert q.executing[|p.executing|].task == task;
    forall t ensures t in q.workers <==> t in set i | 0 <= i < |q.executing| :: q.executing[i].task {
      if t in p.workers {
        var i :| 0 <= i < |p.executing| && p.executing[i].task == t;
        assert q.executing[i].task == t;
      }
    }
  }

  lemma WorkersWithout(p: Pool, position: nat, q: Pool)
    requires Conserved(p) && position < |p.executing|
    requires q.executing == p.executing[..position] + p.executing[position + 1..]
    requires q.workers == p.workers - {p.executing[position].task}
    requires q.budget == p.budget && |q.idle| >= |p.idle|
    ensures Conserved(q)
  {
    forall t ensures t in q.workers <==> t in set i | 0 <= i < |q.executing| :: q.executing[i].task {
      if t in q.workers {
        var i :| 0 <= i < |p.executing| && p.executing[i].task == t;
        assert q.executing[if i < position then i else i - 1].task == t;
      }
      if t in set i | 0 <= i < |q.executing| :: q.executing[i].task {
        var i :| 0 <= i < |q.executing| && q.executing[i].task == t;
        assert p.executing[if i < position then i else i + 1].task == t;
      }
    }
  }

  lemma AdvanceKeepsWorkers(p: Pool, step: Step, isolated: bool)
    requires Enabled(p, step) && Conserved(p)
    ensures Conserved(Advance(p, step, isolated))
  {
    match step
    case BeginCall(limit) =>
    case Yielded(task) => WorkersWith(p, task);
    case EndCall =>
    case Finished(position) => WorkersWithout(p, position, Advance(p, step, isolated));
    case Delivered =>
  }

  ghost predicate Reaches(p: Pool, steps: seq<Step>, isolated: bool, q: Pool)
    decreases |steps|
  {
    if |steps| == 0 then p == q
    else Conserved(p) && Enabled(p, steps[0]) && Reaches(Advance(p, steps[0], isolated), steps[1..], isolated, q)
  }

  lemma {:induction false} ReachesConserves(p: Pool, steps: seq<Step>, isolated: bool, q: Pool)
    requires Conserved(p) && Reaches(p, steps, isolated, q)
    ensures Conserved(q) && Everyone(q) == Everyone(p)
    decreases |steps|
  {
    hide Conserved, Enabled, Advance, Everyone;
    if |steps| > 0 {
      AdvanceConserves(p, steps[0], isolated);
      AdvanceKeepsWorkers(p, steps[0], isolated);
      ReachesConserves(Advance(p, steps[0], isolated), steps[1..], isolated, q);
    }
  }

  lemma {:induction false} DistinctTasks(jobs: seq<Job>, workers: set<Task>)
    requires forall i, j :: 0 <= i < j < |jobs| ==> jobs[i].task != jobs[j].task
    requires workers == (set i | 0 <= i < |jobs| :: jobs[i].task)
    ensures |workers| == |jobs|
  {
    if |jobs| > 0 {
      var n := |jobs| - 1;
      var rest := set i | 0 <= i < n :: jobs[i].task;
      forall t ensures t in rest <==> t in set i | 0 <= i < |jobs[..n]| :: jobs[..n][i].task {
        if t in rest { var i :| 0 <= i < n && jobs[i].task == t; assert jobs[..n][i].task == t; }
        if t in set i | 0 <= i < |jobs[..n]| :: jobs[..n][i].task { var i :| 0 <= i < n && jobs[..n][i].task == t; assert jobs[i].task == t; }
      }
      DistinctTasks(jobs[..n], rest);
      assert workers == rest + {jobs[n].task};
      assert jobs[n].task !in rest;
    }
  }

  /** In every reachable state idle runners, running tasks and runners on their way back add up to
      the configured concurrency, no runner is in two places, `WORKERS` counts the running tasks, a
      yielded run always finds an idle runner, and a runner coming back never overfills the queue. */
  lemma SlotsAreConserved(runners: seq<Runner>, steps: seq<Step>, isolated: bool, q: Pool)
    requires Reaches(Initial(runners), steps, isolated, q)
    ensures |q.idle| + |q.executing| + |q.returning| == |runners|
    ensures multiset(q.idle) + multiset(Held(q.executing)) + multiset(q.returning) == multiset(runners)
    ensures |q.workers| == |q.executing|
    ensures q.budget > 0 ==> |q.idle| > 0
    ensures |q.executing| > 0 || |q.returning| > 0 ==> |q.idle| < |runners|
  {
    var p := Initial(runners);
    assert Held([]) == [];
    ReachesConserves(p, steps, isolated, q);
    assert |multiset(runners)| == |Everyone(q)|;
    assert |Everyone(q)| == |q.idle| + |Held(q.executing)| + |q.returning|;
    DistinctTasks(q.executing, q.workers);
  }

  /** The dispatcher never yields more runs than the queue had idle runners when it was called. */
  lemma YieldsFitIdle(w: World, now: Time, p: Pool)
    ensures |Next(w, now, |p.idle|).started| <= |p.idle|
  {
    YieldsAtMostLimit(w, now, |p.idle|);
  }

  /** How many runs a call has yielded. */
  function Yields(steps: seq<Step>): nat {
    if |steps| == 0 then 0 else (if steps[0].Yielded? then 1 else 0) + Yields(steps[1..])
  }

  /** Steps while one call lasts: runs are yielded, and callbacks come in between. */
  predicate DuringCall(steps: seq<Step>) {
    forall i :: 0 <= i < |steps| ==> !steps[i].BeginCall? && !steps[i].EndCall?
  }

  lemma {:induction false} BudgetCounts(p: Pool, steps: seq<Step>, isolated: bool, q: Pool)
    requires Conserved(p) && Reaches(p, steps, isolated, q) && DuringCall(steps)
    ensures p.budget == q.budget + Yields(steps)
    decreases |steps|
  {
    hide Conserved, Everyone;
    if |steps| > 0 {
      AdvanceKeepsWorkers(p, steps[0], isolated);
      assert !steps[0].BeginCall? && !steps[0].EndCall?;
      forall i | 0 <= i < |steps[1..]| ensures steps[1..][i] == steps[i + 1] {}
      BudgetCounts(Advance(p, steps[0], isolated), steps[1..], isolated, q);
    }
  }

  /** Every run that one call of the dispatcher hands out finds an idle runner, whatever tasks finish
      in the meantime: until all have been yielded, the next yield is enabled. */
  lemma NextYieldIsEnabled(w: World, now: Time, p: Pool, steps: seq<Step>, isolated: bool, q: Pool, task: Task)
    requires Conserved(p) && DuringCall(steps)
    requires Reaches(Advance(p, BeginCall(|p.idle|), isolated), steps, isolated, q)
    requires Yields(steps) < |Next(w, now, |p.idle|).started|
    requires task !in q.workers
    ensures Enabled(q, Yielded(task)) && |q.idle| > 0
  {
    YieldsFitIdle(w, now, p);
    var begun := Advance(p, BeginCall(|p.idle|), isolated);
    AdvanceKeepsWorkers(p, BeginCall(|p.idle|), isolated);
    BudgetCounts(begun, steps, isolated, q);
    ReachesConserves(begun, steps, isolated, q);
  }

  // ---- The loop in place ----------------------------------------------------------------------------

  /** The `runners` queue, the `WORKERS` set and the callbacks of `queue()`. */
  class RunnerQueue {
    var idle: seq<Runner>
    var executing: seq<Job>
    var returning: seq<Runner>
    var workers: set<Task>
    var budget: nat
    const isolated: bool

    ghost function Value(): Pool
      reads this
    {
      Pool(idle, executing, returning, workers, budget)
    }

    ghost predicate Valid()
      reads this
    {
      Conserved(Value())
    }

    constructor (runners: seq<Runner>, isolated: bool)
      ensures Valid() && Value() == Initial(runners) && this.isolated == isolated
    {
      idle, executing, returning, workers, budget := runners, [], [], {}, 0;
      this.isolated := isolated;
    }

    /** Starts a call of `Runs.next` with the queue's size as its limit. */
    method BeginCall() returns (limit: nat)
      requires Valid()
      modifies this`budget
      ensures Valid()
      ensures Enabled(old(Value()), Step.BeginCall(limit)) && Value() == Advance(old(Value()), Step.BeginCall(limit), isolated)
    {
      limit := |idle|;
      budget := limit;
    }

    /** `runners.get_nowait()` for a yielded run, and its task. */
    method StartTask(task: Task) returns (runner: Runner)
      requires Valid() && Enabled(Value(), Yielded(task))
      modifies this`idle, this`executing, this`workers, this`budget
      ensures Valid()
      ensures Value() == Advance(old(Value()), Yielded(task), isolated) && runner == old(idle)[0]
    {
      AdvanceKeepsWorkers(Value(), Yielded(task), isolated);
      runner := idle[0];
      idle := idle[1..];
      executing := executing + [Job(task, runner)];
      workers := workers + {task};
      budget := budget - 1;
    }

    /** The `cleanup` callback. */
    method Cleanup(position: nat)
      requires Valid() && Enabled(Value(), Finished(position))
      modifies this`idle, this`executing, this`returning, this`workers
      ensures Valid()
      ensures Value() == Advance(old(Value()), Finished(position), isolated)
    {
      AdvanceKeepsWorkers(Value(), Finished(position), isolated);
      var job := executing[position];
      workers := workers - {job.task};
      executing := executing[..position] + executing[position + 1..];
      if isolated {
        returning := returning + [job.runner];
      } else {
        idle := idle + [job.runner];
      }
    }

    /** The put scheduled by `call_soon_threadsafe`. */
    method DeliverReturned()
      requires Valid() && Enabled(Value(), Delivered)
      modifies this`idle, this`returning
      ensures Valid()
      ensures Value() == Advance(old(Value()), Delivered, isolated)
    {
      idle := idle + [returning[0]];
      returning := returning[1..];
    }
  }
}
