/** Whole histories of runs: ids stay unique when new ones are, and rounds of dispatch and completion
    are histories of the store's own operations (ops.py). */
module RunHistories {
  import opened CheckpointModel
  import opened RuntimeState
  import opened Dispatch
  import opened RunLifecycle
  import opened ThreadTtl
  import opened ThreadSweeps
  import opened DispatchRuns
  import opened DispatchProgress
  import opened RunOutcomes

  // ---- Unique run ids -----------------------------------------------------------------------------------

  ghost predicate UniqueIds(runs: seq<Run>) {
    forall i, j :: 0 <= i < j < |runs| ==> runs[i].id != runs[j].id
  }

  lemma UniqueIdsAreDistinct(runs: seq<Run>)
    requires UniqueIds(runs)
    ensures DistinctRuns(runs)
  {
  }

  lemma SameIdsUnique(before: seq<Run>, after: seq<Run>)
    requires UniqueIds(before) && |after| == |before| && forall i :: 0 <= i < |before| ==> after[i].id == before[i].id
    ensures UniqueIds(after)
  {
  }

  lemma HeadIsNew(runs: seq<Run>, rest: seq<Run>)
    requires |runs| > 0 && UniqueIds(runs) && UniqueIds(rest) && forall r :: r in rest ==> r in runs[1..]
    ensures UniqueIds([runs[0]] + rest)
  {
    forall j | 0 <= j < |rest| ensures rest[j].id != runs[0].id {
      assert rest[j] in rest;
      var i :| 0 <= i < |runs[1..]| && runs[1..][i] == rest[j];
    }
  }

  lemma {:induction false} RemoveRunUnique(runs: seq<Run>, run: RunId, thread: ThreadId)
    requires UniqueIds(runs)
    ensures UniqueIds(RemoveRun(runs, run, thread)) && forall r :: r in RemoveRun(runs, run, thread) ==> r in runs
  {
    if |runs| > 0 {
      RemoveRunUnique(runs[1..], run, thread);
      HeadIsNew(runs, RemoveRun(runs[1..], run, thread));
    }
  }

  lemma {:induction false} RunsWithoutUnique(runs: seq<Run>, thread: ThreadId)
    requires UniqueIds(runs)
    ensures UniqueIds(RunsWithout(runs, thread)) && forall r :: r in RunsWithout(runs, thread) ==> r in runs
  {
    if |runs| > 0 {
      RunsWithoutUnique(runs[1..], thread);
      HeadIsNew(runs, RunsWithout(runs[1..], thread));
    }
  }

  lemma {:induction false} DeleteRunsUnique(w: World, gone: seq<Run>)
    requires UniqueIds(w.runs)
    ensures UniqueIds(DeleteRuns(w, gone).runs)
  {
    hide DeleteRunData, UniqueIds;
    if |gone| > 0 {
      var n := |gone| - 1;
      DeleteRunsUnique(w, gone[..n]);
      RemoveRunUnique(DeleteRuns(w, gone[..n]).runs, gone[n].id, gone[n].thread);
    }
  }

  lemma {:induction false} SetRunStatusIds(runs: seq<Run>, run: RunId, status: RunStatus)
    ensures var after := SetRunStatus(runs, run, status);
      |after| == |runs| && forall i :: 0 <= i < |runs| ==> after[i].id == runs[i].id
  {
    if |runs| > 0 { SetRunStatusIds(runs[1..], run, status); }
  }

  lemma {:induction false} SetRunStatusOnIds(runs: seq<Run>, run: RunId, thread: ThreadId, status: RunStatus)
    ensures var after := SetRunStatusOn(runs, run, thread, status);
      |after| == |runs| && forall i :: 0 <= i < |runs| ==> after[i].id == runs[i].id
  {
    if |runs| > 0 { SetRunStatusOnIds(runs[1..], run, thread, status); }
  }

  lemma {:induction false} EachKeepsUnique(p: Progress, items: seq<Expired>)
    requires UniqueIds(p.world.runs)
    ensures UniqueIds(ProcessEach(p, items).world.runs)
  {
    hide UniqueIds, PruneData, DeleteData;
    if |items| > 0 {
      var n := |items| - 1;
      EachKeepsUnique(p, items[..n]);
      RunsWithoutUnique(ProcessEach(p, items[..n]).world.runs, items[n].id);
    }
  }

  lemma CancelKeepsUnique(w: World, s: Selector, rollback: bool, queues: set<RunId>, now: Time)
    requires UniqueIds(w.runs)
    ensures UniqueIds(Cancel(w, s, rollback, queues, now).runs)
  {
    hide InterruptAll, DeleteRuns, EagerDeletes;
    var v := InterruptAll(w, Selecting(s), rollback, queues, now, |w.runs|);
    forall i | 0 <= i < |w.runs| ensures v.runs[i].id == w.runs[i].id {
      InterruptedAt(w, Selecting(s), rollback, queues, now, |w.runs|, i);
    }
    SameIdsUnique(w.runs, v.runs);
    DeleteRunsUnique(v, EagerDeletes(w.runs, Selecting(s), rollback, queues));
  }

  lemma PutKeepsUnique(w: World, q: PutRequest)
    requires UniqueIds(w.runs) && forall r :: r in w.runs ==> r.id != q.run
    ensures UniqueIds(PutRun(w, q).world.runs)
  {
    hide ActiveOn, SetThread, FindThread;
    forall i | 0 <= i < |w.runs| ensures w.runs[i].id != q.run { assert w.runs[i] in w.runs; }
  }

  /** A new run's id is unused. */
  ghost predicate FreshRunId(w: World, e: Event) {
    e.Put? ==> forall r :: r in w.runs ==> r.id != e.request.run
  }

  lemma StepKeepsUniqueIds(w: World, e: Event)
    requires UniqueIds(w.runs) && UniqueThreads(w.threads) && FreshRunId(w, e)
    ensures UniqueIds(Apply(w, e).runs)
  {
    hide UniqueIds, Cancel, Next, PutRun, ProcessBatched, ProcessEach, DueList, Swept, DeleteData, DeleteRunData, SetThread, CopyData, Override;
    match e
    case Put(q) => PutKeepsUnique(w, q);
    case Dispatch(now, limit) =>
      NextStartsExactly(w, now, limit);
      SameIdsUnique(w.runs, Next(w, now, limit).runs);
    case CancelRuns(s, rollback, queues, at) => CancelKeepsUnique(w, s, rollback, queues, at);
    case RemoveThread(t) => RunsWithoutUnique(w.runs, t);
    case RemoveOneRun(run, t) => RemoveRunUnique(w.runs, run, t);
    case SetStatus(run, status) =>
      SetRunStatusIds(w.runs, run, status);
      SameIdsUnique(w.runs, SetRunStatus(w.runs, run, status));
    case SetJoint(t, run, joint, hasNext, failed, at) =>
      RemoveRunUnique(w.runs, run, t);
      if joint.To? {
        SetRunStatusOnIds(w.runs, run, t, joint.status);
        SameIdsUnique(w.runs, SetRunStatusOn(w.runs, run, t, joint.status));
      }
    case SweepThreads(global, most, batchSize, when) =>
      if batchSize > 0 {
        SweepResult(w, global, most, batchSize, when);
        EachKeepsUnique(Progress(w, 0, 0), Take(DueList(w, global, when), most));
      }
    case _ =>
  }

  /** Over every history whose new runs and threads get unused ids, run ids stay unique; so the
      histories meet the condition under which a cancellation stops exactly what it selects. */
  lemma {:induction false} AlwaysUniqueIds(w: World, events: seq<Event>)
    requires Consistent(w) && UniqueIds(w.runs)
    requires forall i :: 0 <= i < |events| ==>
      var v := After(w, events[..i]); Allowed(events[i]) && FreshIds(v, events[i]) && FreshRunId(v, events[i])
    ensures UniqueIds(After(w, events).runs) && DistinctRuns(After(w, events).runs)
  {
    hide Consistent, Apply, Allowed, FreshIds, FreshRunId, UniqueIds, DistinctRuns;
    if |events| > 0 {
      var n := |events| - 1;
      forall i | 0 <= i < n
        ensures var v := After(w, events[..n][..i]); Allowed(events[..n][i]) && FreshIds(v, events[..n][i]) && FreshRunId(v, events[..n][i])
      {
        assert events[..n][..i] == events[..i];
      }
      AlwaysUniqueIds(w, events[..n]);
      AlwaysConsistent(w, events[..n]);
      ConsistentThreads(After(w, events[..n]));
      StepKeepsUniqueIds(After(w, events[..n]), events[n]);
    }
    UniqueIdsAreDistinct(After(w, events).runs);
  }

  lemma ConsistentThreads(w: World)
    requires Consistent(w)
    ensures UniqueThreads(w.threads)
  {
  }

  // ---- Rounds as histories ------------------------------------------------------------------------------

  lemma AfterSnoc(w: World, events: seq<Event>, e: Event)
    ensures After(w, events + [e]) == Apply(After(w, events), e)
  {
    hide Apply;
    assert (events + [e])[..|events|] == events;
  }

  lemma {:induction false} AfterConcat(w: World, a: seq<Event>, b: seq<Event>)
    ensures After(w, a + b) == After(After(w, a), b)
  {
    hide Apply;
    if |b| == 0 {
      assert a + b == a;
    } else {
      var n := |b| - 1;
      assert a + b == (a + b[..n]) + [b[n]];
      AfterConcat(w, a, b[..n]);
      AfterSnoc(w, a + b[..n], b[n]);
    }
  }

  lemma {:induction false} SetRunStatusAt(runs: seq<Run>, i: nat, status: RunStatus)
    requires UniqueIds(runs) && i < |runs|
    ensures SetRunStatus(runs, runs[i].id, status) == runs[i := runs[i].(status := status)]
  {
    if i > 0 {
      assert runs[0].id != runs[i].id;
      SetRunStatusAt(runs[1..], i - 1, status);
    }
  }

  /** Each running run gets its final status, in order. */
  function CompletionEvents(runs: seq<Run>, outcome: Run -> RunStatus): seq<Event> {
    if |runs| == 0 then []
    else
      var last := runs[|runs| - 1];
      CompletionEvents(runs[..|runs| - 1], outcome) + if last.status == Running then [SetStatus(last.id, outcome(last))] else []
  }

  lemma {:induction false} CompletionIsEvents(w: World, outcome: Run -> RunStatus, n: nat)
    requires UniqueIds(w.runs) && n <= |w.runs|
    ensures After(w, CompletionEvents(w.runs[..n], outcome)) == w.(runs := Complete(w.runs[..n], outcome) + w.runs[n..])
  {
    hide UniqueIds, Complete, Apply;
    if n == 0 {
      NothingCompleted(w.runs, outcome);
    } else {
      var k := n - 1;
      var r := w.runs[k];
      assert w.runs[..n][..k] == w.runs[..k] && w.runs[..n][k] == r;
      CompletionIsEvents(w, outcome, k);
      CompletedShape(w.runs, outcome, k);
      CompletedNext(w.runs, outcome, k);
      var done := CompletionEvents(w.runs[..k], outcome);
      hide CompletionEvents, After;
      assert CompletionEvents(w.runs[..n], outcome) == done + if r.status == Running then [SetStatus(r.id, outcome(r))] else [] by {
        CompletionSnoc(w.runs[..n], outcome);
      }
      if r.status == Running {
        AfterSnoc(w, done, SetStatus(r.id, outcome(r)));
        FinishOne(w.(runs := Complete(w.runs[..k], outcome) + w.runs[k..]), k, outcome(r));
      } else {
        assert done + [] == done;
      }
    }
  }

  lemma CompletionSnoc(runs: seq<Run>, outcome: Run -> RunStatus)
    requires |runs| > 0
    ensures var last := runs[|runs| - 1];
      CompletionEvents(runs, outcome)
        == CompletionEvents(runs[..|runs| - 1], outcome) + if last.status == Running then [SetStatus(last.id, outcome(last))] else []
  {
  }

  lemma NothingCompleted(runs: seq<Run>, outcome: Run -> RunStatus)
    ensures Complete(runs[..0], outcome) + runs[0..] == runs
  {
  }

  lemma CompletedShape(runs: seq<Run>, outcome: Run -> RunStatus, k: nat)
    requires k < |runs| && UniqueIds(runs)
    ensures var before := Complete(runs[..k], outcome) + runs[k..];
      |before| == |runs| && before[k] == runs[k] && UniqueIds(before)
  {
    var before := Complete(runs[..k], outcome) + runs[k..];
    forall i | 0 <= i < |runs| ensures before[i].id == runs[i].id {}
    SameIdsUnique(runs, before);
  }

  lemma FinishOne(w: World, k: nat, status: RunStatus)
    requires k < |w.runs| && UniqueIds(w.runs)
    ensures Apply(w, SetStatus(w.runs[k].id, status)) == w.(runs := w.runs[k := w.runs[k].(status := status)])
  {
    SetRunStatusAt(w.runs, k, status);
  }

  lemma CompletedNext(runs: seq<Run>, outcome: Run -> RunStatus, k: nat)
    requires k < |runs|
    ensures var before := Complete(runs[..k], outcome) + runs[k..]; var r := runs[k];
      Complete(runs[..k + 1], outcome) + runs[k + 1..]
        == if r.status == Running then before[k := r.(status := outcome(r))] else before
  {
  }

  /** A dispatch, and then a status update for every running run. */
  function RoundEvents(w: World, round: Round): seq<Event> {
    [Dispatch(round.now, round.limit)] + CompletionEvents(Next(w, round.now, round.limit).runs, round.outcome)
  }

  function RoundsEvents(w: World, rounds: seq<Round>): seq<Event> {
    if |rounds| == 0 then []
    else
      var n := |rounds| - 1;
      RoundsEvents(w, rounds[..n]) + RoundEvents(PlayRounds(w, rounds[..n]), rounds[n])
  }

  lemma RoundIsEvents(w: World, round: Round)
    requires UniqueIds(w.runs)
    ensures After(w, RoundEvents(w, round)) == PlayRound(w, round) && UniqueIds(PlayRound(w, round).runs)
  {
    hide Next, CompletionEvents;
    var q := Next(w, round.now, round.limit);
    var v := w.(runs := q.runs, attempts := q.attempts);
    NextStartsExactly(w, round.now, round.limit);
    SameIdsUnique(w.runs, q.runs);
    SameIdsUnique(w.runs, PlayRound(w, round).runs);
    AfterConcat(w, [Dispatch(round.now, round.limit)], CompletionEvents(q.runs, round.outcome));
    AfterSnoc(w, [], Dispatch(round.now, round.limit));
    assert [] + [Dispatch(round.now, round.limit)] == [Dispatch(round.now, round.limit)];
    CompletionIsEvents(v, round.outcome, |q.runs|);
    assert q.runs[..|q.runs|] == q.runs;
    assert Complete(q.runs, round.outcome) + q.runs[|q.runs|..] == Complete(q.runs, round.outcome);
  }

  lemma {:induction false} CompletionAllowed(runs: seq<Run>, outcome: Run -> RunStatus)
    requires Terminal(outcome)
    ensures forall e :: e in CompletionEvents(runs, outcome) ==> Allowed(e) && e.SetStatus?
  {
    if |runs| > 0 { CompletionAllowed(runs[..|runs| - 1], outcome); }
  }

  /** Rounds are histories of allowed operations: dispatches and status updates. */
  lemma {:induction false} RoundsAreEvents(w: World, rounds: seq<Round>)
    requires UniqueIds(w.runs) && forall k :: 0 <= k < |rounds| ==> Terminal(rounds[k].outcome)
    ensures After(w, RoundsEvents(w, rounds)) == PlayRounds(w, rounds) && UniqueIds(PlayRounds(w, rounds).runs)
    ensures forall e :: e in RoundsEvents(w, rounds) ==> Allowed(e) && (e.Dispatch? || e.SetStatus?)
  {
    hide PlayRound, RoundEvents, UniqueIds, Terminal, Allowed, Apply;
    if |rounds| > 0 {
      var n := |rounds| - 1;
      RoundsAreEvents(w, rounds[..n]);
      var v := PlayRounds(w, rounds[..n]);
      RoundIsEvents(v, rounds[n]);
      AfterConcat(w, RoundsEvents(w, rounds[..n]), RoundEvents(v, rounds[n]));
      RoundAllowed(v, rounds[n]);
    }
  }

  lemma RoundAllowed(w: World, round: Round)
    requires Terminal(round.outcome)
    ensures forall e :: e in RoundEvents(w, round) ==> Allowed(e) && (e.Dispatch? || e.SetStatus?)
  {
    hide Next, CompletionEvents;
    CompletionAllowed(Next(w, round.now, round.limit).runs, round.outcome);
  }

  /** Draining, as a history: with nothing running and every thread in place, dispatching and
      finishing what was started leaves at most as many runs due as there were less the rounds. */
  lemma HistoryDrains(w: World, rounds: seq<Round>, due: Time)
    requires RefsExist(w) && NothingRunning(w.runs) && UniqueIds(w.runs)
    requires forall k :: 0 <= k < |rounds| ==> rounds[k].limit >= 1 && due <= rounds[k].now && Terminal(rounds[k].outcome)
    ensures var v := After(w, RoundsEvents(w, rounds));
      && RefsExist(v) && NothingRunning(v.runs)
      && DueCount(v.runs, due) <= if |rounds| <= DueCount(w.runs, due) then DueCount(w.runs, due) - |rounds| else 0
  {
    hide After, RoundsEvents, PlayRounds, RefsExist, NothingRunning, UniqueIds, Terminal;
    RoundsAreEvents(w, rounds);
    RoundsDrain(w, rounds, due);
  }
}
