/** What the dispatcher hands out over a run: attempt numbers, the earliest run of each thread, and
    progress until no due run is left (ops.py, database.py). */
module DispatchProgress {
  import opened CheckpointModel
  import opened RuntimeState
  import opened Dispatch
  import opened RunLifecycle
  import opened ThreadTtl
  import opened DispatchRuns

  // ---- The runs one call yields -----------------------------------------------------------------------

  predicate Yielded(started: seq<Start>, position: nat) {
    exists k :: 0 <= k < |started| && started[k].position == position
  }

  /** The yielded runs are those whose status the call sets to running, as they were listed. */
  lemma {:induction false} YieldedAreStarted(q: Queue, threads: seq<Thread>, window: seq<nat>)
    requires InOrder(q.runs, window) && q.started == []
    requires forall k :: 0 <= k < |window| ==> q.runs[window[k]].status == Pending
    ensures var after := StartAll(q, threads, window);
      && (forall i :: 0 <= i < |q.runs| ==> (Yielded(after.started, i) <==> Started(q.runs, threads, window, i)))
      && (forall k :: 0 <= k < |after.started| ==> var s := after.started[k];
            s.position < |q.runs| && var r := q.runs[s.position]; s.run == r.id && s.thread == r.thread && s.createdAt == r.createdAt)
  {
    if |window| == 0 {
      assert forall i :: !Started(q.runs, threads, window, i);
    } else {
      var n := |window| - 1;
      var init := window[..n];
      YieldedAreStarted(q, threads, init);
      StartsExactly(q, threads, init);
      var before := StartAll(q, threads, init);
      var after := TryStart(before, threads, window[n]);
      ThreadFreeInLoop(q.runs, threads, window, before.runs);
      assert before.runs[window[n]] == q.runs[window[n]];
      forall i | 0 <= i < |q.runs| ensures Yielded(after.started, i) <==> Started(q.runs, threads, window, i) {
        StartedPrefix(q.runs, threads, window, i);
        YieldedGrows(before, after, threads, window[n], i);
      }
    }
  }

  lemma YieldedGrows(before: Queue, after: Queue, threads: seq<Thread>, p: nat, i: nat)
    requires p < |before.runs| && after == TryStart(before, threads, p)
    ensures var r := before.runs[p];
      Yielded(after.started, i) <==>
        (Yielded(before.started, i) || (i == p && r.status == Pending && HasThread(threads, r.thread) && !RunningOn(before.runs, r.thread)))
  {
    if Yielded(before.started, i) {
      var k :| 0 <= k < |before.started| && before.started[k].position == i;
      assert after.started[k].position == i;
    }
    if after != before { assert after.started[|before.started|].position == p; }
  }

  /** The first due run of a thread in the window comes before every other due run of the thread. */
  lemma FirstInWindowIsEarliest(w: World, now: Time, limit: int, k: nat)
    requires k < |Window(w.runs, now, limit)| && Startable(w.runs, w.threads, Window(w.runs, now, limit), k)
    ensures var p := Window(w.runs, now, limit)[k];
      forall j :: 0 <= j < |w.runs| && Due(w.runs[j], now) && w.runs[j].thread == w.runs[p].thread && j != p ==> Earlier(w.runs, p, j)
  {
    var order, window := DueOrder(w.runs, now, |w.runs|), Window(w.runs, now, limit);
    DueOrderSorted(w.runs, now, |w.runs|);
    hide DueOrder;
    assert forall q :: 0 <= q <= k ==> order[q] == window[q];
    forall j | 0 <= j < |w.runs| && Due(w.runs[j], now) && w.runs[j].thread == w.runs[window[k]].thread && j != window[k]
      ensures Earlier(w.runs, window[k], j)
    {
      assert j in order;
      var m :| 0 <= m < |order| && order[m] == j;
      assert m != k;
    }
  }

  /** Every run a call starts was pending, created before the call's time, and the earliest due run
      of its thread. */
  lemma StartedIsEarliest(w: World, now: Time, limit: int, s: Start)
    requires s in Next(w, now, limit).started
    ensures s.position < |w.runs| && Due(w.runs[s.position], now)
    ensures s.run == w.runs[s.position].id && s.thread == w.runs[s.position].thread && s.createdAt == w.runs[s.position].createdAt < now
    ensures forall j :: 0 <= j < |w.runs| && Due(w.runs[j], now) && w.runs[j].thread == s.thread && j != s.position ==>
      Earlier(w.runs, s.position, j)
  {
    var window := Window(w.runs, now, limit);
    var started := Next(w, now, limit).started;
    NextStartsExactly(w, now, limit);
    YieldedAreStarted(Queue(w.runs, w.attempts, []), w.threads, window);
    hide Next, StartAll, Window, Startable;
    var n :| 0 <= n < |started| && started[n] == s;
    assert Yielded(started, s.position);
    assert Started(w.runs, w.threads, window, s.position);
    var k :| 0 <= k < |window| && window[k] == s.position && Startable(w.runs, w.threads, window, k);
    FirstInWindowIsEarliest(w, now, limit, k);
  }

  /** A call never yields more runs than its limit: one per window place. */
  lemma {:induction false} YieldsAtMostWindow(q: Queue, threads: seq<Thread>, window: seq<nat>)
    requires Positions(q.runs, window)
    ensures |StartAll(q, threads, window).started| <= |q.started| + |window|
  {
    if |window| > 0 { YieldsAtMostWindow(q, threads, window[..|window| - 1]); }
  }

  lemma YieldsAtMostLimit(w: World, now: Time, limit: nat)
    ensures |Next(w, now, limit).started| <= limit
  {
    YieldsAtMostWindow(Queue(w.runs, w.attempts, []), w.threads, Window(w.runs, now, limit));
  }

  // ---- Attempt numbers ------------------------------------------------------------------------------------

  function CountStarts(log: seq<Start>, id: RunId): nat {
    if |log| == 0 then 0 else CountStarts(log[..|log| - 1], id) + One(log[|log| - 1].run == id)
  }

  /** Every start carries its run's next number, counting from `base`. */
  ghost predicate Numbered(base: map<RunId, nat>, log: seq<Start>) {
    forall i :: 0 <= i < |log| ==> log[i].attempt == AttemptsOf(base, log[i].run) + CountStarts(log[..i], log[i].run) + 1
  }

  ghost predicate Counted(base: map<RunId, nat>, log: seq<Start>, attempts: map<RunId, nat>) {
    Numbered(base, log) && forall id :: AttemptsOf(attempts, id) == AttemptsOf(base, id) + CountStarts(log, id)
  }

  lemma CountSnoc(log: seq<Start>, s: Start, id: RunId)
    ensures CountStarts(log + [s], id) == CountStarts(log, id) + One(s.run == id)
  {
    assert (log + [s])[..|log|] == log;
  }

  lemma NumberedGrows(base: map<RunId, nat>, log: seq<Start>, s: Start)
    requires Numbered(base, log) && s.attempt == AttemptsOf(base, s.run) + CountStarts(log, s.run) + 1
    ensures Numbered(base, log + [s])
  {
    hide CountStarts, AttemptsOf;
    var all := log + [s];
    assert all[..|log|] == log;
    forall i | 0 <= i < |all| ensures all[i].attempt == AttemptsOf(base, all[i].run) + CountStarts(all[..i], all[i].run) + 1 {
      if i < |log| { assert all[..i] == log[..i]; }
    }
  }

  lemma CountedGrows(base: map<RunId, nat>, log: seq<Start>, attempts: map<RunId, nat>, s: Start)
    requires Counted(base, log, attempts)
    requires s.attempt == AttemptsOf(attempts, s.run) + 1
    ensures Counted(base, log + [s], attempts[s.run := s.attempt])
  {
    hide CountStarts, Numbered;
    NumberedGrows(base, log, s);
    forall id ensures AttemptsOf(attempts[s.run := s.attempt], id) == AttemptsOf(base, id) + CountStarts(log + [s], id) {
      CountSnoc(log, s, id);
    }
  }

  lemma {:induction false} StartAllCounted(base: map<RunId, nat>, log: seq<Start>, q: Queue, threads: seq<Thread>, window: seq<nat>)
    requires Positions(q.runs, window) && q.started == []
    requires Counted(base, log, q.attempts)
    ensures var after := StartAll(q, threads, window); Counted(base, log + after.started, after.attempts)
  {
    if |window| == 0 {
      assert log + q.started == log;
    } else {
      var n := |window| - 1;
      StartAllCounted(base, log, q, threads, window[..n]);
      var before := StartAll(q, threads, window[..n]);
      var after := TryStart(before, threads, window[n]);
      if after != before {
        var s := after.started[|before.started|];
        CountedGrows(base, log + before.started, before.attempts, s);
        assert log + after.started == log + before.started + [s];
      }
    }
  }

  /** The starts of one event. */
  ghost function Starts(w: World, e: Event): seq<Start> {
    if e.Dispatch? then Next(w, e.now, e.limit).started else []
  }

  ghost function StartLog(w: World, events: seq<Event>): seq<Start> {
    if |events| == 0 then []
    else
      var n := |events| - 1;
      StartLog(w, events[..n]) + Starts(After(w, events[..n]), events[n])
  }

  lemma OthersKeepAttempts(w: World, e: Event)
    requires !e.Dispatch?
    ensures Apply(w, e).attempts == w.attempts
  {
    hide InterruptAll, DeleteRuns, EagerDeletes, DeleteRunData, DeleteData, ProcessBatched;
    if e.SweepThreads? && e.batchSize > 0 {
      SweepKeepsAttempts(Progress(w, 0, 0), Take(DueList(w, e.global, e.when), e.most), e.batchSize);
    }
    if e.CancelRuns? {
      var selected := Selecting(e.selector);
      InterruptAllShape(w, selected, e.rollback, e.queues, e.at, |w.runs|);
      DeleteRunsStarts(InterruptAll(w, selected, e.rollback, e.queues, e.at, |w.runs|), EagerDeletes(w.runs, selected, e.rollback, e.queues));
    }
  }

  lemma {:induction false} FinishAllKeepsAttempts(p: Progress, items: seq<Expired>)
    ensures FinishAll(p, items).world.attempts == p.world.attempts
  {
    hide DeleteData;
    if |items| > 0 { FinishAllKeepsAttempts(p, items[..|items| - 1]); }
  }

  lemma {:induction false} SweepKeepsAttempts(p: Progress, items: seq<Expired>, batchSize: nat)
    requires batchSize > 0
    ensures ProcessBatched(p, items, batchSize).world.attempts == p.world.attempts
    decreases |items|
  {
    hide FinishAll, PruneAll;
    if |items| > 0 {
      var batch := if |items| <= batchSize then items else items[..batchSize];
      FinishAllKeepsAttempts(WithData(p, PruneAll(p.world.data, KeepLatestIds(batch))), batch);
      if |items| > batchSize { SweepKeepsAttempts(ProcessBatch(p, batch), items[batchSize..], batchSize); }
    }
  }

  lemma {:induction false} LogCounted(w: World, events: seq<Event>)
    ensures Counted(w.attempts, StartLog(w, events), After(w, events).attempts)
  {
    hide Counted;
    if |events| == 0 {
      NothingCounted(w.attempts);
    } else {
      var n := |events| - 1;
      LogCounted(w, events[..n]);
      var v := After(w, events[..n]);
      if events[n].Dispatch? {
        StartAllCounted(w.attempts, StartLog(w, events[..n]), Queue(v.runs, v.attempts, []), v.threads, Window(v.runs, events[n].now, events[n].limit));
      } else {
        OthersKeepAttempts(v, events[n]);
        assert StartLog(w, events) == StartLog(w, events[..n]);
      }
    }
  }

  lemma NothingCounted(base: map<RunId, nat>)
    ensures Counted(base, [], base)
  {
  }

  /** From fresh counters the attempts handed out for a run are 1, 2, 3, ... in dispatch order,
      whatever happens in between. */
  lemma AttemptsAreConsecutive(w: World, events: seq<Event>, i: nat)
    requires w.attempts == map[]
    requires i < |StartLog(w, events)|
    ensures var log := StartLog(w, events); log[i].attempt == CountStarts(log[..i], log[i].run) + 1
  {
    LogCounted(w, events);
  }

  // ---- Progress ---------------------------------------------------------------------------------------------

  function DueCount(runs: seq<Run>, now: Time): nat {
    if |runs| == 0 then 0 else DueCount(runs[..|runs| - 1], now) + One(Due(runs[|runs| - 1], now))
  }

  ghost predicate NothingRunning(runs: seq<Run>) {
    forall i :: 0 <= i < |runs| ==> runs[i].status != Running
  }

  lemma {:induction false} DueCountPositive(runs: seq<Run>, now: Time)
    ensures DueCount(runs, now) > 0 <==> exists i :: 0 <= i < |runs| && Due(runs[i], now)
  {
    if |runs| > 0 {
      var n := |runs| - 1;
      DueCountPositive(runs[..n], now);
      if DueCount(runs[..n], now) > 0 {
        var i :| 0 <= i < n && Due(runs[..n][i], now);
        assert Due(runs[i], now);
      }
      if exists i :: 0 <= i < |runs| && Due(runs[i], now) {
        var i :| 0 <= i < |runs| && Due(runs[i], now);
        if i < n { assert Due(runs[..n][i], now); }
      }
    }
  }

  /** Turning pending runs into others removes them from the due ones. */
  lemma {:induction false} DueCountShrinks(before: seq<Run>, after: seq<Run>, now: Time)
    requires |after| == |before|
    requires forall i :: 0 <= i < |before| && Due(after[i], now) ==> Due(before[i], now)
    ensures DueCount(after, now) <= DueCount(before, now)
    ensures (exists i :: 0 <= i < |before| && Due(before[i], now) && !Due(after[i], now)) ==> DueCount(after, now) < DueCount(before, now)
  {
    if |before| > 0 {
      var n := |before| - 1;
      DueCountShrinks(before[..n], after[..n], now);
      if exists i :: 0 <= i < |before| && Due(before[i], now) && !Due(after[i], now) {
        var i :| 0 <= i < |before| && Due(before[i], now) && !Due(after[i], now);
        if i < n { assert Due(before[..n][i], now) && !Due(after[..n][i], now); }
      }
    }
  }

  /** With nothing running and every run's thread in place, a call starts the earliest due run. */
  lemma NextStartsEarliest(w: World, now: Time, limit: int)
    requires RefsExist(w) && NothingRunning(w.runs) && limit >= 1
    requires exists i :: 0 <= i < |w.runs| && Due(w.runs[i], now)
    ensures var q := Next(w, now, limit); var window := Window(w.runs, now, limit);
      && |window| > 0 && q.runs[window[0]].status == Running
      && |q.started| >= 1
      && forall j :: 0 <= j < |w.runs| && Due(w.runs[j], now) ==> w.runs[window[0]].createdAt <= w.runs[j].createdAt
  {
    var window := Window(w.runs, now, limit);
    FirstOfWindow(w.runs, now, limit);
    NextStartsExactly(w, now, limit);
    FirstIsStartable(w, window);
    hide Window, Startable;
    YieldedAreStarted(Queue(w.runs, w.attempts, []), w.threads, window);
    assert Yielded(Next(w, now, limit).started, window[0]);
  }

  lemma FirstIsStartable(w: World, window: seq<nat>)
    requires RefsExist(w) && NothingRunning(w.runs)
    requires |window| > 0 && forall k :: 0 <= k < |window| ==> window[k] < |w.runs|
    ensures Started(w.runs, w.threads, window, window[0])
  {
    assert w.runs[window[0]] in w.runs;
    assert Startable(w.runs, w.threads, window, 0);
  }

  /** The window of due runs starts with the earliest. */
  lemma FirstOfWindow(runs: seq<Run>, now: Time, limit: int)
    requires limit >= 1
    requires exists i :: 0 <= i < |runs| && Due(runs[i], now)
    ensures var window := Window(runs, now, limit);
      && |window| > 0 && (forall k :: 0 <= k < |window| ==> window[k] < |runs|)
      && Due(runs[window[0]], now)
      && forall j :: 0 <= j < |runs| && Due(runs[j], now) ==> runs[window[0]].createdAt <= runs[j].createdAt
  {
    var order, window := DueOrder(runs, now, |runs|), Window(runs, now, limit);
    DueOrderSorted(runs, now, |runs|);
    var i :| 0 <= i < |runs| && Due(runs[i], now);
    assert i in order;
    assert window[0] == order[0];
    forall j | 0 <= j < |runs| && Due(runs[j], now) ensures runs[window[0]].createdAt <= runs[j].createdAt {
      assert j in order;
      var m :| 0 <= m < |order| && order[m] == j;
      if m > 0 { assert Earlier(runs, order[0], order[m]); }
    }
  }

  /** All running runs finish, each with a status of its own. */
  function Complete(runs: seq<Run>, outcome: Run -> RunStatus): seq<Run> {
    seq(|runs|, i requires 0 <= i < |runs| => if runs[i].status == Running then runs[i].(status := outcome(runs[i])) else runs[i])
  }

  ghost predicate Terminal(outcome: Run -> RunStatus) {
    forall r :: outcome(r) != Pending && outcome(r) != Running
  }

  datatype Round = Round(now: Time, limit: int, outcome: Run -> RunStatus)

  /** One round: dispatch, then let everything started finish. */
  function PlayRound(w: World, round: Round): World {
    var q := Next(w, round.now, round.limit);
    w.(runs := Complete(q.runs, round.outcome), attempts := q.attempts)
  }

  function PlayRounds(w: World, rounds: seq<Round>): World {
    if |rounds| == 0 then w else PlayRound(PlayRounds(w, rounds[..|rounds| - 1]), rounds[|rounds| - 1])
  }

  lemma RoundRuns(w: World, round: Round, i: nat)
    requires i < |w.runs| && Terminal(round.outcome)
    ensures var before, after := w.runs[i], PlayRound(w, round).runs;
      && |after| == |w.runs|
      && after[i].thread == before.thread && after[i].status != Running
      && (after[i] == before || (after[i].status != Pending && (before.status == Running || Next(w, round.now, round.limit).runs[i].status == Running)))
  {
    NextStartsExactly(w, round.now, round.limit);
    hide Next, Window, Started;
  }

  lemma RoundKeepsLists(w: World, round: Round)
    ensures var v := PlayRound(w, round); |v.runs| == |w.runs| && v.threads == w.threads && v.crons == w.crons
  {
    NextStartsExactly(w, round.now, round.limit);
    hide Next, Window, Started;
  }

  lemma RoundMakesProgress(w: World, round: Round, due: Time)
    requires RefsExist(w) && NothingRunning(w.runs)
    requires round.limit >= 1 && due <= round.now && Terminal(round.outcome)
    ensures var v := PlayRound(w, round);
      && RefsExist(v) && NothingRunning(v.runs)
      && DueCount(v.runs, due) <= DueCount(w.runs, due)
      && (DueCount(w.runs, due) > 0 ==> DueCount(v.runs, due) < DueCount(w.runs, due))
  {
    var v := PlayRound(w, round);
    RoundKeepsLists(w, round);
    hide PlayRound, DueCount, HasThread;
    forall i | 0 <= i < |w.runs|
      ensures v.runs[i].thread == w.runs[i].thread && v.runs[i].status != Running && (v.runs[i] == w.runs[i] || v.runs[i].status != Pending) {
      RoundRuns(w, round, i);
    }
    SameThreadsKeepRefs(w.runs, v.runs, w.threads, w.threads);
    DueCountPositive(w.runs, due);
    if DueCount(w.runs, due) > 0 { RoundTakesDueRun(w, round, due); }
    DueCountShrinks(w.runs, v.runs, due);
  }

  /** A run that was due is started by the round. */
  lemma RoundTakesDueRun(w: World, round: Round, due: Time)
    requires RefsExist(w) && NothingRunning(w.runs)
    requires round.limit >= 1 && due <= round.now && Terminal(round.outcome)
    requires exists i :: 0 <= i < |w.runs| && Due(w.runs[i], due)
    ensures |PlayRound(w, round).runs| == |w.runs|
    ensures exists i :: 0 <= i < |w.runs| && Due(w.runs[i], due) && !Due(PlayRound(w, round).runs[i], due)
  {
    var i :| 0 <= i < |w.runs| && Due(w.runs[i], due);
    assert Due(w.runs[i], round.now);
    NextStartsEarliest(w, round.now, round.limit);
    NextStartsExactly(w, round.now, round.limit);
    var first := Window(w.runs, round.now, round.limit)[0];
    hide Next, Window;
    assert w.runs[first].createdAt <= w.runs[i].createdAt;
    RoundRuns(w, round, first);
    assert Due(w.runs[first], due) && !Due(PlayRound(w, round).runs[first], due);
  }

  /** Alternating dispatch and completion drains the runs that were due in at most as many rounds as
      there are due runs, whatever the limits, and even while later runs become due as well. */
  lemma {:induction false} RoundsDrain(w: World, rounds: seq<Round>, due: Time)
    requires RefsExist(w) && NothingRunning(w.runs)
    requires forall k :: 0 <= k < |rounds| ==> rounds[k].limit >= 1 && due <= rounds[k].now && Terminal(rounds[k].outcome)
    ensures RefsExist(PlayRounds(w, rounds)) && NothingRunning(PlayRounds(w, rounds).runs)
    ensures DueCount(PlayRounds(w, rounds).runs, due) <= if |rounds| <= DueCount(w.runs, due) then DueCount(w.runs, due) - |rounds| else 0
  {
    hide PlayRound, RefsExist, NothingRunning;
    if |rounds| > 0 {
      var n := |rounds| - 1;
      RoundsDrain(w, rounds[..n], due);
      RoundMakesProgress(PlayRounds(w, rounds[..n]), rounds[n], due);
    }
  }
}
