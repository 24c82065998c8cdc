/** What cancelling and finishing runs leaves behind (ops.py). */
module RunOutcomes {
  import opened CheckpointModel
  import opened RuntimeState
  import opened RunLifecycle

  // ---- Threads.set_joint_status ------------------------------------------------------------------------

  lemma {:induction false} StatusIsSet(runs: seq<Run>, run: RunId, thread: ThreadId, status: RunStatus)
    requires exists i :: 0 <= i < |runs| && IsRun(runs[i], run, thread)
    ensures exists r :: r in SetRunStatusOn(runs, run, thread, status) && IsRun(r, run, thread) && r.status == status
  {
    var after := SetRunStatusOn(runs, run, thread, status);
    if IsRun(runs[0], run, thread) {
      assert after[0] in after && IsRun(after[0], run, thread);
    } else {
      var i :| 0 <= i < |runs| && IsRun(runs[i], run, thread);
      assert IsRun(runs[1..][i - 1], run, thread);
      StatusIsSet(runs[1..], run, thread, status);
      var r :| r in SetRunStatusOn(runs[1..], run, thread, status) && IsRun(r, run, thread) && r.status == status;
      assert r in after;
    }
  }

  /** After a joint status update the thread is busy exactly when it still has an active run. */
  lemma JointStatusBusyIffActive(w: World, thread: ThreadId, run: RunId, status: JointStatus, hasNext: bool, failed: bool, now: Time)
    requires SetJointStatus(w, thread, run, status, hasNext, failed, now).Some?
    ensures var v := SetJointStatus(w, thread, run, status, hasNext, failed, now).value;
      var row := FindThread(v.threads, thread);
      row.Some? && (v.threads[row.value].status == Busy <==> exists r :: r in v.runs && r.thread == thread && r.Active())
  {
    hide DeleteRunData;
    var v := SetJointStatus(w, thread, run, status, hasNext, failed, now).value;
    var row := FindThread(w.threads, thread);
    assert v.threads[row.value].id == thread;
    assert HasThread(v.threads, thread);
    SameFirst(w.threads, v.threads, thread);
    ActiveOnMembers(v.runs, thread);
    NonEmptyHasMember(ActiveOn(v.runs, thread));
    if status.To? { StatusIsSet(w.runs, run, thread, status.status); }
  }

  /** The same after an update of the thread's status alone. */
  lemma ThreadStatusBusyIffActive(w: World, thread: ThreadId, hasNext: bool, failed: bool, now: Time)
    requires HasThread(w.threads, thread)
    ensures var r := SetThreadStatus(w, thread, hasNext, failed, now);
      && r.Some? && r.value.runs == w.runs
      && var row := FindThread(r.value.threads, thread);
         row.Some? && (r.value.threads[row.value].status == Busy <==> exists r :: r in w.runs && r.thread == thread && r.Active())
  {
    var v := SetThreadStatus(w, thread, hasNext, failed, now).value;
    SameFirst(w.threads, v.threads, thread);
    ActiveOnMembers(w.runs, thread);
    NonEmptyHasMember(ActiveOn(w.runs, thread));
  }

  lemma NonEmptyHasMember<T>(s: seq<T>)
    ensures |s| > 0 <==> exists x :: x in s
  {
    if |s| > 0 { assert s[0] in s; }
  }

  /** The first row of an id stays first while ids do not move. */
  lemma SameFirst(threads: seq<Thread>, later: seq<Thread>, id: ThreadId)
    requires |later| == |threads| && forall i :: 0 <= i < |threads| ==> later[i].id == threads[i].id
    ensures FindThread(later, id) == FindThread(threads, id)
  {
    var a, b := FindThread(threads, id), FindThread(later, id);
    assert HasThread(threads, id) <==> HasThread(later, id);
  }

  // ---- Runs.put ------------------------------------------------------------------------------------------

  /** No such assistant, or no such thread and it is not to be created. */
  predicate Refused(w: World, q: PutRequest) {
    !q.assistantExists || (q.thread.Some? && !HasThread(w.threads, q.thread.value) && !q.createIfMissing)
  }

  ghost predicate Inflight(w: World, thread: ThreadId) {
    exists r :: r in w.runs && r.thread == thread && (r.status == Pending || r.status == Running)
  }

  /** Exactly the thread's pending and running runs, each as often as it is stored. */
  ghost predicate ListsInflight(w: World, thread: ThreadId, listed: seq<Run>) {
    forall r :: multiset(listed)[r] ==
      if r.thread == thread && (r.status == Pending || r.status == Running) then multiset(w.runs)[r] else 0
  }

  lemma {:induction false} ActiveOnCounts(runs: seq<Run>, thread: ThreadId)
    ensures forall r :: multiset(ActiveOn(runs, thread))[r] == if r.thread == thread && r.Active() then multiset(runs)[r] else 0
  {
    if |runs| > 0 {
      ActiveOnCounts(runs[1..], thread);
      assert runs == [runs[0]] + runs[1..];
    }
  }

  /** The thread a run is put on is there and busy: added as updated now, or made busy now unless it
      was; the rows before it do not move, and no other thread changes. */
  ghost predicate ThreadReadied(before: seq<Thread>, after: seq<Thread>, thread: ThreadId, now: Time) {
    if forall i :: 0 <= i < |before| ==> before[i].id != thread then after == before + [Thread(thread, now, Busy)]
    else
      exists k :: 0 <= k < |before| && before[k].id == thread && (forall i :: 0 <= i < k ==> before[i].id != thread)
        && after == if before[k].status == Busy then before else before[k := before[k].(status := Busy, updatedAt := now)]
  }

  /** A refused put changes nothing.  Otherwise its thread is readied, and it is turned away if and
      only if it asked for that and the thread has runs in flight: then the runs stay as they are
      and exactly those in flight are handed back.  If not, exactly one run is added, pending and due
      after the delay, and it is handed back ahead of those that were in flight. */
  lemma PutRunOutcome(w: World, q: PutRequest)
    requires q.thread.None? ==> !HasThread(w.threads, q.newThread)
    ensures var r := PutRun(w, q); var v := r.world; var t := q.Target();
      && (Refused(w, q) ==> v == w && r.yielded == [])
      && (!Refused(w, q) ==>
            && ThreadReadied(w.threads, v.threads, t, q.now)
            && v == w.(threads := v.threads, runs := v.runs)
            && (v.runs == w.runs <==> q.preventIfInflight && Inflight(w, t))
            && (v.runs == w.runs ==> ListsInflight(w, t, r.yielded))
            && (v.runs != w.runs ==>
                  && |r.yielded| > 0 && v.runs == w.runs + [r.yielded[0]]
                  && r.yielded[0] == Run(q.run, t, q.assistant, Pending, q.now + q.after)
                  && ListsInflight(w, t, r.yielded[1..])))
  {
    var r := PutRun(w, q);
    var t := q.Target();
    RefusedLiteral(w, q);
    if !Refused(w, q) {
      PutRunReadies(w, q);
      InflightIs(w, t);
      hide ThreadReadied, ListsInflight, Inflight, ActiveOn, SetThread, HasThread;
      if !(q.preventIfInflight && |ActiveOn(w.runs, t)| > 0) {
        assert |r.world.runs| == |w.runs| + 1;
        assert r.yielded[1..] == ActiveOn(w.runs, t);
      }
    }
  }

  lemma RefusedLiteral(w: World, q: PutRequest)
    ensures Refused(w, q) <==> !q.assistantExists || (q.thread.Some? && FindThread(w.threads, q.thread.value).None? && !q.createIfMissing)
  {
  }

  lemma InflightIs(w: World, thread: ThreadId)
    ensures ListsInflight(w, thread, ActiveOn(w.runs, thread))
    ensures |ActiveOn(w.runs, thread)| > 0 <==> Inflight(w, thread)
  {
    ActiveOnCounts(w.runs, thread);
    ActiveOnMembers(w.runs, thread);
    NonEmptyHasMember(ActiveOn(w.runs, thread));
  }

  lemma PutRunReadies(w: World, q: PutRequest)
    requires !Refused(w, q) && (q.thread.None? ==> !HasThread(w.threads, q.newThread))
    ensures ThreadReadied(w.threads, PutRun(w, q).world.threads, q.Target(), q.now)
  {
    var t := q.Target();
    var found := FindThread(w.threads, t);
    if found.Some? {
      var k := found.value;
      assert 0 <= k < |w.threads| && w.threads[k].id == t && forall i :: 0 <= i < k ==> w.threads[i].id != t;
    } else {
      assert !HasThread(w.threads, t);
    }
  }

  // ---- Runs.cancel --------------------------------------------------------------------------------------

  /** No two runs share both id and thread. */
  ghost predicate DistinctRuns(runs: seq<Run>) {
    forall i, j :: 0 <= i < j < |runs| ==> !(runs[i].id == runs[j].id && runs[i].thread == runs[j].thread)
  }

  /** Where the first pass of a cancellation leaves each run. */
  lemma {:induction false} InterruptedAt(w: World, selected: Run -> bool, rollback: bool, queues: set<RunId>, now: Time, n: nat, i: nat)
    requires n <= |w.runs| && i < |w.runs|
    ensures var r := w.runs[i];
      InterruptAll(w, selected, rollback, queues, now, n).runs[i] ==
        if i < n && selected(r) && r.Active() && !DeletedEagerly(r, rollback, queues) then r.(status := Interrupted) else r
  {
    hide SetThread, DeletedEagerly;
    if n > 0 { InterruptedAt(w, selected, rollback, queues, now, n - 1, i); }
  }

  lemma {:induction false} EagerDeletesMembers(runs: seq<Run>, selected: Run -> bool, rollback: bool, queues: set<RunId>)
    ensures forall r :: r in EagerDeletes(runs, selected, rollback, queues) <==>
      r in runs && selected(r) && r.Active() && DeletedEagerly(r, rollback, queues)
  {
    if |runs| > 0 {
      var n := |runs| - 1;
      EagerDeletesMembers(runs[..n], selected, rollback, queues);
      assert runs == runs[..n] + [runs[n]];
    }
  }

  lemma {:induction false} RemoveRunMembers(runs: seq<Run>, run: RunId, thread: ThreadId)
    requires DistinctRuns(runs)
    ensures DistinctRuns(RemoveRun(runs, run, thread))
    ensures forall r :: r in RemoveRun(runs, run, thread) <==> r in runs && !IsRun(r, run, thread)
  {
    if |runs| > 0 {
      var head, tail := runs[0], runs[1..];
      assert forall r :: r in runs <==> r == head || r in tail;
      assert forall r :: r in tail ==> !(r.id == head.id && r.thread == head.thread);
      RemoveRunMembers(tail, run, thread);
      if !IsRun(head, run, thread) {
        var after := RemoveRun(runs, run, thread);
        assert after == [head] + RemoveRun(tail, run, thread);
        assert forall r :: r in after <==> r == head || r in RemoveRun(tail, run, thread);
        forall i, j | 0 <= i < j < |after| ensures !(after[i].id == after[j].id && after[i].thread == after[j].thread) {
          if i == 0 { assert after[j] in RemoveRun(tail, run, thread); }
        }
      }
    }
  }

  lemma {:induction false} DeleteRunsMembers(w: World, gone: seq<Run>)
    requires DistinctRuns(w.runs)
    ensures DistinctRuns(DeleteRuns(w, gone).runs)
    ensures forall r :: r in DeleteRuns(w, gone).runs <==> r in w.runs && !exists g :: g in gone && IsRun(r, g.id, g.thread)
  {
    hide DeleteRunData;
    if |gone| > 0 {
      var n := |gone| - 1;
      DeleteRunsMembers(w, gone[..n]);
      RemoveRunMembers(DeleteRuns(w, gone[..n]).runs, gone[n].id, gone[n].thread);
      assert gone == gone[..n] + [gone[n]];
      assert gone[n] in gone;
    }
  }

  lemma InterruptKeepsDistinct(w: World, selected: Run -> bool, rollback: bool, queues: set<RunId>, now: Time)
    requires DistinctRuns(w.runs)
    ensures DistinctRuns(InterruptAll(w, selected, rollback, queues, now, |w.runs|).runs)
  {
    var v := InterruptAll(w, selected, rollback, queues, now, |w.runs|);
    forall j | 0 <= j < |w.runs| ensures v.runs[j].id == w.runs[j].id && v.runs[j].thread == w.runs[j].thread {
      InterruptedAt(w, selected, rollback, queues, now, |w.runs|, j);
    }
    hide InterruptAll;
  }

  /** Cancelling leaves none of the selected runs pending or running: each is interrupted, or gone
      if it was to be rolled back with nobody listening; every other run is as before. */
  lemma CancelStopsSelected(w: World, s: Selector, rollback: bool, queues: set<RunId>, now: Time, i: nat)
    requires DistinctRuns(w.runs) && i < |w.runs|
    ensures var r := w.runs[i]; var after := Cancel(w, s, rollback, queues, now).runs;
      && (Selects(s, r) && r.Active() && DeletedEagerly(r, rollback, queues) ==> forall q :: q in after ==> !IsRun(q, r.id, r.thread))
      && (Selects(s, r) && r.Active() && !DeletedEagerly(r, rollback, queues) ==> r.(status := Interrupted) in after)
      && (!(Selects(s, r) && r.Active()) ==> r in after)
  {
    var r := w.runs[i];
    var selected := Selecting(s);
    assert selected(r) == Selects(s, r);
    var v := InterruptAll(w, selected, rollback, queues, now, |w.runs|);
    var gone := EagerDeletes(w.runs, selected, rollback, queues);
    InterruptedAt(w, selected, rollback, queues, now, |w.runs|, i);
    EagerDeletesMembers(w.runs, selected, rollback, queues);
    InterruptKeepsDistinct(w, selected, rollback, queues, now);
    hide InterruptAll, EagerDeletes, Selecting, Selects, DeletedEagerly;
    GoneIsSelf(w.runs, gone, i);
    DeleteRunsMembers(v, gone);
    hide DistinctRuns, DeleteRuns;
    assert v.runs[i] in v.runs && r in w.runs;
    if r in gone {
      assert IsRun(r, r.id, r.thread);
    } else {
      assert v.runs[i] in DeleteRuns(v, gone).runs;
    }
  }

  lemma GoneIsSelf(runs: seq<Run>, gone: seq<Run>, i: nat)
    requires DistinctRuns(runs) && i < |runs| && forall g :: g in gone ==> g in runs
    ensures forall g :: g in gone && IsRun(runs[i], g.id, g.thread) ==> g == runs[i]
  {
    forall g | g in gone && IsRun(runs[i], g.id, g.thread) ensures g == runs[i] {
      var j :| 0 <= j < |runs| && runs[j] == g;
    }
  }

  // ---- Runs.cancel, for runs that may share an id ---------------------------------------------------------

  /** The runs with this id on this thread, in order. */
  function Of(runs: seq<Run>, id: RunId, thread: ThreadId): seq<Run> {
    if |runs| == 0 then []
    else (if IsRun(runs[0], id, thread) then [runs[0]] else []) + Of(runs[1..], id, thread)
  }

  lemma {:induction false} OfConcat(a: seq<Run>, b: seq<Run>, id: RunId, thread: ThreadId)
    ensures Of(a + b, id, thread) == Of(a, id, thread) + Of(b, id, thread)
  {
    if |a| == 0 {
      assert a + b == b;
    } else {
      assert (a + b)[1..] == a[1..] + b;
      OfConcat(a[1..], b, id, thread);
    }
  }

  lemma OfSnoc(runs: seq<Run>, r: Run, id: RunId, thread: ThreadId)
    ensures Of(runs + [r], id, thread) == Of(runs, id, thread) + if IsRun(r, id, thread) then [r] else []
  {
    OfConcat(runs, [r], id, thread);
    assert [r][1..] == [];
  }

  lemma {:induction false} OfRemoveRun(runs: seq<Run>, gone: Run, id: RunId, thread: ThreadId)
    ensures var o := Of(runs, id, thread);
      Of(RemoveRun(runs, gone.id, gone.thread), id, thread) == if IsRun(gone, id, thread) && |o| > 0 then o[1..] else o
  {
    if |runs| > 0 && !IsRun(runs[0], gone.id, gone.thread) {
      var rest := RemoveRun(runs[1..], gone.id, gone.thread);
      OfRemoveRun(runs[1..], gone, id, thread);
      assert ([runs[0]] + rest)[1..] == rest;
    }
  }

  function Smaller(a: nat, b: nat): nat { if a < b then a else b }

  /** Each deletion takes the first run with its id and thread. */
  lemma {:induction false} OfDeleteRuns(w: World, gone: seq<Run>, id: RunId, thread: ThreadId)
    ensures var o := Of(w.runs, id, thread);
      Of(DeleteRuns(w, gone).runs, id, thread) == o[Smaller(|Of(gone, id, thread)|, |o|)..]
  {
    hide DeleteRunData, Of, RemoveRun;
    if |gone| == 0 {
      assert gone == [];
      NothingOf(id, thread);
    } else {
      var n := |gone| - 1;
      assert gone == gone[..n] + [gone[n]];
      OfDeleteRuns(w, gone[..n], id, thread);
      OfRemoveRun(DeleteRuns(w, gone[..n]).runs, gone[n], id, thread);
      OfSnoc(gone[..n], gone[n], id, thread);
      hide IsRun;
      assert DeleteRuns(w, gone).runs == RemoveRun(DeleteRuns(w, gone[..n]).runs, gone[n].id, gone[n].thread);
    }
  }

  lemma NothingOf(id: RunId, thread: ThreadId)
    ensures Of([], id, thread) == []
  {
  }

  predicate Rolled(s: Selector, rollback: bool, queues: set<RunId>, r: Run) {
    Selects(s, r) && r.Active() && DeletedEagerly(r, rollback, queues)
  }

  /** Where the first pass leaves a run. */
  function Stopped(s: Selector, rollback: bool, queues: set<RunId>, r: Run): Run {
    if Selects(s, r) && r.Active() && !DeletedEagerly(r, rollback, queues) then r.(status := Interrupted) else r
  }

  function StopAll(s: Selector, rollback: bool, queues: set<RunId>, runs: seq<Run>): seq<Run> {
    seq(|runs|, i requires 0 <= i < |runs| => Stopped(s, rollback, queues, runs[i]))
  }

  function RolledBack(s: Selector, rollback: bool, queues: set<RunId>, runs: seq<Run>): seq<Run> {
    EagerDeletes(runs, Selecting(s), rollback, queues)
  }

  lemma {:induction false} OfStopAll(s: Selector, rollback: bool, queues: set<RunId>, runs: seq<Run>, id: RunId, thread: ThreadId)
    ensures Of(StopAll(s, rollback, queues, runs), id, thread) == StopAll(s, rollback, queues, Of(runs, id, thread))
  {
    hide StopAll, Stopped;
    if |runs| == 0 {
      NothingStopped(s, rollback, queues);
      assert runs == [];
    } else {
      var r, rest := runs[0], runs[1..];
      var of := Of(rest, id, thread);
      assert runs == [r] + rest;
      OfStopAll(s, rollback, queues, rest, id, thread);
      StopFirst(s, rollback, queues, r, rest);
      StopFirst(s, rollback, queues, r, of);
      var first := Stopped(s, rollback, queues, r);
      assert ([first] + StopAll(s, rollback, queues, rest))[1..] == StopAll(s, rollback, queues, rest);
      assert [] + of == of;
    }
  }

  lemma NothingStopped(s: Selector, rollback: bool, queues: set<RunId>)
    ensures StopAll(s, rollback, queues, []) == []
  {
  }

  lemma StopFirst(s: Selector, rollback: bool, queues: set<RunId>, r: Run, rest: seq<Run>)
    ensures StopAll(s, rollback, queues, [r] + rest) == [Stopped(s, rollback, queues, r)] + StopAll(s, rollback, queues, rest)
    ensures forall id, thread :: IsRun(Stopped(s, rollback, queues, r), id, thread) == IsRun(r, id, thread)
  {
    hide Selects, DeletedEagerly;
  }

  lemma RolledBackSnoc(s: Selector, rollback: bool, queues: set<RunId>, runs: seq<Run>, r: Run)
    ensures RolledBack(s, rollback, queues, runs + [r])
         == RolledBack(s, rollback, queues, runs) + if Rolled(s, rollback, queues, r) then [r] else []
  {
    assert (runs + [r])[..|runs|] == runs;
  }

  lemma {:induction false} OfRolledBack(s: Selector, rollback: bool, queues: set<RunId>, runs: seq<Run>, id: RunId, thread: ThreadId)
    ensures Of(RolledBack(s, rollback, queues, runs), id, thread) == RolledBack(s, rollback, queues, Of(runs, id, thread))
  {
    hide Rolled, IsRun, RolledBack, Of;
    if |runs| == 0 {
      assert runs == [];
      NothingRolledBack(s, rollback, queues, id, thread);
    } else {
      var n := |runs| - 1;
      var init, r := runs[..n], runs[n];
      assert runs == init + [r];
      OfRolledBack(s, rollback, queues, init, id, thread);
      RolledBackSnoc(s, rollback, queues, init, r);
      OfSnoc(init, r, id, thread);
      OfSnoc(RolledBack(s, rollback, queues, init), r, id, thread);
      RolledBackSnoc(s, rollback, queues, Of(init, id, thread), r);
      var kept, gone := Of(init, id, thread), RolledBack(s, rollback, queues, init);
      assert kept + [] == kept && gone + [] == gone && Of(gone, id, thread) + [] == Of(gone, id, thread);
    }
  }

  lemma NothingRolledBack(s: Selector, rollback: bool, queues: set<RunId>, id: RunId, thread: ThreadId)
    ensures RolledBack(s, rollback, queues, []) == [] && Of([], id, thread) == []
  {
  }

  lemma {:induction false} RolledBackCount(s: Selector, rollback: bool, queues: set<RunId>, runs: seq<Run>)
    ensures |RolledBack(s, rollback, queues, runs)| <= |runs|
    ensures |RolledBack(s, rollback, queues, runs)| == |runs| <==> forall i :: 0 <= i < |runs| ==> Rolled(s, rollback, queues, runs[i])
    ensures |RolledBack(s, rollback, queues, runs)| == 0 <==> forall i :: 0 <= i < |runs| ==> !Rolled(s, rollback, queues, runs[i])
  {
    hide Rolled, RolledBack;
    if |runs| == 0 {
      assert runs == [];
      NothingRolledBack(s, rollback, queues, "", "");
    } else {
      var n := |runs| - 1;
      assert runs == runs[..n] + [runs[n]];
      RolledBackCount(s, rollback, queues, runs[..n]);
      RolledBackSnoc(s, rollback, queues, runs[..n], runs[n]);
    }
  }

  lemma {:induction false} RolledBackConcat(s: Selector, rollback: bool, queues: set<RunId>, a: seq<Run>, b: seq<Run>)
    ensures |RolledBack(s, rollback, queues, a + b)| == |RolledBack(s, rollback, queues, a)| + |RolledBack(s, rollback, queues, b)|
  {
    hide Rolled, RolledBack;
    if |b| == 0 {
      assert b == [] && a + b == a;
      NothingRolledBack(s, rollback, queues, "", "");
    } else {
      var n := |b| - 1;
      assert b == b[..n] + [b[n]] && a + b == (a + b[..n]) + [b[n]];
      RolledBackConcat(s, rollback, queues, a, b[..n]);
      RolledBackSnoc(s, rollback, queues, a + b[..n], b[n]);
      RolledBackSnoc(s, rollback, queues, b[..n], b[n]);
    }
  }

  lemma InterruptStopsAll(w: World, s: Selector, rollback: bool, queues: set<RunId>, now: Time)
    ensures InterruptAll(w, Selecting(s), rollback, queues, now, |w.runs|).runs == StopAll(s, rollback, queues, w.runs)
  {
    var v := InterruptAll(w, Selecting(s), rollback, queues, now, |w.runs|);
    forall i | 0 <= i < |w.runs| ensures v.runs[i] == Stopped(s, rollback, queues, w.runs[i]) {
      InterruptedAt(w, Selecting(s), rollback, queues, now, |w.runs|, i);
    }
    hide InterruptAll, Selects, DeletedEagerly;
  }

  /** What a cancellation leaves of the runs that share an id and a thread: as many of the first of
      them are gone as were to be rolled back, and the others are interrupted if selected. */
  lemma CancelLeaves(w: World, s: Selector, rollback: bool, queues: set<RunId>, now: Time, id: RunId, thread: ThreadId)
    ensures var before := Of(w.runs, id, thread); var gone := RolledBack(s, rollback, queues, before);
      && |gone| <= |before|
      && Of(Cancel(w, s, rollback, queues, now).runs, id, thread) == StopAll(s, rollback, queues, before)[|gone|..]
  {
    hide InterruptAll, StopAll, Of, Selecting, DeleteRuns;
    var v := InterruptAll(w, Selecting(s), rollback, queues, now, |w.runs|);
    var gone := RolledBack(s, rollback, queues, w.runs);
    InterruptStopsAll(w, s, rollback, queues, now);
    OfStopAll(s, rollback, queues, w.runs, id, thread);
    OfRolledBack(s, rollback, queues, w.runs, id, thread);
    RolledBackCount(s, rollback, queues, Of(w.runs, id, thread));
    OfDeleteRuns(v, gone, id, thread);
    StopAllLength(s, rollback, queues, Of(w.runs, id, thread));
    hide RolledBack;
  }

  lemma StopAllLength(s: Selector, rollback: bool, queues: set<RunId>, runs: seq<Run>)
    ensures |StopAll(s, rollback, queues, runs)| == |runs|
  {
  }

  /** Exactly when a cancellation stops all it selects: if and only if, among runs that share an id
      and a thread, those to be rolled back come first. */
  lemma CancelStopsIff(w: World, s: Selector, rollback: bool, queues: set<RunId>, now: Time, id: RunId, thread: ThreadId)
    ensures var before := Of(w.runs, id, thread); var n := |RolledBack(s, rollback, queues, before)|;
      && n <= |before|
      && ((forall r :: r in Of(Cancel(w, s, rollback, queues, now).runs, id, thread) ==> !(Selects(s, r) && r.Active()))
          <==> forall i :: 0 <= i < n ==> Rolled(s, rollback, queues, before[i]))
  {
    hide Cancel, Of, RolledBack;
    var before := Of(w.runs, id, thread);
    var n := |RolledBack(s, rollback, queues, before)|;
    CancelLeaves(w, s, rollback, queues, now, id, thread);
    var head, tail := before[..n], before[n..];
    assert before == head + tail;
    RolledBackConcat(s, rollback, queues, head, tail);
    RolledBackCount(s, rollback, queues, head);
    RolledBackCount(s, rollback, queues, tail);
    StillActive(s, rollback, queues, tail);
    assert StopAll(s, rollback, queues, before)[n..] == StopAll(s, rollback, queues, tail);
  }

  lemma StillActive(s: Selector, rollback: bool, queues: set<RunId>, runs: seq<Run>)
    ensures (forall r :: r in StopAll(s, rollback, queues, runs) ==> !(Selects(s, r) && r.Active()))
      <==> forall i :: 0 <= i < |runs| ==> !Rolled(s, rollback, queues, runs[i])
  {
    var after := StopAll(s, rollback, queues, runs);
    forall i | 0 <= i < |runs| ensures Selects(s, after[i]) && after[i].Active() <==> Rolled(s, rollback, queues, runs[i]) {}
    if exists i :: 0 <= i < |runs| && Rolled(s, rollback, queues, runs[i]) {
      var i :| 0 <= i < |runs| && Rolled(s, rollback, queues, runs[i]);
      assert after[i] in after;
    }
  }
}
