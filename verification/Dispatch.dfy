/** The run dispatcher: which runs `Runs.next` starts, and what every other operation keeps for it
    (ops.py). */
module Dispatch {
  import opened CheckpointModel
  import opened RuntimeState

  // ---- The window of due runs ---------------------------------------------------------------------

  predicate Due(r: Run, now: Time) {
    r.status == Pending && r.createdAt < now
  }

  /** Position `i` comes before position `j`: earlier creation, or equal and earlier in the list. */
  predicate Earlier(runs: seq<Run>, i: nat, j: nat)
    requires i < |runs| && j < |runs|
  {
    runs[i].createdAt < runs[j].createdAt || (runs[i].createdAt == runs[j].createdAt && i < j)
  }

  predicate Positions(runs: seq<Run>, order: seq<nat>) {
    forall k :: 0 <= k < |order| ==> order[k] < |runs|
  }

  /** Puts position `i` after every position that is not later created. */
  function InsertPosition(runs: seq<Run>, order: seq<nat>, i: nat): (r: seq<nat>)
    requires Positions(runs, order) && i < |runs|
    ensures Positions(runs, r)
  {
    if |order| == 0 then [i]
    else if runs[order[0]].createdAt <= runs[i].createdAt then [order[0]] + InsertPosition(runs, order[1..], i)
    else [i] + order
  }

  /** `sorted(pending, key=created_at)` over the first `n` runs, as positions in the list. */
  function DueOrder(runs: seq<Run>, now: Time, n: nat): (order: seq<nat>)
    requires n <= |runs|
    ensures Positions(runs, order)
  {
    if n == 0 then []
    else if Due(runs[n - 1], now) then InsertPosition(runs, DueOrder(runs, now, n - 1), n - 1)
    else DueOrder(runs, now, n - 1)
  }

  /** `zip(range(limit), pending_runs)`. */
  function Window(runs: seq<Run>, now: Time, limit: int): (window: seq<nat>)
    ensures Positions(runs, window)
  {
    var order := DueOrder(runs, now, |runs|);
    if limit <= 0 then [] else if limit < |order| then order[..limit] else order
  }

  ghost predicate InOrder(runs: seq<Run>, order: seq<nat>) {
    && Positions(runs, order)
    && forall k, m :: 0 <= k < m < |order| ==> order[k] != order[m] && Earlier(runs, order[k], order[m])
  }

  lemma {:induction false} InsertPositionOrder(runs: seq<Run>, order: seq<nat>, i: nat)
    requires InOrder(runs, order) && i < |runs|
    requires forall k :: 0 <= k < |order| ==> order[k] < i
    ensures InOrder(runs, InsertPosition(runs, order, i))
    ensures forall p :: p in InsertPosition(runs, order, i) <==> p in order || p == i
  {
    if |order| > 0 {
      var head, tail := order[0], order[1..];
      assert forall p :: p in order <==> p == head || p in tail;
      if runs[head].createdAt <= runs[i].createdAt {
        InsertPositionOrder(runs, tail, i);
        var rest := InsertPosition(runs, tail, i);
        var all := [head] + rest;
        forall k, m | 0 <= k < m < |all| ensures all[k] != all[m] && Earlier(runs, all[k], all[m]) {
          if k == 0 { assert all[m] in rest; }
        }
        assert forall p :: p in all <==> p == head || p in rest;
      } else {
        var all := [i] + order;
        forall k, m | 0 <= k < m < |all| ensures all[k] != all[m] && Earlier(runs, all[k], all[m]) {}
      }
    }
  }

  /** The order lists every due run once, earliest first. */
  lemma {:induction false} DueOrderSorted(runs: seq<Run>, now: Time, n: nat)
    requires n <= |runs|
    ensures InOrder(runs, DueOrder(runs, now, n))
    ensures forall p :: p in DueOrder(runs, now, n) <==> 0 <= p < n && Due(runs[p], now)
  {
    if n > 0 {
      DueOrderSorted(runs, now, n - 1);
      var order := DueOrder(runs, now, n - 1);
      forall k | 0 <= k < |order| ensures order[k] < n - 1 { assert order[k] in order; }
      if Due(runs[n - 1], now) { InsertPositionOrder(runs, order, n - 1); }
    }
  }

  // ---- Starting runs ---------------------------------------------------------------------------------

  predicate RunningOn(runs: seq<Run>, t: ThreadId) {
    exists i :: 0 <= i < |runs| && runs[i].status == Running && runs[i].thread == t
  }

  /** A run handed to a worker. */
  datatype Start = Start(position: nat, run: RunId, thread: ThreadId, createdAt: Time, attempt: nat)

  /** The dispatcher's state inside one call: the runs, the retry counters, the runs yielded. */
  datatype Queue = Queue(runs: seq<Run>, attempts: map<RunId, nat>, started: seq<Start>)

  function AttemptsOf(attempts: map<RunId, nat>, id: RunId): nat {
    if id in attempts then attempts[id] else 0
  }

  /** One turn of the loop in `Runs.next`. */
  function TryStart(q: Queue, threads: seq<Thread>, i: nat): (r: Queue)
    requires i < |q.runs|
    ensures |r.runs| == |q.runs|
  {
    var run := q.runs[i];
    if run.status == Pending && HasThread(threads, run.thread) && !RunningOn(q.runs, run.thread) then
      var attempt := AttemptsOf(q.attempts, run.id) + 1;
      Queue(q.runs[i := run.(status := Running)], q.attempts[run.id := attempt],
            q.started + [Start(i, run.id, run.thread, run.createdAt, attempt)])
    else q
  }

  function StartAll(q: Queue, threads: seq<Thread>, window: seq<nat>): (r: Queue)
    requires Positions(q.runs, window)
    ensures |r.runs| == |q.runs|
  {
    if |window| == 0 then q
    else
      var n := |window| - 1;
      assert Positions(q.runs, window[..n]);
      TryStart(StartAll(q, threads, window[..n]), threads, window[n])
  }

  /** `Runs.next`. */
  function Next(w: World, now: Time, limit: int): Queue {
    StartAll(Queue(w.runs, w.attempts, []), w.threads, Window(w.runs, now, limit))
  }

  /** The window's `k`-th run is started: its thread exists and had nothing running, and it is the
      first of its thread in the window. */
  ghost predicate Startable(runs: seq<Run>, threads: seq<Thread>, window: seq<nat>, k: nat)
    requires Positions(runs, window) && k < |window|
  {
    var t := runs[window[k]].thread;
    && HasThread(threads, t)
    && !RunningOn(runs, t)
    && forall m :: 0 <= m < k ==> runs[window[m]].thread != t
  }

  ghost predicate Started(runs: seq<Run>, threads: seq<Thread>, window: seq<nat>, i: nat)
    requires Positions(runs, window)
  {
    exists k :: 0 <= k < |window| && window[k] == i && Startable(runs, threads, window, k)
  }

  /** What the loop has done after the first part of the window. */
  ghost predicate Dispatched(runs: seq<Run>, threads: seq<Thread>, window: seq<nat>, after: seq<Run>)
    requires Positions(runs, window)
  {
    && |after| == |runs|
    && forall i :: 0 <= i < |runs| ==>
         after[i] == if Started(runs, threads, window, i) then runs[i].(status := Running) else runs[i]
  }

  lemma StartedPrefix(runs: seq<Run>, threads: seq<Thread>, window: seq<nat>, i: nat)
    requires |window| > 0 && InOrder(runs, window)
    ensures var n := |window| - 1;
      Positions(runs, window[..n]) &&
      (Started(runs, threads, window, i) <==>
        Started(runs, threads, window[..n], i) || (i == window[n] && Startable(runs, threads, window, n)))
  {
    var n := |window| - 1;
    forall k | 0 <= k < n ensures Startable(runs, threads, window[..n], k) == Startable(runs, threads, window, k) {
      assert forall m :: 0 <= m < k ==> window[..n][m] == window[m];
    }
    if Started(runs, threads, window, i) {
      var k :| 0 <= k < |window| && window[k] == i && Startable(runs, threads, window, k);
      if k < n { assert window[..n][k] == i && Startable(runs, threads, window[..n], k); }
    }
    if Started(runs, threads, window[..n], i) {
      var k :| 0 <= k < n && window[..n][k] == i && Startable(runs, threads, window[..n], k);
      assert window[k] == i && Startable(runs, threads, window, k);
    }
    if i == window[n] && Startable(runs, threads, window, n) { assert window[n] == i; }
  }

  /** When the loop reaches the window's last run, that run's thread is free exactly when it had
      nothing running at first and no earlier run of the window was on it, or it does not exist. */
  lemma ThreadFreeInLoop(runs: seq<Run>, threads: seq<Thread>, window: seq<nat>, after: seq<Run>)
    requires |window| > 0 && InOrder(runs, window)
    requires Positions(runs, window[..|window| - 1]) && Dispatched(runs, threads, window[..|window| - 1], after)
    ensures var t := runs[window[|window| - 1]].thread;
      HasThread(threads, t) && !RunningOn(after, t) <==> Startable(runs, threads, window, |window| - 1)
  {
    var n := |window| - 1;
    var init := window[..n];
    var t := runs[window[n]].thread;
    if HasThread(threads, t) {
      if RunningOn(runs, t) {
        var i :| 0 <= i < |runs| && runs[i].status == Running && runs[i].thread == t;
        assert after[i].status == Running && after[i].thread == t;
      } else if exists m :: 0 <= m < n && runs[window[m]].thread == t {
        var m := FirstOf(runs, window, n, t);
        assert init[m] == window[m];
        assert Startable(runs, threads, init, m);
        assert Started(runs, threads, init, window[m]);
        assert after[window[m]].status == Running && after[window[m]].thread == t;
      }
    }
  }

  lemma FirstOf(runs: seq<Run>, window: seq<nat>, n: nat, t: ThreadId) returns (m: nat)
    requires Positions(runs, window) && n <= |window|
    requires exists k :: 0 <= k < n && runs[window[k]].thread == t
    ensures m < n && runs[window[m]].thread == t
    ensures forall k :: 0 <= k < m ==> runs[window[k]].thread != t
  {
    m := 0;
    while runs[window[m]].thread != t
      invariant m < n && forall k :: 0 <= k < m ==> runs[window[k]].thread != t
      decreases n - m
    {
      m := m + 1;
    }
  }

  /** The loop starts exactly the startable runs of the window and leaves every other run alone. */
  lemma {:induction false} StartsExactly(q: Queue, threads: seq<Thread>, window: seq<nat>)
    requires InOrder(q.runs, window)
    requires forall k :: 0 <= k < |window| ==> q.runs[window[k]].status == Pending
    ensures Dispatched(q.runs, threads, window, StartAll(q, threads, window).runs)
  {
    if |window| > 0 {
      var n := |window| - 1;
      var init := window[..n];
      StartsExactly(q, threads, init);
      var before := StartAll(q, threads, init);
      var after := TryStart(before, threads, window[n]);
      ThreadFreeInLoop(q.runs, threads, window, before.runs);
      assert before.runs[window[n]] == q.runs[window[n]];
      forall i | 0 <= i < |q.runs|
        ensures after.runs[i] == if Started(q.runs, threads, window, i) then q.runs[i].(status := Running) else q.runs[i]
      {
        StartedPrefix(q.runs, threads, window, i);
      }
    } else {
      assert forall i :: !Started(q.runs, threads, window, i);
    }
  }

  /** `Runs.next` starts exactly the runs that are the first of their thread within the first
      `limit` due runs, on an existing thread with nothing running. */
  lemma NextStartsExactly(w: World, now: Time, limit: int)
    ensures InOrder(w.runs, Window(w.runs, now, limit))
    ensures forall k :: 0 <= k < |Window(w.runs, now, limit)| ==> Due(w.runs[Window(w.runs, now, limit)[k]], now)
    ensures Dispatched(w.runs, w.threads, Window(w.runs, now, limit), Next(w, now, limit).runs)
  {
    DueOrderSorted(w.runs, now, |w.runs|);
    var order, window := DueOrder(w.runs, now, |w.runs|), Window(w.runs, now, limit);
    forall k | 0 <= k < |window| ensures Due(w.runs[window[k]], now) {
      assert order[k] in order && window[k] == order[k];
    }
    StartsExactly(Queue(w.runs, w.attempts, []), w.threads, window);
  }
}
