/** Which runs one call of the dispatcher starts, told from the lists alone (ops.py). */
module DispatchEffects {
  import opened CheckpointModel
  import opened RuntimeState
  import opened Dispatch
  import opened DispatchRuns
  import opened DispatchProgress

  /** The pending runs created before `now` that come before run `i`: created earlier, or at the same
      time and listed earlier. */
  function Ahead(runs: seq<Run>, now: Time, i: nat): set<nat>
    requires i < |runs|
  {
    set j | 0 <= j < |runs| && runs[j].status == Pending && runs[j].createdAt < now
            && (runs[j].createdAt < runs[i].createdAt || (runs[j].createdAt == runs[i].createdAt && j < i))
  }

  /** A call starts a run if and only if it is pending and was created before now, fewer than `limit`
      such runs come before it and none of those is on its thread, and its thread exists and has
      nothing running.  All other runs stay as they are. */
  lemma StartsIff(w: World, now: Time, limit: int, i: nat)
    requires i < |w.runs|
    ensures |Next(w, now, limit).runs| == |w.runs|
    ensures var r := w.runs[i];
      Next(w, now, limit).runs[i] ==
        if r.status == Pending && r.createdAt < now && |Ahead(w.runs, now, i)| < limit
           && (exists t :: t in w.threads && t.id == r.thread)
           && (forall q :: q in w.runs ==> !(q.thread == r.thread && q.status == Running))
           && (forall j :: j in Ahead(w.runs, now, i) ==> w.runs[j].thread != r.thread)
        then r.(status := Running) else r
  {
    hide Next, Window, Ahead, Startable, HasThread, RunningOn, DueOrder;
    NextStartsExactly(w, now, limit);
    WindowHas(w.runs, now, limit, i);
    ThreadFacts(w, w.runs[i].thread);
    var window := Window(w.runs, now, limit);
    if Started(w.runs, w.threads, window, i) {
      var k :| 0 <= k < |window| && window[k] == i && Startable(w.runs, w.threads, window, k);
      StartableIff(w, now, limit, k);
    } else if i in window {
      var k :| 0 <= k < |window| && window[k] == i;
      StartableIff(w, now, limit, k);
    }
  }

  lemma ThreadFacts(w: World, thread: ThreadId)
    ensures HasThread(w.threads, thread) <==> exists t :: t in w.threads && t.id == thread
    ensures RunningOn(w.runs, thread) <==> exists q :: q in w.runs && q.thread == thread && q.status == Running
  {
    if HasThread(w.threads, thread) {
      var i :| 0 <= i < |w.threads| && w.threads[i].id == thread;
      assert w.threads[i] in w.threads;
    }
    if RunningOn(w.runs, thread) {
      var i :| 0 <= i < |w.runs| && w.runs[i].status == Running && w.runs[i].thread == thread;
      assert w.runs[i] in w.runs;
    }
  }

  /** The runs before place `k` of the order are those ahead of the run there. */
  lemma AheadInOrder(runs: seq<Run>, now: Time, order: seq<nat>, k: nat)
    requires InOrder(runs, order) && k < |order|
    requires forall p :: p in order <==> 0 <= p < |runs| && runs[p].status == Pending && runs[p].createdAt < now
    ensures Ahead(runs, now, order[k]) == (set m | 0 <= m < k :: order[m])
    ensures |Ahead(runs, now, order[k])| == k
  {
    var before := set m | 0 <= m < k :: order[m];
    forall p ensures p in Ahead(runs, now, order[k]) <==> p in before {
      if p in before {
        var m :| 0 <= m < k && order[m] == p;
        assert Earlier(runs, order[m], order[k]) && p in order;
      }
      if p in Ahead(runs, now, order[k]) {
        assert p in order;
        var m :| 0 <= m < |order| && order[m] == p;
        assert m < k;
      }
    }
    DistinctPlaces(order, k);
  }

  lemma {:induction false} DistinctPlaces(order: seq<nat>, k: nat)
    requires k <= |order| && forall a, b :: 0 <= a < b < |order| ==> order[a] != order[b]
    ensures |set m | 0 <= m < k :: order[m]| == k
  {
    if k > 0 {
      DistinctPlaces(order, k - 1);
      var before := set m | 0 <= m < k - 1 :: order[m];
      assert order[k - 1] !in before;
      assert (set m | 0 <= m < k :: order[m]) == before + {order[k - 1]};
    }
  }

  lemma OrderLiteral(runs: seq<Run>, now: Time)
    ensures var order := DueOrder(runs, now, |runs|);
      InOrder(runs, order) && forall p :: p in order <==> 0 <= p < |runs| && runs[p].status == Pending && runs[p].createdAt < now
  {
    DueOrderSorted(runs, now, |runs|);
    hide DueOrder;
  }

  /** The window holds a run if and only if it is eligible and fewer than `limit` are ahead of it. */
  lemma WindowHas(runs: seq<Run>, now: Time, limit: int, i: nat)
    requires i < |runs|
    ensures i in Window(runs, now, limit) <==>
      runs[i].status == Pending && runs[i].createdAt < now && |Ahead(runs, now, i)| < limit
  {
    hide Ahead, InOrder;
    OrderLiteral(runs, now);
    var order, window := DueOrder(runs, now, |runs|), Window(runs, now, limit);
    if i in order {
      var k :| 0 <= k < |order| && order[k] == i;
      AheadInOrder(runs, now, order, k);
      if k < limit { assert window[k] == i; }
      if i in window {
        var m :| 0 <= m < |window| && window[m] == i;
        assert order[m] == i;
        AheadInOrder(runs, now, order, m);
      }
    }
  }

  lemma StartableIff(w: World, now: Time, limit: int, k: nat)
    requires k < |Window(w.runs, now, limit)|
    ensures var window := Window(w.runs, now, limit); var r := w.runs[window[k]];
      Startable(w.runs, w.threads, window, k) <==>
        && HasThread(w.threads, r.thread) && !RunningOn(w.runs, r.thread)
        && forall j :: j in Ahead(w.runs, now, window[k]) ==> w.runs[j].thread != r.thread
  {
    hide Ahead, InOrder, HasThread, RunningOn;
    OrderLiteral(w.runs, now);
    var order, window := DueOrder(w.runs, now, |w.runs|), Window(w.runs, now, limit);
    assert forall m :: 0 <= m <= k ==> order[m] == window[m];
    AheadInOrder(w.runs, now, order, k);
    assert forall m :: 0 <= m < k ==> window[m] in Ahead(w.runs, now, window[k]);
  }

  /** With nothing running, every run's thread in place, and a run pending that was created before
      now, some run starts. */
  lemma SomeRunStarts(w: World, now: Time, limit: int)
    requires RefsExist(w) && limit >= 1
    requires forall r :: r in w.runs ==> r.status != Running
    requires exists r :: r in w.runs && r.status == Pending && r.createdAt < now
    ensures exists i :: 0 <= i < |w.runs| && w.runs[i].status == Pending && Next(w, now, limit).runs[i] == w.runs[i].(status := Running)
    ensures |Next(w, now, limit).started| >= 1
  {
    hide Next, Window;
    forall i | 0 <= i < |w.runs| ensures w.runs[i].status != Running { assert w.runs[i] in w.runs; }
    var r :| r in w.runs && r.status == Pending && r.createdAt < now;
    var j :| 0 <= j < |w.runs| && w.runs[j] == r;
    assert Due(w.runs[j], now);
    NextStartsEarliest(w, now, limit);
    var i := Window(w.runs, now, limit)[0];
    StartsIff(w, now, limit, i);
  }
}
