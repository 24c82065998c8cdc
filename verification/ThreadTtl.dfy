/** Thread TTL: which threads expire, and what a sweep does to them (ops.py). */
module ThreadTtl {
  import opened Wrappers
  import Lex
  import opened CheckpointModel
  import opened RuntimeState

  // ---- Effective policy and expiry -----------------------------------------------------------

  /** The thread's own policy, or the global one. */
  function EffectivePolicy(ttls: map<ThreadId, TtlState>, global: Option<Policy>, id: ThreadId): Option<Policy> {
    var state := StateOf(ttls, id);
    if state.policy.Some? then state.policy else global
  }

  /** The `expires_at` shown with a thread: none while its last prune is still current. */
  function ShownExpiry(thread: Thread, policy: Policy, state: TtlState): Option<Time> {
    if state.lastSwept.Some? && state.lastSwept.value >= thread.updatedAt && policy.strategy == KeepLatest then None
    else Some(thread.updatedAt + policy.ttl)
  }

  /** An entry of the sweep's work list. */
  datatype Expired = Expired(expiresAt: Time, id: ThreadId, policy: Policy, state: TtlState, updatedAt: Time)

  /** The sweep's own test of one thread. */
  function Candidate(w: World, global: Option<Policy>, now: Time, active: set<ThreadId>, thread: Thread): Option<Expired> {
    if thread.id in active then None
    else
      var policy := EffectivePolicy(w.ttls, global, thread.id);
      var state := StateOf(w.ttls, thread.id);
      if policy.None? then None
      else if policy.value.strategy == KeepLatest && state.lastSwept.Some? && state.lastSwept.value >= thread.updatedAt then None
      else if thread.updatedAt + policy.value.ttl <= now then
        Some(Expired(thread.updatedAt + policy.value.ttl, thread.id, policy.value, state, thread.updatedAt))
      else None
  }

  /** The sweep picks an inactive thread exactly when the expiry shown for it has come. */
  lemma CandidateIffShownExpired(w: World, global: Option<Policy>, now: Time, thread: Thread)
    ensures var own := if thread.id in w.ttls then w.ttls[thread.id].policy else None;
      var policy := if own.Some? then own else global;
      Candidate(w, global, now, ActiveThreads(w.runs), thread).Some? <==>
        && thread.id !in ActiveThreads(w.runs)
        && policy.Some?
        && var shown := ShownExpiry(thread, policy.value, StateOf(w.ttls, thread.id));
           shown.Some? && shown.value <= now
  {
  }

  // ---- The work list -------------------------------------------------------------------------

  predicate Before(a: Expired, b: Expired) {
    a.expiresAt < b.expiresAt || (a.expiresAt == b.expiresAt && Lex.AtMost(a.id, b.id))
  }

  function Insert(items: seq<Expired>, item: Expired): seq<Expired> {
    if |items| == 0 then [item]
    else if Before(items[0], item) then [items[0]] + Insert(items[1..], item)
    else [item] + items
  }

  /** `list.sort(key=(expires_at, str(thread_id)))`. */
  function Sort(items: seq<Expired>): seq<Expired> {
    if |items| == 0 then [] else Insert(Sort(items[..|items| - 1]), items[|items| - 1])
  }

  function Candidates(w: World, global: Option<Policy>, now: Time, active: set<ThreadId>, threads: seq<Thread>): seq<Expired> {
    if |threads| == 0 then []
    else
      var earlier := Candidates(w, global, now, active, threads[..|threads| - 1]);
      var last := Candidate(w, global, now, active, threads[|threads| - 1]);
      if last.Some? then earlier + [last.value] else earlier
  }

  /** All threads due for the sweep, in the order it takes them. */
  function DueList(w: World, global: Option<Policy>, now: Time): seq<Expired> {
    Sort(Candidates(w, global, now, ActiveThreads(w.runs), w.threads))
  }

  /** The sweep's own limit, or the configured one; neither is below zero. */
  function EffectiveLimit(limit: Option<int>, configured: Option<int>): Option<nat> {
    var chosen := if limit.Some? then limit else configured;
    if chosen.None? then None else Some(if chosen.value < 0 then 0 else chosen.value)
  }

  function Take(items: seq<Expired>, limit: Option<nat>): seq<Expired> {
    if limit.Some? && limit.value < |items| then items[..limit.value] else items
  }

  function Drop(items: seq<Expired>, limit: Option<nat>): seq<Expired> {
    if limit.Some? && limit.value < |items| then items[limit.value..] else []
  }

  // ---- The order is strict on distinct threads -------------------------------------------------

  ghost predicate StrictlySorted(items: seq<Expired>) {
    forall i, j :: 0 <= i < j < |items| ==> Before(items[i], items[j]) && items[i].id != items[j].id
  }

  ghost predicate DistinctIds(items: seq<Expired>) {
    forall i, j :: 0 <= i < j < |items| ==> items[i].id != items[j].id
  }

  lemma BeforeTransitive(a: Expired, b: Expired, c: Expired)
    requires Before(a, b) && Before(b, c)
    ensures Before(a, c)
  {
    if a.id != b.id && b.id != c.id && a.expiresAt == c.expiresAt { Lex.Transitive(a.id, b.id, c.id); }
  }

  lemma BeforeTotal(a: Expired, b: Expired)
    ensures Before(a, b) || Before(b, a)
  {
    Lex.Total(a.id, b.id);
  }

  lemma BeforeAntisymmetric(a: Expired, b: Expired)
    requires Before(a, b) && Before(b, a)
    ensures a.id == b.id
  {
    if a.id != b.id { Lex.Asymmetric(a.id, b.id); }
  }

  lemma {:induction false} InsertSorted(items: seq<Expired>, item: Expired)
    requires StrictlySorted(items)
    requires forall x :: x in items ==> x.id != item.id
    ensures StrictlySorted(Insert(items, item))
    ensures forall x :: x in Insert(items, item) <==> x in items || x == item
  {
    if |items| > 0 {
      var head, tail := items[0], items[1..];
      assert forall x :: x in items <==> x == head || x in tail;
      if Before(head, item) {
        InsertSorted(tail, item);
        var rest := Insert(tail, item);
        var all := [head] + rest;
        forall i, j | 0 <= i < j < |all| ensures Before(all[i], all[j]) && all[i].id != all[j].id {
          if i == 0 { assert all[j] in rest; }
        }
        assert forall x :: x in all <==> x == head || x in rest;
      } else {
        BeforeTotal(head, item);
        var all := [item] + items;
        forall i, j | 0 <= i < j < |all| ensures Before(all[i], all[j]) && all[i].id != all[j].id {
          if i == 0 {
            assert all[j] in items;
            if j > 1 { BeforeTransitive(item, head, items[j - 1]); }
          }
        }
      }
    }
  }

  lemma {:induction false} SortSorted(items: seq<Expired>)
    requires DistinctIds(items)
    ensures StrictlySorted(Sort(items))
    ensures forall x :: x in Sort(items) <==> x in items
  {
    if |items| > 0 {
      var n := |items| - 1;
      SortSorted(items[..n]);
      forall x | x in Sort(items[..n]) ensures x.id != items[n].id {
        var i :| 0 <= i < n && items[i] == x;
      }
      InsertSorted(Sort(items[..n]), items[n]);
      assert items == items[..n] + [items[n]];
    }
  }

  lemma HasMember<T>(s: seq<T>)
    ensures s == [] || exists x :: x in s
  {
    if s != [] { assert s[0] in s; }
  }

  lemma {:induction false} SameElementsSameOrder(a: seq<Expired>, b: seq<Expired>)
    requires StrictlySorted(a) && StrictlySorted(b)
    requires forall x :: x in a <==> x in b
    ensures a == b
  {
    if |a| == 0 {
      HasMember(b);
    } else {
      assert a[0] in b;
      assert |b| > 0 && b[0] in a;
      if a[0] != b[0] {
        var i :| 0 <= i < |b| && b[i] == a[0];
        var j :| 0 <= j < |a| && a[j] == b[0];
        BeforeAntisymmetric(a[0], b[0]);
        assert false;
      }
      forall x ensures x in a[1..] <==> x in b[1..] {
        if x in a[1..] {
          var i :| 1 <= i < |a| && a[i] == x;
          assert x in b;
          var j :| 0 <= j < |b| && b[j] == x;
          assert j != 0;
        }
        if x in b[1..] {
          var i :| 1 <= i < |b| && b[i] == x;
          assert x in a;
          var j :| 0 <= j < |a| && a[j] == x;
          assert j != 0;
        }
      }
      SameElementsSameOrder(a[1..], b[1..]);
      assert a == [a[0]] + a[1..] && b == [b[0]] + b[1..];
    }
  }

  lemma CandidateHasId(w: World, global: Option<Policy>, now: Time, active: set<ThreadId>, threads: seq<Thread>)
    ensures forall t :: t in threads && Candidate(w, global, now, active, t).Some? ==> Candidate(w, global, now, active, t).value.id == t.id
  {
  }

  ghost predicate IsCandidate(w: World, global: Option<Policy>, now: Time, active: set<ThreadId>, threads: seq<Thread>, x: Expired) {
    exists t :: t in threads && Candidate(w, global, now, active, t) == Some(x)
  }

  lemma {:induction false} CandidatesMembers(w: World, global: Option<Policy>, now: Time, active: set<ThreadId>, threads: seq<Thread>)
    ensures forall x :: x in Candidates(w, global, now, active, threads) <==> IsCandidate(w, global, now, active, threads, x)
  {
    hide Candidate;
    if |threads| > 0 {
      var n := |threads| - 1;
      CandidatesMembers(w, global, now, active, threads[..n]);
      assert threads == threads[..n] + [threads[n]];
      forall x ensures IsCandidate(w, global, now, active, threads, x)
        <==> IsCandidate(w, global, now, active, threads[..n], x) || Candidate(w, global, now, active, threads[n]) == Some(x) {
        if IsCandidate(w, global, now, active, threads, x) {
          var t :| t in threads && Candidate(w, global, now, active, t) == Some(x);
          assert t == threads[n] || t in threads[..n];
        }
      }
    }
  }

  lemma {:induction false} CandidatesDistinct(w: World, global: Option<Policy>, now: Time, active: set<ThreadId>, threads: seq<Thread>)
    requires UniqueThreads(threads)
    ensures DistinctIds(Candidates(w, global, now, active, threads))
  {
    if |threads| > 0 {
      CandidateHasId(w, global, now, active, threads);
      hide Candidate;
      var n := |threads| - 1;
      var earlier := Candidates(w, global, now, active, threads[..n]);
      CandidatesDistinct(w, global, now, active, threads[..n]);
      CandidatesMembers(w, global, now, active, threads[..n]);
      forall x | x in earlier ensures x.id != threads[n].id {
        var t :| t in threads[..n] && Candidate(w, global, now, active, t) == Some(x);
        var i :| 0 <= i < n && threads[i] == t;
      }
    }
  }

  /** The due list holds exactly the eligible threads, once each, by expiry and then id. */
  lemma DueListMembers(w: World, global: Option<Policy>, now: Time)
    requires UniqueThreads(w.threads)
    ensures StrictlySorted(DueList(w, global, now))
    ensures forall x :: x in DueList(w, global, now) <==>
      exists t :: t in w.threads && Candidate(w, global, now, ActiveThreads(w.runs), t) == Some(x)
  {
    CandidatesMembers(w, global, now, ActiveThreads(w.runs), w.threads);
    CandidatesDistinct(w, global, now, ActiveThreads(w.runs), w.threads);
    SortSorted(Candidates(w, global, now, ActiveThreads(w.runs), w.threads));
  }

  // ---- Handling the work list ---------------------------------------------------------------------

  /** A world, and the sweep's two counters. */
  datatype Progress = Progress(world: World, processed: nat, deleted: nat)

  function MarkSwept(w: World, item: Expired): World {
    w.(ttls := w.ttls[item.id := item.state.(lastSwept := Some(item.updatedAt))])
  }

  /** The second pass over a batch, one item: delete the thread, or mark it pruned. */
  ghost function Finish(p: Progress, item: Expired): Progress {
    if item.policy.strategy == Delete then
      if HasThread(p.world.threads, item.id) then
        Progress(DeleteThread(p.world, item.id), p.processed + 1, p.deleted + 1)
      else p
    else Progress(MarkSwept(p.world, item), p.processed + 1, p.deleted)
  }

  ghost function FinishAll(p: Progress, items: seq<Expired>): Progress {
    if |items| == 0 then p else Finish(FinishAll(p, items[..|items| - 1]), items[|items| - 1])
  }

  function KeepLatestIds(items: seq<Expired>): seq<ThreadId> {
    if |items| == 0 then []
    else
      var last := items[|items| - 1];
      KeepLatestIds(items[..|items| - 1]) + if last.policy.strategy == KeepLatest then [last.id] else []
  }

  ghost function WithData(p: Progress, d: Data): Progress {
    p.(world := p.world.(data := d))
  }

  /** One batch: prune all its keep-latest threads together, then finish its threads one by one. */
  ghost function ProcessBatch(p: Progress, batch: seq<Expired>): Progress {
    FinishAll(WithData(p, PruneAll(p.world.data, KeepLatestIds(batch))), batch)
  }

  /** The sweep's loop over batches of the given size. */
  ghost function ProcessBatched(p: Progress, items: seq<Expired>, batchSize: nat): Progress
    requires batchSize > 0
    decreases |items|
  {
    if |items| == 0 then p
    else if |items| <= batchSize then ProcessBatch(p, items)
    else ProcessBatched(ProcessBatch(p, items[..batchSize]), items[batchSize..], batchSize)
  }

  /** The plain reading: each thread pruned and marked, or deleted, before the next is looked at. */
  ghost function ProcessOne(p: Progress, item: Expired): Progress {
    if item.policy.strategy == KeepLatest then Finish(WithData(p, PruneData(p.world.data, item.id)), item)
    else Finish(p, item)
  }

  ghost function ProcessEach(p: Progress, items: seq<Expired>): Progress {
    if |items| == 0 then p else ProcessOne(ProcessEach(p, items[..|items| - 1]), items[|items| - 1])
  }

  lemma PrunesAndDeletesCommute(d: Data, t: ThreadId, u: ThreadId)
    requires t != u
    ensures DeleteData(PruneData(d, t), u) == PruneData(DeleteData(d, u), t)
  {
    hide ViewOf, WithView, PruneView;
    ViewOfWith(d, u, NO_ROWS, t);
    ViewsCommute(d, t, PruneView(ViewOf(d, t)), u, NO_ROWS);
  }

  /** A prune of another thread can be moved past the finishing of a batch. */
  lemma {:induction false} PruneMovesPastFinish(p: Progress, items: seq<Expired>, t: ThreadId)
    requires forall x :: x in items ==> x.id != t
    ensures FinishAll(WithData(p, PruneData(p.world.data, t)), items)
         == WithData(FinishAll(p, items), PruneData(FinishAll(p, items).world.data, t))
  {
    hide PruneData, DeleteData;
    if |items| > 0 {
      var n := |items| - 1;
      PruneMovesPastFinish(p, items[..n], t);
      var done := FinishAll(p, items[..n]);
      assert items[n].id != t;
      if items[n].policy.strategy == Delete {
        PrunesAndDeletesCommute(done.world.data, t, items[n].id);
      }
    }
  }

  /** Pruning a whole batch before finishing it is the same as taking its threads one at a time. */
  lemma {:induction false} BatchIsSequential(p: Progress, batch: seq<Expired>)
    requires DistinctIds(batch)
    ensures ProcessBatch(p, batch) == ProcessEach(p, batch)
  {
    hide PruneData, Finish;
    if |batch| > 0 {
      var n := |batch| - 1;
      var init, last := batch[..n], batch[n];
      BatchIsSequential(p, init);
      var ids := KeepLatestIds(init);
      if last.policy.strategy == KeepLatest {
        assert KeepLatestIds(batch)[..|ids|] == ids;
        var pruned := WithData(p, PruneAll(p.world.data, ids));
        assert PruneAll(p.world.data, KeepLatestIds(batch)) == PruneData(pruned.world.data, last.id);
        assert WithData(p, PruneData(pruned.world.data, last.id)) == WithData(pruned, PruneData(pruned.world.data, last.id));
        PruneMovesPastFinish(pruned, init, last.id);
      } else {
        assert KeepLatestIds(batch) == ids;
      }
    }
  }

  lemma {:induction false} ProcessEachConcat(p: Progress, a: seq<Expired>, b: seq<Expired>)
    ensures ProcessEach(p, a + b) == ProcessEach(ProcessEach(p, a), b)
  {
    hide ProcessOne;
    if |b| == 0 {
      assert a + b == a;
    } else {
      var n := |b| - 1;
      assert (a + b)[..|a + b| - 1] == a + b[..n];
      ProcessEachConcat(p, a, b[..n]);
    }
  }

  lemma NothingToProcess(p: Progress, items: seq<Expired>)
    requires |items| == 0
    ensures ProcessEach(p, items) == p
  {
  }

  /** The batched sweep ends in the state, and with the counts, of the sweep that handles the
      selected threads one at a time in order, whatever the batch size. */
  lemma {:induction false} BatchedIsSequential(p: Progress, items: seq<Expired>, batchSize: nat)
    requires batchSize > 0
    requires DistinctIds(items)
    ensures ProcessBatched(p, items, batchSize) == ProcessEach(p, items)
    decreases |items|
  {
    hide ProcessBatch, ProcessEach;
    if |items| == 0 {
      assert ProcessEach(p, items) == p by { NothingToProcess(p, items); }
    } else if |items| <= batchSize {
      BatchIsSequential(p, items);
    } else {
      var first, rest := items[..batchSize], items[batchSize..];
      BatchIsSequential(p, first);
      BatchedIsSequential(ProcessBatch(p, first), rest, batchSize);
      ProcessEachConcat(p, first, rest);
      assert first + rest == items;
    }
  }

  // ---- What a sweep leaves --------------------------------------------------------------------------

  ghost function DeletedIds(items: seq<Expired>): set<ThreadId> {
    set x | x in items && x.policy.strategy == Delete :: x.id
  }

  ghost function PrunedIds(items: seq<Expired>): set<ThreadId> {
    set x | x in items && x.policy.strategy == KeepLatest :: x.id
  }

  /** The rows of a thread after a sweep of `items`. */
  ghost function SweptView(v: View, t: ThreadId, items: seq<Expired>): View {
    if t in DeletedIds(items) then NO_ROWS else if t in PrunedIds(items) then PruneView(v) else v
  }

  ghost predicate Swept(w: World, after: World, items: seq<Expired>) {
    && UniqueThreads(after.threads)
    && (forall t :: t in after.threads <==> t in w.threads && t.id !in DeletedIds(items))
    && (forall r :: r in after.runs <==> r in w.runs && r.thread !in DeletedIds(items))
    && (forall c :: c in after.crons <==> c in w.crons && (c.thread.Some? ==> c.thread.value !in DeletedIds(items)))
    && (forall id :: StateOf(after.ttls, id) ==
          if id in DeletedIds(items) then TtlState(None, None) else MarkedState(w.ttls, id, items))
    && (forall id :: id in after.ttls <==> id !in DeletedIds(items) && (id in w.ttls || id in PrunedIds(items)))
    && (forall t :: ViewOf(after.data, t) == SweptView(ViewOf(w.data, t), t, items))
  }

  /** The TTL record of a thread that is not deleted: marked if the sweep pruned it. */
  ghost function MarkedState(ttls: map<ThreadId, TtlState>, id: ThreadId, items: seq<Expired>): TtlState {
    if |items| == 0 then StateOf(ttls, id)
    else
      var last := items[|items| - 1];
      if last.policy.strategy == KeepLatest && last.id == id then last.state.(lastSwept := Some(last.updatedAt))
      else MarkedState(ttls, id, items[..|items| - 1])
  }

  /** Every item is a thread of the world, with its record as it stands there. */
  ghost predicate FromWorld(w: World, items: seq<Expired>) {
    forall x :: x in items ==> HasThread(w.threads, x.id) && x.state == StateOf(w.ttls, x.id)
  }

  function CountDeletes(items: seq<Expired>): nat {
    if |items| == 0 then 0
    else CountDeletes(items[..|items| - 1]) + if items[|items| - 1].policy.strategy == Delete then 1 else 0
  }

  lemma IdsGrow(items: seq<Expired>)
    requires |items| > 0
    ensures var init, last := items[..|items| - 1], items[|items| - 1];
      && DeletedIds(items) == DeletedIds(init) + (if last.policy.strategy == Delete then {last.id} else {})
      && PrunedIds(items) == PrunedIds(init) + (if last.policy.strategy == KeepLatest then {last.id} else {})
  {
    assert items == items[..|items| - 1] + [items[|items| - 1]];
  }

  lemma HasThreadMember(threads: seq<Thread>, id: ThreadId)
    ensures HasThread(threads, id) <==> exists t :: t in threads && t.id == id
  {
    if HasThread(threads, id) {
      var i :| 0 <= i < |threads| && threads[i].id == id;
      assert threads[i] in threads;
    }
  }

  /** The sweep deletes the selected delete-threads with everything of theirs, prunes and marks the
      selected keep-latest threads, and changes nothing else; it counts every selected thread. */
  lemma {:induction false} SweepOutcome(w: World, items: seq<Expired>)
    requires UniqueThreads(w.threads) && DistinctIds(items) && FromWorld(w, items)
    ensures var p := ProcessEach(Progress(w, 0, 0), items);
      && Swept(w, p.world, items) && p.processed == |items| && p.deleted == CountDeletes(items)
  {
    hide Swept, DeleteThread, PruneData, DeletedIds, PrunedIds;
    if |items| == 0 {
      NothingSwept(w);
    } else {
      var n := |items| - 1;
      var init, x := items[..n], items[n];
      SweepOutcome(w, init);
      var p := ProcessEach(Progress(w, 0, 0), init);
      IdsGrow(items);
      NotHandledBefore(items);
      assert x in items;
      StillThere(w, p.world, init, x.id);
      assert items == init + [x];
      if x.policy.strategy == Delete {
        DeleteStep(w, p.world, init, x, items);
      } else {
        PruneStep(w, p.world, init, x, items);
      }
    }
  }

  lemma NothingSwept(w: World)
    requires UniqueThreads(w.threads)
    ensures Swept(w, w, [])
  {
    assert DeletedIds([]) == {} && PrunedIds([]) == {};
  }

  lemma NotHandledBefore(items: seq<Expired>)
    requires |items| > 0 && DistinctIds(items)
    ensures var init, last := items[..|items| - 1], items[|items| - 1]; last.id !in DeletedIds(init) + PrunedIds(init)
  {
    var n := |items| - 1;
    forall y | y in items[..n] ensures y.id != items[n].id { var i :| 0 <= i < n && items[i] == y; }
  }

  lemma StillThere(w: World, v: World, init: seq<Expired>, id: ThreadId)
    requires Swept(w, v, init) && HasThread(w.threads, id) && id !in DeletedIds(init)
    ensures HasThread(v.threads, id)
  {
    HasThreadMember(w.threads, id);
    HasThreadMember(v.threads, id);
  }

  lemma DeleteStep(w: World, v: World, init: seq<Expired>, x: Expired, items: seq<Expired>)
    requires Swept(w, v, init) && items == init + [x] && x.policy.strategy == Delete
    requires DeletedIds(items) == DeletedIds(init) + {x.id} && PrunedIds(items) == PrunedIds(init)
    requires x.id !in DeletedIds(init) && x.id !in PrunedIds(init) && HasThread(v.threads, x.id)
    ensures Swept(w, DeleteThread(v, x.id), items)
  {
    hide DeletedIds, PrunedIds, ViewOf, WithView, PruneView;
    var after := DeleteThread(v, x.id);
    ThreadsWithoutMembers(v.threads, x.id);
    RunsWithoutMembers(v.runs, x.id);
    CronsWithoutMembers(v.crons, x.id);
    assert items[..|items| - 1] == init;
    forall id ensures MarkedState(w.ttls, id, items) == MarkedState(w.ttls, id, init) {}
    forall t ensures ViewOf(after.data, t) == SweptView(ViewOf(w.data, t), t, items) {
      ViewOfWith(v.data, x.id, NO_ROWS, t);
    }
  }

  lemma PruneStep(w: World, v: World, init: seq<Expired>, x: Expired, items: seq<Expired>)
    requires Swept(w, v, init) && items == init + [x] && x.policy.strategy == KeepLatest
    requires DeletedIds(items) == DeletedIds(init) && PrunedIds(items) == PrunedIds(init) + {x.id}
    requires x.id !in DeletedIds(init) && x.id !in PrunedIds(init)
    ensures Swept(w, MarkSwept(v.(data := PruneData(v.data, x.id)), x), items)
  {
    hide DeletedIds, PrunedIds, ViewOf, WithView, PruneView;
    var after := MarkSwept(v.(data := PruneData(v.data, x.id)), x);
    assert items[..|items| - 1] == init;
    forall t ensures ViewOf(after.data, t) == SweptView(ViewOf(w.data, t), t, items) {
      ViewOfWith(v.data, x.id, PruneView(ViewOf(v.data, x.id)), t);
    }
  }
}
