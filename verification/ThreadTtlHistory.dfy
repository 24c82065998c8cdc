/** Re-arming of `keep_latest` over whole runs: a thread is pruned again only after it was updated
    and a full TTL has passed since (ops.py). */
module ThreadTtlHistory {
  import opened Wrappers
  import opened CheckpointModel
  import opened RuntimeState
  import opened ThreadTtl
  import opened ThreadSweeps

  datatype Event =
    | Create(id: ThreadId, ttl: Option<Option<Policy>>) // Threads.put, Threads.copy or Runs.put of a new thread
    | Activity(id: ThreadId)                            // anything that sets `updated_at`
    | SetPolicy(id: ThreadId, policy: Option<Policy>)   // Threads.patch with a `ttl`
    | Remove(id: ThreadId)                              // Threads.delete
    | ReplaceRuns(runs: seq<Run>)                       // any change to the runs
    | SweepNow(limit: Option<nat>, batchSize: nat)

  datatype Timed = Timed(at: Time, event: Event)

  ghost function Step(w: World, global: Option<Policy>, e: Timed): World {
    match e.event
    case Create(id, ttl) => PutThread(w, id, ttl, e.at)
    case Activity(id) => w.(threads := Touch(w.threads, id, e.at))
    case SetPolicy(id, policy) => PatchThread(w, id, Some(policy), e.at)
    case Remove(id) => DeleteThread(w, id)
    case ReplaceRuns(runs) => w.(runs := runs)
    case SweepNow(limit, batchSize) =>
      if batchSize > 0 then Sweep(w, global, limit, batchSize, e.at).world else w
  }

  datatype PruneRecord = PruneRecord(thread: ThreadId, updatedAt: Time, ttl: nat, at: Time)

  function PruneOf(x: Expired, at: Time): PruneRecord {
    PruneRecord(x.id, x.updatedAt, x.policy.ttl, at)
  }

  /** The prunes done while handling `items`. */
  function Prunes(items: seq<Expired>, at: Time): seq<PruneRecord> {
    if |items| == 0 then []
    else
      var last := items[|items| - 1];
      Prunes(items[..|items| - 1], at) + if last.policy.strategy == KeepLatest then [PruneOf(last, at)] else []
  }

  ghost function StepPrunes(w: World, global: Option<Policy>, e: Timed): seq<PruneRecord> {
    if e.event.SweepNow? && e.event.batchSize > 0 then Prunes(Take(DueList(w, global, e.at), e.event.limit), e.at) else []
  }

  ghost function Run(w: World, global: Option<Policy>, events: seq<Timed>): World {
    if |events| == 0 then w else Step(Run(w, global, events[..|events| - 1]), global, events[|events| - 1])
  }

  /** All keep-latest prunes of a run, in order. */
  ghost function PruneLog(w: World, global: Option<Policy>, events: seq<Timed>): seq<PruneRecord> {
    if |events| == 0 then []
    else
      var n := |events| - 1;
      PruneLog(w, global, events[..n]) + StepPrunes(Run(w, global, events[..n]), global, events[n])
  }

  /** The clock never runs back. */
  ghost predicate Clocked(events: seq<Timed>) {
    forall i, j :: 0 <= i < j < |events| ==> events[i].at <= events[j].at
  }

  // ---- What a thread's record remembers ------------------------------------------------------------

  /** The thread's record carries a marker at least as new as the update this prune saw. */
  predicate MarkedSince(w: World, r: PruneRecord) {
    StateOf(w.ttls, r.thread).lastSwept.Some? && r.updatedAt <= StateOf(w.ttls, r.thread).lastSwept.value
  }

  /** Since this prune the thread was updated, or it still carries its marker. */
  ghost predicate Remembered(w: World, r: PruneRecord) {
    forall t :: t in w.threads && t.id == r.thread ==>
      r.updatedAt < t.updatedAt || (r.updatedAt <= t.updatedAt && MarkedSince(w, r))
  }

  /** The event wipes the record of the pruned thread in the very instant of the update that the
      prune saw: a policy is set, or the thread is created anew and no marker is left for it. */
  predicate Rearms(w: World, e: Timed, r: PruneRecord) {
    && e.at == r.updatedAt
    && match e.event
       case SetPolicy(id, policy) => id == r.thread && HasThread(w.threads, id)
       case Create(id, ttl) => id == r.thread && !HasThread(w.threads, id) && (ttl.Some? || !MarkedSince(w, r))
       case _ => false
  }

  ghost predicate NotUpdatedAfter(w: World, id: ThreadId, clock: Time) {
    forall t :: t in w.threads && t.id == id ==> t.updatedAt <= clock
  }

  /** No two prunes of one thread saw the same update, or an older one later. */
  ghost predicate Separated(log: seq<PruneRecord>) {
    forall i, j :: 0 <= i < j < |log| && log[i].thread == log[j].thread ==> log[i].updatedAt < log[j].updatedAt
  }

  ghost predicate RememberedRecord(w: World, r: PruneRecord, clock: Time) {
    r.updatedAt + r.ttl <= r.at <= clock && Remembered(w, r) && NotUpdatedAfter(w, r.thread, clock)
  }

  ghost predicate LogInvariant(w: World, log: seq<PruneRecord>, clock: Time) {
    UniqueThreads(w.threads) && Separated(log) && forall r :: r in log ==> RememberedRecord(w, r, clock)
  }

  lemma TouchMembers(threads: seq<Thread>, id: ThreadId, at: Time)
    requires UniqueThreads(threads)
    ensures UniqueThreads(Touch(threads, id, at))
    ensures forall t :: t in Touch(threads, id, at) ==> exists u :: u in threads && t == Touched(u, id, at)
  {
    var after := Touch(threads, id, at);
    forall t | t in after ensures exists u :: u in threads && t == Touched(u, id, at) {
      var i :| 0 <= i < |after| && after[i] == t;
      assert threads[i] in threads && t == Touched(threads[i], id, at);
    }
    forall i, j | 0 <= i < j < |after| ensures after[i].id != after[j].id {
      assert after[i].id == threads[i].id && after[j].id == threads[j].id;
    }
  }

  ghost predicate IsPrune(items: seq<Expired>, at: Time, r: PruneRecord) {
    exists x :: x in items && x.policy.strategy == KeepLatest && r == PruneOf(x, at)
  }

  lemma {:induction false} PrunesMembers(items: seq<Expired>, at: Time)
    requires DistinctIds(items)
    ensures forall r :: r in Prunes(items, at) <==> IsPrune(items, at, r)
    ensures forall i, j :: 0 <= i < j < |Prunes(items, at)| ==> Prunes(items, at)[i].thread != Prunes(items, at)[j].thread
  {
    if |items| > 0 {
      var n := |items| - 1;
      PrunesMembers(items[..n], at);
      var earlier := Prunes(items[..n], at);
      var log := Prunes(items, at);
      forall r | r in earlier ensures IsPrune(items, at, r) && r.thread != items[n].id {
        assert IsPrune(items[..n], at, r);
        var x :| x in items[..n] && x.policy.strategy == KeepLatest && r == PruneOf(x, at);
        var i :| 0 <= i < n && items[i] == x;
        assert x in items;
      }
      if items[n].policy.strategy == KeepLatest {
        assert log == earlier + [PruneOf(items[n], at)];
        assert items[n] in items;
        assert IsPrune(items, at, PruneOf(items[n], at));
      } else {
        assert log == earlier;
      }
      forall r | IsPrune(items, at, r) ensures r in log {
        var x :| x in items && x.policy.strategy == KeepLatest && r == PruneOf(x, at);
        if x != items[n] {
          assert x in items[..n];
          assert IsPrune(items[..n], at, r);
        }
      }
    }
  }

  /** A prune found in the log and a later candidate of the same thread. */
  lemma LaterPruneIsNewer(w: World, global: Option<Policy>, now: Time, r: PruneRecord, x: Expired)
    requires Remembered(w, r) && Eligible(w, global, now, x)
    requires x.id == r.thread && x.policy.strategy == KeepLatest
    ensures r.updatedAt < x.updatedAt
  {
    var t :| t in w.threads && Candidate(w, global, now, ActiveThreads(w.runs), t) == Some(x);
  }

  lemma EligibleIsDue(w: World, global: Option<Policy>, now: Time, x: Expired)
    requires Eligible(w, global, now, x)
    ensures x.updatedAt + x.policy.ttl <= now
  {
    var t :| t in w.threads && Candidate(w, global, now, ActiveThreads(w.runs), t) == Some(x);
  }

  lemma SweepKeepsInvariant(w: World, global: Option<Policy>, limit: Option<nat>, batchSize: nat, now: Time, log: seq<PruneRecord>, clock: Time)
    requires batchSize > 0 && LogInvariant(w, log, clock) && clock <= now
    ensures LogInvariant(Sweep(w, global, limit, batchSize, now).world, log + Prunes(Take(DueList(w, global, now), limit), now), now)
  {
    hide Sweep, DueList, Remembered, Eligible, Take, Prunes, Swept, NotUpdatedAfter;
    var taken := Take(DueList(w, global, now), limit);
    var after := Sweep(w, global, limit, batchSize, now).world;
    var more := Prunes(taken, now);
    TakeDue(w, global, limit, now);
    SweepResult(w, global, limit, batchSize, now);
    SweptThreads(w, after, taken);
    PrunesMembers(taken, now);
    forall r | r in log ensures RememberedRecord(after, r, now) {
      assert RememberedRecord(w, r, clock);
      RememberedAfterSweep(w, after, global, now, taken, r);
      NotUpdatedByThen(w, after, r.thread, clock, now);
    }
    forall r | r in more ensures RememberedRecord(after, r, now) {
      var x :| x in taken && x.policy.strategy == KeepLatest && r == PruneOf(x, now);
      EligibleIsDue(w, global, now, x);
      NewPruneRemembered(w, after, global, now, taken, x, r);
    }
    forall r, q | r in log && q in more && r.thread == q.thread ensures r.updatedAt < q.updatedAt {
      var x :| x in taken && x.policy.strategy == KeepLatest && q == PruneOf(x, now);
      assert RememberedRecord(w, r, clock);
      LaterPruneIsNewer(w, global, now, r, x);
    }
    LogsJoin(log, more);
  }

  lemma SweptThreads(w: World, after: World, taken: seq<Expired>)
    requires Swept(w, after, taken)
    ensures UniqueThreads(after.threads) && forall t :: t in after.threads ==> t in w.threads
  {
  }

  lemma NotUpdatedByThen(w: World, after: World, id: ThreadId, clock: Time, now: Time)
    requires NotUpdatedAfter(w, id, clock) && clock <= now
    requires forall t :: t in after.threads ==> t in w.threads
    ensures NotUpdatedAfter(after, id, now)
  {
  }

  lemma LogsJoin(log: seq<PruneRecord>, more: seq<PruneRecord>)
    requires Separated(log)
    requires forall i, j :: 0 <= i < j < |more| ==> more[i].thread != more[j].thread
    requires forall r, q :: r in log && q in more && r.thread == q.thread ==> r.updatedAt < q.updatedAt
    ensures Separated(log + more)
  {
    var all := log + more;
    forall i, j | 0 <= i < j < |all| && all[i].thread == all[j].thread ensures all[i].updatedAt < all[j].updatedAt {
      if i < |log| <= j { assert all[i] in log && all[j] in more; }
    }
  }

  lemma RememberedAfterSweep(w: World, after: World, global: Option<Policy>, now: Time, taken: seq<Expired>, r: PruneRecord)
    requires UniqueThreads(w.threads) && Remembered(w, r) && Swept(w, after, taken) && DistinctIds(taken)
    requires forall x :: x in taken ==> Eligible(w, global, now, x)
    ensures Remembered(after, r)
  {
    forall t | t in after.threads && t.id == r.thread
      ensures r.updatedAt < t.updatedAt || (r.updatedAt <= t.updatedAt && MarkedSince(after, r))
    {
      MarkedStateOf(w.ttls, t.id, taken);
      if t.id in PrunedIds(taken) {
        var x :| x in taken && x.policy.strategy == KeepLatest && x.id == t.id;
        MarkerOf(w, global, now, x, t);
      }
    }
  }

  /** The marker a sweep leaves is the update it saw. */
  lemma MarkerOf(w: World, global: Option<Policy>, now: Time, x: Expired, t: Thread)
    requires UniqueThreads(w.threads) && Eligible(w, global, now, x) && t in w.threads && t.id == x.id
    ensures x.updatedAt == t.updatedAt
  {
    var u :| u in w.threads && Candidate(w, global, now, ActiveThreads(w.runs), u) == Some(x);
    UniqueThread(w.threads, t, u);
  }

  lemma NewPruneRemembered(w: World, after: World, global: Option<Policy>, now: Time, taken: seq<Expired>, x: Expired, r: PruneRecord)
    requires UniqueThreads(w.threads) && Swept(w, after, taken) && DistinctIds(taken)
    requires x in taken && x.policy.strategy == KeepLatest && Eligible(w, global, now, x)
    requires r == PruneOf(x, now)
    ensures Remembered(after, r) && NotUpdatedAfter(after, r.thread, r.updatedAt)
    ensures forall clock :: r.updatedAt <= clock ==> NotUpdatedAfter(after, r.thread, clock)
  {
    forall t | t in after.threads && t.id == r.thread ensures r.updatedAt == t.updatedAt && MarkedSince(after, r) {
      MarkedStateOf(w.ttls, t.id, taken);
      MarkerOf(w, global, now, x, t);
    }
  }

  // ---- The one way to forget -------------------------------------------------------------------------

  /** Exactly when an event makes a thread forget a prune: if it re-arms it.  Updates at later
      instants, updates without a policy, deletions, runs and sweeps never do. */
  lemma StepForgetsIffRearms(w: World, global: Option<Policy>, e: Timed, r: PruneRecord)
    requires UniqueThreads(w.threads) && Remembered(w, r)
    requires r.updatedAt <= e.at && NotUpdatedAfter(w, r.thread, e.at)
    ensures UniqueThreads(Step(w, global, e).threads) && NotUpdatedAfter(Step(w, global, e), r.thread, e.at)
    ensures Remembered(Step(w, global, e), r) <==> !Rearms(w, e, r)
  {
    hide Sweep, DueList, DeleteThread, Touch, Override, Swept, Remembered, NotUpdatedAfter, MarkedSince;
    match e.event
    case Create(id, ttl) => CreateForgets(w, global, e, r);
    case Activity(id) => TouchForgets(w, id, w.ttls, e.at, r);
    case SetPolicy(id, policy) =>
      if HasThread(w.threads, id) { PolicyForgets(w, id, policy, e.at, r); }
    case Remove(id) => RemoveRemembers(w, id, e.at, r);
    case ReplaceRuns(runs) => SameRecords(w, w.(runs := runs), r, e.at);
    case SweepNow(limit, batchSize) =>
      if batchSize > 0 {
        var taken := Take(DueList(w, global, e.at), limit);
        var after := Sweep(w, global, limit, batchSize, e.at).world;
        TakeDue(w, global, limit, e.at);
        SweepResult(w, global, limit, batchSize, e.at);
        SweptThreads(w, after, taken);
        RememberedAfterSweep(w, after, global, e.at, taken, r);
        NotUpdatedByThen(w, after, r.thread, e.at, e.at);
      }
  }

  lemma SameRecords(w: World, after: World, r: PruneRecord, clock: Time)
    requires after.threads == w.threads && after.ttls == w.ttls
    ensures Remembered(after, r) == Remembered(w, r) && NotUpdatedAfter(after, r.thread, clock) == NotUpdatedAfter(w, r.thread, clock)
  {
  }

  lemma CreateForgets(w: World, global: Option<Policy>, e: Timed, r: PruneRecord)
    requires UniqueThreads(w.threads) && Remembered(w, r) && e.event.Create?
    requires r.updatedAt <= e.at && NotUpdatedAfter(w, r.thread, e.at)
    ensures UniqueThreads(Step(w, global, e).threads) && NotUpdatedAfter(Step(w, global, e), r.thread, e.at)
    ensures Remembered(Step(w, global, e), r) <==> !Rearms(w, e, r)
  {
    var id := e.event.id;
    HasThreadMember(w.threads, id);
    if !HasThread(w.threads, id) {
      var after := Step(w, global, e);
      var t := Thread(id, e.at, Idle);
      assert t in after.threads;
      assert forall u :: u in after.threads <==> u in w.threads || u == t;
      assert id != r.thread ==> MarkedSince(after, r) == MarkedSince(w, r);
    }
  }

  /** An update of a thread, by itself, forgets nothing. */
  lemma TouchForgets(w: World, id: ThreadId, ttls: map<ThreadId, TtlState>, at: Time, r: PruneRecord)
    requires UniqueThreads(w.threads) && Remembered(w, r) && r.updatedAt <= at && NotUpdatedAfter(w, r.thread, at)
    requires ttls == w.ttls || (id != r.thread && StateOf(ttls, r.thread) == StateOf(w.ttls, r.thread))
    ensures var after := w.(threads := Touch(w.threads, id, at), ttls := ttls);
      UniqueThreads(after.threads) && NotUpdatedAfter(after, r.thread, at) && Remembered(after, r)
  {
    hide Touch;
    TouchMembers(w.threads, id, at);
    var after := w.(threads := Touch(w.threads, id, at), ttls := ttls);
    assert MarkedSince(after, r) == MarkedSince(w, r);
  }

  lemma PolicyForgets(w: World, id: ThreadId, policy: Option<Policy>, at: Time, r: PruneRecord)
    requires UniqueThreads(w.threads) && HasThread(w.threads, id) && Remembered(w, r)
    requires r.updatedAt <= at && NotUpdatedAfter(w, r.thread, at)
    ensures var after := w.(threads := Touch(w.threads, id, at), ttls := Override(w.ttls, id, policy));
      && UniqueThreads(after.threads) && NotUpdatedAfter(after, r.thread, at)
      && (Remembered(after, r) <==> !(at == r.updatedAt && id == r.thread))
  {
    var after := w.(threads := Touch(w.threads, id, at), ttls := Override(w.ttls, id, policy));
    if id != r.thread {
      TouchForgets(w, id, after.ttls, at, r);
    } else {
      TouchMembers(w.threads, id, at);
      assert !MarkedSince(after, r);
      var i :| 0 <= i < |w.threads| && w.threads[i].id == id;
      var t := Touch(w.threads, id, at)[i];
      assert t in after.threads && t.id == r.thread && t.updatedAt == at;
    }
  }

  lemma RemoveRemembers(w: World, id: ThreadId, at: Time, r: PruneRecord)
    requires UniqueThreads(w.threads) && Remembered(w, r) && NotUpdatedAfter(w, r.thread, at)
    ensures var after := DeleteThread(w, id);
      UniqueThreads(after.threads) && NotUpdatedAfter(after, r.thread, at) && Remembered(after, r)
  {
    hide DeleteData;
    ThreadsWithoutMembers(w.threads, id);
    var after := DeleteThread(w, id);
    assert id != r.thread ==> MarkedSince(after, r) == MarkedSince(w, r);
  }

  /** A forgotten prune is exactly one that a sweep can repeat: with its runs finished, its policy
      keep-latest and its TTL run out, a thread is pruned again for the update it was already pruned
      for if and only if it has forgotten. */
  lemma ForgottenIffPrunable(w: World, global: Option<Policy>, now: Time, r: PruneRecord, t: Thread)
    requires UniqueThreads(w.threads) && t in w.threads && t.id == r.thread && r.updatedAt <= t.updatedAt
    requires t.id !in ActiveThreads(w.runs)
    requires var policy := EffectivePolicy(w.ttls, global, t.id);
      policy.Some? && policy.value.strategy == KeepLatest && t.updatedAt + policy.value.ttl <= now
    ensures !Remembered(w, r) <==>
      exists q :: q in Prunes(DueList(w, global, now), now) && q.thread == r.thread && q.updatedAt <= r.updatedAt
  {
    hide DueList, Prunes;
    var due := DueList(w, global, now);
    TakeDue(w, global, None, now);
    assert Take(due, None) == due;
    PrunesMembers(due, now);
    if !Remembered(w, r) {
      var u :| u in w.threads && u.id == r.thread && !(r.updatedAt < u.updatedAt || (r.updatedAt <= u.updatedAt && MarkedSince(w, r)));
      UniqueThread(w.threads, t, u);
      var x := Candidate(w, global, now, ActiveThreads(w.runs), t).value;
      DueListMembers(w, global, now);
      assert x in due && x.policy.strategy == KeepLatest;
      assert PruneOf(x, now) in Prunes(due, now);
    }
    if Remembered(w, r) {
      forall q | q in Prunes(due, now) && q.thread == r.thread ensures r.updatedAt < q.updatedAt {
        var x :| x in due && x.policy.strategy == KeepLatest && q == PruneOf(x, now);
        LaterPruneIsNewer(w, global, now, r, x);
      }
    }
  }

  // ---- Whole runs ------------------------------------------------------------------------------------

  /** The event re-arms none of the prunes of the run before it. */
  ghost predicate RearmsNone(w: World, global: Option<Policy>, events: seq<Timed>, e: Timed) {
    forall r :: r in PruneLog(w, global, events) ==> !Rearms(Run(w, global, events), e, r)
  }

  /** No event of the run re-arms a prune that came before it. */
  ghost predicate NeverRearmed(w: World, global: Option<Policy>, events: seq<Timed>) {
    forall k :: 0 <= k < |events| ==> RearmsNone(w, global, events[..k], events[k])
  }

  lemma EventKeepsInvariant(w: World, global: Option<Policy>, e: Timed, log: seq<PruneRecord>, clock: Time)
    requires LogInvariant(w, log, clock) && clock <= e.at
    requires forall r :: r in log ==> !Rearms(w, e, r)
    ensures LogInvariant(Step(w, global, e), log + StepPrunes(w, global, e), e.at)
  {
    hide Sweep, DueList, DeleteThread, Remembered, NotUpdatedAfter, Rearms, Separated;
    if e.event.SweepNow? && e.event.batchSize > 0 {
      SweepKeepsInvariant(w, global, e.event.limit, e.event.batchSize, e.at, log, clock);
    } else {
      hide Step;
      assert log + StepPrunes(w, global, e) == log;
      StepKeepsUnique(w, global, e);
      forall r | r in log ensures RememberedRecord(Step(w, global, e), r, e.at) {
        assert RememberedRecord(w, r, clock);
        NotUpdatedByThen(w, w, r.thread, clock, e.at);
        StepForgetsIffRearms(w, global, e, r);
      }
    }
  }

  lemma StepKeepsUnique(w: World, global: Option<Policy>, e: Timed)
    requires UniqueThreads(w.threads)
    ensures UniqueThreads(Step(w, global, e).threads)
  {
    hide Sweep, DueList, DeleteData, Touch, Swept;
    match e.event
    case Create(id, ttl) =>
    case Activity(id) => TouchMembers(w.threads, id, e.at);
    case SetPolicy(id, policy) => TouchMembers(w.threads, id, e.at);
    case Remove(id) => ThreadsWithoutMembers(w.threads, id);
    case ReplaceRuns(runs) =>
    case SweepNow(limit, batchSize) =>
      if batchSize > 0 {
        SweepResult(w, global, limit, batchSize, e.at);
        SweptThreads(w, Sweep(w, global, limit, batchSize, e.at).world, Take(DueList(w, global, e.at), limit));
      }
  }

  lemma NeverRearmedPrefix(w: World, global: Option<Policy>, events: seq<Timed>, e: Timed)
    ensures NeverRearmed(w, global, events + [e]) <==> NeverRearmed(w, global, events) && RearmsNone(w, global, events, e)
  {
    hide RearmsNone;
    var all := events + [e];
    assert all[..|events|] == events && all[|events|] == e;
    forall k | 0 <= k < |events| ensures all[..k] == events[..k] && all[k] == events[k] {}
    if NeverRearmed(w, global, all) {
      forall k | 0 <= k < |events| ensures RearmsNone(w, global, events[..k], events[k]) {
        assert RearmsNone(w, global, all[..k], all[k]);
      }
      assert RearmsNone(w, global, all[..|events|], all[|events|]);
    }
  }

  lemma {:induction false} LogInvariantHolds(w: World, global: Option<Policy>, events: seq<Timed>, clock: Time)
    requires UniqueThreads(w.threads) && Clocked(events) && NeverRearmed(w, global, events)
    requires forall k :: 0 <= k < |events| ==> events[k].at <= clock
    ensures LogInvariant(Run(w, global, events), PruneLog(w, global, events), clock)
  {
    hide Step, StepPrunes, Rearms, LogInvariant;
    if |events| == 0 {
      EmptyLog(w, clock);
    } else {
      var n := |events| - 1;
      var init, e := events[..n], events[n];
      assert events == init + [e];
      hide NeverRearmed;
      NeverRearmedPrefix(w, global, init, e);
      LogInvariantHolds(w, global, init, e.at);
      EventKeepsInvariant(Run(w, global, init), global, e, PruneLog(w, global, init), e.at);
      LaterInvariant(Run(w, global, events), PruneLog(w, global, events), e.at, clock);
    }
  }

  lemma LaterInvariant(w: World, log: seq<PruneRecord>, clock: Time, later: Time)
    requires LogInvariant(w, log, clock) && clock <= later
    ensures LogInvariant(w, log, later)
  {
    forall r | r in log ensures RememberedRecord(w, r, later) { assert RememberedRecord(w, r, clock); }
  }

  lemma EmptyLog(w: World, clock: Time)
    requires UniqueThreads(w.threads)
    ensures LogInvariant(w, [], clock)
  {
  }

  /** Between two keep-latest prunes of one thread its `updated_at` moved on, and a full TTL had
      passed since that update when it was pruned again; unless a prune was re-armed. */
  lemma PrunesAreSeparated(w: World, global: Option<Policy>, events: seq<Timed>, i: nat, j: nat)
    requires UniqueThreads(w.threads) && Clocked(events) && NeverRearmed(w, global, events)
    requires i < j < |PruneLog(w, global, events)|
    requires PruneLog(w, global, events)[i].thread == PruneLog(w, global, events)[j].thread
    ensures var log := PruneLog(w, global, events);
      log[i].updatedAt < log[j].updatedAt && log[j].updatedAt + log[j].ttl <= log[j].at
  {
    hide Run, PruneLog, NeverRearmed, Remembered, NotUpdatedAfter;
    var log := PruneLog(w, global, events);
    if |events| == 0 { NoPrunes(w, global, events); }
    var clock := events[|events| - 1].at;
    LogInvariantHolds(w, global, events, clock);
    assert RememberedRecord(Run(w, global, events), log[j], clock);
  }

  lemma NoPrunes(w: World, global: Option<Policy>, events: seq<Timed>)
    requires |events| == 0
    ensures PruneLog(w, global, events) == []
  {
  }

  /** A run, one more event, then every run of the threads finished, and a sweep a TTL later. */
  function Probed(events: seq<Timed>, e: Timed, ttl: nat): seq<Timed> {
    events + [e] + [Timed(e.at, ReplaceRuns([]))] + [Timed(e.at + ttl, SweepNow(None, 1))]
  }

  /** The condition is exact: when an event follows a run without re-arming, and leaves its thread
      with a keep-latest policy, the prunes can come to overlap if and only if it re-arms one. */
  lemma RearmedIffPrunedAgain(w: World, global: Option<Policy>, events: seq<Timed>, e: Timed, ttl: nat)
    requires UniqueThreads(w.threads) && Clocked(events + [e]) && NeverRearmed(w, global, events)
    requires e.event.SetPolicy? || e.event.Create?
    requires EffectivePolicy(Run(w, global, events + [e]).ttls, global, e.event.id) == Some(Policy(KeepLatest, ttl))
    ensures !Separated(PruneLog(w, global, Probed(events, e, ttl)))
      <==> !RearmsNone(w, global, events, e)
  {
    hide Run, PruneLog, NeverRearmed, Rearms;
    if !RearmsNone(w, global, events, e) {
      var r :| r in PruneLog(w, global, events) && Rearms(Run(w, global, events), e, r);
      RearmedIsPrunedAgain(w, global, events, e, ttl, r);
    } else {
      var idle, sweep := Timed(e.at, ReplaceRuns([])), Timed(e.at + ttl, SweepNow(None, 1));
      NeverRearmedPrefix(w, global, events, e);
      NeverRearmedByOthers(w, global, events + [e], idle);
      NeverRearmedByOthers(w, global, events + [e] + [idle], sweep);
      ProbedClocked(events, e, ttl);
      LogInvariantHolds(w, global, Probed(events, e, ttl), e.at + ttl);
    }
  }

  lemma ProbedClocked(events: seq<Timed>, e: Timed, ttl: nat)
    requires Clocked(events + [e])
    ensures Clocked(Probed(events, e, ttl))
    ensures forall k :: 0 <= k < |Probed(events, e, ttl)| ==> Probed(events, e, ttl)[k].at <= e.at + ttl
  {
    var all := Probed(events, e, ttl);
    var n := |events|;
    forall k | 0 <= k <= n ensures all[k] == (events + [e])[k] && all[k].at <= e.at {
      assert (events + [e])[n] == e;
    }
    assert all[n + 1].at == e.at && all[n + 2].at == e.at + ttl;
    forall i, j | 0 <= i < j < |all| ensures all[i].at <= all[j].at {
      if j <= n { assert (events + [e])[i].at <= (events + [e])[j].at; }
    }
  }

  lemma NeverRearmedByOthers(w: World, global: Option<Policy>, events: seq<Timed>, e: Timed)
    requires NeverRearmed(w, global, events) && !e.event.SetPolicy? && !e.event.Create?
    ensures NeverRearmed(w, global, events + [e])
  {
    hide Run, PruneLog, NeverRearmed;
    NeverRearmedPrefix(w, global, events, e);
  }

  lemma RunSnoc(w: World, global: Option<Policy>, events: seq<Timed>, e: Timed)
    ensures Run(w, global, events + [e]) == Step(Run(w, global, events), global, e)
    ensures PruneLog(w, global, events + [e]) == PruneLog(w, global, events) + StepPrunes(Run(w, global, events), global, e)
  {
    hide Step, StepPrunes;
    assert (events + [e])[..|events|] == events;
  }

  lemma RearmedIsPrunedAgain(w: World, global: Option<Policy>, events: seq<Timed>, e: Timed, ttl: nat, r: PruneRecord)
    requires UniqueThreads(w.threads) && Clocked(events + [e]) && NeverRearmed(w, global, events)
    requires r in PruneLog(w, global, events) && Rearms(Run(w, global, events), e, r)
    requires EffectivePolicy(Run(w, global, events + [e]).ttls, global, e.event.id) == Some(Policy(KeepLatest, ttl))
    ensures !Separated(PruneLog(w, global, Probed(events, e, ttl)))
  {
    hide Run, PruneLog, NeverRearmed, StepPrunes, Remembered, NotUpdatedAfter, DueList, Prunes, Rearms, Step, EffectivePolicy;
    var idle, sweep := Timed(e.at, ReplaceRuns([])), Timed(e.at + ttl, SweepNow(None, 1));
    var v, log := Run(w, global, events), PruneLog(w, global, events);
    LogInvariantAt(w, global, events, e, r);
    StepForgetsIffRearms(v, global, e, r);
    RunSnoc(w, global, events, e);
    RunSnoc(w, global, events + [e], idle);
    RunSnoc(w, global, events + [e] + [idle], sweep);
    var after := Step(v, global, e);
    var free := Step(after, global, idle);
    RearmedThread(v, global, e, r);
    FreedThread(after, global, idle, r);
    var t :| t in after.threads && t.id == r.thread && t.updatedAt == r.updatedAt;
    ForgottenIffPrunable(free, global, sweep.at, r, t);
    var q :| q in Prunes(DueList(free, global, sweep.at), sweep.at) && q.thread == r.thread && q.updatedAt <= r.updatedAt;
    SweepPrunes(free, global, sweep);
    var i :| 0 <= i < |log| && log[i] == r;
    var all := PruneLog(w, global, Probed(events, e, ttl));
    var tail := StepPrunes(v, global, e) + StepPrunes(after, global, idle) + StepPrunes(free, global, sweep);
    assert all == log + tail;
    assert q in StepPrunes(free, global, sweep);
    assert q in tail;
    var j :| 0 <= j < |tail| && tail[j] == q;
    assert all[i] == r && all[|log| + j] == q;
  }

  lemma SweepPrunes(w: World, global: Option<Policy>, sweep: Timed)
    requires sweep.event == SweepNow(None, 1)
    ensures StepPrunes(w, global, sweep) == Prunes(DueList(w, global, sweep.at), sweep.at)
  {
  }

  lemma LogInvariantAt(w: World, global: Option<Policy>, events: seq<Timed>, e: Timed, r: PruneRecord)
    requires UniqueThreads(w.threads) && Clocked(events + [e]) && NeverRearmed(w, global, events)
    requires r in PruneLog(w, global, events)
    ensures UniqueThreads(Run(w, global, events).threads) && RememberedRecord(Run(w, global, events), r, e.at)
  {
    hide Run, PruneLog, NeverRearmed, RememberedRecord;
    forall k | 0 <= k < |events| ensures events[k].at <= e.at {
      assert (events + [e])[k] == events[k] && (events + [e])[|events|] == e;
    }
    forall i, j | 0 <= i < j < |events| ensures events[i].at <= events[j].at {
      assert (events + [e])[i] == events[i] && (events + [e])[j] == events[j];
    }
    LogInvariantHolds(w, global, events, e.at);
  }

  /** A re-arming event leaves its thread as updated in the instant the prune saw. */
  lemma RearmedThread(w: World, global: Option<Policy>, e: Timed, r: PruneRecord)
    requires Rearms(w, e, r)
    ensures e.event.id == r.thread
    ensures exists t :: t in Step(w, global, e).threads && t.id == r.thread && t.updatedAt == r.updatedAt
  {
    hide Override;
    var after := Step(w, global, e);
    if e.event.SetPolicy? {
      var i :| 0 <= i < |w.threads| && w.threads[i].id == r.thread;
      assert after.threads[i] in after.threads && after.threads[i].id == r.thread;
    } else {
      assert after.threads[|w.threads|] in after.threads;
    }
  }

  lemma FreedThread(w: World, global: Option<Policy>, idle: Timed, r: PruneRecord)
    requires idle.event == ReplaceRuns([])
    ensures var free := Step(w, global, idle);
      free.threads == w.threads && free.ttls == w.ttls && free.runs == [] && ActiveThreads(free.runs) == {}
    ensures Remembered(Step(w, global, idle), r) == Remembered(w, r)
  {
    SameRecords(w, Step(w, global, idle), r, 0);
  }

  /** Without a limit a sweep handles exactly the inactive threads whose shown expiry has come. */
  lemma UnlimitedSweepHandles(w: World, global: Option<Policy>, now: Time, t: Thread)
    requires UniqueThreads(w.threads) && t in w.threads
    ensures var own := if t.id in w.ttls then w.ttls[t.id].policy else None;
      var policy := if own.Some? then own else global;
      (exists x :: x in Take(DueList(w, global, now), None) && x.id == t.id) <==>
        && t.id !in ActiveThreads(w.runs)
        && policy.Some?
        && var shown := ShownExpiry(t, policy.value, StateOf(w.ttls, t.id));
           shown.Some? && shown.value <= now
  {
    hide DueList;
    DueListMembers(w, global, now);
    CandidateIffShownExpired(w, global, now, t);
    if exists x :: x in DueList(w, global, now) && x.id == t.id {
      var x :| x in DueList(w, global, now) && x.id == t.id;
      var u :| u in w.threads && Candidate(w, global, now, ActiveThreads(w.runs), u) == Some(x);
      UniqueThread(w.threads, t, u);
    }
    var c := Candidate(w, global, now, ActiveThreads(w.runs), t);
    if c.Some? { assert c.value in DueList(w, global, now); }
  }

  // ---- A prune re-armed ------------------------------------------------------------------------------

  const INSTANT := Policy(KeepLatest, 0)

  ghost predicate FreshlySet(w: World) {
    w.threads == [Thread("t", 0, Idle)] && w.runs == [] && w.ttls == map["t" := TtlState(Some(INSTANT), None)]
  }

  lemma FreshlySetIsDue(w: World)
    requires FreshlySet(w)
    ensures DueList(w, None, 0) == [Expired(0, "t", INSTANT, TtlState(Some(INSTANT), None), 0)]
  {
    var item := Expired(0, "t", INSTANT, TtlState(Some(INSTANT), None), 0);
    assert Candidate(w, None, 0, ActiveThreads(w.runs), w.threads[0]) == Some(item);
    assert Candidates(w, None, 0, ActiveThreads(w.runs), w.threads[..0]) == [];
    assert Candidates(w, None, 0, ActiveThreads(w.runs), w.threads) == [item];
    assert Sort([item][..0]) == [];
  }

  lemma LogOfThree(w: World, global: Option<Policy>, a: Timed, b: Timed, c: Timed)
    ensures PruneLog(w, global, [a, b, c])
      == StepPrunes(w, global, a) + StepPrunes(Step(w, global, a), global, b) + StepPrunes(Step(Step(w, global, a), global, b), global, c)
  {
    hide Step, StepPrunes;
    var events := [a, b, c];
    assert events[..2] == [a, b] && [a, b][..1] == [a] && [a][..0] == [];
    assert Run(w, global, []) == w && PruneLog(w, global, []) == [];
    assert Run(w, global, [a]) == Step(w, global, a);
    assert Run(w, global, [a, b]) == Step(Step(w, global, a), global, b);
    assert PruneLog(w, global, [a]) == StepPrunes(w, global, a);
    assert PruneLog(w, global, [a, b]) == StepPrunes(w, global, a) + StepPrunes(Step(w, global, a), global, b);
  }

  lemma SweepFreshlySet(w: World, sweep: Timed)
    requires FreshlySet(w) && sweep == Timed(0, SweepNow(None, 1))
    ensures StepPrunes(w, None, sweep) == [PruneRecord("t", 0, 0, 0)]
    ensures Step(w, None, sweep).threads == w.threads && Step(w, None, sweep).runs == w.runs
    ensures Step(w, None, sweep).ttls.Keys == {"t"}
  {
    hide Swept, ProcessEach, DueList, Sweep, PruneData;
    var item := Expired(0, "t", INSTANT, TtlState(Some(INSTANT), None), 0);
    FreshlySetIsDue(w);
    SweepResult(w, None, None, 1, 0);
    ProcessSingle(Progress(w, 0, 0), item);
    PruneSingle(item);
  }

  lemma ProcessSingle(p: Progress, item: Expired)
    ensures ProcessEach(p, [item]) == ProcessOne(p, item)
  {
    hide ProcessOne;
    assert [item][..0] == [];
  }

  lemma PruneSingle(item: Expired)
    requires item.policy.strategy == KeepLatest
    ensures Prunes([item], 0) == [PruneOf(item, 0)]
  {
    assert [item][..0] == [];
  }

  /** Setting a policy drops the sweep marker: with a TTL of zero and no tick of the clock in
      between, the same update of a thread is pruned twice. */
  lemma PolicyResetSameInstant(w: World)
    requires FreshlySet(w)
    ensures var sweep := Timed(0, SweepNow(None, 1));
      var log := PruneLog(w, None, [sweep, Timed(0, SetPolicy("t", Some(INSTANT))), sweep]);
      |log| == 2 && log[0].thread == log[1].thread && log[0].updatedAt == log[1].updatedAt
  {
    hide Sweep, DueList;
    var sweep, reset := Timed(0, SweepNow(None, 1)), Timed(0, SetPolicy("t", Some(INSTANT)));
    SweepFreshlySet(w, sweep);
    var w1 := Step(w, None, sweep);
    var w2 := Step(w1, None, reset);
    assert HasThread(w1.threads, "t") by { assert w1.threads[0].id == "t"; }
    assert w2.threads == w.threads;
    SweepFreshlySet(w2, sweep);
    LogOfThree(w, None, sweep, reset, sweep);
  }
}
