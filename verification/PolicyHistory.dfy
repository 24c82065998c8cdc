/** Which policy a sweep goes by after a history of creations, patches, deletions and sweeps (ops.py). */
module PolicyHistory {
  import opened Wrappers
  import opened CheckpointModel
  import opened RuntimeState
  import opened ThreadTtl
  import opened ThreadSweeps
  import opened SweepEffects
  import H = ThreadTtlHistory

  ghost predicate There(w: World, id: ThreadId) {
    exists t :: t in w.threads && t.id == id
  }

  /** The policy last given to a thread, by creating or patching it, and not lost with the thread. */
  ghost function GivenPolicy(w: World, global: Option<Policy>, events: seq<H.Timed>, id: ThreadId): Option<Policy> {
    if |events| == 0 then if id in w.ttls then w.ttls[id].policy else None
    else
      var n := |events| - 1;
      var there := There(H.Run(w, global, events[..n]), id);
      var before := GivenPolicy(w, global, events[..n], id);
      match events[n].event
      case SetPolicy(i, policy) => if i == id && there then policy else before
      case Create(i, ttl) => if i == id && !there && ttl.Some? then ttl.value else before
      case Remove(i) => if i == id && there then None else before
      case SweepNow(limit, batchSize) => if there && !There(H.Run(w, global, events), id) then None else before
      case _ => before
  }

  /** When the thread was last updated, if the history says so. */
  ghost function LastUpdate(w: World, global: Option<Policy>, events: seq<H.Timed>, id: ThreadId): Option<Time> {
    if |events| == 0 then None
    else
      var n := |events| - 1;
      var before := LastUpdate(w, global, events[..n], id);
      match events[n].event
      case SetPolicy(i, policy) => if i == id then Some(events[n].at) else before
      case Activity(i) => if i == id then Some(events[n].at) else before
      case Create(i, ttl) => if i == id && !There(H.Run(w, global, events[..n]), id) then Some(events[n].at) else before
      case _ => before
  }

  lemma ThereIs(w: World, id: ThreadId)
    ensures There(w, id) <==> HasThread(w.threads, id)
  {
    HasThreadMember(w.threads, id);
  }

  lemma SweepKeepsPolicies(w: World, global: Option<Policy>, limit: Option<nat>, batchSize: nat, now: Time, id: ThreadId)
    requires batchSize > 0 && UniqueThreads(w.threads)
    ensures var v := Sweep(w, global, limit, batchSize, now).world;
      && UniqueThreads(v.threads) && (forall t :: t in v.threads ==> t in w.threads)
      && StateOf(v.ttls, id).policy == if There(w, id) && !There(v, id) then None else StateOf(w.ttls, id).policy
  {
    hide Sweep, DueList, ViewOf;
    var taken := Take(DueList(w, global, now), limit);
    var v := Sweep(w, global, limit, batchSize, now).world;
    TakeDue(w, global, limit, now);
    SweepResult(w, global, limit, batchSize, now);
    hide Take;
    MarkedStateOf(w.ttls, id, taken);
    DeletedIffGone(w, v, taken, id);
    if id in PrunedIds(taken) {
      var x :| x in taken && x.policy.strategy == KeepLatest && x.id == id;
      assert MarkedState(w.ttls, id, taken).policy == x.state.policy;
    }
  }

  lemma DeletedIffGone(w: World, v: World, taken: seq<Expired>, id: ThreadId)
    requires Swept(w, v, taken) && FromWorld(w, taken)
    ensures id in DeletedIds(taken) <==> There(w, id) && !There(v, id)
  {
    hide ViewOf;
    ThereIs(w, id);
    if id in DeletedIds(taken) {
      var x :| x in taken && x.policy.strategy == Delete && x.id == id;
      assert HasThread(w.threads, x.id);
    } else if There(w, id) {
      var t :| t in w.threads && t.id == id;
      assert t in v.threads;
    }
  }

  lemma StepKeepsPolicy(w: World, global: Option<Policy>, e: H.Timed, id: ThreadId)
    requires UniqueThreads(w.threads)
    ensures var v := H.Step(w, global, e);
      UniqueThreads(v.threads) && StateOf(v.ttls, id).policy ==
        match e.event
        case SetPolicy(i, policy) => if i == id && There(w, id) then policy else StateOf(w.ttls, id).policy
        case Create(i, ttl) => if i == id && !There(w, id) && ttl.Some? then ttl.value else StateOf(w.ttls, id).policy
        case Remove(i) => if i == id && There(w, id) then None else StateOf(w.ttls, id).policy
        case SweepNow(limit, batchSize) => if There(w, id) && !There(v, id) then None else StateOf(w.ttls, id).policy
        case _ => StateOf(w.ttls, id).policy
  {
    hide Sweep, DeleteData, Touch, HasThread, There;
    H.StepKeepsUnique(w, global, e);
    ThereIs(w, id);
    if e.event.SweepNow? && e.event.batchSize > 0 {
      SweepKeepsPolicies(w, global, e.event.limit, e.event.batchSize, e.at, id);
    }
  }

  /** The policy on a thread's record is the one last given to it: no sweep or update changes it. */
  lemma {:induction false} PolicyIsLastGiven(w: World, global: Option<Policy>, events: seq<H.Timed>, id: ThreadId)
    requires UniqueThreads(w.threads)
    ensures UniqueThreads(H.Run(w, global, events).threads)
    ensures StateOf(H.Run(w, global, events).ttls, id).policy == GivenPolicy(w, global, events, id)
  {
    hide H.Step, There, UniqueThreads;
    if |events| > 0 {
      var n := |events| - 1;
      PolicyIsLastGiven(w, global, events[..n], id);
      StepKeepsPolicy(H.Run(w, global, events[..n]), global, events[n], id);
    }
  }

  /** What a row's `updated_at` is after one step. */
  lemma StepUpdates(w: World, global: Option<Policy>, e: H.Timed, t: Thread)
    requires UniqueThreads(w.threads) && t in H.Step(w, global, e).threads
    ensures match e.event
      case SetPolicy(i, policy) => if i == t.id then t.updatedAt == e.at else t in w.threads
      case Activity(i) => if i == t.id then t.updatedAt == e.at else t in w.threads
      case Create(i, ttl) => if i == t.id && !There(w, t.id) then t.updatedAt == e.at else t in w.threads
      case _ => t in w.threads
  {
    hide Sweep, DeleteData, Touch, HasThread, There, Override;
    var after := H.Step(w, global, e).threads;
    ThereIs(w, t.id);
    match e.event {
      case SetPolicy(i, policy) =>
        ThereIs(w, i);
        H.TouchMembers(w.threads, i, e.at);
        ThereRow(w, t);
      case Activity(i) => H.TouchMembers(w.threads, i, e.at);
      case Create(i, ttl) =>
        ThereIs(w, i);
        ThereRow(w, t);
      case Remove(i) => ThreadsWithoutMembers(w.threads, i);
      case ReplaceRuns(runs) =>
      case SweepNow(limit, batchSize) =>
        if batchSize > 0 { SweepKeepsPolicies(w, global, limit, batchSize, e.at, t.id); }
    }
  }

  lemma ThereRow(w: World, t: Thread)
    ensures t in w.threads ==> There(w, t.id)
  {
  }

  /** A thread's `updated_at` is the time of its last creation, patch or activity. */
  lemma {:induction false} UpdatedAtIsLastUpdate(w: World, global: Option<Policy>, events: seq<H.Timed>, t: Thread)
    requires UniqueThreads(w.threads) && t in H.Run(w, global, events).threads
    ensures match LastUpdate(w, global, events, t.id)
      case Some(at) => t.updatedAt == at
      case None => t in w.threads
  {
    hide H.Step, There, UniqueThreads;
    if |events| > 0 {
      var n := |events| - 1;
      PolicyIsLastGiven(w, global, events[..n], t.id);
      StepUpdates(H.Run(w, global, events[..n]), global, events[n], t);
      if t in H.Run(w, global, events[..n]).threads { UpdatedAtIsLastUpdate(w, global, events[..n], t); }
    }
  }

  /** After any history a sweep goes by the policy last given to the thread, and only without one by
      the global policy. */
  lemma LastGivenPolicyDecides(w: World, global: Option<Policy>, events: seq<H.Timed>, batchSize: nat, now: Time, t: Thread, p: Policy)
    requires batchSize > 0 && UniqueThreads(w.threads) && t in H.Run(w, global, events).threads
    requires var given := GivenPolicy(w, global, events, t.id); given == Some(p) || (given == None && global == Some(p))
    ensures var u := H.Run(w, global, events); var v := Sweep(u, global, None, batchSize, now).world;
      SweptUnder(u, v, t, p, GivenPolicy(w, global, events, t.id), if t.id in u.ttls then u.ttls[t.id].lastSwept else None, now)
  {
    hide H.Run, GivenPolicy, SweptUnder, Sweep;
    var u := H.Run(w, global, events);
    PolicyIsLastGiven(w, global, events, t.id);
    if GivenPolicy(w, global, events, t.id) == Some(p) {
      OwnPolicyDecides(u, global, batchSize, now, t, p);
    } else {
      GlobalPolicyDecides(u, batchSize, now, t, p, if t.id in u.ttls then u.ttls[t.id].lastSwept else None);
    }
  }
}
