/** What a sweep does to one thread, told from the thread's rows and the policies alone (ops.py). */
module SweepEffects {
  import opened Wrappers
  import Lex
  import opened CheckpointModel
  import opened RuntimeState
  import opened ThreadTtl
  import opened ThreadSweeps

  ghost predicate Inactive(w: World, id: ThreadId) {
    forall r :: r in w.runs && r.thread == id ==> r.status != Pending && r.status != Running
  }

  /** A full TTL has passed since the last update, and a keep-latest prune has not seen it yet. */
  predicate Overdue(t: Thread, p: Policy, marker: Option<Time>, now: Time) {
    t.updatedAt + p.ttl <= now && !(p.strategy == KeepLatest && marker.Some? && t.updatedAt <= marker.value)
  }

  ghost predicate Untouched(w: World, v: World, t: Thread) {
    && t in v.threads
    && (t.id in v.ttls <==> t.id in w.ttls) && (t.id in w.ttls ==> v.ttls[t.id] == w.ttls[t.id])
    && ViewOf(v.data, t.id) == ViewOf(w.data, t.id)
  }

  ghost predicate Gone(v: World, id: ThreadId) {
    && (forall t :: t in v.threads ==> t.id != id) && id !in v.ttls
    && (forall r :: r in v.runs ==> r.thread != id) && (forall c :: c in v.crons ==> c.thread != Some(id))
    && ViewOf(v.data, id) == NO_ROWS
  }

  /** Pruned to the latest checkpoints, and marked with the update that was pruned for; a policy of
      its own stays. */
  ghost predicate Pruned(w: World, v: World, t: Thread, own: Option<Policy>) {
    && t in v.threads
    && t.id in v.ttls && v.ttls[t.id] == TtlState(own, Some(t.updatedAt))
    && ViewOf(v.data, t.id) == PruneView(ViewOf(w.data, t.id))
  }

  /** The sweep does to the thread what policy `p` says. */
  ghost predicate SweptUnder(w: World, v: World, t: Thread, p: Policy, own: Option<Policy>, marker: Option<Time>, now: Time) {
    if !Inactive(w, t.id) || !Overdue(t, p, marker, now) then Untouched(w, v, t)
    else if p.strategy == Delete then Gone(v, t.id)
    else Pruned(w, v, t, own)
  }

  /** A thread with a policy of its own is swept under that policy, whatever the global one is. */
  lemma OwnPolicyDecides(w: World, global: Option<Policy>, batchSize: nat, now: Time, t: Thread, p: Policy)
    requires batchSize > 0 && UniqueThreads(w.threads) && t in w.threads
    requires t.id in w.ttls && w.ttls[t.id].policy == Some(p)
    ensures SweptUnder(w, Sweep(w, global, None, batchSize, now).world, t, p, Some(p), w.ttls[t.id].lastSwept, now)
  {
    hide Sweep, SweptUnder;
    SweptAsTaken(w, global, batchSize, now, t);
    TakenIff(w, global, now, t, p, w.ttls[t.id].lastSwept);
    DecidedIs(w, Sweep(w, global, None, batchSize, now).world, global, now, t, p, Some(p), w.ttls[t.id].lastSwept);
  }

  /** A thread without one is swept under the global policy; its record holds a marker at most. */
  lemma GlobalPolicyDecides(w: World, batchSize: nat, now: Time, t: Thread, p: Policy, marker: Option<Time>)
    requires batchSize > 0 && UniqueThreads(w.threads) && t in w.threads
    requires if t.id in w.ttls then w.ttls[t.id] == TtlState(None, marker) else marker == None
    ensures SweptUnder(w, Sweep(w, Some(p), None, batchSize, now).world, t, p, None, marker, now)
  {
    hide Sweep, SweptUnder;
    SweptAsTaken(w, Some(p), batchSize, now, t);
    TakenIff(w, Some(p), now, t, p, marker);
    DecidedIs(w, Sweep(w, Some(p), None, batchSize, now).world, Some(p), now, t, p, None, marker);
  }

  /** With neither, a thread is never touched. */
  lemma NoPolicyNeverSwept(w: World, batchSize: nat, now: Time, t: Thread)
    requires batchSize > 0 && UniqueThreads(w.threads) && t in w.threads
    requires t.id in w.ttls ==> w.ttls[t.id].policy == None
    ensures Untouched(w, Sweep(w, None, None, batchSize, now).world, t)
  {
    hide Sweep, Untouched;
    SweptAsTaken(w, None, batchSize, now, t);
    var c := Candidate(w, None, now, ActiveThreads(w.runs), t);
    assert c.None?;
    OnlyCandidate(w, None, now, t);
  }

  // ---- From the work list to the rows ----------------------------------------------------------------------

  lemma InactiveIs(w: World, id: ThreadId)
    ensures Inactive(w, id) <==> id !in ActiveThreads(w.runs)
  {
    if id in ActiveThreads(w.runs) {
      var r :| r in w.runs && r.Active() && r.thread == id;
      assert r.status == Pending || r.status == Running;
    }
  }

  /** The sweep's entry for a thread, from the policy that counts. */
  lemma TakenIff(w: World, global: Option<Policy>, now: Time, t: Thread, p: Policy, marker: Option<Time>)
    requires var own := if t.id in w.ttls then w.ttls[t.id] else TtlState(None, None);
      own.lastSwept == marker && if own.policy.Some? then own.policy == Some(p) else global == Some(p)
    ensures Candidate(w, global, now, ActiveThreads(w.runs), t)
      == if Inactive(w, t.id) && Overdue(t, p, marker, now)
         then Some(Expired(t.updatedAt + p.ttl, t.id, p, if t.id in w.ttls then w.ttls[t.id] else TtlState(None, None), t.updatedAt))
         else None
  {
    InactiveIs(w, t.id);
  }

  /** The thread's own entry is the only one of its id on the list. */
  lemma OnlyCandidate(w: World, global: Option<Policy>, now: Time, t: Thread)
    requires UniqueThreads(w.threads) && t in w.threads
    ensures var c := Candidate(w, global, now, ActiveThreads(w.runs), t);
      forall x :: x in DueList(w, global, now) && x.id == t.id <==> c == Some(x)
  {
    hide DueList;
    DueListMembers(w, global, now);
    forall x | x in DueList(w, global, now) && x.id == t.id ensures Candidate(w, global, now, ActiveThreads(w.runs), t) == Some(x) {
      var u :| u in w.threads && Candidate(w, global, now, ActiveThreads(w.runs), u) == Some(x);
      UniqueThread(w.threads, t, u);
    }
  }

  /** What an unlimited sweep does to a thread, by its entry on the list. */
  ghost predicate AsTaken(w: World, v: World, t: Thread, entry: Option<Expired>) {
    match entry
    case None => Untouched(w, v, t)
    case Some(x) => if x.policy.strategy == Delete then Gone(v, t.id) else Pruned(w, v, t, x.state.policy)
  }

  lemma SweptAsTaken(w: World, global: Option<Policy>, batchSize: nat, now: Time, t: Thread)
    requires batchSize > 0 && UniqueThreads(w.threads) && t in w.threads
    ensures AsTaken(w, Sweep(w, global, None, batchSize, now).world, t, Candidate(w, global, now, ActiveThreads(w.runs), t))
  {
    hide Sweep, DueList, Swept, AsTaken, Candidate;
    var due := DueList(w, global, now);
    var c := Candidate(w, global, now, ActiveThreads(w.runs), t);
    TakeDue(w, global, None, now);
    SweepResult(w, global, None, batchSize, now);
    assert Take(due, None) == due;
    OnlyCandidate(w, global, now, t);
    CandidateRow(w, global, now, t);
    SweptRows(w, Sweep(w, global, None, batchSize, now).world, due, t, c);
  }

  lemma CandidateRow(w: World, global: Option<Policy>, now: Time, t: Thread)
    ensures var c := Candidate(w, global, now, ActiveThreads(w.runs), t);
      c.Some? ==> c.value.id == t.id && c.value.updatedAt == t.updatedAt && c.value.state == StateOf(w.ttls, t.id)
  {
  }

  lemma SweptRows(w: World, v: World, due: seq<Expired>, t: Thread, c: Option<Expired>)
    requires Swept(w, v, due) && DistinctIds(due) && t in w.threads
    requires c.Some? ==> c.value.id == t.id && c.value.updatedAt == t.updatedAt
    requires forall x :: x in due && x.id == t.id <==> c == Some(x)
    ensures AsTaken(w, v, t, c)
  {
    hide ViewOf;
    MarkedStateOf(w.ttls, t.id, due);
    match c {
      case None =>
        assert t.id !in DeletedIds(due) && t.id !in PrunedIds(due);
        assert StateOf(v.ttls, t.id) == StateOf(w.ttls, t.id);
      case Some(x) =>
        assert x in due;
        if x.policy.strategy == Delete {
          assert t.id in DeletedIds(due);
          forall r | r in v.runs ensures r.thread != t.id {}
        } else {
          assert t.id in PrunedIds(due) && t.id !in DeletedIds(due);
          assert v.ttls[t.id] == x.state.(lastSwept := Some(t.updatedAt));
        }
    }
  }

  lemma DecidedIs(w: World, v: World, global: Option<Policy>, now: Time, t: Thread, p: Policy, own: Option<Policy>, marker: Option<Time>)
    requires AsTaken(w, v, t, Candidate(w, global, now, ActiveThreads(w.runs), t))
    requires var state := if t.id in w.ttls then w.ttls[t.id] else TtlState(None, None);
      && state.policy == own
      && Candidate(w, global, now, ActiveThreads(w.runs), t)
           == if Inactive(w, t.id) && Overdue(t, p, marker, now) then Some(Expired(t.updatedAt + p.ttl, t.id, p, state, t.updatedAt)) else None
    ensures SweptUnder(w, v, t, p, own, marker, now)
  {
    hide Candidate, Inactive, Overdue, Untouched, Gone, Pruned;
  }

  // ---- Order and limit -----------------------------------------------------------------------------------------

  /** The work list is in order of expiry, the last update plus the TTL, and then of id; each entry is
      a thread's, with the policy that counts for it. */
  lemma DueInOrder(w: World, global: Option<Policy>, now: Time)
    requires UniqueThreads(w.threads)
    ensures var due := DueList(w, global, now);
      && (forall i, j :: 0 <= i < j < |due| ==>
            var a, b := due[i].updatedAt + due[i].policy.ttl, due[j].updatedAt + due[j].policy.ttl;
            a < b || (a == b && Lex.Less(due[i].id, due[j].id)))
      && (forall x :: x in due ==> exists t :: t in w.threads && t.id == x.id && t.updatedAt == x.updatedAt)
  {
    hide DueList;
    DueListMembers(w, global, now);
    var due := DueList(w, global, now);
    forall x | x in due
      ensures x.expiresAt == x.updatedAt + x.policy.ttl && exists t :: t in w.threads && t.id == x.id && t.updatedAt == x.updatedAt
    {
      var t :| t in w.threads && Candidate(w, global, now, ActiveThreads(w.runs), t) == Some(x);
    }
    forall i, j | 0 <= i < j < |due|
      ensures var a, b := due[i].updatedAt + due[i].policy.ttl, due[j].updatedAt + due[j].policy.ttl;
        a < b || (a == b && Lex.Less(due[i].id, due[j].id))
    {
      assert due[i] in due && due[j] in due;
      assert Before(due[i], due[j]);
    }
  }

  /** How many threads a sweep takes, the first of them: the call's own limit if it gives one, else the
      configured one, else all; a limit below zero counts as zero. */
  lemma LimitTakes(due: seq<Expired>, limit: Option<int>, configured: Option<int>)
    ensures var taken := Take(due, EffectiveLimit(limit, configured));
      && taken <= due
      && (limit.None? && configured.None? ==> taken == due)
      && (limit.Some? ==> |taken| == if limit.value <= 0 then 0 else if limit.value < |due| then limit.value else |due|)
      && (limit.None? && configured.Some? ==>
            |taken| == if configured.value <= 0 then 0 else if configured.value < |due| then configured.value else |due|)
  {
  }
}
