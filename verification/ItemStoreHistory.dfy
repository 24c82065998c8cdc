/** The item store refines a plain reading of its history: an item expires a full TTL after its last
    write or refreshing read (store.py). */
module ItemStoreHistory {
  import opened Wrappers
  import opened ItemStore

  datatype Event = Call(batch: Batch) | Sweep(at: Time)

  function Apply(c: Contents, e: Event): Contents {
    match e
    case Call(b) => Batched(c, b)
    case Sweep(at) => Swept(c, at)
  }

  function After(events: seq<Event>): Contents {
    if |events| == 0 then NO_ITEMS else Apply(After(events[..|events| - 1]), events[|events| - 1])
  }

  function Begin(e: Event): Time { if e.Call? then e.batch.getsAt else e.at }

  function End(e: Event): Time { if e.Call? then e.batch.putsAt else e.at }

  /** The clock never runs back, within a call and from one event to the next. */
  ghost predicate Clocked(events: seq<Event>) {
    && (forall i :: 0 <= i < |events| && events[i].Call? ==>
          events[i].batch.getsAt <= events[i].batch.hitsAt <= events[i].batch.putsAt)
    && (forall i, j :: 0 <= i < j < |events| ==> End(events[i]) <= Begin(events[j]))
  }

  // ---- The plain reading ----------------------------------------------------------------------------

  /** The TTL given by the item's last write. */
  function GivenTtl(events: seq<Event>, k: ItemKey): Option<int> {
    if |events| == 0 then None
    else
      var init, e := events[..|events| - 1], events[|events| - 1];
      if e.Call? && k in e.batch.puts then
        if e.batch.puts[k].value.Some? then e.batch.puts[k].ttl else None
      else GivenTtl(init, k)
  }

  /** When the item was last written, and every refreshing read since. */
  function Touches(events: seq<Event>, k: ItemKey): seq<Time> {
    if |events| == 0 then []
    else
      var init, e := events[..|events| - 1], events[|events| - 1];
      if e.Call? && k in e.batch.puts then [e.batch.putsAt]
      else if e.Call? then
        Touches(init, k) + (if k in e.batch.gets then [e.batch.getsAt] else []) + (if k in e.batch.hits then [e.batch.hitsAt] else [])
      else Touches(init, k)
  }

  /** A full TTL has passed since every touch. */
  ghost predicate Lapsed(events: seq<Event>, k: ItemKey, now: Time) {
    GivenTtl(events, k).Some? && forall t :: t in Touches(events, k) ==> t + GivenTtl(events, k).value <= now
  }

  /** The item was written, not deleted since, and no sweep found it lapsed. */
  ghost predicate Present(events: seq<Event>, k: ItemKey) {
    |events| > 0 &&
    var init, e := events[..|events| - 1], events[|events| - 1];
    match e
    case Call(b) => if k in b.puts then b.puts[k].value.Some? else Present(init, k)
    case Sweep(at) => Present(init, k) && !Lapsed(init, k, at)
  }

  /** The value of the item's last write. */
  function LastValue(events: seq<Event>, k: ItemKey): Option<Item> {
    if |events| == 0 then None
    else
      var init, e := events[..|events| - 1], events[|events| - 1];
      if e.Call? && k in e.batch.puts then e.batch.puts[k].value else LastValue(init, k)
  }

  // ---- Refinement --------------------------------------------------------------------------------------

  /** The latest of the touches. */
  ghost predicate IsLastTouch(touches: seq<Time>, t: Time) {
    t in touches && forall u :: u in touches ==> u <= t
  }

  ghost predicate Refines(c: Contents, events: seq<Event>, k: ItemKey) {
    && (k in c.data <==> Present(events, k))
    && (k in c.data ==> LastValue(events, k) == Some(c.data[k]))
    && (k in c.ttl <==> Present(events, k) && GivenTtl(events, k).Some?)
    && (k in c.ttl ==> c.ttl[k].ttl == GivenTtl(events, k).value
                       && IsLastTouch(Touches(events, k), c.ttl[k].expiresAt - c.ttl[k].ttl))
  }

  lemma {:induction false} TouchesInPast(events: seq<Event>, k: ItemKey)
    requires Clocked(events)
    ensures |events| == 0 ==> Touches(events, k) == []
    ensures |events| > 0 ==> forall t :: t in Touches(events, k) ==> t <= End(events[|events| - 1])
  {
    if |events| > 0 {
      TouchesInPast(events[..|events| - 1], k);
    }
  }

  /** A refreshing read is the latest touch. */
  lemma AppendTouch(touches: seq<Time>, t: Time)
    requires forall u :: u in touches ==> u <= t
    ensures IsLastTouch(touches + [t], t)
  {
    assert (touches + [t])[|touches|] == t;
  }

  lemma RefinesAfterCall(c: Contents, events: seq<Event>, b: Batch, k: ItemKey)
    requires Clocked(events + [Call(b)]) && Refines(c, events, k)
    ensures Refines(Batched(c, b), events + [Call(b)], k)
  {
    var all := events + [Call(b)];
    assert all[..|all| - 1] == events;
    assert Clocked(events) by {
      forall i, j | 0 <= i < j < |events| ensures End(events[i]) <= Begin(events[j]) {
        assert all[i] == events[i] && all[j] == events[j];
      }
      forall i | 0 <= i < |events| && events[i].Call? ensures events[i].batch.getsAt <= events[i].batch.hitsAt <= events[i].batch.putsAt {
        assert all[i] == events[i];
      }
    }
    TouchesInPast(events, k);
    if |events| > 0 { assert End(all[|events| - 1]) <= Begin(all[|events|]); }
    assert all[|events|].batch == b;
    var touches := Touches(events, k);
    if k in b.puts {
      assert Touches(all, k) == [b.putsAt];
    } else {
      var early := touches + if k in b.gets then [b.getsAt] else [];
      if k in b.gets { AppendTouch(touches, b.getsAt); }
      if k in b.hits { AppendTouch(early, b.hitsAt); }
      assert Touches(all, k) == early + if k in b.hits then [b.hitsAt] else [];
      assert early + [] == early && touches + [] == touches;
    }
  }

  lemma RefinesAfterSweep(c: Contents, events: seq<Event>, at: Time, k: ItemKey)
    requires Refines(c, events, k)
    ensures Refines(Swept(c, at), events + [Sweep(at)], k)
    ensures k in ExpiredKeys(c.ttl, at) <==> Present(events, k) && Lapsed(events, k, at)
  {
    var all := events + [Sweep(at)];
    assert all[..|all| - 1] == events;
  }

  /** Whatever the history, the store holds exactly the items the plain reading says are there, with
      their last values, and each expiring item's record is its last touch plus its TTL. */
  lemma {:induction false} StoreRefinesHistory(events: seq<Event>, k: ItemKey)
    requires Clocked(events)
    ensures Refines(After(events), events, k)
  {
    if |events| > 0 {
      var n := |events| - 1;
      StoreRefinesHistory(events[..n], k);
      assert events == events[..n] + [events[n]];
      match events[n]
      case Call(b) => RefinesAfterCall(After(events[..n]), events[..n], b, k);
      case Sweep(at) => RefinesAfterSweep(After(events[..n]), events[..n], at, k);
    }
  }

  /** A sweep removes exactly the stored items whose every touch lies a full TTL back; an item last
      written without a TTL is never among them. */
  lemma SweepRemovesLapsed(events: seq<Event>, now: Time, k: ItemKey)
    requires Clocked(events)
    ensures k in After(events).data && k !in Swept(After(events), now).data <==> Present(events, k) && Lapsed(events, k, now)
    ensures GivenTtl(events, k).None? ==> (k in After(events).data <==> k in Swept(After(events), now).data)
  {
    StoreRefinesHistory(events, k);
    RefinesAfterSweep(After(events), events, now, k);
  }

  /** In one batch a write overrides the refresh of a read: the item expires a TTL after the write,
      with the write's TTL, or not at all. */
  lemma WriteOverridesRefresh(c: Contents, b: Batch, k: ItemKey)
    requires k in b.puts
    ensures k in Batched(c, b).ttl <==> b.puts[k].value.Some? && b.puts[k].ttl.Some?
    ensures k in Batched(c, b).ttl ==> Batched(c, b).ttl[k] == TtlRecord(b.putsAt + b.puts[k].ttl.value, b.puts[k].ttl.value)
  {
  }

  /** In every reachable store only stored items have TTL records or vectors. */
  lemma {:induction false} IndicesFollowData(events: seq<Event>)
    ensures After(events).ttl.Keys <= After(events).data.Keys
    ensures After(events).vectors.Keys <= After(events).data.Keys
  {
    if |events| > 0 { IndicesFollowData(events[..|events| - 1]); }
  }

  /** The vectors the history says an item has: those of its last write that brought some, since it
      was last deleted or swept. */
  ghost function LastEmbedding(events: seq<Event>, k: ItemKey): Option<Vectors> {
    if |events| == 0 then None
    else
      var n := |events| - 1;
      var before := LastEmbedding(events[..n], k);
      match events[n]
      case Call(b) =>
        if k !in b.puts then before
        else if b.puts[k].value.None? then None
        else if k in b.embeddings then Some(b.embeddings[k])
        else before
      case Sweep(at) => if Present(events[..n], k) && Lapsed(events[..n], k, at) then None else before
  }

  /** Whatever the history, an item's vectors are those. */
  lemma {:induction false} VectorsAreLastEmbedded(events: seq<Event>, k: ItemKey)
    requires Clocked(events)
    ensures VectorsOf(After(events).vectors, k) == LastEmbedding(events, k)
  {
    if |events| > 0 {
      var n := |events| - 1;
      assert Clocked(events[..n]);
      VectorsAreLastEmbedded(events[..n], k);
      if events[n].Sweep? {
        StoreRefinesHistory(events[..n], k);
        RefinesAfterSweep(After(events[..n]), events[..n], events[n].at, k);
        hide Refines, Present, Lapsed;
      }
    }
  }
}
