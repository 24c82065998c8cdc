/** The deploy event ring buffer and the stream that reads it with a resumable cursor (routes.py);
    resumption follows section 9.2 "Server-sent events" of the WHATWG HTML Living Standard. */
module DeployEvents {
  import opened Wrappers
  import opened Decimals

  const CAPACITY: nat := 2000

  datatype Event = Event(name: string, payload: string)

  datatype Status = Running | Succeeded | Failed

  /** An event sent to a client with its id. */
  datatype Delivery = Delivery(event: Event, id: nat)

  function Max(a: int, b: int): int { if a < b then b else a }

  /** How many events have rotated out of the buffer after `total` appends. */
  function Rotated(total: nat): nat { if total <= CAPACITY then 0 else total - CAPACITY }

  /** The buffer after the events of `log` were appended to it. */
  function Buffered(log: seq<Event>): seq<Event> { log[Rotated(|log|)..] }

  /** Events number `from + 1` to `to` of the log, numbered. */
  function Numbered(log: seq<Event>, from: nat, to: nat): (r: seq<Delivery>)
    requires from <= to <= |log|
    ensures |r| == to - from
  {
    seq(to - from, i requires 0 <= i < to - from => Delivery(log[from + i], from + i + 1))
  }

  /** Where a poll with this cursor starts reading: at the cursor, or at the earliest event still
      buffered, or nowhere when the cursor is past the end. */
  function ReadFrom(cursor: int, total: nat): nat {
    if cursor >= total then total else Max(cursor, Rotated(total))
  }

  /** What a poll delivers. */
  function Polled(log: seq<Event>, cursor: int): seq<Delivery> {
    Numbered(log, ReadFrom(cursor, |log|), |log|)
  }

  /** `DeployOperation`: a deque of bounded length and the number of appends so far. */
  class DeployOperation {
    var events: seq<Event>
    var totalAppended: nat
    var status: Status
    /** Every event ever appended. */
    ghost var log: seq<Event>

    ghost predicate Valid()
      reads this
    {
      totalAppended == |log| && events == Buffered(log)
    }

    constructor ()
      ensures Valid() && log == [] && status == Running
    {
      events, totalAppended, status, log := [], 0, Running, [];
    }

    /** `events.append` on the bounded deque, and the counter. */
    method Append(e: Event)
      requires Valid()
      modifies this
      ensures Valid() && log == old(log) + [e] && status == old(status)
    {
      events := events + [e];
      if |events| > CAPACITY { events := events[1..]; }
      totalAppended := totalAppended + 1;
      log := log + [e];
    }

    /** The end of `_read_subprocess`: on failure the stderr tail is appended, and only then is the
        terminal status set; a torn-down reader leaves the status alone. */
    method FinishReading(final: Option<Status>, stderrTail: seq<Event>)
      requires Valid()
      requires final.Some? ==> final.value != Running
      modifies this
      ensures Valid()
      ensures log == old(log) + if final == Some(Failed) then stderrTail else []
      ensures status == if final.Some? then final.value else old(status)
    {
      if final == Some(Failed) {
        for i := 0 to |stderrTail|
          invariant Valid() && status == old(status)
          invariant log == old(log) + stderrTail[..i]
        {
          Append(stderrTail[i]);
        }
      }
      if final.Some? { status := final.value; }
    }

    /** One pass of the stream generator over a snapshot of the buffer, by index arithmetic. */
    method Poll(cursor: int) returns (deliveries: seq<Delivery>)
      requires Valid()
      ensures deliveries == Polled(log, cursor)
    {
      var snapshot := events;
      var total := totalAppended;
      var start := total - |snapshot|;
      var skip := Max(0, cursor - start);
      var rest := if skip <= |snapshot| then snapshot[skip..] else [];
      deliveries := [];
      for offset := 0 to |rest|
        invariant |deliveries| == offset
        invariant forall i :: 0 <= i < offset ==> deliveries[i] == Delivery(rest[i], start + skip + i + 1)
      {
        deliveries := deliveries + [Delivery(rest[offset], start + skip + offset + 1)];
      }
    }
  }

  // ---- The cursor on the wire ---------------------------------------------------------------------------

  /** `int(raw)`: plain digits are read as the number they write; how other forms are read, or that
      they are refused, is left to `other`. */
  function ParseInt(raw: string, other: string -> Option<int>): Option<int> {
    if |raw| > 0 && AllDigits(raw) then Some(NumberOf(raw)) else other(raw)
  }

  /** `Last-Event-ID`, or else the query parameter; nothing, no number, or one below zero means
      "from the start". */
  function InitialCursor(header: Option<string>, query: Option<string>, other: string -> Option<int>): nat {
    var raw := if header.Some? && header.value != "" then header else query;
    if raw.None? || raw.value == "" then 0
    else
      var number := ParseInt(raw.value, other);
      if number.Some? && number.value > 0 then number.value else 0
  }

  /** The header goes first, the query parameter second; blank, unreadable and negative cursors are
      the start. */
  lemma CursorSources(n: nat, header: Option<string>, query: Option<string>, other: string -> Option<int>)
    ensures InitialCursor(Some(Decimal(n)), query, other) == n
    ensures header.None? || header.value == "" ==> InitialCursor(header, Some(Decimal(n)), other) == n
    ensures (header.None? || header.value == "") && (query.None? || query.value == "") ==> InitialCursor(header, query, other) == 0
    ensures header.Some? && header.value != "" && !AllDigits(header.value) ==>
      var read := other(header.value);
      InitialCursor(header, query, other) == if read.Some? && read.value >= 0 then read.value else 0
  {
    DecimalReadsBack(n);
  }

  /** A poll misses nothing after the cursor if and only if the buffer still reaches back to it. */
  lemma PollCompleteIff(log: seq<Event>, cursor: nat)
    requires cursor <= |log|
    ensures Polled(log, cursor) == Numbered(log, cursor, |log|) <==> |log| - cursor <= 2000
  {
    if |log| - cursor > CAPACITY {
      assert |Polled(log, cursor)| == CAPACITY;
    }
  }

  // ---- The stream among appends -----------------------------------------------------------------------

  /** Where the generator is: before its first read, before its status check, after its last read,
      or finished. */
  datatype Phase = Reading | Checking | Closing | Closed

  /** The operation, and one client's generator; `terminal` is the id of the closing marker, and
      `marker` its name. */
  datatype Stream = Stream(log: seq<Event>, status: Status, phase: Phase, cursor: nat, sent: seq<Delivery>, terminal: nat, marker: string)

  datatype Step =
    | Append(event: Event)
    | Finish(status: Status)
    | Read     // deliver a snapshot and move the cursor
    | Check    // go on polling, or deliver what has come since
    | Close    // send the closing marker

  ghost function Advance(s: Stream, step: Step): Stream {
    match step
    case Append(e) => s.(log := s.log + [e])
    case Finish(status) => s.(status := status)
    case Read =>
      if s.phase != Reading then s
      else s.(sent := s.sent + Polled(s.log, s.cursor), cursor := |s.log|, phase := Checking)
    case Check =>
      if s.phase != Checking then s
      else if s.status == Running then s.(phase := Reading)
      else s.(sent := s.sent + Polled(s.log, s.cursor), cursor := |s.log|, phase := Closing)
    case Close =>
      if s.phase != Closing then s else s.(terminal := |s.log| + 1, marker := if s.status == Succeeded then "done" else "error", phase := Closed)
  }

  ghost function Run(s: Stream, steps: seq<Step>): Stream {
    if |steps| == 0 then s else Advance(Run(s, steps[..|steps| - 1]), steps[|steps| - 1])
  }

  /** A client connects with this cursor. */
  ghost predicate Connects(s: Stream, cursor: nat) {
    s.phase == Reading && s.cursor == cursor && s.sent == []
  }

  /** Each delivery is the event its id counts to, and ids strictly increase. */
  ghost predicate Exact(sent: seq<Delivery>, log: seq<Event>) {
    && (forall i :: 0 <= i < |sent| ==> 1 <= sent[i].id <= |log| && sent[i].event == log[sent[i].id - 1])
    && (forall i, j :: 0 <= i < j < |sent| ==> sent[i].id < sent[j].id)
  }

  ghost predicate SentUpToCursor(s: Stream) {
    Exact(s.sent, s.log) && (s.sent != [] ==> s.cursor <= |s.log| && s.sent[|s.sent| - 1].id <= s.cursor)
  }

  lemma PolledExact(s: Stream)
    requires SentUpToCursor(s)
    ensures Exact(s.sent + Polled(s.log, s.cursor), s.log)
    ensures var sent := s.sent + Polled(s.log, s.cursor); sent != [] ==> sent[|sent| - 1].id <= |s.log|
  {
    var more := Polled(s.log, s.cursor);
    var sent := s.sent + more;
    forall i, j | 0 <= i < j < |sent| ensures sent[i].id < sent[j].id {
      if i < |s.sent| <= j {
        assert sent[i].id <= s.sent[|s.sent| - 1].id;
        assert sent[j] == more[j - |s.sent|];
      }
    }
  }

  lemma AdvanceExact(s: Stream, step: Step)
    requires SentUpToCursor(s)
    ensures SentUpToCursor(Advance(s, step))
  {
    hide Polled;
    PolledExact(s);
  }

  /** However appends and polls interleave, from whatever cursor, every delivered event is the one
      its id counts to, and no id is sent twice or out of order. */
  lemma {:induction false} DeliveriesAreExact(s: Stream, steps: seq<Step>, cursor: nat)
    requires Connects(s, cursor)
    ensures SentUpToCursor(Run(s, steps))
  {
    hide Advance;
    if |steps| > 0 {
      var n := |steps| - 1;
      DeliveriesAreExact(s, steps[..n], cursor);
      AdvanceExact(Run(s, steps[..n]), steps[n]);
    }
  }

  /** The step polls the buffer: a read, or a check that finds the status terminal. */
  predicate Polls(s: Stream, step: Step) {
    (step.Read? && s.phase == Reading) || (step.Check? && s.phase == Checking && s.status != Running)
  }

  /** At every poll the buffer still reaches back to the cursor. */
  ghost predicate KeepsUp(s: Stream, steps: seq<Step>) {
    forall i :: 0 <= i < |steps| && Polls(Run(s, steps[..i]), steps[i]) ==>
      |Run(s, steps[..i]).log| - Run(s, steps[..i]).cursor <= CAPACITY
  }

  /** Nothing is appended, and the status stays, once it is terminal. */
  ghost predicate EndsWithStatus(s: Stream, steps: seq<Step>) {
    forall i :: 0 <= i < |steps| && Run(s, steps[..i]).status != Running ==> !steps[i].Append? && !steps[i].Finish?
  }

  lemma NumberedConcat(log: seq<Event>, a: nat, b: nat, c: nat)
    requires a <= b <= c <= |log|
    ensures Numbered(log, a, b) + Numbered(log, b, c) == Numbered(log, a, c)
  {
  }

  lemma NumberedPrefix(log: seq<Event>, e: Event, a: nat, b: nat)
    requires a <= b <= |log|
    ensures Numbered(log + [e], a, b) == Numbered(log, a, b)
  {
  }

  /** Sent so far: everything from the client's cursor to the generator's. */
  ghost predicate Contiguous(s: Stream, from: nat) {
    && from <= s.cursor <= |s.log|
    && s.sent == Numbered(s.log, from, s.cursor)
    && (s.phase == Closing || s.phase == Closed ==> s.status != Running && s.cursor == |s.log|)
    && (s.phase == Closed ==> s.terminal == |s.log| + 1)
  }

  lemma {:induction false} StaysContiguous(s: Stream, steps: seq<Step>, cursor: nat)
    requires Connects(s, cursor) && cursor <= |s.log|
    requires KeepsUp(s, steps) && EndsWithStatus(s, steps)
    ensures Contiguous(Run(s, steps), cursor)
  {
    if |steps| > 0 {
      var n := |steps| - 1;
      forall i | 0 <= i < n ensures steps[..n][..i] == steps[..i] {}
      assert forall i :: 0 <= i < n ==> steps[..n][i] == steps[i];
      StaysContiguous(s, steps[..n], cursor);
      hide Advance, Contiguous;
      AdvanceContiguous(Run(s, steps[..n]), steps[n], cursor);
    }
  }

  lemma AdvanceContiguous(s: Stream, step: Step, from: nat)
    requires Contiguous(s, from)
    requires Polls(s, step) ==> |s.log| - s.cursor <= CAPACITY
    requires s.status != Running ==> !step.Append? && !step.Finish?
    ensures Contiguous(Advance(s, step), from)
  {
    hide Polled, Numbered;
    if step.Append? { NumberedPrefix(s.log, step.event, from, s.cursor); }
    if Polls(s, step) {
      PollCompleteIff(s.log, s.cursor);
      NumberedConcat(s.log, from, s.cursor, |s.log|);
    }
  }

  /** A stream that keeps up sends exactly what follows the client's cursor, in order and without a
      gap, and closes with the id after the last event. */
  lemma StreamIsComplete(s: Stream, steps: seq<Step>, cursor: nat)
    requires Connects(s, cursor) && cursor <= |s.log|
    requires KeepsUp(s, steps) && EndsWithStatus(s, steps)
    ensures var r := Run(s, steps);
      r.phase == Closed ==> cursor <= |r.log| && r.sent == Numbered(r.log, cursor, |r.log|) && r.terminal == |r.log| + 1
  {
    StaysContiguous(s, steps, cursor);
  }

  function Appended(steps: seq<Step>): seq<Event> {
    if |steps| == 0 then []
    else
      var last := steps[|steps| - 1];
      Appended(steps[..|steps| - 1]) + if last.Append? then [last.event] else []
  }

  /** The log a stream reads from is everything appended to it, in order. */
  lemma {:induction false} LogIsAppended(s: Stream, steps: seq<Step>)
    ensures Run(s, steps).log == s.log + Appended(steps)
  {
    if |steps| == 0 {
      assert s.log + [] == s.log;
    } else {
      LogIsAppended(s, steps[..|steps| - 1]);
    }
  }

  /** Its status is the one last set. */
  lemma {:induction false} StatusIsLastSet(s: Stream, steps: seq<Step>, k: nat)
    requires k < |steps| && steps[k].Finish? && forall j :: k < j < |steps| ==> !steps[j].Finish?
    ensures Run(s, steps).status == steps[k].status
  {
    var n := |steps| - 1;
    if k < n {
      assert forall j :: k < j < n ==> steps[..n][j] == steps[j];
      StatusIsLastSet(s, steps[..n], k);
    }
  }

  /** The generator's own steps: which one is next, and what it does.  While the operation runs it
      alternates between reading and checking; once the status is terminal, whichever, it reads what
      is left, sends the closing marker and ends. */
  lemma GeneratorSteps(s: Stream)
    ensures s.phase == Reading ==> Advance(s, Read).phase == Checking && Advance(s, Read).cursor == |s.log|
    ensures s.phase == Checking && s.status == Running ==> Advance(s, Check) == s.(phase := Reading)
    ensures s.phase == Checking && (s.status == Succeeded || s.status == Failed) ==>
      Advance(s, Check).phase == Closing && Advance(s, Check).cursor == |s.log|
    ensures s.phase == Closing && s.status == Succeeded ==> Advance(s, Close) == s.(phase := Closed, terminal := |s.log| + 1, marker := "done")
    ensures s.phase == Closing && s.status == Failed ==> Advance(s, Close) == s.(phase := Closed, terminal := |s.log| + 1, marker := "error")
  {
  }

  /** What a generator has left to do once the status is terminal. */
  function RestOf(phase: Phase): seq<Step> {
    match phase
    case Reading => [Read, Check, Close]
    case Checking => [Check, Close]
    case Closing => [Close]
    case Closed => []
  }

  /** Every stream closes: once the operation has succeeded or failed, the generator's next steps,
      three at most, send the closing marker, whose id is that after the last event. */
  lemma TerminalStreamCloses(s: Stream)
    requires s.status == Succeeded || s.status == Failed
    requires s.phase != Closed
    ensures var r := Run(s, RestOf(s.phase));
      && r.phase == Closed && r.log == s.log && r.status == s.status
      && r.terminal == |s.log| + 1 && r.marker == if s.status == Succeeded then "done" else "error"
  {
    RunOnce(s, Read);
    RunOnce(s, Check);
    RunOnce(s, Close);
    RunTwice(s, Check, Close);
    RunThrice(s, Read, Check, Close);
  }

  lemma RunOnce(s: Stream, a: Step)
    ensures Run(s, [a]) == Advance(s, a)
  {
    hide Advance;
    assert [a][..0] == [];
  }

  lemma RunTwice(s: Stream, a: Step, b: Step)
    ensures Run(s, [a, b]) == Advance(Advance(s, a), b)
  {
    hide Advance;
    assert [a, b][..1] == [a];
    RunOnce(s, a);
  }

  lemma RunThrice(s: Stream, a: Step, b: Step, c: Step)
    ensures Run(s, [a, b, c]) == Advance(Advance(Advance(s, a), b), c)
  {
    hide Advance;
    assert [a, b, c][..2] == [a, b];
    RunTwice(s, a, b);
  }

  /** A stream that keeps up has, after each read, sent everything that follows the client's cursor. */
  lemma ReadSendsAll(s: Stream, steps: seq<Step>, cursor: nat)
    requires Connects(s, cursor) && cursor <= |s.log|
    requires KeepsUp(s, steps + [Read]) && EndsWithStatus(s, steps + [Read])
    requires Run(s, steps).phase == Reading
    ensures var r := Run(s, steps + [Read]); cursor <= |r.log| && r.sent == Numbered(r.log, cursor, |r.log|) && r.phase == Checking
  {
    StaysContiguous(s, steps + [Read], cursor);
    assert (steps + [Read])[..|steps|] == steps;
  }

  /** A client that keeps up, and an operation that has ended: what is left to do delivers the whole
      remainder and the marker. */
  lemma TerminalStreamDeliversAll(s: Stream, steps: seq<Step>, cursor: nat)
    requires Connects(s, cursor) && cursor <= |s.log|
    requires var all := steps + RestOf(Run(s, steps).phase); KeepsUp(s, all) && EndsWithStatus(s, all)
    requires Run(s, steps).status == Succeeded || Run(s, steps).status == Failed
    ensures var r := Run(s, steps + RestOf(Run(s, steps).phase));
      r.phase == Closed && cursor <= |r.log| && r.sent == Numbered(r.log, cursor, |r.log|) && r.terminal == |r.log| + 1
  {
    var rest := RestOf(Run(s, steps).phase);
    RunConcat(s, steps, rest);
    StaysContiguous(s, steps + rest, cursor);
    ClosedIsMarked(s, steps);
    hide Advance, Run, KeepsUp, EndsWithStatus, Numbered;
    if Run(s, steps).phase != Closed { ClosesFrom(Run(s, steps)); }
  }

  lemma ClosesFrom(s: Stream)
    requires (s.status == Succeeded || s.status == Failed) && s.phase != Closed
    ensures Run(s, RestOf(s.phase)).phase == Closed
  {
    TerminalStreamCloses(s);
  }

  lemma ClosedIsMarked(s: Stream, steps: seq<Step>)
    ensures RestOf(Run(s, steps).phase) == [] ==> Run(s, steps).phase == Closed
  {
  }

  lemma {:induction false} RunConcat(s: Stream, a: seq<Step>, b: seq<Step>)
    ensures Run(s, a + b) == Run(Run(s, a), b)
  {
    hide Advance;
    if |b| == 0 {
      assert a + b == a;
    } else {
      var n := |b| - 1;
      assert (a + b)[..|a + b| - 1] == a + b[..n] && (a + b)[|a + b| - 1] == b[n];
      RunConcat(s, a, b[..n]);
    }
  }

  /** Resuming: a client that drops its connection after the event with some id and reconnects with
      that id ends up with the events of one uninterrupted stream. */
  lemma ResumeLosesNothing(first: Stream, steps1: seq<Step>, cursor: nat, second: Stream, steps2: seq<Step>, seen: nat)
    requires Connects(first, cursor) && cursor <= |first.log| && KeepsUp(first, steps1) && EndsWithStatus(first, steps1)
    requires seen <= |Run(first, steps1).sent|
    requires Connects(second, cursor + seen) && second.log == Run(first, steps1).log
    requires KeepsUp(second, steps2) && EndsWithStatus(second, steps2)
    requires Run(second, steps2).phase == Closed
    ensures var log := Run(second, steps2).log;
      cursor <= |log| && Run(first, steps1).sent[..seen] + Run(second, steps2).sent == Numbered(log, cursor, |log|)
  {
    hide Advance, Run, KeepsUp, EndsWithStatus;
    StaysContiguous(first, steps1, cursor);
    StaysContiguous(second, steps2, cursor + seen);
    LogGrows(second, steps2);
    var log := Run(second, steps2).log;
    NumberedConcat(log, cursor, cursor + seen, |log|);
    SeenPrefix(Run(first, steps1).log, log, cursor, Run(first, steps1).cursor, seen);
  }

  /** A contiguous stream's deliveries are numbered on from where it started. */
  lemma SentId(log: seq<Event>, from: nat, to: nat, i: nat)
    requires from <= to <= |log| && i < to - from
    ensures Numbered(log, from, to)[i].id == from + i + 1
  {
  }

  /** Resuming as clients do: by sending back, in the header, the id of the last event seen, whatever
      the query parameter still says. */
  lemma ResumeByLastEventId(first: Stream, steps1: seq<Step>, cursor: nat, second: Stream, steps2: seq<Step>, seen: nat,
                            query: Option<string>, other: string -> Option<int>)
    requires Connects(first, cursor) && cursor <= |first.log| && KeepsUp(first, steps1) && EndsWithStatus(first, steps1)
    requires 0 < seen <= |Run(first, steps1).sent|
    requires Connects(second, InitialCursor(Some(Decimal(Run(first, steps1).sent[seen - 1].id)), query, other))
    requires second.log == Run(first, steps1).log
    requires KeepsUp(second, steps2) && EndsWithStatus(second, steps2)
    requires Run(second, steps2).phase == Closed
    ensures var log := Run(second, steps2).log;
      cursor <= |log| && Run(first, steps1).sent[..seen] + Run(second, steps2).sent == Numbered(log, cursor, |log|)
  {
    hide Advance, Run, KeepsUp, EndsWithStatus, Decimal, NumberOf;
    var r := Run(first, steps1);
    StaysContiguous(first, steps1, cursor);
    SentId(r.log, cursor, r.cursor, seen - 1);
    DecimalReadsBack(r.sent[seen - 1].id);
    ResumeLosesNothing(first, steps1, cursor, second, steps2, seen);
  }

  /** The first events sent stay what they are as the log grows. */
  lemma SeenPrefix(log: seq<Event>, later: seq<Event>, from: nat, to: nat, seen: nat)
    requires log <= later && from + seen <= to <= |log|
    ensures Numbered(log, from, to)[..seen] == Numbered(later, from, from + seen)
  {
  }

  lemma {:induction false} LogGrows(s: Stream, steps: seq<Step>)
    ensures s.log <= Run(s, steps).log
  {
    if |steps| > 0 {
      LogGrows(s, steps[..|steps| - 1]);
      AdvanceGrows(Run(s, steps[..|steps| - 1]), steps[|steps| - 1]);
      hide Advance;
    }
  }

  lemma AdvanceGrows(s: Stream, step: Step)
    ensures s.log <= Advance(s, step).log
  {
  }
}
