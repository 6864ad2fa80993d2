/** The batch queue: producers that never block, one loop that collects lines into batches,
    and a close that drains. Every interleaving of their atomic steps is a sequence of events. */
module QueueSteps {
  import opened Text
  import opened Ingest
  import opened Runs

  datatype Batch = Batch(lines: seq<LogLine>, ok: bool)

  datatype Next = Continue | Finish

  /** Where the `run` goroutine is. */
  datatype Pc =
    | Select
    | Received(line: LogLine)
    | Flush(next: Next)
    | Inserting(batch: seq<LogLine>, next: Next)
    | Draining
    | Drained(line: LogLine)
    | Stopped

  /** The queue with its history: what was offered, accepted and dropped, the batches handed to
      the store, and how many lines had been accepted when the loop saw the closed `done` channel
      and when its last poll of `in` found nothing. */
  datatype Queue = Queue(size: nat, channel: seq<LogLine>, buf: seq<LogLine>, pc: Pc, done: bool,
                         offered: seq<LogLine>, accepted: seq<LogLine>, dropped: seq<LogLine>,
                         batches: seq<Batch>, atDone: nat, atEmpty: nat)

  datatype Event =
    | Offer(line: LogLine)
    | Close
    | Receive | Append | Tick | SeeDone | Poll | Swap
    | Commit(ok: bool)

  function Size(size: int): (n: nat)
    ensures n > 0 && (size > 0 ==> n == size)
  {
    if size <= 0 then 200 else size
  }

  function New(size: nat): Queue {
    Queue(size, [], [], Select, false, [], [], [], [], 0, 0)
  }

  function After(next: Next): Pc { if next.Continue? then Select else Stopped }

  /** One atomic step; None if it is not enabled. */
  function Step(q: Queue, e: Event): Option<Queue> {
    match e
    case Offer(l) =>
      if |q.channel| < 4 * q.size
      then Some(q.(channel := q.channel + [l], offered := q.offered + [l], accepted := q.accepted + [l]))
      else Some(q.(offered := q.offered + [l], dropped := q.dropped + [l]))
    case Close => if q.done then None else Some(q.(done := true))
    case Receive =>
      if q.pc.Select? && q.channel != []
      then Some(q.(pc := Received(q.channel[0]), channel := q.channel[1..])) else None
    case Append => StepAppend(q)
    case Tick => if q.pc.Select? then Some(q.(pc := Flush(Continue))) else None
    case SeeDone => if q.pc.Select? && q.done then Some(q.(pc := Draining, atDone := |q.accepted|)) else None
    case Poll =>
      if !q.pc.Draining? then None
      else if q.channel != [] then Some(q.(pc := Drained(q.channel[0]), channel := q.channel[1..]))
      else Some(q.(pc := Flush(Finish), atEmpty := |q.accepted|))
    case Swap =>
      if !q.pc.Flush? then None
      else if q.buf == [] then Some(q.(pc := After(q.pc.next)))
      else Some(q.(pc := Inserting(q.buf, q.pc.next), buf := []))
    case Commit(ok) =>
      if q.pc.Inserting? then Some(q.(pc := After(q.pc.next), batches := q.batches + [Batch(q.pc.batch, ok)])) else None
  }

  function StepAppend(q: Queue): Option<Queue> {
    match q.pc
    case Received(l) =>
      Some(q.(buf := q.buf + [l], pc := if |q.buf| + 1 >= q.size then Flush(Continue) else Select))
    case Drained(l) => Some(q.(buf := q.buf + [l], pc := Draining))
    case _ => None
  }

  // ---- what every reachable state satisfies ----

  function Lines(batches: seq<Batch>): seq<LogLine> {
    if batches == [] then [] else Lines(batches[..|batches| - 1]) + batches[|batches| - 1].lines
  }

  function InFlight(pc: Pc): seq<LogLine> { if pc.Inserting? then pc.batch else [] }

  function Held(pc: Pc): seq<LogLine> { if pc.Received? || pc.Drained? then [pc.line] else [] }

  /** Nothing accepted is lost, repeated or reordered on the way. */
  ghost predicate InOrder(q: Queue) {
    q.accepted == Lines(q.batches) + InFlight(q.pc) + q.buf + Held(q.pc) + q.channel
  }

  /** Every line offered was either accepted or dropped. */
  ghost predicate Counted(q: Queue) { multiset(q.offered) == multiset(q.accepted) + multiset(q.dropped) }

  predicate Closing(pc: Pc) {
    || pc.Draining? || pc.Drained? || pc.Stopped?
    || ((pc.Flush? || pc.Inserting?) && pc.next.Finish?)
  }

  /** Past the poll that found the channel empty. */
  predicate Emptied(pc: Pc) { Closing(pc) && !pc.Draining? && !pc.Drained? }

  /** The most lines that a batch can hold. */
  function Largest(q: Queue): int { 5 * q.size - 1 + (q.atEmpty - q.atDone) }

  ghost predicate Bounded(q: Queue) {
    && q.size > 0 && |q.channel| <= 4 * q.size
    && (Closing(q.pc) ==> q.done && q.atDone <= |q.accepted|)
    && (q.pc.Select? || q.pc.Received? ==> |q.buf| < q.size)
    && (q.pc.Flush? && q.pc.next.Continue? ==> |q.buf| <= q.size)
    && (q.pc.Inserting? ==> q.pc.batch != [] && q.buf == [])
    && (q.pc.Inserting? && q.pc.next.Continue? ==> |q.pc.batch| <= q.size)
    && (q.pc.Draining? || q.pc.Drained? ==>
          |q.buf| + |Held(q.pc)| + |q.channel| <= 5 * q.size - 1 + (|q.accepted| - q.atDone))
    && (Emptied(q.pc) ==>
          && q.atDone <= q.atEmpty && |q.channel| == |q.accepted| - q.atEmpty
          && |InFlight(q.pc)| + |q.buf| <= Largest(q))
    && (q.pc.Stopped? ==> q.buf == [])
  }

  /** No batch is empty, and only the one that ends a stopped queue can exceed the size. */
  ghost predicate BatchesBounded(q: Queue) {
    forall i :: 0 <= i < |q.batches| ==>
      0 < |q.batches[i].lines| <= (if i == |q.batches| - 1 && q.pc.Stopped? then Largest(q) else q.size)
  }

  ghost predicate Inv(q: Queue) { InOrder(q) && Counted(q) && Bounded(q) && BatchesBounded(q) }

  /** Moving lines between neighbours leaves the whole as it is. */
  lemma Moves(a: seq<LogLine>, b: seq<LogLine>, c: seq<LogLine>, d: seq<LogLine>, e: seq<LogLine>, l: LogLine)
    ensures a + b + c + d + (e + [l]) == a + b + c + d + e + [l]
    ensures a + b + c + [] + ([l] + e) == a + b + c + [l] + e
    ensures a + b + (c + [l]) + [] + e == a + b + c + [l] + e
  {
  }

  lemma Joins(a: seq<LogLine>, b: seq<LogLine>, c: seq<LogLine>)
    ensures a + b + [] == a + [] + b && (a + b) + [] + c == a + b + c
  {
    assert (a + b) + [] == a + b;
  }

  lemma OfferInOrder(q: Queue, l: LogLine)
    requires InOrder(q)
    ensures InOrder(Step(q, Offer(l)).value)
  {
    Moves(Lines(q.batches), InFlight(q.pc), q.buf, Held(q.pc), q.channel, l);
  }

  lemma TakeInOrder(q: Queue, e: Event)
    requires InOrder(q) && e in {Receive, Poll} && Step(q, e).Some?
    ensures InOrder(Step(q, e).value)
  {
    if q.channel != [] {
      var l, rest := q.channel[0], q.channel[1..];
      assert q.channel == [l] + rest;
      Moves(Lines(q.batches), [], q.buf, [], rest, l);
    }
  }

  lemma AppendInOrder(q: Queue)
    requires InOrder(q) && Step(q, Append).Some?
    ensures InOrder(Step(q, Append).value)
  {
    Moves(Lines(q.batches), [], q.buf, [], q.channel, q.pc.line);
  }

  lemma LinesMore(batches: seq<Batch>, b: Batch)
    ensures Lines(batches + [b]) == Lines(batches) + b.lines
  {
    assert (batches + [b])[..|batches|] == batches;
  }

  lemma CommitInOrder(q: Queue, ok: bool)
    requires InOrder(q) && q.pc.Inserting?
    ensures InOrder(Step(q, Commit(ok)).value)
  {
    LinesMore(q.batches, Batch(q.pc.batch, ok));
    Joins(Lines(q.batches), q.pc.batch, q.buf);
  }

  lemma SwapInOrder(q: Queue)
    requires InOrder(q) && q.pc.Flush?
    ensures InOrder(Step(q, Swap).value)
  {
    Joins(Lines(q.batches), q.buf, []);
  }

  lemma KeepsInOrder(q: Queue, e: Event)
    requires InOrder(q) && Step(q, e).Some?
    ensures InOrder(Step(q, e).value)
  {
    match e
    case Offer(l) => OfferInOrder(q, l);
    case Receive | Poll => TakeInOrder(q, e);
    case Append => AppendInOrder(q);
    case Swap => SwapInOrder(q);
    case Commit(ok) => CommitInOrder(q, ok);
    case _ =>
  }

  lemma KeepsCounted(q: Queue, e: Event)
    requires Counted(q) && Step(q, e).Some?
    ensures Counted(Step(q, e).value)
  {
  }

  lemma TakeBounded(q: Queue, e: Event)
    requires Bounded(q) && e in {Receive, Poll} && Step(q, e).Some?
    ensures Bounded(Step(q, e).value)
  {
  }

  lemma AppendBounded(q: Queue)
    requires Bounded(q) && Step(q, Append).Some?
    ensures Bounded(Step(q, Append).value)
  {
  }

  lemma FlushBounded(q: Queue, e: Event)
    requires Bounded(q) && (e == Swap || e.Commit?) && Step(q, e).Some?
    ensures Bounded(Step(q, e).value)
  {
  }

  lemma KeepsBounded(q: Queue, e: Event)
    requires Bounded(q) && Step(q, e).Some?
    ensures Bounded(Step(q, e).value)
  {
    match e
    case Receive | Poll => TakeBounded(q, e);
    case Append => AppendBounded(q);
    case Swap | Commit(_) => FlushBounded(q, e);
    case _ =>
  }

  lemma KeepsBatchesBounded(q: Queue, e: Event)
    requires Bounded(q) && BatchesBounded(q) && Step(q, e).Some? && Bounded(Step(q, e).value)
    ensures BatchesBounded(Step(q, e).value)
  {
  }

  lemma BatchesKept(q: Queue, e: Event)
    requires Step(q, e).Some? && !e.Commit?
    ensures Step(q, e).value.batches == q.batches
  {
  }

  lemma StepKeepsInv(q: Queue, e: Event)
    requires Inv(q) && Step(q, e).Some?
    ensures Inv(Step(q, e).value)
  {
    KeepsInOrder(q, e);
    KeepsCounted(q, e);
    KeepsBounded(q, e);
    KeepsBatchesBounded(q, e);
  }

  /** In every state of every run of producers, loop, ticks and close: accepted lines are, in
      order, those in batches, in the batch being inserted, in the buffer, in the loop's hand and
      in the channel; what was offered is what was accepted and what was dropped; and the
      buffer, the channel and the batches keep their bounds. */
  lemma {:induction false} RunKeepsInv(size: nat, events: seq<Event>)
    requires size > 0 && Exec(Step, New(size), events).Some?
    ensures Inv(Exec(Step, New(size), events).value)
  {
    if events != [] {
      RunKeepsInv(size, events[..|events| - 1]);
      StepKeepsInv(Exec(Step, New(size), events[..|events| - 1]).value, events[|events| - 1]);
    }
  }

  // ---- what Close can promise ----

  /** When Close returns, every accepted line is in a batch exactly if none was accepted after
      the loop's last poll; those accepted later are still in the channel, and lost. */
  lemma StoppedMeansFlushed(size: nat, events: seq<Event>, q: Queue)
    requires size > 0 && Exec(Step, New(size), events) == Some(q) && q.pc.Stopped?
    ensures q.accepted == Lines(q.batches) + q.channel
    ensures Lines(q.batches) == q.accepted <==> |q.accepted| == q.atEmpty
  {
    RunKeepsInv(size, events);
    assert q.accepted == Lines(q.batches) + q.channel;
    if Lines(q.batches) == q.accepted { assert |q.channel| == 0; }
  }

  predicate Quiet(events: seq<Event>) { forall i :: 0 <= i < |events| ==> !events[i].Offer? }

  /** What stays fixed once the queue is closed and nobody offers any more. */
  predicate Settled(q: Queue, accepted: seq<LogLine>) {
    && q.done && q.accepted == accepted
    && (Closing(q.pc) ==> q.atDone == |accepted|) && (Emptied(q.pc) ==> q.atEmpty == |accepted|)
  }

  lemma StepKeepsSettled(q: Queue, e: Event)
    requires Settled(q, q.accepted) && !e.Offer? && Step(q, e).Some?
    ensures Settled(Step(q, e).value, q.accepted)
  {
  }

  lemma {:induction false} QuietKeepsSettled(q: Queue, events: seq<Event>)
    requires Settled(q, q.accepted) && Quiet(events) && Exec(Step, q, events).Some?
    ensures Settled(Exec(Step, q, events).value, q.accepted)
  {
    if events != [] {
      var init := events[..|events| - 1];
      QuietKeepsSettled(q, init);
      StepKeepsSettled(Exec(Step, q, init).value, events[|events| - 1]);
    }
  }

  /** A run up to a Close, the Close, and a run after it. */
  lemma SplitAtClose(size: nat, before: seq<Event>, after: seq<Event>) returns (open: Queue)
    requires Exec(Step, New(size), before + [Close] + after).Some?
    ensures Exec(Step, New(size), before) == Some(open) && Step(open, Close).Some?
    ensures Exec(Step, New(size), before + [Close] + after) == Exec(Step, Step(open, Close).value, after)
  {
    ExecConcat(Step, New(size), before + [Close], after);
    ExecMore(Step, New(size), before, Close);
    open := Exec(Step, New(size), before).value;
  }

  lemma ClosedSettled(open: Queue)
    requires Inv(open) && Step(open, Close).Some?
    ensures Settled(Step(open, Close).value, open.accepted)
    ensures Step(open, Close).value.accepted == open.accepted
  {
  }

  lemma SettledAtEnd(size: nat, before: seq<Event>, after: seq<Event>, q: Queue)
    requires size > 0 && Quiet(after)
    requires Exec(Step, New(size), before + [Close] + after) == Some(q)
    ensures Settled(q, q.accepted)
  {
    var open := SplitAtClose(size, before, after);
    RunKeepsInv(size, before);
    ClosedSettled(open);
    QuietKeepsSettled(Step(open, Close).value, after);
  }

  lemma SettledIsFlushed(q: Queue)
    requires Inv(q) && Settled(q, q.accepted) && q.pc.Stopped?
    ensures Lines(q.batches) == q.accepted && q.channel == []
    ensures forall i :: 0 <= i < |q.batches| ==> |q.batches[i].lines| <= 5 * q.size - 1
  {
    assert |q.channel| == 0;
    assert q.accepted == Lines(q.batches) + [] + [] + [] + [];
  }

  /** A shutdown after the last producer has gone: when Close returns all accepted lines are in
      batches, the last of them holding at most 5 * size - 1. */
  lemma CloseFlushesAll(size: nat, before: seq<Event>, after: seq<Event>, q: Queue)
    requires size > 0 && Quiet(after)
    requires Exec(Step, New(size), before + [Close] + after) == Some(q) && q.pc.Stopped?
    ensures Lines(q.batches) == q.accepted && q.channel == []
    ensures forall i :: 0 <= i < |q.batches| ==> |q.batches[i].lines| <= 5 * size - 1
  {
    SettledAtEnd(size, before, after, q);
    RunKeepsInv(size, before + [Close] + after);
    SizeFixed(New(size), before + [Close] + after);
    SettledIsFlushed(q);
  }

  lemma {:induction false} SizeFixed(q: Queue, events: seq<Event>)
    requires Exec(Step, q, events).Some?
    ensures Exec(Step, q, events).value.size == q.size
  {
    if events != [] { SizeFixed(q, events[..|events| - 1]); }
  }

  /** Without that condition Close does not flush everything: a line accepted between the last
      poll and the end stays behind. */
  lemma LateLineIsLost(l: LogLine)
    ensures var events := [Close, SeeDone, Poll, Offer(l), Swap];
      Exec(Step, New(1), events).Some? && Exec(Step, New(1), events).value.pc.Stopped?
      && Exec(Step, New(1), events).value.accepted == [l] && Exec(Step, New(1), events).value.batches == []
  {
    ExecOne(Step, New(1), Close);
    assert [Close] + [SeeDone] == [Close, SeeDone];
    ExecMore(Step, New(1), [Close], SeeDone);
    ExecMore(Step, New(1), [Close, SeeDone], Poll);
    assert [Close, SeeDone] + [Poll] == [Close, SeeDone, Poll];
    ExecMore(Step, New(1), [Close, SeeDone, Poll], Offer(l));
    assert [Close, SeeDone, Poll] + [Offer(l)] == [Close, SeeDone, Poll, Offer(l)];
    ExecMore(Step, New(1), [Close, SeeDone, Poll, Offer(l)], Swap);
    assert [Close, SeeDone, Poll, Offer(l)] + [Swap] == [Close, SeeDone, Poll, Offer(l), Swap];
  }
}
