/** Storing succeeds if nothing prevents it: any lines can be accepted and stored by a run of the
    program up to its exit. */
module Delivery {
  import opened Text
  import opened Ingest
  import opened Shards
  import opened Ranking
  import opened Runs
  import opened Shutdown
  import Q = QueueSteps

  /** The program serves, its one tailer reads a live stream, and the loop waits with an empty
      channel. */
  ghost predicate Ready(s: System) {
    && s.main.Serving? && !s.cancelled && !s.queue.done && At(s, 0, Reading(false))
    && s.queue.size > 0 && s.queue.pc.Select? && s.queue.channel == [] && |s.queue.buf| < s.queue.size
    && Q.Inv(s.queue)
  }

  /** From the start to the live stream, by way of the previous instance's. */
  const OPENING := [Spawn(0)] + PREVIOUS_THEN_LIVE

  const PREVIOUS_THEN_LIVE := [OpenPrevious(0, true), EndStream(0), Resolve(0), OpenLive(0, true)]

  lemma Opens(size: nat, zone: string, disk: Disk) returns (s: System)
    requires size > 0
    ensures Exec(Step, New(size, zone, disk), OPENING) == Some(s) && Ready(s)
    ensures s.queue.accepted == [] && s.queue.batches == [] && s.disk == disk
  {
    var s0 := New(size, zone, disk);
    var s1 := Move(s0, 0, Fresh).(wg := s0.wg + {0});
    TailerStep(s0, Spawn(0), s1);
    s := FreshToLive(s1);
    ExecOne(Step, s0, Spawn(0));
    Join(s0, [Spawn(0)], s1, PREVIOUS_THEN_LIVE, s);
    QueueStarts(size);
  }

  lemma FreshToLive(s: System) returns (s': System)
    requires At(s, 0, Fresh) && !ContextDone(s, 0)
    ensures Exec(Step, s, PREVIOUS_THEN_LIVE) == Some(s')
    ensures s' == s.(tailers := s'.tailers) && At(s', 0, Reading(false))
  {
    var s1 := Move(s, 0, Reading(true));
    var s2 := Move(s1, 0, Resolving);
    var s3 := Move(s2, 0, Top);
    s' := Move(s3, 0, Reading(false));
    TailerStep(s, OpenPrevious(0, true), s1);
    TailerStep(s1, EndStream(0), s2);
    TailerStep(s2, Resolve(0), s3);
    TailerStep(s3, OpenLive(0, true), s');
    ExecFour(Step, s, OpenPrevious(0, true), EndStream(0), Resolve(0), OpenLive(0, true), s1, s2, s3, s');
  }

  lemma TailerStep(s: System, e: Event, s': System)
    requires StepMain(s, e).None? && StepTailer(s, e) == Some(s') && !e.Loop? && !e.Insert?
    ensures Step(s, e) == Some(s')
  {
  }

  lemma QueueStarts(size: nat)
    requires size > 0
    ensures Q.Inv(Q.New(size))
  {
    Q.RunKeepsInv(size, []);
  }

  /** A line on its way from the stream to the buffer. */
  function LineSteps(l: LogLine): seq<Event> {
    [Enqueue(0, l), Publish(0), Loop(Q.Receive), Loop(Q.Append)]
  }

  lemma LoopStep(s: System, e: Q.Event, q: Q.Queue)
    requires IsLoop(e) && Q.Step(s.queue, e) == Some(q)
    ensures Step(s, Loop(e)) == Some(s.(queue := q))
  {
  }

  lemma EnqueueStep(s: System, l: LogLine, q: Q.Queue)
    requires At(s, 0, Reading(false)) && !s.queue.done && Q.Step(s.queue, Q.Offer(l)) == Some(q)
    ensures Step(s, Enqueue(0, l)) == Some(s.(tailers := s.tailers[0 := Publishing(l, false)], queue := q))
  {
  }

  lemma PublishStep(s: System, l: LogLine)
    requires At(s, 0, Publishing(l, false))
    ensures Step(s, Publish(0)) == Some(s.(tailers := s.tailers[0 := Reading(false)]))
  {
  }

  /** What the queue is after a line has come in, been received and been appended. */
  lemma ThroughQueue(q: Q.Queue, l: LogLine) returns (q1: Q.Queue, q2: Q.Queue, q3: Q.Queue)
    requires q.size > 0 && q.pc.Select? && q.channel == []
    ensures Q.Step(q, Q.Offer(l)) == Some(q1) && Q.Step(q1, Q.Receive) == Some(q2) && Q.Step(q2, Q.Append) == Some(q3)
    ensures Buffered(q, l, q3)
  {
    q1 := Q.Step(q, Q.Offer(l)).value;
    q2 := Q.Step(q1, Q.Receive).value;
    q3 := Q.Step(q2, Q.Append).value;
  }

  lemma ThroughKeepsInv(q: Q.Queue, l: LogLine, q1: Q.Queue, q2: Q.Queue, q3: Q.Queue)
    requires Q.Step(q, Q.Offer(l)) == Some(q1) && Q.Step(q1, Q.Receive) == Some(q2) && Q.Step(q2, Q.Append) == Some(q3)
    requires Q.Inv(q)
    ensures Q.Inv(q3)
  {
    Q.StepKeepsInv(q, Q.Offer(l));
    Q.StepKeepsInv(q1, Q.Receive);
    Q.StepKeepsInv(q2, Q.Append);
  }

  /** The line has been accepted and is the last of the buffer. */
  predicate Buffered(q: Q.Queue, l: LogLine, q': Q.Queue) {
    && q'.size == q.size && q'.done == q.done && q'.channel == q.channel && q'.batches == q.batches
    && q'.buf == q.buf + [l] && q'.accepted == q.accepted + [l]
    && q'.pc == if |q.buf| + 1 >= q.size then Q.Flush(Q.Continue) else Q.Select
  }

  lemma LineIsBuffered(s: System, l: LogLine) returns (s': System)
    requires Ready(s)
    ensures Exec(Step, s, LineSteps(l)) == Some(s')
    ensures s' == s.(queue := s'.queue, tailers := s'.tailers) && At(s', 0, Reading(false))
    ensures Buffered(s.queue, l, s'.queue) && Q.Inv(s'.queue)
  {
    var q1, q2, q3 := ThroughQueue(s.queue, l);
    ThroughKeepsInv(s.queue, l, q1, q2, q3);
    EnqueueStep(s, l, q1);
    var s1 := s.(tailers := s.tailers[0 := Publishing(l, false)], queue := q1);
    PublishStep(s1, l);
    var s2 := s1.(tailers := s1.tailers[0 := Reading(false)]);
    LoopStep(s2, Q.Receive, q2);
    LoopStep(s2.(queue := q2), Q.Append, q3);
    s' := s2.(queue := q3);
    ExecFour(Step, s, Enqueue(0, l), Publish(0), Loop(Q.Receive), Loop(Q.Append), s1, s2, s2.(queue := q2), s');
  }

  /** A full buffer goes to the store. */
  lemma BufferIsStored(s: System, extra: nat) returns (events: seq<Event>, s': System)
    requires s.queue.pc == Q.Flush(Q.Continue) && s.queue.buf != [] && Q.Inv(s.queue) && Storing(s, extra)
    ensures Exec(Step, s, events) == Some(s') && Storing(s', extra) && Q.Inv(s'.queue)
    ensures s' == s.(queue := s'.queue, disk := s'.disk, lateFlush := s'.lateFlush) && Flushed(s.queue, s'.queue)
  {
    var s1 := SwapStep(s, extra);
    var e;
    e, s' := BatchIsStored(s1, extra);
    events := [Loop(Q.Swap), e];
    ExecTwo(Step, s, Loop(Q.Swap), e, s1, s');
  }

  lemma BatchIsStored(s: System, extra: nat) returns (e: Event, s': System)
    requires s.queue.pc.Inserting? && s.queue.pc.next.Continue? && Q.Inv(s.queue) && Storing(s, extra)
    ensures Step(s, e) == Some(s') && Storing(s', extra) && Q.Inv(s'.queue)
    ensures s' == s.(queue := s'.queue, disk := s'.disk, lateFlush := s'.lateFlush)
    ensures s'.queue == s.queue.(pc := Q.Select, batches := s'.queue.batches)
  {
    var disk, done := BatchCanBeStored(s, extra);
    s' := InsertStep(s, disk, done, extra);
    e := Insert(true, disk, done);
  }

  lemma SwapStep(s: System, extra: nat) returns (s': System)
    requires s.queue.pc == Q.Flush(Q.Continue) && s.queue.buf != [] && Q.Inv(s.queue) && Storing(s, extra)
    ensures Step(s, Loop(Q.Swap)) == Some(s') && Storing(s', extra) && Q.Inv(s'.queue)
    ensures s' == s.(queue := s.queue.(pc := Q.Inserting(s.queue.buf, Q.Continue), buf := []))
  {
    var q := Q.Step(s.queue, Q.Swap).value;
    LoopStep(s, Q.Swap, q);
    s' := s.(queue := q);
    Q.StepKeepsInv(s.queue, Q.Swap);
    StepKeepsStoring(s, Loop(Q.Swap), s', extra);
  }

  /** The buffer has been emptied, and nothing else is different but the batches. */
  predicate Flushed(q: Q.Queue, q': Q.Queue) {
    && q'.size == q.size && q'.done == q.done && q'.channel == q.channel && q'.accepted == q.accepted
    && q'.buf == [] && q'.pc.Select?
  }

  lemma InsertStep(s: System, disk: Disk, done: set<string>, extra: nat) returns (s': System)
    requires StepInsert(s, true, disk, done).Some? && Q.Inv(s.queue) && Storing(s, extra)
    ensures Step(s, Insert(true, disk, done)) == Some(s') && Storing(s', extra) && Q.Inv(s'.queue)
    ensures s' == s.(queue := s'.queue, disk := disk, lateFlush := s'.lateFlush)
    ensures Q.Step(s.queue, Q.Commit(true)) == Some(s'.queue)
  {
    s' := StepInsert(s, true, disk, done).value;
    StepKeepsStoring(s, Insert(true, disk, done), s', extra);
    Q.StepKeepsInv(s.queue, Q.Commit(true));
  }

  lemma OneMoreAccepted(s: System, l: LogLine, extra: nat, s': System)
    requires Storing(s, extra + 1) && s'.disk == s.disk && s'.queue.batches == s.queue.batches
    requires s'.queue.accepted == s.queue.accepted + [l]
    ensures Storing(s', extra)
  {
  }

  lemma AcceptOne(s: System, l: LogLine, extra: nat) returns (events: seq<Event>, s': System)
    requires Ready(s) && Storing(s, extra + 1)
    ensures Exec(Step, s, events) == Some(s') && Ready(s') && Storing(s', extra)
    ensures s'.queue.accepted == s.queue.accepted + [l]
  {
    var mid := LineIsBuffered(s, l);
    OneMoreAccepted(s, l, extra, mid);
    if mid.queue.pc.Select? {
      events, s' := LineSteps(l), mid;
    } else {
      var more;
      more, s' := BufferIsStored(mid, extra);
      events := LineSteps(l) + more;
      ExecConcat(Step, s, LineSteps(l), more);
    }
  }

  lemma {:induction false} AcceptAll(s: System, lines: seq<LogLine>, n: nat)
    returns (events: seq<Event>, s': System)
    requires Ready(s) && Storing(s, n) && n == |lines|
    ensures Exec(Step, s, events) == Some(s') && Ready(s') && Storing(s', 0)
    ensures s'.queue.accepted == s.queue.accepted + lines
    decreases n
  {
    if n == 0 {
      events, s' := [], s;
    } else {
      var first, mid := AcceptOne(s, lines[0], n - 1);
      var rest;
      rest, s' := AcceptAll(mid, lines[1..], n - 1);
      events := first + rest;
      Join(s, first, mid, rest, s');
      FirstAndRest(s.queue.accepted, lines);
    }
  }

  lemma Join(s: System, a: seq<Event>, mid: System, b: seq<Event>, s': System)
    requires Exec(Step, s, a) == Some(mid) && Exec(Step, mid, b) == Some(s')
    ensures Exec(Step, s, a + b) == Some(s')
  {
    ExecConcat(Step, s, a, b);
  }

  lemma FirstAndRest(a: seq<LogLine>, b: seq<LogLine>)
    requires b != []
    ensures a + [b[0]] + b[1..] == a + b
  {
  }

  /** A run in which these lines are accepted while the program serves, and then the signal. */
  lemma Served(size: nat, zone: string, disk: Disk, lines: seq<LogLine>) returns (events: seq<Event>, s: System)
    requires size > 0 && RoomFor(disk, |lines|)
    ensures Exec(Step, New(size, zone, disk), events) == Some(s) && s.cancelled && Storing(s, 0)
    ensures s.queue.accepted == lines
  {
    var start := New(size, zone, disk);
    var ready := Opens(size, zone, disk);
    StoringNothing(ready, |lines|);
    var more, served := AcceptAll(ready, lines, |lines|);
    Join(start, OPENING, ready, more, served);
    s := SignalStep(served);
    ExecMore(Step, start, OPENING + more, Signal);
    events := OPENING + more + [Signal];
    assert [] + lines == lines;
  }

  lemma StoringNothing(s: System, n: nat)
    requires s.queue.accepted == [] && s.queue.batches == [] && RoomFor(s.disk, n)
    ensures Storing(s, n)
  {
  }

  lemma SignalStep(s: System) returns (s': System)
    requires s.main.Serving? && Storing(s, 0)
    ensures Step(s, Signal) == Some(s') && s'.cancelled && s'.queue == s.queue && Storing(s', 0)
  {
    s' := s.(main := Cancelled, cancelled := true);
  }

  /** Whatever the lines and the batch size: if the store has room for them, there is a run up to the
      exit in which exactly these lines are accepted and each day's table gains its lines. */
  lemma LinesCanBeStored(size: nat, zone: string, disk: Disk, lines: seq<LogLine>)
    returns (events: seq<Event>, end: System)
    requires size > 0 && RoomFor(disk, |lines|) && forall date: string :: IdsAscend(TableAt(disk, date))
    ensures Exec(Step, New(size, zone, disk), events) == Some(end) && end.main.Exited?
    ensures end.queue.accepted == lines && AllOk(end.queue.batches) && StoredAll(zone, disk, end.disk, lines)
  {
    var before, s := Served(size, zone, disk, lines);
    var more;
    more, end := ExitIsReached(size, zone, disk, before, s, Distance(s));
    events := before + more;
    AcceptedMeansStored(size, zone, disk, events, end);
  }
}
