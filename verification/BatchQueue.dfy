/** The queue as the program has it: fields that each method updates in place. Every method
    says which atomic steps it takes; the fields are always those of the state the steps so
    far lead to. */
module BatchQueue {
  import opened Text
  import opened Ingest
  import opened Shards
  import opened Runs
  import opened QueueSteps
  import opened Store
  import DropWarning
  import opened Cursor

  /** How a call into the store will go. */
  datatype Outcome = Outcome(cancelled: bool, unopenable: set<string>, failsAt: map<string, nat>)

  /** `drainChannel` over n lines. */
  function DrainSteps(n: nat): seq<Event> {
    if n == 0 then [Poll] else [Poll, Append] + DrainSteps(n - 1)
  }

  function FlushSteps(buf: seq<LogLine>, ok: bool): seq<Event> { if buf == [] then [Swap] else [Swap, Commit(ok)] }

  /** The store has gained the batch's lines of the stored dates, all of each and nothing else; the
      insert succeeded exactly if these are all of its dates. */
  ghost predicate Flushed(before: Disk, after: Disk, zone: string, batch: seq<LogLine>, ok: bool, stored: set<string>) {
    && Inserted(before, after, Entries(zone, batch), stored) && stored <= Dates(Entries(zone, batch))
    && (ok <==> stored == Dates(Entries(zone, batch)))
  }

  lemma NothingLeft(size: nat, trace: seq<Event>, q: Queue)
    requires size > 0 && Exec(Step, New(size), trace) == Some(q) && q.pc.Stopped? && q.channel == []
    ensures Lines(q.batches) == q.accepted
  {
    StoppedMeansFlushed(size, trace, q);
    assert q.accepted == Lines(q.batches) + [];
  }

  lemma DrainStep(before: seq<Event>, n: nat)
    requires n > 0
    ensures before + [Poll, Append] + DrainSteps(n - 1) == before + DrainSteps(n)
  {
  }

  lemma MoveFirst(a: seq<LogLine>, b: seq<LogLine>)
    requires b != []
    ensures a + [b[0]] + b[1..] == a + b
  {
  }

  class BatchQueue {
    const size: nat
    const store: Store
    var channel: seq<LogLine>
    var buf: seq<LogLine>
    var done: bool
    var stopped: bool
    var dropped: int
    var lastWarnedAt: int64
    ghost var trace: seq<Event>

    ghost function State(): Option<Queue>
      reads this
    {
      Exec(Step, New(size), trace)
    }

    ghost predicate Valid()
      reads this
    {
      && size > 0 && State().Some?
      && State().value.channel == channel && State().value.buf == buf && State().value.done == done
      && State().value.size == size && (stopped ==> State().value.pc.Stopped?)
    }

    ghost predicate At(pc: Pc)
      reads this
    {
      State().Some? && State().value.pc == pc
    }

    constructor (size: int, store: Store)
      ensures Valid() && At(Select) && trace == [] && this.store == store && this.size == Size(size)
      ensures !stopped && !done && dropped == 0 && lastWarnedAt == 0
    {
      this.size, this.store := Size(size), store;
      channel, buf, done, stopped, trace := [], [], false, false, [];
      dropped, lastWarnedAt := 0, 0;
    }

    ghost method Note(e: Event)
      requires State().Some? && Step(State().value, e).Some?
      modifies `trace
      ensures trace == old(trace) + [e] && State() == Step(old(State()).value, e)
    {
      ExecMore(Step, New(size), trace, e);
      trace := trace + [e];
    }

    /** `Enqueue`: never blocks, and drops the line exactly if the channel is full. A drop is
        counted, and reported together with those not yet reported, if the interval is over. */
    method Enqueue(l: LogLine, now: int64) returns (accepted: bool, warning: Option<int>)
      requires Valid()
      modifies `channel, `trace, `dropped, `lastWarnedAt
      ensures Valid() && trace == old(trace) + [Offer(l)] && State().value.pc == old(State()).value.pc
      ensures accepted <==> |old(channel)| < 4 * size
      ensures channel == if accepted then old(channel) + [l] else old(channel)
      ensures accepted ==> dropped == old(dropped) && lastWarnedAt == old(lastWarnedAt) && warning == None
      ensures !accepted ==> Counted(old(dropped), old(lastWarnedAt), now, warning)
    {
      Note(Offer(l));
      warning := None;
      accepted := |channel| < 4 * size;
      if accepted {
        channel := channel + [l];
      } else {
        warning := RecordDrop(now);
      }
    }

    /** What the atomics and the warning are after a producer's call that nobody interferes with. */
    ghost predicate Counted(pending: int, warnedAt: int64, now: int64, warning: Option<int>)
      reads this
    {
      var opens := DropWarning.Opens(DropWarning.INTERVAL, now, warnedAt);
      var end := Exec(DropWarning.Step, DropWarning.Atomics(pending, warnedAt), DropWarning.CallSteps(0, now, opens));
      && end.Some? && end.value.dropped == dropped && end.value.lastWarnedAt == lastWarnedAt
      && end.value.warnings == (if warning.Some? then [DropWarning.Warning(warning.value, now, now)] else [])
    }

    /** `recordDrop` */
    method RecordDrop(now: int64) returns (warning: Option<int>)
      modifies `dropped, `lastWarnedAt
      ensures Counted(old(dropped), old(lastWarnedAt), now, warning)
    {
      DropWarning.CallAlone(dropped, lastWarnedAt, now, 0);
      dropped := dropped + 1;
      var last := lastWarnedAt;
      if last != 0 && DropWarning.Elapsed(now, last) < DropWarning.INTERVAL { return None; }
      lastWarnedAt := now;
      warning := Some(dropped);
      dropped := 0;
    }

    /** Takes the buffer under the mutex. */
    method SwapBuffer() returns (batch: seq<LogLine>)
      requires Valid() && State().value.pc.Flush?
      modifies `buf, `trace
      ensures Valid() && batch == old(buf) && buf == [] && trace == old(trace) + [Swap]
      ensures batch == [] ==> At(After(old(State()).value.pc.next))
      ensures batch != [] ==> At(Inserting(batch, old(State()).value.pc.next))
    {
      Note(Swap);
      batch := buf;
      buf := [];
    }

    ghost method NoteCommit(ok: bool)
      requires Valid() && State().value.pc.Inserting?
      modifies `trace
      ensures Valid() && trace == old(trace) + [Commit(ok)] && At(After(old(State()).value.pc.next))
    {
      Note(Commit(ok));
    }

    /** `flush`: hands the buffer, if there is anything in it, to the store as one batch. */
    method FlushBuffer(outcome: Outcome) returns (ok: bool, ghost stored: set<string>)
      requires Valid() && store.InStep() && State().value.pc.Flush?
      modifies `buf, `trace, store
      ensures Valid() && store.InStep() && buf == [] && At(After(old(State()).value.pc.next))
      ensures trace == old(trace) + FlushSteps(old(buf), ok)
      ensures Flushed(old(store.disk), store.disk, store.zone, old(buf), ok, stored)
    {
      var batch := SwapBuffer();
      if |batch| == 0 { return true, {}; }
      ok, stored := Persist(batch, outcome);
      NoteCommit(ok);
    }

    method Persist(batch: seq<LogLine>, outcome: Outcome) returns (ok: bool, ghost stored: set<string>)
      requires store.InStep()
      modifies store
      ensures store.InStep() && Flushed(old(store.disk), store.disk, store.zone, batch, ok, stored)
    {
      ok, stored := store.InsertBatch(batch, outcome.cancelled, outcome.unopenable, outcome.failsAt);
    }

    /** Moves one line from the channel to the loop's hand and on to the buffer. */
    method TakeLine(take: Event)
      requires Valid() && channel != []
      requires (take == Receive && At(Select)) || (take == Poll && At(Draining))
      modifies `channel, `buf, `trace
      ensures Valid() && trace == old(trace) + [take, Append]
      ensures channel == old(channel)[1..] && buf == old(buf) + [old(channel)[0]]
      ensures take == Poll ==> At(Draining)
      ensures take == Receive ==> At(if |buf| >= size then Flush(Continue) else Select)
    {
      var l := channel[0];
      channel := channel[1..];
      Note(take);
      buf := buf + [l];
      Note(Append);
    }

    /** The loop takes a line from the channel; a full buffer is flushed at once, as one batch that
        ends with this line. */
    method ReceiveLine(outcome: Outcome) returns (ok: bool, ghost stored: set<string>)
      requires Valid() && store.InStep() && At(Select) && channel != []
      modifies `channel, `buf, `trace, store
      ensures Valid() && store.InStep() && At(Select) && channel == old(channel)[1..]
      ensures |old(buf)| + 1 < size ==> trace == old(trace) + [Receive, Append] && buf == old(buf) + [old(channel)[0]]
      ensures |old(buf)| + 1 < size ==> ok && unchanged(store)
      ensures |old(buf)| + 1 >= size ==> trace == old(trace) + [Receive, Append, Swap, Commit(ok)] && buf == []
      ensures |old(buf)| + 1 >= size ==>
        Flushed(old(store.disk), store.disk, store.zone, old(buf) + [old(channel)[0]], ok, stored)
    {
      TakeLine(Receive);
      ok, stored := true, {};
      if |buf| >= size {
        ok, stored := FlushBuffer(outcome);
      }
    }

    /** The loop hears the ticker: what is in the buffer is flushed. */
    method TickerFires(outcome: Outcome) returns (ok: bool, ghost stored: set<string>)
      requires Valid() && store.InStep() && At(Select)
      modifies `buf, `trace, store
      ensures Valid() && store.InStep() && At(Select) && buf == []
      ensures trace == old(trace) + [Tick] + FlushSteps(old(buf), ok)
      ensures Flushed(old(store.disk), store.disk, store.zone, old(buf), ok, stored)
    {
      Note(Tick);
      ok, stored := FlushBuffer(outcome);
    }

    /** `drainChannel` moves everything in the channel to the buffer. */
    method DrainChannel()
      requires Valid() && At(Draining)
      modifies `channel, `buf, `trace
      ensures Valid() && At(Flush(Finish))
      ensures channel == [] && buf == old(buf) + old(channel)
      ensures trace == old(trace) + DrainSteps(|old(channel)|)
    {
      while channel != []
        invariant Valid() && At(Draining)
        invariant buf + channel == old(buf) + old(channel)
        invariant trace + DrainSteps(|channel|) == old(trace) + DrainSteps(|old(channel)|)
        decreases |channel|
      {
        ghost var before, n := trace, |channel|;
        MoveFirst(buf, channel);
        TakeLine(Poll);
        DrainStep(before, n);
      }
      Note(Poll);
    }

    /** The loop sees the closed `done` channel: drain, flush, stop. Left alone it flushes
        everything that was accepted, as one batch of what was in the buffer and the channel. */
    method HandleDone(outcome: Outcome) returns (ok: bool, ghost stored: set<string>)
      requires Valid() && store.InStep() && At(Select) && done
      modifies `channel, `buf, `trace, `stopped, store
      ensures Valid() && store.InStep() && stopped && buf == [] && channel == []
      ensures trace == old(trace) + [SeeDone] + DrainSteps(|old(channel)|) + FlushSteps(old(buf) + old(channel), ok)
      ensures Flushed(old(store.disk), store.disk, store.zone, old(buf) + old(channel), ok, stored)
      ensures Lines(State().value.batches) == State().value.accepted
    {
      Note(SeeDone);
      DrainChannel();
      ok, stored := FlushBuffer(outcome);
      stopped := true;
      NothingLeft(size, trace, State().value);
    }

    /** `Close`, up to waiting for the loop: a second call would panic. */
    method SignalDone()
      requires Valid() && !done
      modifies `done, `trace
      ensures Valid() && done && trace == old(trace) + [Close] && State().value.pc == old(State()).value.pc
    {
      done := true;
      Note(Close);
    }
  }
}
