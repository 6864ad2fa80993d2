/** A whole run of the program, up to its exit: the tailers, the manager that waits for them,
    the queue's loop, and the main goroutine's shutdown in its order of deferred calls. */
module Shutdown {
  import opened Text
  import opened Ingest
  import opened Shards
  import opened Ranking
  import opened Runs
  import opened QueueSteps

  /** How far main has come: serving; context cancelled; HTTP server shut down; manager awaited;
      cron stopped; `queue.Close` begun; `queue.Close` returned; `store.Close` returned. */
  datatype Main = Serving | Cancelled | HttpDown | ManagerAwaited | CronStopped | QueueClosing | QueueClosed | Exited

  /** `Manager.Run`: watching, in `wg.Wait()`, returned. */
  datatype Watcher = Watching | Waiting | Done

  type Goroutine = nat

  /** A tailer: started; reading a stream (the previous instance's or the live one); having
      enqueued a line that it now publishes; in `resolveMarker`; at the top of its loop; gone. */
  datatype Tailer = Fresh | Reading(previous: bool) | Publishing(line: LogLine, previous: bool) | Resolving | Top | Gone

  datatype System = System(main: Main, cancelled: bool, watcher: Watcher,
                           tailers: map<Goroutine, Tailer>, stopped: set<Goroutine>, wg: set<Goroutine>,
                           queue: Queue, zone: string, disk: Disk,
                           lateEnqueue: bool, lateFlush: bool)

  datatype Event =
    | Signal | ShutdownHttp | AwaitManager | StopCron | CloseQueue | AwaitQueue | CloseStore
    | SeeCancelled | WaitReturns
    | Spawn(g: Goroutine)
    | StopTailer(g: Goroutine)
    | OpenPrevious(g: Goroutine, ok: bool)
    | Enqueue(g: Goroutine, line: LogLine)
    | Publish(g: Goroutine)
    | EndStream(g: Goroutine)
    | Resolve(g: Goroutine)
    | OpenLive(g: Goroutine, ok: bool)
    | Leave(g: Goroutine)
    | Loop(e: QueueSteps.Event)
    | Insert(ok: bool, disk: Disk, done: set<string>)

  function New(size: nat, zone: string, disk: Disk): System {
    System(Serving, false, Watching, map[], {}, {}, QueueSteps.New(size), zone, disk, false, false)
  }

  /** The tailer's context, a child of main's. */
  predicate ContextDone(s: System, g: Goroutine) { s.cancelled || g in s.stopped }

  predicate At(s: System, g: Goroutine, t: Tailer) { g in s.tailers && s.tailers[g] == t }

  function Move(s: System, g: Goroutine, t: Tailer): System { s.(tailers := s.tailers[g := t]) }

  function StepMain(s: System, e: Event): Option<System> {
    match e
    case Signal => if s.main.Serving? then Some(s.(main := Cancelled, cancelled := true)) else None
    case ShutdownHttp => if s.main.Cancelled? then Some(s.(main := HttpDown)) else None
    case AwaitManager => if s.main.HttpDown? && s.watcher.Done? then Some(s.(main := ManagerAwaited)) else None
    case StopCron => if s.main.ManagerAwaited? then Some(s.(main := CronStopped)) else None
    case CloseQueue =>
      if s.main.CronStopped? && QueueSteps.Step(s.queue, Close).Some?
      then Some(s.(main := QueueClosing, queue := QueueSteps.Step(s.queue, Close).value)) else None
    case AwaitQueue => if s.main.QueueClosing? && s.queue.pc.Stopped? then Some(s.(main := QueueClosed)) else None
    case CloseStore => if s.main.QueueClosed? then Some(s.(main := Exited)) else None
    case SeeCancelled => if s.watcher.Watching? && s.cancelled then Some(s.(watcher := Waiting)) else None
    case WaitReturns => if s.watcher.Waiting? && s.wg == {} then Some(s.(watcher := Done)) else None
    case _ => None
  }

  /** Informer callbacks can start tailers at any time, even after `wg.Wait()` has returned; a
      stream can be opened only while the tailer's context is not done. */
  function StepTailer(s: System, e: Event): Option<System> {
    match e
    case Spawn(g) => if g in s.tailers then None else Some(Move(s, g, Fresh).(wg := s.wg + {g}))
    case StopTailer(g) => Some(s.(stopped := s.stopped + {g}))
    case OpenPrevious(g, ok) =>
      if !At(s, g, Fresh) || (ok && ContextDone(s, g)) then None
      else Some(Move(s, g, if ok then Reading(true) else Resolving))
    case Enqueue(g, l) => StepEnqueue(s, g, l)
    case Publish(g) =>
      if g in s.tailers && s.tailers[g].Publishing? then Some(Move(s, g, Reading(s.tailers[g].previous))) else None
    case EndStream(g) =>
      if g in s.tailers && s.tailers[g].Reading?
      then Some(Move(s, g, if s.tailers[g].previous then Resolving else Top)) else None
    case Resolve(g) => if At(s, g, Resolving) then Some(Move(s, g, Top)) else None
    case OpenLive(g, ok) =>
      if !At(s, g, Top) || (ok && ContextDone(s, g)) then None
      else if ok then Some(Move(s, g, Reading(false))) else Some(s)
    case Leave(g) =>
      if At(s, g, Top) && ContextDone(s, g) then Some(Move(s, g, Gone).(wg := s.wg - {g})) else None
    case _ => None
  }

  /** `fanoutSink.Enqueue`: the queue first. */
  function StepEnqueue(s: System, g: Goroutine, l: LogLine): Option<System> {
    if g !in s.tailers || !s.tailers[g].Reading? || QueueSteps.Step(s.queue, Offer(l)).None? then None
    else Some(Move(s, g, Publishing(l, s.tailers[g].previous)).(
                queue := QueueSteps.Step(s.queue, Offer(l)).value, lateEnqueue := s.lateEnqueue || s.queue.done))
  }

  predicate IsLoop(e: QueueSteps.Event) { !e.Offer? && !e.Close? && !e.Commit? }

  ghost function Step(s: System, e: Event): Option<System> {
    match e
    case Loop(q) =>
      if IsLoop(q) && QueueSteps.Step(s.queue, q).Some?
      then Some(s.(queue := QueueSteps.Step(s.queue, q).value)) else None
    case Insert(ok, disk, done) => StepInsert(s, ok, disk, done)
    case _ => if StepMain(s, e).Some? then StepMain(s, e) else StepTailer(s, e)
  }

  /** `InsertBatch` by the loop, with any outcome that is possible for it. */
  ghost function StepInsert(s: System, ok: bool, disk: Disk, done: set<string>): Option<System> {
    if !s.queue.pc.Inserting? then None else
    var entries := Entries(s.zone, s.queue.pc.batch);
    if Inserted(s.disk, disk, entries, done) && done <= Dates(entries) && (ok <==> done == Dates(entries)) then
      Some(s.(queue := QueueSteps.Step(s.queue, Commit(ok)).value, disk := disk,
              lateFlush := s.lateFlush || s.main.Exited?))
    else None
  }

  // ---- control ----

  predicate Reads(t: Tailer) { t.Reading? || t.Publishing? }

  function Rank(m: Main): nat {
    match m
    case Serving => 0
    case Cancelled => 1
    case HttpDown => 2
    case ManagerAwaited => 3
    case CronStopped => 4
    case QueueClosing => 5
    case QueueClosed => 6
    case Exited => 7
  }

  /** Nobody reads a stream once `Run` has returned, which is awaited before the queue is closed,
      which is awaited before the store is closed. */
  ghost predicate Control(s: System) {
    && (s.cancelled <==> Rank(s.main) >= 1)
    && (!s.watcher.Watching? ==> s.cancelled)
    && (Rank(s.main) >= 3 ==> s.watcher.Done?)
    && (s.queue.done <==> Rank(s.main) >= 5)
    && (Rank(s.main) >= 6 ==> s.queue.pc.Stopped?)
    && (forall g :: g in s.tailers && !s.tailers[g].Gone? ==> g in s.wg)
    && (forall g :: g in s.wg ==> g in s.tailers && !s.tailers[g].Gone?)
    && (s.watcher.Done? ==> forall g :: g in s.tailers ==> !Reads(s.tailers[g]))
    && !s.lateEnqueue && !s.lateFlush
  }

  lemma MainKeepsControl(s: System, e: Event)
    requires Control(s) && StepMain(s, e).Some?
    ensures Control(StepMain(s, e).value)
  {
  }

  lemma TailerKeepsControl(s: System, e: Event)
    requires Control(s) && !e.Enqueue? && StepTailer(s, e).Some?
    ensures Control(StepTailer(s, e).value)
  {
  }

  lemma EnqueueKeepsControl(s: System, g: Goroutine, l: LogLine)
    requires Control(s) && StepEnqueue(s, g, l).Some?
    ensures Control(StepEnqueue(s, g, l).value) && !s.queue.done
  {
  }

  lemma LoopKeepsControl(s: System, q: QueueSteps.Event)
    requires Control(s) && IsLoop(q) && QueueSteps.Step(s.queue, q).Some?
    ensures Control(s.(queue := QueueSteps.Step(s.queue, q).value))
  {
  }

  lemma InsertKeepsControl(s: System, ok: bool, disk: Disk, done: set<string>)
    requires Control(s) && StepInsert(s, ok, disk, done).Some?
    ensures Control(StepInsert(s, ok, disk, done).value)
  {
  }

  lemma StepKeepsControl(s: System, e: Event)
    requires Control(s) && Step(s, e).Some?
    ensures Control(Step(s, e).value)
  {
    match e
    case Loop(q) => LoopKeepsControl(s, q);
    case Insert(ok, disk, done) => InsertKeepsControl(s, ok, disk, done);
    case Enqueue(g, l) => EnqueueKeepsControl(s, g, l);
    case _ => if StepMain(s, e).Some? { MainKeepsControl(s, e); } else { TailerKeepsControl(s, e); }
  }

  // ---- the queue ----

  ghost predicate QueueOk(q: Queue) { Inv(q) && (q.done ==> Settled(q, q.accepted)) }

  lemma QueueStepOk(q: Queue, e: QueueSteps.Event)
    requires QueueOk(q) && QueueSteps.Step(q, e).Some? && (e.Offer? ==> !q.done)
    ensures QueueOk(QueueSteps.Step(q, e).value)
  {
    StepKeepsInv(q, e);
    if e.Close? { ClosedSettled(q); }
    else if q.done { StepKeepsSettled(q, e); }
  }

  /** What an event of the whole system is for the queue. */
  function QueueEvent(e: Event): Option<QueueSteps.Event> {
    match e
    case CloseQueue => Some(Close)
    case Enqueue(_, l) => Some(Offer(l))
    case Loop(q) => Some(q)
    case Insert(ok, _, _) => Some(Commit(ok))
    case _ => None
  }

  lemma QueueOf(s: System, e: Event)
    requires Step(s, e).Some?
    ensures QueueEvent(e).None? ==> Step(s, e).value.queue == s.queue
    ensures QueueEvent(e).Some? ==> QueueSteps.Step(s.queue, QueueEvent(e).value) == Some(Step(s, e).value.queue)
  {
  }

  lemma NoLateOffer(s: System, e: Event)
    requires Control(s) && Step(s, e).Some? && QueueEvent(e).Some? && QueueEvent(e).value.Offer?
    ensures !s.queue.done
  {
    match e
    case Enqueue(g, l) => EnqueueKeepsControl(s, g, l);
    case _ =>
  }

  lemma StepKeepsQueueOk(s: System, e: Event, q: Queue, q': Queue)
    requires Control(s) && Step(s, e).Some? && q == s.queue && q' == Step(s, e).value.queue
    requires QueueOk(q)
    ensures QueueOk(q')
  {
    QueueOf(s, e);
    if QueueEvent(e).Some? {
      if QueueEvent(e).value.Offer? { NoLateOffer(s, e); }
      QueueStepOk(q, QueueEvent(e).value);
    }
  }

  // ---- the store ----

  /** The day's table has gained exactly these lines of that day, in order. */
  ghost predicate StoredOn(zone: string, before: Disk, after: Disk, lines: seq<LogLine>, date: string) {
    Contents(TableAt(after, date)) == Contents(TableAt(before, date)) + Group(Entries(zone, lines), date)
  }

  lemma GroupCons(x: Entry, rest: seq<Entry>, date: string)
    ensures Group([x] + rest, date) == (if x.date == date then [x.content] else []) + Group(rest, date)
  {
    assert ([x] + rest)[1..] == rest;
  }

  lemma Assoc(a: seq<Content>, b: seq<Content>, c: seq<Content>)
    ensures a + (b + c) == a + b + c && [] + a == a
  {
  }

  lemma {:induction false} GroupConcat(a: seq<Entry>, b: seq<Entry>, date: string)
    ensures Group(a + b, date) == Group(a, date) + Group(b, date)
  {
    if a == [] {
      assert a + b == b;
      Assoc(Group(b, date), [], []);
    } else {
      var x, rest := a[0], a[1..];
      GroupConcat(rest, b, date);
      assert a == [x] + rest && a + b == [x] + (rest + b);
      GroupCons(x, rest, date);
      GroupCons(x, rest + b, date);
      Assoc(if x.date == date then [x.content] else [], Group(rest, date), Group(b, date));
    }
  }

  lemma EntriesConcat(zone: string, a: seq<LogLine>, b: seq<LogLine>)
    ensures Entries(zone, a + b) == Entries(zone, a) + Entries(zone, b)
  {
  }

  lemma GroupOfConcat(zone: string, a: seq<LogLine>, b: seq<LogLine>, date: string)
    ensures Group(Entries(zone, a + b), date) == Group(Entries(zone, a), date) + Group(Entries(zone, b), date)
  {
    EntriesConcat(zone, a, b);
    GroupConcat(Entries(zone, a), Entries(zone, b), date);
  }

  /** The rows a batch adds to a day: all of its lines of that day or none. */
  lemma BatchOn(before: Disk, after: Disk, entries: seq<Entry>, done: set<string>, date: string)
    requires Inserted(before, after, entries, done) && done <= Dates(entries) && IdsAscend(TableAt(before, date))
    ensures IdsAscend(TableAt(after, date))
    ensures Contents(TableAt(after, date))
         == Contents(TableAt(before, date)) + (if date in done then Group(entries, date) else [])
    ensures date in Dates(entries) <==> Group(entries, date) != []
  {
    GroupEmpty(entries, date);
    if date in done {
      AppendAdds(TableAt(before, date), Group(entries, date));
    } else {
      assert TableAt(after, date) == TableAt(before, date);
      assert Contents(TableAt(before, date)) + [] == Contents(TableAt(before, date));
    }
  }

  predicate AllOk(batches: seq<Batch>) { forall i :: 0 <= i < |batches| ==> batches[i].ok }

  /** What is known of one day after some batches: row ids ascend, rows are missing or not. */
  ghost predicate DayOk(zone: string, before: Disk, after: Disk, lines: seq<LogLine>, date: string) {
    && IdsAscend(TableAt(after, date))
    && |TableAt(after, date)| <= |TableAt(before, date)| + |Group(Entries(zone, lines), date)|
  }

  /** Some row of the day is missing. */
  ghost predicate Short(zone: string, before: Disk, after: Disk, lines: seq<LogLine>, date: string) {
    |TableAt(after, date)| < |TableAt(before, date)| + |Group(Entries(zone, lines), date)|
  }

  ghost predicate StoredAll(zone: string, before: Disk, after: Disk, lines: seq<LogLine>) {
    forall date: string :: StoredOn(zone, before, after, lines, date)
  }

  ghost predicate SomeShort(zone: string, before: Disk, after: Disk, lines: seq<LogLine>) {
    exists date: string :: Short(zone, before, after, lines, date)
  }

  ghost predicate StoreOk(zone: string, before: Disk, after: Disk, batches: seq<Batch>) {
    && (forall date: string :: DayOk(zone, before, after, Lines(batches), date))
    && (AllOk(batches) ==> StoredAll(zone, before, after, Lines(batches)))
    && (!AllOk(batches) ==> SomeShort(zone, before, after, Lines(batches)))
  }

  lemma Gains(before: seq<Content>, mid: seq<Content>, after: seq<Content>,
              old': seq<Content>, added: seq<Content>, all: seq<Content>, done: bool)
    requires after == mid + (if done then added else []) && all == old' + added
    ensures |mid| <= |before| + |old'| ==> |after| <= |before| + |all|
    ensures |mid| < |before| + |old'| ==> |after| < |before| + |all|
    ensures |mid| <= |before| + |old'| && !done && added != [] ==> |after| < |before| + |all|
    ensures mid == before + old' && (done || added == []) ==> after == before + all
  {
    assert before + old' + added == before + (old' + added) && mid + [] == mid;
  }

  lemma DayMore(zone: string, before: Disk, mid: Disk, after: Disk, lines: seq<LogLine>, batch: seq<LogLine>,
                entries: seq<Entry>, done: set<string>, date: string)
    requires DayOk(zone, before, mid, lines, date) && entries == Entries(zone, batch)
    requires Inserted(mid, after, entries, done) && done <= Dates(entries)
    ensures DayOk(zone, before, after, lines + batch, date)
    ensures (date in done || date !in Dates(entries)) && StoredOn(zone, before, mid, lines, date)
        ==> StoredOn(zone, before, after, lines + batch, date)
    ensures Short(zone, before, mid, lines, date) ==> Short(zone, before, after, lines + batch, date)
    ensures date in Dates(entries) - done ==> Short(zone, before, after, lines + batch, date)
  {
    BatchOn(mid, after, entries, done, date);
    GroupOfConcat(zone, lines, batch, date);
    Gains(Contents(TableAt(before, date)), Contents(TableAt(mid, date)), Contents(TableAt(after, date)),
          Group(Entries(zone, lines), date), Group(entries, date), Group(Entries(zone, lines + batch), date),
          date in done);
  }

  lemma StoreMore(zone: string, before: Disk, mid: Disk, after: Disk, batches: seq<Batch>, batch: seq<LogLine>,
                  ok: bool, done: set<string>)
    requires StoreOk(zone, before, mid, batches) && Inserted(mid, after, Entries(zone, batch), done)
    requires done <= Dates(Entries(zone, batch)) && (ok <==> done == Dates(Entries(zone, batch)))
    ensures StoreOk(zone, before, after, batches + [Batch(batch, ok)])
  {
    var batches', lines := batches + [Batch(batch, ok)], Lines(batches);
    LinesMore(batches, Batch(batch, ok));
    assert Lines(batches') == lines + batch;
    assert AllOk(batches') <==> AllOk(batches) && ok by {
      assert AllOk(batches') ==> forall i :: 0 <= i < |batches| ==> batches[i] == batches'[i];
      assert batches'[|batches|].ok == ok;
    }
    forall date: string { DayMore(zone, before, mid, after, lines, batch, Entries(zone, batch), done, date); }
    if !AllOk(batches) {
      var date: string :| Short(zone, before, mid, lines, date);
      assert Short(zone, before, after, lines + batch, date);
    } else if !ok {
      var date :| date in Dates(Entries(zone, batch)) - done;
      assert Short(zone, before, after, lines + batch, date);
    }
  }

  lemma ShortIsNotStored(zone: string, before: Disk, after: Disk, lines: seq<LogLine>)
    requires SomeShort(zone, before, after, lines)
    ensures !StoredAll(zone, before, after, lines)
  {
    var date: string :| Short(zone, before, after, lines, date);
    var a, b := Contents(TableAt(after, date)), Contents(TableAt(before, date)) + Group(Entries(zone, lines), date);
    assert |a| < |b|;
    assert !StoredOn(zone, before, after, lines, date);
  }

  // ---- every run ----

  lemma {:induction false} RunControl(size: nat, zone: string, disk: Disk, events: seq<Event>)
    requires Exec(Step, New(size, zone, disk), events).Some?
    ensures Control(Exec(Step, New(size, zone, disk), events).value)
  {
    if events != [] {
      RunControl(size, zone, disk, events[..|events| - 1]);
      StepKeepsControl(Exec(Step, New(size, zone, disk), events[..|events| - 1]).value, events[|events| - 1]);
    }
  }

  lemma {:induction false} RunQueueOk(size: nat, zone: string, disk: Disk, events: seq<Event>)
    requires size > 0 && Exec(Step, New(size, zone, disk), events).Some?
    ensures QueueOk(Exec(Step, New(size, zone, disk), events).value.queue)
  {
    if events != [] {
      var init, e := events[..|events| - 1], events[|events| - 1];
      var s := Exec(Step, New(size, zone, disk), init).value;
      RunQueueOk(size, zone, disk, init);
      RunControl(size, zone, disk, init);
      StepKeepsQueueOk(s, e, s.queue, Step(s, e).value.queue);
    }
  }

  lemma MainSameDisk(s: System, e: Event)
    requires StepMain(s, e).Some?
    ensures StepMain(s, e).value.disk == s.disk && StepMain(s, e).value.zone == s.zone
  {
  }

  lemma TailerSameDisk(s: System, e: Event)
    requires StepTailer(s, e).Some?
    ensures StepTailer(s, e).value.disk == s.disk && StepTailer(s, e).value.zone == s.zone
  {
  }

  lemma SameDisk(s: System, e: Event)
    requires Step(s, e).Some? && !e.Insert?
    ensures Step(s, e).value.disk == s.disk && Step(s, e).value.zone == s.zone
  {
    if !e.Loop? {
      if StepMain(s, e).Some? { MainSameDisk(s, e); } else { TailerSameDisk(s, e); }
    }
  }

  lemma NoCommit(s: System, e: Event)
    requires Step(s, e).Some? && !e.Insert? && QueueEvent(e).Some?
    ensures !QueueEvent(e).value.Commit?
  {
  }

  lemma SameStore(s: System, e: Event, s': System)
    requires Step(s, e) == Some(s') && !e.Insert?
    ensures s'.disk == s.disk && s'.zone == s.zone && s'.queue.batches == s.queue.batches
  {
    SameDisk(s, e);
    QueueOf(s, e);
    if QueueEvent(e).Some? {
      NoCommit(s, e);
      BatchesKept(s.queue, QueueEvent(e).value);
    }
  }

  lemma InsertStores(s: System, ok: bool, disk: Disk, done: set<string>, s': System)
    requires Step(s, Insert(ok, disk, done)) == Some(s')
    ensures s.queue.pc.Inserting? && s'.disk == disk && s'.zone == s.zone
    ensures s'.queue.batches == s.queue.batches + [Batch(s.queue.pc.batch, ok)]
    ensures Inserted(s.disk, disk, Entries(s.zone, s.queue.pc.batch), done)
    ensures done <= Dates(Entries(s.zone, s.queue.pc.batch))
    ensures ok <==> done == Dates(Entries(s.zone, s.queue.pc.batch))
  {
  }

  lemma InsertKeepsStoreOk(s: System, ok: bool, disk: Disk, done: set<string>, s': System, before: Disk)
    requires Step(s, Insert(ok, disk, done)) == Some(s')
    requires StoreOk(s.zone, before, s.disk, s.queue.batches)
    ensures s'.zone == s.zone && StoreOk(s.zone, before, s'.disk, s'.queue.batches)
  {
    InsertStores(s, ok, disk, done, s');
    StoreMore(s.zone, before, s.disk, disk, s.queue.batches, s.queue.pc.batch, ok, done);
  }

  lemma NothingStored(zone: string, disk: Disk)
    requires forall date: string :: IdsAscend(TableAt(disk, date))
    ensures StoreOk(zone, disk, disk, [])
  {
    forall date: string ensures DayOk(zone, disk, disk, [], date) && StoredOn(zone, disk, disk, [], date) {
      assert Group(Entries(zone, []), date) == [];
      assert Contents(TableAt(disk, date)) + [] == Contents(TableAt(disk, date));
    }
  }

  lemma {:induction false} RunStoreOk(size: nat, zone: string, disk: Disk, events: seq<Event>)
    requires forall date: string :: IdsAscend(TableAt(disk, date))
    requires Exec(Step, New(size, zone, disk), events).Some?
    ensures var s := Exec(Step, New(size, zone, disk), events).value;
      s.zone == zone && StoreOk(zone, disk, s.disk, s.queue.batches)
  {
    if events == [] {
      NothingStored(zone, disk);
    } else {
      var init, e := events[..|events| - 1], events[|events| - 1];
      RunStoreOk(size, zone, disk, init);
      var mid := Exec(Step, New(size, zone, disk), init).value;
      if e.Insert? {
        InsertKeepsStoreOk(mid, e.ok, e.disk, e.done, Step(mid, e).value, disk);
      } else {
        SameStore(mid, e, Step(mid, e).value);
      }
    }
  }

  /** In no run does anyone enqueue after `queue.Close` has begun, or the loop insert after
      `store.Close`: once the queue is being closed no tailer has a stream. */
  lemma NothingIsLate(size: nat, zone: string, disk: Disk, events: seq<Event>, s: System)
    requires Exec(Step, New(size, zone, disk), events) == Some(s)
    ensures !s.lateEnqueue && !s.lateFlush
    ensures s.queue.done ==> forall g :: g in s.tailers ==> !Reads(s.tailers[g])
    ensures s.main.Exited? ==> s.queue.pc.Stopped?
  {
    RunControl(size, zone, disk, events);
  }

  /** When the program has exited every accepted line has been handed to the store; and every
      day's table has gained exactly the accepted lines of that day, in the order they were
      accepted, if and only if every insert succeeded. */
  lemma AcceptedMeansStored(size: nat, zone: string, disk: Disk, events: seq<Event>, s: System)
    requires size > 0 && forall date: string :: IdsAscend(TableAt(disk, date))
    requires Exec(Step, New(size, zone, disk), events) == Some(s) && s.main.Exited?
    ensures Lines(s.queue.batches) == s.queue.accepted && s.queue.channel == []
    ensures AllOk(s.queue.batches) <==> StoredAll(zone, disk, s.disk, s.queue.accepted)
  {
    ExitedIsFlushed(size, zone, disk, events, s);
    RunStoreOk(size, zone, disk, events);
    if !AllOk(s.queue.batches) { ShortIsNotStored(zone, disk, s.disk, Lines(s.queue.batches)); }
  }

  lemma ExitedIdsAscend(size: nat, zone: string, disk: Disk, events: seq<Event>, s: System)
    requires forall date: string :: IdsAscend(TableAt(disk, date))
    requires Exec(Step, New(size, zone, disk), events) == Some(s)
    ensures forall date: string :: IdsAscend(TableAt(s.disk, date))
  {
    RunStoreOk(size, zone, disk, events);
    forall date: string ensures IdsAscend(TableAt(s.disk, date)) {
      assert DayOk(zone, disk, s.disk, Lines(s.queue.batches), date);
    }
  }

  lemma ExitedIsFlushed(size: nat, zone: string, disk: Disk, events: seq<Event>, s: System)
    requires size > 0 && Exec(Step, New(size, zone, disk), events) == Some(s) && s.main.Exited?
    ensures Lines(s.queue.batches) == s.queue.accepted && s.queue.channel == []
  {
    NothingIsLate(size, zone, disk, events, s);
    RunControl(size, zone, disk, events);
    RunQueueOk(size, zone, disk, events);
    AllFlushed(s.queue);
  }

  lemma AllFlushed(q: Queue)
    requires QueueOk(q) && q.done && q.pc.Stopped?
    ensures Lines(q.batches) == q.accepted && q.channel == []
  {
    SettledIsFlushed(q);
  }

  // ---- shutdown does not get stuck ----

  /** A step of the shutdown: no new tailer, stream or line, and no waiting. */
  predicate Winding(e: Event) {
    match e
    case Signal | Spawn(_) | StopTailer(_) | Enqueue(_, _) | OpenLive(_, _) => false
    case OpenPrevious(_, ok) => !ok
    case Loop(q) => !q.Receive? && !q.Tick?
    case _ => true
  }

  lemma TailerCanWind(s: System, g: Goroutine) returns (e: Event)
    requires Control(s) && s.cancelled && g in s.wg
    ensures Winding(e) && StepTailer(s, e).Some? && StepMain(s, e).None? && !e.Insert?
  {
    match s.tailers[g]
    case Fresh => e := OpenPrevious(g, false);
    case Reading(_) => e := EndStream(g);
    case Publishing(_, _) => e := Publish(g);
    case Resolving => e := Resolve(g);
    case Top => e := Leave(g);
  }

  lemma LoopCanWind(q: Queue) returns (x: QueueSteps.Event)
    requires q.done && !q.pc.Stopped? && !q.pc.Inserting?
    ensures QueueSteps.Step(q, x).Some? && IsLoop(x) && Winding(Loop(x))
  {
    match q.pc
    case Select => x := SeeDone;
    case Received(_) | Drained(_) => x := Append;
    case Flush(_) => x := Swap;
    case Draining => x := Poll;
  }

  /** While the loop inserts a batch, whatever `InsertBatch` can do with it is possible, and nothing
      else: whole dates are committed, and success is having committed all of them. */
  lemma InsertIsPossible(s: System, ok: bool, disk: Disk, done: set<string>)
    ensures Step(s, Insert(ok, disk, done)).Some?
       <==> s.queue.pc.Inserting? && Inserted(s.disk, disk, Entries(s.zone, s.queue.pc.batch), done)
            && done <= Dates(Entries(s.zone, s.queue.pc.batch))
            && (ok <==> done == Dates(Entries(s.zone, s.queue.pc.batch)))
    ensures Step(s, Insert(ok, disk, done)).Some? ==>
      var s' := Step(s, Insert(ok, disk, done)).value;
      s'.disk == disk && s'.queue.batches == s.queue.batches + [Batch(s.queue.pc.batch, ok)]
  {
  }

  /** There is room in the store for every line that has been accepted and not been inserted, and for
      so many more. */
  ghost predicate HasSpace(s: System, extra: nat) {
    |Lines(s.queue.batches)| <= |s.queue.accepted|
    && RoomFor(s.disk, |s.queue.accepted| - |Lines(s.queue.batches)| + extra)
  }

  lemma InFlightIsLeft(q: Queue)
    requires InOrder(q) && q.pc.Inserting?
    ensures |Lines(q.batches)| + |q.pc.batch| <= |q.accepted|
  {
  }

  lemma LessRoom(disk: Disk, n: nat, m: nat)
    requires RoomFor(disk, n) && m <= n
    ensures RoomFor(disk, m)
  {
    forall date: string ensures RoomIn(TableAt(disk, date), m) { assert RoomIn(TableAt(disk, date), n); }
  }

  /** With room in the store the insert can succeed. */
  lemma BatchCanBeStored(s: System, extra: nat) returns (disk: Disk, done: set<string>)
    requires InOrder(s.queue) && s.queue.pc.Inserting? && HasSpace(s, extra)
    ensures StepInsert(s, true, disk, done).Some?
  {
    var entries := Entries(s.zone, s.queue.pc.batch);
    InFlightIsLeft(s.queue);
    LessRoom(s.disk, |s.queue.accepted| - |Lines(s.queue.batches)| + extra, |entries|);
    done := Dates(entries);
    disk := InsertCanSucceed(s.disk, entries, done);
  }

  lemma InsertKeepsSpace(s: System, ok: bool, disk: Disk, done: set<string>, s': System,
                          extra: nat)
    requires Step(s, Insert(ok, disk, done)) == Some(s') && InOrder(s.queue) && HasSpace(s, extra)
    ensures HasSpace(s', extra)
  {
    InsertStores(s, ok, disk, done, s');
    InFlightIsLeft(s.queue);
    LinesMore(s.queue.batches, Batch(s.queue.pc.batch, ok));
    InsertLeavesRoom(s.disk, disk, Entries(s.zone, s.queue.pc.batch), done,
                     |s.queue.accepted| - |Lines(s.queue.batches)| + extra);
  }

  /** No insert has failed, and there is room for what is left and so many more. */
  ghost predicate Storing(s: System, extra: nat) { AllOk(s.queue.batches) && HasSpace(s, extra) }

  lemma SameAccepted(q: Queue, e: QueueSteps.Event)
    requires QueueSteps.Step(q, e).Some? && !e.Offer?
    ensures QueueSteps.Step(q, e).value.accepted == q.accepted
  {
  }

  lemma AllOkMore(batches: seq<Batch>, b: Batch)
    ensures AllOk(batches + [b]) <==> AllOk(batches) && b.ok
  {
    assert AllOk(batches + [b]) ==> forall i :: 0 <= i < |batches| ==> batches[i] == (batches + [b])[i];
    assert (batches + [b])[|batches|] == b;
  }

  /** That stays so when nothing new comes and no insert fails. */
  lemma StepKeepsStoring(s: System, e: Event, s': System, extra: nat)
    requires Step(s, e) == Some(s') && !e.Enqueue? && InOrder(s.queue) && Storing(s, extra) && (e.Insert? ==> e.ok)
    ensures Storing(s', extra)
  {
    QueueOf(s, e);
    if e.Insert? {
      InsertStores(s, e.ok, e.disk, e.done, s');
      AllOkMore(s.queue.batches, Batch(s.queue.pc.batch, e.ok));
      InsertKeepsSpace(s, e.ok, e.disk, e.done, s', extra);
    } else {
      SameStore(s, e, s');
    }
    if QueueEvent(e).Some? {
      OnlyEnqueueOffers(s, e);
      SameAccepted(s.queue, QueueEvent(e).value);
    }
  }

  lemma OnlyEnqueueOffers(s: System, e: Event)
    requires Step(s, e).Some? && QueueEvent(e).Some?
    ensures QueueEvent(e).value.Offer? ==> e.Enqueue?
  {
  }

  /** An insert can always fail without having written anything. */
  lemma InsertCanFail(s: System)
    requires s.queue.pc.Inserting? && s.queue.pc.batch != []
    ensures StepInsert(s, false, s.disk, {}).Some?
  {
    var entries := Entries(s.zone, s.queue.pc.batch);
    assert entries[0].date in Dates(entries);
  }

  lemma QueueCanWind(s: System) returns (e: Event)
    requires Bounded(s.queue) && InOrder(s.queue) && s.queue.done && !s.queue.pc.Stopped?
    ensures Winding(e) && Step(s, e).Some? && (HasSpace(s, 0) && e.Insert? ==> e.ok)
  {
    if s.queue.pc.Inserting? && HasSpace(s, 0) {
      var disk, done := BatchCanBeStored(s, 0);
      e := Insert(true, disk, done);
    } else if s.queue.pc.Inserting? {
      InsertCanFail(s);
      e := Insert(false, s.disk, {});
    } else {
      var x := LoopCanWind(s.queue);
      e := Loop(x);
    }
  }

  lemma MainCanWind(s: System) returns (e: Event)
    requires Control(s) && s.cancelled && !s.main.Exited?
    requires s.watcher.Waiting? ==> s.wg == {}
    requires s.main.QueueClosing? ==> s.queue.pc.Stopped?
    ensures Winding(e) && StepMain(s, e).Some? && !e.Insert?
  {
    match s.main
    case Cancelled => e := ShutdownHttp;
    case HttpDown =>
      e := if s.watcher.Done? then AwaitManager else if s.watcher.Waiting? then WaitReturns else SeeCancelled;
    case ManagerAwaited => e := StopCron;
    case CronStopped => e := CloseQueue;
    case QueueClosing => e := AwaitQueue;
    case QueueClosed => e := CloseStore;
  }

  /** From the signal to the exit, in every run, the next step towards the exit is possible
      without anything new happening: every wait is for something that can still come. */
  lemma NeverStuck(size: nat, zone: string, disk: Disk, events: seq<Event>, s: System) returns (e: Event)
    requires size > 0 && Exec(Step, New(size, zone, disk), events) == Some(s)
    requires s.cancelled && !s.main.Exited?
    ensures Winding(e) && Step(s, e).Some? && (HasSpace(s, 0) && e.Insert? ==> e.ok)
  {
    RunControl(size, zone, disk, events);
    if s.watcher.Waiting? && s.wg != {} {
      var g :| g in s.wg;
      e := TailerCanWind(s, g);
    } else if s.main.QueueClosing? && !s.queue.pc.Stopped? {
      RunQueueOk(size, zone, disk, events);
      QueueBounded(s.queue);
      e := QueueCanWind(s);
    } else {
      e := MainCanWind(s);
    }
  }

  lemma QueueBounded(q: Queue)
    requires QueueOk(q)
    ensures Bounded(q) && InOrder(q)
  {
  }

  // ---- shutdown ends ----

  /** How many steps a tailer is from having gone, without new lines or streams. */
  function TailerSteps(t: Tailer): nat {
    match t
    case Gone => 0
    case Top => 1
    case Resolving => 2
    case Reading(previous) => if previous then 3 else 2
    case Fresh => 3
    case Publishing(_, previous) => if previous then 4 else 3
  }

  /** The tailers with at least k steps to go. */
  function Going(tailers: map<Goroutine, Tailer>, k: nat): set<Goroutine> {
    set g | g in tailers && TailerSteps(tailers[g]) >= k
  }

  function TailersSteps(tailers: map<Goroutine, Tailer>): nat {
    |Going(tailers, 1)| + |Going(tailers, 2)| + |Going(tailers, 3)| + |Going(tailers, 4)|
  }

  /** How many steps the loop is from having stopped, with nothing more in the channel than now. */
  function QueueDistance(q: Queue): nat {
    match q.pc
    case Stopped => 0
    case Draining => 3 + 2 * |q.channel|
    case Drained(_) => 4 + 2 * |q.channel|
    case Select => 4 + 2 * |q.channel|
    case Received(_) => 7 + 2 * |q.channel|
    case Inserting(_, next) => if next.Finish? then 1 else 5 + 2 * |q.channel|
    case Flush(next) => if next.Finish? then 2 else 6 + 2 * |q.channel|
  }

  function WatcherSteps(w: Watcher): nat { if w.Watching? then 2 else if w.Waiting? then 1 else 0 }

  /** How far the program is from its exit. */
  function Distance(s: System): nat {
    (7 - Rank(s.main)) + WatcherSteps(s.watcher) + TailersSteps(s.tailers) + QueueDistance(s.queue)
  }

  lemma GoingLess(tailers: map<Goroutine, Tailer>, g: Goroutine, t: Tailer, k: nat)
    requires g in tailers && TailerSteps(t) <= TailerSteps(tailers[g])
    ensures |Going(tailers[g := t], k)| <= |Going(tailers, k)|
    ensures TailerSteps(t) < k <= TailerSteps(tailers[g]) ==> |Going(tailers[g := t], k)| < |Going(tailers, k)|
  {
    if TailerSteps(t) < k <= TailerSteps(tailers[g]) {
      assert Going(tailers[g := t], k) == Going(tailers, k) - {g};
    } else {
      assert Going(tailers[g := t], k) == Going(tailers, k);
    }
  }

  lemma TailerMoves(tailers: map<Goroutine, Tailer>, g: Goroutine, t: Tailer)
    requires g in tailers && TailerSteps(t) < TailerSteps(tailers[g])
    ensures TailersSteps(tailers[g := t]) < TailersSteps(tailers)
  {
    GoingLess(tailers, g, t, 1);
    GoingLess(tailers, g, t, 2);
    GoingLess(tailers, g, t, 3);
    GoingLess(tailers, g, t, 4);
  }

  lemma MainWinds(s: System, e: Event)
    requires StepMain(s, e).Some?
    ensures Distance(StepMain(s, e).value) < Distance(s)
  {
  }

  lemma TailerWinds(s: System, e: Event)
    requires Winding(e) && StepTailer(s, e).Some?
    ensures Distance(StepTailer(s, e).value) < Distance(s)
  {
    var s' := StepTailer(s, e).value;
    TailerMoves(s.tailers, e.g, s'.tailers[e.g]);
  }

  lemma QueueWinds(q: Queue, x: QueueSteps.Event)
    requires QueueSteps.Step(q, x).Some? && (x.SeeDone? || x.Append? || x.Poll? || x.Swap? || x.Commit?)
    ensures QueueDistance(QueueSteps.Step(q, x).value) < QueueDistance(q)
  {
  }

  /** Every step of the shutdown brings the exit nearer. */
  lemma WindingNears(s: System, e: Event)
    requires Winding(e) && Step(s, e).Some?
    ensures Distance(Step(s, e).value) < Distance(s)
  {
    match e
    case Loop(x) => QueueWinds(s.queue, x);
    case Insert(ok, disk, done) => QueueWinds(s.queue, Commit(ok));
    case _ => if StepMain(s, e).Some? { MainWinds(s, e); } else { TailerWinds(s, e); }
  }

  predicate AllWinding(events: seq<Event>) { forall i :: 0 <= i < |events| ==> Winding(events[i]) }

  /** So there are no more such steps than that distance. */
  lemma {:induction false} WindingEnds(s: System, events: seq<Event>, s': System)
    requires Exec(Step, s, events) == Some(s') && AllWinding(events)
    ensures |events| + Distance(s') <= Distance(s)
  {
    if events != [] {
      var init, e := events[..|events| - 1], events[|events| - 1];
      var mid := Exec(Step, s, init).value;
      WindingEnds(s, init, mid);
      assert Winding(e);
      WindingNears(mid, e);
    }
  }

  /** Until the exit there is a next step of the shutdown, and it lessens the distance. */
  lemma OneStepNearer(size: nat, zone: string, disk: Disk, events: seq<Event>, s: System)
    returns (e: Event, next: System)
    requires size > 0 && Exec(Step, New(size, zone, disk), events) == Some(s) && s.cancelled && !s.main.Exited?
    ensures Winding(e) && Exec(Step, New(size, zone, disk), events + [e]) == Some(next)
    ensures next.cancelled && Distance(next) < Distance(s) && next.queue.accepted == s.queue.accepted
    ensures Storing(s, 0) ==> Storing(next, 0)
  {
    e := NeverStuck(size, zone, disk, events, s);
    next := Step(s, e).value;
    WindingAccepts(s, e);
    if Storing(s, 0) {
      RunQueueOk(size, zone, disk, events);
      QueueBounded(s.queue);
      StepKeepsStoring(s, e, next, 0);
    }
    WindingNears(s, e);
    StaysCancelled(s, e);
    ExecMore(Step, New(size, zone, disk), events, e);
  }

  lemma WindingAccepts(s: System, e: Event)
    requires Winding(e) && Step(s, e).Some?
    ensures Step(s, e).value.queue.accepted == s.queue.accepted
  {
    QueueOf(s, e);
    if QueueEvent(e).Some? {
      OnlyEnqueueOffers(s, e);
      SameAccepted(s.queue, QueueEvent(e).value);
    }
  }

  lemma WindingCons(e: Event, rest: seq<Event>, events: seq<Event>)
    requires Winding(e) && AllWinding(rest)
    ensures AllWinding([e] + rest) && events + ([e] + rest) == events + [e] + rest
  {
  }

  /** From the signal on the exit is reached from every state of every run by shutdown steps alone,
      whichever of them are taken: some step is possible until then (NeverStuck), and each one
      lessens the distance. If no insert has failed and there is room in the store, it is reached
      without one failing. */
  lemma {:induction false} ExitIsReached(size: nat, zone: string, disk: Disk, events: seq<Event>, s: System, d: nat)
    returns (more: seq<Event>, end: System)
    requires size > 0 && Exec(Step, New(size, zone, disk), events) == Some(s) && s.cancelled && d == Distance(s)
    ensures AllWinding(more) && Exec(Step, New(size, zone, disk), events + more) == Some(end) && end.main.Exited?
    ensures |more| <= d && end.queue.accepted == s.queue.accepted
    ensures Storing(s, 0) ==> AllOk(end.queue.batches)
    decreases d
  {
    if s.main.Exited? {
      more, end := [], s;
      assert events + more == events;
    } else {
      var e, next := OneStepNearer(size, zone, disk, events, s);
      var rest;
      rest, end := ExitIsReached(size, zone, disk, events + [e], next, Distance(next));
      more := [e] + rest;
      WindingCons(e, rest, events);
    }
  }

  lemma StaysCancelled(s: System, e: Event)
    requires s.cancelled && Step(s, e).Some?
    ensures Step(s, e).value.cancelled
  {
  }
}
