/** Live subscribers: each has a bounded channel, and publishing evicts the oldest line of a full
    one. A publish is up to three separate channel operations per subscriber; readers and
    unsubscribing callers run in between. */
module FanOut {
  import opened Text
  import opened Ingest
  import opened Runs
  import opened Shards

  const BUFFER := 256

  type Id = nat

  /** How a line left a subscriber's channel. */
  datatype Removal = Received(line: LogLine) | Evicted(line: LogLine)

  /** A subscriber's channel; whether the broadcaster's map holds it; and as history how much had
      been published when it subscribed, the lines sent to it, and those that left it. */
  datatype Sub = Sub(buf: seq<LogLine>, registered: bool, closed: bool,
                     from: nat, sent: seq<LogLine>, removed: seq<Removal>)

  /** Where `Publish`, which holds the mutex throughout, is in its loop. */
  datatype Publisher =
    | Idle
    | Ranging(line: LogLine, todo: set<Id>)
    | Evicting(line: LogLine, todo: set<Id>, ch: Id)
    | Retrying(line: LogLine, todo: set<Id>, ch: Id)

  datatype Fan = Fan(subs: map<Id, Sub>, publisher: Publisher, published: seq<LogLine>, panicked: bool)

  datatype Event =
    | Subscribe(id: Id)
    | Unregister(id: Id)
    | CloseChannel(id: Id)
    | Receive(id: Id)
    | Begin(line: LogLine)
    | Try(id: Id)
    | Evict
    | Retry
    | End

  const START := Fan(map[], Idle, [], false)

  function Send(s: Sub, l: LogLine): Sub { s.(buf := s.buf + [l], sent := s.sent + [l]) }

  function Take(s: Sub, how: Removal): Sub
    requires s.buf != []
  {
    s.(buf := s.buf[1..], removed := s.removed + [how])
  }

  /** Sending on a closed channel panics. */
  function SendTo(f: Fan, id: Id, l: LogLine, next: Publisher): Fan
    requires id in f.subs
  {
    if f.subs[id].closed then f.(panicked := true)
    else f.(subs := f.subs[id := Send(f.subs[id], l)], publisher := next)
  }

  function Registered(f: Fan): set<Id> { set id | id in f.subs && f.subs[id].registered }

  function Step(f: Fan, e: Event): Option<Fan> {
    match e
    case Subscribe(id) =>
      if f.publisher.Idle? && id !in f.subs
      then Some(f.(subs := f.subs[id := Sub([], true, false, |f.published|, [], [])])) else None
    case Unregister(id) =>
      if f.publisher.Idle? && id in f.subs && f.subs[id].registered
      then Some(f.(subs := f.subs[id := f.subs[id].(registered := false)])) else None
    case CloseChannel(id) =>
      if id in f.subs && !f.subs[id].registered && !f.subs[id].closed
      then Some(f.(subs := f.subs[id := f.subs[id].(closed := true)])) else None
    case Receive(id) =>
      if id in f.subs && f.subs[id].buf != []
      then Some(f.(subs := f.subs[id := Take(f.subs[id], Received(f.subs[id].buf[0]))])) else None
    case Begin(l) =>
      if f.publisher.Idle?
      then Some(f.(publisher := Ranging(l, Registered(f)), published := f.published + [l])) else None
    case Try(id) => StepTry(f, id)
    case Evict => StepEvict(f)
    case Retry => StepRetry(f)
    case End => if f.publisher.Ranging? && f.publisher.todo == {} then Some(f.(publisher := Idle)) else None
  }

  /** `case ch <- l` of the first select, or its default. */
  function StepTry(f: Fan, id: Id): Option<Fan> {
    if !f.publisher.Ranging? || id !in f.publisher.todo || id !in f.subs then None else
    var l, todo := f.publisher.line, f.publisher.todo - {id};
    if |f.subs[id].buf| < BUFFER || f.subs[id].closed then Some(SendTo(f, id, l, Ranging(l, todo)))
    else Some(f.(publisher := Evicting(l, todo, id)))
  }

  /** `case <-ch`, or nothing if the reader has emptied the channel meanwhile. */
  function StepEvict(f: Fan): Option<Fan> {
    if !f.publisher.Evicting? || f.publisher.ch !in f.subs then None else
    var id := f.publisher.ch;
    var s := f.subs[id];
    Some(f.(subs := if s.buf == [] then f.subs else f.subs[id := Take(s, Evicted(s.buf[0]))],
            publisher := Retrying(f.publisher.line, f.publisher.todo, id)))
  }

  /** `case ch <- l` of the last select; its default would lose the newest line. */
  function StepRetry(f: Fan): Option<Fan> {
    if !f.publisher.Retrying? || f.publisher.ch !in f.subs then None else
    var l, todo, id := f.publisher.line, f.publisher.todo, f.publisher.ch;
    if |f.subs[id].buf| < BUFFER || f.subs[id].closed then Some(SendTo(f, id, l, Ranging(l, todo)))
    else Some(f.(publisher := Ranging(l, todo)))
  }

  // ---- one subscriber ----

  /** Where the publish in progress, if any, is with one subscriber. */
  datatype Phase = Rest | Waiting | Full | Room

  function PhaseOf(p: Publisher, id: Id): Phase {
    if p.Idle? then Rest
    else if id in p.todo then Waiting
    else if p.Evicting? && p.ch == id then Full
    else if p.Retrying? && p.ch == id then Room
    else Rest
  }

  function Lines(removed: seq<Removal>): (lines: seq<LogLine>)
    ensures |lines| == |removed| && forall i :: 0 <= i < |removed| ==> lines[i] == removed[i].line
  {
    seq(|removed|, i requires 0 <= i < |removed| => removed[i].line)
  }

  predicate NeverReceived(s: Sub) { forall i :: 0 <= i < |s.removed| ==> s.removed[i].Evicted? }

  function Evictions(removed: seq<Removal>): nat {
    if removed == [] then 0
    else Evictions(removed[..|removed| - 1]) + (if removed[|removed| - 1].Evicted? then 1 else 0)
  }

  /** Every line sent is, in order, among those that left the channel or in the channel. */
  predicate Fifo(s: Sub) { s.sent == Lines(s.removed) + s.buf }

  /** What was sent is what was published since subscribing, as far as publishing has come. */
  predicate SentAll(s: Sub, published: seq<LogLine>, phase: Phase) {
    && s.from <= |published| && s.sent <= published[s.from..]
    && (s.registered ==> |s.sent| == |published| - s.from - (if phase == Rest then 0 else 1))
  }

  predicate Roomy(s: Sub, phase: Phase) {
    |s.buf| <= BUFFER && (phase == Room ==> |s.buf| < BUFFER)
  }

  /** A subscriber that has received nothing has the latest lines. */
  predicate HoldsLatest(s: Sub, phase: Phase) {
    NeverReceived(s) ==>
      && (phase == Full ==> |s.buf| == BUFFER)
      && s.buf == (if phase == Room then Latest(s.sent, BUFFER - 1) else Latest(s.sent, BUFFER))
      && (phase == Room ==> |s.sent| >= BUFFER)
  }

  predicate SubInv(s: Sub, published: seq<LogLine>, phase: Phase) {
    && Fifo(s) && SentAll(s, published, phase) && Roomy(s, phase) && HoldsLatest(s, phase)
    && (s.registered ==> !s.closed) && (phase != Rest ==> s.registered)
  }

  lemma SubBegin(s: Sub, published: seq<LogLine>, l: LogLine)
    requires SubInv(s, published, Rest)
    ensures SubInv(s, published + [l], if s.registered then Waiting else Rest)
  {
    assert (published + [l])[s.from..] == published[s.from..] + [l];
  }

  lemma SubSend(s: Sub, published: seq<LogLine>, phase: Phase)
    requires SubInv(s, published, phase) && phase != Rest && |s.buf| < BUFFER
    requires phase != Full
    ensures published != [] && SubInv(Send(s, published[|published| - 1]), published, Rest)
  {
    var n := |published| - s.from;
    assert |published[s.from..]| == n && |s.sent| == n - 1;
    var l := published[|published| - 1];
    assert published[s.from..][n - 1] == l;
    assert Lines(s.removed) + (s.buf + [l]) == Lines(s.removed) + s.buf + [l];
  }

  lemma SubEvict(s: Sub, published: seq<LogLine>)
    requires SubInv(s, published, Full)
    ensures s.buf == [] ==> SubInv(s, published, Room)
    ensures s.buf != [] ==> SubInv(Take(s, Evicted(s.buf[0])), published, Room)
  {
    if s.buf != [] { Taken(s, Evicted(s.buf[0])); }
  }

  lemma Taken(s: Sub, how: Removal)
    requires Fifo(s) && s.buf != [] && how.line == s.buf[0]
    ensures Fifo(Take(s, how))
    ensures Evictions(Take(s, how).removed) == Evictions(s.removed) + (if how.Evicted? then 1 else 0)
    ensures NeverReceived(Take(s, how)) <==> NeverReceived(s) && how.Evicted?
  {
    var s' := Take(s, how);
    assert s'.removed[..|s.removed|] == s.removed;
    assert Lines(s'.removed) == Lines(s.removed) + [s.buf[0]];
    assert s.buf == [s.buf[0]] + s'.buf;
    if NeverReceived(s') {
      forall i | 0 <= i < |s.removed| ensures s.removed[i].Evicted? { assert s'.removed[i].Evicted?; }
      assert s'.removed[|s.removed|].Evicted?;
    }
  }

  lemma SubReceive(s: Sub, published: seq<LogLine>, phase: Phase)
    requires SubInv(s, published, phase) && s.buf != []
    ensures SubInv(Take(s, Received(s.buf[0])), published, phase)
  {
    Taken(s, Received(s.buf[0]));
  }

  // ---- every run ----

  ghost predicate PublisherInv(f: Fan) {
    && (!f.publisher.Idle? ==>
          && f.published != [] && f.published[|f.published| - 1] == f.publisher.line
          && forall id :: id in f.publisher.todo ==> id in f.subs)
    && (f.publisher.Evicting? || f.publisher.Retrying? ==>
          f.publisher.ch in f.subs && f.publisher.ch !in f.publisher.todo)
  }

  /** Every subscriber satisfies inv. */
  ghost predicate All(inv: (Sub, seq<LogLine>, Phase) -> bool, f: Fan) {
    forall id :: id in f.subs ==> inv(f.subs[id], f.published, PhaseOf(f.publisher, id))
  }

  ghost predicate Inv(f: Fan) { !f.panicked && PublisherInv(f) && All(SubInv, f) }

  /** A step that changes one subscriber and leaves every other one's phase as it is. */
  lemma OneSub(inv: (Sub, seq<LogLine>, Phase) -> bool, f: Fan, f': Fan, id: Id)
    requires All(inv, f) && f'.published == f.published && id in f.subs
    requires id in f'.subs && f'.subs == f.subs[id := f'.subs[id]]
    requires inv(f'.subs[id], f.published, PhaseOf(f'.publisher, id))
    requires forall x :: x in f.subs && x != id ==> PhaseOf(f'.publisher, x) == PhaseOf(f.publisher, x)
    ensures All(inv, f')
  {
  }

  lemma BeginAll(inv: (Sub, seq<LogLine>, Phase) -> bool, f: Fan, f': Fan, l: LogLine)
    requires f.publisher.Idle? && f' == Step(f, Begin(l)).value
    requires forall id :: id in f.subs ==>
      inv(f.subs[id], f'.published, if f.subs[id].registered then Waiting else Rest)
    ensures All(inv, f')
  {
  }

  lemma BeginKeeps(f: Fan, l: LogLine)
    requires Inv(f) && f.publisher.Idle?
    ensures Inv(Step(f, Begin(l)).value)
  {
    forall id | id in f.subs
      ensures SubInv(f.subs[id], f.published + [l], if f.subs[id].registered then Waiting else Rest)
    {
      SubBegin(f.subs[id], f.published, l);
    }
    BeginAll(SubInv, f, Step(f, Begin(l)).value, l);
  }

  lemma SubTryFull(s: Sub, published: seq<LogLine>)
    requires SubInv(s, published, Waiting) && |s.buf| >= BUFFER
    ensures SubInv(s, published, Full)
  {
  }

  lemma OpenAndRoom(s: Sub, published: seq<LogLine>, phase: Phase)
    requires SubInv(s, published, phase)
    ensures phase != Rest ==> !s.closed && published != []
    ensures phase == Room ==> |s.buf| < BUFFER
  {
  }

  lemma TryAll(inv: (Sub, seq<LogLine>, Phase) -> bool, f: Fan, id: Id)
    requires All(inv, f) && PublisherInv(f) && !f.panicked && StepTry(f, id).Some? && !f.subs[id].closed
    requires |f.subs[id].buf| < BUFFER ==> inv(Send(f.subs[id], f.publisher.line), f.published, Rest)
    requires |f.subs[id].buf| >= BUFFER ==> inv(f.subs[id], f.published, Full)
    ensures var f' := StepTry(f, id).value; All(inv, f') && PublisherInv(f') && !f'.panicked
  {
    OneSub(inv, f, StepTry(f, id).value, id);
  }

  lemma TryKeeps(f: Fan, id: Id)
    requires Inv(f) && StepTry(f, id).Some?
    ensures Inv(StepTry(f, id).value)
  {
    var s := f.subs[id];
    OpenAndRoom(s, f.published, Waiting);
    if |s.buf| < BUFFER { SubSend(s, f.published, Waiting); } else { SubTryFull(s, f.published); }
    TryAll(SubInv, f, id);
  }

  lemma EvictAll(inv: (Sub, seq<LogLine>, Phase) -> bool, f: Fan, s: Sub)
    requires All(inv, f) && PublisherInv(f) && StepEvict(f).Some? && s == f.subs[f.publisher.ch]
    requires s.buf == [] ==> inv(s, f.published, Room)
    requires s.buf != [] ==> inv(Take(s, Evicted(s.buf[0])), f.published, Room)
    ensures var f' := StepEvict(f).value; All(inv, f') && PublisherInv(f')
  {
    OneSub(inv, f, StepEvict(f).value, f.publisher.ch);
  }

  lemma EvictKeeps(f: Fan)
    requires Inv(f) && StepEvict(f).Some?
    ensures Inv(StepEvict(f).value)
  {
    var s := f.subs[f.publisher.ch];
    SubEvict(s, f.published);
    EvictAll(SubInv, f, s);
  }

  lemma RetryAll(inv: (Sub, seq<LogLine>, Phase) -> bool, f: Fan, s: Sub)
    requires All(inv, f) && PublisherInv(f) && !f.panicked && StepRetry(f).Some? && s == f.subs[f.publisher.ch]
    requires !s.closed && |s.buf| < BUFFER && inv(Send(s, f.publisher.line), f.published, Rest)
    ensures var f' := StepRetry(f).value; All(inv, f') && PublisherInv(f') && !f'.panicked
  {
    OneSub(inv, f, StepRetry(f).value, f.publisher.ch);
  }

  lemma RetryKeeps(f: Fan)
    requires Inv(f) && StepRetry(f).Some?
    ensures Inv(StepRetry(f).value)
  {
    var s := f.subs[f.publisher.ch];
    OpenAndRoom(s, f.published, Room);
    SubSend(s, f.published, Room);
    RetryAll(SubInv, f, s);
  }

  /** The last select always finds room: the newest line is never the one that is lost. */
  lemma NewestIsSent(events: seq<Event>, f: Fan)
    requires Exec(Step, START, events) == Some(f) && f.publisher.Retrying?
    ensures var id := f.publisher.ch;
      id in f.subs && StepRetry(f).Some?
      && StepRetry(f).value.subs == f.subs[id := Send(f.subs[id], f.publisher.line)]
  {
    RunKeepsInv(events);
    OpenAndRoom(f.subs[f.publisher.ch], f.published, Room);
  }

  lemma ReceiveAll(inv: (Sub, seq<LogLine>, Phase) -> bool, f: Fan, id: Id, s: Sub)
    requires All(inv, f) && PublisherInv(f) && id in f.subs && s == f.subs[id] && s.buf != []
    requires inv(Take(s, Received(s.buf[0])), f.published, PhaseOf(f.publisher, id))
    ensures var f' := Step(f, Receive(id)).value; All(inv, f') && PublisherInv(f')
  {
    OneSub(inv, f, Step(f, Receive(id)).value, id);
  }

  lemma ReceiveKeeps(f: Fan, id: Id)
    requires Inv(f) && Step(f, Receive(id)).Some?
    ensures Inv(Step(f, Receive(id)).value)
  {
    var s := f.subs[id];
    SubReceive(s, f.published, PhaseOf(f.publisher, id));
    ReceiveAll(SubInv, f, id, s);
  }

  lemma SubscribeAll(inv: (Sub, seq<LogLine>, Phase) -> bool, f: Fan, id: Id)
    requires All(inv, f) && PublisherInv(f) && Step(f, Subscribe(id)).Some?
    requires inv(Sub([], true, false, |f.published|, [], []), f.published, Rest)
    ensures var f' := Step(f, Subscribe(id)).value; All(inv, f') && PublisherInv(f')
  {
  }

  lemma SubscribeKeeps(f: Fan, id: Id)
    requires Inv(f) && Step(f, Subscribe(id)).Some?
    ensures Inv(Step(f, Subscribe(id)).value)
  {
    var s := Sub([], true, false, |f.published|, [], []);
    assert SubInv(s, f.published, Rest);
    SubscribeAll(SubInv, f, id);
  }

  lemma UnsubscribeAll(inv: (Sub, seq<LogLine>, Phase) -> bool, f: Fan, e: Event, id: Id)
    requires All(inv, f) && PublisherInv(f) && (e == Unregister(id) || e == CloseChannel(id)) && Step(f, e).Some?
    requires inv(Step(f, e).value.subs[id], f.published, PhaseOf(f.publisher, id))
    ensures var f' := Step(f, e).value; All(inv, f') && PublisherInv(f')
  {
    OneSub(inv, f, Step(f, e).value, id);
  }

  lemma SubUnsubscribe(s: Sub, published: seq<LogLine>, phase: Phase)
    requires SubInv(s, published, phase)
    ensures phase == Rest ==> SubInv(s.(registered := false), published, phase)
    ensures !s.registered ==> SubInv(s.(closed := true), published, phase)
  {
  }

  lemma UnsubscribeKeeps(f: Fan, e: Event, id: Id)
    requires Inv(f) && (e == Unregister(id) || e == CloseChannel(id)) && Step(f, e).Some?
    ensures Inv(Step(f, e).value)
  {
    SubUnsubscribe(f.subs[id], f.published, PhaseOf(f.publisher, id));
    UnsubscribeAll(SubInv, f, e, id);
  }

  lemma EndAll(inv: (Sub, seq<LogLine>, Phase) -> bool, f: Fan)
    requires All(inv, f) && PublisherInv(f) && Step(f, End).Some?
    ensures var f' := Step(f, End).value; All(inv, f') && PublisherInv(f')
  {
    var f' := Step(f, End).value;
    forall x | x in f'.subs ensures inv(f'.subs[x], f'.published, PhaseOf(f'.publisher, x)) {
      assert inv(f.subs[x], f.published, PhaseOf(f.publisher, x));
    }
  }

  lemma StepKeepsInv(f: Fan, e: Event)
    requires Inv(f) && Step(f, e).Some?
    ensures Inv(Step(f, e).value)
  {
    match e
    case Receive(id) => ReceiveKeeps(f, id);
    case Begin(l) => BeginKeeps(f, l);
    case Try(id) => TryKeeps(f, id);
    case Evict => EvictKeeps(f);
    case Retry => RetryKeeps(f);
    case Subscribe(id) => SubscribeKeeps(f, id);
    case Unregister(id) => UnsubscribeKeeps(f, e, id);
    case CloseChannel(id) => UnsubscribeKeeps(f, e, id);
    case End => EndAll(SubInv, f);
  }

  /** In every run no send reaches a closed channel, and every subscriber satisfies SubInv: it
      loses lines only by eviction from the old end, at most one for each line sent. */
  lemma {:induction false} RunKeepsInv(events: seq<Event>)
    requires Exec(Step, START, events).Some?
    ensures Inv(Exec(Step, START, events).value)
  {
    if events != [] {
      RunKeepsInv(events[..|events| - 1]);
      StepKeepsInv(Exec(Step, START, events[..|events| - 1]).value, events[|events| - 1]);
    }
  }

  // ---- what a subscriber sees ----

  /** The lines the reader got. */
  function ReceivedLines(removed: seq<Removal>): seq<LogLine> {
    if removed == [] then []
    else (if removed[0].Received? then [removed[0].line] else []) + ReceivedLines(removed[1..])
  }

  /** Some of the lines, in the same order, each at most once. */
  predicate Subsequence(a: seq<LogLine>, b: seq<LogLine>) {
    a == [] || (b != [] && ((a[0] == b[0] && Subsequence(a[1..], b[1..])) || Subsequence(a, b[1..])))
  }

  lemma {:induction false} SubsequenceOfItself(a: seq<LogLine>)
    ensures Subsequence(a, a)
  {
    if a != [] { SubsequenceOfItself(a[1..]); }
  }

  lemma SubsequenceCons(x: LogLine, a: seq<LogLine>, b: seq<LogLine>)
    requires Subsequence(a, b)
    ensures Subsequence([x] + a, [x] + b) && Subsequence(a, [x] + b)
  {
    assert ([x] + a)[1..] == a && ([x] + b)[1..] == b;
  }

  lemma {:induction false} SubsequenceOfTaken(removed: seq<Removal>, buf: seq<LogLine>)
    ensures Subsequence(ReceivedLines(removed) + buf, Lines(removed) + buf)
  {
    if removed == [] {
      assert [] + buf == buf;
      SubsequenceOfItself(buf);
    } else {
      var r, rest := removed[0], removed[1..];
      SubsequenceOfTaken(rest, buf);
      SubsequenceCons(r.line, ReceivedLines(rest) + buf, Lines(rest) + buf);
      assert Lines(removed) == [r.line] + Lines(rest);
      Grouped(r.line, ReceivedLines(rest), buf);
      Grouped(r.line, Lines(rest), buf);
    }
  }

  lemma Grouped(x: LogLine, a: seq<LogLine>, b: seq<LogLine>)
    ensures [x] + a + b == [x] + (a + b) && [] + a == a
  {
  }

  lemma {:induction false} RemovalsCount(removed: seq<Removal>)
    ensures |ReceivedLines(removed)| + Evictions(removed) == |removed|
  {
    if removed != [] {
      RemovalsCount(removed[1..]);
      EvictionsFront(removed);
    }
  }

  lemma {:induction false} EvictionsFront(removed: seq<Removal>)
    requires removed != []
    ensures Evictions(removed) == (if removed[0].Evicted? then 1 else 0) + Evictions(removed[1..])
  {
    if |removed| > 1 {
      var init := removed[..|removed| - 1];
      EvictionsFront(init);
      assert removed[1..][..|removed| - 2] == init[1..];
    }
  }

  /** What was published since this subscriber came. */
  function PublishedSince(f: Fan, id: Id): seq<LogLine>
    requires id in f.subs
  {
    if f.subs[id].from <= |f.published| then f.published[f.subs[id].from..] else []
  }

  /** Whatever the interleaving, in the middle of a publish, and for subscribers that have left as
      well: what a subscriber has received and has buffered is a subsequence of the lines sent to
      it, which are the first of those published since it subscribed; and with the evicted lines it
      is exactly as many. */
  lemma Delivery(events: seq<Event>, f: Fan, id: Id)
    requires Exec(Step, START, events) == Some(f) && id in f.subs
    ensures var s := f.subs[id];
      && s.sent <= PublishedSince(f, id)
      && Subsequence(ReceivedLines(s.removed) + s.buf, s.sent)
      && |s.sent| == |ReceivedLines(s.removed)| + |s.buf| + Evictions(s.removed)
      && |s.buf| <= BUFFER
    ensures f.subs[id].registered && f.publisher.Idle? ==> f.subs[id].sent == PublishedSince(f, id)
  {
    RunKeepsInv(events);
    SubsequenceOfTaken(f.subs[id].removed, f.subs[id].buf);
    RemovalsCount(f.subs[id].removed);
  }

  /** No run sends on a closed channel. */
  lemma NeverPanics(events: seq<Event>, f: Fan)
    requires Exec(Step, START, events) == Some(f)
    ensures !f.panicked
  {
    RunKeepsInv(events);
  }

  /** A subscriber that has not read anything has exactly the latest 256 of the lines sent to it,
      or 255 of them while a publish has evicted one to make room. */
  lemma IdleReaderHasLatest(events: seq<Event>, f: Fan, id: Id)
    requires Exec(Step, START, events) == Some(f) && id in f.subs && ReceivedLines(f.subs[id].removed) == []
    ensures f.subs[id].buf
         == Latest(f.subs[id].sent, if PhaseOf(f.publisher, id) == Room then 255 else 256)
    ensures f.subs[id].registered && f.publisher.Idle? ==> f.subs[id].sent == PublishedSince(f, id)
  {
    RunKeepsInv(events);
    NothingReceived(f.subs[id].removed);
  }

  lemma {:induction false} NothingReceived(removed: seq<Removal>)
    requires ReceivedLines(removed) == []
    ensures forall i :: 0 <= i < |removed| ==> removed[i].Evicted?
  {
    if removed != [] { NothingReceived(removed[1..]); }
  }

  // ---- at most one eviction per publish ----

  /** How many lines the subscriber has lost by eviction. */
  function Lost(f: Fan, id: Id): nat
    requires id in f.subs
  {
    Evictions(f.subs[id].removed)
  }

  /** How many of these the publish in progress, or the last one, can have caused by now. */
  function Caused(phase: Phase): nat { if phase == Waiting || phase == Full then 0 else 1 }

  /** Nothing but the eviction step loses a line, and it loses one line of one subscriber. */
  lemma StepLoses(f: Fan, e: Event, f': Fan, id: Id)
    requires Step(f, e) == Some(f') && id in f.subs
    ensures id in f'.subs && Lost(f, id) <= Lost(f', id)
    ensures Lost(f', id) <= Lost(f, id) + (if e.Evict? && f.publisher.ch == id then 1 else 0)
  {
    if e.Receive? && e.id == id {
      EvictionsMore(f.subs[id].removed, Received(f.subs[id].buf[0]));
    } else if e.Evict? && f.publisher.ch == id && f.subs[id].buf != [] {
      EvictionsMore(f.subs[id].removed, Evicted(f.subs[id].buf[0]));
    }
  }

  lemma EvictionsMore(removed: seq<Removal>, r: Removal)
    ensures Evictions(removed + [r]) == Evictions(removed) + (if r.Evicted? then 1 else 0)
  {
    assert (removed + [r])[..|removed|] == removed;
  }

  lemma PhasesAdvance(f: Fan, e: Event, f': Fan, id: Id)
    requires PublisherInv(f) && Step(f, e) == Some(f') && !e.Begin? && id in f.subs
    ensures Caused(PhaseOf(f.publisher, id)) <= Caused(PhaseOf(f'.publisher, id))
    ensures e.Evict? && f.publisher.ch == id ==>
      Caused(PhaseOf(f.publisher, id)) == 0 && Caused(PhaseOf(f'.publisher, id)) == 1
  {
  }

  predicate NoBegin(events: seq<Event>) { forall i :: 0 <= i < |events| ==> !events[i].Begin? }

  lemma {:induction false} LosesAtMostOne(f0: Fan, rest: seq<Event>, f: Fan, id: Id, base: nat)
    requires Inv(f0) && Exec(Step, f0, rest) == Some(f) && NoBegin(rest) && id in f0.subs
    requires Lost(f0, id) <= base + Caused(PhaseOf(f0.publisher, id))
    ensures Inv(f) && id in f.subs && Lost(f0, id) <= Lost(f, id) <= base + Caused(PhaseOf(f.publisher, id))
  {
    if rest != [] {
      var init, e := rest[..|rest| - 1], rest[|rest| - 1];
      var mid := Exec(Step, f0, init).value;
      LosesAtMostOne(f0, init, mid, id, base);
      StepLoses(mid, e, f, id);
      PhasesAdvance(mid, e, f, id);
      StepKeepsInv(mid, e);
    }
  }

  /** From the beginning of a publish until the next one a subscriber loses at most one line, and
      none while its turn has not come or its oldest line is only about to be evicted. */
  lemma OneEvictionPerPublish(before: seq<Event>, l: LogLine, rest: seq<Event>, f0: Fan, f: Fan, id: Id)
    requires Exec(Step, START, before) == Some(f0) && id in f0.subs && NoBegin(rest)
    requires Exec(Step, START, before + [Begin(l)] + rest) == Some(f)
    ensures id in f.subs && Lost(f0, id) <= Lost(f, id) <= Lost(f0, id) + 1
    ensures PhaseOf(f.publisher, id) in {Waiting, Full} ==> Lost(f, id) == Lost(f0, id)
  {
    ExecConcat(Step, START, before + [Begin(l)], rest);
    ExecMore(Step, START, before, Begin(l));
    var begun := Step(f0, Begin(l)).value;
    RunKeepsInv(before);
    StepKeepsInv(f0, Begin(l));
    LosesAtMostOne(begun, rest, f, id, Lost(f0, id));
  }

  // ---- publishing never waits ----

  /** How many steps of its own a publish has to go at most: three for each subscriber, and its end. */
  function StepsLeft(p: Publisher): nat {
    match p
    case Idle => 0
    case Ranging(_, todo) => 3 * |todo| + 1
    case Evicting(_, todo, _) => 3 * |todo| + 3
    case Retrying(_, todo, _) => 3 * |todo| + 2
  }

  predicate IsOwn(e: Event) { e.Try? || e.Evict? || e.Retry? || e.End? }

  function OwnSteps(events: seq<Event>): nat {
    if events == [] then 0
    else OwnSteps(events[..|events| - 1]) + (if IsOwn(events[|events| - 1]) then 1 else 0)
  }

  /** The subscribers that a publish has still to do with are there and open. */
  predicate Reachable(f: Fan) {
    && (!f.publisher.Idle? ==> forall id :: id in f.publisher.todo ==> id in f.subs && !f.subs[id].closed)
    && (f.publisher.Evicting? || f.publisher.Retrying? ==>
          f.publisher.ch in f.subs && !f.subs[f.publisher.ch].closed)
  }

  lemma InvReachable(f: Fan)
    requires Inv(f)
    ensures Reachable(f)
  {
    if !f.publisher.Idle? {
      forall id | id in f.publisher.todo ensures id in f.subs && !f.subs[id].closed {
        OpenAndRoom(f.subs[id], f.published, Waiting);
      }
    }
    if f.publisher.Evicting? { OpenAndRoom(f.subs[f.publisher.ch], f.published, Full); }
    if f.publisher.Retrying? { OpenAndRoom(f.subs[f.publisher.ch], f.published, Room); }
  }

  lemma OwnStepAdvances(f: Fan, e: Event)
    requires Reachable(f) && IsOwn(e) && Step(f, e).Some?
    ensures StepsLeft(Step(f, e).value.publisher) < StepsLeft(f.publisher)
  {
    if e.Try? { assert |f.publisher.todo - {e.id}| == |f.publisher.todo| - 1; }
  }

  lemma OthersDoNotDelay(f: Fan, e: Event)
    requires !IsOwn(e) && !e.Begin? && Step(f, e).Some?
    ensures Step(f, e).value.publisher == f.publisher
  {
  }

  lemma PublishCanStep(f: Fan) returns (e: Event)
    requires Reachable(f) && !f.publisher.Idle?
    ensures IsOwn(e) && Step(f, e).Some?
  {
    match f.publisher
    case Evicting(_, _, _) => e := Evict;
    case Retrying(_, _, _) => e := Retry;
    case Ranging(_, todo) =>
      if todo == {} {
        e := End;
      } else {
        var id :| id in todo;
        e := Try(id);
      }
  }

  lemma {:induction false} OwnStepsBounded(f0: Fan, rest: seq<Event>, f: Fan)
    requires Inv(f0) && Exec(Step, f0, rest) == Some(f) && NoBegin(rest)
    ensures Inv(f) && OwnSteps(rest) + StepsLeft(f.publisher) <= StepsLeft(f0.publisher)
  {
    if rest != [] {
      var init, e := rest[..|rest| - 1], rest[|rest| - 1];
      var mid := Exec(Step, f0, init).value;
      OwnStepsBounded(f0, init, mid);
      StepKeepsInv(mid, e);
      InvReachable(mid);
      if IsOwn(e) { OwnStepAdvances(mid, e); } else { OthersDoNotDelay(mid, e); }
    }
  }

  /** A publish never waits for a reader: with n subscribers in the map it has ended after at most
      3n + 1 steps of its own, whatever else goes on, and until then its next step is possible. */
  lemma PublishNeverWaits(before: seq<Event>, l: LogLine, rest: seq<Event>, f0: Fan, f: Fan)
    requires Exec(Step, START, before) == Some(f0) && NoBegin(rest)
    requires Exec(Step, START, before + [Begin(l)] + rest) == Some(f)
    ensures OwnSteps(rest) <= 3 * |Registered(f0)| + 1
    ensures OwnSteps(rest) == 3 * |Registered(f0)| + 1 ==> f.publisher.Idle?
    ensures !f.publisher.Idle? ==> exists e :: IsOwn(e) && Step(f, e).Some?
  {
    ExecConcat(Step, START, before + [Begin(l)], rest);
    ExecMore(Step, START, before, Begin(l));
    RunKeepsInv(before);
    StepKeepsInv(f0, Begin(l));
    OwnStepsBounded(Step(f0, Begin(l)).value, rest, f);
    InvReachable(f);
    if !f.publisher.Idle? { var e := PublishCanStep(f); }
  }

  // ---- a reader that keeps up gets everything ----

  /** One subscriber, and nothing in its channel. */
  predicate KeptUp(f: Fan) {
    && f.publisher.Idle? && !f.panicked && f.subs.Keys == {0} && f.subs[0].registered && !f.subs[0].closed
    && f.subs[0].buf == []
  }

  function ReadSteps(l: LogLine): seq<Event> { [Begin(l), Try(0), End, Receive(0)] }

  lemma ReadOne(f: Fan, l: LogLine) returns (f': Fan)
    requires KeptUp(f)
    ensures Exec(Step, f, ReadSteps(l)) == Some(f') && KeptUp(f')
    ensures f'.subs[0].removed == f.subs[0].removed + [Received(l)] && f'.published == f.published + [l]
  {
    var f1 := f.(publisher := Ranging(l, {0}), published := f.published + [l]);
    assert Registered(f) == {0};
    assert Step(f, Begin(l)) == Some(f1);
    var f2 := f1.(subs := f1.subs[0 := Send(f1.subs[0], l)], publisher := Ranging(l, {}));
    assert {0} - {0} == {};
    assert Step(f1, Try(0)) == Some(f2);
    var f3 := f2.(publisher := Idle);
    f' := f3.(subs := f3.subs[0 := Take(f3.subs[0], Received(l))]);
    assert f3.subs[0].buf == [l];
    ExecFour(Step, f, Begin(l), Try(0), End, Receive(0), f1, f2, f3, f');
  }

  /** A reader that keeps up: for any lines there is a run in which it receives exactly these. */
  lemma {:induction false} LinesCanBeReceived(lines: seq<LogLine>) returns (events: seq<Event>, f: Fan)
    ensures Exec(Step, START, events) == Some(f) && KeptUp(f) && f.published == lines
    ensures ReceivedLines(f.subs[0].removed) == lines && Lines(f.subs[0].removed) == lines
  {
    if lines == [] {
      events, f := [Subscribe(0)], Step(START, Subscribe(0)).value;
      ExecOne(Step, START, Subscribe(0));
    } else {
      var init, l := lines[..|lines| - 1], lines[|lines| - 1];
      var before, mid := LinesCanBeReceived(init);
      f := ReadOne(mid, l);
      events := before + ReadSteps(l);
      ExecConcat(Step, START, before, ReadSteps(l));
      ReceivedMore(mid.subs[0].removed, l);
      LinesMore(mid.subs[0].removed, Received(l));
      assert lines == init + [l];
    }
  }

  lemma {:induction false} ReceivedMore(removed: seq<Removal>, l: LogLine)
    ensures ReceivedLines(removed + [Received(l)]) == ReceivedLines(removed) + [l]
  {
    var more := removed + [Received(l)];
    if removed == [] {
      assert more[1..] == [];
    } else {
      ReceivedMore(removed[1..], l);
      assert more[0] == removed[0] && more[1..] == removed[1..] + [Received(l)];
    }
  }

  lemma LinesMore(removed: seq<Removal>, r: Removal)
    ensures Lines(removed + [r]) == Lines(removed) + [r.line]
  {
  }
}
