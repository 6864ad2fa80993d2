/** The last-seen marker of one container, shared by its goroutines: one that is being replaced
    may still be reading while the next one starts. Each locked section is one step. The lines that
    goroutines enqueue become rows of the store, which answers the lookup that seeds the marker. */
module Markers {
  import opened Text
  import opened Calendar
  import opened Timestamps
  import opened Runs
  import Recency

  /** The time 0 stands for Go's zero time. */
  datatype Marker = Marker(ts: Time, resolved: bool)

  type Goroutine = nat

  /** Where a goroutine is in `tailContainer`: in `ingest` (reading a stream, or having enqueued a
      line of it, where track is `trackMarker`: false for the previous instance's log), in
      `resolveMarker` (about to check, querying the store, about to record the answer), or between
      streams. */
  datatype Pc =
    | Reading(track: bool, since: Time)
    | Enqueued(track: bool, since: Time, ts: Time)
    | Checking
    | Querying
    | Recording(found: Option<Time>)
    | Between

  /** A line of the container in the queue or in the store, and whether it was read from a previous
      instance's log. */
  datatype Row = Row(ts: Time, previous: bool)

  /** What the store answers on a day, from the times of the container's rows. */
  type Ask = (Day, seq<Time>) -> Option<Time>

  /** The marker's entry and the goroutines; the container's lines that wait in the queue and those
      in the store; and as history the number of store queries, and since the last deletion the
      answer that was recorded and the times that were set. */
  datatype State = State(entry: Option<Marker>, pcs: map<Goroutine, Pc>,
                         pending: seq<Row>, stored: seq<Row>, ask: Ask,
                         queries: nat, recorded: Option<Time>, live: seq<Time>)

  datatype Event =
    | Start(g: Goroutine)
    | Line(g: Goroutine, ts: Time, accepted: bool)
    | Mark(g: Goroutine)
    | EndStream(g: Goroutine)
    | Check(g: Goroutine)
    | Query(g: Goroutine, today: Day, fails: bool)
    | Record(g: Goroutine)
    | Connect(g: Goroutine)
    | Save(ok: bool)
    | Delete

  /** A new process that finds rows of these times in the store. */
  function New(ask: Ask, old': seq<Time>): State {
    State(None, map[], [], seq(|old'|, i requires 0 <= i < |old'| => Row(old'[i], false)), ask, 0, None, [])
  }

  predicate IsStart(s: State) { s.entry.None? && s.pcs == map[] && s.queries == 0 && s.recorded.None? && s.live == [] }

  function Times(rows: seq<Row>): (times: seq<Time>)
    ensures |times| == |rows| && forall i :: 0 <= i < |rows| ==> times[i] == rows[i].ts
  {
    seq(|rows|, i requires 0 <= i < |rows| => rows[i].ts)
  }

  function Later(a: Time, b: Time): (m: Time)
    ensures m >= a && m >= b && m in {a, b}
  {
    if b > a then b else a
  }

  function TsOf(entry: Option<Marker>): Time { if entry.Some? then entry.value.ts else 0 }

  predicate At(s: State, g: Goroutine, pc: Pc) { g in s.pcs && s.pcs[g] == pc }

  function Step(s: State, e: Event): Option<State> {
    match e
    case Start(g) => if g in s.pcs then None else Some(s.(pcs := s.pcs[g := Reading(false, 0)]))
    case Line(g, ts, accepted) =>
      if g !in s.pcs || !s.pcs[g].Reading? then None
      else Some(s.(pcs := s.pcs[g := Enqueued(s.pcs[g].track, s.pcs[g].since, ts)],
                   pending := s.pending + (if accepted then [Row(ts, !s.pcs[g].track)] else [])))
    case Mark(g) => StepMark(s, g)
    case EndStream(g) =>
      if g !in s.pcs || !s.pcs[g].Reading? then None
      else Some(s.(pcs := s.pcs[g := if s.pcs[g].track then Between else Checking]))
    case Check(g) =>
      if !At(s, g, Checking) then None
      else Some(s.(pcs := s.pcs[g := if s.entry.Some? then Between else Querying]))
    case Query(g, today, fails) =>
      if !At(s, g, Querying) then None
      else Some(s.(queries := s.queries + 1, pcs := s.pcs[g := Recording(Answer(s, today, fails))]))
    case Record(g) => StepRecord(s, g)
    case Connect(g) => if At(s, g, Between) then Some(s.(pcs := s.pcs[g := Reading(true, TsOf(s.entry))])) else None
    case Save(ok) =>
      // The next line in the queue is inserted, or lost with its batch's failing transaction.
      if s.pending == [] then None
      else Some(s.(pending := s.pending[1..], stored := s.stored + (if ok then [s.pending[0]] else [])))
    case Delete => Some(s.(entry := None, recorded := None, live := []))
  }

  /** What a lookup finds: an error, no store at all and no row count alike. */
  function Answer(s: State, today: Day, fails: bool): Option<Time> {
    if fails then None else s.ask(today, Times(s.stored))
  }

  /** The second locked section of `resolveMarker`. */
  function StepRecord(s: State, g: Goroutine): Option<State> {
    if g !in s.pcs || !s.pcs[g].Recording? then None
    else if s.entry.Some? then Some(s.(pcs := s.pcs[g := Between]))
    else
      var found := if s.pcs[g].found.Some? then s.pcs[g].found.value else 0;
      Some(s.(entry := Some(Marker(found, true)), recorded := Some(found), pcs := s.pcs[g := Between]))
  }

  /** The end of `ingest`'s loop body: `setMarker`, if the stream is tracked. */
  function StepMark(s: State, g: Goroutine): Option<State> {
    if g !in s.pcs || !s.pcs[g].Enqueued? then None
    else
      var pc := s.pcs[g];
      var read := s.(pcs := s.pcs[g := Reading(pc.track, pc.since)]);
      if !pc.track then Some(read)
      else Some(read.(entry := Some(Marker(Later(TsOf(s.entry), pc.ts), true)), live := s.live + [pc.ts]))
  }

  /** The latest of these times, 0 if there are none. */
  function Latest(times: seq<Time>): Time {
    if times == [] then 0 else Later(Latest(times[..|times| - 1]), times[|times| - 1])
  }

  lemma LatestMore(times: seq<Time>, t: Time)
    ensures Latest(times + [t]) == Later(Latest(times), t)
  {
    assert (times + [t])[..|times|] == times;
  }

  lemma {:induction false} NoneLater(times: seq<Time>, i: nat)
    requires i < |times|
    ensures times[i] <= Latest(times)
  {
    if i < |times| - 1 { NoneLater(times[..|times| - 1], i); }
  }

  lemma {:induction false} LatestIsOne(times: seq<Time>) returns (i: nat)
    requires times != []
    ensures i < |times| && times[i] == Latest(times)
  {
    i := |times| - 1;
    if i > 0 && Latest(times[..i]) >= times[i] { i := LatestIsOne(times[..i]); }
  }

  lemma LatestIsGreatest(times: seq<Time>)
    ensures forall t :: t in times ==> t <= Latest(times)
    ensures times != [] ==> Latest(times) in times
  {
    forall i | 0 <= i < |times| ensures times[i] <= Latest(times) { NoneLater(times, i); }
    if times != [] { var i := LatestIsOne(times); }
  }

  // ---- every run ----

  /** The marker is the latest of what was set and recorded since the last deletion, and absent if
      nothing was. */
  predicate Inv(s: State) {
    && (s.entry.Some? <==> s.recorded.Some? || s.live != [])
    && (s.entry.Some? ==> s.entry.value.resolved)
    && TsOf(s.entry) == Later(if s.recorded.Some? then s.recorded.value else 0, Latest(s.live))
  }

  predicate SameMarker(s: State, s': State) { s'.entry == s.entry && s'.recorded == s.recorded && s'.live == s.live }

  lemma OthersKeepMarker(s: State, e: Event)
    requires Step(s, e).Some? && !e.Mark? && !e.Record? && !e.Delete?
    ensures SameMarker(s, Step(s, e).value)
  {
  }

  lemma MarkKeepsInv(s: State, g: Goroutine)
    requires Inv(s) && StepMark(s, g).Some?
    ensures Inv(StepMark(s, g).value)
  {
    LatestMore(s.live, s.pcs[g].ts);
  }

  lemma RecordKeepsInv(s: State, g: Goroutine)
    requires Inv(s) && StepRecord(s, g).Some?
    ensures Inv(StepRecord(s, g).value)
  {
  }

  lemma StepKeepsInv(s: State, e: Event)
    requires Inv(s) && Step(s, e).Some?
    ensures Inv(Step(s, e).value)
  {
    match e
    case Mark(g) => MarkKeepsInv(s, g);
    case Record(g) => RecordKeepsInv(s, g);
    case Delete =>
    case _ => OthersKeepMarker(s, e);
  }

  lemma {:induction false} RunKeepsInv(start: State, events: seq<Event>, s: State)
    requires IsStart(start) && Exec(Step, start, events) == Some(s)
    ensures Inv(s)
  {
    if events != [] {
      var mid := Exec(Step, start, events[..|events| - 1]).value;
      RunKeepsInv(start, events[..|events| - 1], mid);
      StepKeepsInv(mid, events[|events| - 1]);
    }
  }

  /** However old and new goroutines overlap: the marker is at least every live line's time whose
      `setMarker` has completed since the last deletion, and if it is later than all of those it
      is what a store lookup recorded. */
  lemma MarkerCoversLiveLines(start: State, events: seq<Event>, s: State)
    requires IsStart(start) && Exec(Step, start, events) == Some(s)
    ensures forall t :: t in s.live ==> s.entry.Some? && t <= s.entry.value.ts
    ensures s.entry.Some? ==>
      s.entry.value.ts in s.live || s.entry.value.ts == 0 || s.recorded == Some(s.entry.value.ts)
  {
    RunKeepsInv(start, events, s);
    LatestIsGreatest(s.live);
  }

  /** A stream opened later asks only for lines from the marker on: none of the live lines whose
      time was set before is later than its `SinceTime`. */
  lemma StreamResumes(start: State, events: seq<Event>, s: State, g: Goroutine, s': State)
    requires IsStart(start) && Exec(Step, start, events) == Some(s) && Step(s, Connect(g)) == Some(s')
    ensures g in s'.pcs && s'.pcs[g].Reading? && s'.pcs[g].track && s'.entry == s.entry
    ensures forall t :: t in s.live ==> t <= s'.pcs[g].since
    ensures s'.pcs[g].since == Later(if s.recorded.Some? then s.recorded.value else 0, Latest(s.live))
  {
    RunKeepsInv(start, events, s);
    LatestIsGreatest(s.live);
  }

  predicate NoDelete(events: seq<Event>) { forall i :: 0 <= i < |events| ==> !events[i].Delete? }

  /** Between deletions the marker never decreases, and once there it stays; restarts included. */
  lemma {:induction false} MarkerNeverDecreases(s: State, events: seq<Event>, s': State)
    requires Exec(Step, s, events) == Some(s') && NoDelete(events)
    ensures TsOf(s'.entry) >= TsOf(s.entry) && (s.entry.Some? ==> s'.entry.Some?)
  {
    if events != [] {
      var init := events[..|events| - 1];
      MarkerNeverDecreases(s, init, Exec(Step, s, init).value);
      assert !events[|events| - 1].Delete?;
    }
  }

  /** Once there is an entry, recording a lookup's answer changes nothing, however old the lookup. */
  lemma RecordKeepsEntry(s: State, g: Goroutine, query: Event, meanwhile: seq<Event>, s': State)
    requires query.Query? && query.g == g && Step(s, query).Some?
    requires Exec(Step, Step(s, query).value, meanwhile) == Some(s') && Step(s', Record(g)).Some?
    ensures s'.entry.Some? ==> Step(s', Record(g)).value.entry == s'.entry
    ensures s.entry.Some? && NoDelete(meanwhile) ==> Step(s', Record(g)).value.entry == s'.entry
  {
    if NoDelete(meanwhile) { MarkerNeverDecreases(Step(s, query).value, meanwhile, s'); }
  }

  /** A lookup never overwrites what live ingestion has set meanwhile: if any goroutine marked a
      live line's time between the query and the recording, and no deletion came after that, the
      entry stays what it is, no earlier than that time. */
  lemma LookupNeverOverwrites(s: State, g: Goroutine, query: Event, before: seq<Event>, h: Goroutine,
                              after: seq<Event>, mid: State, s': State)
    requires query.Query? && query.g == g && Step(s, query).Some?
    requires Exec(Step, Step(s, query).value, before) == Some(mid)
    requires h in mid.pcs && mid.pcs[h].Enqueued? && mid.pcs[h].track && NoDelete(after)
    requires Exec(Step, mid, [Mark(h)] + after) == Some(s') && Step(s', Record(g)).Some?
    ensures Step(s', Record(g)).value.entry == s'.entry && s'.entry.Some? && s'.entry.value.ts >= mid.pcs[h].ts
  {
    ExecConcat(Step, mid, [Mark(h)], after);
    ExecOne(Step, mid, Mark(h));
    MarkerNeverDecreases(Step(mid, Mark(h)).value, after, s');
  }

  // ---- lines of a previous instance ----

  /** The rows that were not read from a previous instance's log. */
  function Others(rows: seq<Row>): seq<Row> {
    if rows == [] then [] else (if rows[0].previous then [] else [rows[0]]) + Others(rows[1..])
  }

  lemma {:induction false} OthersMore(rows: seq<Row>, r: Row)
    ensures Others(rows + [r]) == Others(rows) + (if r.previous then [] else [r])
  {
    if rows == [] {
      assert rows + [r] == [r];
      assert Others([r]) == (if r.previous then [] else [r]) + Others([]);
    } else {
      OthersMore(rows[1..], r);
      assert (rows + [r])[1..] == rows[1..] + [r];
    }
  }

  lemma {:induction false} OthersAreRows(rows: seq<Row>)
    ensures forall r :: r in Others(rows) ==> r in rows
  {
    if rows != [] { OthersAreRows(rows[1..]); }
  }

  lemma OthersTimes(rows: seq<Row>)
    ensures forall t :: t in Times(Others(rows)) ==> t in Times(rows)
  {
    OthersAreRows(rows);
    forall t | t in Times(Others(rows)) ensures t in Times(rows) {
      var i :| 0 <= i < |Others(rows)| && Times(Others(rows))[i] == t;
      assert Others(rows)[i] in rows;
      var k :| 0 <= k < |rows| && rows[k] == Others(rows)[i];
      assert Times(rows)[k] == t;
    }
  }

  lemma {:induction false} OthersOfNoPrevious(rows: seq<Row>)
    requires forall i :: 0 <= i < |rows| ==> !rows[i].previous
    ensures Others(rows) == rows
  {
    if rows != [] {
      OthersOfNoPrevious(rows[1..]);
      assert rows == [rows[0]] + rows[1..];
    }
  }

  /** The event belongs to a previous instance's line: reading it, or inserting it. */
  predicate OfPrevious(s: State, e: Event) {
    match e
    case Line(g, _, _) => g in s.pcs && s.pcs[g].Reading? && !s.pcs[g].track
    case Mark(g) => g in s.pcs && s.pcs[g].Enqueued? && !s.pcs[g].track
    case Save(_) => s.pending != [] && s.pending[0].previous
    case _ => false
  }

  /** The run without those events. */
  function WithoutPrevious(s: State, events: seq<Event>): seq<Event> {
    if events == [] then [] else
    var init, last := events[..|events| - 1], events[|events| - 1];
    var mid := Exec(Step, s, init);
    WithoutPrevious(s, init) + (if mid.Some? && OfPrevious(mid.value, last) then [] else [last])
  }

  /** The state as if no line of a previous instance had been read. */
  function Settled(s: State): State {
    s.(pcs := SettledPcs(s.pcs), pending := Others(s.pending), stored := Others(s.stored))
  }

  function SettledPcs(pcs: map<Goroutine, Pc>): map<Goroutine, Pc> { map g | g in pcs :: SettledPc(pcs[g]) }

  lemma SettledUpdate(pcs: map<Goroutine, Pc>, g: Goroutine, pc: Pc)
    ensures SettledPcs(pcs[g := pc]) == SettledPcs(pcs)[g := SettledPc(pc)]
  {
  }

  lemma SettledKept(pcs: map<Goroutine, Pc>, g: Goroutine)
    requires g in pcs
    ensures SettledPcs(pcs)[g := SettledPc(pcs[g])] == SettledPcs(pcs)
  {
  }

  function SettledPc(pc: Pc): Pc { if pc.Enqueued? && !pc.track then Reading(false, pc.since) else pc }

  /** If this event is a lookup, the store answers it as it would without the previous instances'
      lines. */
  predicate SameAnswer(s: State, e: Event) {
    e.Query? && !e.fails && At(s, e.g, Querying) ==>
      s.ask(e.today, Times(s.stored)) == s.ask(e.today, Times(Others(s.stored)))
  }

  lemma RowsMore(rows: seq<Row>, r: Row, added: bool)
    ensures Others(rows + (if added then [r] else []))
         == Others(rows) + (if added && !r.previous then [r] else [])
  {
    if added { OthersMore(rows, r); } else { assert rows + [] == rows; }
  }

  lemma PreviousSettles(s: State, e: Event, s': State)
    requires Step(s, e) == Some(s') && OfPrevious(s, e)
    ensures Settled(s') == Settled(s)
  {
    match e
    case Line(g, ts, accepted) =>
      RowsMore(s.pending, Row(ts, true), accepted);
      SettledUpdate(s.pcs, g, s'.pcs[g]);
      SettledKept(s.pcs, g);
    case Mark(g) =>
      SettledUpdate(s.pcs, g, s'.pcs[g]);
      SettledKept(s.pcs, g);
    case Save(ok) => RowsMore(s.stored, s.pending[0], ok);
  }

  lemma LineSettles(s: State, g: Goroutine, ts: Time, accepted: bool, s': State)
    requires Step(s, Line(g, ts, accepted)) == Some(s') && s.pcs[g].track
    ensures Step(Settled(s), Line(g, ts, accepted)) == Some(Settled(s'))
  {
    SettledUpdate(s.pcs, g, s'.pcs[g]);
    RowsMore(s.pending, Row(ts, false), accepted);
    assert !accepted ==> Others(s.pending) + [] == Others(s.pending);
  }

  lemma MarkSettles(s: State, g: Goroutine, s': State)
    requires StepMark(s, g) == Some(s') && s.pcs[g].track
    ensures StepMark(Settled(s), g) == Some(Settled(s'))
  {
    SettledUpdate(s.pcs, g, s'.pcs[g]);
  }

  lemma RecordSettles(s: State, g: Goroutine, s': State)
    requires StepRecord(s, g) == Some(s')
    ensures StepRecord(Settled(s), g) == Some(Settled(s'))
  {
    SettledUpdate(s.pcs, g, s'.pcs[g]);
  }

  lemma SaveSettles(s: State, ok: bool, s': State)
    requires Step(s, Save(ok)) == Some(s') && !s.pending[0].previous
    ensures Step(Settled(s), Save(ok)) == Some(Settled(s'))
  {
    assert Others(s.pending) == [s.pending[0]] + Others(s.pending[1..]);
    RowsMore(s.stored, s.pending[0], ok);
    assert !ok ==> Others(s.stored) + [] == Others(s.stored);
  }

  lemma PcSettles(s: State, e: Event, s': State)
    requires Step(s, e) == Some(s') && (e.Start? || e.EndStream? || e.Check? || e.Connect?)
    ensures Step(Settled(s), e) == Some(Settled(s'))
  {
    SettledUpdate(s.pcs, e.g, s'.pcs[e.g]);
  }

  lemma QuerySettles(s: State, g: Goroutine, today: Day, fails: bool, s': State)
    requires Step(s, Query(g, today, fails)) == Some(s')
    ensures Step(Settled(s), Query(g, today, fails)) == Some(Settled(s')) <==> SameAnswer(s, Query(g, today, fails))
  {
    SettledUpdate(s.pcs, g, s'.pcs[g]);
    var settled := Step(Settled(s), Query(g, today, fails)).value;
    assert settled.pcs[g] == Recording(Answer(Settled(s), today, fails));
    assert Settled(s').pcs[g] == Recording(Answer(s, today, fails));
  }

  /** Every other event does the same without them, a lookup exactly if its answer is the same. */
  lemma OtherSettles(s: State, e: Event, s': State)
    requires Step(s, e) == Some(s') && !OfPrevious(s, e)
    ensures Step(Settled(s), e) == Some(Settled(s')) <==> SameAnswer(s, e)
  {
    match e
    case Line(g, ts, accepted) => LineSettles(s, g, ts, accepted, s');
    case Mark(g) => MarkSettles(s, g, s');
    case Record(g) => RecordSettles(s, g, s');
    case Save(ok) => SaveSettles(s, ok, s');
    case Query(g, today, fails) => QuerySettles(s, g, today, fails, s');
    case Delete =>
    case _ => PcSettles(s, e, s');
  }

  /** The run without them comes to the same marker and the same goroutines. */
  ghost predicate SameAt(start: State, events: seq<Event>) {
    var s := Exec(Step, start, events);
    s.Some? ==> Exec(Step, start, WithoutPrevious(start, events)) == Some(Settled(s.value))
  }

  ghost predicate SameThroughout(start: State, events: seq<Event>) {
    forall i :: 0 <= i <= |events| ==> SameAt(start, events[..i])
  }

  ghost predicate AnswerAt(start: State, before: seq<Event>, e: Event) {
    var s := Exec(Step, start, before);
    s.Some? ==> SameAnswer(s.value, e)
  }

  ghost predicate SameAnswers(start: State, events: seq<Event>) {
    forall i :: 0 <= i < |events| ==> AnswerAt(start, events[..i], events[i])
  }

  lemma SameAnswersMore(start: State, events: seq<Event>, e: Event)
    ensures SameAnswers(start, events + [e]) <==> SameAnswers(start, events) && AnswerAt(start, events, e)
  {
    var more := events + [e];
    assert more[..|events|] == events && more[|events|] == e;
    assert forall i :: 0 <= i < |events| ==> more[..i] == events[..i] && more[i] == events[i];
    if SameAnswers(start, more) {
      assert AnswerAt(start, more[..|events|], more[|events|]);
      forall i | 0 <= i < |events| ensures AnswerAt(start, events[..i], events[i]) {
        assert AnswerAt(start, more[..i], more[i]);
      }
    }
  }

  lemma SameThroughoutMore(start: State, events: seq<Event>, e: Event)
    ensures SameThroughout(start, events + [e]) <==> SameThroughout(start, events) && SameAt(start, events + [e])
  {
    var more := events + [e];
    assert more[..|more|] == more;
    assert forall i :: 0 <= i <= |events| ==> more[..i] == events[..i];
    if SameThroughout(start, more) {
      assert SameAt(start, more[..|more|]);
      forall i | 0 <= i <= |events| ensures SameAt(start, events[..i]) { assert SameAt(start, more[..i]); }
    }
  }

  lemma SameStep(start: State, events: seq<Event>, e: Event, s: State, s': State)
    requires Exec(Step, start, events) == Some(s) && Step(s, e) == Some(s') && SameAt(start, events)
    ensures SameAt(start, events + [e]) <==> AnswerAt(start, events, e)
  {
    ExecMore(Step, start, events, e);
    assert (events + [e])[..|events|] == events;
    var without := WithoutPrevious(start, events);
    if OfPrevious(s, e) {
      PreviousSettles(s, e, s');
      assert WithoutPrevious(start, events + [e]) == without + [] == without;
    } else {
      OtherSettles(s, e, s');
      assert WithoutPrevious(start, events + [e]) == without + [e];
      ExecMore(Step, start, without, e);
    }
  }

  /** Lines of a previous instance influence the marker and the goroutines only through the store:
      because they are not tracked, every run goes the same way without them, as long as the store
      answers every lookup the same; and no longer. */
  lemma {:induction false} PreviousLinesOnlyThroughStore(start: State, events: seq<Event>)
    requires Settled(start) == start && Exec(Step, start, events).Some?
    ensures SameThroughout(start, events) <==> SameAnswers(start, events)
  {
    if events == [] {
      assert SameAt(start, events[..0]);
    } else {
      var init, e := events[..|events| - 1], events[|events| - 1];
      assert events == init + [e];
      PreviousLinesOnlyThroughStore(start, init);
      SameAnswersMore(start, init, e);
      SameThroughoutMore(start, init, e);
      if SameThroughout(start, init) {
        assert init[..|init|] == init && SameAt(start, init[..|init|]);
        ExecMore(Step, start, init, e);
        SameStep(start, init, e, Exec(Step, start, init).value, Exec(Step, start, events).value);
      }
    }
  }

  lemma NewIsSettled(ask: Ask, times: seq<Time>)
    ensures IsStart(New(ask, times)) && Settled(New(ask, times)) == New(ask, times)
  {
    OthersOfNoPrevious(New(ask, times).stored);
  }

  /** The store of a zone: `LastSeen` of the container's rows. */
  function StoreOf(zone: string): Ask { (today, times) => Recency.Reported(zone, today, times) }

  /** The answer is the same exactly if no line of a previous instance that is in the store is
      reported ahead of all the container's other rows of the last 30 days. */
  lemma SameAnswerIffOvertaken(zone: string, s: State, e: Event)
    requires s.ask == StoreOf(zone) && e.Query? && !e.fails && At(s, e.g, Querying)
    ensures SameAnswer(s, e) <==> Recency.Overtaken(zone, e.today, Times(s.stored), Times(Others(s.stored)))
  {
    OthersTimes(s.stored);
    Recency.ReportedIffOvertaken(zone, e.today, Times(s.stored), Times(Others(s.stored)));
  }

  lemma {:induction false} AskStays(start: State, events: seq<Event>)
    requires Exec(Step, start, events).Some?
    ensures Exec(Step, start, events).value.ask == start.ask
  {
    if events != [] { AskStays(start, events[..|events| - 1]); }
  }

  /** If this event is a lookup, then no line of a previous instance that is in the store is ahead of
      all the container's other rows. */
  ghost predicate NoneAheadAt(zone: string, start: State, before: seq<Event>, e: Event) {
    var s := Exec(Step, start, before);
    s.Some? && e.Query? && !e.fails && At(s.value, e.g, Querying) ==>
      Recency.Overtaken(zone, e.today, Times(s.value.stored), Times(Others(s.value.stored)))
  }

  lemma AnswerAtIffNoneAhead(zone: string, start: State, before: seq<Event>, e: Event)
    requires start.ask == StoreOf(zone)
    ensures AnswerAt(start, before, e) <==> NoneAheadAt(zone, start, before, e)
  {
    var s := Exec(Step, start, before);
    if s.Some? && e.Query? && !e.fails && At(s.value, e.g, Querying) {
      AskStays(start, before);
      SameAnswerIffOvertaken(zone, s.value, e);
    }
  }

  /** Previous instances' lines have no influence on the marker, in every run of a process that finds
      rows of any times in the store, exactly if at no lookup one of those inserted is reported ahead
      of the container's other rows. */
  lemma PreviousLinesHarmlessIff(zone: string, times: seq<Time>, events: seq<Event>)
    requires Exec(Step, New(StoreOf(zone), times), events).Some?
    ensures SameThroughout(New(StoreOf(zone), times), events)
       <==> forall i :: 0 <= i < |events| ==> NoneAheadAt(zone, New(StoreOf(zone), times), events[..i], events[i])
  {
    var start := New(StoreOf(zone), times);
    NewIsSettled(StoreOf(zone), times);
    PreviousLinesOnlyThroughStore(start, events);
    forall i | 0 <= i < |events| {
      AnswerAtIffNoneAhead(zone, start, events[..i], events[i]);
    }
  }

  /** In particular if none of them has been inserted yet. */
  lemma NoneStoredSameAnswer(s: State, e: Event)
    requires forall i :: 0 <= i < |s.stored| ==> !s.stored[i].previous
    ensures SameAnswer(s, e)
  {
    OthersOfNoPrevious(s.stored);
  }

  /** A goroutine of a fresh process reads one line of the previous instance, which is inserted, or
      lost with its batch, before it looks the marker up. */
  function SeededRun(t: Time, today: Day, inserted: bool): seq<Event> {
    FirstHalf(t, inserted) + SecondHalf(today) + [Connect(0)]
  }

  function FirstHalf(t: Time, inserted: bool): seq<Event> { [Start(0), Line(0, t, true), Mark(0), Save(inserted)] }

  function SecondHalf(today: Day): seq<Event> { [EndStream(0), Check(0), Query(0, today, false), Record(0)] }

  /** If it is inserted, the goroutine takes up the live stream from that line's time. */
  lemma PreviousLineSeedsMarker(zone: string, t: Time, today: Day)
    requires Recency.InWindow(today, t)
    ensures var end := Exec(Step, New(StoreOf(zone), []), SeededRun(t, today, true));
      && end.Some? && end.value.live == [] && end.value.entry == Some(Marker(t, true))
      && At(end.value, 0, Reading(true, t))
  {
    OneRowReported(zone, today, t);
    SeededRunEnds(zone, t, today, true, [t], Some(t));
  }

  /** If it is lost, there is no row, and the live stream is read from its beginning. */
  lemma LostLineSeedsNothing(zone: string, t: Time, today: Day)
    ensures var end := Exec(Step, New(StoreOf(zone), []), SeededRun(t, today, false));
      && end.Some? && end.value.stored == [] && end.value.entry == Some(Marker(0, true))
      && At(end.value, 0, Reading(true, 0))
  {
    SeededRunEnds(zone, t, today, false, [], None);
  }

  lemma SeededRunEnds(zone: string, t: Time, today: Day, inserted: bool, times: seq<Time>, found: Option<Time>)
    requires times == if inserted then [t] else []
    requires Recency.Reported(zone, today, times) == found
    ensures var since := if found.Some? then found.value else 0;
      var end := Exec(Step, New(StoreOf(zone), []), SeededRun(t, today, inserted));
      && end.Some? && end.value.live == [] && end.value.entry == Some(Marker(since, true))
      && At(end.value, 0, Reading(true, since)) && Times(end.value.stored) == times
  {
    var s0 := New(StoreOf(zone), []);
    var mid := LineEnds(s0, t, inserted);
    assert Times(mid.stored) == times;
    var looked := LookupEnds(mid, today, found);
    ExecConcat(Step, s0, FirstHalf(t, inserted), SecondHalf(today));
    ExecMore(Step, s0, FirstHalf(t, inserted) + SecondHalf(today), Connect(0));
  }

  lemma LineEnds(s: State, t: Time, inserted: bool) returns (s': State)
    requires s.pcs == map[] && s.pending == [] && s.stored == []
    ensures Exec(Step, s, FirstHalf(t, inserted)) == Some(s') && At(s', 0, Reading(false, 0))
    ensures s' == s.(pcs := s'.pcs, stored := if inserted then [Row(t, true)] else [])
  {
    var s1 := Step(s, Start(0)).value;
    var s2 := Step(s1, Line(0, t, true)).value;
    var s3 := Step(s2, Mark(0)).value;
    s' := Step(s3, Save(inserted)).value;
    ExecFour(Step, s, Start(0), Line(0, t, true), Mark(0), Save(inserted), s1, s2, s3, s');
  }

  lemma LookupEnds(s: State, today: Day, found: Option<Time>) returns (s': State)
    requires At(s, 0, Reading(false, 0)) && s.entry.None? && s.ask(today, Times(s.stored)) == found
    ensures Exec(Step, s, SecondHalf(today)) == Some(s') && At(s', 0, Between)
    ensures s'.entry == Some(Marker(if found.Some? then found.value else 0, true))
    ensures s'.live == s.live && s'.stored == s.stored
  {
    var s1 := Step(s, EndStream(0)).value;
    var s2 := Step(s1, Check(0)).value;
    var s3 := Step(s2, Query(0, today, false)).value;
    s' := Step(s3, Record(0)).value;
    ExecFour(Step, s, EndStream(0), Check(0), Query(0, today, false), Record(0), s1, s2, s3, s');
  }

  lemma OneRowReported(zone: string, today: Day, t: Time)
    requires Recency.InWindow(today, t)
    ensures Recency.Reported(zone, today, [t]) == Some(t)
  {
    assert [t][1..] == [];
  }

  /** Without that line it takes the live stream from its beginning. */
  lemma WithoutItNoMarker(zone: string, today: Day)
    ensures var end := Exec(Step, New(StoreOf(zone), []),
                            [Start(0), EndStream(0)] + [Check(0), Query(0, today, false), Record(0), Connect(0)]);
      end.Some? && At(end.value, 0, Reading(true, 0))
  {
    var s0 := New(StoreOf(zone), []);
    var s1 := Step(s0, Start(0)).value;
    var s2 := Step(s1, EndStream(0)).value;
    ExecTwo(Step, s0, Start(0), EndStream(0), s1, s2);
    var s3 := Step(s2, Check(0)).value;
    assert Times(s3.stored) == [];
    var s4 := Step(s3, Query(0, today, false)).value;
    var s5 := Step(s4, Record(0)).value;
    var s6 := Step(s5, Connect(0)).value;
    ExecFour(Step, s2, Check(0), Query(0, today, false), Record(0), Connect(0), s3, s4, s5, s6);
    ExecConcat(Step, s0, [Start(0), EndStream(0)], [Check(0), Query(0, today, false), Record(0), Connect(0)]);
  }

  // ---- how often the store is asked ----

  predicate Asking(pc: Pc) { pc.Querying? || pc.Recording? }

  predicate NobodyAsks(s: State) { forall g :: g in s.pcs ==> !Asking(s.pcs[g]) }

  function QueryingNow(s: State): set<Goroutine> { set g | g in s.pcs && s.pcs[g].Querying? }

  /** A goroutine finds no entry and is going to ask. */
  predicate Misses(s: State, e: Event) { e.Check? && Step(s, e).Some? && s.entry.None? }

  function MissCount(start: State, events: seq<Event>): nat {
    if events == [] then 0 else
    var init, last := events[..|events| - 1], events[|events| - 1];
    var mid := Exec(Step, start, init);
    MissCount(start, init) + (if mid.Some? && Misses(mid.value, last) then 1 else 0)
  }

  /** No marker has been deleted since a goroutine first found none. */
  predicate NotDeletedSince(start: State, events: seq<Event>) {
    forall j :: 0 <= j < |events| && events[j].Delete? ==> MissCount(start, events[..j]) == 0
  }

  /** If this event finds no entry, then while nobody is asking and without a deletion since an
      earlier miss. */
  ghost predicate AloneAt(start: State, before: seq<Event>, e: Event) {
    var s := Exec(Step, start, before);
    s.Some? && Misses(s.value, e) ==> NobodyAsks(s.value) && NotDeletedSince(start, before)
  }

  ghost predicate MissesAlone(start: State, events: seq<Event>) {
    forall i :: 0 <= i < |events| ==> AloneAt(start, events[..i], events[i])
  }

  lemma MissCountMore(start: State, events: seq<Event>, e: Event)
    ensures var s := Exec(Step, start, events);
      MissCount(start, events + [e]) == MissCount(start, events) + (if s.Some? && Misses(s.value, e) then 1 else 0)
  {
    assert (events + [e])[..|events|] == events;
  }

  lemma {:induction false} MissCountGrows(start: State, events: seq<Event>, j: nat)
    requires j <= |events|
    ensures MissCount(start, events[..j]) <= MissCount(start, events)
  {
    if j == |events| {
      assert events[..j] == events;
    } else {
      var init := events[..|events| - 1];
      MissCountGrows(start, init, j);
      assert init[..j] == events[..j];
    }
  }

  lemma NotDeletedMore(start: State, events: seq<Event>, e: Event)
    ensures NotDeletedSince(start, events + [e])
       <==> NotDeletedSince(start, events) && (e.Delete? ==> MissCount(start, events) == 0)
  {
    var more := events + [e];
    assert more[..|events|] == events && more[|events|] == e;
    assert forall j :: 0 <= j < |events| ==> more[..j] == events[..j] && more[j] == events[j];
    if NotDeletedSince(start, more) {
      assert more[|events|].Delete? ==> MissCount(start, more[..|events|]) == 0;
      forall j | 0 <= j < |events| && events[j].Delete? ensures MissCount(start, events[..j]) == 0 {
        assert more[j].Delete?;
      }
    }
  }

  lemma AloneMore(start: State, events: seq<Event>, e: Event)
    ensures MissesAlone(start, events + [e]) <==> MissesAlone(start, events) && AloneAt(start, events, e)
  {
    var more := events + [e];
    assert more[..|events|] == events && more[|events|] == e;
    assert forall i :: 0 <= i < |events| ==> more[..i] == events[..i] && more[i] == events[i];
    if MissesAlone(start, more) {
      assert AloneAt(start, more[..|events|], more[|events|]);
      forall i | 0 <= i < |events| ensures AloneAt(start, events[..i], events[i]) {
        assert AloneAt(start, more[..i], more[i]);
      }
    }
  }

  /** Each miss leads to one query; whoever asks has missed; and without a deletion since, an
      absent entry that nobody asks for has never been missed. */
  ghost predicate Accounted(start: State, events: seq<Event>, s: State) {
    && s.queries + |QueryingNow(s)| == MissCount(start, events)
    && (!NobodyAsks(s) ==> MissCount(start, events) >= 1)
    && (s.entry.None? && NobodyAsks(s) && NotDeletedSince(start, events) ==> MissCount(start, events) == 0)
  }

  lemma QueryingUpdate(s: State, s': State, g: Goroutine, pc: Pc)
    requires s'.pcs == s.pcs[g := pc]
    ensures |QueryingNow(s')| - |QueryingNow(s)|
         == (if pc.Querying? then 1 else 0) - (if At(s, g, Querying) then 1 else 0)
  {
    if pc.Querying? {
      assert QueryingNow(s') == QueryingNow(s) + {g};
    } else {
      assert QueryingNow(s') == QueryingNow(s) - {g};
    }
  }

  lemma OneMoves(s: State, e: Event)
    requires Step(s, e).Some? && !e.Delete? && !e.Save?
    ensures var s' := Step(s, e).value; e.g in s'.pcs && s'.pcs == s.pcs[e.g := s'.pcs[e.g]]
    ensures At(Step(s, e).value, e.g, Querying) <==> Misses(s, e)
    ensures At(s, e.g, Querying) <==> e.Query?
  {
  }

  lemma QueryingStep(s: State, e: Event, s': State)
    requires Step(s, e) == Some(s')
    ensures s'.queries + |QueryingNow(s')| == s.queries + |QueryingNow(s)| + (if Misses(s, e) then 1 else 0)
  {
    if !e.Delete? && !e.Save? {
      OneMoves(s, e);
      QueryingUpdate(s, s', e.g, s'.pcs[e.g]);
    }
  }

  lemma AskingStep(s: State, e: Event, s': State)
    requires Step(s, e) == Some(s')
    ensures !NobodyAsks(s') ==> !NobodyAsks(s) || Misses(s, e)
    ensures s'.entry.None? && NobodyAsks(s') && !e.Delete? ==> s.entry.None? && NobodyAsks(s) && !Misses(s, e)
  {
    assert Misses(s, e) ==> e.g in s'.pcs && Asking(s'.pcs[e.g]);
    if s'.entry.None? && NobodyAsks(s') && !e.Delete? {
      forall g | g in s.pcs ensures !Asking(s.pcs[g]) {
        assert g in s'.pcs && !Asking(s'.pcs[g]);
      }
    }
  }

  lemma {:induction false} RunIsAccounted(start: State, events: seq<Event>, s: State)
    requires IsStart(start) && Exec(Step, start, events) == Some(s)
    ensures Accounted(start, events, s)
  {
    if events == [] {
      assert QueryingNow(s) == {};
    } else {
      var init, last := events[..|events| - 1], events[|events| - 1];
      var mid := Exec(Step, start, init).value;
      assert events == init + [last];
      RunIsAccounted(start, init, mid);
      MissCountMore(start, init, last);
      NotDeletedMore(start, init, last);
      QueryingStep(mid, last, s);
      AskingStep(mid, last, s);
    }
  }

  lemma {:induction false} OneMissAlone(start: State, events: seq<Event>)
    requires IsStart(start) && Exec(Step, start, events).Some?
    ensures MissCount(start, events) <= 1 <==> MissesAlone(start, events)
  {
    if events != [] {
      var init, last := events[..|events| - 1], events[|events| - 1];
      var mid := Exec(Step, start, init).value;
      assert events == init + [last];
      OneMissAlone(start, init);
      RunIsAccounted(start, init, mid);
      MissCountMore(start, init, last);
      AloneMore(start, init, last);
      if MissCount(start, init) == 0 {
        forall j | 0 <= j < |init| ensures MissCount(start, init[..j]) == 0 { MissCountGrows(start, init, j); }
      }
    }
  }

  /** In every run: the store has been or is being asked at most once for the container, exactly
      if no goroutine found the marker absent while another was asking, or after a deletion that
      followed an earlier miss. */
  lemma AskedAtMostOnce(start: State, events: seq<Event>, s: State)
    requires IsStart(start) && Exec(Step, start, events) == Some(s)
    ensures s.queries + |QueryingNow(s)| <= 1 <==> MissesAlone(start, events)
    ensures QueryingNow(s) == {} ==> (s.queries <= 1 <==> MissesAlone(start, events))
  {
    RunIsAccounted(start, events, s);
    OneMissAlone(start, events);
  }

  /** A goroutine from its start to its check. */
  function StartSteps(g: Goroutine): seq<Event> { [Start(g), EndStream(g), Check(g)] }

  lemma StartRun(s: State, g: Goroutine)
    requires g !in s.pcs
    ensures Exec(Step, s, StartSteps(g)) == Some(s.(pcs := s.pcs[g := if s.entry.Some? then Between else Querying]))
  {
    var s1 := Step(s, Start(g)).value;
    var s2 := Step(s1, EndStream(g)).value;
    var s3 := Step(s2, Check(g)).value;
    ExecTwo(Step, s, Start(g), EndStream(g), s1, s2);
    ExecMore(Step, s, [Start(g), EndStream(g)], Check(g));
    assert [Start(g), EndStream(g)] + [Check(g)] == StartSteps(g);
    assert s3.pcs == s.pcs[g := if s.entry.Some? then Between else Querying];
  }

  /** Two goroutines that overlap ask twice. */
  lemma OverlapAsksTwice(start: State, today: Day)
    requires IsStart(start)
    ensures var asks := [Query(0, today, false), Query(1, today, false)];
      var end := Exec(Step, start, StartSteps(0) + StartSteps(1) + asks);
      end.Some? && end.value.queries == 2
  {
    var s1 := start.(pcs := start.pcs[0 := Querying]);
    var s2 := s1.(pcs := s1.pcs[1 := Querying]);
    var s3 := Step(s2, Query(0, today, false)).value;
    var s4 := Step(s3, Query(1, today, false)).value;
    StartRun(start, 0);
    StartRun(s1, 1);
    ExecConcat(Step, start, StartSteps(0), StartSteps(1));
    ExecTwo(Step, s2, Query(0, today, false), Query(1, today, false), s3, s4);
    ExecConcat(Step, start, StartSteps(0) + StartSteps(1), [Query(0, today, false), Query(1, today, false)]);
  }

  /** So does a container whose pod is deleted and added again, without any overlap. */
  lemma DeletionAsksAgain(start: State, today: Day)
    requires IsStart(start)
    ensures var first := StartSteps(0) + [Query(0, today, false), Record(0)];
      var end := Exec(Step, start, first + [Delete] + StartSteps(1) + [Query(1, today, false)]);
      end.Some? && end.value.queries == 2
  {
    var first := StartSteps(0) + [Query(0, today, false), Record(0)];
    var s1 := start.(pcs := start.pcs[0 := Querying]);
    var s2 := Step(s1, Query(0, today, false)).value;
    var s3 := Step(s2, Record(0)).value;
    var s4 := Step(s3, Delete).value;
    StartRun(start, 0);
    ExecTwo(Step, s1, Query(0, today, false), Record(0), s2, s3);
    ExecConcat(Step, start, StartSteps(0), [Query(0, today, false), Record(0)]);
    ExecMore(Step, start, first, Delete);
    StartRun(s4, 1);
    ExecConcat(Step, start, first + [Delete], StartSteps(1));
    ExecMore(Step, start, first + [Delete] + StartSteps(1), Query(1, today, false));
  }
}
