/** The lock-free counting of dropped lines: any number of producers, each counting its drop,
    reading the clock, loading the last warning's stamp, trying to replace it, and then taking
    the count. Their atomic steps interleave in any way. */
module DropWarning {
  import opened Text
  import opened Cursor
  import opened Runs

  type Producer = nat

  /** Where a producer is inside `recordDrop`. */
  datatype Pc = Idle | Added | Stamped(now: int64) | Loaded(now: int64, last: int64) | Won(stamp: int64)

  /** A warning in the log: how many drops it reports, the stamp its producer stored, and the time
      of the log record. */
  datatype Warning = Warning(count: int, stamp: int64, at: int64)

  /** The two atomics and the producers; and as history the number of drops recorded, the
      warnings, and the stamps stored so far. */
  datatype Warner = Warner(interval: int64, dropped: int, lastWarnedAt: int64, pcs: map<Producer, Pc>,
                           drops: nat, warnings: seq<Warning>, stamps: seq<int64>)

  datatype Event =
    | Add(p: Producer)
    | Clock(p: Producer, now: int64)
    | Load(p: Producer)
    | Try(p: Producer)
    | Swap(p: Producer, at: int64)

  /** `dropWarnInterval`: five seconds. */
  const INTERVAL: int64 := 5_000_000_000

  const TWO63 := 0x8000_0000_0000_0000

  /** `time.Duration(now - last)`, wrapping around. */
  function Elapsed(now: int64, last: int64): (d: int64) {
    var d := now - last;
    if d >= TWO63 then d - 2 * TWO63 else if d < -TWO63 then d + 2 * TWO63 else d
  }

  predicate Opens(interval: int64, now: int64, last: int64) { last == 0 || Elapsed(now, last) >= interval }

  function New(interval: int64): Warner { Warner(interval, 0, 0, map[], 0, [], []) }

  function PcOf(w: Warner, p: Producer): Pc { if p in w.pcs then w.pcs[p] else Idle }

  function Step(w: Warner, e: Event): Option<Warner> {
    match (PcOf(w, e.p), e)
    case (Idle, Add(p)) => Some(w.(dropped := w.dropped + 1, drops := w.drops + 1, pcs := w.pcs[p := Added]))
    case (Added, Clock(p, now)) => Some(w.(pcs := w.pcs[p := Stamped(now)]))
    case (Stamped(now), Load(p)) => Some(w.(pcs := w.pcs[p := Loaded(now, w.lastWarnedAt)]))
    case (Loaded(now, last), Try(p)) =>
      // Too early, or the compare-and-swap fails: another producer was faster.
      if !Opens(w.interval, now, last) || w.lastWarnedAt != last then Some(w.(pcs := w.pcs[p := Idle]))
      else Some(w.(lastWarnedAt := now, stamps := w.stamps + [now], pcs := w.pcs[p := Won(now)]))
    case (Won(stamp), Swap(p, at)) =>
      Some(w.(warnings := w.warnings + [Warning(w.dropped, stamp, at)], dropped := 0, pcs := w.pcs[p := Idle]))
    case _ => None
  }

  function Sum(warnings: seq<Warning>): int {
    if warnings == [] then 0 else Sum(warnings[..|warnings| - 1]) + warnings[|warnings| - 1].count
  }

  // ---- no drop is forgotten or reported twice ----

  lemma SumMore(warnings: seq<Warning>, w: Warning)
    ensures Sum(warnings + [w]) == Sum(warnings) + w.count
  {
    assert (warnings + [w])[..|warnings|] == warnings;
  }

  /** In every state of every run: what is pending and what warnings have reported is what was
      dropped. */
  lemma {:induction false} DropsConserved(interval: int64, events: seq<Event>, w: Warner)
    requires Exec(Step, New(interval), events) == Some(w)
    ensures w.dropped + Sum(w.warnings) == w.drops && w.dropped >= 0 && w.interval == interval
  {
    if events != [] {
      var init, e := events[..|events| - 1], events[|events| - 1];
      var mid := Exec(Step, New(interval), init).value;
      DropsConserved(interval, init, mid);
      if e.Swap? { SumMore(mid.warnings, Warning(mid.dropped, mid.pcs[e.p].stamp, e.at)); }
    }
  }

  function Winners(w: Warner): set<Producer> { set p | p in w.pcs && w.pcs[p].Won? }

  /** At most one warning per stamp stored: each stamp's producer has warned or is about to. */
  ghost predicate OneWarningEach(w: Warner) { |w.warnings| + |Winners(w)| == |w.stamps| }

  lemma WinnersStep(w: Warner, w': Warner, p: Producer, pc: Pc)
    requires w'.pcs == w.pcs[p := pc]
    ensures |Winners(w')| - |Winners(w)| == (if pc.Won? then 1 else 0) - (if PcOf(w, p).Won? then 1 else 0)
  {
    if pc.Won? {
      assert Winners(w') == Winners(w) + {p};
    } else {
      assert Winners(w') == Winners(w) - {p};
    }
  }

  lemma {:induction false} OneWarningPerStamp(interval: int64, events: seq<Event>, w: Warner)
    requires Exec(Step, New(interval), events) == Some(w)
    ensures OneWarningEach(w)
  {
    if events != [] {
      var init, e := events[..|events| - 1], events[|events| - 1];
      var mid := Exec(Step, New(interval), init).value;
      OneWarningPerStamp(interval, init, mid);
      WinnersStep(mid, w, e.p, PcOf(w, e.p));
    }
  }

  // ---- warnings follow their stamps one for one ----

  /** Storing a stamp: the producer's compare-and-swap succeeds. */
  predicate Stores(w: Warner, e: Event) { e.Try? && Step(w, e).Some? && Step(w, e).value.stamps != w.stamps }

  /** A stamp is stored only while no other producer has still to warn of its own. */
  ghost predicate Alone(interval: int64, events: seq<Event>) {
    forall i :: 0 <= i < |events| ==> AloneAt(interval, events[..i], events[i])
  }

  ghost predicate AloneAt(interval: int64, before: seq<Event>, e: Event) {
    var w := Exec(Step, New(interval), before);
    w.Some? && Stores(w.value, e) ==> Winners(w.value) == {}
  }

  /** At no time is more than one warning outstanding. */
  ghost predicate InTurn(interval: int64, events: seq<Event>) {
    forall i :: 0 <= i <= |events| ==> InTurnAt(interval, events[..i])
  }

  ghost predicate InTurnAt(interval: int64, before: seq<Event>) {
    var w := Exec(Step, New(interval), before);
    w.Some? ==> |w.value.stamps| <= |w.value.warnings| + 1
  }

  lemma AloneMore(interval: int64, events: seq<Event>, e: Event)
    ensures Alone(interval, events + [e]) <==> Alone(interval, events) && AloneAt(interval, events, e)
  {
    var more := events + [e];
    assert more[..|events|] == events && more[|events|] == e;
    assert forall i :: 0 <= i < |events| ==> more[..i] == events[..i] && more[i] == events[i];
    if Alone(interval, more) {
      assert AloneAt(interval, more[..|events|], more[|events|]);
      forall i | 0 <= i < |events| ensures AloneAt(interval, events[..i], events[i]) {
        assert AloneAt(interval, more[..i], more[i]);
      }
    }
  }

  lemma InTurnMore(interval: int64, events: seq<Event>, e: Event)
    ensures InTurn(interval, events + [e]) <==> InTurn(interval, events) && InTurnAt(interval, events + [e])
  {
    var more := events + [e];
    assert more[..|more|] == more;
    assert forall i :: 0 <= i <= |events| ==> more[..i] == events[..i];
    if InTurn(interval, more) {
      assert InTurnAt(interval, more[..|more|]);
      forall i | 0 <= i <= |events| ensures InTurnAt(interval, events[..i]) { assert InTurnAt(interval, more[..i]); }
    }
  }

  lemma TurnStep(interval: int64, events: seq<Event>, e: Event)
    requires Exec(Step, New(interval), events + [e]).Some? && InTurnAt(interval, events)
    ensures InTurnAt(interval, events + [e]) <==> AloneAt(interval, events, e)
  {
    ExecMore(Step, New(interval), events, e);
    var w := Exec(Step, New(interval), events).value;
    var w' := Exec(Step, New(interval), events + [e]).value;
    OneWarningPerStamp(interval, events, w);
    OneWarningPerStamp(interval, events + [e], w');
    WinnersStep(w, w', e.p, PcOf(w', e.p));
  }

  /** In every run: warnings are given one at a time, each before the next stamp is stored,
      exactly if no producer stores a stamp while another has still to warn. */
  lemma {:induction false} WarningsInTurn(interval: int64, events: seq<Event>)
    requires Exec(Step, New(interval), events).Some?
    ensures InTurn(interval, events) <==> Alone(interval, events)
  {
    if events == [] {
      assert InTurnAt(interval, events[..0]);
    } else {
      var init, e := events[..|events| - 1], events[|events| - 1];
      assert events == init + [e];
      WarningsInTurn(interval, init);
      AloneMore(interval, init, e);
      InTurnMore(interval, init, e);
      if InTurn(interval, init) {
        assert init[..|init|] == init && InTurnAt(interval, init[..|init|]);
        TurnStep(interval, init, e);
      }
    }
  }

  /** The i-th warning is of the i-th stamp, and whoever has still to warn has stored the last. */
  ghost predicate Ordered(w: Warner) {
    && |w.warnings| <= |w.stamps|
    && (forall i :: 0 <= i < |w.warnings| ==> w.warnings[i].stamp == w.stamps[i])
    && (forall p :: p in w.pcs && w.pcs[p].Won? ==>
          |w.stamps| == |w.warnings| + 1 && w.pcs[p].stamp == w.stamps[|w.warnings|])
  }

  lemma OrderedStep(w: Warner, e: Event, w': Warner)
    requires Ordered(w) && Step(w, e) == Some(w') && (Stores(w, e) ==> Winners(w) == {})
    requires OneWarningEach(w) && OneWarningEach(w')
    ensures Ordered(w')
  {
    if e.Swap? {
      assert Winners(w') == {};
      NoWinners(w');
    } else if Stores(w, e) {
      NoWinners(w);
    }
  }

  lemma NoWinners(w: Warner)
    requires Winners(w) == {}
    ensures forall p :: p in w.pcs ==> !w.pcs[p].Won?
  {
    forall p | p in w.pcs ensures !w.pcs[p].Won? {
      assert p !in Winners(w);
    }
  }

  /** Then also the i-th warning in the log is that of the i-th stamp. */
  lemma {:induction false} WarningsInOrder(interval: int64, events: seq<Event>, w: Warner)
    requires Exec(Step, New(interval), events) == Some(w) && Alone(interval, events)
    ensures Ordered(w)
  {
    if events != [] {
      var init, e := events[..|events| - 1], events[|events| - 1];
      var mid := Exec(Step, New(interval), init).value;
      assert events == init + [e];
      AloneMore(interval, init, e);
      WarningsInOrder(interval, init, mid);
      OneWarningPerStamp(interval, init, mid);
      OneWarningPerStamp(interval, events, w);
      WarningsInTurn(interval, events);
      assert events[..|events|] == events && InTurnAt(interval, events[..|events|]);
      OrderedStep(mid, e, w);
    }
  }

  // ---- the rate limit ----

  /** What a producer that is about to try must have loaded: 0 or a stamp stored before. Every
      stamp stored after the first replaced the one before it, having passed the test. */
  ghost predicate Spaced(w: Warner) {
    && w.lastWarnedAt == (if w.stamps == [] then 0 else w.stamps[|w.stamps| - 1])
    && forall i :: 0 < i < |w.stamps| ==> Opens(w.interval, w.stamps[i], w.stamps[i - 1])
  }

  lemma {:induction false} StampsSpaced(interval: int64, events: seq<Event>, w: Warner)
    requires Exec(Step, New(interval), events) == Some(w)
    ensures Spaced(w) && w.interval == interval
  {
    if events != [] {
      var init := events[..|events| - 1];
      StampsSpaced(interval, init, Exec(Step, New(interval), init).value);
    }
  }

  /** Whatever the clocks show and however the steps interleave: after a stamp other than 0 the
      next one is at least an interval later, exactly unless it is so much earlier that their
      difference overflows. */
  lemma NextStampIsLater(interval: int64, events: seq<Event>, w: Warner, i: nat)
    requires interval > 0 && Exec(Step, New(interval), events) == Some(w)
    requires i + 1 < |w.stamps| && w.stamps[i] != 0
    ensures w.stamps[i + 1] - w.stamps[i] >= interval <==> w.stamps[i + 1] - w.stamps[i] >= -TWO63
  {
    StampsSpaced(interval, events, w);
    assert Opens(interval, w.stamps[i + 1], w.stamps[(i + 1) - 1]);
  }

  predicate Increasing(stamps: seq<int64>, interval: int64) {
    forall i :: 0 < i < |stamps| ==> stamps[i] - stamps[i - 1] >= interval
  }

  /** How many of the stamps lie in a range. */
  function CountIn(stamps: seq<int64>, from: int, to: int): nat {
    if stamps == [] then 0 else
    var last := stamps[|stamps| - 1];
    CountIn(stamps[..|stamps| - 1], from, to) + (if from <= last <= to then 1 else 0)
  }

  lemma {:induction false} CountShrinks(stamps: seq<int64>, interval: int64, from: int, to: int, to': int)
    requires interval > 0 && Increasing(stamps, interval)
    requires stamps != [] ==> stamps[|stamps| - 1] <= to' <= to
    ensures CountIn(stamps, from, to) == CountIn(stamps, from, to')
  {
    if stamps != [] {
      var init := stamps[..|stamps| - 1];
      CountShrinks(init, interval, from, to, to');
    }
  }

  lemma OneMore(interval: int, n: int, shorter: int, length: int)
    requires interval * n <= shorter + interval && shorter + interval <= length
    ensures interval * (n + 1) <= length + interval
  {
  }

  lemma {:induction false} CountBound(stamps: seq<int64>, interval: int64, from: int, to: int)
    requires interval > 0 && Increasing(stamps, interval)
    ensures from <= to ==> interval * CountIn(stamps, from, to) <= to - from + interval
    ensures from > to ==> CountIn(stamps, from, to) == 0
  {
    if stamps == [] {
    } else {
      var init, last := stamps[..|stamps| - 1], stamps[|stamps| - 1];
      if from <= last <= to {
        CountBound(init, interval, from, last - interval);
        CountShrinks(init, interval, from, to, last - interval);
        OneMore(interval, CountIn(init, from, to), last - interval - from, to - from);
      } else {
        CountBound(init, interval, from, to);
      }
    }
  }

  lemma Scale(a: int, x: int, y: int)
    requires a > 0 && x >= y
    ensures a * x >= a * y
  {
  }

  lemma Quotient(n: nat, interval: int, length: int)
    requires interval > 0 && length >= 0 && interval * n <= length + interval
    ensures n <= length / interval + 1
  {
    var q := length / interval;
    assert length < interval * q + interval;
    assert interval * (q + 2) == interval * q + 2 * interval;
    if n >= q + 2 { Scale(interval, n, q + 2); }
  }

  predicate Positive(stamps: seq<int64>) { forall i :: 0 <= i < |stamps| ==> stamps[i] > 0 }

  /** With clocks that read later than the Unix epoch, however they jump: a range of some length
      holds at most length / interval + 1 stamps. */
  lemma RateLimited(interval: int64, events: seq<Event>, w: Warner, from: int, length: nat)
    requires interval > 0 && Exec(Step, New(interval), events) == Some(w) && Positive(w.stamps)
    ensures CountIn(w.stamps, from, from + length) <= length / interval + 1
  {
    forall i | 0 < i < |w.stamps| ensures w.stamps[i] - w.stamps[i - 1] >= interval {
      NextStampIsLater(interval, events, w, i - 1);
    }
    CountBound(w.stamps, interval, from, from + length);
    Quotient(CountIn(w.stamps, from, from + length), interval, length);
  }

  // ---- what the log shows ----

  /** In a run where warnings are in turn, with clocks after the epoch that do not go back within
      a call: a warning is logged at least an interval after the one before it, less the time by
      which that one came after its own stamp. */
  lemma WarningsSpaced(interval: int64, events: seq<Event>, w: Warner, i: nat)
    requires interval > 0 && Exec(Step, New(interval), events) == Some(w) && Alone(interval, events)
    requires Positive(w.stamps) && i + 1 < |w.warnings| && w.warnings[i + 1].at >= w.warnings[i + 1].stamp
    ensures w.warnings[i + 1].at - w.warnings[i].at >= interval - (w.warnings[i].at - w.warnings[i].stamp)
  {
    WarningsInOrder(interval, events, w);
    NextStampIsLater(interval, events, w, i);
  }

  function StoreSteps(p: Producer, now: int64): seq<Event> { [Add(p), Clock(p, now), Load(p), Try(p)] }

  /** A producer runs undisturbed up to the point where it has stored its stamp. */
  lemma StoreRun(w: Warner, p: Producer, now: int64)
    requires PcOf(w, p) == Idle && Opens(w.interval, now, w.lastWarnedAt)
    ensures Exec(Step, w, StoreSteps(p, now)) == Some(Stored(w, p, now))
  {
    var added := Step(w, Add(p)).value;
    var stamped := Step(added, Clock(p, now)).value;
    var loaded := Step(stamped, Load(p)).value;
    var stored := Step(loaded, Try(p)).value;
    ExecFour(Step, w, Add(p), Clock(p, now), Load(p), Try(p), added, stamped, loaded, stored);
    assert stored.pcs == w.pcs[p := Won(now)];
  }

  function Stored(w: Warner, p: Producer, now: int64): Warner {
    w.(dropped := w.dropped + 1, drops := w.drops + 1, lastWarnedAt := now, stamps := w.stamps + [now],
       pcs := w.pcs[p := Won(now)])
  }

  /** A producer stores its stamp an interval after another one that has not yet warned: both
      warnings are logged at once, and the second reports no drop at all. */
  lemma StalledWinnerWarnsTwice()
    ensures var t := INTERVAL + 1;
      var end := Exec(Step, New(INTERVAL), StoreSteps(0, 1) + StoreSteps(1, t) + [Swap(0, t), Swap(1, t)]);
      end.Some? && end.value.stamps == [1, t] && end.value.warnings == [Warning(2, 1, t), Warning(0, t, t)]
  {
    var t, w := INTERVAL + 1, New(INTERVAL);
    var w1 := Stored(w, 0, 1);
    var w2 := Stored(w1, 1, t);
    StoreRun(w, 0, 1);
    StoreRun(w1, 1, t);
    var w3 := Step(w2, Swap(0, t)).value;
    ExecTwo(Step, w2, Swap(0, t), Swap(1, t), w3, Step(w3, Swap(1, t)).value);
    ExecConcat(Step, w, StoreSteps(0, 1), StoreSteps(1, t));
    ExecConcat(Step, w, StoreSteps(0, 1) + StoreSteps(1, t), [Swap(0, t), Swap(1, t)]);
  }

  function DelayedRun(delay: int64): seq<Event>
    requires 0 <= delay <= INTERVAL
  {
    StoreSteps(0, 1) + [Swap(0, 1 + delay)] + StoreSteps(1, INTERVAL + 1) + [Swap(1, INTERVAL + 1)]
  }

  /** Being in turn alone is not enough: for every delay there is a run in which the next warning
      comes just so much less than an interval after the delayed one. */
  lemma DelayedWarningIsClose(delay: int64)
    requires 0 <= delay <= INTERVAL
    ensures var t, late := INTERVAL + 1, 1 + delay;
      var end := Exec(Step, New(INTERVAL), DelayedRun(delay));
      && end.Some? && end.value.stamps == [1, t] && end.value.interval == INTERVAL
      && end.value.warnings == [Warning(1, 1, late), Warning(1, t, t)] && t - late == INTERVAL - delay
  {
    var t, late, w := INTERVAL + 1, 1 + delay, New(INTERVAL);
    var w1 := Stored(w, 0, 1);
    var w2 := Step(w1, Swap(0, late)).value;
    var w3 := Stored(w2, 1, t);
    StoreRun(w, 0, 1);
    ExecMore(Step, w, StoreSteps(0, 1), Swap(0, late));
    StoreRun(w2, 1, t);
    ExecConcat(Step, w, StoreSteps(0, 1) + [Swap(0, late)], StoreSteps(1, t));
    ExecMore(Step, w, StoreSteps(0, 1) + [Swap(0, late)] + StoreSteps(1, t), Swap(1, t));
  }

  lemma AloneSkip(events: seq<Event>, e: Event)
    requires Alone(INTERVAL, events) && !e.Try?
    ensures Alone(INTERVAL, events + [e])
  {
    AloneMore(INTERVAL, events, e);
  }

  /** If the run is possible, nobody has still to warn after it. */
  ghost predicate AllWarned(events: seq<Event>) {
    var w := Exec(Step, New(INTERVAL), events);
    w.Some? ==> Winners(w.value) == {}
  }

  lemma AllWarnedSkip(events: seq<Event>, e: Event)
    requires AllWarned(events) && !e.Try?
    ensures AllWarned(events + [e])
  {
    var w := Exec(Step, New(INTERVAL), events);
    ExecMore(Step, New(INTERVAL), events, e);
    if w.Some? && Step(w.value, e).Some? {
      NoWinners(w.value);
      assert Winners(Step(w.value, e).value) == {};
    }
  }

  lemma AloneStore(events: seq<Event>, p: Producer, now: int64)
    requires Alone(INTERVAL, events) && AllWarned(events)
    ensures Alone(INTERVAL, events + StoreSteps(p, now))
  {
    var a := events + [Add(p)];
    var b := a + [Clock(p, now)];
    var c := b + [Load(p)];
    AloneSkip(events, Add(p)); AllWarnedSkip(events, Add(p));
    AloneSkip(a, Clock(p, now)); AllWarnedSkip(a, Clock(p, now));
    AloneSkip(b, Load(p)); AllWarnedSkip(b, Load(p));
    AloneMore(INTERVAL, c, Try(p));
    assert c + [Try(p)] == events + StoreSteps(p, now);
  }

  lemma DelayedRunIsAlone(delay: int64)
    requires 0 <= delay <= INTERVAL
    ensures Alone(INTERVAL, DelayedRun(delay))
  {
    var w, late := New(INTERVAL), 1 + delay;
    var w2 := Step(Stored(w, 0, 1), Swap(0, late)).value;
    assert Exec(Step, w, []) == Some(w) && Alone(INTERVAL, []);
    AloneStore([], 0, 1);
    assert [] + StoreSteps(0, 1) == StoreSteps(0, 1);
    StoreRun(w, 0, 1);
    ExecMore(Step, w, StoreSteps(0, 1), Swap(0, late));
    AloneSkip(StoreSteps(0, 1), Swap(0, late));
    assert Winners(w2) == {};
    AloneStore(StoreSteps(0, 1) + [Swap(0, late)], 1, INTERVAL + 1);
    AloneSkip(StoreSteps(0, 1) + [Swap(0, late)] + StoreSteps(1, INTERVAL + 1), Swap(1, INTERVAL + 1));
  }

  /** Every warning is logged at its stamp or at most this much later. */
  predicate Prompt(w: Warner, delay: nat) {
    forall i :: 0 <= i < |w.warnings| ==> 0 <= w.warnings[i].at - w.warnings[i].stamp <= delay
  }

  predicate ApartInLog(w: Warner) {
    forall i :: 0 < i < |w.warnings| ==> w.warnings[i].at - w.warnings[i - 1].at >= w.interval
  }

  /** If warnings are in turn, clocks are after the epoch and no warning is delayed by more, the log
      has at most one warning in an interval. */
  ghost predicate LogIsLimited(events: seq<Event>, delay: nat) {
    var end := Exec(Step, New(INTERVAL), events);
    end.Some? && Alone(INTERVAL, events) && Positive(end.value.stamps) && Prompt(end.value, delay) ==>
      ApartInLog(end.value)
  }

  lemma PromptIsApart(events: seq<Event>)
    ensures LogIsLimited(events, 0)
  {
    var end := Exec(Step, New(INTERVAL), events);
    if end.Some? && Alone(INTERVAL, events) && Positive(end.value.stamps) && Prompt(end.value, 0) {
      DropsConserved(INTERVAL, events, end.value);
      forall i | 0 < i < |end.value.warnings|
        ensures end.value.warnings[i].at - end.value.warnings[i - 1].at >= INTERVAL
      {
        WarningsSpaced(INTERVAL, events, end.value, i - 1);
      }
    }
  }

  /** That holds of every run exactly if warnings are not delayed at all. */
  lemma LimitNeedsPromptness(delay: nat)
    ensures (forall events :: LogIsLimited(events, delay)) <==> delay == 0
  {
    if delay == 0 {
      forall events: seq<Event> ensures LogIsLimited(events, delay) { PromptIsApart(events); }
    } else {
      var d: int64 := if delay < INTERVAL then delay else INTERVAL;
      DelayedWarningIsClose(d);
      DelayedRunIsAlone(d);
      var end := Exec(Step, New(INTERVAL), DelayedRun(d)).value;
      assert end.warnings[1].at - end.warnings[1 - 1].at < INTERVAL;
      assert !LogIsLimited(DelayedRun(d), delay);
    }
  }

  /** A clock that jumps back from the largest int64 to before the epoch: the difference
      overflows, and a much earlier stamp is stored after a later one. */
  lemma OverflowStoresEarlier()
    ensures var end := Exec(Step, New(INTERVAL), StoreSteps(0, TWO63 - 1) + StoreSteps(1, -2));
      end.Some? && end.value.stamps == [TWO63 - 1, -2]
  {
    var w := New(INTERVAL);
    StoreRun(w, 0, TWO63 - 1);
    StoreRun(Stored(w, 0, TWO63 - 1), 1, -2);
    ExecConcat(Step, w, StoreSteps(0, TWO63 - 1), StoreSteps(1, -2));
  }

  // ---- one call that nobody interferes with ----

  function Atomics(dropped: int, lastWarnedAt: int64): Warner {
    Warner(INTERVAL, dropped, lastWarnedAt, map[], 0, [], [])
  }

  function CallSteps(p: Producer, now: int64, opens: bool): seq<Event> {
    StoreSteps(p, now) + (if opens then [Swap(p, now)] else [])
  }

  /** It warns of all pending drops and its own, or leaves them pending. */
  lemma CallAlone(dropped: int, last: int64, now: int64, p: Producer)
    ensures var opens := Opens(INTERVAL, now, last);
      var end := Exec(Step, Atomics(dropped, last), CallSteps(p, now, opens));
      end.Some? && end.value.lastWarnedAt == (if opens then now else last)
      && end.value.dropped == (if opens then 0 else dropped + 1)
      && end.value.warnings == (if opens then [Warning(dropped + 1, now, now)] else [])
  {
    var w, opens := Atomics(dropped, last), Opens(INTERVAL, now, last);
    var added := Step(w, Add(p)).value;
    var stamped := Step(added, Clock(p, now)).value;
    var loaded := Step(stamped, Load(p)).value;
    var tried := Step(loaded, Try(p)).value;
    ExecFour(Step, w, Add(p), Clock(p, now), Load(p), Try(p), added, stamped, loaded, tried);
    ExecMore(Step, w, CallSteps(p, now, false), Swap(p, now));
    assert CallSteps(p, now, false) == [Add(p), Clock(p, now), Load(p), Try(p)];
    assert opens ==> CallSteps(p, now, true) == CallSteps(p, now, false) + [Swap(p, now)];
  }
}
