/** Which daily shard files a query looks at. */
module Shards {
  import opened Text
  import opened Calendar
  import opened Timestamps
  import opened Sql

  const MAX_ATTACHED := 10

  /** The file of one day's shard, inside the data directory. */
  function Path(date: string): string { "logs_" + date + ".db" }

  /** The data directory: each shard file's table, by file name. */
  type Disk = map<string, Table>

  function TableAt(disk: Disk, date: string): Table { if Path(date) in disk then disk[Path(date)] else [] }

  lemma PathInjective(a: string, b: string)
    requires Path(a) == Path(b)
    ensures a == b
  {
    var p := Path(a);
    assert |a| == |b|;
    assert a == p[5..5 + |a|] && b == Path(b)[5..5 + |b|];
  }

  predicate Exists(files: set<string>, n: Day) { Path(Name(n)) in files }

  /** The days that have a shard file. */
  ghost function Present(files: set<string>): set<Day> {
    set n: nat | n < DAYS && Exists(files, n)
  }

  /** Those of them at start, start + 24h, ... up to end. */
  ghost function ShardDays(present: set<Day>, start: nat, end: Time): (days: seq<Day>)
    decreases end + 1 - start
  {
    if start > end then []
    else (if DayOf(start) in present then [DayOf(start)] else []) + ShardDays(present, start + NS_PER_DAY, end)
  }

  function Latest<T>(s: seq<T>, n: nat): seq<T> { if |s| > n then s[|s| - n..] else s }

  function Names(days: seq<Day>): (names: seq<string>)
    ensures |names| == |days| && forall i :: 0 <= i < |days| ==> names[i] == Name(days[i])
  {
    seq(|days|, i requires 0 <= i < |days| => Name(days[i]))
  }

  /** Their names. */
  function ShardDates(files: set<string>, start: nat, end: Time): seq<string>
    decreases end + 1 - start
  {
    if start > end then []
    else DateIfPresent(files, Name(DayOf(start))) + ShardDates(files, start + NS_PER_DAY, end)
  }

  function DateIfPresent(files: set<string>, date: string): seq<string> {
    if Path(date) in files then [date] else []
  }

  lemma NextDate(files: set<string>, d: Time, end: Time, before: seq<string>)
    requires d <= end
    ensures before + ShardDates(files, d, end)
         == before + DateIfPresent(files, Name(DayOf(d))) + ShardDates(files, d + NS_PER_DAY, end)
  {
    var head, rest := DateIfPresent(files, Name(DayOf(d))), ShardDates(files, d + NS_PER_DAY, end);
    assert ShardDates(files, d, end) == head + rest;
    assert before + (head + rest) == before + head + rest;
  }

  /** `existingShardDates` */
  method ExistingShardDates(files: set<string>, start: Time, end: Time) returns (dates: seq<string>, capped: bool)
    ensures dates == Latest(ShardDates(files, start, end), MAX_ATTACHED)
    ensures capped <==> |ShardDates(files, start, end)| > MAX_ATTACHED
  {
    ghost var all := ShardDates(files, start, end);
    dates := [];
    var d: nat := start;
    while d <= end
      invariant dates + ShardDates(files, d, end) == all
      decreases end + 1 - d
    {
      var date := Name(DayOf(d));
      ghost var before := dates;
      if Path(date) in files {
        dates := dates + [date];
      }
      assert dates == before + DateIfPresent(files, date);
      NextDate(files, d, end, before);
      d := d + NS_PER_DAY;
    }
    assert dates == all;
    if |dates| > MAX_ATTACHED {
      var dropped := |dates| - MAX_ATTACHED;
      return dates[dropped..], true;
    }
    return dates, false;
  }

  lemma DateIfPresentNames(files: set<string>, d: Day)
    ensures DateIfPresent(files, Name(d)) == Names(if d in Present(files) then [d] else [])
  {
    assert Names([d]) == [Name(d)];
  }

  lemma {:induction false} ShardDatesNames(files: set<string>, start: nat, end: Time)
    ensures ShardDates(files, start, end) == Names(ShardDays(Present(files), start, end))
    decreases end + 1 - start
  {
    if start <= end {
      var head := if DayOf(start) in Present(files) then [DayOf(start)] else [];
      DateIfPresentNames(files, DayOf(start));
      ShardDatesNames(files, start + NS_PER_DAY, end);
      NamesConcat(head, ShardDays(Present(files), start + NS_PER_DAY, end));
    }
  }

  lemma NamesConcat(a: seq<Day>, b: seq<Day>)
    ensures Names(a + b) == Names(a) + Names(b)
  {
  }

  /** The dates a query attaches are the names of the latest days. */
  lemma LatestDates(files: set<string>, start: nat, end: Time)
    ensures Latest(ShardDates(files, start, end), MAX_ATTACHED)
         == Names(Latest(ShardDays(Present(files), start, end), MAX_ATTACHED))
  {
    ShardDatesNames(files, start, end);
    NamesDrop(ShardDays(Present(files), start, end));
  }

  lemma NamesDrop(days: seq<Day>)
    ensures Latest(Names(days), MAX_ATTACHED) == Names(Latest(days, MAX_ATTACHED))
  {
  }

  /** Day n is reached by whole-day steps from t no later than end. */
  predicate InRange(t: Time, end: Time, n: Day) { DayOf(t) <= n && t + (n - DayOf(t)) * NS_PER_DAY <= end }

  lemma RangeStep(t: Time, end: Time, n: Day)
    ensures t <= end && t + NS_PER_DAY <= end ==>
      (InRange(t, end, n) <==> n == DayOf(t) || InRange(t + NS_PER_DAY, end, n))
    ensures t <= end && t + NS_PER_DAY > end ==> (InRange(t, end, n) <==> n == DayOf(t))
    ensures t > end ==> !InRange(t, end, n)
  {
    var k := n - DayOf(t);
    if t <= end && t + NS_PER_DAY <= end {
      assert DayOf(t + NS_PER_DAY) == DayOf(t) + 1;
    }
    if k >= 1 { assert k * NS_PER_DAY >= NS_PER_DAY; }
  }

  /** Exactly the days in range with a file; a range whose last day starts later in the
      day than it ends loses that day. */
  lemma {:induction false} ShardDaysExact(present: set<Day>, start: Time, end: Time, n: Day)
    ensures n in ShardDays(present, start, end) <==> n in present && InRange(start, end, n)
    decreases end + 1 - start
  {
    RangeStep(start, end, n);
    if start <= end && start + NS_PER_DAY <= end { ShardDaysExact(present, start + NS_PER_DAY, end, n); }
  }

  function TimeOfDay(t: Time): nat { t - DayOf(t) * NS_PER_DAY }

  /** A range covers all of its days exactly if it does not end earlier in its day than it starts. */
  lemma RangeIsWholeDays(start: Time, end: Time)
    requires DayOf(start) <= DayOf(end)
    ensures (forall n: Day :: InRange(start, end, n) <==> DayOf(start) <= n <= DayOf(end))
       <==> TimeOfDay(start) <= TimeOfDay(end)
  {
    if TimeOfDay(start) > TimeOfDay(end) {
      assert !InRange(start, end, DayOf(end));
    }
  }

  /** A range that ends on the day after its start, but earlier in that day, lists only the first. */
  lemma LastDayCanBeLost(present: set<Day>)
    requires 0 in present && 1 in present
    ensures ShardDays(present, 1, NS_PER_DAY) == [0]
  {
    ShardDaysExact(present, 1, NS_PER_DAY, 0);
    assert ShardDays(present, 1 + NS_PER_DAY, NS_PER_DAY) == [];
    assert [0] + [] == [0 as Day];
  }

  predicate Ascending(days: seq<Day>) { forall i, j :: 0 <= i < j < |days| ==> days[i] < days[j] }

  lemma AscendingCons(d: Day, rest: seq<Day>)
    requires Ascending(rest) && forall i :: 0 <= i < |rest| ==> d < rest[i]
    ensures Ascending([d] + rest)
  {
  }

  /** Each of them once, in calendar order. */
  lemma {:induction false} ShardDaysAscending(present: set<Day>, start: Time, end: Time)
    ensures Ascending(ShardDays(present, start, end))
    decreases end + 1 - start
  {
    if start <= end && start + NS_PER_DAY <= end {
      var next := start + NS_PER_DAY;
      var rest := ShardDays(present, next, end);
      ShardDaysAscending(present, next, end);
      assert DayOf(next) == DayOf(start) + 1;
      forall i | 0 <= i < |rest| ensures DayOf(start) < rest[i] {
        ShardDaysExact(present, next, end, rest[i]);
        assert InRange(next, end, rest[i]);
      }
      AscendingCons(DayOf(start), rest);
      assert [] + rest == rest;
    }
  }

  lemma LatestAscending(all: seq<Day>, n: nat)
    requires Ascending(all)
    ensures Ascending(Latest(all, n)) && |Latest(all, n)| == (if |all| < n then |all| else n)
    ensures forall d, k :: d in all && d !in Latest(all, n) && k in Latest(all, n) ==> d < k
  {
    if |all| > n {
      var kept, dropped := Latest(all, n), all[..|all| - n];
      assert all == dropped + kept;
      forall d, k | d in dropped && k in kept ensures d < k {
        var i :| 0 <= i < |dropped| && dropped[i] == d;
        var j :| 0 <= j < |kept| && kept[j] == k;
        assert all[i] == d && all[|all| - n + j] == k;
      }
    }
  }

  /** The cap keeps the most recent days: at most ten, in ascending order, each later than
      every day it dropped. */
  lemma CapKeepsLatest(present: set<Day>, start: Time, end: Time)
    ensures var all, kept := ShardDays(present, start, end), Latest(ShardDays(present, start, end), MAX_ATTACHED);
      |kept| == (if |all| < MAX_ATTACHED then |all| else MAX_ATTACHED)
      && Ascending(kept)
      && forall d, k :: d in all && d !in kept && k in kept ==> d < k
  {
    ShardDaysAscending(present, start, end);
    LatestAscending(ShardDays(present, start, end), MAX_ATTACHED);
  }
}
