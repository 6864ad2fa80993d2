/** The latest indexed time of a container, found by looking at one day's shard after the
    other, newest first, and comparing timestamps as text. */
module Recency {
  import opened Text
  import opened Calendar
  import opened Timestamps
  import opened Sql
  import opened Shards
  import opened Ranking
  import opened Ingest

  const LOOKBACK_DAYS := 30

  predicate RowFor(r: Row, pod: string, container: string) { r.pod == pod && r.container == container }

  /** `SELECT timestamp FROM fts WHERE pod = ? AND container = ?` */
  function Stamps(table: Table, pod: string, container: string): seq<string> {
    if table == [] then []
    else (if RowFor(table[0], pod, container) then [table[0].timestamp] else []) + Stamps(table[1..], pod, container)
  }

  /** `MAX` over text; NULL for no rows. */
  function Max(stamps: seq<string>): Option<string> {
    if stamps == [] then None else
    match Max(stamps[1..])
    case None => Some(stamps[0])
    case Some(m) => Some(if Less(m, stamps[0]) then stamps[0] else m)
  }

  /** `lastSeenInShard` */
  function LastSeenIn(zone: string, table: Table, pod: string, container: string): Result<Option<nat>> {
    match Max(Stamps(table, pod, container))
    case None => Ok(None)
    case Some(m) =>
      match ParseStamp(zone, m)
      case None => Err("parse timestamp")
      case Some(t) => Ok(Some(t))
  }

  /** What one day's shard says; no file says nothing, a failing query is an error. */
  function LastSeenOn(zone: string, disk: Disk, unreadable: set<string>, date: string, pod: string, container: string):
    Result<Option<nat>>
  {
    if Path(date) !in disk then Ok(None)
    else if date in unreadable then Err("query last-seen")
    else LastSeenIn(zone, disk[Path(date)], pod, container)
  }

  /** The first answer other than "nothing" among f(back), ..., f(n - 1). */
  function Scan(f: nat -> Result<Option<nat>>, back: nat, n: nat): Result<Option<nat>>
    decreases n - back
  {
    if back >= n then Ok(None) else if f(back) != Ok(None) then f(back) else Scan(f, back + 1, n)
  }

  function WindowLength(today: Day): nat { if today < LOOKBACK_DAYS then today + 1 else LOOKBACK_DAYS }

  function DaysBack(zone: string, disk: Disk, unreadable: set<string>, today: Day, pod: string, container: string):
    nat -> Result<Option<nat>>
  {
    (back: nat) =>
      if back > today then Ok(None) else LastSeenOn(zone, disk, unreadable, Name(today - back), pod, container)
  }

  /** `LastSeen`: today's shard, yesterday's and so on. */
  function LastSeen(zone: string, disk: Disk, unreadable: set<string>, today: Day, pod: string, container: string):
    Result<Option<nat>>
  {
    Scan(DaysBack(zone, disk, unreadable, today, pod, container), 0, WindowLength(today))
  }

  lemma ScanStep(f: nat -> Result<Option<nat>>, back: nat, n: nat)
    requires back < n
    ensures Scan(f, back, n) == if f(back) == Ok(None) then Scan(f, back + 1, n) else f(back)
  {
  }

  lemma DayBack(zone: string, disk: Disk, unreadable: set<string>, today: Day, pod: string, container: string,
                back: nat)
    requires back <= today
    ensures DaysBack(zone, disk, unreadable, today, pod, container)(back)
         == LastSeenOn(zone, disk, unreadable, Name(today - back), pod, container)
  {
  }

  // ---- MAX over text ----

  lemma {:induction false} MaxIsGreatest(stamps: seq<string>)
    ensures Max(stamps).None? <==> stamps == []
    ensures Max(stamps).Some? ==> Max(stamps).value in stamps
    ensures Max(stamps).Some? ==> forall s :: s in stamps ==> !Less(Max(stamps).value, s)
  {
    if stamps != [] {
      MaxIsGreatest(stamps[1..]);
      forall s | s in stamps ensures !Less(Max(stamps).value, s) {
        LessTrichotomy(s, s);
        if Max(stamps[1..]).Some? {
          var m := Max(stamps[1..]).value;
          LessTrichotomy(m, stamps[0]);
          if s in stamps[1..] && Less(m, stamps[0]) && Less(stamps[0], s) { LessTransitive(m, stamps[0], s); }
        }
      }
    }
  }

  lemma {:induction false} StampsExact(table: Table, pod: string, container: string, s: string)
    ensures s in Stamps(table, pod, container)
      <==> exists i :: 0 <= i < |table| && RowFor(table[i], pod, container) && table[i].timestamp == s
  {
    if table != [] {
      var rest := table[1..];
      StampsExact(rest, pod, container, s);
      if s in Stamps(rest, pod, container) {
        var i :| 0 <= i < |rest| && RowFor(rest[i], pod, container) && rest[i].timestamp == s;
        assert table[i + 1] == rest[i];
      }
      if i :| 0 <= i < |table| && RowFor(table[i], pod, container) && table[i].timestamp == s {
        if i > 0 { assert rest[i - 1] == table[i]; }
      }
    }
  }

  // ---- times ----

  /** The container has a row written at t. */
  ghost predicate Seen(zone: string, disk: Disk, pod: string, container: string, t: Time) {
    Stamp(zone, t) in Stamps(TableAt(disk, Name(DayOf(t))), pod, container)
  }

  predicate InWindow(today: Day, t: Time) { DayOf(t) <= today && today - DayOf(t) < LOOKBACK_DAYS }

  ghost predicate IsLatest(zone: string, disk: Disk, pod: string, container: string, today: Day, t: Time) {
    && Seen(zone, disk, pod, container, t) && InWindow(today, t)
    && forall u: Time :: Seen(zone, disk, pod, container, u) && InWindow(today, u) ==> u <= t
  }

  /** Another row of the latest second whose fraction is a proper prefix of the latest one's:
      under `Z` its text is greater. */
  ghost predicate Shadowed(zone: string, disk: Disk, pod: string, container: string, t: Time) {
    exists u: Time :: Seen(zone, disk, pod, container, u) && u < t && u / NS == t / NS
      && Fraction(NanoOf(u)) <= Fraction(NanoOf(t))
  }

  lemma EveryStampIsATime(zone: string, disk: Disk, pod: string, container: string, n: Day, s: string) returns (t: Time)
    requires ShardOk(zone, disk, n) && s in Stamps(TableAt(disk, Name(n)), pod, container)
    ensures DayOf(t) == n && s == Stamp(zone, t) && Seen(zone, disk, pod, container, t)
  {
    var table := TableAt(disk, Name(n));
    StampsExact(table, pod, container, s);
    var i :| 0 <= i < |table| && RowFor(table[i], pod, container) && table[i].timestamp == s;
    t :| DayOf(t) == n && table[i].timestamp == Stamp(zone, t);
  }

  lemma SecondOrder(a: Time, b: Time)
    requires a / NS < b / NS
    ensures a < b
  {
  }

  lemma SameSecondSameDay(a: Time, b: Time)
    requires a / NS == b / NS
    ensures DayOf(a) == DayOf(b)
  {
    Fields(a); Fields(b);
  }

  /** The greatest text of a day's shard was written in the shard's latest second, and at the
      latest time itself exactly if the zone is numeric or nothing shadows it. */
  lemma GreatestTextIsLatest(zone: string, disk: Disk, pod: string, container: string, n: Day, g: Time, latest: Time)
    requires IsZone(zone) && DayOf(g) == DayOf(latest) == n
    requires Seen(zone, disk, pod, container, g) && Seen(zone, disk, pod, container, latest)
    requires forall s :: s in Stamps(TableAt(disk, Name(n)), pod, container) ==> !Less(Stamp(zone, g), s)
    requires forall u: Time :: DayOf(u) == n && Seen(zone, disk, pod, container, u) ==> u <= latest
    ensures g / NS == latest / NS && g <= latest
    ensures g == latest <==> NumericZone(zone) || !Shadowed(zone, disk, pod, container, latest)
  {
    if g / NS < latest / NS { LaterSecondIsGreater(zone, g, latest); }
    if g / NS > latest / NS { SecondOrder(latest, g); }
    if g < latest {
      SameSecondOrder(zone, g, latest);
    } else {
      if !NumericZone(zone) && Shadowed(zone, disk, pod, container, latest) {
        var u: Time :| Seen(zone, disk, pod, container, u) && u < latest && u / NS == latest / NS
          && Fraction(NanoOf(u)) <= Fraction(NanoOf(latest));
        SameSecondSameDay(u, latest);
        SameSecondOrder(zone, u, latest);
        LessTrichotomy(Stamp(zone, u), Stamp(zone, latest));
        if Stamp(zone, u) == Stamp(zone, latest) { StampRoundTrip(zone, u); StampRoundTrip(zone, latest); }
        assert false;
      }
    }
  }

  lemma {:induction false} ScanStops(f: nat -> Result<Option<nat>>, back: nat, n: nat, k: nat)
    requires back <= k < n && f(k) != Ok(None) && forall j: nat :: back <= j < k ==> f(j) == Ok(None)
    ensures Scan(f, back, n) == f(k)
    decreases n - back
  {
    if back < k { ScanStops(f, back + 1, n, k); }
  }

  lemma {:induction false} ScanRunsOut(f: nat -> Result<Option<nat>>, back: nat, n: nat)
    requires forall j: nat :: back <= j < n ==> f(j) == Ok(None)
    ensures Scan(f, back, n) == Ok(None)
    decreases n - back
  {
    if back < n { ScanRunsOut(f, back + 1, n); }
  }

  /** The container has no row in the day's shard. */
  predicate NoRows(disk: Disk, n: Day, pod: string, container: string) {
    Stamps(TableAt(disk, Name(n)), pod, container) == []
  }

  lemma NothingOn(zone: string, disk: Disk, n: Day, pod: string, container: string)
    requires NoRows(disk, n, pod, container)
    ensures LastSeenOn(zone, disk, {}, Name(n), pod, container) == Ok(None)
  {
  }

  lemma SomethingOn(zone: string, disk: Disk, n: Day, pod: string, container: string)
    requires !NoRows(disk, n, pod, container)
    ensures LastSeenOn(zone, disk, {}, Name(n), pod, container)
         == LastSeenIn(zone, TableAt(disk, Name(n)), pod, container)
    ensures LastSeenIn(zone, TableAt(disk, Name(n)), pod, container) != Ok(None)
  {
    MaxIsGreatest(Stamps(TableAt(disk, Name(n)), pod, container));
  }

  lemma NothingAfter(zone: string, disk: Disk, today: Day, pod: string, container: string, n: Day)
    requires n <= today && forall k: Day :: n < k <= today ==> NoRows(disk, k, pod, container)
    ensures forall j: nat :: j < today - n ==> DaysBack(zone, disk, {}, today, pod, container)(j) == Ok(None)
  {
    forall j: nat | j < today - n
      ensures DaysBack(zone, disk, {}, today, pod, container)(j) == Ok(None)
    {
      NothingOn(zone, disk, today - j, pod, container);
    }
  }

  /** The scan stops at the newest day with a row, whatever older shards hold. */
  lemma FindsNewestDay(zone: string, disk: Disk, today: Day, pod: string, container: string, n: Day)
    requires n <= today && today - n < LOOKBACK_DAYS && !NoRows(disk, n, pod, container)
    requires forall k: Day :: n < k <= today ==> NoRows(disk, k, pod, container)
    ensures LastSeen(zone, disk, {}, today, pod, container) == LastSeenIn(zone, TableAt(disk, Name(n)), pod, container)
  {
    var f := DaysBack(zone, disk, {}, today, pod, container);
    NothingAfter(zone, disk, today, pod, container, n);
    var back: nat := today - n;
    assert f(back) == LastSeenIn(zone, TableAt(disk, Name(n)), pod, container) && f(back) != Ok(None) by {
      SomethingOn(zone, disk, n, pod, container);
    }
    ScanStops(f, 0, WindowLength(today), back);
  }

  lemma NothingInWindow(zone: string, disk: Disk, today: Day, pod: string, container: string)
    requires forall k: Day :: k <= today && today - k < LOOKBACK_DAYS ==> NoRows(disk, k, pod, container)
    ensures forall j: nat :: j < WindowLength(today) ==> DaysBack(zone, disk, {}, today, pod, container)(j) == Ok(None)
  {
    forall j: nat | j < WindowLength(today)
      ensures DaysBack(zone, disk, {}, today, pod, container)(j) == Ok(None)
    {
      NothingOn(zone, disk, today - j, pod, container);
    }
  }

  lemma FindsNothing(zone: string, disk: Disk, today: Day, pod: string, container: string)
    requires forall k: Day :: k <= today && today - k < LOOKBACK_DAYS ==> NoRows(disk, k, pod, container)
    ensures LastSeen(zone, disk, {}, today, pod, container) == Ok(None)
  {
    NothingInWindow(zone, disk, today, pod, container);
    ScanRunsOut(DaysBack(zone, disk, {}, today, pod, container), 0, WindowLength(today));
  }

  lemma LaterDayIsLater(a: Time, b: Time)
    requires DayOf(a) < DayOf(b)
    ensures a < b
  {
  }

  lemma NothingSeen(zone: string, disk: Disk, today: Day, pod: string, container: string)
    requires Partitioned(zone, disk)
    requires forall t: Time :: Seen(zone, disk, pod, container, t) ==> !InWindow(today, t)
    ensures LastSeen(zone, disk, {}, today, pod, container) == Ok(None)
  {
    forall k: Day | k <= today && today - k < LOOKBACK_DAYS ensures NoRows(disk, k, pod, container) {
      var stamps := Stamps(TableAt(disk, Name(k)), pod, container);
      if stamps != [] {
        assert ShardOk(zone, disk, k);
        var t := EveryStampIsATime(zone, disk, pod, container, k, stamps[0]);
        assert false;
      }
    }
    FindsNothing(zone, disk, today, pod, container);
  }

  /** The newest day up to today that has a row. */
  lemma NewestDay(disk: Disk, today: Day, pod: string, container: string, k: Day) returns (n: Day)
    requires k <= today && !NoRows(disk, k, pod, container)
    ensures k <= n <= today && !NoRows(disk, n, pod, container)
    ensures forall j: Day :: n < j <= today ==> NoRows(disk, j, pod, container)
    decreases today - k
  {
    if j: Day :| k < j <= today && !NoRows(disk, j, pod, container) {
      n := NewestDay(disk, today, pod, container, j);
    } else {
      n := k;
    }
  }

  /** A row in the window is enough for the scan to find something. */
  lemma SeenIsFound(zone: string, disk: Disk, today: Day, pod: string, container: string, t: Time)
    requires Seen(zone, disk, pod, container, t) && InWindow(today, t)
    ensures LastSeen(zone, disk, {}, today, pod, container) != Ok(None)
  {
    var n := NewestDay(disk, today, pod, container, DayOf(t));
    FindsNewestDay(zone, disk, today, pod, container, n);
    SomethingOn(zone, disk, n, pod, container);
  }

  /** Not found, exactly if the container has no row in the 30-day window. */
  lemma NotFoundIffNone(zone: string, disk: Disk, today: Day, pod: string, container: string)
    requires Partitioned(zone, disk)
    ensures LastSeen(zone, disk, {}, today, pod, container) == Ok(None)
       <==> forall t: Time :: Seen(zone, disk, pod, container, t) ==> !InWindow(today, t)
  {
    if t: Time :| Seen(zone, disk, pod, container, t) && InWindow(today, t) {
      SeenIsFound(zone, disk, today, pod, container, t);
    } else {
      NothingSeen(zone, disk, today, pod, container);
    }
  }

  ghost predicate IsStamp(zone: string, s: string) { exists t: Time :: s == Stamp(zone, t) }

  lemma {:induction false} GreatestTime(zone: string, stamps: seq<string>) returns (m: Time)
    requires stamps != [] && forall i :: 0 <= i < |stamps| ==> IsStamp(zone, stamps[i])
    ensures Stamp(zone, m) in stamps && forall u: Time :: Stamp(zone, u) in stamps ==> u <= m
  {
    assert IsStamp(zone, stamps[0]);
    m :| stamps[0] == Stamp(zone, m);
    var first := m;
    if |stamps| > 1 {
      var later := GreatestTime(zone, stamps[1..]);
      if later > first { m := later; }
    }
    forall u: Time | Stamp(zone, u) in stamps ensures u <= m {
      StampRoundTrip(zone, u);
      StampRoundTrip(zone, first);
      if Stamp(zone, u) != stamps[0] { assert Stamp(zone, u) in stamps[1..]; }
    }
  }

  /** A container with a row in the window has a latest one. */
  lemma LatestExists(zone: string, disk: Disk, pod: string, container: string, today: Day, t: Time)
    returns (latest: Time)
    requires Partitioned(zone, disk) && Seen(zone, disk, pod, container, t) && InWindow(today, t)
    ensures IsLatest(zone, disk, pod, container, today, latest)
  {
    var n := NewestDay(disk, today, pod, container, DayOf(t));
    var stamps := Stamps(TableAt(disk, Name(n)), pod, container);
    assert ShardOk(zone, disk, n);
    forall i | 0 <= i < |stamps| ensures IsStamp(zone, stamps[i]) {
      var u := EveryStampIsATime(zone, disk, pod, container, n, stamps[i]);
    }
    latest := GreatestTime(zone, stamps);
    var u := EveryStampIsATime(zone, disk, pod, container, n, Stamp(zone, latest));
    StampRoundTrip(zone, u);
    StampRoundTrip(zone, latest);
    NewestIsLatest(zone, disk, pod, container, today, n, latest);
  }

  lemma NewestIsLatest(zone: string, disk: Disk, pod: string, container: string, today: Day, n: Day, latest: Time)
    requires DayOf(latest) == n <= today && today - n < LOOKBACK_DAYS && Seen(zone, disk, pod, container, latest)
    requires forall j: Day :: n < j <= today ==> NoRows(disk, j, pod, container)
    requires forall u: Time :: Stamp(zone, u) in Stamps(TableAt(disk, Name(n)), pod, container) ==> u <= latest
    ensures IsLatest(zone, disk, pod, container, today, latest)
  {
    forall u: Time | Seen(zone, disk, pod, container, u) && InWindow(today, u) ensures u <= latest {
      assert !NoRows(disk, DayOf(u), pod, container);
      if DayOf(u) < n { LaterDayIsLater(u, latest); }
    }
  }

  /** The early exit agrees with a maximum over the whole window: the result is a stored time
      of the latest second, and the latest time itself exactly when the zone is numeric or no
      other row of that second has a fraction that is a prefix of the latest one's. */
  lemma LastSeenIsLatest(zone: string, disk: Disk, today: Day, pod: string, container: string, latest: Time)
    returns (g: Time)
    requires IsZone(zone) && Partitioned(zone, disk) && IsLatest(zone, disk, pod, container, today, latest)
    ensures LastSeen(zone, disk, {}, today, pod, container) == Ok(Some(g))
    ensures Seen(zone, disk, pod, container, g) && g / NS == latest / NS && g <= latest
    ensures g == latest <==> NumericZone(zone) || !Shadowed(zone, disk, pod, container, latest)
  {
    var n := DayOf(latest);
    var stamps := Stamps(TableAt(disk, Name(n)), pod, container);
    forall k: Day | n < k <= today ensures NoRows(disk, k, pod, container) {
      var later := Stamps(TableAt(disk, Name(k)), pod, container);
      if later != [] {
        assert ShardOk(zone, disk, k);
        var t := EveryStampIsATime(zone, disk, pod, container, k, later[0]);
        LaterDayIsLater(latest, t);
        assert InWindow(today, t);
        assert false;
      }
    }
    FindsNewestDay(zone, disk, today, pod, container, n);
    MaxIsGreatest(stamps);
    assert ShardOk(zone, disk, n);
    g := EveryStampIsATime(zone, disk, pod, container, n, Max(stamps).value);
    StampRoundTrip(zone, g);
    forall u: Time | DayOf(u) == n && Seen(zone, disk, pod, container, u) ensures u <= latest {
      assert InWindow(today, u);
    }
    GreatestTextIsLatest(zone, disk, pod, container, n, g, latest);
  }

  // ---- shards that cannot be read ----

  /** The day's shard is there, but querying it fails. */
  predicate Unreadable(disk: Disk, unreadable: set<string>, n: Day) {
    Path(Name(n)) in disk && Name(n) in unreadable
  }

  /** A partitioned store has no time that cannot be parsed. */
  lemma ReadableDay(zone: string, disk: Disk, n: Day, pod: string, container: string)
    requires ShardOk(zone, disk, n)
    ensures LastSeenIn(zone, TableAt(disk, Name(n)), pod, container).Ok?
    ensures NoRows(disk, n, pod, container) <==> LastSeenIn(zone, TableAt(disk, Name(n)), pod, container) == Ok(None)
    ensures !NoRows(disk, n, pod, container) ==> exists t: Time :: DayOf(t) == n && Seen(zone, disk, pod, container, t)
  {
    var stamps := Stamps(TableAt(disk, Name(n)), pod, container);
    MaxIsGreatest(stamps);
    if stamps != [] {
      var t := EveryStampIsATime(zone, disk, pod, container, n, Max(stamps).value);
      StampRoundTrip(zone, t);
    }
  }

  lemma OneDay(zone: string, disk: Disk, unreadable: set<string>, n: Day, pod: string, container: string)
    requires ShardOk(zone, disk, n)
    ensures AnswersAt(LastSeenOn(zone, disk, unreadable, Name(n), pod, container),
                      LastSeenOn(zone, disk, {}, Name(n), pod, container),
                      Unreadable(disk, unreadable, n), !NoRows(disk, n, pod, container))
  {
    ReadableDay(zone, disk, n, pod, container);
  }

  lemma OneDayBack(zone: string, disk: Disk, unreadable: set<string>, today: Day, pod: string, container: string,
                   j: nat)
    requires Partitioned(zone, disk) && j <= today
    ensures AnswersAt(DaysBack(zone, disk, unreadable, today, pod, container)(j),
                      DaysBack(zone, disk, {}, today, pod, container)(j),
                      Unreadable(disk, unreadable, today - j), !NoRows(disk, today - j, pod, container))
  {
    assert ShardOk(zone, disk, today - j);
    OneDay(zone, disk, unreadable, today - j, pod, container);
    DayBack(zone, disk, unreadable, today, pod, container, j);
    DayBack(zone, disk, {}, today, pod, container, j);
  }

  /** The k-th of these answers is bad, and no good one before it stops a scan. */
  predicate Jams(g: nat -> Result<Option<nat>>, bad: nat -> bool, k: nat) {
    bad(k) && forall j: nat :: j < k && !bad(j) ==> g(j) == Ok(None)
  }

  /** Errors at the bad places of a scan without any, from f(back) on. */
  lemma {:induction false} ScanFailsIffJammed(f: nat -> Result<Option<nat>>, g: nat -> Result<Option<nat>>,
                                              bad: nat -> bool, back: nat, n: nat)
    requires back <= n && forall j: nat :: j < n ==> (f(j).Err? <==> bad(j)) && g(j).Ok? && (!bad(j) ==> f(j) == g(j))
    requires forall j: nat :: j < back ==> !bad(j) && g(j) == Ok(None)
    ensures Scan(f, back, n).Err? <==> exists k: nat :: k < n && Jams(g, bad, k)
    ensures Scan(f, back, n).Ok? ==> Scan(f, back, n) == Scan(g, back, n)
    ensures Scan(g, back, n).Ok?
    decreases n - back
  {
    if back < n {
      if bad(back) {
        assert Jams(g, bad, back);
        ScanOk(g, back, n);
      } else if g(back) == Ok(None) {
        ScanFailsIffJammed(f, g, bad, back + 1, n);
      }
    }
  }

  lemma {:induction false} ScanOk(g: nat -> Result<Option<nat>>, back: nat, n: nat)
    requires forall j: nat :: j < n ==> g(j).Ok?
    ensures Scan(g, back, n).Ok?
    decreases n - back
  {
    if back < n && g(back) == Ok(None) { ScanOk(g, back + 1, n); }
  }

  /** An unreadable shard of the last 30 days, while every later row of the container is in an unreadable shard
      as well. */
  ghost predicate Blocks(zone: string, disk: Disk, unreadable: set<string>, today: Day, pod: string, container: string,
                         n: Day)
  {
    && n <= today && today - n < 30 && Path(Name(n)) in disk && Name(n) in unreadable
    && forall t: Time :: Seen(zone, disk, pod, container, t) && n < DayOf(t) <= today ==> Name(DayOf(t)) in unreadable
  }

  /** The same with the days' rows. */
  predicate BlocksDays(bad: Day -> bool, rows: Day -> bool, today: Day, n: Day) {
    && n <= today && today - n < LOOKBACK_DAYS && bad(n)
    && forall d: Day :: n < d <= today && !bad(d) ==> !rows(d)
  }

  function Bad(disk: Disk, unreadable: set<string>): Day -> bool { (d: Day) => Unreadable(disk, unreadable, d) }

  function HasRows(disk: Disk, pod: string, container: string): Day -> bool {
    (d: Day) => !NoRows(disk, d, pod, container)
  }

  lemma BlocksIsBlocksDays(zone: string, disk: Disk, unreadable: set<string>, today: Day, pod: string,
                           container: string, n: Day)
    requires Partitioned(zone, disk)
    ensures Blocks(zone, disk, unreadable, today, pod, container, n)
       <==> BlocksDays(Bad(disk, unreadable), HasRows(disk, pod, container), today, n)
  {
    var bad, rows := Bad(disk, unreadable), HasRows(disk, pod, container);
    if Blocks(zone, disk, unreadable, today, pod, container, n) {
      forall d: Day | n < d <= today && !bad(d) ensures !rows(d) {
        BlockedDay(zone, disk, unreadable, today, pod, container, n, d);
      }
    }
    if BlocksDays(bad, rows, today, n) {
      forall t: Time | Seen(zone, disk, pod, container, t) && n < DayOf(t) <= today
        ensures Name(DayOf(t)) in unreadable
      {
        SeenIsARow(zone, disk, pod, container, t);
        assert rows(DayOf(t));
      }
    }
  }

  lemma JamsIsBlocksDays(bad: Day -> bool, rows: Day -> bool, today: Day, g: nat -> Result<Option<nat>>, k: nat)
    requires k < WindowLength(today)
    requires forall j: nat :: j <= today ==> (g(j) == Ok(None) <==> !rows(today - j))
    ensures Jams(g, Back(bad, today), k) <==> BlocksDays(bad, rows, today, today - k)
  {
    if Jams(g, Back(bad, today), k) {
      forall d: Day | today - k < d <= today && !bad(d) ensures !rows(d) {
        var j: nat := today - d;
        assert !Back(bad, today)(j) && g(j) == Ok(None);
      }
    }
  }

  /** Counting days back. */
  function Back(days: Day -> bool, today: Day): nat -> bool { (j: nat) => j <= today && days(today - j) }

  lemma BlockedDay(zone: string, disk: Disk, unreadable: set<string>, today: Day, pod: string, container: string,
                   n: Day, d: Day)
    requires Partitioned(zone, disk) && Blocks(zone, disk, unreadable, today, pod, container, n)
    requires n < d <= today && !Unreadable(disk, unreadable, d)
    ensures NoRows(disk, d, pod, container)
  {
    assert ShardOk(zone, disk, d);
    ReadableDay(zone, disk, d, pod, container);
    if t: Time :| DayOf(t) == d && Seen(zone, disk, pod, container, t) { SeenIsARow(zone, disk, pod, container, t); }
  }

  lemma SeenIsARow(zone: string, disk: Disk, pod: string, container: string, t: Time)
    requires Seen(zone, disk, pod, container, t)
    ensures !NoRows(disk, DayOf(t), pod, container) && Path(Name(DayOf(t))) in disk
  {
  }

  lemma SomeJam(bad: Day -> bool, rows: Day -> bool, today: Day, g: nat -> Result<Option<nat>>)
    requires forall j: nat :: j <= today ==> (g(j) == Ok(None) <==> !rows(today - j))
    ensures (exists k: nat :: k < WindowLength(today) && Jams(g, Back(bad, today), k))
       <==> exists n: Day :: BlocksDays(bad, rows, today, n)
  {
    if k: nat :| k < WindowLength(today) && Jams(g, Back(bad, today), k) {
      JamsIsBlocksDays(bad, rows, today, g, k);
    }
    if n: Day :| BlocksDays(bad, rows, today, n) {
      JamsIsBlocksDays(bad, rows, today, g, today - n);
    }
  }

  lemma SomeBlocks(zone: string, disk: Disk, unreadable: set<string>, today: Day, pod: string, container: string)
    requires Partitioned(zone, disk)
    ensures (exists n: Day :: Blocks(zone, disk, unreadable, today, pod, container, n))
       <==> exists n: Day :: BlocksDays(Bad(disk, unreadable), HasRows(disk, pod, container), today, n)
  {
    forall n: Day {
      BlocksIsBlocksDays(zone, disk, unreadable, today, pod, container, n);
    }
  }

  /** The scan with some bad days against the one without. */
  lemma ScanFailsIffBlocked(f: nat -> Result<Option<nat>>, g: nat -> Result<Option<nat>>, today: Day,
                            bad: Day -> bool, rows: Day -> bool)
    requires forall j: nat :: j <= today ==> AnswersAt(f(j), g(j), bad(today - j), rows(today - j))
    ensures Scan(f, 0, WindowLength(today)).Err? <==> exists n: Day :: BlocksDays(bad, rows, today, n)
    ensures Scan(f, 0, WindowLength(today)).Ok? ==> Scan(f, 0, WindowLength(today)) == Scan(g, 0, WindowLength(today))
    ensures Scan(g, 0, WindowLength(today)).Ok?
  {
    var len, back := WindowLength(today), Back(bad, today);
    forall j: nat | j < len ensures (f(j).Err? <==> back(j)) && g(j).Ok? && (!back(j) ==> f(j) == g(j)) {
      assert AnswersAt(f(j), g(j), bad(today - j), rows(today - j));
    }
    ScanFailsIffJammed(f, g, back, 0, len);
    forall j: nat | j <= today ensures g(j) == Ok(None) <==> !rows(today - j) {
      assert AnswersAt(f(j), g(j), bad(today - j), rows(today - j));
    }
    SomeJam(bad, rows, today, g);
  }

  /** One day's answer, and what it would be if the day's shard could be read. */
  predicate AnswersAt(r: Result<Option<nat>>, readable: Result<Option<nat>>, bad: bool, rows: bool) {
    (r.Err? <==> bad) && readable.Ok? && (!bad ==> r == readable) && (readable == Ok(None) <==> !rows)
  }

  /** The scan fails, exactly if the newest shard that would stop it cannot be read: some shard of the
      window is unreadable, and no later one that can be read has a row of the container. Otherwise
      unreadable shards make no difference. */
  lemma FailsIffBlocked(zone: string, disk: Disk, unreadable: set<string>, today: Day, pod: string, container: string)
    requires Partitioned(zone, disk)
    ensures LastSeen(zone, disk, unreadable, today, pod, container).Err?
       <==> exists n: Day :: Blocks(zone, disk, unreadable, today, pod, container, n)
    ensures LastSeen(zone, disk, unreadable, today, pod, container).Ok? ==>
      LastSeen(zone, disk, unreadable, today, pod, container) == LastSeen(zone, disk, {}, today, pod, container)
    ensures LastSeen(zone, disk, {}, today, pod, container).Ok?
  {
    var bad, rows := Bad(disk, unreadable), HasRows(disk, pod, container);
    var f := DaysBack(zone, disk, unreadable, today, pod, container);
    var g := DaysBack(zone, disk, {}, today, pod, container);
    forall j: nat | j <= today ensures AnswersAt(f(j), g(j), bad(today - j), rows(today - j)) {
      OneDayBack(zone, disk, unreadable, today, pod, container, j);
    }
    ScanFailsIffBlocked(f, g, today, bad, rows);
    SomeBlocks(zone, disk, unreadable, today, pod, container);
  }

  // ---- the scan as a function of the stored times ----

  /** A row written at a is reported rather than one written at b: it is of a later day, or its text
      is greater. */
  predicate Ahead(zone: string, a: Time, b: Time) {
    DayOf(a) > DayOf(b) || (DayOf(a) == DayOf(b) && Less(Stamp(zone, b), Stamp(zone, a)))
  }

  lemma AheadTrichotomy(zone: string, a: Time, b: Time)
    ensures Ahead(zone, a, b) || a == b || Ahead(zone, b, a)
    ensures !(Ahead(zone, a, b) && Ahead(zone, b, a))
  {
    LessTrichotomy(Stamp(zone, a), Stamp(zone, b));
    if Stamp(zone, a) == Stamp(zone, b) { StampRoundTrip(zone, a); StampRoundTrip(zone, b); }
  }

  lemma AheadTransitive(zone: string, a: Time, b: Time, c: Time)
    requires Ahead(zone, a, b) && Ahead(zone, b, c)
    ensures Ahead(zone, a, c)
  {
    if DayOf(a) == DayOf(b) == DayOf(c) { LessTransitive(Stamp(zone, c), Stamp(zone, b), Stamp(zone, a)); }
  }

  lemma LaterIsAhead(zone: string, a: Time, b: Time)
    requires NumericZone(zone) && a > b
    ensures Ahead(zone, a, b)
  {
    if DayOf(a) == DayOf(b) {
      if b / NS < a / NS { LaterSecondIsGreater(zone, b, a); } else { SameSecondOrder(zone, b, a); }
    }
  }

  /** In a numeric zone that is simply being later. */
  lemma AheadIsLater(zone: string, a: Time, b: Time)
    requires NumericZone(zone)
    ensures Ahead(zone, a, b) <==> a > b
  {
    AheadTrichotomy(zone, a, b);
    if a > b { LaterIsAhead(zone, a, b); }
    if b > a { LaterIsAhead(zone, b, a); }
  }

  /** The time reported for these: of those in the window the one ahead of all others. */
  function Reported(zone: string, today: Day, times: seq<Time>): Option<Time> {
    if times == [] then None else
    match Reported(zone, today, times[1..])
    case None => if InWindow(today, times[0]) then Some(times[0]) else None
    case Some(m) => Some(if InWindow(today, times[0]) && Ahead(zone, times[0], m) then times[0] else m)
  }

  ghost predicate IsForemost(zone: string, today: Day, times: seq<Time>, m: Time) {
    m in times && InWindow(today, m) && forall t :: t in times && InWindow(today, t) ==> !Ahead(zone, t, m)
  }

  lemma {:induction false} ReportedIsForemost(zone: string, today: Day, times: seq<Time>)
    ensures Reported(zone, today, times).None? <==> forall t :: t in times ==> !InWindow(today, t)
    ensures Reported(zone, today, times).Some? ==> IsForemost(zone, today, times, Reported(zone, today, times).value)
  {
    if times != [] {
      var first, rest := times[0], times[1..];
      ReportedIsForemost(zone, today, rest);
      assert forall t :: t in times <==> t == first || t in rest;
      if Reported(zone, today, rest).Some? {
        ForemostOfTwo(zone, today, times, first, rest, Reported(zone, today, rest).value);
      } else {
        AheadTrichotomy(zone, first, first);
      }
    }
  }

  lemma ForemostOfTwo(zone: string, today: Day, times: seq<Time>, first: Time, rest: seq<Time>, m: Time)
    requires (forall t :: t in times <==> t == first || t in rest) && IsForemost(zone, today, rest, m)
    ensures IsForemost(zone, today, times, if InWindow(today, first) && Ahead(zone, first, m) then first else m)
  {
    AheadTrichotomy(zone, first, first);
    if InWindow(today, first) && Ahead(zone, first, m) {
      forall t | t in rest && InWindow(today, t) ensures !Ahead(zone, t, first) {
        if Ahead(zone, t, first) { AheadTransitive(zone, t, first, m); }
      }
    }
  }

  lemma ForemostIsReported(zone: string, today: Day, times: seq<Time>, m: Time)
    requires IsForemost(zone, today, times, m)
    ensures Reported(zone, today, times) == Some(m)
  {
    ReportedIsForemost(zone, today, times);
    AheadTrichotomy(zone, m, Reported(zone, today, times).value);
  }

  /** One of the others is in the window, and p is not ahead of it. */
  ghost predicate HasRival(zone: string, today: Day, others: seq<Time>, p: Time) {
    exists u :: u in others && InWindow(today, u) && !Ahead(zone, p, u)
  }

  /** None of these times is ahead of all the others in the window. */
  ghost predicate Overtaken(zone: string, today: Day, all: seq<Time>, others: seq<Time>) {
    forall p {:trigger HasRival(zone, today, others, p)} :: p in all && InWindow(today, p) ==>
      HasRival(zone, today, others, p)
  }

  lemma RivalIsReported(zone: string, today: Day, all: seq<Time>, others: seq<Time>, m: Time)
    requires forall t :: t in others ==> t in all
    requires IsForemost(zone, today, all, m) && HasRival(zone, today, others, m)
    ensures Reported(zone, today, others) == Some(m)
  {
    var u :| u in others && InWindow(today, u) && !Ahead(zone, m, u);
    AheadTrichotomy(zone, m, u);
    assert u == m;
    ForemostIsReported(zone, today, others, m);
  }

  lemma NoRivalIsReported(zone: string, today: Day, all: seq<Time>, others: seq<Time>, p: Time)
    requires p in all && InWindow(today, p) && !HasRival(zone, today, others, p)
    ensures Reported(zone, today, all) != Reported(zone, today, others)
  {
    ReportedIsForemost(zone, today, all);
    ReportedIsForemost(zone, today, others);
  }

  /** Leaving out some of the times changes what is reported, exactly if one of those left out is
      ahead of all that remain. */
  lemma ReportedIffOvertaken(zone: string, today: Day, all: seq<Time>, others: seq<Time>)
    requires forall t :: t in others ==> t in all
    ensures Reported(zone, today, all) == Reported(zone, today, others) <==> Overtaken(zone, today, all, others)
  {
    if Overtaken(zone, today, all, others) {
      ReportedIsForemost(zone, today, all);
      if Reported(zone, today, all).Some? {
        var m := Reported(zone, today, all).value;
        assert HasRival(zone, today, others, m);
        RivalIsReported(zone, today, all, others, m);
      } else {
        ReportedIsForemost(zone, today, others);
      }
    } else {
      var p :| p in all && InWindow(today, p) && !HasRival(zone, today, others, p);
      NoRivalIsReported(zone, today, all, others, p);
    }
  }

  lemma LaterRival(zone: string, today: Day, others: seq<Time>, p: Time)
    requires NumericZone(zone)
    ensures HasRival(zone, today, others, p) <==> exists u :: u in others && InWindow(today, u) && p <= u
  {
    forall u: Time { AheadIsLater(zone, p, u); }
  }

  /** The scan finds the greatest text of the newest day. */
  lemma NewestText(zone: string, disk: Disk, today: Day, pod: string, container: string, n: Day) returns (g: Time)
    requires Partitioned(zone, disk) && n <= today && today - n < LOOKBACK_DAYS && !NoRows(disk, n, pod, container)
    requires forall k: Day :: n < k <= today ==> NoRows(disk, k, pod, container)
    ensures LastSeen(zone, disk, {}, today, pod, container) == Ok(Some(g))
    ensures DayOf(g) == n && Seen(zone, disk, pod, container, g)
    ensures forall s :: s in Stamps(TableAt(disk, Name(n)), pod, container) ==> !Less(Stamp(zone, g), s)
  {
    var stamps := Stamps(TableAt(disk, Name(n)), pod, container);
    FindsNewestDay(zone, disk, today, pod, container, n);
    MaxIsGreatest(stamps);
    assert ShardOk(zone, disk, n);
    g := EveryStampIsATime(zone, disk, pod, container, n, Max(stamps).value);
    StampRoundTrip(zone, g);
  }

  /** `LastSeen` depends on nothing but the times at which the container has rows. */
  lemma LastSeenIsReported(zone: string, disk: Disk, today: Day, pod: string, container: string, times: seq<Time>)
    requires Partitioned(zone, disk) && forall t: Time :: Seen(zone, disk, pod, container, t) <==> t in times
    ensures LastSeen(zone, disk, {}, today, pod, container) == Ok(Reported(zone, today, times))
  {
    ReportedIsForemost(zone, today, times);
    if t: Time :| Seen(zone, disk, pod, container, t) && InWindow(today, t) {
      var n := NewestDay(disk, today, pod, container, DayOf(t));
      var g := NewestText(zone, disk, today, pod, container, n);
      NewestTextIsForemost(zone, disk, today, pod, container, times, n, g);
      ForemostIsReported(zone, today, times, g);
    } else {
      NothingSeen(zone, disk, today, pod, container);
    }
  }

  lemma NewestTextIsForemost(zone: string, disk: Disk, today: Day, pod: string, container: string, times: seq<Time>,
                             n: Day, g: Time)
    requires forall t: Time :: Seen(zone, disk, pod, container, t) <==> t in times
    requires DayOf(g) == n <= today && today - n < LOOKBACK_DAYS && Seen(zone, disk, pod, container, g)
    requires forall k: Day :: n < k <= today ==> NoRows(disk, k, pod, container)
    requires forall s :: s in Stamps(TableAt(disk, Name(n)), pod, container) ==> !Less(Stamp(zone, g), s)
    ensures IsForemost(zone, today, times, g)
  {
    forall t: Time | t in times && InWindow(today, t) ensures !Ahead(zone, t, g) {
      assert Seen(zone, disk, pod, container, t);
      assert !NoRows(disk, DayOf(t), pod, container);
    }
  }

  // ---- what inserting adds to the stored times ----

  /** A row of the container with this text among the contents. */
  ghost predicate HasText(contents: seq<Content>, pod: string, container: string, s: string) {
    exists c :: c in contents && IsRowWith(c, pod, container, s)
  }

  predicate IsRowWith(c: Content, pod: string, container: string, s: string) {
    c.pod == pod && c.container == container && c.timestamp == s
  }

  lemma TextInTable(table: Table, pod: string, container: string, s: string)
    ensures s in Stamps(table, pod, container) <==> HasText(Contents(table), pod, container, s)
  {
    StampsExact(table, pod, container, s);
    if i :| 0 <= i < |table| && RowFor(table[i], pod, container) && table[i].timestamp == s {
      assert IsRowWith(Contents(table)[i], pod, container, s) && Contents(table)[i] in Contents(table);
    }
    if c :| c in Contents(table) && IsRowWith(c, pod, container, s) {
      var i :| 0 <= i < |table| && Contents(table)[i] == c;
      assert RowFor(table[i], pod, container) && table[i].timestamp == s;
    }
  }

  /** A line of the container was written at t. */
  ghost predicate WrittenAt(lines: seq<LogLine>, pod: string, container: string, t: Time) {
    exists l :: l in lines && l.pod == pod && l.container == container && l.timestamp == t
  }

  lemma InGroup(entries: seq<Entry>, x: Content, date: string)
    ensures x in Group(entries, date) <==> Entry(date, x) in entries
  {
    GroupsPartition(entries, x, date);
    assert x in Group(entries, date) <==> x in multiset(Group(entries, date));
    assert Entry(date, x) in entries <==> Entry(date, x) in multiset(entries);
  }

  lemma TextInGroup(zone: string, lines: seq<LogLine>, pod: string, container: string, t: Time)
    ensures HasText(Group(Entries(zone, lines), Name(DayOf(t))), pod, container, Stamp(zone, t))
       <==> WrittenAt(lines, pod, container, t)
  {
    var entries, d, s := Entries(zone, lines), Name(DayOf(t)), Stamp(zone, t);
    if c :| c in Group(entries, d) && IsRowWith(c, pod, container, s) {
      InGroup(entries, c, d);
      var i :| 0 <= i < |entries| && entries[i] == Entry(d, c);
      StampRoundTrip(zone, lines[i].timestamp);
      StampRoundTrip(zone, t);
      assert lines[i] in lines;
    }
    if l :| l in lines && l.pod == pod && l.container == container && l.timestamp == t {
      var i :| 0 <= i < |lines| && lines[i] == l;
      assert entries[i] in entries;
      InGroup(entries, entries[i].content, d);
      assert IsRowWith(entries[i].content, pod, container, s);
    }
  }

  /** An insert adds, of the dates it commits, the times of the batch's lines of the container, and
      takes none away: also if those lines are of a previous instance. */
  lemma SeenAfterInsert(zone: string, before: Disk, after: Disk, lines: seq<LogLine>, done: set<string>,
                        pod: string, container: string, t: Time)
    requires Inserted(before, after, Entries(zone, lines), done) && IdsAscend(TableAt(before, Name(DayOf(t))))
    ensures Seen(zone, after, pod, container, t)
       <==> Seen(zone, before, pod, container, t) || (Name(DayOf(t)) in done && WrittenAt(lines, pod, container, t))
  {
    var d := Name(DayOf(t));
    TextInTable(TableAt(before, d), pod, container, Stamp(zone, t));
    TextInTable(TableAt(after, d), pod, container, Stamp(zone, t));
    if d in done {
      AppendAdds(TableAt(before, d), Group(Entries(zone, lines), d));
      TextInGroup(zone, lines, pod, container, t);
      TextInConcat(Contents(TableAt(before, d)), Group(Entries(zone, lines), d), pod, container, Stamp(zone, t));
    } else {
      assert TableAt(after, d) == TableAt(before, d);
    }
  }

  lemma TextInConcat(a: seq<Content>, b: seq<Content>, pod: string, container: string, s: string)
    ensures HasText(a + b, pod, container, s) <==> HasText(a, pod, container, s) || HasText(b, pod, container, s)
  {
    if c :| c in a && IsRowWith(c, pod, container, s) { assert c in a + b; }
    if c :| c in b && IsRowWith(c, pod, container, s) { assert c in a + b; }
  }

  // ---- a log written under UTC that shows the shadowing ----

  function ExampleRow(id: nat, t: Time): Row
    requires id < 10
  {
    Row(id, "web-1", "default", "app", Stamp("Z", t), "", "")
  }

  /** Two lines half a second apart, the first on the whole second: the first one is reported
      as the last seen. */
  lemma WholeSecondShadowsHalf()
    ensures var disk: Disk := map[Path(Name(0)) := [ExampleRow(1, 0), ExampleRow(2, 500_000_000)]];
      LastSeen("Z", disk, {}, 0, "web-1", "app") == Ok(Some(0))
  {
    var first, second := ExampleRow(1, 0), ExampleRow(2, 500_000_000);
    var disk: Disk := map[Path(Name(0)) := [first, second]];
    Shadow();
    var stamps := Stamps([first, second], "web-1", "app");
    assert Stamps([second], "web-1", "app") == [second.timestamp] by { assert [second][1..] == []; }
    assert [first, second][1..] == [second];
    assert stamps == [first.timestamp, second.timestamp] && stamps[1..] == [second.timestamp];
    assert stamps[1..][1..] == [];
    assert Max(stamps[1..]) == Some(second.timestamp);
    assert Max(stamps) == Some(first.timestamp);
    StampRoundTrip("Z", 0);
    FindsNewestDay("Z", disk, 0, "web-1", "app", 0);
  }

  lemma Shadow()
    ensures Less(Stamp("Z", 500_000_000), Stamp("Z", 0))
  {
    Fields(0); Fields(500_000_000);
    assert Fraction(NanoOf(0)) == "";
    SameSecondOrder("Z", 0, 500_000_000);
    LessTrichotomy(Stamp("Z", 0), Stamp("Z", 500_000_000));
    StampRoundTrip("Z", 0); StampRoundTrip("Z", 500_000_000);
  }
}
