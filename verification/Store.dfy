/** The store itself: a file and a write handle per day. Inserting a batch, looking up the
    last time seen, and retention. */
module Store {
  import opened Text
  import opened Calendar
  import opened Timestamps
  import opened Sql
  import opened Shards
  import opened Ranking
  import opened Ingest
  import Recency

  // ---- file names ----

  predicate HasPrefix(s: string, p: string) { p <= s }

  predicate HasSuffix(s: string, t: string) { |t| <= |s| && s[|s| - |t|..] == t }

  function TrimPrefix(s: string, p: string): string { if HasPrefix(s, p) then s[|p|..] else s }

  function TrimSuffix(s: string, t: string): string { if HasSuffix(s, t) then s[..|s| - |t|] else s }

  /** The date in a file name. */
  function DateIn(name: string): Option<string> {
    if HasPrefix(name, "logs_") && HasSuffix(name, ".db") then Some(TrimSuffix(TrimPrefix(name, "logs_"), ".db"))
    else None
  }

  /** Printing and parsing shard file names are inverse, both ways. */
  lemma FileNameRoundTrip(name: string, date: string)
    ensures DateIn(name) == Some(date) <==> name == Path(date)
  {
    if name == Path(date) {
      assert name[5..] == date + ".db";
      assert name[5..][..|date|] == date;
    }
    if HasPrefix(name, "logs_") && HasSuffix(name, ".db") {
      assert name[4] == '_' && name[|name| - 3] == '.';
      assert name == "logs_" + name[5..];
      var rest := name[5..];
      assert rest[|rest| - 3..] == name[|name| - 3..];
      assert rest == rest[..|rest| - 3] + ".db";
      assert "logs_" + (rest[..|rest| - 3] + ".db") == Path(rest[..|rest| - 3]);
    }
  }

  // ---- retention ----

  /** Parsed as midnight UTC, the date is before the cutoff. */
  predicate Expired(date: string, cutoff: int) {
    ParseDate(date).Some? && DayNumber(ParseDate(date).value) * NS_PER_DAY < cutoff
  }

  const SIDECARS := ["", "-wal", "-shm"]

  function FilesOf(date: string): set<string> { {Path(date), Path(date) + "-wal", Path(date) + "-shm"} }

  ghost predicate Deletes(files: set<string>, cutoff: int, name: string) {
    exists date: string :: Expired(date, cutoff) && Path(date) in files && name in FilesOf(date)
  }

  /** Exactly the files of the expired shards and their sidecars are gone, except those that the
      system refuses to remove; nothing else changed. */
  ghost predicate Cleaned(before: Disk, after: Disk, cutoff: int, stuck: set<string>) {
    CleanedAmong(before.Keys, before, after, cutoff, stuck)
  }

  /** The same, with only these file names looked at so far. */
  ghost predicate CleanedAmong(names: set<string>, before: Disk, after: Disk, cutoff: int, stuck: set<string>) {
    && (forall name :: name in after <==> name in before && (name in stuck || !Deletes(names, cutoff, name)))
    && (forall name :: name in after ==> after[name] == before[name])
  }

  /** Looking at one more file name deletes the files of its date if that has expired. */
  function Expiring(name: string, cutoff: int): set<string> {
    if DateIn(name).Some? && Expired(DateIn(name).value, cutoff) then FilesOf(DateIn(name).value) else {}
  }

  lemma DeletesMore(names: set<string>, cutoff: int, name: string, x: string)
    ensures Deletes(names + {name}, cutoff, x) <==> Deletes(names, cutoff, x) || x in Expiring(name, cutoff)
  {
    if d: string :| Expired(d, cutoff) && Path(d) in names + {name} && x in FilesOf(d) {
      if Path(d) == name { FileNameRoundTrip(name, d); }
    }
    if x in Expiring(name, cutoff) { FileNameRoundTrip(name, DateIn(name).value); }
  }

  lemma CleanedMore(names: set<string>, before: Disk, mid: Disk, after: Disk, cutoff: int, stuck: set<string>,
                    name: string)
    requires CleanedAmong(names, before, mid, cutoff, stuck) && after == mid - (Expiring(name, cutoff) - stuck)
    ensures CleanedAmong(names + {name}, before, after, cutoff, stuck)
  {
    forall x { DeletesMore(names, cutoff, name, x); }
  }

  lemma PathIsNoSidecar(a: string, b: string)
    ensures Path(a) in FilesOf(b) ==> a == b
  {
    var p := Path(a);
    assert p[|p| - 1] == 'b';
    if p == Path(b) { PathInjective(a, b); }
  }

  lemma DeletesShard(files: set<string>, cutoff: int, date: string)
    requires Path(date) in files
    ensures Deletes(files, cutoff, Path(date)) <==> Expired(date, cutoff)
  {
    if Deletes(files, cutoff, Path(date)) {
      var d: string :| Expired(d, cutoff) && Path(d) in files && Path(date) in FilesOf(d);
      PathIsNoSidecar(date, d);
    }
  }

  lemma ExpiredDay(n: Day, cutoff: int)
    ensures Expired(Name(n), cutoff) <==> n * NS_PER_DAY < cutoff
  {
    FourDigitYear(n);
    ParseFormat(Civil(n));
    DayNumberOfCivil(n);
  }

  /** A day loses its rows exactly if its midnight in UTC precedes the cutoff and its file can be
      removed. */
  lemma CleanedDay(before: Disk, after: Disk, cutoff: int, stuck: set<string>, n: Day)
    requires Cleaned(before, after, cutoff, stuck)
    ensures TableAt(after, Name(n))
         == if n * NS_PER_DAY < cutoff && Path(Name(n)) !in stuck then [] else TableAt(before, Name(n))
  {
    ExpiredDay(n, cutoff);
    if Path(Name(n)) in before { DeletesShard(before.Keys, cutoff, Name(n)); }
  }

  /** The days' shards go with both of their sidecars, as far as they can be removed, or stay with them. */
  lemma CleanedFiles(before: Disk, after: Disk, cutoff: int, stuck: set<string>, n: Day, file: string)
    requires Cleaned(before, after, cutoff, stuck) && file in before && Path(Name(n)) in before
    requires file in {Path(Name(n)), Path(Name(n)) + "-wal", Path(Name(n)) + "-shm"}
    ensures file in after <==> n * NS_PER_DAY >= cutoff || file in stuck
  {
    ExpiredDay(n, cutoff);
    if Deletes(before.Keys, cutoff, file) {
      var d: string :| Expired(d, cutoff) && Path(d) in before.Keys && file in FilesOf(d);
      FilesApart(Name(n), d, file);
    }
  }

  lemma FilesApart(a: string, b: string, file: string)
    requires file in FilesOf(a) && file in FilesOf(b)
    ensures a == b
  {
    var p, q := Path(a), Path(b);
    assert p[|p| - 1] == q[|q| - 1] == 'b';
    assert (p + "-wal")[|p| + 3] == 'l' && (p + "-shm")[|p| + 3] == 'm';
    assert (q + "-wal")[|q| + 3] == 'l' && (q + "-shm")[|q| + 3] == 'm';
    var k := if file == p then 0 else 4;
    assert |file| == |p| + k == |q| + k;
    assert file[..|p|] == p && file[..|q|] == q;
    PathInjective(a, b);
  }

  lemma CleanedKeepsPartition(zone: string, before: Disk, after: Disk, cutoff: int, stuck: set<string>)
    requires Partitioned(zone, before) && Cleaned(before, after, cutoff, stuck)
    ensures Partitioned(zone, after)
  {
    forall n: Day ensures ShardOk(zone, after, n) {
      assert ShardOk(zone, before, n);
      CleanedDay(before, after, cutoff, stuck, n);
    }
  }

  lemma CleanedPartition(zone: string, before: Disk, after: Disk, cutoff: int, stuck: set<string>)
    requires Cleaned(before, after, cutoff, stuck)
    ensures Partitioned(zone, before) ==> Partitioned(zone, after)
  {
    if Partitioned(zone, before) { CleanedKeepsPartition(zone, before, after, cutoff, stuck); }
  }

  function Cutoff(retentionDays: int, now: int): int {
    now - (if retentionDays <= 0 then 7 else retentionDays) * NS_PER_DAY
  }

  /** The shard of a line written at local time t is still there after cleanup at local time
      now, in a zone that is offset ahead of UTC. */
  predicate Survives(t: Time, now: int, days: int, offset: int) {
    !Expired(Name(DayOf(t)), Cutoff(days, now - offset))
  }

  /** In every zone: a line survives if it is at most days - 1 days and the offset old, and
      does not if it is more than days days and the offset old. */
  lemma RetentionBounds(t: Time, now: int, days: int, offset: int)
    requires days > 0
    ensures now - t <= (days - 1) * NS_PER_DAY + offset ==> Survives(t, now, days, offset)
    ensures now - t > days * NS_PER_DAY + offset ==> !Survives(t, now, days, offset)
  {
    ExpiredDay(DayOf(t), Cutoff(days, now - offset));
  }

  /** In UTC a line at least days old survives only in the one case that it was written at
      midnight and cleanup runs exactly that many days later. */
  lemma RetentionInUtc(t: Time, now: int, days: int)
    requires days > 0
    ensures now - t <= (days - 1) * NS_PER_DAY ==> Survives(t, now, days, 0)
    ensures now - t >= days * NS_PER_DAY ==>
      (Survives(t, now, days, 0) <==> t == DayOf(t) * NS_PER_DAY && now - t == days * NS_PER_DAY)
  {
    ExpiredDay(DayOf(t), Cutoff(days, now));
  }

  /** What retention promises of a line in UTC. */
  predicate Promised(t: Time, now: int, days: int, offset: int) {
    && (now - t <= (days - 1) * NS_PER_DAY ==> Survives(t, now, days, offset))
    && (now - t > days * NS_PER_DAY ==> !Survives(t, now, days, offset))
  }

  /** In a zone west of UTC a line exactly days - 1 days old is lost. */
  lemma WestLosesEarly(days: int, offset: int)
    requires days > 0 && offset <= -2
    ensures var t := NS_PER_DAY - 1; !Survives(t, t + (days - 1) * NS_PER_DAY, days, offset)
  {
    var t: Time := NS_PER_DAY - 1;
    ExpiredDay(DayOf(t), Cutoff(days, t + (days - 1) * NS_PER_DAY - offset));
  }

  /** In a zone east of UTC a line more than days days old is kept. */
  lemma EastKeepsLonger(days: int, offset: int)
    requires days > 0 && offset >= 1
    ensures Survives(0, days * NS_PER_DAY + 1, days, offset)
  {
    ExpiredDay(DayOf(0), Cutoff(days, days * NS_PER_DAY + 1 - offset));
  }

  /** The promise holds of all lines and all times of cleanup exactly if the zone's offset is zero
      (or one nanosecond less, which no zone has). */
  lemma PromiseNeedsUtc(days: int, offset: int)
    requires days > 0
    ensures (forall t: Time, now: int :: Promised(t, now, days, offset)) <==> -1 <= offset <= 0
  {
    if offset <= -2 {
      WestLosesEarly(days, offset);
      assert !Promised(NS_PER_DAY - 1, NS_PER_DAY - 1 + (days - 1) * NS_PER_DAY, days, offset);
    } else if offset >= 1 {
      EastKeepsLonger(days, offset);
      assert !Promised(0, days * NS_PER_DAY + 1, days, offset);
    } else {
      forall t: Time, now: int ensures Promised(t, now, days, offset) {
        ExpiredDay(DayOf(t), Cutoff(days, now - offset));
      }
    }
  }

  function Closing(name: string, cutoff: int): set<string> {
    if DateIn(name).Some? && Expired(DateIn(name).value, cutoff) then {DateIn(name).value} else {}
  }

  function Keeping(name: string, cutoff: int): Option<string> {
    var date := DateIn(name);
    if date.Some? && ParseDate(date.value).Some? && !Expired(date.value, cutoff) then date else None
  }

  /** Handles to expired shards among these files are closed and no others. */
  ghost predicate HandlesKept(before: map<string, string>, after: map<string, string>, names: set<string>, cutoff: int)
  {
    forall d :: d in after <==> d in before && !(Expired(d, cutoff) && Path(d) in names)
  }

  lemma HandlesMore(before: map<string, string>, mid: map<string, string>, after: map<string, string>,
                    names: set<string>, cutoff: int, name: string)
    requires HandlesKept(before, mid, names, cutoff) && after == mid - Closing(name, cutoff)
    ensures HandlesKept(before, after, names + {name}, cutoff)
  {
    forall d: string { FileNameRoundTrip(name, d); }
  }

  /** The dates to keep among these files. */
  ghost predicate Kept(remaining: seq<string>, names: set<string>, cutoff: int) {
    forall d: string :: d in remaining <==> Path(d) in names && ParseDate(d).Some? && !Expired(d, cutoff)
  }

  lemma KeptMore(remaining: seq<string>, names: set<string>, cutoff: int, name: string)
    requires Kept(remaining, names, cutoff)
    ensures Keeping(name, cutoff).None? ==> Kept(remaining, names + {name}, cutoff)
    ensures Keeping(name, cutoff).Some? ==> Kept(remaining + [Keeping(name, cutoff).value], names + {name}, cutoff)
  {
    forall d: string { FileNameRoundTrip(name, d); }
  }

  /** What is true after looking at these directory entries. */
  ghost predicate Examined(names: set<string>, before: Disk, disk: Disk, handles: map<string, string>,
                           dbs: map<string, string>, remaining: seq<string>, cutoff: int, stuck: set<string>)
  {
    && CleanedAmong(names, before, disk, cutoff, stuck)
    && HandlesKept(handles, dbs, names, cutoff) && Kept(remaining, names, cutoff)
  }

  lemma NothingExamined(disk: Disk, dbs: map<string, string>, cutoff: int, stuck: set<string>)
    ensures Examined({}, disk, disk, dbs, dbs, [], cutoff, stuck)
  {
  }

  lemma ExaminedMore(names: set<string>, before: Disk, mid: Disk, after: Disk, handles: map<string, string>,
                     mid': map<string, string>, after': map<string, string>,
                     remaining: seq<string>, remaining': seq<string>, cutoff: int, stuck: set<string>,
                     name: string)
    requires Examined(names, before, mid, handles, mid', remaining, cutoff, stuck)
    requires after == mid - (Expiring(name, cutoff) - stuck) && after' == mid' - Closing(name, cutoff)
    requires Keeping(name, cutoff).None? ==> remaining' == remaining
    requires Keeping(name, cutoff).Some? ==> remaining' == remaining + [Keeping(name, cutoff).value]
    ensures Examined(names + {name}, before, after, handles, after', remaining', cutoff, stuck)
  {
    CleanedMore(names, before, mid, after, cutoff, stuck, name);
    HandlesMore(handles, mid', after', names, cutoff, name);
    KeptMore(remaining, names, cutoff, name);
  }

  lemma MoveOne(a: set<string>, b: set<string>, x: string)
    requires x in b
    ensures (a + {x}) + (b - {x}) == a + b && |b - {x}| < |b|
  {
  }

  /** No handle is open on an expired shard; the others stay, and those of kept shards join them. */
  ghost predicate Tended(before: map<string, string>, after: map<string, string>, disk: Disk,
                         unopenable: set<string>, cutoff: int) {
    forall d: string :: d in after <==>
      !Expired(d, cutoff) && (d in before || (Path(d) in disk && ParseDate(d).Some? && d !in unopenable))
  }

  lemma HandlesTended(before: Disk, disk: Disk, handles: map<string, string>, mid: map<string, string>,
                      after: map<string, string>, remaining: seq<string>, unopenable: set<string>,
                      cutoff: int, stuck: set<string>)
    requires Cleaned(before, disk, cutoff, stuck) && forall d :: d in handles ==> Path(d) in before
    requires HandlesKept(handles, mid, before.Keys, cutoff) && Kept(remaining, before.Keys, cutoff)
    requires forall d :: d in after <==> d in mid || (d in remaining && d !in unopenable)
    ensures Tended(handles, after, disk, unopenable, cutoff)
  {
    forall d: string | Path(d) in before { DeletesShard(before.Keys, cutoff, d); }
  }

  // ---- a batch by date ----

  function Rows(zone: string, lines: seq<LogLine>): (rows: seq<Content>)
    ensures |rows| == |lines| && forall i :: 0 <= i < |lines| ==> rows[i] == EntryOf(zone, lines[i]).content
  {
    seq(|lines|, i requires 0 <= i < |lines| => EntryOf(zone, lines[i]).content)
  }

  function DateOf(l: LogLine): string { Name(DayOf(l.timestamp)) }

  /** The lines of one date, in order. */
  function On(lines: seq<LogLine>, dateOf: LogLine -> string, date: string): seq<LogLine> {
    if lines == [] then [] else
    var n := |lines| - 1;
    On(lines[..n], dateOf, date) + (if dateOf(lines[n]) == date then [lines[n]] else [])
  }

  ghost predicate GroupedBy(byDate: map<string, seq<LogLine>>, lines: seq<LogLine>, dateOf: LogLine -> string) {
    && (forall d :: d in byDate <==> On(lines, dateOf, d) != [])
    && forall d :: d in byDate ==> byDate[d] == On(lines, dateOf, d)
  }

  lemma OnExtend(lines: seq<LogLine>, l: LogLine, dateOf: LogLine -> string, date: string)
    ensures On(lines + [l], dateOf, date) == On(lines, dateOf, date) + (if dateOf(l) == date then [l] else [])
  {
    assert (lines + [l])[..|lines|] == lines;
  }

  lemma GroupedByExtend(byDate: map<string, seq<LogLine>>, lines: seq<LogLine>, l: LogLine,
                        dateOf: LogLine -> string, date: string)
    requires GroupedBy(byDate, lines, dateOf) && date == dateOf(l)
    ensures GroupedBy(byDate[date := (if date in byDate then byDate[date] else []) + [l]], lines + [l], dateOf)
  {
    forall d: string { OnExtend(lines, l, dateOf, d); }
  }

  lemma RowsExtend(zone: string, lines: seq<LogLine>, l: LogLine)
    ensures Rows(zone, lines + [l]) == Rows(zone, lines) + [EntryOf(zone, l).content]
    ensures Entries(zone, lines + [l]) == Entries(zone, lines) + [EntryOf(zone, l)]
  {
  }

  lemma {:induction false} OnIsGroup(zone: string, lines: seq<LogLine>, date: string)
    ensures Rows(zone, On(lines, DateOf, date)) == Group(Entries(zone, lines), date)
  {
    if lines != [] {
      var init, l := lines[..|lines| - 1], lines[|lines| - 1];
      assert lines == init + [l];
      OnIsGroup(zone, init, date);
      RowsExtend(zone, init, l);
      RowsExtend(zone, On(init, DateOf, date), l);
      GroupAppend(Entries(zone, init), EntryOf(zone, l), date);
    }
  }

  /** The map of lines by date holds each date of the batch once, with that date's rows. */
  lemma GroupsOf(zone: string, byDate: map<string, seq<LogLine>>, lines: seq<LogLine>)
    requires GroupedBy(byDate, lines, DateOf)
    ensures byDate.Keys == Dates(Entries(zone, lines))
    ensures forall d :: d in byDate ==> Rows(zone, byDate[d]) == Group(Entries(zone, lines), d)
  {
    var entries := Entries(zone, lines);
    forall d: string ensures d in byDate <==> d in Dates(entries) {
      OnIsGroup(zone, lines, d);
      GroupEmpty(entries, d);
    }
    forall d | d in byDate ensures Rows(zone, byDate[d]) == Group(entries, d) { OnIsGroup(zone, lines, d); }
  }

  /** The transaction for this date committed. */
  ghost predicate Committed(before: Disk, after: Disk, date: string, rows: seq<Content>) {
    && HasRoom(TableAt(before, date), |rows|) && TableAt(after, date) == Append(TableAt(before, date), rows)
    && forall d: string :: d != date ==> TableAt(after, d) == TableAt(before, d)
  }

  lemma InsertedMore(before: Disk, mid: Disk, after: Disk, entries: seq<Entry>, done: set<string>, date: string)
    requires Inserted(before, mid, entries, done) && date !in done
    requires Committed(mid, after, date, Group(entries, date))
    ensures Inserted(before, after, entries, done + {date})
  {
  }

  lemma CommittedAt(before: Disk, after: Disk, date: string, rows: seq<Content>)
    requires HasRoom(TableAt(before, date), |rows|)
    requires after == before[Path(date) := Append(TableAt(before, date), rows)]
    ensures Committed(before, after, date, rows)
  {
    forall d: string | d != date ensures TableAt(after, d) == TableAt(before, d) {
      if Path(d) == Path(date) { PathInjective(d, date); }
    }
  }

  /** Opening a shard may create its file; no table changes by that. */
  ghost predicate SameTables(before: Disk, after: Disk) {
    forall d: string :: TableAt(after, d) == TableAt(before, d)
  }

  /** No file is lost, and only shards of these dates can be new. */
  ghost predicate OnlyNewShards(before: Disk, after: Disk, dates: set<string>) {
    before.Keys <= after.Keys && forall f :: f in after && f !in before ==> exists d :: d in dates && f == Path(d)
  }

  lemma OnlyNewMore(before: Disk, mid: Disk, after: Disk, dates: set<string>, date: string)
    requires OnlyNewShards(before, mid, dates) && date in dates
    requires mid.Keys <= after.Keys <= mid.Keys + {Path(date)}
    ensures OnlyNewShards(before, after, dates)
  {
  }

  function Create(disk: Disk, path: string): Disk { if path in disk then disk else disk[path := []] }

  lemma CreateSameTables(disk: Disk, path: string)
    ensures SameTables(disk, Create(disk, path))
  {
  }

  /** A transaction on this table has written i of the rows. */
  predicate Writing(before: Table, tx: Table, rows: seq<Content>, i: nat)
    requires i <= |rows|
  {
    && NextId(tx) == NextId(before) + i && HasRoom(tx, 0)
    && (HasRoom(before, |rows|) ==> Append(tx, rows[i..]) == Append(before, rows))
  }

  lemma WritingNothing(before: Table, rows: seq<Content>)
    ensures HasRoom(before, 0) ==> Writing(before, before, rows, 0)
  {
    assert rows[0..] == rows;
  }

  lemma WritingOne(before: Table, tx: Table, rows: seq<Content>, i: nat)
    requires i < |rows| && Writing(before, tx, rows, i) && HasRoom(tx, 1)
    ensures Writing(before, tx + [RowOf(NextId(tx), rows[i])], rows, i + 1)
  {
    assert rows[i..][1..] == rows[i + 1..];
  }

  lemma WritingAll(before: Table, tx: Table, rows: seq<Content>)
    requires Writing(before, tx, rows, |rows|)
    ensures HasRoom(before, |rows|) && tx == Append(before, rows)
  {
  }

  lemma InsertedSame(before: Disk, mid: Disk, after: Disk, entries: seq<Entry>, done: set<string>)
    requires Inserted(before, mid, entries, done) && SameTables(mid, after)
    ensures Inserted(before, after, entries, done)
  {
  }

  class Store {
    const zone: string
    var disk: Disk
    /** The open handle of a date, as the path it was opened on. */
    var dbs: map<string, string>
    /** The paths with an open connection. */
    var connections: set<string>

    /** Every handle is open on its own date's file, which exists, and nothing else is open. */
    ghost predicate InStep()
      reads this
    {
      && (forall d :: d in dbs ==> dbs[d] == Path(d) && Path(d) in disk && Path(d) in connections)
      && (forall p :: p in connections ==> exists d :: d in dbs && p == Path(d))
    }

    constructor (zone: string, disk: Disk)
      ensures InStep() && this.zone == zone && this.disk == disk && dbs == map[]
    {
      this.zone, this.disk, dbs, connections := zone, disk, map[], {};
    }

    /** `getOrOpenDB`; fails says whether SQLite refuses to open the file. */
    method GetOrOpenDB(date: string, fails: bool) returns (db: Option<string>)
      requires InStep()
      modifies this
      ensures InStep() && SameTables(old(disk), disk)
      ensures db.None? <==> date !in old(dbs) && fails
      ensures db.Some? ==> db.value == Path(date) && dbs == old(dbs)[date := Path(date)]
      ensures db.Some? ==> disk == Create(old(disk), Path(date))
      ensures db.None? ==> dbs == old(dbs) && disk in {old(disk), Create(old(disk), Path(date))}
    {
      if date in dbs { return Some(dbs[date]); }
      var path := Path(date);
      CreateSameTables(disk, path);
      if fails {
        if * { disk := Create(disk, path); }
        return None;
      }
      disk := Create(disk, path);
      connections := connections + {path};
      dbs := dbs[date := path];
      return Some(path);
    }

    /** `insertGroup`: one transaction. failsAt is the statement that fails: 0 for begin and
        prepare, then one for each line, and one for the commit. */
    method InsertGroup(db: string, lines: seq<LogLine>, failsAt: Option<nat>) returns (ok: bool)
      requires db in disk
      modifies `disk
      ensures ok <==> (failsAt.None? || failsAt.value > |lines| + 1) && HasRoom(old(disk)[db], |lines|)
      ensures ok ==> disk == old(disk)[db := Append(old(disk)[db], Rows(zone, lines))]
      ensures !ok ==> disk == old(disk)
    {
      ok := WriteRows(db, Rows(zone, lines), failsAt);
    }

    method WriteRows(db: string, rows: seq<Content>, failsAt: Option<nat>) returns (ok: bool)
      requires db in disk
      modifies `disk
      ensures ok <==> (failsAt.None? || failsAt.value > |rows| + 1) && HasRoom(old(disk)[db], |rows|)
      ensures ok ==> disk == old(disk)[db := Append(old(disk)[db], rows)]
      ensures !ok ==> disk == old(disk)
    {
      if failsAt == Some(0) { return false; }
      var tx := disk[db];
      ghost var before := tx;
      WritingNothing(tx, rows);
      for i := 0 to |rows|
        invariant disk == old(disk) && (failsAt.None? || failsAt.value > i)
        invariant Writing(before, tx, rows, i)
      {
        if failsAt == Some(i + 1) || !HasRoom(tx, 1) { return false; }
        WritingOne(before, tx, rows, i);
        tx := tx + [RowOf(NextId(tx), rows[i])];
      }
      WritingAll(before, tx, rows);
      if failsAt == Some(|rows| + 1) { return false; }
      disk := disk[db := tx];
      return true;
    }

    /** The transaction of one shard cannot succeed. */
    ghost predicate Fails(rows: seq<Content>, unopenable: set<string>, failsAt: map<string, nat>, date: string)
      reads this
    {
      || (date !in dbs && date in unopenable)
      || (date in failsAt && failsAt[date] <= |rows| + 1)
      || !HasRoom(TableAt(disk, date), |rows|)
    }

    /** One date of the batch: all of its lines or none. */
    method InsertShard(date: string, group: seq<LogLine>, unopenable: set<string>, failsAt: map<string, nat>)
      returns (ok: bool)
      requires InStep()
      modifies this
      ensures InStep() && old(dbs).Keys <= dbs.Keys <= old(dbs).Keys + {date}
      ensures old(disk).Keys <= disk.Keys <= old(disk).Keys + {Path(date)}
      ensures ok <==> !old(Fails(Rows(zone, group), unopenable, failsAt, date))
      ensures ok ==> Committed(old(disk), disk, date, Rows(zone, group))
      ensures !ok ==> SameTables(old(disk), disk)
    {
      var db := GetOrOpenDB(date, date in unopenable);
      if db.None? { return false; }
      ghost var mid := disk;
      assert TableAt(mid, date) == TableAt(old(disk), date);
      ok := InsertGroup(db.value, group, if date in failsAt then Some(failsAt[date]) else None);
      if ok { CommittedAt(mid, disk, date, Rows(zone, group)); }
    }

    /** `InsertBatch`: whatever order the dates are visited in, whole groups only, and all of
        them unless one fails. */
    method InsertBatch(lines: seq<LogLine>, cancelled: bool, unopenable: set<string>, failsAt: map<string, nat>)
      returns (ok: bool, ghost done: set<string>)
      requires InStep()
      modifies this
      ensures InStep()
      ensures Inserted(old(disk), disk, Entries(zone, lines), done) && done <= Dates(Entries(zone, lines))
      ensures lines != [] && cancelled ==> !ok && disk == old(disk)
      ensures ok <==> done == Dates(Entries(zone, lines))
      ensures OnlyNewShards(old(disk), disk, Dates(Entries(zone, lines)))
      ensures !ok && !cancelled ==>
        old(SomeFails(Entries(zone, lines), unopenable, failsAt, Dates(Entries(zone, lines)) - done))
      ensures !cancelled ==>
        (ok <==> !old(SomeFails(Entries(zone, lines), unopenable, failsAt, Dates(Entries(zone, lines)))))
      ensures old(Partitioned(zone, disk)) ==> Partitioned(zone, disk)
      ensures InWholeDays(zone, old(disk), disk, lines, ok)
    {
      ghost var entries := Entries(zone, lines);
      done := {};
      InsertedHoldsLines(zone, disk, disk, lines, {});
      if |lines| == 0 { return true, {}; }
      if cancelled {
        assert entries[0].date in Dates(entries);
        return false, {};
      }
      var byDate := ByDate(lines);
      GroupsOf(zone, byDate, lines);
      ok, done := InsertShards(entries, byDate, unopenable, failsAt);
      KeepsPartition(old(disk), lines, done);
      InsertedHoldsLines(zone, old(disk), disk, lines, done);
    }

    /** Some transaction of these dates cannot succeed. */
    ghost predicate SomeFails(entries: seq<Entry>, unopenable: set<string>, failsAt: map<string, nat>,
                              dates: set<string>)
      reads this
    {
      exists d :: d in dates && Fails(Group(entries, d), unopenable, failsAt, d)
    }

    method InsertShards(ghost entries: seq<Entry>, byDate: map<string, seq<LogLine>>,
                        unopenable: set<string>, failsAt: map<string, nat>)
      returns (ok: bool, ghost done: set<string>)
      requires InStep() && byDate.Keys == Dates(entries)
      requires forall d :: d in byDate ==> Rows(zone, byDate[d]) == Group(entries, d)
      modifies this
      ensures InStep()
      ensures Inserted(old(disk), disk, entries, done) && done <= byDate.Keys && (ok <==> done == byDate.Keys)
      ensures !ok ==> old(SomeFails(entries, unopenable, failsAt, byDate.Keys - done))
      ensures ok ==> !old(SomeFails(entries, unopenable, failsAt, byDate.Keys))
      ensures OnlyNewShards(old(disk), disk, byDate.Keys)
    {
      var remaining := byDate.Keys;
      done := {};
      while remaining != {}
        invariant InStep() && Inserted(old(disk), disk, entries, done)
        invariant done + remaining == byDate.Keys && done !! remaining
        invariant OnlyNewShards(old(disk), disk, byDate.Keys)
        invariant old(dbs).Keys <= dbs.Keys <= old(dbs).Keys + done
        invariant !old(SomeFails(entries, unopenable, failsAt, done))
      {
        var date :| date in remaining;
        ghost var mid := disk;
        assert TableAt(mid, date) == TableAt(old(disk), date);
        ok := InsertShard(date, byDate[date], unopenable, failsAt);
        OnlyNewMore(old(disk), mid, disk, byDate.Keys, date);
        if !ok {
          InsertedSame(old(disk), mid, disk, entries, done);
          return;
        }
        InsertedMore(old(disk), mid, disk, entries, done, date);
        remaining, done := remaining - {date}, done + {date};
      }
      return true, done;
    }

    /** The map of lines by date. */
    method ByDate(lines: seq<LogLine>) returns (byDate: map<string, seq<LogLine>>)
      ensures GroupedBy(byDate, lines, DateOf)
    {
      byDate := map[];
      for i := 0 to |lines|
        invariant GroupedBy(byDate, lines[..i], DateOf)
      {
        var l := lines[i];
        var d := DateOf(l);
        GroupedByExtend(byDate, lines[..i], l, DateOf, d);
        assert lines[..i + 1] == lines[..i] + [l];
        byDate := byDate[d := (if d in byDate then byDate[d] else []) + [l]];
      }
      assert lines[..|lines|] == lines;
    }

    lemma KeepsPartition(before: Disk, lines: seq<LogLine>, done: set<string>)
      requires Inserted(before, disk, Entries(zone, lines), done)
      ensures Partitioned(zone, before) ==> Partitioned(zone, disk)
    {
      if Partitioned(zone, before) { InsertedKeepsPartition(zone, before, disk, lines, done); }
    }

    /** `LastSeen`, given today's date. */
    method LastSeen(today: Day, unreadable: set<string>, pod: string, container: string)
      returns (r: Result<Option<nat>>)
      ensures r == Recency.LastSeen(zone, disk, unreadable, today, pod, container)
    {
      ghost var f := Recency.DaysBack(zone, disk, unreadable, today, pod, container);
      ghost var n := Recency.WindowLength(today);
      var i: nat := 0;
      while i < Recency.LOOKBACK_DAYS && i <= today
        invariant i <= n && Recency.Scan(f, 0, n) == Recency.Scan(f, i, n)
        decreases Recency.LOOKBACK_DAYS - i
      {
        var date := Name(today - i);
        Recency.ScanStep(f, i, n);
        Recency.DayBack(zone, disk, unreadable, today, pod, container, i);
        if Path(date) in disk {
          if date in unreadable { return Err("query last-seen"); }
          r := Recency.LastSeenIn(zone, disk[Path(date)], pod, container);
          if r != Ok(None) { return; }
        }
        i := i + 1;
      }
      return Ok(None);
    }

    method CloseShard(date: string)
      requires InStep()
      modifies `dbs, `connections
      ensures InStep() && dbs == old(dbs) - {date}
    {
      if date in dbs {
        forall d | d in dbs && Path(d) == Path(date) ensures d == date { PathInjective(d, date); }
        connections := connections - {dbs[date]};
        dbs := dbs - {date};
      }
      assert dbs == old(dbs) - {date};
    }

    /** Removes the shard's files, but for those that cannot be removed: such an error is ignored. */
    method RemoveShard(date: string, stuck: set<string>)
      requires InStep() && date !in dbs
      modifies `disk
      ensures InStep() && disk == old(disk) - (FilesOf(date) - stuck)
    {
      var path := Path(date);
      assert path + SIDECARS[0] == path;
      ghost var removed: set<string> := {};
      for i := 0 to |SIDECARS|
        invariant removed == (set j | 0 <= j < i :: path + SIDECARS[j])
        invariant disk == old(disk) - (removed - stuck)
      {
        var file := path + SIDECARS[i];
        removed := removed + {file};
        if file !in stuck { disk := disk - {file}; }
      }
      assert removed == {path + SIDECARS[0], path + SIDECARS[1], path + SIDECARS[2]};
      forall d | d in dbs ensures Path(d) !in FilesOf(date) { PathIsNoSidecar(d, date); }
    }

    /** One directory entry: delete its shard if that has expired, else say which date to keep. */
    method Examine(name: string, cutoff: int, stuck: set<string>) returns (kept: Option<string>)
      requires InStep()
      modifies this
      ensures InStep() && disk == old(disk) - (Expiring(name, cutoff) - stuck)
      ensures dbs == old(dbs) - Closing(name, cutoff) && kept == Keeping(name, cutoff)
    {
      var date := DateIn(name);
      if date.None? || ParseDate(date.value).None? { return None; }
      if Expired(date.value, cutoff) {
        CloseShard(date.value);
        RemoveShard(date.value, stuck);
        return None;
      }
      return date;
    }

    /** The first half of `CleanupOldDBs`, in whatever order the directory is read. */
    method DeleteExpired(cutoff: int, stuck: set<string>) returns (remaining: seq<string>)
      requires InStep()
      modifies this
      ensures InStep() && Cleaned(old(disk), disk, cutoff, stuck)
      ensures HandlesKept(old(dbs), dbs, old(disk).Keys, cutoff) && Kept(remaining, old(disk).Keys, cutoff)
    {
      var todo := disk.Keys;
      remaining := [];
      ghost var names: set<string> := {};
      NothingExamined(disk, dbs, cutoff, stuck);
      while todo != {}
        invariant InStep() && names + todo == old(disk).Keys
        invariant Examined(names, old(disk), disk, old(dbs), dbs, remaining, cutoff, stuck)
        decreases |todo|
      {
        var name :| name in todo;
        ghost var files, handles, before := disk, dbs, remaining;
        var kept := Examine(name, cutoff, stuck);
        if kept.Some? { remaining := remaining + [kept.value]; }
        ExaminedMore(names, old(disk), files, disk, old(dbs), handles, dbs, before, remaining, cutoff, stuck, name);
        MoveOne(names, todo, name);
        todo, names := todo - {name}, names + {name};
      }
      assert names == old(disk).Keys;
    }

    /** The second half: opening the kept shards for `PRAGMA vacuum`. */
    method Vacuum(dates: seq<string>, unopenable: set<string>)
      requires InStep() && forall i :: 0 <= i < |dates| ==> Path(dates[i]) in disk
      modifies this
      ensures InStep() && disk == old(disk)
      ensures forall d :: d in dbs <==> d in old(dbs) || (d in dates && d !in unopenable)
    {
      for i := 0 to |dates|
        invariant InStep() && disk == old(disk)
        invariant forall d :: d in dbs <==> d in old(dbs) || (d in dates[..i] && d !in unopenable)
      {
        var db := GetOrOpenDB(dates[i], dates[i] in unopenable);
        assert dates[..i + 1] == dates[..i] + [dates[i]];
      }
      assert dates[..|dates|] == dates;
    }

    /** `CleanupOldDBs` at the instant now, counted in UTC: exactly the expired shards are
        deleted, as far as their files can be removed, and afterwards the open handles are those
        that were open on other shards and those of every kept shard that can be opened. */
    method CleanupOldDBs(retentionDays: int, now: int, readable: bool, stuck: set<string>, unopenable: set<string>)
      returns (r: Result<()>)
      requires InStep()
      modifies this
      ensures InStep() && (r.Ok? <==> readable)
      ensures r.Err? ==> disk == old(disk) && dbs == old(dbs)
      ensures r.Ok? ==> Cleaned(old(disk), disk, Cutoff(retentionDays, now), stuck)
      ensures r.Ok? ==> Tended(old(dbs), dbs, disk, unopenable, Cutoff(retentionDays, now))
      ensures old(Partitioned(zone, disk)) ==> Partitioned(zone, disk)
    {
      if !readable { return Err("read data dir"); }
      var cutoff := Cutoff(retentionDays, now);
      var remaining := DeleteExpired(cutoff, stuck);
      ghost var handles := dbs;
      forall i | 0 <= i < |remaining| ensures Path(remaining[i]) in disk {
        assert remaining[i] in remaining;
        DeletesShard(old(disk).Keys, cutoff, remaining[i]);
      }
      Vacuum(remaining, unopenable);
      HandlesTended(old(disk), disk, old(dbs), handles, dbs, remaining, unopenable, cutoff, stuck);
      CleanedPartition(zone, old(disk), disk, cutoff, stuck);
      return Ok(());
    }

    /** `Close` closes every handle. */
    method Close()
      requires InStep()
      modifies `dbs, `connections
      ensures InStep() && dbs == map[] && connections == {}
    {
      while dbs.Keys != {}
        invariant InStep()
        decreases |dbs.Keys|
      {
        var date :| date in dbs.Keys;
        ghost var before := dbs.Keys;
        CloseShard(date);
        assert dbs.Keys == before - {date};
      }
    }
  }
}
