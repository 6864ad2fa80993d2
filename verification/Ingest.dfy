/** What inserting lines means for the shard files: where each line goes, what its row holds,
    and what stays true of every file. */
module Ingest {
  import opened Text
  import opened Calendar
  import opened Timestamps
  import opened Cursor
  import opened Sql
  import opened Shards
  import opened Ranking

  datatype LogLine = LogLine(pod: string, namespace: string, container: string, timestamp: Time,
                             level: string, content: string)

  /** A row without its id. */
  datatype Content = Content(pod: string, namespace: string, container: string,
                             timestamp: string, level: string, line: string)

  function ContentOf(r: Row): Content { Content(r.pod, r.namespace, r.container, r.timestamp, r.level, r.line) }

  function Contents(table: Table): (c: seq<Content>)
    ensures |c| == |table| && forall i :: 0 <= i < |table| ==> c[i] == ContentOf(table[i])
  {
    seq(|table|, i requires 0 <= i < |table| => ContentOf(table[i]))
  }

  /** A line as it is stored: its date, which names its shard, and what its row will hold. */
  datatype Entry = Entry(date: string, content: Content)

  function EntryOf(zone: string, l: LogLine): Entry {
    Entry(Name(DayOf(l.timestamp)),
          Content(l.pod, l.namespace, l.container, Stamp(zone, l.timestamp), l.level, l.content))
  }

  function Entries(zone: string, lines: seq<LogLine>): (entries: seq<Entry>)
    ensures |entries| == |lines| && forall i :: 0 <= i < |lines| ==> entries[i] == EntryOf(zone, lines[i])
  {
    seq(|lines|, i requires 0 <= i < |lines| => EntryOf(zone, lines[i]))
  }

  function Dates(entries: seq<Entry>): set<string> { set i | 0 <= i < |entries| :: entries[i].date }

  /** The batch's rows for one shard, in the batch's order. */
  function Group(entries: seq<Entry>, date: string): seq<Content> {
    if entries == [] then []
    else (if entries[0].date == date then [entries[0].content] else []) + Group(entries[1..], date)
  }

  const MAX_ROWID := 0x7FFF_FFFF_FFFF_FFFF

  /** FTS5 gives a new row the largest row id plus one. */
  function NextId(table: Table): int { if table == [] then 1 else table[|table| - 1].rowid + 1 }

  predicate HasRoom(table: Table, n: nat) { NextId(table) + n <= MAX_ROWID + 1 }

  function RowOf(id: int64, c: Content): Row {
    Row(id, c.pod, c.namespace, c.container, c.timestamp, c.level, c.line)
  }

  /** A committed transaction's rows, at the end of the table. */
  function Append(table: Table, contents: seq<Content>): Table
    requires HasRoom(table, |contents|)
    decreases |contents|
  {
    if contents == [] then table else Append(table + [RowOf(NextId(table), contents[0])], contents[1..])
  }

  // ---- a batch is partitioned by date ----

  lemma {:induction false} GroupAppend(entries: seq<Entry>, x: Entry, date: string)
    ensures Group(entries + [x], date) == Group(entries, date) + (if x.date == date then [x.content] else [])
  {
    if entries == [] {
      assert entries + [x] == [x];
    } else {
      GroupAppend(entries[1..], x, date);
      assert (entries + [x])[1..] == entries[1..] + [x];
    }
  }

  /** Every entry of the batch is in its own date's group, as often as in the batch, and in no
      other group. */
  lemma {:induction false} GroupsPartition(entries: seq<Entry>, x: Content, date: string)
    ensures multiset(Group(entries, date))[x] == multiset(entries)[Entry(date, x)]
  {
    if entries != [] {
      GroupsPartition(entries[1..], x, date);
      assert entries == [entries[0]] + entries[1..];
    }
  }

  /** A group is empty exactly if its date is none of the batch's. */
  lemma {:induction false} GroupEmpty(entries: seq<Entry>, date: string)
    ensures Group(entries, date) != [] <==> date in Dates(entries)
  {
    if entries != [] {
      var rest := entries[1..];
      GroupEmpty(rest, date);
      assert entries == [entries[0]] + rest;
      if date in Dates(entries) && entries[0].date != date {
        var i :| 0 <= i < |entries| && entries[i].date == date;
        assert rest[i - 1] == entries[i];
      } else if date in Dates(rest) {
        var i :| 0 <= i < |rest| && rest[i].date == date;
        assert entries[i + 1].date == date;
      }
    }
  }

  // ---- what is stored ----

  /** Committing adds exactly the rows, in order, behind what was there, and keeps the row
      ids strictly increasing. */
  lemma {:induction false} AppendAdds(table: Table, contents: seq<Content>)
    requires HasRoom(table, |contents|) && IdsAscend(table)
    ensures Contents(Append(table, contents)) == Contents(table) + contents
    ensures IdsAscend(Append(table, contents)) && table <= Append(table, contents)
    decreases |contents|
  {
    if contents != [] {
      AppendAdds(table + [RowOf(NextId(table), contents[0])], contents[1..]);
      assert contents == [contents[0]] + contents[1..];
    }
  }

  /** The row was written for an instant of that day. */
  ghost predicate RowInDay(zone: string, r: Row, n: Day) {
    exists t: Time :: DayOf(t) == n && r.timestamp == Stamp(zone, t)
  }

  /** Every shard holds rows of its own day only, with increasing ids. */
  ghost predicate Partitioned(zone: string, disk: Disk) {
    forall n: Day :: ShardOk(zone, disk, n)
  }

  ghost predicate ShardOk(zone: string, disk: Disk, n: Day) {
    var table := TableAt(disk, Name(n));
    IdsAscend(table) && forall i :: 0 <= i < |table| ==> RowInDay(zone, table[i], n)
  }

  ghost predicate StampedIn(zone: string, c: Content, n: Day) {
    exists t: Time :: DayOf(t) == n && c.timestamp == Stamp(zone, t)
  }

  lemma ContentInDay(zone: string, r: Row, n: Day)
    ensures RowInDay(zone, r, n) <==> StampedIn(zone, ContentOf(r), n)
  {
  }

  lemma {:induction false} GroupInDay(zone: string, lines: seq<LogLine>, n: Day)
    ensures AllStampedIn(zone, Group(Entries(zone, lines), Name(n)), n)
  {
    if lines != [] {
      var entries := Entries(zone, lines);
      GroupInDay(zone, lines[1..], n);
      assert entries[1..] == Entries(zone, lines[1..]);
      EntryInDay(zone, lines[0], n);
    }
  }

  lemma EntryInDay(zone: string, l: LogLine, n: Day)
    ensures EntryOf(zone, l).date == Name(n) ==> StampedIn(zone, EntryOf(zone, l).content, n)
  {
    if EntryOf(zone, l).date == Name(n) { NameInjective(DayOf(l.timestamp), n); }
  }

  ghost predicate AllStampedIn(zone: string, contents: seq<Content>, n: Day) {
    forall i :: 0 <= i < |contents| ==> StampedIn(zone, contents[i], n)
  }

  // ---- a whole batch ----

  /** The store after the transactions of these dates committed and no others: whole groups
      only. */
  ghost predicate Inserted(before: Disk, after: Disk, entries: seq<Entry>, done: set<string>) {
    && (forall d: string :: d in done ==>
          HasRoom(TableAt(before, d), |Group(entries, d)|)
          && TableAt(after, d) == Append(TableAt(before, d), Group(entries, d)))
    && (forall d: string :: d !in done ==> TableAt(after, d) == TableAt(before, d))
  }

  lemma ShardKept(zone: string, before: Table, after: Table, added: seq<Content>, n: Day)
    requires IdsAscend(before) && forall i :: 0 <= i < |before| ==> RowInDay(zone, before[i], n)
    requires AllStampedIn(zone, added, n)
    requires HasRoom(before, |added|) && after == Append(before, added)
    ensures IdsAscend(after) && forall i :: 0 <= i < |after| ==> RowInDay(zone, after[i], n)
  {
    AppendAdds(before, added);
    forall i | 0 <= i < |after| ensures RowInDay(zone, after[i], n) {
      ContentInDay(zone, after[i], n);
      assert Contents(after)[i] == ContentOf(after[i]);
      if i < |before| { assert after[i] == before[i]; } else { assert ContentOf(after[i]) == added[i - |before|]; }
    }
  }

  lemma InsertedKeepsShard(zone: string, before: Disk, after: Disk, lines: seq<LogLine>, done: set<string>, n: Day)
    requires Partitioned(zone, before) && Inserted(before, after, Entries(zone, lines), done)
    ensures ShardOk(zone, after, n)
  {
    var d, entries := Name(n), Entries(zone, lines);
    assert ShardOk(zone, before, n);
    if d in done {
      GroupInDay(zone, lines, n);
      ShardKept(zone, TableAt(before, d), TableAt(after, d), Group(entries, d), n);
    } else {
      assert TableAt(after, d) == TableAt(before, d);
    }
  }

  /** Whatever set of groups got committed, every row is still in its day's shard. */
  lemma InsertedKeepsPartition(zone: string, before: Disk, after: Disk, lines: seq<LogLine>, done: set<string>)
    requires Partitioned(zone, before) && Inserted(before, after, Entries(zone, lines), done)
    ensures Partitioned(zone, after)
  {
    forall n: Day ensures ShardOk(zone, after, n) {
      InsertedKeepsShard(zone, before, after, lines, done, n);
    }
  }

  /** With all groups committed a shard has gained exactly its part of the batch, in order,
      each entry as often as it occurs there. */
  lemma InsertedAddsBatch(before: Disk, after: Disk, entries: seq<Entry>, date: string)
    requires Inserted(before, after, entries, Dates(entries)) && IdsAscend(TableAt(before, date))
    ensures Contents(TableAt(after, date)) == Contents(TableAt(before, date)) + Group(entries, date)
    ensures forall x: Content :: multiset(Group(entries, date))[x] == multiset(entries)[Entry(date, x)]
  {
    GroupEmpty(entries, date);
    if date in Dates(entries) {
      AppendAdds(TableAt(before, date), Group(entries, date));
    }
    forall x: Content ensures multiset(Group(entries, date))[x] == multiset(entries)[Entry(date, x)] {
      GroupsPartition(entries, x, date);
    }
  }

  // ---- what that means for the lines ----

  /** The lines written on that day, in order, each as often as it occurs. */
  function OfDay(lines: seq<LogLine>, n: Day): seq<LogLine> {
    if lines == [] then []
    else (if DayOf(lines[0].timestamp) == n then [lines[0]] else []) + OfDay(lines[1..], n)
  }

  lemma {:induction false} OfDayExact(lines: seq<LogLine>, n: Day, l: LogLine)
    ensures multiset(OfDay(lines, n))[l] == if DayOf(l.timestamp) == n then multiset(lines)[l] else 0
  {
    if lines != [] {
      OfDayExact(lines[1..], n, l);
      assert lines == [lines[0]] + lines[1..];
    }
  }

  /** The row has the line's pod, namespace, container, level and text, and its time. */
  predicate HoldsLine(zone: string, r: Row, l: LogLine) {
    && r.pod == l.pod && r.namespace == l.namespace && r.container == l.container
    && r.level == l.level && r.line == l.content && ParseStamp(zone, r.timestamp) == Some(l.timestamp)
  }

  /** The table has gained a row for each of these lines, in order, behind the rows it had. */
  predicate GainsLines(zone: string, before: Table, after: Table, lines: seq<LogLine>) {
    && |after| == |before| + |lines| && after[..|before|] == before
    && forall k :: 0 <= k < |lines| ==> HoldsLine(zone, after[|before| + k], lines[k])
  }

  lemma {:induction false} AppendRows(table: Table, contents: seq<Content>)
    requires HasRoom(table, |contents|)
    ensures var after := Append(table, contents);
      && |after| == |table| + |contents| && after[..|table|] == table
      && forall k :: 0 <= k < |contents| ==> ContentOf(after[|table| + k]) == contents[k]
    decreases |contents|
  {
    if contents != [] {
      var mid := table + [RowOf(NextId(table), contents[0])];
      AppendRows(mid, contents[1..]);
      var after := Append(table, contents);
      assert after[..|table|] == after[..|mid|][..|table|] == table;
      forall k | 0 <= k < |contents| ensures ContentOf(after[|table| + k]) == contents[k] {
        if k == 0 {
          assert after[|table|] == after[..|mid|][|table|];
        } else {
          assert ContentOf(after[|mid| + (k - 1)]) == contents[1..][k - 1];
        }
      }
    }
  }

  /** A row with what is stored of a line holds the line. */
  lemma RowHoldsLine(zone: string, r: Row, l: LogLine)
    requires ContentOf(r) == EntryOf(zone, l).content
    ensures HoldsLine(zone, r, l)
  {
    StampRoundTrip(zone, l.timestamp);
  }

  /** What is stored of these lines. */
  predicate StoredOf(stored: LogLine -> Content, contents: seq<Content>, lines: seq<LogLine>) {
    |contents| == |lines| && forall k :: 0 <= k < |lines| ==> contents[k] == stored(lines[k])
  }

  function StoredIn(zone: string): LogLine -> Content { (l: LogLine) => EntryOf(zone, l).content }

  lemma EntryIsOfDay(zone: string, l: LogLine, n: Day)
    ensures EntryOf(zone, l).date == Name(n) <==> DayOf(l.timestamp) == n
  {
    if EntryOf(zone, l).date == Name(n) { NameInjective(DayOf(l.timestamp), n); }
  }

  lemma {:induction false} FirstStored(stored: LogLine -> Content, entries: seq<Entry>, date: string,
                                       lines: seq<LogLine>, n: Day)
    requires entries != [] && lines != [] && entries[0].content == stored(lines[0])
    requires entries[0].date == date <==> DayOf(lines[0].timestamp) == n
    requires StoredOf(stored, Group(entries[1..], date), OfDay(lines[1..], n))
    ensures StoredOf(stored, Group(entries, date), OfDay(lines, n))
  {
    var contents, rest := Group(entries[1..], date), OfDay(lines[1..], n);
    if entries[0].date == date {
      StoredFirst(stored, entries[0].content, lines[0], contents, rest);
    } else {
      assert [] + contents == contents && [] + rest == rest;
    }
  }

  lemma StoredFirst(stored: LogLine -> Content, c: Content, l: LogLine, contents: seq<Content>, lines: seq<LogLine>)
    requires c == stored(l) && StoredOf(stored, contents, lines)
    ensures StoredOf(stored, [c] + contents, [l] + lines)
  {
  }

  lemma {:induction false} GroupOfDay(zone: string, lines: seq<LogLine>, n: Day)
    ensures StoredOf(StoredIn(zone), Group(Entries(zone, lines), Name(n)), OfDay(lines, n))
  {
    if lines != [] {
      var entries := Entries(zone, lines);
      GroupOfDay(zone, lines[1..], n);
      assert entries[1..] == Entries(zone, lines[1..]);
      EntryIsOfDay(zone, lines[0], n);
      FirstStored(StoredIn(zone), entries, Name(n), lines, n);
    }
  }

  lemma {:induction false} AppendHoldsLines(zone: string, table: Table, group: seq<Content>, lines: seq<LogLine>)
    requires HasRoom(table, |group|) && StoredOf(StoredIn(zone), group, lines)
    ensures GainsLines(zone, table, Append(table, group), lines)
  {
    AppendRows(table, group);
    forall k | 0 <= k < |lines| ensures HoldsLine(zone, Append(table, group)[|table| + k], lines[k]) {
      RowHoldsLine(zone, Append(table, group)[|table| + k], lines[k]);
    }
  }

  /** Each day's table has gained the day's lines of the batch, or is what it was. */
  ghost predicate InWholeDays(zone: string, before: Disk, after: Disk, lines: seq<LogLine>, all: bool) {
    forall n: Day :: DayWhole(zone, TableAt(before, Name(n)), TableAt(after, Name(n)), OfDay(lines, n), all)
  }

  predicate DayWhole(zone: string, before: Table, after: Table, lines: seq<LogLine>, all: bool) {
    GainsLines(zone, before, after, lines) || (!all && after == before)
  }

  /** After an insert a day has a row for each of its lines of the batch or none of them; if all
      dates were committed, every line of the batch has its row. */
  lemma InsertedHoldsLines(zone: string, before: Disk, after: Disk, lines: seq<LogLine>, done: set<string>)
    requires Inserted(before, after, Entries(zone, lines), done)
    ensures InWholeDays(zone, before, after, lines, done >= Dates(Entries(zone, lines)))
  {
    forall n: Day
      ensures DayWhole(zone, TableAt(before, Name(n)), TableAt(after, Name(n)), OfDay(lines, n),
                       done >= Dates(Entries(zone, lines)))
    {
      DayInserted(zone, before, after, lines, Entries(zone, lines), done, n, Name(n));
    }
  }

  lemma {:induction false} DayInserted(zone: string, before: Disk, after: Disk, lines: seq<LogLine>,
                                       entries: seq<Entry>, done: set<string>, n: Day, date: string)
    requires Inserted(before, after, entries, done) && entries == Entries(zone, lines) && date == Name(n)
    ensures DayWhole(zone, TableAt(before, date), TableAt(after, date), OfDay(lines, n), done >= Dates(entries))
  {
    GroupOfDay(zone, lines, n);
    if date in done {
      AppendHoldsLines(zone, TableAt(before, date), Group(entries, date), OfDay(lines, n));
    } else {
      assert TableAt(after, date) == TableAt(before, date);
      GroupEmpty(entries, date);
      GainsNothing(zone, TableAt(before, date));
    }
  }

  lemma GainsNothing(zone: string, table: Table)
    ensures GainsLines(zone, table, table, [])
  {
  }

  // ---- row ids do not run out ----

  /** Every table can take n more rows: row ids are 64-bit integers. */
  ghost predicate RoomFor(disk: Disk, n: nat) { forall date: string :: RoomIn(TableAt(disk, date), n) }

  predicate RoomIn(table: Table, n: nat) {
    && n <= 0x7FFF_FFFF_FFFF_FFFF
    && forall i :: 0 <= i < |table| ==> table[i].rowid + n <= 0x7FFF_FFFF_FFFF_FFFF
  }

  /** A new store has room for as many lines as there are row ids, and its shards are in order. */
  lemma NewStore(zone: string, n: nat)
    requires n <= 0x7FFF_FFFF_FFFF_FFFF
    ensures RoomFor(map[], n) && Partitioned(zone, map[])
  {
  }

  lemma {:induction false} GroupSize(entries: seq<Entry>, date: string)
    ensures |Group(entries, date)| <= |entries|
  {
    if entries != [] { GroupSize(entries[1..], date); }
  }

  lemma {:induction false} AppendUsesRoom(table: Table, contents: seq<Content>, n: nat)
    requires RoomIn(table, n) && |contents| <= n
    ensures HasRoom(table, |contents|) && RoomIn(Append(table, contents), n - |contents|)
    decreases |contents|
  {
    if contents != [] { AppendUsesRoom(table + [RowOf(NextId(table), contents[0])], contents[1..], n - 1); }
  }

  lemma PathsApart(a: string, b: string)
    ensures Path(a) == Path(b) <==> a == b
  {
    if Path(a) == Path(b) { PathInjective(a, b); }
  }

  /** If there is room for a batch, the transactions of these dates can all succeed. */
  lemma {:induction false} InsertCanSucceed(disk: Disk, entries: seq<Entry>, dates: set<string>) returns (after: Disk)
    requires RoomFor(disk, |entries|)
    ensures Inserted(disk, after, entries, dates)
    decreases |dates|
  {
    if dates == {} {
      after := disk;
    } else {
      var d :| d in dates;
      var mid := InsertCanSucceed(disk, entries, dates - {d});
      var table, group := TableAt(disk, d), Group(entries, d);
      GroupSize(entries, d);
      assert RoomIn(table, |entries|);
      AppendUsesRoom(table, group, |entries|);
      after := mid[Path(d) := Append(table, group)];
      OneMoreInserted(disk, mid, after, entries, dates - {d}, d);
      assert dates - {d} + {d} == dates;
    }
  }

  lemma OneMoreInserted(before: Disk, mid: Disk, after: Disk, entries: seq<Entry>, done: set<string>, d: string)
    requires Inserted(before, mid, entries, done) && HasRoom(TableAt(before, d), |Group(entries, d)|)
    requires after == mid[Path(d) := Append(TableAt(before, d), Group(entries, d))]
    ensures Inserted(before, after, entries, done + {d})
  {
    forall x: string { PathsApart(x, d); }
  }

  /** An insert takes up no more room than it has lines. */
  lemma InsertLeavesRoom(before: Disk, after: Disk, entries: seq<Entry>, done: set<string>, n: nat)
    requires Inserted(before, after, entries, done) && RoomFor(before, n) && |entries| <= n
    ensures RoomFor(after, n - |entries|)
  {
    forall date: string ensures RoomIn(TableAt(after, date), n - |entries|) {
      assert RoomIn(TableAt(before, date), n);
      if date in done {
        GroupSize(entries, date);
        AppendUsesRoom(TableAt(before, date), Group(entries, date), n);
      }
    }
  }
}
