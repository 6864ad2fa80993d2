/** What a client that follows a search through all of its pages is shown, said in rows: which rows,
    what of each, and in which order. */
module Answers {
  import opened Text
  import opened Calendar
  import opened Cursor
  import opened Sql
  import opened Ranking
  import opened Shards
  import opened Search
  import opened Paging
  import MatchQuery
  import Snippet

  /** A row of one day's shard. */
  datatype Found = Found(day: Day, row: Row)

  /** The row is one that these options ask for. */
  predicate Fits(e: Engine, opts: Options, table: Table, row: Row) {
    && (opts.query == "" || e.matches(table, MatchQuery.Sanitized(opts.query), row))
    && (opts.pod == "" || row.pod == opts.pod)
    && (LevelsAtOrAbove(opts.minLevel).None? || row.level in LevelsAtOrAbove(opts.minLevel).value)
  }

  /** The result shows this row: when browsing its text and no rank, otherwise what snippet() and bm25()
      say of it. */
  predicate Shows(e: Engine, opts: Options, table: Table, r: SearchResult, row: Row) {
    && r.pod == row.pod && r.namespace == row.namespace && r.container == row.container
    && r.timestamp == row.timestamp && r.level == row.level
    && (opts.query == "" ==> r.snippet == Snippet.EscapeSnippet(row.line) && r.rank == Zero(false))
    && (opts.query != "" ==>
          && r.snippet == Snippet.EscapeSnippet(e.snippet(table, MatchQuery.Sanitized(opts.query), row))
          && r.rank == e.rank(table, MatchQuery.Sanitized(opts.query), row))
  }

  /** The day is attached, its shard has the row, and it is asked for. */
  predicate IsAskedFor(e: Engine, w: World, opts: Options, f: Found) {
    && Name(f.day) in AttachedIn(w, opts) && f.row in TableAt(w.disk, Name(f.day))
    && Fits(e, opts, TableAt(w.disk, Name(f.day)), f.row)
  }

  /** Browsing: the newest first. */
  predicate NewerThan(f: Found, g: Found) { f.day > g.day || (f.day == g.day && f.row.rowid > g.row.rowid) }

  function ScoreOf(e: Engine, w: World, opts: Options, f: Found): real {
    RealOf(e.rank(TableAt(w.disk, Name(f.day)), MatchQuery.Sanitized(opts.query), f.row))
  }

  /** A keyword search: the lowest bm25() first, and among equal ones the oldest. */
  predicate RanksBefore(e: Engine, w: World, opts: Options, f: Found, g: Found) {
    || ScoreOf(e, w, opts, f) < ScoreOf(e, w, opts, g)
    || (ScoreOf(e, w, opts, f) == ScoreOf(e, w, opts, g) && NewerThan(g, f))
  }

  predicate ComesBefore(e: Engine, w: World, opts: Options, f: Found, g: Found) {
    if opts.query == "" then NewerThan(f, g) else RanksBefore(e, w, opts, f, g)
  }

  // ---- hits are rows ----

  /** The hit has the row's columns. */
  predicate HitHolds(e: Engine, rq: Request, table: Table, h: Hit, row: Row) {
    && h.pod == row.pod && h.namespace == row.namespace && h.container == row.container
    && h.timestamp == row.timestamp && h.level == row.level && h.rowid == row.rowid
    && h.snip == (if rq.browse then row.line else e.snippet(table, rq.text, row))
    && h.rank == (if rq.browse then Zero(false) else e.rank(table, rq.text, row))
  }

  lemma {:induction false} HitOfRow(e: Engine, rq: Request, source: Source, rows: seq<Row>, h: Hit) returns (row: Row)
    requires h in HitsIn(e, rq, source, rows)
    ensures row in rows && Wanted(e, rq, source.table, row) && HitHolds(e, rq, source.table, h, row)
    ensures h.shard == source.alias
  {
    if h in HitOf(e, rq, source, rows[0]) {
      row := rows[0];
    } else {
      row := HitOfRow(e, rq, source, rows[1..], h);
    }
  }

  lemma {:induction false} RowHasHit(e: Engine, rq: Request, source: Source, rows: seq<Row>, row: Row) returns (h: Hit)
    requires row in rows && Wanted(e, rq, source.table, row)
    ensures h in HitsIn(e, rq, source, rows) && HitHolds(e, rq, source.table, h, row) && h.shard == source.alias
  {
    if row == rows[0] {
      h := HitOf(e, rq, source, row)[0];
    } else {
      h := RowHasHit(e, rq, source, rows[1..], row);
    }
  }

  /** The hit is this row of an attached shard. */
  predicate IsHitOf(e: Engine, rq: Request, sources: seq<Source>, k: nat, h: Hit, row: Row)
    requires k < |sources|
  {
    && row in sources[k].table && Wanted(e, rq, sources[k].table, row)
    && HitHolds(e, rq, sources[k].table, h, row) && h.shard == sources[k].alias
  }

  lemma {:induction false} HitHasRow(e: Engine, rq: Request, sources: seq<Source>, h: Hit) returns (k: nat, row: Row)
    requires h in Matching(e, rq, sources)
    ensures k < |sources| && IsHitOf(e, rq, sources, k, h, row)
  {
    if h in HitsIn(e, rq, sources[0], sources[0].table) {
      k := 0;
      row := HitOfRow(e, rq, sources[0], sources[0].table, h);
    } else {
      k, row := HitHasRow(e, rq, sources[1..], h);
      k := k + 1;
    }
  }

  lemma {:induction false} WantedIsMatching(e: Engine, rq: Request, sources: seq<Source>, k: nat, row: Row)
    returns (h: Hit)
    requires k < |sources| && row in sources[k].table && Wanted(e, rq, sources[k].table, row)
    ensures h in Matching(e, rq, sources) && IsHitOf(e, rq, sources, k, h, row)
  {
    if k == 0 {
      h := RowHasHit(e, rq, sources[0], sources[0].table, row);
    } else {
      h := WantedIsMatching(e, rq, sources[1..], k - 1, row);
    }
  }

  // ---- the attached days ----

  lemma {:induction false} AttachedDays(dates: seq<DateName>, days: seq<Day>, broken: set<string>)
    returns (kept: seq<Day>)
    requires dates == Names(days) && Ascending(days)
    ensures AttachedOf(dates, broken) == Names(kept) && Ascending(kept)
    ensures forall d: Day :: d in kept <==> d in days && Name(d) !in broken
  {
    if days == [] {
      kept := [];
    } else {
      var rest := AttachedDays(dates[1..], days[1..], broken);
      assert days == [days[0]] + days[1..];
      if dates[0] in broken {
        kept := rest;
      } else {
        kept := [days[0]] + rest;
        forall i | 0 <= i < |rest| ensures days[0] < rest[i] { FirstIsLeast(days, rest[i]); }
        AscendingCons(days[0], rest);
      }
    }
  }

  lemma FirstIsLeast(days: seq<Day>, d: Day)
    requires Ascending(days) && days != [] && d in days[1..]
    ensures days[0] < d
  {
    var i :| 0 <= i < |days[1..]| && days[1..][i] == d;
    assert days[i + 1] == d;
  }

  /** The attached dates are the names of days in calendar order. */
  lemma DaysAttached(w: World, opts: Options) returns (days: seq<Day>)
    ensures AttachedIn(w, opts) == Names(days) && Ascending(days)
    ensures forall d: Day :: d in days <==>
      d in Latest(ShardDays(Present(w.disk.Keys), opts.start, opts.end), MAX_ATTACHED) && Name(d) !in w.broken
  {
    var all := Latest(ShardDays(Present(w.disk.Keys), opts.start, opts.end), MAX_ATTACHED);
    LatestDates(w.disk.Keys, opts.start, opts.end);
    CapKeepsLatest(Present(w.disk.Keys), opts.start, opts.end);
    days := AttachedDays(DatesOf(w.disk.Keys, opts), all, w.broken);
  }

  /** The days in range that have a file and are later than this one. */
  ghost function LaterDays(w: World, opts: Options, d: Day): set<Day> {
    set m: nat | m < DAYS && d < m && Path(Name(m)) in w.disk && InRange(opts.start, opts.end, m) :: m as Day
  }

  lemma {:induction false} AscendingSet(days: seq<Day>, all: set<Day>)
    requires Ascending(days) && forall d: Day :: d in all <==> d in days
    ensures |all| == |days|
  {
    if days == [] {
      assert all == {};
    } else {
      forall d: Day ensures d in all - {days[0]} <==> d in days[1..] {
        if d in days[1..] { FirstIsLeast(days, d); }
      }
      AscendingSet(days[1..], all - {days[0]});
    }
  }

  /** Of ascending days the last n are those with fewer than n later ones. */
  lemma LatestHasFewLater(all: seq<Day>, n: nat, d: Day, later: set<Day>)
    requires Ascending(all) && d in all && forall m: Day :: m in later <==> m in all && d < m
    ensures d in Latest(all, n) <==> |later| < n
  {
    var i :| 0 <= i < |all| && all[i] == d;
    var rest := all[i + 1..];
    forall m: Day ensures m in later <==> m in rest {
      if m in later {
        var j :| 0 <= j < |all| && all[j] == m;
        assert rest[j - i - 1] == m;
      }
    }
    AscendingSet(rest, later);
    if |all| > n {
      var kept := all[|all| - n..];
      if i >= |all| - n { assert kept[i - (|all| - n)] == d; }
      if j :| 0 <= j < |kept| && kept[j] == d { assert all[|all| - n + j] == all[i]; }
    }
  }

  /** A day is attached exactly if it is in range and has a file that can be attached, and fewer than ten
      later days are in range and have a file. */
  lemma AttachedExactly(w: World, opts: Options, d: Day)
    ensures Name(d) in AttachedIn(w, opts)
       <==> Path(Name(d)) in w.disk && InRange(opts.start, opts.end, d) && Name(d) !in w.broken
            && |LaterDays(w, opts, d)| < 10
  {
    var present := Present(w.disk.Keys);
    var all := ShardDays(present, opts.start, opts.end);
    var days := DaysAttached(w, opts);
    NamedDay(days, d);
    ShardDaysExact(present, opts.start, opts.end, d);
    ShardDaysAscending(present, opts.start, opts.end);
    if d in all {
      forall m: Day ensures m in LaterDays(w, opts, d) <==> m in all && d < m {
        ShardDaysExact(present, opts.start, opts.end, m);
      }
      LatestHasFewLater(all, MAX_ATTACHED, d, LaterDays(w, opts, d));
    }
  }

  lemma NamedDay(days: seq<Day>, d: Day)
    ensures Name(d) in Names(days) <==> d in days
  {
    if Name(d) in Names(days) {
      var i :| 0 <= i < |days| && Names(days)[i] == Name(d);
      NameInjective(d, days[i]);
    }
    if d in days {
      var i :| 0 <= i < |days| && days[i] == d;
      assert Names(days)[i] == Name(d);
    }
  }

  // ---- whole runs ----

  /** The hit is this row, and it is one that is asked for. */
  predicate IsFound(e: Engine, w: World, opts: Options, h: Hit, f: Found) {
    && IsAskedFor(e, w, opts, f) && HitHolds(e, RequestOf(opts), TableAt(w.disk, Name(f.day)), h, f.row)
    && h.shard == Alias(Name(f.day))
  }

  lemma WantedFits(e: Engine, opts: Options, table: Table, row: Row)
    ensures Wanted(e, RequestOf(opts), table, row) <==> Fits(e, opts, table, row)
  {
  }

  lemma SourceOfDay(w: World, opts: Options, days: seq<Day>, k: nat)
    requires AttachedIn(w, opts) == Names(days) && k < |days|
    ensures |SourcesIn(w, opts)| == |days|
    ensures SourcesIn(w, opts)[k].alias == Alias(Name(days[k]))
    ensures SourcesIn(w, opts)[k].table == TableAt(w.disk, Name(days[k]))
  {
    assert AttachedIn(w, opts)[k] == Name(days[k]);
  }

  lemma HitIsFound(e: Engine, w: World, opts: Options, h: Hit) returns (f: Found)
    requires h in Matching(e, RequestOf(opts), SourcesIn(w, opts))
    ensures IsFound(e, w, opts, h, f)
  {
    var days := DaysAttached(w, opts);
    var k, row := HitHasRow(e, RequestOf(opts), SourcesIn(w, opts), h);
    assert |SourcesIn(w, opts)| == |AttachedIn(w, opts)| == |days|;
    SourceOfDay(w, opts, days, k);
    WantedFits(e, opts, TableAt(w.disk, Name(days[k])), row);
    assert Names(days)[k] == Name(days[k]);
    f := Found(days[k], row);
  }

  lemma AskedForIsHit(e: Engine, w: World, opts: Options, f: Found) returns (h: Hit)
    requires IsAskedFor(e, w, opts, f)
    ensures h in Matching(e, RequestOf(opts), SourcesIn(w, opts)) && IsFound(e, w, opts, h, f)
  {
    var days := DaysAttached(w, opts);
    NamedDay(days, f.day);
    var k :| 0 <= k < |days| && days[k] == f.day;
    SourceOfDay(w, opts, days, k);
    WantedFits(e, opts, TableAt(w.disk, Name(f.day)), f.row);
    h := WantedIsMatching(e, RequestOf(opts), SourcesIn(w, opts), k, f.row);
  }

  lemma {:induction false} FindAll(e: Engine, w: World, opts: Options, hits: seq<Hit>) returns (found: seq<Found>)
    requires forall h :: h in hits ==> h in Matching(e, RequestOf(opts), SourcesIn(w, opts))
    ensures |found| == |hits| && forall i :: 0 <= i < |hits| ==> IsFound(e, w, opts, hits[i], found[i])
  {
    if hits == [] {
      found := [];
    } else {
      var first := HitIsFound(e, w, opts, hits[0]);
      var rest := FindAll(e, w, opts, hits[1..]);
      found := [first] + rest;
    }
  }

  lemma FoundInOrder(e: Engine, w: World, opts: Options, h: Hit, f: Found, h': Hit, f': Found)
    requires IsFound(e, w, opts, h, f) && IsFound(e, w, opts, h', f')
    requires Before(opts.query == "", PositionOf(h), PositionOf(h'))
    ensures ComesBefore(e, w, opts, f, f')
  {
    AliasOrder(f.day, f'.day);
    AliasOrder(f'.day, f.day);
  }

  lemma OneFound(e: Engine, w: World, opts: Options, h: Hit, f: Found, g: Found)
    requires IsFound(e, w, opts, h, f) && IsFound(e, w, opts, h, g) && IdsAscend(TableAt(w.disk, Name(f.day)))
    ensures f == g
  {
    AliasOrder(f.day, g.day);
    var table := TableAt(w.disk, Name(f.day));
    var i :| 0 <= i < |table| && table[i] == f.row;
    var j :| 0 <= j < |table| && table[j] == g.row;
  }

  lemma FoundIsShown(e: Engine, w: World, opts: Options, h: Hit, f: Found)
    requires IsFound(e, w, opts, h, f)
    ensures Shows(e, opts, TableAt(w.disk, Name(f.day)), ResultOf(h), f.row)
  {
  }

  lemma AskedForIsFound(e: Engine, w: World, opts: Options, full: seq<Hit>, found: seq<Found>, f: Found)
    requires WellFormed(SourcesIn(w, opts)) && IsAskedFor(e, w, opts, f)
    requires multiset(full) == multiset(Matching(e, RequestOf(opts), SourcesIn(w, opts)))
    requires |found| == |full| && forall i :: 0 <= i < |full| ==> IsFound(e, w, opts, full[i], found[i])
    ensures f in found
  {
    var h := AskedForIsHit(e, w, opts, f);
    assert h in multiset(full);
    var i :| 0 <= i < |full| && full[i] == h;
    IdsOfDay(w, opts, f.day);
    OneFound(e, w, opts, h, f, found[i]);
  }

  lemma IdsOfDay(w: World, opts: Options, d: Day)
    requires WellFormed(SourcesIn(w, opts)) && Name(d) in AttachedIn(w, opts)
    ensures IdsAscend(TableAt(w.disk, Name(d)))
  {
    var days := DaysAttached(w, opts);
    NamedDay(days, d);
    var k :| 0 <= k < |days| && days[k] == d;
    SourceOfDay(w, opts, days, k);
  }

  /** The results of a run: a row for each of them, which it shows; exactly the rows that are asked for;
      in order, so each of them once. */
  ghost predicate Answered(e: Engine, w: World, opts: Options, results: seq<SearchResult>, found: seq<Found>) {
    && |results| == |found|
    && (forall i :: 0 <= i < |found| ==>
          Shows(e, opts, TableAt(w.disk, Name(found[i].day)), results[i], found[i].row))
    && (forall f: Found :: f in found <==> IsAskedFor(e, w, opts, f))
    && (forall i, j :: 0 <= i < j < |found| ==> ComesBefore(e, w, opts, found[i], found[j]))
  }

  lemma FullIsAnswer(e: Engine, w: World, opts: Options) returns (found: seq<Found>)
    requires WellFormed(SourcesIn(w, opts))
    ensures Answered(e, w, opts, Results(Ranked(e, RequestOf(opts), SourcesIn(w, opts))), found)
  {
    var rq, sources := RequestOf(opts), SourcesIn(w, opts);
    var full := Ranked(e, rq, sources);
    RankedSorted(e, rq, sources);
    forall h | h in full ensures h in Matching(e, rq, sources) { assert h in multiset(full); }
    found := FindAll(e, w, opts, full);
    forall i | 0 <= i < |found|
      ensures Shows(e, opts, TableAt(w.disk, Name(found[i].day)), Results(full)[i], found[i].row)
    {
      FoundIsShown(e, w, opts, full[i], found[i]);
    }
    forall f: Found ensures f in found <==> IsAskedFor(e, w, opts, f) {
      if IsAskedFor(e, w, opts, f) { AskedForIsFound(e, w, opts, full, found, f); }
      if i :| 0 <= i < |found| && found[i] == f { assert IsFound(e, w, opts, full[i], f); }
    }
    forall i, j | 0 <= i < j < |found| ensures ComesBefore(e, w, opts, found[i], found[j]) {
      FoundInOrder(e, w, opts, full[i], found[i], full[j], found[j]);
    }
  }

  /** Up to n pages of a run end with one that offers no next, and their results answer the search. */
  ghost predicate ReadsAll(e: Engine, worlds: nat -> World, opts: Options, n: nat, found: seq<Found>) {
    var pages := Follow(Searcher(e, worlds, opts), 0, "", n);
    && pages != [] && pages[|pages| - 1].next == ""
    && Answered(e, worlds(0), opts, AllResults(pages), found)
  }

  lemma PagesAnswer(e: Engine, worlds: nat -> World, opts: Options, n: nat, found: seq<Found>)
    requires StableRun(worlds, opts) && n > |FullResult(e, worlds, opts)|
    requires Answered(e, worlds(0), opts, Results(FullResult(e, worlds, opts)), found)
    ensures ReadsAll(e, worlds, opts, n, found)
  {
    PaginationComplete(e, worlds, opts, n);
  }

  /** A whole run, keyword search or browsing, over a store that does not change, or that grows as
      Paging allows while browsing: read to its end it has shown exactly the rows that were asked for
      when it began, each once, with its own columns, snippet() and bm25(), the best ones first. */
  lemma RunShowsRows(e: Engine, worlds: nat -> World, opts: Options) returns (found: seq<Found>)
    requires StableRun(worlds, opts)
    ensures forall n: nat :: n > |found| ==> ReadsAll(e, worlds, opts, n, found)
  {
    SnapshotFacts(worlds, opts, 0);
    found := FullIsAnswer(e, worlds(0), opts);
    forall n: nat | n > |found| ensures ReadsAll(e, worlds, opts, n, found) {
      PagesAnswer(e, worlds, opts, n, found);
    }
  }
}
