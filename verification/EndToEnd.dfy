/** From a tailer to a browser: what has been accepted by the time the program exits is what
    browsing the store then shows. */
module EndToEnd {
  import opened Text
  import opened Calendar
  import opened Timestamps
  import opened Cursor
  import opened Sql
  import opened Ranking
  import opened Shards
  import opened Ingest
  import opened Search
  import opened Runs
  import opened Paging
  import opened Answers
  import Shutdown
  import Snippet

  function Reverse<T>(s: seq<T>): (r: seq<T>)
    ensures |r| == |s| && forall i :: 0 <= i < |s| ==> r[i] == s[|s| - 1 - i]
  {
    seq(|s|, i requires 0 <= i < |s| => s[|s| - 1 - i])
  }

  // ---- what browsing shows of a row ----

  /** The row passes the level and pod filters. */
  predicate Asked(rq: Request, c: Content) {
    (rq.levels.Some? ==> c.level in rq.levels.value) && (rq.pod != "" ==> c.pod == rq.pod)
  }

  function KeptOf(rq: Request, c: Content): seq<Content> { if Asked(rq, c) then [c] else [] }

  function AskedOf(rq: Request, contents: seq<Content>): seq<Content> {
    if contents == [] then [] else KeptOf(rq, contents[0]) + AskedOf(rq, contents[1..])
  }

  function HitOfContent(c: Content, shard: ShardName, rowid: int64): Hit {
    Hit(c.pod, c.namespace, c.container, c.timestamp, c.level, c.line, Zero(false), shard, rowid)
  }

  /** A row as a browse result: its text escaped for HTML, and no rank. */
  function Shown(c: Content): SearchResult { ResultOf(HitOfContent(c, "", 0)) }

  function ShownAll(contents: seq<Content>): (r: seq<SearchResult>)
    ensures |r| == |contents| && forall i :: 0 <= i < |contents| ==> r[i] == Shown(contents[i])
  {
    seq(|contents|, i requires 0 <= i < |contents| => Shown(contents[i]))
  }

  lemma ShownConcat(a: seq<Content>, b: seq<Content>)
    ensures ShownAll(a + b) == ShownAll(a) + ShownAll(b)
  {
  }

  lemma ResultsConcat(a: seq<Hit>, b: seq<Hit>)
    ensures Results(a + b) == Results(a) + Results(b)
  {
  }

  lemma {:induction false} AskedConcat(rq: Request, a: seq<Content>, b: seq<Content>)
    ensures AskedOf(rq, a + b) == AskedOf(rq, a) + AskedOf(rq, b)
  {
    if a == [] {
      assert a + b == b;
    } else {
      AskedConcat(rq, a[1..], b);
      assert (a + b)[0] == a[0] && (a + b)[1..] == a[1..] + b;
      Shutdown.Assoc(KeptOf(rq, a[0]), AskedOf(rq, a[1..]), AskedOf(rq, b));
    }
  }

  lemma BrowseHit(e: Engine, rq: Request, source: Source, row: Row)
    requires rq.browse
    ensures HitOf(e, rq, source, row)
         == if Asked(rq, ContentOf(row)) then [HitOfContent(ContentOf(row), source.alias, row.rowid)] else []
  {
  }

  lemma OneResult(c: Content, shard: ShardName, rowid: int64)
    ensures Results([HitOfContent(c, shard, rowid)]) == ShownAll([c])
  {
  }

  /** Browsing a shard shows exactly its rows that pass the filters, in their order. */
  lemma {:induction false} ShardShown(e: Engine, rq: Request, source: Source, rows: seq<Row>)
    requires rq.browse
    ensures Results(HitsIn(e, rq, source, rows)) == ShownAll(AskedOf(rq, Contents(rows)))
  {
    if rows != [] {
      var c, rest := ContentOf(rows[0]), rows[1..];
      ShardShown(e, rq, source, rest);
      assert Contents(rows) == [c] + Contents(rest);
      AskedConcat(rq, [c], Contents(rest));
      OneAsked(rq, c);
      BrowseHit(e, rq, source, rows[0]);
      OneResult(c, source.alias, rows[0].rowid);
      ResultsConcat(HitOf(e, rq, source, rows[0]), HitsIn(e, rq, source, rest));
      ShownConcat(AskedOf(rq, [c]), AskedOf(rq, Contents(rest)));
    }
  }

  lemma OneAsked(rq: Request, c: Content)
    ensures AskedOf(rq, [c]) == if Asked(rq, c) then [c] else []
  {
    assert [c][1..] == [];
    assert [c] + [] == [c];
  }

  /** The rows of these dates, oldest first. */
  function Held(disk: Disk, dates: seq<DateName>): seq<Content> {
    if dates == [] then [] else Contents(TableAt(disk, dates[0])) + Held(disk, dates[1..])
  }

  lemma {:induction false} AllShown(e: Engine, rq: Request, disk: Disk, dates: seq<DateName>)
    requires rq.browse
    ensures Results(Matching(e, rq, SourcesOf(disk, dates))) == ShownAll(AskedOf(rq, Held(disk, dates)))
  {
    if dates != [] {
      var sources := SourcesOf(disk, dates);
      var here, more := Contents(TableAt(disk, dates[0])), Held(disk, dates[1..]);
      assert sources[1..] == SourcesOf(disk, dates[1..]);
      AllShown(e, rq, disk, dates[1..]);
      ShardShown(e, rq, sources[0], sources[0].table);
      ResultsConcat(HitsIn(e, rq, sources[0], sources[0].table), Matching(e, rq, sources[1..]));
      AskedConcat(rq, here, more);
      ShownConcat(AskedOf(rq, here), AskedOf(rq, more));
    }
  }

  // ---- newest first ----

  /** Each hit comes before all earlier ones of the list. */
  predicate Ascends(s: seq<Hit>) {
    forall i, j :: 0 <= i < j < |s| ==> Before(true, PositionOf(s[j]), PositionOf(s[i]))
  }

  lemma {:induction false} InsertLast(h: Hit, s: seq<Hit>)
    requires forall i :: 0 <= i < |s| ==> Before(true, PositionOf(s[i]), PositionOf(h))
    ensures Insert(true, h, s) == s + [h]
  {
    if s != [] {
      BeforeTrichotomy(true, PositionOf(s[0]), PositionOf(h));
      InsertLast(h, s[1..]);
      assert s == [s[0]] + s[1..];
    }
  }

  /** Sorting hits that are oldest first puts them the other way round. */
  lemma {:induction false} SortReverses(s: seq<Hit>)
    requires Ascends(s)
    ensures Sort(true, s) == Reverse(s)
  {
    if s != [] {
      SortReverses(s[1..]);
      InsertLast(s[0], Reverse(s[1..]));
      assert Reverse(s) == Reverse(s[1..]) + [s[0]];
    }
  }

  /** All hits are of this shard, with row ids from here on. */
  predicate OfShard(s: seq<Hit>, shard: string, rowid: int) {
    forall i :: 0 <= i < |s| ==> s[i].shard == shard && s[i].rowid >= rowid
  }

  lemma AscendsCons(h: Hit, s: seq<Hit>)
    requires Ascends(s) && OfShard(s, h.shard, h.rowid + 1)
    ensures Ascends([h] + s)
  {
  }

  lemma {:induction false} ShardAscends(e: Engine, rq: Request, source: Source, rows: seq<Row>)
    requires IdsAscend(rows)
    ensures Ascends(HitsIn(e, rq, source, rows))
    ensures rows != [] ==> OfShard(HitsIn(e, rq, source, rows), source.alias, rows[0].rowid)
    ensures rows == [] ==> HitsIn(e, rq, source, rows) == []
  {
    if rows != [] {
      var rest := HitsIn(e, rq, source, rows[1..]);
      ShardAscends(e, rq, source, rows[1..]);
      if |rows| > 1 { assert rows[1..][0] == rows[1] && rows[0].rowid < rows[1].rowid; }
      var head := HitOf(e, rq, source, rows[0]);
      if head != [] { AscendsCons(head[0], rest); } else { assert [] + rest == rest; }
    }
  }

  /** All hits are of later shards. */
  predicate AfterShard(s: seq<Hit>, shard: string) { forall i :: 0 <= i < |s| ==> Less(shard, s[i].shard) }

  lemma AscendsConcat(a: seq<Hit>, b: seq<Hit>, shard: string, rowid: int)
    requires Ascends(a) && Ascends(b) && OfShard(a, shard, rowid) && AfterShard(b, shard)
    ensures Ascends(a + b)
  {
  }

  lemma {:induction false} LaterShards(e: Engine, rq: Request, sources: seq<Source>, shard: string)
    requires forall k :: 0 <= k < |sources| ==> Less(shard, sources[k].alias)
    ensures AfterShard(Matching(e, rq, sources), shard)
  {
    forall i | 0 <= i < |Matching(e, rq, sources)| ensures Less(shard, Matching(e, rq, sources)[i].shard) {
      var k := HitHasSource(e, rq, sources, Matching(e, rq, sources)[i]);
    }
  }

  lemma {:induction false} MatchingAscends(e: Engine, rq: Request, sources: seq<Source>)
    requires WellFormed(sources) && AliasesAscend(sources)
    ensures Ascends(Matching(e, rq, sources))
  {
    if sources != [] {
      var first, rest := sources[0], sources[1..];
      MatchingAscends(e, rq, rest);
      ShardAscends(e, rq, first, first.table);
      LaterShards(e, rq, rest, first.alias);
      var rowid: int := if first.table == [] then 0 else first.table[0].rowid;
      AscendsConcat(HitsIn(e, rq, first, first.table), Matching(e, rq, rest), first.alias, rowid);
    }
  }

  lemma ResultsReverse(s: seq<Hit>)
    ensures Results(Reverse(s)) == Reverse(Results(s))
  {
  }

  /** A whole browse run over a store that does not change shows the rows of the attached days that
      pass the filters, the newest first, each once. */
  lemma BrowseShowsHeld(e: Engine, w: World, worlds: nat -> World, opts: Options, n: nat)
    requires opts.query == "" && (forall i: nat :: worlds(i) == w) && forall d: string :: IdsAscend(TableAt(w.disk, d))
    requires n > |AskedOf(RequestOf(opts), Held(w.disk, AttachedIn(w, opts)))|
    ensures var pages := Follow(Searcher(e, worlds, opts), 0, "", n);
      && pages != [] && pages[|pages| - 1].next == ""
      && AllResults(pages) == Reverse(ShownAll(AskedOf(RequestOf(opts), Held(w.disk, AttachedIn(w, opts)))))
  {
    var rq, sources := RequestOf(opts), SourcesIn(w, opts);
    StableStore(w, worlds, opts);
    SourcesWellFormed(w.disk, w.broken, opts);
    SourcesAscend(w, opts);
    FullIsReversed(e, rq, sources);
    AllShown(e, rq, w.disk, AttachedIn(w, opts));
    assert Results(FullResult(e, worlds, opts)) == Reverse(ShownAll(AskedOf(rq, Held(w.disk, AttachedIn(w, opts)))));
    PaginationComplete(e, worlds, opts, n);
  }

  lemma FullIsReversed(e: Engine, rq: Request, sources: seq<Source>)
    requires rq.browse && WellFormed(sources) && AliasesAscend(sources)
    ensures Results(Ranked(e, rq, sources)) == Reverse(Results(Matching(e, rq, sources)))
  {
    MatchingAscends(e, rq, sources);
    SortReverses(Matching(e, rq, sources));
    ResultsReverse(Matching(e, rq, sources));
  }

  // ---- after the exit ----

  /** What these days held before, and the accepted lines of each of them. */
  function Gained(zone: string, before: Disk, accepted: seq<LogLine>, dates: seq<DateName>): seq<Content> {
    if dates == [] then [] else
    Contents(TableAt(before, dates[0])) + Group(Entries(zone, accepted), dates[0])
    + Gained(zone, before, accepted, dates[1..])
  }

  lemma {:induction false} HeldIsGained(zone: string, before: Disk, after: Disk, accepted: seq<LogLine>,
                                        dates: seq<DateName>)
    requires Shutdown.StoredAll(zone, before, after, accepted)
    ensures Held(after, dates) == Gained(zone, before, accepted, dates)
  {
    if dates != [] {
      assert Shutdown.StoredOn(zone, before, after, accepted, dates[0]);
      HeldIsGained(zone, before, after, accepted, dates[1..]);
    }
  }

  lemma GainedIsShown(size: nat, zone: string, disk: Disk, events: seq<Shutdown.Event>, s: Shutdown.System,
                      e: Engine, broken: set<string>, worlds: nat -> World, opts: Options, n: nat)
    requires size > 0 && forall d: string :: IdsAscend(TableAt(disk, d))
    requires Exec(Shutdown.Step, Shutdown.New(size, zone, disk), events) == Some(s) && s.main.Exited?
    requires Shutdown.AllOk(s.queue.batches)
    requires opts.query == "" && forall i: nat :: worlds(i) == World(s.disk, broken)
    requires n > |Gained(zone, disk, s.queue.accepted, AttachedIn(World(s.disk, broken), opts))|
    ensures var pages := Follow(Searcher(e, worlds, opts), 0, "", n);
      var gained := Gained(zone, disk, s.queue.accepted, AttachedIn(World(s.disk, broken), opts));
      && pages != [] && pages[|pages| - 1].next == ""
      && AllResults(pages) == Reverse(ShownAll(AskedOf(RequestOf(opts), gained)))
  {
    var w := World(s.disk, broken);
    Shutdown.AcceptedMeansStored(size, zone, disk, events, s);
    HeldIsGained(zone, disk, s.disk, s.queue.accepted, AttachedIn(w, opts));
    Shutdown.ExitedIdsAscend(size, zone, disk, events, s);
    AskedShorter(RequestOf(opts), Held(s.disk, AttachedIn(w, opts)));
    BrowseShowsHeld(e, w, worlds, opts, n);
  }

  lemma {:induction false} AskedShorter(rq: Request, contents: seq<Content>)
    ensures |AskedOf(rq, contents)| <= |contents|
  {
    if contents != [] { AskedShorter(rq, contents[1..]); }
  }

  // ---- said of lines ----

  /** Where a row comes from: it was there before the program started, or is a line it accepted. */
  datatype Origin = Earlier(row: Row) | Accepted(line: LogLine)

  function FromRows(table: Table): (r: seq<Origin>)
    ensures |r| == |table| && forall i :: 0 <= i < |table| ==> r[i] == Earlier(table[i])
  {
    seq(|table|, i requires 0 <= i < |table| => Earlier(table[i]))
  }

  function FromLines(lines: seq<LogLine>): (r: seq<Origin>)
    ensures |r| == |lines| && forall i :: 0 <= i < |lines| ==> r[i] == Accepted(lines[i])
  {
    seq(|lines|, i requires 0 <= i < |lines| => Accepted(lines[i]))
  }

  /** Of each of these days what was there before, and then the lines accepted that were written on it,
      in the order of their acceptance. */
  function OriginsOn(before: Disk, accepted: seq<LogLine>, days: seq<Day>): seq<Origin> {
    if days == [] then []
    else FromRows(TableAt(before, Name(days[0]))) + FromLines(OfDay(accepted, days[0]))
         + OriginsOn(before, accepted, days[1..])
  }

  /** The pod and level that are asked for. */
  predicate Passes(opts: Options, o: Origin) {
    var pod := if o.Earlier? then o.row.pod else o.line.pod;
    var level := if o.Earlier? then o.row.level else o.line.level;
    && (opts.pod == "" || pod == opts.pod)
    && (LevelsAtOrAbove(opts.minLevel).None? || level in LevelsAtOrAbove(opts.minLevel).value)
  }

  function Passing(opts: Options, origins: seq<Origin>): seq<Origin> {
    if origins == [] then []
    else (if Passes(opts, origins[0]) then [origins[0]] else []) + Passing(opts, origins[1..])
  }

  /** The result has the row's or the line's own columns; of a line's text nothing is lost, and its time
      can be read back. */
  predicate ShownFrom(zone: string, r: SearchResult, o: Origin) {
    match o
    case Earlier(row) =>
      && r.pod == row.pod && r.namespace == row.namespace && r.container == row.container
      && r.timestamp == row.timestamp && r.level == row.level && Snippet.Unrender(r.snippet) == row.line
    case Accepted(l) =>
      && r.pod == l.pod && r.namespace == l.namespace && r.container == l.container
      && ParseStamp(zone, r.timestamp) == Some(l.timestamp) && r.level == l.level
      && Snippet.Unrender(r.snippet) == l.content
  }

  predicate IsContentOf(stored: LogLine -> Content, c: Content, o: Origin) {
    match o
    case Earlier(row) => c == ContentOf(row)
    case Accepted(l) => c == stored(l)
  }

  predicate Correspond(stored: LogLine -> Content, contents: seq<Content>, origins: seq<Origin>) {
    |contents| == |origins| && forall i :: 0 <= i < |contents| ==> IsContentOf(stored, contents[i], origins[i])
  }

  lemma CorrespondConcat(stored: LogLine -> Content, a: seq<Content>, b: seq<Content>, x: seq<Origin>, y: seq<Origin>)
    requires Correspond(stored, a, x) && Correspond(stored, b, y)
    ensures Correspond(stored, a + b, x + y)
  {
  }

  lemma {:induction false} GainedCorresponds(zone: string, before: Disk, accepted: seq<LogLine>, days: seq<Day>)
    ensures Correspond(StoredIn(zone), Gained(zone, before, accepted, Names(days)), OriginsOn(before, accepted, days))
  {
    if days != [] {
      var stored, date, rest := StoredIn(zone), Name(days[0]), Names(days[1..]);
      var olds, news := Contents(TableAt(before, date)), Group(Entries(zone, accepted), date);
      GainedCorresponds(zone, before, accepted, days[1..]);
      GroupOfDay(zone, accepted, days[0]);
      LinesCorrespond(stored, news, OfDay(accepted, days[0]));
      RowsCorrespond(stored, TableAt(before, date));
      CorrespondConcat(stored, olds, news, FromRows(TableAt(before, date)), FromLines(OfDay(accepted, days[0])));
      CorrespondConcat(stored, olds + news, Gained(zone, before, accepted, rest),
                       FromRows(TableAt(before, date)) + FromLines(OfDay(accepted, days[0])),
                       OriginsOn(before, accepted, days[1..]));
      assert Names(days)[1..] == rest;
    }
  }

  lemma RowsCorrespond(stored: LogLine -> Content, table: Table)
    ensures Correspond(stored, Contents(table), FromRows(table))
  {
  }

  lemma LinesCorrespond(stored: LogLine -> Content, contents: seq<Content>, lines: seq<LogLine>)
    requires StoredOf(stored, contents, lines)
    ensures Correspond(stored, contents, FromLines(lines))
  {
  }

  /** What is stored keeps the pod and the level. */
  ghost predicate KeepsFilters(stored: LogLine -> Content) {
    forall l: LogLine :: stored(l).pod == l.pod && stored(l).level == l.level
  }

  lemma {:induction false} AskedCorresponds(stored: LogLine -> Content, opts: Options, contents: seq<Content>,
                                            origins: seq<Origin>)
    requires KeepsFilters(stored) && Correspond(stored, contents, origins)
    ensures Correspond(stored, AskedOf(RequestOf(opts), contents), Passing(opts, origins))
  {
    if contents != [] {
      AskedCorresponds(stored, opts, contents[1..], origins[1..]);
      assert IsContentOf(stored, contents[0], origins[0]);
      assert Asked(RequestOf(opts), contents[0]) <==> Passes(opts, origins[0]);
      CorrespondConcat(stored, KeptOf(RequestOf(opts), contents[0]), AskedOf(RequestOf(opts), contents[1..]),
                       if Passes(opts, origins[0]) then [origins[0]] else [], Passing(opts, origins[1..]));
    }
  }

  lemma ShownIsFrom(zone: string, c: Content, o: Origin)
    requires IsContentOf(StoredIn(zone), c, o)
    ensures ShownFrom(zone, Shown(c), o)
  {
    Snippet.SnippetRoundTrip(c.line);
    if o.Accepted? { StampRoundTrip(zone, o.line.timestamp); }
  }

  /** The results show these in the opposite order. */
  predicate ShowsReversed(zone: string, results: seq<SearchResult>, origins: seq<Origin>) {
    && |results| == |origins|
    && forall i :: 0 <= i < |results| ==> ShownFrom(zone, results[i], origins[|origins| - 1 - i])
  }

  lemma ReversedIsShown(zone: string, contents: seq<Content>, origins: seq<Origin>)
    requires Correspond(StoredIn(zone), contents, origins)
    ensures ShowsReversed(zone, Reverse(ShownAll(contents)), origins)
  {
    var results := Reverse(ShownAll(contents));
    forall i | 0 <= i < |results| ensures ShownFrom(zone, results[i], origins[|origins| - 1 - i]) {
      ShownIsFrom(zone, contents[|contents| - 1 - i], origins[|origins| - 1 - i]);
    }
  }

  /** When the program has exited and every insert has succeeded, browsing the store shows, newest first
      and each once, what the attached days held before and every line accepted that was written on
      them, as far as they pass the filters. */
  lemma AcceptedLinesAreShown(size: nat, zone: string, disk: Disk, events: seq<Shutdown.Event>, s: Shutdown.System,
                              e: Engine, broken: set<string>, worlds: nat -> World, opts: Options, n: nat)
    returns (days: seq<Day>)
    requires size > 0 && forall d: string :: IdsAscend(TableAt(disk, d))
    requires Exec(Shutdown.Step, Shutdown.New(size, zone, disk), events) == Some(s) && s.main.Exited?
    requires Shutdown.AllOk(s.queue.batches)
    requires opts.query == "" && forall i: nat :: worlds(i) == World(s.disk, broken)
    ensures Ascending(days) && AttachedIn(World(s.disk, broken), opts) == Names(days)
    ensures n > |OriginsOn(disk, s.queue.accepted, days)| ==>
      var pages := Follow(Searcher(e, worlds, opts), 0, "", n);
      && pages != [] && pages[|pages| - 1].next == ""
      && ShowsReversed(zone, AllResults(pages), Passing(opts, OriginsOn(disk, s.queue.accepted, days)))
  {
    days := DaysAttached(World(s.disk, broken), opts);
    var gained, origins := Gained(zone, disk, s.queue.accepted, Names(days)), OriginsOn(disk, s.queue.accepted, days);
    GainedCorresponds(zone, disk, s.queue.accepted, days);
    FiltersKept(zone);
    AskedCorresponds(StoredIn(zone), opts, gained, origins);
    ReversedIsShown(zone, AskedOf(RequestOf(opts), gained), Passing(opts, origins));
    if n > |origins| { GainedIsShown(size, zone, disk, events, s, e, broken, worlds, opts, n); }
  }

  lemma FiltersKept(zone: string)
    ensures KeepsFilters(StoredIn(zone))
  {
  }
}
