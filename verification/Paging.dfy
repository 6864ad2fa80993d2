/** Whole pagination runs: a client that follows `next` from the first page on sees every
    wanted row exactly once, in order, also while lines are being appended. */
module Paging {
  import opened Text
  import opened Calendar
  import opened Cursor
  import opened Sql
  import opened Ranking
  import opened Shards
  import opened Search
  import Ingest
  import Store

  // ---- following a cursor, whatever serves the pages ----

  /** A result together with the cursor text that continues after it. */
  datatype Item = Item(result: SearchResult, cursor: string)

  function ResultsOf(items: seq<Item>): (r: seq<SearchResult>)
    ensures |r| == |items| && forall i :: 0 <= i < |items| ==> r[i] == items[i].result
  {
    seq(|items|, i requires 0 <= i < |items| => items[i].result)
  }

  function ItemPage(items: seq<Item>, limit: nat): Page
    requires limit >= 1
  {
    Page(ResultsOf(Take(items, limit)), if |items| > limit then items[limit - 1].cursor else "")
  }

  /** Answers the i-th request of a run, given the cursor it was sent. */
  type Server = (nat, string) -> Result<Page>

  /** At most n pages from the i-th request on, ending at a page that offers no next one. */
  function Follow(serve: Server, i: nat, cursor: string, n: nat): seq<Page>
    decreases n
  {
    if n == 0 then [] else
    match serve(i, cursor)
    case Err(_) => []
    case Ok(page) => [page] + (if page.next == "" then [] else Follow(serve, i + 1, page.next, n - 1))
  }

  function AllResults(pages: seq<Page>): seq<SearchResult> {
    if pages == [] then [] else pages[0].results + AllResults(pages[1..])
  }

  /** A list as its pages: after each number of items, the page, the cursor and the results that
      come next; step is the number of items on a full page. */
  datatype Listing = Listing(total: nat, step: nat, page: nat -> Page, cursor: nat -> string,
                             rest: nat -> seq<SearchResult>)

  /** The page after k items offers the cursor after itself, if there is more. */
  predicate Linked(l: Listing, k: nat) {
    && l.page(k).next == (if k + l.step < l.total then l.cursor(k + l.step) else "")
    && (k + l.step < l.total ==> l.cursor(k + l.step) != "")
    && l.rest(k) == l.page(k).results + (if k + l.step < l.total then l.rest(k + l.step) else [])
  }

  /** The i-th request of a run, after k items, gets the next page of the list. */
  predicate ServesAt(serve: Server, l: Listing, i: nat, k: nat) { serve(i, l.cursor(k)) == Ok(l.page(k)) }

  /** Every request of a run is answered from the same list, right after the cursor. */
  ghost predicate Serves(serve: Server, l: Listing) {
    && l.step >= 1
    && (forall k: nat :: k <= l.total ==> Linked(l, k))
    && (forall i: nat, k: nat :: k <= l.total && (k == 0 ==> i == 0) ==> ServesAt(serve, l, i, k))
  }

  lemma FollowStep(serve: Server, i: nat, cursor: string, n: nat, page: Page)
    requires n > 0 && serve(i, cursor) == Ok(page)
    ensures Follow(serve, i, cursor, n)
         == [page] + (if page.next == "" then [] else Follow(serve, i + 1, page.next, n - 1))
  {
  }

  /** Pages read of what is left: a prefix of its results, and all of them once n exceeds the
      number of items left. */
  ghost predicate RunReads(pages: seq<Page>, rest: seq<SearchResult>, left: int, n: nat) {
    && AllResults(pages) <= rest
    && (n > left ==> pages != [] && pages[|pages| - 1].next == "" && AllResults(pages) == rest)
  }

  lemma PageThenRest(page: Page, pages: seq<Page>, rest: seq<SearchResult>, left: int, left': int, n: nat)
    requires n > 0 && left' < left && RunReads(pages, rest, left', n - 1)
    ensures RunReads([page] + pages, page.results + rest, left, n)
  {
    assert ([page] + pages)[1..] == pages;
  }

  lemma OnlyPage(page: Page, left: int, n: nat)
    requires page.next == ""
    ensures RunReads([page] + [], page.results + [], left, n)
  {
    assert ([page] + [])[1..] == [];
  }

  lemma FollowMore(serve: Server, l: Listing, i: nat, k: nat, n: nat, next: nat)
    requires n > 0 && ServesAt(serve, l, i, k) && Linked(l, k) && next == k + l.step && k < next < l.total
    requires RunReads(Follow(serve, i + 1, l.cursor(next), n - 1), l.rest(next), l.total - next, n - 1)
    ensures RunReads(Follow(serve, i, l.cursor(k), n), l.rest(k), l.total - k, n)
  {
    FollowStep(serve, i, l.cursor(k), n, l.page(k));
    PageThenRest(l.page(k), Follow(serve, i + 1, l.cursor(next), n - 1), l.rest(next), l.total - k, l.total - next, n);
  }

  lemma FollowLast(serve: Server, l: Listing, i: nat, k: nat, n: nat)
    requires n > 0 && ServesAt(serve, l, i, k) && Linked(l, k) && k + l.step >= l.total
    ensures RunReads(Follow(serve, i, l.cursor(k), n), l.rest(k), l.total - k, n)
  {
    FollowStep(serve, i, l.cursor(k), n, l.page(k));
    OnlyPage(l.page(k), l.total - k, n);
  }

  /** From the request after k items on: however many pages are read, their results are the
      list's next ones in order; reading more pages than items are left reads all of them and
      ends at a page that offers no next one. */
  lemma {:induction false} FollowAll(serve: Server, l: Listing, i: nat, k: nat, n: nat)
    requires Serves(serve, l) && k <= l.total && (k == 0 ==> i == 0)
    ensures RunReads(Follow(serve, i, l.cursor(k), n), l.rest(k), l.total - k, n)
    decreases n
  {
    if n > 0 {
      assert ServesAt(serve, l, i, k) && Linked(l, k);
      if k + l.step < l.total {
        FollowAll(serve, l, i + 1, k + l.step, n - 1);
        FollowMore(serve, l, i, k, n, k + l.step);
      } else {
        FollowLast(serve, l, i, k, n);
      }
    }
  }

  function ListingOf(items: seq<Item>, limit: nat): Listing
    requires limit >= 1
  {
    Listing(|items|, limit,
            (k: nat) => if k <= |items| then ItemPage(items[k..], limit) else Page([], ""),
            (k: nat) => if 0 < k <= |items| then items[k - 1].cursor else "",
            (k: nat) => if k <= |items| then ResultsOf(items[k..]) else [])
  }

  predicate ListsAt(l: Listing, items: seq<Item>, k: nat)
    requires l.step >= 1 && k <= |items|
  {
    && l.page(k) == ItemPage(items[k..], l.step) && l.rest(k) == ResultsOf(items[k..])
    && (k > 0 ==> l.cursor(k) == items[k - 1].cursor)
  }

  ghost predicate Lists(l: Listing, items: seq<Item>) {
    l.step >= 1 && l.total == |items| && forall k: nat :: k <= |items| ==> ListsAt(l, items, k)
  }

  lemma ListingOfLists(items: seq<Item>, limit: nat)
    requires limit >= 1
    ensures Lists(ListingOf(items, limit), items)
  {
  }

  lemma PageOfRest(left: seq<Item>, limit: nat)
    requires limit >= 1
    ensures ResultsOf(left) == ItemPage(left, limit).results + (if |left| > limit then ResultsOf(left[limit..]) else [])
  {
  }

  lemma RestOfRest(items: seq<Item>, limit: nat, k: nat)
    requires 1 <= limit && k + limit < |items|
    ensures items[k..][limit..] == items[k + limit..] && items[k..][limit - 1] == items[k + limit - 1]
  {
  }

  lemma Link(l: Listing, left: seq<Item>, k: nat)
    requires l.step >= 1 && k + |left| == l.total
    requires l.page(k) == ItemPage(left, l.step) && l.rest(k) == ResultsOf(left)
    requires |left| > l.step ==> l.cursor(k + l.step) == left[l.step - 1].cursor != ""
    requires |left| > l.step ==> l.rest(k + l.step) == ResultsOf(left[l.step..])
    ensures Linked(l, k)
  {
    PageOfRest(left, l.step);
  }

  /** The pages of a list of items hang together. */
  lemma ItemsLinked(items: seq<Item>, k: nat, l: Listing)
    requires Lists(l, items) && k <= |items|
    requires k + l.step < |items| ==> items[k + l.step - 1].cursor != ""
    ensures Linked(l, k)
  {
    assert ListsAt(l, items, k);
    if k + l.step < |items| {
      assert ListsAt(l, items, k + l.step);
      RestOfRest(items, l.step, k);
    }
    Link(l, items[k..], k);
  }

  // ---- the search as a server ----

  /** What one search sees: the files, and those of them that fail to ATTACH. */
  datatype World = World(disk: Disk, broken: set<string>)

  function SourcesIn(w: World, opts: Options): seq<Source> { Sources(w.disk, w.broken, opts) }

  /** Searches with these options; the i-th request finds the store as worlds(i). */
  function Searcher(e: Engine, worlds: nat -> World, opts: Options): Server {
    (i: nat, cursor: string) => Searched(e, worlds(i).disk, worlds(i).broken, opts.(cursor := cursor))
  }

  function Items(browse: bool, hits: seq<Hit>): (items: seq<Item>)
    ensures |items| == |hits|
    ensures forall i :: 0 <= i < |hits| ==> items[i] == Item(ResultOf(hits[i]), EncodeCursor(CursorAt(browse, hits[i])))
  {
    seq(|hits|, i requires 0 <= i < |hits| => Item(ResultOf(hits[i]), EncodeCursor(CursorAt(browse, hits[i]))))
  }

  lemma PageOfItems(browse: bool, hits: seq<Hit>, limit: nat)
    requires limit >= 1
    ensures PageOf(browse, hits, limit) == ItemPage(Items(browse, hits), limit)
    ensures ResultsOf(Items(browse, hits)) == Results(hits)
  {
    var items := Items(browse, hits);
    SameResults(browse, hits, items);
    SameResults(browse, Take(hits, limit), Take(items, limit));
  }

  lemma SameResults(browse: bool, hits: seq<Hit>, items: seq<Item>)
    requires |items| == |hits| && forall i :: 0 <= i < |hits| ==> items[i].result == ResultOf(hits[i])
    ensures ResultsOf(items) == Results(hits)
  {
  }

  /** The shards a later page sees: the same ones with the same rows, except that a browse run
      tolerates rows appended to the newest shard. */
  predicate Grown(browse: bool, a: seq<Source>, b: seq<Source>) {
    |a| == |b| && forall i :: 0 <= i < |a| ==> GrownAt(browse, a, b, i)
  }

  predicate GrownAt(browse: bool, a: seq<Source>, b: seq<Source>, i: nat)
    requires i < |a| == |b|
  {
    && a[i].alias == b[i].alias
    && (a[i].table == b[i].table || (browse && i == |a| - 1 && a[i].table <= b[i].table))
  }

  predicate AliasesAscend(sources: seq<Source>) {
    forall i, j :: 0 <= i < j < |sources| ==> Less(sources[i].alias, sources[j].alias)
  }

  // ---- appended rows are out of sight ----

  lemma Assoc(a: seq<Hit>, b: seq<Hit>, c: seq<Hit>)
    ensures a + (b + c) == a + b + c && [] + a == a
  {
  }

  lemma {:induction false} HitsInConcat(e: Engine, rq: Request, source: Source, r: seq<Row>, s: seq<Row>)
    ensures HitsIn(e, rq, source, r + s) == HitsIn(e, rq, source, r) + HitsIn(e, rq, source, s)
  {
    if r == [] {
      assert r + s == s;
      Assoc(HitsIn(e, rq, source, s), [], []);
    } else {
      HitsInConcat(e, rq, source, r[1..], s);
      assert (r + s)[1..] == r[1..] + s;
      Assoc(HitOf(e, rq, source, r[0]), HitsIn(e, rq, source, r[1..]), HitsIn(e, rq, source, s));
    }
  }

  /** Browsing looks at one row at a time. */
  lemma {:induction false} BrowseIsRowwise(e: Engine, rq: Request, a: Source, b: Source, rows: seq<Row>)
    requires rq.browse && a.alias == b.alias
    ensures HitsIn(e, rq, a, rows) == HitsIn(e, rq, b, rows)
  {
    if rows != [] { BrowseIsRowwise(e, rq, a, b, rows[1..]); }
  }

  lemma {:induction false} AfterConcat(browse: bool, s: seq<Hit>, t: seq<Hit>, c: Position)
    ensures After(browse, s + t, c) == After(browse, s, c) + After(browse, t, c)
  {
    if s == [] {
      assert s + t == t;
    } else {
      AfterConcat(browse, s[1..], t, c);
      AfterConsConcat(browse, s[0], s[1..], t, c);
      assert s + t == [s[0]] + (s[1..] + t) && s == [s[0]] + s[1..];
    }
  }

  lemma AfterConsConcat(browse: bool, h: Hit, s: seq<Hit>, t: seq<Hit>, c: Position)
    requires After(browse, s + t, c) == After(browse, s, c) + After(browse, t, c)
    ensures After(browse, [h] + (s + t), c) == After(browse, [h] + s, c) + After(browse, t, c)
  {
    AfterCons(browse, h, s, c);
    AfterCons(browse, h, s + t, c);
  }

  /** Newer rows than the cursor's, in the newest shard, are not beyond it. */
  lemma {:induction false} NewerRowsNotAfter(e: Engine, rq: Request, source: Source, rows: seq<Row>, c: Position)
    requires rq.browse && !Less(source.alias, c.shard)
    requires c.shard == source.alias ==> forall i :: 0 <= i < |rows| ==> c.rowid < rows[i].rowid
    ensures After(true, HitsIn(e, rq, source, rows), c) == []
  {
    if rows != [] {
      var rest := HitsIn(e, rq, source, rows[1..]);
      NewerRowsNotAfter(e, rq, source, rows[1..], c);
      assert [] + rest == rest;
      AfterCons(true, Project(e, source.table, rows[0], source.alias, true, rq.text), rest, c);
    }
  }

  /** The cursor's place is that of a row the snapshot had, or before its newest shard. */
  predicate FromSnapshot(sources: seq<Source>, c: Position) {
    sources != [] ==>
      var newest := sources[|sources| - 1];
      !Less(newest.alias, c.shard) &&
      (c.shard == newest.alias ==> exists r :: r in newest.table && r.rowid == c.rowid)
  }

  /** A row of the snapshot has a smaller id than every row added to its table. */
  lemma AddedIdsLarger(known: seq<Row>, extra: seq<Row>, id: int)
    requires IdsAscend(known + extra) && exists r :: r in known && r.rowid == id
    ensures forall j :: 0 <= j < |extra| ==> id < extra[j].rowid
  {
    var r :| r in known && r.rowid == id;
    var i :| 0 <= i < |known| && known[i] == r;
    forall j | 0 <= j < |extra| ensures id < extra[j].rowid {
      assert (known + extra)[i] == r && (known + extra)[|known| + j] == extra[j];
    }
  }

  lemma AddedNotAfter(e: Engine, rq: Request, a: Source, b: Source, extra: seq<Row>, c: Position)
    requires rq.browse && a.alias == b.alias && IdsAscend(a.table + extra) && FromSnapshot([a], c)
    ensures After(true, HitsIn(e, rq, b, extra), c) == []
  {
    if c.shard == b.alias { AddedIdsLarger(a.table, extra, c.rowid); }
    NewerRowsNotAfter(e, rq, b, extra, c);
  }

  lemma SourceGrowthNotAfter(e: Engine, rq: Request, a: Source, b: Source, c: Position)
    requires rq.browse && a.alias == b.alias && a.table <= b.table && IdsAscend(b.table)
    requires FromSnapshot([a], c)
    ensures After(true, HitsIn(e, rq, b, b.table), c) == After(true, HitsIn(e, rq, a, a.table), c)
  {
    var known, extra := a.table, b.table[|a.table|..];
    assert b.table == known + extra;
    AddedNotAfter(e, rq, a, b, extra, c);
    HitsInConcat(e, rq, b, known, extra);
    BrowseIsRowwise(e, rq, a, b, known);
    AfterConcat(true, HitsIn(e, rq, b, known), HitsIn(e, rq, b, extra), c);
  }

  lemma GrownTail(browse: bool, a: seq<Source>, b: seq<Source>)
    requires Grown(browse, a, b) && a != []
    ensures GrownAt(browse, a, b, 0) && Grown(browse, a[1..], b[1..])
  {
    forall i | 0 <= i < |a| - 1 ensures GrownAt(browse, a[1..], b[1..], i) { assert GrownAt(browse, a, b, i + 1); }
  }

  /** Rows that have been appended to the newest shard lie behind the cursor, not beyond it. */
  lemma {:induction false} GrowthNotAfter(e: Engine, rq: Request, a: seq<Source>, b: seq<Source>, c: Position)
    requires Grown(rq.browse, a, b) && WellFormed(b) && FromSnapshot(a, c)
    ensures After(rq.browse, Matching(e, rq, b), c) == After(rq.browse, Matching(e, rq, a), c)
  {
    if a != [] {
      AfterConcat(rq.browse, HitsIn(e, rq, a[0], a[0].table), Matching(e, rq, a[1..]), c);
      AfterConcat(rq.browse, HitsIn(e, rq, b[0], b[0].table), Matching(e, rq, b[1..]), c);
      GrownTail(rq.browse, a, b);
      assert WellFormed(b[1..]);
      GrowthNotAfter(e, rq, a[1..], b[1..], c);
      if a[0].table == b[0].table {
        assert a[0] == b[0];
      } else {
        SourceGrowthNotAfter(e, rq, a[0], b[0], c);
      }
    }
  }

  lemma {:induction false} HitHasRow(e: Engine, rq: Request, source: Source, rows: seq<Row>, h: Hit)
    requires h in HitsIn(e, rq, source, rows)
    ensures h.shard == source.alias && exists r :: r in rows && r.rowid == h.rowid
  {
    if h in HitsIn(e, rq, source, rows[1..]) {
      HitHasRow(e, rq, source, rows[1..], h);
    } else {
      assert rows[0] in rows;
    }
  }

  lemma {:induction false} HitHasSource(e: Engine, rq: Request, sources: seq<Source>, h: Hit) returns (k: nat)
    requires h in Matching(e, rq, sources)
    ensures k < |sources| && h.shard == sources[k].alias && exists r :: r in sources[k].table && r.rowid == h.rowid
  {
    if h in HitsIn(e, rq, sources[0], sources[0].table) {
      k := 0;
      HitHasRow(e, rq, sources[0], sources[0].table, h);
    } else {
      var j := HitHasSource(e, rq, sources[1..], h);
      k := j + 1;
      assert sources[1..][j] == sources[k];
    }
  }

  lemma HitFromSnapshot(e: Engine, rq: Request, sources: seq<Source>, h: Hit)
    requires AliasesAscend(sources) && h in Matching(e, rq, sources)
    ensures FromSnapshot(sources, PositionOf(h))
  {
    var k := HitHasSource(e, rq, sources, h);
    var newest := sources[|sources| - 1];
    LessTrichotomy(newest.alias, h.shard);
    LessTrichotomy(h.shard, h.shard);
    if k < |sources| - 1 { assert Less(sources[k].alias, newest.alias); }
  }

  // ---- one page ----

  /** With the cursor of the snapshot's k-th hit, a later search finds exactly the snapshot's
      hits after the k-th. */
  lemma NextFromCursor(e: Engine, rq: Request, a: seq<Source>, b: seq<Source>, k: nat)
    requires Grown(rq.browse, a, b) && WellFormed(a) && WellFormed(b) && AliasesAscend(a)
    requires k < |Ranked(e, rq, a)|
    ensures Beyond(rq.browse, Ranked(e, rq, b), Some(CursorAt(rq.browse, Ranked(e, rq, a)[k])))
         == Ranked(e, rq, a)[k + 1..]
  {
    var full := Ranked(e, rq, a);
    var c := PositionOf(full[k]);
    RankedSorted(e, rq, a);
    assert full[k] in multiset(full);
    HitFromSnapshot(e, rq, a, full[k]);
    GrowthNotAfter(e, rq, a, b, c);
    MatchingDistinct(e, rq, a);
    MatchingDistinct(e, rq, b);
    BeyondIsFilter(rq.browse, Matching(e, rq, a), c);
    BeyondIsFilter(rq.browse, Matching(e, rq, b), c);
    DropThroughOwn(rq.browse, full, k);
  }

  lemma ReadBack(browse: bool, h: Hit)
    ensures EncodeCursor(CursorAt(browse, h)) != ""
    ensures CursorOf(EncodeCursor(CursorAt(browse, h))) == Ok(Some(CursorAt(browse, h)))
  {
    CursorRoundTrip(CursorAt(browse, h));
  }

  lemma NoDatesNoSources(w: World, opts: Options)
    requires DatesOf(w.disk.Keys, opts) == []
    ensures SourcesIn(w, opts) == []
  {
  }

  lemma FirstPage(e: Engine, w: World, opts: Options)
    ensures Searched(e, w.disk, w.broken, opts.(cursor := ""))
         == Ok(PageOf(opts.query == "", Ranked(e, RequestOf(opts), SourcesIn(w, opts)), PageLimit(opts.limit)))
  {
    var first := opts.(cursor := "");
    assert RequestOf(first) == RequestOf(opts) && DatesOf(w.disk.Keys, first) == DatesOf(w.disk.Keys, opts);
    if DatesOf(w.disk.Keys, opts) == [] {
      NoDatesNoSources(w, opts);
    }
  }

  lemma SearchedNext(e: Engine, w: World, opts: Options, next: Options, c: Cursor)
    requires next == opts.(cursor := next.cursor) && CursorOf(next.cursor) == Ok(Some(c)) && SourcesIn(w, opts) != []
    ensures Searched(e, w.disk, w.broken, next)
         == Ok(PageOf(opts.query == "",
                      Beyond(opts.query == "", Ranked(e, RequestOf(opts), SourcesIn(w, opts)), Some(c)),
                      PageLimit(opts.limit)))
  {
    assert RequestOf(next) == RequestOf(opts) && DatesOf(w.disk.Keys, next) == DatesOf(w.disk.Keys, opts);
    if DatesOf(w.disk.Keys, opts) == [] { NoDatesNoSources(w, opts); }
  }

  lemma SomeSources(e: Engine, rq: Request, a: seq<Source>)
    requires Ranked(e, rq, a) != []
    ensures a != []
  {
  }

  lemma BeyondLast(e: Engine, rq: Request, a: seq<Source>, b: seq<Source>, full: seq<Hit>, k: nat)
    requires full == Ranked(e, rq, a) && 0 < k <= |full|
    requires Grown(rq.browse, a, b) && WellFormed(a) && WellFormed(b) && AliasesAscend(a)
    ensures b != [] && Beyond(rq.browse, Ranked(e, rq, b), Some(CursorAt(rq.browse, full[k - 1]))) == full[k..]
  {
    NextFromCursor(e, rq, a, b, k - 1);
    SomeSources(e, rq, a);
  }

  lemma LaterPage(e: Engine, w: World, opts: Options, next: Options, c: Cursor, beyond: seq<Hit>)
    requires SourcesIn(w, opts) != [] && next == opts.(cursor := next.cursor) && CursorOf(next.cursor) == Ok(Some(c))
    requires Beyond(opts.query == "", Ranked(e, RequestOf(opts), SourcesIn(w, opts)), Some(c)) == beyond
    ensures Searched(e, w.disk, w.broken, next) == Ok(PageOf(opts.query == "", beyond, PageLimit(opts.limit)))
  {
    SearchedNext(e, w, opts, next, c);
  }

  // ---- whole runs ----

  ghost predicate StableRun(worlds: nat -> World, opts: Options) {
    && AliasesAscend(SourcesIn(worlds(0), opts))
    && forall i: nat :: SameSearch(worlds(0), worlds(i), opts)
  }

  ghost predicate SameSearch(first: World, later: World, opts: Options) {
    WellFormed(SourcesIn(later, opts)) && Grown(opts.query == "", SourcesIn(first, opts), SourcesIn(later, opts))
  }

  function FullResult(e: Engine, worlds: nat -> World, opts: Options): seq<Hit> {
    Ranked(e, RequestOf(opts), SourcesIn(worlds(0), opts))
  }

  lemma ItemsFrom(browse: bool, hits: seq<Hit>, k: nat)
    requires k <= |hits|
    ensures Items(browse, hits[k..]) == Items(browse, hits)[k..]
  {
  }

  /** The i-th search of a run, after k hits, gives the next page of the snapshot. */
  lemma OnePage(e: Engine, worlds: nat -> World, opts: Options, i: nat, k: nat)
    requires StableRun(worlds, opts) && (k == 0 ==> i == 0) && k <= |FullResult(e, worlds, opts)|
    ensures var items := Items(opts.query == "", FullResult(e, worlds, opts));
      ServesAt(Searcher(e, worlds, opts), ListingOf(items, PageLimit(opts.limit)), i, k)
  {
    if k == 0 { OnePageFirst(e, worlds, opts); } else { OnePageLater(e, worlds, opts, i, k); }
  }

  lemma OnePageFirst(e: Engine, worlds: nat -> World, opts: Options)
    ensures var items := Items(opts.query == "", FullResult(e, worlds, opts));
      ServesAt(Searcher(e, worlds, opts), ListingOf(items, PageLimit(opts.limit)), 0, 0)
  {
    var browse, full := opts.query == "", FullResult(e, worlds, opts);
    FirstPage(e, worlds(0), opts);
    PageOfItems(browse, full, PageLimit(opts.limit));
    assert Items(browse, full)[0..] == Items(browse, full);
  }

  lemma SnapshotFacts(worlds: nat -> World, opts: Options, i: nat)
    requires StableRun(worlds, opts)
    ensures WellFormed(SourcesIn(worlds(0), opts)) && WellFormed(SourcesIn(worlds(i), opts))
    ensures Grown(opts.query == "", SourcesIn(worlds(0), opts), SourcesIn(worlds(i), opts))
  {
    assert SameSearch(worlds(0), worlds(0), opts) && SameSearch(worlds(0), worlds(i), opts);
  }

  lemma SearcherAt(e: Engine, worlds: nat -> World, opts: Options, i: nat, next: Options)
    requires next == opts.(cursor := next.cursor)
    ensures Searcher(e, worlds, opts)(i, next.cursor) == Searched(e, worlds(i).disk, worlds(i).broken, next)
  {
  }

  lemma LaterServed(e: Engine, worlds: nat -> World, opts: Options, i: nat, k: nat, text: string)
    requires StableRun(worlds, opts) && 0 < k <= |FullResult(e, worlds, opts)|
    requires text == EncodeCursor(CursorAt(opts.query == "", FullResult(e, worlds, opts)[k - 1]))
    ensures Searcher(e, worlds, opts)(i, text)
         == Ok(PageOf(opts.query == "", FullResult(e, worlds, opts)[k..], PageLimit(opts.limit)))
  {
    var browse, full := opts.query == "", FullResult(e, worlds, opts);
    SnapshotFacts(worlds, opts, i);
    BeyondLast(e, RequestOf(opts), SourcesIn(worlds(0), opts), SourcesIn(worlds(i), opts), full, k);
    ReadBack(browse, full[k - 1]);
    LaterPage(e, worlds(i), opts, opts.(cursor := text), CursorAt(browse, full[k - 1]), full[k..]);
    SearcherAt(e, worlds, opts, i, opts.(cursor := text));
  }

  /** A server that answers a cursor with the hits after it serves the items. */
  lemma ServesHits(serve: Server, browse: bool, full: seq<Hit>, limit: nat, i: nat, k: nat)
    requires limit >= 1 && 0 < k <= |full|
    requires serve(i, EncodeCursor(CursorAt(browse, full[k - 1]))) == Ok(PageOf(browse, full[k..], limit))
    ensures ServesAt(serve, ListingOf(Items(browse, full), limit), i, k)
  {
    PageOfItems(browse, full[k..], limit);
    ItemsFrom(browse, full, k);
  }

  lemma OnePageLater(e: Engine, worlds: nat -> World, opts: Options, i: nat, k: nat)
    requires StableRun(worlds, opts) && 0 < k <= |FullResult(e, worlds, opts)|
    ensures var items := Items(opts.query == "", FullResult(e, worlds, opts));
      ServesAt(Searcher(e, worlds, opts), ListingOf(items, PageLimit(opts.limit)), i, k)
  {
    LaterServed(e, worlds, opts, i, k, EncodeCursor(CursorAt(opts.query == "", FullResult(e, worlds, opts)[k - 1])));
    ServesHits(Searcher(e, worlds, opts), opts.query == "", FullResult(e, worlds, opts), PageLimit(opts.limit), i, k);
  }

  /** The run is complete and ends: reading until no next page is offered takes at most
      |full| + 1 pages, and their concatenation is the full ordered result of page one's
      snapshot, without gap, duplicate or reordering. */
  lemma PaginationComplete(e: Engine, worlds: nat -> World, opts: Options, n: nat)
    requires StableRun(worlds, opts) && n > |FullResult(e, worlds, opts)|
    ensures var pages := Follow(Searcher(e, worlds, opts), 0, "", n);
      && pages != [] && pages[|pages| - 1].next == ""
      && AllResults(pages) == Results(FullResult(e, worlds, opts))
  {
    var browse, full, limit := opts.query == "", FullResult(e, worlds, opts), PageLimit(opts.limit);
    var l := ListingOf(Items(browse, full), limit);
    RunIsServed(e, worlds, opts, l);
    FollowAll(Searcher(e, worlds, opts), l, 0, 0, n);
    ListingStart(browse, full, limit);
  }

  lemma RunIsServed(e: Engine, worlds: nat -> World, opts: Options, l: Listing)
    requires StableRun(worlds, opts)
    requires l == ListingOf(Items(opts.query == "", FullResult(e, worlds, opts)), PageLimit(opts.limit))
    ensures Serves(Searcher(e, worlds, opts), l)
  {
    var browse, full := opts.query == "", FullResult(e, worlds, opts);
    forall i: nat, k: nat | k <= l.total && (k == 0 ==> i == 0)
      ensures ServesAt(Searcher(e, worlds, opts), l, i, k)
    {
      OnePage(e, worlds, opts, i, k);
    }
    ListingOfLists(Items(browse, full), PageLimit(opts.limit));
    forall k: nat | k <= l.total ensures Linked(l, k) {
      if k + l.step < |full| { ReadBack(browse, full[k + l.step - 1]); }
      ItemsLinked(Items(browse, full), k, l);
    }
  }

  lemma ListingStart(browse: bool, full: seq<Hit>, limit: nat)
    requires limit >= 1
    ensures var l := ListingOf(Items(browse, full), limit);
      l.total == |full| && l.cursor(0) == "" && l.rest(0) == Results(full)
  {
    PageOfItems(browse, full, limit);
    assert Items(browse, full)[0..] == Items(browse, full);
  }

  /** Nothing but well-formed tables is needed when the store does not change. */
  lemma StableStore(w: World, worlds: nat -> World, opts: Options)
    requires forall d: string :: IdsAscend(TableAt(w.disk, d))
    requires forall i: nat :: worlds(i) == w
    ensures StableRun(worlds, opts)
  {
    SourcesWellFormed(w.disk, w.broken, opts);
    SourcesAscend(w, opts);
  }

  // ---- ingestion between pages ----

  /** Between two requests a batch is inserted that commits nothing but, at most, its lines of the
      newest date; the files and their readability stay. */
  ghost predicate Ingests(w: World, w': World, newest: string) {
    && w'.broken == w.broken && w'.disk.Keys == w.disk.Keys
    && exists entries, done :: done <= {newest} && Ingest.Inserted(w.disk, w'.disk, entries, done)
  }

  /** `InsertBatch` does that, successful or not, for a batch of lines of the newest date when that
      has its file already: the hypotheses are what the method ensures. */
  lemma InsertBatchIngests(zone: string, before: Disk, after: Disk, broken: set<string>, lines: seq<Ingest.LogLine>,
                           done: set<string>, newest: string)
    requires Ingest.Inserted(before, after, Ingest.Entries(zone, lines), done)
    requires done <= Ingest.Dates(Ingest.Entries(zone, lines)) <= {newest}
    requires Store.OnlyNewShards(before, after, Ingest.Dates(Ingest.Entries(zone, lines))) && Path(newest) in before
    ensures Ingests(World(before, broken), World(after, broken), newest)
  {
    forall f | f in after ensures f in before {
      assert forall d :: d in Ingest.Dates(Ingest.Entries(zone, lines)) ==> Path(d) == Path(newest);
    }
    assert after.Keys == before.Keys;
  }

  /** All tables but the newest are the same, and that one may have grown. */
  ghost predicate Grew(first: World, later: World, newest: string) {
    && later.broken == first.broken && later.disk.Keys == first.disk.Keys
    && (forall d: string :: IdsAscend(TableAt(later.disk, d)))
    && (forall d: string :: d != newest ==> TableAt(later.disk, d) == TableAt(first.disk, d))
    && TableAt(first.disk, newest) <= TableAt(later.disk, newest)
  }

  lemma IngestsGrows(first: World, w: World, w': World, newest: string)
    requires Grew(first, w, newest) && Ingests(w, w', newest)
    ensures Grew(first, w', newest)
  {
    var entries, done :| done <= {newest} && Ingest.Inserted(w.disk, w'.disk, entries, done);
    if newest in done {
      Ingest.AppendAdds(TableAt(w.disk, newest), Ingest.Group(entries, newest));
    }
    forall d: string | d !in done ensures TableAt(w'.disk, d) == TableAt(w.disk, d) {
    }
  }

  lemma {:induction false} RunGrows(worlds: nat -> World, newest: string, i: nat)
    requires forall d: string :: IdsAscend(TableAt(worlds(0).disk, d))
    requires forall j: nat :: Ingests(worlds(j), worlds(j + 1), newest)
    ensures Grew(worlds(0), worlds(i), newest)
  {
    if i > 0 {
      RunGrows(worlds, newest, i - 1);
      assert Ingests(worlds(i - 1), worlds(i - 1 + 1), newest);
      IngestsGrows(worlds(0), worlds(i - 1), worlds(i), newest);
    }
  }

  function AttachedIn(w: World, opts: Options): seq<DateName> { AttachedOf(DatesOf(w.disk.Keys, opts), w.broken) }

  /** If the newest date is attached, it is the last one. */
  predicate OnlyLast(dates: seq<DateName>, newest: string) { forall k :: 0 <= k < |dates| - 1 ==> dates[k] != newest }

  lemma GrewIsGrown(first: World, later: World, opts: Options, newest: string)
    requires opts.query == "" && Grew(first, later, newest) && OnlyLast(AttachedIn(first, opts), newest)
    ensures SameSearch(first, later, opts)
  {
    var dates, a, b := AttachedIn(first, opts), SourcesIn(first, opts), SourcesIn(later, opts);
    assert b == SourcesOf(later.disk, dates);
    SourcesAscend(later, opts);
    forall i, j | 0 <= i < j < |b| ensures b[i].alias != b[j].alias { LessTrichotomy(b[i].alias, b[j].alias); }
    forall i | 0 <= i < |a| ensures GrownAt(true, a, b, i) {
      if dates[i] == newest { assert i == |a| - 1; }
    }
  }

  /** Browsing is complete also while lines of the newest date are being ingested, whatever batches
      come between the pages and whichever of them fail. */
  lemma IngestionIsStable(worlds: nat -> World, opts: Options, newest: string)
    requires opts.query == "" && forall d: string :: IdsAscend(TableAt(worlds(0).disk, d))
    requires OnlyLast(AttachedIn(worlds(0), opts), newest)
    requires forall j: nat :: Ingests(worlds(j), worlds(j + 1), newest)
    ensures StableRun(worlds, opts)
  {
    SourcesAscend(worlds(0), opts);
    forall i: nat ensures SameSearch(worlds(0), worlds(i), opts) {
      RunGrows(worlds, newest, i);
      GrewIsGrown(worlds(0), worlds(i), opts, newest);
    }
  }

  predicate DatesAscend(dates: seq<DateName>) {
    forall i, j :: 0 <= i < j < |dates| ==> Less(AliasOf(dates[i]), AliasOf(dates[j]))
  }

  lemma SourcesAscend(w: World, opts: Options)
    ensures AliasesAscend(SourcesIn(w, opts))
  {
    DatesOfAscend(w.disk.Keys, opts);
    AttachedAscend(DatesOf(w.disk.Keys, opts), w.broken);
  }

  lemma DatesOfAscend(files: set<string>, opts: Options)
    ensures DatesAscend(DatesOf(files, opts))
  {
    var days := Latest(ShardDays(Present(files), opts.start, opts.end), MAX_ATTACHED);
    LatestDates(files, opts.start, opts.end);
    CapKeepsLatest(Present(files), opts.start, opts.end);
    forall i, j | 0 <= i < j < |days| ensures Less(Alias(Name(days[i])), Alias(Name(days[j]))) {
      AliasOrder(days[i], days[j]);
    }
  }

  lemma {:induction false} AttachedAscend(dates: seq<DateName>, broken: set<string>)
    requires DatesAscend(dates)
    ensures DatesAscend(AttachedOf(dates, broken))
    ensures forall d :: d in AttachedOf(dates, broken) ==> d in dates
  {
    if dates != [] {
      var rest := AttachedOf(dates[1..], broken);
      AttachedAscend(dates[1..], broken);
      forall j | 0 <= j < |rest| ensures Less(AliasOf(dates[0]), AliasOf(rest[j])) {
        assert rest[j] in dates[1..];
        var k :| 0 <= k < |dates| - 1 && dates[1..][k] == rest[j];
        assert dates[k + 1] == rest[j];
      }
    }
  }
}
