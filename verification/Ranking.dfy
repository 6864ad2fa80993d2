/** What a search is supposed to return, said without SQL: take the wanted rows of every
    shard, put them in order, skip what the cursor has seen, take a page. */
module Ranking {
  import opened Text
  import opened Cursor
  import opened Sql

  /** Where a hit stands in the order. */
  datatype Position = Position(rank: real, shard: string, rowid: int)

  function PositionOf(h: Hit): Position { Position(RealOf(h.rank), h.shard, h.rowid) }

  function CursorPosition(c: Cursor): Position { Position(RealOf(c.rank), c.shard, c.rowid) }

  /** Browsing: newest shard first, then highest row id. A keyword search: best (lowest) rank
      first, then shard and row id upwards. */
  predicate Before(browse: bool, a: Position, b: Position) {
    if browse then
      Less(b.shard, a.shard) || (a.shard == b.shard && b.rowid < a.rowid)
    else
      a.rank < b.rank || (a.rank == b.rank && (Less(a.shard, b.shard) || (a.shard == b.shard && a.rowid < b.rowid)))
  }

  lemma BeforeTransitive(browse: bool, a: Position, b: Position, c: Position)
    requires Before(browse, a, b) && Before(browse, b, c)
    ensures Before(browse, a, c)
  {
    if browse {
      if Less(b.shard, a.shard) && Less(c.shard, b.shard) { LessTransitive(c.shard, b.shard, a.shard); }
    } else {
      if Less(a.shard, b.shard) && Less(b.shard, c.shard) { LessTransitive(a.shard, b.shard, c.shard); }
    }
  }

  lemma BeforeTrichotomy(browse: bool, a: Position, b: Position)
    ensures !(Before(browse, a, b) && Before(browse, b, a))
    ensures a.shard != b.shard || a.rowid != b.rowid ==> Before(browse, a, b) || Before(browse, b, a)
  {
    LessTrichotomy(a.shard, b.shard);
  }

  // ---- the wanted rows ----

  /** An attached shard. */
  datatype Source = Source(alias: ShardName, table: Table)

  /** One search, the paging aside: browse mode or the FTS5 text of a keyword search, the
      levels asked for (none: no filter) and the pod asked for ("": no filter). */
  datatype Request = Request(browse: bool, text: string, levels: Option<seq<string>>, pod: string)

  predicate Wanted(e: Engine, rq: Request, table: Table, row: Row) {
    && (rq.browse || e.matches(table, rq.text, row))
    && (rq.levels.Some? ==> row.level in rq.levels.value)
    && (rq.pod != "" ==> row.pod == rq.pod)
  }

  function HitsIn(e: Engine, rq: Request, source: Source, rows: seq<Row>): seq<Hit> {
    if rows == [] then [] else HitOf(e, rq, source, rows[0]) + HitsIn(e, rq, source, rows[1..])
  }

  function HitOf(e: Engine, rq: Request, source: Source, row: Row): seq<Hit> {
    if Wanted(e, rq, source.table, row) then [Project(e, source.table, row, source.alias, rq.browse, rq.text)] else []
  }

  function Matching(e: Engine, rq: Request, sources: seq<Source>): seq<Hit> {
    if sources == [] then [] else HitsIn(e, rq, sources[0], sources[0].table) + Matching(e, rq, sources[1..])
  }

  // ---- in order ----

  function Insert(browse: bool, h: Hit, s: seq<Hit>): seq<Hit> {
    if s == [] || Before(browse, PositionOf(h), PositionOf(s[0])) then [h] + s else [s[0]] + Insert(browse, h, s[1..])
  }

  function Sort(browse: bool, s: seq<Hit>): seq<Hit> {
    if s == [] then [] else Insert(browse, s[0], Sort(browse, s[1..]))
  }

  /** All wanted hits, in order. */
  function Ranked(e: Engine, rq: Request, sources: seq<Source>): seq<Hit> {
    Sort(rq.browse, Matching(e, rq, sources))
  }

  predicate Sorted(browse: bool, s: seq<Hit>) {
    forall i, j :: 0 <= i < j < |s| ==> Before(browse, PositionOf(s[i]), PositionOf(s[j]))
  }

  predicate Apart(a: Hit, b: Hit) { a.shard != b.shard || a.rowid != b.rowid }

  /** No two hits are the same row. */
  predicate Distinct(s: seq<Hit>) { forall i, j :: 0 <= i < j < |s| ==> Apart(s[i], s[j]) }

  predicate BeforeAll(browse: bool, h: Hit, s: seq<Hit>) {
    forall i :: 0 <= i < |s| ==> Before(browse, PositionOf(h), PositionOf(s[i]))
  }

  lemma SortedCons(browse: bool, h: Hit, s: seq<Hit>)
    requires Sorted(browse, s) && BeforeAll(browse, h, s)
    ensures Sorted(browse, [h] + s)
  {
  }

  lemma BeforeAllWith(browse: bool, h: Hit, x: Hit, s: seq<Hit>, t: seq<Hit>)
    requires BeforeAll(browse, h, s) && Before(browse, PositionOf(h), PositionOf(x))
    requires multiset(t) == multiset(s) + multiset{x}
    ensures BeforeAll(browse, h, t)
  {
    forall i | 0 <= i < |t| ensures Before(browse, PositionOf(h), PositionOf(t[i])) {
      assert t[i] in multiset(t);
    }
  }

  lemma {:induction false} InsertSorted(browse: bool, h: Hit, s: seq<Hit>)
    requires Sorted(browse, s) && forall i :: 0 <= i < |s| ==> Apart(h, s[i])
    ensures Sorted(browse, Insert(browse, h, s))
    ensures multiset(Insert(browse, h, s)) == multiset(s) + multiset{h}
  {
    if s != [] {
      BeforeTrichotomy(browse, PositionOf(h), PositionOf(s[0]));
      var rest := s[1..];
      assert s == [s[0]] + rest;
      if Before(browse, PositionOf(h), PositionOf(s[0])) {
        forall i | 0 < i < |s| ensures Before(browse, PositionOf(h), PositionOf(s[i])) {
          BeforeTransitive(browse, PositionOf(h), PositionOf(s[0]), PositionOf(s[i]));
        }
        SortedCons(browse, h, s);
      } else {
        InsertSorted(browse, h, rest);
        BeforeAllWith(browse, s[0], h, rest, Insert(browse, h, rest));
        SortedCons(browse, s[0], Insert(browse, h, rest));
      }
    }
  }

  lemma ApartFromAll(h: Hit, s: seq<Hit>, t: seq<Hit>)
    requires multiset(s) == multiset(t) && forall j :: 0 <= j < |s| ==> Apart(h, s[j])
    ensures forall i :: 0 <= i < |t| ==> Apart(h, t[i])
  {
    forall i | 0 <= i < |t| ensures Apart(h, t[i]) {
      assert t[i] in multiset(s);
    }
  }

  /** Sorting rearranges, and leaves distinct rows strictly in order. */
  lemma {:induction false} SortSorted(browse: bool, s: seq<Hit>)
    requires Distinct(s)
    ensures Sorted(browse, Sort(browse, s))
    ensures multiset(Sort(browse, s)) == multiset(s)
  {
    if s != [] {
      var rest, sorted := s[1..], Sort(browse, s[1..]);
      SortSorted(browse, rest);
      ApartFromAll(s[0], rest, sorted);
      InsertSorted(browse, s[0], sorted);
      assert s == [s[0]] + rest;
    }
  }

  // ---- beyond a cursor ----

  /** The order without everything up to and including the cursor's place. */
  function DropThrough(browse: bool, s: seq<Hit>, c: Position): seq<Hit> {
    if s == [] || Before(browse, c, PositionOf(s[0])) then s else DropThrough(browse, s[1..], c)
  }

  function Beyond(browse: bool, s: seq<Hit>, cursor: Option<Cursor>): seq<Hit> {
    match cursor
    case None => s
    case Some(c) => DropThrough(browse, s, CursorPosition(c))
  }

  /** The hits after the cursor's place, wherever they stand. */
  function After(browse: bool, s: seq<Hit>, c: Position): seq<Hit> {
    if s == [] then []
    else (if Before(browse, c, PositionOf(s[0])) then [s[0]] else []) + After(browse, s[1..], c)
  }

  lemma {:induction false} AfterAll(browse: bool, s: seq<Hit>, c: Position)
    requires forall i :: 0 <= i < |s| ==> Before(browse, c, PositionOf(s[i]))
    ensures After(browse, s, c) == s
  {
    if s != [] {
      AfterAll(browse, s[1..], c);
      assert s == [s[0]] + s[1..];
    }
  }

  lemma AfterCons(browse: bool, h: Hit, s: seq<Hit>, c: Position)
    ensures After(browse, [h] + s, c)
         == if Before(browse, c, PositionOf(h)) then [h] + After(browse, s, c) else After(browse, s, c)
  {
    assert ([h] + s)[1..] == s;
    assert [] + After(browse, s, c) == After(browse, s, c);
  }

  lemma InsertCons(browse: bool, h: Hit, x: Hit, s: seq<Hit>)
    requires !Before(browse, PositionOf(h), PositionOf(x))
    ensures Insert(browse, h, [x] + s) == [x] + Insert(browse, h, s)
  {
    assert ([x] + s)[1..] == s;
  }

  lemma AfterInsertFirst(browse: bool, h: Hit, x: Hit, rest: seq<Hit>, c: Position)
    requires Before(browse, PositionOf(h), PositionOf(x))
    ensures After(browse, Insert(browse, h, [x] + rest), c)
         == if Before(browse, c, PositionOf(h)) then Insert(browse, h, After(browse, [x] + rest, c))
            else After(browse, [x] + rest, c)
  {
    AfterCons(browse, h, [x] + rest, c);
    AfterCons(browse, x, rest, c);
    if Before(browse, c, PositionOf(h)) { BeforeTransitive(browse, c, PositionOf(h), PositionOf(x)); }
  }

  lemma AfterInsertLater(browse: bool, h: Hit, x: Hit, rest: seq<Hit>, c: Position)
    requires !Before(browse, PositionOf(h), PositionOf(x))
    requires After(browse, Insert(browse, h, rest), c)
          == if Before(browse, c, PositionOf(h)) then Insert(browse, h, After(browse, rest, c))
             else After(browse, rest, c)
    ensures After(browse, Insert(browse, h, [x] + rest), c)
         == if Before(browse, c, PositionOf(h)) then Insert(browse, h, After(browse, [x] + rest, c))
            else After(browse, [x] + rest, c)
  {
    AfterCons(browse, x, rest, c);
    AfterCons(browse, x, Insert(browse, h, rest), c);
    InsertCons(browse, h, x, rest);
    InsertCons(browse, h, x, After(browse, rest, c));
  }

  lemma {:induction false} AfterInsert(browse: bool, h: Hit, s: seq<Hit>, c: Position)
    requires Sorted(browse, s)
    ensures After(browse, Insert(browse, h, s), c)
         == if Before(browse, c, PositionOf(h)) then Insert(browse, h, After(browse, s, c)) else After(browse, s, c)
  {
    if s == [] {
      AfterCons(browse, h, s, c);
    } else {
      assert s == [s[0]] + s[1..];
      if Before(browse, PositionOf(h), PositionOf(s[0])) {
        AfterInsertFirst(browse, h, s[0], s[1..], c);
      } else {
        AfterInsert(browse, h, s[1..], c);
        AfterInsertLater(browse, h, s[0], s[1..], c);
      }
    }
  }

  lemma {:induction false} AfterSubset(browse: bool, s: seq<Hit>, c: Position)
    requires Distinct(s)
    ensures Distinct(After(browse, s, c))
    ensures forall h :: h in After(browse, s, c) ==> h in s
  {
    if s != [] {
      var rest, kept := s[1..], After(browse, s[1..], c);
      AfterSubset(browse, rest, c);
      forall i | 0 <= i < |kept| ensures Apart(s[0], kept[i]) {
        assert kept[i] in rest;
        var j :| 0 <= j < |rest| && rest[j] == kept[i];
        assert Apart(s[0], s[j + 1]);
      }
    }
  }

  /** Skipping after sorting is filtering before sorting: what the keyset WHERE relies on. */
  lemma {:induction false} BeyondIsFilter(browse: bool, s: seq<Hit>, c: Position)
    requires Distinct(s)
    ensures DropThrough(browse, Sort(browse, s), c) == Sort(browse, After(browse, s, c))
  {
    SortSorted(browse, s);
    DropIsAfter(browse, Sort(browse, s), c);
    AfterSort(browse, s, c);
  }

  lemma {:induction false} DropIsAfter(browse: bool, s: seq<Hit>, c: Position)
    requires Sorted(browse, s)
    ensures DropThrough(browse, s, c) == After(browse, s, c)
  {
    if s != [] {
      if Before(browse, c, PositionOf(s[0])) {
        forall i | 0 < i < |s| ensures Before(browse, c, PositionOf(s[i])) {
          BeforeTransitive(browse, c, PositionOf(s[0]), PositionOf(s[i]));
        }
        AfterAll(browse, s, c);
      } else {
        DropIsAfter(browse, s[1..], c);
      }
    }
  }

  lemma {:induction false} AfterSort(browse: bool, s: seq<Hit>, c: Position)
    requires Distinct(s)
    ensures After(browse, Sort(browse, s), c) == Sort(browse, After(browse, s, c))
  {
    if s != [] {
      SortSorted(browse, s[1..]);
      AfterSort(browse, s[1..], c);
      AfterInsert(browse, s[0], Sort(browse, s[1..]), c);
      AfterCons(browse, s[0], s[1..], c);
      assert s == [s[0]] + s[1..];
      assert ([s[0]] + After(browse, s[1..], c))[1..] == After(browse, s[1..], c);
    }
  }

  /** From the k-th hit on, exactly the rest remains: nothing skipped, nothing repeated. */
  lemma {:induction false} DropThroughOwn(browse: bool, s: seq<Hit>, k: nat)
    requires Sorted(browse, s) && k < |s|
    ensures DropThrough(browse, s, PositionOf(s[k])) == s[k + 1..]
  {
    var c := PositionOf(s[k]);
    if k == 0 {
      BeforeTrichotomy(browse, c, c);
      assert !Before(browse, c, PositionOf(s[0]));
      if |s| > 1 { assert Before(browse, c, PositionOf(s[1])); }
      assert DropThrough(browse, s, c) == DropThrough(browse, s[1..], c);
    } else {
      BeforeTrichotomy(browse, PositionOf(s[0]), c);
      assert Before(browse, PositionOf(s[0]), PositionOf(s[k]));
      DropThroughOwn(browse, s[1..], k - 1);
      assert s[1..][k..] == s[k + 1..];
    }
  }

  // ---- the hits are distinct rows ----

  predicate IdsAscend(table: Table) { forall i, j :: 0 <= i < j < |table| ==> table[i].rowid < table[j].rowid }

  predicate WellFormed(sources: seq<Source>) {
    && (forall i :: 0 <= i < |sources| ==> IdsAscend(sources[i].table))
    && (forall i, j :: 0 <= i < j < |sources| ==> sources[i].alias != sources[j].alias)
  }

  lemma {:induction false} HitsInDistinct(e: Engine, rq: Request, source: Source, rows: seq<Row>)
    requires IdsAscend(rows)
    ensures Distinct(HitsIn(e, rq, source, rows))
    ensures forall i :: 0 <= i < |HitsIn(e, rq, source, rows)| ==>
      && HitsIn(e, rq, source, rows)[i].shard == source.alias
      && rows != [] && HitsIn(e, rq, source, rows)[i].rowid >= rows[0].rowid
  {
    if rows != [] {
      HitsInDistinct(e, rq, source, rows[1..]);
      if |rows| > 1 { assert rows[1..][0] == rows[1] && rows[0].rowid < rows[1].rowid; }
    }
  }

  lemma {:induction false} MatchingDistinct(e: Engine, rq: Request, sources: seq<Source>)
    requires WellFormed(sources)
    ensures Distinct(Matching(e, rq, sources))
    ensures forall i :: 0 <= i < |Matching(e, rq, sources)| ==>
      exists k :: 0 <= k < |sources| && sources[k].alias == Matching(e, rq, sources)[i].shard
  {
    if sources != [] {
      var a, b := HitsIn(e, rq, sources[0], sources[0].table), Matching(e, rq, sources[1..]);
      HitsInDistinct(e, rq, sources[0], sources[0].table);
      MatchingDistinct(e, rq, sources[1..]);
      forall j | 0 <= j < |b| ensures exists k :: 1 <= k < |sources| && sources[k].alias == b[j].shard {
        var k :| 0 <= k < |sources[1..]| && sources[1..][k].alias == b[j].shard;
        assert sources[k + 1].alias == b[j].shard;
      }
      forall i, j | 0 <= i < |a| && 0 <= j < |b| ensures Apart(a[i], b[j]) {
        var k :| 1 <= k < |sources| && sources[k].alias == b[j].shard;
      }
    }
  }

  /** The full result is in strict order and has every wanted row once. */
  lemma RankedSorted(e: Engine, rq: Request, sources: seq<Source>)
    requires WellFormed(sources)
    ensures Sorted(rq.browse, Ranked(e, rq, sources))
    ensures multiset(Ranked(e, rq, sources)) == multiset(Matching(e, rq, sources))
  {
    MatchingDistinct(e, rq, sources);
    SortSorted(rq.browse, Matching(e, rq, sources));
  }
}
