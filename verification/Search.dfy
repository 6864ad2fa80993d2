/** `Store.Search`: options are compiled to one SQL query over the attached shards, and the
    query's rows become a page and the cursor of the next one. */
module Search {
  import opened Text
  import opened Calendar
  import opened Timestamps
  import opened Cursor
  import opened Sql
  import opened Ranking
  import opened Shards
  import MatchQuery
  import Snippet

  // ---- levels ----

  const LEVELS := ["FATAL", "ERROR", "WARN", "INFO", "DEBUG", "TRACE"]

  /** Go's `unicode.ToUpper`, as far as its result can be an ASCII letter. */
  function Upper(c: char): char {
    if 'a' <= c <= 'z' then 'A' + (c - 'a')
    else if c == '\U{0131}' then 'I'
    else if c == '\U{017F}' then 'S'
    else c
  }

  function ToUpper(s: string): string {
    if s == "" then "" else [Upper(s[0])] + ToUpper(s[1..])
  }

  function IndexIn(s: string, ss: seq<string>): (i: Option<nat>)
    ensures i.Some? ==> i.value < |ss| && ss[i.value] == s && s !in ss[..i.value]
    ensures i.None? ==> s !in ss
  {
    if ss == [] then None else if ss[0] == s then Some(0) else
    match IndexIn(s, ss[1..])
    case Some(i) => assert ss[..i + 1] == [ss[0]] + ss[1..][..i]; Some(i + 1)
    case None => None
  }

  /** `severityOf`: 0 is the most severe. */
  function Severity(level: string): Option<nat> { IndexIn(ToUpper(level), LEVELS) }

  /** `levelsAtOrAbove`; None is "no filtering". */
  function LevelsAtOrAbove(minLevel: string): Option<seq<string>> {
    match Severity(minLevel)
    case Some(i) => Some(LEVELS[..i + 1])
    case None => None
  }

  lemma {:induction false} InPrefix(s: string, ss: seq<string>, n: nat)
    requires n <= |ss|
    ensures s in ss[..n] <==> IndexIn(s, ss).Some? && IndexIn(s, ss).value < n
  {
    if n > 0 {
      assert ss[..n] == [ss[0]] + ss[1..][..n - 1];
      if ss[0] != s { InPrefix(s, ss[1..], n - 1); }
    }
  }

  lemma PrefixMeaning(levels: seq<string>, minLevel: string, level: string)
    ensures IndexIn(minLevel, levels).None? <==> minLevel !in levels
    ensures IndexIn(minLevel, levels).Some? ==> var i := IndexIn(minLevel, levels).value;
      level in levels[..i + 1] <==> IndexIn(level, levels).Some? && IndexIn(level, levels).value <= i
  {
    match IndexIn(minLevel, levels)
    case Some(i) => InPrefix(level, levels, i + 1);
    case None =>
  }

  /** A minimum level selects the recognised levels at least as severe and no others; an
      unrecognised one, like "", filters nothing. */
  lemma LevelsMeaning(minLevel: string, level: string)
    ensures LevelsAtOrAbove(minLevel).None? <==> ToUpper(minLevel) !in LEVELS
    ensures LevelsAtOrAbove(minLevel).Some? <==> Severity(minLevel).Some?
    ensures LevelsAtOrAbove(minLevel).Some? ==>
      (level in LevelsAtOrAbove(minLevel).value <==>
        IndexIn(level, LEVELS).Some? && IndexIn(level, LEVELS).value <= Severity(minLevel).value)
  {
    PrefixMeaning(LEVELS, ToUpper(minLevel), level);
  }

  lemma {:induction false} UpperCase(s: string, name: string)
    requires Spells(s, name)
    ensures ToUpper(s) == name
  {
    if s != "" {
      assert Spells(s[1..], name[1..]);
      UpperCase(s[1..], name[1..]);
    }
  }

  /** The name in upper case letters, lower case ones or both. */
  predicate Spells(s: string, name: string) {
    && |s| == |name|
    && forall i :: 0 <= i < |s| ==> 'A' <= name[i] <= 'Z' && (s[i] == name[i] || s[i] == name[i] + ('a' - 'A'))
  }

  /** A minimum of each name, in any case, and the levels it selects. */
  lemma LevelsByName(minLevel: string, i: nat)
    requires i < 6 && Spells(minLevel, ["FATAL", "ERROR", "WARN", "INFO", "DEBUG", "TRACE"][i])
    ensures LevelsAtOrAbove(minLevel) == Some(["FATAL", "ERROR", "WARN", "INFO", "DEBUG", "TRACE"][..i + 1])
  {
    UpperCase(minLevel, LEVELS[i]);
    LevelsDiffer();
  }

  lemma LevelsDiffer()
    ensures |LEVELS| == 6 && forall i, j :: 0 <= i < j < 6 ==> LEVELS[i] != LEVELS[j]
  {
    assert LEVELS[0][0] == 'F' && LEVELS[1][0] == 'E' && LEVELS[2][0] == 'W';
    assert LEVELS[3][0] == 'I' && LEVELS[4][0] == 'D' && LEVELS[5][0] == 'T';
  }

  // ---- options and pages ----

  datatype Options = Options(query: string, start: Time, end: Time, limit: int, cursor: string,
                             minLevel: string, pod: string)

  datatype SearchResult = SearchResult(pod: string, namespace: string, container: string, timestamp: string,
                                       level: string, snippet: string, rank: Rank)

  datatype Page = Page(results: seq<SearchResult>, next: string)

  function PageLimit(limit: int): (n: nat)
    ensures 1 <= n <= 500 && (1 <= limit <= 500 ==> n == limit)
  {
    if limit <= 0 || limit > 500 then 500 else limit
  }

  function RequestOf(opts: Options): Request {
    Request(opts.query == "", MatchQuery.Sanitized(opts.query), LevelsAtOrAbove(opts.minLevel), opts.pod)
  }

  function ResultOf(h: Hit): SearchResult {
    SearchResult(h.pod, h.namespace, h.container, h.timestamp, h.level, Snippet.EscapeSnippet(h.snip), h.rank)
  }

  function Results(hits: seq<Hit>): (r: seq<SearchResult>)
    ensures |r| == |hits| && forall i :: 0 <= i < |hits| ==> r[i] == ResultOf(hits[i])
  {
    seq(|hits|, i requires 0 <= i < |hits| => ResultOf(hits[i]))
  }

  // ---- what a search means ----

  type DateName = s: string | Plain(s) witness ""

  function AliasOf(date: DateName): ShardName {
    PlainWithout(date);
    PlainConcat("d", ReplaceAll(date, '-', ""));
    Alias(date)
  }

  lemma {:induction false} PlainWithout(s: string)
    requires Plain(s)
    ensures Plain(ReplaceAll(s, '-', ""))
  {
    if s != "" { PlainWithout(s[1..]); }
  }

  lemma NameIsPlain(n: Day)
    ensures Plain(Name(n))
  {
    var d := Civil(n);
    assert forall i :: 0 <= i < 4 ==> IsDigit(Pad(d.year, 4)[i]);
    assert forall i :: 0 <= i < 2 ==> IsDigit(Pad(d.month, 2)[i]) && IsDigit(Pad(d.day, 2)[i]);
    PlainConcat(Pad(d.year, 4), "-");
    PlainConcat(Pad(d.year, 4) + "-", Pad(d.month, 2));
    PlainConcat(Pad(d.year, 4) + "-" + Pad(d.month, 2), "-");
    PlainConcat(Pad(d.year, 4) + "-" + Pad(d.month, 2) + "-", Pad(d.day, 2));
  }

  /** The dates in range, the most recent ten at most. */
  function DatesOf(files: set<string>, opts: Options): (dates: seq<DateName>) {
    DatesArePlain(files, opts);
    Latest(ShardDates(files, opts.start, opts.end), MAX_ATTACHED)
  }

  lemma DatesArePlain(files: set<string>, opts: Options)
    ensures forall i :: 0 <= i < |Latest(ShardDates(files, opts.start, opts.end), MAX_ATTACHED)| ==>
      Plain(Latest(ShardDates(files, opts.start, opts.end), MAX_ATTACHED)[i])
  {
    LatestDates(files, opts.start, opts.end);
    var days := Latest(ShardDays(Present(files), opts.start, opts.end), MAX_ATTACHED);
    forall i | 0 <= i < |days| ensures Plain(Names(days)[i]) { NameIsPlain(days[i]); }
  }

  /** Those whose file could be attached. */
  function AttachedOf(dates: seq<DateName>, broken: set<string>): seq<DateName> {
    if dates == [] then []
    else (if dates[0] in broken then [] else [dates[0]]) + AttachedOf(dates[1..], broken)
  }

  function SourcesOf(disk: Disk, dates: seq<DateName>): (sources: seq<Source>)
    ensures |sources| == |dates|
    ensures forall i :: 0 <= i < |dates| ==> sources[i] == Source(AliasOf(dates[i]), TableAt(disk, dates[i]))
  {
    if dates == [] then [] else [Source(AliasOf(dates[0]), TableAt(disk, dates[0]))] + SourcesOf(disk, dates[1..])
  }

  function CursorOf(text: string): Result<Option<Cursor>> {
    if text == "" then Ok(None) else
    match DecodeCursor(text)
    case Ok(c) => Ok(Some(c))
    case Err(error) => Err(error)
  }

  function CursorAt(browse: bool, h: Hit): Cursor { Cursor(browse, h.rank, h.shard, h.rowid) }

  /** One page of what lies beyond the cursor, and a cursor only if there is more. */
  function PageOf(browse: bool, beyond: seq<Hit>, limit: nat): Page
    requires limit >= 1
  {
    Page(Results(Take(beyond, limit)),
         if |beyond| > limit then EncodeCursor(CursorAt(browse, beyond[limit - 1])) else "")
  }

  function Sources(disk: Disk, broken: set<string>, opts: Options): seq<Source> {
    SourcesOf(disk, AttachedOf(DatesOf(disk.Keys, opts), broken))
  }

  /** The result of a search: all wanted rows of the attached shards, in order, cut at the
      cursor and at the limit. */
  function Searched(e: Engine, disk: Disk, broken: set<string>, opts: Options): Result<Page> {
    if DatesOf(disk.Keys, opts) == [] then Ok(Page([], "")) else
    match CursorOf(opts.cursor)
    case Err(error) => Err(error)
    case Ok(cursor) =>
      var rq := RequestOf(opts);
      var beyond := Beyond(rq.browse, Ranked(e, rq, Sources(disk, broken, opts)), cursor);
      Ok(PageOf(rq.browse, beyond, PageLimit(opts.limit)))
  }

  // ---- the compiled query ----

  function Texts(ss: seq<string>): (vs: seq<Value>)
    ensures |vs| == |ss| && forall i :: 0 <= i < |ss| ==> vs[i] == Str(ss[i])
  {
    if ss == [] then [] else [Str(ss[0])] + Texts(ss[1..])
  }

  function Conditions(rq: Request): seq<Pred> {
    (if rq.levels.Some? then [In(Level, |rq.levels.value|)] else []) + (if rq.pod != "" then [Cmp(Pod, Eq)] else [])
  }

  function ConditionArgs(rq: Request): seq<Value> {
    (if rq.levels.Some? then Texts(rq.levels.value) else []) + (if rq.pod != "" then [Str(rq.pod)] else [])
  }

  function Where(rq: Request): seq<Pred> { (if rq.browse then [] else [Match]) + Conditions(rq) }

  function WhereArgs(rq: Request): seq<Value> { (if rq.browse then [] else [Str(rq.text)]) + ConditionArgs(rq) }

  function SelectOf(rq: Request, alias: ShardName): Select { Select(alias, alias, rq.browse, Where(rq)) }

  function SelectsOf(rq: Request, dates: seq<DateName>): seq<Select> {
    if dates == [] then [] else [SelectOf(rq, AliasOf(dates[0]))] + SelectsOf(rq, dates[1..])
  }

  function UnionArgs(rq: Request, n: nat): seq<Value> { if n == 0 then [] else WhereArgs(rq) + UnionArgs(rq, n - 1) }

  function Keyset(browse: bool): Pred {
    if browse then Or(Cmp(Shard, Lt), And(Cmp(Shard, Eq), Cmp(RowId, Lt)))
    else Or(Cmp(RankColumn, Gt),
            And(Cmp(RankColumn, Eq), Or(Cmp(Shard, Gt), And(Cmp(Shard, Eq), Cmp(RowId, Gt)))))
  }

  function KeysetArgs(browse: bool, c: Cursor): seq<Value> {
    if browse then [Str(c.shard), Str(c.shard), Integer(c.rowid)]
    else [Real(RealOf(c.rank)), Real(RealOf(c.rank)), Str(c.shard), Str(c.shard), Integer(c.rowid)]
  }

  function OuterWhere(browse: bool, cursor: Option<Cursor>): Option<Pred> {
    if cursor.Some? then Some(Keyset(browse)) else None
  }

  function OuterArgs(browse: bool, cursor: Option<Cursor>): seq<Value> {
    if cursor.Some? then KeysetArgs(browse, cursor.value) else []
  }

  function Order(browse: bool): seq<Key> {
    if browse then [Desc(Shard), Desc(RowId)] else [Asc(RankColumn), Asc(Shard), Asc(RowId)]
  }

  function Compiled(rq: Request, dates: seq<DateName>, cursor: Option<Cursor>): Query {
    Query(SelectsOf(rq, dates), OuterWhere(rq.browse, cursor), Order(rq.browse))
  }

  function CompiledArgs(rq: Request, n: nat, cursor: Option<Cursor>, limit: nat): seq<Value> {
    UnionArgs(rq, n) + (OuterArgs(rq.browse, cursor) + [Integer(limit + 1)])
  }

  // ---- the query means the search ----

  lemma WhereMeaning(e: Engine, rq: Request, table: Table, row: Row, h: Hit)
    requires h.level == row.level && h.pod == row.pod
    ensures |WhereArgs(rq)| == ConjunctionHoles(Where(rq))
    ensures AllHold(Where(rq), h, text => e.matches(table, text, row), WhereArgs(rq)) <==> Wanted(e, rq, table, row)
  {
    var m := text => e.matches(table, text, row);
    var ps, args := Conditions(rq), ConditionArgs(rq);
    ConditionsMeaning(rq, h, m);
    if !rq.browse {
      assert Where(rq)[1..] == ps && WhereArgs(rq)[1..] == args;
      assert WhereArgs(rq)[..1] == [Str(rq.text)];
    } else {
      assert Where(rq) == ps && WhereArgs(rq) == args;
    }
  }

  lemma ConditionsMeaning(rq: Request, h: Hit, matches: string -> bool)
    ensures |ConditionArgs(rq)| == ConjunctionHoles(Conditions(rq))
    ensures AllHold(Conditions(rq), h, matches, ConditionArgs(rq)) <==>
      (rq.levels.Some? ==> h.level in rq.levels.value) && (rq.pod != "" ==> h.pod == rq.pod)
  {
    var pods: seq<Pred> := if rq.pod != "" then [Cmp(Pod, Eq)] else [];
    var podArgs := if rq.pod != "" then [Str(rq.pod)] else [];
    assert rq.pod != "" ==> pods[1..] == [] && podArgs[..1] == podArgs && podArgs[1..] == [];
    assert ConjunctionHoles(pods) == |podArgs|;
    assert AllHold(pods, h, matches, podArgs) <==> (rq.pod != "" ==> h.pod == rq.pod);
    if rq.levels.Some? {
      var levels := rq.levels.value;
      var texts := Texts(levels);
      assert Conditions(rq) == [In(Level, |levels|)] + pods && Conditions(rq)[1..] == pods;
      assert ConditionArgs(rq) == texts + podArgs;
      assert ConditionArgs(rq)[..|levels|] == texts && ConditionArgs(rq)[|levels|..] == podArgs;
      assert (exists i :: 0 <= i < |levels| && ValueEqual(Str(h.level), texts[i])) <==> h.level in levels by {
        if h.level in levels {
          var i :| 0 <= i < |levels| && levels[i] == h.level;
          assert ValueEqual(Str(h.level), texts[i]);
        }
      }
    } else {
      assert Conditions(rq) == pods && ConditionArgs(rq) == podArgs;
    }
  }

  lemma {:induction false} RowsMeaning(e: Engine, rq: Request, source: Source, rows: seq<Row>)
    requires |WhereArgs(rq)| == ConjunctionHoles(Where(rq))
    ensures EvalRows(e, source.table, rows, SelectOf(rq, source.alias), WhereArgs(rq)) == HitsIn(e, rq, source, rows)
  {
    if rows != [] {
      var h := Project(e, source.table, rows[0], source.alias, rq.browse, MatchText(WhereArgs(rq)));
      WhereMeaning(e, rq, source.table, rows[0], h);
      RowsMeaning(e, rq, source, rows[1..]);
    }
  }

  predicate Attached(db: Database, sources: seq<Source>) {
    forall i :: 0 <= i < |sources| ==> TableOf(db, sources[i].alias) == sources[i].table
  }

  lemma {:induction false} UnionMeaning(e: Engine, rq: Request, disk: Disk, db: Database, dates: seq<DateName>)
    requires Attached(db, SourcesOf(disk, dates))
    ensures |UnionArgs(rq, |dates|)| == UnionHoles(SelectsOf(rq, dates))
    ensures EvalUnion(e, db, SelectsOf(rq, dates), UnionArgs(rq, |dates|)) == Matching(e, rq, SourcesOf(disk, dates))
  {
    if dates != [] {
      var sources := SourcesOf(disk, dates);
      var w, more := WhereArgs(rq), UnionArgs(rq, |dates| - 1);
      assert SourcesOf(disk, dates[1..]) == sources[1..];
      assert Attached(db, sources[1..]) by {
        forall i | 0 <= i < |sources| - 1 ensures TableOf(db, sources[1..][i].alias) == sources[1..][i].table {
          assert sources[1..][i] == sources[i + 1];
        }
      }
      UnionMeaning(e, rq, disk, db, dates[1..]);
      ConditionsHoles(rq);
      RowsMeaning(e, rq, sources[0], sources[0].table);
      assert (w + more)[..|w|] == w && (w + more)[|w|..] == more;
      assert SelectsOf(rq, dates)[1..] == SelectsOf(rq, dates[1..]);
    }
  }

  lemma ConditionsHoles(rq: Request)
    ensures |WhereArgs(rq)| == ConjunctionHoles(Where(rq))
  {
    var h := Hit("", "", "", "", "", "", Zero(false), "", 0);
    ConditionsMeaning(rq, h, text => false);
    if !rq.browse { assert Where(rq)[1..] == Conditions(rq); } else { assert Where(rq) == Conditions(rq); }
  }

  lemma KeysetMeaning(browse: bool, c: Cursor, h: Hit)
    ensures |KeysetArgs(browse, c)| == Holes(Keyset(browse))
    ensures Holds(Keyset(browse), h, text => false, KeysetArgs(browse, c))
       <==> Before(browse, CursorPosition(c), PositionOf(h))
  {
    var args := KeysetArgs(browse, c);
    if browse {
      assert args[..1] == [args[0]] && args[1..] == [args[1], args[2]];
      assert args[1..][..1] == [args[1]] && args[1..][1..] == [args[2]];
      var m: string -> bool := text => false;
      assert Holds(And(Cmp(Shard, Eq), Cmp(RowId, Lt)), h, m, args[1..]) <==> (h.shard == c.shard && h.rowid < c.rowid);
    } else {
      assert args[..1] == [args[0]] && args[1..] == [args[1], args[2], args[3], args[4]];
      assert args[1..][..1] == [args[1]] && args[1..][1..] == [args[2], args[3], args[4]];
      assert args[1..][1..][..1] == [args[2]] && args[1..][1..][1..] == [args[3], args[4]];
      assert args[1..][1..][1..][..1] == [args[3]] && args[1..][1..][1..][1..] == [args[4]];
      var m: string -> bool := text => false;
      var byRow := And(Cmp(Shard, Eq), Cmp(RowId, Gt));
      var byShard := Or(Cmp(Shard, Gt), byRow);
      assert Holds(byRow, h, m, [args[3], args[4]]) <==> h.shard == c.shard && c.rowid < h.rowid;
      assert Holds(byShard, h, m, [args[2], args[3], args[4]]) <==>
        Less(c.shard, h.shard) || (h.shard == c.shard && c.rowid < h.rowid);
      assert Holds(And(Cmp(RankColumn, Eq), byShard), h, m, args[1..]) <==>
        (RealOf(h.rank) == RealOf(c.rank) && Holds(byShard, h, m, [args[2], args[3], args[4]]));
    }
  }

  lemma {:induction false} OuterMeaning(browse: bool, cursor: Option<Cursor>, hits: seq<Hit>)
    ensures |OuterArgs(browse, cursor)| == WhereHoles(OuterWhere(browse, cursor))
    ensures EvalWhere(OuterWhere(browse, cursor), hits, OuterArgs(browse, cursor))
         == if cursor.Some? then After(browse, hits, CursorPosition(cursor.value)) else hits
  {
    if cursor.Some? {
      KeysetMeaning(browse, cursor.value, Hit("", "", "", "", "", "", Zero(false), "", 0));
    }
    if hits != [] {
      if cursor.Some? { KeysetMeaning(browse, cursor.value, hits[0]); }
      OuterMeaning(browse, cursor, hits[1..]);
      assert hits == [hits[0]] + hits[1..];
    }
  }

  lemma OrderMeaning(browse: bool, a: Hit, b: Hit)
    ensures OrderedBefore(Order(browse), a, b) <==> Before(browse, PositionOf(a), PositionOf(b))
  {
    if browse {
      assert Order(browse)[1..] == [Desc(RowId)] && Order(browse)[1..][1..] == [];
      assert OrderedBefore([Desc(RowId)], a, b) <==> b.rowid < a.rowid;
    } else {
      assert Order(browse)[1..] == [Asc(Shard), Asc(RowId)] && Order(browse)[1..][1..] == [Asc(RowId)];
      assert Order(browse)[1..][1..][1..] == [];
      assert OrderedBefore([Asc(RowId)], a, b) <==> a.rowid < b.rowid;
      assert OrderedBefore([Asc(Shard), Asc(RowId)], a, b) <==>
        Less(a.shard, b.shard) || (a.shard == b.shard && a.rowid < b.rowid);
    }
  }

  lemma {:induction false} InsertMeaning(browse: bool, h: Hit, s: seq<Hit>)
    ensures InsertOrdered(Order(browse), h, s) == Insert(browse, h, s)
  {
    if s != [] {
      OrderMeaning(browse, h, s[0]);
      InsertMeaning(browse, h, s[1..]);
    }
  }

  lemma {:induction false} SortMeaning(browse: bool, s: seq<Hit>)
    ensures OrderBy(Order(browse), s) == Sort(browse, s)
  {
    if s != [] {
      SortMeaning(browse, s[1..]);
      InsertMeaning(browse, s[0], Sort(browse, s[1..]));
    }
  }

  /** The compiled query, with its arguments, means the search: for every list of attached
      shards, either mode, any filters and any cursor, holes and arguments line up and the
      rows are the first limit + 1 wanted hits beyond the cursor, in order. */
  lemma QueryMeaning(e: Engine, rq: Request, disk: Disk, db: Database, dates: seq<DateName>,
                     cursor: Option<Cursor>, limit: nat)
    requires Attached(db, SourcesOf(disk, dates)) && WellFormed(SourcesOf(disk, dates))
    ensures |CompiledArgs(rq, |dates|, cursor, limit)| == QueryHoles(Compiled(rq, dates, cursor))
    ensures EvalQuery(e, db, Compiled(rq, dates, cursor), CompiledArgs(rq, |dates|, cursor, limit))
         == Take(Beyond(rq.browse, Ranked(e, rq, SourcesOf(disk, dates)), cursor), limit + 1)
  {
    var hits, q := Matching(e, rq, SourcesOf(disk, dates)), Compiled(rq, dates, cursor);
    UnionMeaning(e, rq, disk, db, dates);
    OuterMeaning(rq.browse, cursor, hits);
    EvalSplit(e, db, q, UnionArgs(rq, |dates|), OuterArgs(rq.browse, cursor), Integer(limit + 1),
              CompiledArgs(rq, |dates|, cursor, limit));
    PartsMeaning(e, db, q, UnionArgs(rq, |dates|), OuterArgs(rq.browse, cursor), rq.browse,
                 hits, Kept(rq.browse, hits, cursor), limit + 1);
    KeptIsBeyond(e, rq, SourcesOf(disk, dates), cursor);
  }

  /** The hits that pass the outer WHERE. */
  function Kept(browse: bool, hits: seq<Hit>, cursor: Option<Cursor>): seq<Hit> {
    if cursor.Some? then After(browse, hits, CursorPosition(cursor.value)) else hits
  }

  lemma PartsMeaning(e: Engine, db: Database, q: Query, a: seq<Value>, b: seq<Value>, browse: bool,
                     hits: seq<Hit>, kept: seq<Hit>, n: nat)
    requires |a| == UnionHoles(q.selects) && |b| == WhereHoles(q.where) && q.order == Order(browse)
    requires EvalUnion(e, db, q.selects, a) == hits && EvalWhere(q.where, hits, b) == kept
    ensures EvalParts(e, db, q, a, b, Integer(n)) == Take(Sort(browse, kept), n)
  {
    SortMeaning(browse, kept);
  }

  lemma KeptIsBeyond(e: Engine, rq: Request, sources: seq<Source>, cursor: Option<Cursor>)
    requires WellFormed(sources)
    ensures Sort(rq.browse, Kept(rq.browse, Matching(e, rq, sources), cursor))
         == Beyond(rq.browse, Ranked(e, rq, sources), cursor)
  {
    if cursor.Some? {
      MatchingDistinct(e, rq, sources);
      BeyondIsFilter(rq.browse, Matching(e, rq, sources), CursorPosition(cursor.value));
    }
  }

  lemma EvalSplit(e: Engine, db: Database, q: Query, a: seq<Value>, b: seq<Value>, v: Value, args: seq<Value>)
    requires |a| == UnionHoles(q.selects) && |b| == WhereHoles(q.where) && args == a + (b + [v])
    ensures |args| == QueryHoles(q) && EvalQuery(e, db, q, args) == EvalParts(e, db, q, a, b, v)
  {
    ArgsSplit(a, b, v);
  }

  lemma ArgsSplit(a: seq<Value>, b: seq<Value>, v: Value)
    ensures var args := a + (b + [v]);
      args[..|a|] == a && args[|a|..|a| + |b|] == b && args[|a| + |b|] == v && |args| == |a| + |b| + 1
  {
  }

  // ---- distinct aliases ----

  /** The attached shards have different aliases, so a result row's (shard, rowid) is unique. */
  lemma SourcesWellFormed(disk: Disk, broken: set<string>, opts: Options)
    requires forall d: string :: IdsAscend(TableAt(disk, d))
    ensures WellFormed(Sources(disk, broken, opts))
  {
    var dates := DatesOf(disk.Keys, opts);
    DatesAliases(disk.Keys, opts);
    AttachedAliases(dates, broken);
  }

  predicate AliasesDiffer(dates: seq<DateName>) {
    forall i, j :: 0 <= i < j < |dates| ==> AliasOf(dates[i]) != AliasOf(dates[j])
  }

  lemma DatesAliases(files: set<string>, opts: Options)
    ensures AliasesDiffer(DatesOf(files, opts))
  {
    var days := Latest(ShardDays(Present(files), opts.start, opts.end), MAX_ATTACHED);
    LatestDates(files, opts.start, opts.end);
    CapKeepsLatest(Present(files), opts.start, opts.end);
    forall i, j | 0 <= i < j < |days| ensures Alias(Name(days[i])) != Alias(Name(days[j])) {
      AliasOrder(days[i], days[j]);
    }
  }

  lemma {:induction false} AttachedAliases(dates: seq<DateName>, broken: set<string>)
    requires AliasesDiffer(dates)
    ensures AliasesDiffer(AttachedOf(dates, broken))
    ensures forall d :: d in AttachedOf(dates, broken) <==> d in dates && d !in broken
  {
    if dates != [] {
      var rest := AttachedOf(dates[1..], broken);
      AttachedAliases(dates[1..], broken);
      forall j | 0 <= j < |rest| ensures AliasOf(dates[0]) != AliasOf(rest[j]) {
        assert rest[j] in dates[1..];
        var k :| 0 <= k < |dates| - 1 && dates[1..][k] == rest[j];
        assert dates[k + 1] == rest[j];
      }
      assert dates == [dates[0]] + dates[1..];
    }
  }

  // ---- the method ----

  /** One shard's optional conditions and their arguments, side by side. */
  method BuildConditions(rq: Request) returns (conditions: seq<Pred>, condArgs: seq<Value>)
    ensures conditions == Conditions(rq) && condArgs == ConditionArgs(rq)
  {
    conditions, condArgs := [], [];
    if rq.levels.Some? {
      var levels := rq.levels.value;
      for k := 0 to |levels|
        invariant condArgs == Texts(levels[..k])
      {
        TextsAppend(levels[..k], levels[k]);
        assert levels[..k + 1] == levels[..k] + [levels[k]];
        condArgs := condArgs + [Str(levels[k])];
      }
      assert levels[..|levels|] == levels;
      conditions := conditions + [In(Level, |levels|)];
    }
    if rq.pod != "" {
      conditions := conditions + [Cmp(Pod, Eq)];
      condArgs := condArgs + [Str(rq.pod)];
    }
  }

  /** One shard's WHERE clause; its arguments go to the end of the list. */
  method BuildWhere(rq: Request, args: seq<Value>) returns (where: seq<Pred>, args': seq<Value>)
    ensures where == Where(rq) && args' == args + WhereArgs(rq)
  {
    var conditions, condArgs := BuildConditions(rq);
    args' := args;
    if rq.browse {
      where := conditions;
      assert [] + conditions == conditions && [] + condArgs == condArgs;
      if |conditions| > 0 {
        args' := args' + condArgs;
      }
    } else {
      where := [Match];
      args' := args' + [Str(rq.text)];
      for k := 0 to |conditions|
        invariant where == [Match] + conditions[..k]
      {
        where := where + [conditions[k]];
      }
      assert conditions[..|conditions|] == conditions;
      assert args + [Str(rq.text)] + condArgs == args + ([Str(rq.text)] + condArgs);
      args' := args' + condArgs;
    }
  }

  /** Attaches the shards one by one and collects a SELECT and its arguments for each. */
  method BuildUnion(disk: Disk, broken: set<string>, dates: seq<DateName>, rq: Request)
    returns (db: Database, selects: seq<Select>, args: seq<Value>)
    requires AliasesDiffer(dates)
    ensures selects == SelectsOf(rq, AttachedOf(dates, broken))
    ensures args == UnionArgs(rq, |AttachedOf(dates, broken)|)
    ensures Attached(db, SourcesOf(disk, AttachedOf(dates, broken)))
  {
    selects, args, db := [], [], map[];
    ghost var attached: seq<DateName> := [];
    for i := 0 to |dates|
      invariant attached == AttachedOf(dates[..i], broken)
      invariant selects == SelectsOf(rq, attached) && args == UnionArgs(rq, |attached|)
      invariant Loaded(db, disk, attached)
    {
      var date := dates[i];
      AttachedAppend(dates[..i], date, broken);
      assert dates[..i + 1] == dates[..i] + [date];
      if date in broken {
        continue;
      }
      var alias := AliasOf(date);
      AttachedBefore(dates, i, broken);
      LoadedMore(db, disk, attached, date);
      db := db[alias := TableAt(disk, date)];
      var where: seq<Pred>;
      where, args := BuildWhere(rq, args);
      SelectsAppend(rq, attached, date);
      UnionArgsAppend(rq, |attached|);
      selects := selects + [Select(alias, alias, rq.browse, where)];
      attached := attached + [date];
    }
    assert dates[..|dates|] == dates;
    LoadedIsAttached(db, disk, attached);
  }

  lemma LoadedMore(db: Database, disk: Disk, dates: seq<DateName>, date: DateName)
    requires Loaded(db, disk, dates) && forall k :: 0 <= k < |dates| ==> AliasOf(dates[k]) != AliasOf(date)
    ensures Loaded(db[AliasOf(date) := TableAt(disk, date)], disk, dates + [date])
  {
  }

  lemma LoadedIsAttached(db: Database, disk: Disk, dates: seq<DateName>)
    requires Loaded(db, disk, dates)
    ensures Attached(db, SourcesOf(disk, dates))
  {
  }

  ghost predicate Loaded(db: Database, disk: Disk, dates: seq<DateName>) {
    forall i :: 0 <= i < |dates| ==> AliasOf(dates[i]) in db && db[AliasOf(dates[i])] == TableAt(disk, dates[i])
  }

  /** The whole query and its arguments, in the order of the text. */
  method BuildQuery(disk: Disk, broken: set<string>, dates: seq<DateName>, rq: Request,
                    cursor: Option<Cursor>, limit: nat)
    returns (db: Database, query: Query, args: seq<Value>)
    requires AliasesDiffer(dates)
    ensures query == Compiled(rq, AttachedOf(dates, broken), cursor)
    ensures args == CompiledArgs(rq, |AttachedOf(dates, broken)|, cursor, limit)
    ensures Attached(db, SourcesOf(disk, AttachedOf(dates, broken)))
  {
    var selects: seq<Select>, unionArgs: seq<Value>;
    db, selects, unionArgs := BuildUnion(disk, broken, dates, rq);
    var outer, outerArgs := BuildOuter(rq.browse, cursor);
    var order := if rq.browse then [Desc(Shard), Desc(RowId)] else [Asc(RankColumn), Asc(Shard), Asc(RowId)];
    args := unionArgs + (outerArgs + [Integer(limit + 1)]);
    query := Query(selects, outer, order);
  }

  /** The condition on the cursor, and its arguments. */
  method BuildOuter(browse: bool, cursor: Option<Cursor>) returns (outer: Option<Pred>, args: seq<Value>)
    ensures outer == OuterWhere(browse, cursor) && args == OuterArgs(browse, cursor)
  {
    outer, args := None, [];
    if cursor.Some? && browse {
      outer := Some(Or(Cmp(Shard, Lt), And(Cmp(Shard, Eq), Cmp(RowId, Lt))));
      args := [Str(cursor.value.shard), Str(cursor.value.shard), Integer(cursor.value.rowid)];
    } else if cursor.Some? {
      outer := Some(Or(Cmp(RankColumn, Gt),
                       And(Cmp(RankColumn, Eq), Or(Cmp(Shard, Gt), And(Cmp(Shard, Eq), Cmp(RowId, Gt))))));
      var rank := Real(RealOf(cursor.value.rank));
      args := [rank, rank, Str(cursor.value.shard), Str(cursor.value.shard), Integer(cursor.value.rowid)];
    }
  }

  lemma {:induction false} AttachedAppend(dates: seq<DateName>, d: DateName, broken: set<string>)
    ensures AttachedOf(dates + [d], broken) == AttachedOf(dates, broken) + (if d in broken then [] else [d])
  {
    if dates == [] {
      assert dates + [d] == [d];
    } else {
      AttachedAppend(dates[1..], d, broken);
      assert (dates + [d])[1..] == dates[1..] + [d];
    }
  }

  lemma AttachedBefore(dates: seq<DateName>, i: nat, broken: set<string>)
    requires i < |dates| && AliasesDiffer(dates)
    ensures var before := AttachedOf(dates[..i], broken);
      forall k :: 0 <= k < |before| ==> AliasOf(before[k]) != AliasOf(dates[i])
  {
    AttachedAliases(dates[..i], broken);
    var before := AttachedOf(dates[..i], broken);
    forall k | 0 <= k < |before| ensures AliasOf(before[k]) != AliasOf(dates[i]) {
      assert before[k] in dates[..i];
      var j :| 0 <= j < i && dates[..i][j] == before[k];
      assert AliasOf(dates[j]) != AliasOf(dates[i]);
    }
  }

  lemma {:induction false} TextsAppend(ss: seq<string>, s: string)
    ensures Texts(ss + [s]) == Texts(ss) + [Str(s)]
  {
  }

  lemma {:induction false} SelectsAppend(rq: Request, dates: seq<DateName>, d: DateName)
    ensures SelectsOf(rq, dates + [d]) == SelectsOf(rq, dates) + [SelectOf(rq, AliasOf(d))]
  {
    if dates == [] {
      assert dates + [d] == [d];
    } else {
      SelectsAppend(rq, dates[1..], d);
      assert (dates + [d])[1..] == dates[1..] + [d];
    }
  }

  lemma {:induction false} UnionArgsAppend(rq: Request, n: nat)
    ensures UnionArgs(rq, n + 1) == UnionArgs(rq, n) + WhereArgs(rq)
  {
    if n > 0 { UnionArgsAppend(rq, n - 1); }
  }

  /** A context that ends after the search has begun, but before the first ATTACH, makes all of
      them fail: they are skipped, and the answer is an empty page and no error. */
  lemma ExpiredSearchIsEmpty(e: Engine, disk: Disk, broken: set<string>, opts: Options)
    requires CursorOf(opts.cursor).Ok? && forall d :: d in DatesOf(disk.Keys, opts) ==> d in broken
    ensures AttachedOf(DatesOf(disk.Keys, opts), broken) == [] && Searched(e, disk, broken, opts) == Ok(Page([], ""))
  {
    var rq, dates := RequestOf(opts), DatesOf(disk.Keys, opts);
    NoneAttached(dates, broken);
    assert Sources(disk, broken, opts) == [];
    NothingBeyond(e, rq, CursorOf(opts.cursor).value);
  }

  lemma {:induction false} NoneAttached(dates: seq<DateName>, broken: set<string>)
    requires forall d :: d in dates ==> d in broken
    ensures AttachedOf(dates, broken) == []
  {
    if dates != [] { NoneAttached(dates[1..], broken); }
  }

  lemma NothingBeyond(e: Engine, rq: Request, cursor: Option<Cursor>)
    ensures Beyond(rq.browse, Ranked(e, rq, []), cursor) == []
  {
  }

  /** `Store.Search`, on the files present, those of them that fail to ATTACH being skipped. The
      context may be cancelled before anything is done, and the query itself may fail. */
  method SearchStore(e: Engine, disk: Disk, broken: set<string>, opts: Options,
                     cancelled: bool, failure: Option<string>)
    returns (r: Result<Page>)
    requires forall d: string :: IdsAscend(TableAt(disk, d))
    ensures cancelled ==> r == Err("context canceled")
    ensures !cancelled && failure.None? ==> r == Searched(e, disk, broken, opts)
    ensures !cancelled && failure.Some? ==>
      r == if CursorOf(opts.cursor).Ok? && AttachedOf(DatesOf(disk.Keys, opts), broken) != [] then Err(failure.value)
           else Searched(e, disk, broken, opts)
    ensures !cancelled && DatesOf(disk.Keys, opts) != [] && opts.cursor != "" && DecodeCursor(opts.cursor).Err? ==>
      r == Err(DecodeCursor(opts.cursor).error)
    ensures !cancelled && DatesOf(disk.Keys, opts) == [] ==> r == Ok(Page([], ""))
    ensures r.Ok? ==> |r.value.results| <= (if 1 <= opts.limit <= 500 then opts.limit else 500)
    ensures r.Ok? && r.value.next != "" ==> |r.value.results| == if 1 <= opts.limit <= 500 then opts.limit else 500
  {
    if cancelled {
      return Err("context canceled");
    }
    var limit := opts.limit;
    if limit <= 0 || limit > 500 {
      limit := 500;
    }
    var browse := opts.query == "";
    var text := MatchQuery.SanitizeMatchQuery(opts.query);
    var found, capped := ExistingShardDates(disk.Keys, opts.start, opts.end);
    DatesArePlain(disk.Keys, opts);
    var dates: seq<DateName> := found;
    if |dates| == 0 {
      return Ok(Page([], ""));
    }
    var cursor := None;
    if opts.cursor != "" {
      var decoded := DecodeCursor(opts.cursor);
      if decoded.Err? {
        return Err(decoded.error);
      }
      cursor := Some(decoded.value);
    }
    var rq := Request(browse, text, LevelsAtOrAbove(opts.minLevel), opts.pod);
    DatesAliases(disk.Keys, opts);
    SourcesWellFormed(disk, broken, opts);
    r := QueryPage(e, disk, broken, dates, rq, cursor, limit, failure);
  }

  /** Builds the query, has SQLite run it and reads the page. */
  method QueryPage(e: Engine, disk: Disk, broken: set<string>, dates: seq<DateName>, rq: Request,
                   cursor: Option<Cursor>, limit: nat, failure: Option<string>) returns (r: Result<Page>)
    requires limit >= 1 && AliasesDiffer(dates) && WellFormed(SourcesOf(disk, AttachedOf(dates, broken)))
    ensures failure.Some? && AttachedOf(dates, broken) != [] ==> r == Err(failure.value)
    ensures failure.None? || AttachedOf(dates, broken) == [] ==> r == Ok(PageOf(rq.browse,
      Beyond(rq.browse, Ranked(e, rq, SourcesOf(disk, AttachedOf(dates, broken))), cursor), limit))
    ensures r.Ok? ==> |r.value.results| <= limit && (r.value.next != "" ==> |r.value.results| == limit)
  {
    ghost var attached := AttachedOf(dates, broken);
    ghost var beyond := Beyond(rq.browse, Ranked(e, rq, SourcesOf(disk, attached)), cursor);
    var db, query, args := BuildQuery(disk, broken, dates, rq, cursor, limit);
    QueryMeaning(e, rq, disk, db, attached, cursor, limit);
    SelectsEmpty(rq, attached);
    if |query.selects| == 0 {
      NoSources(rq, attached, e, disk, cursor);
      return Ok(Page([], ""));
    }
    if failure.Some? {
      return Err(failure.value);
    }
    var raw := EvalQuery(e, db, query, args);
    var page := ReadPage(rq.browse, raw, limit, beyond);
    return Ok(page);
  }

  lemma SelectsEmpty(rq: Request, dates: seq<DateName>)
    ensures SelectsOf(rq, dates) == [] <==> dates == []
  {
  }

  lemma FirstResults(browse: bool, raw: seq<Hit>, beyond: seq<Hit>, limit: nat, results: seq<SearchResult>)
    requires limit >= 1 && raw == Take(beyond, limit + 1) && |results| == (if |raw| > limit then limit else |raw|)
    requires forall k :: 0 <= k < |results| ==> results[k] == ResultOf(raw[k])
    ensures results == Results(Take(beyond, limit))
    ensures |raw| > limit <==> |beyond| > limit
    ensures |raw| > limit ==> raw[limit - 1] == beyond[limit - 1]
  {
  }

  /** Reads limit + 1 rows into a page of at most limit results; the extra row only tells
      that there is a next page. */
  method ReadPage(browse: bool, raw: seq<Hit>, limit: nat, ghost beyond: seq<Hit>) returns (page: Page)
    requires limit >= 1 && raw == Take(beyond, limit + 1)
    ensures page == PageOf(browse, beyond, limit)
  {
    var n := |raw|;
    if n > limit {
      n := limit;
    }
    var results := ResultsUpTo(raw, n);
    FirstResults(browse, raw, beyond, limit, results);
    var next := "";
    if |raw| > limit {
      var last := raw[limit - 1];
      next := EncodeCursor(Cursor(browse, last.rank, last.shard, last.rowid));
    }
    page := Page(results, next);
  }

  method ResultsUpTo(raw: seq<Hit>, n: nat) returns (results: seq<SearchResult>)
    requires n <= |raw|
    ensures |results| == n && forall k :: 0 <= k < n ==> results[k] == ResultOf(raw[k])
  {
    results := [];
    for i := 0 to n
      invariant |results| == i && forall k :: 0 <= k < i ==> results[k] == ResultOf(raw[k])
    {
      results := results + [ResultOf(raw[i])];
    }
  }

  lemma NoSources(rq: Request, dates: seq<DateName>, e: Engine, disk: Disk, cursor: Option<Cursor>)
    requires SelectsOf(rq, dates) == []
    ensures Beyond(rq.browse, Ranked(e, rq, SourcesOf(disk, dates)), cursor) == []
  {
  }
}
