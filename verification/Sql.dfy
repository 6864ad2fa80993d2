/** The fragment of SQL that a search is compiled to, and what SQLite makes of it. Every `?`
    is a hole; the arguments fill the holes from left to right in the order of the text. */
module Sql {
  import opened Text
  import opened Cursor

  datatype Row = Row(rowid: int64, pod: string, namespace: string, container: string,
                     timestamp: string, level: string, line: string)

  type Table = seq<Row>

  /** A row of the inner SELECTs' common shape. */
  datatype Hit = Hit(pod: string, namespace: string, container: string, timestamp: string, level: string,
                     snip: string, rank: Rank, shard: ShardName, rowid: int64)

  /** FTS5: which rows a query matches, and bm25() and snippet() of a match, all depending on
      the whole table. Arbitrary functions. */
  datatype Engine = Engine(matches: (Table, string, Row) -> bool,
                           rank: (Table, string, Row) -> Rank,
                           snippet: (Table, string, Row) -> string)

  datatype Value = Integer(n: int) | Real(r: real) | Str(s: string)

  datatype Column = Pod | Level | RankColumn | Shard | RowId

  datatype Op = Eq | Lt | Gt

  /** `fts MATCH ?`, `col IN (?,...,?)`, `col op ?` and their combinations. */
  datatype Pred =
    | Match
    | In(col: Column, n: nat)
    | Cmp(col: Column, op: Op)
    | And(left: Pred, right: Pred)
    | Or(left: Pred, right: Pred)

  /** `SELECT ..., 'shard' AS shard FROM schema.fts WHERE where[0] AND where[1] ...`: with the
      line itself and rank 0 when browsing, with snippet() and bm25() otherwise. */
  datatype Select = Select(schema: string, shard: ShardName, browse: bool, where: seq<Pred>)

  datatype Key = Asc(col: Column) | Desc(col: Column)

  /** `SELECT ... FROM (select UNION ALL ... ) WHERE where ORDER BY order LIMIT ?` */
  datatype Query = Query(selects: seq<Select>, where: Option<Pred>, order: seq<Key>)

  // ---- holes ----

  function Holes(p: Pred): nat {
    match p
    case Match => 1
    case In(_, n) => n
    case Cmp(_, _) => 1
    case And(l, r) => Holes(l) + Holes(r)
    case Or(l, r) => Holes(l) + Holes(r)
  }

  function ConjunctionHoles(ps: seq<Pred>): nat {
    if ps == [] then 0 else Holes(ps[0]) + ConjunctionHoles(ps[1..])
  }

  function UnionHoles(selects: seq<Select>): nat {
    if selects == [] then 0 else ConjunctionHoles(selects[0].where) + UnionHoles(selects[1..])
  }

  function WhereHoles(where: Option<Pred>): nat { if where.Some? then Holes(where.value) else 0 }

  function QueryHoles(q: Query): nat { UnionHoles(q.selects) + WhereHoles(q.where) + 1 }

  // ---- evaluation ----

  /** SQLite's order of values: numbers by value, all before any text. */
  predicate ValueLess(a: Value, b: Value) {
    match (a, b)
    case (Str(s), Str(t)) => Less(s, t)
    case (Str(_), _) => false
    case (_, Str(_)) => true
    case (x, y) => Numeric(x) < Numeric(y)
  }

  predicate ValueEqual(a: Value, b: Value) {
    if a.Str? || b.Str? then a == b else Numeric(a) == Numeric(b)
  }

  function Numeric(v: Value): real
    requires !v.Str?
  {
    if v.Integer? then v.n as real else v.r
  }

  function ColumnOf(h: Hit, col: Column): Value {
    match col
    case Pod => Str(h.pod)
    case Level => Str(h.level)
    case RankColumn => Real(RealOf(h.rank))
    case Shard => Str(h.shard)
    case RowId => Integer(h.rowid)
  }

  predicate Compare(op: Op, a: Value, b: Value) {
    match op
    case Eq => ValueEqual(a, b)
    case Lt => ValueLess(a, b)
    case Gt => ValueLess(b, a)
  }

  function TextArgument(v: Value): string { if v.Str? then v.s else "" }

  predicate Holds(p: Pred, h: Hit, matches: string -> bool, args: seq<Value>)
    requires |args| == Holes(p)
  {
    match p
    case Match => matches(TextArgument(args[0]))
    case In(col, n) => exists i :: 0 <= i < n && ValueEqual(ColumnOf(h, col), args[i])
    case Cmp(col, op) => Compare(op, ColumnOf(h, col), args[0])
    case And(l, r) => Holds(l, h, matches, args[..Holes(l)]) && Holds(r, h, matches, args[Holes(l)..])
    case Or(l, r) => Holds(l, h, matches, args[..Holes(l)]) || Holds(r, h, matches, args[Holes(l)..])
  }

  predicate AllHold(ps: seq<Pred>, h: Hit, matches: string -> bool, args: seq<Value>)
    requires |args| == ConjunctionHoles(ps)
  {
    ps == [] ||
    (Holds(ps[0], h, matches, args[..Holes(ps[0])]) && AllHold(ps[1..], h, matches, args[Holes(ps[0])..]))
  }

  /** The output columns of one row; `text` is what the SELECT's MATCH is bound to. */
  function Project(e: Engine, table: Table, row: Row, shard: ShardName, browse: bool, text: string): Hit {
    Hit(row.pod, row.namespace, row.container, row.timestamp, row.level,
        if browse then row.line else e.snippet(table, text, row),
        if browse then Zero(false) else e.rank(table, text, row), shard, row.rowid)
  }

  /** The text bound to a SELECT's MATCH, which comes first. */
  function MatchText(args: seq<Value>): string { if args == [] then "" else TextArgument(args[0]) }

  function EvalRows(e: Engine, table: Table, rows: seq<Row>, sel: Select, args: seq<Value>): seq<Hit>
    requires |args| == ConjunctionHoles(sel.where)
  {
    if rows == [] then [] else
    var h := Project(e, table, rows[0], sel.shard, sel.browse, MatchText(args));
    (if AllHold(sel.where, h, text => e.matches(table, text, rows[0]), args) then [h] else [])
    + EvalRows(e, table, rows[1..], sel, args)
  }

  /** The attached databases, by schema name. */
  type Database = map<string, Table>

  function TableOf(db: Database, schema: string): Table { if schema in db then db[schema] else [] }

  function EvalUnion(e: Engine, db: Database, selects: seq<Select>, args: seq<Value>): seq<Hit>
    requires |args| == UnionHoles(selects)
  {
    if selects == [] then [] else
    var n := ConjunctionHoles(selects[0].where);
    var table := TableOf(db, selects[0].schema);
    EvalRows(e, table, table, selects[0], args[..n]) + EvalUnion(e, db, selects[1..], args[n..])
  }

  function EvalWhere(where: Option<Pred>, hits: seq<Hit>, args: seq<Value>): seq<Hit>
    requires |args| == WhereHoles(where)
  {
    if hits == [] then [] else
    (if where.None? || Holds(where.value, hits[0], text => false, args) then [hits[0]] else [])
    + EvalWhere(where, hits[1..], args)
  }

  predicate OrderedBefore(order: seq<Key>, a: Hit, b: Hit) {
    if order == [] then false else
    var x, y := ColumnOf(a, order[0].col), ColumnOf(b, order[0].col);
    (if order[0].Asc? then ValueLess(x, y) else ValueLess(y, x))
    || (ValueEqual(x, y) && OrderedBefore(order[1..], a, b))
  }

  function InsertOrdered(order: seq<Key>, h: Hit, s: seq<Hit>): seq<Hit> {
    if s == [] || OrderedBefore(order, h, s[0]) then [h] + s else [s[0]] + InsertOrdered(order, h, s[1..])
  }

  function OrderBy(order: seq<Key>, s: seq<Hit>): seq<Hit> {
    if s == [] then [] else InsertOrdered(order, s[0], OrderBy(order, s[1..]))
  }

  function Take<T>(s: seq<T>, n: int): seq<T> { if 0 <= n < |s| then s[..n] else s }

  /** A negative LIMIT, like one that is not a number here, does not limit. */
  function Limit(v: Value): int { if v.Integer? then v.n else -1 }

  function EvalQuery(e: Engine, db: Database, q: Query, args: seq<Value>): seq<Hit>
    requires |args| == QueryHoles(q)
  {
    var u, w := UnionHoles(q.selects), WhereHoles(q.where);
    EvalParts(e, db, q, args[..u], args[u..u + w], args[u + w])
  }

  function EvalParts(e: Engine, db: Database, q: Query, a: seq<Value>, b: seq<Value>, limit: Value): seq<Hit>
    requires |a| == UnionHoles(q.selects) && |b| == WhereHoles(q.where)
  {
    Take(OrderBy(q.order, EvalWhere(q.where, EvalUnion(e, db, q.selects, a), b)), Limit(limit))
  }
}
