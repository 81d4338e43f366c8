/** The logical plan of a statement and the rewrite rules on plans. */
module Plans {
  import opened Options
  import opened Ast
  import opened Folding

  datatype ScanOp = ScanOp(
    table: string, pred: Option<Expr>, projection: Option<seq<string>>,
    partitions: seq<nat>, limit: Option<nat>)

  datatype Aggregate = AggregateExpr(func: string, arg: Option<Expr>, alias: string)

  datatype Plan =
    | ScanPlan(op: ScanOp)
    | FilterPlan(pred: Expr, input: Plan)
    | ProjectPlan(columns: seq<string>, input: Plan)
    | GroupPlan(groupKeys: seq<Expr>, aggregates: seq<Aggregate>, input: Plan)
    | SortPlan(keys: seq<OrderByItem>, input: Plan)
    | LimitPlan(n: nat, offset: nat, input: Plan)
    | JoinPlan(kind: JoinKind, left: Plan, right: Plan, condition: Expr)

  // ----- The planner -----

  const AGGREGATE_FUNCTIONS := ["count", "sum", "avg", "min", "max"]

  function AggregateOf(p: Projection): seq<Aggregate> {
    if p.ExprProjection? && p.expr.Func? && ToLower(p.expr.fname) in AGGREGATE_FUNCTIONS then
      [AggregateExpr(ToLower(p.expr.fname), if p.expr.args == [] then None else Some(p.expr.args[0]),
                     match p.alias case Some(a) => a case None => p.expr.fname)]
    else []
  }

  function Aggregates(ps: seq<Projection>): seq<Aggregate> {
    if ps == [] then [] else Aggregates(ps[..|ps| - 1]) + AggregateOf(ps[|ps| - 1])
  }

  function ColumnOf(p: Projection): seq<string> {
    if p.ExprProjection? then
      match p.alias
      case Some(a) => [a]
      case None => if p.expr.Column? then [p.expr.name] else []
    else []
  }

  function Columns(ps: seq<Projection>): seq<string> {
    if ps == [] then [] else Columns(ps[..|ps| - 1]) + ColumnOf(ps[|ps| - 1])
  }

  function BareScan(table: string, limit: Option<nat>): Plan { ScanPlan(ScanOp(table, None, None, [], limit)) }

  function Joined(base: Plan, joins: seq<JoinClause>): Plan {
    if joins == [] then base else
      var j := joins[|joins| - 1];
      JoinPlan(j.kind, Joined(base, joins[..|joins| - 1]), BareScan(j.table.name, None), j.condition)
  }

  function Filtered(e: Option<Expr>, plan: Plan): Plan {
    match e case None => plan case Some(p) => FilterPlan(p, plan)
  }

  /** The scan always carries the bare LIMIT; an OFFSET without LIMIT is ignored. */
  function Planned(sel: Select): Plan {
    var base := Joined(BareScan(sel.from.name, sel.limit), sel.joins);
    var where := Filtered(sel.filter, base);
    var aggs := Aggregates(sel.projections);
    var grouped := if aggs != [] || sel.groupBy != [] then GroupPlan(sel.groupBy, aggs, where) else where;
    var having := Filtered(sel.having, grouped);
    var columns := Columns(sel.projections);
    var projected := if columns != [] then ProjectPlan(columns, having) else having;
    var sorted := if sel.orderBy != [] then SortPlan(sel.orderBy, projected) else projected;
    match sel.limit
    case None => sorted
    case Some(n) => LimitPlan(n, match sel.offset case Some(o) => o case None => 0, sorted)
  }

  method ExtractAggregates(ps: seq<Projection>) returns (aggs: seq<Aggregate>)
    ensures aggs == Aggregates(ps)
  {
    aggs := [];
    for i := 0 to |ps|
      invariant aggs == Aggregates(ps[..i])
    {
      assert ps[..i + 1][..i] == ps[..i];
      if ps[i].ExprProjection? && ps[i].expr.Func? {
        var name := ToLower(ps[i].expr.fname);
        if name in AGGREGATE_FUNCTIONS {
          var alias := match ps[i].alias case Some(a) => a case None => ps[i].expr.fname;
          var arg := if ps[i].expr.args == [] then None else Some(ps[i].expr.args[0]);
          aggs := aggs + [AggregateExpr(name, arg, alias)];
        }
      }
    }
    assert ps[..|ps|] == ps;
  }

  method ProjectedColumns(ps: seq<Projection>) returns (columns: seq<string>)
    ensures columns == Columns(ps)
  {
    columns := [];
    for i := 0 to |ps|
      invariant columns == Columns(ps[..i])
    {
      assert ps[..i + 1][..i] == ps[..i];
      columns := columns + ColumnOf(ps[i]);
    }
    assert ps[..|ps|] == ps;
  }

  method PlanSelect(sel: Select) returns (plan: Plan)
    ensures plan == Planned(sel)
  {
    plan := BareScan(sel.from.name, sel.limit);
    for i := 0 to |sel.joins|
      invariant plan == Joined(BareScan(sel.from.name, sel.limit), sel.joins[..i])
    {
      assert sel.joins[..i + 1][..i] == sel.joins[..i];
      var j := sel.joins[i];
      plan := JoinPlan(j.kind, plan, BareScan(j.table.name, None), j.condition);
    }
    assert sel.joins[..|sel.joins|] == sel.joins;
    if sel.filter.Some? { plan := FilterPlan(sel.filter.value, plan); }
    var aggs := ExtractAggregates(sel.projections);
    if aggs != [] || sel.groupBy != [] { plan := GroupPlan(sel.groupBy, aggs, plan); }
    if sel.having.Some? { plan := FilterPlan(sel.having.value, plan); }
    var columns := ProjectedColumns(sel.projections);
    if columns != [] { plan := ProjectPlan(columns, plan); }
    if sel.orderBy != [] { plan := SortPlan(sel.orderBy, plan); }
    if sel.limit.Some? {
      plan := LimitPlan(sel.limit.value, match sel.offset case Some(o) => o case None => 0, plan);
    }
  }

  // ----- The rewrite rules -----

  function FoldPlan(now: int, plan: Plan): Plan {
    match plan
    case ScanPlan(op) => ScanPlan(op.(pred := match op.pred case None => None case Some(p) => Some(FoldExpr(now, p))))
    case FilterPlan(p, input) => FilterPlan(FoldExpr(now, p), FoldPlan(now, input))
    case ProjectPlan(columns, input) => ProjectPlan(columns, FoldPlan(now, input))
    case GroupPlan(keys, aggs, input) => GroupPlan(keys, aggs, FoldPlan(now, input))
    case SortPlan(keys, input) => SortPlan(keys, FoldPlan(now, input))
    case LimitPlan(n, offset, input) => LimitPlan(n, offset, FoldPlan(now, input))
    case JoinPlan(kind, l, r, c) => JoinPlan(kind, FoldPlan(now, l), FoldPlan(now, r), c)
  }

  /** A filter directly above a scan replaces the predicate of the scan. */
  function Pushdown(plan: Plan): Plan {
    match plan
    case ScanPlan(_) => plan
    case FilterPlan(p, input) =>
      var below := Pushdown(input);
      if below.ScanPlan? then ScanPlan(below.op.(pred := Some(p))) else FilterPlan(p, below)
    case ProjectPlan(columns, input) => ProjectPlan(columns, Pushdown(input))
    case GroupPlan(keys, aggs, input) => GroupPlan(keys, aggs, Pushdown(input))
    case SortPlan(keys, input) => SortPlan(keys, Pushdown(input))
    case LimitPlan(n, offset, input) => LimitPlan(n, offset, Pushdown(input))
    case JoinPlan(kind, l, r, c) => JoinPlan(kind, Pushdown(l), Pushdown(r), c)
  }

  function PushProjection(plan: Plan): Plan {
    match plan
    case ScanPlan(_) => plan
    case FilterPlan(p, input) => FilterPlan(p, PushProjection(input))
    case ProjectPlan(columns, input) =>
      var below := PushProjection(input);
      ProjectPlan(columns,
        if below.ScanPlan? && below.op.projection.None? then ScanPlan(below.op.(projection := Some(columns))) else below)
    case GroupPlan(keys, aggs, input) => GroupPlan(keys, aggs, PushProjection(input))
    case SortPlan(keys, input) => SortPlan(keys, PushProjection(input))
    case LimitPlan(n, offset, input) => LimitPlan(n, offset, PushProjection(input))
    case JoinPlan(kind, l, r, c) => JoinPlan(kind, PushProjection(l), PushProjection(r), c)
  }

  predicate IsTimestamp(e: Expr) { e.Column? && e.name == "timestamp_ns" }

  /** A time range as it is cast, with the literal each end came from */
  datatype Range = Range(low: Option<int>, high: Option<int>) {

    function Start(): nat { match low case None => 0 case Some(n) => n % TWO64 }

    function End(): nat { match high case None => TWO64 - 1 case Some(n) => n % TWO64 }
  }

  /** The range a predicate confines timestamps to: of a conjunction of two ranges, the
      start of the left one and the end of the right one. */
  function TimeRange(e: Expr): Option<Range> {
    match e
    case Bin(op, l, r) =>
      if op == AndOp then
        match (TimeRange(l), TimeRange(r))
        case (Some(a), Some(b)) => Some(Range(a.low, b.high))
        case (Some(a), None) => Some(a)
        case (None, x) => x
      else if op == GtEqOp && IsTimestamp(l) && IsIntLit(r) then Some(Range(Some(r.lit.n), None))
      else if op == LtEqOp && IsTimestamp(l) && IsIntLit(r) then Some(Range(None, Some(r.lit.n)))
      else None
    case BetweenExpr(x, lo, hi) =>
      if IsTimestamp(x) && IsIntLit(lo) && IsIntLit(hi) then Some(Range(Some(lo.lit.n), Some(hi.lit.n))) else None
    case _ => None
  }

  datatype Stat = Stat(key: nat, min: nat, max: nat, count: nat)

  /** The keys of the partitions whose recorded range meets the given one */
  function Overlapping(stats: seq<Stat>, start: nat, end: nat): seq<nat> {
    if stats == [] then [] else
      var init, s := Overlapping(stats[..|stats| - 1], start, end), stats[|stats| - 1];
      if s.min <= end && s.max >= start then init + [s.key] else init
  }

  type Catalog = map<string, seq<Stat>>

  function PruneScan(catalog: Catalog, op: ScanOp): ScanOp {
    if op.pred.Some? && TimeRange(op.pred.value).Some? then
      var r := TimeRange(op.pred.value).value;
      op.(partitions := if op.table in catalog then Overlapping(catalog[op.table], r.Start(), r.End()) else [])
    else op
  }

  function Prune(catalog: Catalog, plan: Plan): Plan {
    match plan
    case ScanPlan(op) => ScanPlan(PruneScan(catalog, op))
    case FilterPlan(p, input) => FilterPlan(p, Prune(catalog, input))
    case ProjectPlan(columns, input) => ProjectPlan(columns, Prune(catalog, input))
    case GroupPlan(keys, aggs, input) => GroupPlan(keys, aggs, Prune(catalog, input))
    case SortPlan(keys, input) => SortPlan(keys, Prune(catalog, input))
    case LimitPlan(n, offset, input) => LimitPlan(n, offset, Prune(catalog, input))
    case JoinPlan(kind, l, r, c) => JoinPlan(kind, Prune(catalog, l), Prune(catalog, r), c)
  }

  function Optimized(now: int, catalog: Catalog, plan: Plan): Plan {
    Prune(catalog, PushProjection(Pushdown(FoldPlan(now, plan))))
  }
}
