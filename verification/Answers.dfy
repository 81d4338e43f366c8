/** What statements are answered with, clause by clause: WHERE in terms of stored values, ORDER
    BY, LIMIT with OFFSET, grouping and HAVING. */
module Answers {
  import opened Options
  import opened Ast
  import opened Evaluate
  import opened Folding
  import opened Plans
  import opened Operators
  import opened Scans
  import opened Pruning
  import opened Rowwise
  import opened Queries
  import opened Values
  import Limits
  import Ordering

  // ----- WHERE -----

  /** `WHERE column op literal` is answered with the rows of all SSTables whose stored value
      stands in that relation to the literal. */
  lemma ComparisonAnswered(w: World, default: Ty -> Val, sel: Select, schema: map<string, Ty>, bs: seq<Batch>,
                           name: string, op: BinOp, lit: Literal)
    requires SingleTable(sel) && sel.limit.None? && sel.offset.None? && sel.filter == Some(Bin(op, Col(name), Lit(lit)))
    requires IsComparison(op) && Uniform(w.env, default) && Prunable(w, sel) && Permutes(w.kernel)
    requires LoadReads(w.env, None, w.tables[sel.from.name].Reads([])) == Ok(bs)
    requires (forall i | 0 <= i < |bs| :: bs[i].schema == schema) && name in schema && Fits(w.env, schema[name], lit)
    ensures sel.orderBy == [] ==> Answer(w, sel).Ok?
    ensures Answer(w, sel).Ok? ==>
            multiset(BatchRows(Answer(w, sel).value))
            == multiset(Picked(row => Stand(op, Stored(row, name), Written(lit)), BatchRows(bs)))
  {
    var e, rows := sel.filter.value, BatchRows(bs);
    ComparisonType(w.env, schema, name, op, lit);
    forall i | 0 <= i < |rows|
      ensures Cell(w.env, default, schema, rows[i], e).Some?
      ensures Keeps(w.env, default, schema, e, rows[i]) <==> Stand(op, Stored(rows[i], name), Written(lit))
    {
      ComparisonKeeps(w.env, default, schema, rows[i], name, op, lit);
    }
    PlainReadingRowwise(w.env, default, w.tables[sel.from.name], schema, e, bs);
    SelectedIsPicked(w.env, default, schema, e, row => Stand(op, Stored(row, name), Written(lit)), rows);
    EndToEnd(w, sel, Selected(w.env, default, schema, e, rows));
  }

  // ----- ORDER BY -----

  /** ORDER BY is answered with one batch of the matching rows, in the order of its keys. */
  lemma OrderedAnswer(w: World, sel: Select, matches: seq<Row>)
    requires SingleTable(sel) && sel.limit.None? && sel.offset.None? && sel.orderBy != []
    requires Prunable(w, sel) && Permutes(w.kernel) && Ordering.SortsByItems(w.kernel)
    requires PlainReading(w.env, w.tables[sel.from.name], sel.filter) == Ok(matches) && Answer(w, sel).Ok?
    ensures multiset(BatchRows(Answer(w, sel).value)) == multiset(matches)
    ensures |Answer(w, sel).value| <= 1
    ensures forall b | b in Answer(w, sel).value :: Ordering.InOrder(sel.orderBy, b.schema.Keys, b.rows)
  {
    EndToEnd(w, sel, matches);
    AnswerFromScan(w, sel);
    var op := ScanOf(w, sel, sel.filter);
    var bs := LoadReads(w.env, op.pred, w.tables[sel.from.name].Reads(op.partitions)).value;
    var s := SortStream(w.kernel, sel.orderBy, FromBatches(bs));
    CollectedRows(s);
    Ordering.SortedStream(w.kernel, sel.orderBy, FromBatches(bs));
  }

  // ----- LIMIT, with OFFSET or ORDER BY -----

  /** The batches the scan of a statement gives before its limit; their rows are those that
      satisfy WHERE. */
  lemma Scanned(w: World, sel: Select, matches: seq<Row>) returns (bs: seq<Batch>)
    requires SingleTable(sel) && Prunable(w, sel)
    requires PlainReading(w.env, w.tables[sel.from.name], sel.filter) == Ok(matches)
    ensures multiset(BatchRows(bs)) == multiset(matches)
    ensures Answer(w, sel) == Collected(Finish(w, sel, FromBatches(Capped(bs, sel.limit))))
  {
    ScanLoadsMatches(w, sel);
    AnswerFromScan(w, sel);
    var op := ScanOf(w, sel, sel.filter);
    bs := LoadReads(w.env, op.pred, w.tables[sel.from.name].Reads(op.partitions)).value;
  }

  /** `LIMIT n OFFSET o` is answered with rows `o` to `o + n` of those the scan retains, and so
      right exactly if there is nothing to answer or the scan retains enough. */
  lemma OffsetAnswer(w: World, sel: Select, n: nat, o: nat, matches: seq<Row>) returns (bs: seq<Batch>)
    requires SingleTable(sel) && sel.orderBy == [] && sel.limit == Some(n) && sel.offset == Some(o) && Prunable(w, sel)
    requires PlainReading(w.env, w.tables[sel.from.name], sel.filter) == Ok(matches)
    ensures multiset(BatchRows(bs)) == multiset(matches)
    ensures Answer(w, sel).Ok? && BatchRows(Answer(w, sel).value) == Limits.Answered(bs, n, o)
    ensures BatchRows(Answer(w, sel).value) == Clip(BatchRows(bs), o, n)
       <==> n == 0 || |BatchRows(bs)| <= o || |BatchRows(Capped(bs, Some(n)))| >= Min(n + o, |BatchRows(bs)|)
  {
    bs := Scanned(w, sel, matches);
    var s := FromBatches(Capped(bs, Some(n)));
    FromBatchesRows(Capped(bs, Some(n)));
    LimitFailure(n, o, s);
    CollectedRows(LimitStream(n, o, s));
    Limits.OffsetPerLoad(bs, n, o);
  }

  /** `ORDER BY c LIMIT n` is answered with the first `n` of the sorted rows that the scan
      retains. */
  lemma TopAnswer(w: World, sel: Select, c: string, n: nat, matches: seq<Row>) returns (bs: seq<Batch>)
    requires SingleTable(sel) && sel.orderBy == Limits.ByColumn(c) && sel.limit == Some(n) && sel.offset.None? && Prunable(w, sel)
    requires PlainReading(w.env, w.tables[sel.from.name], sel.filter) == Ok(matches) && Answer(w, sel).Ok?
    ensures multiset(BatchRows(bs)) == multiset(matches)
    ensures BatchRows(Answer(w, sel).value) == Limits.TopRows(w.kernel, c, Capped(bs, Some(n)), n)
  {
    bs := Scanned(w, sel, matches);
    CollectedRows(LimitStream(n, 0, SortStream(w.kernel, sel.orderBy, FromBatches(Capped(bs, Some(n))))));
  }

  /** Rows `offset` and following, at most `n` */
  lemma ClipMeaning(rows: seq<Row>, offset: nat, n: nat)
    ensures |Clip(rows, offset, n)| == Min(n, if offset <= |rows| then |rows| - offset else 0)
    ensures forall i | 0 <= i < |Clip(rows, offset, n)| :: Clip(rows, offset, n)[i] == rows[offset + i]
  {
  }

  // ----- HAVING without grouping -----

  /** HAVING without aggregation is answered as WHERE, and the WHERE beside it is lost. */
  lemma HavingAnswer(w: World, sel: Select)
    requires sel.joins == [] && sel.groupBy == [] && Aggregates(sel.projections) == [] && sel.having.Some?
    ensures Answer(w, sel) == Answer(w, sel.(filter := sel.having, having := None))
  {
    var moved := sel.(filter := sel.having, having := None);
    PlannedIsDressed(sel);
    PushedHaving(w, sel);
    OptimizedDressed(w, sel, Filtered(sel.having, Filtered(sel.filter, BareScan(sel.from.name, sel.limit))), sel.having);
    OptimizedShape(w, moved);
    assert ScanOf(w, sel, sel.having) == ScanOf(w, moved, moved.filter);
    RunDressed(w, sel, ScanPlan(ScanOf(w, sel, sel.having)));
    RunDressed(w, moved, ScanPlan(ScanOf(w, sel, sel.having)));
  }

  lemma PushedHaving(w: World, sel: Select)
    requires sel.having.Some?
    ensures Pushdown(FoldPlan(w.env.now, Filtered(sel.having, Filtered(sel.filter, BareScan(sel.from.name, sel.limit)))))
         == ScanPlan(ScanOp(sel.from.name, FoldOpt(w.env.now, sel.having), None, [], sel.limit))
  {
    var where := Filtered(sel.filter, BareScan(sel.from.name, sel.limit));
    RewrittenWhere(w, sel, ScanPlan(ScanOp(sel.from.name, FoldOpt(w.env.now, sel.filter), None, [], sel.limit)));
    assert FoldPlan(w.env.now, FilterPlan(sel.having.value, where))
        == FilterPlan(FoldExpr(w.env.now, sel.having.value), FoldPlan(w.env.now, where));
  }

  // ----- Grouping -----

  ghost predicate IsCall(p: Projection) {
    p.ExprProjection? && p.expr.Func? && ToLower(p.expr.fname) in {"count", "sum", "avg", "min", "max"}
  }

  /** The aggregate of one call: its function, its first argument if it has one, and the name
      it goes by */
  ghost predicate IsAggregateOf(a: Aggregate, p: Projection) {
    && IsCall(p) && a.func == ToLower(p.expr.fname)
    && a.arg == (if |p.expr.args| > 0 then Some(p.expr.args[0]) else None)
    && a.alias == (if p.alias.Some? then p.alias.value else p.expr.fname)
  }

  /** The aggregates are those of the calls at `at`, which rises and leaves out no call. */
  ghost predicate CallsInOrder(ps: seq<Projection>, aggs: seq<Aggregate>, at: seq<nat>) {
    && |at| == |aggs|
    && (forall i | 0 <= i < |at| :: at[i] < |ps| && IsAggregateOf(aggs[i], ps[at[i]]))
    && (forall i, j | 0 <= i < j < |at| :: at[i] < at[j])
    && (forall k | 0 <= k < |ps| && IsCall(ps[k]) :: k in at)
  }

  lemma {:induction false} AggregatesExactly(ps: seq<Projection>) returns (at: seq<nat>)
    ensures CallsInOrder(ps, Aggregates(ps), at)
    decreases |ps|
  {
    at := [];
    if ps != [] {
      var n := |ps| - 1;
      at := AggregatesExactly(ps[..n]);
      OneMoreCall(ps, Aggregates(ps[..n]), at);
      if IsCall(ps[n]) { at := at + [n]; }
    }
  }

  lemma OneMoreCall(ps: seq<Projection>, aggs: seq<Aggregate>, at: seq<nat>)
    requires ps != [] && CallsInOrder(ps[..|ps| - 1], aggs, at)
    ensures CallsInOrder(ps, aggs + AggregateOf(ps[|ps| - 1]), if IsCall(ps[|ps| - 1]) then at + [|ps| - 1] else at)
  {
    var n := |ps| - 1;
    assert forall k | 0 <= k < n :: ps[..n][k] == ps[k];
    AggregateMeaning(ps[n]);
  }

  lemma AggregateMeaning(p: Projection)
    ensures |AggregateOf(p)| == if IsCall(p) then 1 else 0
    ensures IsCall(p) ==> IsAggregateOf(AggregateOf(p)[0], p)
  {
  }

  predicate Grouped(sel: Select) { sel.joins == [] && (sel.groupBy != [] || Aggregates(sel.projections) != []) }

  function GroupedPlan(sel: Select): Plan {
    GroupPlan(sel.groupBy, Aggregates(sel.projections), Filtered(sel.filter, BareScan(sel.from.name, sel.limit)))
  }

  lemma PlannedGroup(sel: Select)
    requires Grouped(sel)
    ensures Planned(sel) == Dressed(sel, Filtered(sel.having, GroupedPlan(sel)))
  {
  }

  lemma ProjectionOverGroup(sel: Select, plan: Plan)
    requires PushProjection(plan) == plan && !plan.ScanPlan?
    ensures PushProjection(Dressed(sel, plan)) == Dressed(sel, plan)
  {
    var projected := Projected(Columns(sel.projections), plan);
    var sorted := SortedPlan(sel.orderBy, projected);
    assert PushProjection(projected) == projected;
    assert PushProjection(sorted) == sorted;
  }

  /** The scan under the grouping */
  function GroupScan(w: World, sel: Select): ScanOp {
    PruneScan(w.catalog, ScanOp(sel.from.name, FoldOpt(w.env.now, sel.filter), None, [], sel.limit))
  }

  function GroupOverScan(w: World, sel: Select): Plan {
    GroupPlan(sel.groupBy, Aggregates(sel.projections), ScanPlan(GroupScan(w, sel)))
  }

  lemma OptimizedGroup(w: World, sel: Select)
    requires Grouped(sel)
    ensures Optimized(w.env.now, w.catalog, Planned(sel))
         == Dressed(sel, Filtered(FoldOpt(w.env.now, sel.having), GroupOverScan(w, sel)))
  {
    var plan := Filtered(sel.having, GroupedPlan(sel));
    PlannedGroup(sel);
    FoldDressed(w.env.now, sel, plan);
    PushdownDressed(sel, FoldPlan(w.env.now, plan));
    var scan := ScanPlan(ScanOp(sel.from.name, FoldOpt(w.env.now, sel.filter), None, [], sel.limit));
    var group := GroupPlan(sel.groupBy, Aggregates(sel.projections), scan);
    var pushed := Filtered(FoldOpt(w.env.now, sel.having), group);
    RewrittenWhere(w, sel, scan);
    assert Pushdown(FoldPlan(w.env.now, GroupedPlan(sel))) == group;
    assert Pushdown(FoldPlan(w.env.now, plan)) == pushed;
    assert PushProjection(scan) == scan;
    assert PushProjection(group) == group;
    assert PushProjection(pushed) == pushed;
    ProjectionOverGroup(sel, pushed);
    PruneDressed(w.catalog, sel, pushed);
    assert Prune(w.catalog, group) == GroupOverScan(w, sel);
    assert Prune(w.catalog, pushed) == Filtered(FoldOpt(w.env.now, sel.having), GroupOverScan(w, sel));
  }

  lemma RewrittenWhere(w: World, sel: Select, scan: Plan)
    requires scan == ScanPlan(ScanOp(sel.from.name, FoldOpt(w.env.now, sel.filter), None, [], sel.limit))
    ensures Pushdown(FoldPlan(w.env.now, Filtered(sel.filter, BareScan(sel.from.name, sel.limit)))) == scan
  {
    assert FoldPlan(w.env.now, BareScan(sel.from.name, sel.limit)) == BareScan(sel.from.name, sel.limit);
  }

  function HavingStream(env: Env, having: Option<Expr>, s: Stream): Stream {
    match having case None => s case Some(e) => FilterStream(env, e, s)
  }

  lemma {:induction false} FoldedStream(env: Env, e: Expr, s: Stream)
    requires !Fails(FilterStream(env, e, s))
    ensures FilterStream(env, FoldExpr(env.now, e), s) == FilterStream(env, e, s)
    decreases s
  {
    if s.Next? {
      FoldedFilter(env, e, s.batch);
      FoldedStream(env, e, s.rest);
    }
  }

  lemma RunGroup(w: World, sel: Select, bs: seq<Batch>)
    requires sel.from.name in w.tables
    requires LoadReads(w.env, GroupScan(w, sel).pred, w.tables[sel.from.name].Reads(GroupScan(w, sel).partitions)) == Ok(bs)
    ensures Run(w, GroupOverScan(w, sel))
         == w.group(sel.groupBy, Aggregates(sel.projections), FromBatches(Capped(bs, sel.limit)))
  {
    assert Run(w, ScanPlan(GroupScan(w, sel))) == Ok(FromBatches(Capped(bs, sel.limit)));
  }

  lemma RunHaving(w: World, sel: Select)
    ensures Run(w, Filtered(FoldOpt(w.env.now, sel.having), GroupOverScan(w, sel)))
         == match Run(w, GroupOverScan(w, sel)) case Err => Err case Ok(s) => Ok(HavingStream(w.env, FoldOpt(w.env.now, sel.having), s))
  {
  }

  /** Of a statement with GROUP BY or aggregates, grouping gets the rows that satisfy WHERE, as
      far as the scan's limit lets them through, under the keys of GROUP BY and the aggregate
      calls of the projections in their order; HAVING filters what it gives, and ORDER BY and
      LIMIT come after. */
  lemma GroupedAnswer(w: World, sel: Select, matches: seq<Row>) returns (bs: seq<Batch>, aggs: seq<Aggregate>, at: seq<nat>)
    requires Grouped(sel) && Prunable(w, sel)
    requires PlainReading(w.env, w.tables[sel.from.name], sel.filter) == Ok(matches)
    ensures multiset(BatchRows(bs)) == multiset(matches) && CallsInOrder(sel.projections, aggs, at)
    ensures var r := w.group(sel.groupBy, aggs, FromBatches(Capped(bs, sel.limit)));
            && (r.Err? ==> Answer(w, sel).Err?)
            && (r.Ok? && (sel.having.Some? ==> !Fails(FilterStream(w.env, sel.having.value, r.value))) ==>
                  Answer(w, sel) == Collected(Finish(w, sel, HavingStream(w.env, sel.having, r.value))))
  {
    aggs := Aggregates(sel.projections);
    at := AggregatesExactly(sel.projections);
    ScanLoadsMatches(w, sel);
    var op := GroupScan(w, sel);
    assert op.pred == ScanOf(w, sel, sel.filter).pred && op.partitions == ScanOf(w, sel, sel.filter).partitions;
    bs := LoadReads(w.env, op.pred, w.tables[sel.from.name].Reads(op.partitions)).value;
    OptimizedGroup(w, sel);
    RunDressed(w, sel, Filtered(FoldOpt(w.env.now, sel.having), GroupOverScan(w, sel)));
    RunHaving(w, sel);
    RunGroup(w, sel, bs);
    var r := w.group(sel.groupBy, aggs, FromBatches(Capped(bs, sel.limit)));
    if r.Ok? && sel.having.Some? && !Fails(FilterStream(w.env, sel.having.value, r.value)) {
      FoldedStream(w.env, sel.having.value, r.value);
    }
  }

  /** The scan's limit lets every row through exactly if each batch with rows begins before
      that many. */
  lemma {:induction false} RetainsAll(bs: seq<Batch>, total: nat, limit: nat)
    ensures Rows(FromBatches(Retain(bs, total, limit))) == Rows(FromBatches(bs))
       <==> forall i | 0 <= i < |bs| && bs[i].rows != [] :: total + |Rows(FromBatches(bs[..i]))| < limit
    decreases |bs|
  {
    if bs == [] {
    } else if total >= limit {
      NoRows(bs);
    } else {
      var rest := bs[1..];
      RetainsAll(rest, total + |bs[0].rows|, limit);
      var kept := Retain(rest, total + |bs[0].rows|, limit);
      assert ([bs[0]] + kept)[1..] == kept;
      SameTail(bs[0].rows, Rows(FromBatches(kept)), Rows(FromBatches(rest)));
      forall i | 0 < i < |bs| ensures |Rows(FromBatches(bs[..i]))| == |bs[0].rows| + |Rows(FromBatches(rest[..i - 1]))| {
        assert bs[..i][1..] == rest[..i - 1];
      }
      assert bs[..0] == [];
      forall i | 0 <= i < |rest| ensures rest[i] == bs[i + 1] { }
    }
  }

  lemma SameTail(a: seq<Row>, b: seq<Row>, c: seq<Row>)
    ensures a + b == a + c <==> b == c
  {
    if a + b == a + c { assert b == (a + b)[|a|..] && c == (a + c)[|a|..]; }
  }

  lemma {:induction false} NoRows(bs: seq<Batch>)
    ensures Rows(FromBatches(bs)) == [] <==> forall i | 0 <= i < |bs| :: bs[i].rows == []
  {
    if bs != [] { NoRows(bs[1..]); }
  }

  // ----- Joins -----

  /** The joins of a statement, from the outermost in */
  ghost predicate JoinsFrom(plan: Plan, base: Plan, joins: seq<JoinClause>)
    decreases |joins|
  {
    if joins == [] then plan == base else
      var j := joins[|joins| - 1];
      && plan.JoinPlan? && plan.kind == j.kind && plan.condition == j.condition
      && plan.right == ScanPlan(ScanOp(j.table.name, None, None, [], None))
      && JoinsFrom(plan.left, base, joins[..|joins| - 1])
  }

  /** What lies under all operators with one input */
  ghost function Bottom(plan: Plan): Plan {
    match plan
    case FilterPlan(_, input) => Bottom(input)
    case ProjectPlan(_, input) => Bottom(input)
    case GroupPlan(_, _, input) => Bottom(input)
    case SortPlan(_, input) => Bottom(input)
    case LimitPlan(_, _, input) => Bottom(input)
    case _ => plan
  }

  lemma {:induction false} JoinedInOrder(base: Plan, joins: seq<JoinClause>)
    requires base.ScanPlan?
    ensures JoinsFrom(Joined(base, joins), base, joins) && Bottom(Joined(base, joins)) == Joined(base, joins)
    decreases |joins|
  {
    if joins != [] { JoinedInOrder(base, joins[..|joins| - 1]); }
  }

  lemma BottomDressed(sel: Select, plan: Plan)
    ensures Bottom(Dressed(sel, plan)) == Bottom(plan)
  {
    var projected := Projected(Columns(sel.projections), plan);
    var sorted := SortedPlan(sel.orderBy, projected);
    assert Bottom(projected) == Bottom(plan);
    assert Bottom(sorted) == Bottom(projected);
  }

  lemma PlannedBottom(sel: Select)
    ensures Bottom(Planned(sel)) == Bottom(Joined(BareScan(sel.from.name, sel.limit), sel.joins))
  {
    var where := Filtered(sel.filter, Joined(BareScan(sel.from.name, sel.limit), sel.joins));
    var aggs := Aggregates(sel.projections);
    var grouped := if aggs != [] || sel.groupBy != [] then GroupPlan(sel.groupBy, aggs, where) else where;
    assert Bottom(where) == Bottom(Joined(BareScan(sel.from.name, sel.limit), sel.joins));
    assert Bottom(grouped) == Bottom(where);
    assert Bottom(Filtered(sel.having, grouped)) == Bottom(grouped);
    assert Planned(sel) == Dressed(sel, Filtered(sel.having, grouped));
    BottomDressed(sel, Filtered(sel.having, grouped));
  }

  /** Under all else the plan joins, in the order of the statement, unlimited scans of the
      joined tables to the scan of the first, which has the bare LIMIT. */
  lemma JoinsPlanned(sel: Select)
    ensures JoinsFrom(Bottom(Planned(sel)), ScanPlan(ScanOp(sel.from.name, None, None, [], sel.limit)), sel.joins)
  {
    PlannedBottom(sel);
    JoinedInOrder(BareScan(sel.from.name, sel.limit), sel.joins);
  }

  ghost predicate HasJoin(plan: Plan) { Bottom(plan).JoinPlan? }

  lemma {:induction false} RewritesKeepJoins(now: int, catalog: Catalog, plan: Plan)
    requires HasJoin(plan)
    ensures HasJoin(FoldPlan(now, plan)) && HasJoin(Pushdown(plan)) && HasJoin(PushProjection(plan)) && HasJoin(Prune(catalog, plan))
    decreases plan
  {
    match plan
    case FilterPlan(_, input) => RewritesKeepJoins(now, catalog, input);
    case ProjectPlan(_, input) => RewritesKeepJoins(now, catalog, input);
    case GroupPlan(_, _, input) => RewritesKeepJoins(now, catalog, input);
    case SortPlan(_, input) => RewritesKeepJoins(now, catalog, input);
    case LimitPlan(_, _, input) => RewritesKeepJoins(now, catalog, input);
    case JoinPlan(_, _, _, _) =>
  }

  lemma {:induction false} JoinFails(w: World, plan: Plan)
    requires HasJoin(plan)
    ensures Run(w, plan).Err?
    decreases plan
  {
    match plan
    case FilterPlan(_, input) => JoinFails(w, input);
    case ProjectPlan(_, input) => JoinFails(w, input);
    case GroupPlan(_, _, input) => JoinFails(w, input);
    case SortPlan(_, input) => JoinFails(w, input);
    case LimitPlan(_, _, input) => JoinFails(w, input);
    case JoinPlan(_, _, _, _) =>
  }

  /** Every statement with a JOIN is an error, whatever else it holds. */
  lemma JoinsRejected(w: World, sel: Select)
    requires sel.joins != []
    ensures Answer(w, sel).Err?
  {
    var now, p0 := w.env.now, Planned(sel);
    PlannedBottom(sel);
    JoinedInOrder(BareScan(sel.from.name, sel.limit), sel.joins);
    RewritesKeepJoins(now, w.catalog, p0);
    var p1 := FoldPlan(now, p0);
    RewritesKeepJoins(now, w.catalog, p1);
    var p2 := Pushdown(p1);
    RewritesKeepJoins(now, w.catalog, p2);
    var p3 := PushProjection(p2);
    RewritesKeepJoins(now, w.catalog, p3);
    JoinFails(w, Prune(w.catalog, p3));
  }

  // ----- Which partitions are read -----

  lemma {:induction false} OverlapExactly(stats: seq<Stat>, start: nat, end: nat, k: nat)
    ensures k in Plans.Overlapping(stats, start, end) <==>
            exists i :: 0 <= i < |stats| && stats[i].key == k && stats[i].min <= end && start <= stats[i].max
    decreases |stats|
  {
    if stats != [] {
      var n := |stats| - 1;
      OverlapExactly(stats[..n], start, end, k);
      if i :| 0 <= i < |stats| && stats[i].key == k && stats[i].min <= end && start <= stats[i].max {
        assert i == n || stats[..n][i] == stats[i];
      }
      if i :| 0 <= i < n && stats[..n][i].key == k && stats[..n][i].min <= end && start <= stats[..n][i].max {
        assert stats[i].key == k;
      }
    }
  }

  /** `timestamp_ns BETWEEN lo AND hi` reads only the partitions whose recorded range meets
      [lo, hi], if any does; the conjunction of the two comparisons likewise. */
  lemma RangeIsPruned(w: World, sel: Select, lo: int, hi: int, k: nat)
    requires sel.from.name in w.catalog && 0 <= lo < TWO63 && 0 <= hi < TWO63
    requires var ts := Col("timestamp_ns");
             sel.filter == Some(BetweenExpr(ts, Lit(IntL(lo)), Lit(IntL(hi))))
             || sel.filter == Some(Bin(AndOp, Bin(GtEqOp, ts, Lit(IntL(lo))), Bin(LtEqOp, ts, Lit(IntL(hi)))))
    ensures k in ScanOf(w, sel, sel.filter).partitions <==>
            exists i :: var stats := w.catalog[sel.from.name];
              0 <= i < |stats| && stats[i].key == k && stats[i].min <= hi && lo <= stats[i].max
  {
    var e := sel.filter.value;
    RangeOfInterval(w.env.now, e, lo, hi);
    var stats := w.catalog[sel.from.name];
    assert ScanOf(w, sel, sel.filter).partitions == Plans.Overlapping(stats, lo, hi);
    OverlapExactly(stats, lo, hi, k);
  }

  lemma RangeOfInterval(now: int, e: Expr, lo: int, hi: int)
    requires var ts := Col("timestamp_ns");
             e == BetweenExpr(ts, Lit(IntL(lo)), Lit(IntL(hi)))
             || e == Bin(AndOp, Bin(GtEqOp, ts, Lit(IntL(lo))), Bin(LtEqOp, ts, Lit(IntL(hi))))
    ensures FoldExpr(now, e) == e && TimeRange(e) == Some(Range(Some(lo), Some(hi)))
  {
    if e.Bin? {
      assert FoldExpr(now, e.left) == e.left && FoldExpr(now, e.right) == e.right;
      assert TimeRange(e.left) == Some(Range(Some(lo), None)) && TimeRange(e.right) == Some(Range(None, Some(hi)));
    }
  }
}
