/** From a statement to its answer: planning, rewriting and running, against the plain
    reading of the statement. */
module Queries {
  import opened Options
  import opened Ast
  import opened Evaluate
  import opened Folding
  import opened Plans
  import opened Operators
  import opened Scans
  import opened Pruning
  import opened Rowwise

  // ----- Streams and batches -----

  lemma {:induction false} FromBatchesRows(bs: seq<Batch>)
    ensures Rows(FromBatches(bs)) == BatchRows(bs) && !Fails(FromBatches(bs))
  {
    if bs != [] {
      FromBatchesRows(bs[1..]);
      assert bs == [bs[0]] + bs[1..];
      BatchRowsConcat([bs[0]], bs[1..]);
      assert [bs[0]][..0] == [];
      assert BatchRows([bs[0]]) == bs[0].rows;
    }
  }

  lemma {:induction false} CollectedRows(s: Stream)
    ensures Collected(s).Ok? <==> !Fails(s)
    ensures Collected(s).Ok? ==> BatchRows(Collected(s).value) == Rows(s)
  {
    if s.Next? {
      CollectedRows(s.rest);
      if Collected(s.rest).Ok? {
        BatchRowsConcat([s.batch], Collected(s.rest).value);
        assert [s.batch][..0] == [];
        assert BatchRows([s.batch]) == s.batch.rows;
      }
    }
  }

  // ----- The limit of the scan -----

  /** The scan keeps a prefix of its rows, all of them or at least the limit. */
  lemma {:induction false} RetainMeaning(bs: seq<Batch>, total: nat, limit: nat)
    ensures var a, b := Rows(FromBatches(Retain(bs, total, limit))), Rows(FromBatches(bs));
            a <= b && (a == b || total + |a| >= limit)
    decreases |bs|
  {
    if bs != [] && total < limit {
      RetainMeaning(bs[1..], total + |bs[0].rows|, limit);
      var rest := Retain(bs[1..], total + |bs[0].rows|, limit);
      assert ([bs[0]] + rest)[1..] == rest;
    }
  }

  /** A scan limit of `n + offset` or more cannot be seen above the limit operator. */
  lemma ScanLimitInvisible(bs: seq<Batch>, limit: nat, n: nat, offset: nat)
    requires limit >= n + offset
    ensures Rows(LimitStream(n, offset, FromBatches(Retain(bs, 0, limit)))) == Rows(LimitStream(n, offset, FromBatches(bs)))
  {
    RetainMeaning(bs, 0, limit);
    LimitMeaning(n, offset, FromBatches(Retain(bs, 0, limit)));
    LimitMeaning(n, offset, FromBatches(bs));
    PrefixClip(Rows(FromBatches(Retain(bs, 0, limit))), Rows(FromBatches(bs)), offset, n);
  }

  lemma PrefixClip(a: seq<Row>, b: seq<Row>, offset: nat, n: nat)
    requires a <= b && (a == b || |a| >= n + offset)
    ensures Clip(a, offset, n) == Clip(b, offset, n)
  {
  }

  // ----- The plan of a simple statement -----

  /** One table, no aggregation, no HAVING: projection, WHERE, ORDER BY, LIMIT and OFFSET
      are left open. */
  ghost predicate SingleTable(sel: Select) {
    sel.joins == [] && sel.groupBy == [] && Aggregates(sel.projections) == [] && sel.having.None?
  }

  function FoldOpt(now: int, e: Option<Expr>): Option<Expr> {
    match e case None => None case Some(p) => Some(FoldExpr(now, p))
  }

  function Projected(columns: seq<string>, plan: Plan): Plan { if columns != [] then ProjectPlan(columns, plan) else plan }

  function SortedPlan(keys: seq<OrderByItem>, plan: Plan): Plan { if keys != [] then SortPlan(keys, plan) else plan }

  function Limited(limit: Option<nat>, offset: Option<nat>, plan: Plan): Plan {
    match limit case None => plan case Some(n) => LimitPlan(n, match offset case Some(o) => o case None => 0, plan)
  }

  function Dressed(sel: Select, plan: Plan): Plan {
    Limited(sel.limit, sel.offset, SortedPlan(sel.orderBy, Projected(Columns(sel.projections), plan)))
  }

  lemma PlannedIsDressed(sel: Select)
    requires sel.joins == [] && sel.groupBy == [] && Aggregates(sel.projections) == []
    ensures Planned(sel) == Dressed(sel, Filtered(sel.having, Filtered(sel.filter, BareScan(sel.from.name, sel.limit))))
  {
  }

  lemma FoldDressed(now: int, sel: Select, plan: Plan)
    ensures FoldPlan(now, Dressed(sel, plan)) == Dressed(sel, FoldPlan(now, plan))
  {
    var projected := Projected(Columns(sel.projections), plan);
    var sorted := SortedPlan(sel.orderBy, projected);
    assert FoldPlan(now, projected) == Projected(Columns(sel.projections), FoldPlan(now, plan));
    assert FoldPlan(now, sorted) == SortedPlan(sel.orderBy, FoldPlan(now, projected));
  }

  lemma PushdownDressed(sel: Select, plan: Plan)
    ensures Pushdown(Dressed(sel, plan)) == Dressed(sel, Pushdown(plan))
  {
    var projected := Projected(Columns(sel.projections), plan);
    var sorted := SortedPlan(sel.orderBy, projected);
    assert Pushdown(projected) == Projected(Columns(sel.projections), Pushdown(plan));
    assert Pushdown(sorted) == SortedPlan(sel.orderBy, Pushdown(projected));
  }

  lemma ProjectionDressed(sel: Select, op: ScanOp)
    requires op.projection.None?
    ensures var columns := Columns(sel.projections);
            PushProjection(Dressed(sel, ScanPlan(op))) ==
            Dressed(sel, ScanPlan(op.(projection := if columns != [] then Some(columns) else None)))
  {
    var columns := Columns(sel.projections);
    var projected := Projected(columns, ScanPlan(op));
    var sorted := SortedPlan(sel.orderBy, projected);
    assert PushProjection(projected) ==
           Projected(columns, ScanPlan(op.(projection := if columns != [] then Some(columns) else None)));
    assert PushProjection(sorted) == SortedPlan(sel.orderBy, PushProjection(projected));
  }

  lemma PruneDressed(catalog: Catalog, sel: Select, plan: Plan)
    ensures Prune(catalog, Dressed(sel, plan)) == Dressed(sel, Prune(catalog, plan))
  {
    var projected := Projected(Columns(sel.projections), plan);
    var sorted := SortedPlan(sel.orderBy, projected);
    assert Prune(catalog, projected) == Projected(Columns(sel.projections), Prune(catalog, plan));
    assert Prune(catalog, sorted) == SortedPlan(sel.orderBy, Prune(catalog, projected));
  }

  /** Rewriting a statement whose filters end up in the scan with predicate `pred` */
  lemma OptimizedDressed(w: World, sel: Select, plan: Plan, pred: Option<Expr>)
    requires Pushdown(FoldPlan(w.env.now, plan)) == ScanPlan(ScanOp(sel.from.name, FoldOpt(w.env.now, pred), None, [], sel.limit))
    ensures Optimized(w.env.now, w.catalog, Dressed(sel, plan)) == Dressed(sel, ScanPlan(ScanOf(w, sel, pred)))
  {
    FoldDressed(w.env.now, sel, plan);
    PushdownDressed(sel, FoldPlan(w.env.now, plan));
    var op := ScanOp(sel.from.name, FoldOpt(w.env.now, pred), None, [], sel.limit);
    ProjectionDressed(sel, op);
    var columns := Columns(sel.projections);
    PruneDressed(w.catalog, sel, ScanPlan(op.(projection := if columns != [] then Some(columns) else None)));
  }

  function ScanOf(w: World, sel: Select, pred: Option<Expr>): ScanOp {
    var columns := Columns(sel.projections);
    PruneScan(w.catalog, ScanOp(sel.from.name, FoldOpt(w.env.now, pred), if columns != [] then Some(columns) else None, [], sel.limit))
  }

  /** After all rewrites a flat statement is one scan under projection, sort and limit. */
  lemma OptimizedShape(w: World, sel: Select)
    requires SingleTable(sel)
    ensures Optimized(w.env.now, w.catalog, Planned(sel)) == Dressed(sel, ScanPlan(ScanOf(w, sel, sel.filter)))
  {
    PlannedIsDressed(sel);
    OptimizedDressed(w, sel, Filtered(sel.filter, BareScan(sel.from.name, sel.limit)), sel.filter);
  }

  /** HAVING without aggregation replaces WHERE: the statement is planned as if it had no
      WHERE at all. */
  lemma HavingReplacesWhere(w: World, sel: Select)
    requires sel.joins == [] && sel.groupBy == [] && Aggregates(sel.projections) == [] && sel.having.Some?
    ensures Optimized(w.env.now, w.catalog, Planned(sel)) == Optimized(w.env.now, w.catalog, Planned(sel.(filter := None)))
  {
    var scan, bare := BareScan(sel.from.name, sel.limit), sel.(filter := None);
    PlannedIsDressed(sel);
    PlannedIsDressed(bare);
    var where := Filtered(sel.filter, scan);
    assert Pushdown(FoldPlan(w.env.now, where)).ScanPlan?;
    OptimizedDressed(w, sel, FilterPlan(sel.having.value, where), sel.having);
    OptimizedDressed(w, bare, FilterPlan(sel.having.value, scan), sel.having);
  }

  // ----- The plain reading of WHERE -----

  function Oks(bs: seq<Batch>): seq<Result<Batch>> { seq(|bs|, i requires 0 <= i < |bs| => Ok(bs[i])) }

  lemma {:induction false} RawReads(env: Env, input: seq<Result<Batch>>)
    requires LoadReads(env, None, input).Ok?
    ensures input == Oks(LoadReads(env, None, input).value)
  {
    if input != [] { RawReads(env, input[..|input| - 1]); }
  }

  /** Filtering the raw batches and filtering while loading are the same. */
  lemma {:induction false} FilterIsLoad(env: Env, e: Expr, bs: seq<Batch>)
    ensures Collected(FilterStream(env, e, FromBatches(bs))) == LoadReads(env, Some(e), Oks(bs))
  {
    if bs != [] {
      FilterIsLoad(env, e, bs[1..]);
      assert Oks(bs) == [Ok(bs[0])] + Oks(bs[1..]);
      LoadConcat(env, Some(e), [Ok(bs[0])], Oks(bs[1..]));
      LoadOne(env, e, bs[0]);
      var rest := LoadReads(env, Some(e), Oks(bs[1..]));
      if rest.Ok? { assert [] + rest.value == rest.value; }
    } else {
      assert Oks(bs) == [];
    }
  }

  lemma LoadOne(env: Env, e: Expr, b: Batch)
    ensures LoadReads(env, Some(e), [Ok(b)]) == Keep(env, Some(e), b)
  {
    LoadStep(env, Some(e), [], Ok(b));
    assert [] + [Ok(b)] == [Ok(b)];
    var k := Keep(env, Some(e), b);
    if k.Ok? { assert [] + k.value == k.value; }
  }

  /** What the statement asks for: read every SSTable of the table, then apply WHERE. */
  function PlainReading(env: Env, store: Store, filter: Option<Expr>): Result<seq<Row>> {
    match LoadReads(env, None, store.Reads([]))
    case Err => Err
    case Ok(bs) =>
      match filter
      case None => Ok(BatchRows(bs))
      case Some(e) =>
        var s := FilterStream(env, e, FromBatches(bs));
        if Fails(s) then Err else Ok(Rows(s))
  }

  lemma PlainIsLoad(env: Env, store: Store, filter: Option<Expr>)
    requires PlainReading(env, store, filter).Ok?
    ensures var r := LoadReads(env, filter, store.Reads([]));
            r.Ok? && BatchRows(r.value) == PlainReading(env, store, filter).value
  {
    if filter.Some? {
      var bs := LoadReads(env, None, store.Reads([])).value;
      RawReads(env, store.Reads([]));
      FilterIsLoad(env, filter.value, bs);
      CollectedRows(FilterStream(env, filter.value, FromBatches(bs)));
    }
  }

  lemma {:induction false} FoldedLoad(env: Env, e: Expr, input: seq<Result<Batch>>)
    requires LoadReads(env, Some(e), input).Ok?
    ensures LoadReads(env, Some(FoldExpr(env.now, e)), input) == LoadReads(env, Some(e), input)
  {
    if input != [] {
      var init, x := input[..|input| - 1], input[|input| - 1];
      FoldedLoad(env, e, init);
      FoldedFilter(env, e, x.value);
    }
  }

  lemma FoldedFilter(env: Env, e: Expr, b: Batch)
    requires FilterBatch(env, e, b).Ok?
    ensures FilterBatch(env, FoldExpr(env.now, e), b) == FilterBatch(env, e, b)
  {
    FoldingPreserves(env, b, e);
  }

  /** The statistics bound their partitions, and the time range of the predicate casts. */
  ghost predicate Prunable(w: World, sel: Select) {
    && sel.from.name in w.tables && w.tables[sel.from.name].Valid()
    && (sel.filter.Some? && TimeRange(FoldExpr(w.env.now, sel.filter.value)).Some? && sel.from.name in w.catalog ==>
          && Covers(w.catalog[sel.from.name], w.tables[sel.from.name])
          && Castable(TimeRange(FoldExpr(w.env.now, sel.filter.value)).value))
  }

  /** The folded, pushed and pruned scan loads the rows of the plain reading. */
  lemma ScanLoadsMatches(w: World, sel: Select)
    requires Prunable(w, sel) && PlainReading(w.env, w.tables[sel.from.name], sel.filter).Ok?
    ensures var op, store := ScanOf(w, sel, sel.filter), w.tables[sel.from.name];
            var r := LoadReads(w.env, op.pred, store.Reads(op.partitions));
            r.Ok? && RowBag(r) == multiset(PlainReading(w.env, store, sel.filter).value)
  {
    var store := w.tables[sel.from.name];
    PlainIsLoad(w.env, store, sel.filter);
    if sel.filter.Some? {
      var e := FoldExpr(w.env.now, sel.filter.value);
      FoldedLoad(w.env, sel.filter.value, store.Reads([]));
      if TimeRange(e).Some? && sel.from.name in w.catalog {
        PrunedScanKeepsMatches(w.env, e, w.catalog[sel.from.name], store);
      }
    }
  }

  // ----- End to end -----

  function SortAfter(w: World, keys: seq<OrderByItem>, s: Stream): Stream {
    if keys != [] then SortStream(w.kernel, keys, s) else s
  }

  function LimitAfter(limit: Option<nat>, offset: Option<nat>, s: Stream): Stream {
    match limit case None => s case Some(n) => LimitStream(n, match offset case Some(o) => o case None => 0, s)
  }

  function Finish(w: World, sel: Select, s: Stream): Stream {
    LimitAfter(sel.limit, sel.offset, SortAfter(w, sel.orderBy, s))
  }

  lemma RunSorted(w: World, keys: seq<OrderByItem>, plan: Plan)
    ensures Run(w, SortedPlan(keys, plan)) == match Run(w, plan) case Err => Err case Ok(s) => Ok(SortAfter(w, keys, s))
  {
  }

  lemma RunLimited(w: World, limit: Option<nat>, offset: Option<nat>, plan: Plan)
    ensures Run(w, Limited(limit, offset, plan)) == match Run(w, plan) case Err => Err case Ok(s) => Ok(LimitAfter(limit, offset, s))
  {
  }

  lemma RunDressed(w: World, sel: Select, plan: Plan)
    ensures Run(w, Dressed(sel, plan)) == match Run(w, plan) case Err => Err case Ok(s) => Ok(Finish(w, sel, s))
  {
    var projected := Projected(Columns(sel.projections), plan);
    assert Run(w, projected) == Run(w, plan);
    RunSorted(w, sel.orderBy, projected);
    RunLimited(w, sel.limit, sel.offset, SortedPlan(sel.orderBy, projected));
  }

  /** The answer is computed from the batches the final scan loads. */
  lemma AnswerFromScan(w: World, sel: Select)
    requires SingleTable(sel) && sel.from.name in w.tables
    ensures var op := ScanOf(w, sel, sel.filter);
            Answer(w, sel) == match LoadReads(w.env, op.pred, w.tables[sel.from.name].Reads(op.partitions))
                              case Err => Err
                              case Ok(bs) => Collected(Finish(w, sel, FromBatches(Capped(bs, sel.limit))))
  {
    OptimizedShape(w, sel);
    RunDressed(w, sel, ScanPlan(ScanOf(w, sel, sel.filter)));
  }

  lemma SortKeepsRows(w: World, keys: seq<OrderByItem>, s: Stream)
    requires Permutes(w.kernel) && !Fails(SortStream(w.kernel, keys, s))
    ensures multiset(Rows(SortStream(w.kernel, keys, s))) == multiset(Rows(s))
  {
    if s.Next? {
      var rows := Sorted(w.kernel, keys, s.batch.schema, Rows(s)).value;
      assert rows + [] == rows;
    }
  }

  /** A single-table statement without OFFSET, and with LIMIT only when there is no ORDER
      BY, is answered with the rows of its plain reading, or with exactly as many of them as
      LIMIT admits. */
  lemma EndToEnd(w: World, sel: Select, matches: seq<Row>)
    requires SingleTable(sel) && sel.offset.None? && (sel.limit.None? || sel.orderBy == [])
    requires Prunable(w, sel) && Permutes(w.kernel)
    requires PlainReading(w.env, w.tables[sel.from.name], sel.filter) == Ok(matches)
    ensures sel.orderBy == [] ==> Answer(w, sel).Ok?
    ensures Answer(w, sel).Ok? ==>
      var rows := BatchRows(Answer(w, sel).value);
      match sel.limit
      case None => multiset(rows) == multiset(matches)
      case Some(n) => |rows| == Min(n, |matches|) && multiset(rows) <= multiset(matches)
  {
    ScanLoadsMatches(w, sel);
    AnswerFromScan(w, sel);
    var op := ScanOf(w, sel, sel.filter);
    var bs := LoadReads(w.env, op.pred, w.tables[sel.from.name].Reads(op.partitions)).value;
    FromBatchesRows(bs);
    var s := Finish(w, sel, FromBatches(Capped(bs, sel.limit)));
    CollectedRows(s);
    assert |BatchRows(bs)| == |multiset(BatchRows(bs))| == |multiset(matches)| == |matches|;
    match sel.limit
    case None => if sel.orderBy != [] && !Fails(s) { SortKeepsRows(w, sel.orderBy, FromBatches(bs)); }
    case Some(n) =>
      ScanLimitInvisible(bs, n, n, 0);
      LimitMeaning(n, 0, FromBatches(bs));
      FromBatchesRows(Retain(bs, 0, n));
      LimitFailure(n, 0, FromBatches(Retain(bs, 0, n)));
      ClipWithin(BatchRows(bs), n);
  }

  lemma ClipWithin(rows: seq<Row>, n: nat)
    ensures |Clip(rows, 0, n)| == Min(n, |rows|) && multiset(Clip(rows, 0, n)) <= multiset(rows)
  {
    var k := Min(n, |rows|);
    assert rows == rows[..k] + rows[k..];
  }

  // ----- OFFSET without LIMIT -----

  /** The rows from number `o` on */
  function Skip(rows: seq<Row>, o: nat): seq<Row> { if o <= |rows| then rows[o..] else [] }

  /** OFFSET without LIMIT is planned away: the answer is right exactly if it had nothing to
      skip. */
  lemma OffsetAloneExactly(w: World, sel: Select, o: nat, matches: seq<Row>)
    requires SingleTable(sel) && sel.limit.None? && sel.offset == Some(o)
    requires Prunable(w, sel) && Permutes(w.kernel)
    requires PlainReading(w.env, w.tables[sel.from.name], sel.filter) == Ok(matches)
    ensures sel.orderBy == [] ==> Answer(w, sel).Ok?
    ensures Answer(w, sel).Ok? ==>
      (multiset(BatchRows(Answer(w, sel).value)) == multiset(Skip(matches, o)) <==> o == 0 || matches == [])
  {
    OffsetPlannedAway(w, sel);
    EndToEnd(w, sel.(offset := None), matches);
    SkipChanges(matches, o);
  }

  lemma OffsetPlannedAway(w: World, sel: Select)
    requires sel.limit.None?
    ensures Answer(w, sel) == Answer(w, sel.(offset := None))
  {
    assert Planned(sel) == Planned(sel.(offset := None));
  }

  lemma SkipChanges(rows: seq<Row>, o: nat)
    ensures multiset(rows) == multiset(Skip(rows, o)) <==> o == 0 || rows == []
  {
    if o == 0 { assert rows[0..] == rows; }
    assert |multiset(rows)| == |rows| && |multiset(Skip(rows, o))| == |Skip(rows, o)|;
  }

  /** One table with one row, whatever else there is */
  function OneRowWorld(w: World, table: string, row: Row): World {
    w.(tables := map[table := Store([0], map[0 := [[Ok(Batch(map[], [row]))]]])])
  }

  /** `SELECT * FROM t OFFSET 1` on a table of one row answers with that row. */
  lemma OffsetAloneIgnored(w: World, table: string, row: Row)
    requires Permutes(w.kernel)
    ensures var sel := SelectStmt([StarProjection], TableRef(table, None), [], None, [], None, [], None, Some(1));
            var answer := Answer(OneRowWorld(w, table, row), sel);
            answer.Ok? && multiset(BatchRows(answer.value)) == multiset{row} && Skip([row], 1) == []
  {
    var sel := SelectStmt([StarProjection], TableRef(table, None), [], None, [], None, [], None, Some(1));
    var one := OneRowWorld(w, table, row);
    OneRowRead(one.env, one.tables[table], Batch(map[], [row]));
    assert [StarProjection][..0] == [];
    OffsetPlannedAway(one, sel);
    EndToEnd(one, sel.(offset := None), [row]);
  }

  lemma OneFileReads(store: Store, file: File)
    requires store == Store([0], map[0 := [file]])
    ensures store.Valid() && store.Reads([]) == file
  {
    assert [file][..0] == [] && [0][..0] == [];
    assert Flat([file]) == Flat([]) + file == file;
    assert store.PartitionReads(0) == file;
    assert store.KeyReads([0]) == store.KeyReads([]) + file == file;
  }

  lemma OneRowRead(env: Env, store: Store, b: Batch)
    requires store == Store([0], map[0 := [[Ok(b)]]])
    ensures store.Valid() && PlainReading(env, store, None) == Ok(b.rows)
  {
    OneFileReads(store, [Ok(b)]);
    LoadStep(env, None, [], Ok(b));
    assert [] + [Ok(b)] == [Ok(b)];
    assert [] + [b] == [b] && [b][..0] == [];
    assert BatchRows([b]) == BatchRows([]) + b.rows == b.rows;
  }

  // ----- Folding remainders -----

  lemma {:induction false} FoldedLocal(now: int, e: Expr)
    requires Local(e)
    ensures Local(FoldExpr(now, e))
    decreases e
  {
    if e.Bin? {
      FoldedLocal(now, e.left);
      FoldedLocal(now, e.right);
    }
  }

  /** The folded predicate filters every batch alike, with the same errors, exactly if no
      remainder was folded or the folded predicate cannot be evaluated on the batch either. */
  lemma FoldingExactly(env: Env, default: Ty -> Val, b: Batch, e: Expr)
    requires Uniform(env, default) && Local(e)
    ensures FilterBatch(env, FoldExpr(env.now, e), b) == FilterBatch(env, e, b)
       <==> !FoldsRemainder(env.now, e) || !Evaluable(env, default, b.schema, FoldExpr(env.now, e), b.rows)
  {
    FoldingPreserves(env, b, e);
    FoldedLocal(env.now, e);
    FilterBatchMeaning(env, default, FoldExpr(env.now, e), b);
  }

  // ----- Row by row -----

  lemma {:induction false} FromBatchesSchema(bs: seq<Batch>, schema: map<string, Ty>)
    requires forall i | 0 <= i < |bs| :: bs[i].schema == schema
    ensures OfSchema(FromBatches(bs), schema)
  {
    if bs != [] { FromBatchesSchema(bs[1..], schema); }
  }

  /** For a predicate without functions the plain reading is the selection of single rows,
      whatever the SSTables and batches they lie in. */
  lemma PlainReadingRowwise(env: Env, default: Ty -> Val, store: Store, schema: map<string, Ty>, e: Expr, bs: seq<Batch>)
    requires Uniform(env, default) && Local(e) && LoadReads(env, None, store.Reads([])) == Ok(bs)
    requires forall i | 0 <= i < |bs| :: bs[i].schema == schema
    ensures var rows := BatchRows(bs);
            PlainReading(env, store, Some(e)) ==
            if bs == [] || Evaluable(env, default, schema, e, rows) then Ok(Selected(env, default, schema, e, rows)) else Err
  {
    FromBatchesSchema(bs, schema);
    FromBatchesRows(bs);
    FilterMeaning(env, default, schema, e, FromBatches(bs));
  }
}
