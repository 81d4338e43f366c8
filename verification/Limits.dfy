/** Where the answer departs from the statement, and exactly when it does not. */
module Limits {
  import opened Options
  import opened Ast
  import opened Evaluate
  import opened Plans
  import opened Operators
  import opened Scans
  import opened Pruning
  import opened Rowwise
  import opened Queries

  // ----- LIMIT with OFFSET -----

  /** The rows answered for `LIMIT n OFFSET o` when the scan loads `bs` */
  function Answered(bs: seq<Batch>, n: nat, offset: nat): seq<Row> {
    Rows(LimitStream(n, offset, FromBatches(Capped(bs, Some(n)))))
  }

  function Copies(row: Row, n: nat): seq<Row> { seq(n, _ => row) }

  function TwoBatches(n: nat, m: nat): seq<Batch> {
    [Batch(map[], Copies(map[], n)), Batch(map[], Copies(map[], m))]
  }

  lemma TwoBatchesRows(a: Batch, b: Batch)
    ensures BatchRows([a, b]) == a.rows + b.rows && BatchRows([a]) == a.rows
    ensures BatchRows([]) == []
  {
    assert [a, b][..1] == [a] && [a][..0] == [];
    assert BatchRows([a]) == BatchRows([]) + a.rows;
  }

  lemma RetainsFirst(a: Batch, b: Batch, n: nat)
    requires |a.rows| == n > 0
    ensures Retain([a, b], 0, n) == [a]
  {
    assert [a, b][1..] == [b];
    assert Retain([b], n, n) == [];
  }

  lemma OffsetLosesRows(n: nat, offset: nat)
    requires n > 0 && offset > 0
    ensures var bs := TwoBatches(n, offset);
            |Answered(bs, n, offset)| < n && |Clip(BatchRows(bs), offset, n)| == n
  {
    var bs := TwoBatches(n, offset);
    RetainsFirst(bs[0], bs[1], n);
    TwoBatchesRows(bs[0], bs[1]);
    FromBatchesRows([bs[0]]);
    LimitMeaning(n, offset, FromBatches([bs[0]]));
  }

  /** `LIMIT n OFFSET o` is answered right for whatever the scan loads exactly if one of the
      two is zero: the scan stops at `n` rows and does not know of the offset. */
  lemma OffsetExactly(n: nat, offset: nat)
    ensures (forall bs :: Answered(bs, n, offset) == Clip(BatchRows(bs), offset, n)) <==> n == 0 || offset == 0
  {
    if n == 0 || offset == 0 {
      forall bs ensures Answered(bs, n, offset) == Clip(BatchRows(bs), offset, n) {
        FromBatchesRows(bs);
        LimitMeaning(n, offset, FromBatches(bs));
        if offset == 0 {
          ScanLimitInvisible(bs, n, n, 0);
        } else {
          LimitMeaning(0, offset, FromBatches(Capped(bs, Some(0))));
        }
      }
    } else {
      OffsetLosesRows(n, offset);
    }
  }

  /** For one load the answer is right exactly if there is nothing to answer, or the rows that
      the scan retains reach as far as the statement looks. */
  lemma OffsetPerLoad(bs: seq<Batch>, n: nat, offset: nat)
    ensures Answered(bs, n, offset) == Clip(BatchRows(bs), offset, n)
       <==> n == 0 || |BatchRows(bs)| <= offset || |BatchRows(Capped(bs, Some(n)))| >= Min(n + offset, |BatchRows(bs)|)
  {
    var kept := Capped(bs, Some(n));
    FromBatchesRows(bs);
    FromBatchesRows(kept);
    RetainMeaning(bs, 0, n);
    LimitMeaning(n, offset, FromBatches(kept));
    PrefixClips(BatchRows(kept), BatchRows(bs), offset, n);
  }

  lemma PrefixClips(a: seq<Row>, b: seq<Row>, offset: nat, n: nat)
    requires a <= b
    ensures Clip(a, offset, n) == Clip(b, offset, n) <==> n == 0 || |b| <= offset || |a| >= Min(n + offset, |b|)
  {
    if |a| >= Min(n + offset, |b|) && |a| < |b| { PrefixClip(a, b, offset, n); }
  }

  // ----- LIMIT with ORDER BY -----

  function ByColumn(c: string): seq<OrderByItem> { [OrderByItem(Column(None, c), true)] }

  ghost predicate HasInts(rows: seq<Row>, c: string) {
    forall i | 0 <= i < |rows| :: c in rows[i] && rows[i][c].VInt?
  }

  ghost predicate Ascending(rows: seq<Row>, c: string) {
    HasInts(rows, c) && forall i, j | 0 <= i < j < |rows| :: rows[i][c].n <= rows[j][c].n
  }

  /** The kernel sorts integer columns. */
  ghost predicate SortsBy(kernel: Kernel, c: string) {
    forall rows | HasInts(rows, c) ::
      var r := kernel(ByColumn(c), rows);
      r.Ok? && multiset(r.value) == multiset(rows) && Ascending(r.value, c)
  }

  function TopRows(kernel: Kernel, c: string, bs: seq<Batch>, n: nat): seq<Row> {
    Rows(LimitStream(n, 0, SortStream(kernel, ByColumn(c), FromBatches(bs))))
  }

  function IntRow(c: string, n: int): Row { map[c := VInt(n)] }

  function IntBatch(c: string, rows: seq<Row>): Batch { Batch(map[c := TInt], rows) }

  lemma {:induction false} SortedRows(kernel: Kernel, c: string, bs: seq<Batch>)
    requires SortsBy(kernel, c) && bs != [] && c in bs[0].schema && HasInts(BatchRows(bs), c)
    ensures Rows(SortStream(kernel, ByColumn(c), FromBatches(bs))) == kernel(ByColumn(c), BatchRows(bs)).value
  {
    FromBatchesRows(bs);
    var keys := ByColumn(c);
    assert keys[..0] == [];
    assert SortKeys(keys, bs[0].schema) == keys;
    var rows := kernel(keys, BatchRows(bs)).value;
    assert rows + [] == rows;
  }

  lemma {:induction false} TopIsClip(kernel: Kernel, c: string, bs: seq<Batch>, n: nat)
    requires SortsBy(kernel, c) && bs != [] && c in bs[0].schema && HasInts(BatchRows(bs), c)
    ensures TopRows(kernel, c, bs, n) == Clip(kernel(ByColumn(c), BatchRows(bs)).value, 0, n)
  {
    SortedRows(kernel, c, bs);
    LimitMeaning(n, 0, SortStream(kernel, ByColumn(c), FromBatches(bs)));
  }

  lemma SmallestFirst(rows: seq<Row>, c: string, small: Row)
    requires Ascending(rows, c) && small in multiset(rows) && c in small && small[c].VInt?
    ensures |rows| > 0 && rows[0][c].n <= small[c].n
  {
    var i :| 0 <= i < |rows| && rows[i] == small;
  }

  lemma OnlyCopies(rows: seq<Row>, row: Row, n: nat)
    requires multiset(rows) == multiset(Copies(row, n)) && n > 0
    ensures |rows| == n && rows[0] == row
  {
    assert |multiset(rows)| == |rows|;
    assert rows[0] in multiset(rows);
    assert rows[0] in Copies(row, n);
  }

  /** Rows with key 1 first, then one with key 0 */
  function Late(c: string, n: nat): seq<Batch> { [IntBatch(c, Copies(IntRow(c, 1), n)), IntBatch(c, [IntRow(c, 0)])] }

  lemma CappedTop(kernel: Kernel, c: string, n: nat)
    requires SortsBy(kernel, c) && n > 0
    ensures var top := TopRows(kernel, c, Capped(Late(c, n), Some(n)), n);
            |top| > 0 && top[0] == IntRow(c, 1)
  {
    var a, b := Late(c, n)[0], Late(c, n)[1];
    RetainsFirst(a, b, n);
    TwoBatchesRows(a, b);
    TopIsClip(kernel, c, [a], n);
    OnlyCopies(kernel(ByColumn(c), a.rows).value, IntRow(c, 1), n);
  }

  lemma FullTop(kernel: Kernel, c: string, n: nat)
    requires SortsBy(kernel, c) && n > 0
    ensures var top := TopRows(kernel, c, Late(c, n), n);
            |top| > 0 && c in top[0] && top[0][c].VInt? && top[0][c].n <= 0
  {
    var a, b := Late(c, n)[0], Late(c, n)[1];
    TwoBatchesRows(a, b);
    assert HasInts(a.rows + b.rows, c);
    TopIsClip(kernel, c, [a, b], n);
    assert (a.rows + b.rows)[n] == IntRow(c, 0);
    assert IntRow(c, 0) in multiset(a.rows + b.rows);
    SmallestFirst(kernel(ByColumn(c), a.rows + b.rows).value, c, IntRow(c, 0));
  }

  /** `ORDER BY c LIMIT n` is answered right for whatever the scan loads exactly if `n` is
      zero: the limit cuts the scan before the sort has seen every row. */
  lemma OrderedLimitExactly(kernel: Kernel, c: string, n: nat)
    requires SortsBy(kernel, c)
    ensures (forall bs :: TopRows(kernel, c, Capped(bs, Some(n)), n) == TopRows(kernel, c, bs, n)) <==> n == 0
  {
    if n > 0 {
      CappedTop(kernel, c, n);
      FullTop(kernel, c, n);
      assert TopRows(kernel, c, Capped(Late(c, n), Some(n)), n) != TopRows(kernel, c, Late(c, n), n);
    }
  }

  // ----- WHERE with HAVING -----

  ghost function SelectBy(f: Row -> bool, rows: seq<Row>): seq<Row> {
    if rows == [] then [] else
      var init, last := SelectBy(f, rows[..|rows| - 1]), rows[|rows| - 1];
      if f(last) then init + [last] else init
  }

  ghost function Keeper(env: Env, default: Ty -> Val, schema: map<string, Ty>, e: Expr): Row -> bool {
    row => Keeps(env, default, schema, e, row)
  }

  lemma {:induction false} SelectedIsBy(env: Env, default: Ty -> Val, schema: map<string, Ty>, e: Expr, rows: seq<Row>)
    ensures Selected(env, default, schema, e, rows) == SelectBy(Keeper(env, default, schema, e), rows)
    decreases |rows|
  {
    if rows != [] { SelectedIsBy(env, default, schema, e, rows[..|rows| - 1]); }
  }

  /** Selecting by `g` first loses nothing `f` would have selected, exactly if `f` implies `g`. */
  lemma {:induction false} SelectTwice(f: Row -> bool, g: Row -> bool, rows: seq<Row>)
    ensures |SelectBy(f, SelectBy(g, rows))| <= |SelectBy(f, rows)|
    ensures SelectBy(f, SelectBy(g, rows)) == SelectBy(f, rows) <==> forall i | 0 <= i < |rows| :: f(rows[i]) ==> g(rows[i])
    decreases |rows|
  {
    if rows != [] {
      var init, last := rows[..|rows| - 1], rows[|rows| - 1];
      SelectTwice(f, g, init);
      var kept := SelectBy(g, init);
      assert (kept + [last])[..|kept|] == kept;
      assert forall i | 0 <= i < |init| :: rows[i] == init[i];
      if f(last) && !g(last) {
        assert |SelectBy(f, SelectBy(g, rows))| < |SelectBy(f, rows)|;
      } else if SelectBy(f, SelectBy(g, rows)) == SelectBy(f, rows) && f(last) {
        assert SelectBy(f, rows)[..|SelectBy(f, rows)| - 1] == SelectBy(f, init);
        assert SelectBy(f, SelectBy(g, rows))[..|SelectBy(f, rows)| - 1] == SelectBy(f, kept);
      }
    }
  }

  /** Dropping WHERE, as a HAVING without aggregation does, leaves the answer right exactly
      if every row that satisfies HAVING satisfies WHERE too. */
  lemma LostWhereExactly(env: Env, default: Ty -> Val, schema: map<string, Ty>, h: Expr, w: Expr, rows: seq<Row>)
    ensures Selected(env, default, schema, h, Selected(env, default, schema, w, rows)) == Selected(env, default, schema, h, rows)
       <==> forall i | 0 <= i < |rows| :: Keeps(env, default, schema, h, rows[i]) ==> Keeps(env, default, schema, w, rows[i])
  {
    var f, g := Keeper(env, default, schema, h), Keeper(env, default, schema, w);
    SelectedIsBy(env, default, schema, w, rows);
    SelectedIsBy(env, default, schema, h, rows);
    SelectedIsBy(env, default, schema, h, SelectBy(g, rows));
    SelectTwice(f, g, rows);
    assert forall i | 0 <= i < |rows| :: f(rows[i]) == Keeps(env, default, schema, h, rows[i]);
    assert forall i | 0 <= i < |rows| :: g(rows[i]) == Keeps(env, default, schema, w, rows[i]);
  }
}
