/** Partition pruning: the extracted range confines every matching row, so the partitions
    left out hold none. */
module Pruning {
  import opened Options
  import opened Ast
  import opened Evaluate
  import opened Folding
  import opened Plans
  import opened Operators
  import Rowwise
  import opened Scans

  function Timestamp(row: Row): Option<int> {
    if "timestamp_ns" in row && row["timestamp_ns"].VInt? then Some(row["timestamp_ns"].n) else None
  }

  /** The predicate is true of row `i`. */
  ghost predicate Truth(r: Result<Arr>, i: nat) {
    r.Ok? && r.value.ty == TBool && i < |r.value.vals| && r.value.vals[i] == VBool(true)
  }

  lemma AndTrue(env: Env, l: Result<Arr>, r: Result<Arr>, i: nat)
    requires Truth(Binary(env, AndOp, l, r), i)
    ensures Truth(l, i) && Truth(r, i)
  {
    var lv, rv := l.value.vals, r.value.vals;
    assert Zip(AndVals, lv, rv)[i] == AndVals(lv[i], rv[i]);
  }

  lemma CompareTrue(env: Env, b: Batch, op: BinOp, x: Expr, y: Expr, i: nat)
    requires (op == GtEqOp || op == LtEqOp) && IsTimestamp(x) && IsIntLit(y) && i < |b.rows|
    requires Truth(Binary(env, op, Eval(env, b, x), Eval(env, b, y)), i)
    ensures Timestamp(b.rows[i]).Some?
    ensures var t := Timestamp(b.rows[i]).value; if op == GtEqOp then t >= y.lit.n else t <= y.lit.n
  {
  }

  lemma BetweenTrue(env: Env, x: Result<Arr>, lo: Result<Arr>, hi: Result<Arr>, i: nat)
    requires Truth(BetweenArrays(env, x, lo, hi), i)
    ensures Truth(Binary(env, GtEqOp, x, lo), i) && Truth(Binary(env, LtEqOp, x, hi), i)
  {
    Rowwise.BetweenIsAnd(env, x, lo, hi);
    AndTrue(env, Binary(env, GtEqOp, x, lo), Binary(env, LtEqOp, x, hi), i);
  }

  /** The literals of the range bound the timestamp of every matching row. */
  lemma {:induction false} RangeBounds(env: Env, b: Batch, e: Expr, i: nat)
    requires i < |b.rows| && Truth(Eval(env, b, e), i) && TimeRange(e).Some?
    ensures Timestamp(b.rows[i]).Some?
    ensures var t, r := Timestamp(b.rows[i]).value, TimeRange(e).value;
            (r.low.Some? ==> r.low.value <= t) && (r.high.Some? ==> t <= r.high.value)
    decreases e
  {
    match e
    case Bin(op, l, r) =>
      if op == AndOp {
        AndTrue(env, Eval(env, b, l), Eval(env, b, r), i);
        if TimeRange(l).Some? { RangeBounds(env, b, l, i); }
        if TimeRange(r).Some? { RangeBounds(env, b, r, i); }
      } else {
        CompareTrue(env, b, op, l, r, i);
      }
    case BetweenExpr(x, lo, hi) =>
      BetweenTrue(env, Eval(env, b, x), Eval(env, b, lo), Eval(env, b, hi), i);
      CompareTrue(env, b, GtEqOp, x, lo, i);
      CompareTrue(env, b, LtEqOp, x, hi, i);
  }

  /** The literals are 64-bit, and the one that gives the start is not negative. */
  predicate Castable(r: Range) {
    && (r.low.Some? ==> 0 <= r.low.value < TWO63)
    && (r.high.Some? ==> IsI64(r.high.value))
  }

  /** A matching row lies in the range that pruning looks up. */
  lemma RangeSound(env: Env, b: Batch, e: Expr, i: nat)
    requires i < |b.rows| && Truth(Eval(env, b, e), i) && TimeRange(e).Some? && Castable(TimeRange(e).value)
    requires Timestamp(b.rows[i]).Some? ==> 0 <= Timestamp(b.rows[i]).value < TWO64
    ensures Timestamp(b.rows[i]).Some?
    ensures TimeRange(e).value.Start() <= Timestamp(b.rows[i]).value <= TimeRange(e).value.End()
  {
    RangeBounds(env, b, e, i);
  }

  function AtLeast(n: int): Expr { Bin(GtEqOp, Column(None, "timestamp_ns"), Lit(IntL(n))) }

  function OneRow(t: int): Batch { Batch(map["timestamp_ns" := TUInt], [map["timestamp_ns" := VInt(t)]]) }

  /** A lower bound prunes soundly exactly if it is not negative, or if unsigned timestamps
      do not compare with it at all: the cast makes a negative one larger than every
      timestamp it admits. */
  lemma LowerBoundExactly(env: Env, n: int)
    requires IsI64(n)
    ensures (forall t | 0 <= t < TWO64 && Truth(Eval(env, OneRow(t), AtLeast(n)), 0) :: TimeRange(AtLeast(n)).value.Start() <= t)
       <==> n >= 0 || !env.widen
  {
    if env.widen {
      forall t ensures Truth(Eval(env, OneRow(t), AtLeast(n)), 0) <==> t >= n { AtLeastMeans(env, n, t); }
      if n < 0 {
        assert 0 <= 0 < TWO64 && Truth(Eval(env, OneRow(0), AtLeast(n)), 0);
        assert TimeRange(AtLeast(n)).value.Start() > 0;
      }
    } else {
      forall t ensures !Truth(Eval(env, OneRow(t), AtLeast(n)), 0) { TimePredicatesFail(env, OneRow(t), AtLeast(n)); }
    }
  }

  lemma AtLeastMeans(env: Env, n: int, t: int)
    requires env.widen
    ensures Truth(Eval(env, OneRow(t), AtLeast(n)), 0) <==> t >= n
  {
    var b := OneRow(t);
    assert ColumnArr(b, "timestamp_ns").value.vals == [VInt(t)];
    assert LiteralArr(IntL(n), 1) == Arr(TInt, [VInt(n)]);
    assert Eval(env, b, Lit(IntL(n))) == Ok(Arr(TInt, [VInt(n)]));
  }

  /** The comparisons of the source have no unsigned-with-signed pair: on an unsigned
      timestamp every predicate that pruning understands is an error. */
  lemma {:induction false} TimePredicatesFail(env: Env, b: Batch, e: Expr)
    requires !env.widen && "timestamp_ns" in b.schema && b.schema["timestamp_ns"] == TUInt && TimeRange(e).Some?
    ensures Eval(env, b, e).Err?
    decreases e
  {
    if e.Bin? && e.op == AndOp {
      if TimeRange(e.left).Some? { TimePredicatesFail(env, b, e.left); } else { TimePredicatesFail(env, b, e.right); }
    }
  }

  // ----- Scans by partition -----

  function BatchRows(bs: seq<Batch>): seq<Row> {
    if bs == [] then [] else BatchRows(bs[..|bs| - 1]) + bs[|bs| - 1].rows
  }

  lemma {:induction false} BatchRowsConcat(a: seq<Batch>, b: seq<Batch>)
    ensures BatchRows(a + b) == BatchRows(a) + BatchRows(b)
    decreases |b|
  {
    if b == [] {
      assert a + b == a;
    } else {
      assert (a + b)[..|a + b| - 1] == a + b[..|b| - 1];
      BatchRowsConcat(a, b[..|b| - 1]);
    }
  }

  lemma {:induction false} LoadConcat(env: Env, pred: Option<Expr>, a: seq<Result<Batch>>, b: seq<Result<Batch>>)
    ensures LoadReads(env, pred, a + b) == Extend(LoadReads(env, pred, a), LoadReads(env, pred, b))
    decreases |b|
  {
    if b == [] {
      assert a + b == a;
      if LoadReads(env, pred, a).Ok? { assert LoadReads(env, pred, a).value + [] == LoadReads(env, pred, a).value; }
    } else {
      var n := |b| - 1;
      LoadConcat(env, pred, a, b[..n]);
      assert a + b == a + b[..n] + [b[n]] && b == b[..n] + [b[n]];
      LoadStep(env, pred, a + b[..n], b[n]);
      LoadStep(env, pred, b[..n], b[n]);
      ExtendAssociates(LoadReads(env, pred, a), LoadReads(env, pred, b[..n]), KeepRead(env, pred, b[n]));
    }
  }

  lemma ExtendAssociates(x: Result<seq<Batch>>, y: Result<seq<Batch>>, z: Result<seq<Batch>>)
    ensures Extend(Extend(x, y), z) == Extend(x, Extend(y, z))
  {
    if x.Ok? && y.Ok? && z.Ok? { assert x.value + y.value + z.value == x.value + (y.value + z.value); }
  }

  /** The rows a partition contributes */
  ghost function PartBag(env: Env, pred: Option<Expr>, store: Store, k: nat): multiset<Row> {
    RowBag(LoadReads(env, pred, store.PartitionReads(k)))
  }

  ghost function RowBag(r: Result<seq<Batch>>): multiset<Row> {
    match r case Err => multiset{} case Ok(bs) => multiset(BatchRows(bs))
  }

  lemma ExtendBag(x: Result<seq<Batch>>, y: Result<seq<Batch>>)
    requires x.Ok? && y.Ok?
    ensures RowBag(Extend(x, y)) == RowBag(x) + RowBag(y)
  {
    BatchRowsConcat(x.value, y.value);
  }

  ghost predicate Loads(env: Env, pred: Option<Expr>, store: Store, k: nat) {
    LoadReads(env, pred, store.PartitionReads(k)).Ok?
  }

  lemma KeyStep(env: Env, pred: Option<Expr>, store: Store, keys: seq<nat>)
    requires keys != []
    ensures var init, k := keys[..|keys| - 1], keys[|keys| - 1];
            LoadReads(env, pred, store.KeyReads(keys)) ==
            Extend(LoadReads(env, pred, store.KeyReads(init)), LoadReads(env, pred, store.PartitionReads(k)))
  {
    LoadConcat(env, pred, store.KeyReads(keys[..|keys| - 1]), store.PartitionReads(keys[|keys| - 1]));
  }

  ghost predicate AllTrue(f: nat -> bool, keys: seq<nat>) {
    keys == [] || (AllTrue(f, keys[..|keys| - 1]) && f(keys[|keys| - 1]))
  }

  lemma {:induction false} AllTrueMeaning(f: nat -> bool, keys: seq<nat>)
    ensures AllTrue(f, keys) <==> forall k | k in keys :: f(k)
  {
    if keys != [] {
      AllTrueMeaning(f, keys[..|keys| - 1]);
      assert keys == keys[..|keys| - 1] + [keys[|keys| - 1]];
    }
  }

  ghost function Loader(env: Env, pred: Option<Expr>, store: Store): nat -> bool { (k: nat) => Loads(env, pred, store, k) }

  lemma {:induction false} LoadIsAll(env: Env, pred: Option<Expr>, store: Store, keys: seq<nat>)
    ensures LoadReads(env, pred, store.KeyReads(keys)).Ok? <==> AllTrue(Loader(env, pred, store), keys)
    decreases |keys|
  {
    if keys != [] {
      KeyStep(env, pred, store, keys);
      LoadIsAll(env, pred, store, keys[..|keys| - 1]);
    }
  }

  lemma LoadSucceeds(env: Env, pred: Option<Expr>, store: Store, keys: seq<nat>)
    ensures LoadReads(env, pred, store.KeyReads(keys)).Ok? <==> forall k | k in keys :: Loads(env, pred, store, k)
  {
    var f := Loader(env, pred, store);
    LoadIsAll(env, pred, store, keys);
    AllTrueMeaning(f, keys);
    assert forall k: nat :: f(k) <==> Loads(env, pred, store, k);
  }

  // ----- Sums over keys: neither their order matters, nor keys without rows -----

  ghost function Sum(f: nat -> multiset<Row>, keys: seq<nat>): multiset<Row> {
    if keys == [] then multiset{} else Sum(f, keys[..|keys| - 1]) + f(keys[|keys| - 1])
  }

  ghost predicate Distinct(keys: seq<nat>) { forall i, j | 0 <= i < j < |keys| :: keys[i] != keys[j] }

  lemma {:induction false} SumConcat(f: nat -> multiset<Row>, a: seq<nat>, b: seq<nat>)
    ensures Sum(f, a + b) == Sum(f, a) + Sum(f, b)
    decreases |b|
  {
    if b == [] {
      assert a + b == a;
    } else {
      assert (a + b)[..|a + b| - 1] == a + b[..|b| - 1];
      SumConcat(f, a, b[..|b| - 1]);
    }
  }

  lemma SumSnoc(f: nat -> multiset<Row>, keys: seq<nat>, k: nat)
    ensures Sum(f, keys + [k]) == Sum(f, keys) + f(k)
  {
    assert (keys + [k])[..|keys|] == keys;
  }

  lemma SumRemove(f: nat -> multiset<Row>, keys: seq<nat>, i: nat)
    requires i < |keys|
    ensures Sum(f, keys) == Sum(f, keys[..i] + keys[i + 1..]) + f(keys[i])
  {
    var a, k, b := keys[..i], keys[i], keys[i + 1..];
    assert keys == a + [k] + b;
    SumConcat(f, a + [k], b);
    SumSnoc(f, a, k);
    SumConcat(f, a, b);
    assert Sum(f, a) + f(k) + Sum(f, b) == Sum(f, a) + Sum(f, b) + f(k);
  }

  lemma {:induction false} SumEmpty(f: nat -> multiset<Row>, keys: seq<nat>)
    requires forall k | k in keys :: f(k) == multiset{}
    ensures Sum(f, keys) == multiset{}
  {
    if keys != [] { SumEmpty(f, keys[..|keys| - 1]); }
  }

  lemma {:induction false} SameSum(f: nat -> multiset<Row>, a: seq<nat>, b: seq<nat>)
    requires Distinct(a) && Distinct(b)
    requires forall k | k in a && k !in b :: f(k) == multiset{}
    requires forall k | k in b && k !in a :: f(k) == multiset{}
    ensures Sum(f, a) == Sum(f, b)
    decreases |a|
  {
    if a == [] {
      SumEmpty(f, b);
    } else {
      var init, k := a[..|a| - 1], a[|a| - 1];
      assert a == init + [k] && k !in init;
      if k in b {
        var i :| 0 <= i < |b| && b[i] == k;
        SumRemove(f, b, i);
        SameSum(f, init, Without(b, i));
      } else {
        SameSum(f, init, b);
      }
    }
  }

  ghost function Without(b: seq<nat>, i: nat): (rest: seq<nat>)
    requires Distinct(b) && i < |b|
    ensures rest == b[..i] + b[i + 1..] && Distinct(rest)
    ensures forall x :: x in rest <==> x in b && x != b[i]
  {
    var rest := b[..i] + b[i + 1..];
    assert forall x | x in b && x != b[i] :: x in rest by {
      forall x | x in b && x != b[i] ensures x in rest {
        var j :| 0 <= j < |b| && b[j] == x;
        assert x == if j < i then rest[j] else rest[j - 1];
      }
    }
    rest
  }

  ghost function PartBags(env: Env, pred: Option<Expr>, store: Store): nat -> multiset<Row> {
    (k: nat) => PartBag(env, pred, store, k)
  }

  lemma {:induction false} LoadBag(env: Env, pred: Option<Expr>, store: Store, keys: seq<nat>)
    requires LoadReads(env, pred, store.KeyReads(keys)).Ok?
    ensures RowBag(LoadReads(env, pred, store.KeyReads(keys))) == Sum(PartBags(env, pred, store), keys)
    decreases |keys|
  {
    if keys != [] {
      var init, k := keys[..|keys| - 1], keys[|keys| - 1];
      KeyStep(env, pred, store, keys);
      LoadBag(env, pred, store, init);
      ExtendBag(LoadReads(env, pred, store.KeyReads(init)), LoadReads(env, pred, store.PartitionReads(k)));
    }
  }

  // ----- Statistics -----

  /** The statistics of a partition bound the timestamps in it. */
  ghost predicate Bounds(stat: Stat, input: seq<Result<Batch>>) {
    stat.max < TWO64 &&
    forall i, j | 0 <= i < |input| && input[i].Ok? && 0 <= j < |input[i].value.rows| ::
      BoundedRow(stat, input[i].value.rows[j])
  }

  predicate BoundedRow(stat: Stat, row: Row) {
    Timestamp(row).Some? ==> stat.min <= Timestamp(row).value <= stat.max
  }

  ghost predicate DistinctStats(stats: seq<Stat>) { forall i, j | 0 <= i < j < |stats| :: stats[i].key != stats[j].key }

  ghost predicate Covered(stats: seq<Stat>, store: Store, k: nat) {
    exists j :: 0 <= j < |stats| && stats[j].key == k && Bounds(stats[j], store.PartitionReads(k))
  }

  /** One entry per partition, and every partition has one that bounds it */
  ghost predicate Covers(stats: seq<Stat>, store: Store) {
    DistinctStats(stats) && forall k | k in store.order :: Covered(stats, store, k)
  }

  lemma {:induction false} OverlappingIncludes(stats: seq<Stat>, start: nat, end: nat, i: nat)
    requires i < |stats| && stats[i].min <= end && stats[i].max >= start
    ensures stats[i].key in Overlapping(stats, start, end)
  {
    if i < |stats| - 1 { OverlappingIncludes(stats[..|stats| - 1], start, end, i); }
  }

  lemma {:induction false} OverlappingFrom(stats: seq<Stat>, start: nat, end: nat, k: nat) returns (i: nat)
    requires k in Overlapping(stats, start, end)
    ensures i < |stats| && stats[i].key == k
  {
    var n := |stats| - 1;
    if k in Overlapping(stats[..n], start, end) { i := OverlappingFrom(stats[..n], start, end, k); } else { i := n; }
  }

  lemma {:induction false} OverlappingDistinct(stats: seq<Stat>, start: nat, end: nat)
    requires DistinctStats(stats)
    ensures Distinct(Overlapping(stats, start, end))
  {
    if stats != [] {
      var n := |stats| - 1;
      OverlappingDistinct(stats[..n], start, end);
      var init, last := Overlapping(stats[..n], start, end), stats[n].key;
      if last in init {
        var i := OverlappingFrom(stats[..n], start, end, last);
        assert false;
      }
      DistinctSnoc(init, last);
    }
  }

  lemma DistinctSnoc(keys: seq<nat>, k: nat)
    requires Distinct(keys) && k !in keys
    ensures Distinct(keys + [k])
  {
  }

  lemma {:induction false} NothingKept(rows: seq<Row>, mask: seq<Val>)
    requires |rows| == |mask| && forall i | 0 <= i < |mask| :: mask[i] != VBool(true)
    ensures Kept(rows, mask) == []
  {
    if rows != [] { NothingKept(rows[..|rows| - 1], mask[..|rows| - 1]); }
  }

  /** No row of a batch outside the range passes the filter. */
  lemma OutsideFilter(env: Env, e: Expr, b: Batch, stat: Stat)
    requires TimeRange(e).Some? && Castable(TimeRange(e).value) && stat.max < TWO64
    requires stat.min > TimeRange(e).value.End() || stat.max < TimeRange(e).value.Start()
    requires forall j | 0 <= j < |b.rows| :: BoundedRow(stat, b.rows[j])
    ensures FilterBatch(env, e, b).Ok? ==> FilterBatch(env, e, b).value.rows == []
  {
    var a := Eval(env, b, e);
    if a.Ok? && a.value.ty == TBool {
      EvalLength(env, b, e);
      forall i | 0 <= i < |b.rows| ensures a.value.vals[i] != VBool(true) {
        if a.value.vals[i] == VBool(true) {
          assert BoundedRow(stat, b.rows[i]);
          RangeSound(env, b, e, i);
          assert false;
        }
      }
      NothingKept(b.rows, a.value.vals);
    }
  }

  lemma {:induction false} OutsidePartition(env: Env, e: Expr, input: seq<Result<Batch>>, stat: Stat)
    requires TimeRange(e).Some? && Castable(TimeRange(e).value) && Bounds(stat, input)
    requires stat.min > TimeRange(e).value.End() || stat.max < TimeRange(e).value.Start()
    ensures LoadReads(env, Some(e), input).Ok? ==> LoadReads(env, Some(e), input).value == []
  {
    if input != [] {
      var init, x := input[..|input| - 1], input[|input| - 1];
      assert Bounds(stat, init);
      OutsidePartition(env, e, init, stat);
      if x.Ok? { OutsideFilter(env, e, x.value, stat); }
      assert input == init + [x];
      LoadStep(env, Some(e), init, x);
    }
  }

  lemma PrunedIsEmpty(env: Env, e: Expr, stats: seq<Stat>, store: Store, k: nat)
    requires TimeRange(e).Some? && Castable(TimeRange(e).value) && Covered(stats, store, k)
    requires k !in Overlapping(stats, TimeRange(e).value.Start(), TimeRange(e).value.End())
    ensures PartBag(env, Some(e), store, k) == multiset{}
  {
    var r := TimeRange(e).value;
    var j :| 0 <= j < |stats| && stats[j].key == k && Bounds(stats[j], store.PartitionReads(k));
    if stats[j].min <= r.End() && stats[j].max >= r.Start() { OverlappingIncludes(stats, r.Start(), r.End(), j); }
    OutsidePartition(env, e, store.PartitionReads(k), stats[j]);
  }

  /** If the scan of everything succeeds, so does the pruned scan, with the same rows;
      an empty list of overlapping partitions scans everything. */
  lemma PrunedScanKeepsMatches(env: Env, e: Expr, stats: seq<Stat>, store: Store)
    requires store.Valid() && Covers(stats, store) && TimeRange(e).Some? && Castable(TimeRange(e).value)
    requires LoadReads(env, Some(e), store.Reads([])).Ok?
    ensures var keys := Overlapping(stats, TimeRange(e).value.Start(), TimeRange(e).value.End());
            var pruned := LoadReads(env, Some(e), store.Reads(keys));
            pruned.Ok? && RowBag(pruned) == RowBag(LoadReads(env, Some(e), store.Reads([])))
  {
    var keys := Overlapping(stats, TimeRange(e).value.Start(), TimeRange(e).value.End());
    if keys != [] {
      OverlappingDistinct(stats, TimeRange(e).value.Start(), TimeRange(e).value.End());
      KnownLoads(env, e, store, keys);
      LoadBag(env, Some(e), store, keys);
      LoadBag(env, Some(e), store, store.order);
      SamePartitions(env, e, stats, store, keys);
    }
  }

  lemma SamePartitions(env: Env, e: Expr, stats: seq<Stat>, store: Store, keys: seq<nat>)
    requires store.Valid() && Covers(stats, store) && TimeRange(e).Some? && Castable(TimeRange(e).value)
    requires keys == Overlapping(stats, TimeRange(e).value.Start(), TimeRange(e).value.End()) && Distinct(keys)
    ensures Sum(PartBags(env, Some(e), store), keys) == Sum(PartBags(env, Some(e), store), store.order)
  {
    var f := PartBags(env, Some(e), store);
    forall k | k in store.order && k !in keys ensures f(k) == multiset{} { PrunedIsEmpty(env, e, stats, store, k); }
    forall k | k in keys && k !in store.order ensures f(k) == multiset{} {
      assert store.PartitionReads(k) == [];
    }
    SameSum(f, keys, store.order);
  }

  lemma OverlapTwice(stat: Stat, start: nat, end: nat)
    requires stat.min <= end && stat.max >= start
    ensures Overlapping([stat, stat], start, end) == [stat.key, stat.key]
  {
    var stats := [stat, stat];
    assert stats[..1] == [stat] && [stat][..0] == [];
    assert Overlapping([stat], start, end) == [stat.key];
  }

  lemma SumTwice(f: nat -> multiset<Row>, k: nat)
    ensures Sum(f, [k, k]) == f(k) + f(k)
  {
    assert [k, k][..1] == [k] && [k][..0] == [];
    assert Sum(f, [k]) == Sum(f, []) + f(k);
    assert Sum(f, [k, k]) == Sum(f, [k, k][..1]) + f(k);
  }

  function CountOf(keys: seq<nat>, k: nat): nat {
    if keys == [] then 0 else CountOf(keys[..|keys| - 1], k) + if keys[|keys| - 1] == k then 1 else 0
  }

  /** `c` for each time `k` is listed */
  function Copies(keys: seq<nat>, k: nat, c: nat): nat {
    if keys == [] then 0 else Copies(keys[..|keys| - 1], k, c) + if keys[|keys| - 1] == k then c else 0
  }

  lemma {:induction false} CopiesCount(keys: seq<nat>, k: nat, c: nat)
    requires c > 0
    ensures match CountOf(keys, k) case 0 => Copies(keys, k, c) == 0 case 1 => Copies(keys, k, c) == c case _ => Copies(keys, k, c) > c
  {
    if keys != [] { CopiesCount(keys[..|keys| - 1], k, c); }
  }

  /** A row that only partition `k` holds comes once for each time `k` is listed. */
  lemma {:induction false} SumCounts(f: nat -> multiset<Row>, keys: seq<nat>, k: nat, x: Row)
    requires forall j | j in keys && j != k :: f(j)[x] == 0
    ensures Sum(f, keys)[x] == Copies(keys, k, f(k)[x])
  {
    if keys != [] {
      assert forall j | j in keys[..|keys| - 1] :: j in keys;
      assert keys[|keys| - 1] in keys;
      SumCounts(f, keys[..|keys| - 1], k, x);
    }
  }

  /** No row lies in two partitions, as placement by timestamp ensures. */
  ghost predicate Disjoint(f: nat -> multiset<Row>, keys: seq<nat>) {
    forall j, k, x | j in keys && k in keys && j != k && x in f(j) :: x !in f(k)
  }

  ghost predicate ListedOnce(f: nat -> multiset<Row>, keys: seq<nat>, all: seq<nat>) {
    forall k | k in all && f(k) != multiset{} :: CountOf(keys, k) == 1
  }

  lemma {:induction false} NeverListed(keys: seq<nat>, k: nat)
    requires k !in keys
    ensures CountOf(keys, k) == 0
  {
    if keys != [] { NeverListed(keys[..|keys| - 1], k); }
  }

  lemma {:induction false} OnceInAll(all: seq<nat>, k: nat)
    requires Distinct(all) && k in all
    ensures CountOf(all, k) == 1
  {
    var init, last := all[..|all| - 1], all[|all| - 1];
    assert all == init + [last];
    if last == k { NeverListed(init, k); } else { OnceInAll(init, k); }
  }

  lemma SameCounts(f: nat -> multiset<Row>, keys: seq<nat>, all: seq<nat>, k: nat, x: Row)
    requires Distinct(all) && Disjoint(f, all) && (forall j | j in keys && j !in all :: f(j) == multiset{})
    requires k in all && x in f(k)
    ensures Sum(f, keys)[x] == Sum(f, all)[x] <==> CountOf(keys, k) == 1
  {
    SumCounts(f, keys, k, x);
    SumCounts(f, all, k, x);
    OnceInAll(all, k);
    CopiesCount(keys, k, f(k)[x]);
    CopiesCount(all, k, f(k)[x]);
  }

  lemma {:induction false} SumMember(f: nat -> multiset<Row>, keys: seq<nat>, x: Row)
    ensures x in Sum(f, keys) <==> exists k :: k in keys && x in f(k)
  {
    if keys != [] {
      var init, last := keys[..|keys| - 1], keys[|keys| - 1];
      SumMember(f, init, x);
      assert keys == init + [last];
    }
  }

  lemma OnceSum(f: nat -> multiset<Row>, keys: seq<nat>, all: seq<nat>)
    requires Distinct(all) && Disjoint(f, all) && (forall j | j in keys && j !in all :: f(j) == multiset{})
    ensures Sum(f, keys) == Sum(f, all) <==> ListedOnce(f, keys, all)
  {
    if ListedOnce(f, keys, all) {
      forall x ensures Sum(f, keys)[x] == Sum(f, all)[x] {
        SumMember(f, keys, x);
        SumMember(f, all, x);
        if x in Sum(f, keys) || x in Sum(f, all) {
          var k :| k in all && x in f(k);
          SameCounts(f, keys, all, k, x);
        }
      }
    }
    if Sum(f, keys) == Sum(f, all) {
      forall k | k in all && f(k) != multiset{} ensures CountOf(keys, k) == 1 {
        var x :| x in f(k);
        SameCounts(f, keys, all, k, x);
      }
    }
  }

  /** Whatever the statistics say, the pruned scan has the rows of the full scan exactly if no
      partition overlaps, so that nothing is pruned, or each partition with matching rows is
      listed exactly once. */
  lemma PrunedExactly(env: Env, e: Expr, stats: seq<Stat>, store: Store)
    requires store.Valid() && TimeRange(e).Some? && LoadReads(env, Some(e), store.Reads([])).Ok?
    requires Disjoint(PartBags(env, Some(e), store), store.order)
    ensures var keys := Overlapping(stats, TimeRange(e).value.Start(), TimeRange(e).value.End());
            var pruned := LoadReads(env, Some(e), store.Reads(keys));
            pruned.Ok? && (RowBag(pruned) == RowBag(LoadReads(env, Some(e), store.Reads([])))
                           <==> keys == [] || ListedOnce(PartBags(env, Some(e), store), keys, store.order))
  {
    var keys := Overlapping(stats, TimeRange(e).value.Start(), TimeRange(e).value.End());
    if keys != [] {
      KnownLoads(env, e, store, keys);
      LoadBag(env, Some(e), store, keys);
      LoadBag(env, Some(e), store, store.order);
      var f := PartBags(env, Some(e), store);
      forall k | k in keys && k !in store.order ensures f(k) == multiset{} { assert store.PartitionReads(k) == []; }
      OnceSum(f, keys, store.order);
    }
  }

  /** Unknown partitions are skipped, so what loads in full loads in part. */
  lemma KnownLoads(env: Env, e: Expr, store: Store, keys: seq<nat>)
    requires store.Valid() && LoadReads(env, Some(e), store.KeyReads(store.order)).Ok?
    ensures LoadReads(env, Some(e), store.KeyReads(keys)).Ok?
  {
    LoadSucceeds(env, Some(e), store, store.order);
    forall k | k in keys ensures Loads(env, Some(e), store, k) {
      if k !in store.order { assert store.PartitionReads(k) == []; }
    }
    LoadSucceeds(env, Some(e), store, keys);
  }

  /** Two entries for one partition make the scan return its rows twice. */
  lemma DuplicateEntryDoubles(env: Env, e: Expr, stat: Stat, store: Store)
    requires TimeRange(e).Some? && Loads(env, Some(e), store, stat.key)
    requires stat.min <= TimeRange(e).value.End() && stat.max >= TimeRange(e).value.Start()
    ensures var keys := Overlapping([stat, stat], TimeRange(e).value.Start(), TimeRange(e).value.End());
            var rows := PartBag(env, Some(e), store, stat.key);
            RowBag(LoadReads(env, Some(e), store.Reads(keys))) == rows + rows
  {
    var k := stat.key;
    OverlapTwice(stat, TimeRange(e).value.Start(), TimeRange(e).value.End());
    LoadSucceeds(env, Some(e), store, [k, k]);
    LoadBag(env, Some(e), store, [k, k]);
    SumTwice(PartBags(env, Some(e), store), k);
  }
}
