/** The table scan, the tree of operators of a plan, and the answer of a query. */
module Scans {
  import opened Options
  import opened Ast
  import opened Evaluate
  import opened Plans
  import opened Operators

  /** What reading an SSTable gives: batches, or an error that ends it. A file that does not
      open is one error. */
  type File = seq<Result<Batch>>

  /** The SSTables of one signal by partition, and the order in which the map of partitions
      is walked */
  datatype Store = Store(order: seq<nat>, files: map<nat, seq<File>>) {

    ghost predicate Valid() {
      && (forall i, j | 0 <= i < j < |order| :: order[i] != order[j])
      && (forall k :: k in order <==> k in files)
    }

    function PartitionReads(k: nat): seq<Result<Batch>> { if k in files then Flat(files[k]) else [] }

    function KeyReads(keys: seq<nat>): seq<Result<Batch>> {
      if keys == [] then [] else KeyReads(keys[..|keys| - 1]) + PartitionReads(keys[|keys| - 1])
    }

    /** An empty filter means every partition. */
    function Reads(partitions: seq<nat>): seq<Result<Batch>> {
      KeyReads(if partitions == [] then order else partitions)
    }
  }

  function Flat(files: seq<File>): seq<Result<Batch>> {
    if files == [] then [] else Flat(files[..|files| - 1]) + files[|files| - 1]
  }

  // ----- Loading -----

  function Keep(env: Env, pred: Option<Expr>, b: Batch): Result<seq<Batch>> {
    match pred
    case None => Ok([b])
    case Some(e) =>
      match FilterBatch(env, e, b)
      case Err => Err
      case Ok(f) => Ok(if f.rows != [] then [f] else [])
  }

  function LoadReads(env: Env, pred: Option<Expr>, input: seq<Result<Batch>>): Result<seq<Batch>> {
    if input == [] then Ok([]) else
      match (LoadReads(env, pred, input[..|input| - 1]), input[|input| - 1])
      case (Ok(bs), Ok(b)) => (match Keep(env, pred, b) case Err => Err case Ok(k) => Ok(bs + k))
      case _ => Err
  }

  /** Batches as long as fewer than `limit` rows came before them */
  function Retain(bs: seq<Batch>, total: nat, limit: nat): seq<Batch> {
    if bs == [] || total >= limit then [] else [bs[0]] + Retain(bs[1..], total + |bs[0].rows|, limit)
  }

  function Capped(bs: seq<Batch>, limit: Option<nat>): seq<Batch> {
    match limit case None => bs case Some(k) => Retain(bs, 0, k)
  }

  function Load(env: Env, op: ScanOp, store: Store): Result<seq<Batch>> {
    match LoadReads(env, op.pred, store.Reads(op.partitions)) case Err => Err case Ok(bs) => Ok(Capped(bs, op.limit))
  }

  function Extend(r: Result<seq<Batch>>, k: Result<seq<Batch>>): Result<seq<Batch>> {
    if r.Ok? && k.Ok? then Ok(r.value + k.value) else Err
  }

  function KeepRead(env: Env, pred: Option<Expr>, x: Result<Batch>): Result<seq<Batch>> {
    match x case Err => Err case Ok(b) => Keep(env, pred, b)
  }

  lemma LoadStep(env: Env, pred: Option<Expr>, input: seq<Result<Batch>>, x: Result<Batch>)
    ensures LoadReads(env, pred, input + [x]) == Extend(LoadReads(env, pred, input), KeepRead(env, pred, x))
  {
    assert (input + [x])[..|input + [x]| - 1] == input;
  }

  method KeepOne(env: Env, pred: Option<Expr>, x: Result<Batch>) returns (r: Result<seq<Batch>>)
    ensures r == KeepRead(env, pred, x)
  {
    if x.Err? { return Err; }
    match pred {
      case None => r := Ok([x.value]);
      case Some(e) =>
        var filtered := FilterBatch(env, e, x.value);
        if filtered.Err? { return Err; }
        r := Ok(if filtered.value.rows != [] then [filtered.value] else []);
    }
  }

  method LoadFile(env: Env, pred: Option<Expr>, file: File, ghost input: seq<Result<Batch>>, all: seq<Batch>)
    returns (r: Result<seq<Batch>>)
    requires LoadReads(env, pred, input) == Ok(all)
    ensures r == LoadReads(env, pred, input + file)
  {
    var out := all;
    assert input + file[..0] == input;
    for i := 0 to |file|
      invariant LoadReads(env, pred, input + file[..i]) == Ok(out)
    {
      LoadStep(env, pred, input + file[..i], file[i]);
      assert input + file[..i] + [file[i]] == input + file[..i + 1];
      var kept := KeepOne(env, pred, file[i]);
      if kept.Err? {
        assert (input + file)[..|input| + i + 1] == input + file[..i + 1];
        LoadFails(env, pred, input + file, |input| + i + 1);
        return Err;
      }
      out := out + kept.value;
    }
    assert file[..|file|] == file;
    r := Ok(out);
  }

  lemma {:induction false} LoadFails(env: Env, pred: Option<Expr>, input: seq<Result<Batch>>, n: nat)
    requires n <= |input| && LoadReads(env, pred, input[..n]).Err?
    ensures LoadReads(env, pred, input).Err?
    decreases |input| - n
  {
    if n == |input| {
      assert input[..n] == input;
    } else {
      assert input[..n + 1][..n] == input[..n];
      LoadFails(env, pred, input, n + 1);
    }
  }

  /** The retain pass visits every batch with a running total. */
  method RetainLoop(all: seq<Batch>, limit: nat) returns (kept: seq<Batch>)
    ensures kept == Retain(all, 0, limit)
  {
    var total: nat := 0;
    kept := [];
    for i := 0 to |all|
      invariant Retain(all, 0, limit) == kept + Retain(all[i..], total, limit)
    {
      if total < limit {
        assert all[i..][1..] == all[i + 1..];
        kept, total := kept + [all[i]], total + |all[i].rows|;
      }
    }
  }

  method LoadPartition(env: Env, pred: Option<Expr>, files: seq<File>, ghost before: seq<Result<Batch>>, all: seq<Batch>)
    returns (r: Result<seq<Batch>>)
    requires LoadReads(env, pred, before) == Ok(all)
    ensures r == LoadReads(env, pred, before + Flat(files))
  {
    var out := all;
    assert before + Flat(files[..0]) == before;
    for j := 0 to |files|
      invariant LoadReads(env, pred, before + Flat(files[..j])) == Ok(out)
    {
      FlatNext(files, before, j);
      var loaded := LoadFile(env, pred, files[j], before + Flat(files[..j]), out);
      if loaded.Err? {
        FilesFail(env, pred, before, files, j + 1);
        return Err;
      }
      out := loaded.value;
    }
    assert files[..|files|] == files;
    r := Ok(out);
  }

  lemma FlatNext(files: seq<File>, before: seq<Result<Batch>>, j: nat)
    requires j < |files|
    ensures before + Flat(files[..j + 1]) == before + Flat(files[..j]) + files[j]
  {
    assert files[..j + 1][..j] == files[..j];
  }

  lemma FilesFail(env: Env, pred: Option<Expr>, before: seq<Result<Batch>>, files: seq<File>, j: nat)
    requires j <= |files| && LoadReads(env, pred, before + Flat(files[..j])).Err?
    ensures LoadReads(env, pred, before + Flat(files)).Err?
  {
    var next := before + Flat(files[..j]);
    FlatPrefix(files, j);
    assert (before + Flat(files))[..|next|] == next;
    LoadFails(env, pred, before + Flat(files), |next|);
  }

  method LoadKeys(env: Env, pred: Option<Expr>, store: Store, keys: seq<nat>) returns (r: Result<seq<Batch>>)
    ensures r == LoadReads(env, pred, store.KeyReads(keys))
  {
    var all := [];
    for i := 0 to |keys|
      invariant LoadReads(env, pred, store.KeyReads(keys[..i])) == Ok(all)
    {
      ghost var before := store.KeyReads(keys[..i]);
      assert keys[..i + 1][..i] == keys[..i];
      if keys[i] in store.files {
        var loaded := LoadPartition(env, pred, store.files[keys[i]], before, all);
        if loaded.Err? {
          ghost var next := store.KeyReads(keys[..i + 1]);
          KeyReadsPrefix(store, keys, i + 1);
          assert next == before + Flat(store.files[keys[i]]);
          assert store.KeyReads(keys)[..|next|] == next;
          LoadFails(env, pred, store.KeyReads(keys), |next|);
          return Err;
        }
        all := loaded.value;
      } else {
        assert before + [] == before;
      }
    }
    assert keys[..|keys|] == keys;
    r := Ok(all);
  }

  method LoadBatches(env: Env, op: ScanOp, store: Store) returns (r: Result<seq<Batch>>)
    ensures r == Load(env, op, store)
  {
    var keys := if op.partitions == [] then store.order else op.partitions;
    r := LoadKeys(env, op.pred, store, keys);
    if r.Ok? && op.limit.Some? {
      var kept := RetainLoop(r.value, op.limit.value);
      r := Ok(kept);
    }
  }

  lemma {:induction false} FlatPrefix(files: seq<File>, j: nat)
    requires j <= |files|
    ensures Flat(files[..j]) <= Flat(files)
  {
    if j < |files| {
      assert files[..|files| - 1][..j] == files[..j];
      FlatPrefix(files[..|files| - 1], j);
    } else {
      assert files[..j] == files;
    }
  }

  lemma {:induction false} KeyReadsPrefix(store: Store, keys: seq<nat>, i: nat)
    requires i <= |keys|
    ensures store.KeyReads(keys[..i]) <= store.KeyReads(keys)
  {
    if i < |keys| {
      assert keys[..|keys| - 1][..i] == keys[..i];
      KeyReadsPrefix(store, keys[..|keys| - 1], i);
    } else {
      assert keys[..i] == keys;
    }
  }

  // ----- The operator tree -----

  function FromBatches(bs: seq<Batch>): Stream {
    if bs == [] then Done else Next(bs[0], FromBatches(bs[1..]))
  }

  class ScanOperator {
    var batches: seq<Batch>

    ghost function Future(): Stream
      reads this
    {
      FromBatches(batches)
    }

    constructor (batches: seq<Batch>)
      ensures Future() == FromBatches(batches)
    {
      this.batches := batches;
    }

    method PollNext() returns (p: Poll)
      modifies this
      ensures p == Head(old(Future())) && Future() == Tail(old(Future()))
    {
      if batches == [] { return Exhausted; }
      p := Got(batches[0]);
      batches := batches[1..];
    }
  }

  /** Everything a query runs against. Grouping is left abstract. */
  datatype World = World(
    env: Env, kernel: Kernel, group: (seq<Expr>, seq<Aggregate>, Stream) -> Result<Stream>,
    catalog: Catalog, tables: map<string, Store>)

  function Run(w: World, plan: Plan): Result<Stream> {
    match plan
    case ScanPlan(op) =>
      if op.table !in w.tables then Err else
        (match Load(w.env, op, w.tables[op.table]) case Err => Err case Ok(bs) => Ok(FromBatches(bs)))
    case FilterPlan(e, input) => (match Run(w, input) case Err => Err case Ok(s) => Ok(FilterStream(w.env, e, s)))
    case ProjectPlan(_, input) => Run(w, input)
    case GroupPlan(keys, aggs, input) => (match Run(w, input) case Err => Err case Ok(s) => w.group(keys, aggs, s))
    case SortPlan(keys, input) => (match Run(w, input) case Err => Err case Ok(s) => Ok(SortStream(w.kernel, keys, s)))
    case LimitPlan(n, offset, input) => (match Run(w, input) case Err => Err case Ok(s) => Ok(LimitStream(n, offset, s)))
    case JoinPlan(_, _, _, _) => Err
  }

  /** The batches a statement is answered with */
  function Answer(w: World, sel: Select): Result<seq<Batch>> {
    match Run(w, Optimized(w.env.now, w.catalog, Planned(sel))) case Err => Err case Ok(s) => Collected(s)
  }
}
