/** The pull-based operators: each is proved against a function on streams of batches, and
    the functions against functions on rows. */
module Operators {
  import opened Options
  import opened Ast
  import opened Evaluate

  /** What an operator has yet to answer, poll by poll; nothing is asked after an error. */
  datatype Stream = Done | Fail | Next(batch: Batch, rest: Stream)

  datatype Poll = Exhausted | Error | Got(batch: Batch)

  function Head(s: Stream): Poll {
    match s case Done => Exhausted case Fail => Error case Next(b, _) => Got(b)
  }

  function Tail(s: Stream): Stream { if s.Next? then s.rest else s }

  function Rows(s: Stream): seq<Row> { if s.Next? then s.batch.rows + Rows(s.rest) else [] }

  predicate Fails(s: Stream) { s.Fail? || (s.Next? && Fails(s.rest)) }

  /** Any operator, seen from above */
  class Source {
    var stream: Stream

    constructor (stream: Stream)
      ensures this.stream == stream
    {
      this.stream := stream;
    }

    method PollNext() returns (p: Poll)
      modifies this
      ensures p == Head(old(stream)) && stream == Tail(old(stream))
    {
      p, stream := Head(stream), Tail(stream);
    }
  }

  // ----- Limit -----

  function Min(a: nat, b: nat): nat { if a < b then a else b }

  function LimitStream(remaining: nat, skip: nat, s: Stream): Stream {
    if remaining == 0 then Done
    else if !s.Next? then s
    else
      var n := |s.batch.rows|;
      if skip >= n then LimitStream(remaining, skip - n, s.rest)
      else
        var take := Min(n - skip, remaining);
        Next(Batch(s.batch.schema, s.batch.rows[skip..skip + take]), LimitStream(remaining - take, 0, s.rest))
  }

  class LimitOperator {
    const child: Source
    var remaining: nat
    var skip: nat

    ghost function Future(): Stream
      reads this, child
    {
      LimitStream(remaining, skip, child.stream)
    }

    constructor (child: Source, limit: nat, offset: nat)
      ensures this.child == child && Future() == LimitStream(limit, offset, child.stream)
    {
      this.child := child;
      remaining := limit;
      skip := offset;
    }

    method PollNext() returns (p: Poll)
      modifies this, child
      ensures p == Head(old(Future()))
      ensures !p.Error? ==> Future() == Tail(old(Future()))
    {
      if remaining == 0 { return Exhausted; }
      while true
        invariant remaining > 0 && Future() == old(Future())
        decreases child.stream
      {
        p := child.PollNext();
        if !p.Got? { return; }
        var batch := p.batch;
        var n := |batch.rows|;
        if skip >= n {
          skip := skip - n;
        } else {
          if skip > 0 {
            batch := batch.(rows := batch.rows[skip..]);
            skip := 0;
          }
          var take := Min(|batch.rows|, remaining);
          remaining := remaining - take;
          return Got(batch.(rows := batch.rows[..take]));
        }
      }
    }
  }

  /** Rows `offset` and following, at most `n` of them */
  function Clip(rows: seq<Row>, offset: nat, n: nat): seq<Row> {
    var from := Min(offset, |rows|);
    rows[from..Min(from + n, |rows|)]
  }

  lemma ClipSkips(a: seq<Row>, b: seq<Row>, offset: nat, n: nat)
    requires offset >= |a|
    ensures Clip(a + b, offset, n) == Clip(b, offset - |a|, n)
  {
  }

  lemma ClipTakes(a: seq<Row>, b: seq<Row>, offset: nat, n: nat)
    requires offset < |a|
    ensures var take := Min(|a| - offset, n);
            Clip(a + b, offset, n) == a[offset..offset + take] + Clip(b, 0, n - take)
  {
  }

  /** However the input is cut into batches, the limit yields the clipped rows. */
  lemma {:induction false} LimitMeaning(n: nat, offset: nat, s: Stream)
    ensures Rows(LimitStream(n, offset, s)) == Clip(Rows(s), offset, n)
    decreases s
  {
    if n > 0 && s.Next? {
      var k := |s.batch.rows|;
      if offset >= k {
        ClipSkips(s.batch.rows, Rows(s.rest), offset, n);
        LimitMeaning(n, offset - k, s.rest);
      } else {
        ClipTakes(s.batch.rows, Rows(s.rest), offset, n);
        LimitMeaning(n - Min(k - offset, n), 0, s.rest);
      }
    }
  }

  /** The limit hides a failure of its input that comes after the last row it needs. */
  lemma {:induction false} LimitFailure(n: nat, offset: nat, s: Stream)
    ensures Fails(LimitStream(n, offset, s)) <==> Fails(s) && n > 0 && |Rows(s)| < n + offset
    decreases s
  {
    if n > 0 && s.Next? {
      var k := |s.batch.rows|;
      if offset >= k {
        LimitFailure(n, offset - k, s.rest);
      } else {
        LimitFailure(n - Min(k - offset, n), 0, s.rest);
      }
    }
  }

  // ----- Filter -----

  function FilterBatch(env: Env, e: Expr, b: Batch): Result<Batch> {
    match Mask(env, b, e)
    case Err => Err
    case Ok(mask) =>
      assert |mask| == |b.rows| by { EvalLength(env, b, e); }
      Ok(b.(rows := Kept(b.rows, mask)))
  }

  /** Batches left empty are not passed on. */
  function FilterStream(env: Env, e: Expr, s: Stream): Stream {
    if !s.Next? then s else
      match FilterBatch(env, e, s.batch)
      case Err => Fail
      case Ok(b) => if b.rows != [] then Next(b, FilterStream(env, e, s.rest)) else FilterStream(env, e, s.rest)
  }

  class FilterOperator {
    const env: Env
    const child: Source
    const condition: Expr

    ghost function Future(): Stream
      reads this, child
    {
      FilterStream(env, condition, child.stream)
    }

    constructor (env: Env, child: Source, condition: Expr)
      ensures this.child == child && Future() == FilterStream(env, condition, child.stream)
    {
      this.env := env;
      this.child := child;
      this.condition := condition;
    }

    method PollNext() returns (p: Poll)
      modifies this, child
      ensures p == Head(old(Future()))
      ensures !p.Error? ==> Future() == Tail(old(Future()))
    {
      while true
        invariant Future() == old(Future())
        decreases child.stream
      {
        p := child.PollNext();
        if !p.Got? { return; }
        var out := FilterBatch(env, condition, p.batch);
        if out.Err? { return Error; }
        if out.value.rows != [] { return Got(out.value); }
      }
    }
  }

  // ----- Sort -----

  /** The sort kernel, on the keys that name a column */
  type Kernel = (seq<OrderByItem>, seq<Row>) -> Result<seq<Row>>

  ghost predicate Permutes(kernel: Kernel) {
    forall keys, rows :: kernel(keys, rows).Ok? ==> multiset(kernel(keys, rows).value) == multiset(rows)
  }

  function SortKeys(keys: seq<OrderByItem>, schema: map<string, Ty>): seq<OrderByItem> {
    if keys == [] then [] else
      var init, k := SortKeys(keys[..|keys| - 1], schema), keys[|keys| - 1];
      if k.expr.Column? && k.expr.name in schema then init + [k] else init
  }

  function Sorted(kernel: Kernel, keys: seq<OrderByItem>, schema: map<string, Ty>, rows: seq<Row>): Result<seq<Row>> {
    var known := SortKeys(keys, schema);
    if known == [] then Ok(rows) else kernel(known, rows)
  }

  function SortStream(kernel: Kernel, keys: seq<OrderByItem>, s: Stream): Stream {
    if Fails(s) then Fail
    else if !s.Next? then Done
    else
      match Sorted(kernel, keys, s.batch.schema, Rows(s))
      case Err => Fail
      case Ok(rows) => Next(Batch(s.batch.schema, rows), Done)
  }

  class SortOperator {
    const kernel: Kernel
    const child: Source
    const keys: seq<OrderByItem>
    var result: Option<Option<Batch>>   // nothing before the first poll

    ghost function Future(): Stream
      reads this, child
    {
      match result
      case None => SortStream(kernel, keys, child.stream)
      case Some(None) => Done
      case Some(Some(b)) => Next(b, Done)
    }

    constructor (kernel: Kernel, child: Source, keys: seq<OrderByItem>)
      ensures this.child == child && Future() == SortStream(kernel, keys, child.stream)
    {
      this.kernel := kernel;
      this.child := child;
      this.keys := keys;
      result := None;
    }

    method PollNext() returns (p: Poll)
      modifies this, child
      ensures p == Head(old(Future()))
      ensures !p.Error? ==> Future() == Tail(old(Future()))
    {
      if result.None? {
        var ok := Materialize();
        if !ok { return Error; }
      }
      match result.value {
        case None => p := Exhausted;
        case Some(b) => p := Got(b);
      }
      result := Some(None);
    }

    method Materialize() returns (ok: bool)
      requires result.None?
      modifies this, child
      ensures ok == !old(Future()).Fail?
      ensures ok ==> result.Some? && Future() == old(Future())
    {
      ghost var all := child.stream;
      var first: Option<Batch>, rows: seq<Row> := None, [];
      while true
        invariant result.None?
        invariant Fails(child.stream) == Fails(all) && rows + Rows(child.stream) == Rows(all)
        invariant first.None? ==> child.stream == all && rows == []
        invariant first.Some? ==> all.Next? && first.value == all.batch
        decreases child.stream
      {
        var p := child.PollNext();
        if p.Error? { return false; }
        if p.Exhausted? { break; }
        if first.None? { first := Some(p.batch); }
        rows := rows + p.batch.rows;
      }
      if first.None? {
        result := Some(None);
        return true;
      }
      assert rows == Rows(all);
      var sorted := Sorted(kernel, keys, first.value.schema, rows);
      if sorted.Err? { return false; }
      result := Some(Some(Batch(first.value.schema, sorted.value)));
      ok := true;
    }
  }

  // ----- The loop that runs a query -----

  function Collected(s: Stream): Result<seq<Batch>> {
    match s
    case Done => Ok([])
    case Fail => Err
    case Next(b, rest) => match Collected(rest) case Err => Err case Ok(bs) => Ok([b] + bs)
  }

  function After(batches: seq<Batch>, r: Result<seq<Batch>>): Result<seq<Batch>> {
    match r case Err => Err case Ok(bs) => Ok(batches + bs)
  }

  lemma AfterSnoc(batches: seq<Batch>, b: Batch, rest: Stream)
    ensures After(batches, Collected(Next(b, rest))) == After(batches + [b], Collected(rest))
  {
    if Collected(rest).Ok? { assert batches + ([b] + Collected(rest).value) == batches + [b] + Collected(rest).value; }
  }

  method Execute(op: Source) returns (r: Result<seq<Batch>>)
    modifies op
    ensures r == Collected(old(op.stream))
  {
    ghost var all := op.stream;
    var batches := [];
    assert After([], Collected(all)) == Collected(all) by {
      if Collected(all).Ok? { assert [] + Collected(all).value == Collected(all).value; }
    }
    while true
      invariant Collected(all) == After(batches, Collected(op.stream))
      decreases op.stream
    {
      var p := op.PollNext();
      if p.Error? { return Err; }
      if p.Exhausted? {
        assert batches + [] == batches;
        return Ok(batches);
      }
      AfterSnoc(batches, p.batch, op.stream);
      batches := batches + [p.batch];
    }
  }
}
