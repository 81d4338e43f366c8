/** The catalog's statistics come from zone maps; exact zone maps make pruning sound. */
module Statistics {
  import opened Options
  import opened Ast
  import opened Evaluate
  import opened Plans
  import opened Scans
  import opened Pruning
  import ZM = ZoneMap

  datatype Entry = Entry(key: nat, zone: ZM.Zone)

  /** The statistics of a table are replaced by one entry per zone map. */
  function Updated(maps: seq<Entry>): seq<Stat> {
    seq(|maps|, i requires 0 <= i < |maps| => Stat(maps[i].key, maps[i].zone.min, maps[i].zone.max, maps[i].zone.count))
  }

  /** The timestamps of the rows of a batch, and of all batches of a partition */
  function RowTimes(rows: seq<Row>): seq<nat> {
    if rows == [] then [] else
      var t := Timestamp(rows[|rows| - 1]);
      RowTimes(rows[..|rows| - 1]) + if t.Some? && t.value >= 0 then [t.value] else []
  }

  function InputTimes(input: seq<Result<Batch>>): seq<nat> {
    if input == [] then [] else
      var b := input[|input| - 1];
      InputTimes(input[..|input| - 1]) + if b.Ok? then RowTimes(b.value.rows) else []
  }

  /** Timestamps are unsigned 64-bit numbers. */
  ghost predicate Unsigned(input: seq<Result<Batch>>) {
    forall i, j | 0 <= i < |input| && input[i].Ok? && 0 <= j < |input[i].value.rows| :: UnsignedRow(input[i].value.rows[j])
  }

  predicate UnsignedRow(row: Row) { Timestamp(row).Some? ==> 0 <= Timestamp(row).value < TWO64 }

  lemma {:induction false} RowTimesHold(rows: seq<Row>, j: nat)
    requires j < |rows| && Timestamp(rows[j]).Some? && Timestamp(rows[j]).value >= 0
    ensures Timestamp(rows[j]).value in RowTimes(rows)
  {
    if j < |rows| - 1 { RowTimesHold(rows[..|rows| - 1], j); }
  }

  lemma {:induction false} InputTimesHold(input: seq<Result<Batch>>, i: nat, j: nat)
    requires i < |input| && input[i].Ok? && j < |input[i].value.rows|
    requires Timestamp(input[i].value.rows[j]).Some? && Timestamp(input[i].value.rows[j]).value >= 0
    ensures Timestamp(input[i].value.rows[j]).value in InputTimes(input)
    decreases |input|
  {
    RowTimesHold(input[i].value.rows, j);
    if i < |input| - 1 { InputTimesHold(input[..|input| - 1], i, j); }
  }

  lemma {:induction false} RowTimesBounded(rows: seq<Row>)
    requires forall j | 0 <= j < |rows| :: UnsignedRow(rows[j])
    ensures forall t | t in RowTimes(rows) :: t < TWO64
  {
    if rows != [] { RowTimesBounded(rows[..|rows| - 1]); }
  }

  lemma {:induction false} InputTimesBounded(input: seq<Result<Batch>>)
    requires Unsigned(input)
    ensures forall t | t in InputTimes(input) :: t < TWO64
  {
    if input != [] {
      var init, b := input[..|input| - 1], input[|input| - 1];
      assert Unsigned(init);
      InputTimesBounded(init);
      if b.Ok? { RowTimesBounded(b.value.rows); }
    }
  }

  lemma {:induction false} ZoneMaxBounded(times: seq<nat>)
    requires forall t | t in times :: t < TWO64
    ensures ZM.ZoneOf(times).max < TWO64
  {
    if times != [] {
      var init, last := times[..|times| - 1], times[|times| - 1];
      assert times == init + [last];
      assert last in times && forall t | t in init :: t in times;
      ZoneMaxBounded(init);
    }
  }

  /** A zone map of the timestamps of a partition bounds it. */
  lemma ExactZoneBounds(k: nat, input: seq<Result<Batch>>, zone: ZM.Zone)
    requires Unsigned(input) && zone == ZM.ZoneOf(InputTimes(input))
    ensures Bounds(Stat(k, zone.min, zone.max, zone.count), input)
  {
    InputTimesBounded(input);
    ZoneMaxBounded(InputTimes(input));
    forall i, j | 0 <= i < |input| && input[i].Ok? && 0 <= j < |input[i].value.rows|
      ensures BoundedRow(Stat(k, zone.min, zone.max, zone.count), input[i].value.rows[j])
    {
      if Timestamp(input[i].value.rows[j]).Some? {
        assert UnsignedRow(input[i].value.rows[j]);
        InputTimesHold(input, i, j);
        var n :| 0 <= n < |InputTimes(input)| && InputTimes(input)[n] == Timestamp(input[i].value.rows[j]).value;
        ZM.ZoneCovers(InputTimes(input), n);
      }
    }
  }

  ghost predicate ExactEntry(maps: seq<Entry>, store: Store, k: nat) {
    exists i :: 0 <= i < |maps| && maps[i] == Entry(k, ZM.ZoneOf(InputTimes(store.PartitionReads(k))))
  }

  /** Statistics taken from one exact zone map per partition are what pruning needs. */
  lemma ExactMapsCover(maps: seq<Entry>, store: Store)
    requires forall i, j | 0 <= i < j < |maps| :: maps[i].key != maps[j].key
    requires forall k | k in store.order :: ExactEntry(maps, store, k) && Unsigned(store.PartitionReads(k))
    ensures Covers(Updated(maps), store)
  {
    var stats := Updated(maps);
    forall k | k in store.order ensures Covered(stats, store, k) {
      var i :| 0 <= i < |maps| && maps[i] == Entry(k, ZM.ZoneOf(InputTimes(store.PartitionReads(k))));
      ExactZoneBounds(k, store.PartitionReads(k), maps[i].zone);
      assert stats[i].key == k && Bounds(stats[i], store.PartitionReads(k));
    }
  }
}
