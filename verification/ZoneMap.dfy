/** Zone maps of SSTables, and the partitions that hold them. */
module ZoneMap {
  import opened Bytes

  datatype Zone = Zone(min: nat, max: nat, count: nat)

  const EMPTY_ZONE := Zone(TWO64 - 1, 0, 0)

  function Observed(z: Zone, ts: nat): Zone {
    Zone(if ts < z.min then ts else z.min, if ts > z.max then ts else z.max, z.count + 1)
  }

  /** The zone map of the timestamps of an SSTable */
  function ZoneOf(times: seq<nat>): Zone {
    if times == [] then EMPTY_ZONE else Observed(ZoneOf(times[..|times| - 1]), times[|times| - 1])
  }

  predicate Overlaps(z: Zone, start: nat, end: nat) { z.min <= end && z.max >= start }

  class ZoneMap {
    var min: nat
    var max: nat
    var count: nat

    ghost function Now(): Zone
      reads this
    {
      Zone(min, max, count)
    }

    constructor ()
      ensures Now() == ZoneOf([])
    {
      min, max, count := TWO64 - 1, 0, 0;
    }

    method ObserveTimestamp(ts: nat)
      modifies this
      ensures Now() == Observed(old(Now()), ts)
    {
      if ts < min { min := ts; }
      if ts > max { max := ts; }
      count := count + 1;
    }

    /** The loop of the SSTable writers */
    method ObserveAll(times: seq<nat>)
      requires Now() == ZoneOf([])
      modifies this
      ensures Now() == ZoneOf(times)
    {
      for i := 0 to |times|
        invariant Now() == ZoneOf(times[..i])
      {
        assert times[..i + 1][..i] == times[..i];
        ObserveTimestamp(times[i]);
      }
      assert times[..|times|] == times;
    }
  }

  // ----- Exactness -----

  ghost predicate IsMin(times: seq<nat>, m: nat) { m in times && forall i | 0 <= i < |times| :: m <= times[i] }

  ghost predicate IsMax(times: seq<nat>, m: nat) { m in times && forall i | 0 <= i < |times| :: times[i] <= m }

  /** The zone map holds the least and the greatest timestamp and the number of rows. */
  lemma {:induction false} ZoneExact(times: seq<nat>)
    requires times != [] && forall i | 0 <= i < |times| :: times[i] < TWO64
    ensures IsMin(times, ZoneOf(times).min) && IsMax(times, ZoneOf(times).max) && ZoneOf(times).count == |times|
  {
    var init, last := times[..|times| - 1], times[|times| - 1];
    assert times == init + [last];
    if init == [] {
      assert ZoneOf(init) == EMPTY_ZONE;
    } else {
      ZoneExact(init);
    }
  }

  function Join(a: Zone, b: Zone): Zone {
    Zone(if b.min < a.min then b.min else a.min, if b.max > a.max then b.max else a.max, a.count + b.count)
  }

  lemma {:induction false} ZoneBounded(times: seq<nat>)
    ensures ZoneOf(times).min < TWO64
  {
    if times != [] { ZoneBounded(times[..|times| - 1]); }
  }

  /** The zone map of a merge is the join of the zone maps. */
  lemma {:induction false} ZoneOfConcat(a: seq<nat>, b: seq<nat>)
    ensures ZoneOf(a + b) == Join(ZoneOf(a), ZoneOf(b))
    decreases |b|
  {
    if b == [] {
      assert a + b == a;
      ZoneBounded(a);
    } else {
      assert (a + b)[..|a + b| - 1] == a + b[..|b| - 1];
      ZoneOfConcat(a, b[..|b| - 1]);
    }
  }

  lemma {:induction false} ZoneCovers(times: seq<nat>, i: nat)
    requires i < |times|
    ensures ZoneOf(times).min <= times[i] <= ZoneOf(times).max
  {
    if i < |times| - 1 { ZoneCovers(times[..|times| - 1], i); }
  }

  // ----- Partitions -----

  /** The start of the bucket of a timestamp */
  function BucketOf(ts: nat, bucket: nat): nat
    requires bucket > 0
  {
    ts - ts % bucket
  }

  ghost predicate InBucket(ts: nat, key: nat, bucket: nat)
    requires bucket > 0
  {
    key % bucket == 0 && key <= ts < key + bucket
  }

  /** The buckets are half-open and share out time: `key` is the one bucket of `ts`. */
  lemma BucketIsUnique(ts: nat, key: nat, bucket: nat)
    requires bucket > 0
    ensures InBucket(ts, key, bucket) <==> key == BucketOf(ts, bucket)
  {
    var r := ts % bucket;
    assert ts == bucket * (ts / bucket) + r;
    assert BucketOf(ts, bucket) == bucket * (ts / bucket);
    MultipleMod(bucket, ts / bucket);
    if InBucket(ts, key, bucket) {
      assert key == bucket * (key / bucket);
      QuotientUnique(ts, bucket, key / bucket);
    }
  }

  lemma MultipleMod(b: nat, q: nat)
    requires b > 0
    ensures (b * q) % b == 0
  {
    QuotientUnique(b * q, b, q);
  }
}
