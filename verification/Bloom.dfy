/** The Bloom filter kept beside each SSTable, and its serialised form. */
module Bloom {
  import opened Options
  import opened Bytes

  /** `hash(key, i)` is the i-th hash of a key, of which nothing is assumed. */
  type Hash = (Data, nat) -> nat

  datatype Filter = Filter(numBits: nat, numHashes: nat, bits: Data) {

    /** What `new` and `insert` keep: at least 64 bits but short of the
        size whose byte length would wrap, 1 to 16 hashes, whole bytes. */
    ghost predicate Valid() {
      64 <= numBits <= TWO64 - 8 && 1 <= numHashes <= 16 && |bits| == ByteLength(numBits)
    }

    function Index(hash: Hash, key: Data, seed: nat): (i: nat)
      requires numBits > 0
      ensures i < numBits
    {
      hash(key, seed) % numBits
    }

    predicate Contains(hash: Hash, key: Data)
      requires numBits > 0 && |bits| == ByteLength(numBits)
    {
      forall i | 0 <= i < numHashes :: IsSet(bits, Index(hash, key, i))
    }
  }

  /** `(num_bits + 7) / 8` in u64, where the sum wraps at the top of the range. */
  function ByteLength(numBits: nat): nat {
    (numBits + 7) % TWO64 / 8
  }

  // ----- Bits -----

  /** Bit `k` of `b`, counting from the least significant. */
  predicate Bit(b: nat, k: nat) {
    if k == 0 then b % 2 == 1 else Bit(b / 2, k - 1)
  }

  /** `b | 1 << k` */
  function SetBit(b: nat, k: nat): nat {
    if k == 0 then b / 2 * 2 + 1 else SetBit(b / 2, k - 1) * 2 + b % 2
  }

  function Pow2(n: nat): nat {
    if n == 0 then 1 else 2 * Pow2(n - 1)
  }

  lemma {:induction false} SetBitFits(b: nat, k: nat, n: nat)
    requires k < n && b < Pow2(n)
    ensures SetBit(b, k) < Pow2(n)
  {
    if k > 0 { SetBitFits(b / 2, k - 1, n - 1); }
  }

  function SetBitOfByte(b: Byte, k: nat): Byte
    requires k < 8
  {
    assert SetBit(b, k) < 256 by { assert Pow2(8) == 256; SetBitFits(b, k, 8); }
    SetBit(b, k)
  }

  lemma {:induction false} NoBitOfZero(k: nat)
    ensures !Bit(0, k)
  {
    if k > 0 { NoBitOfZero(k - 1); }
  }

  /** Setting a bit sets that bit and no other. */
  lemma {:induction false} SetBitIsOr(b: nat, k: nat, j: nat)
    ensures Bit(SetBit(b, k), j) <==> Bit(b, j) || j == k
    decreases k
  {
    if k > 0 && j > 0 { SetBitIsOr(b / 2, k - 1, j - 1); }
  }

  predicate IsSet(bits: Data, i: nat) {
    i / 8 < |bits| && Bit(bits[i / 8], i % 8)
  }

  function SetAt(bits: Data, i: nat): (out: Data)
    requires i / 8 < |bits|
    ensures |out| == |bits|
  {
    bits[i / 8 := SetBitOfByte(bits[i / 8], i % 8)]
  }

  lemma SetAtIsOr(bits: Data, i: nat, j: nat)
    requires i / 8 < |bits|
    ensures IsSet(SetAt(bits, i), j) <==> IsSet(bits, j) || i == j
  {
    if i / 8 == j / 8 { SetBitIsOr(bits[i / 8], i % 8, j % 8); }
  }

  // ----- Insertion -----

  function SetFirst(hash: Hash, f: Filter, key: Data, k: nat): (bits: Data)
    requires f.Valid()
    ensures |bits| == |f.bits|
  {
    if k == 0 then f.bits else SetAt(SetFirst(hash, f, key, k - 1), f.Index(hash, key, k - 1))
  }

  function Inserted(hash: Hash, f: Filter, key: Data): (f': Filter)
    requires f.Valid()
    ensures f'.Valid() && f'.numBits == f.numBits && f'.numHashes == f.numHashes
  {
    f.(bits := SetFirst(hash, f, key, f.numHashes))
  }

  ghost predicate Hits(hash: Hash, f: Filter, key: Data, k: nat, j: nat)
    requires f.numBits > 0
  {
    exists i | 0 <= i < k :: f.Index(hash, key, i) == j
  }

  lemma {:induction false} SetFirstBits(hash: Hash, f: Filter, key: Data, k: nat, j: nat)
    requires f.Valid()
    ensures IsSet(SetFirst(hash, f, key, k), j) <==> IsSet(f.bits, j) || Hits(hash, f, key, k, j)
  {
    if k > 0 {
      SetFirstBits(hash, f, key, k - 1, j);
      SetAtIsOr(SetFirst(hash, f, key, k - 1), f.Index(hash, key, k - 1), j);
      if Hits(hash, f, key, k, j) {
        var i :| 0 <= i < k && f.Index(hash, key, i) == j;
        assert i == k - 1 || Hits(hash, f, key, k - 1, j);
      }
    }
  }

  class BloomFilter {
    const numBits: nat
    const numHashes: nat
    const bits: array<Byte>
    const hash: Hash

    ghost function Value(): Filter
      reads bits
    {
      Filter(numBits, numHashes, bits[..])
    }

    /** The floating-point sizing is left to the caller; its clamping is not. */
    constructor (hash: Hash, sizedBits: nat, sizedHashes: nat)
      requires sizedBits <= TWO64 - 8
      ensures fresh(bits) && this.hash == hash
      ensures Value().Valid() && forall j: nat :: !IsSet(bits[..], j)
    {
      var n := if sizedBits < 64 then 64 else sizedBits;
      numBits := n;
      numHashes := if sizedHashes < 1 then 1 else if sizedHashes > 16 then 16 else sizedHashes;
      bits := new Byte[ByteLength(n)](_ => 0);
      this.hash := hash;
      new;
      forall j: nat ensures !IsSet(bits[..], j) {
        if j / 8 < bits.Length { assert bits[..][j / 8] == 0; NoBitOfZero(j % 8); }
      }
    }

    method SetOne(bit: nat)
      requires bit / 8 < bits.Length
      modifies bits
      ensures bits[..] == SetAt(old(bits[..]), bit)
    {
      bits[bit / 8] := SetBitOfByte(bits[bit / 8], bit % 8);
    }

    method Insert(key: Data)
      requires Value().Valid()
      modifies bits
      ensures Value() == Inserted(hash, old(Value()), key)
    {
      ghost var f := Value();
      var i := 0;
      while i < numHashes
        invariant i <= numHashes
        invariant bits[..] == SetFirst(hash, f, key, i)
      {
        var bit := Filter(numBits, numHashes, []).Index(hash, key, i);
        assert bit == f.Index(hash, key, i);
        SetOne(bit);
        i := i + 1;
      }
    }

    method Contains(key: Data) returns (found: bool)
      requires Value().Valid()
      ensures found == Value().Contains(hash, key)
    {
      var i := 0;
      while i < numHashes
        invariant i <= numHashes
        invariant forall j | 0 <= j < i :: IsSet(bits[..], Value().Index(hash, key, j))
      {
        var bit := Filter(numBits, numHashes, []).Index(hash, key, i);
        if !Bit(bits[bit / 8], bit % 8) {
          assert !IsSet(bits[..], Value().Index(hash, key, i));
          return false;
        }
        i := i + 1;
      }
      found := true;
    }
  }

  // ----- No false negatives -----

  function InsertAll(hash: Hash, f: Filter, keys: seq<Data>): (f': Filter)
    requires f.Valid()
    ensures f'.Valid() && f'.numBits == f.numBits && f'.numHashes == f.numHashes
  {
    if keys == [] then f else Inserted(hash, InsertAll(hash, f, keys[..|keys| - 1]), keys[|keys| - 1])
  }

  lemma InsertKeeps(hash: Hash, f: Filter, key: Data, other: Data)
    requires f.Valid() && f.Contains(hash, other)
    ensures Inserted(hash, f, key).Contains(hash, other)
  {
    var f' := Inserted(hash, f, key);
    forall i | 0 <= i < f.numHashes ensures IsSet(f'.bits, f'.Index(hash, other, i)) {
      SetFirstBits(hash, f, key, f.numHashes, f.Index(hash, other, i));
    }
  }

  lemma InsertAdds(hash: Hash, f: Filter, key: Data)
    requires f.Valid()
    ensures Inserted(hash, f, key).Contains(hash, key)
  {
    var f' := Inserted(hash, f, key);
    forall i | 0 <= i < f.numHashes ensures IsSet(f'.bits, f'.Index(hash, key, i)) {
      SetFirstBits(hash, f, key, f.numHashes, f.Index(hash, key, i));
    }
  }

  /** Every inserted key is reported present, whatever else was inserted. */
  lemma {:induction false} NoFalseNegatives(hash: Hash, f: Filter, keys: seq<Data>, key: Data)
    requires f.Valid() && key in keys
    ensures InsertAll(hash, f, keys).Contains(hash, key)
  {
    var init, last := keys[..|keys| - 1], keys[|keys| - 1];
    if key == last {
      InsertAdds(hash, InsertAll(hash, f, init), key);
    } else {
      NoFalseNegatives(hash, f, init, key);
      InsertKeeps(hash, InsertAll(hash, f, init), last, key);
    }
  }

  /** A bit is set only by an inserted key that hashes to it: nothing is set by accident. */
  lemma {:induction false} OnlyInsertedBits(hash: Hash, f: Filter, keys: seq<Data>, j: nat)
    requires f.Valid()
    ensures IsSet(InsertAll(hash, f, keys).bits, j) <==>
            IsSet(f.bits, j) || exists key | key in keys :: Hits(hash, f, key, f.numHashes, j)
  {
    if keys != [] {
      var init, last := keys[..|keys| - 1], keys[|keys| - 1];
      assert keys == init + [last];
      var before := InsertAll(hash, f, init);
      OnlyInsertedBits(hash, f, init, j);
      SetFirstBits(hash, before, last, f.numHashes, j);
      SameHits(hash, before, f, last, f.numHashes, j);
    }
  }

  lemma SameHits(hash: Hash, f: Filter, g: Filter, key: Data, k: nat, j: nat)
    requires f.numBits == g.numBits > 0
    ensures Hits(hash, f, key, k, j) <==> Hits(hash, g, key, k, j)
  {
    if Hits(hash, f, key, k, j) {
      var i :| 0 <= i < k && f.Index(hash, key, i) == j;
      assert g.Index(hash, key, i) == j;
    }
    if Hits(hash, g, key, k, j) {
      var i :| 0 <= i < k && g.Index(hash, key, i) == j;
      assert f.Index(hash, key, i) == j;
    }
  }

  /** A filter with no bit set, as compaction writes it, denies every key. */
  lemma NeverInsertedDeniesAll(hash: Hash, f: Filter, key: Data)
    requires f.Valid() && forall j :: !IsSet(f.bits, j)
    ensures !f.Contains(hash, key)
  {
    assert !IsSet(f.bits, f.Index(hash, key, 0));
  }

  ghost predicate HitBy(hash: Hash, f: Filter, keys: seq<Data>, bit: nat)
    requires f.numBits > 0
  {
    exists k, i :: k in keys && 0 <= i < f.numHashes && hash(k, i) % f.numBits == bit
  }

  /** What a filter answers after inserting `keys` into an empty one: yes exactly if some key
      hit each of the bits that the asked key hashes to. */
  lemma ContainsExactly(hash: Hash, f: Filter, keys: seq<Data>, key: Data)
    requires f.Valid() && forall j :: !IsSet(f.bits, j)
    ensures InsertAll(hash, f, keys).Contains(hash, key) <==>
            forall i | 0 <= i < f.numHashes :: HitBy(hash, f, keys, hash(key, i) % f.numBits)
  {
    var g := InsertAll(hash, f, keys);
    forall i: nat | i < f.numHashes
      ensures IsSet(g.bits, g.Index(hash, key, i)) <==> HitBy(hash, f, keys, hash(key, i) % f.numBits)
    {
      var bit := hash(key, i) % f.numBits;
      OnlyInsertedBits(hash, f, keys, bit);
      if HitBy(hash, f, keys, bit) {
        var k, n :| k in keys && 0 <= n < f.numHashes && hash(k, n) % f.numBits == bit;
        assert f.Index(hash, k, n) == bit;
        assert Hits(hash, f, k, f.numHashes, bit);
      }
      if k :| k in keys && Hits(hash, f, k, f.numHashes, bit) {
        var n :| 0 <= n < f.numHashes && f.Index(hash, k, n) == bit;
      }
    }
  }

  /** The bytes hold the bits, with less than a byte to spare. */
  lemma BytesSuffice(f: Filter)
    requires f.Valid()
    ensures f.numBits <= 8 * |f.bits| < f.numBits + 8
  {
  }

  // ----- Serialised form -----

  function ToBytes(f: Filter): Data {
    ToLe(f.numBits, 8) + ToLe(f.numHashes, 4) + f.bits
  }

  function FromBytes(data: Data): Option<Filter> {
    if |data| < 12 then None else
      var numBits, numHashes := FromLe(data[0..8]), FromLe(data[8..12]);
      var len := ByteLength(numBits);
      if |data| < 12 + len then None else Some(Filter(numBits, numHashes, data[12..12 + len]))
  }

  /** Trailing bytes are ignored; the filter itself comes back unchanged. */
  lemma SerialisedRoundTrip(f: Filter, trailing: Data)
    requires f.Valid()
    ensures FromBytes(ToBytes(f) + trailing) == Some(f)
  {
    var data := ToBytes(f) + trailing;
    LeFits(f.numBits, 8);
    LeFits(f.numHashes, 4);
    PowValues();
    assert data[0..8] == ToLe(f.numBits, 8);
    assert data[8..12] == ToLe(f.numHashes, 4);
    assert data[12..12 + |f.bits|] == f.bits;
  }

  /** Cutting the serialised form anywhere is detected. */
  lemma CutFilterIsRejected(f: Filter, t: nat)
    requires f.Valid() && t < |ToBytes(f)|
    ensures FromBytes(ToBytes(f)[..t]) == None
  {
    if t >= 12 {
      var data := ToBytes(f)[..t];
      assert data[0..8] == ToLe(f.numBits, 8);
      LeFits(f.numBits, 8);
      PowValues();
    }
  }

  /** A stored filter still knows every key it was given. */
  lemma StoredFilterHasNoFalseNegatives(hash: Hash, f: Filter, keys: seq<Data>, key: Data)
    requires f.Valid() && key in keys
    ensures var stored := FromBytes(ToBytes(InsertAll(hash, f, keys)));
            stored.Some? && stored.value.Valid() && stored.value.Contains(hash, key)
  {
    var g := InsertAll(hash, f, keys);
    SerialisedRoundTrip(g, []);
    assert ToBytes(g) + [] == ToBytes(g);
    NoFalseNegatives(hash, f, keys, key);
  }
}
