/** The consistent-hash ring: virtual-node placement, primary lookup, replica walk,
    and how a topology change may and may not move keys. */
module Ring {

  const MODULUS: nat := 0x1_0000_0000_0000_0000

  type U64 = n: nat | n < MODULUS

  datatype Node = Node(id: string)

  /** An ordered map from virtual-node position to physical node. */
  type Positions = map<U64, Node>

  datatype RingError = EmptyRing

  datatype Result<+T> = Ok(value: T) | Err(error: RingError)

  /** `position(n, i)` stands for hash64("{n}#{i}"), of which nothing is assumed. */
  datatype Hashing = Hashing(position: (Node, nat) -> U64, virtualNodes: nat) {

    function Of(n: Node): set<U64> {
      FirstOf(n, virtualNodes)
    }

    function FirstOf(n: Node, k: nat): set<U64> {
      set i | 0 <= i < k :: position(n, i)
    }

    /** No two distinct nodes of `ids` share a position. */
    ghost predicate CollisionFree(ids: set<Node>) {
      forall a, b | a in ids && b in ids && a != b :: Of(a) !! Of(b)
    }
  }

  // ----- Ordered iteration -----

  ghost predicate IsMaximum(s: set<U64>, m: U64) {
    m in s && forall k | k in s :: k <= m
  }

  lemma MaximumExists(s: set<U64>)
    requires s != {}
    ensures exists m :: IsMaximum(s, m)
  {
    var x :| x in s;
    var rest := s - {x};
    assert s == rest + {x};
    if rest == {} {
      assert IsMaximum(s, x);
    } else {
      MaximumExists(rest);
      var m :| IsMaximum(rest, m);
      assert IsMaximum(s, if m < x then x else m);
    }
  }

  function Maximum(s: set<U64>): (m: U64)
    requires s != {}
    ensures IsMaximum(s, m)
  {
    MaximumExists(s);
    var m :| m in s && forall k | k in s :: k <= m;
    m
  }

  /** The nodes at the positions `s`, in iteration order of the ordered map. */
  function InOrder(r: Positions, s: set<U64>): (ns: seq<Node>)
    requires s <= r.Keys
    decreases |s|
  {
    if s == {} then [] else
      var m := Maximum(s);
      InOrder(r, s - {m}) + [r[m]]
  }

  function AtOrAfter(r: Positions, shard: U64): set<U64> {
    set p | p in r && shard <= p
  }

  /** The two passes of the replica search: from `shard` up, then the whole ring. */
  function Walk(r: Positions, shard: U64): seq<Node> {
    InOrder(r, AtOrAfter(r, shard)) + InOrder(r, r.Keys)
  }

  // ----- Lookup -----

  /** How far clockwise position `p` lies from `shard`. */
  function Clockwise(shard: U64, p: U64): nat {
    if shard <= p then p - shard else p + MODULUS - shard
  }

  ghost predicate IsOwner(r: Positions, shard: U64, p: U64) {
    p in r && forall q | q in r :: Clockwise(shard, p) <= Clockwise(shard, q)
  }

  /** The first position at or after the key, or else the first of all. */
  function PrimaryFor(r: Positions, shard: U64): Result<Node> {
    if r == map[] then Err(EmptyRing) else
      var up := AtOrAfter(r, shard);
      Ok(if up != {} then InOrder(r, up)[0] else InOrder(r, r.Keys)[0])
  }

  ghost predicate IsMinimum(s: set<U64>, m: U64) {
    m in s && forall k | k in s :: m <= k
  }

  lemma {:induction false} FirstIsMinimum(r: Positions, s: set<U64>)
    requires s <= r.Keys && s != {}
    ensures |InOrder(r, s)| == |s|
    ensures exists m :: IsMinimum(s, m) && r[m] == InOrder(r, s)[0]
    decreases |s|
  {
    var m := Maximum(s);
    var rest := s - {m};
    if rest == {} {
      assert s == {m};
      assert IsMinimum(s, m);
    } else {
      FirstIsMinimum(r, rest);
      var k :| IsMinimum(rest, k) && r[k] == InOrder(r, rest)[0];
      assert IsMinimum(s, k);
    }
  }

  /** The primary is the node at the least clockwise distance from the key; an empty ring is
      an error. */
  lemma PrimaryIsNearestClockwise(r: Positions, shard: U64) returns (p: U64)
    ensures r == map[] ==> PrimaryFor(r, shard) == Err(EmptyRing)
    ensures r != map[] ==> IsOwner(r, shard, p) && PrimaryFor(r, shard) == Ok(r[p])
  {
    p := 0;
    if r != map[] {
      var up := AtOrAfter(r, shard);
      if up != {} {
        FirstIsMinimum(r, up);
        p :| IsMinimum(up, p) && r[p] == InOrder(r, up)[0];
        forall q | q in r ensures Clockwise(shard, p) <= Clockwise(shard, q) {
          if shard <= q { assert q in up; }
        }
      } else {
        FirstIsMinimum(r, r.Keys);
        p :| IsMinimum(r.Keys, p) && r[p] == InOrder(r, r.Keys)[0];
        forall q | q in r ensures q < shard { assert q !in up; }
      }
    }
  }

  // ----- Replica lists -----

  /** First occurrences, in order. */
  function Dedup(ns: seq<Node>): seq<Node> {
    if ns == [] then [] else
      var init, n := ns[..|ns| - 1], ns[|ns| - 1];
      if n in init then Dedup(init) else Dedup(init) + [n]
  }

  /** The preference order of all nodes for `shard`. */
  function Preference(r: Positions, shard: U64): seq<Node> {
    Dedup(Walk(r, shard))
  }

  function Min(a: nat, b: nat): nat { if a <= b then a else b }

  /** The loop tests its bound after pushing, so a count of 0 still yields one node. */
  function Wanted(count: nat): nat { if count == 0 then 1 else count }

  function Take(ns: seq<Node>, k: nat): seq<Node> { ns[..Min(k, |ns|)] }

  function Replicas(r: Positions, shard: U64, count: nat): seq<Node> {
    Take(Preference(r, shard), Wanted(count))
  }

  lemma DedupSnoc(ns: seq<Node>, n: Node)
    ensures Dedup(ns + [n]) == if n in ns then Dedup(ns) else Dedup(ns) + [n]
  {
    assert (ns + [n])[..|ns|] == ns;
  }

  lemma {:induction false} DedupPrefix(ns: seq<Node>, k: nat)
    requires k <= |ns|
    ensures Dedup(ns[..k]) <= Dedup(ns)
    decreases |ns| - k
  {
    if k < |ns| {
      assert ns[..k + 1] == ns[..k] + [ns[k]];
      DedupSnoc(ns[..k], ns[k]);
      DedupPrefix(ns, k + 1);
    } else {
      assert ns[..k] == ns;
    }
  }

  lemma {:induction false} InDedup(ns: seq<Node>, n: Node)
    ensures n in Dedup(ns) <==> n in ns
  {
    if ns != [] {
      var init, last := ns[..|ns| - 1], ns[|ns| - 1];
      assert ns == init + [last];
      InDedup(init, n);
    }
  }

  lemma EarlyStop(walk: seq<Node>, i: nat, count: nat)
    requires 0 < i <= |walk| && count <= |Dedup(walk[..i])| <= Wanted(count)
    ensures Take(Dedup(walk), Wanted(count)) == Dedup(walk[..i])
  {
    DedupPrefix(walk, i);
    InDedup(walk[..i], walk[i - 1]);
    assert walk[i - 1] == walk[..i][i - 1];
  }

  ghost predicate Distinct(ns: seq<Node>) {
    forall i, j | 0 <= i < j < |ns| :: ns[i] != ns[j]
  }

  lemma {:induction false} DedupDistinct(ns: seq<Node>)
    ensures Distinct(Dedup(ns))
  {
    if ns != [] {
      var init, n := ns[..|ns| - 1], ns[|ns| - 1];
      DedupDistinct(init);
      InDedup(init, n);
    }
  }

  // ----- The mutable ring -----

  class ConsistentHashRing {
    var ring: Positions
    var version: nat
    const hashing: Hashing

    constructor (hashing: Hashing)
      ensures this.hashing == hashing && ring == map[] && version == 0
    {
      this.hashing := hashing;
      ring := map[];
      version := 0;
    }

    method AddNode(node: Node)
      modifies this
      ensures ring == Added(hashing, old(ring), node)
      ensures version == old(version) + 1
    {
      var i := 0;
      while i < hashing.virtualNodes
        invariant i <= hashing.virtualNodes
        invariant ring == AddedFirst(hashing, old(ring), node, i)
        invariant version == old(version)
      {
        var pos := hashing.position(node, i);
        ring := ring[pos := node];
        AddedNext(hashing, old(ring), node, i);
        i := i + 1;
      }
      version := version + 1;
    }

    method RemoveNode(node: Node)
      modifies this
      ensures ring == Removed(hashing, old(ring), node)
      ensures version == old(version) + 1
    {
      var i := 0;
      while i < hashing.virtualNodes
        invariant i <= hashing.virtualNodes
        invariant ring == old(ring) - hashing.FirstOf(node, i)
        invariant version == old(version)
      {
        var pos := hashing.position(node, i);
        ring := ring - {pos};
        assert hashing.FirstOf(node, i + 1) == hashing.FirstOf(node, i) + {pos};
        i := i + 1;
      }
      version := version + 1;
    }

    method ReplicaNodes(shard: U64, count: nat) returns (r: Result<seq<Node>>)
      ensures r == if ring == map[] then Err(EmptyRing) else Ok(Replicas(ring, shard, count))
    {
      if ring == map[] {
        return Err(EmptyRing);
      }
      var walk := Walk(ring, shard);
      var result, seen, i := [], {}, 0;
      while i < |walk|
        invariant i <= |walk|
        invariant result == Dedup(walk[..i])
        invariant forall n :: n in seen <==> n in walk[..i]
        invariant |result| < Wanted(count)
      {
        var node := walk[i];
        assert walk[..i + 1] == walk[..i] + [node];
        DedupSnoc(walk[..i], node);
        if node !in seen {
          seen := seen + {node};
          result := result + [node];
        }
        i := i + 1;
        if |result| >= count {
          EarlyStop(walk, i, count);
          return Ok(result);
        }
      }
      assert walk[..i] == walk && result[..|result|] == result;
      r := Ok(result);
    }
  }

  // ----- Topology changes on the position map -----

  function Added(h: Hashing, r: Positions, x: Node): Positions {
    AddedFirst(h, r, x, h.virtualNodes)
  }

  function AddedFirst(h: Hashing, r: Positions, x: Node, k: nat): Positions {
    r + map p | p in h.FirstOf(x, k) :: x
  }

  lemma AddedNext(h: Hashing, r: Positions, x: Node, k: nat)
    ensures AddedFirst(h, r, x, k + 1) == AddedFirst(h, r, x, k)[h.position(x, k) := x]
  {
    assert h.FirstOf(x, k + 1) == h.FirstOf(x, k) + {h.position(x, k)};
  }

  function Removed(h: Hashing, r: Positions, x: Node): Positions {
    r - h.Of(x)
  }

  /** The ring with exactly the entries of `x` taken out. */
  function Without(r: Positions, x: Node): Positions {
    map p | p in r && r[p] != x :: r[p]
  }

  /** Adding a node can only move a key to that node, even when positions collide. */
  lemma AddMovesOnlyToNewNode(h: Hashing, r: Positions, x: Node, shard: U64)
    ensures PrimaryFor(Added(h, r, x), shard) in {PrimaryFor(r, shard), Ok(x)}
  {
    var r' := Added(h, r, x);
    assert r.Keys <= r'.Keys;
    var p := PrimaryIsNearestClockwise(r, shard);
    var p' := PrimaryIsNearestClockwise(r', shard);
    if r' != map[] && r'[p'] != x {
      assert p' in r && r'[p'] == r[p'];
      assert p in r';
      assert Clockwise(shard, p) == Clockwise(shard, p');
    }
  }

  /** Removal deletes exactly the removed node's entries if and only if none of its
      positions has been taken over by another node. */
  lemma RemovalIsExact(h: Hashing, r: Positions, x: Node)
    requires forall p | p in r && r[p] == x :: p in h.Of(x)
    ensures Removed(h, r, x) == Without(r, x) <==> forall p | p in h.Of(x) && p in r :: r[p] == x
  {
    var gone, kept := Removed(h, r, x), Without(r, x);
    if gone == kept {
      forall p | p in h.Of(x) && p in r ensures r[p] == x {
        assert p !in gone;
        assert p !in kept;
      }
    }
  }

  lemma RemoveUndoesAdd(h: Hashing, r: Positions, x: Node)
    ensures Removed(h, Added(h, r, x), x) == r <==> h.Of(x) !! r.Keys
  {
    var r' := Removed(h, Added(h, r, x), x);
    assert r' == r - h.Of(x);
    if r' == r {
      forall p | p in h.Of(x) ensures p !in r { assert p !in r'; }
    }
  }

  // ----- Stability of the preference order -----

  function Except(ns: seq<Node>, x: Node): seq<Node> {
    if ns == [] then [] else
      var init, n := ns[..|ns| - 1], ns[|ns| - 1];
      if n == x then Except(init, x) else Except(init, x) + [n]
  }

  lemma ExceptSnoc(ns: seq<Node>, n: Node, x: Node)
    ensures Except(ns + [n], x) == if n == x then Except(ns, x) else Except(ns, x) + [n]
  {
    assert (ns + [n])[..|ns|] == ns;
  }

  lemma {:induction false} InExcept(ns: seq<Node>, n: Node, x: Node)
    ensures n in Except(ns, x) <==> n in ns && n != x
  {
    if ns != [] {
      var init, last := ns[..|ns| - 1], ns[|ns| - 1];
      assert ns == init + [last];
      InExcept(init, n, x);
    }
  }

  lemma {:induction false} ExceptConcat(a: seq<Node>, b: seq<Node>, x: Node)
    ensures Except(a + b, x) == Except(a, x) + Except(b, x)
    decreases |b|
  {
    if b == [] {
      assert a + b == a;
    } else {
      var init, n := b[..|b| - 1], b[|b| - 1];
      assert a + b == (a + init) + [n];
      ExceptSnoc(a + init, n, x);
      ExceptConcat(a, init, x);
    }
  }

  lemma {:induction false} ExceptDedup(ns: seq<Node>, x: Node)
    ensures Except(Dedup(ns), x) == Dedup(Except(ns, x))
  {
    if ns != [] {
      var init, n := ns[..|ns| - 1], ns[|ns| - 1];
      ExceptDedup(init, x);
      ExceptSnoc(Dedup(init), n, x);
      DedupSnoc(Except(init, x), n);
      InExcept(init, n, x);
    }
  }

  lemma InOrderLast(r: Positions, s: set<U64>, m: U64)
    requires s <= r.Keys && IsMaximum(s, m)
    ensures InOrder(r, s) == InOrder(r, s - {m}) + [r[m]]
  {
    assert Maximum(s) == m;
  }

  lemma {:induction false} ExceptInOrder(r: Positions, s: set<U64>, t: set<U64>, x: Node)
    requires s <= r.Keys
    requires t == set p | p in s && r[p] != x
    ensures t <= Without(r, x).Keys
    ensures Except(InOrder(r, s), x) == InOrder(Without(r, x), t)
    decreases |s|
  {
    if s == {} {
      assert t == {};
    } else {
      var m := Maximum(s);
      var rest := s - {m};
      var rest' := set p | p in rest && r[p] != x;
      ExceptInOrder(r, rest, rest', x);
      ExceptSnoc(InOrder(r, rest), r[m], x);
      if r[m] == x {
        assert t == rest';
      } else {
        assert t - {m} == rest';
        InOrderLast(Without(r, x), t, m);
      }
    }
  }

  lemma WalkWithout(r: Positions, x: Node, shard: U64)
    ensures Except(Walk(r, shard), x) == Walk(Without(r, x), shard)
  {
    var w := Without(r, x);
    var up := AtOrAfter(r, shard);
    ExceptConcat(InOrder(r, up), InOrder(r, r.Keys), x);
    ExceptInOrder(r, up, AtOrAfter(w, shard), x);
    ExceptInOrder(r, r.Keys, w.Keys, x);
  }

  /** Striking a node from every key's preference order is the same as never having it. */
  lemma PreferenceWithout(r: Positions, x: Node, shard: U64)
    ensures Except(Preference(r, shard), x) == Preference(Without(r, x), shard)
  {
    ExceptDedup(Walk(r, shard), x);
    WalkWithout(r, x, shard);
  }

  lemma {:induction false} ExceptAbsent(ns: seq<Node>, x: Node)
    requires x !in ns
    ensures Except(ns, x) == ns
  {
    if ns != [] {
      ExceptAbsent(ns[..|ns| - 1], x);
    }
  }

  lemma {:induction false} ExceptOnce(ns: seq<Node>, x: Node)
    requires Distinct(ns) && x in ns
    ensures |Except(ns, x)| + 1 == |ns|
  {
    var init, n := ns[..|ns| - 1], ns[|ns| - 1];
    if n == x {
      ExceptAbsent(init, x);
    } else {
      ExceptOnce(init, x);
    }
  }

  lemma ExceptTake(d: seq<Node>, x: Node, k: nat)
    requires k <= |d|
    ensures Except(d[..k], x) <= Except(d, x)
  {
    assert d == d[..k] + d[k..];
    ExceptConcat(d[..k], d[k..], x);
  }

  lemma ExceptLength(ns: seq<Node>, x: Node)
    requires Distinct(ns)
    ensures |Except(ns, x)| == if x in ns then |ns| - 1 else |ns|
  {
    if x in ns { ExceptOnce(ns, x); } else { ExceptAbsent(ns, x); }
  }

  /** How the replica lists of two rings that agree outside `x` relate: struck of `x`, the
      one is a prefix of the other, and a list not naming `x` is the same in both. */
  ghost predicate SameButFor(x: Node, with: seq<Node>, without: seq<Node>) {
    && Except(with, x) <= without
    && x !in without
    && (x !in with ==> with == without)
    && |without| <= |with|
  }

  lemma TakeExcept(d: seq<Node>, x: Node, k: nat)
    requires Distinct(d)
    ensures Except(Take(d, k), x) <= Take(Except(d, x), k)
    ensures x !in Take(d, k) ==> Take(d, k) == Take(Except(d, x), k)
    ensures |Take(Except(d, x), k)| <= |Take(d, k)|
  {
    var m := Min(k, |d|);
    ExceptTake(d, x, m);
    ExceptLength(d, x);
    ExceptLength(d[..m], x);
    if x !in Take(d, k) {
      ExceptAbsent(d[..m], x);
      if k >= |d| { assert d[..m] == d; }
    }
  }

  lemma ReplicasAgreeOutside(with: Positions, without: Positions, x: Node, shard: U64, count: nat)
    requires Without(with, x) == without
    ensures SameButFor(x, Replicas(with, shard, count), Replicas(without, shard, count))
  {
    var d := Preference(with, shard);
    PreferenceWithout(with, x, shard);
    DedupDistinct(Walk(with, shard));
    TakeExcept(d, x, Wanted(count));
    InExcept(d, x, x);
  }

  /** A joining node that steals no position enters some replica lists and pushes at most
      the last member out of them; nothing else changes. */
  lemma AddKeepsReplicas(h: Hashing, r: Positions, x: Node, shard: U64, count: nat)
    requires h.Of(x) !! r.Keys && x !in r.Values
    ensures SameButFor(x, Replicas(Added(h, r, x), shard, count), Replicas(r, shard, count))
  {
    var r' := Added(h, r, x);
    assert Without(r', x) == r by {
      forall p | p in r ensures r[p] != x { assert r[p] in r.Values; }
    }
    ReplicasAgreeOutside(r', r, x, shard, count);
  }

  /** The mirror image: a leaving node whose positions are its own is struck out, and
      lists it was not in stay as they are. */
  lemma RemoveKeepsReplicas(h: Hashing, r: Positions, x: Node, shard: U64, count: nat)
    requires forall p | p in r :: r[p] == x <==> p in h.Of(x)
    ensures SameButFor(x, Replicas(r, shard, count), Replicas(Removed(h, r, x), shard, count))
  {
    RemovalIsExact(h, r, x);
    ReplicasAgreeOutside(r, Removed(h, r, x), x, shard, count);
  }

  lemma {:induction false} InInOrder(r: Positions, s: set<U64>, n: Node)
    requires s <= r.Keys
    ensures n in InOrder(r, s) <==> exists p :: p in s && r[p] == n
    decreases |s|
  {
    if s != {} {
      var m := Maximum(s);
      InInOrder(r, s - {m}, n);
      if r[m] != n && exists p :: p in s && r[p] == n {
        var p :| p in s && r[p] == n;
        assert p in s - {m};
      }
    }
  }

  lemma {:induction false} DistinctCount(d: seq<Node>, s: set<Node>)
    requires Distinct(d)
    requires forall n :: n in s <==> n in d
    ensures |s| == |d|
  {
    if d == [] {
      assert s == {};
    } else {
      var init, n := d[..|d| - 1], d[|d| - 1];
      assert d == init + [n];
      DistinctCount(init, s - {n});
    }
  }

  lemma PreferenceMembers(r: Positions, shard: U64, n: Node)
    ensures n in Preference(r, shard) <==> n in r.Values
  {
    InDedup(Walk(r, shard), n);
    InInOrder(r, r.Keys, n);
    InInOrder(r, AtOrAfter(r, shard), n);
  }

  lemma PreferenceHead(r: Positions, shard: U64)
    requires r != map[]
    ensures Preference(r, shard) != [] && PrimaryFor(r, shard) == Ok(Preference(r, shard)[0])
  {
    var walk, up := Walk(r, shard), AtOrAfter(r, shard);
    FirstIsMinimum(r, r.Keys);
    if up != {} { FirstIsMinimum(r, up); }
    assert walk[..1] == [] + [walk[0]];
    DedupSnoc([], walk[0]);
    DedupPrefix(walk, 1);
  }

  /** Distinct nodes, as many as asked for or as there are, the primary in front. */
  lemma ReplicaListShape(r: Positions, shard: U64, count: nat)
    requires r != map[]
    ensures var l := Replicas(r, shard, count);
            && Distinct(l)
            && |l| == (if count == 0 then 1 else if count < |r.Values| then count else |r.Values|)
            && |l| > 0 && PrimaryFor(r, shard) == Ok(l[0])
  {
    var d := Preference(r, shard);
    DedupDistinct(Walk(r, shard));
    forall n ensures n in r.Values <==> n in d { PreferenceMembers(r, shard, n); }
    DistinctCount(d, r.Values);
    PreferenceHead(r, shard);
  }

  /** A collision lets one node's removal delete another node's position: the key at
      that position changes owner although its owner stayed. */
  lemma CollisionBreaksRemoval(a: Node, b: Node, h: Hashing, r: Positions)
    requires a != b && h == Hashing((n, i) => 7, 1) && r == map[7 := b]
    ensures PrimaryFor(r, 7) == Ok(b) && PrimaryFor(Removed(h, r, a), 7) == Err(EmptyRing)
  {
    assert 7 in r;
    var p := PrimaryIsNearestClockwise(r, 7);
    assert h.position(a, 0) == 7;
    assert 7 in h.Of(a);
    assert Removed(h, r, a) == map[];
  }
}
