/** Cluster membership as event steps on a view, and routing from that view. */
module Membership {
  import opened Options
  import opened Ring

  datatype NodeMeta = NodeMeta(nodeId: Node, grpcAddr: string, version: string, startedAt: U64)

  const NODES_PREFIX: string := "/infralens/nodes/"

  /** A put carries the decoded value, or nothing when the value does not decode. */
  datatype Event = Put(meta: Option<NodeMeta>) | Delete(key: string)

  datatype View = View(nodes: seq<NodeMeta>, ring: Positions)

  /** `trim_start_matches`: the prefix is stripped as often as it occurs. */
  function Trim(key: string): string
    decreases |key|
  {
    if NODES_PREFIX <= key then Trim(key[|NODES_PREFIX|..]) else key
  }

  /** A deletion names the right node exactly when the id does not itself begin with
      the directory prefix. */
  lemma TrimRecoversId(id: string)
    ensures Trim(NODES_PREFIX + id) == id <==> !(NODES_PREFIX <= id)
  {
    var key := NODES_PREFIX + id;
    assert key[|NODES_PREFIX|..] == id;
    if NODES_PREFIX <= id {
      TrimShrinks(id[|NODES_PREFIX|..]);
    }
  }

  lemma {:induction false} TrimShrinks(key: string)
    ensures |Trim(key)| <= |key|
    decreases |key|
  {
    if NODES_PREFIX <= key { TrimShrinks(key[|NODES_PREFIX|..]); }
  }

  function Retain(nodes: seq<NodeMeta>, id: Node): seq<NodeMeta> {
    if nodes == [] then [] else
      var init, m := nodes[..|nodes| - 1], nodes[|nodes| - 1];
      if m.nodeId == id then Retain(init, id) else Retain(init, id) + [m]
  }

  function Apply(h: Hashing, v: View, e: Event): View {
    match e
    case Put(None) => v
    case Put(Some(m)) => View(Retain(v.nodes, m.nodeId) + [m], Added(h, v.ring, m.nodeId))
    case Delete(key) => var id := Node(Trim(key)); View(Retain(v.nodes, id), Removed(h, v.ring, id))
  }

  function Run(h: Hashing, v: View, es: seq<Event>): View {
    if es == [] then v else Apply(h, Run(h, v, es[..|es| - 1]), es[|es| - 1])
  }

  // ----- The mutable view -----

  class ClusterView {
    var nodes: seq<NodeMeta>
    const ring: ConsistentHashRing

    ghost function State(): View
      reads this, ring
    {
      View(nodes, ring.ring)
    }

    /** The initial load pushes every decodable entry without looking for duplicates. */
    constructor (h: Hashing, values: seq<Option<NodeMeta>>)
      ensures fresh(ring) && ring.hashing == h
      ensures State() == Loaded(h, values)
    {
      ring := new ConsistentHashRing(h);
      nodes := [];
      new;
      var i := 0;
      while i < |values|
        invariant i <= |values| && fresh(ring)
        invariant State() == Loaded(h, values[..i])
      {
        assert values[..i + 1][..i] == values[..i];
        match values[i] {
          case None =>
          case Some(meta) =>
            ring.AddNode(meta.nodeId);
            nodes := nodes + [meta];
        }
        i := i + 1;
      }
      assert values[..i] == values;
    }

    method OnEvent(e: Event)
      modifies this, ring
      ensures State() == Apply(ring.hashing, old(State()), e)
    {
      match e
      case Put(None) =>
      case Put(Some(meta)) =>
        nodes := Retain(nodes, meta.nodeId);
        ring.AddNode(meta.nodeId);
        nodes := nodes + [meta];
      case Delete(key) =>
        var id := Node(Trim(key));
        nodes := Retain(nodes, id);
        ring.RemoveNode(id);
    }

    method Watch(es: seq<Event>)
      modifies this, ring
      ensures State() == Run(ring.hashing, old(State()), es)
    {
      var i := 0;
      while i < |es|
        invariant i <= |es|
        invariant State() == Run(ring.hashing, old(State()), es[..i])
      {
        assert es[..i + 1][..i] == es[..i];
        OnEvent(es[i]);
        i := i + 1;
      }
      assert es[..i] == es;
    }
  }

  function Loaded(h: Hashing, values: seq<Option<NodeMeta>>): View {
    if values == [] then View([], map[]) else
      var v, m := Loaded(h, values[..|values| - 1]), values[|values| - 1];
      if m.None? then v else View(v.nodes + [m.value], Added(h, v.ring, m.value.nodeId))
  }

  // ----- What the view is a view of -----

  /** The authoritative registry after a history: the last metadata put under each id. */
  function Registry(es: seq<Event>): map<Node, NodeMeta> {
    if es == [] then map[] else
      var reg := Registry(es[..|es| - 1]);
      match es[|es| - 1]
      case Put(None) => reg
      case Put(Some(m)) => reg[m.nodeId := m]
      case Delete(key) => reg - {Node(Trim(key))}
  }

  ghost predicate Names(e: Event, ids: set<Node>) {
    match e
    case Put(None) => true
    case Put(Some(m)) => m.nodeId in ids
    case Delete(key) => Node(Trim(key)) in ids
  }

  ghost predicate Within(es: seq<Event>, ids: set<Node>) {
    forall i | 0 <= i < |es| :: Names(es[i], ids)
  }

  /** The ring holds every position of every live node, and nothing else. */
  ghost predicate RingOf(h: Hashing, live: set<Node>, r: Positions) {
    && (forall n | n in live :: forall p | p in h.Of(n) :: p in r && r[p] == n)
    && (forall p | p in r :: r[p] in live && p in h.Of(r[p]))
  }

  lemma RingOfUnique(h: Hashing, live: set<Node>, r: Positions, r': Positions)
    requires RingOf(h, live, r) && RingOf(h, live, r')
    ensures r == r'
  {
    forall p | p in r ensures p in r' && r'[p] == r[p] { assert p in h.Of(r[p]); }
    forall p | p in r' ensures p in r { assert p in h.Of(r'[p]); }
  }

  lemma RingOfAdded(h: Hashing, ids: set<Node>, live: set<Node>, r: Positions, x: Node)
    requires h.CollisionFree(ids) && live <= ids && x in ids && RingOf(h, live, r)
    ensures RingOf(h, live + {x}, Added(h, r, x))
  {
    var r' := Added(h, r, x);
    forall n | n in live + {x} ensures forall p | p in h.Of(n) :: p in r' && r'[p] == n {
      if n != x { assert h.Of(n) !! h.Of(x); }
    }
  }

  lemma RingOfRemoved(h: Hashing, ids: set<Node>, live: set<Node>, r: Positions, x: Node)
    requires h.CollisionFree(ids) && live <= ids && x in ids && RingOf(h, live, r)
    ensures RingOf(h, live - {x}, Removed(h, r, x))
  {
    var r' := Removed(h, r, x);
    forall n | n in live - {x} ensures forall p | p in h.Of(n) :: p in r' && r'[p] == n {
      assert h.Of(n) !! h.Of(x);
    }
  }

  lemma {:induction false} RingTracksRegistry(h: Hashing, ids: set<Node>, es: seq<Event>)
    requires h.CollisionFree(ids) && Within(es, ids)
    ensures Registry(es).Keys <= ids
    ensures RingOf(h, Registry(es).Keys, Run(h, View([], map[]), es).ring)
  {
    if es != [] {
      var init, e := es[..|es| - 1], es[|es| - 1];
      RingTracksRegistry(h, ids, init);
      assert Names(e, ids);
      var r, live := Run(h, View([], map[]), init).ring, Registry(init).Keys;
      match e
      case Put(None) =>
      case Put(Some(m)) =>
        RingOfAdded(h, ids, live, r, m.nodeId);
        assert Registry(es).Keys == live + {m.nodeId};
      case Delete(key) =>
        RingOfRemoved(h, ids, live, r, Node(Trim(key)));
        assert Registry(es).Keys == live - {Node(Trim(key))};
    }
  }

  ghost predicate DistinctIds(nodes: seq<NodeMeta>) {
    forall i, j | 0 <= i < j < |nodes| :: nodes[i].nodeId != nodes[j].nodeId
  }

  lemma {:induction false} RetainDistinct(nodes: seq<NodeMeta>, id: Node)
    requires DistinctIds(nodes)
    ensures DistinctIds(Retain(nodes, id))
    ensures forall m :: m in Retain(nodes, id) <==> m in nodes && m.nodeId != id
  {
    if nodes != [] {
      var init, m := nodes[..|nodes| - 1], nodes[|nodes| - 1];
      assert nodes == init + [m];
      RetainDistinct(init, id);
      forall n | n in Retain(init, id) ensures n.nodeId != m.nodeId {
        assert n in init;
      }
    }
  }

  /** Whatever the hash does, the node list is the registry: one entry per live id, and
      that entry is the last metadata put. */
  lemma {:induction false} NodesAreTheRegistry(h: Hashing, es: seq<Event>)
    ensures var nodes := Run(h, View([], map[]), es).nodes;
            && DistinctIds(nodes)
            && forall m :: m in nodes <==> m.nodeId in Registry(es) && Registry(es)[m.nodeId] == m
  {
    if es != [] {
      var init, e := es[..|es| - 1], es[|es| - 1];
      NodesAreTheRegistry(h, init);
      var before := Run(h, View([], map[]), init).nodes;
      match e
      case Put(None) =>
      case Put(Some(m)) => RetainDistinct(before, m.nodeId);
      case Delete(key) => RetainDistinct(before, Node(Trim(key)));
    }
  }

  // ----- The initial load is a history too -----

  function Puts(values: seq<Option<NodeMeta>>): (es: seq<Event>)
    ensures |es| == |values|
  {
    seq(|values|, i requires 0 <= i < |values| => Put(values[i]))
  }

  lemma {:induction false} RunConcat(h: Hashing, v: View, es: seq<Event>, es': seq<Event>)
    ensures Run(h, v, es + es') == Run(h, Run(h, v, es), es')
    decreases |es'|
  {
    if es' == [] {
      assert es + es' == es;
    } else {
      assert (es + es')[..|es + es'| - 1] == es + es'[..|es'| - 1];
      RunConcat(h, v, es, es'[..|es'| - 1]);
    }
  }

  lemma {:induction false} RetainAbsent(nodes: seq<NodeMeta>, id: Node)
    requires forall m | m in nodes :: m.nodeId != id
    ensures Retain(nodes, id) == nodes
  {
    if nodes != [] {
      RetainAbsent(nodes[..|nodes| - 1], id);
    }
  }

  lemma {:induction false} RetainConcat(a: seq<NodeMeta>, b: seq<NodeMeta>, id: Node)
    ensures Retain(a + b, id) == Retain(a, id) + Retain(b, id)
    decreases |b|
  {
    if b == [] {
      assert a + b == a;
    } else {
      assert (a + b)[..|a + b| - 1] == a + b[..|b| - 1];
      RetainConcat(a, b[..|b| - 1], id);
    }
  }

  lemma {:induction false} RetainCommutes(nodes: seq<NodeMeta>, a: Node, b: Node)
    ensures Retain(Retain(nodes, a), b) == Retain(Retain(nodes, b), a)
  {
    if nodes != [] {
      var init, m := nodes[..|nodes| - 1], nodes[|nodes| - 1];
      RetainCommutes(init, a, b);
      RetainSnoc(Retain(init, a), m, b);
      RetainSnoc(Retain(init, b), m, a);
    }
  }

  lemma RetainSnoc(nodes: seq<NodeMeta>, m: NodeMeta, id: Node)
    ensures Retain(nodes + [m], id) == if m.nodeId == id then Retain(nodes, id) else Retain(nodes, id) + [m]
  {
    assert (nodes + [m])[..|nodes|] == nodes;
  }

  lemma {:induction false} RetainGone(nodes: seq<NodeMeta>, id: Node)
    ensures forall m | m in Retain(nodes, id) :: m.nodeId != id
  {
    if nodes != [] { RetainGone(nodes[..|nodes| - 1], id); }
  }

  /** The id an event is about, if it is about one */
  function About(e: Event): Option<Node> {
    match e
    case Put(None) => None
    case Put(Some(m)) => Some(m.nodeId)
    case Delete(key) => Some(Node(Trim(key)))
  }

  /** What the events leave of the nodes there were */
  function Left(nodes: seq<NodeMeta>, es: seq<Event>): seq<NodeMeta> {
    if es == [] then nodes else
      var left := Left(nodes, es[..|es| - 1]);
      match About(es[|es| - 1]) case None => left case Some(id) => Retain(left, id)
  }

  lemma {:induction false} LeftConcat(a: seq<NodeMeta>, b: seq<NodeMeta>, es: seq<Event>)
    ensures Left(a + b, es) == Left(a, es) + Left(b, es)
    decreases |es|
  {
    if es != [] {
      var init := es[..|es| - 1];
      LeftConcat(a, b, init);
      if About(es[|es| - 1]).Some? { RetainConcat(Left(a, init), Left(b, init), About(es[|es| - 1]).value); }
    }
  }

  lemma {:induction false} LeftRetain(nodes: seq<NodeMeta>, id: Node, es: seq<Event>)
    ensures Left(Retain(nodes, id), es) == Retain(Left(nodes, es), id)
    decreases |es|
  {
    if es != [] {
      var init := es[..|es| - 1];
      LeftRetain(nodes, id, init);
      if About(es[|es| - 1]).Some? { RetainCommutes(Left(nodes, init), id, About(es[|es| - 1]).value); }
    }
  }

  /** One node is left alone, or struck out together with all others of its id. */
  lemma {:induction false} LeftOne(m: NodeMeta, es: seq<Event>, nodes: seq<NodeMeta>)
    ensures Left([m], es) == [m] || (Left([m], es) == [] && forall x | x in Left(nodes, es) :: x.nodeId != m.nodeId)
    decreases |es|
  {
    if es != [] {
      var init := es[..|es| - 1];
      LeftOne(m, init, nodes);
      if About(es[|es| - 1]).Some? {
        var id := About(es[|es| - 1]).value;
        RetainSnoc([], m, id);
        assert [] + [m] == [m];
        RetainGone(Left(nodes, init), id);
        RetainWithin(Left(nodes, init), id);
      }
    }
  }

  lemma {:induction false} RetainWithin(nodes: seq<NodeMeta>, id: Node)
    ensures forall m | m in Retain(nodes, id) :: m in nodes
  {
    if nodes != [] { RetainWithin(nodes[..|nodes| - 1], id); }
  }

  lemma {:induction false} RunNodes(h: Hashing, v: View, es: seq<Event>)
    ensures Run(h, v, es).nodes == Left(v.nodes, es) + Run(h, View([], map[]), es).nodes
    decreases |es|
  {
    if es != [] {
      var init, e := es[..|es| - 1], es[|es| - 1];
      RunNodes(h, v, init);
      var a, b := Left(v.nodes, init), Run(h, View([], map[]), init).nodes;
      if About(e).Some? { RetainConcat(a, b, About(e).value); }
      if e.Put? && e.meta.Some? { assert Retain(a, e.meta.value.nodeId) + Retain(b, e.meta.value.nodeId) + [e.meta.value]
                                      == Retain(a, e.meta.value.nodeId) + (Retain(b, e.meta.value.nodeId) + [e.meta.value]); }
    }
  }

  lemma {:induction false} RunRing(h: Hashing, v: View, v': View, es: seq<Event>)
    requires v.ring == v'.ring
    ensures Run(h, v, es).ring == Run(h, v', es).ring
    decreases |es|
  {
    if es != [] { RunRing(h, v, v', es[..|es| - 1]); }
  }

  lemma PutsNext(h: Hashing, values: seq<Option<NodeMeta>>)
    requires values != []
    ensures Run(h, View([], map[]), Puts(values))
         == Apply(h, Run(h, View([], map[]), Puts(values[..|values| - 1])), Put(values[|values| - 1]))
  {
    assert Puts(values)[..|values| - 1] == Puts(values[..|values| - 1]);
  }

  lemma {:induction false} LoadedRing(h: Hashing, values: seq<Option<NodeMeta>>)
    ensures Loaded(h, values).ring == Run(h, View([], map[]), Puts(values)).ring
  {
    if values != [] {
      LoadedRing(h, values[..|values| - 1]);
      PutsNext(h, values);
    }
  }

  /** Where the events leave no id that was loaded twice, they leave what the loaded nodes,
      put one after the other, would have been. */
  lemma {:induction false} LeftOfLoaded(h: Hashing, values: seq<Option<NodeMeta>>, es: seq<Event>)
    requires DistinctIds(Left(Loaded(h, values).nodes, es))
    ensures Left(Loaded(h, values).nodes, es) == Left(Run(h, View([], map[]), Puts(values)).nodes, es)
    decreases |values|
  {
    if values != [] {
      var init, m := values[..|values| - 1], values[|values| - 1];
      PutsNext(h, values);
      var all, put := Loaded(h, init).nodes, Run(h, View([], map[]), Puts(init)).nodes;
      if m.None? {
        LeftOfLoaded(h, init, es);
      } else {
        var id := m.value.nodeId;
        LeftConcat(all, [m.value], es);
        LeftConcat(Retain(put, id), [m.value], es);
        LeftRetain(put, id, es);
        LeftOne(m.value, es, all);
        LeftOne(m.value, es, put);
        DistinctInit(Left(all, es), Left([m.value], es));
        LeftOfLoaded(h, init, es);
        RetainAbsent(Left(put, es), id);
      }
    }
  }

  lemma DistinctInit(a: seq<NodeMeta>, b: seq<NodeMeta>)
    requires DistinctIds(a + b)
    ensures DistinctIds(a) && forall x, y | x in a && y in b :: x.nodeId != y.nodeId
  {
    forall i, j | 0 <= i < j < |a| ensures a[i].nodeId != a[j].nodeId { assert (a + b)[i] == a[i] && (a + b)[j] == a[j]; }
    forall x, y | x in a && y in b ensures x.nodeId != y.nodeId {
      var i :| 0 <= i < |a| && a[i] == x;
      var j :| 0 <= j < |b| && b[j] == y;
      assert (a + b)[i] == x && (a + b)[|a| + j] == y;
    }
  }

  lemma {:induction false} LeftDistinct(nodes: seq<NodeMeta>, es: seq<Event>)
    requires DistinctIds(nodes)
    ensures DistinctIds(Left(nodes, es))
    decreases |es|
  {
    if es != [] {
      LeftDistinct(nodes, es[..|es| - 1]);
      if About(es[|es| - 1]).Some? { RetainDistinct(Left(nodes, es[..|es| - 1]), About(es[|es| - 1]).value); }
    }
  }

  /** A view that was loaded and then watched has the ring of one history, the loaded entries
      first; and it has its node list exactly if the events leave no id that was loaded
      twice. */
  lemma LoadThenWatch(h: Hashing, values: seq<Option<NodeMeta>>, es: seq<Event>)
    ensures var loaded, run := Run(h, Loaded(h, values), es), Run(h, View([], map[]), Puts(values) + es);
            && loaded.ring == run.ring
            && (loaded.nodes == run.nodes <==> DistinctIds(Left(Loaded(h, values).nodes, es)))
  {
    var puts := Run(h, View([], map[]), Puts(values));
    RunConcat(h, View([], map[]), Puts(values), es);
    LoadedRing(h, values);
    RunRing(h, Loaded(h, values), puts, es);
    RunNodes(h, Loaded(h, values), es);
    RunNodes(h, puts, es);
    NodesAreTheRegistry(h, Puts(values));
    LeftDistinct(puts.nodes, es);
    var a, b, c := Left(Loaded(h, values).nodes, es), Left(puts.nodes, es), Run(h, View([], map[]), es).nodes;
    if a + c == b + c {
      assert |a| == |b| && a == (a + c)[..|a|] && b == (b + c)[..|b|];
    }
    if DistinctIds(a) { LeftOfLoaded(h, values, es); }
  }

  ghost predicate Convergent(h: Hashing, ids: set<Node>) {
    forall es, es' | Within(es, ids) && Within(es', ids) && Registry(es).Keys == Registry(es').Keys ::
      Run(h, View([], map[]), es).ring == Run(h, View([], map[]), es').ring
  }

  lemma SameMembersSameRing(h: Hashing, ids: set<Node>, es: seq<Event>, es': seq<Event>)
    requires h.CollisionFree(ids) && Within(es, ids) && Within(es', ids)
    requires Registry(es).Keys == Registry(es').Keys
    ensures Run(h, View([], map[]), es).ring == Run(h, View([], map[]), es').ring
  {
    RingTracksRegistry(h, ids, es);
    RingTracksRegistry(h, ids, es');
    RingOfUnique(h, Registry(es).Keys, Run(h, View([], map[]), es).ring, Run(h, View([], map[]), es').ring);
  }

  function TwoPuts(a: Node, b: Node): seq<Event> {
    [Put(Some(NodeMeta(a, "", "", 0)))] + [Put(Some(NodeMeta(b, "", "", 0)))]
  }

  lemma LastPutWins(h: Hashing, ids: set<Node>, a: Node, b: Node)
    requires a in ids && b in ids
    ensures Within(TwoPuts(a, b), ids)
    ensures Registry(TwoPuts(a, b)).Keys == {a, b}
    ensures Run(h, View([], map[]), TwoPuts(a, b)).ring == Added(h, Added(h, map[], a), b)
  {
    var es := TwoPuts(a, b);
    var one := [Put(Some(NodeMeta(a, "", "", 0)))];
    assert es[..1] == one && one[..0] == [];
    assert Run(h, View([], map[]), one).ring == Added(h, map[], a);
    assert Registry(one).Keys == {a};
  }

  lemma CollisionDiverges(h: Hashing, ids: set<Node>, a: Node, b: Node, p: U64)
    requires a in ids && b in ids && a != b && p in h.Of(a) && p in h.Of(b)
    ensures !Convergent(h, ids)
  {
    var es, es' := TwoPuts(a, b), TwoPuts(b, a);
    LastPutWins(h, ids, a, b);
    LastPutWins(h, ids, b, a);
    assert Run(h, View([], map[]), es).ring[p] == b;
    assert Run(h, View([], map[]), es').ring[p] == a;
  }

  /** Order-independent convergence: every two histories over `ids` that leave the same
      nodes alive build the same ring if and only if no two ids collide. */
  lemma ConvergesIffCollisionFree(h: Hashing, ids: set<Node>)
    ensures Convergent(h, ids) <==> h.CollisionFree(ids)
  {
    if h.CollisionFree(ids) {
      forall es, es' | Within(es, ids) && Within(es', ids) && Registry(es).Keys == Registry(es').Keys
        ensures Run(h, View([], map[]), es).ring == Run(h, View([], map[]), es').ring
      {
        SameMembersSameRing(h, ids, es, es');
      }
    } else {
      var a, b :| a in ids && b in ids && a != b && !(h.Of(a) !! h.Of(b));
      var p :| p in h.Of(a) && p in h.Of(b);
      CollisionDiverges(h, ids, a, b, p);
    }
  }

  lemma RingNodes(h: Hashing, live: set<Node>, r: Positions)
    requires RingOf(h, live, r)
    ensures r.Values == if h.virtualNodes > 0 then live else {}
  {
    if h.virtualNodes > 0 {
      forall n | n in live ensures n in r.Values {
        var p := h.position(n, 0);
        assert p in h.Of(n);
        assert p in r && r[p] == n;
      }
    }
  }

  // ----- Routing -----

  datatype RoutingDecision = RoutingDecision(primary: Node, replicas: seq<Node>, isLocal: bool)

  function Route(r: Positions, local: Node, repFactor: nat, shard: U64): RoutingDecision {
    var primary := match PrimaryFor(r, shard) case Ok(n) => n case Err(_) => local;
    var all := if r == map[] then [] else Replicas(r, shard, repFactor);
    // `rep_factor - 1` on u32 wraps at 0
    var extra := if repFactor == 0 then 0xFFFF_FFFF else repFactor - 1;
    RoutingDecision(primary, Take(Except(all, primary), extra), primary == local)
  }

  /** On a non-empty ring the decision is the whole replica list, primary first, and local
      exactly if the primary is this node; an empty ring keeps the write local. */
  lemma RouteIsReplicaList(r: Positions, local: Node, repFactor: nat, shard: U64)
    ensures var d := Route(r, local, repFactor, shard);
            && (r == map[] ==> d == RoutingDecision(local, [], true))
            && (r != map[] ==> [d.primary] + d.replicas == Replicas(r, shard, repFactor))
            && (r != map[] ==> PrimaryFor(r, shard) == Ok(d.primary))
            && (r != map[] ==> (d.isLocal <==> PrimaryFor(r, shard) == Ok(local)))
  {
    if r != map[] {
      ReplicaListShape(r, shard, repFactor);
      var l := Replicas(r, shard, repFactor);
      HeadStruck(l);
      assert l == [l[0]] + l[1..] && l[1..][..|l| - 1] == l[1..];
    }
  }

  /** A list without repetition, struck of its head, is its tail. */
  lemma HeadStruck(l: seq<Node>)
    requires l != [] && Ring.Distinct(l)
    ensures Except(l, l[0]) == l[1..]
  {
    var rest := l[1..];
    assert l == [l[0]] + rest;
    ExceptConcat([l[0]], rest, l[0]);
    assert Except([l[0]], l[0]) == [] by { assert [l[0]][..0] == []; assert Except([], l[0]) == []; }
    ExceptAbsent(rest, l[0]);
  }

  /** With collision-free ids, any two views whose histories leave the same nodes alive
      route every key alike: same primary, same ordered replicas. */
  lemma SameMembersRouteAlike(h: Hashing, ids: set<Node>, es: seq<Event>, es': seq<Event>,
                              local: Node, repFactor: nat, shard: U64)
    requires h.CollisionFree(ids) && Within(es, ids) && Within(es', ids)
    requires Registry(es).Keys == Registry(es').Keys
    ensures var r, r' := Run(h, View([], map[]), es).ring, Run(h, View([], map[]), es').ring;
            && Route(r, local, repFactor, shard) == Route(r', local, repFactor, shard)
            && r.Values == if h.virtualNodes > 0 then Registry(es).Keys else {}
  {
    SameMembersSameRing(h, ids, es, es');
    RingTracksRegistry(h, ids, es);
    RingNodes(h, Registry(es).Keys, Run(h, View([], map[]), es).ring);
  }
}
