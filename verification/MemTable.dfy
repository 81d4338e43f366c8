/** The in-memory table: a sorted map from row keys to encoded records. */
module MemTable {
  import opened Bytes
  import opened Sorting

  datatype RowKey = RowKey(ts: nat, signal: nat, sequence: nat)

  datatype Entry = Entry(key: RowKey, data: Data)

  /** Keys are ordered by time, then signal, then sequence. */
  predicate Less(a: RowKey, b: RowKey) {
    a.ts < b.ts || (a.ts == b.ts && (a.signal < b.signal || (a.signal == b.signal && a.sequence < b.sequence)))
  }

  /** Insertion into the tree, as the sequence of its entries in order */
  function Put(s: seq<Entry>, e: Entry): seq<Entry> {
    if s == [] then [e] else
      var init, last := s[..|s| - 1], s[|s| - 1];
      if Less(last.key, e.key) then s + [e]
      else if last.key == e.key then init + [e]
      else Put(init, e) + [last]
  }

  function Drain(s: seq<Entry>, signal: nat): seq<Entry> {
    if s == [] then [] else
      Drain(s[..|s| - 1], signal) + if s[|s| - 1].key.signal == signal then [s[|s| - 1]] else []
  }

  const KEY_SIZE: nat := 24

  datatype Write = Write(ts: nat, signal: nat, data: Data)

  datatype State = State(inner: seq<Entry>, size: nat, sequence: nat)

  const EMPTY := State([], 0, 0)

  function Inserted(m: State, w: Write): State {
    State(Put(m.inner, Entry(RowKey(w.ts, w.signal, m.sequence), w.data)), m.size + KEY_SIZE + |w.data|, m.sequence + 1)
  }

  function Run(ws: seq<Write>): State {
    if ws == [] then EMPTY else Inserted(Run(ws[..|ws| - 1]), ws[|ws| - 1])
  }

  class MemTable {
    var inner: seq<Entry>
    var sizeBytes: nat
    var sequence: nat
    const maxSize: nat

    ghost function Now(): State
      reads this
    {
      State(inner, sizeBytes, sequence)
    }

    constructor (maxSize: nat)
      ensures Now() == Run([]) && this.maxSize == maxSize
    {
      this.maxSize := maxSize;
      inner, sizeBytes, sequence := [], 0, 0;
    }

    method Insert(ts: nat, signal: nat, data: Data)
      modifies this
      ensures Now() == Inserted(old(Now()), Write(ts, signal, data))
      ensures forall ws | old(Now()) == Run(ws) :: Now() == Run(ws + [Write(ts, signal, data)])
    {
      var seqno := sequence;
      sequence := sequence + 1;
      inner := Put(inner, Entry(RowKey(ts, signal, seqno), data));
      sizeBytes := sizeBytes + KEY_SIZE + |data|;
      assert forall ws: seq<Write> :: (ws + [Write(ts, signal, data)])[..|ws|] == ws;
    }

    predicate IsFull()
      reads this
    {
      sizeBytes >= maxSize
    }

    method DrainSignal(signal: nat) returns (out: seq<Entry>)
      ensures out == Drain(inner, signal)
    {
      out := [];
      for i := 0 to |inner|
        invariant out == Drain(inner[..i], signal)
      {
        assert inner[..i + 1][..i] == inner[..i];
        if inner[i].key.signal == signal { out := out + [inner[i]]; }
      }
      assert inner[..|inner|] == inner;
    }
  }

  // ----- After any inserts -----

  ghost predicate Sorted(s: seq<Entry>) { forall i, j | 0 <= i < j < |s| :: Less(s[i].key, s[j].key) }

  ghost predicate Earlier(s: seq<Entry>, sequence: nat) { forall i | 0 <= i < |s| :: s[i].key.sequence < sequence }

  ghost predicate Under(s: seq<Entry>, k: RowKey) { forall i | 0 <= i < |s| :: Less(s[i].key, k) }

  /** A new sequence number never meets an old key: nothing is overwritten. */
  lemma {:induction false} PutKeeps(s: seq<Entry>, e: Entry)
    requires Earlier(s, e.key.sequence)
    ensures multiset(Put(s, e)) == multiset(s) + multiset{e} && |Put(s, e)| == |s| + 1
  {
    if s != [] {
      var init, last := s[..|s| - 1], s[|s| - 1];
      assert s == init + [last];
      if !Less(last.key, e.key) { PutKeeps(init, e); }
    }
  }

  lemma {:induction false} PutEarlier(s: seq<Entry>, e: Entry)
    requires Earlier(s, e.key.sequence)
    ensures Earlier(Put(s, e), e.key.sequence + 1)
  {
    if s != [] && !Less(s[|s| - 1].key, e.key) { PutEarlier(s[..|s| - 1], e); }
  }

  lemma {:induction false} PutUnder(s: seq<Entry>, e: Entry, k: RowKey)
    requires Under(s, k) && Less(e.key, k)
    ensures Under(Put(s, e), k)
  {
    if s != [] && !Less(s[|s| - 1].key, e.key) { PutUnder(s[..|s| - 1], e, k); }
  }

  lemma SortedSnoc(s: seq<Entry>, e: Entry)
    requires Sorted(s) && Under(s, e.key)
    ensures Sorted(s + [e])
  {
  }

  lemma {:induction false} PutSorted(s: seq<Entry>, e: Entry)
    requires Sorted(s) && Earlier(s, e.key.sequence)
    ensures Sorted(Put(s, e))
  {
    if s != [] {
      var init, last := s[..|s| - 1], s[|s| - 1];
      if Less(last.key, e.key) {
        SortedSnoc(s, e);
      } else {
        PutSorted(init, e);
        PutUnder(init, e, last.key);
        SortedSnoc(Put(init, e), last);
      }
    }
  }

  lemma {:induction false} RunValid(ws: seq<Write>)
    ensures var m := Run(ws);
            Sorted(m.inner) && Earlier(m.inner, m.sequence) && m.sequence == |ws| && |m.inner| == |ws|
  {
    if ws != [] {
      var m, w := Run(ws[..|ws| - 1]), ws[|ws| - 1];
      RunValid(ws[..|ws| - 1]);
      var e := Entry(RowKey(w.ts, w.signal, m.sequence), w.data);
      PutSorted(m.inner, e);
      PutEarlier(m.inner, e);
      PutKeeps(m.inner, e);
    }
  }

  // ----- Draining -----

  /** The writes of one signal in the order they came, numbered among all writes */
  function Arrivals(ws: seq<Write>, signal: nat): seq<Entry> {
    if ws == [] then [] else
      var w := ws[|ws| - 1];
      Arrivals(ws[..|ws| - 1], signal) + if w.signal == signal then [Entry(RowKey(w.ts, signal, |ws| - 1), w.data)] else []
  }

  function TimeOf(e: Entry): nat { e.key.ts }

  lemma {:induction false} PlaceAtEnd(s: seq<Entry>, x: Entry)
    requires Below(TimeOf, s, TimeOf(x))
    ensures Place(TimeOf, s, x) == s + [x]
  {
  }

  lemma {:induction false} DrainBelow(s: seq<Entry>, signal: nat, bound: nat)
    requires Below(TimeOf, s, bound)
    ensures Below(TimeOf, Drain(s, signal), bound)
  {
    if s != [] { DrainBelow(s[..|s| - 1], signal, bound); }
  }

  lemma DrainSnoc(s: seq<Entry>, e: Entry, signal: nat)
    ensures Drain(s + [e], signal) == Drain(s, signal) + if e.key.signal == signal then [e] else []
  {
    assert (s + [e])[..|s|] == s;
  }

  lemma PlaceBeforeLast(s: seq<Entry>, last: Entry, x: Entry)
    requires TimeOf(last) > TimeOf(x)
    ensures Place(TimeOf, s + [last], x) == Place(TimeOf, s, x) + [last]
  {
    assert (s + [last])[..|s|] == s;
  }

  function Placed(s: seq<Entry>, e: Entry, signal: nat): seq<Entry> {
    if e.key.signal == signal then Place(TimeOf, s, e) else s
  }

  /** The tree keeps `last` behind `e`; so does the drain. */
  lemma DrainPutBefore(init: seq<Entry>, last: Entry, e: Entry, signal: nat)
    requires Less(e.key, last.key) && last.key.sequence < e.key.sequence
    requires Drain(Put(init, e), signal) == Placed(Drain(init, signal), e, signal)
    ensures Drain(Put(init, e) + [last], signal) == Placed(Drain(init + [last], signal), e, signal)
  {
    DrainSnoc(Put(init, e), last, signal);
    DrainSnoc(init, last, signal);
    if last.key.signal != signal {
      assert Drain(init, signal) + [] == Drain(init, signal);
      assert Drain(Put(init, e), signal) + [] == Drain(Put(init, e), signal);
    } else if e.key.signal == signal {
      PlaceBeforeLast(Drain(init, signal), last, e);
    }
  }

  /** Inserting and draining is draining and placing by time. */
  lemma {:induction false} DrainPut(s: seq<Entry>, e: Entry, signal: nat)
    requires Sorted(s) && Earlier(s, e.key.sequence)
    ensures Drain(Put(s, e), signal) == Placed(Drain(s, signal), e, signal)
  {
    if s == [] {
      DrainSnoc([], e, signal);
      assert [] + [e] == [e];
    } else {
      var init, last := s[..|s| - 1], s[|s| - 1];
      if Less(last.key, e.key) {
        DrainSnoc(s, e, signal);
        DrainBelow(s, signal, e.key.ts);
        if e.key.signal == signal { PlaceAtEnd(Drain(s, signal), e); }
      } else {
        assert s == init + [last];
        DrainPut(init, e, signal);
        DrainPutBefore(init, last, e, signal);
      }
    }
  }

  lemma SortSnoc(s: seq<Entry>, x: Entry)
    ensures StableSort(TimeOf, s + [x]) == Place(TimeOf, StableSort(TimeOf, s), x)
  {
    assert (s + [x])[..|s|] == s;
  }

  lemma ArrivalsSnoc(ws: seq<Write>, w: Write, signal: nat)
    ensures Arrivals(ws + [w], signal) ==
            Arrivals(ws, signal) + if w.signal == signal then [Entry(RowKey(w.ts, signal, |ws|), w.data)] else []
  {
    assert (ws + [w])[..|ws|] == ws;
  }

  lemma SortStep(ws: seq<Write>, w: Write, signal: nat)
    ensures StableSort(TimeOf, Arrivals(ws + [w], signal)) ==
            Placed(StableSort(TimeOf, Arrivals(ws, signal)), Entry(RowKey(w.ts, w.signal, |ws|), w.data), signal)
  {
    ArrivalsSnoc(ws, w, signal);
    if w.signal == signal {
      SortSnoc(Arrivals(ws, signal), Entry(RowKey(w.ts, signal, |ws|), w.data));
    } else {
      assert Arrivals(ws, signal) + [] == Arrivals(ws, signal);
    }
  }

  lemma RunSnoc(ws: seq<Write>, w: Write)
    ensures Run(ws + [w]) == Inserted(Run(ws), w)
  {
    assert (ws + [w])[..|ws|] == ws;
  }

  lemma DrainStep(ws: seq<Write>, w: Write, signal: nat)
    requires Drain(Run(ws).inner, signal) == StableSort(TimeOf, Arrivals(ws, signal))
    ensures Drain(Run(ws + [w]).inner, signal) == StableSort(TimeOf, Arrivals(ws + [w], signal))
  {
    RunValid(ws);
    RunSnoc(ws, w);
    DrainPut(Run(ws).inner, Entry(RowKey(w.ts, w.signal, |ws|), w.data), signal);
    SortStep(ws, w, signal);
  }

  /** After any writes a drain is the writes of the signal, stably sorted by time. */
  lemma {:induction false} DrainIsStableSort(ws: seq<Write>, signal: nat)
    ensures Drain(Run(ws).inner, signal) == StableSort(TimeOf, Arrivals(ws, signal))
  {
    if ws != [] {
      var init, w := ws[..|ws| - 1], ws[|ws| - 1];
      assert ws == init + [w];
      DrainIsStableSort(init, signal);
      DrainStep(init, w, signal);
    }
  }

  lemma DrainCount(s: seq<Entry>, e: Entry, signal: nat, x: Entry)
    ensures multiset(Drain(s + [e], signal))[x] == multiset(Drain(s, signal))[x] + if e.key.signal == signal && x == e then 1 else 0
  {
    DrainSnoc(s, e, signal);
  }

  /** How often the three drains together hold `x` */
  ghost function ThreeDrains(s: seq<Entry>, x: Entry): nat {
    multiset(Drain(s, 0))[x] + multiset(Drain(s, 1))[x] + multiset(Drain(s, 2))[x]
  }

  /** The three drains share out the contents: each entry is in exactly one, as often as in
      the table. */
  lemma {:induction false} DrainsPartition(s: seq<Entry>, x: Entry)
    requires forall i | 0 <= i < |s| :: s[i].key.signal < 3
    ensures multiset(s)[x] == ThreeDrains(s, x)
  {
    if s != [] {
      var init, last := s[..|s| - 1], s[|s| - 1];
      DrainsPartition(init, x);
      assert s == init + [last];
      DrainCount(init, last, 0, x);
      DrainCount(init, last, 1, x);
      DrainCount(init, last, 2, x);
    }
  }

  function Footprint(s: seq<Entry>): nat {
    if s == [] then 0 else Footprint(s[..|s| - 1]) + KEY_SIZE + |s[|s| - 1].data|
  }

  lemma FootprintSnoc(s: seq<Entry>, e: Entry)
    ensures Footprint(s + [e]) == Footprint(s) + KEY_SIZE + |e.data|
  {
    assert (s + [e])[..|s|] == s;
  }

  lemma {:induction false} PutFootprint(s: seq<Entry>, e: Entry)
    requires Earlier(s, e.key.sequence)
    ensures Footprint(Put(s, e)) == Footprint(s) + KEY_SIZE + |e.data|
  {
    if s == [] {
      FootprintSnoc([], e);
      assert [] + [e] == [e];
    } else {
      var init, last := s[..|s| - 1], s[|s| - 1];
      if Less(last.key, e.key) {
        FootprintSnoc(s, e);
      } else {
        PutFootprint(init, e);
        FootprintSnoc(Put(init, e), last);
      }
    }
  }

  /** The size counter is the sum of key and value sizes of what the table holds. */
  lemma {:induction false} SizeIsExact(ws: seq<Write>)
    ensures Run(ws).size == Footprint(Run(ws).inner)
  {
    if ws != [] {
      var init, w := ws[..|ws| - 1], ws[|ws| - 1];
      SizeIsExact(init);
      RunValid(init);
      PutFootprint(Run(init).inner, Entry(RowKey(w.ts, w.signal, |init|), w.data));
    }
  }
}
