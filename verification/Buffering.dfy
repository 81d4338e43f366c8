/** The engine keeps a memtable as the rows written to it, in order. The tree of encoded rows
    that the memtable really is agrees with that in all the engine asks of it. */
module Buffering {
  import opened Bytes
  import opened Sorting
  import opened Partition
  import opened ZoneMap
  import opened Engine
  import MemTable

  type Codec = Rec -> Data

  ghost predicate Sized(encode: Codec) { forall r :: |encode(r)| == r.size }

  /** The inserts that writing the rows makes */
  function Inserts(encode: Codec, rows: seq<Rec>): seq<MemTable.Write> {
    seq(|rows|, i requires 0 <= i < |rows| => MemTable.Write(rows[i].ts, rows[i].signal, encode(rows[i])))
  }

  lemma InsertsInit(encode: Codec, rows: seq<Rec>)
    requires rows != []
    ensures Inserts(encode, rows)[..|rows| - 1] == Inserts(encode, rows[..|rows| - 1])
  {
  }

  /** The size counter is the size the engine goes by, so both find the same tables full. */
  lemma {:induction false} SizeAgrees(encode: Codec, rows: seq<Rec>)
    requires Sized(encode)
    ensures MemTable.Run(Inserts(encode, rows)).size == SizeOf(rows)
  {
    if rows != [] {
      SizeAgrees(encode, rows[..|rows| - 1]);
      InsertsInit(encode, rows);
    }
  }

  lemma FullAgrees(encode: Codec, rows: seq<Rec>, m: MemTable.MemTable)
    requires Sized(encode) && m.Now() == MemTable.Run(Inserts(encode, rows))
    ensures m.IsFull() <==> SizeOf(rows) >= m.maxSize
  {
    SizeAgrees(encode, rows);
  }

  /** A write empties the active memtable of its bucket exactly if the tree is full with it. */
  lemma WriteFreezesExactly(cfg: Config, s: State, encode: Codec, r: Rec, m: MemTable.MemTable)
    requires cfg.Valid() && Sized(encode) && m.maxSize == cfg.maxSize
    requires m.Now() == MemTable.Run(Inserts(encode, MemAt(s.mem, BucketOf(r.ts, cfg.bucket)) + [r]))
    ensures var t, key := Written(cfg, s, r), BucketOf(r.ts, cfg.bucket);
            key in t.mem && (t.mem[key] == [] <==> m.IsFull())
  {
    FullAgrees(encode, MemAt(s.mem, BucketOf(r.ts, cfg.bucket)) + [r], m);
  }

  ghost predicate Image(encode: Codec, e: MemTable.Entry, r: Rec) { e.key.ts == r.ts && e.data == encode(r) }

  /** Entry by entry the encoded rows, under their timestamps */
  ghost predicate Images(encode: Codec, entries: seq<MemTable.Entry>, rows: seq<Rec>) {
    |entries| == |rows| && forall i | 0 <= i < |rows| :: Image(encode, entries[i], rows[i])
  }

  lemma {:induction false} ArrivalImages(encode: Codec, rows: seq<Rec>, signal: nat)
    ensures Images(encode, MemTable.Arrivals(Inserts(encode, rows), signal), OfSignal(rows, signal))
  {
    if rows != [] {
      ArrivalImages(encode, rows[..|rows| - 1], signal);
      InsertsInit(encode, rows);
    }
  }

  lemma {:induction false} PlaceImages(encode: Codec, entries: seq<MemTable.Entry>, rows: seq<Rec>, e: MemTable.Entry, r: Rec)
    requires Images(encode, entries, rows) && Image(encode, e, r)
    ensures Images(encode, Sorting.Place(MemTable.TimeOf, entries, e), Sorting.Place(TimeOf, rows, r))
    decreases |rows|
  {
    if rows != [] && TimeOf(rows[|rows| - 1]) > TimeOf(r) {
      PlaceImages(encode, entries[..|rows| - 1], rows[..|rows| - 1], e, r);
    }
  }

  lemma {:induction false} SortImages(encode: Codec, entries: seq<MemTable.Entry>, rows: seq<Rec>)
    requires Images(encode, entries, rows)
    ensures Images(encode, StableSort(MemTable.TimeOf, entries), StableSort(TimeOf, rows))
    decreases |rows|
  {
    if rows != [] {
      var n := |rows| - 1;
      SortImages(encode, entries[..n], rows[..n]);
      PlaceImages(encode, StableSort(MemTable.TimeOf, entries[..n]), StableSort(TimeOf, rows[..n]), entries[n], rows[n]);
    }
  }

  /** Draining the tree for a signal gives the encodings of the rows the engine drains, in the
      same order. */
  lemma DrainAgrees(encode: Codec, rows: seq<Rec>, signal: nat)
    ensures Images(encode, MemTable.Drain(MemTable.Run(Inserts(encode, rows)).inner, signal), DrainSignal(rows, signal))
  {
    var ws := Inserts(encode, rows);
    MemTable.DrainIsStableSort(ws, signal);
    ArrivalImages(encode, rows, signal);
    SortImages(encode, MemTable.Arrivals(ws, signal), OfSignal(rows, signal));
  }
}
