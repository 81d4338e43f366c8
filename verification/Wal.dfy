/** The write-ahead log: frame layout, appending, and recovery after a crash. */
module Wal {
  import opened Bytes

  const ENTRY_CHECKPOINT: Byte := 0xFF
  const HEADER_SIZE: nat := 9

  datatype Entry = Entry(kind: Byte, data: Data)

  /** CRC32 over the type byte and the data; only that it is a function matters. */
  type Checksum = Data -> nat

  datatype WalError = CrcMismatch(offset: nat, expected: nat, actual: nat)

  datatype Result<+T> = Ok(value: T) | Err(error: WalError)

  /** [crc: 4][len: 4][type: 1][data]; the length is truncated to 32 bits. */
  function Frame(crc: Checksum, e: Entry): Data {
    ToLe(Crc(crc, e), 4) + ToLe(|e.data| % TWO32, 4) + [e.kind] + e.data
  }

  function Crc(crc: Checksum, e: Entry): nat {
    crc([e.kind] + e.data) % TWO32
  }

  function Log(crc: Checksum, es: seq<Entry>): Data {
    if es == [] then [] else Frame(crc, es[0]) + Log(crc, es[1..])
  }

  // ----- Reading -----

  datatype Read = End | Torn | Corrupt(expected: nat, actual: nat) | Whole(entry: Entry, size: nat)

  /** One turn of the recovery loop on the bytes from the current offset on. */
  function ReadFrame(crc: Checksum, bs: Data): (r: Read)
    ensures r.Whole? ==> HEADER_SIZE <= r.size <= |bs|
  {
    if bs == [] then End
    else if |bs| < HEADER_SIZE then Torn
    else
      var expected, len := FromLe(bs[0..4]), FromLe(bs[4..8]);
      if |bs| < HEADER_SIZE + len then Torn
      else
        var e := Entry(bs[8], bs[HEADER_SIZE..HEADER_SIZE + len]);
        if Crc(crc, e) != expected then Corrupt(expected, Crc(crc, e)) else Whole(e, HEADER_SIZE + len)
  }

  function Push(acc: seq<Entry>, e: Entry): seq<Entry> {
    if e.kind == ENTRY_CHECKPOINT then [] else acc + [e]
  }

  /** The recovery loop, for a given reading of the next frame */
  function RecoverWith(read: Data -> Read, bs: Data, offset: nat, acc: seq<Entry>): Result<seq<Entry>>
    decreases |bs|
  {
    match read(bs)
    case End => Ok(acc)
    case Torn => Ok(acc)
    case Corrupt(expected, actual) => Err(CrcMismatch(offset, expected, actual))
    case Whole(e, size) =>
      if 0 < size <= |bs| then RecoverWith(read, bs[size..], offset + size, Push(acc, e)) else Ok(acc)
  }

  function Reader(crc: Checksum): Data -> Read { (bs: Data) => ReadFrame(crc, bs) }

  function RecoverFrom(crc: Checksum, bs: Data, offset: nat, acc: seq<Entry>): Result<seq<Entry>> {
    RecoverWith(Reader(crc), bs, offset, acc)
  }

  method NextFrame(crc: Checksum, rest: Data) returns (f: Read)
    ensures f == ReadFrame(crc, rest)
  {
    if |rest| == 0 { return End; }
    if |rest| < HEADER_SIZE { return Torn; }
    var expected, len := FromLe(rest[0..4]), FromLe(rest[4..8]);
    if |rest| < HEADER_SIZE + len { return Torn; }
    var entry := Entry(rest[8], rest[HEADER_SIZE..HEADER_SIZE + len]);
    var actual := Crc(crc, entry);
    if actual != expected { return Corrupt(expected, actual); }
    f := Whole(entry, HEADER_SIZE + len);
  }

  method Recover(crc: Checksum, file: Data) returns (r: Result<seq<Entry>>)
    ensures r == RecoverFrom(crc, file, 0, [])
  {
    r := RecoverLoop(crc, file, Reader(crc));
  }

  method RecoverLoop(crc: Checksum, file: Data, ghost read: Data -> Read) returns (r: Result<seq<Entry>>)
    requires forall bs {:trigger ReadFrame(crc, bs)} :: read(bs) == ReadFrame(crc, bs)
    ensures r == RecoverWith(read, file, 0, [])
  {
    var entries, offset, rest := [], 0, file;
    while true
      invariant offset <= |file| && rest == file[offset..]
      invariant RecoverWith(read, file, 0, []) == RecoverWith(read, rest, offset, entries)
      decreases |rest|
    {
      var f := NextFrame(crc, rest);
      match f {
        case End => return Ok(entries);
        case Torn => return Ok(entries);
        case Corrupt(expected, actual) => return Err(CrcMismatch(offset, expected, actual));
        case Whole(entry, size) =>
          offset, rest := offset + size, rest[size..];
          if entry.kind == ENTRY_CHECKPOINT {
            entries := [];
          } else {
            entries := entries + [entry];
          }
      }
    }
  }

  // ----- Writing -----

  class Wal {
    var bytes: Data      // everything written, buffered part included
    var offset: nat
    const crc: Checksum
    ghost const found: Data
    ghost var entries: seq<Entry>

    /** What was found on opening, torn or not, and behind it the log of what was appended. */
    ghost predicate Valid()
      reads this
    {
      offset == |bytes| && bytes == found + Log(crc, entries)
    }

    /** Any file is opened as it is. */
    constructor (crc: Checksum, file: Data)
      ensures Valid() && this.crc == crc && found == file && entries == [] && bytes == file
    {
      this.crc := crc;
      bytes, found := file, file;
      offset := |file|;
      entries := [];
    }

    /** The returned offset is where the new frame starts. */
    method Append(kind: Byte, data: Data) returns (start: nat)
      requires Valid()
      modifies this
      ensures Valid()
      ensures entries == old(entries) + [Entry(kind, data)]
      ensures start == old(|bytes|) <= |bytes| && bytes[..start] == old(bytes)
      ensures bytes[start..] == Frame(crc, Entry(kind, data))
    {
      start := offset;
      var e := Entry(kind, data);
      var header := ToLe(Crc(crc, e), 4) + ToLe(|data| % TWO32, 4) + [kind];
      bytes := bytes + header + data;
      offset := offset + (HEADER_SIZE + |data|);
      assert header + data == Frame(crc, e);
      LogSnoc(crc, entries, e);
      entries := entries + [e];
      assert bytes == old(bytes) + Frame(crc, e);
    }

    method Checkpoint()
      requires Valid()
      modifies this
      ensures Valid()
      ensures entries == old(entries) + [Entry(ENTRY_CHECKPOINT, [])]
    {
      var _ := Append(ENTRY_CHECKPOINT, []);
    }
  }

  lemma {:induction false} LogSnoc(crc: Checksum, es: seq<Entry>, e: Entry)
    ensures Log(crc, es + [e]) == Log(crc, es) + Frame(crc, e)
  {
    LogConcat(crc, es, [e]);
    assert Log(crc, [e]) == Frame(crc, e) + Log(crc, [][0..]);
  }

  lemma {:induction false} LogConcat(crc: Checksum, es: seq<Entry>, es': seq<Entry>)
    ensures Log(crc, es + es') == Log(crc, es) + Log(crc, es')
  {
    if es == [] {
      assert es + es' == es';
    } else {
      assert (es + es')[1..] == es[1..] + es';
      LogConcat(crc, es[1..], es');
    }
  }

  // ----- Crash safety -----

  ghost predicate Framable(es: seq<Entry>) {
    forall i | 0 <= i < |es| :: |es[i].data| < TWO32
  }

  /** The layout of a frame: checksum of type and data, length, type, data */
  lemma FrameFields(crc: Checksum, e: Entry, rest: Data)
    ensures var bs := Frame(crc, e) + rest;
            && |Frame(crc, e)| == HEADER_SIZE + |e.data|
            && bs[0..4] == ToLe(crc([e.kind] + e.data) % TWO32, 4)
            && bs[4..8] == ToLe(|e.data| % TWO32, 4)
            && bs[8] == e.kind
            && bs[HEADER_SIZE..HEADER_SIZE + |e.data|] == e.data
            && bs[HEADER_SIZE + |e.data|..] == rest
            && FromLe(bs[0..4]) == Crc(crc, e)
            && FromLe(bs[4..8]) == |e.data| % TWO32
  {
    LeFits(Crc(crc, e), 4);
    LeFits(|e.data| % TWO32, 4);
    PowValues();
  }

  /** A frame reads back as itself exactly when its payload length fits 32 bits. */
  lemma FrameRoundTrip(crc: Checksum, e: Entry, rest: Data)
    ensures ReadFrame(crc, Frame(crc, e) + rest) == Whole(e, |Frame(crc, e)|) <==> |e.data| < TWO32
  {
    FrameFields(crc, e, rest);
    if |e.data| >= TWO32 {
      assert |e.data| % TWO32 < |e.data|;
    }
  }

  /** A frame cut short is never read as an entry and never as corruption. */
  lemma CutFrame(crc: Checksum, e: Entry, t: nat)
    requires |e.data| < TWO32 && t < |Frame(crc, e)|
    ensures ReadFrame(crc, Frame(crc, e)[..t]) in {End, Torn}
  {
    FrameFields(crc, e, []);
    var f := Frame(crc, e);
    assert f + [] == f;
    if t >= HEADER_SIZE {
      assert f[..t][0..4] == f[0..4] && f[..t][4..8] == f[4..8];
    }
  }

  /** How many frames lie wholly within the first `t` bytes. */
  function WholeFrames(crc: Checksum, es: seq<Entry>, t: nat): (k: nat)
    ensures k <= |es|
  {
    if es == [] || t < |Frame(crc, es[0])| then 0
    else 1 + WholeFrames(crc, es[1..], t - |Frame(crc, es[0])|)
  }

  lemma {:induction false} WholeFramesIsLargest(crc: Checksum, es: seq<Entry>, t: nat)
    ensures var k := WholeFrames(crc, es, t);
            && |Log(crc, es[..k])| <= t
            && (k < |es| ==> t < |Log(crc, es[..k + 1])|)
  {
    var k := WholeFrames(crc, es, t);
    if k == 0 {
      if es != [] {
        assert es[..1][1..] == [];
        assert Log(crc, es[..1]) == Frame(crc, es[0]) + [];
      }
    } else {
      WholeFramesIsLargest(crc, es[1..], t - |Frame(crc, es[0])|);
      assert es[..k][1..] == es[1..][..k - 1];
      if k < |es| { assert es[..k + 1][1..] == es[1..][..k]; }
    }
  }

  function Replay(acc: seq<Entry>, es: seq<Entry>): seq<Entry>
    decreases es
  {
    if es == [] then acc else Replay(Push(acc, es[0]), es[1..])
  }

  ghost predicate LastCheckpointAt(es: seq<Entry>, c: nat) {
    && c <= |es|
    && (c == 0 || es[c - 1].kind == ENTRY_CHECKPOINT)
    && forall i | c <= i < |es| :: es[i].kind != ENTRY_CHECKPOINT
  }

  /** What the log means: the entries after the last checkpoint. */
  ghost predicate AfterLastCheckpoint(es: seq<Entry>, live: seq<Entry>) {
    exists c: nat :: LastCheckpointAt(es, c) && live == es[c..]
  }

  lemma {:induction false} ReplaySnoc(acc: seq<Entry>, es: seq<Entry>, e: Entry)
    ensures Replay(acc, es + [e]) == Push(Replay(acc, es), e)
    decreases es
  {
    if es == [] {
      assert ([] + [e])[1..] == [];
    } else {
      assert (es + [e])[1..] == es[1..] + [e];
      ReplaySnoc(Push(acc, es[0]), es[1..], e);
    }
  }

  lemma PushMeaning(init: seq<Entry>, live: seq<Entry>, e: Entry)
    requires AfterLastCheckpoint(init, live)
    ensures AfterLastCheckpoint(init + [e], Push(live, e))
  {
    var es := init + [e];
    if e.kind == ENTRY_CHECKPOINT {
      assert LastCheckpointAt(es, |es|) && es[|es|..] == [];
    } else {
      var c: nat :| LastCheckpointAt(init, c) && live == init[c..];
      assert es[c..] == init[c..] + [e];
      assert LastCheckpointAt(es, c);
    }
  }

  lemma {:induction false} ReplayMeaning(es: seq<Entry>)
    ensures AfterLastCheckpoint(es, Replay([], es))
  {
    if es == [] {
      assert LastCheckpointAt(es, 0) && es[0..] == [];
    } else {
      var init, e := es[..|es| - 1], es[|es| - 1];
      ReplayMeaning(init);
      ReplaySnoc([], init, e);
      PushMeaning(init, Replay([], init), e);
      assert es == init + [e];
    }
  }

  lemma RecoverFrame(crc: Checksum, e: Entry, rest: Data, offset: nat, acc: seq<Entry>)
    requires |e.data| < TWO32
    ensures var f := Frame(crc, e);
            RecoverFrom(crc, f + rest, offset, acc) == RecoverFrom(crc, rest, offset + |f|, Push(acc, e))
  {
    FrameRoundTrip(crc, e, rest);
    assert (Frame(crc, e) + rest)[|Frame(crc, e)|..] == rest;
  }

  lemma ReplayPrefix(acc: seq<Entry>, es: seq<Entry>, k: nat)
    requires 0 < k <= |es|
    ensures Replay(acc, es[..k]) == Replay(Push(acc, es[0]), es[1..][..k - 1])
  {
    assert es[..k][1..] == es[1..][..k - 1];
  }

  lemma {:induction false} RecoverTruncated(crc: Checksum, es: seq<Entry>, t: nat, offset: nat, acc: seq<Entry>)
    requires Framable(es) && t <= |Log(crc, es)|
    ensures RecoverFrom(crc, Log(crc, es)[..t], offset, acc) == Ok(Replay(acc, es[..WholeFrames(crc, es, t)]))
  {
    if es == [] {
    } else {
      var f, rest := Frame(crc, es[0]), Log(crc, es[1..]);
      var cut := (f + rest)[..t];
      if t < |f| {
        assert cut == f[..t];
        CutFrame(crc, es[0], t);
      } else {
        assert cut == f + rest[..t - |f|];
        RecoverFrame(crc, es[0], rest[..t - |f|], offset, acc);
        RecoverTruncated(crc, es[1..], t - |f|, offset + |f|, Push(acc, es[0]));
        ReplayPrefix(acc, es, WholeFrames(crc, es, t));
      }
    }
  }

  /** Crash safety: whatever was appended and wherever the file was cut, recovery
      succeeds with exactly the entries after the last checkpoint among whole frames. */
  lemma CrashSafety(crc: Checksum, es: seq<Entry>, t: nat)
    requires Framable(es) && t <= |Log(crc, es)|
    ensures var r := RecoverFrom(crc, Log(crc, es)[..t], 0, []);
            r.Ok? && AfterLastCheckpoint(es[..WholeFrames(crc, es, t)], r.value)
  {
    RecoverTruncated(crc, es, t, 0, []);
    ReplayMeaning(es[..WholeFrames(crc, es, t)]);
  }

  /** Every offset handed out by an append is where that entry's frame reads back,
      however much is appended later. */
  lemma OffsetsLocateFrames(crc: Checksum, es: seq<Entry>, i: nat)
    requires Framable(es) && i < |es|
    ensures |Log(crc, es[..i])| <= |Log(crc, es)|
    ensures ReadFrame(crc, Log(crc, es)[|Log(crc, es[..i])|..]) == Whole(es[i], |Frame(crc, es[i])|)
  {
    assert es == es[..i] + es[i..];
    LogConcat(crc, es[..i], es[i..]);
    assert Log(crc, es[i..]) == Frame(crc, es[i]) + Log(crc, es[i..][1..]);
    FrameRoundTrip(crc, es[i], Log(crc, es[i..][1..]));
    assert Log(crc, es)[|Log(crc, es[..i])|..] == Log(crc, es[i..]);
  }

  // ----- Appending to a log that was cut -----

  lemma {:induction false} RecoverBehind(crc: Checksum, es: seq<Entry>, rest: Data, offset: nat, acc: seq<Entry>)
    requires Framable(es)
    ensures RecoverFrom(crc, Log(crc, es) + rest, offset, acc) == RecoverFrom(crc, rest, offset + |Log(crc, es)|, Replay(acc, es))
  {
    if es == [] {
      assert Log(crc, es) + rest == rest;
    } else {
      var f, tail := Frame(crc, es[0]), Log(crc, es[1..]);
      assert Log(crc, es) + rest == f + (tail + rest);
      RecoverFrame(crc, es[0], tail + rest, offset, acc);
      RecoverBehind(crc, es[1..], rest, offset + |f|, Push(acc, es[0]));
    }
  }

  /** Recovery of the cut log with more appended has everything: the whole frames before the
      cut and all that was appended. */
  ghost predicate RecoversAll(crc: Checksum, es: seq<Entry>, t: nat, more: seq<Entry>)
    requires t <= |Log(crc, es)|
  {
    RecoverFrom(crc, Log(crc, es)[..t] + Log(crc, more), 0, []) == Ok(Replay([], es[..WholeFrames(crc, es, t)] + more))
  }

  lemma CutAtBoundary(crc: Checksum, es: seq<Entry>, t: nat, more: seq<Entry>)
    requires Framable(es) && Framable(more) && t <= |Log(crc, es)| && |Log(crc, es[..WholeFrames(crc, es, t)])| == t
    ensures RecoversAll(crc, es, t, more)
  {
    var k := WholeFrames(crc, es, t);
    LogPrefix(crc, es, k);
    assert Log(crc, es)[..t] == Log(crc, es[..k]);
    RecoverBoth(crc, es[..k], more);
  }

  lemma RecoverBoth(crc: Checksum, es: seq<Entry>, more: seq<Entry>)
    requires Framable(es) && Framable(more)
    ensures RecoverFrom(crc, Log(crc, es) + Log(crc, more), 0, []) == Ok(Replay([], es + more))
  {
    LogConcat(crc, es, more);
    RecoverAll(crc, es + more);
  }

  lemma LogPrefix(crc: Checksum, es: seq<Entry>, k: nat)
    requires k <= |es|
    ensures Log(crc, es[..k]) <= Log(crc, es)
  {
    assert es == es[..k] + es[k..];
    LogConcat(crc, es[..k], es[k..]);
  }

  lemma RecoverAll(crc: Checksum, es: seq<Entry>)
    requires Framable(es)
    ensures RecoverFrom(crc, Log(crc, es), 0, []) == Ok(Replay([], es))
  {
    RecoverBehind(crc, es, [], 0, []);
    assert Log(crc, es) + [] == Log(crc, es);
  }

  /** Recovery that goes on from `acc` does not end in `e`, unless `acc` does. */
  ghost predicate EndsElsewhere(r: Result<seq<Entry>>, acc: seq<Entry>, e: Entry) {
    r.Ok? ==> r.value == acc || r.value == [] || r.value[|r.value| - 1] != e
  }

  /** Fewer bytes than its frame has hold no entry. */
  lemma {:induction false} TooShortFor(crc: Checksum, bs: Data, offset: nat, acc: seq<Entry>, e: Entry)
    requires |bs| < HEADER_SIZE + |e.data|
    ensures EndsElsewhere(RecoverFrom(crc, bs, offset, acc), acc, e)
    decreases |bs|
  {
    var r := ReadFrame(crc, bs);
    if r.Whole? { TooShortFor(crc, bs[r.size..], offset + r.size, Push(acc, r.entry), e); }
  }

  function Zeros(n: nat): Data { seq(n, _ => 0) }

  /** An entry whose length is not that of the torn one, and whose data does not repeat the
      end of its header */
  function Probe(torn: Entry): Entry { Entry(1, Zeros(if |torn.data| == 9 then 10 else 9)) }

  lemma FrameTail(crc: Checksum, e: Entry, m: nat)
    requires |e.data| < TWO32 && m < |Frame(crc, e)|
    ensures var bs := Frame(crc, e)[..m];
            m >= HEADER_SIZE ==> bs[8] == e.kind && FromLe(bs[4..8]) == |e.data|
  {
    FrameFields(crc, e, []);
    assert Frame(crc, e) + [] == Frame(crc, e);
    if m >= HEADER_SIZE { assert Frame(crc, e)[..m][4..8] == Frame(crc, e)[4..8]; }
  }

  /** Behind a torn header, what is read as data is the new frame moved by the torn bytes. */
  lemma MovedFrame(crc: Checksum, tail: Data, e: Entry)
    requires 0 < |tail| < HEADER_SIZE && |tail| <= |e.data| && e.data[|tail| - 1] != e.kind
    ensures var r := ReadFrame(crc, tail + Frame(crc, e)); r.Whole? ==> r.entry != e
  {
    var m, f := |tail|, Frame(crc, e);
    var r := ReadFrame(crc, tail + f);
    FrameFields(crc, e, []);
    assert f + [] == f;
    assert f[8] == e.kind;
    if r.Whole? && |r.entry.data| >= m {
      assert r.entry.data[m - 1] == (tail + f)[HEADER_SIZE + m - 1] == f[HEADER_SIZE - 1];
    }
  }

  /** Behind a torn entry, what is read first is no longer than it. */
  lemma FirstReadIsNotProbe(crc: Checksum, torn: Entry, m: nat)
    requires |torn.data| < TWO32 && 0 < m < |Frame(crc, torn)|
    ensures var r := ReadFrame(crc, Frame(crc, torn)[..m] + Frame(crc, Probe(torn)));
            r.Whole? ==> r.entry != Probe(torn) && r.size > m
  {
    var tail, e := Frame(crc, torn)[..m], Probe(torn);
    if m < HEADER_SIZE {
      MovedFrame(crc, tail, e);
    } else {
      FrameTail(crc, torn, m);
      FrameFields(crc, torn, []);
      assert (tail + Frame(crc, e))[4..8] == tail[4..8];
    }
  }

  lemma LostBehindTear(crc: Checksum, torn: Entry, m: nat, bs: Data, offset: nat, acc: seq<Entry>)
    requires |torn.data| < TWO32 && 0 < m < |Frame(crc, torn)| && bs == Frame(crc, torn)[..m] + Frame(crc, Probe(torn))
    ensures RecoverFrom(crc, bs, offset, acc) != Ok(acc + [Probe(torn)])
  {
    var e := Probe(torn);
    var r := ReadFrame(crc, bs);
    FirstReadIsNotProbe(crc, torn, m);
    if r.Whole? {
      FrameFields(crc, e, []);
      RecoverWhole(crc, bs, offset, acc, r.entry, r.size);
      TooShortFor(crc, bs[r.size..], offset + r.size, Push(acc, r.entry), e);
      NotBehind(RecoverFrom(crc, bs[r.size..], offset + r.size, Push(acc, r.entry)), acc, r.entry, e);
    }
  }

  lemma RecoverWhole(crc: Checksum, bs: Data, offset: nat, acc: seq<Entry>, e: Entry, size: nat)
    requires ReadFrame(crc, bs) == Whole(e, size)
    ensures RecoverFrom(crc, bs, offset, acc) == RecoverFrom(crc, bs[size..], offset + size, Push(acc, e))
  {
  }

  lemma NotBehind(r: Result<seq<Entry>>, acc: seq<Entry>, first: Entry, e: Entry)
    requires EndsElsewhere(r, Push(acc, first), e) && first != e
    ensures r != Ok(acc + [e])
  {
    assert (acc + [e])[|acc|] == e && (acc + [first])[|acc|] == first;
  }

  lemma CutShape(crc: Checksum, es: seq<Entry>, t: nat)
    requires t <= |Log(crc, es)| && |Log(crc, es[..WholeFrames(crc, es, t)])| != t
    ensures var k := WholeFrames(crc, es, t);
            && k < |es| && |Log(crc, es[..k])| < t < |Log(crc, es[..k])| + |Frame(crc, es[k])|
            && Log(crc, es)[..t] == Log(crc, es[..k]) + Frame(crc, es[k])[..t - |Log(crc, es[..k])|]
  {
    var k := WholeFrames(crc, es, t);
    WholeFramesIsLargest(crc, es, t);
    assert es[..|es|] == es;
    LogNext(crc, es, k);
    LogPrefix(crc, es, k + 1);
    CutOfPrefix(Log(crc, es), Log(crc, es[..k]), Frame(crc, es[k]), t);
  }

  lemma LogNext(crc: Checksum, es: seq<Entry>, k: nat)
    requires k < |es|
    ensures Log(crc, es[..k + 1]) == Log(crc, es[..k]) + Frame(crc, es[k])
  {
    assert es[..k + 1] == es[..k] + [es[k]];
    LogSnoc(crc, es[..k], es[k]);
  }

  lemma CutOfPrefix(all: Data, a: Data, b: Data, t: nat)
    requires a + b <= all && |a| <= t <= |a| + |b|
    ensures all[..t] == a + b[..t - |a|]
  {
  }

  lemma LogOne(crc: Checksum, e: Entry)
    ensures Log(crc, [e]) == Frame(crc, e)
  {
    LogSnoc(crc, [], e);
    assert [] + [e] == [e];
  }

  lemma CutInside(crc: Checksum, es: seq<Entry>, t: nat)
    requires Framable(es) && t <= |Log(crc, es)| && |Log(crc, es[..WholeFrames(crc, es, t)])| != t
    ensures WholeFrames(crc, es, t) < |es|
    ensures !RecoversAll(crc, es, t, [Probe(es[WholeFrames(crc, es, t)])])
  {
    CutShape(crc, es, t);
    var k := WholeFrames(crc, es, t);
    var whole, f, e := Log(crc, es[..k]), Frame(crc, es[k]), Probe(es[k]);
    var m := t - |whole|;
    LogOne(crc, e);
    assert Log(crc, es)[..t] + Log(crc, [e]) == whole + (f[..m] + Frame(crc, e));
    BehindWhole(crc, es[..k], f[..m] + Frame(crc, e), es[k], m);
    ReplaySnoc([], es[..k], e);
  }

  lemma BehindWhole(crc: Checksum, es: seq<Entry>, rest: Data, torn: Entry, m: nat)
    requires Framable(es) && |torn.data| < TWO32 && 0 < m < |Frame(crc, torn)|
    requires rest == Frame(crc, torn)[..m] + Frame(crc, Probe(torn))
    ensures RecoverFrom(crc, Log(crc, es) + rest, 0, []) != Ok(Replay([], es) + [Probe(torn)])
  {
    RecoverBehind(crc, es, rest, 0, []);
    LostBehindTear(crc, torn, m, rest, |Log(crc, es)|, Replay([], es));
    assert 0 + |Log(crc, es)| == |Log(crc, es)|;
  }

  /** A log that was cut at `t` and then opened and appended to is recovered with everything,
      whatever is appended, exactly if the cut was between two frames. Opening does not
      remove a torn frame, and the next append runs into it. */
  lemma ReopenExactly(crc: Checksum, es: seq<Entry>, t: nat)
    requires Framable(es) && t <= |Log(crc, es)|
    ensures (forall more | Framable(more) :: RecoversAll(crc, es, t, more))
       <==> |Log(crc, es[..WholeFrames(crc, es, t)])| == t
  {
    if |Log(crc, es[..WholeFrames(crc, es, t)])| == t {
      forall more | Framable(more) ensures RecoversAll(crc, es, t, more) { CutAtBoundary(crc, es, t, more); }
    } else {
      CutInside(crc, es, t);
      assert Framable([Probe(es[WholeFrames(crc, es, t)])]);
    }
  }

  // ----- Every file -----

  lemma Rebuilt(crc: Checksum, bs: Data, len: nat)
    requires |bs| >= HEADER_SIZE + len && len == FromLe(bs[4..8])
    requires FromLe(bs[0..4]) == Crc(crc, Entry(bs[8], bs[HEADER_SIZE..HEADER_SIZE + len]))
    ensures len < TWO32 && Frame(crc, Entry(bs[8], bs[HEADER_SIZE..HEADER_SIZE + len])) == bs[..HEADER_SIZE + len]
  {
    LeInverse(bs[0..4]);
    LeInverse(bs[4..8]);
    LengthFits(bs[4..8]);
    assert bs[..HEADER_SIZE + len] == bs[0..4] + bs[4..8] + [bs[8]] + bs[HEADER_SIZE..HEADER_SIZE + len];
  }

  lemma LengthFits(bs: Data)
    requires |bs| == 4
    ensures FromLe(bs) < TWO32 && FromLe(bs) % TWO32 == FromLe(bs)
  {
    LeBound(bs);
    PowValues();
  }

  /** A whole entry is read exactly where its frame stands, checksum included. */
  lemma ReadFrameExactly(crc: Checksum, bs: Data, e: Entry, size: nat)
    ensures ReadFrame(crc, bs) == Whole(e, size) <==>
            |e.data| < TWO32 && Frame(crc, e) <= bs && size == |Frame(crc, e)|
  {
    if ReadFrame(crc, bs) == Whole(e, size) {
      Rebuilt(crc, bs, FromLe(bs[4..8]));
    }
    if |e.data| < TWO32 && Frame(crc, e) <= bs && size == |Frame(crc, e)| {
      FrameRoundTrip(crc, e, bs[size..]);
      assert bs == Frame(crc, e) + bs[size..];
    }
  }

  /** Too short for a header, or for the data that the header announces */
  ghost predicate TornRest(rest: Data) { |rest| < HEADER_SIZE || |rest| < HEADER_SIZE + FromLe(rest[4..8]) }

  /** The checksum of type and data is not the one in the header. */
  ghost predicate Damaged(crc: Checksum, rest: Data, stored: nat, actual: nat) {
    && !TornRest(rest) && stored == FromLe(rest[0..4])
    && actual == crc([rest[8]] + rest[HEADER_SIZE..HEADER_SIZE + FromLe(rest[4..8])]) % TWO32
    && stored != actual
  }

  lemma {:induction false} RecoverAny(crc: Checksum, file: Data, offset: nat, acc: seq<Entry>) returns (es: seq<Entry>, rest: Data)
    ensures Framable(es) && file == Log(crc, es) + rest
    ensures var r := RecoverFrom(crc, file, offset, acc);
            if TornRest(rest) then r == Ok(Replay(acc, es))
            else exists stored, actual :: Damaged(crc, rest, stored, actual) && r == Err(CrcMismatch(offset + |Log(crc, es)|, stored, actual))
    decreases |file|
  {
    var f := ReadFrame(crc, file);
    if f.Whole? {
      ReadFrameExactly(crc, file, f.entry, f.size);
      RecoverWhole(crc, file, offset, acc, f.entry, f.size);
      var more;
      more, rest := RecoverAny(crc, file[f.size..], offset + f.size, Push(acc, f.entry));
      es := [f.entry] + more;
      LongerLog(crc, file, f.entry, more, rest);
      assert es[1..] == more;
    } else {
      es, rest := [], file;
      if f.Corrupt? { assert Damaged(crc, rest, f.expected, f.actual); }
    }
  }

  lemma LongerLog(crc: Checksum, file: Data, e: Entry, more: seq<Entry>, rest: Data)
    requires Frame(crc, e) <= file && file[|Frame(crc, e)|..] == Log(crc, more) + rest
    ensures Log(crc, [e] + more) == Frame(crc, e) + Log(crc, more) && file == Log(crc, [e] + more) + rest
  {
    assert ([e] + more)[1..] == more;
    assert file == Frame(crc, e) + file[|Frame(crc, e)|..];
  }

  /** Recovery of any file whatever: the file is a log of frames and a rest. If the rest is
      torn, recovery gives the entries after the last checkpoint; if not, its checksum
      disagrees, and recovery gives an error that names its offset. */
  lemma RecoverExactly(crc: Checksum, file: Data) returns (es: seq<Entry>, rest: Data)
    ensures Framable(es) && file == Log(crc, es) + rest
    ensures var r := RecoverFrom(crc, file, 0, []);
            if TornRest(rest) then r.Ok? && AfterLastCheckpoint(es, r.value)
            else exists stored, actual :: Damaged(crc, rest, stored, actual) && r == Err(CrcMismatch(|Log(crc, es)|, stored, actual))
  {
    es, rest := RecoverAny(crc, file, 0, []);
    ReplayMeaning(es);
  }

  /** Recovery succeeds exactly on the logs with a torn rest. */
  lemma RecoversIffTorn(crc: Checksum, file: Data)
    ensures RecoverFrom(crc, file, 0, []).Ok? <==>
            exists es, rest :: Framable(es) && file == Log(crc, es) + rest && TornRest(rest)
  {
    if RecoverFrom(crc, file, 0, []).Ok? {
      var es, rest := RecoverAny(crc, file, 0, []);
    }
    if es, rest :| Framable(es) && file == Log(crc, es) + rest && TornRest(rest) {
      RecoverBehind(crc, es, rest, 0, []);
    }
  }

  /** An entry whose type or data was changed behind intact ones, under a checksum that tells
      the two apart, is an error at its offset. */
  lemma ChangeIsCaught(crc: Checksum, es: seq<Entry>, e: Entry, changed: Entry, after: Data)
    requires Framable(es) && |changed.data| == |e.data| < TWO32
    requires crc([changed.kind] + changed.data) % TWO32 != crc([e.kind] + e.data) % TWO32
    ensures var frame := Frame(crc, e)[..8] + [changed.kind] + changed.data;
            RecoverFrom(crc, Log(crc, es) + (frame + after), 0, [])
            == Err(CrcMismatch(|Log(crc, es)|, crc([e.kind] + e.data) % TWO32, crc([changed.kind] + changed.data) % TWO32))
  {
    var frame := Frame(crc, e)[..8] + [changed.kind] + changed.data;
    RecoverBehind(crc, es, frame + after, 0, []);
    ChangedFrame(crc, e, changed, after);
  }

  lemma ChangedFrame(crc: Checksum, e: Entry, changed: Entry, after: Data)
    requires |changed.data| == |e.data| < TWO32 && Crc(crc, changed) != Crc(crc, e)
    ensures var frame := Frame(crc, e)[..8] + [changed.kind] + changed.data;
            ReadFrame(crc, frame + after) == Corrupt(Crc(crc, e), Crc(crc, changed))
  {
    var f := Frame(crc, e);
    FrameFields(crc, e, []);
    assert f + [] == f;
    var bs := f[..8] + [changed.kind] + changed.data + after;
    assert bs[0..4] == f[0..4] && bs[4..8] == f[4..8] && bs[8] == changed.kind;
    assert bs[HEADER_SIZE..HEADER_SIZE + |e.data|] == changed.data;
  }
}
