/**
 The read/write test of the tester: a dense object holds one small record per
 index, and a sparse object holds the same record at the head and at the tail of
 a whole chunk per index. Each transaction checks a range of indices and then
 rewrites it, or zeroes it in the one and frees it in the other. Objects and
 buffers are counted in 64-bit words, of which a record takes three.
 */
module DenseSparse {
  import opened Basics

  const WAD := 3

  datatype Wad = Wad(index: nat, txg: nat, data: nat)

  const ZERO := Wad(0, 0, 0)

  // ----- Objects

  type Object = map<nat, nat>

  /** A word never written, or freed, reads as zero. */
  function Word(obj: Object, w: nat): nat { if w in obj then obj[w] else 0 }

  function ReadRange(obj: Object, off: nat, len: nat): (words: seq<nat>)
    ensures |words| == len && forall i :: 0 <= i < len ==> words[i] == Word(obj, off + i)
  {
    seq<nat>(len, i requires 0 <= i < len => Word(obj, off + i))
  }

  // ----- Agreement of the two

  /** A whole chunk with `b` at both ends and nothing in between. */
  predicate ChunkHolds(chunk: seq<nat>, b: Wad) {
    && |chunk| >= 2 * WAD
    && chunk[0] == b.index && chunk[1] == b.txg && chunk[2] == b.data
    && chunk[|chunk|-3] == b.index && chunk[|chunk|-2] == b.txg && chunk[|chunk|-1] == b.data
    && forall j :: WAD <= j < |chunk| - WAD ==> chunk[j] == 0
  }

  function WadAt(pack: Object, n: nat): Wad {
    Wad(Word(pack, WAD * n), Word(pack, WAD * n + 1), Word(pack, WAD * n + 2))
  }

  /** The record at `n` is that of the chunk at `n`, is not of the future, and is its own. */
  ghost predicate Agree(pack: Object, big: Object, c: nat, n: nat, txg: nat) {
    var b := WadAt(pack, n);
    ChunkHolds(ReadRange(big, n * c, c), b) && b.txg <= txg && (b.data != 0 ==> b.index == n)
  }

  ghost predicate InSync(pack: Object, big: Object, c: nat, txg: nat) {
    forall n: nat :: Agree(pack, big, c, n, txg)
  }

  // ----- Chunks within ranges

  lemma ChunkInside(k: nat, s: nat, c: nat)
    requires k < s
    ensures 0 <= k * c <= k * c + c <= s * c
  {
    NextMultiple(k, s, c);
  }

  lemma ShiftedChunk(n: nat, k: nat, c: nat)
    ensures (n + k) * c == n * c + k * c
  {
  }

  /** A chunk of a range read, read by itself. */
  lemma ChunkRead(obj: Object, n: nat, s: nat, k: nat, c: nat)
    requires k < s
    ensures 0 <= k * c <= k * c + c <= s * c
    ensures ReadRange(obj, n * c, s * c)[k * c..k * c + c] == ReadRange(obj, (n + k) * c, c)
  {
    ChunkInside(k, s, c);
    ShiftedChunk(n, k, c);
  }

  lemma WrittenRange(obj: Object, off: nat, words: seq<nat>, at: nat, len: nat)
    ensures at + len <= off || off + |words| <= at ==> ReadRange(Stored(obj, off, words), at, len) == ReadRange(obj, at, len)
    ensures off <= at && at + len <= off + |words| ==> ReadRange(Stored(obj, off, words), at, len) == words[at - off..at - off + len]
  {
  }

  lemma FreedRange(obj: Object, off: nat, len: nat, at: nat, n: nat)
    ensures at + n <= off || off + len <= at ==> ReadRange(Freed(obj, off, len), at, n) == ReadRange(obj, at, n)
    ensures off <= at && at + n <= off + len ==> ReadRange(Freed(obj, off, len), at, n) == seq(n, i => 0)
  {
  }

  lemma ZeroChunk(c: nat)
    requires c >= 2 * WAD
    ensures ChunkHolds(seq(c, i => 0), ZERO)
  {
  }

  // ----- One transaction

  /** The record that the transaction leaves at `n`. */
  function NewWad(n: nat, txg: nat, freeIt: bool, random: nat): Wad {
    if freeIt then ZERO else Wad(n, txg, 1 + random)
  }

  function NewWads(n: nat, txg: nat, freeIt: bool, random: seq<nat>): (wads: seq<Wad>)
    ensures |wads| == |random| && forall k :: 0 <= k < |wads| ==> wads[k] == NewWad(n + k, txg, freeIt, random[k])
  {
    seq(|random|, k requires 0 <= k < |random| => NewWad(n + k, txg, freeIt, random[k]))
  }

  /** The buffers hold the records `wads`, each at its place. */
  ghost predicate BuffersHold(pack: seq<nat>, big: seq<nat>, c: nat, wads: seq<Wad>) {
    && |pack| == WAD * |wads| && |big| == |wads| * c
    && forall k :: 0 <= k < |wads| ==> PlaceHolds(pack, big, c, k, wads[k])
  }

  ghost predicate PlaceHolds(pack: seq<nat>, big: seq<nat>, c: nat, k: nat, b: Wad) {
    && WAD * k + 2 < |pack| && pack[WAD * k] == b.index && pack[WAD * k + 1] == b.txg && pack[WAD * k + 2] == b.data
    && k * c + c <= |big| && ChunkHolds(big[k * c..k * c + c], b)
  }

  /** What an update of one place leaves of the buffers. */
  ghost predicate OnlyAt(was: seq<nat>, now: seq<nat>, from: nat, to: nat) {
    |was| == |now| && forall w :: 0 <= w < |was| && !(from <= w < to) ==> now[w] == was[w]
  }

  lemma OtherPlace(pack: seq<nat>, big: seq<nat>, pack': seq<nat>, big': seq<nat>, c: nat, i: nat, k: nat, b: Wad)
    requires k != i && PlaceHolds(pack, big, c, k, b)
    requires OnlyAt(pack, pack', WAD * i, WAD * i + WAD) && OnlyAt(big, big', i * c, i * c + c)
    ensures PlaceHolds(pack', big', c, k, b)
  {
    if k < i {
      NextMultiple(k, i, c);
    } else {
      NextMultiple(i, k, c);
    }
    assert big'[k * c..k * c + c] == big[k * c..k * c + c];
  }

  lemma PlaceUpdated(pack: seq<nat>, big: seq<nat>, pack': seq<nat>, big': seq<nat>, c: nat, wads: seq<Wad>, i: nat, b: Wad)
    requires i < |wads| && BuffersHold(pack, big, c, wads)
    requires OnlyAt(pack, pack', WAD * i, WAD * i + WAD) && OnlyAt(big, big', i * c, i * c + c)
    requires PlaceHolds(pack', big', c, i, b)
    ensures BuffersHold(pack', big', c, wads[i := b])
  {
    var more := wads[i := b];
    forall k | 0 <= k < |more| ensures PlaceHolds(pack', big', c, k, more[k]) {
      if k != i {
        OtherPlace(pack, big, pack', big', c, i, k, wads[k]);
      }
    }
  }

  lemma ChunkUpdated(was: seq<nat>, now: seq<nat>, a: Wad, b: Wad)
    requires |was| == |now| && ChunkHolds(was, a) && forall j :: WAD <= j < |was| - WAD ==> now[j] == was[j]
    requires now[0] == b.index && now[1] == b.txg && now[2] == b.data
    requires now[|now|-3] == b.index && now[|now|-2] == b.txg && now[|now|-1] == b.data
    ensures ChunkHolds(now, b)
  {
  }

  /** Assign a record as a whole. */
  method Put(buf: array<nat>, w: nat, b: Wad)
    requires w + WAD <= buf.Length
    modifies buf
    ensures OnlyAt(old(buf[..]), buf[..], w, w + WAD) && buf[w] == b.index && buf[w + 1] == b.txg && buf[w + 2] == b.data
  {
    buf[w], buf[w + 1], buf[w + 2] := b.index, b.txg, b.data;
  }

  /** Overwrite the record at place `i` of both buffers. */
  method Update(packbuf: array<nat>, bigbuf: array<nat>, c: nat, i: nat, b: Wad, ghost wads: seq<Wad>)
    requires c >= 2 * WAD && packbuf != bigbuf && i < |wads| && BuffersHold(packbuf[..], bigbuf[..], c, wads)
    modifies packbuf, bigbuf
    ensures BuffersHold(packbuf[..], bigbuf[..], c, wads[i := b])
  {
    ghost var pack, big := packbuf[..], bigbuf[..];
    ChunkInside(i, |wads|, c);
    var head := i * c;
    assert PlaceHolds(pack, big, c, i, wads[i]);
    var tail := head + c - WAD;
    Put(packbuf, WAD * i, b);
    Put(bigbuf, head, b);
    Put(bigbuf, tail, b);
    ChunkUpdated(big[head..head + c], bigbuf[..][head..head + c], wads[i], b);
    PlaceUpdated(pack, big, packbuf[..], bigbuf[..], c, wads, i, b);
  }

  /** Compare the records of both buffers index by index, and put the new ones in place. `false`
      stands for a mismatch, a record of the future or one of another index. */
  method CompareAndUpdate(packbuf: array<nat>, bigbuf: array<nat>, c: nat, n: nat, txg: nat, freeIt: bool, random: seq<nat>,
                          ghost wads: seq<Wad>) returns (ok: bool)
    requires c >= 2 * WAD && packbuf != bigbuf && |wads| == |random| && BuffersHold(packbuf[..], bigbuf[..], c, wads)
    requires forall k :: 0 <= k < |wads| ==> wads[k].txg <= txg && (wads[k].data != 0 ==> wads[k].index == n + k)
    modifies packbuf, bigbuf
    ensures ok && BuffersHold(packbuf[..], bigbuf[..], c, NewWads(n, txg, freeIt, random))
  {
    ghost var now := wads;
    for i := 0 to |random|
      invariant |now| == |random| && BuffersHold(packbuf[..], bigbuf[..], c, now)
      invariant forall k :: 0 <= k < i ==> now[k] == NewWad(n + k, txg, freeIt, random[k])
      invariant forall k :: i <= k < |now| ==> now[k] == wads[k]
    {
      ChunkInside(i, |random|, c);
      assert PlaceHolds(packbuf[..], bigbuf[..], c, i, now[i]);
      var pack := Wad(packbuf[WAD * i], packbuf[WAD * i + 1], packbuf[WAD * i + 2]);
      var bigH, bigT := WadIn(bigbuf, i * c), WadIn(bigbuf, i * c + c - WAD);
      if pack.txg > txg || (pack.data != 0 && pack.index != n + i) || pack != bigH || pack != bigT {
        return false;
      }
      var new' := NewWad(n + i, txg, freeIt, random[i]);
      Update(packbuf, bigbuf, c, i, new', now);
      now := now[i := new'];
    }
    assert now == NewWads(n, txg, freeIt, random);
    ok := true;
  }

  function WadIn(buf: array<nat>, w: nat): Wad
    requires w + WAD <= buf.Length
    reads buf
  {
    Wad(buf[w], buf[w + 1], buf[w + 2])
  }

  // ----- The objects before and after

  function WadsAt(pack: Object, n: nat, s: nat): (wads: seq<Wad>)
    ensures |wads| == s && forall k :: 0 <= k < s ==> wads[k] == WadAt(pack, n + k)
  {
    seq(s, k requires 0 <= k < s => WadAt(pack, n + k))
  }

  /** What is read from objects in step are the records of the dense one. */
  lemma ReadHolds(pack: Object, big: Object, c: nat, n: nat, s: nat, txg: nat, wads: seq<Wad>)
    requires InSync(pack, big, c, txg) && |wads| == s && forall k :: 0 <= k < s ==> wads[k] == WadAt(pack, n + k)
    ensures BuffersHold(ReadRange(pack, WAD * n, WAD * s), ReadRange(big, n * c, s * c), c, wads)
    ensures forall k :: 0 <= k < s ==> wads[k].txg <= txg && (wads[k].data != 0 ==> wads[k].index == n + k)
  {
    forall k | 0 <= k < s
      ensures PlaceHolds(ReadRange(pack, WAD * n, WAD * s), ReadRange(big, n * c, s * c), c, k, wads[k])
      ensures wads[k].txg <= txg && (wads[k].data != 0 ==> wads[k].index == n + k)
    {
      assert Agree(pack, big, c, n + k, txg);
      ChunkRead(big, n, s, k, c);
    }
  }

  /** The new objects read as the old ones outside the range, and as the new records inside. */
  ghost predicate ReplacedAt(pack: Object, big: Object, pack': Object, big': Object, c: nat, n: nat, wads: seq<Wad>, m: nat) {
    if n <= m < n + |wads| then WadAt(pack', m) == wads[m - n] && ChunkHolds(ReadRange(big', m * c, c), wads[m - n])
    else WadAt(pack', m) == WadAt(pack, m) && ReadRange(big', m * c, c) == ReadRange(big, m * c, c)
  }

  ghost predicate Replaced(pack: Object, big: Object, pack': Object, big': Object, c: nat, n: nat, wads: seq<Wad>) {
    forall m: nat :: ReplacedAt(pack, big, pack', big', c, n, wads, m)
  }

  lemma ReplacedInSync(pack: Object, big: Object, pack': Object, big': Object, c: nat, n: nat, freeIt: bool, random: seq<nat>, t: nat, txg: nat)
    requires InSync(pack, big, c, t) && t <= txg && Replaced(pack, big, pack', big', c, n, NewWads(n, txg, freeIt, random))
    ensures InSync(pack', big', c, txg)
  {
    forall m: nat ensures Agree(pack', big', c, m, txg) {
      assert Agree(pack, big, c, m, t) && ReplacedAt(pack, big, pack', big', c, n, NewWads(n, txg, freeIt, random), m);
      if n <= m < n + |random| {
        assert NewWads(n, txg, freeIt, random)[m - n] == NewWad(m, txg, freeIt, random[m - n]);
      }
    }
  }

  lemma PackReplaced(pack: Object, n: nat, packbuf: seq<nat>, bigbuf: seq<nat>, c: nat, wads: seq<Wad>, m: nat)
    requires BuffersHold(packbuf, bigbuf, c, wads)
    ensures WadAt(Stored(pack, WAD * n, packbuf), m) == if n <= m < n + |wads| then wads[m - n] else WadAt(pack, m)
  {
    if n <= m < n + |wads| {
      assert PlaceHolds(packbuf, bigbuf, c, m - n, wads[m - n]);
    }
  }

  lemma WrittenReplaces(pack: Object, big: Object, c: nat, n: nat, packbuf: seq<nat>, bigbuf: seq<nat>, wads: seq<Wad>, m: nat)
    requires BuffersHold(packbuf, bigbuf, c, wads)
    ensures ReplacedAt(pack, big, Stored(pack, WAD * n, packbuf), Stored(big, n * c, bigbuf), c, n, wads, m)
  {
    PackReplaced(pack, n, packbuf, bigbuf, c, wads, m);
    if n <= m < n + |wads| {
      ChunkWritten(big, c, n, |wads|, bigbuf, m);
      assert PlaceHolds(packbuf, bigbuf, c, m - n, wads[m - n]);
    } else {
      ChunkPosition(n, |wads|, c, m);
      WrittenRange(big, n * c, bigbuf, m * c, c);
    }
  }

  lemma ChunkWritten(big: Object, c: nat, n: nat, s: nat, bigbuf: seq<nat>, m: nat)
    requires |bigbuf| == s * c && n <= m < n + s
    ensures 0 <= (m - n) * c <= (m - n) * c + c <= |bigbuf|
    ensures ReadRange(Stored(big, n * c, bigbuf), m * c, c) == bigbuf[(m - n) * c..(m - n) * c + c]
  {
    ChunkPosition(n, s, c, m);
    WrittenRange(big, n * c, bigbuf, m * c, c);
  }

  /** Where chunk `m` lies relative to the chunks `n` to `n + s`. */
  lemma ChunkPosition(n: nat, s: nat, c: nat, m: nat)
    ensures n <= m < n + s ==> n * c <= m * c && m * c + c <= n * c + s * c && m * c - n * c == (m - n) * c
    ensures m < n ==> m * c + c <= n * c
    ensures n + s <= m ==> n * c + s * c <= m * c
  {
    ShiftedChunk(n, s, c);
    if m < n {
      NextMultiple(m, n, c);
    } else if m < n + s {
      ShiftedChunk(n, m - n, c);
      ChunkInside(m - n, s, c);
    } else {
      ShiftedChunk(n + s, m - n - s, c);
    }
  }

  lemma FreedReplaces(pack: Object, big: Object, c: nat, n: nat, packbuf: seq<nat>, bigbuf: seq<nat>, wads: seq<Wad>, m: nat)
    requires c >= 2 * WAD && BuffersHold(packbuf, bigbuf, c, wads) && forall k :: 0 <= k < |wads| ==> wads[k] == ZERO
    ensures ReplacedAt(pack, big, Stored(pack, WAD * n, packbuf), Freed(big, n * c, |bigbuf|), c, n, wads, m)
  {
    PackReplaced(pack, n, packbuf, bigbuf, c, wads, m);
    ChunkPosition(n, |wads|, c, m);
    FreedRange(big, n * c, |bigbuf|, m * c, c);
    ZeroChunk(c);
  }

  /** A buffer of empty chunks is zero throughout, so it is what a freed range reads as. */
  lemma ZeroBuffer(packbuf: seq<nat>, bigbuf: seq<nat>, c: nat, wads: seq<Wad>)
    requires c >= 2 * WAD && BuffersHold(packbuf, bigbuf, c, wads) && forall k :: 0 <= k < |wads| ==> wads[k] == ZERO
    ensures bigbuf == seq(|bigbuf|, i => 0)
  {
    forall w | 0 <= w < |bigbuf| ensures bigbuf[w] == 0 {
      var k, j := w / c, w % c;
      assert w == k * c + j;
      InChunk(w, |wads|, c);
      assert PlaceHolds(packbuf, bigbuf, c, k, wads[k]);
      assert bigbuf[k * c..k * c + c][j] == bigbuf[w];
    }
  }

  lemma WriteReplaces(pack: Object, big: Object, pack': Object, big': Object, c: nat, n: nat, freeIt: bool, wads: seq<Wad>,
                      packbuf: seq<nat>, bigbuf: seq<nat>)
    requires c >= 2 * WAD && BuffersHold(packbuf, bigbuf, c, wads) && (freeIt ==> forall k :: 0 <= k < |wads| ==> wads[k] == ZERO)
    requires pack' == Stored(pack, WAD * n, packbuf)
    requires big' == if freeIt then Freed(big, n * c, |bigbuf|) else Stored(big, n * c, bigbuf)
    ensures Replaced(pack, big, pack', big', c, n, wads)
  {
    forall m: nat ensures ReplacedAt(pack, big, pack', big', c, n, wads, m) {
      if freeIt {
        FreedReplaces(pack, big, c, n, packbuf, bigbuf, wads, m);
      } else {
        WrittenReplaces(pack, big, c, n, packbuf, bigbuf, wads, m);
      }
    }
  }

  /** Writing out replaces the records, and reading back gives what is in the buffers. */
  lemma AfterWrite(pack: Object, big: Object, pack': Object, big': Object, c: nat, n: nat, freeIt: bool, txg: nat, random: seq<nat>,
                   packbuf: seq<nat>, bigbuf: seq<nat>)
    requires c >= 2 * WAD && BuffersHold(packbuf, bigbuf, c, NewWads(n, txg, freeIt, random))
    requires pack' == Stored(pack, WAD * n, packbuf)
    requires big' == if freeIt then Freed(big, n * c, |bigbuf|) else Stored(big, n * c, bigbuf)
    ensures Replaced(pack, big, pack', big', c, n, NewWads(n, txg, freeIt, random))
    ensures ReadRange(pack', WAD * n, |packbuf|) == packbuf && ReadRange(big', n * c, |bigbuf|) == bigbuf
  {
    var wads, off := NewWads(n, txg, freeIt, random), n * c;
    WriteReplaces(pack, big, pack', big', c, n, freeIt, wads, packbuf, bigbuf);
    WrittenRange(pack, WAD * n, packbuf, WAD * n, |packbuf|);
    if freeIt {
      FreedRange(big, off, |bigbuf|, off, |bigbuf|);
      ZeroBuffer(packbuf, bigbuf, c, wads);
    } else {
      WrittenRange(big, off, bigbuf, off, |bigbuf|);
    }
  }

  lemma InChunk(w: nat, s: nat, c: nat)
    requires c > 0 && w < s * c
    ensures 0 <= w / c < s && w == (w / c) * c + w % c
  {
    var k := w / c;
    assert w == k * c + w % c;
    assert k >= s ==> k * c == s * c + (k - s) * c;
  }

  // ----- The test

  class ReadWriteTest {
    const c: nat
    var pack: Object
    var big: Object

    /** Two objects just created; the chunk size is fixed from then on. */
    constructor (c: nat)
      requires c >= 2 * WAD
      ensures this.c == c && InSync(pack, big, c, 0) && pack == map[]
    {
      this.c, pack, big := c, map[], map[];
      new;
      forall n: nat ensures Agree(pack, big, c, n, 0) {
        ZeroChunk(c);
        assert ReadRange(big, n * c, c) == seq(c, i => 0);
      }
    }

    /** One transaction on the indices from `n` on; a transaction group of 0 is none assigned.
        `ok` is false when any of the checks before, or the comparison after, fails. */
    method ReadWrite(n: nat, freeIt: bool, random: seq<nat>, txg: nat, ghost t: nat) returns (ok: bool)
      requires c >= 2 * WAD && InSync(pack, big, c, t) && (txg == 0 || t <= txg)
      modifies this
      ensures ok && InSync(pack, big, c, if txg == 0 then t else txg)
      ensures txg == 0 ==> pack == old(pack) && big == old(big)
      ensures txg > 0 ==> Replaced(old(pack), old(big), pack, big, c, n, NewWads(n, txg, freeIt, random))
    {
      var s := |random|;
      ghost var wads := WadsAt(pack, n, s);
      var packbuf := ToArray(ReadRange(pack, WAD * n, WAD * s));
      var bigbuf := ToArray(ReadRange(big, n * c, s * c));
      ReadHolds(pack, big, c, n, s, t, wads);
      if txg == 0 {
        return true;
      }
      ok := CompareAndUpdate(packbuf, bigbuf, c, n, txg, freeIt, random, wads);
      ok := WriteOut(n, freeIt, txg, random, packbuf[..], bigbuf[..]);
      ReplacedInSync(old(pack), old(big), pack, big, c, n, freeIt, random, t, txg);
    }

    /** Write both buffers, or free the range of the sparse object, and read back to compare. */
    method WriteOut(n: nat, freeIt: bool, txg: nat, random: seq<nat>, packbuf: seq<nat>, bigbuf: seq<nat>) returns (ok: bool)
      requires c >= 2 * WAD && BuffersHold(packbuf, bigbuf, c, NewWads(n, txg, freeIt, random))
      modifies this
      ensures ok && Replaced(old(pack), old(big), pack, big, c, n, NewWads(n, txg, freeIt, random))
    {
      pack := Stored(pack, WAD * n, packbuf);
      if freeIt {
        big := Freed(big, n * c, |bigbuf|);
      } else {
        big := Stored(big, n * c, bigbuf);
      }
      AfterWrite(old(pack), old(big), pack, big, c, n, freeIt, txg, random, packbuf, bigbuf);
      ok := ReadRange(pack, WAD * n, |packbuf|) == packbuf && ReadRange(big, n * c, |bigbuf|) == bigbuf;
    }
  }

  datatype Tx = Tx(n: nat, freeIt: bool, random: seq<nat>, txg: nat)

  /** Of the transactions that are assigned a group, none gets an earlier one than those before it. */
  predicate GroupsRise(txs: seq<Tx>) {
    forall i, j :: 0 <= i < j < |txs| && txs[j].txg > 0 ==> txs[i].txg <= txs[j].txg
  }

  /** The record that a run leaves at `n`: that of the last transaction to reach it. */
  function Left(txs: seq<Tx>, n: nat): Wad {
    if txs == [] then ZERO
    else
      var tx := txs[|txs|-1];
      if tx.txg > 0 && tx.n <= n < tx.n + |tx.random| then NewWad(n, tx.txg, tx.freeIt, tx.random[n - tx.n])
      else Left(txs[..|txs|-1], n)
  }

  /** Both objects hold at every index what the run left there. */
  ghost predicate Holds(pack: Object, big: Object, c: nat, txs: seq<Tx>) {
    forall n: nat :: HoldsAt(pack, big, c, txs, n)
  }

  ghost predicate HoldsAt(pack: Object, big: Object, c: nat, txs: seq<Tx>, n: nat) {
    WadAt(pack, n) == Left(txs, n) && ChunkHolds(ReadRange(big, n * c, c), Left(txs, n))
  }

  lemma NewHolds(pack: Object, big: Object, c: nat)
    requires InSync(pack, big, c, 0) && pack == map[]
    ensures Holds(pack, big, c, [])
  {
    forall n: nat ensures HoldsAt(pack, big, c, [], n) {
      assert Agree(pack, big, c, n, 0);
    }
  }

  lemma OneMoreTx(pack: Object, big: Object, pack': Object, big': Object, c: nat, txs: seq<Tx>, i: nat)
    requires i < |txs| && Holds(pack, big, c, txs[..i])
    requires if txs[i].txg == 0 then pack' == pack && big' == big
             else Replaced(pack, big, pack', big', c, txs[i].n, NewWads(txs[i].n, txs[i].txg, txs[i].freeIt, txs[i].random))
    ensures Holds(pack', big', c, txs[..i+1])
  {
    var more := txs[..i+1];
    assert more[..i] == txs[..i];
    forall n: nat ensures HoldsAt(pack', big', c, more, n) {
      assert HoldsAt(pack, big, c, txs[..i], n);
      if txs[i].txg > 0 {
        assert ReplacedAt(pack, big, pack', big', c, txs[i].n, NewWads(txs[i].n, txs[i].txg, txs[i].freeIt, txs[i].random), n);
      }
    }
  }

  /** No check fails in any run of transactions whose groups never decrease, and at the end each
      index holds, in all three places, what the last transaction there has written. */
  method RunAll(c: nat, txs: seq<Tx>) returns (ok: bool, test: ReadWriteTest)
    requires c >= 2 * WAD && GroupsRise(txs)
    ensures ok && test.c == c && Holds(test.pack, test.big, c, txs)
  {
    test := new ReadWriteTest(c);
    ok := true;
    NewHolds(test.pack, test.big, c);
    assert txs[..0] == [];
    ghost var last: nat := 0;
    for i := 0 to |txs|
      invariant ok && fresh(test) && test.c == c && InSync(test.pack, test.big, c, last)
      invariant forall j :: i <= j < |txs| ==> txs[j].txg == 0 || last <= txs[j].txg
      invariant Holds(test.pack, test.big, c, txs[..i])
    {
      ghost var pack, big := test.pack, test.big;
      ok := test.ReadWrite(txs[i].n, txs[i].freeIt, txs[i].random, txs[i].txg, last);
      OneMoreTx(pack, big, test.pack, test.big, c, txs, i);
      last := if txs[i].txg == 0 then last else txs[i].txg;
    }
    assert txs[..|txs|] == txs;
  }

  method ToArray(words: seq<nat>) returns (buf: array<nat>)
    ensures buf[..] == words && fresh(buf)
  {
    buf := new nat[|words|](i requires 0 <= i < |words| => words[i]);
  }
}
