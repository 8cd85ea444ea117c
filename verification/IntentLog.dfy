/**
 The intent log of the tester. One routine per operation both executes it live
 and replays its log record: live it draws the object id, the bonus size and the
 generation and stores them in the record; in replay it takes them from there.
 The tester's own block tags hold the transaction groups of the write and of the
 object's creation, which replay cannot repeat; all else comes out the same.
 Offsets, lengths and block sizes of contents are counted in 64-bit words.
 */
module IntentLog {
  import opened Basics

  const BT_MAGIC := 0x0123456789abcdef
  const BT_MAGIC_SWAPPED := 0xefcdab8967452301
  const TAG_WORDS := 8
  const TAG_BYTES := 64
  const MIN_BLOCK := 64

  datatype ObjType = ZapOther | Data

  /** A word of an object's contents; a stamp is a transaction group inside a block tag. */
  datatype Cell = Plain(word: nat) | Stamp(word: nat)

  /** An object: its bonus buffer holds `bonusSize` bytes and ends in a tag with `dnodesize`, `gen`,
      `txg` and `crtxg`. A word not in `data` reads as zero. */
  datatype Obj = Obj(ty: ObjType, blocksize: nat, ibshift: nat, dnodesize: nat, bonusSize: nat,
                     gen: nat, txg: nat, crtxg: nat, data: map<nat, Cell>)

  datatype Fs = Fs(dir: map<string, nat>, objs: map<nat, Obj>)

  /** The record bodies: `foid` 0 asks to allocate, `size` and `mode` 0 to choose. */
  datatype Op =
    | Create(name: string, foid: nat, ty: ObjType, blocksize: nat, ibshift: nat, dnodesize: nat, gen: nat)
    | Remove(name: string)
    | Write(foid: nat, offset: nat, data: seq<nat>)
    | Truncate(foid: nat, offset: nat, length: nat)
    | SetAttr(foid: nat, size: nat, mode: nat)

  /** A record; its transaction group is 0 until it is logged. */
  datatype Rec = Rec(txg: nat, op: Op)

  /** What one call meets: whether the log is being replayed, the transaction group assigned (0 when
      there is no space), the object id an allocation gives, a random number, and whether this
      write happens to check the old tag. */
  datatype Env = Env(replaying: bool, txg: nat, newId: nat, random: nat, check: bool)

  /** `Abort` stands for a failed assertion. */
  datatype Outcome = Done(fs: Fs, op: Op) | NoSpace | Exists | Abort

  function RoundToBlock(n: nat): nat { if n == 0 then MIN_BLOCK else (n + 63) / 64 * 64 }

  /** The bonus space of a dnode, less its core and its one block pointer. */
  function BonusSpace(dnodesize: nat): nat { if dnodesize < 192 then 0 else dnodesize - 192 }

  function Swap64(w: nat): nat {
    (w % 0x100) * 0x1_0000_0000_0000_00 + (w / 0x100 % 0x100) * 0x1_0000_0000_0000 + (w / 0x1_0000 % 0x100) * 0x1_0000_0000_00 +
    (w / 0x1_0000_00 % 0x100) * 0x1_0000_0000 + (w / 0x1_0000_0000 % 0x100) * 0x1_0000_00 + (w / 0x1_0000_0000_00 % 0x100) * 0x1_0000 +
    (w / 0x1_0000_0000_0000 % 0x100) * 0x100 + w / 0x1_0000_0000_0000_00 % 0x100
  }

  predicate IsTag(data: seq<nat>) {
    |data| >= TAG_WORDS && (data[0] == BT_MAGIC || data[0] == BT_MAGIC_SWAPPED)
  }

  function TagWord(data: seq<nat>, i: nat): nat
    requires i < |data| && |data| >= TAG_WORDS
  {
    if data[0] == BT_MAGIC_SWAPPED then Swap64(data[i]) else data[i]
  }

  function Read(data: map<nat, Cell>, w: nat): nat {
    if w in data then data[w].word else 0
  }

  /** The tag found at `w` verifies for object `id` with generation `gen`, at time `txg`. */
  predicate TagVerifies(data: map<nat, Cell>, w: nat, objset: nat, id: nat, gen: nat, txg: nat, crtxg: nat) {
    && Read(data, w + 1) == objset && Read(data, w + 2) == id && Read(data, w + 3) == 0 && Read(data, w + 4) == 8 * w
    && Read(data, w + 5) <= gen && Read(data, w + 6) <= txg && Read(data, w + 7) == crtxg
  }

  /** The tag in a record verifies; it may be newer than the bonus buffer. */
  predicate RecordTagVerifies(data: seq<nat>, offset: nat, objset: nat, id: nat, txg: nat)
    requires |data| >= TAG_WORDS
  {
    && TagWord(data, 1) == objset && TagWord(data, 2) == id && TagWord(data, 3) == 0 && TagWord(data, 4) == 8 * offset
    && TagWord(data, 6) <= txg
  }

  /** What a write puts in place: a leading tag is generated afresh. */
  function Cells(data: seq<nat>, objset: nat, id: nat, offset: nat, gen: nat, txg: nat, crtxg: nat): (c: seq<Cell>)
    ensures |c| == |data|
  {
    if IsTag(data) then
      [Plain(BT_MAGIC), Plain(objset), Plain(id), Plain(0), Plain(8 * offset), Plain(gen), Stamp(txg), Stamp(crtxg)]
      + seq(|data| - TAG_WORDS, i requires 0 <= i < |data| - TAG_WORDS => Plain(data[TAG_WORDS + i]))
    else seq(|data|, i requires 0 <= i < |data| => Plain(data[i]))
  }

  function Words(cells: seq<Cell>): (ws: seq<nat>)
    ensures |ws| == |cells| && forall i :: 0 <= i < |ws| ==> ws[i] == cells[i].word
  {
    seq(|cells|, i requires 0 <= i < |cells| => cells[i].word)
  }

  // ----- The operations

  function CreateStep(fs: Fs, op: Op, env: Env): Outcome
    requires op.Create?
  {
    var id := if env.replaying then op.foid else env.newId;
    if op.name == "" then Abort
    else if env.txg == 0 then NoSpace
    else if env.replaying != (op.foid != 0) then Abort
    else if env.replaying && id in fs.objs then Exists
    else if id == 0 || id in fs.objs || BonusSpace(op.dnodesize) < TAG_BYTES || op.name in fs.dir then Abort
    else
      var o := Obj(op.ty, MIN_BLOCK, 0, op.dnodesize, BonusSpace(op.dnodesize), op.gen, env.txg, env.txg, map[]);
      var o := if op.ty == ZapOther then o else o.(blocksize := RoundToBlock(op.blocksize), ibshift := op.ibshift);
      Done(Fs(fs.dir[op.name := id], fs.objs[id := o]), Create(op.name, id, op.ty, op.blocksize, op.ibshift, op.dnodesize, op.gen))
  }

  function RemoveStep(fs: Fs, op: Op, env: Env): Outcome
    requires op.Remove?
  {
    if op.name == "" || op.name !in fs.dir || fs.dir[op.name] !in fs.objs then Abort
    else if env.txg == 0 then NoSpace
    else Done(Fs(fs.dir - {op.name}, fs.objs - {fs.dir[op.name]}), op)
  }

  function WriteStep(fs: Fs, objset: nat, r: Rec, env: Env): Outcome
    requires r.op.Write?
  {
    var op := r.op;
    if op.foid !in fs.objs || |op.data| < TAG_WORDS then Abort
    else if env.txg == 0 then NoSpace
    else
      var o := fs.objs[op.foid];
      if IsTag(op.data) &&
         (|| o.blocksize == 0 || op.offset % o.blocksize != 0
          || (env.check && Read(o.data, op.offset) == BT_MAGIC && !TagVerifies(o.data, op.offset, objset, op.foid, o.gen, env.txg, o.crtxg))
          || (env.replaying && !RecordTagVerifies(op.data, op.offset, objset, op.foid, Max(env.txg, r.txg)))) then Abort
      else
        var cells := Cells(op.data, objset, op.foid, op.offset, o.gen, env.txg, o.crtxg);
        Done(fs.(objs := fs.objs[op.foid := o.(data := Stored(o.data, op.offset, cells))]), op.(data := Words(cells)))
  }

  function TruncateStep(fs: Fs, op: Op, env: Env): Outcome
    requires op.Truncate?
  {
    if env.txg == 0 then NoSpace
    else if op.foid !in fs.objs then Abort
    else
      var o := fs.objs[op.foid];
      Done(fs.(objs := fs.objs[op.foid := o.(data := Freed(o.data, op.offset, op.length))]), op)
  }

  function SetAttrStep(fs: Fs, r: Rec, env: Env): Outcome
    requires r.op.SetAttr?
  {
    var op := r.op;
    if op.foid !in fs.objs then Abort
    else if env.txg == 0 then NoSpace
    else
      var o := fs.objs[op.foid];
      var space := BonusSpace(o.dnodesize);
      var size := if env.replaying then op.size else (Random(env.random, space / TAG_BYTES) + 1) * TAG_BYTES;
      var mode := if env.replaying then op.mode else o.gen + 1;
      if env.replaying && (op.size == 0 || op.mode == 0 || r.txg == 0) then Abort
      else if !(o.gen <= mode && o.txg <= Max(env.txg, r.txg)) || !(TAG_BYTES <= size <= space) then Abort
      else Done(fs.(objs := fs.objs[op.foid := o.(bonusSize := size, gen := mode, txg := env.txg)]), op.(size := size, mode := mode))
  }

  function Step(fs: Fs, objset: nat, r: Rec, env: Env): Outcome {
    match r.op
    case Create(_, _, _, _, _, _, _) => CreateStep(fs, r.op, env)
    case Remove(_) => RemoveStep(fs, r.op, env)
    case Write(_, _, _) => WriteStep(fs, objset, r, env)
    case Truncate(_, _, _) => TruncateStep(fs, r.op, env)
    case SetAttr(_, _, _) => SetAttrStep(fs, r, env)
  }

  // ----- Equality but for the stamps

  predicate SameData(a: map<nat, Cell>, b: map<nat, Cell>) {
    && a.Keys == b.Keys
    && forall w :: w in a ==> a[w] == b[w] || (a[w].Stamp? && b[w].Stamp?)
  }

  /** Equal but for the stamps of the bonus tag and of the block tags. */
  predicate SameObj(a: Obj, b: Obj) {
    a.(txg := 0, crtxg := 0, data := map[]) == b.(txg := 0, crtxg := 0, data := map[]) && SameData(a.data, b.data)
  }

  predicate Same(f: Fs, g: Fs) {
    && f.dir == g.dir
    && f.objs.Keys == g.objs.Keys
    && forall id :: id in f.objs ==> SameObj(f.objs[id], g.objs[id])
  }

  // ----- The block tags in place

  /** What every object keeps: whole sectors in a block, room for the bonus tag, and that not of the
      future. */
  ghost predicate Sound(o: Obj, txg: nat) {
    o.blocksize > 0 && o.blocksize % MIN_BLOCK == 0 && BonusSpace(o.dnodesize) >= TAG_BYTES && o.txg <= txg
  }

  ghost predicate AllSound(fs: Fs, txg: nat) {
    forall id :: id in fs.objs ==> Sound(fs.objs[id], txg)
  }

  /** Every tag at a block boundary is the object's own and not of the future. */
  ghost predicate TagsVerify(o: Obj, objset: nat, id: nat, txg: nat) {
    && Sound(o, txg)
    && forall w: nat :: w % o.blocksize == 0 && Read(o.data, w) == BT_MAGIC ==> TagVerifies(o.data, w, objset, id, o.gen, txg, o.crtxg)
  }

  ghost predicate Inv(fs: Fs, objset: nat, txg: nat) {
    forall id :: id in fs.objs ==> TagsVerify(fs.objs[id], objset, id, txg)
  }

  /** The tester counts offsets in sectors, and writes whole sectors or a single tag. */
  predicate InSectors(op: Op) {
    match op
    case Write(_, offset, data) => offset % MIN_BLOCK == 0 && (|data| == TAG_WORDS || |data| % MIN_BLOCK == 0)
    case Truncate(_, offset, _) => offset % MIN_BLOCK == 0
    case _ => true
  }

  /** Word `w` of the object is written, begins one of its blocks other than the first written, and
      becomes the magic number of a tag. */
  predicate InnerTag(o: Obj, offset: nat, data: seq<nat>, w: nat) {
    o.blocksize > 0 && offset < w < offset + |data| && w % o.blocksize == 0 && data[w - offset] == BT_MAGIC
  }

  /** The tag that `data` puts at `w` verifies as it stands. */
  predicate WrittenTagVerifies(o: Obj, objset: nat, id: nat, offset: nat, data: seq<nat>, w: nat, txg: nat)
    requires offset <= w
  {
    var i := w - offset;
    && i + TAG_WORDS <= |data| && data[i + 1] == objset && data[i + 2] == id && data[i + 3] == 0 && data[i + 4] == 8 * w
    && data[i + 5] <= o.gen && data[i + 6] <= txg && data[i + 7] == o.crtxg
  }

  /** A write over several blocks brings no tags of its own, or tags as they were read there. */
  ghost predicate InnerTagsVerify(fs: Fs, objset: nat, op: Op, txg: nat) {
    op.Write? && op.foid in fs.objs ==>
      forall w: nat :: InnerTag(fs.objs[op.foid], op.offset, op.data, w) ==>
        WrittenTagVerifies(fs.objs[op.foid], objset, op.foid, op.offset, op.data, w, txg)
  }

  ghost predicate NoInnerTags(fs: Fs, op: Op) {
    op.Write? && op.foid in fs.objs ==> forall w: nat :: !InnerTag(fs.objs[op.foid], op.offset, op.data, w)
  }

  /** The guard of the assertion on where a tag goes. */
  predicate OffBoundary(fs: Fs, op: Op) {
    && op.Write? && op.foid in fs.objs && IsTag(op.data)
    && fs.objs[op.foid].blocksize > 0 && op.offset % fs.objs[op.foid].blocksize != 0
  }

  lemma NextBoundary(a: nat, b: nat, n: nat)
    requires n > 0 && a % n == 0 && b % n == 0 && a < b
    ensures a + n <= b
  {
    NextMultiple(a / n, b / n, n);
  }

  /** Block boundaries are sector boundaries. */
  lemma BoundaryInSectors(w: nat, block: nat)
    requires block > 0 && block % MIN_BLOCK == 0 && w % block == 0
    ensures w % MIN_BLOCK == 0
  {
    var k, m := w / block, block / MIN_BLOCK;
    assert w == k * block && block == m * MIN_BLOCK;
    Regroup(k, m, MIN_BLOCK);
    Quotient(w, MIN_BLOCK, k * m, 0);
  }

  lemma LaterTxg(fs: Fs, objset: nat, t: nat, u: nat)
    requires Inv(fs, objset, t) && t <= u
    ensures Inv(fs, objset, u)
  {
  }

  predicate SameTag(d: map<nat, Cell>, e: map<nat, Cell>, w: nat) {
    && Read(d, w) == Read(e, w) && Read(d, w + 1) == Read(e, w + 1) && Read(d, w + 2) == Read(e, w + 2) && Read(d, w + 3) == Read(e, w + 3)
    && Read(d, w + 4) == Read(e, w + 4) && Read(d, w + 5) == Read(e, w + 5) && Read(d, w + 6) == Read(e, w + 6) && Read(d, w + 7) == Read(e, w + 7)
  }

  lemma StoredRead(data: map<nat, Cell>, offset: nat, cells: seq<Cell>, w: nat)
    ensures Read(Stored(data, offset, cells), w) == if offset <= w < offset + |cells| then cells[w - offset].word else Read(data, w)
  {
  }

  lemma StoredElsewhere(data: map<nat, Cell>, offset: nat, cells: seq<Cell>, w: nat)
    requires w + TAG_WORDS <= offset || offset + |cells| <= w
    ensures SameTag(Stored(data, offset, cells), data, w)
  {
  }

  lemma TagStored(old': map<nat, Cell>, data: seq<nat>, objset: nat, id: nat, offset: nat, gen: nat, txg: nat, crtxg: nat)
    requires |data| >= TAG_WORDS
    ensures var d := Stored(old', offset, Cells(data, objset, id, offset, gen, txg, crtxg));
            Read(d, offset) == BT_MAGIC ==> TagVerifies(d, offset, objset, id, gen, txg, crtxg)
  {
    var cells := Cells(data, objset, id, offset, gen, txg, crtxg);
    StoredRead(old', offset, cells, offset);
    if IsTag(data) {
      assert cells[1].word == objset && cells[2].word == id && cells[3].word == 0 && cells[4].word == 8 * offset;
      assert cells[5].word == gen && cells[6].word == txg && cells[7].word == crtxg;
    }
  }

  /** Behind a leading tag, words are written as they are given. */
  lemma InnerWord(old': map<nat, Cell>, data: seq<nat>, objset: nat, id: nat, offset: nat, gen: nat, txg: nat, crtxg: nat, i: nat)
    requires TAG_WORDS <= i < |data|
    ensures Read(Stored(old', offset, Cells(data, objset, id, offset, gen, txg, crtxg)), offset + i) == data[i]
  {
    var cells := Cells(data, objset, id, offset, gen, txg, crtxg);
    StoredRead(old', offset, cells, offset + i);
    assert cells[i].word == data[i];
  }

  lemma InnerTagStored(o: Obj, objset: nat, id: nat, offset: nat, data: seq<nat>, w: nat, txg: nat)
    requires offset + TAG_WORDS <= w && WrittenTagVerifies(o, objset, id, offset, data, w, txg)
    ensures TagVerifies(Stored(o.data, offset, Cells(data, objset, id, offset, o.gen, txg, o.crtxg)), w, objset, id, o.gen, txg, o.crtxg)
  {
    var d := Stored(o.data, offset, Cells(data, objset, id, offset, o.gen, txg, o.crtxg));
    forall k: nat | TAG_WORDS <= k < |data| ensures Read(d, offset + k) == data[k] {
      InnerWord(o.data, data, objset, id, offset, o.gen, txg, o.crtxg, k);
    }
    var i := w - offset;
    assert Read(d, offset + (i + 1)) == data[i+1] && Read(d, offset + (i + 2)) == data[i+2] && Read(d, offset + (i + 3)) == data[i+3];
    assert Read(d, offset + (i + 4)) == data[i+4] && Read(d, offset + (i + 5)) == data[i+5] && Read(d, offset + (i + 6)) == data[i+6];
    assert Read(d, offset + (i + 7)) == data[i+7];
  }

  /** A write in sectors leaves the tags at all boundaries right: none is cut, its own leading tag is
      generated, and tags further on verify or are not there. */
  lemma WriteKeepsTags(o: Obj, objset: nat, id: nat, op: Op, txg: nat)
    requires TagsVerify(o, objset, id, txg) && op.Write? && InSectors(op) && |op.data| >= TAG_WORDS
    requires IsTag(op.data) ==> op.offset % o.blocksize == 0
    requires forall w: nat :: InnerTag(o, op.offset, op.data, w) ==> WrittenTagVerifies(o, objset, id, op.offset, op.data, w, txg)
    ensures TagsVerify(o.(data := Stored(o.data, op.offset, Cells(op.data, objset, id, op.offset, o.gen, txg, o.crtxg))), objset, id, txg)
  {
    var cells := Cells(op.data, objset, id, op.offset, o.gen, txg, o.crtxg);
    var d := Stored(o.data, op.offset, cells);
    forall w: nat | w % o.blocksize == 0 && Read(d, w) == BT_MAGIC
      ensures TagVerifies(d, w, objset, id, o.gen, txg, o.crtxg)
    {
      BoundaryInSectors(w, o.blocksize);
      WriteKeepsTag(o, objset, id, op, txg, w);
    }
  }

  lemma WriteKeepsTag(o: Obj, objset: nat, id: nat, op: Op, txg: nat, w: nat)
    requires TagsVerify(o, objset, id, txg) && op.Write? && InSectors(op) && |op.data| >= TAG_WORDS
    requires IsTag(op.data) ==> op.offset % o.blocksize == 0
    requires InnerTag(o, op.offset, op.data, w) ==> WrittenTagVerifies(o, objset, id, op.offset, op.data, w, txg)
    requires w % MIN_BLOCK == 0 && w % o.blocksize == 0
    ensures var d := Stored(o.data, op.offset, Cells(op.data, objset, id, op.offset, o.gen, txg, o.crtxg));
            Read(d, w) == BT_MAGIC ==> TagVerifies(d, w, objset, id, o.gen, txg, o.crtxg)
  {
    if w == op.offset {
      TagStored(o.data, op.data, objset, id, op.offset, o.gen, txg, o.crtxg);
    } else if op.offset < w < op.offset + |op.data| {
      TagInside(o, objset, id, op, txg, w);
    } else {
      if w < op.offset {
        NextBoundary(w, op.offset, MIN_BLOCK);
      }
      StoredElsewhere(o.data, op.offset, Cells(op.data, objset, id, op.offset, o.gen, txg, o.crtxg), w);
    }
  }

  lemma TagInside(o: Obj, objset: nat, id: nat, op: Op, txg: nat, w: nat)
    requires op.Write? && InSectors(op) && o.blocksize > 0 && op.offset < w < op.offset + |op.data|
    requires InnerTag(o, op.offset, op.data, w) ==> WrittenTagVerifies(o, objset, id, op.offset, op.data, w, txg)
    requires w % MIN_BLOCK == 0 && w % o.blocksize == 0
    ensures var d := Stored(o.data, op.offset, Cells(op.data, objset, id, op.offset, o.gen, txg, o.crtxg));
            Read(d, w) == BT_MAGIC ==> TagVerifies(d, w, objset, id, o.gen, txg, o.crtxg)
  {
    NextBoundary(op.offset, w, MIN_BLOCK);
    InnerWord(o.data, op.data, objset, id, op.offset, o.gen, txg, o.crtxg, w - op.offset);
    if op.data[w - op.offset] == BT_MAGIC {
      InnerTagStored(o, objset, id, op.offset, op.data, w, txg);
    }
  }

  lemma FreedTag(data: map<nat, Cell>, offset: nat, length: nat, w: nat)
    requires w + TAG_WORDS <= offset || offset <= w
    ensures Read(Freed(data, offset, length), w) == BT_MAGIC ==> SameTag(Freed(data, offset, length), data, w)
  {
  }

  lemma FreeKeepsTags(o: Obj, objset: nat, id: nat, offset: nat, length: nat, txg: nat)
    requires TagsVerify(o, objset, id, txg) && offset % MIN_BLOCK == 0
    ensures TagsVerify(o.(data := Freed(o.data, offset, length)), objset, id, txg)
  {
    var d := Freed(o.data, offset, length);
    forall w: nat | w % o.blocksize == 0 && Read(d, w) == BT_MAGIC
      ensures TagVerifies(d, w, objset, id, o.gen, txg, o.crtxg)
    {
      BoundaryInSectors(w, o.blocksize);
      if w < offset {
        NextBoundary(w, offset, MIN_BLOCK);
      }
      FreedTag(o.data, offset, length, w);
    }
  }

  lemma RoundedToSectors(n: nat)
    ensures RoundToBlock(n) > 0 && RoundToBlock(n) % MIN_BLOCK == 0
  {
  }

  /** Every operation, whatever it is asked to do, keeps all objects sound. */
  lemma SoundStep(fs: Fs, objset: nat, r: Rec, env: Env, t: nat)
    requires AllSound(fs, t) && t <= env.txg && Step(fs, objset, r, env).Done?
    ensures AllSound(Step(fs, objset, r, env).fs, env.txg)
  {
    if r.op.Create? {
      RoundedToSectors(r.op.blocksize);
    }
  }

  /** Every operation in sectors keeps all tags right. */
  lemma InvStep(fs: Fs, objset: nat, r: Rec, env: Env, t: nat)
    requires Inv(fs, objset, t) && t <= env.txg && InSectors(r.op) && InnerTagsVerify(fs, objset, r.op, env.txg)
    requires Step(fs, objset, r, env).Done?
    ensures Inv(Step(fs, objset, r, env).fs, objset, env.txg)
  {
    LaterTxg(fs, objset, t, env.txg);
    match r.op {
      case Write(id, _, _) => WriteKeepsTags(fs.objs[id], objset, id, r.op, env.txg);
      case Truncate(id, offset, length) => FreeKeepsTags(fs.objs[id], objset, id, offset, length, env.txg);
      case Create(_, _, _, blocksize, _, _, _) => RoundedToSectors(blocksize);
      case _ =>
    }
  }

  // ----- One operation and the replay of its record

  predicate SameCells(a: seq<Cell>, b: seq<Cell>) {
    |a| == |b| && forall i :: 0 <= i < |a| ==> a[i] == b[i] || (a[i].Stamp? && b[i].Stamp?)
  }

  /** The words logged, written again under other transaction groups, differ in the stamps alone. */
  lemma CellsAgain(data: seq<nat>, objset: nat, id: nat, offset: nat, gen: nat, txg: nat, crtxg: nat, txg': nat, crtxg': nat)
    requires |data| >= TAG_WORDS
    ensures var cells := Cells(data, objset, id, offset, gen, txg, crtxg);
            && (IsTag(Words(cells)) <==> IsTag(data))
            && (IsTag(data) ==> RecordTagVerifies(Words(cells), offset, objset, id, txg))
            && SameCells(cells, Cells(Words(cells), objset, id, offset, gen, txg', crtxg'))
  {
    var cells := Cells(data, objset, id, offset, gen, txg, crtxg);
    var ws := Words(cells);
    if IsTag(data) {
      assert ws[0] == BT_MAGIC && ws[1] == objset && ws[2] == id && ws[3] == 0 && ws[4] == 8 * offset && ws[6] == txg;
    } else {
      assert ws == data;
    }
  }

  lemma SameStored(a: map<nat, Cell>, b: map<nat, Cell>, offset: nat, c: seq<Cell>, d: seq<Cell>)
    requires SameData(a, b) && SameCells(c, d)
    ensures SameData(Stored(a, offset, c), Stored(b, offset, d))
  {
  }

  lemma SameFreed(a: map<nat, Cell>, b: map<nat, Cell>, offset: nat, length: nat)
    requires SameData(a, b)
    ensures SameData(Freed(a, offset, length), Freed(b, offset, length))
  {
  }

  /** The guard of the assertion on the tag found where a new one goes. */
  predicate MeetsStaleTag(g: Fs, objset: nat, op: Op, env: Env) {
    && op.Write? && op.foid in g.objs && IsTag(op.data) && env.check
    && Read(g.objs[op.foid].data, op.offset) == BT_MAGIC
    && !TagVerifies(g.objs[op.foid].data, op.offset, objset, op.foid, g.objs[op.foid].gen, env.txg, g.objs[op.foid].crtxg)
  }

  /** `op` ran live on `f` in transaction group `live.txg`; `again` replays what it logged on `g`. */
  ghost predicate Replayed(f: Fs, g: Fs, objset: nat, op: Op, live: Env, again: Env) {
    && Same(f, g) && AllSound(g, again.txg)
    && !live.replaying && again.replaying && again.txg > 0
    && Step(f, objset, Rec(0, op), live).Done?
  }

  function Logged(f: Fs, objset: nat, op: Op, live: Env): Rec
    requires Step(f, objset, Rec(0, op), live).Done?
  {
    Rec(live.txg, Step(f, objset, Rec(0, op), live).op)
  }

  /** The record does again what the operation did, unless it meets a tag it finds wrong. */
  ghost predicate DoneAgain(f: Fs, g: Fs, objset: nat, op: Op, live: Env, again: Env)
    requires Step(f, objset, Rec(0, op), live).Done?
  {
    var o := Step(g, objset, Logged(f, objset, op, live), again);
    && (o.Done? <==> !MeetsStaleTag(g, objset, Logged(f, objset, op, live).op, again))
    && (o.Done? ==> Same(Step(f, objset, Rec(0, op), live).fs, o.fs))
  }

  lemma ReplayWrite(f: Fs, g: Fs, objset: nat, op: Op, live: Env, again: Env)
    requires Replayed(f, g, objset, op, live, again) && op.Write?
    ensures DoneAgain(f, g, objset, op, live, again)
  {
    var a, b := f.objs[op.foid], g.objs[op.foid];
    var cells := Cells(op.data, objset, op.foid, op.offset, a.gen, live.txg, a.crtxg);
    CellsAgain(op.data, objset, op.foid, op.offset, a.gen, live.txg, a.crtxg, again.txg, b.crtxg);
    SameStored(a.data, b.data, op.offset, cells, Cells(Words(cells), objset, op.foid, op.offset, b.gen, again.txg, b.crtxg));
  }

  lemma ReplaySetAttr(f: Fs, g: Fs, objset: nat, op: Op, live: Env, again: Env)
    requires Replayed(f, g, objset, op, live, again) && op.SetAttr?
    ensures DoneAgain(f, g, objset, op, live, again)
  {
  }

  /** Replaying the record of any operation on an equal state does what the operation did, and it
      fails exactly where a check of the tag in place is made and finds that wrong. */
  lemma ReplayStep(f: Fs, g: Fs, objset: nat, op: Op, live: Env, again: Env)
    requires Replayed(f, g, objset, op, live, again)
    ensures DoneAgain(f, g, objset, op, live, again)
  {
    match op {
      case Write(_, _, _) => ReplayWrite(f, g, objset, op, live, again);
      case SetAttr(_, _, _) => ReplaySetAttr(f, g, objset, op, live, again);
      case Truncate(id, offset, length) => SameFreed(f.objs[id].data, g.objs[id].data, offset, length);
      case _ =>
    }
  }

  // ----- Whole runs

  /** The state after a live run and what it has logged. */
  datatype Live = Live(fs: Fs, log: seq<Rec>)

  /** Run `ops` live: what fails for want of space changes nothing and logs nothing. No result when
      an assertion fails on the way. */
  function Run(base: Fs, objset: nat, ops: seq<Op>, envs: seq<Env>): Option<Live>
    requires |ops| == |envs|
  {
    if ops == [] then Some(Live(base, []))
    else
      var n := |ops| - 1;
      var prev := Run(base, objset, ops[..n], envs[..n]);
      if prev.None? then None
      else
        match Step(prev.value.fs, objset, Rec(0, ops[n]), envs[n])
        case Done(fs, op) => Some(Live(fs, prev.value.log + [Rec(envs[n].txg, op)]))
        case NoSpace => Some(prev.value)
        case _ => None
  }

  /** Replay a log from the start; no result unless every record succeeds. */
  function Replay(base: Fs, objset: nat, log: seq<Rec>, envs: seq<Env>): Option<Fs>
    requires |log| == |envs|
  {
    if log == [] then Some(base)
    else
      var n := |log| - 1;
      var prev := Replay(base, objset, log[..n], envs[..n]);
      if prev.None? then None
      else
        match Step(prev.value, objset, log[n], envs[n])
        case Done(fs, _) => Some(fs)
        case _ => None
  }

  /** The last transaction group assigned, from `t` on. */
  function Now(t: nat, envs: seq<Env>): nat {
    if envs == [] then t
    else if envs[|envs|-1].txg > 0 then envs[|envs|-1].txg
    else Now(t, envs[..|envs|-1])
  }

  predicate InOrder(t: nat, envs: seq<Env>) {
    envs == [] ||
    var n := |envs| - 1; InOrder(t, envs[..n]) && (envs[n].txg == 0 || Now(t, envs[..n]) <= envs[n].txg)
  }

  /** What the callers see to: live calls name what exists or is missing, as looked up before under
      the directory lock, ask for a dnode that can hold a tag, and write in sectors, with tags
      further on only as read there. */
  ghost predicate CallOk(fs: Fs, objset: nat, op: Op, env: Env) {
    && !env.replaying && InSectors(op) && InnerTagsVerify(fs, objset, op, env.txg)
    && match op
       case Create(name, foid, _, _, _, dnodesize, _) =>
         name != "" && name !in fs.dir && foid == 0 && BonusSpace(dnodesize) >= TAG_BYTES && env.newId != 0 && env.newId !in fs.objs
       case Remove(name) => name != "" && name in fs.dir && fs.dir[name] in fs.objs
       case Write(id, _, data) => id in fs.objs && |data| >= TAG_WORDS
       case Truncate(id, _, _) => id in fs.objs
       case SetAttr(id, _, _) => id in fs.objs
  }

  ghost predicate CallsOk(base: Fs, objset: nat, ops: seq<Op>, envs: seq<Env>)
    requires |ops| == |envs|
  {
    ops == [] ||
    var n := |ops| - 1;
    && CallsOk(base, objset, ops[..n], envs[..n])
    && (Run(base, objset, ops[..n], envs[..n]).Some? ==> CallOk(Run(base, objset, ops[..n], envs[..n]).value.fs, objset, ops[n], envs[n]))
  }

  /** Some call of the run, given space, writes a tag off a boundary of its object's blocks. */
  ghost predicate TagGoesOffBoundary(base: Fs, objset: nat, ops: seq<Op>, envs: seq<Env>)
    requires |ops| == |envs|
  {
    ops != [] &&
    var n := |ops| - 1;
    || TagGoesOffBoundary(base, objset, ops[..n], envs[..n])
    || (var prev := Run(base, objset, ops[..n], envs[..n]); prev.Some? && envs[n].txg > 0 && OffBoundary(prev.value.fs, ops[n]))
  }

  lemma RandomSize(random: nat, space: nat)
    requires space >= TAG_BYTES
    ensures TAG_BYTES <= (Random(random, space / TAG_BYTES) + 1) * TAG_BYTES <= space
  {
    var range := space / TAG_BYTES;
    assert Random(random, range) + 1 <= range;
  }

  /** A live call fails for want of space, or an assertion fails, exactly when it is to write a tag
      off a boundary of its object's blocks, or it succeeds. */
  lemma LiveStep(fs: Fs, objset: nat, op: Op, env: Env, t: nat)
    requires CallOk(fs, objset, op, env) && Inv(fs, objset, t) && (env.txg == 0 || t <= env.txg)
    ensures env.txg == 0 ==> Step(fs, objset, Rec(0, op), env) == NoSpace
    ensures env.txg > 0 ==> (Step(fs, objset, Rec(0, op), env) == Abort <==> OffBoundary(fs, op))
    ensures env.txg > 0 && !OffBoundary(fs, op) ==> Step(fs, objset, Rec(0, op), env).Done?
  {
    if op.SetAttr? {
      RandomSize(env.random, BonusSpace(fs.objs[op.foid].dnodesize));
    } else if op.Write? && env.txg > 0 {
      LaterTxg(fs, objset, t, env.txg);
    }
  }

  /** An assertion fails in a live run exactly when some call writes a tag off a boundary; until
      then all tags in place are right. */
  lemma {:induction false} AssertionFailsIff(base: Fs, objset: nat, ops: seq<Op>, envs: seq<Env>, t: nat)
    requires |ops| == |envs| && Inv(base, objset, t) && InOrder(t, envs) && CallsOk(base, objset, ops, envs)
    ensures Run(base, objset, ops, envs).None? <==> TagGoesOffBoundary(base, objset, ops, envs)
    ensures Run(base, objset, ops, envs).Some? ==> Inv(Run(base, objset, ops, envs).value.fs, objset, Now(t, envs))
  {
    if ops != [] {
      var n := |ops| - 1;
      AssertionFailsIff(base, objset, ops[..n], envs[..n], t);
      var prev := Run(base, objset, ops[..n], envs[..n]);
      if prev.Some? {
        LiveStep(prev.value.fs, objset, ops[n], envs[n], Now(t, envs[..n]));
        if envs[n].txg > 0 && !OffBoundary(prev.value.fs, ops[n]) {
          InvStep(prev.value.fs, objset, Rec(0, ops[n]), envs[n], Now(t, envs[..n]));
        }
      }
    }
  }

  /** Such a call on an object with blocks of 128 words: a tag to go one sector into the block at 16M.
      Of the tests only preallocation, which is compiled out, would make it, on an object that it finds
      with larger blocks than it asked for. */
  lemma TagOffBoundaryAborts(objset: nat, o: Obj, env: Env, tag: seq<nat>)
    requires o.blocksize == 128 && !env.replaying && env.txg > 0
    requires |tag| == TAG_WORDS && tag[0] == BT_MAGIC
    ensures var fs, op := Fs(map["a" := 5], map[5 := o]), Write(5, 0x20_0000 + 64, tag);
            CallOk(fs, objset, op, env) && Step(fs, objset, Rec(0, op), env) == Abort
  {
  }

  // ----- Replay of whole runs

  predicate AllLive(envs: seq<Env>) {
    forall i :: 0 <= i < |envs| ==> !envs[i].replaying
  }

  predicate AllReplaying(envs: seq<Env>) {
    forall i :: 0 <= i < |envs| ==> envs[i].replaying && envs[i].txg > 0
  }

  /** Some record of the log, replayed, checks a tag in place and finds it wrong. */
  predicate StaleTagMet(base: Fs, objset: nat, log: seq<Rec>, envs: seq<Env>)
    requires |log| == |envs|
  {
    log != [] &&
    var n := |log| - 1;
    || StaleTagMet(base, objset, log[..n], envs[..n])
    || (var prev := Replay(base, objset, log[..n], envs[..n]); prev.Some? && MeetsStaleTag(prev.value, objset, log[n].op, envs[n]))
  }

  /** What replaying the log of a live run comes to. */
  ghost predicate ReplaysTo(base: Fs, objset: nat, live: Live, again: seq<Env>, u: nat)
    requires |again| == |live.log|
  {
    var back := Replay(base, objset, live.log, again);
    && (back.None? <==> StaleTagMet(base, objset, live.log, again))
    && (back.Some? ==> Same(live.fs, back.value) && AllSound(back.value, Now(u, again)))
  }

  /** Replay gives what execution gave. Run any calls live from `base`; replay what they logged, in
      order, on `base` again, in any later transaction groups: directory, object ids, generations,
      bonus sizes and contents come out the same, and the only thing that can go wrong is a check of
      a tag in place. */
  lemma {:induction false} ReplayGivesSame(base: Fs, objset: nat, ops: seq<Op>, envs: seq<Env>, again: seq<Env>, u: nat)
    requires |ops| == |envs| && AllLive(envs) && Run(base, objset, ops, envs).Some?
    requires AllSound(base, u) && InOrder(u, again) && AllReplaying(again) && |again| == |Run(base, objset, ops, envs).value.log|
    ensures ReplaysTo(base, objset, Run(base, objset, ops, envs).value, again, u)
  {
    if ops != [] {
      var n := |ops| - 1;
      var prev := Run(base, objset, ops[..n], envs[..n]).value;
      var m := |prev.log|;
      assert m == |again| ==> again[..m] == again;
      ReplayGivesSame(base, objset, ops[..n], envs[..n], again[..m], u);
      if Step(prev.fs, objset, Rec(0, ops[n]), envs[n]).Done? {
        OneMoreRecord(base, objset, prev, ops[n], envs[n], again, u);
      }
    }
  }

  lemma OneMoreRecord(base: Fs, objset: nat, prev: Live, op: Op, live: Env, again: seq<Env>, u: nat)
    requires |again| == |prev.log| + 1 && InOrder(u, again) && AllReplaying(again)
    requires !live.replaying && Step(prev.fs, objset, Rec(0, op), live).Done?
    requires ReplaysTo(base, objset, prev, again[..|prev.log|], u)
    ensures ReplaysTo(base, objset, Live(Step(prev.fs, objset, Rec(0, op), live).fs, prev.log + [Logged(prev.fs, objset, op, live)]), again, u)
  {
    var m := |prev.log|;
    var log := prev.log + [Logged(prev.fs, objset, op, live)];
    assert log[..m] == prev.log;
    var back := Replay(base, objset, prev.log, again[..m]);
    if back.Some? {
      ReplayStep(prev.fs, back.value, objset, op, live, again[m]);
      if !MeetsStaleTag(back.value, objset, log[m].op, again[m]) {
        SoundStep(back.value, objset, log[m], again[m], Now(u, again[..m]));
      }
    }
  }

  // ----- When no check can go wrong

  /** Calls in sectors that bring no tags further on. */
  ghost predicate PlainCalls(base: Fs, objset: nat, ops: seq<Op>, envs: seq<Env>)
    requires |ops| == |envs|
  {
    ops == [] ||
    var n := |ops| - 1;
    && PlainCalls(base, objset, ops[..n], envs[..n])
    && InSectors(ops[n])
    && (Run(base, objset, ops[..n], envs[..n]).Some? ==> NoInnerTags(Run(base, objset, ops[..n], envs[..n]).value.fs, ops[n]))
  }

  lemma InnerTagAgain(f: Fs, g: Fs, objset: nat, op: Op, live: Env, txg: nat)
    requires Same(f, g) && InSectors(op) && NoInnerTags(f, op) && !live.replaying && AllSound(g, txg)
    requires Step(f, objset, Rec(0, op), live).Done?
    ensures InSectors(Logged(f, objset, op, live).op) && InnerTagsVerify(g, objset, Logged(f, objset, op, live).op, txg)
  {
    if op.Write? {
      var a, b := f.objs[op.foid], g.objs[op.foid];
      var cells := Cells(op.data, objset, op.foid, op.offset, a.gen, live.txg, a.crtxg);
      forall w: nat | InnerTag(b, op.offset, Words(cells), w) ensures InnerTag(a, op.offset, op.data, w) {
        BoundaryInSectors(w, b.blocksize);
        NextBoundary(op.offset, w, MIN_BLOCK);
        assert cells[w - op.offset].word == op.data[w - op.offset];
      }
    }
  }

  /** For calls in sectors that bring no tags of their own further on, every record succeeds, no
      assertion fails, and the state comes out the same. */
  lemma {:induction false} PlainReplay(base: Fs, objset: nat, ops: seq<Op>, envs: seq<Env>, again: seq<Env>, u: nat)
    requires |ops| == |envs| && AllLive(envs) && Run(base, objset, ops, envs).Some? && PlainCalls(base, objset, ops, envs)
    requires Inv(base, objset, u) && InOrder(u, again) && AllReplaying(again) && |again| == |Run(base, objset, ops, envs).value.log|
    ensures var live := Run(base, objset, ops, envs).value;
            var back := Replay(base, objset, live.log, again);
            back.Some? && Same(live.fs, back.value) && Inv(back.value, objset, Now(u, again))
  {
    if ops != [] {
      var n := |ops| - 1;
      var prev := Run(base, objset, ops[..n], envs[..n]).value;
      var m := |prev.log|;
      assert m == |again| ==> again[..m] == again;
      PlainReplay(base, objset, ops[..n], envs[..n], again[..m], u);
      if Step(prev.fs, objset, Rec(0, ops[n]), envs[n]).Done? {
        OneMorePlain(base, objset, prev, ops[n], envs[n], again, u);
      }
    }
  }

  lemma OneMorePlain(base: Fs, objset: nat, prev: Live, op: Op, live: Env, again: seq<Env>, u: nat)
    requires |again| == |prev.log| + 1 && InOrder(u, again) && AllReplaying(again)
    requires !live.replaying && InSectors(op) && NoInnerTags(prev.fs, op) && Step(prev.fs, objset, Rec(0, op), live).Done?
    requires var back := Replay(base, objset, prev.log, again[..|prev.log|]);
             back.Some? && Same(prev.fs, back.value) && Inv(back.value, objset, Now(u, again[..|prev.log|]))
    ensures var log := prev.log + [Logged(prev.fs, objset, op, live)];
            var back := Replay(base, objset, log, again);
            && back.Some? && Same(Step(prev.fs, objset, Rec(0, op), live).fs, back.value)
            && Inv(back.value, objset, Now(u, again))
  {
    var m := |prev.log|;
    var log := prev.log + [Logged(prev.fs, objset, op, live)];
    assert log[..m] == prev.log;
    var g := Replay(base, objset, prev.log, again[..m]).value;
    LaterTxg(g, objset, Now(u, again[..m]), again[m].txg);
    ReplayStep(prev.fs, g, objset, op, live, again[m]);
    OwnTagIsRight(prev.fs, g, objset, op, live, again[m]);
    InnerTagAgain(prev.fs, g, objset, op, live, again[m].txg);
    InvStep(g, objset, log[m], again[m], again[m].txg);
  }

  lemma OwnTagIsRight(f: Fs, g: Fs, objset: nat, op: Op, live: Env, again: Env)
    requires Same(f, g) && Inv(g, objset, again.txg) && !live.replaying && Step(f, objset, Rec(0, op), live).Done?
    ensures !MeetsStaleTag(g, objset, Logged(f, objset, op, live).op, again)
  {
    if op.Write? {
      var a := f.objs[op.foid];
      CellsAgain(op.data, objset, op.foid, op.offset, a.gen, live.txg, a.crtxg, live.txg, a.crtxg);
    }
  }

  /** A write at a boundary of its object's blocks, and no longer than a block. */
  predicate AtBlock(fs: Fs, op: Op) {
    op.Write? && op.foid in fs.objs && fs.objs[op.foid].blocksize > 0 ==>
      op.offset % fs.objs[op.foid].blocksize == 0 && |op.data| <= fs.objs[op.foid].blocksize
  }

  /** All writes are such, as those of the tests in the tester's table are: they go to multiples of
      the largest block. */
  predicate AtBlocks(base: Fs, objset: nat, ops: seq<Op>, envs: seq<Env>)
    requires |ops| == |envs|
  {
    ops == [] ||
    var n := |ops| - 1;
    && AtBlocks(base, objset, ops[..n], envs[..n])
    && (Run(base, objset, ops[..n], envs[..n]).Some? ==> AtBlock(Run(base, objset, ops[..n], envs[..n]).value.fs, ops[n]))
  }

  lemma NoInnerTagAtBlock(fs: Fs, op: Op)
    requires AtBlock(fs, op)
    ensures NoInnerTags(fs, op) && !OffBoundary(fs, op)
  {
    if op.Write? && op.foid in fs.objs {
      var o := fs.objs[op.foid];
      forall w: nat ensures !InnerTag(o, op.offset, op.data, w) {
        if InnerTag(o, op.offset, op.data, w) {
          NextBoundary(op.offset, w, o.blocksize);
        }
      }
    }
  }

  lemma {:induction false} AtBlocksPlain(base: Fs, objset: nat, ops: seq<Op>, envs: seq<Env>)
    requires |ops| == |envs| && CallsOk(base, objset, ops, envs) && AtBlocks(base, objset, ops, envs) && Run(base, objset, ops, envs).Some?
    ensures PlainCalls(base, objset, ops, envs)
  {
    if ops != [] {
      var n := |ops| - 1;
      AtBlocksPlain(base, objset, ops[..n], envs[..n]);
      NoInnerTagAtBlock(Run(base, objset, ops[..n], envs[..n]).value.fs, ops[n]);
    }
  }

  lemma {:induction false} AtBlocksRun(base: Fs, objset: nat, ops: seq<Op>, envs: seq<Env>)
    requires |ops| == |envs| && AtBlocks(base, objset, ops, envs)
    ensures !TagGoesOffBoundary(base, objset, ops, envs)
  {
    if ops != [] {
      var n := |ops| - 1;
      AtBlocksRun(base, objset, ops[..n], envs[..n]);
      var prev := Run(base, objset, ops[..n], envs[..n]);
      if prev.Some? {
        NoInnerTagAtBlock(prev.value.fs, ops[n]);
      }
    }
  }

  /** The tests that are enabled: no assertion fails live, none in replay, and replay gives the same. */
  lemma EnabledTestsReplay(base: Fs, objset: nat, ops: seq<Op>, envs: seq<Env>, t: nat, again: seq<Env>, u: nat)
    requires |ops| == |envs| && Inv(base, objset, t) && InOrder(t, envs) && AllLive(envs)
    requires CallsOk(base, objset, ops, envs) && AtBlocks(base, objset, ops, envs)
    requires Inv(base, objset, u) && InOrder(u, again) && AllReplaying(again)
    requires Run(base, objset, ops, envs).Some? ==> |again| == |Run(base, objset, ops, envs).value.log|
    ensures Run(base, objset, ops, envs).Some?
    ensures var live := Run(base, objset, ops, envs).value;
            var back := Replay(base, objset, live.log, again);
            back.Some? && Same(live.fs, back.value)
  {
    AtBlocksRun(base, objset, ops, envs);
    AssertionFailsIff(base, objset, ops, envs, t);
    AtBlocksPlain(base, objset, ops, envs);
    PlainReplay(base, objset, ops, envs, again, u);
  }

  lemma {:induction false} NoChecksNoFailure(base: Fs, objset: nat, log: seq<Rec>, envs: seq<Env>)
    requires |log| == |envs| && forall i :: 0 <= i < |envs| ==> !envs[i].check
    ensures !StaleTagMet(base, objset, log, envs)
  {
    if log != [] {
      NoChecksNoFailure(base, objset, log[..|log|-1], envs[..|log|-1]);
    }
  }

  // ----- Replay after a crash

  /** Whatever prefix of the log reached the disk is all that some prefix of the calls logged, so a
      replay after a crash leads to a state the run really went through. */
  lemma {:induction false} LogPrefixIsRunPrefix(base: Fs, objset: nat, ops: seq<Op>, envs: seq<Env>, k: nat) returns (m: nat)
    requires |ops| == |envs| && Run(base, objset, ops, envs).Some? && k <= |Run(base, objset, ops, envs).value.log|
    ensures m <= |ops| && Run(base, objset, ops[..m], envs[..m]).Some?
    ensures Run(base, objset, ops[..m], envs[..m]).value.log == Run(base, objset, ops, envs).value.log[..k]
  {
    var log := Run(base, objset, ops, envs).value.log;
    if k == |log| {
      m := |ops|;
      assert ops[..m] == ops && envs[..m] == envs && log[..k] == log;
    } else {
      var n := |ops| - 1;
      var prev := Run(base, objset, ops[..n], envs[..n]).value.log;
      m := LogPrefixIsRunPrefix(base, objset, ops[..n], envs[..n], k);
      assert ops[..n][..m] == ops[..m] && envs[..n][..m] == envs[..m];
      assert prev[..k] == log[..k];
    }
  }

  lemma {:induction false} PlainPrefix(base: Fs, objset: nat, ops: seq<Op>, envs: seq<Env>, m: nat)
    requires |ops| == |envs| && m <= |ops| && PlainCalls(base, objset, ops, envs)
    ensures PlainCalls(base, objset, ops[..m], envs[..m])
  {
    if m == |ops| {
      assert ops[..m] == ops && envs[..m] == envs;
    } else {
      var n := |ops| - 1;
      PlainPrefix(base, objset, ops[..n], envs[..n], m);
      assert ops[..n][..m] == ops[..m] && envs[..n][..m] == envs[..m];
    }
  }

  /** The first `k` records are what the first `m` calls logged, and replaying them comes to what
      these calls came to. */
  ghost predicate RecoversTo(base: Fs, objset: nat, ops: seq<Op>, envs: seq<Env>, k: nat, again: seq<Env>, u: nat, m: nat)
    requires |ops| == |envs| && Run(base, objset, ops, envs).Some? && k <= |Run(base, objset, ops, envs).value.log| && |again| == k
  {
    && m <= |ops| && Run(base, objset, ops[..m], envs[..m]).Some?
    && Run(base, objset, ops[..m], envs[..m]).value.log == Run(base, objset, ops, envs).value.log[..k]
    && ReplaysTo(base, objset, Run(base, objset, ops[..m], envs[..m]).value, again, u)
  }

  /** Replay after a crash that left the first `k` records on disk. */
  lemma ReplayAfterCrash(base: Fs, objset: nat, ops: seq<Op>, envs: seq<Env>, k: nat, again: seq<Env>, u: nat)
    requires |ops| == |envs| && AllLive(envs) && Run(base, objset, ops, envs).Some? && k <= |Run(base, objset, ops, envs).value.log|
    requires AllSound(base, u) && InOrder(u, again) && AllReplaying(again) && |again| == k
    ensures exists m: nat :: RecoversTo(base, objset, ops, envs, k, again, u, m)
    ensures Inv(base, objset, u) && PlainCalls(base, objset, ops, envs) ==>
              Replay(base, objset, Run(base, objset, ops, envs).value.log[..k], again).Some?
  {
    var m := LogPrefixIsRunPrefix(base, objset, ops, envs, k);
    ReplayGivesSame(base, objset, ops[..m], envs[..m], again, u);
    assert RecoversTo(base, objset, ops, envs, k, again, u, m);
    if Inv(base, objset, u) && PlainCalls(base, objset, ops, envs) {
      PlainPrefix(base, objset, ops, envs, m);
      PlainReplay(base, objset, ops[..m], envs[..m], again, u);
    }
  }

  // ----- The routines as the tester has them

  datatype Result = Ok | ENoSpc | EExist | Failed

  /** What a routine makes of a data set, said by the outcome of its step; live, it logs the record
      as it stands after the call. */
  ghost predicate Tells(o: Outcome, env: Env, was: Live, now: Live, r: Result) {
    match o
    case Done(fs, op) => r == Ok && now == Live(fs, if env.replaying then was.log else was.log + [Rec(env.txg, op)])
    case NoSpace => r == ENoSpc && now == was
    case Exists => r == EExist && now == was
    case Abort => r == Failed
  }

  lemma ReadBackIsWords(data: map<nat, Cell>, offset: nat, cells: seq<Cell>, copied: seq<nat>)
    requires |copied| == |cells| && forall i :: 0 <= i < |cells| ==> copied[i] == Read(Stored(data, offset, cells), offset + i)
    ensures copied == Words(cells)
  {
    forall i | 0 <= i < |cells| ensures copied[i] == cells[i].word {
      StoredRead(data, offset, cells, offset + i);
    }
  }

  class Dataset {
    const objset: nat
    var dir: map<string, nat>
    var objs: map<nat, Obj>
    var log: seq<Rec>

    constructor (objset: nat, base: Fs)
      ensures this.objset == objset && State() == Live(base, [])
    {
      this.objset, dir, objs, log := objset, base.dir, base.objs, [];
    }

    ghost function State(): Live
      reads this
    {
      Live(Fs(dir, objs), log)
    }

    method LogRecord(op: Op, env: Env)
      modifies this`log
      ensures log == if env.replaying then old(log) else old(log) + [Rec(env.txg, op)]
    {
      if !env.replaying {
        log := log + [Rec(env.txg, op)];
      }
    }

    method ReplayCreate(lr: Rec, env: Env) returns (r: Result)
      requires lr.op.Create?
      modifies this
      ensures Tells(Step(old(State()).fs, objset, lr, env), env, old(State()), State(), r)
    {
      var op := lr.op;
      if op.name == "" { return Failed; }
      if env.txg == 0 { return ENoSpc; }
      if env.replaying != (op.foid != 0) { return Failed; }
      var id := op.foid;
      if id == 0 {
        id := env.newId;
      } else if id in objs {
        return EExist;
      }
      if id == 0 || id in objs { return Failed; }
      var o := Obj(op.ty, MIN_BLOCK, 0, op.dnodesize, BonusSpace(op.dnodesize), 0, 0, 0, map[]);
      if op.ty != ZapOther {
        o := o.(blocksize := RoundToBlock(op.blocksize), ibshift := op.ibshift);
      }
      if o.bonusSize < TAG_BYTES { return Failed; }
      o := o.(gen := op.gen, txg := env.txg, crtxg := env.txg);
      objs := objs[id := o];
      if op.name in dir { return Failed; }
      dir := dir[op.name := id];
      LogRecord(Create(op.name, id, op.ty, op.blocksize, op.ibshift, op.dnodesize, op.gen), env);
      r := Ok;
    }

    method ReplayRemove(lr: Rec, env: Env) returns (r: Result)
      requires lr.op.Remove?
      modifies this
      ensures Tells(Step(old(State()).fs, objset, lr, env), env, old(State()), State(), r)
    {
      var op := lr.op;
      if op.name == "" || op.name !in dir { return Failed; }
      var id := dir[op.name];
      if id !in objs { return Failed; }
      if env.txg == 0 { return ENoSpc; }
      objs := objs - {id};
      dir := dir - {op.name};
      LogRecord(op, env);
      r := Ok;
    }

    method ReplayWrite(lr: Rec, env: Env) returns (r: Result)
      requires lr.op.Write?
      modifies this
      ensures Tells(Step(old(State()).fs, objset, lr, env), env, old(State()), State(), r)
    {
      var op := lr.op;
      if op.foid !in objs || |op.data| < TAG_WORDS { return Failed; }
      var o := objs[op.foid];
      if env.txg == 0 { return ENoSpc; }
      var ok := CheckTags(lr, env);
      if !ok { return Failed; }
      var cells := Cells(op.data, objset, op.foid, op.offset, o.gen, env.txg, o.crtxg);
      var copied := WriteBack(op.foid, op.offset, cells);
      LogRecord(Write(op.foid, op.offset, copied), env);
      r := Ok;
    }

    /** Write to an object and read the words back for the record. */
    method WriteBack(id: nat, offset: nat, cells: seq<Cell>) returns (copied: seq<nat>)
      requires id in objs
      modifies this`objs
      ensures objs == old(objs)[id := old(objs)[id].(data := Stored(old(objs)[id].data, offset, cells))]
      ensures copied == Words(cells)
    {
      objs := objs[id := objs[id].(data := Stored(objs[id].data, offset, cells))];
      copied := ReadBack(id, offset, |cells|);
      ReadBackIsWords(old(objs)[id].data, offset, cells, copied);
    }

    /** The assertions on a write that starts with a tag: sometimes on the old tag, in replay on the
        tag in the record. */
    method CheckTags(lr: Rec, env: Env) returns (ok: bool)
      requires lr.op.Write? && lr.op.foid in objs && |lr.op.data| >= TAG_WORDS && env.txg > 0
      ensures ok <==> WriteStep(Fs(dir, objs), objset, lr, env).Done?
    {
      var op, o := lr.op, objs[lr.op.foid];
      if !IsTag(op.data) { return true; }
      if o.blocksize == 0 || op.offset % o.blocksize != 0 { return false; }
      if env.check {
        if Read(o.data, op.offset) == BT_MAGIC && !TagVerifies(o.data, op.offset, objset, op.foid, o.gen, env.txg, o.crtxg) {
          return false;
        }
      }
      ok := env.replaying ==> RecordTagVerifies(op.data, op.offset, objset, op.foid, Max(env.txg, lr.txg));
    }

    /** Read the words a record copies back from the object just written. */
    method ReadBack(id: nat, offset: nat, length: nat) returns (data: seq<nat>)
      requires id in objs
      ensures |data| == length && forall i :: 0 <= i < length ==> data[i] == Read(objs[id].data, offset + i)
    {
      data := [];
      while |data| < length
        invariant |data| <= length && forall i :: 0 <= i < |data| ==> data[i] == Read(objs[id].data, offset + i)
      {
        data := data + [Read(objs[id].data, offset + |data|)];
      }
    }

    method ReplayTruncate(lr: Rec, env: Env) returns (r: Result)
      requires lr.op.Truncate?
      modifies this
      ensures Tells(Step(old(State()).fs, objset, lr, env), env, old(State()), State(), r)
    {
      var op := lr.op;
      if env.txg == 0 { return ENoSpc; }
      if op.foid !in objs { return Failed; }
      var o := objs[op.foid];
      objs := objs[op.foid := o.(data := Freed(o.data, op.offset, op.length))];
      LogRecord(op, env);
      r := Ok;
    }

    method ReplaySetAttr(lr: Rec, env: Env) returns (r: Result)
      requires lr.op.SetAttr?
      modifies this
      ensures Tells(Step(old(State()).fs, objset, lr, env), env, old(State()), State(), r)
    {
      var op := lr.op;
      if op.foid !in objs { return Failed; }
      if env.txg == 0 { return ENoSpc; }
      var o := objs[op.foid];
      var space := BonusSpace(o.dnodesize);
      var size, mode := op.size, op.mode;
      if env.replaying {
        if size == 0 || mode == 0 || lr.txg == 0 { return Failed; }
      } else {
        size, mode := (Random(env.random, space / TAG_BYTES) + 1) * TAG_BYTES, o.gen + 1;
      }
      if mode < o.gen || Max(env.txg, lr.txg) < o.txg { return Failed; }
      if size < TAG_BYTES || space < size { return Failed; }
      objs := objs[op.foid := o.(bonusSize := size, gen := mode, txg := env.txg)];
      LogRecord(op.(size := size, mode := mode), env);
      r := Ok;
    }

    /** The vector of routines, indexed by the kind of record. */
    method Dispatch(lr: Rec, env: Env) returns (r: Result)
      modifies this
      ensures Tells(Step(old(State()).fs, objset, lr, env), env, old(State()), State(), r)
    {
      match lr.op {
        case Create(_, _, _, _, _, _, _) => r := ReplayCreate(lr, env);
        case Remove(_) => r := ReplayRemove(lr, env);
        case Write(_, _, _) => r := ReplayWrite(lr, env);
        case Truncate(_, _, _) => r := ReplayTruncate(lr, env);
        case SetAttr(_, _, _) => r := ReplaySetAttr(lr, env);
      }
    }

    /** Replay a log record by record; stop at the first that fails. */
    method ReplayLog(records: seq<Rec>, envs: seq<Env>) returns (ok: bool)
      requires |records| == |envs| && forall i :: 0 <= i < |envs| ==> envs[i].replaying
      modifies this
      ensures ok <==> Replay(old(State()).fs, objset, records, envs).Some?
      ensures ok ==> State() == Live(Replay(old(State()).fs, objset, records, envs).value, old(log))
    {
      ghost var base := State().fs;
      var n := 0;
      while n < |records|
        invariant 0 <= n <= |records|
        invariant Replay(base, objset, records[..n], envs[..n]) == Some(State().fs) && log == old(log)
      {
        NextReplayed(base, objset, records, envs, n);
        var r := Dispatch(records[n], envs[n]);
        if r != Ok {
          return false;
        }
        n := n + 1;
      }
      assert records[..n] == records && envs[..n] == envs;
      ok := true;
    }
  }

  lemma {:induction false} ReplayStops(base: Fs, objset: nat, log: seq<Rec>, envs: seq<Env>, n: nat)
    requires |log| == |envs| && n <= |log| && Replay(base, objset, log[..n], envs[..n]).None?
    ensures Replay(base, objset, log, envs).None?
  {
    if n == |log| {
      assert log[..n] == log && envs[..n] == envs;
    } else {
      var m := |log| - 1;
      assert log[..m][..n] == log[..n] && envs[..m][..n] == envs[..n];
      ReplayStops(base, objset, log[..m], envs[..m], n);
    }
  }

  lemma NextReplayed(base: Fs, objset: nat, log: seq<Rec>, envs: seq<Env>, n: nat)
    requires |log| == |envs| && n < |log| && Replay(base, objset, log[..n], envs[..n]).Some?
    ensures var o := Step(Replay(base, objset, log[..n], envs[..n]).value, objset, log[n], envs[n]);
            && Replay(base, objset, log[..n+1], envs[..n+1]) == (if o.Done? then Some(o.fs) else None)
            && (!o.Done? ==> Replay(base, objset, log, envs).None?)
  {
    assert log[..n+1][..n] == log[..n] && envs[..n+1][..n] == envs[..n];
    if Replay(base, objset, log[..n+1], envs[..n+1]).None? {
      ReplayStops(base, objset, log, envs, n + 1);
    }
  }
}
