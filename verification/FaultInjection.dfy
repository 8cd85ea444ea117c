/**
 The fault injection of the tester. It writes bad words to one leaf device at a
 time, at offsets chosen so that no block of data is hit on two leaves. Each
 device is cut into slots of 64M, dealt out to the leaves in turn, and only the
 lower half of a slot may be damaged. That keeps leaves apart as long as their
 number stays the same; a split of the pool's mirrors lowers it.
 */
module FaultInjection {
  import opened Basics

  const SLOT := 0x400_0000        // twice a clear range: 1 << (SPA_MAXBLOCKSHIFT + 2)
  const HALF := 0x200_0000
  const LABEL := 0x4_0000
  const LABEL_START := 0x40_0000  // two labels and the boot area
  const LABEL_END := 0x8_0000     // two labels
  const WORD := 8
  const TWO64 := 0x1_0000_0000_0000_0000

  /** The offset drawn for a bad word. */
  function Draw(leaves: nat, leaf: nat, fsize: nat, r1: nat, r2: nat): nat
    requires leaves > 0
  {
    var w := Random(r2, HALF);
    Random(r1, fsize / (leaves * SLOT)) * (leaves * SLOT) + leaf * SLOT + (w - w % WORD)
  }

  /** The end of the device is rounded down to whole labels. */
  function PSize(fsize: nat): nat { fsize - fsize % LABEL }

  /** Even leaves keep the labels at the front, odd leaves those at the end. The difference wraps
      around on a device too small for two labels. */
  predicate Skip(leaf: nat, fsize: nat, offset: nat) {
    || (leaf % 2 == 0 && offset < LABEL_START)
    || (leaf % 2 == 1 && offset + WORD > (PSize(fsize) - LABEL_END) % TWO64)
  }

  // ----- Where damage can be

  function SlotOf(offset: nat): nat { offset / SLOT }

  /** The turns a device of this size has; at least one is always drawn. */
  function Turns(leaves: nat, fsize: nat): nat
    requires leaves > 0
  {
    if fsize / (leaves * SLOT) == 0 then 1 else fsize / (leaves * SLOT)
  }

  /** A whole word in the lower half of a slot that is the leaf's turn. */
  ghost predicate OwnPlace(leaves: nat, leaf: nat, fsize: nat, offset: nat)
    requires leaves > 0
  {
    offset % WORD == 0 && offset % SLOT < HALF && exists turn: nat :: turn < Turns(leaves, fsize) && IsTurn(leaves, leaf, turn, SlotOf(offset))
  }

  predicate IsTurn(leaves: nat, leaf: nat, turn: nat, slot: nat) { slot == turn * leaves + leaf }

  lemma SplitOffset(slot: nat, w: nat)
    requires w < SLOT
    ensures SlotOf(slot * SLOT + w) == slot && (slot * SLOT + w) % SLOT == w
  {
  }

  lemma WholeWord(slot: nat, w: nat)
    requires w % WORD == 0
    ensures (slot * SLOT + w) % WORD == 0
  {
    assert slot * SLOT + w == WORD * (slot * (SLOT / WORD) + w / WORD);
  }

  lemma TurnOffset(leaves: nat, leaf: nat, turn: nat)
    ensures turn * (leaves * SLOT) + leaf * SLOT == (turn * leaves + leaf) * SLOT
  {
    assert turn * (leaves * SLOT) == (turn * leaves) * SLOT;
  }

  /** The offsets that can be drawn are exactly the leaf's own places. */
  lemma DrawnIffOwn(leaves: nat, leaf: nat, fsize: nat, offset: nat)
    requires leaves > 0
    ensures OwnPlace(leaves, leaf, fsize, offset) <==> CanDraw(leaves, leaf, fsize, offset)
  {
    if CanDraw(leaves, leaf, fsize, offset) {
      var r1: nat, r2: nat :| Draw(leaves, leaf, fsize, r1, r2) == offset;
      DrawIsOwn(leaves, leaf, fsize, r1, r2);
    }
    if OwnPlace(leaves, leaf, fsize, offset) {
      var turn: nat :| turn < Turns(leaves, fsize) && IsTurn(leaves, leaf, turn, SlotOf(offset));
      OwnIsDrawn(leaves, leaf, fsize, offset, turn);
    }
  }

  lemma Drawn(r: nat, range: nat)
    requires r < range || r == range == 0
    ensures Random(r, range) == r
  {
  }

  lemma OwnIsDrawn(leaves: nat, leaf: nat, fsize: nat, offset: nat, turn: nat)
    requires leaves > 0 && offset % WORD == 0 && offset % SLOT < HALF
    requires turn < Turns(leaves, fsize) && SlotOf(offset) == turn * leaves + leaf
    ensures Draw(leaves, leaf, fsize, turn, offset % SLOT) == offset
  {
    var n, w := fsize / (leaves * SLOT), offset % SLOT;
    Drawn(turn, n);
    Drawn(w, HALF);
    WordInSlot(offset);
    calc {
      Draw(leaves, leaf, fsize, turn, w);
      turn * (leaves * SLOT) + leaf * SLOT + w;
      { TurnOffset(leaves, leaf, turn); }
      SlotOf(offset) * SLOT + w;
      offset;
    }
  }

  lemma WordInSlot(offset: nat)
    requires offset % WORD == 0
    ensures offset % SLOT % WORD == 0
  {
    assert offset == (offset / SLOT) * SLOT + offset % SLOT;
    assert SLOT == WORD * (SLOT / WORD);
  }

  ghost predicate CanDraw(leaves: nat, leaf: nat, fsize: nat, offset: nat)
    requires leaves > 0
  {
    exists r1: nat, r2: nat :: Draw(leaves, leaf, fsize, r1, r2) == offset
  }

  lemma DrawIsOwn(leaves: nat, leaf: nat, fsize: nat, r1: nat, r2: nat)
    requires leaves > 0
    ensures OwnPlace(leaves, leaf, fsize, Draw(leaves, leaf, fsize, r1, r2))
  {
    var turn := Random(r1, fsize / (leaves * SLOT));
    var w := Random(r2, HALF);
    var whole := w - w % WORD;
    TurnOffset(leaves, leaf, turn);
    SplitOffset(turn * leaves + leaf, whole);
    WholeWord(turn * leaves + leaf, whole);
    assert IsTurn(leaves, leaf, turn, SlotOf(Draw(leaves, leaf, fsize, r1, r2)));
  }

  /** The offset that a draw damages, if any. */
  function HitBy(leaves: nat, leaf: nat, fsize: nat, r: (nat, nat)): set<nat>
    requires leaves > 0
  {
    var offset := Draw(leaves, leaf, fsize, r.0, r.1);
    if Skip(leaf, fsize, offset) then {} else {offset}
  }

  function Hits(leaves: nat, leaf: nat, fsize: nat, random: seq<(nat, nat)>): set<nat>
    requires leaves > 0
  {
    if random == [] then {}
    else Hits(leaves, leaf, fsize, random[..|random|-1]) + HitBy(leaves, leaf, fsize, random[|random|-1])
  }

  /** Some run of the loop damages this offset. */
  ghost predicate CanHit(leaves: nat, leaf: nat, fsize: nat, offset: nat)
    requires leaves > 0
  {
    exists random: seq<(nat, nat)> :: |random| == 999 && offset in Hits(leaves, leaf, fsize, random)
  }

  lemma {:induction false} HitIsOpen(leaves: nat, leaf: nat, fsize: nat, random: seq<(nat, nat)>, offset: nat)
    requires leaves > 0 && offset in Hits(leaves, leaf, fsize, random)
    ensures OwnPlace(leaves, leaf, fsize, offset) && !Skip(leaf, fsize, offset)
  {
    var r := random[|random|-1];
    if offset in HitBy(leaves, leaf, fsize, r) {
      DrawIsOwn(leaves, leaf, fsize, r.0, r.1);
    } else {
      HitIsOpen(leaves, leaf, fsize, random[..|random|-1], offset);
    }
  }

  /** What can be damaged are exactly the leaf's own places, less those in the labels it keeps. */
  lemma HitIff(leaves: nat, leaf: nat, fsize: nat, offset: nat)
    requires leaves > 0
    ensures CanHit(leaves, leaf, fsize, offset) <==> OwnPlace(leaves, leaf, fsize, offset) && !Skip(leaf, fsize, offset)
  {
    if CanHit(leaves, leaf, fsize, offset) {
      var random: seq<(nat, nat)> :| |random| == 999 && offset in Hits(leaves, leaf, fsize, random);
      HitIsOpen(leaves, leaf, fsize, random, offset);
    }
    if OwnPlace(leaves, leaf, fsize, offset) && !Skip(leaf, fsize, offset) {
      DrawnIffOwn(leaves, leaf, fsize, offset);
      var r1: nat, r2: nat :| Draw(leaves, leaf, fsize, r1, r2) == offset;
      LastHit(leaves, leaf, fsize, (r1, r2), 999);
    }
  }

  lemma LastHit(leaves: nat, leaf: nat, fsize: nat, r: (nat, nat), n: nat)
    requires leaves > 0 && n > 0
    ensures exists random: seq<(nat, nat)> :: |random| == n && HitBy(leaves, leaf, fsize, r) <= Hits(leaves, leaf, fsize, random)
  {
    var random := seq(n, i => r);
    assert random[|random|-1] == r;
    assert HitBy(leaves, leaf, fsize, r) <= Hits(leaves, leaf, fsize, random);
  }

  // ----- No block is hit twice

  /** The bytes from `x` on, `len` of them, take in a byte of the bad word at `offset`. */
  predicate Touches(x: nat, len: nat, offset: nat) { x < offset + WORD && offset < x + len }

  lemma SlotsApart(o1: nat, o2: nat, x: nat, len: nat)
    requires o1 % WORD == 0 && o1 % SLOT < HALF && SlotOf(o1) < SlotOf(o2) && len <= HALF
    ensures !(Touches(x, len, o1) && Touches(x, len, o2))
  {
    WordInSlot(o1);
    assert o1 % SLOT + WORD <= HALF;
  }

  lemma {:induction false} Residue(leaves: nat, leaf: nat, turn: nat)
    requires leaves > 0
    ensures (turn * leaves + leaf) % leaves == leaf % leaves
  {
    if turn > 0 {
      Residue(leaves, leaf, turn - 1);
      assert turn * leaves + leaf == (turn - 1) * leaves + leaf + leaves;
      var before := (turn - 1) * leaves + leaf;
      Quotient(before + leaves, leaves, before / leaves + 1, before % leaves);
    }
  }

  /** The slot has a place that the leaf may damage: for an odd leaf, one that ends before the labels
      at the end of the device. */
  predicate Open(leaf: nat, fsize: nat, slot: nat) {
    leaf % 2 == 0 || slot * SLOT + WORD <= (PSize(fsize) - LABEL_END) % TWO64
  }

  /** Some slot is the turn of one leaf under one count of leaves and of another leaf under another,
      and is open to both. */
  ghost predicate ShareSlot(n1: nat, l1: nat, fsize1: nat, n2: nat, l2: nat, fsize2: nat)
    requires n1 > 0 && n2 > 0
  {
    exists turn1: nat, turn2: nat ::
      && turn1 < Turns(n1, fsize1) && turn2 < Turns(n2, fsize2) && IsTurn(n1, l1, turn1, SlotOfTurn(n2, l2, turn2))
      && Open(l1, fsize1, SlotOfTurn(n2, l2, turn2)) && Open(l2, fsize2, SlotOfTurn(n2, l2, turn2))
  }

  function SlotOfTurn(leaves: nat, leaf: nat, turn: nat): nat { turn * leaves + leaf }

  /** Some run of bytes, no longer than a clear range, takes in damage that can be done to each. */
  ghost predicate CanMeet(n1: nat, l1: nat, fsize1: nat, n2: nat, l2: nat, fsize2: nat)
    requires n1 > 0 && n2 > 0
  {
    exists o1: nat, o2: nat, x: nat ::
      CanHit(n1, l1, fsize1, o1) && CanHit(n2, l2, fsize2, o2) && Touches(x, HALF, o1) && Touches(x, HALF, o2)
  }

  lemma OpenAt(leaf: nat, fsize: nat, offset: nat)
    requires !Skip(leaf, fsize, offset)
    ensures Open(leaf, fsize, SlotOf(offset))
  {
    assert SlotOf(offset) * SLOT <= offset;
  }

  lemma MeetInSlot(n1: nat, l1: nat, fsize1: nat, n2: nat, l2: nat, fsize2: nat, o1: nat, o2: nat, x: nat, len: nat)
    requires n1 > 0 && OwnPlace(n1, l1, fsize1, o1) && !Skip(l1, fsize1, o1)
    requires n2 > 0 && OwnPlace(n2, l2, fsize2, o2) && !Skip(l2, fsize2, o2)
    requires len <= HALF && Touches(x, len, o1) && Touches(x, len, o2)
    ensures SlotOf(o1) == SlotOf(o2) && ShareSlot(n1, l1, fsize1, n2, l2, fsize2)
  {
    var turn1: nat :| turn1 < Turns(n1, fsize1) && IsTurn(n1, l1, turn1, SlotOf(o1));
    var turn2: nat :| turn2 < Turns(n2, fsize2) && IsTurn(n2, l2, turn2, SlotOf(o2));
    if SlotOf(o1) < SlotOf(o2) {
      SlotsApart(o1, o2, x, len);
    } else if SlotOf(o2) < SlotOf(o1) {
      SlotsApart(o2, o1, x, len);
    }
    OpenAt(l1, fsize1, o1);
    OpenAt(l2, fsize2, o2);
    assert IsTurn(n1, l1, turn1, SlotOfTurn(n2, l2, turn2));
  }

  /** The lowest place of a slot that is not in the labels at the front. */
  function LowestPlace(slot: nat): nat { if slot == 0 then LABEL_START else slot * SLOT }

  lemma LowestIsHit(leaves: nat, leaf: nat, fsize: nat, turn: nat, slot: nat)
    requires leaves > 0 && turn < Turns(leaves, fsize) && IsTurn(leaves, leaf, turn, slot) && Open(leaf, fsize, slot)
    ensures CanHit(leaves, leaf, fsize, LowestPlace(slot))
  {
    var w := if slot == 0 then LABEL_START else 0;
    SplitOffset(slot, w);
    WholeWord(slot, w);
    assert turn * leaves >= 0;
    assert LowestPlace(slot) == slot * SLOT + w;
    assert IsTurn(leaves, leaf, turn, SlotOf(LowestPlace(slot)));
    HitIff(leaves, leaf, fsize, LowestPlace(slot));
  }

  /** Damage of two leaves, done under any two counts, can come within one block of each other exactly
      when the leaves have in common a slot that is open to both. */
  lemma MeetIff(n1: nat, l1: nat, fsize1: nat, n2: nat, l2: nat, fsize2: nat)
    requires n1 > 0 && n2 > 0
    ensures CanMeet(n1, l1, fsize1, n2, l2, fsize2) <==> ShareSlot(n1, l1, fsize1, n2, l2, fsize2)
  {
    if CanMeet(n1, l1, fsize1, n2, l2, fsize2) {
      var o1: nat, o2: nat, x: nat :| CanHit(n1, l1, fsize1, o1) && CanHit(n2, l2, fsize2, o2) && Touches(x, HALF, o1) && Touches(x, HALF, o2);
      HitIff(n1, l1, fsize1, o1);
      HitIff(n2, l2, fsize2, o2);
      MeetInSlot(n1, l1, fsize1, n2, l2, fsize2, o1, o2, x, HALF);
    }
    if ShareSlot(n1, l1, fsize1, n2, l2, fsize2) {
      var turn1: nat, turn2: nat :|
        && turn1 < Turns(n1, fsize1) && turn2 < Turns(n2, fsize2) && IsTurn(n1, l1, turn1, SlotOfTurn(n2, l2, turn2))
        && Open(l1, fsize1, SlotOfTurn(n2, l2, turn2)) && Open(l2, fsize2, SlotOfTurn(n2, l2, turn2));
      var slot := SlotOfTurn(n2, l2, turn2);
      LowestIsHit(n1, l1, fsize1, turn1, slot);
      LowestIsHit(n2, l2, fsize2, turn2, slot);
      assert Touches(LowestPlace(slot), HALF, LowestPlace(slot));
    }
  }

  /** Under one count, leaves with different remainders have no slot in common, however large the
      devices are. */
  lemma OneCountApart(leaves: nat, l1: nat, fsize1: nat, l2: nat, fsize2: nat)
    requires leaves > 0 && l1 % leaves != l2 % leaves
    ensures !ShareSlot(leaves, l1, fsize1, leaves, l2, fsize2)
  {
    forall turn1: nat, turn2: nat ensures !IsTurn(leaves, l1, turn1, SlotOfTurn(leaves, l2, turn2)) {
      Residue(leaves, l1, turn1);
      Residue(leaves, l2, turn2);
    }
  }

  lemma SameRemainder(n: nat, a: nat, b: nat)
    requires n > 0 && a % n == b % n
    ensures a == b || a + n <= b || b + n <= a
  {
    var d := a / n - b / n;
    assert a - b == n * d;
    assert d >= 1 ==> n * d >= n;
    assert d <= -1 ==> n * d + n <= 0;
  }

  /** A split takes one leaf off each mirror and lowers the count of leaves by one, which deals the
      slots out anew. In a mirror of three with devices of 512M, device 1 can be hit before a split
      and device 2, its mirror, after it, at one and the same offset. */
  lemma SplitLetsDamageMeet()
    ensures HitBy(3, 1, 0x2000_0000, (1, 0)) == {0x1000_0000}
    ensures HitBy(2, 2, 0x2000_0000, (1, 0)) == {0x1000_0000}
  {
  }

  // ----- The injection loop

  /** No bad word reaches into the labels at the front, or on an odd leaf into those at the end. */
  ghost predicate LabelsKept(leaf: nat, fsize: nat, offset: nat) {
    && LABEL_START <= offset
    && (leaf % 2 == 1 && LABEL_END <= PSize(fsize) < TWO64 ==> offset + WORD <= PSize(fsize) - LABEL_END)
  }

  /** The front labels are in slot 0, which is the turn of leaf 0 alone, and leaf 0 is even. */
  lemma FrontIsNeverHit(leaves: nat, leaf: nat, fsize: nat, offset: nat)
    requires leaves > 0 && OwnPlace(leaves, leaf, fsize, offset) && !Skip(leaf, fsize, offset)
    ensures LabelsKept(leaf, fsize, offset)
  {
    var turn: nat :| turn < Turns(leaves, fsize) && IsTurn(leaves, leaf, turn, SlotOf(offset));
    assert offset < LABEL_START ==> SlotOf(offset) == 0;
    assert turn * leaves >= 0;
  }

  /** A bad word, with the splits there had been and the top-level vdev that was drawn. */
  datatype Hit = Hit(splits: nat, top: nat, offset: nat)

  /** Leaves and splits always add up to `total`. */
  predicate Draws(total: nat, splits: nat, top: nat, number: nat) {
    splits < total && top * (total - splits) + splits <= number < top * (total - splits) + total
  }

  /** The leaf number that a draw gives to a device. */
  function LeafOf(total: nat, splits: nat, top: nat, number: nat): nat
    requires Draws(total, splits, top, number)
  {
    number - top * (total - splits)
  }

  ghost predicate HitIsOwn(total: nat, number: nat, fsize: nat, h: Hit) {
    && Draws(total, h.splits, h.top, number)
    && OwnPlace(total - h.splits, LeafOf(total, h.splits, h.top, number), fsize, h.offset)
    && !Skip(LeafOf(total, h.splits, h.top, number), fsize, h.offset)
    && LabelsKept(LeafOf(total, h.splits, h.top, number), fsize, h.offset)
  }

  function Marked(splits: nat, top: nat, offsets: set<nat>): set<Hit> {
    set o | o in offsets :: Hit(splits, top, o)
  }

  /** One device, numbered as its file is named, and all the damage ever done to it. */
  class Device {
    const number: nat
    const fsize: nat
    const total: nat
    var hits: set<Hit>

    constructor (number: nat, fsize: nat, total: nat)
      ensures this.number == number && this.fsize == fsize && this.total == total && hits == {} && Valid()
    {
      this.number, this.fsize, this.total, hits := number, fsize, total, {};
    }

    ghost predicate Valid()
      reads this
    {
      forall h :: h in hits ==> HitIsOwn(total, number, fsize, h)
    }

    /** Where one draw leads, unless it would hit labels that are to be kept. */
    method Choose(leaves: nat, leaf: nat, r: (nat, nat)) returns (offset: nat, skip: bool)
      requires leaves > 0
      ensures HitBy(leaves, leaf, fsize, r) == if skip then {} else {offset}
      ensures !skip ==> OwnPlace(leaves, leaf, fsize, offset) && !Skip(leaf, fsize, offset) && LabelsKept(leaf, fsize, offset)
    {
      offset := Draw(leaves, leaf, fsize, r.0, r.1);
      skip := Skip(leaf, fsize, offset);
      DrawIsOwn(leaves, leaf, fsize, r.0, r.1);
      if !skip {
        FrontIsNeverHit(leaves, leaf, fsize, offset);
      }
    }

    /** Up to 999 bad words, at the offsets drawn; the loop ends at the first that is due after the
        pool was split meanwhile. Whatever damage there is already, under whatever counts, stays. */
    method Inject(splits: nat, top: nat, random: seq<(nat, nat)>, split: nat) returns (injected: bool)
      requires Valid() && Draws(total, splits, top, number) && |random| == 999
      modifies this
      ensures Valid()
      ensures var offsets := Hits(total - splits, LeafOf(total, splits, top, number), fsize, random[..if split < 999 then split else 999]);
              hits == old(hits) + Marked(splits, top, offsets) && (injected <==> offsets != {})
    {
      injected := false;
      var leaves, leaf := total - splits, number - top * (total - splits);
      ghost var hit: set<nat> := {};
      var iters := 999;
      while iters != 0
        invariant 0 <= iters <= 999 && Valid() && hits == old(hits) + Marked(splits, top, hit)
        invariant hit == Hits(leaves, leaf, fsize, random[..if split < 999 - iters then split else 999 - iters])
        invariant injected <==> hit != {}
        decreases iters
      {
        var n := 999 - iters;
        iters := iters - 1;
        if n < split {
          assert random[..n+1][..n] == random[..n];
        }
        var offset, skip := Choose(leaves, leaf, random[n]);
        if skip {
          continue;
        }
        if n >= split {
          return;
        }
        hits := hits + {Hit(splits, top, offset)};
        hit := hit + {offset};
        injected := true;
      }
    }
  }

  /** Two devices of a mirror, damaged as often as you like: of what was done to them with no split
      in between, nothing comes within one block of each other. */
  lemma NoBlockHitTwice(a: Device, b: Device, h1: Hit, h2: Hit, x: nat, len: nat)
    requires a.Valid() && b.Valid() && a.total == b.total && h1 in a.hits && h2 in b.hits && h1.splits == h2.splits
    requires a.number != b.number && a.number < b.number + a.total - h1.splits && b.number < a.number + a.total - h1.splits
    requires len <= HALF
    ensures !(Touches(x, len, h1.offset) && Touches(x, len, h2.offset))
  {
    var n := a.total - h1.splits;
    var l1, l2 := LeafOf(a.total, h1.splits, h1.top, a.number), LeafOf(b.total, h2.splits, h2.top, b.number);
    Residue(n, l1, h1.top);
    Residue(n, l2, h2.top);
    if l1 % n == l2 % n {
      SameRemainder(n, a.number, b.number);
    }
    OneCountApart(n, l1, a.fsize, l2, b.fsize);
    if Touches(x, len, h1.offset) && Touches(x, len, h2.offset) {
      MeetInSlot(n, l1, a.fsize, n, l2, b.fsize, h1.offset, h2.offset, x, len);
    }
  }

  /** With a split in between, they can be within one block of each other only in a slot that both
      counts deal to them and that is open to both. */
  lemma MeetOnlyInSharedSlot(a: Device, b: Device, h1: Hit, h2: Hit, x: nat, len: nat)
    requires a.Valid() && b.Valid() && a.total == b.total && h1 in a.hits && h2 in b.hits && len <= HALF
    requires Touches(x, len, h1.offset) && Touches(x, len, h2.offset)
    ensures HitIsOwn(a.total, a.number, a.fsize, h1) && HitIsOwn(b.total, b.number, b.fsize, h2)
    ensures ShareSlot(a.total - h1.splits, LeafOf(a.total, h1.splits, h1.top, a.number), a.fsize,
                      b.total - h2.splits, LeafOf(b.total, h2.splits, h2.top, b.number), b.fsize)
  {
    MeetInSlot(a.total - h1.splits, LeafOf(a.total, h1.splits, h1.top, a.number), a.fsize,
               b.total - h2.splits, LeafOf(b.total, h2.splits, h2.top, b.number), b.fsize, h1.offset, h2.offset, x, len);
  }

  /** Whatever was done to a device, its labels at the front are whole. */
  lemma FrontLabelsSurvive(d: Device, h: Hit)
    requires d.Valid() && h in d.hits
    ensures LABEL_START <= h.offset
  {
  }
}
