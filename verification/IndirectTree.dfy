/**
 The walk over an object's tree of block pointers, which prints each block with
 its offset in the object. A block at level l spans as much as 2^(l * shift)
 data blocks, where an indirect block holds 2^shift pointers.
 */
module IndirectTree {
  import opened Basics

  datatype Bp = Bp(birth: nat, level: nat, hole: bool, fill: nat, readable: bool, children: seq<Bp>)

  /** What the dnode says: pointers per indirect block as a power of two, and the data block size. */
  datatype Geometry = Geometry(shift: nat, sectors: nat)

  function Pow2(n: nat): (p: nat)
    ensures p > 0
  {
    if n == 0 then 1 else 2 * Pow2(n - 1)
  }

  /** How many data blocks a block at this level stands for. */
  function Width(g: Geometry, level: nat): (w: nat)
    ensures w > 0
  {
    Pow2(level * g.shift)
  }

  function FirstBlock(g: Geometry, level: nat, blkid: nat): nat { blkid * Width(g, level) }

  function BlockSize(g: Geometry): nat { g.sectors * 512 }

  /** The offset of a block, as computed from its level and number. */
  function OffsetOf(g: Geometry, level: nat, blkid: nat): nat {
    FirstBlock(g, level, blkid) * BlockSize(g)
  }

  function Span(g: Geometry, level: nat): nat { Width(g, level) * BlockSize(g) }

  lemma {:induction false} Pow2Sum(a: nat, b: nat)
    ensures Pow2(a + b) == Pow2(a) * Pow2(b)
  {
    if a > 0 {
      Pow2Sum(a - 1, b);
      Regroup(2, Pow2(a - 1), Pow2(b));
    }
  }

  lemma WidthUp(g: Geometry, level: nat)
    ensures Width(g, level + 1) == Pow2(g.shift) * Width(g, level)
  {
    assert (level + 1) * g.shift == g.shift + level * g.shift;
    Pow2Sum(g.shift, level * g.shift);
  }

  lemma FirstBlocks(g: Geometry, level: nat, blkid: nat, i: nat)
    ensures FirstBlock(g, level, blkid * Pow2(g.shift) + i) == FirstBlock(g, level + 1, blkid) + i * Width(g, level)
  {
    WidthUp(g, level);
    Split(blkid, Pow2(g.shift), i, Width(g, level));
  }

  lemma Split(b: nat, e: nat, i: nat, w: nat)
    ensures (b * e + i) * w == b * (e * w) + i * w
  {
    Regroup(b, e, w);
  }

  lemma Scaled(x: nat, y: nat, i: nat, w: nat, s: nat)
    requires x == y + i * w
    ensures x * s == y * s + i * (w * s)
  {
    Regroup(i, w, s);
  }

  lemma OneMore(n: nat, w: nat)
    requires n > 0
    ensures n * w == (n - 1) * w + w
  {
  }

  /** A block's range is cut into its children's, in order and without gap or overlap. */
  lemma ChildrenTile(g: Geometry, level: nat, blkid: nat, i: nat)
    ensures Span(g, level + 1) == Pow2(g.shift) * Span(g, level)
    ensures OffsetOf(g, level, blkid * Pow2(g.shift) + i) == OffsetOf(g, level + 1, blkid) + i * Span(g, level)
  {
    WidthUp(g, level);
    Regroup(Pow2(g.shift), Width(g, level), BlockSize(g));
    FirstBlocks(g, level, blkid, i);
    Scaled(FirstBlock(g, level, blkid * Pow2(g.shift) + i), FirstBlock(g, level + 1, blkid), i, Width(g, level), BlockSize(g));
  }

  // ----- The walk

  /** A line printed for a block. */
  datatype Line = Line(level: nat, blkid: nat, offset: nat)

  /** What a walk prints, whether it was cut short by a read error, and whether a fill count was wrong. */
  datatype Walk = Walk(lines: seq<Line>, err: bool, wrongFill: bool)

  /** Every pointer is at its level and every indirect block holds 2^shift of them. */
  predicate Shaped(g: Geometry, bp: Bp, level: nat)
    decreases bp
  {
    && bp.level == level
    && (level > 0 && bp.birth > 0 && !bp.hole ==>
          |bp.children| == Pow2(g.shift) && forall i :: 0 <= i < |bp.children| ==> Shaped(g, bp.children[i], level - 1))
  }

  function FillSum(bps: seq<Bp>): nat {
    if bps == [] then 0 else FillSum(bps[..|bps|-1]) + bps[|bps|-1].fill
  }

  function Visit(g: Geometry, bp: Bp, level: nat, blkid: nat): Walk
    requires Shaped(g, bp, level)
    decreases bp, |bp.children| + 1
  {
    if bp.birth == 0 then Walk([], false, false)
    else
      var line := Line(level, blkid, OffsetOf(g, level, blkid));
      if level == 0 || bp.hole then Walk([line], false, false)
      else if !bp.readable then Walk([line], true, false)
      else
        var below := VisitFirst(g, bp, level, blkid, |bp.children|);
        Walk([line] + below.lines, below.err, below.wrongFill || (!below.err && FillSum(bp.children) != bp.fill))
  }

  /** The walk over the first `n` children, up to the first error. */
  function VisitFirst(g: Geometry, bp: Bp, level: nat, blkid: nat, n: nat): Walk
    requires Shaped(g, bp, level) && level > 0 && bp.birth > 0 && !bp.hole && n <= |bp.children|
    decreases bp, n
  {
    if n == 0 then Walk([], false, false)
    else
      var before := VisitFirst(g, bp, level, blkid, n - 1);
      if before.err then before
      else
        var child := Visit(g, bp.children[n-1], level - 1, blkid * Pow2(g.shift) + n - 1);
        Walk(before.lines + child.lines, child.err, before.wrongFill || child.wrongFill)
  }

  // ----- The order of what it prints

  /** A printed line starts at or after block `lo` and before block `hi`. */
  predicate LineWithin(g: Geometry, line: Line, lo: nat, hi: nat) {
    line.offset == OffsetOf(g, line.level, line.blkid) && lo <= FirstBlock(g, line.level, line.blkid) < hi
  }

  ghost predicate Within(g: Geometry, lines: seq<Line>, lo: nat, hi: nat) {
    forall i :: 0 <= i < |lines| ==> LineWithin(g, lines[i], lo, hi)
  }

  /** Block numbers never go back, and after a data block they go on. */
  ghost predicate Ordered(g: Geometry, lines: seq<Line>) {
    forall i, j :: 0 <= i < j < |lines| ==> Follows(g, lines[i], lines[j])
  }

  predicate Follows(g: Geometry, a: Line, b: Line) {
    if a.level == 0 then FirstBlock(g, a.level, a.blkid) < FirstBlock(g, b.level, b.blkid)
    else FirstBlock(g, a.level, a.blkid) <= FirstBlock(g, b.level, b.blkid)
  }

  lemma OrderedJoin(g: Geometry, a: seq<Line>, b: seq<Line>, lo: nat, mid: nat, hi: nat)
    requires Ordered(g, a) && Ordered(g, b) && Within(g, a, lo, mid) && Within(g, b, mid, hi) && lo <= mid <= hi
    ensures Ordered(g, a + b) && Within(g, a + b, lo, hi)
  {
    forall i, j | 0 <= i < j < |a + b| ensures Follows(g, (a + b)[i], (a + b)[j]) {
      if i < |a| <= j {
        assert LineWithin(g, a[i], lo, mid) && LineWithin(g, b[j - |a|], mid, hi);
      }
    }
  }

  lemma LineFirst(g: Geometry, line: Line, lines: seq<Line>, lo: nat, hi: nat)
    requires Ordered(g, lines) && Within(g, lines, lo, hi) && LineWithin(g, line, lo, hi)
    requires FirstBlock(g, line.level, line.blkid) == lo && line.level > 0
    ensures Ordered(g, [line] + lines) && Within(g, [line] + lines, lo, hi)
  {
    var all := [line] + lines;
    forall i, j | 0 <= i < j < |all| ensures Follows(g, all[i], all[j]) {
      if i == 0 {
        assert LineWithin(g, lines[j - 1], lo, hi);
      }
    }
  }

  lemma {:induction false} VisitOrdered(g: Geometry, bp: Bp, level: nat, blkid: nat)
    requires Shaped(g, bp, level)
    ensures Ordered(g, Visit(g, bp, level, blkid).lines)
    ensures Within(g, Visit(g, bp, level, blkid).lines, FirstBlock(g, level, blkid), FirstBlock(g, level, blkid) + Width(g, level))
    decreases bp, |bp.children| + 1
  {
    if bp.birth > 0 && level > 0 && !bp.hole && bp.readable {
      var n := |bp.children|;
      VisitFirstOrdered(g, bp, level, blkid, n);
      WidthUp(g, level - 1);
      LineFirst(g, Line(level, blkid, OffsetOf(g, level, blkid)), VisitFirst(g, bp, level, blkid, n).lines,
                FirstBlock(g, level, blkid), FirstBlock(g, level, blkid) + Width(g, level));
    }
  }

  lemma {:induction false} VisitFirstOrdered(g: Geometry, bp: Bp, level: nat, blkid: nat, n: nat)
    requires Shaped(g, bp, level) && level > 0 && bp.birth > 0 && !bp.hole && n <= |bp.children|
    ensures Ordered(g, VisitFirst(g, bp, level, blkid, n).lines)
    ensures Within(g, VisitFirst(g, bp, level, blkid, n).lines, FirstBlock(g, level, blkid), FirstBlock(g, level, blkid) + n * Width(g, level - 1))
    decreases bp, n
  {
    if n > 0 {
      VisitFirstOrdered(g, bp, level, blkid, n - 1);
      var lo, w, kid := FirstBlock(g, level, blkid), Width(g, level - 1), blkid * Pow2(g.shift) + n - 1;
      var mid := lo + (n - 1) * w;
      OneMore(n, w);
      var before := VisitFirst(g, bp, level, blkid, n - 1);
      if before.err {
        WithinMore(g, before.lines, lo, mid, mid + w);
      } else {
        FirstBlocks(g, level - 1, blkid, n - 1);
        VisitOrdered(g, bp.children[n-1], level - 1, kid);
        OrderedJoin(g, before.lines, Visit(g, bp.children[n-1], level - 1, kid).lines, lo, mid, mid + w);
      }
    }
  }

  lemma WithinMore(g: Geometry, lines: seq<Line>, lo: nat, hi: nat, more: nat)
    requires Within(g, lines, lo, hi) && hi <= more
    ensures Within(g, lines, lo, more)
  {
  }

  /** So the offsets of data blocks strictly increase, each a block size on at least. */
  lemma OffsetsIncrease(g: Geometry, lines: seq<Line>, lo: nat, hi: nat, i: nat, j: nat)
    requires Ordered(g, lines) && Within(g, lines, lo, hi) && i < j < |lines| && lines[i].level == 0
    ensures lines[i].offset + BlockSize(g) <= lines[j].offset
  {
    assert LineWithin(g, lines[i], lo, hi) && LineWithin(g, lines[j], lo, hi) && Follows(g, lines[i], lines[j]);
    NextMultiple(FirstBlock(g, lines[i].level, lines[i].blkid), FirstBlock(g, lines[j].level, lines[j].blkid), BlockSize(g));
  }

  // ----- What it prints, against looking blocks up one by one

  lemma Digit(k: nat, e: nat, w: nat)
    requires w > 0 && k < e * w
    ensures k / w < e && k % w < w
  {
    var d := k / w - e;
    assert k - e * w == w * d + k % w;
    assert d >= 0 ==> w * d >= 0;
  }

  /** Which child data block `k` is in, and where there. */
  function ChildDigit(g: Geometry, level: nat, k: nat): (d: (nat, nat))
    requires level > 0 && k < Width(g, level)
    ensures d.0 < Pow2(g.shift) && d.1 < Width(g, level - 1)
  {
    var w := Width(g, level - 1);
    WidthUp(g, level - 1);
    Digit(k, Pow2(g.shift), w);
    (k / w, k % w)
  }

  /** Whether reading data block `k` of this subtree, going down by its number, finds a block. */
  predicate Found(g: Geometry, bp: Bp, level: nat, k: nat)
    requires Shaped(g, bp, level) && k < Width(g, level)
    decreases bp
  {
    if bp.birth == 0 then false
    else if level == 0 then true
    else if bp.hole then false
    else
      var d := ChildDigit(g, level, k);
      Found(g, bp.children[d.0], level - 1, d.1)
  }

  ghost predicate Printed(lines: seq<Line>, blkid: nat) {
    exists i :: 0 <= i < |lines| && lines[i].level == 0 && lines[i].blkid == blkid
  }

  lemma PrintedJoin(a: seq<Line>, b: seq<Line>, blkid: nat)
    ensures Printed(a + b, blkid) <==> Printed(a, blkid) || Printed(b, blkid)
  {
    if i :| 0 <= i < |a| && a[i].level == 0 && a[i].blkid == blkid {
      assert (a + b)[i] == a[i];
    }
    if i :| 0 <= i < |b| && b[i].level == 0 && b[i].blkid == blkid {
      assert (a + b)[|a| + i] == b[i];
    }
  }

  /** A walk that is not cut short prints exactly the data blocks that a lookup finds. */
  lemma {:induction false} PrintedIffFound(g: Geometry, bp: Bp, level: nat, blkid: nat, b: nat)
    requires Shaped(g, bp, level) && !Visit(g, bp, level, blkid).err
    ensures Printed(Visit(g, bp, level, blkid).lines, b) <==>
              var lo := FirstBlock(g, level, blkid);
              lo <= b < lo + Width(g, level) && Found(g, bp, level, b - lo)
    decreases bp, |bp.children| + 1
  {
    if bp.birth > 0 {
      var line := Line(level, blkid, OffsetOf(g, level, blkid));
      if level == 0 {
        assert [line][0] == line;
      } else if !bp.hole {
        var n := |bp.children|;
        FirstPrinted(g, bp, level, blkid, n, b);
        WidthUp(g, level - 1);
        PrintedJoin([line], VisitFirst(g, bp, level, blkid, n).lines, b);
      }
    }
  }

  ghost predicate FoundBelow(g: Geometry, bp: Bp, level: nat, blkid: nat, n: nat, b: nat)
    requires Shaped(g, bp, level) && level > 0 && bp.birth > 0 && !bp.hole && n <= |bp.children|
  {
    var lo := FirstBlock(g, level, blkid);
    WidthUp(g, level - 1);
    lo <= b < lo + n * Width(g, level - 1) && b < lo + Width(g, level) && Found(g, bp, level, b - lo)
  }

  lemma {:induction false} FirstPrinted(g: Geometry, bp: Bp, level: nat, blkid: nat, n: nat, b: nat)
    requires Shaped(g, bp, level) && level > 0 && bp.birth > 0 && !bp.hole && n <= |bp.children|
    requires !VisitFirst(g, bp, level, blkid, n).err
    ensures Printed(VisitFirst(g, bp, level, blkid, n).lines, b) <==> FoundBelow(g, bp, level, blkid, n, b)
    decreases bp, n
  {
    if n > 0 {
      FirstPrinted(g, bp, level, blkid, n - 1, b);
      var kid := blkid * Pow2(g.shift) + n - 1;
      PrintedIffFound(g, bp.children[n-1], level - 1, kid, b);
      PrintedJoin(VisitFirst(g, bp, level, blkid, n - 1).lines, Visit(g, bp.children[n-1], level - 1, kid).lines, b);
      ChildFound(g, bp, level, blkid, n, b);
    }
  }

  lemma ChildFound(g: Geometry, bp: Bp, level: nat, blkid: nat, n: nat, b: nat)
    requires Shaped(g, bp, level) && level > 0 && bp.birth > 0 && !bp.hole && 0 < n <= |bp.children|
    ensures FoundBelow(g, bp, level, blkid, n, b) <==>
              || FoundBelow(g, bp, level, blkid, n - 1, b)
              || (var lo := FirstBlock(g, level - 1, blkid * Pow2(g.shift) + n - 1);
                  lo <= b < lo + Width(g, level - 1) && Found(g, bp.children[n-1], level - 1, b - lo))
  {
    var w := Width(g, level - 1);
    WidthUp(g, level - 1);
    FirstBlocks(g, level - 1, blkid, n - 1);
    NextMultiple(n - 1, Pow2(g.shift), w);
    OneMore(n, w);
    var lo := FirstBlock(g, level, blkid);
    if lo + (n - 1) * w <= b < lo + n * w {
      Quotient(b - lo, w, n - 1, b - lo - (n - 1) * w);
    }
  }

  // ----- The fill counts

  predicate Indirect(bp: Bp, level: nat) { level > 0 && bp.birth > 0 && !bp.hole }

  /** The fill that the blocks not walked into add up to: one for each data block and none for a
      hole, or in an object of dnodes their number. */
  function FillBelow(g: Geometry, bp: Bp, level: nat): nat
    requires Shaped(g, bp, level)
    decreases bp, |bp.children| + 1
  {
    if Indirect(bp, level) then FillOfFirst(g, bp, level, |bp.children|) else bp.fill
  }

  function FillOfFirst(g: Geometry, bp: Bp, level: nat, n: nat): nat
    requires Shaped(g, bp, level) && Indirect(bp, level) && n <= |bp.children|
    decreases bp, n
  {
    if n == 0 then 0 else FillOfFirst(g, bp, level, n - 1) + FillBelow(g, bp.children[n-1], level - 1)
  }

  /** Every block's fill is what the ends below it add up to. */
  predicate AllFilled(g: Geometry, bp: Bp, level: nat)
    requires Shaped(g, bp, level)
    decreases bp
  {
    && bp.fill == FillBelow(g, bp, level)
    && (Indirect(bp, level) ==> forall i :: 0 <= i < |bp.children| ==> AllFilled(g, bp.children[i], level - 1))
  }

  /** The assertion on the running count holds everywhere exactly when every fill is what the ends
      below add up to. */
  lemma {:induction false} FillCheckIff(g: Geometry, bp: Bp, level: nat, blkid: nat)
    requires Shaped(g, bp, level) && !Visit(g, bp, level, blkid).err
    ensures !Visit(g, bp, level, blkid).wrongFill <==> AllFilled(g, bp, level)
    decreases bp, |bp.children| + 1
  {
    if Indirect(bp, level) {
      var n := |bp.children|;
      FillCheckFirst(g, bp, level, blkid, n);
      assert bp.children[..n] == bp.children;
    }
  }

  ghost predicate FirstFilled(g: Geometry, bp: Bp, level: nat, n: nat)
    requires Shaped(g, bp, level) && Indirect(bp, level) && n <= |bp.children|
  {
    forall i :: 0 <= i < n ==> AllFilled(g, bp.children[i], level - 1)
  }

  lemma {:induction false} FillCheckFirst(g: Geometry, bp: Bp, level: nat, blkid: nat, n: nat)
    requires Shaped(g, bp, level) && Indirect(bp, level) && n <= |bp.children|
    requires !VisitFirst(g, bp, level, blkid, n).err
    ensures !VisitFirst(g, bp, level, blkid, n).wrongFill <==> FirstFilled(g, bp, level, n)
    ensures FirstFilled(g, bp, level, n) ==> FillSum(bp.children[..n]) == FillOfFirst(g, bp, level, n)
    decreases bp, n
  {
    if n > 0 {
      FillCheckFirst(g, bp, level, blkid, n - 1);
      FillCheckIff(g, bp.children[n-1], level - 1, blkid * Pow2(g.shift) + n - 1);
      assert bp.children[..n][..n-1] == bp.children[..n-1];
    }
  }

  // ----- The walk as the tool does it

  /** The state of a dump after a further walk. */
  function After(lines: seq<Line>, wrongFill: bool, w: Walk): Walk {
    Walk(lines + w.lines, w.err, wrongFill || w.wrongFill)
  }

  lemma NextChild(g: Geometry, bp: Bp, level: nat, blkid: nat, i: nat, lines: seq<Line>, wrongFill: bool)
    requires Shaped(g, bp, level) && Indirect(bp, level) && i < |bp.children| && !VisitFirst(g, bp, level, blkid, i).err
    ensures var now := After(lines, wrongFill, VisitFirst(g, bp, level, blkid, i));
            After(lines, wrongFill, VisitFirst(g, bp, level, blkid, i + 1)) ==
            After(now.lines, now.wrongFill, Visit(g, bp.children[i], level - 1, blkid * |bp.children| + i))
  {
  }

  /** What is printed for all pointers of a dnode. */
  function LinesOf(g: Geometry, roots: seq<Bp>, level: nat): seq<Line>
    requires forall j :: 0 <= j < |roots| ==> Shaped(g, roots[j], level)
  {
    if roots == [] then []
    else LinesOf(g, roots[..|roots|-1], level) + Visit(g, roots[|roots|-1], level, |roots| - 1).lines
  }

  class Dump {
    var lines: seq<Line>
    var wrongFill: bool

    constructor ()
      ensures lines == [] && !wrongFill
    {
      lines, wrongFill := [], false;
    }

    method VisitIndirect(g: Geometry, bp: Bp, level: nat, blkid: nat) returns (err: bool)
      requires Shaped(g, bp, level)
      modifies this
      ensures Walk(lines, err, wrongFill) == After(old(lines), old(wrongFill), Visit(g, bp, level, blkid))
      decreases bp, 1
    {
      if bp.birth == 0 {
        return false;
      }
      lines := lines + [Line(level, blkid, OffsetOf(g, level, blkid))];
      err := false;
      if bp.level > 0 && !bp.hole {
        if !bp.readable {
          return true;
        }
        var fill;
        err, fill := VisitChildren(g, bp, level, blkid);
        if !err && fill != bp.fill {
          wrongFill := true;
        }
      }
    }

    /** Visit the pointers of an indirect block up to the first error, adding up their fills. */
    method VisitChildren(g: Geometry, bp: Bp, level: nat, blkid: nat) returns (err: bool, fill: nat)
      requires Shaped(g, bp, level) && Indirect(bp, level)
      modifies this
      ensures Walk(lines, err, wrongFill) == After(old(lines), old(wrongFill), VisitFirst(g, bp, level, blkid, |bp.children|))
      ensures !err ==> fill == FillSum(bp.children)
      decreases bp, 0
    {
      var i, epb := 0, |bp.children|;
      var first: nat := blkid * epb;
      fill, err := 0, false;
      while i < epb
        invariant 0 <= i <= epb && fill == FillSum(bp.children[..i]) && !err
        invariant Walk(lines, err, wrongFill) == After(old(lines), old(wrongFill), VisitFirst(g, bp, level, blkid, i))
      {
        NextChild(g, bp, level, blkid, i, old(lines), old(wrongFill));
        err := VisitIndirect(g, bp.children[i], level - 1, first + i);
        if err {
          ErrorStays(g, bp, level, blkid, i + 1, epb);
          return;
        }
        assert bp.children[..i+1][..i] == bp.children[..i];
        fill := fill + bp.children[i].fill;
        i := i + 1;
      }
      assert bp.children[..i] == bp.children;
    }

    /** Walk from all pointers of the dnode; an error below one does not keep from the next. */
    method DumpIndirect(g: Geometry, roots: seq<Bp>, level: nat)
      requires lines == [] && forall j :: 0 <= j < |roots| ==> Shaped(g, roots[j], level)
      modifies this
      ensures lines == LinesOf(g, roots, level)
      ensures Ordered(g, lines) && Within(g, lines, 0, |roots| * Width(g, level))
    {
      var j := 0;
      while j < |roots|
        invariant 0 <= j <= |roots| && Ordered(g, lines) && Within(g, lines, 0, j * Width(g, level))
        invariant lines == LinesOf(g, roots[..j], level)
      {
        assert roots[..j+1][..j] == roots[..j];
        VisitOrdered(g, roots[j], level, j);
        OneMore(j + 1, Width(g, level));
        OrderedJoin(g, lines, Visit(g, roots[j], level, j).lines, 0, j * Width(g, level), (j + 1) * Width(g, level));
        var err := VisitIndirect(g, roots[j], level, j);
        j := j + 1;
      }
      assert roots[..j] == roots;
    }
  }

  lemma {:induction false} ErrorStays(g: Geometry, bp: Bp, level: nat, blkid: nat, i: nat, n: nat)
    requires Shaped(g, bp, level) && Indirect(bp, level) && i <= n <= |bp.children| && VisitFirst(g, bp, level, blkid, i).err
    ensures VisitFirst(g, bp, level, blkid, n) == VisitFirst(g, bp, level, blkid, i)
    decreases n
  {
    if i < n {
      ErrorStays(g, bp, level, blkid, i, n - 1);
    }
  }
}
