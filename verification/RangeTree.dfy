/**
 The range tree (without gap support) as the tools use it: disjoint segments in
 increasing order that are merged when they touch. Every operation is stated on
 the set of bytes that the segments cover. An operation that panics in the
 original returns `false` here and changes nothing.
 */
module RangeTree {

  datatype Seg = Seg(start: nat, end: nat)

  predicate Between(a: nat, x: nat, b: nat) {
    a <= x < b
  }

  function Interval(a: nat, b: nat): set<nat> {
    set x: nat | x < b && Between(a, x, b)
  }

  ghost function Bytes(segs: seq<Seg>): set<nat> {
    set i, x | 0 <= i < |segs| && x in Interval(segs[i].start, segs[i].end) :: x
  }

  ghost predicate Ordered(segs: seq<Seg>) {
    && (forall i :: 0 <= i < |segs| ==> segs[i].start < segs[i].end)
    && (forall i, j :: 0 <= i < j < |segs| ==> segs[i].end < segs[j].start)
  }

  /** `[a, b)` is a maximal run of consecutive members of `s`. */
  ghost predicate IsRun(s: set<nat>, a: nat, b: nat) {
    && a < b
    && Interval(a, b) <= s
    && b !in s
    && (a == 0 || a - 1 !in s)
  }

  // ----- Segments and the bytes they cover

  lemma {:induction false} IntervalSize(a: nat, b: nat)
    requires a <= b
    ensures |Interval(a, b)| == b - a
    decreases b - a
  {
    if a < b {
      assert Interval(a, b) == Interval(a, b - 1) + {b - 1};
      IntervalSize(a, b - 1);
    } else {
      assert Interval(a, b) == {};
    }
  }

  lemma BytesMember(segs: seq<Seg>, x: nat)
    ensures x in Bytes(segs) <==> exists i :: 0 <= i < |segs| && segs[i].start <= x < segs[i].end
  {
    if i :| 0 <= i < |segs| && segs[i].start <= x < segs[i].end {
      assert x in Interval(segs[i].start, segs[i].end);
    }
  }

  lemma BytesConcat(a: seq<Seg>, b: seq<Seg>)
    ensures Bytes(a + b) == Bytes(a) + Bytes(b)
  {
    forall x: nat ensures x in Bytes(a + b) <==> x in Bytes(a) || x in Bytes(b) {
      BytesMember(a, x);
      BytesMember(b, x);
      BytesMember(a + b, x);
      if i :| 0 <= i < |b| && b[i].start <= x < b[i].end {
        assert (a + b)[|a| + i] == b[i];
      }
      if i :| 0 <= i < |a| && a[i].start <= x < a[i].end {
        assert (a + b)[i] == a[i];
      }
    }
  }

  lemma BytesOne(g: Seg)
    ensures Bytes([g]) == Interval(g.start, g.end)
  {
    assert [g][0] == g;
  }

  lemma BytesThree(a: seq<Seg>, m: seq<Seg>, b: seq<Seg>)
    ensures Bytes(a + m + b) == Bytes(a) + Bytes(m) + Bytes(b)
  {
    BytesConcat(a + m, b);
    BytesConcat(a, m);
  }

  /** Touching segments are merged, so a covered interval lies in one segment. */
  lemma {:induction false} CoveredByOne(segs: seq<Seg>, a: nat, b: nat) returns (i: nat)
    requires Ordered(segs) && a < b && Interval(a, b) <= Bytes(segs)
    ensures i < |segs| && segs[i].start <= a && b <= segs[i].end
    decreases b - a
  {
    BytesMember(segs, b - 1);
    assert b - 1 in Interval(a, b);
    if a == b - 1 {
      i :| 0 <= i < |segs| && segs[i].start <= a < segs[i].end;
    } else {
      assert Interval(a, b - 1) <= Interval(a, b);
      i := CoveredByOne(segs, a, b - 1);
      var j :| 0 <= j < |segs| && segs[j].start <= b - 1 < segs[j].end;
    }
  }

  lemma InOne(segs: seq<Seg>, i: nat, a: nat, b: nat)
    requires i < |segs| && segs[i].start <= a && b <= segs[i].end
    ensures Interval(a, b) <= Bytes(segs)
  {
    forall x | x in Interval(a, b) ensures x in Bytes(segs) {
      BytesMember(segs, x);
    }
  }

  /** The segments of a tree are exactly the maximal runs of the bytes it covers. */
  lemma SegmentsAreRuns(segs: seq<Seg>, a: nat, b: nat)
    requires Ordered(segs)
    ensures Seg(a, b) in segs <==> IsRun(Bytes(segs), a, b)
  {
    if Seg(a, b) in segs {
      var i :| 0 <= i < |segs| && segs[i] == Seg(a, b);
      InOne(segs, i, a, b);
      BytesMember(segs, b);
      if a > 0 {
        BytesMember(segs, a - 1);
      }
    }
    if IsRun(Bytes(segs), a, b) {
      var i := CoveredByOne(segs, a, b);
      BytesMember(segs, b);
      if a > 0 {
        BytesMember(segs, a - 1);
      }
      assert segs[i] == Seg(a, b);
    }
  }

  // ----- Insertion and removal of a segment at its place

  /** `w` is the place of the first segment that ends after `start`. */
  ghost predicate IsPlace(segs: seq<Seg>, w: nat, start: nat) {
    && w <= |segs|
    && (forall i :: 0 <= i < w ==> segs[i].end <= start)
    && (forall i :: w <= i < |segs| ==> start < segs[i].end)
  }

  predicate SegmentAtCovers(segs: seq<Seg>, w: nat, start: nat, end: nat) {
    w < |segs| && segs[w].start <= start && end <= segs[w].end
  }

  lemma InSegmentAt(segs: seq<Seg>, w: nat, start: nat, end: nat)
    requires Ordered(segs) && IsPlace(segs, w, start) && start < end
    ensures SegmentAtCovers(segs, w, start, end) <==> Interval(start, end) <= Bytes(segs)
  {
    if SegmentAtCovers(segs, w, start, end) {
      InOne(segs, w, start, end);
    }
    if Interval(start, end) <= Bytes(segs) {
      var i := CoveredByOne(segs, start, end);
    }
  }

  lemma OverlapsAt(segs: seq<Seg>, w: nat, start: nat, end: nat)
    requires Ordered(segs) && IsPlace(segs, w, start) && start < end
    ensures w < |segs| && segs[w].start < end <==> !(Interval(start, end) !! Bytes(segs))
  {
    if w < |segs| && segs[w].start < end {
      var x := if segs[w].start < start then start else segs[w].start;
      BytesMember(segs, x);
      assert x in Interval(start, end);
    }
    if x :| x in Interval(start, end) && x in Bytes(segs) {
      BytesMember(segs, x);
    }
  }

  /** Segments `lo..hi` give way to `mid`. */
  function Replaced(segs: seq<Seg>, lo: nat, hi: nat, mid: seq<Seg>): seq<Seg>
    requires lo <= hi <= |segs|
  {
    segs[..lo] + mid + segs[hi..]
  }

  lemma ReplacedOrdered(segs: seq<Seg>, lo: nat, hi: nat, mid: seq<Seg>)
    requires lo <= hi <= |segs| && Ordered(segs) && Ordered(mid)
    requires forall i :: 0 <= i < |mid| && lo > 0 ==> segs[lo-1].end < mid[i].start
    requires forall i :: 0 <= i < |mid| && hi < |segs| ==> mid[i].end < segs[hi].start
    ensures Ordered(Replaced(segs, lo, hi, mid))
  {
    var r := Replaced(segs, lo, hi, mid);
    forall i, j | 0 <= i < j < |r| ensures r[i].end < r[j].start {
      if i < lo <= j < lo + |mid| && i < lo - 1 {
        assert segs[i].end < segs[lo-1].start;
      } else if lo <= i < lo + |mid| <= j && j > lo + |mid| {
        assert segs[hi].end < segs[j - lo - |mid| + hi].start;
      }
    }
  }

  lemma ReplacedBytes(segs: seq<Seg>, lo: nat, hi: nat, mid: seq<Seg>)
    requires lo <= hi <= |segs|
    ensures Bytes(Replaced(segs, lo, hi, mid)) == Bytes(segs[..lo]) + Bytes(mid) + Bytes(segs[hi..])
    ensures Bytes(segs) == Bytes(segs[..lo]) + Bytes(segs[lo..hi]) + Bytes(segs[hi..])
  {
    assert segs == Replaced(segs, lo, hi, segs[lo..hi]);
    BytesThree(segs[..lo], segs[lo..hi], segs[hi..]);
    BytesThree(segs[..lo], mid, segs[hi..]);
  }

  /** Insert `[start, end)` in front of place `w`, merging with both neighbours it touches. */
  function Inserted(segs: seq<Seg>, w: nat, start: nat, end: nat): seq<Seg>
    requires w <= |segs|
  {
    var mergeBefore := w > 0 && segs[w-1].end >= start;
    var mergeAfter := w < |segs| && segs[w].start <= end;
    if mergeBefore && mergeAfter then Replaced(segs, w - 1, w + 1, [Seg(segs[w-1].start, segs[w].end)])
    else if mergeBefore then Replaced(segs, w - 1, w, [Seg(segs[w-1].start, end)])
    else if mergeAfter then Replaced(segs, w, w + 1, [Seg(start, segs[w].end)])
    else Replaced(segs, w, w, [Seg(start, end)])
  }

  lemma InsertedBytes(segs: seq<Seg>, w: nat, start: nat, end: nat)
    requires Ordered(segs) && IsPlace(segs, w, start) && start < end
    requires w < |segs| ==> end <= segs[w].start
    ensures Ordered(Inserted(segs, w, start, end))
    ensures Bytes(Inserted(segs, w, start, end)) == Bytes(segs) + Interval(start, end)
  {
    var mergeBefore := w > 0 && segs[w-1].end >= start;
    var mergeAfter := w < |segs| && segs[w].start <= end;
    var lo, hi := if mergeBefore then w - 1 else w, if mergeAfter then w + 1 else w;
    var merged := Seg(if mergeBefore then segs[w-1].start else start, if mergeAfter then segs[w].end else end);
    ReplacedOrdered(segs, lo, hi, [merged]);
    ReplacedBytes(segs, lo, hi, [merged]);
    BytesOne(merged);
    MergeNeighbours(segs, lo, hi, start, end, merged);
  }

  lemma MergeNeighbours(segs: seq<Seg>, lo: nat, hi: nat, start: nat, end: nat, merged: Seg)
    requires Ordered(segs) && lo <= hi <= |segs| && start < end
    requires hi == lo ==> merged == Seg(start, end)
    requires hi == lo + 1 ==>
               || (segs[lo] == Seg(merged.start, start) && merged.end == end)
               || (segs[lo] == Seg(end, merged.end) && merged.start == start)
    requires hi > lo + 1 ==> hi == lo + 2 && segs[lo] == Seg(merged.start, start) && segs[lo+1] == Seg(end, merged.end)
    ensures Interval(merged.start, merged.end) == Bytes(segs[lo..hi]) + Interval(start, end)
  {
    if hi == lo {
      assert segs[lo..hi] == [];
    } else if hi == lo + 1 {
      assert segs[lo..hi] == [segs[lo]];
      BytesOne(segs[lo]);
    } else {
      assert segs[lo..hi] == [segs[lo]] + [segs[lo+1]];
      BytesConcat([segs[lo]], [segs[lo+1]]);
      BytesOne(segs[lo]);
      BytesOne(segs[lo+1]);
    }
  }

  /** Cut `[start, end)` out of the segment at `w`, keeping what sticks out on either side. */
  function Carved(segs: seq<Seg>, w: nat, start: nat, end: nat): seq<Seg>
    requires w < |segs|
  {
    Replaced(segs, w, w + 1, Rest(segs[w], start, end))
  }

  function Rest(g: Seg, start: nat, end: nat): seq<Seg> {
    var leftOver := g.start != start;
    var rightOver := g.end != end;
    if leftOver && rightOver then [Seg(g.start, start), Seg(end, g.end)]
    else if leftOver then [Seg(g.start, start)]
    else if rightOver then [Seg(end, g.end)]
    else []
  }

  lemma RestBytes(g: Seg, start: nat, end: nat)
    requires g.start <= start < end <= g.end
    ensures Bytes(Rest(g, start, end)) == Interval(g.start, g.end) - Interval(start, end)
  {
    var l, r := Seg(g.start, start), Seg(end, g.end);
    assert [l, r] == [l] + [r];
    BytesConcat([l], [r]);
    BytesOne(l);
    BytesOne(r);
  }

  lemma CarvedBytes(segs: seq<Seg>, w: nat, start: nat, end: nat)
    requires Ordered(segs) && start < end && SegmentAtCovers(segs, w, start, end)
    ensures Ordered(Carved(segs, w, start, end))
    ensures Bytes(Carved(segs, w, start, end)) == Bytes(segs) - Interval(start, end)
  {
    ReplacedOrdered(segs, w, w + 1, Rest(segs[w], start, end));
    ReplacedBytes(segs, w, w + 1, Rest(segs[w], start, end));
    RestBytes(segs[w], start, end);
    assert segs[w..w+1] == [segs[w]];
    BytesOne(segs[w]);
    NeighboursMiss(segs, w);
  }

  lemma NeighboursMiss(segs: seq<Seg>, w: nat)
    requires Ordered(segs) && w < |segs|
    ensures Interval(segs[w].start, segs[w].end) !! Bytes(segs[..w])
    ensures Interval(segs[w].start, segs[w].end) !! Bytes(segs[w+1..])
  {
    forall x: nat | segs[w].start <= x < segs[w].end ensures x !in Bytes(segs[..w]) && x !in Bytes(segs[w+1..]) {
      BytesMember(segs[..w], x);
      BytesMember(segs[w+1..], x);
    }
  }

  method Where(segs: seq<Seg>, start: nat) returns (w: nat)
    requires Ordered(segs)
    ensures IsPlace(segs, w, start)
  {
    w := 0;
    while w < |segs| && segs[w].end <= start
      invariant w <= |segs|
      invariant forall i :: 0 <= i < w ==> segs[i].end <= start
    {
      w := w + 1;
    }
  }

  /** Panics when any byte is covered already. */
  method Insert(segs: seq<Seg>, start: nat, end: nat) returns (ok: bool, r: seq<Seg>)
    requires Ordered(segs) && start < end
    ensures ok <==> Interval(start, end) !! Bytes(segs)
    ensures ok ==> Ordered(r) && Bytes(r) == Bytes(segs) + Interval(start, end)
  {
    var w := Where(segs, start);
    OverlapsAt(segs, w, start, end);
    ok := !(w < |segs| && segs[w].start < end);
    if ok {
      InsertedBytes(segs, w, start, end);
      r := Inserted(segs, w, start, end);
    } else {
      r := segs;
    }
  }

  /** Panics unless every byte is covered. */
  method Carve(segs: seq<Seg>, start: nat, end: nat) returns (ok: bool, r: seq<Seg>)
    requires Ordered(segs) && start < end
    ensures ok <==> Interval(start, end) <= Bytes(segs)
    ensures ok ==> Ordered(r) && Bytes(r) == Bytes(segs) - Interval(start, end)
  {
    var w := Where(segs, start);
    InSegmentAt(segs, w, start, end);
    ok := SegmentAtCovers(segs, w, start, end);
    if ok {
      CarvedBytes(segs, w, start, end);
      r := Carved(segs, w, start, end);
    } else {
      r := segs;
    }
  }

  class Tree {
    var segs: seq<Seg>
    var space: int
    ghost var Contents: set<nat>  // the bytes that the segments cover

    ghost predicate Valid()
      reads this
    {
      Ordered(segs) && Contents == Bytes(segs)
    }

    constructor ()
      ensures Valid() && Contents == {} && space == 0
    {
      segs, space, Contents := [], 0, {};
    }

    method Contains(start: nat, size: nat) returns (found: bool)
      requires Valid() && size > 0
      ensures found <==> Interval(start, start + size) <= Contents
    {
      var w := Where(segs, start);
      found := SegmentAtCovers(segs, w, start, start + size);
      InSegmentAt(segs, w, start, start + size);
    }

    method Add(start: nat, size: nat) returns (ok: bool)
      requires Valid()
      modifies this
      ensures Valid()
      ensures ok <==> size > 0 && Interval(start, start + size) !! old(Contents)
      ensures ok ==> Contents == old(Contents) + Interval(start, start + size)
      ensures ok ==> space == old(space) + size
      ensures !ok ==> segs == old(segs) && space == old(space) && Contents == old(Contents)
    {
      if size == 0 {
        return false;
      }
      var r;
      ok, r := Insert(segs, start, start + size);
      if ok {
        segs, space := r, space + size;
        Contents := Contents + Interval(start, start + size);
      }
    }

    method Remove(start: nat, size: nat) returns (ok: bool)
      requires Valid()
      modifies this
      ensures Valid()
      ensures ok <==> size > 0 && Interval(start, start + size) <= old(Contents)
      ensures ok ==> Contents == old(Contents) - Interval(start, start + size)
      ensures ok ==> space == old(space) - size
      ensures !ok ==> segs == old(segs) && space == old(space) && Contents == old(Contents)
    {
      if size == 0 {
        return false;
      }
      var r;
      ok, r := Carve(segs, start, start + size);
      if ok {
        segs, space := r, space - size;
        Contents := Contents - Interval(start, start + size);
      }
    }
  }
}
