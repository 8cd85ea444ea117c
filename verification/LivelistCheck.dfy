/**
 The cross check between livelists and metaslabs: the leftover livelist blocks
 are handed out to the metaslabs of the concrete vdevs, and every FREE of a
 metaslab is compared with the blocks that it was handed.
 */
module LivelistCheck {
  import opened Basics
  import opened Livelist
  import opened SpacemapLoad

  /** Metaslab `m` begins at `m * msSize`; dRAID may leave a gap after it. */
  ghost predicate ValidVdev(v: Vdev) {
    forall m :: 0 <= m < |v.ms| ==> v.ms[m].start == m * v.msSize && v.ms[m].size <= v.msSize
  }

  type Blocks = map<Dva, nat>

  ghost predicate AllValid(vdevs: seq<Vdev>) {
    forall v :: 0 <= v < |vdevs| ==> ValidVdev(vdevs[v])
  }

  function Start(vdevs: seq<Vdev>, id: MsId): nat
    requires IsMetaslab(vdevs, id)
  {
    vdevs[id.vdev].ms[id.ms].start
  }

  function End(vdevs: seq<Vdev>, id: MsId): nat
    requires IsMetaslab(vdevs, id)
  {
    Start(vdevs, id) + vdevs[id.vdev].ms[id.ms].size
  }

  predicate StartsIn(d: Dva, v: nat, lo: nat, hi: nat) {
    d.vdev == v && lo <= d.offset < hi
  }

  predicate Inside(d: Dva, v: nat, lo: nat, hi: nat) {
    StartsIn(d, v, lo, hi) && d.offset + d.asize <= hi
  }

  predicate Crosses(d: Dva, v: nat, lo: nat, hi: nat) {
    || (d.vdev == v && d.offset < lo < d.offset + d.asize)
    || (StartsIn(d, v, lo, hi) && hi < d.offset + d.asize)
  }

  predicate InMetaslab(vdevs: seq<Vdev>, id: MsId, d: Dva)
    requires IsMetaslab(vdevs, id)
  {
    Inside(d, id.vdev, Start(vdevs, id), End(vdevs, id))
  }

  predicate CrossesMetaslab(vdevs: seq<Vdev>, id: MsId, d: Dva)
    requires IsMetaslab(vdevs, id)
  {
    Crosses(d, id.vdev, Start(vdevs, id), End(vdevs, id))
  }

  lemma StartsInOne(vdevs: seq<Vdev>, a: MsId, b: MsId)
    requires AllValid(vdevs) && IsMetaslab(vdevs, a) && IsMetaslab(vdevs, b)
    requires a.vdev == b.vdev && a.ms < b.ms
    ensures End(vdevs, a) <= Start(vdevs, b)
  {
    NextMultiple(a.ms, b.ms, vdevs[a.vdev].msSize);
  }

  /** A block that crosses a metaslab boundary lies inside no metaslab, and no block inside two. */
  lemma CrossingIsNowhere(vdevs: seq<Vdev>, a: MsId, b: MsId, d: Dva)
    requires AllValid(vdevs) && IsMetaslab(vdevs, a) && IsMetaslab(vdevs, b)
    ensures CrossesMetaslab(vdevs, a, d) ==> !InMetaslab(vdevs, b, d)
    ensures InMetaslab(vdevs, a, d) && InMetaslab(vdevs, b, d) ==> a == b
  {
    if a.vdev == b.vdev {
      if a.ms < b.ms {
        StartsInOne(vdevs, a, b);
      } else if b.ms < a.ms {
        StartsInOne(vdevs, b, a);
      }
    }
  }

  // ----- Handing out the leftovers

  /** The blocks that metaslab `id` is handed: those of `all` inside it. */
  function Share(vdevs: seq<Vdev>, id: MsId, all: Blocks): Blocks
    requires IsMetaslab(vdevs, id)
  {
    map d | d in all && InMetaslab(vdevs, id, d) :: all[d]
  }

  ghost predicate AreMetaslabs(vdevs: seq<Vdev>, done: set<MsId>) {
    forall id :: id in done ==> IsMetaslab(vdevs, id)
  }

  /** Some metaslab of `done` was handed the block. */
  ghost predicate HandedOut(vdevs: seq<Vdev>, done: set<MsId>, d: Dva)
    requires AreMetaslabs(vdevs, done)
  {
    exists id :: id in done && InMetaslab(vdevs, id, d)
  }

  /** Some block crosses a boundary of a metaslab of `done`. */
  ghost predicate CrossingSeen(vdevs: seq<Vdev>, done: set<MsId>, all: Blocks)
    requires AreMetaslabs(vdevs, done)
  {
    exists id, d :: id in done && d in all && CrossesMetaslab(vdevs, id, d)
  }

  class LeftoverTree {
    var leftover: Blocks

    constructor (blocks: Blocks)
      ensures leftover == blocks
    {
      leftover := blocks;
    }

    /** Pick the blocks inside `[start, end)` of vdev `v`; `errors` counts the lines printed about
        blocks that cross one of the two boundaries. */
    method Pick(v: nat, start: nat, end: nat) returns (allocs: Blocks, errors: nat)
      ensures allocs == map d | d in leftover && Inside(d, v, start, end) :: leftover[d]
      ensures errors > 0 <==> exists d :: d in leftover && Crosses(d, v, start, end)
    {
      allocs, errors := map[], 0;
      var todo := leftover.Keys;
      while todo != {}
        invariant todo <= leftover.Keys
        invariant forall d :: d in allocs <==> d in leftover && d !in todo && Inside(d, v, start, end)
        invariant forall d :: d in allocs ==> allocs[d] == leftover[d]
        invariant errors > 0 <==> exists d :: d in leftover && d !in todo && Crosses(d, v, start, end)
        decreases |todo|
      {
        var d :| d in todo;
        todo := todo - {d};
        if d.vdev != v {
          continue;
        }
        if d.offset < start && d.offset + d.asize > start {
          errors := errors + 1;
          continue;
        }
        if d.offset < start {
          continue;
        }
        if d.offset >= end {
          continue;
        }
        if d.offset + d.asize > end {
          errors := errors + 1;
          continue;
        }
        allocs := allocs[d := leftover[d]];
      }
    }

    /** Move the blocks inside `[start, end)` of vdev `v` out of the leftover tree. */
    method Populate(v: nat, start: nat, end: nat) returns (allocs: Blocks, errors: nat)
      modifies this
      ensures allocs == map d | d in old(leftover) && Inside(d, v, start, end) :: old(leftover)[d]
      ensures leftover == old(leftover) - allocs.Keys
      ensures errors > 0 <==> exists d :: d in old(leftover) && Crosses(d, v, start, end)
    {
      allocs, errors := Pick(v, start, end);
      var todo := allocs.Keys;
      while todo != {}
        invariant todo <= allocs.Keys
        invariant leftover == old(leftover) - (allocs.Keys - todo)
        decreases |todo|
      {
        var d :| d in todo;
        leftover := leftover - {d};
        todo := todo - {d};
      }
    }

    /** The double loop over concrete vdevs and their metaslabs. */
    method HandOut(vdevs: seq<Vdev>) returns (shares: map<MsId, Blocks>, errors: nat)
      requires AllValid(vdevs)
      modifies this
      ensures forall id :: id in shares <==> IsMetaslab(vdevs, id)
      ensures Progress(vdevs, old(leftover), leftover, shares, errors)
    {
      shares, errors := map[], 0;
      var v := 0;
      while v < |vdevs|
        invariant 0 <= v <= |vdevs|
        invariant forall id :: id in shares <==> IsMetaslab(vdevs, id) && id.vdev < v
        invariant Progress(vdevs, old(leftover), leftover, shares, errors)
      {
        var m := 0;
        while vdevs[v].concrete && m < |vdevs[v].ms|
          invariant 0 <= m <= |vdevs[v].ms|
          invariant forall id :: id in shares <==> IsMetaslab(vdevs, id) && (id.vdev < v || (id.vdev == v && id.ms < m))
          invariant Progress(vdevs, old(leftover), leftover, shares, errors)
        {
          var id := MsId(v, m);
          ghost var left := leftover;
          var allocs, e := Populate(v, Start(vdevs, id), End(vdevs, id));
          SameFromLeft(vdevs, old(leftover), left, shares.Keys, id);
          StepProgress(vdevs, old(leftover), left, shares, errors, id, allocs, e);
          shares, errors := shares[id := allocs], errors + e;
          m := m + 1;
        }
        v := v + 1;
      }
    }
  }

  /** Each metaslab so far was handed exactly the blocks inside it, what is left is what none of
      them was handed, and a line was printed exactly when some block crosses one's boundary. */
  ghost predicate Progress(vdevs: seq<Vdev>, all: Blocks, left: Blocks, shares: map<MsId, Blocks>, errors: nat) {
    && AreMetaslabs(vdevs, shares.Keys)
    && (forall id :: id in shares ==> shares[id] == Share(vdevs, id, all))
    && (forall d :: d in left <==> d in all && !HandedOut(vdevs, shares.Keys, d))
    && (forall d :: d in left ==> left[d] == all[d])
    && (errors > 0 <==> CrossingSeen(vdevs, shares.Keys, all))
  }

  /** What a further metaslab takes does not depend on what was handed out before it. */
  lemma UntouchedByOthers(vdevs: seq<Vdev>, done: set<MsId>, id: MsId, d: Dva)
    requires AllValid(vdevs) && AreMetaslabs(vdevs, done) && IsMetaslab(vdevs, id) && id !in done
    ensures HandedOut(vdevs, done, d) ==> !InMetaslab(vdevs, id, d) && !CrossesMetaslab(vdevs, id, d)
  {
    if HandedOut(vdevs, done, d) {
      var other :| other in done && InMetaslab(vdevs, other, d);
      CrossingIsNowhere(vdevs, id, other, d);
    }
  }

  lemma HandedOutOneMore(vdevs: seq<Vdev>, done: set<MsId>, id: MsId, d: Dva)
    requires AreMetaslabs(vdevs, done) && IsMetaslab(vdevs, id)
    ensures HandedOut(vdevs, done + {id}, d) <==> HandedOut(vdevs, done, d) || InMetaslab(vdevs, id, d)
  {
    assert id in done + {id};
  }

  lemma CrossingSeenOneMore(vdevs: seq<Vdev>, done: set<MsId>, id: MsId, all: Blocks)
    requires AreMetaslabs(vdevs, done) && IsMetaslab(vdevs, id)
    ensures CrossingSeen(vdevs, done + {id}, all) <==> CrossingSeen(vdevs, done, all) || CrossingAt(vdevs, id, all)
  {
    assert id in done + {id};
  }

  ghost predicate CrossingAt(vdevs: seq<Vdev>, id: MsId, blocks: Blocks)
    requires IsMetaslab(vdevs, id)
  {
    exists d :: d in blocks && CrossesMetaslab(vdevs, id, d)
  }

  lemma SameFromLeft(vdevs: seq<Vdev>, all: Blocks, left: Blocks, done: set<MsId>, id: MsId)
    requires AllValid(vdevs) && AreMetaslabs(vdevs, done) && IsMetaslab(vdevs, id) && id !in done
    requires forall d :: d in left <==> d in all && !HandedOut(vdevs, done, d)
    requires forall d :: d in left ==> left[d] == all[d]
    ensures Share(vdevs, id, left) == Share(vdevs, id, all)
    ensures CrossingAt(vdevs, id, left) <==> CrossingAt(vdevs, id, all)
  {
    forall d | d in all ensures InMetaslab(vdevs, id, d) || CrossesMetaslab(vdevs, id, d) ==> d in left {
      UntouchedByOthers(vdevs, done, id, d);
    }
  }

  lemma LeftOneMore(vdevs: seq<Vdev>, all: Blocks, left: Blocks, done: set<MsId>, id: MsId)
    requires AreMetaslabs(vdevs, done) && IsMetaslab(vdevs, id)
    requires forall d :: d in left <==> d in all && !HandedOut(vdevs, done, d)
    ensures forall d :: d in left - Share(vdevs, id, left).Keys <==> d in all && !HandedOut(vdevs, done + {id}, d)
  {
    forall d ensures d in left - Share(vdevs, id, left).Keys <==> d in all && !HandedOut(vdevs, done + {id}, d) {
      HandedOutOneMore(vdevs, done, id, d);
    }
  }

  lemma StepProgress(vdevs: seq<Vdev>, all: Blocks, left: Blocks, shares: map<MsId, Blocks>, errors: nat, id: MsId, allocs: Blocks, e: nat)
    requires IsMetaslab(vdevs, id) && id !in shares && Progress(vdevs, all, left, shares, errors)
    requires allocs == Share(vdevs, id, left) == Share(vdevs, id, all) && (e > 0 <==> CrossingAt(vdevs, id, all))
    ensures Progress(vdevs, all, left - allocs.Keys, shares[id := allocs], errors + e)
  {
    CrossingSeenOneMore(vdevs, shares.Keys, id, all);
    LeftOneMore(vdevs, all, left, shares.Keys, id);
    assert shares[id := allocs].Keys == shares.Keys + {id};
  }

  ghost predicate Homed(vdevs: seq<Vdev>, d: Dva) {
    exists id :: IsMetaslab(vdevs, id) && StartsIn(d, id.vdev, Start(vdevs, id), End(vdevs, id))
  }

  /** After the loop, what is left lies on vdevs that are not concrete (as the tool then asserts)
      exactly when no boundary was crossed and every block of a concrete vdev starts in a metaslab. */
  lemma RestIsIndirectIff(vdevs: seq<Vdev>, all: Blocks, left: Blocks, shares: map<MsId, Blocks>, errors: nat)
    requires AllValid(vdevs) && Progress(vdevs, all, left, shares, errors)
    requires forall id :: id in shares <==> IsMetaslab(vdevs, id)
    requires forall d :: d in all ==> d.vdev < |vdevs|
    ensures (forall d :: d in left ==> !vdevs[d.vdev].concrete) <==>
              errors == 0 && (forall d :: d in all && vdevs[d.vdev].concrete ==> Homed(vdevs, d))
  {
    if errors > 0 {
      var id, d :| id in shares && d in all && CrossesMetaslab(vdevs, id, d);
      forall other | other in shares ensures !InMetaslab(vdevs, other, d) {
        CrossingIsNowhere(vdevs, id, other, d);
      }
      assert d in left;
    } else {
      forall d | d in all ensures Homed(vdevs, d) <==> HandedOut(vdevs, shares.Keys, d) {
        if Homed(vdevs, d) {
          var id :| IsMetaslab(vdevs, id) && StartsIn(d, id.vdev, Start(vdevs, id), End(vdevs, id));
          assert id in shares && !CrossesMetaslab(vdevs, id, d);
          assert InMetaslab(vdevs, id, d);
        }
        if HandedOut(vdevs, shares.Keys, d) {
          var id :| id in shares.Keys && InMetaslab(vdevs, id, d);
          assert StartsIn(d, id.vdev, Start(vdevs, id), End(vdevs, id));
        }
      }
    }
  }

  // ----- Comparing a FREE with the blocks handed to its metaslab

  /** The order of the block tree: by vdev, offset and size. */
  predicate Less(a: Dva, b: Dva) {
    a.vdev < b.vdev || (a.vdev == b.vdev && (a.offset < b.offset || (a.offset == b.offset && a.asize < b.asize)))
  }

  ghost predicate Sorted(tree: seq<Dva>) {
    forall i, j :: 0 <= i < j < |tree| ==> Less(tree[i], tree[j])
  }

  /** A block recorded as allocated no later than the FREE is reported, if the scan reaches it. */
  predicate Stale(blocks: Blocks, d: Dva, txg: nat) {
    d in blocks && blocks[d] <= txg
  }

  predicate Scanned(d: Dva, v: nat, offset: nat, size: nat) {
    d.vdev == v && !Less(d, Dva(v, offset, size)) && d.offset < offset + size
  }

  /** The scan starts at the place of the FREE's own extent in the tree and goes on while blocks
      start before its end. */
  method VerifyLivelistAllocs(tree: seq<Dva>, blocks: Blocks, v: nat, offset: nat, size: nat, txg: nat) returns (reports: seq<Dva>)
    requires Sorted(tree) && forall d :: d in tree ==> d in blocks
    ensures forall d :: d in reports <==> d in tree && Scanned(d, v, offset, size) && Stale(blocks, d, txg)
  {
    reports := [];
    var i := 0;
    while i < |tree| && Less(tree[i], Dva(v, offset, size))
      invariant 0 <= i <= |tree|
      invariant forall j :: 0 <= j < i ==> Less(tree[j], Dva(v, offset, size))
    {
      i := i + 1;
    }
    ghost var from := i;
    while i < |tree| && tree[i].vdev == v && tree[i].offset < offset + size
      invariant from <= i <= |tree|
      invariant forall j :: from <= j < i ==> Scanned(tree[j], v, offset, size)
      invariant forall d :: d in reports <==> exists j :: from <= j < i && tree[j] == d && Stale(blocks, d, txg)
    {
      if blocks[tree[i]] <= txg {
        reports := reports + [tree[i]];
      }
      i := i + 1;
    }
    assert forall j :: i <= j < |tree| ==> !Scanned(tree[j], v, offset, size);
  }

  /** A block that falls within the freed extent. */
  predicate FallsWithin(d: Dva, v: nat, offset: nat, size: nat) {
    d.vdev == v && offset <= d.offset < offset + size && d.offset + d.asize <= offset + size
  }

  /** A FREE that covers two adjoining blocks misses the first of them: its key sorts after it. */
  lemma ScanMissesCondensedFree()
    ensures FallsWithin(Dva(0, 0, 1), 0, 0, 2) && !Scanned(Dva(0, 0, 1), 0, 0, 2)
    ensures FallsWithin(Dva(0, 1, 1), 0, 0, 2) && Scanned(Dva(0, 1, 1), 0, 0, 2)
  {
  }

  /** Every stale block within the freed extent is scanned exactly when no stale block begins at
      the extent's own offset and is shorter than it. */
  lemma ScanCompleteIff(blocks: Blocks, v: nat, offset: nat, size: nat, txg: nat)
    ensures (forall d :: Stale(blocks, d, txg) && FallsWithin(d, v, offset, size) ==> Scanned(d, v, offset, size)) <==>
            !exists asize: nat :: asize < size && Stale(blocks, Dva(v, offset, asize), txg)
  {
    if asize: nat :| asize < size && Stale(blocks, Dva(v, offset, asize), txg) {
      assert FallsWithin(Dva(v, offset, asize), v, offset, size);
    }
    if d :| Stale(blocks, d, txg) && FallsWithin(d, v, offset, size) && !Scanned(d, v, offset, size) {
      assert Stale(blocks, Dva(v, offset, d.asize), txg);
    }
  }
}
