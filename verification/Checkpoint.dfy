/**
 The checkpoint check: everything allocated in the checkpoint should still be
 allocated now. The tool walks the allocated runs of the checkpoint and panics
 when a run is present in the current free tree.
 */
module Checkpoint {
  import opened Basics
  import opened RangeTree
  import opened Spacemap
  import opened SpacemapLoad

  /** `range_tree_verify_not_present`: panics only if one free segment holds the whole run. */
  method VerifyNotPresent(free: Tree, start: nat, size: nat) returns (ok: bool)
    requires free.Valid() && size > 0
    ensures ok <==> !(Interval(start, start + size) <= free.Contents)
  {
    var found := free.Contains(start, size);
    ok := !found;
  }

  /** No run of `was` is free from end to end. */
  ghost predicate NoRunFreed(was: set<nat>, free: set<nat>) {
    forall a, b :: IsRun(was, a, b) ==> !(Interval(a, b) <= free)
  }

  /** Walk the checkpoint's allocated tree against the current free tree of the same metaslab. */
  method WalkMetaslab(was: Tree, free: Tree) returns (ok: bool)
    requires was.Valid() && free.Valid()
    ensures ok <==> NoRunFreed(was.Contents, free.Contents)
  {
    ok := true;
    var i := 0;
    while i < |was.segs|
      invariant 0 <= i <= |was.segs|
      invariant forall j :: 0 <= j < i ==> !(Interval(was.segs[j].start, was.segs[j].end) <= free.Contents)
    {
      var g := was.segs[i];
      ok := VerifyNotPresent(free, g.start, g.end - g.start);
      if !ok {
        SegmentsAreRuns(was.segs, g.start, g.end);
        return;
      }
      i := i + 1;
    }
    ok := true;
    forall a: nat, b: nat | IsRun(was.Contents, a, b) ensures !(Interval(a, b) <= free.Contents) {
      SegmentsAreRuns(was.segs, a, b);
    }
  }

  method TreeOf(s: set<nat>) returns (t: Tree)
    ensures t.Valid() && fresh(t) && t.Contents == s
  {
    t := new Tree();
    var rest := s;
    while rest != {}
      invariant t.Valid() && fresh(t) && rest <= s && t.Contents == s - rest
      decreases |rest|
    {
      var x :| x in rest;
      assert Interval(x, x + 1) == {x};
      var ok := t.Add(x, 1);
      rest := rest - {x};
    }
  }

  /** Checkpoint and current pool have the same vdevs and metaslabs. */
  ghost predicate SameShape(checkpoint: Pool, current: Pool) {
    forall id :: IsMetaslab(checkpoint, id) <==> IsMetaslab(current, id)
  }

  /** What the walk finds in one metaslab: `was` is allocated in the checkpoint, `free` is free now. */
  ghost predicate Passes(checkpoint: Pool, log: seq<LogEntry>, current: Pool, log': seq<LogEntry>, id: MsId)
    requires WellPlaced(checkpoint, log) && WellPlaced(current, log') && IsMetaslab(checkpoint, id) && IsMetaslab(current, id)
  {
    NoRunFreed(LoadedAs(checkpoint, Alloc, log, id), LoadedAs(current, Free, log', id))
  }

  /** The whole check: load the checkpoint as allocated and the current pool as free space, then walk
      all metaslabs of the concrete vdevs. */
  method VerifyCheckpoint(checkpoint: Pool, log: seq<LogEntry>, current: Pool, log': seq<LogEntry>) returns (loaded: bool, ok: bool)
    requires WellPlaced(checkpoint, log) && WellPlaced(current, log') && SameShape(checkpoint, current)
    requires forall id :: IsMetaslab(checkpoint, id) ==> NoEmptyRuns(SmEntries(MsOf(checkpoint, id)))
    requires forall id :: IsMetaslab(current, id) ==> NoEmptyRuns(SmEntries(MsOf(current, id)))
    ensures loaded <==> forall id :: IsMetaslab(checkpoint, id) ==> Loads(checkpoint, Alloc, log, id) && Loads(current, Free, log', id)
    ensures loaded ==> (ok <==> forall id :: IsMetaslab(checkpoint, id) ==> Passes(checkpoint, log, current, log', id))
  {
    ok := false;
    var was := new AllocatableTrees();
    var free := new AllocatableTrees();
    loaded := was.Load(checkpoint, Alloc, log);
    if !loaded {
      return;
    }
    loaded := free.Load(current, Free, log');
    if !loaded {
      return;
    }
    ok := WalkAll(checkpoint, was.trees, free.trees);
  }

  /** All metaslabs of the concrete vdevs in turn. */
  method WalkAll(pool: Pool, was: Trees, free: Trees) returns (ok: bool)
    requires forall id :: IsMetaslab(pool, id) ==> id in was && id in free
    ensures ok <==> forall id :: IsMetaslab(pool, id) ==> NoRunFreed(was[id], free[id])
  {
    var v := 0;
    while v < |pool|
      invariant 0 <= v <= |pool|
      invariant forall id :: IsMetaslab(pool, id) && id.vdev < v ==> NoRunFreed(was[id], free[id])
    {
      var m := 0;
      while pool[v].concrete && m < |pool[v].ms|
        invariant 0 <= m <= |pool[v].ms|
        invariant forall id :: IsMetaslab(pool, id) && (id.vdev < v || (id.vdev == v && id.ms < m)) ==> NoRunFreed(was[id], free[id])
      {
        var id := MsId(v, m);
        var a := TreeOf(was[id]);
        var f := TreeOf(free[id]);
        ok := WalkMetaslab(a, f);
        if !ok {
          return;
        }
        m := m + 1;
      }
      v := v + 1;
    }
    ok := true;
  }

  // ----- What the walk decides

  lemma {:induction false} RunEnd(s: set<nat>, a: nat) returns (b: nat)
    requires a in s
    ensures a < b && Interval(a, b) <= s && b !in s
    decreases s
  {
    if a + 1 in s {
      b := RunEnd(s - {a}, a + 1);
      assert Interval(a, b) == {a} + Interval(a + 1, b);
    } else {
      b := a + 1;
      assert Interval(a, b) == {a};
    }
  }

  /** Every member of a set lies in one of its runs. */
  lemma {:induction false} RunAround(s: set<nat>, x: nat) returns (a: nat, b: nat)
    requires x in s
    ensures IsRun(s, a, b) && a <= x < b
    decreases x
  {
    if x > 0 && x - 1 in s {
      a, b := RunAround(s, x - 1);
    } else {
      a := x;
      b := RunEnd(s, x);
    }
  }

  /** With the free tree the complement of what is allocated now, the walk passes exactly when
      every allocated run of the checkpoint has kept at least one allocated byte. */
  lemma WalkPassesIff(box: set<nat>, was: set<nat>, now: set<nat>)
    requires was <= box && now <= box
    ensures NoRunFreed(was, box - now) <==> forall a, b :: IsRun(was, a, b) ==> Interval(a, b) * now != {}
  {
    forall a: nat, b: nat | IsRun(was, a, b) ensures Interval(a, b) <= box - now <==> Interval(a, b) * now == {} {
      assert Interval(a, b) <= box;
      if Interval(a, b) * now == {} {
        forall x | x in Interval(a, b) ensures x in box - now {
          assert x !in Interval(a, b) * now;
        }
      }
    }
  }

  /** So, of a metaslab that has a space map now: it passes exactly when every allocated run of the
      checkpoint has kept an allocated byte. One that has none now passes whatever was in it. */
  lemma MetaslabPassesIff(checkpoint: Pool, log: seq<LogEntry>, current: Pool, log': seq<LogEntry>, id: MsId)
    requires WellPlaced(checkpoint, log) && WellPlaced(current, log') && IsMetaslab(checkpoint, id) && IsMetaslab(current, id)
    requires BothLoad(current, log', id) && InBounds(MsOf(current, id), Taken(current, id, log')) && MsOf(current, id).size > 0
    requires LoadedAs(checkpoint, Alloc, log, id) <= Box(MsOf(current, id))
    ensures MsOf(current, id).sm.Some? ==>
              (Passes(checkpoint, log, current, log', id) <==>
               forall a, b :: IsRun(LoadedAs(checkpoint, Alloc, log, id), a, b) ==> Interval(a, b) * LoadedAs(current, Alloc, log', id) != {})
    ensures MsOf(current, id).sm.None? ==> Passes(checkpoint, log, current, log', id)
  {
    ComplementIffSpaceMap(current, log', id);
    if MsOf(current, id).sm.Some? {
      WalkPassesIff(Box(MsOf(current, id)), LoadedAs(checkpoint, Alloc, log, id), LoadedAs(current, Alloc, log', id));
    } else {
      NoSpaceMapLoadsEmpty(current, log', id);
      forall a: nat, b: nat | IsRun(LoadedAs(checkpoint, Alloc, log, id), a, b) ensures !(Interval(a, b) <= {}) {
        assert a in Interval(a, b);
      }
    }
  }

  /** What the check is for. */
  ghost predicate StillAllocated(was: set<nat>, now: set<nat>) {
    was <= now
  }

  /** A run of the checkpoint that is free in part, but not from end to end. */
  ghost predicate PartlyFreed(was: set<nat>, free: set<nat>, a: nat, b: nat) {
    IsRun(was, a, b) && Interval(a, b) * free != {} && !(Interval(a, b) <= free)
  }

  /** A pool of one metaslab of two bytes. */
  function TwoBytes(es: seq<Entry>): Pool { [Vdev(true, 2, [Metaslab(0, 2, Some(es), 0)])] }

  lemma LoadedTwoBytes(kind: Kind, es: seq<Entry>)
    requires InBounds(Metaslab(0, 2, Some(es), 0), es) && Clean(Base(Metaslab(0, 2, Some(es), 0), kind), SeeAll(kind, es))
    ensures IsMetaslab(TwoBytes(es), MsId(0, 0)) && Loads(TwoBytes(es), kind, [], MsId(0, 0))
    ensures LoadedAs(TwoBytes(es), kind, [], MsId(0, 0)) == Replay(Base(Metaslab(0, 2, Some(es), 0), kind), SeeAll(kind, es))
  {
    assert SeeAll(kind, Taken(TwoBytes(es), MsId(0, 0), [])) == [];
  }

  /** One entry, and one more that undoes half of it. */
  lemma TwoEntries(base: set<nat>, a: Entry, b: Entry)
    ensures Clean(base, [a]) <==> Fits(base, a)
    ensures Replay(base, [a]) == After(base, a)
    ensures Clean(base, [a, b]) <==> Fits(base, a) && Fits(After(base, a), b)
    ensures Replay(base, [a, b]) == After(After(base, a), b)
  {
    assert [a][..0] == [] && [a, b][..1] == [a];
  }

  lemma HalfFreedPasses()
    ensures NoRunFreed({0, 1}, {1})
  {
    forall a: nat, b: nat | IsRun({0, 1}, a, b) ensures !(Interval(a, b) <= {1}) {
      assert a in Interval(a, b);
      assert a == 1 ==> a - 1 in {0, 1};
    }
  }

  /** The walk is not the check it is meant to be. The checkpoint has a run of two bytes, since then
      the second was freed: all loads go through and the metaslab passes. */
  lemma WalkMissesPartialFree()
    ensures var was, now, id := TwoBytes([Entry(Alloc, 0, 0, 2)]), TwoBytes([Entry(Alloc, 0, 0, 2), Entry(Free, 0, 1, 1)]), MsId(0, 0);
            && WellPlaced(was, []) && WellPlaced(now, []) && SameShape(was, now) && IsMetaslab(was, id) && IsMetaslab(now, id)
            && Loads(was, Alloc, [], id) && BothLoad(now, [], id)
            && Passes(was, [], now, [], id)
            && !StillAllocated(LoadedAs(was, Alloc, [], id), LoadedAs(now, Alloc, [], id))
  {
    var a, f := Entry(Alloc, 0, 0, 2), Entry(Free, 0, 1, 1);
    assert Interval(0, 2) == {0, 1} && Interval(1, 2) == {1};
    assert SeeAll(Alloc, [a]) == [a] && SeeAll(Alloc, [a, f]) == [a, f] && SeeAll(Free, [a, f]) == [See(Free, a), See(Free, f)];
    TwoEntries({}, a, f);
    TwoEntries({0, 1}, See(Free, a), See(Free, f));
    LoadedTwoBytes(Alloc, [a]);
    LoadedTwoBytes(Alloc, [a, f]);
    LoadedTwoBytes(Free, [a, f]);
    HalfFreedPasses();
  }

  /** A passing walk is sound whenever nothing allocated in the checkpoint was freed; it always
      passes then. */
  lemma StillAllocatedPasses(box: set<nat>, was: set<nat>, now: set<nat>)
    requires was <= box && now <= box && StillAllocated(was, now)
    ensures NoRunFreed(was, box - now)
  {
    forall a: nat, b: nat | IsRun(was, a, b) ensures !(Interval(a, b) <= box - now) {
      assert a in Interval(a, b);
      assert a in was;
    }
  }

  /** A walk that fails is always right. */
  lemma FailingWalkIsRight(box: set<nat>, was: set<nat>, now: set<nat>)
    requires was <= box && now <= box && !NoRunFreed(was, box - now)
    ensures !StillAllocated(was, now)
  {
    if StillAllocated(was, now) {
      StillAllocatedPasses(box, was, now);
    }
  }

  /** A walk that passes is right exactly when no run is partly freed. */
  lemma PassingWalkIsRightIff(box: set<nat>, was: set<nat>, now: set<nat>)
    requires was <= box && now <= box && NoRunFreed(was, box - now)
    ensures StillAllocated(was, now) <==> forall a, b :: !PartlyFreed(was, box - now, a, b)
  {
    if StillAllocated(was, now) {
      forall a, b ensures !PartlyFreed(was, box - now, a, b) {
        assert IsRun(was, a, b) ==> Interval(a, b) <= was;
      }
    } else {
      var x :| x in was && x !in now;
      var a, b := RunAround(was, x);
      assert x in Interval(a, b) * (box - now);
      assert PartlyFreed(was, box - now, a, b);
    }
  }

  ghost predicate RightFor(box: set<nat>, was: set<nat>, now: set<nat>) {
    NoRunFreed(was, box - now) <==> StillAllocated(was, now)
  }

  /** Whatever is allocated now, the walk is right: for that, every allocated run of the checkpoint
      must be a single unit, and that is enough. */
  lemma AlwaysRightIff(box: set<nat>, was: set<nat>)
    requires was <= box
    ensures (forall now: set<nat> :: now <= box ==> RightFor(box, was, now)) <==>
            (forall a, b :: IsRun(was, a, b) ==> b == a + 1)
  {
    if forall a, b :: IsRun(was, a, b) ==> b == a + 1 {
      forall now: set<nat> | now <= box ensures RightFor(box, was, now) {
        SingleUnitsAreRight(box, was, now);
      }
    } else {
      var a, b :| IsRun(was, a, b) && b != a + 1;
      LongRunIsMissed(box, was, a, b);
      assert box - {a} <= box;
    }
  }

  lemma SingleUnitsAreRight(box: set<nat>, was: set<nat>, now: set<nat>)
    requires was <= box && now <= box && forall a, b :: IsRun(was, a, b) ==> b == a + 1
    ensures RightFor(box, was, now)
  {
    if NoRunFreed(was, box - now) {
      forall x | x in was ensures x in now {
        var a, b := RunAround(was, x);
        assert Interval(a, b) == {x};
      }
    } else {
      FailingWalkIsRight(box, was, now);
    }
  }

  /** Freeing the first unit of a longer run, and nothing else, goes unnoticed. */
  lemma LongRunIsMissed(box: set<nat>, was: set<nat>, a: nat, b: nat)
    requires was <= box && IsRun(was, a, b) && b != a + 1
    ensures !RightFor(box, was, box - {a})
  {
    var now := box - {a};
    assert a in Interval(a, b) && a in was;
    assert box - now == {a};
    forall c: nat, d: nat | IsRun(was, c, d) ensures !(Interval(c, d) <= {a}) {
      assert c in Interval(c, d);
      if c == a {
        assert a + 1 in Interval(a, b);
        assert d != a + 1;
        assert a + 1 in Interval(c, d);
      }
    }
  }
}
