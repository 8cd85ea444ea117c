/**
 Leak detection on a pool: the trees that the space maps and the unflushed log
 load, the allocation that the statistics and the unflushed space give, and the
 claims of all references, put together.
 */
module LeakDetection {
  import opened Basics
  import opened RangeTree
  import opened Spacemap
  import opened SpacemapLoad
  import Accounting = BlockAccounting
  import Livelist

  /** Metaslabs are of one size and follow one another. */
  ghost predicate LaidOut(pool: Pool) {
    forall id :: IsMetaslab(pool, id) ==>
      MsOf(pool, id).start == id.ms * pool[id.vdev].msSize && MsOf(pool, id).size == pool[id.vdev].msSize
  }

  ghost predicate EntriesInPlace(pool: Pool, log: seq<LogEntry>)
    requires WellPlaced(pool, log)
  {
    forall id :: IsMetaslab(pool, id) ==> InBounds(MsOf(pool, id), Taken(pool, id, log))
  }

  /** All bytes of all trees, by vdev and offset. */
  function PoolBytes(trees: Trees): set<Accounting.Byte> {
    set id, x | id in trees && x in trees[id] :: Accounting.Byte(id.vdev, x)
  }

  ghost predicate InTheirBoxes(pool: Pool, trees: Trees) {
    forall id :: id in trees ==> IsMetaslab(pool, id) && trees[id] <= Box(MsOf(pool, id))
  }

  lemma OneBox(pool: Pool, a: MsId, b: MsId, x: nat)
    requires LaidOut(pool) && IsMetaslab(pool, a) && IsMetaslab(pool, b) && a.vdev == b.vdev
    requires x in Box(MsOf(pool, a)) && x in Box(MsOf(pool, b))
    ensures a == b
  {
    if a.ms < b.ms {
      NextMultiple(a.ms, b.ms, pool[a.vdev].msSize);
    } else if b.ms < a.ms {
      NextMultiple(b.ms, a.ms, pool[a.vdev].msSize);
    }
  }

  ghost function ToBytes(s: set<(MsId, nat)>): set<Accounting.Byte> {
    set p | p in s :: Accounting.Byte(p.0.vdev, p.1)
  }

  ghost predicate ToldApart(s: set<(MsId, nat)>) {
    forall p, q :: p in s && q in s && p.0.vdev == q.0.vdev && p.1 == q.1 ==> p == q
  }

  lemma {:induction false} ToBytesSize(s: set<(MsId, nat)>)
    requires ToldApart(s)
    ensures |ToBytes(s)| == |s|
  {
    if s == {} {
      assert ToBytes(s) == {};
    } else {
      var p :| p in s;
      ToBytesSize(s - {p});
      assert ToBytes(s) == ToBytes(s - {p}) + {Accounting.Byte(p.0.vdev, p.1)};
    }
  }

  /** Metaslabs do not overlap, so no byte is in two trees. */
  lemma PoolBytesSize(pool: Pool, trees: Trees)
    requires LaidOut(pool) && InTheirBoxes(pool, trees)
    ensures |PoolBytes(trees)| == |AllBytes(trees)|
  {
    var s := AllBytes(trees);
    forall p, q | p in s && q in s && p.0.vdev == q.0.vdev && p.1 == q.1 ensures p == q {
      OneBox(pool, p.0, q.0, p.1);
    }
    ToBytesSize(s);
    forall b | b in PoolBytes(trees) ensures b in ToBytes(s) {
      var id, x :| id in trees && x in trees[id] && b == Accounting.Byte(id.vdev, x);
      assert (id, x) in s;
    }
    assert PoolBytes(trees) == ToBytes(s);
  }

  /** The trees are those that the pool loads as allocated. */
  ghost predicate AreLoaded(pool: Pool, log: seq<LogEntry>, trees: Trees)
    requires WellPlaced(pool, log)
  {
    && OneTreeEach(pool, trees)
    && forall id :: id in trees ==> Loads(pool, Alloc, log, id) && trees[id] == LoadedAs(pool, Alloc, log, id)
  }

  lemma LoadedInBoxes(pool: Pool, log: seq<LogEntry>, trees: Trees)
    requires WellPlaced(pool, log) && AreLoaded(pool, log, trees) && EntriesInPlace(pool, log)
    ensures InTheirBoxes(pool, trees)
  {
    forall id | id in trees ensures trees[id] <= Box(MsOf(pool, id)) {
      var ms, taken := MsOf(pool, id), Taken(pool, id, log);
      SeeAllAlloc(SmEntries(ms));
      SeeAllAlloc(taken);
      ComplementReplay(ms, {}, SmEntries(ms));
      ComplementReplay(ms, SmLoaded(pool, Alloc, id), taken);
    }
  }

  lemma OwnPart(pool: Pool, log: seq<LogEntry>, trees: Trees) returns (own: Trees)
    requires WellPlaced(pool, log) && AreLoaded(pool, log, trees)
    ensures OwnTrees(pool, own) && own.Keys == trees.Keys && EachClean(pool, Alloc, own, log)
    ensures forall id :: id in own ==> trees[id] == Replay(own[id], SeeAll(Alloc, Taken(pool, id, log)))
  {
    own := map id | id in trees :: SmLoaded(pool, Alloc, id);
  }

  lemma OwnThenLog(pool: Pool, log: seq<LogEntry>, own: Trees, trees: Trees)
    requires WellPlaced(pool, log) && own.Keys == trees.Keys
    requires forall id :: id in own ==> trees[id] == Replay(own[id], SeeAll(Alloc, Taken(pool, id, log)))
    ensures ApplyLog(pool, Alloc, own, log) == trees
  {
    var applied := ApplyLog(pool, Alloc, own, log);
    forall id | id in own ensures applied[id] == trees[id] {
      LogActsOn(pool, Alloc, own, log, id);
    }
  }

  /** Statistics and unflushed space add up to what is in the trees. */
  lemma LoadedTotal(pool: Pool, log: seq<LogEntry>, trees: Trees)
    requires WellPlaced(pool, log) && AreLoaded(pool, log, trees)
    ensures |AllBytes(trees)| == Allocated(pool, |pool|, 0) + UnflushedSpace(pool, log)
  {
    var own := OwnPart(pool, log, trees);
    LogCleanPerMetaslab(pool, Alloc, own, log);
    OwnThenLog(pool, log, own, trees);
    TotalAllocIsLoaded(pool, own, log);
  }

  /** The byte loads as allocated. */
  ghost predicate IsLoaded(pool: Pool, log: seq<LogEntry>, b: Accounting.Byte)
    requires WellPlaced(pool, log)
  {
    exists id :: IsMetaslab(pool, id) && id.vdev == b.vdev && b.at in LoadedAs(pool, Alloc, log, id)
  }

  /** The whole leak check. Given that the space maps' statistics `smAlloc` are right, "no leaks" is
      said exactly when every byte that loads as allocated is in the checkpoint's or a claimed extent. */
  method CheckLeaks(pool: Pool, log: seq<LogEntry>, env: Accounting.Env, checkpoint: seq<Livelist.Dva>, refs: seq<Accounting.Ref>, smAlloc: int)
    returns (loaded: bool, bytes: set<Accounting.Byte>, ok: bool, noLeaks: bool)
    requires WellPlaced(pool, log) && forall id :: IsMetaslab(pool, id) ==> NoEmptyRuns(SmEntries(MsOf(pool, id)))
    requires LaidOut(pool) && EntriesInPlace(pool, log) && env.leak && smAlloc == Allocated(pool, |pool|, 0)
    ensures loaded <==> forall id :: IsMetaslab(pool, id) ==> Loads(pool, Alloc, log, id)
    ensures loaded ==> forall b :: b in bytes <==> IsLoaded(pool, log, b)
    ensures loaded ==> (ok <==> Accounting.Takes(bytes, checkpoint + Accounting.ClaimedDvas(Accounting.CountAll(env, refs).claims)))
    ensures loaded && ok ==>
              (noLeaks <==> forall b :: IsLoaded(pool, log, b) ==>
                 Accounting.Covered(checkpoint + Accounting.ClaimedDvas(Accounting.CountAll(env, refs).claims), b))
  {
    bytes, ok, noLeaks := {}, false, false;
    var t := new AllocatableTrees();
    loaded := t.Load(pool, Alloc, log);
    if !loaded {
      return;
    }
    bytes := PoolBytes(t.trees);
    LoadedInBoxes(pool, log, t.trees);
    PoolBytesSize(pool, t.trees);
    LoadedTotal(pool, log, t.trees);
    var unflushed := CountUnflushedSpace(pool, log);
    var census := new Accounting.Census(env, bytes);
    ok, noLeaks := census.LeakCheck(checkpoint, refs, smAlloc + unflushed);
    if ok {
      NothingLeft(bytes, checkpoint + Accounting.ClaimedDvas(Accounting.CountAll(env, refs).claims));
    }
  }

  lemma NothingLeft(bytes: set<Accounting.Byte>, ds: seq<Livelist.Dva>)
    ensures Accounting.Rest(bytes, ds) == {} <==> forall b :: b in bytes ==> Accounting.Covered(ds, b)
  {
    forall b | b in bytes ensures b in Accounting.Rest(bytes, ds) <==> !Accounting.Covered(ds, b) {
      Accounting.RestMember(bytes, ds, b);
    }
    forall b ensures b in Accounting.Rest(bytes, ds) ==> b in bytes {
      Accounting.RestMember(bytes, ds, b);
    }
  }
}
