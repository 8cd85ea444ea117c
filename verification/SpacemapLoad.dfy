/**
 Loading the `ms_allocatable` trees of a pool: each metaslab's own space map,
 then the unflushed log space maps on top. The same entries can be loaded as
 allocated space (SM_ALLOC) or as free space (SM_FREE).
 */
module SpacemapLoad {
  import opened Basics
  import opened RangeTree
  import opened Spacemap

  datatype Metaslab = Metaslab(start: nat, size: nat, sm: Option<seq<Entry>>, unflushedTxg: nat)

  /** Metaslab `m` of a vdev is the one that offsets `m * msSize ..` fall into. */
  datatype Vdev = Vdev(concrete: bool, msSize: nat, ms: seq<Metaslab>)

  /** The log space maps in txg order, entry by entry; each entry carries the txg of its log. */
  datatype LogEntry = LogEntry(e: Entry, txg: nat)

  datatype MsId = MsId(vdev: nat, ms: nat)

  type Pool = seq<Vdev>
  type Trees = map<MsId, set<nat>>

  function Box(ms: Metaslab): set<nat> {
    Interval(ms.start, ms.start + ms.size)
  }

  predicate IsMetaslab(pool: Pool, id: MsId) {
    id.vdev < |pool| && pool[id.vdev].concrete && id.ms < |pool[id.vdev].ms|
  }

  function MsOf(pool: Pool, id: MsId): Metaslab
    requires IsMetaslab(pool, id)
  {
    pool[id.vdev].ms[id.ms]
  }

  /** A log entry names a vdev of the pool and, if that is concrete, one of its metaslabs. */
  predicate Placed(pool: Pool, le: LogEntry) {
    && le.e.vdev < |pool|
    && pool[le.e.vdev].msSize > 0
    && (pool[le.e.vdev].concrete ==> le.e.offset / pool[le.e.vdev].msSize < |pool[le.e.vdev].ms|)
  }

  ghost predicate WellPlaced(pool: Pool, log: seq<LogEntry>) {
    forall i :: 0 <= i < |log| ==> Placed(pool, log[i])
  }

  function Home(pool: Pool, le: LogEntry): MsId
    requires Placed(pool, le)
  {
    MsId(le.e.vdev, le.e.offset / pool[le.e.vdev].msSize)
  }

  /** Entries of vdevs that are not concrete, and those already flushed, are skipped. */
  predicate Applies(pool: Pool, le: LogEntry)
    requires Placed(pool, le)
  {
    pool[le.e.vdev].concrete && le.txg >= pool[le.e.vdev].ms[Home(pool, le).ms].unflushedTxg
  }

  // ----- One entry seen through a map type

  /** Loading free space adds what is freed and removes what is allocated. */
  function See(kind: Kind, e: Entry): Entry {
    if kind == Alloc then e else e.(kind := if e.kind == Alloc then Free else Alloc)
  }

  function SeeAll(kind: Kind, es: seq<Entry>): (r: seq<Entry>)
    ensures |r| == |es| && forall i :: 0 <= i < |es| ==> r[i] == See(kind, es[i])
  {
    seq(|es|, i requires 0 <= i < |es| => See(kind, es[i]))
  }

  /** Free space starts as the whole metaslab, but only when there is a space map to load. */
  function Base(ms: Metaslab, kind: Kind): set<nat> {
    if kind == Free && ms.sm.Some? then Box(ms) else {}
  }

  function SmEntries(ms: Metaslab): seq<Entry> {
    if ms.sm.Some? then ms.sm.value else []
  }

  ghost predicate NoEmptyRuns(es: seq<Entry>) {
    forall i :: 0 <= i < |es| ==> es[i].run > 0
  }

  predicate Within(ms: Metaslab, e: Entry) {
    ms.start <= e.offset && e.offset + e.run <= ms.start + ms.size
  }

  ghost predicate InBounds(ms: Metaslab, es: seq<Entry>) {
    forall i :: 0 <= i < |es| ==> Within(ms, es[i])
  }

  /** Load one metaslab's space map. An entry out of bounds, or one that the tree refuses, panics. */
  method LoadSm(ms: Metaslab, kind: Kind) returns (ok: bool, t: set<nat>)
    requires NoEmptyRuns(SmEntries(ms))
    ensures ok <==> InBounds(ms, SmEntries(ms)) && Clean(Base(ms, kind), SeeAll(kind, SmEntries(ms)))
    ensures ok ==> t == Replay(Base(ms, kind), SeeAll(kind, SmEntries(ms)))
  {
    t, ok := Base(ms, kind), true;
    var es, seen := SmEntries(ms), SeeAll(kind, SmEntries(ms));
    var n := 0;
    while n < |es|
      invariant 0 <= n <= |es|
      invariant forall i :: 0 <= i < n ==> Within(ms, es[i])
      invariant Clean(Base(ms, kind), seen[..n]) && t == Replay(Base(ms, kind), seen[..n])
    {
      NextEntry(Base(ms, kind), seen, n);
      if !Within(ms, es[n]) || !Fits(t, seen[n]) {
        return false, t;
      }
      t := After(t, seen[n]);
      n := n + 1;
    }
    assert seen[..n] == seen;
  }

  // ----- The unflushed log over all trees

  predicate LogStepOk(pool: Pool, kind: Kind, trees: Trees, le: LogEntry)
    requires Placed(pool, le)
  {
    Applies(pool, le) ==> Home(pool, le) in trees && Fits(trees[Home(pool, le)], See(kind, le.e))
  }

  function LogStep(pool: Pool, kind: Kind, trees: Trees, le: LogEntry): Trees
    requires Placed(pool, le)
  {
    var id := Home(pool, le);
    if Applies(pool, le) && id in trees then trees[id := After(trees[id], See(kind, le.e))] else trees
  }

  ghost function ApplyLog(pool: Pool, kind: Kind, trees: Trees, log: seq<LogEntry>): (r: Trees)
    requires WellPlaced(pool, log)
    ensures r.Keys == trees.Keys
  {
    if log == [] then trees
    else LogStep(pool, kind, ApplyLog(pool, kind, trees, log[..|log|-1]), log[|log|-1])
  }

  ghost predicate LogClean(pool: Pool, kind: Kind, trees: Trees, log: seq<LogEntry>)
    requires WellPlaced(pool, log)
  {
    || log == []
    || (&& LogClean(pool, kind, trees, log[..|log|-1])
        && LogStepOk(pool, kind, ApplyLog(pool, kind, trees, log[..|log|-1]), log[|log|-1]))
  }

  /** The entries of the log that metaslab `id` takes, in order. */
  ghost function Taken(pool: Pool, id: MsId, log: seq<LogEntry>): seq<Entry>
    requires WellPlaced(pool, log)
  {
    if log == [] then []
    else
      var le := log[|log|-1];
      Taken(pool, id, log[..|log|-1]) + (if Applies(pool, le) && Home(pool, le) == id then [le.e] else [])
  }

  lemma SeeAllAppend(kind: Kind, es: seq<Entry>, e: Entry)
    ensures SeeAll(kind, es + [e]) == SeeAll(kind, es) + [See(kind, e)]
  {
  }

  lemma NextLogEntry(pool: Pool, kind: Kind, trees: Trees, log: seq<LogEntry>, n: nat)
    requires WellPlaced(pool, log) && n < |log|
    ensures ApplyLog(pool, kind, trees, log[..n+1]) == LogStep(pool, kind, ApplyLog(pool, kind, trees, log[..n]), log[n])
    ensures LogClean(pool, kind, trees, log[..n+1]) <==>
            LogClean(pool, kind, trees, log[..n]) && LogStepOk(pool, kind, ApplyLog(pool, kind, trees, log[..n]), log[n])
    ensures !LogClean(pool, kind, trees, log[..n+1]) ==> !LogClean(pool, kind, trees, log)
  {
    assert log[..n+1][..n] == log[..n];
    if LogClean(pool, kind, trees, log) {
      LogCleanPrefix(pool, kind, trees, log, n + 1);
    }
  }

  lemma {:induction false} LogCleanPrefix(pool: Pool, kind: Kind, trees: Trees, log: seq<LogEntry>, n: nat)
    requires WellPlaced(pool, log) && n <= |log| && LogClean(pool, kind, trees, log)
    ensures LogClean(pool, kind, trees, log[..n])
    decreases |log|
  {
    if n == |log| {
      assert log[..n] == log;
    } else {
      LogCleanPrefix(pool, kind, trees, log[..|log|-1], n);
      assert log[..|log|-1][..n] == log[..n];
    }
  }

  /** Entries of different metaslabs do not interfere: on each tree the interleaved log acts as
      that metaslab's own entries alone would. */
  lemma {:induction false} LogActsOn(pool: Pool, kind: Kind, trees: Trees, log: seq<LogEntry>, id: MsId)
    requires WellPlaced(pool, log) && id in trees
    ensures ApplyLog(pool, kind, trees, log)[id] == Replay(trees[id], SeeAll(kind, Taken(pool, id, log)))
  {
    if log == [] {
      assert SeeAll(kind, Taken(pool, id, log)) == [];
    } else {
      var n := |log| - 1;
      LogActsOn(pool, kind, trees, log[..n], id);
      if Applies(pool, log[n]) && id == Home(pool, log[n]) {
        SeeAllAppend(kind, Taken(pool, id, log[..n]), log[n].e);
        CleanStep(trees[id], SeeAll(kind, Taken(pool, id, log[..n])), See(kind, log[n].e));
      } else {
        assert Taken(pool, id, log) == Taken(pool, id, log[..n]);
      }
    }
  }

  /** What one more log entry means for the entries that metaslab `id` takes. */
  lemma LogCleanOn(pool: Pool, kind: Kind, trees: Trees, log: seq<LogEntry>, id: MsId)
    requires WellPlaced(pool, log) && log != [] && id in trees
    ensures var n := |log| - 1;
            Clean(trees[id], SeeAll(kind, Taken(pool, id, log))) <==>
              && Clean(trees[id], SeeAll(kind, Taken(pool, id, log[..n])))
              && (Home(pool, log[n]) == id ==> LogStepOk(pool, kind, ApplyLog(pool, kind, trees, log[..n]), log[n]))
  {
    var n := |log| - 1;
    var taken := Taken(pool, id, log[..n]);
    LogActsOn(pool, kind, trees, log[..n], id);
    if Applies(pool, log[n]) && Home(pool, log[n]) == id {
      SeeAllAppend(kind, taken, log[n].e);
      CleanStep(trees[id], SeeAll(kind, taken), See(kind, log[n].e));
    } else {
      assert Taken(pool, id, log) == taken;
    }
  }

  ghost predicate EachClean(pool: Pool, kind: Kind, trees: Trees, log: seq<LogEntry>)
    requires WellPlaced(pool, log)
  {
    forall id :: id in trees ==> Clean(trees[id], SeeAll(kind, Taken(pool, id, log)))
  }

  /** The log is clean exactly when every metaslab's own entries are. */
  lemma {:induction false} LogCleanPerMetaslab(pool: Pool, kind: Kind, trees: Trees, log: seq<LogEntry>)
    requires WellPlaced(pool, log) && forall id :: IsMetaslab(pool, id) <==> id in trees
    ensures LogClean(pool, kind, trees, log) <==> EachClean(pool, kind, trees, log)
  {
    if log == [] {
      assert forall id :: id in trees ==> SeeAll(kind, Taken(pool, id, log)) == [];
    } else {
      LogCleanPerMetaslab(pool, kind, trees, log[..|log|-1]);
      forall id | id in trees {
        LogCleanOn(pool, kind, trees, log, id);
      }
      assert Applies(pool, log[|log|-1]) ==> IsMetaslab(pool, Home(pool, log[|log|-1]));
    }
  }

  class AllocatableTrees {
    var trees: Trees

    constructor ()
      ensures trees == map[]
    {
      trees := map[];
    }

    /** Vacate every tree and load the space maps of all concrete metaslabs. */
    method LoadSpaceMaps(pool: Pool, kind: Kind) returns (ok: bool)
      requires forall id :: IsMetaslab(pool, id) ==> NoEmptyRuns(SmEntries(MsOf(pool, id)))
      modifies this
      ensures ok <==> forall id :: IsMetaslab(pool, id) ==> SmLoads(pool, kind, id)
      ensures ok ==> forall id :: id in trees <==> IsMetaslab(pool, id)
      ensures ok ==> forall id :: id in trees ==> trees[id] == SmLoaded(pool, kind, id)
    {
      trees := map[];
      var v := 0;
      while v < |pool|
        invariant 0 <= v <= |pool|
        invariant forall id :: id in trees <==> IsMetaslab(pool, id) && id.vdev < v
        invariant forall id :: id in trees ==> SmLoads(pool, kind, id) && trees[id] == SmLoaded(pool, kind, id)
      {
        var m := 0;
        while pool[v].concrete && m < |pool[v].ms|
          invariant 0 <= m <= |pool[v].ms|
          invariant forall id :: id in trees <==> IsMetaslab(pool, id) && (id.vdev < v || (id.vdev == v && id.ms < m))
          invariant forall id :: id in trees ==> SmLoads(pool, kind, id) && trees[id] == SmLoaded(pool, kind, id)
        {
          assert IsMetaslab(pool, MsId(v, m));
          var t;
          ok, t := LoadSm(pool[v].ms[m], kind);
          if !ok {
            assert !SmLoads(pool, kind, MsId(v, m));
            return;
          }
          trees := trees[MsId(v, m) := t];
          m := m + 1;
        }
        v := v + 1;
      }
      ok := true;
    }

    /** Apply the unflushed entries on top. */
    method LoadUnflushed(pool: Pool, kind: Kind, log: seq<LogEntry>) returns (ok: bool)
      requires WellPlaced(pool, log) && forall id :: IsMetaslab(pool, id) <==> id in trees
      modifies this
      ensures ok <==> LogClean(pool, kind, old(trees), log)
      ensures ok ==> trees == ApplyLog(pool, kind, old(trees), log)
    {
      var n := 0;
      while n < |log|
        invariant 0 <= n <= |log|
        invariant LogClean(pool, kind, old(trees), log[..n]) && trees == ApplyLog(pool, kind, old(trees), log[..n])
        invariant trees.Keys == old(trees).Keys
      {
        NextLogEntry(pool, kind, old(trees), log, n);
        var le := log[n];
        if Applies(pool, le) {
          var id := Home(pool, le);
          assert IsMetaslab(pool, id);
          if !Fits(trees[id], See(kind, le.e)) {
            return false;
          }
          trees := trees[id := After(trees[id], See(kind, le.e))];
        }
        n := n + 1;
      }
      assert log[..n] == log;
      ok := true;
    }

    /** The whole load: it goes through exactly when every metaslab's own entries do, and each tree
        is then what those entries alone make of it. */
    method Load(pool: Pool, kind: Kind, log: seq<LogEntry>) returns (ok: bool)
      requires WellPlaced(pool, log) && forall id :: IsMetaslab(pool, id) ==> NoEmptyRuns(SmEntries(MsOf(pool, id)))
      modifies this
      ensures ok <==> forall id :: IsMetaslab(pool, id) ==> Loads(pool, kind, log, id)
      ensures ok ==> forall id :: id in trees <==> IsMetaslab(pool, id)
      ensures ok ==> forall id :: id in trees ==> trees[id] == LoadedAs(pool, kind, log, id)
    {
      ok := LoadSpaceMaps(pool, kind);
      if ok {
        ghost var own := trees;
        LogCleanPerMetaslab(pool, kind, own, log);
        ok := LoadUnflushed(pool, kind, log);
        forall id | id in own ensures ApplyLog(pool, kind, own, log)[id] == LoadedAs(pool, kind, log, id) {
          LogActsOn(pool, kind, own, log, id);
        }
      }
    }
  }

  /** What a metaslab's own space map and its unflushed entries load as, and whether they do. */
  ghost function LoadedAs(pool: Pool, kind: Kind, log: seq<LogEntry>, id: MsId): set<nat>
    requires WellPlaced(pool, log) && IsMetaslab(pool, id)
  {
    Replay(SmLoaded(pool, kind, id), SeeAll(kind, Taken(pool, id, log)))
  }

  ghost predicate Loads(pool: Pool, kind: Kind, log: seq<LogEntry>, id: MsId)
    requires WellPlaced(pool, log) && IsMetaslab(pool, id)
  {
    SmLoads(pool, kind, id) && Clean(SmLoaded(pool, kind, id), SeeAll(kind, Taken(pool, id, log)))
  }

  ghost predicate SmLoads(pool: Pool, kind: Kind, id: MsId)
    requires IsMetaslab(pool, id)
  {
    var ms := MsOf(pool, id);
    InBounds(ms, SmEntries(ms)) && Clean(Base(ms, kind), SeeAll(kind, SmEntries(ms)))
  }

  ghost function SmLoaded(pool: Pool, kind: Kind, id: MsId): set<nat>
    requires IsMetaslab(pool, id)
  {
    Replay(Base(MsOf(pool, id), kind), SeeAll(kind, SmEntries(MsOf(pool, id))))
  }

  // ----- Allocated and free trees are complements

  lemma ComplementStep(ms: Metaslab, s: set<nat>, e: Entry)
    requires s <= Box(ms) && Within(ms, e)
    ensures Fits(s, e) <==> Fits(Box(ms) - s, See(Free, e))
    ensures After(s, e) <= Box(ms)
    ensures Fits(s, e) ==> After(Box(ms) - s, See(Free, e)) == Box(ms) - After(s, e)
  {
    assert Extent(e) <= Box(ms);
    assert Extent(See(Free, e)) == Extent(e);
  }

  lemma {:induction false} ComplementReplay(ms: Metaslab, s: set<nat>, es: seq<Entry>)
    requires s <= Box(ms) && InBounds(ms, es)
    ensures Replay(s, es) <= Box(ms)
    ensures Clean(s, es) <==> Clean(Box(ms) - s, SeeAll(Free, es))
    ensures Clean(s, es) ==> Replay(Box(ms) - s, SeeAll(Free, es)) == Box(ms) - Replay(s, es)
  {
    if es != [] {
      var n := |es| - 1;
      ComplementReplay(ms, s, es[..n]);
      ComplementStep(ms, Replay(s, es[..n]), es[n]);
      assert SeeAll(Free, es)[..n] == SeeAll(Free, es[..n]);
    }
  }

  lemma SeeAllAlloc(es: seq<Entry>)
    ensures SeeAll(Alloc, es) == es
  {
  }

  /** A metaslab that has a space map loads as allocated space exactly when it loads as free
      space, and the two trees then split the metaslab between them, unflushed entries included. */
  lemma LoadedTreesAreComplements(pool: Pool, log: seq<LogEntry>, id: MsId, allocTrees: Trees, freeTrees: Trees)
    requires WellPlaced(pool, log) && IsMetaslab(pool, id) && MsOf(pool, id).sm.Some?
    requires InBounds(MsOf(pool, id), Taken(pool, id, log))
    requires id in allocTrees && id in freeTrees
    requires allocTrees[id] == SmLoaded(pool, Alloc, id) && freeTrees[id] == SmLoaded(pool, Free, id)
    ensures SmLoads(pool, Alloc, id) <==> SmLoads(pool, Free, id)
    ensures SmLoads(pool, Alloc, id) ==>
              (Clean(allocTrees[id], SeeAll(Alloc, Taken(pool, id, log))) <==> Clean(freeTrees[id], SeeAll(Free, Taken(pool, id, log))))
    ensures SmLoads(pool, Alloc, id) && Clean(allocTrees[id], SeeAll(Alloc, Taken(pool, id, log))) ==>
              && ApplyLog(pool, Alloc, allocTrees, log)[id] <= Box(MsOf(pool, id))
              && ApplyLog(pool, Free, freeTrees, log)[id] == Box(MsOf(pool, id)) - ApplyLog(pool, Alloc, allocTrees, log)[id]
  {
    var ms := MsOf(pool, id);
    var es, taken := SmEntries(ms), Taken(pool, id, log);
    SeeAllAlloc(es);
    SeeAllAlloc(taken);
    assert Box(ms) - {} == Box(ms);
    if InBounds(ms, es) {
      ComplementReplay(ms, {}, es);
      ComplementReplay(ms, Replay({}, es), taken);
    }
    LogActsOn(pool, Alloc, allocTrees, log, id);
    LogActsOn(pool, Free, freeTrees, log, id);
  }

  /** Without a space map the free tree starts empty instead of full: it takes no entry at all,
      so it loads only when nothing is unflushed. */
  lemma {:induction false} NoSpaceMapNoEntries(es: seq<Entry>)
    requires Clean({}, SeeAll(Alloc, es))
    ensures Clean({}, SeeAll(Free, es)) <==> es == []
  {
    SeeAllAlloc(es);
    if es != [] {
      CleanPrefix({}, es, 1);
      assert es[..1][..0] == [];
      var seen := SeeAll(Free, es);
      assert es[0].run > 0;
      assert es[0].offset in Extent(seen[0]);
      assert seen[..1][..0] == [];
      if Clean({}, seen) {
        CleanPrefix({}, seen, 1);
      }
    }
  }

  /** Both loads of a metaslab went through: space map and unflushed entries, as allocated and as free
      space. */
  ghost predicate BothLoad(pool: Pool, log: seq<LogEntry>, id: MsId)
    requires WellPlaced(pool, log) && IsMetaslab(pool, id)
  {
    Loads(pool, Alloc, log, id) && Loads(pool, Free, log, id)
  }

  /** Without a space map a metaslab that loads both ways loads as empty both ways. */
  lemma NoSpaceMapLoadsEmpty(pool: Pool, log: seq<LogEntry>, id: MsId)
    requires WellPlaced(pool, log) && IsMetaslab(pool, id) && MsOf(pool, id).sm.None? && BothLoad(pool, log, id)
    ensures LoadedAs(pool, Alloc, log, id) == {} && LoadedAs(pool, Free, log, id) == {}
  {
    var taken := Taken(pool, id, log);
    assert SeeAll(Alloc, SmEntries(MsOf(pool, id))) == [] && SeeAll(Free, SmEntries(MsOf(pool, id))) == [];
    NoSpaceMapNoEntries(taken);
    assert SeeAll(Alloc, taken) == [] && SeeAll(Free, taken) == [];
  }

  /** The trees loaded both ways are complements exactly when the metaslab has a space map. */
  lemma ComplementIffSpaceMap(pool: Pool, log: seq<LogEntry>, id: MsId)
    requires WellPlaced(pool, log) && IsMetaslab(pool, id) && MsOf(pool, id).size > 0
    requires InBounds(MsOf(pool, id), Taken(pool, id, log)) && BothLoad(pool, log, id)
    ensures LoadedAs(pool, Free, log, id) == Box(MsOf(pool, id)) - LoadedAs(pool, Alloc, log, id) <==> MsOf(pool, id).sm.Some?
    ensures LoadedAs(pool, Alloc, log, id) <= Box(MsOf(pool, id))
  {
    var ms := MsOf(pool, id);
    if ms.sm.Some? {
      var a: Trees, f: Trees := map[id := SmLoaded(pool, Alloc, id)], map[id := SmLoaded(pool, Free, id)];
      LoadedTreesAreComplements(pool, log, id, a, f);
      LogActsOn(pool, Alloc, a, log, id);
      LogActsOn(pool, Free, f, log, id);
    } else {
      NoSpaceMapLoadsEmpty(pool, log, id);
      assert ms.start in Box(ms) - {};
    }
  }

  /** For instance a pool of one metaslab that was never written: none of its 8 bytes loads as
      allocated, and none as free. */
  lemma NeverWrittenMetaslab()
    ensures var pool, id := [Vdev(true, 8, [Metaslab(0, 8, None, 0)])], MsId(0, 0);
            && IsMetaslab(pool, id) && BothLoad(pool, [], id)
            && LoadedAs(pool, Free, [], id) == {} && Box(MsOf(pool, id)) - LoadedAs(pool, Alloc, [], id) != {}
  {
    var pool: Pool, id := [Vdev(true, 8, [Metaslab(0, 8, None, 0)])], MsId(0, 0);
    assert SeeAll(Alloc, []) == [] && SeeAll(Free, []) == [];
    assert Taken(pool, id, []) == [] && BothLoad(pool, [], id);
    NoSpaceMapLoadsEmpty(pool, [], id);
    assert 0 in Box(MsOf(pool, id)) - {};
  }

  /** The space check of the loader (what is loaded plus a run fits in the metaslab) cannot fail
      on a clean map that stays in bounds. */
  lemma LoadSpaceCheckHolds(ms: Metaslab, t: set<nat>, e: Entry)
    requires t <= Box(ms) && Within(ms, e) && e.kind == Alloc && Fits(t, e)
    ensures |t| + e.run <= ms.size
  {
    FitsChangesSize(t, e);
    IntervalSize(ms.start, ms.start + ms.size);
    assert After(t, e) <= Box(ms);
    SubsetSize(After(t, e), Box(ms));
  }

  // ----- Unflushed space

  ghost function UnflushedSpace(pool: Pool, log: seq<LogEntry>): int
    requires WellPlaced(pool, log)
  {
    if log == [] then 0
    else
      UnflushedSpace(pool, log[..|log|-1]) +
      (if Applies(pool, log[|log|-1]) then Signed(log[|log|-1].e) else 0)
  }

  method CountUnflushedSpace(pool: Pool, log: seq<LogEntry>) returns (space: int)
    requires WellPlaced(pool, log)
    ensures space == UnflushedSpace(pool, log)
  {
    space := 0;
    var n := 0;
    while n < |log|
      invariant 0 <= n <= |log|
      invariant space == UnflushedSpace(pool, log[..n])
    {
      assert log[..n+1][..n] == log[..n];
      if Applies(pool, log[n]) {
        if log[n].e.kind == Alloc {
          space := space + log[n].e.run;
        } else {
          space := space - log[n].e.run;
        }
      }
      n := n + 1;
    }
    assert log[..n] == log;
  }

  /** All bytes of all trees, told apart by metaslab. */
  ghost function AllBytes(trees: Trees): set<(MsId, nat)> {
    set id, x | id in trees && x in trees[id] :: (id, x)
  }

  ghost function Tag(id: MsId, s: set<nat>): set<(MsId, nat)> {
    set x | x in s :: (id, x)
  }

  lemma {:induction false} TagSize(id: MsId, s: set<nat>)
    ensures |Tag(id, s)| == |s|
  {
    if s == {} {
      assert Tag(id, s) == {};
    } else {
      var x :| x in s;
      TagSize(id, s - {x});
      assert Tag(id, s) == Tag(id, s - {x}) + {(id, x)};
    }
  }

  lemma UpdateSize(trees: Trees, id: MsId, t: set<nat>)
    requires id in trees
    ensures |AllBytes(trees[id := t])| == |AllBytes(trees)| - |trees[id]| + |t|
  {
    var rest := AllBytes(trees) - Tag(id, trees[id]);
    assert AllBytes(trees) == rest + Tag(id, trees[id]);
    assert AllBytes(trees[id := t]) == rest + Tag(id, t);
    assert rest !! Tag(id, t);
    TagSize(id, trees[id]);
    TagSize(id, t);
  }

  /** The unflushed space that is added to the pool's allocation is exactly the change that the
      log makes to the bytes of the allocated trees. */
  lemma {:induction false} UnflushedSpaceIsChange(pool: Pool, trees: Trees, log: seq<LogEntry>)
    requires WellPlaced(pool, log) && LogClean(pool, Alloc, trees, log)
    ensures |AllBytes(ApplyLog(pool, Alloc, trees, log))| == |AllBytes(trees)| + UnflushedSpace(pool, log)
  {
    if log != [] {
      var n := |log| - 1;
      UnflushedSpaceIsChange(pool, trees, log[..n]);
      var before := ApplyLog(pool, Alloc, trees, log[..n]);
      if Applies(pool, log[n]) {
        var id := Home(pool, log[n]);
        FitsChangesSize(before[id], log[n].e);
        UpdateSize(before, id, After(before[id], log[n].e));
      }
    }
  }

  // ----- The pool's statistics

  function Count(pool: Pool, v: nat): nat
    requires v <= |pool|
  {
    if v < |pool| && pool[v].concrete then |pool[v].ms| else 0
  }

  /** The allocation that the space maps themselves claim, over the metaslabs before `m` of vdev `v`. */
  ghost function Allocated(pool: Pool, v: nat, m: nat): int
    requires v <= |pool| && m <= Count(pool, v)
    decreases v, m
  {
    if m > 0 then Allocated(pool, v, m - 1) + SignedSum(SmEntries(pool[v].ms[m-1]))
    else if v > 0 then Allocated(pool, v - 1, Count(pool, v - 1))
    else 0
  }

  predicate Before(id: MsId, v: nat, m: nat) { id.vdev < v || (id.vdev == v && id.ms < m) }

  function Part(trees: Trees, v: nat, m: nat): Trees {
    map id | id in trees && Before(id, v, m) :: trees[id]
  }

  lemma AddSize(trees: Trees, id: MsId, t: set<nat>)
    requires id !in trees
    ensures |AllBytes(trees[id := t])| == |AllBytes(trees)| + |t|
  {
    assert AllBytes(trees[id := t]) == AllBytes(trees) + Tag(id, t);
    assert AllBytes(trees) !! Tag(id, t);
    TagSize(id, t);
  }

  ghost predicate OneTreeEach(pool: Pool, trees: Trees) {
    forall id :: id in trees <==> IsMetaslab(pool, id)
  }

  /** The trees hold just the metaslabs of the pool, each as its space map loads. */
  ghost predicate OwnTrees(pool: Pool, trees: Trees) {
    && OneTreeEach(pool, trees)
    && (forall id :: id in trees ==> SmLoads(pool, Alloc, id) && trees[id] == SmLoaded(pool, Alloc, id))
  }

  lemma PartOneMore(pool: Pool, trees: Trees, v: nat, m: nat)
    requires OneTreeEach(pool, trees) && v < |pool| && 0 < m <= Count(pool, v)
    ensures MsId(v, m - 1) in trees && Part(trees, v, m) == Part(trees, v, m - 1)[MsId(v, m - 1) := trees[MsId(v, m - 1)]]
  {
    var id := MsId(v, m - 1);
    assert IsMetaslab(pool, id);
  }

  lemma PartNextVdev(pool: Pool, trees: Trees, v: nat)
    requires OneTreeEach(pool, trees) && 0 < v <= |pool|
    ensures Part(trees, v, 0) == Part(trees, v - 1, Count(pool, v - 1))
  {
    forall id | id in trees ensures Before(id, v, 0) <==> Before(id, v - 1, Count(pool, v - 1)) {
      assert IsMetaslab(pool, id);
    }
  }

  lemma LoadedSize(pool: Pool, id: MsId)
    requires IsMetaslab(pool, id) && SmLoads(pool, Alloc, id)
    ensures |SmLoaded(pool, Alloc, id)| == SignedSum(SmEntries(MsOf(pool, id)))
  {
    SeeAllAlloc(SmEntries(MsOf(pool, id)));
    CleanSignedSum({}, SmEntries(MsOf(pool, id)));
  }

  lemma PartSize(pool: Pool, trees: Trees, v: nat, m: nat)
    requires OneTreeEach(pool, trees) && v < |pool| && 0 < m <= Count(pool, v)
    ensures MsId(v, m - 1) in trees
    ensures |AllBytes(Part(trees, v, m))| == |AllBytes(Part(trees, v, m - 1))| + |trees[MsId(v, m - 1)]|
  {
    PartOneMore(pool, trees, v, m);
    AddSize(Part(trees, v, m - 1), MsId(v, m - 1), trees[MsId(v, m - 1)]);
  }

  lemma NoPart(trees: Trees)
    ensures |AllBytes(Part(trees, 0, 0))| == 0
  {
    assert AllBytes(Part(trees, 0, 0)) == {};
  }

  ghost predicate SizesMatch(pool: Pool, trees: Trees) {
    OneTreeEach(pool, trees) && forall id :: id in trees ==> |trees[id]| == SignedSum(SmEntries(MsOf(pool, id)))
  }

  ghost predicate PartMatches(pool: Pool, trees: Trees, v: nat, m: nat)
    requires v <= |pool| && m <= Count(pool, v)
  {
    |AllBytes(Part(trees, v, m))| == Allocated(pool, v, m)
  }

  lemma OneMoreMatches(pool: Pool, trees: Trees, v: nat, m: nat)
    requires SizesMatch(pool, trees) && v < |pool| && 0 < m <= Count(pool, v) && PartMatches(pool, trees, v, m - 1)
    ensures PartMatches(pool, trees, v, m)
  {
    PartSize(pool, trees, v, m);
  }

  lemma NextVdevMatches(pool: Pool, trees: Trees, v: nat)
    requires SizesMatch(pool, trees) && 0 < v <= |pool| && PartMatches(pool, trees, v - 1, Count(pool, v - 1))
    ensures PartMatches(pool, trees, v, 0)
  {
    PartNextVdev(pool, trees, v);
  }

  lemma {:induction false} AllocatedIsLoaded(pool: Pool, trees: Trees, v: nat, m: nat)
    requires SizesMatch(pool, trees) && v <= |pool| && m <= Count(pool, v)
    ensures PartMatches(pool, trees, v, m)
    decreases v, m
  {
    if m > 0 {
      AllocatedIsLoaded(pool, trees, v, m - 1);
      OneMoreMatches(pool, trees, v, m);
    } else if v > 0 {
      AllocatedIsLoaded(pool, trees, v - 1, Count(pool, v - 1));
      NextVdevMatches(pool, trees, v);
    } else {
      NoPart(trees);
    }
  }

  /** What the statistics of all space maps and the unflushed space add up to is the number of bytes
      that load as allocated. */
  lemma TotalAllocIsLoaded(pool: Pool, trees: Trees, log: seq<LogEntry>)
    requires OwnTrees(pool, trees) && WellPlaced(pool, log) && LogClean(pool, Alloc, trees, log)
    ensures |AllBytes(ApplyLog(pool, Alloc, trees, log))| == Allocated(pool, |pool|, 0) + UnflushedSpace(pool, log)
  {
    forall id | id in trees ensures |trees[id]| == SignedSum(SmEntries(MsOf(pool, id))) {
      LoadedSize(pool, id);
    }
    AllocatedIsLoaded(pool, trees, |pool|, 0);
    assert Part(trees, |pool|, 0) == trees;
    UnflushedSpaceIsChange(pool, trees, log);
  }
}
