/**
 Batches of objects, as most tests of the tester set them up: look all of them
 up, and unless all exist remove them from the last to the first and create
 them from the first to the last, either of which can run out of space.
 */
module ObjectBatch {

  const DIROBJ: nat := 1

  // ----- The directory and the objects in use

  /** Each entry names an object of its own, and nothing else is in use but the directory. */
  ghost predicate NoLeaks(dir: map<string, nat>, used: set<nat>) {
    && (forall a, b :: a in dir && b in dir && a != b ==> dir[a] != dir[b])
    && (forall a :: a in dir ==> dir[a] > DIROBJ)
    && used == dir.Values + {DIROBJ}
  }

  lemma {:induction false} DistinctValues(dir: map<string, nat>)
    requires forall a, b :: a in dir && b in dir && a != b ==> dir[a] != dir[b]
    ensures |dir.Values| == |dir|
    decreases |dir|
  {
    if dir == map[] {
      assert dir.Values == {};
    } else {
      var a :| a in dir;
      var rest := dir - {a};
      DistinctValues(rest);
      forall v ensures v in dir.Values <==> v in rest.Values || v == dir[a] {
        if v in dir.Values {
          var b :| b in dir && dir[b] == v;
          assert b == a || rest[b] == v;
        }
      }
      assert dir.Values == rest.Values + {dir[a]};
      assert dir[a] !in rest.Values;
      assert dir.Keys == rest.Keys + {a};
      assert |dir| == |dir.Keys| && |rest| == |rest.Keys|;
    }
  }

  /** The check made when a data set is opened: used objects are the directory's entries plus one. */
  lemma UsedObjects(dir: map<string, nat>, used: set<nat>)
    requires NoLeaks(dir, used)
    ensures |used| == |dir| + 1
  {
    DistinctValues(dir);
  }

  lemma EntryAdded(dir: map<string, nat>, used: set<nat>, name: string, id: nat)
    requires NoLeaks(dir, used) && name !in dir && id !in used && id > DIROBJ
    ensures NoLeaks(dir[name := id], used + {id})
  {
    var more := dir[name := id];
    forall v ensures v in more.Values <==> v in dir.Values || v == id {
      if v in dir.Values {
        var a :| a in dir && dir[a] == v;
        assert more[a] == v;
      }
      assert more[name] == id;
    }
  }

  lemma EntryRemoved(dir: map<string, nat>, used: set<nat>, name: string)
    requires NoLeaks(dir, used) && name in dir
    ensures NoLeaks(dir - {name}, used - {dir[name]})
  {
    var less := dir - {name};
    forall v ensures v in less.Values <==> v in dir.Values && v != dir[name] {
      if v in dir.Values && v != dir[name] {
        var a :| a in dir && dir[a] == v;
        assert less[a] == v;
      }
    }
  }

  lemma {:induction false} FreeId(used: set<nat>)
    ensures exists id: nat :: id > DIROBJ && id !in used
  {
    var bound := UpperBound(used);
    assert bound + 2 !in used;
  }

  lemma {:induction false} UpperBound(used: set<nat>) returns (bound: nat)
    ensures forall id :: id in used ==> id <= bound
    decreases |used|
  {
    bound := 0;
    if used != {} {
      var id :| id in used;
      bound := UpperBound(used - {id});
      assert forall x :: x in used ==> x == id || x in used - {id};
      bound := if bound < id then id else bound;
    }
  }

  // ----- What a batch should come to

  /** Exactly the first `k` of the batch exist. */
  ghost predicate IsPrefix(names: seq<string>, dir: map<string, nat>, k: nat) {
    k <= |names| && forall i :: 0 <= i < |names| ==> (names[i] in dir <==> i < k)
  }

  ghost predicate Distinct(names: seq<string>) {
    forall i, j :: 0 <= i < j < |names| ==> names[i] != names[j]
  }

  /** How many of `k` objects are left when removing stops at the first that finds no space. */
  function LeftAfterRemove(noSpace: seq<bool>, k: nat): (left: nat)
    requires k <= |noSpace|
    ensures left <= k && (left > 0 ==> noSpace[left-1]) && (forall i :: left <= i < k ==> !noSpace[i])
  {
    if k == 0 then 0 else if noSpace[k-1] then k else LeftAfterRemove(noSpace, k - 1)
  }

  /** How many of the batch there are when creating, from `k` on, stops at the first that finds no space. */
  function MadeByCreate(noSpace: seq<bool>, k: nat): (made: nat)
    requires k <= |noSpace|
    ensures k <= made <= |noSpace| && (made < |noSpace| ==> noSpace[made]) && (forall i :: k <= i < made ==> !noSpace[i])
    decreases |noSpace| - k
  {
    if k == |noSpace| || noSpace[k] then k else MadeByCreate(noSpace, k + 1)
  }

  /** Which removals and creations of one call find no space. */
  datatype Space = Space(noRemove: seq<bool>, noCreate: seq<bool>)

  /** What setting up a batch of `n`, of which `k` exist, comes to: how many exist then. */
  function SetUp(n: nat, k: nat, remove: bool, space: Space): nat
    requires k <= n && |space.noRemove| == n && |space.noCreate| == n
  {
    if k == n && !remove then n
    else if LeftAfterRemove(space.noRemove, k) > 0 then LeftAfterRemove(space.noRemove, k)
    else MadeByCreate(space.noCreate, 0)
  }

  predicate SucceedsIn(n: nat, k: nat, remove: bool, space: Space)
    requires k <= n && |space.noRemove| == n && |space.noCreate| == n
  {
    || (k == n && !remove)
    || (LeftAfterRemove(space.noRemove, k) == 0 && MadeByCreate(space.noCreate, 0) == n)
  }

  /** Success means that all exist. Failure means that some do not, except in one case: asked to
      remove a batch that exists whole, and finding no space to remove the last of it. */
  lemma FailureWithAll(n: nat, k: nat, remove: bool, space: Space)
    requires k <= n && |space.noRemove| == n && |space.noCreate| == n
    ensures SucceedsIn(n, k, remove, space) ==> SetUp(n, k, remove, space) == n
    ensures (SucceedsIn(n, k, remove, space) <==> SetUp(n, k, remove, space) == n) <==>
              !(remove && n > 0 && k == n && space.noRemove[n-1])
  {
  }

  /** For instance a batch of one: the call fails, and the object is there. */
  lemma FailsThoughAllExist()
    ensures var space := Space([true], [false]);
            !SucceedsIn(1, 1, true, space) && SetUp(1, 1, true, space) == 1
  {
    var space := Space([true], [false]);
    assert LeftAfterRemove(space.noRemove, 1) == 1;
  }

  /** So a caller that does not ask to remove can tell: it gets 0 exactly when all exist. */
  lemma SuccessIffAllExist(n: nat, k: nat, space: Space)
    requires k <= n && |space.noRemove| == n && |space.noCreate| == n
    ensures SucceedsIn(n, k, false, space) <==> SetUp(n, k, false, space) == n
  {
  }

  // ----- The routines

  ghost predicate OthersUntouched(names: seq<string>, was: map<string, nat>, dir: map<string, nat>) {
    forall a :: a !in names ==> (a in dir <==> a in was) && (a in dir ==> dir[a] == was[a])
  }

  /** The ids noted for a batch are those of the directory, or 0. */
  ghost predicate Mirrors(od: seq<nat>, names: seq<string>, dir: map<string, nat>, n: nat) {
    n <= |od| == |names| && forall i :: 0 <= i < n ==> od[i] == if names[i] in dir then dir[names[i]] else 0
  }

  lemma OneAdded(names: seq<string>, was: map<string, nat>, dir: map<string, nat>, i: nat, id: nat)
    requires i < |names| && Distinct(names) && IsPrefix(names, dir, i) && OthersUntouched(names, was, dir)
    ensures IsPrefix(names, dir[names[i] := id], i + 1) && OthersUntouched(names, was, dir[names[i] := id])
    ensures forall od :: Mirrors(od, names, dir, i) ==> Mirrors(od[i := id], names, dir[names[i] := id], i + 1)
  {
  }

  lemma OneRemoved(names: seq<string>, was: map<string, nat>, dir: map<string, nat>, i: nat)
    requires i < |names| && Distinct(names) && IsPrefix(names, dir, i + 1) && OthersUntouched(names, was, dir)
    ensures IsPrefix(names, dir - {names[i]}, i) && OthersUntouched(names, was, dir - {names[i]})
    ensures forall od :: Mirrors(od, names, dir, |names|) ==> Mirrors(od[i := 0], names, dir - {names[i]}, |names|)
  {
  }

  class Dataset {
    var dir: map<string, nat>
    var used: set<nat>

    constructor ()
      ensures dir == map[] && NoLeaks(dir, used)
    {
      dir, used := map[], {DIROBJ};
    }

    /** Look a batch up, noting the object of each or 0; the number missing. Once one is missing all
        the later ones must be, or an assertion fails. */
    method Lookup(names: seq<string>, od: array<nat>, ghost k: nat) returns (missing: nat)
      requires od.Length == |names| && IsPrefix(names, dir, k) && NoLeaks(dir, used)
      modifies od
      ensures missing == |names| - k
      ensures Mirrors(od[..], names, dir, |names|)
    {
      missing := 0;
      for i := 0 to |names|
        invariant missing == if i <= k then 0 else i - k
        invariant Mirrors(od[..], names, dir, i)
      {
        od[i] := 0;
        if names[i] !in dir {
          missing := missing + 1;
        } else {
          od[i] := dir[names[i]];
          assert missing == 0;
        }
      }
    }

    /** Allocate any object not in use and enter it in the directory. */
    method CreateObject(name: string) returns (id: nat)
      requires NoLeaks(dir, used) && name !in dir
      modifies this
      ensures NoLeaks(dir, used) && dir == old(dir)[name := id] && id > DIROBJ
    {
      FreeId(used);
      id :| id > DIROBJ && id !in used;
      EntryAdded(dir, used, name, id);
      used := used + {id};
      dir := dir[name := id];
    }

    /** Free an object and take it out of the directory. */
    method RemoveObject(name: string)
      requires NoLeaks(dir, used) && name in dir
      modifies this
      ensures NoLeaks(dir, used) && dir == old(dir) - {name}
    {
      EntryRemoved(dir, used, name);
      used := used - {dir[name]};
      dir := dir - {name};
    }

    /** Create the batch from its first object on, all of it missing; the number not created. */
    method Create(names: seq<string>, od: array<nat>, noSpace: seq<bool>) returns (missing: nat)
      requires od.Length == |names| == |noSpace| && Distinct(names) && IsPrefix(names, dir, 0) && NoLeaks(dir, used)
      modifies this, od
      ensures NoLeaks(dir, used) && IsPrefix(names, dir, MadeByCreate(noSpace, 0))
      ensures missing == |names| - MadeByCreate(noSpace, 0)
      ensures Mirrors(od[..], names, dir, |names|)
      ensures OthersUntouched(names, old(dir), dir)
    {
      ghost var made := MadeByCreate(noSpace, 0);
      missing := 0;
      for i := 0 to |names|
        invariant NoLeaks(dir, used) && IsPrefix(names, dir, if i < made then i else made)
        invariant missing == if i <= made then 0 else i - made
        invariant Mirrors(od[..], names, dir, i)
        invariant OthersUntouched(names, old(dir), dir)
      {
        if missing > 0 {
          od[i] := 0;
          missing := missing + 1;
        } else if noSpace[i] {
          od[i] := 0;
          missing := missing + 1;
        } else {
          ghost var before := dir;
          od[i] := CreateObject(names[i]);
          OneAdded(names, old(dir), before, i, od[i]);
        }
      }
    }

    method RemoveAt(names: seq<string>, od: array<nat>, i: nat, ghost was: map<string, nat>)
      requires NoLeaks(dir, used) && i < |names| && Distinct(names) && IsPrefix(names, dir, i + 1)
      requires Mirrors(od[..], names, dir, |names|) && OthersUntouched(names, was, dir)
      modifies this, od
      ensures NoLeaks(dir, used) && IsPrefix(names, dir, i)
      ensures Mirrors(od[..], names, dir, |names|) && OthersUntouched(names, was, dir)
    {
      OneRemoved(names, was, dir, i);
      RemoveObject(names[i]);
      ghost var noted := od[..];
      od[i] := 0;
      assert od[..] == noted[i := 0];
    }

    /** Remove the batch from its last object back; the number not removed, counting from the first
        removal that found no space. */
    method Remove(names: seq<string>, od: array<nat>, noSpace: seq<bool>, ghost k: nat) returns (missing: nat)
      requires od.Length == |names| == |noSpace| && Distinct(names) && IsPrefix(names, dir, k) && NoLeaks(dir, used)
      requires Mirrors(od[..], names, dir, |names|)
      modifies this, od
      ensures NoLeaks(dir, used) && IsPrefix(names, dir, LeftAfterRemove(noSpace, k))
      ensures missing == LeftAfterRemove(noSpace, k)
      ensures Mirrors(od[..], names, dir, |names|)
      ensures OthersUntouched(names, old(dir), dir)
    {
      ghost var left, now := LeftAfterRemove(noSpace, k), k;
      missing := 0;
      for i := |names| downto 0
        invariant now == if k <= i then k else if left <= i then i else left
        invariant NoLeaks(dir, used) && IsPrefix(names, dir, now)
        invariant missing == if left <= i then 0 else left - i
        invariant Mirrors(od[..], names, dir, |names|)
        invariant OthersUntouched(names, old(dir), dir)
      {
        if missing > 0 {
          missing := missing + 1;
        } else if od[i] != 0 {
          if noSpace[i] {
            missing := missing + 1;
          } else {
            RemoveAt(names, od, i, old(dir));
            now := i;
          }
        }
      }
    }

    /** Set a batch up under the directory lock. */
    method ObjectInit(names: seq<string>, od: array<nat>, remove: bool, space: Space, ghost k: nat) returns (rv: int)
      requires od.Length == |names| == |space.noRemove| == |space.noCreate| && Distinct(names)
      requires IsPrefix(names, dir, k) && NoLeaks(dir, used)
      modifies this, od
      ensures NoLeaks(dir, used) && IsPrefix(names, dir, SetUp(|names|, k, remove, space))
      ensures rv == 0 <==> SucceedsIn(|names|, k, remove, space)
      ensures Mirrors(od[..], names, dir, |names|)
      ensures OthersUntouched(names, old(dir), dir)
    {
      rv := 0;
      var missing := Lookup(names, od, k);
      if missing != 0 || remove {
        missing := Remove(names, od, space.noRemove, k);
        if missing == 0 {
          missing := Create(names, od, space.noCreate);
        }
        if missing != 0 {
          rv := -1;
        }
      }
    }

    /** Any number of calls on a batch that does not exist yet: it is a prefix after each of them. */
    method Calls(names: seq<string>, od: array<nat>, requests: seq<(bool, Space)>) returns (ghost counts: seq<nat>)
      requires od.Length == |names| && Distinct(names) && IsPrefix(names, dir, 0) && NoLeaks(dir, used)
      requires forall r :: r in requests ==> |r.1.noRemove| == |names| == |r.1.noCreate|
      modifies this, od
      ensures |counts| == |requests| + 1 && counts[0] == 0 && (forall i :: 0 <= i < |counts| ==> counts[i] <= |names|)
      ensures forall i :: 0 <= i < |requests| ==> counts[i+1] == SetUp(|names|, counts[i], requests[i].0, requests[i].1)
      ensures IsPrefix(names, dir, counts[|requests|]) && NoLeaks(dir, used) && |used| == |dir| + 1
    {
      counts := [0];
      for n := 0 to |requests|
        invariant |counts| == n + 1 && counts[0] == 0 && (forall i :: 0 <= i < |counts| ==> counts[i] <= |names|)
        invariant forall i :: 0 <= i < n ==> counts[i+1] == SetUp(|names|, counts[i], requests[i].0, requests[i].1)
        invariant IsPrefix(names, dir, counts[n]) && NoLeaks(dir, used)
      {
        var r := requests[n];
        assert r in requests;
        var rv := ObjectInit(names, od, r.0, r.1, counts[n]);
        counts := counts + [SetUp(|names|, counts[n], r.0, r.1)];
      }
      UsedObjects(dir, used);
    }
  }
}
