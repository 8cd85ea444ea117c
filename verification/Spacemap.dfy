/**
 Space maps are logs of ALLOC and FREE entries. This module says what a log
 means as a set of bytes, and proves that validating a log entry by entry
 reports nothing exactly when the log replays cleanly.
 */
module Spacemap {
  import opened RangeTree

  datatype Kind = Alloc | Free

  datatype Entry = Entry(kind: Kind, vdev: nat, offset: nat, run: nat)

  function Extent(e: Entry): set<nat> {
    Interval(e.offset, e.offset + e.run)
  }

  // ----- Replay on sets

  /** An ALLOC must be disjoint from the allocated set, a FREE contained in it. */
  predicate Fits(s: set<nat>, e: Entry) {
    && e.run > 0
    && (if e.kind == Alloc then Extent(e) !! s else Extent(e) <= s)
  }

  function After(s: set<nat>, e: Entry): set<nat> {
    if e.kind == Alloc then s + Extent(e) else s - Extent(e)
  }

  ghost function Replay(s: set<nat>, es: seq<Entry>): set<nat> {
    if es == [] then s else After(Replay(s, es[..|es|-1]), es[|es|-1])
  }

  ghost predicate Clean(s: set<nat>, es: seq<Entry>) {
    es == [] || (Clean(s, es[..|es|-1]) && Fits(Replay(s, es[..|es|-1]), es[|es|-1]))
  }

  function Signed(e: Entry): int {
    if e.kind == Alloc then e.run as int else -(e.run as int)
  }

  /** The allocation that a space map's entries add up to. */
  function SignedSum(es: seq<Entry>): int {
    if es == [] then 0 else SignedSum(es[..|es|-1]) + Signed(es[|es|-1])
  }

  lemma FitsChangesSize(s: set<nat>, e: Entry)
    requires Fits(s, e)
    ensures |After(s, e)| == |s| + Signed(e)
  {
    IntervalSize(e.offset, e.offset + e.run);
    if e.kind == Alloc {
      assert |s + Extent(e)| == |s| + |Extent(e)|;
    } else {
      assert s == (s - Extent(e)) + Extent(e);
    }
  }

  lemma {:induction false} CleanPrefix(s: set<nat>, es: seq<Entry>, n: nat)
    requires n <= |es| && Clean(s, es)
    ensures Clean(s, es[..n])
  {
    if n == |es| {
      assert es[..n] == es;
    } else {
      CleanPrefix(s, es[..|es|-1], n);
      assert es[..|es|-1][..n] == es[..n];
    }
  }

  lemma CleanStep(s: set<nat>, es: seq<Entry>, e: Entry)
    ensures Clean(s, es + [e]) <==> Clean(s, es) && Fits(Replay(s, es), e)
    ensures Replay(s, es + [e]) == After(Replay(s, es), e)
  {
    assert (es + [e])[..|es|] == es;
  }

  lemma NextEntry(s: set<nat>, es: seq<Entry>, n: nat)
    requires n < |es|
    ensures Clean(s, es[..n+1]) <==> Clean(s, es[..n]) && Fits(Replay(s, es[..n]), es[n])
    ensures Replay(s, es[..n+1]) == After(Replay(s, es[..n]), es[n])
    ensures SignedSum(es[..n+1]) == SignedSum(es[..n]) + Signed(es[n])
    ensures !Clean(s, es[..n+1]) ==> !Clean(s, es)
  {
    assert es[..n+1][..n] == es[..n];
    if Clean(s, es) {
      CleanPrefix(s, es, n + 1);
    }
  }

  /** In a clean log the signed sum of the runs is the number of bytes gained. */
  lemma {:induction false} CleanSignedSum(s: set<nat>, es: seq<Entry>)
    requires Clean(s, es)
    ensures |Replay(s, es)| == |s| + SignedSum(es)
  {
    if es != [] {
      var n := |es| - 1;
      CleanPrefix(s, es, n);
      CleanSignedSum(s, es[..n]);
      FitsChangesSize(Replay(s, es[..n]), es[n]);
    }
  }

  // ----- Validation of one metaslab's entries

  datatype Finding = Silent | Report | Panic

  class MetaslabVerify {
    const inUse: Tree

    constructor ()
      ensures fresh(inUse) && inUse.Valid() && inUse.Contents == {} && inUse.space == 0
    {
      inUse := new Tree();
    }

    /** A double ALLOC is reported only when the whole run is allocated already: an ALLOC that
        overlaps in part is passed to the tree, which panics. */
    method ValidateEntry(e: Entry) returns (f: Finding)
      requires inUse.Valid() && e.run > 0
      modifies inUse
      ensures inUse.Valid()
      ensures f == Silent <==> Fits(old(inUse.Contents), e)
      ensures f == Report <==> (e.kind == Alloc <==> Extent(e) <= old(inUse.Contents))
      ensures inUse.Contents == if f == Silent then After(old(inUse.Contents), e) else old(inUse.Contents)
      ensures f == Silent ==> inUse.space == old(inUse.space) + Signed(e)
    {
      var there := inUse.Contains(e.offset, e.run);
      assert e.offset in Extent(e);
      if e.kind == Alloc {
        if there {
          f := Report;
        } else {
          var ok := inUse.Add(e.offset, e.run);
          f := if ok then Silent else Panic;
        }
      } else {
        if !there {
          f := Report;
        } else {
          var ok := inUse.Remove(e.offset, e.run);
          f := Silent;
        }
      }
    }

    /** Nothing is reported and nothing panics exactly when every ALLOC is disjoint from, and
        every FREE contained in, what is allocated at that point. */
    method Validate(es: seq<Entry>) returns (reports: nat, panicked: bool)
      requires inUse.Valid() && inUse.Contents == {} && inUse.space == 0
      requires forall i :: 0 <= i < |es| ==> es[i].run > 0
      modifies inUse
      ensures inUse.Valid()
      ensures reports == 0 && !panicked <==> Clean({}, es)
      ensures Clean({}, es) ==> inUse.Contents == Replay({}, es) && inUse.space == SignedSum(es)
    {
      reports, panicked := 0, false;
      var n := 0;
      while n < |es| && !panicked
        invariant 0 <= n <= |es|
        invariant inUse.Valid()
        invariant reports == 0 && !panicked <==> Clean({}, es[..n])
        invariant !Clean({}, es[..n]) ==> !Clean({}, es)
        invariant Clean({}, es[..n]) ==> inUse.Contents == Replay({}, es[..n]) && inUse.space == SignedSum(es[..n])
      {
        NextEntry({}, es, n);
        var f := ValidateEntry(es[n]);
        if f == Report {
          reports := reports + 1;
        } else if f == Panic {
          panicked := true;
        }
        n := n + 1;
      }
      assert n == |es| ==> es[..n] == es;
    }
  }
}
