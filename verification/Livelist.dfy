/**
 Verification of deleted livelists: every sub-livelist is a stream of ALLOC and
 FREE records that are paired per block with a reference count. FREEs left over
 are errors, ALLOCs left over are collected, DVA by DVA, in `leftover`.
 */
module Livelist {

  datatype Dva = Dva(vdev: nat, offset: nat, asize: nat) {
    predicate IsEmpty() {
      vdev == 0 && offset == 0 && asize == 0
    }
  }

  /** A block pointer holds three DVAs; an empty one ends the list. */
  datatype BlkPtr = BlkPtr(dva0: Dva, dva1: Dva, dva2: Dva, birth: nat)

  /** The order of the pairing tree is by the place of the first DVA, then birth. */
  datatype Key = Key(vdev: nat, offset: nat, birth: nat)

  datatype Record = Record(bp: BlkPtr, free: bool)

  datatype PairEntry = PairEntry(bp: BlkPtr, refcnt: nat)

  function KeyOf(bp: BlkPtr): Key {
    Key(bp.dva0.vdev, bp.dva0.offset, bp.birth)
  }

  /** The DVAs in front of the first empty one. */
  function LiveDvas(bp: BlkPtr): seq<Dva> {
    if bp.dva0.IsEmpty() then []
    else if bp.dva1.IsEmpty() then [bp.dva0]
    else if bp.dva2.IsEmpty() then [bp.dva0, bp.dva1]
    else [bp.dva0, bp.dva1, bp.dva2]
  }

  // ----- What a stream means for one block

  /** The number of FREEs of `k` in `s`, less the number of its ALLOCs. */
  function Net(s: seq<Record>, k: Key): int {
    if s == [] then 0
    else Net(s[..|s|-1], k) + Weight(s[|s|-1], k)
  }

  function Weight(r: Record, k: Key): int {
    if KeyOf(r.bp) != k then 0 else if r.free then 1 else -1
  }

  /** The reference count that pairing leaves for `k`; 0 stands for "no node". */
  function Pending(s: seq<Record>, k: Key): nat {
    if s == [] then 0
    else
      var p, w := Pending(s[..|s|-1], k), Weight(s[|s|-1], k);
      if p + w < 0 then 0 else p + w
  }

  /** Record `i` is an ALLOC that meets no pending FREE of its block. */
  predicate Unpaired(s: seq<Record>, i: nat)
    requires i < |s|
  {
    !s[i].free && Pending(s[..i], KeyOf(s[i].bp)) == 0
  }

  /** How many ALLOCs of `k` meet no pending FREE. */
  function Unmatched(s: seq<Record>, k: Key): nat {
    if s == [] then 0
    else
      Unmatched(s[..|s|-1], k) +
      (if KeyOf(s[|s|-1].bp) == k && Unpaired(s, |s|-1) then 1 else 0)
  }

  lemma {:induction false} PairingConserves(s: seq<Record>, k: Key)
    ensures Pending(s, k) - Unmatched(s, k) == Net(s, k)
  {
    if s != [] {
      PairingConserves(s[..|s|-1], k);
    }
  }

  /** The final reference count is the largest surplus of FREEs over ALLOCs in any suffix. */
  lemma {:induction false} PendingIsLargestSuffix(s: seq<Record>, k: Key)
    ensures forall i :: 0 <= i <= |s| ==> Net(s[i..], k) <= Pending(s, k)
    ensures exists i :: 0 <= i <= |s| && Net(s[i..], k) == Pending(s, k)
  {
    assert s[|s|..] == [];
    if s != [] {
      var t := s[..|s|-1];
      PendingIsLargestSuffix(t, k);
      forall i | 0 <= i < |s|
        ensures Net(s[i..], k) == Net(t[i..], k) + Weight(s[|s|-1], k)
      {
        assert s[i..][..|s|-i-1] == t[i..];
      }
      var j :| 0 <= j <= |t| && Net(t[j..], k) == Pending(t, k);
      if Pending(s, k) == 0 {
        assert Net(s[|s|..], k) == Pending(s, k);
      } else {
        assert Net(s[j..], k) == Pending(s, k);
      }
    }
  }

  /** The number of unpaired ALLOCs is the largest surplus of ALLOCs over FREEs in any prefix. */
  lemma {:induction false} UnmatchedIsLargestPrefix(s: seq<Record>, k: Key)
    ensures forall i :: 0 <= i <= |s| ==> -Net(s[..i], k) <= Unmatched(s, k)
    ensures exists i :: 0 <= i <= |s| && -Net(s[..i], k) == Unmatched(s, k)
  {
    assert s[..|s|] == s;
    PairingConserves(s, k);
    if s == [] {
      assert -Net(s[..0], k) == Unmatched(s, k);
    } else {
      var t := s[..|s|-1];
      UnmatchedIsLargestPrefix(t, k);
      PairingConserves(t, k);
      assert forall i :: 0 <= i <= |t| ==> s[..i] == t[..i];
      var j :| 0 <= j <= |t| && -Net(t[..j], k) == Unmatched(t, k);
      if Unmatched(s, k) == Unmatched(t, k) {
        assert -Net(s[..j], k) == Unmatched(s, k);
      } else {
        assert -Net(s[..|s|], k) == Unmatched(s, k);
      }
    }
  }

  /** Some ALLOC of `k` is unpaired exactly when some prefix has more ALLOCs than FREEs of `k`. */
  lemma {:induction false} UnpairedIffPrefixSurplus(s: seq<Record>, k: Key)
    ensures (exists i :: 0 <= i < |s| && KeyOf(s[i].bp) == k && Unpaired(s, i))
       <==> exists j :: 0 <= j <= |s| && Net(s[..j], k) < 0
  {
    UnmatchedIsLargestPrefix(s, k);
    UnmatchedCounts(s, k);
  }

  lemma {:induction false} UnmatchedCounts(s: seq<Record>, k: Key)
    ensures Unmatched(s, k) > 0 <==> exists i :: 0 <= i < |s| && KeyOf(s[i].bp) == k && Unpaired(s, i)
  {
    if s != [] {
      var t := s[..|s|-1];
      UnmatchedCounts(t, k);
      assert forall i :: 0 <= i < |t| ==> s[i] == t[i] && s[..i] == t[..i];
      if i :| 0 <= i < |s| && KeyOf(s[i].bp) == k && Unpaired(s, i) {
        assert i < |t| ==> Unpaired(t, i);
      }
      if i :| 0 <= i < |t| && KeyOf(t[i].bp) == k && Unpaired(t, i) {
        assert Unpaired(s, i);
      }
    }
  }

  // ----- What the leftover tree collects

  /** Offer DVAs to the leftover tree: an equal DVA already there keeps its birth. */
  function Offer(l: map<Dva, nat>, ds: seq<Dva>, birth: nat): map<Dva, nat>
    decreases |ds|
  {
    if ds == [] then l
    else if ds[0] in l then Offer(l, ds[1..], birth)
    else Offer(l[ds[0] := birth], ds[1..], birth)
  }

  function Leftover(s: seq<Record>, l: map<Dva, nat>): map<Dva, nat> {
    if s == [] then l
    else
      var l' := Leftover(s[..|s|-1], l);
      if Unpaired(s, |s|-1) then Offer(l', LiveDvas(s[|s|-1].bp), s[|s|-1].bp.birth) else l'
  }

  predicate Offers(s: seq<Record>, i: nat, d: Dva)
    requires i < |s|
  {
    Unpaired(s, i) && d in LiveDvas(s[i].bp)
  }

  lemma {:induction false} OfferMeaning(l: map<Dva, nat>, ds: seq<Dva>, birth: nat, d: Dva)
    ensures d in Offer(l, ds, birth) <==> d in l || d in ds
    ensures d in Offer(l, ds, birth) ==> Offer(l, ds, birth)[d] == if d in l then l[d] else birth
    decreases |ds|
  {
    if ds != [] {
      OfferMeaning(if ds[0] in l then l else l[ds[0] := birth], ds[1..], birth, d);
    }
  }

  ghost predicate Offered(s: seq<Record>, d: Dva) {
    exists i :: 0 <= i < |s| && Offers(s, i, d)
  }

  ghost predicate FirstOffer(s: seq<Record>, i: nat, d: Dva)
    requires i < |s|
  {
    Offers(s, i, d) && !Offered(s[..i], d)
  }

  lemma OffersInPrefix(s: seq<Record>, n: nat, d: Dva)
    requires n <= |s|
    ensures Offered(s[..n], d) <==> exists i :: 0 <= i < n && Offers(s, i, d)
  {
    forall i | 0 <= i < n ensures Offers(s, i, d) == Offers(s[..n], i, d) {
      assert s[..n][..i] == s[..i];
    }
    if i :| 0 <= i < n && Offers(s, i, d) {
      assert Offers(s[..n], i, d);
    }
  }

  /** A DVA is left over exactly when it was so before or an unpaired ALLOC has it. */
  lemma {:induction false} LeftoverMeaning(s: seq<Record>, l: map<Dva, nat>, d: Dva)
    ensures d in Leftover(s, l) <==> d in l || Offered(s, d)
    ensures d in l ==> Leftover(s, l)[d] == l[d]
  {
    if s != [] {
      var n := |s|-1;
      LeftoverMeaning(s[..n], l, d);
      OffersInPrefix(s, n, d);
      OfferMeaning(Leftover(s[..n], l), LiveDvas(s[n].bp), s[n].bp.birth, d);
      assert Offers(s, n, d) ==> Offered(s, d);
    }
  }

  /** The birth kept for a DVA is that of the first unpaired ALLOC that has it. */
  lemma {:induction false} LeftoverKeepsFirstBirth(s: seq<Record>, l: map<Dva, nat>, d: Dva, i: nat)
    requires d !in l && i < |s| && FirstOffer(s, i, d)
    ensures d in Leftover(s, l) && Leftover(s, l)[d] == s[i].bp.birth
  {
    var n := |s|-1;
    LeftoverMeaning(s[..n], l, d);
    OfferMeaning(Leftover(s[..n], l), LiveDvas(s[n].bp), s[n].bp.birth, d);
    if i < n {
      assert s[..n][..i] == s[..i];
      LeftoverKeepsFirstBirth(s[..n], l, d, i);
    }
  }

  /** What one more record does to the pending FREEs and to the leftovers. */
  lemma NextRecord(done: seq<Record>, r: Record, l: map<Dva, nat>)
    ensures forall j :: Pending(done + [r], j) == (if Pending(done, j) + Weight(r, j) < 0 then 0 else Pending(done, j) + Weight(r, j))
    ensures Leftover(done + [r], l) ==
              if !r.free && Pending(done, KeyOf(r.bp)) == 0 then Offer(Leftover(done, l), LiveDvas(r.bp), r.bp.birth) else Leftover(done, l)
  {
    var s := done + [r];
    assert s[..|s|-1] == done && s[|s|-1] == r;
  }

  // ----- The verifier

  ghost predicate Represents(pair: map<Key, PairEntry>, s: seq<Record>) {
    && (forall k :: k in pair <==> Pending(s, k) > 0)
    && (forall k :: k in pair ==> pair[k].refcnt == Pending(s, k) && KeyOf(pair[k].bp) == k)
  }

  ghost predicate Reported(errors: seq<PairEntry>, k: Key) {
    exists e :: e in errors && KeyOf(e.bp) == k
  }

  lemma ReportedOneMore(errors: seq<PairEntry>, e: PairEntry)
    ensures forall k :: Reported(errors + [e], k) <==> Reported(errors, k) || k == KeyOf(e.bp)
  {
    assert (errors + [e])[|errors|] == e;
    forall f: PairEntry ensures f in errors + [e] <==> f in errors || f == e {
    }
  }

  /** Each node of `all` is either still in the tree or has one line. */
  ghost predicate Drained(all: map<Key, PairEntry>, pair: map<Key, PairEntry>, errors: seq<PairEntry>) {
    && (forall k :: k in pair ==> k in all && pair[k] == all[k])
    && (forall k :: k in all <==> k in pair || Reported(errors, k))
    && (forall i :: 0 <= i < |errors| ==> var k := KeyOf(errors[i].bp); k in all && k !in pair && errors[i] == all[k])
    && (forall i, j :: 0 <= i < j < |errors| ==> KeyOf(errors[i].bp) != KeyOf(errors[j].bp))
  }

  lemma DrainOne(all: map<Key, PairEntry>, pair: map<Key, PairEntry>, errors: seq<PairEntry>, k: Key)
    requires Drained(all, pair, errors) && k in pair && KeyOf(pair[k].bp) == k
    ensures Drained(all, pair - {k}, errors + [pair[k]])
  {
    ReportedOneMore(errors, pair[k]);
  }

  ghost predicate SuffixSurplus(s: seq<Record>, k: Key) {
    exists i :: 0 <= i <= |s| && Net(s[i..], k) > 0
  }

  /** An unmatched-FREE line is printed for a block exactly when some suffix of the stream has
      more FREEs than ALLOCs of it. */
  ghost predicate ReportsUnmatchedFrees(errors: seq<PairEntry>, s: seq<Record>) {
    && (forall k :: Reported(errors, k) <==> SuffixSurplus(s, k))
    && (forall i, j :: 0 <= i < j < |errors| ==> KeyOf(errors[i].bp) != KeyOf(errors[j].bp))
    && (forall e :: e in errors ==> e.refcnt == Pending(s, KeyOf(e.bp)))
  }

  class SublivelistVerify {
    var pair: map<Key, PairEntry>
    var leftover: map<Dva, nat>

    constructor ()
      ensures pair == map[] && leftover == map[]
    {
      pair, leftover := map[], map[];
    }

    method VerifyBlkptr(r: Record, ghost done: seq<Record>, ghost before: map<Dva, nat>)
      requires Represents(pair, done) && leftover == Leftover(done, before)
      modifies this
      ensures Represents(pair, done + [r]) && leftover == Leftover(done + [r], before)
    {
      NextRecord(done, r, before);
      var k := KeyOf(r.bp);
      if r.free {
        if k !in pair {
          pair := pair[k := PairEntry(r.bp, 1)];
        } else {
          pair := pair[k := PairEntry(pair[k].bp, pair[k].refcnt + 1)];
        }
      } else {
        if k !in pair {
          OfferDvas(r.bp);
        } else {
          var left := pair[k].refcnt - 1;
          if left == 0 {
            pair := pair - {k};
          } else {
            pair := pair[k := PairEntry(pair[k].bp, left)];
          }
        }
      }
    }

    method OfferDvas(bp: BlkPtr)
      modifies this`leftover
      ensures leftover == Offer(old(leftover), LiveDvas(bp), bp.birth)
    {
      var dvas := [bp.dva0, bp.dva1, bp.dva2];
      var i := 0;
      while i < 3 && !dvas[i].IsEmpty()
        invariant 0 <= i <= |LiveDvas(bp)|
        invariant Offer(leftover, LiveDvas(bp)[i..], bp.birth) == Offer(old(leftover), LiveDvas(bp), bp.birth)
      {
        assert LiveDvas(bp)[i] == dvas[i];
        if dvas[i] !in leftover {
          leftover := leftover[dvas[i] := bp.birth];
        }
        assert LiveDvas(bp)[i..][1..] == LiveDvas(bp)[i+1..];
        i := i + 1;
      }
    }

    /** Empty the pairing tree, printing one line per node. */
    method Drain() returns (errors: seq<PairEntry>)
      requires forall k :: k in pair ==> KeyOf(pair[k].bp) == k
      modifies this`pair
      ensures pair == map[]
      ensures forall k :: Reported(errors, k) <==> k in old(pair)
      ensures forall e :: e in errors ==> KeyOf(e.bp) in old(pair) && e == old(pair)[KeyOf(e.bp)]
      ensures forall i, j :: 0 <= i < j < |errors| ==> KeyOf(errors[i].bp) != KeyOf(errors[j].bp)
    {
      errors := [];
      ghost var all := pair;
      while pair != map[]
        invariant Drained(all, pair, errors)
        decreases |pair|
      {
        var k :| k in pair;
        DrainOne(all, pair, errors, k);
        errors := errors + [pair[k]];
        pair := pair - {k};
      }
    }

    /** Pair one sub-livelist. The pairing tree starts empty and is drained into error lines,
        so nothing of it reaches the next sub-livelist; `leftover` accumulates. */
    method VerifySub(s: seq<Record>) returns (errors: seq<PairEntry>)
      modifies this
      ensures pair == map[]
      ensures leftover == Leftover(s, old(leftover))
      ensures ReportsUnmatchedFrees(errors, s)
    {
      pair := map[];
      var n := 0;
      while n < |s|
        invariant 0 <= n <= |s|
        invariant Represents(pair, s[..n])
        invariant leftover == Leftover(s[..n], old(leftover))
      {
        assert s[..n+1] == s[..n] + [s[n]];
        VerifyBlkptr(s[n], s[..n], old(leftover));
        n := n + 1;
      }
      assert s[..n] == s;
      errors := Drain();
      forall k ensures Reported(errors, k) <==> SuffixSurplus(s, k) {
        PendingIsLargestSuffix(s, k);
      }
    }

    /** All sub-livelists in turn: each is judged by its own records alone, and the leftovers are
        the union of what each leaves. */
    method VerifyAll(subs: seq<seq<Record>>) returns (errors: seq<seq<PairEntry>>)
      modifies this
      ensures |errors| == |subs|
      ensures forall n :: 0 <= n < |subs| ==> ReportsUnmatchedFrees(errors[n], subs[n])
      ensures forall d :: d in leftover <==>
                d in old(leftover) || exists n :: 0 <= n < |subs| && Offered(subs[n], d)
    {
      errors := [];
      while |errors| < |subs|
        invariant |errors| <= |subs|
        invariant forall n :: 0 <= n < |errors| ==> ReportsUnmatchedFrees(errors[n], subs[n])
        invariant forall d :: d in leftover <==>
                    d in old(leftover) || exists n :: 0 <= n < |errors| && Offered(subs[n], d)
      {
        ghost var was := leftover;
        var s := subs[|errors|];
        var e := VerifySub(s);
        errors := errors + [e];
        forall d ensures d in leftover <==> d in was || Offered(s, d) {
          LeftoverMeaning(s, was, d);
        }
      }
    }
  }
}
