/**
 Leak detection: every block reference found in the pool is counted, blocks that
 dedup or cloning share are claimed once, and every claim takes the block's
 space out of the allocated trees. What is left in the trees has leaked.
 */
module BlockAccounting {
  import opened Basics
  import opened Livelist

  datatype Place = Place(vdev: nat, offset: nat)

  datatype Byte = Byte(vdev: nat, at: nat)

  datatype Variant = Flat | Copies(n: nat)

  /** A reference to a block: its DVAs, and its key and variant in the dedup table if `dedup`. */
  datatype Ref = Ref(dvas: seq<Dva>, dedup: bool, key: nat, variant: Variant)

  /** What the pool holds: the DVAs of flat dedup entries, the clone counts by place of the first
      DVA, the places that the clone table may know, and whether leaks are tracked. */
  datatype Env = Env(ddt: map<nat, seq<Dva>>, brtActive: bool, maybe: set<Place>, brt: map<Place, nat>, leak: bool)

  function PlaceOf(r: Ref): Place {
    if r.dvas == [] then Place(0, 0) else Place(r.dvas[0].vdev, r.dvas[0].offset)
  }

  /** How many clones the block at `p` has besides itself, as far as the counting can tell. */
  function Clones(env: Env, p: Place): nat {
    if env.brtActive && p in env.maybe && p in env.brt then env.brt[p] else 0
  }

  /** A flat dedup entry may have gained DVAs since this reference was written: they are used. */
  function Canonical(env: Env, r: Ref): Ref {
    if r.dedup && r.key in env.ddt && r.variant == Flat then r.(dvas := env.ddt[r.key]) else r
  }

  function Asize(dvas: seq<Dva>): nat {
    if dvas == [] then 0 else Asize(dvas[..|dvas|-1]) + dvas[|dvas|-1].asize
  }

  // ----- Counting

  datatype Counts = Counts(seen: set<(nat, Variant)>, brt: map<Place, nat>, total: nat, dedup: nat, clone: nat, claims: seq<Ref>)

  const ZERO := Counts({}, map[], 0, 0, 0, [])

  /** Whether this is the second or later sight of a shared block. */
  predicate AgainDedup(env: Env, c: Counts, r: Ref) {
    r.dedup && r.key in env.ddt && (r.key, r.variant) in c.seen
  }

  predicate AgainClone(env: Env, c: Counts, r: Ref) {
    !r.dedup && env.brtActive && PlaceOf(r) in env.maybe && PlaceOf(r) in c.brt
  }

  ghost function Count(env: Env, c: Counts, r: Ref): Counts {
    var e := Canonical(env, r);
    var p := PlaceOf(r);
    Counts(
      if r.dedup && r.key in env.ddt then c.seen + {(r.key, r.variant)} else c.seen,
      if AgainClone(env, c, r) then (if c.brt[p] <= 1 then c.brt - {p} else c.brt[p := c.brt[p] - 1])
      else if !r.dedup && Clones(env, p) > 0 then c.brt[p := Clones(env, p)]
      else c.brt,
      c.total + Asize(e.dvas),
      c.dedup + (if AgainDedup(env, c, r) then Asize(e.dvas) else 0),
      c.clone + (if AgainClone(env, c, r) then Asize(e.dvas) else 0),
      if env.leak && !AgainDedup(env, c, r) && !AgainClone(env, c, r) then c.claims + [e] else c.claims)
  }

  ghost function CountAll(env: Env, s: seq<Ref>): Counts {
    if s == [] then ZERO else Count(env, CountAll(env, s[..|s|-1]), s[|s|-1])
  }

  function ClaimedAsize(claims: seq<Ref>): nat {
    if claims == [] then 0 else ClaimedAsize(claims[..|claims|-1]) + Asize(claims[|claims|-1].dvas)
  }

  /** What the totals leave after dedup and clones is exactly what was claimed. */
  lemma {:induction false} TotalsBalance(env: Env, s: seq<Ref>)
    requires env.leak
    ensures var c := CountAll(env, s); c.total - c.dedup - c.clone == ClaimedAsize(c.claims)
  {
    if s != [] {
      TotalsBalance(env, s[..|s|-1]);
      var b, r := CountAll(env, s[..|s|-1]), s[|s|-1];
      assert (b.claims + [Canonical(env, r)])[..|b.claims|] == b.claims;
    }
  }

  // ----- How often a block is claimed

  datatype BlockId = ByPlace(place: Place) | ByEntry(key: nat, variant: Variant) | ByPrunedEntry(key: nat)

  /** What makes two references refer to one block: the place of the first DVA, or the dedup entry
      and variant. A dedup reference whose entry was pruned is not tracked at all. */
  function IdOf(env: Env, r: Ref): BlockId {
    if !r.dedup then ByPlace(PlaceOf(r))
    else if r.key in env.ddt then ByEntry(r.key, r.variant)
    else ByPrunedEntry(r.key)
  }

  function Occurrences(env: Env, s: seq<Ref>, b: BlockId): nat {
    if s == [] then 0
    else Occurrences(env, s[..|s|-1], b) + (if IdOf(env, s[|s|-1]) == b then 1 else 0)
  }

  /** `k` sights of a block with `r` clones make the quotient of `k` by `r + 1`, rounded up, claims. */
  function ClaimsDue(env: Env, b: BlockId, k: nat): nat {
    match b
    case ByPlace(p) => (k + Clones(env, p)) / (Clones(env, p) + 1)
    case ByEntry(_, _) => if k > 0 then 1 else 0
    case ByPrunedEntry(_) => k
  }

  /** Where the counting stands after `k` sights of place `p`. */
  ghost predicate TracksPlace(env: Env, brt: map<Place, nat>, p: Place, k: nat) {
    var r := Clones(env, p);
    && (p in brt <==> k % (r + 1) != 0)
    && (p in brt ==> brt[p] == r + 1 - k % (r + 1))
  }

  lemma RoundUp(k: nat, r: nat)
    ensures k % (r + 1) == 0 ==> (k + 1 + r) / (r + 1) == (k + r) / (r + 1) + 1
    ensures k % (r + 1) != 0 ==> (k + 1 + r) / (r + 1) == (k + r) / (r + 1)
    ensures (k + 1) % (r + 1) == if k % (r + 1) == r then 0 else k % (r + 1) + 1
  {
    var n := r + 1;
    RoundUpAt(k, n, k / n, k % n);
  }

  lemma RoundUpAt(k: nat, n: nat, q: nat, m: nat)
    requires n > 0 && m < n && k == q * n + m
    ensures (k + 1) % n == if m == n - 1 then 0 else m + 1
    ensures (k + n - 1) / n == if m == 0 then q else q + 1
    ensures (k + n) / n == q + 1
  {
    assert (q + 1) * n == q * n + n;
    if m == n - 1 {
      Quotient(k + 1, n, q + 1, 0);
    } else {
      Quotient(k + 1, n, q, m + 1);
    }
    if m == 0 {
      Quotient(k + n - 1, n, q, n - 1);
    } else {
      Quotient(k + n - 1, n, q + 1, m - 1);
    }
    Quotient(k + n, n, q + 1, m);
  }

  lemma {:induction false} TrackedPlaces(env: Env, s: seq<Ref>, p: Place)
    ensures TracksPlace(env, CountAll(env, s).brt, p, Occurrences(env, s, ByPlace(p)))
  {
    if s != [] {
      TrackedPlaces(env, s[..|s|-1], p);
      RoundUp(Occurrences(env, s[..|s|-1], ByPlace(p)), Clones(env, p));
    }
  }

  lemma {:induction false} SeenVariants(env: Env, s: seq<Ref>, key: nat, v: Variant)
    requires key in env.ddt
    ensures (key, v) in CountAll(env, s).seen <==> Occurrences(env, s, ByEntry(key, v)) > 0
  {
    if s != [] {
      SeenVariants(env, s[..|s|-1], key, v);
    }
  }

  /** Over any stream of references, every block is claimed exactly as often as is due. */
  lemma {:induction false} ClaimedAsDue(env: Env, s: seq<Ref>, b: BlockId)
    requires env.leak
    ensures Occurrences(env, CountAll(env, s).claims, b) == ClaimsDue(env, b, Occurrences(env, s, b))
  {
    if s == [] {
      if b.ByPlace? {
        Quotient(Clones(env, b.place), Clones(env, b.place) + 1, 0, Clones(env, b.place));
      }
    } else {
      var t, r := s[..|s|-1], s[|s|-1];
      ClaimedAsDue(env, t, b);
      IssuedClaim(env, CountAll(env, t), r, b);
      if IdOf(env, r) == b {
        OneMoreDue(env, t, r, b);
      }
    }
  }

  /** A reference is claimed exactly when the number of claims due of its block goes up with it. */
  lemma OneMoreDue(env: Env, t: seq<Ref>, r: Ref, b: BlockId)
    requires IdOf(env, r) == b
    ensures var k, c := Occurrences(env, t, b), CountAll(env, t);
            ClaimsDue(env, b, k + 1) == ClaimsDue(env, b, k) + (if AgainDedup(env, c, r) || AgainClone(env, c, r) then 0 else 1)
  {
    match b {
      case ByPlace(p) => DueByPlace(env, t, r, p);
      case ByEntry(key, v) => SeenVariants(env, t, key, v);
      case ByPrunedEntry(_) =>
    }
  }

  /** A place's reference is claimed exactly when the number of claims due goes up with it. */
  lemma DueByPlace(env: Env, t: seq<Ref>, r: Ref, p: Place)
    requires IdOf(env, r) == ByPlace(p)
    ensures var k := Occurrences(env, t, ByPlace(p));
            ClaimsDue(env, ByPlace(p), k + 1) ==
              ClaimsDue(env, ByPlace(p), k) + (if AgainClone(env, CountAll(env, t), r) then 0 else 1)
  {
    TrackedPlaces(env, t, p);
    RoundUp(Occurrences(env, t, ByPlace(p)), Clones(env, p));
  }

  lemma IssuedClaim(env: Env, c: Counts, r: Ref, b: BlockId)
    requires env.leak
    ensures Occurrences(env, Count(env, c, r).claims, b) == Occurrences(env, c.claims, b) +
              (if IdOf(env, r) == b && !AgainDedup(env, c, r) && !AgainClone(env, c, r) then 1 else 0)
  {
    assert (c.claims + [Canonical(env, r)])[..|c.claims|] == c.claims;
    assert IdOf(env, Canonical(env, r)) == IdOf(env, r);
  }

  /** A block is claimed exactly once if it is referenced, but no more often than its clones allow. */
  lemma ClaimedOnceIff(env: Env, p: Place, k: nat)
    ensures ClaimsDue(env, ByPlace(p), k) == 1 <==> 1 <= k <= Clones(env, p) + 1
  {
    var r := Clones(env, p);
    if k == 0 {
      Quotient(r, r + 1, 0, r);
    } else if k <= r + 1 {
      Quotient(k + r, r + 1, 1, k - 1);
    } else {
      var q := (k + r) / (r + 1);
      assert k + r == q * (r + 1) + (k + r) % (r + 1);
      assert q == 1 ==> q * (r + 1) == r + 1;
    }
  }

  // ----- Claims and the trees

  function BytesOf(d: Dva): set<Byte> {
    set x: nat | x < d.offset + d.asize && From(d.offset, x) :: Byte(d.vdev, x)
  }

  lemma {:induction false} BytesOfSize(d: Dva)
    ensures |BytesOf(d)| == d.asize
    decreases d.asize
  {
    if d.asize == 0 {
      assert BytesOf(d) == {};
    } else {
      var shorter := d.(asize := d.asize - 1);
      BytesOfSize(shorter);
      assert BytesOf(d) == BytesOf(shorter) + {Byte(d.vdev, d.offset + d.asize - 1)};
    }
  }

  /** Take the extents out of the tree one by one; each must be there, and not be empty. */
  ghost predicate Takes(tree: set<Byte>, ds: seq<Dva>) {
    || ds == []
    || (&& Takes(tree, ds[..|ds|-1])
        && ds[|ds|-1].asize > 0
        && BytesOf(ds[|ds|-1]) <= Rest(tree, ds[..|ds|-1]))
  }

  ghost function Rest(tree: set<Byte>, ds: seq<Dva>): set<Byte> {
    if ds == [] then tree else Rest(tree, ds[..|ds|-1]) - BytesOf(ds[|ds|-1])
  }

  lemma {:induction false} TakenSize(tree: set<Byte>, ds: seq<Dva>)
    requires Takes(tree, ds)
    ensures Rest(tree, ds) <= tree && |tree| == |Rest(tree, ds)| + Asize(ds)
  {
    if ds != [] {
      var n := |ds| - 1;
      TakenSize(tree, ds[..n]);
      BytesOfSize(ds[n]);
      var before := Rest(tree, ds[..n]);
      assert before == (before - BytesOf(ds[n])) + BytesOf(ds[n]);
    }
  }

  lemma {:induction false} RestMember(tree: set<Byte>, ds: seq<Dva>, x: Byte)
    ensures x in Rest(tree, ds) <==> x in tree && forall i :: 0 <= i < |ds| ==> x !in BytesOf(ds[i])
  {
    if ds != [] {
      RestMember(tree, ds[..|ds|-1], x);
      assert forall i :: 0 <= i < |ds| - 1 ==> ds[..|ds|-1][i] == ds[i];
    }
  }

  /** Extents that are allocated, not empty, and do not overlap one another. */
  ghost predicate Tiles(tree: set<Byte>, ds: seq<Dva>) {
    && (forall i :: 0 <= i < |ds| ==> ds[i].asize > 0 && BytesOf(ds[i]) <= tree)
    && (forall i, j :: 0 <= i < j < |ds| ==> BytesOf(ds[i]) !! BytesOf(ds[j]))
  }

  /** All claims succeed exactly when the claimed extents are allocated and pairwise disjoint. */
  lemma {:induction false} TakesIffTiles(tree: set<Byte>, ds: seq<Dva>)
    ensures Takes(tree, ds) <==> Tiles(tree, ds)
  {
    if ds != [] {
      var n := |ds| - 1;
      var t := ds[..n];
      TakesIffTiles(tree, t);
      assert forall i :: 0 <= i < n ==> t[i] == ds[i];
      if Tiles(tree, ds) {
        forall x | x in BytesOf(ds[n]) ensures x in Rest(tree, t) {
          RestMember(tree, t, x);
        }
      }
      if Takes(tree, ds) {
        forall x | x in BytesOf(ds[n]) ensures x in tree && forall i :: 0 <= i < n ==> x !in BytesOf(ds[i]) {
          RestMember(tree, t, x);
        }
      }
    }
  }

  /** The extents of all claims in the order they are made. */
  function ClaimedDvas(claims: seq<Ref>): seq<Dva> {
    if claims == [] then [] else ClaimedDvas(claims[..|claims|-1]) + claims[|claims|-1].dvas
  }

  lemma {:induction false} AsizeConcat(a: seq<Dva>, b: seq<Dva>)
    ensures Asize(a + b) == Asize(a) + Asize(b)
  {
    if b == [] {
      assert a + b == a;
    } else {
      assert (a + b)[..|a + b|-1] == a + b[..|b|-1];
      AsizeConcat(a, b[..|b|-1]);
    }
  }

  lemma {:induction false} ClaimedDvasAsize(claims: seq<Ref>)
    ensures Asize(ClaimedDvas(claims)) == ClaimedAsize(claims)
  {
    if claims != [] {
      ClaimedDvasAsize(claims[..|claims|-1]);
      AsizeConcat(ClaimedDvas(claims[..|claims|-1]), claims[|claims|-1].dvas);
    }
  }

  /** The leak verdict. `loaded` is what the space maps hold, `checkpoint` the extents that only the
      checkpoint holds and that are excluded first. If every exclusion and claim succeeds, the
      difference between allocation and block sum is the number of bytes left in the trees, and "no
      leaks" is printed exactly when the checkpoint's and the claimed extents tile the space maps. */
  lemma LeakVerdict(env: Env, s: seq<Ref>, loaded: set<Byte>, checkpoint: seq<Dva>)
    requires env.leak
    requires Takes(loaded, checkpoint + ClaimedDvas(CountAll(env, s).claims))
    ensures var c := CountAll(env, s);
            var found := c.total - c.dedup - c.clone + Asize(checkpoint);
            var left := Rest(loaded, checkpoint + ClaimedDvas(c.claims));
            && |loaded| - found == |left|
            && (|loaded| == found <==>
                  forall x :: x in loaded ==> Covered(checkpoint + ClaimedDvas(c.claims), x))
  {
    var c := CountAll(env, s);
    var ds := checkpoint + ClaimedDvas(c.claims);
    TotalsBalance(env, s);
    ClaimedDvasAsize(c.claims);
    AsizeConcat(checkpoint, ClaimedDvas(c.claims));
    TakenSize(loaded, ds);
    forall x | x in loaded ensures x in Rest(loaded, ds) <==> !Covered(ds, x) {
      RestMember(loaded, ds, x);
    }
    assert |Rest(loaded, ds)| == 0 <==> Rest(loaded, ds) == {};
  }

  ghost predicate Covered(ds: seq<Dva>, x: Byte) {
    exists i :: 0 <= i < |ds| && x in BytesOf(ds[i])
  }

  // ----- The counting as the tool does it

  /** The counters after the references `s`, every claim so far having been met out of `base`. */
  ghost predicate Counted(env: Env, s: seq<Ref>, base: set<Byte>, c: Counts, tree: set<Byte>) {
    && c == CountAll(env, s)
    && (forall p :: p in c.brt ==> c.brt[p] > 0)
    && Takes(base, ClaimedDvas(c.claims))
    && tree == Rest(base, ClaimedDvas(c.claims))
  }

  class Census {
    const env: Env
    var seen: set<(nat, Variant)>
    var brt: map<Place, nat>
    var total: nat
    var dedup: nat
    var clone: nat
    var tree: set<Byte>
    ghost var claims: seq<Ref>

    constructor (env: Env, tree: set<Byte>)
      ensures this.env == env && this.tree == tree && State() == ZERO
    {
      this.env, this.tree := env, tree;
      seen, brt, total, dedup, clone, claims := {}, map[], 0, 0, 0, [];
    }

    ghost function State(): Counts
      reads this
    {
      Counts(seen, brt, total, dedup, clone, claims)
    }

    /** Claim a block's DVAs in turn; `false` stands for the failed assertion on the claim. */
    method Claim(dvas: seq<Dva>) returns (ok: bool)
      modifies this`tree
      ensures ok <==> Takes(old(tree), dvas)
      ensures ok ==> tree == Rest(old(tree), dvas)
    {
      var n := 0;
      while n < |dvas|
        invariant 0 <= n <= |dvas|
        invariant Takes(old(tree), dvas[..n]) && tree == Rest(old(tree), dvas[..n])
      {
        assert dvas[..n+1][..n] == dvas[..n];
        if dvas[n].asize == 0 || !(BytesOf(dvas[n]) <= tree) {
          TakesPrefix(old(tree), dvas, n + 1);
          return false;
        }
        tree := tree - BytesOf(dvas[n]);
        n := n + 1;
      }
      assert dvas[..n] == dvas;
      ok := true;
    }

    /** Update the counters for one reference; say what to claim, if anything. */
    method Tally(r: Ref) returns (doClaim: bool, bp: Ref)
      requires forall p :: p in brt ==> brt[p] > 0
      modifies this
      ensures tree == old(tree) && claims == old(claims)
      ensures bp == Canonical(env, r)
      ensures State().(claims := if doClaim then claims + [bp] else claims) == Count(env, old(State()), r)
      ensures forall p :: p in brt ==> brt[p] > 0
    {
      doClaim, bp := env.leak, r;
      if r.dedup {
        if r.key in env.ddt {
          var again := (r.key, r.variant) in seen;
          if !again {
            seen := seen + {(r.key, r.variant)};
          }
          if r.variant == Flat {
            bp := r.(dvas := env.ddt[r.key]);
          }
          if again {
            dedup := dedup + Asize(bp.dvas);
            doClaim := false;
          }
        }
      } else if env.brtActive && PlaceOf(r) in env.maybe {
        var p := PlaceOf(r);
        if p !in brt {
          var refcnt := if p in env.brt then env.brt[p] else 0;
          if refcnt > 0 {
            brt := brt[p := refcnt];
          }
        } else {
          clone := clone + Asize(bp.dvas);
          if brt[p] - 1 == 0 {
            brt := brt - {p};
          } else {
            brt := brt[p := brt[p] - 1];
          }
          doClaim := false;
        }
      }
      total := total + Asize(bp.dvas);
    }

    /** Count one reference and claim its block unless it was claimed before. `base` is the tree
        before the first claim, `done` the references counted so far. */
    method CountBlock(r: Ref, ghost base: set<Byte>, ghost done: seq<Ref>) returns (ok: bool)
      requires Counted(env, done, base, State(), tree)
      modifies this
      ensures ok <==> Takes(base, ClaimedDvas(CountAll(env, done + [r]).claims))
      ensures ok ==> Counted(env, done + [r], base, State(), tree)
    {
      ghost var was := State();
      var doClaim, bp := Tally(r);
      ghost var next := State().(claims := if doClaim then claims + [bp] else claims);
      CountedStep(env, done, r, base, was, tree, next, doClaim, bp);
      if !doClaim {
        assert State() == next;
        return true;
      }
      claims := claims + [bp];
      ok := Claim(bp.dvas);
      assert State() == next;
    }

    /** The whole leak check: exclude what only the checkpoint holds, count every reference, and
        compare the allocation that the pool's statistics give with the block sum. `ok` is false when
        an assertion on the way fails. */
    method LeakCheck(checkpoint: seq<Dva>, s: seq<Ref>, totalAlloc: int) returns (ok: bool, noLeaks: bool)
      requires env.leak && State() == ZERO
      modifies this
      ensures ok <==> Takes(old(tree), checkpoint + ClaimedDvas(CountAll(env, s).claims))
      ensures ok ==> State() == CountAll(env, s)
      ensures ok ==> tree == Rest(old(tree), checkpoint + ClaimedDvas(CountAll(env, s).claims))
      ensures ok ==> (noLeaks <==> totalAlloc - |old(tree)| + |tree| == 0)
      ensures ok && totalAlloc == |old(tree)| ==> (noLeaks <==> tree == {})
    {
      noLeaks := false;
      ghost var loaded := tree;
      TakesConcat(loaded, checkpoint, ClaimedDvas(CountAll(env, s).claims));
      ok := Claim(checkpoint);
      if !ok {
        return;
      }
      ok := CountStream(s);
      if ok {
        VerdictFromSizes(env, s, loaded, checkpoint);
        noLeaks := totalAlloc == total - dedup - clone + Asize(checkpoint);
      }
    }

    method CountStream(s: seq<Ref>) returns (ok: bool)
      requires State() == ZERO
      modifies this
      ensures ok <==> Takes(old(tree), ClaimedDvas(CountAll(env, s).claims))
      ensures ok ==> State() == CountAll(env, s) && tree == Rest(old(tree), ClaimedDvas(CountAll(env, s).claims))
    {
      ghost var base := tree;
      var n := 0;
      while n < |s|
        invariant 0 <= n <= |s|
        invariant Counted(env, s[..n], base, State(), tree)
      {
        assert s[..n+1] == s[..n] + [s[n]];
        ok := CountBlock(s[n], base, s[..n]);
        if !ok {
          FailsForGood(env, s, n + 1, base);
          return;
        }
        n := n + 1;
      }
      assert s[..n] == s;
      ok := true;
    }
  }

  lemma CountedStep(env: Env, done: seq<Ref>, r: Ref, base: set<Byte>, c: Counts, tree: set<Byte>, c': Counts, doClaim: bool, bp: Ref)
    requires Counted(env, done, base, c, tree)
    requires c' == Count(env, c, r) && c'.claims == (if doClaim then c.claims + [bp] else c.claims)
    requires forall p :: p in c'.brt ==> c'.brt[p] > 0
    ensures c' == CountAll(env, done + [r])
    ensures !doClaim ==> Counted(env, done + [r], base, c', tree)
    ensures doClaim ==> (Takes(base, ClaimedDvas(c'.claims)) <==> Takes(tree, bp.dvas))
    ensures doClaim && Takes(tree, bp.dvas) ==> Counted(env, done + [r], base, c', Rest(tree, bp.dvas))
  {
    assert (done + [r])[..|done|] == done;
    OneMoreClaim(base, c.claims, bp);
  }

  lemma VerdictFromSizes(env: Env, s: seq<Ref>, loaded: set<Byte>, checkpoint: seq<Dva>)
    requires env.leak
    requires Takes(loaded, checkpoint + ClaimedDvas(CountAll(env, s).claims))
    ensures var c := CountAll(env, s);
            var left := Rest(loaded, checkpoint + ClaimedDvas(c.claims));
            |loaded| - |left| == c.total - c.dedup - c.clone + Asize(checkpoint) && (|left| == 0 <==> left == {})
  {
    LeakVerdict(env, s, loaded, checkpoint);
  }

  lemma {:induction false} TakesConcat(tree: set<Byte>, a: seq<Dva>, b: seq<Dva>)
    ensures Takes(tree, a + b) <==> Takes(tree, a) && Takes(Rest(tree, a), b)
    ensures Rest(tree, a + b) == Rest(Rest(tree, a), b)
  {
    if b == [] {
      assert a + b == a;
    } else {
      assert (a + b)[..|a + b|-1] == a + b[..|b|-1];
      TakesConcat(tree, a, b[..|b|-1]);
    }
  }

  /** Claims are only ever added, so a claim that fails makes the whole stream fail. */
  lemma {:induction false} ClaimsOnlyGrow(env: Env, s: seq<Ref>, n: nat)
    requires n <= |s|
    ensures CountAll(env, s[..n]).claims <= CountAll(env, s).claims
  {
    if n == |s| {
      assert s[..n] == s;
    } else {
      ClaimsOnlyGrow(env, s[..|s|-1], n);
      assert s[..|s|-1][..n] == s[..n];
    }
  }

  lemma {:induction false} ClaimedDvasConcat(a: seq<Ref>, b: seq<Ref>)
    ensures ClaimedDvas(a + b) == ClaimedDvas(a) + ClaimedDvas(b)
  {
    if b == [] {
      assert a + b == a;
    } else {
      assert (a + b)[..|a + b|-1] == a + b[..|b|-1];
      ClaimedDvasConcat(a, b[..|b|-1]);
    }
  }

  lemma OneMoreClaim(base: set<Byte>, claims: seq<Ref>, bp: Ref)
    ensures Takes(base, ClaimedDvas(claims + [bp])) <==>
            Takes(base, ClaimedDvas(claims)) && Takes(Rest(base, ClaimedDvas(claims)), bp.dvas)
    ensures Rest(base, ClaimedDvas(claims + [bp])) == Rest(Rest(base, ClaimedDvas(claims)), bp.dvas)
  {
    assert (claims + [bp])[..|claims|] == claims;
    TakesConcat(base, ClaimedDvas(claims), bp.dvas);
  }

  lemma FailsForGood(env: Env, s: seq<Ref>, n: nat, base: set<Byte>)
    requires n <= |s|
    ensures Takes(base, ClaimedDvas(CountAll(env, s).claims)) ==> Takes(base, ClaimedDvas(CountAll(env, s[..n]).claims))
  {
    ClaimsOnlyGrow(env, s, n);
    var some, all := CountAll(env, s[..n]).claims, CountAll(env, s).claims;
    assert all == some + all[|some|..];
    ClaimedDvasConcat(some, all[|some|..]);
    TakesConcat(base, ClaimedDvas(some), ClaimedDvas(all[|some|..]));
  }

  lemma {:induction false} TakesPrefix(tree: set<Byte>, ds: seq<Dva>, n: nat)
    requires n <= |ds|
    ensures Takes(tree, ds) ==> Takes(tree, ds[..n])
  {
    if n == |ds| {
      assert ds[..n] == ds;
    } else {
      TakesPrefix(tree, ds[..|ds|-1], n);
      assert ds[..|ds|-1][..n] == ds[..n];
    }
  }
}
