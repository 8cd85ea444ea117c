/**
 The number of dRAID groups of a test pool: the smallest number of stripes that
 fills whole rows of the data drives.
 */
module DraidGroups {
  import opened Basics

  ghost predicate Divides(a: nat, b: nat) { exists q: nat :: Times(a, q) == b }

  function Times(a: nat, b: nat): nat { a * b }

  lemma Multiple(g: nat, w: nat, d: nat)
    requires d > 0
    ensures g * w % d == 0 <==> Divides(d, g * w)
  {
    if g * w % d == 0 {
      assert Times(d, g * w / d) == g * w;
    }
    if Divides(d, g * w) {
      var q: nat :| Times(d, q) == g * w;
      Quotient(g * w, d, q, 0);
    }
  }

  /** Multiples of `d` stay so when one is taken off another. */
  lemma Difference(d: nat, a: nat, b: nat)
    requires Divides(d, a) && Divides(d, b) && b <= a && d > 0
    ensures Divides(d, a - b)
  {
    var p: nat, q: nat :| Times(d, p) == a && Times(d, q) == b;
    if p < q {
      NextMultiple(p, q, d);
      assert false;
    }
    Distribute(d, p, q);
    assert Times(d, p - q) == a - b;
  }

  lemma Distribute(d: nat, p: nat, q: nat)
    requires q <= p
    ensures d * (p - q) == d * p - d * q
  {
  }

  lemma MultipleOf(d: nat, a: nat, q: nat)
    requires Divides(d, a)
    ensures Divides(d, q * a)
  {
    var p: nat :| Times(d, p) == a;
    assert q * (d * p) == d * (q * p);
    assert Times(d, q * p) == q * a;
  }

  /** `g` stripes of width `w` fill whole rows of `d` drives, and no smaller number does. */
  ghost predicate Smallest(g: nat, w: nat, d: nat) {
    g > 0 && Divides(d, Times(g, w)) && forall h: nat :: 0 < h < g ==> !Divides(d, Times(h, w))
  }

  lemma Reorder(g: nat, q: nat, w: nat)
    ensures q * (g * w) == g * q * w
  {
    assert q * (g * w) == q * g * w;
  }

  lemma SplitOff(g: nat, q: nat, r: nat, w: nat)
    ensures (g * q + r) * w == q * (g * w) + r * w
  {
    Reorder(g, q, w);
  }

  lemma MultipleFills(g: nat, w: nat, d: nat, h: nat)
    requires Divides(d, Times(g, w)) && Divides(g, h)
    ensures Divides(d, Times(h, w))
  {
    var q: nat :| Times(g, q) == h;
    MultipleOf(d, Times(g, w), q);
    Reorder(g, q, w);
  }

  lemma RemainderFills(g: nat, w: nat, d: nat, q: nat, r: nat)
    requires d > 0 && Divides(d, Times(g, w)) && Divides(d, Times(g * q + r, w))
    ensures Divides(d, Times(r, w))
  {
    MultipleOf(d, Times(g, w), q);
    SplitOff(g, q, r, w);
    Difference(d, Times(g * q + r, w), q * (g * w));
  }

  /** Numbers of stripes that fill whole rows are the multiples of the smallest. */
  lemma FillsIffMultiple(g: nat, w: nat, d: nat, h: nat)
    requires d > 0 && Smallest(g, w, d)
    ensures Divides(d, Times(h, w)) <==> Divides(g, h)
  {
    if Divides(g, h) {
      MultipleFills(g, w, d, h);
    }
    if Divides(d, Times(h, w)) {
      RemainderFills(g, w, d, h / g, h % g);
      assert Times(g, h / g) == h;
    }
  }

  /** So the stripes together are the least common multiple of the width and the drives: a common
      multiple, and one that divides every other. */
  lemma LeastCommonMultiple(g: nat, w: nat, d: nat, m: nat)
    requires w > 0 && d > 0 && Smallest(g, w, d)
    ensures Divides(w, g * w) && Divides(d, g * w)
    ensures Divides(w, m) && Divides(d, m) <==> Divides(g * w, m)
  {
    assert Times(w, g) == g * w;
    if Divides(w, m) && Divides(d, m) {
      var h: nat :| Times(w, h) == m;
      assert Times(h, w) == m;
      FillsIffMultiple(g, w, d, h);
      var q: nat :| Times(g, q) == h;
      assert Times(g * w, q) == m by { assert g * w * q == g * q * w; }
    }
    if Divides(g * w, m) {
      var q: nat :| Times(g * w, q) == m;
      MultipleOf(d, g * w, q);
      MultipleOf(w, g * w, q);
      assert q * (g * w) == m;
    }
  }

  /** Count the groups. The search ends after at most as many steps as there are data drives. */
  method Groups(ndata: nat, nparity: nat, nspares: nat, children: nat) returns (ngroups: nat)
    requires nspares < children
    ensures Smallest(ngroups, ndata + nparity, children - nspares)
    ensures ngroups <= children - nspares
    ensures ndata + nparity == 0 ==> ngroups == 1
  {
    var w, d := ndata + nparity, children - nspares;
    ngroups := 1;
    AtMostAllRows(w, d);
    while ngroups * w % d != 0
      invariant 0 < ngroups <= d
      invariant forall h: nat :: 0 < h < ngroups ==> !Divides(d, Times(h, w))
      decreases d - ngroups
    {
      Multiple(ngroups, w, d);
      assert !Divides(d, Times(ngroups, w));
      ngroups := ngroups + 1;
    }
    Multiple(ngroups, w, d);
    assert Divides(d, Times(ngroups, w));
    assert w == 0 ==> Times(d, 0) == Times(1, w);
  }

  lemma AtMostAllRows(w: nat, d: nat)
    ensures Divides(d, Times(d, w))
  {
  }
}
