/**
 What several of the models share: an optional value, the contents of objects
 by word, and facts of set sizes, products and quotients that the solver does
 not find by itself.
 */
module Basics {

  datatype Option<T> = None | Some(value: T)

  function Max(a: nat, b: nat): nat { if a < b then b else a }

  /** A random number below `range`, drawn from the random word `r`: 0 for an empty range. */
  function Random(r: nat, range: nat): nat { if range == 0 then 0 else r % range }

  predicate From(offset: nat, w: nat) { offset <= w }

  /** Contents by word: `cells` written from `offset` on, and a range freed. */
  function Stored<T>(data: map<nat, T>, offset: nat, cells: seq<T>): map<nat, T> {
    data + (map w: nat | w < offset + |cells| && From(offset, w) :: cells[w - offset])
  }

  function Freed<T>(data: map<nat, T>, offset: nat, length: nat): map<nat, T> {
    map w: nat | w in data && !(offset <= w < offset + length) :: data[w]
  }

  lemma SubsetSize<T>(a: set<T>, b: set<T>)
    requires a <= b
    ensures |a| <= |b|
  {
    assert b == a + (b - a);
  }

  lemma Regroup(a: nat, b: nat, c: nat)
    ensures a * b * c == a * (b * c)
  {
  }

  /** Of two multiples of `n` the larger is at least one `n` on. */
  lemma NextMultiple(a: nat, b: nat, n: nat)
    requires a < b
    ensures a * n + n <= b * n
  {
    var k := b - a - 1;
    assert b * n == a * n + n + k * n;
  }

  /** Quotient and remainder are the only ones of their kind. */
  lemma Quotient(x: nat, n: nat, q: nat, r: nat)
    requires r < n && x == q * n + r
    ensures x / n == q && x % n == r
  {
    var p := x / n;
    assert x == p * n + x % n;
    if p > q {
      NextMultiple(q, p, n);
    } else if p < q {
      NextMultiple(p, q, n);
    }
  }
}
