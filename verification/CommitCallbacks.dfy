/**
 The list of outstanding commit callbacks of the tester. Each transaction adds
 three, scanning back from the tail for their place, and a callback takes itself
 off whenever it happens to be called.
 */
module CommitCallbacks {

  const THRESHOLD := 1003   // the concurrent states of a transaction group, and 1000

  const UINT64_MAX := 0xffff_ffff_ffff_ffff

  datatype Callback = Callback(id: nat, txg: nat)

  /** A transaction that registers callbacks, or the call of the callback at a place in the list. */
  datatype Event = Transaction(txg: nat) | Call(i: nat, synced: nat)

  ghost predicate Sorted(list: seq<Callback>) {
    forall i, j :: 0 <= i < j < |list| ==> list[i].txg <= list[j].txg
  }

  ghost predicate DistinctIds(list: seq<Callback>) {
    forall i, j :: 0 <= i < j < |list| ==> list[i].id != list[j].id
  }

  ghost predicate Overdue(list: seq<Callback>, txg: nat) {
    exists i :: 0 <= i < |list| && list[i].txg + THRESHOLD < txg
  }

  /** The place for a transaction group: after all that are not later. */
  ghost predicate PlaceFor(list: seq<Callback>, txg: nat, k: nat) {
    && k <= |list|
    && (forall i :: 0 <= i < k ==> list[i].txg <= txg)
    && (forall i :: k <= i < |list| ==> txg < list[i].txg)
  }

  /** There is only one such place, so what an insertion does is settled. */
  lemma PlaceIsUnique(list: seq<Callback>, txg: nat, k: nat, l: nat)
    requires PlaceFor(list, txg, k) && PlaceFor(list, txg, l)
    ensures k == l
  {
    assert k < |list| ==> txg < list[k].txg;
    assert l < |list| ==> txg < list[l].txg;
  }

  lemma HeadIsOldest(list: seq<Callback>, txg: nat)
    requires Sorted(list) && list != []
    ensures Overdue(list, txg) <==> list[0].txg + THRESHOLD < txg
  {
    if i :| 0 <= i < |list| && list[i].txg + THRESHOLD < txg {
      assert i == 0 || list[0].txg <= list[i].txg;
    }
  }

  ghost predicate AllOf(list: seq<Callback>, txg: nat) {
    forall i :: 0 <= i < |list| ==> list[i].txg == txg
  }

  lemma InsertedSorted(list: seq<Callback>, new': seq<Callback>, txg: nat, k: nat)
    requires Sorted(list) && PlaceFor(list, txg, k) && AllOf(new', txg)
    ensures Sorted(list[..k] + new' + list[k..])
  {
    var all := list[..k] + new' + list[k..];
    forall i, j | 0 <= i < j < |all| ensures all[i].txg <= all[j].txg {
      assert all[i] == if i < k then list[i] else if i < k + |new'| then new'[i - k] else list[i - |new'|];
      assert all[j] == if j < k then list[j] else if j < k + |new'| then new'[j - k] else list[j - |new'|];
    }
  }

  ghost predicate IdsBelow(list: seq<Callback>, bound: nat) {
    forall i :: 0 <= i < |list| ==> list[i].id < bound
  }

  lemma InsertedDistinct(list: seq<Callback>, new': seq<Callback>, k: nat, bound: nat)
    requires DistinctIds(list) && DistinctIds(new') && k <= |list| && NoneIn(new', list) && IdsBelow(list, bound) && IdsBelow(new', bound)
    ensures DistinctIds(list[..k] + new' + list[k..]) && IdsBelow(list[..k] + new' + list[k..], bound)
  {
    var all := list[..k] + new' + list[k..];
    forall i, j | 0 <= i < j < |all| ensures all[i].id != all[j].id {
      assert all[i] == if i < k then list[i] else if i < k + |new'| then new'[i - k] else list[i - |new'|];
      assert all[j] == if j < k then list[j] else if j < k + |new'| then new'[j - k] else list[j - |new'|];
    }
  }

  ghost predicate NoneIn(new': seq<Callback>, list: seq<Callback>) {
    forall i, j :: 0 <= i < |new'| && 0 <= j < |list| ==> new'[i].id != list[j].id
  }

  /** The three callbacks of one transaction, numbered from `id` on. */
  function Three(id: nat, txg: nat): seq<Callback> {
    [Callback(id, txg), Callback(id + 1, txg), Callback(id + 2, txg)]
  }

  lemma ThreeAreNew(list: seq<Callback>, id: nat, txg: nat)
    requires IdsBelow(list, id)
    ensures var data := Three(id, txg); AllOf(data, txg) && DistinctIds(data) && IdsBelow(data, id + 3) && NoneIn(data, list)
    ensures IdsBelow(list, id + 3)
  {
  }

  class CallbackList {
    var callbacks: seq<Callback>
    var nextId: nat
    var minDelay: nat
    ghost var delays: seq<nat>

    ghost predicate Valid()
      reads this
    {
      && Sorted(callbacks) && DistinctIds(callbacks)
      && IdsBelow(callbacks, nextId)
      && minDelay <= UINT64_MAX
      && (if delays == [] then minDelay == UINT64_MAX else minDelay in delays)
      && (forall d :: d in delays ==> minDelay <= d)
    }

    constructor ()
      ensures Valid() && callbacks == [] && delays == []
    {
      callbacks, nextId, minDelay, delays := [], 0, UINT64_MAX, [];
    }

    /** Check the head of the list for being overdue, then put three callbacks in, one after the
        other behind the last that is not later. */
    method Insert(txg: nat) returns (fatal: bool, ghost k: nat)
      requires Valid()
      modifies this`callbacks, this`nextId
      ensures Valid() && (fatal <==> Overdue(old(callbacks), txg))
      ensures fatal ==> callbacks == old(callbacks) && nextId == old(nextId)
      ensures !fatal ==> nextId == old(nextId) + 3
      ensures !fatal ==> PlaceFor(old(callbacks), txg, k) && callbacks == old(callbacks)[..k] + Three(old(nextId), txg) + old(callbacks)[k..]
    {
      k := 0;
      if callbacks != [] {
        HeadIsOldest(callbacks, txg);
        if callbacks[0].txg + THRESHOLD < txg {
          return true, 0;
        }
      }
      ThreeAreNew(callbacks, nextId, txg);
      var data := Three(nextId, txg);
      nextId := nextId + 3;
      var at := FindPlace(txg);
      k := at;
      InsertedSorted(callbacks, data, txg, k);
      InsertedDistinct(callbacks, data, k, nextId);
      Splice(data, at);
      fatal := false;
    }

    /** Scan back from the tail for the last callback that is not later. */
    method FindPlace(txg: nat) returns (at: nat)
      requires Sorted(callbacks)
      ensures PlaceFor(callbacks, txg, at)
    {
      at := |callbacks|;
      while at > 0 && callbacks[at-1].txg > txg
        invariant 0 <= at <= |callbacks| && forall i :: at <= i < |callbacks| ==> txg < callbacks[i].txg
      {
        at := at - 1;
      }
    }

    /** Insert one after the other, each behind the one before. */
    method Splice(data: seq<Callback>, place: nat)
      requires place <= |callbacks|
      modifies this`callbacks
      ensures callbacks == old(callbacks)[..place] + data + old(callbacks)[place..]
    {
      var at := place;
      for i := 0 to |data|
        invariant at == place + i <= |callbacks|
        invariant callbacks == old(callbacks)[..place] + data[..i] + old(callbacks)[place..]
      {
        assert data[..i+1] == data[..i] + [data[i]];
        callbacks := callbacks[..at] + [data[i]] + callbacks[at..];
        at := at + 1;
      }
      assert data[..|data|] == data;
    }

    /** A callback takes itself off the list, wherever it is, and notes how soon it was called.
        `false` stands for being called before its transaction group was synced. */
    method Fire(i: nat, synced: nat) returns (ok: bool)
      requires Valid() && i < |callbacks| && synced <= UINT64_MAX
      modifies this`callbacks, this`minDelay, this`delays
      ensures Valid() && (ok <==> old(callbacks)[i].txg <= synced)
      ensures ok ==> callbacks == old(callbacks)[..i] + old(callbacks)[i+1..] && delays == old(delays) + [synced - old(callbacks)[i].txg]
      ensures !ok ==> callbacks == old(callbacks) && delays == old(delays)
    {
      if callbacks[i].txg > synced {
        return false;
      }
      var delay := synced - callbacks[i].txg;
      if delay < minDelay {
        minDelay := delay;
      }
      delays := delays + [delay];
      callbacks := callbacks[..i] + callbacks[i+1..];
      ok := true;
    }

    /** Any interleaving of transactions and called callbacks, up to the first that fails. */
    method Run(events: seq<Event>) returns (n: nat)
      requires Valid() && forall e :: e in events ==> e.Call? ==> e.synced <= UINT64_MAX
      modifies this
      ensures Valid() && n <= |events| && Pending(callbacks, nextId) == Play(old(callbacks), old(nextId), events[..n])
      ensures n < |events| ==> !Passes(callbacks, events[n])
      ensures AllPass(old(callbacks), old(nextId), events[..n])
    {
      n := 0;
      while n < |events|
        invariant Valid() && n <= |events| && Pending(callbacks, nextId) == Play(old(callbacks), old(nextId), events[..n])
        invariant AllPass(old(callbacks), old(nextId), events[..n])
      {
        NextPlayed(old(callbacks), old(nextId), events, n);
        assert events[n] in events;
        var ok := Next(events[n]);
        if !ok {
          return;
        }
        n := n + 1;
      }
    }

    method Next(e: Event) returns (ok: bool)
      requires Valid() && (e.Call? ==> e.synced <= UINT64_MAX)
      modifies this
      ensures Valid() && (ok <==> Passes(old(callbacks), e))
      ensures Pending(callbacks, nextId) == if ok then After(Pending(old(callbacks), old(nextId)), e) else Pending(old(callbacks), old(nextId))
    {
      match e {
        case Transaction(txg) =>
          var fatal, k := Insert(txg);
          ok := !fatal;
          if ok {
            PlacedAt(old(callbacks), Three(old(nextId), txg), txg, k);
          }
        case Call(i, synced) =>
          if i >= |callbacks| {
            return false;
          }
          ok := Fire(i, synced);
      }
    }
  }

  // ----- Whole runs

  datatype Pending = Pending(list: seq<Callback>, nextId: nat)

  /** Insertion said without an index: before the later ones at the end. */
  function Placed(list: seq<Callback>, new': seq<Callback>, txg: nat): seq<Callback> {
    if list != [] && list[|list|-1].txg > txg then Placed(list[..|list|-1], new', txg) + [list[|list|-1]]
    else list + new'
  }

  lemma {:induction false} PlacedAt(list: seq<Callback>, new': seq<Callback>, txg: nat, k: nat)
    requires PlaceFor(list, txg, k)
    ensures Placed(list, new', txg) == list[..k] + new' + list[k..]
  {
    if k < |list| {
      var rest := list[..|list|-1];
      PlacedAt(rest, new', txg, k);
      assert rest[..k] == list[..k] && rest[k..] + [list[|list|-1]] == list[k..];
    } else {
      assert list[..k] == list && list[k..] == [];
    }
  }

  /** Whether an event passes its checks: no callback at all is overdue, or the one called is synced. */
  ghost predicate Passes(list: seq<Callback>, e: Event) {
    match e
    case Transaction(txg) => !Overdue(list, txg)
    case Call(i, synced) => i < |list| && list[i].txg <= synced
  }

  function After(p: Pending, e: Event): Pending {
    match e
    case Transaction(txg) => Pending(Placed(p.list, Three(p.nextId, txg), txg), p.nextId + 3)
    case Call(i, _) => if i < |p.list| then p.(list := p.list[..i] + p.list[i+1..]) else p
  }

  function Play(list: seq<Callback>, nextId: nat, events: seq<Event>): Pending {
    if events == [] then Pending(list, nextId) else After(Play(list, nextId, events[..|events|-1]), events[|events|-1])
  }

  ghost predicate AllPass(list: seq<Callback>, nextId: nat, events: seq<Event>) {
    events == [] ||
    var n := |events| - 1; AllPass(list, nextId, events[..n]) && Passes(Play(list, nextId, events[..n]).list, events[n])
  }

  lemma NextPlayed(list: seq<Callback>, nextId: nat, events: seq<Event>, n: nat)
    requires n < |events|
    ensures Play(list, nextId, events[..n+1]) == After(Play(list, nextId, events[..n]), events[n])
    ensures AllPass(list, nextId, events[..n+1]) <==>
              AllPass(list, nextId, events[..n]) && Passes(Play(list, nextId, events[..n]).list, events[n])
  {
    assert events[..n+1][..n] == events[..n];
  }
}
