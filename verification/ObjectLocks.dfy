/**
 The reader/writer locks of the storage tester and the two levels they are used
 in: an operation takes one object lock, then at most one range lock, and gives
 them back in the opposite order. Objects and offsets are hashed to the locks,
 so unrelated operations can meet on one. The proofs hold for any assignment of
 locks to operations.
 */
module ObjectLocks {
  import opened Basics

  datatype Kind = Reader | Writer

  datatype LockId = Object(index: nat) | Range(index: nat)

  datatype Rll = Rll(writer: bool, readers: nat) {
    predicate IsFree() {
      !writer && readers == 0
    }

    /** The condition that a locker waits for. */
    predicate Admits(kind: Kind) {
      !writer && (kind == Reader || readers == 0)
    }
  }

  /** How far an operation has come. `asleep` means waiting on the condition variable; awake, it
      is about to test the condition. */
  datatype Pc =
    | NotStarted
    | WantObject(asleep: bool)
    | HasObject
    | WantRange(asleep: bool)
    | HasBoth
    | HasObjectLast
    | Done

  /** One operation and the locks it uses; those without a range lock only take the object lock. */
  datatype Op = Op(obj: nat, objKind: Kind, range: Option<nat>, rangeKind: Kind, pc: Pc) {

    predicate Asleep() {
      match pc
      case WantObject(a) => a
      case WantRange(a) => a
      case _ => false
    }

    predicate Waiting() {
      pc.WantObject? || pc.WantRange?
    }

    predicate Wants(l: LockId, kind: Kind) {
      || (pc.WantObject? && l == Object(obj) && kind == objKind)
      || (pc.WantRange? && range.Some? && l == Range(range.value) && kind == rangeKind)
    }

    predicate Holds(l: LockId, kind: Kind) {
      || ((pc == HasObject || pc.WantRange? || pc == HasBoth || pc == HasObjectLast) && l == Object(obj) && kind == objKind)
      || (pc == HasBoth && range.Some? && l == Range(range.value) && kind == rangeKind)
    }

    /** The steps it still has to take, not counting those of falling asleep and being woken. */
    function Remaining(): nat {
      match pc
      case NotStarted => 6
      case WantObject(_) => 5
      case HasObject => 4
      case WantRange(_) => 3
      case HasBoth => 2
      case HasObjectLast => 1
      case Done => 0
    }

    function Woken(l: LockId): Op {
      if Wants(l, Reader) || Wants(l, Writer) then this.(pc := if pc.WantObject? then WantObject(false) else WantRange(false))
      else this
    }
  }

  datatype State = State(locks: map<LockId, Rll>, ops: seq<Op>)

  function LockOf(s: State, l: LockId): Rll {
    if l in s.locks then s.locks[l] else Rll(false, 0)
  }

  // ----- Steps

  /** The two functions of the lock. Locking either takes the lock or sleeps. Unlocking may be done
      by another thread than the one that locked; it wakes all sleepers, but only when the lock has
      become free. */
  function Lock(s: State, i: nat, l: LockId, kind: Kind, got: Pc, sleeping: Pc): State
    requires i < |s.ops|
  {
    var rll := LockOf(s, l);
    if rll.Admits(kind) then
      State(s.locks[l := if kind == Reader then rll.(readers := rll.readers + 1) else rll.(writer := true)],
            s.ops[i := s.ops[i].(pc := got)])
    else s.(ops := s.ops[i := s.ops[i].(pc := sleeping)])
  }

  function Released(rll: Rll): Rll {
    if rll.writer then rll.(writer := false)
    else if rll.readers > 0 then rll.(readers := rll.readers - 1)
    else rll
  }

  function Broadcast(ops: seq<Op>, l: LockId): (r: seq<Op>)
    ensures |r| == |ops| && forall j :: 0 <= j < |ops| ==> r[j] == ops[j].Woken(l)
  {
    seq(|ops|, j requires 0 <= j < |ops| => ops[j].Woken(l))
  }

  function Unlock(s: State, i: nat, l: LockId, next: Pc): State
    requires i < |s.ops|
  {
    var rll := Released(LockOf(s, l));
    var ops := s.ops[i := s.ops[i].(pc := next)];
    State(s.locks[l := rll], if rll.IsFree() then Broadcast(ops, l) else ops)
  }

  /** Operation `i` takes its next step. From `HasObject` it either calls for its range lock or, if it
      has none or gives up on an error, releases the object. */
  predicate Moves(s: State, t: State, i: nat)
    requires i < |s.ops|
  {
    var op := s.ops[i];
    match op.pc
    case NotStarted => t == s.(ops := s.ops[i := op.(pc := WantObject(false))])
    case WantObject(asleep) =>
      !asleep && t == Lock(s, i, Object(op.obj), op.objKind, HasObject, WantObject(true))
    case HasObject =>
      || (op.range.Some? && t == s.(ops := s.ops[i := op.(pc := WantRange(false))]))
      || t == Unlock(s, i, Object(op.obj), Done)
    case WantRange(asleep) =>
      op.range.Some? && !asleep && t == Lock(s, i, Range(op.range.value), op.rangeKind, HasBoth, WantRange(true))
    case HasBoth => op.range.Some? && t == Unlock(s, i, Range(op.range.value), HasObjectLast)
    case HasObjectLast => t == Unlock(s, i, Object(op.obj), Done)
    case Done => false
  }

  /** A sleeper may also wake for no reason and test the condition again. */
  predicate WakesUp(s: State, t: State, i: nat)
    requires i < |s.ops|
  {
    s.ops[i].Asleep() && t == s.(ops := s.ops[i := s.ops[i].(pc := if s.ops[i].pc.WantObject? then WantObject(false) else WantRange(false))])
  }

  ghost predicate Next(s: State, t: State) {
    exists i :: 0 <= i < |s.ops| && (Moves(s, t, i) || WakesUp(s, t, i))
  }

  ghost predicate Init(s: State) {
    s.locks == map[] && forall i :: 0 <= i < |s.ops| ==> s.ops[i].pc == NotStarted
  }

  ghost predicate Run(run: seq<State>) {
    |run| > 0 && Init(run[0]) && forall k :: 0 <= k < |run| - 1 ==> Next(run[k], run[k+1])
  }

  // ----- Invariant

  ghost function Holders(ops: seq<Op>, l: LockId, kind: Kind): set<int> {
    set i | 0 <= i < |ops| && ops[i].Holds(l, kind)
  }

  /** The lock's fields tell exactly who holds it, and a writer holds it alone. */
  ghost predicate Exact(rll: Rll, ops: seq<Op>, l: LockId) {
    && rll.readers == |Holders(ops, l, Reader)|
    && |Holders(ops, l, Writer)| == (if rll.writer then 1 else 0)
    && (rll.writer ==> rll.readers == 0)
  }

  /** No sleeper has missed its wake-up: whoever sleeps has something to wait for. */
  ghost predicate NoLostWakeup(rll: Rll, ops: seq<Op>, l: LockId) {
    forall i, kind :: 0 <= i < |ops| && ops[i].Asleep() && ops[i].Wants(l, kind) ==> !rll.Admits(kind)
  }

  ghost predicate Inv(s: State) {
    && (forall l :: Exact(LockOf(s, l), s.ops, l))
    && (forall l :: NoLostWakeup(LockOf(s, l), s.ops, l))
    && (forall i :: 0 <= i < |s.ops| && (s.ops[i].pc.WantRange? || s.ops[i].pc == HasBoth) ==> s.ops[i].range.Some?)
  }

  // ----- What a step does to one operation and to one lock

  /** `b` holds what `a` holds. */
  ghost predicate HoldsSame(a: Op, b: Op) {
    forall l, kind :: b.Holds(l, kind) <==> a.Holds(l, kind)
  }

  /** `b` holds what `a` holds, and lock `m` as well. */
  ghost predicate HoldsMore(a: Op, b: Op, m: LockId, k: Kind) {
    !a.Holds(m, k) && forall l, kind :: b.Holds(l, kind) <==> a.Holds(l, kind) || (l == m && kind == k)
  }

  ghost predicate OthersHoldSame(ops: seq<Op>, now: seq<Op>, i: nat) {
    |now| == |ops| && forall j :: 0 <= j < |ops| && j != i ==> HoldsSame(ops[j], now[j])
  }

  lemma HoldersSame(ops: seq<Op>, now: seq<Op>, i: nat, l: LockId, kind: Kind)
    requires i < |ops| && OthersHoldSame(ops, now, i)
    requires now[i].Holds(l, kind) == ops[i].Holds(l, kind)
    ensures Holders(now, l, kind) == Holders(ops, l, kind)
  {
  }

  lemma HoldersMore(ops: seq<Op>, now: seq<Op>, i: nat, l: LockId, kind: Kind)
    requires i < |ops| && OthersHoldSame(ops, now, i)
    requires now[i].Holds(l, kind) && !ops[i].Holds(l, kind)
    ensures |Holders(now, l, kind)| == |Holders(ops, l, kind)| + 1
  {
    assert Holders(now, l, kind) == Holders(ops, l, kind) + {i as int};
  }

  /** Taking lock `m`, which admits it, keeps every lock exact. */
  lemma ExactAfterLock(s: State, t: State, i: nat, m: LockId, k: Kind, l: LockId)
    requires i < |s.ops| && LockOf(s, m).Admits(k) && Exact(LockOf(s, l), s.ops, l)
    requires OthersHoldSame(s.ops, t.ops, i) && HoldsMore(s.ops[i], t.ops[i], m, k)
    requires t.locks == s.locks[m := if k == Reader then LockOf(s, m).(readers := LockOf(s, m).readers + 1) else LockOf(s, m).(writer := true)]
    ensures Exact(LockOf(t, l), t.ops, l)
  {
    forall kind | l != m || kind != k ensures Holders(t.ops, l, kind) == Holders(s.ops, l, kind) {
      HoldersSame(s.ops, t.ops, i, l, kind);
    }
    if l == m {
      HoldersMore(s.ops, t.ops, i, m, k);
    }
  }

  /** A holder finds the lock in the state that its kind of hold means. */
  lemma HolderSees(rll: Rll, ops: seq<Op>, i: nat, m: LockId, k: Kind)
    requires i < |ops| && Exact(rll, ops, m) && ops[i].Holds(m, k)
    ensures rll.writer <==> k == Writer
    ensures k == Reader ==> rll.readers > 0
  {
    assert i as int in Holders(ops, m, k);
  }

  /** Releasing lock `m` keeps every lock exact. */
  lemma ExactAfterUnlock(s: State, t: State, i: nat, m: LockId, k: Kind, l: LockId)
    requires i < |s.ops| && Exact(LockOf(s, m), s.ops, m) && Exact(LockOf(s, l), s.ops, l)
    requires OthersHoldSame(s.ops, t.ops, i) && HoldsMore(t.ops[i], s.ops[i], m, k)
    requires t.locks == s.locks[m := Released(LockOf(s, m))]
    ensures Exact(LockOf(t, l), t.ops, l)
  {
    forall kind | l != m || kind != k ensures Holders(t.ops, l, kind) == Holders(s.ops, l, kind) {
      HoldersSame(s.ops, t.ops, i, l, kind);
    }
    if l == m {
      HolderSees(LockOf(s, m), s.ops, i, m, k);
      HoldersMore(t.ops, s.ops, i, m, k);
    }
  }

  lemma ExactUntouched(s: State, t: State, i: nat, l: LockId)
    requires i < |s.ops| && Exact(LockOf(s, l), s.ops, l)
    requires OthersHoldSame(s.ops, t.ops, i) && HoldsSame(s.ops[i], t.ops[i]) && t.locks == s.locks
    ensures Exact(LockOf(t, l), t.ops, l)
  {
    HoldersSame(s.ops, t.ops, i, l, Reader);
    HoldersSame(s.ops, t.ops, i, l, Writer);
  }

  // ----- Sleepers

  /** Taking a lock gives nobody who sleeps on it a reason to be awake. */
  lemma WakeupAfterLock(s: State, t: State, i: nat, m: LockId, k: Kind, l: LockId)
    requires i < |s.ops| && LockOf(s, m).Admits(k) && NoLostWakeup(LockOf(s, l), s.ops, l)
    requires |t.ops| == |s.ops| && !t.ops[i].Asleep() && forall j :: 0 <= j < |s.ops| && j != i ==> t.ops[j] == s.ops[j]
    requires t.locks == s.locks[m := if k == Reader then LockOf(s, m).(readers := LockOf(s, m).readers + 1) else LockOf(s, m).(writer := true)]
    ensures NoLostWakeup(LockOf(t, l), t.ops, l)
  {
  }

  /** Releasing a lock either wakes everybody or leaves a reader who still keeps writers out. */
  lemma WakeupAfterUnlock(s: State, t: State, i: nat, m: LockId, k: Kind, next: Pc, l: LockId)
    requires i < |s.ops| && Exact(LockOf(s, m), s.ops, m) && s.ops[i].Holds(m, k)
    requires NoLostWakeup(LockOf(s, l), s.ops, l)
    requires next == Done || next == HasObjectLast
    requires t == Unlock(s, i, m, next)
    ensures NoLostWakeup(LockOf(t, l), t.ops, l)
  {
    HolderSees(LockOf(s, m), s.ops, i, m, k);
    forall j, kind | 0 <= j < |t.ops| && t.ops[j].Asleep() && t.ops[j].Wants(l, kind) ensures !LockOf(t, l).Admits(kind) {
      assert j != i;
      assert t.ops[j] == s.ops[j];
      assert s.ops[j].Wants(l, kind) && !LockOf(s, l).Admits(kind);
      assert !s.ops[j].Woken(l).Asleep();
      assert l == m ==> !Released(LockOf(s, m)).IsFree();
    }
  }

  // ----- The invariant over whole runs

  lemma QuietStep(s: State, t: State, i: nat)
    requires Inv(s) && i < |s.ops| == |t.ops| && t == s.(ops := s.ops[i := t.ops[i]])
    requires HoldsSame(s.ops[i], t.ops[i]) && (t.ops[i].pc.WantRange? ==> t.ops[i].range.Some?) && t.ops[i].pc != HasBoth
    requires t.ops[i].Asleep() ==> forall l, kind :: t.ops[i].Wants(l, kind) ==> !LockOf(s, l).Admits(kind)
    ensures Inv(t)
  {
    forall l ensures Exact(LockOf(t, l), t.ops, l) && NoLostWakeup(LockOf(t, l), t.ops, l) {
      assert Exact(LockOf(s, l), s.ops, l) && NoLostWakeup(LockOf(s, l), s.ops, l);
      ExactUntouched(s, t, i, l);
    }
  }

  lemma LockStep(s: State, t: State, i: nat, m: LockId, k: Kind, got: Pc, sleeping: Pc)
    requires Inv(s) && i < |s.ops| && t == Lock(s, i, m, k, got, sleeping)
    requires HoldsMore(s.ops[i], s.ops[i].(pc := got), m, k) && !s.ops[i].(pc := got).Asleep()
    requires HoldsSame(s.ops[i], s.ops[i].(pc := sleeping)) && sleeping != HasBoth && !got.WantRange?
    requires forall l, kind :: s.ops[i].(pc := sleeping).Wants(l, kind) ==> l == m && kind == k
    requires sleeping.WantRange? || got == HasBoth ==> s.ops[i].range.Some?
    ensures Inv(t)
  {
    if LockOf(s, m).Admits(k) {
      forall l ensures Exact(LockOf(t, l), t.ops, l) && NoLostWakeup(LockOf(t, l), t.ops, l) {
        assert Exact(LockOf(s, l), s.ops, l) && NoLostWakeup(LockOf(s, l), s.ops, l);
        ExactAfterLock(s, t, i, m, k, l);
        WakeupAfterLock(s, t, i, m, k, l);
      }
    } else {
      QuietStep(s, t, i);
    }
  }

  lemma UnlockStep(s: State, t: State, i: nat, m: LockId, k: Kind, next: Pc)
    requires Inv(s) && i < |s.ops| && t == Unlock(s, i, m, next)
    requires HoldsMore(s.ops[i].(pc := next), s.ops[i], m, k) && (next == Done || next == HasObjectLast)
    ensures Inv(t)
  {
    forall l ensures Exact(LockOf(t, l), t.ops, l) && NoLostWakeup(LockOf(t, l), t.ops, l) {
      assert Exact(LockOf(s, l), s.ops, l) && NoLostWakeup(LockOf(s, l), s.ops, l);
      ExactAfterUnlock(s, t, i, m, k, l);
      WakeupAfterUnlock(s, t, i, m, k, next, l);
    }
  }

  lemma InvStep(s: State, t: State, i: nat)
    requires Inv(s) && i < |s.ops| && (Moves(s, t, i) || WakesUp(s, t, i))
    ensures Inv(t)
  {
    var op := s.ops[i];
    if WakesUp(s, t, i) {
      QuietStep(s, t, i);
    } else {
      match op.pc {
        case NotStarted => QuietStep(s, t, i);
        case WantObject(_) => LockStep(s, t, i, Object(op.obj), op.objKind, HasObject, WantObject(true));
        case HasObject =>
          if t == Unlock(s, i, Object(op.obj), Done) {
            UnlockStep(s, t, i, Object(op.obj), op.objKind, Done);
          } else {
            QuietStep(s, t, i);
          }
        case WantRange(_) => LockStep(s, t, i, Range(op.range.value), op.rangeKind, HasBoth, WantRange(true));
        case HasBoth => UnlockStep(s, t, i, Range(op.range.value), op.rangeKind, HasObjectLast);
        case HasObjectLast => UnlockStep(s, t, i, Object(op.obj), op.objKind, Done);
        case Done =>
      }
    }
  }

  lemma {:induction false} InvAlong(run: seq<State>, k: nat)
    requires Run(run) && k < |run|
    ensures Inv(run[k])
  {
    if k == 0 {
      forall l ensures Exact(LockOf(run[0], l), run[0].ops, l) {
        assert Holders(run[0].ops, l, Reader) == {} && Holders(run[0].ops, l, Writer) == {};
      }
    } else {
      InvAlong(run, k - 1);
      assert Next(run[k-1], run[k]);
      var i :| 0 <= i < |run[k-1].ops| && (Moves(run[k-1], run[k], i) || WakesUp(run[k-1], run[k], i));
      InvStep(run[k-1], run[k], i);
    }
  }

  /** In every state of every run: `readers` is the number of read holds outstanding, and a writer
      excludes every other hold of its lock. */
  lemma LocksAreSafe(run: seq<State>, k: nat, l: LockId)
    requires Run(run) && k < |run|
    ensures var s := run[k];
            && LockOf(s, l).readers == |Holders(s.ops, l, Reader)|
            && (forall i, j, kind :: 0 <= i < |s.ops| && 0 <= j < |s.ops| && s.ops[i].Holds(l, Writer) && s.ops[j].Holds(l, kind) ==>
                  i == j && kind == Writer)
  {
    InvAlong(run, k);
    var s := run[k];
    assert Exact(LockOf(s, l), s.ops, l);
    forall i, j, kind | 0 <= i < |s.ops| && 0 <= j < |s.ops| && s.ops[i].Holds(l, Writer) && s.ops[j].Holds(l, kind)
      ensures i == j && kind == Writer
    {
      assert i in Holders(s.ops, l, Writer) && j in Holders(s.ops, l, kind);
      assert kind == Writer && i != j ==> |{i, j}| == 2 && {i, j} <= Holders(s.ops, l, Writer);
      if kind == Writer && i != j {
        SubsetSize({i, j}, Holders(s.ops, l, Writer));
      }
    }
  }

  /** In every state of every run, a reader sleeps only while there is a writer, and a writer only
      while there is a writer or a reader. */
  lemma SleepersHaveReason(run: seq<State>, k: nat, i: nat, l: LockId)
    requires Run(run) && k < |run| && i < |run[k].ops| && run[k].ops[i].Asleep()
    ensures run[k].ops[i].Wants(l, Reader) ==> LockOf(run[k], l).writer
    ensures run[k].ops[i].Wants(l, Writer) ==> LockOf(run[k], l).writer || LockOf(run[k], l).readers > 0
  {
    InvAlong(run, k);
    var s := run[k];
    assert NoLostWakeup(LockOf(s, l), s.ops, l);
    assert s.ops[i].Wants(l, Reader) ==> !LockOf(s, l).Admits(Reader);
    assert s.ops[i].Wants(l, Writer) ==> !LockOf(s, l).Admits(Writer);
  }

  // ----- Progress

  /** Whoever sleeps on a lock, some other operation holds that lock. */
  lemma SomeoneHolds(s: State, i: nat, l: LockId, kind: Kind) returns (j: nat)
    requires Inv(s) && i < |s.ops| && s.ops[i].Asleep() && s.ops[i].Wants(l, kind)
    ensures j < |s.ops| && (s.ops[j].Holds(l, Reader) || s.ops[j].Holds(l, Writer))
  {
    assert Exact(LockOf(s, l), s.ops, l) && NoLostWakeup(LockOf(s, l), s.ops, l);
    assert !LockOf(s, l).Admits(kind);
    if LockOf(s, l).writer {
      assert Holders(s.ops, l, Writer) != {};
      var h :| h in Holders(s.ops, l, Writer);
      j := h;
    } else {
      assert Holders(s.ops, l, Reader) != {};
      var h :| h in Holders(s.ops, l, Reader);
      j := h;
    }
  }

  /** No deadlock: unless all operations are done, some operation is neither done nor asleep. */
  lemma SomeoneIsAwake(s: State, i: nat) returns (j: nat)
    requires Inv(s) && i < |s.ops| && s.ops[i].pc != Done
    ensures j < |s.ops| && s.ops[j].pc != Done && !s.ops[j].Asleep()
  {
    j := i;
    if s.ops[j].Asleep() && s.ops[j].pc.WantObject? {
      j := SomeoneHolds(s, j, Object(s.ops[j].obj), s.ops[j].objKind);
    }
    if s.ops[j].Asleep() {
      j := SomeoneHolds(s, j, Range(s.ops[j].range.value), s.ops[j].rangeKind);
    }
  }

  /** An operation that is neither done nor asleep can always take a step. */
  lemma AwakeCanMove(s: State, i: nat) returns (t: State)
    requires Inv(s) && i < |s.ops| && s.ops[i].pc != Done && !s.ops[i].Asleep()
    ensures Moves(s, t, i)
  {
    var op := s.ops[i];
    match op.pc {
      case NotStarted => t := s.(ops := s.ops[i := op.(pc := WantObject(false))]);
      case WantObject(_) => t := Lock(s, i, Object(op.obj), op.objKind, HasObject, WantObject(true));
      case HasObject => t := Unlock(s, i, Object(op.obj), Done);
      case WantRange(_) => t := Lock(s, i, Range(op.range.value), op.rangeKind, HasBoth, WantRange(true));
      case HasBoth => t := Unlock(s, i, Range(op.range.value), HasObjectLast);
      case HasObjectLast => t := Unlock(s, i, Object(op.obj), Done);
    }
  }

  ghost function WorkLeft(ops: seq<Op>): nat {
    if ops == [] then 0 else WorkLeft(ops[..|ops|-1]) + ops[|ops|-1].Remaining()
  }

  ghost function AwakeWaiters(ops: seq<Op>): nat {
    if ops == [] then 0
    else AwakeWaiters(ops[..|ops|-1]) + (if ops[|ops|-1].Waiting() && !ops[|ops|-1].Asleep() then 1 else 0)
  }

  lemma {:induction false} AwakeAtMost(ops: seq<Op>)
    ensures AwakeWaiters(ops) <= |ops|
  {
    if ops != [] {
      AwakeAtMost(ops[..|ops|-1]);
    }
  }

  lemma {:induction false} SameWork(a: seq<Op>, b: seq<Op>)
    requires |a| == |b| && forall j :: 0 <= j < |a| ==> a[j].Remaining() == b[j].Remaining()
    ensures WorkLeft(a) == WorkLeft(b)
  {
    if a != [] {
      SameWork(a[..|a|-1], b[..|b|-1]);
    }
  }

  lemma {:induction false} WorkAfterUpdate(ops: seq<Op>, i: nat, op: Op)
    requires i < |ops|
    ensures WorkLeft(ops[i := op]) == WorkLeft(ops) - ops[i].Remaining() + op.Remaining()
  {
    var n := |ops| - 1;
    if i == n {
      assert ops[i := op][..n] == ops[..n];
    } else {
      assert ops[i := op][..n] == ops[..n][i := op];
      WorkAfterUpdate(ops[..n], i, op);
    }
  }

  lemma {:induction false} AwakeAfterSleep(ops: seq<Op>, i: nat, op: Op)
    requires i < |ops| && ops[i].Waiting() && !ops[i].Asleep() && op.Asleep()
    ensures AwakeWaiters(ops[i := op]) == AwakeWaiters(ops) - 1
  {
    var n := |ops| - 1;
    if i == n {
      assert ops[i := op][..n] == ops[..n];
    } else {
      assert ops[i := op][..n] == ops[..n][i := op];
      AwakeAfterSleep(ops[..n], i, op);
    }
  }

  /** A bound on the steps that can still be taken: every step of the way counts for more than all
      the tests of a lock that its broadcast can set off. */
  ghost function Rank(s: State): nat {
    WorkLeft(s.ops) * (|s.ops| + 1) + AwakeWaiters(s.ops)
  }

  lemma LessWorkLowersRank(s: State, t: State)
    requires |t.ops| == |s.ops| && WorkLeft(t.ops) < WorkLeft(s.ops)
    ensures Rank(t) < Rank(s)
  {
    AwakeAtMost(t.ops);
    NextMultiple(WorkLeft(t.ops), WorkLeft(s.ops), |s.ops| + 1);
  }

  lemma UpdateLowersRank(s: State, t: State, i: nat, pc: Pc)
    requires i < |s.ops| && t.ops == s.ops[i := s.ops[i].(pc := pc)]
    requires s.ops[i].(pc := pc).Remaining() < s.ops[i].Remaining()
    ensures Rank(t) < Rank(s)
  {
    WorkAfterUpdate(s.ops, i, s.ops[i].(pc := pc));
    LessWorkLowersRank(s, t);
  }

  lemma UnlockLowersRank(s: State, t: State, i: nat, l: LockId, pc: Pc)
    requires i < |s.ops| && t == Unlock(s, i, l, pc)
    requires s.ops[i].(pc := pc).Remaining() < s.ops[i].Remaining()
    ensures |t.ops| == |s.ops| && Rank(t) < Rank(s)
  {
    var ops := s.ops[i := s.ops[i].(pc := pc)];
    WorkAfterUpdate(s.ops, i, s.ops[i].(pc := pc));
    SameWork(t.ops, ops);
    LessWorkLowersRank(s, t);
  }

  lemma LockLowersRank(s: State, t: State, i: nat, l: LockId, kind: Kind, got: Pc, sleeping: Pc)
    requires i < |s.ops| && t == Lock(s, i, l, kind, got, sleeping)
    requires s.ops[i].Waiting() && !s.ops[i].Asleep()
    requires s.ops[i].(pc := got).Remaining() < s.ops[i].Remaining()
    requires s.ops[i].(pc := sleeping).Asleep() && s.ops[i].(pc := sleeping).Remaining() == s.ops[i].Remaining()
    ensures |t.ops| == |s.ops| && Rank(t) < Rank(s)
  {
    if LockOf(s, l).Admits(kind) {
      UpdateLowersRank(s, t, i, got);
    } else {
      WorkAfterUpdate(s.ops, i, s.ops[i].(pc := sleeping));
      AwakeAfterSleep(s.ops, i, s.ops[i].(pc := sleeping));
    }
  }

  lemma MoveLowersRank(s: State, t: State, i: nat)
    requires i < |s.ops| && Moves(s, t, i)
    ensures |t.ops| == |s.ops| && Rank(t) < Rank(s)
  {
    var op := s.ops[i];
    match op.pc {
      case NotStarted => UpdateLowersRank(s, t, i, WantObject(false));
      case WantObject(_) => LockLowersRank(s, t, i, Object(op.obj), op.objKind, HasObject, WantObject(true));
      case HasObject =>
        if t == Unlock(s, i, Object(op.obj), Done) {
          UnlockLowersRank(s, t, i, Object(op.obj), Done);
        } else {
          UpdateLowersRank(s, t, i, WantRange(false));
        }
      case WantRange(_) => LockLowersRank(s, t, i, Range(op.range.value), op.rangeKind, HasBoth, WantRange(true));
      case HasBoth => UnlockLowersRank(s, t, i, Range(op.range.value), HasObjectLast);
      case HasObjectLast => UnlockLowersRank(s, t, i, Object(op.obj), Done);
      case Done =>
    }
  }

  ghost predicate MovesTo(s: State, t: State) {
    exists i :: 0 <= i < |s.ops| && Moves(s, t, i)
  }

  /** A stretch of steps in which nobody wakes for no reason. */
  ghost predicate Stretch(run: seq<State>) {
    |run| > 0 && Inv(run[0]) && forall k :: 0 <= k < |run| - 1 ==> MovesTo(run[k], run[k+1])
  }

  lemma {:induction false} StretchIsBounded(run: seq<State>, k: nat)
    requires Stretch(run) && k < |run|
    ensures Inv(run[k]) && Rank(run[k]) + k <= Rank(run[0])
  {
    if k > 0 {
      StretchIsBounded(run, k - 1);
      assert MovesTo(run[k-1], run[k]);
      var i :| 0 <= i < |run[k-1].ops| && Moves(run[k-1], run[k], i);
      InvStep(run[k-1], run[k], i);
      MoveLowersRank(run[k-1], run[k], i);
    }
  }

  ghost predicate CanGoOn(s: State) {
    exists t :: MovesTo(s, t)
  }

  ghost predicate AllDone(s: State) {
    forall i :: 0 <= i < |s.ops| ==> s.ops[i].pc == Done
  }

  /** Every operation finishes: whatever the schedule, a stretch of steps is no longer than the rank
      of its first state, and it can go on from any state in which some operation is not done. */
  lemma AllFinish(run: seq<State>)
    requires Stretch(run)
    ensures |run| - 1 <= Rank(run[0])
    ensures AllDone(run[|run|-1]) <==> !CanGoOn(run[|run|-1])
  {
    StretchIsBounded(run, |run| - 1);
    var s := run[|run|-1];
    if !AllDone(s) {
      var i :| 0 <= i < |s.ops| && s.ops[i].pc != Done;
      var j := SomeoneIsAwake(s, i);
      var t := AwakeCanMove(s, j);
      assert MovesTo(s, t);
    }
  }

  // ----- Which lock an offset is hashed to

  const RANGE_LOCKS: nat := 64
  const MAX_BLOCK: nat := 0x100_0000

  function Low6(n: nat): bv6 {
    (n % 64) as bv6
  }

  /** The offset is first taken modulo one more than the number of locks. */
  function RangeIndex(obj: nat, offset: nat): bv6 {
    Low6(obj) ^ Low6(offset % (RANGE_LOCKS + 1))
  }

  lemma XorInjective(a: bv6, b: bv6, c: bv6)
    ensures a ^ b == a ^ c <==> b == c
  {
  }

  lemma Low6Back(a: nat)
    requires a < 64
    ensures Low6(a) as nat == a
  {
  }

  lemma Low6Injective(a: nat, b: nat)
    requires a < 64 && b < 64
    ensures Low6(a) == Low6(b) <==> a == b
  {
    Low6Back(a);
    Low6Back(b);
  }

  /** Which lock an offset leads to, but for the object: 64 goes where 0 goes. */
  function Residue(offset: nat): nat { offset % 65 % 64 }

  /** Two offsets of one object lead to one lock exactly when they agree in this. */
  lemma SameLockIff(obj: nat, a: nat, b: nat)
    ensures RangeIndex(obj, a) == RangeIndex(obj, b) <==> Residue(a) == Residue(b)
  {
    XorInjective(Low6(obj), Low6(a % 65), Low6(b % 65));
    Low6Injective(a % 65 % 64, b % 65 % 64);
  }

  predicate Overlap(a: nat, lenA: nat, b: nat, lenB: nat) { a < b + lenB && b < a + lenA }

  lemma ResidueIff(a: nat, b: nat)
    requires a <= b
    ensures Residue(a) == Residue(b) <==>
            (b - a) % 65 == 0 || (a % 65 == 0 && b % 65 == 64) || (a % 65 == 64 && b % 65 == 0)
  {
    var d, r := b / 65 - a / 65, b % 65 - a % 65;
    assert b - a == 65 * d + r;
    if r >= 0 {
      Quotient(b - a, 65, d, r);
    } else {
      Quotient(b - a, 65, d - 1, r + 65);
    }
  }

  /** When overlapping ranges exclude each other: when they begin a multiple of 65 apart, or at
      offsets that leave 0 and 64. */
  lemma OverlapExcludesIff(obj: nat, a: nat, lenA: nat, b: nat, lenB: nat)
    requires Overlap(a, lenA, b, lenB) && a <= b
    ensures RangeIndex(obj, a) == RangeIndex(obj, b) <==>
            (b - a) % 65 == 0 || (a % 65 == 0 && b % 65 == 64) || (a % 65 == 64 && b % 65 == 0)
  {
    SameLockIff(obj, a, b);
    ResidueIff(a, b);
  }

  /** Ranges that begin on multiples of a size and are no longer than it overlap only if they begin
      together, and then they have one lock. Such are the accesses of up to a block at multiples of
      the largest block. */
  lemma AlignedRangesExclude(obj: nat, size: nat, j: nat, k: nat, lenJ: nat, lenK: nat)
    requires 0 < lenJ <= size && 0 < lenK <= size
    ensures Overlap(j * size, lenJ, k * size, lenK) <==> j == k
    ensures Overlap(j * size, lenJ, k * size, lenK) ==> RangeIndex(obj, j * size) == RangeIndex(obj, k * size)
  {
    if j < k {
      NextMultiple(j, k, size);
    } else if k < j {
      NextMultiple(k, j, size);
    }
  }

  lemma SpacedOffset(k: nat)
    requires k < RANGE_LOCKS
    ensures Residue(k * MAX_BLOCK) == k
  {
    assert k * MAX_BLOCK == 65 * (k * 258111) + k;
  }

  /** At the first 64 multiples of the largest block, each offset has a lock to itself: two accesses
      to one object share a lock exactly when they overlap. */
  lemma SpacedOffsetsHaveOwnLock(obj: nat, j: nat, k: nat, lenJ: nat, lenK: nat)
    requires j < RANGE_LOCKS && k < RANGE_LOCKS && 0 < lenJ <= MAX_BLOCK && 0 < lenK <= MAX_BLOCK
    ensures RangeIndex(obj, j * MAX_BLOCK) == RangeIndex(obj, k * MAX_BLOCK) <==> Overlap(j * MAX_BLOCK, lenJ, k * MAX_BLOCK, lenK)
  {
    SpacedOffset(j);
    SpacedOffset(k);
    SameLockIff(obj, j * MAX_BLOCK, k * MAX_BLOCK);
    AlignedRangesExclude(obj, MAX_BLOCK, j, k, lenJ, lenK);
  }

  /** At the offsets of parallel writes that is not so: these two are far apart and share a lock. */
  lemma ParallelWritesShareLock(obj: nat)
    ensures RangeIndex(obj, 0x800_0000_0000) == RangeIndex(obj, 0x80_0000_0000_0000)
    ensures !Overlap(0x800_0000_0000, MAX_BLOCK, 0x80_0000_0000_0000, MAX_BLOCK)
  {
    SameLockIff(obj, 0x800_0000_0000, 0x80_0000_0000_0000);
  }

  /** Nor do ranges of several blocks exclude what is in the middle of them: the range that preallocation
      frees and one that it writes there overlap on different locks. It comes to no harm by that, since
      one thread does both, one after the other, on an object of its own; and it is compiled out. */
  lemma PreallocOnDifferentLocks(obj: nat)
    ensures Overlap(0x200_0000, 2 * 0x200, 0x200_0200, 0x200)
    ensures RangeIndex(obj, 0x200_0000) != RangeIndex(obj, 0x200_0200)
  {
    SameLockIff(obj, 0x200_0000, 0x200_0200);
  }
}
