/**
 The job limiter of the event daemon. The event thread forks zedlets and the
 reaper thread collects them. They share a counter of free job slots, which
 both adjust outside the lock, and a tree of launched processes under the lock.
 Every step below is one that other steps of the other thread can fall between.
 */
module JobLimiter {

  /** The event thread. A child exists from `Forked` on, but is subtracted only after `ToSubtract`. */
  datatype Forker = Starting | Idle | Checked | Locked | Forked(pid: nat) | Added | ToSubtract

  /** The reaper thread. A child is gone from `Reaped` on, but is added back only after `ToAdd`. */
  datatype Reaper = Waiting | Holding | Reaped(pid: nat) | Removed | ToAdd

  datatype Owner = Nobody | ByForker | ByReaper

  datatype State = State(
    limit: int,         // free job slots, a 16-bit signed counter
    live: set<nat>,     // children not yet waited for, running or exited
    exited: set<nat>,   // those of them that have exited
    noNode: set<nat>,   // children whose tree node could not be allocated
    tree: set<nat>,     // the pids in the tree of launched processes
    created: bool,      // whether the tree has been created
    owner: Owner,
    forker: Forker,
    reaper: Reaper)

  datatype Step =
    | CreateTree | CheckLimit | NameTooLong | LockToFork | ForkFails | Fork(pid: nat) | AddNode | NoMemory | UnlockForked | Subtract
    | LockToReap | NothingToReap | Reap(pid: nat) | RemoveNode | UnlockReaped | AddBack
    | Exit(pid: nat)

  /** The value a 16-bit signed counter shows for `n`. */
  function Wrap16(n: int): int {
    (n + 0x8000) % 0x1_0000 - 0x8000
  }

  predicate Init(s: State, maxJobs: int) {
    s == State(maxJobs, {}, {}, {}, {}, false, Nobody, Starting, Waiting)
  }

  predicate Next(s: State, t: State, step: Step) {
    match step
    case CreateTree => s.forker == Starting && t == s.(created := true, forker := Idle)
    case CheckLimit => s.forker == Idle && s.limit > 0 && t == s.(forker := Checked)
    case NameTooLong => s.forker == Checked && t == s.(forker := Idle)
    case LockToFork => s.forker == Checked && s.owner == Nobody && t == s.(forker := Locked, owner := ByForker)
    case ForkFails => s.forker == Locked && t == s.(forker := Idle, owner := Nobody)
    case Fork(pid) => s.forker == Locked && pid !in s.live && t == s.(forker := Forked(pid), live := s.live + {pid})
    case AddNode => s.forker.Forked? && t == s.(forker := Added, tree := s.tree + {s.forker.pid})
    case NoMemory => s.forker.Forked? && t == s.(forker := Added, noNode := s.noNode + {s.forker.pid})
    case UnlockForked => s.forker == Added && t == s.(forker := ToSubtract, owner := Nobody)
    case Subtract => s.forker == ToSubtract && t == s.(forker := Idle, limit := Wrap16(s.limit - 1))
    case LockToReap => s.reaper == Waiting && s.owner == Nobody && t == s.(reaper := Holding, owner := ByReaper)
    case NothingToReap => s.reaper == Holding && t == s.(reaper := Waiting, owner := Nobody)
    case Reap(pid) => s.reaper == Holding && pid in s.exited &&
                      t == s.(reaper := Reaped(pid), live := s.live - {pid}, exited := s.exited - {pid})
    case RemoveNode => s.reaper.Reaped? &&
                       t == s.(reaper := Removed, tree := s.tree - {s.reaper.pid}, noNode := s.noNode - {s.reaper.pid})
    case UnlockReaped => s.reaper == Removed && t == s.(reaper := ToAdd, owner := Nobody)
    case AddBack => s.reaper == ToAdd && t == s.(reaper := Waiting, limit := Wrap16(s.limit + 1))
    case Exit(pid) => pid in s.live && t == s.(exited := s.exited + {pid})
  }

  ghost predicate Run(maxJobs: int, run: seq<State>, steps: seq<Step>) {
    && |run| == |steps| + 1
    && Init(run[0], maxJobs)
    && (forall i :: 0 <= i < |steps| ==> Next(run[i], run[i+1], steps[i]))
  }

  /** Some run of any length leads to `s`. */
  ghost predicate Reachable(maxJobs: int, s: State) {
    exists run: seq<State>, steps: seq<Step> :: Run(maxJobs, run, steps) && run[|steps|] == s
  }

  /** Forked but not yet subtracted. */
  function InFlightFork(s: State): nat {
    if s.forker.Forked? || s.forker == Added || s.forker == ToSubtract then 1 else 0
  }

  /** Reaped but not yet added back. */
  function InFlightReap(s: State): nat {
    if s.reaper.Reaped? || s.reaper == Removed || s.reaper == ToAdd then 1 else 0
  }

  /** A slot that the event thread has seen free and may still use. */
  function Reserved(s: State): nat {
    if s.forker == Checked || s.forker == Locked then 1 else 0
  }

  /** What the counter should show: the slots neither taken, nor just being given back, nor taken
      by a child not yet subtracted. */
  ghost function Balance(s: State, maxJobs: int): int {
    maxJobs - |s.live| - InFlightReap(s) + InFlightFork(s)
  }

  ghost predicate CounterInv(s: State, maxJobs: int) {
    && 0 < maxJobs <= 0x7fff
    && |s.live| + InFlightReap(s) + Reserved(s) <= maxJobs
    && s.limit == Wrap16(Balance(s, maxJobs))
  }

  ghost predicate LockInv(s: State) {
    && (s.owner == ByForker <==> s.forker == Locked || s.forker.Forked? || s.forker == Added)
    && (s.owner == ByReaper <==> s.reaper == Holding || s.reaper.Reaped? || s.reaper == Removed)
  }

  /** The tree is the set of live children that have a node, but for the one child that the owner
      of the lock is busy with. */
  ghost predicate TreeInv(s: State) {
    && s.exited <= s.live
    && (s.created || (s.live == {} && s.forker == Starting && !s.reaper.Reaped?))
    && (s.forker.Forked? ==> s.forker.pid in s.live && s.forker.pid !in s.noNode && s.tree == s.live - s.noNode - {s.forker.pid} && s.noNode <= s.live)
    && (s.reaper.Reaped? ==> s.reaper.pid !in s.live && s.tree == (s.live + {s.reaper.pid}) - s.noNode && s.noNode <= s.live + {s.reaper.pid})
    && (!s.forker.Forked? && !s.reaper.Reaped? ==> s.tree == s.live - s.noNode && s.noNode <= s.live)
  }

  ghost predicate Inv(s: State, maxJobs: int) {
    CounterInv(s, maxJobs) && LockInv(s) && TreeInv(s)
  }

  lemma WrapStep(n: int, d: int)
    ensures Wrap16(Wrap16(n) + d) == Wrap16(n + d)
  {
  }

  /** Only the two adjustments of the counter change what it should show. */
  lemma BalanceStep(s: State, t: State, step: Step, maxJobs: int)
    requires s.exited <= s.live && Next(s, t, step)
    ensures Balance(t, maxJobs) == Balance(s, maxJobs) + (if step == Subtract then -1 else if step == AddBack then 1 else 0)
  {
    match step {
      case Fork(pid) => assert |t.live| == |s.live| + 1;
      case Reap(pid) => assert |t.live| == |s.live| - 1;
      case _ => assert t.live == s.live;
    }
  }

  lemma SlotStep(s: State, t: State, step: Step, maxJobs: int)
    requires s.exited <= s.live && Next(s, t, step)
    requires |s.live| + InFlightReap(s) + Reserved(s) <= maxJobs
    requires s.forker == Idle && s.limit > 0 ==> |s.live| + InFlightReap(s) < maxJobs
    ensures |t.live| + InFlightReap(t) + Reserved(t) <= maxJobs
  {
    match step {
      case Fork(pid) => assert |t.live| == |s.live| + 1;
      case Reap(pid) => assert |t.live| == |s.live| - 1;
      case _ => assert t.live == s.live;
    }
  }

  lemma CounterStep(s: State, t: State, step: Step, maxJobs: int)
    requires CounterInv(s, maxJobs) && s.exited <= s.live && Next(s, t, step)
    ensures CounterInv(t, maxJobs)
  {
    SlotStep(s, t, step, maxJobs);
    BalanceStep(s, t, step, maxJobs);
    if step == Subtract {
      WrapStep(Balance(s, maxJobs), -1);
    } else if step == AddBack {
      WrapStep(Balance(s, maxJobs), 1);
    } else {
      assert t.limit == s.limit;
    }
  }

  lemma LockStep(s: State, t: State, step: Step)
    requires LockInv(s) && Next(s, t, step)
    ensures LockInv(t)
  {
  }

  lemma TreeStep(s: State, t: State, step: Step)
    requires LockInv(s) && TreeInv(s) && Next(s, t, step)
    ensures TreeInv(t)
  {
  }

  lemma {:induction false} InvAlong(maxJobs: int, run: seq<State>, steps: seq<Step>, i: nat)
    requires 0 < maxJobs <= 0x7fff && Run(maxJobs, run, steps) && i < |run|
    ensures Inv(run[i], maxJobs)
  {
    if i > 0 {
      InvAlong(maxJobs, run, steps, i - 1);
      CounterStep(run[i-1], run[i], steps[i-1], maxJobs);
      LockStep(run[i-1], run[i], steps[i-1]);
      TreeStep(run[i-1], run[i], steps[i-1]);
    }
  }

  lemma InvHolds(maxJobs: int, s: State)
    requires 0 < maxJobs <= 0x7fff && Reachable(maxJobs, s)
    ensures Inv(s, maxJobs)
  {
    var run: seq<State>, steps: seq<Step> :| Run(maxJobs, run, steps) && run[|steps|] == s;
    InvAlong(maxJobs, run, steps, |steps|);
  }

  /** In every state of every run: at most `maxJobs` zedlets are outstanding, and the counter, the
      live children and the two operations in flight always balance. */
  lemma JobLimitHolds(maxJobs: int, s: State)
    requires 0 < maxJobs <= 0x7fff && Reachable(maxJobs, s)
    ensures |s.live| <= maxJobs
    ensures s.limit == Wrap16(maxJobs - |s.live| - InFlightReap(s) + InFlightFork(s))
  {
    InvHolds(maxJobs, s);
  }

  /** Whenever the lock is free the tree holds exactly the live children that have a node. */
  lemma TreeMatchesChildren(maxJobs: int, s: State)
    requires 0 < maxJobs <= 0x7fff && Reachable(maxJobs, s) && s.owner == Nobody
    ensures s.tree == s.live - s.noNode
  {
    InvHolds(maxJobs, s);
  }

  /** No step can add a pid that is in the tree already, nor look into a tree not yet created: the
      reaper cannot free a pid, for the kernel to use again, before its node is gone. */
  lemma TreeOperationsAreSafe(maxJobs: int, s: State)
    requires 0 < maxJobs <= 0x7fff && Reachable(maxJobs, s)
    ensures s.forker.Forked? ==> s.created && s.forker.pid !in s.tree
    ensures s.reaper.Reaped? ==> s.created && (s.reaper.pid in s.tree <==> s.reaper.pid !in s.noNode)
  {
    InvHolds(maxJobs, s);
  }

  /** The event thread decides by the counter only when it has nothing in flight itself; it then
      reads exactly the number of free slots, less one if a child is just being reaped. So no slot
      is ever lost: it waits only while all jobs are taken or the last one is being given back. */
  lemma ForkerReadsFreeSlots(maxJobs: int, s: State)
    requires 0 < maxJobs <= 0x7fff && Reachable(maxJobs, s) && s.forker == Idle
    ensures s.limit == maxJobs - |s.live| - InFlightReap(s)
    ensures s.limit > 0 <==> |s.live| + InFlightReap(s) < maxJobs
  {
    InvHolds(maxJobs, s);
  }

  lemma OneStepOn(maxJobs: int, s: State, t: State, step: Step)
    requires Reachable(maxJobs, s) && Next(s, t, step)
    ensures Reachable(maxJobs, t)
  {
    var run: seq<State>, steps: seq<Step> :| Run(maxJobs, run, steps) && run[|steps|] == s;
    var more, on := run + [t], steps + [step];
    forall i | 0 <= i < |on| ensures Next(more[i], more[i+1], on[i]) {
    }
    assert Run(maxJobs, more, on) && more[|on|] == t;
  }

  lemma ForkedOnly(n: int, s: State)
    requires n > 0 && s == State(n, {7}, {}, {}, {7}, true, Nobody, ToSubtract, Waiting)
    ensures Reachable(n, s)
  {
    var s0 := State(n, {}, {}, {}, {}, false, Nobody, Starting, Waiting);
    assert Run(n, [s0], []);
    var s1 := s0.(created := true, forker := Idle);
    OneStepOn(n, s0, s1, CreateTree);
    var s2 := s1.(forker := Checked);
    OneStepOn(n, s1, s2, CheckLimit);
    var s3 := s2.(forker := Locked, owner := ByForker);
    OneStepOn(n, s2, s3, LockToFork);
    var s4 := s3.(forker := Forked(7), live := {7});
    OneStepOn(n, s3, s4, Fork(7));
    var s5 := s4.(forker := Added, tree := {7});
    OneStepOn(n, s4, s5, AddNode);
    OneStepOn(n, s5, s, UnlockForked);
  }

  lemma ReapedBeforeSubtracted(n: int, s: State)
    requires n > 0 && s == State(Wrap16(n + 1), {}, {}, {}, {}, true, Nobody, ToSubtract, Waiting)
    ensures Reachable(n, s)
  {
    var s6 := State(n, {7}, {}, {}, {7}, true, Nobody, ToSubtract, Waiting);
    ForkedOnly(n, s6);
    var s7 := s6.(exited := {7});
    OneStepOn(n, s6, s7, Exit(7));
    var s8 := s7.(reaper := Holding, owner := ByReaper);
    OneStepOn(n, s7, s8, LockToReap);
    var s9 := s8.(reaper := Reaped(7), live := {}, exited := {});
    OneStepOn(n, s8, s9, Reap(7));
    var s10 := s9.(reaper := Removed, tree := {});
    OneStepOn(n, s9, s10, RemoveNode);
    var s11 := s10.(reaper := ToAdd, owner := Nobody);
    OneStepOn(n, s10, s11, UnlockReaped);
    OneStepOn(n, s11, s, AddBack);
  }

  /** In between, the counter can stand one above the number of jobs: a child can be reaped before
      the event thread has subtracted it. With the largest job count the counter then wraps around. */
  lemma CounterCanWrap()
    ensures exists s :: Reachable(0x7fff, s) && s.limit == -0x8000 && s.live == {}
  {
    var s := State(Wrap16(0x7fff + 1), {}, {}, {}, {}, true, Nobody, ToSubtract, Waiting);
    ReapedBeforeSubtracted(0x7fff, s);
  }
}
