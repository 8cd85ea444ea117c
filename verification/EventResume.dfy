/**
 Event resumption of the event daemon. It remembers the last event it handled
 in a state file and, when it starts, seeks to that event in the kernel's queue.
 Meanwhile the kernel posts events, drops the oldest ones and, while the daemon
 is down, may be reloaded, which empties the queue and starts numbering anew.
 */
module EventResume {
  import opened Basics

  /** How the daemon knows an event. Numbers start at 1; 0 stands for no event. */
  datatype Id = Id(eid: nat, sec: int, nsec: int)

  const NO_EVENT := Id(0, 0, 0)

  // ----- The seek, on a queue that does not change meanwhile

  ghost predicate Increasing(events: seq<Id>) {
    forall i, j :: 0 <= i < j < |events| ==> events[i].eid < events[j].eid
  }

  /** The events of a queue that are newer than `saved`: those after it, or all when it is not there. */
  ghost predicate NewerThan(events: seq<Id>, saved: Id, newer: seq<Id>) {
    && (saved !in events ==> newer == events)
    && (forall k :: 0 <= k < |events| && events[k] == saved ==> newer == events[k+1..])
  }

  /** Where the seek loop stops the saved event has just been read, or is not queued at all. */
  lemma FoundOrPassed(events: seq<Id>, next: nat, saved: Id, eid: nat, found: bool)
    requires Increasing(events) && next <= |events| && forall i :: 0 <= i < |events| ==> events[i].eid > 0
    requires if next == 0 then eid == 0 else eid == events[next-1].eid
    requires found <==> next > 0 && events[next-1] == saved
    requires found || eid >= saved.eid || next == |events|
    requires saved !in events[..if found then next - 1 else next]
    ensures found ==> NewerThan(events, saved, events[next..])
    ensures !found ==> saved !in events
    ensures found ==> saved in events && saved.eid > 0
  {
    if found {
      assert events[next-1] in events;
    } else {
      forall k | 0 <= k < |events| ensures events[k] != saved {
        if k < next {
          assert events[k] == events[..next][k];
        }
      }
    }
  }

  /** An open stream on the kernel's queue. */
  class Stream {
    var events: seq<Id>
    var next: nat

    ghost predicate Valid()
      reads this
    {
      next <= |events| && Increasing(events) && forall i :: 0 <= i < |events| ==> events[i].eid > 0
    }

    constructor (events: seq<Id>)
      requires Increasing(events) && forall i :: 0 <= i < |events| ==> events[i].eid > 0
      ensures Valid() && this.events == events && next == 0
    {
      this.events, next := events, 0;
    }

    method Next() returns (e: Option<Id>)
      requires Valid()
      modifies this`next
      ensures Valid()
      ensures old(next) < |events| ==> e == Some(events[old(next)]) && next == old(next) + 1
      ensures old(next) == |events| ==> e == None && next == old(next)
    {
      if next == |events| {
        return None;
      }
      e := Some(events[next]);
      next := next + 1;
    }

    method SeekStart()
      requires Valid()
      modifies this`next
      ensures Valid() && next == 0
    {
      next := 0;
    }

    /** Position a fresh stream after the saved event. */
    method Seek(saved: Id) returns (rv: int)
      requires Valid() && next == 0
      modifies this`next
      ensures Valid() && NewerThan(events, saved, events[next..])
      ensures rv == 0 <==> saved.eid > 0 && saved in events
    {
      var eid, found := 0, false;
      while eid < saved.eid && !found
        invariant Valid() && events == old(events)
        invariant if next == 0 then eid == 0 else eid == events[next-1].eid
        invariant found <==> next > 0 && events[next-1] == saved
        invariant saved.eid == 0 ==> next == 0
        invariant saved !in events[..if found then next - 1 else next]
        decreases |events| - next
      {
        var e := Next();
        if e == None {
          break;
        }
        eid := e.value.eid;
        found := e.value == saved;
      }
      FoundOrPassed(events, next, saved, eid, found);
      if !found && saved.eid > 0 {
        SeekStart();
      }
      assert next == 0 ==> events[next..] == events;
      rv := if found then 0 else -1;
    }
  }

  /** The state file, in 64-bit words. */
  class StateFile {
    var words: seq<int>

    constructor ()
      ensures words == []
    {
      words := [];
    }

    /** `None` when the file is too short to hold an event and not empty. */
    method ReadState() returns (saved: Option<Id>)
      ensures |words| == 0 ==> saved.Some? && saved.value.eid == 0
      ensures |words| >= 3 && words[0] >= 0 ==> saved == Some(Id(words[0], words[1], words[2]))
      ensures 0 < |words| < 3 ==> saved == None
    {
      if |words| == 0 {
        saved := Some(NO_EVENT);
      } else if |words| < 3 || words[0] < 0 {
        saved := None;
      } else {
        saved := Some(Id(words[0], words[1], words[2]));
      }
    }

    method WriteState(id: Id)
      modifies this
      ensures |words| >= 3 && words[0] == id.eid && words[1] == id.sec && words[2] == id.nsec
    {
      words := [id.eid, id.sec, id.nsec] + (if |words| > 3 then words[3..] else []);
    }
  }

  // ----- The whole protocol, interleaved with the kernel

  /** Where the daemon is. Events are numbered here by the order they were posted in; the daemon
      itself sees only their ids. */
  datatype Phase =
    | Down
    | Seeking(eid: nat, found: bool)      // in the seek loop
    | SeekOver(found: bool)               // after it, before the stream is reset
    | Ready                               // about to wait for the next event
    | Read(n: nat)                        // holding event n
    | Executed(n: nat)                    // having run its zedlets, before the state is written

  datatype State = State(
    posted: seq<Id>,        // all events ever posted
    first: nat,             // the first of this load of the module
    lo: nat,                // the oldest still queued
    cursor: Option<nat>,    // the event last read from the stream
    saved: Id,              // the state file
    phase: Phase,
    // history: the number after the last event recorded as handled; the events executed, in order;
    // which of these executions were cut off by a crash; the events passed over
    upTo: nat, done: seq<nat>, torn: set<nat>, missed: set<nat>)

  datatype Step =
    | Post(sec: int, nsec: int) | Drop | Reload
    | Start | SeekNext | SeekBreak | SeekReset | ReadNext | Exec | Persist | Crash

  /** What the kernel hands out next: after the cursor, or the oldest when there is none. */
  function NextRead(s: State): nat {
    if s.cursor.Some? then s.cursor.value + 1 else s.lo
  }

  function Pass(s: State, n: nat): set<nat> {
    set m: nat | m < n && s.upTo <= m && m !in s.done
  }

  predicate Init(s: State) {
    s == State([], 0, 0, None, NO_EVENT, Down, 0, [], {}, {})
  }

  predicate Next(s: State, t: State, step: Step) {
    match step
    case Post(sec, nsec) =>
      s.first <= |s.posted| && var id := Id(|s.posted| - s.first + 1, sec, nsec);
      id !in s.posted && t == s.(posted := s.posted + [id])
    case Drop =>
      s.lo < |s.posted| && t == s.(lo := s.lo + 1, cursor := if s.cursor == Some(s.lo) then None else s.cursor)
    case Reload => s.phase == Down && t == s.(first := |s.posted|, lo := |s.posted|)
    case Start => s.phase == Down && t == s.(phase := Seeking(0, false), cursor := None)
    case SeekNext =>
      && s.phase.Seeking? && s.phase.eid < s.saved.eid && !s.phase.found && NextRead(s) < |s.posted|
      && var id := s.posted[NextRead(s)];
         t == s.(phase := Seeking(id.eid, id == s.saved), cursor := Some(NextRead(s)))
    case SeekBreak =>
      && s.phase.Seeking? && (s.phase.eid >= s.saved.eid || s.phase.found || NextRead(s) >= |s.posted|)
      && t == s.(phase := SeekOver(s.phase.found))
    case SeekReset =>
      s.phase.SeekOver? && t == s.(phase := Ready, cursor := if !s.phase.found && s.saved.eid > 0 then None else s.cursor)
    case ReadNext =>
      && s.phase == Ready && NextRead(s) < |s.posted|
      && t == s.(phase := Read(NextRead(s)), cursor := Some(NextRead(s)), missed := s.missed + Pass(s, NextRead(s)))
    case Exec => s.phase.Read? && t == s.(phase := Executed(s.phase.n), done := s.done + [s.phase.n])
    case Persist =>
      && s.phase.Executed? && s.phase.n < |s.posted|
      && t == s.(phase := Ready, saved := s.posted[s.phase.n], upTo := s.phase.n + 1)
    case Crash =>
      && s.phase != Down
      && t == s.(phase := Down, cursor := None, torn := if s.phase.Executed? && s.done != [] then s.torn + {|s.done| - 1} else s.torn)
  }

  ghost predicate Run(run: seq<State>, steps: seq<Step>) {
    && |run| == |steps| + 1
    && Init(run[0])
    && (forall i :: 0 <= i < |steps| ==> Next(run[i], run[i+1], steps[i]))
  }

  ghost predicate Reachable(s: State) {
    exists run: seq<State>, steps: seq<Step> :: Run(run, steps) && run[|steps|] == s
  }

  // ----- What every step keeps

  ghost predicate KernelInv(s: State) {
    && s.first <= s.lo <= |s.posted|
    && (s.phase == Down ==> s.cursor.None?)
    && (s.cursor.Some? ==> s.lo <= s.cursor.value < |s.posted|)
    && (forall n :: s.first <= n < |s.posted| ==> s.posted[n].eid == n - s.first + 1)
    && (forall n :: 0 <= n < |s.posted| ==> s.posted[n].eid > 0)
    && (forall i, j :: 0 <= i < j < |s.posted| ==> s.posted[i] != s.posted[j])
  }

  ghost predicate FileInv(s: State) {
    && s.upTo <= |s.posted|
    && s.saved == if s.upTo == 0 then NO_EVENT else s.posted[s.upTo - 1]
  }

  /** While seeking, the saved event, if it is still queued, lies ahead or has just been found. */
  ghost predicate SeekInv(s: State) {
    match s.phase
    case Down => true
    case Seeking(eid, found) =>
      && (s.saved.eid == 0 ==> !found && s.cursor.None?)
      && (if found then NextRead(s) == Max(s.lo, s.upTo)
          else s.lo < s.upTo ==> NextRead(s) < s.upTo && eid < s.saved.eid)
    case SeekOver(found) =>
      && (s.saved.eid == 0 ==> !found && s.cursor.None?)
      && (if found then NextRead(s) == Max(s.lo, s.upTo) else s.upTo <= s.lo)
    case Ready => NextRead(s) == Max(s.lo, s.upTo)
    case Read(n) => s.upTo <= n < |s.posted| && n <= Max(s.lo, s.upTo) && NextRead(s) == Max(s.lo, n + 1)
    case Executed(n) => s.upTo <= n < |s.posted| && n <= Max(s.lo, s.upTo) && NextRead(s) == Max(s.lo, n + 1)
  }

  /** Events are executed in the order posted, and one again only if it was cut off by a crash. */
  ghost predicate DoneInOrder(done: seq<nat>, torn: set<nat>) {
    forall i, j :: 0 <= i < j < |done| ==> done[i] <= done[j] && (i !in torn ==> done[i] < done[j])
  }

  ghost predicate DoneInv(s: State) {
    && DoneInOrder(s.done, s.torn)
    && (s.phase.Executed? ==> |s.done| > 0 && s.done[|s.done| - 1] == s.phase.n && |s.done| - 1 !in s.torn)
    && (s.phase.Read? ==> forall i :: 0 <= i < |s.done| ==> s.done[i] <= s.phase.n)
    && (forall i :: i in s.torn ==> i < |s.done|)
    && (forall i :: 0 <= i < |s.done| ==> s.done[i] <= Max(s.lo, s.upTo))
    && (forall i :: 0 <= i < |s.done| && i !in s.torn ==> s.done[i] < s.upTo || (i == |s.done| - 1 && s.phase.Executed?))
  }

  ghost predicate MissedInv(s: State) {
    && (forall m :: m in s.missed ==> m < s.lo)
    && (forall m :: 0 <= m < s.upTo ==> m in s.done || m in s.missed)
    && (s.phase.Read? || s.phase.Executed? ==> forall m :: 0 <= m < s.phase.n ==> m in s.done || m in s.missed)
  }

  lemma KernelStep(s: State, t: State, step: Step)
    requires KernelInv(s) && Next(s, t, step)
    ensures KernelInv(t)
  {
  }

  lemma FileStep(s: State, t: State, step: Step)
    requires KernelInv(s) && FileInv(s) && SeekInv(s) && Next(s, t, step)
    ensures FileInv(t)
  {
  }

  lemma SeekNextStep(s: State, t: State)
    requires KernelInv(s) && FileInv(s) && SeekInv(s) && Next(s, t, SeekNext)
    ensures SeekInv(t)
  {
    var n := NextRead(s);
    assert s.upTo > 0 && s.first <= n;
    assert s.posted[n] == s.saved <==> n == s.upTo - 1;
  }

  lemma SeekKernelStep(s: State, t: State, step: Step)
    requires KernelInv(s) && FileInv(s) && SeekInv(s) && Next(s, t, step) && (step.Post? || step == Drop)
    ensures SeekInv(t)
  {
  }

  lemma SeekStep(s: State, t: State, step: Step)
    requires KernelInv(s) && FileInv(s) && SeekInv(s) && Next(s, t, step)
    ensures SeekInv(t)
  {
    match step {
      case Post(_, _) => SeekKernelStep(s, t, step);
      case Drop => SeekKernelStep(s, t, step);
      case SeekNext => SeekNextStep(s, t);
      case _ =>
    }
  }

  lemma ExecStep(s: State, t: State)
    requires SeekInv(s) && DoneInv(s) && Next(s, t, Exec)
    ensures DoneInv(t)
  {
    var k := |s.done|;
    assert t.done[k] == s.phase.n;
    forall i | 0 <= i < k ensures t.done[i] == s.done[i] && s.done[i] <= s.phase.n && (i !in s.torn ==> s.done[i] < s.phase.n) {
    }
  }

  lemma QuietStep(s: State, t: State)
    requires DoneInv(s) && t.done == s.done && t.torn == s.torn && t.upTo == s.upTo && s.lo <= t.lo
    requires if s.phase.Executed? then t.phase == s.phase else !t.phase.Executed? && (t.phase.Read? ==> t.phase == s.phase || t.phase.n == Max(s.lo, s.upTo))
    ensures DoneInv(t)
  {
  }

  lemma DoneStep(s: State, t: State, step: Step)
    requires KernelInv(s) && SeekInv(s) && DoneInv(s) && Next(s, t, step)
    ensures DoneInv(t)
  {
    match step {
      case Exec => ExecStep(s, t);
      case Persist =>
      case Crash =>
      case _ => QuietStep(s, t);
    }
  }

  lemma MissedStep(s: State, t: State, step: Step)
    requires KernelInv(s) && SeekInv(s) && MissedInv(s) && DoneInv(s) && Next(s, t, step)
    ensures MissedInv(t)
  {
    match step {
      case Exec => assert forall m :: m in s.done ==> m in t.done;
      case Persist => assert s.done[|s.done| - 1] == s.phase.n;
      case ReadNext => assert forall m :: m in t.missed ==> m in s.missed || m < s.lo;
      case _ =>
    }
  }

  // ----- Over whole runs

  ghost predicate Inv(s: State) {
    KernelInv(s) && FileInv(s) && SeekInv(s) && DoneInv(s) && MissedInv(s)
  }

  lemma {:induction false} InvAlong(run: seq<State>, steps: seq<Step>, i: nat)
    requires Run(run, steps) && i < |run|
    ensures Inv(run[i])
  {
    if i > 0 {
      InvAlong(run, steps, i - 1);
      var s, t, step := run[i-1], run[i], steps[i-1];
      KernelStep(s, t, step);
      FileStep(s, t, step);
      SeekStep(s, t, step);
      DoneStep(s, t, step);
      MissedStep(s, t, step);
    }
  }

  lemma InvHolds(s: State)
    requires Reachable(s)
    ensures Inv(s)
  {
    var run: seq<State>, steps: seq<Step> :| Run(run, steps) && run[|steps|] == s;
    InvAlong(run, steps, |steps|);
  }

  predicate Queued(s: State, n: nat) { s.lo <= n < |s.posted| }

  predicate ToBeRead(s: State, n: nat) { NextRead(s) <= n < |s.posted| }

  /** Whenever the daemon waits for events, however it got there, what it will read next and in what
      order is exactly the events still queued that come after the one in the state file. */
  lemma ResumesAfterSaved(s: State)
    requires Reachable(s) && s.phase == Ready
    ensures s.upTo > 0 ==> s.upTo <= |s.posted| && s.posted[s.upTo - 1] == s.saved
    ensures s.upTo == 0 ==> s.saved == NO_EVENT
    ensures forall n: nat :: ToBeRead(s, n) <==> Queued(s, n) && s.upTo <= n
  {
    InvHolds(s);
  }

  /** Events are executed in the order they were posted, each once, except that one whose
      execution was cut off by a crash before it was recorded may be executed again. */
  lemma ExecutedOnceUnlessTorn(s: State, i: nat, j: nat)
    requires Reachable(s) && i < j < |s.done|
    ensures s.done[i] <= s.done[j]
    ensures s.done[i] == s.done[j] ==> i in s.torn
  {
    InvHolds(s);
  }

  /** No event is passed over: at any time each has been executed, has been dropped by the kernel,
      or is still queued and comes after the one in the state file. And those the daemon did pass
      over had been dropped before it could read them. */
  lemma NothingSkipped(s: State, m: nat)
    requires Reachable(s) && m < |s.posted|
    ensures m in s.done || m < s.lo || (s.lo <= m && s.upTo <= m)
    ensures m < s.upTo ==> m in s.done || m in s.missed
    ensures m in s.missed ==> m < s.lo
  {
    InvHolds(s);
  }

  /** An execution is cut off only by a crash after the zedlets ran and before the state was written. */
  lemma TornOnlyInFlight(s: State, t: State, step: Step, i: nat)
    requires Reachable(s) && Next(s, t, step) && i in t.torn && i !in s.torn
    ensures step == Crash && s.phase.Executed? && i == |s.done| - 1 && s.done[i] == s.phase.n
  {
    InvHolds(s);
  }

  lemma OneStepOn(s: State, t: State, step: Step)
    requires Reachable(s) && Next(s, t, step)
    ensures Reachable(t)
  {
    var run: seq<State>, steps: seq<Step> :| Run(run, steps) && run[|steps|] == s;
    var more, on := run + [t], steps + [step];
    forall i | 0 <= i < |on| ensures Next(more[i], more[i+1], on[i]) {
    }
    assert Run(more, on) && more[|on|] == t;
  }

  /** Start with an empty state file and execute the one event queued. */
  lemma StartAndExecute(s: State, t: State)
    requires Reachable(s) && s.phase == Down && s.saved == NO_EVENT && s.lo == 0 && s.upTo == 0 && |s.posted| == 1
    requires t == s.(phase := Executed(0), cursor := Some(0), done := s.done + [0])
    ensures Reachable(t)
  {
    var s1 := s.(phase := Seeking(0, false), cursor := None);
    OneStepOn(s, s1, Start);
    var s2 := s1.(phase := SeekOver(false));
    OneStepOn(s1, s2, SeekBreak);
    var s3 := s2.(phase := Ready);
    OneStepOn(s2, s3, SeekReset);
    var s4 := s3.(phase := Read(0), cursor := Some(0));
    assert Pass(s3, 0) == {};
    OneStepOn(s3, s4, ReadNext);
    OneStepOn(s4, t, Exec);
  }

  /** The exception is real: a crash at that point makes the event run twice. */
  lemma CrashRepeats()
    ensures exists s :: Reachable(s) && s.done == [0, 0] && s.torn == {0}
  {
    var s0 := State([], 0, 0, None, NO_EVENT, Down, 0, [], {}, {});
    assert Run([s0], []);
    var s1 := s0.(posted := [Id(1, 7, 7)]);
    OneStepOn(s0, s1, Post(7, 7));
    var s2 := s1.(phase := Executed(0), cursor := Some(0), done := [0]);
    StartAndExecute(s1, s2);
    var s3 := s2.(phase := Down, cursor := None, torn := {0});
    OneStepOn(s2, s3, Crash);
    var s4 := s3.(phase := Executed(0), cursor := Some(0), done := [0, 0]);
    StartAndExecute(s3, s4);
    assert s4.done == [0, 0] && s4.torn == {0};
  }
}
