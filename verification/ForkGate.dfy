/** Forking from a process that has threads: a thread holds the read side of one gate while it may hold
    process-wide locks, and a fork takes the write side. A transition system over any number of threads. */
module ForkGate {
  /** Where a thread stands with the gate. `Leaving` has dropped its guard but not yet its depth; `Alone`
      holds the write side and is about to fork, `Forked` has and is about to let go. */
  datatype Place = Outside | WantsRead | Inside | Leaving | WantsWrite | Alone | Forked

  /** `depth` is the thread's count of regions, `locks` the process-wide locks it holds. */
  datatype Thread = Thread(depth: nat, place: Place, locks: set<nat>)

  /** The reader/writer lock. Whether new readers queue behind a waiting writer is left to it. */
  datatype Gate = Gate(readers: nat, writer: bool, writersFirst: bool)

  datatype State = State(gate: Gate, threads: seq<Thread>)

  datatype Step =
    | EnterOuter(i: nat)
    | GetRead(i: nat)
    | EnterInner(i: nat)
    | Lock(i: nat, lock: nat)
    | Unlock(i: nat, lock: nat)
    | LeaveInner(i: nat)
    | DropRead(i: nat)
    | LeaveOuter(i: nat)
    | AskWrite(i: nat)
    | GetWrite(i: nat)
    | Fork(i: nat)
    | DropWrite(i: nat)

  predicate SomeWantsWrite(threads: seq<Thread>) {
    exists k :: 0 <= k < |threads| && threads[k].place == WantsWrite
  }

  predicate LockFree(threads: seq<Thread>, lock: nat) {
    forall k :: 0 <= k < |threads| ==> lock !in threads[k].locks
  }

  predicate MayRead(s: State) {
    !s.gate.writer && (s.gate.writersFirst ==> !SomeWantsWrite(s.threads))
  }

  predicate MayWrite(s: State) {
    !s.gate.writer && s.gate.readers == 0
  }

  /** Regions are left in the reverse of the order they were entered, on return and on unwinding alike: the
      locks first, then the guard, then the depth. */
  predicate Enabled(s: State, step: Step) {
    step.i < |s.threads| &&
    var t := s.threads[step.i];
    match step
    case EnterOuter(_) => t.place == Outside && t.depth == 0
    case GetRead(_) => t.place == WantsRead && MayRead(s)
    case EnterInner(_) => t.place == Inside && t.depth > 0
    case Lock(_, lock) => t.place == Inside && LockFree(s.threads, lock)
    case Unlock(_, lock) => t.place == Inside && lock in t.locks
    case LeaveInner(_) => t.place == Inside && t.depth > 1
    case DropRead(_) => t.place == Inside && t.depth == 1 && t.locks == {}
    case LeaveOuter(_) => t.place == Leaving
    case AskWrite(_) => t.place == Outside && t.depth == 0
    case GetWrite(_) => t.place == WantsWrite && MayWrite(s)
    case Fork(_) => t.place == Alone
    case DropWrite(_) => t.place == Forked
  }

  function Lowered(depth: nat): nat {
    if depth == 0 then 0 else depth - 1
  }

  function NextThread(t: Thread, step: Step): Thread {
    match step
    case EnterOuter(_) => t.(depth := t.depth + 1, place := WantsRead)
    case GetRead(_) => t.(place := Inside)
    case EnterInner(_) => t.(depth := t.depth + 1)
    case Lock(_, lock) => t.(locks := t.locks + {lock})
    case Unlock(_, lock) => t.(locks := t.locks - {lock})
    case LeaveInner(_) => t.(depth := Lowered(t.depth))
    case DropRead(_) => t.(place := Leaving)
    case LeaveOuter(_) => t.(depth := Lowered(t.depth), place := Outside)
    case AskWrite(_) => t.(place := WantsWrite)
    case GetWrite(_) => t.(place := Alone)
    case Fork(_) => t.(place := Forked)
    case DropWrite(_) => t.(place := Outside)
  }

  function NextGate(g: Gate, step: Step): Gate {
    match step
    case GetRead(_) => g.(readers := g.readers + 1)
    case DropRead(_) => g.(readers := Lowered(g.readers))
    case GetWrite(_) => g.(writer := true)
    case DropWrite(_) => g.(writer := false)
    case _ => g
  }

  function Next(s: State, step: Step): State
    requires Enabled(s, step)
  {
    State(NextGate(s.gate, step), s.threads[step.i := NextThread(s.threads[step.i], step)])
  }

  /** The process a fork makes: a copy of the gate, and of the calling thread alone. */
  function Child(s: State, i: nat): State
    requires i < |s.threads|
  {
    State(s.gate, [s.threads[i]])
  }

  // ------------------------------------------------------------------ what every step keeps

  function Counting(threads: seq<Thread>, place: Place): nat {
    if threads == [] then 0
    else (if threads[0].place == place then 1 else 0) + Counting(threads[1..], place)
  }

  /** The thread's depth and locks fit where it stands. */
  predicate Fits(t: Thread) {
    match t.place
    case Outside => t.depth == 0 && t.locks == {}
    case WantsRead => t.depth == 1 && t.locks == {}
    case Inside => t.depth >= 1
    case Leaving => t.depth == 1 && t.locks == {}
    case WantsWrite => t.depth == 0 && t.locks == {}
    case Alone => t.depth == 0 && t.locks == {}
    case Forked => t.depth == 0 && t.locks == {}
  }

  ghost predicate Valid(s: State) {
    && (forall k :: 0 <= k < |s.threads| ==> Fits(s.threads[k]))
    && s.gate.readers == Counting(s.threads, Inside)
    && (if s.gate.writer then 1 else 0) == Counting(s.threads, Alone) + Counting(s.threads, Forked)
    && (s.gate.writer ==> s.gate.readers == 0)
  }

  lemma {:induction false} CountingUpdate(threads: seq<Thread>, i: nat, t: Thread, place: Place)
    requires i < |threads|
    ensures Counting(threads[i := t], place) + (if threads[i].place == place then 1 else 0)
         == Counting(threads, place) + (if t.place == place then 1 else 0)
  {
    if i == 0 {
      assert threads[0 := t][1..] == threads[1..];
    } else {
      assert threads[i := t][1..] == threads[1..][i - 1 := t];
      CountingUpdate(threads[1..], i - 1, t, place);
    }
  }

  lemma {:induction false} CountingZero(threads: seq<Thread>, place: Place)
    ensures Counting(threads, place) == 0 <==> forall k :: 0 <= k < |threads| ==> threads[k].place != place
  {
    if threads != [] {
      CountingZero(threads[1..], place);
      assert forall k :: 1 <= k < |threads| ==> threads[k] == threads[1..][k - 1];
    }
  }

  lemma CountsThread(threads: seq<Thread>, i: nat)
    requires i < |threads|
    ensures Counting(threads, threads[i].place) > 0
  {
    CountingZero(threads, threads[i].place);
  }

  lemma OneStep(s: State, step: Step)
    requires Valid(s) && Enabled(s, step)
    ensures Valid(Next(s, step))
  {
    var t := NextThread(s.threads[step.i], step);
    CountingUpdate(s.threads, step.i, t, Inside);
    CountingUpdate(s.threads, step.i, t, Alone);
    CountingUpdate(s.threads, step.i, t, Forked);
    CountsThread(s.threads, step.i);
    hide Counting, MayRead;
  }

  // ------------------------------------------------------------------ runs

  predicate Possible(s: State, run: seq<Step>)
    decreases |run|
  {
    run == [] || (Enabled(s, run[0]) && Possible(Next(s, run[0]), run[1..]))
  }

  function After(s: State, run: seq<Step>): State
    requires Possible(s, run)
    decreases |run|
  {
    if run == [] then s else After(Next(s, run[0]), run[1..])
  }

  /** Nobody is anywhere near the gate. */
  predicate Idle(s: State) {
    !s.gate.writer && s.gate.readers == 0 && forall k :: 0 <= k < |s.threads| ==> s.threads[k] == Thread(0, Outside, {})
  }

  lemma IdleIsValid(s: State)
    requires Idle(s)
    ensures Valid(s)
  {
    CountingZero(s.threads, Inside);
    CountingZero(s.threads, Alone);
    CountingZero(s.threads, Forked);
  }

  lemma {:induction false} RunKeeps(s: State, run: seq<Step>)
    requires Valid(s) && Possible(s, run)
    ensures Valid(After(s, run))
    decreases |run|
  {
    if run != [] {
      OneStep(s, run[0]);
      hide Valid, Enabled;
      RunKeeps(Next(s, run[0]), run[1..]);
    }
  }

  /** In every run from an idle process, whatever the threads do: when a thread forks, no thread is inside a
      region, every process-wide lock is free, and the gate is held by the forking thread alone. */
  lemma ForkFindsEverythingFree(s: State, run: seq<Step>, i: nat)
    requires Idle(s) && Possible(s, run) && Enabled(After(s, run), Fork(i))
    ensures var now := After(s, run);
            && now.gate.readers == 0 && now.gate.writer
            && (forall k :: 0 <= k < |now.threads| ==> now.threads[k].place != Inside && now.threads[k].locks == {})
            && (forall k :: 0 <= k < |now.threads| && k != i ==> now.threads[k].place != Alone && now.threads[k].place != Forked)
  {
    IdleIsValid(s);
    RunKeeps(s, run);
    var now := After(s, run);
    CountsThread(now.threads, i);
    CountingZero(now.threads, Inside);
    forall k | 0 <= k < |now.threads| && k != i
      ensures now.threads[k].place != Alone && now.threads[k].place != Forked
    {
      OnlyWriter(now.threads, i, k);
    }
  }

  lemma OnlyWriter(threads: seq<Thread>, i: nat, k: nat)
    requires i < |threads| && k < |threads| && i != k && threads[i].place == Alone
    requires Counting(threads, Alone) + Counting(threads, Forked) == 1
    ensures threads[k].place != Alone && threads[k].place != Forked
  {
    CountsThread(threads, i);
    CountsThread(threads, k);
    var t := threads[i].(place := Outside);
    CountingUpdate(threads, i, t, Alone);
    CountsThread(threads[i := t], k);
  }

  /** Both processes let go: the child is then an idle process of one thread that may fork in turn, and in
      the parent the gate is free. */
  lemma BothEndFree(s: State, i: nat)
    requires Valid(s) && Enabled(s, Fork(i))
    ensures var forked := Next(s, Fork(i));
            var child := Child(forked, i);
            && Enabled(child, DropWrite(0)) && Idle(Next(child, DropWrite(0)))
            && Enabled(forked, DropWrite(i))
            && MayWrite(Next(forked, DropWrite(i)))
  {
    CountsThread(s.threads, i);
  }

  // ------------------------------------------------------------------ depth

  function Entries(run: seq<Step>, i: nat): nat {
    if run == [] then 0
    else (if run[0] == EnterOuter(i) || run[0] == EnterInner(i) then 1 else 0) + Entries(run[1..], i)
  }

  function Exits(run: seq<Step>, i: nat): nat {
    if run == [] then 0
    else (if run[0] == LeaveOuter(i) || run[0] == LeaveInner(i) then 1 else 0) + Exits(run[1..], i)
  }

  /** A thread's depth is the number of regions it has entered and not left: it is back where it was once
      they are all left, and lowering it never saturates. */
  lemma {:induction false} DepthIsOpenRegions(s: State, run: seq<Step>, i: nat)
    requires Valid(s) && Possible(s, run) && i < |s.threads|
    ensures i < |After(s, run).threads|
    ensures After(s, run).threads[i].depth + Exits(run, i) == s.threads[i].depth + Entries(run, i)
    decreases |run|
  {
    if run != [] {
      OneStep(s, run[0]);
      var next := Next(s, run[0]);
      DepthIsOpenRegions(next, run[1..], i);
      assert run[0].i != i ==> next.threads[i] == s.threads[i];
      if run[0].i == i {
        assert Fits(s.threads[i]);
      }
    }
  }

  // ------------------------------------------------------------------ progress

  /** A step that finishes something, rather than beginning a region, a lock or a fork. */
  predicate Finishing(step: Step) {
    !step.EnterOuter? && !step.EnterInner? && !step.AskWrite? && !step.Lock?
  }

  /** How many finishing steps a thread has left. */
  function Owed(t: Thread): nat {
    match t.place
    case Outside => 0
    case WantsRead => 3
    case Inside => t.depth + 1 + |t.locks|
    case Leaving => 1
    case WantsWrite => 3
    case Alone => 2
    case Forked => 1
  }

  function Left(threads: seq<Thread>): nat {
    if threads == [] then 0 else Owed(threads[0]) + Left(threads[1..])
  }

  lemma {:induction false} LeftUpdate(threads: seq<Thread>, i: nat, t: Thread)
    requires i < |threads|
    ensures Left(threads[i := t]) + Owed(threads[i]) == Left(threads) + Owed(t)
  {
    hide Owed;
    if i == 0 {
      assert threads[0 := t][1..] == threads[1..];
    } else {
      assert threads[i := t][1..] == threads[1..][i - 1 := t];
      LeftUpdate(threads[1..], i - 1, t);
    }
  }

  lemma {:induction false} LeftZero(threads: seq<Thread>)
    requires forall k :: 0 <= k < |threads| ==> threads[k].place != Outside ==> Owed(threads[k]) > 0
    ensures Left(threads) == 0 ==> forall k :: 0 <= k < |threads| ==> threads[k].place == Outside
  {
    hide Owed;
    if threads != [] {
      assert forall k :: 1 <= k < |threads| ==> threads[k] == threads[1..][k - 1];
      LeftZero(threads[1..]);
    }
  }

  /** Every finishing step is one fewer. */
  lemma FinishingCounts(s: State, step: Step)
    requires Valid(s) && Enabled(s, step) && Finishing(step)
    ensures Left(Next(s, step).threads) == Left(s.threads) - 1
  {
    var t := NextThread(s.threads[step.i], step);
    LeftUpdate(s.threads, step.i, t);
    assert Fits(s.threads[step.i]);
    hide Left;
  }

  /** While any thread is anywhere near the gate, some finishing step can be taken: no waiting thread waits
      for ever on threads that wait on it, whichever side the gate prefers. */
  lemma NeverStuck(s: State, i: nat) returns (step: Step)
    requires Valid(s) && i < |s.threads| && s.threads[i].place != Outside
    ensures Enabled(s, step) && Finishing(step)
  {
    CountingZero(s.threads, Inside);
    CountingZero(s.threads, Alone);
    CountingZero(s.threads, Forked);
    hide Counting;
    assert Fits(s.threads[i]);
    if k :| 0 <= k < |s.threads| && s.threads[k].place == Inside {
      assert Fits(s.threads[k]);
      if s.threads[k].locks != {} {
        var lock :| lock in s.threads[k].locks;
        step := Unlock(k, lock);
      } else {
        step := if s.threads[k].depth > 1 then LeaveInner(k) else DropRead(k);
      }
    } else if k :| 0 <= k < |s.threads| && s.threads[k].place == Alone {
      step := Fork(k);
    } else if k :| 0 <= k < |s.threads| && s.threads[k].place == Forked {
      step := DropWrite(k);
    } else if k :| 0 <= k < |s.threads| && s.threads[k].place == WantsWrite {
      step := GetWrite(k);
    } else if s.threads[i].place == WantsRead {
      step := GetRead(i);
    } else {
      step := LeaveOuter(i);
    }
  }

  /** Once nothing new is begun, every queued reader and writer is served and the process comes to rest in
      exactly as many steps as are left, whichever order they are taken in. */
  lemma {:induction false} ComesToRest(s: State) returns (run: seq<Step>)
    requires Valid(s)
    ensures Possible(s, run) && |run| == Left(s.threads) && Idle(After(s, run))
    decreases Left(s.threads)
  {
    hide Enabled;
    if k :| 0 <= k < |s.threads| && s.threads[k].place != Outside {
      var step := NeverStuck(s, k);
      OneStep(s, step);
      FinishingCounts(s, step);
      hide Valid;
      var rest := ComesToRest(Next(s, step));
      run := [step] + rest;
      assert run[1..] == rest;
    } else {
      run := [];
      AtRest(s);
    }
  }

  lemma AtRest(s: State)
    requires Valid(s) && forall k :: 0 <= k < |s.threads| ==> s.threads[k].place == Outside
    ensures Idle(s) && Left(s.threads) == 0
  {
    CountingZero(s.threads, Inside);
    CountingZero(s.threads, Alone);
    CountingZero(s.threads, Forked);
    LeftNone(s.threads);
    forall k | 0 <= k < |s.threads|
      ensures s.threads[k] == Thread(0, Outside, {})
    {
      assert Fits(s.threads[k]);
    }
  }

  lemma {:induction false} LeftNone(threads: seq<Thread>)
    requires forall k :: 0 <= k < |threads| ==> threads[k].place == Outside
    ensures Left(threads) == 0
  {
    if threads != [] {
      assert forall k :: 1 <= k < |threads| ==> threads[k] == threads[1..][k - 1];
      LeftNone(threads[1..]);
    }
  }

  /** Why only the outermost region takes the gate: with a writer waiting, a second guard would wait for the
      writer, and the writer for the first guard, on the same thread. */
  lemma SecondGuardWouldWait(s: State, i: nat, k: nat)
    requires Valid(s) && s.gate.writersFirst && i < |s.threads| && k < |s.threads|
    requires s.threads[i].place == Inside && s.threads[k].place == WantsWrite
    ensures !MayRead(s) && !MayWrite(s)
  {
    CountsThread(s.threads, i);
  }

  // ------------------------------------------------------------------ a fork from inside a region

  /** What is let through ungated: the child has this thread's guard to drop, and those of threads it does
      not have, which nothing in it will ever drop. */
  lemma {:induction false} InheritedReadersStay(s: State, extra: nat, run: seq<Step>)
    requires |s.threads| == 1 && Fits(s.threads[0]) && s.gate.readers == Counting(s.threads, Inside) + extra && extra > 0
    requires !s.gate.writer && s.threads[0].place != Alone && s.threads[0].place != Forked
    requires Possible(s, run)
    ensures After(s, run).gate.readers >= extra && !MayWrite(After(s, run))
    decreases |run|
  {
    if run != [] {
      var t := NextThread(s.threads[0], run[0]);
      CountingUpdate(s.threads, 0, t, Inside);
      CountsThread(s.threads, 0);
      hide Counting;
      InheritedReadersStay(Next(s, run[0]), extra, run[1..]);
    }
  }

  /** A child forked from inside a region can fork again itself some day exactly when no other thread was
      inside one at that moment. */
  lemma ForkInside(s: State, i: nat)
    requires Valid(s) && i < |s.threads| && s.threads[i].place == Inside
    ensures (exists run :: Possible(Child(s, i), run) && MayWrite(After(Child(s, i), run)))
       <==> (forall k :: 0 <= k < |s.threads| && s.threads[k].place == Inside ==> k == i)
  {
    var child := Child(s, i);
    assert Fits(s.threads[i]);
    var t := s.threads[i].(place := Outside);
    CountingUpdate(s.threads, i, t, Inside);
    CountingZero(s.threads[i := t], Inside);
    assert child.threads[1..] == [];
    assert Counting(child.threads, Inside) == 1;
    if forall k :: 0 <= k < |s.threads| && s.threads[k].place == Inside ==> k == i {
      assert s.gate.readers == 1;
      AloneIsValid(child);
      var run := ComesToRest(child);
      assert Possible(child, run) && MayWrite(After(child, run));
    } else {
      ghost var k :| 0 <= k < |s.threads| && s.threads[k].place == Inside && k != i;
      assert s.threads[i := t][k].place == Inside;
      forall run | Possible(child, run)
        ensures !MayWrite(After(child, run))
      {
        InheritedReadersStay(child, s.gate.readers - 1, run);
      }
    }
  }

  lemma AloneIsValid(s: State)
    requires |s.threads| == 1 && Fits(s.threads[0]) && s.threads[0].place == Inside && s.gate.readers == 1 && !s.gate.writer
    ensures Valid(s)
  {
    assert s.threads[1..] == [];
  }
}
