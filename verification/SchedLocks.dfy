/** The hand-off of thread locks between tasks of one thread. */
module SchedLocks {
  import opened Runs
  import opened SchedModel
  import opened SchedInvariant
  import opened SchedRuns
  import opened SchedTurns

  /** A task waiting in a lock's retry loop is running or ready, never parked. */
  lemma WaitersCanRun(s: Sched, k: nat)
    requires Reachable(s) && k < |s.lockq|
    ensures var t := s.lockq[k].task;
            t < |s.tasks| && s.tasks[t].pc == Retry(s.lockq[k].lock) && (t == s.current || t in s.rq)
  {
    ReachableInv(s);
    assert QueuedOk(s, k);
    assert TaskOk(s, s.lockq[k].task);
  }

  /** `k` is the place of the longest waiter on `lock`. */
  ghost predicate Oldest(s: Sched, lock: nat, k: nat) {
    k < |s.lockq| && s.lockq[k].lock == lock && forall j :: 0 <= j < k ==> s.lockq[j].lock != lock
  }

  /** No task is queued twice, so the one queued in place `k` is ready when another releases. */
  lemma QueuedReady(s: Sched, k: nat)
    requires Inv(s) && k < |s.lockq| && s.tasks[s.current].pc.Code?
    ensures var t := s.lockq[k].task;
            t < |s.tasks| && t != s.current && s.tasks[t].state.Ready? && t in s.rq
            && s.tasks[t].pc == Retry(s.lockq[k].lock)
  {
    assert QueuedOk(s, k);
    assert TaskOk(s, s.lockq[k].task);
  }

  lemma {:induction false} WithoutSplits(q: seq<nat>, x: nat) returns (i: nat)
    requires x in q
    ensures i < |q| && q[i] == x && Without(q, x) == q[..i] + q[i + 1..]
  {
    if q[0] == x {
      i := 0;
    } else {
      assert q == [q[0]] + q[1..];
      var k := WithoutSplits(q[1..], x);
      i := k + 1;
      assert q[..i] == [q[0]] + q[1..][..k] && q[i + 1..] == q[1..][k + 1..];
    }
  }

  lemma ReleasePicks(s: Sched, lock: nat, k: nat)
    requires Inv(s) && s.tasks[s.current].pc.Code? && Oldest(s, lock, k)
    ensures FirstWaiting(s, lock, s.lockq) == Some(s.lockq[k].task)
  {
    QueuedReady(s, k);
    FirstWaitingIs(s, lock, s.lockq);
    assert !PassedOver(s, lock, s.lockq[k]);
    var t := FirstWaiting(s, lock, s.lockq).value;
    var j :| 0 <= j < |s.lockq| && s.lockq[j] == LockWait(lock, t) && !PassedOver(s, lock, s.lockq[j])
             && forall i :: 0 <= i < j ==> PassedOver(s, lock, s.lockq[i]);
    assert s.lockq[j].lock == lock;
    assert j == k;
  }

  /** The state once the lock is given up, before anyone is let run for it. */
  ghost function GivenUp(s: Sched, lock: nat): Sched {
    s.(held := GivenBack(s.held, lock))
  }

  /** An unlock that succeeds: of a lock the running task has, or of one that is the thread's. */
  ghost predicate Unlocks(s: Sched, lock: nat) {
    Inv(s) && Enabled(s, Release(lock))
  }

  /** A release runs the task that has waited longest for that lock, wherever it stands on the run
      queue; the releaser goes to the tail and everyone else keeps their order. One that leaves the
      lock held, by the thread or by other readers, does so too. */
  lemma ReleaseRunsOldest(s: Sched, lock: nat, k: nat)
    requires Unlocks(s, lock) && Oldest(s, lock, k)
    ensures var w := s.lockq[k].task;
            var s' := Apply(s, Release(lock)).s;
            && Inv(s') && s'.current == w
            && (exists i :: 0 <= i < |s.rq| && s.rq[i] == w && s'.rq == s.rq[..i] + s.rq[i + 1..] + [s.current])
            && s'.lockq == s.lockq && s'.tasks[w].pc == Retry(lock)
            && s'.held - {lock} == s.held - {lock} && Holds(s'.held, lock) == Holds(s.held, lock) - 1
  {
    var w := s.lockq[k].task;
    QueuedReady(s, k);
    HeldAside(s, GivenUp(s, lock));
    ReleasePicks(GivenUp(s, lock), lock, k);
    HandoffKeeps(GivenUp(s, lock), w);
    var i := WithoutSplits(s.rq, w);
  }

  /** Before the releaser, or any other task of the thread, can try, the waiter's try succeeds exactly
      if that hold was the last, or if it comes to a recursive mutex that the thread still has or to a
      lock that others still read; the lock is then held as often as it was, and the waiter has left
      its queue. */
  lemma OldestTakesLock(s: Sched, lock: nat, mode: Mode, k: nat)
    requires Unlocks(s, lock) && Oldest(s, lock, k)
    ensures var w := s.lockq[k].task;
            var s' := Apply(s, Release(lock)).s;
            && (Enabled(s', Acquire(lock, mode)) <==>
                  !StillHeld(s.held, lock) || (mode.Recursive? && s.held[lock].Thread?) || (mode.Shared? && s.held[lock].Readers?))
            && (Enabled(s', Acquire(lock, mode)) ==>
                  var s'' := Apply(s', Acquire(lock, mode)).s;
                  && lock in s''.held && Holds(s''.held, lock) == Holds(s.held, lock)
                  && (mode.Exclusive? ==> s''.held[lock] == Ours(w))
                  && (mode.Recursive? ==> s''.held[lock].Thread?) && (mode.Shared? ==> s''.held[lock].Readers?)
                  && s''.current == w && s''.tasks[w].pc.Code?
                  && forall v :: v in s''.lockq <==> v in s.lockq && v.task != w)
  {
    ReleaseRunsOldest(s, lock, k);
    QueuedReady(s, k);
    var s' := Apply(s, Release(lock)).s;
    assert s'.held == GivenBack(s.held, lock);
    DropWaiterIs(s'.lockq, s'.current);
  }

  /** Without a waiter the releaser just goes on. */
  lemma ReleaseUncontended(s: Sched, lock: nat)
    requires Unlocks(s, lock) && forall k :: 0 <= k < |s.lockq| ==> s.lockq[k].lock != lock
    ensures Apply(s, Release(lock)).s == s.(held := GivenBack(s.held, lock))
  {
    FirstWaitingIs(GivenUp(s, lock), lock, s.lockq);
  }

  /** A task is queued exactly while it retries, once; one that got its lock or gave up is not. */
  lemma QueuedOnlyWhileRetrying(s: Sched, t: nat)
    requires Reachable(s) && t < |s.tasks|
    ensures s.tasks[t].pc.Retry? <==> exists k :: 0 <= k < |s.lockq| && s.lockq[k].task == t
    ensures forall j, k :: 0 <= j < k < |s.lockq| ==> s.lockq[j].task != s.lockq[k].task
  {
    ReachableInv(s);
    assert TaskOk(s, t);
    if s.tasks[t].pc.Retry? {
      assert LockWait(s.tasks[t].pc.lock, t) in s.lockq;
    }
    forall k | 0 <= k < |s.lockq| && s.lockq[k].task == t ensures s.tasks[t].pc.Retry? {
      assert QueuedOk(s, k);
    }
  }

  // ---------- who is kept apart ----------

  /** Who holds what is only changed by what is about locks. */
  lemma ElsewhereHeld(s: Sched, op: Op, s': Sched)
    requires Step(s, op, s') && !OnLock(op)
    ensures s'.held == s.held && s'.lockq == s.lockq
  {
    TurnsInOrder(s, op);
  }

  /** The holder is of the same kind: the very task, another thread, this thread or readers, once more
      or less. */
  predicate SameKind(h: Holder, h': Holder) {
    match h
    case Ours(t) => h' == Ours(t)
    case Foreign => h'.Foreign?
    case Thread(d) => h'.Thread? && -1 <= h'.depth - d <= 1
    case Readers(c) => h'.Readers? && -1 <= h'.count - c <= 1
  }

  /** No lock changes hands but by way of nobody: across any step one that is held before and after is
      held by the same. */
  lemma ChangesHandsFree(s: Sched, op: Op, s': Sched, lock: nat)
    requires Step(s, op, s') && lock in s.held && lock in s'.held
    ensures SameKind(s.held[lock], s'.held[lock])
  {
    if !OnLock(op) { ElsewhereHeld(s, op, s'); } else { LockStepHeld(s, op, s'); }
  }

  /** Who holds what after a step about a lock. */
  lemma LockStepHeld(s: Sched, op: Op, s': Sched)
    requires Step(s, op, s') && OnLock(op)
    ensures match op
            case Acquire(l, mode) => s'.held == Taken(s.held, l, mode, s.current)
            case Release(l) => s'.held == GivenBack(s.held, l)
            case ForeignAcquire(l) => s'.held == s.held[l := Foreign]
            case ForeignRelease(l) => s'.held == s.held - {l}
            case ForeignRead(l) => s'.held == Taken(s.held, l, Shared, s.current)
            case ForeignReadEnd(l) => s'.held == GivenBack(s.held, l)
            case _ => s'.held == s.held
  {
  }

  /** And one held for itself, by a task or by another thread, is let go of only by its holder. */
  lemma ExclusiveStays(s: Sched, op: Op, s': Sched, lock: nat)
    requires Step(s, op, s') && lock in s.held && op != Release(lock) && op != ForeignRelease(lock)
    requires s.held[lock].Ours? || s.held[lock].Foreign?
    ensures lock in s'.held && s'.held[lock] == s.held[lock]
    ensures op.Acquire? || op.ForeignAcquire? || op.ForeignRead? ==> op.lock != lock
  {
    if !OnLock(op) { ElsewhereHeld(s, op, s'); } else { LockStepHeld(s, op, s'); }
  }

  /** The queue keeps the order in which its tasks came to wait: a task joins at the end, once, keeps its
      place while it retries, and leaves with its lock or without. */
  lemma QueueInOrder(s: Sched, op: Op, s': Sched)
    requires Inv(s) && Step(s, op, s')
    ensures || s'.lockq == s.lockq
            || (op.WaitFor? && s.tasks[s.current].pc.Code? && s'.lockq == s.lockq + [LockWait(op.lock, s.current)])
            || ((op.Acquire? || op.GiveUp?) && s.tasks[s.current].pc.Retry? &&
                exists k :: 0 <= k < |s.lockq| && s.lockq[k].task == s.current && s'.lockq == s.lockq[..k] + s.lockq[k + 1..])
    ensures op.WaitFor? && s.tasks[s.current].pc.Code? ==> s'.lockq == s.lockq + [LockWait(op.lock, s.current)]
    ensures (op.Acquire? || op.GiveUp?) && s.tasks[s.current].pc.Retry? ==> forall v :: v in s'.lockq ==> v.task != s.current
  {
    if !OnLock(op) {
      ElsewhereHeld(s, op, s');
    } else if (op.Acquire? || op.GiveUp?) && s.tasks[s.current].pc.Retry? {
      assert TaskOk(s, s.current);
      DropWaiterIs(s.lockq, s.current);
      var k := DropWaiterAt(s.lockq, s.current);
    }
  }

  lemma {:induction false} DropWaiterAt(q: seq<LockWait>, t: nat) returns (k: nat)
    requires exists w :: w in q && w.task == t
    ensures k < |q| && q[k].task == t && DropWaiter(q, t) == q[..k] + q[k + 1..]
  {
    if q[0].task == t {
      k := 0;
    } else {
      assert q == [q[0]] + q[1..];
      var j := DropWaiterAt(q[1..], t);
      k := j + 1;
      assert q[..k] == [q[0]] + q[1..][..j] && q[k + 1..] == q[1..][j + 1..];
    }
  }

  lemma ExclusiveRefuses(s: Sched, op: Op, s': Sched, lock: nat)
    requires Step(s, op, s') && lock in s.held && s.held[lock].Ours?
    ensures !(op.Acquire? && op.lock == lock) && !(op.ForeignAcquire? && op.lock == lock) && !(op.ForeignRead? && op.lock == lock)
    ensures op != ForeignRelease(lock)
    ensures op == Release(lock) ==> s.current == s.held[lock].task
  {
  }

  /** A mutex, spin lock or write lock keeps all others out, in every run, until its holder gives it
      up: nobody takes it meanwhile, in whatever way. */
  lemma {:induction false} ExclusiveUntilReleased(ss: seq<Sched>, ops: seq<Op>, lock: nat, n: nat)
    requires IsRun(Step, ss, ops) && n <= |ops| && lock in ss[0].held && ss[0].held[lock].Ours?
    requires forall i :: 0 <= i < n ==> ops[i] != Release(lock)
    ensures lock in ss[n].held && ss[n].held[lock] == ss[0].held[lock]
    ensures n < |ops| && (ops[n].Acquire? || ops[n].ForeignAcquire? || ops[n].ForeignRead?) ==> ops[n].lock != lock
    ensures n < |ops| && ops[n] == Release(lock) ==> ss[n].current == ss[0].held[lock].task
  {
    hide Step;
    if n > 0 {
      ExclusiveUntilReleased(ss, ops, lock, n - 1);
      assert Step(ss[n - 1], ops[n - 1], ss[n]);
      ExclusiveRefuses(ss[n - 1], ops[n - 1], ss[n], lock);
      ExclusiveStays(ss[n - 1], ops[n - 1], ss[n], lock);
    }
    if n < |ops| {
      assert Step(ss[n], ops[n], ss[n + 1]);
      ExclusiveRefuses(ss[n], ops[n], ss[n + 1], lock);
    }
  }

  /** Two tasks of the thread, the second waiting for lock 7 where it is said to. */
  function Two(current: nat, waiting: bool, held: map<nat, Holder>): Sched
    requires current < 2
  {
    var first := Task(if current == 0 then Running else Ready, 1, false, 0, [], 0, 0, Code, 0, 1, 0);
    var pc := if waiting then Retry(7) else Code;
    var second := Task(if current == 1 then Running else Ready, 1, false, 0, [], 0, 0, pc, 0, 1, 0);
    Sched([first, second], current, [1 - current], [], [], {}, FIRST_CAP, 2, 0,
          if waiting then [LockWait(7, 1)] else [], held, 0)
  }

  const BY_OTHER: map<nat, Holder> := map[7 := Foreign]
  const ONCE: map<nat, Holder> := map[7 := Thread(1)]
  const TWICE: map<nat, Holder> := map[7 := Thread(2)]

  lemma SecondSpawned()
    ensures Step(Started(0), SpawnTask(ROOM, 0), Two(0, false, map[]))
    ensures Step(Two(0, false, map[]), ForeignAcquire(7), Two(0, false, BY_OTHER))
  {
    assert Spawn(Started(0), ROOM, 0).0.tasks == Two(0, false, map[]).tasks;
  }

  lemma SecondTurns()
    ensures Step(Two(0, false, BY_OTHER), YieldTo([]), Two(1, false, BY_OTHER))
  {
    var u := Two(0, false, BY_OTHER);
    assert Without([1], 1) == [];
    assert Handoff(u, 1).tasks == Two(1, false, BY_OTHER).tasks;
    assert Handoff(u, 1) == Two(1, false, BY_OTHER);
  }

  lemma SecondPasses()
    ensures Step(Two(1, true, BY_OTHER), Pass, Two(0, true, BY_OTHER))
  {
    var u := Two(1, true, BY_OTHER);
    assert Without([0], 0) == [];
    assert Handoff(u, 0).tasks == Two(0, true, BY_OTHER).tasks;
  }

  lemma SecondQueues()
    ensures Step(Two(1, false, BY_OTHER), WaitFor(7, Recursive), Two(1, true, BY_OTHER))
  {
    assert Enqueue(Two(1, false, BY_OTHER), 7).tasks == Two(1, true, BY_OTHER).tasks;
  }

  lemma SecondWaits()
    ensures Reachable(Two(0, true, BY_OTHER))
  {
    SecondSpawned();
    SecondTurns();
    SecondQueues();
    SecondPasses();
    hide Step;
    AtOnce(Step, Started(0));
    Further(Step, Started(0), Started(0), SpawnTask(ROOM, 0), Two(0, false, map[]));
    Further(Step, Started(0), Two(0, false, map[]), ForeignAcquire(7), Two(0, false, BY_OTHER));
    Further(Step, Started(0), Two(0, false, BY_OTHER), YieldTo([]), Two(1, false, BY_OTHER));
    Further(Step, Started(0), Two(1, false, BY_OTHER), WaitFor(7, Recursive), Two(1, true, BY_OTHER));
    Further(Step, Started(0), Two(1, true, BY_OTHER), Pass, Two(0, true, BY_OTHER));
  }

  lemma FirstTakes()
    ensures Step(Two(0, true, BY_OTHER), ForeignRelease(7), Two(0, true, map[]))
    ensures Step(Two(0, true, map[]), Acquire(7, Recursive), Two(0, true, ONCE))
    ensures Step(Two(0, true, ONCE), Acquire(7, Recursive), Two(0, true, TWICE))
  {
  }

  lemma FirstGivesBack()
    ensures Step(Two(0, true, TWICE), Release(7), Two(1, true, ONCE))
  {
    var u := Two(0, true, ONCE);
    assert GivenBack(TWICE, 7) == ONCE;
    assert u.lockq[0] == LockWait(7, 1);
    assert FirstWaiting(u, 7, u.lockq) == Some(1);
    assert Handoff(u, 1).tasks == Two(1, true, ONCE).tasks;
  }

  lemma SecondTakes()
    ensures Step(Two(1, true, ONCE), Acquire(7, Recursive), Two(1, false, TWICE))
  {
    var u := Two(1, true, TWICE);
    assert u.lockq[0] == LockWait(7, 1) && DropWaiter(u.lockq, 1) == [];
    assert Dequeue(u).tasks == Two(1, false, TWICE).tasks;
  }

  /** A recursive mutex does not keep the tasks of its thread apart. In a run from the start the
      second task waits for one that another thread has; that thread lets go, the first task takes it
      twice and gives it back once, and the second has it too while the first is still inside. */
  lemma RecursiveLetsBothIn()
    ensures Reachable(Two(0, true, BY_OTHER))
    ensures Step(Two(0, true, BY_OTHER), ForeignRelease(7), Two(0, true, map[]))
    ensures Step(Two(0, true, map[]), Acquire(7, Recursive), Two(0, true, ONCE))
    ensures Step(Two(0, true, ONCE), Acquire(7, Recursive), Two(0, true, TWICE))
    ensures Step(Two(0, true, TWICE), Release(7), Two(1, true, ONCE))
    ensures Step(Two(1, true, ONCE), Acquire(7, Recursive), Two(1, false, TWICE))
  {
    SecondWaits();
    FirstTakes();
    FirstGivesBack();
    SecondTakes();
  }
}
