/** Whole runs of the scheduler: every interleaving of what tasks may do. */
module SchedRuns {
  import opened Runs
  import opened SchedModel
  import opened SchedInvariant

  /** What the running task does next, with what its environment answers. `Pass` and `Poll` are the
      moves of `_gt_step` and of the drain; the `Foreign` ones are another thread's. */
  datatype Op =
    | SpawnTask(m: Memory, usp: int)
    | YieldTo(log: seq<Completion>)
    | AwaitTask(handle: int, log: seq<Completion>)
    | CollectTask
    | DetachTask(handle: int)
    | StartIo(log: seq<Completion>)
    | FinishTask(log: seq<Completion>)
    | Pass
    | Poll(log: seq<Completion>)
    | Acquire(lock: nat, mode: Mode)
    | Release(lock: nat)
    | WaitFor(lock: nat, mode: Mode)
    | GiveUp
    | MoveUsp(usp: int)
    | ForeignAcquire(lock: nat)
    | ForeignRelease(lock: nat)
    | ForeignRead(lock: nat)
    | ForeignReadEnd(lock: nat)

  /** An allocator that gives whatever it is asked for. */
  const ROOM := Memory(true, true, true)

  /** Another thread's moves. */
  predicate ByOthers(op: Op) {
    op.ForeignAcquire? || op.ForeignRelease? || op.ForeignRead? || op.ForeignReadEnd?
  }

  /** Awaits and detaches, and everything else, are made from a task's own code. The detach of a
      task others have yet to collect is the one misuse left out: nothing in the source checks it. */
  ghost predicate Enabled(s: Sched, op: Op)
    requires InRange(s)
  {
    var pc := s.tasks[s.current].pc;
    match op
    case SpawnTask(_, _) => pc.Code?
    case YieldTo(log) => pc.Code? && Deliverable(s, log)
    case AwaitTask(h, log) =>
      pc.Code? && (AwaitAnswer(s, h).Parks? ==> PicksWith(Park(s, Resolve(s, h).value), log))
    case CollectTask => Collecting(s)
    case DetachTask(h) =>
      pc.Code? && (DetachAnswer(s, h).Success? ==> s.tasks[Resolve(s, h).value].njoiners == 0)
    case StartIo(log) => pc.Code? && PicksWith(Submit(s), log)
    case FinishTask(log) => pc.Code? && s.current != 0 && PicksWith(Complete(s), log)
    case Pass => !pc.Collect? && s.rq != []
    case Poll(log) => !pc.Collect? && Deliverable(s, log)
    case Acquire(l, mode) => (pc.Code? || pc == Retry(l)) && TrySucceeds(s.held, l, mode)
    case Release(l) => pc.Code? && l in s.held && !s.held[l].Foreign? && (s.held[l].Ours? ==> s.held[l].task == s.current)
    case WaitFor(l, mode) => (pc.Code? || pc == Retry(l)) && Busy(s.held, l, mode)
    case GiveUp => pc.Retry?
    case MoveUsp(_) => pc.Code?
    case ForeignAcquire(l) => l !in s.held
    case ForeignRelease(l) => l in s.held && s.held[l].Foreign?
    case ForeignRead(l) => TrySucceeds(s.held, l, Shared)
    case ForeignReadEnd(l) => l in s.held && s.held[l].Readers?
  }

  function Apply(s: Sched, op: Op): Outcome
    requires InRange(s) && Enabled(s, op)
  {
    match op
    case SpawnTask(m, usp) => Went(Spawn(s, m, usp).0)
    case YieldTo(log) => Went(Yield(s, log))
    case AwaitTask(h, log) => Await(s, h, log)
    case CollectTask => Went(CollectJoin(s))
    case DetachTask(h) => Went(Detach(s, h))
    case StartIo(log) => Block(Submit(s), log)
    case FinishTask(log) => Finish(s, log)
    case Pass => Went(Handoff(s, s.rq[0]))
    case Poll(log) => Went(Deliver(s, log))
    case Acquire(l, mode) => Went(Dequeue(s.(held := Taken(s.held, l, mode, s.current))))
    case Release(l) => Went(Unlock(s, l))
    case WaitFor(l, _) => Went(Enqueue(s, l))
    case GiveUp => Went(Dequeue(s))
    case MoveUsp(v) => Went(s.(tls := v, tasks := s.tasks[s.current := s.tasks[s.current].(want := v)]))
    case ForeignAcquire(l) => Went(s.(held := s.held[l := Foreign]))
    case ForeignRelease(l) => Went(s.(held := s.held - {l}))
    case ForeignRead(l) => Went(s.(held := Taken(s.held, l, Shared, s.current)))
    case ForeignReadEnd(l) => Went(s.(held := GivenBack(s.held, l)))
  }

  ghost predicate Step(s: Sched, op: Op, s': Sched) {
    InRange(s) && Enabled(s, op) && Apply(s, op) == Went(s')
  }

  ghost predicate Reachable(s: Sched) {
    exists usp :: Reaches(Step, Started(usp), s)
  }

  lemma StepKeeps(s: Sched, op: Op)
    requires Inv(s) && Enabled(s, op)
    ensures Apply(s, op).Went? ==> Inv(Apply(s, op).s)
    ensures Apply(s, op).Deadlock? ==> Core(Apply(s, op).s)
  {
    match op
    case SpawnTask(m, usp) => SpawnKeeps(s, m, usp);
    case YieldTo(log) => PollKeeps(s, log); YieldKeeps(s, log);
    case AwaitTask(h, log) => AwaitKeeps(s, h, log);
    case CollectTask => CollectKeeps(s);
    case DetachTask(h) => DetachKeeps(s, h);
    case StartIo(log) => SubmitKeeps(s); BlockKeeps(Submit(s), log);
    case FinishTask(log) => FinishKeeps(s, log);
    case Pass => HandoffKeeps(s, s.rq[0]);
    case Poll(log) => PollKeeps(s, log);
    case MoveUsp(v) => SetUspKeeps(s, v);
    case _ => LockStepKeeps(s, op);
  }

  /** The moves that are about a lock. */
  predicate OnLock(op: Op) {
    ByOthers(op) || op.Acquire? || op.Release? || op.WaitFor? || op.GiveUp?
  }

  lemma LockStepKeeps(s: Sched, op: Op)
    requires Inv(s) && Enabled(s, op) && OnLock(op)
    ensures Apply(s, op).Went? && Inv(Apply(s, op).s)
  {
    match op
    case Acquire(l, mode) => TryKeeps(s, Taken(s.held, l, mode, s.current));
    case Release(l) => UnlockKeeps(s, l);
    case WaitFor(l, _) => EnqueueKeeps(s, l);
    case GiveUp => DequeueKeeps(s);
    case _ => ForeignKeeps(s, op);
  }

  lemma ForeignKeeps(s: Sched, op: Op)
    requires Inv(s) && Enabled(s, op) && ByOthers(op)
    ensures Apply(s, op).Went? && Inv(Apply(s, op).s)
  {
    var held := Apply(s, op).s.held;
    assert HeldOk(held, |s.tasks|);
    HeldAside(s, s.(held := held));
  }

  lemma PollKeeps(s: Sched, log: seq<Completion>)
    requires Inv(s) && Deliverable(s, log)
    ensures Inv(Deliver(s, log))
  {
    DeliverKeeps(s, log);
  }

  lemma YieldKeeps(s: Sched, log: seq<Completion>)
    requires Inv(s) && Deliverable(s, log) && Inv(Deliver(s, log))
    ensures Inv(Yield(s, log))
  {
    var d := Deliver(s, log);
    if d.rq != [] { HandoffKeeps(d, d.rq[0]); }
  }

  lemma TryKeeps(s: Sched, held: map<nat, Holder>)
    requires Inv(s) && HeldOk(held, |s.tasks|)
    ensures Inv(Dequeue(s.(held := held)))
  {
    var u := s.(held := held);
    HeldAside(s, u);
    DequeueKeeps(u);
  }

  /** Every reachable state satisfies the invariant, whatever the tasks, the backend, the allocator
      and the other threads do. */
  lemma RunKeeps(ss: seq<Sched>, ops: seq<Op>, n: nat)
    requires IsRun(Step, ss, ops) && Inv(ss[0]) && n <= |ops|
    ensures Inv(ss[n])
  {
    forall s, op, s' | Inv(s) && Step(s, op, s') ensures Inv(s') {
      StepKeeps(s, op);
    }
    KeptTo(Step, Inv, ss, ops, n);
  }

  lemma ReachableInv(s: Sched)
    requires Reachable(s)
    ensures Inv(s)
  {
    var usp :| Reaches(Step, Started(usp), s);
    var ss: seq<Sched>, ops: seq<Op> :| IsRun(Step, ss, ops) && ss[0] == Started(usp) && ss[|ops|] == s;
    StartedOk(usp);
    RunKeeps(ss, ops, |ops|);
  }

  /** In a reachable state every task is in the one place its state names, and nowhere else. */
  ghost predicate InItsPlace(s: Sched, i: nat)
    requires i < |s.tasks|
  {
    && (i in s.rq <==> s.tasks[i].state.Ready?)
    && (i == s.current <==> s.tasks[i].state.Running?)
    && (i in s.out <==> s.tasks[i].state.Waiting?)
    && (i in s.free <==> s.tasks[i].state.Free?)
    && ((exists t :: 0 <= t < |s.tasks| && i in s.tasks[t].waiters) <==> s.tasks[i].state.Joining?)
  }

  lemma EachTaskInItsPlace(s: Sched)
    requires Reachable(s)
    ensures forall i :: 0 <= i < |s.tasks| ==> InItsPlace(s, i)
    ensures NoDup(s.rq) && NoDup(s.free) && s.zombies == []
    ensures forall t, u, i :: 0 <= t < |s.tasks| && 0 <= u < |s.tasks| && i in s.tasks[t].waiters && i in s.tasks[u].waiters ==> t == u
    ensures forall t :: 0 <= t < |s.tasks| ==> NoDup(s.tasks[t].waiters)
    ensures forall t, i :: 0 <= t < |s.tasks| && i in s.tasks[t].waiters ==> !s.tasks[t].state.Done? && !s.tasks[t].state.Free?
    ensures s.inflight == |s.out| && s.live + |s.free| == |s.tasks|
  {
    ReachableInv(s);
    forall i | 0 <= i < |s.tasks| ensures InItsPlace(s, i) {
      assert TaskOk(s, i);
      if s.tasks[i].state.Joining? {
        assert i in s.tasks[s.tasks[i].pc.target].waiters;
      }
      forall t | 0 <= t < |s.tasks| && i in s.tasks[t].waiters ensures s.tasks[i].state.Joining? {
        assert TaskOk(s, t);
      }
    }
    forall t, u, i | 0 <= t < |s.tasks| && 0 <= u < |s.tasks| && i in s.tasks[t].waiters && i in s.tasks[u].waiters ensures t == u {
      assert TaskOk(s, t) && TaskOk(s, u);
    }
    forall t | 0 <= t < |s.tasks| ensures NoDup(s.tasks[t].waiters) {
      assert TaskOk(s, t);
    }
    forall t, i | 0 <= t < |s.tasks| && i in s.tasks[t].waiters ensures !s.tasks[t].state.Done? && !s.tasks[t].state.Free? {
      assert TaskOk(s, t);
    }
  }
}
