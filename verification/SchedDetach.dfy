/** Detaching a task that others are still to collect: when it is safe, and what becomes of it if not. */
module SchedDetach {
  import opened Runs
  import opened SchedModel
  import opened SchedInvariant
  import opened SchedRuns
  import opened SchedSlots

  /** A detach that is accepted keeps the invariant exactly where nobody is still to collect the
      task: where its `njoiners`, which the call never looks at, is 0. */
  lemma DetachExact(s: Sched, handle: int)
    requires Inv(s) && s.tasks[s.current].pc.Code? && DetachAnswer(s, handle).Success?
    ensures Inv(Detach(s, handle)) <==> s.tasks[Resolve(s, handle).value].njoiners == 0
  {
    var t, d := Resolve(s, handle).value, Detach(s, handle);
    if s.tasks[t].njoiners == 0 {
      DetachKeeps(s, handle);
    } else {
      var w := SomeCollector(s, t);
      assert !AwaitsOk(d, w);
      assert !TaskOk(d, w);
    }
  }

  lemma SomeCollector(s: Sched, t: nat) returns (w: nat)
    requires Core(s) && t < |s.tasks| && s.tasks[t].njoiners > 0
    ensures w in Collectors(s, t)
  {
    assert TaskOk(s, t);
    assert Collectors(s, t) != {};
    w :| w in Collectors(s, t);
  }

  // ---------- what goes wrong ----------

  /** The state with the task not detached after all. */
  ghost function Kept(s: Sched, t: nat): (r: Sched)
    requires t < |s.tasks|
    ensures |r.tasks| == |s.tasks|
  {
    s.(tasks := s.tasks[t := s.tasks[t].(detached := false)])
  }

  /** But for the detached task, which some await, all is as it should be. */
  ghost predicate Doomed(s: Sched, t: nat) {
    && t < |s.tasks| && s.tasks[t].detached && s.tasks[t].njoiners > 0
    && !s.tasks[t].state.Done? && !s.tasks[t].state.Free?
    && Inv(Kept(s, t))
  }

  /** The slot is on the free list, and tasks on the run queue are about to hand it back again. */
  ghost predicate FreeUnderCollectors(s: Sched, t: nat) {
    && t < |s.tasks| && t in s.free && s.tasks[t].state.Free? && Collectors(s, t) != {}
    && forall w :: w in Collectors(s, t) ==> w in s.rq || w == s.current
  }

  /** A finished task's slot goes under those that await it at once; another's is doomed to. */
  lemma DetachDooms(s: Sched, handle: int)
    requires Inv(s) && s.tasks[s.current].pc.Code? && DetachAnswer(s, handle).Success?
    requires s.tasks[Resolve(s, handle).value].njoiners > 0
    ensures var t, d := Resolve(s, handle).value, Detach(s, handle);
            if s.tasks[t].state.Done? then FreeUnderCollectors(d, t) else Doomed(d, t)
  {
    var t, d := Resolve(s, handle).value, Detach(s, handle);
    var w := SomeCollector(s, t);
    if s.tasks[t].state.Done? {
      SameCollectors(s, d, t);
      forall w | w in Collectors(s, t) ensures w in s.rq {
        assert TaskOk(s, w) && TaskOk(s, t);
      }
    } else {
      assert Kept(d, t).tasks == s.tasks;
      assert Kept(d, t) == s;
    }
  }

  /** What another task's move leaves of one: its flag, and that it has not finished. */
  predicate Lasts(k: Task, k': Task) {
    k'.detached == k.detached && (k'.state.Done? ==> k.state.Done?)
  }

  lemma {:induction false} DeliverKept(s: Sched, t: nat, log: seq<Completion>)
    requires InRange(s) && t < |s.tasks| && Deliverable(s, log)
    ensures InRange(Kept(s, t)) && Deliverable(Kept(s, t), log) && Deliver(Kept(s, t), log) == Kept(Deliver(s, log), t)
    ensures Lasts(s.tasks[t], Deliver(s, log).tasks[t])
    decreases |log|
  {
    KeptInRange(s, t);
    if log != [] {
      assert Deliver1(Kept(s, t), log[0]).tasks == Kept(Deliver1(s, log[0]), t).tasks;
      DeliverKept(Deliver1(s, log[0]), t, log[1..]);
    }
  }

  lemma KeptInRange(s: Sched, t: nat)
    requires t < |s.tasks|
    ensures InRange(s) <==> InRange(Kept(s, t))
  {
    assert forall i :: 0 <= i < |s.tasks| ==> Kept(s, t).tasks[i].waiters == s.tasks[i].waiters;
  }

  lemma SwitchAwayKept(d: Sched, t: nat)
    requires InRange(d) && t < |d.tasks| && d.rq != [] && d.zombies == []
    ensures InRange(Kept(d, t)) && Reap(SwitchAway(Kept(d, t))) == Kept(Reap(SwitchAway(d)), t)
    ensures Lasts(d.tasks[t], Reap(SwitchAway(d)).tasks[t])
  {
    KeptInRange(d, t);
    assert SwitchAway(Kept(d, t)).tasks == Kept(SwitchAway(d), t).tasks;
  }

  lemma BlockKept(s: Sched, t: nat, log: seq<Completion>)
    requires InRange(s) && t < |s.tasks| && PicksWith(s, log) && s.zombies == [] && Block(s, log).Went?
    ensures InRange(Kept(s, t)) && PicksWith(Kept(s, t), log)
    ensures Block(Kept(s, t), log) == Went(Kept(Block(s, log).s, t))
    ensures Lasts(s.tasks[t], Block(s, log).s.tasks[t])
  {
    DeliverKept(s, t, log);
    DeliverFrame(s, log);
    hide InRange, Deliver, Deliverable, SwitchAway, Reap;
    SwitchAwayKept(Deliver(s, log), t);
  }

  /** Completions only put tasks on the run queue. */
  lemma {:induction false} DeliverFrame(s: Sched, log: seq<Completion>)
    requires InRange(s) && Deliverable(s, log)
    ensures var d := Deliver(s, log);
            && d.zombies == s.zombies && d.current == s.current && s.rq <= d.rq && d.free == s.free
            && forall i :: 0 <= i < |s.tasks| ==> d.tasks[i].pc == s.tasks[i].pc && d.tasks[i].detached == s.tasks[i].detached
    decreases |log|
  {
    if log != [] { DeliverFrame(Deliver1(s, log[0]), log[1..]); }
  }

  lemma HandoffKept(s: Sched, t: nat, n: nat)
    requires InRange(s) && t < |s.tasks| && n < |s.tasks|
    ensures InRange(Kept(s, t)) && Handoff(Kept(s, t), n) == Kept(Handoff(s, n), t)
    ensures Lasts(s.tasks[t], Handoff(s, n).tasks[t])
  {
    KeptInRange(s, t);
    assert Handoff(Kept(s, t), n).tasks == Kept(Handoff(s, n), t).tasks;
  }

  lemma {:induction false} FirstWaitingKept(s: Sched, t: nat, lock: nat, q: seq<LockWait>)
    requires t < |s.tasks|
    ensures FirstWaiting(Kept(s, t), lock, q) == FirstWaiting(s, lock, q)
  {
    if q != [] { FirstWaitingKept(s, t, lock, q[1..]); }
  }

  lemma UnlockKept(s: Sched, t: nat, lock: nat)
    requires InRange(s) && t < |s.tasks|
    ensures InRange(Kept(s, t)) && Unlock(Kept(s, t), lock) == Kept(Unlock(s, lock), t)
    ensures Lasts(s.tasks[t], Unlock(s, lock).tasks[t])
  {
    KeptInRange(s, t);
    var u := s.(held := GivenBack(s.held, lock));
    FirstWaitingKept(u, t, lock, u.lockq);
    match FirstWaiting(u, lock, u.lockq)
    case None =>
    case Some(n) => HandoffKept(u, t, n);
  }

  lemma CompleteKept(s: Sched, t: nat)
    requires InRange(s) && t < |s.tasks| && t != s.current
    ensures InRange(Kept(s, t)) && Complete(Kept(s, t)) == Kept(Complete(s), t)
    ensures Lasts(s.tasks[t], Complete(s).tasks[t])
  {
    KeptInRange(s, t);
    CompleteIs(s);
    CompleteIs(Kept(s, t));
    hide Complete, InRange;
    assert Complete(Kept(s, t)).tasks == Kept(Complete(s), t).tasks;
  }

  lemma SwitchForGoodKept(d: Sched, t: nat)
    requires InRange(d) && t < |d.tasks| && d.rq != []
    ensures InRange(Kept(d, t)) && SwitchForGood(Kept(d, t)) == Kept(SwitchForGood(d), t)
    ensures Lasts(d.tasks[t], SwitchForGood(d).tasks[t])
    ensures SwitchForGood(d).zombies == d.zombies
  {
    KeptInRange(d, t);
    assert SwitchForGood(Kept(d, t)).tasks == Kept(SwitchForGood(d), t).tasks;
  }

  /** The detached task is not the one that is reaped. */
  lemma ReapKept(g: Sched, t: nat, z: nat)
    requires InRange(g) && t < |g.tasks| && g.zombies == [z] && z != t
    ensures InRange(Kept(g, t)) && Reap(Kept(g, t)) == Kept(Reap(g), t)
    ensures Reap(g).tasks[t] == g.tasks[t]
  {
    KeptInRange(g, t);
    var u := g.(zombies := []);
    var k := Kept(u, t);
    assert Kept(g, t).(zombies := []) == k;
    KeptInRange(u, t);
    ReapsOne(u, z);
    ReapsOne(k, z);
    assert ReapOne(k, z).tasks == Kept(ReapOne(u, z), t).tasks;
  }

  lemma ReapsOne(s: Sched, z: nat)
    requires InRange(s) && z < |s.tasks|
    ensures ReapList(s, [z]) == ReapOne(s, z)
  {
    var r := ReapOne(s, z);
    assert [z][1..] == [] && ReapList(r, []) == r;
  }

  lemma FinishKept(s: Sched, t: nat, log: seq<Completion>)
    requires InRange(s) && t < |s.tasks| && t != s.current && s.zombies == []
    requires PicksWith(Complete(s), log) && Finish(s, log).Went?
    ensures InRange(Kept(s, t)) && PicksWith(Complete(Kept(s, t)), log)
    ensures Finish(Kept(s, t), log) == Went(Kept(Finish(s, log).s, t))
    ensures Lasts(s.tasks[t], Finish(s, log).s.tasks[t])
  {
    CompleteKept(s, t);
    assert Complete(s).zombies == [s.current] by { CompleteIs(s); }
    hide Complete, InRange, SwitchForGood, Reap;
    DeliverKept(Complete(s), t, log);
    DeliverFrame(Complete(s), log);
    hide Deliver, Deliverable;
    var d := Deliver(Complete(s), log);
    SwitchForGoodKept(d, t);
    ReapKept(SwitchForGood(d), t, s.current);
  }

  lemma SlotAllocKept(s: Sched, t: nat, m: Memory, usp: int)
    requires InRange(s) && t < |s.tasks| && t !in s.free
    ensures var (a, slot) := SlotAlloc(s, m, usp);
            && InRange(Kept(s, t)) && |a.tasks| >= |s.tasks| && a.tasks[t] == s.tasks[t]
            && SlotAlloc(Kept(s, t), m, usp) == (Kept(a, t), slot) && slot != Some(t)
  {
    KeptInRange(s, t);
    assert SlotAlloc(Kept(s, t), m, usp).0.tasks == Kept(SlotAlloc(s, m, usp).0, t).tasks;
  }

  lemma PushKept(s: Sched, t: nat, i: nat)
    requires InRange(s) && t < |s.tasks| && i < |s.tasks| && i != t
    ensures InRange(Kept(s, t)) && Push(Kept(s, t), i) == Kept(Push(s, i), t) && Push(s, i).tasks[t] == s.tasks[t]
  {
    KeptInRange(s, t);
    assert Push(Kept(s, t), i).tasks == Kept(Push(s, i), t).tasks;
  }

  lemma SpawnKept(s: Sched, t: nat, m: Memory, usp: int)
    requires InRange(s) && t < |s.tasks| && t !in s.free
    ensures InRange(Kept(s, t)) && |Spawn(s, m, usp).0.tasks| >= |s.tasks|
    ensures Spawn(Kept(s, t), m, usp).0 == Kept(Spawn(s, m, usp).0, t) && Spawn(s, m, usp).0.tasks[t] == s.tasks[t]
  {
    SlotAllocKept(s, t, m, usp);
    var (a, slot) := SlotAlloc(s, m, usp);
    hide SlotAlloc, InRange, NoSlot;
    if slot.Some? {
      if m.stacks { PushKept(a, t, slot.value); } else { RetireKept(a, t, slot.value); }
    }
  }

  lemma RetireKept(s: Sched, t: nat, i: nat)
    requires InRange(s) && t < |s.tasks| && i < |s.tasks| && i != t
    ensures InRange(Kept(s, t)) && Retire(Kept(s, t), i) == Kept(Retire(s, i), t) && Retire(s, i).tasks[t] == s.tasks[t]
  {
    KeptInRange(s, t);
    assert Retire(Kept(s, t), i).tasks == Kept(Retire(s, i), t).tasks;
  }

  lemma ParkKept(s: Sched, t: nat, i: nat)
    requires InRange(s) && t < |s.tasks| && i < |s.tasks| && i != t
    ensures InRange(Kept(s, t)) && Park(Kept(s, t), i) == Kept(Park(s, i), t)
    ensures Lasts(s.tasks[t], Park(s, i).tasks[t])
  {
    KeptInRange(s, t);
    assert Park(Kept(s, t), i).tasks == Kept(Park(s, i), t).tasks;
  }

  lemma SubmitKept(s: Sched, t: nat)
    requires InRange(s) && t < |s.tasks|
    ensures InRange(Kept(s, t)) && Submit(Kept(s, t)) == Kept(Submit(s), t)
    ensures Lasts(s.tasks[t], Submit(s).tasks[t])
  {
    KeptInRange(s, t);
    assert Submit(Kept(s, t)).tasks == Kept(Submit(s), t).tasks;
  }

  /** The step is one of the state in which the task is not detached, or one that changes nothing. */
  ghost predicate StepsAsKept(s: Sched, op: Op, s': Sched, t: nat)
    requires t < |s.tasks|
  {
    && |s'.tasks| >= |s.tasks| && s'.tasks[t].detached && !s'.tasks[t].state.Done?
    && (s' == s || Step(Kept(s, t), op, Kept(s', t)))
  }

  lemma AwaitAsKept(s: Sched, t: nat, h: int, log: seq<Completion>, s': Sched)
    requires Doomed(s, t) && Step(s, AwaitTask(h, log), s')
    ensures StepsAsKept(s, AwaitTask(h, log), s', t)
  {
    KeptInRange(s, t);
    assert Resolve(Kept(s, t), h) == Resolve(s, h);
    if AwaitAnswer(s, h).Parks? {
      var i := Resolve(s, h).value;
      ParkKept(s, t, i);
      BlockKept(Park(s, i), t, log);
    } else if AwaitAnswer(s, h).Success? {
      RetireKept(s, t, Resolve(s, h).value);
    }
  }

  lemma CollectAsKept(s: Sched, t: nat, s': Sched)
    requires Doomed(s, t) && Step(s, CollectTask, s')
    ensures StepsAsKept(s, CollectTask, s', t)
  {
    KeptInRange(s, t);
    var k, i := Kept(s, t), s.tasks[s.current].pc.target;
    CollectingIs(k);
    var left := Rejoined(s);
    assert Rejoined(k).tasks == Kept(left, t).tasks;
    RejoinedInRange(s);
    if left.tasks[i].njoiners == 0 { RetireKept(left, t, i); }
  }

  lemma RejoinedInRange(s: Sched)
    requires InRange(s) && Collecting(s)
    ensures InRange(Rejoined(s))
  {
    assert forall i :: 0 <= i < |s.tasks| ==> Rejoined(s).tasks[i].waiters == s.tasks[i].waiters;
  }

  lemma DetachAsKept(s: Sched, t: nat, h: int, s': Sched)
    requires Doomed(s, t) && Step(s, DetachTask(h), s')
    ensures StepsAsKept(s, DetachTask(h), s', t)
  {
    KeptInRange(s, t);
    assert Resolve(Kept(s, t), h) == Resolve(s, h);
    if DetachAnswer(s, h).Success? {
      var i := Resolve(s, h).value;
      var d := s.(tasks := s.tasks[i := s.tasks[i].(detached := true)]);
      assert Detach(Kept(s, t), h).tasks == Kept(Detach(s, h), t).tasks;
    }
  }

  lemma YieldAsKept(s: Sched, t: nat, log: seq<Completion>, s': Sched)
    requires Doomed(s, t) && Step(s, YieldTo(log), s')
    ensures StepsAsKept(s, YieldTo(log), s', t)
  {
    DeliverKept(s, t, log);
    var d := Deliver(s, log);
    if d.rq != [] { HandoffKept(d, t, d.rq[0]); }
  }

  lemma StartIoAsKept(s: Sched, t: nat, log: seq<Completion>, s': Sched)
    requires Doomed(s, t) && Step(s, StartIo(log), s')
    ensures StepsAsKept(s, StartIo(log), s', t)
  {
    SubmitKept(s, t);
    BlockKept(Submit(s), t, log);
    KeptInRange(s', t);
  }

  lemma FinishAsKept(s: Sched, t: nat, log: seq<Completion>, s': Sched)
    requires Doomed(s, t) && Step(s, FinishTask(log), s') && s.current != t
    ensures StepsAsKept(s, FinishTask(log), s', t)
  {
    CompleteKept(s, t);
    hide Complete, PicksWith;
    FinishKept(s, t, log);
  }

  lemma LocksAsKept(s: Sched, t: nat, op: Op, s': Sched)
    requires Doomed(s, t) && Step(s, op, s')
    requires ByOthers(op) || op.Acquire? || op.WaitFor? || op.GiveUp? || op.MoveUsp?
    ensures StepsAsKept(s, op, s', t)
  {
    KeptInRange(s, t);
    assert Kept(s', t).tasks == Apply(Kept(s, t), op).s.tasks;
  }

  lemma MovesAsKept(s: Sched, t: nat, op: Op, s': Sched)
    requires Doomed(s, t) && Step(s, op, s')
    requires op.Pass? || op.Poll? || op.Release?
    ensures StepsAsKept(s, op, s', t)
  {
    match op
    case Pass => HandoffKept(s, t, s.rq[0]);
    case Poll(log) => DeliverKept(s, t, log);
    case Release(l) => UnlockKept(s, t, l);
  }

  lemma SpawnAsKept(s: Sched, t: nat, m: Memory, usp: int, s': Sched)
    requires Doomed(s, t) && Step(s, SpawnTask(m, usp), s')
    ensures StepsAsKept(s, SpawnTask(m, usp), s', t)
  {
    assert TaskOk(Kept(s, t), t);
    SpawnKept(s, t, m, usp);
  }

  lemma AsKept(s: Sched, op: Op, s': Sched, t: nat)
    requires Doomed(s, t) && Step(s, op, s') && !(op.FinishTask? && s.current == t)
    ensures StepsAsKept(s, op, s', t)
  {
    hide Doomed, Step, StepsAsKept;
    match op
    case SpawnTask(m, usp) => SpawnAsKept(s, t, m, usp, s');
    case YieldTo(log) => YieldAsKept(s, t, log, s');
    case AwaitTask(h, log) => AwaitAsKept(s, t, h, log, s');
    case CollectTask => CollectAsKept(s, t, s');
    case DetachTask(h) => DetachAsKept(s, t, h, s');
    case StartIo(log) => StartIoAsKept(s, t, log, s');
    case FinishTask(log) => FinishAsKept(s, t, log, s');
    case Pass => MovesAsKept(s, t, op, s');
    case Poll(log) => MovesAsKept(s, t, op, s');
    case Release(l) => MovesAsKept(s, t, op, s');
    case _ => LocksAsKept(s, t, op, s');
  }

  /** Those that await a task not finished are parked. */
  lemma CollectorParked(s: Sched, t: nat) returns (w: nat)
    requires Inv(s) && t < |s.tasks| && s.tasks[t].njoiners > 0 && !s.tasks[t].state.Done?
    ensures w in Collectors(s, t) && w != s.current
  {
    w := SomeCollector(s, t);
    assert TaskOk(s, w) && TaskOk(s, t);
  }

  lemma CollectorsCount(s: Sched, t: nat, w: nat)
    requires Inv(s) && w in Collectors(s, t) && t < |s.tasks|
    ensures s.tasks[t].njoiners > 0
  {
    assert TaskOk(s, t);
    assert Collectors(s, t) != {};
  }

  /** Whatever the tasks do, the detached task stays doomed until it finishes. */
  lemma DoomedStays(s: Sched, op: Op, s': Sched, t: nat)
    requires Doomed(s, t) && Step(s, op, s') && !(op.FinishTask? && s.current == t)
    ensures Doomed(s', t)
  {
    AsKept(s, op, s', t);
    if s' != s {
      var k, k' := Kept(s, t), Kept(s', t);
      var w := CollectorParked(k, t);
      hide Core, Step, Enabled;
      StepKeeps(k, op);
      SlotHeldForAwaiter(k, op, k', w, t);
      CollectorsCount(k', t, w);
    }
  }

  lemma DoomedCompletes(s: Sched, t: nat)
    requires Doomed(s, t) && s.current == t && InRange(s)
    ensures var c := Complete(s);
            && c.zombies == [t] && c.tasks[t].detached && c.current == t
            && (forall w :: w in Collectors(s, t) ==> w in c.rq)
            && (forall i :: 0 <= i < |s.tasks| ==> c.tasks[i].pc == s.tasks[i].pc)
  {
    CompleteIs(s);
    forall w | w in Collectors(s, t) ensures w in s.tasks[t].waiters {
      assert TaskOk(Kept(s, t), w);
    }
  }

  lemma LastSwitch(d: Sched, t: nat)
    requires InRange(d) && t < |d.tasks| && d.rq != [] && d.zombies == [t] && d.tasks[t].detached
    ensures var r := Reap(SwitchForGood(d));
            && t in r.free && r.tasks[t].state.Free?
            && (forall w :: w in d.rq ==> w in r.rq || w == r.current)
            && (forall i :: 0 <= i < |d.tasks| ==> r.tasks[i].pc == d.tasks[i].pc)
  {
    var u := SwitchForGood(d).(zombies := []);
    assert ReapList(u, [t]) == ReapOne(u, t);
    assert d.rq == [d.rq[0]] + d.rq[1..];
  }

  /** And when it finishes its slot goes under all that await it, every one of them on the run queue. */
  lemma DoomedFinishes(s: Sched, log: seq<Completion>, s': Sched, t: nat)
    requires Doomed(s, t) && Step(s, FinishTask(log), s') && s.current == t
    ensures FreeUnderCollectors(s', t) && Collectors(s', t) == Collectors(s, t)
  {
    DoomedCompletes(s, t);
    var w := SomeCollector(Kept(s, t), t);
    SameCollectors(s, Kept(s, t), t);
    var c := Complete(s);
    hide Complete, InRange, Doomed, Enabled;
    DeliverFrame(c, log);
    hide Deliver, Deliverable, SwitchForGood, Reap;
    LastSwitch(Deliver(c, log), t);
    SameCollectors(s, s', t);
  }

  /** In every run: the task stays doomed as long as it has not finished, whatever all tasks do, and
      once it does its slot is on the free list with those that awaited it still to hand it back. */
  lemma {:induction false} DoomedUntilFinished(ss: seq<Sched>, ops: seq<Op>, n: nat, t: nat)
    requires IsRun(Step, ss, ops) && Doomed(ss[0], t) && n <= |ops|
    requires forall i :: 0 <= i < n ==> !(ops[i].FinishTask? && ss[i].current == t)
    ensures Doomed(ss[n], t)
    ensures n < |ops| && ops[n].FinishTask? && ss[n].current == t ==> FreeUnderCollectors(ss[n + 1], t)
  {
    if n > 0 {
      DoomedUntilFinished(ss, ops, n - 1, t);
      assert Step(ss[n - 1], ops[n - 1], ss[n]);
      DoomedStays(ss[n - 1], ops[n - 1], ss[n], t);
    }
    if n < |ops| && ops[n].FinishTask? && ss[n].current == t {
      assert Step(ss[n], ops[n], ss[n + 1]);
      DoomedFinishes(ss[n], ops[n].log, ss[n + 1], t);
    }
  }

  /** The last of them to collect, if the slot is not yet another's, puts it on the free list again. */
  lemma CollectFreed(s: Sched)
    requires InRange(s) && Collecting(s)
    requires var t := s.tasks[s.current].pc.target; t != s.current && t in s.free && s.tasks[t].njoiners == 1
    ensures CollectJoin(s).free == [s.tasks[s.current].pc.target] + s.free && !NoDup(CollectJoin(s).free)
  {
    var t := s.tasks[s.current].pc.target;
    var k :| 0 <= k < |s.free| && s.free[k] == t;
    assert CollectJoin(s).free[0] == CollectJoin(s).free[k + 1];
  }

  // ---------- a run that does it ----------

  /** The thread's own task, one that awaits the other, and the one awaited. */
  function Three(main: State, waiter: State, pc: Pc, awaited: Task, current: nat, rq: seq<nat>, free: seq<nat>, live: int): Sched {
    Sched([Plain(main, Code), Plain(waiter, pc), awaited], current, rq, free, [], {}, FIRST_CAP, live, 0, [], map[], 0)
  }

  function Plain(state: State, pc: Pc): Task {
    Task(state, 1, false, 0, [], 0, 0, pc, 0, 1, 0)
  }

  function Awaited(state: State, detached: bool): Task {
    Plain(state, Code).(detached := detached, njoiners := 1, waiters := [1])
  }

  function UnderAwaiter(): Sched {
    Three(Running, Joining, Collect(2), Awaited(Ready, false), 0, [2], [], 3)
  }

  function OneSpawned(): Sched {
    Started(0).(tasks := [Plain(Running, Code), Plain(Ready, Code)], rq := [1], live := 2)
  }

  function BothSpawned(): Sched {
    Three(Running, Ready, Code, Plain(Ready, Code), 0, [1, 2], [], 3)
  }

  function WaiterRuns(): Sched {
    Three(Ready, Running, Code, Plain(Ready, Code), 1, [2, 0], [], 3)
  }

  function WaiterWaits(): Sched {
    Three(Ready, Joining, Collect(2), Awaited(Ready, false), 1, [2, 0], [], 3)
  }

  function WaiterParked(): Sched {
    Three(Ready, Joining, Collect(2), Awaited(Running, false), 2, [0], [], 3)
  }

  lemma SpawnedOne()
    ensures Step(Started(0), SpawnTask(ROOM, 0), OneSpawned())
  {
  }

  lemma SpawnedBoth()
    ensures Step(OneSpawned(), SpawnTask(ROOM, 0), BothSpawned())
  {
    var s := OneSpawned();
    var a := SlotAlloc(s, ROOM, 0).0;
    assert Push(a, 2).tasks == BothSpawned().tasks && Push(a, 2).rq == [1, 2];
  }

  /** The main task yields to task 1, to task 2, and so on. */
  lemma Turns()
    ensures Step(BothSpawned(), YieldTo([]), WaiterRuns())
  {
    assert Yield(BothSpawned(), []).tasks == WaiterRuns().tasks;
  }

  lemma Waits()
    ensures Step(WaiterRuns(), AwaitTask(Handle(1, 2), []), WaiterParked())
  {
    var s := WaiterRuns();
    HandleRoundTrips(1, 2);
    assert Resolve(s, Handle(1, 2)) == Some(2);
    var p := Park(s, 2);
    assert p.tasks[2].waiters == [1];
    assert p.tasks == WaiterWaits().tasks;
    assert p == WaiterWaits();
    assert Reap(SwitchAway(p)).tasks == WaiterParked().tasks;
  }

  lemma TurnsBack()
    ensures Step(WaiterParked(), YieldTo([]), UnderAwaiter())
  {
    assert Yield(WaiterParked(), []).tasks == UnderAwaiter().tasks;
  }

  /** Task 1 awaits task 2 and the main task runs again: a state that is reached. */
  lemma UnderAwaiterReached()
    ensures Reachable(UnderAwaiter())
  {
    SpawnedOne();
    SpawnedBoth();
    Turns();
    Waits();
    TurnsBack();
    AtOnce(Step, Started(0));
    Further(Step, Started(0), Started(0), SpawnTask(ROOM, 0), OneSpawned());
    Further(Step, Started(0), OneSpawned(), SpawnTask(ROOM, 0), BothSpawned());
    Further(Step, Started(0), BothSpawned(), YieldTo([]), WaiterRuns());
    Further(Step, Started(0), WaiterRuns(), AwaitTask(Handle(1, 2), []), WaiterParked());
    Further(Step, Started(0), WaiterParked(), YieldTo([]), UnderAwaiter());
  }

  function Detached(): Sched {
    Three(Running, Joining, Collect(2), Awaited(Ready, true), 0, [2], [], 3)
  }

  function DetachedRuns(): Sched {
    Three(Ready, Joining, Collect(2), Awaited(Running, true), 2, [0], [], 3)
  }

  /** It has finished: slot 2 is free, and task 1 on the run queue to collect it. */
  function Gone(): Sched {
    Three(Running, Ready, Collect(2), Freed(1), 0, [1], [2], 2)
  }

  function Collecting1(): Sched {
    Three(Ready, Running, Collect(2), Freed(1), 1, [0], [2], 2)
  }

  function FreedTwice(): Sched {
    Three(Ready, Running, Code, Freed(0).(gen := 3, epoch := 2), 1, [0], [2, 2], 1)
  }

  function Freed(njoiners: nat): Task {
    Task(Free, 2, true, njoiners, [], 0, 0, Code, 1, 1, 0)
  }

  function DetachedDone(): Sched {
    Three(Ready, Ready, Collect(2), Plain(Done, Code).(detached := true, njoiners := 1), 2, [0, 1], [], 3).(zombies := [2])
  }

  lemma DetachedCompletes()
    ensures Complete(DetachedRuns()) == DetachedDone()
  {
    CompleteIs(DetachedRuns());
    assert Complete(DetachedRuns()).tasks == DetachedDone().tasks;
    assert Complete(DetachedRuns()).rq == [0, 1];
    assert Complete(DetachedRuns()).zombies == [2];
  }

  lemma DetachedFinishes()
    ensures Step(DetachedRuns(), FinishTask([]), Gone())
  {
    DetachedCompletes();
    var d := SwitchForGood(DetachedDone());
    assert d.rq == [1];
    var u := d.(zombies := []);
    assert u.tasks[2].detached;
    assert ReapList(u, [2]) == Retire(u, 2);
    assert Retire(u, 2).tasks == Gone().tasks;
  }

  lemma DetachTaken()
    ensures DetachAnswer(UnderAwaiter(), Handle(1, 2)).Success? && Detach(UnderAwaiter(), Handle(1, 2)) == Detached()
  {
    HandleRoundTrips(1, 2);
    assert Resolve(UnderAwaiter(), Handle(1, 2)) == Some(2);
    assert Detach(UnderAwaiter(), Handle(1, 2)).tasks == Detached().tasks;
  }

  lemma DetachedTurns()
    ensures Step(Detached(), YieldTo([]), DetachedRuns())
  {
    assert Yield(Detached(), []).tasks == DetachedRuns().tasks;
  }

  lemma CollectorTurns()
    ensures Step(Gone(), YieldTo([]), Collecting1())
  {
    assert Yield(Gone(), []).tasks == Collecting1().tasks;
  }

  lemma CollectorCollects()
    ensures Step(Collecting1(), CollectTask, FreedTwice())
  {
    assert CollectJoin(Collecting1()).tasks == FreedTwice().tasks;
  }

  /** Why nobody may be about to collect a task that is detached. In a run from the start task 1
      waits for task 2, the main task detaches 2, 2 finishes and 1 collects: slot 2 is on the free
      list twice. */
  lemma DetachUnderAwaiter()
    ensures Reachable(UnderAwaiter()) && DetachAnswer(UnderAwaiter(), Handle(1, 2)).Success?
    ensures Detach(UnderAwaiter(), Handle(1, 2)) == Detached()
    ensures Reaches(Step, Detached(), FreedTwice()) && FreedTwice().free == [2, 2]
  {
    UnderAwaiterReached();
    DetachTaken();
    DetachedTurns();
    DetachedFinishes();
    CollectorTurns();
    CollectorCollects();
    hide Step;
    AtOnce(Step, Detached());
    Further(Step, Detached(), Detached(), YieldTo([]), DetachedRuns());
    Further(Step, Detached(), DetachedRuns(), FinishTask([]), Gone());
    Further(Step, Detached(), Gone(), YieldTo([]), Collecting1());
    Further(Step, Detached(), Collecting1(), CollectTask, FreedTwice());
  }
}
