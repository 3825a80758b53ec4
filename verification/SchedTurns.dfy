/** In what order tasks run, and what the operations they make answer them. */
module SchedTurns {
  import opened Runs
  import opened SchedModel
  import opened SchedInvariant
  import opened SchedRuns
  import opened SchedDeadlock

  /** The tasks that completions name, in order. */
  function Named(log: seq<Completion>): (r: seq<nat>)
    ensures |r| == |log| && forall k :: 0 <= k < |log| ==> r[k] == log[k].task
  {
    Each((c: Completion) => c.task, log)
  }

  // ---------- what polls collect ----------

  lemma NoDupHead(x: nat, q: seq<nat>)
    ensures NoDup([x] + q) <==> x !in q && NoDup(q)
  {
    var r := [x] + q;
    assert r[0] == x && r[1..] == q && forall k :: 0 <= k < |q| ==> r[k + 1] == q[k];
    if NoDup(r) {
      forall i, j | 0 <= i < j < |q| ensures q[i] != q[j] {
        assert r[i + 1] != r[j + 1];
      }
    }
  }

  lemma FirstNamed(log: seq<Completion>)
    requires log != []
    ensures Named(log) == [log[0].task] + Named(log[1..])
    ensures NoDup(Named(log)) <==> log[0].task !in Named(log[1..]) && NoDup(Named(log[1..]))
  {
    assert Named(log) == [log[0].task] + Named(log[1..]);
    NoDupHead(log[0].task, Named(log[1..]));
  }

  /** What a poll may collect is completions of operations outstanding, no task's twice. */
  lemma {:induction false} DeliverableIs(s: Sched, log: seq<Completion>)
    requires InRange(s)
    ensures Deliverable(s, log) <==> NoDup(Named(log)) && forall x :: x in Named(log) ==> x in s.out
    decreases |log|
  {
    if log != [] {
      FirstNamed(log);
      if log[0].task in s.out {
        DeliverableIs(Deliver1(s, log[0]), log[1..]);
        assert Deliver1(s, log[0]).out == s.out - {log[0].task};
      } else {
        assert log[0].task in Named(log);
      }
    }
  }

  /** All a poll does beside making tasks ready: they join the run queue in the order collected, and
      are outstanding no more. */
  lemma {:induction false} DeliverQueues(s: Sched, log: seq<Completion>)
    requires InRange(s) && Deliverable(s, log)
    ensures var d := Deliver(s, log);
            && |d.tasks| == |s.tasks|
            && d == s.(tasks := d.tasks, rq := s.rq + Named(log), out := d.out, inflight := s.inflight - |log|)
    decreases |log|
  {
    if log == [] {
      assert s.rq + Named(log) == s.rq;
    } else {
      var s1 := Deliver1(s, log[0]);
      DeliverQueues(s1, log[1..]);
      FirstNamed(log);
      assert s.rq + Named(log) == s1.rq + Named(log[1..]);
      assert s1 == s.(tasks := s1.tasks, rq := s1.rq, out := s1.out, inflight := s.inflight - 1);
      hide Deliver1, Deliverable, Named, InRange;
    }
  }

  lemma {:induction false} DeliverOut(s: Sched, log: seq<Completion>)
    requires InRange(s) && Deliverable(s, log)
    ensures forall x :: x in Deliver(s, log).out <==> x in s.out && x !in Named(log)
    decreases |log|
  {
    if log != [] {
      FirstNamed(log);
      DeliverOut(Deliver1(s, log[0]), log[1..]);
    }
  }

  /** The task a completion names is ready with that completion's result, and others are as before. */
  lemma {:induction false} DeliverGives(s: Sched, log: seq<Completion>, i: nat)
    requires InRange(s) && Deliverable(s, log) && i < |s.tasks|
    ensures i !in Named(log) ==> Deliver(s, log).tasks[i] == s.tasks[i]
    ensures forall c :: c in log && c.task == i ==> i in s.out && Deliver(s, log).tasks[i] == s.tasks[i].(state := Ready, res := c.res)
    decreases |log|
  {
    if log != [] {
      FirstNamed(log);
      DeliverableIs(s, log);
      assert forall c :: c in log <==> c == log[0] || c in log[1..];
      DeliverGives(Deliver1(s, log[0]), log[1..], i);
      forall c | c in log[1..] ensures c.task in Named(log[1..]) {
        var k :| 0 <= k < |log[1..]| && log[1..][k] == c;
        assert Named(log[1..])[k] == c.task;
      }
    }
  }

  // ---------- the order of turns ----------

  /** The tasks that a step puts on the run queue before another task may run. */
  function Queues(s: Sched, op: Op): seq<nat>
    requires InRange(s) && Enabled(s, op)
  {
    match op
    case YieldTo(log) => Named(log)
    case Poll(log) => Named(log)
    case StartIo(log) => Named(log)
    case FinishTask(log) => s.tasks[s.current].waiters + Named(log)
    case AwaitTask(h, log) => if AwaitAnswer(s, h).Parks? then Named(log) else []
    case SpawnTask(m, _) =>
      var slot := SlotAlloc(s, m, op.usp).1;
      if slot.Some? && m.stacks then [slot.value] else []
    case _ => []
  }

  /** What no step but one about locks or a spawn changes: who holds or waits for a lock, and how large
      the slot table is. */
  ghost predicate Aside(s: Sched, r: Sched) {
    r.held == s.held && r.lockq == s.lockq && r.cap == s.cap
  }

  lemma {:induction false} ReapQueues(s: Sched, zs: seq<nat>)
    requires InRange(s) && AllBelow(zs, |s.tasks|)
    ensures ReapList(s, zs).rq == s.rq && ReapList(s, zs).current == s.current && Aside(s, ReapList(s, zs))
    decreases |zs|
  {
    if zs != [] { ReapQueues(ReapOne(s, zs[0]), zs[1..]); }
  }

  lemma BlockQueues(s: Sched, log: seq<Completion>)
    requires InRange(s) && PicksWith(s, log) && Block(s, log).Went?
    ensures var q, r := s.rq + Named(log), Block(s, log).s;
            q != [] && r.current == q[0] && r.rq == q[1..] && Aside(s, r)
  {
    DeliverQueues(s, log);
    var a := SwitchAway(Deliver(s, log));
    ReapQueues(a.(zombies := []), a.zombies);
  }

  lemma FinishQueues(s: Sched, log: seq<Completion>)
    requires InRange(s) && PicksWith(Complete(s), log) && Finish(s, log).Went?
    ensures var q, r := s.rq + (s.tasks[s.current].waiters + Named(log)), Finish(s, log).s;
            q != [] && r.current == q[0] && r.rq == q[1..] && Aside(s, r)
  {
    CompleteIs(s);
    DeliverQueues(Complete(s), log);
    assert s.rq + s.tasks[s.current].waiters + Named(log) == s.rq + (s.tasks[s.current].waiters + Named(log));
    var a := SwitchForGood(Deliver(Complete(s), log));
    ReapQueues(a.(zombies := []), a.zombies);
  }

  /** First come, first served: what a step makes ready goes behind all that were, in order; a task
      that parks or ends gives way to the head of the queue, one that yields or passes does so and
      goes behind it; and every other step but a hand-off of a lock leaves it running. */
  lemma TurnsInOrder(s: Sched, op: Op)
    requires InRange(s) && Enabled(s, op) && Apply(s, op).Went?
    ensures var q, r := s.rq + Queues(s, op), Apply(s, op).s;
            if Stops(s, op) then
              q != [] && r.current == q[0] && r.rq == q[1..]
            else if (op.YieldTo? || op.Pass?) && q != [] then
              r.current == q[0] && r.rq == q[1..] + [s.current]
            else
              op.Release? || (r.current == s.current && r.rq == q)
    ensures OnLock(op) || (op.SpawnTask? && Apply(s, op).s.held == s.held && Apply(s, op).s.lockq == s.lockq) || Aside(s, Apply(s, op).s)
  {
    if Stops(s, op) {
      StopInOrder(s, op);
    } else if op.YieldTo? {
      YieldQueues(s, op.log);
    } else {
      StayInOrder(s, op);
      if op.SpawnTask? { SpawnQueues(s, op.m, op.usp); }
    }
  }

  lemma StopInOrder(s: Sched, op: Op)
    requires InRange(s) && Enabled(s, op) && Apply(s, op).Went? && Stops(s, op)
    ensures var q, r := s.rq + Queues(s, op), Apply(s, op).s;
            q != [] && r.current == q[0] && r.rq == q[1..] && Aside(s, r)
  {
    hide PicksWith, Block, Finish, Named;
    match op
    case StartIo(log) => BlockQueues(Submit(s), log);
    case FinishTask(log) => FinishQueues(s, log);
    case AwaitTask(h, log) => BlockQueues(Park(s, Resolve(s, h).value), log);
  }

  lemma YieldQueues(s: Sched, log: seq<Completion>)
    requires InRange(s) && Deliverable(s, log)
    ensures var q, r := s.rq + Named(log), Yield(s, log);
            && Aside(s, r)
            && if q == [] then r.current == s.current && r.rq == [] else r.current == q[0] && r.rq == q[1..] + [s.current]
  {
    DeliverQueues(s, log);
    hide Deliver, Deliverable, Named;
  }

  lemma StayInOrder(s: Sched, op: Op)
    requires InRange(s) && Enabled(s, op) && Apply(s, op).Went? && !Stops(s, op) && !op.YieldTo?
    ensures var q, r := s.rq + Queues(s, op), Apply(s, op).s;
            && (op.SpawnTask? || OnLock(op) || Aside(s, r))
            && if op.Pass? then q != [] && r.current == q[0] && r.rq == q[1..] + [s.current]
               else op.Release? || (r.current == s.current && r.rq == q)
  {
    hide PicksWith, Block, Finish, Named, Deliver, Unlock;
    match op
    case Poll(log) => DeliverQueues(s, log);
    case SpawnTask(m, usp) => SpawnQueues(s, m, usp);
    case CollectTask => CollectQueues(s);
    case _ =>
  }

  lemma SpawnQueues(s: Sched, m: Memory, usp: int)
    requires InRange(s)
    ensures var slot, r := SlotAlloc(s, m, usp).1, Spawn(s, m, usp).0;
            && r.current == s.current && r.rq == s.rq + (if slot.Some? && m.stacks then [slot.value] else [])
            && r.held == s.held && r.lockq == s.lockq
  {
  }

  lemma CollectQueues(s: Sched)
    requires InRange(s) && Collecting(s)
    ensures CollectJoin(s).current == s.current && CollectJoin(s).rq == s.rq && Aside(s, CollectJoin(s))
  {
  }

  /** A step at which the head of the queue takes its turn. */
  ghost predicate TakesTurn(s: Sched, op: Op)
    requires InRange(s) && Enabled(s, op)
  {
    Stops(s, op) || ((op.YieldTo? || op.Pass?) && s.rq + Queues(s, op) != [])
  }

  /** A ready task never loses its place: it is where it was or nearer the head, nearer by one with
      each turn taken, and at the head it is next. */
  lemma PlaceKept(s: Sched, op: Op, s': Sched, k: nat)
    requires Inv(s) && Step(s, op, s') && k < |s.rq|
    ensures || s'.current == s.rq[k]
            || (0 <= k < |s'.rq| && s'.rq[k] == s.rq[k] && !TakesTurn(s, op))
            || (0 < k <= |s'.rq| && s'.rq[k - 1] == s.rq[k])
    ensures TakesTurn(s, op) && k == 0 ==> s'.current == s.rq[0]
  {
    TurnsInOrder(s, op);
    var q := s.rq + Queues(s, op);
    assert q[k] == s.rq[k];
    if op.Release? { ReleaseKeepsPlace(s, op.lock, k); }
  }

  lemma {:induction false} WithoutKeepsPlace(q: seq<nat>, x: nat, k: nat)
    requires k < |q| && q[k] != x
    ensures var r := Without(q, x); (k < |r| && r[k] == q[k]) || (0 < k <= |r| && r[k - 1] == q[k])
  {
    if q[0] != x && k > 0 { WithoutKeepsPlace(q[1..], x, k - 1); }
  }

  lemma ReleaseKeepsPlace(s: Sched, lock: nat, k: nat)
    requires InRange(s) && k < |s.rq|
    ensures var r := Unlock(s, lock);
            r.current == s.rq[k] || (k < |r.rq| && r.rq[k] == s.rq[k]) || (0 < k <= |r.rq| && r.rq[k - 1] == s.rq[k])
  {
    var u := s.(held := GivenBack(s.held, lock));
    match FirstWaiting(u, lock, u.lockq)
    case None =>
    case Some(t) => if t != s.rq[k] { WithoutKeepsPlace(s.rq, t, k); }
  }

  /** How many turns the first `n` steps of a run take. */
  ghost function Turns(ss: seq<Sched>, ops: seq<Op>, n: nat): nat
    requires IsRun(Step, ss, ops) && n <= |ops|
  {
    if n == 0 then 0 else
    assert Step(ss[n - 1], ops[n - 1], ss[n]);
    Turns(ss, ops, n - 1) + (if TakesTurn(ss[n - 1], ops[n - 1]) then 1 else 0)
  }

  /** So none starves: a task ready at place `k` of the queue has run before `k + 1` turns have been
      taken by others, whatever all tasks do. */
  lemma {:induction false} NoneStarves(ss: seq<Sched>, ops: seq<Op>, n: nat, k: nat) returns (j: nat)
    requires IsRun(Step, ss, ops) && Inv(ss[0]) && n <= |ops| && k < |ss[0].rq|
    requires forall i :: 1 <= i <= n ==> ss[i].current != ss[0].rq[k]
    ensures Turns(ss, ops, n) + j <= k && j < |ss[n].rq| && ss[n].rq[j] == ss[0].rq[k]
  {
    if n == 0 {
      j := k;
    } else {
      var i := NoneStarves(ss, ops, n - 1, k);
      RunKeeps(ss, ops, n - 1);
      var a, op, b := ss[n - 1], ops[n - 1], ss[n];
      assert Step(a, op, b);
      PlaceKept(a, op, b, i);
      j := if i < |b.rq| && b.rq[i] == a.rq[i] && !TakesTurn(a, op) then i else i - 1;
    }
  }

  // ---------- the results of operations ----------

  /** What the polls inside a step collect. */
  function Collected(s: Sched, op: Op): seq<Completion>
    requires InRange(s)
  {
    match op
    case YieldTo(log) => log
    case Poll(log) => log
    case StartIo(log) => log
    case FinishTask(log) => log
    case AwaitTask(h, log) => if AwaitAnswer(s, h).Parks? then log else []
    case _ => []
  }

  /** A task's record `k` before and `k'` after such a log was collected: it has the result of the
      completion that names it, if one does, and is no longer waiting; otherwise it keeps what it had.
      `runs` is whether it has been given its turn. */
  ghost predicate Told(t: nat, log: seq<Completion>, k: Task, k': Task, runs: bool) {
    && (forall c :: c in log && c.task == t ==> k.state.Waiting? && k'.res == c.res && (k'.state.Ready? || runs))
    && (t !in Named(log) ==>
          && k'.res == k.res && (k.state.Waiting? ==> k'.state.Waiting?) && (k.state.Ready? ==> k'.state.Ready? || runs))
  }

  /** Waiting for an operation, or ready to run. */
  ghost predicate Suspended(k: Task) {
    k.state.Waiting? || k.state.Ready?
  }

  lemma DeliverTells(s: Sched, log: seq<Completion>, t: nat)
    requires Core(s) && Deliverable(s, log) && t < |s.tasks|
    ensures |Deliver(s, log).tasks| == |s.tasks| && Told(t, log, s.tasks[t], Deliver(s, log).tasks[t], false)
  {
    DeliverGives(s, log, t);
    assert TaskOk(s, t);
  }

  lemma {:induction false} ReapResults(s: Sched, zs: seq<nat>, t: nat)
    requires InRange(s) && AllBelow(zs, |s.tasks|) && t < |s.tasks|
    ensures ReapList(s, zs).tasks[t].res == s.tasks[t].res
    ensures t !in zs ==> ReapList(s, zs).tasks[t] == s.tasks[t]
    decreases |zs|
  {
    if zs != [] { ReapResults(ReapOne(s, zs[0]), zs[1..], t); }
  }

  lemma BlockTells(p: Sched, log: seq<Completion>, t: nat)
    requires Core(p) && PicksWith(p, log) && Block(p, log).Went? && t < |p.tasks| && Suspended(p.tasks[t])
    ensures var r := Block(p, log).s; |r.tasks| == |p.tasks| && Told(t, log, p.tasks[t], r.tasks[t], r.current == t)
  {
    DeliverTells(p, log, t);
    DeliverKeeps(p, log);
    var d := Deliver(p, log);
    assert t !in d.zombies by { assert TaskOk(p, t); }
    assert d.tasks[t].state.Waiting? ==> d.rq[0] != t by { HeadReady(d); }
    hide Core, Deliver, Deliverable;
    var a := SwitchAway(d);
    ReapResults(a.(zombies := []), a.zombies, t);
    ReapQueues(a.(zombies := []), a.zombies);
    SwitchTells(d, t);
    hide SwitchAway, ReapList;
  }

  lemma HeadReady(d: Sched)
    requires Core(d) && d.rq != []
    ensures d.tasks[d.rq[0]].state.Ready?
  {
    assert d.rq[0] in d.rq && TaskOk(d, d.rq[0]);
  }

  lemma SwitchTells(d: Sched, t: nat)
    requires InRange(d) && d.rq != [] && t < |d.tasks|
    ensures var a := SwitchAway(d);
            && a.zombies == d.zombies && a.tasks[t].res == d.tasks[t].res
            && (a.tasks[t].state == d.tasks[t].state || a.current == t)
    ensures var g := SwitchForGood(d);
            && g.zombies == d.zombies && g.tasks[t].res == d.tasks[t].res
            && (g.tasks[t].state == d.tasks[t].state || g.current == t)
  {
  }

  lemma FinishTells(s: Sched, log: seq<Completion>, t: nat)
    requires Inv(s) && Enabled(s, FinishTask(log)) && Finish(s, log).Went? && t < |s.tasks| && t != s.current && Suspended(s.tasks[t])
    ensures var r := Finish(s, log).s; |r.tasks| == |s.tasks| && Told(t, log, s.tasks[t], r.tasks[t], r.current == t)
  {
    var c := Complete(s);
    CompleteKeeps(s);
    assert c.tasks[t] == s.tasks[t] && c.zombies == [s.current] && c.current == s.current by {
      CompleteIs(s);
      assert TaskOk(s, t) && TaskOk(s, s.current);
    }
    hide Complete, Inv;
    LeaveTells(c, log, t);
  }

  lemma LeaveTells(c: Sched, log: seq<Completion>, t: nat)
    requires Core(c) && PicksWith(c, log) && Deliver(c, log).rq != [] && t < |c.tasks| && Suspended(c.tasks[t])
    requires c.zombies == [c.current] && t != c.current
    ensures var r := Reap(SwitchForGood(Deliver(c, log)));
            |r.tasks| == |c.tasks| && Told(t, log, c.tasks[t], r.tasks[t], r.current == t)
  {
    DeliverTells(c, log, t);
    DeliverKeeps(c, log);
    var d := Deliver(c, log);
    var a := SwitchForGood(d);
    assert d.tasks[t].state.Waiting? ==> d.rq[0] != t by { HeadReady(d); }
    ReapResults(a.(zombies := []), a.zombies, t);
    ReapQueues(a.(zombies := []), a.zombies);
    SwitchTells(d, t);
    hide Core, Deliver, Deliverable, SwitchForGood, ReapList;
  }

  lemma HandoffTells(s: Sched, n: nat, t: nat)
    requires Core(s) && n in s.rq && t < |s.tasks| && t != s.current
    ensures var r := Handoff(s, n);
            && |r.tasks| == |s.tasks| && r.tasks[t].res == s.tasks[t].res && (s.tasks[t].state.Waiting? ==> r.current != t)
            && (r.tasks[t].state == s.tasks[t].state || r.current == t)
  {
    assert TaskOk(s, n);
  }

  lemma YieldTells(s: Sched, log: seq<Completion>, t: nat)
    requires Inv(s) && Deliverable(s, log) && t < |s.tasks| && t != s.current && Suspended(s.tasks[t])
    ensures var r := Yield(s, log); |r.tasks| == |s.tasks| && Told(t, log, s.tasks[t], r.tasks[t], r.current == t)
  {
    DeliverTells(s, log, t);
    DeliverKeeps(s, log);
    var d := Deliver(s, log);
    if d.rq != [] { HandoffTells(d, d.rq[0], t); }
    hide Core, Deliver, Deliverable, Handoff;
  }

  lemma UnlockTells(s: Sched, lock: nat, t: nat)
    requires Inv(s) && t < |s.tasks| && t != s.current && Suspended(s.tasks[t])
    ensures var r := Unlock(s, lock); |r.tasks| == |s.tasks| && Told(t, [], s.tasks[t], r.tasks[t], r.current == t)
  {
    var u := s.(held := GivenBack(s.held, lock));
    UnlockHeldAside(s, lock);
    match FirstWaiting(u, lock, u.lockq)
    case None =>
    case Some(n) => HandoffTells(u, n, t); hide Core, Handoff;
  }

  lemma UnlockHeldAside(s: Sched, lock: nat)
    requires Inv(s)
    ensures Inv(s.(held := GivenBack(s.held, lock)))
  {
    HeldAside(s, s.(held := GivenBack(s.held, lock)));
  }

  lemma SpawnTells(s: Sched, m: Memory, usp: int, t: nat)
    requires Inv(s) && t < |s.tasks| && t != s.current && Suspended(s.tasks[t])
    ensures var r := Spawn(s, m, usp).0; |r.tasks| >= |s.tasks| && Told(t, [], s.tasks[t], r.tasks[t], r.current == t)
  {
    assert TaskOk(s, t);
    if s.free != [] { assert s.free[0] in s.free; }
  }

  lemma AwaitTells(s: Sched, h: int, log: seq<Completion>, t: nat)
    requires Inv(s) && Enabled(s, AwaitTask(h, log)) && Await(s, h, log).Went?
    requires t < |s.tasks| && t != s.current && Suspended(s.tasks[t])
    ensures var r := Await(s, h, log).s;
            |r.tasks| == |s.tasks| && Told(t, Collected(s, AwaitTask(h, log)), s.tasks[t], r.tasks[t], r.current == t)
  {
    if AwaitAnswer(s, h).Parks? {
      var p := Park(s, Resolve(s, h).value);
      ParkKeeps(s, Resolve(s, h).value);
      assert p.tasks[t].state == s.tasks[t].state && p.tasks[t].res == s.tasks[t].res;
      BlockTells(p, log, t);
      hide Core, Block, Park;
    }
  }

  lemma CollectTells(s: Sched, t: nat)
    requires Inv(s) && Collecting(s) && t < |s.tasks| && t != s.current && Suspended(s.tasks[t])
    ensures var r := CollectJoin(s); |r.tasks| == |s.tasks| && Told(t, [], s.tasks[t], r.tasks[t], r.current == t)
  {
    CollectingIs(s);
  }

  /** Across any step. */
  lemma StepTells(s: Sched, op: Op, s': Sched, t: nat)
    requires Inv(s) && Step(s, op, s') && t < |s.tasks| && t != s.current && Suspended(s.tasks[t])
    ensures t < |s'.tasks| && Told(t, Collected(s, op), s.tasks[t], s'.tasks[t], s'.current == t)
  {
    hide Core, PicksWith, Told, Suspended;
    match op
    case YieldTo(log) => YieldTells(s, log, t);
    case AwaitTask(h, log) => AwaitTells(s, h, log, t);
    case StartIo(log) => StartTells(s, log, t);
    case FinishTask(log) => FinishTells(s, log, t);
    case _ => OthersTell(s, op, s', t);
  }

  lemma StartTells(s: Sched, log: seq<Completion>, t: nat)
    requires Inv(s) && Enabled(s, StartIo(log)) && Block(Submit(s), log).Went? && t < |s.tasks|
    requires t == s.current || Suspended(s.tasks[t])
    ensures var r := Block(Submit(s), log).s;
            |r.tasks| == |s.tasks| && Told(t, log, Submit(s).tasks[t], r.tasks[t], r.current == t)
    ensures t != s.current ==> Submit(s).tasks[t] == s.tasks[t]
  {
    SubmitKeeps(s);
    hide Core, PicksWith, Block, Told;
    BlockTells(Submit(s), log, t);
  }

  lemma OthersTell(s: Sched, op: Op, s': Sched, t: nat)
    requires Inv(s) && Step(s, op, s') && t < |s.tasks| && t != s.current && Suspended(s.tasks[t])
    requires !op.YieldTo? && !Stops(s, op) && !op.AwaitTask?
    ensures t < |s'.tasks| && Told(t, Collected(s, op), s.tasks[t], s'.tasks[t], s'.current == t)
  {
    hide Core, PicksWith, Deliver, Unlock, CollectJoin, Spawn;
    match op
    case Poll(log) => DeliverTells(s, log, t);
    case SpawnTask(m, usp) => SpawnTells(s, m, usp, t);
    case CollectTask => CollectTells(s, t);
    case Release(l) => UnlockTells(s, l, t);
    case Pass => HandoffTells(s, s.rq[0], t);
    case _ =>
  }

  /** All that the first `n` steps of a run collect. */
  ghost function AllCollected(ss: seq<Sched>, ops: seq<Op>, n: nat): seq<Completion>
    requires IsRun(Step, ss, ops) && n <= |ops|
  {
    if n == 0 then [] else
    assert Step(ss[n - 1], ops[n - 1], ss[n]);
    AllCollected(ss, ops, n - 1) + Collected(ss[n - 1], ops[n - 1])
  }

  /** The log names the task once, with this result. */
  ghost predicate NamedOnce(log: seq<Completion>, t: nat, res: int) {
    exists k :: 0 <= k < |log| && log[k] == Completion(t, res) && forall j :: 0 <= j < |log| && j != k ==> log[j].task != t
  }

  /** Where a task is with an operation it has made: waiting, with nothing collected for it, or ready
      with the result of the one completion collected for it. */
  ghost predicate Answered(log: seq<Completion>, t: nat, k: Task, runs: bool) {
    if k.state.Waiting? then t !in Named(log) && !runs else (k.state.Ready? || runs) && NamedOnce(log, t, k.res)
  }

  lemma AnsweredFurther(before: seq<Completion>, log: seq<Completion>, t: nat, k: Task, k': Task, runs: bool)
    requires Answered(before, t, k, false) && Told(t, log, k, k', runs) && NoDup(Named(log))
    requires runs ==> !k'.state.Waiting?
    ensures Answered(before + log, t, k', runs)
  {
    var all := before + log;
    assert forall j :: 0 <= j < |all| ==> all[j] == if j < |before| then before[j] else log[j - |before|];
    if t in Named(log) {
      var j :| 0 <= j < |log| && Named(log)[j] == t;
      assert log[j] in log;
      assert all[|before| + j] == Completion(t, k'.res);
      forall i | 0 <= i < |all| && i != |before| + j ensures all[i].task != t {
        if i < |before| { assert Named(before)[i] != t; } else { assert Named(log)[i - |before|] != Named(log)[j]; }
      }
    } else {
      forall i | |before| <= i < |all| ensures all[i].task != t {
        assert Named(log)[i - |before|] != t;
      }
      if k.state.Waiting? {
        forall i | 0 <= i < |all| ensures Named(all)[i] != t {
          if i < |before| { assert Named(before)[i] != t; }
        }
      } else {
        var j :| 0 <= j < |before| && before[j] == Completion(t, k.res) && forall i :: 0 <= i < |before| && i != j ==> before[i].task != t;
        assert all[j] == Completion(t, k'.res);
      }
    }
  }

  lemma CollectedOnce(s: Sched, op: Op)
    requires InRange(s) && Enabled(s, op)
    ensures NoDup(Named(Collected(s, op)))
  {
    match op
    case YieldTo(log) => DeliverableIs(s, log);
    case Poll(log) => DeliverableIs(s, log);
    case StartIo(log) => DeliverableIs(Submit(s), log);
    case FinishTask(log) => DeliverableIs(Complete(s), log);
    case AwaitTask(h, log) => if AwaitAnswer(s, h).Parks? { DeliverableIs(Park(s, Resolve(s, h).value), log); }
    case _ =>
  }

  lemma AnsweredStart(s: Sched, log: seq<Completion>, s': Sched)
    requires Inv(s) && Step(s, StartIo(log), s')
    ensures s.current < |s'.tasks| && Answered(log, s.current, s'.tasks[s.current], s'.current == s.current)
  {
    var t := s.current;
    CollectedOnce(s, StartIo(log));
    StepKeeps(s, StartIo(log));
    StartTells(s, log, t);
    assert Submit(s).tasks[t].state.Waiting?;
    var none: seq<Completion> := [];
    assert Answered(none, t, Submit(s).tasks[t], false);
    hide Inv, Step, Submit, Told, Answered;
    AnsweredFurther(none, log, t, Submit(s).tasks[t], s'.tasks[t], s'.current == t) by { RunsAwake(s', t); }
    assert none + log == log;
  }

  lemma RunsAwake(s: Sched, t: nat)
    requires Inv(s) && t < |s.tasks|
    ensures s.current == t ==> !s.tasks[t].state.Waiting?
  {
  }

  lemma {:induction false} AnsweredAt(ss: seq<Sched>, ops: seq<Op>, n: nat, t: nat)
    requires IsRun(Step, ss, ops) && Inv(ss[0]) && 0 < n <= |ops| && ss[0].current == t && ops[0].StartIo?
    requires forall i :: 1 <= i < n ==> ss[i].current != t
    ensures t < |ss[n].tasks| && Answered(AllCollected(ss, ops, n), t, ss[n].tasks[t], ss[n].current == t)
  {
    hide Inv, Step, Answered;
    var a, op, b := ss[n - 1], ops[n - 1], ss[n];
    assert Step(a, op, b);
    assert InRange(a) by { StepInRange(a, op, b); }
    hide InRange;
    if n == 1 {
      AnsweredStart(a, op.log, b);
      assert AllCollected(ss, ops, 0) + Collected(a, op) == op.log;
    } else {
      AnsweredAt(ss, ops, n - 1, t);
      RunKeeps(ss, ops, n - 1);
      hide Collected;
      AnsweredStep(AllCollected(ss, ops, n - 1), a, op, b, t);
    }
  }

  lemma StepInRange(s: Sched, op: Op, s': Sched)
    requires Step(s, op, s')
    ensures InRange(s) && Enabled(s, op)
  {
  }

  lemma AnsweredStep(before: seq<Completion>, s: Sched, op: Op, s': Sched, t: nat)
    requires Inv(s) && Step(s, op, s') && t < |s.tasks| && t != s.current && Answered(before, t, s.tasks[t], false)
    ensures t < |s'.tasks| && Answered(before + Collected(s, op), t, s'.tasks[t], s'.current == t)
  {
    StepKeeps(s, op);
    StepTells(s, op, s', t);
    CollectedOnce(s, op);
    RunsAwake(s', t);
    hide Inv, Step, Told, Answered;
    AnsweredFurther(before, Collected(s, op), t, s.tasks[t], s'.tasks[t], s'.current == t);
  }

  /** A task that makes an operation gets its own result: in every run, from the step at which it
      parks to the one that next gives it a turn, just one completion collected names it, and that
      one's result is what its operation answers. */
  lemma ResultReturned(ss: seq<Sched>, ops: seq<Op>, n: nat, t: nat)
    requires IsRun(Step, ss, ops) && Inv(ss[0]) && 0 < n <= |ops| && ss[0].current == t && ops[0].StartIo?
    requires (forall i :: 1 <= i < n ==> ss[i].current != t) && ss[n].current == t
    ensures t < |ss[n].tasks| && NamedOnce(AllCollected(ss, ops, n), t, ss[n].tasks[t].res)
  {
    AnsweredAt(ss, ops, n, t);
    RunKeeps(ss, ops, n);
    RunsAwake(ss[n], t);
  }
}
