/** A deadlock panic is raised exactly when the awaits of all unfinished tasks go round in circles. */
module SchedDeadlock {
  import opened Runs
  import opened SchedModel
  import opened SchedInvariant
  import opened SchedRuns

  predicate Unfinished(s: Sched, i: nat)
    requires i < |s.tasks|
  {
    !s.tasks[i].state.Done? && !s.tasks[i].state.Free?
  }

  ghost predicate AllJoining(s: Sched) {
    forall i :: 0 <= i < |s.tasks| && Unfinished(s, i) ==> s.tasks[i].state.Joining?
  }

  /** The task that `i` awaits; one that awaits none stays put. */
  function Awaited(s: Sched, i: nat): nat {
    if i < |s.tasks| && s.tasks[i].state.Joining? && s.tasks[i].pc.Collect? then s.tasks[i].pc.target else i
  }

  function Chain(s: Sched, i: nat, k: nat): nat {
    if k == 0 then i else Awaited(s, Chain(s, i, k - 1))
  }

  ghost predicate OnCycle(s: Sched, i: nat) {
    i < |s.tasks| && s.tasks[i].state.Joining? && exists k :: k > 0 && Chain(s, i, k) == i
  }

  lemma {:induction false} ChainAdds(s: Sched, i: nat, j: nat, k: nat)
    ensures Chain(s, i, j + k) == Chain(s, Chain(s, i, j), k)
  {
    if k > 0 { ChainAdds(s, i, j, k - 1); }
  }

  /** There are no more than `n` different values below `n`. */
  lemma {:induction false} Pigeonhole(q: seq<nat>, n: nat)
    requires NoDup(q) && AllBelow(q, n)
    ensures |q| <= n
    decreases n
  {
    if q != [] {
      assert 0 <= q[0] < n;
      if n - 1 in q {
        WithoutIs(q, n - 1);
        Pigeonhole(Without(q, n - 1), n - 1);
      } else {
        Pigeonhole(q, n - 1);
      }
    }
  }

  lemma {:induction false} ChainStays(s: Sched, i: nat, k: nat)
    requires Core(s) && i < |s.tasks|
    ensures Chain(s, i, k) < |s.tasks|
  {
    if k > 0 {
      ChainStays(s, i, k - 1);
      assert TaskOk(s, Chain(s, i, k - 1));
    }
  }

  lemma {:induction false} StoppedForGood(s: Sched, i: nat, j: nat, k: nat)
    requires j <= k && Awaited(s, Chain(s, i, j)) == Chain(s, i, j)
    ensures Chain(s, i, k) == Chain(s, i, j)
    decreases k - j
  {
    if j < k { StoppedForGood(s, i, j + 1, k); }
  }

  /** Following awaits from any task ends at one that awaits nobody, or on a cycle. */
  lemma ChainEnds(s: Sched, i: nat)
    requires Core(s) && i < |s.tasks|
    ensures exists k :: Chain(s, i, k) < |s.tasks|
                        && (!s.tasks[Chain(s, i, k)].state.Joining? || OnCycle(s, Chain(s, i, k)))
  {
    var n := |s.tasks|;
    var q := seq(n + 1, (k: nat) => Chain(s, i, k));
    forall k | 0 <= k < n + 1 ensures q[k] < n {
      ChainStays(s, i, k);
    }
    if NoDup(q) { Pigeonhole(q, n); }
    var j, k :| 0 <= j < k < |q| && q[j] == q[k];
    ChainAdds(s, i, j, k - j);
    assert Chain(s, Chain(s, i, j), k - j) == Chain(s, i, j);
    assert !s.tasks[Chain(s, i, j)].state.Joining? || OnCycle(s, Chain(s, i, j));
  }

  /** What an unfinished task awaits is unfinished. */
  lemma AwaitsUnfinished(s: Sched, i: nat)
    requires Core(s) && i < |s.tasks| && s.tasks[i].state.Joining?
    ensures Awaited(s, i) < |s.tasks| && Awaited(s, i) != i && Unfinished(s, Awaited(s, i))
  {
    assert TaskOk(s, i);
    assert TaskOk(s, s.tasks[i].pc.target);
  }

  lemma {:induction false} ChainUnfinished(s: Sched, i: nat, k: nat)
    requires Core(s) && i < |s.tasks| && Unfinished(s, i)
    ensures Chain(s, i, k) < |s.tasks| && Unfinished(s, Chain(s, i, k))
  {
    if k > 0 {
      ChainUnfinished(s, i, k - 1);
      var c := Chain(s, i, k - 1);
      if s.tasks[c].state.Joining? { AwaitsUnfinished(s, c); }
    }
  }

  lemma AllJoiningCircular(s: Sched)
    requires Core(s) && AllJoining(s)
    ensures exists i :: OnCycle(s, i)
  {
    ChainEnds(s, 0);
    var k :| Chain(s, 0, k) < |s.tasks| && (!s.tasks[Chain(s, 0, k)].state.Joining? || OnCycle(s, Chain(s, 0, k)));
    ChainUnfinished(s, 0, k);
  }

  /** The ways a task stops running: the state its pick starts from. */
  ghost predicate Stops(s: Sched, op: Op)
    requires InRange(s)
  {
    op.StartIo? || op.FinishTask? || (op.AwaitTask? && AwaitAnswer(s, op.handle).Parks?)
  }

  function Stopped(s: Sched, op: Op): (r: Sched)
    requires InRange(s) && Enabled(s, op) && Stops(s, op)
    ensures InRange(r)
  {
    if op.StartIo? then Submit(s) else if op.FinishTask? then Complete(s)
    else Park(s, Resolve(s, op.handle).value)
  }

  lemma StoppedKeeps(s: Sched, op: Op)
    requires Inv(s) && Enabled(s, op) && Stops(s, op)
    ensures var p := Stopped(s, op);
            Core(p) && PicksWith(p, op.log) && !p.tasks[p.current].state.Running?
            && Apply(s, op).Deadlock? == (Deliver(p, op.log).rq == [])
            && (Apply(s, op).Deadlock? ==> Apply(s, op).s == Deliver(p, op.log))
  {
    if op.StartIo? { SubmitKeeps(s); }
    else if op.FinishTask? { CompleteKeeps(s); CompleteIs(s); }
    else { ParkKeeps(s, Resolve(s, op.handle).value); }
  }

  lemma NothingRuns(p: Sched)
    requires Core(p) && !p.tasks[p.current].state.Running?
    ensures p.rq == [] && p.inflight == 0 <==> AllJoining(p)
  {
    if p.rq == [] && p.inflight == 0 {
      assert p.out == {};
      forall i | 0 <= i < |p.tasks| && Unfinished(p, i) ensures p.tasks[i].state.Joining? {
        assert TaskOk(p, i);
      }
    }
    if p.rq != [] {
      assert p.rq[0] in p.rq && TaskOk(p, p.rq[0]);
      assert Unfinished(p, p.rq[0]);
    }
    if p.out != {} {
      var i :| i in p.out;
      assert TaskOk(p, i);
      assert Unfinished(p, i);
    }
  }

  lemma {:induction false} DeliversNothing(p: Sched, log: seq<Completion>)
    requires Core(p) && Deliverable(p, log)
    ensures Deliver(p, log).rq == [] <==> p.rq == [] && log == []
  {
    if log != [] {
      DeliverKeeps(Deliver1(p, log[0]), log[1..]) by { Deliver1Keeps(p, log[0]); }
    }
  }

  /** No false alarms and no silent hangs: the scheduler panics exactly when, once the running task
      has stopped, every unfinished task awaits another; and then some of them await each other. */
  lemma DeadlockExact(s: Sched, op: Op)
    requires Inv(s) && Enabled(s, op)
    ensures Apply(s, op).Deadlock? <==> Stops(s, op) && AllJoining(Stopped(s, op))
    ensures Apply(s, op).Deadlock? ==>
              Apply(s, op).s == Stopped(s, op) && exists i :: OnCycle(Stopped(s, op), i)
  {
    if Stops(s, op) {
      var p := Stopped(s, op);
      StoppedKeeps(s, op);
      NothingRuns(p);
      DeliversNothing(p, op.log);
      if op.log != [] { assert op.log[0].task in p.out; }
      if AllJoining(p) { AllJoiningCircular(p); }
    }
  }
}
