/** Draining: the running task passes control on until nothing is ready and nothing is outstanding. */
module SchedDrain {
  import opened Runs
  import opened SchedModel
  import opened SchedInvariant
  import opened SchedRuns
  import opened SchedDeadlock

  /** What is left of a task's body: the step to come and the rest, a spawned child's body beside
      it. `Over` is a slot with nothing left to do. */
  datatype Body = Over | Last | Then(rest: Body) | Fork(child: Body, after: Body)

  function Size(b: Body): nat {
    match b
    case Over => 0
    case Last => 1
    case Then(rest) => 1 + Size(rest)
    case Fork(child, after) => 1 + Size(child) + Size(after)
  }

  function Total(bodies: seq<Body>): nat {
    if bodies == [] then 0 else Size(bodies[0]) + Total(bodies[1..])
  }

  lemma {:induction false} TotalUpdate(bodies: seq<Body>, i: nat, b: Body)
    requires i < |bodies|
    ensures Total(bodies[i := b]) == Total(bodies) - Size(bodies[i]) + Size(b)
  {
    if i == 0 {
      assert bodies[i := b][1..] == bodies[1..];
    } else {
      assert bodies[i := b][1..] == bodies[1..][i - 1 := b];
      TotalUpdate(bodies[1..], i - 1, b);
    }
  }

  lemma {:induction false} TotalAppend(bodies: seq<Body>, b: Body)
    ensures Total(bodies + [b]) == Total(bodies) + Size(b)
  {
    if bodies != [] {
      assert (bodies + [b])[1..] == bodies[1..] + [b];
      TotalAppend(bodies[1..], b);
    } else {
      assert (bodies + [b])[1..] == [];
    }
  }

  /** The bodies once the running task has made its step `op`: its own body a step shorter, and a
      child's put into the slot it was given, or dropped if it was given none. */
  ghost predicate Consumes(s: Sched, bodies: seq<Body>, op: Op, bodies': seq<Body>)
    requires InRange(s) && Enabled(s, op) && |bodies| == |s.tasks|
  {
    match bodies[s.current]
    case Over => false
    case Last => op.FinishTask? && bodies' == bodies[s.current := Over]
    case Then(rest) => !op.FinishTask? && !op.SpawnTask? && bodies' == bodies[s.current := rest]
    case Fork(child, after) =>
      && op.SpawnTask?
      && var kept := bodies[s.current := after];
         var (a, slot) := SlotAlloc(s, op.m, op.usp);
         match slot
         case None => bodies' == kept
         case Some(t) =>
           var here := if op.m.stacks then child else Over;
           bodies' == if t < |kept| then kept[t := here] else kept + [here]
  }

  /** One move of a thread that `self` is draining: of the drain loop where `self` runs, of the
      running task where another does. A poll may come back with nothing. A foreign thread's moves
      are beside the point. */
  ghost predicate DrainStep(self: nat, s: Sched, bodies: seq<Body>, op: Op, s': Sched, bodies': seq<Body>)
    requires |bodies| == |s.tasks|
  {
    && Step(s, op, s')
    && !ByOthers(op)
    && if s.current == self then
         && bodies' == bodies
         && (op.Pass? || (op.Poll? && s.rq == [] && s.inflight > 0))
       else
         Consumes(s, bodies, op, bodies')
  }

  /** A poll of the drain loop that collected nothing: an interrupted wait, say. */
  predicate Idle(self: nat, s: Sched, op: Op) {
    s.current == self && op.Poll? && op.log == []
  }

  /** The drainer is running, or ready on the run queue; in its own code either way. */
  ghost predicate Draining(self: nat, s: Sched) {
    && Inv(s) && self < |s.tasks| && s.tasks[self].pc.Code?
    && (s.current == self || s.tasks[self].state.Ready?)
  }

  function Measure(self: nat, s: Sched, bodies: seq<Body>): int {
    4 * Total(bodies) + 2 * s.inflight + (if s.current == self then 1 else 0)
  }

  lemma {:induction false} DeliverFrame(s: Sched, log: seq<Completion>)
    requires Core(s) && Deliverable(s, log)
    ensures var d := Deliver(s, log);
            && d.inflight == s.inflight - |log| && d.current == s.current && |d.tasks| == |s.tasks|
            && (forall i :: 0 <= i < |s.tasks| ==>
                  && d.tasks[i] == s.tasks[i].(state := d.tasks[i].state, res := d.tasks[i].res)
                  && (d.tasks[i].state == s.tasks[i].state || (s.tasks[i].state.Waiting? && d.tasks[i].state.Ready?)))
    decreases |log|
  {
    if log != [] {
      assert TaskOk(s, log[0].task);
      Deliver1Keeps(s, log[0]);
      DeliverFrame(Deliver1(s, log[0]), log[1..]);
    }
  }

  /** A task stays put while others run, but for being taken off the run queue to run. */
  ghost predicate Kept(s: Sched, s': Sched, i: nat)
    requires i < |s.tasks| && i < |s'.tasks|
  {
    && s'.tasks[i].pc == s.tasks[i].pc
    && (s'.tasks[i].state.Ready? || s'.current == i)
  }

  lemma ReapFrame(s: Sched, i: nat)
    requires Core(s) && i < |s.tasks| && i !in s.zombies
    ensures Reap(s).tasks[i] == s.tasks[i] && Reap(s).current == s.current && Reap(s).inflight == s.inflight
    ensures Reap(s).rq == s.rq
  {
    if s.zombies != [] {
      assert ReapList(s.(zombies := []), s.zombies) == ReapOne(s.(zombies := []), s.zombies[0]);
    }
  }

  lemma BlockFrame(s: Sched, log: seq<Completion>, i: nat)
    requires Core(s) && s.zombies == [] && PicksWith(s, log) && i < |s.tasks| && i != s.current
    requires !s.tasks[s.current].state.Running? && s.tasks[i].state.Ready?
    ensures var r := Block(s, log);
            r.Went? && |r.s.tasks| == |s.tasks| && Kept(s, r.s, i) && r.s.inflight == s.inflight - |log|
  {
    DeliverKeeps(s, log);
    DeliverFrame(s, log);
    var d := Deliver(s, log);
    assert TaskOk(d, i);
    SwitchAwayKeeps(d);
    ReapFrame(SwitchAway(d), i);
  }

  lemma FinishFrame(s: Sched, log: seq<Completion>, i: nat)
    requires Inv(s) && s.current != 0 && s.tasks[s.current].pc.Code? && PicksWith(Complete(s), log)
    requires i < |s.tasks| && i != s.current && s.tasks[i].state.Ready?
    ensures var r := Finish(s, log);
            r.Went? && |r.s.tasks| == |s.tasks| && Kept(s, r.s, i) && r.s.inflight == s.inflight - |log|
  {
    CompleteKeeps(s);
    CompleteIs(s);
    DeliverKeeps(Complete(s), log);
    DeliverFrame(Complete(s), log);
    var d := Deliver(Complete(s), log);
    assert TaskOk(d, i);
    SwitchForGoodKeeps(d);
    ReapFrame(SwitchForGood(d), i);
  }

  lemma StopFrame(self: nat, s: Sched, op: Op)
    requires Draining(self, s) && s.current != self && Enabled(s, op) && Stops(s, op)
    ensures var r := Apply(s, op);
            r.Went? && |r.s.tasks| == |s.tasks| && Kept(s, r.s, self) && r.s.inflight <= s.inflight + 1
  {
    StoppedKeeps(s, op);
    if op.FinishTask? { FinishFrame(s, op.log, self); }
    else {
      assert TaskOk(s, s.current);
      BlockFrame(Stopped(s, op), op.log, self);
    }
  }

  /** While a thread drains, none of its tasks can run into a deadlock panic. */
  lemma DrainNeverPanics(self: nat, s: Sched, op: Op)
    requires Draining(self, s) && Enabled(s, op)
    requires s.current == self ==> op.Pass? || op.Poll?
    ensures Apply(s, op).Went?
  {
    if Stops(s, op) { StopFrame(self, s, op); }
  }

  lemma PollFrame(self: nat, s: Sched, log: seq<Completion>)
    requires Draining(self, s) && Deliverable(s, log)
    ensures var d := Deliver(s, log);
            |d.tasks| == |s.tasks| && Kept(s, d, self) && d.inflight == s.inflight - |log| && d.current == s.current
            && Inv(d) && Draining(self, d)
  {
    DeliverKeeps(s, log);
    DeliverFrame(s, log);
    assert TaskOk(Deliver(s, log), self);
  }

  lemma HandoffFrame(self: nat, s: Sched, n: nat)
    requires Draining(self, s) && n in s.rq
    ensures var h := Handoff(s, n);
            |h.tasks| == |s.tasks| && Kept(s, h, self) && h.inflight == s.inflight && h.current != s.current
  {
    assert TaskOk(s, self) && TaskOk(s, s.current) && TaskOk(s, n);
  }

  lemma SpawnFrame(self: nat, s: Sched, m: Memory, usp: int)
    requires Draining(self, s)
    ensures var r := Spawn(s, m, usp).0;
            |r.tasks| >= |s.tasks| && Kept(s, r, self) && r.inflight == s.inflight
  {
    if s.free != [] { assert s.free[0] in s.free; assert TaskOk(s, s.free[0]); }
    assert TaskOk(s, self);
  }

  lemma ReleaseFrame(self: nat, s: Sched, l: nat)
    requires Draining(self, s)
    ensures var r := Unlock(s, l);
            |r.tasks| == |s.tasks| && Kept(s, r, self) && r.inflight == s.inflight
  {
    var u := s.(held := GivenBack(s.held, l));
    HeldAside(s, u);
    match FirstWaiting(u, l, u.lockq)
    case None =>
    case Some(t) => HandoffFrame(self, u, t);
  }

  lemma CollectFrame(self: nat, s: Sched)
    requires Draining(self, s) && s.tasks[s.current].pc.Collect?
    ensures Collecting(s)
    ensures var r := CollectJoin(s);
            |r.tasks| == |s.tasks| && Kept(s, r, self) && r.inflight == s.inflight
  {
    CollectingIs(s);
  }

  /** What the drain needs of any step that does not stop the running task. */
  lemma RunningFrame(self: nat, s: Sched, op: Op)
    requires Draining(self, s) && Enabled(s, op) && !Stops(s, op)
    requires s.current == self ==> op.Pass? || op.Poll?
    ensures var r := Apply(s, op);
            && r.Went? && |r.s.tasks| >= |s.tasks| && Kept(s, r.s, self) && r.s.inflight <= s.inflight
            && (op.Poll? ==> r.s.inflight == s.inflight - |op.log| && r.s.current == s.current)
            && (op.Pass? ==> r.s.current != s.current && r.s.inflight == s.inflight)
  {
    match op
    case YieldTo(log) =>
      PollFrame(self, s, log);
      var d := Deliver(s, log);
      if d.rq != [] { HandoffFrame(self, d, d.rq[0]); }
    case Poll(log) => PollFrame(self, s, log);
    case SpawnTask(m, usp) => SpawnFrame(self, s, m, usp);
    case CollectTask => CollectFrame(self, s);
    case Pass => HandoffFrame(self, s, s.rq[0]);
    case Release(l) => ReleaseFrame(self, s, l);
    case _ =>
  }

  lemma DrainingKeeps(self: nat, s: Sched, op: Op)
    requires Draining(self, s) && Enabled(s, op)
    requires s.current == self ==> op.Pass? || op.Poll?
    ensures Apply(s, op).Went? && Draining(self, Apply(s, op).s)
  {
    DrainNeverPanics(self, s, op);
    StepKeeps(s, op);
    if Stops(s, op) { StopFrame(self, s, op); } else { RunningFrame(self, s, op); }
  }

  // ---------- termination ----------

  /** Every step of a task leaves less for the tasks to do. */
  lemma ConsumesFalls(s: Sched, bodies: seq<Body>, op: Op, bodies': seq<Body>)
    requires InRange(s) && Enabled(s, op) && |bodies| == |s.tasks| && Consumes(s, bodies, op, bodies')
    ensures Total(bodies') < Total(bodies)
  {
    var c := s.current;
    match bodies[c]
    case Last => TotalUpdate(bodies, c, Over);
    case Then(rest) => TotalUpdate(bodies, c, rest);
    case Fork(child, after) =>
      var kept := bodies[c := after];
      TotalUpdate(bodies, c, after);
      var slot := SlotAlloc(s, op.m, op.usp).1;
      if slot.Some? {
        var here := if op.m.stacks then child else Over;
        if slot.value < |kept| { TotalUpdate(kept, slot.value, here); } else { TotalAppend(kept, here); }
      }
  }

  lemma MeasureFalls(self: nat, s: Sched, bodies: seq<Body>, op: Op, s': Sched, bodies': seq<Body>)
    requires Draining(self, s) && |bodies| == |s.tasks| && DrainStep(self, s, bodies, op, s', bodies')
    ensures Draining(self, s') && |bodies'| == |s'.tasks|
    ensures Idle(self, s, op) ==> s' == s && bodies' == bodies
    ensures !Idle(self, s, op) ==> 0 <= Measure(self, s', bodies') < Measure(self, s, bodies)
  {
    DrainingKeeps(self, s, op);
    if Stops(s, op) { StopFrame(self, s, op); } else { RunningFrame(self, s, op); }
    if s.current != self {
      ConsumesFalls(s, bodies, op, bodies');
      BodiesFit(s, bodies, op, bodies');
    }
  }

  lemma BodiesFit(s: Sched, bodies: seq<Body>, op: Op, bodies': seq<Body>)
    requires Inv(s) && Enabled(s, op) && |bodies| == |s.tasks| && Consumes(s, bodies, op, bodies')
    ensures Apply(s, op).Went? ==> |bodies'| == |Apply(s, op).s.tasks|
  {
    if Stops(s, op) {
      StoppedKeeps(s, op);
      if Apply(s, op).Went? { StoppedFits(s, op); }
    } else {
      match op
      case YieldTo(log) => DeliverKeeps(s, log);
      case _ =>
    }
  }

  lemma StoppedFits(s: Sched, op: Op)
    requires Inv(s) && Enabled(s, op) && Stops(s, op) && Apply(s, op).Went?
    ensures |Apply(s, op).s.tasks| == |s.tasks|
  {
  }

  /** A stretch of a drain by `self`: its loop, and all that the tasks it lets run do meanwhile. */
  ghost predicate IsDrain(self: nat, ss: seq<Sched>, bs: seq<seq<Body>>, ops: seq<Op>) {
    && |ss| == |bs| == |ops| + 1
    && forall i :: 0 <= i < |ops| ==>
         |bs[i]| == |ss[i].tasks| && DrainStep(self, ss[i], bs[i], ops[i], ss[i + 1], bs[i + 1])
  }

  /** How many of the moves are not idle polls. */
  function Busy(self: nat, ss: seq<Sched>, ops: seq<Op>): nat
    requires |ss| == |ops| + 1
  {
    if ops == [] then 0 else (if Idle(self, ss[0], ops[0]) then 0 else 1) + Busy(self, ss[1..], ops[1..])
  }

  /** A drain of tasks with finite bodies ends, if its waits do not come back with nothing for ever:
      but for those it is no longer than what the tasks had left to do. */
  lemma {:induction false} DrainTerminates(self: nat, ss: seq<Sched>, bs: seq<seq<Body>>, ops: seq<Op>)
    requires IsDrain(self, ss, bs, ops) && Draining(self, ss[0]) && |bs[0]| == |ss[0].tasks|
    ensures Busy(self, ss, ops) <= Measure(self, ss[0], bs[0])
    ensures forall i :: 0 <= i < |ss| ==> Draining(self, ss[i])
    decreases |ops|
  {
    if ops != [] {
      MeasureFalls(self, ss[0], bs[0], ops[0], ss[1], bs[1]);
      DrainTerminates(self, ss[1..], bs[1..], ops[1..]);
      assert ss == [ss[0]] + ss[1..];
    }
  }

  // ---------- completeness ----------

  /** The loop stops where the drainer runs with nothing ready and nothing outstanding, and there it
      always stops; anywhere else one of its moves is possible. */
  ghost predicate Drained(self: nat, s: Sched) {
    s.current == self && s.rq == [] && s.inflight == 0
  }

  lemma DrainGoesOn(self: nat, s: Sched)
    requires Draining(self, s) && s.current == self
    ensures Drained(self, s) <==> !exists op :: Enabled(s, op) && (op.Pass? || (op.Poll? && s.rq == [] && op.log != []))
  {
    if s.rq != [] {
      assert Enabled(s, Pass);
    } else if s.inflight > 0 {
      var i :| i in s.out;
      var log := [Completion(i, 0)];
      assert Deliverable(Deliver1(s, log[0]), log[1..]);
      assert Enabled(s, Poll(log));
    } else {
      assert s.out == {};
    }
  }

  /** What a drain leaves: every other task has finished, unless following its awaits leads to the
      drainer itself or into a cycle. */
  lemma DrainComplete(self: nat, s: Sched, t: nat)
    requires Draining(self, s) && Drained(self, s) && t < |s.tasks| && t != self
    ensures Unfinished(s, t) ==> s.tasks[t].state.Joining?
    ensures Unfinished(s, t) ==> exists k :: Chain(s, t, k) == self || OnCycle(s, Chain(s, t, k))
  {
    if Unfinished(s, t) {
      assert s.out == {};
      assert TaskOk(s, t);
      ChainEnds(s, t);
      var k :| Chain(s, t, k) < |s.tasks| && (!s.tasks[Chain(s, t, k)].state.Joining? || OnCycle(s, Chain(s, t, k)));
      ChainUnfinished(s, t, k);
      assert TaskOk(s, Chain(s, t, k));
    }
  }
}
