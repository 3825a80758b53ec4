/** The inductive invariant of the scheduler: each task is in exactly the place its state names. */
module SchedInvariant {
  import opened Runs
  import opened SchedModel

  /** The tasks that await `t` and have not yet returned from it. */
  ghost function Collectors(s: Sched, t: nat): set<nat> {
    set w | 0 <= w < |s.tasks| && s.tasks[w].pc == Collect(t)
  }

  /** `i` is inside an await: parked on a list of its target until that is done. */
  ghost predicate AwaitsOk(s: Sched, i: nat)
    requires i < |s.tasks| && s.tasks[i].pc.Collect?
  {
    var t := s.tasks[i].pc.target;
    && t < |s.tasks| && t != i
    && !s.tasks[t].state.Free? && !s.tasks[t].detached
    && (if s.tasks[i].state.Joining? then i in s.tasks[t].waiters else s.tasks[t].state.Done?)
  }

  ghost predicate WaitersOk(s: Sched, i: nat)
    requires i < |s.tasks|
  {
    var ws := s.tasks[i].waiters;
    && NoDup(ws)
    && (ws != [] ==> !s.tasks[i].state.Done? && !s.tasks[i].state.Free?)
    && forall k :: 0 <= k < |ws| ==>
         ws[k] < |s.tasks| && s.tasks[ws[k]].state.Joining? && s.tasks[ws[k]].pc == Collect(i)
  }

  ghost predicate Placed(s: Sched, i: nat)
    requires i < |s.tasks|
  {
    var t := s.tasks[i];
    && (t.state.Ready? <==> i in s.rq)
    && (t.state.Free? <==> i in s.free)
    && (t.state.Waiting? <==> i in s.out)
    && (t.state.Running? ==> i == s.current)
    && (i in s.zombies ==> t.state.Done?)
    && (t.state.Done? && t.detached ==> i in s.zombies)
  }

  ghost predicate Counted(s: Sched, i: nat)
    requires i < |s.tasks|
  {
    var t := s.tasks[i];
    && t.njoiners == |Collectors(s, i)|
    && t.gen == 1 + t.epoch % GEN_MASK
    && t.born == t.epoch + (if t.state.Free? then 0 else 1)
  }

  ghost predicate TaskOk(s: Sched, i: nat)
    requires i < |s.tasks|
  {
    var t := s.tasks[i];
    && Placed(s, i)
    && (t.state.Joining? ==> t.pc.Collect?)
    && (t.state.Waiting? || t.state.Done? || t.state.Free? ==> t.pc.Code?)
    && (t.pc.Collect? ==> AwaitsOk(s, i))
    && (t.pc.Retry? ==> LockWait(t.pc.lock, i) in s.lockq)
    && WaitersOk(s, i)
    && Counted(s, i)
    && (i != s.current && !t.state.Done? && !t.state.Free? ==> t.usp == t.want)
  }

  ghost predicate QueuedOk(s: Sched, k: nat)
    requires k < |s.lockq|
  {
    var w := s.lockq[k];
    && w.task < |s.tasks| && s.tasks[w.task].pc == Retry(w.lock)
    && (s.tasks[w.task].state.Ready? || s.tasks[w.task].state.Running?)
  }

  /** A held lock is held at least once, by one of the `n` tasks if a task has it for itself, and no
      more often than can be counted if it is recursive. */
  ghost predicate HeldOk(held: map<nat, Holder>, n: nat) {
    forall l <- held :: Holds(held, l) > 0 && (held[l].Ours? ==> held[l].task < n) && (held[l].Thread? ==> held[l].depth <= COUNT_MAX)
  }

  ghost predicate LocksOk(s: Sched) {
    && (forall k :: 0 <= k < |s.lockq| ==> QueuedOk(s, k))
    && (forall j, k :: 0 <= j < k < |s.lockq| ==> s.lockq[j].task != s.lockq[k].task)
    && HeldOk(s.held, |s.tasks|)
  }

  ghost predicate ListsOk(s: Sched) {
    && InRange(s)
    && NoDup(s.rq) && NoDup(s.free) && |s.zombies| <= 1
    && s.live == |s.tasks| - |s.free|
    && s.inflight == |s.out|
    && |s.tasks| <= s.cap < IDX_SPAN
    && s.tls == s.tasks[s.current].want
    && !s.tasks[0].state.Done? && !s.tasks[0].state.Free?
  }

  /** What holds at every point of every call, the tasks in `open` perhaps being half moved. */
  ghost predicate CoreBut(s: Sched, open: set<nat>) {
    && ListsOk(s) && LocksOk(s)
    && (forall i :: 0 <= i < |s.tasks| && i !in open ==> TaskOk(s, i))
  }

  ghost predicate Core(s: Sched) {
    CoreBut(s, {})
  }

  /** What holds whenever the code of a task runs. */
  ghost predicate Inv(s: Sched) {
    Core(s) && s.tasks[s.current].state.Running? && s.zombies == []
  }

  /** The thread's own task is the first slot, and runs. */
  function Started(usp: int): Sched {
    Sched([Task(Running, 1, false, 0, [], usp, 0, Code, 0, 1, usp)], 0, [], [], [], {}, FIRST_CAP, 1, 0, [], map[], usp)
  }

  lemma StartedOk(usp: int)
    ensures Inv(Started(usp))
  {
    var s := Started(usp);
    assert Collectors(s, 0) == {};
    assert TaskOk(s, 0);
  }

  lemma WithoutIs(q: seq<nat>, x: nat)
    requires NoDup(q) && x in q
    ensures NoDup(Without(q, x)) && |Without(q, x)| == |q| - 1
    ensures forall y :: y in Without(q, x) <==> y in q && y != x
  {
    assert q == [q[0]] + q[1..];
    if q[0] != x {
      WithoutIs(q[1..], x);
    }
  }

  lemma SameCollectors(s: Sched, s': Sched, t: nat)
    requires |s'.tasks| == |s.tasks|
    requires forall i :: 0 <= i < |s.tasks| ==> s'.tasks[i].pc == s.tasks[i].pc
    ensures Collectors(s', t) == Collectors(s, t)
  {
  }

  lemma NotCollected(s: Sched, t: nat, i: nat)
    requires i < |s.tasks| && i !in Collectors(s, t)
    ensures s.tasks[i].pc != Collect(t)
  {
  }

  lemma HeadAndTail(q: seq<nat>)
    requires q != [] && NoDup(q)
    ensures NoDup(q[1..]) && (forall y :: y in q[1..] <==> y in q && y != q[0])
  {
    assert q == [q[0]] + q[1..];
  }

  /** A task already detached, or a free slot, is awaited by nobody. */
  lemma NobodyCollects(s: Sched, t: nat)
    requires t < |s.tasks| && forall i :: 0 <= i < |s.tasks| ==> TaskOk(s, i)
    requires s.tasks[t].detached || s.tasks[t].state.Free?
    ensures Collectors(s, t) == {}
  {
    forall w | 0 <= w < |s.tasks| ensures s.tasks[w].pc != Collect(t) {
      assert TaskOk(s, w);
    }
  }

  /** The lock queue is untouched by what leaves its tasks ready or running in their retry loops. */
  lemma LocksKeep(s: Sched, s': Sched)
    requires LocksOk(s) && s'.lockq == s.lockq && s'.held == s.held && |s'.tasks| >= |s.tasks|
    requires forall i :: 0 <= i < |s.tasks| && s.tasks[i].pc.Retry? ==>
               && s'.tasks[i].pc == s.tasks[i].pc
               && (s.tasks[i].state.Ready? || s.tasks[i].state.Running? ==>
                     s'.tasks[i].state.Ready? || s'.tasks[i].state.Running?)
    ensures LocksOk(s')
  {
    forall k | 0 <= k < |s'.lockq| ensures QueuedOk(s', k) {
      assert QueuedOk(s, k);
    }
  }

  /** A step that only moves tasks between ready, running and waiting, and `usp` and `res`. */
  ghost predicate OnlyMoves(s: Sched, s': Sched) {
    && |s'.tasks| == |s.tasks| && s'.lockq == s.lockq && s'.held == s.held
    && forall i :: 0 <= i < |s.tasks| ==> Moved(s.tasks[i], s'.tasks[i])
  }

  ghost predicate Moved(t: Task, t': Task) {
    && t' == t.(state := t'.state, usp := t'.usp, res := t'.res)
    && (t'.state == t.state || (t'.state.Ready? && (t.state.Running? || t.state.Waiting?)) || (t.state.Ready? && t'.state.Running?))
  }

  lemma MovesKeep(s: Sched, s': Sched, i: nat)
    requires OnlyMoves(s, s') && i < |s.tasks| && TaskOk(s, i)
    requires Placed(s', i)
    requires i != s'.current && !s'.tasks[i].state.Done? && !s'.tasks[i].state.Free? ==> s'.tasks[i].usp == s'.tasks[i].want
    ensures TaskOk(s', i)
  {
    assert Moved(s.tasks[i], s'.tasks[i]);
    SameCollectors(s, s', i);
    if s.tasks[i].pc.Collect? {
      assert Moved(s.tasks[s.tasks[i].pc.target], s'.tasks[s.tasks[i].pc.target]);
    }
    forall k | 0 <= k < |s.tasks[i].waiters| ensures s'.tasks[s.tasks[i].waiters[k]].state.Joining? {
      assert Moved(s.tasks[s.tasks[i].waiters[k]], s'.tasks[s.tasks[i].waiters[k]]);
    }
  }

  // ---------- one lemma for each step ----------

  lemma Deliver1Keeps(s: Sched, c: Completion)
    requires Core(s) && c.task in s.out
    ensures Core(Deliver1(s, c))
  {
    var s' := Deliver1(s, c);
    assert TaskOk(s, c.task) && TaskOk(s, 0);
    assert OnlyMoves(s, s');
    forall i | 0 <= i < |s'.tasks| ensures TaskOk(s', i) {
      assert TaskOk(s, i);
      assert Placed(s', i);
      MovesKeep(s, s', i);
    }
    LocksKeep(s, s');
  }

  lemma {:induction false} DeliverKeeps(s: Sched, log: seq<Completion>)
    requires Core(s) && Deliverable(s, log)
    ensures Core(Deliver(s, log))
    ensures var d := Deliver(s, log);
            d.zombies == s.zombies && d.current == s.current && s.rq <= d.rq
    ensures Deliver(s, log).tasks[s.current].state == s.tasks[s.current].state
            || (s.tasks[s.current].state.Waiting? && Deliver(s, log).tasks[s.current].state.Ready?)
    decreases |log|
  {
    if log != [] {
      assert TaskOk(s, log[0].task) && TaskOk(s, s.current);
      Deliver1Keeps(s, log[0]);
      DeliverKeeps(Deliver1(s, log[0]), log[1..]);
    }
  }

  lemma HandoffKeeps(s: Sched, n: nat)
    requires Inv(s) && n in s.rq
    ensures Inv(Handoff(s, n))
  {
    var s' := Handoff(s, n);
    WithoutIs(s.rq, n);
    assert TaskOk(s, n) && TaskOk(s, s.current) && TaskOk(s, 0);
    assert OnlyMoves(s, s');
    forall i | 0 <= i < |s'.tasks| ensures TaskOk(s', i) {
      HandoffTask(s, n, i);
    }
    LocksKeep(s, s');
  }

  lemma HandoffTask(s: Sched, n: nat, i: nat)
    requires Inv(s) && n in s.rq && i < |s.tasks| && OnlyMoves(s, Handoff(s, n))
    ensures TaskOk(Handoff(s, n), i)
  {
    WithoutIs(s.rq, n);
    assert TaskOk(s, i) && TaskOk(s, n) && TaskOk(s, s.current);
    assert Placed(Handoff(s, n), i);
    MovesKeep(s, Handoff(s, n), i);
  }

  lemma SwitchAwayKeeps(s: Sched)
    requires Core(s) && s.zombies == [] && s.rq != [] && !s.tasks[s.current].state.Running?
    ensures Inv(SwitchAway(s))
  {
    var s' := SwitchAway(s);
    HeadAndTail(s.rq);
    assert s.rq[0] in s.rq && TaskOk(s, s.rq[0]) && TaskOk(s, s.current) && TaskOk(s, 0);
    assert OnlyMoves(s, s');
    forall i | 0 <= i < |s'.tasks| ensures TaskOk(s', i) {
      assert TaskOk(s, i);
      assert Placed(s', i);
      MovesKeep(s, s', i);
    }
    LocksKeep(s, s');
  }

  lemma SwitchForGoodKeeps(s: Sched)
    requires Core(s) && s.rq != [] && s.tasks[s.current].state.Done?
    ensures Core(SwitchForGood(s)) && SwitchForGood(s).tasks[SwitchForGood(s).current].state.Running?
  {
    var s' := SwitchForGood(s);
    HeadAndTail(s.rq);
    assert s.rq[0] in s.rq && TaskOk(s, s.rq[0]) && TaskOk(s, s.current) && TaskOk(s, 0);
    assert OnlyMoves(s, s');
    forall i | 0 <= i < |s'.tasks| ensures TaskOk(s', i) {
      assert TaskOk(s, i);
      assert Placed(s', i);
      MovesKeep(s, s', i);
    }
    LocksKeep(s, s');
  }

  /** A slot that is on no list, awaited by nobody, may be retired. */
  lemma RetireKeeps(s: Sched, t: nat)
    requires CoreBut(s, {t}) && 0 < t < |s.tasks| && t != s.current
    requires t !in s.rq && t !in s.free && t !in s.out && t !in s.zombies
    requires var k := s.tasks[t];
             && k.waiters == [] && k.njoiners == 0 && k.pc.Code? && Collectors(s, t) == {}
             && k.gen == 1 + k.epoch % GEN_MASK && k.born == k.epoch + 1
    ensures Core(Retire(s, t))
  {
    var s' := Retire(s, t);
    forall i | 0 <= i < |s'.tasks| ensures TaskOk(s', i) {
      SameCollectors(s, s', i);
      if i != t {
        assert TaskOk(s, i);
        NotCollected(s, t, i);
        forall k | 0 <= k < |s.tasks[i].waiters| ensures s.tasks[i].waiters[k] != t {
        }
      }
    }
    LocksKeep(s, s');
  }

  lemma ReapKeeps(s: Sched)
    requires Core(s) && s.tasks[s.current].state.Running?
    ensures Inv(Reap(s))
  {
    var u := s.(zombies := []);
    if s.zombies == [] {
      assert u == s;
    } else {
      var z := s.zombies[0];
      assert z in s.zombies && TaskOk(s, z) && TaskOk(s, 0) && TaskOk(s, s.current);
      forall i | 0 <= i < |u.tasks| && i != z ensures TaskOk(u, i) {
        assert TaskOk(s, i);
        SameCollectors(s, u, i);
      }
      LocksKeep(s, u);
      assert CoreBut(u, {z});
      assert Collectors(u, z) == Collectors(s, z);
      if s.tasks[z].detached {
        NobodyCollects(s, z);
        RetireKeeps(u, z);
      } else {
        assert TaskOk(u, z);
      }
      assert ReapList(u, s.zombies) == ReapOne(u, z);
    }
  }

  lemma BlockKeeps(s: Sched, log: seq<Completion>)
    requires Core(s) && s.zombies == [] && PicksWith(s, log)
    requires s.tasks[s.current].state.Joining? || s.tasks[s.current].state.Waiting?
    ensures Block(s, log).Went? ==> Inv(Block(s, log).s)
    ensures Block(s, log).Deadlock? ==> Core(Block(s, log).s)
  {
    DeliverKeeps(s, log);
    var d := Deliver(s, log);
    if d.rq != [] {
      SwitchAwayKeeps(d);
      ReapKeeps(SwitchAway(d));
    }
  }

  ghost predicate MayPark(s: Sched, t: nat) {
    && Inv(s) && t < |s.tasks| && t != s.current && s.tasks[s.current].pc.Code?
    && !s.tasks[t].state.Free? && !s.tasks[t].state.Done? && !s.tasks[t].detached
  }

  lemma ParkWaiters(s: Sched, t: nat)
    requires MayPark(s, t)
    ensures WaitersOk(Park(s, t), t) && s.current !in s.tasks[t].waiters
  {
    var me, s' := s.current, Park(s, t);
    var ws := s.tasks[t].waiters;
    assert TaskOk(s, t);
    assert s'.tasks[t].waiters == [me] + ws;
    forall k | 0 <= k < |ws| + 1
      ensures s'.tasks[([me] + ws)[k]].state.Joining? && s'.tasks[([me] + ws)[k]].pc == Collect(t) {
      assert ([me] + ws)[k] == if k == 0 then me else ws[k - 1];
    }
  }

  lemma ParkCounts(s: Sched, t: nat)
    requires MayPark(s, t)
    ensures Counted(Park(s, t), t)
  {
    assert TaskOk(s, t);
    assert s.current !in Collectors(s, t);
    ParkCollectors(s, t);
  }

  lemma ParkCollectors(s: Sched, t: nat)
    requires MayPark(s, t)
    ensures Collectors(Park(s, t), t) == Collectors(s, t) + {s.current}
  {
  }

  lemma ParkTarget(s: Sched, t: nat)
    requires MayPark(s, t)
    ensures TaskOk(Park(s, t), t)
  {
    ParkWaiters(s, t);
    ParkCounts(s, t);
    assert TaskOk(s, t) && TaskOk(s, s.current);
    assert Placed(Park(s, t), t);
  }

  lemma ParkOther(s: Sched, t: nat, i: nat)
    requires MayPark(s, t) && i < |s.tasks| && i != t
    ensures TaskOk(Park(s, t), i)
  {
    var s' := Park(s, t);
    assert TaskOk(s, i) && TaskOk(s, s.current);
    assert Collectors(s', i) == Collectors(s, i);
    if i == s.current {
      assert i == s'.tasks[t].waiters[0];
    }
  }

  lemma ParkKeeps(s: Sched, t: nat)
    requires MayPark(s, t)
    ensures Core(Park(s, t))
  {
    assert TaskOk(s, s.current);
    forall i | 0 <= i < |s.tasks| ensures TaskOk(Park(s, t), i) {
      if i == t { ParkTarget(s, t); } else { ParkOther(s, t, i); }
    }
    LocksKeep(s, Park(s, t));
  }

  lemma SubmitKeeps(s: Sched)
    requires Inv(s) && s.tasks[s.current].pc.Code?
    ensures Core(Submit(s))
  {
    var s' := Submit(s);
    assert TaskOk(s, s.current);
    forall i | 0 <= i < |s'.tasks| ensures TaskOk(s', i) {
      assert TaskOk(s, i);
      SameCollectors(s, s', i);
    }
    LocksKeep(s, s');
  }

  lemma {:induction false} PushAllIs(s: Sched, ws: seq<nat>)
    requires InRange(s) && AllBelow(ws, |s.tasks|)
    ensures var r := PushAll(s, ws);
            && r == s.(tasks := r.tasks, rq := s.rq + ws)
            && forall i :: 0 <= i < |s.tasks| ==>
                 r.tasks[i] == (if i in ws then s.tasks[i].(state := Ready) else s.tasks[i])
    decreases |ws|
  {
    if ws != [] {
      PushAllIs(Push(s, ws[0]), ws[1..]);
      assert ws == [ws[0]] + ws[1..];
      assert s.rq + ws == (s.rq + [ws[0]]) + ws[1..];
    } else {
      assert s.rq + ws == s.rq;
    }
  }

  lemma CompleteIs(s: Sched)
    requires InRange(s)
    ensures var me, c := s.current, Complete(s);
            var ws := s.tasks[me].waiters;
            && c == s.(tasks := c.tasks, rq := s.rq + ws, zombies := [me] + s.zombies)
            && forall i :: 0 <= i < |s.tasks| ==>
                 var done := if i == me then s.tasks[i].(state := Done, waiters := []) else s.tasks[i];
                 c.tasks[i] == if i in ws then done.(state := Ready) else done
  {
    var me := s.current;
    PushAllIs(s.(tasks := s.tasks[me := s.tasks[me].(state := Done, waiters := [])]), s.tasks[me].waiters);
  }

  lemma CompleteTask(s: Sched, i: nat)
    requires Inv(s) && s.current != 0 && s.tasks[s.current].pc.Code? && i < |s.tasks|
    ensures TaskOk(Complete(s), i)
  {
    var me, s' := s.current, Complete(s);
    var ws := s.tasks[me].waiters;
    CompleteIs(s);
    assert TaskOk(s, me) && TaskOk(s, i);
    SameCollectors(s, s', i);
    if i != me {
      forall k | 0 <= k < |s.tasks[i].waiters| ensures s.tasks[i].waiters[k] !in ws {
      }
    }
  }

  lemma CompleteKeeps(s: Sched)
    requires Inv(s) && s.current != 0 && s.tasks[s.current].pc.Code?
    ensures Core(Complete(s)) && Complete(s).tasks[s.current].state.Done?
  {
    var me, s' := s.current, Complete(s);
    var ws := s.tasks[me].waiters;
    CompleteIs(s);
    assert TaskOk(s, me) && TaskOk(s, 0);
    forall i | 0 <= i < |s.tasks| ensures TaskOk(s', i) {
      CompleteTask(s, i);
    }
    forall w | w in ws ensures w !in s.rq {
      assert TaskOk(s, w);
    }
    LocksKeep(s, s');
  }

  lemma FinishKeeps(s: Sched, log: seq<Completion>)
    requires Inv(s) && s.current != 0 && s.tasks[s.current].pc.Code? && PicksWith(Complete(s), log)
    ensures Finish(s, log).Went? ==> Inv(Finish(s, log).s)
    ensures Finish(s, log).Deadlock? ==> Core(Finish(s, log).s)
  {
    CompleteKeeps(s);
    DeliverKeeps(Complete(s), log);
    var d := Deliver(Complete(s), log);
    assert Complete(s).current == s.current by { CompleteIs(s); }
    if d.rq != [] {
      SwitchForGoodKeeps(d);
      ReapKeeps(SwitchForGood(d));
    }
  }

  /** No slot that somebody still awaits, or that is not done, is ever handed back. */
  lemma AwaitKeeps(s: Sched, handle: int, log: seq<Completion>)
    requires Inv(s) && s.tasks[s.current].pc.Code?
    requires AwaitAnswer(s, handle).Parks? ==> PicksWith(Park(s, Resolve(s, handle).value), log)
    ensures Await(s, handle, log).Went? ==> Inv(Await(s, handle, log).s)
    ensures Await(s, handle, log).Deadlock? ==> Core(Await(s, handle, log).s)
  {
    match AwaitAnswer(s, handle)
    case Parks =>
      ParkKeeps(s, Resolve(s, handle).value);
      BlockKeeps(Park(s, Resolve(s, handle).value), log);
    case Success =>
      var t := Resolve(s, handle).value;
      assert TaskOk(s, t) && TaskOk(s, 0);
      if s.tasks[t].njoiners == 0 {
        assert Collectors(s, t) == {};
        RetireKeeps(s, t);
      }
    case _ =>
  }

  ghost predicate Collecting(s: Sched) {
    && s.current < |s.tasks| && s.tasks[s.current].pc.Collect?
    && s.tasks[s.current].pc.target < |s.tasks|
    && s.tasks[s.tasks[s.current].pc.target].njoiners > 0
  }

  lemma CollectingIs(s: Sched)
    requires Inv(s) && s.tasks[s.current].pc.Collect?
    ensures Collecting(s) && s.tasks[s.tasks[s.current].pc.target].state.Done?
    ensures s.current in Collectors(s, s.tasks[s.current].pc.target)
  {
    assert TaskOk(s, s.current);
    assert TaskOk(s, s.tasks[s.current].pc.target);
    assert s.current in Collectors(s, s.tasks[s.current].pc.target);
  }

  /** The awaiter has come back, its join no longer counted. */
  ghost function Rejoined(s: Sched): (r: Sched)
    requires Collecting(s)
    ensures |r.tasks| == |s.tasks|
  {
    var t := s.tasks[s.current].pc.target;
    var back := s.tasks[s.current := s.tasks[s.current].(pc := Code)];
    s.(tasks := back[t := back[t].(njoiners := back[t].njoiners - 1)])
  }

  lemma RejoinedTask(s: Sched, i: nat)
    requires Inv(s) && s.tasks[s.current].pc.Collect? && i < |s.tasks|
    ensures Collecting(s) && TaskOk(Rejoined(s), i)
  {
    CollectingIs(s);
    var me, t := s.current, s.tasks[s.current].pc.target;
    assert TaskOk(s, i) && TaskOk(s, me) && TaskOk(s, t);
    if i == t {
      assert Collectors(Rejoined(s), t) == Collectors(s, t) - {me};
    } else {
      assert Collectors(Rejoined(s), i) == Collectors(s, i);
    }
    forall k | 0 <= k < |s.tasks[i].waiters| ensures s.tasks[i].waiters[k] != me {
    }
  }

  lemma CollectKeeps(s: Sched)
    requires Inv(s) && s.tasks[s.current].pc.Collect?
    ensures Collecting(s) && Inv(CollectJoin(s))
  {
    CollectingIs(s);
    var t, left := s.tasks[s.current].pc.target, Rejoined(s);
    assert TaskOk(s, s.current) && TaskOk(s, t) && TaskOk(s, 0);
    forall i | 0 <= i < |s.tasks| ensures TaskOk(left, i) {
      RejoinedTask(s, i);
    }
    LocksKeep(s, left);
    if left.tasks[t].njoiners == 0 {
      assert TaskOk(left, t);
      assert |Collectors(left, t)| == 0;
      RetireKeeps(left, t);
    }
  }

  /** Detaching is safe where nobody is still to collect the task. */
  lemma DetachKeeps(s: Sched, handle: int)
    requires Inv(s) && s.tasks[s.current].pc.Code?
    requires DetachAnswer(s, handle).Success? ==> s.tasks[Resolve(s, handle).value].njoiners == 0
    ensures Inv(Detach(s, handle))
  {
    if DetachAnswer(s, handle).Success? {
      var t := Resolve(s, handle).value;
      var d := s.(tasks := s.tasks[t := s.tasks[t].(detached := true)]);
      assert TaskOk(s, t) && TaskOk(s, 0);
      assert Collectors(s, t) == {};
      forall i | 0 <= i < |d.tasks| && (i == t ==> !s.tasks[t].state.Done?) ensures TaskOk(d, i) {
        assert TaskOk(s, i);
        SameCollectors(s, d, i);
        NotCollected(s, t, i);
      }
      LocksKeep(s, d);
      SameCollectors(s, d, t);
      if d.tasks[t].state.Done? {
        RetireKeeps(d, t);
      }
    }
  }

  /** A slot taken for a new task, on no list yet. */
  ghost predicate Allocated(a: Sched, t: nat) {
    && CoreBut(a, {t}) && a.zombies == [] && a.tasks[a.current].state.Running?
    && 0 < t < |a.tasks| && t != a.current && t !in a.rq && t !in a.free && t !in a.out
    && Collectors(a, t) == {}
    && var k := a.tasks[t];
       && k.pc.Code? && k.waiters == [] && k.njoiners == 0 && !k.detached && k.usp == k.want
       && k.gen == 1 + k.epoch % GEN_MASK && k.born == k.epoch + 1
  }

  lemma ReuseKeeps(s: Sched, m: Memory, usp: int)
    requires Inv(s) && s.free != []
    ensures Allocated(SlotAlloc(s, m, usp).0, s.free[0])
  {
    var a, t := SlotAlloc(s, m, usp).0, s.free[0];
    HeadAndTail(s.free);
    assert t in s.free && TaskOk(s, t) && TaskOk(s, 0) && TaskOk(s, s.current);
    forall i | 0 <= i < |a.tasks| && i != t ensures TaskOk(a, i) {
      assert TaskOk(s, i);
      SameCollectors(s, a, i);
    }
    NobodyCollects(s, t);
    SameCollectors(s, a, t);
    LocksKeep(s, a);
  }

  lemma ExtendKeeps(s: Sched, m: Memory, usp: int)
    requires Inv(s) && s.free == [] && !NoSlot(s, m)
    ensures Allocated(SlotAlloc(s, m, usp).0, |s.tasks|)
  {
    var a, t := SlotAlloc(s, m, usp).0, |s.tasks|;
    forall w | 0 <= w < |s.tasks| ensures s.tasks[w].pc != Collect(t) {
      assert TaskOk(s, w);
    }
    forall i | 0 <= i < |s.tasks| ensures TaskOk(a, i) {
      assert TaskOk(s, i);
      assert Collectors(a, i) == Collectors(s, i);
    }
    LocksKeep(s, a);
  }

  lemma NoSlotKeeps(s: Sched, m: Memory, usp: int)
    requires Inv(s) && NoSlot(s, m)
    ensures Inv(SlotAlloc(s, m, usp).0)
  {
    var a := SlotAlloc(s, m, usp).0;
    forall i | 0 <= i < |s.tasks| ensures TaskOk(a, i) {
      assert TaskOk(s, i);
      SameCollectors(s, a, i);
    }
    LocksKeep(s, a);
  }

  lemma QueueNewKeeps(a: Sched, t: nat)
    requires Allocated(a, t)
    ensures Inv(Push(a, t))
  {
    var p := Push(a, t);
    forall i | 0 <= i < |p.tasks| ensures TaskOk(p, i) {
      SameCollectors(a, p, i);
      if i != t {
        assert TaskOk(a, i);
        NotCollected(a, t, i);
      }
    }
    LocksKeep(a, p);
  }

  lemma SpawnKeeps(s: Sched, m: Memory, usp: int)
    requires Inv(s)
    ensures Inv(Spawn(s, m, usp).0)
  {
    var (a, slot) := SlotAlloc(s, m, usp);
    if slot.None? {
      NoSlotKeeps(s, m, usp);
    } else {
      if s.free != [] { ReuseKeeps(s, m, usp); } else { ExtendKeeps(s, m, usp); }
      if m.stacks { QueueNewKeeps(a, slot.value); } else { RetireKeeps(a, slot.value); }
    }
  }

  // ---------- thread locks ----------

  /** The queued waiter `w` is one that a release of `lock` looks past. */
  ghost predicate PassedOver(s: Sched, lock: nat, w: LockWait) {
    w.lock != lock || w.task >= |s.tasks| || !s.tasks[w.task].state.Ready? || w.task !in s.rq
  }

  lemma {:induction false} FirstWaitingIs(s: Sched, lock: nat, q: seq<LockWait>)
    ensures match FirstWaiting(s, lock, q)
            case Some(t) =>
              exists k :: 0 <= k < |q| && q[k] == LockWait(lock, t) && !PassedOver(s, lock, q[k])
                          && forall j :: 0 <= j < k ==> PassedOver(s, lock, q[j])
            case None =>
              forall k :: 0 <= k < |q| ==> PassedOver(s, lock, q[k])
  {
    if q != [] {
      FirstWaitingIs(s, lock, q[1..]);
      assert q == [q[0]] + q[1..];
      if !PassedOver(s, lock, q[0]) {
        assert q[0] == LockWait(lock, q[0].task);
      } else if FirstWaiting(s, lock, q).Some? {
        var t := FirstWaiting(s, lock, q).value;
        var k :| 0 <= k < |q[1..]| && q[1..][k] == LockWait(lock, t) && !PassedOver(s, lock, q[1..][k])
                 && forall j :: 0 <= j < k ==> PassedOver(s, lock, q[1..][j]);
        assert q[k + 1] == LockWait(lock, t);
        forall j | 0 <= j < k + 1 ensures PassedOver(s, lock, q[j]) {
          if j > 0 { assert q[j] == q[1..][j - 1]; }
        }
      }
    }
  }

  lemma UnlockKeeps(s: Sched, lock: nat)
    requires Inv(s)
    ensures Inv(Unlock(s, lock))
  {
    var u := s.(held := GivenBack(s.held, lock));
    HeldAside(s, u);
    match FirstWaiting(u, lock, u.lockq)
    case None =>
    case Some(t) => HandoffKeeps(u, t);
  }

  /** Who holds which lock is beside everything else. */
  lemma HeldAside(s: Sched, u: Sched)
    requires Inv(s) && u == s.(held := u.held)
    requires HeldOk(u.held, |s.tasks|)
    ensures Inv(u)
  {
    forall i | 0 <= i < |u.tasks| ensures TaskOk(u, i) {
      assert TaskOk(s, i);
      SameCollectors(s, u, i);
    }
    forall k | 0 <= k < |u.lockq| ensures QueuedOk(u, k) {
      assert QueuedOk(s, k);
    }
  }

  lemma EnqueueKeeps(s: Sched, lock: nat)
    requires Inv(s) && (s.tasks[s.current].pc.Code? || s.tasks[s.current].pc == Retry(lock))
    ensures Inv(Enqueue(s, lock)) && Enqueue(s, lock).tasks[s.current].pc == Retry(lock)
  {
    var s' := Enqueue(s, lock);
    if s.tasks[s.current].pc.Code? {
      forall k | 0 <= k < |s'.lockq| ensures QueuedOk(s', k) {
        if k < |s.lockq| { assert QueuedOk(s, k); }
      }
      forall j | 0 <= j < |s.lockq| ensures s.lockq[j].task != s.current {
        assert QueuedOk(s, j);
      }
      forall i | 0 <= i < |s'.tasks| ensures TaskOk(s', i) {
        assert TaskOk(s, i) && TaskOk(s, s.current);
        assert Collectors(s', i) == Collectors(s, i);
      }
    }
  }

  lemma {:induction false} DropWaiterIs(q: seq<LockWait>, t: nat)
    requires forall j, k :: 0 <= j < k < |q| ==> q[j].task != q[k].task
    ensures var r := DropWaiter(q, t);
            && (forall w :: w in r <==> w in q && w.task != t)
            && (forall j, k :: 0 <= j < k < |r| ==> r[j].task != r[k].task)
  {
    if q != [] {
      assert q == [q[0]] + q[1..];
      if q[0].task != t {
        DropWaiterIs(q[1..], t);
        assert forall k :: 0 <= k < |DropWaiter(q[1..], t)| ==> DropWaiter(q[1..], t)[k] in q[1..];
      } else {
        forall w | w in q[1..] ensures w.task != t {
        }
      }
    }
  }

  lemma DequeueKeeps(s: Sched)
    requires Inv(s)
    ensures Inv(Dequeue(s))
    ensures s.tasks[s.current].pc.Retry? ==> Dequeue(s).tasks[s.current].pc.Code?
  {
    var s' := Dequeue(s);
    if s.tasks[s.current].pc.Retry? {
      DropWaiterIs(s.lockq, s.current);
      forall k | 0 <= k < |s'.lockq| ensures QueuedOk(s', k) {
        assert s'.lockq[k] in s'.lockq;
        var j :| 0 <= j < |s.lockq| && s.lockq[j] == s'.lockq[k];
        assert QueuedOk(s, j);
      }
      forall i | 0 <= i < |s'.tasks| ensures TaskOk(s', i) {
        assert TaskOk(s, i) && TaskOk(s, s.current);
        assert Collectors(s', i) == Collectors(s, i);
      }
    }
  }

  lemma SetUspKeeps(s: Sched, v: int)
    requires Inv(s)
    ensures Inv(s.(tls := v, tasks := s.tasks[s.current := s.tasks[s.current].(want := v)]))
  {
    var u := s.(tls := v, tasks := s.tasks[s.current := s.tasks[s.current].(want := v)]);
    forall i | 0 <= i < |u.tasks| ensures TaskOk(u, i) {
      assert TaskOk(s, i) && TaskOk(s, s.current);
      SameCollectors(s, u, i);
    }
    LocksKeep(s, u);
  }
}
