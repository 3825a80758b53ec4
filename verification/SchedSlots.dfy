/** Slots, generations and handles over whole runs, and what becomes of awaiters. */
module SchedSlots {
  import opened Runs
  import opened SchedModel
  import opened SchedInvariant
  import opened SchedRuns

  /** A handle is a positive 31-bit number, and unpacks to the slot and generation it was made of. */
  lemma HandleRoundTrips(gen: nat, idx: nat)
    requires 1 <= gen <= GEN_MASK && idx < IDX_SPAN
    ensures var h := Handle(gen, idx);
            0 < h < 0x8000_0000 && h % IDX_SPAN == idx && (h / IDX_SPAN) % (GEN_MASK + 1) == gen
  {
  }

  lemma HandlesDiffer(g: nat, i: nat, g': nat, i': nat)
    requires i < IDX_SPAN && i' < IDX_SPAN && Handle(g, i) == Handle(g', i')
    ensures g == g' && i == i'
  {
  }

  /** The handle of slot `i` names it, as long as it is in use. */
  function HandleOf(s: Sched, i: nat): int
    requires i < |s.tasks|
  {
    Handle(s.tasks[i].gen, i)
  }

  lemma ResolveIs(s: Sched, gen: nat, i: nat)
    requires Inv(s) && 1 <= gen <= GEN_MASK && i < IDX_SPAN
    ensures Resolve(s, Handle(gen, i)) == (if i < |s.tasks| && s.tasks[i].gen == gen && !s.tasks[i].state.Free? then Some(i) else None)
  {
    HandleRoundTrips(gen, i);
  }

  /** Any number that resolves at all is, up to the bits no handle has, the handle of what it names. */
  lemma ResolvesOnlyHandles(s: Sched, handle: int)
    requires Inv(s) && handle < 0x8000_0000
    ensures match Resolve(s, handle)
            case Some(i) => i < |s.tasks| && handle == HandleOf(s, i) && !s.tasks[i].state.Free?
            case None => forall i :: 0 <= i < |s.tasks| && handle == HandleOf(s, i) ==> s.tasks[i].state.Free?
  {
    forall i | 0 <= i < |s.tasks| && handle == HandleOf(s, i)
      ensures Resolve(s, handle) == (if s.tasks[i].state.Free? then None else Some(i)) {
      assert TaskOk(s, i);
      ResolveIs(s, s.tasks[i].gen, i);
    }
    if Resolve(s, handle).Some? {
      var i := Resolve(s, handle).value;
      assert TaskOk(s, i);
      assert handle == (handle / IDX_SPAN) * IDX_SPAN + handle % IDX_SPAN;
      assert 0 <= handle / IDX_SPAN < GEN_MASK + 1;
    }
  }

  /** The slot in use that a handle names, if any. */
  ghost predicate Names(s: Sched, handle: int, i: nat) {
    i < |s.tasks| && !s.tasks[i].state.Free? && handle == HandleOf(s, i)
  }

  lemma ResolvesToNamed(s: Sched, handle: int)
    requires Inv(s) && handle < 0x8000_0000
    ensures forall i: nat :: Names(s, handle, i) <==> Resolve(s, handle) == Some(i)
  {
    ResolvesOnlyHandles(s, handle);
    forall i: nat | Names(s, handle, i) ensures Resolve(s, handle) == Some(i) {
      var j := Resolve(s, handle).value;
      HandlesDiffer(s.tasks[i].gen, i, s.tasks[j].gen, j);
    }
  }

  /** What await answers is decided by whom the handle names: nobody, the caller, a task let go, one that
      has finished, or one the caller parks for; only the last two change anything. */
  lemma AwaitDecides(s: Sched, handle: int, log: seq<Completion>)
    requires Inv(s) && handle < 0x8000_0000
    requires AwaitAnswer(s, handle).Parks? ==> PicksWith(Park(s, Resolve(s, handle).value), log)
    ensures var a := AwaitAnswer(s, handle);
            && (a.WouldDeadlock? <==> Names(s, handle, s.current))
            && (a.Invalid? <==> forall i: nat :: Names(s, handle, i) ==> i != s.current && s.tasks[i].detached)
            && (a.Success? <==> exists i: nat :: Names(s, handle, i) && i != s.current && !s.tasks[i].detached && s.tasks[i].state.Done?)
            && (a.WouldDeadlock? || a.Invalid? ==> Await(s, handle, log) == Went(s))
  {
    ResolvesToNamed(s, handle);
  }

  /** Detach is accepted exactly for a task in use, not the caller and not let go before; refused it
      changes nothing. */
  lemma DetachDecides(s: Sched, handle: int)
    requires Inv(s) && handle < 0x8000_0000
    ensures DetachAnswer(s, handle).Success? <==> exists i: nat :: Names(s, handle, i) && i != s.current && !s.tasks[i].detached
    ensures !DetachAnswer(s, handle).Success? ==> DetachAnswer(s, handle).Invalid? && Detach(s, handle) == s
  {
    ResolvesToNamed(s, handle);
  }

  // ---------- how one step changes the life of a slot ----------

  /** A slot is retired at most once in a step and is free after it. While it is free it only
      starts another life. */
  ghost predicate Aged(s: Sched, s': Sched, i: nat)
    requires i < |s.tasks| && i < |s'.tasks|
  {
    var t, t' := s.tasks[i], s'.tasks[i];
    || t'.epoch == t.epoch
    || (t'.epoch == t.epoch + 1 && t'.state.Free?)
  }

  lemma {:induction false} DeliverAges(s: Sched, log: seq<Completion>, i: nat)
    requires Core(s) && Deliverable(s, log) && i < |s.tasks|
    ensures Deliver(s, log).tasks[i].epoch == s.tasks[i].epoch && Deliver(s, log).tasks[i].pc == s.tasks[i].pc
    ensures Deliver(s, log).tasks[i].want == s.tasks[i].want && Deliver(s, log).tls == s.tls
    decreases |log|
  {
    if log != [] {
      Deliver1Keeps(s, log[0]);
      DeliverAges(Deliver1(s, log[0]), log[1..], i);
    }
  }

  lemma ReapAges(s: Sched, s0: Sched, i: nat)
    requires Core(s) && i < |s.tasks| == |s0.tasks| && s.tasks[i].epoch == s0.tasks[i].epoch
    ensures Aged(s0, Reap(s), i)
    ensures Reap(s).tasks[i].pc == s.tasks[i].pc && Reap(s).tasks[i].want == s.tasks[i].want
    ensures Reap(s).tls == s.tls && Reap(s).current == s.current
  {
    if s.zombies != [] {
      assert ReapList(s.(zombies := []), s.zombies) == ReapOne(s.(zombies := []), s.zombies[0]);
    }
  }

  lemma BlockAges(s: Sched, log: seq<Completion>, i: nat)
    requires Core(s) && s.zombies == [] && PicksWith(s, log) && !s.tasks[s.current].state.Running? && i < |s.tasks|
    requires Block(s, log).Went?
    ensures var r := Block(s, log).s;
            Aged(s, r, i) && r.tasks[i].pc == s.tasks[i].pc && r.tasks[i].want == s.tasks[i].want
  {
    DeliverKeeps(s, log);
    DeliverAges(s, log, i);
    var d := Deliver(s, log);
    SwitchAwayKeeps(d);
    SwitchAwayAges(d, i);
    hide SwitchAway, CoreBut;
    ReapAges(SwitchAway(d), s, i);
  }

  lemma SwitchAwayAges(d: Sched, i: nat)
    requires InRange(d) && d.rq != [] && i < |d.tasks|
    ensures var k := SwitchAway(d).tasks[i];
            k.epoch == d.tasks[i].epoch && k.pc == d.tasks[i].pc && k.want == d.tasks[i].want
  {
  }

  lemma CompleteAges(s: Sched, i: nat)
    requires Inv(s) && i < |s.tasks|
    ensures var c := Complete(s).tasks[i];
            c.epoch == s.tasks[i].epoch && c.pc == s.tasks[i].pc && c.want == s.tasks[i].want
  {
    CompleteIs(s);
  }

  /** From a finished task's hand-over on: the polls, the switch, and the reaping on the far side. */
  lemma LeaveAges(c: Sched, log: seq<Completion>, i: nat)
    requires Core(c) && c.tasks[c.current].state.Done? && PicksWith(c, log) && Deliver(c, log).rq != []
    requires i < |c.tasks|
    ensures var r := Reap(SwitchForGood(Deliver(c, log)));
            Aged(c, r, i) && r.tasks[i].pc == c.tasks[i].pc && r.tasks[i].want == c.tasks[i].want
  {
    DeliverKeeps(c, log);
    DeliverAges(c, log, i);
    var d := Deliver(c, log);
    SwitchForGoodKeeps(d);
    ReapAges(SwitchForGood(d), c, i);
  }

  lemma FinishAges(s: Sched, log: seq<Completion>, i: nat)
    requires Inv(s) && Enabled(s, FinishTask(log)) && Finish(s, log).Went? && i < |s.tasks|
    ensures StepsOver(s, Finish(s, log).s, i)
  {
    CompleteKeeps(s);
    CompleteAges(s, i);
    assert Complete(s).current == s.current by { CompleteIs(s); }
    LeaveAges(Complete(s), log, i);
  }

  /** The slot of a task that is not running, seen across one step. */
  ghost predicate StepsOver(s: Sched, s': Sched, i: nat)
    requires i < |s.tasks|
  {
    && |s'.tasks| >= |s.tasks| && Aged(s, s', i)
    && (i != s.current && !s.tasks[i].state.Free? ==>
          s'.tasks[i].pc == s.tasks[i].pc && s'.tasks[i].want == s.tasks[i].want)
  }

  lemma SpawnAges(s: Sched, m: Memory, usp: int, i: nat)
    requires Inv(s) && i < |s.tasks|
    ensures StepsOver(s, Spawn(s, m, usp).0, i)
  {
    if s.free != [] { assert s.free[0] in s.free; assert TaskOk(s, s.free[0]); }
  }

  lemma AwaitAges(s: Sched, h: int, log: seq<Completion>, i: nat)
    requires Inv(s) && Enabled(s, AwaitTask(h, log)) && Await(s, h, log).Went? && i < |s.tasks|
    ensures StepsOver(s, Await(s, h, log).s, i)
  {
    if AwaitAnswer(s, h).Parks? {
      ParkKeeps(s, Resolve(s, h).value);
      BlockAges(Park(s, Resolve(s, h).value), log, i);
    }
  }

  lemma CollectAges(s: Sched, i: nat)
    requires Inv(s) && Collecting(s) && i < |s.tasks|
    ensures StepsOver(s, CollectJoin(s), i)
  {
  }

  lemma ReleaseAges(s: Sched, l: nat, i: nat)
    requires Inv(s) && i < |s.tasks|
    ensures StepsOver(s, Unlock(s, l), i)
  {
  }

  lemma YieldAges(s: Sched, log: seq<Completion>, i: nat)
    requires Inv(s) && Deliverable(s, log) && i < |s.tasks|
    ensures StepsOver(s, Yield(s, log), i) && StepsOver(s, Deliver(s, log), i)
  {
    DeliverAges(s, log, i);
    DeliverKeeps(s, log);
  }

  lemma StepAges(s: Sched, op: Op, s': Sched, i: nat)
    requires Inv(s) && Step(s, op, s') && i < |s.tasks|
    ensures StepsOver(s, s', i)
  {
    hide Core, PicksWith;
    match op
    case YieldTo(log) => YieldAges(s, log, i);
    case Poll(log) => YieldAges(s, log, i);
    case AwaitTask(h, log) => AwaitAges(s, h, log, i);
    case StartIo(log) => SubmitKeeps(s); BlockAges(Submit(s), log, i);
    case FinishTask(log) => FinishAges(s, log, i);
    case CollectTask => CollectAges(s, i);
    case SpawnTask(m, usp) => SpawnAges(s, m, usp, i);
    case Release(l) => ReleaseAges(s, l, i);
    case _ =>
  }

  lemma {:induction false} RunAges(ss: seq<Sched>, ops: seq<Op>, m: nat, n: nat, i: nat)
    requires IsRun(Step, ss, ops) && Inv(ss[0]) && m <= n <= |ops| && i < |ss[m].tasks|
    ensures i < |ss[n].tasks| && ss[n].tasks[i].epoch >= ss[m].tasks[i].epoch
    decreases n
  {
    if m < n {
      RunAges(ss, ops, m, n - 1, i);
      RunKeeps(ss, ops, n - 1);
      assert Step(ss[n - 1], ops[n - 1], ss[n]);
      StepAges(ss[n - 1], ops[n - 1], ss[n], i);
    }
  }

  lemma SameResidue(e: nat, e': nat)
    requires e <= e'
    ensures e % GEN_MASK == e' % GEN_MASK <==> (e' - e) % GEN_MASK == 0
  {
    assert e == GEN_MASK * (e / GEN_MASK) + e % GEN_MASK;
    assert e' == GEN_MASK * (e' / GEN_MASK) + e' % GEN_MASK;
    var q := (e' - e) / GEN_MASK;
    assert e' - e == GEN_MASK * q + (e' - e) % GEN_MASK;
  }

  /** A handle taken at one point of a run is honoured at a later one exactly where its slot is in
      use and has been retired, in between, a multiple of 2047 times (none at all, usually): no
      other retired handle is ever answered with what now occupies the slot. */
  lemma StaleHandlesRefused(ss: seq<Sched>, ops: seq<Op>, m: nat, n: nat, i: nat)
    requires IsRun(Step, ss, ops) && Inv(ss[0]) && m <= n <= |ops| && i < |ss[m].tasks|
    ensures i < |ss[n].tasks| && ss[n].tasks[i].epoch >= ss[m].tasks[i].epoch
    ensures var retired := ss[n].tasks[i].epoch - ss[m].tasks[i].epoch;
            Resolve(ss[n], HandleOf(ss[m], i)) ==
            (if !ss[n].tasks[i].state.Free? && retired % GEN_MASK == 0 then Some(i) else None)
  {
    RunKeeps(ss, ops, m);
    RunKeeps(ss, ops, n);
    RunAges(ss, ops, m, n, i);
    assert TaskOk(ss[m], i) && TaskOk(ss[n], i);
    ResolveIs(ss[n], ss[m].tasks[i].gen, i);
    SameResidue(ss[m].tasks[i].epoch, ss[n].tasks[i].epoch);
  }

  /** The main task running, and a new task in slot 1, which has been retired `k` times before. */
  function Life(k: nat): Sched {
    Started(0).(tasks := [Started(0).tasks[0], Born(k)], rq := [1], live := 2)
  }

  function Born(k: nat): Task {
    Fresh(1 + k % GEN_MASK, k, k + 1, 0).(state := Ready)
  }

  function LetGo(k: nat): Sched {
    Life(k).(tasks := [Started(0).tasks[0], Born(k).(detached := true)])
  }

  function LastTurn(k: nat): Sched {
    Life(k).(tasks := [Started(0).tasks[0].(state := Ready), Born(k).(detached := true, state := Running)], current := 1, rq := [0])
  }

  /** Between two lives of the slot. */
  function Between(k: nat): Sched {
    Life(k).(tasks := [Started(0).tasks[0], Born(k).(detached := true, state := Free, gen := 1 + (k + 1) % GEN_MASK, epoch := k + 1)],
             rq := [], free := [1], live := 1)
  }

  lemma FirstLife()
    ensures Step(Started(0), SpawnTask(ROOM, 0), Life(0))
  {
  }

  lemma LifeEnds(k: nat)
    ensures Step(Life(k), DetachTask(Handle(1 + k % GEN_MASK, 1)), LetGo(k)) && Step(LetGo(k), YieldTo([]), LastTurn(k))
  {
    HandleRoundTrips(1 + k % GEN_MASK, 1);
    assert Resolve(Life(k), Handle(1 + k % GEN_MASK, 1)) == Some(1);
    assert Detach(Life(k), Handle(1 + k % GEN_MASK, 1)).tasks == LetGo(k).tasks;
  }

  lemma LifeReaped(k: nat)
    ensures Step(LastTurn(k), FinishTask([]), Between(k))
  {
    CompleteIs(LastTurn(k));
    var c := Complete(LastTurn(k));
    assert c == LastTurn(k).(tasks := c.tasks, zombies := [1]) && c.tasks[1] == Born(k).(detached := true, state := Done);
    var g := SwitchForGood(c);
    var u := g.(zombies := []);
    assert ReapList(u, [1]) == Retire(u, 1);
    GenerationMoves(k);
    assert Retire(u, 1).tasks == Between(k).tasks;
  }

  lemma GenerationMoves(k: nat)
    ensures NextGen(1 + k % GEN_MASK) == 1 + (k + 1) % GEN_MASK
  {
  }

  lemma NextLife(k: nat)
    ensures Step(Between(k), SpawnTask(ROOM, 0), Life(k + 1))
  {
    var a := SlotAlloc(Between(k), ROOM, 0).0;
    assert Push(a, 1).tasks == Life(k + 1).tasks;
  }

  /** Spawning, detaching, running and finishing: slot 1 lives on and on. */
  lemma {:induction false} LivesOn(k: nat)
    ensures Reaches(Step, Life(0), Life(k))
  {
    if k == 0 {
      AtOnce(Step, Life(0));
    } else {
      var j := k - 1;
      LivesOn(j);
      LifeEnds(j);
      LifeReaped(j);
      NextLife(j);
      Further(Step, Life(0), Life(j), DetachTask(Handle(1 + j % GEN_MASK, 1)), LetGo(j));
      Further(Step, Life(0), LetGo(j), YieldTo([]), LastTurn(j));
      Further(Step, Life(0), LastTurn(j), FinishTask([]), Between(j));
      Further(Step, Life(0), Between(j), SpawnTask(ROOM, 0), Life(k));
    }
  }

  /** And its first handle does come to be honoured again: there is a run that retires the slot `k`
      times, for every `k`, and where that is a multiple of 2047 the handle names the new task. */
  lemma HandleComesRound(k: nat)
    ensures Reachable(Life(0)) && Reaches(Step, Life(0), Life(k)) && Life(k).tasks[1].epoch == Life(0).tasks[1].epoch + k
    ensures Resolve(Life(k), HandleOf(Life(0), 1)) == (if k % GEN_MASK == 0 then Some(1) else None)
    ensures Resolve(Life(GEN_MASK), HandleOf(Life(0), 1)) == Some(1)
  {
    FirstLife();
    AtOnce(Step, Started(0));
    Further(Step, Started(0), Started(0), SpawnTask(ROOM, 0), Life(0));
    LivesOn(k);
    HandleRoundTrips(1, 1);
  }

  // ---------- retiring ----------

  /** Every allocation of a slot is retired once, or not yet. */
  lemma RetiredOnce(s: Sched, i: nat)
    requires Reachable(s) && i < |s.tasks|
    ensures s.tasks[i].born == s.tasks[i].epoch + (if s.tasks[i].state.Free? then 0 else 1)
    ensures NoDup(s.free) && s.live + |s.free| == |s.tasks|
  {
    ReachableInv(s);
    assert TaskOk(s, i);
  }

  /** A finished task puts all that wait for it on the run queue, the latest to wait first. */
  lemma FinishWakesAll(s: Sched)
    requires Inv(s) && s.current != 0 && s.tasks[s.current].pc.Code?
    ensures var c := Complete(s);
            && c.rq == s.rq + s.tasks[s.current].waiters
            && forall w :: w in Collectors(s, s.current) ==> w in s.tasks[s.current].waiters && c.tasks[w].state.Ready?
  {
    CompleteIs(s);
    forall w | w in Collectors(s, s.current) ensures w in s.tasks[s.current].waiters {
      assert TaskOk(s, w);
    }
  }

  /** Of those that await a task the latest is woken first: it parks ahead of all before it. */
  lemma LatestAwaiterFirst(s: Sched, t: nat, u: nat)
    requires MayPark(s, t) && u in s.tasks[t].waiters
    ensures var ws := Park(s, t).tasks[t].waiters;
            exists j, k :: 0 <= j < k < |ws| && ws[j] == s.current && ws[k] == u
    ensures |Park(s, t).tasks[t].waiters| == |s.tasks[t].waiters| + 1
  {
    var i :| 0 <= i < |s.tasks[t].waiters| && s.tasks[t].waiters[i] == u;
    var ws := Park(s, t).tasks[t].waiters;
    assert ws == [s.current] + s.tasks[t].waiters;
    assert ws[0] == s.current && ws[i + 1] == u;
  }

  /** The slot an awaiter has yet to collect is not retired under it, whatever else happens: the
      task it returns from is the one it awaited. */
  lemma SlotHeldForAwaiter(s: Sched, op: Op, s': Sched, w: nat, t: nat)
    requires Inv(s) && Step(s, op, s') && w in Collectors(s, t) && !(op.CollectTask? && w == s.current)
    ensures w in Collectors(s', t) && t < |s.tasks| <= |s'.tasks| && s'.tasks[t].epoch == s.tasks[t].epoch && !s'.tasks[t].state.Free?
  {
    StepKeeps(s, op);
    assert TaskOk(s, w);
    StepAges(s, op, s', w);
    StepAges(s, op, s', t);
    if w == s.current {
      CollectingStays(s, op, s');
    }
    assert TaskOk(s', w);
  }

  /** An awaiter that is back runs nothing of its own before it collects. */
  lemma CollectingStays(s: Sched, op: Op, s': Sched)
    requires Inv(s) && Step(s, op, s') && s.tasks[s.current].pc.Collect? && !op.CollectTask?
    ensures ByOthers(op)
    ensures s'.tasks[s.current].pc == s.tasks[s.current].pc
  {
  }

  /** However many tasks await one, the last of them to collect hands its slot back, and no other. */
  lemma LastCollectorRetires(s: Sched)
    requires Inv(s) && s.tasks[s.current].pc.Collect?
    ensures Collecting(s)
    ensures var t := s.tasks[s.current].pc.target;
            var s' := CollectJoin(s);
            && (t in s'.free <==> Collectors(s, t) == {s.current})
            && s'.tasks[t].epoch == s.tasks[t].epoch + (if Collectors(s, t) == {s.current} then 1 else 0)
            && Collectors(s', t) == Collectors(s, t) - {s.current} && s'.tasks[t].njoiners == |Collectors(s', t)|
            && s'.tasks[s.current].pc.Code?
  {
    CollectingIs(s);
    var t := s.tasks[s.current].pc.target;
    assert TaskOk(s, t) && TaskOk(s, s.current);
    CollectorLeaves(s);
    OneLess(Collectors(s, t), s.current);
    assert t !in s.free;
    hide Inv, Collectors;
  }

  lemma OneLess(a: set<nat>, x: nat)
    requires x in a
    ensures |a - {x}| == |a| - 1 && (|a| == 1 <==> a == {x})
  {
    assert a == (a - {x}) + {x};
    if |a| == 1 { assert a - {x} == {}; }
  }

  lemma CollectorLeaves(s: Sched)
    requires InRange(s) && Collecting(s) && s.tasks[s.current].pc.target != s.current
    ensures var t := s.tasks[s.current].pc.target;
            var s' := CollectJoin(s);
            && Collectors(s', t) == Collectors(s, t) - {s.current} && s'.tasks[t].njoiners == s.tasks[t].njoiners - 1
            && s'.tasks[s.current].pc.Code? && s'.tasks[t].epoch == s.tasks[t].epoch + (if s.tasks[t].njoiners == 1 then 1 else 0)
            && s'.free == if s.tasks[t].njoiners == 1 then [t] + s.free else s.free
  {
    var s' := CollectJoin(s);
    assert |s'.tasks| == |s.tasks| && s'.tasks[s.current].pc.Code?;
    assert forall i :: 0 <= i < |s.tasks| && i != s.current ==> s'.tasks[i].pc == s.tasks[i].pc;
  }

  /** An await of a finished task answers at once, and leaves it to those still to collect it. */
  lemma LateAwaiter(s: Sched, handle: int, log: seq<Completion>)
    requires Inv(s) && AwaitAnswer(s, handle).Success?
    ensures var t := Resolve(s, handle).value;
            var r := Await(s, handle, log);
            && r.Went? && s.tasks[t].state.Done?
            && (if Collectors(s, t) == {} then r.s == Retire(s, t) && Resolve(r.s, handle).None? else r.s == s)
  {
    var t := Resolve(s, handle).value;
    assert TaskOk(s, t);
    if Collectors(s, t) == {} {
      assert NextGen(s.tasks[t].gen) != s.tasks[t].gen;
    }
  }

  // ---------- the unsafe stack pointer ----------

  /** While another task runs, nobody moves a task's unsafe stack pointer, and it is in place
      whenever the task runs: none ever runs on another's. */
  lemma UspTravels(s: Sched, op: Op, s': Sched, i: nat)
    requires Inv(s) && Step(s, op, s') && i < |s.tasks| && !s.tasks[i].state.Free?
    ensures Inv(s') && s'.tls == s'.tasks[s'.current].want && i < |s'.tasks|
    ensures i != s.current ==> s'.tasks[i].want == s.tasks[i].want
    ensures s'.current == i != s.current ==> s'.tls == s.tasks[i].want
  {
    StepKeeps(s, op);
    StepAges(s, op, s', i);
    assert TaskOk(s, i);
  }
}
