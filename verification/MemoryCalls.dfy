/** The moves of `MemoryRuns` made by the calls that the runtime makes: what the books say over a whole
    run of the scheduler is what `TaskMemory.Memory`, and the kernel's mappings under it, come to. */
module MemoryCalls {
  import opened Runs
  import opened Stacks
  import opened SchedModel
  import opened SchedInvariant
  import opened SchedRuns
  import opened MemoryRuns
  import M = TaskMemory

  /** The runtime's memory is as the world has it, between two steps of the scheduler. */
  ghost predicate Mirrors(mem: M.Memory, w: World)
    reads mem, mem.vm, mem.vm.cache
  {
    mem.Valid() && mem.tasks == w.tasks && mem.zombies == [] && mem.current == w.s.current
  }

  /** A thread's first use of the runtime. */
  method Opens(page: nat, usp: int) returns (mem: M.Memory)
    ensures fresh(mem) && fresh(mem.vm) && fresh(mem.vm.cache) && Mirrors(mem, Begin(usp))
  {
    mem := new M.Memory(page);
  }

  /** A spawn of a task with the environment `env`: where there is a slot for it, one `Async`, whose
      answer is what the scheduler is told of the stacks. */
  method Spawning(mem: M.Memory, w: World, m: Memory, usp: int, env: nat, size: nat, split: bool,
                  at: (Option<int>, Option<int>), opens: (bool, bool)) returns (ghost move: Move, ghost w': World)
    requires Mirrors(mem, w) && Conserved(w) && w.s.tasks[w.s.current].pc.Code?
    requires env !in w.handed && mem.Answers(size, at)
    modifies mem, mem.vm, mem.vm.cache
    ensures move.env == env && move.op.SpawnTask? && move.op == SpawnTask(m.(stacks := move.op.m.stacks), usp)
    ensures at.0.Some? && opens.0 && (split ==> at.1.Some? && opens.1) && SlotAlloc(w.s, m, usp).1.Some? ==> move.op.m.stacks
    ensures Moves(w, move, w') && Mirrors(mem, w')
  {
    Roomy(w, m, usp);
    var slot := SlotAlloc(w.s, m, usp).1;
    hide Conserved, Inv, InRange, SlotAlloc, Spawn, Moves, M.Owned, M.Envs, M.StacksApart, M.EnvsApart;
    if slot == None {
      move := Move(SpawnTask(m, usp), env, Stack(0, 0), None);
      w' := w.(s := Spawn(w.s, m, usp).0, handed := w.handed + {env}, released := w.released + [env]);
      SpawnMoves(w, m, usp, move, w');
      return;
    }
    var ok := mem.Async(slot.value, Some(env), size, split, at, opens);
    var said := m.(stacks := ok);
    Roomy(w, said, usp);
    w' := w.(s := Spawn(w.s, said, usp).0, handed := w.handed + {env}, tasks := mem.tasks, out := mem.vm.out);
    if ok {
      move := Move(SpawnTask(said, usp), env, mem.tasks[slot.value].stack.value, mem.tasks[slot.value].ustack);
      M.StackPair(mem.tasks, slot.value);
    } else {
      move := Move(SpawnTask(said, usp), env, Stack(0, 0), None);
      w' := w'.(released := w.released + [env]);
    }
    SpawnMoves(w, said, usp, move, w');
  }

  lemma SpawnMoves(w: World, m: Memory, usp: int, move: Move, w': World)
    requires InRange(w.s) && |w.tasks| == |w.s.tasks| && w.s.tasks[w.s.current].pc.Code?
    requires move.op == SpawnTask(m, usp) && w'.s == Spawn(w.s, m, usp).0 && Spawns(w, m, usp, move, w')
    ensures Moves(w, move, w')
  {
  }

  /** What `Async` needs of a slot given to a spawn. */
  lemma Roomy(w: World, m: Memory, usp: int)
    requires Conserved(w)
    ensures InRange(w.s) && w.s.current < |w.s.tasks| == |w.tasks| && Spawn(w.s, m, usp).0.current == w.s.current
    ensures forall x: bool :: SlotAlloc(w.s, m.(stacks := x), usp).1 == SlotAlloc(w.s, m, usp).1
    ensures var slot := SlotAlloc(w.s, m, usp).1;
            slot.Some? ==> slot.value <= |w.tasks| && (slot.value < |w.tasks| ==> w.tasks[slot.value].state.Free?)
    ensures w.out == M.Owned(w.tasks) && M.Envs(w.tasks) <= w.handed
  {
    SpawnSame(w.s, m, usp);
    var slot := SlotAlloc(w.s, m, usp).1;
    if slot.Some? && slot.value < |w.tasks| { assert HoldsOk(w, slot.value); }
  }

  /** The running task ends, and its stacks go once the next one runs. */
  method FinishAndSwitch(mem: M.Memory, next: nat)
    requires mem.Valid() && mem.zombies == [] && mem.tasks[mem.current].state.Live?
    requires next < |mem.tasks| && next != mem.current && mem.tasks[next].state.Live?
    modifies mem, mem.vm, mem.vm.cache
    ensures mem.Valid() && mem.zombies == [] && mem.current == next
    ensures var me, r := old(mem.current), old(mem.tasks[mem.current]);
            mem.tasks == old(mem.tasks)[me := M.Reaped(r.(env := None, state := M.Done))]
  {
    hide M.Owned, M.Envs, M.StacksApart, M.EnvsApart;
    mem.Finish();
    assert mem.zombies == [old(mem.current)];
    mem.SwitchTo(next);
  }

  /** The end of the running task: `Finish`, and the switch to the task that runs next. */
  method Finishing(mem: M.Memory, w: World, log: seq<Completion>, s': Sched) returns (ghost move: Move, ghost w': World)
    requires Mirrors(mem, w) && Conserved(w) && Step(w.s, FinishTask(log), s')
    modifies mem, mem.vm, mem.vm.cache
    ensures move.op == FinishTask(log) && w'.s == s' && Moves(w, move, w') && Mirrors(mem, w')
  {
    var me := w.s.current;
    NextRuns(w, log, s');
    hide Conserved, Step, Moves, M.Owned, M.Envs, M.StacksApart, M.EnvsApart, M.StacksOf;
    FinishAndSwitch(mem, s'.current);
    ghost var r := w.tasks[me];
    move := Move(FinishTask(log), 0, Stack(0, 0), None);
    w' := w.(s := s', tasks := mem.tasks, out := w.out - M.StacksOf(r),
             released := w.released + (if r.env.Some? then [r.env.value] else []));
    FinishMoves(w, log, move, w');
  }

  lemma FinishMoves(w: World, log: seq<Completion>, move: Move, w': World)
    requires |w.tasks| == |w.s.tasks| && w.s.current < |w.tasks|
    requires move.op == FinishTask(log) && Step(w.s, move.op, w'.s) && Ends(w, w')
    ensures Moves(w, move, w')
  {
  }

  lemma NextRuns(w: World, log: seq<Completion>, s': Sched)
    requires Conserved(w) && Step(w.s, FinishTask(log), s')
    ensures |w.tasks| == |w.s.tasks| && w.s.current < |w.tasks| && w.tasks[w.s.current].state.Live?
    ensures s'.current < |w.tasks| && s'.current != w.s.current && w.tasks[s'.current].state.Live?
  {
    FinishSame(w.s, log, s');
    StepKeeps(w.s, FinishTask(log));
    assert HoldsOk(w, w.s.current) && HoldsOk(w, s'.current);
  }

  /** An await that answers at once hands the slot back if nobody else is to; one that parks lets
      another task run. */
  method Awaiting(mem: M.Memory, w: World, h: int, log: seq<Completion>, s': Sched) returns (ghost move: Move, ghost w': World)
    requires Mirrors(mem, w) && Conserved(w) && Step(w.s, AwaitTask(h, log), s')
    modifies mem, mem.vm, mem.vm.cache
    ensures move.op == AwaitTask(h, log) && w'.s == s' && Moves(w, move, w') && Mirrors(mem, w')
  {
    move := Move(AwaitTask(h, log), 0, Stack(0, 0), None);
    Fitting(w);
    hide Conserved, Inv, Step, Resolve, Moves;
    if AwaitAnswer(w.s, h).Success? {
      var t := Resolve(w.s, h).value;
      Resolved(w, h);
      AwaitKeepsCurrent(w, h, log, s');
      if w.s.tasks[t].njoiners == 0 { mem.Retire(t); }
    } else {
      AwaitGives(w.s, h, log, s');
      Resumes(mem, w, AwaitTask(h, log), s');
    }
    w' := w.(s := s', tasks := mem.tasks);
    AwaitMoves(w, h, move, w');
  }

  lemma Fitting(w: World)
    requires Conserved(w)
    ensures InRange(w.s) && |w.tasks| == |w.s.tasks| && Inv(w.s)
  {
  }

  lemma Resolved(w: World, h: int)
    requires Conserved(w) && AwaitAnswer(w.s, h).Success?
    ensures Resolve(w.s, h).Some? && Resolve(w.s, h).value < |w.tasks| && w.tasks[Resolve(w.s, h).value].state.Done?
  {
    assert HoldsOk(w, Resolve(w.s, h).value);
  }

  lemma AwaitKeepsCurrent(w: World, h: int, log: seq<Completion>, s': Sched)
    requires Conserved(w) && Step(w.s, AwaitTask(h, log), s') && AwaitAnswer(w.s, h).Success?
    ensures s'.current == w.s.current
  {
  }

  lemma AwaitMoves(w: World, h: int, move: Move, w': World)
    requires InRange(w.s) && |w.tasks| == |w.s.tasks| && move.op.AwaitTask? && move.op.handle == h
    requires Step(w.s, move.op, w'.s) && HoldsStill(w, w')
    requires if AwaitAnswer(w.s, h).Success?
             then w'.tasks == Returned(w.tasks, Resolve(w.s, h).value, w.s.tasks[Resolve(w.s, h).value].njoiners == 0)
             else w'.tasks == w.tasks
    ensures Moves(w, move, w')
  {
  }

  /** The end of an await that parked: the last to collect hands the slot back. */
  method Collects(mem: M.Memory, w: World, s': Sched) returns (ghost move: Move, ghost w': World)
    requires Mirrors(mem, w) && Conserved(w) && Step(w.s, CollectTask, s')
    modifies mem, mem.vm, mem.vm.cache
    ensures move.op == CollectTask && w'.s == s' && Moves(w, move, w') && Mirrors(mem, w')
  {
    CollectGives(w.s, s');
    var t := w.s.tasks[w.s.current].pc.target;
    assert HoldsOk(w, t);
    move := Move(CollectTask, 0, Stack(0, 0), None);
    if w.s.tasks[t].njoiners == 1 { mem.Retire(t); }
    w' := w.(s := s', tasks := mem.tasks);
  }

  method Detaching(mem: M.Memory, w: World, h: int, s': Sched) returns (ghost move: Move, ghost w': World)
    requires Mirrors(mem, w) && Conserved(w) && Step(w.s, DetachTask(h), s')
    modifies mem, mem.vm, mem.vm.cache
    ensures move.op == DetachTask(h) && w'.s == s' && Moves(w, move, w') && Mirrors(mem, w')
  {
    assert InRange(w.s) && |w.tasks| == |w.s.tasks|;
    move := Move(DetachTask(h), 0, Stack(0, 0), None);
    var target := Resolve(w.s, h);
    if target.Some? {
      assert HoldsOk(w, target.value);
      var ok := mem.Detach(target.value);
      assert ok == DetachAnswer(w.s, h).Success?;
    }
    w' := w.(s := s', tasks := mem.tasks);
  }

  /** Every other step leaves all as it is, but for which task runs. */
  method Continuing(mem: M.Memory, w: World, op: Op, s': Sched) returns (ghost move: Move, ghost w': World)
    requires Mirrors(mem, w) && Conserved(w) && Step(w.s, op, s')
    requires !op.SpawnTask? && !op.FinishTask? && !op.AwaitTask? && !op.CollectTask? && !op.DetachTask?
    modifies mem, mem.vm, mem.vm.cache
    ensures move.op == op && w'.s == s' && Moves(w, move, w') && Mirrors(mem, w')
  {
    OthersSame(w.s, op, s');
    Resumes(mem, w, op, s');
    move := Move(op, 0, Stack(0, 0), None);
    w' := w.(s := s');
  }

  /** The task that the step has run next is switched to, if it is another. */
  method Resumes(mem: M.Memory, w: World, op: Op, s': Sched)
    requires Mirrors(mem, w) && Conserved(w) && Step(w.s, op, s') && AllSame(w.s, s')
    modifies mem, mem.vm, mem.vm.cache
    ensures mem.Valid() && mem.tasks == w.tasks && mem.zombies == [] && mem.current == s'.current
  {
    StepKeeps(w.s, op);
    assert HoldsOk(w, s'.current) && Same(w.s.tasks[s'.current], s'.tasks[s'.current]);
    hide Inv, Step;
    if s'.current != mem.current { mem.SwitchTo(s'.current); }
    assert mem.tasks == w.tasks;
  }

  /** In every run, then: what the kernel has mapped is the stacks of unfinished tasks and those in the
      cache, no two overlap, and the environments held are those handed over and not released. */
  lemma MappedConserved(mem: M.Memory, w: World)
    requires Reached(w) && Mirrors(mem, w)
    ensures mem.vm.out == w.out && w.out !! Elements(mem.vm.kept)
    ensures mem.vm.mapped == Regions(mem.vm.page, mem.vm.guard, w.out + Elements(mem.vm.kept))
    ensures Disjoint(mem.vm.page, mem.vm.guard, w.out + Elements(mem.vm.kept))
    ensures forall s :: s in w.out <==> exists i :: 0 <= i < |w.tasks| && w.tasks[i].state.Live? && s in M.StacksOf(w.tasks[i])
    ensures forall e :: e in mem.live <==> e in w.handed && e !in w.released
  {
    ReachedConserved(w);
    assert mem.vm.out == w.out && forall e :: e in mem.live <==> e in w.handed && e !in w.released;
    hide Inv, Ledger, M.Owned;
    forall s ensures s in w.out <==> exists i :: 0 <= i < |w.tasks| && w.tasks[i].state.Live? && s in M.StacksOf(w.tasks[i]) {
      M.OwnedIs(w.tasks, s);
      forall i | 0 <= i < |w.tasks| && s in M.StacksOf(w.tasks[i]) ensures w.tasks[i].state.Live? {
        assert HoldsOk(w, i);
      }
    }
  }
}
