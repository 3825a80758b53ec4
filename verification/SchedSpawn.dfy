/** Spawning: when there is room for a task, and what a spawn makes. */
module SchedSpawn {
  import opened Bits
  import opened Runs
  import opened SchedModel
  import opened SchedInvariant
  import opened SchedRuns
  import opened SchedDeadlock
  import opened SchedSlots
  import opened SchedTurns

  /** A step leaves the table as it was, but that a spawn may double a full one. */
  lemma TableDoubles(s: Sched, op: Op, s': Sched)
    requires Inv(s) && Step(s, op, s')
    ensures var grows := op.SpawnTask? && s.free == [] && |s.tasks| == s.cap && op.m.table && 2 * s.cap < 1048576;
            s'.cap == if grows then 2 * s.cap else s.cap
  {
    TurnsInOrder(s, op);
  }

  ghost predicate IsTable(cap: nat) {
    exists k: nat :: k <= 13 && cap == 64 * Pow2(k)
  }

  lemma PowAtMost(k: nat)
    requires 64 * Pow2(k) < 1048576
    ensures k <= 13 && 64 * Pow2(k) <= 524288
  {
    assert Pow2(7) == 128;
    PowSplit(7, 7);
    if k >= 14 { PowGrows(14, k); }
    else { PowGrows(k, 13); }
  }

  /** The table has 64 slots doubled some number of times, 524288 at the most. */
  lemma TableSize(s: Sched)
    requires Reachable(s)
    ensures IsTable(s.cap) && s.cap <= 524288 && |s.tasks| <= s.cap
  {
    var usp :| Reaches(Step, Started(usp), s);
    StartedOk(usp);
    assert 64 * Pow2(0) == 64;
    var sized := (x: Sched) => Inv(x) && IsTable(x.cap);
    forall x, op, y | sized(x) && Step(x, op, y) ensures sized(y) {
      StepKeeps(x, op);
      TableDoubles(x, op, y);
      DoubledIsTable(x.cap, y.cap);
    }
    Kept(Step, sized, Started(usp), s);
    var k: nat :| k <= 13 && s.cap == 64 * Pow2(k);
    PowAtMost(k);
  }

  lemma DoubledIsTable(cap: nat, cap': nat)
    requires IsTable(cap) && (cap' == cap || cap' == 2 * cap < 1048576)
    ensures IsTable(cap')
  {
    var k: nat :| k <= 13 && cap == 64 * Pow2(k);
    if cap' != cap {
      assert cap' == 64 * Pow2(k + 1);
      PowAtMost(k + 1);
    }
  }

  /** Where there is no room: every slot in use, and the table as large as it gets or its doubling
      refused, or the slot itself. */
  predicate Full(s: Sched, m: Memory) {
    s.free == [] && (|s.tasks| == 524288 || (|s.tasks| == s.cap && !m.table) || !m.slot)
  }

  lemma NoSlotExact(s: Sched, m: Memory)
    requires Reachable(s)
    ensures NoSlot(s, m) <==> Full(s, m)
  {
    TableSize(s);
    ReachableInv(s);
    if s.cap < 524288 {
      var k: nat :| k <= 13 && s.cap == 64 * Pow2(k);
      HalfAtMost(k);
    }
  }

  lemma HalfAtMost(k: nat)
    requires k <= 13 && 64 * Pow2(k) < 524288
    ensures 64 * Pow2(k) <= 262144
  {
    assert Pow2(6) == 64 && Pow2(7) == 128;
    PowSplit(6, 6);
    PowSplit(7, 6);
    if k <= 12 { PowGrows(k, 12); }
  }

  /** The slot a spawn takes: the last one handed back, or else a new one. */
  function NewSlot(s: Sched): nat {
    if s.free != [] then s.free[0] else |s.tasks|
  }

  /** A task as it is when it has just been spawned, in a slot that has been retired `epoch` times. */
  function Newborn(epoch: nat, usp: int): Task {
    Task(Ready, 1 + epoch % GEN_MASK, false, 0, [], usp, 0, Code, epoch, epoch + 1, usp)
  }

  /** What a spawn that is given a slot and a stack makes of the state. */
  ghost predicate Spawned(s: Sched, usp: int, r: Sched, t: nat)
    requires t == NewSlot(s)
  {
    && t < |r.tasks| && r.tasks[t] == Newborn(if t < |s.tasks| then s.tasks[t].epoch else 0, usp)
    && |r.tasks| == (if t < |s.tasks| then |s.tasks| else t + 1)
    && (forall i :: 0 <= i < |s.tasks| && i != t ==> r.tasks[i] == s.tasks[i])
    && r.rq == s.rq + [t] && r.free == (if s.free == [] then [] else s.free[1..]) && r.live == s.live + 1
    && r == s.(tasks := r.tasks, rq := r.rq, free := r.free, live := r.live, cap := r.cap)
  }

  lemma SpawnMakes(s: Sched, m: Memory, usp: int)
    requires Inv(s) && !NoSlot(s, m) && m.stacks
    ensures Spawned(s, usp, Spawn(s, m, usp).0, NewSlot(s)) && Spawn(s, m, usp).1 == Some(HandleOf(Spawn(s, m, usp).0, NewSlot(s)))
  {
    if s.free != [] { assert s.free[0] in s.free && TaskOk(s, s.free[0]); }
  }

  lemma SpawnAnswers(s: Sched, m: Memory, usp: int)
    requires InRange(s)
    ensures Spawn(s, m, usp).1.None? <==> NoSlot(s, m) || !m.stacks
  {
  }

  /** A spawn is refused exactly where there is no room or no stack. Otherwise the handle it answers is
      that of the new task, which nothing was left of from its slot's last life, and which goes to the
      tail of the run queue; no other task is touched. */
  lemma SpawnExact(s: Sched, m: Memory, usp: int)
    requires InRange(s) && Reachable(s)
    ensures var (r, h) := Spawn(s, m, usp);
            && (h.None? <==> Full(s, m) || !m.stacks)
            && (h.Some? ==>
                  var t := NewSlot(s);
                  Spawned(s, usp, r, t) && h.value == HandleOf(r, t) > 0 && Resolve(r, h.value) == Some(t))
  {
    NoSlotExact(s, m);
    ReachableInv(s);
    SpawnKeeps(s, m, usp);
    SpawnAnswers(s, m, usp);
    var r := Spawn(s, m, usp).0;
    hide Spawn, NoSlot, Reachable;
    if !Full(s, m) && m.stacks {
      SpawnMakes(s, m, usp);
      var t := NewSlot(s);
      assert TaskOk(r, t);
      ResolveIs(r, r.tasks[t].gen, t);
    }
  }

  /** The slot handed back last is the first to be used again. */
  lemma LastBackFirst(s: Sched, t: nat, m: Memory, usp: int)
    requires Inv(s) && t < |s.tasks|
    ensures SlotAlloc(Retire(s, t), m, usp).1 == Some(t) && NewSlot(Retire(s, t)) == t
  {
  }

  /** One that is refused leaves every task in use, and the order of turns, as they were. */
  lemma SpawnRefused(s: Sched, m: Memory, usp: int)
    requires Inv(s) && Spawn(s, m, usp).1.None?
    ensures var r := Spawn(s, m, usp).0;
            && r == s.(tasks := r.tasks, free := r.free, cap := r.cap)
            && (forall i :: 0 <= i < |s.tasks| && !s.tasks[i].state.Free? ==> i < |r.tasks| && r.tasks[i] == s.tasks[i])
            && (forall i :: 0 <= i < |r.tasks| && (i < |s.tasks| ==> s.tasks[i].state.Free?) ==> r.tasks[i].state.Free?)
            && (s.free != [] ==> r.free == s.free)
  {
    if s.free != [] { assert s.free[0] in s.free && TaskOk(s, s.free[0]); }
  }
}
