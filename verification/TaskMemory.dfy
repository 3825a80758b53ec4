/** What each task holds of memory: its stacks, and the environment of the closure it runs. */
module TaskMemory {
  import opened Runs
  import opened Stacks

  datatype State = Free | Live | Done

  datatype Rec = Rec(state: State, stack: Option<Stack>, ustack: Option<Stack>, env: Option<nat>, detached: bool)

  const BLANK := Rec(Free, None, None, None, false)

  ghost function One<T>(x: Option<T>): set<T> {
    if x.Some? then {x.value} else {}
  }

  ghost function StacksOf(r: Rec): set<Stack> {
    One(r.stack) + One(r.ustack)
  }

  /** All the stacks that tasks hold, and all the environments. */
  ghost function Owned(tasks: seq<Rec>): set<Stack> {
    if tasks == [] then {} else StacksOf(tasks[0]) + Owned(tasks[1..])
  }

  ghost function Envs(tasks: seq<Rec>): set<nat> {
    if tasks == [] then {} else One(tasks[0].env) + Envs(tasks[1..])
  }

  /** No stack is held twice. */
  ghost predicate StacksApart(tasks: seq<Rec>) {
    && (forall i :: 0 <= i < |tasks| ==> One(tasks[i].stack) !! One(tasks[i].ustack))
    && (forall i, j :: 0 <= i < j < |tasks| ==> StacksOf(tasks[i]) !! StacksOf(tasks[j]))
  }

  ghost predicate EnvsApart(tasks: seq<Rec>) {
    forall i, j :: 0 <= i < j < |tasks| ==> One(tasks[i].env) !! One(tasks[j].env)
  }

  lemma {:induction false} OwnedIs(tasks: seq<Rec>, s: Stack)
    ensures s in Owned(tasks) <==> exists i :: 0 <= i < |tasks| && s in StacksOf(tasks[i])
  {
    if tasks != [] {
      OwnedIs(tasks[1..], s);
      if s in Owned(tasks[1..]) {
        var i :| 0 <= i < |tasks[1..]| && s in StacksOf(tasks[1..][i]);
        assert s in StacksOf(tasks[i + 1]);
      }
      forall i | 0 <= i < |tasks| && s in StacksOf(tasks[i]) ensures s in Owned(tasks) {
        if i > 0 { assert s in StacksOf(tasks[1..][i - 1]); }
      }
    }
  }

  lemma {:induction false} EnvsIs(tasks: seq<Rec>, e: nat)
    ensures e in Envs(tasks) <==> exists i :: 0 <= i < |tasks| && e in One(tasks[i].env)
  {
    if tasks != [] {
      EnvsIs(tasks[1..], e);
      if e in Envs(tasks[1..]) {
        var i :| 0 <= i < |tasks[1..]| && e in One(tasks[1..][i].env);
        assert e in One(tasks[i + 1].env);
      }
      forall i | 0 <= i < |tasks| && e in One(tasks[i].env) ensures e in Envs(tasks) {
        if i > 0 { assert e in One(tasks[1..][i - 1].env); }
      }
    }
  }

  /** One task's record changed, what all hold changes by that. */
  lemma StacksChanged(tasks: seq<Rec>, i: nat, r: Rec)
    requires StacksApart(tasks) && i < |tasks| && One(r.stack) !! One(r.ustack)
    requires StacksOf(r) !! (Owned(tasks) - StacksOf(tasks[i]))
    ensures StacksApart(tasks[i := r]) && StacksOf(tasks[i]) <= Owned(tasks)
    ensures Owned(tasks[i := r]) == (Owned(tasks) - StacksOf(tasks[i])) + StacksOf(r)
  {
    var after := tasks[i := r];
    hide Owned, StacksOf, One;
    forall s ensures s in Owned(tasks) <==> exists j :: 0 <= j < |tasks| && s in StacksOf(tasks[j]) { OwnedIs(tasks, s); }
    forall s ensures s in Owned(after) <==> exists j :: 0 <= j < |after| && s in StacksOf(after[j]) { OwnedIs(after, s); }
    assert after[i] == r && forall j :: 0 <= j < |tasks| && j != i ==> after[j] == tasks[j];
  }

  lemma EnvsChanged(tasks: seq<Rec>, i: nat, r: Rec)
    requires EnvsApart(tasks) && i < |tasks| && One(r.env) !! (Envs(tasks) - One(tasks[i].env))
    ensures EnvsApart(tasks[i := r]) && One(tasks[i].env) <= Envs(tasks)
    ensures Envs(tasks[i := r]) == (Envs(tasks) - One(tasks[i].env)) + One(r.env)
  {
    var after := tasks[i := r];
    hide Envs, One;
    forall e ensures e in Envs(tasks) <==> exists j :: 0 <= j < |tasks| && e in One(tasks[j].env) { EnvsIs(tasks, e); }
    forall e ensures e in Envs(after) <==> exists j :: 0 <= j < |after| && e in One(after[j].env) { EnvsIs(after, e); }
    assert after[i] == r && forall j :: 0 <= j < |tasks| && j != i ==> after[j] == tasks[j];
  }

  lemma {:induction false} BlankHoldsNothing(tasks: seq<Rec>)
    ensures Owned(tasks + [BLANK]) == Owned(tasks) && Envs(tasks + [BLANK]) == Envs(tasks)
  {
    if tasks == [] {
      assert tasks + [BLANK] == [BLANK] && [BLANK][1..] == [];
    } else {
      BlankHoldsNothing(tasks[1..]);
      assert (tasks + [BLANK])[1..] == tasks[1..] + [BLANK];
    }
  }

  lemma BlankAdded(tasks: seq<Rec>)
    requires StacksApart(tasks) && EnvsApart(tasks)
    ensures StacksApart(tasks + [BLANK]) && EnvsApart(tasks + [BLANK])
    ensures Owned(tasks + [BLANK]) == Owned(tasks) && Envs(tasks + [BLANK]) == Envs(tasks)
  {
    hide Owned, Envs;
    BlankHoldsNothing(tasks);
  }

  /** The tasks with a record put into a slot, the next new one perhaps. */
  function Put(tasks: seq<Rec>, i: nat, r: Rec): (p: seq<Rec>)
    requires i <= |tasks|
    ensures i < |p| && p[i] == r && |p| >= |tasks| && forall k :: 0 <= k < |tasks| && k != i ==> p[k] == tasks[k]
  {
    if i < |tasks| then tasks[i := r] else tasks + [r]
  }

  /** A finished task once its stacks are freed: its slot is free too if it was detached. */
  function Reaped(r: Rec): Rec {
    Rec(if r.detached then Free else r.state, None, None, r.env, r.detached)
  }

  class Memory {
    const vm: StackCache
    var tasks: seq<Rec>
    var zombies: seq<nat>
    var current: nat

    // The environments handed to the runtime and not yet released.
    ghost var live: set<nat>

    /** What a record may hold, the tasks in `dead` having their stacks still to be freed. */
    ghost predicate RecOk(r: Rec, dead: bool) {
      && (!r.state.Live? ==> r.env == None)
      && (!r.state.Live? && !dead ==> r.stack == None && r.ustack == None)
      && (dead ==> r.state.Done?)
    }

    ghost predicate Recs(dead: seq<nat>)
      reads `tasks
    {
      && (forall i :: 0 <= i < |tasks| ==> RecOk(tasks[i], i in dead))
      && (forall j, k :: 0 <= j < k < |dead| ==> dead[j] != dead[k])
      && (forall j :: 0 <= j < |dead| ==> dead[j] < |tasks|)
    }

    ghost predicate Held()
      reads this, vm, vm.cache
    {
      vm.Valid() && StacksApart(tasks) && EnvsApart(tasks) && vm.out == Owned(tasks) && live == Envs(tasks)
    }

    /** Every stack handed out is one task's, and every environment one unfinished task's. */
    ghost predicate Valid()
      reads this, vm, vm.cache
    {
      Held() && Recs(zombies) && current < |tasks|
    }

    /** The thread's own task borrows the thread's stack and runs no closure. */
    constructor (page: nat)
      ensures Valid() && fresh(vm) && fresh(vm.cache) && live == {} && vm.out == {} && current == 0
      ensures tasks == [BLANK.(state := Live)] && zombies == [] && vm.page == page && vm.guard && vm.mapped == {}
    {
      vm := new StackCache(page);
      tasks, zombies, current, live := [BLANK.(state := Live)], [], 0, {};
    }

    method ReleaseEnv(env: Option<nat>)
      requires env.Some? ==> env.value in live
      modifies `live
      ensures live == old(live) - One(env)
    {
      live := live - One(env);
    }

    method SetRec(i: nat, r: Rec)
      requires i < |tasks| && StacksApart(tasks) && EnvsApart(tasks) && One(r.stack) !! One(r.ustack)
      requires StacksOf(r) !! (Owned(tasks) - StacksOf(tasks[i])) && One(r.env) !! (Envs(tasks) - One(tasks[i].env))
      modifies `tasks
      ensures tasks == old(tasks)[i := r] && StacksApart(tasks) && EnvsApart(tasks)
      ensures Owned(tasks) == (Owned(old(tasks)) - StacksOf(old(tasks)[i])) + StacksOf(r)
      ensures Envs(tasks) == (Envs(old(tasks)) - One(old(tasks)[i].env)) + One(r.env)
    {
      StacksChanged(tasks, i, r);
      EnvsChanged(tasks, i, r);
      tasks := tasks[i := r];
    }

    /** A slot for a task, its record cleared. */
    method SlotAlloc(i: nat)
      requires Valid() && i <= |tasks| && (i < |tasks| ==> tasks[i].state.Free? && i !in zombies)
      modifies `tasks
      ensures Valid() && tasks == Put(old(tasks), i, BLANK)
      ensures Owned(tasks) == Owned(old(tasks)) && Envs(tasks) == Envs(old(tasks))
    {
      hide StacksApart, EnvsApart, Owned, Envs;
      if i < |tasks| {
        SetRec(i, BLANK);
      } else {
        BlankAdded(tasks);
        tasks := tasks + [BLANK];
      }
    }

    /** What the kernel may answer: regions that overlap neither what is mapped nor each other. */
    ghost predicate Answers(size: nat, at: (Option<int>, Option<int>))
      reads vm
    {
      && (at.0.Some? ==> Mappable(vm.mapped, vm.Mapping(at.0.value, size)))
      && (at.1.Some? ==> Mappable(vm.mapped, vm.Mapping(at.1.value, size)))
      && (at.0.Some? && at.1.Some? ==> Clear(vm.Mapping(at.0.value, size), vm.Mapping(at.1.value, size)))
    }

    /** The stacks of a new task: one, or with split stacks two, or none where the kernel refuses. */
    method AllocStacks(size: nat, split: bool, at: (Option<int>, Option<int>), opens: (bool, bool))
      returns (stack: Option<Stack>, ustack: Option<Stack>)
      requires vm.Valid() && Answers(size, at)
      modifies vm, vm.cache
      ensures at.0.Some? && opens.0 && (split ==> at.1.Some? && opens.1) ==> stack.Some?
      ensures vm.Valid() && vm.guard == old(vm.guard) && (stack == None ==> ustack == None) && (stack.Some? ==> (ustack.Some? <==> split))
      ensures vm.out == old(vm.out) + One(stack) + One(ustack) && One(stack) !! old(vm.out) && One(ustack) !! old(vm.out) + One(stack)
    {
      stack, ustack := None, None;
      var low := vm.Alloc(size, at.0, opens.0);
      if low == None { return; }
      stack := Some(Stack(low.value, size));
      if split {
        var ulow := vm.Alloc(size, at.1, opens.1);
        if ulow == None {
          vm.Free(stack.value);
          stack := None;
          return;
        }
        ustack := Some(Stack(ulow.value, size));
      }
    }

    /** Spawn a task that runs a closure with this environment, which is handed over whatever comes of
        it: a spawn that fails discards it. `at` and `opens` are the kernel's answers. */
    method Async(i: nat, env: Option<nat>, size: nat, split: bool, at: (Option<int>, Option<int>), opens: (bool, bool))
      returns (ok: bool)
      requires Valid() && i <= |tasks| && (i < |tasks| ==> tasks[i].state.Free? && i !in zombies)
      requires env.Some? ==> env.value !in live
      requires Answers(size, at)
      modifies this, vm, vm.cache
      ensures Valid() && current == old(current) && zombies == old(zombies) && |tasks| >= |old(tasks)| && i < |tasks|
      ensures vm.guard == old(vm.guard)
      ensures ok ==> live == old(live) + One(env) && tasks == Put(old(tasks), i, Rec(Live, tasks[i].stack, tasks[i].ustack, env, false))
                     && tasks[i].stack.Some? && (tasks[i].ustack.Some? <==> split)
      ensures ok ==> vm.out == old(vm.out) + StacksOf(tasks[i]) && StacksOf(tasks[i]) !! old(vm.out)
      ensures !ok ==> live == old(live) && vm.out == old(vm.out) && tasks == Put(old(tasks), i, BLANK)
      ensures at.0.Some? && opens.0 && (split ==> at.1.Some? && opens.1) ==> ok
    {
      hide StacksApart, EnvsApart, Owned, Envs;
      SlotAlloc(i);
      live := live + One(env);
      var stack, ustack := AllocStacks(size, split, at, opens);
      if stack == None {
        ReleaseEnv(env);
        return false;
      }
      SetRec(i, Rec(Live, stack, ustack, env, false));
      return true;
    }

    /** The running task's closure has returned: its environment goes, and the task is left for
        whoever runs next to free the stacks of. */
    method Finish()
      requires Valid() && tasks[current].state.Live?
      modifies `tasks, `zombies, `live
      ensures Valid() && live == old(live) - One(old(tasks)[current].env) && zombies == [current] + old(zombies)
      ensures tasks == old(tasks)[current := old(tasks)[current].(env := None, state := Done)]
    {
      hide StacksApart, EnvsApart, Owned, Envs;
      var t := tasks[current];
      StackPair(tasks, current);
      EnvsChanged(tasks, current, t);
      StacksChanged(tasks, current, t);
      ReleaseEnv(t.env);
      SetRec(current, t.(env := None, state := Done));
      zombies := [current] + zombies;
    }

    /** The stacks of a finished task go back. */
    method FreeStacks(z: nat)
      requires Held() && z < |tasks|
      modifies vm, vm.cache, `tasks
      ensures Held() && tasks == old(tasks)[z := old(tasks)[z].(stack := None, ustack := None)] && vm.guard == old(vm.guard)
      ensures vm.out == old(vm.out) - StacksOf(old(tasks)[z])
    {
      hide StacksApart, EnvsApart, Owned, Envs;
      var t := tasks[z];
      StackPair(tasks, z);
      StacksChanged(tasks, z, t);
      EnvsChanged(tasks, z, t);
      if t.stack.Some? { vm.Free(t.stack.value); }
      if t.ustack.Some? { vm.Free(t.ustack.value); }
      SetRec(z, t.(stack := None, ustack := None));
    }

    /** Every task left to be freed is, and a detached one's slot goes too. */
    method Reap()
      requires Valid()
      modifies vm, vm.cache, `tasks, `zombies
      ensures Valid() && zombies == [] && live == old(live) && |tasks| == |old(tasks)| && vm.guard == old(vm.guard)
      ensures forall i :: 0 <= i < |tasks| ==> tasks[i] == if i in old(zombies) then Reaped(old(tasks)[i]) else old(tasks)[i]
      ensures vm.out <= old(vm.out)
    {
      hide StacksApart, EnvsApart, Owned, Envs;
      var left := zombies;
      zombies := [];
      while left != []
        invariant Held() && Recs(left) && live == old(live) && |tasks| == |old(tasks)| && zombies == [] && vm.guard == old(vm.guard)
        invariant vm.out <= old(vm.out) && forall j :: 0 <= j < |left| ==> left[j] in old(zombies)
        invariant forall i :: 0 <= i < |tasks| ==>
                    tasks[i] == if i in old(zombies) && i !in left then Reaped(old(tasks)[i]) else old(tasks)[i]
        decreases |left|
      {
        var z := left[0];
        assert left == [z] + left[1..];
        FreeStacks(z);
        if tasks[z].detached { SetRec(z, tasks[z].(state := Free)); }
        left := left[1..];
      }
    }

    /** Another task runs, and frees what the one before it left. */
    method SwitchTo(next: nat)
      requires Valid() && next < |tasks| && tasks[next].state.Live?
      modifies vm, vm.cache, `tasks, `zombies, `current
      ensures Valid() && current == next && zombies == [] && live == old(live) && |tasks| == |old(tasks)| && vm.guard == old(vm.guard)
      ensures forall i :: 0 <= i < |tasks| ==> tasks[i] == if i in old(zombies) then Reaped(old(tasks)[i]) else old(tasks)[i]
    {
      current := next;
      Reap();
    }

    /** The running task lets another go: a finished one's slot at once, an unfinished one's when it is
        reaped. Itself, a free slot and one let go before are refused. */
    method Detach(t: nat) returns (ok: bool)
      requires Valid() && t < |tasks| && zombies == []
      modifies `tasks
      ensures Valid() && ok == (t != current && !old(tasks)[t].state.Free? && !old(tasks)[t].detached)
      ensures var r := old(tasks)[t];
              tasks == if ok then old(tasks)[t := r.(detached := true, state := if r.state.Done? then Free else r.state)] else old(tasks)
    {
      hide StacksApart, EnvsApart, Owned, Envs;
      var r := tasks[t];
      if r.state.Free? || t == current || r.detached { return false; }
      StackPair(tasks, t);
      StacksChanged(tasks, t, r);
      EnvsChanged(tasks, t, r);
      SetRec(t, r.(detached := true, state := if r.state.Done? then Free else r.state));
      return true;
    }

    /** A finished task's slot, its stacks long gone, is handed back. */
    method Retire(t: nat)
      requires Valid() && t < |tasks| && tasks[t].state.Done? && t !in zombies
      modifies `tasks
      ensures Valid() && tasks == old(tasks)[t := old(tasks)[t].(state := Free)]
    {
      hide StacksApart, EnvsApart, Owned, Envs;
      SetRec(t, tasks[t].(state := Free));
    }

    /** What a task still holds at the end of its thread goes, but for the stack `spare`. */
    method Abandon(i: nat, spare: Option<Stack>)
      requires Held() && i < |tasks| && RecOk(tasks[i], false)
      modifies vm, `tasks, `live
      ensures Held() && vm.guard == old(vm.guard)
      ensures var t := old(tasks)[i];
              && tasks == old(tasks)[i := BLANK.(stack := if t.stack == spare then t.stack else None)]
              && vm.out == old(vm.out) - (if t.stack == spare then One(t.ustack) else StacksOf(t)) && live == old(live) - One(t.env)
    {
      hide StacksApart, EnvsApart, Owned, Envs;
      var t := tasks[i];
      StackPair(tasks, i);
      StacksChanged(tasks, i, t);
      EnvsChanged(tasks, i, t);
      if t.stack.Some? && t.stack != spare { vm.Unmap(t.stack.value); }
      if t.ustack.Some? { vm.Unmap(t.ustack.value); }
      if t.state.Live? { ReleaseEnv(t.env); }
      SetRec(i, BLANK.(stack := if t.stack == spare then t.stack else None));
    }

    /** The end of the thread. Every environment is released, and every stack goes back to the kernel,
        each once, but for the one the teardown runs on. Where tasks have a second, unsafe stack that
        one is not spared: it goes though the teardown runs on it. */
    method Teardown()
      requires Valid() && tasks[current].state.Live?
      modifies this, vm, vm.cache
      ensures live == {} && vm.Valid() && vm.out == One(old(tasks[current].stack)) && vm.cached == 0
      ensures vm.mapped == Regions(vm.page, vm.guard, One(old(tasks[current].stack))) && vm.guard == old(vm.guard)
      ensures One(old(tasks[current].ustack)) <= vm.out <==> old(tasks[current].ustack) == None
      ensures old(tasks[current].ustack).Some? ==> RegionOf(vm.page, vm.guard, old(tasks[current].ustack).value) in old(vm.mapped) - vm.mapped
    {
      hide StacksApart, EnvsApart, Owned, Envs;
      StackPair(tasks, current);
      RunningStacks();
      assert RecOk(tasks[current], current in zombies);
      Reap();
      ghost var was := tasks;
      var spare := tasks[current].stack;
      var i := 0;
      while i < |tasks|
        invariant i <= |tasks| == |was| && Held() && current < |tasks| && vm.guard == old(vm.guard) && spare == was[current].stack && tasks[i..] == was[i..]
        invariant forall k :: 0 <= k < |was| ==> RecOk(was[k], false)
        invariant forall k :: 0 <= k < i ==> tasks[k] == BLANK.(stack := if was[k].stack == spare then spare else None)
      {
        assert tasks[i] == tasks[i..][0] == was[i..][0];
        Abandon(i, spare);
        i := i + 1;
      }
      OnlySpare(tasks, was, current);
      vm.Flush();
    }

    /** The running task's stacks are mapped, in two regions. */
    lemma RunningStacks()
      requires Held() && current < |tasks|
      ensures forall s :: s in StacksOf(tasks[current]) ==> RegionOf(vm.page, vm.guard, s) in vm.mapped
      ensures forall s, s' :: s in StacksOf(tasks[current]) && s' in StacksOf(tasks[current]) && s != s' ==>
                RegionOf(vm.page, vm.guard, s) != RegionOf(vm.page, vm.guard, s')
    {
      forall s | s in StacksOf(tasks[current]) ensures s in vm.out {
        OwnedIs(tasks, s);
      }
    }
  }

  /** A thread that ends inside a task with split stacks: `low` and `ulow` are where its stacks are
      mapped. Once the teardown is over the stack it runs on is mapped, and the unsafe stack it runs on
      as well is not. */
  method EndsInsideTask(page: nat, size: nat, low: int, ulow: int, env: Option<nat>) returns (mem: Memory, ghost t: Rec)
    requires size > 0 && Clear(Region(low, size + page), Region(ulow, size + page))
    ensures fresh(mem) && t.state.Live? && t.stack.Some? && t.ustack.Some? && mem.live == {}
    ensures mem.vm.out == {t.stack.value} && mem.vm.mapped == {RegionOf(page, true, t.stack.value)}
    ensures RegionOf(page, true, t.ustack.value) !in mem.vm.mapped
  {
    mem := new Memory(page);
    var ok := mem.Async(1, env, size, true, (Some(low), Some(ulow)), (true, true));
    mem.SwitchTo(1);
    t := mem.tasks[mem.current];
    mem.Teardown();
  }

  /** A task's two stacks are two, and both among those held. */
  lemma StackPair(tasks: seq<Rec>, i: nat)
    requires StacksApart(tasks) && i < |tasks|
    ensures One(tasks[i].stack) !! One(tasks[i].ustack)
  {
  }

  /** With every record cleared but for the stack spared, that is all there is. */
  lemma OnlySpare(tasks: seq<Rec>, was: seq<Rec>, current: nat)
    requires |tasks| == |was| && current < |was|
    requires forall k :: 0 <= k < |was| ==> tasks[k] == BLANK.(stack := if was[k].stack == was[current].stack then was[current].stack else None)
    ensures Owned(tasks) == One(was[current].stack) && Envs(tasks) == {}
  {
    hide Owned, Envs;
    forall s ensures s in Owned(tasks) <==> s in One(was[current].stack) {
      OwnedIs(tasks, s);
      if s in One(was[current].stack) { assert s in StacksOf(tasks[current]); }
    }
    forall e ensures e !in Envs(tasks) {
      EnvsIs(tasks, e);
    }
  }
}
