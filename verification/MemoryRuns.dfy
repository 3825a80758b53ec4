/** What tasks hold of memory, over whole runs of the scheduler: each step of a run with what it does to
    stacks and environments, as the methods of `TaskMemory.Memory` do it. */
module MemoryRuns {
  import opened Runs
  import opened Stacks
  import opened SchedModel
  import opened SchedInvariant
  import opened SchedRuns
  import M = TaskMemory

  /** `tasks` is what each task holds and `out` the stacks handed out. Environments are told apart by
      number; `handed` are those given to a spawn, and `released` those let go, in order. */
  datatype World = World(s: Sched, tasks: seq<M.Rec>, out: set<Stack>, handed: set<nat>, released: seq<nat>)

  /** What a spawn brings: its closure's environment, and the stacks there are for it. */
  datatype Move = Move(op: Op, env: nat, stack: Stack, ustack: Option<Stack>)

  function View(state: State): M.State {
    match state
    case Free => M.Free
    case Done => M.Done
    case _ => M.Live
  }

  function Begin(usp: int): World {
    World(Started(usp), [M.BLANK.(state := M.Live)], {}, {}, [])
  }

  /** A spawn, as `Async` does it: `m` is what the allocator answers. */
  ghost predicate Spawns(w: World, m: Memory, usp: int, move: Move, w': World)
    requires InRange(w.s) && |w.tasks| == |w.s.tasks|
  {
    && move.env !in w.handed && w'.handed == w.handed + {move.env}
    && match SlotAlloc(w.s, m, usp).1
       case None => w'.tasks == w.tasks && w'.out == w.out && w'.released == w.released + [move.env]
       case Some(t) =>
         if m.stacks then
           var r := M.Rec(M.Live, Some(move.stack), move.ustack, Some(move.env), false);
           && M.StacksOf(r) !! w.out && move.ustack != Some(move.stack)
           && w'.tasks == M.Put(w.tasks, t, r) && w'.out == w.out + M.StacksOf(r) && w'.released == w.released
         else
           w'.tasks == M.Put(w.tasks, t, M.BLANK) && w'.out == w.out && w'.released == w.released + [move.env]
  }

  /** The end of a task, as `Finish` does it, and the `Reap` of whoever runs next. */
  ghost predicate Ends(w: World, w': World)
    requires w.s.current < |w.tasks|
  {
    var r := w.tasks[w.s.current];
    && w'.tasks == w.tasks[w.s.current := M.Reaped(r.(env := None, state := M.Done))]
    && w'.out == w.out - M.StacksOf(r) && w'.handed == w.handed
    && w'.released == w.released + (if r.env.Some? then [r.env.value] else [])
  }

  /** A slot handed back, as `Retire` does it, if the step does so. */
  function Returned(tasks: seq<M.Rec>, t: nat, back: bool): seq<M.Rec>
    requires t < |tasks|
  {
    if back then tasks[t := tasks[t].(state := M.Free)] else tasks
  }

  function LetGo(r: M.Rec): M.Rec {
    r.(detached := true, state := if r.state.Done? then M.Free else r.state)
  }

  ghost predicate HoldsStill(w: World, w': World) {
    w'.out == w.out && w'.handed == w.handed && w'.released == w.released
  }

  ghost predicate Moves(w: World, move: Move, w': World) {
    && Step(w.s, move.op, w'.s) && |w.tasks| == |w.s.tasks|
    && match move.op
       case SpawnTask(m, usp) => Spawns(w, m, usp, move, w')
       case FinishTask(_) => Ends(w, w')
       case AwaitTask(h, _) =>
         HoldsStill(w, w') &&
         (if AwaitAnswer(w.s, h).Success? then
            var t := Resolve(w.s, h).value;
            w'.tasks == Returned(w.tasks, t, w.s.tasks[t].njoiners == 0)
          else w'.tasks == w.tasks)
       case CollectTask =>
         var t := w.s.tasks[w.s.current].pc.target;
         HoldsStill(w, w') && w'.tasks == Returned(w.tasks, t, w.s.tasks[t].njoiners == 1)
       case DetachTask(h) =>
         HoldsStill(w, w') &&
         (if DetachAnswer(w.s, h).Success? then
            var t := Resolve(w.s, h).value;
            w'.tasks == w.tasks[t := LetGo(w.tasks[t])]
          else w'.tasks == w.tasks)
       case _ => HoldsStill(w, w') && w'.tasks == w.tasks
  }

  // ---------- what the scheduler's steps make of a task ----------

  predicate Same(k: Task, k': Task) {
    View(k'.state) == View(k.state) && k'.detached == k.detached
  }

  ghost predicate AllSame(s: Sched, s': Sched) {
    |s'.tasks| == |s.tasks| && forall i :: 0 <= i < |s.tasks| ==> Same(s.tasks[i], s'.tasks[i])
  }

  lemma {:induction false} DeliverSame(s: Sched, log: seq<Completion>)
    requires Core(s) && Deliverable(s, log)
    ensures AllSame(s, Deliver(s, log))
    decreases |log|
  {
    if log != [] {
      assert TaskOk(s, log[0].task);
      Deliver1Keeps(s, log[0]);
      DeliverSame(Deliver1(s, log[0]), log[1..]);
    }
  }

  lemma HandoffSame(s: Sched, n: nat)
    requires Inv(s) && n in s.rq
    ensures AllSame(s, Handoff(s, n))
  {
    assert TaskOk(s, n);
  }

  lemma SwitchSame(d: Sched)
    requires Core(d) && d.zombies == [] && d.rq != []
    ensures AllSame(d, Reap(SwitchAway(d)))
  {
    assert d.rq[0] in d.rq && TaskOk(d, d.rq[0]);
  }

  lemma BlockSame(s: Sched, log: seq<Completion>)
    requires Core(s) && s.zombies == [] && PicksWith(s, log) && Block(s, log).Went?
    ensures AllSame(s, Block(s, log).s)
  {
    DeliverSame(s, log);
    DeliverKeeps(s, log);
    hide Deliver, Deliverable, SwitchAway, Reap, Core;
    SwitchSame(Deliver(s, log));
  }

  lemma UnlockSame(s: Sched, lock: nat)
    requires Inv(s)
    ensures AllSame(s, Unlock(s, lock))
  {
    var u := s.(held := GivenBack(s.held, lock));
    HeldAside(s, u);
    match FirstWaiting(u, lock, u.lockq)
    case None =>
    case Some(t) => HandoffSame(u, t);
  }

  lemma YieldSame(s: Sched, log: seq<Completion>)
    requires Inv(s) && Deliverable(s, log)
    ensures AllSame(s, Deliver(s, log)) && AllSame(s, Yield(s, log))
  {
    DeliverSame(s, log);
    DeliverKeeps(s, log);
    var d := Deliver(s, log);
    if d.rq != [] { HandoffSame(d, d.rq[0]); }
  }

  /** Only a spawn, an end, and what hands a slot back show. */
  lemma OthersSame(s: Sched, op: Op, s': Sched)
    requires Inv(s) && Step(s, op, s')
    requires !op.SpawnTask? && !op.FinishTask? && !op.AwaitTask? && !op.CollectTask? && !op.DetachTask?
    ensures AllSame(s, s')
  {
    hide Core, PicksWith;
    match op
    case YieldTo(log) => YieldSame(s, log);
    case Poll(log) => YieldSame(s, log);
    case StartIo(log) => SubmitKeeps(s); BlockSame(Submit(s), log);
    case Pass => HandoffSame(s, s.rq[0]);
    case Release(l) => UnlockSame(s, l);
    case _ =>
  }

  ghost predicate SameBut(s: Sched, s': Sched, t: nat) {
    |s'.tasks| == |s.tasks| && forall i :: 0 <= i < |s.tasks| && i != t ==> Same(s.tasks[i], s'.tasks[i])
  }

  /** Task `t` as it was, but that its slot is free if it was handed back. */
  ghost predicate Gives(s: Sched, s': Sched, t: nat, back: bool) {
    && SameBut(s, s', t) && t < |s.tasks| && s'.tasks[t].detached == s.tasks[t].detached
    && s.tasks[t].state.Done? && View(s'.tasks[t].state) == (if back then M.Free else M.Done)
  }

  lemma AwaitGives(s: Sched, h: int, log: seq<Completion>, s': Sched)
    requires Inv(s) && Step(s, AwaitTask(h, log), s')
    ensures if AwaitAnswer(s, h).Success?
            then Gives(s, s', Resolve(s, h).value, s.tasks[Resolve(s, h).value].njoiners == 0) else AllSame(s, s')
  {
    if AwaitAnswer(s, h).Parks? {
      ParkedSame(s, Resolve(s, h).value, log);
    }
  }

  lemma ParkedSame(s: Sched, t: nat, log: seq<Completion>)
    requires MayPark(s, t) && PicksWith(Park(s, t), log) && Block(Park(s, t), log).Went?
    ensures AllSame(s, Block(Park(s, t), log).s)
  {
    ParkKeeps(s, t);
    assert AllSame(s, Park(s, t)) && Park(s, t).zombies == [];
    hide Park, Core, PicksWith, Block;
    BlockSame(Park(s, t), log);
  }

  lemma CollectGives(s: Sched, s': Sched)
    requires Inv(s) && Step(s, CollectTask, s')
    ensures var t := s.tasks[s.current].pc.target;
            t < |s.tasks| && Gives(s, s', t, s.tasks[t].njoiners == 1)
  {
    CollectingIs(s);
    assert TaskOk(s, s.current);
  }

  lemma DetachGives(s: Sched, h: int, s': Sched)
    requires Inv(s) && Step(s, DetachTask(h), s')
    ensures if DetachAnswer(s, h).Success? then
              var t := Resolve(s, h).value;
              && SameBut(s, s', t) && s'.tasks[t].detached
              && View(s'.tasks[t].state) == (if s.tasks[t].state.Done? then M.Free else View(s.tasks[t].state))
            else AllSame(s, s')
  {
  }

  lemma CompleteSame(s: Sched)
    requires Inv(s) && s.current != 0 && s.tasks[s.current].pc.Code?
    ensures var c, me := Complete(s), s.current;
            SameBut(s, c, me) && c.tasks[me].state.Done? && c.tasks[me].detached == s.tasks[me].detached && c.zombies == [me]
  {
    CompleteIs(s);
    CompleteKeeps(s);
    assert TaskOk(s, s.current);
  }

  lemma LeaveSame(d: Sched, me: nat)
    requires Core(d) && d.rq != [] && d.zombies == [me] && d.current == me && d.tasks[me].state.Done?
    ensures var r := Reap(SwitchForGood(d));
            && SameBut(d, r, me) && r.tasks[me].detached == d.tasks[me].detached
            && r.tasks[me].state == (if d.tasks[me].detached then Free else Done)
  {
    assert d.rq[0] in d.rq && TaskOk(d, d.rq[0]) && TaskOk(d, me);
    var u := SwitchForGood(d).(zombies := []);
    assert ReapList(u, [me]) == ReapOne(u, me);
  }

  lemma FinishSame(s: Sched, log: seq<Completion>, s': Sched)
    requires Inv(s) && Step(s, FinishTask(log), s')
    ensures var me := s.current;
            && SameBut(s, s', me) && s'.tasks[me].detached == s.tasks[me].detached
            && s'.tasks[me].state == (if s.tasks[me].detached then Free else Done)
  {
    CompleteSame(s);
    CompleteKeeps(s);
    assert Complete(s).current == s.current by { CompleteIs(s); }
    var c := Complete(s);
    hide Complete, Core;
    DeliverSame(c, log);
    DeliverKeeps(c, log);
    hide Deliver, Deliverable, SwitchForGood, Reap;
    LeaveSame(Deliver(c, log), s.current);
  }

  lemma SpawnSame(s: Sched, m: Memory, usp: int)
    requires Inv(s)
    ensures var slot, s' := SlotAlloc(s, m, usp).1, Spawn(s, m, usp).0;
            match slot
            case None => AllSame(s, s')
            case Some(t) =>
              && t != 0 && (t < |s.tasks| ==> s.tasks[t].state.Free?) && t <= |s.tasks|
              && |s'.tasks| == (if t < |s.tasks| then |s.tasks| else t + 1)
              && (forall i :: 0 <= i < |s.tasks| && i != t ==> Same(s.tasks[i], s'.tasks[i]))
              && !s'.tasks[t].detached && s'.tasks[t].state == (if m.stacks then Ready else Free)
  {
    if s.free != [] {
      assert s.free[0] in s.free && TaskOk(s, s.free[0]) && TaskOk(s, 0);
    }
  }

  // ---------- conservation ----------

  /** What a task holds is what its state says: an unfinished one its stacks and its environment, the
      thread's own nothing, and any other nothing. */
  ghost predicate HoldsOk(w: World, i: nat)
    requires i < |w.tasks| && i < |w.s.tasks|
  {
    var r, k := w.tasks[i], w.s.tasks[i];
    && r.state == View(k.state) && r.detached == k.detached
    && (if i != 0 && r.state.Live? then r.stack.Some? && r.env.Some? else r.stack == None && r.ustack == None && r.env == None)
  }

  /** No stack is held twice, what is out is what is held, and an environment handed over is held once
      or has been released once. */
  ghost predicate Ledger(tasks: seq<M.Rec>, out: set<Stack>, handed: set<nat>, released: seq<nat>) {
    && M.StacksApart(tasks) && M.EnvsApart(tasks) && out == M.Owned(tasks)
    && NoDup(released) && M.Envs(tasks) !! Let(released) && handed == M.Envs(tasks) + Let(released)
  }

  ghost predicate Fits(w: World) {
    |w.tasks| == |w.s.tasks| && w.s.current < |w.tasks| && forall i :: 0 <= i < |w.tasks| ==> HoldsOk(w, i)
  }

  ghost predicate Conserved(w: World) {
    Inv(w.s) && Fits(w) && Ledger(w.tasks, w.out, w.handed, w.released)
  }

  ghost function Let(released: seq<nat>): set<nat> {
    set e | e in released
  }

  lemma LetMore(released: seq<nat>, e: nat)
    requires NoDup(released) && e !in released
    ensures NoDup(released + [e]) && Let(released + [e]) == Let(released) + {e}
  {
  }

  /** A task's record replaced by one that holds as much, or part of it. */
  lemma Replaced(tasks: seq<M.Rec>, i: nat, r: M.Rec)
    requires M.StacksApart(tasks) && M.EnvsApart(tasks) && i < |tasks| && M.One(r.stack) !! M.One(r.ustack)
    requires M.StacksOf(r) !! (M.Owned(tasks) - M.StacksOf(tasks[i])) && M.One(r.env) !! (M.Envs(tasks) - M.One(tasks[i].env))
    ensures M.StacksApart(tasks[i := r]) && M.EnvsApart(tasks[i := r])
    ensures M.StacksOf(tasks[i]) <= M.Owned(tasks) && M.One(tasks[i].env) <= M.Envs(tasks)
    ensures M.Owned(tasks[i := r]) == (M.Owned(tasks) - M.StacksOf(tasks[i])) + M.StacksOf(r)
    ensures M.Envs(tasks[i := r]) == (M.Envs(tasks) - M.One(tasks[i].env)) + M.One(r.env)
  {
    M.StacksChanged(tasks, i, r);
    M.EnvsChanged(tasks, i, r);
  }

  lemma LedgerSame(tasks: seq<M.Rec>, out: set<Stack>, handed: set<nat>, released: seq<nat>, i: nat, r: M.Rec)
    requires Ledger(tasks, out, handed, released) && i < |tasks|
    requires r.stack == tasks[i].stack && r.ustack == tasks[i].ustack && r.env == tasks[i].env
    ensures Ledger(tasks[i := r], out, handed, released)
  {
    M.StackPair(tasks, i);
    hide M.StacksApart, M.EnvsApart, M.Owned, M.Envs;
    assert tasks[i := tasks[i]] == tasks;
    Replaced(tasks, i, tasks[i]);
    Replaced(tasks, i, r);
  }

  lemma LedgerEnds(tasks: seq<M.Rec>, out: set<Stack>, handed: set<nat>, released: seq<nat>, i: nat, r: M.Rec)
    requires Ledger(tasks, out, handed, released) && i < |tasks| && tasks[i].env.Some?
    requires r.stack == None && r.ustack == None && r.env == None
    ensures Ledger(tasks[i := r], out - M.StacksOf(tasks[i]), handed, released + [tasks[i].env.value])
  {
    M.StackPair(tasks, i);
    hide M.StacksApart, M.EnvsApart, M.Owned, M.Envs;
    assert tasks[i := tasks[i]] == tasks;
    Replaced(tasks, i, tasks[i]);
    Replaced(tasks, i, r);
    LetMore(released, tasks[i].env.value);
  }

  /** What a slot that held nothing, a new one perhaps, holds is added to the rest. */
  lemma LedgerAdds(tasks: seq<M.Rec>, out: set<Stack>, handed: set<nat>, released: seq<nat>, t: nat, r: M.Rec)
    requires Ledger(tasks, out, handed, released) && t <= |tasks| && M.One(r.stack) !! M.One(r.ustack)
    requires t < |tasks| ==> tasks[t].stack == None && tasks[t].ustack == None && tasks[t].env == None
    requires M.StacksOf(r) !! out && M.One(r.env) !! handed
    ensures Ledger(M.Put(tasks, t, r), out + M.StacksOf(r), handed + M.One(r.env), released)
  {
    hide M.StacksApart, M.EnvsApart, M.Owned, M.Envs;
    if t < |tasks| {
      Replaced(tasks, t, r);
    } else {
      M.BlankAdded(tasks);
      var more := tasks + [M.BLANK];
      Replaced(more, t, r);
      assert more[t := r] == tasks + [r];
    }
  }

  lemma LedgerDiscards(tasks: seq<M.Rec>, out: set<Stack>, handed: set<nat>, released: seq<nat>, e: nat)
    requires Ledger(tasks, out, handed, released) && e !in handed
    ensures Ledger(tasks, out, handed + {e}, released + [e])
  {
    LetMore(released, e);
  }

  /** What hands back a slot, or lets go of a task, leaves what is held as it was. */
  lemma Restated(w: World, w': World, t: nat)
    requires Conserved(w) && Inv(w'.s) && HoldsStill(w, w') && |w'.s.tasks| == |w.s.tasks| && t < |w.tasks|
    requires w'.tasks == w.tasks[t := w.tasks[t].(state := View(w'.s.tasks[t].state), detached := w'.s.tasks[t].detached)]
    requires SameBut(w.s, w'.s, t) && (w.tasks[t].state.Live? <==> View(w'.s.tasks[t].state).Live?)
    ensures Conserved(w')
  {
    assert HoldsOk(w, t);
    LedgerSame(w.tasks, w.out, w.handed, w.released, t, w'.tasks[t]);
    forall i | 0 <= i < |w'.tasks| ensures HoldsOk(w', i) {
      assert HoldsOk(w, i);
    }
  }

  lemma BeginConserved(usp: int)
    ensures Conserved(Begin(usp))
  {
    StartedOk(usp);
    var w := Begin(usp);
    assert w.tasks[1..] == [] && M.Owned(w.tasks[1..]) == {} && M.Envs(w.tasks[1..]) == {};
    assert HoldsOk(w, 0);
  }

  lemma SpawnLedger(w: World, m: Memory, usp: int, move: Move, w': World)
    requires InRange(w.s) && |w.tasks| == |w.s.tasks| && Spawns(w, m, usp, move, w')
    requires Ledger(w.tasks, w.out, w.handed, w.released)
    requires var slot := SlotAlloc(w.s, m, usp).1;
             slot.Some? ==> slot.value <= |w.tasks| && (slot.value < |w.tasks| ==> HoldsNothing(w.tasks[slot.value]))
    ensures Ledger(w'.tasks, w'.out, w'.handed, w'.released)
  {
    var slot := SlotAlloc(w.s, m, usp).1;
    hide InRange, SlotAlloc, Ledger, M.StacksOf;
    if slot.Some? && m.stacks {
      var r := w'.tasks[slot.value];
      assert M.StacksOf(r) !! w.out && M.One(r.stack) !! M.One(r.ustack);
      LedgerAdds(w.tasks, w.out, w.handed, w.released, slot.value, r);
    } else {
      LedgerDiscards(w.tasks, w.out, w.handed, w.released, move.env);
      if slot.Some? { BlankLedger(w'.tasks, w.tasks, w.out, w'.handed, w'.released, slot.value); }
    }
  }

  predicate HoldsNothing(r: M.Rec) {
    r.stack == None && r.ustack == None && r.env == None
  }

  lemma BlankLedger(after: seq<M.Rec>, tasks: seq<M.Rec>, out: set<Stack>, handed: set<nat>, released: seq<nat>, t: nat)
    requires Ledger(tasks, out, handed, released) && t <= |tasks| && (t < |tasks| ==> HoldsNothing(tasks[t]))
    requires after == M.Put(tasks, t, M.BLANK)
    ensures Ledger(after, out, handed, released)
  {
    hide Ledger;
    LedgerAdds(tasks, out, handed, released, t, M.BLANK);
    assert out + M.StacksOf(M.BLANK) == out && handed + M.One(M.BLANK.env) == handed;
  }

  lemma SpawnFits(w: World, move: Move, w': World)
    requires Inv(w.s) && Fits(w) && Moves(w, move, w') && move.op.SpawnTask?
    ensures Fits(w')
  {
    var m, usp := move.op.m, move.op.usp;
    SpawnSame(w.s, m, usp);
    assert w.s.current < |w.s.tasks| && w'.s.current == w.s.current;
    hide Inv, SlotAlloc, Spawn;
    forall i | 0 <= i < |w'.tasks| ensures HoldsOk(w', i) {
      if i < |w.tasks| { assert HoldsOk(w, i); }
    }
  }

  /** A slot that a spawn is given held nothing. */
  lemma SlotHeldNothing(w: World, m: Memory, usp: int)
    requires Inv(w.s) && Fits(w)
    ensures var slot := SlotAlloc(w.s, m, usp).1;
            slot.Some? ==> slot.value <= |w.tasks| && (slot.value < |w.tasks| ==> HoldsNothing(w.tasks[slot.value]))
  {
    SpawnSame(w.s, m, usp);
    var slot := SlotAlloc(w.s, m, usp).1;
    hide Inv, SlotAlloc, Spawn;
    if slot.Some? && slot.value < |w.tasks| { assert HoldsOk(w, slot.value); }
  }

  lemma SpawnConserves(w: World, move: Move, w': World)
    requires Conserved(w) && Moves(w, move, w') && move.op.SpawnTask? && Inv(w'.s)
    ensures Conserved(w')
  {
    assert InRange(w.s);
    hide Inv, InRange, Ledger, Fits, Spawns;
    SlotHeldNothing(w, move.op.m, move.op.usp);
    SpawnLedger(w, move.op.m, move.op.usp, move, w');
    SpawnFits(w, move, w');
  }

  lemma EndFits(w: World, move: Move, w': World)
    requires Inv(w.s) && Fits(w) && Moves(w, move, w') && move.op.FinishTask? && Inv(w'.s)
    ensures Fits(w') && w.tasks[w.s.current].env.Some?
  {
    FinishSame(w.s, move.op.log, w'.s);
    assert HoldsOk(w, w.s.current) && w.s.tasks[w.s.current].state.Running?;
    InvCurrent(w'.s);
    hide Inv, Step;
    forall i | 0 <= i < |w'.tasks| ensures HoldsOk(w', i) {
      assert HoldsOk(w, i);
    }
  }

  lemma EndConserves(w: World, move: Move, w': World)
    requires Conserved(w) && Moves(w, move, w') && move.op.FinishTask? && Inv(w'.s)
    ensures Conserved(w')
  {
    hide Inv, Ledger, Step;
    EndFits(w, move, w');
    hide Fits;
    assert w.s.current < |w.tasks| by { InvCurrent(w.s); }
    LedgerEnds(w.tasks, w.out, w.handed, w.released, w.s.current, w'.tasks[w.s.current]);
  }

  lemma InvCurrent(s: Sched)
    requires Inv(s)
    ensures s.current < |s.tasks|
  {
  }

  lemma Unmoved(w: World, w': World)
    requires Conserved(w) && Inv(w'.s) && HoldsStill(w, w') && w'.tasks == w.tasks && AllSame(w.s, w'.s)
    ensures Conserved(w')
  {
    forall i | 0 <= i < |w'.tasks| ensures HoldsOk(w', i) {
      assert HoldsOk(w, i);
    }
  }

  lemma GivesConserves(w: World, w': World, t: nat, back: bool)
    requires Conserved(w) && Inv(w'.s) && HoldsStill(w, w') && t < |w.tasks|
    requires Gives(w.s, w'.s, t, back) && w'.tasks == Returned(w.tasks, t, back)
    ensures Conserved(w')
  {
    assert HoldsOk(w, t);
    var r := w.tasks[t].(state := View(w'.s.tasks[t].state), detached := w'.s.tasks[t].detached);
    assert w'.tasks == w.tasks[t := r];
    Restated(w, w', t);
  }

  lemma DetachConserves(w: World, h: int, w': World)
    requires Conserved(w) && Inv(w'.s) && HoldsStill(w, w') && Step(w.s, DetachTask(h), w'.s) && DetachAnswer(w.s, h).Success?
    requires var t := Resolve(w.s, h).value; w'.tasks == w.tasks[t := LetGo(w.tasks[t])]
    ensures Conserved(w')
  {
    var t := Resolve(w.s, h).value;
    DetachGives(w.s, h, w'.s);
    assert HoldsOk(w, t);
    Restated(w, w', t);
  }

  lemma MoveConserves(w: World, move: Move, w': World)
    requires Conserved(w) && Moves(w, move, w')
    ensures Conserved(w')
  {
    StepKeeps(w.s, move.op);
    hide Inv, Step, Conserved;
    assert Conserved(w) ==> Inv(w.s) by { ConservedInv(w); }
    match move.op
    case SpawnTask(_, _) => SpawnConserves(w, move, w');
    case FinishTask(_) => EndConserves(w, move, w');
    case AwaitTask(h, log) =>
      AwaitGives(w.s, h, log, w'.s);
      if AwaitAnswer(w.s, h).Success? {
        var t := Resolve(w.s, h).value;
        GivesConserves(w, w', t, w.s.tasks[t].njoiners == 0);
      } else { Unmoved(w, w'); }
    case CollectTask =>
      CollectGives(w.s, w'.s);
      var t := w.s.tasks[w.s.current].pc.target;
      GivesConserves(w, w', t, w.s.tasks[t].njoiners == 1);
    case DetachTask(h) =>
      DetachGives(w.s, h, w'.s);
      if DetachAnswer(w.s, h).Success? { DetachConserves(w, h, w'); } else { Unmoved(w, w'); }
    case _ => OthersSame(w.s, move.op, w'.s); Unmoved(w, w');
  }

  lemma ConservedInv(w: World)
    ensures Conserved(w) ==> Inv(w.s) && |w.tasks| == |w.s.tasks|
  {
  }

  ghost predicate Reached(w: World) {
    exists usp :: Reaches(Moves, Begin(usp), w)
  }

  lemma EnvHeld(tasks: seq<M.Rec>, e: nat)
    ensures e in M.Envs(tasks) <==> exists i :: 0 <= i < |tasks| && tasks[i].env == Some(e)
  {
    M.EnvsIs(tasks, e);
    if e in M.Envs(tasks) {
      var i :| 0 <= i < |tasks| && e in M.One(tasks[i].env);
      assert tasks[i].env == Some(e);
    }
    forall i | 0 <= i < |tasks| && tasks[i].env == Some(e) ensures e in M.Envs(tasks) {
      assert e in M.One(tasks[i].env);
    }
  }

  lemma ReachedConserved(w: World)
    requires Reached(w)
    ensures Conserved(w)
  {
    var usp :| Reaches(Moves, Begin(usp), w);
    BeginConserved(usp);
    hide Conserved, Moves;
    forall v, move, v' | Conserved(v) && Moves(v, move, v') ensures Conserved(v') {
      MoveConserves(v, move, v');
    }
    Kept(Moves, Conserved, Begin(usp), w);
  }

  /** In every run each task not yet finished holds its stacks and its environment, and nothing else is
      held; no stack is two tasks', and those handed out are those held; every environment handed over
      is held by one unfinished task or has been released, once. */
  lemma MemoryConserved(w: World)
    requires Reached(w)
    ensures Inv(w.s) && |w.tasks| == |w.s.tasks|
    ensures forall i :: 0 <= i < |w.tasks| ==> HoldsOk(w, i)
    ensures M.StacksApart(w.tasks) && w.out == M.Owned(w.tasks) && M.EnvsApart(w.tasks) && NoDup(w.released)
    ensures forall e :: e in w.handed <==> e in w.released || exists i :: 0 <= i < |w.tasks| && w.tasks[i].env == Some(e)
    ensures forall e, i :: 0 <= i < |w.tasks| && w.tasks[i].env == Some(e) ==> e !in w.released
  {
    ReachedConserved(w);
    hide Inv;
    forall e ensures e in M.Envs(w.tasks) <==> exists i :: 0 <= i < |w.tasks| && w.tasks[i].env == Some(e) {
      EnvHeld(w.tasks, e);
    }
    hide M.Envs, M.EnvsApart;
  }

  /** Memory stands in no step's way: with an environment and stacks that are nobody's, whatever the
      scheduler does has its move. */
  lemma EveryStepMoves(w: World, move: Move, s': Sched) returns (w': World)
    requires Conserved(w) && Step(w.s, move.op, s') && move.env !in w.handed
    requires move.stack !in w.out && move.ustack != Some(move.stack) && (move.ustack.Some? ==> move.ustack.value !in w.out)
    ensures w'.s == s' && Moves(w, move, w') && Conserved(w')
  {
    w' := Moved(w, move, s');
    MoveConserves(w, move, w');
  }

  lemma Moved(w: World, move: Move, s': Sched) returns (w': World)
    requires Conserved(w) && Step(w.s, move.op, s') && move.env !in w.handed
    requires move.stack !in w.out && move.ustack != Some(move.stack) && (move.ustack.Some? ==> move.ustack.value !in w.out)
    ensures w'.s == s' && Moves(w, move, w')
  {
    ConservedInv(w);
    hide Conserved, Enabled, Apply;
    match move.op
    case SpawnTask(_, _) => w' := SpawnMoved(w, move, s');
    case FinishTask(_) => w' := EndMoved(w, move, s');
    case _ => w' := OtherMoved(w, move, s');
  }

  lemma SpawnMoved(w: World, move: Move, s': Sched) returns (w': World)
    requires Inv(w.s) && |w.tasks| == |w.s.tasks| && Step(w.s, move.op, s') && move.op.SpawnTask? && move.env !in w.handed
    requires move.stack !in w.out && move.ustack != Some(move.stack) && (move.ustack.Some? ==> move.ustack.value !in w.out)
    ensures w'.s == s' && Moves(w, move, w')
  {
    var m, usp := move.op.m, move.op.usp;
    var slot := SlotAlloc(w.s, m, usp).1;
    SpawnSame(w.s, m, usp);
    assert InRange(w.s);
    hide Inv, InRange, Step, SlotAlloc, Spawn;
    var given := w.(s := s', handed := w.handed + {move.env});
    if slot.None? {
      w' := given.(released := w.released + [move.env]);
    } else if m.stacks {
      var r := M.Rec(M.Live, Some(move.stack), move.ustack, Some(move.env), false);
      w' := given.(tasks := M.Put(w.tasks, slot.value, r), out := w.out + M.StacksOf(r));
    } else {
      w' := given.(tasks := M.Put(w.tasks, slot.value, M.BLANK), released := w.released + [move.env]);
    }
  }

  lemma EndMoved(w: World, move: Move, s': Sched) returns (w': World)
    requires Inv(w.s) && |w.tasks| == |w.s.tasks| && Step(w.s, move.op, s') && move.op.FinishTask?
    ensures w'.s == s' && Moves(w, move, w')
  {
    assert w.s.current < |w.tasks|;
    hide Inv, Step;
    var r := w.tasks[w.s.current];
    w' := w.(s := s', tasks := w.tasks[w.s.current := M.Reaped(r.(env := None, state := M.Done))], out := w.out - M.StacksOf(r),
             released := w.released + (if r.env.Some? then [r.env.value] else []));
  }

  lemma OtherMoved(w: World, move: Move, s': Sched) returns (w': World)
    requires Inv(w.s) && |w.tasks| == |w.s.tasks| && Step(w.s, move.op, s') && !move.op.SpawnTask? && !move.op.FinishTask?
    ensures w'.s == s' && Moves(w, move, w')
  {
    if move.op.CollectTask? { CollectGives(w.s, s'); }
    hide Inv, Step;
    var op, still := move.op, w.(s := s');
    if op.AwaitTask? && AwaitAnswer(w.s, op.handle).Success? {
      var t := Resolve(w.s, op.handle).value;
      w' := still.(tasks := Returned(w.tasks, t, w.s.tasks[t].njoiners == 0));
    } else if op.CollectTask? {
      var t := w.s.tasks[w.s.current].pc.target;
      w' := still.(tasks := Returned(w.tasks, t, w.s.tasks[t].njoiners == 1));
    } else if op.DetachTask? && DetachAnswer(w.s, op.handle).Success? {
      var t := Resolve(w.s, op.handle).value;
      w' := still.(tasks := w.tasks[t := LetGo(w.tasks[t])]);
    } else {
      w' := still;
    }
  }
}
