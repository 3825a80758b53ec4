/** The green-thread scheduler of one OS thread, as values.

    A task is named by its index in the slot table. The intrusive lists of the runtime (run
    queue, free slots, zombies, waiters, lock waiters) appear here as the sequences they hold;
    `SchedHeap` is the linked form and is proved to compute exactly these functions.

    Each function is what one call does between two points at which task code runs. The operations
    that park take a `log`: the completions that the polls inside the call collect, in order. */
module SchedModel {
  import opened Runs

  const GEN_MASK := 2047
  const IDX_SPAN := 1048576
  const FIRST_CAP := 64
  const COUNT_MAX := 0xFFFF_FFFF

  datatype State = Free | Ready | Running | Joining | Waiting | Done

  /** Where a suspended task resumes: in its own code, after the park inside await (still holding
      the task it awaited), or in the retry loop of a thread lock. */
  datatype Pc = Code | Collect(target: nat) | Retry(lock: nat)

  /** `epoch` counts the retirements of the slot, `born` its allocations and `want` is the unsafe
      stack pointer the task itself last set; they only serve to state properties. */
  datatype Task = Task(
    state: State, gen: nat, detached: bool, njoiners: nat, waiters: seq<nat>, usp: int, res: int,
    pc: Pc, epoch: nat, born: nat, want: int)

  datatype LockWait = LockWait(lock: nat, task: nat)

  /** How a thread lock is asked for: as a mutex, a spin lock or a write lock; as a recursive mutex;
      to read. */
  datatype Mode = Exclusive | Recursive | Shared

  /** A thread lock is held by one of this thread's tasks, by this thread as often as its tasks took
      it (a recursive mutex knows threads, not tasks), by as many as read, or by another thread. */
  datatype Holder = Ours(task: nat) | Thread(depth: nat) | Readers(count: nat) | Foreign

  datatype Completion = Completion(task: nat, res: int)

  /** `out` is the set of tasks with an operation outstanding at the i/o backend, `cap` the size of
      the slot table and `tls` the thread's one unsafe stack pointer. */
  datatype Sched = Sched(
    tasks: seq<Task>, current: nat, rq: seq<nat>, free: seq<nat>, zombies: seq<nat>,
    out: set<nat>, cap: nat, live: int, inflight: int,
    lockq: seq<LockWait>, held: map<nat, Holder>, tls: int)

  /** What a call ends in: task code running again, or the panic for having nothing left to run. */
  datatype Outcome = Went(s: Sched) | Deadlock(s: Sched)

  ghost predicate NoDup<T>(q: seq<T>) {
    forall i, j :: 0 <= i < j < |q| ==> q[i] != q[j]
  }

  ghost predicate AllBelow(q: seq<nat>, n: nat) {
    forall i :: 0 <= i < |q| ==> q[i] < n
  }

  /** Every list of the runtime names slots of the table. */
  ghost predicate InRange(s: Sched) {
    && s.current < |s.tasks|
    && AllBelow(s.rq, |s.tasks|) && AllBelow(s.free, |s.tasks|) && AllBelow(s.zombies, |s.tasks|)
    && (forall i :: 0 <= i < |s.tasks| ==> AllBelow(s.tasks[i].waiters, |s.tasks|))
    && (forall t <- s.out :: t < |s.tasks|)
  }

  function Without(q: seq<nat>, x: nat): (r: seq<nat>)
    ensures forall i :: 0 <= i < |r| ==> r[i] in q
  {
    if q == [] then [] else if q[0] == x then q[1..] else [q[0]] + Without(q[1..], x)
  }

  // ---------- run queue and reaping ----------

  function Push(s: Sched, t: nat): (r: Sched)
    requires InRange(s) && t < |s.tasks|
    ensures InRange(r) && |r.tasks| == |s.tasks|
  {
    s.(tasks := s.tasks[t := s.tasks[t].(state := Ready)], rq := s.rq + [t])
  }

  function PushAll(s: Sched, ws: seq<nat>): (r: Sched)
    requires InRange(s) && AllBelow(ws, |s.tasks|)
    ensures InRange(r) && |r.tasks| == |s.tasks|
    decreases |ws|
  {
    if ws == [] then s else PushAll(Push(s, ws[0]), ws[1..])
  }

  function NextGen(gen: nat): nat {
    var g := (gen + 1) % (GEN_MASK + 1);
    if g == 0 then 1 else g
  }

  function Retire(s: Sched, t: nat): (r: Sched)
    requires InRange(s) && t < |s.tasks|
    ensures InRange(r) && |r.tasks| == |s.tasks|
  {
    var k := s.tasks[t];
    s.(tasks := s.tasks[t := k.(state := Free, gen := NextGen(k.gen), epoch := k.epoch + 1)],
       free := [t] + s.free, live := s.live - 1)
  }

  function ReapOne(s: Sched, z: nat): (r: Sched)
    requires InRange(s) && z < |s.tasks|
    ensures InRange(r) && |r.tasks| == |s.tasks|
  {
    if s.tasks[z].detached then Retire(s, z) else s
  }

  function ReapList(s: Sched, zs: seq<nat>): (r: Sched)
    requires InRange(s) && AllBelow(zs, |s.tasks|)
    ensures InRange(r) && |r.tasks| == |s.tasks|
    decreases |zs|
  {
    if zs == [] then s else ReapList(ReapOne(s, zs[0]), zs[1..])
  }

  function Reap(s: Sched): (r: Sched)
    requires InRange(s)
    ensures InRange(r) && |r.tasks| == |s.tasks|
  {
    ReapList(s.(zombies := []), s.zombies)
  }

  // ---------- completions ----------

  function Deliver1(s: Sched, c: Completion): (r: Sched)
    requires InRange(s) && c.task < |s.tasks|
    ensures InRange(r) && |r.tasks| == |s.tasks|
  {
    Push(s.(tasks := s.tasks[c.task := s.tasks[c.task].(res := c.res)],
            out := s.out - {c.task}, inflight := s.inflight - 1), c.task)
  }

  /** The i/o backend's side of the contract: what is collected was outstanding, each once. */
  ghost predicate Deliverable(s: Sched, log: seq<Completion>)
    requires InRange(s)
    decreases |log|
  {
    log == [] || (log[0].task in s.out && Deliverable(Deliver1(s, log[0]), log[1..]))
  }

  function Deliver(s: Sched, log: seq<Completion>): (r: Sched)
    requires InRange(s) && Deliverable(s, log)
    ensures InRange(r) && |r.tasks| == |s.tasks|
    decreases |log|
  {
    if log == [] then s else Deliver(Deliver1(s, log[0]), log[1..])
  }

  // ---------- switching ----------

  /** The running task goes to the tail of the run queue and `n`, taken off it, runs. */
  function Handoff(s: Sched, n: nat): (r: Sched)
    requires InRange(s) && n < |s.tasks|
    ensures InRange(r) && |r.tasks| == |s.tasks|
  {
    var ready := s.tasks[s.current := s.tasks[s.current].(state := Ready, usp := s.tls)];
    s.(tasks := ready[n := ready[n].(state := Running)], rq := Without(s.rq, n) + [s.current],
       current := n, tls := ready[n].usp)
  }

  /** A task that has parked switches to the head of the run queue, which may be itself. */
  function SwitchAway(s: Sched): (r: Sched)
    requires InRange(s) && s.rq != []
    ensures InRange(r) && |r.tasks| == |s.tasks|
  {
    var n := s.rq[0];
    if n == s.current then
      s.(tasks := s.tasks[n := s.tasks[n].(state := Running)], rq := s.rq[1..])
    else
      var saved := s.tasks[s.current := s.tasks[s.current].(usp := s.tls)];
      s.(tasks := saved[n := saved[n].(state := Running)], rq := s.rq[1..], current := n, tls := saved[n].usp)
  }

  /** A finished task switches to the head of the run queue for good; its pointer is not kept. */
  function SwitchForGood(s: Sched): (r: Sched)
    requires InRange(s) && s.rq != []
    ensures InRange(r) && |r.tasks| == |s.tasks|
  {
    var n := s.rq[0];
    s.(tasks := s.tasks[n := s.tasks[n].(state := Running)], rq := s.rq[1..], current := n, tls := s.tasks[n].usp)
  }

  /** The polls of a pick go on until a task is runnable or nothing is outstanding. */
  ghost predicate PicksWith(s: Sched, log: seq<Completion>)
    requires InRange(s)
  {
    && Deliverable(s, log)
    && var d := Deliver(s, log);
       d.rq != [] || d.inflight == 0
  }

  function Block(s: Sched, log: seq<Completion>): Outcome
    requires InRange(s) && PicksWith(s, log)
  {
    var d := Deliver(s, log);
    if d.rq == [] then Deadlock(d) else Went(Reap(SwitchAway(d)))
  }

  // ---------- handles and slots ----------

  function Handle(gen: nat, idx: nat): int {
    gen * IDX_SPAN + idx
  }

  function Resolve(s: Sched, handle: int): Option<nat> {
    if handle <= 0 then None else
    var idx := handle % IDX_SPAN;
    var gen := (handle / IDX_SPAN) % (GEN_MASK + 1);
    if idx >= |s.tasks| then None
    else if s.tasks[idx].gen != gen || s.tasks[idx].state.Free? then None
    else Some(idx)
  }

  function Grown(cap: nat): nat {
    if cap == 0 then FIRST_CAP else cap * 2
  }

  /** What the allocator answers: for a larger table, for a new slot, and for the stacks. */
  datatype Memory = Memory(table: bool, slot: bool, stacks: bool)

  predicate NoSlot(s: Sched, m: Memory) {
    s.free == [] && ((|s.tasks| == s.cap && (Grown(s.cap) > IDX_SPAN - 1 || !m.table)) || !m.slot)
  }

  function Fresh(gen: nat, epoch: nat, born: nat, usp: int): Task {
    Task(Free, gen, false, 0, [], usp, 0, Code, epoch, born, usp)
  }

  /** The state with a slot taken for a new task, whose stack pointer will start at `usp`. The
      table may grow even where no slot then comes of it. */
  function SlotAlloc(s: Sched, m: Memory, usp: int): (r: (Sched, Option<nat>))
    requires InRange(s)
    ensures InRange(r.0)
    ensures r.1.Some? ==> r.1.value < |r.0.tasks|
    ensures r.1.None? <==> NoSlot(s, m)
  {
    if s.free != [] then
      var t := s.free[0];
      var k := s.tasks[t];
      (s.(tasks := s.tasks[t := Fresh(if k.gen == 0 then 1 else k.gen, k.epoch, k.born + 1, usp)],
          free := s.free[1..], live := s.live + 1), Some(t))
    else if |s.tasks| == s.cap && (Grown(s.cap) > IDX_SPAN - 1 || !m.table) then (s, None)
    else
      var g := if |s.tasks| == s.cap then s.(cap := Grown(s.cap)) else s;
      if !m.slot then (g, None)
      else (g.(tasks := g.tasks + [Fresh(1, 0, 1, usp)], live := g.live + 1), Some(|g.tasks|))
  }

  // ---------- spawn, await, detach, finish ----------

  /** The new state, and the handle if there was room for the task. */
  function Spawn(s: Sched, m: Memory, usp: int): (r: (Sched, Option<int>))
    requires InRange(s)
    ensures InRange(r.0)
  {
    var (a, slot) := SlotAlloc(s, m, usp);
    match slot
    case None => (a, None)
    case Some(t) =>
      if m.stacks then (Push(a, t), Some(Handle(a.tasks[t].gen, t))) else (Retire(a, t), None)
  }

  function Yield(s: Sched, log: seq<Completion>): (r: Sched)
    requires InRange(s) && Deliverable(s, log)
    ensures InRange(r)
  {
    var d := Deliver(s, log);
    if d.rq == [] then d else Handoff(d, d.rq[0])
  }

  /** What await and detach answer at once, by sppc's error numbers. */
  datatype Answer = Success | Invalid | WouldDeadlock | Parks

  function AwaitAnswer(s: Sched, handle: int): Answer {
    match Resolve(s, handle)
    case None => Invalid
    case Some(t) =>
      if t == s.current then WouldDeadlock
      else if s.tasks[t].detached then Invalid
      else if s.tasks[t].state.Done? then Success
      else Parks
  }

  /** The running task on the waiter list of `t`, no longer running. */
  function Park(s: Sched, t: nat): (r: Sched)
    requires InRange(s) && t < |s.tasks|
    ensures InRange(r) && |r.tasks| == |s.tasks|
  {
    var joined := s.tasks[t := s.tasks[t].(waiters := [s.current] + s.tasks[t].waiters,
                                           njoiners := s.tasks[t].njoiners + 1)];
    s.(tasks := joined[s.current := joined[s.current].(state := Joining, pc := Collect(t))])
  }

  function Await(s: Sched, handle: int, log: seq<Completion>): Outcome
    requires InRange(s)
    requires AwaitAnswer(s, handle).Parks? ==> PicksWith(Park(s, Resolve(s, handle).value), log)
  {
    match AwaitAnswer(s, handle)
    case Parks => Block(Park(s, Resolve(s, handle).value), log)
    case Success =>
      var t := Resolve(s, handle).value;
      Went(if s.tasks[t].njoiners == 0 then Retire(s, t) else s)
    case _ => Went(s)
  }

  /** The part of await after its park, run once the awaiter is resumed. */
  function CollectJoin(s: Sched): (r: Sched)
    requires InRange(s) && s.tasks[s.current].pc.Collect?
    requires s.tasks[s.current].pc.target < |s.tasks| && s.tasks[s.tasks[s.current].pc.target].njoiners > 0
    ensures InRange(r)
  {
    var t := s.tasks[s.current].pc.target;
    var back := s.tasks[s.current := s.tasks[s.current].(pc := Code)];
    var left := s.(tasks := back[t := back[t].(njoiners := back[t].njoiners - 1)]);
    if left.tasks[t].njoiners == 0 then Retire(left, t) else left
  }

  function DetachAnswer(s: Sched, handle: int): Answer {
    match Resolve(s, handle)
    case None => Invalid
    case Some(t) => if t == s.current || s.tasks[t].detached then Invalid else Success
  }

  function Detach(s: Sched, handle: int): (r: Sched)
    requires InRange(s)
    ensures InRange(r)
  {
    if !DetachAnswer(s, handle).Success? then s else
    var t := Resolve(s, handle).value;
    var d := s.(tasks := s.tasks[t := s.tasks[t].(detached := true)]);
    if d.tasks[t].state.Done? then Retire(d, t) else d
  }

  /** The running task parked with one operation handed to the backend. */
  function Submit(s: Sched): (r: Sched)
    requires InRange(s)
    ensures InRange(r) && |r.tasks| == |s.tasks|
  {
    s.(tasks := s.tasks[s.current := s.tasks[s.current].(state := Waiting)],
       out := s.out + {s.current}, inflight := s.inflight + 1)
  }

  /** The running task finished: its awaiters woken, itself handed over to be reaped. */
  function Complete(s: Sched): (r: Sched)
    requires InRange(s)
    ensures InRange(r) && |r.tasks| == |s.tasks|
  {
    var ws := s.tasks[s.current].waiters;
    var d := s.(tasks := s.tasks[s.current := s.tasks[s.current].(state := Done, waiters := [])]);
    var p := PushAll(d, ws);
    p.(zombies := [s.current] + p.zombies)
  }

  function Finish(s: Sched, log: seq<Completion>): Outcome
    requires InRange(s) && PicksWith(Complete(s), log)
  {
    var d := Deliver(Complete(s), log);
    if d.rq == [] then Deadlock(d) else Went(Reap(SwitchForGood(d)))
  }

  // ---------- thread locks ----------

  /** The task of the oldest waiter queued on `lock` that is ready to run. */
  function FirstWaiting(s: Sched, lock: nat, q: seq<LockWait>): (r: Option<nat>)
    ensures r.Some? ==> r.value < |s.tasks| && r.value in s.rq
  {
    if q == [] then None
    else if q[0].lock == lock && q[0].task < |s.tasks| && s.tasks[q[0].task].state.Ready? && q[0].task in s.rq then
      Some(q[0].task)
    else FirstWaiting(s, lock, q[1..])
  }

  /** The oldest waiter on a lock just released, run ahead of the releaser. */
  function LockReleased(s: Sched, lock: nat): (r: Sched)
    requires InRange(s)
    ensures InRange(r) && |r.tasks| == |s.tasks|
  {
    match FirstWaiting(s, lock, s.lockq)
    case None => s
    case Some(t) => Handoff(s, t)
  }

  /** How often the lock is held. */
  function Holds(held: map<nat, Holder>, lock: nat): nat {
    if lock !in held then 0 else
    match held[lock]
    case Thread(depth) => depth
    case Readers(count) => count
    case _ => 1
  }

  /** Whether a try from this thread finds the lock held: whichever task makes it is all one to it. */
  predicate Busy(held: map<nat, Holder>, lock: nat, mode: Mode) {
    lock in held && !(mode.Recursive? && held[lock].Thread?) && !(mode.Shared? && held[lock].Readers?)
  }

  /** One that is not busy is had, but for a recursive mutex taken as often as can be counted. */
  predicate TrySucceeds(held: map<nat, Holder>, lock: nat, mode: Mode) {
    !Busy(held, lock, mode) && (mode.Recursive? ==> Holds(held, lock) < COUNT_MAX)
  }

  /** Who holds the locks once `task` has got this one. */
  function Taken(held: map<nat, Holder>, lock: nat, mode: Mode, task: nat): map<nat, Holder> {
    match mode
    case Exclusive => held[lock := Ours(task)]
    case Recursive => held[lock := Thread(Holds(held, lock) + 1)]
    case Shared => held[lock := Readers(Holds(held, lock) + 1)]
  }

  /** Whether giving the lock up once leaves it held. */
  predicate StillHeld(held: map<nat, Holder>, lock: nat) {
    Holds(held, lock) > 1
  }

  function GivenBack(held: map<nat, Holder>, lock: nat): map<nat, Holder> {
    if !StillHeld(held, lock) then held - {lock}
    else if held[lock].Thread? then held[lock := Thread(held[lock].depth - 1)]
    else held[lock := Readers(held[lock].count - 1)]
  }

  /** Every unlock that succeeds lets a waiter run, one that leaves the lock held too. */
  function Unlock(s: Sched, lock: nat): (r: Sched)
    requires InRange(s)
    ensures InRange(r) && |r.tasks| == |s.tasks|
  {
    LockReleased(s.(held := GivenBack(s.held, lock)), lock)
  }

  function Enqueue(s: Sched, lock: nat): (r: Sched)
    requires InRange(s)
    ensures InRange(r) && |r.tasks| == |s.tasks|
  {
    if s.tasks[s.current].pc.Retry? then s else
    s.(tasks := s.tasks[s.current := s.tasks[s.current].(pc := Retry(lock))],
       lockq := s.lockq + [LockWait(lock, s.current)])
  }

  function DropWaiter(q: seq<LockWait>, t: nat): seq<LockWait> {
    if q == [] then [] else if q[0].task == t then q[1..] else [q[0]] + DropWaiter(q[1..], t)
  }

  function Dequeue(s: Sched): (r: Sched)
    requires InRange(s)
    ensures InRange(r) && |r.tasks| == |s.tasks|
  {
    if !s.tasks[s.current].pc.Retry? then s else
    s.(tasks := s.tasks[s.current := s.tasks[s.current].(pc := Code)], lockq := DropWaiter(s.lockq, s.current))
  }
}
