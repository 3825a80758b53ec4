/** The scheduler as it is linked in memory: intrusive lists through the tasks themselves.

    `m` is the value the linked state stands for, and each method's contract equates it with the
    function of `SchedModel` that the call computes. A context switch is the change of `current`
    and of the unsafe stack pointer; what the task switched to does first, reaping, belongs to it. */
module SchedHeap {
  import opened Runs
  import opened SchedModel
  import opened SchedInvariant

  class GtTask {
    const idx: nat
    var next: GtTask?
    var waiters: GtTask?
    var wnext: GtTask?
    var njoiners: int
    var ioRes: int
    var gen: nat
    var state: State
    var detached: bool
    var usp: int

    constructor (idx: nat, gen: nat, usp: int)
      ensures this.idx == idx && this.gen == gen && this.usp == usp
      ensures next == null && waiters == null && wnext == null && njoiners == 0 && ioRes == 0
      ensures state == Free && !detached
    {
      this.idx, this.gen, this.usp := idx, gen, usp;
      next, waiters, wnext, njoiners, ioRes := null, null, null, 0, 0;
      state, detached := Free, false;
    }
  }

  class GtLockWaiter {
    const lock: nat
    const task: GtTask
    var next: GtLockWaiter?

    constructor (lock: nat, task: GtTask)
      ensures this.lock == lock && this.task == task
    {
      this.lock, this.task := lock, task;
      next := null;
    }
  }

  ghost predicate Indexed(slots: seq<GtTask>) {
    forall i {:trigger slots[i]} :: 0 <= i < |slots| ==> slots[i].idx == i
  }

  /** The task in memory is the one the model has. */
  ghost predicate Mirrors(t: GtTask, k: Task)
    reads t`state, t`gen, t`detached, t`njoiners, t`usp, t`ioRes
  {
    t.state == k.state && t.gen == k.gen && t.detached == k.detached && t.njoiners == k.njoiners
    && t.usp == k.usp && t.ioRes == k.res
  }

  /** The `k`th task of the list that `q` names, or null past its end. */
  ghost function At(slots: seq<GtTask>, q: seq<nat>, k: int): GtTask? {
    if 0 <= k < |q| && q[k] < |slots| then slots[q[k]] else null
  }

  /** `head` begins the list of the slots that `q` names, `links[i]` being where slot `i` leads. */
  ghost predicate Linked(slots: seq<GtTask>, links: seq<GtTask?>, head: GtTask?, q: seq<nat>) {
    && |links| == |slots| && AllBelow(q, |slots|)
    && head == At(slots, q, 0)
    && forall k {:trigger links[q[k]]} :: 0 <= k < |q| ==> links[q[k]] == At(slots, q, k + 1)
  }

  /** A link stored elsewhere leaves the list as it is. */
  lemma LinkedStore(slots: seq<GtTask>, links: seq<GtTask?>, head: GtTask?, q: seq<nat>, t: nat, x: GtTask?)
    requires Linked(slots, links, head, q) && t < |slots| && t !in q
    ensures Linked(slots, links[t := x], head, q)
  {
  }

  /** Appending: the old tail leads to the new, which leads nowhere. */
  lemma LinkedAppend(slots: seq<GtTask>, links: seq<GtTask?>, head: GtTask?, q: seq<nat>, t: nat)
    requires Linked(slots, links, head, q) && NoDup(q) && t < |slots| && t !in q
    ensures if q == [] then Linked(slots, links[t := null], slots[t], [t])
            else Linked(slots, links[t := null][q[|q| - 1] := slots[t]], head, q + [t])
  {
    if q != [] {
      var links' := links[t := null][q[|q| - 1] := slots[t]];
      forall k | 0 <= k < |q| + 1 ensures links'[(q + [t])[k]] == At(slots, q + [t], k + 1) {
        if k < |q| - 1 { assert q[k] != q[|q| - 1]; }
      }
    }
  }

  /** Taking the head off, its own link cleared or put to another use. */
  lemma LinkedTail(slots: seq<GtTask>, links: seq<GtTask?>, head: GtTask?, q: seq<nat>, x: GtTask?)
    requires Linked(slots, links, head, q) && NoDup(q) && q != []
    ensures Linked(slots, links[q[0] := x], links[q[0]], q[1..])
  {
  }

  lemma WithoutAt(q: seq<nat>, x: nat, k: nat)
    requires k < |q| && q[k] == x && x !in q[..k]
    ensures Without(q, x) == q[..k] + q[k + 1..]
  {
    if k > 0 {
      assert q[0] == q[..k][0];
      assert q[1..][..k - 1] == q[..k][1..];
      WithoutAt(q[1..], x, k - 1);
      assert q[1..][k..] == q[k + 1..];
    }
  }

  lemma WithoutNone(q: seq<nat>, x: nat)
    requires x !in q
    ensures Without(q, x) == q
  {
  }

  /** Cutting out a task that another leads to. */
  lemma LinkedCut(slots: seq<GtTask>, links: seq<GtTask?>, head: GtTask?, q: seq<nat>, k: nat)
    requires Linked(slots, links, head, q) && NoDup(q) && 0 < k < |q|
    ensures Linked(slots, links[q[k - 1] := links[q[k]]][q[k] := null], head, q[..k] + q[k + 1..])
  {
    var r := q[..k] + q[k + 1..];
    var links' := links[q[k - 1] := links[q[k]]][q[k] := null];
    forall j | 0 <= j < |r| ensures links'[r[j]] == At(slots, r, j + 1) {
      var i := if j < k then j else j + 1;
      assert r[j] == q[i] && q[i] != q[k];
      if j == k - 1 { assert links'[r[j]] == links[q[k]]; } else { assert q[i] != q[k - 1]; }
    }
  }

  ghost function CutLinks(links: seq<GtTask?>, q: seq<nat>, k: nat): seq<GtTask?>
    requires k < |q| && AllBelow(q, |links|)
  {
    (if k == 0 then links else links[q[k - 1] := links[q[k]]])[q[k] := null]
  }

  /** The list after the task in place `k` is cut out. */
  lemma CutLinked(slots: seq<GtTask>, links: seq<GtTask?>, head: GtTask?, q: seq<nat>, k: nat)
    requires Linked(slots, links, head, q) && NoDup(q) && k < |q|
    ensures Linked(slots, CutLinks(links, q, k), if k == 0 then links[q[0]] else head, q[..k] + q[k + 1..])
  {
    if k == 0 {
      LinkedTail(slots, links, head, q, null);
      assert q[..0] + q[1..] == q[1..];
    } else {
      LinkedCut(slots, links, head, q, k);
    }
  }

  /** And another list beside it. */
  lemma CutBeside(slots: seq<GtTask>, links: seq<GtTask?>, q: seq<nat>, other: GtTask?, p: seq<nat>, k: nat)
    requires AllBelow(q, |slots|) && k < |q| && Linked(slots, links, other, p) && forall x :: x in q ==> x !in p
    ensures Linked(slots, CutLinks(links, q, k), other, p)
    ensures Apart(q[..k] + q[k + 1..], p)
  {
    assert q[k] in q;
    if k == 0 {
      LinkedStore(slots, links, other, p, q[0], null);
    } else {
      assert q[k - 1] in q;
      LinkedStore(slots, links, other, p, q[k - 1], links[q[k]]);
      hide Linked;
      LinkedStore(slots, links[q[k - 1] := links[q[k]]], other, p, q[k], null);
    }
  }

  lemma CutNoDup(q: seq<nat>, k: nat)
    requires NoDup(q) && k < |q|
    ensures NoDup(q[..k] + q[k + 1..])
  {
    var r := q[..k] + q[k + 1..];
    assert forall j :: 0 <= j < |r| ==> r[j] == q[if j < k then j else j + 1];
  }

  /** What is last once the task in place `k` is cut out. */
  lemma CutTail(slots: seq<GtTask>, q: seq<nat>, k: nat)
    requires Indexed(slots) && AllBelow(q, |slots|) && NoDup(q) && k < |q|
    ensures var r := q[..k] + q[k + 1..];
            At(slots, r, |r| - 1) == if At(slots, q, |q| - 1) == slots[q[k]] then At(slots, q, k - 1) else At(slots, q, |q| - 1)
  {
    if k < |q| - 1 {
      assert q[k] != q[|q| - 1];
      assert slots[q[k]].idx != slots[q[|q| - 1]].idx;
    }
  }

  lemma LinkedCons(slots: seq<GtTask>, links: seq<GtTask?>, head: GtTask?, q: seq<nat>, t: nat)
    requires Linked(slots, links, head, q) && t < |slots| && t !in q
    ensures Linked(slots, links[t := head], slots[t], [t] + q)
  {
    forall k | 0 <= k < |q| + 1 ensures links[t := head][([t] + q)[k]] == At(slots, [t] + q, k + 1) {
      if k > 0 { assert ([t] + q)[k] == q[k - 1]; }
    }
  }

  /** A slot added to the table, on no list yet. */
  lemma LinkedGrow(slots: seq<GtTask>, links: seq<GtTask?>, head: GtTask?, q: seq<nat>, t: GtTask)
    requires Linked(slots, links, head, q)
    ensures Linked(slots + [t], links + [null], head, q)
  {
  }

  ghost predicate Apart(p: seq<nat>, q: seq<nat>) {
    forall x :: x in p ==> x !in q
  }

  ghost predicate AllApart(wait: seq<seq<nat>>) {
    && (forall i :: 0 <= i < |wait| ==> NoDup(wait[i]))
    && (forall i, j :: 0 <= i < j < |wait| ==> Apart(wait[i], wait[j]))
  }

  ghost predicate SlotsMirror(slots: seq<GtTask>, tasks: seq<Task>)
    reads slots`state, slots`gen, slots`detached, slots`njoiners, slots`usp, slots`ioRes
  {
    && |slots| == |tasks| && Indexed(slots)
    && forall i {:trigger slots[i]} :: 0 <= i < |slots| ==> Mirrors(slots[i], tasks[i])
  }

  ghost predicate WaitIs(wait: seq<seq<nat>>, tasks: seq<Task>) {
    |wait| == |tasks| && forall i {:trigger wait[i]} :: 0 <= i < |wait| ==> wait[i] == tasks[i].waiters
  }

  ghost predicate QueueIs(queue: seq<GtLockWaiter>, slots: seq<GtTask>, lockq: seq<LockWait>) {
    && |queue| == |lockq|
    && forall k {:trigger lockq[k]} :: 0 <= k < |queue| ==>
         queue[k].lock == lockq[k].lock && lockq[k].task < |slots| && queue[k].task == slots[lockq[k].task]
  }

  lemma RecInRange(s: Sched, i: nat, k: Task)
    requires InRange(s) && i < |s.tasks| && AllBelow(k.waiters, |s.tasks|)
    ensures InRange(s.(tasks := s.tasks[i := k]))
  {
  }

  lemma WaiterInRange(s: Sched, i: nat)
    requires InRange(s) && i < |s.tasks|
    ensures s.current < |s.tasks| && AllBelow(s.tasks[i].waiters, |s.tasks|)
    ensures AllBelow([s.current] + s.tasks[i].waiters, |s.tasks|)
  {
  }

  lemma TakesIn(s: Sched, t: nat)
    requires InRange(s) && t < |s.tasks|
    ensures InRange(s.(rq := s.rq + [t])) && InRange(s.(zombies := [t] + s.zombies))
    ensures InRange(s.(free := [t] + s.free, live := s.live - 1))
  {
  }

  lemma PopsFrom(s: Sched)
    requires InRange(s) && s.rq != []
    ensures InRange(s.(rq := s.rq[1..]))
  {
  }

  lemma LeavesQueue(s: Sched, t: nat)
    requires InRange(s)
    ensures InRange(s.(rq := Without(s.rq, t)))
  {
  }

  lemma NoZombiesInRange(s: Sched)
    requires InRange(s)
    ensures InRange(s.(zombies := []))
  {
  }

  class GtRuntime {
    var current: GtTask
    var rqHead: GtTask?
    var rqTail: GtTask?
    var freeSlots: GtTask?
    var zombies: GtTask?
    var slots: seq<GtTask>
    var cslots: nat
    var live: int
    var inflight: int
    var lockWaiters: GtLockWaiter?
    var tls: int

    // Where each slot's links lead, what the linked lists hold, and what the whole stands for.
    ghost var nexts: seq<GtTask?>
    ghost var wnexts: seq<GtTask?>
    ghost var heads: seq<GtTask?>
    ghost var rq: seq<nat>
    ghost var free: seq<nat>
    ghost var dead: seq<nat>
    ghost var wait: seq<seq<nat>>
    ghost var queue: seq<GtLockWaiter>
    ghost var m: Sched

    ghost predicate SlotsOk()
      reads `slots, `m, slots`state, slots`gen, slots`detached, slots`njoiners, slots`usp, slots`ioRes
    {
      SlotsMirror(slots, m.tasks)
    }

    ghost predicate NextsOk()
      reads `slots, `nexts, slots`next
    {
      |nexts| == |slots| && forall i {:trigger nexts[i]} :: 0 <= i < |slots| ==> slots[i].next == nexts[i]
    }

    ghost predicate WaitsOk()
      reads `slots, `wnexts, `heads, slots`wnext, slots`waiters
    {
      && |wnexts| == |slots| && (forall i {:trigger wnexts[i]} :: 0 <= i < |slots| ==> slots[i].wnext == wnexts[i])
      && |heads| == |slots| && (forall i {:trigger heads[i]} :: 0 <= i < |slots| ==> slots[i].waiters == heads[i])
    }

    /** The lists through `next`: no task is on two of them. */
    ghost predicate ListsLinked()
      reads `slots, `rqHead, `rqTail, `freeSlots, `zombies, `rq, `free, `dead, `nexts
    {
      && Indexed(slots)
      && Linked(slots, nexts, rqHead, rq) && NoDup(rq) && rqTail == At(slots, rq, |rq| - 1)
      && Linked(slots, nexts, freeSlots, free) && NoDup(free)
      && Linked(slots, nexts, zombies, dead) && NoDup(dead)
      && Apart(rq, free) && Apart(rq, dead) && Apart(free, dead)
    }

    /** The waiter lists, through `wnext`. */
    ghost predicate WaitsLinked()
      reads `slots, `wait, `wnexts, `heads
    {
      && |wait| == |slots| == |heads| && AllApart(wait)
      && (forall i {:trigger wait[i]} :: 0 <= i < |slots| ==> Linked(slots, wnexts, heads[i], wait[i]))
    }

    ghost predicate QueueOk()
      reads `queue, `lockWaiters, queue
    {
      && NoDup(queue)
      && lockWaiters == (if queue == [] then null else queue[0])
      && (forall k {:trigger queue[k].next} :: 0 <= k < |queue| ==>
            queue[k].next == if k + 1 < |queue| then queue[k + 1] else null)
    }

    ghost predicate Agrees()
      reads `slots, `m, `rq, `free, `dead, `wait, `queue, `current, `cslots, `live, `inflight, `tls
    {
      InRange(m) && |slots| == |m.tasks| && Indexed(slots) && StandsFor(m)
    }

    /** The linked state stands for `m`. */
    ghost predicate Valid()
      reads this, slots, queue
    {
      SlotsOk() && NextsOk() && ListsLinked() && WaitsOk() && WaitsLinked() && QueueOk() && Agrees()
    }

    /** The thread that starts the runtime becomes its first task, which runs. */
    constructor (usp: int)
      ensures Valid() && m == Started(usp) && fresh(slots) && queue == []
    {
      var main := new GtTask(0, 1, usp);
      main.state := Running;
      slots, cslots, live := [main], FIRST_CAP, 1;
      current, tls := main, usp;
      rqHead, rqTail, freeSlots, zombies, lockWaiters, inflight := null, null, null, null, null, 0;
      nexts, wnexts, heads, rq, free, dead, wait, queue := [null], [null], [null], [], [], [], [[]], [];
      m := Started(usp);
    }

    // ---------- linking ----------

    /** `t` is on none of the lists that its `next` could be linking. */
    ghost predicate Loose(t: nat)
      reads `slots, `rq, `free, `dead
    {
      t < |slots| && t !in rq && t !in free && t !in dead
    }

    method LinkReady(t: GtTask)
      requires NextsOk() && ListsLinked() && Loose(t.idx) && slots[t.idx] == t
      modifies `rqHead, `rqTail, `rq, `nexts, slots`next
      ensures NextsOk() && ListsLinked() && rq == old(rq) + [t.idx]
    {
      ghost var i := t.idx;
      LinkedAppend(slots, nexts, rqHead, rq, i);
      LinkedStore(slots, nexts, freeSlots, free, i, null);
      LinkedStore(slots, nexts, zombies, dead, i, null);
      t.next := null;
      nexts := nexts[i := null];
      if rqTail != null {
        ghost var last := rq[|rq| - 1];
        assert last in rq;
        LinkedStore(slots, nexts, freeSlots, free, last, t);
        LinkedStore(slots, nexts, zombies, dead, last, t);
        rqTail.next := t;
        nexts := nexts[last := t];
      } else {
        rqHead := t;
      }
      rqTail := t;
      rq := rq + [i];
    }

    method UnlinkReady() returns (t: GtTask?)
      requires NextsOk() && ListsLinked()
      modifies `rqHead, `rqTail, `rq, `nexts, slots`next
      ensures NextsOk() && ListsLinked()
      ensures old(rq) == [] ==> t == null && rq == []
      ensures old(rq) != [] ==> t != null && t == slots[old(rq)[0]] && rq == old(rq)[1..]
    {
      t := rqHead;
      if t == null { return; }
      assert rq[0] in rq;
      LinkedTail(slots, nexts, rqHead, rq, null);
      LinkedStore(slots, nexts, freeSlots, free, rq[0], null);
      LinkedStore(slots, nexts, zombies, dead, rq[0], null);
      HeadAndTail(rq);
      rqHead := t.next;
      if rqHead == null { rqTail := null; }
      t.next := null;
      nexts := nexts[rq[0] := null];
      rq := rq[1..];
    }

    /** Cut out the task in place `k` of the run queue, which `prev` leads to. */
    method CutAt(prev: GtTask?, cur: GtTask, ghost k: nat)
      requires NextsOk() && ListsLinked() && k < |rq| && cur == slots[rq[k]] && prev == At(slots, rq, k - 1)
      modifies `rqHead, `rqTail, `rq, `nexts, slots`next
      ensures NextsOk() && ListsLinked() && rq == old(rq)[..k] + old(rq)[k + 1..]
    {
      ghost var q, links := rq, nexts;
      CutLinked(slots, nexts, rqHead, rq, k);
      CutNoDup(rq, k);
      CutBeside(slots, nexts, rq, freeSlots, free, k);
      CutBeside(slots, nexts, rq, zombies, dead, k);
      CutTail(slots, rq, k);
      if prev != null { prev.next := cur.next; } else { rqHead := cur.next; }
      if rqTail == cur { rqTail := prev; }
      cur.next := null;
      nexts := CutLinks(links, q, k);
      rq := q[..k] + q[k + 1..];
    }

    /** Take a task off the run queue, wherever on it it is. */
    method CutReady(t: GtTask) returns (found: bool)
      requires NextsOk() && ListsLinked() && t.idx < |slots| && slots[t.idx] == t
      modifies `rqHead, `rqTail, `rq, `nexts, slots`next
      ensures NextsOk() && ListsLinked() && found == (t.idx in old(rq)) && rq == Without(old(rq), t.idx)
    {
      ghost var k := 0;
      var prev: GtTask?, cur := null, rqHead;
      while cur != null
        invariant NextsOk() && ListsLinked() && rq == old(rq)
        invariant k <= |rq| && cur == At(slots, rq, k) && prev == At(slots, rq, k - 1)
        invariant t.idx !in rq[..k]
        decreases |rq| - k
      {
        assert rq[..k + 1] == rq[..k] + [rq[k]];
        assert nexts[rq[k]] == At(slots, rq, k + 1);
        if cur == t {
          WithoutAt(rq, t.idx, k);
          CutAt(prev, cur, k);
          return true;
        }
        prev, cur := cur, cur.next;
        k := k + 1;
      }
      assert rq[..k] == rq;
      WithoutNone(rq, t.idx);
      return false;
    }

    /** Back on the free list, first to be used again. */
    method LinkFree(t: GtTask)
      requires NextsOk() && ListsLinked() && Loose(t.idx) && slots[t.idx] == t
      modifies `freeSlots, `free, `nexts, slots`next
      ensures NextsOk() && ListsLinked() && free == [t.idx] + old(free)
      ensures nexts == old(nexts)[t.idx := old(freeSlots)]
    {
      LinkedCons(slots, nexts, freeSlots, free, t.idx);
      LinkedStore(slots, nexts, rqHead, rq, t.idx, freeSlots);
      LinkedStore(slots, nexts, zombies, dead, t.idx, freeSlots);
      t.next := freeSlots;
      nexts := nexts[t.idx := freeSlots];
      freeSlots := t;
      free := [t.idx] + free;
    }

    method LinkDead(t: GtTask)
      requires NextsOk() && ListsLinked() && Loose(t.idx) && slots[t.idx] == t
      modifies `zombies, `dead, `nexts, slots`next
      ensures NextsOk() && ListsLinked() && dead == [t.idx] + old(dead)
    {
      LinkedCons(slots, nexts, zombies, dead, t.idx);
      LinkedStore(slots, nexts, rqHead, rq, t.idx, zombies);
      LinkedStore(slots, nexts, freeSlots, free, t.idx, zombies);
      t.next := zombies;
      nexts := nexts[t.idx := zombies];
      zombies := t;
      dead := [t.idx] + dead;
    }

    /** The linked state stands for `now`. */
    ghost predicate StandsFor(now: Sched)
      reads `slots, `rq, `free, `dead, `wait, `queue, `current, `cslots, `live, `inflight, `tls
    {
      && rq == now.rq && free == now.free && dead == now.zombies
      && WaitIs(wait, now.tasks) && QueueIs(queue, slots, now.lockq) && now.current < |slots|
      && current == slots[now.current] && cslots == now.cap && live == now.live && inflight == now.inflight && tls == now.tls
    }

    /** With the links, the records and the lists in place, only the model is still to be moved on. */
    ghost method Restate(now: Sched)
      requires SlotsMirror(slots, now.tasks) && NextsOk() && ListsLinked() && WaitsOk() && WaitsLinked() && QueueOk()
      requires InRange(now) && StandsFor(now)
      modifies `m
      ensures Valid() && m == now
    {
      hide NextsOk, WaitsOk, WaitsLinked, QueueOk, InRange, WaitIs, QueueIs;
      m := now;
    }

    // ---------- the run queue ----------

    /** Nothing but what a task's record holds changes. */
    method SetState(t: GtTask, state: State)
      requires Valid() && t.idx < |slots| && slots[t.idx] == t
      modifies `m, slots`state
      ensures Valid() && m == old(m).(tasks := old(m).tasks[t.idx := old(m).tasks[t.idx].(state := state)])
    {
      hide QueueIs, InRange, ListsLinked, WaitsLinked, QueueOk, NextsOk, WaitsOk;
      t.state := state;
      WaiterInRange(m, t.idx);
      RecInRange(m, t.idx, m.tasks[t.idx].(state := state));
      Restate(m.(tasks := m.tasks[t.idx := m.tasks[t.idx].(state := state)]));
    }

    method Append(t: GtTask)
      requires Valid() && Loose(t.idx) && slots[t.idx] == t
      modifies `rqHead, `rqTail, `rq, `nexts, `m, slots`next
      ensures Valid() && m == old(m).(rq := old(m).rq + [t.idx])
    {
      hide ListsLinked, WaitsLinked, QueueOk, NextsOk, WaitsOk, SlotsMirror, WaitIs, QueueIs, InRange;
      LinkReady(t);
      TakesIn(m, t.idx);
      Restate(m.(rq := m.rq + [t.idx]));
    }

    method RqPush(t: GtTask)
      requires Valid() && Loose(t.idx) && slots[t.idx] == t
      modifies `rqHead, `rqTail, `rq, `nexts, `m, slots`next, slots`state
      ensures Valid() && m == Push(old(m), t.idx)
    {
      hide Valid;
      SetState(t, Ready);
      Append(t);
    }

    method RqPop() returns (t: GtTask?)
      requires Valid()
      modifies `rqHead, `rqTail, `rq, `nexts, `m, slots`next
      ensures Valid()
      ensures old(m.rq) == [] ==> t == null && m == old(m)
      ensures old(m.rq) != [] ==> t == slots[old(m.rq)[0]] && m == old(m).(rq := old(m.rq)[1..])
    {
      hide ListsLinked, WaitsLinked, QueueOk, NextsOk, WaitsOk, SlotsMirror, WaitIs, QueueIs, InRange;
      t := UnlinkReady();
      if t != null {
        PopsFrom(m);
        Restate(m.(rq := m.rq[1..]));
      }
    }

    method RqRemove(t: GtTask) returns (found: bool)
      requires Valid() && t.idx < |slots| && slots[t.idx] == t
      modifies `rqHead, `rqTail, `rq, `nexts, `m, slots`next
      ensures Valid() && found == (t.idx in old(m.rq)) && m == old(m).(rq := Without(old(m.rq), t.idx))
    {
      hide ListsLinked, WaitsLinked, QueueOk, NextsOk, WaitsOk, SlotsMirror, WaitIs, QueueIs, InRange;
      found := CutReady(t);
      LeavesQueue(m, t.idx);
      Restate(m.(rq := Without(m.rq, t.idx)));
    }

    // ---------- slots ----------

    method NextGeneration(t: GtTask)
      requires Valid() && t.idx < |slots| && slots[t.idx] == t
      modifies `m, slots`gen
      ensures Valid()
      ensures var k := old(m).tasks[t.idx];
              m == old(m).(tasks := old(m).tasks[t.idx := k.(gen := NextGen(k.gen), epoch := k.epoch + 1)])
    {
      hide QueueIs, InRange, ListsLinked, WaitsLinked, QueueOk, NextsOk, WaitsOk;
      ghost var k := m.tasks[t.idx];
      var gen := (t.gen + 1) % (GEN_MASK + 1);
      t.gen := if gen == 0 then 1 else gen;
      WaiterInRange(m, t.idx);
      RecInRange(m, t.idx, k.(gen := NextGen(k.gen), epoch := k.epoch + 1));
      Restate(m.(tasks := m.tasks[t.idx := k.(gen := NextGen(k.gen), epoch := k.epoch + 1)]));
    }

    method Unuse(t: GtTask)
      requires Valid() && Loose(t.idx) && slots[t.idx] == t
      modifies `freeSlots, `free, `nexts, `live, `m, slots`next
      ensures Valid() && m == old(m).(free := [t.idx] + old(m).free, live := old(m).live - 1)
      ensures nexts == old(nexts)[t.idx := old(freeSlots)]
    {
      hide ListsLinked, WaitsLinked, QueueOk, NextsOk, WaitsOk, SlotsMirror, WaitIs, QueueIs, InRange;
      LinkFree(t);
      assert SlotsMirror(slots, m.tasks);
      live := live - 1;
      TakesIn(m, t.idx);
      Restate(m.(free := [t.idx] + m.free, live := m.live - 1));
    }

    method SlotFree(t: GtTask)
      requires Valid() && Loose(t.idx) && slots[t.idx] == t
      modifies `freeSlots, `free, `nexts, `live, `m, slots`next, slots`state, slots`gen
      ensures Valid() && m == Retire(old(m), t.idx)
      ensures nexts == old(nexts)[t.idx := old(freeSlots)]
    {
      hide ListsLinked, WaitsLinked, QueueOk, WaitsOk, SlotsOk;
      SetState(t, Free);
      NextGeneration(t);
      Unuse(t);
      assert m.tasks == Retire(old(m), t.idx).tasks;
    }

    method Resolve(handle: int) returns (t: GtTask?)
      requires Valid()
      ensures match SchedModel.Resolve(m, handle)
              case None => t == null
              case Some(i) => i < |slots| && t == slots[i] && t.idx == i
    {
      hide ListsLinked, WaitsLinked, QueueOk, NextsOk, WaitsOk;
      if handle <= 0 { return null; }
      var idx := handle % IDX_SPAN;
      var gen := (handle / IDX_SPAN) % (GEN_MASK + 1);
      if idx >= |slots| { return null; }
      t := slots[idx];
      if t.gen != gen || t.state == Free { t := null; }
    }

    // ---------- reaping and switching ----------

    method TakeZombies() returns (z: GtTask?)
      requires Valid()
      modifies `zombies, `dead, `m
      ensures Valid() && m == old(m).(zombies := []) && dead == []
      ensures Linked(slots, nexts, z, old(m).zombies) && NoDup(old(m).zombies)
      ensures Apart(old(m).zombies, rq) && Apart(old(m).zombies, free)
    {
      hide WaitsLinked, QueueOk, WaitsOk, NextsOk, WaitIs, QueueIs, InRange;
      z := zombies;
      zombies := null;
      dead := [];
      NoZombiesInRange(m);
      Restate(m.(zombies := []));
    }

    /** Step past a zombie, leaving its link clear. */
    method DropZombie(z: GtTask, ghost rest: seq<nat>) returns (next: GtTask?)
      requires Valid() && rest != [] && NoDup(rest) && Linked(slots, nexts, z, rest) && dead == []
      requires Apart(rest, rq) && Apart(rest, free)
      modifies `nexts, slots`next
      ensures Valid() && Linked(slots, nexts, next, rest[1..])
    {
      hide WaitsLinked, QueueOk, WaitsOk, SlotsOk;
      assert rest[0] in rest;
      next := z.next;
      LinkedTail(slots, nexts, z, rest, null);
      LinkedStore(slots, nexts, rqHead, rq, rest[0], null);
      LinkedStore(slots, nexts, freeSlots, free, rest[0], null);
      z.next := null;
      nexts := nexts[rest[0] := null];
    }

    method Reap()
      requires Valid()
      modifies `zombies, `dead, `freeSlots, `free, `nexts, `live, `m, slots`next, slots`state, slots`gen
      ensures Valid() && m == SchedModel.Reap(old(m))
    {
      hide ListsLinked, WaitsLinked, QueueOk, WaitsOk, NextsOk;
      ghost var rest := m.zombies;
      var z := TakeZombies();
      while z != null
        invariant Valid() && dead == [] && AllBelow(rest, |m.tasks|)
        invariant Linked(slots, nexts, z, rest) && NoDup(rest) && Apart(rest, rq) && Apart(rest, free)
        invariant ReapList(m, rest) == SchedModel.Reap(old(m))
        decreases |rest|
      {
        ghost var i := rest[0];
        HeadAndTail(rest);
        assert i in rest && z == slots[i];
        var next := DropZombie(z, rest);
        if z.detached {
          LinkedStore(slots, nexts, next, rest[1..], i, freeSlots);
          SlotFree(z);
        }
        rest := rest[1..];
        z := next;
      }
    }

    method SetUsp(t: GtTask, usp: int)
      requires Valid() && t.idx < |slots| && slots[t.idx] == t
      modifies `m, slots`usp
      ensures Valid() && m == old(m).(tasks := old(m).tasks[t.idx := old(m).tasks[t.idx].(usp := usp)])
    {
      hide QueueIs, InRange, ListsLinked, WaitsLinked, QueueOk, NextsOk, WaitsOk;
      t.usp := usp;
      WaiterInRange(m, t.idx);
      RecInRange(m, t.idx, m.tasks[t.idx].(usp := usp));
      Restate(m.(tasks := m.tasks[t.idx := m.tasks[t.idx].(usp := usp)]));
    }

    method SetCurrent(next: GtTask)
      requires Valid() && next.idx < |slots| && slots[next.idx] == next
      modifies `m, `current, `tls
      ensures Valid() && m == old(m).(current := next.idx, tls := old(m).tasks[next.idx].usp)
    {
      hide QueueIs, ListsLinked, WaitsLinked, QueueOk, NextsOk, WaitsOk;
      current := next;
      tls := next.usp;
      Restate(m.(current := next.idx, tls := next.usp));
    }

    /** Control passes to `next`. A task that finished for good leaves no pointer behind. */
    method Enter(next: GtTask, keep: bool)
      requires Valid() && next.idx < |slots| && slots[next.idx] == next
      modifies `current, `tls, `m, slots`state, slots`usp
      ensures Valid() && m == Entered(old(m), next.idx, keep)
    {
      hide SlotsOk, ListsLinked, WaitsLinked, QueueOk, NextsOk, WaitsOk;
      if keep { SetUsp(current, tls); }
      SetState(next, Running);
      SetCurrent(next);
    }

    method SwitchTo(next: GtTask)
      requires Valid() && next.idx < |slots| && slots[next.idx] == next
      modifies `zombies, `dead, `freeSlots, `free, `nexts, `live, `m, `current, `tls, slots`next, slots`state, slots`gen, slots`usp
      ensures Valid()
      ensures m == (if old(m).current == next.idx then old(m).(tasks := old(m).tasks[next.idx := old(m).tasks[next.idx].(state := Running)])
                    else SchedModel.Reap(Entered(old(m), next.idx, true)))
    {
      hide ListsLinked, WaitsLinked, QueueOk, NextsOk, WaitsOk;
      if next == current {
        SetState(next, Running);
        return;
      }
      Enter(next, true);
      if zombies != null { Reap(); } else { NoZombies(); }
    }

    lemma NoZombies()
      requires Valid() && zombies == null
      ensures m.zombies == [] && SchedModel.Reap(m) == m
    {
      assert m.(zombies := []) == m;
    }

    // ---------- polling and picking ----------

    /** A task's operation has finished, by what the backend reports. */
    method Collected(t: GtTask, res: int)
      requires Valid() && t.idx < |slots| && slots[t.idx] == t
      modifies `m, slots`ioRes
      ensures Valid() && m == old(m).(tasks := old(m).tasks[t.idx := old(m).tasks[t.idx].(res := res)])
    {
      hide QueueIs, InRange, ListsLinked, WaitsLinked, QueueOk, NextsOk, WaitsOk;
      t.ioRes := res;
      WaiterInRange(m, t.idx);
      RecInRange(m, t.idx, m.tasks[t.idx].(res := res));
      Restate(m.(tasks := m.tasks[t.idx := m.tasks[t.idx].(res := res)]));
    }

    method CountDown(ghost t: nat)
      requires Valid()
      modifies `inflight, `m
      ensures Valid() && m == old(m).(out := old(m).out - {t}, inflight := old(m).inflight - 1)
    {
      hide QueueIs, ListsLinked, WaitsLinked, QueueOk, NextsOk, WaitsOk;
      inflight := inflight - 1;
      Restate(m.(out := m.out - {t}, inflight := m.inflight - 1));
    }

    /** One completion: its result goes to the task named by its user data, which is made ready. */
    method DeliverOne(c: Completion)
      requires Valid() && Core(m) && c.task in m.out
      modifies `rqHead, `rqTail, `rq, `nexts, `inflight, `m, slots`next, slots`state, slots`ioRes
      ensures Valid() && m == Deliver1(old(m), c)
    {
      hide ListsLinked, WaitsLinked, QueueOk, NextsOk, WaitsOk, SlotsOk, Core;
      NotListed(c.task);
      var t := slots[c.task];
      Collected(t, c.res);
      RqPush(t);
      CountDown(c.task);
    }

    /** One poll of the backend that finds the completions `done`. */
    method IoPoll(done: seq<Completion>)
      requires Valid() && Core(m) && Deliverable(m, done)
      modifies `rqHead, `rqTail, `rq, `nexts, `inflight, `m, slots`next, slots`state, slots`ioRes
      ensures Valid() && Core(m) && m == Deliver(old(m), done)
    {
      hide Valid;
      var k := 0;
      while k < |done|
        invariant k <= |done| && Valid() && Core(m) && Deliverable(m, done[k..])
        invariant Deliver(m, done[k..]) == Deliver(old(m), done)
      {
        assert done[k..][0] == done[k] && done[k..][1..] == done[k + 1..];
        Deliver1Keeps(m, done[k]);
        DeliverOne(done[k]);
        k := k + 1;
      }
    }

    lemma NotListed(t: nat)
      requires Valid() && Core(m) && t in m.out
      ensures Loose(t)
    {
      assert TaskOk(m, t);
    }

    lemma InStep()
      requires Valid()
      ensures inflight == m.inflight && |slots| == |m.tasks| && InRange(m) && current == slots[m.current]
      ensures forall i {:trigger slots[i]} :: 0 <= i < |slots| ==> slots[i].idx == i
    {
    }

    /** The `k`th poll of a pick that began at `was`. */
    method PollNext(polls: seq<seq<Completion>>, k: nat, ghost was: Sched)
      requires Valid() && Core(m) && k < |polls| && Deliverable(m, polls[k])
      requires Picked(was, polls[..k], m)
      modifies `rqHead, `rqTail, `rq, `nexts, `inflight, `m, slots`next, slots`state, slots`ioRes
      ensures Valid() && Core(m) && Picked(was, polls[..k + 1], m) && m == Deliver(old(m), polls[k])
    {
      hide Valid, Core;
      FlatStep(was, polls, k);
      IoPoll(polls[k]);
    }

    /** The next task to run, off the run queue, or none once nothing is outstanding either. What
        each poll on the way finds is `polls`: the first without waiting, and then, as long as
        nothing is ready, one that waits and one that does not. */
    method Pick(polls: seq<seq<Completion>>) returns (t: GtTask?)
      requires Valid() && Core(m) && Answers(m, polls)
      modifies `rqHead, `rqTail, `rq, `nexts, `inflight, `m, slots`next, slots`state, slots`ioRes
      ensures Valid() && PicksWith(old(m), Flat(polls))
      ensures var d := Deliver(old(m), Flat(polls));
              if d.rq == [] then t == null && m == d
              else d.rq[0] < |slots| && t == slots[d.rq[0]] && m == d.(rq := d.rq[1..])
    {
      hide Valid, Core, Answers, Deliver, Deliverable, Picked, PicksWith, Flat;
      InStep();
      var k := 0;
      assert polls[0..] == polls && polls[..0] == [];
      PickedNone(m);
      while true
        invariant k <= |polls| && Valid() && InRange(m) && Core(m)
        invariant Answers(m, polls[k..]) && Picked(old(m), polls[..k], m)
        decreases |polls| - k
      {
        AnswersFirst(m, polls, k);
        InStep();
        if inflight != 0 {
          PollNext(polls, k, old(m));
          k := k + 1;
        }
        InStep();
        ghost var d := m;
        t := RqPop();
        if t != null || inflight == 0 {
          assert polls[..k] == polls;
          PickedEnds(old(m), polls, d);
          return;
        }
        assert m == d;
        PollNext(polls, k, old(m));
        k := k + 1;
      }
    }

    // ---------- blocking, yielding, finishing ----------

    /** Suspend the running task, which has been put where it will be found. False is the panic. */
    method Block(polls: seq<seq<Completion>>) returns (ran: bool)
      requires Valid() && Core(m) && m.zombies == [] && Answers(m, polls) && !m.tasks[m.current].state.Running?
      modifies `rqHead, `rqTail, `rq, `nexts, `inflight, `m, slots`next, slots`state, slots`ioRes
      modifies `zombies, `dead, `freeSlots, `free, `live, `current, `tls, slots`gen, slots`usp
      ensures Valid() && PicksWith(old(m), Flat(polls))
      ensures var r := SchedModel.Block(old(m), Flat(polls)); ran == r.Went? && m == r.s
    {
      hide Valid, Core, Answers;
      InStep();
      var next := Pick(polls);
      if next == null { return false; }
      DeliverKeeps(old(m), Flat(polls));
      InStep();
      SwitchAwayIs(Deliver(old(m), Flat(polls)));
      SwitchTo(next);
      return true;
    }

    /** Queue the running task and run `next`, which is off the run queue. */
    method PassTo(next: GtTask, ghost was: Sched)
      requires Valid() && Inv(was) && next.idx < |slots| && slots[next.idx] == next
      requires next.idx in was.rq && m == was.(rq := Without(was.rq, next.idx))
      modifies `rqHead, `rqTail, `rq, `nexts, `m, slots`next, slots`state
      modifies `zombies, `dead, `freeSlots, `free, `live, `current, `tls, slots`gen, slots`usp
      ensures Valid() && m == Handoff(was, next.idx)
    {
      hide SlotsOk, ListsLinked, WaitsLinked, QueueOk, NextsOk, WaitsOk, Inv;
      CurrentLoose(was, next.idx);
      RqPush(current);
      HandoffIs(was, next.idx);
      SwitchTo(next);
    }

    method Yield(done: seq<Completion>)
      requires Valid() && Inv(m) && Deliverable(m, done)
      modifies `rqHead, `rqTail, `rq, `nexts, `inflight, `m, slots`next, slots`state, slots`ioRes
      modifies `zombies, `dead, `freeSlots, `free, `live, `current, `tls, slots`gen, slots`usp
      ensures Valid() && m == SchedModel.Yield(old(m), done)
    {
      hide Valid, Core;
      InStep();
      DeliverKeeps(m, done);
      if inflight != 0 { IoPoll(done); } else { NoneOut(m, done); }
      ghost var d := m;
      InStep();
      var next := RqPop();
      if next == null { return; }
      InStep();
      assert Without(d.rq, d.rq[0]) == d.rq[1..];
      PassTo(next, d);
    }

    // ---------- await ----------

    method LinkWait(t: GtTask, self: GtTask)
      requires WaitsOk() && WaitsLinked() && Indexed(slots)
      requires t.idx < |slots| && slots[t.idx] == t && self.idx < |slots| && slots[self.idx] == self
      requires forall i :: 0 <= i < |wait| ==> self.idx !in wait[i]
      modifies `wnexts, `heads, `wait, slots`wnext, slots`waiters
      ensures WaitsOk() && WaitsLinked() && wait == old(wait)[t.idx := [self.idx] + old(wait)[t.idx]]
    {
      ghost var me := self.idx;
      LinkedCons(slots, wnexts, heads[t.idx], wait[t.idx], me);
      forall i | 0 <= i < |wait| ensures Linked(slots, wnexts[me := t.waiters], heads[i], wait[i]) || i == t.idx {
        if i != t.idx { LinkedStore(slots, wnexts, heads[i], wait[i], me, t.waiters); }
      }
      WaitApart(wait, t.idx, me);
      self.wnext := t.waiters;
      wnexts := wnexts[me := t.waiters];
      t.waiters := self;
      heads := heads[t.idx := self];
      wait := wait[t.idx := [me] + wait[t.idx]];
    }

    method AddWaiter(t: GtTask)
      requires Valid() && t.idx < |slots| && slots[t.idx] == t
      requires forall i :: 0 <= i < |m.tasks| ==> m.current !in m.tasks[i].waiters
      modifies `wnexts, `heads, `wait, `m, slots`wnext, slots`waiters
      ensures Valid()
      ensures var k := old(m).tasks[t.idx];
              m == old(m).(tasks := old(m).tasks[t.idx := k.(waiters := [old(m).current] + k.waiters)])
    {
      hide QueueIs, InRange, ListsLinked, QueueOk, NextsOk, WaitsLinked, WaitsOk;
      ghost var k := m.tasks[t.idx];
      assert forall i :: 0 <= i < |wait| ==> current.idx !in wait[i];
      LinkWait(t, current);
      WaiterInRange(m, t.idx);
      RecInRange(m, t.idx, k.(waiters := [m.current] + k.waiters));
      Restate(m.(tasks := m.tasks[t.idx := k.(waiters := [m.current] + k.waiters)]));
    }

    method SetJoiners(t: GtTask, njoiners: nat)
      requires Valid() && t.idx < |slots| && slots[t.idx] == t
      modifies `m, slots`njoiners
      ensures Valid() && m == old(m).(tasks := old(m).tasks[t.idx := old(m).tasks[t.idx].(njoiners := njoiners)])
    {
      hide QueueIs, InRange, ListsLinked, WaitsLinked, QueueOk, NextsOk, WaitsOk;
      t.njoiners := njoiners;
      WaiterInRange(m, t.idx);
      RecInRange(m, t.idx, m.tasks[t.idx].(njoiners := njoiners));
      Restate(m.(tasks := m.tasks[t.idx := m.tasks[t.idx].(njoiners := njoiners)]));
    }

    /** Where the running task will resume. Nothing in memory says so but its stack. */
    ghost method SetPc(pc: Pc)
      requires Valid()
      modifies `m
      ensures Valid() && m == old(m).(tasks := old(m).tasks[old(m).current := old(m).tasks[old(m).current].(pc := pc)])
    {
      hide QueueIs, InRange, ListsLinked, WaitsLinked, QueueOk, NextsOk, WaitsOk;
      WaiterInRange(m, m.current);
      RecInRange(m, m.current, m.tasks[m.current].(pc := pc));
      Restate(m.(tasks := m.tasks[m.current := m.tasks[m.current].(pc := pc)]));
    }

    lemma InSlot(i: nat)
      requires Valid() && i < |slots|
      ensures var t, k := slots[i], m.tasks[i];
              t.idx == i && t.state == k.state && t.gen == k.gen && t.detached == k.detached && t.njoiners == k.njoiners
              && t.usp == k.usp
    {
    }

    method ParkOn(t: GtTask)
      requires Valid() && t.idx < |slots| && slots[t.idx] == t && MayPark(m, t.idx)
      modifies `wnexts, `heads, `wait, `m, slots`wnext, slots`waiters, slots`njoiners, slots`state
      ensures Valid() && m == Park(old(m), t.idx)
    {
      hide Valid, MayPark;
      InStep();
      InSlot(t.idx);
      ParkFacts(m, t.idx);
      AddWaiter(t);
      SetJoiners(t, t.njoiners + 1);
      SetState(current, Joining);
      SetPc(Collect(t.idx));
      assert m.tasks == Park(old(m), t.idx).tasks;
    }

    /** Await, up to the point where it parks or answers. The park is where the task may be left,
        and `ran` is false if that found a deadlock; `AwaitEnd` is the rest. */
    method AwaitBegin(handle: int, polls: seq<seq<Completion>>) returns (answer: Answer, ran: bool)
      requires Valid() && Inv(m) && m.tasks[m.current].pc.Code?
      requires AwaitAnswer(m, handle).Parks? ==>
                 Answers(Park(m, SchedModel.Resolve(m, handle).value), polls)
      modifies `rqHead, `rqTail, `rq, `nexts, `inflight, `m, slots`next, slots`state, slots`ioRes
      modifies `zombies, `dead, `freeSlots, `free, `live, `current, `tls, slots`gen, slots`usp
      modifies `wnexts, `heads, `wait, slots`wnext, slots`waiters, slots`njoiners
      ensures Valid() && answer == AwaitAnswer(old(m), handle)
      ensures answer.Parks? ==> PicksWith(Park(old(m), SchedModel.Resolve(old(m), handle).value), Flat(polls))
      ensures var r := Await(old(m), handle, Flat(polls)); ran == r.Went? && m == r.s
    {
      hide Valid, Inv, Answers;
      InStep();
      var t := Resolve(handle);
      if t == null { return Invalid, true; }
      InSlot(t.idx);
      AwaitFacts(m, t.idx);
      if t == current { return WouldDeadlock, true; }
      if t.detached { return Invalid, true; }
      if t.state == Done {
        if t.njoiners == 0 {
          FinishedLoose(t.idx);
          SlotFree(t);
        }
        return Success, true;
      }
      ParkFacts(m, t.idx);
      ParkOn(t);
      ran := Block(polls);
      return Parks, ran;
    }

    lemma FinishedLoose(t: nat)
      requires Valid() && Core(m) && m.zombies == [] && t < |slots| && m.tasks[t].state.Done?
      ensures Loose(t)
    {
      assert TaskOk(m, t);
    }

    /** The rest of an await that parked, once its task runs again. */
    method AwaitEnd(t: GtTask)
      requires Valid() && Inv(m) && m.tasks[m.current].pc == Collect(t.idx) && t.idx < |slots| && slots[t.idx] == t
      modifies `freeSlots, `free, `nexts, `live, `m, slots`next, slots`state, slots`gen, slots`njoiners
      ensures Valid() && Collecting(old(m)) && m == CollectJoin(old(m))
    {
      hide Valid, Inv, Core;
      InStep();
      CollectingIs(m);
      InSlot(t.idx);
      CollectFacts(m);
      FinishedLoose(t.idx);
      SetPc(Code);
      SetJoiners(t, t.njoiners - 1);
      assert m.tasks == Rejoined(old(m)).tasks;
      assert m == Rejoined(old(m));
      InSlot(t.idx);
      if t.njoiners == 0 { SlotFree(t); }
    }

    method Detach(handle: int) returns (answer: Answer)
      requires Valid() && Inv(m) && m.tasks[m.current].pc.Code?
      modifies `freeSlots, `free, `nexts, `live, `m, slots`next, slots`state, slots`gen, slots`detached
      ensures Valid() && answer == DetachAnswer(old(m), handle) && m == SchedModel.Detach(old(m), handle)
    {
      hide Valid, Inv, Core;
      InStep();
      var t := Resolve(handle);
      if t == null { return Invalid; }
      InSlot(t.idx);
      if t == current { return Invalid; }
      if t.detached { return Invalid; }
      CollectFacts(m);
      if t.state == Done { FinishedLoose(t.idx); }
      SetDetached(t);
      InSlot(t.idx);
      if t.state == Done { SlotFree(t); }
      return Success;
    }

    method SetDetached(t: GtTask)
      requires Valid() && t.idx < |slots| && slots[t.idx] == t
      modifies `m, slots`detached
      ensures Valid() && m == old(m).(tasks := old(m).tasks[t.idx := old(m).tasks[t.idx].(detached := true)])
    {
      hide QueueIs, InRange, ListsLinked, WaitsLinked, QueueOk, NextsOk, WaitsOk;
      t.detached := true;
      WaiterInRange(m, t.idx);
      RecInRange(m, t.idx, m.tasks[t.idx].(detached := true));
      Restate(m.(tasks := m.tasks[t.idx := m.tasks[t.idx].(detached := true)]));
    }

    // ---------- allocating and spawning ----------

    method UnlinkFree() returns (t: GtTask)
      requires NextsOk() && ListsLinked() && freeSlots != null
      modifies `freeSlots, `free, `nexts, slots`next
      ensures NextsOk() && ListsLinked() && old(free) != [] && t == slots[old(free)[0]] && free == old(free)[1..]
    {
      t := freeSlots;
      assert free[0] in free;
      LinkedTail(slots, nexts, freeSlots, free, null);
      LinkedStore(slots, nexts, rqHead, rq, free[0], null);
      LinkedStore(slots, nexts, zombies, dead, free[0], null);
      HeadAndTail(free);
      freeSlots := t.next;
      t.next := null;
      nexts := nexts[free[0] := null];
      free := free[1..];
    }

    method TakeFree() returns (t: GtTask)
      requires Valid() && freeSlots != null
      modifies `freeSlots, `free, `nexts, `live, `m, slots`next
      ensures Valid() && old(m.free) != [] && t == slots[old(m.free)[0]]
      ensures m == old(m).(free := old(m.free)[1..], live := old(m.live) + 1)
    {
      hide ListsLinked, WaitsLinked, QueueOk, NextsOk, WaitsOk, SlotsMirror, WaitIs, QueueIs, InRange;
      t := UnlinkFree();
      live := live + 1;
      FreeInRange(m);
      Restate(m.(free := m.free[1..], live := m.live + 1));
    }

    method ClearWaits(t: GtTask)
      requires WaitsOk() && WaitsLinked() && Indexed(slots) && t.idx < |slots| && slots[t.idx] == t
      requires wait[t.idx] == [] && forall i :: 0 <= i < |wait| ==> t.idx !in wait[i]
      modifies `wnexts, slots`wnext, slots`waiters
      ensures WaitsOk() && WaitsLinked()
    {
      ghost var me := t.idx;
      assert heads[me] == null;
      forall k | 0 <= k < |wait| ensures Linked(slots, wnexts[me := null], heads[k], wait[k]) {
        LinkedStore(slots, wnexts, heads[k], wait[k], me, null);
      }
      t.wnext, t.waiters := null, null;
      wnexts := wnexts[me := null];
    }

    /** A slot's record as a new task finds it: everything cleared but the index and generation. */
    method Renew(t: GtTask, usp: int)
      requires Valid() && t.idx < |slots| && slots[t.idx] == t && m.tasks[t.idx].waiters == []
      requires forall i :: 0 <= i < |m.tasks| ==> t.idx !in m.tasks[i].waiters
      modifies `wnexts, `m, slots`wnext, slots`waiters, slots`state, slots`gen, slots`detached, slots`njoiners, slots`usp, slots`ioRes
      ensures Valid()
      ensures var k := old(m).tasks[t.idx];
              m == old(m).(tasks := old(m).tasks[t.idx := Fresh(if k.gen == 0 then 1 else k.gen, k.epoch, k.born + 1, usp)])
    {
      hide Valid, InRange;
      InStep();
      ghost var k := m.tasks[t.idx];
      Unwait(t);
      SetState(t, Free);
      SetJoiners(t, 0);
      SetUsp(t, usp);
      InSlot(t.idx);
      ClearFlags(t, Fresh(if k.gen == 0 then 1 else k.gen, k.epoch, k.born + 1, usp));
    }

    method Unwait(t: GtTask)
      requires Valid() && t.idx < |slots| && slots[t.idx] == t && m.tasks[t.idx].waiters == []
      requires forall i :: 0 <= i < |m.tasks| ==> t.idx !in m.tasks[i].waiters
      modifies `wnexts, slots`wnext, slots`waiters
      ensures Valid()
    {
      hide ListsLinked, QueueOk, NextsOk, WaitsLinked, WaitsOk, SlotsOk;
      assert forall i :: 0 <= i < |wait| ==> t.idx !in wait[i];
      ClearWaits(t);
    }

    method ClearFlags(t: GtTask, ghost k: Task)
      requires Valid() && t.idx < |slots| && slots[t.idx] == t && m.tasks[t.idx].waiters == [] == k.waiters
      requires k.state == t.state && k.njoiners == t.njoiners && k.usp == t.usp && !k.detached && k.res == 0
      requires k.gen == if t.gen == 0 then 1 else t.gen
      modifies `m, slots`gen, slots`detached, slots`ioRes
      ensures Valid() && m == old(m).(tasks := old(m).tasks[t.idx := k])
    {
      hide QueueIs, InRange, ListsLinked, QueueOk, NextsOk, WaitsLinked, WaitsOk;
      if t.gen == 0 { t.gen := 1; }
      t.detached, t.ioRes := false, 0;
      WaiterInRange(m, t.idx);
      RecInRange(m, t.idx, k);
      Restate(m.(tasks := m.tasks[t.idx := k]));
    }

    method GrowTable()
      requires Valid()
      modifies `cslots, `m
      ensures Valid() && m == old(m).(cap := Grown(old(m).cap))
    {
      hide QueueIs, ListsLinked, WaitsLinked, QueueOk, NextsOk, WaitsOk;
      cslots := Grown(cslots);
      Restate(m.(cap := Grown(m.cap)));
    }

    method AddSlot(t: GtTask)
      requires NextsOk() && ListsLinked() && WaitsOk() && WaitsLinked() && Indexed(slots)
      requires t.idx == |slots| && t.next == null && t.wnext == null && t.waiters == null
      modifies `slots, `nexts, `wnexts, `heads, `wait
      ensures slots == old(slots) + [t] && wait == old(wait) + [[]] && Indexed(slots)
      ensures NextsOk() && ListsLinked() && WaitsOk() && WaitsLinked()
    {
      LinkedGrow(slots, nexts, rqHead, rq, t);
      LinkedGrow(slots, nexts, freeSlots, free, t);
      LinkedGrow(slots, nexts, zombies, dead, t);
      forall i | 0 <= i < |wait| ensures Linked(slots + [t], wnexts + [null], heads[i], wait[i]) {
        LinkedGrow(slots, wnexts, heads[i], wait[i], t);
      }
      slots := slots + [t];
      nexts := nexts + [null];
      wnexts := wnexts + [null];
      heads := heads + [null];
      wait := wait + [[]];
    }

    method NewSlot(usp: int) returns (t: GtTask)
      requires Valid()
      modifies `slots, `nexts, `wnexts, `heads, `wait, `live, `m
      ensures Valid() && fresh(t) && slots == old(slots) + [t]
      ensures m == old(m).(tasks := old(m).tasks + [Fresh(1, 0, 1, usp)], live := old(m).live + 1)
    {
      hide ListsLinked, WaitsLinked, QueueOk, NextsOk, WaitsOk, Linked, InRange;
      CurrentInRange(m);
      t := new GtTask(|slots|, 1, usp);
      AddSlot(t);
      live := live + 1;
      GrownInRange(m, Fresh(1, 0, 1, usp));
      Restate(m.(tasks := m.tasks + [Fresh(1, 0, 1, usp)], live := m.live + 1));
    }

    /** A slot for a new task, or null: what the allocator answers is `mem`. */
    method SlotAlloc(mem: Memory, usp: int) returns (t: GtTask?)
      requires Valid() && Inv(m)
      modifies `slots, `nexts, `wnexts, `heads, `wait, `live, `m, `freeSlots, `free, `cslots
      modifies slots`next, slots`wnext, slots`waiters, slots`state, slots`gen, slots`detached, slots`njoiners, slots`usp, slots`ioRes
      ensures Valid() && fresh(set x | x in slots && x !in old(slots))
      ensures var (a, slot) := SchedModel.SlotAlloc(old(m), mem, usp);
              m == a && (slot.None? ==> t == null) && (slot.Some? ==> slot.value < |slots| && t == slots[slot.value])
    {
      hide Valid, Inv;
      InStep();
      NoneFree();
      if freeSlots != null {
        FreeUnawaited(m, m.free[0]);
        t := TakeFree();
        InStep();
        Renew(t, usp);
      } else {
        if |slots| == cslots {
          if Grown(cslots) > IDX_SPAN - 1 { return null; }
          if !mem.table { return null; }
          GrowTable();
        }
        if !mem.slot { return null; }
        t := NewSlot(usp);
        InStep();
      }
    }

    lemma NoneFree()
      requires Valid()
      ensures freeSlots == null <==> m.free == []
      ensures cslots == m.cap
    {
    }

    /** A task's slot and stacks, its record set up, and the task queued to run. The handle, or
        nothing where the allocator had no room. */
    method Spawn(mem: Memory, usp: int) returns (handle: Option<int>)
      requires Valid() && Inv(m)
      modifies `slots, `nexts, `wnexts, `heads, `wait, `live, `m, `freeSlots, `free, `cslots, `rqHead, `rqTail, `rq
      modifies slots`next, slots`wnext, slots`waiters, slots`state, slots`gen, slots`detached, slots`njoiners, slots`usp, slots`ioRes
      ensures Valid() && (m, handle) == SchedModel.Spawn(old(m), mem, usp)
    {
      hide Valid, Inv, SchedModel.SlotAlloc, Allocated;
      var t := SlotAlloc(mem, usp);
      if t == null { return None; }
      InStep();
      InSlot(t.idx);
      AllocatedLoose(old(m), mem, usp);
      LooseIs(t.idx);
      if !mem.stacks {
        SlotFree(t);
        return None;
      }
      handle := Some(Handle(t.gen, t.idx));
      RqPush(t);
    }

    // ---------- finishing ----------

    /** The waiter list of the running task, taken from it. */
    method UnlinkWaiters() returns (w: GtTask?)
      requires WaitsOk() && WaitsLinked() && Indexed(slots) && current.idx < |slots| && slots[current.idx] == current
      modifies `heads, `wait, slots`waiters
      ensures WaitsOk() && WaitsLinked() && wait == old(wait)[current.idx := []]
      ensures var ws := old(wait)[current.idx];
              Linked(slots, wnexts, w, ws) && NoDup(ws) && forall i :: 0 <= i < |wait| ==> Apart(ws, wait[i])
    {
      ghost var me := current.idx;
      w := current.waiters;
      current.waiters := null;
      heads := heads[me := null];
      wait := wait[me := []];
    }

    method TakeWaiters() returns (w: GtTask?)
      requires Valid()
      modifies `heads, `wait, `m, slots`waiters
      ensures Valid()
      ensures m == old(m).(tasks := old(m).tasks[old(m).current := old(m).tasks[old(m).current].(waiters := [])])
      ensures var ws := old(m).tasks[old(m).current].waiters;
              Linked(slots, wnexts, w, ws) && NoDup(ws) && forall i :: 0 <= i < |wait| ==> Apart(ws, wait[i])
    {
      hide ListsLinked, QueueOk, NextsOk, WaitsLinked, WaitsOk, Linked, Apart;
      w := UnlinkWaiters();
      Restate(m.(tasks := m.tasks[m.current := m.tasks[m.current].(waiters := [])]));
    }

    /** Step past an awaiter that is about to be woken, leaving its link clear. */
    method StepWaiter(w: GtTask, ghost rest: seq<nat>) returns (n: GtTask?)
      requires WaitsOk() && WaitsLinked() && Indexed(slots)
      requires rest != [] && NoDup(rest) && Linked(slots, wnexts, w, rest) && w == slots[rest[0]]
      requires forall i :: 0 <= i < |wait| ==> Apart(rest, wait[i])
      modifies `wnexts, slots`wnext
      ensures WaitsOk() && WaitsLinked() && Linked(slots, wnexts, n, rest[1..])
    {
      ghost var i := rest[0];
      assert i in rest;
      LinkedTail(slots, wnexts, w, rest, null);
      forall k | 0 <= k < |wait| ensures Linked(slots, wnexts[i := null], heads[k], wait[k]) {
        LinkedStore(slots, wnexts, heads[k], wait[k], i, null);
      }
      n := w.wnext;
      w.wnext := null;
      wnexts := wnexts[i := null];
    }

    method WakeAll(w0: GtTask?, ghost ws: seq<nat>)
      requires Valid() && AllBelow(ws, |slots|) && NoDup(ws) && Linked(slots, wnexts, w0, ws)
      requires forall i :: 0 <= i < |wait| ==> Apart(ws, wait[i])
      requires AllLoose(ws)
      modifies `rqHead, `rqTail, `rq, `nexts, `wnexts, `m, slots`next, slots`wnext, slots`state
      ensures Valid() && m == PushAll(old(m), ws)
    {
      hide Valid, Apart, NoDup, AllLoose;
      InStep();
      var w := w0;
      ghost var rest := ws;
      while w != null
        invariant Valid() && AllBelow(rest, |slots|) && NoDup(rest) && Linked(slots, wnexts, w, rest)
        invariant forall i :: 0 <= i < |wait| ==> Apart(rest, wait[i])
        invariant AllLoose(rest) && InRange(m) && |m.tasks| == |slots|
        invariant PushAll(m, rest) == PushAll(old(m), ws)
        decreases |rest|
      {
        w := WakeOne(w, rest);
        rest := rest[1..];
      }
    }

    ghost predicate AllLoose(ws: seq<nat>)
      reads `slots, `rq, `free, `dead
    {
      forall k :: 0 <= k < |ws| ==> Loose(ws[k])
    }

    method WakeOne(w: GtTask, ghost rest: seq<nat>) returns (n: GtTask?)
      requires Valid() && AllBelow(rest, |slots|) && NoDup(rest) && Linked(slots, wnexts, w, rest)
      requires forall i :: 0 <= i < |wait| ==> Apart(rest, wait[i])
      requires AllLoose(rest)
      modifies `rqHead, `rqTail, `rq, `nexts, `wnexts, `m, slots`next, slots`wnext, slots`state
      ensures Valid() && rest != [] && NoDup(rest[1..]) && Linked(slots, wnexts, n, rest[1..])
      ensures forall i :: 0 <= i < |wait| ==> Apart(rest[1..], wait[i])
      ensures AllLoose(rest[1..]) && m == Push(old(m), rest[0])
    {
      hide ListsLinked, QueueOk, NextsOk, WaitsLinked, WaitsOk, SlotsOk, Apart;
      assert w == slots[rest[0]];
      StillApart(wait, rest);
      n := StepWaiter(w, rest);
      RqPush(w);
    }

    method PushZombie(t: GtTask)
      requires Valid() && Loose(t.idx) && slots[t.idx] == t
      modifies `zombies, `dead, `nexts, `m, slots`next
      ensures Valid() && m == old(m).(zombies := [t.idx] + old(m).zombies)
    {
      hide ListsLinked, WaitsLinked, QueueOk, NextsOk, WaitsOk, SlotsMirror, WaitIs, QueueIs, InRange;
      LinkDead(t);
      TakesIn(m, t.idx);
      Restate(m.(zombies := [t.idx] + m.zombies));
    }

    /** The running task's body has returned: it wakes its awaiters and leaves itself to be reaped
        by whoever runs next. */
    method WakeAwaiters()
      requires Valid() && Inv(m) && m.current != 0 && m.tasks[m.current].pc.Code?
      modifies `rqHead, `rqTail, `rq, `nexts, `zombies, `dead, `m, slots`next, slots`state
      modifies `wnexts, `heads, `wait, slots`wnext, slots`waiters
      ensures Valid() && Core(m) && m == Complete(old(m))
    {
      hide Valid, Inv, Core;
      InStep();
      var self := current;
      ghost var ws := m.tasks[m.current].waiters;
      WaitersLoose();
      CompleteKeeps(m);
      SetState(self, Done);
      var w := TakeWaiters();
      assert m.tasks == old(m).tasks[old(m).current := old(m).tasks[old(m).current].(state := Done, waiters := [])];
      PushAllIs(m, ws);
      WakeAll(w, ws);
      LooseIs(self.idx);
      PushZombie(self);
    }

    /** The end of a task's run: after that it switches away for good. False is the panic. */
    method FinishTask(polls: seq<seq<Completion>>) returns (ran: bool)
      requires Valid() && Inv(m) && m.current != 0 && m.tasks[m.current].pc.Code?
      requires Answers(Complete(m), polls)
      modifies `rqHead, `rqTail, `rq, `nexts, `inflight, `m, slots`next, slots`state, slots`ioRes
      modifies `zombies, `dead, `freeSlots, `free, `live, `current, `tls, slots`gen, slots`usp
      modifies `wnexts, `heads, `wait, slots`wnext, slots`waiters
      ensures Valid() && PicksWith(Complete(old(m)), Flat(polls))
      ensures var r := Finish(old(m), Flat(polls)); ran == r.Went? && m == r.s
    {
      hide Valid, Inv, Core, Answers;
      InStep();
      WakeAwaiters();
      var next := Pick(polls);
      if next == null { return false; }
      InStep();
      Enter(next, false);
      SwitchForGoodIs(Deliver(Complete(old(m)), Flat(polls)));
      Reap();
      return true;
    }

    // ---------- thread locks ----------

    /** Queue a waiter behind all that are there. */
    method LinkWaiter(w: GtLockWaiter)
      requires QueueOk() && w !in queue
      modifies `lockWaiters, `queue, queue`next, w`next
      ensures QueueOk() && queue == old(queue) + [w]
    {
      var last: GtLockWaiter?, at := null, lockWaiters;
      ghost var k := 0;
      while at != null
        invariant k <= |queue| && at == (if k < |queue| then queue[k] else null)
        invariant last == if k == 0 then null else queue[k - 1]
        decreases |queue| - k
      {
        assert queue[k].next == if k + 1 < |queue| then queue[k + 1] else null;
        last, at := at, at.next;
        k := k + 1;
      }
      w.next := null;
      if last == null { lockWaiters := w; } else { last.next := w; }
      queue := queue + [w];
    }

    /** Take a waiter off wherever it is. */
    method UnlinkWaiter(w: GtLockWaiter, ghost i: nat)
      requires QueueOk() && i < |queue| && queue[i] == w
      modifies `lockWaiters, `queue, queue`next
      ensures QueueOk() && queue == old(queue)[..i] + old(queue)[i + 1..]
    {
      var last: GtLockWaiter?, at := null, lockWaiters;
      ghost var k := 0;
      while at != w
        invariant k <= i && at == queue[k]
        invariant last == if k == 0 then null else queue[k - 1]
        decreases i - k
      {
        assert queue[k].next == if k + 1 < |queue| then queue[k + 1] else null;
        last, at := at, at.next;
        k := k + 1;
      }
      assert k == i;
      assert queue[k].next == if k + 1 < |queue| then queue[k + 1] else null;
      if last == null { lockWaiters := w.next; } else { last.next := w.next; }
      queue := queue[..i] + queue[i + 1..];
    }

    method QueueWaiter(w: GtLockWaiter)
      requires Valid() && w !in queue && w.task == current
      modifies `lockWaiters, `queue, `m, queue`next, w`next
      ensures Valid() && queue == old(queue) + [w]
      ensures m == old(m).(lockq := old(m).lockq + [LockWait(w.lock, old(m).current)])
    {
      hide ListsLinked, NextsOk, WaitsLinked, WaitsOk, InRange;
      LinkWaiter(w);
      LockqAside(m, m.lockq + [LockWait(w.lock, m.current)]);
      Restate(m.(lockq := m.lockq + [LockWait(w.lock, m.current)]));
    }

    method UnqueueWaiter(w: GtLockWaiter, ghost i: nat)
      requires Valid() && i < |queue| && queue[i] == w
      modifies `lockWaiters, `queue, `m, queue`next
      ensures Valid() && queue == old(queue)[..i] + old(queue)[i + 1..]
      ensures i < |old(m).lockq| && m == old(m).(lockq := old(m).lockq[..i] + old(m).lockq[i + 1..])
    {
      hide ListsLinked, NextsOk, WaitsLinked, WaitsOk, InRange;
      UnlinkWaiter(w, i);
      LockqAside(m, m.lockq[..i] + m.lockq[i + 1..]);
      Restate(m.(lockq := m.lockq[..i] + m.lockq[i + 1..]));
    }

    /** The first time a task finds its lock taken it queues on it, with a record of its own. */
    method LockWaitAdd(lock: nat) returns (w: GtLockWaiter)
      requires Valid() && m.tasks[m.current].pc.Code?
      modifies `lockWaiters, `queue, `m, queue`next
      ensures Valid() && fresh(w) && queue == old(queue) + [w] && m == Enqueue(old(m), lock)
    {
      hide Valid;
      InStep();
      w := new GtLockWaiter(lock, current);
      QueueWaiter(w);
      SetPc(Retry(lock));
    }

    /** However its wait ended, the task that was queued by `w` no longer is. */
    method LockWaitRemove(w: GtLockWaiter, ghost i: nat)
      requires Valid() && LocksOk(m) && i < |queue| && queue[i] == w && m.lockq[i].task == m.current
      requires m.tasks[m.current].pc.Retry?
      modifies `lockWaiters, `queue, `m, queue`next
      ensures Valid() && queue == old(queue)[..i] + old(queue)[i + 1..] && m == Dequeue(old(m))
    {
      hide Valid;
      InStep();
      QueueAt(i);
      UnqueueWaiter(w, i);
      DropWaiterAt(old(m).lockq, m.current, i);
      SetPc(Code);
    }

    /** A lock has been released: the oldest task queued on it that is ready runs now, ahead of the
        releaser. */
    method LockReleased(lock: nat)
      requires Valid() && Inv(m)
      modifies `rqHead, `rqTail, `rq, `nexts, `m, slots`next, slots`state
      modifies `zombies, `dead, `freeSlots, `free, `live, `current, `tls, slots`gen, slots`usp
      ensures Valid() && m == SchedModel.LockReleased(old(m), lock)
    {
      hide Valid, Inv;
      var w := lockWaiters;
      ghost var k := 0;
      QueueAt(0);
      while w != null
        invariant Valid() && Inv(m) && m == old(m) && k <= |queue| == |m.lockq|
        invariant w == if k < |queue| then queue[k] else null
        invariant FirstWaiting(m, lock, m.lockq[k..]) == FirstWaiting(m, lock, m.lockq)
        decreases |queue| - k
      {
        QueueAt(k);
        assert m.lockq[k..][0] == m.lockq[k] && m.lockq[k..][1..] == m.lockq[k + 1..];
        if w.lock == lock && w.task.state == Ready {
          var found := RqRemove(w.task);
          if found {
            PassTo(w.task, old(m));
            return;
          }
          WithoutNone(old(m).rq, w.task.idx);
          assert m == old(m);
        }
        w := w.next;
        k := k + 1;
      }
    }

    lemma QueueAt(k: nat)
      requires Valid()
      ensures |queue| == |m.lockq| && lockWaiters == if queue == [] then null else queue[0]
      ensures k < |queue| ==>
                && queue[k].next == (if k + 1 < |queue| then queue[k + 1] else null)
                && var w := m.lockq[k];
                   && queue[k].lock == w.lock && w.task < |slots| == |m.tasks| && queue[k].task == slots[w.task]
                   && queue[k].task.idx == w.task && queue[k].task.state == m.tasks[w.task].state
    {
    }

    // ---------- draining ----------

    /** One turn of the drain: wait for a completion where nothing is ready, else let the next task
        run. True is the end of the loop. */
    method DrainTurn(done: seq<Completion>) returns (over: bool)
      requires Valid() && Inv(m) && (m.rq == [] ==> Deliverable(m, done))
      modifies `rqHead, `rqTail, `rq, `nexts, `inflight, `m, slots`next, slots`state, slots`ioRes
      modifies `zombies, `dead, `freeSlots, `free, `live, `current, `tls, slots`gen, slots`usp
      ensures Valid() && over == (old(m).rq == [] && old(m).inflight == 0)
      ensures m == if old(m).rq != [] then Handoff(old(m), old(m).rq[0]) else Deliver(old(m), done)
    {
      hide Valid;
      InStep();
      var next := RqPop();
      if next == null {
        if inflight == 0 {
          NoneOut(m, done);
          return true;
        }
        IoPoll(done);
        return false;
      }
      InStep();
      assert Without(old(m).rq, old(m).rq[0]) == old(m).rq[1..];
      PassTo(next, old(m));
      return false;
    }

    lemma LooseIs(t: nat)
      requires Valid()
      ensures Loose(t) <==> t < |slots| && t !in m.rq && t !in m.free && t !in m.zombies
    {
    }

    lemma WaitersLoose()
      requires Valid() && Inv(m)
      ensures var ws := m.tasks[m.current].waiters;
              AllBelow(ws, |slots|) && AllLoose(ws) && m.current !in ws
              && m.current !in m.rq && m.current !in m.free && m.zombies == []
    {
      var ws := m.tasks[m.current].waiters;
      assert TaskOk(m, m.current);
      forall k | 0 <= k < |ws| ensures Loose(ws[k]) {
        assert TaskOk(m, ws[k]);
      }
    }
  }

  lemma FreeInRange(s: Sched)
    requires InRange(s) && s.free != []
    ensures InRange(s.(free := s.free[1..], live := s.live + 1))
  {
  }

  lemma LockqAside(s: Sched, q: seq<LockWait>)
    requires InRange(s)
    ensures InRange(s.(lockq := q)) && s.current < |s.tasks|
  {
  }

  lemma CurrentInRange(s: Sched)
    requires InRange(s)
    ensures s.current < |s.tasks|
  {
  }

  lemma GrownInRange(s: Sched, k: Task)
    requires InRange(s) && k.waiters == []
    ensures InRange(s.(tasks := s.tasks + [k], live := s.live + 1))
  {
    var g := s.(tasks := s.tasks + [k], live := s.live + 1);
    forall i | 0 <= i < |g.tasks| ensures AllBelow(g.tasks[i].waiters, |g.tasks|) {
      if i < |s.tasks| { assert AllBelow(s.tasks[i].waiters, |s.tasks|); }
    }
  }

  lemma FreeUnawaited(s: Sched, t: nat)
    requires Inv(s) && t in s.free
    ensures s.tasks[t].waiters == [] && forall i :: 0 <= i < |s.tasks| ==> t !in s.tasks[i].waiters
  {
    assert TaskOk(s, t);
    forall i | 0 <= i < |s.tasks| ensures t !in s.tasks[i].waiters {
      assert TaskOk(s, i);
    }
  }

  lemma AllocatedLoose(s: Sched, mem: Memory, usp: int)
    requires Inv(s)
    ensures var (a, slot) := SchedModel.SlotAlloc(s, mem, usp);
            slot.Some? ==> slot.value !in a.rq && slot.value !in a.free && a.zombies == []
  {
    if !NoSlot(s, mem) {
      if s.free != [] { ReuseKeeps(s, mem, usp); } else { ExtendKeeps(s, mem, usp); }
    }
  }

  lemma {:induction false} DropWaiterAt(q: seq<LockWait>, t: nat, i: nat)
    requires i < |q| && q[i].task == t && forall j, k :: 0 <= j < k < |q| ==> q[j].task != q[k].task
    ensures DropWaiter(q, t) == q[..i] + q[i + 1..]
  {
    if i > 0 {
      DropWaiterAt(q[1..], t, i - 1);
      assert q[1..][..i - 1] == q[..i][1..] && q[1..][i..] == q[i + 1..];
    }
  }

  lemma StillApart(wait: seq<seq<nat>>, rest: seq<nat>)
    requires rest != [] && NoDup(rest) && forall i :: 0 <= i < |wait| ==> Apart(rest, wait[i])
    ensures NoDup(rest[1..]) && forall i :: 0 <= i < |wait| ==> Apart(rest[1..], wait[i])
  {
    HeadAndTail(rest);
  }

  lemma SwitchForGoodIs(d: Sched)
    requires InRange(d) && d.rq != []
    ensures SwitchForGood(d) == Entered(d.(rq := d.rq[1..]), d.rq[0], false)
  {
  }

  lemma AwaitFacts(s: Sched, t: nat)
    requires Inv(s) && t < |s.tasks|
    ensures Core(s) && s.zombies == []
    ensures MayPark(s, t) <==> s.tasks[s.current].pc.Code? && t != s.current && !s.tasks[t].detached
                               && !s.tasks[t].state.Done? && !s.tasks[t].state.Free?
    ensures t != s.current ==> Park(s, t).zombies == [] && !Park(s, t).tasks[s.current].state.Running?
  {
  }

  lemma CollectFacts(s: Sched)
    requires Inv(s)
    ensures Core(s) && s.zombies == []
  {
  }

  lemma ParkFacts(s: Sched, t: nat)
    requires MayPark(s, t)
    ensures t != s.current && Core(Park(s, t)) && s.zombies == []
    ensures forall i :: 0 <= i < |s.tasks| ==> s.current !in s.tasks[i].waiters
  {
    ParkKeeps(s, t);
    forall i | 0 <= i < |s.tasks| ensures s.current !in s.tasks[i].waiters {
      assert TaskOk(s, i);
    }
  }

  lemma WaitApart(wait: seq<seq<nat>>, t: nat, me: nat)
    requires AllApart(wait) && t < |wait| && forall i :: 0 <= i < |wait| ==> me !in wait[i]
    ensures AllApart(wait[t := [me] + wait[t]])
  {
  }

  lemma NoneOut(s: Sched, done: seq<Completion>)
    requires Core(s) && Deliverable(s, done) && s.inflight == 0
    ensures Deliver(s, done) == s
  {
    assert s.out == {};
  }

  lemma CurrentLoose(s: Sched, n: nat)
    requires Inv(s) && n in s.rq
    ensures n != s.current && s.current !in s.rq && s.current !in s.free && s.zombies == []
    ensures s.current !in Without(s.rq, n) && InRange(s)
  {
    assert TaskOk(s, s.current) && TaskOk(s, n);
    WithoutIs(s.rq, n);
  }

  /** Handing off is taking `n` off the run queue, queueing the running task and entering `n`. */
  lemma HandoffIs(s: Sched, n: nat)
    requires InRange(s) && n < |s.tasks| && n != s.current && s.zombies == []
    ensures SchedModel.Reap(Entered(Push(s.(rq := Without(s.rq, n)), s.current), n, true)) == Handoff(s, n)
  {
    var e := Entered(Push(s.(rq := Without(s.rq, n)), s.current), n, true);
    assert e.tasks == Handoff(s, n).tasks;
    assert e.(zombies := []) == e;
  }

  /** Switching away is popping the head, then entering it. */
  lemma SwitchAwayIs(d: Sched)
    requires InRange(d) && d.rq != [] && d.zombies == []
    ensures var p := d.(rq := d.rq[1..]);
            SchedModel.Reap(SwitchAway(d)) ==
            if d.current == d.rq[0] then p.(tasks := p.tasks[d.rq[0] := p.tasks[d.rq[0]].(state := Running)])
            else SchedModel.Reap(Entered(p, d.rq[0], true))
  {
    var w := SwitchAway(d);
    assert w.(zombies := []) == w;
  }

  /** What the polls so far have made of the state they began at. */
  ghost predicate Picked(was: Sched, polls: seq<seq<Completion>>, now: Sched) {
    InRange(was) && Deliverable(was, Flat(polls)) && now == Deliver(was, Flat(polls))
  }

  lemma PickedEnds(was: Sched, polls: seq<seq<Completion>>, d: Sched)
    requires Picked(was, polls, d) && (d.rq != [] || d.inflight == 0)
    ensures InRange(was) && PicksWith(was, Flat(polls)) && d == Deliver(was, Flat(polls))
  {
  }

  lemma PickedNone(s: Sched)
    requires InRange(s)
    ensures Picked(s, [], s)
  {
  }

  /** What the polls from the `k`th on say of the state they find. */
  lemma AnswersFirst(s: Sched, polls: seq<seq<Completion>>, k: nat)
    requires InRange(s) && k <= |polls| && Answers(s, polls[k..])
    ensures if s.inflight == 0 then k == |polls| else
            && k < |polls| && Deliverable(s, polls[k])
            && var d := Deliver(s, polls[k]);
               if d.rq != [] || d.inflight == 0 then k + 1 == |polls|
               else k + 2 <= |polls| && Deliverable(d, polls[k + 1]) && Answers(Deliver(d, polls[k + 1]), polls[k + 2..])
  {
    if s.inflight != 0 {
      assert polls[k..][0] == polls[k];
      if k + 2 <= |polls| {
        assert polls[k..][1] == polls[k + 1] && polls[k..][2..] == polls[k + 2..];
      }
    }
  }

  function Flat(polls: seq<seq<Completion>>): seq<Completion> {
    if polls == [] then [] else Flat(polls[..|polls| - 1]) + polls[|polls| - 1]
  }

  /** `polls` is what the successive polls of a pick find: no poll is made with nothing outstanding,
      and none once a task is ready. */
  ghost predicate Answers(s: Sched, polls: seq<seq<Completion>>)
    requires InRange(s)
    decreases |polls|
  {
    if s.inflight == 0 then polls == [] else
    && polls != [] && Deliverable(s, polls[0])
    && var d := Deliver(s, polls[0]);
       if d.rq != [] || d.inflight == 0 then |polls| == 1
       else |polls| >= 2 && Deliverable(d, polls[1]) && Answers(Deliver(d, polls[1]), polls[2..])
  }

  lemma {:induction false} DeliverSplits(s: Sched, a: seq<Completion>, b: seq<Completion>)
    requires InRange(s) && Deliverable(s, a) && Deliverable(Deliver(s, a), b)
    ensures Deliverable(s, a + b) && Deliver(s, a + b) == Deliver(Deliver(s, a), b)
    decreases |a|
  {
    if a == [] {
      assert a + b == b;
    } else {
      assert (a + b)[0] == a[0] && (a + b)[1..] == a[1..] + b;
      DeliverSplits(Deliver1(s, a[0]), a[1..], b);
    }
  }

  lemma FlatStep(s: Sched, polls: seq<seq<Completion>>, k: nat)
    requires k < |polls| && InRange(s) && Deliverable(s, Flat(polls[..k]))
    requires Deliverable(Deliver(s, Flat(polls[..k])), polls[k])
    ensures Picked(s, polls[..k + 1], Deliver(Deliver(s, Flat(polls[..k])), polls[k]))
  {
    assert polls[..k + 1][..k] == polls[..k];
    DeliverSplits(s, Flat(polls[..k]), polls[k]);
  }

  /** The model's side of `Enter`. */
  ghost function Entered(s: Sched, n: nat, keep: bool): (r: Sched)
    requires InRange(s) && n < |s.tasks|
    ensures InRange(r) && |r.tasks| == |s.tasks|
  {
    var saved := if keep then s.tasks[s.current := s.tasks[s.current].(usp := s.tls)] else s.tasks;
    s.(tasks := saved[n := saved[n].(state := Running)], current := n, tls := saved[n].usp)
  }
}
