/** The completion-port backend: what tasks wait on the port for, and the sleepers, the earliest
    first. The port, the timer and the clock are the system's; what they answer comes in as
    arguments. Times are in nanoseconds of the monotonic clock. */
module Iocp {

  const NOW := -0x8000_0000_0000_0000
  const NEVER := 0x7FFF_FFFF_FFFF_FFFF
  const INFINITE: nat := 0xFFFF_FFFF
  const BATCH := 64

  class IoTask {
    var handle: bool           // an operation of its own is outstanding
    var deadline: int
    var next: IoTask?

    // When it went to sleep, counted in sleeps.
    ghost var since: nat

    constructor ()
      ensures !handle && next == null
    {
      handle, deadline, next, since := false, 0, null, 0;
    }
  }

  /** What the port hands over: the timer going off, or an operation finished. */
  datatype Entry = Expiry | Done(task: IoTask)

  function Tasks(done: seq<Entry>): seq<IoTask> {
    if done == [] then [] else (if done[0].Expiry? then [] else [done[0].task]) + Tasks(done[1..])
  }

  /** The earliest deadline first, and of equal ones the longest asleep. */
  ghost predicate InOrder(q: seq<IoTask>, sleeps: nat)
    reads q`deadline, q`since
  {
    && (forall i :: 0 <= i < |q| ==> NOW < q[i].deadline < NEVER && q[i].since < sleeps)
    && forall i, j :: 0 <= i < j < |q| ==>
         q[i].deadline < q[j].deadline || (q[i].deadline == q[j].deadline && q[i].since < q[j].since)
  }

  lemma InOrderInsert(q: seq<IoTask>, t: IoTask, k: nat, sleeps: nat)
    requires InOrder(q, sleeps) && t.since == sleeps && NOW < t.deadline < NEVER && k <= |q|
    requires forall i :: 0 <= i < k ==> q[i].deadline <= t.deadline
    requires k < |q| ==> q[k].deadline > t.deadline
    ensures InOrder(q[..k] + [t] + q[k..], sleeps + 1)
    ensures forall i :: k <= i < |q| ==> q[i].deadline > t.deadline
  {
    var r := q[..k] + [t] + q[k..];
    forall i | 0 <= i < |r| ensures r[i] == if i < k then q[i] else if i == k then t else q[i - 1] {
    }
  }

  lemma Later(q: seq<IoTask>, sleeps: nat, now: int)
    requires InOrder(q, sleeps) && q != []
    ensures InOrder(q[1..], sleeps) && (q[0].deadline > now ==> forall i :: 0 <= i < |q| ==> q[i].deadline > now)
  {
  }

  ghost predicate NoRepeat(q: seq<IoTask>) {
    forall i, j :: 0 <= i < j < |q| ==> q[i] != q[j]
  }

  ghost function All(q: seq<IoTask>): set<IoTask> {
    set t | t in q
  }

  lemma FirstOf(t: IoTask, q: seq<IoTask>)
    requires NoRepeat([t] + q)
    ensures NoRepeat(q) && All([t] + q) == {t} + All(q) && t !in All(q)
  {
    var all := [t] + q;
    assert all[1..] == q && all[0] == t;
  }

  lemma Unfolds(done: seq<Entry>)
    requires done != []
    ensures Tasks(done) == (if done[0].Expiry? then [] else [done[0].task]) + Tasks(done[1..])
  {
  }

  /** The first entry, and what is left after it. */
  lemma FirstEntry(done: seq<Entry>)
    requires done != [] && NoRepeat(Tasks(done))
    ensures NoRepeat(Tasks(done[1..]))
    ensures done[0].Expiry? ==> Tasks(done) == Tasks(done[1..])
    ensures done[0].Done? ==>
              && Tasks(done) == [done[0].task] + Tasks(done[1..])
              && All(Tasks(done)) == {done[0].task} + All(Tasks(done[1..])) && done[0].task !in All(Tasks(done[1..]))
  {
    hide Tasks, NoRepeat, All;
    Unfolds(done);
    if done[0].Done? { FirstOf(done[0].task, Tasks(done[1..])); } else { assert [] + Tasks(done[1..]) == Tasks(done[1..]); }
  }

  class Backend {
    const packet: bool         // there is a packet to post the timer's expiry by
    var sleepers: IoTask?
    var inflight: int
    var armed: bool            // the packet is tied to the port
    var ready: seq<IoTask>     // tasks put on the run queue, in order

    ghost var queue: seq<IoTask>
    // Who has an operation outstanding, and who ever had: `handle` tells the ones from the others, as a
    // teardown has it do.
    ghost var waiting: set<IoTask>
    ghost var known: set<IoTask>
    ghost var sleeps: nat
    ghost var fires: int       // when the timer, if armed, goes off

    ghost predicate Linked()
      reads `sleepers, `queue, queue`next
    {
      && (forall i, j :: 0 <= i < j < |queue| ==> queue[i] != queue[j])
      && sleepers == (if queue == [] then null else queue[0])
      && forall i {:trigger queue[i].next} :: 0 <= i < |queue| ==>
           queue[i].next == if i + 1 < |queue| then queue[i + 1] else null
    }

    ghost predicate Valid()
      reads `sleepers, `queue, `sleeps, `waiting, `known, `inflight, queue, known, waiting
    {
      && Linked() && InOrder(queue, sleeps)
      && waiting <= known && (forall t <- known :: t.handle <==> t in waiting) && (forall t <- waiting :: t !in queue)
      && inflight == |waiting| + |queue|
    }

    constructor (packet: bool)
      ensures Valid() && queue == [] && waiting == {} && this.packet == packet && ready == [] && !armed
    {
      this.packet := packet;
      sleepers, inflight, armed, ready := null, 0, false, [];
      queue, waiting, known, sleeps, fires := [], {}, {}, 0, 0;
    }

    // ---------- waiting ----------

    /** The task has started an operation, which will post its end to the port. */
    method Wait(t: IoTask)
      requires Valid() && t !in waiting && t !in queue
      modifies `inflight, `waiting, `known, t`handle
      ensures Valid() && waiting == old(waiting) + {t} && known == old(known) + {t} && inflight == old(inflight) + 1
    {
      t.handle := true;
      waiting := waiting + {t};
      known := known + {t};
      inflight := inflight + 1;
    }

    /** Link the task in behind those its deadline does not come before. */
    method Insert(t: IoTask) returns (ghost k: nat)
      requires Linked() && t !in queue
      modifies `sleepers, `queue, t`next, queue`next
      ensures Linked() && k <= |old(queue)| && queue == old(queue)[..k] + [t] + old(queue)[k..]
      ensures forall i :: 0 <= i < k ==> old(queue)[i].deadline <= t.deadline
      ensures k < |old(queue)| ==> old(queue)[k].deadline > t.deadline
    {
      var before: IoTask?, at := null, sleepers;
      k := 0;
      while at != null && at.deadline <= t.deadline
        invariant k <= |queue| && at == (if k < |queue| then queue[k] else null)
        invariant before == if k == 0 then null else queue[k - 1]
        invariant forall i :: 0 <= i < k ==> queue[i].deadline <= t.deadline
        decreases |queue| - k
      {
        assert queue[k].next == if k + 1 < |queue| then queue[k + 1] else null;
        before, at := at, at.next;
        k := k + 1;
      }
      t.next := at;
      if before == null { sleepers := t; } else { before.next := t; }
      queue := queue[..k] + [t] + queue[k..];
    }

    /** The task sleeps until `deadline`: behind those it does not come before. */
    method SleepUntil(t: IoTask, deadline: int) returns (ghost k: nat)
      requires Valid() && t !in waiting && t !in queue && NOW < deadline < NEVER
      modifies `sleepers, `queue, `sleeps, `inflight, t`deadline, t`since, t`next, queue`next
      ensures Valid() && inflight == old(inflight) + 1
      ensures k <= |old(queue)| && queue == old(queue)[..k] + [t] + old(queue)[k..] && t.deadline == deadline
      ensures forall i :: 0 <= i < k ==> old(queue)[i].deadline <= deadline
      ensures forall i :: k <= i < |old(queue)| ==> old(queue)[i].deadline > deadline
    {
      hide InOrder, Linked;
      ghost var was := queue;
      t.deadline := deadline;
      t.since := sleeps;
      sleeps := sleeps + 1;
      assert InOrder(was, sleeps - 1);
      k := Insert(t);
      assert InOrder(was, sleeps - 1);
      InOrderInsert(was, t, k, sleeps - 1);
      inflight := inflight + 1;
    }

    // ---------- polling ----------

    /** Have the timer go off `left` from `now`; the system sets it `lag` later than that was read,
        if it can, and ties its packet to the port, if it can. */
    method Arm(left: int, now: int, lag: nat, sets: bool, ties: bool) returns (ok: bool)
      requires left > 0
      modifies `armed, `fires
      ensures ok ==> packet && armed && now + left <= fires < now + left + lag + 100
      ensures !ok ==> armed == old(armed)
      ensures ok <==> packet && sets && (old(armed) || ties)
    {
      if !packet { return false; }
      var due := (left + 99) / 100;
      if !sets { return false; }
      fires := now + lag + due * 100;
      if armed { return true; }
      if !ties { return false; }
      armed := true;
      return true;
    }

    /** When a poll that waits `ms` comes back by itself: a wait with no bound ends by the timer,
        `timed` for then, or has nothing to end for; a bounded one not before what it waits for. */
    ghost predicate WaitsFor(q: seq<IoTask>, until: int, now: int, lag: nat, ms: nat, timed: bool)
      reads `fires, q
    {
      var end := if q != [] && q[0].deadline < until then q[0].deadline else until;
      && (ms == INFINITE ==> until != NOW && (end == NEVER || (timed && fires < end + lag + 100)))
      && (0 < ms < INFINITE ==>
            end > now && ms * 1_000_000 < (end - now) + 1_000_000 && (ms * 1_000_000 >= end - now || ms == INFINITE - 1))
      && (ms == 0 ==> until == NOW || end <= now)
    }

    /** How long the poll is to wait at the port: no later than `until` or the earliest sleeper's
        time. In milliseconds, 0 for not at all. */
    method WaitTime(until: int, now: int, lag: nat, sets: bool, ties: bool) returns (ms: nat)
      requires Valid() && NOW <= until <= NEVER
      modifies `armed, `fires
      ensures Valid() && WaitsFor(queue, until, now, lag, ms, armed)
      ensures var end := if queue != [] && queue[0].deadline < until then queue[0].deadline else until;
              ms == INFINITE <==> end == NEVER || (end != NOW && end > now && packet && sets && (old(armed) || ties))
      ensures ms == INFINITE && queue != [] ==> armed && fires < queue[0].deadline + lag + 100
      ensures ms == INFINITE && until != NEVER ==> armed && fires < until + lag + 100
    {
      var end := until;
      if sleepers != null && sleepers.deadline < until { end := sleepers.deadline; }
      if end == NEVER { return INFINITE; }
      if end == NOW { return 0; }
      var left := end - now;
      if left <= 0 { return 0; }
      var ok := Arm(left, now, lag, sets, ties);
      if ok { return INFINITE; }
      if left >= (INFINITE - 1) * 1_000_000 { return INFINITE - 1; }
      return (left + 999_999) / 1_000_000;
    }

    /** The system's side: what it hands over, each operation at most once, was outstanding. */
    ghost predicate Posted(done: seq<Entry>)
      reads `waiting
    {
      All(Tasks(done)) <= waiting && NoRepeat(Tasks(done))
    }

    /** One entry: the timer's disarms it, an operation's runs its task again. */
    method CollectOne(e: Entry)
      requires Valid() && (e.Done? ==> e.task in waiting)
      modifies `armed, `inflight, `ready, `waiting, waiting`handle
      ensures Valid()
      ensures e.Expiry? ==> !armed && ready == old(ready) && waiting == old(waiting)
      ensures e.Done? ==> armed == old(armed) && ready == old(ready) + [e.task] && waiting == old(waiting) - {e.task}
    {
      if e.Expiry? {
        armed := false;
        return;
      }
      var t := e.task;
      t.handle := false;
      inflight := inflight - 1;
      ready := ready + [t];
      waiting := waiting - {t};
    }

    /** Everything the port handed over: the tasks run again, in that order. */
    method Collect(done: seq<Entry>)
      requires Valid() && Posted(done)
      modifies `armed, `inflight, `ready, `waiting, waiting`handle
      ensures Valid() && ready == old(ready) + Tasks(done)
      ensures waiting == old(waiting) - All(Tasks(done))
      ensures armed == (old(armed) && Expiry !in done)
    {
      hide Valid, All, NoRepeat, Tasks;
      var k := 0;
      assert done[0..] == done;
      while k < |done|
        invariant k <= |done| && Valid() && Posted(done[k..]) && armed == (old(armed) && Expiry !in done[..k])
        invariant ready + Tasks(done[k..]) == old(ready) + Tasks(done)
        invariant waiting - All(Tasks(done[k..])) == old(waiting) - All(Tasks(done)) && waiting <= old(waiting)
      {
        FirstEntry(done[k..]);
        assert done[k..][0] == done[k] && done[k..][1..] == done[k + 1..] && done[..k + 1] == done[..k] + [done[k]];
        CollectOne(done[k]);
        k := k + 1;
      }
      NoTasks();
      assert done[k..] == [] && done[..k] == done && ready + [] == ready;
    }

    method WakeOne()
      requires Valid() && sleepers != null
      modifies `sleepers, `inflight, `ready, `queue
      ensures Valid() && old(queue) != [] && queue == old(queue)[1..] && ready == old(ready) + [old(queue)[0]]
    {
      var t := sleepers;
      Later(queue, sleeps, 0);
      assert queue[0].next == if 1 < |queue| then queue[1] else null;
      hide InOrder;
      sleepers := t.next;
      inflight := inflight - 1;
      ready := ready + [t];
      queue := queue[1..];
    }

    /** Every sleeper whose time has come is woken, and nobody else. */
    method WakeDue(now: int) returns (ghost k: nat)
      requires Valid()
      modifies `sleepers, `inflight, `ready, `queue
      ensures Valid() && k <= |old(queue)| && queue == old(queue)[k..] && ready == old(ready) + old(queue)[..k]
      ensures forall i :: 0 <= i < k ==> old(queue)[i].deadline <= now
      ensures forall i :: k <= i < |old(queue)| ==> old(queue)[i].deadline > now
    {
      k := 0;
      while sleepers != null && sleepers.deadline <= now
        invariant Valid() && k <= |old(queue)| && queue == old(queue)[k..] && ready == old(ready) + old(queue)[..k]
        invariant forall i :: 0 <= i < k ==> old(queue)[i].deadline <= now
        decreases |queue|
      {
        assert sleepers == queue[0] == old(queue)[k];
        WakeOne();
        k := k + 1;
      }
      if queue != [] { Later(queue, sleeps, now); }
    }

    /** A whole poll: the wait it makes, what the port then hands over, and the sleepers whose time
        has come by the clock after that. `timed` is whether the timer was armed while it waited. */
    method Poll(until: int, now: int, lag: nat, sets: bool, ties: bool, done: seq<Entry>, later: int)
      returns (ms: nat, ghost k: nat, ghost timed: bool)
      requires Valid() && NOW <= until <= NEVER && Posted(done) && |done| <= BATCH
      modifies `armed, `fires, `sleepers, `inflight, `ready, `waiting, `queue, waiting`handle
      ensures Valid() && k <= |old(queue)| && queue == old(queue)[k..]
      ensures ready == old(ready) + Tasks(done) + old(queue)[..k]
      ensures forall i :: 0 <= i < |old(queue)| ==> (i < k <==> old(queue)[i].deadline <= later)
      ensures waiting == old(waiting) - All(Tasks(done))
      ensures WaitsFor(old(queue), until, now, lag, ms, timed) && armed == (timed && Expiry !in done)
    {
      ms := WaitTime(until, now, lag, sets, ties);
      timed := armed;
      Collect(done);
      k := WakeDue(later);
    }
  }

  lemma NoTasks()
    ensures Tasks([]) == [] && All([]) == {}
  {
  }

  /** A sleep to a real-time instant: it is looked at again on each waking, and is over at the first
      look that finds the instant reached. `looks` are the readings of the two clocks. */
  method SleepToRealTime(ns: int, looks: seq<(int, int)>) returns (waits: seq<int>)
    requires exists i :: 0 <= i < |looks| && looks[i].0 >= ns
    ensures |waits| < |looks| && looks[|waits|].0 >= ns
    ensures forall i :: 0 <= i < |waits| ==> looks[i].0 < ns && waits[i] - looks[i].1 == ns - looks[i].0
  {
    waits := [];
    while looks[|waits|].0 < ns
      invariant |waits| < |looks| && (exists i :: |waits| <= i < |looks| && looks[i].0 >= ns)
      invariant forall i :: 0 <= i < |waits| ==> looks[i].0 < ns && waits[i] - looks[i].1 == ns - looks[i].0
      decreases |looks| - |waits|
    {
      waits := waits + [looks[|waits|].1 + (ns - looks[|waits|].0)];
    }
  }
}
