/** The condition variable: a sequence number that signals and broadcasts move on, and the queue the
    system keeps of the threads asleep on it. The mutex beside it is the lock `Mutex` is proved to
    be, taken only when free. */
module Cond {
  import opened Runs
  import Mutex

  /** Where a thread is in a wait, a signal or a broadcast. `had` is how often it had the mutex when
      its wait began; `v` is the number its own signal made of the sequence. */
  datatype Pc =
    | Out(last: Mutex.Answer)
    | Note(timed: bool, had: nat)
    | Give(timed: bool, had: nat, seen: nat)
    | Test(timed: bool, had: nat, seen: nat)
    | Doze(timed: bool, had: nat, seen: nat)
    | Dormant(timed: bool, had: nat, seen: nat)
    | Retake(err: Mutex.Answer, had: nat)
    | Bump(all: bool)
    | Ring(all: bool, v: nat)

  /** `asleep` is in the order the threads went to sleep, and a wake takes the first, as the system
      documents. `rung` is the number of the last broadcast that has completed. */
  datatype Cond = Cond(
    kind: Mutex.Kind, number: nat, asleep: seq<nat>, holder: Option<nat>, depth: nat, pcs: seq<Pc>, rung: nat)

  ghost predicate Initial(s: Cond) {
    && s.number == 0 && s.asleep == [] && s.holder == None && s.depth == 0 && s.rung == 0
    && forall t :: 0 <= t < |s.pcs| ==> s.pcs[t] == Out(Mutex.Nothing)
  }

  /** How often the thread has the mutex. */
  function Has(s: Cond, t: nat): nat {
    if s.holder == Some(t) then s.depth else 0
  }

  datatype Move =
    | LockIt(t: nat)
    | UnlockIt(t: nat)
    | Wait(t: nat, timed: bool)
    | WaitBad(t: nat)
    | Signal(t: nat)
    | Broadcast(t: nat)
    | Run(t: nat)
    | TooLate(t: nat)
    | Stir(t: nat)

  predicate CanTake(s: Cond, t: nat) {
    s.holder == None || (s.holder == Some(t) && !s.kind.Normal?)
  }

  /** The mutex must be the caller's: an unchecked one that is not is not given up here. */
  ghost predicate Enabled(s: Cond, mv: Move) {
    && mv.t < |s.pcs|
    && var pc := s.pcs[mv.t];
       match mv
       case LockIt(t) => pc.Out? && (s.holder == None || (s.holder == Some(t) && s.kind.Recursive? && s.depth < Mutex.UINT_MAX))
       case UnlockIt(t) => pc.Out? && s.holder == Some(t)
       case Wait(t, _) => pc.Out? && (s.kind.Normal? ==> s.holder == Some(t))
       case WaitBad(_) => pc.Out?
       case Signal(_) => pc.Out?
       case Broadcast(_) => pc.Out?
       case Run(t) => !pc.Out? && !pc.Dormant? && (pc.Retake? ==> CanTake(s, t))
       case TooLate(_) => pc.Doze? && pc.timed
       case Stir(_) => pc.Dormant?
  }

  function To(s: Cond, t: nat, pc: Pc): Cond
    requires t < |s.pcs|
  {
    s.(pcs := s.pcs[t := pc])
  }

  function Down(s: Cond): Cond {
    if s.depth <= 1 then s.(holder := None, depth := 0) else s.(depth := s.depth - 1)
  }

  /** What a sleep leads to, however it ends: only a wait with a deadline looks again. */
  function Roused(pc: Pc): Pc {
    if !pc.Dormant? then pc else if pc.timed then Test(true, pc.had, pc.seen) else Retake(Mutex.Ok, pc.had)
  }

  function TakeOff(q: seq<nat>, t: nat): seq<nat> {
    if q == [] then [] else if q[0] == t then q[1..] else [q[0]] + TakeOff(q[1..], t)
  }

  function Advance(s: Cond, t: nat): Cond
    requires t < |s.pcs|
  {
    match s.pcs[t]
    case Note(timed, had) => To(s, t, Give(timed, had, s.number))
    case Give(timed, had, seen) =>
      if !s.kind.Normal? && s.holder != Some(t) then To(s, t, Out(Mutex.NotOwner))
      else To(Down(s), t, Test(timed, had, seen))
    case Test(timed, had, seen) =>
      To(s, t, if s.number == seen then Doze(timed, had, seen) else Retake(Mutex.Ok, had))
    case Doze(timed, had, seen) =>
      if s.number == seen then To(s, t, Dormant(timed, had, seen)).(asleep := s.asleep + [t])
      else To(s, t, Roused(Dormant(timed, had, seen)))
    case Retake(err, had) =>
      if s.holder == None then To(s, t, Out(err)).(holder := Some(t), depth := 1)
      else if s.kind.ErrorCheck? then To(s, t, Out(Mutex.Deadlock))
      else if s.depth == Mutex.UINT_MAX then To(s, t, Out(Mutex.Again))
      else To(s, t, Out(err)).(depth := s.depth + 1)
    case Bump(all) => To(s, t, Ring(all, s.number + 1)).(number := s.number + 1)
    case Ring(all, v) =>
      if all then To(s.(pcs := Each(Roused, s.pcs), asleep := [], rung := if v > s.rung then v else s.rung), t, Out(Mutex.Ok))
      else if s.asleep == [] || s.asleep[0] >= |s.pcs| then To(s, t, Out(Mutex.Ok))
      else To(To(s, s.asleep[0], Roused(s.pcs[s.asleep[0]])), t, Out(Mutex.Ok)).(asleep := s.asleep[1..])
    case _ => s
  }

  function Apply(s: Cond, mv: Move): Cond
    requires mv.t < |s.pcs|
  {
    match mv
    case LockIt(t) => s.(holder := Some(t), depth := if s.holder == Some(t) then s.depth + 1 else 1)
    case UnlockIt(t) => Down(s)
    case Wait(t, timed) => To(s, t, Note(timed, Has(s, t)))
    case WaitBad(t) => To(s, t, Out(Mutex.Invalid))
    case Signal(t) => To(s, t, Bump(false))
    case Broadcast(t) => To(s, t, Bump(true))
    case Run(t) => Advance(s, t)
    case TooLate(t) => if s.pcs[t].Doze? then To(s, t, Retake(Mutex.TimedOut, s.pcs[t].had)) else s
    case Stir(t) => To(s, t, Roused(s.pcs[t])).(asleep := TakeOff(s.asleep, t))
  }

  ghost predicate Step(s: Cond, mv: Move, s': Cond) {
    Enabled(s, mv) && s' == Apply(s, mv)
  }

  ghost predicate Reachable(s: Cond) {
    exists a: Cond :: Initial(a) && Reaches(Step, a, s)
  }

  // ---------- the invariant ----------

  /** In a wait the thread has the mutex as often as when it began, but for once from where it gives
      it up to where it takes it back. */
  ghost predicate Owed(s: Cond, t: nat, had: nat, given: bool) {
    && Has(s, t) == (if given then had - 1 else had)
    && (given || s.kind.Normal? ==> had > 0) && (had > 1 ==> s.kind.Recursive?) && had <= Mutex.UINT_MAX
  }

  ghost predicate ThreadOk(s: Cond, t: nat)
    requires t < |s.pcs|
  {
    match s.pcs[t]
    case Note(_, had) => Owed(s, t, had, false)
    case Give(_, had, seen) => Owed(s, t, had, false) && seen <= s.number
    case Test(_, had, seen) => Owed(s, t, had, true) && seen <= s.number
    case Doze(_, had, seen) => Owed(s, t, had, true) && seen <= s.number
    case Dormant(_, had, seen) => Owed(s, t, had, true) && s.rung <= seen <= s.number && t in s.asleep
    case Retake(_, had) => Owed(s, t, had, true)
    case Ring(_, v) => v <= s.number
    case _ => true
  }

  /** The queue holds threads asleep, each once, and whoever sleeps longer noted no later number. */
  ghost predicate InOrder(pcs: seq<Pc>, q: seq<nat>) {
    && (forall k :: 0 <= k < |q| ==> q[k] < |pcs| && pcs[q[k]].Dormant?)
    && (forall j, k :: 0 <= j < k < |q| ==> q[j] != q[k] && pcs[q[j]].seen <= pcs[q[k]].seen)
  }

  ghost predicate Inv(s: Cond) {
    && (s.holder == None <==> s.depth == 0) && s.depth <= Mutex.UINT_MAX && s.rung <= s.number
    && (s.depth > 1 ==> s.kind.Recursive?)
    && (s.holder.Some? ==> s.holder.value < |s.pcs|)
    && InOrder(s.pcs, s.asleep)
    && forall t :: 0 <= t < |s.pcs| ==> ThreadOk(s, t)
  }

  lemma {:induction false} TakeOffAt(q: seq<nat>, t: nat) returns (i: nat)
    requires t in q
    ensures i < |q| && q[i] == t && TakeOff(q, t) == q[..i] + q[i + 1..]
  {
    if q[0] == t {
      i := 0;
    } else {
      assert q == [q[0]] + q[1..];
      var k := TakeOffAt(q[1..], t);
      i := k + 1;
      assert q[..i] == [q[0]] + q[1..][..k] && q[i + 1..] == q[1..][k + 1..];
    }
  }

  lemma {:induction false} NotThere(q: seq<nat>, t: nat)
    requires t !in q
    ensures TakeOff(q, t) == q
  {
    if q != [] { NotThere(q[1..], t); }
  }

  /** A step of one thread leaves another's facts alone, but may wake it. */
  ghost predicate SameFor(s: Cond, s': Cond, t: nat)
    requires t < |s.pcs| == |s'.pcs|
  {
    && s'.kind == s.kind && s'.number >= s.number && Has(s', t) == Has(s, t)
    && if s'.pcs[t] == s.pcs[t] then s.pcs[t].Dormant? ==> s'.rung == s.rung && t in s'.asleep
       else s.pcs[t].Dormant? && s'.pcs[t] == Roused(s.pcs[t])
  }

  lemma OthersSame(s: Cond, mv: Move, s': Cond, t: nat)
    requires Inv(s) && Step(s, mv, s') && t < |s.pcs| == |s'.pcs| && t != mv.t
    ensures SameFor(s, s', t)
  {
    hide Inv, Step;
    OthersHold(s, mv, s', t);
    OthersStand(s, mv, s', t);
  }

  lemma OthersHold(s: Cond, mv: Move, s': Cond, t: nat)
    requires Inv(s) && Step(s, mv, s') && t < |s.pcs| && t != mv.t
    ensures s'.kind == s.kind && s'.number >= s.number && Has(s', t) == Has(s, t)
  {
    hide InOrder, TakeOff, Each;
    assert ThreadOk(s, mv.t);
  }

  lemma OthersStand(s: Cond, mv: Move, s': Cond, t: nat)
    requires Inv(s) && Step(s, mv, s') && t < |s.pcs| == |s'.pcs| && t != mv.t
    ensures if s'.pcs[t] == s.pcs[t] then s.pcs[t].Dormant? ==> s'.rung == s.rung && t in s'.asleep
            else s.pcs[t].Dormant? && s'.pcs[t] == Roused(s.pcs[t])
  {
    assert ThreadOk(s, t);
    if mv.Run? && s.pcs[mv.t].Ring? {
      RingWakes(s, mv.t, t);
    } else {
      if mv.Stir? { Leaves(s, mv.t); }
      hide InOrder, Inv, ThreadOk, TakeOff;
    }
  }

  lemma RingWakes(s: Cond, b: nat, t: nat)
    requires InOrder(s.pcs, s.asleep) && b < |s.pcs| && t < |s.pcs| && t != b && s.pcs[b].Ring?
    requires s.pcs[t].Dormant? ==> t in s.asleep
    ensures var s' := Advance(s, b);
            && |s'.pcs| == |s.pcs|
            && if s'.pcs[t] == s.pcs[t] then s.pcs[t].Dormant? ==> s'.rung == s.rung && t in s'.asleep
               else s.pcs[t].Dormant? && s'.pcs[t] == Roused(s.pcs[t])
  {
    if s.asleep != [] { assert s.asleep == [s.asleep[0]] + s.asleep[1..]; }
  }

  lemma OtherKept(s: Cond, s': Cond, t: nat)
    requires t < |s.pcs| == |s'.pcs| && ThreadOk(s, t) && SameFor(s, s', t) && s'.rung <= s'.number
    ensures ThreadOk(s', t)
  {
  }

  lemma MoverKept(s: Cond, mv: Move, s': Cond)
    requires Inv(s) && Step(s, mv, s') && |s'.pcs| == |s.pcs|
    ensures ThreadOk(s', mv.t)
  {
    assert ThreadOk(s, mv.t);
    if mv.Run? { AdvanceKeeps(s, mv.t); }
    hide InOrder, Advance;
  }

  lemma AdvanceKeeps(s: Cond, t: nat)
    requires Inv(s) && t < |s.pcs| && ThreadOk(s, t) && (s.pcs[t].Retake? ==> CanTake(s, t))
    ensures |Advance(s, t).pcs| == |s.pcs| && ThreadOk(Advance(s, t), t)
  {
    assert (s.holder == None <==> s.depth == 0) && s.depth <= Mutex.UINT_MAX && (s.depth > 1 ==> s.kind.Recursive?) && s.rung <= s.number;
    hide InOrder, Inv;
  }

  lemma WordsKept(s: Cond, mv: Move, s': Cond)
    requires Inv(s) && Step(s, mv, s')
    ensures |s'.pcs| == |s.pcs| && (s'.holder == None <==> s'.depth == 0) && s'.depth <= Mutex.UINT_MAX && s'.rung <= s'.number
    ensures s'.depth > 1 ==> s'.kind.Recursive?
    ensures s'.holder.Some? ==> s'.holder.value < |s'.pcs|
  {
    hide InOrder;
    assert ThreadOk(s, mv.t);
  }

  lemma OrderWithout(pcs: seq<Pc>, q: seq<nat>, i: nat)
    requires InOrder(pcs, q) && i < |q|
    ensures InOrder(pcs, q[..i] + q[i + 1..]) && q[i] !in q[..i] + q[i + 1..]
  {
    var r := q[..i] + q[i + 1..];
    assert forall k :: 0 <= k < |r| ==> r[k] == q[if k < i then k else k + 1];
  }

  /** A thread leaving the queue leaves the rest as they stood. */
  lemma Leaves(s: Cond, t: nat)
    requires InOrder(s.pcs, s.asleep)
    ensures forall x :: x in TakeOff(s.asleep, t) <==> x in s.asleep && x != t
    ensures InOrder(s.pcs, TakeOff(s.asleep, t))
  {
    var q := s.asleep;
    if t in q {
      var i := TakeOffAt(q, t);
      OrderWithout(s.pcs, q, i);
      hide InOrder, TakeOff;
      assert q == q[..i] + [t] + q[i + 1..];
    } else {
      NotThere(q, t);
    }
  }

  lemma SameOrder(pcs: seq<Pc>, pcs': seq<Pc>, q: seq<nat>)
    requires InOrder(pcs, q) && |pcs'| == |pcs| && forall x :: x in q ==> x < |pcs| && pcs'[x] == pcs[x]
    ensures InOrder(pcs', q)
  {
    assert forall k :: 0 <= k < |q| ==> q[k] in q;
  }

  lemma OrderKept(s: Cond, mv: Move, s': Cond)
    requires Inv(s) && Step(s, mv, s')
    ensures InOrder(s'.pcs, s'.asleep)
  {
    if mv.Stir? {
      Leaves(s, mv.t);
      SameOrder(s.pcs, s'.pcs, s'.asleep);
    } else if mv.Run? && s.pcs[mv.t].Ring? {
      RingKeepsOrder(s, mv.t);
    } else if mv.Run? && s.pcs[mv.t].Doze? {
      DozeKeepsOrder(s, mv.t);
    } else {
      assert s'.asleep == s.asleep && forall t :: 0 <= t < |s.pcs| && s.pcs[t].Dormant? ==> s'.pcs[t] == s.pcs[t];
      SameOrder(s.pcs, s'.pcs, s.asleep);
    }
  }

  lemma OrderTail(pcs: seq<Pc>, q: seq<nat>)
    requires InOrder(pcs, q) && q != []
    ensures InOrder(pcs, q[1..]) && q[0] !in q[1..]
  {
  }

  lemma RingKeepsOrder(s: Cond, t: nat)
    requires InOrder(s.pcs, s.asleep) && t < |s.pcs| && s.pcs[t].Ring?
    ensures InOrder(Advance(s, t).pcs, Advance(s, t).asleep)
  {
    var q, after := s.asleep, Advance(s, t).pcs;
    if q != [] && !s.pcs[t].all {
      OrderTail(s.pcs, q);
      forall x | x in q[1..] ensures x < |s.pcs| && after[x] == s.pcs[x] {
        assert x in q;
      }
      SameOrder(s.pcs, after, q[1..]);
      hide InOrder;
    }
  }

  lemma DozeKeepsOrder(s: Cond, t: nat)
    requires Inv(s) && t < |s.pcs| && s.pcs[t].Doze?
    ensures InOrder(Advance(s, t).pcs, Advance(s, t).asleep)
  {
    var q := s.asleep;
    SameOrder(s.pcs, Advance(s, t).pcs, q);
    forall k | 0 <= k < |q| ensures s.pcs[q[k]].seen <= s.number {
      assert ThreadOk(s, q[k]);
    }
  }

  lemma StepKeeps(s: Cond, mv: Move, s': Cond)
    requires Inv(s) && Step(s, mv, s')
    ensures Inv(s')
  {
    WordsKept(s, mv, s');
    forall t | 0 <= t < |s'.pcs| ensures ThreadOk(s', t) {
      if t == mv.t {
        MoverKept(s, mv, s');
      } else {
        assert ThreadOk(s, t);
        OthersSame(s, mv, s', t);
        OtherKept(s, s', t);
      }
    }
    OrderKept(s, mv, s');
  }

  lemma ReachableInv(s: Cond)
    requires Reachable(s)
    ensures Inv(s)
  {
    var a: Cond :| Initial(a) && Reaches(Step, a, s);
    assert Inv(a);
    forall x, mv, y | Inv(x) && Step(x, mv, y) ensures Inv(y) {
      StepKeeps(x, mv, y);
    }
    Kept(Step, Inv, a, s);
  }

  // ---------- what waiters are promised ----------

  /** A wait that gave the mutex up answers only once it has it back, as often as before, and always
      with its own answer: taking it back is never refused. One that could not give it up answers
      that at once and changes nothing. */
  lemma WaitKeepsMutex(s: Cond, t: nat)
    requires Reachable(s) && t < |s.pcs|
    ensures s.pcs[t].Retake? ==> (Enabled(s, Run(t)) <==> s.holder == None || s.holder == Some(t))
    ensures s.pcs[t].Retake? && Enabled(s, Run(t)) ==>
              var s' := Advance(s, t);
              s'.pcs[t] == Out(s.pcs[t].err) && Has(s', t) == s.pcs[t].had > 0
    ensures s.pcs[t].Give? ==>
              var s' := Advance(s, t);
              if Has(s, t) == 0 then s' == To(s, t, Out(Mutex.NotOwner)) else s'.pcs[t].Test? && Has(s', t) == Has(s, t) - 1
    ensures s.pcs[t].Test? || s.pcs[t].Doze? ==> !Advance(s, t).pcs[t].Out?
  {
    ReachableInv(s);
    assert ThreadOk(s, t);
  }

  /** Once a broadcast has completed, no thread that noted the sequence before it is asleep, at its
      wake or at any point of any run from there. */
  lemma BroadcastMissesNobody(s: Cond, b: nat, later: Cond, t: nat)
    requires Reachable(s) && b < |s.pcs| && s.pcs[b].Ring? && s.pcs[b].all
    requires Reaches(Step, Advance(s, b), later) && t < |later.pcs| && later.pcs[t].Dormant?
    ensures later.pcs[t].seen >= s.pcs[b].v
  {
    ReachableInv(s);
    var v := s.pcs[b].v;
    var after := (x: Cond) => Inv(x) && x.rung >= v;
    assert Step(s, Run(b), Advance(s, b));
    StepKeeps(s, Run(b), Advance(s, b));
    forall x, mv, y | after(x) && Step(x, mv, y) ensures after(y) {
      StepKeeps(x, mv, y);
      RungGrows(x, mv, y);
    }
    Kept(Step, after, Advance(s, b), later);
    assert ThreadOk(later, t);
  }

  lemma RungGrows(s: Cond, mv: Move, s': Cond)
    requires Step(s, mv, s')
    ensures s'.rung >= s.rung
  {
  }

  /** The wake of a signal lets go exactly the thread asleep the longest, if any thread is asleep; and
      if any of those asleep noted the sequence before the signal, then so did the one let go. */
  lemma SignalReleases(s: Cond, t: nat)
    requires Reachable(s) && t < |s.pcs| && s.pcs[t].Ring? && !s.pcs[t].all
    ensures var s' := Advance(s, t);
            if s.asleep == [] then forall u :: 0 <= u < |s.pcs| ==> !s.pcs[u].Dormant?
            else
              var w := s.asleep[0];
              && w < |s.pcs| && s.pcs[w].Dormant? && !s'.pcs[w].Dormant? && s'.asleep == s.asleep[1..]
              && (forall u :: 0 <= u < |s.pcs| && u != w && u != t ==> s'.pcs[u] == s.pcs[u])
              && forall u :: 0 <= u < |s.pcs| && s.pcs[u].Dormant? && s.pcs[u].seen < s.pcs[t].v ==> s.pcs[w].seen < s.pcs[t].v
  {
    ReachableInv(s);
    forall u | 0 <= u < |s.pcs| && s.pcs[u].Dormant? ensures s.asleep != [] && s.pcs[s.asleep[0]].seen <= s.pcs[u].seen {
      assert ThreadOk(s, u);
      var k :| 0 <= k < |s.asleep| && s.asleep[k] == u;
    }
    if s.asleep != [] {
      assert s.pcs[s.asleep[0]].Dormant?;
    }
  }

  /** A thread that noted the sequence before a signal or broadcast but was not asleep at it does not
      fall asleep over it: whatever it does next, it is on its way to take the mutex back. */
  lemma NotedBeforeStaysAwake(s: Cond, mv: Move, s': Cond, t: nat)
    requires Reachable(s) && Step(s, mv, s') && t < |s.pcs| && t < |s'.pcs|
    requires s.pcs[t].Give? || s.pcs[t].Test? || s.pcs[t].Doze?
    requires s.pcs[t].seen < s.number
    ensures !s'.pcs[t].Dormant? && (s'.pcs[t].Give? || s'.pcs[t].Test? || s'.pcs[t].Doze? ==> s'.pcs[t].seen < s'.number)
    ensures s'.pcs[t].Out? ==> s.pcs[t].Give? && s'.pcs[t] == Out(Mutex.NotOwner)
    ensures s.pcs[t].Test? && mv == Run(t) ==> s'.pcs[t].Retake? && s'.pcs[t].err == Mutex.Ok
  {
    ReachableInv(s);
    if t != mv.t {
      OthersSame(s, mv, s', t);
    } else {
      assert ThreadOk(s, t);
    }
  }

  /** A wait ends as late only where its deadline was found passed, and otherwise only once the sequence
      has moved on or, with no deadline, its sleep has ended. */
  lemma WaitEnds(s: Cond, mv: Move, s': Cond, t: nat)
    requires Reachable(s) && Step(s, mv, s') && t < |s.pcs| == |s'.pcs| && s'.pcs[t].Retake? && !s.pcs[t].Retake?
    ensures (s.pcs[t].Test? || s.pcs[t].Doze? || s.pcs[t].Dormant?) && s'.pcs[t].had == s.pcs[t].had
    ensures if mv == TooLate(t) then s'.pcs[t].err == Mutex.TimedOut && s.pcs[t].Doze? && s.pcs[t].timed
            else s'.pcs[t].err == Mutex.Ok && (s.pcs[t].Test? || !s.pcs[t].timed) && (s.number != s.pcs[t].seen || s.pcs[t].Dormant?)
  {
    ReachableInv(s);
    if t != mv.t { OthersSame(s, mv, s', t); }
  }

  /** The thread's steps by itself, up to `n` of them, while no other moves. */
  function Alone(s: Cond, t: nat, n: nat): (r: Cond)
    requires t < |s.pcs|
    ensures |r.pcs| == |s.pcs|
    decreases n
  {
    if n == 0 then s else Alone(Apply(s, Run(t)), t, n - 1)
  }

  lemma TwoAlone(s: Cond, t: nat)
    requires t < |s.pcs|
    ensures Alone(s, t, 2) == Advance(Advance(s, t), t)
  {
    assert Alone(s, t, 2) == Alone(Advance(s, t), t, 1);
  }

  /** A wait made now by a thread that has the mutex, and left alone, gives it up once and goes to sleep
      behind all that are asleep. */
  lemma WaitAlone(s: Cond, t: nat, timed: bool)
    requires Reachable(s) && t < |s.pcs| && s.pcs[t].Out? && s.holder == Some(t)
    ensures var r := Alone(Alone(Apply(s, Wait(t, timed)), t, 2), t, 2);
            && r.pcs[t] == Dormant(timed, s.depth, s.number) && r.asleep == s.asleep + [t] && r.number == s.number
            && Has(r, t) == s.depth - 1
  {
    ReachableInv(s);
    TwoAlone(Apply(s, Wait(t, timed)), t);
    TwoAlone(Alone(Apply(s, Wait(t, timed)), t, 2), t);
  }

  /** A signal or a broadcast left alone moves the sequence on and then wakes the one asleep longest, or
      everybody. */
  lemma WakersAlone(s: Cond, t: nat)
    requires Reachable(s) && t < |s.pcs| && s.pcs[t].Out?
    ensures var r := Alone(Apply(s, Broadcast(t)), t, 2);
            && r.number == s.number + 1 && r.asleep == [] && r.pcs[t] == Out(Mutex.Ok) && r.holder == s.holder && r.depth == s.depth
            && forall u :: 0 <= u < |s.pcs| && u != t ==> r.pcs[u] == Roused(s.pcs[u])
    ensures var r := Alone(Apply(s, Signal(t)), t, 2);
            && r.number == s.number + 1 && r.asleep == (if s.asleep == [] then [] else s.asleep[1..]) && r.holder == s.holder && r.depth == s.depth
            && r.pcs[t] == Out(Mutex.Ok)
            && forall u :: 0 <= u < |s.pcs| && u != t ==> r.pcs[u] == if s.asleep != [] && s.asleep[0] == u then Roused(s.pcs[u]) else s.pcs[u]
  {
    ReachableInv(s);
    TwoAlone(Apply(s, Broadcast(t)), t);
    TwoAlone(Apply(s, Signal(t)), t);
    assert ThreadOk(s, t);
  }

  /** What a sleep that ends leads to: a timed wait looks whether the sequence has moved, any other takes
      the mutex back. A deadline found passed ends the wait as late. A signal's number is the one it
      has given the sequence. */
  lemma SleepsEnd(s: Cond, t: nat)
    requires Reachable(s) && t < |s.pcs|
    ensures s.pcs[t].Dormant? ==>
              && Roused(s.pcs[t]) == (if s.pcs[t].timed then Test(true, s.pcs[t].had, s.pcs[t].seen) else Retake(Mutex.Ok, s.pcs[t].had))
              && Apply(s, Stir(t)).pcs == s.pcs[t := Roused(s.pcs[t])] && t !in Apply(s, Stir(t)).asleep
              && (forall u :: u in s.asleep && u != t ==> u in Apply(s, Stir(t)).asleep)
    ensures Enabled(s, TooLate(t)) ==> Apply(s, TooLate(t)) == To(s, t, Retake(Mutex.TimedOut, s.pcs[t].had))
    ensures s.pcs[t].Out? ==> Apply(s, WaitBad(t)) == To(s, t, Out(Mutex.Invalid))
    ensures s.pcs[t].Bump? ==> Advance(s, t).pcs[t] == Ring(s.pcs[t].all, Advance(s, t).number) && Advance(s, t).number == s.number + 1
  {
    ReachableInv(s);
    if s.pcs[t].Dormant? { Leaves(s, t); }
  }

  /** The mutex is as `Mutex` is: taken once more, from nobody or by its own holder, or given up once. */
  lemma MutexMoves(s: Cond, t: nat, u: nat)
    requires Reachable(s) && t < |s.pcs| && u < |s.pcs|
    ensures Enabled(s, LockIt(t)) ==> Has(Apply(s, LockIt(t)), u) == Has(s, u) + (if u == t then 1 else 0)
    ensures Enabled(s, UnlockIt(t)) ==> Has(s, t) > 0 && Has(Apply(s, UnlockIt(t)), u) == Has(s, u) - (if u == t then 1 else 0)
    ensures Apply(s, LockIt(t)) == s.(holder := Apply(s, LockIt(t)).holder, depth := Apply(s, LockIt(t)).depth)
    ensures Apply(s, UnlockIt(t)) == s.(holder := Apply(s, UnlockIt(t)).holder, depth := Apply(s, UnlockIt(t)).depth)
  {
    ReachableInv(s);
  }
}
