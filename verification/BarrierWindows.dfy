/** The Windows barrier: a lock, a countdown, a generation to sleep on and a count of the threads
    still inside, which a destroy waits for. Each step is one access, made with or without the lock. */
module BarrierWindows {
  import opened Runs
  import Barrier

  datatype Answer = Fresh | Zero | SerialThread | Busy | Destroyed

  /** `g` is the generation the thread read when it arrived, `w` the count a destroy read. */
  datatype Pc =
    | Out(last: Answer)
    | Lock                     // about to take the lock
    | Read                     // from here to `Unlock...` the thread has it
    | Down(g: nat)             // count down
    | Reset(g: nat)            // the last to arrive: start the count again
    | Bump(g: nat)             // and move the generation on
    | UnlockLast(g: nat)
    | WakeRound(g: nat)        // wake those asleep on the generation
    | CountIn(g: nat)          // one more inside
    | Unlock(g: nat)
    | Test(g: nat)             // has the generation moved on?
    | Doze(g: nat)             // sleep while it has not
    | Asleep(g: nat)
    | CountOut(g: nat)         // one less inside
    | WakeDestroy(g: nat)      // nobody inside: wake a destroy asleep on that
    | DLock
    | DRead                    // is a round part-way?
    | DUnlock(busy: bool)
    | DTest                    // is anybody inside?
    | DDoze(w: nat)
    | DAsleep(w: nat)

  /** `locked` is the thread that has the lock; `closer` the one that is destroying the
      barrier, or has. */
  datatype Win = Win(count: nat, remaining: int, generation: nat, waiters: int, locked: Option<nat>, pcs: seq<Pc>, closer: Option<nat>)

  ghost predicate Initial(s: Win) {
    && s.count > 0 && s.remaining == s.count && s.generation == 0 && s.waiters == 0 && s.locked == None && s.closer == None
    && forall t :: 0 <= t < |s.pcs| ==> s.pcs[t] == Out(Fresh)
  }

  datatype Move =
    | CallWait(t: nat)
    | CallDestroy(t: nat)
    | Go(t: nat)
    | Rouse(t: nat)

  /** A barrier is destroyed once, by a caller for whom every wait begun has arrived, and no wait
      begins after that; POSIX leaves anything else undefined. */
  ghost predicate Enabled(s: Win, mv: Move) {
    && mv.t < |s.pcs|
    && var pc := s.pcs[mv.t];
       match mv
       case CallWait(_) => pc.Out? && s.closer == None
       case CallDestroy(_) => pc.Out? && s.closer == None && forall u :: 0 <= u < |s.pcs| ==> s.pcs[u] != Lock
       case Go(_) => !pc.Out? && !pc.Asleep? && !pc.DAsleep? && (pc.Lock? || pc.DLock? ==> s.locked == None)
       case Rouse(_) => pc.Asleep? || pc.DAsleep?
  }

  function To(s: Win, t: nat, pc: Pc): Win
    requires t < |s.pcs|
  {
    s.(pcs := s.pcs[t := pc])
  }

  function Roused(pc: Pc): Pc {
    match pc
    case Asleep(g) => Test(g)
    case DAsleep(_) => DTest
    case _ => pc
  }

  /** A wake reaches those asleep on the one address it names. */
  function RouseAll(pcs: seq<Pc>, destroys: bool): (r: seq<Pc>)
    ensures |r| == |pcs|
    ensures forall t :: 0 <= t < |pcs| ==> r[t] == if (if destroys then pcs[t].DAsleep? else pcs[t].Asleep?) then Roused(pcs[t]) else pcs[t]
  {
    seq(|pcs|, t requires 0 <= t < |pcs| =>
      if (if destroys then pcs[t].DAsleep? else pcs[t].Asleep?) then Roused(pcs[t]) else pcs[t])
  }

  function Advance(s: Win, t: nat): Win
    requires t < |s.pcs|
  {
    match s.pcs[t]
    case Lock => To(s, t, Read).(locked := Some(t))
    case Read => To(s, t, Down(s.generation))
    case Down(g) => To(s, t, if s.remaining - 1 == 0 then Reset(g) else CountIn(g)).(remaining := s.remaining - 1)
    case Reset(g) => To(s, t, Bump(g)).(remaining := s.count)
    case Bump(g) => To(s, t, UnlockLast(g)).(generation := s.generation + 1)
    case UnlockLast(g) => To(s, t, WakeRound(g)).(locked := None)
    case WakeRound(g) => To(s.(pcs := RouseAll(s.pcs, false)), t, Out(SerialThread))
    case CountIn(g) => To(s, t, Unlock(g)).(waiters := s.waiters + 1)
    case Unlock(g) => To(s, t, Test(g)).(locked := None)
    case Test(g) => To(s, t, if s.generation == g then Doze(g) else CountOut(g))
    case Doze(g) => To(s, t, if s.generation == g then Asleep(g) else Test(g))
    case CountOut(g) => To(s, t, if s.waiters - 1 == 0 then WakeDestroy(g) else Out(Zero)).(waiters := s.waiters - 1)
    case WakeDestroy(g) => To(s.(pcs := RouseAll(s.pcs, true)), t, Out(Zero))
    case DLock => To(s, t, DRead).(locked := Some(t))
    case DRead => To(s, t, DUnlock(s.remaining != s.count))
    case DUnlock(busy) => To(s, t, if busy then Out(Busy) else DTest).(locked := None, closer := if busy then None else s.closer)
    case DTest => To(s, t, if s.waiters <= 0 then Out(Destroyed) else DDoze(s.waiters))
    case DDoze(w) => To(s, t, if s.waiters == w then DAsleep(w) else DTest)
    case _ => s
  }

  function Apply(s: Win, mv: Move): Win
    requires mv.t < |s.pcs|
  {
    match mv
    case CallWait(t) => To(s, t, Lock)
    case CallDestroy(t) => To(s, t, DLock).(closer := Some(t))
    case Go(t) => Advance(s, t)
    case Rouse(t) => To(s, t, Roused(s.pcs[t]))
  }

  ghost predicate Step(s: Win, mv: Move, s': Win) {
    Enabled(s, mv) && s' == Apply(s, mv)
  }

  // ---------- the barrier it is ----------

  function PlaceOf(pc: Pc): Barrier.Place {
    match pc
    case UnlockLast(g) => Barrier.Within(g, true)
    case WakeRound(g) => Barrier.Within(g, true)
    case CountIn(g) => Barrier.Within(g, false)
    case Unlock(g) => Barrier.Within(g, false)
    case Test(g) => Barrier.Within(g, false)
    case Doze(g) => Barrier.Within(g, false)
    case Asleep(g) => Barrier.Within(g, false)
    case CountOut(g) => Barrier.Within(g, false)
    case WakeDestroy(g) => Barrier.Within(g, false)
    case _ => Barrier.Outside
  }

  /** The last to arrive has not entered until it moves the generation on. */
  predicate Opening(s: Win) {
    s.locked.Some? && s.locked.value < |s.pcs| && (s.pcs[s.locked.value].Reset? || s.pcs[s.locked.value].Bump?)
  }

  function Abs(s: Win): Barrier.Barrier {
    Barrier.Barrier(s.count, s.generation,
      if Opening(s) then (if s.count == 0 then 0 else s.count - 1) else if s.remaining > s.count then 0 else s.count - s.remaining,
      seq(|s.pcs|, t requires 0 <= t < |s.pcs| => PlaceOf(s.pcs[t])))
  }

  function EventOf(s: Win, mv: Move): Barrier.Event {
    if !mv.Go? || mv.t >= |s.pcs| then Barrier.Nothing else
    match s.pcs[mv.t]
    case Down(_) => if s.remaining - 1 == 0 then Barrier.Nothing else Barrier.Enter(mv.t)
    case Bump(_) => Barrier.Enter(mv.t)
    case WakeRound(_) => Barrier.Leave(mv.t)
    case CountOut(_) => if s.waiters - 1 == 0 then Barrier.Nothing else Barrier.Leave(mv.t)
    case WakeDestroy(_) => Barrier.Leave(mv.t)
    case _ => Barrier.Nothing
  }

  // ---------- the invariant ----------

  predicate HasLock(pc: Pc) {
    pc.Read? || pc.Down? || pc.Reset? || pc.Bump? || pc.UnlockLast? || pc.CountIn? || pc.Unlock? || pc.DRead? || pc.DUnlock?
  }

  /** Counted among the waiters. */
  predicate Counted(pc: Pc) {
    pc.Unlock? || pc.Test? || pc.Doze? || pc.Asleep? || pc.CountOut?
  }

  ghost function Inside(pcs: seq<Pc>): set<nat> {
    set t | 0 <= t < |pcs| && Counted(pcs[t])
  }

  predicate Destroys(pc: Pc) {
    pc.DLock? || pc.DRead? || pc.DUnlock? || pc.DTest? || pc.DDoze? || pc.DAsleep? || pc == Out(Destroyed)
  }

  ghost predicate ThreadOk(s: Win, t: nat)
    requires t < |s.pcs|
  {
    && (HasLock(s.pcs[t]) <==> s.locked == Some(t))
    && (Destroys(s.pcs[t]) ==> s.closer == Some(t))
    && ClosingOk(s, t) && NumbersOk(s, t)
  }

  /** Where the thread is in the round it read. */
  ghost predicate NumbersOk(s: Win, t: nat)
    requires t < |s.pcs|
  {
    match s.pcs[t]
    case Down(g) => g == s.generation
    case Reset(g) => g == s.generation && s.remaining == 0
    case Bump(g) => g == s.generation && s.remaining == s.count
    case UnlockLast(g) => g < s.generation && s.remaining == s.count
    case WakeRound(g) => g < s.generation
    case CountIn(g) => g == s.generation
    case Unlock(g) => g == s.generation
    case Test(g) => g <= s.generation
    case Doze(g) => g <= s.generation
    case Asleep(g) => g <= s.generation
    case CountOut(g) => g < s.generation
    case WakeDestroy(g) => g < s.generation
    case DUnlock(busy) => !busy <==> s.remaining == s.count
    case DTest => s.remaining == s.count
    case DDoze(w) => w > 0 && s.remaining == s.count
    case DAsleep(w) => w > 0 && s.remaining == s.count
    case _ => true
  }

  /** What a destroy may count on of the other threads: none is on its way in once it has begun, once
      it has the lock all that are inside are counted, and when it is done nobody is. */
  ghost predicate ClosingOk(s: Win, t: nat)
    requires t < |s.pcs|
  {
    s.closer.Some? ==>
      && s.closer.value < |s.pcs| && Destroys(s.pcs[s.closer.value])
      && !s.pcs[t].Lock?
      && (!s.pcs[s.closer.value].DLock? && t != s.closer.value ==> !HasLock(s.pcs[t]))
      && (s.pcs[s.closer.value].Out? ==> !Counted(s.pcs[t]))
  }

  ghost predicate WordsOk(s: Win) {
    && s.count > 0 && 0 <= s.remaining <= s.count
    && (s.locked.Some? ==> s.locked.value < |s.pcs| && HasLock(s.pcs[s.locked.value]))
    && (s.remaining == 0 ==> s.locked.Some? && s.pcs[s.locked.value].Reset?)
    && s.waiters == |Inside(s.pcs)|
    && (s.closer.Some? ==> s.closer.value < |s.pcs|)
  }

  ghost predicate RoundWoken(s: Win) {
    exists u :: 0 <= u < |s.pcs| && (s.pcs[u].UnlockLast? || s.pcs[u].WakeRound?)
  }

  ghost predicate DestroyWoken(s: Win) {
    exists u :: 0 <= u < |s.pcs| && s.pcs[u].WakeDestroy?
  }

  /** A thread asleep is asleep for a reason, or about to be woken. */
  ghost predicate SleeperOk(s: Win, t: nat)
    requires t < |s.pcs|
  {
    && (s.pcs[t].Asleep? ==> s.pcs[t].g == s.generation || RoundWoken(s))
    && (s.pcs[t].DAsleep? ==> s.waiters != 0 || DestroyWoken(s))
  }

  ghost predicate Inv(s: Win) {
    && WordsOk(s)
    && (forall t :: 0 <= t < |s.pcs| ==> ThreadOk(s, t))
    && (forall t :: 0 <= t < |s.pcs| ==> SleeperOk(s, t))
  }

  lemma InitialOk(s: Win)
    requires Initial(s)
    ensures Inv(s) && Barrier.Initial(Abs(s))
  {
    assert Inside(s.pcs) == {};
  }

  /** Who is counted changes with the thread that steps, if at all. */
  lemma InsideKept(s: Win, mv: Move, s': Win)
    requires Step(s, mv, s')
    ensures |s'.pcs| == |s.pcs| && Inside(s'.pcs) - {mv.t} == Inside(s.pcs) - {mv.t}
    ensures mv.t in Inside(s.pcs) <==> Counted(s.pcs[mv.t])
    ensures mv.t in Inside(s'.pcs) <==> Counted(s'.pcs[mv.t])
  {
  }

  lemma {:induction false} OneMoves(a: set<nat>, b: set<nat>, x: nat)
    requires a - {x} == b - {x}
    ensures |b| + (if x in a then 1 else 0) == |a| + (if x in b then 1 else 0)
  {
    var rest := a - {x};
    assert a == if x in a then rest + {x} else rest;
    assert b == if x in b then rest + {x} else rest;
  }

  lemma CountsItself(s: Win, mv: Move, s': Win)
    requires Step(s, mv, s')
    ensures |s'.pcs| == |s.pcs|
    ensures s'.waiters + (if Counted(s.pcs[mv.t]) then 1 else 0) == s.waiters + (if Counted(s'.pcs[mv.t]) then 1 else 0)
  {
  }

  lemma WaitersKept(s: Win, mv: Move, s': Win)
    requires Step(s, mv, s') && s.waiters == |Inside(s.pcs)|
    ensures s'.waiters == |Inside(s'.pcs)|
  {
    hide Step, Inside, Counted;
    InsideKept(s, mv, s');
    OneMoves(Inside(s.pcs), Inside(s'.pcs), mv.t);
    CountsItself(s, mv, s');
  }

  lemma WordsKept(s: Win, mv: Move, s': Win)
    requires Inv(s) && Step(s, mv, s')
    ensures WordsOk(s') && |s'.pcs| == |s.pcs|
  {
    hide Inside, SleeperOk, ClosingOk, Advance;
    assert ThreadOk(s, mv.t);
    WaitersKept(s, mv, s');
    if mv.Go? { AdvanceWords(s, mv.t); }
  }

  lemma AdvanceWords(s: Win, t: nat)
    requires WordsOk(s) && t < |s.pcs| && PlaceOk(s, t)
    requires s.pcs[t].Lock? || s.pcs[t].DLock? ==> s.locked == None
    ensures var n := Advance(s, t);
            && |n.pcs| == |s.pcs| && n.count == s.count && 0 <= n.remaining <= n.count
            && (n.locked.Some? ==> n.locked.value < |n.pcs| && HasLock(n.pcs[n.locked.value]))
            && (n.remaining == 0 ==> n.locked.Some? && n.pcs[n.locked.value].Reset?)
            && (n.closer.Some? ==> n.closer.value < |n.pcs|)
  {
    hide Inside;
  }

  /** Only a thread with the lock moves the round on. */
  ghost predicate SameFor(s: Win, s': Win, t: nat)
    requires t < |s.pcs| == |s'.pcs|
  {
    && (s'.pcs[t] == s.pcs[t] || s'.pcs[t] == Roused(s.pcs[t]))
    && (s'.locked == Some(t) <==> s.locked == Some(t)) && s'.count == s.count
    && s'.generation >= s.generation
    && (s.locked == Some(t) ==> s'.generation == s.generation && s'.remaining == s.remaining)
    && (s.pcs[t].DTest? || s.pcs[t].DDoze? || s.pcs[t].DAsleep? ==> s'.remaining == s.remaining)
  }

  lemma OthersSame(s: Win, mv: Move, s': Win, t: nat)
    requires Inv(s) && Step(s, mv, s') && t < |s.pcs| == |s'.pcs| && t != mv.t
    ensures SameFor(s, s', t)
  {
    assert ThreadOk(s, mv.t) && ThreadOk(s, t);
    hide Inside, SleeperOk, Inv;
    assert s.pcs[t].DTest? || s.pcs[t].DDoze? || s.pcs[t].DAsleep? ==> !HasLock(s.pcs[mv.t]);
    hide ClosingOk, NumbersOk;
    if mv.Go? {
      OthersStand(s, mv.t, t);
      hide Advance;
    }
  }

  lemma OthersStand(s: Win, m: nat, t: nat)
    requires m < |s.pcs| && t < |s.pcs| && t != m
    ensures |Advance(s, m).pcs| == |s.pcs| && (Advance(s, m).pcs[t] == s.pcs[t] || Advance(s, m).pcs[t] == Roused(s.pcs[t]))
    ensures var r := Advance(s, m);
            && r.count == s.count && r.generation >= s.generation
            && (r.locked == s.locked || s.pcs[m].Lock? || s.pcs[m].DLock? || HasLock(s.pcs[m])) && (r.locked.Some? ==> r.locked == s.locked || r.locked == Some(m))
            && (!HasLock(s.pcs[m]) ==> r.generation == s.generation && r.remaining == s.remaining)
  {
  }

  /** All of `ThreadOk` but what a destroy counts on. */
  ghost predicate PlaceOk(s: Win, t: nat)
    requires t < |s.pcs|
  {
    (HasLock(s.pcs[t]) <==> s.locked == Some(t)) && (Destroys(s.pcs[t]) ==> s.closer == Some(t)) && NumbersOk(s, t)
  }

  lemma OtherKept(s: Win, s': Win, t: nat)
    requires t < |s.pcs| == |s'.pcs| && ThreadOk(s, t) && SameFor(s, s', t)
    requires Destroys(s.pcs[t]) ==> s'.closer == Some(t)
    ensures PlaceOk(s', t)
  {
    hide ClosingOk;
  }

  lemma MoverKept(s: Win, mv: Move, s': Win)
    requires Inv(s) && Step(s, mv, s') && |s'.pcs| == |s.pcs|
    ensures PlaceOk(s', mv.t)
  {
    hide Inside, SleeperOk, ClosingOk, Advance;
    assert ThreadOk(s, mv.t);
    if mv.Go? { AdvanceKeeps(s, mv.t); }
  }

  lemma AdvanceKeeps(s: Win, t: nat)
    requires t < |s.pcs| && PlaceOk(s, t) && s.count > 0
    requires s.pcs[t].Lock? || s.pcs[t].DLock? ==> s.locked == None
    ensures |Advance(s, t).pcs| == |s.pcs| && PlaceOk(Advance(s, t), t)
  {
    hide RouseAll;
  }

  lemma CloserStays(s: Win, mv: Move, s': Win, t: nat)
    requires Inv(s) && Step(s, mv, s') && t < |s.pcs| == |s'.pcs| && t != mv.t && Destroys(s.pcs[t])
    ensures s'.closer == Some(t) && Destroys(s'.pcs[t])
  {
    hide Inside, SleeperOk, ClosingOk;
    assert ThreadOk(s, mv.t) && ThreadOk(s, t);
  }

  lemma ClosingKept(s: Win, mv: Move, s': Win, t: nat)
    requires Inv(s) && Step(s, mv, s') && t < |s.pcs| == |s'.pcs|
    ensures ClosingOk(s', t)
  {
    assert ThreadOk(s, mv.t) && ThreadOk(s, t);
    if s.closer.Some? {
      assert ThreadOk(s, s.closer.value);
      if mv.t == s.closer.value { CloserMoves(s, t); } else { OthersClosed(s, mv, s', t); }
    }
  }

  /** A step of the thread that destroys the barrier. */
  lemma CloserMoves(s: Win, t: nat)
    requires WordsOk(s) && t < |s.pcs| && s.closer.Some? && ClosingOk(s, t)
    requires HasLock(s.pcs[t]) <==> s.locked == Some(t)
    requires s.pcs[s.closer.value].DLock? ==> s.locked == None
    ensures |Advance(s, s.closer.value).pcs| == |s.pcs| && ClosingOk(Advance(s, s.closer.value), t)
    ensures s.pcs[s.closer.value].DAsleep? ==> ClosingOk(To(s, s.closer.value, Roused(s.pcs[s.closer.value])), t)
  {
    NobodyCounted(s.pcs);
    hide Inside;
  }

  /** A step of any other thread: it cannot be on its way in. */
  lemma OthersClosed(s: Win, mv: Move, s': Win, t: nat)
    requires Inv(s) && Step(s, mv, s') && t < |s.pcs| == |s'.pcs| && s.closer.Some? && mv.t != s.closer.value
    requires ThreadOk(s, t) && ThreadOk(s, mv.t) && ThreadOk(s, s.closer.value)
    ensures ClosingOk(s', t)
  {
    hide Inside, SleeperOk, NumbersOk, Inv;
  }

  lemma NobodyCounted(pcs: seq<Pc>)
    ensures |Inside(pcs)| == 0 ==> forall t :: 0 <= t < |pcs| ==> !Counted(pcs[t])
  {
    if t :| 0 <= t < |pcs| && Counted(pcs[t]) { assert t in Inside(pcs); }
  }

  lemma SleepersKept(s: Win, mv: Move, s': Win, t: nat)
    requires Inv(s) && Step(s, mv, s') && t < |s.pcs| == |s'.pcs|
    ensures SleeperOk(s', t)
  {
    assert SleeperOk(s, t) && ThreadOk(s, mv.t) && ThreadOk(s, t);
    hide Inside, ClosingOk, Inv;
    if s'.pcs[t] == s.pcs[t] {
      if s.pcs[t].Asleep? {
        if RoundWoken(s) { RoundStillWoken(s, mv, s', t); } else { RoundMoves(s, mv, s', t); }
      } else if s.pcs[t].DAsleep? {
        if DestroyWoken(s) { DestroyStillWoken(s, mv, s', t); } else { LastOutWakes(s, mv, s', t); }
      }
    } else if t != mv.t {
      OthersSame(s, mv, s', t);
    }
  }

  lemma RoundStillWoken(s: Win, mv: Move, s': Win, t: nat)
    requires Step(s, mv, s') && RoundWoken(s) && t < |s.pcs| == |s'.pcs| && s.pcs[t].Asleep? && s'.pcs[t] == s.pcs[t]
    ensures RoundWoken(s')
  {
    var u :| 0 <= u < |s.pcs| && (s.pcs[u].UnlockLast? || s.pcs[u].WakeRound?);
    assert s'.pcs[u].UnlockLast? || s'.pcs[u].WakeRound?;
  }

  lemma RoundMoves(s: Win, mv: Move, s': Win, t: nat)
    requires Step(s, mv, s') && t < |s.pcs| == |s'.pcs| && s.pcs[t].Asleep? && s.pcs[t].g == s.generation
    ensures s.pcs[t].g == s'.generation || RoundWoken(s')
  {
    if s'.generation != s.generation { assert s'.pcs[mv.t].UnlockLast?; }
  }

  lemma DestroyStillWoken(s: Win, mv: Move, s': Win, t: nat)
    requires Step(s, mv, s') && DestroyWoken(s) && t < |s.pcs| == |s'.pcs| && s.pcs[t].DAsleep? && s'.pcs[t] == s.pcs[t]
    ensures DestroyWoken(s')
  {
    var u :| 0 <= u < |s.pcs| && s.pcs[u].WakeDestroy?;
    assert s'.pcs[u].WakeDestroy?;
  }

  lemma LastOutWakes(s: Win, mv: Move, s': Win, t: nat)
    requires Step(s, mv, s') && t < |s.pcs| == |s'.pcs| && s.pcs[t].DAsleep? && s.waiters != 0
    requires s.waiters == |Inside(s.pcs)|
    ensures s'.waiters != 0 || DestroyWoken(s')
  {
    hide Inside;
    if s'.waiters == 0 { assert s'.pcs[mv.t].WakeDestroy?; }
  }

  lemma StepKeeps(s: Win, mv: Move, s': Win)
    requires Inv(s) && Step(s, mv, s')
    ensures Inv(s')
  {
    hide Step, WordsOk, SleeperOk, ClosingOk;
    WordsKept(s, mv, s');
    forall t | 0 <= t < |s'.pcs| ensures ThreadOk(s', t) && SleeperOk(s', t) {
      ClosingKept(s, mv, s', t);
      SleepersKept(s, mv, s', t);
      if t == mv.t {
        MoverKept(s, mv, s');
      } else {
        assert ThreadOk(s, t);
        OthersSame(s, mv, s', t);
        if Destroys(s.pcs[t]) { CloserStays(s, mv, s', t); }
        OtherKept(s, s', t);
      }
    }
  }

  // ---------- refinement ----------

  /** What the thread that steps does is the barrier's event, and no other thread's place changes. */
  lemma PlacesMove(s: Win, mv: Move, s': Win)
    requires Step(s, mv, s')
    ensures |s'.pcs| == |s.pcs| && Abs(s').places == Abs(s).places[mv.t := PlaceOf(s'.pcs[mv.t])]
  {
  }

  /** The round and how far it is filled, by an event of thread `t` or none. */
  ghost predicate Fills(a: Barrier.Barrier, e: Barrier.Event, b: Barrier.Barrier) {
    && b.count == a.count
    && if e.Enter? && Barrier.Last(a) then b.round == a.round + 1 && b.arrived == 0
       else b.round == a.round && b.arrived == if e.Enter? then a.arrived + 1 else a.arrived
  }

  lemma RoundRefines(s: Win, mv: Move, s': Win)
    requires Inv(s) && Step(s, mv, s')
    ensures Fills(Abs(s), EventOf(s, mv), Abs(s'))
  {
    hide Inside, SleeperOk, ClosingOk, Advance;
    assert ThreadOk(s, mv.t);
    if mv.Go? {
      hide EventOf;
      AdvanceRound(s, mv.t);
    }
  }

  lemma AdvanceRound(s: Win, t: nat)
    requires WordsOk(s) && t < |s.pcs| && PlaceOk(s, t)
    requires s.pcs[t].Lock? || s.pcs[t].DLock? ==> s.locked == None
    ensures Fills(Abs(s), EventOf(s, Go(t)), Abs(Advance(s, t)))
  {
    hide Inside;
  }

  lemma PlaceRefines(s: Win, mv: Move, s': Win)
    requires Step(s, mv, s') && PlaceOk(s, mv.t) && WordsOk(s)
    ensures |s'.pcs| == |s.pcs|
    ensures match EventOf(s, mv)
            case Nothing => PlaceOf(s'.pcs[mv.t]) == PlaceOf(s.pcs[mv.t])
            case Enter(t) => t == mv.t && PlaceOf(s.pcs[t]).Outside? && PlaceOf(s'.pcs[t]) == Barrier.Within(s.generation, Barrier.Last(Abs(s)))
            case Leave(t) => t == mv.t && PlaceOf(s.pcs[t]).Within? && PlaceOf(s.pcs[t]).round < s.generation && PlaceOf(s'.pcs[t]).Outside?
  {
    hide Inside;
  }

  /** Each step of the code is an event of the barrier it is meant to be, or nothing to it. */
  lemma StepRefines(s: Win, mv: Move, s': Win)
    requires Inv(s) && Step(s, mv, s')
    ensures Barrier.Step(Abs(s), EventOf(s, mv), Abs(s'))
  {
    assert mv.t < |s.pcs| && ThreadOk(s, mv.t);
    assert WordsOk(s) && PlaceOk(s, mv.t);
    hide Inv, Step, EventOf;
    RoundRefines(s, mv, s');
    PlaceRefines(s, mv, s');
    PlacesMove(s, mv, s');
    hide Opening;
    assert Abs(s).places[mv.t] == PlaceOf(s.pcs[mv.t]);
    assert Abs(s).places[mv.t := Abs(s).places[mv.t]] == Abs(s).places;
  }

  // ---------- what follows ----------

  ghost predicate Reachable(s: Win) {
    exists a: Win :: Initial(a) && Reaches(Step, a, s)
  }

  /** It also is one where the round being filled holds exactly those who entered it. */
  ghost predicate Full(s: Win) {
    && Inv(s) && |Barrier.In(Abs(s), s.generation)| == Abs(s).arrived
    && forall t :: 0 <= t < |s.pcs| && PlaceOf(s.pcs[t]).Within? ==> PlaceOf(s.pcs[t]).round <= s.generation
  }

  lemma FullKept(s: Win, mv: Move, s': Win)
    requires Full(s) && Step(s, mv, s')
    ensures Full(s')
  {
    hide Inv, Step;
    StepKeeps(s, mv, s');
    StepRefines(s, mv, s');
    var a, b := Abs(s), Abs(s');
    hide Abs;
    PlacesOf(s);
    PlacesOf(s');
    Barrier.NobodyLeft(a, EventOf(s, mv), b);
  }

  lemma PlacesOf(s: Win)
    ensures Abs(s).round == s.generation && |Abs(s).places| == |s.pcs|
    ensures forall t :: 0 <= t < |s.pcs| ==> Abs(s).places[t] == PlaceOf(s.pcs[t])
  {
  }

  lemma ReachableFull(s: Win)
    requires Reachable(s)
    ensures Full(s)
  {
    var a: Win :| Initial(a) && Reaches(Step, a, s);
    InitialOk(a);
    assert Barrier.In(Abs(a), 0) == {};
    forall x, mv, y | Full(x) && Step(x, mv, y) ensures Full(y) {
      FullKept(x, mv, y);
    }
    Kept(Step, Full, a, s);
  }

  /** Every run of the code is a run of the barrier: what is proved of that holds of this. */
  lemma RefinesBarrier(ss: seq<Win>, ms: seq<Move>)
    requires IsRun(Step, ss, ms) && Initial(ss[0])
    ensures IsRun(Barrier.Step, Each(Abs, ss), Told(EventOf, ss, ms)) && Barrier.Initial(Each(Abs, ss)[0])
  {
    InitialOk(ss[0]);
    forall s, mv, s' | Inv(s) && Step(s, mv, s') ensures Inv(s') && Barrier.Step(Abs(s), EventOf(s, mv), Abs(s')) {
      StepKeeps(s, mv, s');
      StepRefines(s, mv, s');
    }
    Simulates(Step, Barrier.Step, Inv, Abs, EventOf, ss, ms);
  }

  /** A wait returns where the barrier lets its thread leave, and answers whether it was the serial
      one. */
  lemma WaitAnswers(s: Win, mv: Move, s': Win)
    requires Step(s, mv, s') && |s'.pcs| == |s.pcs|
    ensures EventOf(s, mv).Leave? <==> !s.pcs[mv.t].Out? && (s'.pcs[mv.t] == Out(Zero) || s'.pcs[mv.t] == Out(SerialThread))
    ensures EventOf(s, mv).Leave? ==>
              EventOf(s, mv).t == mv.t && s'.pcs[mv.t] == Out(if Abs(s).places[mv.t] == Barrier.Within(s.pcs[mv.t].g, true) then SerialThread else Zero)
  {
  }

  /** In any run, a wait that returns does so once all `count` threads have entered its round, one of
      them as the serial thread, and no other return of that round says it was the serial one. */
  lemma NobodyReturnsEarly(ss: seq<Win>, ms: seq<Move>, i: nat)
    requires IsRun(Step, ss, ms) && Initial(ss[0]) && i < |ms| && EventOf(ss[i], ms[i]).Leave?
    ensures var bs, es, r := Each(Abs, ss), Told(EventOf, ss, ms), PlaceOf(ss[i].pcs[ms[i].t]).round;
            && Barrier.Entered(bs, es, r, i) == ss[0].count && Barrier.Serial(bs, es, r, i) == 1
            && Barrier.SerialLeft(bs, es, r, i + 1) <= 1
  {
    hide Inv, Initial, IsRun, Barrier.Step, Barrier.Initial;
    RefinesBarrier(ss, ms);
    Barrier.NobodyLeavesEarly(Each(Abs, ss), Told(EventOf, ss, ms), i, ms[i].t);
  }

  /** The thread's next step reads or writes the barrier; a wake only needs its address. */
  predicate Touches(pc: Pc) {
    !pc.Out? && !pc.WakeRound? && !pc.WakeDestroy?
  }

  /** When a destroy has returned success no thread touches the barrier again. */
  lemma DestroyedUntouched(s: Win, d: nat, t: nat)
    requires Reachable(s) && d < |s.pcs| && s.pcs[d] == Out(Destroyed) && t < |s.pcs|
    ensures !Touches(s.pcs[t])
    ensures forall mv :: Enabled(s, mv) ==> mv.Go? && !Touches(s.pcs[mv.t])
  {
    ReachableFull(s);
    hide Inside, SleeperOk, NumbersOk;
    assert ThreadOk(s, d);
    forall u | 0 <= u < |s.pcs| ensures !Touches(s.pcs[u]) {
      assert ThreadOk(s, u);
    }
  }

  /** And while it waits for the threads inside, it waits only for ones whose round has opened. */
  lemma DestroyWaitsForReleased(s: Win, d: nat, t: nat)
    requires Reachable(s) && d < |s.pcs| && (s.pcs[d].DTest? || s.pcs[d].DDoze? || s.pcs[d].DAsleep?)
    requires t < |s.pcs| && PlaceOf(s.pcs[t]).Within?
    ensures PlaceOf(s.pcs[t]).round < s.generation
  {
    ReachableFull(s);
    hide Inside, SleeperOk;
    assert ThreadOk(s, d) && ThreadOk(s, t);
    forall u | 0 <= u < |s.pcs| ensures !HasLock(s.pcs[u]) {
      assert ThreadOk(s, u);
    }
    var now := Barrier.In(Abs(s), s.generation);
    assert Abs(s).arrived == 0;
    assert t !in now;
  }

  /** Nobody sleeps on: a thread asleep in a wait is so for the round being filled, and a destroy for
      somebody inside, or else is about to be woken. */
  lemma NobodyStranded(s: Win, t: nat)
    requires Reachable(s) && t < |s.pcs|
    ensures s.pcs[t].Asleep? ==> s.pcs[t].g == s.generation || RoundWoken(s)
    ensures s.pcs[t].DAsleep? ==> DestroyWoken(s) || exists u :: 0 <= u < |s.pcs| && Counted(s.pcs[u])
  {
    ReachableFull(s);
    assert SleeperOk(s, t);
    if s.waiters != 0 {
      var u :| u in Inside(s.pcs);
    }
  }

  /** A destroy is told that the barrier is busy exactly where some thread has entered the round being
      filled. */
  lemma BusyExact(s: Win, d: nat)
    requires Reachable(s) && d < |s.pcs| && s.pcs[d].DUnlock?
    ensures Advance(s, d).pcs[d] == Out(Busy) <==> exists u :: 0 <= u < |s.pcs| && PlaceOf(s.pcs[u]).Within? && PlaceOf(s.pcs[u]).round == s.generation
    ensures Advance(s, d).pcs[d] == (if s.pcs[d].busy then Out(Busy) else DTest) && Advance(s, d).locked == None
  {
    ReachableFull(s);
    assert ThreadOk(s, d);
    hide Inside, SleeperOk, ClosingOk;
    var now := Barrier.In(Abs(s), s.generation);
    PlacesOf(s);
    assert !Opening(s);
    assert Abs(s).arrived == s.count - s.remaining;
    if now != {} {
      var u :| u in now;
      assert Abs(s).places[u] == PlaceOf(s.pcs[u]);
    }
    forall u | 0 <= u < |s.pcs| && PlaceOf(s.pcs[u]).Within? && PlaceOf(s.pcs[u]).round == s.generation ensures now != {} {
      assert u in now;
    }
  }

  /** The thread's steps by itself, up to `n` of them, while no other moves. */
  function Alone(s: Win, t: nat, n: nat): (r: Win)
    requires t < |s.pcs|
    ensures |r.pcs| == |s.pcs|
    decreases n
  {
    if n == 0 then s else Alone(Apply(s, Go(t)), t, n - 1)
  }

  lemma ThreeAlone(s: Win, t: nat)
    requires t < |s.pcs|
    ensures Alone(s, t, 1) == Advance(s, t) && Alone(s, t, 2) == Advance(Advance(s, t), t)
    ensures Alone(s, t, 3) == Advance(Advance(Advance(s, t), t), t)
  {
    var b := Advance(s, t);
    var c := Advance(b, t);
    assert Alone(b, t, 1) == Alone(c, t, 0) && Alone(c, t, 1) == Alone(Advance(c, t), t, 0);
    assert Alone(s, t, 3) == Alone(b, t, 2) == Alone(c, t, 1);
  }

  lemma {:induction false} AloneOn(s: Win, t: nat, m: nat, n: nat)
    requires t < |s.pcs|
    ensures Alone(s, t, m + n) == Alone(Alone(s, t, m), t, n)
    decreases m
  {
    if m > 0 { AloneOn(Advance(s, t), t, m - 1, n); }
  }

  /** With the lock free a wait made now and left alone is the last of its round, and then opens it and
      wakes all that sleep for it, or falls asleep, counted in, with one less to come. */
  lemma WaitAlone(s: Win, t: nat)
    requires Reachable(s) && t < |s.pcs| && s.pcs[t].Out? && s.locked == None
    ensures var r := Alone(Apply(s, CallWait(t)), t, 7);
            if s.remaining == 1 then
              && r.pcs[t] == Out(SerialThread) && r.generation == s.generation + 1 && r.remaining == s.count && r.waiters == s.waiters
              && r.locked == None && forall u :: 0 <= u < |r.pcs| ==> !r.pcs[u].Asleep?
            else r == To(s, t, Asleep(s.generation)).(remaining := s.remaining - 1, waiters := s.waiters + 1)
  {
    ReachableFull(s);
    WaitEnters(s, t);
    AloneOn(Apply(s, CallWait(t)), t, 3, 4);
    AloneOn(Alone(Apply(s, CallWait(t)), t, 3), t, 3, 1);
    if s.remaining == 1 {
      var a := To(s, t, Reset(s.generation)).(remaining := 0, locked := Some(t));
      LastOpens(a, t);
    } else {
      var a := To(s, t, CountIn(s.generation)).(remaining := s.remaining - 1, locked := Some(t));
      OtherDozes(a, t);
      assert s.(locked := None) == s;
    }
  }

  lemma WaitEnters(s: Win, t: nat)
    requires t < |s.pcs| && s.locked == None
    ensures var pc := if s.remaining == 1 then Reset(s.generation) else CountIn(s.generation);
            Alone(Apply(s, CallWait(t)), t, 3) == To(s, t, pc).(remaining := s.remaining - 1, locked := Some(t))
  {
    ThreeAlone(Apply(s, CallWait(t)), t);
  }

  lemma LastOpens(a: Win, t: nat)
    requires t < |a.pcs| && a.pcs[t].Reset?
    ensures var r := Alone(Alone(a, t, 3), t, 1);
            && r.pcs[t] == Out(SerialThread) && r.generation == a.generation + 1 && r.remaining == a.count && r.waiters == a.waiters
            && r.locked == None && forall u :: 0 <= u < |r.pcs| ==> !r.pcs[u].Asleep?
  {
    ThreeAlone(a, t);
    ThreeAlone(Alone(a, t, 3), t);
  }

  lemma OtherDozes(a: Win, t: nat)
    requires t < |a.pcs| && a.pcs[t] == CountIn(a.generation)
    ensures Alone(Alone(a, t, 3), t, 1) == To(a, t, Asleep(a.generation)).(waiters := a.waiters + 1, locked := None)
  {
    ThreeAlone(a, t);
    ThreeAlone(Alone(a, t, 3), t);
  }

  /** And one whose round has opened, left alone, returns, the last of all inside waking a destroy. */
  lemma ReleasedReturns(s: Win, t: nat)
    requires Reachable(s) && t < |s.pcs| && (s.pcs[t].Test? || s.pcs[t].Doze? || s.pcs[t].Asleep?) && s.pcs[t].g < s.generation
    ensures var a := if s.pcs[t].Asleep? then Apply(s, Rouse(t)) else if s.pcs[t].Doze? then Advance(s, t) else s;
            var r := Alone(a, t, 3);
            && r.pcs[t] == Out(Zero) && r.waiters == s.waiters - 1
            && (r.waiters == 0 ==> forall u :: 0 <= u < |r.pcs| ==> !r.pcs[u].DAsleep?)
  {
    ReachableFull(s);
    var a := if s.pcs[t].Asleep? then Apply(s, Rouse(t)) else if s.pcs[t].Doze? then Advance(s, t) else s;
    assert a == To(s, t, Test(s.pcs[t].g));
    hide Reachable, Full;
    TestReturns(a, t);
  }

  lemma TestReturns(a: Win, t: nat)
    requires t < |a.pcs| && a.pcs[t].Test? && a.pcs[t].g != a.generation
    ensures var r := Alone(a, t, 3);
            && r.pcs[t] == Out(Zero) && r.waiters == a.waiters - 1
            && (r.waiters == 0 ==> forall u :: 0 <= u < |r.pcs| ==> !r.pcs[u].DAsleep?)
  {
    ThreeAlone(a, t);
  }

  /** A destroy made with nobody in a wait, and left alone, is done. */
  lemma DestroyAlone(s: Win, t: nat)
    requires Reachable(s) && t < |s.pcs| && Enabled(s, CallDestroy(t)) && s.locked == None
    requires forall u :: 0 <= u < |s.pcs| ==> !Counted(s.pcs[u])
    ensures Alone(Alone(Apply(s, CallDestroy(t)), t, 3), t, 1).pcs[t] == Out(Destroyed)
  {
    ReachableFull(s);
    NobodyComes(s);
    DestroyRuns(s, t);
  }

  lemma NobodyComes(s: Win)
    requires Full(s) && s.locked == None && forall u :: 0 <= u < |s.pcs| ==> !Counted(s.pcs[u])
    ensures s.waiters == 0 && s.remaining == s.count
  {
    assert Inside(s.pcs) == {};
    PlacesOf(s);
    hide SleeperOk, ClosingOk;
    forall u ensures u !in Barrier.In(Abs(s), s.generation) {
      if 0 <= u < |s.pcs| { assert ThreadOk(s, u); }
    }
    assert Barrier.In(Abs(s), s.generation) == {};
  }

  lemma DestroyRuns(s: Win, t: nat)
    requires t < |s.pcs| && s.waiters == 0 && s.remaining == s.count
    ensures Alone(Alone(Apply(s, CallDestroy(t)), t, 3), t, 1).pcs[t] == Out(Destroyed)
  {
    ThreeAlone(Apply(s, CallDestroy(t)), t);
    ThreeAlone(Alone(Apply(s, CallDestroy(t)), t, 3), t);
  }

  /** While any thread is in a call and not asleep, one of those can go on. */
  lemma SomeoneGoes(s: Win, t: nat)
    requires Reachable(s) && t < |s.pcs| && !s.pcs[t].Out?
    ensures (s.pcs[t].Asleep? || s.pcs[t].DAsleep? ==> Apply(s, Rouse(t)) == To(s, t, if s.pcs[t].Asleep? then Test(s.pcs[t].g) else DTest))
    ensures !s.pcs[t].Asleep? && !s.pcs[t].DAsleep? ==>
              exists u :: 0 <= u < |s.pcs| && !s.pcs[u].Out? && Enabled(s, Go(u))
  {
    ReachableFull(s);
    if s.locked.Some? {
      assert ThreadOk(s, s.locked.value);
      assert Enabled(s, Go(s.locked.value));
    } else if !s.pcs[t].Asleep? && !s.pcs[t].DAsleep? {
      assert Enabled(s, Go(t));
    }
  }

  /** A destroy sleeps while anybody is inside, and is through at the look that finds nobody. */
  lemma DestroyWaits(s: Win, t: nat)
    requires Reachable(s) && t < |s.pcs| && s.pcs[t] == DTest
    ensures s.waiters >= 0
    ensures if s.waiters == 0 then Advance(s, t) == To(s, t, Out(Destroyed)) else Alone(s, t, 2) == To(s, t, DAsleep(s.waiters))
    ensures s.waiters == 0 <==> forall u :: 0 <= u < |s.pcs| ==> !Counted(s.pcs[u])
  {
    ReachableFull(s);
    ThreeAlone(s, t);
    if s.waiters == 0 {
      forall u | 0 <= u < |s.pcs| ensures !Counted(s.pcs[u]) {
        assert u !in Inside(s.pcs);
      }
    } else {
      var u :| u in Inside(s.pcs);
    }
  }
}
