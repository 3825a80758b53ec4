/** The Darwin barrier: a count and a cycle under a mutex, and a condition to wait on. The mutex and
    the condition are the system's: a wait on the condition gives the mutex up and sleeps as one, may
    end for no reason, and takes the mutex back. */
module BarrierDarwin {
  import opened Runs
  import Barrier

  datatype Answer = Fresh | Zero | SerialThread

  datatype Pc =
    | Out(last: Answer)
    | Lock
    | Read                     // from here the thread has the mutex
    | Up(c: nat)               // one more arrived
    | Reset(c: nat)            // the last to arrive: nobody has, of the next round
    | Bump(c: nat)             // and move the cycle on
    | Cast(c: nat)             // wake those waiting
    | UnlockLast(c: nat)
    | Test(c: nat)             // has the cycle moved on?
    | Park(c: nat)             // give the mutex up and sleep
    | Asleep(c: nat)
    | Relock(c: nat)           // awake, about to take the mutex back
    | Unlock(c: nat)

  datatype Darwin = Darwin(count: nat, arrived: nat, cycle: nat, locked: Option<nat>, pcs: seq<Pc>)

  ghost predicate Initial(s: Darwin) {
    && s.count > 0 && s.arrived == 0 && s.cycle == 0 && s.locked == None
    && forall t :: 0 <= t < |s.pcs| ==> s.pcs[t] == Out(Fresh)
  }

  datatype Move = CallWait(t: nat) | Go(t: nat) | Rouse(t: nat)

  ghost predicate Enabled(s: Darwin, mv: Move) {
    && mv.t < |s.pcs|
    && var pc := s.pcs[mv.t];
       match mv
       case CallWait(_) => pc.Out?
       case Go(_) => !pc.Out? && !pc.Asleep? && (pc.Lock? || pc.Relock? ==> s.locked == None)
       case Rouse(_) => pc.Asleep?
  }

  function To(s: Darwin, t: nat, pc: Pc): Darwin
    requires t < |s.pcs|
  {
    s.(pcs := s.pcs[t := pc])
  }

  function Roused(pc: Pc): Pc {
    if pc.Asleep? then Relock(pc.c) else pc
  }

  function Advance(s: Darwin, t: nat): Darwin
    requires t < |s.pcs|
  {
    match s.pcs[t]
    case Lock => To(s, t, Read).(locked := Some(t))
    case Read => To(s, t, Up(s.cycle))
    case Up(c) => To(s, t, if s.arrived + 1 == s.count then Reset(c) else Test(c)).(arrived := s.arrived + 1)
    case Reset(c) => To(s, t, Bump(c)).(arrived := 0)
    case Bump(c) => To(s, t, Cast(c)).(cycle := s.cycle + 1)
    case Cast(c) => To(s.(pcs := Each(Roused, s.pcs)), t, UnlockLast(c))
    case UnlockLast(c) => To(s, t, Out(SerialThread)).(locked := None)
    case Test(c) => To(s, t, if c == s.cycle then Park(c) else Unlock(c))
    case Park(c) => To(s, t, Asleep(c)).(locked := None)
    case Relock(c) => To(s, t, Test(c)).(locked := Some(t))
    case Unlock(c) => To(s, t, Out(Zero)).(locked := None)
    case _ => s
  }

  function Apply(s: Darwin, mv: Move): Darwin
    requires mv.t < |s.pcs|
  {
    match mv
    case CallWait(t) => To(s, t, Lock)
    case Go(t) => Advance(s, t)
    case Rouse(t) => To(s, t, Roused(s.pcs[t]))
  }

  ghost predicate Step(s: Darwin, mv: Move, s': Darwin) {
    Enabled(s, mv) && s' == Apply(s, mv)
  }

  // ---------- the barrier it is ----------

  function PlaceOf(pc: Pc): Barrier.Place {
    match pc
    case Cast(c) => Barrier.Within(c, true)
    case UnlockLast(c) => Barrier.Within(c, true)
    case Test(c) => Barrier.Within(c, false)
    case Park(c) => Barrier.Within(c, false)
    case Asleep(c) => Barrier.Within(c, false)
    case Relock(c) => Barrier.Within(c, false)
    case Unlock(c) => Barrier.Within(c, false)
    case _ => Barrier.Outside
  }

  predicate Opening(s: Darwin) {
    s.locked.Some? && s.locked.value < |s.pcs| && (s.pcs[s.locked.value].Reset? || s.pcs[s.locked.value].Bump?)
  }

  function Abs(s: Darwin): Barrier.Barrier {
    Barrier.Barrier(s.count, s.cycle, if !Opening(s) then s.arrived else if s.count == 0 then 0 else s.count - 1,
      seq(|s.pcs|, t requires 0 <= t < |s.pcs| => PlaceOf(s.pcs[t])))
  }

  function EventOf(s: Darwin, mv: Move): Barrier.Event {
    if !mv.Go? || mv.t >= |s.pcs| then Barrier.Nothing else
    match s.pcs[mv.t]
    case Up(_) => if s.arrived + 1 == s.count then Barrier.Nothing else Barrier.Enter(mv.t)
    case Bump(_) => Barrier.Enter(mv.t)
    case UnlockLast(_) => Barrier.Leave(mv.t)
    case Unlock(_) => Barrier.Leave(mv.t)
    case _ => Barrier.Nothing
  }

  // ---------- the invariant ----------

  predicate HasLock(pc: Pc) {
    !pc.Out? && !pc.Lock? && !pc.Asleep? && !pc.Relock?
  }

  ghost predicate ThreadOk(s: Darwin, t: nat)
    requires t < |s.pcs|
  {
    && (HasLock(s.pcs[t]) <==> s.locked == Some(t))
    && match s.pcs[t]
       case Up(c) => c == s.cycle && s.arrived < s.count
       case Reset(c) => c == s.cycle && s.arrived == s.count
       case Bump(c) => c == s.cycle && s.arrived == 0
       case Cast(c) => c < s.cycle && s.arrived == 0
       case UnlockLast(c) => c < s.cycle
       case Park(c) => c == s.cycle
       case Test(c) => c <= s.cycle
       case Asleep(c) => c <= s.cycle
       case Relock(c) => c <= s.cycle
       case Unlock(c) => c < s.cycle
       case _ => true
  }

  /** A thread asleep is so for the round being filled, or about to be woken. */
  ghost predicate SleeperOk(s: Darwin, t: nat)
    requires t < |s.pcs|
  {
    s.pcs[t].Asleep? ==>
      s.pcs[t].c == s.cycle || (s.locked.Some? && s.locked.value < |s.pcs| && s.pcs[s.locked.value].Cast?)
  }

  ghost predicate WordsOk(s: Darwin) {
    && s.count > 0 && s.arrived <= s.count
    && (s.locked.Some? ==> s.locked.value < |s.pcs| && HasLock(s.pcs[s.locked.value]))
    && (s.arrived == s.count ==> s.locked.Some? && s.pcs[s.locked.value].Reset?)
  }

  ghost predicate Inv(s: Darwin) {
    && WordsOk(s)
    && (forall t :: 0 <= t < |s.pcs| ==> ThreadOk(s, t))
    && (forall t :: 0 <= t < |s.pcs| ==> SleeperOk(s, t))
  }

  lemma WordsKept(s: Darwin, mv: Move, s': Darwin)
    requires Inv(s) && Step(s, mv, s')
    ensures WordsOk(s') && |s'.pcs| == |s.pcs|
  {
    hide SleeperOk;
    assert ThreadOk(s, mv.t);
  }

  ghost predicate SameFor(s: Darwin, s': Darwin, t: nat)
    requires t < |s.pcs| == |s'.pcs|
  {
    && s'.count == s.count && s'.cycle >= s.cycle
    && (s'.pcs[t] == s.pcs[t] || s'.pcs[t] == Roused(s.pcs[t]))
    && (s'.locked == Some(t) <==> s.locked == Some(t))
    && (s.locked == Some(t) ==> s'.cycle == s.cycle && s'.arrived == s.arrived)
  }

  lemma OthersSame(s: Darwin, mv: Move, s': Darwin, t: nat)
    requires Inv(s) && Step(s, mv, s') && t < |s.pcs| == |s'.pcs| && t != mv.t
    ensures SameFor(s, s', t)
  {
    hide SleeperOk;
    assert ThreadOk(s, mv.t);
  }

  lemma OtherKept(s: Darwin, s': Darwin, t: nat)
    requires t < |s.pcs| == |s'.pcs| && ThreadOk(s, t) && SameFor(s, s', t)
    ensures ThreadOk(s', t)
  {
  }

  lemma MoverKept(s: Darwin, mv: Move, s': Darwin)
    requires Inv(s) && Step(s, mv, s') && |s'.pcs| == |s.pcs|
    ensures ThreadOk(s', mv.t)
  {
    hide SleeperOk;
    assert ThreadOk(s, mv.t);
  }

  lemma SleepersKept(s: Darwin, mv: Move, s': Darwin, t: nat)
    requires Inv(s) && Step(s, mv, s') && t < |s.pcs| == |s'.pcs|
    ensures SleeperOk(s', t)
  {
    assert SleeperOk(s, t) && ThreadOk(s, mv.t);
    if s.locked.Some? { assert ThreadOk(s, s.locked.value); }
  }

  lemma StepKeeps(s: Darwin, mv: Move, s': Darwin)
    requires Inv(s) && Step(s, mv, s')
    ensures Inv(s')
  {
    hide Step, WordsOk, SleeperOk;
    WordsKept(s, mv, s');
    forall t | 0 <= t < |s'.pcs| ensures ThreadOk(s', t) && SleeperOk(s', t) {
      SleepersKept(s, mv, s', t);
      if t == mv.t {
        MoverKept(s, mv, s');
      } else {
        assert ThreadOk(s, t);
        OthersSame(s, mv, s', t);
        OtherKept(s, s', t);
      }
    }
  }

  // ---------- refinement ----------

  lemma PlacesMove(s: Darwin, mv: Move, s': Darwin)
    requires Step(s, mv, s')
    ensures |s'.pcs| == |s.pcs| && Abs(s').places == Abs(s).places[mv.t := PlaceOf(s'.pcs[mv.t])]
  {
  }

  /** Each step of the code is an event of the barrier it is meant to be, or nothing to it. */
  lemma StepRefines(s: Darwin, mv: Move, s': Darwin)
    requires Inv(s) && Step(s, mv, s')
    ensures Barrier.Step(Abs(s), EventOf(s, mv), Abs(s'))
  {
    hide SleeperOk;
    assert ThreadOk(s, mv.t);
    PlacesMove(s, mv, s');
    assert Abs(s).places[mv.t] == PlaceOf(s.pcs[mv.t]);
    assert Abs(s).places[mv.t := Abs(s).places[mv.t]] == Abs(s).places;
  }

  /** Every run of the code is a run of the barrier: what is proved of that holds of this. */
  lemma RefinesBarrier(ss: seq<Darwin>, ms: seq<Move>)
    requires IsRun(Step, ss, ms) && Initial(ss[0])
    ensures IsRun(Barrier.Step, Each(Abs, ss), Told(EventOf, ss, ms)) && Barrier.Initial(Each(Abs, ss)[0])
    ensures forall i :: 0 <= i <= |ms| ==> Inv(ss[i])
  {
    assert Inv(ss[0]);
    forall s, mv, s' | Inv(s) && Step(s, mv, s') ensures Inv(s') && Barrier.Step(Abs(s), EventOf(s, mv), Abs(s')) {
      StepKeeps(s, mv, s');
      StepRefines(s, mv, s');
    }
    Simulates(Step, Barrier.Step, Inv, Abs, EventOf, ss, ms);
  }

  /** A wait returns where the barrier lets its thread leave, and answers whether it was the serial
      one. */
  lemma WaitAnswers(s: Darwin, mv: Move, s': Darwin)
    requires Step(s, mv, s') && |s'.pcs| == |s.pcs|
    ensures EventOf(s, mv).Leave? <==> !s.pcs[mv.t].Out? && s'.pcs[mv.t].Out?
    ensures EventOf(s, mv).Leave? ==>
              EventOf(s, mv).t == mv.t && s'.pcs[mv.t] == Out(if Abs(s).places[mv.t] == Barrier.Within(s.pcs[mv.t].c, true) then SerialThread else Zero)
  {
  }

  /** In any run, a wait that returns does so once all `count` threads have entered its round, one of
      them as the serial thread, and no other return of that round says it was the serial one. */
  lemma NobodyReturnsEarly(ss: seq<Darwin>, ms: seq<Move>, i: nat)
    requires IsRun(Step, ss, ms) && Initial(ss[0]) && i < |ms| && EventOf(ss[i], ms[i]).Leave?
    ensures var bs, es, r := Each(Abs, ss), Told(EventOf, ss, ms), PlaceOf(ss[i].pcs[ms[i].t]).round;
            && Barrier.Entered(bs, es, r, i) == ss[0].count && Barrier.Serial(bs, es, r, i) == 1
            && Barrier.SerialLeft(bs, es, r, i + 1) <= 1
  {
    hide Inv, Initial, IsRun, Barrier.Step, Barrier.Initial;
    RefinesBarrier(ss, ms);
    Barrier.NobodyLeavesEarly(Each(Abs, ss), Told(EventOf, ss, ms), i, ms[i].t);
  }

  /** Nobody sleeps on: a thread asleep at any point of a run is so for the round being filled, or the
      thread with the mutex is about to wake it. */
  lemma NobodyStranded(ss: seq<Darwin>, ms: seq<Move>, i: nat, t: nat)
    requires IsRun(Step, ss, ms) && Initial(ss[0]) && i < |ss| && t < |ss[i].pcs| && ss[i].pcs[t].Asleep?
    ensures ss[i].pcs[t].c == ss[i].cycle
            || (ss[i].locked.Some? && ss[i].locked.value < |ss[i].pcs| && ss[i].pcs[ss[i].locked.value].Cast?)
  {
    RefinesBarrier(ss, ms);
    assert SleeperOk(ss[i], t);
  }

  /** The thread's steps by itself, up to `n` of them, while no other moves. */
  function Alone(s: Darwin, t: nat, n: nat): (r: Darwin)
    requires t < |s.pcs|
    ensures |r.pcs| == |s.pcs|
    decreases n
  {
    if n == 0 then s else Alone(Apply(s, Go(t)), t, n - 1)
  }

  lemma ThreeAlone(s: Darwin, t: nat)
    requires t < |s.pcs|
    ensures Alone(s, t, 1) == Advance(s, t) && Alone(s, t, 2) == Advance(Advance(s, t), t)
    ensures Alone(s, t, 3) == Advance(Advance(Advance(s, t), t), t)
  {
    var b := Advance(s, t);
    var c := Advance(b, t);
    assert Alone(b, t, 1) == Alone(c, t, 0) && Alone(c, t, 1) == Alone(Advance(c, t), t, 0);
    assert Alone(s, t, 3) == Alone(b, t, 2) == Alone(c, t, 1);
  }

  /** With the mutex free a wait made now and left alone enters its round. */
  lemma WaitEnters(s: Darwin, t: nat)
    requires t < |s.pcs| && s.pcs[t].Out? && s.locked == None
    ensures var pc := if s.arrived + 1 == s.count then Reset(s.cycle) else Test(s.cycle);
            Alone(Apply(s, CallWait(t)), t, 3) == To(s, t, pc).(arrived := s.arrived + 1, locked := Some(t))
  {
    ThreeAlone(Apply(s, CallWait(t)), t);
  }

  /** There it falls asleep, having given the mutex up, or as the last of the round opens it, wakes all
      that sleep for it and returns. */
  lemma EnteredAlone(s: Darwin, t: nat)
    requires t < |s.pcs| && s.locked == Some(t)
    ensures s.pcs[t] == Test(s.cycle) ==> Alone(s, t, 2) == To(s, t, Asleep(s.cycle)).(locked := None)
    ensures s.pcs[t].Reset? ==>
              var r := Advance(Alone(s, t, 3), t);
              && r.pcs[t] == Out(SerialThread) && r.cycle == s.cycle + 1 && r.arrived == 0 && r.locked == None
              && forall u :: 0 <= u < |r.pcs| ==> !r.pcs[u].Asleep?
  {
    ThreeAlone(s, t);
  }

  /** And one whose round has opened, awake and left alone, returns. */
  lemma ReleasedReturns(s: Darwin, t: nat)
    requires t < |s.pcs| && s.pcs[t].Relock? && s.pcs[t].c != s.cycle && s.locked == None
    ensures Alone(s, t, 3) == To(s, t, Out(Zero))
  {
    ThreeAlone(s, t);
    assert s.(locked := None) == s;
  }

  /** While any thread is in a wait and not asleep, one of those can go on. */
  lemma SomeoneGoes(s: Darwin, t: nat)
    requires Inv(s) && t < |s.pcs| && !s.pcs[t].Out?
    ensures s.pcs[t].Asleep? ==> Apply(s, Rouse(t)) == To(s, t, Relock(s.pcs[t].c))
    ensures !s.pcs[t].Asleep? ==> exists u :: 0 <= u < |s.pcs| && !s.pcs[u].Out? && Enabled(s, Go(u))
  {
    if s.locked.Some? {
      assert ThreadOk(s, s.locked.value);
      assert Enabled(s, Go(s.locked.value));
    } else if !s.pcs[t].Asleep? {
      assert Enabled(s, Go(t));
    }
  }
}
