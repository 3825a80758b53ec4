/** The futex-style mutex: threads as program counters, each step one atomic access of the mutex or
    of the wait queue the system keeps for its address. A sleep may end at any time, by its timeout
    or for no reason. */
module Mutex {
  import opened Runs

  const UINT_MAX: nat := 0xFFFF_FFFF

  datatype Kind = Normal | ErrorCheck | Recursive

  /** What is asked of the mutex. */
  datatype Call = Lock(timed: bool) | Trylock | Unlock

  datatype Answer = Nothing | Ok | Invalid | Deadlock | Again | Busy | TimedOut | NotOwner

  /** What a thread does next. `Out` is outside the mutex, with what its last call answered. */
  datatype Pc =
    | Out(last: Answer)
    | LockRead(timed: bool)    // compare the owner with itself
    | TryRead
    | Bump                     // take it once more
    | Cas(timed: bool)         // compare-and-exchange 0 to 1
    | TryCas
    | Swap(timed: bool)        // exchange in 2
    | Look(timed: bool)        // check the deadline and go to sleep on 2
    | Asleep(timed: bool)
    | Own                      // write the owner
    | Count                    // write the count
    | UnlockRead
    | Drop                     // count down
    | Clear                    // write the owner away
    | Free                     // exchange in 0
    | Wake                     // wake one sleeper

  /** `holder` is the thread that took the lock and has not given it up, `depth` how many times each
      thread has taken it and not yet given it up, and `calls` each thread's latest call with the depth
      it had at it; they only serve to state properties. */
  datatype Mutex = Mutex(
    kind: Kind, state: nat, owner: nat, count: nat, pcs: seq<Pc>, holder: Option<nat>, depth: seq<nat>,
    calls: seq<(Call, nat)>)

  function Id(t: nat): nat {
    t + 1
  }

  ghost predicate Initial(s: Mutex) {
    && s.state == 0 && s.owner == 0 && s.count == 0 && s.holder == None && |s.depth| == |s.pcs| == |s.calls|
    && forall t :: 0 <= t < |s.pcs| ==> s.pcs[t] == Out(Nothing) && s.depth[t] == 0
  }

  /** The next step of `Go` is the thread's one access in its program; the others are calls, a
      deadline found passed, the end of a sleep, and the wake of one sleeper or of nobody. */
  datatype Move =
    | CallLock(t: nat, timed: bool)
    | CallBad(t: nat)          // a timed lock with no such clock, or no such time
    | CallTry(t: nat)
    | CallUnlock(t: nat)
    | Go(t: nat)
    | Late(t: nat)
    | Rouse(t: nat)
    | WakeOne(t: nat, w: Option<nat>)

  ghost predicate Sleeps(s: Mutex, t: nat) {
    t < |s.pcs| && s.pcs[t].Asleep?
  }

  /** Unlocking a normal mutex that one does not hold is not checked, and not done here. */
  ghost predicate Enabled(s: Mutex, mv: Move) {
    && |s.depth| == |s.pcs| == |s.calls| && mv.t < |s.pcs|
    && var pc := s.pcs[mv.t];
       match mv
       case CallLock(_, _) => pc.Out?
       case CallBad(_) => pc.Out?
       case CallTry(_) => pc.Out?
       case CallUnlock(t) => pc.Out? && (s.kind.Normal? ==> s.depth[t] > 0)
       case Go(_) => !pc.Out? && !pc.Asleep? && !pc.Wake?
       case Late(_) => pc == Look(true)
       case Rouse(_) => pc.Asleep?
       case WakeOne(_, w) => pc.Wake? && if w.Some? then Sleeps(s, w.value) else forall u :: !Sleeps(s, u)
  }

  function To(s: Mutex, t: nat, pc: Pc): Mutex
    requires t < |s.pcs|
  {
    s.(pcs := s.pcs[t := pc])
  }

  function Taken(s: Mutex, t: nat, state: nat): Mutex
    requires t < |s.pcs|
  {
    To(s, t, Own).(state := state, holder := Some(t))
  }

  function Advance(s: Mutex, t: nat): Mutex
    requires t < |s.pcs| == |s.depth|
  {
    match s.pcs[t]
    case LockRead(timed) =>
      if s.kind.Normal? || s.owner != Id(t) then To(s, t, Cas(timed))
      else if s.kind.ErrorCheck? then To(s, t, Out(Deadlock))
      else To(s, t, Bump)
    case TryRead => To(s, t, if s.owner == Id(t) then Bump else TryCas)
    case Bump =>
      if s.count == UINT_MAX then To(s, t, Out(Again))
      else To(s, t, Out(Ok)).(count := s.count + 1, depth := s.depth[t := s.depth[t] + 1])
    case Cas(timed) => if s.state == 0 then Taken(s, t, 1) else To(s, t, Swap(timed))
    case TryCas => if s.state == 0 then Taken(s, t, 1) else To(s, t, Out(Busy))
    case Swap(timed) => if s.state == 0 then Taken(s, t, 2) else To(s, t, Look(timed)).(state := 2)
    case Look(timed) => To(s, t, if s.state == 2 then Asleep(timed) else Swap(timed))
    case Own => To(s, t, Count).(owner := Id(t))
    case Count => To(s, t, Out(Ok)).(count := 1, depth := s.depth[t := 1])
    case UnlockRead =>
      To(s, t, if s.owner != Id(t) then Out(NotOwner) else if s.kind.Recursive? then Drop else Clear)
    case Drop =>
      var left := if s.count == 0 then UINT_MAX else s.count - 1;
      if left != 0 then To(s, t, Out(Ok)).(count := left, depth := s.depth[t := if s.depth[t] == 0 then 0 else s.depth[t] - 1])
      else To(s, t, Clear).(count := left)
    case Clear => To(s, t, Free).(owner := 0)
    case Free =>
      To(s, t, if s.state == 2 then Wake else Out(Ok)).(state := 0, holder := None, depth := s.depth[t := 0])
    case _ => s
  }

  /** The call is begun. */
  function Asked(s: Mutex, t: nat, call: Call, pc: Pc): Mutex
    requires t < |s.pcs| == |s.depth| == |s.calls|
  {
    To(s, t, pc).(calls := s.calls[t := (call, s.depth[t])])
  }

  function Apply(s: Mutex, mv: Move): Mutex
    requires mv.t < |s.pcs| == |s.depth| == |s.calls| && (mv.WakeOne? && mv.w.Some? ==> mv.w.value < |s.pcs|)
  {
    match mv
    case CallLock(t, timed) => Asked(s, t, Lock(timed), LockRead(timed))
    case CallBad(t) => To(s, t, Out(Invalid))
    case CallTry(t) => Asked(s, t, Trylock, if s.kind.Recursive? then TryRead else TryCas)
    case CallUnlock(t) => Asked(s, t, Unlock, if s.kind.Normal? then Clear else UnlockRead)
    case Go(t) => Advance(s, t)
    case Late(t) => To(s, t, Out(TimedOut))
    case Rouse(t) => To(s, t, Swap(s.pcs[t].Asleep? && s.pcs[t].timed))
    case WakeOne(t, w) =>
      var woken := if w.None? then s else To(s, w.value, Swap(s.pcs[w.value].Asleep? && s.pcs[w.value].timed));
      To(woken, t, Out(Ok))
  }

  ghost predicate Step(s: Mutex, mv: Move, s': Mutex) {
    Enabled(s, mv) && s' == Apply(s, mv)
  }

  ghost predicate Reachable(s: Mutex) {
    exists a: Mutex :: Initial(a) && Reaches(Step, a, s)
  }

  // ---------- the invariant ----------

  /** In its own code the holder is the owner on record, as deep as it counts. */
  ghost predicate Settled(s: Mutex, t: nat)
    requires t < |s.depth|
  {
    && (s.depth[t] > 0 <==> s.holder == Some(t))
    && (s.holder == Some(t) ==> s.owner == Id(t) && s.depth[t] == s.count && (!s.kind.Recursive? ==> s.depth[t] == 1))
  }

  ghost predicate ThreadOk(s: Mutex, t: nat)
    requires t < |s.pcs| == |s.depth|
  {
    match s.pcs[t]
    case Own => s.holder == Some(t) && s.owner == 0 && s.depth[t] == 0
    case Count => s.holder == Some(t) && s.owner == Id(t) && s.depth[t] == 0
    case Bump => Settled(s, t) && s.holder == Some(t) && s.kind.Recursive?
    case Drop => Settled(s, t) && s.holder == Some(t) && s.kind.Recursive?
    case Clear => s.holder == Some(t) && s.owner == Id(t) && s.depth[t] == 1
    case Free => s.holder == Some(t) && s.owner == 0 && s.depth[t] == 1
    case Wake => s.holder != Some(t) && s.depth[t] == 0
    case TryRead => Settled(s, t) && s.kind.Recursive?
    case TryCas => Settled(s, t) && (s.kind.Recursive? ==> s.holder != Some(t))
    case UnlockRead => Settled(s, t) && !s.kind.Normal?
    case Cas(_) => Settled(s, t) && (!s.kind.Normal? ==> s.holder != Some(t))
    case Swap(_) => Settled(s, t) && (!s.kind.Normal? ==> s.holder != Some(t))
    case Look(_) => Settled(s, t) && (!s.kind.Normal? ==> s.holder != Some(t))
    case Asleep(_) => Settled(s, t) && (!s.kind.Normal? ==> s.holder != Some(t))
    case _ => Settled(s, t)
  }

  /** What a call may answer, asked with the mutex taken `had` times, and how often it is taken then. */
  ghost predicate Tells(kind: Kind, call: Call, had: nat, last: Answer, depth: nat) {
    match call
    case Unlock => if had == 0 then last == NotOwner && depth == 0 else last == Ok && depth == had - 1
    case Lock(timed) =>
      if had > 0 && kind.ErrorCheck? then last == Deadlock && depth == had
      else if had > 0 && kind.Recursive? then Counts(had, last, depth)
      else (last == Ok && had == 0 && depth == 1) || (last == TimedOut && timed && depth == had)
    case Trylock =>
      if had > 0 && kind.Recursive? then Counts(had, last, depth)
      else (last == Ok && had == 0 && depth == 1) || (last == Busy && depth == had)
  }

  /** Taken once more, up to as often as can be counted. */
  ghost predicate Counts(had: nat, last: Answer, depth: nat) {
    if had == UINT_MAX then last == Again && depth == had else last == Ok && depth == had + 1
  }

  /** The thread is in the call it made, having the mutex as often as when it made it, until it has
      taken it or given it up; out of it, it was told what it has. */
  ghost predicate CallOk(s: Mutex, t: nat)
    requires t < |s.pcs| == |s.depth| == |s.calls|
  {
    var (call, had) := s.calls[t];
    match s.pcs[t]
    case Out(last) => last == Nothing || last == Invalid || Tells(s.kind, call, had, last, s.depth[t])
    case LockRead(timed) => call == Lock(timed) && s.depth[t] == had
    case TryRead => call == Trylock && s.depth[t] == had
    case TryCas => call == Trylock && s.depth[t] == had
    case Bump => (call.Lock? || call.Trylock?) && s.depth[t] == had
    case Own => (call.Lock? || call.Trylock?) && had == 0
    case Count => (call.Lock? || call.Trylock?) && had == 0
    case UnlockRead => call == Unlock && s.depth[t] == had
    case Drop => call == Unlock && s.depth[t] == had
    case Clear => call == Unlock && s.depth[t] == had
    case Free => call == Unlock && s.depth[t] == had
    case Wake => call == Unlock && had == 1
    case Cas(timed) => call == Lock(timed) && s.depth[t] == had && (had > 0 ==> s.kind.Normal?)
    case Swap(timed) => call == Lock(timed) && s.depth[t] == had && (had > 0 ==> s.kind.Normal?)
    case Look(timed) => call == Lock(timed) && s.depth[t] == had && (had > 0 ==> s.kind.Normal?)
    case Asleep(timed) => call == Lock(timed) && s.depth[t] == had && (had > 0 ==> s.kind.Normal?)
  }

  /** A wake is on its way, or the next unlock will send one: the word says so, or a thread awake is
      about to say so. */
  ghost predicate Coming(s: Mutex) {
    s.state == 2 || exists u :: 0 <= u < |s.pcs| && Rouses(s, u)
  }

  ghost predicate Rouses(s: Mutex, u: nat)
    requires u < |s.pcs|
  {
    s.pcs[u].Wake? || s.pcs[u].Swap?
  }

  ghost predicate Inv(s: Mutex) {
    && |s.depth| == |s.pcs| == |s.calls| && s.state <= 2 && s.count <= UINT_MAX
    && (s.state == 0 <==> s.holder == None)
    && (s.holder == None ==> s.owner == 0)
    && (s.holder.Some? ==> s.holder.value < |s.pcs| && (s.owner == 0 || s.owner == Id(s.holder.value)))
    && (forall t :: 0 <= t < |s.pcs| ==> ThreadOk(s, t) && CallOk(s, t))
    && ((exists t :: Sleeps(s, t)) ==> Coming(s))
  }

  lemma StepKeeps(s: Mutex, mv: Move, s': Mutex)
    requires Inv(s) && Step(s, mv, s')
    ensures Inv(s')
  {
    WordsKept(s, mv, s');
    hide CallOk, Coming;
    forall t | 0 <= t < |s'.pcs| ensures ThreadOk(s', t) && CallOk(s', t) {
      if t == mv.t { MoverKept(s, mv, s'); } else { OthersSame(s, mv, s', t); OtherKept(s, s', t); }
    }
    ComingKept(s, mv, s');
  }

  lemma MoverKept(s: Mutex, mv: Move, s': Mutex)
    requires Inv(s) && Step(s, mv, s') && |s'.pcs| == |s'.depth| == |s'.calls| == |s.pcs|
    ensures ThreadOk(s', mv.t) && CallOk(s', mv.t)
  {
    hide Advance, Coming;
    assert ThreadOk(s, mv.t) && CallOk(s, mv.t);
    if mv.Go? { AdvanceKeeps(s, mv.t); AdvanceTells(s, mv.t); }
  }

  lemma AdvanceTells(s: Mutex, t: nat)
    requires Inv(s) && t < |s.pcs| && ThreadOk(s, t) && CallOk(s, t)
    ensures |Advance(s, t).pcs| == |s.pcs| == |Advance(s, t).depth| == |Advance(s, t).calls| && CallOk(Advance(s, t), t)
  {
    WordsOf(s);
    hide Inv;
  }

  lemma AdvanceKeeps(s: Mutex, t: nat)
    requires Inv(s) && t < |s.pcs| && ThreadOk(s, t)
    ensures |Advance(s, t).pcs| == |s.pcs| == |Advance(s, t).depth| && ThreadOk(Advance(s, t), t)
  {
    hide Inv;
    WordsOf(s);
  }

  lemma WordsOf(s: Mutex)
    requires Inv(s)
    ensures |s.depth| == |s.pcs| && s.count <= UINT_MAX && (s.state == 0 <==> s.holder == None)
    ensures s.holder == None ==> s.owner == 0
    ensures s.holder.Some? ==> s.owner == 0 || s.owner == Id(s.holder.value)
  {
  }

  /** Only the holder, or the thread that takes a free mutex, writes what another's facts rest on. */
  ghost predicate SameFor(s: Mutex, s': Mutex, t: nat)
    requires t < |s.pcs| == |s.depth| == |s.calls| == |s'.pcs| == |s'.depth| == |s'.calls|
  {
    && s'.kind == s.kind && s'.depth[t] == s.depth[t] && s'.calls[t] == s.calls[t]
    && (s'.pcs[t] == s.pcs[t] || (s.pcs[t].Asleep? && s'.pcs[t] == Swap(s.pcs[t].timed)))
    && (s'.holder == Some(t) <==> s.holder == Some(t))
    && (s.holder == Some(t) ==> s'.owner == s.owner && s'.count == s.count)
  }

  lemma OthersSame(s: Mutex, mv: Move, s': Mutex, t: nat)
    requires Inv(s) && Step(s, mv, s') && t < |s.pcs| == |s'.pcs| == |s'.depth| == |s'.calls| && t != mv.t
    ensures SameFor(s, s', t)
  {
    assert ThreadOk(s, mv.t);
  }

  lemma OtherKept(s: Mutex, s': Mutex, t: nat)
    requires t < |s.pcs| == |s.depth| == |s.calls| == |s'.pcs| == |s'.depth| == |s'.calls|
    requires ThreadOk(s, t) && CallOk(s, t) && SameFor(s, s', t)
    ensures ThreadOk(s', t) && CallOk(s', t)
  {
  }

  lemma WordsKept(s: Mutex, mv: Move, s': Mutex)
    requires Inv(s) && Step(s, mv, s')
    ensures |s'.depth| == |s'.calls| == |s'.pcs| == |s.pcs| && s'.state <= 2 && s'.count <= UINT_MAX
    ensures s'.state == 0 <==> s'.holder == None
    ensures s'.holder == None ==> s'.owner == 0
    ensures s'.holder.Some? ==> s'.holder.value < |s'.pcs| && (s'.owner == 0 || s'.owner == Id(s'.holder.value))
  {
    assert ThreadOk(s, mv.t);
  }

  /** No step loses the wake that a sleeper needs. */
  lemma ComingKept(s: Mutex, mv: Move, s': Mutex)
    requires Inv(s) && Step(s, mv, s')
    ensures (exists t :: Sleeps(s', t)) ==> Coming(s')
  {
    hide ThreadOk, Step;
    if x :| Sleeps(s', x) {
      if Sleeps(s, x) && s.state != 2 {
        assert Coming(s);
        var u :| 0 <= u < |s.pcs| && Rouses(s, u);
        RouserStays(s, mv, s', u, x);
      } else if Sleeps(s, x) {
        ContendedStays(s, mv, s');
      } else {
        FallsAsleepOnTwo(s, mv, s', x);
      }
    }
  }

  lemma FallsAsleepOnTwo(s: Mutex, mv: Move, s': Mutex, x: nat)
    requires Step(s, mv, s') && !Sleeps(s, x) && Sleeps(s', x)
    ensures s'.state == 2
  {
    if mv.Go? {
      AdvanceFallsAsleep(s, mv.t);
      hide Advance;
    }
  }

  lemma AdvanceFallsAsleep(s: Mutex, t: nat)
    requires t < |s.pcs| == |s.depth|
    ensures var r := Advance(s, t);
            && r.pcs == s.pcs[t := r.pcs[t]]
            && (r.pcs[t].Asleep? ==> s.pcs[t].Asleep? || r.state == 2)
  {
  }

  lemma ContendedStays(s: Mutex, mv: Move, s': Mutex)
    requires Inv(s) && Step(s, mv, s') && s.state == 2
    ensures Coming(s')
  {
    if s'.state != 2 {
      assert ThreadOk(s, mv.t);
      assert Rouses(s', mv.t);
    }
  }

  lemma RouserStays(s: Mutex, mv: Move, s': Mutex, u: nat, x: nat)
    requires Inv(s) && Step(s, mv, s') && u < |s.pcs| && Rouses(s, u) && Sleeps(s, x)
    ensures Coming(s')
  {
    if u == mv.t {
      RouserMoves(s, mv, s', x);
    } else {
      WordsKept(s, mv, s');
      OthersSame(s, mv, s', u);
      hide Step, Inv;
      assert Rouses(s', u);
    }
  }

  lemma RouserMoves(s: Mutex, mv: Move, s': Mutex, x: nat)
    requires Step(s, mv, s') && Rouses(s, mv.t) && Sleeps(s, x)
    ensures Coming(s')
  {
    if mv.WakeOne? { assert Rouses(s', mv.w.value); }
  }

  lemma ReachableInv(s: Mutex)
    requires Reachable(s)
    ensures Inv(s)
  {
    var a: Mutex :| Initial(a) && Reaches(Step, a, s);
    assert Inv(a);
    forall x, mv, y | Inv(x) && Step(x, mv, y) ensures Inv(y) {
      StepKeeps(x, mv, y);
    }
    Kept(Step, Inv, a, s);
  }

  // ---------- what the mutex promises ----------

  /** At most one thread has the mutex; the owner on record is that thread or nobody, and exactly it
      while the holder is in its own code; and the word is 0 exactly when nobody has it. */
  lemma MutualExclusion(s: Mutex)
    requires Reachable(s)
    ensures |s.depth| == |s.pcs|
    ensures forall t, u :: 0 <= t < |s.pcs| && 0 <= u < |s.pcs| && s.depth[t] > 0 && s.depth[u] > 0 ==> t == u
    ensures s.owner != 0 ==> s.holder.Some? && s.owner == Id(s.holder.value)
    ensures s.state == 0 <==> s.holder == None
    ensures forall t :: 0 <= t < |s.pcs| && s.pcs[t].Out? ==>
              && (s.depth[t] > 0 <==> s.holder == Some(t)) && (s.depth[t] > 0 <==> s.owner == Id(t))
              && (s.depth[t] > 0 ==> s.state != 0 && s.count == s.depth[t])
              && (s.depth[t] > 1 ==> s.kind.Recursive?)
  {
    ReachableInv(s);
    forall t | 0 <= t < |s.pcs| ensures s.depth[t] > 0 ==> s.holder == Some(t) {
      assert ThreadOk(s, t);
    }
    forall t | 0 <= t < |s.pcs| && s.pcs[t].Out? ensures Settled(s, t) {
      assert ThreadOk(s, t);
    }
  }

  /** The lock the threads see: taken only when free, and given up only by the thread that has it. */
  lemma TakenOnlyWhenFree(s: Mutex, mv: Move, s': Mutex)
    requires Reachable(s) && Step(s, mv, s') && s'.holder != s.holder
    ensures (s.holder == None && s'.holder == Some(mv.t)) || (s.holder == Some(mv.t) && s'.holder == None)
  {
    ReachableInv(s);
    assert ThreadOk(s, mv.t);
  }

  /** What the tests of the owner decide, though they read it without the lock: a lock call is
      refused as a deadlock, or counts once more, exactly for the thread that has the mutex, and an
      unlock of a checked mutex is refused exactly for one that has not. */
  lemma OwnerTestsExact(s: Mutex, t: nat)
    requires Reachable(s) && t < |s.pcs|
    ensures |s.depth| == |s.pcs|
    ensures s.pcs[t].LockRead? ==>
              && (Advance(s, t).pcs[t] == Out(Deadlock) <==> s.kind.ErrorCheck? && s.depth[t] > 0)
              && (Advance(s, t).pcs[t] == Bump <==> s.kind.Recursive? && s.depth[t] > 0)
    ensures s.pcs[t] == TryRead ==> (Advance(s, t).pcs[t] == Bump <==> s.depth[t] > 0)
    ensures s.pcs[t] == Bump ==>
              && s.depth[t] == s.count > 0
              && Advance(s, t).pcs[t] == Out(if s.depth[t] == UINT_MAX then Again else Ok)
    ensures s.pcs[t] == UnlockRead ==> (Advance(s, t).pcs[t] == Out(NotOwner) <==> s.depth[t] == 0)
    ensures s.pcs[t] == Drop ==>
              if s.depth[t] > 1 then Advance(s, t).pcs[t] == Out(Ok) && Advance(s, t).depth[t] == s.depth[t] - 1
              else Advance(s, t).pcs[t] == Clear
  {
    ReachableInv(s);
    assert ThreadOk(s, t);
  }

  /** What a call answers tells its caller how often it has the mutex, and says what POSIX has it say.
      A lock is refused as a deadlock exactly for an error-checking mutex the caller has, taken once
      more exactly if it is a recursive one it has, up to the count's limit, and otherwise taken from
      nobody or, with a deadline, given up; a try differs in that it never waits. An unlock gives up
      one hold, and is refused exactly without one. */
  lemma AnswersTell(s: Mutex, t: nat)
    requires Reachable(s) && t < |s.pcs| && s.pcs[t].Out? && s.pcs[t].last != Nothing && s.pcs[t].last != Invalid
    ensures |s.depth| == |s.calls| == |s.pcs| && Tells(s.kind, s.calls[t].0, s.calls[t].1, s.pcs[t].last, s.depth[t])
  {
    ReachableInv(s);
    assert CallOk(s, t);
  }

  /** The record of a call is what the thread called and had then, and is not touched until its next. */
  lemma CallsRecorded(s: Mutex, mv: Move, s': Mutex, t: nat)
    requires Reachable(s) && Step(s, mv, s') && t < |s.pcs|
    ensures |s.pcs| == |s.depth| == |s.calls| == |s'.pcs| == |s'.depth| == |s'.calls|
    ensures s'.calls[t] ==
            if t != mv.t then s.calls[t]
            else match mv
                 case CallLock(_, timed) => (Lock(timed), s.depth[t])
                 case CallTry(_) => (Trylock, s.depth[t])
                 case CallUnlock(_) => (Unlock, s.depth[t])
                 case _ => s.calls[t]
    ensures t != mv.t ==> s'.depth[t] == s.depth[t]
    ensures s.pcs[t].Out? && s'.pcs[t].Out? && t == mv.t ==> mv.CallBad? && s'.pcs[t] == Out(Invalid) && s'.depth == s.depth
  {
    ReachableInv(s);
    WordsKept(s, mv, s');
    assert ThreadOk(s, mv.t);
  }

  /** A try answers that the mutex is busy exactly where another thread, or the caller itself, has it,
      and a deadline is found passed only by a lock that has one. */
  lemma TryExact(s: Mutex, t: nat)
    requires Reachable(s) && t < |s.pcs|
    ensures |s.depth| == |s.pcs|
    ensures s.pcs[t] == TryCas ==>
              if s.holder.Some? then Advance(s, t) == To(s, t, Out(Busy))
              else Advance(s, t).holder == Some(t) && Advance(s, t).state == 1 && Advance(s, t).pcs[t] == Own
    ensures Enabled(s, Late(t)) ==> Apply(s, Late(t)) == To(s, t, Out(TimedOut)) && s.pcs[t] == Look(true)
  {
    ReachableInv(s);
    assert ThreadOk(s, t);
  }

  /** The thread's steps by itself, up to `n` of them, while no other moves. */
  function Alone(s: Mutex, t: nat, n: nat): (r: Mutex)
    requires t < |s.pcs| == |s.depth| == |s.calls|
    ensures t < |r.pcs| == |r.depth| == |r.calls|
    decreases n
  {
    if n == 0 then s else Alone(Apply(s, Go(t)), t, n - 1)
  }

  /** Wherever the others are, a lock or a try made now and left alone has a free mutex after four
      steps; on one that is held a try is refused, and a lock falls asleep with the mutex marked for
      its holder to wake someone. */
  lemma LockAlone(s: Mutex, t: nat, timed: bool)
    requires Reachable(s) && t < |s.pcs| && s.pcs[t].Out?
    ensures |s.depth| == |s.calls| == |s.pcs|
    ensures var r := Alone(Apply(s, CallLock(t, timed)), t, 4);
            if s.holder == None then r.pcs[t] == Out(Ok) && r.holder == Some(t) && r.owner == Id(t) && r.state == 1 && r.depth[t] == 1
            else if s.depth[t] == 0 then r.pcs[t] == Asleep(timed) && r.state == 2 && r.holder == s.holder && r.depth == s.depth
            else true
    ensures var r := Alone(Apply(s, CallTry(t)), t, 4);
            if s.holder == None then r.pcs[t] == Out(Ok) && r.holder == Some(t) && r.owner == Id(t) && r.state == 1 && r.depth[t] == 1
            else if s.depth[t] == 0 then r == To(s, t, Out(Busy)).(calls := r.calls)
            else true
  {
    ReachableInv(s);
    assert ThreadOk(s, t);
    if s.depth[t] == 0 {
      LockRuns(s, t, timed);
      TryRuns(s, t);
    }
  }

  lemma LockRuns(s: Mutex, t: nat, timed: bool)
    requires t < |s.pcs| == |s.depth| == |s.calls| && s.pcs[t].Out? && s.state <= 2
    requires (s.state == 0 ==> s.owner == 0) && s.owner != Id(t)
    ensures var r := Alone(Apply(s, CallLock(t, timed)), t, 4);
            if s.state == 0 then r.pcs[t] == Out(Ok) && r.holder == Some(t) && r.owner == Id(t) && r.state == 1 && r.depth[t] == 1
            else r.pcs[t] == Asleep(timed) && r.state == 2 && r.holder == s.holder && r.depth == s.depth
  {
    var a := Apply(s, CallLock(t, timed));
    var b := Advance(a, t);
    var c := Advance(b, t);
    var d := Advance(c, t);
    assert Alone(a, t, 4) == Alone(b, t, 3) == Alone(c, t, 2) == Alone(d, t, 1) == Alone(Advance(d, t), t, 0);
  }

  lemma TryRuns(s: Mutex, t: nat)
    requires t < |s.pcs| == |s.depth| == |s.calls| && s.pcs[t].Out? && s.state <= 2
    requires (s.state == 0 ==> s.owner == 0) && s.owner != Id(t)
    ensures var r := Alone(Apply(s, CallTry(t)), t, 4);
            if s.state == 0 then r.pcs[t] == Out(Ok) && r.holder == Some(t) && r.owner == Id(t) && r.state == 1 && r.depth[t] == 1
            else r == To(s, t, Out(Busy)).(calls := r.calls)
  {
    var a := Apply(s, CallTry(t));
    var b := Advance(a, t);
    var c := Advance(b, t);
    var d := Advance(c, t);
    assert Alone(a, t, 4) == Alone(b, t, 3) == Alone(c, t, 2) == Alone(d, t, 1) == Alone(Advance(d, t), t, 0);
  }

  /** An unlock of the last hold leaves the mutex free, and goes on to wake a sleeper exactly if the
      mutex was marked. */
  lemma UnlockAlone(s: Mutex, t: nat)
    requires Reachable(s) && t < |s.pcs| && s.pcs[t].Out?
    ensures |s.depth| == |s.calls| == |s.pcs|
    ensures s.depth[t] == 1 ==>
              var r := Alone(Apply(s, CallUnlock(t)), t, 4);
              && r.holder == None && r.state == 0 && r.owner == 0 && r.depth == s.depth[t := 0] && (s.kind.Recursive? ==> r.count == 0)
              && r.pcs[t] == if s.state == 2 then Wake else Out(Ok)
  {
    ReachableInv(s);
    assert ThreadOk(s, t);
    if s.depth[t] == 1 { UnlockRuns(s, t); }
  }

  lemma {:induction false} Rests(s: Mutex, t: nat, n: nat)
    requires t < |s.pcs| == |s.depth| == |s.calls| && (s.pcs[t].Out? || s.pcs[t].Wake?)
    ensures Alone(s, t, n) == s
    decreases n
  {
    if n > 0 { Rests(s, t, n - 1); }
  }

  lemma ClearRuns(s: Mutex, t: nat, n: nat)
    requires t < |s.pcs| == |s.depth| == |s.calls| && s.pcs[t] == Clear && n >= 2
    ensures var r := Alone(s, t, n);
            && r.holder == None && r.state == 0 && r.owner == 0 && r.depth == s.depth[t := 0] && r.count == s.count
            && r.pcs[t] == if s.state == 2 then Wake else Out(Ok)
  {
    var b := Advance(s, t);
    var c := Advance(b, t);
    assert Alone(s, t, n) == Alone(b, t, n - 1) == Alone(c, t, n - 2);
    Rests(c, t, n - 2);
  }

  lemma UnlockRuns(s: Mutex, t: nat)
    requires t < |s.pcs| == |s.depth| == |s.calls| && s.pcs[t].Out? && s.owner == Id(t) && s.count == 1
    ensures var r := Alone(Apply(s, CallUnlock(t)), t, 4);
            && r.holder == None && r.state == 0 && r.owner == 0 && r.depth == s.depth[t := 0] && (s.kind.Recursive? ==> r.count == 0)
            && r.pcs[t] == if s.state == 2 then Wake else Out(Ok)
  {
    var a := Apply(s, CallUnlock(t));
    if s.kind.Normal? {
      ClearRuns(a, t, 4);
    } else {
      var b := Advance(a, t);
      assert Alone(a, t, 4) == Alone(b, t, 3);
      if s.kind.ErrorCheck? {
        ClearRuns(b, t, 3);
      } else {
        var c := Advance(b, t);
        assert Alone(b, t, 3) == Alone(c, t, 2);
        ClearRuns(c, t, 2);
      }
    }
  }

  /** A thread whose sleep ends, woken or not, tries again, and left alone has a mutex that is free after
      three steps, marked for others that may sleep still. */
  lemma WokenAlone(s: Mutex, mv: Move, w: nat)
    requires Reachable(s) && Enabled(s, mv) && Sleeps(s, w) && (mv == Rouse(w) || (mv.WakeOne? && mv.w == Some(w)))
    ensures |s.depth| == |s.calls| == |s.pcs| && w < |Apply(s, mv).pcs|
    ensures var a := Apply(s, mv);
            && a == To(s, w, Swap(s.pcs[w].timed)).(pcs := a.pcs) && (mv.WakeOne? ==> a.pcs[mv.t] == Out(Ok))
            && a.pcs[w] == Swap(s.pcs[w].timed)
    ensures s.holder == None ==>
              var r := Alone(Apply(s, mv), w, 3);
              r.pcs[w] == Out(Ok) && r.holder == Some(w) && r.owner == Id(w) && r.state == 2 && r.depth[w] == 1
  {
    ReachableInv(s);
    assert ThreadOk(s, mv.t);
    if s.holder == None { SwapRuns(Apply(s, mv), w); }
  }

  lemma SwapRuns(a: Mutex, w: nat)
    requires w < |a.pcs| == |a.depth| == |a.calls| && a.pcs[w].Swap? && a.state == 0
    ensures var r := Alone(a, w, 3);
            r.pcs[w] == Out(Ok) && r.holder == Some(w) && r.owner == Id(w) && r.state == 2 && r.depth[w] == 1
  {
    var b := Advance(a, w);
    var c := Advance(b, w);
    assert Alone(a, w, 3) == Alone(b, w, 2) == Alone(c, w, 1) == Alone(Advance(c, w), w, 0);
  }

  /** A thread in a call and not asleep can always go on: an unlock that has marked the mutex free wakes
      somebody if anybody sleeps. */
  lemma NoneStuck(s: Mutex, t: nat)
    requires Reachable(s) && t < |s.pcs| && !s.pcs[t].Out?
    ensures exists mv: Move :: mv.t == t && Enabled(s, mv)
  {
    ReachableInv(s);
    if s.pcs[t].Asleep? {
      assert Enabled(s, Rouse(t));
    } else if s.pcs[t].Wake? {
      if w: nat :| Sleeps(s, w) {
        assert Enabled(s, WakeOne(t, Some(w)));
      } else {
        assert Enabled(s, WakeOne(t, None));
      }
    } else {
      assert Enabled(s, Go(t));
    }
  }

  /** No wake is lost: while any thread sleeps the word is 2, or a wake is on its way, or a thread
      awake is about to exchange in 2. In particular a free mutex never has only sleepers. */
  lemma NoLostWake(s: Mutex, t: nat)
    requires Reachable(s) && Sleeps(s, t)
    ensures s.state == 2 || exists u :: 0 <= u < |s.pcs| && Rouses(s, u)
    ensures s.holder == None ==> exists u :: 0 <= u < |s.pcs| && Rouses(s, u)
  {
    ReachableInv(s);
    assert Coming(s);
  }

  /** So once every call has run as far as it can, a thread is asleep only on a mutex that somebody
      has, and that somebody's unlock will find 2 and wake one; it can be the sleeper itself only
      where it took a normal mutex twice. */
  lemma QuietMeansHeld(s: Mutex, t: nat)
    requires Reachable(s) && Sleeps(s, t) && forall u :: 0 <= u < |s.pcs| ==> s.pcs[u].Out? || s.pcs[u].Asleep?
    ensures s.state == 2 && s.holder.Some? && s.holder.value < |s.pcs| == |s.depth| && s.depth[s.holder.value] > 0
    ensures s.pcs[s.holder.value].Asleep? ==> s.kind.Normal?
  {
    ReachableInv(s);
    assert Coming(s);
    assert ThreadOk(s, s.holder.value);
  }
}
