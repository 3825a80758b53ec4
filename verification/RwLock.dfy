/** The readers-first rwlock: one word that is 0, -1 for a writer or the number of readers, and the
    writer's id beside it. Threads are program counters; each step is one atomic access. */
module RwLock {
  import opened Runs

  const LONG_MAX := 0x7FFF_FFFF

  datatype Answer = Nothing | Ok | Invalid | Deadlock | Again | Busy | TimedOut | NotHeld

  /** A try gives up where the others wait, for ever or until a deadline. */
  datatype How = Try | Wait(timed: bool)

  /** What is asked of the lock, and with what in hand: how many read locks, and whether the write lock. */
  datatype Call = Read(how: How, shares: nat, wrote: bool) | Write(how: How, shares: nat, wrote: bool) | Unlock(shares: nat, wrote: bool)

  datatype Pc =
    | Out(last: Answer)
    | RdRead(how: How)                  // read the word
    | RdCas(how: How, seen: int)        // one reader more than was seen
    | RdWho(timed: bool)                // compare the writer with itself
    | RdDoze(timed: bool)               // check the deadline, sleep on -1
    | RdAsleep(timed: bool)
    | WrRead(timed: bool)
    | WrCas(how: How)                   // 0 to -1
    | WrWho(timed: bool, seen: int)
    | WrDoze(timed: bool, seen: int)    // check the deadline, sleep on what was seen
    | WrAsleep(timed: bool, seen: int)
    | WrOwn                             // write the writer
    | UnRead
    | UnWho
    | UnClear                           // write the writer away
    | UnFree                            // exchange in 0
    | UnDrop                            // one reader less
    | UnWake                            // wake every sleeper

  /** `shares` is how many read locks each thread has, `byWriter` the thread with the write lock and
      `calls` each thread's latest call; they only serve to state properties. */
  datatype RwLock = RwLock(state: int, writer: nat, pcs: seq<Pc>, shares: seq<nat>, byWriter: Option<nat>, calls: seq<Call>)

  function Id(t: nat): nat {
    t + 1
  }

  ghost predicate Initial(s: RwLock) {
    && s.state == 0 && s.writer == 0 && s.byWriter == None && |s.shares| == |s.pcs| == |s.calls|
    && forall t :: 0 <= t < |s.pcs| ==> s.pcs[t] == Out(Nothing) && s.shares[t] == 0
  }

  function Sum(q: seq<nat>): nat {
    if q == [] then 0 else q[0] + Sum(q[1..])
  }

  datatype Move =
    | CallRd(t: nat, how: How)
    | CallWr(t: nat, how: How)
    | CallBad(t: nat)                   // a timed lock with no such clock, or no such time
    | CallUnlock(t: nat)
    | Go(t: nat)
    | Late(t: nat)
    | Rouse(t: nat)

  ghost predicate Sleeps(pc: Pc) {
    pc.RdAsleep? || pc.WrAsleep?
  }

  /** Unlocking a lock that others read, while having no read lock of it, is not checked. */
  ghost predicate Enabled(s: RwLock, mv: Move) {
    && |s.shares| == |s.pcs| == |s.calls| && mv.t < |s.pcs|
    && var pc := s.pcs[mv.t];
       match mv
       case CallRd(_, _) => pc.Out?
       case CallWr(_, _) => pc.Out?
       case CallBad(_) => pc.Out?
       case CallUnlock(_) => pc.Out?
       case Go(t) => !pc.Out? && !Sleeps(pc) && (pc.UnRead? && s.shares[t] == 0 ==> s.state <= 0)
       case Late(_) => (pc.RdDoze? || pc.WrDoze?) && pc.timed
       case Rouse(_) => Sleeps(pc)
  }

  function To(s: RwLock, t: nat, pc: Pc): RwLock
    requires t < |s.pcs|
  {
    s.(pcs := s.pcs[t := pc])
  }

  function Roused(pc: Pc): Pc {
    match pc
    case RdAsleep(timed) => RdRead(Wait(timed))
    case WrAsleep(timed, _) => WrRead(timed)
    case _ => pc
  }

  function Advance(s: RwLock, t: nat): RwLock
    requires t < |s.pcs| == |s.shares|
  {
    match s.pcs[t]
    case RdRead(how) =>
      if s.state < 0 then To(s, t, match how case Try => Out(Busy) case Wait(timed) => RdWho(timed))
      else if s.state == LONG_MAX then To(s, t, Out(Again))
      else To(s, t, RdCas(how, s.state))
    case RdCas(how, seen) =>
      if s.state == seen then To(s, t, Out(Ok)).(state := s.state + 1, shares := s.shares[t := s.shares[t] + 1])
      else To(s, t, RdRead(how))
    case RdWho(timed) => To(s, t, if s.writer == Id(t) then Out(Deadlock) else RdDoze(timed))
    case RdDoze(timed) => To(s, t, if s.state == -1 then RdAsleep(timed) else RdRead(Wait(timed)))
    case WrRead(timed) =>
      if s.state == 0 then To(s, t, WrCas(Wait(timed)))
      else if s.state < 0 then To(s, t, WrWho(timed, s.state))
      else To(s, t, WrDoze(timed, s.state))
    case WrCas(how) =>
      if s.state == 0 then To(s, t, WrOwn).(state := -1, byWriter := Some(t))
      else To(s, t, match how case Try => Out(Busy) case Wait(timed) => WrRead(timed))
    case WrWho(timed, seen) => To(s, t, if s.writer == Id(t) then Out(Deadlock) else WrDoze(timed, seen))
    case WrDoze(timed, seen) => To(s, t, if s.state == seen then WrAsleep(timed, seen) else WrRead(timed))
    case WrOwn => To(s, t, Out(Ok)).(writer := Id(t))
    case UnRead => To(s, t, if s.state == 0 then Out(NotHeld) else if s.state < 0 then UnWho else UnDrop)
    case UnWho => To(s, t, if s.writer != Id(t) then Out(NotHeld) else UnClear)
    case UnClear => To(s, t, UnFree).(writer := 0)
    case UnFree => To(s, t, UnWake).(state := 0, byWriter := None)
    case UnDrop =>
      To(s, t, if s.state == 1 then UnWake else Out(Ok))
        .(state := s.state - 1, shares := s.shares[t := if s.shares[t] == 0 then 0 else s.shares[t] - 1])
    case UnWake => To(s.(pcs := Each(Roused, s.pcs)), t, Out(Ok))
    case _ => s
  }

  /** The call is begun. */
  function Asked(s: RwLock, t: nat, call: Call, pc: Pc): RwLock
    requires t < |s.pcs| == |s.calls|
  {
    To(s, t, pc).(calls := s.calls[t := call])
  }

  function Apply(s: RwLock, mv: Move): RwLock
    requires mv.t < |s.pcs| == |s.shares| == |s.calls|
  {
    match mv
    case CallRd(t, how) => Asked(s, t, Read(how, s.shares[t], s.byWriter == Some(t)), RdRead(how))
    case CallWr(t, how) =>
      Asked(s, t, Write(how, s.shares[t], s.byWriter == Some(t)), match how case Try => WrCas(Try) case Wait(timed) => WrRead(timed))
    case CallBad(t) => To(s, t, Out(Invalid))
    case CallUnlock(t) => Asked(s, t, Unlock(s.shares[t], s.byWriter == Some(t)), UnRead)
    case Go(t) => Advance(s, t)
    case Late(t) => To(s, t, Out(TimedOut))
    case Rouse(t) => To(s, t, Roused(s.pcs[t]))
  }

  ghost predicate Step(s: RwLock, mv: Move, s': RwLock) {
    Enabled(s, mv) && s' == Apply(s, mv)
  }

  ghost predicate Reachable(s: RwLock) {
    exists a: RwLock :: Initial(a) && Reaches(Step, a, s)
  }

  // ---------- the invariant ----------

  ghost predicate ThreadOk(s: RwLock, t: nat)
    requires t < |s.pcs| == |s.shares|
  {
    && (s.byWriter == Some(t) ==> s.writer == if s.pcs[t].WrOwn? || s.pcs[t].UnFree? then 0 else Id(t))
    && match s.pcs[t]
       case RdCas(_, seen) => 0 <= seen < LONG_MAX
       case WrWho(_, seen) => seen == -1
       case WrDoze(_, seen) => seen != 0
       case WrAsleep(_, seen) => seen != 0
       case WrOwn => s.byWriter == Some(t)
       case UnWho => s.shares[t] == 0
       case UnClear => s.byWriter == Some(t)
       case UnFree => s.byWriter == Some(t)
       case UnDrop => s.shares[t] > 0
       case UnWake => s.byWriter != Some(t)
       case _ => true
  }

  /** What a call may answer, and with what in hand. */
  ghost predicate Tells(call: Call, last: Answer, shares: nat, writes: bool) {
    if call.Unlock? then
      if call.wrote then last == Ok && shares == call.shares && !writes
      else if call.shares > 0 then last == Ok && shares == call.shares - 1 && !writes
      else last == NotHeld && shares == 0 && !writes
    else if last == Ok then
      !call.wrote && if call.Read? then shares == call.shares + 1 && !writes else call.shares == 0 == shares && writes
    else
      && shares == call.shares && writes == call.wrote
      && match call.how
         case Try => last == Busy || (call.Read? && last == Again && !call.wrote)
         case Wait(timed) =>
           if call.wrote then last == Deadlock else (timed && last == TimedOut) || (call.Read? && last == Again)
  }

  /** The thread is in the call it made, with what it had in hand when it made it until it has taken or
      given up a lock; out of it, it was told what it has. */
  ghost predicate CallOk(s: RwLock, t: nat)
    requires t < |s.pcs| == |s.shares| == |s.calls|
  {
    var call, shares, writes := s.calls[t], s.shares[t], s.byWriter == Some(t);
    var same := shares == call.shares && writes == call.wrote;
    match s.pcs[t]
    case Out(last) => last == Nothing || last == Invalid || Tells(call, last, shares, writes)
    case RdRead(how) => call.Read? && call.how == how && same
    case RdCas(how, _) => call.Read? && call.how == how && same && !writes
    case RdWho(timed) => call.Read? && call.how == Wait(timed) && same
    case RdDoze(timed) => call.Read? && call.how == Wait(timed) && same && !writes
    case RdAsleep(timed) => call.Read? && call.how == Wait(timed) && same && !writes
    case WrRead(timed) => call.Write? && call.how == Wait(timed) && same
    case WrCas(how) => call.Write? && call.how == how && same && (how.Wait? ==> !writes)
    case WrWho(timed, _) => call.Write? && call.how == Wait(timed) && same
    case WrDoze(timed, _) => call.Write? && call.how == Wait(timed) && same && !writes
    case WrAsleep(timed, _) => call.Write? && call.how == Wait(timed) && same && !writes
    case WrOwn => call.Write? && !call.wrote && shares == 0 == call.shares
    case UnRead => call.Unlock? && same
    case UnWho => call.Unlock? && same
    case UnClear => call.Unlock? && same
    case UnFree => call.Unlock? && same
    case UnDrop => call.Unlock? && same && !writes
    case UnWake => call.Unlock? && Tells(call, Ok, shares, writes)
  }

  ghost predicate Waking(s: RwLock) {
    exists u :: 0 <= u < |s.pcs| && s.pcs[u].UnWake?
  }

  /** A thread asleep is asleep for a reason, or about to be woken. */
  ghost predicate SleeperOk(s: RwLock, t: nat)
    requires t < |s.pcs|
  {
    && (s.pcs[t].RdAsleep? ==> s.state == -1 || Waking(s))
    && (s.pcs[t].WrAsleep? ==> s.state != 0 || Waking(s))
  }

  ghost predicate WordsOk(s: RwLock) {
    && |s.shares| == |s.pcs| == |s.calls| && -1 <= s.state <= LONG_MAX
    && (s.state == -1 <==> s.byWriter.Some?)
    && Sum(s.shares) == (if s.state == -1 then 0 else s.state)
    && (s.byWriter == None ==> s.writer == 0)
    && (s.byWriter.Some? ==> s.byWriter.value < |s.pcs| && (s.writer == 0 || s.writer == Id(s.byWriter.value)))
  }

  ghost predicate Inv(s: RwLock) {
    && WordsOk(s)
    && (forall t :: 0 <= t < |s.pcs| ==> ThreadOk(s, t) && CallOk(s, t))
    && (forall t :: 0 <= t < |s.pcs| ==> SleeperOk(s, t))
  }

  lemma {:induction false} SumUpdate(q: seq<nat>, t: nat, n: nat)
    requires t < |q|
    ensures Sum(q[t := n]) == Sum(q) - q[t] + n && q[t] <= Sum(q)
  {
    if t == 0 {
      assert q[t := n][1..] == q[1..];
    } else {
      assert q[t := n][1..] == q[1..][t - 1 := n];
      SumUpdate(q[1..], t - 1, n);
    }
  }

  lemma {:induction false} SumZero(q: seq<nat>)
    requires forall t :: 0 <= t < |q| ==> q[t] == 0
    ensures Sum(q) == 0
  {
    if q != [] { SumZero(q[1..]); }
  }

  lemma {:induction false} SomeReads(q: seq<nat>)
    requires Sum(q) > 0
    ensures exists t :: 0 <= t < |q| && q[t] > 0
  {
    if q[0] == 0 {
      SomeReads(q[1..]);
      var t :| 0 <= t < |q[1..]| && q[1..][t] > 0;
      assert q[t + 1] > 0;
    }
  }

  lemma WordsKept(s: RwLock, mv: Move, s': RwLock)
    requires Inv(s) && Step(s, mv, s')
    ensures WordsOk(s') && |s'.pcs| == |s.pcs|
  {
    assert ThreadOk(s, mv.t);
    if mv.Go? {
      AdvanceWords(s, mv.t);
      hide Advance;
    }
  }

  lemma AdvanceWords(s: RwLock, t: nat)
    requires WordsOk(s) && t < |s.pcs| && ThreadOk(s, t)
    ensures WordsOk(Advance(s, t)) && |Advance(s, t).pcs| == |s.pcs|
  {
    var r := Advance(s, t);
    SumUpdate(s.shares, t, r.shares[t]);
    assert s.shares[t := s.shares[t]] == s.shares;
    hide Sum;
  }

  /** Only the writer, or the thread that takes a free lock, writes the writer. */
  ghost predicate SameFor(s: RwLock, s': RwLock, t: nat)
    requires t < |s.pcs| == |s.shares| == |s.calls| == |s'.pcs| == |s'.shares| == |s'.calls|
  {
    && s'.shares[t] == s.shares[t] && s'.calls[t] == s.calls[t] && (s'.pcs[t] == s.pcs[t] || s'.pcs[t] == Roused(s.pcs[t]))
    && (s'.byWriter == Some(t) <==> s.byWriter == Some(t))
    && (s.byWriter == Some(t) ==> s'.writer == s.writer)
  }

  lemma OthersSame(s: RwLock, mv: Move, s': RwLock, t: nat)
    requires Inv(s) && Step(s, mv, s') && t < |s.pcs| == |s'.pcs| == |s'.shares| == |s'.calls| && t != mv.t
    ensures |s.shares| == |s.pcs| == |s.calls| && SameFor(s, s', t)
  {
    hide Sum, Waking, CallOk;
    assert ThreadOk(s, mv.t);
  }

  lemma MoverKept(s: RwLock, mv: Move, s': RwLock)
    requires Inv(s) && Step(s, mv, s') && |s'.pcs| == |s.pcs| == |s'.shares| == |s'.calls|
    ensures ThreadOk(s', mv.t) && CallOk(s', mv.t)
  {
    hide Waking, Advance;
    assert ThreadOk(s, mv.t) && CallOk(s, mv.t);
    SumUpdate(s.shares, mv.t, 0);
    if mv.Go? { AdvanceKeeps(s, mv.t); AdvanceTells(s, mv.t); }
  }

  lemma AdvanceTells(s: RwLock, t: nat)
    requires WordsOk(s) && t < |s.pcs| && ThreadOk(s, t) && CallOk(s, t) && s.shares[t] <= Sum(s.shares)
    requires s.pcs[t].UnRead? && s.shares[t] == 0 ==> s.state <= 0
    ensures |Advance(s, t).pcs| == |s.pcs| == |Advance(s, t).shares| == |Advance(s, t).calls| && CallOk(Advance(s, t), t)
  {
    hide Sum;
  }

  lemma AdvanceKeeps(s: RwLock, t: nat)
    requires WordsOk(s) && t < |s.pcs| && ThreadOk(s, t) && s.shares[t] <= Sum(s.shares)
    requires s.pcs[t].UnRead? && s.shares[t] == 0 ==> s.state <= 0
    ensures |Advance(s, t).pcs| == |s.pcs| == |Advance(s, t).shares| && ThreadOk(Advance(s, t), t)
  {
    hide Sum;
  }

  lemma SleepersKept(s: RwLock, mv: Move, s': RwLock, t: nat)
    requires Inv(s) && Step(s, mv, s') && t < |s.pcs| == |s'.pcs| == |s'.shares|
    ensures SleeperOk(s', t)
  {
    assert WordsOk(s) && SleeperOk(s, t) && ThreadOk(s, mv.t);
    hide Inv;
    if Sleeps(s'.pcs[t]) {
      if Sleeps(s.pcs[t]) {
        OthersSame(s, mv, s', t);
        hide Advance;
        if Waking(s) { WakingStays(s, mv, s', t); } else { WordStays(s, mv, s'); }
      }
    }
  }

  lemma WakingStays(s: RwLock, mv: Move, s': RwLock, t: nat)
    requires Step(s, mv, s') && Waking(s) && t < |s'.pcs| == |s.pcs| && Sleeps(s'.pcs[t]) && s'.pcs[t] == s.pcs[t]
    ensures Waking(s')
  {
    var u :| 0 <= u < |s.pcs| && s.pcs[u].UnWake?;
    assert u != mv.t && s'.pcs[u].UnWake?;
  }

  lemma WordStays(s: RwLock, mv: Move, s': RwLock)
    requires WordsOk(s) && Step(s, mv, s') && ThreadOk(s, mv.t)
    ensures s'.state == s.state || (s.state != -1 && s'.state != 0) || Waking(s')
  {
    SumUpdate(s.shares, mv.t, 0);
    if s'.state != s.state && (s.state == -1 || s'.state == 0) { assert s'.pcs[mv.t].UnWake?; }
  }

  lemma StepKeeps(s: RwLock, mv: Move, s': RwLock)
    requires Inv(s) && Step(s, mv, s')
    ensures Inv(s')
  {
    WordsKept(s, mv, s');
    assert |s.shares| == |s.pcs| == |s'.pcs| == |s'.shares|;
    assert |s.calls| == |s'.calls| == |s.pcs|;
    hide Step, SleeperOk, WordsOk;
    forall t | 0 <= t < |s'.pcs| ensures ThreadOk(s', t) && CallOk(s', t) && SleeperOk(s', t) {
      SleepersKept(s, mv, s', t);
      if t == mv.t { MoverKept(s, mv, s'); } else { OtherKept(s, mv, s', t); }
    }
  }

  lemma OtherKept(s: RwLock, mv: Move, s': RwLock, t: nat)
    requires Inv(s) && Step(s, mv, s') && t < |s.pcs| == |s'.pcs| == |s'.shares| == |s'.calls| && t != mv.t
    ensures ThreadOk(s', t) && CallOk(s', t)
  {
    assert ThreadOk(s, t) && CallOk(s, t);
    OthersSame(s, mv, s', t);
    hide Step, Inv;
  }

  lemma ReachableInv(s: RwLock)
    requires Reachable(s)
    ensures Inv(s)
  {
    var a: RwLock :| Initial(a) && Reaches(Step, a, s);
    SumZero(a.shares);
    assert Inv(a);
    forall x, mv, y | Inv(x) && Step(x, mv, y) ensures Inv(y) {
      StepKeeps(x, mv, y);
    }
    Kept(Step, Inv, a, s);
  }

  // ---------- what the lock promises ----------

  /** A writer has the lock alone; the word counts the readers. */
  lemma WriterAlone(s: RwLock)
    requires Reachable(s)
    ensures |s.shares| == |s.pcs| && Sum(s.shares) == (if s.state == -1 then 0 else s.state) && s.state >= -1
    ensures s.byWriter.Some? <==> s.state == -1
    ensures s.byWriter.Some? ==> forall t :: 0 <= t < |s.pcs| ==> s.shares[t] == 0
    ensures s.writer != 0 ==> s.byWriter.Some? && s.writer == Id(s.byWriter.value)
    ensures forall t :: 0 <= t < |s.pcs| && s.pcs[t].Out? ==> (s.byWriter == Some(t) <==> s.writer == Id(t))
  {
    ReachableInv(s);
    forall t | 0 <= t < |s.pcs| ensures s.shares[t] <= Sum(s.shares) {
      SumUpdate(s.shares, t, 0);
    }
    forall t | 0 <= t < |s.pcs| && s.pcs[t].Out? ensures s.byWriter == Some(t) <==> s.writer == Id(t) {
      assert ThreadOk(s, t);
    }
  }

  /** A read lock is had only with no writer, a write lock only with nobody, and each is given up
      only by a thread that has it. */
  lemma LocksTakenInTurn(s: RwLock, mv: Move, s': RwLock)
    requires Reachable(s) && Step(s, mv, s')
    ensures |s'.shares| == |s.shares| == |s.pcs| && forall t :: 0 <= t < |s.pcs| && t != mv.t ==> s'.shares[t] == s.shares[t]
    ensures s'.shares[mv.t] > s.shares[mv.t] ==> s'.shares[mv.t] == s.shares[mv.t] + 1 && s.byWriter == None
    ensures s'.shares[mv.t] < s.shares[mv.t] ==> s'.shares[mv.t] == s.shares[mv.t] - 1
    ensures s'.byWriter != s.byWriter ==>
              if s.byWriter == None then s'.byWriter == Some(mv.t) && Sum(s.shares) == 0
              else s.byWriter == Some(mv.t) && s'.byWriter == None
  {
    ReachableInv(s);
    WordsKept(s, mv, s');
    assert ThreadOk(s, mv.t);
  }

  /** A lock is refused as a deadlock exactly for the thread that writes, and an unlock as not held
      exactly for a thread that has nothing, though the tests read the words without the lock. */
  lemma RefusalsExact(s: RwLock, t: nat)
    requires Reachable(s) && t < |s.pcs|
    ensures |s.shares| == |s.pcs|
    ensures s.pcs[t].RdWho? || s.pcs[t].WrWho? ==> (Advance(s, t).pcs[t] == Out(Deadlock) <==> s.byWriter == Some(t))
    ensures (s.pcs[t].WrRead? || s.pcs[t] == RdRead(Wait(false)) || s.pcs[t] == RdRead(Wait(true))) && s.byWriter == Some(t) ==>
              Advance(s, t).pcs[t].RdWho? || Advance(s, t).pcs[t].WrWho?
    ensures s.pcs[t].UnRead? && Enabled(s, Go(t)) ==>
              && (s.shares[t] > 0 <==> Advance(s, t).pcs[t].UnDrop?)
              && (s.byWriter == Some(t) ==> Advance(s, t).pcs[t].UnWho?)
    ensures s.pcs[t].UnWho? ==> (Advance(s, t).pcs[t] == Out(NotHeld) <==> s.byWriter != Some(t))
  {
    ReachableInv(s);
    assert ThreadOk(s, t);
    SumUpdate(s.shares, t, 0);
  }

  /** What each answer means for the caller's locks. A lock that is accepted is one read lock more, or
      the write lock where the caller had nothing; refused it leaves the caller what it had. The thread
      that writes is told of the deadlock, or a try that the lock is busy, and never gets it; only a try
      is told that, only a lock with a deadline that it is over. An unlock gives up the one lock there
      is to give up, and is refused exactly without one. */
  lemma AnswersTell(s: RwLock, t: nat)
    requires Reachable(s) && t < |s.pcs| && s.pcs[t].Out? && s.pcs[t].last != Nothing && s.pcs[t].last != Invalid
    ensures |s.shares| == |s.calls| == |s.pcs| && Tells(s.calls[t], s.pcs[t].last, s.shares[t], s.byWriter == Some(t))
  {
    ReachableInv(s);
    assert CallOk(s, t);
  }

  /** The record of a call is what the thread called and had then, and is not touched until its next. */
  lemma CallsRecorded(s: RwLock, mv: Move, s': RwLock, t: nat)
    requires Reachable(s) && Step(s, mv, s') && t < |s.pcs|
    ensures |s.pcs| == |s.shares| == |s.calls| == |s'.pcs| == |s'.shares| == |s'.calls|
    ensures s'.calls[t] ==
            if t != mv.t then s.calls[t]
            else match mv
                 case CallRd(_, how) => Read(how, s.shares[t], s.byWriter == Some(t))
                 case CallWr(_, how) => Write(how, s.shares[t], s.byWriter == Some(t))
                 case CallUnlock(_) => Unlock(s.shares[t], s.byWriter == Some(t))
                 case _ => s.calls[t]
    ensures s.pcs[t].Out? && s'.pcs[t].Out? && t == mv.t ==> mv.CallBad? && s'.pcs[t] == Out(Invalid) && s'.shares == s.shares && s'.byWriter == s.byWriter
  {
    ReachableInv(s);
    WordsKept(s, mv, s');
    if t != mv.t { OthersSame(s, mv, s', t); }
  }

  /** Readers come first: one is let in whenever nobody writes, whoever else reads or waits, unless there
      are as many as can be counted; it goes back to look again only where the word has changed. It is
      told that the lock is busy, or goes on to wait, only while someone writes. */
  lemma ReadersShare(s: RwLock, t: nat)
    requires Reachable(s) && t < |s.pcs|
    ensures |s.shares| == |s.pcs|
    ensures s.pcs[t].RdRead? ==>
              var pc := Advance(s, t).pcs[t];
              && (s.byWriter == None && s.state < LONG_MAX <==> pc == RdCas(s.pcs[t].how, s.state))
              && (s.byWriter.Some? <==> pc == Out(Busy) || pc.RdWho?)
              && (s.byWriter == None && s.state == LONG_MAX <==> pc == Out(Again))
    ensures s.pcs[t].RdCas? ==>
              var r := Advance(s, t);
              if s.state == s.pcs[t].seen then r.pcs[t] == Out(Ok) && r.shares == s.shares[t := s.shares[t] + 1] && r.state == s.state + 1
              else r == To(s, t, RdRead(s.pcs[t].how))
    ensures s.pcs[t].RdDoze? ==> (Advance(s, t).pcs[t].RdAsleep? <==> s.byWriter.Some?)
  {
    ReachableInv(s);
    assert ThreadOk(s, t);
  }

  /** The write lock is taken exactly where nobody has the lock, and a try for it told otherwise. */
  lemma WriterTakes(s: RwLock, t: nat)
    requires Reachable(s) && t < |s.pcs| && s.pcs[t].WrCas?
    ensures |s.shares| == |s.pcs|
    ensures var r := Advance(s, t);
            if s.byWriter == None && Sum(s.shares) == 0 then r.byWriter == Some(t) && r.state == -1 && r.pcs[t] == WrOwn
            else r == To(s, t, match s.pcs[t].how case Try => Out(Busy) case Wait(timed) => WrRead(timed))
  {
    ReachableInv(s);
  }

  /** The thread's steps by itself, up to `n` of them, while no other moves. */
  function Alone(s: RwLock, t: nat, n: nat): (r: RwLock)
    requires t < |s.pcs| == |s.shares| == |s.calls|
    ensures t < |r.pcs| == |r.shares| == |r.calls|
    decreases n
  {
    if n == 0 then s else Alone(Apply(s, Go(t)), t, n - 1)
  }

  lemma TwoAlone(s: RwLock, t: nat)
    requires t < |s.pcs| == |s.shares| == |s.calls|
    ensures Alone(s, t, 2) == Advance(Advance(s, t), t) && Alone(s, t, 3) == Advance(Alone(s, t, 2), t)
  {
    var b := Advance(s, t);
    var c := Advance(b, t);
    assert Alone(s, t, 2) == Alone(b, t, 1) == Alone(c, t, 0);
    assert Alone(s, t, 3) == Alone(b, t, 2) == Alone(c, t, 1) == Alone(Advance(c, t), t, 0);
  }

  /** Wherever the others are, a call made now and left alone is through in three steps: a read lock is
      had unless someone writes, the write lock where nobody has the lock; otherwise a try is refused
      and a lock asleep, or refused to the thread that writes. */
  lemma ReadAlone(s: RwLock, t: nat, how: How)
    requires Reachable(s) && t < |s.pcs| && s.pcs[t].Out? && s.state < LONG_MAX
    ensures |s.shares| == |s.calls| == |s.pcs|
    ensures var r := Alone(Apply(s, CallRd(t, how)), t, 3);
            if s.byWriter == None then
              r.pcs[t] == Out(Ok) && r.shares == s.shares[t := s.shares[t] + 1] && r.state == s.state + 1 && r.byWriter == None
            else
              r == To(s, t, match how
                            case Try => Out(Busy)
                            case Wait(timed) => if s.byWriter == Some(t) then Out(Deadlock) else RdAsleep(timed)).(calls := r.calls)
  {
    ReachableInv(s);
    assert ThreadOk(s, t);
    TwoAlone(Apply(s, CallRd(t, how)), t);
  }

  lemma WriteAlone(s: RwLock, t: nat, how: How)
    requires Reachable(s) && t < |s.pcs| && s.pcs[t].Out?
    ensures |s.shares| == |s.calls| == |s.pcs|
    ensures var r := Alone(Apply(s, CallWr(t, how)), t, 3);
            if s.byWriter == None && s.state == 0 then
              r.pcs[t] == Out(Ok) && r.byWriter == Some(t) && r.writer == Id(t) && r.state == -1 && r.shares == s.shares
            else
              r == To(s, t, match how
                            case Try => Out(Busy)
                            case Wait(timed) => if s.byWriter == Some(t) then Out(Deadlock) else WrAsleep(timed, s.state)).(calls := r.calls)
  {
    ReachableInv(s);
    assert ThreadOk(s, t);
    TwoAlone(Apply(s, CallWr(t, how)), t);
  }

  /** An unlock gives up the write lock, or one read lock; where that leaves the lock free, and only
      there, it goes on to wake every sleeper. */
  lemma UnlockAlone(s: RwLock, t: nat)
    requires Reachable(s) && t < |s.pcs| && s.pcs[t].Out?
    ensures |s.shares| == |s.calls| == |s.pcs|
    ensures s.byWriter == Some(t) ==>
              var r := Advance(Alone(Apply(s, CallUnlock(t)), t, 3), t);
              r.state == 0 && r.writer == 0 && r.byWriter == None && r.pcs[t] == UnWake && r.shares == s.shares
    ensures s.shares[t] > 0 ==>
              var r := Alone(Apply(s, CallUnlock(t)), t, 2);
              && r.shares == s.shares[t := s.shares[t] - 1] && r.state == s.state - 1 && r.byWriter == None
              && r.pcs[t] == if r.state == 0 then UnWake else Out(Ok)
  {
    ReachableInv(s);
    assert ThreadOk(s, t);
    SumUpdate(s.shares, t, 0);
    hide Advance, Alone, Apply, SleeperOk, CallOk;
    if s.byWriter == Some(t) { WriterLeaves(s, t); }
    if s.shares[t] > 0 { ReaderLeaves(s, t); }
  }

  lemma ReaderLeaves(s: RwLock, t: nat)
    requires t < |s.pcs| == |s.shares| == |s.calls| && s.state > 0 && s.shares[t] > 0
    ensures var r := Alone(Apply(s, CallUnlock(t)), t, 2);
            && r.shares == s.shares[t := s.shares[t] - 1] && r.state == s.state - 1 && r.byWriter == s.byWriter
            && r.pcs[t] == if r.state == 0 then UnWake else Out(Ok)
  {
    TwoAlone(Apply(s, CallUnlock(t)), t);
  }

  lemma WriterLeaves(s: RwLock, t: nat)
    requires t < |s.pcs| == |s.shares| == |s.calls| && s.state == -1 && s.writer == Id(t)
    ensures var r := Advance(Alone(Apply(s, CallUnlock(t)), t, 3), t);
            r.state == 0 && r.writer == 0 && r.byWriter == None && r.pcs[t] == UnWake && r.shares == s.shares
  {
    TwoAlone(Apply(s, CallUnlock(t)), t);
  }

  /** And that wakes them all. */
  lemma WakesAll(s: RwLock, t: nat)
    requires Reachable(s) && t < |s.pcs| && s.pcs[t] == UnWake
    ensures |s.shares| == |s.pcs| == |Advance(s, t).pcs| && Advance(s, t).pcs[t] == Out(Ok)
    ensures forall u :: 0 <= u < |s.pcs| ==> !Sleeps(Advance(s, t).pcs[u])
  {
    ReachableInv(s);
  }

  /** A sleep that ends, woken or not, leads to another look at the word; a deadline found passed ends
      the call. */
  lemma SleepsEnd(s: RwLock, t: nat)
    requires Reachable(s) && t < |s.pcs|
    ensures |s.shares| == |s.calls| == |s.pcs|
    ensures s.pcs[t].RdAsleep? ==> Roused(s.pcs[t]) == RdRead(Wait(s.pcs[t].timed))
    ensures s.pcs[t].WrAsleep? ==> Roused(s.pcs[t]) == WrRead(s.pcs[t].timed)
    ensures Sleeps(s.pcs[t]) ==> Enabled(s, Rouse(t)) && Apply(s, Rouse(t)) == To(s, t, Roused(s.pcs[t]))
    ensures Enabled(s, Late(t)) ==> Apply(s, Late(t)) == To(s, t, Out(TimedOut))
    ensures s.pcs[t] == UnWake ==> forall u :: 0 <= u < |s.pcs| && u != t ==> Advance(s, t).pcs[u] == Roused(s.pcs[u])
    ensures !s.pcs[t].Out? && !Sleeps(s.pcs[t]) && !s.pcs[t].UnRead? ==> Enabled(s, Go(t))
  {
    ReachableInv(s);
  }

  /** No sleeper is stranded: a reader asleep means a writer has the lock, and a writer asleep, on
      however old a count, means somebody has it, or else all sleepers are about to be woken. */
  lemma NobodyStranded(s: RwLock, t: nat)
    requires Reachable(s) && t < |s.pcs|
    ensures s.pcs[t].RdAsleep? ==> s.byWriter.Some? || exists u :: 0 <= u < |s.pcs| && s.pcs[u].UnWake?
    ensures s.pcs[t].WrAsleep? ==> s.state != 0 || exists u :: 0 <= u < |s.pcs| && s.pcs[u].UnWake?
  {
    ReachableInv(s);
    assert SleeperOk(s, t);
  }

  /** So once every call has run as far as it can, somebody has any lock that a thread sleeps on. */
  lemma QuietMeansHeld(s: RwLock, t: nat)
    requires Reachable(s) && t < |s.pcs| && Sleeps(s.pcs[t])
    requires forall u :: 0 <= u < |s.pcs| ==> s.pcs[u].Out? || Sleeps(s.pcs[u])
    ensures |s.shares| == |s.pcs|
    ensures s.byWriter.Some? || (s.pcs[t].WrAsleep? && exists u :: 0 <= u < |s.pcs| && s.shares[u] > 0)
  {
    ReachableInv(s);
    assert SleeperOk(s, t);
    if s.byWriter == None { SomeReads(s.shares); }
  }
}
