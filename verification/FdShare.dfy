/** Descriptions shared between fds and calls: what the counts are for, over every interleaving of
    the threads that look fds up, use them, copy them and close them. The table's lock is held shared
    to look an fd up and exclusively to change one; a step with the lock held exclusively is the whole
    change, which `FdTable` is proved to make. */
module FdShare {
  import opened Runs
  import opened FdTable

  /** A description: how many fds and calls have it, and how often its handle was closed. */
  datatype Desc = Desc(refs: int, closes: nat)

  /** Where a description is to be put: at the lowest free fd, or at one fd. */
  datatype Where = Lowest(from: nat) | Exactly(fd: nat)

  /** What a look-up is for: a call on the fd, or a copy of it. Copied onto itself an fd is only looked
      up, as by a call. */
  datatype Purpose = Call | Copy(at: Where)

  datatype Pc =
    | Out
    | GetLock(fd: nat, p: Purpose)
    | GetRead(fd: nat, p: Purpose)               // holds the lock shared
    | GetRetain(fd: nat, d: nat, p: Purpose)     // holds the lock shared
    | GetUnlock(got: Option<nat>, p: Purpose)    // holds the lock shared
    | Using(d: nat)
    | PutLock(d: nat, at: Where)
    | Put(d: nat, at: Where)                     // holds the lock
    | TakeLock(fd: nat)
    | Take(fd: nat)                              // holds the lock
    | Unlock(drop: Option<nat>)                  // holds the lock
    | Release(d: nat)
    | Close(d: nat)                              // its count reached 0

  datatype Files = Files(slots: seq<Slot>, descs: seq<Desc>, shared: set<nat>, locked: Option<nat>, pcs: seq<Pc>)

  /** Each description at the start is as counted as the slots say. */
  ghost predicate Initial(s: Files) {
    && FIRST_CAP <= |s.slots| <= FD_MAX && s.shared == {} && s.locked == None
    && (forall t :: 0 <= t < |s.pcs| ==> s.pcs[t] == Out)
    && (forall i :: 0 <= i < |s.slots| ==> s.slots[i].ofd.Some? ==> s.slots[i].ofd.value < |s.descs|)
    && forall d :: 0 <= d < |s.descs| ==> s.descs[d] == Desc(Named(s.slots, d), 0) && Named(s.slots, d) > 0
  }

  /** The standard handles' table, as it is made, is counted so. */
  lemma StandardInitial(handles: seq<Option<nat>>, memory: seq<bool>, slots: seq<Slot>, ofds: seq<Ofd>, threads: nat)
    requires FIRST_CAP == |slots| && |handles| == 3 && Matched(handles, memory, slots, ofds, 3)
    ensures Initial(Files(slots, Each((o: Ofd) => Desc(o.refs, 0), ofds), {}, None, seq(threads, _ => Out)))
  {
    forall i | 0 <= i < |slots| && slots[i].ofd.Some? ensures slots[i].ofd.value < |ofds| {
      if i < 3 { assert StandardOk(handles, memory, slots, ofds, i); }
    }
  }

  /** The description that a thread there has a reference to. */
  function Ref(pc: Pc): Option<nat> {
    match pc
    case GetUnlock(got, _) => got
    case Using(d) => Some(d)
    case PutLock(d, _) => Some(d)
    case Put(d, _) => Some(d)
    case Unlock(drop) => drop
    case Release(d) => Some(d)
    case _ => None
  }

  /** How many threads have a reference to `d`. */
  function Held(pcs: seq<Pc>, d: nat): nat {
    if pcs == [] then 0 else (if Ref(pcs[0]) == Some(d) then 1 else 0) + Held(pcs[1..], d)
  }

  /** How many threads are about to close the handle of `d`. */
  function Closing(pcs: seq<Pc>, d: nat): nat {
    if pcs == [] then 0 else (if pcs[0] == Close(d) then 1 else 0) + Closing(pcs[1..], d)
  }

  datatype Move =
    | CallOpen(t: nat, from: nat)        // a new description, to be given an fd
    | CallGet(t: nat, fd: nat, p: Purpose)
    | CallClose(t: nat, fd: nat)
    | Go(t: nat, memory: bool)           // `memory` is what the allocator answers, if asked

  predicate HasShared(pc: Pc) {
    pc.GetRead? || pc.GetRetain? || pc.GetUnlock?
  }

  predicate HasLock(pc: Pc) {
    pc.Put? || pc.Take? || pc.Unlock?
  }

  ghost predicate Enabled(s: Files, mv: Move) {
    && mv.t < |s.pcs|
    && match mv
       case CallOpen(t, _) => s.pcs[t].Out?
       case CallGet(t, _, _) => s.pcs[t].Out?
       case CallClose(t, _) => s.pcs[t].Out?
       case Go(t, _) =>
         && !s.pcs[t].Out?
         && (s.pcs[t].GetLock? ==> s.locked == None)
         && (s.pcs[t].PutLock? || s.pcs[t].TakeLock? ==> s.locked == None && s.shared == {})
  }

  function To(s: Files, t: nat, pc: Pc): Files
    requires t < |s.pcs|
  {
    s.(pcs := s.pcs[t := pc])
  }

  function Count(s: Files, d: nat, n: int): Files {
    if d >= |s.descs| then s else s.(descs := s.descs[d := s.descs[d].(refs := s.descs[d].refs + n)])
  }

  /** The fd a description is put at, the table then, and what was there; nothing where there is no fd
      for it or no memory. */
  function Placed(slots: seq<Slot>, d: nat, at: Where, memory: bool): (r: Option<(nat, seq<Slot>, Option<nat>)>)
    requires 0 < |slots| <= FD_MAX
    ensures r.Some? ==> |slots| <= |r.value.1| <= FD_MAX
  {
    var fd := match at case Lowest(from) => LowestFree(slots, from) case Exactly(fd) => fd;
    if fd >= FD_MAX || (fd >= |slots| && !memory) then None else
    var roomy := Reserved(slots, fd);
    Some((fd, roomy[fd := Slot(Some(d), false)], roomy[fd].ofd))
  }

  function Advance(s: Files, t: nat, memory: bool): (r: Files)
    requires t < |s.pcs| && 0 < |s.slots| <= FD_MAX
    ensures |r.pcs| == |s.pcs| && 0 < |r.slots| <= FD_MAX
  {
    match s.pcs[t]
    case GetLock(fd, p) => To(s, t, GetRead(fd, p)).(shared := s.shared + {t})
    case GetRead(fd, p) =>
      To(s, t, if fd < |s.slots| && s.slots[fd].ofd.Some? then GetRetain(fd, s.slots[fd].ofd.value, p) else GetUnlock(None, p))
    case GetRetain(_, d, p) => To(Count(s, d, 1), t, GetUnlock(Some(d), p))
    case GetUnlock(got, p) =>
      To(s, t, match got
               case None => Out
               case Some(d) => if p.Call? then Using(d) else PutLock(d, p.at)).(shared := s.shared - {t})
    case Using(d) => To(s, t, Release(d))
    case PutLock(d, at) =>
      if at.Exactly? && at.fd >= FD_MAX then To(s, t, Release(d))
      else To(s, t, Put(d, at)).(locked := Some(t))
    case Put(d, at) =>
      (match Placed(s.slots, d, at, memory)
       case None => To(s, t, Unlock(Some(d)))
       case Some(r) => To(s, t, Unlock(r.2)).(slots := r.1))
    case TakeLock(fd) => To(s, t, Take(fd)).(locked := Some(t))
    case Take(fd) =>
      if fd < |s.slots| && s.slots[fd].ofd.Some? then To(s, t, Unlock(s.slots[fd].ofd)).(slots := s.slots[fd := EMPTY])
      else To(s, t, Unlock(None))
    case Unlock(drop) => To(s, t, if drop.Some? then Release(drop.value) else Out).(locked := None)
    case Release(d) =>
      To(Count(s, d, -1), t, if d < |s.descs| && s.descs[d].refs == 1 then Close(d) else Out)
    case Close(d) =>
      (if d < |s.descs| then To(s, t, Out).(descs := s.descs[d := s.descs[d].(closes := s.descs[d].closes + 1)]) else To(s, t, Out))
    case Out => s
  }

  function Apply(s: Files, mv: Move): (r: Files)
    requires mv.t < |s.pcs| && 0 < |s.slots| <= FD_MAX
    ensures |r.pcs| == |s.pcs| && 0 < |r.slots| <= FD_MAX
  {
    match mv
    case CallOpen(t, from) => To(s, t, PutLock(|s.descs|, Lowest(from))).(descs := s.descs + [Desc(1, 0)])
    case CallGet(t, fd, p) => To(s, t, GetLock(fd, if p == Copy(Exactly(fd)) then Call else p))
    case CallClose(t, fd) => To(s, t, TakeLock(fd))
    case Go(t, memory) => Advance(s, t, memory)
  }

  ghost predicate Step(s: Files, mv: Move, s': Files) {
    0 < |s.slots| <= FD_MAX && Enabled(s, mv) && s' == Apply(s, mv)
  }

  ghost predicate Reachable(s: Files) {
    exists a: Files :: Initial(a) && Reaches(Step, a, s)
  }

  // ---------- counting ----------

  lemma {:induction false} HeldUpdate(pcs: seq<Pc>, t: nat, x: Pc, d: nat)
    requires t < |pcs|
    ensures Held(pcs[t := x], d) + (if Ref(pcs[t]) == Some(d) then 1 else 0) == Held(pcs, d) + (if Ref(x) == Some(d) then 1 else 0)
    ensures Ref(pcs[t]) == Some(d) ==> Held(pcs, d) > 0
  {
    if t == 0 {
      assert pcs[t := x][1..] == pcs[1..];
    } else {
      assert pcs[t := x][1..] == pcs[1..][t - 1 := x];
      HeldUpdate(pcs[1..], t - 1, x, d);
    }
  }

  lemma {:induction false} ClosingUpdate(pcs: seq<Pc>, t: nat, x: Pc, d: nat)
    requires t < |pcs|
    ensures Closing(pcs[t := x], d) + (if pcs[t] == Close(d) then 1 else 0) == Closing(pcs, d) + (if x == Close(d) then 1 else 0)
    ensures pcs[t] == Close(d) ==> Closing(pcs, d) > 0
  {
    if t == 0 {
      assert pcs[t := x][1..] == pcs[1..];
    } else {
      assert pcs[t := x][1..] == pcs[1..][t - 1 := x];
      ClosingUpdate(pcs[1..], t - 1, x, d);
    }
  }

  lemma {:induction false} NoneIdle(pcs: seq<Pc>, d: nat)
    requires forall t :: 0 <= t < |pcs| ==> pcs[t] == Out
    ensures Held(pcs, d) == 0 == Closing(pcs, d)
  {
    if pcs != [] { NoneIdle(pcs[1..], d); }
  }

  lemma {:induction false} NobodyBeyond(slots: seq<Slot>, pcs: seq<Pc>, d: nat)
    requires forall i :: 0 <= i < |slots| ==> slots[i].ofd != Some(d)
    requires forall t :: 0 <= t < |pcs| ==> Ref(pcs[t]) != Some(d) && pcs[t] != Close(d)
    ensures Named(slots, d) == 0 == Held(pcs, d) == Closing(pcs, d)
    decreases |slots| + |pcs|
  {
    if slots != [] {
      NobodyBeyond(slots[1..], pcs, d);
    } else if pcs != [] {
      NobodyBeyond(slots, pcs[1..], d);
    }
  }

  // ---------- the invariant ----------

  /** The count is of the fds that name it and the calls that have it; the handle is open while there
      are any, and once there are none it has been closed or one thread is about to. */
  ghost predicate DescOk(s: Files, d: nat)
    requires d < |s.descs|
  {
    && s.descs[d].refs == Named(s.slots, d) + Held(s.pcs, d)
    && s.descs[d].closes + Closing(s.pcs, d) == if s.descs[d].refs == 0 then 1 else 0
  }

  ghost predicate ThreadOk(s: Files, t: nat)
    requires t < |s.pcs|
  {
    && (HasShared(s.pcs[t]) <==> t in s.shared) && (HasLock(s.pcs[t]) <==> s.locked == Some(t))
    && (Ref(s.pcs[t]).Some? ==> Ref(s.pcs[t]).value < |s.descs|)
    && (s.pcs[t].Close? ==> s.pcs[t].d < |s.descs|)
    && (s.pcs[t].GetRetain? ==> s.pcs[t].fd < |s.slots| && s.slots[s.pcs[t].fd].ofd == Some(s.pcs[t].d))
    && (s.pcs[t].Put? && s.pcs[t].at.Exactly? ==> s.pcs[t].at.fd < FD_MAX)
  }

  ghost predicate SlotOk(s: Files, i: nat)
    requires i < |s.slots|
  {
    s.slots[i].ofd.Some? ==> s.slots[i].ofd.value < |s.descs|
  }

  ghost predicate Inv(s: Files) {
    && 0 < |s.slots| <= FD_MAX
    && (s.locked.Some? ==> s.locked.value < |s.pcs| && s.shared == {})
    && (forall t <- s.shared :: t < |s.pcs|)
    && (forall t :: 0 <= t < |s.pcs| ==> ThreadOk(s, t))
    && (forall i :: 0 <= i < |s.slots| ==> SlotOk(s, i))
    && (forall d :: 0 <= d < |s.descs| ==> DescOk(s, d))
  }

  /** A put moves a reference from the call to the table, and the one it displaces to the call. */
  lemma PlacedCounts(slots: seq<Slot>, d: nat, at: Where, memory: bool, x: nat)
    requires 0 < |slots| <= FD_MAX && Placed(slots, d, at, memory).Some?
    ensures var (fd, after, was) := Placed(slots, d, at, memory).value;
            && |slots| <= |after| <= FD_MAX && fd < |after| && after[fd].ofd == Some(d)
            && (forall i :: 0 <= i < |slots| && i != fd ==> after[i] == slots[i])
            && (forall i :: |slots| <= i < |after| && i != fd ==> after[i] == EMPTY)
            && was == (if fd < |slots| then slots[fd].ofd else None)
            && Named(after, x) + (if was == Some(x) then 1 else 0) == Named(slots, x) + (if d == x then 1 else 0)
  {
    hide Named, LowestFree, Doubled;
    var fd := Placed(slots, d, at, memory).value.0;
    var roomy := Reserved(slots, fd);
    assert roomy == slots + roomy[|slots|..];
    NamedBlank(slots, roomy[|slots|..], x);
    NamedUpdate(roomy, fd, Slot(Some(d), false), x);
  }

  /** How the slots and the thread's place change together, for one description. */
  lemma CountsMove(s: Files, mv: Move, s': Files, x: nat)
    requires Inv(s) && Step(s, mv, s')
    ensures |s'.pcs| == |s.pcs| && s'.pcs == s.pcs[mv.t := s'.pcs[mv.t]] && 0 < |s.slots| <= |s'.slots| <= FD_MAX
    ensures Held(s'.pcs, x) + (if Ref(s.pcs[mv.t]) == Some(x) then 1 else 0) == Held(s.pcs, x) + (if Ref(s'.pcs[mv.t]) == Some(x) then 1 else 0)
    ensures Closing(s'.pcs, x) + (if s.pcs[mv.t] == Close(x) then 1 else 0) == Closing(s.pcs, x) + (if s'.pcs[mv.t] == Close(x) then 1 else 0)
    ensures Ref(s.pcs[mv.t]) == Some(x) ==> Held(s.pcs, x) > 0
    ensures s.pcs[mv.t] == Close(x) ==> Closing(s.pcs, x) > 0
    ensures if mv.Go? && (s.pcs[mv.t].Put? || s.pcs[mv.t].Take?)
            then Named(s'.slots, x) + (if Ref(s'.pcs[mv.t]) == Some(x) then 1 else 0) == Named(s.slots, x) + (if Ref(s.pcs[mv.t]) == Some(x) then 1 else 0)
            else s'.slots == s.slots
  {
    hide Named, Held, Closing, ThreadOk, DescOk, SlotOk, Placed;
    assert s'.pcs == s.pcs[mv.t := s'.pcs[mv.t]];
    HeldUpdate(s.pcs, mv.t, s'.pcs[mv.t], x);
    ClosingUpdate(s.pcs, mv.t, s'.pcs[mv.t], x);
    if mv.Go? && s.pcs[mv.t].Put? {
      var pc := s.pcs[mv.t];
      if Placed(s.slots, pc.d, pc.at, mv.memory).Some? { PlacedCounts(s.slots, pc.d, pc.at, mv.memory, x); }
    } else if mv.Go? && s.pcs[mv.t].Take? {
      var fd := s.pcs[mv.t].fd;
      if fd < |s.slots| { NamedUpdate(s.slots, fd, EMPTY, x); }
    }
  }

  lemma NewDescOk(s: Files, t: nat, from: nat)
    requires Inv(s) && t < |s.pcs| && s.pcs[t].Out?
    ensures DescOk(Apply(s, CallOpen(t, from)), |s.descs|)
  {
    var n := |s.descs|;
    forall i | 0 <= i < |s.slots| ensures s.slots[i].ofd != Some(n) {
      assert SlotOk(s, i);
    }
    forall u | 0 <= u < |s.pcs| ensures Ref(s.pcs[u]) != Some(n) && s.pcs[u] != Close(n) {
      assert ThreadOk(s, u);
    }
    NobodyBeyond(s.slots, s.pcs, n);
    hide Named, Held, Closing;
    CountsMove(s, CallOpen(t, from), Apply(s, CallOpen(t, from)), n);
  }

  lemma DescKept(s: Files, mv: Move, s': Files, x: nat)
    requires Inv(s) && Step(s, mv, s') && x < |s'.descs|
    ensures DescOk(s', x)
  {
    if x == |s.descs| {
      NewDescOk(s, mv.t, mv.from);
    } else {
      assert DescOk(s, x) && ThreadOk(s, mv.t);
      CountsMove(s, mv, s', x);
      if mv.Go? && s.pcs[mv.t].GetRetain? { NamedUpdate(s.slots, s.pcs[mv.t].fd, EMPTY, x); }
      DescStep(s, mv, s', x);
    }
  }

  lemma DescStep(s: Files, mv: Move, s': Files, x: nat)
    requires Step(s, mv, s') && x < |s.descs| <= |s'.descs| && DescOk(s, x) && |s'.pcs| == |s.pcs|
    requires mv.Go? && s.pcs[mv.t].GetRetain? && s.pcs[mv.t].d == x ==> Named(s.slots, x) > 0
    requires Held(s'.pcs, x) + (if Ref(s.pcs[mv.t]) == Some(x) then 1 else 0) == Held(s.pcs, x) + (if Ref(s'.pcs[mv.t]) == Some(x) then 1 else 0)
    requires Closing(s'.pcs, x) + (if s.pcs[mv.t] == Close(x) then 1 else 0) == Closing(s.pcs, x) + (if s'.pcs[mv.t] == Close(x) then 1 else 0)
    requires Ref(s.pcs[mv.t]) == Some(x) ==> Held(s.pcs, x) > 0
    requires s.pcs[mv.t] == Close(x) ==> Closing(s.pcs, x) > 0
    requires if mv.Go? && (s.pcs[mv.t].Put? || s.pcs[mv.t].Take?)
             then Named(s'.slots, x) + (if Ref(s'.pcs[mv.t]) == Some(x) then 1 else 0) == Named(s.slots, x) + (if Ref(s.pcs[mv.t]) == Some(x) then 1 else 0)
             else s'.slots == s.slots
    ensures DescOk(s', x)
  {
    hide Named, Held, Closing, Placed;
  }

  lemma SlotsKept(s: Files, mv: Move, s': Files)
    requires Inv(s) && Step(s, mv, s')
    ensures |s'.descs| >= |s.descs| && forall i :: 0 <= i < |s'.slots| ==> SlotOk(s', i)
    ensures s'.slots != s.slots ==> s.locked == Some(mv.t)
    ensures 0 < |s.slots| <= |s'.slots| <= FD_MAX
  {
    hide Placed, DescOk;
    assert ThreadOk(s, mv.t);
    if mv.Go? && s.pcs[mv.t].Put? {
      var pc := s.pcs[mv.t];
      if Placed(s.slots, pc.d, pc.at, mv.memory).Some? { PlacedCounts(s.slots, pc.d, pc.at, mv.memory, 0); }
    }
    forall i | 0 <= i < |s'.slots| ensures SlotOk(s', i) {
      if i < |s.slots| { assert SlotOk(s, i); }
    }
  }

  lemma OtherKept(s: Files, mv: Move, s': Files, t: nat)
    requires Inv(s) && Step(s, mv, s') && t < |s.pcs| == |s'.pcs| && t != mv.t
    ensures ThreadOk(s', t)
  {
    hide Placed, DescOk, SlotOk;
    assert ThreadOk(s, t) && ThreadOk(s, mv.t);
    SlotsKept(s, mv, s');
    if s.pcs[t].GetRetain? { assert s'.slots == s.slots; }
  }

  lemma MoverKept(s: Files, mv: Move, s': Files)
    requires Inv(s) && Step(s, mv, s') && |s'.pcs| == |s.pcs|
    ensures ThreadOk(s', mv.t)
    ensures s'.locked.Some? ==> s'.locked.value < |s'.pcs| && s'.shared == {}
  {
    hide DescOk, Placed, SlotOk, Advance;
    assert ThreadOk(s, mv.t);
    if mv.Go? { AdvanceKeeps(s, mv.t, mv.memory); }
  }

  lemma AdvanceKeeps(s: Files, t: nat, memory: bool)
    requires Inv(s) && Enabled(s, Go(t, memory))
    ensures |Advance(s, t, memory).pcs| == |s.pcs| && ThreadOk(Advance(s, t, memory), t)
    ensures var n := Advance(s, t, memory); n.locked.Some? ==> n.locked.value < |n.pcs| && n.shared == {}
  {
    hide DescOk, SlotOk, Placed;
    assert ThreadOk(s, t);
    var pc := s.pcs[t];
    if (pc.Take? || pc.GetRead? || pc.GetRetain?) && pc.fd < |s.slots| { SlotNamed(s, pc.fd); }
    if pc.Put? { PutKeeps(s, t, memory); }
  }

  lemma SlotNamed(s: Files, fd: nat)
    requires Inv(s) && fd < |s.slots|
    ensures s.slots[fd].ofd.Some? ==> s.slots[fd].ofd.value < |s.descs|
  {
    hide DescOk, ThreadOk;
    assert SlotOk(s, fd);
  }

  lemma PutKeeps(s: Files, t: nat, memory: bool)
    requires Inv(s) && t < |s.pcs| && s.pcs[t].Put?
    ensures var r := Placed(s.slots, s.pcs[t].d, s.pcs[t].at, memory);
            r.Some? && r.value.2.Some? ==> r.value.2.value < |s.descs|
  {
    hide DescOk, ThreadOk, SlotOk, Placed;
    var pc := s.pcs[t];
    if Placed(s.slots, pc.d, pc.at, memory).Some? {
      PlacedCounts(s.slots, pc.d, pc.at, memory, 0);
      var fd := Placed(s.slots, pc.d, pc.at, memory).value.0;
      if fd < |s.slots| { SlotNamed(s, fd); }
    }
  }

  lemma SharedKept(s: Files, mv: Move, s': Files)
    requires Step(s, mv, s')
    ensures mv.t < |s.pcs| && s'.shared <= s.shared + {mv.t}
  {
  }

  lemma StepKeeps(s: Files, mv: Move, s': Files)
    requires Inv(s) && Step(s, mv, s')
    ensures Inv(s')
  {
    hide Step, DescOk, SlotOk;
    CountsMove(s, mv, s', 0);
    SlotsKept(s, mv, s');
    MoverKept(s, mv, s');
    SharedKept(s, mv, s');
    forall t | 0 <= t < |s'.pcs| ensures ThreadOk(s', t) {
      if t != mv.t { OtherKept(s, mv, s', t); }
    }
    forall d | 0 <= d < |s'.descs| ensures DescOk(s', d) {
      DescKept(s, mv, s', d);
    }
  }

  lemma ReachableInv(s: Files)
    requires Reachable(s)
    ensures Inv(s)
  {
    var a: Files :| Initial(a) && Reaches(Step, a, s);
    forall d | 0 <= d < |a.descs| ensures DescOk(a, d) {
      NoneIdle(a.pcs, d);
    }
    assert Inv(a);
    forall x, mv, y | Inv(x) && Step(x, mv, y) ensures Inv(y) {
      StepKeeps(x, mv, y);
    }
    Kept(Step, Inv, a, s);
  }

  // ---------- what the counts are for ----------

  /** A description is counted for each fd that names it and each call that has it, no more and no
      less; its handle is closed once at most, and open while anything names it or has it. Once nothing
      does it has been closed, or one thread, and one only, is about to close it. */
  lemma CountsExact(s: Files, d: nat)
    requires Reachable(s) && d < |s.descs|
    ensures s.descs[d].refs == Named(s.slots, d) + Held(s.pcs, d) && s.descs[d].closes <= 1
    ensures Named(s.slots, d) + Held(s.pcs, d) > 0 ==> s.descs[d].closes == 0 && Closing(s.pcs, d) == 0
    ensures Named(s.slots, d) + Held(s.pcs, d) == 0 ==> s.descs[d].closes + Closing(s.pcs, d) == 1
  {
    ReachableInv(s);
    assert DescOk(s, d);
  }

  /** A call uses a handle, retains a description or puts it in the table only while it is open, and
      no fd ever names a closed one. */
  lemma NeverUsedClosed(s: Files, t: nat, fd: nat)
    requires Reachable(s) && t < |s.pcs| && fd < |s.slots|
    ensures var d := Ref(s.pcs[t]); d.Some? ==> d.value < |s.descs| && s.descs[d.value].closes == 0
    ensures s.pcs[t].GetRetain? ==> s.pcs[t].d < |s.descs| && s.descs[s.pcs[t].d].closes == 0 && s.descs[s.pcs[t].d].refs > 0
    ensures var d := s.slots[fd].ofd; d.Some? ==> d.value < |s.descs| && s.descs[d.value].closes == 0
  {
    ReachableInv(s);
    assert ThreadOk(s, t) && SlotOk(s, fd);
    var pc := s.pcs[t];
    if Ref(pc).Some? {
      assert DescOk(s, Ref(pc).value);
      HeldUpdate(s.pcs, t, Out, Ref(pc).value);
    }
    if pc.GetRetain? {
      assert SlotOk(s, pc.fd) && DescOk(s, pc.d);
      NamedUpdate(s.slots, pc.fd, EMPTY, pc.d);
    }
    if s.slots[fd].ofd.Some? {
      assert DescOk(s, s.slots[fd].ofd.value);
      NamedUpdate(s.slots, fd, EMPTY, s.slots[fd].ofd.value);
    }
  }

  /** With no call under way the counts are the fds', and exactly the descriptions that no fd names
      are closed: nothing is left open that nothing can reach. */
  lemma QuietMeansFds(s: Files, d: nat)
    requires Reachable(s) && d < |s.descs| && forall t :: 0 <= t < |s.pcs| ==> s.pcs[t] == Out
    ensures s.descs[d].refs == Named(s.slots, d)
    ensures s.descs[d].closes == if Named(s.slots, d) == 0 then 1 else 0
  {
    ReachableInv(s);
    assert DescOk(s, d);
    NoneIdle(s.pcs, d);
  }

  /** The table changes only while one thread has its lock and no look-up is part-way, so what a
      look-up read is still there when it takes its reference. */
  lemma ChangedUnderLock(s: Files, mv: Move, s': Files)
    requires Reachable(s) && Step(s, mv, s') && s'.slots != s.slots
    ensures s.locked == Some(mv.t) && s.shared == {} && mv.Go? && (s.pcs[mv.t].Put? || s.pcs[mv.t].Take?)
  {
    ReachableInv(s);
    SlotsKept(s, mv, s');
  }

  /** What an fd names, if anything. */
  function At(slots: seq<Slot>, fd: nat): Option<nat> {
    if fd < |slots| then slots[fd].ofd else None
  }

  /** No fd changes but this one. */
  ghost predicate OnlyAt(slots: seq<Slot>, slots': seq<Slot>, fd: nat) {
    forall i: nat :: i != fd ==> At(slots', i) == At(slots, i)
  }

  /** There is no fd for a description put there: all from there up are taken, it is past the limit, or
      it takes a larger table and there is no memory for one. */
  ghost predicate NoPlace(slots: seq<Slot>, at: Where, memory: bool) {
    match at
    case Exactly(fd) => fd >= FD_MAX || (fd >= |slots| && !memory)
    case Lowest(from) =>
      && (forall i :: from <= i < |slots| ==> slots[i].ofd.Some?)
      && (!memory || |slots| >= FD_MAX || from >= FD_MAX)
  }

  lemma PlacedExact(slots: seq<Slot>, d: nat, at: Where, memory: bool)
    requires 0 < |slots| <= FD_MAX
    ensures Placed(slots, d, at, memory).None? <==> NoPlace(slots, at, memory)
  {
    if at.Lowest? {
      var fd := LowestFree(slots, at.from);
      if at.from < FD_MAX && !NoPlace(slots, at, memory) && fd >= |slots| {
        assert forall i :: at.from <= i < |slots| ==> slots[i].ofd.Some?;
      }
    }
  }

  /** The fd a description is put at. */
  ghost predicate Goes(slots: seq<Slot>, at: Where, fd: nat) {
    match at
    case Exactly(x) => fd == x
    case Lowest(from) => from <= fd && At(slots, fd) == None && forall i :: from <= i < fd ==> At(slots, i).Some?
  }

  lemma PutStep(s: Files, t: nat, d: nat, at: Where, memory: bool) returns (fd: nat)
    requires t < |s.pcs| && s.pcs[t] == Put(d, at) && 0 < |s.slots| <= FD_MAX
    ensures var r := Advance(s, t, memory);
            if NoPlace(s.slots, at, memory) then r == To(s, t, Unlock(Some(d)))
            else
              && At(r.slots, fd) == Some(d) && OnlyAt(s.slots, r.slots, fd) && Goes(s.slots, at, fd)
              && r == To(s, t, Unlock(At(s.slots, fd))).(slots := r.slots)
  {
    PlacedExact(s.slots, d, at, memory);
    fd := 0;
    if Placed(s.slots, d, at, memory).Some? {
      PlacedCounts(s.slots, d, at, memory, 0);
      fd := Placed(s.slots, d, at, memory).value.0;
      hide NoPlace, Named, Reserved, Doubled;
    }
  }

  /** A put gives its description the fd named, or the lowest free one, takes what was there for the
      call to let go of, and leaves every other fd alone; where there is no fd for it nothing changes
      and the call has it to let go of still. */
  lemma PutsWhereTold(s: Files, t: nat, memory: bool)
    requires Reachable(s) && t < |s.pcs| && s.pcs[t].Put?
    ensures 0 < |s.slots| <= FD_MAX
    ensures var (d, at, r) := (s.pcs[t].d, s.pcs[t].at, Advance(s, t, memory));
            if NoPlace(s.slots, at, memory) then r == To(s, t, Unlock(Some(d)))
            else exists fd: nat ::
                   && At(r.slots, fd) == Some(d) && OnlyAt(s.slots, r.slots, fd) && Goes(s.slots, at, fd)
                   && r == To(s, t, Unlock(At(s.slots, fd))).(slots := r.slots)
  {
    ReachableInv(s);
    hide Advance, Inv, NoPlace;
    var fd := PutStep(s, t, s.pcs[t].d, s.pcs[t].at, memory);
  }

  /** A close empties its fd and no other, and has just what that named to let go of. */
  lemma TakeEmpties(s: Files, t: nat, memory: bool)
    requires Reachable(s) && t < |s.pcs| && s.pcs[t].Take?
    ensures 0 < |s.slots| <= FD_MAX
    ensures var (fd, r) := (s.pcs[t].fd, Advance(s, t, memory));
            At(r.slots, fd) == None && OnlyAt(s.slots, r.slots, fd) && r.pcs[t] == Unlock(At(s.slots, fd))
  {
    ReachableInv(s);
  }

  /** A look-up gets just what its fd names, at the time it takes its reference. */
  lemma LookUpGets(s: Files, t: nat, memory: bool)
    requires Reachable(s) && t < |s.pcs|
    ensures 0 < |s.slots| <= FD_MAX
    ensures s.pcs[t].GetRead? ==>
              var (fd, p) := (s.pcs[t].fd, s.pcs[t].p);
              Advance(s, t, memory) == To(s, t, match At(s.slots, fd) case Some(d) => GetRetain(fd, d, p) case None => GetUnlock(None, p))
    ensures s.pcs[t].GetRetain? ==>
              var (fd, d, r) := (s.pcs[t].fd, s.pcs[t].d, Advance(s, t, memory));
              && At(s.slots, fd) == Some(d) && d < |s.descs| && r.pcs[t] == GetUnlock(Some(d), s.pcs[t].p) && r.slots == s.slots
              && r.descs == s.descs[d := s.descs[d].(refs := s.descs[d].refs + 1)]
  {
    ReachableInv(s);
    assert ThreadOk(s, t);
    if s.pcs[t].GetRetain? { assert SlotOk(s, s.pcs[t].fd); }
  }

  // ---------- whole calls ----------

  /** The thread's steps by itself, up to `n` of them, while no other moves. */
  function Alone(s: Files, t: nat, memory: bool, n: nat): (r: Files)
    requires t < |s.pcs| && 0 < |s.slots| <= FD_MAX
    ensures |r.pcs| == |s.pcs| && 0 < |r.slots| <= FD_MAX
    decreases n
  {
    if n == 0 then s else Alone(Apply(s, Go(t, memory)), t, memory, n - 1)
  }

  /** The lock is nobody's. */
  ghost predicate Idle(s: Files, t: nat) {
    Inv(s) && t < |s.pcs| && s.pcs[t] == Out && s.locked == None && s.shared == {}
  }

  lemma {:induction false} Rests(s: Files, t: nat, memory: bool, n: nat)
    requires t < |s.pcs| && s.pcs[t] == Out && 0 < |s.slots| <= FD_MAX
    ensures Alone(s, t, memory, n) == s
    decreases n
  {
    if n > 0 { Rests(s, t, memory, n - 1); }
  }

  /** A reference let go of: the handle is closed with the last. */
  function LetGo(s: Files, d: nat): Files {
    if d >= |s.descs| then s else
    var left := s.descs[d].refs - 1;
    s.(descs := s.descs[d := Desc(left, s.descs[d].closes + (if left == 0 then 1 else 0))])
  }

  lemma Unlocks(s: Files, t: nat, memory: bool)
    requires t < |s.pcs| && s.pcs[t].Unlock? && 0 < |s.slots| <= FD_MAX
    requires s.pcs[t].drop.Some? ==> s.pcs[t].drop.value < |s.descs|
    ensures var drop := s.pcs[t].drop;
            Alone(s, t, memory, 3) == if drop.Some? then LetGo(To(s, t, Out).(locked := None), drop.value) else To(s, t, Out).(locked := None)
  {
    var b := Advance(s, t, memory);
    assert Alone(s, t, memory, 3) == Alone(b, t, memory, 2);
    if s.pcs[t].drop.None? {
      Rests(b, t, memory, 2);
    } else {
      var c := Advance(b, t, memory);
      assert Alone(b, t, memory, 2) == Alone(c, t, memory, 1);
      var d := Advance(c, t, memory);
      assert Alone(c, t, memory, 1) == Alone(d, t, memory, 0);
      assert d.pcs == s.pcs[t := Out];
    }
  }

  /** A close with nobody in the way: its fd names nothing, every other what it did, and the description
      it named has one reference less, its handle closed with the last. */
  lemma CloseAlone(s: Files, t: nat, fd: nat)
    requires Idle(s, t)
    ensures var r := Alone(Apply(s, CallClose(t, fd)), t, true, 5);
            match At(s.slots, fd)
            case None => r == s
            case Some(d) => r == LetGo(s.(slots := s.slots[fd := EMPTY]), d)
  {
    var a := Apply(s, CallClose(t, fd));
    var b := Advance(a, t, true);
    var c := Advance(b, t, true);
    assert Alone(a, t, true, 5) == Alone(b, t, true, 4) == Alone(c, t, true, 3);
    if fd < |s.slots| { assert SlotOk(s, fd); }
    Unlocks(c, t, true);
    assert s.pcs[t := Out] == s.pcs;
  }

  lemma {:induction false} AloneOn(s: Files, t: nat, memory: bool, m: nat, n: nat)
    requires t < |s.pcs| && 0 < |s.slots| <= FD_MAX
    ensures Alone(s, t, memory, m + n) == Alone(Alone(s, t, memory, m), t, memory, n)
    decreases m
  {
    if m > 0 { AloneOn(Advance(s, t, memory), t, memory, m - 1, n); }
  }

  /** A look-up with nobody in the way. */
  lemma GetsAlone(s: Files, t: nat, fd: nat, p: Purpose, memory: bool)
    requires Idle(s, t)
    ensures var r := Alone(To(s, t, GetLock(fd, p)), t, memory, 4);
            match At(s.slots, fd)
            case None => r == s
            case Some(d) => d < |s.descs| && s.descs[d].refs > 0 && r == To(Count(s, d, 1), t, if p.Call? then Using(d) else PutLock(d, p.at))
  {
    var a := To(s, t, GetLock(fd, p));
    var b := Advance(a, t, memory);
    var c := Advance(b, t, memory);
    var d := Advance(c, t, memory);
    assert Alone(a, t, memory, 4) == Alone(b, t, memory, 3) == Alone(c, t, memory, 2) == Alone(d, t, memory, 1);
    assert Alone(d, t, memory, 1) == Alone(Advance(d, t, memory), t, memory, 0);
    assert s.pcs[t := Out] == s.pcs;
    if fd < |s.slots| && s.slots[fd].ofd.Some? {
      assert SlotOk(s, fd) && DescOk(s, s.slots[fd].ofd.value);
      NamedUpdate(s.slots, fd, EMPTY, s.slots[fd].ofd.value);
    }
  }

  lemma LetsGoAlone(s: Files, t: nat, d: nat, memory: bool, n: nat)
    requires t < |s.pcs| && s.pcs[t] == Release(d) && d < |s.descs| && 0 < |s.slots| <= FD_MAX && n >= 2
    ensures Alone(s, t, memory, n) == LetGo(To(s, t, Out), d)
  {
    var b := Advance(s, t, memory);
    var c := Advance(b, t, memory);
    assert Alone(s, t, memory, n) == Alone(b, t, memory, n - 1) == Alone(c, t, memory, n - 2);
    assert c.pcs == s.pcs[t := Out];
    Rests(c, t, memory, n - 2);
  }

  /** A reference taken and let go of again, others being left, changes nothing. */
  lemma TakenAndLetGo(s: Files, d: nat)
    requires d < |s.descs| && s.descs[d].refs > 0
    ensures LetGo(Count(s, d, 1), d) == s
  {
    assert LetGo(Count(s, d, 1), d).descs == s.descs;
  }

  /** A call on an fd, with nobody in the way, leaves everything as it was. */
  lemma UseAlone(s: Files, t: nat, fd: nat, memory: bool)
    requires Idle(s, t)
    ensures Alone(Apply(s, CallGet(t, fd, Call)), t, memory, 7) == s
  {
    var a := Apply(s, CallGet(t, fd, Call));
    GetsAlone(s, t, fd, Call, memory);
    AloneOn(a, t, memory, 4, 3);
    hide Idle;
    match At(s.slots, fd)
    case None => Rests(s, t, memory, 3);
    case Some(d) =>
      var u := To(Count(s, d, 1), t, Using(d));
      var v := Advance(u, t, memory);
      assert Alone(u, t, memory, 3) == Alone(v, t, memory, 2);
      LetsGoAlone(v, t, d, memory, 2);
      TakenAndLetGo(s, d);
      assert s.pcs[t := Out] == s.pcs && To(v, t, Out).pcs == s.pcs[t := Out];
      assert To(v, t, Out) == Count(s, d, 1);
  }

  /** What putting `d` there, which the call has a reference to, comes to. */
  ghost predicate PutAt(s: Files, d: nat, at: Where, memory: bool, r: Files) {
    if NoPlace(s.slots, at, memory) then r == LetGo(s, d)
    else exists fd: nat, slots: seq<Slot> ::
           && At(slots, fd) == Some(d) && OnlyAt(s.slots, slots, fd) && Goes(s.slots, at, fd)
           && r == match At(s.slots, fd) case None => s.(slots := slots) case Some(x) => LetGo(s.(slots := slots), x)
  }

  lemma PutSteps(s: Files, t: nat, d: nat, at: Where, memory: bool)
    requires t < |s.pcs| && s.pcs[t] == Put(d, at) && d < |s.descs| && 0 < |s.slots| <= FD_MAX
    requires forall i :: 0 <= i < |s.slots| && s.slots[i].ofd.Some? ==> s.slots[i].ofd.value < |s.descs|
    ensures PutAt(To(s, t, Out).(locked := None), d, at, memory, Alone(s, t, memory, 4))
  {
    var fd := PutStep(s, t, d, at, memory);
    var c := Advance(s, t, memory);
    assert Alone(s, t, memory, 4) == Alone(c, t, memory, 3);
    hide Advance, Alone, NoPlace, Goes, OnlyAt;
    Unlocks(c, t, memory);
    assert To(c, t, Out).pcs == s.pcs[t := Out];
  }

  lemma PutsAlone(s: Files, t: nat, d: nat, at: Where, memory: bool)
    requires t < |s.pcs| && s.locked == None && d < |s.descs| && 0 < |s.slots| <= FD_MAX
    requires forall i :: 0 <= i < |s.slots| && s.slots[i].ofd.Some? ==> s.slots[i].ofd.value < |s.descs|
    ensures PutAt(To(s, t, Out), d, at, memory, Alone(To(s, t, PutLock(d, at)), t, memory, 5))
  {
    var a := To(s, t, PutLock(d, at));
    var b := Advance(a, t, memory);
    assert Alone(a, t, memory, 5) == Alone(b, t, memory, 4);
    if at.Exactly? && at.fd >= FD_MAX {
      LetsGoAlone(b, t, d, memory, 4);
      assert To(b, t, Out) == To(s, t, Out);
    } else {
      hide PutAt, Alone;
      PutSteps(b, t, d, at, memory);
      assert To(b, t, Out).(locked := None) == To(s, t, Out);
    }
  }

  /** A copy with nobody in the way: the fd it goes to names what the other does, with one reference more,
      and what it named has one less; onto itself, from an fd that names nothing, or with no place for
      it, nothing changes. */
  lemma CopyAlone(s: Files, t: nat, fd: nat, at: Where, memory: bool)
    requires Idle(s, t) && at != Exactly(fd)
    ensures var r := Alone(Apply(s, CallGet(t, fd, Copy(at))), t, memory, 9);
            match At(s.slots, fd)
            case None => r == s
            case Some(d) => d < |s.descs| && PutAt(Count(s, d, 1), d, at, memory, r) && (NoPlace(s.slots, at, memory) ==> r == s)
    ensures Alone(Apply(s, CallGet(t, fd, Copy(Exactly(fd)))), t, memory, 7) == s
  {
    UseAlone(s, t, fd, memory);
    var a := Apply(s, CallGet(t, fd, Copy(at)));
    GetsAlone(s, t, fd, Copy(at), memory);
    AloneOn(a, t, memory, 4, 5);
    hide Alone, NoPlace, Advance;
    match At(s.slots, fd)
    case None => Rests(s, t, memory, 5);
    case Some(d) =>
      NamedThere(s);
      hide Inv;
      PutsAlone(Count(s, d, 1), t, d, at, memory);
      assert s.pcs[t := Out] == s.pcs;
      TakenAndLetGo(s, d);
  }

  lemma NamedThere(s: Files)
    requires Inv(s)
    ensures 0 < |s.slots| <= FD_MAX && forall i :: 0 <= i < |s.slots| && s.slots[i].ofd.Some? ==> s.slots[i].ofd.value < |s.descs|
  {
    forall i | 0 <= i < |s.slots| && s.slots[i].ofd.Some? ensures s.slots[i].ofd.value < |s.descs| {
      assert SlotOk(s, i);
    }
  }

  /** A new description is put at the lowest free fd, or, with no place for it, closed. */
  lemma OpenAlone(s: Files, t: nat, from: nat, memory: bool)
    requires Idle(s, t)
    ensures PutAt(s.(descs := s.descs + [Desc(1, 0)]), |s.descs|, Lowest(from), memory, Alone(Apply(s, CallOpen(t, from)), t, memory, 5))
  {
    var n := s.(descs := s.descs + [Desc(1, 0)]);
    NamedThere(s);
    hide Inv;
    PutsAlone(n, t, |s.descs|, Lowest(from), memory);
    assert s.pcs[t := Out] == s.pcs;
  }

  /** No two calls hold each other up: while any is under way, one that is can go on. */
  lemma SomeoneGoes(s: Files, t: nat)
    requires Reachable(s) && t < |s.pcs| && s.pcs[t] != Out
    ensures exists u, memory :: 0 <= u < |s.pcs| && s.pcs[u] != Out && Enabled(s, Go(u, memory))
  {
    ReachableInv(s);
    assert ThreadOk(s, t);
    if s.locked.Some? {
      assert ThreadOk(s, s.locked.value);
      assert Enabled(s, Go(s.locked.value, true));
    } else if u :| u in s.shared {
      assert ThreadOk(s, u) && Enabled(s, Go(u, true));
    } else {
      assert Enabled(s, Go(t, true));
    }
  }
}
