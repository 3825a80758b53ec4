/** The io_uring backend: two rings of free-running 32-bit indices shared with the kernel. The kernel's
    side is two steps of its own, with what the kernel is taken to keep to. */
module Uring {
  import opened Bits
  import opened Runs

  class UringTask {
    var ioRes: int

    constructor ()
    {
      ioRes := 0;
    }
  }

  /** A completion posted: for which entry, whose task and with what result. */
  datatype Posted = Posted(entry: nat, task: UringTask, res: int)

  class Ring {
    const sqBits: nat
    const cqBits: nat
    var sqHead: nat
    var sqTail: nat
    var cqHead: nat
    var cqTail: nat
    const sqes: array<UringTask?>        // each entry's user data
    const sqArray: array<nat>
    const cqData: array<UringTask?>      // each completion's user data and result
    const cqRes: array<int>
    var inflight: int
    var ready: seq<UringTask>            // tasks put on the run queue, in order

    // The task of every entry ever published, none while it is only claimed; for every wait ever made
    // the entry the kernel took at it, if it accepted; every completion ever posted, and how many of
    // them were reaped. The words are the lengths of these, wrapped.
    ghost var entries: seq<UringTask?>
    ghost var took: seq<Option<nat>>
    ghost var log: seq<Posted>
    ghost var reaped: nat

    // The tasks whose wait was accepted and that were not made ready since.
    ghost var parked: set<UringTask>

    ghost function Taken(): nat
      reads `took
    {
      Accepted(took)
    }

    ghost predicate Shape() {
      && sqBits <= 31 && cqBits <= 31
      && sqes.Length == sqArray.Length == Pow2(sqBits) && cqData.Length == cqRes.Length == Pow2(cqBits)
      && sqes != cqData
    }

    /** The words, and how far apart they are. */
    ghost predicate Indices()
      reads `sqHead, `sqTail, `cqHead, `cqTail, `entries, `took, `log, `reaped
    {
      && Taken() <= |entries| <= Taken() + Pow2(sqBits) && reaped <= |log| <= reaped + Pow2(cqBits)
      && sqHead == Mod(Taken(), WORD) && sqTail == Mod(|entries|, WORD)
      && cqHead == Mod(reaped, WORD) && cqTail == Mod(|log|, WORD)
    }

    /** Each entry is claimed for one wait, and each accepted wait has the kernel take the next. */
    ghost predicate Waits()
      reads `entries, `took
    {
      && |took| <= |entries| <= |took| + 1
      && (forall i :: 0 <= i < |took| ==> entries[i] != null)
      && forall i :: 0 <= i < |took| && took[i].Some? ==> took[i].value == Accepted(took[..i])
    }

    /** Every entry the kernel is still to take is where the array says. */
    ghost predicate Entries()
      requires Shape()
      reads `took, `entries, sqes, sqArray
    {
      forall p :: Taken() <= p < |entries| ==>
        sqArray[Mod(p, Pow2(sqBits))] == Mod(p, Pow2(sqBits)) && sqes[Mod(p, Pow2(sqBits))] == entries[p]
    }

    /** Completions are posted for entries taken, once for each, and name the entry's task. */
    ghost predicate Log()
      reads `took, `entries, `log
    {
      && (forall i :: 0 <= i < |log| ==> log[i].entry < Taken() && log[i].entry < |entries| && entries[log[i].entry] == log[i].task)
      && forall i, j :: 0 <= i < j < |log| ==> log[i].entry != log[j].entry
    }

    ghost predicate Completions()
      requires Shape()
      reads `reaped, `log, cqData, cqRes
    {
      forall i :: reaped <= i < |log| ==>
        cqData[Mod(i, Pow2(cqBits))] == log[i].task && cqRes[Mod(i, Pow2(cqBits))] == log[i].res
    }

    ghost predicate Valid()
      reads this, sqes, sqArray, cqData, cqRes
    {
      && Shape() && Indices() && Waits() && Entries() && Log() && Completions()
      && inflight == Taken() - reaped
      && (Refused(took) == 0 ==> Own(entries, Taken(), log[..reaped], parked))
    }

    constructor (sqBits: nat, cqBits: nat)
      requires sqBits <= 31 && cqBits <= 31
      ensures Valid() && fresh(sqes) && fresh(sqArray) && fresh(cqData) && fresh(cqRes)
      ensures entries == [] && took == [] && log == [] && parked == {} && ready == []
      ensures this.sqBits == sqBits && this.cqBits == cqBits
    {
      this.sqBits, this.cqBits := sqBits, cqBits;
      sqHead, sqTail, cqHead, cqTail, inflight, ready := 0, 0, 0, 0, 0, [];
      sqes, sqArray := new UringTask?[Pow2(sqBits)](_ => null), new nat[Pow2(sqBits)](_ => 0);
      cqData, cqRes := new UringTask?[Pow2(cqBits)](_ => null), new int[Pow2(cqBits)](_ => 0);
      entries, took, log, reaped, parked := [], [], [], 0, {};
    }

    /** Entry `k` is one the kernel has yet to take. */
    ghost predicate KernelOwns(k: nat)
      reads `took, `entries
    {
      exists p :: Taken() <= p < |entries| && Mod(p, Pow2(sqBits)) == k
    }

    lemma NotOwned(n: nat, k: nat)
      requires Taken() <= n < Taken() + Pow2(sqBits) && k == Mod(n, Pow2(sqBits))
      ensures forall p :: Taken() <= p < n ==> Mod(p, Pow2(sqBits)) != k
    {
      hide Mod, Pow2;
      forall p | Taken() <= p < n ensures Mod(p, Pow2(sqBits)) != k {
        Distinct(p, n, Pow2(sqBits));
      }
    }

    /** Claim an entry and publish it; -1 where all are the kernel's, which is when as many waits were
        refused as there are entries. */
    method Claim() returns (k: int)
      requires Valid() && |took| == |entries|
      modifies `sqTail, `entries, sqes, sqArray
      ensures Valid() && (k == -1 <==> Refused(took) == Pow2(sqBits))
      ensures k != -1 ==>
                && 0 <= k < sqes.Length && k == Mod(|old(entries)|, Pow2(sqBits)) && entries == old(entries) + [null]
                && !old(KernelOwns(k)) && sqes[k] == null
                && forall j :: 0 <= j < sqes.Length && j != k ==> sqes[j] == old(sqes[j]) && sqArray[j] == old(sqArray[j])
      ensures k == -1 ==> entries == old(entries) && sqes[..] == old(sqes[..]) && sqArray[..] == old(sqArray[..])
    {
      hide And, Mod, Pow2, Inc, Sub, Accepted;
      RingFits(sqBits);
      SubWraps(|entries|, Taken());
      RefusedIs(took);
      if Sub(sqTail, sqHead) >= sqes.Length { return -1; }
      IndexMasks(|entries|, sqBits);
      k := And(sqTail, Pow2(sqBits) - 1);
      NotOwned(|entries|, k);
      sqes[k] := null;
      sqArray[k] := k;
      IncWraps(|entries|);
      sqTail := Inc(sqTail);
      entries := entries + [null];
      OwnClaims(old(entries), Taken(), log[..reaped], parked);
      assert Indices() && Waits() && Entries() && Log() && Completions();
    }

    /** The kernel takes the next entry published. What it reads there is returned. */
    method KernelTakes() returns (data: UringTask?)
      requires Shape() && Indices() && Waits() && Entries() && |took| < |entries|
      requires entries[|took|] != null
      modifies `sqHead, `took
      ensures Indices() && Waits() && Entries() && took == old(took) + [Some(Accepted(old(took)))]
      ensures data == entries[Accepted(old(took))]
    {
      hide And, Mod, Pow2, Inc, Accepted;
      IndexMasks(Taken(), sqBits);
      assert entries[Taken()] == sqes[Mod(Taken(), Pow2(sqBits))];
      data := sqes[sqArray[And(sqHead, Pow2(sqBits) - 1)]];
      IncWraps(Taken());
      AcceptedMore(took, Some(Taken()));
      assert forall i :: 0 <= i <= |took| ==> (took + [Some(Taken())])[..i] == took[..i];
      sqHead := Inc(sqHead);
      took := took + [Some(Taken())];
      assert Taken() == old(Taken()) + 1;
    }

    /** The user data goes into the entry claimed, and no other. */
    method WriteEntry(k: nat, t: UringTask)
      requires Valid() && |took| < |entries| && k == Mod(|entries| - 1, Pow2(sqBits))
      modifies `entries, sqes
      ensures Valid() && entries == old(entries)[|took| := t]
    {
      hide Mod, Pow2, Accepted, Own;
      NotOwned(|entries| - 1, k);
      OwnWrites(entries, Taken(), log[..reaped], parked, |took|, t);
      sqes[k] := t;
      entries := entries[|took| := t];
      assert Indices() && Waits() && Entries() && Log() && Completions();
    }

    /** The kernel takes nothing. */
    ghost method Refuse()
      requires Valid() && |took| < |entries| && entries[|took|] != null
      modifies `took
      ensures Valid() && took == old(took) + [None]
    {
      hide Mod, Pow2, Accepted, Own;
      AcceptedMore(took, None);
      assert forall i :: 0 <= i <= |took| ==> (took + [None])[..i] == took[..i];
      took := took + [None];
      assert Indices() && Waits() && Entries() && Log() && Completions();
    }

    /** The task is counted in and parked, and the kernel takes an entry. */
    method Accept(t: UringTask)
      requires Valid() && |took| < |entries| && entries[|took|] == t && t !in parked
      modifies `inflight, `parked, `sqHead, `took
      ensures Valid() && took == old(took) + [Some(Accepted(old(took)))]
      ensures parked == old(parked) + {t} && inflight == old(inflight) + 1
    {
      hide And, Mod, Pow2, Inc, Accepted, Own;
      AcceptedMore(took, Some(Accepted(took)));
      if Refused(took) == 0 { OwnAccepts(entries, Taken(), log[..reaped], parked, t); }
      inflight := inflight + 1;
      parked := parked + {t};
      var data := KernelTakes();
      assert Log() && Completions();
    }

    /** Submit the entry the task has just claimed, and park it there. The kernel, if it `accepts`, takes
        the entry published longest ago and not taken, which is the task's own exactly if no wait before
        was refused. If it does not accept, the task goes on, and its entry stays published. */
    method IoWait(k: nat, t: UringTask, accepts: bool) returns (ok: bool)
      requires Valid() && |took| < |entries| && k == Mod(|entries| - 1, Pow2(sqBits)) && t !in parked
      modifies `inflight, `parked, `sqHead, `entries, `took, sqes
      ensures Valid() && ok == accepts && entries == old(entries)[|old(took)| := t]
      ensures took == old(took) + [if ok then Some(Accepted(old(took))) else None]
      ensures parked == (if ok then old(parked) + {t} else old(parked)) && inflight == old(inflight) + (if ok then 1 else 0)
      ensures ok ==> (took[|old(took)|] == Some(|old(took)|) <==> forall j :: 0 <= j < |old(took)| ==> old(took)[j].Some?)
    {
      hide And, Mod, Pow2, Inc, Accepted;
      AllAccepted(took);
      WriteEntry(k, t);
      if !accepts {
        Refuse();
        return false;
      }
      Accept(t);
      return true;
    }

    /** The kernel has the entry and has posted nothing for it. */
    ghost predicate InKernel(e: nat)
      reads `took, `log
    {
      e < Taken() && forall i :: 0 <= i < |log| ==> log[i].entry != e
    }

    /** The kernel posts a completion: one for each entry it took, where there is room. */
    method KernelPosts(ghost e: nat, t: UringTask, res: int)
      requires Valid() && InKernel(e) && entries[e] == t && |log| - reaped < Pow2(cqBits)
      modifies `cqTail, `log, cqData, cqRes
      ensures Valid() && log == old(log) + [Posted(e, t, res)]
    {
      hide And, Mod, Pow2, Inc, Accepted, Own;
      IndexMasks(|log|, cqBits);
      var k := And(cqTail, Pow2(cqBits) - 1);
      NotPending(k);
      cqData[k] := t;
      cqRes[k] := res;
      IncWraps(|log|);
      cqTail := Inc(cqTail);
      log := log + [Posted(e, t, res)];
      assert log[..reaped] == old(log[..reaped]);
      assert Indices() && Entries() && Log() && Completions();
    }

    lemma NotPending(k: nat)
      requires Shape() && Indices() && |log| < reaped + Pow2(cqBits) && k == Mod(|log|, Pow2(cqBits))
      ensures forall i :: reaped <= i < |log| ==> Mod(i, Pow2(cqBits)) != k
    {
      hide Mod, Pow2;
      forall i | reaped <= i < |log| ensures Mod(i, Pow2(cqBits)) != k {
        Distinct(i, |log|, Pow2(cqBits));
      }
    }

    /** The completions posted and not reaped. */
    ghost function Pend(): seq<Posted>
      requires reaped <= |log|
      reads `log, `reaped
    {
      log[reaped..]
    }

    /** Where the head is while `n` completions have been consumed: the tail is reached when all have. */
    lemma HeadAt(n: nat)
      requires Shape() && Indices() && n <= |log| - reaped
      ensures Mod(reaped + n, WORD) == cqTail <==> n == |log| - reaped
      ensures And(Mod(reaped + n, WORD), Pow2(cqBits) - 1) == Mod(reaped + n, Pow2(cqBits))
      ensures Inc(Mod(reaped + n, WORD)) == Mod(reaped + n + 1, WORD)
    {
      hide Mod, Pow2, And, Inc;
      RingFits(cqBits);
      IndexMasks(reaped + n, cqBits);
      IncWraps(reaped + n);
      if n < |log| - reaped { Distinct(reaped + n, |log|, WORD); }
    }

    /** Every completion posted is consumed, once each and in the order posted; a task that several
        name is left with the result of the last. */
    method Poll()
      requires Valid()
      modifies `cqHead, `reaped, `inflight, `ready, `parked, All(Pend())
      ensures Valid() && reaped == |log|
      ensures ready == old(ready) + Tasks(old(Pend())) && parked == old(parked) - All(old(Pend()))
      ensures forall i :: 0 <= i < |old(Pend())| && LastOf(old(Pend()), i) ==> old(Pend())[i].task.ioRes == old(Pend())[i].res
      ensures Refused(took) == 0 ==> forall i :: 0 <= i < |old(Pend())| ==> LastOf(old(Pend()), i)
    {
      hide And, Mod, Pow2, Inc, Accepted, All, Tasks, Own;
      if Refused(took) == 0 { OwnLast(entries, Taken(), log, reaped, parked); }
      if inflight == 0 {
        NothingPends();
        return;
      }
      OwnReaps(entries, Taken(), log, reaped, parked);
      var head := Consume();
      StoreHead(head);
    }

    /** Every completion posted is gone, its task parked no more. */
    method StoreHead(head: nat)
      requires Shape() && Indices() && head == cqTail
      modifies `cqHead, `reaped, `parked
      ensures Indices() && reaped == |log| && parked == old(parked) - All(old(Pend()))
    {
      hide Mod, Pow2, All, Accepted;
      parked := parked - All(Pend());
      cqHead, reaped := head, |log|;
    }

    /** The loop of the poll, up to the store of the head it reaches. */
    method Consume() returns (head: nat)
      requires Valid()
      modifies `inflight, `ready, All(Pend())
      ensures head == cqTail && ready == old(ready) + Tasks(Pend()) && inflight == old(inflight) - |Pend()|
      ensures forall i :: 0 <= i < |Pend()| && LastOf(Pend(), i) ==> Pend()[i].task.ioRes == Pend()[i].res
    {
      hide And, Mod, Pow2, Inc, All, Tasks, Accepted, Own;
      NoTasks();
      assert Pend()[..0] == [];
      var tail := cqTail;
      head := cqHead;
      ghost var n := 0;
      while head != tail
        invariant n <= |Pend()| && head == Mod(reaped + n, WORD)
        invariant ready == old(ready) + Tasks(Pend()[..n]) && inflight == old(inflight) - n
        invariant forall i :: 0 <= i < n && LastOf(Pend()[..n], i) ==> Pend()[i].task.ioRes == Pend()[i].res
        decreases |Pend()| - n
      {
        HeadAt(n);
        InAll(Pend(), n);
        TasksMore(Pend(), n);
        LastMore(Pend(), n);
        ConsumeAt(And(head, Pow2(cqBits) - 1), n);
        head := Inc(head);
        n := n + 1;
      }
      HeadAt(n);
      assert Pend()[..n] == Pend();
    }

    /** One completion: its task gets its result and runs again. */
    method ConsumeAt(k: nat, ghost n: nat)
      requires Shape() && Completions() && reaped + n < |log| && k == Mod(reaped + n, Pow2(cqBits))
      modifies `inflight, `ready, log[reaped + n].task
      ensures log[reaped + n].task.ioRes == log[reaped + n].res
      ensures ready == old(ready) + [log[reaped + n].task] && inflight == old(inflight) - 1
    {
      hide Mod, Pow2;
      assert log[reaped + n].task == cqData[k] && log[reaped + n].res == cqRes[k];
      var t := cqData[k];
      if t != null {
        t.ioRes := cqRes[k];
        ready := ready + [t];
      }
      inflight := inflight - 1;
    }

    lemma NothingPends()
      requires Valid() && inflight == 0
      ensures reaped == |log| && All(Pend()) == {} && Tasks(Pend()) == []
    {
      hide Mod, Pow2, Accepted, Own, Entries, Completions;
      FewEnough(log, Taken());
    }

    // ---------- which entry a wait has taken ----------

    /** At an accepted wait the kernel takes not the entry claimed for it but the one as many places
        before it as waits were refused by then: its own exactly if none was. */
    lemma OwnEntryTaken(i: nat)
      requires Valid() && i < |took| && took[i].Some?
      ensures took[i].value == i - Refused(took[..i])
      ensures took[i].value == i <==> forall j :: 0 <= j < i ==> took[j].Some?
    {
      AllAccepted(took[..i]);
      assert forall j :: 0 <= j < i ==> took[..i][j] == took[j];
    }

    /** Each entry taken was taken at one wait, which is the wait it was claimed for or a later one; an
        accepted wait whose entry is not among them has its task parked on an operation that the kernel
        has yet to see, and no completion is posted for it. */
    lemma TakenOnce(e: nat)
      requires Valid() && e < |took|
      ensures e < Taken() <==> exists i :: e <= i < |took| && took[i] == Some(e)
      ensures forall i, j :: 0 <= i < j < |took| && took[i].Some? && took[j].Some? ==> took[i].value < took[j].value
      ensures e >= Taken() ==> forall i :: 0 <= i < |log| ==> log[i].entry != e
    {
      if e < Taken() {
        var i := WaitOf(took, e);
      }
      forall i, j | 0 <= i < j < |took| && took[i].Some? && took[j].Some? ensures took[i].value < took[j].value {
        AcceptedMore(took[..i], took[i]);
        assert took[..i] + [took[i]] == took[..i + 1];
        AcceptedGrows(took, i + 1, j);
      }
      forall i | 0 <= i < |took| && took[i].Some? ensures took[i].value < Taken() {
        AcceptedMore(took[..i], took[i]);
        assert took[..i] + [took[i]] == took[..i + 1];
        AcceptedGrows(took, i + 1, |took|);
        assert took[..|took|] == took;
      }
    }
  }

  ghost function All(q: seq<Posted>): set<UringTask> {
    set i | 0 <= i < |q| :: q[i].task
  }

  ghost function Tasks(q: seq<Posted>): seq<UringTask> {
    seq(|q|, i requires 0 <= i < |q| => q[i].task)
  }

  /** No later completion names the task of this one. */
  ghost predicate LastOf(q: seq<Posted>, i: nat)
    requires i < |q|
  {
    forall j :: i < j < |q| ==> q[j].task != q[i].task
  }

  lemma TasksMore(q: seq<Posted>, n: nat)
    requires n < |q|
    ensures Tasks(q[..n + 1]) == Tasks(q[..n]) + [q[n].task]
  {
  }

  lemma LastMore(q: seq<Posted>, n: nat)
    requires n < |q|
    ensures forall i :: 0 <= i < n && LastOf(q[..n + 1], i) ==> LastOf(q[..n], i) && q[i].task != q[n].task
  {
    forall i | 0 <= i < n && LastOf(q[..n + 1], i) ensures LastOf(q[..n], i) && q[i].task != q[n].task {
      assert q[..n + 1][n] == q[n];
      assert forall j :: 0 <= j < n ==> q[..n][j] == q[..n + 1][j];
    }
  }

  lemma NoTasks()
    ensures Tasks([]) == []
  {
  }

  lemma InAll(q: seq<Posted>, i: nat)
    requires i < |q|
    ensures q[i].task in All(q)
  {
  }

  /** Of entries below `n`, each posted once, no more than `n` are posted. */
  lemma {:induction false} FewEnough(log: seq<Posted>, n: nat)
    requires forall i :: 0 <= i < |log| ==> log[i].entry < n
    requires forall i, j :: 0 <= i < j < |log| ==> log[i].entry != log[j].entry
    ensures |log| <= n
    decreases n
  {
    if log != [] {
      assert 0 <= log[0].entry < n;
      if k :| 0 <= k < |log| && log[k].entry == n - 1 {
        FewEnough(log[..k] + log[k + 1..], n - 1);
      } else {
        FewEnough(log, n - 1);
      }
    }
  }

  /** How many of the waits the kernel accepted, and how many it refused. */
  function Accepted(took: seq<Option<nat>>): (n: nat)
    ensures n <= |took|
  {
    if took == [] then 0 else Accepted(took[..|took| - 1]) + (if took[|took| - 1].Some? then 1 else 0)
  }

  lemma AcceptedMore(took: seq<Option<nat>>, x: Option<nat>)
    ensures Accepted(took + [x]) == Accepted(took) + (if x.Some? then 1 else 0)
  {
    assert (took + [x])[..|took|] == took;
  }

  lemma {:induction false} AllAccepted(took: seq<Option<nat>>)
    ensures Accepted(took) == |took| <==> forall j :: 0 <= j < |took| ==> took[j].Some?
  {
    if took != [] { AllAccepted(took[..|took| - 1]); }
  }

  lemma {:induction false} AcceptedGrows(took: seq<Option<nat>>, i: nat, j: nat)
    requires i <= j <= |took|
    ensures Accepted(took[..i]) <= Accepted(took[..j])
  {
    if i < j {
      AcceptedGrows(took, i, j - 1);
      AcceptedMore(took[..j - 1], took[j - 1]);
      assert took[..j - 1] + [took[j - 1]] == took[..j];
    }
  }

  /** The wait that brought the number accepted past `e`. */
  lemma {:induction false} WaitOf(took: seq<Option<nat>>, e: nat) returns (i: nat)
    requires e < Accepted(took)
    ensures e <= i < |took| && took[i].Some? && Accepted(took[..i]) == e
  {
    var n := |took| - 1;
    if e < Accepted(took[..n]) {
      i := WaitOf(took[..n], e);
      assert took[..n][..i] == took[..i];
    } else {
      i := n;
    }
  }

  function Refused(took: seq<Option<nat>>): nat {
    |took| - Accepted(took)
  }

  lemma RefusedIs(took: seq<Option<nat>>)
    ensures Refused(took) == |took| - Accepted(took)
  {
  }

  /** The kernel has taken the entry, and its completion is not among those gone. */
  ghost predicate Outstanding(taken: nat, gone: seq<Posted>, e: nat) {
    e < taken && forall i :: 0 <= i < |gone| ==> gone[i].entry != e
  }

  /** Each task parked is the task of one entry outstanding, and the other way round. */
  ghost predicate Own(entries: seq<UringTask?>, taken: nat, gone: seq<Posted>, parked: set<UringTask>)
    requires taken <= |entries|
  {
    && (forall e: nat, f: nat :: Outstanding(taken, gone, e) && Outstanding(taken, gone, f) && entries[e] == entries[f] ==> e == f)
    && (forall e: nat :: Outstanding(taken, gone, e) ==> entries[e] != null && entries[e] in parked)
    && forall t <- parked :: exists e: nat :: Outstanding(taken, gone, e) && entries[e] == t
  }

  lemma OwnClaims(entries: seq<UringTask?>, taken: nat, gone: seq<Posted>, parked: set<UringTask>)
    requires taken <= |entries|
    ensures Own(entries, taken, gone, parked) ==> Own(entries + [null], taken, gone, parked)
  {
  }

  lemma OwnWrites(entries: seq<UringTask?>, taken: nat, gone: seq<Posted>, parked: set<UringTask>, n: nat, t: UringTask)
    requires taken <= n < |entries|
    ensures Own(entries, taken, gone, parked) ==> Own(entries[n := t], taken, gone, parked)
  {
  }

  lemma OwnAccepts(entries: seq<UringTask?>, taken: nat, gone: seq<Posted>, parked: set<UringTask>, t: UringTask)
    requires taken < |entries| && Own(entries, taken, gone, parked) && entries[taken] == t && t !in parked
    requires forall i :: 0 <= i < |gone| ==> gone[i].entry < taken
    ensures Own(entries, taken + 1, gone, parked + {t})
  {
    forall e: nat ensures Outstanding(taken + 1, gone, e) <==> Outstanding(taken, gone, e) || e == taken {
    }
    forall u <- parked + {t} ensures exists e: nat :: Outstanding(taken + 1, gone, e) && entries[e] == u {
      if u == t {
        assert Outstanding(taken + 1, gone, taken);
      } else {
        var e: nat :| Outstanding(taken, gone, e) && entries[e] == u;
        assert Outstanding(taken + 1, gone, e);
      }
    }
  }

  /** Where each wait has its own entry taken, no task is named twice by what is pending. */
  lemma OwnLast(entries: seq<UringTask?>, taken: nat, log: seq<Posted>, reaped: nat, parked: set<UringTask>)
    requires taken <= |entries| && reaped <= |log| && Own(entries, taken, log[..reaped], parked)
    requires forall i :: 0 <= i < |log| ==> log[i].entry < taken && entries[log[i].entry] == log[i].task
    requires forall i, j :: 0 <= i < j < |log| ==> log[i].entry != log[j].entry
    ensures forall i :: 0 <= i < |log| - reaped ==> LastOf(log[reaped..], i)
  {
    forall i, j | reaped <= i < j < |log| ensures log[j].task != log[i].task {
      assert Outstanding(taken, log[..reaped], log[i].entry) && Outstanding(taken, log[..reaped], log[j].entry);
    }
    forall i | 0 <= i < |log| - reaped ensures LastOf(log[reaped..], i) {
    }
  }

  lemma OwnReaps(entries: seq<UringTask?>, taken: nat, log: seq<Posted>, reaped: nat, parked: set<UringTask>)
    requires taken <= |entries| && reaped <= |log|
    requires forall i :: 0 <= i < |log| ==> log[i].entry < taken && entries[log[i].entry] == log[i].task
    requires forall i, j :: 0 <= i < j < |log| ==> log[i].entry != log[j].entry
    ensures Own(entries, taken, log[..reaped], parked) ==> Own(entries, taken, log[..|log|], parked - All(log[reaped..]))
  {
    if Own(entries, taken, log[..reaped], parked) {
      var gone, left := log[..reaped], parked - All(log[reaped..]);
      assert log[..|log|] == log;
      forall e: nat ensures Outstanding(taken, log, e) ==> Outstanding(taken, gone, e) {
      }
      forall e: nat | Outstanding(taken, log, e) ensures entries[e] != null && entries[e] in left {
        assert Outstanding(taken, gone, e);
        forall i | reaped <= i < |log| ensures log[i].task != entries[e] {
          assert Outstanding(taken, gone, log[i].entry);
        }
      }
      forall t <- left ensures exists e: nat :: Outstanding(taken, log, e) && entries[e] == t {
        var e: nat :| Outstanding(taken, gone, e) && entries[e] == t;
        forall i | reaped <= i < |log| ensures log[i].entry != e {
          assert log[reaped..][i - reaped] == log[i];
          InAll(log[reaped..], i - reaped);
        }
        assert Outstanding(taken, log, e);
      }
    }
  }

  lemma RingFits(k: nat)
    requires k <= 31
    ensures Pow2(k) < WORD
  {
    PowGrows(k, 31);
    PowSplit(31, 1);
    Pow32();
  }

  /** The mask picks the place the index has in the ring, wrapped as it is. */
  lemma IndexMasks(n: nat, k: nat)
    requires k <= 31
    ensures And(Mod(n, WORD), Pow2(k) - 1) == Mod(n, Pow2(k))
  {
    AndMask(n % WORD, k);
    ModThrough(n, k);
  }

  lemma OneOfTwo(k: nat)
    requires k >= 1
    ensures Accepted([]) == 0 == Refused([]) && Accepted([None]) == 0 && Accepted([None, Some(0)]) == 1
    ensures Refused([None]) == 1 < Pow2(k)
  {
    AcceptedMore([None], Some(0));
    assert [None] + [Some(0)] == [None, Some(0)];
    assert Pow2(k) == 2 * Pow2(k - 1);
  }

  /** A wait is refused and the next accepted. */
  method WaitsTwice(r: Ring, stray: UringTask, waiter: UringTask)
    requires r.Valid() && r.sqBits >= 1 && r.entries == [] && r.took == [] && r.parked == {}
    modifies r, r.sqes, r.sqArray
    ensures r.Valid() && r.took == [None, Some(0)] && r.entries == [stray, waiter] && r.parked == {waiter}
    ensures r.log == old(r.log) && r.ready == old(r.ready) && r.reaped == old(r.reaped)
  {
    hide *;
    OneOfTwo(r.sqBits);
    var k := r.Claim();
    var ok := r.IoWait(k, stray, false);
    assert r.took == [None] && r.entries == [stray];
    k := r.Claim();
    ok := r.IoWait(k, waiter, true);
    assert r.took == [None, Some(0)] && r.entries == [stray, waiter];
  }

  lemma FirstTaken(r: Ring)
    requires r.Valid() && r.took == [None, Some(0)] && r.log == []
    ensures r.InKernel(0) && r.reaped == 0 && Pow2(r.cqBits) > 0
  {
    OneOfTwo(1);
  }

  /** The kernel has the first task's operation, whose completion makes ready a task that is not
      parked. The second stays parked with nothing outstanding, its own operation never taken. */
  method StrandsTask(sqBits: nat, cqBits: nat, res: int) returns (r: Ring, stray: UringTask, waiter: UringTask)
    requires 1 <= sqBits <= 31 && cqBits <= 31
    ensures r.Valid() && r.took == [None, Some(0)] && r.entries == [stray, waiter] && stray != waiter
    ensures r.log == [Posted(0, stray, res)] && r.ready == [stray] && stray.ioRes == res
    ensures r.parked == {waiter} && r.inflight == 0
  {
    r := new Ring(sqBits, cqBits);
    stray := new UringTask();
    waiter := new UringTask();
    WaitsTwice(r, stray, waiter);
    FirstTaken(r);
    StrayCompletes(r, stray, res);
  }

  lemma OnePends(q: seq<Posted>)
    requires |q| == 1
    ensures LastOf(q, 0) && All(q) == {q[0].task} && Tasks(q) == [q[0].task]
  {
  }

  lemma PostedFirst(r: Ring, e: Posted)
    requires r.Valid() && r.log == [e] && r.reaped == 0 && r.took == [None, Some(0)]
    ensures r.Pend() == [e] && r.inflight == 1 && Accepted(r.took) == 1
  {
    OneOfTwo(1);
  }

  lemma AllGone(r: Ring)
    requires r.Valid() && r.reaped == |r.log| == Accepted(r.took)
    ensures r.inflight == 0
  {
  }

  method StrayCompletes(r: Ring, stray: UringTask, res: int)
    requires r.Valid() && r.InKernel(0) && r.entries != [] && r.entries[0] == stray && r.log == [] && r.reaped == 0
    requires r.took == [None, Some(0)] && stray !in r.parked && Pow2(r.cqBits) > 0
    modifies r, r.cqData, r.cqRes, stray
    ensures r.Valid() && r.took == old(r.took) && r.entries == old(r.entries) && r.parked == old(r.parked)
    ensures r.log == [Posted(0, stray, res)] && r.ready == old(r.ready) + [stray] && stray.ioRes == res && r.inflight == 0
  {
    hide *;
    r.KernelPosts(0, stray, res);
    ghost var e := Posted(0, stray, res);
    assert r.log == [e];
    PostedFirst(r, e);
    OnePends([e]);
    label before:
    r.Poll();
    assert old@before(r.Pend()) == [e];
    AllGone(r);
  }
}
