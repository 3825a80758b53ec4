/** The table of file descriptors, from fd to the open file description it names. */
module FdTable {

  import opened Bits
  import opened Runs

  const FD_MAX := 65536
  const FIRST_CAP := 16

  /** A slot names a description, by its number here, or nothing. */
  datatype Slot = Slot(ofd: Option<nat>, cloexec: bool)

  const EMPTY := Slot(None, false)

  /** The lowest fd from `from` up that names nothing, beyond the table's end perhaps. */
  function LowestFree(slots: seq<Slot>, from: nat): (fd: nat)
    ensures from <= fd && (fd < |slots| ==> slots[fd].ofd.None?)
    ensures fd > from ==> fd <= |slots|
    ensures forall i :: from <= i < fd ==> slots[i].ofd.Some?
    decreases |slots| - from
  {
    if from >= |slots| || slots[from].ofd.None? then from else
    LowestFree(slots, from + 1)
  }

  /** The table's size doubled until it has room for `fd`. */
  function Doubled(cap: nat, fd: nat): (r: nat)
    requires cap > 0
    ensures r > fd && r >= cap
    decreases fd + 1 - cap
  {
    if cap > fd then cap else Doubled(2 * cap, fd)
  }

  /** And no oftener than it has to be. */
  lemma {:induction false} DoubledLeast(cap: nat, fd: nat) returns (k: nat)
    requires cap > 0
    ensures Doubled(cap, fd) == cap * Pow2(k) && (k > 0 ==> cap * Pow2(k - 1) <= fd)
    decreases fd + 1 - cap
  {
    if cap > fd {
      k := 0;
    } else {
      var j := DoubledLeast(2 * cap, fd);
      k := j + 1;
      MulThree(2, cap, Pow2(j));
      MulThree(cap, 2, Pow2(j));
      if j > 0 {
        MulThree(2, cap, Pow2(j - 1));
        MulThree(cap, 2, Pow2(j - 1));
      }
    }
  }

  function Blank(n: nat): (r: seq<Slot>)
    ensures |r| == n && forall i :: 0 <= i < n ==> r[i] == EMPTY
  {
    seq(n, _ => EMPTY)
  }

  /** The table with room for `fd`: the entries there stay as they are, and the new ones are empty. */
  function Reserved(slots: seq<Slot>, fd: nat): (r: seq<Slot>)
    requires 0 < |slots| <= FD_MAX && fd < FD_MAX
    ensures fd < |r| <= FD_MAX && slots <= r
    ensures forall i :: |slots| <= i < |r| ==> r[i] == EMPTY
  {
    var cap := Doubled(|slots|, fd);
    if fd < |slots| then slots else slots + Blank((if cap > FD_MAX then FD_MAX else cap) - |slots|)
  }

  /** How many fds name `d`. */
  function Named(slots: seq<Slot>, d: nat): nat {
    if slots == [] then 0 else (if slots[0].ofd == Some(d) then 1 else 0) + Named(slots[1..], d)
  }

  lemma {:induction false} NamedUpdate(slots: seq<Slot>, i: nat, x: Slot, d: nat)
    requires i < |slots|
    ensures Named(slots[i := x], d) + (if slots[i].ofd == Some(d) then 1 else 0) == Named(slots, d) + (if x.ofd == Some(d) then 1 else 0)
    ensures slots[i].ofd == Some(d) ==> Named(slots, d) > 0
  {
    if i == 0 {
      assert slots[i := x][1..] == slots[1..];
    } else {
      assert slots[i := x][1..] == slots[1..][i - 1 := x];
      NamedUpdate(slots[1..], i - 1, x, d);
    }
  }

  lemma {:induction false} NamedBlank(slots: seq<Slot>, more: seq<Slot>, d: nat)
    requires forall i :: 0 <= i < |more| ==> more[i].ofd.None?
    ensures Named(slots + more, d) == Named(slots, d)
    decreases |slots| + |more|
  {
    if slots != [] {
      assert (slots + more)[1..] == slots[1..] + more;
      NamedBlank(slots[1..], more, d);
    } else if more != [] {
      assert slots + more == more;
      assert [] + more[1..] == more[1..];
      NamedBlank([], more[1..], d);
    }
  }

  lemma {:induction false} NamedNone(slots: seq<Slot>, d: nat)
    requires forall i :: 0 <= i < |slots| ==> slots[i].ofd != Some(d)
    ensures Named(slots, d) == 0
  {
    if slots != [] { NamedNone(slots[1..], d); }
  }

  /** A description made for a standard handle: the handle, and how many fds name it. */
  datatype Ofd = Ofd(handle: nat, refs: nat)

  /** Memory was had for the handle at this fd, or at an earlier one that is the same handle. */
  ghost predicate HadFor(handles: seq<Option<nat>>, memory: seq<bool>, i: nat)
    requires i < |handles| == |memory|
  {
    exists e :: 0 <= e <= i && handles[e] == handles[i] && memory[e]
  }

  /** An fd has a description, one of its handle, exactly where there is a handle and memory was had. */
  ghost predicate StandardOk(handles: seq<Option<nat>>, memory: seq<bool>, slots: seq<Slot>, ofds: seq<Ofd>, i: nat)
    requires i < |handles| == |memory| && i < |slots|
  {
    && !slots[i].cloexec && (slots[i].ofd.Some? ==> Names(handles[i], slots[i].ofd.value, ofds))
    && (slots[i].ofd.Some? <==> handles[i].Some? && HadFor(handles, memory, i))
  }

  /** Two fds have the same description exactly where they are the same handle. */
  ghost predicate SharedOk(handles: seq<Option<nat>>, slots: seq<Slot>, i: nat, j: nat)
    requires i < |handles| && j < |handles| && i < |slots| && j < |slots|
  {
    slots[i].ofd.Some? && slots[j].ofd.Some? ==> (slots[i].ofd == slots[j].ofd <==> handles[i] == handles[j])
  }

  /** What the first `n` fds are given for the process's standard handles. Every description made for
      them is counted once for each fd. */
  ghost predicate Matched(handles: seq<Option<nat>>, memory: seq<bool>, slots: seq<Slot>, ofds: seq<Ofd>, n: nat)
    requires n <= |handles|
  {
    && |memory| == |handles| <= |slots|
    && (forall i :: n <= i < |slots| ==> slots[i] == EMPTY)
    && (forall i :: 0 <= i < n ==> StandardOk(handles, memory, slots, ofds, i))
    && (forall i, j :: 0 <= i < j < n ==> SharedOk(handles, slots, i, j))
    && (forall d :: 0 <= d < |ofds| ==> ofds[d].refs == Named(slots, d) && ofds[d].refs > 0)
  }

  ghost predicate Names(handle: Option<nat>, d: nat, ofds: seq<Ofd>) {
    d < |ofds| && handle == Some(ofds[d].handle)
  }

  lemma {:induction false} NamedWith(slots: seq<Slot>, fd: nat, d: nat)
    requires fd < |slots| && slots[fd] == EMPTY
    ensures forall x: nat :: Named(slots[fd := Slot(Some(d), false)], x) == Named(slots, x) + (if x == d then 1 else 0)
  {
    forall x: nat ensures Named(slots[fd := Slot(Some(d), false)], x) == Named(slots, x) + (if x == d then 1 else 0) {
      NamedUpdate(slots, fd, Slot(Some(d), false), x);
    }
  }

  /** What is there stays right with one fd more. */
  lemma StaysMatched(handles: seq<Option<nat>>, memory: seq<bool>, slots: seq<Slot>, ofds: seq<Ofd>, n: nat, after: seq<Slot>, ofds': seq<Ofd>)
    requires n < |handles| && Matched(handles, memory, slots, ofds, n) && |ofds'| >= |ofds|
    requires |after| == |slots| && after == slots[n := after[n]]
    requires forall d :: 0 <= d < |ofds| ==> ofds'[d].handle == ofds[d].handle
    requires StandardOk(handles, memory, after, ofds', n) && forall i :: 0 <= i < n ==> SharedOk(handles, after, i, n)
    requires forall d :: 0 <= d < |ofds'| ==> ofds'[d].refs == Named(after, d) && ofds'[d].refs > 0
    ensures Matched(handles, memory, after, ofds', n + 1)
  {
    forall i | 0 <= i < n ensures StandardOk(handles, memory, after, ofds', i) {
      assert StandardOk(handles, memory, slots, ofds, i);
    }
    forall i, j | 0 <= i < j < n ensures SharedOk(handles, after, i, j) {
      assert SharedOk(handles, slots, i, j);
    }
  }

  /** The next fd is the same handle as an earlier one that has a description, and shares it. */
  lemma MatchedShared(handles: seq<Option<nat>>, memory: seq<bool>, slots: seq<Slot>, ofds: seq<Ofd>, n: nat, e: nat)
    requires n < |handles| && Matched(handles, memory, slots, ofds, n)
    requires e < n && slots[e].ofd.Some? && handles[e] == handles[n]
    ensures var d := slots[e].ofd.value;
            d < |ofds| && Matched(handles, memory, slots[n := Slot(Some(d), false)], ofds[d := ofds[d].(refs := ofds[d].refs + 1)], n + 1)
  {
    assert StandardOk(handles, memory, slots, ofds, e);
    var d := slots[e].ofd.value;
    var after := slots[n := Slot(Some(d), false)];
    NamedWith(slots, n, d);
    assert HadFor(handles, memory, n);
    forall i | 0 <= i < n ensures SharedOk(handles, after, i, n) {
      if i < e { assert SharedOk(handles, slots, i, e); } else if i > e { assert SharedOk(handles, slots, e, i); }
    }
    StaysMatched(handles, memory, slots, ofds, n, after, ofds[d := ofds[d].(refs := ofds[d].refs + 1)]);
  }

  ghost predicate NoEarlier(handles: seq<Option<nat>>, slots: seq<Slot>, n: nat)
    requires n < |handles| && n <= |slots|
  {
    forall i :: 0 <= i < n ==> !(slots[i].ofd.Some? && handles[i] == handles[n])
  }

  /** The next fd is a handle that none before it has a description for, and gets one. */
  lemma MatchedNew(handles: seq<Option<nat>>, memory: seq<bool>, slots: seq<Slot>, ofds: seq<Ofd>, n: nat)
    requires n < |handles| && Matched(handles, memory, slots, ofds, n) && handles[n].Some? && NoEarlier(handles, slots, n) && memory[n]
    ensures Matched(handles, memory, slots[n := Slot(Some(|ofds|), false)], ofds + [Ofd(handles[n].value, 1)], n + 1)
  {
    forall i | 0 <= i < |slots| ensures slots[i].ofd != Some(|ofds|) {
      if i < n { assert StandardOk(handles, memory, slots, ofds, i); }
    }
    NamedNone(slots, |ofds|);
    NamedWith(slots, n, |ofds|);
    assert HadFor(handles, memory, n);
    var after := slots[n := Slot(Some(|ofds|), false)];
    forall i | 0 <= i < n ensures SharedOk(handles, after, i, n) {
      assert slots[i].ofd != Some(|ofds|);
    }
    StaysMatched(handles, memory, slots, ofds, n, after, ofds + [Ofd(handles[n].value, 1)]);
  }

  /** The next fd is no handle, or one that nothing was had for. */
  lemma MatchedNone(handles: seq<Option<nat>>, memory: seq<bool>, slots: seq<Slot>, ofds: seq<Ofd>, n: nat)
    requires n < |handles| && Matched(handles, memory, slots, ofds, n)
    requires handles[n].Some? ==> NoEarlier(handles, slots, n) && !memory[n]
    ensures Matched(handles, memory, slots, ofds, n + 1)
  {
    if handles[n].Some? && HadFor(handles, memory, n) {
      var e :| 0 <= e <= n && handles[e] == handles[n] && memory[e];
      assert StandardOk(handles, memory, slots, ofds, e);
      assert HadFor(handles, memory, e);
      assert false;
    }
    assert slots[n := EMPTY] == slots;
    StaysMatched(handles, memory, slots, ofds, n, slots, ofds);
  }

  class Table {
    var slots: array<Slot>
    var std: array<Option<nat>>    // the process's standard handles, by their descriptions
    var ofds: seq<Ofd>             // the descriptions the table was begun with

    ghost predicate Valid()
      reads this, slots, std
    {
      && FIRST_CAP <= slots.Length <= FD_MAX && std.Length == 3
      && forall fd :: 0 <= fd < 3 ==> std[fd] == slots[fd].ofd
    }

    /** fds 0, 1 and 2 are the standard handles there are; two that are one handle share a
        description, which is counted for each. `memory` is what the allocator answers for a description
        of each. */
    constructor (handles: seq<Option<nat>>, memory: seq<bool>)
      requires |handles| == |memory| == 3
      ensures Valid() && fresh(slots) && fresh(std) && slots.Length == FIRST_CAP
      ensures Matched(handles, memory, slots[..], ofds, 3)
    {
      slots := new Slot[FIRST_CAP](_ => EMPTY);
      std := new Option<nat>[3](_ => None);
      ofds := [];
      new;
      var fd := 0;
      while fd < 3
        invariant fd <= 3 && slots.Length == FIRST_CAP && std.Length == 3 && fresh(slots) && fresh(std)
        invariant Matched(handles, memory, slots[..], ofds, fd)
        invariant forall i :: 0 <= i < 3 ==> std[i] == slots[i].ofd
        modifies this, slots, std
      {
        if handles[fd].Some? { Standard(fd, handles, memory); } else { MatchedNone(handles, memory, slots[..], ofds, fd); }
        fd := fd + 1;
      }
    }

    /** The first of the earlier fds that has a description of this one's handle, or none: `fd`. */
    method Same(fd: nat, handles: seq<Option<nat>>, ghost memory: seq<bool>) returns (earlier: nat)
      requires fd < 3 == |handles| && handles[fd].Some? && slots.Length == FIRST_CAP && Matched(handles, memory, slots[..], ofds, fd)
      ensures earlier <= fd && (earlier == fd ==> NoEarlier(handles, slots[..], fd))
      ensures earlier < fd ==> slots[earlier].ofd.Some? && slots[earlier].ofd.value < |ofds| && handles[earlier] == handles[fd]
    {
      earlier := 0;
      while earlier < fd
        invariant earlier <= fd && forall i :: 0 <= i < earlier ==> !(slots[i].ofd.Some? && handles[i] == handles[fd])
      {
        assert StandardOk(handles, memory, slots[..], ofds, earlier);
        if slots[earlier].ofd.Some? && ofds[slots[earlier].ofd.value].handle == handles[fd].value { return; }
        earlier := earlier + 1;
      }
    }

    /** What fd `fd` is given: the description of an earlier one that is the same handle, or its own. */
    method Standard(fd: nat, handles: seq<Option<nat>>, memory: seq<bool>)
      requires fd < 3 == |handles| == |memory| && handles[fd].Some? && slots.Length == FIRST_CAP && std.Length == 3
      requires Matched(handles, memory, slots[..], ofds, fd) && forall i :: 0 <= i < 3 ==> std[i] == slots[i].ofd
      modifies `ofds, slots, std
      ensures Matched(handles, memory, slots[..], ofds, fd + 1) && forall i :: 0 <= i < 3 ==> std[i] == slots[i].ofd
    {
      var earlier := Same(fd, handles, memory);
      if earlier == fd && !memory[fd] {
        MatchedNone(handles, memory, slots[..], ofds, fd);
        return;
      }
      ghost var was := slots[..];
      var d: nat;
      if earlier < fd {
        MatchedShared(handles, memory, was, ofds, fd, earlier);
        d := slots[earlier].ofd.value;
        ofds := ofds[d := ofds[d].(refs := ofds[d].refs + 1)];
      } else {
        MatchedNew(handles, memory, was, ofds, fd);
        d := |ofds|;
        ofds := ofds + [Ofd(handles[fd].value, 1)];
      }
      hide Matched;
      slots[fd] := Slot(Some(d), false);
      std[fd] := Some(d);
      assert slots[..] == was[fd := Slot(Some(d), false)];
    }

    /** Room for `fd`; `memory` is whether the allocator has it. */
    method Reserve(fd: nat, memory: bool) returns (ok: bool)
      requires Valid() && fd < FD_MAX
      modifies `slots
      ensures Valid() && std == old(std) && ok == (fd < old(slots.Length) || memory)
      ensures slots == old(slots) || fresh(slots)
      ensures slots[..] == if ok then Reserved(old(slots[..]), fd) else old(slots[..])
    {
      if fd < slots.Length { return true; }
      var cap := slots.Length;
      while cap <= fd
        invariant slots.Length <= cap && Doubled(cap, fd) == Doubled(slots.Length, fd)
        decreases fd + 1 - cap
      {
        cap := cap * 2;
      }
      if cap > FD_MAX { cap := FD_MAX; }
      if !memory { return false; }
      var was := slots;
      var grown := new Slot[cap](_ => EMPTY);
      forall i | 0 <= i < was.Length { grown[i] := was[i]; }
      slots := grown;
      assert grown[..] == was[..] + Blank(cap - was.Length);
      return true;
    }

    /** Put a description, or nothing, at `fd`, and hand back what was there. */
    method Set(fd: nat, ofd: Option<nat>, cloexec: bool) returns (was: Option<nat>)
      requires Valid() && fd < slots.Length
      modifies slots, std
      ensures Valid() && was == old(slots[fd].ofd) && slots[..] == old(slots[..])[fd := Slot(ofd, cloexec)]
    {
      was := slots[fd].ofd;
      slots[fd] := Slot(ofd, cloexec);
      if fd < 3 { std[fd] := ofd; }
    }

    /** Give the description the lowest free fd from `lowest` up: -1 where every fd is taken, and
        where there is no memory for a larger table. */
    method Install(ofd: nat, lowest: nat, cloexec: bool, memory: bool) returns (out: int)
      requires Valid()
      modifies this, slots, std
      ensures Valid() && std == old(std) && (slots == old(slots) || fresh(slots))
      ensures var fd := LowestFree(old(slots[..]), lowest);
              if fd >= FD_MAX || (fd >= |old(slots[..])| && !memory) then out == -1 && slots[..] == old(slots[..])
              else out == fd && slots[..] == Reserved(old(slots[..]), fd)[fd := Slot(Some(ofd), cloexec)]
    {
      var fd := lowest;
      while fd < FD_MAX
        invariant fd >= lowest && Valid() && slots == old(slots) && std == old(std) && slots[..] == old(slots[..])
        invariant LowestFree(slots[..], fd) == LowestFree(slots[..], lowest)
        decreases FD_MAX - fd
      {
        if fd < slots.Length && slots[fd].ofd.Some? {
          fd := fd + 1;
          continue;
        }
        var ok := Reserve(fd, memory);
        if !ok { return -1; }
        var was := Set(fd, Some(ofd), cloexec);
        return fd;
      }
      return -1;
    }

    /** What is at `fd`, or nothing for one the table has not. */
    method At(fd: nat) returns (ofd: Option<nat>)
      requires Valid()
      ensures ofd == if fd < slots.Length then slots[fd].ofd else None
    {
      ofd := if fd < slots.Length then slots[fd].ofd else None;
    }
  }

  /** A new fd is the lowest that was free, at `from` or above; every other fd names what it did. */
  lemma InstalledLowest(slots: seq<Slot>, from: nat, ofd: nat, cloexec: bool)
    requires 0 < |slots| <= FD_MAX && LowestFree(slots, from) < FD_MAX
    ensures var fd := LowestFree(slots, from);
            var r := Reserved(slots, fd)[fd := Slot(Some(ofd), cloexec)];
            && from <= fd < |r| && r[fd].ofd == Some(ofd) && (fd < |slots| ==> slots[fd].ofd.None?)
            && (fd > from ==> fd <= |slots|) && (forall i :: from <= i < fd ==> slots[i].ofd.Some?)
            && (forall i :: 0 <= i < |slots| && i != fd ==> r[i] == slots[i])
            && (forall i :: |slots| <= i < |r| && i != fd ==> r[i] == EMPTY)
  {
  }
}
