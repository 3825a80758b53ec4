/** Flags and values translated to the platform's and back, by a table of pairs. A word of flags is the
    set of its bits: `*`, `+` and `-` are bitwise and, or, and and-not. */
module Flags {
  import opened Runs

  type Bits = set<nat>

  datatype Pair = Pair(sppc: Bits, os: Bits)

  // ---------- the code ----------

  /** What is left of the flags once an entry, if they have all of it, is taken out. */
  function Left(flags: Bits, entry: Bits): Bits {
    if entry != {} && flags * entry == entry then flags - entry else flags
  }

  /** Taken from the front: the flags no entry claimed. */
  function Unclaimed(flags: Bits, table: seq<Pair>): Bits {
    if table == [] || flags == {} then flags else Unclaimed(Left(flags, table[0].sppc), table[1..])
  }

  /** And the platform's for those claimed. */
  function ToOs(flags: Bits, table: seq<Pair>): Bits {
    if table == [] || flags == {} then {} else
    (if table[0].sppc != {} && flags * table[0].sppc == table[0].sppc then table[0].os else {})
    + ToOs(Left(flags, table[0].sppc), table[1..])
  }

  function FromOs(flags: Bits, table: seq<Pair>): Bits {
    if table == [] || flags == {} then {} else
    (if table[0].os != {} && flags * table[0].os == table[0].os then table[0].sppc else {})
    + FromOs(Left(flags, table[0].os), table[1..])
  }

  method ToOsFlags(flags: Bits, table: seq<Pair>) returns (r: Option<Bits>)
    ensures r == if Unclaimed(flags, table) == {} then Some(ToOs(flags, table)) else None
  {
    var left, os, i := flags, {}, 0;
    while i < |table| && left != {}
      invariant i <= |table| && Unclaimed(flags, table) == Unclaimed(left, table[i..])
      invariant ToOs(flags, table) == os + ToOs(left, table[i..])
    {
      assert table[i..][0] == table[i] && table[i..][1..] == table[i + 1..];
      if table[i].sppc != {} && left * table[i].sppc == table[i].sppc {
        os := os + table[i].os;
        left := left - table[i].sppc;
      }
      i := i + 1;
    }
    return if left != {} then None else Some(os);
  }

  method FromOsFlags(flags: Bits, table: seq<Pair>) returns (out: Bits)
    ensures out == FromOs(flags, table)
  {
    var left, i := flags, 0;
    out := {};
    while i < |table| && left != {}
      invariant i <= |table| && FromOs(flags, table) == out + FromOs(left, table[i..])
    {
      assert table[i..][0] == table[i] && table[i..][1..] == table[i + 1..];
      if table[i].os != {} && left * table[i].os == table[i].os {
        out := out + table[i].sppc;
        left := left - table[i].os;
      }
      i := i + 1;
    }
  }

  /** The first entry for a value, or none. */
  function ToOsOf(value: Bits, table: seq<Pair>): Option<Bits> {
    if table == [] then None else if table[0].sppc == value then Some(table[0].os) else ToOsOf(value, table[1..])
  }

  function FromOsOf(value: Bits, table: seq<Pair>, fallback: Bits): Bits {
    if table == [] then fallback else if table[0].os == value then table[0].sppc else FromOsOf(value, table[1..], fallback)
  }

  method ToOsValue(value: Bits, table: seq<Pair>) returns (r: Option<Bits>)
    ensures r == ToOsOf(value, table)
  {
    var i := 0;
    while i < |table|
      invariant i <= |table| && ToOsOf(value, table) == ToOsOf(value, table[i..])
    {
      assert table[i..][0] == table[i] && table[i..][1..] == table[i + 1..];
      if table[i].sppc == value { return Some(table[i].os); }
      i := i + 1;
    }
    return None;
  }

  method FromOsValue(value: Bits, table: seq<Pair>, fallback: Bits) returns (r: Bits)
    ensures r == FromOsOf(value, table, fallback)
  {
    var i := 0;
    while i < |table|
      invariant i <= |table| && FromOsOf(value, table, fallback) == FromOsOf(value, table[i..], fallback)
    {
      assert table[i..][0] == table[i] && table[i..][1..] == table[i + 1..];
      if table[i].os == value { return table[i].sppc; }
      i := i + 1;
    }
    return fallback;
  }

  /** The open flags: an access mode, which is a value in the bits `accmode`, beside the flags. */
  method ToOsOpenFlags(flags: Bits, accmode: Bits, modes: seq<Pair>, table: seq<Pair>) returns (r: Option<Bits>)
    ensures r == if ToOsOf(flags * accmode, modes).Some? && Unclaimed(flags - accmode, table) == {}
                 then Some(ToOsOf(flags * accmode, modes).value + ToOs(flags - accmode, table)) else None
  {
    var mode := ToOsValue(flags * accmode, modes);
    if mode == None { return None; }
    var rest := ToOsFlags(flags - accmode, table);
    if rest == None { return None; }
    return Some(mode.value + rest.value);
  }

  /** Every bit the entries have on the platform's side. */
  function OsBits(table: seq<Pair>): Bits {
    if table == [] then {} else table[0].os + OsBits(table[1..])
  }

  /** And back: the mode's bits are those of the platform's modes together. */
  method FromOsOpenFlags(flags: Bits, modes: seq<Pair>, table: seq<Pair>) returns (r: Bits)
    ensures r == FromOsOf(flags * OsBits(modes), modes, {}) + FromOs(flags - OsBits(modes), table)
  {
    var mode := FromOsValue(flags * OsBits(modes), modes, {});
    var rest := FromOsFlags(flags - OsBits(modes), table);
    r := mode + rest;
  }

  // ---------- what a table is to be ----------

  /** Whether the entry may come before those: each of them is part of it or apart from it, what is
      apart here is apart on the platform's side, and it has a bit there that they have not. */
  ghost predicate Heads(e: Pair, rest: seq<Pair>) {
    && e.sppc != {} && !(e.os <= OsBits(rest))
    && (forall j :: 0 <= j < |rest| ==> rest[j].sppc <= e.sppc || rest[j].sppc * e.sppc == {})
    && (forall j :: 0 <= j < |rest| ==> rest[j].sppc * e.sppc == {} ==> rest[j].os * e.os == {})
  }

  /** A compound flag is listed before the flags it contains. */
  ghost predicate Proper(table: seq<Pair>) {
    table == [] || (Heads(table[0], table[1..]) && Proper(table[1..]))
  }

  /** The union of the entries picked. */
  ghost function Union(table: seq<Pair>, picks: seq<bool>): Bits
    requires |picks| == |table|
  {
    if table == [] then {} else (if picks[0] then table[0].sppc else {}) + Union(table[1..], picks[1..])
  }

  ghost predicate IsUnion(flags: Bits, table: seq<Pair>) {
    exists picks: seq<bool> :: |picks| == |table| && Union(table, picks) == flags
  }

  // ---------- round trips ----------

  lemma ApartMinus(a: Bits, b: Bits)
    ensures a * b == {} ==> (a + b) - a == b && b - a == b
  {
    if a * b == {} {
      forall x | x in b ensures x !in a {
        assert x !in a * b;
      }
    }
  }

  /** What is taken lies within the platform's bits. */
  lemma {:induction false} TakenWithin(flags: Bits, table: seq<Pair>)
    ensures ToOs(flags, table) <= OsBits(table)
  {
    if table != [] && flags != {} { TakenWithin(Left(flags, table[0].sppc), table[1..]); }
  }

  /** What is taken of flags apart from an entry is apart from it on the platform's side. */
  lemma {:induction false} TakenApart(flags: Bits, table: seq<Pair>, e: Pair)
    requires flags * e.sppc == {}
    requires forall j :: 0 <= j < |table| ==> table[j].sppc * e.sppc == {} ==> table[j].os * e.os == {}
    ensures ToOs(flags, table) * e.os == {}
  {
    if table != [] && flags != {} { TakenApart(Left(flags, table[0].sppc), table[1..], e); }
  }

  /** Accepted flags come back as they went. */
  lemma {:induction false} RoundTrip(flags: Bits, table: seq<Pair>)
    requires Proper(table) && Unclaimed(flags, table) == {}
    ensures FromOs(ToOs(flags, table), table) == flags
  {
    if table != [] && flags != {} {
      var e, rest := table[0], table[1..];
      var left := Left(flags, e.sppc);
      RoundTrip(left, rest);
      if flags * e.sppc == e.sppc {
        TakenApart(left, rest, e);
        ApartMinus(e.os, ToOs(left, rest));
        assert ToOs(flags, table) * e.os == e.os && Left(ToOs(flags, table), e.os) == ToOs(left, rest);
        assert e.sppc + left == flags;
      } else {
        TakenWithin(flags, rest);
        assert ToOs(flags, table) == ToOs(flags, rest);
      }
    }
  }

  /** Flags are accepted exactly if they are a union of entries. */
  lemma AcceptedIffUnion(flags: Bits, table: seq<Pair>)
    requires Proper(table)
    ensures Unclaimed(flags, table) == {} <==> IsUnion(flags, table)
  {
    if Unclaimed(flags, table) == {} { AcceptedIsUnion(flags, table); }
    if IsUnion(flags, table) {
      var picks: seq<bool> :| |picks| == |table| && Union(table, picks) == flags;
      UnionAccepted(table, picks);
    }
  }

  lemma {:induction false} NoPicks(table: seq<Pair>) returns (picks: seq<bool>)
    ensures |picks| == |table| && Union(table, picks) == {}
  {
    if table == [] {
      picks := [];
    } else {
      var p := NoPicks(table[1..]);
      picks := [false] + p;
      assert picks[1..] == p;
    }
  }

  lemma {:induction false} AcceptedIsUnion(flags: Bits, table: seq<Pair>)
    requires Unclaimed(flags, table) == {}
    ensures IsUnion(flags, table)
  {
    if flags == {} {
      var none := NoPicks(table);
    } else {
      var e, left := table[0].sppc, Left(flags, table[0].sppc);
      AcceptedIsUnion(left, table[1..]);
      var p: seq<bool> :| |p| == |table| - 1 && Union(table[1..], p) == left;
      var picks := [left != flags] + p;
      assert picks[1..] == p;
      assert Union(table, picks) == flags;
    }
  }

  lemma {:induction false} PickedBit(table: seq<Pair>, picks: seq<bool>, b: nat) returns (j: nat)
    requires |picks| == |table| && b in Union(table, picks)
    ensures j < |table| && picks[j] && b in table[j].sppc && table[j].sppc <= Union(table, picks)
  {
    if picks[0] && b in table[0].sppc {
      j := 0;
    } else {
      var k := PickedBit(table[1..], picks[1..], b);
      j := k + 1;
    }
  }

  /** With an entry taken out, what is left of a union of later entries is one of those apart from it. */
  lemma {:induction false} UnionWithout(table: seq<Pair>, picks: seq<bool>, e: Bits) returns (rest: seq<bool>)
    requires |picks| == |table| && forall j :: 0 <= j < |table| ==> table[j].sppc <= e || table[j].sppc * e == {}
    ensures |rest| == |table| && Union(table, rest) == Union(table, picks) - e
  {
    if table == [] {
      rest := [];
    } else {
      var r := UnionWithout(table[1..], picks[1..], e);
      rest := [picks[0] && !(table[0].sppc <= e)] + r;
      assert rest[1..] == r;
      var one := if picks[0] then table[0].sppc else {};
      ApartMinus(e, table[0].sppc);
      assert (if rest[0] then table[0].sppc else {}) == one - e;
      assert (one + Union(table[1..], picks[1..])) - e == (one - e) + (Union(table[1..], picks[1..]) - e);
    }
  }

  lemma {:induction false} UnionAccepted(table: seq<Pair>, picks: seq<bool>)
    requires Proper(table) && |picks| == |table|
    ensures Unclaimed(Union(table, picks), table) == {}
  {
    var flags := Union(table, picks);
    if table != [] && flags != {} {
      var e, rest := table[0].sppc, table[1..];
      if flags * e == e {
        var p := UnionWithout(rest, picks[1..], e);
        assert Union(rest, p) == flags - e;
        UnionAccepted(rest, p);
      } else {
        assert flags == Union(rest, picks[1..]);
        UnionAccepted(rest, picks[1..]);
      }
    }
  }

  /** Bits of the platform's that no entry has are dropped: flags come back as they went though the
      platform sets others beside them. */
  lemma {:induction false} OthersDropped(flags: Bits, others: Bits, table: seq<Pair>)
    requires others * OsBits(table) == {}
    ensures FromOs(flags + others, table) == FromOs(flags, table)
  {
    if table != [] {
      var e, rest := table[0].os, table[1..];
      forall x | x in others ensures x !in e && x !in OsBits(rest) {
        assert x !in others * OsBits(table);
      }
      assert others * OsBits(rest) == {};
      assert (flags + others) * e == flags * e && (flags - e) + others == (flags + others) - e;
      OthersDropped(flags, others, rest);
      OthersDropped(flags - e, others, rest);
      NothingBack(others, table);
      assert {} + others == others;
    }
  }

  lemma {:induction false} NothingBack(others: Bits, table: seq<Pair>)
    requires others * OsBits(table) == {}
    ensures FromOs(others, table) == {}
  {
    if table != [] {
      forall x | x in others ensures x !in table[0].os && x !in OsBits(table[1..]) {
        assert x !in others * OsBits(table);
      }
      assert others * OsBits(table[1..]) == {} && others * table[0].os == {};
      NothingBack(others, table[1..]);
    }
  }

  /** A value goes to that of the first entry with it, and is refused exactly without one; the platform's
      comes back from the first entry with it, and as the fallback exactly without one. */
  lemma {:induction false} ValuesExact(value: Bits, table: seq<Pair>, fallback: Bits)
    ensures match ToOsOf(value, table)
            case Some(os) => exists i :: 0 <= i < |table| && table[i] == Pair(value, os) && forall j :: 0 <= j < i ==> table[j].sppc != value
            case None => forall i :: 0 <= i < |table| ==> table[i].sppc != value
    ensures (FromOsOf(value, table, fallback) == fallback && forall i :: 0 <= i < |table| ==> table[i].os != value)
            || exists i :: 0 <= i < |table| && table[i] == Pair(FromOsOf(value, table, fallback), value) && forall j :: 0 <= j < i ==> table[j].os != value
  {
    if table != [] {
      var rest := table[1..];
      ValuesExact(value, rest, fallback);
      assert forall j :: 0 < j < |table| ==> table[j] == rest[j - 1];
      if table[0].sppc == value {
        assert table[0] == Pair(value, table[0].os);
      } else if ToOsOf(value, rest).Some? {
        var i :| 0 <= i < |rest| && rest[i] == Pair(value, ToOsOf(value, rest).value) && forall j :: 0 <= j < i ==> rest[j].sppc != value;
        assert table[i + 1] == Pair(value, ToOsOf(value, table).value);
      }
      if table[0].os == value {
        assert table[0] == Pair(FromOsOf(value, table, fallback), value);
      } else if exists i :: 0 <= i < |rest| && rest[i].os == value {
        var i :| 0 <= i < |rest| && rest[i] == Pair(FromOsOf(value, rest, fallback), value) && forall j :: 0 <= j < i ==> rest[j].os != value;
        assert table[i + 1] == Pair(FromOsOf(value, table, fallback), value);
      }
    }
  }

  // ---------- open flags ----------

  /** No two modes share a platform value, and none reaches past the mode's bits on either side. */
  ghost predicate ProperModes(modes: seq<Pair>, accmode: Bits, table: seq<Pair>) {
    && (forall i, j :: 0 <= i < j < |modes| ==> modes[i].os != modes[j].os)
    && (forall i :: 0 <= i < |modes| ==> modes[i].sppc <= accmode)
    && OsBits(modes) * OsBits(table) == {}
  }

  lemma {:induction false} ModeRoundTrip(value: Bits, modes: seq<Pair>, fallback: Bits)
    requires ToOsOf(value, modes).Some? && forall i, j :: 0 <= i < j < |modes| ==> modes[i].os != modes[j].os
    ensures FromOsOf(ToOsOf(value, modes).value, modes, fallback) == value && ToOsOf(value, modes).value <= OsBits(modes)
    ensures exists i :: 0 <= i < |modes| && modes[i].os == ToOsOf(value, modes).value
  {
    if modes[0].sppc != value {
      ModeRoundTrip(value, modes[1..], fallback);
      var i :| 0 <= i < |modes[1..]| && modes[1..][i].os == ToOsOf(value, modes).value;
      assert modes[i + 1].os == ToOsOf(value, modes).value;
    } else {
      assert modes[0].os == ToOsOf(value, modes).value;
    }
  }

  /** Accepted open flags, mode and all, come back as they went. */
  lemma OpenRoundTrip(flags: Bits, accmode: Bits, modes: seq<Pair>, table: seq<Pair>)
    requires Proper(table) && ProperModes(modes, accmode, table)
    requires ToOsOf(flags * accmode, modes).Some? && Unclaimed(flags - accmode, table) == {}
    ensures var os := ToOsOf(flags * accmode, modes).value + ToOs(flags - accmode, table);
            FromOsOf(os * OsBits(modes), modes, {}) + FromOs(os - OsBits(modes), table) == flags
  {
    var mode, rest := ToOsOf(flags * accmode, modes).value, ToOs(flags - accmode, table);
    ModeRoundTrip(flags * accmode, modes, {});
    RoundTrip(flags - accmode, table);
    TakenWithin(flags - accmode, table);
    ApartMinus(OsBits(modes), rest);
    assert (mode + rest) * OsBits(modes) == mode && (mode + rest) - OsBits(modes) == rest;
    assert flags * accmode + (flags - accmode) == flags;
  }

  // ---------- sppc's own open flags ----------

  const OPEN_FLAGS := 16
  const ACCMODE: Bits := {0, 1}

  /** The bit of its own that each of sppc's open flags has, in the table's order. */
  function OpenBit(k: nat): nat {
    if k == 0 then 22 else if k == 1 then 20 else if k <= 10 then k + 4 else if k <= 14 then k + 5 else 21
  }

  /** O_TMPFILE has O_DIRECTORY's bit too, and O_SYNC O_DSYNC's; the others are one bit each. */
  function OpenFlag(k: nat): Bits {
    if k == 0 then {OpenBit(0), 16} else if k == 1 then {OpenBit(1), 12} else {OpenBit(k)}
  }

  /** A platform: which of the flags it has, their values, and those of the three access modes. */
  datatype Platform = Platform(has: set<nat>, os: seq<Bits>, modes: (Bits, Bits, Bits))

  /** Only O_TMPFILE, O_DIRECT, O_NOATIME and O_PATH may be missing. */
  predicate Complete(p: Platform) {
    |p.os| == OPEN_FLAGS && forall k :: 0 <= k < OPEN_FLAGS && k !in {0, 10, 13, 15} ==> k in p.has
  }

  function Entry(p: Platform, k: nat): Pair
    requires Complete(p) && k < OPEN_FLAGS
  {
    Pair(OpenFlag(k), p.os[k])
  }

  /** The table from its `k`th entry on. */
  function OpenFrom(p: Platform, k: nat): seq<Pair>
    requires Complete(p)
    decreases OPEN_FLAGS - k
  {
    if k >= OPEN_FLAGS then [] else (if k in p.has then [Entry(p, k)] else []) + OpenFrom(p, k + 1)
  }

  function Modes(p: Platform): seq<Pair> {
    [Pair({}, p.modes.0), Pair({0}, p.modes.1), Pair({1}, p.modes.2)]
  }

  /** The platform's value of the `k`th flag has a bit that no later one has, and nothing in common
      with those of flags that have nothing in common with it here. */
  ghost predicate FlagOk(p: Platform, k: nat)
    requires Complete(p) && k < OPEN_FLAGS
  {
    && (exists b :: b in p.os[k] && forall j :: k < j < OPEN_FLAGS && j in p.has ==> b !in p.os[j])
    && (forall j :: k < j < OPEN_FLAGS && j in p.has && OpenFlag(j) * OpenFlag(k) == {} ==> p.os[j] * p.os[k] == {})
  }

  ghost predicate FlagsOkFrom(p: Platform, n: nat)
    requires Complete(p)
  {
    forall k :: n <= k < OPEN_FLAGS && k in p.has ==> FlagOk(p, k)
  }

  /** The modes' values differ, and have nothing in common with any flag's. */
  ghost predicate ModesOk(p: Platform)
    requires Complete(p)
  {
    && p.modes.0 != p.modes.1 && p.modes.0 != p.modes.2 && p.modes.1 != p.modes.2
    && forall k :: 0 <= k < OPEN_FLAGS && k in p.has ==> p.os[k] * (p.modes.0 + p.modes.1 + p.modes.2) == {}
  }

  lemma OpenPair(k: nat, j: nat)
    requires k < j < OPEN_FLAGS
    ensures OpenFlag(j) <= OpenFlag(k) || OpenFlag(j) * OpenFlag(k) == {}
  {
  }

  lemma {:induction false} OpenEntries(p: Platform, n: nat, e: Pair)
    requires Complete(p)
    ensures e in OpenFrom(p, n) <==> exists k :: n <= k < OPEN_FLAGS && k in p.has && e == Entry(p, k)
    decreases OPEN_FLAGS - n
  {
    if n < OPEN_FLAGS {
      OpenEntries(p, n + 1, e);
      hide OpenFlag;
    }
  }

  lemma {:induction false} OpenOsBits(p: Platform, n: nat, b: nat)
    requires Complete(p)
    ensures b in OsBits(OpenFrom(p, n)) <==> exists k :: n <= k < OPEN_FLAGS && k in p.has && b in p.os[k]
    decreases OPEN_FLAGS - n
  {
    if n < OPEN_FLAGS {
      OpenOsBits(p, n + 1, b);
      hide OpenFlag;
      var rest := OpenFrom(p, n + 1);
      if n in p.has { assert OpenFrom(p, n)[1..] == rest; } else { assert OpenFrom(p, n) == rest; }
    }
  }

  lemma OwnBitExact(p: Platform, k: nat)
    requires Complete(p) && k < OPEN_FLAGS
    ensures !(p.os[k] <= OsBits(OpenFrom(p, k + 1))) <==>
            exists b :: b in p.os[k] && forall j :: k < j < OPEN_FLAGS && j in p.has ==> b !in p.os[j]
  {
    var later := OsBits(OpenFrom(p, k + 1));
    forall b ensures b in later <==> exists j :: k < j < OPEN_FLAGS && j in p.has && b in p.os[j] {
      OpenOsBits(p, k + 1, b);
    }
    hide OpenFrom, OsBits;
    if !(p.os[k] <= later) {
      var b :| b in p.os[k] && b !in later;
    }
  }

  /** The later entries are the platform's later flags. */
  lemma LaterEntries(p: Platform, k: nat)
    requires Complete(p) && k < OPEN_FLAGS
    ensures var rest := OpenFrom(p, k + 1);
            && (forall i :: 0 <= i < |rest| ==> exists j :: k < j < OPEN_FLAGS && j in p.has && rest[i] == Entry(p, j))
            && (forall j :: k < j < OPEN_FLAGS && j in p.has ==> Entry(p, j) in rest)
  {
    var rest := OpenFrom(p, k + 1);
    forall i | 0 <= i < |rest| ensures exists j :: k < j < OPEN_FLAGS && j in p.has && rest[i] == Entry(p, j) {
      OpenEntries(p, k + 1, rest[i]);
    }
    forall j | k < j < OPEN_FLAGS && j in p.has ensures Entry(p, j) in rest {
      OpenEntries(p, k + 1, Entry(p, j));
    }
  }

  lemma LaterNested(p: Platform, k: nat)
    requires Complete(p) && k < OPEN_FLAGS
    ensures var rest := OpenFrom(p, k + 1);
            forall i :: 0 <= i < |rest| ==> rest[i].sppc <= OpenFlag(k) || rest[i].sppc * OpenFlag(k) == {}
  {
    LaterEntries(p, k);
    var rest := OpenFrom(p, k + 1);
    hide OpenFrom, OpenFlag;
    forall i | 0 <= i < |rest| ensures rest[i].sppc <= OpenFlag(k) || rest[i].sppc * OpenFlag(k) == {} {
      var j :| k < j < OPEN_FLAGS && j in p.has && rest[i] == Entry(p, j);
      OpenPair(k, j);
    }
  }

  lemma ApartExact(p: Platform, k: nat)
    requires Complete(p) && k < OPEN_FLAGS
    ensures var rest := OpenFrom(p, k + 1);
            (forall i :: 0 <= i < |rest| ==> rest[i].sppc * OpenFlag(k) == {} ==> rest[i].os * p.os[k] == {}) <==>
            (forall j :: k < j < OPEN_FLAGS && j in p.has && OpenFlag(j) * OpenFlag(k) == {} ==> p.os[j] * p.os[k] == {})
  {
    LaterEntries(p, k);
    var rest := OpenFrom(p, k + 1);
    hide OpenFrom, OpenFlag;
    if forall i :: 0 <= i < |rest| ==> rest[i].sppc * OpenFlag(k) == {} ==> rest[i].os * p.os[k] == {} {
      forall j | k < j < OPEN_FLAGS && j in p.has && OpenFlag(j) * OpenFlag(k) == {} ensures p.os[j] * p.os[k] == {} {
        var i :| 0 <= i < |rest| && rest[i] == Entry(p, j);
      }
    }
  }

  /** An entry may come before the later ones exactly if its value on the platform is as it should be. */
  lemma HeadsExact(p: Platform, k: nat)
    requires Complete(p) && k < OPEN_FLAGS && k in p.has
    ensures Heads(Entry(p, k), OpenFrom(p, k + 1)) <==> FlagOk(p, k)
  {
    OwnBitExact(p, k);
    LaterNested(p, k);
    ApartExact(p, k);
    assert OpenFlag(k) != {} by { assert OpenBit(k) in OpenFlag(k); }
    hide OpenFlag, OpenFrom, OsBits;
  }

  /** sppc's open flags meet the conditions of the round trips exactly on the platforms that have them
      with values that do: the order they are listed in is right for all of those. */
  lemma {:induction false} OpenProper(p: Platform, n: nat)
    requires Complete(p)
    ensures Proper(OpenFrom(p, n)) <==> FlagsOkFrom(p, n)
    decreases OPEN_FLAGS - n
  {
    if n < OPEN_FLAGS {
      OpenProper(p, n + 1);
      var rest := OpenFrom(p, n + 1);
      if n in p.has {
        HeadsExact(p, n);
        assert OpenFrom(p, n)[0] == Entry(p, n) && OpenFrom(p, n)[1..] == rest;
      } else {
        assert OpenFrom(p, n) == rest;
      }
      hide FlagOk, Heads;
    }
  }

  lemma ModesBits(p: Platform)
    ensures OsBits(Modes(p)) == p.modes.0 + p.modes.1 + p.modes.2
  {
    var ms := Modes(p);
    var two, one, none := ms[1..], ms[1..][1..], ms[1..][1..][1..];
    assert none == [] && OsBits(none) == {};
    assert one[0] == ms[2] && OsBits(one) == p.modes.2 + {};
    assert two[0] == ms[1] && OsBits(two) == p.modes.1 + p.modes.2;
  }

  /** The bits of all flags have nothing in common with `all` exactly if those of each have not. */
  lemma FlagsApart(p: Platform, all: Bits)
    requires Complete(p)
    ensures all * OsBits(OpenFrom(p, 0)) == {} <==> forall k :: 0 <= k < OPEN_FLAGS && k in p.has ==> p.os[k] * all == {}
  {
    var bits := OsBits(OpenFrom(p, 0));
    forall b ensures b in bits <==> exists k :: 0 <= k < OPEN_FLAGS && k in p.has && b in p.os[k] {
      OpenOsBits(p, 0, b);
    }
    hide OpenFrom, OsBits;
    if all * bits == {} {
      forall k, b | 0 <= k < OPEN_FLAGS && k in p.has && b in p.os[k] ensures b !in all {
        assert b !in all * bits;
      }
    } else {
      var b :| b in all * bits;
      var k :| 0 <= k < OPEN_FLAGS && k in p.has && b in p.os[k];
      assert b in p.os[k] * all;
    }
  }

  lemma ModesExact(p: Platform)
    requires Complete(p)
    ensures ProperModes(Modes(p), ACCMODE, OpenFrom(p, 0)) <==> ModesOk(p)
    ensures OsBits(Modes(p)) == p.modes.0 + p.modes.1 + p.modes.2
  {
    ModesBits(p);
    FlagsApart(p, p.modes.0 + p.modes.1 + p.modes.2);
    hide OpenFrom, OsBits;
    var ms := Modes(p);
    assert ms[0].os == p.modes.0 && ms[1].os == p.modes.1 && ms[2].os == p.modes.2;
  }

  /** What opening accepts, and that what it accepts comes back, on every such platform: any mode but
      the fourth, and any flags that are a union of those the platform has. */
  lemma OpenFlagsRoundTrip(p: Platform, flags: Bits)
    requires Complete(p) && FlagsOkFrom(p, 0) && ModesOk(p)
    ensures var modes, table := Modes(p), OpenFrom(p, 0);
            var accepted := ToOsOf(flags * ACCMODE, modes).Some? && Unclaimed(flags - ACCMODE, table) == {};
            && (accepted <==> flags * ACCMODE != ACCMODE && IsUnion(flags - ACCMODE, table))
            && (accepted ==>
                  var os := ToOsOf(flags * ACCMODE, modes).value + ToOs(flags - ACCMODE, table);
                  FromOsOf(os * OsBits(modes), modes, {}) + FromOs(os - OsBits(modes), table) == flags)
  {
    OpenProper(p, 0);
    ModesExact(p);
    AcceptedIffUnion(flags - ACCMODE, OpenFrom(p, 0));
    ModeAccepted(p, flags * ACCMODE);
    hide OpenFrom, Modes, FlagsOkFrom, ModesOk;
    if ToOsOf(flags * ACCMODE, Modes(p)).Some? && Unclaimed(flags - ACCMODE, OpenFrom(p, 0)) == {} {
      OpenRoundTrip(flags, ACCMODE, Modes(p), OpenFrom(p, 0));
    }
  }

  lemma ModeAccepted(p: Platform, mode: Bits)
    requires mode <= ACCMODE
    ensures ToOsOf(mode, Modes(p)).Some? <==> mode != ACCMODE
  {
    var ms := Modes(p);
    assert ms[1..] == [ms[1], ms[2]] && ms[1..][1..] == [ms[2]] && ms[1..][1..][1..] == [];
    assert ToOsOf(mode, ms[1..][1..]).Some? <==> mode == {1};
    assert ToOsOf(mode, ms[1..]).Some? <==> mode == {0} || mode == {1};
    assert mode == {} || mode == {0} || mode == {1} || mode == {0, 1};
  }

  /** Linux on x86 has the bits that sppc has, and all of its flags. */
  function Linux(): Platform {
    Platform({0, 1, 2, 3, 4, 5, 6, 7, 8, 9, 10, 11, 12, 13, 14, 15}, seq(OPEN_FLAGS, k requires 0 <= k < OPEN_FLAGS => OpenFlag(k)), ({}, {0}, {1}))
  }

  lemma LinuxOk()
    ensures Complete(Linux()) && FlagsOkFrom(Linux(), 0) && ModesOk(Linux())
  {
    var p := Linux();
    forall k | 0 <= k < OPEN_FLAGS ensures FlagOk(p, k) && p.os[k] * ({} + {0} + {1}) == {} {
      assert p.os[k] == OpenFlag(k);
      assert OpenBit(k) in p.os[k];
      forall j | k < j < OPEN_FLAGS ensures OpenBit(k) !in p.os[j] {
      }
    }
  }
}
