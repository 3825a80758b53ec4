/** The console writer: bytes go out in whole characters, however the stream is cut into writes. */
module Console {
  import opened Utf8

  /** The bytes of a list of puts, in order. */
  function Flat(puts: seq<seq<byte>>): seq<byte> {
    if puts == [] then [] else Flat(puts[..|puts| - 1]) + puts[|puts| - 1]
  }

  /** Every put ends where a unit of the stream `x` does. */
  ghost predicate Aligned(x: seq<byte>, puts: seq<seq<byte>>) {
    forall k :: 0 <= k <= |puts| ==> Boundary(x, |Flat(puts[..k])|)
  }

  lemma {:induction false} FlatGrows(puts: seq<seq<byte>>, k: nat)
    requires k <= |puts|
    ensures |Flat(puts[..k])| <= |Flat(puts)|
  {
    if k < |puts| {
      FlatGrows(puts[..|puts| - 1], k);
      assert puts[..|puts| - 1][..k] == puts[..k];
    } else {
      assert puts[..k] == puts;
    }
  }

  lemma AlignedStays(x: seq<byte>, puts: seq<seq<byte>>, y: seq<byte>)
    requires Aligned(x, puts) && |Flat(puts)| <= |x| - |Tail(x)|
    ensures Aligned(x + y, puts)
  {
    forall k | 0 <= k <= |puts| ensures Boundary(x + y, |Flat(puts[..k])|) {
      FlatGrows(puts, k);
      BoundaryStays(x, y, |Flat(puts[..k])|);
    }
  }

  lemma AlignedPut(x: seq<byte>, puts: seq<seq<byte>>, u: seq<byte>)
    requires Aligned(x, puts) && Boundary(x, |Flat(puts)| + |u|)
    ensures Aligned(x, puts + [u]) && Flat(puts + [u]) == Flat(puts) + u
  {
    assert (puts + [u])[..|puts|] == puts;
    forall k | 0 <= k <= |puts| + 1 ensures Boundary(x, |Flat((puts + [u])[..k])|) {
      if k <= |puts| { assert (puts + [u])[..k] == puts[..k]; } else { assert (puts + [u])[..k] == puts + [u]; }
    }
  }

  /** The pending character `p` of the stream `x` ends, with the first `i` bytes of what follows,
      because it is whole or because the next byte cannot go on with it. */
  lemma PendingEnds(x: seq<byte>, data: seq<byte>, i: nat)
    requires var p := Tail(x); p != [] && i <= |data| && |p| + i <= Len(p[0])
    requires forall j :: 0 <= j < i ==> Cont(data[j])
    requires |Tail(x)| + i == Len(Tail(x)[0]) || (i < |data| && !Cont(data[i]))
    ensures Tail(x + data) == Tail(data[i..]) && Boundary(x + data, |x| + i)
  {
    hide Tail, UnitLen, Unfinished, Boundary, Len, Cont;
    var p := Tail(x);
    TailIs(x);
    TailJoin(x, data);
    PieceEnds(p, data, i);
    BoundaryFrom(x, data, |p| + i);
  }

  lemma PieceEnds(p: seq<byte>, data: seq<byte>, i: nat)
    requires Unfinished(p) && i <= |data| && |p| + i <= Len(p[0])
    requires forall j :: 0 <= j < i ==> Cont(data[j])
    requires |p| + i == Len(p[0]) || (i < |data| && !Cont(data[i]))
    ensures Tail(p + data) == Tail(data[i..]) && Boundary(p + data, |p| + i)
  {
    PendingUnit(p, data, i);
    hide Tail, UnitLen, Boundary, Len, Cont;
    TailStep(p + data);
    FirstUnit(p + data);
  }

  /** A boundary of what follows the start of the pending character is one of the stream. */
  lemma BoundaryFrom(x: seq<byte>, data: seq<byte>, n: nat)
    requires Boundary(Tail(x) + data, n)
    ensures Boundary(x + data, |x| - |Tail(x)| + n)
  {
    hide Tail, Boundary;
    var a := |x| - |Tail(x)|;
    TailIs(x);
    TailStart(x, data);
    DropJoin(x, data, a);
    BoundaryBeyond(x + data, a, a + n);
  }

  lemma DropJoin(x: seq<byte>, y: seq<byte>, a: nat)
    requires a <= |x|
    ensures (x + y)[a..] == x[a..] + y
  {
  }

  lemma FirstUnit(y: seq<byte>)
    requires y != []
    ensures Boundary(y, UnitLen(y))
  {
  }

  lemma TailStart(x: seq<byte>, data: seq<byte>)
    ensures Boundary(x + data, |x| - |Tail(x)|)
  {
    hide Boundary, Tail;
    TailAtBoundary(x);
    BoundaryStays(x, data, |x| - |Tail(x)|);
  }

  lemma PendingUnit(p: seq<byte>, data: seq<byte>, i: nat)
    requires Unfinished(p) && i <= |data| && |p| + i <= Len(p[0])
    requires forall j :: 0 <= j < i ==> Cont(data[j])
    requires |p| + i == Len(p[0]) || (i < |data| && !Cont(data[i]))
    ensures UnitLen(p + data) == |p| + i && !Unfinished(p + data) && (p + data)[|p| + i..] == data[i..]
  {
    var u := p + data[..i];
    assert p + data == u + data[i..];
    TailConts(p);
    forall j | 1 <= j < |u| ensures Cont(u[j]) {
      if j < |p| { assert u[j] == p[j]; } else { assert u[j] == data[j - |p|]; }
    }
    UnitIs(u, data[i..]);
  }

  /** It does not end: all that follows goes on with it. */
  lemma PendingGoesOn(x: seq<byte>, data: seq<byte>)
    requires var p := Tail(x); p != [] && |p| + |data| < Len(p[0])
    requires forall j :: 0 <= j < |data| ==> Cont(data[j])
    ensures Tail(x + data) == Tail(x) + data
  {
    var p := Tail(x);
    var u := p + data;
    TailIs(x);
    TailConts(p);
    forall j | 0 <= j < |u| - 1 ensures Cont(u[1..][j]) {
      if j + 1 < |p| { assert u[1..][j] == p[j + 1]; } else { assert u[1..][j] == data[j + 1 - |p|]; }
    }
    ContRunIs(u[1..], Len(u[0]) - 1, |u| - 1);
    TailJoin(x, data);
  }

  lemma TailConts(p: seq<byte>)
    requires Unfinished(p)
    ensures forall j :: 1 <= j < |p| ==> Cont(p[j])
  {
    UnitConts(p);
  }

  /** How far the stream `x` is: the puts made, what is pending, and the rest, still to be seen to. */
  ghost predicate Midway(x: seq<byte>, puts: seq<seq<byte>>, pend: seq<byte>, rest: seq<byte>) {
    && Flat(puts) + pend + rest == x && Aligned(x, puts)
    && Tail(x) == pend + Tail(rest) && (pend != [] ==> rest == [])
  }

  lemma NoTail()
    ensures Tail([]) == []
  {
  }

  lemma MidwayPut(x: seq<byte>, puts: seq<seq<byte>>, data: seq<byte>, i: nat)
    requires Midway(x, puts, Tail(x), []) && Tail(x) != [] && i <= |data| && |Tail(x)| + i <= Len(Tail(x)[0])
    requires forall j :: 0 <= j < i ==> Cont(data[j])
    requires |Tail(x)| + i == Len(Tail(x)[0]) || (i < |data| && !Cont(data[i]))
    ensures Midway(x + data, puts + [Tail(x) + data[..i]], [], data[i..])
  {
    hide Boundary, Tail, Flat, Aligned, Len, Cont;
    var u := Tail(x) + data[..i];
    assert Flat(puts) + u == x + data[..i];
    AlignedStays(x, puts, data);
    PendingEnds(x, data, i);
    AlignedPut(x + data, puts, u);
    assert data == data[..i] + data[i..];
    assert x + data == (x + data[..i]) + data[i..];
  }

  lemma MidwayGoesOn(x: seq<byte>, puts: seq<seq<byte>>, data: seq<byte>)
    requires Midway(x, puts, Tail(x), []) && Tail(x) != [] && |Tail(x)| + |data| < Len(Tail(x)[0])
    requires forall j :: 0 <= j < |data| ==> Cont(data[j])
    ensures Midway(x + data, puts, Tail(x) + data, [])
  {
    hide Boundary, Tail, Flat, Aligned, Len, Cont;
    NoTail();
    AlignedStays(x, puts, data);
    PendingGoesOn(x, data);
    assert Flat(puts) + (Tail(x) + data) == x + data;
  }

  lemma MidwayStarts(x: seq<byte>, puts: seq<seq<byte>>, data: seq<byte>)
    requires Midway(x, puts, Tail(x), []) && (Tail(x) == [] || data == [])
    ensures Midway(x + data, puts, Tail(x), data)
  {
    hide Boundary, Flat, Aligned, Tail;
    if data == [] {
      assert x + data == x;
    } else {
      AlignedStays(x, puts, data);
      TailJoin(x, data);
      assert [] + data == data && Flat(puts) == x;
    }
  }

  /** The rest put out as far as it is whole, the stream is seen to. */
  lemma MidwayEnds(x: seq<byte>, puts: seq<seq<byte>>, pend: seq<byte>, rest: seq<byte>, whole: nat)
    requires Midway(x, puts, pend, rest) && whole == |rest| - |Tail(rest)|
    ensures var puts' := if rest[..whole] == [] then puts else puts + [rest[..whole]];
            Midway(x, puts', Tail(x), []) && Tail(x) == pend + rest[whole..] && (rest[..whole] != [] ==> pend == [])
  {
    hide Boundary, Tail, Flat, Aligned, Len, Cont, UnitLen, Unfinished;
    TailIs(rest);
    NoTail();
    TailAtBoundary(x);
    var u := rest[..whole];
    assert rest == u + Tail(rest) && rest[whole..] == Tail(rest);
    if u != [] {
      assert Flat(puts) + u + Tail(rest) == x;
      AlignedPut(x, puts, u);
    } else {
      assert pend + rest == Tail(x);
    }
  }

  lemma MidwayNone()
    ensures Midway([], [], [], []) && Tail([]) == []
  {
  }

  /** The length of `data` up to a character cut off by its end; a scan back from the end finds it. */
  method Whole(data: seq<byte>) returns (n: nat)
    ensures n == |data| - |Tail(data)|
  {
    var back := 1;
    while back <= 3 && back <= |data|
      invariant 1 <= back <= 4 && back <= |data| + 1
      invariant forall i :: |data| - back < i < |data| ==> Cont(data[i])
    {
      var c := data[|data| - back];
      if Cont(c) {
        back := back + 1;
        continue;
      }
      TailFromLead(data, back);
      return if Len(c) > back then |data| - back else |data|;
    }
    TailWithoutLead(data);
    return |data|;
  }

  class Writer {
    var pending: array<byte>
    var npending: nat

    // What was put out since the start, or since a put failed, and the bytes taken since then.
    ghost var puts: seq<seq<byte>>
    ghost var taken: seq<byte>

    /** What is out is the stream but for what it ends part-way through, which is pending; and each
        put so far ended where a unit of the stream does. */
    ghost predicate Valid()
      reads this, pending
    {
      && pending.Length == 4 && npending <= 3 && pending[..npending] == Tail(taken)
      && Midway(taken, puts, Tail(taken), [])
    }

    constructor ()
      ensures Valid() && taken == [] && puts == [] && fresh(pending)
    {
      pending := new byte[4](_ => 0);
      npending := 0;
      puts, taken := [], [];
      MidwayNone();
    }

    /** The system shows the bytes, or fails. True is the failure. */
    method Put(data: seq<byte>, shows: bool) returns (err: bool)
      modifies `puts
      ensures err == (data != [] && !shows)
      ensures puts == if data != [] && shows then old(puts) + [data] else old(puts)
    {
      if |data| == 0 { return false; }
      if shows { puts := puts + [data]; }
      return !shows;
    }

    method AddByte(c: byte)
      requires npending < pending.Length
      modifies `npending, pending
      ensures npending == old(npending) + 1 && pending[..npending] == old(pending[..npending]) + [c]
    {
      ghost var had := pending[..npending];
      pending[npending] := c;
      npending := npending + 1;
      assert pending[..npending] == had + [c];
    }

    lemma PendingLead()
      requires Valid() && npending > 0
      ensures pending.Length == 4 && pending[..npending] == Tail(taken) && pending[0] == Tail(taken)[0]
      ensures npending < Len(Tail(taken)[0])
    {
      hide Tail, UnitLen, Flat, Aligned, Cont, Len, Midway;
      TailIs(taken);
      assert pending[0] == pending[..npending][0];
    }

    /** Finish the character the last write began, as far as `data` does. What it used of `data`,
        and whether the character is over. */
    method Continue(data: seq<byte>) returns (used: nat, over: bool)
      requires Valid() && npending > 0
      modifies `npending, pending
      ensures used <= |data| && npending == old(npending) + used <= 4
      ensures pending[..npending] == Tail(taken) + data[..used] && npending <= Len(Tail(taken)[0])
      ensures forall j :: 0 <= j < used ==> Cont(data[j])
      ensures over == (npending == Len(Tail(taken)[0]) || used < |data|)
      ensures npending < Len(Tail(taken)[0]) && used < |data| ==> !Cont(data[used])
    {
      hide Tail, UnitLen, Unfinished, Flat, Aligned, Cont, Len, Midway;
      PendingLead();
      ghost var t := Tail(taken);
      var want := Len(pending[0]);
      used := 0;
      while npending < want && used < |data| && Cont(data[used])
        invariant used <= |data| && npending == old(npending) + used <= want
        invariant pending[..npending] == t + data[..used]
        invariant forall j :: 0 <= j < used ==> Cont(data[j])
      {
        assert data[..used + 1] == data[..used] + [data[used]];
        AddByte(data[used]);
        used := used + 1;
      }
      over := npending == want || used < |data|;
    }

    /** The first part of a write: the character the last one began, put out if `data` ends it. The
        rest of `data` is still to be seen to then. */
    method Finish(data: seq<byte>, shows: bool) returns (used: nat, err: bool)
      requires Valid()
      modifies `npending, `puts, pending
      ensures used <= |data| && npending <= 3 && old(puts) <= puts && (err ==> !shows && npending == 0)
      ensures !err ==> Midway(taken + data, puts, pending[..npending], data[used..])
    {
      hide Tail, Flat, Aligned, Midway, Len, Cont;
      used, err := 0, false;
      if npending > 0 && |data| > 0 {
        var over;
        used, over := Continue(data);
        if over {
          MidwayPut(taken, puts, data, used);
          assert |pending[..npending]| > 0;
          err := Put(pending[..npending], shows);
          npending := 0;
          assert pending[..npending] == [];
        } else {
          assert data[..used] == data && data[used..] == [];
          MidwayGoesOn(taken, puts, data);
        }
      } else {
        assert npending == 0 ==> pending[..npending] == [];
        MidwayStarts(taken, puts, data);
        assert data[used..] == data;
      }
    }

    /** Put out all characters complete with `data`, and keep the bytes of one still to be completed. The
        answer is the length of `data`, or -1 on a failure; `shows` is what becomes of each put. */
    method Write(data: seq<byte>, shows: (bool, bool)) returns (r: int)
      requires Valid()
      modifies this, pending
      ensures Valid() && pending == old(pending)
      ensures r == |data| || (r == -1 && !(shows.0 && shows.1))
      ensures r == |data| ==> taken == old(taken) + data && old(puts) <= puts
      ensures r == -1 ==> taken == [] && puts == [] && npending == 0
    {
      hide Tail, Flat, Aligned, Midway, Len, Cont;
      var used, err := Finish(data, shows.0);
      if err {
        Forget();
        return -1;
      }
      var rest := data[used..];
      var whole := Whole(rest);
      MidwayEnds(taken + data, puts, pending[..npending], rest, whole);
      err := Put(rest[..whole], shows.1);
      if err {
        Forget();
        return -1;
      }
      Keep(rest[whole..]);
      taken := taken + data;
      return |data|;
    }

    method Forget()
      requires npending == 0 && pending.Length == 4
      modifies `puts, `taken
      ensures Valid() && taken == [] && puts == []
    {
      taken, puts := [], [];
      MidwayNone();
    }

    /** Bytes added to those pending. */
    method Keep(data: seq<byte>)
      requires npending + |data| <= 4 == pending.Length
      modifies `npending, pending
      ensures npending == old(npending) + |data| && pending[..npending] == old(pending[..npending]) + data
    {
      var k := 0;
      while k < |data|
        invariant k <= |data| && npending == old(npending) + k
        invariant pending[..npending] == old(pending[..npending]) + data[..k]
      {
        assert data[..k + 1] == data[..k] + [data[k]];
        AddByte(data[k]);
        k := k + 1;
      }
    }
  }

  /** However the same bytes were cut into writes, the same has come out, as one list of bytes, and the
      same is pending: it is the part of a character the stream ends with, three bytes at most. */
  lemma CutsDoNotMatter(v: Writer, w: Writer)
    requires v.Valid() && w.Valid() && v.taken == w.taken
    ensures Flat(v.puts) == Flat(w.puts) && v.pending[..v.npending] == w.pending[..w.npending]
    ensures Flat(v.puts) == v.taken[..|v.taken| - |Tail(v.taken)|] && v.npending == |Tail(v.taken)| <= 3
  {
    var x := v.taken;
    hide Tail, Aligned, Flat;
    assert Flat(v.puts) + Tail(x) == x && Flat(w.puts) + Tail(x) == x;
    assert Flat(v.puts) == x[..|x| - |Tail(x)|] == Flat(w.puts);
  }

  /** No put of the stream's characters ends inside one of them. */
  lemma CharactersStayWhole(w: Writer, k: nat, a: nat, b: nat)
    requires w.Valid() && k <= |w.puts| && a <= b <= |w.taken| && WellFormed(w.taken[a..b])
    ensures var i := |Flat(w.puts[..k])|; i <= a || b <= i
  {
    hide Tail, Boundary, Flat;
    CharacterIsOneUnit(w.taken, a, b, |Flat(w.puts[..k])|);
  }
}
