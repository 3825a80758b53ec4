/** A byte stream as the console writer takes it apart: units, each a lead byte with the continuation
    bytes it calls for, as many as there are, or a byte that can lead nothing. */
module Utf8 {

  type byte = c: nat | c < 256

  /** How long the character is that the byte starts, 1 for one that starts none. */
  function Len(lead: byte): (n: nat)
    ensures 1 <= n <= 4 && (Cont(lead) ==> n == 1)
  {
    if 0xF0 <= lead <= 0xF7 then 4
    else if lead >= 0xE0 then if lead <= 0xEF then 3 else 1
    else if lead >= 0xC0 then 2
    else 1
  }

  /** How many 1 bits a byte begins with, `top` being the place of the first that is looked at. */
  function LeadingOnes(c: nat, top: nat): nat {
    if top == 0 || c < top then 0 else 1 + LeadingOnes(c - top, top / 2)
  }

  /** A lead byte begins with as many 1 bits as its character has bytes, two to four of them (section 3
      of RFC 3629); any other byte is one on its own. */
  lemma {:induction false} LenIsLeadingOnes(c: byte)
    ensures var n := LeadingOnes(c, 0x80); Len(c) == if 2 <= n <= 4 then n else 1
  {
    if c >= 0x80 {
      var b := c - 0x80;
      assert LeadingOnes(c, 0x80) == 1 + LeadingOnes(b, 0x40);
      if b >= 0x40 {
        assert LeadingOnes(b, 0x40) == 1 + LeadingOnes(b - 0x40, 0x20);
        if b >= 0x60 {
          assert LeadingOnes(b - 0x40, 0x20) == 1 + LeadingOnes(b - 0x60, 0x10);
          if b >= 0x70 { assert LeadingOnes(b - 0x60, 0x10) == 1 + LeadingOnes(b - 0x70, 0x08); }
        }
      }
    }
  }

  /** A continuation byte: its top two bits are 10. */
  predicate Cont(c: byte) {
    0x80 <= c < 0xC0
  }

  /** How many continuation bytes a stream begins with, counting no more than `most`. */
  function ContRun(x: seq<byte>, most: nat): (n: nat)
    ensures n <= most && n <= |x| && (forall i :: 0 <= i < n ==> Cont(x[i]))
    ensures n < most && n < |x| ==> !Cont(x[n])
  {
    if most == 0 || x == [] || !Cont(x[0]) then 0 else 1 + ContRun(x[1..], most - 1)
  }

  lemma {:induction false} ContRunIs(x: seq<byte>, most: nat, n: nat)
    requires n <= most && n <= |x| && (forall i :: 0 <= i < n ==> Cont(x[i]))
    requires n < most && n < |x| ==> !Cont(x[n])
    ensures ContRun(x, most) == n
  {
    if n > 0 { ContRunIs(x[1..], most - 1, n - 1); }
  }

  function UnitLen(x: seq<byte>): (n: nat)
    requires x != []
    ensures 1 <= n <= |x| && n <= Len(x[0])
  {
    1 + ContRun(x[1..], Len(x[0]) - 1)
  }

  /** A unit, at the end of a stream, that more bytes could still go on with. */
  predicate Unfinished(u: seq<byte>) {
    u != [] && UnitLen(u) == |u| < Len(u[0])
  }

  /** What the stream ends part-way through. */
  function Tail(x: seq<byte>): (t: seq<byte>)
    ensures |t| <= 3 && |t| <= |x|
    decreases |x|
  {
    if x == [] || Unfinished(x) then x else Tail(x[UnitLen(x)..])
  }

  lemma {:induction false} TailIs(x: seq<byte>)
    ensures x[|x| - |Tail(x)|..] == Tail(x) && (Tail(x) == [] || Unfinished(Tail(x)))
    decreases |x|
  {
    hide UnitLen, Len;
    if x != [] && !Unfinished(x) {
      TailIs(x[UnitLen(x)..]);
    }
  }

  /** A place where one unit of the stream ends and the next begins, or its start or end. */
  predicate Boundary(x: seq<byte>, i: nat)
    decreases |x|
  {
    i == 0 || (x != [] && UnitLen(x) <= i && Boundary(x[UnitLen(x)..], i - UnitLen(x)))
  }

  /** The first unit is what it is by what follows it, once that is more than it can take or not a
      continuation. */
  lemma UnitExtends(x: seq<byte>, y: seq<byte>)
    requires x != [] && !Unfinished(x)
    ensures UnitLen(x + y) == UnitLen(x) && (x + y)[UnitLen(x)..] == x[UnitLen(x)..] + y
  {
    var n := UnitLen(x);
    assert (x + y)[1..] == x[1..] + y;
    forall i | 0 <= i < n - 1 ensures Cont((x + y)[1..][i]) {
      assert x[1..][i] == (x + y)[1..][i];
    }
    ContRunIs((x + y)[1..], Len(x[0]) - 1, n - 1);
  }

  lemma UnitIs(u: seq<byte>, y: seq<byte>)
    requires u != [] && |u| <= Len(u[0]) && forall i :: 1 <= i < |u| ==> Cont(u[i])
    requires |u| == Len(u[0]) || (y != [] && !Cont(y[0]))
    ensures UnitLen(u + y) == |u| && (u + y)[|u|..] == y
  {
    ContRunIs((u + y)[1..], Len(u[0]) - 1, |u| - 1);
  }

  /** What a stream ends part-way through is all that matters to what comes after it. */
  lemma {:induction false} TailJoin(x: seq<byte>, y: seq<byte>)
    ensures Tail(x + y) == Tail(Tail(x) + y)
    decreases |x|
  {
    hide UnitLen;
    if x != [] && !Unfinished(x) {
      UnitExtends(x, y);
      TailJoin(x[UnitLen(x)..], y);
      assert !Unfinished(x + y) by {
        if UnitLen(x) == |x + y| { assert x + y == x; }
      }
    }
  }

  /** Where a unit ended stays so as the stream goes on, but for the end of what it is part-way
      through. */
  lemma {:induction false} BoundaryStays(x: seq<byte>, y: seq<byte>, i: nat)
    requires Boundary(x, i) && i <= |x| - |Tail(x)|
    ensures Boundary(x + y, i)
    decreases |x|
  {
    hide UnitLen;
    if i > 0 {
      UnitExtends(x, y);
      BoundaryStays(x[UnitLen(x)..], y, i - UnitLen(x));
    }
  }

  /** Beyond a boundary, the boundaries are those of the rest of the stream. */
  lemma {:induction false} BoundaryBeyond(x: seq<byte>, a: nat, i: nat)
    requires Boundary(x, a) && a <= i && a <= |x|
    ensures Boundary(x, i) <==> Boundary(x[a..], i - a)
    decreases |x|
  {
    hide UnitLen;
    if a > 0 {
      var n := UnitLen(x);
      BoundaryBeyond(x[n..], a - n, i - n);
      assert x[n..][a - n..] == x[a..];
    } else {
      assert x[a..] == x;
    }
  }

  /** What ends whole has a boundary at the place its tail begins. */
  lemma {:induction false} TailAtBoundary(x: seq<byte>)
    ensures Boundary(x, |x| - |Tail(x)|)
    decreases |x|
  {
    hide UnitLen, Unfinished;
    if x != [] && !Unfinished(x) {
      var rest := x[UnitLen(x)..];
      TailAtBoundary(rest);
      assert Tail(x) == Tail(rest);
      hide Tail;
    }
  }

  lemma UnitConts(x: seq<byte>)
    requires x != []
    ensures forall i :: 1 <= i < UnitLen(x) ==> Cont(x[i])
  {
    assert forall i :: 1 <= i < UnitLen(x) ==> x[i] == x[1..][i - 1];
  }

  /** A byte that is no continuation always begins a unit. */
  lemma {:induction false} LeadAtBoundary(x: seq<byte>, a: nat)
    requires a < |x| && !Cont(x[a])
    ensures Boundary(x, a)
    decreases |x|
  {
    if a > 0 {
      var n := UnitLen(x);
      UnitConts(x);
      hide UnitLen;
      LeadAtBoundary(x[n..], a - n);
    }
  }

  /** The byte sequences that encode a character, as sections 3 and 4 of RFC 3629 list them. */
  predicate WellFormed(s: seq<byte>) {
    match |s|
    case 1 => s[0] <= 0x7F
    case 2 => 0xC2 <= s[0] <= 0xDF && Cont(s[1])
    case 3 =>
      && Cont(s[1]) && Cont(s[2])
      && (s[0] == 0xE0 ==> s[1] >= 0xA0) && (s[0] == 0xED ==> s[1] <= 0x9F) && 0xE0 <= s[0] <= 0xEF
    case 4 =>
      && Cont(s[1]) && Cont(s[2]) && Cont(s[3])
      && (s[0] == 0xF0 ==> s[1] >= 0x90) && (s[0] == 0xF4 ==> s[1] <= 0x8F) && 0xF0 <= s[0] <= 0xF4
    case _ => false
  }

  /** The encoding of a character number, as section 3 of RFC 3629 makes it: six bits to a byte, the
      first byte's high bits saying how many there are. */
  function Encoded(n: nat): seq<byte>
    requires n <= 0x10FFFF
  {
    var m := n / 64;
    var h := m / 64;
    if n < 0x80 then [n]
    else if n < 0x800 then [0xC0 + m, 0x80 + n % 64]
    else if n < 0x10000 then [0xE0 + h, 0x80 + m % 64, 0x80 + n % 64]
    else [0xF0 + h / 64, 0x80 + h % 64, 0x80 + m % 64, 0x80 + n % 64]
  }

  /** A character number that is one: no surrogate half. */
  predicate IsScalar(n: nat) {
    n <= 0x10FFFF && !(0xD800 <= n <= 0xDFFF)
  }

  /** The number whose encoding the bytes are. */
  function Decoded(s: seq<byte>): nat
    requires WellFormed(s)
  {
    match |s|
    case 1 => s[0]
    case 2 => Joined(s[0] - 0xC0, s[1] - 0x80)
    case 3 => Joined(Joined(s[0] - 0xE0, s[1] - 0x80), s[2] - 0x80)
    case 4 => Joined(Joined(Joined(s[0] - 0xF0, s[1] - 0x80), s[2] - 0x80), s[3] - 0x80)
  }

  function Joined(h: nat, l: nat): nat {
    h * 64 + l
  }

  lemma SixBits(h: nat, l: nat)
    requires l < 64
    ensures Joined(h, l) / 64 == h && Joined(h, l) % 64 == l
  {
  }

  /** The well-formed sequences are the encodings of characters, each that of one. */
  lemma WellFormedDecodes(s: seq<byte>)
    requires WellFormed(s)
    ensures IsScalar(Decoded(s)) && Encoded(Decoded(s)) == s
  {
    if |s| == 2 {
      SixBits(s[0] - 0xC0, s[1] - 0x80);
    } else if |s| == 3 {
      var h := Joined(s[0] - 0xE0, s[1] - 0x80);
      SixBits(s[0] - 0xE0, s[1] - 0x80);
      SixBits(h, s[2] - 0x80);
    } else if |s| == 4 {
      var h := Joined(s[0] - 0xF0, s[1] - 0x80);
      var m := Joined(h, s[2] - 0x80);
      SixBits(s[0] - 0xF0, s[1] - 0x80);
      SixBits(h, s[2] - 0x80);
      SixBits(m, s[3] - 0x80);
    }
  }

  lemma EncodedDecodes(n: nat)
    requires IsScalar(n)
    ensures WellFormed(Encoded(n)) && Decoded(Encoded(n)) == n
  {
  }

  /** A character's bytes are one unit wherever they stand: no boundary is inside them. */
  lemma CharacterIsOneUnit(x: seq<byte>, a: nat, b: nat, i: nat)
    requires a <= b <= |x| && WellFormed(x[a..b]) && Boundary(x, i)
    ensures i <= a || b <= i
  {
    var s := x[a..b];
    LeadAtBoundary(x, a);
    assert x[a..] == s + x[b..];
    UnitIs(s, x[b..]);
    if a <= i { BoundaryBeyond(x, a, i); }
  }

  // ---------- what a stream ends part-way through, from its end ----------

  lemma {:induction false} TailBeyond(x: seq<byte>, a: nat)
    requires a < |x| && Boundary(x, a)
    ensures Tail(x) == Tail(x[a..])
    decreases |x|
  {
    hide UnitLen, Tail;
    if a == 0 {
      assert x[a..] == x;
    } else {
      var rest := x[UnitLen(x)..];
      TailStep(x);
      TailBeyond(rest, a - UnitLen(x));
      assert rest[a - UnitLen(x)..] == x[a..];
    }
  }

  lemma TailStep(x: seq<byte>)
    requires x != [] && !Unfinished(x)
    ensures Tail(x) == Tail(x[UnitLen(x)..])
  {
    hide UnitLen;
  }

  lemma {:induction false} TailOfConts(x: seq<byte>)
    requires forall i :: 0 <= i < |x| ==> Cont(x[i])
    ensures Tail(x) == []
    decreases |x|
  {
    if x != [] { TailOfConts(x[UnitLen(x)..]); }
  }

  /** The last byte that is no continuation, `back` bytes from the end, says what the tail is. */
  lemma TailFromLead(x: seq<byte>, back: nat)
    requires 1 <= back <= |x| && !Cont(x[|x| - back]) && forall i :: |x| - back < i < |x| ==> Cont(x[i])
    ensures Tail(x) == if Len(x[|x| - back]) > back then x[|x| - back..] else []
  {
    var a := |x| - back;
    var y := x[a..];
    LeadAtBoundary(x, a);
    TailBeyond(x, a);
    var n := if Len(y[0]) > back then back else Len(y[0]);
    ContRunIs(y[1..], Len(y[0]) - 1, n - 1);
    if Len(y[0]) <= back { TailOfConts(y[n..]); }
  }

  lemma TailLeads(x: seq<byte>)
    ensures Tail(x) != [] ==> !Cont(x[|x| - |Tail(x)|])
  {
    TailIs(x);
    assert Tail(x) != [] ==> x[|x| - |Tail(x)|..][0] == x[|x| - |Tail(x)|];
  }

  lemma TailWithoutLead(x: seq<byte>)
    requires forall i :: 0 <= i < |x| && |x| - 3 <= i ==> Cont(x[i])
    ensures Tail(x) == []
  {
    TailLeads(x);
  }
}
