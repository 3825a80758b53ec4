/** Unsigned 32-bit words, bit masks, and indices that run on past the word's end. */
module Bits {

  const WORD: nat := 0x1_0000_0000

  function Pow2(k: nat): (r: nat)
    ensures r > 0
  {
    if k == 0 then 1 else 2 * Pow2(k - 1)
  }

  /** Bitwise and. */
  function And(a: nat, b: nat): nat {
    if a == 0 || b == 0 then 0 else (a % 2) * (b % 2) + 2 * And(a / 2, b / 2)
  }

  /** Unsigned 32-bit arithmetic. */
  function Inc(a: nat): nat {
    (a + 1) % WORD
  }

  function Sub(a: nat, b: nat): nat {
    (a - b) % WORD
  }

  function Mod(a: nat, n: nat): (r: nat)
    requires n > 0
    ensures r < n
  {
    a % n
  }

  lemma {:induction false} AndMask(a: nat, k: nat)
    ensures And(a, Pow2(k) - 1) == Mod(a, Pow2(k))
    decreases k
  {
    hide And, Mod;
    AndZero(a, Pow2(k));
    if k > 0 && a > 0 {
      AndMask(a / 2, k - 1);
      AndStep(a, Pow2(k - 1));
      HalfMod(a, Pow2(k - 1));
    }
  }

  lemma AndZero(a: nat, n: nat)
    requires n > 0
    ensures And(a, 0) == 0 == And(0, n - 1) && Mod(a, 1) == 0 == Mod(0, n)
  {
  }

  lemma AndStep(a: nat, m: nat)
    requires a > 0 && m > 0
    ensures And(a, 2 * m - 1) == a % 2 + 2 * And(a / 2, m - 1)
  {
    assert (2 * m - 1) % 2 == 1 && (2 * m - 1) / 2 == m - 1;
  }

  lemma MulFar(n: int, d: int)
    requires n > 0
    ensures (d >= 1 ==> n * d >= n) && (d <= -1 ==> n * d <= -n)
  {
    assert n * d == n + n * (d - 1) && n * d == n * (d + 1) - n;
  }

  lemma ModIs(a: int, n: nat, q: int, r: nat)
    requires n > 0 && a == n * q + r && r < n
    ensures a % n == r && a / n == q
  {
    var d := a / n - q;
    assert n * d == n * (a / n) - n * q;
    MulFar(n, d);
  }

  lemma HalfMod(a: nat, m: nat)
    requires m > 0
    ensures Mod(a, 2 * m) == a % 2 + 2 * Mod(a / 2, m)
  {
    var q, r := a / 2 / m, a / 2 % m;
    assert a == (2 * m) * q + (2 * r + a % 2) by {
      assert a / 2 == m * q + r;
      MulThree(2, m, q);
    }
    ModIs(a, 2 * m, q, 2 * r + a % 2);
  }

  lemma Pow32()
    ensures Pow2(32) == WORD
  {
    assert Pow2(8) == 256;
    PowSplit(8, 8);
    PowSplit(16, 16);
  }

  /** Whatever divides the word sees past its wrapping. */
  lemma ModThrough(a: nat, k: nat)
    requires k <= 32
    ensures Mod(a % WORD, Pow2(k)) == Mod(a, Pow2(k))
  {
    PowSplit(k, 32 - k);
    Pow32();
    var n, m := Pow2(k), Pow2(32 - k);
    hide Pow2;
    ModTwice(a, n, m);
    assert n * m == WORD;
  }

  lemma ModTwice(a: nat, n: nat, m: nat)
    requires n > 0 && m > 0 && n * m > 0
    ensures Mod(a % (n * m), n) == Mod(a, n)
  {
    var h, w := a / (n * m), a % (n * m);
    var q, r := w / n, w % n;
    assert a == n * m * h + w;
    MulThree(n, m, h);
    MulSum(n, m * h, q);
    ModIs(a, n, m * h + q, r);
  }

  lemma MulSum(n: int, a: int, b: int)
    ensures n * (a + b) == n * a + n * b
  {
  }

  lemma MulThree(a: int, b: int, c: int)
    ensures a * b * c == a * (b * c)
  {
  }

  lemma {:induction false} PowSplit(a: nat, b: nat)
    ensures Pow2(a) * Pow2(b) == Pow2(a + b)
  {
    if a > 0 {
      PowSplit(a - 1, b);
      MulThree(2, Pow2(a - 1), Pow2(b));
    }
  }

  lemma {:induction false} PowGrows(a: nat, b: nat)
    requires a <= b
    ensures Pow2(a) <= Pow2(b)
  {
    if a < b { PowGrows(a, b - 1); }
  }

  /** Two places less than the ring's size apart are not the same place of the ring. */
  lemma Distinct(a: nat, b: nat, n: nat)
    requires n > 0 && a < b < a + n
    ensures Mod(a, n) != Mod(b, n)
  {
    var d := b / n - a / n;
    assert n * d == n * (b / n) - n * (a / n);
    MulFar(n, d);
  }

  lemma IncWraps(a: nat)
    ensures Inc(Mod(a, WORD)) == Mod(a + 1, WORD)
  {
  }

  lemma SubWraps(a: nat, b: nat)
    requires b <= a < b + WORD
    ensures Sub(Mod(a, WORD), Mod(b, WORD)) == a - b
  {
  }
}
