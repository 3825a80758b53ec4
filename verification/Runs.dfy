/** Runs of a step relation: every finite interleaving of labelled steps. */
module Runs {

  datatype Option<+T> = None | Some(value: T)

  ghost predicate IsRun<S(!new), L(!new)>(step: (S, L, S) -> bool, ss: seq<S>, ls: seq<L>) {
    |ss| == |ls| + 1 && forall i {:trigger ls[i]} :: 0 <= i < |ls| ==> step(ss[i], ls[i], ss[i + 1])
  }

  ghost predicate Reaches<S(!new), L(!new)>(step: (S, L, S) -> bool, a: S, b: S) {
    exists ss: seq<S>, ls: seq<L> :: IsRun(step, ss, ls) && ss[0] == a && ss[|ls|] == b
  }

  /** What holds at the start and is kept by each step holds at the end of every run. */
  lemma Kept<S(!new), L(!new)>(step: (S, L, S) -> bool, inv: S -> bool, a: S, b: S)
    requires Reaches(step, a, b) && inv(a)
    requires forall s, l, s' :: inv(s) && step(s, l, s') ==> inv(s')
    ensures inv(b)
  {
    var ss: seq<S>, ls: seq<L> :| IsRun(step, ss, ls) && ss[0] == a && ss[|ls|] == b;
    KeptTo(step, inv, ss, ls, |ls|);
  }

  lemma {:induction false} KeptTo<S(!new), L(!new)>(step: (S, L, S) -> bool, inv: S -> bool, ss: seq<S>, ls: seq<L>, n: nat)
    requires IsRun(step, ss, ls) && n <= |ls| && inv(ss[0])
    requires forall s, l, s' :: inv(s) && step(s, l, s') ==> inv(s')
    ensures inv(ss[n])
  {
    if n > 0 {
      KeptTo(step, inv, ss, ls, n - 1);
      assert step(ss[n - 1], ls[n - 1], ss[n]);
    }
  }

  lemma AtOnce<S(!new), L(!new)>(step: (S, L, S) -> bool, a: S)
    ensures Reaches(step, a, a)
  {
    var none: seq<L> := [];
    assert IsRun(step, [a], none);
  }

  /** A run, and one step more. */
  lemma Further<S(!new), L(!new)>(step: (S, L, S) -> bool, a: S, b: S, l: L, c: S)
    requires Reaches(step, a, b) && step(b, l, c)
    ensures Reaches(step, a, c)
  {
    var ss: seq<S>, ls: seq<L> :| IsRun(step, ss, ls) && ss[0] == a && ss[|ls|] == b;
    assert IsRun(step, ss + [c], ls + [l]);
  }

  function Each<S, A>(f: S -> A, q: seq<S>): (r: seq<A>)
    ensures |r| == |q| && forall i :: 0 <= i < |q| ==> r[i] == f(q[i])
  {
    seq(|q|, i requires 0 <= i < |q| => f(q[i]))
  }

  ghost function Told<S(!new), L(!new), E(!new)>(event: (S, L) -> E, ss: seq<S>, ls: seq<L>): (r: seq<E>)
    requires |ls| <= |ss|
    ensures |r| == |ls| && forall i :: 0 <= i < |ls| ==> r[i] == event(ss[i], ls[i])
  {
    seq(|ls|, i requires 0 <= i < |ls| => event(ss[i], ls[i]))
  }

  /** Where each step makes one of another relation's steps, each run makes one of its runs. */
  lemma Simulates<S(!new), L(!new), A(!new), E(!new)>(
      step: (S, L, S) -> bool, spec: (A, E, A) -> bool, inv: S -> bool, abs: S -> A, event: (S, L) -> E, ss: seq<S>, ls: seq<L>)
    requires IsRun(step, ss, ls) && inv(ss[0])
    requires forall s, l, s' :: inv(s) && step(s, l, s') ==> inv(s') && spec(abs(s), event(s, l), abs(s'))
    ensures IsRun(spec, Each(abs, ss), Told(event, ss, ls))
    ensures forall i :: 0 <= i <= |ls| ==> inv(ss[i])
  {
    forall i | 0 <= i <= |ls| ensures inv(ss[i]) {
      KeptTo(step, inv, ss, ls, i);
    }
    forall i | 0 <= i < |ls| ensures spec(Each(abs, ss)[i], Told(event, ss, ls)[i], Each(abs, ss)[i + 1]) {
      assert step(ss[i], ls[i], ss[i + 1]);
    }
  }
}
