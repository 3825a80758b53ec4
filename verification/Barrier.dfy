/** What a barrier promises, whatever it is built from: rounds of `count` entries, each round opened
    by its last entry, which makes that thread the round's serial one. */
module Barrier {
  import opened Runs

  datatype Place = Outside | Within(round: nat, serial: bool)

  /** `round` is the round being filled and `arrived` how many threads have entered it. */
  datatype Barrier = Barrier(count: nat, round: nat, arrived: nat, places: seq<Place>)

  datatype Event = Enter(t: nat) | Leave(t: nat) | Nothing

  ghost predicate Initial(s: Barrier) {
    && s.count > 0 && s.round == 0 && s.arrived == 0
    && forall t :: 0 <= t < |s.places| ==> s.places[t] == Outside
  }

  /** The entry that opens its round. */
  predicate Last(s: Barrier) {
    s.arrived + 1 == s.count
  }

  ghost predicate Step(s: Barrier, e: Event, s': Barrier) {
    match e
    case Nothing => s' == s
    case Enter(t) =>
      && t < |s.places| && s.places[t].Outside?
      && s' == (if Last(s) then s.(round := s.round + 1, arrived := 0) else s.(arrived := s.arrived + 1))
                 .(places := s.places[t := Within(s.round, Last(s))])
    case Leave(t) =>
      && t < |s.places| && s.places[t].Within? && s.places[t].round < s.round
      && s' == s.(places := s.places[t := Outside])
  }

  /** How many entries of the first `n` events were into round `r`. */
  ghost function Entered(ss: seq<Barrier>, es: seq<Event>, r: nat, n: nat): nat
    requires n <= |es| < |ss|
  {
    if n == 0 then 0 else Entered(ss, es, r, n - 1) + if es[n - 1].Enter? && ss[n - 1].round == r then 1 else 0
  }

  /** And how many of those made their thread the serial one. */
  ghost function Serial(ss: seq<Barrier>, es: seq<Event>, r: nat, n: nat): nat
    requires n <= |es| < |ss|
  {
    if n == 0 then 0
    else Serial(ss, es, r, n - 1) + if es[n - 1].Enter? && ss[n - 1].round == r && Last(ss[n - 1]) then 1 else 0
  }

  /** How many of the first `n` events were departures of a serial thread of round `r`. */
  ghost function SerialLeft(ss: seq<Barrier>, es: seq<Event>, r: nat, n: nat): nat
    requires n <= |es| < |ss|
  {
    if n == 0 then 0
    else
      SerialLeft(ss, es, r, n - 1)
      + if es[n - 1].Leave? && es[n - 1].t < |ss[n - 1].places| && ss[n - 1].places[es[n - 1].t] == Within(r, true) then 1 else 0
  }

  ghost function SerialIn(s: Barrier, r: nat): set<nat> {
    set t | 0 <= t < |s.places| && s.places[t] == Within(r, true)
  }

  /** Rounds fill one after the other, each with `count` entries, one of them serial. */
  lemma {:induction false} RoundsFill(ss: seq<Barrier>, es: seq<Event>, r: nat, n: nat)
    requires IsRun(Step, ss, es) && Initial(ss[0]) && n <= |es|
    ensures ss[n].arrived < ss[n].count == ss[0].count
    ensures Entered(ss, es, r, n) == if r < ss[n].round then ss[0].count else if r == ss[n].round then ss[n].arrived else 0
    ensures Serial(ss, es, r, n) == if r < ss[n].round then 1 else 0
    ensures SerialLeft(ss, es, r, n) + |SerialIn(ss[n], r)| == Serial(ss, es, r, n)
  {
    if n == 0 {
      assert SerialIn(ss[0], r) == {};
    } else {
      RoundsFill(ss, es, r, n - 1);
      var s, e, s' := ss[n - 1], es[n - 1], ss[n];
      assert Step(s, e, s');
      match e
      case Nothing =>
      case Enter(t) =>
        if Last(s) && s.round == r {
          assert t !in SerialIn(s, r) && SerialIn(s', r) == SerialIn(s, r) + {t};
        } else {
          assert SerialIn(s', r) == SerialIn(s, r);
        }
      case Leave(t) =>
        if s.places[t] == Within(r, true) {
          assert t in SerialIn(s, r) && SerialIn(s', r) == SerialIn(s, r) - {t};
        } else {
          assert SerialIn(s', r) == SerialIn(s, r);
        }
    }
  }

  /** Nobody leaves a round before `count` threads have entered it, exactly one of them as the serial
      thread, and no two departures of a round are serial. */
  lemma NobodyLeavesEarly(ss: seq<Barrier>, es: seq<Event>, i: nat, t: nat)
    requires IsRun(Step, ss, es) && Initial(ss[0]) && i < |es| && es[i] == Leave(t)
    ensures t < |ss[i].places| && ss[i].places[t].Within?
    ensures Entered(ss, es, ss[i].places[t].round, i) == ss[0].count
    ensures Serial(ss, es, ss[i].places[t].round, i) == 1
    ensures SerialLeft(ss, es, ss[i].places[t].round, i + 1) <= 1
    ensures ss[i].places[t].serial ==> SerialLeft(ss, es, ss[i].places[t].round, i) == 0
  {
    assert Step(ss[i], es[i], ss[i + 1]);
    var r := ss[i].places[t].round;
    RoundsFill(ss, es, r, i);
    RoundsFill(ss, es, r, i + 1);
  }

  /** The threads that have entered round `r` and not left it. */
  ghost function In(s: Barrier, r: nat): set<nat> {
    set t | 0 <= t < |s.places| && s.places[t].Within? && s.places[t].round == r
  }

  /** Those inside the round being filled are exactly those it is filled by. */
  lemma NobodyLeft(s: Barrier, e: Event, s': Barrier)
    requires Step(s, e, s') && |In(s, s.round)| == s.arrived
    requires forall t :: 0 <= t < |s.places| && s.places[t].Within? ==> s.places[t].round <= s.round
    ensures |In(s', s'.round)| == s'.arrived
    ensures forall t :: 0 <= t < |s'.places| && s'.places[t].Within? ==> s'.places[t].round <= s'.round
  {
    match e
    case Nothing =>
    case Enter(t) =>
      if Last(s) {
        assert In(s', s'.round) == {};
      } else {
        assert In(s', s'.round) == In(s, s.round) + {t};
      }
    case Leave(t) =>
      assert In(s', s'.round) == In(s, s.round);
  }
}
