/** Which thread's port a handle is tied to, as the word that records it decides between threads. */
module IocpAttach {
  import opened Runs

  datatype Pc = Out(last: bool) | Claim | Tie | Publish

  /** `owner` is 0 for no thread, -1 for being tied or never to be, and otherwise the owning thread's
      number; `port` is the thread whose port the system has tied the handle to, and `tries` how often
      it was asked to. */
  datatype Attach = Attach(owner: int, port: Option<nat>, tries: nat, pcs: seq<Pc>)

  function Id(t: nat): int {
    t + 1
  }

  ghost predicate Initial(s: Attach) {
    s.owner == 0 && s.port == None && s.tries == 0 && forall t :: 0 <= t < |s.pcs| ==> s.pcs[t] == Out(false)
  }

  /** `ties` is what the system answers if asked. */
  datatype Move = Call(t: nat) | Go(t: nat, ties: bool)

  ghost predicate Enabled(s: Attach, mv: Move) {
    mv.t < |s.pcs| && (mv.Call? <==> s.pcs[mv.t].Out?)
  }

  function To(s: Attach, t: nat, pc: Pc): Attach
    requires t < |s.pcs|
  {
    s.(pcs := s.pcs[t := pc])
  }

  function Apply(s: Attach, mv: Move): Attach
    requires mv.t < |s.pcs|
  {
    match mv
    case Call(t) => To(s, t, Claim)
    case Go(t, ties) =>
      match s.pcs[t]
      case Claim => if s.owner == 0 then To(s, t, Tie).(owner := -1) else To(s, t, Out(s.owner == Id(t)))
      case Tie =>
        (if ties then To(s, t, Publish).(port := Some(t)) else To(s, t, Out(false))).(tries := s.tries + 1)
      case Publish => To(s, t, Out(true)).(owner := Id(t))
      case Out(_) => s
  }

  ghost predicate Step(s: Attach, mv: Move, s': Attach) {
    Enabled(s, mv) && s' == Apply(s, mv)
  }

  ghost predicate Reachable(s: Attach) {
    exists a: Attach :: Initial(a) && Reaches(Step, a, s)
  }

  /** One thread at most is between its claim and the record of it. */
  ghost predicate ThreadOk(s: Attach, t: nat)
    requires t < |s.pcs|
  {
    match s.pcs[t]
    case Tie => s.owner == -1 && s.port == None && s.tries == 0 && Alone(s, t)
    case Publish => s.owner == -1 && s.port == Some(t) && Alone(s, t)
    case Out(last) => last ==> s.port == Some(t) && s.owner == Id(t)
    case _ => true
  }

  ghost predicate Alone(s: Attach, t: nat) {
    forall u :: 0 <= u < |s.pcs| && u != t ==> !s.pcs[u].Tie? && !s.pcs[u].Publish?
  }

  ghost predicate Inv(s: Attach) {
    && -1 <= s.owner && s.tries <= 1
    && (s.owner == 0 ==> s.port == None && s.tries == 0)
    && (s.owner > 0 ==> s.port == Some(s.owner - 1)) && (s.port.Some? ==> s.tries == 1)
    && forall t :: 0 <= t < |s.pcs| ==> ThreadOk(s, t)
  }

  lemma StepKeeps(s: Attach, mv: Move, s': Attach)
    requires Inv(s) && Step(s, mv, s')
    ensures Inv(s') && (s.port.Some? ==> s'.port == s.port)
  {
    assert ThreadOk(s, mv.t);
    forall u | 0 <= u < |s.pcs| ensures s.owner == 0 ==> !s.pcs[u].Tie? && !s.pcs[u].Publish? {
      assert ThreadOk(s, u);
    }
    forall t | 0 <= t < |s'.pcs| ensures ThreadOk(s', t) {
      assert ThreadOk(s, t);
    }
  }

  /** Whichever threads race for it, the system is asked to tie a handle at most once; a thread told
      that the handle is its own has its port tied to it, for good; and no two are told so. */
  lemma TiedToOne(s: Attach, t: nat, later: Attach)
    requires Reachable(s) && t < |s.pcs| && s.pcs[t] == Out(true) && Reaches(Step, s, later)
    ensures later.tries == 1 && later.port == Some(t) && later.owner == Id(t)
    ensures forall u :: 0 <= u < |later.pcs| && later.pcs[u] == Out(true) ==> u == t
  {
    ReachableInv(s);
    assert ThreadOk(s, t);
    var mine := (x: Attach) => Inv(x) && x.port == Some(t) && x.owner == Id(t);
    forall x, mv, y | mine(x) && Step(x, mv, y) ensures mine(y) {
      StepKeeps(x, mv, y);
      assert ThreadOk(x, mv.t);
    }
    Kept(Step, mine, s, later);
    forall u | 0 <= u < |later.pcs| && later.pcs[u] == Out(true) ensures u == t {
      assert ThreadOk(later, u);
    }
  }

  lemma ReachableInv(s: Attach)
    requires Reachable(s)
    ensures Inv(s)
  {
    var a: Attach :| Initial(a) && Reaches(Step, a, s);
    assert Inv(a);
    forall x, mv, y | Inv(x) && Step(x, mv, y) ensures Inv(y) {
      StepKeeps(x, mv, y);
    }
    Kept(Step, Inv, a, s);
  }

  /** A call answers true exactly if the handle is tied to the caller's port, as it was before or is now;
      so one told true once is told so ever after. The first to call ties it, if the system does. */
  lemma AnswersExact(s: Attach, t: nat, ties: bool)
    requires Reachable(s) && t < |s.pcs| && !s.pcs[t].Out?
    ensures Apply(s, Call(t)) == To(s, t, Claim)
    ensures var s' := Apply(s, Go(t, ties));
            && (s'.pcs[t].Out? ==> (s'.pcs[t].last <==> s'.port == Some(t)) && (s'.pcs[t].last <==> s'.owner == Id(t)))
            && (s.pcs[t].Claim? ==> (s'.pcs[t].Tie? <==> s.owner == 0) && (s'.pcs[t].Out? <==> s.owner != 0))
            && (s.pcs[t].Tie? ==> if ties then s'.pcs[t].Publish? && s'.port == Some(t) else s'.pcs[t] == Out(false) && s'.port == None)
            && (s.pcs[t].Publish? ==> s'.pcs[t] == Out(true))
  {
    ReachableInv(s);
    assert ThreadOk(s, t);
    PortTold(s, t);
  }

  /** The thread a handle is tied to is on record as its owner, or about to be. */
  lemma PortTold(s: Attach, t: nat)
    requires Reachable(s) && t < |s.pcs|
    ensures s.port == Some(t) ==> s.owner == Id(t) || s.pcs[t].Publish?
  {
    var a: Attach :| Initial(a) && Reaches(Step, a, s);
    assert Inv(a);
    var told := (x: Attach) => Inv(x) && (x.port.Some? ==> x.port.value < |x.pcs| && (x.owner == Id(x.port.value) || x.pcs[x.port.value].Publish?));
    forall x, mv, y | told(x) && Step(x, mv, y) ensures told(y) {
      StepKeeps(x, mv, y);
      assert ThreadOk(x, mv.t);
      if x.port.Some? { assert ThreadOk(x, x.port.value); }
    }
    Kept(Step, told, a, s);
  }
}
