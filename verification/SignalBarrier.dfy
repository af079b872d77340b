/**
 * Three processes meet between calcul_1 and calcul_2 by signals alone. All signals are masked except inside
 * sigsuspend; a signal sent to a process that has it masked stays pending, once, until the process lets it in.
 */
module SignalBarrier {

  datatype Signal = USR1 | USR2

  datatype Father = Fork(i: nat) | Calc1 | Suspend1 | SetHandler | Suspend2 | Kill0 | Kill1 | Calc2 | Done | Killed

  datatype Child = Unborn | Computing1 | Signalling | Suspended | Computing2 | Finished

  datatype State = State(
    father: Father, children: seq<Child>,
    toFather: set<Signal>, toChild: seq<set<Signal>>,  // pending signals
    handled: set<Signal>)                              // signals for which the father has a handler

  datatype Actor = TheFather | TheChild(j: nat)

  /** After the masking of every signal and the handler for SIGUSR1, before the first fork. */
  ghost predicate Init(s: State) {
    && s.father == Fork(0) && s.children == [Unborn, Unborn]
    && s.toFather == {} && s.toChild == [{}, {}] && s.handled == {USR1}
  }

  /** sigsuspend with one signal let in returns when this signal is pending; everything else is enabled. */
  predicate Enabled(s: State, a: Actor) {
    match a
    case TheFather =>
      && !s.father.Done? && !s.father.Killed?
      && (s.father.Suspend1? ==> USR1 in s.toFather)
      && (s.father.Suspend2? ==> USR2 in s.toFather)
    case TheChild(j) =>
      && j < |s.children| && j < |s.toChild|
      && !s.children[j].Unborn? && !s.children[j].Finished?
      && (s.children[j].Suspended? ==> USR1 in s.toChild[j])
  }

  /** The delivery of a pending signal: its handler returns, or without one the process dies. */
  function Deliver(s: State, sig: Signal, next: Father): State {
    s.(father := if sig in s.handled then next else Killed, toFather := s.toFather - {sig})
  }

  function Signalled(s: State, j: nat): State
    requires j < |s.toChild|
  {
    s.(toChild := s.toChild[j := s.toChild[j] + {USR1}])
  }

  predicate TwoChildren(s: State) {
    |s.children| == 2 && |s.toChild| == 2
  }

  function FatherDo(s: State): State
    requires TwoChildren(s) && Enabled(s, TheFather)
  {
    match s.father
    case Fork(i) =>
      if i < 2 then s.(father := Fork(i + 1), children := s.children[i := Computing1]) else s.(father := Calc1)
    case Calc1 => s.(father := Suspend1)
    case Suspend1 => Deliver(s, USR1, SetHandler)
    case SetHandler => s.(father := Suspend2, handled := s.handled + {USR2})
    case Suspend2 => Deliver(s, USR2, Kill0)
    case Kill0 => Signalled(s, 0).(father := Kill1)
    case Kill1 => Signalled(s, 1).(father := Calc2)
    case Calc2 => s.(father := Done)
  }

  function ChildDo(s: State, j: nat): State
    requires TwoChildren(s) && Enabled(s, TheChild(j))
  {
    match s.children[j]
    case Computing1 => s.(children := s.children[j := Signalling])
    case Signalling =>
      s.(children := s.children[j := Suspended], toFather := s.toFather + {if j == 0 then USR1 else USR2})
    case Suspended => s.(children := s.children[j := Computing2], toChild := s.toChild[j := s.toChild[j] - {USR1}])
    case Computing2 => s.(children := s.children[j := Finished])
  }

  function Do(s: State, a: Actor): State
    requires TwoChildren(s) && Enabled(s, a)
  {
    match a
    case TheFather => FatherDo(s)
    case TheChild(j) => ChildDo(s, j)
  }

  ghost predicate Step(s: State, t: State) {
    exists a :: TwoChildren(s) && Enabled(s, a) && t == Do(s, a)
  }

  ghost predicate Stuck(s: State) {
    forall a :: !Enabled(s, a)
  }

  ghost predicate IsRun(r: seq<State>) {
    r != [] && Init(r[0]) && forall k :: 0 <= k < |r| - 1 ==> Step(r[k], r[k + 1])
  }

  // ----- how far a process is -----

  function FatherLeft(f: Father): nat {
    match f
    case Fork(i) => 10 - (if i < 2 then i else 2)
    case Calc1 => 7
    case Suspend1 => 6
    case SetHandler => 5
    case Suspend2 => 4
    case Kill0 => 3
    case Kill1 => 2
    case Calc2 => 1
    case Done => 0
    case Killed => 0
  }

  function ChildLeft(c: Child): nat {
    match c
    case Unborn => 5
    case Computing1 => 4
    case Signalling => 3
    case Suspended => 2
    case Computing2 => 1
    case Finished => 0
  }

  /**
   * A signal is pending exactly between its sending and the suspend that waits for it, so none is lost, whichever
   * comes first; and nobody is past a suspend whose signal has not been sent.
   */
  ghost predicate Inv(s: State) {
    && TwoChildren(s) && !s.father.Killed? && (s.father.Fork? ==> s.father.i <= 2)
    && (s.children[0].Unborn? <==> s.father == Fork(0))
    && (s.children[1].Unborn? <==> s.father == Fork(0) || s.father == Fork(1))
    && USR1 in s.handled && (USR2 in s.handled <==> FatherLeft(s.father) <= 4)
    && (USR1 in s.toFather <==> ChildLeft(s.children[0]) <= 2 && FatherLeft(s.father) >= 6)
    && (USR2 in s.toFather <==> ChildLeft(s.children[1]) <= 2 && FatherLeft(s.father) >= 4)
    && (FatherLeft(s.father) <= 5 ==> ChildLeft(s.children[0]) <= 2)
    && (FatherLeft(s.father) <= 3 ==> ChildLeft(s.children[1]) <= 2)
    && (USR1 in s.toChild[0] <==> FatherLeft(s.father) <= 2 && ChildLeft(s.children[0]) >= 2)
    && (USR1 in s.toChild[1] <==> FatherLeft(s.father) <= 1 && ChildLeft(s.children[1]) >= 2)
    && (ChildLeft(s.children[0]) <= 1 ==> FatherLeft(s.father) <= 2)
    && (ChildLeft(s.children[1]) <= 1 ==> FatherLeft(s.father) <= 1)
  }

  lemma FatherKeepsInv(s: State)
    requires Inv(s) && Enabled(s, TheFather)
    ensures Inv(FatherDo(s))
  {
  }

  lemma ChildKeepsInv(s: State, j: nat)
    requires Inv(s) && Enabled(s, TheChild(j))
    ensures Inv(ChildDo(s, j))
  {
  }

  lemma StepKeepsInv(s: State, t: State)
    requires Inv(s) && Step(s, t)
    ensures Inv(t)
  {
    hide Inv, FatherDo, ChildDo;
    var a :| TwoChildren(s) && Enabled(s, a) && t == Do(s, a);
    match a
    case TheFather => FatherKeepsInv(s);
    case TheChild(j) => ChildKeepsInv(s, j);
  }

  lemma InitInv(s: State)
    requires Init(s)
    ensures Inv(s)
  {
  }

  lemma {:induction false} RunInv(r: seq<State>, k: nat)
    requires IsRun(r) && k < |r|
    ensures Inv(r[k])
  {
    hide Inv, Init, Step;
    if k == 0 {
      InitInv(r[0]);
    } else {
      RunInv(r, k - 1);
      StepKeepsInv(r[k - 1], r[k]);
    }
  }

  predicate PastCalc1(s: State) {
    && TwoChildren(s)
    && !s.father.Fork? && !s.father.Calc1?
    && forall j :: 0 <= j < 2 ==> !s.children[j].Unborn? && !s.children[j].Computing1?
  }

  predicate SomeoneInCalc2(s: State) {
    s.father.Calc2? || s.father.Done? || exists j :: 0 <= j < |s.children| && (s.children[j].Computing2? || s.children[j].Finished?)
  }

  /** The barrier: nobody starts calcul_2 before all three have finished calcul_1. */
  lemma Barrier(r: seq<State>, k: nat)
    requires IsRun(r) && k < |r| && SomeoneInCalc2(r[k])
    ensures PastCalc1(r[k])
  {
    RunInv(r, k);
  }

  function Left(s: State): nat
    requires TwoChildren(s)
  {
    FatherLeft(s.father) + ChildLeft(s.children[0]) + ChildLeft(s.children[1])
  }

  lemma StepLeft(s: State, t: State)
    requires Inv(s) && Inv(t) && Step(s, t)
    ensures Left(t) < Left(s)
  {
    var a :| TwoChildren(s) && Enabled(s, a) && t == Do(s, a);
  }

  lemma InvLeft(s: State)
    requires Inv(s)
    ensures TwoChildren(s) && Left(s) <= 20
  {
  }

  lemma {:induction false} RunBounded(r: seq<State>, k: nat)
    requires IsRun(r) && k < |r|
    ensures TwoChildren(r[k]) && k + Left(r[k]) <= 20
  {
    hide Inv, Init, Step, Left, TwoChildren;
    RunInv(r, k);
    InvLeft(r[k]);
    if k > 0 {
      RunBounded(r, k - 1);
      RunInv(r, k - 1);
      StepLeft(r[k - 1], r[k]);
    }
  }

  /** No wake-up is lost: every run ends, and it can only end with all three processes finished. */
  lemma EndsFinished(r: seq<State>)
    requires IsRun(r) && Stuck(r[|r| - 1])
    ensures r[|r| - 1].father.Done? && r[|r| - 1].children == [Finished, Finished]
    ensures |r| <= 21
  {
    var s := r[|r| - 1];
    RunInv(r, |r| - 1);
    RunBounded(r, |r| - 1);
    assert !Enabled(s, TheFather);
    assert !Enabled(s, TheChild(0));
    assert !Enabled(s, TheChild(1));
  }
}
