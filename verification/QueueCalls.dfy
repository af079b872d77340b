/**
 * What a call does by what it returns: for every process, its operations in the log are, one for one and in order,
 * those of its sends and receives that returned 0, besides the call that it is about to return from.
 */
module QueueCalls {
  import opened Sums
  import opened CStrings
  import opened PriorityQueue
  import opened QueueSegment
  import opened QueueNotice
  import opened QueueSystem

  /** The operations of process i. */
  ghost function Own(log: seq<Action>, i: nat): seq<Action> {
    if log == [] then []
    else
      var n := |log| - 1;
      Own(log[..n], i) + if log[n].who == i then [log[n]] else []
  }

  lemma OwnOne(log: seq<Action>, a: Action, i: nat)
    ensures Own(log + [a], i) == Own(log, i) + if a.who == i then [a] else []
  {
    assert (log + [a])[..|log|] == log;
  }

  predicate TakesEffect(c: Call, r: int) {
    r == 0 && (c.SendCall? || c.ReceiveCall?)
  }

  /** The sends and receives that returned 0. */
  ghost function Effective(calls: seq<Call>, rets: seq<int>): seq<Call>
    requires |rets| <= |calls|
  {
    if rets == [] then []
    else
      var n := |rets| - 1;
      Effective(calls, rets[..n]) + if TakesEffect(calls[n], rets[n]) then [calls[n]] else []
  }

  /** A process has finished its part of the list work and is about to return 0. */
  predicate Returning(pc: PC) {
    pc.SendUnlock? || pc.SendPost? || pc.RecvUnlock? || pc.RecvPost?
  }

  /** The operation of call c. */
  predicate IsEffect(c: Call, a: Action) {
    match c
    case SendCall(_, m) => a.Put? && a.m == m
    case ReceiveCall(_, _, _) => a.Got?
    case _ => false
  }

  /** A process at pc is making call c. */
  predicate Serves(pc: PC, c: Call) {
    && !pc.Idle?
    && if Sending(pc) then c.SendCall? && (InHand(pc).Some? ==> InHand(pc).value == c.m) else c.ReceiveCall?
  }

  /** The process died in its last call. */
  predicate Died(p: Proc) {
    p.pc.Idle? && p.todo == [] && |p.made| == |p.rets| + 1
  }

  /** Program order: the calls made and those still to make are the program todo0. */
  predicate InOrder(p: Proc, todo0: seq<Call>) {
    && (p.made + p.todo == todo0 || (Died(p) && p.made <= todo0))
    && if p.pc.Idle? then |p.made| == |p.rets| || Died(p)
       else |p.made| == |p.rets| + 1 && Serves(p.pc, p.made[|p.rets|])
  }

  ghost function CallsDone(p: Proc): seq<Call>
    requires |p.rets| <= |p.made|
  {
    Effective(p.made, p.rets) + if Returning(p.pc) && |p.rets| < |p.made| then [p.made[|p.rets|]] else []
  }

  /** One operation for each call, in order. */
  ghost predicate OneEach(calls: seq<Call>, own: seq<Action>) {
    |own| == |calls| && forall k :: 0 <= k < |calls| ==> IsEffect(calls[k], own[k])
  }

  ghost predicate Fulfils(p: Proc, todo0: seq<Call>, own: seq<Action>) {
    InOrder(p, todo0) && |p.rets| <= |p.made| && OneEach(CallsDone(p), own)
  }

  ghost predicate AllFulfil(s: State, s0: State) {
    && |s.procs| == |s0.procs|
    && forall i :: 0 <= i < |s.procs| ==> Fulfils(s.procs[i], s0.procs[i].todo, Own(s.log, i))
  }

  lemma {:induction false} EffectiveExtends(calls: seq<Call>, more: seq<Call>, rets: seq<int>)
    requires |rets| <= |calls|
    ensures Effective(calls + more, rets) == Effective(calls, rets)
  {
    if rets != [] {
      EffectiveExtends(calls, more, rets[..|rets| - 1]);
    }
  }

  // ----- the process that moves -----

  /** A call is taken up: it returns at once without effect, or kills the process, or is under way. */
  ghost predicate Begun(p: Proc, q: Proc) {
    && p.pc.Idle? && p.todo != [] && q.made == p.made + [p.todo[0]]
    && if q.pc.Idle? && |q.rets| > |p.rets| then
         q.todo == p.todo[1..] && q.rets == p.rets + [q.rets[|p.rets|]] && !TakesEffect(p.todo[0], q.rets[|p.rets|])
       else
         q.rets == p.rets &&
         if q.pc.Idle? then q.todo == [] else q.todo == p.todo[1..] && Serves(q.pc, p.todo[0]) && !Returning(q.pc)
  }

  /** A call goes on outside its critical section, or returns: 0 behind the section and -1 before it. */
  ghost predicate GoesOn(p: Proc, q: Proc) {
    && !p.pc.Idle? && q.made == p.made && q.todo == p.todo
    && if q.pc.Idle? then
         && q.rets == p.rets + [if Returning(p.pc) then 0 else -1]
         && (p.pc.SendPost? || p.pc.RecvPost? || p.pc.SendTry? || p.pc.RecvTry?)
       else && q.rets == p.rets && Sending(q.pc) == Sending(p.pc) && InHand(q.pc) == InHand(p.pc)
            && Returning(q.pc) == Returning(p.pc)
  }

  lemma BeginCall(s: State, i: nat)
    requires Enabled(s, i) && s.procs[i].pc.Idle?
    ensures |Do(s, i).procs| == |s.procs| && Begun(s.procs[i], Do(s, i).procs[i])
  {
    hide Do;
    match s.procs[i].todo[0] {
      case SendCall(_, _) => SendCallExactly(s, i);
      case ReceiveCall(_, _, _) => ReceiveCallExactly(s, i);
      case NotifyCall(_, _) => NotifyCallExactly(s, i);
      case SetAttrCall(_, _) => SetAttrCallExactly(s, i);
    }
  }

  lemma SendGoesOn(s: State, i: nat)
    requires Enabled(s, i) && Sending(s.procs[i].pc) && !s.procs[i].pc.SendIn?
    ensures |Do(s, i).procs| == |s.procs| && GoesOn(s.procs[i], Do(s, i).procs[i])
  {
    hide SendSection;
  }

  lemma ReceiveGoesOn(s: State, i: nat)
    requires Enabled(s, i) && !Sending(s.procs[i].pc) && !s.procs[i].pc.RecvIn? && !s.procs[i].pc.Idle?
    ensures |Do(s, i).procs| == |s.procs| && GoesOn(s.procs[i], Do(s, i).procs[i])
  {
    hide Do, GoesOn;
    if Asking(s.procs[i].pc) {
      AskingGoesOn(s, i);
    } else {
      TakingGoesOn(s, i);
    }
  }

  lemma AskingGoesOn(s: State, i: nat)
    requires Enabled(s, i) && Asking(s.procs[i].pc)
    ensures |Do(s, i).procs| == |s.procs| && GoesOn(s.procs[i], Do(s, i).procs[i])
  {
  }

  lemma TakingGoesOn(s: State, i: nat)
    requires Enabled(s, i) && Taking(s.procs[i].pc)
    ensures |Do(s, i).procs| == |s.procs| && GoesOn(s.procs[i], Do(s, i).procs[i])
  {
  }

  /** A critical section logs one operation of its own process, that of the call under way. */
  lemma SectionLogs(s: State, i: nat)
    requires Inv(s) && Enabled(s, i) && (s.procs[i].pc.SendIn? || s.procs[i].pc.RecvIn?)
    ensures var l := Do(s, i).log;
            && |l| == |s.log| + 1 && l == s.log + [l[|s.log|]] && l[|s.log|].who == i
            && (if s.procs[i].pc.SendIn? then l[|s.log|].Put? && l[|s.log|].m == s.procs[i].pc.m else l[|s.log|].Got?)
  {
    hide WellFormed, Order, Contents, Legal, Received, Sent, AfterInsert, Fires, Locks, Tokens, Notices;
    SectionsDefined(s, i);
  }

  lemma BegunFulfils(p: Proc, q: Proc, todo0: seq<Call>, own: seq<Action>)
    requires Fulfils(p, todo0, own) && Begun(p, q)
    ensures Fulfils(q, todo0, own)
  {
    EffectiveExtends(p.made, [p.todo[0]], p.rets);
    assert p.todo == [p.todo[0]] + p.todo[1..];
    assert p.made + p.todo == q.made + p.todo[1..];
    if |q.rets| > |p.rets| {
      assert q.rets[..|p.rets|] == p.rets;
    }
  }

  lemma GoesOnFulfils(p: Proc, q: Proc, todo0: seq<Call>, own: seq<Action>)
    requires Fulfils(p, todo0, own) && GoesOn(p, q)
    ensures Fulfils(q, todo0, own)
  {
    if q.pc.Idle? {
      assert q.rets[..|p.rets|] == p.rets;
    }
  }

  lemma SectionFulfils(p: Proc, q: Proc, todo0: seq<Call>, own: seq<Action>, a: Action)
    requires Fulfils(p, todo0, own) && (p.pc.SendIn? || p.pc.RecvIn?)
    requires q == p.(pc := if p.pc.SendIn? then SendUnlock else RecvUnlock)
    requires if p.pc.SendIn? then a.Put? && a.m == p.pc.m else a.Got?
    ensures Fulfils(q, todo0, own + [a])
  {
  }

  lemma MoverFulfils(s: State, i: nat, todo0: seq<Call>)
    requires Inv(s) && Enabled(s, i) && Fulfils(s.procs[i], todo0, Own(s.log, i))
    ensures var t := Do(s, i);
            && |t.procs| == |s.procs| && Fulfils(t.procs[i], todo0, Own(t.log, i))
            && forall j: nat :: j != i ==> Own(t.log, j) == Own(s.log, j)
  {
    hide Inv, Do, Sending, Own, Fulfils, Begun, GoesOn;
    var t := Do(s, i);
    if s.procs[i].pc.SendIn? || s.procs[i].pc.RecvIn? {
      SectionLogs(s, i);
      SectionFrame(s, i);
      forall j: nat ensures Own(t.log, j) == Own(s.log, j) + if j == i then [t.log[|s.log|]] else [] {
        OwnOne(s.log, t.log[|s.log|], j);
      }
      SectionFulfils(s.procs[i], t.procs[i], todo0, Own(s.log, i), t.log[|s.log|]);
    } else {
      OtherStep(s, i);
      if s.procs[i].pc.Idle? {
        BeginCall(s, i);
        BegunFulfils(s.procs[i], t.procs[i], todo0, Own(s.log, i));
      } else {
        if Sending(s.procs[i].pc) {
          SendGoesOn(s, i);
        } else {
          ReceiveGoesOn(s, i);
        }
        GoesOnFulfils(s.procs[i], t.procs[i], todo0, Own(s.log, i));
      }
    }
  }

  lemma StepFulfils(s: State, t: State, s0: State)
    requires Inv(s) && Step(s, t) && AllFulfil(s, s0)
    ensures AllFulfil(t, s0)
  {
    hide Inv, Do, Own, Fulfils;
    var i: nat :| Enabled(s, i) && t == Do(s, i);
    MoverFulfils(s, i, s0.procs[i].todo);
    LocalFrame(s, i);
  }

  /**
   * In every state of every run, for every process: its program is made in order, and its operations on the queue
   * are one for each of its calls that returned 0 (or is returning 0), in order, a send putting in its own message;
   * a call that returned -1 has done nothing.
   */
  lemma {:induction false} RunFulfils(r: seq<State>, k: nat)
    requires IsRun(r) && k < |r|
    ensures AllFulfil(r[k], r[0])
  {
    hide Inv, Step, Fulfils;
    if k == 0 {
      StartFulfils(r[0]);
    } else {
      RunFulfils(r, k - 1);
      RunInv(r, k - 1);
      StepFulfils(r[k - 1], r[k], r[0]);
    }
  }

  lemma StartFulfils(s: State)
    requires Init(s)
    ensures AllFulfil(s, s)
  {
    forall i: nat | i < |s.procs| ensures Fulfils(s.procs[i], s.procs[i].todo, Own(s.log, i)) {
      assert s.procs[i] in s.procs;
    }
  }
}
