/**
 * What calls return, and what the mode of the queue does to them: which calls are refused, when a non-blocking call
 * fails, and that nobody waits in the non-blocking mode and no valid call fails in the blocking mode.
 */
module QueueModes {
  import opened Sums
  import opened CStrings
  import opened PriorityQueue
  import opened QueueSegment
  import opened QueueNotice
  import opened QueueSystem
  import opened QueueProgress
  import opened QueueCalls
  import opened QueueReaders

  // ----- refused calls -----

  predicate Refused(c: Call) {
    match c
    case SendCall(open, m) => !open || m.len > 32 || m.prio > 32
    case ReceiveCall(open, len, hasPrio) => !open || len < 32 || !hasPrio
    case NotifyCall(open, event) => !open || (event.Some? && event.value.kind == OtherKind)
    case SetAttrCall(open, _) => !open
  }

  /** Refused calls have returned -1, and no refused call is under way. */
  predicate Refuses(p: Proc) {
    && |p.rets| <= |p.made|
    && (forall k :: 0 <= k < |p.rets| && Refused(p.made[k]) ==> p.rets[k] == -1)
    && (!p.pc.Idle? ==> |p.made| == |p.rets| + 1 && !Refused(p.made[|p.rets|]))
    && (p.pc.Idle? ==> |p.made| == |p.rets| || Died(p))
  }

  /** Calls that were not refused have returned 0. */
  predicate Succeeds(p: Proc) {
    |p.rets| <= |p.made| && forall k :: 0 <= k < |p.rets| && !Refused(p.made[k]) ==> p.rets[k] == 0
  }

  /** The next call of an idle process is refused with -1, ends the process, returns 0, or is under way. */
  lemma BeginAnswers(s: State, i: nat)
    requires Enabled(s, i) && s.procs[i].pc.Idle?
    ensures |Do(s, i).procs| == |s.procs|
    ensures var p, q := s.procs[i], Do(s, i).procs[i];
            && q.made == p.made + [p.todo[0]]
            && (Refused(p.todo[0]) ==> q == Answered(p, -1))
            && (!Refused(p.todo[0]) ==>
                  || q == Answered(p, 0)
                  || (q == TakenTo(p, q.pc) && !q.pc.Idle?)
                  || q == TakenTo(p, Idle).(todo := []))
  {
    hide Do;
    match s.procs[i].todo[0] {
      case SendCall(_, _) => SendCallExactly(s, i);
      case ReceiveCall(_, _, _) => ReceiveCallExactly(s, i);
      case NotifyCall(_, _) => NotifyCallExactly(s, i);
      case SetAttrCall(_, _) => SetAttrCallExactly(s, i);
    }
  }

  lemma BegunRefuses(p: Proc, q: Proc)
    requires Refuses(p) && p.pc.Idle? && p.todo != []
    requires Refused(p.todo[0]) ==> q == Answered(p, -1)
    requires !Refused(p.todo[0]) ==>
               q == Answered(p, 0) || (q == TakenTo(p, q.pc) && !q.pc.Idle?) || q == TakenTo(p, Idle).(todo := [])
    ensures Refuses(q) && (Succeeds(p) ==> Succeeds(q))
  {
  }

  lemma GoesOnRefuses(p: Proc, q: Proc)
    requires Refuses(p) && GoesOn(p, q)
    ensures Refuses(q) && (Succeeds(p) && BlockingOnly(p) ==> Succeeds(q))
  {
  }

  lemma MoverRefuses(s: State, i: nat)
    requires Inv(s) && Enabled(s, i) && Refuses(s.procs[i])
    ensures |Do(s, i).procs| == |s.procs| && Refuses(Do(s, i).procs[i])
    ensures Succeeds(s.procs[i]) && BlockingOnly(s.procs[i]) ==> Succeeds(Do(s, i).procs[i])
  {
    hide Inv, Do, Sending, Begun, Refused, GoesOn, BlockingOnly;
    if s.procs[i].pc.SendIn? || s.procs[i].pc.RecvIn? {
      SectionFrame(s, i);
    } else if s.procs[i].pc.Idle? {
      BeginAnswers(s, i);
      BegunRefuses(s.procs[i], Do(s, i).procs[i]);
    } else {
      if Sending(s.procs[i].pc) {
        SendGoesOn(s, i);
      } else {
        ReceiveGoesOn(s, i);
      }
      GoesOnRefuses(s.procs[i], Do(s, i).procs[i]);
    }
  }

  ghost predicate AllRefuse(s: State) {
    forall p :: p in s.procs ==> Refuses(p)
  }

  ghost predicate AllSucceed(s: State) {
    forall p :: p in s.procs ==> Succeeds(p)
  }

  lemma StepRefuses(s: State, t: State)
    requires Inv(s) && Step(s, t) && AllRefuse(s)
    ensures AllRefuse(t) && (AllSucceed(s) && Blocking(s) ==> AllSucceed(t))
  {
    hide Inv, Do, Refuses, Succeeds, BlockingOnly;
    var i: nat :| Enabled(s, i) && t == Do(s, i);
    assert s.procs[i] in s.procs;
    MoverRefuses(s, i);
    LocalFrame(s, i);
    assert forall p :: p in t.procs ==> p == t.procs[i] || p in s.procs;
  }

  /**
   * In every state of every run refused calls have returned -1; where the mode is blocking from the start and nobody
   * changes it, these are the only calls that have, and all the others have returned 0.
   */
  lemma {:induction false} RunRefuses(r: seq<State>, k: nat)
    requires IsRun(r) && k < |r|
    ensures AllRefuse(r[k]) && (Blocking(r[0]) ==> AllSucceed(r[k]))
  {
    hide Inv, Step, Refuses, Succeeds, Blocking;
    if k == 0 {
      StartRefuses(r[0]);
    } else {
      RunRefuses(r, k - 1);
      RunInv(r, k - 1);
      StepRefuses(r[k - 1], r[k]);
      if Blocking(r[0]) {
        BlockingTest(r, k - 1);
      }
    }
  }

  lemma StartRefuses(s: State)
    requires Init(s)
    ensures AllRefuse(s) && AllSucceed(s)
  {
  }

  // ----- non-blocking calls -----

  /**
   * A non-blocking send fails if and only if the messages queued, those about to go in and those just taken out, whose
   * room is not yet given back, are 32 together.
   */
  lemma TrySendExactly(s: State, i: nat)
    requires Inv(s) && Enabled(s, i) && s.procs[i].pc.SendTry?
    ensures var p := s.procs[i];
            Do(s, i) ==
            if |Contents(s.seg)| + Sum(s.procs, Holding) + Sum(s.procs, Removed) == 32
            then s.(procs := s.procs[i := p.(pc := Idle, rets := p.rets + [-1])])
            else s.(procs := s.procs[i := p.(pc := SendLock(p.pc.m))], write := s.write - 1)
  {
    hide WellFormed, Order, Contents, Sum, Legal, Notices, Locks;
    ContentsSize(s.seg);
  }

  /**
   * A non-blocking receive fails if and only if every message queued is either not announced yet or already promised
   * to another receive.
   */
  lemma TryReceiveExactly(s: State, i: nat)
    requires Inv(s) && Enabled(s, i) && s.procs[i].pc.RecvTry?
    ensures var p := s.procs[i];
            Do(s, i) ==
            if |Contents(s.seg)| == Sum(s.procs, Inserted) + Sum(s.procs, PastRead)
            then s.(procs := s.procs[i := p.(pc := Idle, rets := p.rets + [-1])])
            else s.(procs := s.procs[i := p.(pc := RecvIncLock(false))], read := s.read - 1)
  {
    hide WellFormed, Order, Contents, Sum, Legal, Notices, Locks;
    ContentsSize(s.seg);
  }

  /** Process p waits for no token and has counted itself out for none, and will not set the blocking mode. */
  predicate PollingOnly(p: Proc) {
    && SetAttrCall(true, false) !in p.todo
    && !p.pc.SendWait? && !p.pc.RecvWait? && !p.pc.RecvDecLock? && !p.pc.RecvDec? && !p.pc.RecvDecUnlock?
    && p.pc != RecvIncLock(true) && p.pc != RecvInc(true)
  }

  /** The non-blocking mode is on and stays on. */
  ghost predicate Polling(s: State) {
    s.flags == 1 && forall p :: p in s.procs ==> PollingOnly(p)
  }

  ghost predicate MovesPolling(s: State, t: State, i: nat)
    requires i < |s.procs|
  {
    |t.procs| == |s.procs| && t.flags == 1 && PollingOnly(t.procs[i])
  }

  lemma BeginPolling(s: State, i: nat)
    requires Enabled(s, i) && s.procs[i].pc.Idle? && s.flags == 1 && PollingOnly(s.procs[i])
    ensures MovesPolling(s, Do(s, i), i)
  {
    hide Do;
    match s.procs[i].todo[0] {
      case SendCall(_, _) => SendCallExactly(s, i);
      case ReceiveCall(_, _, _) => ReceiveCallExactly(s, i);
      case NotifyCall(_, _) => NotifyCallExactly(s, i);
      case SetAttrCall(_, _) => SetAttrCallExactly(s, i);
    }
    assert s.procs[i].todo[0] in s.procs[i].todo;
    assert forall c :: c in s.procs[i].todo[1..] ==> c in s.procs[i].todo;
  }

  lemma SendPolling(s: State, i: nat)
    requires Enabled(s, i) && Sending(s.procs[i].pc) && s.flags == 1 && PollingOnly(s.procs[i])
    ensures MovesPolling(s, Do(s, i), i)
  {
    hide Sent, Sendable, WellFormed, Contents, AfterInsert, Fires;
  }

  lemma ReceivePolling(s: State, i: nat)
    requires Enabled(s, i) && !Sending(s.procs[i].pc) && !s.procs[i].pc.Idle? && s.flags == 1 && PollingOnly(s.procs[i])
    ensures MovesPolling(s, Do(s, i), i)
  {
    hide Received, WellFormed, Contents, Order;
  }

  lemma StepPolling(s: State, t: State)
    requires Inv(s) && Step(s, t) && Polling(s)
    ensures Polling(t)
  {
    hide Inv, Do, Sending, PollingOnly;
    var i: nat :| Enabled(s, i) && t == Do(s, i);
    assert s.procs[i] in s.procs;
    if s.procs[i].pc.Idle? {
      BeginPolling(s, i);
    } else if Sending(s.procs[i].pc) {
      SendPolling(s, i);
    } else {
      ReceivePolling(s, i);
    }
    LocalFrame(s, i);
    assert forall p :: p in t.procs ==> p == t.procs[i] || p in s.procs;
  }

  /** Where the mode is non-blocking from the start and nobody changes it, nobody ever waits for a token. */
  lemma {:induction false} RunPolling(r: seq<State>, k: nat)
    requires IsRun(r) && k < |r| && Polling(r[0])
    ensures Polling(r[k])
    ensures forall p :: p in r[k].procs ==> !p.pc.SendWait? && !p.pc.RecvWait?
  {
    hide Inv, Step;
    if k > 0 {
      RunPolling(r, k - 1);
      RunInv(r, k - 1);
      StepPolling(r[k - 1], r[k]);
    }
  }

  /** Non-blocking use always comes to its end: a run that cannot go on has only finished processes. */
  lemma PollingFinishes(r: seq<State>)
    requires IsRun(r) && Polling(r[0]) && Stuck(r[|r| - 1])
    ensures forall p :: p in r[|r| - 1].procs ==> Finished(p)
  {
    hide Inv, Step, Polling, Stuck;
    RunInv(r, |r| - 1);
    RunPolling(r, |r| - 1);
    StuckShape(r[|r| - 1]);
  }
}
