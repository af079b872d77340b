/**
 * The waiting counter gates notification, but it is not the number of waiting receives: non-blocking receives
 * increment it without having decremented it. When the test of a send means what the documentation asks for, and
 * when a subscriber is notified although a receive waits.
 */
module QueueReaders {
  import opened Sums
  import opened CStrings
  import opened PriorityQueue
  import opened QueueSegment
  import opened QueueNotice
  import opened QueueSystem

  // ----- blocking use -----

  /** Process p is in no non-blocking call that has still to take or count its token, and will not set that mode. */
  predicate BlockingOnly(p: Proc) {
    && SetAttrCall(true, true) !in p.todo
    && !p.pc.SendTry? && !p.pc.RecvTry? && p.pc != RecvIncLock(false) && p.pc != RecvInc(false)
  }

  /** The blocking mode is on and stays on. */
  ghost predicate Blocking(s: State) {
    s.flags != 1 && forall p :: p in s.procs ==> BlockingOnly(p)
  }

  ghost predicate MovesBlocking(s: State, t: State, i: nat)
    requires i < |s.procs|
  {
    |t.procs| == |s.procs| && t.flags != 1 && t.tries == s.tries && BlockingOnly(t.procs[i])
  }

  lemma BeginBlocking(s: State, i: nat)
    requires Enabled(s, i) && s.procs[i].pc.Idle? && s.flags != 1 && BlockingOnly(s.procs[i])
    ensures MovesBlocking(s, Do(s, i), i)
  {
    hide Do;
    match s.procs[i].todo[0] {
      case SendCall(_, _) => SendCallExactly(s, i);
      case ReceiveCall(_, _, _) => ReceiveCallExactly(s, i);
      case NotifyCall(_, _) => NotifyCallExactly(s, i);
      case SetAttrCall(_, _) => SetAttrCallExactly(s, i);
    }
    assert s.procs[i].todo[0] in s.procs[i].todo;
    assert forall c :: c in s.procs[i].todo[1..] ==> c in s.procs[i].todo;
  }

  lemma SendBlocking(s: State, i: nat)
    requires Enabled(s, i) && Sending(s.procs[i].pc) && s.flags != 1 && BlockingOnly(s.procs[i])
    ensures MovesBlocking(s, Do(s, i), i)
  {
    hide Sent, Sendable, WellFormed, Contents, AfterInsert, Fires;
  }

  lemma ReceiveBlocking(s: State, i: nat)
    requires Enabled(s, i) && !Sending(s.procs[i].pc) && !s.procs[i].pc.Idle? && s.flags != 1 && BlockingOnly(s.procs[i])
    ensures MovesBlocking(s, Do(s, i), i)
  {
    hide Do, MovesBlocking;
    if Asking(s.procs[i].pc) {
      AskingBlocking(s, i);
    } else if Taking(s.procs[i].pc) {
      TakingBlocking(s, i);
    } else {
      RemovingBlocking(s, i);
    }
  }

  lemma AskingBlocking(s: State, i: nat)
    requires Enabled(s, i) && Asking(s.procs[i].pc) && s.flags != 1 && BlockingOnly(s.procs[i])
    ensures MovesBlocking(s, Do(s, i), i)
  {
  }

  lemma TakingBlocking(s: State, i: nat)
    requires Enabled(s, i) && Taking(s.procs[i].pc) && s.flags != 1 && BlockingOnly(s.procs[i])
    ensures MovesBlocking(s, Do(s, i), i)
  {
  }

  lemma RemovingBlocking(s: State, i: nat)
    requires Enabled(s, i) && s.procs[i].pc.RecvIn? && s.flags != 1 && BlockingOnly(s.procs[i])
    ensures MovesBlocking(s, Do(s, i), i)
  {
    hide Received, WellFormed, Contents, Order;
  }

  /** Blocking use stays blocking use, and counts no non-blocking receive. */
  lemma StepBlocking(s: State, t: State)
    requires Inv(s) && Step(s, t) && Blocking(s)
    ensures Blocking(t) && t.tries == s.tries
  {
    hide Inv, Do, Sending, BlockingOnly;
    var i: nat :| Enabled(s, i) && t == Do(s, i);
    assert s.procs[i] in s.procs;
    if s.procs[i].pc.Idle? {
      BeginBlocking(s, i);
    } else if Sending(s.procs[i].pc) {
      SendBlocking(s, i);
    } else {
      ReceiveBlocking(s, i);
    }
    LocalFrame(s, i);
    assert forall p :: p in t.procs ==> p == t.procs[i] || p in s.procs;
  }

  /** The counter test of a send. */
  lemma TestOfCounter(s: State)
    requires Inv(s)
    ensures Sum(s.procs, Waiting) >= 0 && s.notice.readers == s.tries - Sum(s.procs, Waiting)
  {
    SumNonNegative(s.procs, Waiting);
  }

  /**
   * Where the mode is blocking from the start and nobody changes it, the counter test of a send means in every
   * state of every run that no receive waits.
   */
  lemma {:induction false} BlockingTest(r: seq<State>, k: nat)
    requires IsRun(r) && k < |r| && Blocking(r[0])
    ensures Blocking(r[k]) && r[k].tries == 0
    ensures r[k].notice.readers >= 0 <==> Sum(r[k].procs, Waiting) == 0
  {
    hide Inv, Step, Blocking, Waiting;
    RunInv(r, k);
    TestOfCounter(r[k]);
    if k > 0 {
      BlockingTest(r, k - 1);
      RunInv(r, k - 1);
      StepBlocking(r[k - 1], r[k]);
    }
  }

  // ----- schedules -----

  ghost predicate Connects(r: seq<State>, s: State, t: State) {
    r != [] && r[0] == s && r[|r| - 1] == t && forall k :: 0 <= k < |r| - 1 ==> Step(r[k], r[k + 1])
  }

  /** Some schedule leads from s to t. */
  ghost predicate Leads(s: State, t: State) {
    exists r :: Connects(r, s, t)
  }

  lemma LeadsSelf(s: State)
    ensures Leads(s, s)
  {
    assert Connects([s], s, s);
  }

  lemma LeadsOn(s: State, m: State, i: nat) returns (t: State)
    requires Leads(s, m) && Inv(m) && Enabled(m, i)
    ensures t == Do(m, i) && Leads(s, t) && Inv(t)
  {
    hide Do, Inv;
    t := Do(m, i);
    assert Step(m, t);
    StepKeepsInv(m, t);
    var r :| Connects(r, s, m);
    hide Step, Enabled;
    assert Connects(r + [t], s, t);
  }

  /** The next step of process j sends a signal although a receive waits. */
  ghost predicate Misfires(s: State, j: nat) {
    Enabled(s, j) && WellFormed(s.seg) && Signals(s, j) && Sum(s.procs, Waiting) >= 1
  }

  ghost predicate CanMisfire(s: State) {
    exists t, j :: Leads(s, t) && Misfires(t, j)
  }

  /** Nobody is in a call. */
  ghost predicate Quiescent(s: State) {
    forall p :: p in s.procs ==> p.pc == Idle
  }

  /** What a quiescent empty queue has in its semaphores and counter. */
  lemma QuiescentCounts(s: State)
    requires Inv(s) && Quiescent(s) && Contents(s.seg) == []
    ensures s.access == 1 && s.update == 1 && s.write == MAX_MSG && s.read == 0
    ensures s.notice.readers == s.tries && Sum(s.procs, Waiting) == 0
  {
    hide WellFormed, Order, Contents, Legal;
    SumIdle(s.procs);
    ContentsSize(s.seg);
  }

  predicate NextReceives(p: Proc) {
    p.todo != [] && p.todo[0].ReceiveCall? && ValidReceive(p.todo[0].open, p.todo[0].len, p.todo[0].hasPrio)
  }

  predicate NextSends(p: Proc) {
    p.todo != [] && p.todo[0].SendCall? && ValidSend(p.todo[0].open, p.todo[0].m)
  }

  /** A blocking receive up to its wait. */
  lemma ReceiveWaits(s0: State, s: State, i: nat) returns (t: State)
    requires Leads(s0, s) && Inv(s) && s.flags != 1 && s.update == 1
    requires i < |s.procs| && s.procs[i].pc == Idle && NextReceives(s.procs[i])
    ensures Leads(s0, t) && Inv(t)
    ensures t == s.(procs := s.procs[i := TakenTo(s.procs[i], RecvWait)],
                    notice := s.notice.(readers := s.notice.readers - 1))
  {
    hide Leads, Inv, ReceiveSection, SendSection;
    t := LeadsOn(s0, s, i);
    t := LeadsOn(s0, t, i);
    t := LeadsOn(s0, t, i);
    t := LeadsOn(s0, t, i);
  }

  /** A blocking send up to its critical section. */
  lemma SendEnters(s0: State, s: State, j: nat) returns (t: State)
    requires Leads(s0, s) && Inv(s) && s.flags != 1 && s.access == 1 && s.write > 0
    requires j < |s.procs| && s.procs[j].pc == Idle && NextSends(s.procs[j])
    ensures Leads(s0, t) && Inv(t)
    ensures t == s.(procs := s.procs[j := TakenTo(s.procs[j], SendIn(s.procs[j].todo[0].m))],
                    write := s.write - 1, access := 0)
  {
    hide Leads, Inv, SendSection, ReceiveSection, AsSigned;
    t := LeadsOn(s0, s, j);
    t := LeadsOn(s0, t, j);
    t := LeadsOn(s0, t, j);
  }

  /** The schedule that notifies although a receive waits: the receive blocks, then the send goes in. */
  lemma MisfireSchedule(s0: State, s: State, i: nat, j: nat) returns (t: State)
    requires Leads(s0, s) && Inv(s) && Quiescent(s) && s.flags != 1
    requires Contents(s.seg) == [] && s.notice.sig != NO_SIGNAL && s.tries > 0
    requires i < |s.procs| && j < |s.procs| && i != j && NextReceives(s.procs[i]) && NextSends(s.procs[j])
    ensures Leads(s0, t) && Inv(t) && Misfires(t, j)
    ensures t.kills == s.kills && t.registrations == s.registrations
    ensures t.notice.subscriber == s.notice.subscriber && t.notice.sig == s.notice.sig
    ensures |t.procs| == |s.procs| && t.procs[i].pc.RecvWait?
  {
    QuiescentCounts(s);
    hide Inv, Leads, WellFormed, Contents, NextReceives, NextSends;
    t := ReceiveWaits(s0, s, i);
    t := SendEnters(s0, t, j);
    assert Sum(t.procs, Waiting) == 1 by {
      SumUpdate(s.procs, i, TakenTo(s.procs[i], RecvWait), Waiting);
      SumUpdate(s.procs[i := TakenTo(s.procs[i], RecvWait)], j, t.procs[j], Waiting);
    }
  }

  /** In blocking use a misfire needs a non-blocking receive that got its message before. */
  lemma {:induction false} BlockingPath(r: seq<State>, s: State, k: nat)
    requires r != [] && k < |r| && Connects(r, s, r[|r| - 1]) && Inv(s) && Blocking(s)
    ensures Inv(r[k]) && Blocking(r[k]) && r[k].tries == s.tries
  {
    hide Inv, Step, Blocking;
    if k > 0 {
      BlockingPath(r, s, k - 1);
      StepBlocking(r[k - 1], r[k]);
      StepKeepsInv(r[k - 1], r[k]);
    }
  }

  lemma MisfireNeedsTry(s: State)
    requires Inv(s) && Blocking(s) && CanMisfire(s)
    ensures s.tries > 0
  {
    hide Inv, Step, Blocking, Waiting;
    var t, j :| Leads(s, t) && Misfires(t, j);
    var r :| Connects(r, s, t);
    BlockingPath(r, s, |r| - 1);
    TestOfCounter(t);
  }

  /**
   * When a receive that waits fails to hold back a notification: with nobody in a call, the queue empty, a
   * subscriber on record, the mode blocking for good, and a receive and a send to come from two processes, some
   * schedule notifies while a receive waits if and only if a non-blocking receive has got a message before.
   */
  lemma MisfireExactly(s: State, i: nat, j: nat)
    requires Inv(s) && Quiescent(s) && Blocking(s) && Contents(s.seg) == [] && s.notice.sig != NO_SIGNAL
    requires i < |s.procs| && j < |s.procs| && i != j && NextReceives(s.procs[i]) && NextSends(s.procs[j])
    ensures CanMisfire(s) <==> s.tries > 0
  {
    hide Inv, Quiescent, Contents, WellFormed, Misfires, Leads, Waiting;
    if s.tries > 0 {
      LeadsSelf(s);
      var t := MisfireSchedule(s, s, i, j);
    } else if CanMisfire(s) {
      MisfireNeedsTry(s);
    }
  }

  // ----- a run that misfires -----

  /** Process 0 of two is at pc, before its registration; the other has made no call. */
  ghost predicate Alone(s: State, pc: PC, todo: seq<Call>, other: Proc, write: int, read: int, readers: int) {
    && |s.procs| == 2 && s.procs[0].pc == pc && s.procs[0].todo == todo && s.procs[1] == other
    && s.write == write && s.read == read && s.access == 1 && s.update == 1 && s.notice.readers == readers
    && s.notice.sig == NO_SIGNAL && s.kills == [] && s.registrations == 0
  }

  lemma SectionReaders(s: State)
    requires Enabled(s, 0) && (s.procs[0].pc.SendIn? || s.procs[0].pc.RecvIn?) && s.notice.sig == NO_SIGNAL
    ensures var t := Do(s, 0);
            && t.notice.readers == s.notice.readers && t.notice.sig == NO_SIGNAL && t.flags == s.flags
            && t.kills == s.kills && t.registrations == s.registrations
  {
    hide Sent, Received, WellFormed, Contents, Order, Sendable;
  }

  lemma SectionOn(s0: State, s: State) returns (t: State)
    requires Leads(s0, s) && Inv(s) && Enabled(s, 0) && (s.procs[0].pc.SendIn? || s.procs[0].pc.RecvIn?)
    requires s.notice.sig == NO_SIGNAL
    ensures Leads(s0, t) && Inv(t) && t.flags == s.flags && t.kills == s.kills && t.registrations == s.registrations
    ensures t.notice.readers == s.notice.readers && t.notice.sig == NO_SIGNAL
    ensures t.procs == s.procs[0 := s.procs[0].(pc := if s.procs[0].pc.SendIn? then SendUnlock else RecvUnlock)]
    ensures t.access == s.access && t.update == s.update && t.write == s.write && t.read == s.read
  {
    hide Leads, Do, Inv;
    t := LeadsOn(s0, s, 0);
    SectionReaders(s);
    SectionFrame(s, 0);
  }

  /** A whole non-blocking send, alone. */
  lemma SendOn(s0: State, s: State, m: Message, rest: seq<Call>, other: Proc, write: int, read: int, readers: int)
    returns (t: State)
    requires Leads(s0, s) && Inv(s) && s.flags == 1 && ValidSend(true, m) && write > 0
    requires Alone(s, Idle, [SendCall(true, m)] + rest, other, write, read, readers)
    ensures Leads(s0, t) && Inv(t) && t.flags == 1 && Alone(t, Idle, rest, other, write - 1, read + 1, readers)
  {
    hide Leads, SendSection, Inv, ValidSend;
    t := LeadsOn(s0, s, 0);
    t := LeadsOn(s0, t, 0);
    t := LeadsOn(s0, t, 0);
    t := SectionOn(s0, t);
    t := LeadsOn(s0, t, 0);
    t := LeadsOn(s0, t, 0);
  }

  /** A non-blocking receive up to its critical section, alone. */
  lemma EnterOn(s0: State, s: State, rest: seq<Call>, other: Proc, write: int, read: int, readers: int)
    returns (t: State)
    requires Leads(s0, s) && Inv(s) && s.flags == 1 && read > 0
    requires Alone(s, Idle, [ReceiveCall(true, 32, true)] + rest, other, write, read, readers)
    ensures Leads(s0, t) && Inv(t) && t.flags == 1 && Alone(t, RecvLock, rest, other, write, read - 1, readers + 1)
  {
    hide Leads, ReceiveSection, Inv;
    t := LeadsOn(s0, s, 0);
    t := LeadsOn(s0, t, 0);
    t := LeadsOn(s0, t, 0);
    t := LeadsOn(s0, t, 0);
    t := LeadsOn(s0, t, 0);
  }

  /** A whole non-blocking receive, alone, of a message that is there. */
  lemma ReceiveOn(s0: State, s: State, rest: seq<Call>, other: Proc, write: int, read: int, readers: int)
    returns (t: State)
    requires Leads(s0, s) && Inv(s) && s.flags == 1 && read > 0
    requires Alone(s, Idle, [ReceiveCall(true, 32, true)] + rest, other, write, read, readers)
    ensures Leads(s0, t) && Inv(t) && t.flags == 1 && Alone(t, Idle, rest, other, write + 1, read - 1, readers + 1)
  {
    hide Leads, ReceiveSection, Inv;
    t := EnterOn(s0, s, rest, other, write, read, readers);
    t := LeadsOn(s0, t, 0);
    t := SectionOn(s0, t);
    t := LeadsOn(s0, t, 0);
    t := LeadsOn(s0, t, 0);
  }

  /** The mode is set to blocking, then a subscriber registers for signal 10. */
  lemma RegisterOn(s0: State, s: State, rest: seq<Call>, other: Proc, write: int, read: int, readers: int)
    returns (t: State)
    requires Leads(s0, s) && Inv(s)
    requires Alone(s, Idle, [SetAttrCall(true, false), NotifyCall(true, Some(SigEvent(Signalled, 10)))] + rest,
                   other, write, read, readers)
    ensures Leads(s0, t) && Inv(t) && t.flags == 0 && t.notice == Notice(1, 10, readers) && t.kills == [] && t.registrations == 1
    ensures |t.procs| == 2 && t.procs[0].pc == Idle && t.procs[0].todo == rest && t.procs[1] == other
    ensures t.read == read
  {
    hide Leads, Inv;
    assert s.procs[0].todo[1..][1..] == rest;
    t := LeadsOn(s0, s, 0);
    t := LeadsOn(s0, t, 0);
  }

  ghost function Start(todo: seq<Call>, other: seq<Call>): (s: State)
    ensures Init(s) && s.flags == 1 && Alone(s, Idle, todo, Proc(Idle, other, [], []), MAX_MSG, 0, 0)
  {
    State(Segment(seq(MAX_MSG, _ => Slot(seq(MAX_SIZ_MSG, _ => NUL), 0, 0)),
                  seq(MAX_MSG, _ => Cell(0, FREE_CELL)), END, 0),
          Notice(0, NO_SIGNAL, 0), 1, MAX_MSG, 0, 1, 1,
          [Proc(Idle, todo, [], []), Proc(Idle, other, [], [])], [], [], [], 0, 0, false)
  }

  lemma EmptyWithoutTokens(s: State)
    requires Inv(s) && Quiescent(s) && s.read == 0
    ensures WellFormed(s.seg) && Contents(s.seg) == [] && s.tries == s.notice.readers
  {
    hide WellFormed, Order, Contents, Legal;
    SumIdle(s.procs);
    ContentsSize(s.seg);
  }

  /** From the start: one message is sent and received without blocking. */
  lemma FirstExchange(m: Message, rest: seq<Call>, todo1: seq<Call>) returns (s: State, t: State)
    requires ValidSend(true, m)
    ensures Init(s) && Leads(s, t) && Inv(t) && t.flags == 1
    ensures Alone(t, Idle, rest, Proc(Idle, todo1, [], []), MAX_MSG, 0, 1)
  {
    var more := [ReceiveCall(true, 32, true)] + rest;
    s := Start([SendCall(true, m)] + more, todo1);
    InitInv(s);
    LeadsSelf(s);
    var other := Proc(Idle, todo1, [], []);
    hide Leads, Inv, WellFormed, Contents, Init, Alone, ValidSend;
    t := SendOn(s, s, m, more, other, MAX_MSG, 0, 0);
    t := ReceiveOn(s, t, rest, other, MAX_MSG - 1, 1, 0);
  }

  /** A registered subscriber, the blocking mode, an empty queue, and one non-blocking receive that got its message. */
  lemma Misleading() returns (s: State, t: State)
    ensures Init(s) && Leads(s, t) && Inv(t) && Quiescent(t) && t.flags == 0 && t.tries == 1
    ensures Contents(t.seg) == [] && t.registrations == 1 && t.kills == []
    ensures t.notice.subscriber == 1 && t.notice.sig == 10
    ensures |t.procs| == 2 && NextSends(t.procs[0]) && NextReceives(t.procs[1])
  {
    hide Leads, Inv, WellFormed, Contents, Init, Alone;
    var m, c := Message("a\0", 2, 1), ReceiveCall(true, 32, true);
    var last := [SendCall(true, m)];
    var rest := [SetAttrCall(true, false), NotifyCall(true, Some(SigEvent(Signalled, 10)))] + last;
    s, t := FirstExchange(m, rest, [c]);
    t := RegisterOn(s, t, last, Proc(Idle, [c], [], []), MAX_MSG, 0, 1);
    EmptyWithoutTokens(t);
  }

  /**
   * A run that notifies its subscriber while a receive waits: a message is sent and received without blocking, the
   * mode is set to blocking, a subscriber registers, a receive blocks on the empty queue, and a send comes.
   */
  lemma NotifiedInVain() returns (s: State, t: State)
    ensures Init(s) && Leads(s, t)
    ensures t.registrations == 1 && t.kills == [Kill(1, 10)]
    ensures |t.procs| == 2 && t.procs[1].pc.RecvWait? && Sum(t.procs, Waiting) >= 1
  {
    hide Leads, Inv, WellFormed, Contents, Init, Misfires, NextSends, NextReceives;
    s, t := Misleading();
    t := MisfireSchedule(s, t, 1, 0);
    t := LastStep(s, t);
  }

  lemma SectionRegistrations(s: State, i: nat)
    requires Enabled(s, i) && s.procs[i].pc.SendIn?
    ensures Do(s, i).registrations == s.registrations
  {
    hide Sent, WellFormed, Contents, Order, Sendable;
  }

  /** The send's critical section after which the subscriber has been notified. */
  lemma LastStep(s0: State, s: State) returns (t: State)
    requires Leads(s0, s) && Inv(s) && Misfires(s, 0) && |s.procs| == 2 && s.procs[1].pc.RecvWait?
    ensures Leads(s0, t) && Inv(t) && t.kills == s.kills + [Kill(s.notice.subscriber, s.notice.sig)]
    ensures t.registrations == s.registrations && |t.procs| == 2 && t.procs[1].pc.RecvWait?
    ensures Sum(t.procs, Waiting) >= 1
  {
    hide Leads, Do, Inv, WellFormed, Contents;
    t := LeadsOn(s0, s, 0);
    SignalStep(s, 0);
    SectionFrame(s, 0);
    SectionRegistrations(s, 0);
    SumAtLeast(t.procs, 1, Waiting);
  }
}
