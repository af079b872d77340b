/**
 * Progress of the queue system: what a blocked system looks like, why every run ends, and exactly when senders and
 * receivers that use the blocking calls all finish.
 */
module QueueProgress {
  import opened Sums
  import opened CStrings
  import opened PriorityQueue
  import opened QueueSegment
  import opened QueueNotice
  import opened QueueSystem

  predicate Finished(p: Proc) {
    p.pc == Idle && p.todo == []
  }

  ghost predicate Stuck(s: State) {
    forall i: nat :: i < |s.procs| ==> !Enabled(s, i)
  }

  /**
   * Deadlock freedom: a system in which nobody can move has only finished processes and processes of one kind,
   * either senders on a full queue or receivers on an empty queue.
   */
  lemma StuckShape(s: State)
    requires Inv(s) && Stuck(s)
    ensures forall p :: p in s.procs ==> Finished(p) || p.pc.SendWait? || p.pc.RecvWait?
    ensures forall p :: p in s.procs && p.pc.SendWait? ==> |Contents(s.seg)| == MAX_MSG && s.read == MAX_MSG
    ensures forall p :: p in s.procs && p.pc.RecvWait? ==> |Contents(s.seg)| == 0 && s.write == MAX_MSG
    ensures s.write + |Contents(s.seg)| == MAX_MSG && |Contents(s.seg)| == s.read
  {
    hide WellFormed, Order, Contents, Legal;
    ContentsSize(s.seg);
    NobodyInside(s);
    StuckPlaces(s);
    StuckSums(s);
  }

  lemma StuckPlaces(s: State)
    requires Stuck(s) && s.access == 1 && s.update == 1
    ensures forall p :: p in s.procs ==> Finished(p) || p.pc.SendWait? || p.pc.RecvWait?
    ensures forall p :: p in s.procs && p.pc.SendWait? ==> s.write <= 0
    ensures forall p :: p in s.procs && p.pc.RecvWait? ==> s.read <= 0
  {
    forall i: nat | i < |s.procs|
      ensures var p := s.procs[i];
              && (Finished(p) || p.pc.SendWait? || p.pc.RecvWait?)
              && (p.pc.SendWait? ==> s.write <= 0) && (p.pc.RecvWait? ==> s.read <= 0)
    {
      assert !Enabled(s, i);
    }
  }

  lemma StuckSums(s: State)
    requires forall p :: p in s.procs ==> Finished(p) || p.pc.SendWait? || p.pc.RecvWait?
    ensures Sum(s.procs, Holding) == Sum(s.procs, Removed) == 0
    ensures Sum(s.procs, Inserted) == Sum(s.procs, PastRead) == 0
  {
    SumZero(s.procs, Holding);
    SumZero(s.procs, Removed);
    SumZero(s.procs, Inserted);
    SumZero(s.procs, PastRead);
  }

  /** Whoever holds a mutex can move, so in a stuck system both are free. */
  lemma NobodyInside(s: State)
    requires Locks(s) && Stuck(s)
    ensures s.access == 1 && s.update == 1
  {
    SumZero(s.procs, Inside);
    SumZero(s.procs, Updating);
    forall i: nat | i < |s.procs| ensures Inside(s.procs[i]) == 0 && (s.update == 0 || Updating(s.procs[i]) == 0) {
      assert !Enabled(s, i);
    }
    forall i: nat | i < |s.procs| ensures Updating(s.procs[i]) == 0 {
      assert !Enabled(s, i);
    }
  }

  // ----- every run ends -----

  function Rank(pc: PC): nat {
    match pc
    case Idle => 0
    case SendTry(_) => 6
    case SendWait(_) => 6
    case SendLock(_) => 5
    case SendIn(_) => 4
    case SendUnlock => 3
    case SendPost => 2
    case RecvDecLock => 11
    case RecvDec => 10
    case RecvDecUnlock => 9
    case RecvWait => 8
    case RecvTry => 8
    case RecvIncLock(_) => 7
    case RecvInc(_) => 6
    case RecvIncUnlock => 5
    case RecvLock => 4
    case RecvIn => 3
    case RecvUnlock => 2
    case RecvPost => 1
  }

  function Work(p: Proc): int {
    12 * |p.todo| + Rank(p.pc)
  }

  lemma BeginWork(s: State, i: nat)
    requires Enabled(s, i) && s.procs[i].pc.Idle?
    ensures |Do(s, i).procs| == |s.procs| && Work(Do(s, i).procs[i]) < Work(s.procs[i])
  {
    BeginLocal(s, i);
  }

  lemma SendWork(s: State, i: nat)
    requires Enabled(s, i) && Sending(s.procs[i].pc) && !s.procs[i].pc.SendIn?
    ensures |Do(s, i).procs| == |s.procs| && Work(Do(s, i).procs[i]) < Work(s.procs[i])
  {
    hide SendSection;
  }

  lemma ReceiveWork(s: State, i: nat)
    requires Enabled(s, i) && !Sending(s.procs[i].pc) && !s.procs[i].pc.RecvIn? && !s.procs[i].pc.Idle?
    ensures |Do(s, i).procs| == |s.procs| && Work(Do(s, i).procs[i]) < Work(s.procs[i])
  {
    hide ReceiveSection;
  }

  lemma SectionWork(s: State, i: nat)
    requires Enabled(s, i) && (s.procs[i].pc.SendIn? || s.procs[i].pc.RecvIn?)
    ensures |Do(s, i).procs| == |s.procs| && Work(Do(s, i).procs[i]) < Work(s.procs[i])
  {
    hide Do;
    SectionFrame(s, i);
  }

  /** Every step, of whatever process, uses up some of the work that the processes have left. */
  lemma StepWorks(s: State, t: State)
    requires Inv(s) && Step(s, t)
    ensures Sum(t.procs, Work) < Sum(s.procs, Work)
  {
    hide Do, Work, Sending, Inv;
    var i: nat :| Enabled(s, i) && t == Do(s, i);
    assert t.procs == s.procs[i := t.procs[i]] by {
      LocalFrame(s, i);
    }
    if s.procs[i].pc.Idle? {
      BeginWork(s, i);
    } else if s.procs[i].pc.SendIn? || s.procs[i].pc.RecvIn? {
      SectionWork(s, i);
    } else if Sending(s.procs[i].pc) {
      SendWork(s, i);
    } else {
      ReceiveWork(s, i);
    }
    SumUpdate(s.procs, i, t.procs[i], Work);
  }

  /** Every run is finite: whatever the schedule, it takes no more steps than the programs' work. */
  lemma {:induction false} RunBounded(r: seq<State>, k: nat)
    requires IsRun(r) && k < |r|
    ensures k + Sum(r[k].procs, Work) <= Sum(r[0].procs, Work)
  {
    hide Inv, Step, Init, Work;
    if k > 0 {
      RunBounded(r, k - 1);
      RunInv(r, k - 1);
      StepWorks(r[k - 1], r[k]);
    }
  }

  // ----- blocking senders and receivers -----

  function IsSend(c: Call): int { if c.SendCall? then 1 else 0 }

  function IsReceive(c: Call): int { if c.ReceiveCall? then 1 else 0 }

  /** Sends that a process has still to insert. */
  ghost function PendingSends(p: Proc): int {
    Sum(p.todo, IsSend) + if p.pc.SendWait? || p.pc.SendLock? || p.pc.SendIn? then 1 else 0
  }

  /** Receives whose message a process has still to remove. */
  ghost function PendingReceives(p: Proc): int {
    Sum(p.todo, IsReceive) +
    if p.pc.Idle? || Sending(p.pc) || p.pc.RecvTry? || p.pc.RecvUnlock? || p.pc.RecvPost? then 0 else 1
  }

  /** A process that only sends, with valid arguments and the blocking call. */
  ghost predicate Sender(p: Proc) {
    && (forall c :: c in p.todo ==> c.SendCall? && ValidSend(c.open, c.m))
    && (p.pc.Idle? || (Sending(p.pc) && !p.pc.SendTry?))
  }

  /** A process that only receives, with valid arguments and the blocking call. */
  ghost predicate Receiver(p: Proc) {
    && (forall c :: c in p.todo ==> c.ReceiveCall? && ValidReceive(c.open, c.len, c.hasPrio))
    && !Sending(p.pc) && !p.pc.RecvTry?
  }

  ghost predicate Dedicated(p: Proc) {
    (Sender(p) || Receiver(p)) && forall k :: 0 <= k < |p.rets| ==> p.rets[k] == 0
  }

  /** The calls of a process: returned, being made, still to make. */
  function Calls(p: Proc): nat {
    |p.rets| + |p.todo| + if p.pc.Idle? then 0 else 1
  }

  ghost predicate AllDedicated(s: State) {
    s.flags != 1 && forall p :: p in s.procs ==> Dedicated(p)
  }

  /** How the process that moves changes: what it has pending balances with the length of the list. */
  ghost predicate Moves(p: Proc, q: Proc, n: nat, m: nat) {
    && Dedicated(q) && Calls(q) == Calls(p)
    && PendingSends(q) - PendingReceives(q) + m == PendingSends(p) - PendingReceives(p) + n
  }

  lemma BeginMoves(s: State, i: nat, n: nat)
    requires s.flags != 1 && Enabled(s, i) && s.procs[i].pc.Idle? && Dedicated(s.procs[i])
    ensures Do(s, i).flags == s.flags && |Do(s, i).procs| == |s.procs|
    ensures Moves(s.procs[i], Do(s, i).procs[i], n, n)
  {
    var p := s.procs[i];
    assert p.todo[0] in p.todo;
    assert forall c :: c in p.todo[1..] ==> c in p.todo;
  }

  lemma SendMoves(s: State, i: nat, n: nat)
    requires Enabled(s, i) && Sending(s.procs[i].pc) && !s.procs[i].pc.SendIn? && Dedicated(s.procs[i])
    ensures Do(s, i).flags == s.flags && |Do(s, i).procs| == |s.procs|
    ensures Moves(s.procs[i], Do(s, i).procs[i], n, n)
  {
    hide SendSection, Sum, ValidSend;
  }

  lemma ReceiveMoves(s: State, i: nat, n: nat)
    requires Enabled(s, i) && !Sending(s.procs[i].pc) && !s.procs[i].pc.RecvIn? && !s.procs[i].pc.Idle?
    requires Dedicated(s.procs[i])
    ensures Do(s, i).flags == s.flags && |Do(s, i).procs| == |s.procs|
    ensures Moves(s.procs[i], Do(s, i).procs[i], n, n)
  {
    hide Do, Moves, Dedicated;
    if Asking(s.procs[i].pc) {
      AskingMoves(s, i, n);
    } else {
      TakingMoves(s, i, n);
    }
  }

  lemma AskingMoves(s: State, i: nat, n: nat)
    requires Enabled(s, i) && Asking(s.procs[i].pc) && Dedicated(s.procs[i])
    ensures Do(s, i).flags == s.flags && |Do(s, i).procs| == |s.procs|
    ensures Moves(s.procs[i], Do(s, i).procs[i], n, n)
  {
    hide Sum, ValidReceive;
  }

  lemma TakingMoves(s: State, i: nat, n: nat)
    requires Enabled(s, i) && Taking(s.procs[i].pc) && Dedicated(s.procs[i])
    ensures Do(s, i).flags == s.flags && |Do(s, i).procs| == |s.procs|
    ensures Moves(s.procs[i], Do(s, i).procs[i], n, n)
  {
    hide Sum, ValidReceive, ValidSend, SendDo, Begin, ReceiveSection;
  }

  lemma SectionMoves(s: State, i: nat)
    requires Inv(s) && Enabled(s, i) && (s.procs[i].pc.SendIn? || s.procs[i].pc.RecvIn?) && Dedicated(s.procs[i])
    ensures var t := Do(s, i);
            && t.flags == s.flags && |t.procs| == |s.procs| && WellFormed(t.seg)
            && Moves(s.procs[i], t.procs[i], |Order(s.seg)|, |Order(t.seg)|)
  {
    hide Do, WellFormed, Order, Contents, Accepts, Moves, Dedicated, Sending, Locks, Tokens, Notices, Legal, Checked;
    SectionFlags(s, i);
    SectionFrame(s, i);
    if s.procs[i].pc.SendIn? {
      SendStep(s, i);
    } else {
      ReceiveStep(s, i);
    }
    MoveOn(s.procs[i], |Order(s.seg)|);
  }

  lemma MoveOn(p: Proc, n: nat)
    requires Dedicated(p)
    ensures p.pc.SendIn? ==> Moves(p, p.(pc := SendUnlock), n, n + 1)
    ensures p.pc.RecvIn? && n > 0 ==> Moves(p, p.(pc := RecvUnlock), n, n - 1)
  {
    hide Sum;
  }

  lemma SectionFlags(s: State, i: nat)
    requires Enabled(s, i) && (s.procs[i].pc.SendIn? || s.procs[i].pc.RecvIn?)
    ensures Do(s, i).flags == s.flags
  {
    hide Sent, Received, WellFormed, Contents, Order, AfterInsert, Fires, Sendable;
  }

  lemma StepMoves(s: State, i: nat)
    requires Inv(s) && AllDedicated(s) && Enabled(s, i)
    ensures var t := Do(s, i);
            && t.flags == s.flags && |t.procs| == |s.procs| && WellFormed(t.seg)
            && Moves(s.procs[i], t.procs[i], |Order(s.seg)|, |Order(t.seg)|)
  {
    hide Do, Sending, WellFormed, Order, Contents, Moves, Dedicated, LockBalance, TokenBalance, Notices;
    assert s.procs[i] in s.procs;
    LocalBalance(s, i);
    if s.procs[i].pc.SendIn? || s.procs[i].pc.RecvIn? {
      SectionMoves(s, i);
    } else if s.procs[i].pc.Idle? {
      BeginMoves(s, i, |Order(s.seg)|);
      BeginBalance(s, i, |Order(s.seg)|);
    } else if Sending(s.procs[i].pc) {
      SendMoves(s, i, |Order(s.seg)|);
      SendLocks(s, i);
    } else {
      ReceiveMoves(s, i, |Order(s.seg)|);
      ReceiveLocks(s, i);
    }
  }

  /** Sends pending - receives pending + messages queued. */
  ghost function Surplus(s: State): int
    requires WellFormed(s.seg)
  {
    Sum(s.procs, PendingSends) - Sum(s.procs, PendingReceives) + |Order(s.seg)|
  }

  lemma StepSurplus(s: State, t: State)
    requires Inv(s) && AllDedicated(s) && Step(s, t)
    ensures WellFormed(t.seg) && AllDedicated(t) && Surplus(t) == Surplus(s)
    ensures |t.procs| == |s.procs| && forall j :: 0 <= j < |s.procs| ==> Calls(t.procs[j]) == Calls(s.procs[j])
  {
    hide Inv, Do, WellFormed, Order, PendingSends, PendingReceives, Dedicated, Calls;
    var i: nat :| Enabled(s, i) && t == Do(s, i);
    StepMoves(s, i);
    LocalFrame(s, i);
    SumUpdate(s.procs, i, t.procs[i], PendingSends);
    SumUpdate(s.procs, i, t.procs[i], PendingReceives);
    assert forall p :: p in t.procs ==> p == t.procs[i] || p in s.procs;
  }

  lemma {:induction false} RunSurplus(r: seq<State>, k: nat)
    requires IsRun(r) && AllDedicated(r[0]) && k < |r|
    ensures WellFormed(r[0].seg) && WellFormed(r[k].seg) && AllDedicated(r[k]) && Surplus(r[k]) == Surplus(r[0])
    ensures |r[k].procs| == |r[0].procs|
    ensures forall j :: 0 <= j < |r[0].procs| ==> Calls(r[k].procs[j]) == Calls(r[0].procs[j])
  {
    hide Inv, Init, Step, WellFormed, AllDedicated, Surplus, Calls;
    RunInv(r, k);
    RunInv(r, 0);
    InvWellFormed(r[k]);
    InvWellFormed(r[0]);
    if k > 0 {
      RunSurplus(r, k - 1);
      RunInv(r, k - 1);
      StepSurplus(r[k - 1], r[k]);
    }
  }

  lemma InvWellFormed(s: State)
    requires Inv(s)
    ensures WellFormed(s.seg)
  {
    hide WellFormed;
  }

  lemma {:induction false} PendingNonNegative(todo: seq<Call>)
    ensures Sum(todo, IsSend) >= 0 && Sum(todo, IsReceive) >= 0
    ensures (forall c :: c in todo ==> c.SendCall?) ==> Sum(todo, IsReceive) == 0
    ensures (forall c :: c in todo ==> c.ReceiveCall?) ==> Sum(todo, IsSend) == 0
  {
    if todo != [] {
      PendingNonNegative(todo[1..]);
    }
  }

  lemma PendingSigns(p: Proc)
    ensures PendingSends(p) >= 0 && PendingReceives(p) >= 0
    ensures Finished(p) ==> PendingSends(p) == PendingReceives(p) == 0
  {
    PendingNonNegative(p.todo);
  }

  lemma ContentsBound(g: Segment)
    requires WellFormed(g)
    ensures |Contents(g)| <= MAX_MSG
  {
    Pigeonhole(Order(g), MAX_MSG);
  }

  /** In a stuck system of dedicated processes: nothing pending but sends on a full queue or receives on an empty one. */
  lemma StuckSurplus(s: State)
    requires Inv(s) && AllDedicated(s) && Stuck(s)
    ensures var n := |Order(s.seg)|;
            if forall p :: p in s.procs ==> Finished(p) then Surplus(s) == n && n <= MAX_MSG
            else Surplus(s) < 0 || Surplus(s) > MAX_MSG
  {
    hide WellFormed, Order, Contents, Legal, Notices, Locks, Tokens, AllDedicated, Finished, PendingSends, PendingReceives;
    StuckShape(s);
    ContentsSize(s.seg);
    forall p | p in s.procs ensures PendingSends(p) >= 0 && PendingReceives(p) >= 0 {
      PendingSigns(p);
    }
    if forall p :: p in s.procs ==> Finished(p) {
      forall p | p in s.procs ensures PendingSends(p) == PendingReceives(p) == 0 {
        PendingSigns(p);
      }
      SumZero(s.procs, PendingSends);
      SumZero(s.procs, PendingReceives);
      assert |Contents(s.seg)| <= MAX_MSG by {
        ContentsBound(s.seg);
      }
    } else {
      var i: nat :| i < |s.procs| && !Finished(s.procs[i]);
      StuckUnfinished(s, i);
    }
  }

  lemma StuckUnfinished(s: State, i: nat)
    requires WellFormed(s.seg) && AllDedicated(s) && i < |s.procs| && !Finished(s.procs[i])
    requires forall p :: p in s.procs ==> Finished(p) || p.pc.SendWait? || p.pc.RecvWait?
    requires forall p :: p in s.procs && p.pc.SendWait? ==> |Order(s.seg)| == MAX_MSG
    requires forall p :: p in s.procs && p.pc.RecvWait? ==> |Order(s.seg)| == 0
    requires forall p :: p in s.procs ==> PendingSends(p) >= 0 && PendingReceives(p) >= 0
    ensures Surplus(s) < 0 || Surplus(s) > MAX_MSG
  {
    hide WellFormed, Order;
    assert s.procs[i] in s.procs;
    PendingNonNegative(s.procs[i].todo);
    SumAtLeast(s.procs, i, PendingSends);
    SumAtLeast(s.procs, i, PendingReceives);
    forall p | p in s.procs
      ensures s.procs[i].pc.SendWait? ==> PendingReceives(p) == 0
      ensures s.procs[i].pc.RecvWait? ==> PendingSends(p) == 0
    {
      PendingNonNegative(p.todo);
    }
    SumZero(s.procs, PendingSends);
    SumZero(s.procs, PendingReceives);
  }

  /** Every call of the programs that s0 starts with has returned success in s. */
  ghost predicate AllSucceeded(s: State, s0: State) {
    && |s.procs| == |s0.procs|
    && forall j :: 0 <= j < |s.procs| ==>
         |s.procs[j].rets| == |s0.procs[j].todo| && forall k :: 0 <= k < |s.procs[j].rets| ==> s.procs[j].rets[k] == 0
  }

  /**
   * Completion: blocking senders and receivers, any number of each with any number of calls, all finish under
   * every schedule exactly when the sends are at least as many as the receives and at most 32 more. What is then
   * left in the queue is the difference, and every call has returned success.
   */
  lemma CompletionExactly(r: seq<State>)
    requires IsRun(r) && AllDedicated(r[0]) && Stuck(r[|r| - 1])
    ensures var s, sends, receives := r[|r| - 1], Sum(r[0].procs, PendingSends), Sum(r[0].procs, PendingReceives);
            && WellFormed(s.seg)
            && ((forall p :: p in s.procs ==> Finished(p)) <==> receives <= sends <= receives + 32)
            && ((forall p :: p in s.procs ==> Finished(p)) ==>
                  && |Contents(s.seg)| == sends - receives
                  && AllSucceeded(s, r[0]))
  {
    hide WellFormed, Order, Contents, PendingSends, PendingReceives, Stuck, Inv, Init, Step, Sum, Dedicated, Finished, AllSucceeded;
    var s := r[|r| - 1];
    RunInv(r, |r| - 1);
    RunSurplus(r, |r| - 1);
    StuckSurplus(s);
    InvWellFormed(s);
    ContentsSize(s.seg);
    StartSurplus(r[0]);
    if forall p :: p in s.procs ==> Finished(p) {
      AllReturned(s, r[0]);
    }
  }

  lemma AllReturned(s: State, s0: State)
    requires Init(s0) && AllDedicated(s) && |s.procs| == |s0.procs| && forall p :: p in s.procs ==> Finished(p)
    requires forall j :: 0 <= j < |s0.procs| ==> Calls(s.procs[j]) == Calls(s0.procs[j])
    ensures AllSucceeded(s, s0)
  {
    hide Opened, Sender, Receiver;
    forall j | 0 <= j < |s.procs|
      ensures |s.procs[j].rets| == |s0.procs[j].todo| && forall k :: 0 <= k < |s.procs[j].rets| ==> s.procs[j].rets[k] == 0
    {
      assert s.procs[j] in s.procs && s0.procs[j] in s0.procs;
      assert Calls(s.procs[j]) == Calls(s0.procs[j]);
    }
  }

  lemma StartSurplus(s: State)
    requires Init(s)
    ensures WellFormed(s.seg) && Surplus(s) == Sum(s.procs, PendingSends) - Sum(s.procs, PendingReceives)
  {
    OpenedEmpty(s.seg);
    hide WellFormed, Order, Contents, PendingSends, PendingReceives;
    ContentsSize(s.seg);
  }
}
