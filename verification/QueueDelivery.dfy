/**
 * End-to-end delivery: what blocking senders hand over in their calls is what comes out of the queue or stays in
 * it, each message once, whatever the schedule.
 */
module QueueDelivery {
  import opened Sums
  import opened CStrings
  import opened PriorityQueue
  import opened QueueSegment
  import opened QueueNotice
  import opened QueueSystem
  import opened QueueProgress
  import opened QueueCalls

  ghost function CallEntries(todo: seq<Call>): multiset<Entry<string>> {
    if todo == [] then multiset{}
    else (if todo[0].SendCall? then multiset{MessageEntry(todo[0].m)} else multiset{}) + CallEntries(todo[1..])
  }

  /** The message of a send that has not reached the end of its critical section. */
  ghost function Carried(pc: PC): multiset<Entry<string>> {
    if InHand(pc).Some? then multiset{MessageEntry(InHand(pc).value)} else multiset{}
  }

  /** The messages that a process has still to insert. */
  ghost function Unsent(p: Proc): multiset<Entry<string>> {
    CallEntries(p.todo) + Carried(p.pc)
  }

  ghost function AllUnsent(ps: seq<Proc>): multiset<Entry<string>> {
    if ps == [] then multiset{} else Unsent(ps[0]) + AllUnsent(ps[1..])
  }

  lemma Shuffle<T>(u: multiset<T>, a: multiset<T>, x: multiset<T>, b: multiset<T>, y: multiset<T>)
    requires a + x == b + y
    ensures (u + a) + x == (u + b) + y
  {
    assert (u + a) + x == u + (a + x);
    assert (u + b) + y == u + (b + y);
  }

  lemma {:induction false} UnsentUpdate(ps: seq<Proc>, i: nat, p: Proc)
    requires i < |ps|
    ensures AllUnsent(ps[i := p]) + Unsent(ps[i]) == AllUnsent(ps) + Unsent(p)
  {
    hide Unsent;
    if i == 0 {
      assert ps[i := p][1..] == ps[1..];
      assert AllUnsent(ps[i := p]) == Unsent(p) + AllUnsent(ps[1..]);
      assert AllUnsent(ps) == Unsent(ps[0]) + AllUnsent(ps[1..]);
    } else {
      assert ps[i := p][1..] == ps[1..][i - 1 := p];
      UnsentUpdate(ps[1..], i - 1, p);
      Shuffle(Unsent(ps[0]), AllUnsent(ps[1..][i - 1 := p]), Unsent(ps[i]), AllUnsent(ps[1..]), Unsent(p));
    }
  }

  /** Every payload that a process has still to insert has its terminator among the bytes it gives. */
  ghost predicate Terminating(p: Proc) {
    && (forall c :: c in p.todo && c.SendCall? ==> Terminated(c.m.s, c.m.len))
    && (InHand(p.pc).Some? ==> Terminated(InHand(p.pc).value.s, InHand(p.pc).value.len))
  }

  ghost predicate AllTerminating(s: State) {
    AllTerminated(s.log) && forall p :: p in s.procs ==> Terminating(p)
  }

  /** How the process that moves changes: the messages it inserts are the ones it no longer has to insert. */
  ghost predicate HandsOver(s: State, t: State, p: Proc, q: Proc) {
    && PutEntries(t.log) + Unsent(q) == PutEntries(s.log) + Unsent(p)
    && (AllTerminated(s.log) && Terminating(p) ==> AllTerminated(t.log) && Terminating(q))
  }

  /** A call that is taken up leaves the program of the process for its place. */
  lemma BeginCarries(s: State, i: nat)
    requires s.flags != 1 && Enabled(s, i) && s.procs[i].pc.Idle? && Dedicated(s.procs[i])
    ensures |Do(s, i).procs| == |s.procs|
    ensures var p, q := s.procs[i], Do(s, i).procs[i];
            && q.todo == p.todo[1..]
            && InHand(q.pc) == if p.todo[0].SendCall? then Some(p.todo[0].m) else None
  {
    assert s.procs[i].todo[0] in s.procs[i].todo;
  }

  lemma SendCarries(s: State, i: nat)
    requires Enabled(s, i) && Sending(s.procs[i].pc) && !s.procs[i].pc.SendIn? && Dedicated(s.procs[i])
    ensures |Do(s, i).procs| == |s.procs|
    ensures var p, q := s.procs[i], Do(s, i).procs[i]; q.todo == p.todo && InHand(q.pc) == InHand(p.pc)
  {
    hide SendSection;
  }

  lemma ReceiveCarries(s: State, i: nat)
    requires Enabled(s, i) && !Sending(s.procs[i].pc) && !s.procs[i].pc.RecvIn? && !s.procs[i].pc.Idle?
    ensures |Do(s, i).procs| == |s.procs|
    ensures var p, q := s.procs[i], Do(s, i).procs[i];
            q.todo == p.todo && InHand(q.pc) == None == InHand(p.pc)
  {
    hide ReceiveSection;
  }

  lemma TakenUp(p: Proc, q: Proc)
    requires p.pc.Idle? && p.todo != [] && q.todo == p.todo[1..]
    requires InHand(q.pc) == if p.todo[0].SendCall? then Some(p.todo[0].m) else None
    ensures Unsent(q) == Unsent(p) && (Terminating(p) ==> Terminating(q))
  {
    assert p.todo[0] in p.todo;
    assert forall c :: c in p.todo[1..] ==> c in p.todo;
  }

  lemma OutsideDelivers(s: State, i: nat)
    requires s.flags != 1 && Enabled(s, i) && !s.procs[i].pc.SendIn? && !s.procs[i].pc.RecvIn? && Dedicated(s.procs[i])
    ensures |Do(s, i).procs| == |s.procs| && HandsOver(s, Do(s, i), s.procs[i], Do(s, i).procs[i])
  {
    hide Do, Sending, PutEntries, AllTerminated, CallEntries, Terminated, Dedicated;
    OtherStep(s, i);
    if s.procs[i].pc.Idle? {
      BeginCarries(s, i);
      TakenUp(s.procs[i], Do(s, i).procs[i]);
    } else if Sending(s.procs[i].pc) {
      SendCarries(s, i);
    } else {
      ReceiveCarries(s, i);
    }
  }

  lemma PutOne(log: seq<Action>, a: Action)
    ensures PutEntries(log + [a]) == PutEntries(log) + if a.Put? then multiset{MessageEntry(a.m)} else multiset{}
    ensures AllTerminated(log) && (a.Put? ==> Terminated(a.m.s, a.m.len)) ==> AllTerminated(log + [a])
  {
    assert (log + [a])[..|log|] == log;
  }

  /** At the end of its critical section a send no longer has its message in hand. */
  lemma SectionCarries(p: Proc)
    ensures p.pc.SendIn? ==> Unsent(p) == Unsent(p.(pc := SendUnlock)) + multiset{MessageEntry(p.pc.m)}
    ensures p.pc.RecvIn? ==> Unsent(p) == Unsent(p.(pc := RecvUnlock))
  {
    hide CallEntries, MessageEntry;
    assert Carried(SendUnlock) == Carried(RecvUnlock) == Carried(RecvIn) == multiset{};
  }

  lemma SectionTerminates(p: Proc)
    requires Terminating(p)
    ensures p.pc.SendIn? ==> Terminating(p.(pc := SendUnlock)) && Terminated(p.pc.m.s, p.pc.m.len)
    ensures p.pc.RecvIn? ==> Terminating(p.(pc := RecvUnlock))
  {
    hide Terminated;
  }

  lemma SectionDelivers(s: State, i: nat)
    requires Inv(s) && Enabled(s, i) && (s.procs[i].pc.SendIn? || s.procs[i].pc.RecvIn?)
    ensures |Do(s, i).procs| == |s.procs| && HandsOver(s, Do(s, i), s.procs[i], Do(s, i).procs[i])
  {
    hide Do, Inv, PutEntries, AllTerminated, Terminated, Terminating, Unsent, MessageEntry;
    SectionFrame(s, i);
    SectionLogs(s, i);
    SectionCarries(s.procs[i]);
    if Terminating(s.procs[i]) {
      SectionTerminates(s.procs[i]);
    }
    PutOne(s.log, Do(s, i).log[|s.log|]);
  }

  lemma Balance<T>(a: multiset<T>, x: multiset<T>, b: multiset<T>, y: multiset<T>, u: multiset<T>, v: multiset<T>)
    requires a + x == b + y && u + y == v + x
    ensures a + u == b + v
  {
    forall e: T ensures (a + u)[e] == (b + v)[e] {
      assert (a + x)[e] == (b + y)[e] && (u + y)[e] == (v + x)[e];
    }
  }

  lemma StepDelivers(s: State, t: State)
    requires Inv(s) && AllDedicated(s) && Step(s, t)
    ensures PutEntries(t.log) + AllUnsent(t.procs) == PutEntries(s.log) + AllUnsent(s.procs)
    ensures AllTerminating(s) ==> AllTerminating(t)
  {
    hide Inv, Do, Sending, Dedicated, Unsent, PutEntries, AllTerminated, Terminating;
    var i: nat :| Enabled(s, i) && t == Do(s, i);
    LocalFrame(s, i);
    assert s.procs[i] in s.procs;
    if s.procs[i].pc.SendIn? || s.procs[i].pc.RecvIn? {
      SectionDelivers(s, i);
    } else {
      OutsideDelivers(s, i);
    }
    UnsentUpdate(s.procs, i, t.procs[i]);
    Balance(PutEntries(t.log), Unsent(t.procs[i]), PutEntries(s.log), Unsent(s.procs[i]),
            AllUnsent(t.procs), AllUnsent(s.procs));
    assert forall p :: p in t.procs ==> p == t.procs[i] || p in s.procs;
  }

  /** In every state of every run: messages inserted + messages still to insert = messages handed over in the calls. */
  lemma {:induction false} RunDelivers(r: seq<State>, k: nat)
    requires IsRun(r) && AllDedicated(r[0]) && k < |r|
    ensures PutEntries(r[k].log) + AllUnsent(r[k].procs) == AllUnsent(r[0].procs)
    ensures AllTerminating(r[0]) ==> AllTerminating(r[k])
  {
    hide Inv, Step, AllDedicated, AllTerminating, AllUnsent;
    if k > 0 {
      RunDelivers(r, k - 1);
      RunInv(r, k - 1);
      RunSurplus(r, k - 1);
      StepDelivers(r[k - 1], r[k]);
    }
  }

  lemma {:induction false} NothingUnsent(ps: seq<Proc>)
    requires forall p :: p in ps ==> Finished(p)
    ensures AllUnsent(ps) == multiset{}
  {
    if ps != [] {
      NothingUnsent(ps[1..]);
      assert ps[0] in ps && CallEntries(ps[0].todo) == multiset{} && Carried(ps[0].pc) == multiset{};
    }
  }

  /**
   * Delivery: when blocking senders and receivers stop and the sends are at least as many as the receives and at
   * most 32 more, the messages received and the messages left are together exactly those of the senders' calls;
   * with as many sends as receives every message has been received once and nothing is left.
   */
  lemma EverythingDelivered(r: seq<State>)
    requires IsRun(r) && AllDedicated(r[0]) && AllTerminating(r[0]) && Stuck(r[|r| - 1])
    requires var sends, receives := Sum(r[0].procs, PendingSends), Sum(r[0].procs, PendingReceives);
             receives <= sends <= receives + 32
    ensures var s := r[|r| - 1];
            && WellFormed(s.seg)
            && GotEntries(s.log) + multiset(Contents(s.seg)) == AllUnsent(r[0].procs)
            && (Sum(r[0].procs, PendingSends) == Sum(r[0].procs, PendingReceives) ==>
                  Contents(s.seg) == [] && GotEntries(s.log) == AllUnsent(r[0].procs))
  {
    hide Step, AllDedicated, Terminating, AllUnsent, Stuck, WellFormed, Contents, Sum, PendingSends, PendingReceives;
    hide GotEntries, PutEntries, AllTerminated, Finished;
    var s := r[|r| - 1];
    RunInv(r, |r| - 1);
    RunDelivers(r, |r| - 1);
    CompletionExactly(r);
    NothingUnsent(s.procs);
    MessagesConserved(s);
  }
}
