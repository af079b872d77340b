/**
 * Any number of processes call mq_send, mq_receive, mq_notify and mq_setattr on one shared queue, in any
 * interleaving. A step is one semaphore operation, one update of the waiting counter, one critical section or one
 * unlocked call. A critical section that is entered where its code is not defined (no free slot or cell, or an
 * empty list to receive from) raises the mark `fault`.
 */
module QueueSystem {
  import opened Sums
  import opened CStrings
  import opened PriorityQueue
  import opened QueueSegment
  import opened QueueNotice

  datatype Call =
    | SendCall(open: bool, m: Message)
    | ReceiveCall(open: bool, len: nat, hasPrio: bool)
    | NotifyCall(open: bool, event: Option<SigEvent>)
    | SetAttrCall(open: bool, nonBlocking: bool)

  datatype PC =
    | Idle
    | SendTry(m: Message) | SendWait(m: Message) | SendLock(m: Message) | SendIn(m: Message)
    | SendUnlock | SendPost
    | RecvTry | RecvDecLock | RecvDec | RecvDecUnlock | RecvWait
    | RecvIncLock(blocking: bool) | RecvInc(blocking: bool) | RecvIncUnlock
    | RecvLock | RecvIn | RecvUnlock | RecvPost

  /** A process: where it is, the calls it has still to make, those it has begun, the values they have returned. */
  datatype Proc = Proc(pc: PC, todo: seq<Call>, made: seq<Call>, rets: seq<int>)

  /** What happened to the queue: process `who` put a message in, or was handed an entry. */
  datatype Action = Put(who: nat, m: Message) | Got(who: nat, e: Entry<string>)

  /** A call that changed the notification record or the mode: process `who` registered, unsubscribed, set the mode. */
  datatype Note = Registered(who: nat, event: SigEvent) | Unsubscribed(who: nat) | ModeSet(who: nat, nonBlocking: bool)

  datatype State = State(
    seg: Segment, notice: Notice, flags: int,
    write: int, read: int, access: int, update: int,
    procs: seq<Proc>,
    log: seq<Action>, notes: seq<Note>, kills: seq<Kill>, registrations: nat, tries: nat, fault: bool)

  /** The values that mq_open establishes; the memory of the slots is arbitrary. */
  ghost predicate Init(s: State) {
    && Opened(s.seg) && s.notice == Notice(0, NO_SIGNAL, 0)
    && s.write == MAX_MSG && s.read == 0 && s.access == 1 && s.update == 1
    && s.log == [] && s.notes == [] && s.kills == [] && s.registrations == 0 && s.tries == 0 && !s.fault
    && forall p :: p in s.procs ==> p.pc == Idle && p.made == [] && p.rets == []
  }

  predicate ValidSend(open: bool, m: Message) {
    open && m.len <= MAX_SIZ_MSG && 0 <= AsSigned(m.prio) <= 32
  }

  predicate ValidReceive(open: bool, len: nat, hasPrio: bool) {
    open && 32 <= len && hasPrio
  }

  /** A process can take a step unless it has finished or is blocked on a semaphore. */
  predicate Enabled(s: State, i: nat) {
    i < |s.procs| &&
    match s.procs[i].pc
    case Idle => s.procs[i].todo != []
    case SendWait(_) => s.write > 0
    case SendLock(_) => s.access > 0
    case RecvWait => s.read > 0
    case RecvDecLock => s.update > 0
    case RecvIncLock(_) => s.update > 0
    case RecvLock => s.access > 0
    case _ => true
  }

  function GoTo(s: State, i: nat, pc: PC): State
    requires i < |s.procs|
  {
    s.(procs := s.procs[i := s.procs[i].(pc := pc)])
  }

  function Return(s: State, i: nat, r: int): State
    requires i < |s.procs|
  {
    s.(procs := s.procs[i := s.procs[i].(pc := Idle, rets := s.procs[i].rets + [r])])
  }

  /** What a call of mq_notify leaves in the history. */
  function Noted(i: nat, event: Option<SigEvent>, outcome: Outcome): seq<Note> {
    if outcome != Success then [] else [if event.Some? then Registered(i, event.value) else Unsubscribed(i)]
  }

  /** A process takes its next call up to its first semaphore operation. Process i has process id i + 1. */
  function Begin(s: State, i: nat, call: Call): State
    requires i < |s.procs|
  {
    match call
    case SendCall(open, m) =>
      if !ValidSend(open, m) then Return(s, i, -1)
      else GoTo(s, i, if s.flags == 1 then SendTry(m) else SendWait(m))
    case ReceiveCall(open, len, hasPrio) =>
      if !ValidReceive(open, len, hasPrio) then Return(s, i, -1)
      else GoTo(s, i, if s.flags == 1 then RecvTry else RecvDecLock)
    case SetAttrCall(open, nonBlocking) =>
      if !open then Return(s, i, -1)
      else Return(s.(flags := if nonBlocking then 1 else 0, notes := s.notes + [ModeSet(i, nonBlocking)]), i, 0)
    case NotifyCall(open, event) =>
      if !open then Return(s, i, -1)
      else
        var (n, outcome) := Notified(s.notice, i + 1, event);
        var t := s.(notice := n, notes := s.notes + Noted(i, event, outcome), registrations := s.registrations +
          if event.Some? && event.value.kind == Signalled then 1 else 0);
        match outcome
        case Success => Return(t, i, 0)
        case Failure => Return(t, i, -1)
        case NullDereference => t.(procs := t.procs[i := t.procs[i].(todo := [])])
  }

  ghost function SendSection(s: State, i: nat, m: Message): State
    requires i < |s.procs|
  {
    if !Sendable(s.seg, m) then GoTo(s.(fault := true), i, SendUnlock)
    else
      var wasEmpty := Contents(s.seg) == [];
      GoTo(s.(seg := Sent(s.seg, m),
              notice := AfterInsert(s.notice, wasEmpty),
              kills := s.kills + if Fires(s.notice, wasEmpty) then [Kill(s.notice.subscriber, s.notice.sig)] else [],
              log := s.log + [Put(i, m)]),
           i, SendUnlock)
  }

  ghost function ReceiveSection(s: State, i: nat): State
    requires i < |s.procs|
  {
    if !(WellFormed(s.seg) && Order(s.seg) != []) then GoTo(s.(fault := true), i, RecvUnlock)
    else
      GoTo(s.(seg := Received(s.seg), log := s.log + [Got(i, Contents(s.seg)[0])]), i, RecvUnlock)
  }

  predicate Sending(pc: PC) {
    pc.SendTry? || pc.SendWait? || pc.SendLock? || pc.SendIn? || pc.SendUnlock? || pc.SendPost?
  }

  /** A receive up to its read token. */
  predicate Asking(pc: PC) {
    pc.RecvTry? || pc.RecvDecLock? || pc.RecvDec? || pc.RecvDecUnlock? || pc.RecvWait?
  }

  /** A receive with its read token, outside its critical section. */
  predicate Taking(pc: PC) {
    pc.RecvIncLock? || pc.RecvInc? || pc.RecvIncUnlock? || pc.RecvLock? || pc.RecvUnlock? || pc.RecvPost?
  }

  ghost function SendDo(s: State, i: nat): State
    requires Enabled(s, i) && Sending(s.procs[i].pc)
  {
    match s.procs[i].pc
    case SendTry(m) => if s.write > 0 then GoTo(s.(write := s.write - 1), i, SendLock(m)) else Return(s, i, -1)
    case SendWait(m) => GoTo(s.(write := s.write - 1), i, SendLock(m))
    case SendLock(m) => GoTo(s.(access := s.access - 1), i, SendIn(m))
    case SendIn(m) => SendSection(s, i, m)
    case SendUnlock => GoTo(s.(access := s.access + 1), i, SendPost)
    case SendPost => Return(s.(read := s.read + 1), i, 0)
  }

  ghost function ReceiveDo(s: State, i: nat): State
    requires Enabled(s, i) && !Sending(s.procs[i].pc) && !s.procs[i].pc.Idle?
  {
    match s.procs[i].pc
    case RecvTry => if s.read > 0 then GoTo(s.(read := s.read - 1), i, RecvIncLock(false)) else Return(s, i, -1)
    case RecvDecLock => GoTo(s.(update := s.update - 1), i, RecvDec)
    case RecvDec => GoTo(s.(notice := s.notice.(readers := s.notice.readers - 1)), i, RecvDecUnlock)
    case RecvDecUnlock => GoTo(s.(update := s.update + 1), i, RecvWait)
    case RecvWait => GoTo(s.(read := s.read - 1), i, RecvIncLock(true))
    case RecvIncLock(b) => GoTo(s.(update := s.update - 1), i, RecvInc(b))
    case RecvInc(b) =>
      GoTo(s.(notice := s.notice.(readers := s.notice.readers + 1), tries := s.tries + if b then 0 else 1),
           i, RecvIncUnlock)
    case RecvIncUnlock => GoTo(s.(update := s.update + 1), i, RecvLock)
    case RecvLock => GoTo(s.(access := s.access - 1), i, RecvIn)
    case RecvIn => ReceiveSection(s, i)
    case RecvUnlock => GoTo(s.(access := s.access + 1), i, RecvPost)
    case RecvPost => Return(s.(write := s.write + 1), i, 0)
  }

  /** The next step of process i. */
  ghost function Do(s: State, i: nat): State
    requires Enabled(s, i)
  {
    var p := s.procs[i];
    if p.pc.Idle? then Begin(s.(procs := s.procs[i := p.(todo := p.todo[1..], made := p.made + [p.todo[0]])]), i, p.todo[0])
    else if Sending(p.pc) then SendDo(s, i)
    else ReceiveDo(s, i)
  }

  ghost predicate Step(s: State, t: State) {
    exists i: nat :: Enabled(s, i) && t == Do(s, i)
  }

  /** A run: a sequence of states that starts after mq_open and goes on by steps of any processes. */
  ghost predicate IsRun(r: seq<State>) {
    r != [] && Init(r[0]) && forall k :: 0 <= k < |r| - 1 ==> Step(r[k], r[k + 1])
  }

  // ----- where processes are -----

  function Holding(p: Proc): int { if p.pc.SendLock? || p.pc.SendIn? then 1 else 0 }

  function Inserted(p: Proc): int { if p.pc.SendUnlock? || p.pc.SendPost? then 1 else 0 }

  function PastRead(p: Proc): int {
    if p.pc.RecvIncLock? || p.pc.RecvInc? || p.pc.RecvIncUnlock? || p.pc.RecvLock? || p.pc.RecvIn? then 1 else 0
  }

  function Removed(p: Proc): int { if p.pc.RecvUnlock? || p.pc.RecvPost? then 1 else 0 }

  /** Holders of mutex_access. */
  function Inside(p: Proc): int {
    if p.pc.SendIn? || p.pc.SendUnlock? || p.pc.RecvIn? || p.pc.RecvUnlock? then 1 else 0
  }

  /** Holders of mutex_update_nb. */
  function Updating(p: Proc): int {
    if p.pc.RecvDec? || p.pc.RecvDecUnlock? || p.pc.RecvInc? || p.pc.RecvIncUnlock? then 1 else 0
  }

  /** Blocking receives between their decrement and their increment of nb_blocked_readers. */
  function Waiting(p: Proc): int {
    if p.pc.RecvDecUnlock? || p.pc.RecvWait? || p.pc == RecvIncLock(true) || p.pc == RecvInc(true) then 1 else 0
  }

  ghost predicate Locks(s: State) {
    && s.access >= 0 && s.update >= 0
    && s.access + Sum(s.procs, Inside) == 1
    && s.update + Sum(s.procs, Updating) == 1
  }

  /** Token conservation; n is the length of the list. */
  ghost predicate Tokens(s: State, n: nat) {
    && s.write >= 0 && s.read >= 0
    && s.write + Sum(s.procs, Holding) + n + Sum(s.procs, Removed) == MAX_MSG
    && n == s.read + Sum(s.procs, Inserted) + Sum(s.procs, PastRead)
  }

  function InHand(pc: PC): Option<Message> {
    match pc
    case SendTry(m) => Some(m)
    case SendWait(m) => Some(m)
    case SendLock(m) => Some(m)
    case SendIn(m) => Some(m)
    case _ => None
  }

  /** Only valid messages get past the argument checks. */
  ghost predicate Checked(s: State) {
    forall p :: p in s.procs ==> InHand(p.pc).Some? ==> ValidSend(true, InHand(p.pc).value)
  }

  /** One-shot notification and the exact law of nb_blocked_readers. */
  ghost predicate Notices(s: State) {
    && Consistent(s.notice)
    && |s.kills| + (if s.notice.sig != NO_SIGNAL then 1 else 0) <= s.registrations
    && s.notice.readers == s.tries - Sum(s.procs, Waiting)
  }

  /** One operation of the atomic bounded priority queue. */
  ghost predicate Accepts(q: seq<Entry<string>>, a: Action, r: seq<Entry<string>>) {
    match a
    case Put(_, m) => |q| < MAX_MSG && exists text :: Delivers(text, m.s, m.len) && r == Insert(q, Entry(text, m.prio))
    case Got(_, e) => q != [] && e == q[0] && r == q[1..]
  }

  /** qs are the successive values of the atomic queue under the operations of the log. */
  ghost predicate Replays(log: seq<Action>, qs: seq<seq<Entry<string>>>, q: seq<Entry<string>>) {
    && |qs| == |log| + 1 && qs[0] == [] && qs[|log|] == q
    && forall k :: 0 <= k < |log| ==> Accepts(qs[k], log[k], qs[k + 1])
  }

  /** The operations, in this order, lead the atomic queue from empty to q. */
  ghost predicate Legal(log: seq<Action>, q: seq<Entry<string>>) {
    exists qs :: Replays(log, qs, q)
  }

  ghost predicate Inv(s: State) {
    && !s.fault && WellFormed(s.seg)
    && Locks(s) && Tokens(s, |Order(s.seg)|) && Checked(s) && Notices(s)
    && Legal(s.log, Contents(s.seg))
  }

  // ----- one step -----

  /** The sums after process i has become p. */
  lemma SumsAfter(s: seq<Proc>, i: nat, p: Proc)
    requires i < |s|
    ensures Sum(s[i := p], Inside) == Sum(s, Inside) - Inside(s[i]) + Inside(p)
    ensures Sum(s[i := p], Updating) == Sum(s, Updating) - Updating(s[i]) + Updating(p)
    ensures Sum(s[i := p], Holding) == Sum(s, Holding) - Holding(s[i]) + Holding(p)
    ensures Sum(s[i := p], Inserted) == Sum(s, Inserted) - Inserted(s[i]) + Inserted(p)
    ensures Sum(s[i := p], PastRead) == Sum(s, PastRead) - PastRead(s[i]) + PastRead(p)
    ensures Sum(s[i := p], Removed) == Sum(s, Removed) - Removed(s[i]) + Removed(p)
    ensures Sum(s[i := p], Waiting) == Sum(s, Waiting) - Waiting(s[i]) + Waiting(p)
  {
    SumUpdate(s, i, p, Inside);
    SumUpdate(s, i, p, Updating);
    SumUpdate(s, i, p, Holding);
    SumUpdate(s, i, p, Inserted);
    SumUpdate(s, i, p, PastRead);
    SumUpdate(s, i, p, Removed);
    SumUpdate(s, i, p, Waiting);
  }

  /** No sum is negative, and a process counted in a sum keeps it positive. */
  lemma SumsBelow(s: seq<Proc>, i: nat)
    requires i < |s|
    ensures Sum(s, Holding) >= Holding(s[i]) && Sum(s, Inserted) >= Inserted(s[i])
    ensures Sum(s, PastRead) >= PastRead(s[i]) && Sum(s, Removed) >= Removed(s[i])
    ensures Sum(s, Inside) >= Inside(s[i]) && Sum(s, Updating) >= Updating(s[i])
  {
    SumAtLeast(s, i, Holding);
    SumAtLeast(s, i, Inserted);
    SumAtLeast(s, i, PastRead);
    SumAtLeast(s, i, Removed);
    SumAtLeast(s, i, Inside);
    SumAtLeast(s, i, Updating);
  }

  /** A sender inside has a free slot and a free cell to find; a receiver inside finds a message. */
  lemma SectionsDefined(s: State, i: nat)
    requires Inv(s) && i < |s.procs|
    ensures s.procs[i].pc.SendIn? ==> Sendable(s.seg, s.procs[i].pc.m)
    ensures s.procs[i].pc.RecvIn? ==> Order(s.seg) != []
  {
    SumsBelow(s.procs, i);
    assert s.procs[i] in s.procs;
  }

  lemma LegalExtends(log: seq<Action>, q: seq<Entry<string>>, a: Action, r: seq<Entry<string>>)
    requires Legal(log, q) && Accepts(q, a, r)
    ensures Legal(log + [a], r)
  {
    var qs :| Replays(log, qs, q);
    assert Replays(log + [a], qs + [r], r);
  }

  /** The shared part of the state other than the processes and the four semaphores. */
  ghost predicate SameQueue(s: State, t: State) {
    s.seg == t.seg && s.log == t.log && s.fault == t.fault
  }

  /** A send's critical section takes effect as one insertion into the atomic queue. */
  lemma SendStep(s: State, i: nat)
    requires Inv(s) && Enabled(s, i) && s.procs[i].pc.SendIn?
    ensures var t, m := Do(s, i), s.procs[i].pc.m;
            && !t.fault && WellFormed(t.seg) && |Order(t.seg)| == |Order(s.seg)| + 1
            && t.log == s.log + [Put(i, m)] && Accepts(Contents(s.seg), Put(i, m), Contents(t.seg))
  {
    SectionsDefined(s, i);
    var m := s.procs[i].pc.m;
    SendRefines(s.seg, m);
    assert |Contents(s.seg)| == |Order(s.seg)| && |Contents(Sent(s.seg, m))| == |Order(Sent(s.seg, m))|;
  }

  /** A receive's critical section takes effect as one removal of the head of the atomic queue. */
  lemma ReceiveStep(s: State, i: nat)
    requires Inv(s) && Enabled(s, i) && s.procs[i].pc.RecvIn?
    ensures var t := Do(s, i);
            && !t.fault && WellFormed(t.seg) && |Order(t.seg)| == |Order(s.seg)| - 1
            && |t.log| == |s.log| + 1 && t.log[..|s.log|] == s.log
            && Accepts(Contents(s.seg), t.log[|s.log|], Contents(t.seg))
  {
    SectionsDefined(s, i);
    ReceiveRefines(s.seg);
    assert |Contents(s.seg)| == |Order(s.seg)| && |Contents(Received(s.seg))| == |Order(Received(s.seg))|;
  }

  /** Every step is an operation of the atomic queue, recorded in the log, or leaves queue and log alone. */
  lemma StepRefines(s: State, i: nat)
    requires Inv(s) && Enabled(s, i)
    ensures var t := Do(s, i);
            && !t.fault && WellFormed(t.seg)
            && (if s.procs[i].pc.SendIn? || s.procs[i].pc.RecvIn?
                then |t.log| == |s.log| + 1 && t.log[..|s.log|] == s.log
                     && Accepts(Contents(s.seg), t.log[|s.log|], Contents(t.seg))
                else SameQueue(s, t))
            && Legal(t.log, Contents(t.seg))
  {
    hide Do, Sending, WellFormed, Order, Contents, Accepts, Locks, Tokens, Checked, Notices;
    var t := Do(s, i);
    if s.procs[i].pc.SendIn? {
      SendStep(s, i);
      LegalExtends(s.log, Contents(s.seg), t.log[|s.log|], Contents(t.seg));
    } else if s.procs[i].pc.RecvIn? {
      ReceiveStep(s, i);
      LegalExtends(s.log, Contents(s.seg), t.log[|s.log|], Contents(t.seg));
      assert t.log == s.log + [t.log[|s.log|]];
    } else {
      OtherStep(s, i);
    }
  }

  /** Only the critical sections touch the segment and the log. */
  lemma OtherStep(s: State, i: nat)
    requires Enabled(s, i) && !s.procs[i].pc.SendIn? && !s.procs[i].pc.RecvIn?
    ensures SameQueue(s, Do(s, i))
  {
    if s.procs[i].pc.Idle? {
      BeginLocal(s, i);
    } else {
      hide SendSection, ReceiveSection;
    }
  }

  /** Process p has taken up its next call and is at pc. */
  function TakenTo(p: Proc, pc: PC): Proc
    requires p.todo != []
  {
    p.(pc := pc, todo := p.todo[1..], made := p.made + [p.todo[0]])
  }

  /** Process p has taken up its next call, which has returned r. */
  function Answered(p: Proc, r: int): Proc
    requires p.todo != []
  {
    TakenTo(p, Idle).(rets := p.rets + [r])
  }

  /** mq_send refuses a closed descriptor, a length over 32 and a priority over 32, at once, and nothing else. */
  lemma SendCallExactly(s: State, i: nat)
    requires Enabled(s, i) && s.procs[i].pc.Idle? && s.procs[i].todo[0].SendCall?
    ensures var p := s.procs[i]; var c := p.todo[0];
            Do(s, i) == s.(procs := s.procs[i :=
              if !c.open || c.m.len > 32 || c.m.prio > 32 then Answered(p, -1)
              else TakenTo(p, if s.flags == 1 then SendTry(c.m) else SendWait(c.m))])
  {
  }

  /** mq_receive refuses a closed descriptor, a buffer under 32 bytes and a null priority, at once, and nothing else. */
  lemma ReceiveCallExactly(s: State, i: nat)
    requires Enabled(s, i) && s.procs[i].pc.Idle? && s.procs[i].todo[0].ReceiveCall?
    ensures var p := s.procs[i]; var c := p.todo[0];
            Do(s, i) == s.(procs := s.procs[i :=
              if !c.open || c.len < 32 || !c.hasPrio then Answered(p, -1)
              else TakenTo(p, if s.flags == 1 then RecvTry else RecvDecLock)])
  {
  }

  lemma SetAttrCallExactly(s: State, i: nat)
    requires Enabled(s, i) && s.procs[i].pc.Idle? && s.procs[i].todo[0].SetAttrCall?
    ensures var p := s.procs[i]; var c := p.todo[0];
            Do(s, i) ==
            if !c.open then s.(procs := s.procs[i := Answered(p, -1)])
            else s.(procs := s.procs[i := Answered(p, 0)], flags := if c.nonBlocking then 1 else 0,
                    notes := s.notes + [ModeSet(i, c.nonBlocking)])
  {
  }

  /**
   * mq_notify: the caller registers under its own process id, and a silent registration leaves the signal on record;
   * other kinds of event are refused; a null event unsubscribes whoever is subscribed, and without a subscriber it
   * ends the process.
   */
  lemma NotifyCallExactly(s: State, i: nat)
    requires Enabled(s, i) && s.procs[i].pc.Idle? && s.procs[i].todo[0].NotifyCall?
    ensures var p, n := s.procs[i], s.notice; var c := p.todo[0];
            Do(s, i) ==
            if !c.open || (c.event.Some? && c.event.value.kind == OtherKind) then
              s.(procs := s.procs[i := Answered(p, -1)])
            else if c.event == None && n.subscriber == 0 then
              s.(procs := s.procs[i := TakenTo(p, Idle).(todo := [])])
            else if c.event == None then
              s.(procs := s.procs[i := Answered(p, 0)], notice := n.(subscriber := 0, sig := -1),
                 notes := s.notes + [Unsubscribed(i)])
            else if c.event.value.kind == Silent then
              s.(procs := s.procs[i := Answered(p, 0)], notice := n.(subscriber := i + 1),
                 notes := s.notes + [Registered(i, c.event.value)])
            else
              s.(procs := s.procs[i := Answered(p, 0)], notice := n.(subscriber := i + 1, sig := c.event.value.signo),
                 notes := s.notes + [Registered(i, c.event.value)], registrations := s.registrations + 1)
  {
  }

  /** Starting a call touches no semaphore, no slot and no cell, and counts the process nowhere. */
  lemma BeginLocal(s: State, i: nat)
    requires i < |s.procs| && s.procs[i].pc == Idle && s.procs[i].todo != []
    ensures var t := Do(s, i);
            && SameQueue(s, t) && t.tries == s.tries && t.kills == s.kills && t.notice.readers == s.notice.readers
            && t.write == s.write && t.read == s.read && t.access == s.access && t.update == s.update
            && |t.procs| == |s.procs| && t.procs == s.procs[i := t.procs[i]]
            && (var pc := t.procs[i].pc; pc.Idle? || pc.SendTry? || pc.SendWait? || pc.RecvTry? || pc.RecvDecLock?)
            && (InHand(t.procs[i].pc).Some? ==> ValidSend(true, InHand(t.procs[i].pc).value))
  {
    hide Do;
    match s.procs[i].todo[0] {
      case SendCall(_, _) => SendCallExactly(s, i);
      case ReceiveCall(_, _, _) => ReceiveCallExactly(s, i);
      case NotifyCall(_, _) => NotifyCallExactly(s, i);
      case SetAttrCall(_, _) => SetAttrCallExactly(s, i);
    }
  }

  lemma BeginNotices(s: State, i: nat)
    requires i < |s.procs| && s.procs[i].pc == Idle && s.procs[i].todo != [] && Consistent(s.notice)
    ensures var t := Do(s, i);
            && Consistent(t.notice)
            && t.registrations - (if t.notice.sig != NO_SIGNAL then 1 else 0)
               >= s.registrations - (if s.notice.sig != NO_SIGNAL then 1 else 0)
  {
  }

  /** What process i gives up and what it takes balance with the two mutexes. */
  ghost predicate LockBalance(s: State, t: State, i: nat)
    requires i < |s.procs| == |t.procs|
  {
    && t.procs == s.procs[i := t.procs[i]]
    && t.access + Inside(t.procs[i]) == s.access + Inside(s.procs[i])
    && t.update + Updating(t.procs[i]) == s.update + Updating(s.procs[i])
    && t.access >= 0 && t.update >= 0
  }

  /** What process i gives up and what it takes balance with the tokens and the length of the list. */
  ghost predicate TokenBalance(s: State, t: State, i: nat, n: nat, m: nat)
    requires i < |s.procs| == |t.procs|
  {
    var p, q := s.procs[i], t.procs[i];
    && t.write + Holding(q) + m + Removed(q) == s.write + Holding(p) + n + Removed(p)
    && m - t.read - Inserted(q) - PastRead(q) == n - s.read - Inserted(p) - PastRead(p)
    && t.write >= 0 && t.read >= 0
  }

  ghost predicate Counted(s: State) {
    s.access >= 0 && s.update >= 0 && s.write >= 0 && s.read >= 0
  }

  lemma BeginBalance(s: State, i: nat, n: nat)
    requires Enabled(s, i) && s.procs[i].pc.Idle? && Counted(s)
    ensures var t := Do(s, i);
            t.seg == s.seg && |t.procs| == |s.procs| && LockBalance(s, t, i) && TokenBalance(s, t, i, n, n)
  {
    hide Do, Begin;
    BeginLocal(s, i);
  }

  lemma SendLocks(s: State, i: nat)
    requires Enabled(s, i) && Sending(s.procs[i].pc) && !s.procs[i].pc.SendIn? && Counted(s)
    ensures Do(s, i).seg == s.seg && |Do(s, i).procs| == |s.procs| && LockBalance(s, Do(s, i), i)
  {
    hide SendSection;
  }

  lemma SendTokens(s: State, i: nat, n: nat)
    requires Enabled(s, i) && Sending(s.procs[i].pc) && !s.procs[i].pc.SendIn? && Counted(s)
    ensures |Do(s, i).procs| == |s.procs| && TokenBalance(s, Do(s, i), i, n, n)
  {
    hide SendSection;
  }

  lemma ReceiveLocks(s: State, i: nat)
    requires Enabled(s, i) && !Sending(s.procs[i].pc) && !s.procs[i].pc.RecvIn? && !s.procs[i].pc.Idle? && Counted(s)
    ensures Do(s, i).seg == s.seg && |Do(s, i).procs| == |s.procs| && LockBalance(s, Do(s, i), i)
  {
    hide Do, LockBalance;
    if Asking(s.procs[i].pc) {
      AskingLocks(s, i);
    } else {
      TakingLocks(s, i);
    }
  }

  lemma AskingLocks(s: State, i: nat)
    requires Enabled(s, i) && Asking(s.procs[i].pc) && Counted(s)
    ensures Do(s, i).seg == s.seg && |Do(s, i).procs| == |s.procs| && LockBalance(s, Do(s, i), i)
  {
  }

  lemma TakingLocks(s: State, i: nat)
    requires Enabled(s, i) && Taking(s.procs[i].pc) && Counted(s)
    ensures Do(s, i).seg == s.seg && |Do(s, i).procs| == |s.procs| && LockBalance(s, Do(s, i), i)
  {
  }

  lemma ReceiveTokens(s: State, i: nat, n: nat)
    requires Enabled(s, i) && !Sending(s.procs[i].pc) && !s.procs[i].pc.RecvIn? && !s.procs[i].pc.Idle? && Counted(s)
    ensures |Do(s, i).procs| == |s.procs| && TokenBalance(s, Do(s, i), i, n, n)
  {
    hide ReceiveSection;
  }

  /** A critical section moves its own process on and touches no semaphore. */
  lemma SectionFrame(s: State, i: nat)
    requires Enabled(s, i) && (s.procs[i].pc.SendIn? || s.procs[i].pc.RecvIn?)
    ensures var t := Do(s, i);
            && t.procs == s.procs[i := s.procs[i].(pc := if s.procs[i].pc.SendIn? then SendUnlock else RecvUnlock)]
            && t.access == s.access && t.update == s.update && t.write == s.write && t.read == s.read
  {
    hide Sent, Received, Contents, WellFormed, Order, AfterInsert, Fires, Sendable;
  }

  lemma SectionBalance(s: State, i: nat)
    requires Inv(s) && Enabled(s, i) && (s.procs[i].pc.SendIn? || s.procs[i].pc.RecvIn?)
    ensures var t := Do(s, i);
            && |t.procs| == |s.procs| && WellFormed(t.seg)
            && LockBalance(s, t, i) && TokenBalance(s, t, i, |Order(s.seg)|, |Order(t.seg)|)
  {
    hide Do, Sending, WellFormed, Order, Contents, Legal, Sum, Accepts;
    SectionFrame(s, i);
    if s.procs[i].pc.SendIn? {
      SendStep(s, i);
    } else {
      ReceiveStep(s, i);
    }
  }

  lemma LocalBalance(s: State, i: nat)
    requires Inv(s) && Enabled(s, i)
    ensures var t := Do(s, i);
            && |t.procs| == |s.procs| && WellFormed(t.seg)
            && LockBalance(s, t, i) && TokenBalance(s, t, i, |Order(s.seg)|, |Order(t.seg)|)
  {
    hide Do, Sending, WellFormed, Order, Contents, Legal, Sum, LockBalance, TokenBalance;
    if s.procs[i].pc.SendIn? || s.procs[i].pc.RecvIn? {
      SectionBalance(s, i);
    } else if s.procs[i].pc.Idle? {
      BeginBalance(s, i, |Order(s.seg)|);
    } else if Sending(s.procs[i].pc) {
      SendLocks(s, i);
      SendTokens(s, i, |Order(s.seg)|);
    } else {
      ReceiveLocks(s, i);
      ReceiveTokens(s, i, |Order(s.seg)|);
    }
  }

  /** A step changes no process but its own. */
  lemma LocalFrame(s: State, i: nat)
    requires Inv(s) && Enabled(s, i)
    ensures |Do(s, i).procs| == |s.procs| && Do(s, i).procs == s.procs[i := Do(s, i).procs[i]]
  {
    hide Do, TokenBalance;
    LocalBalance(s, i);
  }

  /** Every step keeps the counts of tokens and locks. */
  lemma StepCounts(s: State, i: nat)
    requires Inv(s) && Enabled(s, i)
    ensures Locks(Do(s, i)) && WellFormed(Do(s, i).seg) && Tokens(Do(s, i), |Order(Do(s, i).seg)|)
  {
    hide Do, WellFormed, Order, Contents, Legal, Inside, Updating, Holding, Removed, Inserted, PastRead;
    LocalBalance(s, i);
    SumsAfter(s.procs, i, Do(s, i).procs[i]);
  }

  lemma SendChecked(s: State, i: nat)
    requires Enabled(s, i) && Sending(s.procs[i].pc) && !s.procs[i].pc.SendIn?
    ensures var t := Do(s, i);
            && |t.procs| == |s.procs| && t.procs == s.procs[i := t.procs[i]]
            && (InHand(t.procs[i].pc) == None || InHand(t.procs[i].pc) == InHand(s.procs[i].pc))
  {
    hide SendSection;
  }

  lemma ReceiveChecked(s: State, i: nat)
    requires Enabled(s, i) && !Sending(s.procs[i].pc) && !s.procs[i].pc.RecvIn? && !s.procs[i].pc.Idle?
    ensures var t := Do(s, i);
            |t.procs| == |s.procs| && t.procs == s.procs[i := t.procs[i]] && InHand(t.procs[i].pc) == None
  {
    hide ReceiveSection;
  }

  lemma LocalChecked(s: State, i: nat)
    requires Enabled(s, i)
    requires InHand(s.procs[i].pc).Some? ==> ValidSend(true, InHand(s.procs[i].pc).value)
    ensures var t := Do(s, i);
            && |t.procs| == |s.procs| && t.procs == s.procs[i := t.procs[i]]
            && (InHand(t.procs[i].pc).Some? ==> ValidSend(true, InHand(t.procs[i].pc).value))
  {
    hide Do;
    if s.procs[i].pc.Idle? {
      BeginLocal(s, i);
    } else if s.procs[i].pc.SendIn? || s.procs[i].pc.RecvIn? {
      SectionFrame(s, i);
    } else if Sending(s.procs[i].pc) {
      SendChecked(s, i);
    } else {
      ReceiveChecked(s, i);
    }
  }

  lemma StepChecked(s: State, i: nat)
    requires Checked(s) && Enabled(s, i)
    ensures Checked(Do(s, i))
  {
    hide Do, ValidSend, InHand;
    assert s.procs[i] in s.procs;
    LocalChecked(s, i);
    var t := Do(s, i);
    forall p | p in t.procs ensures InHand(p.pc).Some? ==> ValidSend(true, InHand(p.pc).value) {
      assert p == t.procs[i] || p in s.procs;
    }
  }

  /** The notification law for the one process that moves. */
  ghost predicate NoticeBalance(s: State, t: State, i: nat)
    requires i < |s.procs| == |t.procs|
  {
    && t.procs == s.procs[i := t.procs[i]]
    && Consistent(t.notice)
    && t.registrations - |t.kills| - (if t.notice.sig != NO_SIGNAL then 1 else 0)
       >= s.registrations - |s.kills| - (if s.notice.sig != NO_SIGNAL then 1 else 0)
    && t.notice.readers - t.tries + Waiting(t.procs[i]) == s.notice.readers - s.tries + Waiting(s.procs[i])
  }

  lemma SendNotices(s: State, i: nat)
    requires Consistent(s.notice) && Enabled(s, i) && Sending(s.procs[i].pc)
    ensures |Do(s, i).procs| == |s.procs| && NoticeBalance(s, Do(s, i), i)
  {
    hide Sent, Sendable, WellFormed, Contents;
  }

  lemma ReceiveNotices(s: State, i: nat)
    requires Consistent(s.notice) && Enabled(s, i) && !Sending(s.procs[i].pc) && !s.procs[i].pc.Idle?
    ensures |Do(s, i).procs| == |s.procs| && NoticeBalance(s, Do(s, i), i)
  {
    hide Do, NoticeBalance;
    if Asking(s.procs[i].pc) {
      AskingNotices(s, i);
    } else if Taking(s.procs[i].pc) {
      TakingNotices(s, i);
    } else {
      RemovingNotices(s, i);
    }
  }

  lemma AskingNotices(s: State, i: nat)
    requires Consistent(s.notice) && Enabled(s, i) && Asking(s.procs[i].pc)
    ensures |Do(s, i).procs| == |s.procs| && NoticeBalance(s, Do(s, i), i)
  {
  }

  lemma TakingNotices(s: State, i: nat)
    requires Consistent(s.notice) && Enabled(s, i) && Taking(s.procs[i].pc)
    ensures |Do(s, i).procs| == |s.procs| && NoticeBalance(s, Do(s, i), i)
  {
  }

  lemma RemovingNotices(s: State, i: nat)
    requires Consistent(s.notice) && Enabled(s, i) && s.procs[i].pc.RecvIn?
    ensures |Do(s, i).procs| == |s.procs| && NoticeBalance(s, Do(s, i), i)
  {
    hide Received, WellFormed, Contents, Order;
  }

  lemma LocalNotices(s: State, i: nat)
    requires Consistent(s.notice) && Enabled(s, i)
    ensures |Do(s, i).procs| == |s.procs| && NoticeBalance(s, Do(s, i), i)
  {
    hide Do, Sending;
    if s.procs[i].pc.Idle? {
      BeginLocal(s, i);
      BeginNotices(s, i);
    } else if Sending(s.procs[i].pc) {
      SendNotices(s, i);
    } else {
      ReceiveNotices(s, i);
    }
  }

  /** Every step keeps the notification laws. */
  lemma StepNotices(s: State, i: nat)
    requires Notices(s) && Enabled(s, i)
    ensures Notices(Do(s, i))
  {
    hide Do, Waiting;
    LocalNotices(s, i);
    SumsAfter(s.procs, i, Do(s, i).procs[i]);
  }

  lemma StepKeepsInv(s: State, t: State)
    requires Inv(s) && Step(s, t)
    ensures Inv(t)
  {
    var i: nat :| Enabled(s, i) && t == Do(s, i);
    StepRefines(s, i);
    StepCounts(s, i);
    StepChecked(s, i);
    StepNotices(s, i);
  }

  lemma {:induction false} SumIdle(ps: seq<Proc>)
    requires forall p :: p in ps ==> p.pc == Idle
    ensures Sum(ps, Inside) == Sum(ps, Updating) == Sum(ps, Holding) == Sum(ps, Inserted) == 0
    ensures Sum(ps, PastRead) == Sum(ps, Removed) == Sum(ps, Waiting) == 0
  {
    if ps != [] {
      SumIdle(ps[1..]);
    }
  }

  lemma InitInv(s: State)
    requires Init(s)
    ensures Inv(s)
  {
    OpenedEmpty(s.seg);
    SumIdle(s.procs);
    assert |Order(s.seg)| == |Contents(s.seg)|;
    assert Replays(s.log, [[]], []);
  }

  /** The invariant holds in every state of every run. */
  lemma {:induction false} RunInv(r: seq<State>, k: nat)
    requires IsRun(r) && k < |r|
    ensures Inv(r[k])
  {
    if k == 0 {
      InitInv(r[0]);
    } else {
      RunInv(r, k - 1);
      StepKeepsInv(r[k - 1], r[k]);
    }
  }

  // ----- what the invariant says -----

  /** At most one process is in a critical section, and at most one updates the waiting counter. */
  lemma MutualExclusion(s: State, i: nat, j: nat)
    requires Inv(s) && i < j < |s.procs|
    ensures !(Inside(s.procs[i]) == 1 && Inside(s.procs[j]) == 1)
    ensures !(Updating(s.procs[i]) == 1 && Updating(s.procs[j]) == 1)
  {
    PairBelow(s.procs, i, j, Inside);
    PairBelow(s.procs, i, j, Updating);
  }

  lemma {:induction false} PairBelow(ps: seq<Proc>, i: nat, j: nat, w: Proc -> int)
    requires i < j < |ps| && forall p :: w(p) >= 0
    ensures Sum(ps, w) >= w(ps[i]) + w(ps[j])
  {
    if i == 0 {
      SumAtLeast(ps[1..], j - 1, w);
    } else {
      PairBelow(ps[1..], i - 1, j - 1, w);
    }
  }

  /** The messages put in, as the entries that terminated payloads become. */
  ghost function PutEntries(log: seq<Action>): multiset<Entry<string>> {
    if log == [] then multiset{}
    else
      var a := log[|log| - 1];
      PutEntries(log[..|log| - 1]) + if a.Put? then multiset{MessageEntry(a.m)} else multiset{}
  }

  ghost function GotEntries(log: seq<Action>): multiset<Entry<string>> {
    if log == [] then multiset{}
    else
      var a := log[|log| - 1];
      GotEntries(log[..|log| - 1]) + if a.Got? then multiset{a.e} else multiset{}
  }

  ghost predicate AllTerminated(log: seq<Action>) {
    forall a :: a in log && a.Put? ==> Terminated(a.m.s, a.m.len)
  }

  /** Message conservation: sent = received + queued, as multisets of (text, priority). */
  lemma MessagesConserved(s: State)
    requires Inv(s) && AllTerminated(s.log)
    ensures PutEntries(s.log) == GotEntries(s.log) + multiset(Contents(s.seg))
  {
    var qs :| Replays(s.log, qs, Contents(s.seg));
    ReplayConserves(s.log, qs);
  }

  lemma {:induction false} ReplayConserves(log: seq<Action>, qs: seq<seq<Entry<string>>>)
    requires |qs| == |log| + 1 && Replays(log, qs, qs[|log|]) && AllTerminated(log)
    ensures PutEntries(log) == GotEntries(log) + multiset(qs[|log|])
  {
    if log != [] {
      var n := |log| - 1;
      assert Replays(log[..n], qs[..n + 1], qs[n]);
      ReplayConserves(log[..n], qs[..n + 1]);
      assert log[n] in log;
      AcceptConserves(qs[n], log[n], qs[n + 1]);
    }
  }

  lemma AcceptConserves(q: seq<Entry<string>>, a: Action, r: seq<Entry<string>>)
    requires Accepts(q, a, r) && (a.Put? ==> Terminated(a.m.s, a.m.len))
    ensures a.Put? ==> multiset(r) == multiset(q) + multiset{MessageEntry(a.m)}
    ensures a.Got? ==> multiset(r) + multiset{a.e} == multiset(q)
  {
    match a
    case Put(_, m) =>
      SpliceEntries(q, Place(q, m.prio), MessageEntry(m));
    case Got(_, e) =>
      assert q == [q[0]] + q[1..];
  }

  /** The step that process i can take is the critical section of a send that meets the three-part test. */
  ghost predicate Signals(s: State, i: nat)
    requires Enabled(s, i) && WellFormed(s.seg)
  {
    s.procs[i].pc.SendIn? && Contents(s.seg) == [] && s.notice.sig != NO_SIGNAL && s.notice.readers >= 0
  }

  /**
   * A step sends a signal if and only if it is a send that found the queue empty, with a signal on record and
   * nb_blocked_readers not negative. The one signal goes to the subscriber, whose registration is gone afterwards.
   */
  lemma SignalStep(s: State, i: nat)
    requires Inv(s) && Enabled(s, i)
    ensures var t := Do(s, i);
            if Signals(s, i)
            then && s.notice.subscriber != 0 && t.kills == s.kills + [Kill(s.notice.subscriber, s.notice.sig)]
                 && t.notice == Notice(0, NO_SIGNAL, s.notice.readers)
            else t.kills == s.kills
  {
    if s.procs[i].pc.SendIn? {
      hide Sent, Sum, Legal, Accepts, Order, Linked, ReceiveDo, Begin, Tokens, Locks;
      SectionsDefined(s, i);
    } else {
      KillsKept(s, i);
    }
  }

  lemma KillsKept(s: State, i: nat)
    requires Enabled(s, i) && !s.procs[i].pc.SendIn?
    ensures Do(s, i).kills == s.kills
  {
    hide Sent, Received, WellFormed, Contents, Order;
  }
}
