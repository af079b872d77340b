/**
 * Who is notified, and of what: the notification record over whole runs, against the history of the calls that
 * registered, unsubscribed or set the mode.
 */
module QueueNotes {
  import opened Sums
  import opened CStrings
  import opened PriorityQueue
  import opened QueueSegment
  import opened QueueNotice
  import opened QueueSystem
  import opened QueueCalls
  import opened QueueReaders
  import opened QueueModes

  // ----- the history and the calls -----

  /** The notes of process i. */
  ghost function OwnNotes(notes: seq<Note>, i: nat): seq<Note> {
    if notes == [] then []
    else
      var n := |notes| - 1;
      OwnNotes(notes[..n], i) + if notes[n].who == i then [notes[n]] else []
  }

  /** The note of a call of process i that returned r. */
  function NoteOf(i: nat, c: Call, r: int): seq<Note> {
    if r != 0 then []
    else
      match c
      case NotifyCall(_, event) => [if event.Some? then Registered(i, event.value) else Unsubscribed(i)]
      case SetAttrCall(_, nonBlocking) => [ModeSet(i, nonBlocking)]
      case _ => []
  }

  ghost function CallNotes(i: nat, calls: seq<Call>, rets: seq<int>): seq<Note>
    requires |rets| <= |calls|
  {
    if rets == [] then []
    else
      var n := |rets| - 1;
      CallNotes(i, calls, rets[..n]) + NoteOf(i, calls[n], rets[n])
  }

  /** The notes of process i are those of its calls that returned 0, and a registered event is never of a refused kind. */
  ghost predicate Records(p: Proc, i: nat, notes: seq<Note>) {
    && |p.rets| <= |p.made|
    && OwnNotes(notes, i) == CallNotes(i, p.made, p.rets)
    && if p.pc.Idle? then |p.made| == |p.rets| || Died(p)
       else |p.made| == |p.rets| + 1 && (p.made[|p.rets|].SendCall? || p.made[|p.rets|].ReceiveCall?)
  }

  ghost predicate AllRecord(s: State) {
    forall i :: 0 <= i < |s.procs| ==> Records(s.procs[i], i, s.notes)
  }

  lemma {:induction false} CallNotesExtend(i: nat, calls: seq<Call>, more: seq<Call>, rets: seq<int>)
    requires |rets| <= |calls|
    ensures CallNotes(i, calls + more, rets) == CallNotes(i, calls, rets)
  {
    if rets != [] {
      CallNotesExtend(i, calls, more, rets[..|rets| - 1]);
    }
  }

  lemma OwnNotesOne(notes: seq<Note>, more: seq<Note>, i: nat, j: nat)
    requires |more| <= 1 && forall a :: a in more ==> a.who == i
    ensures OwnNotes(notes + more, j) == OwnNotes(notes, j) + if j == i then more else []
  {
    if more == [] {
      assert notes + more == notes;
    } else {
      assert (notes + more)[..|notes|] == notes;
      assert more == [more[0]] && more[0] in more;
    }
  }

  /** A call that is taken up adds its own note exactly when it returns 0. */
  lemma BeginNotes(s: State, i: nat)
    requires Enabled(s, i) && s.procs[i].pc.Idle?
    ensures |Do(s, i).procs| == |s.procs|
    ensures var p, t := s.procs[i], Do(s, i);
            var q, c := t.procs[i], s.procs[i].todo[0];
            && q.made == p.made + [c]
            && (if |q.rets| > |p.rets| then
                  q.pc.Idle? && q.rets == p.rets + [q.rets[|p.rets|]] && t.notes == s.notes + NoteOf(i, c, q.rets[|p.rets|])
                else
                  && q.rets == p.rets && t.notes == s.notes
                  && if q.pc.Idle? then q.todo == [] else c.SendCall? || c.ReceiveCall?)
  {
    hide Do;
    match s.procs[i].todo[0] {
      case SendCall(_, _) => SendCallExactly(s, i);
      case ReceiveCall(_, _, _) => ReceiveCallExactly(s, i);
      case NotifyCall(_, _) => NotifyCallExactly(s, i);
      case SetAttrCall(_, _) => SetAttrCallExactly(s, i);
    }
  }

  lemma BegunRecords(p: Proc, q: Proc, i: nat, notes: seq<Note>, c: Call)
    requires Records(p, i, notes) && p.pc.Idle? && |p.made| == |p.rets| && q.made == p.made + [c]
    requires |q.rets| > |p.rets| && q.pc.Idle? && q.rets == p.rets + [q.rets[|p.rets|]]
    ensures Records(q, i, notes + NoteOf(i, c, q.rets[|p.rets|]))
  {
    CallNotesExtend(i, p.made, [c], p.rets);
    assert q.rets[..|p.rets|] == p.rets;
    OwnNotesOne(notes, NoteOf(i, c, q.rets[|p.rets|]), i, i);
  }

  lemma UnderWayRecords(p: Proc, q: Proc, i: nat, notes: seq<Note>, c: Call)
    requires Records(p, i, notes) && p.pc.Idle? && |p.made| == |p.rets| && q.made == p.made + [c] && q.rets == p.rets
    requires if q.pc.Idle? then q.todo == [] else c.SendCall? || c.ReceiveCall?
    ensures Records(q, i, notes)
  {
    CallNotesExtend(i, p.made, [c], p.rets);
  }

  lemma GoesOnRecords(p: Proc, q: Proc, i: nat, notes: seq<Note>)
    requires Records(p, i, notes) && GoesOn(p, q)
    ensures Records(q, i, notes)
  {
    if q.pc.Idle? {
      assert q.rets[..|p.rets|] == p.rets;
    }
  }

  /** Only calls that are taken up change the history. */
  lemma NotesKept(s: State, i: nat)
    requires Enabled(s, i) && !s.procs[i].pc.Idle?
    ensures Do(s, i).notes == s.notes && Do(s, i).flags == s.flags
  {
    hide Sent, Received, WellFormed, Contents, Order, AfterInsert, Fires, Sendable;
  }

  lemma MoverRecords(s: State, i: nat)
    requires Inv(s) && Enabled(s, i) && Records(s.procs[i], i, s.notes)
    ensures var t := Do(s, i);
            && |t.procs| == |s.procs| && Records(t.procs[i], i, t.notes)
            && forall j: nat :: j != i ==> OwnNotes(t.notes, j) == OwnNotes(s.notes, j)
  {
    hide Inv, Do, Sending, OwnNotes, CallNotes, GoesOn;
    var p, t := s.procs[i], Do(s, i);
    if p.pc.Idle? {
      BeginNotes(s, i);
      var q := t.procs[i];
      if |q.rets| > |p.rets| {
        var more := NoteOf(i, p.todo[0], q.rets[|p.rets|]);
        BegunRecords(p, q, i, s.notes, p.todo[0]);
        forall j: nat ensures OwnNotes(t.notes, j) == OwnNotes(s.notes, j) + if j == i then more else [] {
          OwnNotesOne(s.notes, more, i, j);
        }
      } else {
        UnderWayRecords(p, q, i, s.notes, p.todo[0]);
      }
    } else {
      NotesKept(s, i);
      if p.pc.SendIn? || p.pc.RecvIn? {
        SectionFrame(s, i);
      } else {
        if Sending(p.pc) {
          SendGoesOn(s, i);
        } else {
          ReceiveGoesOn(s, i);
        }
        GoesOnRecords(p, t.procs[i], i, s.notes);
      }
    }
  }

  lemma StepRecords(s: State, t: State)
    requires Inv(s) && Step(s, t) && AllRecord(s)
    ensures AllRecord(t)
  {
    hide Inv, Do, OwnNotes, CallNotes;
    var i: nat :| Enabled(s, i) && t == Do(s, i);
    MoverRecords(s, i);
    LocalFrame(s, i);
  }

  /** In every state of every run the history is, for every process, that of its calls that returned 0, in order. */
  lemma {:induction false} RunRecords(r: seq<State>, k: nat)
    requires IsRun(r) && k < |r|
    ensures AllRecord(r[k])
  {
    hide Inv, Step, Records;
    if k == 0 {
      StartRecords(r[0]);
    } else {
      RunRecords(r, k - 1);
      RunInv(r, k - 1);
      StepRecords(r[k - 1], r[k]);
    }
  }

  lemma StartRecords(s: State)
    requires Init(s)
    ensures AllRecord(s)
  {
    forall i: nat | i < |s.procs| ensures Records(s.procs[i], i, s.notes) {
      assert s.procs[i] in s.procs;
    }
  }

  // ----- the record and the history -----

  /** The latest registration, whatever its kind. */
  ghost function Latest(notes: seq<Note>): (a: Option<Note>)
    ensures a.Some? ==> a.value.Registered?
  {
    if notes == [] then None
    else
      var a := notes[|notes| - 1];
      if a.Registered? then Some(a) else Latest(notes[..|notes| - 1])
  }

  /** The latest registration for a signal. */
  ghost function LatestSignal(notes: seq<Note>): (a: Option<Note>)
    ensures a.Some? ==> a.value.Registered? && a.value.event.kind == Signalled
  {
    if notes == [] then None
    else
      var a := notes[|notes| - 1];
      if a.Registered? && a.event.kind == Signalled then Some(a) else LatestSignal(notes[..|notes| - 1])
  }

  /** The mode: as it was flags0, or as it was set last. */
  ghost function Mode(notes: seq<Note>, flags0: int): int {
    if notes == [] then flags0
    else
      var a := notes[|notes| - 1];
      if a.ModeSet? then (if a.nonBlocking then 1 else 0) else Mode(notes[..|notes| - 1], flags0)
  }

  /** pid made the latest registration, and sig is the signal of the latest registration for a signal. */
  ghost predicate OnRecord(notes: seq<Note>, pid: int, sig: int) {
    && Latest(notes).Some? && Latest(notes).value.who == pid - 1
    && LatestSignal(notes).Some? && LatestSignal(notes).value.event.signo == sig
  }

  /** The subscriber and the signal in force are those of the history. */
  ghost predicate Subscribed(n: Notice, notes: seq<Note>) {
    && (n.subscriber != 0 ==> Latest(notes).Some? && Latest(notes).value.who == n.subscriber - 1)
    && (n.sig != -1 ==> LatestSignal(notes).Some? && LatestSignal(notes).value.event.signo == n.sig)
  }

  /** At some time in the history this process and this signal were the ones on record. */
  ghost predicate WasOnRecord(notes: seq<Note>, kill: Kill) {
    exists n :: 0 <= n <= |notes| && OnRecord(notes[..n], kill.pid, kill.sig)
  }

  ghost predicate Justified(kills: seq<Kill>, notes: seq<Note>) {
    forall k :: 0 <= k < |kills| ==> WasOnRecord(notes, kills[k])
  }

  ghost predicate Traced(s: State, flags0: int) {
    Subscribed(s.notice, s.notes) && Justified(s.kills, s.notes) && s.flags == Mode(s.notes, flags0)
  }

  lemma JustifiedLater(kills: seq<Kill>, notes: seq<Note>, more: seq<Note>)
    requires Justified(kills, notes)
    ensures Justified(kills, notes + more)
  {
    forall k | 0 <= k < |kills| ensures WasOnRecord(notes + more, kills[k]) {
      assert WasOnRecord(notes, kills[k]);
      var n :| 0 <= n <= |notes| && OnRecord(notes[..n], kills[k].pid, kills[k].sig);
      assert (notes + more)[..n] == notes[..n];
      assert OnRecord((notes + more)[..n], kills[k].pid, kills[k].sig);
    }
  }

  lemma OneMore(notes: seq<Note>, a: Note, flags0: int)
    ensures var l := notes + [a];
            && Latest(l) == (if a.Registered? then Some(a) else Latest(notes))
            && LatestSignal(l) == (if a.Registered? && a.event.kind == Signalled then Some(a) else LatestSignal(notes))
            && Mode(l, flags0) == if a.ModeSet? then (if a.nonBlocking then 1 else 0) else Mode(notes, flags0)
  {
    assert (notes + [a])[..|notes|] == notes;
  }

  lemma BeginTraced(s: State, i: nat, flags0: int)
    requires Enabled(s, i) && s.procs[i].pc.Idle? && Traced(s, flags0)
    ensures Traced(Do(s, i), flags0)
  {
    hide Do, Latest, LatestSignal, Mode, OnRecord, Justified;
    var t := Do(s, i);
    match s.procs[i].todo[0] {
      case SendCall(_, _) => SendCallExactly(s, i);
      case ReceiveCall(_, _, _) => ReceiveCallExactly(s, i);
      case NotifyCall(_, _) => NotifyCallExactly(s, i);
      case SetAttrCall(_, _) => SetAttrCallExactly(s, i);
    }
    if t.notes != s.notes {
      var a := t.notes[|s.notes|];
      assert t.notes == s.notes + [a];
      OneMore(s.notes, a, flags0);
      JustifiedLater(s.kills, s.notes, [a]);
    }
  }

  lemma SectionTraced(s: State, i: nat, flags0: int)
    requires Inv(s) && Enabled(s, i) && s.procs[i].pc.SendIn? && Traced(s, flags0)
    ensures Traced(Do(s, i), flags0)
  {
    SectionsDefined(s, i);
    hide Do, Latest, LatestSignal, Mode, Inv, Contents, WellFormed;
    var t := Do(s, i);
    SignalStep(s, i);
    NotesKept(s, i);
    SilentKeeps(s, i);
    if Signals(s, i) {
      assert s.notes[..|s.notes|] == s.notes;
      assert OnRecord(s.notes, s.notice.subscriber, s.notice.sig);
      assert WasOnRecord(s.notes, Kill(s.notice.subscriber, s.notice.sig));
    }
  }

  /** A send that does not signal leaves the notification record as it is. */
  lemma SilentKeeps(s: State, i: nat)
    requires Enabled(s, i) && s.procs[i].pc.SendIn? && WellFormed(s.seg)
    ensures !Signals(s, i) ==> Do(s, i).notice == s.notice
  {
    hide Sent, WellFormed, Order, Contents;
  }

  lemma RestTraced(s: State, i: nat, flags0: int)
    requires Enabled(s, i) && !s.procs[i].pc.Idle? && !s.procs[i].pc.SendIn? && Traced(s, flags0)
    ensures Traced(Do(s, i), flags0)
  {
    hide Do, Latest, LatestSignal, Mode, OnRecord;
    NotesKept(s, i);
    KillsKept(s, i);
    RecordKept(s, i);
  }

  lemma RecordKept(s: State, i: nat)
    requires Enabled(s, i) && !s.procs[i].pc.Idle? && !s.procs[i].pc.SendIn?
    ensures Do(s, i).notice.subscriber == s.notice.subscriber && Do(s, i).notice.sig == s.notice.sig
  {
    hide Sent, Received, WellFormed, Contents, Order;
  }

  lemma StepTraced(s: State, t: State, flags0: int)
    requires Inv(s) && Step(s, t) && Traced(s, flags0)
    ensures Traced(t, flags0)
  {
    hide Inv, Do, Traced;
    var i: nat :| Enabled(s, i) && t == Do(s, i);
    if s.procs[i].pc.Idle? {
      BeginTraced(s, i, flags0);
    } else if s.procs[i].pc.SendIn? {
      SectionTraced(s, i, flags0);
    } else {
      RestTraced(s, i, flags0);
    }
  }

  /**
   * In every state of every run: the subscriber, if any, made the latest registration of either kind; the signal on
   * record, if any, is that of the latest registration for a signal; every signal sent went to the one process and
   * was of the one number that were so at its time; and the mode is the one set last.
   */
  lemma {:induction false} RunTraced(r: seq<State>, k: nat)
    requires IsRun(r) && k < |r|
    ensures Traced(r[k], r[0].flags)
  {
    hide Inv, Step, Traced;
    if k == 0 {
      StartTraced(r[0]);
    } else {
      RunTraced(r, k - 1);
      RunInv(r, k - 1);
      StepTraced(r[k - 1], r[k], r[0].flags);
    }
  }

  lemma StartTraced(s: State)
    requires Init(s)
    ensures Traced(s, s.flags)
  {
  }

  // ----- who made the calls behind a signal -----

  /** Process p has made this call and it returned 0. */
  ghost predicate Made(p: Proc, c: Call) {
    |p.rets| <= |p.made| && exists k :: 0 <= k < |p.rets| && p.made[k] == c && p.rets[k] == 0
  }

  lemma {:induction false} CallBehindNote(p: Proc, i: nat, rets: seq<int>, a: Note) returns (k: nat)
    requires rets <= p.rets && |p.rets| <= |p.made| && a in CallNotes(i, p.made, rets) && a.Registered?
    ensures k < |rets| && rets[k] == 0
    ensures p.made[k].NotifyCall? && p.made[k].event == Some(a.event) && a.who == i
  {
    var n := |rets| - 1;
    if a in NoteOf(i, p.made[n], rets[n]) {
      k := n;
    } else {
      k := CallBehindNote(p, i, rets[..n], a);
    }
  }

  lemma {:induction false} NoteIsOwn(notes: seq<Note>, a: Note)
    requires a in notes
    ensures a in OwnNotes(notes, a.who)
  {
    var n := |notes| - 1;
    if a != notes[n] {
      assert notes == notes[..n] + [notes[n]];
      NoteIsOwn(notes[..n], a);
    }
  }

  /** A registration in the history is a successful call of the process it names. */
  lemma RegistrationWasMade(s: State, a: Note)
    requires AllRecord(s) && AllRefuse(s) && KnownCallers(s) && a in s.notes && a.Registered?
    ensures a.who < |s.procs| && Made(s.procs[a.who], NotifyCall(true, Some(a.event)))
  {
    hide Latest, LatestSignal, OwnNotes, CallNotes;
    NoteIsOwn(s.notes, a);
    var p := s.procs[a.who];
    assert p in s.procs;
    var k := CallBehindNote(p, a.who, p.rets, a);
    assert !Refused(p.made[k]);
  }

  /** Every note is of one of the processes. */
  ghost predicate KnownCallers(s: State) {
    forall a :: a in s.notes ==> a.who < |s.procs|
  }

  lemma StepKnown(s: State, t: State)
    requires Inv(s) && Step(s, t) && KnownCallers(s)
    ensures KnownCallers(t)
  {
    hide Inv, Do;
    var i: nat :| Enabled(s, i) && t == Do(s, i);
    LocalFrame(s, i);
    if s.procs[i].pc.Idle? {
      BeginNotes(s, i);
    } else {
      NotesKept(s, i);
    }
  }

  lemma {:induction false} RunKnown(r: seq<State>, k: nat)
    requires IsRun(r) && k < |r|
    ensures KnownCallers(r[k])
  {
    hide Inv, Step;
    if k > 0 {
      RunKnown(r, k - 1);
      RunInv(r, k - 1);
      StepKnown(r[k - 1], r[k]);
    }
  }

  lemma {:induction false} LatestIsNote(notes: seq<Note>)
    ensures Latest(notes).Some? ==> Latest(notes).value in notes
    ensures LatestSignal(notes).Some? ==> LatestSignal(notes).value in notes
    ensures Latest(notes).Some? && Latest(notes).value.event.kind == Signalled ==> LatestSignal(notes) == Latest(notes)
  {
    if notes != [] {
      LatestIsNote(notes[..|notes| - 1]);
    }
  }

  /**
   * In every state of every run, for every signal sent: the process that got it has registered, and some process has
   * registered for this signal; where no program registers silently, it is the process itself.
   */
  lemma SignalsWereAskedFor(r: seq<State>, k: nat, x: Kill)
    requires IsRun(r) && k < |r| && x in r[k].kills
    ensures var ps := r[k].procs;
            && 1 <= x.pid <= |ps|
            && (exists e :: Made(ps[x.pid - 1], NotifyCall(true, Some(e))))
            && (exists q :: 0 <= q < |ps| && Made(ps[q], NotifyCall(true, Some(SigEvent(Signalled, x.sig)))))
            && (NoSilent(r[k]) ==> Made(ps[x.pid - 1], NotifyCall(true, Some(SigEvent(Signalled, x.sig)))))
  {
    hide Inv, Step, Init, Records, Made, Refuses, Latest, LatestSignal;
    var s := r[k];
    RunTraced(r, k);
    RunRecords(r, k);
    RunRefuses(r, k);
    RunKnown(r, k);
    assert WasOnRecord(s.notes, x);
    var n :| 0 <= n <= |s.notes| && OnRecord(s.notes[..n], x.pid, x.sig);
    LatestIsNote(s.notes[..n]);
    var a, b := Latest(s.notes[..n]).value, LatestSignal(s.notes[..n]).value;
    assert a in s.notes && b in s.notes;
    RegistrationWasMade(s, a);
    RegistrationWasMade(s, b);
    assert b.event == SigEvent(Signalled, x.sig);
    if NoSilent(s) && a.event.kind != Signalled {
      SilentWasMade(s, a);
    }
  }

  /** No call made so far registers silently. */
  ghost predicate NoSilent(s: State) {
    forall p, c :: p in s.procs && c in p.made && c.NotifyCall? && c.event.Some? ==> c.event.value.kind != Silent
  }

  lemma SilentWasMade(s: State, a: Note)
    requires AllRefuse(s) && NoSilent(s) && a.Registered? && a.who < |s.procs|
    requires Made(s.procs[a.who], NotifyCall(true, Some(a.event)))
    ensures a.event.kind == Signalled
  {
    var p := s.procs[a.who];
    assert p in s.procs;
    var k :| 0 <= k < |p.rets| && p.made[k] == NotifyCall(true, Some(a.event)) && p.rets[k] == 0;
    assert p.made[k] in p.made;
    assert !Refused(p.made[k]);
  }

  lemma {:induction false} LatestOwn(notes: seq<Note>)
    requires Latest(notes).Some?
    ensures Latest(OwnNotes(notes, Latest(notes).value.who)) == Latest(notes)
  {
    var n := |notes| - 1;
    var i := Latest(notes).value.who;
    if notes[n].Registered? {
      assert OwnNotes(notes, i) == OwnNotes(notes[..n], i) + [notes[n]];
    } else {
      LatestOwn(notes[..n]);
      var own := OwnNotes(notes[..n], i);
      assert OwnNotes(notes, i) == if notes[n].who == i then own + [notes[n]] else own;
      assert (own + [notes[n]])[..|own|] == own;
    }
  }

  /**
   * A signal goes to a process whose own latest registration asked for this signal if and only if the latest
   * registration of all is one for a signal: a silent registration takes over the signal of another process.
   */
  lemma OwnSignalExactly(r: seq<State>, k: nat, i: nat)
    requires IsRun(r) && k < |r| && Enabled(r[k], i) && WellFormed(r[k].seg) && Signals(r[k], i)
    ensures var s := r[k];
            && s.notice.subscriber > 0 && Latest(s.notes).Some?
            && (Latest(OwnNotes(s.notes, s.notice.subscriber - 1)) ==
                  Some(Registered(s.notice.subscriber - 1, SigEvent(Signalled, s.notice.sig)))
                <==> Latest(s.notes).value.event.kind == Signalled)
  {
    hide Inv, Step, Init, OwnNotes, Latest, LatestSignal, WellFormed, Contents;
    RunTraced(r, k);
    RunInv(r, k);
    SignalStep(r[k], i);
    LatestIsNote(r[k].notes);
    LatestOwn(r[k].notes);
  }

  // ----- a stray signal -----

  ghost function TwoSubscribers(m: Message): (s: State)
    ensures Init(s) && s.flags == 0 && s.notice == Notice(0, -1, 0) && s.kills == [] && s.access == 1 && s.write == 32
    ensures s.procs == [Proc(Idle, [NotifyCall(true, Some(SigEvent(Signalled, 10))), SendCall(true, m)], [], []),
                        Proc(Idle, [NotifyCall(true, Some(SigEvent(Silent, 0)))], [], [])]
  {
    Start([], []).(flags := 0,
      procs := [Proc(Idle, [NotifyCall(true, Some(SigEvent(Signalled, 10))), SendCall(true, m)], [], []),
                Proc(Idle, [NotifyCall(true, Some(SigEvent(Silent, 0)))], [], [])])
  }

  /** A process that has only ever registered silently is sent the signal that another one registered for. */
  lemma StraySignal() returns (s: State, t: State)
    ensures Init(s) && Leads(s, t) && t.kills == [Kill(2, 10)]
    ensures |t.procs| == 2 && t.procs[1].made == [NotifyCall(true, Some(SigEvent(Silent, 0)))]
  {
    var m := Message("a\0", 2, 1);
    s := TwoSubscribers(m);
    InitInv(s);
    LeadsSelf(s);
    StartsEmpty(s);
    hide Leads, Inv, Init, WellFormed, Contents, Do;
    t := BothRegister(s, s);
    t := SendEnters(s, t, 0);
    t := Fire(s, t);
  }

  lemma BothRegister(s0: State, s: State) returns (t: State)
    requires Leads(s0, s) && Inv(s) && |s.procs| == 2 && s.procs[0].pc == s.procs[1].pc == Idle
    requires s.procs[0].todo != [] && s.procs[0].todo[0] == NotifyCall(true, Some(SigEvent(Signalled, 10)))
    requires s.procs[1].todo != [] && s.procs[1].todo[0] == NotifyCall(true, Some(SigEvent(Silent, 0)))
    ensures Leads(s0, t) && Inv(t) && t.notice == Notice(2, 10, s.notice.readers)
    ensures t.procs == [Answered(s.procs[0], 0), Answered(s.procs[1], 0)]
    ensures t.seg == s.seg && t.flags == s.flags && t.kills == s.kills && t.access == s.access && t.write == s.write
  {
    hide Leads, Inv, Do;
    NotifyCallExactly(s, 0);
    t := LeadsOn(s0, s, 0);
    NotifyCallExactly(t, 1);
    t := LeadsOn(s0, t, 1);
  }

  lemma StartsEmpty(s: State)
    requires Init(s)
    ensures WellFormed(s.seg) && Contents(s.seg) == []
  {
    OpenedEmpty(s.seg);
  }

  lemma Fire(s0: State, s: State) returns (t: State)
    requires Leads(s0, s) && Inv(s) && Enabled(s, 0) && WellFormed(s.seg) && Signals(s, 0) && |s.procs| == 2
    ensures Leads(s0, t) && t.kills == s.kills + [Kill(s.notice.subscriber, s.notice.sig)]
    ensures |t.procs| == 2 && t.procs[1] == s.procs[1]
  {
    hide Leads, Do, Inv, WellFormed, Contents;
    t := LeadsOn(s0, s, 0);
    SignalStep(s, 0);
    SectionFrame(s, 0);
  }
}
