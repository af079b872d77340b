/**
 * The message queue as the library keeps it: arrays of slots and cells updated in place, with the search, walk
 * and link loops of mq_send, the head removal of mq_receive, and mq_notify. Every method is proved against
 * QueueSegment and QueueNotice. The methods are the critical sections: the semaphores around them are QueueSystem.
 */
module SharedQueue {
  import opened CStrings
  import opened PriorityQueue
  import opened QueueSegment
  import opened QueueNotice

  lemma SeekStops(q: seq<Entry<string>>, prio: nat, k: nat)
    requires k < |q| && forall j :: 0 <= j < k ==> q[j].prio > prio
    requires q[k].prio > prio ==> k == |q| - 1
    ensures Place(q, prio) == if q[k].prio <= prio then k else |q|
  {
    PlaceUnique(q, prio, if q[k].prio <= prio then k else |q|);
  }

  class Queue {
    const slots: array<Slot>
    const cells: array<Cell>
    var ind: int
    var init: int
    var flags: int
    var subscriber: int
    var notificationSig: int
    var nbBlockedReaders: int

    ghost function View(): Segment
      reads this`ind, this`init, slots, cells
    {
      Segment(slots[..], cells[..], ind, init)
    }

    ghost function Notes(): Notice
      reads this`subscriber, this`notificationSig, this`nbBlockedReaders
    {
      Notice(subscriber, notificationSig, nbBlockedReaders)
    }

    ghost predicate Valid()
      reads this, slots, cells
    {
      WellFormed(View()) && Consistent(Notes())
    }

    /** The freshly mapped segment: zero-filled memory. */
    constructor ()
      ensures fresh(slots) && fresh(cells) && Shape(View())
    {
      slots := new Slot[MAX_MSG](_ => Slot(seq(MAX_SIZ_MSG, _ => NUL), 0, 0));
      cells := new Cell[MAX_MSG](_ => Cell(0, 0));
      ind, init, flags := 0, 0, 0;
      subscriber, notificationSig, nbBlockedReaders := 0, 0, 0;
    }

    /** The state part of mq_open. */
    method Open(nonBlocking: bool)
      requires Shape(View())
      modifies this, cells
      ensures Opened(View()) && Valid() && Contents(View()) == []
      ensures slots[..] == old(slots[..]) && Notes() == Notice(0, NO_SIGNAL, 0) && flags == if nonBlocking then 1 else 0
    {
      flags := if nonBlocking then 1 else 0;
      nbBlockedReaders := 0;
      subscriber := 0;
      notificationSig := NO_SIGNAL;
      ind := END;
      init := 0;
      var i := 0;
      while i != MAX_MSG
        invariant 0 <= i <= MAX_MSG
        invariant forall c :: 0 <= c < i ==> cells[c].next == FREE_CELL
        modifies cells
      {
        cells[i] := cells[i].(next := FREE_CELL);
        i := i + 1;
      }
      OpenedEmpty(View());
    }

    /** Marks every slot free, once, on the first send after mq_open. */
    method PrepareSlots()
      requires Shape(View())
      modifies slots
      ensures slots[..] == Prepared(old(View()))
    {
      if init == 0 {
        var i := 0;
        while i != MAX_MSG
          invariant 0 <= i <= MAX_MSG
          invariant forall j :: 0 <= j < i ==> slots[j] == old(slots[j]).(length := FREE_SLOT)
          invariant forall j :: i <= j < MAX_MSG ==> slots[j] == old(slots[j])
        {
          slots[i] := slots[i].(length := FREE_SLOT);
          i := i + 1;
        }
      }
    }

    method FindFreeSlot() returns (i: nat)
      requires FreeSlot(slots[..], 0) < slots.Length
      ensures i == FreeSlot(slots[..], 0)
    {
      i := 0;
      while slots[i].length != FREE_SLOT
        invariant i <= FreeSlot(slots[..], 0)
        decreases FreeSlot(slots[..], 0) - i
      {
        i := i + 1;
      }
    }

    method FindFreeCell() returns (i: nat)
      requires FreeCell(cells[..], 0) < cells.Length
      ensures i == FreeCell(cells[..], 0)
    {
      i := 0;
      while cells[i].next != FREE_CELL
        invariant i <= FreeCell(cells[..], 0)
        decreases FreeCell(cells[..], 0) - i
      {
        i := i + 1;
      }
    }

    /**
     * The walk from the head over the cells of greater priority; it stops on the last cell at the latest.
     * q is the list the cells hold, whatever is being written to the slot that is not in it.
     */
    method Seek(prio: nat, ghost o: seq<int>, ghost q: seq<Entry<string>>) returns (pind: int, at: int, ghost k: nat)
      requires o != [] && |q| == |o| && ind == o[0]
      requires Within(o, cells.Length)
      requires forall i {:trigger cells[o[i]]} :: 0 <= i < |o| ==> cells[o[i]].next == At(o, i + 1)
      requires forall i :: 0 <= i < |o| ==> 0 <= cells[o[i]].msg < slots.Length
      requires forall i :: 0 <= i < |o| ==> slots[cells[o[i]].msg].prio == q[i].prio
      ensures 0 <= at < cells.Length && 0 <= cells[at].msg < slots.Length
      ensures slots[cells[at].msg].prio <= prio || cells[at].next == END
      ensures k < |o| && at == o[k] && pind == (if k == 0 then -1 else o[k - 1])
      ensures forall j :: 0 <= j < k ==> q[j].prio > prio
      ensures q[k].prio > prio ==> k == |o| - 1
    {
      at, pind, k := ind, -1, 0;
      while slots[cells[at].msg].prio > prio && cells[at].next != END
        invariant k < |o| && at == o[k] && pind == (if k == 0 then -1 else o[k - 1])
        invariant forall j :: 0 <= j < k ==> q[j].prio > prio
        decreases |o| - k
      {
        pind := at;
        at := cells[at].next;
        k := k + 1;
      }
    }

    /** The four ways to link the free cell i where the walk stopped: new head, only successor, middle, new last. */
    method Attach(curr: nat, prio: nat, pind: int, at: int, i: nat, ghost o: seq<int>, ghost k: nat, ghost stop: nat)
      requires Within(o, cells.Length) && i < cells.Length && i !in o && curr < slots.Length
      requires k < |o| && at == o[k] && pind == (if k == 0 then -1 else o[k - 1]) && at != pind
      requires 0 <= cells[at].msg < slots.Length
      requires if slots[cells[at].msg].prio <= prio then stop == k else k == |o| - 1 && stop == |o|
      modifies this`ind, cells
      ensures cells[..] == Relinked(old(cells[..]), o, stop, i, curr)
      ensures ind == if stop == 0 then i else old(ind)
    {
      if pind == -1 {
        if slots[cells[at].msg].prio <= prio {
          ind := i;
          cells[i] := Cell(curr, at);
        } else {
          cells[at] := cells[at].(next := i);
          cells[i] := Cell(curr, END);
        }
      } else if slots[cells[at].msg].prio <= prio {
        cells[i] := Cell(curr, at);
        cells[pind] := cells[pind].(next := i);
      } else {
        cells[i] := Cell(curr, END);
        cells[at] := cells[at].(next := i);
      }
    }

    /** The list insertion of mq_send. */
    method Link(curr: nat, prio: nat, ghost o: seq<int>, ghost q: seq<Entry<string>>)
      requires slots.Length == MAX_MSG && cells.Length == MAX_MSG && curr < MAX_MSG && |q| == |o|
      requires Within(o, MAX_MSG) && Distinct(o) && ind == At(o, 0)
      requires forall i {:trigger cells[o[i]]} :: 0 <= i < |o| ==> cells[o[i]].next == At(o, i + 1)
      requires FreeCell(cells[..], 0) < MAX_MSG && FreeCell(cells[..], 0) !in o
      requires o == [] ==> FreeCell(cells[..], 0) == 0
      requires forall i :: 0 <= i < |o| ==> 0 <= cells[o[i]].msg < MAX_MSG
      requires forall i :: 0 <= i < |o| ==> slots[cells[o[i]].msg].prio == q[i].prio
      modifies this`ind, cells
      ensures var k, c := Place(q, prio), old(FreeCell(cells[..], 0));
              && cells[..] == Relinked(old(cells[..]), o, k, c, curr)
              && ind == if k == 0 then c else old(ind)
    {
      if ind == END {
        cells[0] := Cell(curr, END);
        ind := 0;
      } else {
        var pind, at;
        ghost var k;
        pind, at, k := Seek(prio, o, q);
        SeekStops(q, prio, k);
        var i := FindFreeCell();
        assert k > 0 ==> o[k - 1] != o[k];
        Attach(curr, prio, pind, at, i, o, k, Place(q, prio));
      }
    }

    /** printqueue: walks the whole list and returns the priorities it prints. */
    method PrintQueue() returns (prios: seq<nat>)
      requires Valid() && ind != END
      ensures |prios| == |Contents(View())|
      ensures forall i :: 0 <= i < |prios| ==> prios[i] == Contents(View())[i].prio
    {
      ghost var o, q := Order(View()), Contents(View());
      ListFacts(View());
      var i := ind;
      prios := [];
      while cells[i].next != END
        invariant |prios| < |o| && i == o[|prios|]
        invariant forall k :: 0 <= k < |prios| ==> prios[k] == q[k].prio
        decreases |o| - |prios|
      {
        prios := prios + [slots[cells[i].msg].prio];
        i := cells[i].next;
      }
      prios := prios + [slots[cells[i].msg].prio];
    }

    /** The copy of a message into the first free slot. */
    method Store(m: Message) returns (curr: nat)
      requires Shape(View()) && FreeSlot(Prepared(View()), 0) < MAX_MSG && m.len <= MAX_SIZ_MSG
      modifies this`init, slots
      ensures curr == FreeSlot(old(Prepared(View())), 0) && init == 1
      ensures slots[..] == old(Prepared(View())[curr := Written(Prepared(View())[curr], m)])
    {
      PrepareSlots();
      init := 1;
      curr := FindFreeSlot();
      slots[curr] := Slot(StrNCpy(slots[curr].data, m.s, m.len), m.prio, m.len);
    }

    /** The copy into a free slot and the insertion into the list. */
    method InsertMessage(m: Message) returns (wasEmpty: bool)
      requires Valid() && |Contents(View())| < MAX_MSG && m.len <= MAX_SIZ_MSG
      modifies this`ind, this`init, slots, cells
      ensures old(Sendable(View(), m)) && View() == old(Sent(View(), m)) && Notes() == old(Notes())
      ensures wasEmpty == (old(Contents(View())) == [])
    {
      hide WellFormed, Order, Contents, Taken, Place, Relinked, FreeSlot, FreeCell, Prepared, Written, Slots;
      ghost var g := View();
      ContentsSize(g);
      LinkReady(g, m);
      var curr := Store(m);
      wasEmpty := ind == END;
      Link(curr, m.prio, Order(g), Contents(g));
    }

    /** The notification test at the end of a send, with its internal mq_notify(fd, NULL). */
    method Announce(wasEmpty: bool) returns (kill: Option<Kill>)
      requires Consistent(Notes())
      modifies this`subscriber, this`notificationSig
      ensures Notes() == AfterInsert(old(Notes()), wasEmpty) && Consistent(Notes())
      ensures kill == if Fires(old(Notes()), wasEmpty)
                      then Some(Kill(old(subscriber), old(notificationSig))) else None
    {
      if wasEmpty && notificationSig != NO_SIGNAL && 0 <= nbBlockedReaders {
        kill := Some(Kill(subscriber, notificationSig));
        var outcome := Notify(0, None);
      } else {
        kill := None;
      }
    }

    /**
     * The critical section of mq_send. It returns the signal that it sends, if any, and the priorities that it
     * prints.
     */
    method SendSection(m: Message) returns (kill: Option<Kill>, prios: seq<nat>)
      requires Valid() && |Contents(View())| < MAX_MSG && m.len <= MAX_SIZ_MSG
      modifies this, slots, cells
      ensures Valid() && old(Sendable(View(), m)) && View() == old(Sent(View(), m))
      ensures Notes() == AfterInsert(old(Notes()), old(Contents(View())) == []) && flags == old(flags)
      ensures kill == if Fires(old(Notes()), old(Contents(View())) == [])
                      then Some(Kill(old(subscriber), old(notificationSig))) else None
      ensures |prios| == |Contents(View())|
      ensures forall i :: 0 <= i < |prios| ==> prios[i] == Contents(View())[i].prio
    {
      hide Sent, WellFormed, Order, Contents, Fires;
      ghost var g := View();
      ContentsSize(g);
      SentNotEmpty(g, m);
      var wasEmpty := InsertMessage(m);
      kill := Announce(wasEmpty);
      prios := PrintQueue();
    }

    /** The critical section of mq_receive, with what it copies to the caller. */
    method ReceiveSection() returns (e: Entry<string>)
      requires Valid() && Contents(View()) != []
      modifies this`ind, slots, cells
      ensures Valid() && View() == Received(old(View())) && Notes() == old(Notes())
      ensures e == old(Contents(View()))[0]
    {
      ghost var g := View();
      ListFacts(g);
      ReceiveRefines(g);
      var at := ind;
      if cells[ind].next == END {
        ind := END;
      } else {
        ind := cells[ind].next;
      }
      var j := cells[at].msg;
      e := Entry(CString(slots[j].data), slots[j].prio);
      slots[j] := slots[j].(length := FREE_SLOT);
      cells[at] := cells[at].(next := FREE_CELL);
      assert View() == Received(g);
    }

    /** mq_notify. */
    method Notify(pid: int, event: Option<SigEvent>) returns (outcome: Outcome)
      requires event.Some? ==> pid != 0
      modifies this`subscriber, this`notificationSig
      ensures (Notes(), outcome) == Notified(old(Notes()), pid, event)
      ensures event.Some? && event.value.kind == Signalled ==>
                outcome == Success && subscriber == pid && notificationSig == event.value.signo
      ensures event.Some? && event.value.kind == Silent ==>
                outcome == Success && subscriber == pid && notificationSig == old(notificationSig)
      ensures event.Some? && event.value.kind == OtherKind ==> outcome == Failure && Notes() == old(Notes())
      ensures event == None && old(subscriber) != 0 ==> outcome == Success && subscriber == 0 && notificationSig == -1
      ensures event == None && old(subscriber) == 0 ==> outcome == NullDereference && Notes() == old(Notes())
      ensures old(Consistent(Notes())) ==> Consistent(Notes())
    {
      if event == None && subscriber != 0 {
        subscriber := 0;
        notificationSig := NO_SIGNAL;
        return Success;
      }
      if event == None {
        return NullDereference;
      }
      if event.value.kind != Signalled && event.value.kind != Silent {
        return Failure;
      }
      if event.value.kind == Silent {
        subscriber := pid;
        return Success;
      }
      notificationSig := event.value.signo;
      subscriber := pid;
      return Success;
    }

    /** mq_setattr: only the non-blocking flag, bit 11, can be changed; the old one is handed out on demand. */
    method SetAttr(open: bool, newFlags: Unsigned, wantOld: bool) returns (r: int, before: Option<int>)
      modifies this`flags
      ensures before == if open && wantOld then Some(old(flags)) else None
      ensures if open then r == 0 && (flags == 1 <==> newFlags % 0x1000 >= 0x800) && flags in {0, 1}
              else r == -1 && flags == old(flags)
    {
      before := None;
      if !open {
        return -1, before;
      }
      if wantOld {
        before := Some(flags);
      }
      if newFlags / 0x800 % 2 == 1 {
        flags := 1;
      } else {
        flags := 0;
      }
      r := 0;
    }
  }

  lemma SentNotEmpty(g: Segment, m: Message)
    requires Sendable(g, m)
    ensures WellFormed(Sent(g, m)) && Sent(g, m).ind != END
  {
    hide Sent, Linked;
    SendRefines(g, m);
    ListFacts(Sent(g, m));
  }

  /** What the insertion into the list finds after the copy into the free slot. */
  lemma LinkReady(g: Segment, m: Message)
    requires Sendable(g, m)
    ensures Shape(g) && FreeSlot(Prepared(g), 0) < MAX_MSG
    ensures var o, q, curr := Order(g), Contents(g), FreeSlot(Prepared(g), 0);
            var slots := Prepared(g)[curr := Written(Prepared(g)[curr], m)];
            && |q| == |o| && Within(o, MAX_MSG) && Distinct(o) && g.ind == At(o, 0)
            && (forall i {:trigger g.cells[o[i]]} :: 0 <= i < |o| ==> g.cells[o[i]].next == At(o, i + 1))
            && (forall i :: 0 <= i < |o| ==> 0 <= g.cells[o[i]].msg < MAX_MSG)
            && (forall i :: 0 <= i < |o| ==> slots[g.cells[o[i]].msg].prio == q[i].prio)
            && FreeCell(g.cells, 0) < MAX_MSG && FreeCell(g.cells, 0) !in o
            && (o == [] ==> FreeCell(g.cells, 0) == 0)
            && (g.ind == END <==> q == [])
  {
    hide Chained, Listed, Sorted, Follow, Place, FreeSlot, FreeCell, StrNCpy, CString;
    RoomFound(g);
    ListFacts(g);
    PreparedKept(g, Slots(g, Order(g)));
  }

  /** What a well-formed segment says about the cells that the loops visit. */
  lemma ListFacts(g: Segment)
    requires WellFormed(g)
    ensures var o, q := Order(g), Contents(g);
            && |q| == |o| && Within(o, MAX_MSG) && Distinct(o) && g.ind == At(o, 0)
            && (forall i {:trigger g.cells[o[i]]} :: 0 <= i < |o| ==> g.cells[o[i]].next == At(o, i + 1))
            && (forall i :: 0 <= i < |o| ==> 0 <= g.cells[o[i]].msg < MAX_MSG)
            && (forall i :: 0 <= i < |o| ==> g.cells[o[i]].msg in Slots(g, o))
            && (forall i :: 0 <= i < |o| ==> SlotEntry(g.slots[g.cells[o[i]].msg]) == q[i])
            && (g.ind == END <==> q == [])
  {
    var o := Order(g);
    assert forall i :: 0 <= i < |o| ==> Slots(g, o)[i] == g.cells[o[i]].msg;
  }
}
