/**
 * The shared segment of the message queue as a value: 32 message slots, 32 list cells, the head index and the
 * "slots initialised" mark. Sent and Received say what the critical sections of mq_send and mq_receive leave;
 * the lemmas say that this is the insertion into, and the removal of the head of, the atomic priority queue.
 */
module QueueSegment {
  import opened CStrings
  import opened PriorityQueue

  const MAX_MSG := 32
  const MAX_SIZ_MSG := 32
  const END := -1
  const FREE_CELL := -2
  const FREE_SLOT := -1

  datatype Slot = Slot(data: seq<char>, prio: nat, length: int)

  datatype Cell = Cell(msg: int, next: int)

  datatype Segment = Segment(slots: seq<Slot>, cells: seq<Cell>, ind: int, init: int)

  type Unsigned = x: nat | x < 0x1_0000_0000

  /** The C cast (int) of an unsigned value. */
  function AsSigned(u: Unsigned): int {
    if u < 0x8000_0000 then u else u - 0x1_0000_0000
  }

  /** What a sender hands over: its bytes, the length it gives, the priority. */
  datatype Message = Message(s: seq<char>, len: nat, prio: Unsigned)

  // ----- the linked list inside the cells -----

  predicate Distinct(o: seq<int>) {
    forall k, l :: 0 <= k < l < |o| ==> o[k] != o[l]
  }

  predicate Within(o: seq<int>, n: nat) {
    forall k :: 0 <= k < |o| ==> 0 <= o[k] < n
  }

  /** The k-th cell of the list, or the end mark. */
  function At(o: seq<int>, k: nat): int {
    if k < |o| then o[k] else END
  }

  /** The cells met by following next from i. */
  function Follow(cells: seq<Cell>, i: int, fuel: nat): seq<int>
    decreases fuel
  {
    if fuel == 0 || !(0 <= i < |cells|) then [] else [i] + Follow(cells, cells[i].next, fuel - 1)
  }

  function Order(g: Segment): seq<int> {
    Follow(g.cells, g.ind, |g.cells|)
  }

  predicate Shape(g: Segment) {
    && |g.slots| == MAX_MSG
    && |g.cells| == MAX_MSG
    && forall j :: 0 <= j < MAX_MSG ==> |g.slots[j].data| == MAX_SIZ_MSG
  }

  /** The cells of o, in this order, are the list: distinct, linked, ended by -1, and exactly the cells that are not free. */
  ghost predicate Chained(g: Segment, o: seq<int>)
    requires Shape(g)
  {
    && Within(o, MAX_MSG) && Distinct(o)
    && g.ind == At(o, 0)
    && Links(g.cells, o)
    && (forall c :: 0 <= c < MAX_MSG ==> (g.cells[c].next != FREE_CELL <==> c in o))
  }

  /** A slot is in use when the slots have been initialised and its length is not the free mark. */
  predicate InUse(g: Segment, j: int)
    requires 0 <= j < |g.slots|
  {
    g.init != 0 && g.slots[j].length != FREE_SLOT
  }

  function Slots(g: Segment, o: seq<int>): (m: seq<int>)
    requires Shape(g) && Within(o, MAX_MSG)
    ensures |m| == |o|
  {
    seq(|o|, k requires 0 <= k < |o| => g.cells[o[k]].msg)
  }

  /** The listed cells point one-to-one to exactly the slots in use. */
  ghost predicate Assigned(g: Segment, o: seq<int>)
    requires Shape(g) && Within(o, MAX_MSG)
  {
    && Within(Slots(g, o), MAX_MSG) && Distinct(Slots(g, o))
    && forall j :: 0 <= j < MAX_MSG ==> (InUse(g, j) <==> j in Slots(g, o))
  }

  function SlotEntry(x: Slot): Entry<string> {
    Entry(CString(x.data), x.prio)
  }

  /** The messages in the list, head first. */
  function Listed(g: Segment, o: seq<int>): (q: seq<Entry<string>>)
    requires Shape(g) && Within(o, MAX_MSG) && Within(Slots(g, o), MAX_MSG)
    ensures |q| == |o|
  {
    seq(|o|, k requires 0 <= k < |o| => SlotEntry(g.slots[Slots(g, o)[k]]))
  }

  ghost predicate Linked(g: Segment, o: seq<int>) {
    Shape(g) && Chained(g, o) && Assigned(g, o) && Sorted(Listed(g, o))
  }

  /** The representation invariant of the shared segment. */
  ghost predicate WellFormed(g: Segment) {
    Linked(g, Order(g))
  }

  /** The abstract value of the segment. */
  ghost function Contents(g: Segment): seq<Entry<string>>
    requires WellFormed(g)
  {
    Listed(g, Order(g))
  }

  /** The cells of o are linked in this order and the last one carries the end mark. */
  ghost predicate Links(cells: seq<Cell>, o: seq<int>)
    requires Within(o, |cells|)
  {
    forall k {:trigger cells[o[k]]} :: 0 <= k < |o| ==> cells[o[k]].next == At(o, k + 1)
  }

  lemma {:induction false} FollowSuffix(cells: seq<Cell>, o: seq<int>, k: nat, fuel: nat)
    requires Within(o, |cells|) && Links(cells, o) && k <= |o| && |o| - k <= fuel
    ensures Follow(cells, At(o, k), fuel) == o[k..]
    decreases fuel
  {
    if k < |o| {
      FollowSuffix(cells, o, k + 1, fuel - 1);
      assert o[k..] == [o[k]] + o[k + 1..];
    }
  }

  function Ints(n: nat): (s: set<int>)
    ensures |s| == n
    ensures forall x :: x in s <==> 0 <= x < n
  {
    if n == 0 then {} else Ints(n - 1) + {n - 1}
  }

  lemma {:induction false} DistinctSize(o: seq<int>) returns (s: set<int>)
    requires Distinct(o)
    ensures |s| == |o| && forall x :: x in s <==> x in o
  {
    if o == [] {
      s := {};
    } else {
      var n := |o| - 1;
      assert forall k :: 0 <= k < n ==> o[k] != o[n];
      s := DistinctSize(o[..n]);
      s := s + {o[n]};
      assert o == o[..n] + [o[n]];
    }
  }

  lemma SubsetSize(a: set<int>, b: set<int>)
    requires a <= b
    ensures |a| <= |b|
    ensures |a| < |b| ==> exists x :: x in b && x !in a
  {
    assert b == a + (b - a);
    assert |b| == |a| + |b - a|;
    if forall x :: x in b ==> x in a {
      assert a == b;
    }
  }

  /** Distinct indices below n: at most n of them, and with fewer one index is missing. */
  lemma Pigeonhole(o: seq<int>, n: nat)
    requires Distinct(o) && Within(o, n)
    ensures |o| <= n
    ensures |o| < n ==> exists x :: 0 <= x < n && x !in o
  {
    var s := DistinctSize(o);
    SubsetSize(s, Ints(n));
  }

  /** The order of a linked list is the one that following next finds. */
  lemma OrderUnique(g: Segment, o: seq<int>)
    requires Shape(g) && Chained(g, o)
    ensures Order(g) == o
  {
    Pigeonhole(o, MAX_MSG);
    FollowSuffix(g.cells, o, 0, MAX_MSG);
  }

  // ----- the critical section of mq_send -----

  /** The slots as the search for a free one sees them: the first send after mq_open marks them all free. */
  function Prepared(g: Segment): (t: seq<Slot>)
    ensures |t| == |g.slots|
  {
    if g.init == 0 then seq(|g.slots|, j requires 0 <= j < |g.slots| => g.slots[j].(length := FREE_SLOT)) else g.slots
  }

  /** The first slot at or after i that is free, or the end of the table. */
  function FreeSlot(t: seq<Slot>, i: nat): (j: nat)
    requires i <= |t|
    ensures i <= j <= |t|
    ensures forall k :: i <= k < j ==> t[k].length != FREE_SLOT
    ensures j < |t| ==> t[j].length == FREE_SLOT
    decreases |t| - i
  {
    if i == |t| || t[i].length == FREE_SLOT then i else FreeSlot(t, i + 1)
  }

  function FreeCell(t: seq<Cell>, i: nat): (j: nat)
    requires i <= |t|
    ensures i <= j <= |t|
    ensures forall k :: i <= k < j ==> t[k].next != FREE_CELL
    ensures j < |t| ==> t[j].next == FREE_CELL
    decreases |t| - i
  {
    if i == |t| || t[i].next == FREE_CELL then i else FreeCell(t, i + 1)
  }

  /** The critical section of mq_send is defined: the list is sound, there is room, the length fits. */
  ghost predicate Sendable(g: Segment, m: Message) {
    WellFormed(g) && |Order(g)| < MAX_MSG && m.len <= MAX_SIZ_MSG
  }

  /** A free slot and a free cell exist, so both unbounded searches stop inside their tables. */
  lemma RoomFound(g: Segment)
    requires WellFormed(g) && |Order(g)| < MAX_MSG
    ensures FreeSlot(Prepared(g), 0) < MAX_MSG && FreeSlot(Prepared(g), 0) !in Slots(g, Order(g))
    ensures FreeCell(g.cells, 0) < MAX_MSG && FreeCell(g.cells, 0) !in Order(g)
    ensures Order(g) == [] ==> FreeCell(g.cells, 0) == 0
  {
    var o := Order(g);
    Pigeonhole(o, MAX_MSG);
    Pigeonhole(Slots(g, o), MAX_MSG);
    var c :| 0 <= c < MAX_MSG && c !in o;
    assert g.cells[c].next == FREE_CELL;
    var j :| 0 <= j < MAX_MSG && j !in Slots(g, o);
    assert !InUse(g, j);
    assert Prepared(g)[j].length == FREE_SLOT;
    assert !InUse(g, FreeSlot(Prepared(g), 0));
    if o == [] {
      assert 0 !in o;
    }
  }

  function Written(x: Slot, m: Message): Slot
    requires m.len <= |x.data|
  {
    Slot(StrNCpy(x.data, m.s, m.len), m.prio, m.len)
  }

  /** The entry that m becomes in g; its text is the C string that the chosen slot holds after the copy. */
  ghost function Taken(g: Segment, m: Message): Entry<string>
    requires Sendable(g, m)
  {
    RoomFound(g);
    SlotEntry(Written(Prepared(g)[FreeSlot(Prepared(g), 0)], m))
  }

  function Splice(o: seq<int>, k: nat, c: int): seq<int>
    requires k <= |o|
  {
    o[..k] + [c] + o[k..]
  }

  /** Cell c, pointing to slot j, is put in front of the k-th cell of the list o. */
  function Relinked(cells: seq<Cell>, o: seq<int>, k: nat, c: nat, j: int): (r: seq<Cell>)
    requires k <= |o| && Within(o, |cells|) && c < |cells|
  {
    var r := cells[c := Cell(j, At(o, k))];
    if k == 0 then r else r[o[k - 1] := r[o[k - 1]].(next := c)]
  }

  /** The segment after the critical section of mq_send. */
  ghost function Sent(g: Segment, m: Message): Segment
    requires Sendable(g, m)
  {
    RoomFound(g);
    var o, j, c, k := Order(g), FreeSlot(Prepared(g), 0), FreeCell(g.cells, 0), Place(Contents(g), m.prio);
    Segment(Prepared(g)[j := Written(Prepared(g)[j], m)],
            Relinked(g.cells, o, k, c, j),
            if k == 0 then c else g.ind,
            1)
  }

  lemma SpliceAt(o: seq<int>, k: nat, c: int, i: nat)
    requires k <= |o|
    ensures At(Splice(o, k, c), i) == if i < k then o[i] else if i == k then c else At(o, i - 1)
  {
  }

  lemma SpliceDistinct(o: seq<int>, k: nat, c: int, n: nat)
    requires k <= |o| && Distinct(o) && Within(o, n) && c !in o && 0 <= c < n
    ensures Distinct(Splice(o, k, c)) && Within(Splice(o, k, c), n)
    ensures forall x :: x in Splice(o, k, c) <==> x == c || x in o
  {
    var p := Splice(o, k, c);
    assert forall i :: 0 <= i < |p| ==> p[i] == if i < k then o[i] else if i == k then c else o[i - 1];
    assert p[k] == c;
    assert forall i :: 0 <= i < |o| ==> o[i] == if i < k then p[i] else p[i + 1];
  }

  lemma RelinkedCell(cells: seq<Cell>, o: seq<int>, k: nat, c: nat, j: int, x: int)
    requires k <= |o| && Within(o, |cells|) && c < |cells| && c !in o && 0 <= x < |cells|
    ensures Relinked(cells, o, k, c, j)[x] ==
            if x == c then Cell(j, At(o, k)) else if k > 0 && x == o[k - 1] then cells[x].(next := c) else cells[x]
  {
    assert k > 0 ==> o[k - 1] in o;
  }

  lemma RelinkedLinks(cells: seq<Cell>, o: seq<int>, k: nat, c: nat, j: int)
    requires Within(o, |cells|) && Distinct(o) && Links(cells, o) && k <= |o| && c < |cells| && c !in o
    ensures Within(Splice(o, k, c), |cells|)
    ensures Links(Relinked(cells, o, k, c, j), Splice(o, k, c))
  {
    var p, r := Splice(o, k, c), Relinked(cells, o, k, c, j);
    SpliceDistinct(o, k, c, |cells|);
    forall i | 0 <= i < |p| ensures r[p[i]].next == At(p, i + 1) {
      SpliceAt(o, k, c, i);
      SpliceAt(o, k, c, i + 1);
      RelinkedCell(cells, o, k, c, j, p[i]);
      assert i < k ==> p[i] in o;
      assert i > k ==> p[i] in o;
      assert i < k - 1 ==> o[i] != o[k - 1];
      assert i > k && k > 0 ==> o[i - 1] != o[k - 1];
    }
  }

  lemma RelinkedTargets(cells: seq<Cell>, o: seq<int>, k: nat, c: nat, j: int, i: nat)
    requires Within(o, |cells|) && k <= |o| && c < |cells| && c !in o && i <= |o|
    ensures 0 <= Splice(o, k, c)[i] < |cells|
    ensures Relinked(cells, o, k, c, j)[Splice(o, k, c)[i]].msg ==
            if i < k then cells[o[i]].msg else if i == k then j else cells[o[i - 1]].msg
  {
    SpliceAt(o, k, c, i);
    var x := Splice(o, k, c)[i];
    assert i < k ==> x in o;
    assert i > k ==> x in o;
    RelinkedCell(cells, o, k, c, j, x);
  }

  lemma RelinkedFree(cells: seq<Cell>, o: seq<int>, k: nat, c: nat, j: int)
    requires Within(o, |cells|) && k <= |o| && c < |cells| && c !in o
    requires forall x :: 0 <= x < |cells| ==> (cells[x].next != FREE_CELL <==> x in o)
    ensures forall x :: 0 <= x < |cells| ==> (Relinked(cells, o, k, c, j)[x].next != FREE_CELL <==> x == c || x in o)
  {
    forall x | 0 <= x < |cells|
      ensures Relinked(cells, o, k, c, j)[x].next != FREE_CELL <==> x == c || x in o
    {
      RelinkedCell(cells, o, k, c, j, x);
      assert k > 0 ==> o[k - 1] in o;
    }
  }

  lemma ChainedAgain(g: Segment, o: seq<int>, k: nat, c: nat, h: Segment)
    requires Shape(g) && Chained(g, o) && k <= |o| && c < MAX_MSG && c !in o && Shape(h)
    requires Within(Splice(o, k, c), MAX_MSG) && Links(h.cells, Splice(o, k, c))
    requires h.ind == if k == 0 then c else g.ind
    requires forall x :: 0 <= x < MAX_MSG ==> (h.cells[x].next != FREE_CELL <==> x == c || x in o)
    ensures Chained(h, Splice(o, k, c))
  {
    SpliceDistinct(o, k, c, MAX_MSG);
    SpliceAt(o, k, c, 0);
  }

  /** The relinked cells are the list with c put in at position k. */
  lemma RelinkedChain(g: Segment, o: seq<int>, k: nat, c: nat, j: int, h: Segment)
    requires Shape(g) && Chained(g, o) && k <= |o| && c < MAX_MSG && c !in o
    requires Shape(h) && h.cells == Relinked(g.cells, o, k, c, j) && h.ind == if k == 0 then c else g.ind
    ensures Chained(h, Splice(o, k, c))
    ensures Slots(h, Splice(o, k, c)) == Splice(Slots(g, o), k, j)
  {
    RelinkedLinks(g.cells, o, k, c, j);
    RelinkedFree(g.cells, o, k, c, j);
    ChainedAgain(g, o, k, c, h);
    RelinkedSlots(g, o, k, c, j, h);
  }

  lemma RelinkedSlots(g: Segment, o: seq<int>, k: nat, c: nat, j: int, h: Segment)
    requires Shape(g) && Within(o, MAX_MSG) && k <= |o| && c < MAX_MSG && c !in o
    requires Shape(h) && h.cells == Relinked(g.cells, o, k, c, j) && Within(Splice(o, k, c), MAX_MSG)
    ensures Slots(h, Splice(o, k, c)) == Splice(Slots(g, o), k, j)
  {
    forall i | 0 <= i < |o| + 1
      ensures Slots(h, Splice(o, k, c))[i] == Splice(Slots(g, o), k, j)[i]
    {
      RelinkedTargets(g.cells, o, k, c, j, i);
    }
  }

  /**
   * The critical section of mq_send keeps the representation invariant, whatever branch the priority takes,
   * and inserts the message into the atomic queue.
   */
  lemma SendRefines(g: Segment, m: Message)
    requires Sendable(g, m)
    ensures WellFormed(Sent(g, m))
    ensures Contents(Sent(g, m)) == Insert(Contents(g), Taken(g, m))
    ensures Taken(g, m).prio == m.prio && Delivers(Taken(g, m).body, m.s, m.len)
  {
    RoomFound(g);
    var o, j, c, k := Order(g), FreeSlot(Prepared(g), 0), FreeCell(g.cells, 0), Place(Contents(g), m.prio);
    var h, p, e := Sent(g, m), Splice(o, k, c), Taken(g, m);
    CopyDelivers(Prepared(g)[j].data, m.s, m.len);
    SentSlots(g, m);
    RelinkedChain(g, o, k, c, j, h);
    SpliceDistinct(Slots(g, o), k, j, MAX_MSG);
    assert Assigned(h, p);
    SentListed(g, o, k, j, h, p, e);
    InsertKeepsSorted(Contents(g), e);
    OrderUnique(h, p);
  }

  lemma SentListed(g: Segment, o: seq<int>, k: nat, j: int, h: Segment, p: seq<int>, e: Entry<string>)
    requires Shape(g) && Within(o, MAX_MSG) && Within(Slots(g, o), MAX_MSG)
    requires Shape(h) && Within(p, MAX_MSG) && Within(Slots(h, p), MAX_MSG)
    requires k <= |o| && 0 <= j < MAX_MSG && Slots(h, p) == Splice(Slots(g, o), k, j)
    requires forall x :: x in Slots(g, o) ==> h.slots[x] == g.slots[x]
    requires SlotEntry(h.slots[j]) == e && Place(Listed(g, o), e.prio) == k
    ensures Listed(h, p) == Insert(Listed(g, o), e)
  {
    var r := Insert(Listed(g, o), e);
    forall i | 0 <= i < |p| ensures Listed(h, p)[i] == r[i] {
      var x := Slots(h, p)[i];
      assert x == if i < k then Slots(g, o)[i] else if i == k then j else Slots(g, o)[i - 1];
      assert i != k ==> x in Slots(g, o);
    }
  }

  lemma PreparedKept(g: Segment, m: seq<int>)
    requires Shape(g) && forall j :: 0 <= j < MAX_MSG ==> (InUse(g, j) <==> j in m)
    requires Within(m, MAX_MSG)
    ensures forall x :: 0 <= x < MAX_MSG ==> Prepared(g)[x].data == g.slots[x].data
    ensures forall x :: x in m ==> 0 <= x < MAX_MSG && Prepared(g)[x] == g.slots[x]
    ensures forall x :: 0 <= x < MAX_MSG ==> (Prepared(g)[x].length != FREE_SLOT <==> x in m)
  {
    assert forall x :: x in m ==> InUse(g, x);
    assert forall x :: 0 <= x < MAX_MSG ==> (Prepared(g)[x].length != FREE_SLOT <==> InUse(g, x));
  }

  /** The slots in use are not touched by the preparation and the copy; the chosen slot comes into use. */
  lemma SentSlots(g: Segment, m: Message)
    requires Sendable(g, m)
    ensures Shape(Sent(g, m))
    ensures forall x :: x in Slots(g, Order(g)) ==> 0 <= x < MAX_MSG && Sent(g, m).slots[x] == g.slots[x]
    ensures forall x :: 0 <= x < MAX_MSG ==>
              (InUse(Sent(g, m), x) <==> x == FreeSlot(Prepared(g), 0) || x in Slots(g, Order(g)))
  {
    RoomFound(g);
    PreparedKept(g, Slots(g, Order(g)));
    var j, h := FreeSlot(Prepared(g), 0), Sent(g, m);
    assert h.slots == Prepared(g)[j := Written(Prepared(g)[j], m)];
  }

  // ----- the critical section of mq_receive -----

  /** The segment after the critical section of mq_receive: the head's slot and cell are free. */
  ghost function Received(g: Segment): Segment
    requires WellFormed(g) && Order(g) != []
  {
    var c := g.ind;
    var j := Slots(g, Order(g))[0];
    Segment(g.slots[j := g.slots[j].(length := FREE_SLOT)],
            g.cells[c := g.cells[c].(next := FREE_CELL)],
            g.cells[c].next,
            g.init)
  }

  /** The critical section of mq_receive keeps the representation invariant and removes the head of the atomic queue. */
  lemma ReceiveRefines(g: Segment)
    requires WellFormed(g) && Order(g) != []
    ensures WellFormed(Received(g))
    ensures Contents(Received(g)) == Contents(g)[1..]
    ensures SlotEntry(g.slots[g.cells[g.ind].msg]) == Contents(g)[0]
  {
    var o, h := Order(g), Received(g);
    ReceivedChain(g);
    ReceivedSlots(g, o, h);
    ReceivedListed(g);
    OrderUnique(h, o[1..]);
  }

  lemma ReceivedChain(g: Segment)
    requires WellFormed(g) && Order(g) != []
    ensures Chained(Received(g), Order(g)[1..])
  {
    var o, h := Order(g), Received(g);
    var p := o[1..];
    assert forall k :: 0 <= k < |p| ==> p[k] == o[k + 1];
    assert forall x :: x in o <==> x == o[0] || x in p;
    forall k | 0 <= k < |p| ensures h.cells[p[k]].next == At(p, k + 1) {
      assert o[k + 1] != o[0];
    }
    assert g.cells[o[0]].next == At(o, 1) == At(p, 0);
  }

  lemma ReceivedSlots(g: Segment, o: seq<int>, h: Segment)
    requires Shape(g) && Within(o, MAX_MSG) && o != [] && Distinct(o) && Assigned(g, o)
    requires Shape(h) && h.init == g.init && h.cells == g.cells[o[0] := g.cells[o[0]].(next := FREE_CELL)]
    requires var j := Slots(g, o)[0]; h.slots == g.slots[j := g.slots[j].(length := FREE_SLOT)]
    ensures Within(o[1..], MAX_MSG) && Assigned(h, o[1..]) && Slots(h, o[1..]) == Slots(g, o)[1..]
  {
    TailDistinct(o, MAX_MSG);
    var m := Slots(g, o);
    TailDistinct(m, MAX_MSG);
    assert Slots(h, o[1..]) == m[1..];
    forall j | 0 <= j < MAX_MSG ensures InUse(h, j) <==> j in m[1..] {
      assert InUse(g, j) <==> j in m;
    }
  }

  lemma TailDistinct(m: seq<int>, n: nat)
    requires m != [] && Distinct(m) && Within(m, n)
    ensures Distinct(m[1..]) && Within(m[1..], n)
    ensures forall x :: x in m[1..] <==> x in m && x != m[0]
  {
    assert forall k :: 0 < k < |m| ==> m[k] != m[0];
    assert m == [m[0]] + m[1..];
  }

  lemma ReceivedListed(g: Segment)
    requires WellFormed(g) && Order(g) != []
    requires var h, p := Received(g), Order(g)[1..];
             && Shape(h) && Within(p, MAX_MSG) && Within(Slots(h, p), MAX_MSG)
             && Slots(h, p) == Slots(g, Order(g))[1..]
    ensures Listed(Received(g), Order(g)[1..]) == Contents(g)[1..]
  {
    var h, p, m := Received(g), Order(g)[1..], Slots(g, Order(g));
    forall i | 0 <= i < |p| ensures Listed(h, p)[i] == Contents(g)[i + 1] {
      assert m[i + 1] != m[0];
    }
  }

  /** mq_open: every cell is free, the list is empty, the slots hold anything. */
  ghost predicate Opened(g: Segment) {
    && Shape(g) && g.ind == END && g.init == 0
    && forall c :: 0 <= c < MAX_MSG ==> g.cells[c].next == FREE_CELL
  }

  lemma OpenedEmpty(g: Segment)
    requires Opened(g)
    ensures WellFormed(g) && Contents(g) == []
  {
    assert Chained(g, []);
    OrderUnique(g, []);
  }

  // ----- sequential use: fill the queue, then drain it -----

  /** The segment after the critical sections of a sequence of sends. */
  ghost function SentAll(g: Segment, ms: seq<Message>): (h: Segment)
    requires WellFormed(g) && |Order(g)| + |ms| <= MAX_MSG
    requires forall m :: m in ms ==> m.len <= MAX_SIZ_MSG
    ensures WellFormed(h) && |Order(h)| == |Order(g)| + |ms|
  {
    if ms == [] then g
    else
      var h := SentAll(g, ms[..|ms| - 1]);
      SendRefines(h, ms[|ms| - 1]);
      assert |Contents(Sent(h, ms[|ms| - 1]))| == |Contents(h)| + 1;
      Sent(h, ms[|ms| - 1])
  }

  /** What a sequence of receives returns until the queue is empty. */
  ghost function Drained(g: Segment): seq<Entry<string>>
    requires WellFormed(g)
    decreases |Order(g)|
  {
    if Order(g) == [] then []
    else
      ReceiveRefines(g);
      assert |Contents(Received(g))| == |Contents(g)| - 1;
      [SlotEntry(g.slots[g.cells[g.ind].msg])] + Drained(Received(g))
  }

  lemma {:induction false} DrainedContents(g: Segment)
    requires WellFormed(g)
    ensures Drained(g) == Contents(g)
    decreases |Order(g)|
  {
    if Order(g) != [] {
      ReceiveRefines(g);
      assert |Contents(Received(g))| == |Contents(g)| - 1;
      DrainedContents(Received(g));
    }
  }

  function MessageEntry(m: Message): Entry<string> {
    Entry(CString(m.s), m.prio)
  }

  function MessageEntries(ms: seq<Message>): (es: seq<Entry<string>>)
    ensures |es| == |ms|
  {
    seq(|ms|, k requires 0 <= k < |ms| => MessageEntry(ms[k]))
  }

  lemma ContentsSize(g: Segment)
    requires WellFormed(g)
    ensures |Order(g)| == |Contents(g)|
  {
  }

  lemma SendTerminated(g: Segment, m: Message)
    requires Sendable(g, m) && Terminated(m.s, m.len)
    ensures WellFormed(Sent(g, m)) && Contents(Sent(g, m)) == Insert(Contents(g), MessageEntry(m))
  {
    SendRefines(g, m);
  }

  lemma SentAllStep(g: Segment, ms: seq<Message>)
    requires WellFormed(g) && |Order(g)| + |ms| <= MAX_MSG
    requires forall m :: m in ms ==> m.len <= MAX_SIZ_MSG
    ensures ms == [] ==> SentAll(g, ms) == g
    ensures ms != [] ==>
              var h, m := SentAll(g, ms[..|ms| - 1]), ms[|ms| - 1];
              Sendable(h, m) && SentAll(g, ms) == Sent(h, m)
  {
    hide Sent, Order, Contents, Linked;
  }

  lemma {:induction false} SentAllContents(g: Segment, ms: seq<Message>)
    requires WellFormed(g) && |Order(g)| == 0 && Contents(g) == [] && |ms| <= MAX_MSG
    requires forall m :: m in ms ==> m.len <= MAX_SIZ_MSG && Terminated(m.s, m.len)
    ensures Contents(SentAll(g, ms)) == InsertAll(MessageEntries(ms))
  {
    hide SentAll, Sent, WellFormed, Order, Contents, Insert, Terminated, MessageEntry, Sendable;
    SentAllStep(g, ms);
    if ms != [] {
      var n := |ms| - 1;
      SentAllContents(g, ms[..n]);
      assert ms[n] in ms;
      SendTerminated(SentAll(g, ms[..n]), ms[n]);
      assert MessageEntries(ms)[..n] == MessageEntries(ms[..n]);
    }
  }

  /** After any sequence of terminated sends to an empty queue, the receives return InsertAll of the messages. */
  lemma SendsThenReceives(g: Segment, ms: seq<Message>)
    requires WellFormed(g) && Contents(g) == [] && |ms| <= MAX_MSG
    requires forall m :: m in ms ==> m.len <= MAX_SIZ_MSG && Terminated(m.s, m.len)
    ensures |Order(g)| == 0
    ensures Drained(SentAll(g, ms)) == InsertAll(MessageEntries(ms))
  {
    ContentsSize(g);
    SentAllContents(g, ms);
    DrainedContents(SentAll(g, ms));
  }
}
