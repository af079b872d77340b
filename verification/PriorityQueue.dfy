/**
 * The atomic priority queue that the shared-memory queue implements, and the order in which it is drained.
 * A new entry goes in front of the first entry whose priority is not greater than its own.
 */
module PriorityQueue {

  datatype Entry<T> = Entry(body: T, prio: nat)

  type Stamped<T> = Entry<(T, nat)>

  /** The position at which an entry of priority p is inserted. */
  function Place<T>(q: seq<Entry<T>>, p: nat): (k: nat)
    ensures k <= |q|
    ensures forall j :: 0 <= j < k ==> q[j].prio > p
    ensures k < |q| ==> q[k].prio <= p
  {
    if q == [] || q[0].prio <= p then 0 else 1 + Place(q[1..], p)
  }

  function Insert<T>(q: seq<Entry<T>>, e: Entry<T>): seq<Entry<T>> {
    var k := Place(q, e.prio);
    q[..k] + [e] + q[k..]
  }

  lemma {:induction false} PlaceUnique<T>(q: seq<Entry<T>>, p: nat, k: nat)
    requires k <= |q|
    requires forall j :: 0 <= j < k ==> q[j].prio > p
    requires k < |q| ==> q[k].prio <= p
    ensures Place(q, p) == k
  {
    if k > 0 {
      PlaceUnique(q[1..], p, k - 1);
    }
  }

  ghost predicate Sorted<T>(q: seq<Entry<T>>) {
    forall i, j :: 0 <= i < j < |q| ==> q[i].prio >= q[j].prio
  }

  /** The queue after a sequence of sends to an empty queue. */
  function InsertAll<T>(es: seq<Entry<T>>): (q: seq<Entry<T>>)
    ensures |q| == |es|
  {
    if es == [] then [] else Insert(InsertAll(es[..|es| - 1]), es[|es| - 1])
  }

  /** The order that POSIX asks for: a new entry goes behind the entries of its own priority. */
  function PlaceFifo<T>(q: seq<Entry<T>>, p: nat): (k: nat)
    ensures k <= |q|
    ensures forall j :: 0 <= j < k ==> q[j].prio >= p
    ensures k < |q| ==> q[k].prio < p
  {
    if q == [] || q[0].prio < p then 0 else 1 + PlaceFifo(q[1..], p)
  }

  function InsertFifo<T>(q: seq<Entry<T>>, e: Entry<T>): seq<Entry<T>> {
    var k := PlaceFifo(q, e.prio);
    q[..k] + [e] + q[k..]
  }

  function InsertAllFifo<T>(es: seq<Entry<T>>): (q: seq<Entry<T>>)
    ensures |q| == |es|
  {
    if es == [] then [] else InsertFifo(InsertAllFifo(es[..|es| - 1]), es[|es| - 1])
  }

  /** Entries stamped with the moment at which they were sent. */
  function Stamp<T>(es: seq<Entry<T>>): (r: seq<Stamped<T>>)
    ensures |r| == |es|
  {
    seq(|es|, k requires 0 <= k < |es| => Entry((es[k].body, k), es[k].prio))
  }

  function Erase<T>(q: seq<Stamped<T>>): (r: seq<Entry<T>>)
    ensures |r| == |q|
  {
    seq(|q|, k requires 0 <= k < |q| => Entry(q[k].body.0, q[k].prio))
  }

  /** Greater priority first; among equal priorities, the latest sent first. */
  ghost predicate Newest<T>(a: Stamped<T>, b: Stamped<T>) {
    a.prio > b.prio || (a.prio == b.prio && a.body.1 > b.body.1)
  }

  /** Greater priority first; among equal priorities, the earliest sent first. */
  ghost predicate Oldest<T>(a: Stamped<T>, b: Stamped<T>) {
    a.prio > b.prio || (a.prio == b.prio && a.body.1 < b.body.1)
  }

  ghost predicate Ordered<E>(q: seq<E>, before: (E, E) -> bool) {
    forall i, j :: 0 <= i < j < |q| ==> before(q[i], q[j])
  }

  lemma InsertKeepsSorted<T>(q: seq<Entry<T>>, e: Entry<T>)
    requires Sorted(q)
    ensures Sorted(Insert(q, e))
  {
    var k, r := Place(q, e.prio), Insert(q, e);
    forall i, j | 0 <= i < j < |r| ensures r[i].prio >= r[j].prio {
      assert r[i] == if i < k then q[i] else if i == k then e else q[i - 1];
      assert r[j] == if j < k then q[j] else if j == k then e else q[j - 1];
    }
  }

  lemma SpliceEntries<E>(q: seq<E>, k: nat, e: E)
    requires k <= |q|
    ensures multiset(q[..k] + [e] + q[k..]) == multiset(q) + multiset{e}
  {
    assert q == q[..k] + q[k..];
  }

  ghost predicate Asymmetric<E(!new)>(before: (E, E) -> bool) {
    forall x, y :: !(before(x, y) && before(y, x))
  }

  lemma OrderedHead<E(!new)>(a: seq<E>, b: seq<E>, before: (E, E) -> bool)
    requires a != [] && b != [] && a[0] in b && b[0] in a
    requires Ordered(a, before) && Ordered(b, before) && Asymmetric(before)
    ensures a[0] == b[0]
    ensures a[0] !in a[1..]
  {
    var x, y := a[0], b[0];
    var i :| 0 <= i < |a| && a[i] == y;
    var j :| 0 <= j < |b| && b[j] == x;
    assert i > 0 ==> before(x, y);
    assert j > 0 ==> before(y, x);
    assert forall k :: 0 < k < |a| ==> before(x, a[k]);
  }

  /** Two sequences of the same entries, both in one strict order, are the same sequence. */
  lemma {:induction false} OrderedUnique<E(!new)>(a: seq<E>, b: seq<E>, before: (E, E) -> bool)
    requires |a| == |b| && forall x :: x in a <==> x in b
    requires Ordered(a, before) && Ordered(b, before) && Asymmetric(before)
    ensures a == b
  {
    if a != [] {
      assert a[0] in b;
      OrderedHead(a, b, before);
      OrderedHead(b, a, before);
      TailEntries(a, b);
      OrderedUnique(a[1..], b[1..], before);
      assert a == [a[0]] + a[1..] && b == [a[0]] + b[1..];
    }
  }

  lemma TailEntries<E>(a: seq<E>, b: seq<E>)
    requires a != [] && b != [] && a[0] == b[0] && a[0] !in a[1..] && b[0] !in b[1..]
    requires forall x :: x in a <==> x in b
    ensures forall x :: x in a[1..] <==> x in b[1..]
  {
    forall x ensures x in a[1..] <==> x in b[1..] {
      assert x in a <==> x == a[0] || x in a[1..];
      assert x in b <==> x == b[0] || x in b[1..];
    }
  }

  lemma StampPrefix<T>(es: seq<Entry<T>>)
    requires es != []
    ensures Stamp(es)[..|es| - 1] == Stamp(es[..|es| - 1])
  {
  }

  lemma EraseInsert<T>(q: seq<Stamped<T>>, e: Stamped<T>)
    ensures Erase(Insert(q, e)) == Insert(Erase(q), Entry(e.body.0, e.prio))
  {
    var k := Place(q, e.prio);
    PlaceUnique(Erase(q), e.prio, k);
    var r, t := Erase(Insert(q, e)), Insert(Erase(q), Entry(e.body.0, e.prio));
    forall i | 0 <= i < |r| ensures r[i] == t[i] {
      assert Insert(q, e)[i] == if i < k then q[i] else if i == k then e else q[i - 1];
    }
  }

  /** Nothing is lost or made up: the queue holds the messages sent, as a multiset. */
  lemma {:induction false} DrainingEntries<T>(es: seq<Entry<T>>)
    ensures multiset(InsertAll(es)) == multiset(es)
  {
    if es != [] {
      var n := |es| - 1;
      DrainingEntries(es[..n]);
      var q := InsertAll(es[..n]);
      SpliceEntries(q, Place(q, es[n].prio), es[n]);
      assert es == es[..n] + [es[n]];
    }
  }

  lemma {:induction false} FifoEntries<T>(es: seq<Entry<T>>)
    ensures multiset(InsertAllFifo(es)) == multiset(es)
  {
    if es != [] {
      var n := |es| - 1;
      FifoEntries(es[..n]);
      var q := InsertAllFifo(es[..n]);
      SpliceEntries(q, PlaceFifo(q, es[n].prio), es[n]);
      assert es == es[..n] + [es[n]];
    }
  }

  lemma {:induction false} DrainingErased<T>(es: seq<Entry<T>>)
    ensures Erase(InsertAll(Stamp(es))) == InsertAll(es)
  {
    if es != [] {
      var n := |es| - 1;
      StampPrefix(es);
      DrainingErased(es[..n]);
      EraseInsert(InsertAll(Stamp(es[..n])), Stamp(es)[n]);
    }
  }

  /**
   * Draining order: the queue after any sequence of sends holds exactly the messages sent, greater priority
   * first and, among equal priorities, the latest sent first. OrderedUnique makes this order the only one.
   */
  lemma {:induction false} DrainingOrder<T>(es: seq<Entry<T>>)
    ensures Erase(InsertAll(Stamp(es))) == InsertAll(es)
    ensures multiset(InsertAll(Stamp(es))) == multiset(Stamp(es))
    ensures Ordered(InsertAll(Stamp(es)), Newest)
  {
    DrainingErased(es);
    DrainingEntries(Stamp(es));
    if es != [] {
      var n := |es| - 1;
      StampPrefix(es);
      DrainingOrder(es[..n]);
      StampsBelow(InsertAll(Stamp(es[..n])), es[..n]);
      InsertNewest(InsertAll(Stamp(es[..n])), Stamp(es)[n]);
    }
  }

  lemma StampsBelow<T>(q: seq<Stamped<T>>, es: seq<Entry<T>>)
    requires multiset(q) == multiset(Stamp(es))
    ensures forall x :: x in q ==> x.body.1 < |es| && x == Stamp(es)[x.body.1]
    ensures forall x :: x in q <==> x in Stamp(es)
  {
    forall x | x in q ensures x.body.1 < |es| && x == Stamp(es)[x.body.1] {
      assert x in multiset(Stamp(es));
      var k :| 0 <= k < |es| && Stamp(es)[k] == x;
    }
    assert forall x :: x in q <==> x in multiset(q);
    assert forall x :: x in Stamp(es) <==> x in multiset(Stamp(es));
  }

  lemma InsertNewest<T>(q: seq<Stamped<T>>, e: Stamped<T>)
    requires Ordered(q, Newest)
    requires forall x :: x in q ==> x.body.1 < e.body.1
    ensures Ordered(Insert(q, e), Newest)
  {
    var k := Place(q, e.prio);
    assert forall i, j :: 0 <= i < j < |q| ==> Newest(q[i], q[j]);
    assert forall j :: k < j < |q| ==> Newest(q[k], q[j]);
    assert forall j :: k <= j < |q| ==> q[j].prio <= e.prio;
    assert forall j :: 0 <= j < |q| ==> q[j] in q;
    SpliceOrdered(q, k, e, Newest);
  }

  lemma InsertOldest<T>(q: seq<Stamped<T>>, e: Stamped<T>)
    requires Ordered(q, Oldest)
    requires forall x :: x in q ==> x.body.1 < e.body.1
    ensures Ordered(InsertFifo(q, e), Oldest)
  {
    var k := PlaceFifo(q, e.prio);
    assert forall i, j :: 0 <= i < j < |q| ==> Oldest(q[i], q[j]);
    assert forall j :: k < j < |q| ==> Oldest(q[k], q[j]);
    assert forall j :: k <= j < |q| ==> q[j].prio < e.prio;
    assert forall j :: 0 <= j < |q| ==> q[j] in q;
    assert forall j :: 0 <= j < k ==> Oldest(q[j], e);
    SpliceOrdered(q, k, e, Oldest);
  }

  /** An element that fits between its neighbours keeps a sequence ordered. */
  lemma SpliceOrdered<E>(q: seq<E>, k: nat, e: E, before: (E, E) -> bool)
    requires k <= |q| && Ordered(q, before)
    requires forall j :: 0 <= j < k ==> before(q[j], e)
    requires forall j :: k <= j < |q| ==> before(e, q[j])
    ensures Ordered(q[..k] + [e] + q[k..], before)
  {
    var r := q[..k] + [e] + q[k..];
    forall i, j | 0 <= i < j < |r| ensures before(r[i], r[j]) {
      assert r[i] == if i < k then q[i] else if i == k then e else q[i - 1];
      assert r[j] == if j < k then q[j] else if j == k then e else q[j - 1];
    }
  }

  lemma {:induction false} FifoOrder<T>(es: seq<Entry<T>>)
    ensures Ordered(InsertAllFifo(Stamp(es)), Oldest)
  {
    if es != [] {
      var n := |es| - 1;
      StampPrefix(es);
      FifoOrder(es[..n]);
      FifoEntries(Stamp(es[..n]));
      StampsBelow(InsertAllFifo(Stamp(es[..n])), es[..n]);
      InsertOldest(InsertAllFifo(Stamp(es[..n])), Stamp(es)[n]);
    }
  }

  ghost predicate DistinctPriorities<T>(es: seq<Entry<T>>) {
    forall i, j :: 0 <= i < j < |es| ==> es[i].prio != es[j].prio
  }

  lemma OrdersAgree<T(!new)>(q: seq<Stamped<T>>, f: seq<Stamped<T>>, es: seq<Entry<T>>)
    requires Ordered(q, Newest) && Ordered(f, Oldest) && DistinctPriorities(es)
    requires |q| == |f| && multiset(q) == multiset(Stamp(es)) == multiset(f)
    ensures q == f
  {
    StampsBelow(q, es);
    StampsBelow(f, es);
    forall i, j | 0 <= i < j < |f| ensures Newest(f[i], f[j]) {
      var x, y := f[i], f[j];
      assert Oldest(x, y) && x in f && y in f;
      assert x.prio == es[x.body.1].prio && y.prio == es[y.body.1].prio;
    }
    assert Ordered(f, Newest);
    OrderedUnique(q, f, Newest);
  }

  lemma OrdersDiffer<T>(q: seq<Stamped<T>>, f: seq<Stamped<T>>, es: seq<Entry<T>>, i: nat, j: nat)
    requires Ordered(q, Newest) && Ordered(f, Oldest)
    requires multiset(q) == multiset(Stamp(es))
    requires i < j < |es| && es[i].prio == es[j].prio
    ensures q != f
  {
    StampsBelow(q, es);
    var x, y := Stamp(es)[i], Stamp(es)[j];
    assert x in q && y in q;
    var a :| 0 <= a < |q| && q[a] == x;
    var b :| 0 <= b < |q| && q[b] == y;
    assert Newest(y, x) && !Newest(x, y) && !Oldest(y, x);
    assert b < a;
    assert q == f ==> Oldest(y, x);
  }

  /** A queue that is filled and then drained keeps POSIX order exactly when no two of the messages share a priority. */
  lemma FifoDrainExactly<T(!new)>(es: seq<Entry<T>>)
    ensures InsertAll(Stamp(es)) == InsertAllFifo(Stamp(es)) <==> DistinctPriorities(es)
  {
    DrainingOrder(es);
    FifoOrder(es);
    FifoEntries(Stamp(es));
    if DistinctPriorities(es) {
      OrdersAgree(InsertAll(Stamp(es)), InsertAllFifo(Stamp(es)), es);
    } else {
      var i, j :| 0 <= i < j < |es| && es[i].prio == es[j].prio;
      OrdersDiffer(InsertAll(Stamp(es)), InsertAllFifo(Stamp(es)), es, i, j);
    }
  }

  // ----- sends and receives in any order -----

  datatype Op<T> = Send(e: Entry<T>) | Receive

  function Tail<E>(q: seq<E>): seq<E> {
    if q == [] then [] else q[1..]
  }

  /** The code's queue after a sequence of operations; entries are stamped with the position of their send. */
  function After<T>(ops: seq<Op<T>>): seq<Stamped<T>> {
    if ops == [] then []
    else
      var n := |ops| - 1;
      match ops[n]
      case Send(e) => Insert(After(ops[..n]), Entry((e.body, n), e.prio))
      case Receive => Tail(After(ops[..n]))
  }

  /** The queue that POSIX asks for after a sequence of operations. */
  function AfterFifo<T>(ops: seq<Op<T>>): seq<Stamped<T>> {
    if ops == [] then []
    else
      var n := |ops| - 1;
      match ops[n]
      case Send(e) => InsertFifo(AfterFifo(ops[..n]), Entry((e.body, n), e.prio))
      case Receive => Tail(AfterFifo(ops[..n]))
  }

  /** The two queues agree after every operation. */
  ghost predicate FifoThroughout<T(!new)>(ops: seq<Op<T>>) {
    forall n :: 0 <= n <= |ops| ==> After(ops[..n]) == AfterFifo(ops[..n])
  }

  ghost predicate NoneAt<T>(q: seq<Entry<T>>, p: nat) {
    forall i :: 0 <= i < |q| ==> q[i].prio != p
  }

  /** Every send finds no entry of its own priority in the queue. */
  ghost predicate NoTies<T(!new)>(ops: seq<Op<T>>) {
    forall n :: 0 <= n < |ops| && ops[n].Send? ==> NoneAt(After(ops[..n]), ops[n].e.prio)
  }

  /** Inserting a new entry the code's way and the POSIX way is the same exactly when no entry has its priority. */
  lemma InsertFifoExactly<T>(q: seq<Entry<T>>, e: Entry<T>)
    requires Sorted(q) && e !in q
    ensures Insert(q, e) == InsertFifo(q, e) <==> NoneAt(q, e.prio)
  {
    var k, f := Place(q, e.prio), PlaceFifo(q, e.prio);
    if NoneAt(q, e.prio) {
      PlaceUnique(q, e.prio, f);
    } else {
      var j :| 0 <= j < |q| && q[j].prio == e.prio;
      assert k <= j < f;
      assert InsertFifo(q, e)[k] == q[k] && Insert(q, e)[k] == e;
    }
  }

  lemma {:induction false} AfterSorted<T>(ops: seq<Op<T>>)
    ensures Sorted(After(ops)) && forall x :: x in After(ops) ==> x.body.1 < |ops|
  {
    if ops != [] {
      var n := |ops| - 1;
      AfterSorted(ops[..n]);
      var q := After(ops[..n]);
      if ops[n].Send? {
        var e := Entry((ops[n].e.body, n), ops[n].e.prio);
        InsertKeepsSorted(q, e);
        assert forall x :: x in Insert(q, e) ==> x == e || x in q;
      }
    }
  }

  lemma PrefixOps<T>(ops: seq<Op<T>>, n: nat)
    requires n < |ops|
    ensures ops[..n + 1][..n] == ops[..n]
    ensures After(ops[..n + 1]) ==
            if ops[n].Send? then Insert(After(ops[..n]), Entry((ops[n].e.body, n), ops[n].e.prio)) else Tail(After(ops[..n]))
    ensures AfterFifo(ops[..n + 1]) ==
            if ops[n].Send? then InsertFifo(AfterFifo(ops[..n]), Entry((ops[n].e.body, n), ops[n].e.prio))
            else Tail(AfterFifo(ops[..n]))
  {
    assert ops[..n + 1][..n] == ops[..n];
  }

  lemma StampIsNew<T>(ops: seq<Op<T>>, n: nat)
    requires n < |ops| && ops[n].Send?
    ensures var q, e := After(ops[..n]), Entry((ops[n].e.body, n), ops[n].e.prio);
            Insert(q, e) == InsertFifo(q, e) <==> NoneAt(q, ops[n].e.prio)
  {
    AfterSorted(ops[..n]);
    InsertFifoExactly(After(ops[..n]), Entry((ops[n].e.body, n), ops[n].e.prio));
  }

  lemma {:induction false} NoTiesAgree<T(!new)>(ops: seq<Op<T>>, n: nat)
    requires NoTies(ops) && n <= |ops|
    ensures After(ops[..n]) == AfterFifo(ops[..n])
  {
    if n > 0 {
      NoTiesAgree(ops, n - 1);
      PrefixOps(ops, n - 1);
      if ops[n - 1].Send? {
        StampIsNew(ops, n - 1);
      }
    }
  }

  /**
   * With sends and receives in any order the code's queue is the POSIX queue throughout if and only if every send
   * finds no queued entry of its own priority.
   */
  lemma FifoExactly<T(!new)>(ops: seq<Op<T>>)
    ensures FifoThroughout(ops) <==> NoTies(ops)
  {
    if NoTies(ops) {
      forall n: nat | n <= |ops| ensures After(ops[..n]) == AfterFifo(ops[..n]) {
        NoTiesAgree(ops, n);
      }
    }
    if FifoThroughout(ops) {
      forall n: nat | n < |ops| && ops[n].Send? ensures NoneAt(After(ops[..n]), ops[n].e.prio) {
        PrefixOps(ops, n);
        StampIsNew(ops, n);
      }
    }
  }

  /** Two messages of one priority come out last-in first-out. */
  lemma EqualPrioritiesAreLifo()
    ensures InsertAll([Entry("first", 1), Entry("second", 1)]) == [Entry("second", 1), Entry("first", 1)]
  {
    var es := [Entry("first", 1), Entry("second", 1)];
    assert es[..1] == [Entry("first", 1)];
    assert es[..1][..0] == [];
    assert InsertAll(es[..1]) == [Entry("first", 1)];
  }
}
