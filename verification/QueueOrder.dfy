/**
 * The order of messages over whole runs of the queue system: when the queue of the code is the FIFO priority queue
 * that POSIX asks for.
 */
module QueueOrder {
  import opened CStrings
  import opened PriorityQueue
  import opened QueueSegment
  import opened QueueSystem

  /** op is the queue operation of action a. */
  predicate Performs(a: Action, op: Op<string>) {
    match a
    case Put(_, m) => op.Send? && op.e.prio == m.prio && Delivers(op.e.body, m.s, m.len)
    case Got(_, _) => op.Receive?
  }

  ghost predicate AllPerform(log: seq<Action>, ops: seq<Op<string>>) {
    |ops| == |log| && forall k :: 0 <= k < |log| ==> Performs(log[k], ops[k])
  }

  /** The queue after the first k operations. */
  function QueueAt(ops: seq<Op<string>>, k: nat): seq<Entry<string>>
    requires k <= |ops|
  {
    Erase(After(ops[..k]))
  }

  /** ops are the operations of the log, and qs the queues that they lead through. */
  ghost predicate Follows(log: seq<Action>, qs: seq<seq<Entry<string>>>, ops: seq<Op<string>>) {
    && AllPerform(log, ops) && |qs| == |log| + 1
    && forall k :: 0 <= k <= |log| ==> QueueAt(ops, k) == qs[k]
  }

  lemma AcceptedOp(q: seq<Stamped<string>>, a: Action, r: seq<Entry<string>>, n: nat) returns (op: Op<string>)
    requires Accepts(Erase(q), a, r)
    ensures Performs(a, op)
    ensures r == Erase(if op.Send? then Insert(q, Entry((op.e.body, n), op.e.prio)) else Tail(q))
  {
    match a
    case Put(_, m) =>
      var text :| Delivers(text, m.s, m.len) && r == Insert(Erase(q), Entry(text, m.prio));
      op := Send(Entry(text, m.prio));
      EraseInsert(q, Entry((text, n), m.prio));
    case Got(_, _) =>
      op := Receive;
  }

  lemma AfterOne(init: seq<Op<string>>, op: Op<string>)
    ensures After(init + [op]) ==
            if op.Send? then Insert(After(init), Entry((op.e.body, |init|), op.e.prio)) else Tail(After(init))
  {
    hide Insert, Tail;
    var ops := init + [op];
    assert ops[..|init|] == init && ops[|init|] == op;
  }

  lemma QueueBefore(init: seq<Op<string>>, op: Op<string>, k: nat)
    requires k <= |init|
    ensures QueueAt(init + [op], k) == QueueAt(init, k)
  {
    hide After, Erase;
    assert (init + [op])[..k] == init[..k];
  }

  lemma QueueOn(init: seq<Op<string>>, op: Op<string>)
    ensures QueueAt(init + [op], |init| + 1) ==
            Erase(if op.Send? then Insert(After(init), Entry((op.e.body, |init|), op.e.prio)) else Tail(After(init)))
  {
    AfterOne(init, op);
    hide After, Erase, Insert, Tail;
    assert (init + [op])[..|init| + 1] == init + [op];
  }

  lemma FollowsOn(log: seq<Action>, qs: seq<seq<Entry<string>>>, init: seq<Op<string>>, op: Op<string>)
    requires log != [] && |qs| == |log| + 1
    requires Follows(log[..|log| - 1], qs[..|log|], init) && Performs(log[|log| - 1], op)
    requires QueueAt(init + [op], |init| + 1) == qs[|log|]
    ensures Follows(log, qs, init + [op])
  {
    hide QueueAt, Performs;
    var n, ops := |log| - 1, init + [op];
    forall k | 0 <= k < |log| ensures Performs(log[k], ops[k]) {
      if k < n {
        assert Performs(log[..n][k], init[k]);
      }
    }
    forall k | 0 <= k <= |log| ensures QueueAt(ops, k) == qs[k] {
      if k <= n {
        QueueBefore(init, op, k);
        assert qs[..n + 1][k] == qs[k];
      }
    }
  }

  lemma {:induction false} ReplayOps(log: seq<Action>, qs: seq<seq<Entry<string>>>) returns (ops: seq<Op<string>>)
    requires |qs| == |log| + 1 && Replays(log, qs, qs[|log|])
    ensures Follows(log, qs, ops)
  {
    if log == [] {
      ops := [];
    } else {
      var n := |log| - 1;
      hide Accepts, Performs, Erase, After, Insert;
      assert Replays(log[..n], qs[..n + 1], qs[n]);
      var init := ReplayOps(log[..n], qs[..n + 1]);
      assert init[..n] == init && qs[n] == QueueAt(init, n);
      var op := AcceptedOp(After(init), log[n], qs[n + 1], n);
      QueueOn(init, op);
      hide Follows, QueueAt;
      FollowsOn(log, qs, init, op);
      ops := init + [op];
    }
  }

  /** Every message put in finds no queued message of its own priority. */
  ghost predicate NoTiesIn(log: seq<Action>, qs: seq<seq<Entry<string>>>)
    requires |qs| == |log| + 1
  {
    forall k :: 0 <= k < |log| && log[k].Put? ==> NoneAt(qs[k], log[k].m.prio)
  }

  lemma TiesAgree(log: seq<Action>, qs: seq<seq<Entry<string>>>, ops: seq<Op<string>>)
    requires Follows(log, qs, ops)
    ensures NoTies(ops) <==> NoTiesIn(log, qs)
  {
    forall k: nat | k < |log|
      ensures ops[k].Send? <==> log[k].Put?
      ensures ops[k].Send? ==> (NoneAt(After(ops[..k]), ops[k].e.prio) <==> NoneAt(qs[k], log[k].m.prio))
    {
      assert Performs(log[k], ops[k]);
      var q := After(ops[..k]);
      assert qs[k] == Erase(q);
      assert forall i :: 0 <= i < |q| ==> Erase(q)[i].prio == q[i].prio;
    }
  }

  /**
   * In every state of every run, whatever the interleaving: the queue has been the POSIX queue after every operation
   * if and only if every message put in found no queued message of its own priority.
   */
  lemma RunFifoExactly(r: seq<State>, k: nat) returns (qs: seq<seq<Entry<string>>>, ops: seq<Op<string>>)
    requires IsRun(r) && k < |r|
    ensures WellFormed(r[k].seg) && Replays(r[k].log, qs, Contents(r[k].seg)) && Follows(r[k].log, qs, ops)
    ensures FifoThroughout(ops) <==> NoTiesIn(r[k].log, qs)
  {
    hide WellFormed, Contents, Order, Locks, Tokens, Notices, Checked, Accepts, Performs, Follows, FifoThroughout, NoTies;
    RunInv(r, k);
    qs :| Replays(r[k].log, qs, Contents(r[k].seg));
    ops := ReplayOps(r[k].log, qs);
    TiesAgree(r[k].log, qs, ops);
    FifoExactly(ops);
  }
}
