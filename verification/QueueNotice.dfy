/** One-shot notification: who is subscribed, for which signal, and the counter of readers that gates it. */
module QueueNotice {

  const NO_SIGNAL := -1

  datatype Option<T> = None | Some(value: T)

  datatype Kind = Signalled | Silent | OtherKind

  datatype SigEvent = SigEvent(kind: Kind, signo: int)

  /** The subscriber's process id (0: nobody), the signal (-1: none) and nb_blocked_readers. */
  datatype Notice = Notice(subscriber: int, sig: int, readers: int)

  /** EXIT_SUCCESS, a return of -1, or the dereference of a null event. */
  datatype Outcome = Success | Failure | NullDereference

  datatype Kill = Kill(pid: int, sig: int)

  function Notified(n: Notice, pid: int, event: Option<SigEvent>): (Notice, Outcome) {
    match event
    case None =>
      if n.subscriber != 0 then (Notice(0, NO_SIGNAL, n.readers), Success) else (n, NullDereference)
    case Some(e) =>
      match e.kind
      case OtherKind => (n, Failure)
      case Silent => (n.(subscriber := pid), Success)
      case Signalled => (n.(subscriber := pid, sig := e.signo), Success)
  }

  /** The test before a send leaves its critical section. */
  predicate Fires(n: Notice, wasEmpty: bool) {
    wasEmpty && n.sig != NO_SIGNAL && 0 <= n.readers
  }

  /** A signal on record has a subscriber. */
  predicate Consistent(n: Notice) {
    n.sig != NO_SIGNAL ==> n.subscriber != 0
  }

  /** The notification part of a send: at most one signal, after which the registration is gone. */
  function AfterInsert(n: Notice, wasEmpty: bool): Notice {
    if Fires(n, wasEmpty) then Notified(n, 0, None).0 else n
  }

  /** The unsubscription after a signal never dereferences its null event, and leaves nobody subscribed. */
  lemma UnsubscribesAfterSignal(n: Notice, wasEmpty: bool)
    requires Consistent(n)
    ensures Fires(n, wasEmpty) ==> Notified(n, 0, None) == (Notice(0, NO_SIGNAL, n.readers), Success)
    ensures Consistent(AfterInsert(n, wasEmpty))
    ensures !Fires(AfterInsert(n, wasEmpty), true) || !Fires(n, wasEmpty)
  {
  }

  lemma SubscriptionConsistent(n: Notice, pid: int, event: Option<SigEvent>)
    requires Consistent(n) && pid != 0
    ensures Consistent(Notified(n, pid, event).0)
  {
  }
}
