/** The blocking queue in place: one pass through the critical section of each operation,
    with the notification it then owes. Every method does to the object what the section of
    the step machine does to its state. */
module BlockingQueue {
  import opened Results
  import opened BlockingMachine

  /** Whom the caller has to notify after the section. */
  datatype Wakeup = Nobody | OneConsumer | OneProducer | Everybody

  /** The notification owed by a thread in the step machine. */
  function Owed<T>(pc: Pc<T>): Wakeup {
    match pc
    case PushNotify(_) => OneConsumer
    case PopNotify(_, _) => OneProducer
    case CloseNotifyEmpty => Everybody
    case _ => Nobody
  }

  /** What the owed notification does in the step machine: `OneConsumer` means that exactly
      the waiting consumers are candidates of the `notify_one`, `OneProducer` that exactly the
      waiting producers are, and `Everybody` that two `notify_all` steps leave no waiter of
      either kind. A thread that owes nothing notifies nobody. */
  lemma OwedMeans<T>(s: State<T>, t: nat)
    requires t < |s.threads|
    ensures Owed(s.threads[t]) == OneConsumer <==>
              s.threads[t].PushNotify? && forall u: Pc<T> :: WaitsFor(s.threads[t], u) <==> u.PopWait?
    ensures Owed(s.threads[t]) == OneProducer <==>
              s.threads[t].PopNotify? && forall u: Pc<T> :: WaitsFor(s.threads[t], u) <==> u.PushWait?
    ensures Owed(s.threads[t]) == Everybody <==> s.threads[t].CloseNotifyEmpty?
    ensures Owed(s.threads[t]) == Everybody ==>
              forall s1, s2 :: DoNotifyAll(s, s1, t) && DoNotifyAll(s1, s2, t) ==>
                forall u :: 0 <= u < |s2.threads| ==> !s2.threads[u].PopWait? && !s2.threads[u].PushWait?
    ensures Owed(s.threads[t]) == Nobody ==>
              forall s' :: !DoNotifyOne(s, s', t, None) && forall u :: !DoNotifyOne(s, s', t, Some(u))
  {
  }

  class Queue<T> {
    const capacity: nat
    var queue: seq<T>
    var closed: bool
    ghost var accepted: seq<T>
    ghost var taken: seq<T>

    ghost predicate Valid()
      reads this
    {
      0 < capacity && |queue| <= capacity && accepted == taken + queue
    }

    /** The object as a machine state whose only thread is at `pc`, holding the mutex or not. */
    ghost function View(pc: Pc<T>, holds: bool): State<T>
      reads this
    {
      State(capacity, queue, closed, if holds then Some(0) else None, [pc], accepted, taken)
    }

    constructor (capacity: nat)
      requires 0 < capacity
      ensures Valid() && this.capacity == capacity && queue == [] && !closed && accepted == []
      ensures Init(View(Idle, false))
    {
      this.capacity := capacity;
      queue, closed, accepted, taken := [], false, [], [];
    }

    /** `push`; `None` means that the caller has to wait and nothing has changed. */
    method Push(item: T, ghost woken: bool) returns (r: Option<Status>, wakeup: Wakeup)
      requires Valid()
      modifies this`queue, this`accepted
      ensures Valid()
      ensures r == if closed then Some(Closed) else if |old(queue)| < capacity then Some(Success) else None
      ensures if r == Some(Success)
              then queue == old(queue) + [item] && accepted == old(accepted) + [item]
              else queue == old(queue) && accepted == old(accepted)
      ensures var next := match r
                          case None => PushWait(item)
                          case Some(Success) => PushNotify(true)
                          case Some(status) => Returned(PushAnswer(status));
              View(next, false) == Section(old(View(PushHold(item, true, woken), true)), 0) && wakeup == Owed(next)
      ensures wakeup == if r == Some(Success) then OneConsumer else Nobody
    {
      if !closed && |queue| >= capacity {
        return None, Nobody;
      }
      if closed {
        return Some(Closed), Nobody;
      }
      queue := queue + [item];
      accepted := accepted + [item];
      return Some(Success), OneConsumer;
    }

    /** `try_push`; a success notifies before the mutex is released. */
    method TryPush(item: T) returns (r: Status, wakeup: Wakeup)
      requires Valid()
      modifies this`queue, this`accepted
      ensures Valid()
      ensures r == if closed then Closed else if |old(queue)| == capacity then Full else Success
      ensures if r == Success
              then queue == old(queue) + [item] && accepted == old(accepted) + [item]
              else queue == old(queue) && accepted == old(accepted)
      ensures var next := if r == Success then PushNotify(false) else Returned(PushAnswer(r));
              && View(next, r == Success) == Section(old(View(PushHold(item, false, false), true)), 0)
              && wakeup == Owed(next)
      ensures wakeup == if r == Success then OneConsumer else Nobody
    {
      if closed {
        return Closed, Nobody;
      }
      if |queue| == capacity {
        return Full, Nobody;
      }
      queue := queue + [item];
      accepted := accepted + [item];
      return Success, OneConsumer;
    }

    /** `pop`; `None` means that the caller has to wait, `Some(None)` is `nullopt`. */
    method Pop(ghost woken: bool) returns (r: Option<Option<T>>, wakeup: Wakeup)
      requires Valid()
      modifies this`queue, this`taken
      ensures Valid()
      ensures old(queue) != [] ==>
                && r == Some(Some(old(queue)[0])) && queue == old(queue)[1..]
                && taken == old(taken) + [old(queue)[0]]
      ensures old(queue) == [] ==>
                && r == (if closed then Some(None) else None)
                && queue == [] && taken == old(taken)
      ensures r == Some(None) ==> closed && taken == accepted
      ensures var next := match r
                          case None => PopWait
                          case Some(None) => Returned(PopAnswer(None))
                          case Some(Some(item)) => PopNotify(item, true);
              View(next, false) == Section(old(View(PopHold(true, woken), true)), 0) && wakeup == Owed(next)
      ensures wakeup == if old(queue) != [] then OneProducer else Nobody
    {
      if !closed && queue == [] {
        return None, Nobody;
      }
      if queue == [] {
        return Some(None), Nobody;
      }
      var item := queue[0];
      assert accepted == taken + [item] + queue[1..];
      queue := queue[1..];
      taken := taken + [item];
      return Some(Some(item)), OneProducer;
    }

    /** `try_pop`; a success notifies before the mutex is released. */
    method TryPop() returns (r: Status, item: Option<T>, wakeup: Wakeup)
      requires Valid()
      modifies this`queue, this`taken
      ensures Valid()
      ensures old(queue) != [] ==>
                && r == Success && item == Some(old(queue)[0]) && queue == old(queue)[1..]
                && taken == old(taken) + [old(queue)[0]]
      ensures old(queue) == [] ==>
                && r == (if closed then Closed else Empty) && item == None
                && queue == [] && taken == old(taken)
      ensures var next := match item
                          case Some(x) => PopNotify(x, false)
                          case None => Returned(TryPopAnswer(r, None));
              && View(next, item.Some?) == Section(old(View(PopHold(false, false), true)), 0)
              && wakeup == Owed(next)
      ensures wakeup == if old(queue) != [] then OneProducer else Nobody
    {
      if queue == [] {
        return if closed then Closed else Empty, None, Nobody;
      }
      item := Some(queue[0]);
      assert accepted == taken + [queue[0]] + queue[1..];
      taken := taken + [queue[0]];
      queue := queue[1..];
      return Success, item, OneProducer;
    }

    /** Closing keeps what is queued and wakes everybody. */
    method Close() returns (wakeup: Wakeup)
      requires Valid()
      modifies this`closed
      ensures Valid() && closed
      ensures View(CloseNotifyEmpty, false) == Section(old(View(CloseHold, true)), 0)
      ensures wakeup == Owed<T>(CloseNotifyEmpty) == Everybody
    {
      closed := true;
      return Everybody;
    }
  }
}
