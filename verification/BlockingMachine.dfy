/** The mutex and condition-variable queue as a step machine: any number of threads, an
    explicit mutex owner, wait sets, pending notifications and spurious wakeups. A critical
    section is one step; its lock acquisition, its notification and, where the code notifies
    under the lock, its unlock are steps of their own. */
module BlockingMachine {
  import opened Results

  datatype Answer<T> =
    | PushAnswer(status: Status)
    | PopAnswer(item: Option<T>)
    | TryPopAnswer(status: Status, item: Option<T>)
    | CloseAnswer

  /** Program counters. `blocking` tells `push`/`pop` from `try_push`/`try_pop`; `woken` is
      auxiliary and tells a caller that left a wait set from one that has not checked its
      predicate yet. A thread in `PushWait` is in the wait set of `not_full_`, one in
      `PopWait` in that of `not_empty_`.
      `PushNotify` owes `not_empty_` a `notify_one`, `PopNotify` owes it to `not_full_`; the
      try operations still hold the mutex then. */
  datatype Pc<T> =
    | Idle
    | PushLock(item: T, blocking: bool, woken: bool)
    | PushHold(item: T, blocking: bool, woken: bool)
    | PushWait(item: T)
    | PushNotify(blocking: bool)
    | PopLock(blocking: bool, woken: bool)
    | PopHold(blocking: bool, woken: bool)
    | PopWait
    | PopNotify(item: T, blocking: bool)
    | Unlock(answer: Answer<T>)
    | CloseLock
    | CloseHold
    | CloseNotifyEmpty
    | CloseNotifyFull
    | Returned(answer: Answer<T>)

  /** `accepted` and `taken` are auxiliary: everything ever pushed and popped, in order. */
  datatype State<T> = State(
    capacity: nat,
    queue: seq<T>,
    closed: bool,
    mutex: Option<nat>,
    threads: seq<Pc<T>>,
    accepted: seq<T>,
    taken: seq<T>)

  ghost predicate Init<T>(s: State<T>) {
    && 0 < s.capacity && s.queue == [] && !s.closed && s.mutex == None
    && (forall t :: 0 <= t < |s.threads| ==> s.threads[t] == Idle)
    && s.accepted == [] && s.taken == []
  }

  datatype Step<T> =
    | Call(t: nat, entry: Pc<T>)
    | Acquire(t: nat)
    | Critical(t: nat)
    | NotifyOne(t: nat, woken: Option<nat>)
    | NotifyAll(t: nat)
    | Release(t: nat)
    | Spurious(t: nat)
    | Finish(t: nat)

  function At<T>(s: State<T>, t: nat, pc: Pc<T>): State<T>
    requires t < |s.threads|
  {
    s.(threads := s.threads[t := pc])
  }

  ghost predicate DoCall<T>(s: State<T>, s': State<T>, t: nat, entry: Pc<T>) {
    && t < |s.threads| && s.threads[t] == Idle
    && (entry.PushLock? || entry.PopLock? ==> !entry.woken)
    && (entry.PushLock? || entry.PopLock? || entry.CloseLock?)
    && s' == At(s, t, entry)
  }

  ghost predicate DoAcquire<T>(s: State<T>, s': State<T>, t: nat) {
    && t < |s.threads| && s.mutex == None
    && (s.threads[t].PushLock? || s.threads[t].PopLock? || s.threads[t].CloseLock?)
    && s' == At(s, t, match s.threads[t]
                      case PushLock(item, blocking, woken) => PushHold(item, blocking, woken)
                      case PopLock(blocking, woken) => PopHold(blocking, woken)
                      case _ => CloseHold).(mutex := Some(t))
  }

  /** The body of the critical section, from the predicate check to wait, notify or return. */
  function Section<T>(s: State<T>, t: nat): State<T>
    requires t < |s.threads|
    requires s.threads[t].PushHold? || s.threads[t].PopHold? || s.threads[t].CloseHold?
  {
    var pc := s.threads[t];
    if pc.PushHold? then
      if s.closed then At(s, t, Returned(PushAnswer(Closed))).(mutex := None)
      else if |s.queue| < s.capacity then
        At(s, t, PushNotify(pc.blocking))
        .(queue := s.queue + [pc.item], accepted := s.accepted + [pc.item],
          mutex := if pc.blocking then None else s.mutex)
      else At(s, t, if pc.blocking then PushWait(pc.item) else Returned(PushAnswer(Full))).(mutex := None)
    else if pc.PopHold? then
      if s.queue != [] then
        At(s, t, PopNotify(s.queue[0], pc.blocking))
        .(queue := s.queue[1..], taken := s.taken + [s.queue[0]],
          mutex := if pc.blocking then None else s.mutex)
      else if !pc.blocking then
        At(s, t, Returned(TryPopAnswer(if s.closed then Closed else Empty, None))).(mutex := None)
      else At(s, t, if s.closed then Returned(PopAnswer(None)) else PopWait).(mutex := None)
    else
      At(s, t, CloseNotifyEmpty).(closed := true, mutex := None)
  }

  ghost predicate DoCritical<T>(s: State<T>, s': State<T>, t: nat) {
    && t < |s.threads| && s.mutex == Some(t)
    && (s.threads[t].PushHold? || s.threads[t].PopHold? || s.threads[t].CloseHold?)
    && s' == Section(s, t)
  }

  /** Where a notifying thread goes next. */
  function AfterNotify<T>(pc: Pc<T>): Pc<T>
    requires pc.PushNotify? || pc.PopNotify?
  {
    match pc
    case PushNotify(blocking) =>
      if blocking then Returned(PushAnswer(Success)) else Unlock(PushAnswer(Success))
    case PopNotify(item, blocking) =>
      if blocking then Returned(PopAnswer(Some(item))) else Unlock(TryPopAnswer(Success, Some(item)))
  }

  /** A woken waiter goes back to acquire the mutex and re-check its predicate. */
  function Wake<T>(pc: Pc<T>): Pc<T> {
    match pc
    case PushWait(item) => PushLock(item, true, true)
    case PopWait => PopLock(true, true)
    case _ => pc
  }

  /** `u` waits on the condition variable that `pc` is about to notify. */
  ghost predicate WaitsFor<T>(pc: Pc<T>, u: Pc<T>) {
    (pc.PushNotify? && u.PopWait?) || (pc.PopNotify? && u.PushWait?)
  }

  /** `notify_one` wakes some waiter if there is one. */
  ghost predicate DoNotifyOne<T>(s: State<T>, s': State<T>, t: nat, woken: Option<nat>) {
    && t < |s.threads| && (s.threads[t].PushNotify? || s.threads[t].PopNotify?)
    && match woken
       case None =>
         && (forall u :: 0 <= u < |s.threads| ==> !WaitsFor(s.threads[t], s.threads[u]))
         && s' == At(s, t, AfterNotify(s.threads[t]))
       case Some(u) =>
         && u < |s.threads| && WaitsFor(s.threads[t], s.threads[u])
         && s' == At(At(s, t, AfterNotify(s.threads[t])), u, Wake(s.threads[u]))
  }

  function WakeIf<T>(threads: seq<Pc<T>>, consumers: bool): (woken: seq<Pc<T>>)
    ensures |woken| == |threads|
    ensures forall i :: 0 <= i < |threads| ==>
              woken[i] == if (if consumers then threads[i].PopWait? else threads[i].PushWait?)
                          then Wake(threads[i]) else threads[i]
  {
    seq(|threads|, i requires 0 <= i < |threads| =>
          if (if consumers then threads[i].PopWait? else threads[i].PushWait?)
          then Wake(threads[i]) else threads[i])
  }

  ghost predicate DoNotifyAll<T>(s: State<T>, s': State<T>, t: nat) {
    && t < |s.threads| && (s.threads[t].CloseNotifyEmpty? || s.threads[t].CloseNotifyFull?)
    && s' == if s.threads[t].CloseNotifyEmpty?
             then s.(threads := WakeIf(s.threads, true)[t := CloseNotifyFull])
             else s.(threads := WakeIf(s.threads, false)[t := Returned(CloseAnswer)])
  }

  ghost predicate DoRelease<T>(s: State<T>, s': State<T>, t: nat) {
    && t < |s.threads| && s.mutex == Some(t) && s.threads[t].Unlock?
    && s' == At(s, t, Returned(s.threads[t].answer)).(mutex := None)
  }

  ghost predicate DoSpurious<T>(s: State<T>, s': State<T>, t: nat) {
    && t < |s.threads| && (s.threads[t].PushWait? || s.threads[t].PopWait?)
    && s' == At(s, t, Wake(s.threads[t]))
  }

  ghost predicate DoFinish<T>(s: State<T>, s': State<T>, t: nat) {
    && t < |s.threads| && s.threads[t].Returned?
    && s' == At(s, t, Idle)
  }

  ghost predicate Next<T>(s: State<T>, s': State<T>, step: Step<T>) {
    match step
    case Call(t, entry) => DoCall(s, s', t, entry)
    case Acquire(t) => DoAcquire(s, s', t)
    case Critical(t) => DoCritical(s, s', t)
    case NotifyOne(t, woken) => DoNotifyOne(s, s', t, woken)
    case NotifyAll(t) => DoNotifyAll(s, s', t)
    case Release(t) => DoRelease(s, s', t)
    case Spurious(t) => DoSpurious(s, s', t)
    case Finish(t) => DoFinish(s, s', t)
  }

  ghost predicate Moves<T>(states: seq<State<T>>, steps: seq<Step<T>>, i: nat)
    requires i < |steps| && |states| == |steps| + 1
  {
    Next(states[i], states[i + 1], steps[i])
  }

  ghost predicate Run<T>(states: seq<State<T>>, steps: seq<Step<T>>) {
    && |states| == |steps| + 1
    && Init(states[0])
    && forall i :: 0 <= i < |steps| ==> Moves(states, steps, i)
  }
}
