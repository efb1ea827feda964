/** Conservation and absence of lost wakeups in the blocking queue, over every run. */
module BlockingTheorems {
  import opened Results
  import opened Counting
  import opened BlockingMachine

  // --- Counting credits ------------------------------------------------------------------

  /** A pending `not_empty_` notification, or a woken pop about to re-check. */
  function ConsumerCredit<T>(pc: Pc<T>): nat {
    match pc
    case PushNotify(_) => 1
    case PopLock(blocking, woken) => if blocking && woken then 1 else 0
    case PopHold(blocking, woken) => if blocking && woken then 1 else 0
    case _ => 0
  }

  /** A pending `not_full_` notification, or a woken push about to re-check. */
  function ProducerCredit<T>(pc: Pc<T>): nat {
    match pc
    case PopNotify(_, _) => 1
    case PushLock(_, blocking, woken) => if blocking && woken then 1 else 0
    case PushHold(_, blocking, woken) => if blocking && woken then 1 else 0
    case _ => 0
  }

  // --- The invariant ---------------------------------------------------------------------

  ghost predicate Holding<T>(pc: Pc<T>) {
    || pc.PushHold? || pc.PopHold? || pc.CloseHold? || pc.Unlock?
    || (pc.PushNotify? && !pc.blocking) || (pc.PopNotify? && !pc.blocking)
  }

  ghost predicate Mutual<T>(s: State<T>) {
    && (s.mutex.Some? ==> s.mutex.value < |s.threads|)
    && forall t :: 0 <= t < |s.threads| ==> (Holding(s.threads[t]) <==> s.mutex == Some(t))
  }

  ghost predicate Conserved<T>(s: State<T>) {
    0 < s.capacity && |s.queue| <= s.capacity && s.accepted == s.taken + s.queue
  }

  ghost predicate WaitingConsumer<T>(s: State<T>) {
    exists t :: 0 <= t < |s.threads| && s.threads[t].PopWait?
  }

  ghost predicate WaitingProducer<T>(s: State<T>) {
    exists t :: 0 <= t < |s.threads| && s.threads[t].PushWait?
  }

  ghost predicate ClosingEmpty<T>(s: State<T>) {
    exists t :: 0 <= t < |s.threads| && s.threads[t].CloseNotifyEmpty?
  }

  ghost predicate ClosingFull<T>(s: State<T>) {
    exists t :: 0 <= t < |s.threads| && s.threads[t].CloseNotifyFull?
  }

  /** While open: every queued item is matched by a pending notification or a woken
      consumer as long as some consumer waits, and likewise free slots for producers.
      Callers that have not waited count for nothing: they may or may not take an item. */
  ghost predicate Matched<T>(s: State<T>) {
    !s.closed ==>
      && (WaitingConsumer(s) ==> |s.queue| <= Total(s.threads, ConsumerCredit))
      && (WaitingProducer(s) ==> s.capacity - |s.queue| <= Total(s.threads, ProducerCredit))
  }

  /** Once closed: whoever still waits is about to be woken by a pending `notify_all`. */
  ghost predicate Closing<T>(s: State<T>) {
    && (ClosingEmpty(s) || ClosingFull(s) ==> s.closed)
    && (s.closed && WaitingConsumer(s) ==> ClosingEmpty(s))
    && (s.closed && WaitingProducer(s) ==> ClosingEmpty(s) || ClosingFull(s))
  }

  /** A `pop` that answers `nullopt`. */
  ghost predicate Drained<T>(pc: Pc<T>) {
    (pc.Returned? || pc.Unlock?) && pc.answer == PopAnswer(None)
  }

  ghost predicate Answers<T>(s: State<T>) {
    forall t :: 0 <= t < |s.threads| && Drained(s.threads[t]) ==> s.closed && s.queue == []
  }

  ghost predicate Inv<T>(s: State<T>) {
    Conserved(s) && Mutual(s) && Matched(s) && Closing(s) && Answers(s)
  }

  // --- Preservation ----------------------------------------------------------------------

  lemma InitInv<T>(s: State<T>)
    requires Init(s)
    ensures Inv(s)
  {
  }

  /** Only the program counter of `t` differs. */
  ghost predicate Changes<T>(s: State<T>, s': State<T>, t: nat) {
    t < |s.threads| && |s'.threads| == |s.threads| && s'.threads == s.threads[t := s'.threads[t]]
  }

  lemma MutualKept<T>(s: State<T>, s': State<T>, t: nat)
    requires Mutual(s) && Changes(s, s', t)
    requires Holding(s'.threads[t]) <==> s'.mutex == Some(t)
    requires s'.mutex == s.mutex || (s.mutex == Some(t) && s'.mutex == None) || (s.mutex == None && s'.mutex == Some(t))
    ensures Mutual(s')
  {
  }

  lemma WaitersFrom<T>(s: State<T>, s': State<T>, t: nat)
    requires Changes(s, s', t)
    ensures WaitingConsumer(s') ==> WaitingConsumer(s) || s'.threads[t].PopWait?
    ensures WaitingProducer(s') ==> WaitingProducer(s) || s'.threads[t].PushWait?
  {
    if WaitingConsumer(s') && !s'.threads[t].PopWait? {
      var u :| 0 <= u < |s'.threads| && s'.threads[u].PopWait?;
      assert s.threads[u].PopWait?;
    }
    if WaitingProducer(s') && !s'.threads[t].PushWait? {
      var u :| 0 <= u < |s'.threads| && s'.threads[u].PushWait?;
      assert s.threads[u].PushWait?;
    }
  }

  lemma ClosersFrom<T>(s: State<T>, s': State<T>, t: nat)
    requires Changes(s, s', t)
    requires s'.threads[t].CloseNotifyEmpty? || !s.threads[t].CloseNotifyEmpty?
    requires s'.threads[t].CloseNotifyFull? || !s.threads[t].CloseNotifyFull?
    ensures ClosingEmpty(s') <==> ClosingEmpty(s) || s'.threads[t].CloseNotifyEmpty?
    ensures ClosingFull(s') <==> ClosingFull(s) || s'.threads[t].CloseNotifyFull?
  {
    forall u | 0 <= u < |s.threads|
      ensures s.threads[u].CloseNotifyEmpty? ==> ClosingEmpty(s')
      ensures s.threads[u].CloseNotifyFull? ==> ClosingFull(s')
    {
      assert u == t || s'.threads[u] == s.threads[u];
      assert s'.threads[u].CloseNotifyEmpty? ==> ClosingEmpty(s');
      assert s'.threads[u].CloseNotifyFull? ==> ClosingFull(s');
    }
  }

  lemma ClosingKept<T>(s: State<T>, s': State<T>, t: nat)
    requires Closing(s) && Changes(s, s', t)
    requires s.closed ==> s'.closed
    requires s'.threads[t].CloseNotifyEmpty? || !s.threads[t].CloseNotifyEmpty?
    requires s'.threads[t].CloseNotifyFull? || !s.threads[t].CloseNotifyFull?
    requires s'.threads[t].CloseNotifyEmpty? || s'.threads[t].CloseNotifyFull? ==> s'.closed
    requires s'.closed && !s.closed ==> s'.threads[t].CloseNotifyEmpty?
    requires s'.threads[t].PopWait? || s'.threads[t].PushWait? ==> !s'.closed || s'.threads[t] == s.threads[t]
    ensures Closing(s')
  {
    WaitersFrom(s, s', t);
    ClosersFrom(s, s', t);
  }

  lemma MatchedKept<T>(s: State<T>, s': State<T>, t: nat)
    requires Matched(s) && Changes(s, s', t) && s'.capacity == s.capacity
    requires s.closed ==> s'.closed
    requires !s'.closed ==>
               && (if s'.threads[t].PopWait? then s'.queue == []
                   else ConsumerCredit(s.threads[t]) + |s'.queue| <= ConsumerCredit(s'.threads[t]) + |s.queue|)
               && (if s'.threads[t].PushWait? then |s'.queue| == s.capacity
                   else ProducerCredit(s.threads[t]) + |s.queue| <= ProducerCredit(s'.threads[t]) + |s'.queue|)
    ensures Matched(s')
  {
    if !s'.closed {
      WaitersFrom(s, s', t);
      TotalUpdate(s.threads, t, s'.threads[t], ConsumerCredit);
      TotalUpdate(s.threads, t, s'.threads[t], ProducerCredit);
    }
  }

  lemma AnswersKept<T>(s: State<T>, s': State<T>, t: nat)
    requires Answers(s) && Changes(s, s', t)
    requires s.closed ==> s'.closed
    requires s.closed && s.queue == [] ==> s'.queue == []
    requires Drained(s'.threads[t]) ==> Drained(s.threads[t]) || (s'.closed && s'.queue == [])
    ensures Answers(s')
  {
  }

  /** Steps that touch only the mutex and the thread's own program counter. */
  lemma QuietStep<T>(s: State<T>, s': State<T>, step: Step<T>)
    requires Inv(s) && Next(s, s', step)
    requires step.Call? || step.Acquire? || step.Release? || step.Spurious? || step.Finish?
    ensures Inv(s')
  {
    var t := step.t;
    assert Holding(s.threads[t]) <==> s.mutex == Some(t);
    MutualKept(s, s', t);
    ClosingKept(s, s', t);
    MatchedKept(s, s', t);
    AnswersKept(s, s', t);
  }

  lemma CriticalKeepsInv<T>(s: State<T>, s': State<T>, t: nat)
    requires Inv(s) && DoCritical(s, s', t)
    ensures Inv(s')
  {
    assert Conserved(s') by {
      if s.threads[t].PopHold? && s.queue != [] {
        assert s.taken + s.queue == s'.taken + s'.queue;
      }
    }
    MutualKept(s, s', t);
    ClosingKept(s, s', t);
    MatchedKept(s, s', t);
    AnswersKept(s, s', t);
  }

  lemma NotifyKeeps<T>(s: State<T>, s': State<T>, t: nat)
    requires Mutual(s) && Closing(s) && Answers(s) && Changes(s, s', t)
    requires s' == At(s, t, s'.threads[t])
    requires if s.threads[t].PushNotify? || s.threads[t].PopNotify?
             then s'.threads[t] == AfterNotify(s.threads[t])
             else (s.threads[t].PushWait? || s.threads[t].PopWait?) && s'.threads[t] == Wake(s.threads[t])
    ensures Mutual(s') && Closing(s') && Answers(s')
  {
    MutualKept(s, s', t);
    ClosingKept(s, s', t);
    AnswersKept(s, s', t);
  }

  lemma NotifyNoneMatched<T>(s: State<T>, s': State<T>, t: nat)
    requires Inv(s) && DoNotifyOne(s, s', t, None)
    ensures Matched(s')
  {
    WaitersFrom(s, s', t);
    TotalUpdate(s.threads, t, s'.threads[t], ConsumerCredit);
    TotalUpdate(s.threads, t, s'.threads[t], ProducerCredit);
    if s.threads[t].PushNotify? {
      assert forall u :: 0 <= u < |s.threads| ==> !WaitsFor(s.threads[t], s.threads[u]);
      assert !WaitingConsumer(s);
    } else {
      assert !WaitingProducer(s);
    }
  }

  lemma NotifySomeMatched<T>(s: State<T>, m: State<T>, s': State<T>, t: nat, u: nat)
    requires Inv(s) && DoNotifyOne(s, s', t, Some(u)) && m == At(s, t, AfterNotify(s.threads[t]))
    ensures Matched(s')
  {
    WaitersFrom(s, m, t);
    WaitersFrom(m, s', u);
    TotalUpdate(s.threads, t, m.threads[t], ConsumerCredit);
    TotalUpdate(s.threads, t, m.threads[t], ProducerCredit);
    TotalUpdate(m.threads, u, s'.threads[u], ConsumerCredit);
    TotalUpdate(m.threads, u, s'.threads[u], ProducerCredit);
  }

  lemma NotifyOneKeepsInv<T>(s: State<T>, s': State<T>, t: nat, woken: Option<nat>)
    requires Inv(s) && DoNotifyOne(s, s', t, woken)
    ensures Inv(s')
  {
    var m := At(s, t, AfterNotify(s.threads[t]));
    NotifyKeeps(s, m, t);
    if woken.Some? {
      NotifyKeeps(m, s', woken.value);
      NotifySomeMatched(s, m, s', t, woken.value);
    } else {
      NotifyNoneMatched(s, s', t);
    }
  }

  lemma NotifyAllWaiters<T>(s: State<T>, s': State<T>, t: nat)
    requires Inv(s) && DoNotifyAll(s, s', t)
    ensures Closing(s')
  {
    if s.threads[t].CloseNotifyEmpty? {
      assert ClosingEmpty(s);
      assert s'.threads[t].CloseNotifyFull?;
      forall u | 0 <= u < |s'.threads|
        ensures !s'.threads[u].PopWait?
      {
      }
    } else {
      assert ClosingFull(s);
      forall u | 0 <= u < |s'.threads|
        ensures !s'.threads[u].PushWait?
      {
      }
      if WaitingConsumer(s') {
        var u :| 0 <= u < |s'.threads| && s'.threads[u].PopWait?;
        assert s.threads[u].PopWait?;
        var v :| 0 <= v < |s.threads| && s.threads[v].CloseNotifyEmpty?;
        assert s'.threads[v].CloseNotifyEmpty?;
      }
    }
  }

  lemma NotifyAllKeepsInv<T>(s: State<T>, s': State<T>, t: nat)
    requires Inv(s) && DoNotifyAll(s, s', t)
    ensures Inv(s')
  {
    NotifyAllWaiters(s, s', t);
    assert s.closed by {
      assert ClosingEmpty(s) || ClosingFull(s);
    }
  }

  lemma NextKeepsInv<T>(s: State<T>, s': State<T>, step: Step<T>)
    requires Inv(s) && Next(s, s', step)
    ensures Inv(s')
  {
    match step
    case Critical(t) => CriticalKeepsInv(s, s', t);
    case NotifyOne(t, woken) => NotifyOneKeepsInv(s, s', t, woken);
    case NotifyAll(t) => NotifyAllKeepsInv(s, s', t);
    case _ => QuietStep(s, s', step);
  }

  lemma {:induction false} RunInv<T>(states: seq<State<T>>, steps: seq<Step<T>>, i: nat)
    requires Run(states, steps) && i < |states|
    ensures Inv(states[i])
  {
    if i == 0 {
      InitInv(states[0]);
    } else {
      var k := i - 1;
      RunInv(states, steps, k);
      assert Moves(states, steps, k);
      NextKeepsInv(states[k], states[k + 1], steps[k]);
    }
  }

  // --- Theorems --------------------------------------------------------------------------

  /** No notification for consumers is pending and no woken consumer has yet to re-check.
      Any number of first-time callers may be queued on the mutex or inside. */
  ghost predicate ConsumersSettled<T>(s: State<T>) {
    forall t :: 0 <= t < |s.threads| ==>
      ConsumerCredit(s.threads[t]) == 0 && !s.threads[t].CloseNotifyEmpty?
  }

  ghost predicate ProducersSettled<T>(s: State<T>) {
    forall t :: 0 <= t < |s.threads| ==>
      && ProducerCredit(s.threads[t]) == 0
      && !s.threads[t].CloseNotifyEmpty? && !s.threads[t].CloseNotifyFull?
  }

  /** No lost wakeup: in every state of every run, once nothing is pending for consumers, a
      consumer still waits only if the queue is open and empty; once nothing is pending for
      producers, a producer still waits only if it is open and full. So the two kinds are
      never stuck together. */
  lemma NoLostWakeup<T>(states: seq<State<T>>, steps: seq<Step<T>>, i: nat)
    requires Run(states, steps) && i < |states|
    ensures var s := states[i];
            && (ConsumersSettled(s) && WaitingConsumer(s) ==> !s.closed && s.queue == [])
            && (ProducersSettled(s) && WaitingProducer(s) ==> !s.closed && |s.queue| == s.capacity)
            && !(ConsumersSettled(s) && ProducersSettled(s) && WaitingConsumer(s) && WaitingProducer(s))
  {
    var s := states[i];
    RunInv(states, steps, i);
    if ConsumersSettled(s) {
      TotalZero(s.threads, ConsumerCredit);
    }
    if ProducersSettled(s) {
      TotalZero(s.threads, ProducerCredit);
    }
  }

  /** Conservation over every run: what was accepted is what was popped followed by what is
      queued, within capacity; and an empty answer of `pop` means closed and fully drained. */
  lemma Conservation<T>(states: seq<State<T>>, steps: seq<Step<T>>, i: nat)
    requires Run(states, steps) && i < |states|
    ensures var s := states[i];
            && s.accepted == s.taken + s.queue && |s.queue| <= s.capacity
            && (forall t :: 0 <= t < |s.threads| && Drained(s.threads[t]) ==>
                  s.closed && s.taken == s.accepted)
  {
    RunInv(states, steps, i);
  }

  lemma ClosedStep<T>(s: State<T>, s': State<T>, step: Step<T>)
    requires Next(s, s', step)
    ensures s.accepted <= s'.accepted && s.taken <= s'.taken
    ensures s.closed ==> s'.closed && s'.accepted == s.accepted
  {
  }

  /** Nothing is accepted after close, and close is permanent. */
  lemma {:induction false} NothingAcceptedAfterClose<T>(states: seq<State<T>>, steps: seq<Step<T>>, i: nat, j: nat)
    requires Run(states, steps) && i <= j < |states| && states[i].closed
    ensures states[j].closed && states[j].accepted == states[i].accepted
    decreases j
  {
    if i < j {
      var k := j - 1;
      NothingAcceptedAfterClose(states, steps, i, k);
      assert Moves(states, steps, k);
      ClosedStep(states[k], states[k + 1], steps[k]);
    }
  }

  /** Mutual exclusion: at most one thread is inside a critical section. */
  lemma MutualExclusion<T>(states: seq<State<T>>, steps: seq<Step<T>>, i: nat, t: nat, u: nat)
    requires Run(states, steps) && i < |states|
    requires t < |states[i].threads| && u < |states[i].threads|
    requires Holding(states[i].threads[t]) && Holding(states[i].threads[u])
    ensures t == u
  {
    RunInv(states, steps, i);
  }

  /** Nothing but the wait sets blocks: whenever some thread is neither idle nor waiting,
      a step other than a spurious wakeup is possible. */
  lemma SomeoneCanStep<T>(s: State<T>, t: nat) returns (step: Step<T>, s': State<T>)
    requires Inv(s) && t < |s.threads|
    requires !s.threads[t].Idle? && !s.threads[t].PushWait? && !s.threads[t].PopWait?
    ensures Next(s, s', step) && !step.Spurious? && !step.Call?
  {
    var pc := s.threads[t];
    if pc.PushLock? || pc.PopLock? || pc.CloseLock? {
      if s.mutex == None {
        step := Acquire(t);
        s' := At(s, t, match pc
                       case PushLock(item, blocking, woken) => PushHold(item, blocking, woken)
                       case PopLock(blocking, woken) => PopHold(blocking, woken)
                       case _ => CloseHold).(mutex := Some(t));
      } else {
        step, s' := HolderSteps(s, s.mutex.value);
      }
    } else if pc.Returned? {
      step, s' := Finish(t), At(s, t, Idle);
    } else if pc.CloseNotifyEmpty? {
      step, s' := NotifyAll(t), s.(threads := WakeIf(s.threads, true)[t := CloseNotifyFull]);
    } else if pc.CloseNotifyFull? {
      step, s' := NotifyAll(t), s.(threads := WakeIf(s.threads, false)[t := Returned(CloseAnswer)]);
    } else if pc.PushNotify? || pc.PopNotify? {
      step, s' := NotifierSteps(s, t);
    } else {
      step, s' := HolderSteps(s, t);
    }
  }

  /** A waiting thread may wake at any time without being notified; it then re-checks. */
  lemma MayWakeSpuriously<T>(s: State<T>, t: nat) returns (s': State<T>)
    requires t < |s.threads| && (s.threads[t].PushWait? || s.threads[t].PopWait?)
    ensures Next(s, s', Spurious(t)) && t < |s'.threads|
    ensures s'.threads[t] == if s.threads[t].PushWait? then PushLock(s.threads[t].item, true, true) else PopLock(true, true)
  {
    s' := At(s, t, Wake(s.threads[t]));
  }

  lemma NotifierSteps<T>(s: State<T>, t: nat) returns (step: Step<T>, s': State<T>)
    requires t < |s.threads| && (s.threads[t].PushNotify? || s.threads[t].PopNotify?)
    ensures Next(s, s', step) && step.NotifyOne?
  {
    if u: nat :| u < |s.threads| && WaitsFor(s.threads[t], s.threads[u]) {
      step := NotifyOne(t, Some(u));
      s' := At(At(s, t, AfterNotify(s.threads[t])), u, Wake(s.threads[u]));
    } else {
      step, s' := NotifyOne(t, None), At(s, t, AfterNotify(s.threads[t]));
    }
  }

  lemma HolderSteps<T>(s: State<T>, t: nat) returns (step: Step<T>, s': State<T>)
    requires Mutual(s) && t < |s.threads| && Holding(s.threads[t])
    ensures Next(s, s', step) && !step.Spurious? && !step.Call?
  {
    var pc := s.threads[t];
    if pc.Unlock? {
      step, s' := Release(t), At(s, t, Returned(pc.answer)).(mutex := None);
    } else if pc.PushNotify? || pc.PopNotify? {
      step, s' := NotifierSteps(s, t);
    } else {
      step, s' := Critical(t), Section(s, t);
    }
  }
}
