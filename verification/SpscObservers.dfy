/** What an answer of `full()` or `empty()` means over every run of the single-producer
    single-consumer ring: for a third thread exactly when a true answer was ever true, and
    for the producer or the consumer itself that every answer is exact. */
module SpscObservers {
  import opened SpscMachine
  import opened SpscTheorems

  /** One of the two counters: `head_` or `tail_`. */
  function Counter(s: State, head: bool): nat {
    if head then s.head else s.tail
  }

  predicate Bumps(step: Step, head: bool) {
    if head then step.PublishHead? else step.AdvanceTail?
  }

  lemma CounterStep(s: State, s': State, step: Step, head: bool)
    requires Inv(s) && Next(s, s', step)
    ensures Counter(s', head) == Counter(s, head) + if Bumps(step, head) then 1 else 0
    ensures s'.capacity == s.capacity
  {
  }

  /** Counters never go back, and stay exactly as long as nobody stores them. */
  lemma {:induction false} CounterBetween(states: seq<State>, steps: seq<Step>, i: nat, j: nat, head: bool)
    requires Run(states, steps) && i <= j < |states|
    ensures states[j].capacity == states[i].capacity
    ensures Counter(states[i], head) <= Counter(states[j], head)
    ensures Counter(states[i], head) == Counter(states[j], head) <==>
            forall k :: i <= k < j ==> !Bumps(steps[k], head)
    decreases j
  {
    if i < j {
      var k := j - 1;
      CounterBetween(states, steps, i, k, head);
      RunInv(states, steps, k);
      assert Moves(states, steps, k);
      CounterStep(states[k], states[j], steps[k], head);
    }
  }

  // --- One call --------------------------------------------------------------------------

  /** Observer `o` makes one call, with its two loads at steps `a` and `b`. */
  ghost predicate Looks(states: seq<State>, steps: seq<Step>, a: nat, b: nat, o: nat, full: bool, headFirst: bool) {
    && Run(states, steps) && a < b < |steps|
    && steps[a] == LookFirst(o, full, headFirst) && steps[b] == LookSecond(o)
    && forall k :: a < k < b ==> steps[k] != LookSecond(o)
  }

  /** The ring is full, or empty. */
  ghost predicate Holds(s: State, full: bool) {
    if full then s.head == s.tail + s.capacity else s.head == s.tail
  }

  lemma LookKept(s: State, s': State, step: Step, o: nat)
    requires Next(s, s', step) && step != LookSecond(o)
    requires o < |s.observers| && (s.observers[o].HasHead? || s.observers[o].HasTail?)
    ensures o < |s'.observers| && s'.observers[o] == s.observers[o]
  {
  }

  lemma {:induction false} LookPending(states: seq<State>, steps: seq<Step>, a: nat, b: nat, i: nat, o: nat,
                                       full: bool, headFirst: bool)
    requires Looks(states, steps, a, b, o, full, headFirst) && a < i <= b
    ensures o < |states[i].observers|
    ensures states[i].observers[o] ==
            if headFirst then HasHead(full, states[a].head) else HasTail(full, states[a].tail)
    decreases i
  {
    var k := i - 1;
    assert Moves(states, steps, k);
    if a < k {
      LookPending(states, steps, a, b, k, o, full, headFirst);
      LookKept(states[k], states[i], steps[k], o);
    }
  }

  /** The answer compares the first counter as it was at the first load with the second as
      it is at the second load. */
  lemma LookAnswer(states: seq<State>, steps: seq<Step>, a: nat, b: nat, o: nat, full: bool, headFirst: bool)
    returns (answer: bool)
    requires Looks(states, steps, a, b, o, full, headFirst)
    ensures o < |states[b + 1].observers|
    ensures states[b + 1].observers[o] == Told(full, headFirst, answer)
    ensures answer == if headFirst then Compare(full, states[a].head, states[b].tail, states[b].capacity)
                      else Compare(full, states[b].head, states[a].tail, states[b].capacity)
  {
    LookPending(states, steps, a, b, b, o, full, headFirst);
    assert Moves(states, steps, b);
    answer := states[b + 1].observers[o].answer;
  }

  ghost predicate ToldTrue(states: seq<State>, steps: seq<Step>, a: nat, b: nat, o: nat, full: bool, headFirst: bool) {
    && Looks(states, steps, a, b, o, full, headFirst)
    && o < |states[b + 1].observers| && states[b + 1].observers[o] == Told(full, headFirst, true)
  }

  // --- A third thread --------------------------------------------------------------------

  /** A true answer holds at the second load if and only if the counter loaded first was not
      stored in between. */
  lemma TrueAtSecondLoad(states: seq<State>, steps: seq<Step>, a: nat, b: nat, o: nat, full: bool, headFirst: bool)
    requires ToldTrue(states, steps, a, b, o, full, headFirst)
    ensures (if full then states[b].head == states[b].tail + states[b].capacity else states[b].head == states[b].tail)
            <==> forall k :: a < k < b ==> !Bumps(steps[k], headFirst)
  {
    var answer := LookAnswer(states, steps, a, b, o, full, headFirst);
    CounterBetween(states, steps, a, b, headFirst);
    assert !Bumps(steps[a], headFirst);
  }

  /** Between the loads the counter loaded first is stored, and later the other one. */
  ghost predicate CrossedBetween(steps: seq<Step>, a: nat, b: nat, headFirst: bool)
    requires b < |steps|
  {
    exists k, l :: a < k < l < b && Bumps(steps[k], headFirst) && Bumps(steps[l], !headFirst)
  }

  ghost predicate TrueAtSomeInstant(states: seq<State>, a: nat, b: nat, full: bool)
    requires b < |states|
  {
    exists i :: a <= i <= b && Holds(states[i], full)
  }

  /** If the compared condition holds at an instant of a call answered true, both counters
      then had the loaded values. */
  lemma LoadedValues(states: seq<State>, steps: seq<Step>, a: nat, b: nat, o: nat, full: bool, headFirst: bool, i: nat)
    requires ToldTrue(states, steps, a, b, o, full, headFirst) && full != headFirst
    requires a <= i <= b && Holds(states[i], full)
    ensures Counter(states[i], headFirst) == Counter(states[a], headFirst)
    ensures Counter(states[i], !headFirst) == Counter(states[b], !headFirst)
  {
    var answer := LookAnswer(states, steps, a, b, o, full, headFirst);
    CounterBetween(states, steps, a, i, headFirst);
    CounterBetween(states, steps, i, b, !headFirst);
  }

  lemma CrossedIsNeverTrue(states: seq<State>, steps: seq<Step>, a: nat, b: nat, o: nat, full: bool, headFirst: bool, i: nat)
    requires ToldTrue(states, steps, a, b, o, full, headFirst)
    requires a <= i <= b && Holds(states[i], full)
    ensures !CrossedBetween(steps, a, b, headFirst)
  {
    if full == headFirst {
      ObserverSound(states, steps, a, b, o, full, headFirst);
    } else {
      LoadedValues(states, steps, a, b, o, full, headFirst, i);
      CounterBetween(states, steps, a, i, headFirst);
      CounterBetween(states, steps, i, b, !headFirst);
    }
  }

  lemma {:induction false} FirstBump(steps: seq<Step>, a: nat, b: nat, head: bool) returns (k: nat)
    requires a < b <= |steps|
    ensures a < k <= b && (k < b ==> Bumps(steps[k], head))
    ensures forall j :: a < j < k ==> !Bumps(steps[j], head)
    decreases b - a
  {
    if a + 1 == b || Bumps(steps[a + 1], head) {
      k := a + 1;
    } else {
      k := FirstBump(steps, a + 1, b, head);
    }
  }

  lemma UncrossedIsTrue(states: seq<State>, steps: seq<Step>, a: nat, b: nat, o: nat, full: bool, headFirst: bool)
    requires ToldTrue(states, steps, a, b, o, full, headFirst) && !CrossedBetween(steps, a, b, headFirst)
    ensures TrueAtSomeInstant(states, a, b, full)
  {
    var answer := LookAnswer(states, steps, a, b, o, full, headFirst);
    var k := FirstBump(steps, a, b, headFirst);
    CounterBetween(states, steps, a, k, headFirst);
    CounterBetween(states, steps, k, b, !headFirst);
    assert !Bumps(steps[a], headFirst);
    forall l | k <= l < b
      ensures !Bumps(steps[l], !headFirst)
    {
      assert l == k || !(Bumps(steps[k], headFirst) && Bumps(steps[l], !headFirst));
    }
    assert Holds(states[k], full);
  }

  /** The exact condition: a true `full()` or `empty()` of a third thread was true at some
      instant of the call if and only if the counter it loaded first was not stored and,
      after that, the other one stored, between its two loads. */
  lemma TrueAnswerExact(states: seq<State>, steps: seq<Step>, a: nat, b: nat, o: nat, full: bool, headFirst: bool)
    requires ToldTrue(states, steps, a, b, o, full, headFirst)
    ensures TrueAtSomeInstant(states, a, b, full) <==> !CrossedBetween(steps, a, b, headFirst)
    ensures TrueAtSomeInstant(states, a, b, full) <==>
            exists i :: a <= i <= b && (if full then states[i].head == states[i].tail + states[i].capacity
                                        else states[i].head == states[i].tail)
  {
    if TrueAtSomeInstant(states, a, b, full) {
      var i :| a <= i <= b && Holds(states[i], full);
      CrossedIsNeverTrue(states, steps, a, b, o, full, headFirst, i);
    } else if !CrossedBetween(steps, a, b, headFirst) {
      UncrossedIsTrue(states, steps, a, b, o, full, headFirst);
    }
  }

  /** With `head_` loaded first a true `full()`, and with `tail_` loaded first a true
      `empty()`, always holds at the second load: the first counter cannot have moved. */
  lemma ObserverSound(states: seq<State>, steps: seq<Step>, a: nat, b: nat, o: nat, full: bool, headFirst: bool)
    requires ToldTrue(states, steps, a, b, o, full, headFirst) && full == headFirst
    ensures Holds(states[b], full)
    ensures forall k :: a < k < b ==> !Bumps(steps[k], headFirst)
  {
    var answer := LookAnswer(states, steps, a, b, o, full, headFirst);
    CounterBetween(states, steps, a, b, headFirst);
    RunInv(states, steps, b);
  }

  // --- The producer or the consumer itself -----------------------------------------------

  /** A thread that owns one of the counters makes the call, so that counter rests. */
  ghost predicate OwnerLooks(steps: seq<Step>, a: nat, b: nat, producer: bool)
    requires b < |steps|
  {
    forall k :: a < k < b ==> if producer then !ByProducer(steps[k]) else !ByConsumer(steps[k])
  }

  /** Called by the producer or by the consumer, `full()` and `empty()` are exact in either
      load order: the answer, true or false, is the truth at the load of the counter that
      the caller does not own. */
  lemma OwnerAnswerExact(states: seq<State>, steps: seq<Step>, a: nat, b: nat, o: nat,
                         full: bool, headFirst: bool, producer: bool)
    requires Looks(states, steps, a, b, o, full, headFirst) && OwnerLooks(steps, a, b, producer)
    ensures o < |states[b + 1].observers|
    ensures var s := states[if headFirst == producer then b else a];
            states[b + 1].observers[o] ==
            Told(full, headFirst, if full then s.head == s.tail + s.capacity else s.head == s.tail)
  {
    var answer := LookAnswer(states, steps, a, b, o, full, headFirst);
    CounterBetween(states, steps, a, b, producer);
    forall k | a <= k < b
      ensures !Bumps(steps[k], producer)
    {
    }
  }
}
