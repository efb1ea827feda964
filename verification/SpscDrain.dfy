/** The single-producer single-consumer drain protocol of the stress harness: the producer
    raises a done flag after its last push; the consumer checks every message it pops and
    leaves its loop when it finds the flag raised and then the ring empty. */
module SpscDrain {
  import opened Results
  import opened Counting
  import FixedMessage
  import opened StressPayload
  import Q = SpscMachine
  import T = SpscTheorems

  /** Consumer loop. The condition loads the flag, then both counters in either order. */
  datatype Loop =
    | TestDone
    | TestFirst
    | TestSecond(headFirst: bool, value: nat)
    | Popping
    | Exited
    | Broken

  /** `script[n - 1]` is the generated payload of sequence `n`, all of `room` bytes; `sent` is
      how many the producer loop has pushed. `published` and `popped` are the harness's own
      counters; `stopped` tells that the producer loop was left by `break`. */
  datatype State = State(
    q: Q.State,
    script: seq<Payload>,
    room: nat,
    sent: nat,
    stopped: bool,
    done: bool,
    published: nat,
    loop: Loop,
    popped: nat,
    failed: bool)

  ghost predicate Sized(s: State) {
    && s.room <= s.q.maxPayload
    && forall k :: 0 <= k < |s.script| ==> |s.script[k]| == s.room
  }

  ghost predicate Init(s: State) {
    && Q.Init(s.q) && Sized(s) && s.sent == 0 && !s.stopped && !s.done
    && s.published == 0 && s.loop == TestDone && s.popped == 0 && !s.failed
  }

  datatype Step =
    | Offer
    | Push(step: Q.Step)
    | Confirm
    | RaiseDone
    | LoadDone
    | LoadFirst(headFirst: bool)
    | LoadSecond
    | Pop(step: Q.Step)
    | Check

  ghost predicate Next(s: State, s': State, step: Step) {
    match step
    case Offer =>
      && !s.stopped && !s.done && s.sent < |s.script|
      && Q.Next(s.q, s'.q, Q.StartPush(s.script[s.sent])) && s' == s.(q := s'.q)
    case Push(st) =>
      && Q.ByProducer(st) && !st.StartPush? && !st.FinishPush?
      && Q.Next(s.q, s'.q, st) && s' == s.(q := s'.q)
    case Confirm =>
      && s.q.producer.Pushed? && Q.Next(s.q, s'.q, Q.FinishPush)
      && var w := s.q.producer.write;
         s' == if w == WriteResult(Success, s.sent + 1)
               then s.(q := s'.q, published := s.sent + 1, sent := s.sent + 1)
               else if w.status == Full then s.(q := s'.q)
               else s.(q := s'.q, stopped := true, failed := true)
    case RaiseDone =>
      !s.done && s.q.producer == Q.PushIdle && s' == s.(done := true)
    case LoadDone =>
      s.loop == TestDone && s' == s.(loop := if s.done then TestFirst else Popping)
    case LoadFirst(headFirst) =>
      s.loop == TestFirst && s' == s.(loop := TestSecond(headFirst, if headFirst then s.q.head else s.q.tail))
    case LoadSecond =>
      && s.loop.TestSecond?
      && var other := if s.loop.headFirst then s.q.tail else s.q.head;
         s' == s.(loop := if s.loop.value == other then Exited else Popping)
    case Pop(st) =>
      && s.loop == Popping && Q.ByConsumer(st) && !st.FinishPop? && (st.StartPop? ==> st.room == s.room)
      && Q.Next(s.q, s'.q, st) && s' == s.(q := s'.q)
    case Check =>
      && s.loop == Popping && s.q.consumer.Popped? && Q.Next(s.q, s'.q, Q.FinishPop)
      && var read, bytes := s.q.consumer.read, Filled(s.q.consumer.data, s.room);
         s' == if read.status == Empty then s.(q := s'.q, loop := TestDone)
               else if read.status != Success then s.(q := s'.q, loop := Broken, failed := true)
               else if read.sequence != s.popped + 1 then s.(q := s'.q, loop := Broken)
               else if s.popped < |s.script| && bytes == s.script[s.popped]
               then s.(q := s'.q, loop := TestDone, popped := s.popped + 1)
               else s.(q := s'.q, loop := Broken, failed := true)
  }

  /** The loop body goes on exactly for `empty` and for the next generated message, which it
      counts; a foreign payload or an unexpected status is a failure. */
  lemma FaultsAreRecorded(s: State, s': State)
    requires Next(s, s', Check) && !s.failed
    ensures var read, bytes := s.q.consumer.read, Filled(s.q.consumer.data, s.room);
            var good := && read.status == Success && read.sequence == s.popped + 1
                        && s.popped < |s.script| && bytes == s.script[s.popped];
            && (s'.loop == TestDone <==> read.status == Empty || good)
            && s'.popped == s.popped + (if good then 1 else 0)
            && (s'.failed <==> && read.status != Empty && !good
                               && (read.status == Success ==> read.sequence == s.popped + 1))
  {
  }

  ghost predicate Moves(states: seq<State>, steps: seq<Step>, i: nat)
    requires i < |steps| && |states| == |steps| + 1
  {
    Next(states[i], states[i + 1], steps[i])
  }

  ghost predicate Run(states: seq<State>, steps: seq<Step>) {
    && |states| == |steps| + 1
    && Init(states[0])
    && forall i :: 0 <= i < |steps| ==> Moves(states, steps, i)
  }

  // --- The invariant ---------------------------------------------------------------------

  ghost predicate PushedOk(pc: Q.ProducerPc) {
    pc.Pushed? && pc.write.status == Success
  }

  ghost predicate ProducerSide(s: State) {
    && Sized(s) && !s.stopped && s.published == s.sent
    && |s.q.pushed| == s.q.head <= |s.script| && s.q.pushed == s.script[..s.q.head]
    && s.q.head == s.sent + (if PushedOk(s.q.producer) then 1 else 0)
    && (s.q.producer != Q.PushIdle ==> s.sent < |s.script| && s.q.producer.payload == s.script[s.sent])
    && (s.q.producer.Pushed? ==>
          s.q.producer.write == WriteResult(Success, s.sent + 1) || s.q.producer.write.status == Full)
    && (s.done ==> s.q.producer == Q.PushIdle)
  }

  ghost predicate PoppedOk(pc: Q.ConsumerPc) {
    pc.Popped? && pc.read.status == Success
  }

  ghost predicate ConsumerSide(s: State) {
    && s.q.tail == s.popped + (if PoppedOk(s.q.consumer) then 1 else 0)
    && (s.q.consumer != Q.PopIdle ==> s.q.consumer.room == s.room)
    && s.loop != Broken && (s.loop != Popping ==> s.q.consumer == Q.PopIdle)
    && (s.loop == TestFirst || s.loop.TestSecond? || s.loop == Exited ==> s.done)
    && (s.loop.TestSecond? ==> s.loop.value == if s.loop.headFirst then s.q.head else s.q.tail)
    && (s.loop == Exited ==> s.q.tail == s.q.head)
  }

  ghost predicate Inv(s: State) {
    T.Inv(s.q) && ProducerSide(s) && ConsumerSide(s) && !s.failed
  }

  /** What the producer's steps do to the ring. */
  lemma PushEffect(q: Q.State, q': Q.State, st: Q.Step)
    requires T.Inv(q) && Q.Next(q, q', st) && Q.ByProducer(st)
    ensures q'.tail == q.tail && q'.consumer == q.consumer && q'.maxPayload == q.maxPayload
    ensures if st.PublishHead?
            then q'.head == q.head + 1 && q'.pushed == q.pushed + [q.producer.payload] && q'.producer.Pushed?
                 && q'.producer.write == WriteResult(Success, q.head + 1)
            else q'.head == q.head && q'.pushed == q.pushed
    ensures q.producer == Q.PushIdle <==> st.StartPush?
    ensures q'.producer == Q.PushIdle <==> st.FinishPush?
    ensures st.StartPush? ==> q'.producer.payload == st.payload
    ensures !st.StartPush? && !st.FinishPush? ==> q'.producer.payload == q.producer.payload && !q.producer.Pushed?
    ensures q'.producer.Pushed? && !st.PublishHead? ==>
              q'.producer.write.status == Full || q.maxPayload < |q'.producer.payload|
    ensures PushedOk(q'.producer) ==> st.PublishHead?
  {
  }

  lemma ProducerKeepsInv(s: State, s': State, step: Step)
    requires Inv(s) && Next(s, s', step) && (step.Offer? || step.Push? || step.Confirm?)
    ensures Inv(s')
  {
    var st := if step.Offer? then Q.StartPush(s.script[s.sent])
              else if step.Push? then step.step else Q.FinishPush;
    T.NextKeepsInv(s.q, s'.q, st);
    PushEffect(s.q, s'.q, st);
  }

  /** What the consumer's steps do to the ring. */
  lemma PopEffect(q: Q.State, q': Q.State, st: Q.Step)
    requires T.Inv(q) && Q.Next(q, q', st) && Q.ByConsumer(st)
    ensures q'.head == q.head && q'.producer == q.producer && q'.pushed == q.pushed && q'.maxPayload == q.maxPayload
    ensures q'.tail == q.tail + if st.AdvanceTail? then 1 else 0
    ensures PoppedOk(q'.consumer) <==> st.AdvanceTail?
    ensures q.consumer == Q.PopIdle <==> st.StartPop?
    ensures q'.consumer == Q.PopIdle <==> st.FinishPop?
    ensures st.StartPop? ==> q'.consumer.room == st.room
    ensures !st.StartPop? && !st.FinishPop? ==> q'.consumer.room == q.consumer.room && !q.consumer.Popped?
  {
  }

  /** A popped message is the next one of the script. */
  lemma PoppedMessage(s: State)
    requires Inv(s) && s.q.consumer.Popped?
    ensures var pc := s.q.consumer;
            || pc.read.status == Empty
            || (&& pc.read.status == Success && pc.read.sequence == s.popped + 1
                && s.popped < |s.script| && Filled(pc.data, s.room) == s.script[s.popped])
  {
  }

  lemma ConsumerKeepsInv(s: State, s': State, step: Step)
    requires Inv(s) && Next(s, s', step) && (step.Pop? || step.Check?)
    ensures Inv(s')
  {
    var st := if step.Pop? then step.step else Q.FinishPop;
    if step.Check? {
      PoppedMessage(s);
    }
    T.NextKeepsInv(s.q, s'.q, st);
    PopEffect(s.q, s'.q, st);
  }

  lemma NextKeepsInv(s: State, s': State, step: Step)
    requires Inv(s) && Next(s, s', step)
    ensures Inv(s')
  {
    if step.Offer? || step.Push? || step.Confirm? {
      ProducerKeepsInv(s, s', step);
    } else if step.Pop? || step.Check? {
      ConsumerKeepsInv(s, s', step);
    }
  }

  lemma {:induction false} RunInv(states: seq<State>, steps: seq<Step>, i: nat)
    requires Run(states, steps) && i < |states|
    ensures Inv(states[i])
  {
    if i == 0 {
      T.InitInv(states[0].q);
    } else {
      var k := i - 1;
      RunInv(states, steps, k);
      assert Moves(states, steps, k);
      NextKeepsInv(states[k], states[k + 1], steps[k]);
    }
  }

  // --- Theorems --------------------------------------------------------------------------

  /** The harness never records a failure, and neither loop is left by `break`: every push
      gets the next sequence, every popped message is the next one generated. */
  lemma NeverFails(states: seq<State>, steps: seq<Step>, i: nat)
    requires Run(states, steps) && i < |states|
    ensures !states[i].failed && !states[i].stopped && states[i].loop != Broken
  {
    RunInv(states, steps, i);
  }

  /** The drain loses nothing: in every interleaving, once the consumer has left through its
      loop condition, every push that will ever succeed has succeeded and has been popped,
      and the counts the harness compares after joining are equal. */
  lemma DrainIsComplete(states: seq<State>, steps: seq<Step>, i: nat)
    requires Run(states, steps) && i < |states| && states[i].loop == Exited
    ensures var s := states[i];
            && s.done && s.q.producer == Q.PushIdle
            && s.q.tail == s.q.head && s.popped == s.published == s.sent == s.q.head
  {
    RunInv(states, steps, i);
  }

  // --- Termination of the consumer loop --------------------------------------------------

  /** Own steps a pop of a message of `m` bytes may still take. */
  function PopSteps(pc: Q.ConsumerPc, m: nat): int {
    match pc
    case PopIdle => m + 5
    case TailLoaded(_, _) => m + 4
    case Opening(_, _) => m + 3
    case Copying(_, _, size, copied) => size - |copied| + 2
    case Advancing(_, _, _, _) => 1
    case Popped(_, _, _) => 0
  }

  /** Own steps of one turn of the loop: its condition, its pop and its body. */
  function Turn(m: nat): nat {
    m + 9
  }

  /** Own steps the consumer may still take once the flag is raised, with `held` messages. */
  function StepsLeft(held: nat, loop: Loop, pc: Q.ConsumerPc, m: nat): int {
    match loop
    case TestDone => held * Turn(m) + 3
    case TestFirst => held * Turn(m) + 2
    case TestSecond(_, _) => held * Turn(m) + 1
    case Popping =>
      if pc.Popped? then held * Turn(m) + 4
      else (if held == 0 then 0 else held - 1) * Turn(m) + 4 + PopSteps(pc, m)
    case _ => 0
  }

  function Held(q: Q.State): nat {
    if q.tail <= q.head then q.head - q.tail else 0
  }

  function Left(s: State): int {
    StepsLeft(Held(s.q), s.loop, s.q.consumer, s.room)
  }

  predicate ByLoop(step: Step) {
    step.LoadDone? || step.LoadFirst? || step.LoadSecond? || step.Pop? || step.Check?
  }

  /** A pop step after the last push. */
  lemma PopProgress(q: Q.State, q': Q.State, st: Q.Step, m: nat)
    requires T.Inv(q) && Q.Next(q, q', st) && Q.ByConsumer(st) && !st.FinishPop?
    requires forall k :: 0 <= k < q.head ==> |q.pushed[k]| <= m
    requires forall k :: 0 <= k < q.head && q.consumer != Q.PopIdle ==> |q.pushed[k]| <= q.consumer.room
    ensures 0 <= PopSteps(q'.consumer, m) < PopSteps(q.consumer, m) <= m + 5
    ensures q'.head == q.head && q'.tail <= q'.head
    ensures if q'.consumer.Popped? then q'.tail == q.tail + if q.tail < q.head then 1 else 0
            else q'.tail == q.tail
  {
    if q.tail < q.head {
      assert FixedMessage.Holds(Q.SlotAt(q, q.tail), q.pushed[q.tail], q.tail + 1);
    }
  }

  lemma PopLowers(s: State, s': State, step: Step)
    requires Inv(s) && Next(s, s', step) && step.Pop?
    ensures Left(s') < Left(s)
  {
    PopProgress(s.q, s'.q, step.step, s.room);
    if Held(s.q) > 0 {
      Times(Held(s.q), Turn(s.room));
    }
  }

  lemma TestLowers(s: State, s': State, step: Step)
    requires ConsumerSide(s) && s.done && s.q.tail <= s.q.head && Next(s, s', step) && ByLoop(step) && !step.Pop?
    requires s'.loop != Broken
    ensures Left(s') < Left(s)
  {
    Times(Held(s.q), Turn(s.room));
    TimesMonotone(0, Held(s.q), Turn(s.room));
  }

  /** Once the flag is raised, each own step of the consumer lowers its measure, and the
      producer has none left. */
  lemma LoopStep(s: State, s': State, step: Step)
    requires Inv(s) && s.done && Next(s, s', step)
    ensures s'.done && ByLoop(step) && Left(s') < Left(s)
  {
    if step.Pop? {
      PopLowers(s, s', step);
    } else {
      if step.Check? {
        PoppedMessage(s);
      }
      TestLowers(s, s', step);
    }
  }

  lemma LeftBounded(s: State)
    requires Inv(s)
    ensures 0 <= Left(s) <= (s.q.capacity + 1) * Turn(s.room)
    ensures Left(s) == 0 <==> s.loop == Exited
  {
    var held := Held(s.q);
    TimesMonotone(0, held, Turn(s.room));
    TimesMonotone(held, s.q.capacity, Turn(s.room));
    Times(s.q.capacity + 1, Turn(s.room));
    if held > 0 {
      TimesMonotone(0, held - 1, Turn(s.room));
      Times(held, Turn(s.room));
    }
    PopStepsBounded(s);
  }

  lemma PopStepsBounded(s: State)
    requires Inv(s)
    ensures 0 <= PopSteps(s.q.consumer, s.room) <= s.room + 5
    ensures PopSteps(s.q.consumer, s.room) == 0 ==> s.q.consumer.Popped?
  {
  }

  lemma {:induction false} StepsSpend(states: seq<State>, steps: seq<Step>, i: nat, j: nat)
    requires Run(states, steps) && i <= j < |states| && states[i].done
    ensures states[j].done && forall k :: i <= k < j ==> ByLoop(steps[k])
    ensures (j - i) + Left(states[j]) <= Left(states[i])
    decreases j
  {
    if i < j {
      StepsSpend(states, steps, i, j - 1);
      StepSpends(states, steps, j - 1);
    }
  }

  lemma StepSpends(states: seq<State>, steps: seq<Step>, k: nat)
    requires Run(states, steps) && k < |steps| && states[k].done
    ensures states[k + 1].done && ByLoop(steps[k]) && Left(states[k + 1]) < Left(states[k])
  {
    RunInv(states, steps, k);
    assert Moves(states, steps, k);
    LoopStep(states[k], states[k + 1], steps[k]);
  }

  /** The consumer loop terminates: after the flag is raised at most
      `(capacity + 1) * (room + 9)` steps are taken, all by the consumer, and when they are
      used up it has left its loop. */
  lemma LoopTerminates(states: seq<State>, steps: seq<Step>, i: nat, j: nat)
    requires Run(states, steps) && i <= j < |states| && states[i].done
    ensures forall k :: i <= k < j ==> ByLoop(steps[k])
    ensures j - i <= (states[i].q.capacity + 1) * (states[i].room + 9)
    ensures j - i == (states[i].q.capacity + 1) * (states[i].room + 9) ==> states[j].loop == Exited
  {
    StepsSpend(states, steps, i, j);
    RunInv(states, steps, i);
    RunInv(states, steps, j);
    LeftBounded(states[i]);
    LeftBounded(states[j]);
  }

  /** And until it has left, it can always take a step. */
  lemma LoopNeverStuck(s: State) returns (step: Step, s': State)
    requires Inv(s) && s.loop != Exited
    ensures Next(s, s', step) && ByLoop(step)
  {
    match s.loop
    case TestDone =>
      step, s' := LoadDone, s.(loop := if s.done then TestFirst else Popping);
    case TestFirst =>
      step, s' := LoadFirst(true), s.(loop := TestSecond(true, s.q.head));
    case TestSecond(headFirst, value) =>
      step := LoadSecond;
      s' := s.(loop := if value == (if headFirst then s.q.tail else s.q.head) then Exited else Popping);
    case Popping =>
      if s.q.consumer == Q.PopIdle {
        step, s' := Pop(Q.StartPop(s.room)), s.(q := s.q.(consumer := Q.TailLoaded(s.room, s.q.tail)));
      } else if s.q.consumer.Popped? {
        PoppedMessage(s);
        step := Check;
        s' := s.(q := s.q.(consumer := Q.PopIdle), loop := TestDone,
                 popped := s.popped + if s.q.consumer.read.status == Empty then 0 else 1);
      } else {
        var st, q := T.ConsumerNeverStuck(s.q);
        step, s' := Pop(st), s.(q := q);
      }
  }
}
