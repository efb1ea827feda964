/** Every answer of the single-producer single-consumer ring over runs, in terms of the
    argument its call was made with. */
module SpscAnswers {
  import opened Results
  import opened FixedMessage
  import opened Fifo
  import opened SpscMachine
  import opened SpscTheorems

  // --- Pushes ----------------------------------------------------------------------------

  /** The push in progress at state `j` was called at step `i`. */
  ghost predicate PushFrom(states: seq<State>, steps: seq<Step>, i: nat, j: nat) {
    && i < j <= |steps| && |states| == |steps| + 1 && states[j].producer != PushIdle
    && steps[i] == StartPush(states[j].producer.payload)
    && forall m :: i < m < j ==> !steps[m].StartPush? && !steps[m].FinishPush?
  }

  /** What the step from `s` to `s'` decides for a push of `payload`. */
  ghost predicate PushDecided(s: State, s': State, payload: Payload, w: WriteResult) {
    if |payload| > s.maxPayload then w == WriteResult(MessageTooLarge, 0) && SameRing(s, s')
    else if s.head == s.tail + s.capacity then w == WriteResult(Full, 0) && SameRing(s, s')
    else
      && w == WriteResult(Success, s.head + 1)
      && s'.head == s.head + 1 && s'.tail == s.tail && s'.pushed == s.pushed + [payload]
      && s'.log == s.log + [Enqueue(0, Item(payload, s.head + 1))]
  }

  /** One step of the ring, seen by the push in progress. */
  lemma PushStep(s: State, s': State, step: Step)
    requires Inv(s) && Next(s, s', step) && s'.producer != PushIdle
    ensures s.producer == PushIdle ==> step == StartPush(s'.producer.payload)
    ensures s.producer != PushIdle ==>
              !step.StartPush? && !step.FinishPush? && s'.producer.payload == s.producer.payload
    ensures if s'.producer.Pushed? && !s.producer.Pushed?
            then PushDecided(s, s', s'.producer.payload, s'.producer.write)
            else s'.head == s.head && (s.producer.Pushed? ==> s'.producer == s.producer)
  {
  }

  /** Every push under way: its call, and once it has returned the step that decided it. */
  lemma {:induction false} PushStory(states: seq<State>, steps: seq<Step>, j: nat) returns (i: nat, k: nat)
    requires Run(states, steps) && j < |states| && states[j].producer != PushIdle
    ensures PushFrom(states, steps, i, j) && i <= k <= j && states[i].head == states[k].head
    ensures states[j].producer.Pushed? ==>
              && k < j && states[k + 1].head == states[j].head
              && PushDecided(states[k], states[k + 1], states[j].producer.payload, states[j].producer.write)
    ensures !states[j].producer.Pushed? ==> k == j
    decreases j
  {
    var m := j - 1;
    assert Moves(states, steps, m);
    RunInv(states, steps, m);
    PushStep(states[m], states[j], steps[m]);
    if states[m].producer == PushIdle {
      i := m;
      k := if states[j].producer.Pushed? then m else j;
    } else {
      i, k := PushStory(states, steps, m);
      if !states[j].producer.Pushed? {
        k := j;
      }
    }
  }

  /** Every answer of `try_push`: the call was made with this very payload, and at one step
      between call and return the ring refused it as too large or full and stayed as it was,
      or appended exactly this payload with the next sequence. Nothing else was pushed by
      the call. */
  lemma PushesAreAnswered(states: seq<State>, steps: seq<Step>, j: nat) returns (i: nat, k: nat)
    requires Run(states, steps) && j < |states| && states[j].producer.Pushed?
    ensures PushFrom(states, steps, i, j) && i <= k < j
    ensures states[i].head == states[k].head && states[k + 1].head == states[j].head
    ensures var s, s', payload, w := states[k], states[k + 1], states[j].producer.payload, states[j].producer.write;
            if |payload| > s.maxPayload then w == WriteResult(MessageTooLarge, 0) && SameRing(s, s')
            else if s.head == s.tail + s.capacity then w == WriteResult(Full, 0) && SameRing(s, s')
            else && w == WriteResult(Success, s.head + 1)
                 && s'.pushed == s.pushed + [payload]
                 && s'.log == s.log + [Enqueue(0, Item(payload, s.head + 1))]
  {
    i, k := PushStory(states, steps, j);
  }

  // --- Pops ------------------------------------------------------------------------------

  ghost predicate PopFrom(states: seq<State>, steps: seq<Step>, i: nat, j: nat) {
    && i < j <= |steps| && |states| == |steps| + 1 && states[j].consumer != PopIdle
    && steps[i] == StartPop(states[j].consumer.room)
    && forall m :: i < m < j ==> !steps[m].StartPop? && !steps[m].FinishPop?
  }

  /** What the step from `s` to `s'` decides for a pop into `room` bytes. */
  ghost predicate PopDecided(s: State, s': State, room: nat, read: ReadResult, data: Payload) {
    && s.tail <= s.head == |s.pushed|
    && if s.tail == s.head then read == ReadResult(Empty, 0, 0) && data == [] && SameRing(s, s')
       else
         var oldest := s.pushed[s.tail];
         if room < |oldest| then read == ReadResult(MessageTooLarge, 0, s.tail + 1) && data == [] && SameRing(s, s')
         else
           && read == ReadResult(Success, |oldest|, s.tail + 1) && data == oldest
           && s'.tail == s.tail + 1 && s'.head == s.head && s'.pushed == s.pushed
           && s'.log == s.log + [Dequeue(1, Item(oldest, s.tail + 1))]
  }

  lemma PopStep(s: State, s': State, step: Step)
    requires Inv(s) && Next(s, s', step) && s'.consumer != PopIdle
    ensures s.consumer == PopIdle ==> step == StartPop(s'.consumer.room)
    ensures s.consumer != PopIdle ==>
              !step.StartPop? && !step.FinishPop? && s'.consumer.room == s.consumer.room
    ensures if s'.consumer.Popped? && !s.consumer.Popped?
            then PopDecided(s, s', s'.consumer.room, s'.consumer.read, s'.consumer.data)
            else s'.tail == s.tail && (s.consumer.Popped? ==> s'.consumer == s.consumer)
  {
    if s.tail < s.head {
      assert Holds(SlotAt(s, s.tail), s.pushed[s.tail], s.tail + 1);
    }
  }

  lemma {:induction false} PopStory(states: seq<State>, steps: seq<Step>, j: nat) returns (i: nat, k: nat)
    requires Run(states, steps) && j < |states| && states[j].consumer != PopIdle
    ensures PopFrom(states, steps, i, j) && i <= k <= j && states[i].tail == states[k].tail
    ensures states[j].consumer.Popped? ==>
              && k < j && states[k + 1].tail == states[j].tail
              && PopDecided(states[k], states[k + 1], states[j].consumer.room,
                            states[j].consumer.read, states[j].consumer.data)
    ensures !states[j].consumer.Popped? ==> k == j
    decreases j
  {
    var m := j - 1;
    assert Moves(states, steps, m);
    RunInv(states, steps, m);
    PopStep(states[m], states[j], steps[m]);
    if states[m].consumer == PopIdle {
      i, k := m, j;
    } else {
      i, k := PopStory(states, steps, m);
      if !states[j].consumer.Popped? {
        k := j;
      }
    }
  }

  /** Every answer of `try_pop`: the call was made with this much room, and at one step
      between call and return the ring was empty, or its oldest message did not fit and
      stayed, or it was handed over whole and removed. Nothing else was popped by the call. */
  lemma PopsAreAnswered(states: seq<State>, steps: seq<Step>, j: nat) returns (i: nat, k: nat)
    requires Run(states, steps) && j < |states| && states[j].consumer.Popped?
    ensures PopFrom(states, steps, i, j) && i <= k < j
    ensures states[i].tail == states[k].tail && states[k + 1].tail == states[j].tail
    ensures var s, s', pc := states[k], states[k + 1], states[j].consumer;
            && s.tail <= s.head == |s.pushed|
            && if s.tail == s.head then pc.read == ReadResult(Empty, 0, 0) && pc.data == [] && SameRing(s, s')
               else if pc.room < |s.pushed[s.tail]|
               then pc.read == ReadResult(MessageTooLarge, 0, s.tail + 1) && pc.data == [] && SameRing(s, s')
               else && pc.data == s.pushed[s.tail] && pc.read == ReadResult(Success, |pc.data|, s.tail + 1)
                    && s'.tail == s.tail + 1 && s'.log == s.log + [Dequeue(1, Item(pc.data, s.tail + 1))]
  {
    i, k := PopStory(states, steps, j);
  }
}
