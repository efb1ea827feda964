/** Split-step safety of the single-producer single-consumer ring over every run. */
module SpscTheorems {
  import opened Results
  import opened FixedMessage
  import opened Fifo
  import opened Ring
  import opened SpscMachine

  // --- The invariant ---------------------------------------------------------------------

  ghost predicate Shape(s: State) {
    && 0 < s.capacity && |s.slots| == s.capacity
    && (forall i :: 0 <= i < s.capacity ==> |s.slots[i].storage| == s.maxPayload)
    && s.tail <= s.head <= s.tail + s.capacity
    && |s.pushed| == s.head
  }

  ghost predicate Contents(s: State)
    requires Shape(s)
  {
    forall p :: s.tail <= p < s.head ==> Holds(SlotAt(s, p), s.pushed[p], p + 1)
  }

  ghost predicate Logged(s: State)
    requires Shape(s)
  {
    Replay(s.log, s.capacity) == Some(Queue(Window(s.pushed, s.tail, s.head), s.head))
  }

  ghost predicate ProducerOk(s: State)
    requires Shape(s)
  {
    match s.producer
    case PushIdle => true
    case HeadLoaded(payload, head) => head == s.head && |payload| <= s.maxPayload
    case Storing(payload, head, k) =>
      && head == s.head < s.tail + s.capacity
      && Stored(SlotAt(s, head), payload, head + 1, k)
    case Pushed(payload, w) =>
      w.status == Success ==> w.sequence == s.head && 0 < s.head && s.pushed[s.head - 1] == payload
  }

  ghost predicate ConsumerOk(s: State)
    requires Shape(s)
  {
    match s.consumer
    case PopIdle => true
    case TailLoaded(_, tail) => tail == s.tail
    case Opening(_, tail) => tail == s.tail < s.head
    case Copying(room, tail, size, copied) =>
      && tail == s.tail < s.head && size == |s.pushed[tail]| <= room
      && |copied| <= size && copied == s.pushed[tail][..|copied|]
    case Advancing(room, tail, read, data) =>
      && tail == s.tail < s.head && data == s.pushed[tail] && |data| <= room
      && read == ReadResult(Success, |data|, tail + 1)
    case Popped(room, read, data) =>
      match read.status
      case Success =>
        0 < s.tail && data == s.pushed[s.tail - 1] && read == ReadResult(Success, |data|, s.tail)
      case MessageTooLarge =>
        && s.tail < s.head && room < |s.pushed[s.tail]|
        && read == ReadResult(MessageTooLarge, 0, s.tail + 1) && data == []
      case _ => read == ReadResult(Empty, 0, 0) && data == []
  }

  ghost predicate Observers(s: State) {
    forall o :: 0 <= o < |s.observers| ==>
      && (s.observers[o].HasHead? ==> s.observers[o].head <= s.head)
      && (s.observers[o].HasTail? ==> s.observers[o].tail <= s.tail)
  }

  ghost predicate Inv(s: State) {
    Shape(s) && Contents(s) && Logged(s) && ProducerOk(s) && ConsumerOk(s) && Observers(s)
  }

  // --- Preservation ----------------------------------------------------------------------

  lemma InitInv(s: State)
    requires Init(s)
    ensures Inv(s)
  {
    assert Window(s.pushed, s.tail, s.head) == [];
  }

  /** The slot being written is none of the slots holding unread messages. */
  lemma WriteFrame(s: State, m: Image)
    requires Shape(s) && s.head < s.tail + s.capacity
    ensures forall p :: s.tail <= p < s.head ==>
              s.slots[Index(s.head, s.capacity) := m][Index(p, s.capacity)] == SlotAt(s, p)
  {
    forall p | s.tail <= p < s.head
      ensures s.slots[Index(s.head, s.capacity) := m][Index(p, s.capacity)] == SlotAt(s, p)
    {
      Distinct(p, s.head, s.capacity);
    }
  }

  lemma StoreByteKeepsInv(s: State, s': State)
    requires Inv(s) && DoStoreByte(s, s')
    ensures Inv(s')
  {
    WriteFrame(s, SlotAt(s', s.head));
    assert forall p :: s.tail <= p < s.head ==> SlotAt(s', p) == SlotAt(s, p);
  }

  lemma PublishKeepsInv(s: State, s': State)
    requires Inv(s) && DoPublishHead(s, s')
    ensures Inv(s')
  {
    var payload := s.producer.payload;
    assert SlotAt(s, s.head).storage[..|payload|] == payload;
    assert forall p :: s.tail <= p < s.head ==> SlotAt(s', p) == SlotAt(s, p);
    WindowPush(s.pushed, s.tail, s.head, payload);
    ReplayAppend(s.log, Enqueue(0, Item(payload, s.head + 1)), s.capacity);
  }

  lemma AdvanceKeepsInv(s: State, s': State)
    requires Inv(s) && DoAdvanceTail(s, s')
    ensures Inv(s')
  {
    assert forall p :: s'.tail <= p < s.head ==> SlotAt(s', p) == SlotAt(s, p);
    WindowPop(s.pushed, s.tail, s.head);
    ReplayAppend(s.log, Dequeue(1, Item(s.consumer.data, s.consumer.read.sequence)), s.capacity);
  }

  lemma LoadByteKeepsInv(s: State, s': State)
    requires Inv(s) && DoLoadByte(s, s')
    ensures Inv(s')
  {
    assert Holds(SlotAt(s, s.tail), s.pushed[s.tail], s.tail + 1);
    assert forall p :: s.tail <= p < s.head ==> SlotAt(s', p) == SlotAt(s, p);
  }

  ghost predicate SameRing(s: State, s': State) {
    && s'.capacity == s.capacity && s'.maxPayload == s.maxPayload && s'.slots == s.slots
    && s'.head == s.head && s'.tail == s.tail && s'.pushed == s.pushed && s'.log == s.log
  }

  lemma RingKept(s: State, s': State)
    requires Shape(s) && Contents(s) && Logged(s) && SameRing(s, s')
    ensures Shape(s') && Contents(s') && Logged(s')
  {
    assert forall p :: s.tail <= p < s.head ==> SlotAt(s', p) == SlotAt(s, p);
  }

  lemma ProducerLocal(s: State, s': State, step: Step)
    requires Inv(s) && Next(s, s', step) && (step.StartPush? || step.CheckTail? || step.FinishPush?)
    ensures Inv(s')
  {
    RingKept(s, s');
  }

  lemma ConsumerLocal(s: State, s': State, step: Step)
    requires Inv(s) && Next(s, s', step) && (step.StartPop? || step.CheckHead? || step.FinishPop?)
    ensures Inv(s')
  {
    RingKept(s, s');
  }

  lemma PartiesKept(s: State, s': State)
    requires Shape(s) && ProducerOk(s) && ConsumerOk(s) && SameRing(s, s')
    requires s'.producer == s.producer && s'.consumer == s.consumer
    ensures Shape(s') && ProducerOk(s') && ConsumerOk(s')
  {
  }

  lemma ObserverLocal(s: State, s': State, step: Step)
    requires Inv(s) && Next(s, s', step) && (step.LookFirst? || step.LookSecond? || step.LookAway?)
    ensures Inv(s')
  {
    RingKept(s, s');
    PartiesKept(s, s');
  }

  lemma NextKeepsInv(s: State, s': State, step: Step)
    requires Inv(s) && Next(s, s', step)
    ensures Inv(s')
  {
    match step
    case StoreByte => StoreByteKeepsInv(s, s');
    case PublishHead => PublishKeepsInv(s, s');
    case AdvanceTail => AdvanceKeepsInv(s, s');
    case LoadByte => LoadByteKeepsInv(s, s');
    case _ =>
      if ByProducer(step) {
        ProducerLocal(s, s', step);
      } else if ByConsumer(step) {
        ConsumerLocal(s, s', step);
      } else {
        ObserverLocal(s, s', step);
      }
  }

  lemma {:induction false} RunInv(states: seq<State>, steps: seq<Step>, i: nat)
    requires Run(states, steps) && i < |states|
    ensures Inv(states[i])
  {
    if i == 0 {
      InitInv(states[0]);
    } else {
      var k := i - 1;
      RunInv(states, steps, k);
      assert Moves(states, steps, k);
      NextKeepsInv(states[k], states[k + 1], steps[k]);
    }
  }

  // --- Theorems --------------------------------------------------------------------------

  /** Work-sharing FIFO over every run: popped payloads are a prefix of pushed payloads with
      sequences 1, 2, 3, ..., and the counters stay within one capacity. */
  lemma RunRefinesFifo(states: seq<State>, steps: seq<Step>, i: nat)
    requires Run(states, steps) && i < |states|
    ensures var s := states[i];
            && s.tail <= s.head <= s.tail + s.capacity
            && |Enqueued(s.log)| == s.head && |Dequeued(s.log)| == s.tail
            && Dequeued(s.log) <= Enqueued(s.log)
            && Numbered(Enqueued(s.log))
  {
    RunInv(states, steps, i);
    LegalLog(states[i].log, states[i].capacity);
  }

  /** The slot being written is never the slot being copied. */
  lemma SlotExclusion(states: seq<State>, steps: seq<Step>, i: nat)
    requires Run(states, steps) && i < |states|
    requires states[i].producer.Storing?
    requires states[i].consumer.Opening? || states[i].consumer.Copying? || states[i].consumer.Advancing?
    ensures && 0 < states[i].capacity
            && Index(states[i].producer.head, states[i].capacity)
               != Index(states[i].consumer.tail, states[i].capacity)
  {
    var s := states[i];
    RunInv(states, steps, i);
    Distinct(s.tail, s.head, s.capacity);
  }

  /** What the answers mean. A success hands over exactly the oldest unread message; a short
      destination leaves it in place; `full` and `empty` are exact at the load they come
      from, since the caller owns the other counter. */
  lemma PopMeans(s: State, s': State, step: Step)
    requires Inv(s) && Next(s, s', step) && !s.consumer.Popped? && s'.consumer.Popped?
    ensures Inv(s')
    ensures var pc := s'.consumer;
            match pc.read.status
            case Success =>
              && s.tail < s.head && s'.tail == s.tail + 1
              && pc.data == s.pushed[s.tail] && pc.read == ReadResult(Success, |pc.data|, s.tail + 1)
            case MessageTooLarge =>
              && s'.tail == s.tail < s.head && pc.room < |s.pushed[s.tail]|
              && pc.read == ReadResult(MessageTooLarge, 0, s.tail + 1) && pc.data == []
            case Empty => s'.tail == s.tail == s.head && pc.read == ReadResult(Empty, 0, 0) && pc.data == []
            case _ => false
  {
    NextKeepsInv(s, s', step);
    if s.tail < s.head {
      assert Holds(SlotAt(s, s.tail), s.pushed[s.tail], s.tail + 1);
    }
  }

  lemma PushMeans(s: State, s': State, step: Step)
    requires Inv(s) && Next(s, s', step) && !s.producer.Pushed? && s'.producer.Pushed?
    ensures Inv(s')
    ensures match s'.producer.write.status
            case Success =>
              && s.head < s.tail + s.capacity && s'.head == s.head + 1
              && s'.producer.write.sequence == s.head + 1
              && s'.pushed == s.pushed + [s'.producer.payload]
            case Full => s'.head == s.head == s.tail + s.capacity && s'.producer.write.sequence == 0
            case MessageTooLarge =>
              && s'.head == s.head && s.maxPayload < |s'.producer.payload| && s'.producer.write.sequence == 0
            case _ => false
  {
    NextKeepsInv(s, s', step);
  }

  /** Nobody is ever blocked: the guards of the machine exclude nothing. */
  lemma ProducerNeverStuck(s: State) returns (step: Step, s': State)
    requires Inv(s) && s.producer != PushIdle
    ensures Next(s, s', step) && ByProducer(step)
  {
    var pc := s.producer;
    match pc
    case HeadLoaded(payload, head) =>
      step := CheckTail;
      s' := s.(producer := if head - s.tail == s.capacity
                           then Pushed(payload, WriteResult(Full, 0)) else Storing(payload, head, 0));
    case Storing(payload, head, k) =>
      if k < |payload| + 2 {
        step := StoreByte;
        s' := s.(slots := s.slots[Index(head, s.capacity) := NextStore(SlotAt(s, head), payload, head + 1, k)],
                 producer := pc.(k := k + 1));
      } else {
        step := PublishHead;
        s' := s.(head := head + 1, producer := Pushed(payload, WriteResult(Success, head + 1)),
                 pushed := s.pushed + [payload], log := s.log + [Enqueue(0, Item(payload, head + 1))]);
      }
    case _ =>
      step, s' := FinishPush, s.(producer := PushIdle);
  }

  lemma ConsumerNeverStuck(s: State) returns (step: Step, s': State)
    requires Inv(s) && s.consumer != PopIdle
    ensures Next(s, s', step) && ByConsumer(step)
  {
    var pc := s.consumer;
    match pc
    case TailLoaded(room, tail) =>
      step := CheckHead;
      s' := s.(consumer := if tail == s.head then Popped(room, ReadResult(Empty, 0, 0), []) else Opening(room, tail));
    case Opening(room, tail) =>
      var m := SlotAt(s, tail);
      step := LoadByte;
      s' := s.(consumer := if room < m.size then Popped(room, ReadResult(MessageTooLarge, 0, m.sequence), [])
                           else Copying(room, tail, m.size, []));
    case Copying(room, tail, size, copied) =>
      var m := SlotAt(s, tail);
      assert Holds(m, s.pushed[tail], tail + 1);
      step := LoadByte;
      s' := s.(consumer := if |copied| < size then pc.(copied := copied + [m.storage[|copied|]])
                           else Advancing(room, tail, ReadResult(Success, size, m.sequence), copied));
    case Advancing(room, tail, read, data) =>
      step := AdvanceTail;
      s' := s.(tail := tail + 1, consumer := Popped(room, read, data),
               log := s.log + [Dequeue(1, Item(data, read.sequence))]);
    case _ =>
      step, s' := FinishPop, s.(consumer := PopIdle);
  }
}
