/** The single-producer single-consumer ring as a step machine: one producer, one consumer
    and any number of other threads calling `empty()` and `full()`. Every step is one shared
    access; payload copies go byte by byte. Interleaving is sequentially consistent and
    counters do not wrap. */
module SpscMachine {
  import opened Results
  import opened FixedMessage
  import opened Fifo
  import opened Ring

  /** `k` counts the stores of `assign` already made: bytes, size, sequence stamp. */
  datatype ProducerPc =
    | PushIdle
    | HeadLoaded(payload: Payload, head: nat)
    | Storing(payload: Payload, head: nat, k: nat)
    | Pushed(payload: Payload, write: WriteResult)

  datatype ConsumerPc =
    | PopIdle
    | TailLoaded(room: nat, tail: nat)
    | Opening(room: nat, tail: nat)
    | Copying(room: nat, tail: nat, size: nat, copied: Payload)
    | Advancing(room: nat, tail: nat, read: ReadResult, data: Payload)
    | Popped(room: nat, read: ReadResult, data: Payload)

  /** A call of `full()` or `empty()`. The language does not fix which operand of the
      comparison is loaded first, so both orders are steps. */
  datatype ObserverPc =
    | Quiet
    | HasHead(full: bool, head: nat)
    | HasTail(full: bool, tail: nat)
    | Told(full: bool, headFirst: bool, answer: bool)

  /** `pushed` and `log` are auxiliary: every published payload, and the push and pop events
      at the `head_` and `tail_` stores. */
  datatype State = State(
    capacity: nat,
    maxPayload: nat,
    slots: seq<Image>,
    head: nat,
    tail: nat,
    producer: ProducerPc,
    consumer: ConsumerPc,
    observers: seq<ObserverPc>,
    pushed: seq<Payload>,
    log: seq<Event>)

  ghost predicate Init(s: State) {
    && 0 < s.capacity && |s.slots| == s.capacity
    && (forall i :: 0 <= i < s.capacity ==> |s.slots[i].storage| == s.maxPayload)
    && s.head == 0 && s.tail == 0 && s.producer == PushIdle && s.consumer == PopIdle
    && (forall o :: 0 <= o < |s.observers| ==> s.observers[o] == Quiet)
    && s.pushed == [] && s.log == []
  }

  ghost predicate WellFormed(s: State) {
    0 < s.capacity && |s.slots| == s.capacity
  }

  function SlotAt(s: State, p: nat): Image
    requires WellFormed(s)
  {
    s.slots[Index(p, s.capacity)]
  }

  datatype Step =
    | StartPush(payload: Payload)
    | CheckTail
    | StoreByte
    | PublishHead
    | FinishPush
    | StartPop(room: nat)
    | CheckHead
    | LoadByte
    | AdvanceTail
    | FinishPop
    | LookFirst(o: nat, full: bool, headFirst: bool)
    | LookSecond(o: nat)
    | LookAway(o: nat)

  predicate ByProducer(step: Step) {
    step.StartPush? || step.CheckTail? || step.StoreByte? || step.PublishHead? || step.FinishPush?
  }

  predicate ByConsumer(step: Step) {
    step.StartPop? || step.CheckHead? || step.LoadByte? || step.AdvanceTail? || step.FinishPop?
  }

  // --- Producer --------------------------------------------------------------------------

  ghost predicate DoStartPush(s: State, s': State, payload: Payload) {
    && s.producer == PushIdle
    && s' == s.(producer := if |payload| > s.maxPayload
                            then Pushed(payload, WriteResult(MessageTooLarge, 0))
                            else HeadLoaded(payload, s.head))
  }

  ghost predicate DoCheckTail(s: State, s': State) {
    && s.producer.HeadLoaded?
    && s' == s.(producer := if s.producer.head - s.tail == s.capacity
                            then Pushed(s.producer.payload, WriteResult(Full, 0))
                            else Storing(s.producer.payload, s.producer.head, 0))
  }

  ghost predicate DoStoreByte(s: State, s': State) {
    && WellFormed(s) && s.producer.Storing?
    && var pc := s.producer;
       && pc.k < |pc.payload| + 2
       && (pc.k < |pc.payload| ==> pc.k < |SlotAt(s, pc.head).storage|)
       && s' == s.(slots := s.slots[Index(pc.head, s.capacity) :=
                              NextStore(SlotAt(s, pc.head), pc.payload, pc.head + 1, pc.k)],
                   producer := pc.(k := pc.k + 1))
  }

  ghost predicate DoPublishHead(s: State, s': State) {
    && s.producer.Storing? && s.producer.k == |s.producer.payload| + 2
    && var pc := s.producer;
       s' == s.(head := pc.head + 1,
                producer := Pushed(pc.payload, WriteResult(Success, pc.head + 1)),
                pushed := s.pushed + [pc.payload],
                log := s.log + [Enqueue(0, Item(pc.payload, pc.head + 1))])
  }

  ghost predicate DoFinishPush(s: State, s': State) {
    s.producer.Pushed? && s' == s.(producer := PushIdle)
  }

  // --- Consumer --------------------------------------------------------------------------

  ghost predicate DoStartPop(s: State, s': State, room: nat) {
    s.consumer == PopIdle && s' == s.(consumer := TailLoaded(room, s.tail))
  }

  ghost predicate DoCheckHead(s: State, s': State) {
    && s.consumer.TailLoaded?
    && s' == s.(consumer := if s.consumer.tail == s.head
                            then Popped(s.consumer.room, ReadResult(Empty, 0, 0), [])
                            else Opening(s.consumer.room, s.consumer.tail))
  }

  ghost predicate DoLoadByte(s: State, s': State) {
    && WellFormed(s)
    && var pc := s.consumer;
       || (&& pc.Opening?
           && var m := SlotAt(s, pc.tail);
              s' == s.(consumer := if pc.room < m.size
                                   then Popped(pc.room, ReadResult(MessageTooLarge, 0, m.sequence), [])
                                   else Copying(pc.room, pc.tail, m.size, [])))
       || (&& pc.Copying?
           && var m := SlotAt(s, pc.tail);
              && (|pc.copied| < pc.size ==> |pc.copied| < |m.storage|)
              && s' == s.(consumer :=
                            if |pc.copied| < pc.size
                            then pc.(copied := pc.copied + [m.storage[|pc.copied|]])
                            else Advancing(pc.room, pc.tail, ReadResult(Success, pc.size, m.sequence), pc.copied)))
  }

  ghost predicate DoAdvanceTail(s: State, s': State) {
    && s.consumer.Advancing?
    && var pc := s.consumer;
       s' == s.(tail := pc.tail + 1,
                consumer := Popped(pc.room, pc.read, pc.data),
                log := s.log + [Dequeue(1, Item(pc.data, pc.read.sequence))])
  }

  ghost predicate DoFinishPop(s: State, s': State) {
    s.consumer.Popped? && s' == s.(consumer := PopIdle)
  }

  // --- Observers -------------------------------------------------------------------------

  ghost predicate DoLookFirst(s: State, s': State, o: nat, full: bool, headFirst: bool) {
    && o < |s.observers| && s.observers[o] == Quiet
    && s' == s.(observers := s.observers[o := if headFirst then HasHead(full, s.head) else HasTail(full, s.tail)])
  }

  function Compare(full: bool, head: nat, tail: nat, capacity: nat): bool {
    if full then head - tail == capacity else head == tail
  }

  ghost predicate DoLookSecond(s: State, s': State, o: nat) {
    && o < |s.observers|
    && var pc := s.observers[o];
       || (&& pc.HasHead?
           && s' == s.(observers := s.observers[o := Told(pc.full, true, Compare(pc.full, pc.head, s.tail, s.capacity))]))
       || (&& pc.HasTail?
           && s' == s.(observers := s.observers[o := Told(pc.full, false, Compare(pc.full, s.head, pc.tail, s.capacity))]))
  }

  ghost predicate DoLookAway(s: State, s': State, o: nat) {
    && o < |s.observers| && s.observers[o].Told?
    && s' == s.(observers := s.observers[o := Quiet])
  }

  ghost predicate Next(s: State, s': State, step: Step) {
    match step
    case StartPush(payload) => DoStartPush(s, s', payload)
    case CheckTail => DoCheckTail(s, s')
    case StoreByte => DoStoreByte(s, s')
    case PublishHead => DoPublishHead(s, s')
    case FinishPush => DoFinishPush(s, s')
    case StartPop(room) => DoStartPop(s, s', room)
    case CheckHead => DoCheckHead(s, s')
    case LoadByte => DoLoadByte(s, s')
    case AdvanceTail => DoAdvanceTail(s, s')
    case FinishPop => DoFinishPop(s, s')
    case LookFirst(o, full, headFirst) => DoLookFirst(s, s', o, full, headFirst)
    case LookSecond(o) => DoLookSecond(s, s', o)
    case LookAway(o) => DoLookAway(s, s', o)
  }

  ghost predicate Moves(states: seq<State>, steps: seq<Step>, i: nat)
    requires i < |steps| && |states| == |steps| + 1
  {
    Next(states[i], states[i + 1], steps[i])
  }

  ghost predicate Run(states: seq<State>, steps: seq<Step>) {
    && |states| == |steps| + 1
    && Init(states[0])
    && forall i :: 0 <= i < |steps| ==> Moves(states, steps, i)
  }
}
