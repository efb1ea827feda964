/** The sequence-cell MPMC ring as a step machine. Every step is one shared-memory access
    of one thread: a position load, a cell-sequence load, a weak compare-and-exchange, the
    store or load of one payload byte, or a cell-sequence store. Local work is folded into
    the access before it. Interleaving is sequentially consistent and counters do not wrap. */
module MpmcMachine {
  import opened Results
  import opened FixedMessage
  import opened Fifo
  import opened Ring

  datatype Cell = Cell(sequence: nat, message: Image)

  /** Bookkeeping of one call. `begin` is the length of the linearization log when the call
      started, `start` the first position it loaded; `retries` counts loop iterations after
      the first and `spurious` those caused by a CAS that failed although it could have
      succeeded. None of this is read by the algorithm. */
  datatype Call = Call(begin: nat, start: nat, retries: nat, spurious: nat)

  /** An answer, with the argument of the call that got it. */
  datatype Answer =
    | PushAnswer(payload: Payload, write: WriteResult)
    | PopAnswer(room: nat, read: ReadResult, data: Payload)
    | EmptyAnswer(empty: bool)

  /** Program counters. `position` is the local variable of the same name. In `PushStore`,
      `k` counts the stores already made by `assign`: the payload bytes, then the size, then
      the sequence stamp. `lin` is the index of the claim's event in the log. */
  datatype Pc =
    | Idle
    | PushProbe(payload: Payload, position: nat, call: Call)
    | PushReload(payload: Payload, position: nat, call: Call)
    | PushCas(payload: Payload, position: nat, call: Call)
    | PushStore(payload: Payload, position: nat, call: Call, lin: nat, k: nat)
    | PopProbe(room: nat, position: nat, call: Call)
    | PopReload(room: nat, position: nat, call: Call)
    | PopCas(room: nat, position: nat, call: Call)
    | PopOpen(room: nat, position: nat, call: Call, lin: nat)
    | PopCopy(room: nat, position: nat, call: Call, lin: nat, size: nat, copied: Payload)
    | PopRelease(room: nat, position: nat, call: Call, lin: nat, read: ReadResult, data: Payload)
    | EmptyProbe(position: nat, call: Call)
    | Returned(answer: Answer, call: Call, lin: nat)

  /** Auxiliary life cycle of a claimed position. */
  datatype Stage = Writing(owner: nat) | Published | Reading(owner: nat) | Released

  /** `cells`, `enqueuePos` and `dequeuePos` are the shared memory, `threads` the program
      counters; `stage`, `history` and `log` are auxiliary: no shared location or
      program counter takes a value from them. The guards on the lengths of `stage` and
      `history` only keep their updates in range, and `MpmcTheorems.NeverStuck` shows that
      they are always met. */
  datatype State = State(
    capacity: nat,
    maxPayload: nat,
    cells: seq<Cell>,
    enqueuePos: nat,
    dequeuePos: nat,
    threads: seq<Pc>,
    stage: seq<Stage>,
    history: seq<Payload>,
    log: seq<Event>)

  ghost predicate Fresh(s: State) {
    && |s.cells| == s.capacity
    && (forall i :: 0 <= i < s.capacity ==>
          s.cells[i].sequence == i && |s.cells[i].message.storage| == s.maxPayload)
    && s.enqueuePos == 0 && s.dequeuePos == 0
    && (forall t :: 0 <= t < |s.threads| ==> s.threads[t] == Idle)
    && s.stage == [] && s.history == [] && s.log == []
  }

  /** A freshly constructed queue; the constructor refuses capacities below two. */
  ghost predicate Init(s: State) {
    Fresh(s) && 2 <= s.capacity
  }

  // --- Steps -----------------------------------------------------------------------------

  datatype Step =
    | StartPush(t: nat, payload: Payload)
    | StartPop(t: nat, room: nat)
    | StartEmpty(t: nat)
    | Probe(t: nat)
    | Reload(t: nat)
    | Cas(t: nat, spurious: bool)
    | Store(t: nat)
    | Publish(t: nat)
    | Load(t: nat)
    | Release(t: nat)
    | Finish(t: nat)

  ghost predicate WellFormed(s: State) {
    0 < s.capacity && |s.cells| == s.capacity
  }

  function CellAt(s: State, p: nat): Cell
    requires WellFormed(s)
  {
    s.cells[Index(p, s.capacity)]
  }

  function At(s: State, t: nat, pc: Pc): State
    requires t < |s.threads|
  {
    s.(threads := s.threads[t := pc])
  }

  function WithCell(s: State, p: nat, c: Cell): State
    requires WellFormed(s)
  {
    s.(cells := s.cells[Index(p, s.capacity) := c])
  }

  function Begin(s: State, position: nat): Call {
    Call(|s.log|, position, 0, 0)
  }

  function Retry(c: Call, spurious: bool): Call {
    c.(retries := c.retries + 1, spurious := c.spurious + if spurious then 1 else 0)
  }

  /** First position load of `try_push`; an oversized payload answers before any load. */
  ghost predicate DoStartPush(s: State, s': State, t: nat, payload: Payload) {
    && t < |s.threads| && s.threads[t] == Idle
    && s' == At(s, t,
                if |payload| > s.maxPayload
                then Returned(PushAnswer(payload, WriteResult(MessageTooLarge, 0)), Begin(s, s.enqueuePos), 0)
                else PushProbe(payload, s.enqueuePos, Begin(s, s.enqueuePos)))
  }

  ghost predicate DoStartPop(s: State, s': State, t: nat, room: nat) {
    && t < |s.threads| && s.threads[t] == Idle
    && s' == At(s, t, PopProbe(room, s.dequeuePos, Begin(s, s.dequeuePos)))
  }

  ghost predicate DoStartEmpty(s: State, s': State, t: nat) {
    && t < |s.threads| && s.threads[t] == Idle
    && s' == At(s, t, EmptyProbe(s.dequeuePos, Begin(s, s.dequeuePos)))
  }

  /** What a thread does with the cell sequence it just loaded. */
  function AfterProbe(pc: Pc, sequence: nat): Pc
    requires pc.PushProbe? || pc.PopProbe? || pc.EmptyProbe?
  {
    match pc
    case PushProbe(payload, position, call) =>
      if sequence == position then PushCas(payload, position, call)
      else if sequence < position then Returned(PushAnswer(payload, WriteResult(Full, 0)), call, 0)
      else PushReload(payload, position, call)
    case PopProbe(room, position, call) =>
      if sequence == position + 1 then PopCas(room, position, call)
      else if sequence < position + 1 then Returned(PopAnswer(room, ReadResult(Empty, 0, 0), []), call, 0)
      else PopReload(room, position, call)
    case EmptyProbe(position, call) =>
      Returned(EmptyAnswer(sequence < position + 1), call, 0)
  }

  ghost predicate DoProbe(s: State, s': State, t: nat) {
    && WellFormed(s) && t < |s.threads|
    && (s.threads[t].PushProbe? || s.threads[t].PopProbe? || s.threads[t].EmptyProbe?)
    && s' == At(s, t, AfterProbe(s.threads[t], CellAt(s, s.threads[t].position).sequence))
  }

  ghost predicate DoReload(s: State, s': State, t: nat) {
    && t < |s.threads|
    && var pc := s.threads[t];
       || (&& pc.PushReload?
           && s' == At(s, t, PushProbe(pc.payload, s.enqueuePos, Retry(pc.call, false))))
       || (&& pc.PopReload?
           && s' == At(s, t, PopProbe(pc.room, s.dequeuePos, Retry(pc.call, false))))
  }

  /** Weak compare-and-exchange: a failure, spurious or not, reloads `position`. */
  ghost predicate DoCas(s: State, s': State, t: nat, spurious: bool) {
    && t < |s.threads|
    && var pc := s.threads[t];
       || (&& pc.PushCas? && s.enqueuePos == pc.position && !spurious
           && s' == ClaimPush(s, t))
       || (&& pc.PushCas? && (s.enqueuePos != pc.position <==> !spurious)
           && s' == At(s, t, PushProbe(pc.payload, s.enqueuePos, Retry(pc.call, spurious))))
       || (&& pc.PopCas? && s.dequeuePos == pc.position && !spurious
           && pc.position < |s.history| && pc.position < |s.stage|
           && s' == ClaimPop(s, t))
       || (&& pc.PopCas? && (s.dequeuePos != pc.position <==> !spurious)
           && s' == At(s, t, PopProbe(pc.room, s.dequeuePos, Retry(pc.call, spurious))))
  }

  function ClaimPush(s: State, t: nat): State
    requires t < |s.threads| && s.threads[t].PushCas?
  {
    var pc := s.threads[t];
    s.(enqueuePos := pc.position + 1,
       threads := s.threads[t := PushStore(pc.payload, pc.position, pc.call, |s.log|, 0)],
       stage := s.stage + [Writing(t)],
       history := s.history + [pc.payload],
       log := s.log + [Enqueue(t, Item(pc.payload, pc.position + 1))])
  }

  function ClaimPop(s: State, t: nat): State
    requires t < |s.threads| && s.threads[t].PopCas?
    requires s.threads[t].position < |s.history| && s.threads[t].position < |s.stage|
  {
    var pc := s.threads[t];
    s.(dequeuePos := pc.position + 1,
       threads := s.threads[t := PopOpen(pc.room, pc.position, pc.call, |s.log|)],
       stage := s.stage[pc.position := Reading(t)],
       log := s.log + [Dequeue(t, Item(s.history[pc.position], pc.position + 1))])
  }

  ghost predicate DoStore(s: State, s': State, t: nat) {
    && WellFormed(s) && t < |s.threads| && s.threads[t].PushStore?
    && var pc := s.threads[t];
       var c := CellAt(s, pc.position);
       && pc.k < |pc.payload| + 2
       && (pc.k < |pc.payload| ==> pc.k < |c.message.storage|)
       && s' == At(WithCell(s, pc.position,
                            c.(message := NextStore(c.message, pc.payload, pc.position + 1, pc.k))),
                   t, pc.(k := pc.k + 1))
  }

  ghost predicate DoPublish(s: State, s': State, t: nat) {
    && WellFormed(s) && t < |s.threads| && s.threads[t].PushStore?
    && var pc := s.threads[t];
       && pc.k == |pc.payload| + 2 && pc.position < |s.stage|
       && s' == At(WithCell(s, pc.position, CellAt(s, pc.position).(sequence := pc.position + 1)),
                   t, Returned(PushAnswer(pc.payload, WriteResult(Success, pc.position + 1)),
                               pc.call, pc.lin))
                .(stage := s.stage[pc.position := Published])
  }

  /** One plain load of `copy_to`: the size first, then byte after byte, then the stamp. */
  ghost predicate DoLoad(s: State, s': State, t: nat) {
    && WellFormed(s) && t < |s.threads|
    && var pc := s.threads[t];
       || (&& pc.PopOpen?
           && var m := CellAt(s, pc.position).message;
              s' == At(s, t,
                       if pc.room < m.size
                       then PopRelease(pc.room, pc.position, pc.call, pc.lin,
                                       ReadResult(MessageTooLarge, 0, m.sequence), [])
                       else PopCopy(pc.room, pc.position, pc.call, pc.lin, m.size, [])))
       || (&& pc.PopCopy?
           && var m := CellAt(s, pc.position).message;
              && (|pc.copied| < pc.size ==> |pc.copied| < |m.storage|)
              && s' == At(s, t,
                          if |pc.copied| < pc.size
                          then pc.(copied := pc.copied + [m.storage[|pc.copied|]])
                          else PopRelease(pc.room, pc.position, pc.call, pc.lin,
                                          ReadResult(Success, pc.size, m.sequence), pc.copied)))
  }

  ghost predicate DoRelease(s: State, s': State, t: nat) {
    && WellFormed(s) && t < |s.threads| && s.threads[t].PopRelease?
    && var pc := s.threads[t];
       && pc.position < |s.stage|
       && s' == At(WithCell(s, pc.position,
                            CellAt(s, pc.position).(sequence := pc.position + s.capacity)),
                   t, Returned(PopAnswer(pc.room, pc.read, pc.data), pc.call, pc.lin))
                .(stage := s.stage[pc.position := Released])
  }

  ghost predicate DoFinish(s: State, s': State, t: nat) {
    && t < |s.threads| && s.threads[t].Returned?
    && s' == At(s, t, Idle)
  }

  ghost predicate Next(s: State, s': State, step: Step) {
    match step
    case StartPush(t, payload) => DoStartPush(s, s', t, payload)
    case StartPop(t, room) => DoStartPop(s, s', t, room)
    case StartEmpty(t) => DoStartEmpty(s, s', t)
    case Probe(t) => DoProbe(s, s', t)
    case Reload(t) => DoReload(s, s', t)
    case Cas(t, spurious) => DoCas(s, s', t, spurious)
    case Store(t) => DoStore(s, s', t)
    case Publish(t) => DoPublish(s, s', t)
    case Load(t) => DoLoad(s, s', t)
    case Release(t) => DoRelease(s, s', t)
    case Finish(t) => DoFinish(s, s', t)
  }

  ghost predicate Moves(states: seq<State>, steps: seq<Step>, i: nat)
    requires i < |steps| && |states| == |steps| + 1
  {
    Next(states[i], states[i + 1], steps[i])
  }

  ghost predicate Linked(states: seq<State>, steps: seq<Step>) {
    && |states| == |steps| + 1
    && forall i :: 0 <= i < |steps| ==> Moves(states, steps, i)
  }

  /** A whole run: any number of threads, any interleaving, any length. */
  ghost predicate Run(states: seq<State>, steps: seq<Step>) {
    Linked(states, steps) && Init(states[0])
  }
}
