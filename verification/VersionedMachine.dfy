/** The atomic-versioned SPMC queue as a step machine. The producer stores version,
    sequence, size, every payload byte, version and the published boundary as separate
    steps; each reader loads version, sequence, size and every byte of the cell as separate
    steps and then loads the version again. Readers may register at any time. Interleaving
    is sequentially consistent and counters do not wrap. */
module VersionedMachine {
  import opened Results
  import opened Multicast
  import opened Ring

  const READ_ATTEMPTS := 64

  datatype Cell = Cell(version: nat, sequence: nat, size: nat, storage: seq<Byte>)

  /** Producer program counter; `k` counts the guarded stores made: sequence, size, bytes. */
  datatype ProducerPc =
    | Resting
    | Opening(payload: Payload, version: nat)
    | Writing(payload: Payload, version: nat, k: nat)
    | Announcing(payload: Payload)
    | Answered(payload: Payload, write: WriteResult)

  /** Reader program counter. `published` is the boundary loaded when the read began, `k`
      counts the guarded loads made in this attempt: sequence, size, then the bytes. */
  datatype ReaderPc =
    | Idle
    | Versioning(room: nat, published: nat, attempt: nat)
    | Copying(room: nat, published: nat, attempt: nat, before: nat, k: nat,
              sequence: nat, size: nat, bytes: seq<Byte>)
    | Resuming(room: nat, published: nat)
    | Returned(room: nat, answer: Answer)

  datatype Fate = Delivered(data: Payload) | Skipped

  /** `cursor` is the consumer's `next_sequence_`. The rest is auxiliary: where it
      registered, what became of each sequence since, and all its answers so far. */
  datatype Reader = Reader(
    start: nat,
    cursor: nat,
    pc: ReaderPc,
    fates: seq<Fate>,
    delivered: seq<nat>,
    answers: seq<Answer>)

  /** `offered` is auxiliary: every payload whose publication has begun. */
  datatype State = State(
    capacity: nat,
    maxPayload: nat,
    cells: seq<Cell>,
    produced: nat,
    published: nat,
    producer: ProducerPc,
    readers: seq<Reader>,
    offered: seq<Payload>)

  ghost predicate Init(s: State) {
    && 0 < s.capacity && |s.cells| == s.capacity
    && (forall i :: 0 <= i < s.capacity ==>
          && s.cells[i].version == 0 && s.cells[i].sequence == 0 && s.cells[i].size == 0
          && |s.cells[i].storage| == s.maxPayload)
    && s.produced == 0 && s.published == 0 && s.producer == Resting
    && s.readers == [] && s.offered == []
  }

  ghost predicate WellFormed(s: State) {
    0 < s.capacity && |s.cells| == s.capacity
  }

  /** The cell of zero-based position `p`, that is, of sequence `p + 1`. */
  function CellAt(s: State, p: nat): Cell
    requires WellFormed(s)
  {
    s.cells[Index(p, s.capacity)]
  }

  function WithCell(s: State, p: nat, c: Cell): State
    requires WellFormed(s)
  {
    s.(cells := s.cells[Index(p, s.capacity) := c])
  }

  datatype Step =
    | StartPublish(payload: Payload)
    | MarkOdd
    | StoreGuarded
    | Seal
    | Announce
    | FinishPublish
    | Register
    | StartRead(r: nat, room: nat)
    | LoadVersion(r: nat)
    | LoadGuarded(r: nat)
    | Recheck(r: nat)
    | Resume(r: nat)
    | FinishRead(r: nat)

  predicate ByProducer(step: Step) {
    step.StartPublish? || step.MarkOdd? || step.StoreGuarded? || step.Seal? || step.Announce? || step.FinishPublish?
  }

  // --- Producer --------------------------------------------------------------------------

  ghost predicate DoStartPublish(s: State, s': State, payload: Payload) {
    && WellFormed(s) && s.producer == Resting
    && s' == if |payload| > s.maxPayload
             then s.(producer := Answered(payload, WriteResult(MessageTooLarge, 0)))
             else s.(producer := Opening(payload, CellAt(s, s.produced).version),
                     offered := s.offered + [payload])
  }

  ghost predicate DoMarkOdd(s: State, s': State) {
    && WellFormed(s) && s.producer.Opening?
    && s' == WithCell(s, s.produced, CellAt(s, s.produced).(version := s.producer.version + 1))
             .(producer := Writing(s.producer.payload, s.producer.version, 0))
  }

  /** The cell after the next guarded store. */
  function Guarded(c: Cell, payload: Payload, sequence: nat, k: nat): Cell
    requires 2 <= k < |payload| + 2 ==> k - 2 < |c.storage|
  {
    if k == 0 then c.(sequence := sequence)
    else if k == 1 then c.(size := |payload|)
    else if k < |payload| + 2 then c.(storage := c.storage[k - 2 := payload[k - 2]])
    else c
  }

  ghost predicate DoStoreGuarded(s: State, s': State) {
    && WellFormed(s) && s.producer.Writing?
    && var pc := s.producer;
       var c := CellAt(s, s.produced);
       && pc.k < |pc.payload| + 2
       && (2 <= pc.k ==> pc.k - 2 < |c.storage|)
       && s' == WithCell(s, s.produced, Guarded(c, pc.payload, s.produced + 1, pc.k))
                .(producer := pc.(k := pc.k + 1))
  }

  ghost predicate DoSeal(s: State, s': State) {
    && WellFormed(s) && s.producer.Writing? && s.producer.k == |s.producer.payload| + 2
    && s' == WithCell(s, s.produced, CellAt(s, s.produced).(version := s.producer.version + 2))
             .(producer := Announcing(s.producer.payload), produced := s.produced + 1)
  }

  ghost predicate DoAnnounce(s: State, s': State) {
    && s.producer.Announcing?
    && s' == s.(published := s.produced,
                producer := Answered(s.producer.payload, WriteResult(Success, s.produced)))
  }

  ghost predicate DoFinishPublish(s: State, s': State) {
    && s.producer.Answered?
    && s' == s.(producer := Resting)
  }

  // --- Readers ---------------------------------------------------------------------------

  ghost predicate DoRegister(s: State, s': State) {
    s' == s.(readers := s.readers + [Reader(s.published + 1, s.published + 1, Idle, [], [], [])])
  }

  function Skip(n: nat): seq<Fate> {
    seq(n, i => Skipped)
  }

  /** Returns `a` without moving the cursor. */
  function Stay(r: Reader, room: nat, a: Answer): Reader {
    r.(pc := Returned(room, a), answers := r.answers + [a])
  }

  /** Returns `a` and moves the cursor forward to `to`, skipping everything in between. */
  function Jump(r: Reader, room: nat, a: Answer, to: nat): Reader
    requires r.cursor <= to
  {
    r.(cursor := to, pc := Returned(room, a),
       fates := r.fates + Skip(to - r.cursor), answers := r.answers + [a])
  }

  function Deliver(r: Reader, room: nat, data: Payload): Reader {
    var a := Answer(ReadResult(Success, |data|, r.cursor), data);
    r.(cursor := r.cursor + 1, pc := Returned(room, a),
       fates := r.fates + [Delivered(data)], delivered := r.delivered + [r.cursor],
       answers := r.answers + [a])
  }

  /** The load of `published_` and the decisions taken from it. */
  function Open(r: Reader, room: nat, published: nat, capacity: nat): Reader {
    var oldest := Oldest(published, capacity);
    if r.cursor > published then Stay(r, room, Answer(ReadResult(Empty, 0, r.cursor), []))
    else if r.cursor < oldest then Jump(r, room, Answer(ReadResult(ConsumerLagged, 0, oldest), []), oldest)
    else r.(pc := Versioning(room, published, 0))
  }

  function NextAttempt(room: nat, published: nat, attempt: nat): ReaderPc {
    if attempt + 1 == READ_ATTEMPTS then Resuming(room, published)
    else Versioning(room, published, attempt + 1)
  }

  function AfterVersion(r: Reader, version: nat): Reader
    requires r.pc.Versioning?
  {
    r.(pc := if version % 2 != 0 then NextAttempt(r.pc.room, r.pc.published, r.pc.attempt)
             else Copying(r.pc.room, r.pc.published, r.pc.attempt, version, 0, 0, 0, []))
  }

  function AfterGuarded(r: Reader, c: Cell): Reader
    requires r.pc.Copying? && (2 <= r.pc.k ==> r.pc.k - 2 < |c.storage|)
  {
    var pc := r.pc.(k := r.pc.k + 1);
    r.(pc := if r.pc.k == 0 then pc.(sequence := c.sequence)
             else if r.pc.k == 1 then pc.(size := c.size)
             else pc.(bytes := pc.bytes + [c.storage[r.pc.k - 2]]))
  }

  /** The decision after the second version load. */
  function AfterRecheck(r: Reader, version: nat): Reader
    requires r.pc.Copying? && (version == r.pc.before ==> r.pc.size <= |r.pc.bytes|)
  {
    var pc := r.pc;
    if version != pc.before then r.(pc := NextAttempt(pc.room, pc.published, pc.attempt))
    else if pc.sequence != r.cursor then r.(pc := Resuming(pc.room, pc.published))
    else if pc.room < pc.size then Stay(r, pc.room, Answer(ReadResult(MessageTooLarge, 0, r.cursor), []))
    else Deliver(r, pc.room, pc.bytes[..pc.size])
  }

  /** The refreshed boundary, clamped so that the cursor never moves back. */
  function AfterResume(r: Reader, published: nat, capacity: nat): Reader
    requires r.pc.Resuming?
  {
    var refreshed := Oldest(published, capacity);
    var to := if refreshed > r.cursor then refreshed else r.cursor;
    Jump(r, r.pc.room, Answer(ReadResult(Overwritten, 0, to), []), to)
  }

  function WithReader(s: State, i: nat, r: Reader): State
    requires i < |s.readers|
  {
    s.(readers := s.readers[i := r])
  }

  ghost predicate DoStartRead(s: State, s': State, i: nat, room: nat) {
    && i < |s.readers| && s.readers[i].pc == Idle
    && s' == WithReader(s, i, Open(s.readers[i], room, s.published, s.capacity))
  }

  ghost predicate DoLoadVersion(s: State, s': State, i: nat) {
    && WellFormed(s) && i < |s.readers| && s.readers[i].pc.Versioning? && 1 <= s.readers[i].cursor
    && s' == WithReader(s, i, AfterVersion(s.readers[i], CellAt(s, s.readers[i].cursor - 1).version))
  }

  ghost predicate DoLoadGuarded(s: State, s': State, i: nat) {
    && WellFormed(s) && i < |s.readers| && s.readers[i].pc.Copying? && 1 <= s.readers[i].cursor
    && s.readers[i].pc.k < s.maxPayload + 2
    && var c := CellAt(s, s.readers[i].cursor - 1);
       && (2 <= s.readers[i].pc.k ==> s.readers[i].pc.k - 2 < |c.storage|)
       && s' == WithReader(s, i, AfterGuarded(s.readers[i], c))
  }

  ghost predicate DoRecheck(s: State, s': State, i: nat) {
    && WellFormed(s) && i < |s.readers| && s.readers[i].pc.Copying? && 1 <= s.readers[i].cursor
    && s.readers[i].pc.k == s.maxPayload + 2
    && var version := CellAt(s, s.readers[i].cursor - 1).version;
       && (version == s.readers[i].pc.before ==> s.readers[i].pc.size <= |s.readers[i].pc.bytes|)
       && s' == WithReader(s, i, AfterRecheck(s.readers[i], version))
  }

  ghost predicate DoResume(s: State, s': State, i: nat) {
    && i < |s.readers| && s.readers[i].pc.Resuming?
    && s' == WithReader(s, i, AfterResume(s.readers[i], s.published, s.capacity))
  }

  ghost predicate DoFinishRead(s: State, s': State, i: nat) {
    && i < |s.readers| && s.readers[i].pc.Returned?
    && s' == WithReader(s, i, s.readers[i].(pc := Idle))
  }

  ghost predicate Next(s: State, s': State, step: Step) {
    match step
    case StartPublish(payload) => DoStartPublish(s, s', payload)
    case MarkOdd => DoMarkOdd(s, s')
    case StoreGuarded => DoStoreGuarded(s, s')
    case Seal => DoSeal(s, s')
    case Announce => DoAnnounce(s, s')
    case FinishPublish => DoFinishPublish(s, s')
    case Register => DoRegister(s, s')
    case StartRead(r, room) => DoStartRead(s, s', r, room)
    case LoadVersion(r) => DoLoadVersion(s, s', r)
    case LoadGuarded(r) => DoLoadGuarded(s, s', r)
    case Recheck(r) => DoRecheck(s, s', r)
    case Resume(r) => DoResume(s, s', r)
    case FinishRead(r) => DoFinishRead(s, s', r)
  }

  ghost predicate Moves(states: seq<State>, steps: seq<Step>, i: nat)
    requires i < |steps| && |states| == |steps| + 1
  {
    Next(states[i], states[i + 1], steps[i])
  }

  /** A whole run: any interleaving of one producer and any number of readers. */
  ghost predicate Run(states: seq<State>, steps: seq<Step>) {
    && |states| == |steps| + 1
    && Init(states[0])
    && forall i :: 0 <= i < |steps| ==> Moves(states, steps, i)
  }
}
