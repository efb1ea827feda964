/** The inductive invariant of the MPMC machine, and that every step of every thread
    keeps it. */
module MpmcInvariant {
  import opened Results
  import opened FixedMessage
  import opened Fifo
  import opened Ring
  import opened MpmcMachine

  // --- The invariant ---------------------------------------------------------------------

  ghost predicate Shape(s: State) {
    && 2 <= s.capacity
    && |s.cells| == s.capacity
    && (forall i :: 0 <= i < s.capacity ==> |s.cells[i].message.storage| == s.maxPayload)
    && |s.stage| == s.enqueuePos && |s.history| == s.enqueuePos
    && (forall p :: 0 <= p < s.enqueuePos ==> |s.history[p]| <= s.maxPayload)
    && s.dequeuePos <= s.enqueuePos <= s.dequeuePos + s.capacity
  }

  /** Positions below `dequeuePos` are claimed by pops, the others are not, and a position
      whose cell has been claimed again is released. */
  ghost predicate Stages(s: State)
    requires Shape(s)
  {
    forall p :: 0 <= p < s.enqueuePos ==>
      && (p < s.dequeuePos <==> s.stage[p].Reading? || s.stage[p].Released?)
      && (p + s.capacity < s.enqueuePos ==> s.stage[p].Released?)
  }

  /** The cell sequence left behind by position `p` in each of its stages. */
  function SequenceAfter(g: Stage, p: nat, capacity: nat): nat {
    match g
    case Writing(_) => p
    case Published => p + 1
    case Reading(_) => p + 1
    case Released => p + capacity
  }

  /** The sequence found by a thread probing for the not yet claimed position `q`: `q` if
      the cell was never used, else what the previous lap left there. */
  function SequenceFor(s: State, q: nat): nat
    requires |s.stage| == s.enqueuePos && q < s.enqueuePos + s.capacity
  {
    if q < s.capacity then q
    else SequenceAfter(s.stage[q - s.capacity], q - s.capacity, s.capacity)
  }

  ghost predicate Sequences(s: State)
    requires Shape(s)
  {
    forall q {:trigger SequenceFor(s, q)} {:trigger CellAt(s, q)} ::
      s.enqueuePos <= q < s.enqueuePos + s.capacity ==>
        CellAt(s, q).sequence == SequenceFor(s, q)
  }

  ghost predicate Contents(s: State)
    requires Shape(s)
  {
    forall p :: 0 <= p < s.enqueuePos && (s.stage[p].Published? || s.stage[p].Reading?) ==>
      Holds(CellAt(s, p).message, s.history[p], p + 1)
  }

  ghost predicate PushOwner(pc: Pc, p: nat) {
    pc.PushStore? && pc.position == p
  }

  ghost predicate PopOwner(pc: Pc, p: nat) {
    (pc.PopOpen? || pc.PopCopy? || pc.PopRelease?) && pc.position == p
  }

  ghost predicate Owners(s: State)
    requires Shape(s)
  {
    forall p :: 0 <= p < s.enqueuePos ==>
      && (s.stage[p].Writing? ==>
            s.stage[p].owner < |s.threads| && PushOwner(s.threads[s.stage[p].owner], p))
      && (s.stage[p].Reading? ==>
            s.stage[p].owner < |s.threads| && PopOwner(s.threads[s.stage[p].owner], p))
  }

  /** The abstract queue: positions claimed by pushes and not yet by pops. */
  function Held(s: State): seq<Item>
    requires s.dequeuePos <= s.enqueuePos == |s.history|
  {
    Window(s.history, s.dequeuePos, s.enqueuePos)
  }

  ghost predicate Logged(s: State)
    requires Shape(s)
  {
    Replay(s.log, s.capacity) == Some(Queue(Held(s), s.enqueuePos))
  }

  /** Loop bookkeeping: every non-spurious retry moved the local position up. */
  ghost predicate Searching(s: State, position: nat, call: Call, limit: nat) {
    && call.begin <= |s.log|
    && call.start <= position <= limit
    && call.retries <= position - call.start + call.spurious
  }

  ghost predicate Linearized(s: State, call: Call, lin: nat, e: Event) {
    call.begin <= lin < |s.log| && s.log[lin] == e
  }

  ghost predicate Owned(s: State, position: nat, g: Stage)
    requires Shape(s)
  {
    position < s.enqueuePos && s.stage[position] == g
  }

  ghost predicate Delivered(payload: Payload, sequence: nat, room: nat, read: ReadResult, data: Payload) {
    && read == CopyAnswer(payload, sequence, room)
    && data == if read.status == Success then payload else []
  }

  /** What an answer says about the linearization log. */
  ghost predicate AnswerOk(s: State, t: nat, answer: Answer, call: Call, lin: nat) {
    match answer
    case PushAnswer(payload, w) =>
      && (w.status == MessageTooLarge <==> |payload| > s.maxPayload)
      && (if w.status == Success then Linearized(s, call, lin, Enqueue(t, Item(payload, w.sequence)))
          else w.sequence == 0)
    case PopAnswer(room, r, data) =>
      r.status != Empty ==>
        && lin < |s.log|
        && Linearized(s, call, lin, Dequeue(t, s.log[lin].item))
        && Delivered(s.log[lin].item.payload, s.log[lin].item.sequence, room, r, data)
    case EmptyAnswer(_) => true
  }

  /** What thread `t` may rely on while its program counter is `pc`. */
  ghost predicate ThreadOk(s: State, t: nat, pc: Pc)
    requires Shape(s)
  {
    match pc
    case Idle => true
    case PushProbe(payload, position, call) =>
      |payload| <= s.maxPayload && Searching(s, position, call, s.enqueuePos)
    case PushReload(payload, position, call) =>
      && |payload| <= s.maxPayload && Searching(s, position, call, s.enqueuePos)
      && position < s.enqueuePos
    case PushCas(payload, position, call) =>
      && |payload| <= s.maxPayload && Searching(s, position, call, s.enqueuePos)
      && (s.capacity <= position ==> Owned(s, position - s.capacity, Released))
    case PushStore(payload, position, call, lin, k) =>
      && Owned(s, position, Writing(t)) && s.history[position] == payload
      && Stored(CellAt(s, position).message, payload, position + 1, k)
      && Linearized(s, call, lin, Enqueue(t, Item(payload, position + 1)))
    case PopProbe(_, position, call) => Searching(s, position, call, s.dequeuePos)
    case PopReload(_, position, call) =>
      Searching(s, position, call, s.dequeuePos) && position < s.dequeuePos
    case PopCas(_, position, call) =>
      && Searching(s, position, call, s.dequeuePos)
      && position < s.enqueuePos && !s.stage[position].Writing?
    case PopOpen(_, position, call, lin) =>
      && Owned(s, position, Reading(t))
      && Linearized(s, call, lin, Dequeue(t, Item(s.history[position], position + 1)))
    case PopCopy(room, position, call, lin, size, copied) =>
      && Owned(s, position, Reading(t))
      && Linearized(s, call, lin, Dequeue(t, Item(s.history[position], position + 1)))
      && size == |s.history[position]| <= room
      && |copied| <= size && copied == s.history[position][..|copied|]
    case PopRelease(room, position, call, lin, read, data) =>
      && Owned(s, position, Reading(t))
      && Linearized(s, call, lin, Dequeue(t, Item(s.history[position], position + 1)))
      && Delivered(s.history[position], position + 1, room, read, data)
    case EmptyProbe(position, call) => Searching(s, position, call, s.dequeuePos)
    case Returned(answer, call, lin) => AnswerOk(s, t, answer, call, lin)
  }

  ghost predicate Threads(s: State)
    requires Shape(s)
  {
    forall t :: 0 <= t < |s.threads| ==> ThreadOk(s, t, s.threads[t])
  }

  ghost predicate Shared(s: State) {
    Shape(s) && Stages(s) && Sequences(s) && Contents(s) && Owners(s) && Logged(s)
  }

  ghost predicate Inv(s: State) {
    Shared(s) && Threads(s)
  }

  // --- Initial states --------------------------------------------------------------------

  lemma InitInv(s: State)
    requires Init(s)
    ensures Inv(s)
  {
    forall q | s.enqueuePos <= q < s.enqueuePos + s.capacity
      ensures CellAt(s, q).sequence == SequenceFor(s, q)
    {
      FirstLap(q, s.capacity);
    }
    assert Held(s) == [];
  }

  // --- Interference ----------------------------------------------------------------------

  /** What a step of another thread can do, seen by thread `t`: counters and log grow,
      stages only advance, and positions and cells owned by `t` are untouched. */
  ghost predicate Interferes(s: State, s': State, t: nat)
    requires Shape(s) && Shape(s')
  {
    && s'.capacity == s.capacity && s'.maxPayload == s.maxPayload
    && s.enqueuePos <= s'.enqueuePos && s.dequeuePos <= s'.dequeuePos
    && s.log <= s'.log && s.history <= s'.history
    && forall p :: 0 <= p < s.enqueuePos ==>
         && (s.stage[p].Released? ==> s'.stage[p].Released?)
         && (!s.stage[p].Writing? ==> !s'.stage[p].Writing?)
         && (s.stage[p] == Writing(t) || s.stage[p] == Reading(t) ==>
               s'.stage[p] == s.stage[p] && CellAt(s', p) == CellAt(s, p))
  }

  lemma Stable(s: State, s': State, t: nat, pc: Pc)
    requires Shape(s) && Shape(s') && ThreadOk(s, t, pc) && Interferes(s, s', t)
    ensures ThreadOk(s', t, pc)
  {
  }

  /** A step that changes only the program counter of `t`. */
  lemma LocalStep(s: State, t: nat, pc: Pc)
    requires Inv(s) && t < |s.threads|
    requires ThreadOk(s, t, pc)
    requires forall p :: PushOwner(s.threads[t], p) ==> PushOwner(pc, p)
    requires forall p :: PopOwner(s.threads[t], p) ==> PopOwner(pc, p)
    ensures Inv(At(s, t, pc))
  {
    var s' := At(s, t, pc);
    forall q | s'.enqueuePos <= q < s'.enqueuePos + s'.capacity
      ensures CellAt(s', q).sequence == SequenceFor(s', q)
    {
      assert CellAt(s, q).sequence == SequenceFor(s, q);
    }
    forall u | 0 <= u < |s'.threads|
      ensures ThreadOk(s', u, s'.threads[u])
    {
      Stable(s, s', u, s'.threads[u]);
    }
  }

  /** Lifts a shared-memory step of `t` from its own obligations to the whole invariant. */
  lemma SharedStep(s: State, s': State, t: nat)
    requires Inv(s) && Shared(s') && t < |s.threads|
    requires |s'.threads| == |s.threads|
    requires forall u :: 0 <= u < |s.threads| && u != t ==> s'.threads[u] == s.threads[u]
    requires forall u :: 0 <= u < |s.threads| && u != t ==> Interferes(s, s', u)
    requires ThreadOk(s', t, s'.threads[t])
    ensures Inv(s')
  {
    forall u | 0 <= u < |s'.threads|
      ensures ThreadOk(s', u, s'.threads[u])
    {
      if u != t {
        Stable(s, s', u, s.threads[u]);
      }
    }
  }

  // --- What a probe learns ---------------------------------------------------------------

  /** The cell sequence met by a pusher at `position`, which may be long out of date. */
  lemma PushProbeMeaning(s: State, position: nat)
    requires Shared(s) && position <= s.enqueuePos
    ensures var q := CellAt(s, position).sequence;
            && (q < position <==>
                  && position == s.enqueuePos && s.capacity <= position
                  && !s.stage[position - s.capacity].Released?)
            && (q == position && s.capacity <= position ==>
                  s.stage[position - s.capacity].Released?)
            && (q > position ==> position < s.enqueuePos)
  {
    var r := Representative(position, s.enqueuePos, s.capacity);
    assert CellAt(s, position) == CellAt(s, r);
    assert CellAt(s, r).sequence == SequenceFor(s, r);
  }

  /** The cell sequence met by a popper, or by `empty`, at `position`. */
  lemma PopProbeMeaning(s: State, position: nat)
    requires Shared(s) && position <= s.dequeuePos
    ensures var q := CellAt(s, position).sequence;
            && (q < position + 1 <==>
                  && position == s.dequeuePos
                  && (position == s.enqueuePos || s.stage[position].Writing?))
            && (q == position + 1 ==> position < s.enqueuePos && !s.stage[position].Writing?)
            && (q > position + 1 ==> position < s.dequeuePos)
  {
    var r := Representative(position, s.enqueuePos, s.capacity);
    assert CellAt(s, position) == CellAt(s, r);
    assert CellAt(s, r).sequence == SequenceFor(s, r);
    if position < s.enqueuePos <= position + s.capacity {
      Lap(position, s.capacity);
      SameCellWindow(position + s.capacity, r, s.enqueuePos, s.capacity);
    }
  }

  lemma SameCellWindow(p: nat, q: nat, lo: nat, c: nat)
    requires 0 < c && lo <= p < lo + c && lo <= q < lo + c && Index(p, c) == Index(q, c)
    ensures p == q
  {
    if p != q {
      DistinctEither(p, q, c);
    }
  }

  // --- Steps of one thread ---------------------------------------------------------------

  lemma ProbeKeepsInv(s: State, s': State, t: nat)
    requires Inv(s) && DoProbe(s, s', t)
    ensures Inv(s')
  {
    var pc := s.threads[t];
    assert ThreadOk(s, t, pc);
    if pc.PushProbe? {
      PushProbeMeaning(s, pc.position);
    } else {
      PopProbeMeaning(s, pc.position);
    }
    LocalStep(s, t, s'.threads[t]);
  }

  lemma LoadKeepsInv(s: State, s': State, t: nat)
    requires Inv(s) && DoLoad(s, s', t)
    ensures Inv(s')
  {
    var pc := s.threads[t];
    assert ThreadOk(s, t, pc);
    assert Holds(CellAt(s, pc.position).message, s.history[pc.position], pc.position + 1);
    LocalStep(s, t, s'.threads[t]);
  }

  lemma LocalKeepsInv(s: State, s': State, step: Step)
    requires Inv(s) && Next(s, s', step)
    requires step.StartPush? || step.StartPop? || step.StartEmpty? || step.Reload? || step.Finish?
    ensures Inv(s')
  {
    assert ThreadOk(s, step.t, s.threads[step.t]);
    LocalStep(s, step.t, s'.threads[step.t]);
  }

  /** Two unreleased positions are less than one lap apart. */
  lemma UnreleasedWindow(s: State, p: nat, q: nat)
    requires Shape(s) && Stages(s)
    requires p < s.enqueuePos && !s.stage[p].Released?
    requires q < s.enqueuePos && !s.stage[q].Released?
    requires p != q
    ensures Index(p, s.capacity) != Index(q, s.capacity)
  {
    DistinctEither(p, q, s.capacity);
  }

  /** A cell write under ownership of `p` leaves every other unreleased position alone. */
  lemma WriteFrame(s: State, p: nat, c: Cell, q: nat)
    requires Shape(s) && Stages(s)
    requires p < s.enqueuePos && !s.stage[p].Released?
    requires q < s.enqueuePos && !s.stage[q].Released? && p != q
    ensures CellAt(WithCell(s, p, c), q) == CellAt(s, q)
  {
    UnreleasedWindow(s, p, q);
  }

  /** Cell sequences after position `p` moves to stage `g` and stores the matching value. */
  lemma SequencesStep(s: State, s': State, p: nat, g: Stage, c: Cell)
    requires Shape(s) && Stages(s) && Sequences(s) && Shape(s')
    requires p < s.enqueuePos && !s.stage[p].Released?
    requires s'.stage == s.stage[p := g] && s'.cells == WithCell(s, p, c).cells
    requires s'.capacity == s.capacity && s'.enqueuePos == s.enqueuePos
    requires c.sequence == SequenceAfter(g, p, s.capacity)
    ensures Sequences(s')
  {
    Lap(p, s.capacity);
    forall q | s'.enqueuePos <= q < s'.enqueuePos + s'.capacity
      ensures CellAt(s', q).sequence == SequenceFor(s', q)
    {
      assert CellAt(s, q).sequence == SequenceFor(s, q);
      if q != p + s.capacity {
        DistinctEither(q, p + s.capacity, s.capacity);
      }
    }
  }

  /** The cell sequence of a claimed position that has not been released. */
  lemma OwnedSequence(s: State, p: nat)
    requires Shape(s) && Stages(s) && Sequences(s)
    requires p < s.enqueuePos && !s.stage[p].Released?
    ensures CellAt(s, p).sequence == SequenceAfter(s.stage[p], p, s.capacity)
  {
    Lap(p, s.capacity);
    assert CellAt(s, p + s.capacity).sequence == SequenceFor(s, p + s.capacity);
  }

  lemma StoreKeepsInv(s: State, s': State, t: nat)
    requires Inv(s) && DoStore(s, s', t)
    ensures Inv(s')
  {
    var pc := s.threads[t];
    assert ThreadOk(s, t, pc);
    var p := pc.position;
    var c := CellAt(s', p);
    assert s'.stage == s.stage[p := s.stage[p]];
    assert Stages(s');
    OwnedSequence(s, p);
    SequencesStep(s, s', p, s.stage[p], c);
    forall q | 0 <= q < s.enqueuePos && q != p && !s.stage[q].Released?
      ensures CellAt(s', q) == CellAt(s, q)
    {
      WriteFrame(s, p, c, q);
    }
    assert Stored(c.message, pc.payload, p + 1, pc.k + 1);
    SharedStep(s, s', t);
  }

  lemma PublishKeepsInv(s: State, s': State, t: nat)
    requires Inv(s) && DoPublish(s, s', t)
    ensures Inv(s')
  {
    var pc := s.threads[t];
    assert ThreadOk(s, t, pc);
    var p := pc.position;
    var c := CellAt(s', p);
    assert Stages(s');
    SequencesStep(s, s', p, Published, c);
    forall q | 0 <= q < s.enqueuePos && q != p && !s.stage[q].Released?
      ensures CellAt(s', q) == CellAt(s, q)
    {
      WriteFrame(s, p, c, q);
    }
    assert c.message.storage[..|pc.payload|] == pc.payload;
    SharedStep(s, s', t);
  }

  lemma ReleaseKeepsInv(s: State, s': State, t: nat)
    requires Inv(s) && DoRelease(s, s', t)
    ensures Inv(s')
  {
    var pc := s.threads[t];
    assert ThreadOk(s, t, pc);
    var p := pc.position;
    var c := CellAt(s', p);
    assert Stages(s');
    SequencesStep(s, s', p, Released, c);
    forall q | 0 <= q < s.enqueuePos && q != p && !s.stage[q].Released?
      ensures CellAt(s', q) == CellAt(s, q)
    {
      WriteFrame(s, p, c, q);
    }
    SharedStep(s, s', t);
  }

  lemma ClaimPushStages(s: State, t: nat)
    requires Shape(s) && Stages(s) && t < |s.threads| && s.threads[t].PushCas?
    requires ThreadOk(s, t, s.threads[t]) && s.enqueuePos == s.threads[t].position
    ensures Shape(ClaimPush(s, t)) && Stages(ClaimPush(s, t))
  {
    if s.capacity <= s.enqueuePos {
      assert s.stage[s.enqueuePos - s.capacity].Released?;
    }
  }

  lemma ClaimPushSequences(s: State, t: nat)
    requires Shape(s) && Stages(s) && Sequences(s) && t < |s.threads| && s.threads[t].PushCas?
    requires s.enqueuePos == s.threads[t].position
    requires s.capacity <= s.enqueuePos ==> s.stage[s.enqueuePos - s.capacity].Released?
    requires Shape(ClaimPush(s, t))
    ensures Sequences(ClaimPush(s, t))
  {
    var s' := ClaimPush(s, t);
    var e := s.enqueuePos;
    assert CellAt(s, e).sequence == SequenceFor(s, e);
    Lap(e, s.capacity);
    forall q | s'.enqueuePos <= q < s'.enqueuePos + s'.capacity
      ensures CellAt(s', q).sequence == SequenceFor(s', q)
    {
      if q != e + s.capacity {
        assert CellAt(s, q).sequence == SequenceFor(s, q);
      }
    }
  }

  lemma ClaimPushLogged(s: State, t: nat)
    requires Shape(s) && Logged(s) && t < |s.threads| && s.threads[t].PushCas?
    requires s.enqueuePos == s.threads[t].position
    requires Shape(ClaimPush(s, t))
    ensures Logged(ClaimPush(s, t))
  {
    var item := Item(s.threads[t].payload, s.enqueuePos + 1);
    WindowPush(s.history, s.dequeuePos, s.enqueuePos, item.payload);
    ReplayAppend(s.log, Enqueue(t, item), s.capacity);
  }

  lemma ClaimPushKeepsInv(s: State, t: nat)
    requires Inv(s) && t < |s.threads| && s.threads[t].PushCas?
    requires s.enqueuePos == s.threads[t].position
    ensures Inv(ClaimPush(s, t))
  {
    var s' := ClaimPush(s, t);
    assert ThreadOk(s, t, s.threads[t]);
    ClaimPushStages(s, t);
    ClaimPushSequences(s, t);
    ClaimPushLogged(s, t);
    assert Contents(s') && Owners(s');
    SharedStep(s, s', t);
  }

  lemma ClaimPopSequences(s: State, t: nat)
    requires Shape(s) && Stages(s) && Sequences(s) && t < |s.threads| && s.threads[t].PopCas?
    requires s.dequeuePos == s.threads[t].position < |s.stage|
    requires !s.stage[s.dequeuePos].Writing?
    ensures s.stage[s.dequeuePos].Published?
    ensures var s' := ClaimPop(s, t); Shape(s') && Stages(s') && Sequences(s')
  {
    var s' := ClaimPop(s, t);
    assert Shape(s') && Stages(s');
    forall q | s'.enqueuePos <= q < s'.enqueuePos + s'.capacity
      ensures CellAt(s', q).sequence == SequenceFor(s', q)
    {
      assert CellAt(s, q).sequence == SequenceFor(s, q);
    }
  }

  lemma ClaimPopLogged(s: State, t: nat)
    requires Shape(s) && Logged(s) && t < |s.threads| && s.threads[t].PopCas?
    requires s.dequeuePos == s.threads[t].position < |s.stage|
    requires Shape(ClaimPop(s, t))
    ensures Logged(ClaimPop(s, t))
  {
    var item := Item(s.history[s.dequeuePos], s.dequeuePos + 1);
    WindowPop(s.history, s.dequeuePos, s.enqueuePos);
    ReplayAppend(s.log, Dequeue(t, item), s.capacity);
  }

  lemma ClaimPopKeepsInv(s: State, t: nat)
    requires Inv(s) && t < |s.threads| && s.threads[t].PopCas?
    requires s.dequeuePos == s.threads[t].position < |s.stage|
    ensures Inv(ClaimPop(s, t))
  {
    var s' := ClaimPop(s, t);
    assert ThreadOk(s, t, s.threads[t]);
    ClaimPopSequences(s, t);
    ClaimPopLogged(s, t);
    assert Contents(s') && Owners(s');
    SharedStep(s, s', t);
  }

  lemma CasKeepsInv(s: State, s': State, t: nat, spurious: bool)
    requires Inv(s) && DoCas(s, s', t, spurious)
    ensures Inv(s')
  {
    var pc := s.threads[t];
    assert ThreadOk(s, t, pc);
    if pc.PushCas? && s'.enqueuePos != s.enqueuePos {
      ClaimPushKeepsInv(s, t);
    } else if pc.PopCas? && s'.dequeuePos != s.dequeuePos {
      ClaimPopKeepsInv(s, t);
    } else {
      LocalStep(s, t, s'.threads[t]);
    }
  }

  /** Every step of every thread keeps the invariant. */
  lemma NextKeepsInv(s: State, s': State, step: Step)
    requires Inv(s) && Next(s, s', step)
    ensures Inv(s')
  {
    match step
    case Probe(t) => ProbeKeepsInv(s, s', t);
    case Cas(t, spurious) => CasKeepsInv(s, s', t, spurious);
    case Store(t) => StoreKeepsInv(s, s', t);
    case Publish(t) => PublishKeepsInv(s, s', t);
    case Load(t) => LoadKeepsInv(s, s', t);
    case Release(t) => ReleaseKeepsInv(s, s', t);
    case _ => LocalKeepsInv(s, s', step);
  }

  /** Every state of every run satisfies the invariant. */
  lemma {:induction false} RunInv(states: seq<State>, steps: seq<Step>, i: nat)
    requires Run(states, steps) && i < |states|
    ensures Inv(states[i])
  {
    if i == 0 {
      InitInv(states[0]);
    } else {
      var k := i - 1;
      RunInv(states, steps, k);
      assert Moves(states, steps, k);
      NextKeepsInv(states[k], states[k + 1], steps[k]);
    }
  }
}
