/** What the versioned queue guarantees over whole runs: torn reads are rejected, every
    answer other than `overwritten` is the mutex queue's answer at one instant of the call,
    `overwritten` is sound, every sequence is accounted for, reads are bounded, and a
    consumer catches up once publishing stops. */
module VersionedTheorems {
  import opened Results
  import opened Multicast
  import opened Ring
  import opened VersionedMachine
  import opened VersionedInvariant

  // --- Torn reads ------------------------------------------------------------------------

  /** In every run, a complete byte-by-byte copy whose version load before and after agree,
      and whose stored sequence is the wanted one, is exactly the payload published as that
      sequence; its size fits the buffer. */
  lemma TornReadsAreRejected(states: seq<State>, steps: seq<Step>, i: nat, r: nat)
    requires Run(states, steps) && i < |states| && r < |states[i].readers|
    requires states[i].readers[r].pc.Copying?
    requires states[i].readers[r].pc.k == states[i].maxPayload + 2
    ensures var s := states[i];
            var reader := s.readers[r];
            && Inv(s) && 1 <= reader.cursor && reader.pc.before % 2 == 0
            && (CellAt(s, reader.cursor - 1).version == reader.pc.before && reader.pc.sequence == reader.cursor ==>
                  && reader.cursor <= s.published
                  && reader.pc.size <= s.maxPayload == |reader.pc.bytes|
                  && reader.pc.bytes[..reader.pc.size] == s.offered[reader.cursor - 1])
  {
    RunInv(states, steps, i);
    var s := states[i];
    var reader := s.readers[r];
    assert ReaderOk(s, reader);
    if CellAt(s, reader.cursor - 1).version == reader.pc.before {
      RecheckMeaning(s, reader);
    }
  }

  /** Version arithmetic: an even version `2 * g` with `g >= 1` in cell `i` means that the
      cell holds sequence `(g - 1) * capacity + i + 1`; an odd version means that the
      producer is writing into this very cell. */
  lemma VersionMeansGeneration(s: State, i: nat, g: nat)
    requires Inv(s) && i < s.capacity
    ensures s.cells[i].version == 2 * g && 1 <= g ==>
              s.cells[i].sequence == (g - 1) * s.capacity + i + 1
    ensures s.cells[i].version == 0 ==> s.cells[i].sequence == 0
    ensures s.cells[i].version % 2 == 1 ==>
              s.producer.Writing? && Index(s.produced, s.capacity) == i
  {
    FirstLap(i, s.capacity);
    var q := if i <= s.produced then Representative(i, s.produced, s.capacity) else i;
    assert CellOk(s, q);
    DivMod(q, s.capacity);
    if q < s.capacity {
      FirstLap(q, s.capacity);
    } else if s.cells[i].version == 2 * g {
      assert s.capacity * g == (g - 1) * s.capacity + s.capacity;
    }
    if q / s.capacity == 0 && s.capacity <= q {
      Lap(q - s.capacity, s.capacity);
    }
  }

  // --- Refinement of the multicast queue -------------------------------------------------

  /** The abstract publication history: what the `published_` boundary covers. */
  function History(s: State): seq<Payload>
    requires s.published <= |s.offered|
  {
    s.offered[..s.published]
  }

  /** `r` returned in this step. */
  ghost predicate Returns(s: State, s': State, r: nat) {
    r < |s.readers| && r < |s'.readers| && !s.readers[r].pc.Returned? && s'.readers[r].pc.Returned?
  }

  lemma OpenMeaning(s: State, r: Reader, room: nat)
    requires Shape(s) && ReaderOk(s, r)
    ensures var r' := Open(r, room, s.published, s.capacity);
            if r'.pc.Returned?
            then Reading(r'.pc.answer, r'.cursor) == Read(History(s), s.capacity, r.cursor, room)
            else r'.cursor == r.cursor
  {
  }

  lemma RecheckAnswer(s: State, r: Reader)
    requires Shape(s) && Cells(s) && ReaderOk(s, r) && r.pc.Copying?
    requires r.pc.k == s.maxPayload + 2
    ensures var version := CellAt(s, r.cursor - 1).version;
            && (version == r.pc.before ==> r.pc.size <= |r.pc.bytes|)
            && var r' := AfterRecheck(r, version);
               if r'.pc.Returned?
               then Reading(r'.pc.answer, r'.cursor) == Read(History(s), s.capacity, r.cursor, r.pc.room)
               else r'.cursor == r.cursor
  {
    AfterRecheckOk(s, r);
    if CellAt(s, r.cursor - 1).version == r.pc.before {
      RecheckMeaning(s, r);
    }
  }

  lemma ResumeMeaning(s: State, r: Reader)
    requires Shape(s) && ReaderOk(s, r) && r.pc.Resuming?
    ensures Lapped(s, r.cursor)
    ensures var r' := AfterResume(r, s.published, s.capacity);
            var spec := Read(History(s), s.capacity, r.cursor, r.pc.room);
            if r.cursor + s.capacity <= s.published
            then spec.answer.read == ReadResult(ConsumerLagged, 0, r'.cursor) && spec.cursor == r'.cursor
            else r'.cursor == r.cursor
  {
  }

  /** The load of `published_` that opens the read decides `empty` and `consumer_lagged`;
      the second version load decides `success` and `message_too_large`. Each such answer,
      and the cursor it leaves, is the mutex queue's at that instant. */
  lemma AnswersAreAtomic(s: State, s': State, step: Step, r: nat)
    requires Inv(s) && Next(s, s', step) && Returns(s, s', r)
    requires s'.readers[r].pc.answer.read.status != Overwritten
    ensures step == StartRead(r, s'.readers[r].pc.room) || step == Recheck(r)
    ensures Reading(s'.readers[r].pc.answer, s'.readers[r].cursor)
            == Read(History(s), s.capacity, s.readers[r].cursor, s'.readers[r].pc.room)
  {
    assert ReaderOk(s, s.readers[r]);
    if step == Recheck(r) {
      RecheckAnswer(s, s.readers[r]);
    } else if step.StartRead? {
      OpenMeaning(s, s.readers[r], step.room);
    }
  }

  /** `overwritten` is sound: it is returned only if the producer has begun to write a later
      generation into the wanted cell. Either the boundary shows it, and then answer and
      cursor are those of a lagging consumer of the mutex queue, or the later write is not
      announced yet, and then the cursor stays. */
  lemma OverwrittenIsSound(s: State, s': State, step: Step, r: nat)
    requires Inv(s) && Next(s, s', step) && Returns(s, s', r)
    requires s'.readers[r].pc.answer.read.status == Overwritten
    ensures step == Resume(r) && Lapped(s, s.readers[r].cursor)
    ensures s'.readers[r].pc.answer == Answer(ReadResult(Overwritten, 0, s'.readers[r].cursor), [])
    ensures var spec := Read(History(s), s.capacity, s.readers[r].cursor, s'.readers[r].pc.room);
            var cursor' := s'.readers[r].cursor;
            if s.readers[r].cursor + s.capacity <= s.published
            then && spec.answer.read == ReadResult(ConsumerLagged, 0, cursor')
                 && spec.cursor == cursor'
            else cursor' == s.readers[r].cursor
  {
    assert ReaderOk(s, s.readers[r]);
    if step == Resume(r) {
      ResumeMeaning(s, s.readers[r]);
    }
  }

  /** The operations of the multicast queue on the abstract state: history and cursors. */
  datatype Op = Publish(payload: Payload) | Join | ReadBy(r: nat, room: nat) | Silent

  datatype Abstract = Abstract(history: seq<Payload>, cursors: seq<nat>)

  ghost predicate Performs(a: Abstract, a': Abstract, op: Op, capacity: nat) {
    match op
    case Publish(payload) => a' == a.(history := a.history + [payload])
    case Join => a' == a.(cursors := a.cursors + [|a.history| + 1])
    case ReadBy(r, room) =>
      && r < |a.cursors| && 1 <= a.cursors[r]
      && a' == a.(cursors := a.cursors[r := Read(a.history, capacity, a.cursors[r], room).cursor])
    case Silent => a' == a
  }

  function Cursors(readers: seq<Reader>): (cursors: seq<nat>)
    ensures |cursors| == |readers|
    ensures forall i :: 0 <= i < |readers| ==> cursors[i] == readers[i].cursor
  {
    seq(|readers|, i requires 0 <= i < |readers| => readers[i].cursor)
  }

  function Abstraction(s: State): Abstract
    requires s.published <= |s.offered|
  {
    Abstract(History(s), Cursors(s.readers))
  }

  /** The abstract operation performed by a step. A reader's call performs its read when it
      returns, unless it returns `overwritten` with an unmoved cursor. */
  function OpOf(s: State, s': State, step: Step): Op {
    match step
    case Announce => if s.producer.Announcing? then Publish(s.producer.payload) else Silent
    case Register => Join
    case StartRead(r, _) => ReaderOp(s, s', r)
    case Recheck(r) => ReaderOp(s, s', r)
    case Resume(r) => ReaderOp(s, s', r)
    case _ => Silent
  }

  function ReaderOp(s: State, s': State, r: nat): Op {
    if r < |s.readers| && r < |s'.readers| && s'.readers[r].pc.Returned?
       && (s'.readers[r].pc.answer.read.status != Overwritten || s'.readers[r].cursor != s.readers[r].cursor)
    then ReadBy(r, s'.readers[r].pc.room) else Silent
  }

  predicate ByReader(step: Step) {
    step.StartRead? || step.LoadVersion? || step.LoadGuarded? || step.Recheck? || step.Resume? || step.FinishRead?
  }

  /** A reader's step touches only that reader, and its cursor only as the operation says. */
  lemma ReaderCursor(s: State, s': State, step: Step)
    requires Inv(s) && Next(s, s', step) && ByReader(step)
    ensures step.r < |s.readers| && 1 <= s.readers[step.r].cursor
    ensures |s'.readers| == |s.readers| && s' == WithReader(s, step.r, s'.readers[step.r])
    ensures var c, c' := s.readers[step.r].cursor, s'.readers[step.r].cursor;
            match OpOf(s, s', step)
            case ReadBy(r, room) => r == step.r && c' == Read(History(s), s.capacity, c, room).cursor
            case _ => OpOf(s, s', step) == Silent && c' == c
  {
    var r := step.r;
    assert ReaderOk(s, s.readers[r]);
    if step.StartRead? {
      OpenMeaning(s, s.readers[r], step.room);
    } else if step.Recheck? {
      RecheckAnswer(s, s.readers[r]);
    } else if step.Resume? {
      ResumeMeaning(s, s.readers[r]);
    }
  }

  lemma ReaderStepRefines(s: State, s': State, step: Step)
    requires Inv(s) && Next(s, s', step) && ByReader(step)
    ensures s'.published <= |s'.offered|
    ensures Performs(Abstraction(s), Abstraction(s'), OpOf(s, s', step), s.capacity)
  {
    ReaderCursor(s, s', step);
    CursorsUpdate(s.readers, step.r, s'.readers[step.r]);
  }

  lemma CursorsUpdate(readers: seq<Reader>, r: nat, c: Reader)
    requires r < |readers|
    ensures Cursors(readers[r := c]) == Cursors(readers)[r := c.cursor]
  {
  }

  /** Refinement: on history and cursors, every step of the versioned queue is one atomic
      operation of the multicast queue or changes nothing. Publication takes effect at the
      `published_` store. */
  lemma StepRefinesMulticast(s: State, s': State, step: Step)
    requires Inv(s) && Next(s, s', step)
    ensures Inv(s')
    ensures Performs(Abstraction(s), Abstraction(s'), OpOf(s, s', step), s.capacity)
  {
    NextKeepsInv(s, s', step);
    match step
    case StartPublish(_) => assert History(s') == History(s);
    case MarkOdd =>
    case StoreGuarded =>
    case Seal =>
    case Announce => assert History(s') == History(s) + [s.producer.payload];
    case FinishPublish =>
    case Register => assert Cursors(s'.readers) == Cursors(s.readers) + [s.published + 1];
    case _ => ReaderStepRefines(s, s', step);
  }

  /** The same along every run. */
  lemma RunRefinesMulticast(states: seq<State>, steps: seq<Step>, k: nat)
    requires Run(states, steps) && k < |steps|
    ensures Inv(states[k]) && Inv(states[k + 1])
    ensures Performs(Abstraction(states[k]), Abstraction(states[k + 1]),
                     OpOf(states[k], states[k + 1], steps[k]), states[k].capacity)
  {
    RunInv(states, steps, k);
    assert Moves(states, steps, k);
    StepRefinesMulticast(states[k], states[k + 1], steps[k]);
  }

  // --- Accounting ------------------------------------------------------------------------

  ghost predicate IncreasingWithin(d: seq<nat>, low: nat, high: nat) {
    && (forall i, j :: 0 <= i < j < |d| ==> d[i] < d[j])
    && (forall i :: 0 <= i < |d| ==> low <= d[i] < high)
  }

  lemma {:induction false} PicksIncrease(start: nat, fates: seq<Fate>)
    ensures IncreasingWithin(Picks(start, fates), start, start + |fates|)
  {
    if fates != [] {
      var n := |fates| - 1;
      var d := Picks(start, fates[..n]);
      PicksIncrease(start, fates[..n]);
      assert Picks(start, fates) == if fates[n].Delivered? then d + [start + n] else d;
    }
  }

  lemma {:induction false} PicksMember(start: nat, fates: seq<Fate>, i: nat)
    requires i < |fates|
    ensures start + i in Picks(start, fates) <==> fates[i].Delivered?
  {
    var n := |fates| - 1;
    var rest := fates[..n];
    PicksIncrease(start, rest);
    if i < n {
      PicksMember(start, rest, i);
    } else {
      assert start + n !in Picks(start, rest);
    }
  }

  /** Cursor within bounds, deliveries strictly increasing, every passed sequence either
      delivered with its own payload or skipped after being lapped, and hence nothing that
      is still retained skipped. */
  ghost predicate AccountsFor(s: State, c: Reader) {
    && 1 <= c.start <= c.cursor <= s.published + 1
    && s.published <= |s.offered| && |c.fates| == c.cursor - c.start
    && (forall j, k :: 0 <= j < k < |c.delivered| ==> c.delivered[j] < c.delivered[k])
    && (forall n :: n in c.delivered ==> c.start <= n < c.cursor)
    && (forall i :: 0 <= i < |c.fates| ==>
          match c.fates[i]
          case Delivered(data) => c.start + i in c.delivered && data == s.offered[c.start + i - 1]
          case Skipped => c.start + i !in c.delivered && c.start + i + s.capacity <= s.published)
  }

  lemma ReaderAccounting(s: State, c: Reader)
    requires Shape(s) && Accounted(s, c) && c.delivered == Picks(c.start, c.fates)
    ensures AccountsFor(s, c)
  {
    PicksIncrease(c.start, c.fates);
    forall i | 0 <= i < |c.fates|
      ensures c.start + i in c.delivered <==> c.fates[i].Delivered?
    {
      PicksMember(c.start, c.fates, i);
    }
  }

  /** The sequences of the successful answers, in order. */
  function Successes(answers: seq<Answer>): seq<nat> {
    if answers == [] then []
    else
      var n := |answers| - 1;
      Successes(answers[..n]) + if answers[n].read.status == Success then [answers[n].read.sequence] else []
  }

  /** The deliveries are exactly the successful answers, each with its published payload. */
  ghost predicate AnswersTell(s: State, c: Reader) {
    && s.published <= |s.offered|
    && c.delivered == Successes(c.answers)
    && (forall n :: 0 <= n < |c.answers| && c.answers[n].read.status == Success ==>
          var a := c.answers[n];
          && 1 <= a.read.sequence <= s.published && a.data == s.offered[a.read.sequence - 1]
          && a.read.bytesRead == |a.data|)
    && (c.pc.Returned? ==> c.answers != [] && c.answers[|c.answers| - 1] == c.pc.answer)
  }

  /** One more answer given to the caller. */
  ghost predicate GivesAnswer(s: State, c: Reader, c': Reader) {
    if c'.pc.Returned? && !c.pc.Returned?
    then
      && c'.answers == c.answers + [c'.pc.answer]
      && var a := c'.pc.answer;
         if a.read.status == Success
         then && c'.delivered == c.delivered + [a.read.sequence]
              && 1 <= a.read.sequence <= s.published <= |s.offered|
              && a.data == s.offered[a.read.sequence - 1] && a.read.bytesRead == |a.data|
         else c'.delivered == c.delivered
    else
      c'.answers == c.answers && c'.delivered == c.delivered && (c'.pc.Returned? ==> c'.pc == c.pc)
  }

  lemma OpenGives(s: State, c: Reader, room: nat)
    requires Shape(s) && ReaderOk(s, c) && c.pc == Idle
    ensures GivesAnswer(s, c, Open(c, room, s.published, s.capacity))
  {
  }

  lemma RecheckGives(s: State, c: Reader)
    requires Shape(s) && Cells(s) && ReaderOk(s, c) && c.pc.Copying? && c.pc.k == s.maxPayload + 2
    ensures var version := CellAt(s, c.cursor - 1).version;
            && (version == c.pc.before ==> c.pc.size <= |c.pc.bytes|)
            && GivesAnswer(s, c, AfterRecheck(c, version))
  {
    RecheckAnswer(s, c);
  }

  lemma ReaderGives(s: State, s': State, step: Step, r: nat)
    requires Inv(s) && Next(s, s', step) && r < |s.readers|
    ensures r < |s'.readers| && GivesAnswer(s, s.readers[r], s'.readers[r])
  {
    var c := s.readers[r];
    assert ReaderOk(s, c);
    if !ByReader(step) || step.r != r {
      assert s'.readers[r] == c;
    } else if step.Recheck? {
      RecheckGives(s, c);
    } else if step.StartRead? {
      OpenGives(s, c, step.room);
    }
  }

  lemma TellKept(s: State, s': State, c: Reader, c': Reader)
    requires AnswersTell(s, c) && GivesAnswer(s, c, c')
    requires s.published <= s'.published <= |s'.offered| && s.offered <= s'.offered
    ensures AnswersTell(s', c')
  {
    if c'.answers != c.answers {
      assert c'.answers[..|c.answers|] == c.answers;
    }
  }

  lemma HistoryGrows(s: State, s': State, step: Step)
    requires Inv(s) && Next(s, s', step)
    ensures s.published <= s'.published <= |s'.offered| && s.offered <= s'.offered
    ensures |s'.readers| == |s.readers| || (step.Register? && |s'.readers| == |s.readers| + 1)
  {
    NextKeepsInv(s, s', step);
  }

  lemma {:induction false} RunTells(states: seq<State>, steps: seq<Step>, i: nat, r: nat)
    requires Run(states, steps) && i < |states| && r < |states[i].readers|
    ensures AnswersTell(states[i], states[i].readers[r])
    decreases i
  {
    if i > 0 {
      var k := i - 1;
      assert Moves(states, steps, k);
      RunInv(states, steps, k);
      HistoryGrows(states[k], states[i], steps[k]);
      if r < |states[k].readers| {
        RunTells(states, steps, k, r);
        ReaderGives(states[k], states[i], steps[k], r);
        TellKept(states[k], states[i], states[k].readers[r], states[i].readers[r]);
      }
    }
  }

  /** Whole-run accounting of every consumer: what became of each sequence, and that the
      deliveries are exactly the successful answers the consumer was given. */
  lemma ConsumerAccounting(states: seq<State>, steps: seq<Step>, i: nat, r: nat)
    requires Run(states, steps) && i < |states| && r < |states[i].readers|
    ensures AccountsFor(states[i], states[i].readers[r])
    ensures AnswersTell(states[i], states[i].readers[r])
  {
    RunTells(states, steps, i, r);
    RunInv(states, steps, i);
    assert ReaderOk(states[i], states[i].readers[r]);
    ReaderAccounting(states[i], states[i].readers[r]);
  }

  /** A consumer past the boundary has been delivered every sequence still retained that was
      published since its registration. */
  lemma NothingRetainedIsMissed(s: State, c: Reader, n: nat)
    requires AccountsFor(s, c) && s.published < c.cursor
    requires c.start <= n <= s.published < n + s.capacity
    ensures n in c.delivered
  {
    assert c.fates[n - c.start].Delivered?;
  }

  lemma FatesGrow(s: State, s': State, step: Step, r: nat)
    requires Inv(s) && Next(s, s', step) && r < |s.readers|
    ensures r < |s'.readers| && s'.capacity == s.capacity
    ensures var c, c' := s.readers[r], s'.readers[r];
            c'.start == c.start && c.cursor <= c'.cursor && c.fates <= c'.fates
    ensures s'.published == s.published || s'.readers == s.readers
  {
    assert ReaderOk(s, s.readers[r]);
  }

  /** No step moves a cursor back; a sequence is skipped only when the boundary had already
      lapped it at that very step. */
  lemma CursorsOnlyAdvance(s: State, s': State, step: Step, r: nat)
    requires Inv(s) && Next(s, s', step) && r < |s.readers|
    ensures r < |s'.readers|
    ensures var c, c' := s.readers[r], s'.readers[r];
            && c'.start == c.start && c.cursor <= c'.cursor && c.fates <= c'.fates
            && forall i :: |c.fates| <= i < |c'.fates| && c'.fates[i].Skipped? ==>
                 c.start + i + s.capacity <= s.published
  {
    FatesGrow(s, s', step, r);
    NextKeepsInv(s, s', step);
    assert ReaderOk(s', s'.readers[r]);
  }

  // --- Bounded reads ---------------------------------------------------------------------

  /** Steps a read may still take; `m` is the payload size limit. */
  function ReadMeasure(pc: ReaderPc, m: nat): int {
    match pc
    case Idle => READ_ATTEMPTS * (m + 4) + 2
    case Versioning(_, _, attempt) => (READ_ATTEMPTS - attempt) * (m + 4) + 1
    case Copying(_, _, attempt, _, k, _, _, _) =>
      (READ_ATTEMPTS - 1 - attempt) * (m + 4) + (m + 2 - k) + 2
    case Resuming(_, _) => 1
    case Returned(_, _) => 0
  }

  lemma AttemptCost(attempt: nat, m: nat)
    requires attempt < READ_ATTEMPTS
    ensures (READ_ATTEMPTS - attempt) * (m + 4) == (READ_ATTEMPTS - 1 - attempt) * (m + 4) + (m + 4)
    ensures 0 <= (READ_ATTEMPTS - 1 - attempt) * (m + 4)
  {
  }

  lemma AttemptEnds(pc: ReaderPc, m: nat)
    requires pc.Versioning? || (pc.Copying? && pc.k <= m + 2)
    requires pc.attempt < READ_ATTEMPTS
    ensures 0 <= ReadMeasure(NextAttempt(pc.room, pc.published, pc.attempt), m) < ReadMeasure(pc, m)
  {
    AttemptCost(pc.attempt, m);
  }

  /** A read never waits for the producer: whatever runs in between, each of the reader's own
      steps lowers the measure, so `try_read` takes at most `READ_ATTEMPTS * (m + 4) + 2` of them. */
  lemma ReadsAreBounded(s: State, s': State, step: Step, r: nat)
    requires Inv(s) && Next(s, s', step) && r < |s.readers|
    requires step.StartRead? || step.LoadVersion? || step.LoadGuarded? || step.Recheck? || step.Resume?
    requires step.r == r
    ensures r < |s'.readers|
    ensures 0 <= ReadMeasure(s'.readers[r].pc, s.maxPayload) < ReadMeasure(s.readers[r].pc, s.maxPayload)
    ensures ReadMeasure(Idle, s.maxPayload) == 64 * (s.maxPayload + 4) + 2
  {
    var pc := s.readers[r].pc;
    assert ReaderOk(s, s.readers[r]);
    if pc.Versioning? || pc.Copying? {
      AttemptCost(pc.attempt, s.maxPayload);
      AttemptEnds(pc, s.maxPayload);
    }
  }

  /** The cell of a lapped sequence is being written or holds a later one. */
  lemma LappedCell(s: State, want: nat)
    requires Shape(s) && Cells(s) && ProducerOk(s) && 1 <= want <= s.produced
    requires CellAt(s, want - 1).version % 2 == 0
    ensures Lapped(s, want) <==> CellAt(s, want - 1).sequence != want
  {
    WantedCell(s, want);
    Lap(want - 1, s.capacity);
    assert CellOk(s, s.produced);
  }

  /** When a read tries again: exactly after an odd or a changed version, which both mean
      that the wanted sequence is being overtaken, and 64 times at most. An unchanged even
      version ends the read: with `overwritten` to come exactly if the wanted sequence is
      lapped, and with its answer otherwise. */
  lemma StableSnapshotEndsRead(s: State, s': State, step: Step, r: nat)
    requires Inv(s) && Next(s, s', step) && r < |s.readers| && (step == LoadVersion(r) || step == Recheck(r))
    ensures var c, pc' := s.readers[r], s'.readers[r].pc;
            && (c.pc.Versioning? || c.pc.Copying?) && 1 <= c.cursor
            && var version := CellAt(s, c.cursor - 1).version;
               var unstable := if step.LoadVersion? then version % 2 == 1 else version != c.pc.before;
               if unstable
               then && Lapped(s, c.cursor)
                    && pc' == (if c.pc.attempt == 63 then Resuming(c.pc.room, c.pc.published)
                               else Versioning(c.pc.room, c.pc.published, c.pc.attempt + 1))
               else if step.LoadVersion? then pc'.Copying? && pc'.before == version && pc'.attempt == c.pc.attempt
               else if Lapped(s, c.cursor) then pc' == Resuming(c.pc.room, c.pc.published)
               else pc'.Returned?
  {
    var c := s.readers[r];
    assert ReaderOk(s, c);
    WantedCell(s, c.cursor);
    if step.Recheck? && CellAt(s, c.cursor - 1).version == c.pc.before {
      RecheckMeaning(s, c);
      LappedCell(s, c.cursor);
    }
  }

  /** Neither side is ever blocked: the guards of the machine exclude nothing. */
  lemma ReaderNeverStuck(s: State, r: nat) returns (step: Step, s': State)
    requires Inv(s) && r < |s.readers| && s.readers[r].pc != Idle
    ensures Next(s, s', step) && !ByProducer(step) && !step.Register? && step.r == r
  {
    var reader := s.readers[r];
    assert ReaderOk(s, reader);
    if reader.pc.Versioning? {
      step, s' := LoadVersion(r), WithReader(s, r, AfterVersion(reader, CellAt(s, reader.cursor - 1).version));
    } else if reader.pc.Copying? && reader.pc.k < s.maxPayload + 2 {
      step, s' := LoadGuarded(r), WithReader(s, r, AfterGuarded(reader, CellAt(s, reader.cursor - 1)));
    } else if reader.pc.Copying? {
      AfterRecheckOk(s, reader);
      step, s' := Recheck(r), WithReader(s, r, AfterRecheck(reader, CellAt(s, reader.cursor - 1).version));
    } else if reader.pc.Resuming? {
      step, s' := Resume(r), WithReader(s, r, AfterResume(reader, s.published, s.capacity));
    } else {
      step, s' := FinishRead(r), WithReader(s, r, reader.(pc := Idle));
    }
  }

  lemma ProducerNeverStuck(s: State) returns (step: Step, s': State)
    requires Inv(s) && s.producer != Resting
    ensures Next(s, s', step) && ByProducer(step)
  {
    var pc := s.producer;
    var c := CellAt(s, s.produced);
    if pc.Opening? {
      step := MarkOdd;
      s' := WithCell(s, s.produced, c.(version := pc.version + 1)).(producer := Writing(pc.payload, pc.version, 0));
    } else if pc.Writing? && pc.k < |pc.payload| + 2 {
      step := StoreGuarded;
      s' := WithCell(s, s.produced, Guarded(c, pc.payload, s.produced + 1, pc.k)).(producer := pc.(k := pc.k + 1));
    } else if pc.Writing? {
      step := Seal;
      s' := WithCell(s, s.produced, c.(version := pc.version + 2))
            .(producer := Announcing(pc.payload), produced := s.produced + 1);
    } else if pc.Announcing? {
      step := Announce;
      s' := s.(published := s.produced, producer := Answered(pc.payload, WriteResult(Success, s.produced)));
    } else {
      step, s' := FinishPublish, s.(producer := Resting);
    }
  }

  // --- Catch-up after the last publication -----------------------------------------------

  /** Every published payload fits into `fit` bytes. */
  ghost predicate Fits(s: State, fit: nat)
    requires s.published <= |s.offered|
  {
    forall k :: 0 <= k < s.published ==> |s.offered[k]| <= fit
  }

  /** The read in progress opened on the final boundary, with a large enough destination. */
  ghost predicate SettledReader(s: State, c: Reader, fit: nat) {
    && (c.pc.Versioning? || c.pc.Copying? || c.pc.Resuming? ==>
          c.pc.published == s.published && fit <= c.pc.room)
    && !(c.pc.Returned? && c.pc.answer.read.status == Overwritten)
  }

  /** Nothing is being published. */
  ghost predicate Settled(s: State, r: nat, fit: nat) {
    s.producer == Resting && r < |s.readers| && SettledReader(s, s.readers[r], fit)
  }

  /** A read that consumer `r` begins in this step has a large enough destination. */
  ghost predicate RoomyFor(step: Step, r: nat, fit: nat) {
    step.StartRead? && step.r == r ==> fit <= step.room
  }

  lemma RoomEnough(s: State, cursor: nat, room: nat, fit: nat)
    requires s.published <= |s.offered| && Fits(s, fit) && 1 <= cursor && fit <= room
    ensures Read(History(s), s.capacity, cursor, room) == Read(History(s), s.capacity, cursor, fit)
  {
  }

  /** The consumer's own answers in a settled queue. */
  ghost predicate AnswersLikeMutex(s: State, c: Reader, c': Reader, fit: nat)
    requires s.published <= |s.offered|
  {
    || (c'.answers == c.answers && c'.cursor == c.cursor)
    || (&& 1 <= c.cursor
        && var spec := Read(History(s), s.capacity, c.cursor, fit);
           c'.answers == c.answers + [spec.answer] && c'.cursor == spec.cursor)
  }

  /** In a settled queue no read is overtaken. */
  lemma SettledNotLapped(s: State, c: Reader, fit: nat)
    requires Shape(s) && ProducerOk(s) && s.producer == Resting && ReaderOk(s, c) && SettledReader(s, c, fit)
    ensures !c.pc.Resuming?
    ensures c.pc.Versioning? || c.pc.Copying? ==> !Lapped(s, c.cursor)
  {
  }

  lemma SettledOpen(s: State, c: Reader, room: nat, fit: nat)
    requires Shape(s) && Fits(s, fit) && ReaderOk(s, c) && fit <= room
    ensures var c' := Open(c, room, s.published, s.capacity);
            SettledReader(s, c', fit) && AnswersLikeMutex(s, c, c', fit)
  {
    OpenMeaning(s, c, room);
    RoomEnough(s, c.cursor, room, fit);
  }

  lemma SettledVersion(s: State, c: Reader, fit: nat)
    requires Shape(s) && ProducerOk(s) && Cells(s) && s.producer == Resting
    requires ReaderOk(s, c) && SettledReader(s, c, fit) && c.pc.Versioning?
    ensures SettledReader(s, AfterVersion(c, CellAt(s, c.cursor - 1).version), fit)
  {
  }

  lemma SettledRecheck(s: State, c: Reader, fit: nat)
    requires Shape(s) && Fits(s, fit) && ProducerOk(s) && Cells(s) && s.producer == Resting
    requires ReaderOk(s, c) && SettledReader(s, c, fit) && c.pc.Copying? && c.pc.k == s.maxPayload + 2
    ensures var version := CellAt(s, c.cursor - 1).version;
            && (version == c.pc.before ==> c.pc.size <= |c.pc.bytes|)
            && var c' := AfterRecheck(c, version);
               SettledReader(s, c', fit) && AnswersLikeMutex(s, c, c', fit)
  {
    RecheckAnswer(s, c);
    RoomEnough(s, c.cursor, c.pc.room, fit);
  }

  lemma SettledStep(s: State, s': State, step: Step, r: nat, fit: nat)
    requires Inv(s) && Next(s, s', step) && Settled(s, r, fit) && Fits(s, fit)
    requires !ByProducer(step) && RoomyFor(step, r, fit)
    ensures Settled(s', r, fit) && SameHistory(s, s')
    ensures AnswersLikeMutex(s, s.readers[r], s'.readers[r], fit)
  {
    var c := s.readers[r];
    assert ReaderOk(s, c);
    SettledNotLapped(s, c, fit);
    if step.Register? || step.r != r {
      assert s'.readers[r] == c;
    } else if step.StartRead? {
      SettledOpen(s, c, step.room, fit);
    } else if step.LoadVersion? {
      SettledVersion(s, c, fit);
    } else if step.Recheck? {
      SettledRecheck(s, c, fit);
    }
  }

  ghost predicate SameHistory(s: State, m: State) {
    && m.published == s.published && m.offered == s.offered
    && m.maxPayload == s.maxPayload && m.capacity == s.capacity
  }

  /** Between `s` and `m`, consumer `r` got exactly the answers and the cursor of that many
      uninterrupted reads of the mutex queue. */
  ghost predicate ReadsThrough(s: State, m: State, r: nat, fit: nat) {
    && s.published <= |s.offered|
    && r < |s.readers| && r < |m.readers| && 1 <= s.readers[r].cursor
    && var c, c' := s.readers[r], m.readers[r];
       && |c.answers| <= |c'.answers|
       && var (answers, cursor) :=
            Reads(History(s), s.capacity, c.cursor, fit, |c'.answers| - |c.answers|);
          c'.answers == c.answers + answers && c'.cursor == cursor
  }

  lemma ReadsThroughStep(s: State, m: State, m': State, step: Step, r: nat, fit: nat)
    requires ReadsThrough(s, m, r, fit) && SameHistory(s, m)
    requires Inv(m) && Next(m, m', step) && Settled(m, r, fit) && Fits(m, fit)
    requires !ByProducer(step) && RoomyFor(step, r, fit)
    ensures Settled(m', r, fit) && ReadsThrough(s, m', r, fit) && SameHistory(s, m')
  {
    SettledStep(m, m', step, r, fit);
    if m'.readers[r].answers != m.readers[r].answers {
      var n := |m.readers[r].answers| - |s.readers[r].answers|;
      var (answers, _) := Reads(History(s), s.capacity, s.readers[r].cursor, fit, n + 1);
      assert m'.readers[r].answers == s.readers[r].answers + answers;
    }
  }

  /** From state `i` to state `j` nothing is published, and consumer `r` only reads with
      destinations of at least `fit` bytes, enough for everything published. Other consumers
      may register and read as they like. */
  ghost predicate Quiet(states: seq<State>, steps: seq<Step>, i: nat, j: nat, r: nat, fit: nat) {
    && Run(states, steps) && i <= j < |states| && r < |states[i].readers|
    && states[i].producer == Resting && states[i].readers[r].pc == Idle
    && states[i].published <= |states[i].offered| && Fits(states[i], fit)
    && forall k :: i <= k < j ==> !ByProducer(steps[k]) && RoomyFor(steps[k], r, fit)
  }

  /** Bounded catch-up in the concurrent machine: after the last publication the answers of
      consumer `r` are exactly those of uninterrupted reads of the mutex queue, never
      `overwritten`. `Multicast.CatchUp` says what these are. */
  lemma {:induction false} CatchesUp(states: seq<State>, steps: seq<Step>, i: nat, j: nat, r: nat, fit: nat)
    requires Quiet(states, steps, i, j, r, fit)
    ensures Settled(states[j], r, fit) && SameHistory(states[i], states[j])
    ensures ReadsThrough(states[i], states[j], r, fit)
    decreases j
  {
    if i == j {
      RunInv(states, steps, i);
      assert ReaderOk(states[i], states[i].readers[r]);
    } else {
      var k := j - 1;
      CatchesUp(states, steps, i, k, r, fit);
      RunInv(states, steps, k);
      assert Moves(states, steps, k);
      ReadsThroughStep(states[i], states[k], states[k + 1], steps[k], r, fit);
    }
  }

  /** Hence more than `capacity` reads completed after the last publication leave nothing to
      read, and no such read misses: the answers from state `i` on are at most one lag, then
      every retained sequence in order with its payload, then only `empty`. */
  lemma CaughtUp(states: seq<State>, steps: seq<Step>, i: nat, j: nat, r: nat, fit: nat)
    requires Quiet(states, steps, i, j, r, fit)
    ensures r < |states[j].readers| && states[j].published == states[i].published
    ensures var c, c' := states[i].readers[r], states[j].readers[r];
            && |c.answers| <= |c'.answers|
            && (states[i].capacity < |c'.answers| - |c.answers| ==> c'.cursor == states[j].published + 1)
            && forall n :: |c.answers| <= n < |c'.answers| ==>
                 var status := c'.answers[n].read.status;
                 && (status == Success || status == Empty || status == ConsumerLagged)
                 && (status == ConsumerLagged ==> n == |c.answers|)
  {
    CatchesUp(states, steps, i, j, r, fit);
    RunInv(states, steps, i);
    var s, c, c' := states[i], states[i].readers[r], states[j].readers[r];
    assert ReaderOk(s, c);
    var count := |c'.answers| - |c.answers|;
    CatchUp(History(s), s.capacity, c.cursor, fit, count);
    var (answers, _) := Reads(History(s), s.capacity, c.cursor, fit, count);
    forall n | |c.answers| <= n < |c'.answers|
      ensures c'.answers[n] == answers[n - |c.answers|]
    {
    }
  }
}
