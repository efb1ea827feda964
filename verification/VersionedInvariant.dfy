/** The inductive invariant of the versioned queue machine, and that every step of the
    producer and of every reader keeps it. */
module VersionedInvariant {
  import opened Results
  import opened Multicast
  import opened Ring
  import opened VersionedMachine

  // --- The invariant ---------------------------------------------------------------------

  ghost predicate Shape(s: State) {
    && 0 < s.capacity && |s.cells| == s.capacity
    && (forall i :: 0 <= i < s.capacity ==> |s.cells[i].storage| == s.maxPayload)
    && (forall k :: 0 <= k < |s.offered| ==> |s.offered[k]| <= s.maxPayload)
    && s.published <= s.produced <= |s.offered|
  }

  /** Sequences whose write has begun: everything produced, plus the one being written. */
  function Begun(s: State): nat {
    s.produced + if s.producer.Writing? then 1 else 0
  }

  ghost predicate ProducerOk(s: State)
    requires Shape(s)
  {
    match s.producer
    case Resting => |s.offered| == s.produced == s.published
    case Opening(payload, version) =>
      && |s.offered| == s.produced + 1 && s.produced == s.published
      && s.offered[s.produced] == payload && version == CellAt(s, s.produced).version
    case Writing(payload, version, k) =>
      && |s.offered| == s.produced + 1 && s.produced == s.published
      && s.offered[s.produced] == payload && version + 1 == CellAt(s, s.produced).version
      && Partial(CellAt(s, s.produced), payload, s.produced + 1, k)
    case Announcing(payload) =>
      && |s.offered| == s.produced == s.published + 1
      && s.offered[s.published] == payload
    case Answered(payload, w) =>
      && |s.offered| == s.produced == s.published
      && (if |payload| > s.maxPayload then w == WriteResult(MessageTooLarge, 0)
          else && w == WriteResult(Success, s.published)
               && 0 < s.published && s.offered[s.published - 1] == payload)
  }

  /** `k` guarded stores have reached the cell. */
  ghost predicate Partial(c: Cell, payload: Payload, sequence: nat, k: nat) {
    && |payload| <= |c.storage| && k <= |payload| + 2
    && (0 < k ==> c.sequence == sequence)
    && (1 < k ==> c.size == |payload|)
    && (forall j :: 0 <= j < k - 2 ==> c.storage[j] == payload[j])
  }

  ghost predicate Contains(c: Cell, payload: Payload, sequence: nat) {
    && c.sequence == sequence && c.size == |payload| <= |c.storage|
    && c.storage[..|payload|] == payload
  }

  /** The cell that will next receive position `q`. Its version counts two per write: an
      even version `2 * g` with `g >= 1` means the `g`-th write, sequence
      `(g - 1) * capacity + i + 1` in cell `i`, and an odd one a write in progress. */
  ghost predicate CellOk(s: State, q: nat)
    requires Shape(s) && q < s.produced + s.capacity
  {
    var c := CellAt(s, q);
    if q == s.produced && s.producer.Writing? then c.version == 2 * (q / s.capacity) + 1
    else
      && c.version == 2 * (q / s.capacity)
      && if q < s.capacity then c.sequence == 0 && c.size == 0
         else Contains(c, s.offered[q - s.capacity], q - s.capacity + 1)
  }

  ghost predicate Cells(s: State)
    requires Shape(s)
  {
    forall q :: s.produced <= q < s.produced + s.capacity ==> CellOk(s, q)
  }

  /** The producer has begun to write a later generation into the cell of `want`. */
  ghost predicate Lapped(s: State, want: nat) {
    want + s.capacity <= Begun(s)
  }

  ghost predicate InRead(s: State, want: nat, published: nat) {
    1 <= want <= published <= s.published && published < want + s.capacity
  }

  /** Everything loaded so far equals the cell's present content. */
  ghost predicate Snapshot(c: Cell, pc: ReaderPc)
    requires pc.Copying?
  {
    && (0 < pc.k ==> pc.sequence == c.sequence)
    && (1 < pc.k ==> pc.size == c.size)
    && |pc.bytes| <= |c.storage| && pc.bytes == c.storage[..|pc.bytes|]
  }

  ghost predicate PcOk(s: State, want: nat, pc: ReaderPc)
    requires Shape(s)
  {
    match pc
    case Idle => true
    case Versioning(_, published, attempt) =>
      && InRead(s, want, published) && attempt < READ_ATTEMPTS
      && (0 < attempt ==> Lapped(s, want))
    case Copying(_, published, attempt, before, k, _, _, bytes) =>
      && InRead(s, want, published) && attempt < READ_ATTEMPTS
      && (0 < attempt ==> Lapped(s, want))
      && k <= s.maxPayload + 2 && |bytes| == (if k < 2 then 0 else k - 2)
      && before % 2 == 0
      && var c := CellAt(s, want - 1);
         && before <= c.version
         && (if c.version == before then Snapshot(c, pc) else Lapped(s, want))
    case Resuming(_, published) => InRead(s, want, published) && Lapped(s, want)
    case Returned(_, _) => true
  }

  /** What became of every sequence since registration. */
  ghost predicate Accounted(s: State, r: Reader) {
    && 1 <= r.start <= r.cursor <= s.published + 1
    && s.published <= |s.offered|
    && |r.fates| == r.cursor - r.start
    && (forall i :: 0 <= i < |r.fates| ==>
          match r.fates[i]
          case Delivered(data) => data == s.offered[r.start + i - 1]
          case Skipped => r.start + i + s.capacity <= s.published)
  }

  /** The sequences marked delivered, in order, when `fates[i]` is that of `start + i`. */
  function Picks(start: nat, fates: seq<Fate>): seq<nat> {
    if fates == [] then []
    else
      var n := |fates| - 1;
      Picks(start, fates[..n]) + if fates[n].Delivered? then [start + n] else []
  }

  ghost predicate ReaderOk(s: State, r: Reader)
    requires Shape(s)
  {
    Accounted(s, r) && r.delivered == Picks(r.start, r.fates) && PcOk(s, r.cursor, r.pc)
  }

  ghost predicate Readers(s: State)
    requires Shape(s)
  {
    forall i :: 0 <= i < |s.readers| ==> ReaderOk(s, s.readers[i])
  }

  ghost predicate Inv(s: State) {
    Shape(s) && ProducerOk(s) && Cells(s) && Readers(s)
  }

  // --- Producer steps --------------------------------------------------------------------

  lemma InitInv(s: State)
    requires Init(s)
    ensures Inv(s)
  {
    forall q | s.produced <= q < s.produced + s.capacity
      ensures CellOk(s, q)
    {
      FirstLap(q, s.capacity);
    }
  }

  /** What the producer may do while a reader is at work: boundaries and history grow, and
      a cell only changes together with its version or under an odd version. */
  ghost predicate Interferes(s: State, s': State, want: nat)
    requires Shape(s) && Shape(s') && 1 <= want
  {
    && s'.capacity == s.capacity && s'.maxPayload == s.maxPayload
    && s.published <= s'.published && s.offered <= s'.offered && Begun(s) <= Begun(s')
    && (want <= s.published ==>
          var c, c' := CellAt(s, want - 1), CellAt(s', want - 1);
          || c' == c
          || (c.version % 2 == 1 && c.version <= c'.version)
          || (c.version < c'.version && Lapped(s', want)))
  }

  lemma ReaderStable(s: State, s': State, r: Reader)
    requires Shape(s) && Shape(s') && ReaderOk(s, r) && Interferes(s, s', r.cursor)
    ensures ReaderOk(s', r)
  {
  }

  lemma ProducerStep(s: State, s': State)
    requires Inv(s) && Shape(s') && ProducerOk(s') && Cells(s') && s'.readers == s.readers
    requires forall want :: 1 <= want ==> Interferes(s, s', want)
    ensures Inv(s')
  {
    forall i | 0 <= i < |s'.readers|
      ensures ReaderOk(s', s'.readers[i])
    {
      ReaderStable(s, s', s.readers[i]);
    }
  }

  lemma StartPublishKeepsInv(s: State, s': State, payload: Payload)
    requires Inv(s) && DoStartPublish(s, s', payload)
    ensures Inv(s')
  {
    forall q | s'.produced <= q < s'.produced + s'.capacity
      ensures CellOk(s', q)
    {
      assert CellOk(s, q);
    }
    ProducerStep(s, s');
  }

  lemma AnnounceKeepsInv(s: State, s': State)
    requires Inv(s) && (DoAnnounce(s, s') || DoFinishPublish(s, s'))
    ensures Inv(s')
  {
    forall q | s'.produced <= q < s'.produced + s'.capacity
      ensures CellOk(s', q)
    {
      assert CellOk(s, q);
    }
    ProducerStep(s, s');
  }

  /** A store into the producer's cell leaves the cells of the other next positions alone. */
  lemma OtherCells(s: State, c: Cell, q: nat)
    requires Shape(s) && s.produced < q < s.produced + s.capacity
    ensures CellAt(WithCell(s, s.produced, c), q) == CellAt(s, q)
  {
    Distinct(s.produced, q, s.capacity);
  }

  /** Readers see the producer's cell only as one they have been lapped in. */
  lemma SameCellLapped(s: State, want: nat)
    requires Shape(s) && 1 <= want <= s.produced
    requires Index(want - 1, s.capacity) == Index(s.produced, s.capacity)
    ensures want + s.capacity <= s.produced + 1
  {
    SameCell(want - 1, s.produced, s.capacity);
  }

  lemma MarkOddKeepsInv(s: State, s': State)
    requires Inv(s) && DoMarkOdd(s, s')
    ensures Inv(s')
  {
    var c := CellAt(s', s.produced);
    forall q | s'.produced <= q < s'.produced + s'.capacity
      ensures CellOk(s', q)
    {
      assert CellOk(s, q);
      if q != s.produced {
        OtherCells(s, c, q);
      }
    }
    forall want | 1 <= want
      ensures Interferes(s, s', want)
    {
      if want <= s.published && Index(want - 1, s.capacity) == Index(s.produced, s.capacity) {
        SameCellLapped(s, want);
      }
    }
    ProducerStep(s, s');
  }

  lemma StoreGuardedCells(s: State, s': State)
    requires Shape(s) && ProducerOk(s) && Cells(s) && DoStoreGuarded(s, s')
    ensures Shape(s') && ProducerOk(s') && Cells(s')
  {
    var c := CellAt(s', s.produced);
    assert CellOk(s, s.produced);
    forall q | s'.produced <= q < s'.produced + s'.capacity
      ensures CellOk(s', q)
    {
      assert CellOk(s, q);
      if q != s.produced {
        OtherCells(s, c, q);
      }
    }
  }

  lemma StoreGuardedKeepsInv(s: State, s': State)
    requires Inv(s) && DoStoreGuarded(s, s')
    ensures Inv(s')
  {
    assert CellOk(s, s.produced);
    StoreGuardedCells(s, s');
    ProducerStep(s, s');
  }

  lemma SealCells(s: State, s': State)
    requires Shape(s) && ProducerOk(s) && Cells(s) && DoSeal(s, s')
    ensures Shape(s') && ProducerOk(s') && Cells(s')
  {
    var c := CellAt(s', s.produced);
    assert CellOk(s, s.produced);
    Lap(s.produced, s.capacity);
    assert c.storage[..|s.producer.payload|] == s.producer.payload;
    forall q | s'.produced <= q < s'.produced + s'.capacity
      ensures CellOk(s', q)
    {
      if q != s.produced + s.capacity {
        assert CellOk(s, q);
        OtherCells(s, c, q);
      }
    }
  }

  lemma SealKeepsInv(s: State, s': State)
    requires Inv(s) && DoSeal(s, s')
    ensures Inv(s')
  {
    assert CellOk(s, s.produced);
    SealCells(s, s');
    ProducerStep(s, s');
  }

  // --- Reader steps ----------------------------------------------------------------------

  lemma ReaderStep(s: State, i: nat, r: Reader)
    requires Inv(s) && i < |s.readers| && ReaderOk(s, r)
    ensures Inv(WithReader(s, i, r))
  {
    var s' := WithReader(s, i, r);
    forall q | s'.produced <= q < s'.produced + s'.capacity
      ensures CellOk(s', q)
    {
      assert CellOk(s, q);
    }
    forall k | 0 <= k < |s'.readers|
      ensures ReaderOk(s', s'.readers[k])
    {
      ReaderStable(s, s', s'.readers[k]);
    }
  }

  lemma RegisterKeepsInv(s: State, s': State)
    requires Inv(s) && DoRegister(s, s')
    ensures Inv(s')
  {
    forall q | s'.produced <= q < s'.produced + s'.capacity
      ensures CellOk(s', q)
    {
      assert CellOk(s, q);
    }
    forall k | 0 <= k < |s'.readers|
      ensures ReaderOk(s', s'.readers[k])
    {
      ReaderStable(s, s', s'.readers[k]);
    }
  }

  /** What the cell of a wanted sequence can hold: the wanted message, or a later one of the
      same cell, or a later one being written. */
  lemma WantedCell(s: State, want: nat)
    requires Shape(s) && Cells(s) && 1 <= want <= s.produced
    ensures var c := CellAt(s, want - 1);
            if c.version % 2 == 1 then Lapped(s, want)
            else && want <= c.sequence <= s.produced
                 && c.sequence + s.capacity > s.produced
                 && Contains(c, s.offered[c.sequence - 1], c.sequence)
                 && (c.sequence != want ==> Lapped(s, want))
  {
    var q := Representative(want - 1, s.produced, s.capacity);
    assert CellOk(s, q);
    assert CellAt(s, q) == CellAt(s, want - 1);
    if q - s.capacity + 1 != want {
      Lap(want - 1, s.capacity);
      SameCell(want - 1 + s.capacity, q, s.capacity);
    }
  }

  lemma {:induction false} PicksSkip(start: nat, fates: seq<Fate>, n: nat)
    ensures Picks(start, fates + Skip(n)) == Picks(start, fates)
  {
    if n == 0 {
      assert fates + Skip(0) == fates;
    } else {
      var all := fates + Skip(n);
      assert all[..|all| - 1] == fates + Skip(n - 1);
      PicksSkip(start, fates, n - 1);
    }
  }

  lemma JumpOk(s: State, r: Reader, room: nat, a: Answer, to: nat)
    requires Shape(s) && Accounted(s, r) && r.delivered == Picks(r.start, r.fates)
    requires r.cursor <= to && (r.cursor < to ==> to == Oldest(s.published, s.capacity))
    ensures ReaderOk(s, Jump(r, room, a, to))
  {
    PicksSkip(r.start, r.fates, to - r.cursor);
  }

  lemma DeliverOk(s: State, r: Reader, room: nat, data: Payload)
    requires Shape(s) && Accounted(s, r) && r.delivered == Picks(r.start, r.fates)
    requires r.cursor <= s.published && data == s.offered[r.cursor - 1]
    ensures ReaderOk(s, Deliver(r, room, data))
  {
    var all := r.fates + [Delivered(data)];
    assert all[..|all| - 1] == r.fates;
  }

  lemma OpenOk(s: State, r: Reader, room: nat)
    requires Shape(s) && ReaderOk(s, r)
    ensures ReaderOk(s, Open(r, room, s.published, s.capacity))
  {
    var oldest := Oldest(s.published, s.capacity);
    if r.cursor <= s.published && r.cursor < oldest {
      JumpOk(s, r, room, Answer(ReadResult(ConsumerLagged, 0, oldest), []), oldest);
    }
  }

  lemma StartReadKeepsInv(s: State, s': State, i: nat, room: nat)
    requires Inv(s) && DoStartRead(s, s', i, room)
    ensures Inv(s')
  {
    OpenOk(s, s.readers[i], room);
    ReaderStep(s, i, s'.readers[i]);
  }

  lemma AfterVersionOk(s: State, r: Reader)
    requires Shape(s) && Cells(s) && ReaderOk(s, r) && r.pc.Versioning?
    ensures ReaderOk(s, AfterVersion(r, CellAt(s, r.cursor - 1).version))
  {
    WantedCell(s, r.cursor);
  }

  lemma LoadVersionKeepsInv(s: State, s': State, i: nat)
    requires Inv(s) && DoLoadVersion(s, s', i)
    ensures Inv(s')
  {
    AfterVersionOk(s, s.readers[i]);
    ReaderStep(s, i, s'.readers[i]);
  }

  lemma LoadGuardedKeepsInv(s: State, s': State, i: nat)
    requires Inv(s) && DoLoadGuarded(s, s', i)
    ensures Inv(s')
  {
    ReaderStep(s, i, s'.readers[i]);
  }

  /** A snapshot whose version survived the second load is the cell's content. */
  lemma RecheckMeaning(s: State, r: Reader)
    requires Shape(s) && Cells(s) && ReaderOk(s, r) && r.pc.Copying?
    requires r.pc.k == s.maxPayload + 2
    requires CellAt(s, r.cursor - 1).version == r.pc.before
    ensures r.pc.size <= s.maxPayload == |r.pc.bytes|
    ensures r.cursor <= r.pc.sequence <= s.produced < r.pc.sequence + s.capacity
    ensures r.pc.bytes[..r.pc.size] == s.offered[r.pc.sequence - 1]
    ensures r.pc.sequence != r.cursor ==> Lapped(s, r.cursor)
  {
    WantedCell(s, r.cursor);
    assert r.pc.bytes == CellAt(s, r.cursor - 1).storage;
  }

  lemma AfterRecheckOk(s: State, r: Reader)
    requires Shape(s) && Cells(s) && ReaderOk(s, r) && r.pc.Copying?
    requires r.pc.k == s.maxPayload + 2
    ensures var version := CellAt(s, r.cursor - 1).version;
            && (version == r.pc.before ==> r.pc.size <= |r.pc.bytes|)
            && ReaderOk(s, AfterRecheck(r, version))
  {
    if CellAt(s, r.cursor - 1).version == r.pc.before {
      RecheckMeaning(s, r);
      if r.pc.sequence == r.cursor && r.pc.size <= r.pc.room {
        DeliverOk(s, r, r.pc.room, r.pc.bytes[..r.pc.size]);
      }
    }
  }

  lemma RecheckKeepsInv(s: State, s': State, i: nat)
    requires Inv(s) && DoRecheck(s, s', i)
    ensures Inv(s')
  {
    AfterRecheckOk(s, s.readers[i]);
    ReaderStep(s, i, s'.readers[i]);
  }

  lemma ResumeKeepsInv(s: State, s': State, i: nat)
    requires Inv(s) && DoResume(s, s', i)
    ensures Inv(s')
  {
    var r := s.readers[i];
    JumpOk(s, r, r.pc.room, s'.readers[i].pc.answer, s'.readers[i].cursor);
    ReaderStep(s, i, s'.readers[i]);
  }

  lemma FinishReadKeepsInv(s: State, s': State, i: nat)
    requires Inv(s) && DoFinishRead(s, s', i)
    ensures Inv(s')
  {
    ReaderStep(s, i, s'.readers[i]);
  }

  /** Every step keeps the invariant. */
  lemma NextKeepsInv(s: State, s': State, step: Step)
    requires Inv(s) && Next(s, s', step)
    ensures Inv(s')
  {
    match step
    case StartPublish(payload) => StartPublishKeepsInv(s, s', payload);
    case MarkOdd => MarkOddKeepsInv(s, s');
    case StoreGuarded => StoreGuardedKeepsInv(s, s');
    case Seal => SealKeepsInv(s, s');
    case Announce => AnnounceKeepsInv(s, s');
    case FinishPublish => AnnounceKeepsInv(s, s');
    case Register => RegisterKeepsInv(s, s');
    case StartRead(r, room) => StartReadKeepsInv(s, s', r, room);
    case LoadVersion(r) => LoadVersionKeepsInv(s, s', r);
    case LoadGuarded(r) => LoadGuardedKeepsInv(s, s', r);
    case Recheck(r) => RecheckKeepsInv(s, s', r);
    case Resume(r) => ResumeKeepsInv(s, s', r);
    case FinishRead(r) => FinishReadKeepsInv(s, s', r);
  }

  /** Every state of every run satisfies the invariant. */
  lemma {:induction false} RunInv(states: seq<State>, steps: seq<Step>, i: nat)
    requires Run(states, steps) && i < |states|
    ensures Inv(states[i])
  {
    if i == 0 {
      InitInv(states[0]);
    } else {
      var k := i - 1;
      RunInv(states, steps, k);
      assert Moves(states, steps, k);
      NextKeepsInv(states[k], states[k + 1], steps[k]);
    }
  }
}
