/** The multicast drain protocol of the stress harness on the versioned queue: the producer
    raises a done flag after its last publication; each consumer leaves its loop when it
    finds the flag raised and then its cursor past the published boundary. */
module MulticastDrain {
  import opened Results
  import opened Counting
  import opened Multicast
  import opened StressPayload
  import Q = VersionedMachine
  import I = VersionedInvariant
  import V = VersionedTheorems

  /** Consumer loop. The condition loads the flag, then cursor and boundary in either order. */
  datatype Loop =
    | TestDone
    | TestFirst
    | TestSecond(nextFirst: bool, value: nat)
    | Attempting
    | Exited

  /** What a consumer thread keeps: successful reads, lag events, the last sequence it
      accepted and the sequences it marked as seen. */
  datatype Metrics = Metrics(readCount: nat, lagEvents: nat, last: nat, seen: set<nat>)

  datatype Worker = Worker(loop: Loop, metrics: Metrics)

  /** `script[n - 1]` is the generated payload of sequence `n`, `sent` how many of them the
      producer loop has confirmed. `room` is the payload size that all of them have and that
      every destination has. `stopped` tells that the producer loop was left by `break`. */
  datatype State = State(
    q: Q.State,
    script: seq<Payload>,
    room: nat,
    sent: nat,
    stopped: bool,
    done: bool,
    workers: seq<Worker>,
    failed: bool)

  ghost predicate Sized(s: State) {
    && s.room <= s.q.maxPayload
    && forall k :: 0 <= k < |s.script| ==> |s.script[k]| == s.room
  }

  ghost predicate Init(s: State) {
    && Q.Init(s.q) && Sized(s) && s.sent == 0 && !s.stopped && !s.done
    && s.workers == [] && !s.failed
  }

  datatype Step =
    | Join
    | Offer
    | Publish(step: Q.Step)
    | Confirm
    | RaiseDone
    | LoadDone(r: nat)
    | LoadFirst(r: nat, nextFirst: bool)
    | LoadSecond(r: nat)
    | ReadOn(step: Q.Step)
    | Check(r: nat)

  /** What the loop body makes of an answer: the new metrics, and whether it is a failure. */
  function Judge(m: Metrics, a: Answer, script: seq<Payload>, room: nat): (Metrics, bool) {
    match a.read.status
    case Success =>
      var n := a.read.sequence;
      if n == 0 || n > |script| || n <= m.last then (m, true)
      else if Filled(a.data, room) != script[n - 1] then (m, true)
      else (m.(readCount := m.readCount + 1, last := n, seen := m.seen + {n}), false)
    case ConsumerLagged => (m.(lagEvents := m.lagEvents + 1), false)
    case Overwritten => (m.(lagEvents := m.lagEvents + 1), false)
    case Empty => (m, false)
    case _ => (m, true)
  }

  /** The loop body records a failure for every answer that is not one of these: an
      acceptable status, or a success with a new sequence in range and the payload generated
      for it, which it then marks as seen. */
  lemma FaultsAreRecorded(m: Metrics, a: Answer, script: seq<Payload>, room: nat)
    ensures var (m', bad) := Judge(m, a, script, room);
            var n := a.read.sequence;
            && (bad <==> !(|| a.read.status == ConsumerLagged || a.read.status == Overwritten || a.read.status == Empty
                           || (&& a.read.status == Success && m.last < n && 1 <= n <= |script|
                               && Filled(a.data, room) == script[n - 1])))
            && m'.seen == m.seen + (if a.read.status == Success && !bad then {n} else {})
            && m'.lagEvents == m.lagEvents
                               + (if a.read.status == ConsumerLagged || a.read.status == Overwritten then 1 else 0)
  {
  }

  function WithLoop(s: State, r: nat, loop: Loop): State
    requires r < |s.workers|
  {
    s.(workers := s.workers[r := s.workers[r].(loop := loop)])
  }

  ghost predicate Next(s: State, s': State, step: Step) {
    match step
    case Join =>
      && Q.Next(s.q, s'.q, Q.Register)
      && s' == s.(q := s'.q, workers := s.workers + [Worker(TestDone, Metrics(0, 0, 0, {}))])
    case Offer =>
      && !s.stopped && !s.done && s.sent < |s.script|
      && Q.Next(s.q, s'.q, Q.StartPublish(s.script[s.sent])) && s' == s.(q := s'.q)
    case Publish(st) =>
      && Q.ByProducer(st) && !st.StartPublish? && !st.FinishPublish?
      && Q.Next(s.q, s'.q, st) && s' == s.(q := s'.q)
    case Confirm =>
      && Q.Next(s.q, s'.q, Q.FinishPublish)
      && s' == if s.q.producer.write == WriteResult(Success, s.sent + 1)
               then s.(q := s'.q, sent := s.sent + 1)
               else s.(q := s'.q, failed := true, stopped := true)
    case RaiseDone =>
      !s.done && s.q.producer == Q.Resting && s' == s.(done := true)
    case LoadDone(r) =>
      && r < |s.workers| && s.workers[r].loop == TestDone
      && s' == WithLoop(s, r, if s.done then TestFirst else Attempting)
    case LoadFirst(r, nextFirst) =>
      && r < |s.workers| && r < |s.q.readers| && s.workers[r].loop == TestFirst
      && s' == WithLoop(s, r, TestSecond(nextFirst, if nextFirst then s.q.readers[r].cursor else s.q.published))
    case LoadSecond(r) =>
      && r < |s.workers| && r < |s.q.readers| && s.workers[r].loop.TestSecond?
      && var l := s.workers[r].loop;
         var next := if l.nextFirst then l.value else s.q.readers[r].cursor;
         var published := if l.nextFirst then s.q.published else l.value;
         s' == WithLoop(s, r, if next <= published then Attempting else Exited)
    case ReadOn(st) =>
      && V.ByReader(st) && !st.FinishRead? && (st.StartRead? ==> st.room == s.room)
      && st.r < |s.workers| && s.workers[st.r].loop == Attempting
      && Q.Next(s.q, s'.q, st) && s' == s.(q := s'.q)
    case Check(r) =>
      && r < |s.workers| && r < |s.q.readers| && s.workers[r].loop == Attempting
      && s.q.readers[r].pc.Returned? && Q.Next(s.q, s'.q, Q.FinishRead(r))
      && var (m, bad) := Judge(s.workers[r].metrics, s.q.readers[r].pc.answer, s.script, s.room);
         s' == s.(q := s'.q, workers := s.workers[r := Worker(TestDone, m)], failed := s.failed || bad)
  }

  ghost predicate Moves(states: seq<State>, steps: seq<Step>, i: nat)
    requires i < |steps| && |states| == |steps| + 1
  {
    Next(states[i], states[i + 1], steps[i])
  }

  ghost predicate Run(states: seq<State>, steps: seq<Step>) {
    && |states| == |steps| + 1
    && Init(states[0])
    && forall i :: 0 <= i < |steps| ==> Moves(states, steps, i)
  }

  // --- The invariant ---------------------------------------------------------------------

  /** The producer publishes the script in order, one payload at a time. */
  ghost predicate ProducerSide(s: State) {
    && Sized(s) && !s.stopped
    && |s.q.offered| <= |s.script| && s.q.offered == s.script[..|s.q.offered|]
    && (if s.q.producer == Q.Resting then s.sent == |s.q.offered|
        else |s.q.producer.payload| == s.room && s.sent + 1 == |s.q.offered|)
    && (s.done ==> s.q.producer == Q.Resting)
  }

  /** A successful answer that the loop body has not judged yet. */
  predicate Fresh(c: Q.Reader) {
    c.pc.Returned? && c.pc.answer.read.status == Success
  }

  /** What is known of a read in progress and of its answer. */
  ghost predicate ReadOk(q: Q.State, room: nat, c: Q.Reader) {
    match c.pc
    case Versioning(own, _, _) => own == room
    case Copying(own, _, _, _, _, _, _, _) => own == room
    case Resuming(own, _) => own == room
    case Returned(_, a) =>
      (match a.read.status
       case Success =>
         && 1 <= a.read.sequence <= q.published <= |q.offered|
         && a.data == q.offered[a.read.sequence - 1]
         && c.delivered != [] && c.delivered[|c.delivered| - 1] == a.read.sequence
       case ConsumerLagged => true
       case Overwritten => true
       case Empty => true
       case _ => false)
    case Idle => true
  }

  /** The deliveries that the loop body has recorded. */
  function Recorded(c: Q.Reader): seq<nat> {
    if Fresh(c) && c.delivered != [] then c.delivered[..|c.delivered| - 1] else c.delivered
  }

  ghost predicate Keeps(m: Metrics, d: seq<nat>) {
    && m.readCount == |d| && m.last == (if d == [] then 0 else d[|d| - 1])
    && forall n :: n in m.seen <==> n in d
  }

  ghost predicate LoopOk(published: nat, done: bool, c: Q.Reader, loop: Loop) {
    && (loop != Attempting ==> c.pc == Q.Idle)
    && (loop == TestFirst || loop.TestSecond? || loop == Exited ==> done)
    && (loop.TestSecond? ==> loop.value == if loop.nextFirst then c.cursor else published)
    && (loop == Exited ==> published < c.cursor)
  }

  ghost predicate WorkerOk(s: State, r: nat)
    requires r < |s.workers| == |s.q.readers|
  {
    var c, w := s.q.readers[r], s.workers[r];
    && ReadOk(s.q, s.room, c) && Keeps(w.metrics, Recorded(c))
    && LoopOk(s.q.published, s.done, c, w.loop)
  }

  ghost predicate Workers(s: State) {
    && |s.workers| == |s.q.readers|
    && forall r :: 0 <= r < |s.workers| ==> WorkerOk(s, r)
  }

  ghost predicate Inv(s: State) {
    I.Inv(s.q) && ProducerSide(s) && Workers(s) && !s.failed
  }

  // --- Preservation ----------------------------------------------------------------------

  lemma InitInv(s: State)
    requires Init(s)
    ensures Inv(s)
  {
    I.InitInv(s.q);
  }

  /** A worker is not disturbed by what others do: its own reader rests, the history grows,
      and the boundary moves only while the flag is down. */
  lemma WorkerKept(s: State, s': State, r: nat)
    requires r < |s.workers| == |s.q.readers| && r < |s'.workers| == |s'.q.readers| && WorkerOk(s, r)
    requires s'.workers[r] == s.workers[r] && s'.q.readers[r] == s.q.readers[r] && s'.room == s.room
    requires s.q.published <= s'.q.published <= |s'.q.offered| && s.q.offered <= s'.q.offered
    requires s.done ==> s'.done && s'.q.published == s.q.published
    ensures WorkerOk(s', r)
  {
  }

  lemma OthersKept(s: State, s': State, r: nat)
    requires Workers(s) && r < |s.workers| == |s'.workers| && |s'.q.readers| == |s'.workers|
    requires forall o :: 0 <= o < |s.workers| && o != r ==>
               s'.workers[o] == s.workers[o] && s'.q.readers[o] == s.q.readers[o]
    requires s'.room == s.room && s'.q.published == s.q.published <= |s'.q.offered| && s'.q.offered == s.q.offered
    requires s'.done == s.done && WorkerOk(s', r)
    ensures Workers(s')
  {
    forall o | 0 <= o < |s'.workers|
      ensures WorkerOk(s', o)
    {
      if o != r {
        WorkerKept(s, s', o);
      }
    }
  }

  lemma AllKept(s: State, s': State)
    requires Workers(s) && s'.workers == s.workers && s'.q.readers == s.q.readers && s'.room == s.room
    requires s.q.published <= s'.q.published <= |s'.q.offered| && s.q.offered <= s'.q.offered
    requires s.done ==> s'.done && s'.q.published == s.q.published
    ensures Workers(s')
  {
    forall o | 0 <= o < |s'.workers|
      ensures WorkerOk(s', o)
    {
      WorkerKept(s, s', o);
    }
  }

  /** What the producer's steps do to history and program counter. */
  lemma PublishEffect(q: Q.State, q': Q.State, st: Q.Step)
    requires I.Inv(q) && Q.Next(q, q', st) && Q.ByProducer(st)
    ensures q'.readers == q.readers && q'.maxPayload == q.maxPayload
    ensures q.published <= q'.published <= |q'.offered| && (q.producer == Q.Resting ==> q'.published == q.published)
    ensures q.producer == Q.Resting <==> st.StartPublish?
    ensures q'.producer == Q.Resting <==> st.FinishPublish?
    ensures !st.FinishPublish? && !st.StartPublish? ==> q'.producer.payload == q.producer.payload
    ensures st.StartPublish? ==> q'.producer.payload == st.payload
    ensures q'.offered == if st.StartPublish? && |st.payload| <= q.maxPayload then q.offered + [st.payload] else q.offered
    ensures q.producer.Answered? && |q.producer.payload| <= q.maxPayload ==>
              q.producer.write == WriteResult(Success, |q.offered|)
  {
    I.NextKeepsInv(q, q', st);
  }

  lemma ProducerKeepsInv(s: State, s': State, step: Step)
    requires Inv(s) && Next(s, s', step) && (step.Offer? || step.Publish? || step.Confirm?)
    ensures Inv(s')
  {
    var st := if step.Offer? then Q.StartPublish(s.script[s.sent])
              else if step.Publish? then step.step else Q.FinishPublish;
    I.NextKeepsInv(s.q, s'.q, st);
    PublishEffect(s.q, s'.q, st);
    AllKept(s, s');
  }

  lemma JoinKeepsInv(s: State, s': State)
    requires Inv(s) && Next(s, s', Join)
    ensures Inv(s')
  {
    I.NextKeepsInv(s.q, s'.q, Q.Register);
    forall o | 0 <= o < |s'.workers|
      ensures WorkerOk(s', o)
    {
      if o < |s.workers| {
        WorkerKept(s, s', o);
      }
    }
  }

  lemma TestKeepsInv(s: State, s': State, step: Step)
    requires Inv(s) && Next(s, s', step) && (step.LoadDone? || step.LoadFirst? || step.LoadSecond?)
    ensures Inv(s')
  {
    assert WorkerOk(s, step.r);
    OthersKept(s, s', step.r);
  }

  /** What the deciding loads of a read make of the reader. */
  lemma OpenEffect(q: Q.State, c: Q.Reader, room: nat)
    requires I.Shape(q) && I.ReaderOk(q, c)
    ensures var c' := Q.Open(c, room, q.published, q.capacity);
            ReadOk(q, room, c') && !Fresh(c') && c'.delivered == c.delivered
  {
  }

  lemma RecheckEffect(q: Q.State, c: Q.Reader, room: nat)
    requires I.Shape(q) && I.Cells(q) && I.ReaderOk(q, c) && ReadOk(q, room, c)
    requires c.pc.Copying? && c.pc.k == q.maxPayload + 2
    requires forall k :: 0 <= k < q.published ==> |q.offered[k]| <= room
    ensures var version := Q.CellAt(q, c.cursor - 1).version;
            && (version == c.pc.before ==> c.pc.size <= |c.pc.bytes|)
            && var c' := Q.AfterRecheck(c, version);
               && ReadOk(q, room, c')
               && c'.delivered == c.delivered + if Fresh(c') then [c'.pc.answer.read.sequence] else []
  {
    V.RecheckAnswer(q, c);
  }

  /** What a reader's step does to that reader. */
  lemma ReadEffect(q: Q.State, q': Q.State, st: Q.Step, room: nat)
    requires I.Inv(q) && Q.Next(q, q', st) && V.ByReader(st) && !st.FinishRead?
    requires ReadOk(q, room, q.readers[st.r]) && (st.StartRead? ==> st.room == room)
    requires forall k :: 0 <= k < q.published ==> |q.offered[k]| <= room
    ensures st.r < |q.readers| && q' == Q.WithReader(q, st.r, q'.readers[st.r])
    ensures var c, c' := q.readers[st.r], q'.readers[st.r];
            && !c.pc.Returned? && ReadOk(q, room, c')
            && c'.delivered == c.delivered + if Fresh(c') then [c'.pc.answer.read.sequence] else []
  {
    var c := q.readers[st.r];
    assert I.ReaderOk(q, c);
    if st.StartRead? {
      OpenEffect(q, c, room);
    } else if st.Recheck? {
      RecheckEffect(q, c, room);
    }
  }

  lemma ReadKeepsInv(s: State, s': State, step: Step)
    requires Inv(s) && Next(s, s', step) && step.ReadOn?
    ensures Inv(s')
  {
    var r := step.step.r;
    I.NextKeepsInv(s.q, s'.q, step.step);
    assert WorkerOk(s, r);
    assert s.q.published <= |s.q.offered|;
    ReadEffect(s.q, s'.q, step.step, s.room);
    assert Recorded(s'.q.readers[r]) == Recorded(s.q.readers[r]);
    OthersKept(s, s', r);
  }

  /** A fresh delivery is the last one, beyond everything recorded so far. */
  lemma FreshIsNew(q: Q.State, room: nat, c: Q.Reader)
    requires I.Shape(q) && I.ReaderOk(q, c) && ReadOk(q, room, c) && Fresh(c)
    ensures var n, d := c.pc.answer.read.sequence, Recorded(c);
            c.delivered == d + [n] && (d != [] ==> d[|d| - 1] < n)
  {
    V.ReaderAccounting(q, c);
  }

  lemma JudgeSuccess(m: Metrics, d: seq<nat>, a: Answer, script: seq<Payload>, room: nat)
    requires Keeps(m, d) && a.read.status == Success
    requires 1 <= a.read.sequence <= |script| && (d != [] ==> d[|d| - 1] < a.read.sequence)
    requires a.data == script[a.read.sequence - 1] && |a.data| == room
    ensures var (m', bad) := Judge(m, a, script, room);
            !bad && Keeps(m', d + [a.read.sequence])
  {
    assert Filled(a.data, room) == a.data;
  }

  /** The loop body records a fresh delivery and never finds a failure. */
  lemma JudgeRecords(s: State, r: nat)
    requires Inv(s) && r < |s.workers| && s.q.readers[r].pc.Returned?
    ensures var (m, bad) := Judge(s.workers[r].metrics, s.q.readers[r].pc.answer, s.script, s.room);
            !bad && Keeps(m, s.q.readers[r].delivered)
  {
    var c, m := s.q.readers[r], s.workers[r].metrics;
    assert WorkerOk(s, r);
    if Fresh(c) {
      assert I.ReaderOk(s.q, c);
      FreshIsNew(s.q, s.room, c);
      JudgeSuccess(m, Recorded(c), c.pc.answer, s.script, s.room);
    }
  }

  lemma CheckKeepsInv(s: State, s': State, r: nat)
    requires Inv(s) && Next(s, s', Check(r))
    ensures Inv(s')
  {
    I.NextKeepsInv(s.q, s'.q, Q.FinishRead(r));
    JudgeRecords(s, r);
    assert WorkerOk(s, r);
    OthersKept(s, s', r);
  }

  lemma NextKeepsInv(s: State, s': State, step: Step)
    requires Inv(s) && Next(s, s', step)
    ensures Inv(s')
  {
    match step
    case Join => JoinKeepsInv(s, s');
    case RaiseDone => AllKept(s, s');
    case ReadOn(_) => ReadKeepsInv(s, s', step);
    case Check(r) => CheckKeepsInv(s, s', r);
    case _ =>
      if step.LoadDone? || step.LoadFirst? || step.LoadSecond? {
        TestKeepsInv(s, s', step);
      } else {
        ProducerKeepsInv(s, s', step);
      }
  }

  lemma {:induction false} RunInv(states: seq<State>, steps: seq<Step>, i: nat)
    requires Run(states, steps) && i < |states|
    ensures Inv(states[i])
  {
    if i == 0 {
      InitInv(states[0]);
    } else {
      var k := i - 1;
      RunInv(states, steps, k);
      assert Moves(states, steps, k);
      NextKeepsInv(states[k], states[k + 1], steps[k]);
    }
  }

  // --- Theorems --------------------------------------------------------------------------

  /** The harness never records a failure: over every run, every publication gets the next
      sequence, and every successful read has an increasing sequence and the payload
      generated for it. */
  lemma NeverFails(states: seq<State>, steps: seq<Step>, i: nat)
    requires Run(states, steps) && i < |states|
    ensures !states[i].failed && !states[i].stopped
  {
    RunInv(states, steps, i);
  }

  /** The drain misses nothing that is retained: once a consumer has left through its loop
      condition, publishing is finished, all its deliveries are recorded, and every retained
      sequence published since it registered has been seen. */
  lemma DrainIsComplete(states: seq<State>, steps: seq<Step>, i: nat, r: nat)
    requires Run(states, steps) && i < |states|
    requires r < |states[i].workers| && states[i].workers[r].loop == Exited
    ensures var s := states[i];
            && s.done && s.q.producer == Q.Resting && s.q.published == s.sent == |s.q.offered|
            && r < |s.q.readers|
            && s.q.readers[r].cursor == s.q.published + 1
            && s.workers[r].metrics.readCount == |s.q.readers[r].delivered|
            && forall n :: s.q.readers[r].start <= n <= s.q.published < n + s.q.capacity ==>
                 n in s.workers[r].metrics.seen
  {
    RunInv(states, steps, i);
    var s := states[i];
    var c := s.q.readers[r];
    assert WorkerOk(s, r);
    assert I.ReaderOk(s.q, c);
    V.ReaderAccounting(s.q, c);
    forall n | c.start <= n <= s.q.published < n + s.q.capacity
      ensures n in s.workers[r].metrics.seen
    {
      V.NothingRetainedIsMissed(s.q, c, n);
    }
  }

  // --- Termination of the consumer loop --------------------------------------------------

  /** Reads that move the cursor from here past the boundary: a lag, if lapped, and one for
      every retained sequence. */
  function Remaining(published: nat, capacity: nat, cursor: nat): nat
    requires 0 < capacity && cursor <= published + 1
  {
    var oldest := Oldest(published, capacity);
    if cursor < oldest then 1 + (published + 1 - oldest) else published + 1 - cursor
  }

  /** Own steps of one turn of the loop: its condition, its read and its body. */
  function Turn(m: nat): nat {
    Q.READ_ATTEMPTS * (m + 4) + 6
  }

  /** Own steps a consumer may still take once the flag is raised. */
  function StepsLeft(remaining: nat, cursor: nat, published: nat, loop: Loop, pc: Q.ReaderPc, m: nat): int {
    match loop
    case TestDone => remaining * Turn(m) + 3
    case TestFirst => remaining * Turn(m) + 2
    case TestSecond(_, _) => remaining * Turn(m) + 1
    case Attempting =>
      if pc.Returned? then remaining * Turn(m) + 4
      else if published < cursor then Turn(m)
      else (remaining - 1) * Turn(m) + 4 + V.ReadMeasure(pc, m)
    case Exited => 0
  }

  function Left(s: State, r: nat): int
    requires r < |s.workers| == |s.q.readers|
    requires 0 < s.q.capacity && s.q.readers[r].cursor <= s.q.published + 1
  {
    var c := s.q.readers[r];
    StepsLeft(Remaining(s.q.published, s.q.capacity, c.cursor), c.cursor, s.q.published,
              s.workers[r].loop, c.pc, s.q.maxPayload)
  }

  predicate OwnStep(step: Step, r: nat) {
    match step
    case LoadDone(o) => o == r
    case LoadFirst(o, _) => o == r
    case LoadSecond(o) => o == r
    case ReadOn(st) => V.ByReader(st) && st.r == r
    case Check(o) => o == r
    case _ => false
  }

  /** The measure is defined for every worker of a reachable state. */
  lemma Measurable(s: State, r: nat)
    requires Inv(s) && r < |s.workers|
    ensures r < |s.workers| == |s.q.readers| && 0 < s.q.capacity
    ensures 1 <= s.q.readers[r].cursor <= s.q.published + 1 && s.q.published <= |s.q.offered|
    ensures var c := s.q.readers[r];
            !c.pc.Returned? && !c.pc.Idle? ==> c.cursor <= s.q.published && 1 <= V.ReadMeasure(c.pc, s.q.maxPayload)
  {
    var c := s.q.readers[r];
    assert I.ReaderOk(s.q, c);
    if c.pc.Versioning? || c.pc.Copying? {
      V.AttemptCost(c.pc.attempt, s.q.maxPayload);
    }
  }

  /** At most one lag and `capacity` sequences remain, so the loop has a bound. */
  lemma LeftBounded(s: State, r: nat)
    requires Inv(s) && r < |s.workers|
    ensures r < |s.workers| == |s.q.readers| && 0 < s.q.capacity && s.q.readers[r].cursor <= s.q.published + 1
    ensures 0 <= Left(s, r) <= (s.q.capacity + 1) * Turn(s.q.maxPayload) + 4
    ensures Left(s, r) == 0 <==> s.workers[r].loop == Exited
  {
    Measurable(s, r);
    var c, m := s.q.readers[r], s.q.maxPayload;
    var remaining := Remaining(s.q.published, s.q.capacity, c.cursor);
    TimesMonotone(0, remaining, Turn(m));
    TimesMonotone(remaining, s.q.capacity + 1, Turn(m));
    Times(remaining, Turn(m));
    assert WorkerOk(s, r);
    if s.workers[r].loop == Attempting && !c.pc.Returned? && c.cursor <= s.q.published {
      TimesMonotone(0, remaining - 1, Turn(m));
      MeasureBelowTurn(s, r);
    } else {
      TimesMonotone(1, s.q.capacity + 1, Turn(m));
    }
  }

  lemma MeasureBelowTurn(s: State, r: nat)
    requires Inv(s) && r < |s.workers| == |s.q.readers|
    ensures 0 <= V.ReadMeasure(s.q.readers[r].pc, s.q.maxPayload) <= Turn(s.q.maxPayload) - 4
  {
    var c, m := s.q.readers[r], s.q.maxPayload;
    assert I.ReaderOk(s.q, c);
    if c.pc.Versioning? || c.pc.Copying? {
      V.AttemptCost(c.pc.attempt, m);
      TimesMonotone(Q.READ_ATTEMPTS - c.pc.attempt, Q.READ_ATTEMPTS, m + 4);
    }
  }

  /** A read that returns after the last publication moves the cursor on, unless there was
      nothing left to read. */
  lemma ReturnAdvances(q: Q.State, q': Q.State, st: Q.Step, room: nat)
    requires I.Inv(q) && q.producer == Q.Resting && Q.Next(q, q', st) && V.ByReader(st) && !st.FinishRead?
    requires ReadOk(q, room, q.readers[st.r]) && (st.StartRead? ==> st.room == room)
    requires forall k :: 0 <= k < q.published ==> |q.offered[k]| <= room
    requires q'.readers[st.r].pc.Returned?
    ensures var c, c' := q.readers[st.r], q'.readers[st.r];
            && c.cursor <= q.published + 1 && c'.cursor <= q.published + 1
            && (c.cursor <= q.published ==>
                  Remaining(q.published, q.capacity, c'.cursor) < Remaining(q.published, q.capacity, c.cursor))
            && (q.published < c.cursor ==> c'.cursor == c.cursor)
  {
    var c := q.readers[st.r];
    assert I.ReaderOk(q, c);
    if st.StartRead? {
      V.OpenMeaning(q, c, room);
    } else if st.Recheck? {
      V.RecheckAnswer(q, c);
    } else if st.Resume? {
      V.ResumeMeaning(q, c);
    }
  }

  /** A reader's step after the last publication, seen from the loop. */
  lemma ReadProgress(q: Q.State, q': Q.State, st: Q.Step, room: nat)
    requires I.Inv(q) && q.producer == Q.Resting && Q.Next(q, q', st) && V.ByReader(st) && !st.FinishRead?
    requires ReadOk(q, room, q.readers[st.r]) && (st.StartRead? ==> st.room == room)
    requires forall k :: 0 <= k < q.published ==> |q.offered[k]| <= room
    ensures q' == Q.WithReader(q, st.r, q'.readers[st.r])
    ensures var c, c' := q.readers[st.r], q'.readers[st.r];
            && !c.pc.Returned? && c.cursor <= q.published + 1 && c'.cursor <= q.published + 1
            && 0 <= V.ReadMeasure(c'.pc, q.maxPayload) < V.ReadMeasure(c.pc, q.maxPayload)
            && (!c'.pc.Returned? ==> c'.cursor == c.cursor <= q.published)
            && (c'.pc.Returned? && c.cursor <= q.published ==>
                  Remaining(q.published, q.capacity, c'.cursor) < Remaining(q.published, q.capacity, c.cursor))
            && (q.published < c.cursor ==> c'.cursor == c.cursor)
  {
    var r := st.r;
    ReadEffect(q, q', st, room);
    V.ReadsAreBounded(q, q', st, r);
    assert I.ReaderOk(q, q.readers[r]);
    if q'.readers[r].pc.Returned? {
      ReturnAdvances(q, q', st, room);
    }
  }

  /** The arithmetic of one reader's step. */
  lemma ReadSpends(before: nat, after: nat, cursor: nat, cursor': nat, published: nat,
                   pc: Q.ReaderPc, pc': Q.ReaderPc, m: nat)
    requires !pc.Returned? && 0 <= V.ReadMeasure(pc', m) < V.ReadMeasure(pc, m)
    requires if pc'.Returned? then (if cursor <= published then after < before else after == 0)
             else cursor' == cursor <= published && after == before
    ensures StepsLeft(after, cursor', published, Attempting, pc', m)
            < StepsLeft(before, cursor, published, Attempting, pc, m)
  {
    if pc'.Returned? {
      if cursor <= published {
        TimesMonotone(after, before - 1, Turn(m));
      }
    }
  }

  lemma ReadLowers(s: State, s': State, step: Step)
    requires Inv(s) && s.done && Next(s, s', step) && step.ReadOn?
    ensures var r := step.step.r;
            && r < |s.workers| == |s.q.readers| && r < |s'.workers| == |s'.q.readers|
            && 0 < s.q.capacity == s'.q.capacity && s.q.readers[r].cursor <= s.q.published + 1
            && s'.q.readers[r].cursor <= s'.q.published + 1
            && Left(s', r) < Left(s, r)
  {
    var r := step.step.r;
    var c, c' := s.q.readers[r], s'.q.readers[r];
    assert WorkerOk(s, r);
    ReadProgress(s.q, s'.q, step.step, s.room);
    ReadSpends(Remaining(s.q.published, s.q.capacity, c.cursor), Remaining(s.q.published, s.q.capacity, c'.cursor),
               c.cursor, c'.cursor, s.q.published, c.pc, c'.pc, s.q.maxPayload);
  }

  lemma TestLowers(s: State, s': State, step: Step, r: nat)
    requires r < |s.workers| == |s.q.readers| && WorkerOk(s, r) && s.done
    requires 0 < s.q.capacity && s.q.readers[r].cursor <= s.q.published + 1
    requires Next(s, s', step) && OwnStep(step, r) && !step.ReadOn?
    ensures |s'.workers| == |s'.q.readers| == |s.workers|
    ensures s'.q.capacity == s.q.capacity && s'.q.readers[r].cursor <= s'.q.published + 1
    ensures Left(s', r) < Left(s, r)
  {
    var remaining := Remaining(s.q.published, s.q.capacity, s.q.readers[r].cursor);
    Times(remaining, Turn(s.q.maxPayload));
    TimesMonotone(0, remaining, Turn(s.q.maxPayload));
  }

  /** Nothing that matters to consumer `r` changes in the steps of others. */
  lemma OthersLeave(s: State, s': State, step: Step, r: nat)
    requires Inv(s) && s.done && Next(s, s', step) && r < |s.workers| && !OwnStep(step, r)
    ensures r < |s'.workers| && r < |s'.q.readers|
    ensures s'.workers[r] == s.workers[r] && s'.q.readers[r] == s.q.readers[r]
    ensures s'.q.published == s.q.published && s'.q.capacity == s.q.capacity && s'.q.maxPayload == s.q.maxPayload
  {
    assert s.q.producer == Q.Resting;
  }

  /** Once the flag is raised, each own step of a consumer lowers its measure, and no other
      step changes it. */
  lemma LoopStep(s: State, s': State, step: Step, r: nat)
    requires Inv(s) && s.done && Next(s, s', step) && r < |s.workers|
    ensures Inv(s') && s'.done && r < |s'.workers|
    ensures r < |s.q.readers| == |s.workers| && 0 < s.q.capacity && s.q.readers[r].cursor <= s.q.published + 1
    ensures r < |s'.q.readers| == |s'.workers| && 0 < s'.q.capacity && s'.q.readers[r].cursor <= s'.q.published + 1
    ensures if OwnStep(step, r) then Left(s', r) < Left(s, r) else Left(s', r) == Left(s, r)
  {
    NextKeepsInv(s, s', step);
    Measurable(s, r);
    Measurable(s', r);
    if !OwnStep(step, r) {
      OthersLeave(s, s', step, r);
    } else if step.ReadOn? {
      ReadLowers(s, s', step);
    } else {
      assert WorkerOk(s, r);
      TestLowers(s, s', step, r);
    }
  }

  /** Own steps of consumer `r` among steps `i` to `j`. */
  function OwnSteps(steps: seq<Step>, i: nat, j: nat, r: nat): nat
    requires i <= j <= |steps|
    decreases j
  {
    if i == j then 0 else OwnSteps(steps, i, j - 1, r) + if OwnStep(steps[j - 1], r) then 1 else 0
  }

  lemma {:induction false} OwnStepsSpend(states: seq<State>, steps: seq<Step>, i: nat, j: nat, r: nat)
    requires Run(states, steps) && i <= j < |states| && states[i].done && r < |states[i].workers|
    ensures Inv(states[i]) && Inv(states[j]) && states[j].done && r < |states[j].workers|
    ensures r < |states[i].q.readers| == |states[i].workers| && 0 < states[i].q.capacity
    ensures states[i].q.readers[r].cursor <= states[i].q.published + 1
    ensures r < |states[j].q.readers| == |states[j].workers| && 0 < states[j].q.capacity
    ensures states[j].q.readers[r].cursor <= states[j].q.published + 1
    ensures OwnSteps(steps, i, j, r) + Left(states[j], r) <= Left(states[i], r)
    decreases j
  {
    if i == j {
      RunInv(states, steps, i);
      Measurable(states[i], r);
    } else {
      OwnStepsSpend(states, steps, i, j - 1, r);
      assert Moves(states, steps, j - 1);
      LoopStep(states[j - 1], states[j], steps[j - 1], r);
    }
  }

  /** The consumer loop terminates: after the flag is raised a consumer takes at most
      `(capacity + 1) * Turn + 4` more steps of its own, whatever the others do, and when
      they are used up it has left its loop. */
  lemma LoopTerminates(states: seq<State>, steps: seq<Step>, i: nat, j: nat, r: nat)
    requires Run(states, steps) && i <= j < |states| && states[i].done && r < |states[i].workers|
    ensures OwnSteps(steps, i, j, r) <= (states[i].q.capacity + 1) * Turn(states[i].q.maxPayload) + 4
    ensures r < |states[j].workers|
    ensures OwnSteps(steps, i, j, r) == (states[i].q.capacity + 1) * Turn(states[i].q.maxPayload) + 4 ==>
              states[j].workers[r].loop == Exited
  {
    OwnStepsSpend(states, steps, i, j, r);
    LeftBounded(states[i], r);
    LeftBounded(states[j], r);
  }

  /** And until it has left, it can always take a step of its own. */
  lemma LoopNeverStuck(s: State, r: nat) returns (step: Step, s': State)
    requires Inv(s) && r < |s.workers| && s.workers[r].loop != Exited
    ensures Next(s, s', step) && OwnStep(step, r)
  {
    var w, c := s.workers[r], s.q.readers[r];
    match w.loop
    case TestDone =>
      step, s' := LoadDone(r), WithLoop(s, r, if s.done then TestFirst else Attempting);
    case TestFirst =>
      step, s' := LoadFirst(r, true), WithLoop(s, r, TestSecond(true, c.cursor));
    case TestSecond(nextFirst, value) =>
      var next := if nextFirst then value else c.cursor;
      var published := if nextFirst then s.q.published else value;
      step, s' := LoadSecond(r), WithLoop(s, r, if next <= published then Attempting else Exited);
    case Attempting =>
      if c.pc.Returned? {
        var (m, bad) := Judge(w.metrics, c.pc.answer, s.script, s.room);
        step := Check(r);
        s' := s.(q := Q.WithReader(s.q, r, c.(pc := Q.Idle)),
                 workers := s.workers[r := Worker(TestDone, m)], failed := s.failed || bad);
      } else if c.pc.Idle? {
        step := ReadOn(Q.StartRead(r, s.room));
        s' := s.(q := Q.WithReader(s.q, r, Q.Open(c, s.room, s.q.published, s.q.capacity)));
      } else {
        var st, q := V.ReaderNeverStuck(s.q, r);
        step, s' := ReadOn(st), s.(q := q);
      }
  }
}
