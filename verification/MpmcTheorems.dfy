/** What the MPMC invariant gives over whole runs: linearizability of the successful
    operations to a bounded FIFO, payload exclusion, the exact meaning of refusals, the
    retry bound, and why a capacity of one is refused. */
module MpmcTheorems {
  import opened Results
  import opened FixedMessage
  import opened Fifo
  import opened Ring
  import opened MpmcMachine
  import opened MpmcInvariant

  // --- Refinement of the bounded FIFO ----------------------------------------------------

  /** Only a successful CAS changes the abstract queue, and it changes it as the sequential
      specification allows for exactly one event of the stepping thread. */
  lemma StepRefinesFifo(s: State, s': State, step: Step)
    requires Inv(s) && Next(s, s', step)
    ensures Inv(s') && s'.capacity == s.capacity
    ensures s'.log == s.log ==>
              Held(s') == Held(s) && s'.enqueuePos == s.enqueuePos && s'.dequeuePos == s.dequeuePos
    ensures s'.log != s.log ==>
              && |s'.log| == |s.log| + 1 && s.log < s'.log
              && var e := s'.log[|s.log|];
                 && step == Cas(e.thread, false)
                 && Apply(Queue(Held(s), s.enqueuePos), e, s.capacity)
                    == Some(Queue(Held(s'), s'.enqueuePos))
  {
    NextKeepsInv(s, s', step);
    if s'.log != s.log {
      ReplayAppend(s.log, s'.log[|s.log|], s.capacity);
    }
  }

  /** In every state of every run the linearization log is a legal history of the bounded
      FIFO: pops so far are a prefix of pushes so far, numbered 1, 2, 3, ... */
  lemma RunRefinesFifo(states: seq<State>, steps: seq<Step>, i: nat)
    requires Run(states, steps) && i < |states|
    ensures var s := states[i];
            && Inv(s)
            && s.dequeuePos <= s.enqueuePos <= s.dequeuePos + s.capacity
            && Replay(s.log, s.capacity) == Some(Queue(Held(s), s.enqueuePos))
            && Enqueued(s.log) == Dequeued(s.log) + Held(s)
            && |Enqueued(s.log)| == s.enqueuePos
            && |Dequeued(s.log)| == s.dequeuePos
            && Numbered(Enqueued(s.log))
  {
    RunInv(states, steps, i);
    LegalLog(states[i].log, states[i].capacity);
  }

  // --- Calls and their linearization points ----------------------------------------------

  datatype Argument = PushOf(payload: Payload) | PopOf(room: nat) | EmptyOf

  function ArgumentOf(pc: Pc): Argument
    requires pc != Idle
  {
    if pc.PushProbe? || pc.PushReload? || pc.PushCas? || pc.PushStore? then PushOf(pc.payload)
    else if pc.EmptyProbe? then EmptyOf
    else if pc.Returned? then
      match pc.answer
      case PushAnswer(payload, _) => PushOf(payload)
      case PopAnswer(room, _, _) => PopOf(room)
      case EmptyAnswer(_) => EmptyOf
    else PopOf(pc.room)
  }

  /** `step`, taken in `s`, starts a call of `t` with this argument and bookkeeping. */
  ghost predicate Starts(s: State, step: Step, t: nat, call: Call, arg: Argument) {
    && call.begin == |s.log|
    && match step
       case StartPush(u, payload) => u == t && arg == PushOf(payload) && call.start == s.enqueuePos
       case StartPop(u, room) => u == t && arg == PopOf(room) && call.start == s.dequeuePos
       case StartEmpty(u) => u == t && arg == EmptyOf && call.start == s.dequeuePos
       case _ => false
  }

  lemma PcStep(s: State, s': State, step: Step, t: nat)
    requires Next(s, s', step) && t < |s'.threads|
    ensures t < |s.threads| && step.t < |s.threads|
    ensures step.t != t ==> s'.threads[t] == s.threads[t]
  {
  }

  lemma OwnStep(s: State, s': State, step: Step)
    requires Next(s, s', step) && step.t < |s'.threads| && s'.threads[step.t] != Idle
    ensures step.t < |s.threads|
    ensures var pc, pc' := s.threads[step.t], s'.threads[step.t];
            if pc == Idle then Starts(s, step, step.t, pc'.call, ArgumentOf(pc'))
            else && pc'.call.begin == pc.call.begin && pc'.call.start == pc.call.start
                 && ArgumentOf(pc') == ArgumentOf(pc)
  {
  }

  /** A thread that is inside a call entered it at an earlier step of the run. */
  lemma {:induction false} CallStart(states: seq<State>, steps: seq<Step>, t: nat, j: nat) returns (i: nat)
    requires Run(states, steps) && j < |states|
    requires t < |states[j].threads| && states[j].threads[t] != Idle
    ensures i < j
    ensures Starts(states[i], steps[i], t, states[j].threads[t].call, ArgumentOf(states[j].threads[t]))
    ensures forall k :: i < k <= j ==> t < |states[k].threads| && states[k].threads[t] != Idle
    decreases j
  {
    var k := j - 1;
    assert Moves(states, steps, k);
    PcStep(states[k], states[k + 1], steps[k], t);
    if steps[k].t == t {
      OwnStep(states[k], states[k + 1], steps[k]);
    }
    if states[k].threads[t] == Idle {
      i := k;
    } else {
      i := CallStart(states, steps, t, k);
    }
  }

  lemma LogStep(states: seq<State>, steps: seq<Step>, k: nat)
    requires Run(states, steps) && k < |steps|
    ensures var log, log' := states[k].log, states[k + 1].log;
            || log' == log
            || (|log'| == |log| + 1 && log < log' && steps[k] == Cas(log'[|log|].thread, false))
  {
    assert Moves(states, steps, k);
  }

  /** The step at which entry `lin` joined the log. */
  lemma {:induction false} EventStep(states: seq<State>, steps: seq<Step>, i: nat, j: nat, lin: nat) returns (k: nat)
    requires Run(states, steps) && i <= j < |states|
    requires |states[i].log| <= lin < |states[j].log|
    ensures i <= k < j
    ensures |states[k].log| == lin && |states[k + 1].log| == lin + 1
    ensures steps[k] == Cas(states[j].log[lin].thread, false)
    ensures states[k + 1].log[lin] == states[j].log[lin]
    decreases j
  {
    var m := j - 1;
    LogStep(states, steps, m);
    if |states[m].log| <= lin {
      k := m;
    } else {
      k := EventStep(states, steps, i, m, lin);
    }
  }

  ghost predicate Claimed(answer: Answer) {
    match answer
    case PushAnswer(_, w) => w.status == Success
    case PopAnswer(_, r, _) => r.status != Empty
    case EmptyAnswer(_) => false
  }

  /** The sequential event that justifies an answer: a push is the enqueue of its own
      argument, a pop delivers the dequeued item (or refuses the short destination). */
  ghost predicate Explains(t: nat, e: Event, answer: Answer) {
    match answer
    case PushAnswer(payload, w) => w.status == Success && e == Enqueue(t, Item(payload, w.sequence))
    case PopAnswer(room, r, data) =>
      && e == Dequeue(t, e.item)
      && (if |e.item.payload| <= room
          then r == ReadResult(Success, |e.item.payload|, e.item.sequence) && data == e.item.payload
          else r == ReadResult(MessageTooLarge, 0, e.item.sequence) && data == [])
    case EmptyAnswer(_) => false
  }

  /** Linearizability of the successful operations. Every such answer, in every run, comes
      from a call that began at some step `i` and took effect at its own successful CAS,
      step `k`, between `i` and the return; the event logged there explains the answer.
      With `RunRefinesFifo` the logged events form a legal bounded-FIFO history. */
  lemma AnswersAreLinearizable(states: seq<State>, steps: seq<Step>, t: nat, j: nat)
    returns (i: nat, k: nat)
    requires Run(states, steps) && j < |states| && t < |states[j].threads|
    requires states[j].threads[t].Returned? && Claimed(states[j].threads[t].answer)
    ensures i <= k < j
    ensures Starts(states[i], steps[i], t, states[j].threads[t].call, ArgumentOf(states[j].threads[t]))
    ensures forall m :: i < m <= j ==> t < |states[m].threads| && states[m].threads[t] != Idle
    ensures steps[k] == Cas(t, false)
    ensures |states[k + 1].log| == |states[k].log| + 1
    ensures Explains(t, states[k + 1].log[|states[k].log|], states[j].threads[t].answer)
  {
    RunInv(states, steps, j);
    var pc := states[j].threads[t];
    assert ThreadOk(states[j], t, pc);
    i := CallStart(states, steps, t, j);
    k := EventStep(states, steps, i, j, pc.lin);
  }

  lemma {:induction false} CountersGrow(states: seq<State>, steps: seq<Step>, i: nat, j: nat)
    requires Run(states, steps) && i <= j < |states|
    ensures states[i].enqueuePos <= states[j].enqueuePos && states[i].dequeuePos <= states[j].dequeuePos
    decreases j
  {
    if i < j {
      var k := j - 1;
      CountersGrow(states, steps, i, k);
      RunInv(states, steps, k);
      assert Moves(states, steps, k);
      StepRefinesFifo(states[k], states[k + 1], steps[k]);
    }
  }

  /** The step of a claim moves its own counter past the claimed sequence. */
  lemma ClaimSequence(states: seq<State>, steps: seq<Step>, k: nat)
    requires Run(states, steps) && k < |steps| && |states[k + 1].log| == |states[k].log| + 1
    ensures var e := states[k + 1].log[|states[k].log|];
            match e
            case Enqueue(_, item) =>
              item.sequence == states[k].enqueuePos + 1 == states[k + 1].enqueuePos
            case Dequeue(_, item) =>
              item.sequence == states[k].dequeuePos + 1 == states[k + 1].dequeuePos
  {
    RunInv(states, steps, k);
    assert Moves(states, steps, k);
    StepRefinesFifo(states[k], states[k + 1], steps[k]);
  }

  function SequenceOf(answer: Answer): nat
    requires !answer.EmptyAnswer?
  {
    if answer.PushAnswer? then answer.write.sequence else answer.read.sequence
  }

  /** Real-time order: if one call had returned when another began, and both pushed or both
      popped, the later one got the larger sequence. In particular the messages of one
      producer keep their order and one consumer sees increasing sequences. */
  lemma RealTimeOrder(states: seq<State>, steps: seq<Step>, t: nat, j: nat, u: nat, i: nat, n: nat)
    requires Run(states, steps) && j <= i < n < |states|
    requires t < |states[j].threads| && states[j].threads[t].Returned? && Claimed(states[j].threads[t].answer)
    requires u < |states[n].threads| && states[n].threads[u].Returned? && Claimed(states[n].threads[u].answer)
    requires u < |states[i].threads| && states[i].threads[u] == Idle
    requires states[j].threads[t].answer.PushAnswer? <==> states[n].threads[u].answer.PushAnswer?
    ensures SequenceOf(states[j].threads[t].answer) < SequenceOf(states[n].threads[u].answer)
  {
    var _, k := AnswersAreLinearizable(states, steps, t, j);
    var start, m := AnswersAreLinearizable(states, steps, u, n);
    assert i <= start;
    ClaimSequence(states, steps, k);
    ClaimSequence(states, steps, m);
    CountersGrow(states, steps, k + 1, m);
  }

  // --- Payload exclusion -----------------------------------------------------------------

  /** Between claim and publish, or between claim and release. */
  ghost predicate Claiming(pc: Pc) {
    pc.PushStore? || pc.PopOpen? || pc.PopCopy? || pc.PopRelease?
  }

  /** The plain reads and writes of `assign` and `copy_to` never meet on a cell. */
  lemma PayloadExclusion(states: seq<State>, steps: seq<Step>, i: nat, t: nat, u: nat)
    requires Run(states, steps) && i < |states|
    requires t < |states[i].threads| && u < |states[i].threads| && t != u
    requires Claiming(states[i].threads[t]) && Claiming(states[i].threads[u])
    ensures && 0 < states[i].capacity
            && Index(states[i].threads[t].position, states[i].capacity)
               != Index(states[i].threads[u].position, states[i].capacity)
  {
    var s := states[i];
    RunInv(states, steps, i);
    assert ThreadOk(s, t, s.threads[t]) && ThreadOk(s, u, s.threads[u]);
    UnreleasedWindow(s, s.threads[t].position, s.threads[u].position);
  }

  // --- Refusals --------------------------------------------------------------------------

  ghost predicate PopInFlight(s: State) {
    exists t :: 0 <= t < |s.threads| && (s.threads[t].PopOpen? || s.threads[t].PopCopy? || s.threads[t].PopRelease?)
  }

  ghost predicate PushInFlight(s: State) {
    exists t :: 0 <= t < |s.threads| && s.threads[t].PushStore?
  }

  /** `full` is answered exactly when the probed position is still the enqueue position and
      the position one lap before has not been released; without a pop in flight that is
      exactly a queue holding `capacity` messages. */
  lemma FullMeans(s: State, s': State, t: nat)
    requires Inv(s) && DoProbe(s, s', t) && s.threads[t].PushProbe?
    ensures var p := s.threads[t].position;
            && (s'.threads[t].Returned? <==>
                  && p == s.enqueuePos && s.capacity <= p
                  && !s.stage[p - s.capacity].Released?)
            && (s'.threads[t].Returned? ==>
                  s'.threads[t].answer == PushAnswer(s.threads[t].payload, WriteResult(Full, 0)))
            && (!PopInFlight(s) && p == s.enqueuePos ==>
                  (s'.threads[t].Returned? <==> |Held(s)| == s.capacity))
  {
    var p := s.threads[t].position;
    assert ThreadOk(s, t, s.threads[t]);
    PushProbeMeaning(s, p);
    if s.capacity <= p == s.enqueuePos {
      var g := s.stage[p - s.capacity];
      assert g.Reading? ==> PopOwner(s.threads[g.owner], p - s.capacity);
    }
  }

  /** `empty` from a pop, and `true` from `empty()`, are answered exactly when the probed
      position is still the dequeue position and is unclaimed or unpublished; without a push
      in flight that is exactly an empty queue. */
  lemma EmptyMeans(s: State, s': State, t: nat)
    requires Inv(s) && DoProbe(s, s', t) && (s.threads[t].PopProbe? || s.threads[t].EmptyProbe?)
    ensures var p := s.threads[t].position;
            var unpublished := p == s.dequeuePos && (p == s.enqueuePos || s.stage[p].Writing?);
            && (s.threads[t].PopProbe? ==>
                  && (s'.threads[t].Returned? <==> unpublished)
                  && (unpublished ==>
                        s'.threads[t].answer == PopAnswer(s.threads[t].room, ReadResult(Empty, 0, 0), [])))
            && (s.threads[t].EmptyProbe? ==>
                  s'.threads[t].Returned? && s'.threads[t].answer == EmptyAnswer(unpublished))
            && (!PushInFlight(s) && p == s.dequeuePos ==> (unpublished <==> Held(s) == []))
  {
    var p := s.threads[t].position;
    assert ThreadOk(s, t, s.threads[t]);
    PopProbeMeaning(s, p);
    if p == s.dequeuePos < s.enqueuePos {
      var g := s.stage[p];
      assert g.Writing? ==> PushOwner(s.threads[g.owner], p);
    }
  }

  // --- Retries ---------------------------------------------------------------------------

  ghost predicate Pushing(pc: Pc) {
    pc.PushProbe? || pc.PushReload? || pc.PushCas?
  }

  ghost predicate Popping(pc: Pc) {
    pc.PopProbe? || pc.PopReload? || pc.PopCas?
  }

  /** A retry that is not a spurious CAS failure restarts at a strictly larger position. */
  lemma RetryAdvances(s: State, s': State, step: Step)
    requires Inv(s) && Next(s, s', step) && (step.Reload? || step.Cas?)
    requires s'.threads[step.t].PushProbe? || s'.threads[step.t].PopProbe?
    ensures var pc, pc' := s.threads[step.t], s'.threads[step.t];
            && pc'.call.retries == pc.call.retries + 1
            && (if step.Cas? && step.spurious
                then pc'.position == pc.position && pc'.call.spurious == pc.call.spurious + 1
                else pc.position < pc'.position && pc'.call.spurious == pc.call.spurious)
  {
    assert ThreadOk(s, step.t, s.threads[step.t]);
  }

  /** Successful claims by threads other than `t` on the enqueue counter (or the dequeue
      counter) during steps `i..j`. */
  ghost function ClaimsByOthers(states: seq<State>, steps: seq<Step>, t: nat, i: nat, j: nat, push: bool): nat
    requires |states| == |steps| + 1 && i <= j < |states|
    decreases j
  {
    if i == j then 0
    else
      var grew := if push then states[j - 1].enqueuePos < states[j].enqueuePos
                  else states[j - 1].dequeuePos < states[j].dequeuePos;
      ClaimsByOthers(states, steps, t, i, j - 1, push) + if grew && steps[j - 1].t != t then 1 else 0
  }

  lemma PushCounterStep(states: seq<State>, steps: seq<Step>, t: nat, k: nat)
    requires Run(states, steps) && k < |steps| && t < |states[k + 1].threads|
    ensures var s, s', step := states[k], states[k + 1], steps[k];
            && t < |s.threads| && (step.t != t ==> s'.threads[t] == s.threads[t])
            && s.enqueuePos <= s'.enqueuePos <= s.enqueuePos + 1
            && (step.t == t && Pushing(s'.threads[t]) ==>
                  s'.enqueuePos == s.enqueuePos && (s.threads[t] == Idle || Pushing(s.threads[t])))
  {
    assert Moves(states, steps, k);
  }

  lemma PopCounterStep(states: seq<State>, steps: seq<Step>, t: nat, k: nat)
    requires Run(states, steps) && k < |steps| && t < |states[k + 1].threads|
    ensures var s, s', step := states[k], states[k + 1], steps[k];
            && t < |s.threads| && (step.t != t ==> s'.threads[t] == s.threads[t])
            && s.dequeuePos <= s'.dequeuePos <= s.dequeuePos + 1
            && (step.t == t && Popping(s'.threads[t]) ==>
                  s'.dequeuePos == s.dequeuePos && (s.threads[t] == Idle || Popping(s.threads[t])))
  {
    assert Moves(states, steps, k);
  }

  lemma {:induction false} PushCounterGrowth(states: seq<State>, steps: seq<Step>, t: nat, i: nat, j: nat)
    requires Run(states, steps) && i < j < |states| && steps[i].t == t
    requires forall k :: i < k <= j ==> t < |states[k].threads| && states[k].threads[t] != Idle
    requires Pushing(states[j].threads[t])
    ensures states[j].enqueuePos == states[i].enqueuePos + ClaimsByOthers(states, steps, t, i, j, true)
    decreases j
  {
    var k := j - 1;
    PushCounterStep(states, steps, t, k);
    if i < k {
      PushCounterGrowth(states, steps, t, i, k);
    }
  }

  lemma {:induction false} PopCounterGrowth(states: seq<State>, steps: seq<Step>, t: nat, i: nat, j: nat)
    requires Run(states, steps) && i < j < |states| && steps[i].t == t
    requires forall k :: i < k <= j ==> t < |states[k].threads| && states[k].threads[t] != Idle
    requires Popping(states[j].threads[t])
    ensures states[j].dequeuePos == states[i].dequeuePos + ClaimsByOthers(states, steps, t, i, j, false)
    decreases j
  {
    var k := j - 1;
    PopCounterStep(states, steps, t, k);
    if i < k {
      PopCounterGrowth(states, steps, t, i, k);
    }
  }

  /** At every moment of every call, the retries so far are at most the claims other threads
      made on the same counter since the call began, plus the spurious failures. */
  lemma RetriesBounded(states: seq<State>, steps: seq<Step>, t: nat, j: nat) returns (i: nat)
    requires Run(states, steps) && j < |states| && t < |states[j].threads|
    requires Pushing(states[j].threads[t]) || Popping(states[j].threads[t])
    ensures i < j
    ensures Starts(states[i], steps[i], t, states[j].threads[t].call, ArgumentOf(states[j].threads[t]))
    ensures var call := states[j].threads[t].call;
            call.retries <= ClaimsByOthers(states, steps, t, i, j, Pushing(states[j].threads[t])) + call.spurious
  {
    RunInv(states, steps, j);
    assert ThreadOk(states[j], t, states[j].threads[t]);
    i := CallStart(states, steps, t, j);
    if Pushing(states[j].threads[t]) {
      PushCounterGrowth(states, steps, t, i, j);
    } else {
      PopCounterGrowth(states, steps, t, i, j);
    }
  }

  /** No step waits: a thread inside a call can always take its next step, whatever the
      others do (so the guards of the machine exclude nothing a reachable thread does). */
  lemma NeverStuck(s: State, t: nat) returns (step: Step, s': State)
    requires Inv(s) && t < |s.threads| && s.threads[t] != Idle
    ensures step.t == t && Next(s, s', step)
  {
    var pc := s.threads[t];
    if pc.PushReload? || pc.PushCas? || pc.PushStore? {
      step, s' := PushNeverStuck(s, t);
    } else if pc.PopReload? || pc.PopCas? || pc.PopOpen? || pc.PopCopy? || pc.PopRelease? {
      step, s' := PopNeverStuck(s, t);
    } else if pc.Returned? {
      step, s' := Finish(t), At(s, t, Idle);
    } else {
      step, s' := Probe(t), At(s, t, AfterProbe(pc, CellAt(s, pc.position).sequence));
    }
  }

  /** A weak compare-and-exchange may always fail for no reason; the call then retries at the
      position it has. */
  lemma CasMayFail(s: State, t: nat) returns (s': State)
    requires t < |s.threads|
    requires (s.threads[t].PushCas? && s.threads[t].position == s.enqueuePos)
             || (s.threads[t].PopCas? && s.threads[t].position == s.dequeuePos)
    ensures Next(s, s', Cas(t, true)) && s'.log == s.log
    ensures t < |s'.threads| && (s'.threads[t].PushProbe? || s'.threads[t].PopProbe?)
    ensures s'.threads[t].position == s.threads[t].position && ArgumentOf(s'.threads[t]) == ArgumentOf(s.threads[t])
  {
    var pc := s.threads[t];
    s' := At(s, t, if pc.PushCas? then PushProbe(pc.payload, pc.position, Retry(pc.call, true))
                   else PopProbe(pc.room, pc.position, Retry(pc.call, true)));
  }

  lemma PushNeverStuck(s: State, t: nat) returns (step: Step, s': State)
    requires Inv(s) && t < |s.threads|
    requires s.threads[t].PushReload? || s.threads[t].PushCas? || s.threads[t].PushStore?
    ensures step.t == t && Next(s, s', step)
  {
    var pc := s.threads[t];
    if pc.PushReload? {
      step, s' := Reload(t), At(s, t, PushProbe(pc.payload, s.enqueuePos, Retry(pc.call, false)));
    } else if pc.PushCas? {
      step := Cas(t, false);
      s' := if s.enqueuePos == pc.position then ClaimPush(s, t)
            else At(s, t, PushProbe(pc.payload, s.enqueuePos, Retry(pc.call, false)));
    } else {
      step, s' := StoreOrPublish(s, t);
    }
  }

  lemma PopNeverStuck(s: State, t: nat) returns (step: Step, s': State)
    requires Inv(s) && t < |s.threads|
    requires s.threads[t].PopReload? || s.threads[t].PopCas? || s.threads[t].PopOpen?
             || s.threads[t].PopCopy? || s.threads[t].PopRelease?
    ensures step.t == t && Next(s, s', step)
  {
    var pc := s.threads[t];
    assert ThreadOk(s, t, pc);
    if pc.PopReload? {
      step, s' := Reload(t), At(s, t, PopProbe(pc.room, s.dequeuePos, Retry(pc.call, false)));
    } else if pc.PopCas? {
      step := Cas(t, false);
      s' := if s.dequeuePos == pc.position then ClaimPop(s, t)
            else At(s, t, PopProbe(pc.room, s.dequeuePos, Retry(pc.call, false)));
    } else if pc.PopRelease? {
      step := Release(t);
      s' := At(WithCell(s, pc.position, CellAt(s, pc.position).(sequence := pc.position + s.capacity)),
               t, Returned(PopAnswer(pc.room, pc.read, pc.data), pc.call, pc.lin))
            .(stage := s.stage[pc.position := Released]);
    } else {
      step, s' := NextLoad(s, t);
    }
  }

  lemma StoreOrPublish(s: State, t: nat) returns (step: Step, s': State)
    requires Inv(s) && t < |s.threads| && s.threads[t].PushStore?
    ensures step.t == t && Next(s, s', step)
  {
    var pc := s.threads[t];
    assert ThreadOk(s, t, pc);
    var c := CellAt(s, pc.position);
    if pc.k < |pc.payload| + 2 {
      step := Store(t);
      s' := At(WithCell(s, pc.position,
                        c.(message := NextStore(c.message, pc.payload, pc.position + 1, pc.k))),
               t, pc.(k := pc.k + 1));
    } else {
      step := Publish(t);
      s' := At(WithCell(s, pc.position, c.(sequence := pc.position + 1)), t,
               Returned(PushAnswer(pc.payload, WriteResult(Success, pc.position + 1)), pc.call, pc.lin))
            .(stage := s.stage[pc.position := Published]);
    }
  }

  lemma NextLoad(s: State, t: nat) returns (step: Step, s': State)
    requires Inv(s) && t < |s.threads| && (s.threads[t].PopOpen? || s.threads[t].PopCopy?)
    ensures step.t == t && Next(s, s', step)
  {
    var pc := s.threads[t];
    assert ThreadOk(s, t, pc);
    assert Holds(CellAt(s, pc.position).message, s.history[pc.position], pc.position + 1);
    var m := CellAt(s, pc.position).message;
    step := Load(t);
    if pc.PopOpen? {
      s' := At(s, t, if pc.room < m.size
                     then PopRelease(pc.room, pc.position, pc.call, pc.lin,
                                     ReadResult(MessageTooLarge, 0, m.sequence), [])
                     else PopCopy(pc.room, pc.position, pc.call, pc.lin, m.size, []));
    } else {
      s' := At(s, t, if |pc.copied| < pc.size
                     then pc.(copied := pc.copied + [m.storage[|pc.copied|]])
                     else PopRelease(pc.room, pc.position, pc.call, pc.lin,
                                     ReadResult(Success, pc.size, m.sequence), pc.copied));
    }
  }
}
