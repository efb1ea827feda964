/** The whole account of MPMC calls over runs: a call that took effect answers for exactly
    its one event, and a call that refuses took no effect and had a reason to refuse. */
module MpmcAnswers {
  import opened Results
  import opened Fifo
  import opened MpmcMachine
  import opened MpmcInvariant
  import opened MpmcTheorems

  // --- One event per call ----------------------------------------------------------------

  /** The thread has made its claim, or answers for one. */
  ghost predicate HasClaim(pc: Pc) {
    Claiming(pc) || (pc.Returned? && Claimed(pc.answer))
  }

  /** Since its call began, thread `t` logged nothing but the event it answers for. */
  ghost predicate OwnEvents(s: State, t: nat, pc: Pc) {
    pc != Idle ==>
      && pc.call.begin <= |s.log|
      && forall m :: pc.call.begin <= m < |s.log| && s.log[m].thread == t ==> HasClaim(pc) && m == pc.lin
  }

  ghost predicate AllOwnEvents(s: State) {
    forall t :: 0 <= t < |s.threads| ==> OwnEvents(s, t, s.threads[t])
  }

  lemma OthersKeepEvents(s: State, s': State, step: Step, t: nat)
    requires Next(s, s', step) && t < |s.threads| && step.t != t && OwnEvents(s, t, s.threads[t])
    ensures t < |s'.threads| && OwnEvents(s', t, s'.threads[t])
  {
  }

  /** A release answers for its claim. */
  lemma ReleaseAnswers(s: State, s': State, t: nat)
    requires Shape(s) && t < |s.threads| && ThreadOk(s, t, s.threads[t]) && DoRelease(s, s', t)
    ensures t < |s'.threads| && s'.log == s.log && HasClaim(s'.threads[t])
    ensures s'.threads[t].call == s.threads[t].call && s'.threads[t].lin == s.threads[t].lin
  {
  }

  lemma OwnKeepsEvents(s: State, s': State, step: Step)
    requires Shape(s) && step.t < |s.threads| && ThreadOk(s, step.t, s.threads[step.t])
    requires Next(s, s', step) && OwnEvents(s, step.t, s.threads[step.t])
    ensures step.t < |s'.threads| && OwnEvents(s', step.t, s'.threads[step.t])
  {
    if step.Release? {
      ReleaseAnswers(s, s', step.t);
    }
  }

  lemma NextKeepsEvents(s: State, s': State, step: Step)
    requires Inv(s) && Next(s, s', step) && AllOwnEvents(s)
    ensures AllOwnEvents(s')
  {
    forall t | 0 <= t < |s'.threads|
      ensures OwnEvents(s', t, s'.threads[t])
    {
      PcStep(s, s', step, t);
      assert OwnEvents(s, t, s.threads[t]);
      if step.t == t {
        assert ThreadOk(s, t, s.threads[t]);
        OwnKeepsEvents(s, s', step);
      } else {
        OthersKeepEvents(s, s', step, t);
      }
    }
  }

  lemma {:induction false} RunEvents(states: seq<State>, steps: seq<Step>, i: nat)
    requires Run(states, steps) && i < |states|
    ensures AllOwnEvents(states[i])
  {
    if i > 0 {
      RunEvents(states, steps, i - 1);
      RunInv(states, steps, i - 1);
      assert Moves(states, steps, i - 1);
      NextKeepsEvents(states[i - 1], states[i], steps[i - 1]);
    }
  }

  /** A call has at most one effect, and its answer tells: if thread `t` logged an event
      since its call began, then that event is the only one and explains the answer; in
      particular a call that refuses logged nothing. */
  lemma EffectsAreAnswered(states: seq<State>, steps: seq<Step>, t: nat, j: nat, m: nat)
    requires Run(states, steps) && j < |states| && t < |states[j].threads| && states[j].threads[t].Returned?
    requires states[j].threads[t].call.begin <= m < |states[j].log| && states[j].log[m].thread == t
    ensures Explains(t, states[j].log[m], states[j].threads[t].answer)
    ensures forall n :: states[j].threads[t].call.begin <= n < |states[j].log| && states[j].log[n].thread == t ==> n == m
  {
    RunInv(states, steps, j);
    RunEvents(states, steps, j);
    var s := states[j];
    assert OwnEvents(s, t, s.threads[t]);
    assert ThreadOk(s, t, s.threads[t]);
  }

  // --- Refusals --------------------------------------------------------------------------

  /** The step at which thread `t` got the answer it holds. */
  lemma {:induction false} AnswerStep(states: seq<State>, steps: seq<Step>, t: nat, j: nat) returns (k: nat)
    requires Run(states, steps) && j < |states| && t < |states[j].threads| && states[j].threads[t].Returned?
    ensures k < j && steps[k].t == t
    ensures t < |states[k].threads| && !states[k].threads[t].Returned?
    ensures forall m :: k < m <= j ==> t < |states[m].threads| && states[m].threads[t] == states[j].threads[t]
    decreases j
  {
    k := j - 1;
    assert Moves(states, steps, k);
    PcStep(states[k], states[j], steps[k], t);
    if states[k].threads[t].Returned? {
      k := AnswerStep(states, steps, t, k);
    }
  }

  /** No message is published at the position `t` probes, which is the next to dequeue. */
  ghost predicate NothingAt(s: State, t: nat)
    requires t < |s.threads| && (s.threads[t].PopProbe? || s.threads[t].EmptyProbe?)
  {
    var p := s.threads[t].position;
    p == s.dequeuePos && (p >= |s.stage| || s.stage[p].Writing?)
  }

  /** No room at the position `t` probes, which is the next to enqueue. */
  ghost predicate NoRoomAt(s: State, t: nat)
    requires t < |s.threads| && s.threads[t].PushProbe?
  {
    var p := s.threads[t].position;
    p == s.enqueuePos == |s.stage| && 0 < s.capacity <= p && !s.stage[p - s.capacity].Released?
  }

  /** What an answer without a claim is, and what held at the step that gave it. */
  ghost predicate Refusal(s: State, step: Step, t: nat, answer: Answer)
    requires t < |s.threads|
  {
    match answer
    case PushAnswer(payload, w) =>
      if |payload| > s.maxPayload
      then w == WriteResult(MessageTooLarge, 0) && step == StartPush(t, payload)
      else w == WriteResult(Full, 0) && step == Probe(t) && s.threads[t].PushProbe? && NoRoomAt(s, t)
    case PopAnswer(_, r, data) =>
      && r == ReadResult(Empty, 0, 0) && data == []
      && step == Probe(t) && s.threads[t].PopProbe? && NothingAt(s, t)
    case EmptyAnswer(empty) =>
      step == Probe(t) && s.threads[t].EmptyProbe? && (empty <==> NothingAt(s, t))
  }

  lemma ProbeRefusal(s: State, s': State, t: nat)
    requires Inv(s) && DoProbe(s, s', t) && s'.threads[t].Returned?
    ensures Refusal(s, Probe(t), t, s'.threads[t].answer)
  {
    assert ThreadOk(s, t, s.threads[t]);
    if s.threads[t].PushProbe? {
      FullMeans(s, s', t);
    } else {
      EmptyMeans(s, s', t);
    }
  }

  /** Apart from a probe only an oversized push refuses. */
  lemma OtherAnswers(s: State, s': State, step: Step)
    requires Shape(s) && step.t < |s.threads| && ThreadOk(s, step.t, s.threads[step.t])
    requires Next(s, s', step) && !step.Probe? && !s.threads[step.t].Returned?
    requires step.t < |s'.threads| && s'.threads[step.t].Returned? && !Claimed(s'.threads[step.t].answer)
    ensures Refusal(s, step, step.t, s'.threads[step.t].answer)
  {
  }

  lemma RefusalStep(s: State, s': State, step: Step)
    requires Inv(s) && Next(s, s', step) && step.t < |s.threads| && !s.threads[step.t].Returned?
    requires step.t < |s'.threads| && s'.threads[step.t].Returned? && !Claimed(s'.threads[step.t].answer)
    ensures Refusal(s, step, step.t, s'.threads[step.t].answer)
  {
    if step.Probe? {
      ProbeRefusal(s, s', step.t);
    } else {
      assert ThreadOk(s, step.t, s.threads[step.t]);
      OtherAnswers(s, s', step);
    }
  }

  /** Every refusal of every run: `message_too_large` from a push, `full`, `empty`, and both
      answers of `empty()`, each exactly as the code returns it, was given at one step `k` of
      the call, for the reason that held there, and the call logged no event. */
  lemma RefusalsAreJustified(states: seq<State>, steps: seq<Step>, t: nat, j: nat) returns (i: nat, k: nat)
    requires Run(states, steps) && j < |states| && t < |states[j].threads|
    requires states[j].threads[t].Returned? && !Claimed(states[j].threads[t].answer)
    ensures i <= k < j
    ensures Starts(states[i], steps[i], t, states[j].threads[t].call, ArgumentOf(states[j].threads[t]))
    ensures forall m :: i < m <= j ==> t < |states[m].threads| && states[m].threads[t] != Idle
    ensures t < |states[k].threads| && Refusal(states[k], steps[k], t, states[j].threads[t].answer)
    ensures forall m :: |states[i].log| <= m < |states[j].log| ==> states[j].log[m].thread != t
  {
    i := CallStart(states, steps, t, j);
    k := AnswerStep(states, steps, t, j);
    assert Moves(states, steps, k);
    RunInv(states, steps, k);
    RefusalStep(states[k], states[k + 1], steps[k]);
    RunEvents(states, steps, j);
    assert OwnEvents(states[j], t, states[j].threads[t]);
    assert Moves(states, steps, i);
  }
}
