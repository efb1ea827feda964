/** Every answer of the versioned queue over runs, in terms of the argument its call was made
    with and of the state at one step of the call. */
module VersionedAnswers {
  import opened Results
  import opened Multicast
  import opened VersionedMachine
  import opened VersionedInvariant
  import opened VersionedTheorems

  // --- Reads -----------------------------------------------------------------------------

  /** The read that consumer `r` is inside of at state `j` was called at step `i`. */
  ghost predicate ReadFrom(states: seq<State>, steps: seq<Step>, i: nat, j: nat, r: nat) {
    && i < j <= |steps| && |states| == |steps| + 1
    && r < |states[i].readers| && states[i].readers[r].pc == Idle
    && r < |states[j].readers| && states[j].readers[r].pc != Idle
    && steps[i] == StartRead(r, states[j].readers[r].pc.room)
    && forall m :: i < m < j ==> r < |states[m].readers| && states[m].readers[r].pc != Idle
  }

  /** One step, seen by the read of `r` in progress. */
  lemma ReadStep(s: State, s': State, step: Step, r: nat)
    requires Inv(s) && Next(s, s', step) && r < |s.readers|
    ensures r < |s'.readers|
    ensures var pc, pc' := s.readers[r].pc, s'.readers[r].pc;
            && (pc' != Idle && pc == Idle ==> step == StartRead(r, pc'.room))
            && (pc' != Idle && pc != Idle ==> pc'.room == pc.room)
            && (pc.Returned? && pc' != Idle ==> s'.readers[r] == s.readers[r])
            && (!pc.Returned? && !pc'.Returned? ==> s'.readers[r].cursor == s.readers[r].cursor)
  {
    assert ReaderOk(s, s.readers[r]);
  }

  lemma ReadersStay(s: State, s': State, step: Step, r: nat)
    requires Next(s, s', step) && r < |s'.readers| && s'.readers[r].pc != Idle
    ensures r < |s.readers|
  {
  }

  /** Every read under way: its call, and once it has returned the step that returned it. */
  lemma {:induction false} ReadStory(states: seq<State>, steps: seq<Step>, j: nat, r: nat) returns (i: nat, k: nat)
    requires Run(states, steps) && j < |states| && r < |states[j].readers| && states[j].readers[r].pc != Idle
    ensures ReadFrom(states, steps, i, j, r) && i <= k <= j
    ensures r < |states[k].readers| && states[k].readers[r].cursor == states[i].readers[r].cursor
    ensures if states[j].readers[r].pc.Returned?
            then && k < j && Returns(states[k], states[k + 1], r)
                 && states[k + 1].readers[r] == states[j].readers[r]
            else k == j
    decreases j
  {
    var m := j - 1;
    assert Moves(states, steps, m);
    RunInv(states, steps, m);
    ReadersStay(states[m], states[j], steps[m], r);
    ReadStep(states[m], states[j], steps[m], r);
    if states[m].readers[r].pc == Idle {
      i := m;
      k := if states[j].readers[r].pc.Returned? then m else j;
    } else {
      i, k := ReadStory(states, steps, m, r);
      if !states[j].readers[r].pc.Returned? {
        k := j;
      }
    }
  }

  /** Every answer of `try_read`: the call was made with this much room, and at one step `k`
      between call and return the mutex queue, asked with that room and the cursor the call
      found, gives this answer and this cursor; or the wanted sequence had been lapped at
      that step, the answer is `overwritten`, and the cursor is raised to the oldest retained
      sequence unless it is there already. */
  lemma ReadsAreAnswered(states: seq<State>, steps: seq<Step>, j: nat, r: nat) returns (i: nat, k: nat)
    requires Run(states, steps) && j < |states| && r < |states[j].readers| && states[j].readers[r].pc.Returned?
    ensures ReadFrom(states, steps, i, j, r) && i <= k < j
    ensures var s, want, c := states[k], states[i].readers[r].cursor, states[j].readers[r];
            && 1 <= want && s.published <= |s.offered|
            && if c.pc.answer.read.status == Overwritten
               then && steps[k] == Resume(r) && want + s.capacity <= Begun(s)
                    && c.pc.answer == Answer(ReadResult(Overwritten, 0, c.cursor), [])
                    && c.cursor == if want + s.capacity <= s.published then s.published - s.capacity + 1 else want
               else && (steps[k] == StartRead(r, c.pc.room) || steps[k] == Recheck(r))
                    && Reading(c.pc.answer, c.cursor) == Read(History(s), s.capacity, want, c.pc.room)
  {
    i, k := ReadStory(states, steps, j, r);
    RunInv(states, steps, k);
    assert Moves(states, steps, k);
    assert ReaderOk(states[k], states[k].readers[r]);
    if states[j].readers[r].pc.answer.read.status == Overwritten {
      OverwrittenIsSound(states[k], states[k + 1], steps[k], r);
    } else {
      AnswersAreAtomic(states[k], states[k + 1], steps[k], r);
    }
  }

  // --- Publications ----------------------------------------------------------------------

  ghost predicate PublishFrom(states: seq<State>, steps: seq<Step>, i: nat, j: nat) {
    && i < j <= |steps| && |states| == |steps| + 1 && states[j].producer != Resting
    && steps[i] == StartPublish(states[j].producer.payload)
    && forall m :: i < m < j ==> !steps[m].StartPublish? && !steps[m].FinishPublish?
  }

  /** The published history. */
  function Published(s: State): seq<Payload> {
    if s.published <= |s.offered| then s.offered[..s.published] else []
  }

  /** What the step from `s` to `s'` answers to a publication. */
  ghost predicate PublishDecided(s: State, s': State, payload: Payload, w: WriteResult) {
    if |payload| > s.maxPayload then w == WriteResult(MessageTooLarge, 0) && Published(s') == Published(s)
    else w == WriteResult(Success, |Published(s')|) && Published(s') == Published(s) + [payload]
  }

  /** One step, seen by the publication in progress. */
  lemma PublishStep(s: State, s': State, step: Step)
    requires Inv(s) && Next(s, s', step) && s'.producer != Resting
    ensures s.producer == Resting ==> step == StartPublish(s'.producer.payload)
    ensures s.producer != Resting ==>
              !step.StartPublish? && !step.FinishPublish? && s'.producer.payload == s.producer.payload
    ensures if s'.producer.Answered? && !s.producer.Answered?
            then PublishDecided(s, s', s'.producer.payload, s'.producer.write)
            else Published(s') == Published(s) && (s.producer.Answered? ==> s'.producer == s.producer)
  {
    NextKeepsInv(s, s', step);
  }

  lemma {:induction false} PublishStory(states: seq<State>, steps: seq<Step>, j: nat) returns (i: nat, k: nat)
    requires Run(states, steps) && j < |states| && states[j].producer != Resting
    ensures PublishFrom(states, steps, i, j) && i <= k <= j && Published(states[i]) == Published(states[k])
    ensures if states[j].producer.Answered?
            then && k < j && Published(states[k + 1]) == Published(states[j])
                 && PublishDecided(states[k], states[k + 1], states[j].producer.payload, states[j].producer.write)
            else k == j
    decreases j
  {
    var m := j - 1;
    PublishMove(states, steps, m);
    if states[m].producer == Resting {
      i := m;
      k := if states[j].producer.Answered? then m else j;
    } else {
      i, k := PublishStory(states, steps, m);
      if !states[m].producer.Answered? {
        k := if states[j].producer.Answered? then m else j;
      }
    }
  }

  lemma PublishMove(states: seq<State>, steps: seq<Step>, m: nat)
    requires Run(states, steps) && m < |steps| && states[m + 1].producer != Resting
    ensures var s, s', step := states[m], states[m + 1], steps[m];
            && (s.producer == Resting ==> step == StartPublish(s'.producer.payload))
            && (s.producer != Resting ==>
                  !step.StartPublish? && !step.FinishPublish? && s'.producer.payload == s.producer.payload)
            && if s'.producer.Answered? && !s.producer.Answered?
               then PublishDecided(s, s', s'.producer.payload, s'.producer.write)
               else Published(s') == Published(s) && (s.producer.Answered? ==> s'.producer == s.producer)
  {
    RunInv(states, steps, m);
    assert Moves(states, steps, m);
    PublishStep(states[m], states[m + 1], steps[m]);
  }

  /** Every answer of `try_publish`: the call was made with this very payload; it is refused
      as too large and nothing is published, or it becomes the next entry of the published
      history at one step of the call, and the only one. */
  lemma PublishesAreAnswered(states: seq<State>, steps: seq<Step>, j: nat) returns (i: nat)
    requires Run(states, steps) && j < |states| && states[j].producer.Answered?
    ensures PublishFrom(states, steps, i, j)
    ensures states[i].published <= |states[i].offered| && states[j].published <= |states[j].offered|
    ensures var payload, w := states[j].producer.payload, states[j].producer.write;
            if |payload| > states[j].maxPayload
            then w == WriteResult(MessageTooLarge, 0) && History(states[j]) == History(states[i])
            else && History(states[j]) == History(states[i]) + [payload]
                 && w == WriteResult(Success, |History(states[j])|)
  {
    var k;
    i, k := PublishStory(states, steps, j);
    LimitKept(states, steps, k, j);
    RunInv(states, steps, i);
    RunInv(states, steps, j);
  }

  lemma {:induction false} LimitKept(states: seq<State>, steps: seq<Step>, k: nat, j: nat)
    requires Run(states, steps) && k <= j < |states|
    ensures states[j].maxPayload == states[k].maxPayload
    decreases j
  {
    if k < j {
      LimitKept(states, steps, k, j - 1);
      assert Moves(states, steps, j - 1);
    }
  }
}
