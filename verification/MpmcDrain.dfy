/** The multi-producer multi-consumer drain protocol of the stress harness: producers count
    their successful pushes and finally leave; a consumer that gets `empty` leaves once no
    producer remains and the pop count has reached the push count. */
module MpmcDrain {
  import opened Results
  import opened Counting
  import Q = MpmcMachine
  import I = MpmcInvariant
  import H = MpmcTheorems

  /** Where a harness thread is in its loop. The comparison of the two counters loads them
      in either order. */
  datatype Role =
    | Producing
    | CountingPush
    | Finished
    | Popping
    | CountingPop
    | CheckRemaining
    | CheckCounts
    | HasPopped(value: nat)
    | HasPushed(value: nat)
    | Exited
    | Broken

  datatype State = State(q: Q.State, roles: seq<Role>, remaining: nat, pushed: nat, popped: nat)

  ghost predicate Init(s: State) {
    && Q.Init(s.q) && |s.roles| == |s.q.threads|
    && (forall t :: 0 <= t < |s.roles| ==> s.roles[t] == Producing || s.roles[t] == Popping)
    && s.remaining == Total(s.roles, ProducerWeight)
    && s.pushed == 0 && s.popped == 0
  }

  function ProducerWeight(r: Role): nat {
    if r == Producing || r == CountingPush then 1 else 0
  }

  datatype Step =
    | Work(step: Q.Step)
    | Return(t: nat)
    | AddPushed(t: nat)
    | Leave(t: nat)
    | AddPopped(t: nat)
    | LoadRemaining(t: nat)
    | LoadCount(t: nat, poppedFirst: bool)
    | LoadOther(t: nat)

  /** A queue step allowed to a thread in this role. */
  ghost predicate Allowed(s: State, st: Q.Step) {
    && st.t < |s.roles| && !st.Finish? && !st.StartEmpty?
    && (s.roles[st.t] == Producing || s.roles[st.t] == Popping)
    && (st.StartPush? ==> s.roles[st.t] == Producing)
    && (st.StartPop? ==> s.roles[st.t] == Popping)
  }

  /** The loop position after a queue call has returned. */
  function AfterReturn(answer: Q.Answer): Role {
    match answer
    case PushAnswer(_, w) => if w.status == Success then CountingPush else Producing
    case PopAnswer(_, r, _) =>
      if r.status == Success then CountingPop else if r.status == Empty then CheckRemaining else Broken
    case EmptyAnswer(_) => Broken
  }

  function As(s: State, t: nat, r: Role): State
    requires t < |s.roles|
  {
    s.(roles := s.roles[t := r])
  }

  ghost predicate Next(s: State, s': State, step: Step) {
    match step
    case Work(st) => Allowed(s, st) && Q.Next(s.q, s'.q, st) && s' == s.(q := s'.q)
    case Return(t) =>
      && t < |s.roles| && t < |s.q.threads| && s.q.threads[t].Returned?
      && s' == As(s, t, AfterReturn(s.q.threads[t].answer)).(q := Q.At(s.q, t, Q.Idle))
    case AddPushed(t) =>
      t < |s.roles| && s.roles[t] == CountingPush && s' == As(s, t, Producing).(pushed := s.pushed + 1)
    case Leave(t) =>
      && t < |s.roles| && t < |s.q.threads| && s.roles[t] == Producing && s.q.threads[t] == Q.Idle
      && 0 < s.remaining && s' == As(s, t, Finished).(remaining := s.remaining - 1)
    case AddPopped(t) =>
      t < |s.roles| && s.roles[t] == CountingPop && s' == As(s, t, Popping).(popped := s.popped + 1)
    case LoadRemaining(t) =>
      && t < |s.roles| && s.roles[t] == CheckRemaining
      && s' == As(s, t, if s.remaining == 0 then CheckCounts else Popping)
    case LoadCount(t, poppedFirst) =>
      && t < |s.roles| && s.roles[t] == CheckCounts
      && s' == As(s, t, if poppedFirst then HasPopped(s.popped) else HasPushed(s.pushed))
    case LoadOther(t) =>
      && t < |s.roles| && (s.roles[t].HasPopped? || s.roles[t].HasPushed?)
      && var drained := if s.roles[t].HasPopped? then s.roles[t].value >= s.pushed
                        else s.popped >= s.roles[t].value;
         s' == As(s, t, if drained then Exited else Popping)
  }

  ghost predicate Moves(states: seq<State>, steps: seq<Step>, i: nat)
    requires i < |steps| && |states| == |steps| + 1
  {
    Next(states[i], states[i + 1], steps[i])
  }

  ghost predicate Run(states: seq<State>, steps: seq<Step>) {
    && |states| == |steps| + 1
    && Init(states[0])
    && forall i :: 0 <= i < |steps| ==> Moves(states, steps, i)
  }

  // --- Debts: claims not yet counted -----------------------------------------------------

  datatype Actor = Actor(pc: Q.Pc, role: Role)

  function Actors(s: State): (actors: seq<Actor>)
    requires |s.roles| == |s.q.threads|
    ensures |actors| == |s.roles|
    ensures forall t :: 0 <= t < |actors| ==> actors[t] == Actor(s.q.threads[t], s.roles[t])
  {
    seq(|s.roles|, t requires 0 <= t < |s.roles| => Actor(s.q.threads[t], s.roles[t]))
  }

  function PushDebt(a: Actor): nat {
    if a.role == CountingPush || a.pc.PushStore?
       || (a.pc.Returned? && a.pc.answer.PushAnswer? && a.pc.answer.write.status == Success)
    then 1 else 0
  }

  /** A claimed message that has not been counted: in flight, returned, or lost to a
      destination that was too short. */
  function PopDebt(a: Actor): nat {
    if a.role == CountingPop || a.role == Broken || a.pc.PopOpen? || a.pc.PopCopy? || a.pc.PopRelease?
       || (a.pc.Returned? && a.pc.answer.PopAnswer? && a.pc.answer.read.status != Empty)
    then 1 else 0
  }

  ghost predicate PushSide(pc: Q.Pc) {
    || pc.Idle? || pc.PushProbe? || pc.PushReload? || pc.PushCas? || pc.PushStore?
    || (pc.Returned? && pc.answer.PushAnswer?)
  }

  ghost predicate PopSide(pc: Q.Pc) {
    || pc.Idle? || pc.PopProbe? || pc.PopReload? || pc.PopCas? || pc.PopOpen? || pc.PopCopy? || pc.PopRelease?
    || (pc.Returned? && pc.answer.PopAnswer?)
  }

  ghost predicate RoleOk(s: State, t: nat)
    requires t < |s.roles| == |s.q.threads|
  {
    var pc := s.q.threads[t];
    match s.roles[t]
    case Producing => PushSide(pc)
    case Popping => PopSide(pc)
    case CheckCounts => pc == Q.Idle && s.remaining == 0
    case HasPopped(value) => pc == Q.Idle && s.remaining == 0 && value <= s.popped
    case HasPushed(value) => pc == Q.Idle && s.remaining == 0 && value == s.pushed
    case Exited => pc == Q.Idle && s.remaining == 0 && s.pushed <= s.popped
    case _ => pc == Q.Idle
  }

  ghost predicate Roles(s: State)
    requires |s.roles| == |s.q.threads|
  {
    forall t :: 0 <= t < |s.roles| ==> RoleOk(s, t)
  }

  ghost predicate Counted(s: State)
    requires |s.roles| == |s.q.threads|
  {
    && s.remaining == Total(s.roles, ProducerWeight)
    && s.pushed + Total(Actors(s), PushDebt) == s.q.enqueuePos
    && s.popped + Total(Actors(s), PopDebt) == s.q.dequeuePos
  }

  ghost predicate Inv(s: State) {
    && I.Inv(s.q) && |s.roles| == |s.q.threads|
    && Roles(s) && Counted(s)
  }

  lemma InitInv(s: State)
    requires Init(s)
    ensures Inv(s)
  {
    I.InitInv(s.q);
    TotalZero(Actors(s), PushDebt);
    TotalZero(Actors(s), PopDebt);
  }

  /** What one queue step does to the debts of its thread. */
  lemma WorkPushDebt(q: Q.State, q': Q.State, st: Q.Step, r: Role)
    requires Q.Next(q, q', st) && !st.Finish? && (r == Producing || r == Popping)
    ensures st.t < |q.threads| == |q'.threads|
    ensures PushDebt(Actor(q'.threads[st.t], r)) + q.enqueuePos
            == PushDebt(Actor(q.threads[st.t], r)) + q'.enqueuePos
  {
  }

  lemma WorkPopDebt(q: Q.State, q': Q.State, st: Q.Step, r: Role)
    requires I.Inv(q) && Q.Next(q, q', st) && !st.Finish? && (r == Producing || r == Popping)
    ensures st.t < |q.threads| == |q'.threads|
    ensures PopDebt(Actor(q'.threads[st.t], r)) + q.dequeuePos
            == PopDebt(Actor(q.threads[st.t], r)) + q'.dequeuePos
  {
    assert I.ThreadOk(q, st.t, q.threads[st.t]);
  }

  lemma WorkSide(q: Q.State, q': Q.State, st: Q.Step)
    requires Q.Next(q, q', st) && !st.Finish? && !st.StartEmpty?
    ensures st.t < |q.threads| == |q'.threads|
    ensures PushSide(q.threads[st.t]) && !st.StartPop? ==> PushSide(q'.threads[st.t])
    ensures PopSide(q.threads[st.t]) && !st.StartPush? ==> PopSide(q'.threads[st.t])
    ensures q'.threads == q.threads[st.t := q'.threads[st.t]]
  {
  }

  /** Only actor `t` changed: the books stay balanced if its own entries do. */
  lemma Rebalance(s: State, s': State, t: nat)
    requires |s.roles| == |s.q.threads| == |s'.roles| == |s'.q.threads| && t < |s.roles|
    requires s'.roles == s.roles[t := s'.roles[t]] && s'.q.threads == s.q.threads[t := s'.q.threads[t]]
    requires Counted(s)
    requires var a, a' := Actor(s.q.threads[t], s.roles[t]), Actor(s'.q.threads[t], s'.roles[t]);
             && s'.remaining + ProducerWeight(a.role) == s.remaining + ProducerWeight(a'.role)
             && s'.pushed + PushDebt(a') + s.q.enqueuePos == s.pushed + PushDebt(a) + s'.q.enqueuePos
             && s'.popped + PopDebt(a') + s.q.dequeuePos == s.popped + PopDebt(a) + s'.q.dequeuePos
    ensures Counted(s')
  {
    var a' := Actors(s')[t];
    assert Actors(s') == Actors(s)[t := a'];
    TotalUpdate(Actors(s), t, a', PushDebt);
    TotalUpdate(Actors(s), t, a', PopDebt);
    TotalUpdate(s.roles, t, s'.roles[t], ProducerWeight);
  }

  lemma WorkRoles(s: State, s': State, t: nat)
    requires |s.roles| == |s.q.threads| == |s'.q.threads| && Roles(s) && t < |s.roles|
    requires s' == s.(q := s'.q) && s'.q.threads == s.q.threads[t := s'.q.threads[t]]
    requires s.roles[t] == Producing || s.roles[t] == Popping
    requires s.roles[t] == Producing && PushSide(s.q.threads[t]) ==> PushSide(s'.q.threads[t])
    requires s.roles[t] == Popping && PopSide(s.q.threads[t]) ==> PopSide(s'.q.threads[t])
    ensures Roles(s')
  {
    forall u | 0 <= u < |s'.roles|
      ensures RoleOk(s', u)
    {
      assert RoleOk(s, u);
    }
  }

  lemma WorkBooks(s: State, s': State, st: Q.Step)
    requires I.Inv(s.q) && |s.roles| == |s.q.threads| && Roles(s) && Counted(s) && Next(s, s', Work(st))
    ensures |s'.roles| == |s'.q.threads| && Roles(s') && Counted(s')
  {
    WorkSide(s.q, s'.q, st);
    WorkPushDebt(s.q, s'.q, st, s.roles[st.t]);
    WorkPopDebt(s.q, s'.q, st, s.roles[st.t]);
    WorkRoles(s, s', st.t);
    Rebalance(s, s', st.t);
  }

  lemma WorkKeepsInv(s: State, s': State, st: Q.Step)
    requires Inv(s) && Next(s, s', Work(st))
    ensures Inv(s')
  {
    WorkBooks(s, s', st);
    I.NextKeepsInv(s.q, s'.q, st);
  }

  /** With no producer left, nothing is owed: the push count is the enqueue position. */
  lemma AllPushesCounted(s: State)
    requires Inv(s) && s.remaining == 0
    ensures s.pushed == s.q.enqueuePos
    ensures s.popped <= s.pushed
    ensures forall t :: 0 <= t < |s.roles| ==> s.roles[t] != Producing && s.roles[t] != CountingPush
  {
    TotalZero(s.roles, ProducerWeight);
    forall t | 0 <= t < |s.roles|
      ensures PushDebt(Actors(s)[t]) == 0
    {
      assert ProducerWeight(s.roles[t]) == 0;
      assert RoleOk(s, t);
    }
    TotalZero(Actors(s), PushDebt);
  }

  lemma ReturnKeepsInv(s: State, s': State, t: nat)
    requires Inv(s) && Next(s, s', Return(t))
    ensures Inv(s')
  {
    I.NextKeepsInv(s.q, s'.q, Q.Finish(t));
    ReturnBooks(s, s', t);
  }

  lemma ReturnBooks(s: State, s': State, t: nat)
    requires |s.roles| == |s.q.threads| && Roles(s) && Counted(s) && Next(s, s', Return(t))
    ensures |s'.roles| == |s'.q.threads| && Roles(s') && Counted(s')
  {
    assert RoleOk(s, t);
    Rebalance(s, s', t);
    forall u | 0 <= u < |s'.roles|
      ensures RoleOk(s', u)
    {
      assert RoleOk(s, u);
    }
  }

  lemma LoopRoles(s: State, s': State, step: Step)
    requires |s.roles| == |s.q.threads| && Roles(s)
    requires Next(s, s', step) && !step.Work? && !step.Return?
    requires s.remaining == 0 ==> forall t :: 0 <= t < |s.roles| ==> s.roles[t] != CountingPush
    ensures |s'.roles| == |s'.q.threads| && Roles(s')
  {
    assert RoleOk(s, step.t);
    forall u | 0 <= u < |s'.roles|
      ensures RoleOk(s', u)
    {
      assert RoleOk(s, u);
    }
  }

  lemma LoopKeepsInv(s: State, s': State, step: Step)
    requires Inv(s) && Next(s, s', step) && !step.Work? && !step.Return?
    ensures Inv(s')
  {
    if s.remaining == 0 {
      AllPushesCounted(s);
    }
    LoopRoles(s, s', step);
    LoopCounts(s, s', step);
  }

  lemma LoopCounts(s: State, s': State, step: Step)
    requires |s.roles| == |s.q.threads| && Roles(s) && Counted(s)
    requires Next(s, s', step) && !step.Work? && !step.Return?
    ensures |s'.roles| == |s'.q.threads| && Counted(s')
  {
    assert RoleOk(s, step.t);
    Rebalance(s, s', step.t);
  }

  lemma NextKeepsInv(s: State, s': State, step: Step)
    requires Inv(s) && Next(s, s', step)
    ensures Inv(s')
  {
    match step
    case Work(st) => WorkKeepsInv(s, s', st);
    case Return(t) => ReturnKeepsInv(s, s', t);
    case _ => LoopKeepsInv(s, s', step);
  }

  lemma {:induction false} RunInv(states: seq<State>, steps: seq<Step>, i: nat)
    requires Run(states, steps) && i < |states|
    ensures Inv(states[i])
  {
    if i == 0 {
      InitInv(states[0]);
    } else {
      var k := i - 1;
      RunInv(states, steps, k);
      assert Moves(states, steps, k);
      NextKeepsInv(states[k], states[k + 1], steps[k]);
    }
  }

  /** The drain loses nothing: in every interleaving, once any consumer has left through its
      `empty` branch, no producer remains, every successful push has been popped by a pop
      that succeeded and was counted, and the queue holds nothing; no consumer has lost one. */
  lemma DrainIsComplete(states: seq<State>, steps: seq<Step>, i: nat, t: nat)
    requires Run(states, steps) && i < |states| && t < |states[i].roles| && states[i].roles[t] == Exited
    ensures var s := states[i];
            && s.remaining == 0
            && s.popped == s.pushed == s.q.enqueuePos == s.q.dequeuePos
            && I.Inv(s.q) && I.Held(s.q) == []
            && (forall u :: 0 <= u < |s.roles| ==> s.roles[u] != Broken && s.roles[u] != CountingPop)
            && (forall u :: 0 <= u < |s.roles| ==> u < |s.q.threads| && !H.Claiming(s.q.threads[u]))
  {
    var s := states[i];
    RunInv(states, steps, i);
    assert RoleOk(s, t);
    AllPushesCounted(s);
    TotalZero(Actors(s), PushDebt);
    TotalZero(Actors(s), PopDebt);
    forall u | 0 <= u < |s.roles|
      ensures !H.Claiming(s.q.threads[u]) && s.roles[u] != Broken && s.roles[u] != CountingPop
    {
      assert PushDebt(Actors(s)[u]) == 0 && PopDebt(Actors(s)[u]) == 0;
    }
  }

  // --- Consumers leave -------------------------------------------------------------------

  /** Everything that was pushed has been popped and counted, and no producer remains. */
  ghost predicate Drained(s: State) {
    s.remaining == 0 && s.popped == s.pushed
  }

  /** Own steps that a consumer of a drained queue may still take. A pop count loaded too
      early sends it through its loop once more. */
  function StepsLeft(role: Role, pc: Q.Pc, dequeuePos: nat): nat {
    match role
    case Popping =>
      if pc.PopProbe? then (if pc.position == dequeuePos then 5 else 7)
      else if pc.Returned? then 4 else 6
    case CheckRemaining => 3
    case CheckCounts => 2
    case HasPopped(value) => if value < dequeuePos then 8 else 1
    case HasPushed(_) => 1
    case _ => 0
  }

  predicate OwnStep(step: Step, t: nat) {
    if step.Work? then step.step.t == t else step.t == t
  }

  /** Nothing is owed in a drained queue, so nothing is in flight. */
  lemma DrainedFacts(s: State)
    requires Inv(s) && Drained(s)
    ensures s.pushed == s.q.enqueuePos == s.q.dequeuePos
    ensures forall u :: 0 <= u < |s.roles| ==> !H.Claiming(s.q.threads[u])
    ensures forall u :: 0 <= u < |s.roles| ==>
              ProducerWeight(s.roles[u]) == 0 && PopDebt(Actor(s.q.threads[u], s.roles[u])) == 0
  {
    AllPushesCounted(s);
    TotalZero(s.roles, ProducerWeight);
    TotalZero(Actors(s), PushDebt);
    TotalZero(Actors(s), PopDebt);
    forall u | 0 <= u < |s.roles|
      ensures PushDebt(Actors(s)[u]) == 0 && PopDebt(Actors(s)[u]) == 0
    {
    }
  }

  lemma StagesReleased(q: Q.State)
    requires I.Inv(q) && q.dequeuePos == q.enqueuePos
    requires forall u :: 0 <= u < |q.threads| ==> !H.Claiming(q.threads[u])
    ensures forall p :: 0 <= p < q.enqueuePos ==> q.stage[p].Released?
  {
  }

  /** A pop step on a drained queue brings its caller closer to `empty`. */
  lemma DrainedPop(q: Q.State, q': Q.State, st: Q.Step)
    requires I.Inv(q) && q.dequeuePos == q.enqueuePos && Q.Next(q, q', st)
    requires !st.Finish? && !st.StartPush? && !st.StartEmpty?
    requires forall u :: 0 <= u < |q.threads| ==> !H.Claiming(q.threads[u])
    requires st.t < |q.threads| && PopSide(q.threads[st.t])
    ensures st.t < |q'.threads| && q'.dequeuePos == q.dequeuePos
    ensures StepsLeft(Popping, q'.threads[st.t], q.dequeuePos) < StepsLeft(Popping, q.threads[st.t], q.dequeuePos)
  {
    var pc := q.threads[st.t];
    assert I.ThreadOk(q, st.t, pc);
    StagesReleased(q);
    if pc.PopProbe? {
      I.PopProbeMeaning(q, pc.position);
    }
  }

  /** The loop around the pop. */
  lemma DrainedLoop(s: State, s': State, step: Step, t: nat)
    requires t < |s.roles| == |s.q.threads| && RoleOk(s, t) && Next(s, s', step) && !step.Work? && step.t == t
    requires Drained(s) && s.pushed == s.q.dequeuePos && s.roles[t] != Finished
    requires ProducerWeight(s.roles[t]) == 0 && PopDebt(Actor(s.q.threads[t], s.roles[t])) == 0
    ensures Drained(s') && t < |s'.roles| == |s'.q.threads| && s'.q.dequeuePos == s.q.dequeuePos
    ensures StepsLeft(s'.roles[t], s'.q.threads[t], s.q.dequeuePos)
            < StepsLeft(s.roles[t], s.q.threads[t], s.q.dequeuePos)
    ensures StepsLeft(s'.roles[t], s'.q.threads[t], s.q.dequeuePos) == 0 <==> s'.roles[t] == Exited
  {
  }

  /** Consumers of a drained queue leave: the queue stays drained, every own step of a
      consumer that is still in its loop lowers `StepsLeft`, which is at most eight, and a
      consumer at zero has left. */
  lemma DrainedConsumersLeave(s: State, s': State, step: Step, t: nat)
    requires Inv(s) && Drained(s) && Next(s, s', step) && t < |s.roles|
    requires OwnStep(step, t) && s.roles[t] != Finished
    ensures Inv(s') && Drained(s') && t < |s'.roles| && t < |s.q.threads| && t < |s'.q.threads|
    ensures StepsLeft(s'.roles[t], s'.q.threads[t], s'.q.dequeuePos)
            < StepsLeft(s.roles[t], s.q.threads[t], s.q.dequeuePos) <= 8
    ensures StepsLeft(s'.roles[t], s'.q.threads[t], s'.q.dequeuePos) == 0 <==> s'.roles[t] == Exited
  {
    DrainedFacts(s);
    assert RoleOk(s, t);
    if step.Work? {
      DrainedPop(s.q, s'.q, step.step);
    } else {
      DrainedLoop(s, s', step, t);
    }
    NextKeepsInv(s, s', step);
  }

  /** A thread that has not left can always take a step of its own. */
  lemma LoopNeverStuck(s: State, t: nat) returns (step: Step, s': State)
    requires Inv(s) && t < |s.roles|
    requires s.roles[t] != Finished && s.roles[t] != Exited && s.roles[t] != Broken
    ensures Next(s, s', step) && OwnStep(step, t)
  {
    assert RoleOk(s, t);
    match s.roles[t]
    case Producing => step, s' := WorkerSteps(s, t);
    case Popping => step, s' := WorkerSteps(s, t);
    case CountingPush => step, s' := AddPushed(t), As(s, t, Producing).(pushed := s.pushed + 1);
    case CountingPop => step, s' := AddPopped(t), As(s, t, Popping).(popped := s.popped + 1);
    case CheckRemaining =>
      step, s' := LoadRemaining(t), As(s, t, if s.remaining == 0 then CheckCounts else Popping);
    case CheckCounts => step, s' := LoadCount(t, true), As(s, t, HasPopped(s.popped));
    case HasPopped(value) => step, s' := LoadOther(t), As(s, t, if value >= s.pushed then Exited else Popping);
    case HasPushed(value) => step, s' := LoadOther(t), As(s, t, if s.popped >= value then Exited else Popping);
  }

  lemma WorkerSteps(s: State, t: nat) returns (step: Step, s': State)
    requires Inv(s) && t < |s.roles| && (s.roles[t] == Producing || s.roles[t] == Popping)
    ensures Next(s, s', step) && OwnStep(step, t)
  {
    var pc := s.q.threads[t];
    if pc.Returned? {
      step, s' := Return(t), As(s, t, AfterReturn(pc.answer)).(q := Q.At(s.q, t, Q.Idle));
    } else if pc != Q.Idle {
      var st, q := H.NeverStuck(s.q, t);
      step, s' := Work(st), s.(q := q);
    } else if s.roles[t] == Producing {
      step := Work(Q.StartPush(t, []));
      s' := s.(q := Q.At(s.q, t, Q.PushProbe([], s.q.enqueuePos, Q.Begin(s.q, s.q.enqueuePos))));
    } else {
      step := Work(Q.StartPop(t, 0));
      s' := s.(q := Q.At(s.q, t, Q.PopProbe(0, s.q.dequeuePos, Q.Begin(s.q, s.q.dequeuePos))));
    }
  }
}
