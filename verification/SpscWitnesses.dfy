/** Runs of the single-producer single-consumer machine in which an observer's answer is
    true at no instant of its call, one for each unlucky operand order. */
module SpscWitnesses {
  import opened Results
  import opened FixedMessage
  import opened Fifo
  import opened Ring
  import opened SpscMachine

  lemma Chain(states: seq<State>, steps: seq<Step>, s: State, step: Step)
    requires Run(states, steps) && Next(states[|steps|], s, step)
    ensures Run(states + [s], steps + [step])
  {
    var all, labels := states + [s], steps + [step];
    forall i | 0 <= i < |labels|
      ensures Moves(all, labels, i)
    {
      assert i < |steps| ==> Moves(states, steps, i);
    }
  }

  /** `all` extends `states`, and its new states keep the counters within these bounds. */
  ghost predicate Extends(states: seq<State>, all: seq<State>, headBy: nat, tailBy: nat)
    requires states != []
  {
    && states <= all
    && forall i :: |states| <= i < |all| ==>
         var s := states[|states| - 1];
         && s.head <= all[i].head <= s.head + headBy && s.tail <= all[i].tail <= s.tail + tailBy
         && all[i].capacity == s.capacity
  }

  lemma SoloPush(states: seq<State>, steps: seq<Step>) returns (states': seq<State>, steps': seq<Step>)
    requires Run(states, steps)
    requires var s := states[|steps|];
             WellFormed(s) && s.producer == PushIdle && s.head - s.tail != s.capacity
    ensures Run(states', steps') && steps <= steps' && Extends(states, states', 1, 0)
    ensures var s, s' := states[|steps|], states'[|steps'|];
            var m := SlotAt(s, s.head);
            s' == s.(head := s.head + 1,
                     slots := s.slots[Index(s.head, s.capacity) := m.(size := 0, sequence := s.head + 1)],
                     pushed := s.pushed + [[]],
                     log := s.log + [Enqueue(0, Item([], s.head + 1))])
  {
    var s := states[|steps|];
    var h := s.head;
    var m := SlotAt(s, h);
    var i := Index(h, s.capacity);
    var s1 := s.(producer := HeadLoaded([], h));
    Chain(states, steps, s1, StartPush([]));
    states', steps' := states + [s1], steps + [StartPush([])];
    var s2 := s1.(producer := Storing([], h, 0));
    Chain(states', steps', s2, CheckTail);
    states', steps' := states' + [s2], steps' + [CheckTail];
    var s3 := s2.(producer := Storing([], h, 1), slots := s.slots[i := m.(size := 0)]);
    Chain(states', steps', s3, StoreByte);
    states', steps' := states' + [s3], steps' + [StoreByte];
    var s4 := s3.(producer := Storing([], h, 2), slots := s3.slots[i := m.(size := 0, sequence := h + 1)]);
    Chain(states', steps', s4, StoreByte);
    states', steps' := states' + [s4], steps' + [StoreByte];
    var s5 := s4.(head := h + 1, producer := Pushed([], WriteResult(Success, h + 1)),
                  pushed := s.pushed + [[]], log := s.log + [Enqueue(0, Item([], h + 1))]);
    Chain(states', steps', s5, PublishHead);
    states', steps' := states' + [s5], steps' + [PublishHead];
    var s6 := s5.(producer := PushIdle);
    Chain(states', steps', s6, FinishPush);
    states', steps' := states' + [s6], steps' + [FinishPush];
    assert s4.slots == s.slots[i := m.(size := 0, sequence := h + 1)];
  }

  lemma SoloPop(states: seq<State>, steps: seq<Step>) returns (states': seq<State>, steps': seq<Step>)
    requires Run(states, steps)
    requires var s := states[|steps|];
             && WellFormed(s) && s.consumer == PopIdle && s.tail != s.head
             && SlotAt(s, s.tail).size == 0
    ensures Run(states', steps') && steps <= steps' && Extends(states, states', 0, 1)
    ensures var s, s' := states[|steps|], states'[|steps'|];
            s' == s.(tail := s.tail + 1,
                     log := s.log + [Dequeue(1, Item([], SlotAt(s, s.tail).sequence))])
  {
    var s := states[|steps|];
    var t := s.tail;
    var read := ReadResult(Success, 0, SlotAt(s, t).sequence);
    var s1 := s.(consumer := TailLoaded(0, t));
    Chain(states, steps, s1, StartPop(0));
    states', steps' := states + [s1], steps + [StartPop(0)];
    var s2 := s1.(consumer := Opening(0, t));
    Chain(states', steps', s2, CheckHead);
    states', steps' := states' + [s2], steps' + [CheckHead];
    var s3 := s2.(consumer := Copying(0, t, 0, []));
    Chain(states', steps', s3, LoadByte);
    states', steps' := states' + [s3], steps' + [LoadByte];
    var s4 := s3.(consumer := Advancing(0, t, read, []));
    Chain(states', steps', s4, LoadByte);
    states', steps' := states' + [s4], steps' + [LoadByte];
    var s5 := s4.(tail := t + 1, consumer := Popped(0, read, []),
                  log := s.log + [Dequeue(1, Item([], read.sequence))]);
    Chain(states', steps', s5, AdvanceTail);
    states', steps' := states' + [s5], steps' + [AdvanceTail];
    var s6 := s5.(consumer := PopIdle);
    Chain(states', steps', s6, FinishPop);
    states', steps' := states' + [s6], steps' + [FinishPop];
  }

  /** One message pushed into a fresh ring of capacity two, and a look begun by observer 0. */
  lemma LookBegins(full: bool, headFirst: bool) returns (states: seq<State>, steps: seq<Step>)
    ensures Run(states, steps) && steps != []
    ensures steps[|steps| - 1] == LookFirst(0, full, headFirst)
    ensures var s := states[|steps|];
            && WellFormed(s) && s.capacity == 2 && s.head == 1 && s.tail == 0
            && s.producer == PushIdle && s.consumer == PopIdle && SlotAt(s, 0).size == 0
            && s.observers == [if headFirst then HasHead(full, 1) else HasTail(full, 0)]
  {
    var blank := Image([], 0, 0);
    var s0 := State(2, 0, [blank, blank], 0, 0, PushIdle, PopIdle, [Quiet], [], []);
    states, steps := SoloPush([s0], []);
    FirstLap(0, 2);
    var s1 := states[|steps|];
    var s2 := s1.(observers := [if headFirst then HasHead(full, 1) else HasTail(full, 0)]);
    Chain(states, steps, s2, LookFirst(0, full, headFirst));
    states, steps := states + [s2], steps + [LookFirst(0, full, headFirst)];
  }

  lemma LookEnds(states: seq<State>, steps: seq<Step>, answer: ObserverPc)
    returns (states': seq<State>, steps': seq<Step>)
    requires Run(states, steps)
    requires var s := states[|steps|]; |s.observers| == 1 && DoLookSecond(s, s.(observers := [answer]), 0)
    ensures Run(states', steps') && steps' == steps + [LookSecond(0)] && Extends(states, states', 0, 0)
    ensures states'[|steps'|].observers == [answer]
  {
    var s := states[|steps|].(observers := [answer]);
    Chain(states, steps, s, LookSecond(0));
    states', steps' := states + [s], steps + [LookSecond(0)];
  }

  /** With `head_` loaded first, `empty()` can answer true although the ring holds a message
      at every instant of the call. */
  lemma EmptyHeadFirstUnsound() returns (states: seq<State>, steps: seq<Step>, a: nat)
    ensures Run(states, steps) && a < |steps|
    ensures steps[a] == LookFirst(0, false, true) && steps[|steps| - 1] == LookSecond(0)
    ensures states[|steps|].observers == [Told(false, true, true)]
    ensures forall i :: a <= i < |states| ==> states[i].tail < states[i].head
  {
    states, steps := LookBegins(false, true);
    a := |steps| - 1;
    assert Moves(states, steps, a);
    Lap(0, 2);
    FirstLap(0, 2);
    FirstLap(1, 2);
    states, steps := SoloPush(states, steps);
    states, steps := SoloPop(states, steps);
    states, steps := LookEnds(states, steps, Told(false, true, true));
  }

  /** With `tail_` loaded first, `full()` can answer true although the ring has a free slot
      at every instant of the call. */
  lemma FullTailFirstUnsound() returns (states: seq<State>, steps: seq<Step>, a: nat)
    ensures Run(states, steps) && a < |steps|
    ensures steps[a] == LookFirst(0, true, false) && steps[|steps| - 1] == LookSecond(0)
    ensures states[|steps|].observers == [Told(true, false, true)]
    ensures forall i :: a <= i < |states| ==> states[i].head < states[i].tail + states[i].capacity
  {
    states, steps := LookBegins(true, false);
    a := |steps| - 1;
    assert Moves(states, steps, a);
    FirstLap(0, 2);
    FirstLap(1, 2);
    states, steps := SoloPop(states, steps);
    states, steps := SoloPush(states, steps);
    states, steps := LookEnds(states, steps, Told(true, false, true));
  }
}
