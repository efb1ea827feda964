/** Concrete runs of the MPMC machine that mark the limits of its guarantees. */
module MpmcWitnesses {
  import opened Results
  import opened FixedMessage
  import opened Fifo
  import opened Ring
  import opened MpmcMachine

  function Blank(sequence: nat): Cell {
    Cell(sequence, Image([], 0, 0))
  }

  lemma {:induction false} Chain(states: seq<State>, steps: seq<Step>, s: State, step: Step)
    requires Linked(states, steps) && Next(states[|steps|], s, step)
    ensures Linked(states + [s], steps + [step])
  {
    var all, labels := states + [s], steps + [step];
    forall i | 0 <= i < |labels|
      ensures Moves(all, labels, i)
    {
      assert i < |steps| ==> Moves(states, steps, i);
    }
  }

  /** A push that finds its cell free, from the first load to the return. */
  lemma SoloPush(states: seq<State>, steps: seq<Step>, t: nat)
    returns (states': seq<State>, steps': seq<Step>)
    requires Linked(states, steps)
    requires var s := states[|steps|];
             && WellFormed(s) && t < |s.threads| && s.threads[t] == Idle
             && |s.stage| == s.enqueuePos
             && CellAt(s, s.enqueuePos).sequence == s.enqueuePos
    ensures Linked(states', steps') && states' != [] && states'[0] == states[0]
    ensures var s, s' := states[|steps|], states'[|steps'|];
            var p := s.enqueuePos;
            var call := Call(|s.log|, p, 0, 0);
            && s' == s.(enqueuePos := p + 1,
                        cells := s.cells[Index(p, s.capacity) := Cell(p + 1, s.cells[Index(p, s.capacity)].message.(size := 0, sequence := p + 1))],
                        threads := s.threads[t := Returned(PushAnswer([], WriteResult(Success, p + 1)), call, |s.log|)],
                        stage := s.stage + [Published],
                        history := s.history + [[]],
                        log := s.log + [Enqueue(t, Item([], p + 1))])
  {
    var s := states[|steps|];
    var p := s.enqueuePos;
    var call := Call(|s.log|, p, 0, 0);
    var s1 := At(s, t, PushProbe([], p, call));
    Chain(states, steps, s1, StartPush(t, []));
    states', steps' := states + [s1], steps + [StartPush(t, [])];
    var s2 := At(s1, t, PushCas([], p, call));
    Chain(states', steps', s2, Probe(t));
    states', steps' := states' + [s2], steps' + [Probe(t)];
    var s3 := ClaimPush(s2, t);
    Chain(states', steps', s3, Cas(t, false));
    states', steps' := states' + [s3], steps' + [Cas(t, false)];
    states', steps' := SoloAssign(states', steps', t);
    var s5 := states'[|steps'|];
    assert s5.stage[p := Published] == s.stage + [Published];
    var s6 := At(WithCell(s5, p, CellAt(s5, p).(sequence := p + 1)), t,
                 Returned(PushAnswer([], WriteResult(Success, p + 1)), call, |s.log|))
              .(stage := s5.stage[p := Published]);
    Chain(states', steps', s6, Publish(t));
    states', steps' := states' + [s6], steps' + [Publish(t)];
    assert s6.threads == s.threads[t := s6.threads[t]];
    assert s6.cells == s.cells[Index(p, s.capacity) := s6.cells[Index(p, s.capacity)]];
  }

  lemma SoloAssign(states: seq<State>, steps: seq<Step>, t: nat)
    returns (states': seq<State>, steps': seq<Step>)
    requires Linked(states, steps)
    requires var s := states[|steps|];
             && WellFormed(s) && t < |s.threads|
             && s.threads[t].PushStore? && s.threads[t].payload == [] && s.threads[t].k == 0
    ensures Linked(states', steps') && states' != [] && states'[0] == states[0]
    ensures var s, s' := states[|steps|], states'[|steps'|];
            var p := s.threads[t].position;
            var c := CellAt(s, p);
            && s' == s.(cells := s.cells[Index(p, s.capacity) :=
                                 c.(message := c.message.(size := 0, sequence := p + 1))],
                        threads := s.threads[t := s.threads[t].(k := 2)])
  {
    var s := states[|steps|];
    var pc := s.threads[t];
    var c := CellAt(s, pc.position);
    var s1 := At(WithCell(s, pc.position, c.(message := c.message.(size := 0))), t, pc.(k := 1));
    Chain(states, steps, s1, Store(t));
    states', steps' := states + [s1], steps + [Store(t)];
    var c1 := CellAt(s1, pc.position);
    var s2 := At(WithCell(s1, pc.position, c1.(message := c1.message.(sequence := pc.position + 1))),
                 t, pc.(k := 2));
    Chain(states', steps', s2, Store(t));
    states', steps' := states' + [s2], steps' + [Store(t)];
  }

  /** Why the constructor refuses capacity one. There the "published" and the "free again"
      value of the only cell coincide, so a second push is accepted with no pop in between:
      two messages are accepted into a queue of capacity one and the first is overwritten. */
  lemma CapacityOneOverwrites() returns (states: seq<State>, steps: seq<Step>)
    ensures Linked(states, steps) && Fresh(states[0]) && states[0].capacity == 1
    ensures var s := states[|steps|];
            && s.dequeuePos == 0 && s.enqueuePos == 2
            && (forall e :: e in s.log ==> e.Enqueue?)
            && |s.cells| == 1 && s.cells[0].message.sequence == 2
  {
    var s0 := State(1, 0, [Blank(0)], 0, 0, [Idle, Idle], [], [], []);
    states, steps := [s0], [];
    FirstLap(0, 1);
    states, steps := SoloPush(states, steps, 0);
    Lap(0, 1);
    states, steps := SoloPush(states, steps, 1);
  }

  /** Thread 0 of three claims position 0 of a fresh queue of capacity two, and stalls. */
  lemma StalledPush() returns (states: seq<State>, steps: seq<Step>)
    ensures Run(states, steps)
    ensures states[|steps|]
            == State(2, 0, [Blank(0), Blank(1)], 1, 0,
                     [PushStore([], 0, Call(0, 0, 0, 0), 0, 0), Idle, Idle],
                     [Writing(0)], [[]], [Enqueue(0, Item([], 1))])
  {
    var s0 := State(2, 0, [Blank(0), Blank(1)], 0, 0, [Idle, Idle, Idle], [], [], []);
    states, steps := [s0], [];
    FirstLap(0, 2);
    FirstLap(1, 2);
    var call := Call(0, 0, 0, 0);
    var s1 := At(s0, 0, PushProbe([], 0, call));
    Chain(states, steps, s1, StartPush(0, []));
    states, steps := states + [s1], steps + [StartPush(0, [])];
    var s2 := At(s1, 0, PushCas([], 0, call));
    Chain(states, steps, s2, Probe(0));
    states, steps := states + [s2], steps + [Probe(0)];
    var s3 := ClaimPush(s2, 0);
    Chain(states, steps, s3, Cas(0, false));
    states, steps := states + [s3], steps + [Cas(0, false)];
  }

  /** `empty` is weaker than "nothing is published": thread 0 has claimed position 0 and
      stalls before its stores; thread 1 then completes a push and gets its success answer;
      a pop that starts afterwards still answers `empty`. */
  lemma EmptyBehindStalledPush() returns (states: seq<State>, steps: seq<Step>)
    ensures Run(states, steps)
    ensures var s := states[|steps|];
            && |s.threads| == 3
            && s.threads[1].Returned?
            && s.threads[1].answer == PushAnswer([], WriteResult(Success, 2))
            && s.stage == [Writing(0), Published]
            && s.dequeuePos == 0
            && s.threads[2].Returned?
            && s.threads[2].answer == PopAnswer(0, ReadResult(Empty, 0, 0), [])
  {
    states, steps := StalledPush();
    FirstLap(0, 2);
    FirstLap(1, 2);
    states, steps := SoloPush(states, steps, 1);
    var s4 := states[|steps|];
    var late := Call(2, 0, 0, 0);
    var s5 := At(s4, 2, PopProbe(0, 0, late));
    Chain(states, steps, s5, StartPop(2, 0));
    states, steps := states + [s5], steps + [StartPop(2, 0)];
    var s6 := At(s5, 2, Returned(PopAnswer(0, ReadResult(Empty, 0, 0), []), late, 0));
    Chain(states, steps, s6, Probe(2));
    states, steps := states + [s6], steps + [Probe(2)];
  }
}
