/** Every answer of the blocking queue is decided by one critical section of its own call,
    and every item accepted or taken belongs to exactly one such section. */
module BlockingAnswers {
  import opened Results
  import opened BlockingMachine
  import opened BlockingTheorems

  // --- What a section decides ------------------------------------------------------------

  ghost predicate SameContents<T>(s: State<T>, s': State<T>) {
    s'.queue == s.queue && s'.closed == s.closed && s'.accepted == s.accepted && s'.taken == s.taken
  }

  ghost predicate Accepts<T>(s: State<T>, s': State<T>, item: T) {
    && !s.closed && |s.queue| < s.capacity
    && s'.queue == s.queue + [item] && s'.accepted == s.accepted + [item]
    && s'.closed == s.closed && s'.taken == s.taken
  }

  ghost predicate Takes<T>(s: State<T>, s': State<T>, item: T) {
    && s.queue == [item] + s'.queue && s'.taken == s.taken + [item]
    && s'.closed == s.closed && s'.accepted == s.accepted
  }

  /** The call entered with `entry` is answered `a` by the section from `s` to `s'`: the
      sequential bounded queue with a closed flag gives this answer and this effect. */
  ghost predicate Decides<T>(s: State<T>, s': State<T>, entry: Pc<T>, a: Answer<T>) {
    match a
    case PushAnswer(status) =>
      && entry.PushLock?
      && (match status
          case Success => Accepts(s, s', entry.item)
          case Closed => s.closed && SameContents(s, s')
          case Full => !entry.blocking && !s.closed && |s.queue| == s.capacity && SameContents(s, s')
          case _ => false)
    case PopAnswer(item) =>
      && entry.PopLock? && entry.blocking
      && (match item
          case Some(x) => Takes(s, s', x)
          case None => s.closed && s.taken == s.accepted && SameContents(s, s'))
    case TryPopAnswer(status, item) =>
      && entry.PopLock? && !entry.blocking
      && (match item
          case Some(x) => status == Success && Takes(s, s', x)
          case None => && status == (if s.closed then Closed else Empty)
                       && s.taken == s.accepted && SameContents(s, s'))
    case CloseAnswer =>
      && entry.CloseLock? && s'.closed
      && s'.queue == s.queue && s'.accepted == s.accepted && s'.taken == s.taken
  }

  /** The section from `s` to `s'` only sends the caller to wait. */
  ghost predicate Blocks<T>(s: State<T>, s': State<T>, entry: Pc<T>) {
    && (entry.PushLock? || entry.PopLock?) && entry.blocking
    && !s.closed && SameContents(s, s')
    && (if entry.PushLock? then |s.queue| == s.capacity else s.queue == [])
  }

  /** The answer already fixed for a thread, if its deciding section is behind it. */
  function Verdict<T>(pc: Pc<T>): Option<Answer<T>> {
    match pc
    case PushNotify(_) => Some(PushAnswer(Success))
    case PopNotify(item, blocking) =>
      Some(if blocking then PopAnswer(Some(item)) else TryPopAnswer(Success, Some(item)))
    case CloseNotifyEmpty => Some(CloseAnswer)
    case CloseNotifyFull => Some(CloseAnswer)
    case Unlock(answer) => Some(answer)
    case Returned(answer) => Some(answer)
    case _ => None
  }

  /** A thread still before its deciding section, in a call entered with `entry`. */
  ghost predicate Pending<T>(entry: Pc<T>, pc: Pc<T>) {
    match pc
    case PushLock(item, blocking, _) => entry.PushLock? && entry.item == item && entry.blocking == blocking
    case PushHold(item, blocking, _) => entry.PushLock? && entry.item == item && entry.blocking == blocking
    case PushWait(item) => entry.PushLock? && entry.item == item && entry.blocking
    case PopLock(blocking, _) => entry.PopLock? && entry.blocking == blocking
    case PopHold(blocking, _) => entry.PopLock? && entry.blocking == blocking
    case PopWait => entry.PopLock? && entry.blocking
    case CloseLock => entry.CloseLock?
    case CloseHold => entry.CloseLock?
    case _ => false
  }

  lemma SectionDecides<T>(s: State<T>, s': State<T>, t: nat, entry: Pc<T>)
    requires Conserved(s) && DoCritical(s, s', t) && Pending(entry, s.threads[t])
    ensures match Verdict(s'.threads[t])
            case Some(a) => Decides(s, s', entry, a)
            case None => Pending(entry, s'.threads[t]) && Blocks(s, s', entry)
  {
    if s.queue == [] {
      assert s.taken == s.accepted;
    }
  }

  /** How a thread moves on outside its sections and the ends of its calls. */
  ghost predicate Follows<T>(pc: Pc<T>, pc': Pc<T>) {
    || pc' == pc || pc' == Wake(pc)
    || (pc.PushLock? && pc' == PushHold(pc.item, pc.blocking, pc.woken))
    || (pc.PopLock? && pc' == PopHold(pc.blocking, pc.woken))
    || (pc.CloseLock? && pc'.CloseHold?)
    || ((pc.PushNotify? || pc.PopNotify?) && pc' == AfterNotify(pc))
    || (pc.CloseNotifyEmpty? && pc'.CloseNotifyFull?)
    || (pc.CloseNotifyFull? && pc' == Returned(CloseAnswer))
    || (pc.Unlock? && pc' == Returned(pc.answer))
  }

  lemma StepFollows<T>(s: State<T>, s': State<T>, step: Step<T>, t: nat)
    requires Next(s, s', step) && t < |s.threads|
    requires step.t == t ==> !step.Critical? && !step.Call? && !step.Finish?
    ensures |s'.threads| == |s.threads| && Follows(s.threads[t], s'.threads[t])
  {
  }

  /** Such a move leaves the call where it was, up to being woken or notifying. */
  lemma CallGoesOn<T>(pc: Pc<T>, pc': Pc<T>, entry: Pc<T>)
    requires Follows(pc, pc')
    ensures Verdict(pc') == Verdict(pc)
    ensures Pending(entry, pc) ==> Pending(entry, pc')
  {
  }

  // --- Calls in a run --------------------------------------------------------------------

  ghost predicate Ends<T>(step: Step<T>, t: nat) {
    step.t == t && (step.Call? || step.Finish?)
  }

  /** The call that thread `t` is inside of at state `i` was entered by step `c`. */
  ghost predicate CallFrom<T>(states: seq<State<T>>, steps: seq<Step<T>>, c: nat, i: nat, t: nat) {
    && c < i <= |steps| && steps[c].Call? && steps[c].t == t
    && forall m :: c < m < i ==> !Ends(steps[m], t)
  }

  /** Every section of the call before state `i`, except `k`, only sent the caller to wait. */
  ghost predicate OthersBlock<T>(states: seq<State<T>>, steps: seq<Step<T>>, c: nat, k: nat, i: nat, t: nat)
    requires c < i <= |steps| && |states| == |steps| + 1 && steps[c].Call?
  {
    forall m :: c < m < i && m != k && steps[m] == Critical(t) ==>
      m < k && Blocks(states[m], states[m + 1], steps[c].entry)
  }

  /** `k` is the section that decided the answer `a` of that call; it is the only one with
      an effect. */
  ghost predicate Settles<T>(states: seq<State<T>>, steps: seq<Step<T>>, c: nat, k: nat, i: nat, t: nat, a: Answer<T>)
    requires |states| == |steps| + 1 && CallFrom(states, steps, c, i, t)
  {
    && c < k < i && steps[k] == Critical(t)
    && Decides(states[k], states[k + 1], steps[c].entry, a)
    && OthersBlock(states, steps, c, k, i, t)
  }

  /** One more step of a call already under way. */
  lemma StoryStep<T>(states: seq<State<T>>, steps: seq<Step<T>>, c: nat, k: nat, i: nat, t: nat) returns (k': nat)
    requires Run(states, steps) && i < |steps| && t < |states[i].threads|
    requires CallFrom(states, steps, c, i, t) && !Ends(steps[i], t) && !states[i].threads[t].Idle?
    requires match Verdict(states[i].threads[t])
             case Some(a) => Settles(states, steps, c, k, i, t, a)
             case None => k == i && Pending(steps[c].entry, states[i].threads[t]) && OthersBlock(states, steps, c, k, i, t)
    ensures t < |states[i + 1].threads| && CallFrom(states, steps, c, i + 1, t)
    ensures match Verdict(states[i + 1].threads[t])
            case Some(a) => Settles(states, steps, c, k', i + 1, t, a)
            case None => && k' == i + 1 && Pending(steps[c].entry, states[i + 1].threads[t])
                         && OthersBlock(states, steps, c, k', i + 1, t)
  {
    assert Moves(states, steps, i);
    if steps[i] == Critical(t) {
      RunInv(states, steps, i);
      SectionDecides(states[i], states[i + 1], t, steps[c].entry);
      k' := if Verdict(states[i + 1].threads[t]).Some? then i else i + 1;
    } else {
      StepFollows(states[i], states[i + 1], steps[i], t);
      CallGoesOn(states[i].threads[t], states[i + 1].threads[t], steps[c].entry);
      k' := if Verdict(states[i].threads[t]).Some? then k else i + 1;
    }
  }

  /** Every call under way: where it began, and its deciding section if it is behind it. */
  lemma {:induction false} Story<T>(states: seq<State<T>>, steps: seq<Step<T>>, i: nat, t: nat) returns (c: nat, k: nat)
    requires Run(states, steps) && i < |states| && t < |states[i].threads| && !states[i].threads[t].Idle?
    ensures CallFrom(states, steps, c, i, t)
    ensures match Verdict(states[i].threads[t])
            case Some(a) => Settles(states, steps, c, k, i, t, a)
            case None => && k == i && Pending(steps[c].entry, states[i].threads[t])
                         && OthersBlock(states, steps, c, k, i, t)
    decreases i
  {
    if i == 0 {
      assert false;
    } else {
      var j := i - 1;
      assert Moves(states, steps, j);
      if states[j].threads[t].Idle? {
        c, k := j, i;
      } else {
        c, k := Story(states, steps, j, t);
        k := StoryStep(states, steps, c, k, j, t);
      }
    }
  }

  // --- Theorems --------------------------------------------------------------------------

  lemma {:induction false} HistoriesGrow<T>(states: seq<State<T>>, steps: seq<Step<T>>, i: nat, j: nat)
    requires Run(states, steps) && i <= j < |states|
    ensures states[i].accepted <= states[j].accepted && states[i].taken <= states[j].taken
    decreases j
  {
    if i < j {
      HistoriesGrow(states, steps, i, j - 1);
      assert Moves(states, steps, j - 1);
      ClosedStep(states[j - 1], states[j], steps[j - 1]);
    }
  }

  predicate PushDone<T>(a: Answer<T>) {
    a == PushAnswer(Success)
  }

  function PopDone<T>(a: Answer<T>): Option<T> {
    match a
    case PopAnswer(item) => item
    case TryPopAnswer(_, item) => item
    case _ => None
  }

  /** Linearizability: whatever a call answers was decided by one critical section `k` of
      that very call, between its entry `c` and its return, as the sequential queue decides
      it in that state. A successful push put its own item at the end of `accepted`, a
      successful pop put the item it returns at the end of `taken`, and there they stay; the
      call's other sections only made it wait. */
  lemma AnswersAreLinearizable<T>(states: seq<State<T>>, steps: seq<Step<T>>, i: nat, t: nat) returns (c: nat, k: nat)
    requires Run(states, steps) && i < |states| && t < |states[i].threads| && states[i].threads[t].Returned?
    ensures CallFrom(states, steps, c, i, t)
    ensures Settles(states, steps, c, k, i, t, states[i].threads[t].answer)
    ensures var a := states[i].threads[t].answer;
            && (PushDone(a) ==>
                  && |states[k].accepted| < |states[i].accepted|
                  && states[i].accepted[|states[k].accepted|] == steps[c].entry.item)
            && (PopDone(a).Some? ==>
                  && |states[k].taken| < |states[i].taken|
                  && states[i].taken[|states[k].taken|] == PopDone(a).value)
  {
    c, k := Story(states, steps, i, t);
    HistoriesGrow(states, steps, k + 1, i);
  }

  /** Two calls are different if their threads are, or if the first ended in between. */
  ghost predicate DifferentCalls<T>(steps: seq<Step<T>>, i: nat, t: nat, j: nat, u: nat)
    requires i <= j <= |steps|
  {
    t != u || exists f :: i <= f < j && steps[f] == Finish(t)
  }

  lemma PlacesFollowSections<T>(states: seq<State<T>>, steps: seq<Step<T>>, k: nat, l: nat)
    requires Run(states, steps) && k < l < |steps|
    ensures |states[k].accepted| < |states[k + 1].accepted| ==> |states[k].accepted| < |states[l].accepted|
    ensures |states[k].taken| < |states[k + 1].taken| ==> |states[k].taken| < |states[l].taken|
  {
    HistoriesGrow(states, steps, k + 1, l);
  }

  /** No two answers share a place: the deciding sections of different calls differ, places
      in `accepted` and `taken` follow the order of the sections, and a call entered after
      another has returned comes later. */
  lemma AnswersHaveOwnPlaces<T>(states: seq<State<T>>, steps: seq<Step<T>>, i: nat, t: nat, j: nat, u: nat)
    returns (c: nat, k: nat, d: nat, l: nat)
    requires Run(states, steps) && i <= j < |states| && DifferentCalls(steps, i, t, j, u)
    requires t < |states[i].threads| && states[i].threads[t].Returned?
    requires u < |states[j].threads| && states[j].threads[u].Returned?
    ensures CallFrom(states, steps, c, i, t) && Settles(states, steps, c, k, i, t, states[i].threads[t].answer)
    ensures CallFrom(states, steps, d, j, u) && Settles(states, steps, d, l, j, u, states[j].threads[u].answer)
    ensures k != l && (i <= d ==> k < l)
    ensures PushDone(states[i].threads[t].answer) && PushDone(states[j].threads[u].answer) ==>
              (|states[k].accepted| < |states[l].accepted| <==> k < l)
              && |states[k].accepted| != |states[l].accepted|
    ensures PopDone(states[i].threads[t].answer).Some? && PopDone(states[j].threads[u].answer).Some? ==>
              (|states[k].taken| < |states[l].taken| <==> k < l)
              && |states[k].taken| != |states[l].taken|
  {
    c, k := AnswersAreLinearizable(states, steps, i, t);
    d, l := AnswersAreLinearizable(states, steps, j, u);
    if t == u {
      var f :| i <= f < j && steps[f] == Finish(t);
      assert Ends(steps[f], u);
      assert k < d;
    }
    if k < l {
      PlacesFollowSections(states, steps, k, l);
    } else {
      PlacesFollowSections(states, steps, l, k);
    }
  }

  /** Conversely every accepted item was put there by a section of a push of that item. */
  lemma {:induction false} AcceptedFromPush<T>(states: seq<State<T>>, steps: seq<Step<T>>, i: nat, n: nat) returns (k: nat)
    requires Run(states, steps) && i < |states| && n < |states[i].accepted|
    ensures k < i && steps[k].Critical? && steps[k].t < |states[k].threads|
    ensures states[k].threads[steps[k].t].PushHold? && |states[k].accepted| == n
    ensures Accepts(states[k], states[k + 1], states[i].accepted[n])
    ensures states[k].threads[steps[k].t].item == states[i].accepted[n]
    decreases i
  {
    if i == 0 {
      assert false;
    } else {
      assert Moves(states, steps, i - 1);
      ClosedStep(states[i - 1], states[i], steps[i - 1]);
      if n < |states[i - 1].accepted| {
        k := AcceptedFromPush(states, steps, i - 1, n);
      } else {
        k := i - 1;
      }
    }
  }

  /** And every item taken was handed out by a section of a pop. */
  lemma {:induction false} TakenByPop<T>(states: seq<State<T>>, steps: seq<Step<T>>, i: nat, n: nat) returns (k: nat)
    requires Run(states, steps) && i < |states| && n < |states[i].taken|
    ensures k < i && steps[k].Critical? && steps[k].t < |states[k].threads|
    ensures states[k].threads[steps[k].t].PopHold? && |states[k].taken| == n
    ensures Takes(states[k], states[k + 1], states[i].taken[n])
    decreases i
  {
    if i == 0 {
      assert false;
    } else {
      assert Moves(states, steps, i - 1);
      ClosedStep(states[i - 1], states[i], steps[i - 1]);
      if n < |states[i - 1].taken| {
        k := TakenByPop(states, steps, i - 1, n);
      } else {
        k := i - 1;
      }
    }
  }
}
