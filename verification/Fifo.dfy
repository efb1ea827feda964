/** The sequential specification of the work-sharing queues: a bounded FIFO whose
    accepted items are numbered 1, 2, 3, ... in acceptance order. */
module Fifo {
  import opened Results

  datatype Item = Item(payload: Payload, sequence: nat)

  datatype Event =
    | Enqueue(thread: nat, item: Item)
    | Dequeue(thread: nat, item: Item)

  datatype Queue = Queue(items: seq<Item>, accepted: nat)

  /** One sequential operation; `None` when the specification does not allow it. */
  function Apply(q: Queue, e: Event, capacity: nat): Option<Queue> {
    match e
    case Enqueue(_, item) =>
      if |q.items| < capacity && item.sequence == q.accepted + 1
      then Some(Queue(q.items + [item], q.accepted + 1)) else None
    case Dequeue(_, item) =>
      if q.items != [] && q.items[0] == item
      then Some(Queue(q.items[1..], q.accepted)) else None
  }

  /** Runs a whole log from the empty queue. */
  function Replay(log: seq<Event>, capacity: nat): Option<Queue> {
    if log == [] then Some(Queue([], 0))
    else
      match Replay(log[..|log| - 1], capacity)
      case None => None
      case Some(q) => Apply(q, log[|log| - 1], capacity)
  }

  function Enqueued(log: seq<Event>): seq<Item> {
    if log == [] then []
    else
      var e := log[|log| - 1];
      Enqueued(log[..|log| - 1]) + if e.Enqueue? then [e.item] else []
  }

  function Dequeued(log: seq<Event>): seq<Item> {
    if log == [] then []
    else
      var e := log[|log| - 1];
      Dequeued(log[..|log| - 1]) + if e.Dequeue? then [e.item] else []
  }

  lemma ReplayAppend(log: seq<Event>, e: Event, capacity: nat)
    requires Replay(log, capacity).Some?
    ensures Replay(log + [e], capacity) == Apply(Replay(log, capacity).value, e, capacity)
  {
    assert (log + [e])[..|log|] == log;
  }

  /** The items are numbered 1, 2, 3, ... */
  ghost predicate Numbered(items: seq<Item>) {
    forall k :: 0 <= k < |items| ==> items[k].sequence == k + 1
  }

  /** One event keeps the account of a log. */
  lemma LegalEvent(enqueued: seq<Item>, dequeued: seq<Item>, q: Queue, e: Event, capacity: nat)
    requires enqueued == dequeued + q.items && |q.items| <= capacity
    requires |enqueued| == q.accepted && Numbered(enqueued)
    requires Apply(q, e, capacity).Some?
    ensures var q' := Apply(q, e, capacity).value;
            var enqueued' := enqueued + if e.Enqueue? then [e.item] else [];
            var dequeued' := dequeued + if e.Dequeue? then [e.item] else [];
            && enqueued' == dequeued' + q'.items && |q'.items| <= capacity
            && |enqueued'| == q'.accepted && Numbered(enqueued')
  {
    if e.Dequeue? {
      assert q.items == [e.item] + q.items[1..];
    }
  }

  /** What a legal log means: the dequeued items are a prefix of the enqueued ones, in
      order and without repetition, the rest is what the queue holds, and the numbering
      is 1, 2, 3, ... */
  lemma {:induction false} LegalLog(log: seq<Event>, capacity: nat)
    requires Replay(log, capacity).Some?
    ensures var q := Replay(log, capacity).value;
            && Enqueued(log) == Dequeued(log) + q.items
            && |q.items| <= capacity
            && |Enqueued(log)| == q.accepted
            && Numbered(Enqueued(log))
  {
    if log != [] {
      var prefix, e := log[..|log| - 1], log[|log| - 1];
      LegalLog(prefix, capacity);
      LegalEvent(Enqueued(prefix), Dequeued(prefix), Replay(prefix, capacity).value, e, capacity);
    }
  }

  /** No message is delivered twice: two dequeue events of a legal log at different
      places carry different sequence numbers. */
  lemma {:induction false} DequeueAt(log: seq<Event>, i: nat, capacity: nat)
    requires Replay(log, capacity).Some?
    requires i < |log| && log[i].Dequeue?
    ensures |Dequeued(log[..i])| < |Dequeued(log)|
    ensures Dequeued(log)[|Dequeued(log[..i])|] == log[i].item
    ensures log[i].item.sequence == |Dequeued(log[..i])| + 1
  {
    LegalLog(log, capacity);
    var last := |log| - 1;
    if i < last {
      assert log[..last][..i] == log[..i];
      DequeueAt(log[..last], i, capacity);
    }
    var k := |Dequeued(log[..i])|;
    assert Enqueued(log)[k] == Dequeued(log)[k];
  }

  lemma NoDoubleDelivery(log: seq<Event>, i: nat, j: nat, capacity: nat)
    requires Replay(log, capacity).Some?
    requires i < j < |log| && log[i].Dequeue? && log[j].Dequeue?
    ensures log[i].item.sequence < log[j].item.sequence
  {
    DequeueAt(log, j, capacity);
    PrefixLegal(log, j, capacity);
    assert log[..j][..i] == log[..i];
    DequeueAt(log[..j], i, capacity);
  }

  lemma {:induction false} PrefixLegal(log: seq<Event>, n: nat, capacity: nat)
    requires Replay(log, capacity).Some? && n <= |log|
    ensures Replay(log[..n], capacity).Some?
  {
    if n < |log| {
      assert log[..|log| - 1][..n] == log[..n];
      PrefixLegal(log[..|log| - 1], n, capacity);
    } else {
      assert log[..n] == log;
    }
  }

  /** Positions `lo..hi` of a push history, as queue items. */
  function Window(history: seq<Payload>, lo: nat, hi: nat): (items: seq<Item>)
    requires lo <= hi <= |history|
    ensures |items| == hi - lo
  {
    seq(hi - lo, i requires 0 <= i < hi - lo => Item(history[lo + i], lo + i + 1))
  }

  lemma WindowPush(history: seq<Payload>, lo: nat, hi: nat, payload: Payload)
    requires lo <= hi == |history|
    ensures Window(history + [payload], lo, hi + 1)
            == Window(history, lo, hi) + [Item(payload, hi + 1)]
  {
  }

  lemma WindowPop(history: seq<Payload>, lo: nat, hi: nat)
    requires lo < hi <= |history|
    ensures Window(history, lo, hi)[0] == Item(history[lo], lo + 1)
    ensures Window(history, lo, hi)[1..] == Window(history, lo + 1, hi)
  {
  }
}
