/** The two multicast queues answer every sequence of operations alike. */
module Lockstep {
  import opened Results
  import opened Multicast
  import opened MulticastQueue
  import VersionedQueue

  datatype Op = Publish(payload: Payload) | Register | ReadWith(consumer: nat, room: nat)

  datatype Reply = Wrote(write: WriteResult) | Joined(cursor: nat) | Got(answer: Answer, cursor: nat) | NoConsumer

  /** History, cursors and everything answered so far. */
  datatype Model = Model(history: seq<Payload>, cursors: seq<nat>, replies: seq<Reply>)

  predicate Sane(m: Model) {
    forall i :: 0 <= i < |m.cursors| ==> 1 <= m.cursors[i]
  }

  function Respond(m: Model, op: Op, capacity: nat, maxPayload: nat): (m': Model)
    requires Sane(m)
    ensures Sane(m')
  {
    match op
    case Publish(payload) =>
      if |payload| > maxPayload then m.(replies := m.replies + [Wrote(WriteResult(MessageTooLarge, 0))])
      else m.(history := m.history + [payload],
              replies := m.replies + [Wrote(WriteResult(Success, |m.history| + 1))])
    case Register =>
      m.(cursors := m.cursors + [|m.history| + 1], replies := m.replies + [Joined(|m.history| + 1)])
    case ReadWith(c, room) =>
      if c >= |m.cursors| then m.(replies := m.replies + [NoConsumer])
      else
        var r := Read(m.history, capacity, m.cursors[c], room);
        m.(cursors := m.cursors[c := r.cursor], replies := m.replies + [Got(r.answer, r.cursor)])
  }

  function Execute(ops: seq<Op>, capacity: nat, maxPayload: nat): (m: Model)
    ensures Sane(m)
  {
    if ops == [] then Model([], [], [])
    else Respond(Execute(ops[..|ops| - 1], capacity, maxPayload), ops[|ops| - 1], capacity, maxPayload)
  }

  /** The payloads that were small enough to be published, in order. */
  function Accepted(ops: seq<Op>, maxPayload: nat): seq<Payload> {
    if ops == [] then []
    else
      var op := ops[|ops| - 1];
      Accepted(ops[..|ops| - 1], maxPayload)
      + if op.Publish? && |op.payload| <= maxPayload then [op.payload] else []
  }

  function Joins(ops: seq<Op>): nat {
    if ops == [] then 0 else Joins(ops[..|ops| - 1]) + if ops[|ops| - 1].Register? then 1 else 0
  }

  /** The history is what was accepted, every registration has its cursor, and every
      operation its reply. */
  lemma {:induction false} ExecuteMeans(ops: seq<Op>, capacity: nat, maxPayload: nat)
    ensures var m := Execute(ops, capacity, maxPayload);
            m.history == Accepted(ops, maxPayload) && |m.cursors| == Joins(ops) && |m.replies| == |ops|
  {
    if ops != [] {
      ExecuteMeans(ops[..|ops| - 1], capacity, maxPayload);
    }
  }

  lemma {:induction false} EarlierReplies(ops: seq<Op>, capacity: nat, maxPayload: nat, k: nat)
    requires k <= |ops|
    ensures Execute(ops[..k], capacity, maxPayload).replies <= Execute(ops, capacity, maxPayload).replies
  {
    if k == |ops| {
      assert ops[..k] == ops;
    } else {
      var n := |ops| - 1;
      assert ops[..n][..k] == ops[..k];
      EarlierReplies(ops[..n], capacity, maxPayload, k);
    }
  }

  /** The reply to each operation, from what was accepted before it. A publication gets the
      number of accepted payloads, a registration the next number; a read is answered from
      the retained part of the accepted payloads at the consumer's cursor, which becomes the
      cursor in the reply, and no other cursor moves. */
  lemma ReplyMeans(ops: seq<Op>, capacity: nat, maxPayload: nat, k: nat)
    requires k < |ops|
    ensures |Execute(ops, capacity, maxPayload).replies| == |ops|
    ensures var m, m' := Execute(ops[..k], capacity, maxPayload), Execute(ops[..k + 1], capacity, maxPayload);
            var reply := Execute(ops, capacity, maxPayload).replies[k];
            match ops[k]
            case Publish(payload) =>
              && m'.cursors == m.cursors
              && reply == Wrote(if |payload| > maxPayload then WriteResult(MessageTooLarge, 0)
                                else WriteResult(Success, |Accepted(ops[..k], maxPayload)| + 1))
            case Register =>
              && reply == Joined(|Accepted(ops[..k], maxPayload)| + 1)
              && m'.cursors == m.cursors + [|Accepted(ops[..k], maxPayload)| + 1]
            case ReadWith(c, room) =>
              if c >= Joins(ops[..k]) then reply == NoConsumer && m'.cursors == m.cursors
              else
                && reply.Got? && c < |m.cursors| && m'.cursors == m.cursors[c := reply.cursor]
                && Reading(reply.answer, reply.cursor)
                   == Read(Accepted(ops[..k], maxPayload), capacity, m.cursors[c], room)
  {
    assert ops[..k + 1][..k] == ops[..k];
    ExecuteMeans(ops, capacity, maxPayload);
    ExecuteMeans(ops[..k], capacity, maxPayload);
    ExecuteMeans(ops[..k + 1], capacity, maxPayload);
    EarlierReplies(ops, capacity, maxPayload, k + 1);
  }

  /** One consumer reading again and again. */
  function ReadsBy(c: nat, rooms: seq<nat>): (ops: seq<Op>)
    ensures |ops| == |rooms| && forall k :: 0 <= k < |rooms| ==> ops[k] == ReadWith(c, rooms[k])
  {
    seq(|rooms|, k requires 0 <= k < |rooms| => ReadWith(c, rooms[k]))
  }

  /** In both queues: a retained message survives any number of reads with too little room,
      each answered `message_too_large`, and the next read with enough room delivers it. */
  lemma {:induction false} ShortReadsAreHarmless(ops: seq<Op>, capacity: nat, maxPayload: nat, c: nat,
                                                 rooms: seq<nat>, room: nat)
    requires c < |Execute(ops, capacity, maxPayload).cursors|
    requires var m := Execute(ops, capacity, maxPayload);
             && m.cursors[c] <= |m.history| < m.cursors[c] + capacity
             && (forall k :: 0 <= k < |rooms| ==> rooms[k] < |m.history[m.cursors[c] - 1]|)
             && |m.history[m.cursors[c] - 1]| <= room
    ensures var m := Execute(ops, capacity, maxPayload);
            var n := m.cursors[c];
            && Execute(ops + ReadsBy(c, rooms), capacity, maxPayload)
               == m.(replies := m.replies + seq(|rooms|, _ => Got(Answer(ReadResult(MessageTooLarge, 0, n), []), n)))
            && Execute(ops + ReadsBy(c, rooms) + [ReadWith(c, room)], capacity, maxPayload).replies
               == Execute(ops + ReadsBy(c, rooms), capacity, maxPayload).replies
                  + [Got(Answer(ReadResult(Success, |m.history[n - 1]|, n), m.history[n - 1]), n + 1)]
  {
    var all := ops + ReadsBy(c, rooms);
    assert (all + [ReadWith(c, room)])[..|all|] == all;
    if rooms == [] {
      assert all == ops;
    } else {
      var k := |rooms| - 1;
      ShortReadsAreHarmless(ops, capacity, maxPayload, c, rooms[..k], room);
      assert all[..|all| - 1] == ops + ReadsBy(c, rooms[..k]);
      var m := Execute(ops, capacity, maxPayload);
      var reply := Got(Answer(ReadResult(MessageTooLarge, 0, m.cursors[c]), []), m.cursors[c]);
      assert seq(|rooms|, _ => reply) == seq(k, _ => reply) + [reply];
      assert m.cursors[c := m.cursors[c]] == m.cursors;
    }
  }

  /** The handles, one object each, hold the cursors of the model. */
  ghost predicate Matches(consumers: seq<Consumer>, cursors: seq<nat>)
    reads consumers
  {
    && |consumers| == |cursors|
    && (forall i :: 0 <= i < |consumers| ==> consumers[i].next == cursors[i])
    && (forall i, j :: 0 <= i < j < |consumers| ==> consumers[i] != consumers[j])
  }

  function ReplyTo(r: ReadResult, bytes: seq<Byte>, cursor: nat): Reply {
    Got(Answer(r, if r.status == Success && r.bytesRead <= |bytes| then bytes[..r.bytesRead] else []), cursor)
  }

  method StepMulticast(q: MulticastQueue.Queue, consumers: seq<Consumer>, op: Op, ghost m: Model)
    returns (consumers': seq<Consumer>, reply: Reply)
    requires q.Valid() && q.history == m.history && Sane(m) && Matches(consumers, m.cursors)
    modifies q, q.slots.messages, q.slots.Storages(), consumers
    ensures var m' := Respond(m, op, q.capacity, q.slots.maxPayload);
            && q.Valid() && q.history == m'.history && Matches(consumers', m'.cursors)
            && m'.replies == m.replies + [reply]
    ensures consumers <= consumers' && forall i :: |consumers| <= i < |consumers'| ==> fresh(consumers'[i])
  {
    consumers' := consumers;
    match op {
      case Publish(payload) =>
        var w := q.TryPublish(payload);
        reply := Wrote(w);
      case Register =>
        var c := q.RegisterConsumer();
        consumers' := consumers + [c];
        reply := Joined(c.next);
      case ReadWith(i, room) =>
        if i < |consumers| {
          var destination := new Byte[room](_ => 0);
          var r := q.TryRead(consumers[i], destination);
          reply := ReplyTo(r, destination[..], consumers[i].next);
        } else {
          reply := NoConsumer;
        }
    }
  }

  /** The mutex queue answers as the bounded view of the unbounded history says. */
  method RunMulticast(ops: seq<Op>, capacity: nat, maxPayload: nat) returns (replies: seq<Reply>)
    requires 0 < capacity
    ensures replies == Execute(ops, capacity, maxPayload).replies
  {
    var q := new MulticastQueue.Queue(capacity, maxPayload);
    var consumers: seq<Consumer> := [];
    replies := [];
    ghost var m := Model([], [], []);
    var k := 0;
    while k < |ops|
      invariant 0 <= k <= |ops| && m == Execute(ops[..k], capacity, maxPayload)
      invariant q.Valid() && q.history == m.history && replies == m.replies
      invariant q.capacity == capacity && q.slots.maxPayload == maxPayload
      invariant fresh(q) && fresh(q.slots.messages) && fresh(q.slots.Storages())
      invariant (forall i :: 0 <= i < |consumers| ==> fresh(consumers[i])) && Matches(consumers, m.cursors)
    {
      assert ops[..k + 1][..k] == ops[..k];
      var reply;
      consumers, reply := StepMulticast(q, consumers, ops[k], m);
      m := Respond(m, ops[k], capacity, maxPayload);
      replies := replies + [reply];
      k := k + 1;
    }
    assert ops[..k] == ops;
  }

  method StepVersioned(q: VersionedQueue.Queue, consumers: seq<Consumer>, op: Op, ghost m: Model)
    returns (consumers': seq<Consumer>, reply: Reply)
    requires q.Valid() && q.history == m.history && Sane(m) && Matches(consumers, m.cursors)
    modifies q, q.cells, consumers
    ensures var m' := Respond(m, op, q.capacity, q.maxPayload);
            && q.Valid() && q.history == m'.history && Matches(consumers', m'.cursors)
            && m'.replies == m.replies + [reply]
    ensures consumers <= consumers' && forall i :: |consumers| <= i < |consumers'| ==> fresh(consumers'[i])
  {
    consumers' := consumers;
    match op {
      case Publish(payload) =>
        var w := q.TryPublish(payload);
        reply := Wrote(w);
      case Register =>
        var c := q.MakeConsumer();
        consumers' := consumers + [c];
        reply := Joined(c.next);
      case ReadWith(i, room) =>
        if i < |consumers| {
          var destination := new Byte[room](_ => 0);
          var r := q.TryRead(consumers[i], destination);
          reply := ReplyTo(r, destination[..], consumers[i].next);
        } else {
          reply := NoConsumer;
        }
    }
  }

  /** So does the versioned queue. */
  method RunVersioned(ops: seq<Op>, capacity: nat, maxPayload: nat) returns (replies: seq<Reply>)
    requires 0 < capacity
    ensures replies == Execute(ops, capacity, maxPayload).replies
  {
    var q := new VersionedQueue.Queue(capacity, maxPayload);
    var consumers: seq<Consumer> := [];
    replies := [];
    ghost var m := Model([], [], []);
    var k := 0;
    while k < |ops|
      invariant 0 <= k <= |ops| && m == Execute(ops[..k], capacity, maxPayload)
      invariant q.Valid() && q.history == m.history && replies == m.replies
      invariant q.capacity == capacity && q.maxPayload == maxPayload
      invariant fresh(q) && fresh(q.cells)
      invariant (forall i :: 0 <= i < |consumers| ==> fresh(consumers[i])) && Matches(consumers, m.cursors)
    {
      assert ops[..k + 1][..k] == ops[..k];
      var reply;
      consumers, reply := StepVersioned(q, consumers, ops[k], m);
      m := Respond(m, ops[k], capacity, maxPayload);
      replies := replies + [reply];
      k := k + 1;
    }
    assert ops[..k] == ops;
  }

  /** Identical results and cursors on every sequence of operations run one at a time. */
  method RunBoth(ops: seq<Op>, capacity: nat, maxPayload: nat)
    returns (mutexReplies: seq<Reply>, versionedReplies: seq<Reply>)
    requires 0 < capacity
    ensures mutexReplies == versionedReplies == Execute(ops, capacity, maxPayload).replies
    ensures |mutexReplies| == |ops|
    ensures forall k :: 0 <= k < |mutexReplies| && mutexReplies[k].Got? ==>
              mutexReplies[k].answer.read.status != Overwritten
  {
    mutexReplies := RunMulticast(ops, capacity, maxPayload);
    versionedReplies := RunVersioned(ops, capacity, maxPayload);
    NeverOverwritten(ops, capacity, maxPayload);
    ExecuteMeans(ops, capacity, maxPayload);
  }

  lemma {:induction false} NeverOverwritten(ops: seq<Op>, capacity: nat, maxPayload: nat)
    ensures forall k :: 0 <= k < |Execute(ops, capacity, maxPayload).replies|
                        && Execute(ops, capacity, maxPayload).replies[k].Got? ==>
              Execute(ops, capacity, maxPayload).replies[k].answer.read.status != Overwritten
  {
    if ops != [] {
      NeverOverwritten(ops[..|ops| - 1], capacity, maxPayload);
    }
  }
}
