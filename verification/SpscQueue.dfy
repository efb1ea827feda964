/** The single-producer single-consumer ring in place, run by one thread at a time. */
module SpscQueue {
  import opened Results
  import opened FixedMessage
  import opened Fifo
  import opened Ring
  import opened MessageSlots

  class Queue {
    const capacity: nat
    const slots: Slots
    var head: nat
    var tail: nat
    ghost var pushed: seq<Payload>

    ghost predicate Valid()
      reads this, slots, slots.messages, slots.Storages()
    {
      && 0 < capacity == |slots.messages| && slots.Valid()
      && tail <= head <= tail + capacity && |pushed| == head
      && forall p :: tail <= p < head ==> Holds(slots.View()[Index(p, capacity)], pushed[p], p + 1)
    }

    /** The messages held, oldest first. */
    ghost function Contents(): seq<Item>
      reads this
      requires tail <= head <= |pushed|
    {
      Window(pushed, tail, head)
    }

    constructor (capacity: nat, maxPayload: nat)
      requires 0 < capacity
      ensures Valid() && Contents() == [] && this.capacity == capacity && slots.maxPayload == maxPayload
      ensures fresh(slots) && forall m :: m in slots.messages ==> fresh(m) && fresh(m.storage)
    {
      this.capacity := capacity;
      slots := new Slots(capacity, maxPayload);
      head, tail := 0, 0;
      pushed := [];
    }

    /** The throwing constructor: a capacity of zero makes no queue. */
    static method Create(capacity: nat, maxPayload: nat) returns (q: Option<Queue>)
      ensures q.None? <==> capacity == 0
      ensures q.Some? ==> q.value.Valid() && fresh(q.value) && q.value.Contents() == [] && q.value.capacity == capacity
    {
      if capacity == 0 {
        return None;
      }
      var made := new Queue(capacity, maxPayload);
      q := Some(made);
    }

    method TryPush(payload: seq<Byte>) returns (r: WriteResult)
      requires Valid()
      modifies this`head, this`pushed, slots.messages, slots.Storages()
      ensures Valid()
      ensures |payload| > slots.maxPayload ==>
                r == WriteResult(MessageTooLarge, 0) && Contents() == old(Contents())
      ensures |payload| <= slots.maxPayload && |old(Contents())| == capacity ==>
                r == WriteResult(Full, 0) && Contents() == old(Contents())
      ensures |payload| <= slots.maxPayload && |old(Contents())| < capacity ==>
                && r == WriteResult(Success, old(head) + 1)
                && Contents() == old(Contents()) + [Item(payload, r.sequence)]
    {
      if |payload| > slots.maxPayload {
        return WriteResult(MessageTooLarge, 0);
      }
      var h := head;
      if h - tail == capacity {
        return WriteResult(Full, 0);
      }
      var sequence := h + 1;
      forall p | tail <= p < h
        ensures Index(p, capacity) != Index(h, capacity)
      {
        Distinct(p, h, capacity);
      }
      r := slots.AssignAt(Index(h, capacity), payload, sequence);
      WindowPush(pushed, tail, h, payload);
      head := sequence;
      pushed := pushed + [payload];
    }

    /** A success removes the oldest message; a short destination leaves it in place. */
    method TryPop(destination: array<Byte>) returns (r: ReadResult)
      requires Valid() && destination !in slots.Storages()
      modifies this`tail, destination
      ensures Valid()
      ensures old(Contents()) == [] ==> r == ReadResult(Empty, 0, 0) && Contents() == []
      ensures old(Contents()) != [] ==>
                var front := old(Contents())[0];
                && r == CopyAnswer(front.payload, front.sequence, destination.Length)
                && (if r.status == Success
                    then && Contents() == old(Contents())[1..] && destination[..r.bytesRead] == front.payload
                         && destination[r.bytesRead..] == old(destination[..])[r.bytesRead..]
                    else Contents() == old(Contents()) && destination[..] == old(destination[..]))
    {
      var t := tail;
      if t == head {
        return ReadResult(Empty, 0, 0);
      }
      WindowPop(pushed, t, head);
      r := slots.CopyAt(Index(t, capacity), destination, pushed[t], t + 1);
      if r.status == Success {
        tail := t + 1;
      }
    }

    method IsEmpty() returns (b: bool)
      requires Valid()
      ensures b <==> Contents() == []
    {
      b := head == tail;
    }

    method IsFull() returns (b: bool)
      requires Valid()
      ensures b <==> |Contents()| == capacity
    {
      b := head - tail == capacity;
    }
  }
}
