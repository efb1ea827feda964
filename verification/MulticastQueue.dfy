/** The mutex multicast queue in place. The mutex makes every operation atomic, so one call
    at a time is its whole behaviour. */
module MulticastQueue {
  import opened Results
  import opened FixedMessage
  import opened Ring
  import opened MessageSlots
  import opened Multicast

  class Consumer {
    var next: nat

    constructor (next: nat)
      ensures this.next == next
    {
      this.next := next;
    }
  }

  /** The last `c` entries of the history are in their slots. */
  ghost predicate Retained(images: seq<Image>, history: seq<Payload>, c: nat) {
    && 0 < c == |images|
    && forall p :: 0 <= p < |history| <= p + c ==> Holds(images[Index(p, c)], history[p], p + 1)
  }

  lemma RetainedPush(images: seq<Image>, images': seq<Image>, history: seq<Payload>, payload: Payload, c: nat)
    requires Retained(images, history, c) && |images'| == c
    requires Holds(images'[Index(|history|, c)], payload, |history| + 1)
    requires forall i :: 0 <= i < c && i != Index(|history|, c) ==> images'[i] == images[i]
    ensures Retained(images', history + [payload], c)
  {
    var n := |history|;
    forall p | 0 <= p < n + 1 <= p + c
      ensures Holds(images'[Index(p, c)], (history + [payload])[p], p + 1)
    {
      if p < n {
        Distinct(p, n, c);
      }
    }
  }

  class Queue {
    const capacity: nat
    const slots: Slots
    var published: nat
    ghost var history: seq<Payload>

    ghost predicate Valid()
      reads this, slots, slots.messages, slots.Storages()
    {
      && slots.Valid() && published == |history|
      && Retained(slots.View(), history, capacity)
    }

    constructor (capacity: nat, maxPayload: nat)
      requires 0 < capacity
      ensures Valid() && history == [] && this.capacity == capacity && slots.maxPayload == maxPayload
      ensures fresh(slots) && forall m :: m in slots.messages ==> fresh(m) && fresh(m.storage)
    {
      this.capacity := capacity;
      slots := new Slots(capacity, maxPayload);
      published := 0;
      history := [];
    }

    /** Registration starts at the next publication; history is not replayed. */
    method RegisterConsumer() returns (c: Consumer)
      requires Valid()
      ensures fresh(c) && c.next == |history| + 1
    {
      c := new Consumer(published + 1);
    }

    method TryPublish(payload: seq<Byte>) returns (r: WriteResult)
      requires Valid()
      modifies this`published, this`history, slots.messages, slots.Storages()
      ensures Valid()
      ensures if |payload| > slots.maxPayload
              then r == WriteResult(MessageTooLarge, 0) && history == old(history)
              else r == WriteResult(Success, |history|) && history == old(history) + [payload]
    {
      if |payload| > slots.maxPayload {
        return WriteResult(MessageTooLarge, 0);
      }
      var sequence := published + 1;
      var i := (sequence - 1) % capacity;
      assert i == Index(|history|, capacity);
      ghost var images := slots.View();
      assert slots.messages[i].storage in slots.Storages();
      r := slots.AssignAt(i, payload, sequence);
      RetainedPush(images, slots.View(), history, payload, capacity);
      published := sequence;
      history := history + [payload];
    }

    /** Every read is the specification's read; in particular `overwritten` is never
        answered, because the wanted slot is always of the wanted generation. */
    method TryRead(consumer: Consumer, destination: array<Byte>) returns (r: ReadResult)
      requires Valid() && destination !in slots.Storages() && 1 <= consumer.next
      modifies consumer, destination
      ensures var data := if r.status == Success && r.bytesRead <= destination.Length then destination[..r.bytesRead] else [];
              Reading(Answer(r, data), consumer.next) == Read(history, capacity, old(consumer.next), destination.Length)
      ensures r.status != Overwritten
      ensures var kept := if r.status == Success then r.bytesRead else 0;
              kept <= destination.Length && destination[kept..] == old(destination[..])[kept..]
    {
      if consumer.next > published {
        return ReadResult(Empty, 0, consumer.next);
      }
      var oldest := if published >= capacity then published - capacity + 1 else 1;
      if consumer.next < oldest {
        consumer.next := oldest;
        return ReadResult(ConsumerLagged, 0, oldest);
      }
      var expected := consumer.next;
      var i := (expected - 1) % capacity;
      assert i == Index(expected - 1, capacity);
      assert Holds(slots.View()[i], history[expected - 1], expected);
      if slots.messages[i].sequence != expected {
        assert false;
      }
      r := slots.CopyAt(i, destination, history[expected - 1], expected);
      if r.status == Success {
        consumer.next := consumer.next + 1;
      }
    }
  }
}
