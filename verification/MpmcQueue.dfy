/** The sequence-cell ring in place, run by one thread at a time: the retry loops of the
    code with a weak compare-and-exchange that may fail spuriously. */
module MpmcQueue {
  import opened Results
  import opened FixedMessage
  import opened Fifo
  import opened Ring
  import opened Capacity
  import opened MessageSlots

  // --- The cells as values ---------------------------------------------------------------

  /** Cell sequences when every claimed position is published or released. */
  ghost predicate SequencesOk(sequences: seq<nat>, e: nat, d: nat, c: nat) {
    && 0 < c == |sequences|
    && forall q :: e <= q < e + c ==> sequences[Index(q, c)] == if q < d + c then q else q - c + 1
  }

  ghost predicate HeldOk(images: seq<Image>, history: seq<Payload>, e: nat, d: nat, c: nat) {
    && 0 < c == |images| && e <= |history|
    && forall p :: d <= p < e ==> Holds(images[Index(p, c)], history[p], p + 1)
  }

  lemma SequencesPush(sequences: seq<nat>, e: nat, d: nat, c: nat)
    requires SequencesOk(sequences, e, d, c) && d <= e < d + c
    ensures SequencesOk(sequences[Index(e, c) := e + 1], e + 1, d, c)
  {
    Lap(e, c);
    forall q | e + 1 <= q < e + 1 + c
      ensures sequences[Index(e, c) := e + 1][Index(q, c)] == if q < d + c then q else q - c + 1
    {
      if q != e + c {
        Distinct(e, q, c);
      }
    }
  }

  lemma SequencesPop(sequences: seq<nat>, e: nat, d: nat, c: nat)
    requires SequencesOk(sequences, e, d, c) && d < e <= d + c
    ensures SequencesOk(sequences[Index(d, c) := d + c], e, d + 1, c)
  {
    Lap(d, c);
    forall q | e <= q < e + c
      ensures sequences[Index(d, c) := d + c][Index(q, c)] == if q < d + 1 + c then q else q - c + 1
    {
      if q != d + c {
        DistinctEither(q, d + c, c);
      }
    }
  }

  lemma HeldPush(images: seq<Image>, images': seq<Image>, history: seq<Payload>, payload: Payload, e: nat, d: nat, c: nat)
    requires HeldOk(images, history, e, d, c) && d <= e < d + c && e == |history| && |images'| == c
    requires Holds(images'[Index(e, c)], payload, e + 1)
    requires forall i :: 0 <= i < c && i != Index(e, c) ==> images'[i] == images[i]
    ensures HeldOk(images', history + [payload], e + 1, d, c)
  {
    forall p | d <= p < e + 1
      ensures Holds(images'[Index(p, c)], (history + [payload])[p], p + 1)
    {
      if p < e {
        Distinct(p, e, c);
      }
    }
  }

  // --- The queue -------------------------------------------------------------------------

  class Queue {
    const capacity: nat
    const mask: nat
    const slots: Slots
    const sequences: array<nat>
    var enqueuePos: nat
    var dequeuePos: nat
    ghost var history: seq<Payload>

    /** The ring is settled at enqueue position `e` and dequeue position `d`. */
    ghost predicate Settled(e: nat, d: nat)
      reads this`history, sequences, slots, slots.messages, slots.Storages()
    {
      && ValidateCapacity(capacity) == Some(capacity) && mask == capacity - 1
      && slots.Valid() && d <= e <= d + capacity && |history| == e
      && SequencesOk(sequences[..], e, d, capacity)
      && HeldOk(slots.View(), history, e, d, capacity)
    }

    ghost predicate Valid()
      reads this, sequences, slots, slots.messages, slots.Storages()
    {
      Settled(enqueuePos, dequeuePos)
    }

    ghost function Contents(): seq<Item>
      reads this
      requires dequeuePos <= enqueuePos <= |history|
    {
      Window(history, dequeuePos, enqueuePos)
    }

    constructor (capacity: nat, maxPayload: nat)
      requires ValidateCapacity(capacity) == Some(capacity)
      ensures Valid() && Contents() == [] && this.capacity == capacity && slots.maxPayload == maxPayload
      ensures fresh(slots) && fresh(sequences) && forall m :: m in slots.messages ==> fresh(m) && fresh(m.storage)
    {
      this.capacity := capacity;
      mask := capacity - 1;
      slots := new Slots(capacity, maxPayload);
      sequences := new nat[capacity](i => i);
      enqueuePos, dequeuePos := 0, 0;
      history := [];
      new;
      forall q | 0 <= q < capacity
        ensures Index(q, capacity) == q
      {
        FirstLap(q, capacity);
      }
    }

    /** The throwing constructor. */
    static method Create(capacity: nat, maxPayload: nat) returns (q: Option<Queue>)
      ensures q.Some? <==> exists k: nat :: 1 <= k && capacity == Pow2(k)
      ensures q.Some? ==> q.value.Valid() && fresh(q.value) && q.value.Contents() == [] && q.value.capacity == capacity
    {
      AcceptsExactlyPowersOfTwo(capacity);
      if capacity < 2 || BitAnd(capacity, capacity - 1) != 0 {
        return None;
      }
      var made := new Queue(capacity, maxPayload);
      q := Some(made);
    }

    /** The retry loop of `try_push`. `spurious` is how often the weak compare-and-exchange
        fails for no reason. */
    method ClaimPush(spurious: nat) returns (claimed: bool, position: nat)
      requires Valid()
      modifies this`enqueuePos
      ensures position == old(enqueuePos)
      ensures claimed <==> |old(Contents())| < capacity
      ensures enqueuePos == if claimed then position + 1 else position
    {
      position := enqueuePos;
      var failures := spurious;
      while true
        invariant position == enqueuePos == old(enqueuePos)
        decreases failures
      {
        MaskIsModulo(position, capacity);
        var sequence := sequences[BitAnd(position, mask)];
        if sequence == position {
          if failures == 0 {
            enqueuePos := position + 1;
            return true, position;
          }
          failures := failures - 1;
          position := enqueuePos;
        } else if sequence < position {
          return false, position;
        } else {
          assert false;
        }
      }
    }

    method TryPush(payload: seq<Byte>, spurious: nat) returns (r: WriteResult)
      requires Valid()
      modifies this`enqueuePos, this`history, sequences, slots.messages, slots.Storages()
      ensures Valid()
      ensures |payload| > slots.maxPayload ==>
                r == WriteResult(MessageTooLarge, 0) && Contents() == old(Contents())
      ensures |payload| <= slots.maxPayload && |old(Contents())| == capacity ==>
                r == WriteResult(Full, 0) && Contents() == old(Contents())
      ensures |payload| <= slots.maxPayload && |old(Contents())| < capacity ==>
                && r == WriteResult(Success, old(enqueuePos) + 1)
                && Contents() == old(Contents()) + [Item(payload, r.sequence)]
    {
      if |payload| > slots.maxPayload {
        return WriteResult(MessageTooLarge, 0);
      }
      var claimed, position := ClaimPush(spurious);
      if !claimed {
        return WriteResult(Full, 0);
      }
      MaskIsModulo(position, capacity);
      r := Fill(BitAnd(position, mask), position, payload);
      WindowPush(old(history), dequeuePos, position, payload);
    }

    /** Assign and publish under a claimed position. */
    method Fill(cell: nat, position: nat, payload: seq<Byte>) returns (r: WriteResult)
      requires Settled(position, dequeuePos) && position < dequeuePos + capacity
      requires enqueuePos == position + 1 && cell == Index(position, capacity) && |payload| <= slots.maxPayload
      modifies this`history, sequences, slots.messages, slots.Storages()
      ensures Valid() && history == old(history) + [payload]
      ensures r == WriteResult(Success, position + 1)
    {
      ghost var images := slots.View();
      ghost var marks: seq<nat> := sequences[..];
      assert slots.messages[cell].storage in slots.Storages();
      r := slots.AssignAt(cell, payload, position + 1);
      sequences[cell] := position + 1;
      assert sequences[..] == marks[cell := position + 1];
      SequencesPush(marks, position, dequeuePos, capacity);
      HeldPush(images, slots.View(), history, payload, position, dequeuePos, capacity);
      history := history + [payload];
    }

    /** The retry loop of `try_pop`. */
    method ClaimPop(spurious: nat) returns (claimed: bool, position: nat)
      requires Valid()
      modifies this`dequeuePos
      ensures position == old(dequeuePos)
      ensures claimed <==> old(Contents()) != []
      ensures dequeuePos == if claimed then position + 1 else position
    {
      position := dequeuePos;
      var failures := spurious;
      while true
        invariant position == dequeuePos == old(dequeuePos)
        decreases failures
      {
        MaskIsModulo(position, capacity);
        Lap(position, capacity);
        var sequence := sequences[BitAnd(position, mask)];
        if sequence == position + 1 {
          if failures == 0 {
            dequeuePos := position + 1;
            return true, position;
          }
          failures := failures - 1;
          position := dequeuePos;
        } else if sequence < position + 1 {
          return false, position;
        } else {
          assert false;
        }
      }
    }

    /** A claimed message cannot be put back: a short destination consumes it. */
    method TryPop(destination: array<Byte>, spurious: nat) returns (r: ReadResult)
      requires Valid() && destination !in slots.Storages()
      modifies this`dequeuePos, sequences, destination
      ensures Valid()
      ensures old(Contents()) == [] ==> r == ReadResult(Empty, 0, 0) && Contents() == []
      ensures old(Contents()) != [] ==>
                var front := old(Contents())[0];
                && r == CopyAnswer(front.payload, front.sequence, destination.Length)
                && Contents() == old(Contents())[1..]
                && (if r.status == Success
                    then && destination[..r.bytesRead] == front.payload
                         && destination[r.bytesRead..] == old(destination[..])[r.bytesRead..]
                    else destination[..] == old(destination[..]))
    {
      var claimed, position := ClaimPop(spurious);
      if !claimed {
        return ReadResult(Empty, 0, 0);
      }
      WindowPop(history, position, enqueuePos);
      MaskIsModulo(position, capacity);
      r := Drain(BitAnd(position, mask), position, destination);
    }

    /** Copy and release under a claimed position. */
    method Drain(cell: nat, position: nat, destination: array<Byte>) returns (r: ReadResult)
      requires Settled(enqueuePos, position) && position < enqueuePos && destination !in slots.Storages()
      requires dequeuePos == position + 1 && cell == Index(position, capacity)
      modifies sequences, destination
      ensures Valid() && r == CopyAnswer(history[position], position + 1, destination.Length)
      ensures if r.status == Success
              then && destination[..r.bytesRead] == history[position]
                   && destination[r.bytesRead..] == old(destination[..])[r.bytesRead..]
              else destination[..] == old(destination[..])
    {
      ghost var images := slots.View();
      ghost var marks: seq<nat> := sequences[..];
      r := slots.CopyAt(cell, destination, history[position], position + 1);
      assert slots.View() == images;
      sequences[cell] := position + capacity;
      assert sequences[..] == marks[cell := position + capacity];
      SequencesPop(marks, enqueuePos, position, capacity);
    }

    method IsEmpty() returns (b: bool)
      requires Valid()
      ensures b <==> Contents() == []
    {
      var position := dequeuePos;
      MaskIsModulo(position, capacity);
      Lap(position, capacity);
      var sequence := sequences[BitAnd(position, mask)];
      b := sequence < position + 1;
    }
  }
}
