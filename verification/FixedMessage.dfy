/** The fixed-size message buffer: what it holds and what a copy out of it answers. */
module FixedMessage {
  import opened Results

  /** The value of one message buffer: `storage` has the full fixed length and only its
      first `size` bytes are meaningful. */
  datatype Image = Image(storage: seq<Byte>, size: nat, sequence: nat)

  ghost predicate Holds(m: Image, payload: Payload, sequence: nat) {
    && |payload| <= |m.storage|
    && m.size == |payload|
    && m.storage[..|payload|] == payload
    && m.sequence == sequence
  }

  /** The answer of a copy of `payload`, stamped `sequence`, into `room` bytes. */
  function CopyAnswer(payload: Payload, sequence: nat, room: nat): ReadResult {
    if room < |payload| then ReadResult(MessageTooLarge, 0, sequence)
    else ReadResult(Success, |payload|, sequence)
  }

  /** The message after one more plain store of `assign`, when `k` have been made: the
      payload bytes first, then the size, then the sequence stamp. */
  function NextStore(m: Image, payload: Payload, sequence: nat, k: nat): Image
    requires k < |payload| ==> k < |m.storage|
  {
    if k < |payload| then m.(storage := m.storage[k := payload[k]])
    else if k == |payload| then m.(size := |payload|)
    else m.(sequence := sequence)
  }

  /** `k` stores of `assign` have reached the message. */
  ghost predicate Stored(m: Image, payload: Payload, sequence: nat, k: nat) {
    && |payload| <= |m.storage| && k <= |payload| + 2
    && (forall j :: 0 <= j < k && j < |payload| ==> m.storage[j] == payload[j])
    && (|payload| < k ==> m.size == |payload|)
    && (|payload| + 1 < k ==> m.sequence == sequence)
  }

  /** The buffer itself, written and read in place. */
  class Message {
    const maxPayload: nat
    const storage: array<Byte>
    var size: nat
    var sequence: nat

    ghost predicate Valid()
      reads this
    {
      storage.Length == maxPayload && size <= maxPayload
    }

    ghost function Value(): Image
      reads this, storage
    {
      Image(storage[..], size, sequence)
    }

    constructor (maxPayload: nat)
      ensures Valid() && this.maxPayload == maxPayload && fresh(storage)
      ensures size == 0 && sequence == 0
    {
      this.maxPayload := maxPayload;
      storage := new Byte[maxPayload](_ => 0);
      size, sequence := 0, 0;
    }

    /** Overwrites the message; an oversized payload is refused and changes nothing. */
    method Assign(payload: seq<Byte>, sequence: nat) returns (r: WriteResult)
      requires Valid()
      modifies this`size, this`sequence, storage
      ensures Valid()
      ensures |payload| > maxPayload ==>
                r == WriteResult(MessageTooLarge, sequence) && Value() == old(Value())
      ensures |payload| <= maxPayload ==>
                && r == WriteResult(Success, sequence)
                && Holds(Value(), payload, sequence)
                && storage[|payload|..] == old(storage[|payload|..])
    {
      if |payload| > maxPayload {
        return WriteResult(MessageTooLarge, sequence);
      }
      var i := 0;
      while i < |payload|
        invariant 0 <= i <= |payload|
        invariant storage[..i] == payload[..i]
        invariant storage[|payload|..] == old(storage[|payload|..])
      {
        storage[i] := payload[i];
        i := i + 1;
      }
      size := |payload|;
      this.sequence := sequence;
      assert payload[..i] == payload;
      return WriteResult(Success, this.sequence);
    }

    /** Copies the message out, or refuses a destination that is too short. */
    method CopyTo(destination: array<Byte>) returns (r: ReadResult)
      requires Valid() && destination != storage
      modifies destination
      ensures r == CopyAnswer(storage[..size], sequence, destination.Length)
      ensures if destination.Length < size then r == ReadResult(MessageTooLarge, 0, sequence)
              else r == ReadResult(Success, size, sequence)
      ensures r.status == Success ==>
                && destination[..size] == storage[..size]
                && destination[size..] == old(destination[size..])
      ensures r.status != Success ==> destination[..] == old(destination[..])
    {
      if destination.Length < size {
        return ReadResult(MessageTooLarge, 0, sequence);
      }
      var i := 0;
      while i < size
        invariant 0 <= i <= size
        invariant destination[..i] == storage[..i]
        invariant destination[size..] == old(destination[size..])
      {
        destination[i] := storage[i];
        i := i + 1;
      }
      return ReadResult(Success, size, sequence);
    }
  }
}
