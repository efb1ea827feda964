/** The atomic-versioned queue in place, run by one thread at a time. */
module VersionedQueue {
  import opened Results
  import opened Ring
  import opened Multicast
  import VersionedMachine
  import VersionedInvariant
  import opened MulticastQueue

  type Cell = VersionedMachine.Cell

  /** Between calls every version is even and the last `c` publications are in their cells. */
  ghost predicate Stable(cells: seq<Cell>, history: seq<Payload>, c: nat, maxPayload: nat) {
    && 0 < c == |cells|
    && (forall i :: 0 <= i < c ==> cells[i].version % 2 == 0 && |cells[i].storage| == maxPayload)
    && (forall p :: 0 <= p < |history| <= p + c ==>
          VersionedInvariant.Contains(cells[Index(p, c)], history[p], p + 1))
  }

  lemma StablePublish(cells: seq<Cell>, cell: Cell, history: seq<Payload>, payload: Payload, c: nat, maxPayload: nat)
    requires Stable(cells, history, c, maxPayload)
    requires cell.version % 2 == 0 && |cell.storage| == maxPayload
    requires VersionedInvariant.Contains(cell, payload, |history| + 1)
    ensures Stable(cells[Index(|history|, c) := cell], history + [payload], c, maxPayload)
  {
    var n := |history|;
    var cells' := cells[Index(n, c) := cell];
    forall p | 0 <= p < n + 1 <= p + c
      ensures VersionedInvariant.Contains(cells'[Index(p, c)], (history + [payload])[p], p + 1)
    {
      if p < n {
        Distinct(p, n, c);
      }
    }
  }

  class Queue {
    const capacity: nat
    const maxPayload: nat
    const cells: array<Cell>
    var produced: nat
    var published: nat
    ghost var history: seq<Payload>

    ghost predicate Valid()
      reads this, cells
    {
      && produced == published == |history|
      && Stable(cells[..], history, capacity, maxPayload)
    }

    constructor (capacity: nat, maxPayload: nat)
      requires 0 < capacity
      ensures Valid() && history == [] && this.capacity == capacity && this.maxPayload == maxPayload
      ensures fresh(cells)
      ensures VersionedMachine.Init(VersionedMachine.State(capacity, maxPayload, cells[..], produced, published,
                                                           VersionedMachine.Resting, [], []))
    {
      this.capacity := capacity;
      this.maxPayload := maxPayload;
      cells := new Cell[capacity](_ => VersionedMachine.Cell(0, 0, 0, seq(maxPayload, _ => 0)));
      produced, published := 0, 0;
      history := [];
    }

    method MakeConsumer() returns (c: Consumer)
      requires Valid()
      ensures fresh(c) && c.next == |history| + 1
    {
      c := new Consumer(published + 1);
    }

    method TryPublish(payload: seq<Byte>) returns (r: WriteResult)
      requires Valid()
      modifies this`produced, this`published, this`history, cells
      ensures Valid()
      ensures if |payload| > maxPayload
              then r == WriteResult(MessageTooLarge, 0) && history == old(history)
              else r == WriteResult(Success, |history|) && history == old(history) + [payload]
    {
      if |payload| > maxPayload {
        return WriteResult(MessageTooLarge, 0);
      }
      var sequence := produced + 1;
      var i := (sequence - 1) % capacity;
      assert i == Index(|history|, capacity);
      ghost var before := cells[..];
      WriteCell(i, sequence, payload);
      assert cells[..] == before[i := cells[i]];
      StablePublish(before, cells[i], history, payload, capacity, maxPayload);
      produced := sequence;
      published := sequence;
      history := history + [payload];
      return WriteResult(Success, sequence);
    }

    /** The seqlock write: odd version, guarded stores, even version. */
    method WriteCell(i: nat, sequence: nat, payload: seq<Byte>)
      requires i < cells.Length && |payload| <= |cells[i].storage|
      modifies cells
      ensures forall j :: 0 <= j < cells.Length && j != i ==> cells[j] == old(cells[j])
      ensures cells[i].version == old(cells[i].version) + 2 && |cells[i].storage| == |old(cells[i].storage)|
      ensures VersionedInvariant.Contains(cells[i], payload, sequence)
    {
      var version := cells[i].version;
      cells[i] := cells[i].(version := version + 1);
      cells[i] := cells[i].(sequence := sequence);
      cells[i] := cells[i].(size := |payload|);
      var index := 0;
      while index < |payload|
        invariant 0 <= index <= |payload|
        invariant forall j :: 0 <= j < cells.Length && j != i ==> cells[j] == old(cells[j])
        invariant |cells[i].storage| == |old(cells[i].storage)|
        invariant cells[i].sequence == sequence && cells[i].size == |payload|
        invariant cells[i].storage[..index] == payload[..index]
      {
        cells[i] := cells[i].(storage := cells[i].storage[index := payload[index]]);
        index := index + 1;
      }
      cells[i] := cells[i].(version := version + 2);
    }

    /** Up to 64 attempts at an unchanged even version around a full copy of the cell. */
    method Snapshot(i: nat) returns (stable: bool, sequence: nat, size: nat, scratch: seq<Byte>)
      requires i < cells.Length && |cells[i].storage| == maxPayload
      ensures stable <==> cells[i].version % 2 == 0
      ensures stable ==> sequence == cells[i].sequence && size == cells[i].size && scratch == cells[i].storage
    {
      stable, sequence, size := false, 0, 0;
      scratch := seq(maxPayload, _ => 0);
      var attempt := 0;
      while attempt < VersionedMachine.READ_ATTEMPTS
        invariant 0 <= attempt && !stable && |scratch| == maxPayload
        invariant 0 < attempt ==> cells[i].version % 2 != 0
      {
        var before := cells[i].version;
        if before % 2 != 0 {
          attempt := attempt + 1;
          continue;
        }
        sequence := cells[i].sequence;
        size := cells[i].size;
        var index := 0;
        while index < maxPayload
          invariant 0 <= index <= maxPayload == |scratch|
          invariant scratch[..index] == cells[i].storage[..index]
        {
          scratch := scratch[index := cells[i].storage[index]];
          index := index + 1;
        }
        var after := cells[i].version;
        if before == after {
          stable := true;
          break;
        }
        attempt := attempt + 1;
      }
    }

    method TryRead(consumer: Consumer, destination: array<Byte>) returns (r: ReadResult)
      requires Valid() && 1 <= consumer.next
      modifies consumer, destination
      ensures var data := if r.status == Success && r.bytesRead <= destination.Length then destination[..r.bytesRead] else [];
              Reading(Answer(r, data), consumer.next) == Read(history, capacity, old(consumer.next), destination.Length)
      ensures var kept := if r.status == Success then r.bytesRead else 0;
              kept <= destination.Length && destination[kept..] == old(destination[..])[kept..]
    {
      var boundary := published;
      if consumer.next > boundary {
        return ReadResult(Empty, 0, consumer.next);
      }
      var oldest := Oldest(boundary, capacity);
      if consumer.next < oldest {
        consumer.next := oldest;
        return ReadResult(ConsumerLagged, 0, oldest);
      }
      var want := consumer.next;
      var i := (want - 1) % capacity;
      assert i == Index(want - 1, capacity);
      assert cells[..][i] == cells[i];
      assert VersionedInvariant.Contains(cells[i], history[want - 1], want);
      var stable, storedSequence, storedSize, scratch := Snapshot(i);
      if !stable || storedSequence != want {
        assert false;
      }
      if destination.Length < storedSize {
        return ReadResult(MessageTooLarge, 0, want);
      }
      CopyOut(scratch, storedSize, destination);
      consumer.next := consumer.next + 1;
      return ReadResult(Success, storedSize, want);
    }

    /** `std::copy_n` of the scratch buffer. */
    static method CopyOut(scratch: seq<Byte>, n: nat, destination: array<Byte>)
      requires n <= |scratch| && n <= destination.Length
      modifies destination
      ensures destination[..n] == scratch[..n] && destination[n..] == old(destination[n..])
    {
      var k := 0;
      while k < n
        invariant 0 <= k <= n && destination[..k] == scratch[..k] && destination[n..] == old(destination[n..])
      {
        destination[k] := scratch[k];
        k := k + 1;
      }
    }
  }
}
