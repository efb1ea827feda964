/** A fixed vector of message buffers, the storage of the ring queues. */
module MessageSlots {
  import opened Results
  import opened FixedMessage

  class Slots {
    const maxPayload: nat
    const messages: seq<Message>

    ghost function Storages(): set<array<Byte>> {
      set m | m in messages :: m.storage
    }

    /** All buffers are usable and none shares its object or its storage with another. */
    ghost predicate Valid()
      reads messages
    {
      && (forall i :: 0 <= i < |messages| ==> messages[i].Valid() && messages[i].maxPayload == maxPayload)
      && (forall i, j :: 0 <= i < j < |messages| ==>
            messages[i] != messages[j] && messages[i].storage != messages[j].storage)
    }

    ghost function View(): (images: seq<Image>)
      reads messages, Storages()
      ensures |images| == |messages|
      ensures forall i :: 0 <= i < |messages| ==> images[i] == messages[i].Value()
    {
      seq(|messages|, i requires 0 <= i < |messages| reads messages, Storages() => messages[i].Value())
    }

    constructor (count: nat, maxPayload: nat)
      ensures Valid() && |messages| == count && this.maxPayload == maxPayload
      ensures forall m :: m in messages ==> fresh(m) && fresh(m.storage)
    {
      var made: seq<Message> := [];
      while |made| < count
        invariant |made| <= count
        invariant forall m :: m in made ==> fresh(m) && fresh(m.storage)
        invariant forall i :: 0 <= i < |made| ==> made[i].Valid() && made[i].maxPayload == maxPayload
        invariant forall i, j :: 0 <= i < j < |made| ==> made[i] != made[j] && made[i].storage != made[j].storage
      {
        var m := new Message(maxPayload);
        made := made + [m];
      }
      this.maxPayload := maxPayload;
      messages := made;
    }

    method AssignAt(i: nat, payload: seq<Byte>, sequence: nat) returns (r: WriteResult)
      requires Valid() && i < |messages| && |payload| <= maxPayload
      modifies messages[i], messages[i].storage
      ensures Valid() && r == WriteResult(Success, sequence)
      ensures Holds(View()[i], payload, sequence)
      ensures forall j :: 0 <= j < |messages| && j != i ==> View()[j] == old(View()[j])
    {
      r := messages[i].Assign(payload, sequence);
    }

    method CopyAt(i: nat, destination: array<Byte>, ghost payload: seq<Byte>, ghost sequence: nat) returns (r: ReadResult)
      requires Valid() && i < |messages| && destination !in Storages()
      requires Holds(View()[i], payload, sequence)
      modifies destination
      ensures r == CopyAnswer(payload, sequence, destination.Length)
      ensures r.status == Success ==>
                && destination[..|payload|] == payload
                && destination[|payload|..] == old(destination[|payload|..])
      ensures r.status != Success ==> destination[..] == old(destination[..])
    {
      assert messages[i].storage in Storages();
      r := messages[i].CopyTo(destination);
    }
  }
}
