/** Result codes and payload types shared by the queues. */
module Results {
  newtype Byte = x: int | 0 <= x < 256

  type Payload = seq<Byte>

  datatype Option<+T> = None | Some(value: T)

  datatype Status =
    | Success
    | Empty
    | Full
    | Closed
    | MessageTooLarge
    | InvalidCapacity
    | ConsumerLagged
    | Overwritten

  datatype WriteResult = WriteResult(status: Status, sequence: nat)

  datatype ReadResult = ReadResult(status: Status, bytesRead: nat, sequence: nat)
}
