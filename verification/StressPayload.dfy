/** The payload comparison of the stress harness. */
module StressPayload {
  import opened Results

  /** A destination of `room` zero bytes after `data` was copied into it. */
  function Filled(data: Payload, room: nat): (bytes: Payload)
    ensures |data| <= room ==> |bytes| == room && bytes[..|data|] == data
    ensures |data| <= room ==> forall i :: |data| <= i < room ==> bytes[i] == 0
    ensures |data| == room ==> bytes == data
  {
    data + if |data| <= room then seq(room - |data|, _ => 0) else []
  }
}
