/** The multicast contract: an unbounded publication history of which the last `capacity`
    entries are retained, and one cursor per consumer. Sequence `s` is `history[s - 1]`. */
module Multicast {
  import opened Results

  datatype Answer = Answer(read: ReadResult, data: Payload)

  /** An answer together with the cursor it leaves behind. */
  datatype Reading = Reading(answer: Answer, cursor: nat)

  function Oldest(published: nat, capacity: nat): nat {
    if published >= capacity then published - capacity + 1 else 1
  }

  /** One read, taken at one instant. */
  function Read(history: seq<Payload>, capacity: nat, cursor: nat, room: nat): Reading
    requires 1 <= cursor
  {
    var oldest := Oldest(|history|, capacity);
    if |history| < cursor then
      Reading(Answer(ReadResult(Empty, 0, cursor), []), cursor)
    else if cursor < oldest then
      Reading(Answer(ReadResult(ConsumerLagged, 0, oldest), []), oldest)
    else
      var payload := history[cursor - 1];
      if room < |payload|
      then Reading(Answer(ReadResult(MessageTooLarge, 0, cursor), []), cursor)
      else Reading(Answer(ReadResult(Success, |payload|, cursor), payload), cursor + 1)
  }

  /** `n` reads in a row with nothing published in between. */
  function Reads(history: seq<Payload>, capacity: nat, cursor: nat, room: nat, n: nat): (seq<Answer>, nat)
    requires 1 <= cursor
    ensures |Reads(history, capacity, cursor, room, n).0| == n
    ensures 1 <= Reads(history, capacity, cursor, room, n).1
  {
    if n == 0 then ([], cursor)
    else
      var (answers, c) := Reads(history, capacity, cursor, room, n - 1);
      var r := Read(history, capacity, c, room);
      (answers + [r.answer], r.cursor)
  }

  /** Where a consumer resumes once publishing has stopped. */
  function ResumeAt(history: seq<Payload>, capacity: nat, cursor: nat): nat {
    if cursor < Oldest(|history|, capacity) then Oldest(|history|, capacity) else cursor
  }

  /** How many reads a consumer needs to get past everything retained. */
  function CatchUpLength(history: seq<Payload>, capacity: nat, cursor: nat): nat
    requires 1 <= cursor <= |history| + 1
    requires 0 < capacity
  {
    (if cursor < Oldest(|history|, capacity) then 1 else 0)
    + (|history| + 1 - ResumeAt(history, capacity, cursor))
  }

  /** Bounded catch-up: with room for every payload, a consumer that keeps reading after the
      last publication gets at most one `consumer_lagged`, then every retained sequence from
      its resume point on, in order, at most `capacity` of them, and then only `empty`. */
  lemma {:induction false} CatchUp(history: seq<Payload>, capacity: nat, cursor: nat, room: nat, n: nat)
    requires 0 < capacity && 1 <= cursor <= |history| + 1
    requires forall k :: 0 <= k < |history| ==> |history[k]| <= room
    ensures CatchUpLength(history, capacity, cursor) <= capacity + 1
    ensures var (answers, c) := Reads(history, capacity, cursor, room, n);
            var lag := if cursor < Oldest(|history|, capacity) then 1 else 0;
            var from := ResumeAt(history, capacity, cursor);
            var total := CatchUpLength(history, capacity, cursor);
            && (forall i :: 0 <= i < n && i < lag ==>
                  answers[i] == Answer(ReadResult(ConsumerLagged, 0, from), []))
            && (forall i :: lag <= i < n && i < total ==>
                  var payload := history[from + (i - lag) - 1];
                  answers[i] == Answer(ReadResult(Success, |payload|, from + (i - lag)), payload))
            && (forall i :: total <= i < n ==>
                  answers[i] == Answer(ReadResult(Empty, 0, |history| + 1), []))
            && c == if n == 0 then cursor
                    else if n <= total then from + (n - lag)
                    else |history| + 1
  {
    if n > 0 {
      CatchUp(history, capacity, cursor, room, n - 1);
    }
  }

  /** `Oldest` is the first sequence that less than `capacity` later ones have followed. */
  lemma RetainedExactly(published: nat, capacity: nat, n: nat)
    requires 0 < capacity && 1 <= n <= published
    ensures Oldest(published, capacity) <= n <==> published < n + capacity
    ensures 1 <= Oldest(published, capacity) <= published
  {
  }

  /** Reads in a row with the given destination sizes and nothing published in between. */
  function ReadAll(history: seq<Payload>, capacity: nat, cursor: nat, rooms: seq<nat>): (r: (seq<Answer>, nat))
    requires 1 <= cursor
    ensures |r.0| == |rooms| && 1 <= r.1
  {
    if rooms == [] then ([], cursor)
    else
      var n := |rooms| - 1;
      var (answers, c) := ReadAll(history, capacity, cursor, rooms[..n]);
      var r := Read(history, capacity, c, rooms[n]);
      (answers + [r.answer], r.cursor)
  }

  /** A short destination costs nothing: however often a retained message is read with too
      little room, the answer is `message_too_large` with its sequence and the cursor stays,
      so that a read with enough room then gets the whole message. */
  lemma {:induction false} ShortReadsKeep(history: seq<Payload>, capacity: nat, cursor: nat, rooms: seq<nat>, room: nat)
    requires 1 <= cursor <= |history| < cursor + capacity
    requires forall k :: 0 <= k < |rooms| ==> rooms[k] < |history[cursor - 1]|
    requires |history[cursor - 1]| <= room
    ensures var (answers, c) := ReadAll(history, capacity, cursor, rooms);
            && c == cursor
            && forall k :: 0 <= k < |rooms| ==> answers[k] == Answer(ReadResult(MessageTooLarge, 0, cursor), [])
    ensures var payload := history[cursor - 1];
            ReadAll(history, capacity, cursor, rooms + [room])
            == (ReadAll(history, capacity, cursor, rooms).0
                + [Answer(ReadResult(Success, |payload|, cursor), payload)], cursor + 1)
  {
    assert (rooms + [room])[..|rooms|] == rooms;
    if rooms != [] {
      ShortReadsKeep(history, capacity, cursor, rooms[..|rooms| - 1], room);
    }
  }
}
