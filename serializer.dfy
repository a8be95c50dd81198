/**
 * `serialize_with_capacity`: one greedy left-to-right pass that writes as many
 * queued events as fit into a JSON array buffer smaller than the payload cap,
 * rolls back the first event that does not fit, and leaves it (and everything
 * after it) in the queue.
 */
module Serializer {
  import opened Common
  import opened LogEvents

  const Open: byte := 0x5B   // '['
  const Comma: byte := 0x2C  // ','
  const Close: byte := 0x5D  // ']'

  /** A queued event together with its estimated JSON size. */
  datatype Item = Item(event: Event, estimatedJsonSize: nat)

  /** The byte-size accumulator: how many events were added and their total estimated size. */
  datatype CountByteSize = CountByteSize(count: nat, bytes: nat)
  {
    function AddEvent(estimatedJsonSize: nat): CountByteSize
    {
      CountByteSize(count + 1, bytes + estimatedJsonSize)
    }
  }

  /** The JSON encoding of one event (`serde_json::to_writer`), which may fail. */
  type Encoder = Event -> Result<seq<byte>, IoError>

  /** What a successful pass returns: the events written, the buffer, and the byte size. */
  datatype Serialized = Serialized(events: seq<Event>, buf: seq<byte>, byteSize: CountByteSize)

  /** The pass's result together with what is left in the queue afterwards. */
  datatype PassOutcome = PassOutcome(result: Result<Serialized, IoError>, remaining: seq<Item>)

  /** The encodings joined with commas. */
  function Join(parts: seq<seq<byte>>): seq<byte>
  {
    if |parts| == 0 then []
    else if |parts| == 1 then parts[0]
    else Join(parts[..|parts| - 1]) + [Comma] + parts[|parts| - 1]
  }

  /** A JSON array of the given encodings. */
  function Frame(parts: seq<seq<byte>>): seq<byte>
  {
    [Open] + Join(parts) + [Close]
  }

  function EventsOf(items: seq<Item>): (events: seq<Event>)
    ensures |events| == |items|
    ensures forall i :: 0 <= i < |items| ==> events[i] == items[i].event
  {
    if items == [] then [] else EventsOf(items[..|items| - 1]) + [items[|items| - 1].event]
  }

  /** The accumulator after one `add_event` per item, in order. */
  function Accumulated(items: seq<Item>): CountByteSize
  {
    if items == [] then CountByteSize(0, 0)
    else Accumulated(items[..|items| - 1]).AddEvent(items[|items| - 1].estimatedJsonSize)
  }

  function TotalEstimated(items: seq<Item>): nat
  {
    if items == [] then 0 else TotalEstimated(items[..|items| - 1]) + items[|items| - 1].estimatedJsonSize
  }

  predicate AllEncode(encode: Encoder, items: seq<Item>)
  {
    forall i :: 0 <= i < |items| ==> encode(items[i].event).Success?
  }

  function Encodings(encode: Encoder, items: seq<Item>): (parts: seq<seq<byte>>)
    requires AllEncode(encode, items)
    ensures |parts| == |items|
    ensures forall i :: 0 <= i < |items| ==> parts[i] == encode(items[i].event).value
  {
    if items == [] then []
    else Encodings(encode, items[..|items| - 1]) + [encode(items[|items| - 1].event).value]
  }

  /**
   * The loop of `serialize_with_capacity`, written as recursion over the queue:
   * `buf` is the buffer so far, `first` whether no event was written yet, `done`
   * the events written and `size` the accumulator.
   */
  function PassLoop(encode: Encoder, maxBytes: nat, queue: seq<Item>, buf: seq<byte>, first: bool,
                    done: seq<Event>, size: CountByteSize): PassOutcome
    decreases |queue|
  {
    if queue == [] then PassOutcome(Success(Serialized(done, buf + [Close], size)), [])
    else
      var item := queue[0];
      var existingLen := |buf|;
      var separated := if first then buf else buf + [Comma];
      match encode(item.event)
      case Failure(e) => PassOutcome(Failure(e), queue[1..])
      case Success(bytes) =>
        var written := separated + bytes;
        if |written| >= maxBytes then
          // roll back: truncate to the previous length and push the event back
          PassOutcome(Success(Serialized(done, written[..existingLen] + [Close], size)), queue)
        else
          PassLoop(encode, maxBytes, queue[1..], written, false, done + [item.event],
                   size.AddEvent(item.estimatedJsonSize))
  }

  /** The first `k` items encode, were written within the cap, and item `k` fails to encode with `e`. */
  ghost predicate FailsAt(encode: Encoder, maxBytes: nat, items: seq<Item>, k: nat, e: IoError)
  {
    && k < |items|
    && AllEncode(encode, items[..k])
    && (k > 0 ==> 1 + |Join(Encodings(encode, items[..k]))| < maxBytes)
    && encode(items[k].event) == Failure(e)
  }

  /**
   * The outcome of one greedy pass over `items`.  On success the pass wrote the
   * longest prefix whose array stays below the cap, each committed step kept the
   * buffer below `maxBytes`, the next event (if any) would have reached it, and
   * the queue keeps exactly the rest, the rejected event first.  On failure an
   * event failed to encode, and that event and the ones before it have left the queue.
   */
  ghost predicate Greedy(encode: Encoder, maxBytes: nat, items: seq<Item>, out: PassOutcome)
  {
    match out.result
    case Success(s) =>
      var n := |s.events|;
      && n <= |items|
      && AllEncode(encode, items[..n])
      && s.events == EventsOf(items[..n])
      && out.remaining == items[n..]
      && s.buf == Frame(Encodings(encode, items[..n]))
      && s.byteSize == Accumulated(items[..n])
      && (n > 0 ==> 1 + |Join(Encodings(encode, items[..n]))| < maxBytes)
      && (n < |items| ==>
            && encode(items[n].event).Success?
            && 1 + |Join(Encodings(encode, items[..n]))| + (if n == 0 then 0 else 1)
                 + |encode(items[n].event).value| >= maxBytes)
    case Failure(e) =>
      exists k: nat :: FailsAt(encode, maxBytes, items, k, e) && out.remaining == items[k + 1..]
  }

  lemma JoinAppend(parts: seq<seq<byte>>, b: seq<byte>)
    ensures Join(parts + [b]) == Join(parts) + (if parts == [] then [] else [Comma]) + b
  {
    assert (parts + [b])[..|parts|] == parts;
  }

  lemma EncodingsAppend(encode: Encoder, items: seq<Item>, item: Item)
    requires AllEncode(encode, items) && encode(item.event).Success?
    ensures AllEncode(encode, items + [item])
    ensures Encodings(encode, items + [item]) == Encodings(encode, items) + [encode(item.event).value]
  {
    assert AllEncode(encode, items + [item]) by {
      forall i | 0 <= i < |items + [item]| ensures encode((items + [item])[i].event).Success? {
        if i < |items| { assert (items + [item])[i] == items[i]; }
      }
    }
    assert (items + [item])[..|items|] == items;
  }

  /** The pass ends when the queue runs out: everything was written. */
  lemma GreedyWhenExhausted(encode: Encoder, maxBytes: nat, items: seq<Item>)
    requires AllEncode(encode, items)
    requires items != [] ==> 1 + |Join(Encodings(encode, items))| < maxBytes
    ensures Greedy(encode, maxBytes, items,
                   PassOutcome(Success(Serialized(EventsOf(items), Frame(Encodings(encode, items)), Accumulated(items))), []))
  {
    assert items[..|items|] == items;
    assert items[|items|..] == [];
  }

  /** The pass stops before `items[n]`, which would have reached the cap. */
  lemma GreedyWhenFull(encode: Encoder, maxBytes: nat, items: seq<Item>, n: nat)
    requires n < |items|
    requires AllEncode(encode, items[..n])
    requires n > 0 ==> 1 + |Join(Encodings(encode, items[..n]))| < maxBytes
    requires encode(items[n].event).Success?
    requires 1 + |Join(Encodings(encode, items[..n]))| + (if n == 0 then 0 else 1)
               + |encode(items[n].event).value| >= maxBytes
    ensures Greedy(encode, maxBytes, items,
                   PassOutcome(Success(Serialized(EventsOf(items[..n]), Frame(Encodings(encode, items[..n])),
                                                  Accumulated(items[..n]))), items[n..]))
  {
  }

  /** The recursion of `PassLoop` from any committed prefix is a greedy pass over the whole queue. */
  lemma {:induction false} PassLoopIsGreedy(encode: Encoder, maxBytes: nat, prefix: seq<Item>, queue: seq<Item>)
    requires AllEncode(encode, prefix)
    requires prefix != [] ==> 1 + |Join(Encodings(encode, prefix))| < maxBytes
    ensures Greedy(encode, maxBytes, prefix + queue,
                   PassLoop(encode, maxBytes, queue, [Open] + Join(Encodings(encode, prefix)), prefix == [],
                            EventsOf(prefix), Accumulated(prefix)))
    decreases |queue|
  {
    var buf := [Open] + Join(Encodings(encode, prefix));
    var out := PassLoop(encode, maxBytes, queue, buf, prefix == [], EventsOf(prefix), Accumulated(prefix));
    if queue == [] {
      assert prefix + queue == prefix;
      GreedyWhenExhausted(encode, maxBytes, prefix);
    } else if encode(queue[0].event).Failure? {
      var e := encode(queue[0].event).error;
      assert out == PassOutcome(Failure(e), queue[1..]);
      var items := prefix + queue;
      assert items[..|prefix|] == prefix && items[|prefix|] == queue[0];
      assert FailsAt(encode, maxBytes, items, |prefix|, e);
      assert items[|prefix| + 1..] == queue[1..];
    } else {
      var bytes := encode(queue[0].event).value;
      var written := (if prefix == [] then buf else buf + [Comma]) + bytes;
      if |written| >= maxBytes {
        GreedyStopStep(encode, maxBytes, prefix, queue);
      } else {
        var prefix' := prefix + [queue[0]];
        EncodingsAppend(encode, prefix, queue[0]);
        JoinAppend(Encodings(encode, prefix), bytes);
        assert written == [Open] + Join(Encodings(encode, prefix'));
        assert prefix'[..|prefix'| - 1] == prefix;
        assert EventsOf(prefix') == EventsOf(prefix) + [queue[0].event];
        assert Accumulated(prefix') == Accumulated(prefix).AddEvent(queue[0].estimatedJsonSize);
        assert out == PassLoop(encode, maxBytes, queue[1..], written, false, EventsOf(prefix'), Accumulated(prefix'));
        assert prefix' + queue[1..] == prefix + queue;
        PassLoopIsGreedy(encode, maxBytes, prefix', queue[1..]);
      }
    }
  }

  /** The rollback step of `PassLoop`: the head of the queue would reach the cap. */
  lemma GreedyStopStep(encode: Encoder, maxBytes: nat, prefix: seq<Item>, queue: seq<Item>)
    requires AllEncode(encode, prefix)
    requires prefix != [] ==> 1 + |Join(Encodings(encode, prefix))| < maxBytes
    requires queue != [] && encode(queue[0].event).Success?
    requires |([Open] + Join(Encodings(encode, prefix))) + (if prefix == [] then [] else [Comma])
              + encode(queue[0].event).value| >= maxBytes
    ensures Greedy(encode, maxBytes, prefix + queue,
                   PassLoop(encode, maxBytes, queue, [Open] + Join(Encodings(encode, prefix)), prefix == [],
                            EventsOf(prefix), Accumulated(prefix)))
  {
    var buf := [Open] + Join(Encodings(encode, prefix));
    var bytes := encode(queue[0].event).value;
    var written := (if prefix == [] then buf else buf + [Comma]) + bytes;
    assert written[..|buf|] == buf;
    assert PassLoop(encode, maxBytes, queue, buf, prefix == [], EventsOf(prefix), Accumulated(prefix))
        == PassOutcome(Success(Serialized(EventsOf(prefix), buf + [Close], Accumulated(prefix))), queue);
    var items := prefix + queue;
    assert items[..|prefix|] == prefix && items[|prefix|] == queue[0] && items[|prefix|..] == queue;
    GreedyWhenFull(encode, maxBytes, items, |prefix|);
  }

  /** `serialize_with_capacity` as a function of the queue: the outcome is the greedy pass. */
  function SerializePass(encode: Encoder, maxBytes: nat, items: seq<Item>): (out: PassOutcome)
    ensures Greedy(encode, maxBytes, items, out)
  {
    PassLoopIsGreedy(encode, maxBytes, [], items);
    assert [] + items == items;
    assert [Open] + Join(Encodings(encode, [])) == [Open];
    assert EventsOf([]) == [] && Accumulated([]) == CountByteSize(0, 0);
    PassLoop(encode, maxBytes, items, [Open], true, [], CountByteSize(0, 0))
  }

  function SumLengths(parts: seq<seq<byte>>): nat
  {
    if parts == [] then 0 else SumLengths(parts[..|parts| - 1]) + |parts[|parts| - 1]|
  }

  /** The joined encodings are the encodings plus one comma between each two. */
  lemma {:induction false} JoinLength(parts: seq<seq<byte>>)
    ensures |Join(parts)| == SumLengths(parts) + (if parts == [] then 0 else |parts| - 1)
  {
    if |parts| > 1 {
      JoinLength(parts[..|parts| - 1]);
    }
  }

  /** Every single encoding is no longer than the joined encodings. */
  lemma {:induction false} JoinCoversParts(parts: seq<seq<byte>>, i: nat)
    requires i < |parts|
    ensures |parts[i]| <= |Join(parts)|
  {
    if |parts| > 1 && i < |parts| - 1 {
      JoinCoversParts(parts[..|parts| - 1], i);
    }
  }

  lemma {:induction false} AccumulatedCounts(items: seq<Item>)
    ensures Accumulated(items) == CountByteSize(|items|, TotalEstimated(items))
  {
    if items != [] {
      AccumulatedCounts(items[..|items| - 1]);
    }
  }

  lemma EventsOfAppend(a: seq<Item>, b: seq<Item>)
    ensures EventsOf(a + b) == EventsOf(a) + EventsOf(b)
  {
    assert forall i :: 0 <= i < |a + b| ==> (a + b)[i] == if i < |a| then a[i] else b[i - |a|];
  }

  /**
   * Nothing is lost and the order is kept: the events written followed by the
   * events left in the queue are the events of the queue before the pass.  On an
   * encoding error the queue keeps a proper suffix of what it held.
   */
  lemma SerializeKeepsOrder(encode: Encoder, maxBytes: nat, items: seq<Item>)
    ensures var out := SerializePass(encode, maxBytes, items);
      && (out.result.Success? ==> out.result.value.events + EventsOf(out.remaining) == EventsOf(items))
      && (out.result.Failure? ==> |out.remaining| < |items| && out.remaining == items[|items| - |out.remaining|..])
  {
    var out := SerializePass(encode, maxBytes, items);
    match out.result
    case Success(s) =>
      var n := |s.events|;
      assert items == items[..n] + items[n..];
      EventsOfAppend(items[..n], items[n..]);
    case Failure(e) =>
      var k: nat :| FailsAt(encode, maxBytes, items, k, e) && out.remaining == items[k + 1..];
  }

  /**
   * The cap is respected: the finished buffer, closing bracket included, is no
   * longer than `maxBytes` whenever at least one event was written (and the
   * empty array `[]` is all there is otherwise).  Its event count is the number
   * of `add_event` calls.
   */
  lemma SerializeRespectsCap(encode: Encoder, maxBytes: nat, items: seq<Item>)
    ensures var out := SerializePass(encode, maxBytes, items);
      out.result.Success? ==>
        && (|out.result.value.events| > 0 ==> |out.result.value.buf| <= maxBytes)
        && (|out.result.value.events| == 0 ==> out.result.value.buf == [Open, Close])
        && out.result.value.byteSize.count == |out.result.value.events|
        && out.result.value.byteSize.bytes == TotalEstimated(items[..|out.result.value.events|])
  {
    var out := SerializePass(encode, maxBytes, items);
    if out.result.Success? {
      AccumulatedCounts(items[..|out.result.value.events|]);
    }
  }

  /**
   * The no-progress case: the pass writes nothing from a non-empty queue
   * exactly when the first event does not fit alone behind `[`; the queue is
   * then unchanged and the buffer is `[]`.
   */
  lemma SerializeNoProgress(encode: Encoder, maxBytes: nat, items: seq<Item>)
    requires items != []
    ensures var out := SerializePass(encode, maxBytes, items);
      && ((out.result.Success? && out.result.value.events == [])
          <==> (encode(items[0].event).Success? && 1 + |encode(items[0].event).value| >= maxBytes))
      && (out.result.Success? && out.result.value.events == [] ==>
            out.remaining == items && out.result.value.buf == [Open, Close])
  {
    var out := SerializePass(encode, maxBytes, items);
    match out.result
    case Success(s) =>
      if s.events != [] {
        var parts := Encodings(encode, items[..|s.events|]);
        JoinCoversParts(parts, 0);
      }
    case Failure(e) =>
      var k: nat :| FailsAt(encode, maxBytes, items, k, e) && out.remaining == items[k + 1..];
      if k > 0 {
        JoinCoversParts(Encodings(encode, items[..k]), 0);
      }
  }

  /** With a 100-byte cap and three 40-byte encodings, the first two are written
      (`[`, 40 bytes, `,`, 40 bytes, `]`: 83 bytes) and the third stays queued. */
  lemma SerializeThreeFortyByteEvents(encode: Encoder, items: seq<Item>)
    requires |items| == 3
    requires forall i :: 0 <= i < 3 ==> encode(items[i].event).Success? && |encode(items[i].event).value| == 40
    ensures var out := SerializePass(encode, 100, items);
      && out.result.Success?
      && out.result.value.events == [items[0].event, items[1].event]
      && |out.result.value.buf| == 83
      && out.remaining == [items[2]]
  {
    var out := SerializePass(encode, 100, items);
    assert AllEncode(encode, items);
    assert out.result.Success?;
    var s := out.result.value;
    var n := |s.events|;
    var parts := Encodings(encode, items[..n]);
    JoinLength(parts);
    assert SumLengths(parts) == 40 * n by {
      if n >= 1 { assert parts[..1] == [parts[0]]; }
      if n >= 2 { assert parts[..2][..1] == parts[..1]; }
      if n >= 3 { assert parts[..3] == parts; assert parts[..3][..2] == parts[..2]; }
      SumLengthsOfFortyByteParts(parts);
    }
  }

  lemma {:induction false} SumLengthsOfFortyByteParts(parts: seq<seq<byte>>)
    requires forall i :: 0 <= i < |parts| ==> |parts[i]| == 40
    ensures SumLengths(parts) == 40 * |parts|
  {
    if parts != [] {
      SumLengthsOfFortyByteParts(parts[..|parts| - 1]);
    }
  }

  /** The event queue (a `VecDeque`), updated in place by the pass. */
  class EventQueue {
    var items: seq<Item>

    constructor (items: seq<Item>)
      ensures this.items == items
    {
      this.items := items;
    }

    predicate IsEmpty()
      reads this
      ensures IsEmpty() <==> |items| == 0
    {
      items == []
    }

    method PopFront() returns (front: Option<Item>)
      modifies this
      ensures old(items) == [] ==> front == None && items == []
      ensures old(items) != [] ==> front == Some(old(items)[0]) && items == old(items)[1..]
    {
      if items == [] {
        front := None;
      } else {
        front := Some(items[0]);
        items := items[1..];
      }
    }

    method PushFront(item: Item)
      modifies this
      ensures items == [item] + old(items)
    {
      items := [item] + items;
    }
  }

  /**
   * `serialize_with_capacity`: pops events from the queue and writes them into a
   * JSON array until the queue is empty or the next event would bring the buffer
   * to `maxBytes`; that event is rolled back and pushed back on the queue.
   */
  method SerializeWithCapacity(events: EventQueue, encode: Encoder, maxBytes: nat)
    returns (r: Result<Serialized, IoError>)
    modifies events
    ensures PassOutcome(r, events.items) == SerializePass(encode, maxBytes, old(events.items))
    ensures Greedy(encode, maxBytes, old(events.items), PassOutcome(r, events.items))
  {
    var buf: seq<byte> := [Open];
    var byteSize := CountByteSize(0, 0);
    var eventsSerialized: seq<Event> := [];
    var first := true;
    while true
      invariant SerializePass(encode, maxBytes, old(events.items))
             == PassLoop(encode, maxBytes, events.items, buf, first, eventsSerialized, byteSize)
      decreases |events.items|
    {
      var next := events.PopFront();
      if next.None? {
        break;
      }
      var item := next.value;
      var existingLen := |buf|;
      if first {
        first := false;
      } else {
        buf := buf + [Comma];
      }
      var encoded := encode(item.event);
      if encoded.Failure? {
        return Failure(encoded.error);
      }
      buf := buf + encoded.value;
      if |buf| >= maxBytes {
        events.PushFront(item);
        buf := buf[..existingLen];
        break;
      }
      byteSize := byteSize.AddEvent(item.estimatedJsonSize);
      eventsSerialized := eventsSerialized + [item.event];
    }
    buf := buf + [Close];
    r := Success(Serialized(eventsSerialized, buf, byteSize));
  }
}
