/**
 * `LogRequestBuilder`: turns one batch of events that share an API key into
 * requests for the logs intake.  Each event is normalised and transformed,
 * then the queue is cut into payloads by repeated `serialize_with_capacity`
 * passes; an event too large for a payload of its own is dropped with a
 * `ComponentEventsDropped` signal.  `BuildLoop` states the outcome as a
 * function of the prepared queue and `BuildRequest` computes it in place.
 */
module RequestBuilder {
  import opened Common
  import opened LogEvents
  import opened Normalize
  import opened Serializer

  /** `RequestBuildError`. */
  datatype BuildError =
    | PayloadTooBig(eventsThatFit: nat)
    | Io(error: IoError)
    | Json(description: string)

  /** The configured compression; a compressor may fail while writing. */
  datatype Compression =
    | Uncompressed
    | Compressed(compressor: seq<byte> -> Result<seq<byte>, IoError>)

  /** The request metadata: event count, the accumulated event byte size and the payload length. */
  datatype RequestMetadata = RequestMetadata(eventCount: nat, eventsByteSize: CountByteSize, encodedSize: nat)

  /** `LogApiRequest`. */
  datatype LogApiRequest = LogApiRequest(
    apiKey: string,
    finalizers: seq<Finalizer>,
    compressed: bool,
    metadata: RequestMetadata,
    uncompressedSize: nat,
    body: seq<byte>)

  /** `ComponentEventsDropped`: how many events, whether intentionally, and why. */
  datatype EventsDropped = EventsDropped(count: nat, intentional: bool, reason: string)

  const TooLargeReason := "Event too large to encode."
  const TooLarge := EventsDropped(1, false, TooLargeReason)

  datatype LogRequestBuilder = LogRequestBuilder(
    defaultApiKey: string,
    transform: LogData -> LogData,
    compression: Compression,
    conformsAsAgent: bool)

  /** What the builder takes from the rest of the sink: the reserved semantic
      attributes, the JSON encoder of an event's log, the estimated encoded size
      of an event, and `MAX_PAYLOAD_BYTES`. */
  datatype Environment = Environment(
    reservedAttrs: ReservedAttrs,
    encode: Encoder,
    estimate: Event -> nat,
    maxPayloadBytes: nat)

  /** Writing the whole buffer through the compressor. */
  function Compress(c: Compression, buf: seq<byte>): Result<seq<byte>, IoError>
  {
    match c
    case Uncompressed => Success(buf)
    case Compressed(f) => f(buf)
  }

  ghost predicate CompressionInfallible(c: Compression)
  {
    c.Compressed? ==> forall bs :: c.compressor(bs).Success?
  }

  /**
   * `finish_request`: fails, with an I/O error, exactly when compressing
   * fails.  Otherwise the request carries the key, the events' finalizers and
   * the compressed body, and its uncompressed size is the buffer's length
   * whether or not compression is on.
   */
  function FinishRequest(b: LogRequestBuilder, buf: seq<byte>, events: seq<Event>,
                         byteSize: CountByteSize, apiKey: string): (r: Result<LogApiRequest, BuildError>)
    ensures r.Failure? <==> Compress(b.compression, buf).Failure?
    ensures r.Failure? ==> r.error == Io(Compress(b.compression, buf).error)
    ensures r.Success? ==>
      && r.value.apiKey == apiKey
      && r.value.finalizers == FinalizersOf(events)
      && r.value.compressed == b.compression.Compressed?
      && r.value.metadata.eventCount == |events|
      && r.value.uncompressedSize == |buf|
      && r.value.metadata.encodedSize == |r.value.body|
      && r.value.body == Compress(b.compression, buf).value
      && r.value.metadata.eventsByteSize == byteSize
      && (b.compression.Uncompressed? ==> r.value.body == buf)
  {
    match Compress(b.compression, buf)
    case Failure(e) => Failure(Io(e))
    case Success(bytes) =>
      var uncompressedSize := if b.compression.Compressed? then |buf| else |bytes|;
      Success(LogApiRequest(apiKey, FinalizersOf(events), b.compression.Compressed?,
                            RequestMetadata(|events|, byteSize, |bytes|), uncompressedSize, bytes))
  }

  /** One event as `build_request` queues it: normalised, conformed to the agent
      format when configured, transformed, and paired with its estimated size.
      Its finalizers and API key are untouched. */
  function PrepareEvent(b: LogRequestBuilder, env: Environment, event: Event): (item: Item)
    ensures item.event.metadata.finalizers == event.metadata.finalizers
    ensures item.event.metadata.datadogApiKey == event.metadata.datadogApiKey
    ensures item.estimatedJsonSize == env.estimate(item.event)
  {
    var normalized := NormalizeEventSpec(event.Log(), event.metadata.meanings, env.reservedAttrs);
    var conformed := if b.conformsAsAgent then NormalizeAsAgent(normalized, env.reservedAttrs) else normalized;
    var transformed := b.transform(conformed);
    var e := Event(transformed.value, event.metadata.(value := transformed.metadata));
    Item(e, env.estimate(e))
  }

  /** The whole batch, prepared in order; each event keeps its partition and finalizers. */
  function PrepareAll(b: LogRequestBuilder, env: Environment, events: seq<Event>): (items: seq<Item>)
    ensures |items| == |events|
    ensures forall i :: 0 <= i < |events| ==>
      && Partition(items[i].event) == Partition(events[i])
      && items[i].event.metadata.finalizers == events[i].metadata.finalizers
  {
    seq(|events|, i requires 0 <= i < |events| => PrepareEvent(b, env, events[i]))
  }

  /** The requests built (or the error that discarded them), and the drop signals emitted on the way. */
  datatype BuildOutcome = BuildOutcome(result: Result<seq<LogApiRequest>, BuildError>, dropped: seq<EventsDropped>)

  /** `rest`, preceded by requests and drop signals produced earlier. */
  function After(requests: seq<LogApiRequest>, dropped: seq<EventsDropped>, rest: BuildOutcome): BuildOutcome
  {
    BuildOutcome(
      match rest.result
      case Success(rs) => Success(requests + rs)
      case Failure(e) => Failure(e),
      dropped + rest.dropped)
  }

  /** The loop of `build_request` over the prepared queue, as recursion: each
      pass either yields a request, or drops the head event, or ends the build with an error. */
  function BuildLoop(b: LogRequestBuilder, env: Environment, apiKey: string, queue: seq<Item>): (r: BuildOutcome)
    ensures forall i :: 0 <= i < |r.dropped| ==> r.dropped[i] == TooLarge
    ensures |r.dropped| <= |queue|
    ensures r.result.Success? ==> |r.result.value| <= |queue|
    decreases |queue|
  {
    if queue == [] then BuildOutcome(Success([]), [])
    else
      var pass := SerializePass(env.encode, env.maxPayloadBytes, queue);
      match pass.result
      case Failure(e) => BuildOutcome(Failure(Io(e)), [])
      case Success(s) =>
        if s.events == [] then
          After([], [TooLarge], BuildLoop(b, env, apiKey, pass.remaining[1..]))
        else
          match FinishRequest(b, s.buf, s.events, s.byteSize, apiKey)
          case Failure(e) => BuildOutcome(Failure(e), [])
          case Success(request) => After([request], [], BuildLoop(b, env, apiKey, pass.remaining))
  }

  lemma AfterAfter(r1: seq<LogApiRequest>, d1: seq<EventsDropped>, r2: seq<LogApiRequest>,
                   d2: seq<EventsDropped>, rest: BuildOutcome)
    ensures After(r1, d1, After(r2, d2, rest)) == After(r1 + r2, d1 + d2, rest)
  {
    assert d1 + (d2 + rest.dropped) == d1 + d2 + rest.dropped;
    if rest.result.Success? {
      assert r1 + (r2 + rest.result.value) == r1 + r2 + rest.result.value;
    }
  }

  lemma AfterNothing(rest: BuildOutcome)
    ensures After([], [], rest) == rest
  {
    assert [] + rest.dropped == rest.dropped;
    if rest.result.Success? {
      assert [] + rest.result.value == rest.result.value;
    }
  }

  // ---------------------------------------------------------------------------
  // What the loop promises

  /** An event whose encoding does not fit behind `[` on its own. */
  predicate Oversized(encode: Encoder, maxBytes: nat, item: Item)
  {
    encode(item.event).Success? && 1 + |encode(item.event).value| >= maxBytes
  }

  /** The queue with the oversized events removed, in order. */
  function Fitting(encode: Encoder, maxBytes: nat, items: seq<Item>): (r: seq<Item>)
    ensures |r| <= |items|
  {
    if items == [] then []
    else (if Oversized(encode, maxBytes, items[0]) then [] else [items[0]]) + Fitting(encode, maxBytes, items[1..])
  }

  /** `Fitting` keeps exactly the queue's items that are not oversized. */
  lemma {:induction false} FittingIsFilter(encode: Encoder, maxBytes: nat, items: seq<Item>)
    ensures forall k :: 0 <= k < |Fitting(encode, maxBytes, items)| ==>
      Fitting(encode, maxBytes, items)[k] in items && !Oversized(encode, maxBytes, Fitting(encode, maxBytes, items)[k])
    ensures forall i :: 0 <= i < |items| && !Oversized(encode, maxBytes, items[i]) ==> items[i] in Fitting(encode, maxBytes, items)
    decreases |items|
  {
    if items != [] {
      FittingIsFilter(encode, maxBytes, items[1..]);
      var rest := Fitting(encode, maxBytes, items[1..]);
      var r := Fitting(encode, maxBytes, items);
      var head := if Oversized(encode, maxBytes, items[0]) then [] else [items[0]];
      assert r == head + rest;
      forall k | 0 <= k < |r| ensures r[k] in items && !Oversized(encode, maxBytes, r[k]) {
        if k >= |head| {
          assert r[k] == rest[k - |head|];
          assert rest[k - |head|] in items[1..];
        }
      }
      forall i | 0 <= i < |items| && !Oversized(encode, maxBytes, items[i]) ensures items[i] in r {
        if i > 0 {
          assert items[i] == items[1..][i - 1];
        }
      }
    }
  }

  lemma {:induction false} FittingAppend(encode: Encoder, maxBytes: nat, a: seq<Item>, c: seq<Item>)
    ensures Fitting(encode, maxBytes, a + c) == Fitting(encode, maxBytes, a) + Fitting(encode, maxBytes, c)
    decreases |a|
  {
    if a == [] {
      assert a + c == c;
    } else {
      assert (a + c)[1..] == a[1..] + c;
      FittingAppend(encode, maxBytes, a[1..], c);
    }
  }

  lemma {:induction false} FittingKeepsAll(encode: Encoder, maxBytes: nat, items: seq<Item>)
    requires forall i :: 0 <= i < |items| ==> !Oversized(encode, maxBytes, items[i])
    ensures Fitting(encode, maxBytes, items) == items
    decreases |items|
  {
    if items != [] {
      FittingKeepsAll(encode, maxBytes, items[1..]);
    }
  }

  /** The events of a committed pass all fit on their own. */
  lemma CommittedEventsFit(encode: Encoder, maxBytes: nat, items: seq<Item>)
    requires AllEncode(encode, items)
    requires items != [] ==> 1 + |Join(Encodings(encode, items))| < maxBytes
    ensures Fitting(encode, maxBytes, items) == items
  {
    forall i | 0 <= i < |items| ensures !Oversized(encode, maxBytes, items[i]) {
      JoinCoversParts(Encodings(encode, items), i);
    }
    FittingKeepsAll(encode, maxBytes, items);
  }

  function RequestFinalizers(requests: seq<LogApiRequest>): seq<Finalizer>
  {
    if requests == [] then [] else requests[0].finalizers + RequestFinalizers(requests[1..])
  }

  function EventCount(requests: seq<LogApiRequest>): nat
  {
    if requests == [] then 0 else requests[0].metadata.eventCount + EventCount(requests[1..])
  }

  /**
   * Conservation for an outcome of the loop over `queue`: every drop signal is
   * a `count: 1` "too large" signal, and on success every event of the queue
   * is either in a request or dropped, the requests' finalizers, in order,
   * being those of the queue's events with the oversized ones removed.
   */
  ghost predicate Conserved(encode: Encoder, maxBytes: nat, queue: seq<Item>, out: BuildOutcome)
  {
    && (forall i :: 0 <= i < |out.dropped| ==> out.dropped[i] == TooLarge)
    && |out.dropped| <= |queue|
    && (out.result.Success? ==>
          && RequestFinalizers(out.result.value) == FinalizersOf(EventsOf(Fitting(encode, maxBytes, queue)))
          && EventCount(out.result.value) == |Fitting(encode, maxBytes, queue)|
          && EventCount(out.result.value) + |out.dropped| == |queue|)
  }

  lemma ConservedAfterDrop(encode: Encoder, maxBytes: nat, queue: seq<Item>, rest: BuildOutcome)
    requires queue != [] && Oversized(encode, maxBytes, queue[0])
    requires Conserved(encode, maxBytes, queue[1..], rest)
    ensures Conserved(encode, maxBytes, queue, After([], [TooLarge], rest))
  {
    assert Fitting(encode, maxBytes, queue) == Fitting(encode, maxBytes, queue[1..]);
    if rest.result.Success? {
      assert [] + rest.result.value == rest.result.value;
    }
  }

  lemma ConservedAfterRequest(encode: Encoder, maxBytes: nat, queue: seq<Item>, n: nat,
                              request: LogApiRequest, rest: BuildOutcome)
    requires 0 < n <= |queue| && AllEncode(encode, queue[..n])
    requires 1 + |Join(Encodings(encode, queue[..n]))| < maxBytes
    requires request.finalizers == FinalizersOf(EventsOf(queue[..n])) && request.metadata.eventCount == n
    requires Conserved(encode, maxBytes, queue[n..], rest)
    ensures Conserved(encode, maxBytes, queue, After([request], [], rest))
  {
    CommittedEventsFit(encode, maxBytes, queue[..n]);
    assert queue == queue[..n] + queue[n..];
    FittingAppend(encode, maxBytes, queue[..n], queue[n..]);
    var restFitting := Fitting(encode, maxBytes, queue[n..]);
    EventsOfAppend(queue[..n], restFitting);
    FinalizersOfAppend(EventsOf(queue[..n]), EventsOf(restFitting));
    assert [] + rest.dropped == rest.dropped;
    if rest.result.Success? {
      assert ([request] + rest.result.value)[1..] == rest.result.value;
    }
  }

  /** Termination and conservation of `build_request`'s loop. */
  lemma {:induction false} BuildConservesEvents(b: LogRequestBuilder, env: Environment, apiKey: string, queue: seq<Item>)
    ensures Conserved(env.encode, env.maxPayloadBytes, queue, BuildLoop(b, env, apiKey, queue))
    decreases |queue|
  {
    var encode, maxBytes := env.encode, env.maxPayloadBytes;
    if queue != [] {
      var pass := SerializePass(encode, maxBytes, queue);
      match pass.result
      case Failure(e) =>
      case Success(s) =>
        if s.events == [] {
          BuildLoopDropStep(b, env, apiKey, queue);
          SerializeNoProgress(encode, maxBytes, queue);
          BuildConservesEvents(b, env, apiKey, queue[1..]);
          ConservedAfterDrop(encode, maxBytes, queue, BuildLoop(b, env, apiKey, queue[1..]));
        } else {
          var n := |s.events|;
          var fr := FinishRequest(b, s.buf, s.events, s.byteSize, apiKey);
          if fr.Success? {
            BuildConservesEvents(b, env, apiKey, queue[n..]);
            ConservedAfterRequest(encode, maxBytes, queue, n, fr.value, BuildLoop(b, env, apiKey, queue[n..]));
          }
        }
    }
  }

  /** Every request of a successful build holds at least one event, carries the
      batch's API key and the configured compression, and its uncompressed
      payload is within `MAX_PAYLOAD_BYTES`. */
  lemma {:induction false} BuildRequestsWellFormed(b: LogRequestBuilder, env: Environment, apiKey: string, queue: seq<Item>)
    ensures var out := BuildLoop(b, env, apiKey, queue);
      out.result.Success? ==>
        forall i :: 0 <= i < |out.result.value| ==>
          && out.result.value[i].apiKey == apiKey
          && out.result.value[i].metadata.eventCount > 0
          && out.result.value[i].compressed == b.compression.Compressed?
          && out.result.value[i].uncompressedSize <= env.maxPayloadBytes
    decreases |queue|
  {
    if queue != [] {
      var encode, maxBytes := env.encode, env.maxPayloadBytes;
      var pass := SerializePass(encode, maxBytes, queue);
      match pass.result
      case Failure(e) =>
      case Success(s) =>
        if s.events == [] {
          SerializeNoProgress(encode, maxBytes, queue);
          BuildRequestsWellFormed(b, env, apiKey, queue[1..]);
        } else {
          SerializeRespectsCap(encode, maxBytes, queue);
          BuildRequestsWellFormed(b, env, apiKey, pass.remaining);
        }
    }
  }

  lemma AllEncodeSplit(encode: Encoder, items: seq<Item>, n: nat)
    requires n <= |items|
    ensures AllEncode(encode, items) <==> AllEncode(encode, items[..n]) && AllEncode(encode, items[n..])
  {
    if AllEncode(encode, items[..n]) && AllEncode(encode, items[n..]) {
      forall i | 0 <= i < |items| ensures encode(items[i].event).Success? {
        if i < n { assert items[i] == items[..n][i]; } else { assert items[i] == items[n..][i - n]; }
      }
    }
  }

  /**
   * The error condition: with a compressor that cannot fail, the build
   * succeeds exactly when every event encodes; an encoding error anywhere in
   * the queue discards the whole build.
   */
  lemma {:induction false} BuildSucceedsIffAllEncode(b: LogRequestBuilder, env: Environment, apiKey: string, queue: seq<Item>)
    requires CompressionInfallible(b.compression)
    ensures BuildLoop(b, env, apiKey, queue).result.Success? <==> AllEncode(env.encode, queue)
    decreases |queue|
  {
    if queue != [] {
      var encode, maxBytes := env.encode, env.maxPayloadBytes;
      var pass := SerializePass(encode, maxBytes, queue);
      match pass.result
      case Failure(e) =>
        var k: nat :| FailsAt(encode, maxBytes, queue, k, e) && pass.remaining == queue[k + 1..];
      case Success(s) =>
        if s.events == [] {
          SerializeNoProgress(encode, maxBytes, queue);
          BuildSucceedsIffAllEncode(b, env, apiKey, queue[1..]);
          AllEncodeSplit(encode, queue, 1);
        } else {
          var n := |s.events|;
          BuildSucceedsIffAllEncode(b, env, apiKey, queue[n..]);
          AllEncodeSplit(encode, queue, n);
        }
    }
  }

  /** Whatever fails, `build_request` reports it as an I/O error. */
  lemma {:induction false} BuildErrorsAreIo(b: LogRequestBuilder, env: Environment, apiKey: string, queue: seq<Item>)
    ensures BuildLoop(b, env, apiKey, queue).result.Failure? ==> BuildLoop(b, env, apiKey, queue).result.error.Io?
    decreases |queue|
  {
    if queue != [] {
      var pass := SerializePass(env.encode, env.maxPayloadBytes, queue);
      if pass.result.Success? {
        if pass.result.value.events == [] {
          BuildErrorsAreIo(b, env, apiKey, pass.remaining[1..]);
        } else {
          BuildErrorsAreIo(b, env, apiKey, pass.remaining);
        }
      }
    }
  }

  /** A lone event whose encoding is larger than the payload limit yields no
      request and one drop signal. */
  lemma OneOversizedEventIsDropped(b: LogRequestBuilder, env: Environment, apiKey: string, item: Item)
    requires env.maxPayloadBytes == 100
    requires env.encode(item.event).Success? && |env.encode(item.event).value| == 150
    ensures BuildLoop(b, env, apiKey, [item]) == BuildOutcome(Success([]), [TooLarge])
  {
    SerializeNoProgress(env.encode, env.maxPayloadBytes, [item]);
    assert [item][1..] == [];
    assert BuildLoop(b, env, apiKey, [item]) == After([], [TooLarge], BuildOutcome(Success([]), []));
    assert [TooLarge] + [] == [TooLarge];
    var none: seq<LogApiRequest> := [];
    assert none + none == none;
  }

  /** With a 100-byte limit, three 40-byte events go out as two requests: the
      first two events in an 83-byte payload, then the third. */
  lemma ThreeFortyByteEventsMakeTwoRequests(b: LogRequestBuilder, env: Environment, apiKey: string, items: seq<Item>)
    requires env.maxPayloadBytes == 100 && |items| == 3
    requires forall i :: 0 <= i < 3 ==> env.encode(items[i].event).Success? && |env.encode(items[i].event).value| == 40
    requires CompressionInfallible(b.compression)
    ensures var out := BuildLoop(b, env, apiKey, items);
      && out.result.Success?
      && |out.result.value| == 2
      && out.result.value[0].metadata.eventCount == 2
      && out.result.value[0].uncompressedSize == 83
      && out.result.value[1].metadata.eventCount == 1
      && out.dropped == []
  {
    var encode := env.encode;
    SerializeThreeFortyByteEvents(encode, items);
    SerializeRespectsCap(encode, 100, items);
    var first := SerializePass(encode, 100, items).result.value;
    var firstRequest := FinishRequest(b, first.buf, first.events, first.byteSize, apiKey);
    assert firstRequest.Success?;
    var last := [items[2]];
    var second := SerializePass(encode, 100, last);
    assert AllEncode(encode, last);
    assert second.result.Success?;
    var n := |second.result.value.events|;
    assert n == 1;
    assert second.remaining == [];
    var s2 := second.result.value;
    var secondRequest := FinishRequest(b, s2.buf, s2.events, s2.byteSize, apiKey);
    assert secondRequest.Success?;
    assert BuildLoop(b, env, apiKey, last) == After([secondRequest.value], [], BuildOutcome(Success([]), []));
    assert BuildLoop(b, env, apiKey, items)
        == After([firstRequest.value], [], BuildLoop(b, env, apiKey, last));
    assert [secondRequest.value] + [] == [secondRequest.value];
    var noDrops: seq<EventsDropped> := [];
    assert noDrops + (noDrops + noDrops) == noDrops;
  }

  // ---------------------------------------------------------------------------
  // Partitioning

  /** `EventPartitioner::partition`: events are batched by their own API key. */
  function Partition(event: Event): Option<string>
  {
    event.metadata.datadogApiKey
  }

  /** The key a batch is sent with: its own, or else the sink's default key. */
  function EffectiveApiKey(key: Option<string>, defaultApiKey: string): (k: string)
    ensures key.Some? ==> k == key.value
    ensures key.None? ==> k == defaultApiKey
  {
    match key
    case Some(k) => k
    case None => defaultApiKey
  }

  /** Every request built for a partition carries the partition's key if the
      events had one, and the default key otherwise. */
  lemma PartitionRequestsCarryKey(b: LogRequestBuilder, env: Environment, key: Option<string>, events: seq<Event>)
    ensures var out := BuildLoop(b, env, EffectiveApiKey(key, b.defaultApiKey), PrepareAll(b, env, events));
      out.result.Success? ==>
        forall i :: 0 <= i < |out.result.value| ==>
          out.result.value[i].apiKey == (if key.Some? then key.value else b.defaultApiKey)
  {
    BuildRequestsWellFormed(b, env, EffectiveApiKey(key, b.defaultApiKey), PrepareAll(b, env, events));
  }

  // ---------------------------------------------------------------------------
  // The builder, in place

  /** Normalises one event through a mutable `LogEvent`, as `build_request` does. */
  method PrepareInPlace(b: LogRequestBuilder, env: Environment, event: Event) returns (item: Item)
    ensures item == PrepareEvent(b, env, event)
  {
    var log := new LogEvent(event.value, event.metadata.value);
    log.NormalizeEvent(event.metadata.meanings, env.reservedAttrs);
    if b.conformsAsAgent {
      log.NormalizeAsAgentEvent(env.reservedAttrs);
    }
    var transformed := b.transform(log.Data());
    var e := Event(transformed.value, event.metadata.(value := transformed.metadata));
    item := Item(e, env.estimate(e));
  }

  /** One turn of the loop that drops the head event. */
  lemma BuildLoopDropStep(b: LogRequestBuilder, env: Environment, apiKey: string, queue: seq<Item>)
    requires queue != []
    requires SerializePass(env.encode, env.maxPayloadBytes, queue).result.Success?
    requires SerializePass(env.encode, env.maxPayloadBytes, queue).result.value.events == []
    ensures SerializePass(env.encode, env.maxPayloadBytes, queue).remaining == queue
    ensures BuildLoop(b, env, apiKey, queue) == After([], [TooLarge], BuildLoop(b, env, apiKey, queue[1..]))
  {
    SerializeNoProgress(env.encode, env.maxPayloadBytes, queue);
  }

  /** The loop of `build_request` over a queue held in place. */
  method BuildFromQueue(b: LogRequestBuilder, env: Environment, apiKey: string, queue: EventQueue)
    returns (outcome: BuildOutcome)
    modifies queue
    ensures outcome == BuildLoop(b, env, apiKey, old(queue.items))
  {
    var requests: seq<LogApiRequest> := [];
    var dropped: seq<EventsDropped> := [];
    AfterNothing(BuildLoop(b, env, apiKey, queue.items));
    while !queue.IsEmpty()
      invariant BuildLoop(b, env, apiKey, old(queue.items)) == After(requests, dropped, BuildLoop(b, env, apiKey, queue.items))
      decreases |queue.items|
    {
      ghost var before := queue.items;
      var serialized := SerializeWithCapacity(queue, env.encode, env.maxPayloadBytes);
      if serialized.Failure? {
        assert BuildLoop(b, env, apiKey, before) == BuildOutcome(Failure(Io(serialized.error)), []);
        assert dropped + [] == dropped;
        return BuildOutcome(Failure(Io(serialized.error)), dropped);
      }
      var s := serialized.value;
      if s.events == [] {
        BuildLoopDropStep(b, env, apiKey, before);
        var _ := queue.PopFront();
        AfterAfter(requests, dropped, [], [TooLarge], BuildLoop(b, env, apiKey, queue.items));
        assert requests + [] == requests;
        dropped := dropped + [TooLarge];
      } else {
        var request := FinishRequest(b, s.buf, s.events, s.byteSize, apiKey);
        if request.Failure? {
          assert BuildLoop(b, env, apiKey, before) == BuildOutcome(Failure(request.error), []);
          assert dropped + [] == dropped;
          return BuildOutcome(Failure(request.error), dropped);
        }
        assert BuildLoop(b, env, apiKey, before) == After([request.value], [], BuildLoop(b, env, apiKey, queue.items));
        AfterAfter(requests, dropped, [request.value], [], BuildLoop(b, env, apiKey, queue.items));
        assert dropped + [] == dropped;
        requests := requests + [request.value];
      }
    }
    assert requests + [] == requests && dropped + [] == dropped;
    outcome := BuildOutcome(Success(requests), dropped);
  }

  /** `build_request`: its outcome is the loop's over the prepared events. */
  method BuildRequest(b: LogRequestBuilder, env: Environment, events: seq<Event>, apiKey: string)
    returns (outcome: BuildOutcome)
    ensures outcome == BuildLoop(b, env, apiKey, PrepareAll(b, env, events))
  {
    ghost var all := PrepareAll(b, env, events);
    var prepared: seq<Item> := [];
    for i := 0 to |events|
      invariant prepared == all[..i]
    {
      var item := PrepareInPlace(b, env, events[i]);
      assert all[..i + 1] == all[..i] + [all[i]];
      prepared := prepared + [item];
    }
    assert all[..|events|] == all;
    var queue := new EventQueue(prepared);
    outcome := BuildFromQueue(b, env, apiKey, queue);
  }

  /** The per-batch step of the sink: the batch's key, or the default, goes on
      every request built from it. */
  method BuildPartition(b: LogRequestBuilder, env: Environment, key: Option<string>, events: seq<Event>)
    returns (outcome: BuildOutcome)
    ensures outcome == BuildLoop(b, env, EffectiveApiKey(key, b.defaultApiKey), PrepareAll(b, env, events))
  {
    var apiKey := if key.Some? then key.value else b.defaultApiKey;
    outcome := BuildRequest(b, env, events, apiKey);
  }
}
