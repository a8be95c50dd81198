# Datadog logs sink: request packing and field normalisation

This project models the request side of Vector's Datadog logs sink and proves
properties of it.

The sink receives batches of log events that share a Datadog API key. For each
batch, the request builder first normalises every event:

- the root becomes an object;
- reserved semantic attributes move to the root field where the logs intake
  expects them;
- `ddtags` becomes a comma-joined string;
- `timestamp` becomes milliseconds.

When the sink conforms to the agent format, it also nests every non-reserved
root field under `message`. It then applies the configured transformer and
estimates each event's JSON size.

Next comes the packing. The builder cuts the queue of events into JSON-array
payloads by repeated greedy passes. Each pass writes events into a buffer until
the next one would bring it to `MAX_PAYLOAD_BYTES`. That event is rolled back
and pushed back on the queue. A payload with events becomes a request that
carries the batch's key, the events' finalizers and the compressed body. An
event too large for a payload on its own is dropped, with a
`ComponentEventsDropped` signal. An encoding or compression error fails the
whole batch.

Modules:

- `Common`: `Option`, `Result`, bytes, I/O errors.
- `LogEvents`: event values, target paths (`event` or `%metadata` prefix, field
  and index segments), and the path operations the sink uses (`get`,
  `remove`, `insert`, `rename_key`). Also event metadata and finalizers.
- `Normalize`:
  - the normalisation steps as functions, with their properties as lemmas;
  - the class `LogEvent`, whose methods change an event in place and are
    proved equal to those functions.
- `Serializer`:
  - `serialize_with_capacity` as the in-place method `SerializeWithCapacity`,
    which works on the class `EventQueue` (the `VecDeque`);
  - its specification `SerializePass`, characterised by the predicate `Greedy`,
    with its properties as lemmas.
- `RequestBuilder`:
  - `finish_request`, and `build_request` as the recursive specification
    `BuildLoop`;
  - the in-place methods `BuildFromQueue`, `BuildRequest` and `BuildPartition`;
  - the partitioner and the default-key fallback;
  - lemmas for conservation, request contents, the error condition and two
    concrete scenarios.

Three consequences of the code worth knowing:

- Both failure causes surface as `RequestBuildError::Io`. `serialize_with_capacity`
  returns an `io::Error`, so a JSON error is converted to I/O before it
  reaches `build_request`. `Json` and `PayloadTooBig` are never produced.
- With a 100-byte limit and three 40-byte encodings, the first payload is
  `[`, 40 bytes, `,`, 40 bytes, `]`: 83 bytes.
- `normalize_event` removes a root `timestamp` that is not a timestamp value
  and does not put it back. `NormalizeTimestamp` states this.

Three things the model takes as parameters:

- `MAX_PAYLOAD_BYTES` (`maxPayloadBytes`).
- The list of reserved semantic attributes (`ReservedAttrs`, pairs of meaning
  and root field). `is_reserved_attribute` is membership in its fields. Both come
  from `src/common/datadog.rs` and the sink's `config.rs`, and neither file is
  part of this model.
- The schema's `find_key_by_meaning` lookup, as a map from meaning to path in
  the event metadata (`meanings`).

## Model

| member | source | states |
|---|---|---|
| LogEvents.PathIsField | src/sinks/datadog/logs/sink.rs:216-219 | true exactly when the path is in the event prefix and is the single field segment `field` |
| LogEvents.GetIn | src/sinks/datadog/logs/sink.rs:129 | `get` along field and index segments: a lookup finds something below a field only in an object holding that field, and below an index only in an array where the index resolves; `GetInField` gives the single-field lookup behind `contains` |
| LogEvents.GetInField | src/sinks/datadog/logs/sink.rs:196 | looking up one field finds that field's value in an object, and nothing otherwise |
| LogEvents.RemovePath | src/sinks/datadog/logs/sink.rs:148 | `remove` returns the value that was at the path, and leaves the other tree (event or metadata) unchanged |
| LogEvents.RemoveInYieldsGetIn | src/sinks/datadog/logs/sink.rs:148 | removal evaluates to exactly what a lookup of the same path finds |
| LogEvents.RemoveInClears | src/sinks/datadog/logs/sink.rs:148 | after removing a field path, nothing is found at that path |
| LogEvents.InsertField | src/sinks/datadog/logs/sink.rs:112 | inserting a root field makes the root an object holding the new value there; the metadata is unchanged; every other root field keeps its value when the root was an object, and is empty when it was not (the root then holds that one field) |
| LogEvents.RenameToField | src/sinks/datadog/logs/sink.rs:204-207 | `rename_key` to a root field: when nothing is at the source path the log is unchanged, otherwise the target field holds what was found there; an event-prefix rename leaves the metadata alone; an object root stays an object; when something was found, the metadata and every root field other than the target are those left by the removal at the source path (so the source loses its value and the other fields keep theirs) |
| LogEvents.FinalizersOfAppend | src/sinks/datadog/logs/sink.rs:307 | `FinalizersOf`, the model of `take_finalizers`, over two runs of events is the concatenation of their finalizers |
| Normalize.IsReservedAttribute | src/sinks/datadog/logs/sink.rs:169 | a key is reserved exactly when it is the expected field of one of the reserved attributes |
| Normalize.PositionReserved | src/sinks/datadog/logs/sink.rs:193 | when the current path already is the expected single field, the log is unchanged; an object root stays an object |
| Normalize.ClearFieldMoves | src/sinks/datadog/logs/sink.rs:196-205 | the first step of positioning empties the expected field and keeps its previous value at `_RESERVED_<meaning>`; no other root field and no metadata changes |
| Normalize.MoveToEmptyField | src/sinks/datadog/logs/sink.rs:207 | moving into an empty root field puts there what the source path held; the first field of an event source path is as after the removal; every other root field is unchanged; a metadata source path loses its value from the metadata |
| Normalize.PositionReservedMoves | src/sinks/datadog/logs/sink.rs:183-209 | for an object root and a source path that is not the expected field itself, is not the root path, and does not start inside the expected field or inside `_RESERVED_<meaning>`: the value found at the current path ends up at the expected field, which is empty if nothing was found; `_RESERVED_<meaning>` holds the previous occupant of the expected field if there was one, and is untouched otherwise; the first field of an event source path is as after removing the path; every other root field keeps its value; the metadata loses exactly what was at a metadata source path |
| Normalize.RepositionAll | src/sinks/datadog/logs/sink.rs:117-123 | the reserved attributes are positioned in order, each whose meaning the schema assigns; an object root stays an object |
| Normalize.RemoveInKeepsDiverging | src/sinks/datadog/logs/sink.rs:207 | removing along one path of field names leaves what is at any path diverging from it |
| Normalize.RepositionPlacesAttrs | src/sinks/datadog/logs/sink.rs:117-123 | when the expected fields are distinct, none is a `_RESERVED_` name, and the meanings sit at metadata field paths no two of which lie on one line: after the first `k` attributes each of them holds at its expected field what the event had at its meaning's path, its `_RESERVED_<meaning>` field holds the previous occupant of the expected field if there was one and is untouched otherwise, every other root field keeps its value, and the paths of the later ones are still intact |
| Normalize.RepositionClearsMeanings | src/sinks/datadog/logs/sink.rs:183-209 | under the same conditions as `RepositionPlacesAttrs`: after the first `k` attributes the (non-root) path of each assigned meaning is empty, and every metadata field path that diverges from all of them holds what it held |
| Normalize.TagTexts | src/sinks/datadog/logs/sink.rs:131-137 | the texts are exactly those of the byte elements: each text comes from a byte element, each byte element's text is kept, and for an all-bytes list they are its texts position by position |
| Normalize.TagTextsAppend | src/sinks/datadog/logs/sink.rs:131-137 | filtering distributes over concatenation, so the byte elements' texts keep their array order and repetitions |
| Normalize.TagTextsSingle | src/sinks/datadog/logs/sink.rs:133-137 | one element contributes its text if it is a byte string, and nothing otherwise |
| Normalize.JoinWith | src/sinks/datadog/logs/sink.rs:138 | `join(",")`: the parts with one separator between each two; its partner `SplitJoinWith` proves that splitting at the separator gives the parts back |
| Normalize.JoinWithTwo | src/sinks/datadog/logs/sink.rs:138 | two parts join around exactly one separator |
| Normalize.SplitJoinWith | src/sinks/datadog/logs/sink.rs:131-138 | splitting the comma-joined tags at commas gives back the tags, when no tag contains a comma |
| Normalize.NormalizeTags | src/sinks/datadog/logs/sink.rs:128-142 | a non-empty array at `ddtags` becomes the joined string of its byte elements and the other root fields are unchanged; anything else leaves the log as it was |
| Normalize.JoinTagsExample | src/sinks/datadog/logs/sink.rs:471-474 | `JoinTags` (the `ddtags` join): the tags `key1:value1` and `key2:value2` join to `key1:value1,key2:value2` |
| Normalize.JoinTagsAroundNonBytes | src/sinks/datadog/logs/sink.rs:131-138 | two byte tags join around one comma, with or without a non-byte element between them |
| Normalize.JoinTagsSkipsNonBytes | src/sinks/datadog/logs/sink.rs:131-138 | a non-byte element between two tags is skipped when joining |
| Normalize.TimestampMillis | src/sinks/datadog/logs/sink.rs:149 | the milliseconds are the nanoseconds rounded down to a whole millisecond (floor, also for times before the epoch) |
| Normalize.NormalizeTimestamp | src/sinks/datadog/logs/sink.rs:147-150 | a root timestamp becomes its integer milliseconds; a root `timestamp` of any other kind is removed; every other root field keeps its value |
| Normalize.ObjectRoot | src/sinks/datadog/logs/sink.rs:111-113 | the root becomes an object; a non-object root ends up alone under `message` |
| Normalize.NormalizeEventSpec | src/sinks/datadog/logs/sink.rs:107-151 | afterwards the root is an object, a root `timestamp` is an integer if present, and `ddtags` is never a non-empty array; relative to the event with its reserved attributes positioned, `ddtags` is joined when it was a non-empty array and unchanged otherwise, `timestamp` is its milliseconds when it was a timestamp and gone otherwise, the metadata and every other root field are unchanged |
| Normalize.AgentSchemaIsPlaceable | src/sinks/datadog/logs/sink.rs:477-523 | the agent source's schema, every meaning below `%datadog_agent` as in the Vector-namespace test (sink.rs:599-628), meets `Placeable` for any reserved attributes with distinct meanings and fields, so the two placement lemmas apply to it |
| Normalize.NormalizeEventPlacesReservedAttrs | src/sinks/datadog/logs/sink.rs:115-150 | for placeable reserved attributes, each one whose meaning the schema assigns ends up at its expected root field holding what the metadata path held; `ddtags` joined into one string if that was a non-empty array, `timestamp` in milliseconds if it was a timestamp and gone otherwise; `_RESERVED_<meaning>` holds the previous occupant of the expected field; every other root field but `ddtags` and `timestamp` is as in the event (its root wrapped under `message` when it was not an object); the meanings' metadata paths are emptied and every diverging metadata field path is kept |
| Normalize.NormalizeAsAgent | src/sinks/datadog/logs/sink.rs:159-179 | the root's keys are exactly `message` and the reserved keys that were there; each root key is reserved or `message`; `message` holds exactly the previously non-reserved root entries with their values; reserved entries are unchanged; a non-object root is left alone; metadata is unchanged |
| Normalize.AgentRootHoldsOnlyReserved | src/sinks/datadog/logs/sink.rs:662-671 | after both normalisations, only reserved fields and `message` remain at the root |
| Normalize.LogEvent.Contains | src/sinks/datadog/logs/sink.rs:196 | true exactly when a lookup of the root field finds a value |
| Normalize.LogEvent.Insert | src/sinks/datadog/logs/sink.rs:140 | the event afterwards is `InsertField` of the event before |
| Normalize.LogEvent.Remove | src/sinks/datadog/logs/sink.rs:148 | the event afterwards and the returned value are `RemovePath` of the event before |
| Normalize.LogEvent.RenameKey | src/sinks/datadog/logs/sink.rs:204-207 | the event afterwards has the value moved from the path to the root field |
| Normalize.LogEvent.PositionReservedAttrEventRoot | src/sinks/datadog/logs/sink.rs:183-209 | the event afterwards is `PositionReserved` of the event before |
| Normalize.LogEvent.JoinDdTags | src/sinks/datadog/logs/sink.rs:128-142 | the event afterwards is `NormalizeTags` of the event before |
| Normalize.LogEvent.ConvertTimestamp | src/sinks/datadog/logs/sink.rs:147-150 | the event afterwards is `NormalizeTimestamp` of the event before |
| Normalize.LogEvent.NormalizeEvent | src/sinks/datadog/logs/sink.rs:107-151 | the event afterwards is `NormalizeEventSpec` of the event before |
| Normalize.LogEvent.NormalizeAsAgentEvent | src/sinks/datadog/logs/sink.rs:159-179 | the event afterwards is `NormalizeAsAgent` of the event before |
| Serializer.EventsOf | src/sinks/datadog/logs/sink.rs:364 | the serialized events are the queue items' events, position by position |
| Serializer.PassLoopIsGreedy | src/sinks/datadog/logs/sink.rs:347-365 | the loop `PassLoop`, started after any committed prefix that encodes and fits, is a greedy pass over the prefix and the queue together |
| Serializer.CountByteSize.AddEvent | src/sinks/datadog/logs/sink.rs:363 | `add_event` counts one more event and adds its estimated size; `AccumulatedCounts` states the effect of a whole pass of them |
| Serializer.AccumulatedCounts | src/sinks/datadog/logs/sink.rs:363 | `add_event` once per written item counts the items and sums their estimated sizes |
| Serializer.JoinLength | src/sinks/datadog/logs/sink.rs:352-357 | the joined encodings are their total length plus one comma between each two |
| Serializer.SerializePass | src/sinks/datadog/logs/sink.rs:332-369 | the pass is greedy. On success it writes the longest prefix of encodable events that keeps the buffer below the cap; the buffer is `[` + comma-joined encodings + `]`; the accumulator has one `add_event` per event; the queue keeps exactly the rest, the rejected event first. On an encoding error, that event and the ones before it have left the queue |
| Serializer.SerializeKeepsOrder | src/sinks/datadog/logs/sink.rs:347-365 | the written events followed by the remaining queue are the original queue, in order; after an encoding error the queue is a proper suffix |
| Serializer.SerializeRespectsCap | src/sinks/datadog/logs/sink.rs:349-366 | a buffer with events, closing bracket included, is at most the cap; an empty pass yields `[]`; the byte size counts exactly the written events and their estimated sizes |
| Serializer.SerializeNoProgress | src/sinks/datadog/logs/sink.rs:357-364 | from a non-empty queue, nothing is written exactly when the head encodes and `1 + its length` reaches the cap; the queue is then unchanged and the buffer is `[]` |
| Serializer.SerializeThreeFortyByteEvents | src/sinks/datadog/logs/sink.rs:345-366 | with cap 100 and three 40-byte encodings, the first two are written in 83 bytes and the third stays queued |
| Serializer.EventQueue.IsEmpty | src/sinks/datadog/logs/sink.rs:272 | true exactly when no item is queued |
| Serializer.EventQueue.PopFront | src/sinks/datadog/logs/sink.rs:347 | removes and returns the front item, or returns nothing from an empty queue |
| Serializer.EventQueue.PushFront | src/sinks/datadog/logs/sink.rs:358 | puts the item back at the front of the queue |
| Serializer.SerializeWithCapacity | src/sinks/datadog/logs/sink.rs:332-369 | the result and the queue left behind are those of `SerializePass` on the queue before, so the pass is greedy as above |
| RequestBuilder.Compress | src/sinks/datadog/logs/sink.rs:303-305 | the configured compression of the buffer: the buffer itself when uncompressed, the compressor's result otherwise |
| RequestBuilder.FinishRequest | src/sinks/datadog/logs/sink.rs:292-324 | fails, with an I/O error, exactly when compression fails; otherwise the request carries the key, the events' finalizers, the event count, the accumulated byte size, the compression flag and the compressed buffer as its body, and its uncompressed size is the buffer length, whether or not compression is on |
| RequestBuilder.PrepareAll | src/sinks/datadog/logs/sink.rs:257-268 | preparing a batch gives one item per event, in order, each keeping its event's partition key and finalizers |
| RequestBuilder.PrepareEvent | src/sinks/datadog/logs/sink.rs:259-266 | the prepared event keeps its finalizers and API key and carries its estimated size |
| RequestBuilder.BuildLoop | src/sinks/datadog/logs/sink.rs:272-289 | every drop signal is the too-large signal; there are at most as many drop signals, and on success at most as many requests, as queued events |
| RequestBuilder.FittingIsFilter | src/sinks/datadog/logs/sink.rs:275-281 | `Fitting`, the queue without its oversized events, holds only items of the queue that are not oversized, and every item of the queue that is not oversized |
| RequestBuilder.BuildConservesEvents | src/sinks/datadog/logs/sink.rs:270-287 | each drop signal is `count: 1`, unintentional, "Event too large to encode."; on success the requests' event counts plus the drops equal the queue length; the requests' finalizers, in order, are those of the queue with the oversized events removed |
| RequestBuilder.BuildRequestsWellFormed | src/sinks/datadog/logs/sink.rs:275-285 | every request holds at least one event, carries the batch's API key and the configured compression, and has an uncompressed size within the payload limit |
| RequestBuilder.BuildSucceedsIffAllEncode | src/sinks/datadog/logs/sink.rs:272-289 | with a compressor that cannot fail, the build succeeds exactly when every event encodes; one encoding error anywhere discards all requests |
| RequestBuilder.BuildErrorsAreIo | src/sinks/datadog/logs/sink.rs:221-241 | any failure of the build is a `RequestBuildError::Io` |
| RequestBuilder.OneOversizedEventIsDropped | src/sinks/datadog/logs/sink.rs:275-281 | a lone 150-byte event under a 100-byte limit yields no request and exactly one drop signal |
| RequestBuilder.ThreeFortyByteEventsMakeTwoRequests | src/sinks/datadog/logs/sink.rs:272-287 | three 40-byte events under a 100-byte limit become two requests, of two events (83 bytes) and one event, with no drops |
| RequestBuilder.BuildLoopDropStep | src/sinks/datadog/logs/sink.rs:275-281 | a pass that writes nothing leaves the queue as it was, and the build continues without the head event after one drop signal |
| RequestBuilder.Partition | src/sinks/datadog/logs/sink.rs:28-30 | an event's batch key is the Datadog API key in its metadata, if any |
| RequestBuilder.EffectiveApiKey | src/sinks/datadog/logs/sink.rs:399 | the batch's own key when it has one, the sink's default key otherwise |
| RequestBuilder.PartitionRequestsCarryKey | src/sinks/datadog/logs/sink.rs:397-401 | every request built for a partition carries the partition's key if it has one, and the default key otherwise |
| RequestBuilder.PrepareInPlace | src/sinks/datadog/logs/sink.rs:259-266 | normalising through a mutable event yields `PrepareEvent` of the event |
| RequestBuilder.BuildFromQueue | src/sinks/datadog/logs/sink.rs:270-289 | the outcome of the loop over a queue held in place is `BuildLoop` of the queue before |
| RequestBuilder.BuildRequest | src/sinks/datadog/logs/sink.rs:251-290 | the outcome is `BuildLoop` over the prepared events |
| RequestBuilder.BuildPartition | src/sinks/datadog/logs/sink.rs:397-401 | a batch is built with its own key, or else the default key |

## Left out

- `run_inner` and `StreamSink::run` (src/sinks/datadog/logs/sink.rs:378-431) are left out. They are asynchronous stream plumbing: partitioned batching, concurrent mapping, filtering out failed builds, flattening, and the service driver. Only the per-batch step (sink.rs:397-401) is modelled, by `BuildPartition`.
- `LogSinkBuilder` (sink.rs:44-80) is left out. It only copies fields.
- `warn!` logging is left out.
- `SinkRequestBuildError` emission is left out, because it belongs to `run_inner`.
- JSON encoding (`serde_json::to_writer`) is the parameter `encode`, a function from an event to bytes or an I/O error.
- Compression is the parameter `Compressed(compressor)`. The compressor internals are not modelled. The uncompressed writer is modelled as infallible and as returning the buffer unchanged.
- `RequestMetadataBuilder` and `EncodeResult` are not part of this model. The request metadata is modelled as the event count, the accumulated byte size and the payload length.
- `GroupedCountByteSize` is modelled as a count of events and a sum of estimated sizes, without its per-source grouping and tags.
- The `estimated_json_encoded_size_of` value is the parameter `estimate`.
- The capacity hint (sink.rs:336-340) affects allocation only, so it is left out.
- Drop signals are the returned list `dropped`, not an emitted metric. Signals emitted before a failure are kept in it, as the code emits them.
- `Transformer::transform` is the uninterpreted parameter `transform` on the log's event and metadata values. It is assumed not to touch finalizers or the API key.
- `timestamp_millis` is floor division of nanoseconds by 1 000 000. `chrono` is not modelled.
- `find_key_by_meaning` is the given map `meanings`.
- Normalize.RepositionAll: its own contract only keeps an object root an object. Where each attribute lands is stated by `RepositionPlacesAttrs` and `NormalizeEventPlacesReservedAttrs`, and only under `Placeable`. The agent source's schema meets it (`AgentSchemaIsPlaceable`). Meanings at event paths (the Legacy-namespace test, sink.rs:540-569) are not covered: there one attribute's source path can lie inside a field an earlier step filled or emptied (its expected field, a `_RESERVED_` field, or the first field of an earlier source path). The outcome then depends on the order, and only the single-step contract of `PositionReservedMoves` describes it.
- Normalize.RepositionPlacesAttrs: proved under `Placeable` (distinct expected fields, none named `_RESERVED_…`, meanings at metadata paths of field names, no two on one line). The frame it states leaves out the expected fields and `_RESERVED_` fields of the placed attributes, whose new values it states separately. Two meanings whose paths lie one inside the other do interfere: moving the outer one takes the inner one with it. An index segment can shift when an array element is removed.
- `String::from_utf8_lossy` is left out: strings are sequences of characters.
- Float values, regexes and path coalescing segments are not modelled.
- The finalizers' disposition when an event is dropped is not modelled.
- RequestBuilder.BuildConservesEvents: the requests do not carry their events (the source's `LogApiRequest` does not), so "the requests' events are the input without the dropped events" is stated through the finalizers and the event counts.
- RequestBuilder.BuildSucceedsIffAllEncode: stated for a compressor that cannot fail. With a fallible compressor, `FinishRequest` gives the exact condition for each request.
