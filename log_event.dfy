/**
 * The event data the sink works on: a log value (a tree of `Value`s), the
 * event's metadata, and target paths into either of the two.  The path
 * operations model the parts of the path library the sink calls
 * (`get`, `contains`, `insert`, `remove`, `rename_key`) for the path shapes
 * the sink uses.
 */
module LogEvents {
  import opened Common

  /** A log value.  Floats and regular expressions are left out: every step
      of the sink treats them like the other non-byte scalars. */
  datatype Value =
    | Null
    | Boolean(b: bool)
    | Integer(i: int)
    | Bytes(text: string)
    | Timestamp(nanos: int)        // nanoseconds since the Unix epoch
    | Array(items: seq<Value>)
    | Object(fields: map<string, Value>)

  /** `.field` paths address the event, `%field` paths its metadata. */
  datatype PathPrefix = EventPrefix | MetadataPrefix

  datatype Segment = Field(name: string) | Index(index: int)

  datatype TargetPath = TargetPath(prefix: PathPrefix, segments: seq<Segment>)

  /** The path of a single field at the root of the event, as `event_path!(name)` builds it. */
  function EventField(name: string): TargetPath
  {
    TargetPath(EventPrefix, [Field(name)])
  }

  /** `path_is_field`: the path consists of exactly the one named field at the event root. */
  function PathIsField(path: TargetPath, field: string): (r: bool)
    ensures r <==> path == EventField(field)
  {
    path.prefix == EventPrefix
    && |path.segments| == 1
    && path.segments[0].Field?
    && path.segments[0].name == field
  }

  /** A negative array index counts from the end of the array. */
  function ResolveIndex(length: nat, index: int): (r: Option<nat>)
    ensures r.Some? ==> r.value < length
  {
    var i := if index < 0 then length + index else index;
    if 0 <= i < length then Some(i) else None
  }

  /** The value found by following `segments` from `v`, if any. */
  function GetIn(v: Value, segments: seq<Segment>): (r: Option<Value>)
    ensures r.Some? && segments != [] && segments[0].Field? ==> v.Object? && segments[0].name in v.fields
    ensures r.Some? && segments != [] && segments[0].Index? ==> v.Array? && ResolveIndex(|v.items|, segments[0].index).Some?
    decreases |segments|
  {
    if segments == [] then Some(v)
    else match segments[0]
      case Field(f) =>
        if v.Object? && f in v.fields then GetIn(v.fields[f], segments[1..]) else None
      case Index(n) =>
        if v.Array? then
          match ResolveIndex(|v.items|, n)
          case Some(i) => GetIn(v.items[i], segments[1..])
          case None => None
        else None
  }

  /** Removes what `segments` addresses in `v`; returns the new value and what was removed.
      Removing the root leaves `Null` behind; removing an array element shifts the rest. */
  function RemoveIn(v: Value, segments: seq<Segment>): (Value, Option<Value>)
    decreases |segments|
  {
    if segments == [] then (Null, Some(v))
    else match segments[0]
      case Field(f) =>
        if v.Object? && f in v.fields then
          if |segments| == 1 then (Object(v.fields - {f}), Some(v.fields[f]))
          else
            var (child, removed) := RemoveIn(v.fields[f], segments[1..]);
            (Object(v.fields[f := child]), removed)
        else (v, None)
      case Index(n) =>
        if v.Array? then
          match ResolveIndex(|v.items|, n)
          case Some(i) =>
            if |segments| == 1 then (Array(v.items[..i] + v.items[i + 1..]), Some(v.items[i]))
            else
              var (child, removed) := RemoveIn(v.items[i], segments[1..]);
              (Array(v.items[i := child]), removed)
          case None => (v, None)
        else (v, None)
  }

  /** What a removal hands back is exactly what was found at the path. */
  lemma {:induction false} RemoveInYieldsGetIn(v: Value, segments: seq<Segment>)
    ensures RemoveIn(v, segments).1 == GetIn(v, segments)
    decreases |segments|
  {
    if segments != [] {
      match segments[0]
      case Field(f) =>
        if v.Object? && f in v.fields && |segments| > 1 {
          RemoveInYieldsGetIn(v.fields[f], segments[1..]);
        }
      case Index(n) =>
        if v.Array? && ResolveIndex(|v.items|, n).Some? && |segments| > 1 {
          RemoveInYieldsGetIn(v.items[ResolveIndex(|v.items|, n).value], segments[1..]);
        }
    }
  }

  /** A removal along a path of field names leaves nothing behind at that path. */
  lemma {:induction false} RemoveInClears(v: Value, segments: seq<Segment>)
    requires |segments| > 0
    requires forall k :: 0 <= k < |segments| ==> segments[k].Field?
    ensures GetIn(RemoveIn(v, segments).0, segments) == None
    decreases |segments|
  {
    var f := segments[0].name;
    if v.Object? && f in v.fields && |segments| > 1 {
      RemoveInClears(v.fields[f], segments[1..]);
    }
  }

  /** Following a single field name looks that field up in an object. */
  lemma GetInField(v: Value, f: string)
    ensures GetIn(v, [Field(f)]) == if v.Object? && f in v.fields then Some(v.fields[f]) else None
  {
    assert [Field(f)][1..] == [];
    if v.Object? && f in v.fields {
      assert GetIn(v.fields[f], []) == Some(v.fields[f]);
    }
  }

  /** A log event's two trees: the event value and the metadata value. */
  datatype LogData = LogData(value: Value, metadata: Value)

  function Tree(log: LogData, prefix: PathPrefix): Value
  {
    match prefix
    case EventPrefix => log.value
    case MetadataPrefix => log.metadata
  }

  /** `get`: the value at a target path. */
  function GetPath(log: LogData, path: TargetPath): Option<Value>
  {
    GetIn(Tree(log, path.prefix), path.segments)
  }

  /** The value of a root field of the event. */
  function RootField(log: LogData, field: string): Option<Value>
  {
    GetPath(log, EventField(field))
  }

  /** The root fields of an event are the fields of its root object. */
  lemma RootFields(log: LogData)
    ensures forall g :: RootField(log, g) == if HasRootField(log, g) then Some(log.value.fields[g]) else None
  {
    forall g {
      GetInField(log.value, g);
    }
  }

  /** `contains` for a root field of the event. */
  predicate HasRootField(log: LogData, field: string)
  {
    log.value.Object? && field in log.value.fields
  }

  /** `remove`: the log with the target removed, and what was removed. */
  function RemovePath(log: LogData, path: TargetPath): (r: (LogData, Option<Value>))
    ensures r.1 == GetPath(log, path)
    ensures path.prefix == EventPrefix ==> r.0.metadata == log.metadata
    ensures path.prefix == MetadataPrefix ==> r.0.value == log.value
  {
    RemoveInYieldsGetIn(Tree(log, path.prefix), path.segments);
    var (tree, removed) := RemoveIn(Tree(log, path.prefix), path.segments);
    match path.prefix
    case EventPrefix => (log.(value := tree), removed)
    case MetadataPrefix => (log.(metadata := tree), removed)
  }

  /** `insert` at a root field of the event; a root that is not an object becomes one. */
  function InsertField(log: LogData, field: string, x: Value): (r: LogData)
    ensures r.value.Object? && r.metadata == log.metadata
    ensures RootField(r, field) == Some(x)
    ensures forall g :: g != field ==> RootField(r, g) == (if log.value.Object? then RootField(log, g) else None)
    ensures !log.value.Object? ==> r.value.fields.Keys == {field}
  {
    var r := match log.value
      case Object(m) => log.(value := Object(m[field := x]))
      case _ => log.(value := Object(map[field := x]));
    RootFields(r);
    RootFields(log);
    r
  }

  /** A removal that finds nothing changes nothing. */
  lemma {:induction false} RemoveInNotFound(v: Value, segments: seq<Segment>)
    requires RemoveIn(v, segments).1 == None
    ensures RemoveIn(v, segments).0 == v
    decreases |segments|
  {
    if segments != [] {
      match segments[0]
      case Field(f) =>
        if v.Object? && f in v.fields && |segments| > 1 {
          RemoveInNotFound(v.fields[f], segments[1..]);
          assert v.fields[f := v.fields[f]] == v.fields;
        }
      case Index(n) =>
        if v.Array? && ResolveIndex(|v.items|, n).Some? && |segments| > 1 {
          var i := ResolveIndex(|v.items|, n).value;
          RemoveInNotFound(v.items[i], segments[1..]);
          assert v.items[i := v.items[i]] == v.items;
        }
    }
  }

  /** `rename_key(from, to)` where `to` is a root field: remove, then insert what was removed.
      Nothing changes when nothing is at `from`. */
  function RenameToField(log: LogData, from: TargetPath, to: string): (r: LogData)
    ensures GetPath(log, from).None? ==> r == log
    ensures GetPath(log, from).Some? ==> RootField(r, to) == GetPath(log, from)
    ensures from.prefix == EventPrefix ==> r.metadata == log.metadata
    ensures log.value.Object? ==> r.value.Object?
    ensures GetPath(log, from).Some? ==> r.metadata == RemovePath(log, from).0.metadata
    ensures GetPath(log, from).Some? ==>
      forall g :: g != to ==> RootField(r, g) == (var d := RemovePath(log, from).0;
                                                  if d.value.Object? then RootField(d, g) else None)
  {
    RemoveInYieldsGetIn(Tree(log, from.prefix), from.segments);
    var (removedFrom, moved) := RemovePath(log, from);
    match moved
    case Some(x) => InsertField(removedFrom, to, x)
    case None =>
      RemoveInNotFound(Tree(log, from.prefix), from.segments);
      removedFrom
  }

  /** An acknowledgement handle of an event. */
  datatype Finalizer = Finalizer(id: nat)

  /** What the sink reads from an event's metadata: the metadata value, the
      Datadog API key it was received with, its finalizers, and the paths its
      schema definition assigns to semantic meanings (`find_key_by_meaning`). */
  datatype EventMetadata = EventMetadata(
    value: Value,
    datadogApiKey: Option<string>,
    finalizers: seq<Finalizer>,
    meanings: map<string, TargetPath>)

  datatype Event = Event(value: Value, metadata: EventMetadata)
  {
    function Log(): LogData
    {
      LogData(value, metadata.value)
    }
  }

  /** `take_finalizers` over a sequence of events: all their finalizers, in order. */
  function FinalizersOf(events: seq<Event>): seq<Finalizer>
  {
    if events == [] then [] else events[0].metadata.finalizers + FinalizersOf(events[1..])
  }

  lemma {:induction false} FinalizersOfAppend(a: seq<Event>, b: seq<Event>)
    ensures FinalizersOf(a + b) == FinalizersOf(a) + FinalizersOf(b)
  {
    if a == [] {
      assert a + b == b;
    } else {
      assert (a + b)[1..] == a[1..] + b;
      FinalizersOfAppend(a[1..], b);
    }
  }
}
