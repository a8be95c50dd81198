/**
 * Field normalisation of a log event before it is encoded: `normalize_event`
 * (object root, reserved attributes moved to the root, `ddtags` joined,
 * timestamp in milliseconds), `normalize_as_agent_event` and
 * `position_reserved_attr_event_root`.  The functions state what each step
 * does to the event; the methods of `LogEvent` make the same changes in place.
 */
module Normalize {
  import opened Common
  import opened LogEvents

  const Message := "message"
  const DdTags := "ddtags"
  const TimestampField := "timestamp"
  const ReservedPrefix := "_RESERVED_"
  const TagSeparator := ','

  /** The reserved semantic attributes: pairs of a semantic meaning and the
      root field where the logs intake expects it. */
  type ReservedAttrs = seq<(string, string)>

  /** `is_reserved_attribute`: the key is the expected field of a reserved attribute. */
  predicate IsReservedAttribute(attrs: ReservedAttrs, key: string)
  {
    exists i :: 0 <= i < |attrs| && attrs[i].1 == key
  }

  // ---------------------------------------------------------------------------
  // position_reserved_attr_event_root

  /** Nothing about `path` is at the root fields `names` of the event. */
  predicate AvoidsRootFields(path: TargetPath, names: set<string>)
  {
    path.prefix == MetadataPrefix
    || (path.segments != [] && !(path.segments[0].Field? && path.segments[0].name in names))
  }

  /** Moves the value at `current` to the root field `expected`; a value already
      there is first moved to `_RESERVED_<meaning>`. */
  function PositionReserved(log: LogData, current: TargetPath, expected: string, meaning: string): (r: LogData)
    ensures PathIsField(current, expected) ==> r == log
    ensures log.value.Object? ==> r.value.Object?
  {
    if PathIsField(current, expected) then log
    else
      var cleared := if HasRootField(log, expected)
                     then RenameToField(log, EventField(expected), ReservedPrefix + meaning)
                     else log;
      RenameToField(cleared, current, expected)
  }

  /** Removing below root field `g` of an object leaves an object whose other fields are as before. */
  lemma RemoveInKeepsOtherFields(v: Value, segments: seq<Segment>)
    requires v.Object? && segments != []
    ensures RemoveIn(v, segments).0.Object?
    ensures forall h :: (h in v.fields && !(segments[0] == Field(h))) ==>
              h in RemoveIn(v, segments).0.fields && RemoveIn(v, segments).0.fields[h] == v.fields[h]
    ensures forall h :: h in RemoveIn(v, segments).0.fields ==> h in v.fields
  {
  }

  /** Two objects that agree on root field `g` agree on every path through `g`. */
  lemma GetInThroughField(v: Value, w: Value, segments: seq<Segment>)
    requires v.Object? && w.Object? && segments != [] && segments[0].Field?
    requires segments[0].name in v.fields <==> segments[0].name in w.fields
    requires segments[0].name in v.fields ==> v.fields[segments[0].name] == w.fields[segments[0].name]
    ensures GetIn(v, segments) == GetIn(w, segments)
  {
  }

  /** Two objects that agree on root field `g` still agree on it after a removal below `g`. */
  lemma RemoveInSameField(v: Value, w: Value, segments: seq<Segment>)
    requires v.Object? && w.Object? && segments != [] && segments[0].Field?
    requires segments[0].name in v.fields <==> segments[0].name in w.fields
    requires segments[0].name in v.fields ==> v.fields[segments[0].name] == w.fields[segments[0].name]
    ensures RemoveIn(v, segments).0.Object? && RemoveIn(w, segments).0.Object?
    ensures segments[0].name in RemoveIn(v, segments).0.fields <==> segments[0].name in RemoveIn(w, segments).0.fields
    ensures segments[0].name in RemoveIn(v, segments).0.fields ==>
              RemoveIn(v, segments).0.fields[segments[0].name] == RemoveIn(w, segments).0.fields[segments[0].name]
  {
  }

  /** The first step of positioning: `expected` is emptied, its value (if any)
      kept at `reserved`; no other root field and no metadata changes. */
  lemma ClearFieldMoves(log: LogData, expected: string, reserved: string)
    requires log.value.Object? && expected != reserved
    ensures var c := if HasRootField(log, expected) then RenameToField(log, EventField(expected), reserved) else log;
      && c.value.Object? && c.metadata == log.metadata
      && RootField(c, expected) == None
      && RootField(c, reserved) == (if HasRootField(log, expected) then RootField(log, expected) else RootField(log, reserved))
      && forall g :: g != expected && g != reserved ==> RootField(c, g) == RootField(log, g)
  {
    var m := log.value.fields;
    RootFields(log);
    var c := if HasRootField(log, expected) then RenameToField(log, EventField(expected), reserved) else log;
    if HasRootField(log, expected) {
      var (removedLog, moved) := RemovePath(log, EventField(expected));
      assert [Field(expected)][1..] == [];
      assert removedLog.value == Object(m - {expected});
      assert c.value == Object((m - {expected})[reserved := m[expected]]);
    }
    RootFields(c);
  }

  /** The second step of positioning: the value at `current` moves to the empty
      root field `expected`; the first field of an event path `current` is as
      after the removal, other root fields are left alone, and the metadata
      loses what was at a metadata path `current`. */
  lemma MoveToEmptyField(c: LogData, current: TargetPath, expected: string)
    requires c.value.Object? && RootField(c, expected) == None
    requires AvoidsRootFields(current, {expected})
    ensures var r := RenameToField(c, current, expected);
      && r.value.Object?
      && RootField(r, expected) == GetPath(c, current)
      && (current.prefix == EventPrefix && current.segments[0].Field? ==>
            RootField(r, current.segments[0].name) == RootField(RemovePath(c, current).0, current.segments[0].name))
      && (forall g :: g != expected && !(current.prefix == EventPrefix && current.segments[0] == Field(g))
                      ==> RootField(r, g) == RootField(c, g))
      && r.metadata == (if current.prefix == MetadataPrefix then RemoveIn(c.metadata, current.segments).0 else c.metadata)
  {
    var (removedLog, moved) := RemovePath(c, current);
    RemoveInYieldsGetIn(Tree(c, current.prefix), current.segments);
    if current.prefix == EventPrefix {
      RemoveInKeepsOtherFields(c.value, current.segments);
    }
    RootFields(c);
    RootFields(removedLog);
    if moved.None? {
      RemoveInNotFound(Tree(c, current.prefix), current.segments);
    }
  }

  /**
   * When the source path and the two root fields involved are distinct:
   * the value found at `current` ends up at `expected` (which is empty
   * afterwards if nothing was found); `_RESERVED_<meaning>` holds the previous
   * occupant of `expected`, if there was one; the first field of an event path
   * `current` is as after removing `current`; every other root field is left
   * alone; and the metadata loses what was at a metadata path `current`.
   */
  lemma PositionReservedMoves(log: LogData, current: TargetPath, expected: string, meaning: string)
    requires log.value.Object?
    requires !PathIsField(current, expected)
    requires expected != ReservedPrefix + meaning
    requires AvoidsRootFields(current, {expected, ReservedPrefix + meaning})
    ensures var r := PositionReserved(log, current, expected, meaning);
            var reserved := ReservedPrefix + meaning;
      && r.value.Object?
      && RootField(r, expected) == GetPath(log, current)
      && RootField(r, reserved) == (if HasRootField(log, expected) then RootField(log, expected) else RootField(log, reserved))
      && (current.prefix == EventPrefix && current.segments[0].Field? ==>
            RootField(r, current.segments[0].name) == RootField(RemovePath(log, current).0, current.segments[0].name))
      && (forall g :: g != expected && g != reserved && !(current.prefix == EventPrefix && current.segments[0] == Field(g))
                      ==> RootField(r, g) == RootField(log, g))
      && r.metadata == (if current.prefix == MetadataPrefix then RemoveIn(log.metadata, current.segments).0 else log.metadata)
  {
    var reserved := ReservedPrefix + meaning;
    var c := if HasRootField(log, expected) then RenameToField(log, EventField(expected), reserved) else log;
    ClearFieldMoves(log, expected, reserved);
    MoveToEmptyField(c, current, expected);
    if current.prefix == EventPrefix && current.segments[0].Field? {
      var g0 := current.segments[0].name;
      RootFields(log);
      RootFields(c);
      assert RootField(c, g0) == RootField(log, g0);
      GetInThroughField(c.value, log.value, current.segments);
      RemoveInSameField(c.value, log.value, current.segments);
      RootFields(RemovePath(c, current).0);
      RootFields(RemovePath(log, current).0);
    }
  }

  /** The reserved attributes are visited in order; each one whose meaning the
      event's schema assigns to a path is positioned at its expected field.
      An object root stays an object. */
  function RepositionAll(log: LogData, attrs: ReservedAttrs, meanings: map<string, TargetPath>): (r: LogData)
    ensures log.value.Object? ==> r.value.Object?
    decreases |attrs|
  {
    if attrs == [] then log
    else
      var before := RepositionAll(log, attrs[..|attrs| - 1], meanings);
      var (meaning, expected) := attrs[|attrs| - 1];
      if meaning in meanings then PositionReserved(before, meanings[meaning], expected, meaning) else before
  }

  /** A path made of field names only. */
  predicate FieldsOnly(segments: seq<Segment>)
  {
    forall k :: 0 <= k < |segments| ==> segments[k].Field?
  }

  /** A path into the event's metadata through field names only. */
  predicate MetadataFieldPath(path: TargetPath)
  {
    path.prefix == MetadataPrefix && FieldsOnly(path.segments)
  }

  /** Neither path is a prefix of the other: after a common start they name different segments. */
  predicate Diverge(a: seq<Segment>, b: seq<Segment>)
  {
    exists p :: 0 <= p < |a| && p < |b| && a[..p] == b[..p] && a[p] != b[p]
  }

  /**
   * The reserved attributes can all be placed without disturbing each other:
   * their expected fields are distinct and none is a `_RESERVED_` name, and the
   * schema puts each assigned meaning at a metadata path of field names, no
   * two of them on one line (neither inside the other).
   */
  predicate Placeable(attrs: ReservedAttrs, meanings: map<string, TargetPath>)
  {
    && (forall i, j :: 0 <= i < j < |attrs| ==> attrs[i].1 != attrs[j].1)
    && (forall i, j :: 0 <= i < |attrs| && 0 <= j < |attrs| ==> attrs[i].1 != ReservedPrefix + attrs[j].0)
    && (forall i :: 0 <= i < |attrs| && attrs[i].0 in meanings ==> MetadataFieldPath(meanings[attrs[i].0]))
    && (forall i, j :: 0 <= i < j < |attrs| && attrs[i].0 in meanings && attrs[j].0 in meanings
          ==> Diverge(meanings[attrs[i].0].segments, meanings[attrs[j].0].segments))
  }

  /** Removing below one field leaves what is below a different field. */
  lemma RemoveInKeepsOtherPaths(v: Value, removed: seq<Segment>, kept: seq<Segment>)
    requires removed != [] && kept != [] && removed[0].Field? && kept[0].Field? && removed[0] != kept[0]
    ensures GetIn(RemoveIn(v, removed).0, kept) == GetIn(v, kept)
  {
    if v.Object? {
      RemoveInKeepsOtherFields(v, removed);
      GetInThroughField(RemoveIn(v, removed).0, v, kept);
    }
  }

  /** Removing along one path of field names leaves what is at any path diverging from it. */
  lemma {:induction false} RemoveInKeepsDiverging(v: Value, removed: seq<Segment>, kept: seq<Segment>)
    requires FieldsOnly(removed) && FieldsOnly(kept) && Diverge(removed, kept)
    ensures GetIn(RemoveIn(v, removed).0, kept) == GetIn(v, kept)
    decreases |removed|
  {
    var p :| 0 <= p < |removed| && p < |kept| && removed[..p] == kept[..p] && removed[p] != kept[p];
    assert removed[0].Field? && kept[0].Field?;
    if p == 0 {
      RemoveInKeepsOtherPaths(v, removed, kept);
    } else {
      assert removed[0] == removed[..p][0] == kept[..p][0] == kept[0];
      var f := removed[0].name;
      if v.Object? && f in v.fields {
        assert removed[1..][..p - 1] == removed[..p][1..] && kept[1..][..p - 1] == kept[..p][1..];
        assert removed[1..][p - 1] == removed[p] && kept[1..][p - 1] == kept[p];
        assert Diverge(removed[1..], kept[1..]);
        assert FieldsOnly(removed[1..]) by {
          forall k | 0 <= k < |removed[1..]| ensures removed[1..][k].Field? { assert removed[1..][k] == removed[k + 1]; }
        }
        assert FieldsOnly(kept[1..]) by {
          forall k | 0 <= k < |kept[1..]| ensures kept[1..][k].Field? { assert kept[1..][k] == kept[k + 1]; }
        }
        RemoveInKeepsDiverging(v.fields[f], removed[1..], kept[1..]);
      }
    }
  }

  /** Diverging paths differ, and divergence is symmetric. */
  lemma DivergeDistinct(a: seq<Segment>, b: seq<Segment>)
    requires Diverge(a, b)
    ensures a != b && Diverge(b, a)
  {
    var p :| 0 <= p < |a| && p < |b| && a[..p] == b[..p] && a[p] != b[p];
    assert b[..p] == a[..p] && b[p] != a[p];
  }

  /** Distinct meanings have distinct `_RESERVED_` fields. */
  lemma ReservedNamesDiffer(m1: string, m2: string)
    requires m1 != m2
    ensures ReservedPrefix + m1 != ReservedPrefix + m2
  {
    assert (ReservedPrefix + m1)[|ReservedPrefix|..] == m1;
    assert (ReservedPrefix + m2)[|ReservedPrefix|..] == m2;
  }

  /** Root field `g` is neither the expected field nor the `_RESERVED_` field of
      any of the first `k` attributes whose meaning is assigned. */
  predicate Untouched(attrs: ReservedAttrs, meanings: map<string, TargetPath>, k: nat, g: string)
  {
    forall i :: 0 <= i < k && i < |attrs| && attrs[i].0 in meanings ==>
      g != attrs[i].1 && g != ReservedPrefix + attrs[i].0
  }

  /** Metadata path `q` diverges from the meaning path of each of the first `k`
      attributes whose meaning is assigned. */
  predicate ClearOfPlaced(attrs: ReservedAttrs, meanings: map<string, TargetPath>, k: nat, q: seq<Segment>)
  {
    forall i :: 0 <= i < k && i < |attrs| && attrs[i].0 in meanings ==> Diverge(meanings[attrs[i].0].segments, q)
  }

  /**
   * After the first `k` reserved attributes have been positioned, each of
   * them whose meaning is assigned holds, at its expected root field, what
   * the event had at the meaning's path, and its `_RESERVED_<meaning>` field
   * holds the previous occupant of the expected field, if there was one; every
   * other root field is as it was; the paths of the attributes still to come
   * hold what they held.
   */
  lemma {:induction false} RepositionPlacesAttrs(log: LogData, attrs: ReservedAttrs,
                                                 meanings: map<string, TargetPath>, k: nat)
    requires log.value.Object? && Placeable(attrs, meanings) && k <= |attrs|
    ensures var r := RepositionAll(log, attrs[..k], meanings);
      && (forall i :: 0 <= i < k && attrs[i].0 in meanings ==>
            RootField(r, attrs[i].1) == GetPath(log, meanings[attrs[i].0]))
      && (forall i :: 0 <= i < k && attrs[i].0 in meanings ==>
            RootField(r, ReservedPrefix + attrs[i].0)
              == if RootField(log, attrs[i].1).Some? then RootField(log, attrs[i].1)
                 else RootField(log, ReservedPrefix + attrs[i].0))
      && (forall g :: Untouched(attrs, meanings, k, g) ==> RootField(r, g) == RootField(log, g))
      && (forall j :: k <= j < |attrs| && attrs[j].0 in meanings ==>
            GetPath(r, meanings[attrs[j].0]) == GetPath(log, meanings[attrs[j].0]))
    decreases k
  {
    if k > 0 {
      RepositionPlacesAttrs(log, attrs, meanings, k - 1);
      var before := RepositionAll(log, attrs[..k - 1], meanings);
      assert attrs[..k][..k - 1] == attrs[..k - 1];
      var (meaning, expected) := attrs[k - 1];
      var r := RepositionAll(log, attrs[..k], meanings);
      assert r == if meaning in meanings then PositionReserved(before, meanings[meaning], expected, meaning) else before;
      if meaning in meanings {
        var current := meanings[meaning];
        var reserved := ReservedPrefix + meaning;
        assert attrs[k - 1].1 != ReservedPrefix + attrs[k - 1].0;
        PositionReservedMoves(before, current, expected, meaning);
        forall i | 0 <= i < k - 1 && attrs[i].0 in meanings
          ensures reserved != ReservedPrefix + attrs[i].0
        {
          DivergeDistinct(meanings[attrs[i].0].segments, current.segments);
          ReservedNamesDiffer(meaning, attrs[i].0);
        }
        assert Untouched(attrs, meanings, k - 1, expected);
        assert Untouched(attrs, meanings, k - 1, reserved);
        RootFields(before);
        RootFields(log);
        forall j | k <= j < |attrs| && attrs[j].0 in meanings
          ensures GetPath(r, meanings[attrs[j].0]) == GetPath(log, meanings[attrs[j].0])
        {
          RemoveInKeepsDiverging(before.metadata, current.segments, meanings[attrs[j].0].segments);
        }
        forall i | 0 <= i < k - 1 && attrs[i].0 in meanings
          ensures RootField(r, attrs[i].1) == GetPath(log, meanings[attrs[i].0])
          ensures RootField(r, ReservedPrefix + attrs[i].0) == RootField(before, ReservedPrefix + attrs[i].0)
        {
          assert attrs[i].1 != ReservedPrefix + attrs[k - 1].0;
          assert attrs[k - 1].1 != ReservedPrefix + attrs[i].0;
        }
        forall g | Untouched(attrs, meanings, k, g) ensures RootField(r, g) == RootField(log, g) {
          assert g != attrs[k - 1].1 && g != ReservedPrefix + attrs[k - 1].0;
          assert Untouched(attrs, meanings, k - 1, g);
        }
      } else {
        forall g | Untouched(attrs, meanings, k, g) ensures Untouched(attrs, meanings, k - 1, g) {
        }
      }
    }
  }

  /**
   * The metadata after positioning the first `k` reserved attributes: each
   * assigned meaning's (non-root) path is empty, and every field path that
   * diverges from all of those holds what it held.
   */
  lemma {:induction false} RepositionClearsMeanings(log: LogData, attrs: ReservedAttrs,
                                                    meanings: map<string, TargetPath>, k: nat)
    requires log.value.Object? && Placeable(attrs, meanings) && k <= |attrs|
    ensures var r := RepositionAll(log, attrs[..k], meanings);
      && (forall i :: 0 <= i < k && attrs[i].0 in meanings && meanings[attrs[i].0].segments != [] ==>
            GetPath(r, meanings[attrs[i].0]) == None)
      && (forall q :: FieldsOnly(q) && ClearOfPlaced(attrs, meanings, k, q) ==>
            GetIn(r.metadata, q) == GetIn(log.metadata, q))
    decreases k
  {
    if k > 0 {
      RepositionClearsMeanings(log, attrs, meanings, k - 1);
      var before := RepositionAll(log, attrs[..k - 1], meanings);
      assert attrs[..k][..k - 1] == attrs[..k - 1];
      var (meaning, expected) := attrs[k - 1];
      var r := RepositionAll(log, attrs[..k], meanings);
      assert r == if meaning in meanings then PositionReserved(before, meanings[meaning], expected, meaning) else before;
      if meaning in meanings {
        var current := meanings[meaning];
        assert attrs[k - 1].1 != ReservedPrefix + attrs[k - 1].0;
        PositionReservedMoves(before, current, expected, meaning);
        assert r.metadata == RemoveIn(before.metadata, current.segments).0;
        if current.segments != [] {
          RemoveInClears(before.metadata, current.segments);
        }
        forall i | 0 <= i < k - 1 && attrs[i].0 in meanings && meanings[attrs[i].0].segments != []
          ensures GetPath(r, meanings[attrs[i].0]) == None
        {
          DivergeDistinct(meanings[attrs[i].0].segments, current.segments);
          RemoveInKeepsDiverging(before.metadata, current.segments, meanings[attrs[i].0].segments);
        }
        forall q | FieldsOnly(q) && ClearOfPlaced(attrs, meanings, k, q)
          ensures GetIn(r.metadata, q) == GetIn(log.metadata, q)
        {
          assert Diverge(meanings[attrs[k - 1].0].segments, q);
          assert ClearOfPlaced(attrs, meanings, k - 1, q);
          RemoveInKeepsDiverging(before.metadata, current.segments, q);
        }
      } else {
        forall q | FieldsOnly(q) && ClearOfPlaced(attrs, meanings, k, q) ensures ClearOfPlaced(attrs, meanings, k - 1, q) {
        }
      }
    }
  }

  // ---------------------------------------------------------------------------
  // ddtags

  /** The byte elements of a tag array, in order; other elements are skipped. */
  function TagTexts(tags: seq<Value>): (texts: seq<string>)
    ensures forall k :: 0 <= k < |texts| ==> Bytes(texts[k]) in tags
    ensures forall i :: 0 <= i < |tags| && tags[i].Bytes? ==> tags[i].text in texts
    ensures (forall i :: 0 <= i < |tags| ==> tags[i].Bytes?) ==>
              |texts| == |tags| && forall i :: 0 <= i < |tags| ==> texts[i] == tags[i].text
  {
    if tags == [] then []
    else (if tags[0].Bytes? then [tags[0].text] else []) + TagTexts(tags[1..])
  }

  /** Filtering the tags distributes over concatenation, so the byte elements
      keep their order and their repetitions. */
  lemma {:induction false} TagTextsAppend(a: seq<Value>, b: seq<Value>)
    ensures TagTexts(a + b) == TagTexts(a) + TagTexts(b)
    decreases |a|
  {
    if a == [] {
      assert a + b == b;
    } else {
      assert (a + b)[1..] == a[1..] + b;
      TagTextsAppend(a[1..], b);
    }
  }

  /** A single element contributes its text if it is a byte string, and nothing otherwise. */
  lemma TagTextsSingle(tag: Value)
    ensures TagTexts([tag]) == if tag.Bytes? then [tag.text] else []
  {
    assert [tag][1..] == [];
  }

  /** The parts with one `sep` between each two (itertools' `join`). */
  function JoinWith(parts: seq<string>, sep: char): string
  {
    if |parts| == 0 then ""
    else if |parts| == 1 then parts[0]
    else parts[0] + [sep] + JoinWith(parts[1..], sep)
  }

  /** The tag array as the comma-delimited string the logs intake expects. */
  function JoinTags(tags: seq<Value>): string
  {
    JoinWith(TagTexts(tags), TagSeparator)
  }

  /** Splitting at every separator, as the receiving side reads the joined tags. */
  function Split(s: string, sep: char): (parts: seq<string>)
    ensures |parts| > 0
    decreases |s|
  {
    if |s| == 0 then [""]
    else
      var rest := Split(s[1..], sep);
      if s[0] == sep then [""] + rest else [[s[0]] + rest[0]] + rest[1..]
  }

  lemma {:induction false} SplitJoined(a: string, b: string, sep: char)
    requires sep !in a
    ensures Split(a + [sep] + b, sep) == [a] + Split(b, sep)
    decreases |a|
  {
    if a == [] {
      assert (a + [sep] + b)[1..] == b;
    } else {
      assert (a + [sep] + b)[1..] == a[1..] + [sep] + b;
      SplitJoined(a[1..], b, sep);
      assert [a[0]] + a[1..] == a;
    }
  }

  lemma {:induction false} SplitSingle(a: string, sep: char)
    requires sep !in a
    ensures Split(a, sep) == [a]
    decreases |a|
  {
    if a != [] {
      SplitSingle(a[1..], sep);
      assert [a[0]] + a[1..] == a;
    }
  }

  /** Joining tags that contain no comma and splitting the result at commas gives the tags back. */
  lemma {:induction false} SplitJoinWith(parts: seq<string>, sep: char)
    requires |parts| > 0
    requires forall i :: 0 <= i < |parts| ==> sep !in parts[i]
    ensures Split(JoinWith(parts, sep), sep) == parts
    decreases |parts|
  {
    if |parts| == 1 {
      SplitSingle(parts[0], sep);
    } else {
      SplitJoined(parts[0], JoinWith(parts[1..], sep), sep);
      SplitJoinWith(parts[1..], sep);
    }
  }

  /** The `ddtags` step: a non-empty array at root field `ddtags` becomes the
      comma-joined string of its byte elements; anything else is left alone. */
  function NormalizeTags(log: LogData): (r: LogData)
    ensures r.metadata == log.metadata
    ensures RootField(log, DdTags).Some? && RootField(log, DdTags).value.Array? && RootField(log, DdTags).value.items != []
            ==> RootField(r, DdTags) == Some(Bytes(JoinTags(RootField(log, DdTags).value.items)))
                && forall g :: g != DdTags ==> RootField(r, g) == RootField(log, g)
    ensures !(RootField(log, DdTags).Some? && RootField(log, DdTags).value.Array? && RootField(log, DdTags).value.items != [])
            ==> r == log
  {
    GetInField(log.value, DdTags);
    if HasRootField(log, DdTags) && log.value.fields[DdTags].Array? && log.value.fields[DdTags].items != [] then
      InsertField(log, DdTags, Bytes(JoinTags(log.value.fields[DdTags].items)))
    else log
  }

  /** Two parts join around one separator. */
  lemma JoinWithTwo(a: string, b: string, sep: char)
    ensures JoinWith([a, b], sep) == a + [sep] + b
  {
    assert [a, b][1..] == [b];
  }

  /** Two byte tags join around one comma, whatever non-byte element lies between them. */
  lemma JoinTagsAroundNonBytes(a: string, other: Value, b: string)
    requires !other.Bytes?
    ensures JoinTags([Bytes(a), Bytes(b)]) == a + [TagSeparator] + b
    ensures JoinTags([Bytes(a), other, Bytes(b)]) == a + [TagSeparator] + b
  {
    var x, y, z := Bytes(a), other, Bytes(b);
    assert [x, z] == [x] + [z];
    assert [x, y, z] == [x] + ([y] + [z]);
    TagTextsAppend([x], [z]);
    TagTextsAppend([x], [y] + [z]);
    TagTextsAppend([y], [z]);
    TagTextsSingle(x);
    TagTextsSingle(y);
    TagTextsSingle(z);
    assert TagTexts([y] + [z]) == [b];
    assert TagTexts([x, z]) == [a, b] && TagTexts([x, y, z]) == [a, b];
    JoinWithTwo(a, b, TagSeparator);
  }

  /** The tags of the intake's examples are joined into one comma-delimited string. */
  lemma JoinTagsExample()
    ensures JoinTags([Bytes("key1:value1"), Bytes("key2:value2")]) == "key1:value1,key2:value2"
  {
    JoinTagsAroundNonBytes("key1:value1", Null, "key2:value2");
    assert "key1:value1" + [TagSeparator] + "key2:value2" == "key1:value1,key2:value2";
  }

  /** A non-byte element between the tags is skipped. */
  lemma JoinTagsSkipsNonBytes()
    ensures JoinTags([Bytes("key1:value1"), Integer(7), Bytes("key2:value2")]) == "key1:value1,key2:value2"
  {
    JoinTagsAroundNonBytes("key1:value1", Integer(7), "key2:value2");
    assert "key1:value1" + [TagSeparator] + "key2:value2" == "key1:value1,key2:value2";
  }

  // ---------------------------------------------------------------------------
  // timestamp

  /** Milliseconds since the epoch, rounded down (`timestamp_millis`). */
  function TimestampMillis(nanos: int): (millis: int)
    ensures millis * 1_000_000 <= nanos < (millis + 1) * 1_000_000
  {
    nanos / 1_000_000
  }

  /** The timestamp step removes root field `timestamp`, and puts it back as
      milliseconds only if it was a timestamp. */
  function NormalizeTimestamp(log: LogData): (r: LogData)
    ensures r.metadata == log.metadata
    ensures log.value.Object? ==> r.value.Object?
    ensures log.value.Object? ==>
      RootField(r, TimestampField) == match RootField(log, TimestampField)
        case Some(Timestamp(n)) => Some(Integer(TimestampMillis(n)))
        case _ => None
    ensures log.value.Object? ==>
      forall g :: g != TimestampField ==> RootField(r, g) == RootField(log, g)
  {
    var (removedLog, ts) := RemovePath(log, EventField(TimestampField));
    GetInField(log.value, TimestampField);
    assert [Field(TimestampField)][1..] == [];
    var r := match ts
      case Some(Timestamp(n)) => InsertField(removedLog, TimestampField, Integer(TimestampMillis(n)))
      case _ => removedLog;
    assert log.value.Object? ==> forall g :: g != TimestampField ==> RootField(r, g) == RootField(log, g) by {
      if log.value.Object? {
        forall g | g != TimestampField ensures RootField(r, g) == RootField(log, g) {
          GetInField(r.value, g);
          GetInField(log.value, g);
        }
      }
    }
    GetInField(r.value, TimestampField);
    r
  }

  // ---------------------------------------------------------------------------
  // normalize_event

  /** A root that is not an object becomes an object holding it under `message`. */
  function ObjectRoot(log: LogData): (r: LogData)
    ensures r.value.Object?
    ensures log.value.Object? ==> r == log
    ensures !log.value.Object? ==> r.value.fields == map[Message := log.value] && r.metadata == log.metadata
  {
    if log.value.Object? then log else InsertField(log, Message, log.value)
  }

  /**
   * `normalize_event`: afterwards the root is an object, a root `timestamp` is
   * an integer if present at all, and `ddtags` is not a non-empty array.  In
   * terms of the event with its reserved attributes positioned: `ddtags` is
   * joined if it was a non-empty array, `timestamp` is in milliseconds if it
   * was a timestamp and gone otherwise, and nothing else changes.
   */
  function NormalizeEventSpec(log: LogData, meanings: map<string, TargetPath>, attrs: ReservedAttrs): (r: LogData)
    ensures r.value.Object?
    ensures RootField(r, TimestampField) == None || RootField(r, TimestampField).value.Integer?
    ensures RootField(r, DdTags) == None || !RootField(r, DdTags).value.Array? || RootField(r, DdTags).value.items == []
    ensures var positioned := RepositionAll(ObjectRoot(log), attrs, meanings);
      && r.metadata == positioned.metadata
      && RootField(r, DdTags)
           == (var tags := RootField(positioned, DdTags);
               if tags.Some? && tags.value.Array? && tags.value.items != [] then Some(Bytes(JoinTags(tags.value.items))) else tags)
      && RootField(r, TimestampField)
           == (var ts := RootField(positioned, TimestampField);
               if ts.Some? && ts.value.Timestamp? then Some(Integer(TimestampMillis(ts.value.nanos))) else None)
      && forall g :: g != DdTags && g != TimestampField ==> RootField(r, g) == RootField(positioned, g)
  {
    var rooted := ObjectRoot(log);
    var positioned := RepositionAll(rooted, attrs, meanings);
    var tagged := NormalizeTags(positioned);
    assert tagged.value.Object?;
    var stamped := NormalizeTimestamp(tagged);
    assert RootField(stamped, DdTags) == RootField(tagged, DdTags);
    stamped
  }

  /**
   * What `normalize_event` makes of reserved attributes that the schema places
   * in the metadata: each one found there ends up at its expected root field,
   * `ddtags` joined into one string when it was a non-empty array, and
   * `timestamp` in milliseconds when it was a timestamp (and gone otherwise);
   * the previous occupant of an expected field is kept at
   * `_RESERVED_<meaning>`; every other root field but `ddtags` and `timestamp`
   * is as it was; the meanings' paths are emptied and the rest of the metadata
   * is kept.
   */
  lemma NormalizeEventPlacesReservedAttrs(log: LogData, meanings: map<string, TargetPath>, attrs: ReservedAttrs)
    requires Placeable(attrs, meanings)
    ensures var r := NormalizeEventSpec(log, meanings, attrs);
      forall i :: 0 <= i < |attrs| && attrs[i].0 in meanings ==>
        var found := GetPath(log, meanings[attrs[i].0]);
        RootField(r, attrs[i].1)
          == if attrs[i].1 == DdTags && found.Some? && found.value.Array? && found.value.items != []
             then Some(Bytes(JoinTags(found.value.items)))
             else if attrs[i].1 == TimestampField
             then (if found.Some? && found.value.Timestamp? then Some(Integer(TimestampMillis(found.value.nanos))) else None)
             else found
    ensures var r := NormalizeEventSpec(log, meanings, attrs);
      var rooted := ObjectRoot(log);
      && (forall i :: 0 <= i < |attrs| && attrs[i].0 in meanings ==>
            RootField(r, ReservedPrefix + attrs[i].0)
              == if RootField(rooted, attrs[i].1).Some? then RootField(rooted, attrs[i].1)
                 else RootField(rooted, ReservedPrefix + attrs[i].0))
      && (forall g :: g != DdTags && g != TimestampField && Untouched(attrs, meanings, |attrs|, g) ==>
            RootField(r, g) == RootField(rooted, g))
    ensures var r := NormalizeEventSpec(log, meanings, attrs);
      && (forall i :: 0 <= i < |attrs| && attrs[i].0 in meanings && meanings[attrs[i].0].segments != [] ==>
            GetPath(r, meanings[attrs[i].0]) == None)
      && (forall q :: FieldsOnly(q) && ClearOfPlaced(attrs, meanings, |attrs|, q) ==>
            GetIn(r.metadata, q) == GetIn(log.metadata, q))
  {
    var rooted := ObjectRoot(log);
    RepositionPlacesAttrs(rooted, attrs, meanings, |attrs|);
    RepositionClearsMeanings(rooted, attrs, meanings, |attrs|);
    assert attrs[..|attrs|] == attrs;
    forall m: string ensures ReservedPrefix + m != DdTags && ReservedPrefix + m != TimestampField {
      assert |ReservedPrefix + m| > |TimestampField| > |DdTags|;
    }
  }

  // ---------------------------------------------------------------------------
  // normalize_as_agent_event

  /**
   * `normalize_as_agent_event`: every non-reserved root entry moves into a new
   * object stored at `message`; afterwards the root holds only reserved fields
   * and `message`, reserved entries keep their values, and `message` holds
   * exactly the entries that were not reserved.  A root that is not an object
   * is left alone.
   */
  function NormalizeAsAgent(log: LogData, attrs: ReservedAttrs): (r: LogData)
    ensures r.metadata == log.metadata
    ensures !log.value.Object? ==> r == log
    ensures log.value.Object? ==>
      && r.value.Object?
      && (forall k :: k in r.value.fields ==> k == Message || IsReservedAttribute(attrs, k))
      && Message in r.value.fields && r.value.fields[Message].Object?
      && (forall k :: k in r.value.fields[Message].fields <==> k in log.value.fields && !IsReservedAttribute(attrs, k))
      && (forall k :: k in r.value.fields[Message].fields ==> r.value.fields[Message].fields[k] == log.value.fields[k])
      && (forall k :: k in log.value.fields && IsReservedAttribute(attrs, k) && k != Message
                      ==> k in r.value.fields && r.value.fields[k] == log.value.fields[k])
    ensures log.value.Object? ==>
      r.value.fields.Keys == {Message} + (set k | k in log.value.fields && IsReservedAttribute(attrs, k))
  {
    match log.value
    case Object(m) =>
      var kept := map k | k in m && IsReservedAttribute(attrs, k) :: m[k];
      var moved := map k | k in m && !IsReservedAttribute(attrs, k) :: m[k];
      log.(value := Object(kept[Message := Object(moved)]))
    case _ => log
  }

  /** Whatever the event, after both normalisations only reserved fields and
      `message` remain at its root. */
  lemma AgentRootHoldsOnlyReserved(log: LogData, meanings: map<string, TargetPath>, attrs: ReservedAttrs)
    ensures var r := NormalizeAsAgent(NormalizeEventSpec(log, meanings, attrs), attrs);
      && r.value.Object?
      && forall k :: k in r.value.fields ==> k == Message || IsReservedAttribute(attrs, k)
  {
  }

  /** A field of the `datadog_agent` source metadata. */
  function AgentPath(name: string): TargetPath
  {
    TargetPath(MetadataPrefix, [Field("datadog_agent"), Field(name)])
  }

  /** The metadata field the agent source's schema assigns to a meaning. */
  function AgentField(meaning: string): string
  {
    if meaning == "tags" then DdTags else if meaning == "host" then "hostname" else meaning
  }

  /** The agent source's schema: every meaning below `%datadog_agent`. */
  const AgentMeanings: map<string, TargetPath> :=
    map m | m in {"tags", "host", "timestamp", "severity", "service", "source"} :: AgentPath(AgentField(m))

  lemma AgentPathsDiverge(x: string, y: string)
    requires x != y
    ensures Diverge(AgentPath(x).segments, AgentPath(y).segments)
  {
    assert AgentPath(x).segments[..1] == AgentPath(y).segments[..1];
  }

  /** The agent source's schema meets `Placeable` for any list of reserved
      attributes with distinct meanings and expected fields, none `_RESERVED_`. */
  lemma AgentSchemaIsPlaceable(attrs: ReservedAttrs)
    requires forall i, j :: 0 <= i < j < |attrs| ==> attrs[i].0 != attrs[j].0 && attrs[i].1 != attrs[j].1
    requires forall i, j :: 0 <= i < |attrs| && 0 <= j < |attrs| ==> attrs[i].1 != ReservedPrefix + attrs[j].0
    ensures Placeable(attrs, AgentMeanings)
  {
    forall i | 0 <= i < |attrs| && attrs[i].0 in AgentMeanings
      ensures MetadataFieldPath(AgentMeanings[attrs[i].0])
    {
      var path := AgentMeanings[attrs[i].0];
      assert path.segments == [Field("datadog_agent"), Field(AgentField(attrs[i].0))];
    }
    forall i, j | 0 <= i < j < |attrs| && attrs[i].0 in AgentMeanings && attrs[j].0 in AgentMeanings
      ensures Diverge(AgentMeanings[attrs[i].0].segments, AgentMeanings[attrs[j].0].segments)
    {
      AgentPathsDiverge(AgentField(attrs[i].0), AgentField(attrs[j].0));
    }
  }

  // ---------------------------------------------------------------------------
  // The log event, changed in place.

  class LogEvent {
    var value: Value
    var metadata: Value

    constructor (value: Value, metadata: Value)
      ensures this.value == value && this.metadata == metadata
    {
      this.value := value;
      this.metadata := metadata;
    }

    function Data(): LogData
      reads this
    {
      LogData(value, metadata)
    }

    /** `contains` for a root field: whether the event holds a value there. */
    method Contains(field: string) returns (present: bool)
      ensures present <==> RootField(Data(), field).Some?
    {
      GetInField(value, field);
      present := value.Object? && field in value.fields;
    }

    /** `insert` at a root field. */
    method Insert(field: string, x: Value)
      modifies this
      ensures Data() == InsertField(old(Data()), field, x)
    {
      var d := InsertField(Data(), field, x);
      value, metadata := d.value, d.metadata;
    }

    /** `remove` at a target path. */
    method Remove(path: TargetPath) returns (removed: Option<Value>)
      modifies this
      ensures (Data(), removed) == RemovePath(old(Data()), path)
    {
      var (d, x) := RemovePath(Data(), path);
      value, metadata, removed := d.value, d.metadata, x;
    }

    /** `rename_key` to a root field. */
    method RenameKey(from: TargetPath, to: string)
      modifies this
      ensures Data() == RenameToField(old(Data()), from, to)
    {
      var moved := Remove(from);
      if moved.Some? {
        Insert(to, moved.value);
      }
    }

    /** `position_reserved_attr_event_root`. */
    method PositionReservedAttrEventRoot(currentPath: TargetPath, expectedFieldName: string, meaning: string)
      modifies this
      ensures Data() == PositionReserved(old(Data()), currentPath, expectedFieldName, meaning)
    {
      if !PathIsField(currentPath, expectedFieldName) {
        var occupied := Contains(expectedFieldName);
        if occupied {
          RenameKey(EventField(expectedFieldName), ReservedPrefix + meaning);
        }
        RenameKey(currentPath, expectedFieldName);
      }
    }

    /** `normalize_event`, with the event's semantic meanings and the reserved attributes. */
    method NormalizeEvent(meanings: map<string, TargetPath>, attrs: ReservedAttrs)
      modifies this
      ensures Data() == NormalizeEventSpec(old(Data()), meanings, attrs)
    {
      if !value.Object? {
        Insert(Message, value);
      }
      for i := 0 to |attrs|
        invariant Data() == RepositionAll(ObjectRoot(old(Data())), attrs[..i], meanings)
      {
        var (meaning, expectedFieldName) := attrs[i];
        assert attrs[..i + 1][..i] == attrs[..i];
        if meaning in meanings {
          PositionReservedAttrEventRoot(meanings[meaning], expectedFieldName, meaning);
        }
      }
      assert attrs[..|attrs|] == attrs;
      JoinDdTags();
      ConvertTimestamp();
    }

    /** The `ddtags` step of `normalize_event`. */
    method JoinDdTags()
      modifies this
      ensures Data() == NormalizeTags(old(Data()))
    {
      if value.Object? && DdTags in value.fields && value.fields[DdTags].Array? {
        var tags := value.fields[DdTags].items;
        if tags != [] {
          Insert(DdTags, Bytes(JoinTags(tags)));
        }
      }
    }

    /** The `timestamp` step of `normalize_event`. */
    method ConvertTimestamp()
      modifies this
      ensures Data() == NormalizeTimestamp(old(Data()))
    {
      var ts := Remove(EventField(TimestampField));
      if ts.Some? && ts.value.Timestamp? {
        Insert(TimestampField, Integer(TimestampMillis(ts.value.nanos)));
      }
    }

    /** `normalize_as_agent_event`. */
    method NormalizeAsAgentEvent(attrs: ReservedAttrs)
      modifies this
      ensures Data() == NormalizeAsAgent(old(Data()), attrs)
    {
      if !value.Object? {
        return;
      }
      ghost var original := value.fields;
      var localRoot: map<string, Value> := map[];
      var keysToMove := set k | k in value.fields && !IsReservedAttribute(attrs, k);
      var pending := keysToMove;
      while pending != {}
        invariant pending <= keysToMove
        invariant metadata == old(metadata)
        invariant value == Object(map k | k in original && k !in keysToMove - pending :: original[k])
        invariant localRoot == map k | k in keysToMove - pending :: original[k]
        decreases pending
      {
        var key :| key in pending;
        if key in value.fields {
          localRoot := localRoot[key := value.fields[key]];
          value := Object(value.fields - {key});
        }
        pending := pending - {key};
      }
      assert value.fields == map k | k in original && IsReservedAttribute(attrs, k) :: original[k];
      assert localRoot == map k | k in original && !IsReservedAttribute(attrs, k) :: original[k];
      Insert(Message, Object(localRoot));
    }
  }
}
