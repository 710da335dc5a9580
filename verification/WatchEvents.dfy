/** Watch lines and how they are marked (internal/proxy/watch.go). */
module WatchEvents {
  import opened Wire
  import opened Marking

  /** A line of a watch stream: bytes that are not JSON, or a JSON document. */
  datatype Line = Raw(bytes: string) | Json(event: Value)

  type VersionVector = map<string, Text>

  /** The line carries an object the proxy can mark. */
  predicate HasObject(line: Line) {
    line.Json? && line.event.Obj? && "object" in line.event.fields && line.event.fields["object"].Obj?
  }

  function ObjectOf(line: Line): Value
    requires HasObject(line)
  {
    line.event.fields["object"]
  }

  /** The version the proxy reads off a line. */
  function LineVersion(line: Line): Option<Text> {
    if HasObject(line) && SubText(Metadata(ObjectOf(line)), "resourceVersion") != EMPTY
    then Some(SubText(Metadata(ObjectOf(line)), "resourceVersion")) else None
  }

  datatype MarkedLine = MarkedLine(line: Line, versions: VersionVector)

  /** A line with its object marked; a versioned line first moves its own target's coordinate and then
  carries the whole vector. */
  function MarkLine(line: Line, context: string, versions: VersionVector): MarkedLine {
    if !HasObject(line) then MarkedLine(line, versions)
    else
      var item := ObjectOf(line);
      var version := LineVersion(line);
      var after := if version.Some? then versions[context := version.value] else versions;
      var stamped := if version.Some? then WithVersion(item, Vector(after)) else PutMetadata(item, Metadata(item));
      MarkedLine(Json(Obj(line.event.fields["object" := MarkEntry(stamped, context)])), after)
  }

  /** Marking moves no coordinate but the line's own, to exactly the version the line states, and a line is
  versioned afterwards exactly when it was before, by the whole vector. */
  lemma MarkLineMoves(line: Line, context: string, versions: VersionVector)
    ensures var marked := MarkLine(line, context, versions);
            && (LineVersion(line).None? ==> marked.versions == versions && LineVersion(marked.line).None?)
            && (LineVersion(line).Some? ==>
                  && marked.versions == versions[context := LineVersion(line).value]
                  && LineVersion(marked.line) == Some(Vector(marked.versions)))
  {
    if HasObject(line) {
      var item := ObjectOf(line);
      var marked := MarkLine(line, context, versions);
      var stamped := if LineVersion(line).Some? then WithVersion(item, Vector(marked.versions))
                     else PutMetadata(item, Metadata(item));
      MarkEntryIsOnePut(stamped, context);
      assert ObjectOf(marked.line) == MarkEntry(stamped, context);
    }
  }

  /** The version vector that the copying goroutines share. */
  class SharedVector {
    var versions: VersionVector

    constructor (start: VersionVector)
      ensures versions == start
    {
      versions := start;
    }

    method MarkEvent(line: Line, context: string) returns (marked: Line)
      modifies this
      ensures MarkedLine(marked, versions) == MarkLine(line, context, old(versions))
    {
      if !HasObject(line) {
        return line;
      }
      var item := ObjectOf(line);
      var version := SubText(Metadata(item), "resourceVersion");
      var stamped := PutMetadata(item, Metadata(item));
      if version != EMPTY {
        versions := versions[context := version];
        stamped := WithVersion(item, Vector(versions));
      }
      return Json(Obj(line.event.fields["object" := MarkEntry(stamped, context)]));
    }
  }

  /** What a line of a versioned object does to its target's coordinate. The proxy reads the object's own
  version exactly when the object does not wrap another one with a different version. A custom resource with
  an object under a top-level field `object` has its version read from inside that field: the vector stays
  where it was when there is none, and moves to a foreign version when there is another one. */
  lemma OwnVersionReadIff(line: Line, context: string, versions: VersionVector)
    requires HasObject(line) && VersionOf(ObjectOf(line)) != EMPTY
    ensures var item, after := ObjectOf(line), MarkLine(line, context, versions).versions;
            && (LineVersion(line) == Some(VersionOf(item)) <==>
                  !Wraps(item) || VersionOf(item.fields["object"]) == VersionOf(item))
            && (!Wraps(item) ==> after == versions[context := VersionOf(item)])
            && (Wraps(item) && VersionOf(item.fields["object"]) == EMPTY ==> after == versions)
            && (Wraps(item) && VersionOf(item.fields["object"]) != EMPTY ==>
                  after == versions[context := VersionOf(item.fields["object"])])
  {
  }

  /** An event the vector misses: the object says version 7, the vector stays as it was. */
  lemma WrappingEventIsMissed(versions: VersionVector)
    ensures var item := Obj(map["metadata" := Obj(map["resourceVersion" := Str(Lit("7"))]),
                                "object" := Obj(map[])]);
            var line := Json(Obj(map["type" := Str(Lit("ADDED")), "object" := item]));
            HasObject(line) && VersionOf(item) == Lit("7") && MarkLine(line, "one", versions).versions == versions
  {
  }

  /** An event that misleads the vector: the object says version 7, its coordinate moves to 999. */
  lemma WrappingEventMisleads(versions: VersionVector)
    ensures var inner := Obj(map["metadata" := Obj(map["resourceVersion" := Str(Lit("999"))])]);
            var item := Obj(map["metadata" := Obj(map["resourceVersion" := Str(Lit("7"))]), "object" := inner]);
            var line := Json(Obj(map["type" := Str(Lit("ADDED")), "object" := item]));
            && HasObject(line) && VersionOf(item) == Lit("7")
            && MarkLine(line, "one", versions).versions == versions["one" := Lit("999")]
  {
  }

  /** What a marked line looks like. A line without an object goes out as it came in. In any other one, a Status
  that reports an error included, only the object's metadata change: the two markers are set, and a version that
  was there is replaced by the vector; the rest of the event and of the object stay. */
  lemma MarkLineShape(line: Line, context: string, versions: VersionVector)
    ensures !HasObject(line) ==> MarkLine(line, context, versions).line == line
    ensures HasObject(line) ==>
              var after := MarkLine(line, context, versions);
              && HasObject(after.line) && after.line.event.fields - {"object"} == line.event.fields - {"object"}
              && var (was, now) := (ObjectOf(line), ObjectOf(after.line));
              && DifferInMetadata(now, was)
              && SubText(SubObject(Metadata(now), "annotations"), SOURCE_ANNOTATION) == Lit(context)
              && SubText(SubObject(Metadata(now), "labels"), CONTEXT_LABEL) == Lit(context)
              && Unmarked(Metadata(now)) == Unmarked(
                   if LineVersion(line).Some? then Metadata(was)["resourceVersion" := Str(Vector(after.versions))]
                   else Metadata(was))
  {
    if HasObject(line) {
      var was, after := ObjectOf(line), MarkLine(line, context, versions);
      var stamped := if LineVersion(line).Some? then WithVersion(was, Vector(after.versions))
                     else PutMetadata(was, Metadata(was));
      assert ObjectOf(after.line) == MarkEntry(stamped, context);
      MarkingAddsOnlyMarkers(stamped, context);
      PutDiffersInMetadata(was, Metadata(stamped));
    }
  }
}
