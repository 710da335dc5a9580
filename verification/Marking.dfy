/** Marking of list entries and watch events with the context they come from
(internal/proxy/aggregate.go, internal/proxy/watch.go). */
module Marking {
  import opened Wire
  import opened Numbers

  const SOURCE_ANNOTATION := "kubeconfig-proxy.io/source-context"
  const CONTEXT_LABEL := "kcp-context"

  /** An entry that wraps another object (a Table row does) keeps its metadata in the wrapped one. */
  predicate Wraps(entry: Value)
    requires entry.Obj?
  {
    "object" in entry.fields && entry.fields["object"].Obj?
  }

  function Metadata(entry: Value): Fields
    requires entry.Obj?
  {
    if Wraps(entry) then SubObject(entry.fields["object"].fields, "metadata")
    else SubObject(entry.fields, "metadata")
  }

  function PutMetadata(entry: Value, metadata: Fields): (r: Value)
    requires entry.Obj?
    ensures r.Obj? && Metadata(r) == metadata && Wraps(r) == Wraps(entry)
  {
    if Wraps(entry) then
      Obj(entry.fields["object" := Obj(entry.fields["object"].fields["metadata" := Obj(metadata)])])
    else
      Obj(entry.fields["metadata" := Obj(metadata)])
  }

  lemma PutPut(entry: Value, first: Fields, second: Fields)
    requires entry.Obj?
    ensures PutMetadata(PutMetadata(entry, first), second) == PutMetadata(entry, second)
  {
    var once := PutMetadata(entry, first);
    if Wraps(entry) {
      var inner := entry.fields["object"].fields;
      assert once.fields["object"].fields["metadata" := Obj(second)] == inner["metadata" := Obj(second)];
      assert PutMetadata(once, second).fields == PutMetadata(entry, second).fields;
    } else {
      assert PutMetadata(once, second).fields == PutMetadata(entry, second).fields;
    }
  }

  /** The metadata with both source markers set; everything else in it is left alone. */
  function Marked(metadata: Fields, context: string): Fields {
    var annotations := SubObject(metadata, "annotations")[SOURCE_ANNOTATION := Str(Lit(context))];
    var labels := SubObject(metadata, "labels")[CONTEXT_LABEL := Str(Lit(context))];
    metadata["annotations" := Obj(annotations)]["labels" := Obj(labels)]
  }

  function MarkContextLabel(entry: Value, contexts: string): Value {
    if !entry.Obj? then entry
    else
      var labels := SubObject(Metadata(entry), "labels")[CONTEXT_LABEL := Str(Lit(contexts))];
      PutMetadata(entry, Metadata(entry)["labels" := Obj(labels)])
  }

  function MarkEntry(entry: Value, context: string): Value {
    if !entry.Obj? then entry
    else
      var annotations := SubObject(Metadata(entry), "annotations")[SOURCE_ANNOTATION := Str(Lit(context))];
      MarkContextLabel(PutMetadata(entry, Metadata(entry)["annotations" := Obj(annotations)]), context)
  }

  /** Marking touches the metadata only, in one step. */
  lemma MarkEntryIsOnePut(entry: Value, context: string)
    requires entry.Obj?
    ensures MarkEntry(entry, context) == PutMetadata(entry, Marked(Metadata(entry), context))
  {
    var metadata := Metadata(entry);
    var annotations := SubObject(metadata, "annotations")[SOURCE_ANNOTATION := Str(Lit(context))];
    var middle := metadata["annotations" := Obj(annotations)];
    assert SubObject(middle, "labels") == SubObject(metadata, "labels");
    PutPut(entry, middle, Marked(metadata, context));
  }

  /** Where a client that knows nothing about wrapping reads an object's own metadata. */
  function OwnMetadata(entry: Value): Fields {
    if entry.Obj? then SubObject(entry.fields, "metadata") else map[]
  }

  /** The context a client reads off an object. */
  function SourceOf(entry: Value): Text {
    SubText(SubObject(OwnMetadata(entry), "annotations"), SOURCE_ANNOTATION)
  }

  datatype Key = Key(namespace: Value, name: Value)

  /** The identity of an object within its own cluster. */
  function KeyOf(entry: Value): Key {
    Key(Get(OwnMetadata(entry), "namespace"), Get(OwnMetadata(entry), "name"))
  }

  function VersionOf(entry: Value): Text {
    SubText(OwnMetadata(entry), "resourceVersion")
  }

  /** An object whose metadata is its own: not wrapped, and carrying a version. */
  predicate Regular(entry: Value) {
    entry.Obj? && !Wraps(entry) && VersionOf(entry) != EMPTY
  }

  function WithVersion(entry: Value, version: Text): Value
    requires entry.Obj?
  {
    PutMetadata(entry, Metadata(entry)["resourceVersion" := Str(version)])
  }

  /** Marking and versioning an unwrapped object never changes which object it is, and the object then
  names its source context; the version is exactly the one given. */
  lemma MarkingKeepsIdentity(entry: Value, version: Text, context: string)
    requires entry.Obj? && !Wraps(entry)
    ensures KeyOf(MarkEntry(WithVersion(entry, version), context)) == KeyOf(entry)
    ensures VersionOf(MarkEntry(WithVersion(entry, version), context)) == version
    ensures SourceOf(MarkEntry(WithVersion(entry, version), context)) == Lit(context)
    ensures KeyOf(MarkEntry(entry, context)) == KeyOf(entry)
    ensures SourceOf(MarkEntry(entry, context)) == Lit(context)
    ensures !Wraps(MarkEntry(entry, context))
  {
    MarkEntryIsOnePut(entry, context);
    MarkEntryIsOnePut(WithVersion(entry, version), context);
  }

  /** A source marker is readable at an object's own metadata exactly when the object does not wrap
  another one (or the two already agree): a custom resource with an object under its own top-level
  field `object` is marked inside that field. */
  lemma SourceReadableIff(entry: Value, context: string)
    requires entry.Obj?
    ensures SourceOf(MarkEntry(entry, context)) == Lit(context) <==>
            !Wraps(entry) || SourceOf(entry) == Lit(context)
  {
    MarkEntryIsOnePut(entry, context);
  }

  /** The view of an object that does not depend on versions: the source markers on, the version blanked. */
  function Shown(entry: Value, context: string): Value
    requires entry.Obj?
  {
    MarkEntry(WithVersion(entry, EMPTY), context)
  }

  /** However an object was versioned before it was marked, blanking the version afterwards gives the
  same view. */
  lemma ShownForgetsVersion(entry: Value, version: Text, context: string)
    requires entry.Obj?
    ensures MarkEntry(entry, context).Obj?
    ensures MarkEntry(WithVersion(entry, version), context).Obj?
    ensures WithVersion(MarkEntry(entry, context), EMPTY) == Shown(entry, context)
    ensures WithVersion(MarkEntry(WithVersion(entry, version), context), EMPTY) == Shown(entry, context)
  {
    BlankAfterMark(entry, context);
    BlankAfterMark(WithVersion(entry, version), context);
    var metadata := Metadata(entry);
    assert metadata["resourceVersion" := Str(version)]["resourceVersion" := Str(EMPTY)]
        == metadata["resourceVersion" := Str(EMPTY)];
    PutPut(entry, metadata["resourceVersion" := Str(version)], metadata["resourceVersion" := Str(EMPTY)]);
  }

  lemma BlankAfterMark(entry: Value, context: string)
    requires entry.Obj?
    ensures MarkEntry(entry, context).Obj?
    ensures WithVersion(MarkEntry(entry, context), EMPTY) == Shown(entry, context)
  {
    var metadata := Metadata(entry);
    var blank := metadata["resourceVersion" := Str(EMPTY)];
    MarkEntryIsOnePut(entry, context);
    MarkEntryIsOnePut(WithVersion(entry, EMPTY), context);
    PutPut(entry, Marked(metadata, context), Marked(metadata, context)["resourceVersion" := Str(EMPTY)]);
    PutPut(entry, blank, Marked(blank, context));
    assert SubObject(blank, "annotations") == SubObject(metadata, "annotations");
    assert SubObject(blank, "labels") == SubObject(metadata, "labels");
    assert Marked(metadata, context)["resourceVersion" := Str(EMPTY)] == Marked(blank, context);
  }

  /** Everything in a metadata object except the two source markers. */
  function Unmarked(metadata: Fields): Fields {
    metadata["annotations" := Obj(SubObject(metadata, "annotations") - {SOURCE_ANNOTATION})]
            ["labels" := Obj(SubObject(metadata, "labels") - {CONTEXT_LABEL})]
  }

  /** Two objects of one shape that differ in their metadata at most. */
  ghost predicate DifferInMetadata(a: Value, b: Value) {
    && a.Obj? && b.Obj? && Wraps(a) == Wraps(b)
    && if Wraps(a) then
         && a.fields - {"object"} == b.fields - {"object"}
         && a.fields["object"].fields - {"metadata"} == b.fields["object"].fields - {"metadata"}
       else a.fields - {"metadata"} == b.fields - {"metadata"}
  }

  lemma PutDiffersInMetadata(entry: Value, metadata: Fields)
    requires entry.Obj?
    ensures DifferInMetadata(PutMetadata(entry, metadata), entry)
  {
  }

  /** Marking changes nothing but the two markers: the metadata without them is the same as before (a
  missing or non-object container counts as empty), and the rest of the object is untouched. */
  lemma MarkingAddsOnlyMarkers(entry: Value, context: string)
    requires entry.Obj?
    ensures var after := MarkEntry(entry, context);
            && after.Obj?
            && Unmarked(Metadata(after)) == Unmarked(Metadata(entry))
            && DifferInMetadata(after, entry)
            && SubText(SubObject(Metadata(after), "annotations"), SOURCE_ANNOTATION) == Lit(context)
            && SubText(SubObject(Metadata(after), "labels"), CONTEXT_LABEL) == Lit(context)
  {
    MarkEntryIsOnePut(entry, context);
    var metadata := Metadata(entry);
    PutDiffersInMetadata(entry, Marked(metadata, context));
    var annotations := SubObject(metadata, "annotations");
    var labels := SubObject(metadata, "labels");
    assert annotations[SOURCE_ANNOTATION := Str(Lit(context))] - {SOURCE_ANNOTATION}
        == annotations - {SOURCE_ANNOTATION};
    assert labels[CONTEXT_LABEL := Str(Lit(context))] - {CONTEXT_LABEL} == labels - {CONTEXT_LABEL};
    assert Unmarked(Marked(metadata, context)) == Unmarked(metadata);
  }

  // ----- the virtual label of a named read, taken off again before a write

  /** The labels of an object, where the proxy looks for the virtual one before a POST or PUT. */
  predicate HasLabels(value: Value) {
    && value.Obj? && "metadata" in value.fields && value.fields["metadata"].Obj?
    && "labels" in value.fields["metadata"].fields && value.fields["metadata"].fields["labels"].Obj?
  }

  function Labels(value: Value): Fields
    requires HasLabels(value)
  {
    value.fields["metadata"].fields["labels"].fields
  }

  function WithoutVirtualLabel(value: Value): Value {
    if HasLabels(value) && CONTEXT_LABEL in Labels(value) then
      var metadata := value.fields["metadata"].fields["labels" := Obj(Labels(value) - {CONTEXT_LABEL})];
      Obj(value.fields["metadata" := Obj(metadata)])
    else value
  }

  /** The answer to a named read: the label goes on the object, or on every row of a Table. */
  function MarkNamedRead(value: Value, contexts: string): Value {
    if !value.Obj? then value
    else if "rows" in value.fields && value.fields["rows"].Arr? then
      Obj(value.fields["rows" := Arr(Labelled(value.fields["rows"].elements, contexts))])
    else MarkContextLabel(value, contexts)
  }

  function Labelled(entries: seq<Value>, contexts: string): (r: seq<Value>)
    ensures |r| == |entries| && forall i :: 0 <= i < |r| ==> r[i] == MarkContextLabel(entries[i], contexts)
  {
    seq(|entries|, i requires 0 <= i < |entries| => MarkContextLabel(entries[i], contexts))
  }

  /** The virtual label is among the labels at the top of the object. */
  predicate HasVirtualLabel(value: Value) {
    HasLabels(value) && CONTEXT_LABEL in Labels(value)
  }

  /** The entry already carries the label, in the place where the proxy would put it. */
  predicate AlreadyLabelled(entry: Value, contexts: string) {
    entry.Obj? ==>
      var place := if Wraps(entry) then entry.fields["object"] else entry;
      HasLabels(place) && CONTEXT_LABEL in Labels(place) && Labels(place)[CONTEXT_LABEL] == Str(Lit(contexts))
  }

  lemma LabelChangesUnless(entry: Value, contexts: string)
    ensures MarkContextLabel(entry, contexts) == entry <==> AlreadyLabelled(entry, contexts)
  {
    if entry.Obj? {
      var place := if Wraps(entry) then entry.fields["object"] else entry;
      var labels := SubObject(Metadata(entry), "labels");
      var marked := MarkContextLabel(entry, contexts);
      var there := if Wraps(entry) then marked.fields["object"] else marked;
      assert HasLabels(there) && Labels(there) == labels[CONTEXT_LABEL := Str(Lit(contexts))];
      if AlreadyLabelled(entry, contexts) {
        assert labels[CONTEXT_LABEL := Str(Lit(contexts))] == labels;
        assert Metadata(entry)["labels" := Obj(labels)] == Metadata(entry);
        assert place.fields["metadata" := Obj(Metadata(entry))] == place.fields;
        assert there.fields == place.fields;
        if Wraps(entry) { assert marked.fields == entry.fields; }
      }
    }
  }

  lemma LabelRoundTrip(item: Value, contexts: string)
    requires item.Obj? && !Wraps(item)
    ensures WithoutVirtualLabel(MarkContextLabel(item, contexts)) == item <==> HasLabels(item) && !HasVirtualLabel(item)
  {
    var marked := MarkContextLabel(item, contexts);
    var labels := SubObject(Metadata(item), "labels");
    var back := WithoutVirtualLabel(marked);
    assert HasLabels(marked) && Labels(marked) == labels[CONTEXT_LABEL := Str(Lit(contexts))];
    assert HasLabels(back) && Labels(back) == labels[CONTEXT_LABEL := Str(Lit(contexts))] - {CONTEXT_LABEL};
    if HasLabels(item) && CONTEXT_LABEL !in Labels(item) {
      assert labels[CONTEXT_LABEL := Str(Lit(contexts))] - {CONTEXT_LABEL} == labels;
      assert Metadata(item)["labels" := Obj(labels)] == Metadata(item);
      assert back.fields["metadata"].fields == Metadata(item);
      assert back.fields == item.fields;
    }
  }

  /** What is under another key than `metadata` is sent as it came; the labels are looked for at the top. */
  lemma LabelRoundTripElsewhere(item: Value, key: string, inside: Value)
    requires item.Obj? && key != "metadata" && key in item.fields
    ensures WithoutVirtualLabel(Obj(item.fields[key := inside])) == item <==>
            inside == item.fields[key] && !HasVirtualLabel(item)
  {
    var marked := Obj(item.fields[key := inside]);
    var back := WithoutVirtualLabel(marked);
    assert back.fields[key] == inside;
    assert HasVirtualLabel(marked) <==> HasVirtualLabel(item);
    if HasVirtualLabel(item) {
      assert CONTEXT_LABEL !in Labels(back);
    } else if inside == item.fields[key] {
      assert marked.fields == item.fields;
    }
  }

  /** When labelling an object and taking the virtual label off again leaves it as it was. A plain object must
  have had labels, without the virtual one (an object without labels comes back with an empty set of them). A
  Table, or an object that wraps another one, is labelled inside, where the label is not taken off again: it
  comes back unchanged only if that label was there before. */
  predicate LabelsRestored(item: Value, contexts: string)
    requires item.Obj?
  {
    && !HasVirtualLabel(item)
    && if "rows" in item.fields && item.fields["rows"].Arr? then
         forall row <- item.fields["rows"].elements :: AlreadyLabelled(row, contexts)
       else if Wraps(item) then AlreadyLabelled(item, contexts)
       else HasLabels(item)
  }

  lemma LabelsRestoredIff(item: Value, contexts: string)
    requires item.Obj?
    ensures WithoutVirtualLabel(MarkNamedRead(item, contexts)) == item <==> LabelsRestored(item, contexts)
  {
    if "rows" in item.fields && item.fields["rows"].Arr? {
      var rows := item.fields["rows"].elements;
      LabelRoundTripElsewhere(item, "rows", Arr(Labelled(rows, contexts)));
      forall i | 0 <= i < |rows|
        ensures Labelled(rows, contexts)[i] == rows[i] <==> AlreadyLabelled(rows[i], contexts)
      {
        LabelChangesUnless(rows[i], contexts);
      }
      assert Labelled(rows, contexts) == rows <==> forall i :: 0 <= i < |rows| ==> AlreadyLabelled(rows[i], contexts);
    } else if Wraps(item) {
      var inside := MarkContextLabel(item, contexts).fields["object"];
      LabelRoundTripElsewhere(item, "object", inside);
      LabelChangesUnless(item, contexts);
      assert inside == item.fields["object"] <==> MarkContextLabel(item, contexts) == item by {
        if inside == item.fields["object"] { assert MarkContextLabel(item, contexts).fields == item.fields; }
      }
    } else {
      LabelRoundTrip(item, contexts);
    }
  }

  // ----- with numbers

  /** What a POST or PUT passes on: the body as it came, decoded and encoded again only when a label is taken
  off. */
  function PassedOn(value: Value): Value {
    if HasVirtualLabel(value) then WithoutVirtualLabel(Decoded(value)) else value
  }

  /** A body without the virtual label is passed on as it came, its numbers too; from one that has it, exactly that
  label is missing from what was decoded. */
  lemma PassedOnMeaning(value: Value)
    ensures !HasVirtualLabel(value) ==> PassedOn(value) == value
    ensures HasVirtualLabel(value) ==>
              var sent := PassedOn(value);
              && HasLabels(sent)
              && Labels(sent) == Decoded(value.fields["metadata"].fields["labels"]).fields - {CONTEXT_LABEL}
              && sent.fields - {"metadata"} == Decoded(value).fields - {"metadata"}
              && sent.fields["metadata"].fields - {"labels"} == Decoded(value.fields["metadata"]).fields - {"labels"}
  {
    if HasVirtualLabel(value) {
      var metadata := value.fields["metadata"];
      assert Decoded(value).fields["metadata"] == Decoded(metadata);
      assert Decoded(metadata).fields["labels"] == Decoded(metadata.fields["labels"]);
      assert HasVirtualLabel(Decoded(value));
      var decoded := Decoded(value);
      var sent := WithoutVirtualLabel(decoded);
      assert sent.fields["metadata"].fields
          == decoded.fields["metadata"].fields["labels" := Obj(Labels(decoded) - {CONTEXT_LABEL})];
    }
  }

  lemma MetadataSurvives(entry: Value, metadata: Fields)
    requires entry.Obj? && Survives(entry) && Survives(Obj(metadata))
    ensures Survives(PutMetadata(entry, metadata)) && Survives(Obj(Metadata(entry)))
  {
    if Wraps(entry) {
      var inner := entry.fields["object"];
      assert Survives(inner);
      FieldSurvives(inner.fields, "metadata", Obj(metadata));
      FieldSurvives(entry.fields, "object", Obj(inner.fields["metadata" := Obj(metadata)]));
      SubObjectSurvives(inner.fields, "metadata");
    } else {
      FieldSurvives(entry.fields, "metadata", Obj(metadata));
      SubObjectSurvives(entry.fields, "metadata");
    }
  }

  lemma FieldSurvives(fields: Fields, key: string, value: Value)
    requires Survives(Obj(fields)) && Survives(value)
    ensures Survives(Obj(fields[key := value]))
  {
  }

  lemma SubObjectSurvives(fields: Fields, key: string)
    requires Survives(Obj(fields))
    ensures Survives(Obj(SubObject(fields, key)))
  {
    if key in fields { assert Survives(fields[key]); }
  }

  lemma LabelSurvives(entry: Value, contexts: string)
    requires Survives(entry)
    ensures Survives(MarkContextLabel(entry, contexts))
  {
    if entry.Obj? {
      MetadataSurvives(entry, map[]);
      var labels := SubObject(Metadata(entry), "labels")[CONTEXT_LABEL := Str(Lit(contexts))];
      assert Survives(Obj(labels)) by {
        if "labels" in Metadata(entry) { assert Survives(Metadata(entry)["labels"]); }
      }
      MetadataSurvives(entry, Metadata(entry)["labels" := Obj(labels)]);
    }
  }

  lemma NamedReadSurvives(value: Value, contexts: string)
    requires Survives(value)
    ensures Survives(MarkNamedRead(value, contexts))
  {
    if value.Obj? && "rows" in value.fields && value.fields["rows"].Arr? {
      var rows := value.fields["rows"].elements;
      assert Survives(value.fields["rows"]);
      forall i | 0 <= i < |rows|
        ensures Survives(Labelled(rows, contexts)[i])
      {
        LabelSurvives(rows[i], contexts);
      }
      assert Survives(Arr(Labelled(rows, contexts)));
    } else {
      LabelSurvives(value, contexts);
    }
  }

  lemma StrippingSurvives(value: Value)
    requires Survives(value)
    ensures Survives(WithoutVirtualLabel(value))
  {
    if HasVirtualLabel(value) {
      assert Survives(value.fields["metadata"]);
      assert Survives(value.fields["metadata"].fields["labels"]);
      assert Survives(Obj(Labels(value) - {CONTEXT_LABEL}));
      assert Survives(Obj(value.fields["metadata"].fields["labels" := Obj(Labels(value) - {CONTEXT_LABEL})]));
    }
  }

  /** Read an object by name, send it back: what the proxy passes on is the object as the target had it exactly
  when its labels come back and a float64 holds every number in it. */
  lemma ReadWriteRoundTripIff(item: Value, contexts: string)
    requires item.Obj?
    ensures PassedOn(MarkNamedRead(Decoded(item), contexts)) == item <==>
            Survives(item) && LabelsRestored(item, contexts)
  {
    var shown := MarkNamedRead(Decoded(item), contexts);
    DecodedSurvives(item);
    NamedReadSurvives(Decoded(item), contexts);
    SurvivesIff(shown);
    StrippingSurvives(shown);
    assert PassedOn(shown) == WithoutVirtualLabel(shown);
    SurvivesIff(item);
    LabelsRestoredIff(Decoded(item), contexts);
  }

  /** An object with labels that does not come back: its number 2^53 + 1 comes back as 2^53. */
  lemma LargeNumberComesBackChanged(contexts: string)
    ensures var item := Obj(map["metadata" := Obj(map["labels" := Obj(map[])]), "replicas" := Num(EXACT + 1)]);
            && LabelsRestored(item, contexts)
            && PassedOn(MarkNamedRead(Decoded(item), contexts)).Obj?
            && Get(PassedOn(MarkNamedRead(Decoded(item), contexts)).fields, "replicas") == Num(EXACT)
  {
    SmallIsExact(0);
    var item := Obj(map["metadata" := Obj(map["labels" := Obj(map[])]), "replicas" := Num(EXACT + 1)]);
    var decoded := Decoded(item);
    assert item.fields["replicas"] == Num(EXACT + 1) && Decoded(Num(EXACT + 1)) == Num(EXACT);
    assert decoded.fields["replicas"] == Num(EXACT) && !Wraps(decoded) && "rows" !in decoded.fields;
    var shown := MarkNamedRead(decoded, contexts);
    assert shown.fields["replicas"] == Num(EXACT);
    DecodedSurvives(item);
    NamedReadSurvives(decoded, contexts);
    PassedOnKeeps(shown, "replicas");
  }

  lemma PassedOnKeeps(value: Value, key: string)
    requires value.Obj? && Survives(value) && key != "metadata"
    ensures PassedOn(value).Obj? && Get(PassedOn(value).fields, key) == Get(value.fields, key)
  {
    SurvivesIff(value);
  }
}
