/** From a list to a watch: what a client that lists and then watches knows about every target. */
module EndToEnd {
  import opened Wire
  import opened Strings
  import opened Marking
  import opened Upstream
  import opened Aggregate
  import opened Pagination
  import opened WatchEvents
  import opened WatchRun
  import opened Resume
  import WatchStart
  import OpenRun

  type Cache = map<Key, Value>

  /** A client's copy of the listed objects, by source context. */
  type View = map<string, Cache>

  function CacheOf(view: View, context: string): Cache {
    if context in view then view[context] else map[]
  }

  /** A client stores an object under the context it is marked with, without its version. */
  function Store(view: View, item: Value): View {
    if item.Obj? && SourceOf(item).Lit? then
      var context := SourceOf(item).s;
      view[context := CacheOf(view, context)[KeyOf(item) := WithVersion(item, EMPTY)]]
    else view
  }

  function Drop(view: View, item: Value): View {
    if item.Obj? && SourceOf(item).Lit? then
      var context := SourceOf(item).s;
      view[context := CacheOf(view, context) - {KeyOf(item)}]
    else view
  }

  function StoreAll(view: View, items: seq<Value>): View {
    if items == [] then view else Store(StoreAll(view, items[..|items| - 1]), items[|items| - 1])
  }

  /** A client's handling of one watch line. */
  function Absorb(view: View, line: Line): View {
    if !HasObject(line) || !IsChange(line) then view
    else if EventType(line) == Lit("DELETED") then Drop(view, ObjectOf(line))
    else Store(view, ObjectOf(line))
  }

  function AbsorbAll(view: View, out: seq<Out>): View {
    if out == [] then view else Absorb(AbsorbAll(view, out[..|out| - 1]), out[|out| - 1].line)
  }

  /** A target's store as a client sees it through the proxy. */
  ghost function Presented(store: Upstream.Store, context: string): Cache
    requires Keyed(store)
  {
    map key | key in store :: Shown(store[key], context)
  }

  // ----- one object

  lemma StoreMarked(view: View, item: Value, context: string)
    requires item.Obj? && !Wraps(item)
    ensures Store(view, MarkEntry(item, context))
         == view[context := CacheOf(view, context)[KeyOf(item) := Shown(item, context)]]
  {
    MarkingKeepsIdentity(item, EMPTY, context);
    ShownForgetsVersion(item, EMPTY, context);
  }

  // ----- lists

  /** Some objects of one context, stored one after the other. */
  function AddAll(cache: Cache, objects: seq<Value>, context: string): Cache
    requires forall i :: 0 <= i < |objects| ==> objects[i].Obj?
  {
    if objects == [] then cache
    else
      var last := objects[|objects| - 1];
      AddAll(cache, objects[..|objects| - 1], context)[KeyOf(last) := Shown(last, context)]
  }

  ghost predicate Plain(objects: seq<Value>) {
    forall i :: 0 <= i < |objects| ==> objects[i].Obj? && !Wraps(objects[i])
  }

  lemma {:induction false} StoreAllMarked(view: View, objects: seq<Value>, context: string)
    requires Plain(objects)
    ensures var after := StoreAll(view, MarkAll(objects, context));
            && CacheOf(after, context) == AddAll(CacheOf(view, context), objects, context)
            && forall other :: other != context ==> CacheOf(after, other) == CacheOf(view, other)
  {
    if objects != [] {
      var before, last := objects[..|objects| - 1], objects[|objects| - 1];
      StoreAllMarked(view, before, context);
      assert MarkAll(objects, context)[..|objects| - 1] == MarkAll(before, context);
      StoreMarked(StoreAll(view, MarkAll(before, context)), last, context);
    }
  }

  lemma {:induction false} AddAllKeys(objects: seq<Value>, context: string, key: Key)
    requires Plain(objects)
    ensures key in AddAll(map[], objects, context) <==> exists i :: 0 <= i < |objects| && KeyOf(objects[i]) == key
  {
    if objects != [] {
      var before, last := objects[..|objects| - 1], objects[|objects| - 1];
      AddAllKeys(before, context, key);
      if i :| 0 <= i < |objects| && KeyOf(objects[i]) == key {
        assert i < |before| ==> before[i] == objects[i];
      }
      if i :| 0 <= i < |before| && KeyOf(before[i]) == key {
        assert before[i] == objects[i];
      }
    }
  }

  lemma {:induction false} AddAllValues(objects: seq<Value>, context: string, k: nat)
    requires Plain(objects) && k < |objects|
    requires forall i, j :: 0 <= i < j < |objects| ==> KeyOf(objects[i]) != KeyOf(objects[j])
    ensures KeyOf(objects[k]) in AddAll(map[], objects, context)
    ensures AddAll(map[], objects, context)[KeyOf(objects[k])] == Shown(objects[k], context)
  {
    var before := objects[..|objects| - 1];
    if k < |before| {
      AddAllValues(before, context, k);
    }
  }

  lemma ListingPresents(store: Upstream.Store, objects: seq<Value>, context: string)
    requires Keyed(store) && IsListing(store, objects)
    ensures Plain(objects) && AddAll(map[], objects, context) == Presented(store, context)
  {
    forall i | 0 <= i < |objects|
      ensures objects[i].Obj? && !Wraps(objects[i])
    {
      assert store[KeyOf(objects[i])] == objects[i];
    }
    var cache := AddAll(map[], objects, context);
    forall key
      ensures key in cache <==> key in store
      ensures key in cache ==> cache[key] == Shown(store[key], context)
    {
      AddAllKeys(objects, context, key);
      if key in store {
        var i :| 0 <= i < |objects| && KeyOf(objects[i]) == key;
        AddAllValues(objects, context, i);
      }
    }
  }

  lemma StoreTarget(view: View, store: Upstream.Store, objects: seq<Value>, context: string)
    requires Keyed(store) && IsListing(store, objects) && CacheOf(view, context) == map[]
    ensures var after := StoreAll(view, MarkAll(objects, context));
            && CacheOf(after, context) == Presented(store, context)
            && forall other :: other != context ==> CacheOf(after, other) == CacheOf(view, other)
  {
    ListingPresents(store, objects, context);
    StoreAllMarked(view, objects, context);
  }

  lemma {:induction false} StoreConcat(view: View, first: seq<Value>, second: seq<Value>)
    ensures StoreAll(view, first + second) == StoreAll(StoreAll(view, first), second)
  {
    if second == [] {
      assert first + second == first;
    } else {
      StoreConcat(view, first, second[..|second| - 1]);
      assert (first + second)[..|first + second| - 1] == first + second[..|second| - 1];
    }
  }

  ghost function PinnedStore(frozen: Frozen, i: nat): Upstream.Store
    requires frozen.Valid() && i < |frozen.names|
  {
    Snapshot(frozen.logs[frozen.names[i]], frozen.versions[frozen.names[i]])
  }

  lemma PinnedStoreListed(frozen: Frozen, i: nat)
    requires frozen.Valid() && i < |frozen.names| && ListsStores(frozen.world[frozen.names[i]])
    ensures Keyed(PinnedStore(frozen, i)) && IsListing(PinnedStore(frozen, i), frozen.Contents(i))
  {
    var log := frozen.logs[frozen.names[i]];
    var prefix := log[..Position(log, frozen.versions[frozen.names[i]])];
    assert WellFormed(prefix);
    ReplayKeyed(prefix);
  }

  /** A client that knows nothing yet of the targets from `i` on. */
  ghost predicate Fresh(view: View, frozen: Frozen, i: nat)
    requires frozen.Valid()
  {
    forall j :: i <= j < |frozen.names| ==>
      ListsStores(frozen.world[frozen.names[j]]) && CacheOf(view, frozen.names[j]) == map[]
  }

  ghost predicate Shows(view: View, frozen: Frozen, j: nat)
    requires frozen.Valid() && j < |frozen.names|
  {
    && Keyed(PinnedStore(frozen, j))
    && CacheOf(view, frozen.names[j]) == Presented(PinnedStore(frozen, j), frozen.names[j])
  }

  /** One target of the plain merge. */
  lemma StoreNext(view: View, frozen: Frozen, i: nat)
    requires frozen.Valid() && NoRepeats(frozen.names) && i < |frozen.names| && Fresh(view, frozen, i)
    ensures var after := StoreAll(view, MarkAll(frozen.Contents(i), frozen.names[i]));
            && Shows(after, frozen, i) && Fresh(after, frozen, i + 1)
            && forall context :: context != frozen.names[i] ==> CacheOf(after, context) == CacheOf(view, context)
  {
    PinnedStoreListed(frozen, i);
    StoreTarget(view, PinnedStore(frozen, i), frozen.Contents(i), frozen.names[i]);
  }

  lemma {:induction false} StoreFromKeeps(view: View, frozen: Frozen, i: nat, context: string)
    requires frozen.Valid() && NoRepeats(frozen.names) && i <= |frozen.names| && Fresh(view, frozen, i)
    requires forall j :: i <= j < |frozen.names| ==> frozen.names[j] != context
    ensures CacheOf(StoreAll(view, frozen.From(i)), context) == CacheOf(view, context)
    decreases |frozen.names| - i
  {
    if i < |frozen.names| {
      var marked := MarkAll(frozen.Contents(i), frozen.names[i]);
      StoreNext(view, frozen, i);
      StoreConcat(view, marked, frozen.From(i + 1));
      StoreFromKeeps(StoreAll(view, marked), frozen, i + 1, context);
    }
  }

  /** The plain merge from target `i` on gives a client that knows nothing of those targets exactly their
  pinned stores. */
  lemma {:induction false} StoreFromShows(view: View, frozen: Frozen, i: nat, j: nat)
    requires frozen.Valid() && NoRepeats(frozen.names) && i <= j < |frozen.names| && Fresh(view, frozen, i)
    ensures Shows(StoreAll(view, frozen.From(i)), frozen, j)
    decreases |frozen.names| - i
  {
    var marked := MarkAll(frozen.Contents(i), frozen.names[i]);
    var middle := StoreAll(view, marked);
    StoreNext(view, frozen, i);
    StoreConcat(view, marked, frozen.From(i + 1));
    if i == j {
      StoreFromKeeps(middle, frozen, i + 1, frozen.names[i]);
    } else {
      StoreFromShows(middle, frozen, i + 1, j);
    }
  }

  /** Two entries of a list stand for the same object: they come from one context and have one name there. */
  predicate SameObject(a: Value, b: Value) {
    SourceOf(a) == SourceOf(b) && KeyOf(a) == KeyOf(b)
  }

  /** The list of target `i` has objects with their own metadata only, each once. */
  ghost predicate Clean(frozen: Frozen, i: nat)
    requires frozen.Valid() && i < |frozen.names|
  {
    && Plain(frozen.Contents(i))
    && (forall a, b :: 0 <= a < b < |frozen.Contents(i)| ==>
          KeyOf(frozen.Contents(i)[a]) != KeyOf(frozen.Contents(i)[b]))
  }

  ghost predicate CleanFrom(frozen: Frozen, i: nat)
    requires frozen.Valid()
  {
    forall j :: i <= j < |frozen.names| ==> Clean(frozen, j)
  }

  lemma ListsClean(frozen: Frozen, i: nat)
    requires frozen.Valid() && i < |frozen.names| && ListsStores(frozen.world[frozen.names[i]])
    ensures Clean(frozen, i)
  {
    PinnedStoreListed(frozen, i);
    ListingPresents(PinnedStore(frozen, i), frozen.Contents(i), frozen.names[i]);
  }

  /** An entry of target `i` names that target and is the object it was listed as. */
  lemma EntryHere(frozen: Frozen, i: nat, items: seq<Value>, k: nat)
    requires frozen.Valid() && i < |frozen.names| && Clean(frozen, i) && k < |frozen.Contents(i)|
    requires items == frozen.From(i)
    ensures k < |items| && SourceOf(items[k]) == Lit(frozen.names[i])
    ensures KeyOf(items[k]) == KeyOf(frozen.Contents(i)[k])
  {
    MarkingKeepsIdentity(frozen.Contents(i)[k], EMPTY, frozen.names[i]);
    assert items[k] == MarkAll(frozen.Contents(i), frozen.names[i])[k];
  }

  /** An entry past those of target `i` is one of the later targets. */
  lemma EntryThere(frozen: Frozen, i: nat, items: seq<Value>, k: nat)
    requires frozen.Valid() && i < |frozen.names| && items == frozen.From(i) && |frozen.Contents(i)| <= k < |items|
    ensures k - |frozen.Contents(i)| < |frozen.From(i + 1)| && items[k] == frozen.From(i + 1)[k - |frozen.Contents(i)|]
  {
  }

  /** How many entries the plain merge from target `i` on has before those of target `j`. */
  ghost function Before(frozen: Frozen, i: nat, j: nat): nat
    requires frozen.Valid() && i <= j <= |frozen.names|
    decreases j - i
  {
    if i == j then 0 else |frozen.Contents(i)| + Before(frozen, i + 1, j)
  }

  /** Where an entry of the plain merge from target `i` on comes from: the `m`th of target `j`. */
  lemma {:induction false} Origin(frozen: Frozen, i: nat, items: seq<Value>, k: nat) returns (j: nat, m: nat)
    requires frozen.Valid() && i <= |frozen.names| && CleanFrom(frozen, i) && items == frozen.From(i) && k < |items|
    ensures i <= j < |frozen.names| && m < |frozen.Contents(j)| && k == Before(frozen, i, j) + m
    ensures SourceOf(items[k]) == Lit(frozen.names[j]) && KeyOf(items[k]) == KeyOf(frozen.Contents(j)[m])
    decreases |frozen.names| - i
  {
    var here := |frozen.Contents(i)|;
    if k < here {
      EntryHere(frozen, i, items, k);
      j, m := i, k;
    } else {
      EntryThere(frozen, i, items, k);
      j, m := Origin(frozen, i + 1, frozen.From(i + 1), k - here);
    }
  }

  lemma CleanApart(frozen: Frozen, i: nat, a: nat, b: nat)
    requires frozen.Valid() && i < |frozen.names| && Clean(frozen, i)
    requires a < |frozen.Contents(i)| && b < |frozen.Contents(i)| && a != b
    ensures KeyOf(frozen.Contents(i)[a]) != KeyOf(frozen.Contents(i)[b])
  {
  }

  /** Nothing is listed twice: any two entries of the plain merge, and so of any pagination, stand for
  different objects. */
  lemma PlainNoRepeats(frozen: Frozen, i: nat, a: nat, b: nat)
    requires frozen.Valid() && NoRepeats(frozen.names) && i <= |frozen.names| && a < b < |frozen.From(i)|
    requires forall j :: i <= j < |frozen.names| ==> ListsStores(frozen.world[frozen.names[j]])
    ensures !SameObject(frozen.From(i)[a], frozen.From(i)[b])
  {
    forall j | i <= j < |frozen.names|
      ensures Clean(frozen, j)
    {
      ListsClean(frozen, j);
    }
    var j, m := Origin(frozen, i, frozen.From(i), a);
    var other, n := Origin(frozen, i, frozen.From(i), b);
    if j == other { CleanApart(frozen, j, m, n); }
  }

  // ----- watch lines

  lemma AbsorbMarked(view: View, line: Line, change: Change, context: string, versions: VersionVector)
    requires Reports(line, change) && Regular(change.item) && LineVersion(line).Some?
    ensures var marked := MarkLine(line, context, versions).line;
            Absorb(view, marked) ==
              match change
              case Put(item) => view[context := CacheOf(view, context)[KeyOf(item) := Shown(item, context)]]
              case Remove(item) => view[context := CacheOf(view, context) - {KeyOf(item)}]
              case Elsewhere => view
  {
    var item := ObjectOf(line);
    var after := MarkLine(line, context, versions);
    MarkedEvent(line, context, versions);
    MarkingKeepsIdentity(item, Vector(after.versions), context);
    ShownForgetsVersion(item, Vector(after.versions), context);
  }

  /** A versioned line carries its object, versioned by the vector and marked, in an event of the same type. */
  lemma MarkedEvent(line: Line, context: string, versions: VersionVector)
    requires LineVersion(line).Some?
    ensures var after := MarkLine(line, context, versions);
            && HasObject(after.line) && EventType(after.line) == EventType(line)
            && ObjectOf(after.line) == MarkEntry(WithVersion(ObjectOf(line), Vector(after.versions)), context)
  {
  }

  lemma AbsorbOther(view: View, line: Line, context: string, versions: VersionVector)
    requires !IsChange(line)
    ensures Absorb(view, MarkLine(line, context, versions).line) == view
  {
    assert EventType(MarkLine(line, context, versions).line) == EventType(line);
  }

  lemma {:induction false} QuietReplay(log: Log, from: nat, to: nat)
    requires from <= to <= |log| && Quiet(log, from, to)
    ensures Replay(log[..to]) == Replay(log[..from])
  {
    if from < to {
      QuietReplay(log, from, to - 1);
      assert log[..to][..to - 1] == log[..to - 1];
    }
  }

  /** The store of a target where its stream has come to. */
  ghost function StoreAt(log: Log, from: nat, lines: seq<Line>): Upstream.Store
    requires WellFormed(log) && Serves(log, from, lines)
    ensures Keyed(StoreAt(log, from, lines))
  {
    ReachedInLog(log, from, lines);
    assert WellFormed(log[..Reached(log, from, lines)]);
    ReplayKeyed(log[..Reached(log, from, lines)]);
    Replay(log[..Reached(log, from, lines)])
  }

  /** A line that reports no change leaves the copy, and the store has not changed. */
  lemma AbsorbQuiet(view: View, log: Log, from: nat, before: seq<Line>, line: Line, context: string,
                    versions: VersionVector)
    requires WellFormed(log) && Serves(log, from, before + [line]) && !IsChange(line)
    requires (before + [line])[..|before|] == before
    ensures Absorb(view, MarkLine(line, context, versions).line) == view
    ensures StoreAt(log, from, before + [line]) == StoreAt(log, from, before)
  {
    AbsorbOther(view, line, context, versions);
    ReachedInLog(log, from, before + [line]);
    QuietReplay(log, Reached(log, from, before), Reached(log, from, before + [line]));
  }

  /** A line that reports a change takes the store one change on. */
  lemma ChangeApplies(log: Log, from: nat, before: seq<Line>, line: Line)
    requires WellFormed(log) && Serves(log, from, before + [line]) && IsChange(line)
    requires (before + [line])[..|before|] == before
    ensures var there := Reached(log, from, before + [line]);
            && LineVersion(line).Some? && 0 < there <= |log| && Reports(line, log[there - 1].change)
            && Regular(log[there - 1].change.item)
            && StoreAt(log, from, before + [line]) == Apply(StoreAt(log, from, before), log[there - 1].change)
  {
    var here, there := Reached(log, from, before), Reached(log, from, before + [line]);
    LineReports(log, from, before, line);
    ReplayNext(log, here, there);
    StoreIsReplay(log, from, before);
    StoreIsReplay(log, from, before + [line]);
  }

  lemma StoreIsReplay(log: Log, from: nat, lines: seq<Line>)
    requires WellFormed(log) && Serves(log, from, lines)
    ensures Reached(log, from, lines) <= |log|
    ensures StoreAt(log, from, lines) == Replay(log[..Reached(log, from, lines)])
  {
    ReachedInLog(log, from, lines);
  }

  lemma ReplayNext(log: Log, here: nat, there: nat)
    requires here < there <= |log| && Quiet(log, here, there - 1)
    ensures Replay(log[..there]) == Apply(Replay(log[..here]), log[there - 1].change)
  {
    QuietReplay(log, here, there - 1);
    assert log[..there][..there - 1] == log[..there - 1];
  }

  lemma LineReports(log: Log, from: nat, before: seq<Line>, line: Line)
    requires WellFormed(log) && Serves(log, from, before + [line]) && IsChange(line)
    requires (before + [line])[..|before|] == before
    ensures var here, there := Reached(log, from, before), Reached(log, from, before + [line]);
            && LineVersion(line).Some? && here < there <= |log| && Quiet(log, here, there - 1)
            && Reports(line, log[there - 1].change) && Regular(log[there - 1].change.item)
  {
    ReachedInLog(log, from, before + [line]);
  }

  /** A line that reports a change applies it to the client's copy. */
  lemma AbsorbChange(view: View, store: Upstream.Store, line: Line, change: Change, context: string,
                     versions: VersionVector)
    requires Keyed(store) && Reports(line, change) && Regular(change.item) && LineVersion(line).Some?
    requires CacheOf(view, context) == Presented(store, context)
    ensures Keyed(Apply(store, change))
    ensures var after := Absorb(view, MarkLine(line, context, versions).line);
            && CacheOf(after, context) == Presented(Apply(store, change), context)
            && forall other :: other != context ==> CacheOf(after, other) == CacheOf(view, other)
  {
    AbsorbMarked(view, line, change, context, versions);
    PresentedApply(store, change, context);
  }

  /** One more line of a target takes a client's copy of that target from the old store to the new one. */
  lemma AbsorbOne(view: View, log: Log, from: nat, before: seq<Line>, line: Line, context: string,
                  versions: VersionVector)
    requires WellFormed(log) && Serves(log, from, before + [line])
    requires (before + [line])[..|before|] == before
    requires CacheOf(view, context) == Presented(StoreAt(log, from, before), context)
    ensures var after := Absorb(view, MarkLine(line, context, versions).line);
            && CacheOf(after, context) == Presented(StoreAt(log, from, before + [line]), context)
            && forall other :: other != context ==> CacheOf(after, other) == CacheOf(view, other)
  {
    if IsChange(line) {
      ChangeApplies(log, from, before, line);
      var change := log[Reached(log, from, before + [line]) - 1].change;
      AbsorbChange(view, StoreAt(log, from, before), line, change, context, versions);
    } else {
      AbsorbQuiet(view, log, from, before, line, context, versions);
    }
  }

  lemma PresentedPut(store: Upstream.Store, item: Value, context: string)
    requires Keyed(store) && Regular(item)
    ensures Keyed(Apply(store, Put(item)))
    ensures Presented(Apply(store, Put(item)), context)
         == Presented(store, context)[KeyOf(item) := Shown(item, context)]
  {
  }

  lemma PresentedRemove(store: Upstream.Store, item: Value, context: string)
    requires Keyed(store)
    ensures Keyed(Apply(store, Remove(item)))
    ensures Presented(Apply(store, Remove(item)), context) == Presented(store, context) - {KeyOf(item)}
  {
  }

  lemma PresentedApply(store: Upstream.Store, change: Change, context: string)
    requires Keyed(store) && !change.Elsewhere? && Regular(change.item)
    ensures Keyed(Apply(store, change))
    ensures Presented(Apply(store, change), context) ==
              match change
              case Put(item) => Presented(store, context)[KeyOf(item) := Shown(item, context)]
              case Remove(item) => Presented(store, context) - {KeyOf(item)}
              case Elsewhere => Presented(store, context)
  {
    if change.Put? { PresentedPut(store, change.item, context); } else { PresentedRemove(store, change.item, context); }
  }

  // ----- the whole story

  /** The client's copy of target `i` is that target's store at the given version. */
  ghost predicate Knows(view: View, name: string, log: Log, version: Text) {
    && WellFormed(log) && Known(log, version) && Keyed(Snapshot(log, version))
    && CacheOf(view, name) == Presented(Snapshot(log, version), name)
  }

  lemma KnownIsKeyed(log: Log, version: Text)
    requires WellFormed(log) && Known(log, version)
    ensures Keyed(Snapshot(log, version))
  {
    assert WellFormed(log[..Position(log, version)]);
    ReplayKeyed(log[..Position(log, version)]);
  }

  lemma PlainShows(frozen: Frozen, j: nat)
    requires frozen.Valid() && NoRepeats(frozen.names) && j < |frozen.names|
    requires forall name <- frozen.names :: ListsStores(frozen.world[name])
    ensures Shows(StoreAll(map[], frozen.From(0)), frozen, j)
  {
    assert Fresh(map[], frozen, 0);
    StoreFromShows(map[], frozen, 0, j);
  }

  lemma ShownIsKnown(view: View, frozen: Frozen, j: nat)
    requires frozen.Valid() && j < |frozen.names| && Shows(view, frozen, j)
    ensures Knows(view, frozen.names[j], frozen.logs[frozen.names[j]], frozen.versions[frozen.names[j]])
  {
    assert frozen.names[j] in frozen.names;
  }

  /** A finished pagination leaves a client with every target's store at the version its pages state. */
  lemma ListKnows(calls: seq<Call>, world: World, start: Logs, j: nat)
    requires Chain(calls, world, start) && LastResume(calls) == EMPTY
    requires NoRepeats(calls[0].names) && j < |calls[0].names|
    requires forall name <- calls[0].names :: ListsStores(world[name])
    ensures var version := ListVersion(calls[|calls| - 1].payload);
            && version.Vector? && (forall name :: name in version.versions <==> name in calls[0].names)
            && Knows(StoreAll(map[], Received(calls)), calls[0].names[j], start[calls[0].names[j]],
                     version.versions[calls[0].names[j]])
  {
    ChainEnds(calls, world, start);
    var frozen := Pin(calls, world, start);
    PlainShows(frozen, j);
    ShownIsKnown(StoreAll(map[], Received(calls)), frozen, j);
  }

  /** A line of one target touches no other target's copy. */
  lemma AbsorbKeeps(view: View, log: Log, here: nat, line: Line, context: string, versions: VersionVector)
    requires WellFormed(log) && MaySend(log, here, line)
    ensures forall other :: other != context ==>
              CacheOf(Absorb(view, MarkLine(line, context, versions).line), other) == CacheOf(view, other)
  {
    if IsChange(line) {
      AbsorbMarked(view, line, log[Position(log, LineVersion(line).value) - 1].change, context, versions);
    } else {
      AbsorbOther(view, line, context, versions);
    }
  }

  ghost predicate AllServed(c: Config, out: seq<Out>, logs: seq<Log>) {
    && ValidConfig(c) && Sourced(out, |c.names|) && |logs| == |c.names|
    && (forall i :: 0 <= i < |c.names| ==> WellFormed(logs[i]) && Known(logs[i], c.start[c.names[i]]))
    && (forall i :: 0 <= i < |c.names| ==> TargetServed(c, out, logs[i], i))
  }

  ghost predicate TargetServed(c: Config, out: seq<Out>, log: Log, i: nat)
    requires ValidConfig(c) && i < |c.names|
  {
    Known(log, c.start[c.names[i]]) && Serves(log, Position(log, c.start[c.names[i]]), FromTarget(out, i))
  }

  lemma AllServedPrefix(c: Config, out: seq<Out>, logs: seq<Log>)
    requires AllServed(c, out, logs) && out != []
    ensures AllServed(c, out[..|out| - 1], logs)
  {
    var before := out[..|out| - 1];
    forall i | 0 <= i < |c.names|
      ensures TargetServed(c, before, logs[i], i)
    {
      assert TargetServed(c, out, logs[i], i);
      FromTargetPrefix(out, |before|, i);
      var lines, fewer := FromTarget(out, i), FromTarget(before, i);
      ServesPrefix(logs[i], Position(logs[i], c.start[c.names[i]]), lines, |fewer|);
      assert lines[..|fewer|] == fewer;
    }
  }

  /** The client's copy of target `i` is where that target's stream has come to. */
  ghost predicate Tracks(view: View, c: Config, out: seq<Out>, log: Log, i: nat)
    requires ValidConfig(c) && i < |c.names| && WellFormed(log) && TargetServed(c, out, log, i)
  {
    CacheOf(view, c.names[i])
      == Presented(StoreAt(log, Position(log, c.start[c.names[i]]), FromTarget(out, i)), c.names[i])
  }

  /** The last line takes the copy of its own target on and leaves every other one. */
  lemma TracksNext(view: View, c: Config, out: seq<Out>, logs: seq<Log>, i: nat)
    requires AllServed(c, out, logs) && out != [] && AllServed(c, out[..|out| - 1], logs) && i < |c.names|
    requires TargetServed(c, out, logs[i], i) && TargetServed(c, out[..|out| - 1], logs[i], i)
    requires Tracks(view, c, out[..|out| - 1], logs[i], i)
    ensures var last := out[|out| - 1];
            Tracks(Absorb(view, MarkLine(last.read, c.names[last.source], VectorAfter(c, out[..|out| - 1])).line),
                   c, out, logs[i], i)
  {
    var before, last := out[..|out| - 1], out[|out| - 1];
    var versions := VectorAfter(c, before);
    var k := last.source;
    var lines := FromTarget(before, k);
    assert FromTarget(out, k) == lines + [last.read];
    assert (lines + [last.read])[..|lines|] == lines;
    assert TargetServed(c, out, logs[k], k);
    if k == i {
      AbsorbOne(view, logs[i], Position(logs[i], c.start[c.names[i]]), lines, last.read, c.names[i], versions);
    } else {
      assert FromTarget(out, i) == FromTarget(before, i);
      var from := Position(logs[k], c.start[c.names[k]]);
      AbsorbKeeps(view, logs[k], Reached(logs[k], from, lines), last.read, c.names[k], versions);
    }
  }

  /** Lines of any targets, in any order, keep the copy of each target up to date with its own stream. */
  lemma {:induction false} AbsorbTracks(view: View, c: Config, out: seq<Out>, logs: seq<Log>, i: nat)
    requires AllServed(c, out, logs) && Stamped(c, out) && i < |c.names|
    requires TargetServed(c, [], logs[i], i) && Tracks(view, c, [], logs[i], i)
    ensures TargetServed(c, out, logs[i], i) && Tracks(AbsorbAll(view, out), c, out, logs[i], i)
  {
    assert TargetServed(c, out, logs[i], i);
    if out != [] {
      AllServedPrefix(c, out, logs);
      StampedPrefix(c, out, |out| - 1);
      AbsorbTracks(view, c, out[..|out| - 1], logs, i);
      TracksNext(AbsorbAll(view, out[..|out| - 1]), c, out, logs, i);
      AbsorbLast(view, c, out);
    }
  }

  lemma AbsorbLast(view: View, c: Config, out: seq<Out>)
    requires Stamped(c, out) && out != []
    ensures var before, last := out[..|out| - 1], out[|out| - 1];
            AbsorbAll(view, out)
            == Absorb(AbsorbAll(view, before), MarkLine(last.read, c.names[last.source], VectorAfter(c, before)).line)
  {
    assert out[|out| - 1].line
        == MarkLine(out[|out| - 1].read, c.names[out[|out| - 1].source], VectorAfter(c, out[..|out| - 1])).line;
  }

  /** A watch that starts from a vector, seen by a client that knows the stores at that vector: after any
  prefix of what it receives, in any interleaving, it knows every target's store at the vector it holds. */
  lemma WatchKnows(view: View, x: Session, names: seq<string>, logs: seq<Log>, i: nat)
    requires ServedSession(x, names, logs) && i < |names|
    requires Knows(view, names[i], logs[i], x.config.start[names[i]])
    ensures Stamped(x.config, Seen(x)) && names[i] in Held(x)
    ensures Knows(AbsorbAll(view, Seen(x)), names[i], logs[i], Held(x)[names[i]])
  {
    var c, out := x.config, Seen(x);
    forall k | 0 <= k < |names|
      ensures TargetServed(c, out, logs[k], k)
    {
      SessionPrefix(x, x.seen, k);
      VectorShowsReached(c, out, logs[k], k);
    }
    SessionPrefix(x, x.seen, i);
    VectorShowsReached(c, out, logs[i], i);
    AbsorbTracks(view, c, out, logs, i);
    KnownIsKeyed(logs[i], Held(x)[names[i]]);
  }

  lemma KnowsStable(view: View, name: string, older: Log, newer: Log, version: Text)
    requires Knows(view, name, older, version) && older <= newer && WellFormed(newer)
    ensures Knows(view, name, newer, version)
  {
    SnapshotStable(older, newer, version);
  }

  /** What a client holds after sessions one after the other. */
  function Watched(view: View, history: History): View {
    match history
    case First(session) => AbsorbSession(view, session)
    case Then(session, earlier, _) => AbsorbSession(Watched(view, earlier), session)
  }

  function AbsorbSession(view: View, x: Session): View {
    if x.seen <= |x.end.output| then AbsorbAll(view, Seen(x)) else view
  }

  /** The client's copy of a target is that target's store at the vector the client holds. */
  ghost predicate KnowsHeld(view: View, x: Session, logs: Logs, name: string) {
    HoldsAll(x) && name in x.config.names && name in logs && Knows(view, name, logs[name], Held(x)[name])
  }

  lemma SessionKnows(view: View, x: Session, logs: Logs, name: string)
    requires ServedBy(x, logs) && name in x.config.names && name in x.config.start
    requires Knows(view, name, logs[name], x.config.start[name])
    ensures KnowsHeld(AbsorbSession(view, x), x, logs, name)
  {
    SessionHoldsAll(x, logs);
    WatchKnows(view, x, x.config.names, LogsOf(x.config.names, logs), IndexOf(x.config.names, name));
  }

  /** Any number of reconnects, with targets dropped and reordered in between, keep a client's copies up to
  date. */
  lemma {:induction false} ReconnectsKnow(view: View, history: History, logs: Logs, name: string)
    requires history.Valid(logs) && name in history.session.config.names && name in history.Start()
    requires Knows(view, name, logs[name], history.Start()[name])
    ensures KnowsHeld(Watched(view, history), history.session, logs, name)
  {
    if history.First? {
      SessionKnows(view, history.session, logs, name);
    } else {
      ReconnectStarts(history, logs, name);
      ReconnectsKnow(view, history.earlier, logs, name);
      SessionKnows(Watched(view, history.earlier), history.session, logs, name);
    }
  }

  /** A list, of either kind, has given the client every target's store at the version it states. */
  ghost predicate Listed(view: View, version: Text, names: seq<string>, start: Logs) {
    && version.Vector? && (forall name :: name in version.versions <==> name in names)
    && (forall i :: 0 <= i < |names| ==>
          names[i] in start && Knows(view, names[i], start[names[i]], version.versions[names[i]]))
  }

  /** From a list to any number of watch sessions: a client that knows the stores at a list's version, watches
  from that version and reconnects as often as it likes, knows every store of a target it still watches at the
  vector it holds, and that vector is the version of the last versioned line it received. */
  lemma ListedThenWatch(view: View, version: Text, names: seq<string>, start: Logs, logs: Logs, history: History,
                        probe: nat -> Reply, name: string)
    requires Listed(view, version, names, start) && Extends(start, logs)
    requires WatchStart.WatchVersions(history.Names(), version, probe) == WatchStart.From(history.Start())
    requires history.Valid(logs) && name in history.session.config.names
    ensures name in names && name in history.Start()
    ensures forall target <- history.Start() ::
              target in version.versions && history.Start()[target] == version.versions[target]
    ensures Stamped(history.session.config, Seen(history.session)) && name in Held(history.session)
    ensures Knows(Watched(view, history), name, logs[name], Held(history.session)[name])
    ensures ClientVersion(history.session) == Vector(Held(history.session))
  {
    ResumeSafe(history, logs, name);
    StartNames(history, logs);
    WatchStart.VectorAcceptedIff(history.Names(), version.versions, probe);
    var i := IndexOf(names, name);
    assert Knows(view, names[i], start[names[i]], version.versions[names[i]]);
    KnowsStable(view, name, start[name], logs[name], history.Start()[name]);
    ReconnectsKnow(view, history, logs, name);
  }

  /** The first session starts with a coordinate for exactly its targets. */
  lemma {:induction false} StartNames(history: History, logs: Logs)
    requires history.Valid(logs)
    ensures forall name :: name in history.Start() <==> name in history.Names()
  {
    if history.Then? { StartNames(history.earlier, logs); }
  }

  /** The plain merge gives a client the pinned stores of all targets. */
  lemma PlainListed(frozen: Frozen)
    requires frozen.Valid() && NoRepeats(frozen.names)
    requires forall name <- frozen.names :: ListsStores(frozen.world[name])
    ensures Listed(StoreAll(map[], frozen.From(0)), Vector(frozen.versions), frozen.names, frozen.logs)
  {
    var view := StoreAll(map[], frozen.From(0));
    forall i | 0 <= i < |frozen.names|
      ensures Knows(view, frozen.names[i], frozen.logs[frozen.names[i]], frozen.versions[frozen.names[i]])
    {
      PlainKnown(frozen, i);
    }
  }

  lemma PlainKnown(frozen: Frozen, i: nat)
    requires frozen.Valid() && NoRepeats(frozen.names) && i < |frozen.names|
    requires forall name <- frozen.names :: ListsStores(frozen.world[name])
    ensures Knows(StoreAll(map[], frozen.From(0)), frozen.names[i], frozen.logs[frozen.names[i]],
                  frozen.versions[frozen.names[i]])
  {
    PlainShows(frozen, i);
    ShownIsKnown(StoreAll(map[], frozen.From(0)), frozen, i);
  }

  lemma PagesListed(calls: seq<Call>, world: World, start: Logs)
    requires Chain(calls, world, start) && LastResume(calls) == EMPTY && NoRepeats(calls[0].names)
    requires forall name <- calls[0].names :: ListsStores(world[name])
    ensures Listed(StoreAll(map[], Received(calls)), ListVersion(calls[|calls| - 1].payload), calls[0].names, start)
  {
    ChainEnds(calls, world, start);
    PlainListed(Pin(calls, world, start));
  }

  /** An unpaginated list whose replies are whole lists of some snapshots gives a client those snapshots. */
  lemma WholeListed(frozen: Frozen, whole: nat -> Reply)
    requires frozen.Valid() && |frozen.names| > 0 && NoRepeats(frozen.names)
    requires AllWhole(frozen, seq(|frozen.names|, whole)) && WholeList(frozen.names, whole).Page?
    requires forall name <- frozen.names :: ListsStores(frozen.world[name])
    ensures var payload := WholeList(frozen.names, whole).payload;
            Listed(StoreAll(map[], PageItems(payload)), ListVersion(payload), frozen.names, frozen.logs)
  {
    SucceededSameShape(frozen, whole);
    WholeListIsPlain(frozen, whole);
    PlainListed(frozen);
  }

  lemma SucceededSameShape(frozen: Frozen, whole: nat -> Reply)
    requires frozen.Valid() && |frozen.names| > 0
    requires AllWhole(frozen, seq(|frozen.names|, whole)) && WholeList(frozen.names, whole).Page?
    ensures SameShape(seq(|frozen.names|, whole))
  {
    var replies := seq(|frozen.names|, whole);
    forall i | 0 <= i < |replies|
      ensures IsSuccess(replies[i])
    {
      assert IsWholeList(frozen.world[frozen.names[i]], frozen.logs[frozen.names[i]],
                         frozen.versions[frozen.names[i]], replies[i]);
    }
    NoFailure(frozen.names, replies, 0);
    MergeSucceedsIff(frozen.names, replies, 0, None);
  }

  /** List by pages, then watch: a client that pages through a list to its end, watches from the version the
  pages state and reconnects any number of times knows, after any prefix of what each session delivered, the
  store of every target it still watches at the vector it holds. Clients of the targets write all along; the
  pages have any limits, each session any interleaving, and the configuration may drop and reorder targets
  before each session. */
  lemma ListThenWatch(calls: seq<Call>, world: World, start: Logs, logs: Logs, history: History,
                      probe: nat -> Reply, name: string)
    requires Chain(calls, world, start) && LastResume(calls) == EMPTY && NoRepeats(calls[0].names)
    requires forall name <- calls[0].names :: ListsStores(world[name])
    requires Extends(start, logs) && history.Valid(logs) && name in history.session.config.names
    requires WatchStart.WatchVersions(history.Names(), ListVersion(calls[|calls| - 1].payload), probe)
          == WatchStart.From(history.Start())
    ensures name in calls[0].names && ListVersion(calls[|calls| - 1].payload).Vector?
    ensures var listed := ListVersion(calls[|calls| - 1].payload).versions;
            forall target <- history.Start() :: target in listed && history.Start()[target] == listed[target]
    ensures Stamped(history.session.config, Seen(history.session)) && name in Held(history.session)
    ensures Knows(Watched(StoreAll(map[], Received(calls)), history), name, logs[name], Held(history.session)[name])
    ensures ClientVersion(history.session) == Vector(Held(history.session))
  {
    PagesListed(calls, world, start);
    ListedThenWatch(StoreAll(map[], Received(calls)), ListVersion(calls[|calls| - 1].payload), calls[0].names,
                    start, logs, history, probe, name);
  }

  /** The same for a client that starts from the unpaginated list. */
  lemma WholeListThenWatch(frozen: Frozen, whole: nat -> Reply, logs: Logs, history: History,
                           probe: nat -> Reply, name: string)
    requires frozen.Valid() && |frozen.names| > 0 && NoRepeats(frozen.names)
    requires AllWhole(frozen, seq(|frozen.names|, whole)) && WholeList(frozen.names, whole).Page?
    requires forall name <- frozen.names :: ListsStores(frozen.world[name])
    requires Extends(frozen.logs, logs) && history.Valid(logs) && name in history.session.config.names
    requires WatchStart.WatchVersions(history.Names(), ListVersion(WholeList(frozen.names, whole).payload), probe)
          == WatchStart.From(history.Start())
    ensures name in frozen.names && ListVersion(WholeList(frozen.names, whole).payload).Vector?
    ensures var listed := ListVersion(WholeList(frozen.names, whole).payload).versions;
            forall target <- history.Start() :: target in listed && history.Start()[target] == listed[target]
    ensures Stamped(history.session.config, Seen(history.session)) && name in Held(history.session)
    ensures Knows(Watched(StoreAll(map[], PageItems(WholeList(frozen.names, whole).payload)), history),
                  name, logs[name], Held(history.session)[name])
    ensures ClientVersion(history.session) == Vector(Held(history.session))
  {
    WholeListed(frozen, whole);
    var payload := WholeList(frozen.names, whole).payload;
    ListedThenWatch(StoreAll(map[], PageItems(payload)), ListVersion(payload), frozen.names, frozen.logs, logs,
                    history, probe, name);
  }

  /** After an event of an object that wraps another one with a version of its own, a reconnect starts the
  target at that foreign version. */
  lemma ForeignVersionResumes(line: Line, names: seq<string>, context: string, versions: VersionVector,
                              probe: nat -> Reply)
    requires HasObject(line) && Wraps(ObjectOf(line)) && context in names
    requires VersionOf(ObjectOf(line).fields["object"]) != EMPTY
    requires forall name <- names :: name in versions && versions[name] != EMPTY
    ensures var start := WatchStart.WatchVersions(names, Vector(MarkLine(line, context, versions).versions), probe);
            && start.From? && context in start.versions
            && start.versions[context] == VersionOf(ObjectOf(line).fields["object"])
  {
    MarkLineMoves(line, context, versions);
    WatchStart.VectorAcceptedIff(names, MarkLine(line, context, versions).versions, probe);
  }

  /** A watch request that has come to its end: the failure to open all streams was reported, or they were all
  open, were copied, with the client possibly gone already, and the handler returned. */
  datatype WatchRequest = WatchRequest(
    dialling: seq<OpenRun.Step>, first: OpenRun.State, settled: OpenRun.State,
    copying: seq<Step>, ready: State, last: State)
  {
    ghost predicate Ended(c: Config) {
      && ValidConfig(c) && OpenRun.Init(|c.names|, first) && OpenRun.Run(|c.names|, first, dialling, settled)
      && (settled.main.Answered?
          || (settled.main.Streaming? && Init(c, ready) && ready.cancelled == settled.clientGone
              && Run(c, ready, copying, last) && last.main.Returned?))
    }

    /** How often the body of target `i` was closed, by the opener, after its failure, or by the handler. */
    function Closed(i: nat): nat {
      (if i < |settled.closed| then settled.closed[i] else 0)
      + (if settled.main.Streaming? && i < |last.closed| then last.closed[i] else 0)
    }

    /** Whether the stream's cancel function was called. */
    predicate Released(i: nat) {
      (i < |settled.released| && settled.released[i])
      || (settled.main.Streaming? && i < |last.released| && last.released[i])
    }
  }

  /** Over the whole life of a watch request, however it ends, every response body that was opened is closed
  exactly once and every cancel function is called; a stream that was copied had its body settled. */
  lemma WholeWatchIsClean(request: WatchRequest, c: Config, i: nat)
    requires request.Ended(c) && i < |c.names|
    ensures OpenRun.Shaped(|c.names|, request.settled)
    ensures request.Closed(i) == request.settled.bodies[i] <= 1 && request.Released(i)
    ensures request.settled.main.Streaming? ==> request.settled.bodies[i] == 1
  {
    OpenRun.BodiesAccountedFor(|c.names|, request.first, request.dialling, request.settled);
    if request.settled.main.Streaming? {
      ReturnedClean(c, request.ready, request.copying, request.last);
    }
  }
}
