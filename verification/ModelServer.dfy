/** Servers that meet the contract the theorems assume of every upstream: the assumptions can be met, every
pagination over such servers can be brought to its end, and their watches deliver whole logs. */
module ModelServer {
  import opened Wire
  import opened Strings
  import opened Marking
  import opened Upstream
  import opened Aggregate
  import opened Pagination
  import opened WatchEvents
  import opened WatchRun
  import opened Resume
  import opened EndToEnd
  import WatchStart

  ghost function AnyKey(store: Store): Key
    requires store != map[]
    ensures AnyKey(store) in store
  {
    var key :| key in store;
    key
  }

  /** The objects of a store, one after the other. */
  ghost function ListingOf(store: Store): seq<Value>
    decreases |store|
  {
    if store == map[] then []
    else [store[AnyKey(store)]] + ListingOf(store - {AnyKey(store)})
  }

  lemma PrependListing(store: Store, key: Key, rest: seq<Value>)
    requires Keyed(store) && key in store && IsListing(store - {key}, rest)
    ensures IsListing(store, [store[key]] + rest)
  {
    var objects := [store[key]] + rest;
    assert forall i :: 0 < i < |objects| ==> objects[i] == rest[i - 1];
    forall other | other in store
      ensures exists i :: 0 <= i < |objects| && KeyOf(objects[i]) == other
    {
      if other == key {
        assert KeyOf(objects[0]) == other;
      } else {
        assert other in store - {key};
        var i :| 0 <= i < |rest| && KeyOf(rest[i]) == other;
        assert KeyOf(objects[i + 1]) == other;
      }
    }
  }

  lemma {:induction false} ListingLists(store: Store)
    requires Keyed(store)
    ensures IsListing(store, ListingOf(store))
    decreases |store|
  {
    if store != map[] {
      ListingLists(store - {AnyKey(store)});
      PrependListing(store, AnyKey(store), ListingOf(store - {AnyKey(store)}));
    }
  }

  /** The store can be listed by a server. */
  lemma ListingExists()
    ensures ListsStores(Server((store: Store) => ListingOf(store)))
  {
    forall store: Store | Keyed(store)
      ensures IsListing(store, ListingOf(store))
    {
      ListingLists(store);
    }
  }

  function PageBody(entries: seq<Value>, resume: Text, version: Text): Value {
    Obj(map["items" := Arr(entries),
            "metadata" := Obj(map["continue" := Str(resume), "resourceVersion" := Str(version)])])
  }

  /** The page of a pinned list that fills the limit. */
  function FullPage(all: seq<Value>, offset: nat, limit: nat, version: Text): Value
    requires offset <= |all|
  {
    var end := if offset + limit < |all| then offset + limit else |all|;
    PageBody(all[offset..end], if end < |all| then Pinned(version, end) else EMPTY, version)
  }

  ghost function AnswerRead(server: Server, log: Log, request: ListRequest): Reply {
    if PinOf(request).Some? && Known(log, PinOf(request).value.0)
       && PinOf(request).value.1 <= |server.listing(Snapshot(log, PinOf(request).value.0))| && request.limit > 0
    then
      var (version, offset) := PinOf(request).value;
      Answer(200, Some(FullPage(server.listing(Snapshot(log, version)), offset, request.limit, version)))
    else Answer(410, None)
  }

  /** Such a server answers every read as the contract asks, and fills its pages. */
  lemma AnswerConforms(server: Server, log: Log, request: ListRequest)
    ensures ReadConforms(server, log, request, AnswerRead(server, log, request))
    ensures ReadFills(server, log, request, AnswerRead(server, log, request))
  {
  }

  // ----- paginations

  ghost function ModelAnswers(frozen: Frozen): Answers
    requires frozen.Valid()
  {
    Answers(
      (i: nat) =>
        if i < |frozen.names| then Answer(200, Some(PageBody([], EMPTY, frozen.versions[frozen.names[i]]))) else Broken,
      (i: nat, request: ListRequest) =>
        if i < |frozen.names| then AnswerRead(frozen.world[frozen.names[i]], frozen.logs[frozen.names[i]], request)
        else Broken,
      (i: nat) =>
        if i < |frozen.names| then
          Answer(200, Some(PageBody(frozen.Contents(i), EMPTY, frozen.versions[frozen.names[i]])))
        else Broken)
  }

  lemma ModelHonest(frozen: Frozen)
    requires frozen.Valid()
    ensures Honest(frozen.names, frozen.world, frozen.logs, ModelAnswers(frozen).read)
    ensures Filling(frozen.names, frozen.world, frozen.logs, ModelAnswers(frozen).read)
    ensures Probed(frozen.names, frozen.logs, ModelAnswers(frozen).probe)
  {
    forall i: nat, request | i < |frozen.names|
      ensures ReadConforms(frozen.world[frozen.names[i]], frozen.logs[frozen.names[i]], request,
                           ModelAnswers(frozen).read(i, request))
      ensures ReadFills(frozen.world[frozen.names[i]], frozen.logs[frozen.names[i]], request,
                        ModelAnswers(frozen).read(i, request))
    {
      AnswerConforms(frozen.world[frozen.names[i]], frozen.logs[frozen.names[i]], request);
    }
  }

  /** The unpaginated list of such servers is one of whole lists of one kind. */
  lemma WholeAnswered(frozen: Frozen)
    requires frozen.Valid()
    ensures AllWhole(frozen, seq(|frozen.names|, ModelAnswers(frozen).whole))
    ensures SameShape(seq(|frozen.names|, ModelAnswers(frozen).whole))
  {
    var replies := seq(|frozen.names|, ModelAnswers(frozen).whole);
    forall i | 0 <= i < |replies|
      ensures HasEntries(replies[i]) && KeyOfReply(replies[i]) == "items"
      ensures IsWholeList(frozen.world[frozen.names[i]], frozen.logs[frozen.names[i]],
                          frozen.versions[frozen.names[i]], replies[i])
    {
      WholeOne(frozen, i);
    }
  }

  lemma WholeOne(frozen: Frozen, i: nat)
    requires frozen.Valid() && i < |frozen.names|
    ensures var reply := ModelAnswers(frozen).whole(i);
            && HasEntries(reply) && KeyOfReply(reply) == "items"
            && IsWholeList(frozen.world[frozen.names[i]], frozen.logs[frozen.names[i]],
                           frozen.versions[frozen.names[i]], reply)
  {
    assert ModelAnswers(frozen).whole(i)
        == Answer(200, Some(PageBody(frozen.Contents(i), EMPTY, frozen.versions[frozen.names[i]])));
  }

  lemma ReadAnswered(job: Job, frozen: Frozen, index: nat, offset: nat, room: nat)
    requires frozen.Valid() && job.names == frozen.names && job.read == ModelAnswers(frozen).read
    requires StartsAt(job, frozen, index, offset, room)
    ensures job.ReadOne(index, room).Read?
  {
  }

  lemma {:induction false} VisitAnswered(job: Job, frozen: Frozen, index: nat, offset: nat, room: nat)
    requires frozen.Valid() && job.names == frozen.names && job.versions == frozen.versions
    requires job.read == ModelAnswers(frozen).read
    requires StartsAt(job, frozen, index, offset, room) && index >= job.cursor.target
    ensures job.Visit(index, room).Gathered?
    decreases |job.names| - index
  {
    ReadAnswered(job, frozen, index, offset, room);
    if job.GoesOn(index, room) {
      VisitAnswered(job, frozen, index + 1, 0, room - |job.ReadOne(index, room).entries|);
    }
  }

  lemma PinAnswered(frozen: Frozen, cursor: PageCursor, j: nat)
    requires frozen.Valid() && (cursor.versions == frozen.versions || cursor.versions == map[]) && j < |frozen.names|
    ensures PinAt(cursor, ModelAnswers(frozen).probe, frozen.names[j], j) == Some(frozen.versions[frozen.names[j]])
  {
    var name := frozen.names[j];
    var n := Position(frozen.logs[name], frozen.versions[name]);
    assert frozen.versions[name] != EMPTY;
  }

  /** Whatever the cursor, the versions found are the pinned ones. */
  lemma PinsAnswered(frozen: Frozen, cursor: PageCursor)
    requires frozen.Valid() && (cursor.versions == frozen.versions || cursor.versions == map[])
    ensures PinsFrom(frozen.names, cursor, ModelAnswers(frozen).probe, 0, map[]) == Pins(frozen.versions)
  {
    var probe := ModelAnswers(frozen).probe;
    forall j: nat | j < |frozen.names|
      ensures PinAt(cursor, probe, frozen.names[j], j) == Some(frozen.versions[frozen.names[j]])
    {
      PinAnswered(frozen, cursor, j);
    }
    PinsAre(frozen.names, cursor, probe, 0, map[], frozen.versions);
  }

  lemma Admitting(frozen: Frozen, query: Query, cursor: PageCursor)
    requires frozen.Valid() && |frozen.names| > 0 && query.limit.Some? && 0 < query.limit.value <= MAX_PAGE_LIMIT
    requires DecodeCursor(frozen.names, query) == Some(cursor)
    requires cursor.versions == frozen.versions || cursor.versions == map[]
    ensures Admit(frozen.names, query, ModelAnswers(frozen))
         == Admitted(Job(frozen.names, cursor, query.scope, frozen.versions, ModelAnswers(frozen).read),
                     query.limit.value)
  {
    PinsAnswered(frozen, cursor);
  }

  lemma PageGathered(frozen: Frozen, query: Query, cursor: PageCursor)
    requires frozen.Valid() && |frozen.names| > 0 && query.limit.Some? && 0 < query.limit.value <= MAX_PAGE_LIMIT
    requires DecodeCursor(frozen.names, query) == Some(cursor)
    requires cursor.versions == frozen.versions || cursor.versions == map[]
    requires frozen.Fits(cursor.(versions := frozen.versions))
    ensures PageOutcome(frozen.names, query, ModelAnswers(frozen)).Page?
  {
    var job := Job(frozen.names, cursor, query.scope, frozen.versions, ModelAnswers(frozen).read);
    Admitting(frozen, query, cursor);
    var offset := frozen.Offset(cursor.(versions := frozen.versions));
    CursorStarts(job, frozen, query.limit.value);
    VisitAnswered(job, frozen, cursor.target, offset, query.limit.value);
  }

  /** A page is served for every cursor that fits, and leaves what it should. */
  lemma PageServed(frozen: Frozen, query: Query) returns (call: Call)
    requires frozen.Valid() && |frozen.names| > 0 && query.limit.Some? && 0 < query.limit.value <= MAX_PAGE_LIMIT
    requires Extends(frozen.logs, frozen.logs) && DecodeCursor(frozen.names, query).Some?
    requires var cursor := DecodeCursor(frozen.names, query).value;
             (cursor.versions == frozen.versions || cursor.versions == map[])
             && frozen.Fits(cursor.(versions := frozen.versions))
    ensures Served(call, frozen.world)
    ensures call.names == frozen.names && call.query == query
    ensures call.answers == ModelAnswers(frozen) && call.logs == frozen.logs
    ensures Leaves(frozen, query.scope, call.payload,
                   frozen.Remaining(DecodeCursor(frozen.names, query).value.(versions := frozen.versions)))
  {
    var cursor, answers := DecodeCursor(frozen.names, query).value, ModelAnswers(frozen);
    PageGathered(frozen, query, cursor);
    ModelHonest(frozen);
    PinsAnswered(frozen, cursor);
    call := Call(frozen.names, query, answers, frozen.logs, PageOutcome(frozen.names, query, answers).payload);
    PageDelivers(call, frozen, cursor);
  }

  /** From any served page a pagination can be brought to its end. */
  lemma {:induction false} FinishFrom(frozen: Frozen, call: Call, todo: seq<Value>) returns (calls: seq<Call>)
    requires frozen.Valid() && |frozen.names| > 0 && Free(frozen.names, NUL) && Extends(frozen.logs, frozen.logs)
    requires Served(call, frozen.world) && call.names == frozen.names && call.logs == frozen.logs
    requires call.query.limit.Some? && 0 < call.query.limit.value <= MAX_PAGE_LIMIT
    requires Leaves(frozen, call.query.scope, call.payload, todo)
    ensures |calls| > 0 && calls[0] == call && LastResume(calls) == EMPTY
    ensures Follows(calls, frozen.world, frozen.logs, call.query.resume)
    decreases |todo|
  {
    if ListResume(call.payload) == EMPTY {
      calls := [call];
    } else {
      var query := Query(call.query.limit, ListResume(call.payload), call.query.scope);
      var next := PageServed(frozen, query);
      var rest := FinishFrom(frozen, next, frozen.Remaining(query.resume.cursor));
      calls := [call] + rest;
      assert calls[1..] == rest;
    }
  }

  /** Whatever is stored at the targets, a client can page through it to the end with any limit. */
  lemma PaginationFinishes(frozen: Frozen, limit: nat, scope: string) returns (calls: seq<Call>)
    requires frozen.Valid() && |frozen.names| > 0 && Free(frozen.names, NUL) && 0 < limit <= MAX_PAGE_LIMIT
    requires Extends(frozen.logs, frozen.logs)
    ensures Chain(calls, frozen.world, frozen.logs) && LastResume(calls) == EMPTY
    ensures Pin(calls, frozen.world, frozen.logs) == frozen
  {
    var query := Query(Some(limit), EMPTY, scope);
    var call := PageServed(frozen, query);
    var cursor := DecodeCursor(frozen.names, query).value.(versions := frozen.versions);
    calls := FinishFrom(frozen, call, frozen.Remaining(cursor));
    ModelHonest(frozen);
  }

  // ----- watches

  /** The line for one write: the change, or a bookmark for a write to another resource. */
  function LineOf(entry: Upstream.Entry): Line {
    var (kind, item) := match entry.change
                        case Put(item) => ("ADDED", item)
                        case Remove(item) => ("DELETED", item)
                        case Elsewhere =>
                          ("BOOKMARK", Obj(map["metadata" := Obj(map["resourceVersion" := Str(entry.version)])]));
    Json(Obj(map["type" := Str(Lit(kind)), "object" := item]))
  }

  function StreamOf(log: Log, from: nat, to: nat): (lines: seq<Line>)
    requires from <= to <= |log|
    ensures |lines| == to - from
  {
    if from == to then [] else StreamOf(log, from, to - 1) + [LineOf(log[to - 1])]
  }

  lemma LineStates(log: Log, k: nat)
    requires WellFormed(log) && k < |log|
    ensures LineVersion(LineOf(log[k])) == Some(log[k].version) && Known(log, log[k].version)
    ensures Position(log, log[k].version) == k + 1
    ensures IsChange(LineOf(log[k])) <==> !log[k].change.Elsewhere?
    ensures IsChange(LineOf(log[k])) ==> Reports(LineOf(log[k]), log[k].change)
  {
    PositionUnique(log, log[k].version, k + 1);
  }

  lemma NextServed(log: Log, k: nat)
    requires WellFormed(log) && k < |log|
    ensures MaySend(log, k, LineOf(log[k]))
  {
    LineStates(log, k);
  }

  /** The lines are served from one position and bring the stream to the other. */
  ghost predicate Brings(log: Log, from: nat, lines: seq<Line>, to: nat) {
    Serves(log, from, lines) && Reached(log, from, lines) == to
  }

  lemma StreamStep(log: Log, from: nat, before: seq<Line>, k: nat)
    requires WellFormed(log) && k < |log| && Brings(log, from, before, k)
    ensures Brings(log, from, before + [LineOf(log[k])], k + 1)
  {
    LineStates(log, k);
    NextServed(log, k);
    ServesMore(log, from, before, LineOf(log[k]));
  }

  /** Every log can be served from any position to any later one. */
  lemma {:induction false} StreamServes(log: Log, from: nat, to: nat)
    requires WellFormed(log) && from <= to <= |log|
    ensures Brings(log, from, StreamOf(log, from, to), to)
  {
    if from < to {
      StreamServes(log, from, to - 1);
      StreamStep(log, from, StreamOf(log, from, to - 1), to - 1);
      SameLines(log, from, StreamOf(log, from, to - 1) + [LineOf(log[to - 1])], StreamOf(log, from, to), to);
    }
  }

  lemma SameLines(log: Log, from: nat, one: seq<Line>, two: seq<Line>, to: nat)
    requires one == two && Brings(log, from, one, to)
    ensures Brings(log, from, two, to)
  {
  }

  lemma ServesMore(log: Log, from: nat, before: seq<Line>, line: Line)
    requires Serves(log, from, before) && MaySend(log, Reached(log, from, before), line) && LineVersion(line).Some?
    ensures Serves(log, from, before + [line])
    ensures Reached(log, from, before + [line]) == Position(log, LineVersion(line).value)
  {
    assert (before + [line])[..|before|] == before;
  }

  /** A watch on such servers, from any known versions. */
  lemma SessionExists(names: seq<string>, logs: seq<Log>, start: VersionVector) returns (x: Session)
    requires |names| > 0 && |logs| == |names| && NoRepeats(names)
    requires forall name :: name in start <==> name in names
    requires forall i :: 0 <= i < |names| ==> WellFormed(logs[i]) && Known(logs[i], start[names[i]])
    ensures ServedSession(x, names, logs) && x.config.start == start
    ensures forall i :: 0 <= i < |names| ==>
              Brings(logs[i], Position(logs[i], start[names[i]]), x.config.streams[i], |logs[i]|)
  {
    var streams := seq(|names|, i requires 0 <= i < |names| =>
                         StreamOf(logs[i], Position(logs[i], start[names[i]]), |logs[i]|));
    var config := Config(names, streams, start);
    var begin := State(seq(|names|, _ => Reading), seq(|names|, _ => 0), start, [], None, 0, false, Waiting,
                       seq(|names|, _ => 0), seq(|names|, _ => false));
    x := Session(config, begin, [], begin, 0);
    forall i | 0 <= i < |names|
      ensures Brings(logs[i], Position(logs[i], start[names[i]]), streams[i], |logs[i]|)
    {
      StreamServes(logs[i], Position(logs[i], start[names[i]]), |logs[i]|);
    }
  }

  // ----- everything together

  /** Whatever the targets' logs hold, as long as each holds something: servers that list them as they are, and
  a snapshot of each at its last version. */
  lemma FrozenExists(names: seq<string>, logs: Logs) returns (frozen: Frozen)
    requires forall name <- names :: name in logs && WellFormed(logs[name]) && |logs[name]| > 0
    ensures frozen.Valid() && frozen.names == names && frozen.logs == logs
    ensures forall name <- names :: ListsStores(frozen.world[name])
  {
    ListingExists();
    var server := Server((store: Store) => ListingOf(store));
    frozen := Frozen(names, map name | name in names :: server, logs,
                     map name | name in names :: logs[name][|logs[name]| - 1].version);
  }

  /** A watch from some versions, broken off and resumed. */
  lemma HistoryExists(names: seq<string>, logs: Logs, start: VersionVector,
                      probe: nat -> Reply) returns (history: History)
    requires |names| > 0 && NoRepeats(names) && forall name :: name in start <==> name in names
    requires forall name <- names :: name in logs && WellFormed(logs[name]) && Known(logs[name], start[name])
    ensures history.Valid(logs) && history.Then? && history.Start() == start
    ensures history.Names() == names == history.session.config.names
  {
    var x := SessionExists(names, LogsOf(names, logs), start);
    SessionHoldsAll(x, logs);
    forall name <- names
      ensures Known(logs[name], Held(x)[name])
    {
      SessionHolds(x, logs, name);
    }
    ReconnectSame(x, logs, names, probe);
    var y := SessionExists(names, LogsOf(names, logs), Held(x));
    history := Then(y, First(x), probe);
  }

  lemma PinnedVersions(frozen: Frozen)
    requires frozen.Valid()
    ensures forall name <- frozen.names :: frozen.versions[name] != EMPTY
  {
    forall name <- frozen.names
      ensures frozen.versions[name] != EMPTY
    {
      var n := Position(frozen.logs[name], frozen.versions[name]);
    }
  }

  /** All that EndToEnd.ListThenWatch and Pagination.PaginationRefinesMerge ask for can be had together. */
  lemma ListThenWatchPossible(frozen: Frozen, limit: nat, scope: string, probe: nat -> Reply)
    returns (calls: seq<Call>, history: History)
    requires frozen.Valid() && ValidNames(frozen.names) && Free(frozen.names, NUL) && 0 < limit <= MAX_PAGE_LIMIT
    requires Extends(frozen.logs, frozen.logs)
    ensures Chain(calls, frozen.world, frozen.logs) && LastResume(calls) == EMPTY && calls[0].names == frozen.names
    ensures Pin(calls, frozen.world, frozen.logs) == frozen
    ensures AllWhole(frozen, seq(|frozen.names|, ModelAnswers(frozen).whole))
    ensures SameShape(seq(|frozen.names|, ModelAnswers(frozen).whole))
    ensures WatchStart.WatchVersions(history.Names(), ListVersion(calls[|calls| - 1].payload), probe)
         == WatchStart.From(history.Start())
    ensures history.Valid(frozen.logs) && history.session.config.names == frozen.names
  {
    calls := PaginationFinishes(frozen, limit, scope);
    ChainEnds(calls, frozen.world, frozen.logs);
    WholeAnswered(frozen);
    history := HistoryExists(frozen.names, frozen.logs, frozen.versions, probe);
    PinnedVersions(frozen);
    WatchStart.VectorRoundTrip(frozen.names, frozen.versions, probe);
  }

  /** And all that EndToEnd.WholeListThenWatch asks for. */
  lemma WholeListThenWatchPossible(frozen: Frozen, probe: nat -> Reply) returns (history: History)
    requires frozen.Valid() && ValidNames(frozen.names) && Extends(frozen.logs, frozen.logs)
    ensures AllWhole(frozen, seq(|frozen.names|, ModelAnswers(frozen).whole))
    ensures WholeList(frozen.names, ModelAnswers(frozen).whole).Page?
    ensures WatchStart.WatchVersions(history.Names(),
                                     ListVersion(WholeList(frozen.names, ModelAnswers(frozen).whole).payload), probe)
         == WatchStart.From(history.Start())
    ensures history.Valid(frozen.logs) && history.session.config.names == frozen.names
  {
    WholeAnswered(frozen);
    WholeListIsPlain(frozen, ModelAnswers(frozen).whole);
    history := HistoryExists(frozen.names, frozen.logs, frozen.versions, probe);
    PinnedVersions(frozen);
    WatchStart.VectorRoundTrip(frozen.names, frozen.versions, probe);
  }
}
