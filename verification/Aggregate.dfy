/** Merging of lists and cross-target pagination (internal/proxy/aggregate.go). */
module Aggregate {
  import opened Wire
  import opened Strings
  import opened Marking
  import opened Upstream

  const MAX_PAGE_LIMIT := 10000

  /** The parts of a list request that the proxy looks at: `limit` is None when it is not a number,
  `scope` is the path and query without `limit` and `continue`. */
  datatype Query = Query(limit: Option<int>, resume: Text, scope: string)

  /** What the targets answer while one request is served: to the one-item version probe, to page reads
  and to the unpaginated list. Each is asked at most once per target. */
  datatype Answers = Answers(
    probe: nat -> Reply,
    read: (nat, ListRequest) -> Reply,
    whole: nat -> Reply)

  datatype Outcome =
    | BadRequest
    | Failure(target: string, code: int)
    | Page(payload: Fields)

  function Lookup(versions: map<string, Text>, name: string): Text {
    if name in versions then versions[name] else EMPTY
  }

  function MarkAll(entries: seq<Value>, context: string): (marked: seq<Value>)
    ensures |marked| == |entries|
    ensures forall i :: 0 <= i < |entries| ==> marked[i] == MarkEntry(entries[i], context)
  {
    seq(|entries|, i requires 0 <= i < |entries| => MarkEntry(entries[i], context))
  }

  function WithMetadata(payload: Fields, key: string, text: Text): (r: Fields)
    ensures ListEntries(r) == ListEntries(payload)
    ensures SubText(SubObject(r, "metadata"), key) == text
    ensures forall other :: other != key ==>
              SubText(SubObject(r, "metadata"), other) == SubText(SubObject(payload, "metadata"), other)
  {
    payload["metadata" := Obj(SubObject(payload, "metadata")[key := Str(text)])]
  }

  function WithEntries(payload: Fields, entries: seq<Value>): (r: Fields)
    requires ListEntries(payload).Some?
    ensures ListEntries(r) == Some(Listed(ListEntries(payload).value.key, entries))
    ensures SubObject(r, "metadata") == SubObject(payload, "metadata")
  {
    payload[ListEntries(payload).value.key := Arr(entries)]
  }

  // ----- unpaginated lists

  /** What merging yields once the first `i` replies have been merged into `merged`. */
  function MergeFrom(names: seq<string>, replies: seq<Reply>, i: nat, merged: Option<Fields>): Outcome
    requires i <= |names| == |replies|
    requires merged.Some? ==> ListEntries(merged.value).Some?
    decreases |names| - i
  {
    if i == |names| then
      if merged.None? then Page(map[])
      else Page(WithMetadata(merged.value, "resourceVersion", Vector(MergedVersions(names, replies, 0, map[]))))
    else if !HasEntries(replies[i]) then Failure(names[i], 502)
    else
      var listed := ListEntries(replies[i].body.value.fields).value;
      var marked := MarkAll(listed.entries, names[i]);
      if merged.None? then
        MergeFrom(names, replies, i + 1, Some(WithEntries(replies[i].body.value.fields, marked)))
      else if ListEntries(merged.value).value.key != listed.key then Failure(names[i], 502)
      else
        MergeFrom(names, replies, i + 1,
                  Some(WithEntries(merged.value, ListEntries(merged.value).value.entries + marked)))
  }

  predicate HasEntries(reply: Reply) {
    reply.Answer? && reply.body.Some? && reply.body.value.Obj? && ListEntries(reply.body.value.fields).Some?
  }

  /** The version a reply states, if it states one as a string (the empty string included). */
  function StatedVersion(reply: Reply): Option<Text> {
    if reply.Answer? && reply.body.Some? && reply.body.value.Obj? then
      var metadata := SubObject(reply.body.value.fields, "metadata");
      if "resourceVersion" in metadata && metadata["resourceVersion"].Str?
      then Some(metadata["resourceVersion"].text) else None
    else None
  }

  function MergedVersions(names: seq<string>, replies: seq<Reply>, i: nat,
                          versions: map<string, Text>): map<string, Text>
    requires i <= |names| == |replies|
    decreases |names| - i
  {
    if i == |names| then versions
    else
      MergedVersions(names, replies, i + 1,
                     if StatedVersion(replies[i]).Some? then versions[names[i] := StatedVersion(replies[i]).value]
                     else versions)
  }

  method MergeLists(names: seq<string>, replies: seq<Reply>) returns (outcome: Outcome)
    requires |names| == |replies|
    ensures outcome == MergeFrom(names, replies, 0, None)
  {
    var merged: Option<Fields> := None;
    for i := 0 to |replies|
      invariant merged.Some? ==> ListEntries(merged.value).Some?
      invariant MergeFrom(names, replies, 0, None) == MergeFrom(names, replies, i, merged)
    {
      if !HasEntries(replies[i]) {
        return Failure(names[i], 502);
      }
      var listed := ListEntries(replies[i].body.value.fields).value;
      var marked := MarkAll(listed.entries, names[i]);
      if merged.None? {
        merged := Some(WithEntries(replies[i].body.value.fields, marked));
      } else {
        if ListEntries(merged.value).value.key != listed.key {
          return Failure(names[i], 502);
        }
        merged := Some(WithEntries(merged.value, ListEntries(merged.value).value.entries + marked));
      }
    }
    if merged.None? {
      return Page(map[]);
    }
    var versions: map<string, Text> := map[];
    for i := 0 to |replies|
      invariant MergedVersions(names, replies, 0, map[]) == MergedVersions(names, replies, i, versions)
    {
      if StatedVersion(replies[i]).Some? {
        versions := versions[names[i] := StatedVersion(replies[i]).value];
      }
    }
    return Page(WithMetadata(merged.value, "resourceVersion", Vector(versions)));
  }

  /** The first target whose reply is not a success fails the list; only then are the lists merged. */
  function FirstFailure(names: seq<string>, replies: seq<Reply>, i: nat): Option<Outcome>
    requires i <= |names| == |replies|
    decreases |names| - i
  {
    if i == |names| then None
    else if !IsSuccess(replies[i]) then Some(Failure(names[i], FailureCode(replies[i])))
    else FirstFailure(names, replies, i + 1)
  }

  function WholeList(names: seq<string>, whole: nat -> Reply): Outcome {
    var replies := seq(|names|, whole);
    var failure := FirstFailure(names, replies, 0);
    if failure.Some? then failure.value else MergeFrom(names, replies, 0, None)
  }

  // ----- pages

  function DecodeCursor(names: seq<string>, query: Query): Option<PageCursor> {
    if query.resume == EMPTY then
      Some(PageCursor(0, EMPTY, query.scope, Join(names, NUL), map[]))
    else if query.resume.Token? then
      var cursor := query.resume.cursor;
      if cursor.scope == query.scope && cursor.targets == Join(names, NUL) && 0 <= cursor.target < |names|
      then Some(cursor) else None
    else None
  }

  datatype Versions = NoVersion(target: string, code: int) | Pins(versions: map<string, Text>)

  /** The version at which target `i` is pinned: the cursor's, or the one the probe reports. */
  function PinAt(cursor: PageCursor, probe: nat -> Reply, name: string, i: nat): Option<Text> {
    if |cursor.versions| != 0 then
      if Lookup(cursor.versions, name) == EMPTY then None else Some(Lookup(cursor.versions, name))
    else if IsSuccess(probe(i)) && probe(i).body.Some? && probe(i).body.value.Obj?
            && ListVersion(probe(i).body.value.fields) != EMPTY
    then Some(ListVersion(probe(i).body.value.fields))
    else None
  }

  function PinFailure(cursor: PageCursor, probe: nat -> Reply, i: nat): int {
    if |cursor.versions| == 0 && !IsSuccess(probe(i)) then FailureCode(probe(i)) else 502
  }

  function PinsFrom(names: seq<string>, cursor: PageCursor, probe: nat -> Reply, i: nat,
                    versions: map<string, Text>): Versions
    requires i <= |names|
    decreases |names| - i
  {
    if i == |names| then Pins(versions)
    else
      var pin := PinAt(cursor, probe, names[i], i);
      if pin.None? then NoVersion(names[i], PinFailure(cursor, probe, i))
      else PinsFrom(names, cursor, probe, i + 1, versions[names[i] := pin.value])
  }

  method PageVersions(names: seq<string>, cursor: PageCursor, probe: nat -> Reply) returns (result: Versions)
    ensures result == PinsFrom(names, cursor, probe, 0, map[])
  {
    var versions: map<string, Text> := map[];
    for i := 0 to |names|
      invariant PinsFrom(names, cursor, probe, 0, map[]) == PinsFrom(names, cursor, probe, i, versions)
    {
      var pin := PinAt(cursor, probe, names[i], i);
      if pin.None? {
        return NoVersion(names[i], PinFailure(cursor, probe, i));
      }
      versions := versions[names[i] := pin.value];
    }
    return Pins(versions);
  }

  /** A read that goes on inside the cursor's target passes that target's own token on; every other read
  starts a target at its pinned version. */
  function PageRequest(cursor: PageCursor, index: nat, room: nat, version: Text): ListRequest {
    if index == cursor.target && cursor.resume != EMPTY then ListRequest(room, cursor.resume, EMPTY)
    else ListRequest(room, EMPTY, version)
  }

  datatype PageRead = Unread(target: string, code: int) | Read(page: Fields, entries: seq<Value>, next: Text)

  datatype Visited = Halted(target: string, code: int) | Gathered(items: seq<Value>, template: Fields)

  /** One page request as it is served, once its cursor and its versions are known. */
  datatype Job = Job(
    names: seq<string>,
    cursor: PageCursor,
    scope: string,
    versions: map<string, Text>,
    read: (nat, ListRequest) -> Reply)
  {
    function RequestAt(index: nat, room: nat): ListRequest
      requires index < |names|
    {
      PageRequest(cursor, index, room, Lookup(versions, names[index]))
    }

    function ReplyAt(index: nat, room: nat): Reply
      requires index < |names|
    {
      read(index, RequestAt(index, room))
    }

    function Resume(target: int, resume: Text): Text {
      Token(PageCursor(target, resume, scope, Join(names, NUL), versions))
    }

    /** One upstream page: marked entries and the continuation to go on with, or the failure to report. */
    function ReadOne(index: nat, room: nat): (r: PageRead)
      requires index < |names|
      ensures r.Read? ==> ListEntries(r.page).Some?
    {
      var reply := ReplyAt(index, room);
      if !IsSuccess(reply) then Unread(names[index], FailureCode(reply))
      else if !HasEntries(reply) then Unread(names[index], 502)
      else Read(reply.body.value.fields, MarkAll(Entries(reply), names[index]), ListResume(reply.body.value.fields))
    }

    /** The walk over the targets from `index` on, with room for `room` more items. */
    function Visit(index: nat, room: nat): (r: Visited)
      requires index < |names| && room > 0
      ensures r.Gathered? ==> ListEntries(r.template).Some?
      decreases |names| - index
    {
      match ReadOne(index, room)
      case Unread(target, code) => Halted(target, code)
      case Read(page, entries, next) =>
        if next != EMPTY then
          Gathered(entries, WithMetadata(page, "continue", Resume(index, next)))
        else if |entries| == room && index + 1 < |names| then
          Gathered(entries, WithMetadata(page, "continue", Resume(index + 1, EMPTY)))
        else if |entries| < room && index + 1 < |names| then
          Prepend(entries, Visit(index + 1, room - |entries|))
        else
          Gathered(entries, page)
    }

    /** Whether the walk goes on to the next target after this one. */
    predicate GoesOn(index: nat, room: nat)
      requires index < |names|
    {
      var one := ReadOne(index, room);
      one.Read? && one.next == EMPTY && |one.entries| < room && index + 1 < |names|
    }

    /** The reads that walk makes, in order. */
    function Asked(index: nat, room: nat): seq<(nat, ListRequest)>
      requires index < |names| && room > 0
      decreases |names| - index
    {
      [(index, RequestAt(index, room))] +
      if GoesOn(index, room) then Asked(index + 1, room - |ReadOne(index, room).entries|) else []
    }
  }

  function Prepend(items: seq<Value>, visited: Visited): Visited {
    if visited.Halted? then visited else Gathered(items + visited.items, visited.template)
  }

  lemma PrependTwice(first: seq<Value>, second: seq<Value>, visited: Visited)
    ensures Prepend(first, Prepend(second, visited)) == Prepend(first + second, visited)
  {
    if visited.Gathered? {
      assert first + (second + visited.items) == (first + second) + visited.items;
    }
  }

  function Finish(visited: Visited, versions: map<string, Text>): Outcome
    requires visited.Gathered? ==> ListEntries(visited.template).Some?
  {
    if visited.Halted? then Failure(visited.target, visited.code)
    else Page(WithMetadata(WithEntries(visited.template, visited.items), "resourceVersion", Vector(versions)))
  }

  /** A request for a page, up to the point where the targets are read. */
  datatype Admission = Refused(outcome: Outcome) | Admitted(job: Job, limit: nat)

  function Admit(names: seq<string>, query: Query, answers: Answers): (r: Admission)
    ensures r.Admitted? ==> r.job.names == names && 0 <= r.job.cursor.target && r.limit > 0
    ensures r.Admitted? && |names| > 0 ==> r.job.cursor.target < |names|
  {
    if query.limit.None? || query.limit.value < 0 || query.limit.value > MAX_PAGE_LIMIT then Refused(BadRequest)
    else if query.limit.value == 0 then Refused(WholeList(names, answers.whole))
    else
      var cursor := DecodeCursor(names, query);
      if cursor.None? then Refused(BadRequest)
      else
        match PinsFrom(names, cursor.value, answers.probe, 0, map[])
        case NoVersion(target, code) => Refused(Failure(target, code))
        case Pins(versions) =>
          Admitted(Job(names, cursor.value, query.scope, versions, answers.read), query.limit.value)
  }

  function PageOutcome(names: seq<string>, query: Query, answers: Answers): Outcome
    requires |names| > 0
  {
    match Admit(names, query, answers)
    case Refused(outcome) => outcome
    case Admitted(job, limit) => Finish(job.Visit(job.cursor.target, limit), job.versions)
  }

  method ReadAggregatePage(job: Job, index: nat, room: nat) returns (one: PageRead)
    requires index < |job.names|
    ensures one == job.ReadOne(index, room)
  {
    var reply := job.read(index, job.RequestAt(index, room));
    if !IsSuccess(reply) {
      return Unread(job.names[index], FailureCode(reply));
    }
    if !HasEntries(reply) {
      return Unread(job.names[index], 502);
    }
    var page := reply.body.value.fields;
    return Read(page, MarkAll(Entries(reply), job.names[index]), ListResume(page));
  }

  datatype Walk = Walk(visited: Visited, asked: seq<(nat, ListRequest)>)

  /** The whole walk of one page: what it comes to and the reads it makes. */
  function WholeWalk(job: Job, limit: nat): Walk
    requires 0 <= job.cursor.target < |job.names| && limit > 0
  {
    Walk(job.Visit(job.cursor.target, limit), job.Asked(job.cursor.target, limit))
  }

  /** What the walk comes to once it has gathered `items` and made the reads `asked`. */
  function RestOfWalk(job: Job, limit: nat, index: nat, items: seq<Value>, template: Fields,
                      asked: seq<(nat, ListRequest)>): Walk
  {
    if index < |job.names| && |items| < limit then
      Walk(Prepend(items, job.Visit(index, limit - |items|)), asked + job.Asked(index, limit - |items|))
    else Walk(Gathered(items, template), asked)
  }

  lemma WalkStarts(job: Job, limit: nat, template: Fields)
    requires 0 <= job.cursor.target < |job.names| && limit > 0
    ensures RestOfWalk(job, limit, job.cursor.target, [], template, []) == WholeWalk(job, limit)
  {
    var visited, asked := job.Visit(job.cursor.target, limit), job.Asked(job.cursor.target, limit);
    if visited.Gathered? {
      assert [] + visited.items == visited.items;
    }
    assert [] + asked == asked;
  }

  /** The walk ends with this target. */
  lemma WalkEnds(job: Job, limit: nat, index: nat, items: seq<Value>, template: Fields, asked: seq<(nat, ListRequest)>)
    requires index < |job.names| && |items| < limit && !job.GoesOn(index, limit - |items|)
    ensures var room := limit - |items|;
            RestOfWalk(job, limit, index, items, template, asked)
            == Walk(Prepend(items, job.Visit(index, room)), asked + [(index, job.RequestAt(index, room))])
  {
    assert job.Asked(index, limit - |items|) == [(index, job.RequestAt(index, limit - |items|))];
  }

  /** The walk goes on to the next target. */
  lemma WalkGoesOn(job: Job, limit: nat, index: nat, items: seq<Value>, template: Fields,
                   asked: seq<(nat, ListRequest)>)
    requires index < |job.names| && |items| < limit && job.GoesOn(index, limit - |items|)
    ensures var room := limit - |items|;
            var one := job.ReadOne(index, room);
            RestOfWalk(job, limit, index, items, template, asked)
            == RestOfWalk(job, limit, index + 1, items + one.entries, one.page,
                          asked + [(index, job.RequestAt(index, room))])
  {
    var room := limit - |items|;
    var one := job.ReadOne(index, room);
    PrependTwice(items, one.entries, job.Visit(index + 1, room - |one.entries|));
    assert room - |one.entries| == limit - |items + one.entries|;
    var later := job.Asked(index + 1, room - |one.entries|);
    assert asked + ([(index, job.RequestAt(index, room))] + later)
        == asked + [(index, job.RequestAt(index, room))] + later;
  }

  /** One round of the loop that does not return. */
  lemma WalkStep(job: Job, limit: nat, index: nat, items: seq<Value>, template: Fields, asked: seq<(nat, ListRequest)>)
    requires index < |job.names| && |items| < limit
    requires var one := job.ReadOne(index, limit - |items|);
             one.Read? && one.next == EMPTY && !(|items + one.entries| == limit && index + 1 < |job.names|)
    ensures var room := limit - |items|;
            var one := job.ReadOne(index, room);
            RestOfWalk(job, limit, index, items, template, asked)
            == RestOfWalk(job, limit, index + 1, items + one.entries, one.page,
                          asked + [(index, job.RequestAt(index, room))])
  {
    if job.GoesOn(index, limit - |items|) {
      WalkGoesOn(job, limit, index, items, template, asked);
    } else {
      WalkEnds(job, limit, index, items, template, asked);
    }
  }

  /** The walk of one page as the loop it is; `asked` lists the reads it makes. */
  method ReadPages(job: Job, limit: nat) returns (visited: Visited, asked: seq<(nat, ListRequest)>)
    requires 0 <= job.cursor.target < |job.names| && limit > 0
    ensures visited == job.Visit(job.cursor.target, limit)
    ensures asked == job.Asked(job.cursor.target, limit)
  {
    var items: seq<Value> := [];
    var template: Fields := map[];
    asked := [];
    var index: nat := job.cursor.target;
    WalkStarts(job, limit, template);
    while index < |job.names| && |items| < limit
      invariant index <= |job.names|
      invariant RestOfWalk(job, limit, index, items, template, asked) == WholeWalk(job, limit)
      decreases |job.names| - index
    {
      var room := limit - |items|;
      var one := ReadAggregatePage(job, index, room);
      if one.Read? && one.next == EMPTY && !(|items + one.entries| == limit && index + 1 < |job.names|) {
        WalkStep(job, limit, index, items, template, asked);
      } else {
        WalkEnds(job, limit, index, items, template, asked);
      }
      asked := asked + [(index, job.RequestAt(index, room))];
      if one.Unread? {
        return Halted(one.target, one.code), asked;
      }
      items := items + one.entries;
      template := one.page;
      if one.next != EMPTY {
        return Gathered(items, WithMetadata(one.page, "continue", job.Resume(index, one.next))), asked;
      }
      if |items| == limit && index + 1 < |job.names| {
        return Gathered(items, WithMetadata(one.page, "continue", job.Resume(index + 1, EMPTY))), asked;
      }
      index := index + 1;
    }
    return Gathered(items, template), asked;
  }

  /** One paginated list request: it refines PageOutcome. */
  method AggregatePage(names: seq<string>, query: Query, answers: Answers) returns (outcome: Outcome)
    requires |names| > 0
    ensures outcome == PageOutcome(names, query, answers)
  {
    if query.limit.None? || query.limit.value < 0 || query.limit.value > MAX_PAGE_LIMIT {
      return BadRequest;
    }
    if query.limit.value == 0 {
      var replies := seq(|names|, answers.whole);
      var failure := FirstFailure(names, replies, 0);
      if failure.Some? {
        return failure.value;
      }
      outcome := MergeLists(names, replies);
      return;
    }
    var cursor := DecodeCursor(names, query);
    if cursor.None? {
      return BadRequest;
    }
    var pins := PageVersions(names, cursor.value, answers.probe);
    if pins.NoVersion? {
      return Failure(pins.target, pins.code);
    }
    var job := Job(names, cursor.value, query.scope, pins.versions, answers.read);
    var visited, _ := ReadPages(job, query.limit.value);
    return Finish(visited, pins.versions);
  }
}
