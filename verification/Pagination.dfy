/** Theorems about the lists of internal/proxy/aggregate.go: any chain of pages is the plain merge of one
snapshot per target, cut into pieces. */
module Pagination {
  import opened Wire
  import opened Strings
  import opened Marking
  import opened Upstream
  import opened Aggregate

  type World = map<string, Server>

  ghost predicate Extends(older: Logs, newer: Logs) {
    forall name <- older :: name in newer && older[name] <= newer[name] && WellFormed(newer[name])
  }

  ghost predicate Covers(names: seq<string>, world: World, logs: Logs) {
    forall name <- names :: name in world && name in logs && WellFormed(logs[name])
  }

  /** One snapshot per target: what a pagination is pinned to. */
  datatype Frozen = Frozen(names: seq<string>, world: World, logs: Logs, versions: map<string, Text>)
  {
    ghost predicate Valid() {
      && Covers(names, world, logs)
      && (forall name :: name in versions <==> name in names)
      && (forall name <- names :: Known(logs[name], versions[name]))
    }

    /** The unmarked list of target `i` at its pinned version. */
    ghost function Contents(i: nat): seq<Value>
      requires Valid() && i < |names|
    {
      world[names[i]].listing(Snapshot(logs[names[i]], versions[names[i]]))
    }

    /** The plain merge of the targets from `i` on: marked lists, one after the other. */
    ghost function From(i: nat): seq<Value>
      requires Valid() && i <= |names|
      decreases |names| - i
    {
      if i == |names| then [] else MarkAll(Contents(i), names[i]) + From(i + 1)
    }

    ghost function Rest(i: nat, offset: nat): seq<Value>
      requires Valid() && i < |names| && offset <= |Contents(i)|
    {
      MarkAll(Contents(i)[offset..], names[i]) + From(i + 1)
    }

    ghost predicate Fits(cursor: PageCursor)
      requires Valid()
    {
      && cursor.versions == versions
      && 0 <= cursor.target < |names|
      && (cursor.resume == EMPTY
          || (&& cursor.resume.Pinned?
              && cursor.resume.version == versions[names[cursor.target]]
              && cursor.resume.offset <= |Contents(cursor.target)|))
    }

    ghost function Offset(cursor: PageCursor): nat
      requires Valid() && Fits(cursor)
    {
      if cursor.resume == EMPTY then 0 else cursor.resume.offset
    }

    /** What a client still has to receive when it holds this cursor. */
    ghost function Remaining(cursor: PageCursor): seq<Value>
      requires Valid() && Fits(cursor)
    {
      Rest(cursor.target, Offset(cursor))
    }
  }

  ghost predicate Honest(names: seq<string>, world: World, logs: Logs, read: (nat, ListRequest) -> Reply)
    requires Covers(names, world, logs)
  {
    forall i: nat, request :: i < |names| ==>
      ReadConforms(world[names[i]], logs[names[i]], request, read(i, request))
  }

  ghost predicate Filling(names: seq<string>, world: World, logs: Logs, read: (nat, ListRequest) -> Reply)
    requires Covers(names, world, logs)
  {
    forall i: nat, request :: i < |names| ==>
      ReadFills(world[names[i]], logs[names[i]], request, read(i, request))
  }

  /** A probe reports a version the target has reached. */
  ghost predicate Probed(names: seq<string>, logs: Logs, probe: nat -> Reply)
    requires forall name <- names :: name in logs
  {
    forall i: nat :: i < |names| && IsSuccess(probe(i)) && probe(i).body.Some? && probe(i).body.value.Obj?
                     && ListVersion(probe(i).body.value.fields) != EMPTY ==>
      Known(logs[names[i]], ListVersion(probe(i).body.value.fields))
  }

  lemma MarkAllSplits(whole: seq<Value>, k: nat, context: string)
    requires k <= |whole|
    ensures MarkAll(whole, context) == MarkAll(whole[..k], context) + MarkAll(whole[k..], context)
  {
  }

  /** A page read from the pinned snapshot is the same page however far the log has grown since. */
  lemma PinnedPage(frozen: Frozen, logs: Logs, i: nat, request: ListRequest, reply: Reply, offset: nat)
    requires frozen.Valid() && i < |frozen.names| && Extends(frozen.logs, logs)
    requires ReadConforms(frozen.world[frozen.names[i]], logs[frozen.names[i]], request, reply)
    requires IsList(reply) && offset <= |frozen.Contents(i)|
    requires PinOf(request) == Some((frozen.versions[frozen.names[i]], offset))
    ensures IsPage(frozen.Contents(i), offset, request.limit, frozen.versions[frozen.names[i]], reply.body.value.fields)
    ensures ReadFills(frozen.world[frozen.names[i]], logs[frozen.names[i]], request, reply) ==>
              IsFullPage(frozen.Contents(i), offset, request.limit, reply.body.value.fields)
  {
    var name := frozen.names[i];
    SnapshotStable(frozen.logs[name], logs[name], frozen.versions[name]);
  }

  /** What a finished walk has achieved against a list of things to deliver. */
  ghost predicate Delivers(job: Job, frozen: Frozen, visited: Visited, todo: seq<Value>)
    requires frozen.Valid() && visited.Gathered?
  {
    var next := ListResume(visited.template);
    if next == EMPTY then visited.items == todo
    else
      && |visited.items| > 0
      && next.Token? && frozen.Fits(next.cursor)
      && next.cursor.scope == job.scope && next.cursor.targets == Join(job.names, NUL)
      && visited.items + frozen.Remaining(next.cursor) == todo
  }

  ghost predicate Matches(job: Job, frozen: Frozen, logs: Logs) {
    && frozen.Valid() && job.names == frozen.names && job.versions == frozen.versions
    && Extends(frozen.logs, logs) && Covers(job.names, frozen.world, logs)
    && Honest(job.names, frozen.world, logs, job.read)
  }

  ghost predicate StartsAt(job: Job, frozen: Frozen, index: nat, offset: nat, room: nat)
    requires frozen.Valid() && job.names == frozen.names
  {
    && index < |job.names| && room > 0 && offset <= |frozen.Contents(index)|
    && PinOf(job.RequestAt(index, room)) == Some((frozen.versions[job.names[index]], offset))
  }

  /** What one upstream page takes off its target. */
  ghost predicate Takes(job: Job, frozen: Frozen, index: nat, offset: nat, room: nat)
    requires frozen.Valid() && job.names == frozen.names && index < |job.names| && offset <= |frozen.Contents(index)|
    requires job.ReadOne(index, room).Read?
  {
    var one := job.ReadOne(index, room);
    && |one.entries| <= room && offset + |one.entries| <= |frozen.Contents(index)|
    && frozen.Rest(index, offset) == one.entries + frozen.Rest(index, offset + |one.entries|)
    && (one.next == EMPTY ==> offset + |one.entries| == |frozen.Contents(index)|)
    && (one.next != EMPTY ==>
          |one.entries| > 0 && one.next == Pinned(frozen.versions[job.names[index]], offset + |one.entries|))
  }

  lemma RestSplits(frozen: Frozen, i: nat, offset: nat, k: nat)
    requires frozen.Valid() && i < |frozen.names| && offset + k <= |frozen.Contents(i)|
    ensures frozen.Rest(i, offset)
         == MarkAll(frozen.Contents(i)[offset..offset + k], frozen.names[i]) + frozen.Rest(i, offset + k)
  {
    var all := frozen.Contents(i);
    MarkAllSplits(all[offset..], k, frozen.names[i]);
    assert all[offset..][..k] == all[offset..offset + k] && all[offset..][k..] == all[offset + k..];
    assert frozen.Rest(i, offset)
        == MarkAll(all[offset..offset + k], frozen.names[i])
           + (MarkAll(all[offset + k..], frozen.names[i]) + frozen.From(i + 1));
  }

  /** One upstream page takes the next piece off its target. */
  lemma PageTakes(job: Job, frozen: Frozen, logs: Logs, index: nat, offset: nat, room: nat)
    requires Matches(job, frozen, logs) && StartsAt(job, frozen, index, offset, room)
    requires job.ReadOne(index, room).Read?
    ensures Takes(job, frozen, index, offset, room)
  {
    PinnedPage(frozen, logs, index, job.RequestAt(index, room), job.ReplyAt(index, room), offset);
    PieceTakes(job, frozen, index, offset, room);
  }

  lemma PieceTakes(job: Job, frozen: Frozen, index: nat, offset: nat, room: nat)
    requires frozen.Valid() && job.names == frozen.names && index < |job.names| && offset <= |frozen.Contents(index)|
    requires job.ReadOne(index, room).Read?
    requires IsPage(frozen.Contents(index), offset, room, frozen.versions[job.names[index]],
                    job.ReplyAt(index, room).body.value.fields)
    ensures Takes(job, frozen, index, offset, room)
  {
    var entries := Entries(job.ReplyAt(index, room));
    assert entries == frozen.Contents(index)[offset..offset + |entries|];
    assert job.ReadOne(index, room).entries == MarkAll(entries, job.names[index]);
    RestSplits(frozen, index, offset, |entries|);
  }

  lemma RestEnds(frozen: Frozen, i: nat)
    requires frozen.Valid() && i < |frozen.names|
    ensures frozen.Rest(i, |frozen.Contents(i)|) == frozen.From(i + 1)
    ensures frozen.Rest(i, 0) == frozen.From(i)
  {
    var all := frozen.Contents(i);
    assert all[|all|..] == [] && all[0..] == all;
    assert MarkAll(all[|all|..], frozen.names[i]) == [];
  }

  /** A token for exactly what remains. */
  lemma TokenDelivers(job: Job, frozen: Frozen, visited: Visited, cursor: PageCursor, todo: seq<Value>)
    requires frozen.Valid() && visited.Gathered? && ListResume(visited.template) == Token(cursor)
    requires frozen.Fits(cursor) && cursor.scope == job.scope && cursor.targets == Join(job.names, NUL)
    requires |visited.items| > 0 && visited.items + frozen.Remaining(cursor) == todo
    ensures Delivers(job, frozen, visited, todo)
  {
  }

  /** The walk ends inside this target: its own token is handed on. */
  lemma VisitStopsInside(job: Job, frozen: Frozen, index: nat, offset: nat, room: nat)
    requires frozen.Valid() && job.names == frozen.names && job.versions == frozen.versions
    requires StartsAt(job, frozen, index, offset, room)
    requires job.ReadOne(index, room).Read? && job.ReadOne(index, room).next != EMPTY
    requires Takes(job, frozen, index, offset, room)
    ensures var visited := job.Visit(index, room);
            visited.Gathered? && |visited.items| <= room && Delivers(job, frozen, visited, frozen.Rest(index, offset))
  {
    var one := job.ReadOne(index, room);
    var cursor := PageCursor(index, one.next, job.scope, Join(job.names, NUL), job.versions);
    TakesInside(frozen, cursor, offset, one.entries);
    VisitInside(job, index, room);
    TokenDelivers(job, frozen, job.Visit(index, room), cursor, frozen.Rest(index, offset));
  }

  lemma VisitInside(job: Job, index: nat, room: nat)
    requires index < |job.names| && room > 0 && job.ReadOne(index, room).Read? && job.ReadOne(index, room).next != EMPTY
    ensures var one, visited := job.ReadOne(index, room), job.Visit(index, room);
            && visited.Gathered? && visited.items == one.entries
            && ListResume(visited.template) == job.Resume(index, one.next)
  {
  }

  /** What is left of a target after a piece of it, as a token says it. */
  lemma TakesInside(frozen: Frozen, cursor: PageCursor, offset: nat, entries: seq<Value>)
    requires frozen.Valid() && cursor.versions == frozen.versions && 0 <= cursor.target < |frozen.names|
    requires offset + |entries| <= |frozen.Contents(cursor.target)|
    requires cursor.resume == Pinned(frozen.versions[frozen.names[cursor.target]], offset + |entries|)
    requires frozen.Rest(cursor.target, offset) == entries + frozen.Rest(cursor.target, offset + |entries|)
    ensures frozen.Fits(cursor) && entries + frozen.Remaining(cursor) == frozen.Rest(cursor.target, offset)
  {
    CursorInside(frozen, cursor, offset + |entries|);
  }

  lemma CursorInside(frozen: Frozen, cursor: PageCursor, offset: nat)
    requires frozen.Valid() && cursor.versions == frozen.versions && 0 <= cursor.target < |frozen.names|
    requires offset <= |frozen.Contents(cursor.target)|
    requires cursor.resume == Pinned(frozen.versions[frozen.names[cursor.target]], offset)
    ensures frozen.Fits(cursor) && frozen.Remaining(cursor) == frozen.Rest(cursor.target, offset)
  {
  }

  /** The walk ends at the end of this target. */
  lemma VisitStopsAfter(job: Job, frozen: Frozen, index: nat, offset: nat, room: nat)
    requires frozen.Valid() && job.names == frozen.names && job.versions == frozen.versions
    requires StartsAt(job, frozen, index, offset, room)
    requires job.ReadOne(index, room).Read? && job.ReadOne(index, room).next == EMPTY && !job.GoesOn(index, room)
    requires Takes(job, frozen, index, offset, room)
    ensures var visited := job.Visit(index, room);
            visited.Gathered? && |visited.items| <= room && Delivers(job, frozen, visited, frozen.Rest(index, offset))
  {
    RestEnds(frozen, index);
    var one := job.ReadOne(index, room);
    assert frozen.Rest(index, offset) == one.entries + frozen.From(index + 1);
    if index + 1 < |job.names| {
      RestEnds(frozen, index + 1);
      var cursor := PageCursor(index + 1, EMPTY, job.scope, Join(job.names, NUL), job.versions);
      TokenDelivers(job, frozen, job.Visit(index, room), cursor, frozen.Rest(index, offset));
    } else {
      assert one.entries + [] == one.entries;
    }
  }

  /** The walk of one page takes the next piece off what remains, at most as long as asked, and leaves a
  cursor for exactly the rest. */
  lemma {:induction false} VisitDelivers(job: Job, frozen: Frozen, logs: Logs, index: nat, offset: nat, room: nat)
    requires Matches(job, frozen, logs) && StartsAt(job, frozen, index, offset, room)
    requires index >= job.cursor.target
    ensures var visited := job.Visit(index, room);
            visited.Gathered? ==> |visited.items| <= room && Delivers(job, frozen, visited, frozen.Rest(index, offset))
    decreases |job.names| - index
  {
    if !job.GoesOn(index, room) {
      var one := job.ReadOne(index, room);
      if one.Read? {
        PageTakes(job, frozen, logs, index, offset, room);
        if one.next != EMPTY {
          VisitStopsInside(job, frozen, index, offset, room);
        } else {
          VisitStopsAfter(job, frozen, index, offset, room);
        }
      }
    } else {
      var one := job.ReadOne(index, room);
      PageTakes(job, frozen, logs, index, offset, room);
      RestEnds(frozen, index);
      RestEnds(frozen, index + 1);
      VisitDelivers(job, frozen, logs, index + 1, 0, room - |one.entries|);
      PrependDelivers(job, frozen, one.entries, job.Visit(index + 1, room - |one.entries|), frozen.From(index + 1));
    }
  }

  lemma PrependDelivers(job: Job, frozen: Frozen, entries: seq<Value>, visited: Visited, todo: seq<Value>)
    requires frozen.Valid() && (visited.Gathered? ==> Delivers(job, frozen, visited, todo))
    ensures visited.Gathered? ==> Delivers(job, frozen, Prepend(entries, visited), entries + todo)
  {
    if visited.Gathered? && ListResume(visited.template) != EMPTY {
      var remaining := frozen.Remaining(ListResume(visited.template).cursor);
      assert entries + (visited.items + remaining) == (entries + visited.items) + remaining;
    }
  }

  // ----- the versions a page is pinned to

  lemma DomainGrows(names: seq<string>, i: nat, versions: map<string, Text>, more: map<string, Text>)
    requires i < |names| && forall name :: name in versions <==> name in names[..i]
    requires names[i] in more && more == versions[names[i] := more[names[i]]]
    ensures forall name :: name in more <==> name in names[..i + 1]
  {
    assert names[..i + 1] == names[..i] + [names[i]];
  }

  lemma {:induction false} PinsHave(names: seq<string>, cursor: PageCursor, probe: nat -> Reply, i: nat,
                                    versions: map<string, Text>)
    requires i <= |names| && PinsFrom(names, cursor, probe, i, versions).Pins?
    requires forall name :: name in versions <==> name in names[..i]
    requires forall name <- names[..i] :: Pinnable(names, cursor, probe, name, versions[name])
    ensures var pins := PinsFrom(names, cursor, probe, i, versions).versions;
            && (forall name :: name in pins <==> name in names)
            && (forall name <- names :: Pinnable(names, cursor, probe, name, pins[name]))
    decreases |names| - i
  {
    if i == |names| {
      assert names[..i] == names;
    } else {
      assert names[..i + 1] == names[..i] + [names[i]];
      assert Pinnable(names, cursor, probe, names[i], PinAt(cursor, probe, names[i], i).value);
      PinsHave(names, cursor, probe, i + 1, versions[names[i] := PinAt(cursor, probe, names[i], i).value]);
    }
  }

  /** `version` is what the cursor records for `name`, or else what some target of that name reported. */
  ghost predicate Pinnable(names: seq<string>, cursor: PageCursor, probe: nat -> Reply, name: string, version: Text) {
    exists i: nat :: i < |names| && names[i] == name && PinAt(cursor, probe, name, i) == Some(version)
  }

  /** The first page pins every target at a version that target has reached. */
  lemma FirstPins(names: seq<string>, world: World, logs: Logs, cursor: PageCursor, probe: nat -> Reply)
    requires Covers(names, world, logs) && Probed(names, logs, probe) && cursor.versions == map[]
    ensures var pins := PinsFrom(names, cursor, probe, 0, map[]);
            pins.Pins? ==> Frozen(names, world, logs, pins.versions).Valid()
  {
    var pins := PinsFrom(names, cursor, probe, 0, map[]);
    if pins.Pins? {
      PinsHave(names, cursor, probe, 0, map[]);
      forall name <- names
        ensures Known(logs[name], pins.versions[name])
      {
        var i: nat :| i < |names| && names[i] == name && PinAt(cursor, probe, name, i) == Some(pins.versions[name]);
      }
    }
  }

  lemma {:induction false} PinsAre(names: seq<string>, cursor: PageCursor, probe: nat -> Reply, i: nat,
                                   found: map<string, Text>, versions: map<string, Text>)
    requires i <= |names| && forall name :: name in versions <==> name in names
    requires forall j: nat :: j < |names| ==> PinAt(cursor, probe, names[j], j) == Some(versions[names[j]])
    requires forall name :: name in found <==> name in names[..i]
    requires forall name <- found :: found[name] == versions[name]
    ensures PinsFrom(names, cursor, probe, i, found) == Pins(versions)
    decreases |names| - i
  {
    if i == |names| {
      assert names[..i] == names && found == versions;
    } else {
      var more := found[names[i] := versions[names[i]]];
      DomainGrows(names, i, found, more);
      PinsAre(names, cursor, probe, i + 1, more, versions);
    }
  }

  lemma CursorStarts(job: Job, frozen: Frozen, room: nat)
    requires frozen.Valid() && job.names == frozen.names && job.versions == frozen.versions && room > 0
    requires frozen.Fits(job.cursor.(versions := frozen.versions))
    ensures StartsAt(job, frozen, job.cursor.target, frozen.Offset(job.cursor.(versions := frozen.versions)), room)
  {
  }

  /** Every later page keeps the versions of its cursor. */
  lemma LaterPins(frozen: Frozen, cursor: PageCursor, probe: nat -> Reply)
    requires frozen.Valid() && |frozen.names| > 0 && cursor.versions == frozen.versions
    ensures var pins := PinsFrom(frozen.names, cursor, probe, 0, map[]);
            pins.Pins? ==> pins.versions == frozen.versions
  {
    assert frozen.names[0] in frozen.versions;
    var pins := PinsFrom(frozen.names, cursor, probe, 0, map[]);
    if pins.Pins? {
      PinsHave(frozen.names, cursor, probe, 0, map[]);
    }
  }

  // ----- one page

  function PageItems(payload: Fields): seq<Value> {
    if ListEntries(payload).Some? then ListEntries(payload).value.entries else []
  }

  /** One served page of a chain, with the state of the targets' logs while it was read. */
  datatype Call = Call(names: seq<string>, query: Query, answers: Answers, logs: Logs, payload: Fields)

  ghost predicate Served(call: Call, world: World) {
    && |call.names| > 0
    && call.query.limit.Some? && call.query.limit.value > 0
    && PageOutcome(call.names, call.query, call.answers) == Page(call.payload)
    && Covers(call.names, world, call.logs)
    && Honest(call.names, world, call.logs, call.answers.read)
  }

  /** What a served page leaves of `todo`. */
  ghost predicate Leaves(frozen: Frozen, scope: string, payload: Fields, todo: seq<Value>)
    requires frozen.Valid()
  {
    && ListVersion(payload) == Vector(frozen.versions)
    && (ListResume(payload) == EMPTY ==> PageItems(payload) == todo)
    && (ListResume(payload) != EMPTY ==> HoldsToken(frozen, scope, ListResume(payload)))
    && (ListResume(payload) != EMPTY ==>
          |PageItems(payload)| > 0
          && PageItems(payload) + frozen.Remaining(ListResume(payload).cursor) == todo)
  }

  ghost predicate HoldsToken(frozen: Frozen, scope: string, resume: Text)
    requires frozen.Valid()
  {
    && resume.Token? && frozen.Fits(resume.cursor)
    && resume.cursor.scope == scope && resume.cursor.targets == Join(frozen.names, NUL)
  }

  /** The request is admitted, and its walk starts where the cursor says. */
  lemma PageStarts(call: Call, frozen: Frozen, cursor: PageCursor) returns (job: Job)
    requires frozen.Valid() && Served(call, frozen.world) && call.names == frozen.names
    requires Extends(frozen.logs, call.logs)
    requires DecodeCursor(call.names, call.query) == Some(cursor)
    requires var pins := PinsFrom(call.names, cursor, call.answers.probe, 0, map[]);
             pins.Pins? ==> pins.versions == frozen.versions
    requires frozen.Fits(cursor.(versions := frozen.versions))
    ensures job == Job(call.names, cursor, call.query.scope, frozen.versions, call.answers.read)
    ensures Admit(call.names, call.query, call.answers) == Admitted(job, call.query.limit.value)
    ensures Matches(job, frozen, call.logs)
    ensures StartsAt(job, frozen, cursor.target, frozen.Offset(cursor.(versions := frozen.versions)),
                     call.query.limit.value)
  {
    job := Job(call.names, cursor, call.query.scope, frozen.versions, call.answers.read);
    assert Admit(call.names, call.query, call.answers) == Admitted(job, call.query.limit.value);
  }

  lemma PageIsVisit(call: Call, world: World, job: Job)
    requires Served(call, world)
    requires Admit(call.names, call.query, call.answers) == Admitted(job, call.query.limit.value)
    ensures var visited := job.Visit(job.cursor.target, call.query.limit.value);
            && visited.Gathered? && PageItems(call.payload) == visited.items
            && ListResume(call.payload) == ListResume(visited.template)
            && ListVersion(call.payload) == Vector(job.versions)
  {
  }

  /** A page served from a cursor that fits the pinned snapshots delivers the next piece of the plain
  merge, no longer than its limit, and states the pinned versions. */
  lemma PageDelivers(call: Call, frozen: Frozen, cursor: PageCursor)
    requires frozen.Valid() && Served(call, frozen.world) && call.names == frozen.names
    requires Extends(frozen.logs, call.logs)
    requires DecodeCursor(call.names, call.query) == Some(cursor)
    requires var pins := PinsFrom(call.names, cursor, call.answers.probe, 0, map[]);
             pins.Pins? ==> pins.versions == frozen.versions
    requires frozen.Fits(cursor.(versions := frozen.versions))
    ensures |PageItems(call.payload)| <= call.query.limit.value
    ensures Leaves(frozen, call.query.scope, call.payload, frozen.Remaining(cursor.(versions := frozen.versions)))
  {
    var job := PageStarts(call, frozen, cursor);
    var offset := frozen.Offset(cursor.(versions := frozen.versions));
    VisitDelivers(job, frozen, call.logs, cursor.target, offset, call.query.limit.value);
    PageIsVisit(call, frozen.world, job);
  }

  /** A token is only accepted by a configuration with the same names in the same order. */
  lemma TokenNeedsSameNames(frozen: Frozen, scope: string, names: seq<string>, query: Query)
    requires frozen.Valid() && |frozen.names| > 0 && |names| > 0 && Free(frozen.names, NUL) && Free(names, NUL)
    requires HoldsToken(frozen, scope, query.resume) && DecodeCursor(names, query).Some?
    ensures names == frozen.names && query.scope == scope
    ensures DecodeCursor(names, query) == Some(query.resume.cursor)
  {
    JoinInjective(names, frozen.names, NUL);
  }

  // ----- chains of pages

  /** Pages served one after the other, each with the token of the one before: any positive limits, any
  growth of the targets' logs since `start`, any change of the configured targets. */
  ghost predicate Follows(calls: seq<Call>, world: World, start: Logs, resume: Text) {
    && |calls| > 0
    && calls[0].query.resume == resume
    && Served(calls[0], world) && Extends(start, calls[0].logs) && Free(calls[0].names, NUL)
    && (|calls| > 1 ==>
          ListResume(calls[0].payload) != EMPTY && Follows(calls[1..], world, start, ListResume(calls[0].payload)))
  }

  /** A whole pagination: it starts without a token, with the versions probed at `start`. */
  ghost predicate Chain(calls: seq<Call>, world: World, start: Logs) {
    && Follows(calls, world, start, EMPTY)
    && Covers(calls[0].names, world, start) && Probed(calls[0].names, start, calls[0].answers.probe)
  }

  function Received(calls: seq<Call>): seq<Value> {
    if calls == [] then [] else PageItems(calls[0].payload) + Received(calls[1..])
  }

  function LastResume(calls: seq<Call>): Text
    requires |calls| > 0
  {
    ListResume(calls[|calls| - 1].payload)
  }

  /** The snapshots a pagination is pinned to: at the versions its first page states. */
  ghost function Pin(calls: seq<Call>, world: World, start: Logs): Frozen
    requires |calls| > 0
  {
    var version := ListVersion(calls[0].payload);
    Frozen(calls[0].names, world, start, if version.Vector? then version.versions else map[])
  }

  ghost predicate Uniform(call: Call, frozen: Frozen) {
    && call.names == frozen.names
    && ListVersion(call.payload) == Vector(frozen.versions)
    && call.query.limit.Some? && |PageItems(call.payload)| <= call.query.limit.value
  }

  ghost predicate AllUniform(calls: seq<Call>, frozen: Frozen) {
    forall k :: 0 <= k < |calls| ==> Uniform(calls[k], frozen)
  }

  /** What has been received is `todo` without what the last token still stands for. */
  ghost predicate Balanced(received: seq<Value>, scope: string, resume: Text, frozen: Frozen, todo: seq<Value>)
    requires frozen.Valid()
  {
    if resume == EMPTY then received == todo
    else HoldsToken(frozen, scope, resume) && received + frozen.Remaining(resume.cursor) == todo
  }

  /** All pages agree with the pinned snapshots, the account is balanced, and every page that has a token
  has items. */
  ghost predicate Delivered(calls: seq<Call>, frozen: Frozen, todo: seq<Value>)
    requires frozen.Valid() && |calls| > 0
  {
    && AllUniform(calls, frozen)
    && Balanced(Received(calls), calls[|calls| - 1].query.scope, LastResume(calls), frozen, todo)
    && |Received(calls)| >= |calls| - (if LastResume(calls) == EMPTY then 1 else 0)
  }

  lemma DeliveredOne(call: Call, frozen: Frozen, todo: seq<Value>)
    requires frozen.Valid() && Uniform(call, frozen) && Leaves(frozen, call.query.scope, call.payload, todo)
    ensures Delivered([call], frozen, todo)
  {
    var calls := [call];
    assert calls[1..] == [] && Received(calls) == PageItems(call.payload) + [];
    assert Received(calls) == PageItems(call.payload);
  }

  lemma BalancedMore(items: seq<Value>, received: seq<Value>, scope: string, resume: Text, frozen: Frozen,
                     middle: seq<Value>)
    requires frozen.Valid() && Balanced(received, scope, resume, frozen, middle)
    ensures Balanced(items + received, scope, resume, frozen, items + middle)
  {
    if resume != EMPTY {
      var remaining := frozen.Remaining(resume.cursor);
      assert items + (received + remaining) == (items + received) + remaining;
    }
  }

  /** A page has been served as it should and leaves the rest of `todo`. */
  ghost predicate Opens(calls: seq<Call>, frozen: Frozen, todo: seq<Value>)
    requires frozen.Valid()
  {
    |calls| > 0 && Uniform(calls[0], frozen) && Leaves(frozen, calls[0].query.scope, calls[0].payload, todo)
  }

  lemma DeliveredMore(calls: seq<Call>, frozen: Frozen, todo: seq<Value>)
    requires frozen.Valid() && |calls| > 1 && Opens(calls, frozen, todo) && ListResume(calls[0].payload) != EMPTY
    requires Delivered(calls[1..], frozen, frozen.Remaining(ListResume(calls[0].payload).cursor))
    ensures Delivered(calls, frozen, todo)
  {
    var call, rest := calls[0], calls[1..];
    assert forall k :: 0 < k < |calls| ==> calls[k] == rest[k - 1];
    assert Received(calls) == PageItems(call.payload) + Received(rest);
    BalancedMore(PageItems(call.payload), Received(rest), rest[|rest| - 1].query.scope, LastResume(rest), frozen,
                 frozen.Remaining(ListResume(call.payload).cursor));
  }

  lemma NextPage(frozen: Frozen, scope: string, call: Call)
    requires frozen.Valid() && |frozen.names| > 0 && Free(frozen.names, NUL)
    requires HoldsToken(frozen, scope, call.query.resume)
    requires Served(call, frozen.world) && Extends(frozen.logs, call.logs) && Free(call.names, NUL)
    ensures Uniform(call, frozen)
    ensures Leaves(frozen, call.query.scope, call.payload, frozen.Remaining(call.query.resume.cursor))
  {
    var cursor := call.query.resume.cursor;
    TokenNeedsSameNames(frozen, scope, call.names, call.query);
    LaterPins(frozen, cursor, call.answers.probe);
    PageDelivers(call, frozen, cursor);
  }

  ghost predicate Underway(calls: seq<Call>, frozen: Frozen, resume: Text, todo: seq<Value>)
    requires frozen.Valid()
  {
    Follows(calls, frozen.world, frozen.logs, resume) && Opens(calls, frozen, todo)
  }

  lemma UnderwayNext(calls: seq<Call>, frozen: Frozen, resume: Text, todo: seq<Value>)
    requires frozen.Valid() && |frozen.names| > 0 && Free(frozen.names, NUL)
    requires Underway(calls, frozen, resume, todo) && |calls| > 1
    ensures HoldsToken(frozen, calls[0].query.scope, ListResume(calls[0].payload))
    ensures Underway(calls[1..], frozen, ListResume(calls[0].payload),
                     frozen.Remaining(ListResume(calls[0].payload).cursor))
  {
    var rest := calls[1..];
    assert Follows(rest, frozen.world, frozen.logs, ListResume(calls[0].payload));
    NextPage(frozen, calls[0].query.scope, rest[0]);
  }

  /** Following the tokens of a page delivers what the page left. */
  lemma {:induction false} FollowDelivers(calls: seq<Call>, frozen: Frozen, resume: Text, todo: seq<Value>)
    requires frozen.Valid() && |frozen.names| > 0 && Free(frozen.names, NUL)
    requires Underway(calls, frozen, resume, todo)
    ensures Delivered(calls, frozen, todo)
    decreases |calls|
  {
    if |calls| == 1 {
      assert calls == [calls[0]];
      DeliveredOne(calls[0], frozen, todo);
    } else {
      var next := ListResume(calls[0].payload);
      UnderwayNext(calls, frozen, resume, todo);
      FollowDelivers(calls[1..], frozen, next, frozen.Remaining(next.cursor));
      DeliveredMore(calls, frozen, todo);
    }
  }

  lemma FirstPage(call: Call, world: World, start: Logs)
    requires Served(call, world) && Extends(start, call.logs) && call.query.resume == EMPTY
    requires Covers(call.names, world, start) && Probed(call.names, start, call.answers.probe)
    ensures var frozen := Pin([call], world, start);
            frozen.Valid() && Uniform(call, frozen) && Leaves(frozen, call.query.scope, call.payload, frozen.From(0))
  {
    var cursor := DecodeCursor(call.names, call.query).value;
    FirstPins(call.names, world, start, cursor, call.answers.probe);
    var pins := PinsFrom(call.names, cursor, call.answers.probe, 0, map[]);
    var frozen := Frozen(call.names, world, start, pins.versions);
    PageDelivers(call, frozen, cursor);
    assert Pin([call], world, start) == frozen;
    RestEnds(frozen, 0);
  }

  /** Every pagination, whatever the limits, whatever is written to the targets meanwhile and however the
  configuration is reloaded: at any point what the client has received is the plain merge of one snapshot
  per target, minus exactly what its token still stands for. All pages come from the same targets and state
  the same versions, none is longer than asked, and every page with a token brought something. */
  lemma ChainDelivers(calls: seq<Call>, world: World, start: Logs)
    requires Chain(calls, world, start)
    ensures var frozen := Pin(calls, world, start);
            frozen.Valid() && Delivered(calls, frozen, frozen.From(0))
  {
    FirstPage(calls[0], world, start);
    assert Pin([calls[0]], world, start) == Pin(calls, world, start);
    var frozen := Pin(calls, world, start);
    FollowDelivers(calls, frozen, EMPTY, frozen.From(0));
  }

  /** A finished pagination: all the items, at the version every page states. */
  lemma ChainEnds(calls: seq<Call>, world: World, start: Logs)
    requires Chain(calls, world, start) && LastResume(calls) == EMPTY
    ensures var frozen := Pin(calls, world, start);
            && frozen.Valid() && Received(calls) == frozen.From(0)
            && ListVersion(calls[|calls| - 1].payload) == Vector(frozen.versions)
  {
    ChainDelivers(calls, world, start);
    assert Uniform(calls[|calls| - 1], Pin(calls, world, start));
  }

  /** A pagination ends within one page more than there are items. */
  lemma ChainIsShort(calls: seq<Call>, world: World, start: Logs)
    requires Chain(calls, world, start)
    ensures var frozen := Pin(calls, world, start);
            frozen.Valid() && |calls| <= |frozen.From(0)| + 1
  {
    ChainDelivers(calls, world, start);
  }

  // ----- pages against the unpaginated list

  /** Replies that are whole lists at the pinned versions. */
  ghost predicate AllWhole(frozen: Frozen, replies: seq<Reply>)
    requires frozen.Valid()
  {
    && |replies| == |frozen.names|
    && (forall i :: 0 <= i < |replies| ==>
          IsWholeList(frozen.world[frozen.names[i]], frozen.logs[frozen.names[i]],
                      frozen.versions[frozen.names[i]], replies[i]))
  }

  function KeyOfReply(reply: Reply): string
    requires HasEntries(reply)
  {
    ListEntries(reply.body.value.fields).value.key
  }

  predicate SameShape(replies: seq<Reply>) {
    && (forall i :: 0 <= i < |replies| ==> HasEntries(replies[i]))
    && (forall i :: 0 <= i < |replies| ==> KeyOfReply(replies[i]) == KeyOfReply(replies[0]))
  }

  /** The marked entries of the replies from `i` on, one reply after the other. */
  function AllMarked(names: seq<string>, replies: seq<Reply>, i: nat): seq<Value>
    requires i <= |names| == |replies| && forall j :: 0 <= j < |replies| ==> HasEntries(replies[j])
    decreases |names| - i
  {
    if i == |names| then []
    else
      assert HasEntries(replies[i]);
      MarkAll(ListEntries(replies[i].body.value.fields).value.entries, names[i]) + AllMarked(names, replies, i + 1)
  }

  /** Merging lists of one shape concatenates their marked entries. */
  lemma {:induction false} MergeConcatenates(names: seq<string>, replies: seq<Reply>, i: nat, merged: Option<Fields>)
    requires |names| == |replies| && SameShape(replies)
    requires i <= |replies| && (merged.None? ==> i < |replies|)
    requires merged.Some? ==> ListEntries(merged.value).Some?
    requires merged.Some? && i < |replies| ==> ListEntries(merged.value).value.key == KeyOfReply(replies[0])
    ensures var outcome := MergeFrom(names, replies, i, merged);
            && outcome.Page?
            && PageItems(outcome.payload)
               == (if merged.Some? then PageItems(merged.value) else []) + AllMarked(names, replies, i)
            && ListVersion(outcome.payload) == Vector(MergedVersions(names, replies, 0, map[]))
    decreases |replies| - i
  {
    if i < |replies| {
      var listed := ListEntries(replies[i].body.value.fields).value;
      var marked := MarkAll(listed.entries, names[i]);
      if merged.None? {
        MergeConcatenates(names, replies, i + 1, Some(WithEntries(replies[i].body.value.fields, marked)));
        assert [] + AllMarked(names, replies, i) == marked + AllMarked(names, replies, i + 1);
      } else {
        var current := ListEntries(merged.value).value.entries;
        MergeConcatenates(names, replies, i + 1, Some(WithEntries(merged.value, current + marked)));
        assert current + (marked + AllMarked(names, replies, i + 1))
            == current + marked + AllMarked(names, replies, i + 1);
      }
    } else {
      assert PageItems(merged.value) + [] == PageItems(merged.value);
    }
  }

  lemma WholeEntries(frozen: Frozen, replies: seq<Reply>, i: nat)
    requires frozen.Valid() && AllWhole(frozen, replies) && i < |replies|
    ensures HasEntries(replies[i]) && ListEntries(replies[i].body.value.fields).value.entries == frozen.Contents(i)
  {
    var name := frozen.names[i];
    assert IsWholeList(frozen.world[name], frozen.logs[name], frozen.versions[name], replies[i]);
  }

  /** The entries of each reply are the pinned contents of its target. */
  ghost predicate ListsContents(frozen: Frozen, replies: seq<Reply>)
    requires frozen.Valid()
  {
    && |replies| == |frozen.names|
    && (forall i :: 0 <= i < |replies| ==>
          HasEntries(replies[i]) && ListEntries(replies[i].body.value.fields).value.entries == frozen.Contents(i))
  }

  lemma {:induction false} AllMarkedIsPlain(frozen: Frozen, replies: seq<Reply>, i: nat)
    requires frozen.Valid() && ListsContents(frozen, replies) && i <= |replies|
    ensures AllMarked(frozen.names, replies, i) == frozen.From(i)
    decreases |replies| - i
  {
    if i < |replies| {
      AllMarkedIsPlain(frozen, replies, i + 1);
    }
  }

  lemma {:induction false} MergedVersionsAre(names: seq<string>, replies: seq<Reply>, i: nat,
                                             versions: map<string, Text>, all: map<string, Text>)
    requires i <= |names| == |replies| && forall name :: name in all <==> name in names
    requires forall j :: 0 <= j < |names| ==> StatedVersion(replies[j]) == Some(all[names[j]])
    requires forall name :: name in versions <==> name in names[..i]
    requires forall name <- versions :: versions[name] == all[name]
    ensures MergedVersions(names, replies, i, versions) == all
    decreases |replies| - i
  {
    if i == |replies| {
      assert names[..i] == names;
    } else {
      var more := versions[names[i] := all[names[i]]];
      DomainGrows(names, i, versions, more);
      MergedVersionsAre(names, replies, i + 1, more, all);
    }
  }

  /** A whole list states its version as a string. */
  lemma WholeStatesVersion(frozen: Frozen, replies: seq<Reply>, i: nat)
    requires frozen.Valid() && AllWhole(frozen, replies) && i < |replies|
    ensures StatedVersion(replies[i]) == Some(frozen.versions[frozen.names[i]])
  {
    var name := frozen.names[i];
    assert IsWholeList(frozen.world[name], frozen.logs[name], frozen.versions[name], replies[i]);
    var n := Position(frozen.logs[name], frozen.versions[name]);
    assert frozen.versions[name] != EMPTY;
  }

  lemma NoFailure(names: seq<string>, replies: seq<Reply>, i: nat)
    requires i <= |names| == |replies|
    ensures FirstFailure(names, replies, i) == None <==> forall j :: i <= j < |replies| ==> IsSuccess(replies[j])
    decreases |names| - i
  {
    if i < |names| { NoFailure(names, replies, i + 1); }
  }

  lemma WholeListIsPlain(frozen: Frozen, whole: nat -> Reply)
    requires frozen.Valid() && |frozen.names| > 0
    requires AllWhole(frozen, seq(|frozen.names|, whole)) && SameShape(seq(|frozen.names|, whole))
    ensures var outcome := WholeList(frozen.names, whole);
            outcome.Page? && PageItems(outcome.payload) == frozen.From(0)
            && ListVersion(outcome.payload) == Vector(frozen.versions)
  {
    var replies := seq(|frozen.names|, whole);
    NoFailure(frozen.names, replies, 0);
    MergeConcatenates(frozen.names, replies, 0, None);
    forall i | 0 <= i < |replies|
      ensures StatedVersion(replies[i]) == Some(frozen.versions[frozen.names[i]])
      ensures HasEntries(replies[i]) && ListEntries(replies[i].body.value.fields).value.entries == frozen.Contents(i)
    {
      WholeStatesVersion(frozen, replies, i);
      WholeEntries(frozen, replies, i);
    }
    AllMarkedIsPlain(frozen, replies, 0);
    MergedVersionsAre(frozen.names, replies, 0, map[], frozen.versions);
    assert [] + frozen.From(0) == frozen.From(0);
  }

  /** Pagination refines the plain list: once a chain of pages has ended, the client has exactly the items,
  in the order, and the aggregate version, that the unpaginated list of the same snapshots would have
  given it. */
  lemma PaginationRefinesMerge(calls: seq<Call>, world: World, start: Logs, whole: nat -> Reply)
    requires Chain(calls, world, start) && LastResume(calls) == EMPTY
    requires Pin(calls, world, start).Valid()
    requires AllWhole(Pin(calls, world, start), seq(|calls[0].names|, whole))
    requires SameShape(seq(|calls[0].names|, whole))
    ensures var outcome := WholeList(calls[0].names, whole);
            && outcome.Page?
            && Received(calls) == PageItems(outcome.payload)
            && ListVersion(calls[|calls| - 1].payload) == ListVersion(outcome.payload)
  {
    ChainEnds(calls, world, start);
    WholeListIsPlain(Pin(calls, world, start), whole);
  }

  /** The unpaginated list succeeds exactly when every target answers with a list of one and the same shape;
  pages never compare shapes. */
  lemma {:induction false} MergeSucceedsIff(names: seq<string>, replies: seq<Reply>, i: nat, merged: Option<Fields>)
    requires i <= |names| == |replies| && (merged.Some? ==> ListEntries(merged.value).Some?)
    ensures MergeFrom(names, replies, i, merged).Page? <==>
            (forall j :: i <= j < |replies| ==> HasEntries(replies[j])) &&
            (forall j :: i <= j < |replies| ==>
               KeyOfReply(replies[j]) ==
               if merged.Some? then ListEntries(merged.value).value.key else KeyOfReply(replies[i]))
    decreases |names| - i
  {
    if i < |names| && HasEntries(replies[i]) {
      var listed := ListEntries(replies[i].body.value.fields).value;
      var marked := MarkAll(listed.entries, names[i]);
      if merged.None? {
        MergeSucceedsIff(names, replies, i + 1, Some(WithEntries(replies[i].body.value.fields, marked)));
      } else if ListEntries(merged.value).value.key == listed.key {
        MergeSucceedsIff(names, replies, i + 1,
                         Some(WithEntries(merged.value, ListEntries(merged.value).value.entries + marked)));
      }
    }
  }

  // ----- pages that fill up

  /** One page of a target that fills its pages: it is full, or the target is exhausted without a token. */
  lemma OneFills(job: Job, frozen: Frozen, logs: Logs, index: nat, offset: nat, room: nat)
    requires Matches(job, frozen, logs) && Filling(job.names, frozen.world, logs, job.read)
    requires StartsAt(job, frozen, index, offset, room) && job.ReadOne(index, room).Read?
    ensures job.ReadOne(index, room).next != EMPTY ==> |job.ReadOne(index, room).entries| == room
  {
    PinnedPage(frozen, logs, index, job.RequestAt(index, room), job.ReplyAt(index, room), offset);
  }

  /** When no target returns a short page while it has more, a page that is not the last is full. */
  lemma {:induction false} VisitFills(job: Job, frozen: Frozen, logs: Logs, index: nat, offset: nat, room: nat)
    requires Matches(job, frozen, logs) && Filling(job.names, frozen.world, logs, job.read)
    requires StartsAt(job, frozen, index, offset, room) && index >= job.cursor.target
    ensures FullUnlessLast(job.Visit(index, room), room)
    decreases |job.names| - index
  {
    var one := job.ReadOne(index, room);
    if one.Read? {
      OneFills(job, frozen, logs, index, offset, room);
      if job.GoesOn(index, room) {
        VisitFills(job, frozen, logs, index + 1, 0, room - |one.entries|);
      }
    }
    VisitFillsFrom(job, index, room);
  }

  ghost predicate FullUnlessLast(visited: Visited, room: nat) {
    visited.Gathered? && ListResume(visited.template) != EMPTY ==> |visited.items| == room
  }

  lemma VisitFillsFrom(job: Job, index: nat, room: nat)
    requires index < |job.names| && room > 0
    requires var one := job.ReadOne(index, room);
             && (one.Read? && one.next != EMPTY ==> |one.entries| == room)
             && (job.GoesOn(index, room) ==>
                   FullUnlessLast(job.Visit(index + 1, room - |one.entries|), room - |one.entries|))
    ensures FullUnlessLast(job.Visit(index, room), room)
  {
  }

  lemma PageFills(call: Call, frozen: Frozen, cursor: PageCursor)
    requires frozen.Valid() && Served(call, frozen.world) && call.names == frozen.names
    requires Extends(frozen.logs, call.logs)
    requires Filling(call.names, frozen.world, call.logs, call.answers.read)
    requires DecodeCursor(call.names, call.query) == Some(cursor)
    requires var pins := PinsFrom(call.names, cursor, call.answers.probe, 0, map[]);
             pins.Pins? ==> pins.versions == frozen.versions
    requires frozen.Fits(cursor.(versions := frozen.versions))
    ensures ListResume(call.payload) != EMPTY ==> |PageItems(call.payload)| == call.query.limit.value
  {
    var job := PageStarts(call, frozen, cursor);
    var offset := frozen.Offset(cursor.(versions := frozen.versions));
    VisitFills(job, frozen, call.logs, cursor.target, offset, call.query.limit.value);
    PageIsVisit(call, frozen.world, job);
  }

  ghost predicate AllFilling(calls: seq<Call>, world: World, limit: nat) {
    forall k :: 0 <= k < |calls| ==>
      && Covers(calls[k].names, world, calls[k].logs)
      && Filling(calls[k].names, world, calls[k].logs, calls[k].answers.read)
      && calls[k].query.limit == Some(limit)
  }

  /** A page is full and leaves a token that fits, or it is the last one. */
  ghost predicate FullOrLast(call: Call, frozen: Frozen, limit: nat)
    requires frozen.Valid()
  {
    ListResume(call.payload) != EMPTY ==>
      |PageItems(call.payload)| == limit && HoldsToken(frozen, call.query.scope, ListResume(call.payload))
  }

  lemma FillingSplits(calls: seq<Call>, world: World, limit: nat)
    requires |calls| > 1 && AllFilling(calls, world, limit)
    ensures AllFilling(calls[1..], world, limit) && AllFilling([calls[1..][0]], world, limit)
  {
    var rest := calls[1..];
    forall k | 0 <= k < |rest|
      ensures rest[k] == calls[k + 1]
    {
    }
  }

  lemma NextPageFull(frozen: Frozen, scope: string, call: Call, limit: nat)
    requires frozen.Valid() && |frozen.names| > 0 && Free(frozen.names, NUL)
    requires HoldsToken(frozen, scope, call.query.resume)
    requires Served(call, frozen.world) && Extends(frozen.logs, call.logs) && Free(call.names, NUL)
    requires AllFilling([call], frozen.world, limit)
    ensures FullOrLast(call, frozen, limit)
  {
    assert [call][0] == call;
    var cursor := call.query.resume.cursor;
    NextPage(frozen, scope, call);
    TokenNeedsSameNames(frozen, scope, call.names, call.query);
    LaterPins(frozen, cursor, call.answers.probe);
    PageFills(call, frozen, cursor);
  }

  lemma FirstPageFull(call: Call, world: World, start: Logs, limit: nat)
    requires Served(call, world) && Extends(start, call.logs) && call.query.resume == EMPTY
    requires Covers(call.names, world, start) && Probed(call.names, start, call.answers.probe)
    requires AllFilling([call], world, limit)
    ensures ListResume(call.payload) != EMPTY ==> |PageItems(call.payload)| == limit
  {
    assert [call][0] == call;
    var cursor := DecodeCursor(call.names, call.query).value;
    FirstPins(call.names, world, start, cursor, call.answers.probe);
    var pins := PinsFrom(call.names, cursor, call.answers.probe, 0, map[]);
    PageFills(call, Frozen(call.names, world, start, pins.versions), cursor);
  }

  ghost predicate FullBeforeLast(calls: seq<Call>, limit: nat) {
    forall k :: 0 <= k < |calls| - 1 ==> |PageItems(calls[k].payload)| == limit
  }

  lemma {:induction false} FullLength(calls: seq<Call>, limit: nat)
    requires |calls| > 0 && FullBeforeLast(calls, limit)
    ensures |Received(calls)| >= (|calls| - 1) * limit
  {
    if |calls| > 1 {
      var rest := calls[1..];
      assert forall k :: 0 <= k < |rest| - 1 ==> rest[k] == calls[k + 1];
      FullLength(rest, limit);
      assert (|calls| - 1) * limit == limit + (|rest| - 1) * limit;
    }
  }

  lemma FullMore(calls: seq<Call>, limit: nat)
    requires |calls| > 1 && |PageItems(calls[0].payload)| == limit && FullBeforeLast(calls[1..], limit)
    ensures FullBeforeLast(calls, limit)
  {
    assert calls == [calls[0]] + calls[1..];
  }

  /** What holds of the first page of a uniform pagination over filling targets, so that it holds of the next. */
  ghost predicate FullSoFar(calls: seq<Call>, frozen: Frozen, resume: Text, limit: nat)
    requires frozen.Valid()
  {
    && Follows(calls, frozen.world, frozen.logs, resume) && AllFilling(calls, frozen.world, limit)
    && FullOrLast(calls[0], frozen, limit)
  }

  lemma FullNext(calls: seq<Call>, frozen: Frozen, resume: Text, limit: nat)
    requires frozen.Valid() && |frozen.names| > 0 && Free(frozen.names, NUL)
    requires FullSoFar(calls, frozen, resume, limit) && |calls| > 1
    ensures |PageItems(calls[0].payload)| == limit
    ensures FullSoFar(calls[1..], frozen, ListResume(calls[0].payload), limit)
  {
    var rest := calls[1..];
    assert Follows(rest, frozen.world, frozen.logs, ListResume(calls[0].payload));
    FillingSplits(calls, frozen.world, limit);
    NextPageFull(frozen, calls[0].query.scope, rest[0], limit);
  }

  lemma {:induction false} FullFollow(calls: seq<Call>, frozen: Frozen, resume: Text, limit: nat)
    requires frozen.Valid() && |frozen.names| > 0 && Free(frozen.names, NUL)
    requires FullSoFar(calls, frozen, resume, limit)
    ensures FullBeforeLast(calls, limit)
    decreases |calls|
  {
    if |calls| > 1 {
      FullNext(calls, frozen, resume, limit);
      FullFollow(calls[1..], frozen, ListResume(calls[0].payload), limit);
      FullMore(calls, limit);
    }
  }

  /** A pagination with one limit over targets that fill their pages: every page before the last is full,
  so it takes at most total / limit + 1 pages. */
  lemma FullChainIsShort(calls: seq<Call>, world: World, start: Logs, limit: nat)
    requires Chain(calls, world, start) && AllFilling(calls, world, limit)
    ensures FullBeforeLast(calls, limit)
    ensures var frozen := Pin(calls, world, start);
            frozen.Valid() && (|calls| - 1) * limit <= |frozen.From(0)|
  {
    assert AllFilling([calls[0]], world, limit);
    FirstPage(calls[0], world, start);
    FirstPageFull(calls[0], world, start, limit);
    var frozen := Pin(calls, world, start);
    assert Pin([calls[0]], world, start) == frozen;
    FullFollow(calls, frozen, EMPTY, limit);
    FullLength(calls, limit);
    ChainDelivers(calls, world, start);
  }

  // ----- where continuation tokens go

  /** The versions a page works with, whatever the targets answer: those of its cursor. */
  lemma CursorKeepsVersions(names: seq<string>, cursor: PageCursor, probe: nat -> Reply)
    requires |names| > 0 && forall name :: name in cursor.versions <==> name in names
    ensures var pins := PinsFrom(names, cursor, probe, 0, map[]);
            pins.Pins? ==> pins.versions == cursor.versions
  {
    assert names[0] in cursor.versions;
    if PinsFrom(names, cursor, probe, 0, map[]).Pins? {
      PinsHave(names, cursor, probe, 0, map[]);
    }
  }

  /** `resume` is the continuation that target `target` gave in answer to one of the reads `asked`. */
  ghost predicate Issued(job: Job, asked: seq<(nat, ListRequest)>, target: int, resume: Text) {
    exists k :: 0 <= k < |asked| && asked[k].0 == target && IsList(job.read(asked[k].0, asked[k].1))
                && ListResume(job.read(asked[k].0, asked[k].1).body.value.fields) == resume
  }

  lemma IssuedMore(job: Job, first: (nat, ListRequest), later: seq<(nat, ListRequest)>, target: int, resume: Text)
    requires Issued(job, later, target, resume)
    ensures Issued(job, [first] + later, target, resume)
  {
    var k :| 0 <= k < |later| && later[k].0 == target && IsList(job.read(later[k].0, later[k].1))
             && ListResume(job.read(later[k].0, later[k].1).body.value.fields) == resume;
    assert ([first] + later)[k + 1] == later[k];
  }

  lemma {:induction false} VisitIssues(job: Job, index: nat, room: nat)
    requires index < |job.names| && room > 0
    ensures var visited := job.Visit(index, room);
            visited.Gathered? && ListResume(visited.template) != EMPTY ==>
              var token := ListResume(visited.template);
              && token.Token? && token.cursor.versions == job.versions
              && token.cursor.targets == Join(job.names, NUL) && 0 <= token.cursor.target < |job.names|
              && (token.cursor.resume == EMPTY
                  || Issued(job, job.Asked(index, room), token.cursor.target, token.cursor.resume))
    decreases |job.names| - index
  {
    var one := job.ReadOne(index, room);
    var asked := job.Asked(index, room);
    assert asked[0] == (index, job.RequestAt(index, room));
    if job.GoesOn(index, room) {
      VisitIssues(job, index + 1, room - |one.entries|);
      var later := job.Asked(index + 1, room - |one.entries|);
      assert asked == [asked[0]] + later;
      var visited := job.Visit(index + 1, room - |one.entries|);
      if visited.Gathered? && ListResume(visited.template).Token? {
        var cursor := ListResume(visited.template).cursor;
        if cursor.resume != EMPTY { IssuedMore(job, asked[0], later, cursor.target, cursor.resume); }
      }
    }
  }

  lemma {:induction false} OnlyCursorResumes(job: Job, index: nat, room: nat)
    requires index < |job.names| && room > 0
    ensures forall k :: 0 <= k < |job.Asked(index, room)| ==>
              job.Asked(index, room)[k].1.resume == EMPTY
              || (job.Asked(index, room)[k].0 == job.cursor.target
                  && job.Asked(index, room)[k].1.resume == job.cursor.resume)
    decreases |job.names| - index
  {
    if job.GoesOn(index, room) {
      OnlyCursorResumes(job, index + 1, room - |job.ReadOne(index, room).entries|);
    }
  }

  /** Token confinement across reloads, whatever the targets answer: when a page is followed by another
  under a possibly different configuration, then either the second is refused or the configurations list
  the same names, the versions are the same, and every upstream continuation sent goes to the very target
  that issued it for the first page. */
  lemma TokenConfined(first: seq<string>, second: seq<string>, query: Query, answers: Answers,
                      nextQuery: Query, nextAnswers: Answers)
    requires |first| > 0 && |second| > 0 && Free(first, NUL) && Free(second, NUL)
    requires Admit(first, query, answers).Admitted? && PageOutcome(first, query, answers).Page?
    requires nextQuery.resume == ListResume(PageOutcome(first, query, answers).payload) != EMPTY
    requires Admit(second, nextQuery, nextAnswers).Admitted?
    ensures var (job, limit) := (Admit(first, query, answers).job, Admit(first, query, answers).limit);
            var (next, nextLimit) := (Admit(second, nextQuery, nextAnswers).job,
                                      Admit(second, nextQuery, nextAnswers).limit);
            && first == second && next.versions == job.versions
            && forall k :: 0 <= k < |next.Asked(next.cursor.target, nextLimit)| ==>
                 var (target, request) := next.Asked(next.cursor.target, nextLimit)[k];
                 request.resume == EMPTY || Issued(job, job.Asked(job.cursor.target, limit), target, request.resume)
  {
    var job, limit := Admit(first, query, answers).job, Admit(first, query, answers).limit;
    var next, nextLimit := Admit(second, nextQuery, nextAnswers).job, Admit(second, nextQuery, nextAnswers).limit;
    VisitIssues(job, job.cursor.target, limit);
    assert ListResume(PageOutcome(first, query, answers).payload)
        == ListResume(job.Visit(job.cursor.target, limit).template);
    JoinInjective(first, second, NUL);
    PinsHave(first, job.cursor, answers.probe, 0, map[]);
    CursorKeepsVersions(second, next.cursor, nextAnswers.probe);
    OnlyCursorResumes(next, next.cursor.target, nextLimit);
  }

  /** Exactly which configurations accept a token: those whose names, cut at NUL, give the same pieces as
  the issuer's, for the same scope, with a target at the token's index. */
  lemma TokenAcceptedIff(issuer: seq<string>, names: seq<string>, query: Query)
    requires |issuer| > 0 && |names| > 0
    requires query.resume.Token? && query.resume.cursor.targets == Join(issuer, NUL)
    ensures DecodeCursor(names, query).Some? <==>
            && Pieces(names, NUL) == Pieces(issuer, NUL)
            && query.resume.cursor.scope == query.scope && 0 <= query.resume.cursor.target < |names|
  {
    SameJoinIff(names, issuer, NUL);
  }

  /** A token is accepted by its issuer only, among all configurations that the proxy can run with and that
  have no NUL in their names, exactly when the issuer has no NUL in its names either or cutting them at NUL
  gives no such configuration, but an empty or a repeated name. */
  lemma TokenIdentifiesIff(issuer: seq<string>, query: Query)
    requires query.resume.Token? && query.resume.cursor.targets == Join(issuer, NUL)
    requires query.resume.cursor.scope == query.scope && 0 <= query.resume.cursor.target < |issuer|
    ensures Free(issuer, NUL) || !ValidNames(Pieces(issuer, NUL)) <==>
            forall names | ValidNames(names) && Free(names, NUL) && DecodeCursor(names, query).Some? :: names == issuer
  {
    var other := Pieces(issuer, NUL);
    PiecesMeaning(issuer, NUL);
    PiecesMeaning(other, NUL);
    forall names | ValidNames(names) && Free(names, NUL) && DecodeCursor(names, query).Some?
      ensures names == other
    {
      TokenAcceptedIff(issuer, names, query);
      PiecesMeaning(names, NUL);
    }
    if ValidNames(other) {
      TokenAcceptedIff(issuer, other, query);
      assert DecodeCursor(other, query).Some?;
    }
  }

  /** Why names must not contain NUL: these two configurations share a fingerprint, so a token issued under
  the first is accepted under the second, where index 0 is a different target. */
  lemma NulConfusesTargets(scope: string, resume: Text, versions: map<string, Text>)
    ensures var first := ["a\0b", "c"];
            var second := ["a", "b\0c"];
            var token := Token(PageCursor(0, resume, scope, Join(first, NUL), versions));
            && first[0] != second[0]
            && DecodeCursor(second, Query(Some(1), token, scope)) == Some(token.cursor)
  {
    assert Join(["c"], NUL) == "c" && Join(["b\0c"], NUL) == "b\0c";
    assert Join(["a\0b", "c"], NUL) == "a\0b" + [NUL] + "c";
    assert Join(["a", "b\0c"], NUL) == "a" + [NUL] + "b\0c";
    assert "a\0b" + [NUL] + "c" == "a" + [NUL] + "b\0c";
  }
}
