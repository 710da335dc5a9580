/** The contract assumed of one upstream API server.

A target is an append-only log of writes. Each write carries a version of its own; a version names the
prefix of the log that ends with it. Lists are answered from such a prefix, and a watch that starts at a
version delivers the writes after it. None of this is code of the proxy: it is what the proxy relies on. */
module Upstream {
  import opened Wire
  import opened Marking

  datatype Change =
    | Put(item: Value)
    | Remove(item: Value)
    | Elsewhere                        // a write to a resource other than the one listed or watched

  datatype Entry = Entry(version: Text, change: Change)

  type Log = seq<Entry>
  type Logs = map<string, Log>         // by the name of the target
  type Store = map<Key, Value>

  ghost predicate WellFormed(log: Log) {
    && (forall i :: 0 <= i < |log| ==> log[i].version != EMPTY)
    && (forall i, j :: 0 <= i < j < |log| ==> log[i].version != log[j].version)
    && (forall i :: 0 <= i < |log| && !log[i].change.Elsewhere? ==>
          Regular(log[i].change.item) && VersionOf(log[i].change.item) == log[i].version)
  }

  ghost predicate Known(log: Log, version: Text) {
    exists i :: 0 <= i < |log| && log[i].version == version
  }

  /** How many writes a version covers. */
  ghost function Position(log: Log, version: Text): (n: nat)
    requires Known(log, version)
    ensures 0 < n <= |log| && log[n - 1].version == version
  {
    var i :| 0 <= i < |log| && log[i].version == version;
    i + 1
  }

  lemma PositionUnique(log: Log, version: Text, n: nat)
    requires WellFormed(log) && 0 < n <= |log| && log[n - 1].version == version
    ensures Known(log, version) && Position(log, version) == n
  {
  }

  function Apply(store: Store, change: Change): Store {
    match change
    case Put(item) => store[KeyOf(item) := item]
    case Remove(item) => store - {KeyOf(item)}
    case Elsewhere => store
  }

  function Replay(log: Log): Store {
    if log == [] then map[] else Apply(Replay(log[..|log| - 1]), log[|log| - 1].change)
  }

  ghost function Snapshot(log: Log, version: Text): Store
    requires Known(log, version)
  {
    Replay(log[..Position(log, version)])
  }

  /** A snapshot at a known version does not change while the log grows. */
  lemma SnapshotStable(older: Log, newer: Log, version: Text)
    requires older <= newer && WellFormed(newer) && Known(older, version)
    ensures Known(newer, version) && Position(newer, version) == Position(older, version)
    ensures Snapshot(newer, version) == Snapshot(older, version)
  {
    var n := Position(older, version);
    assert newer[n - 1] == older[n - 1];
    PositionUnique(newer, version, n);
    assert newer[..n] == older[..n];
  }

  ghost predicate Keyed(store: Store) {
    forall key :: key in store ==> store[key].Obj? && KeyOf(store[key]) == key && !Wraps(store[key])
  }

  lemma {:induction false} ReplayKeyed(log: Log)
    requires WellFormed(log)
    ensures Keyed(Replay(log))
  {
    if log != [] {
      ReplayKeyed(log[..|log| - 1]);
    }
  }

  /** `objects` lists the store: every object once, in some order. */
  ghost predicate IsListing(store: Store, objects: seq<Value>) {
    && (forall i :: 0 <= i < |objects| ==>
          objects[i].Obj? && KeyOf(objects[i]) in store && store[KeyOf(objects[i])] == objects[i])
    && (forall i, j :: 0 <= i < j < |objects| ==> KeyOf(objects[i]) != KeyOf(objects[j]))
    && (forall key :: key in store ==> exists i :: 0 <= i < |objects| && KeyOf(objects[i]) == key)
  }

  /** A server lists a store in an order of its own choosing, the same every time. */
  datatype Server = Server(listing: Store -> seq<Value>)

  ghost predicate ListsStores(server: Server) {
    forall store | Keyed(store) :: IsListing(store, server.listing(store))
  }

  datatype ListRequest = ListRequest(limit: nat, resume: Text, version: Text)

  datatype Listed = Listed(key: string, entries: seq<Value>)

  /** The entries of a Kubernetes list (`items`) or Table (`rows`). */
  function ListEntries(payload: Fields): Option<Listed> {
    if "items" in payload && payload["items"].Arr? then Some(Listed("items", payload["items"].elements))
    else if "rows" in payload && payload["rows"].Arr? then Some(Listed("rows", payload["rows"].elements))
    else None
  }

  function ListVersion(payload: Fields): Text { SubText(SubObject(payload, "metadata"), "resourceVersion") }

  function ListResume(payload: Fields): Text { SubText(SubObject(payload, "metadata"), "continue") }

  /** A successful reply whose body is a list or a table. */
  predicate IsList(reply: Reply) {
    && IsSuccess(reply) && reply.body.Some? && reply.body.value.Obj?
    && ListEntries(reply.body.value.fields).Some?
  }

  function Entries(reply: Reply): seq<Value>
    requires IsList(reply)
  {
    ListEntries(reply.body.value.fields).value.entries
  }

  /** One page of a pinned list: at most `limit` entries from `offset` on; some entry while any remain;
  a continuation while any remain (a server may also hand out one too many, after a non-empty page). */
  ghost predicate IsPage(all: seq<Value>, offset: nat, limit: nat, version: Text, payload: Fields)
    requires ListEntries(payload).Some?
  {
    var entries := ListEntries(payload).value.entries;
    && |entries| <= limit
    && offset + |entries| <= |all|
    && entries == all[offset..offset + |entries|]
    && (offset < |all| && limit > 0 ==> |entries| > 0)
    && (ListResume(payload) == EMPTY ==> offset + |entries| == |all|)
    && (ListResume(payload) != EMPTY ==>
          |entries| > 0 && ListResume(payload) == Pinned(version, offset + |entries|))
  }

  /** A server that never returns a short page while more entries remain, and no needless continuation. */
  ghost predicate IsFullPage(all: seq<Value>, offset: nat, limit: nat, payload: Fields)
    requires ListEntries(payload).Some?
  {
    && (|ListEntries(payload).value.entries| < limit ==> offset + |ListEntries(payload).value.entries| == |all|)
    && (ListResume(payload) != EMPTY ==> offset + |ListEntries(payload).value.entries| < |all|)
  }

  /** Which version a read is pinned to, and where in that list it starts. */
  function PinOf(request: ListRequest): Option<(Text, nat)> {
    if request.resume == EMPTY then Some((request.version, 0))
    else if request.resume.Pinned? then Some((request.resume.version, request.resume.offset))
    else None
  }

  /** The contract for a page read: a successful list answer is a page of the pinned snapshot. A failure
  (an expired token, say) is always allowed. */
  ghost predicate ReadConforms(server: Server, log: Log, request: ListRequest, reply: Reply) {
    IsList(reply) && PinOf(request).Some? && Known(log, PinOf(request).value.0) ==>
      var (version, offset) := PinOf(request).value;
      var all := server.listing(Snapshot(log, version));
      offset <= |all| ==> IsPage(all, offset, request.limit, version, reply.body.value.fields)
  }

  ghost predicate ReadFills(server: Server, log: Log, request: ListRequest, reply: Reply) {
    IsList(reply) && PinOf(request).Some? && Known(log, PinOf(request).value.0) ==>
      var (version, offset) := PinOf(request).value;
      IsFullPage(server.listing(Snapshot(log, version)), offset, request.limit, reply.body.value.fields)
  }

  /** The contract for an unpaginated list: the whole of one snapshot, with its version. */
  ghost predicate IsWholeList(server: Server, log: Log, version: Text, reply: Reply) {
    && IsList(reply) && Known(log, version)
    && ListVersion(reply.body.value.fields) == version
    && Entries(reply) == server.listing(Snapshot(log, version))
  }
}
