/** Where an aggregate watch starts (watchResourceVersions in internal/proxy/watch.go). */
module WatchStart {
  import opened Wire
  import opened Upstream
  import opened Strings
  import opened Aggregate
  import opened Pagination
  import opened ListFailures

  const VECTOR_PREFIX := "kubeconfig-proxy:"

  datatype Start =
    | Malformed                                    // reported as a bad request, before any stream is opened
    | Unavailable(target: string, code: int)
    | From(versions: map<string, Text>)

  predicate HasVectorPrefix(requested: Text) {
    requested.Vector? || (requested.Lit? && VECTOR_PREFIX <= requested.s)
  }

  /** The coordinates of the watched targets, or None when one is missing or empty. */
  function Validated(versions: map<string, Text>, names: seq<string>, i: nat,
                     acc: map<string, Text>): Option<map<string, Text>>
    requires i <= |names|
    decreases |names| - i
  {
    if i == |names| then Some(acc)
    else if Lookup(versions, names[i]) == EMPTY then None
    else Validated(versions, names, i + 1, acc[names[i] := Lookup(versions, names[i])])
  }

  method ResourceVersionsForTargets(versions: map<string, Text>, names: seq<string>)
    returns (result: Option<map<string, Text>>)
    ensures result.None? <==> exists i :: 0 <= i < |names| && Lookup(versions, names[i]) == EMPTY
    ensures result.Some? ==> forall name :: name in result.value <==> name in names
    ensures result.Some? ==> forall name <- names :: name in versions && result.value[name] == versions[name]
    ensures result == Validated(versions, names, 0, map[])
  {
    var validated: map<string, Text> := map[];
    for i := 0 to |names|
      invariant forall k :: 0 <= k < i ==> Lookup(versions, names[k]) != EMPTY
      invariant forall name :: name in validated <==> name in names[..i]
      invariant forall name <- validated :: name in versions && validated[name] == versions[name]
      invariant Validated(versions, names, 0, map[]) == Validated(versions, names, i, validated)
    {
      assert names[..i + 1] == names[..i] + [names[i]];
      if Lookup(versions, names[i]) == EMPTY {
        return None;
      }
      validated := validated[names[i] := Lookup(versions, names[i])];
    }
    assert names[..|names|] == names;
    return Some(validated);
  }

  function WatchVersions(names: seq<string>, requested: Text, probe: nat -> Reply): Start {
    if HasVectorPrefix(requested) then
      if !requested.Vector? then Malformed
      else
        match Validated(requested.versions, names, 0, map[])
        case None => Malformed
        case Some(versions) => From(versions)
    else if requested != EMPTY then From(map name | name in names :: requested)
    else
      match PinsFrom(names, PageCursor(0, EMPTY, "", "", map[]), probe, 0, map[])
      case NoVersion(target, code) => Unavailable(target, code)
      case Pins(versions) => From(versions)
  }

  lemma {:induction false} ValidatedMeaning(versions: map<string, Text>, names: seq<string>, i: nat,
                                            acc: map<string, Text>)
    requires i <= |names|
    requires forall name :: name in acc <==> name in names[..i]
    requires forall name <- acc :: name in versions && acc[name] == versions[name]
    ensures var result := Validated(versions, names, i, acc);
            && (result.None? <==> exists k :: i <= k < |names| && Lookup(versions, names[k]) == EMPTY)
            && (result.Some? ==> forall name :: name in result.value <==> name in names)
            && (result.Some? ==> forall name <- names :: name in versions && result.value[name] == versions[name])
    decreases |names| - i
  {
    if i == |names| {
      assert names[..i] == names;
    } else if Lookup(versions, names[i]) != EMPTY {
      assert names[..i + 1] == names[..i] + [names[i]];
      ValidatedMeaning(versions, names, i + 1, acc[names[i] := Lookup(versions, names[i])]);
    }
  }

  /** An aggregate version is accepted exactly when it has a version for every watched target, and then
  every stream starts at its own target's coordinate: targets that are no longer watched are dropped. */
  lemma VectorAcceptedIff(names: seq<string>, versions: map<string, Text>, probe: nat -> Reply)
    ensures var start := WatchVersions(names, Vector(versions), probe);
            && (start.From? <==> forall name <- names :: name in versions && versions[name] != EMPTY)
            && (start.From? ==> forall name :: name in start.versions <==> name in names)
            && (start.From? ==> forall name <- names :: name in versions && start.versions[name] == versions[name])
            && (!start.From? ==> start.Malformed?)
  {
    ValidatedMeaning(versions, names, 0, map[]);
    if forall name <- names :: name in versions && versions[name] != EMPTY {
      assert forall k :: 0 <= k < |names| ==> names[k] in names;
    }
  }

  /** The aggregate version of a list, or of a watch event, is accepted by a later watch on the same targets
  and starts it at exactly those coordinates. */
  lemma VectorRoundTrip(names: seq<string>, versions: map<string, Text>, probe: nat -> Reply)
    requires forall name :: name in versions <==> name in names
    requires forall name <- names :: versions[name] != EMPTY
    ensures WatchVersions(names, Vector(versions), probe) == From(versions)
  {
    VectorAcceptedIff(names, versions, probe);
  }

  /** A watch without a version is refused when some target does not report one, with the first such target and
  its code. */
  lemma ProbeFails(names: seq<string>, probe: nat -> Reply, k: nat)
    requires k < |names| && !StatesVersion(probe(k)) && forall j: nat :: j < k ==> StatesVersion(probe(j))
    ensures WatchVersions(names, EMPTY, probe) == Unavailable(names[k], Reported(probe(k)))
  {
    PinsFailAt(names, PageCursor(0, EMPTY, "", "", map[]), probe, 0, map[], k);
  }

  /** Otherwise it starts at the versions that the targets report. */
  lemma ProbedStart(names: seq<string>, probe: nat -> Reply)
    requires NoRepeats(names) && forall j: nat :: j < |names| ==> StatesVersion(probe(j))
    ensures var start := WatchVersions(names, EMPTY, probe);
            && start.From? && (forall name :: name in start.versions <==> name in names)
            && (forall j: nat :: j < |names| ==>
                  StatesVersion(probe(j)) && start.versions[names[j]] == ListVersion(probe(j).body.value.fields))
  {
    var cursor := PageCursor(0, EMPTY, "", "", map[]);
    var versions := map name | name in names :: ListVersion(probe(IndexOf(names, name)).body.value.fields);
    forall j: nat | j < |names|
      ensures versions[names[j]] == ListVersion(probe(j).body.value.fields)
      ensures PinAt(cursor, probe, names[j], j) == Some(versions[names[j]])
    {
      assert IndexOf(names, names[j]) == j;
    }
    PinsAre(names, cursor, probe, 0, map[], versions);
  }

  /** Any other version is passed on to every target as it is; a text that only looks like an aggregate version is
  refused. */
  lemma OtherStart(names: seq<string>, text: string, probe: nat -> Reply)
    requires text != ""
    ensures WatchVersions(names, Lit(text), probe) ==
            if VECTOR_PREFIX <= text then Malformed else From(map name | name in names :: Lit(text))
  {
  }
}
