/** Which targets a mutation goes to, and which response represents it (internal/proxy/handlers.go). */
module Mutation {
  import opened Wire
  import opened Strings
  import opened Transport

  const TARGET_CONTEXT := "kubeconfig-proxy.io/target-context"
  const SINGLE_CONTEXT := "kubeconfig-proxy.io/single-context"

  type Annotations = map<string, string>

  datatype Selection = Selected(names: seq<string>) | Rejected

  /** What the probe for an existing object found at one target. */
  datatype Probe = Lost | Status(status: Status, annotations: Annotations)

  predicate IsFound(probe: Probe) { probe.Status? && 200 <= probe.status < 300 }

  /** White space as Go's unicode.IsSpace has it. */
  predicate IsSpace(c: char) {
    || '\t' <= c <= '\r' || c == ' ' || c == '\U{0085}' || c == '\U{00A0}' || c == '\U{1680}'
    || '\U{2000}' <= c <= '\U{200A}' || c == '\U{2028}' || c == '\U{2029}' || c == '\U{202F}' || c == '\U{205F}'
    || c == '\U{3000}'
  }

  ghost predicate AllSpace(s: string) { forall c <- s :: IsSpace(c) }

  function TrimLeft(s: string): string {
    if s != "" && IsSpace(s[0]) then TrimLeft(s[1..]) else s
  }

  function TrimRight(s: string): string {
    if s != "" && IsSpace(s[|s| - 1]) then TrimRight(s[..|s| - 1]) else s
  }

  function Trim(s: string): string { TrimRight(TrimLeft(s)) }

  function Lower(c: char): char {
    if 'A' <= c <= 'Z' then (c as int + 32) as char else c
  }

  /** Equal to "true" up to case; no character outside ASCII folds to one of its letters. */
  predicate IsTrue(s: string) {
    |s| == 4 && Lower(s[0]) == 't' && Lower(s[1]) == 'r' && Lower(s[2]) == 'u' && Lower(s[3]) == 'e'
  }

  // ----- the target-context annotation

  function Trimmed(parts: seq<string>): (r: seq<string>)
    ensures |r| == |parts| && forall k :: 0 <= k < |parts| ==> r[k] == Trim(parts[k])
  {
    seq(|parts|, k requires 0 <= k < |parts| => Trim(parts[k]))
  }

  /** A sequence with every element kept where it first occurs. */
  function Dedup(xs: seq<string>): seq<string> {
    if xs == [] then []
    else
      var before, last := xs[..|xs| - 1], xs[|xs| - 1];
      if last in before then Dedup(before) else Dedup(before) + [last]
  }

  /** `selected` lists some of the names, in the order in which they first occur. */
  ghost predicate InOrderOf(names: seq<string>, selected: seq<string>) {
    && (forall name <- selected :: name in names)
    && forall i, j :: 0 <= i < j < |selected| ==> IndexOf(names, selected[i]) < IndexOf(names, selected[j])
  }

  lemma {:induction false} IndexAppend(names: seq<string>, last: string, name: string)
    requires name in names + [last]
    ensures IndexOf(names + [last], name) == if name in names then IndexOf(names, name) else |names|
  {
    var more := names + [last];
    if names != [] && names[0] != name {
      assert more[1..] == names[1..] + [last] && names == [names[0]] + names[1..];
      IndexAppend(names[1..], last, name);
    }
  }

  /** Dropping repetitions keeps every element, each once, in the order of first occurrence. */
  lemma {:induction false} DedupMeaning(xs: seq<string>)
    ensures NoRepeats(Dedup(xs)) && forall x :: x in Dedup(xs) <==> x in xs
    ensures InOrderOf(xs, Dedup(xs))
  {
    if xs != [] {
      var before, last := xs[..|xs| - 1], xs[|xs| - 1];
      DedupMeaning(before);
      assert xs == before + [last];
      forall x <- Dedup(xs)
        ensures IndexOf(xs, x) == if x in before then IndexOf(before, x) else |before|
      {
        IndexAppend(before, last, x);
      }
    }
  }

  lemma DedupHead(xs: seq<string>)
    requires xs != []
    ensures Dedup(xs) != [] && Dedup(xs)[0] == xs[0]
  {
    DedupMeaning(xs);
    var all := Dedup(xs);
    assert xs[0] in all;
    var k :| 0 <= k < |all| && all[k] == xs[0];
    assert IndexOf(xs, all[k]) == 0 && all[0] in xs;
    assert k == 0;
  }

  /** The contexts an annotation lists. */
  function Listed(contexts: string): (listed: seq<string>)
    ensures |listed| > 0
  {
    Trimmed(Split(contexts, ','))
  }

  /** The target-context annotation selects the listed contexts, each once and in the order listed, exactly
  when all of them are configured. */
  function ContextTargets(names: seq<string>, contexts: string): Selection {
    var wanted := Listed(contexts);
    if forall name <- wanted :: name != "" && name in names then Selected(Dedup(wanted)) else Rejected
  }

  method SelectContextTargets(names: seq<string>, contexts: string) returns (selection: Selection)
    ensures selection == ContextTargets(names, contexts)
  {
    var parts := Split(contexts, ',');
    ghost var wanted := Trimmed(parts);
    var targets: seq<string> := [];
    var seen: set<string> := {};
    for k := 0 to |parts|
      invariant targets == Dedup(wanted[..k])
      invariant forall name :: name in seen <==> name in wanted[..k]
      invariant forall name <- wanted[..k] :: name != "" && name in names
    {
      var name := Trim(parts[k]);
      assert wanted[..k + 1] == wanted[..k] + [name] && wanted[..k + 1][..k] == wanted[..k] && name in wanted;
      if name == "" {
        return Rejected;
      }
      if name !in seen {
        if name !in names {
          return Rejected;
        }
        seen := seen + {name};
        targets := targets + [name];
      }
    }
    assert wanted[..|parts|] == wanted;
    return Selected(targets);
  }

  /** Trimming takes off white space at both ends and nothing else. */
  lemma TrimMeaning(s: string) returns (before: string, after: string)
    ensures s == before + Trim(s) + after
    ensures AllSpace(before) && AllSpace(after)
    ensures Trim(s) != "" ==> !IsSpace(Trim(s)[0]) && !IsSpace(Trim(s)[|Trim(s)| - 1])
  {
    before := TrimLeftMeaning(s);
    after := TrimRightMeaning(TrimLeft(s));
    assert s == before + (Trim(s) + after);
    if Trim(s) != "" { assert TrimLeft(s)[0] == Trim(s)[0]; }
  }

  lemma MoreSpace(c: char, s: string)
    requires IsSpace(c) && AllSpace(s)
    ensures AllSpace([c] + s) && AllSpace(s + [c])
  {
  }

  lemma {:induction false} TrimLeftMeaning(s: string) returns (before: string)
    ensures s == before + TrimLeft(s) && AllSpace(before)
    ensures TrimLeft(s) != "" ==> !IsSpace(TrimLeft(s)[0])
  {
    if s != "" && IsSpace(s[0]) {
      var rest := TrimLeftMeaning(s[1..]);
      MoreSpace(s[0], rest);
      before := [s[0]] + rest;
      assert s == [s[0]] + s[1..];
    } else {
      before := "";
      assert s == before + s;
    }
  }

  lemma {:induction false} TrimRightMeaning(s: string) returns (after: string)
    ensures s == TrimRight(s) + after && AllSpace(after)
    ensures TrimRight(s) != "" ==> !IsSpace(TrimRight(s)[|TrimRight(s)| - 1])
  {
    if s != "" && IsSpace(s[|s| - 1]) {
      var rest := TrimRightMeaning(s[..|s| - 1]);
      MoreSpace(s[|s| - 1], rest);
      after := rest + [s[|s| - 1]];
      assert s == s[..|s| - 1] + [s[|s| - 1]];
    } else {
      after := "";
      assert s == s + after;
    }
  }

  // ----- precedence

  /** What annotations ask for, if they ask for anything. */
  function AnnotationTargets(names: seq<string>, primary: string, values: Annotations): Option<Selection> {
    if TARGET_CONTEXT in values then Some(ContextTargets(names, values[TARGET_CONTEXT]))
    else if SINGLE_CONTEXT in values && IsTrue(values[SINGLE_CONTEXT]) then Some(Selected([primary]))
    else None
  }

  /** The first existing object, in configured order, whose annotations ask for something. */
  function ExistingTargets(names: seq<string>, primary: string, probes: seq<Probe>): Option<Selection> {
    if probes == [] then None
    else if IsFound(probes[0]) && AnnotationTargets(names, primary, probes[0].annotations).Some? then
      AnnotationTargets(names, primary, probes[0].annotations)
    else ExistingTargets(names, primary, probes[1..])
  }

  /** The targets that have the object. */
  function FoundNames(names: seq<string>, probes: seq<Probe>): seq<string>
    requires |names| == |probes|
  {
    if names == [] then []
    else (if IsFound(probes[0]) then [names[0]] else []) + FoundNames(names[1..], probes[1..])
  }

  /** A target that can neither show the object nor rule it out. */
  predicate Doubtful(probe: Probe) {
    probe.Lost? || (!IsFound(probe) && probe.status != 404)
  }

  function FoundTargets(names: seq<string>, probes: seq<Probe>): Selection
    requires |names| == |probes|
  {
    if exists probe <- probes :: Doubtful(probe) then Rejected else Selected(FoundNames(names, probes))
  }

  method SelectFoundTargets(names: seq<string>, probes: seq<Probe>) returns (selection: Selection)
    requires |names| == |probes|
    ensures selection == FoundTargets(names, probes)
  {
    var found: seq<string> := [];
    for k := 0 to |probes|
      invariant forall j :: 0 <= j < k ==> !Doubtful(probes[j])
      invariant FoundNames(names, probes) == found + FoundNames(names[k..], probes[k..])
    {
      assert names[k..][0] == names[k] && names[k..][1..] == names[k + 1..] && probes[k..][1..] == probes[k + 1..];
      if Doubtful(probes[k]) {
        return Rejected;
      }
      if IsFound(probes[k]) {
        found := found + [names[k]];
      }
    }
    return Selected(found);
  }

  /** `named`: the request is a PUT, PATCH or DELETE of one object. */
  function MutationTargets(names: seq<string>, primary: string, body: Annotations, named: bool,
                           probes: seq<Probe>): Selection
    requires |probes| == |names|
  {
    var fromBody := AnnotationTargets(names, primary, body);
    if fromBody.Some? then fromBody.value
    else if !named then Selected(names)
    else
      var existing := ExistingTargets(names, primary, probes);
      if existing.Some? then existing.value
      else
        var found := FoundTargets(names, probes);
        if found.Selected? && |found.names| == 0 then Selected(names) else found
  }

  ghost predicate Configured(names: seq<string>, primary: string) {
    ValidNames(names) && primary in names
  }

  /** A proper selection: some targets, each once, all of them configured. */
  ghost predicate Proper(selection: Selection, names: seq<string>) {
    selection.Selected? ==>
      && |selection.names| > 0 && NoRepeats(selection.names)
      && forall name <- selection.names :: name in names
  }

  lemma AnnotationProper(names: seq<string>, primary: string, values: Annotations)
    requires Configured(names, primary)
    ensures var asked := AnnotationTargets(names, primary, values);
            asked.Some? ==> Proper(asked.value, names)
  {
    if TARGET_CONTEXT in values {
      var wanted := Listed(values[TARGET_CONTEXT]);
      DedupMeaning(wanted);
      if ContextTargets(names, values[TARGET_CONTEXT]).Selected? {
        assert wanted[0] in Dedup(wanted);
      }
    }
  }

  lemma {:induction false} ExistingProper(names: seq<string>, primary: string, probes: seq<Probe>)
    requires Configured(names, primary)
    ensures var asked := ExistingTargets(names, primary, probes);
            asked.Some? ==> Proper(asked.value, names)
  {
    if probes != [] {
      if IsFound(probes[0]) { AnnotationProper(names, primary, probes[0].annotations); }
      ExistingProper(names, primary, probes[1..]);
    }
  }

  lemma Prepended(x: string, xs: seq<string>)
    requires NoRepeats(xs) && x !in xs
    ensures NoRepeats([x] + xs)
  {
    assert forall i :: 0 < i < |[x] + xs| ==> ([x] + xs)[i] == xs[i - 1];
  }

  lemma {:induction false} FoundNamesMeaning(names: seq<string>, probes: seq<Probe>)
    requires |names| == |probes| && NoRepeats(names)
    ensures NoRepeats(FoundNames(names, probes))
    ensures forall name :: name in FoundNames(names, probes) <==>
                           exists k :: 0 <= k < |names| && names[k] == name && IsFound(probes[k])
  {
    if names != [] {
      FoundNamesMeaning(names[1..], probes[1..]);
      var rest := FoundNames(names[1..], probes[1..]);
      forall k | 0 <= k < |names[1..]|
        ensures names[1..][k] != names[0]
      {
        assert names[1..][k] == names[k + 1];
      }
      assert names[0] !in rest;
      Prepended(names[0], rest);
      assert [] + rest == rest;
      forall name
        ensures name in FoundNames(names, probes) <==>
                exists k :: 0 <= k < |names| && names[k] == name && IsFound(probes[k])
      {
        if name in rest {
          var k :| 0 <= k < |names[1..]| && names[1..][k] == name && IsFound(probes[1..][k]);
          assert names[k + 1] == name && IsFound(probes[k + 1]);
        }
        if k :| 0 <= k < |names| && names[k] == name && IsFound(probes[k]) {
          if k > 0 { assert names[1..][k - 1] == name && IsFound(probes[1..][k - 1]); }
        }
      }
    }
  }

  /** Every accepted mutation goes to some configured targets, each once. */
  lemma SelectionProper(names: seq<string>, primary: string, body: Annotations, named: bool, probes: seq<Probe>)
    requires Configured(names, primary) && |probes| == |names|
    ensures Proper(MutationTargets(names, primary, body, named, probes), names)
  {
    AnnotationProper(names, primary, body);
    ExistingProper(names, primary, probes);
    FoundNamesMeaning(names, probes);
  }

  /** A target that answered with the object, and one that answered that it does not have it. */
  predicate Shows(probe: Probe) { probe.Status? && probe.status / 100 == 2 }

  predicate RulesOut(probe: Probe) { probe.Status? && probe.status == 404 }

  /** Without any routing annotation, a mutation of one object reaches exactly its owners when every target
  has either shown the object or ruled it out and some has shown it; all targets when all have ruled it out;
  and nobody when some target is in doubt. */
  lemma OwnersSelected(names: seq<string>, primary: string, body: Annotations, probes: seq<Probe>)
    requires Configured(names, primary) && |probes| == |names| && !Routes(body)
    requires forall probe <- probes :: Shows(probe) ==> !Routes(probe.annotations)
    ensures var selection := MutationTargets(names, primary, body, true, probes);
            && (selection.Selected? <==> forall probe <- probes :: Shows(probe) || RulesOut(probe))
            && (selection.Selected? && (exists probe <- probes :: Shows(probe)) ==>
                  && InOrderOf(names, selection.names)
                  && forall name :: name in selection.names <==>
                                    exists k :: 0 <= k < |names| && names[k] == name && Shows(probes[k]))
            && (selection.Selected? && (forall probe <- probes :: RulesOut(probe)) ==> selection.names == names)
  {
    NothingRoutes(names, primary, body, probes);
    OwnersFound(names, probes);
    NobodyFound(names, probes);
  }

  /** Without routing annotations the owners decide. */
  lemma NothingRoutes(names: seq<string>, primary: string, body: Annotations, probes: seq<Probe>)
    requires |probes| == |names| && !Routes(body)
    requires forall probe <- probes :: Shows(probe) ==> !Routes(probe.annotations)
    ensures var found := FoundTargets(names, probes);
            MutationTargets(names, primary, body, true, probes)
            == if found.Selected? && found.names == [] then Selected(names) else found
  {
    AnnotationsRoute(names, primary, body);
    forall probe <- probes | IsFound(probe)
      ensures AnnotationTargets(names, primary, probe.annotations).None?
    {
      assert Shows(probe);
      AnnotationsRoute(names, primary, probe.annotations);
    }
    NoneExisting(names, primary, probes);
  }

  lemma OwnersFound(names: seq<string>, probes: seq<Probe>)
    requires |names| == |probes| && NoRepeats(names)
    ensures FoundTargets(names, probes).Selected? <==> forall probe <- probes :: Shows(probe) || RulesOut(probe)
    ensures FoundTargets(names, probes).Selected? ==>
              var found := FoundTargets(names, probes).names;
              && found == FoundNames(names, probes) && InOrderOf(names, found)
              && forall name :: name in found <==>
                                exists k :: 0 <= k < |names| && names[k] == name && Shows(probes[k])
  {
    assert forall probe :: Shows(probe) <==> IsFound(probe);
    FoundNamesMeaning(names, probes);
    FoundInOrder(names, probes);
    if FoundTargets(names, probes).Rejected? {
      var probe :| probe in probes && Doubtful(probe);
      assert !Shows(probe) && !RulesOut(probe);
    } else {
      forall probe <- probes
        ensures Shows(probe) || RulesOut(probe)
      {
        assert !Doubtful(probe);
      }
    }
  }

  /** `k` is the first target, in configured order, that has the object with annotations that ask for
  something. */
  ghost predicate FirstAsking(names: seq<string>, primary: string, probes: seq<Probe>, k: nat) {
    && k < |probes| && Asks(names, primary, probes[k])
    && forall j :: 0 <= j < k ==> !Asks(names, primary, probes[j])
  }

  predicate Asks(names: seq<string>, primary: string, probe: Probe) {
    IsFound(probe) && AnnotationTargets(names, primary, probe.annotations).Some?
  }

  lemma {:induction false} ExistingIsFirst(names: seq<string>, primary: string, probes: seq<Probe>, k: nat)
    requires FirstAsking(names, primary, probes, k)
    ensures ExistingTargets(names, primary, probes) == AnnotationTargets(names, primary, probes[k].annotations)
  {
    if k > 0 {
      assert !Asks(names, primary, probes[0]);
      assert forall j :: 0 <= j < |probes| - 1 ==> probes[1..][j] == probes[j + 1];
      ExistingIsFirst(names, primary, probes[1..], k - 1);
    }
  }

  /** The order of precedence: the annotations of the body, if they ask for something; for a named object,
  those of the first target that has it with annotations that ask for something, whatever the other
  targets answered. */
  lemma PrecedenceMeaning(names: seq<string>, primary: string, body: Annotations, named: bool, probes: seq<Probe>,
                          k: nat)
    requires |probes| == |names|
    ensures var selection := MutationTargets(names, primary, body, named, probes);
            var asked := AnnotationTargets(names, primary, body);
            && (asked.Some? ==> selection == asked.value)
            && (asked.None? && !named ==> selection == Selected(names))
            && (asked.None? && named && FirstAsking(names, primary, probes, k) ==>
                  selection == AnnotationTargets(names, primary, probes[k].annotations).value)
  {
    if FirstAsking(names, primary, probes, k) { ExistingIsFirst(names, primary, probes, k); }
  }

  /** "true" in any letter case. */
  predicate SaysTrue(s: string) {
    |s| == 4 && s[0] in "tT" && s[1] in "rR" && s[2] in "uU" && s[3] in "eE"
  }

  /** The annotations name the contexts a mutation goes to, or the primary alone. */
  predicate Routes(values: Annotations) {
    TARGET_CONTEXT in values || (SINGLE_CONTEXT in values && SaysTrue(values[SINGLE_CONTEXT]))
  }

  /** What annotations that route select: the listed contexts, each once and in the order listed, if all of them
  are configured, and otherwise nothing is done; without a list, the primary alone. */
  ghost predicate RoutedBy(selection: Selection, names: seq<string>, primary: string, values: Annotations) {
    if TARGET_CONTEXT in values then
      var listed := Listed(values[TARGET_CONTEXT]);
      if forall name <- listed :: name != "" && name in names then
        && selection.Selected? && NoRepeats(selection.names) && InOrderOf(listed, selection.names)
        && forall name <- listed :: name in selection.names
      else selection.Rejected?
    else selection == Selected([primary])
  }

  lemma AnnotationsRoute(names: seq<string>, primary: string, values: Annotations)
    ensures Routes(values) <==> AnnotationTargets(names, primary, values).Some?
    ensures Routes(values) ==> RoutedBy(AnnotationTargets(names, primary, values).value, names, primary, values)
  {
    if TARGET_CONTEXT in values { DedupMeaning(Listed(values[TARGET_CONTEXT])); }
  }

  /** Where annotations send a mutation: those of the body, when they route; for a named object, those of the
  first target in configured order that has it with annotations that route; and without any, a mutation that is
  not of a named object goes everywhere. */
  lemma RoutingMeaning(names: seq<string>, primary: string, body: Annotations, named: bool, probes: seq<Probe>, k: nat)
    requires |probes| == |names|
    ensures var selection := MutationTargets(names, primary, body, named, probes);
            && (Routes(body) ==> RoutedBy(selection, names, primary, body))
            && (!Routes(body) && !named ==> selection == Selected(names))
            && (!Routes(body) && named && k < |probes| && IsFound(probes[k]) && Routes(probes[k].annotations)
                && (forall j :: 0 <= j < k ==> !(IsFound(probes[j]) && Routes(probes[j].annotations))) ==>
                  RoutedBy(selection, names, primary, probes[k].annotations))
  {
    AnnotationsRoute(names, primary, body);
    forall j | 0 <= j < |probes| && IsFound(probes[j])
      ensures Asks(names, primary, probes[j]) <==> Routes(probes[j].annotations)
    {
      AnnotationsRoute(names, primary, probes[j].annotations);
    }
    if k < |probes| && IsFound(probes[k]) { AnnotationsRoute(names, primary, probes[k].annotations); }
    PrecedenceMeaning(names, primary, body, named, probes, k);
  }

  lemma {:induction false} NobodyFound(names: seq<string>, probes: seq<Probe>)
    requires |names| == |probes|
    ensures FoundNames(names, probes) == [] <==> forall probe <- probes :: !IsFound(probe)
  {
    if names != [] {
      NobodyFound(names[1..], probes[1..]);
      assert probes == [probes[0]] + probes[1..];
    }
  }

  lemma {:induction false} NoneExisting(names: seq<string>, primary: string, probes: seq<Probe>)
    requires forall probe <- probes :: IsFound(probe) ==> AnnotationTargets(names, primary, probe.annotations).None?
    ensures ExistingTargets(names, primary, probes) == None
  {
    if probes != [] {
      assert probes[0] in probes;
      NoneExisting(names, primary, probes[1..]);
    }
  }

  // ----- confinement

  /** The fan-out over the selected contexts; `cluster` is what answers behind each context. */
  function FanOut(options: Options, isPut: bool, body: Body, selected: seq<string>, cluster: string -> Target): Job {
    Job(options, isPut, body, seq(|selected|, k requires 0 <= k < |selected| => cluster(selected[k])))
  }

  /** The mutating calls that the context of this name receives. */
  function ReceivedBy(calls: seq<Sent>, selected: seq<string>, name: string): seq<Body>
    requires forall call <- calls :: call.target < |selected|
  {
    if calls == [] then []
    else
      assert calls[0] in calls;
      (if selected[calls[0].target] == name then [calls[0].body] else []) + ReceivedBy(calls[1..], selected, name)
  }

  lemma {:induction false} ReceivedIs(calls: seq<Sent>, selected: seq<string>, name: string)
    requires NoRepeats(selected) && forall call <- calls :: call.target < |selected|
    ensures ReceivedBy(calls, selected, name)
         == if name in selected then Transport.CallsTo(calls, IndexOf(selected, name)) else []
  {
    if calls != [] {
      assert calls[0] in calls;
      ReceivedIs(calls[1..], selected, name);
    }
  }

  /** Mutation confinement: in any schedule of the fan-out, a context that was not selected receives no
  mutating call; a selected one receives none when the read before its PUT failed, and otherwise between one
  and retries + 1 (none if the request cannot be built), all with the same body. */
  lemma MutationConfined(names: seq<string>, primary: string, annotations: Annotations, named: bool, probes: seq<Probe>,
                         options: Options, isPut: bool, body: Body, cluster: string -> Target,
                         schedule: seq<nat>, qs: seq<Progress>, name: string)
    requires Configured(names, primary) && |probes| == |names|
    requires MutationTargets(names, primary, annotations, named, probes).Selected?
    requires var selected := MutationTargets(names, primary, annotations, named, probes).names;
             var job := FanOut(options, isPut, body, selected, cluster);
             Run(job, Starts(job), schedule, qs) && AllDone(qs)
    ensures var selected := MutationTargets(names, primary, annotations, named, probes).names;
            var job := FanOut(options, isPut, body, selected, cluster);
            var calls := Calls(job, Starts(job), schedule, qs);
            && (forall call <- calls :: call.target < |selected|)
            && var received := ReceivedBy(calls, selected, name);
            && (name !in selected ==> received == [])
            && (name in selected ==>
                  var i := IndexOf(selected, name);
                  && job.targets[i] == cluster(name)
                  && (ReadFailed(job, i) ==> received == [])
                  && (!ReadFailed(job, i) ==>
                        && |received| <= options.retries + 1
                        && (cluster(name).send(BodyOf(job, i)).attempt(0).Got? ==> 1 <= |received|)
                        && forall k :: 0 <= k < |received| ==> received[k] == BodyOf(job, i)))
  {
    SelectionProper(names, primary, annotations, named, probes);
    var selected := MutationTargets(names, primary, annotations, named, probes).names;
    var job := FanOut(options, isPut, body, selected, cluster);
    var i := if name in selected then IndexOf(selected, name) else 0;
    CallsAreSent(job, Starts(job), schedule, qs, i);
    ReceivedIs(Calls(job, Starts(job), schedule, qs), selected, name);
    FanOutMeaning(job, schedule, qs, i);
    assert Starts(job)[i].sent + Transport.CallsTo(Calls(job, Starts(job), schedule, qs), i)
        == Transport.CallsTo(Calls(job, Starts(job), schedule, qs), i);
  }

  // ----- the response that stands for all

  datatype Answered = Representative(name: string) | FailedAt(name: string)

  function FirstBad(selected: seq<string>, replies: seq<Reply>): Option<string>
    requires |selected| == |replies|
  {
    if selected == [] then None
    else if !IsSuccess(replies[0]) then Some(selected[0])
    else FirstBad(selected[1..], replies[1..])
  }

  /** The first failure in selection order; else the primary's response when it was selected, else the first. */
  function Represent(selected: seq<string>, replies: seq<Reply>, primary: string): Answered
    requires |selected| == |replies| && |selected| > 0
  {
    var bad := FirstBad(selected, replies);
    if bad.Some? then FailedAt(bad.value)
    else if primary in selected then Representative(primary)
    else Representative(selected[0])
  }

  /** The response that stands for all: when some target failed, the failure of the first of them in selection
  order, whatever the primary answered; when none did, the primary's if it was selected, else the first's. */
  lemma {:induction false} RepresentMeaning(selected: seq<string>, replies: seq<Reply>, primary: string, k: nat)
    requires |selected| == |replies| && |selected| > 0
    ensures k < |replies| && !IsSuccess(replies[k]) && (forall j :: 0 <= j < k ==> IsSuccess(replies[j])) ==>
              Represent(selected, replies, primary) == FailedAt(selected[k])
    ensures (forall j :: 0 <= j < |replies| ==> IsSuccess(replies[j])) ==>
              Represent(selected, replies, primary)
              == Representative(if primary in selected then primary else selected[0])
  {
    FirstBadMeaning(selected, replies, k);
  }

  lemma {:induction false} FirstBadMeaning(selected: seq<string>, replies: seq<Reply>, k: nat)
    requires |selected| == |replies|
    ensures k < |replies| && !IsSuccess(replies[k]) && (forall j :: 0 <= j < k ==> IsSuccess(replies[j])) ==>
              FirstBad(selected, replies) == Some(selected[k])
    ensures (forall j :: 0 <= j < |replies| ==> IsSuccess(replies[j])) ==> FirstBad(selected, replies) == None
  {
    if selected != [] {
      FirstBadMeaning(selected[1..], replies[1..], if k > 0 then k - 1 else 0);
    }
  }

  method Respond(selected: seq<string>, replies: seq<Reply>, primary: string) returns (answer: Answered)
    requires |selected| == |replies| && |selected| > 0
    ensures answer == Represent(selected, replies, primary)
  {
    for k := 0 to |replies|
      invariant FirstBad(selected, replies) == FirstBad(selected[k..], replies[k..])
    {
      assert selected[k..][0] == selected[k] && selected[k..][1..] == selected[k + 1..];
      assert replies[k..][1..] == replies[k + 1..];
      if !IsSuccess(replies[k]) {
        return FailedAt(selected[k]);
      }
    }
    for k := 0 to |selected|
      invariant primary !in selected[..k]
    {
      assert selected[..k + 1] == selected[..k] + [selected[k]];
      if selected[k] == primary {
        return Representative(primary);
      }
    }
    assert selected[..|selected|] == selected;
    return Representative(selected[0]);
  }

  lemma {:induction false} FoundInOrder(names: seq<string>, probes: seq<Probe>)
    requires |names| == |probes| && NoRepeats(names)
    ensures InOrderOf(names, FoundNames(names, probes))
  {
    if names != [] {
      FoundInOrder(names[1..], probes[1..]);
      var rest := FoundNames(names[1..], probes[1..]);
      forall name <- rest
        ensures name != names[0] && IndexOf(names, name) == 1 + IndexOf(names[1..], name)
      {
      }
    }
  }

  /** The target-context annotation that decides where a mutation goes, if one does: the body's, or that of
  the first existing object whose annotations ask for something. */
  function Deciding(names: seq<string>, primary: string, body: Annotations, named: bool,
                    probes: seq<Probe>): Option<string>
  {
    if AnnotationTargets(names, primary, body).Some? then
      if TARGET_CONTEXT in body then Some(body[TARGET_CONTEXT]) else None
    else if named then DecidingProbe(names, primary, probes)
    else None
  }

  function DecidingProbe(names: seq<string>, primary: string, probes: seq<Probe>): Option<string> {
    if probes == [] then None
    else if Asks(names, primary, probes[0]) then
      if TARGET_CONTEXT in probes[0].annotations then Some(probes[0].annotations[TARGET_CONTEXT]) else None
    else DecidingProbe(names, primary, probes[1..])
  }

  lemma {:induction false} DecidingProbeSelects(names: seq<string>, primary: string, probes: seq<Probe>)
    ensures var asked := ExistingTargets(names, primary, probes);
            match DecidingProbe(names, primary, probes)
            case Some(contexts) => asked == Some(ContextTargets(names, contexts))
            case None => asked.None? || asked == Some(Selected([primary]))
  {
    if probes != [] { DecidingProbeSelects(names, primary, probes[1..]); }
  }

  /** What the code selects, by what decided. */
  lemma DecidingSelects(names: seq<string>, primary: string, body: Annotations, named: bool, probes: seq<Probe>)
    requires |probes| == |names|
    ensures var selection := MutationTargets(names, primary, body, named, probes);
            match Deciding(names, primary, body, named, probes)
            case Some(contexts) => selection == ContextTargets(names, contexts)
            case None =>
              || selection == Selected([primary]) || selection == Selected(names)
              || selection == FoundTargets(names, probes)
  {
    DecidingProbeSelects(names, primary, probes);
  }

  /** No selected target comes before this one in the configuration. */
  ghost predicate ConfiguredFirst(names: seq<string>, selected: seq<string>, name: string)
    requires name in names && forall other <- selected :: other in names
  {
    forall other <- selected :: IndexOf(names, name) <= IndexOf(names, other)
  }

  /** ROUTING.md lets the first selected context in configured order represent a successful mutation that
  left the primary out. That is so whenever no target-context annotation decides; when one does, exactly when
  no context it lists comes before the one it lists first in the configuration. */
  lemma RepresentativeIsConfiguredFirst(names: seq<string>, primary: string, body: Annotations, named: bool,
                                        probes: seq<Probe>, replies: seq<Reply>)
    requires Configured(names, primary) && |probes| == |names|
    requires MutationTargets(names, primary, body, named, probes).Selected?
    requires var selected := MutationTargets(names, primary, body, named, probes).names;
             primary !in selected && |replies| == |selected| && FirstBad(selected, replies) == None
    ensures var selected := MutationTargets(names, primary, body, named, probes).names;
            && |selected| > 0 && (forall name <- selected :: name in names)
            && Represent(selected, replies, primary).Representative?
            && Represent(selected, replies, primary).name in names
            && var first := ConfiguredFirst(names, selected, Represent(selected, replies, primary).name);
            match Deciding(names, primary, body, named, probes)
            case None => first
            case Some(contexts) =>
              && (forall name <- Listed(contexts) :: name in names)
              && (first <==> ConfiguredFirst(names, Listed(contexts), Listed(contexts)[0]))
  {
    SelectionProper(names, primary, body, named, probes);
    DecidingSelects(names, primary, body, named, probes);
    match Deciding(names, primary, body, named, probes) {
      case Some(contexts) =>
        DedupHead(Listed(contexts));
        DedupMeaning(Listed(contexts));
      case None => FoundInOrder(names, probes);
    }
  }

  lemma SplitPair(a: string, b: string, sep: char)
    requires sep !in a && sep !in b
    ensures Split(a + [sep] + b, sep) == [a, b]
  {
    SplitAfter(a, b, sep);
    SplitClean(a, sep);
    SplitClean(b, sep);
  }

  lemma DedupPair(a: string, b: string)
    requires a != b
    ensures Dedup([a, b]) == [a, b]
  {
    assert [a, b][..1] == [a] && [a][..0] == [];
    assert Dedup([a]) == [a];
  }

  lemma IndexPair(a: string, b: string, p: string)
    requires a != b
    ensures IndexOf([a, b, p], a) == 0 && IndexOf([a, b, p], b) == 1
  {
    assert [a, b, p][1..] == [b, p];
  }

  lemma ListedPair(names: seq<string>, first: string, second: string)
    requires first != second && first in names && second in names && first != "" && second != ""
    requires ',' !in first && ',' !in second && Trim(first) == first && Trim(second) == second
    ensures ContextTargets(names, first + [','] + second) == Selected([first, second])
  {
    SplitPair(first, second, ',');
    DedupPair(first, second);
    assert Trimmed([first, second]) == [first, second];
  }

  /** Cases where it is not: with contexts a, b and the primary p configured in this order, the annotation
  "b,a" makes b's response represent both. */
  lemma AnnotationOrderRepresents(a: string, b: string, p: string, replies: seq<Reply>)
    requires Configured([a, b, p], p) && |replies| == 2 && FirstBad([b, a], replies) == None
    requires ',' !in a && ',' !in b && Trim(a) == a && Trim(b) == b
    ensures ContextTargets([a, b, p], b + [','] + a) == Selected([b, a])
    ensures Represent([b, a], replies, p) == Representative(b)
    ensures IndexOf([a, b, p], a) < IndexOf([a, b, p], b)
  {
    var names := [a, b, p];
    assert names[0] != names[1] && names[0] != names[2] && names[1] != names[2];
    assert names[0] in names && names[1] in names;
    ListedPair(names, b, a);
    IndexPair(a, b, p);
  }
}
