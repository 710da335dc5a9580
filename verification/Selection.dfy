/** Selecting source contexts (internal/kubeconfig/source.go) and turning them into targets
(internal/upstream/target.go, internal/proxy/proxy.go). */
module Selection {
  import opened Wire
  import opened Strings
  import Kubeconfig

  // ----- the order of strings

  predicate Before(a: string, b: string) {
    if b == "" then false
    else if a == "" then true
    else a[0] < b[0] || (a[0] == b[0] && Before(a[1..], b[1..]))
  }

  lemma {:induction false} BeforeTotal(a: string, b: string)
    ensures a == b || Before(a, b) || Before(b, a)
    ensures !Before(a, a)
  {
    if a != "" && b != "" {
      BeforeTotal(a[1..], b[1..]);
      if a[0] == b[0] && a[1..] == b[1..] {
        assert a == [a[0]] + a[1..] && b == [b[0]] + b[1..];
      }
    } else if a != "" {
      BeforeTotal(a[1..], b);
    }
  }

  lemma {:induction false} BeforeTransitive(a: string, b: string, c: string)
    requires Before(a, b) && Before(b, c)
    ensures Before(a, c)
  {
    if a != "" && a[0] == b[0] && b[0] == c[0] { BeforeTransitive(a[1..], b[1..], c[1..]); }
  }

  ghost predicate StrictlySorted(xs: seq<string>) {
    forall i, j :: 0 <= i < j < |xs| ==> Before(xs[i], xs[j])
  }

  ghost predicate SameMembers(xs: seq<string>, ys: seq<string>) {
    forall x :: x in xs <==> x in ys
  }

  lemma HeadOnce(xs: seq<string>, x: string)
    requires StrictlySorted(xs) && xs != []
    ensures x in xs[1..] <==> x in xs && x != xs[0]
  {
    BeforeTotal(x, x);
    assert xs == [xs[0]] + xs[1..];
  }

  lemma TailMembers(xs: seq<string>, ys: seq<string>)
    requires StrictlySorted(xs) && StrictlySorted(ys) && SameMembers(xs, ys)
    requires xs != [] && ys != [] && xs[0] == ys[0]
    ensures SameMembers(xs[1..], ys[1..])
  {
    forall x
      ensures x in xs[1..] <==> x in ys[1..]
    {
      HeadOnce(xs, x);
      HeadOnce(ys, x);
    }
  }

  lemma BeforeAsymmetric(a: string, b: string)
    ensures !(Before(a, b) && Before(b, a))
  {
    BeforeTotal(a, a);
    if Before(a, b) && Before(b, a) { BeforeTransitive(a, b, a); }
  }

  lemma HeadLeast(xs: seq<string>, x: string)
    requires StrictlySorted(xs) && x in xs
    ensures x == xs[0] || Before(xs[0], x)
  {
  }

  /** There is one way to list a set of strings in order. */
  lemma {:induction false} SortedUnique(xs: seq<string>, ys: seq<string>)
    requires StrictlySorted(xs) && StrictlySorted(ys) && SameMembers(xs, ys)
    ensures xs == ys
  {
    assert forall i :: 0 <= i < |xs| ==> xs[i] in ys;
    assert forall i :: 0 <= i < |ys| ==> ys[i] in xs;
    if xs != [] {
      HeadLeast(xs, ys[0]);
      HeadLeast(ys, xs[0]);
      BeforeAsymmetric(xs[0], ys[0]);
      TailMembers(xs, ys);
      SortedUnique(xs[1..], ys[1..]);
      assert xs == [xs[0]] + xs[1..] && ys == [ys[0]] + ys[1..];
    }
  }

  function Insert(x: string, xs: seq<string>): seq<string> {
    if xs == [] || Before(x, xs[0]) then [x] + xs else [xs[0]] + Insert(x, xs[1..])
  }

  function Sort(xs: seq<string>): seq<string> {
    if xs == [] then [] else Insert(xs[0], Sort(xs[1..]))
  }

  lemma {:induction false} InsertSorted(x: string, xs: seq<string>)
    requires StrictlySorted(xs) && x !in xs
    ensures StrictlySorted(Insert(x, xs)) && forall y :: y in Insert(x, xs) <==> y == x || y in xs
  {
    if xs != [] {
      if Before(x, xs[0]) {
        forall j | 0 <= j < |xs|
          ensures Before(x, xs[j])
        {
          if j > 0 { BeforeTransitive(x, xs[0], xs[j]); }
        }
      } else {
        BeforeTotal(x, xs[0]);
        InsertSorted(x, xs[1..]);
        var rest := Insert(x, xs[1..]);
        assert forall y <- rest :: Before(xs[0], y);
        assert xs == [xs[0]] + xs[1..];
      }
    }
  }

  lemma {:induction false} SortSorted(xs: seq<string>)
    requires NoRepeats(xs)
    ensures StrictlySorted(Sort(xs)) && SameMembers(Sort(xs), xs)
  {
    if xs != [] {
      SortSorted(xs[1..]);
      assert xs == [xs[0]] + xs[1..] && xs[0] !in xs[1..];
      InsertSorted(xs[0], Sort(xs[1..]));
    }
  }

  // ----- selecting contexts

  /** The contexts of a kubeconfig with the cluster each refers to; a name may stand for nothing. */
  type Contexts = map<string, Option<string>>

  datatype Pattern = Blank | Invalid | Matching(matches: string -> bool)

  datatype Request = Request(proxyContext: string, explicit: seq<string>, pattern: Pattern, primary: string)

  predicate IsManaged(contexts: Contexts, name: string) {
    name in contexts && contexts[name].Some? && Kubeconfig.PROXY_ENTRY_PREFIX <= contexts[name].value
  }

  predicate Eligible(contexts: Contexts, request: Request, name: string) {
    && !IsManaged(contexts, name)
    && (request.pattern.Matching? ==> request.pattern.matches(name))
  }

  function Filter(xs: seq<string>, contexts: Contexts, request: Request): seq<string> {
    if xs == [] then []
    else
      Filter(xs[..|xs| - 1], contexts, request)
      + if Eligible(contexts, request, xs[|xs| - 1]) then [xs[|xs| - 1]] else []
  }

  function Without(xs: seq<string>, known: seq<string>): seq<string> {
    if xs == [] then []
    else Without(xs[..|xs| - 1], known) + if xs[|xs| - 1] in known then [] else [xs[|xs| - 1]]
  }

  /** The names before validation, when the map of contexts is iterated in the given order. */
  function Chosen(contexts: Contexts, request: Request, order: seq<string>): Option<seq<string>> {
    match request.pattern
    case Invalid => None
    case Matching(_) => Some(request.explicit + Without(Sort(Filter(order, contexts, request)), request.explicit))
    case Blank =>
      if |request.explicit| == 0 then Some(Sort(Filter(order, contexts, request))) else Some(request.explicit)
  }

  lemma FilterNext(xs: seq<string>, contexts: Contexts, request: Request, k: nat)
    requires k < |xs|
    ensures Filter(xs[..k + 1], contexts, request)
         == Filter(xs[..k], contexts, request) + (if Eligible(contexts, request, xs[k]) then [xs[k]] else [])
  {
    assert xs[..k + 1][..k] == xs[..k];
  }

  lemma WithoutNext(xs: seq<string>, known: seq<string>, k: nat)
    requires k < |xs| && StrictlySorted(xs)
    ensures Without(xs[..k + 1], known) == Without(xs[..k], known) + (if xs[k] in known then [] else [xs[k]])
    ensures xs[k] !in xs[..k]
  {
    assert xs[..k + 1][..k] == xs[..k];
    BeforeTotal(xs[k], xs[k]);
  }

  method AppendNew(explicit: seq<string>, matched: seq<string>) returns (names: seq<string>)
    requires StrictlySorted(matched)
    ensures names == explicit + Without(matched, explicit)
  {
    names := explicit;
    var selected := set name | name in explicit;
    for k := 0 to |matched|
      invariant names == explicit + Without(matched[..k], explicit)
      invariant forall name :: name in selected <==> name in names
    {
      WithoutNext(matched, explicit, k);
      WithoutMembers(matched[..k], explicit);
      if matched[k] !in selected {
        names := names + [matched[k]];
        selected := selected + {matched[k]};
      }
    }
    assert matched[..|matched|] == matched;
  }

  method SelectContextNames(contexts: Contexts, request: Request,
                            order: seq<string>) returns (chosen: Option<seq<string>>)
    requires NoRepeats(order)
    ensures chosen == Chosen(contexts, request, order)
  {
    var names := request.explicit;
    if request.pattern.Invalid? {
      return None;
    }
    if request.pattern.Matching? {
      var matched: seq<string> := [];
      for k := 0 to |order|
        invariant matched == Filter(order[..k], contexts, request)
      {
        FilterNext(order, contexts, request, k);
        if !IsManaged(contexts, order[k]) && request.pattern.matches(order[k]) {
          matched := matched + [order[k]];
        }
      }
      assert order[..|order|] == order;
      FilterNoRepeats(order, contexts, request);
      SortSorted(matched);
      names := AppendNew(request.explicit, Sort(matched));
    }
    if |request.explicit| == 0 && request.pattern.Blank? {
      for k := 0 to |order|
        invariant names == Filter(order[..k], contexts, request)
      {
        FilterNext(order, contexts, request, k);
        if !IsManaged(contexts, order[k]) {
          names := names + [order[k]];
        }
      }
      assert order[..|order|] == order;
      names := Sort(names);
    }
    return Some(names);
  }

  lemma {:induction false} FilterMembers(xs: seq<string>, contexts: Contexts, request: Request)
    ensures forall x :: x in Filter(xs, contexts, request) <==> x in xs && Eligible(contexts, request, x)
  {
    if xs != [] {
      FilterMembers(xs[..|xs| - 1], contexts, request);
      assert xs == xs[..|xs| - 1] + [xs[|xs| - 1]];
    }
  }

  lemma {:induction false} FilterNoRepeats(xs: seq<string>, contexts: Contexts, request: Request)
    requires NoRepeats(xs)
    ensures NoRepeats(Filter(xs, contexts, request))
  {
    if xs != [] {
      FilterNoRepeats(xs[..|xs| - 1], contexts, request);
      FilterMembers(xs[..|xs| - 1], contexts, request);
    }
  }

  /** An order in which a Go map may be iterated. */
  ghost predicate Iterates(order: seq<string>, contexts: Contexts) {
    NoRepeats(order) && forall name :: name in order <==> name in contexts
  }

  /** The selection does not depend on the order in which the map of contexts is iterated. */
  lemma SelectionOrderIndependent(contexts: Contexts, request: Request, one: seq<string>, two: seq<string>)
    requires Iterates(one, contexts) && Iterates(two, contexts)
    ensures Chosen(contexts, request, one) == Chosen(contexts, request, two)
  {
    var first, second := Filter(one, contexts, request), Filter(two, contexts, request);
    FilterMembers(one, contexts, request);
    FilterMembers(two, contexts, request);
    FilterNoRepeats(one, contexts, request);
    FilterNoRepeats(two, contexts, request);
    SortSorted(first);
    SortSorted(second);
    SortedUnique(Sort(first), Sort(second));
  }

  lemma {:induction false} WithoutMembers(xs: seq<string>, known: seq<string>)
    ensures forall x :: x in Without(xs, known) <==> x in xs && x !in known
  {
    if xs != [] {
      WithoutMembers(xs[..|xs| - 1], known);
      assert xs == xs[..|xs| - 1] + [xs[|xs| - 1]];
    }
  }

  lemma {:induction false} WithoutSorted(xs: seq<string>, known: seq<string>)
    requires StrictlySorted(xs)
    ensures StrictlySorted(Without(xs, known))
  {
    if xs != [] {
      var before, last := xs[..|xs| - 1], xs[|xs| - 1];
      WithoutSorted(before, known);
      WithoutMembers(before, known);
      forall x <- before
        ensures Before(x, last)
      {
        var i :| 0 <= i < |before| && before[i] == x;
        assert xs[i] == x;
      }
    }
  }

  /** What is chosen: the explicit names in the order given, followed in alphabetical order by exactly those
  other contexts that match the pattern and are not managed by the proxy. Without a pattern it is the explicit
  names alone or, when there are none, every unmanaged context in alphabetical order. */
  lemma ChosenMembers(contexts: Contexts, request: Request, order: seq<string>)
    requires Iterates(order, contexts)
    ensures request.pattern.Invalid? <==> Chosen(contexts, request, order).None?
    ensures Chosen(contexts, request, order).Some? ==>
              var chosen := Chosen(contexts, request, order).value;
              && request.explicit <= chosen
              && StrictlySorted(chosen[|request.explicit|..])
              && forall name :: name in chosen[|request.explicit|..] <==>
                   && name in contexts && name !in request.explicit
                   && !(contexts[name].Some? && "kubeconfig-proxy/" <= contexts[name].value)
                   && match request.pattern
                      case Matching(matches) => matches(name)
                      case Blank => request.explicit == []
                      case Invalid => false
  {
    var sorted := Sort(Filter(order, contexts, request));
    FilterMembers(order, contexts, request);
    FilterNoRepeats(order, contexts, request);
    SortSorted(Filter(order, contexts, request));
    WithoutMembers(sorted, request.explicit);
    WithoutSorted(sorted, request.explicit);
    if request.pattern.Matching? {
      assert (request.explicit + Without(sorted, request.explicit))[|request.explicit|..]
          == Without(sorted, request.explicit);
    } else if request.pattern.Blank? {
      assert request.explicit[|request.explicit|..] == [];
      assert sorted[0..] == sorted;
    }
  }

  // ----- validation and the primary context

  method ValidateContextNames(contexts: Contexts, names: seq<string>) returns (ok: bool)
    ensures ok <==> NoRepeats(names) && forall name <- names :: name in contexts && contexts[name].Some?
  {
    var seen: set<string> := {};
    for k := 0 to |names|
      invariant forall name :: name in seen <==> name in names[..k]
      invariant NoRepeats(names[..k])
      invariant forall name <- names[..k] :: name in contexts && contexts[name].Some?
    {
      assert names[..k + 1] == names[..k] + [names[k]];
      if names[k] in seen {
        var i :| 0 <= i < k && names[i] == names[k];
        return false;
      }
      seen := seen + {names[k]};
      if names[k] !in contexts || contexts[names[k]].None? {
        assert names[k] in names;
        return false;
      }
    }
    assert names[..|names|] == names;
    return true;
  }

  ghost predicate Acceptable(contexts: Contexts, proxyContext: string, names: seq<string>) {
    && |names| > 0 && proxyContext !in names && NoRepeats(names)
    && forall name <- names :: name in contexts && contexts[name].Some?
  }

  datatype Picked = Refused | Picked(names: seq<string>, primary: string)

  function PrimaryOf(names: seq<string>, request: Request, current: string): string
    requires |names| > 0
  {
    if request.primary != "" then request.primary else if current in names then current else names[0]
  }

  /** SelectContexts: accepted exactly when the names are valid and contain the primary; what comes out is
  what was chosen, in order. */
  method SelectContexts(contexts: Contexts, request: Request, current: string,
                        order: seq<string>) returns (picked: Picked)
    requires Iterates(order, contexts)
    ensures var chosen := Chosen(contexts, request, order);
            && (picked.Picked? <==>
                  && chosen.Some? && Acceptable(contexts, request.proxyContext, chosen.value)
                  && (request.primary == "" || request.primary in chosen.value))
            && (picked.Picked? ==>
                  && picked.names == chosen.value && picked.primary in picked.names
                  && (request.primary != "" ==> picked.primary == request.primary)
                  && (request.primary == "" && current in picked.names ==> picked.primary == current)
                  && (request.primary == "" && current !in picked.names ==> picked.primary == picked.names[0]))
  {
    var chosen := SelectContextNames(contexts, request, order);
    if chosen.None? || |chosen.value| == 0 || request.proxyContext in chosen.value {
      return Refused;
    }
    var valid := ValidateContextNames(contexts, chosen.value);
    if !valid {
      return Refused;
    }
    var primary := PrimaryOf(chosen.value, request, current);
    if primary !in chosen.value {
      return Refused;
    }
    return Picked(chosen.value, primary);
  }

  // ----- targets and the proxy

  /** The targets are the contexts in order; the primary is looked up by name. Each context's client is
  assumed to be buildable. */
  method LoadTargets(names: seq<string>, primary: string) returns (targets: seq<string>, primaryTarget: string)
    requires |names| > 0 && primary in names
    ensures targets == names && primaryTarget == primary
  {
    targets := [];
    for k := 0 to |names|
      invariant targets == names[..k]
    {
      targets := targets + [names[k]];
    }
    var primaryIndex := 0;
    var i := 0;
    while i < |targets| && targets[i] != primary
      invariant 0 <= i <= |targets| && primary !in targets[..i]
    {
      i := i + 1;
    }
    if i < |targets| {
      primaryIndex := i;
    }
    primaryTarget := targets[primaryIndex];
  }

  /** NewWithOptions, for a non-empty token and options that are not negative. */
  method NewWithOptions(targets: seq<string>, primary: string) returns (ok: bool)
    ensures ok <==> |targets| > 0 && primary != "" && "" !in targets && NoRepeats(targets) && primary in targets
  {
    if |targets| == 0 || primary == "" {
      return false;
    }
    var seenPrimary := false;
    var seen: set<string> := {};
    for k := 0 to |targets|
      invariant forall name :: name in seen <==> name in targets[..k]
      invariant NoRepeats(targets[..k]) && "" !in targets[..k]
      invariant seenPrimary <==> primary in targets[..k]
    {
      assert targets[..k + 1] == targets[..k] + [targets[k]];
      if targets[k] == "" {
        return false;
      }
      if targets[k] in seen {
        var i :| 0 <= i < k && targets[i] == targets[k];
        return false;
      }
      seen := seen + {targets[k]};
      seenPrimary := seenPrimary || targets[k] == primary;
    }
    assert targets[..|targets|] == targets;
    return seenPrimary;
  }

  /** From a kubeconfig to a proxy: a selection that is accepted becomes a proxy over the same names in the
  same order with that primary, exactly when no selected name is empty. */
  method Configure(contexts: Contexts, request: Request, current: string, order: seq<string>)
    returns (ok: bool, targets: seq<string>, primary: string)
    requires Iterates(order, contexts)
    ensures var chosen := Chosen(contexts, request, order);
            ok <==> && chosen.Some? && Acceptable(contexts, request.proxyContext, chosen.value)
                    && (request.primary == "" || request.primary in chosen.value)
                    && "" !in chosen.value
    ensures ok ==> targets == Chosen(contexts, request, order).value && primary in targets && NoRepeats(targets)
  {
    var picked := SelectContexts(contexts, request, current, order);
    if picked.Refused? {
      return false, [], "";
    }
    targets, primary := LoadTargets(picked.names, picked.primary);
    ok := NewWithOptions(targets, primary);
  }

  /** The contexts of a configuration as the selection sees them. */
  function ContextsOf(config: Kubeconfig.Config): Contexts {
    map name | name in config.contexts :: Some(config.contexts[name].cluster)
  }

  /** A proxy never selects its own context, or that of another proxy, by a pattern or by default: a context that
  was added for a proxy is chosen only when it is listed explicitly. */
  lemma AddedContextNotChosen(config: Kubeconfig.Config, context: string, entry: Kubeconfig.Entry, request: Request,
                              order: seq<string>)
    requires Iterates(order, ContextsOf(Kubeconfig.Add(config, context, entry)))
    ensures var chosen := Chosen(ContextsOf(Kubeconfig.Add(config, context, entry)), request, order);
            chosen.Some? && context !in request.explicit ==> context !in chosen.value
  {
    var contexts := ContextsOf(Kubeconfig.Add(config, context, entry));
    Kubeconfig.AddWrites(config, context, entry);
    ChosenMembers(contexts, request, order);
    var chosen := Chosen(contexts, request, order);
    if chosen.Some? {
      assert chosen.value == chosen.value[..|request.explicit|] + chosen.value[|request.explicit|..];
      assert chosen.value[..|request.explicit|] == request.explicit;
    }
  }

  /** The order is that of the first character in which two names differ, with a name before its extensions. */
  lemma {:induction false} BeforeMeaning(a: string, b: string)
    ensures Before(a, b) <==>
            exists k :: 0 <= k <= |a| && k <= |b| && a[..k] == b[..k]
                        && ((k == |a| && k < |b|) || (k < |a| && k < |b| && a[k] < b[k]))
  {
    if a == "" || b == "" || a[0] != b[0] {
      assert a[..0] == b[..0];
      forall k | 0 < k <= |a| && k <= |b|
        ensures a[..k] != b[..k]
      {
        assert a[..k][0] == a[0] && b[..k][0] == b[0];
      }
    } else {
      BeforeMeaning(a[1..], b[1..]);
      if k :| 0 <= k <= |a| && k <= |b| && a[..k] == b[..k]
              && ((k == |a| && k < |b|) || (k < |a| && k < |b| && a[k] < b[k])) {
        assert k > 0;
        assert a[1..][..k - 1] == a[..k][1..] && b[1..][..k - 1] == b[..k][1..];
        assert k < |a| ==> a[1..][k - 1] == a[k];
        assert k < |b| ==> b[1..][k - 1] == b[k];
      }
      if k :| 0 <= k <= |a[1..]| && k <= |b[1..]| && a[1..][..k] == b[1..][..k]
              && ((k == |a[1..]| && k < |b[1..]|) || (k < |a[1..]| && k < |b[1..]| && a[1..][k] < b[1..][k])) {
        assert a[..k + 1] == [a[0]] + a[1..][..k] && b[..k + 1] == [b[0]] + b[1..][..k];
      }
    }
  }
}
