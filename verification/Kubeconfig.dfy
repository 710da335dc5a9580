/** Adding a proxy context to a kubeconfig and deleting it again (internal/kubeconfig/write.go). */
module Kubeconfig {
  import opened Wire
  import opened Strings

  const PROXY_ENTRY_PREFIX := "kubeconfig-proxy/"
  const EXEC_VERSION := "client.authentication.k8s.io/v1"

  datatype Cluster = Cluster(server: string, authority: string, other: string)
  datatype Exec = Exec(command: string, args: seq<string>, other: string)
  datatype AuthInfo = AuthInfo(exec: Option<Exec>, other: string)
  datatype Context = Context(cluster: string, authInfo: string, namespace: string)

  datatype Config = Config(
    clusters: map<string, Cluster>,
    authInfos: map<string, AuthInfo>,
    contexts: map<string, Context>,
    currentContext: string)

  /** What add-context writes for a proxy. */
  datatype Entry = Entry(server: string, namespace: string, command: string, statePath: string, authority: string)

  function EntryName(context: string): string { PROXY_ENTRY_PREFIX + context }

  function Add(config: Config, context: string, entry: Entry): Config {
    var name := EntryName(context);
    config.(
      clusters := config.clusters[name := Cluster(entry.server, entry.authority, "")],
      authInfos := config.authInfos[name :=
        AuthInfo(Some(Exec(entry.command, ["credential", "--state", entry.statePath], EXEC_VERSION)), "")],
      contexts := config.contexts[context := Context(name, name, entry.namespace)])
  }

  function AppendUnique(paths: seq<string>, values: seq<string>): seq<string>
    decreases |values|
  {
    if values == [] then paths
    else if values[0] == "" || values[0] in paths then AppendUnique(paths, values[1..])
    else AppendUnique(paths + [values[0]], values[1..])
  }

  /** The state paths among the arguments of an exec plugin: after `--state`, or in `--state=`. */
  function PathsFrom(args: seq<string>): seq<string> {
    if args == [] then []
    else if args[0] == "--state" && |args| > 1 then [args[1]] + PathsFrom(args[2..])
    else if "--state=" <= args[0] then [args[0][|"--state="|..]] + PathsFrom(args[1..])
    else PathsFrom(args[1..])
  }

  function StatePaths(authInfo: Option<AuthInfo>): seq<string> {
    if authInfo.None? || authInfo.value.exec.None? then [] else PathsFrom(authInfo.value.exec.value.args)
  }

  function Find<V>(m: map<string, V>, key: string): Option<V> {
    if key in m then Some(m[key]) else None
  }

  datatype Deletion = Unmanaged | Deleted(paths: seq<string>, config: Config)

  function Delete(config: Config, context: string): Deletion {
    var name := EntryName(context);
    if context in config.contexts
       && (config.contexts[context].cluster != name || config.contexts[context].authInfo != name) then Unmanaged
    else
      var own := StatePaths(Find(config.authInfos, name));
      var first := if context in config.contexts then AppendUnique([], own) else [];
      Deleted(
        AppendUnique(first, own),
        Config(config.clusters - {name}, config.authInfos - {name}, config.contexts - {context},
               if context in config.contexts && config.currentContext == context then "" else config.currentContext))
  }

  /** A kubeconfig as it is edited in place. */
  class File {
    var clusters: map<string, Cluster>
    var authInfos: map<string, AuthInfo>
    var contexts: map<string, Context>
    var currentContext: string

    function Value(): Config
      reads this
    {
      Config(clusters, authInfos, contexts, currentContext)
    }

    constructor (config: Config)
      ensures Value() == config
    {
      clusters, authInfos, contexts, currentContext :=
        config.clusters, config.authInfos, config.contexts, config.currentContext;
    }

    method AddProxyContext(context: string, entry: Entry)
      modifies this
      ensures Value() == Add(old(Value()), context, entry)
    {
      var name := EntryName(context);
      clusters := clusters[name := Cluster(entry.server, entry.authority, "")];
      authInfos := authInfos[name :=
        AuthInfo(Some(Exec(entry.command, ["credential", "--state", entry.statePath], EXEC_VERSION)), "")];
      contexts := contexts[context := Context(name, name, entry.namespace)];
    }

    method DeleteProxyContext(context: string) returns (managed: bool, paths: seq<string>)
      modifies this
      ensures managed <==> Delete(old(Value()), context).Deleted?
      ensures managed ==> Delete(old(Value()), context) == Deleted(paths, Value())
      ensures !managed ==> Value() == old(Value())
    {
      var name := EntryName(context);
      paths := [];
      if context in contexts {
        if contexts[context].cluster != name || contexts[context].authInfo != name {
          return false, [];
        }
        var own := StatePathsFromAuthInfo(Find(authInfos, name));
        paths := AppendUniquePaths(paths, own);
        contexts := contexts - {context};
        if currentContext == context {
          currentContext := "";
        }
      } else {
        assert contexts - {context} == contexts;
      }
      if name in authInfos {
        var own := StatePathsFromAuthInfo(Some(authInfos[name]));
        paths := AppendUniquePaths(paths, own);
        authInfos := authInfos - {name};
      } else {
        assert authInfos - {name} == authInfos;
      }
      if name in clusters {
        clusters := clusters - {name};
      } else {
        assert clusters - {name} == clusters;
      }
      return true, paths;
    }
  }

  lemma PathsNext(args: seq<string>, i: nat)
    requires i < |args|
    ensures PathsFrom(args[i..]) ==
            if args[i] == "--state" && i + 1 < |args| then [args[i + 1]] + PathsFrom(args[i + 2..])
            else if "--state=" <= args[i] then [args[i][|"--state="|..]] + PathsFrom(args[i + 1..])
            else PathsFrom(args[i + 1..])
  {
    var rest := args[i..];
    assert rest[1..] == args[i + 1..];
    if |rest| > 1 { assert rest[2..] == args[i + 2..]; }
  }

  method StatePathsFromAuthInfo(authInfo: Option<AuthInfo>) returns (paths: seq<string>)
    ensures paths == StatePaths(authInfo)
  {
    if authInfo.None? || authInfo.value.exec.None? {
      return [];
    }
    var args := authInfo.value.exec.value.args;
    paths := [];
    var i := 0;
    while i < |args|
      invariant 0 <= i <= |args|
      invariant PathsFrom(args) == paths + PathsFrom(args[i..])
    {
      PathsNext(args, i);
      if args[i] == "--state" && i + 1 < |args| {
        assert paths + ([args[i + 1]] + PathsFrom(args[i + 2..])) == paths + [args[i + 1]] + PathsFrom(args[i + 2..]);
        paths := paths + [args[i + 1]];
        i := i + 1;
      } else if "--state=" <= args[i] {
        var path := args[i][|"--state="|..];
        assert paths + ([path] + PathsFrom(args[i + 1..])) == paths + [path] + PathsFrom(args[i + 1..]);
        paths := paths + [path];
      }
      i := i + 1;
    }
  }

  method AppendUniquePaths(paths: seq<string>, values: seq<string>) returns (result: seq<string>)
    ensures result == AppendUnique(paths, values)
  {
    result := paths;
    for k := 0 to |values|
      invariant AppendUnique(paths, values) == AppendUnique(result, values[k..])
    {
      assert values[k..][0] == values[k] && values[k..][1..] == values[k + 1..];
      if values[k] != "" && values[k] !in result {
        result := result + [values[k]];
      }
    }
  }

  /** Appending adds every non-empty value once and nothing else, after what was there. */
  lemma {:induction false} AppendUniqueMeaning(paths: seq<string>, values: seq<string>)
    ensures paths <= AppendUnique(paths, values)
    ensures forall path :: path in AppendUnique(paths, values) <==> path in paths || (path in values && path != "")
    ensures NoRepeats(paths) ==> NoRepeats(AppendUnique(paths, values))
    decreases |values|
  {
    if values != [] {
      assert values == [values[0]] + values[1..];
      if values[0] == "" || values[0] in paths {
        AppendUniqueMeaning(paths, values[1..]);
      } else {
        AppendUniqueMeaning(paths + [values[0]], values[1..]);
      }
    }
  }

  lemma OwnPath(path: string)
    ensures PathsFrom(["credential", "--state", path]) == [path]
  {
    var args := ["credential", "--state", path];
    assert args[0][2] != "--state="[2];
    assert args[1..] == ["--state", path] && args[1..][2..] == [];
    assert PathsFrom(args[1..]) == [path] + PathsFrom([]);
  }

  /** Deleting what was added: the state path that was written is found again, unless it was empty, and the
  configuration is the one from before exactly when none of the added names was in use and the new context
  was not already the current one. */
  lemma AddThenDelete(config: Config, context: string, entry: Entry)
    ensures var deletion := Delete(Add(config, context, entry), context);
            && deletion.Deleted?
            && deletion.paths == (if entry.statePath == "" then [] else [entry.statePath])
            && (deletion.config == config <==>
                  && EntryName(context) !in config.clusters
                  && EntryName(context) !in config.authInfos
                  && context !in config.contexts
                  && (config.currentContext == context ==> context == ""))
  {
    var added := Add(config, context, entry);
    var name := EntryName(context);
    OwnPath(entry.statePath);
    var own := StatePaths(Find(added.authInfos, name));
    assert own == [entry.statePath] && own[1..] == [];
    assert AppendUnique([], own) == (if entry.statePath == "" then [] else [entry.statePath]);
    assert AppendUnique(AppendUnique([], own), own) == AppendUnique([], own);
    var deletion := Delete(added, context);
    assert deletion.config.clusters == config.clusters - {name};
    assert deletion.config.authInfos == config.authInfos - {name};
    assert deletion.config.contexts == config.contexts - {context};
    RemoveIff(config.clusters, name);
    RemoveIff(config.authInfos, name);
    RemoveIff(config.contexts, context);
  }

  lemma RemoveIff<V>(m: map<string, V>, key: string)
    ensures m - {key} == m <==> key !in m
  {
    if key in m { assert key !in m - {key}; }
  }

  /** Deletion never touches a context it does not own: it is refused, exactly when the context exists and
  does not refer to the proxy's own entries. */
  lemma DeleteRefusedIff(config: Config, context: string)
    ensures Delete(config, context).Unmanaged? <==>
            context in config.contexts
            && config.contexts[context]
               != Context(EntryName(context), EntryName(context), config.contexts[context].namespace)
    ensures Delete(config, context).Deleted? ==>
              forall other :: other != context && other in config.contexts ==>
                other in Delete(config, context).config.contexts
                && Delete(config, context).config.contexts[other] == config.contexts[other]
  {
  }

  /** What a client of the edited file finds under the new context: a cluster with the proxy's address and
  certificate, a plugin call that names the state file, and the namespace; and everything else is as it was. */
  lemma AddWrites(config: Config, context: string, entry: Entry)
    ensures var added := Add(config, context, entry);
            && context in added.contexts && added.contexts[context].namespace == entry.namespace
            && var (cluster, user) := (added.contexts[context].cluster, added.contexts[context].authInfo);
            && cluster in added.clusters && user in added.authInfos
            && PROXY_ENTRY_PREFIX <= cluster && PROXY_ENTRY_PREFIX <= user
            && added.clusters[cluster].server == entry.server && added.clusters[cluster].authority == entry.authority
            && added.authInfos[user].exec.Some? && added.authInfos[user].exec.value.command == entry.command
            && |added.authInfos[user].exec.value.args| > 0 && added.authInfos[user].exec.value.args[0] == "credential"
            && StatePaths(Some(added.authInfos[user])) == [entry.statePath]
            && added.clusters - {cluster} == config.clusters - {cluster}
            && added.authInfos - {user} == config.authInfos - {user}
            && added.contexts - {context} == config.contexts - {context}
            && added.currentContext == config.currentContext
  {
    OwnPath(entry.statePath);
  }

  /** What the arguments of a plugin call say: a path follows `--state`, or stands in the same argument after
  `--state=`; any other argument, and a `--state` at the end, says nothing. */
  lemma PathsMeaning(path: string, rest: seq<string>, other: string)
    ensures PathsFrom(["--state", path] + rest) == [path] + PathsFrom(rest)
    ensures PathsFrom(["--state=" + path] + rest) == [path] + PathsFrom(rest)
    ensures PathsFrom(["--state"]) == []
    ensures other != "--state" && !("--state=" <= other) ==> PathsFrom([other] + rest) == PathsFrom(rest)
  {
    assert (["--state", path] + rest)[2..] == rest;
    assert ([other] + rest)[1..] == rest;
    var args := ["--state=" + path] + rest;
    assert args[1..] == rest && args[0][|"--state="|..] == path;
    assert |args[0]| > |"--state"|;
    assert "--state"[2] != "--state="[7] && !("--state=" <= "--state");
  }

  /** What deletion takes: the proxy's own three entries, the current context if it was this one, and nothing else;
  it returns each state path of the deleted plugin call once. */
  lemma DeleteTakes(config: Config, context: string)
    requires Delete(config, context).Deleted?
    ensures var (paths, left) := (Delete(config, context).paths, Delete(config, context).config);
            var name := EntryName(context);
            && left.contexts == config.contexts - {context}
            && left.clusters == config.clusters - {name} && left.authInfos == config.authInfos - {name}
            && left.currentContext ==
               (if context in config.contexts && config.currentContext == context then "" else config.currentContext)
            && NoRepeats(paths)
            && (forall path :: path in paths <==>
                  path != "" && name in config.authInfos && path in StatePaths(Some(config.authInfos[name])))
  {
    var own := StatePaths(Find(config.authInfos, EntryName(context)));
    AppendUniqueMeaning([], own);
    AppendUniqueMeaning(AppendUnique([], own), own);
  }
}
