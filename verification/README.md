# kubeconfig-proxy: a verified model

kubeconfig-proxy presents several Kubernetes API servers (its targets, one per kubeconfig context) as one.
This project models, in Dafny, how it combines them, and proves what that combination promises.

| file | what it models |
|---|---|
| `Wire.dfy`, `Strings.dfy`, `Numbers.dfy` | JSON values, wire strings, upstream replies; splitting and joining of names; numbers as float64 |
| `Marking.dfy` | source markers on objects, their removal before a write |
| `Upstream.dfy` | the contract assumed of one API server: an append-only log, snapshots at versions, pages |
| `ModelServer.dfy` | servers that meet the contract, so that it is known to be satisfiable: paginations that finish, streams that deliver whole logs, histories with a reconnect |
| `Aggregate.dfy`, `Pagination.dfy` | merged lists and cross-target pages; theorems about chains of pages |
| `Envelope.dfy` | what a merged list or a page keeps of the targets' own lists around the entries |
| `ListFailures.dfy` | which target a failed list or page names, and exactly when there is no failure |
| `WatchEvents.dfy`, `WatchStart.dfy`, `OpenRun.dfy`, `WatchRun.dfy` | watch lines, start versions, the open/cancel protocol, the copying goroutines |
| `Resume.dfy`, `EndToEnd.dfy` | what a client has seen when it holds a version vector; list, then watch |
| `Serve.dfy`, `FileWatch.dfy` | request counter, event loop and drain; the file poller |
| `Transport.dfy`, `Mutation.dfy` | retries, concurrent fan-out, identity rewrite; target selection of mutations |
| `Selection.dfy`, `Kubeconfig.dfy` | context selection, targets; adding and deleting a proxy context |

## How it is modelled

- Loops and objects with fields are methods and classes. Each is proved against a function, and the theorems
  are lemmas about that function. Concurrent code is a transition system over explicit steps, and its
  theorems speak about every run, that is, every interleaving.
- A string on the wire is symbolic: literal text or the encoding of a structured value. The proxy's two
  encodings (a prefix and unpadded base64url of JSON, section 5 of RFC 4648) are thereby injective. An
  upstream continuation token is a pair of version and offset.
- An upstream server is assumed to keep an append-only log whose writes have distinct versions; to answer a
  list at a version from the prefix that version names, in an order that depends on the contents only; to
  return at most the requested number of entries per page, at least one while any remain, and a continuation
  while any remain; and to serve a watch from a version with the later changes in order, bookmarks only where
  nothing is outstanding, and anything else without a version. Failures are always allowed. Clients write to
  the targets at any time.
- A context name is assumed to stand for one server throughout: a reload may add, remove and reorder targets
  between the pages of a list and the sessions of a watch, but not point a name at another cluster.
- A reply or an event stands for what the proxy decodes. The objects in a log are assumed to have only numbers
  that survive decoding (`Numbers.Survives`), so that a list or a watch shows them as they are stored.
- A watch is assumed to be requested without `sendInitialEvents`. The proxy passes that parameter on, and the
  synthetic events a server then starts with move coordinates backwards.
- A client is assumed to stop, and to reconnect, at a line it cannot decode. When a stream breaks inside a line,
  the part read so far is written without a newline, and the next line of another target is glued to it; a
  client that skipped the two would lose the second one while later lines claim it.
- The objects in a log are assumed to keep their metadata at the top level. What happens otherwise is stated
  in `Marking.SourceReadableIff` and `WatchEvents.OwnVersionReadIff`.

## Where the code does less than one might expect

- An object with an object of its own under a top-level field `object` (a custom resource may have one) is
  treated like a Table row: it is marked inside that field, and its version is read from there. Its watch
  events leave the version vector behind when there is no version inside
  (`WatchEvents.WrappingEventIsMissed`) and move it to a foreign version when there is another one
  (`WatchEvents.WrappingEventMisleads`), from which a reconnect then starts that target
  (`EndToEnd.ForeignVersionResumes`). After a named read the virtual label inside is not taken off again
  (`Marking.ReadWriteRoundTripIff`).
- The fingerprint of the configured targets joins their names with NUL. Two configurations share it exactly
  when cutting their names at NUL gives the same pieces (`Strings.SameJoinIff`). Among configurations that the
  proxy can run with and that have no NUL in their names, a token is therefore accepted by its issuer only,
  unless the issuer has NUL in a name and the pieces of its names are such a configuration, with no empty and no
  repeated name: that one accepts the token too (`Pagination.TokenIdentifiesIff`,
  `Pagination.NulConfusesTargets`).
- The proxy decodes numbers as float64. A document that it encodes again (a list, a marked event, a named read, a
  body from which the virtual label is taken off or whose identity is rewritten) has its integers of more than
  53 binary digits rounded to the nearest float64 (`Numbers.SurvivesIff`, `Marking.LargeNumberComesBackChanged`,
  `Transport.LargeNumberSentChanged`).
- ROUTING.md (lines 177-181) lets the first selected context in configured order represent a mutation that
  leaves the primary out. When an annotation that lists contexts decides, the code takes the first one listed
  (`Mutation.RepresentativeIsConfiguredFirst`, `Mutation.AnnotationOrderRepresents`).
- ROUTING.md (lines 168-171) and ARCHITECTURE.md (lines 318-320) never let the identity of one cluster reach
  another. A PUT carries the target's own identity when the read before it shows the object; after a refusal,
  a 404 or a server error, and for a body without metadata, the client's body is sent as it is
  (`Transport.PutIdentity`).
- README.md (lines 181-183) and ARCHITECTURE.md (lines 207-209) promise five seconds without requests before
  a reload. That is so when the timer was last armed on an idle server and no request was admitted since, which
  is the case exactly when no notification of a request that ended after the arming is outstanding at the time
  the timer is received (`Serve.FullDelayIff`). Otherwise the reload may follow the end of a request at once
  (`Serve.DelayCanBeCutShort`). The model has no clock: "exactly" is about the last arming, and more than five
  quiet seconds may have passed in the other case as well.
- Pages do not compare the shapes of the lists they put together; the unpaginated list does
  (`Pagination.MergeSucceedsIff`).

## Model

| member | source | states |
|---|---|---|
| Marking.MarkEntryIsOnePut | internal/proxy/aggregate.go:368-428 | the two nested in-place edits of an entry amount to one change of its metadata, for wrapped and unwrapped entries |
| Marking.MarkingAddsOnlyMarkers | internal/proxy/aggregate.go:368-412 | marking sets the annotation and the label to the context and changes nothing else |
| Marking.SourceReadableIff | internal/proxy/aggregate.go:414-428 | the marker is readable at an object's own metadata exactly when the object does not wrap another one |
| Marking.MarkingKeepsIdentity | internal/proxy/aggregate.go:368-380 | marking and re-versioning keep namespace and name, and the object then names its context and the given version |
| Marking.ShownForgetsVersion | internal/proxy/watch.go:330-336 | a listed object and a watched one differ only in the version they carry |
| Marking.LabelsRestoredIff | internal/proxy/aggregate.go:382-428 | labelling a named read and taking the label off (handlers.go:300-326) restores plain objects, wrapping objects and Tables: exactly when |
| Marking.ReadWriteRoundTripIff | internal/proxy/handlers.go:281-298 | a named read sent back reaches the target unchanged exactly when its labels are restored and every number survives decoding |
| Marking.LargeNumberComesBackChanged | internal/proxy/aggregate.go:382-399 | an object with restored labels whose number 2^53 + 1 comes back as 2^53 |
| Marking.PassedOnMeaning | internal/proxy/handlers.go:281-298 | a body without the virtual label is passed on as it is; any other is passed on as decoded without exactly that label |
| Numbers.SurvivesIff | internal/proxy/handlers.go:281-298 | decoding leaves a document as it was exactly when a float64 holds each of its numbers |
| Numbers.DecodedSurvives | internal/proxy/handlers.go:281-298 | what has been decoded once does not change when it is decoded again |
| Numbers.NearestIsNearest | internal/proxy/handlers.go:281-298 | rounding takes the nearest multiple, on a tie the even one |
| Strings.SameJoinIff | internal/proxy/aggregate.go:265-271 | two configurations share a fingerprint exactly when their names cut at NUL give the same pieces |
| Strings.JoinInjective | internal/proxy/aggregate.go:265-271 | different lists of separator-free names have different fingerprints |
| Strings.JoinIdentifiesIff | internal/proxy/aggregate.go:265-271 | a fingerprint stands for one list among the separator-free ones exactly when the list itself is free of the separator |
| Upstream.SnapshotStable | internal/proxy/aggregate.go:188-193 | a read pinned to a version gives the same list however far the log has grown |
| Aggregate.MergeLists | internal/proxy/aggregate.go:282-336 | the two loops of the merge compute the merge function, errors included |
| Aggregate.PageVersions | internal/proxy/aggregate.go:102-156 | versions come from the cursor or from the probes, with the first missing one as the failure |
| Aggregate.ReadAggregatePage | internal/proxy/aggregate.go:158-197 | one upstream page: marked entries and continuation, or the failure to report |
| Aggregate.ReadPages | internal/proxy/aggregate.go:68-86 | the loop over targets under one limit computes the recursive walk and makes exactly its reads |
| Aggregate.AggregatePage | internal/proxy/aggregate.go:48-100 | a page request from limit check to payload, with every error branch |
| Pagination.FirstPins | internal/proxy/aggregate.go:115-127 | the first page pins every target at a version it has reached |
| Pagination.LaterPins | internal/proxy/aggregate.go:102-113 | later pages keep exactly the cursor's versions |
| Pagination.PageTakes | internal/proxy/aggregate.go:158-178 | one upstream page takes the next piece off its target's pinned list |
| Pagination.VisitDelivers | internal/proxy/aggregate.go:70-86 | the walk of a page takes the next piece off what remains and leaves a cursor for exactly the rest |
| Pagination.PageDelivers | internal/proxy/aggregate.go:48-100 | a page is at most as long as its limit, states the pinned versions, and balances against what remains |
| Pagination.ChainDelivers | internal/proxy/aggregate.go:48-128 | for every chain, with any limits, writes and reloads: received plus what the token stands for is the plain merge of one snapshot per target |
| Pagination.ChainIsShort | internal/proxy/aggregate.go:70-86 | a chain has at most one page more than there are items |
| Pagination.FullChainIsShort | internal/proxy/aggregate.go:70-86 | over targets that fill their pages every page before the last is full, so at most total / limit + 1 pages |
| Pagination.PaginationRefinesMerge | internal/proxy/aggregate.go:48-128 | a finished chain gives the items, order and version of the unpaginated list of the same snapshots |
| Pagination.MergeConcatenates | internal/proxy/aggregate.go:282-312 | merging lists of one shape concatenates their marked entries in target order |
| Pagination.WholeListIsPlain | internal/proxy/aggregate.go:31-45 | the unpaginated list is the plain merge with the vector of the targets' versions |
| Pagination.MergeSucceedsIff | internal/proxy/aggregate.go:282-312 | merging succeeds exactly when every reply is a list and all have one shape |
| Pagination.TokenNeedsSameNames | internal/proxy/aggregate.go:246-263 | a token is accepted only by a configuration with the same names in the same order and the same scope |
| Pagination.TokenConfined | internal/proxy/aggregate.go:180-197 | whatever targets answer and however the configuration changes, an upstream token goes only to the target that issued it, and versions never change |
| Pagination.TokenAcceptedIff | internal/proxy/aggregate.go:246-271 | exactly which configurations accept a token |
| Pagination.TokenIdentifiesIff | internal/proxy/aggregate.go:246-271 | among NUL-free configurations the proxy can run with (proxy.go:45-65), only the issuer accepts a token exactly when the issuer is NUL-free or its pieces are no such configuration |
| Pagination.NulConfusesTargets | internal/proxy/aggregate.go:265-271 | two such configurations, in which one index stands for different targets |
| ListFailures.WholeListOutcome | internal/proxy/aggregate.go:31-45 | the list fails with the first unsuccessful target and its code, else with the first reply that does not fit, else it holds all entries in order |
| ListFailures.VisitReads | internal/proxy/aggregate.go:70-74 | a page asks consecutive targets, each once, for at most what is missing: from the token it has, or at the pinned version, never both |
| ListFailures.PageFailure | internal/proxy/aggregate.go:48-79 | a page names the first target without a version, else the last one read, with the code of its reply (502 without one); it succeeds exactly when every read was answered with a list |
| ListFailures.LimitMeaning | internal/proxy/aggregate.go:48-57 | limit 0 reads the unpaginated list, a limit outside 1 to 10000 is refused, any other is the limit of the page |
| Envelope.ListsAndTables | internal/proxy/aggregate.go:282-366 | lists with items merge under items, Tables under rows: the marked entries of all replies in order |
| Envelope.WholeListKeeps | internal/proxy/aggregate.go:282-312 | a merged list agrees with the first reply on every field but its entries, and in its metadata on everything but resourceVersion |
| Envelope.PageKeeps | internal/proxy/aggregate.go:68-96 | a page agrees in the same way with the reply read last, on everything but continue and resourceVersion |
| ModelServer.PaginationFinishes | internal/proxy/aggregate.go:48-128 | over any stored objects and with any limit some pagination runs to its end |
| ModelServer.StreamServes | internal/proxy/watch.go:260-267 | every log can be served to a watch from any position |
| WatchEvents.SharedVector.MarkEvent | internal/proxy/watch.go:325-342 | the in-place update of the shared vector and of the event |
| WatchEvents.MarkLineMoves | internal/proxy/watch.go:325-342 | a line moves only its own coordinate, to its own version, and then carries the whole vector |
| WatchEvents.MarkLineShape | internal/proxy/watch.go:325-342 | a line without an object is left alone; otherwise the event keeps its other fields, and the object its own outside the metadata, where an unversioned one gains the source markers only |
| WatchEvents.OwnVersionReadIff | internal/proxy/watch.go:330-335 | the own version is read exactly when no wrapped object has a different one; otherwise the coordinate stays, or moves to the wrapped version |
| WatchEvents.WrappingEventIsMissed | internal/proxy/watch.go:330-335 | an event of a wrapping object that leaves the vector where it was |
| WatchEvents.WrappingEventMisleads | internal/proxy/watch.go:330-335 | an event of an object at version 7 that moves the coordinate to 999 |
| WatchStart.ResourceVersionsForTargets | internal/proxy/watch.go:188-198 | fails exactly when some watched target has no version, else the coordinates of exactly the watched targets |
| WatchStart.VectorAcceptedIff | internal/proxy/watch.go:152-198 | an aggregate version is accepted exactly when complete; each stream starts at its own coordinate |
| WatchStart.VectorRoundTrip | internal/proxy/watch.go:225-233 | a vector encoded by the proxy starts a watch at exactly that vector |
| WatchStart.ProbedStart | internal/proxy/watch.go:171-185 | a watch without a version starts every target at the version its own probe states |
| WatchStart.ProbeFails | internal/proxy/watch.go:171-185 | it names the first target whose probe states no version, with the code of that reply |
| WatchStart.OtherStart | internal/proxy/watch.go:152-169 | any other text starts every target at that text, unless it has the prefix of a vector |
| OpenRun.StepInv | internal/proxy/watch.go:244-304 | every step keeps the channel, failure and body invariants |
| OpenRun.OneCompletionEach | internal/proxy/watch.go:289-299 | the opener gets past its loop with one completion per target and every goroutine done |
| OpenRun.HonestOutcome | internal/proxy/watch.go:289-303 | success exactly when every stream is open; otherwise the failure reported is that of the first failed target whose completion was received, which ended before anything was cancelled |
| OpenRun.OutcomeIsAnswers | internal/proxy/watch.go:244-304 | over any run: success exactly when every dial was answered with an open stream, and a reported target is one that refused or broke |
| OpenRun.BodiesAccountedFor | internal/proxy/watch.go:114-121 | after a reported failure every body is closed once and every cancel called; on success all are open |
| OpenRun.NoDeadlock | internal/proxy/watch.go:244-304 | the opener never blocks except on targets that have not answered, before any failure |
| OpenRun.OpeningIsFinite | internal/proxy/watch.go:244-304 | every schedule, with or without the client leaving, takes at most six steps per target and five more of its own |
| OpenRun.AwaitCompletions | internal/proxy/watch.go:289-298 | the counting loop remembers the first failure in order of arrival, or none |
| WatchRun.StepInv | internal/proxy/watch.go:132-149 | every step keeps the mutex, vector, order, closing and channel invariants |
| WatchRun.EveryLineStamped | internal/proxy/watch.go:306-342 | in every interleaving each line carries the vector as of that line, and each target's lines arrive complete and in order |
| WatchRun.VectorCoordinates | internal/proxy/watch.go:325-334 | the vector covers exactly the watched targets; each coordinate is the last version of that target, or its start |
| WatchRun.OneCoordinateMoves | internal/proxy/watch.go:325-334 | from one line to the next only the line's own coordinate can move |
| WatchRun.ReturnedClean | internal/proxy/watch.go:144-149 | when the handler has returned every body was closed once, every cancel called, every goroutine gone |
| WatchRun.SilentAfterReturn | internal/proxy/watch.go:149-150 | nothing is written after the handler has returned |
| WatchRun.NoDeadlock | internal/proxy/watch.go:134-149 | unless returned or waiting for every server, the proxy can take a step |
| WatchRun.ShutdownIsFinite | internal/proxy/watch.go:144-149 | once cancelled, every schedule takes at most nine steps per target and three more of its own |
| WatchRun.AtMostOneMore | internal/proxy/watch.go:306-323 | after cancellation each stream writes at most one more line |
| WatchRun.FirstEndStopsAll | internal/proxy/watch.go:134-145 | the handler cancels the streams only after one of them has ended |
| WatchRun.EndedStreamWinds | internal/proxy/watch.go:306-323 | a goroutine whose stream has ended never reads again and writes the line in hand only |
| WatchRun.EndedStreamEndsWatch | internal/proxy/watch.go:134-149 | after any run in which a stream ended the watch never idles, every schedule of its own steps is finite, and one that cannot go on has returned |
| WatchRun.ClientGoneEndsWatch | internal/proxy/watch.go:144-149 | the same once the client has gone |
| Resume.HeldVersion | internal/proxy/watch.go:325-334 | the version of the last versioned line a client received is the proxy's vector as of the client's last line |
| Resume.ServesStable | internal/proxy/watch.go:260-267 | what a server sent stays a correct stream while its log grows |
| Resume.SessionCarries | internal/proxy/watch.go:306-342 | per target, a client has seen exactly the changes between its start coordinate and the one it holds |
| Resume.ReconnectIff | internal/proxy/watch.go:152-198 | a reconnect with the version the client holds is accepted exactly when it adds no target, and starts every target at the coordinate the client holds |
| Resume.ResumeSafe | internal/proxy/watch.go:152-198 | over any number of reconnects through the proxy's own start, interleaved and cut anywhere, with targets dropped and reordered: every change once, in order, none missing |
| Resume.CriticalSectionNeeded | internal/proxy/watch.go:311-317 | a line written between another's vector update and write would claim a change that no later stream brings any more |
| EndToEnd.PlainNoRepeats | internal/proxy/aggregate.go:282-312 | no object is listed twice |
| EndToEnd.ListKnows | internal/proxy/aggregate.go:102-128 | a finished pagination gives a client every target's store at the version the pages state |
| EndToEnd.WatchKnows | internal/proxy/watch.go:306-342 | a client that applies the lines it receives knows every target's store at the vector it holds |
| EndToEnd.ListThenWatch | internal/proxy/watch.go:152-163 | list by pages, watch from the stated version, reconnect any number of times: the client knows the store of every target it still watches at the vector it holds |
| EndToEnd.WholeListThenWatch | internal/proxy/aggregate.go:31-45 | the same from the unpaginated list |
| EndToEnd.ReconnectsKnow | internal/proxy/watch.go:152-198 | reconnecting keeps the client's copies at the vector it holds, session after session |
| EndToEnd.ForeignVersionResumes | internal/proxy/watch.go:188-198 | a reconnect after an event of a wrapping object starts at the wrapped object's version |
| EndToEnd.WholeWatchIsClean | internal/proxy/watch.go:101-150 | however a watch request ends, every opened body is closed exactly once and every cancel called |
| Serve.ActivityHandler.BeginRequest | cmd/kubeconfig-proxy/activity.go:61-69 | admits exactly when not draining |
| Serve.ActivityHandler.FinishRequest | cmd/kubeconfig-proxy/activity.go:71-76 | counts down and reports zero |
| Serve.ActivityHandler.NotifyIdle | cmd/kubeconfig-proxy/activity.go:51-56 | the send that never blocks leaves a token in the slot |
| Serve.ActivityHandler.BeginDrainIfIdle | cmd/kubeconfig-proxy/activity.go:78-86 | drains exactly when idle and not draining |
| Serve.Server.Select | cmd/kubeconfig-proxy/serve.go:200-236 | one round of the event loop for each case of the select |
| Serve.StepInv | cmd/kubeconfig-proxy/serve.go:200-236 | counting, no lost wake-up and the delay invariant hold in every reachable state |
| Serve.ReloadInterruptsNobody | cmd/kubeconfig-proxy/activity.go:61-86 | the counter counts the unfinished requests; a reload begins with none and admits none |
| Serve.ReloadComes | cmd/kubeconfig-proxy/serve.go:210-227 | on an idle server with a pending change every schedule of internal steps is finite and ends in the reload for that change |
| Serve.TakenChangeArms | cmd/kubeconfig-proxy/serve.go:210-215 | a change received becomes the pending one and starts the timer |
| Serve.PendingIsLastTaken | cmd/kubeconfig-proxy/serve.go:204-215 | in every run the pending change is the last one received, and a reload is for it |
| Serve.TakenChangeReloads | cmd/kubeconfig-proxy/serve.go:204-227 | from the start: the last change received, once the server is idle, ends in the reload for that change |
| Serve.ExitReason | cmd/kubeconfig-proxy/serve.go:200-236 | what ends the loop, and nothing else does |
| Serve.FullDelayIff | cmd/kubeconfig-proxy/serve.go:218-227 | the timer was last armed on a server idle ever since exactly when no notification of a request that ended after arming is outstanding |
| Serve.DelayCanBeCutShort | cmd/kubeconfig-proxy/serve.go:218-227 | otherwise a request that ends after the timer fired can be followed by the reload at once |
| Serve.TimerFiresDuringRequest | cmd/kubeconfig-proxy/serve.go:205-227 | a run that leads to such a state |
| FileWatch.WaitForStable | cmd/kubeconfig-proxy/state_file.go:61-80 | the settle loop, for required and optional files |
| FileWatch.SettledMeansTwice | cmd/kubeconfig-proxy/state_file.go:164-183 | a settled snapshot is the first one read twice in a row |
| FileWatch.SettleMeaning | cmd/kubeconfig-proxy/state_file.go:61-80 | the settle loop ends at the first read that fails or repeats the one before |
| FileWatch.Watcher.Poll | cmd/kubeconfig-proxy/state_file.go:98-149 | one tick: at most one event, what is remembered afterwards, and whether polling goes on |
| FileWatch.OneChangePerTick | cmd/kubeconfig-proxy/state_file.go:108-148 | a change is announced exactly when the memory moves, in one place |
| FileWatch.Converges | cmd/kubeconfig-proxy/state_file.go:94-149 | once files are steady: one event per differing kubeconfig file, then the state file's, then silence |
| FileWatch.FileDiffers | cmd/kubeconfig-proxy/state_file.go:108-131 | a tick at the first file that differs: it is settled, and announced and remembered if it still differs |
| FileWatch.StateDiffers | cmd/kubeconfig-proxy/state_file.go:132-148 | a tick at a state file that differs, after kubeconfig files that do not |
| FileWatch.NothingDiffers | cmd/kubeconfig-proxy/state_file.go:98-149 | a tick at which every file is as remembered gives no event and waits for nothing |
| FileWatch.PollingEnds | cmd/kubeconfig-proxy/state_file.go:98-149 | when polling ends: a removed state file and an unreadable file are reported, a change never ends it |
| Transport.RequestTarget | internal/proxy/transport.go:16-55 | the retry loop, its reply and its number of attempts |
| Transport.RetryMeaning | internal/proxy/transport.go:16-55 | attempts go on exactly until one is not worth repeating, retries + 1 are made, or the context ends during a backoff; the reply is the last one received, or an error if there was none or the context ended |
| Transport.RewriteMeaning | internal/proxy/handlers.go:328-344 | own uid and resourceVersion where the target has them; the rest is the client's, decoded, and unchanged exactly when every number survives |
| Transport.LargeNumberSentChanged | internal/proxy/handlers.go:328-344 | a body whose number 2^53 + 1 reaches the target as 2^53 |
| Transport.CallsAreSent | internal/proxy/handlers.go:130-162 | the calls a fan-out makes to a target, in order, are the bodies of that target's goroutine |
| Transport.FanOutDeterministic | internal/proxy/transport.go:57-67 | for every schedule each target ends as it would alone |
| Transport.TimingIrrelevant | internal/proxy/transport.go:57-67 | two fan-outs of one request end alike |
| Transport.FanOutEnds | internal/proxy/transport.go:57-67 | no schedule is longer than the attempts that are left |
| Transport.FanOutMeaning | internal/proxy/handlers.go:130-162 | calls and reply of each target in any schedule, for PUT and for the rest |
| Transport.PutIdentity | internal/proxy/handlers.go:130-162 | which identity a concurrent PUT sends to a target, for every outcome of the read before it, in any schedule |
| Mutation.SelectContextTargets | internal/proxy/handlers.go:199-222 | the listed contexts, each once in the order listed, exactly when all are configured |
| Mutation.TrimMeaning | internal/proxy/handlers.go:199-222 | trimming takes white space off both ends and nothing else |
| Mutation.DedupMeaning | internal/proxy/handlers.go:199-222 | duplicates dropped, nothing else, in the order of first occurrence |
| Mutation.SelectFoundTargets | internal/proxy/handlers.go:236-251 | the owners, or a refusal when some target is in doubt |
| Mutation.SelectionProper | internal/proxy/handlers.go:164-251 | every accepted mutation goes to some configured targets, each once |
| Mutation.PrecedenceMeaning | internal/proxy/handlers.go:164-251 | the body's annotations decide, else those of the first target in configured order whose object asks for something |
| Mutation.AnnotationsRoute | internal/proxy/handlers.go:183-197 | annotations decide exactly when they list contexts or ask for a single one in any letter case: the listed contexts, else the primary alone |
| Mutation.RoutingMeaning | internal/proxy/handlers.go:164-197 | the same of a mutation: by its body, else by the first existing object whose annotations decide |
| Mutation.OwnersSelected | internal/proxy/handlers.go:172-181 | when no annotation decides: accepted exactly when every target shows the object or answers 404; then its owners, or every target when there are none |
| Mutation.MutationConfined | internal/proxy/handlers.go:100-162 | in the calls of any fan-out, none goes to an unselected context; a selected one receives between one and retries + 1, none after a failed pre-read |
| Mutation.Respond | internal/proxy/handlers.go:115-127 | the first failure in selection order, else the primary's response, else the first |
| Mutation.RepresentMeaning | internal/proxy/handlers.go:114-127 | the first reply that is no success is reported with its target; if all are, the primary represents, or the first selected target |
| Mutation.RepresentativeIsConfiguredFirst | internal/proxy/handlers.go:121-127 | the representative is configured first whenever no listing annotation decides, else exactly when the first context listed is |
| Mutation.AnnotationOrderRepresents | internal/proxy/handlers.go:121-127 | an annotation for which it is not |
| Selection.SelectContextNames | internal/kubeconfig/source.go:105-142 | the loops over the context map compute the selection |
| Selection.SelectionOrderIndependent | internal/kubeconfig/source.go:105-142 | the result is the same for every iteration order of the map |
| Selection.ChosenMembers | internal/kubeconfig/source.go:112-142 | explicit names in order, then in alphabetical order exactly the matching unmanaged others; without a pattern the explicit names or all unmanaged contexts |
| Selection.AddedContextNotChosen | internal/kubeconfig/source.go:144-150 | the context that the proxy adds to a kubeconfig is not chosen as a target of its own unless it is named explicitly |
| Selection.BeforeMeaning | internal/kubeconfig/source.go:112-142 | the order of the chosen names is the lexicographic one |
| Selection.ValidateContextNames | internal/kubeconfig/source.go:164-176 | valid exactly when duplicate-free and all present |
| Selection.SelectContexts | internal/kubeconfig/source.go:42-63 | accepted exactly when valid and the primary is included; the primary is the one asked for, else the current context if it was chosen, else the first |
| Selection.LoadTargets | internal/upstream/target.go:42-63 | order and primary are kept |
| Selection.NewWithOptions | internal/proxy/proxy.go:45-65 | accepted exactly for non-empty, duplicate-free names that include the primary |
| Selection.Configure | internal/proxy/proxy.go:45-65 | an accepted selection becomes a proxy exactly when no selected name is empty |
| Kubeconfig.File.AddProxyContext | internal/kubeconfig/write.go:26-44 | the three entries written in place |
| Kubeconfig.File.DeleteProxyContext | internal/kubeconfig/write.go:58-87 | the removal in place, or a refusal that changes nothing |
| Kubeconfig.StatePathsFromAuthInfo | internal/kubeconfig/write.go:104-120 | the argument loop computes the state paths |
| Kubeconfig.PathsMeaning | internal/kubeconfig/write.go:104-120 | both spellings of the flag, a flag without a value, and any other argument |
| Kubeconfig.AppendUniquePaths | internal/kubeconfig/write.go:122-131 | the appending loop |
| Kubeconfig.AppendUniqueMeaning | internal/kubeconfig/write.go:122-131 | every non-empty value once, nothing else, after what was there |
| Kubeconfig.AddThenDelete | internal/kubeconfig/write.go:17-88 | the written state path is found again; the old configuration is restored exactly when no added name was in use and the new context was not current |
| Kubeconfig.AddWrites | internal/kubeconfig/write.go:26-44 | server, authority, command, namespace and state path are found again under the names that the new context refers to |
| Kubeconfig.DeleteTakes | internal/kubeconfig/write.go:58-87 | a deletion takes the context, the entries of its name and the current context if it was that one, and gives the state paths they had |
| Kubeconfig.DeleteRefusedIff | internal/kubeconfig/write.go:58-72 | refused exactly for a context that refers to other entries; other contexts are never touched |

## Left out

- HTTP, TLS, certificates, process replacement, file locking, logs, command-line parsing and scripts: I/O around the logic.
- JSON, YAML, URL and regexp libraries: documents are values with integers for numbers, a regexp is a predicate, the annotations of a body are given as a map of strings.
- Updates in place of JSON objects and the aliasing between a payload and its entries: marking is modelled on values.
- Named watches (probing, initial events) and named reads: they reuse the machinery shown here and make no promise to resume.
- Resuming a watch from a version that is not an aggregate one, the literal `0` included: every target is sent the same text.
- Path parsing and request classification (internal/proxy/routing.go) and header handling: branching without state.
- Streaming to pods, the idle TTL's clock and the five-second timer's clock: a timer here runs, fires and is received, without real time.
- A reload that finds the state file removed, a stop signal, the TTL: the loop exits, and requests may be interrupted.
- The order of completions in the opener's channel: any completion that was sent may be received next.
- Which of several bad names an error message mentions when a selection is refused.
- Mutation.RepresentativeIsConfiguredFirst: ROUTING.md promises it for every selection; the code keeps it under the stated condition only.
