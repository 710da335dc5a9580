/** Requests to targets: retries (internal/proxy/transport.go), concurrent fan-out, and the per-target
identity rewrite of a PUT (internal/proxy/handlers.go). */
module Transport {
  import opened Wire
  import opened Numbers

  /** One attempt: the request could not even be built, or it came back with a reply. */
  datatype Attempt = Unbuildable | Got(reply: Reply)

  predicate Retryable(reply: Reply) {
    reply.Broken? || reply.status in {429, 500, 502, 503, 504}
  }

  datatype Options = Options(retries: nat, backoff: bool)

  /** What follows from attempt `a`: the final reply, or another attempt. `interrupted`: the request's context
  ends during the backoff. */
  datatype Verdict = Final(reply: Reply) | Again

  function Judge(o: Options, a: nat, attempt: Attempt, interrupted: bool): Verdict {
    if attempt.Unbuildable? then Final(Broken)
    else if !Retryable(attempt.reply) || a >= o.retries then Final(attempt.reply)
    else if o.backoff && interrupted then Final(Broken)
    else Again
  }

  datatype Tries = Tries(attempt: nat -> Attempt, interrupted: nat -> bool)

  /** The reply of a target from attempt `a` on. */
  function Retried(o: Options, tries: Tries, a: nat): Reply
    requires a <= o.retries
    decreases o.retries - a
  {
    match Judge(o, a, tries.attempt(a), tries.interrupted(a))
    case Final(reply) => reply
    case Again => Retried(o, tries, a + 1)
  }

  /** The last attempt made. */
  function LastTry(o: Options, tries: Tries, a: nat): (k: nat)
    requires a <= o.retries
    ensures a <= k <= o.retries
    decreases o.retries - a
  {
    if Judge(o, a, tries.attempt(a), tries.interrupted(a)).Final? then a else LastTry(o, tries, a + 1)
  }

  method RequestTarget(o: Options, tries: Tries) returns (reply: Reply, made: nat)
    ensures reply == Retried(o, tries, 0) && made == LastTry(o, tries, 0) + 1
  {
    var a := 0;
    while a <= o.retries
      invariant 0 <= a <= o.retries
      invariant Retried(o, tries, 0) == Retried(o, tries, a) && LastTry(o, tries, 0) == LastTry(o, tries, a)
      decreases o.retries - a
    {
      var attempt := tries.attempt(a);
      if attempt.Unbuildable? {
        return Broken, a + 1;
      }
      if !Retryable(attempt.reply) || a == o.retries {
        return attempt.reply, a + 1;
      }
      if o.backoff && tries.interrupted(a) {
        return Broken, a + 1;
      }
      a := a + 1;
    }
  }

  /** An attempt worth repeating: a transport error, or an answer that says to come back later or that a server
  failed. */
  predicate Passing(attempt: Attempt) {
    attempt.Got? && (attempt.reply.Answer? ==>
                       attempt.reply.status == 429 || attempt.reply.status == 500
                       || (502 <= attempt.reply.status <= 504))
  }

  /** Attempts are made until one is not worth repeating, retries + 1 have been made, or the context ends during
  a backoff; not fewer and not more. The reply is that of the last attempt, unless it could not be built or the
  context ended. */
  lemma {:induction false} RetryMeaning(o: Options, tries: Tries, a: nat)
    requires a <= o.retries
    ensures var k := LastTry(o, tries, a);
            && (forall j :: a <= j < k ==> Passing(tries.attempt(j)) && !(o.backoff && tries.interrupted(j)))
            && (k < o.retries ==> !Passing(tries.attempt(k)) || (o.backoff && tries.interrupted(k)))
            && Retried(o, tries, a) ==
               if tries.attempt(k).Unbuildable? then Broken
               else if Passing(tries.attempt(k)) && k < o.retries then Broken
               else tries.attempt(k).reply
    decreases o.retries - a
  {
    if Judge(o, a, tries.attempt(a), tries.interrupted(a)).Again? { RetryMeaning(o, tries, a + 1); }
  }

  // ----- identity of a replaced object

  /** A request body: a JSON document, or bytes that are not one. */
  datatype Body = Document(value: Value) | Bytes(bytes: string)

  predicate HasMetadata(value: Value) {
    value.Obj? && "metadata" in value.fields && value.fields["metadata"].Obj?
  }

  function CopyKey(to: Fields, from: Fields, key: string): Fields {
    if key in from then to[key := from[key]] else to
  }

  /** The client's body as it goes out to a target that has shown its current object, which is as decoded. */
  function RewriteIdentity(body: Body, current: Option<Value>): Body {
    if body.Document? && current.Some? && HasMetadata(body.value) && HasMetadata(current.value) then
      var from := current.value.fields["metadata"].fields;
      var desired := Decoded(body.value);
      assert desired.fields["metadata"] == Decoded(body.value.fields["metadata"]);
      var metadata := CopyKey(CopyKey(desired.fields["metadata"].fields, from, "uid"), from, "resourceVersion");
      Document(Obj(desired.fields["metadata" := Obj(metadata)]))
    else body
  }

  /** The parts of its identity that a target has. */
  function Identity(current: Value): set<string>
    requires HasMetadata(current)
  {
    set key | key in {"uid", "resourceVersion"} && key in current.fields["metadata"].fields
  }

  /** A document without some keys of its metadata. */
  function Besides(value: Value, keys: set<string>): Value
    requires HasMetadata(value)
  {
    Obj(value.fields["metadata" := Obj(value.fields["metadata"].fields - keys)])
  }

  /** The body sent has the target's own uid and resourceVersion, where the target has them. The rest is the
  client's, decoded; it is exactly what the client sent when a float64 holds every number in it. */
  lemma RewriteMeaning(body: Body, current: Option<Value>)
    requires body.Document? && current.Some? && HasMetadata(body.value) && HasMetadata(current.value)
    ensures var sent, keys := RewriteIdentity(body, current), Identity(current.value);
            && sent.Document? && HasMetadata(sent.value)
            && (forall key <- keys ::
                  && key in sent.value.fields["metadata"].fields
                  && sent.value.fields["metadata"].fields[key] == current.value.fields["metadata"].fields[key])
            && Besides(sent.value, keys) == Decoded(Besides(body.value, keys))
            && (Besides(sent.value, keys) == Besides(body.value, keys) <==> Survives(Besides(body.value, keys)))
  {
    DecodedBesides(body.value, Identity(current.value));
    SentBesides(Decoded(body.value), current.value);
    SurvivesIff(Besides(body.value, Identity(current.value)));
  }

  lemma DecodedBesides(value: Value, keys: set<string>)
    requires HasMetadata(value)
    ensures HasMetadata(Decoded(value)) && Decoded(Besides(value, keys)) == Besides(Decoded(value), keys)
  {
    var mine := value.fields["metadata"];
    assert Decoded(value).fields["metadata"] == Decoded(mine);
    assert Decoded(Obj(mine.fields - keys)).fields == Decoded(mine).fields - keys;
    assert Decoded(Besides(value, keys)).fields == Besides(Decoded(value), keys).fields;
  }

  lemma SentBesides(desired: Value, current: Value)
    requires HasMetadata(desired) && HasMetadata(current)
    ensures var from := current.fields["metadata"].fields;
            var metadata := CopyKey(CopyKey(desired.fields["metadata"].fields, from, "uid"), from, "resourceVersion");
            Besides(Obj(desired.fields["metadata" := Obj(metadata)]), Identity(current))
            == Besides(desired, Identity(current))
  {
    var from := current.fields["metadata"].fields;
    var metadata := CopyKey(CopyKey(desired.fields["metadata"].fields, from, "uid"), from, "resourceVersion");
    assert metadata - Identity(current) == desired.fields["metadata"].fields - Identity(current);
    var sent := Obj(desired.fields["metadata" := Obj(metadata)]);
    assert Besides(sent, Identity(current)).fields == Besides(desired, Identity(current)).fields;
  }

  /** A rewritten body with a number too large: 2^53 + 1 reaches the target as 2^53. */
  lemma LargeNumberSentChanged(current: Value)
    requires HasMetadata(current)
    ensures var body := Obj(map["metadata" := Obj(map[]), "replicas" := Num(EXACT + 1)]);
            var sent := RewriteIdentity(Document(body), Some(current));
            sent.Document? && sent.value.Obj? && Get(sent.value.fields, "replicas") == Num(EXACT)
  {
    SmallIsExact(0);
    var body := Obj(map["metadata" := Obj(map[]), "replicas" := Num(EXACT + 1)]);
    assert body.fields["replicas"] == Num(EXACT + 1) && Decoded(Num(EXACT + 1)) == Num(EXACT);
    assert Decoded(body).fields["replicas"] == Num(EXACT);
  }

  // ----- fan-out

  /** What target `i` answers: to the read before a PUT, and to the request itself with a given body. */
  datatype Target = Target(read: Tries, send: Body -> Tries)

  datatype Job = Job(options: Options, isPut: bool, body: Body, targets: seq<Target>)

  /** Where the goroutine of one target stands. */
  datatype Local = Reading(a: nat) | Sending(a: nat, body: Body) | Done(reply: Reply)

  /** The goroutine of one target with the bodies it has sent so far. */
  datatype Progress = Progress(local: Local, sent: seq<Body>)

  predicate InRange(job: Job, local: Local) {
    !local.Done? ==> local.a <= job.options.retries
  }

  function Start(job: Job): Progress {
    Progress(if job.isPut then Reading(0) else Sending(0, job.body), [])
  }

  /** The body for a target whose pre-read ended with this reply. */
  function BodyFor(job: Job, reply: Reply): Body {
    if IsSuccess(reply) then RewriteIdentity(job.body, reply.body) else job.body
  }

  /** One attempt of one goroutine. */
  function Advance(job: Job, i: nat, p: Progress): (q: Progress)
    requires i < |job.targets| && !p.local.Done? && InRange(job, p.local)
    ensures InRange(job, q.local) && Left(job, q.local) < Left(job, p.local)
  {
    match p.local
    case Reading(a) =>
      var tries := job.targets[i].read;
      (match Judge(job.options, a, tries.attempt(a), tries.interrupted(a))
       case Again => p.(local := Reading(a + 1))
       case Final(reply) =>
         p.(local := if reply.Broken? then Done(Broken) else Sending(0, BodyFor(job, reply))))
    case Sending(a, body) =>
      var tries := job.targets[i].send(body);
      var sent := if tries.attempt(a).Unbuildable? then p.sent else p.sent + [body];
      (match Judge(job.options, a, tries.attempt(a), tries.interrupted(a))
       case Again => Progress(Sending(a + 1, body), sent)
       case Final(reply) => Progress(Done(reply), sent))
  }

  /** Attempts that are left at most. */
  function Left(job: Job, local: Local): nat {
    match local
    case Done(_) => 0
    case Sending(a, _) => if a <= job.options.retries then job.options.retries + 1 - a else 0
    case Reading(a) => job.options.retries + 1 + (if a <= job.options.retries then job.options.retries + 1 - a else 0)
  }

  /** What the goroutine of target `i` comes to when it runs alone. */
  function Solo(job: Job, i: nat, p: Progress): (q: Progress)
    requires i < |job.targets| && InRange(job, p.local)
    ensures q.local.Done?
    decreases Left(job, p.local)
  {
    if p.local.Done? then p else Solo(job, i, Advance(job, i, p))
  }

  ghost predicate Valid(job: Job, ps: seq<Progress>) {
    |ps| == |job.targets| && forall i :: 0 <= i < |ps| ==> InRange(job, ps[i].local)
  }

  /** Any interleaving of the goroutines: `schedule` says whose attempt comes next. */
  ghost predicate Run(job: Job, ps: seq<Progress>, schedule: seq<nat>, qs: seq<Progress>)
    decreases |schedule|
  {
    && Valid(job, ps)
    && if schedule == [] then ps == qs
       else
         var i := schedule[0];
         i < |ps| && !ps[i].local.Done? && Run(job, ps[i := Advance(job, i, ps[i])], schedule[1..], qs)
  }

  ghost predicate AllDone(ps: seq<Progress>) {
    forall i :: 0 <= i < |ps| ==> ps[i].local.Done?
  }

  /** No interleaving changes what any goroutine comes to. */
  lemma {:induction false} RunKeepsSolo(job: Job, ps: seq<Progress>, schedule: seq<nat>, qs: seq<Progress>)
    requires Run(job, ps, schedule, qs)
    ensures Valid(job, qs) && forall i :: 0 <= i < |ps| ==> Solo(job, i, qs[i]) == Solo(job, i, ps[i])
    decreases |schedule|
  {
    if schedule != [] {
      var i := schedule[0];
      var next := ps[i := Advance(job, i, ps[i])];
      RunKeepsSolo(job, next, schedule[1..], qs);
      forall k | 0 <= k < |ps|
        ensures Solo(job, k, qs[k]) == Solo(job, k, ps[k])
      {
        assert Solo(job, k, next[k]) == Solo(job, k, ps[k]);
      }
    }
  }

  function Starts(job: Job): seq<Progress> {
    seq(|job.targets|, _ => Start(job))
  }

  /** Fan-out is deterministic: whatever the order in which the goroutines make their attempts, when all are
  done every target's reply, and every body sent to it, is what the target would have had alone. */
  lemma FanOutDeterministic(job: Job, schedule: seq<nat>, qs: seq<Progress>)
    requires Run(job, Starts(job), schedule, qs) && AllDone(qs)
    ensures |qs| == |job.targets|
    ensures forall i :: 0 <= i < |qs| ==> qs[i] == Solo(job, i, Start(job))
  {
    RunKeepsSolo(job, Starts(job), schedule, qs);
    forall i | 0 <= i < |qs|
      ensures qs[i] == Solo(job, i, Start(job))
    {
      assert Solo(job, i, qs[i]) == qs[i];
    }
  }

  /** So nothing that is computed from the replies, a merged list or a representative response, depends on
  timing: two fan-outs of one request end alike. */
  lemma TimingIrrelevant(job: Job, one: seq<nat>, ps: seq<Progress>, two: seq<nat>, qs: seq<Progress>)
    requires Run(job, Starts(job), one, ps) && AllDone(ps)
    requires Run(job, Starts(job), two, qs) && AllDone(qs)
    ensures ps == qs
  {
    FanOutDeterministic(job, one, ps);
    FanOutDeterministic(job, two, qs);
  }

  function TotalLeft(job: Job, ps: seq<Progress>): nat {
    if ps == [] then 0 else Left(job, ps[0].local) + TotalLeft(job, ps[1..])
  }

  lemma {:induction false} TotalLeftUpdate(job: Job, ps: seq<Progress>, i: nat, p: Progress)
    requires i < |ps|
    ensures TotalLeft(job, ps[i := p]) + Left(job, ps[i].local) == TotalLeft(job, ps) + Left(job, p.local)
  {
    if i == 0 {
      assert ps[i := p][1..] == ps[1..];
    } else {
      TotalLeftUpdate(job, ps[1..], i - 1, p);
      assert ps[i := p][1..] == ps[1..][i - 1 := p];
    }
  }

  /** Every fan-out ends: no schedule is longer than the attempts that are left. */
  lemma {:induction false} FanOutEnds(job: Job, ps: seq<Progress>, schedule: seq<nat>, qs: seq<Progress>)
    requires Run(job, ps, schedule, qs)
    ensures |schedule| + TotalLeft(job, qs) <= TotalLeft(job, ps)
    decreases |schedule|
  {
    if schedule != [] {
      var i := schedule[0];
      TotalLeftUpdate(job, ps, i, Advance(job, i, ps[i]));
      FanOutEnds(job, ps[i := Advance(job, i, ps[i])], schedule[1..], qs);
    }
  }

  // ----- the calls a fan-out makes

  datatype Sent = Sent(target: nat, body: Body)

  /** The call, if any, that a goroutine makes by moving on. */
  function Made(i: nat, p: Progress, q: Progress): seq<Sent> {
    if |q.sent| > |p.sent| then [Sent(i, q.sent[|q.sent| - 1])] else []
  }

  /** The mutating calls of a run, in the order in which they are made. */
  ghost function Calls(job: Job, ps: seq<Progress>, schedule: seq<nat>, qs: seq<Progress>): seq<Sent>
    requires Run(job, ps, schedule, qs)
    decreases |schedule|
  {
    if schedule == [] then []
    else
      var i := schedule[0];
      var next := Advance(job, i, ps[i]);
      Made(i, ps[i], next) + Calls(job, ps[i := next], schedule[1..], qs)
  }

  function CallsTo(calls: seq<Sent>, i: nat): seq<Body> {
    if calls == [] then []
    else (if calls[0].target == i then [calls[0].body] else []) + CallsTo(calls[1..], i)
  }

  lemma MadeFirst(k: nat, p: Progress, q: Progress, later: seq<Sent>, i: nat)
    requires q.sent == p.sent || (|q.sent| > 0 && q.sent == p.sent + [q.sent[|q.sent| - 1]])
    ensures i == k ==> p.sent + CallsTo(Made(k, p, q) + later, i) == q.sent + CallsTo(later, i)
    ensures i != k ==> CallsTo(Made(k, p, q) + later, i) == CallsTo(later, i)
  {
    if |q.sent| > |p.sent| {
      assert (Made(k, p, q) + later)[1..] == later;
      assert [] + CallsTo(later, i) == CallsTo(later, i);
    } else {
      assert Made(k, p, q) + later == later;
    }
  }

  lemma AdvanceSends(job: Job, i: nat, p: Progress)
    requires i < |job.targets| && !p.local.Done? && InRange(job, p.local)
    ensures var q := Advance(job, i, p);
            q.sent == p.sent || (|q.sent| > 0 && q.sent == p.sent + [q.sent[|q.sent| - 1]])
  {
  }

  /** The calls made to a target are the bodies its goroutine has sent, in order, and no other target is
  called. */
  lemma {:induction false} CallsAreSent(job: Job, ps: seq<Progress>, schedule: seq<nat>, qs: seq<Progress>, i: nat)
    requires Run(job, ps, schedule, qs) && i < |ps|
    ensures |qs| == |ps| && qs[i].sent == ps[i].sent + CallsTo(Calls(job, ps, schedule, qs), i)
    ensures forall call <- Calls(job, ps, schedule, qs) :: call.target < |ps|
    decreases |schedule|
  {
    if schedule != [] {
      var k := schedule[0];
      var next := Advance(job, k, ps[k]);
      var later := Calls(job, ps[k := next], schedule[1..], qs);
      CallsAreSent(job, ps[k := next], schedule[1..], qs, i);
      AdvanceSends(job, k, ps[k]);
      MadeFirst(k, ps[k], next, later, i);
    }
  }

  // ----- what one target comes to

  function Repeat(body: Body, n: nat): (r: seq<Body>)
    ensures |r| == n
  {
    seq(n, _ => body)
  }

  /** How many of the attempts from `a` to the last one reach the target: all but one that cannot be built. */
  function Reaching(o: Options, tries: Tries, a: nat): nat
    requires a <= o.retries
  {
    LastTry(o, tries, a) - a + (if tries.attempt(LastTry(o, tries, a)).Unbuildable? then 0 else 1)
  }

  lemma {:induction false} SendingAlone(job: Job, i: nat, a: nat, body: Body, sent: seq<Body>)
    requires i < |job.targets| && a <= job.options.retries
    ensures var tries := job.targets[i].send(body);
            Solo(job, i, Progress(Sending(a, body), sent))
              == Progress(Done(Retried(job.options, tries, a)), sent + Repeat(body, Reaching(job.options, tries, a)))
    decreases job.options.retries - a
  {
    var tries := job.targets[i].send(body);
    if Judge(job.options, a, tries.attempt(a), tries.interrupted(a)).Again? {
      SendingAlone(job, i, a + 1, body, sent + [body]);
      assert sent + [body] + Repeat(body, Reaching(job.options, tries, a + 1))
          == sent + Repeat(body, Reaching(job.options, tries, a));
    } else {
      assert sent + Repeat(body, 0) == sent;
      assert sent + Repeat(body, 1) == sent + [body];
    }
  }

  lemma {:induction false} ReadingAlone(job: Job, i: nat, a: nat)
    requires i < |job.targets| && a <= job.options.retries
    ensures var reply := Retried(job.options, job.targets[i].read, a);
            Solo(job, i, Progress(Reading(a), []))
              == if reply.Broken? then Progress(Done(Broken), [])
                 else Solo(job, i, Progress(Sending(0, BodyFor(job, reply)), []))
    decreases job.options.retries - a
  {
    var tries := job.targets[i].read;
    if Judge(job.options, a, tries.attempt(a), tries.interrupted(a)).Again? { ReadingAlone(job, i, a + 1); }
  }

  /** The body each target is sent. */
  function BodyOf(job: Job, i: nat): Body
    requires i < |job.targets|
  {
    if job.isPut then BodyFor(job, Retried(job.options, job.targets[i].read, 0)) else job.body
  }

  predicate ReadFailed(job: Job, i: nat)
    requires i < |job.targets|
  {
    job.isPut && Retried(job.options, job.targets[i].read, 0).Broken?
  }

  /** Whatever the schedule: a target whose pre-read failed gets no mutating call and its failure is its
  reply; every other target is sent its own body, and only that, at least once (unless the request cannot be
  built) and at most retries + 1 times, and its reply is the retried one. */
  lemma FanOutMeaning(job: Job, schedule: seq<nat>, qs: seq<Progress>, i: nat)
    requires Run(job, Starts(job), schedule, qs) && AllDone(qs) && i < |job.targets|
    ensures |qs| == |job.targets|
    ensures ReadFailed(job, i) ==> qs[i] == Progress(Done(Broken), [])
    ensures !ReadFailed(job, i) ==>
              var tries := job.targets[i].send(BodyOf(job, i));
              && qs[i].local == Done(Retried(job.options, tries, 0))
              && (forall k :: 0 <= k < |qs[i].sent| ==> qs[i].sent[k] == BodyOf(job, i))
              && |qs[i].sent| <= job.options.retries + 1
              && (tries.attempt(0).Got? ==> 1 <= |qs[i].sent|)
  {
    FanOutDeterministic(job, schedule, qs);
    if job.isPut {
      ReadingAlone(job, i, 0);
    }
    if !ReadFailed(job, i) {
      SendingAlone(job, i, 0, BodyOf(job, i), []);
      var reaching := Reaching(job.options, job.targets[i].send(BodyOf(job, i)), 0);
      assert [] + Repeat(BodyOf(job, i), reaching) == Repeat(BodyOf(job, i), reaching);
    }
  }

  /** The read before the PUT shows the target's object, and both it and the client's body have metadata. */
  predicate Rewritten(job: Job, i: nat)
    requires i < |job.targets|
  {
    var reply := Retried(job.options, job.targets[i].read, 0);
    && IsSuccess(reply) && reply.body.Some? && HasMetadata(reply.body.value)
    && job.body.Document? && HasMetadata(job.body.value)
  }

  /** What identity a concurrent PUT sends to a target, in any schedule and whatever the read before it came
  back with. When that read showed the object: the target's own uid and resourceVersion, where it has them, and
  besides those the client's body, exactly if a float64 holds every number in it. When the read failed:
  nothing. In all other cases (a refusal such as 403, 404 or a server error, a body that is not JSON or has no
  metadata): the client's body as it is, with an identity that may come from another cluster. */
  lemma PutIdentity(job: Job, schedule: seq<nat>, qs: seq<Progress>, i: nat)
    requires Run(job, Starts(job), schedule, qs) && AllDone(qs) && i < |job.targets| && job.isPut
    ensures |qs| == |job.targets|
    ensures Retried(job.options, job.targets[i].read, 0).Broken? ==> qs[i].sent == []
    ensures !Rewritten(job, i) ==> forall k :: 0 <= k < |qs[i].sent| ==> qs[i].sent[k] == job.body
    ensures Rewritten(job, i) ==>
              var current := Retried(job.options, job.targets[i].read, 0).body.value;
              var keys := Identity(current);
              forall k :: 0 <= k < |qs[i].sent| ==>
                && qs[i].sent[k].Document? && HasMetadata(qs[i].sent[k].value)
                && (forall key <- keys ::
                      && key in qs[i].sent[k].value.fields["metadata"].fields
                      && qs[i].sent[k].value.fields["metadata"].fields[key] == current.fields["metadata"].fields[key])
                && Besides(qs[i].sent[k].value, keys) == Decoded(Besides(job.body.value, keys))
                && (Besides(qs[i].sent[k].value, keys) == Besides(job.body.value, keys) <==>
                      Survives(Besides(job.body.value, keys)))
  {
    FanOutMeaning(job, schedule, qs, i);
    if Rewritten(job, i) {
      RewriteMeaning(job.body, Retried(job.options, job.targets[i].read, 0).body);
    }
  }
}
