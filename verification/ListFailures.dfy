/** How lists fail (internal/proxy/aggregate.go): which target a failure names, with which code, and exactly
when there is none. */
module ListFailures {
  import opened Wire
  import opened Upstream
  import opened Aggregate
  import opened Pagination

  /** The code the client sees for a target that stands in the way: the target's own when it refused the request,
  502 when it could not be reached or its answer was of no use. */
  function Reported(reply: Reply): int {
    if reply.Answer? && !(200 <= reply.status < 300) then reply.status else 502
  }

  // ----- unpaginated lists

  lemma {:induction false} FirstFailureAt(names: seq<string>, replies: seq<Reply>, i: nat, k: nat)
    requires i <= k < |names| == |replies| && !IsSuccess(replies[k])
    requires forall j :: i <= j < k ==> IsSuccess(replies[j])
    ensures FirstFailure(names, replies, i) == Some(Failure(names[k], Reported(replies[k])))
    decreases k - i
  {
    if i < k { FirstFailureAt(names, replies, i + 1, k); }
  }

  /** The reply at `j` has entries, and they are of the kind of the first reply's. */
  predicate Joins(replies: seq<Reply>, j: nat)
    requires j < |replies|
  {
    HasEntries(replies[j]) && HasEntries(replies[0]) && KeyOfReply(replies[j]) == KeyOfReply(replies[0])
  }

  lemma {:induction false} MergeFailsAt(names: seq<string>, replies: seq<Reply>, i: nat, merged: Option<Fields>, k: nat)
    requires |names| == |replies| && i <= k < |replies|
    requires !Joins(replies, k) && forall j: nat :: j < k ==> Joins(replies, j)
    requires merged.None? <==> i == 0
    requires merged.Some? ==> ListEntries(merged.value).Some?
                              && HasEntries(replies[0]) && ListEntries(merged.value).value.key == KeyOfReply(replies[0])
    ensures MergeFrom(names, replies, i, merged) == Failure(names[k], 502)
    decreases k - i
  {
    if i < k {
      assert Joins(replies, i);
      var marked := MarkAll(ListEntries(replies[i].body.value.fields).value.entries, names[i]);
      if merged.None? {
        MergeFailsAt(names, replies, i + 1, Some(WithEntries(replies[i].body.value.fields, marked)), k);
      } else {
        var current := ListEntries(merged.value).value.entries;
        MergeFailsAt(names, replies, i + 1, Some(WithEntries(merged.value, current + marked)), k);
      }
    }
  }

  /** The unpaginated list fails with the first target, in configured order, that did not succeed, and that
  target's own code; if all succeeded, with the first one whose reply is no list or a list of another kind;
  otherwise it consists of all the marked entries in configured order. */
  lemma WholeListOutcome(names: seq<string>, whole: nat -> Reply)
    requires |names| > 0
    ensures var replies := seq(|names|, whole);
            && (forall k: nat :: k < |names| && !IsSuccess(replies[k])
                                 && (forall j :: 0 <= j < k ==> IsSuccess(replies[j])) ==>
                  WholeList(names, whole) == Failure(names[k], Reported(replies[k])))
            && ((forall j :: 0 <= j < |names| ==> IsSuccess(replies[j])) ==>
                  && (forall k: nat :: k < |names| && !Joins(replies, k)
                                       && (forall j: nat :: j < k ==> Joins(replies, j)) ==>
                        WholeList(names, whole) == Failure(names[k], 502))
                  && (SameShape(replies) ==>
                        WholeList(names, whole).Page?
                        && PageItems(WholeList(names, whole).payload) == AllMarked(names, replies, 0)))
  {
    var replies := seq(|names|, whole);
    forall k: nat | k < |names| && !IsSuccess(replies[k]) && forall j :: 0 <= j < k ==> IsSuccess(replies[j])
      ensures WholeList(names, whole) == Failure(names[k], Reported(replies[k]))
    {
      FirstFailureAt(names, replies, 0, k);
    }
    if forall j :: 0 <= j < |names| ==> IsSuccess(replies[j]) {
      NoFailure(names, replies, 0);
      forall k: nat | k < |names| && !Joins(replies, k) && forall j: nat :: j < k ==> Joins(replies, j)
        ensures WholeList(names, whole) == Failure(names[k], 502)
      {
        MergeFailsAt(names, replies, 0, None, k);
      }
      if SameShape(replies) {
        MergeConcatenates(names, replies, 0, None);
        assert [] + AllMarked(names, replies, 0) == AllMarked(names, replies, 0);
      }
    }
  }

  // ----- pages

  /** The reply to a probe states a version. */
  predicate StatesVersion(reply: Reply) {
    && reply.Answer? && 200 <= reply.status < 300 && reply.body.Some? && reply.body.value.Obj?
    && ListVersion(reply.body.value.fields) != EMPTY
  }

  /** A version is known for a target: from the cursor when it has versions at all, else from the probe. */
  predicate HasPin(cursor: PageCursor, probe: nat -> Reply, name: string, i: nat) {
    if cursor.versions == map[] then StatesVersion(probe(i))
    else name in cursor.versions && cursor.versions[name] != EMPTY
  }

  /** The first target for which no version is known refuses the page. */
  lemma {:induction false} PinsFailAt(names: seq<string>, cursor: PageCursor, probe: nat -> Reply, i: nat,
                                      versions: map<string, Text>, k: nat)
    requires i <= k < |names| && !HasPin(cursor, probe, names[k], k)
    requires forall j: nat :: i <= j < k ==> HasPin(cursor, probe, names[j], j)
    ensures PinsFrom(names, cursor, probe, i, versions)
         == NoVersion(names[k], if cursor.versions == map[] then Reported(probe(k)) else 502)
    decreases k - i
  {
    if i < k {
      assert HasPin(cursor, probe, names[i], i);
      PinsFailAt(names, cursor, probe, i + 1, versions[names[i] := PinAt(cursor, probe, names[i], i).value], k);
    }
  }

  function AnswerTo(job: Job, asked: seq<(nat, ListRequest)>, k: nat): Reply
    requires k < |asked|
  {
    job.read(asked[k].0, asked[k].1)
  }

  /** What a page asks a target for: the target of the cursor to continue where its token says, without a version,
  which Kubernetes refuses beside a token; every other target for its list at the pinned version. */
  predicate AsksFor(job: Job, target: nat, request: ListRequest)
    requires target < |job.names|
  {
    if target == job.cursor.target && job.cursor.resume != EMPTY then
      request.resume == job.cursor.resume && request.version == EMPTY
    else
      request.resume == EMPTY
      && (job.names[target] in job.versions ==> request.version == job.versions[job.names[target]])
  }

  /** The reads ask consecutive targets from `index` on, each once, for at most `room` entries. */
  ghost predicate InTurn(job: Job, index: nat, room: nat, asked: seq<(nat, ListRequest)>) {
    && 0 < |asked| && index + |asked| <= |job.names|
    && (forall k :: 0 <= k < |asked| ==>
          && asked[k].0 == index + k && 0 < asked[k].1.limit <= room
          && AsksFor(job, asked[k].0, asked[k].1))
  }

  lemma {:induction false} VisitReads(job: Job, index: nat, room: nat)
    requires index < |job.names| && room > 0
    ensures InTurn(job, index, room, job.Asked(index, room))
    decreases |job.names| - index
  {
    if job.GoesOn(index, room) {
      VisitReads(job, index + 1, room - |job.ReadOne(index, room).entries|);
    }
  }

  /** All reads but the last are answered with lists, and the outcome is a failure exactly when the last one
  is not, naming that target with that target's code. */
  ghost predicate FailsLast(job: Job, asked: seq<(nat, ListRequest)>, visited: Visited)
    requires |asked| > 0
  {
    var last := |asked| - 1;
    && (forall k :: 0 <= k < last ==> IsList(AnswerTo(job, asked, k)))
    && (visited.Gathered? <==> IsList(AnswerTo(job, asked, last)))
    && (visited.Halted? ==>
          asked[last].0 < |job.names|
          && visited == Halted(job.names[asked[last].0], Reported(AnswerTo(job, asked, last))))
  }

  lemma FailsLastMore(job: Job, first: (nat, ListRequest), later: seq<(nat, ListRequest)>, entries: seq<Value>,
                      visited: Visited)
    requires |later| > 0 && FailsLast(job, later, visited) && IsList(job.read(first.0, first.1))
    ensures FailsLast(job, [first] + later, Prepend(entries, visited))
  {
    var asked := [first] + later;
    forall k | 0 <= k < |asked| - 1
      ensures IsList(AnswerTo(job, asked, k))
    {
      if k > 0 { assert asked[k] == later[k - 1] && IsList(AnswerTo(job, later, k - 1)); }
    }
    assert asked[|asked| - 1] == later[|later| - 1];
  }

  lemma {:induction false} VisitFailsLast(job: Job, index: nat, room: nat)
    requires index < |job.names| && room > 0
    ensures |job.Asked(index, room)| > 0 && FailsLast(job, job.Asked(index, room), job.Visit(index, room))
    decreases |job.names| - index
  {
    if job.GoesOn(index, room) {
      var one := job.ReadOne(index, room);
      var less := room - |one.entries|;
      VisitFailsLast(job, index + 1, less);
      FailsLastMore(job, (index, job.RequestAt(index, room)), job.Asked(index + 1, less), one.entries,
                    job.Visit(index + 1, less));
    } else {
      assert job.Asked(index, room) == [(index, job.RequestAt(index, room))];
      assert AnswerTo(job, job.Asked(index, room), 0) == job.ReplyAt(index, room);
    }
  }

  /** A limit that is no number from 0 to 10000 is refused; 0 asks for the unpaginated list. */
  lemma LimitMeaning(names: seq<string>, query: Query, answers: Answers)
    requires |names| > 0
    ensures query.limit == Some(0) ==> PageOutcome(names, query, answers) == WholeList(names, answers.whole)
    ensures query.limit.None? || query.limit.value < 0 || query.limit.value > 10000 ==>
              PageOutcome(names, query, answers) == BadRequest
    ensures Admit(names, query, answers).Admitted? ==>
              query.limit == Some(Admit(names, query, answers).limit) && 0 < Admit(names, query, answers).limit <= 10000
  {
  }

  /** A page request fails honestly: with the first target that has no version, or else with the target
  whose read was the last one made; it succeeds exactly when every read was answered with a list. */
  lemma PageFailure(names: seq<string>, query: Query, answers: Answers)
    requires |names| > 0 && query.limit.Some? && 0 < query.limit.value <= MAX_PAGE_LIMIT
    ensures DecodeCursor(names, query).None? ==> PageOutcome(names, query, answers) == BadRequest
    ensures DecodeCursor(names, query).Some? ==>
              forall k: nat ::
                var cursor := DecodeCursor(names, query).value;
                k < |names| && !HasPin(cursor, answers.probe, names[k], k)
                && (forall j: nat :: j < k ==> HasPin(cursor, answers.probe, names[j], j)) ==>
                  PageOutcome(names, query, answers)
                  == Failure(names[k], if cursor.versions == map[] then Reported(answers.probe(k)) else 502)
    ensures Admit(names, query, answers).Admitted? ==>
              var job := Admit(names, query, answers).job;
              var asked := job.Asked(job.cursor.target, query.limit.value);
              && |asked| > 0
              && (PageOutcome(names, query, answers).Page? <==>
                    forall k :: 0 <= k < |asked| ==> IsList(AnswerTo(job, asked, k)))
              && (!PageOutcome(names, query, answers).Page? ==>
                    var last := |asked| - 1;
                    && !IsList(AnswerTo(job, asked, last)) && asked[last].0 < |names|
                    && PageOutcome(names, query, answers)
                       == Failure(names[asked[last].0], Reported(AnswerTo(job, asked, last))))
  {
    if DecodeCursor(names, query).Some? {
      var cursor := DecodeCursor(names, query).value;
      forall k: nat | k < |names| && !HasPin(cursor, answers.probe, names[k], k)
                      && forall j: nat :: j < k ==> HasPin(cursor, answers.probe, names[j], j)
        ensures PageOutcome(names, query, answers)
             == Failure(names[k], if cursor.versions == map[] then Reported(answers.probe(k)) else 502)
      {
        PinsFailAt(names, cursor, answers.probe, 0, map[], k);
      }
    }
    if Admit(names, query, answers).Admitted? {
      var job := Admit(names, query, answers).job;
      VisitFailsLast(job, job.cursor.target, query.limit.value);
    }
  }
}
