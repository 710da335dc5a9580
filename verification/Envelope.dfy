/** What of an upstream's answer is around the entries (internal/proxy/aggregate.go): a merged list or a page is
still the list, or the Table, that a target sent. */
module Envelope {
  import opened Wire
  import opened Upstream
  import opened Aggregate
  import opened Pagination
  import opened ListFailures

  predicate SameAt(a: Fields, b: Fields, key: string) {
    (key in a <==> key in b) && (key in a ==> a[key] == b[key])
  }

  /** The answer agrees with what the upstream sent on everything but the entries and some parts of the
  metadata. */
  ghost predicate Keeps(answer: Fields, sent: Fields, renewed: set<string>) {
    && ListEntries(sent).Some? && ListEntries(answer).Some?
    && ListEntries(answer).value.key == ListEntries(sent).value.key
    && (forall key :: key != ListEntries(sent).value.key && key != "metadata" ==> SameAt(answer, sent, key))
    && (forall key :: key !in renewed ==> SameAt(SubObject(answer, "metadata"), SubObject(sent, "metadata"), key))
  }

  lemma EntriesKeep(answer: Fields, sent: Fields, entries: seq<Value>, renewed: set<string>)
    requires Keeps(answer, sent, renewed)
    ensures Keeps(WithEntries(answer, entries), sent, renewed)
  {
    var after := WithEntries(answer, entries);
    forall key | key != ListEntries(sent).value.key && key != "metadata"
      ensures SameAt(after, sent, key)
    {
      assert SameAt(answer, sent, key);
    }
    forall key | key !in renewed
      ensures SameAt(SubObject(after, "metadata"), SubObject(sent, "metadata"), key)
    {
      assert SameAt(SubObject(answer, "metadata"), SubObject(sent, "metadata"), key);
    }
  }

  lemma MetadataKeeps(answer: Fields, sent: Fields, part: string, text: Text, renewed: set<string>)
    requires Keeps(answer, sent, renewed)
    ensures Keeps(WithMetadata(answer, part, text), sent, renewed + {part})
  {
    var after := WithMetadata(answer, part, text);
    forall key | key != ListEntries(sent).value.key && key != "metadata"
      ensures SameAt(after, sent, key)
    {
      assert SameAt(answer, sent, key);
    }
    forall key | key !in renewed + {part}
      ensures SameAt(SubObject(after, "metadata"), SubObject(sent, "metadata"), key)
    {
      assert SameAt(SubObject(answer, "metadata"), SubObject(sent, "metadata"), key);
    }
  }

  lemma {:induction false} MergeKeeps(names: seq<string>, replies: seq<Reply>, i: nat, merged: Option<Fields>,
                                      sent: Fields)
    requires i <= |names| == |replies| && (merged.None? ==> i == 0)
    requires merged.Some? ==> Keeps(merged.value, sent, {})
    requires merged.None? && |replies| > 0 && HasEntries(replies[0]) ==> replies[0].body.value.fields == sent
    ensures var outcome := MergeFrom(names, replies, i, merged);
            outcome.Page? && |replies| > 0 ==> Keeps(outcome.payload, sent, {"resourceVersion"})
    decreases |names| - i
  {
    if i == |names| {
      if merged.Some? {
        var version := Vector(MergedVersions(names, replies, 0, map[]));
        MetadataKeeps(merged.value, sent, "resourceVersion", version, {});
        assert {} + {"resourceVersion"} == {"resourceVersion"};
      }
    } else if HasEntries(replies[i]) {
      var marked := MarkAll(ListEntries(replies[i].body.value.fields).value.entries, names[i]);
      if merged.None? {
        EntriesKeep(sent, sent, marked, {});
        MergeKeeps(names, replies, i + 1, Some(WithEntries(sent, marked)), sent);
      } else {
        var current := ListEntries(merged.value).value.entries;
        EntriesKeep(merged.value, sent, current + marked, {});
        MergeKeeps(names, replies, i + 1, Some(WithEntries(merged.value, current + marked)), sent);
      }
    }
  }

  /** An unpaginated list is the first target's list around all the entries, with a version of its own. */
  lemma WholeListKeeps(names: seq<string>, whole: nat -> Reply)
    requires |names| > 0 && WholeList(names, whole).Page?
    ensures var first := seq(|names|, whole)[0];
            && HasEntries(first)
            && Keeps(WholeList(names, whole).payload, first.body.value.fields, {"resourceVersion"})
  {
    var replies := seq(|names|, whole);
    FirstFailureFails(names, replies, 0);
    MergeSucceedsIff(names, replies, 0, None);
    assert HasEntries(replies[0]);
    MergeKeeps(names, replies, 0, None, replies[0].body.value.fields);
  }

  /** The entries of lists that have them under `key`, one reply after the other, each marked with its context. */
  function MarkedUnder(names: seq<string>, replies: seq<Reply>, key: string, i: nat): seq<Value>
    requires i <= |names| == |replies| && forall j :: 0 <= j < |replies| ==> HasUnder(replies[j], key)
    decreases |names| - i
  {
    if i == |names| then []
    else
      assert HasUnder(replies[i], key);
      MarkAll(replies[i].body.value.fields[key].elements, names[i]) + MarkedUnder(names, replies, key, i + 1)
  }

  predicate HasUnder(reply: Reply, key: string) {
    && reply.Answer? && reply.body.Some? && reply.body.value.Obj?
    && key in reply.body.value.fields && reply.body.value.fields[key].Arr?
  }

  /** Lists with `items` merge under `items`, and Tables, which have `rows` and no `items`, under `rows`. */
  lemma ListsAndTables(names: seq<string>, whole: nat -> Reply, replies: seq<Reply>, key: string)
    requires |names| > 0 && replies == seq(|names|, whole)
    requires forall i :: 0 <= i < |replies| ==> IsSuccess(replies[i]) && HasUnder(replies[i], key)
    requires key == "items" || (key == "rows" && forall i :: 0 <= i < |replies| ==> !HasUnder(replies[i], "items"))
    ensures var outcome := WholeList(names, whole);
            && outcome.Page? && key in outcome.payload
            && outcome.payload[key] == Arr(MarkedUnder(names, replies, key, 0))
  {
    forall i | 0 <= i < |replies|
      ensures IsSuccess(replies[i]) && HasEntries(replies[i]) && KeyOfReply(replies[i]) == key
    {
      assert HasUnder(replies[i], key) && (key == "rows" ==> !HasUnder(replies[i], "items"));
    }
    WholeListOutcome(names, whole);
    WholeListKeeps(names, whole);
    MarkedUnderIsAll(names, replies, key, 0);
  }

  lemma UnderIsEntries(reply: Reply, key: string)
    requires HasUnder(reply, key) && HasEntries(reply) && KeyOfReply(reply) == key
    ensures ListEntries(reply.body.value.fields).value.entries == reply.body.value.fields[key].elements
  {
  }

  lemma {:induction false} MarkedUnderIsAll(names: seq<string>, replies: seq<Reply>, key: string, i: nat)
    requires i <= |names| == |replies| && forall j :: 0 <= j < |replies| ==> HasUnder(replies[j], key)
    requires forall j :: 0 <= j < |replies| ==> HasEntries(replies[j]) && KeyOfReply(replies[j]) == key
    ensures MarkedUnder(names, replies, key, i) == AllMarked(names, replies, i)
    decreases |names| - i
  {
    if i < |names| {
      MarkedUnderIsAll(names, replies, key, i + 1);
      assert HasEntries(replies[i]) && KeyOfReply(replies[i]) == key;
      UnderIsEntries(replies[i], key);
    }
  }

  lemma {:induction false} FirstFailureFails(names: seq<string>, replies: seq<Reply>, i: nat)
    requires i <= |names| == |replies|
    ensures FirstFailure(names, replies, i).Some? ==> FirstFailure(names, replies, i).value.Failure?
    decreases |names| - i
  {
    if i < |names| { FirstFailureFails(names, replies, i + 1); }
  }

  lemma {:induction false} VisitKeeps(job: Job, index: nat, room: nat)
    requires index < |job.names| && room > 0 && job.Visit(index, room).Gathered?
    ensures var asked := job.Asked(index, room);
            && |asked| > 0 && IsList(AnswerTo(job, asked, |asked| - 1))
            && Keeps(job.Visit(index, room).template, AnswerTo(job, asked, |asked| - 1).body.value.fields, {"continue"})
    decreases |job.names| - index
  {
    var asked := job.Asked(index, room);
    if job.GoesOn(index, room) {
      var less := room - |job.ReadOne(index, room).entries|;
      VisitKeeps(job, index + 1, less);
      assert asked[|asked| - 1] == job.Asked(index + 1, less)[|job.Asked(index + 1, less)| - 1];
    } else {
      assert asked == [(index, job.RequestAt(index, room))];
      VisitLastKeeps(job, index, room);
    }
  }

  lemma VisitLastKeeps(job: Job, index: nat, room: nat)
    requires index < |job.names| && room > 0 && job.Visit(index, room).Gathered? && !job.GoesOn(index, room)
    ensures IsList(job.ReplyAt(index, room))
    ensures Keeps(job.Visit(index, room).template, job.ReplyAt(index, room).body.value.fields, {"continue"})
  {
    var one := job.ReadOne(index, room);
    var page := one.page;
    MetadataKeeps(page, page, "continue", job.Resume(index, one.next), {});
    MetadataKeeps(page, page, "continue", job.Resume(index + 1, EMPTY), {});
    assert {} + {"continue"} == {"continue"};
  }

  /** A page is the list of the target that was read last around its entries, with a token and a version of its
  own. */
  lemma PageKeeps(names: seq<string>, query: Query, answers: Answers)
    requires |names| > 0 && Admit(names, query, answers).Admitted? && PageOutcome(names, query, answers).Page?
    ensures var (job, limit) := (Admit(names, query, answers).job, Admit(names, query, answers).limit);
            var asked := job.Asked(job.cursor.target, limit);
            && |asked| > 0 && IsList(AnswerTo(job, asked, |asked| - 1))
            && Keeps(PageOutcome(names, query, answers).payload,
                     AnswerTo(job, asked, |asked| - 1).body.value.fields, {"continue", "resourceVersion"})
  {
    var (job, limit) := (Admit(names, query, answers).job, Admit(names, query, answers).limit);
    VisitKeeps(job, job.cursor.target, limit);
    var asked, visited := job.Asked(job.cursor.target, limit), job.Visit(job.cursor.target, limit);
    var sent := AnswerTo(job, asked, |asked| - 1).body.value.fields;
    EntriesKeep(visited.template, sent, visited.items, {"continue"});
    MetadataKeeps(WithEntries(visited.template, visited.items), sent, "resourceVersion", Vector(job.versions),
                  {"continue"});
    assert {"continue"} + {"resourceVersion"} == {"continue", "resourceVersion"};
  }
}
