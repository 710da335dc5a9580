/** Opening the streams of an aggregate watch (internal/proxy/watch.go): one goroutine per target dials and
reports its completion; the first failure reported makes the opener cancel every dial; the opener returns
when all goroutines are done. After a failure the handler closes whatever did open. */
module OpenRun {
  import opened Wire

  datatype Dialer =
    | Dialing
    | Settled          // its result is recorded, the completion not yet sent
    | Reported         // the completion is sent
    | Finished         // it has left the wait group

  datatype Result = Unset | Opened | Failed

  datatype Main =
    | Receiving
    | Striking(next: nat)          // cancelling every dial, after the first failure
    | Closing(next: nat)           // the handler closes what was opened
    | Answered                     // the failure is reported to the client
    | Streaming                    // every target has an open stream

  datatype State = State(
    dialers: seq<Dialer>,
    results: seq<Result>,
    inbox: set<nat>,               // completions sent and not received; at most one per target fits
    received: set<nat>,
    failure: Option<nat>,
    struck: seq<bool>,             // the opener has cancelled this dial
    bodies: seq<nat>,              // response bodies handed out
    closed: seq<nat>,              // response bodies closed
    released: seq<bool>,           // the dial's cancel function has been called
    clientGone: bool,
    main: Main)

  datatype Outcome = Open | Refuse | Break      // a 2xx answer, any other answer, a transport error

  datatype Step =
    | Dial(i: nat, outcome: Outcome)
    | Report(i: nat)
    | Finish(i: nat)
    | Receive(i: nat)
    | Advance
    | Disconnect

  ghost predicate Shaped(n: nat, s: State) {
    && n > 0
    && |s.dialers| == |s.results| == |s.struck| == |s.bodies| == |s.closed| == |s.released| == n
    && ((s.main.Striking? || s.main.Closing?) ==> s.main.next <= n)
  }

  ghost predicate Init(n: nat, s: State) {
    && Shaped(n, s)
    && (forall i :: 0 <= i < n ==>
          && s.dialers[i] == Dialing && s.results[i] == Unset && !s.struck[i]
          && s.bodies[i] == 0 && s.closed[i] == 0 && !s.released[i])
    && s.inbox == {} && s.received == {} && s.failure == None && s.main == Receiving
  }

  ghost predicate AllFinished(s: State) {
    forall i :: 0 <= i < |s.dialers| ==> s.dialers[i].Finished?
  }

  ghost predicate Enabled(n: nat, s: State, step: Step)
    requires Shaped(n, s)
  {
    match step
    case Dial(i, _) => i < n && s.dialers[i].Dialing?
    case Report(i) => i < n && s.dialers[i].Settled? && |s.inbox| < n
    case Finish(i) => i < n && s.dialers[i].Reported?
    case Receive(i) => s.main.Receiving? && |s.received| < n && i in s.inbox && i < n
    case Advance =>
      (match s.main
       case Receiving => |s.received| == n && AllFinished(s)
       case Striking(_) => true
       case Closing(_) => true
       case Answered => false
       case Streaming => false)
    case Disconnect => true
  }

  ghost function Next(n: nat, s: State, step: Step): (t: State)
    requires Shaped(n, s) && Enabled(n, s, step)
    ensures Shaped(n, t)
  {
    match step
    case Dial(i, outcome) =>
      s.(dialers := s.dialers[i := Settled],
         results := s.results[i := if outcome.Open? then Opened else Failed],
         bodies := s.bodies[i := s.bodies[i] + (if outcome.Break? then 0 else 1)],
         closed := s.closed[i := s.closed[i] + (if outcome.Refuse? then 1 else 0)],
         released := s.released[i := s.released[i] || !outcome.Open?])
    case Report(i) => s.(dialers := s.dialers[i := Reported], inbox := s.inbox + {i})
    case Finish(i) => s.(dialers := s.dialers[i := Finished])
    case Receive(i) =>
      var t := s.(inbox := s.inbox - {i}, received := s.received + {i});
      if s.failure.None? && s.results[i].Failed? then t.(failure := Some(i), main := Striking(0)) else t
    case Advance =>
      (match s.main
       case Receiving => s.(main := if s.failure.Some? then Closing(0) else Streaming)
       case Striking(next) =>
         if next < n then
           s.(struck := s.struck[next := true], released := s.released[next := true], main := Striking(next + 1))
         else s.(main := Receiving)
       case Closing(next) =>
         if next < n then
           if s.results[next].Opened? then
             s.(closed := s.closed[next := s.closed[next] + 1], released := s.released[next := true],
                main := Closing(next + 1))
           else s.(main := Closing(next + 1))
         else s.(main := Answered)
       case Answered => s
       case Streaming => s)
    case Disconnect => s.(clientGone := true)
  }

  // ----- invariants

  /** Every completion is sent once and received once. */
  ghost predicate ChannelInv(n: nat, s: State)
    requires Shaped(n, s)
  {
    && s.inbox !! s.received
    && (forall i: nat :: (i in s.inbox || i in s.received) <==>
          i < n && (s.dialers[i].Reported? || s.dialers[i].Finished?))
    && (s.main.Closing? || s.main.Answered? || s.main.Streaming? ==> AllFinished(s) && |s.received| == n)
  }

  ghost predicate ResultInv(n: nat, s: State)
    requires Shaped(n, s)
  {
    forall i :: 0 <= i < n ==> (s.results[i].Unset? <==> s.dialers[i].Dialing?)
  }

  /** The reported failure is a failure that was received; without one nothing has been cancelled. */
  ghost predicate FailureInv(n: nat, s: State)
    requires Shaped(n, s)
  {
    && (s.failure.Some? ==>
          s.failure.value < n && s.results[s.failure.value].Failed? && s.failure.value in s.received)
    && (s.failure.None? ==>
          (forall i :: 0 <= i < n ==> !s.struck[i])
          && (forall i: nat :: i in s.received && i < n ==> s.results[i].Opened?)
          && !s.main.Striking? && !s.main.Closing? && !s.main.Answered?)
    && (s.failure.Some? ==> !s.main.Streaming?)
    && (s.failure.Some? && !s.main.Striking? ==> forall i :: 0 <= i < n ==> s.struck[i])
    && (s.main.Striking? ==> forall i :: 0 <= i < s.main.next ==> s.struck[i])
  }

  /** How often the body of target `i` has been opened and closed, and whether its cancel function was called. */
  ghost predicate BodyInv(n: nat, s: State)
    requires Shaped(n, s)
  {
    forall i :: 0 <= i < n ==> BodyAt(s, i, Done(n, s))
  }

  /** How far the handler has come with closing. */
  function Done(n: nat, s: State): nat {
    if s.main.Answered? then n else if s.main.Closing? then s.main.next else 0
  }

  ghost predicate BodyAt(s: State, i: nat, done: nat)
    requires i < |s.results| == |s.bodies| == |s.closed| == |s.released|
  {
    match s.results[i]
    case Unset => s.bodies[i] == 0 && s.closed[i] == 0
    case Opened => s.bodies[i] == 1 && s.closed[i] == (if i < done then 1 else 0) && (i < done ==> s.released[i])
    case Failed => s.bodies[i] == s.closed[i] <= 1 && s.released[i]
  }

  ghost predicate Inv(n: nat, s: State) {
    Shaped(n, s) && ChannelInv(n, s) && ResultInv(n, s) && FailureInv(n, s) && BodyInv(n, s)
  }

  lemma InitInv(n: nat, s: State)
    requires Init(n, s)
    ensures Inv(n, s)
  {
    forall i | 0 <= i < n
      ensures BodyAt(s, i, Done(n, s))
    {
    }
  }

  lemma ChannelStep(n: nat, s: State, step: Step)
    requires Shaped(n, s) && ChannelInv(n, s) && Enabled(n, s, step)
    ensures Shaped(n, Next(n, s, step)) && ChannelInv(n, Next(n, s, step))
  {
    var t := Next(n, s, step);
    forall i: nat
      ensures (i in t.inbox || i in t.received) <==> i < n && (t.dialers[i].Reported? || t.dialers[i].Finished?)
      ensures !(i in t.inbox && i in t.received)
    {
      ChannelOne(n, s, step, i);
    }
    ChannelEnds(n, s, step);
  }

  lemma ChannelOne(n: nat, s: State, step: Step, i: nat)
    requires Shaped(n, s) && ChannelInv(n, s) && Enabled(n, s, step)
    ensures var t := Next(n, s, step);
            && |t.dialers| == n
            && ((i in t.inbox || i in t.received) <==> i < n && (t.dialers[i].Reported? || t.dialers[i].Finished?))
            && !(i in t.inbox && i in t.received)
  {
    assert (i in s.inbox || i in s.received) <==> i < n && (s.dialers[i].Reported? || s.dialers[i].Finished?);
    if i < n { ResultMoves(n, s, step, i); }
  }

  /** Past the opener nothing more is sent or received. */
  lemma ChannelEnds(n: nat, s: State, step: Step)
    requires Shaped(n, s) && ChannelInv(n, s) && Enabled(n, s, step)
    ensures var t := Next(n, s, step);
            t.main.Closing? || t.main.Answered? || t.main.Streaming? ==> AllFinished(t) && |t.received| == n
  {
  }

  lemma ResultStep(n: nat, s: State, step: Step)
    requires Shaped(n, s) && ResultInv(n, s) && Enabled(n, s, step)
    ensures Shaped(n, Next(n, s, step)) && ResultInv(n, Next(n, s, step))
  {
    var t := Next(n, s, step);
    forall i | 0 <= i < n
      ensures t.results[i].Unset? <==> t.dialers[i].Dialing?
    {
      assert s.results[i].Unset? <==> s.dialers[i].Dialing?;
      ResultMoves(n, s, step, i);
    }
  }

  /** How one step moves a goroutine and its result. */
  lemma ResultMoves(n: nat, s: State, step: Step, i: nat)
    requires Shaped(n, s) && Enabled(n, s, step) && i < n
    ensures var t := Next(n, s, step);
            && |t.dialers| == |t.results| == n
            && (step.Dial? && step.i == i ==> t.dialers[i].Settled? && !t.results[i].Unset?)
            && (!(step.Dial? && step.i == i) ==> t.results[i] == s.results[i])
            && (step.Report? && step.i == i ==> t.dialers[i].Reported?)
            && (step.Finish? && step.i == i ==> t.dialers[i].Finished?)
            && (!((step.Dial? || step.Report? || step.Finish?) && step.i == i) ==> t.dialers[i] == s.dialers[i])
  {
    StepSets(n, s, step);
  }

  lemma StepSets(n: nat, s: State, step: Step)
    requires Shaped(n, s) && Enabled(n, s, step)
    ensures var t := Next(n, s, step);
            match step
            case Dial(k, outcome) =>
              && t.dialers == s.dialers[k := Settled]
              && t.results == s.results[k := if outcome.Open? then Opened else Failed]
            case Report(k) => t.dialers == s.dialers[k := Reported] && t.results == s.results
            case Finish(k) => t.dialers == s.dialers[k := Finished] && t.results == s.results
            case _ => t.dialers == s.dialers && t.results == s.results
  {
  }

  lemma FailureDial(n: nat, s: State, step: Step)
    requires Inv(n, s) && Enabled(n, s, step) && step.Dial?
    ensures Shaped(n, Next(n, s, step)) && FailureInv(n, Next(n, s, step))
  {
  }

  lemma FailureReceive(n: nat, s: State, step: Step)
    requires Inv(n, s) && Enabled(n, s, step) && step.Receive?
    ensures Shaped(n, Next(n, s, step)) && FailureInv(n, Next(n, s, step))
  {
    assert s.dialers[step.i].Reported? || s.dialers[step.i].Finished?;
    assert !s.results[step.i].Unset?;
  }

  lemma FailureAdvance(n: nat, s: State, step: Step)
    requires Inv(n, s) && Enabled(n, s, step) && step.Advance?
    ensures Shaped(n, Next(n, s, step)) && FailureInv(n, Next(n, s, step))
  {
  }

  lemma FailureStep(n: nat, s: State, step: Step)
    requires Inv(n, s) && Enabled(n, s, step)
    ensures Shaped(n, Next(n, s, step)) && FailureInv(n, Next(n, s, step))
  {
    match step {
      case Dial(_, _) => FailureDial(n, s, step);
      case Receive(_) => FailureReceive(n, s, step);
      case Advance => FailureAdvance(n, s, step);
      case Report(_) =>
      case Finish(_) =>
      case Disconnect =>
    }
  }

  lemma BodyStep(n: nat, s: State, step: Step)
    requires Inv(n, s) && Enabled(n, s, step)
    ensures Shaped(n, Next(n, s, step)) && BodyInv(n, Next(n, s, step))
  {
    forall i | 0 <= i < n
      ensures BodyAt(Next(n, s, step), i, Done(n, Next(n, s, step)))
    {
      BodyOne(n, s, step, i);
    }
  }

  lemma BodyOne(n: nat, s: State, step: Step, i: nat)
    requires Inv(n, s) && Enabled(n, s, step) && i < n
    ensures Shaped(n, Next(n, s, step)) && BodyAt(Next(n, s, step), i, Done(n, Next(n, s, step)))
  {
    assert BodyAt(s, i, Done(n, s));
    match step {
      case Dial(_, _) => BodyDial(n, s, step, i);
      case Advance => BodyAdvance(n, s, step, i);
      case Report(_) =>
      case Finish(_) =>
      case Receive(_) =>
      case Disconnect =>
    }
  }

  lemma BodyDial(n: nat, s: State, step: Step, i: nat)
    requires Shaped(n, s) && ResultInv(n, s) && i < n && BodyAt(s, i, Done(n, s))
    requires step.Dial? && Enabled(n, s, step) && (s.main.Closing? || s.main.Answered? ==> AllFinished(s))
    ensures Shaped(n, Next(n, s, step)) && BodyAt(Next(n, s, step), i, Done(n, Next(n, s, step)))
  {
    assert s.results[step.i].Unset?;
  }

  lemma BodyAdvance(n: nat, s: State, step: Step, i: nat)
    requires Shaped(n, s) && i < n && BodyAt(s, i, Done(n, s)) && step.Advance? && Enabled(n, s, step)
    ensures Shaped(n, Next(n, s, step)) && BodyAt(Next(n, s, step), i, Done(n, Next(n, s, step)))
  {
    if s.main.Closing? { BodyClosing(n, s, step, i); }
  }

  lemma BodyClosing(n: nat, s: State, step: Step, i: nat)
    requires Shaped(n, s) && i < n && BodyAt(s, i, Done(n, s)) && step.Advance? && s.main.Closing?
    ensures Shaped(n, Next(n, s, step)) && BodyAt(Next(n, s, step), i, Done(n, Next(n, s, step)))
  {
  }

  lemma StepInv(n: nat, s: State, step: Step)
    requires Inv(n, s) && Enabled(n, s, step)
    ensures Inv(n, Next(n, s, step))
  {
    ChannelStep(n, s, step);
    ResultStep(n, s, step);
    FailureStep(n, s, step);
    BodyStep(n, s, step);
  }

  ghost predicate Run(n: nat, s: State, steps: seq<Step>, t: State)
    decreases |steps|
  {
    && Shaped(n, s)
    && if steps == [] then s == t
       else Enabled(n, s, steps[0]) && Run(n, Next(n, s, steps[0]), steps[1..], t)
  }

  lemma {:induction false} RunInv(n: nat, s: State, steps: seq<Step>, t: State)
    requires Inv(n, s) && Run(n, s, steps, t)
    ensures Inv(n, t)
    decreases |steps|
  {
    if steps != [] {
      StepInv(n, s, steps[0]);
      RunInv(n, Next(n, s, steps[0]), steps[1..], t);
    }
  }

  // ----- what every run guarantees

  lemma {:induction false} Below(n: nat) returns (all: set<nat>)
    ensures |all| == n && forall i: nat :: i in all <==> i < n
  {
    if n == 0 { all := {}; }
    else {
      var fewer := Below(n - 1);
      all := fewer + {n - 1};
    }
  }

  lemma SubsetIsAll(a: set<nat>, b: set<nat>)
    requires a <= b && |a| >= |b|
    ensures a == b
  {
    if x :| x in b && x !in a {
      SubsetSize(a, b - {x});
    }
  }

  lemma {:induction false} SubsetSize(a: set<nat>, b: set<nat>)
    requires a <= b
    ensures |a| <= |b|
  {
    if a != {} {
      var x :| x in a;
      SubsetSize(a - {x}, b - {x});
    }
  }

  /** Every run that gets past the opener has received exactly one completion from every target, and every
  goroutine is done. */
  lemma OneCompletionEach(n: nat, s: State)
    requires Inv(n, s) && (s.main.Closing? || s.main.Answered? || s.main.Streaming?)
    ensures AllFinished(s) && s.inbox == {} && forall i: nat :: i in s.received <==> i < n
  {
    var all := Below(n);
    SubsetIsAll(s.received, all);
  }

  /** Of the targets whose completion is received, the first that has not answered 2xx. */
  function FirstToFail(steps: seq<Step>, heard: map<nat, Outcome>): Option<nat> {
    if steps == [] then None
    else
      match steps[0]
      case Dial(i, outcome) => FirstToFail(steps[1..], heard[i := outcome])
      case Receive(i) =>
        if i in heard && !heard[i].Open? then Some(i) else FirstToFail(steps[1..], heard)
      case _ => FirstToFail(steps[1..], heard)
  }

  /** The target was dialled to the end before the opener had cancelled anything. */
  predicate EndedByItself(steps: seq<Step>, i: nat) {
    && steps != []
    && ((steps[0].Dial? && steps[0].i == i) || (!steps[0].Advance? && EndedByItself(steps[1..], i)))
  }

  lemma {:induction false} FailureStays(n: nat, s: State, steps: seq<Step>, t: State)
    requires Run(n, s, steps, t) && s.failure.Some?
    ensures t.failure == s.failure
    decreases |steps|
  {
    if steps != [] { FailureStays(n, Next(n, s, steps[0]), steps[1..], t); }
  }

  lemma {:induction false} FailureIsFirst(n: nat, s: State, steps: seq<Step>, t: State, heard: map<nat, Outcome>)
    requires Inv(n, s) && Run(n, s, steps, t) && s.failure.None?
    requires forall i: nat :: i < n ==> ResultIs(s, i, if i in heard then Some(heard[i]) else None)
    ensures t.failure == FirstToFail(steps, heard)
    decreases |steps|
  {
    if steps != [] {
      var step, next := steps[0], Next(n, s, steps[0]);
      StepInv(n, s, step);
      var now := if step.Dial? then heard[step.i := step.outcome] else heard;
      forall i: nat | i < n
        ensures ResultIs(next, i, if i in now then Some(now[i]) else None)
      {
        ResultMoves(n, s, step, i);
        DialSets(n, s, step, i);
      }
      if next.failure.None? {
        FailureIsFirst(n, next, steps[1..], t, now);
      } else {
        FailureStays(n, next, steps[1..], t);
      }
    }
  }

  lemma {:induction false} FailureEndedByItself(n: nat, s: State, steps: seq<Step>, t: State, i: nat)
    requires Inv(n, s) && Run(n, s, steps, t) && i < n
    requires s.failure.None? && s.dialers[i].Dialing? && t.failure == Some(i)
    ensures EndedByItself(steps, i)
    decreases |steps|
  {
    var next := Next(n, s, steps[0]);
    StepInv(n, s, steps[0]);
    ResultMoves(n, s, steps[0], i);
    if next.failure.Some? {
      FailureStays(n, next, steps[1..], t);
    } else if next.dialers[i].Dialing? {
      FailureEndedByItself(n, next, steps[1..], t, i);
    }
  }

  /** The opener succeeds exactly when every target has an open stream; otherwise it reports the first target
  received that failed, and that failure was not caused by the opener's own cancelling. */
  lemma HonestOutcome(n: nat, s: State, steps: seq<Step>, t: State)
    requires Init(n, s) && Run(n, s, steps, t) && (t.main.Closing? || t.main.Answered? || t.main.Streaming?)
    ensures Shaped(n, t)
    ensures t.main.Streaming? <==> forall i :: 0 <= i < n ==> t.results[i].Opened?
    ensures !t.main.Streaming? ==>
              t.failure.Some? && t.failure.value < n
              && t.results[t.failure.value].Failed? && EndedByItself(steps, t.failure.value)
    ensures t.failure == FirstToFail(steps, map[])
  {
    InitInv(n, s);
    RunInv(n, s, steps, t);
    OneCompletionEach(n, t);
    FailureIsFirst(n, s, steps, t, map[]);
    if t.failure.Some? { FailureEndedByItself(n, s, steps, t, t.failure.value); }
  }

  /** When the failure has been reported, every body that was ever opened has been closed exactly once and
  every cancel function called; when streaming begins, every body is open and none closed. */
  lemma BodiesAccountedFor(n: nat, s: State, steps: seq<Step>, t: State)
    requires Init(n, s) && Run(n, s, steps, t)
    ensures Shaped(n, t)
    ensures t.main.Answered? ==> forall i :: 0 <= i < n ==> t.bodies[i] == t.closed[i] <= 1 && t.released[i]
    ensures t.main.Streaming? ==> forall i :: 0 <= i < n ==> t.bodies[i] == 1 && t.closed[i] == 0
  {
    InitInv(n, s);
    RunInv(n, s, steps, t);
    if t.main.Streaming? || t.main.Answered? {
      OneCompletionEach(n, t);
      forall i | 0 <= i < n
        ensures t.main.Answered? ==> t.bodies[i] == t.closed[i] <= 1 && t.released[i]
        ensures t.main.Streaming? ==> t.bodies[i] == 1 && t.closed[i] == 0
      {
        assert BodyAt(t, i, Done(n, t)) && !t.results[i].Unset?;
      }
    }
  }

  /** What target `i` answered, if it has. */
  function AnswerOf(steps: seq<Step>, i: nat, earlier: Option<Outcome>): Option<Outcome> {
    if steps == [] then earlier
    else
      AnswerOf(steps[1..], i, if steps[0].Dial? && steps[0].i == i then Some(steps[0].outcome) else earlier)
  }

  /** A result is what the target answered: open only for a 2xx answer. */
  ghost predicate ResultIs(s: State, i: nat, answer: Option<Outcome>)
    requires i < |s.results|
  {
    match answer
    case None => s.results[i].Unset?
    case Some(outcome) => if outcome.Open? then s.results[i].Opened? else s.results[i].Failed?
  }

  lemma {:induction false} ResultsAreAnswers(n: nat, s: State, steps: seq<Step>, t: State, i: nat,
                                             earlier: Option<Outcome>)
    requires Inv(n, s) && Run(n, s, steps, t) && i < n && ResultIs(s, i, earlier)
    ensures Shaped(n, t) && ResultIs(t, i, AnswerOf(steps, i, earlier))
    decreases |steps|
  {
    if steps != [] {
      StepInv(n, s, steps[0]);
      ResultMoves(n, s, steps[0], i);
      DialSets(n, s, steps[0], i);
      ResultsAreAnswers(n, Next(n, s, steps[0]), steps[1..], t, i,
                        if steps[0].Dial? && steps[0].i == i then Some(steps[0].outcome) else earlier);
    }
  }

  lemma DialSets(n: nat, s: State, step: Step, i: nat)
    requires Shaped(n, s) && Enabled(n, s, step) && i < n
    ensures step.Dial? && step.i == i ==> ResultIs(Next(n, s, step), i, Some(step.outcome))
  {
  }

  ghost predicate AllOpen(n: nat, steps: seq<Step>) {
    forall i: nat :: i < n ==> AnswersOpen(steps, i)
  }

  predicate AnswersOpen(steps: seq<Step>, i: nat) { AnswerOf(steps, i, None) == Some(Open) }

  /** The watch streams exactly when every target has answered 2xx; in any other case that is through, some target
  has answered otherwise, or not at all, and the failure reported is that of such a target. */
  lemma OutcomeIsAnswers(n: nat, s: State, steps: seq<Step>, t: State)
    requires Init(n, s) && Run(n, s, steps, t) && (t.main.Closing? || t.main.Answered? || t.main.Streaming?)
    ensures t.main.Streaming? <==> AllOpen(n, steps)
    ensures !t.main.Streaming? ==>
              t.failure.Some? && AnswerOf(steps, t.failure.value, None) in {Some(Refuse), Some(Break)}
  {
    HonestOutcome(n, s, steps, t);
    InitInv(n, s);
    forall i: nat | i < n
      ensures ResultIs(t, i, AnswerOf(steps, i, None)) && (t.results[i].Opened? <==> AnswersOpen(steps, i))
    {
      ResultsAreAnswers(n, s, steps, t, i, None);
    }
    if AllOpen(n, steps) {
      forall i | 0 <= i < n
        ensures t.results[i].Opened?
      {
        assert AnswersOpen(steps, i);
      }
    }
  }

  // ----- termination

  /** Steps that need nobody but the proxy itself: a cancelled dial comes back by itself. */
  ghost predicate Local(s: State, step: Step) {
    match step
    case Dial(i, outcome) => outcome.Break? && (s.clientGone || (i < |s.struck| && s.struck[i]))
    case Disconnect => false
    case _ => true
  }

  /** Nothing to do but wait for some target to answer; no failure has been seen so far. */
  ghost predicate AwaitsTargets(n: nat, s: State)
    requires Shaped(n, s)
  {
    && s.main.Receiving? && s.failure.None? && !s.clientGone
    && exists i :: 0 <= i < n && s.dialers[i].Dialing?
  }

  lemma InboxHasRoom(n: nat, s: State, i: nat)
    requires Inv(n, s) && i < n && s.dialers[i].Settled?
    ensures |s.inbox| < n
  {
    var all := Below(n);
    SubsetSize(s.inbox, all - {i});
  }

  lemma SomeoneMissing(n: nat, s: State)
    requires Inv(n, s) && |s.received| < n
    ensures exists i: nat :: i < n && i !in s.received
  {
    var all := Below(n);
    if all <= s.received { SubsetSize(all, s.received); }
    var i :| i in all && i !in s.received;
  }

  /** No deadlock: until the opener is through and a failure has been cleaned up, either the proxy can take
  a step of its own, or it waits for targets that have not answered and no failure has been seen. */
  lemma NoDeadlock(n: nat, s: State)
    requires Inv(n, s) && !s.main.Answered? && !s.main.Streaming? && !AwaitsTargets(n, s)
    ensures exists step :: Local(s, step) && Enabled(n, s, step)
  {
    if s.main.Striking? || s.main.Closing? {
      assert Local(s, Advance) && Enabled(n, s, Advance);
    } else if i :| 0 <= i < n && s.dialers[i].Settled? {
      InboxHasRoom(n, s, i);
      assert Local(s, Report(i)) && Enabled(n, s, Report(i));
    } else if i :| 0 <= i < n && s.dialers[i].Reported? {
      assert Local(s, Finish(i)) && Enabled(n, s, Finish(i));
    } else if i :| 0 <= i < n && s.dialers[i].Dialing? {
      assert Local(s, Dial(i, Break)) && Enabled(n, s, Dial(i, Break));
    } else if |s.received| < n {
      SomeoneMissing(n, s);
      var i: nat :| i < n && i !in s.received;
      assert s.dialers[i].Finished?;
      assert Local(s, Receive(i)) && Enabled(n, s, Receive(i));
    } else {
      var all := Below(n);
      SubsetSize(s.received, all);
      assert Local(s, Advance) && Enabled(n, s, Advance);
    }
  }

  function DialerRank(d: Dialer): nat {
    match d
    case Dialing => 3
    case Settled => 2
    case Reported => 1
    case Finished => 0
  }

  function Weight(dialers: seq<Dialer>): nat {
    if dialers == [] then 0 else DialerRank(dialers[0]) + Weight(dialers[1..])
  }

  lemma {:induction false} WeightUpdate(dialers: seq<Dialer>, i: nat, d: Dialer)
    requires i < |dialers|
    ensures Weight(dialers[i := d]) + DialerRank(dialers[i]) == Weight(dialers) + DialerRank(d)
  {
    if i == 0 {
      assert dialers[i := d][1..] == dialers[1..];
    } else {
      WeightUpdate(dialers[1..], i - 1, d);
      assert dialers[i := d][1..] == dialers[1..][i - 1 := d];
    }
  }

  function Rank(n: nat, s: State): int {
    Weight(s.dialers) +
    match s.main
    case Receiving => n - |s.received| + (if s.failure.None? then 2 * n + 5 else n + 3)
    case Striking(next) => n - |s.received| + (n + 1 - next) + n + 3
    case Closing(next) => n + 1 - next
    case Answered => 0
    case Streaming => 0
  }

  lemma DialerRankDrops(n: nat, s: State, step: Step)
    requires Inv(n, s) && Enabled(n, s, step) && (step.Dial? || step.Report? || step.Finish?)
    ensures Rank(n, Next(n, s, step)) < Rank(n, s)
  {
    WeightUpdate(s.dialers, step.i, Next(n, s, step).dialers[step.i]);
  }

  lemma ReceiveRankDrops(n: nat, s: State, step: Step)
    requires Inv(n, s) && Enabled(n, s, step) && step.Receive?
    ensures Rank(n, Next(n, s, step)) < Rank(n, s)
  {
    assert step.i !in s.received;
    assert |s.received + {step.i}| == |s.received| + 1;
  }

  lemma RankDrops(n: nat, s: State, step: Step)
    requires Inv(n, s) && Enabled(n, s, step) && !step.Disconnect?
    ensures Rank(n, Next(n, s, step)) < Rank(n, s)
  {
    match step {
      case Dial(_, _) => DialerRankDrops(n, s, step);
      case Report(_) => DialerRankDrops(n, s, step);
      case Finish(_) => DialerRankDrops(n, s, step);
      case Receive(_) => ReceiveRankDrops(n, s, step);
      case Advance =>
    }
  }

  lemma RankNatural(n: nat, s: State)
    requires Inv(n, s)
    ensures Rank(n, s) >= 0
  {
    var all := Below(n);
    SubsetSize(s.received, all);
  }

  lemma {:induction false} StartWeight(dialers: seq<Dialer>)
    requires forall i :: 0 <= i < |dialers| ==> dialers[i].Dialing?
    ensures Weight(dialers) == 3 * |dialers|
  {
    if dialers != [] { StartWeight(dialers[1..]); }
  }

  /** How many steps are not the client's: the client may leave at any time. */
  function Own(steps: seq<Step>): nat {
    if steps == [] then 0 else (if steps[0].Disconnect? then 0 else 1) + Own(steps[1..])
  }

  lemma {:induction false} RunIsFinite(n: nat, s: State, steps: seq<Step>, t: State)
    requires Inv(n, s) && Run(n, s, steps, t)
    ensures Own(steps) <= Rank(n, s)
    decreases |steps|
  {
    RankNatural(n, s);
    if steps != [] {
      StepInv(n, s, steps[0]);
      if !steps[0].Disconnect? { RankDrops(n, s, steps[0]); }
      RunIsFinite(n, Next(n, s, steps[0]), steps[1..], t);
    }
  }

  /** Opening never goes on for ever, whether the client stays or leaves: at most six steps per target and
  five more, apart from the client's leaving. */
  lemma OpeningIsFinite(n: nat, s: State, steps: seq<Step>, t: State)
    requires Init(n, s) && Run(n, s, steps, t)
    ensures Own(steps) <= 6 * n + 5
  {
    InitInv(n, s);
    StartWeight(s.dialers);
    RunIsFinite(n, s, steps, t);
  }

  /** The counting loop of the opener by itself: given the order in which completions arrive, it remembers
  the first one that failed. */
  method AwaitCompletions(order: seq<nat>, failed: seq<bool>) returns (failureIndex: int)
    requires forall k :: 0 <= k < |order| ==> order[k] < |failed|
    ensures failureIndex < 0 <==> forall k :: 0 <= k < |order| ==> !failed[order[k]]
    ensures failureIndex >= 0 ==>
              exists k :: 0 <= k < |order| && order[k] == failureIndex && failed[order[k]]
                          && forall j :: 0 <= j < k ==> !failed[order[j]]
  {
    failureIndex := -1;
    for k := 0 to |order|
      invariant failureIndex < 0 <==> forall j :: 0 <= j < k ==> !failed[order[j]]
      invariant failureIndex >= 0 ==>
                  exists j :: 0 <= j < k && order[j] == failureIndex && failed[order[j]]
                              && forall h :: 0 <= h < j ==> !failed[order[h]]
    {
      if failureIndex < 0 && failed[order[k]] {
        failureIndex := order[k];
      }
    }
  }
}
