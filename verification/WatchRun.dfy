/** The aggregate watch while its streams are open (internal/proxy/watch.go): one copying goroutine per
target, one shared version vector and one writer under a mutex, and a handler that waits for the first
stream to end, cancels the rest, closes every body and waits for every goroutine. */
module WatchRun {
  import opened Wire
  import opened Strings
  import opened Marking
  import opened WatchEvents

  /** The watched targets, everything each of them ever sends, and the vector the watch starts from. */
  datatype Config = Config(names: seq<string>, streams: seq<seq<Line>>, start: VersionVector)

  ghost predicate ValidConfig(c: Config) {
    && |c.names| == |c.streams| && |c.names| > 0
    && NoRepeats(c.names)
    && (forall name :: name in c.start <==> name in c.names)
  }

  /** Where a copying goroutine stands; `last` says that the read also reported the end of the stream. */
  datatype Pc =
    | Reading
    | Holding(line: Line, last: bool)        // a line was read, the mutex is not held
    | Locked(line: Line, last: bool)         // the mutex is held
    | Marked(line: Line, out: Line, last: bool)   // the vector has moved, nothing is written yet
    | Written(last: bool)                    // written, the mutex still held
    | Checking(last: bool)                   // about to look at the error and the context
    | Ending                                 // about to send on streamEnded
    | Signalled                              // sent, about to leave the wait group
    | Gone

  datatype Main = Waiting | Cancelling | Closing(next: nat) | Returned

  /** One line written to the client: where it came from, as read and as written. */
  datatype Out = Out(source: nat, read: Line, line: Line)

  datatype State = State(
    pcs: seq<Pc>,
    taken: seq<nat>,               // lines read from each stream
    vector: VersionVector,
    output: seq<Out>,
    mutex: Option<nat>,
    signals: nat,                  // what streamEnded holds
    cancelled: bool,
    main: Main,
    closed: seq<nat>,              // how often each body was closed
    released: seq<bool>)           // whether each stream's cancel function was called

  datatype Step =
    | Take(i: nat, last: bool)     // a line arrives
    | Fail(i: nat)                 // the read ends without a line
    | Lock(i: nat)
    | Mark(i: nat)
    | Write(i: nat)
    | Unlock(i: nat)
    | Check(i: nat)
    | Signal(i: nat)
    | Leave(i: nat)
    | Advance                      // the handler's own next step
    | ClientGone                   // the client's request is cancelled

  ghost predicate Shaped(c: Config, s: State) {
    && ValidConfig(c)
    && |s.pcs| == |s.taken| == |s.closed| == |s.released| == |c.names|
    && (forall i :: 0 <= i < |s.taken| ==> s.taken[i] <= |c.streams[i]|)
    && (s.main.Closing? ==> s.main.next <= |c.names|)
  }

  ghost predicate Init(c: Config, s: State) {
    && Shaped(c, s)
    && (forall i :: 0 <= i < |c.names| ==>
          s.pcs[i] == Reading && s.taken[i] == 0 && s.closed[i] == 0 && !s.released[i])
    && s.vector == c.start && s.output == [] && s.mutex == None && s.signals == 0
    && s.main == Waiting
  }

  ghost predicate Enabled(c: Config, s: State, step: Step)
    requires Shaped(c, s)
  {
    match step
    case Take(i, _) => i < |s.pcs| && s.pcs[i].Reading? && s.taken[i] < |c.streams[i]|
    case Fail(i) => i < |s.pcs| && s.pcs[i].Reading?
    case Lock(i) => i < |s.pcs| && s.pcs[i].Holding? && s.mutex == None
    case Mark(i) => i < |s.pcs| && s.pcs[i].Locked?
    case Write(i) => i < |s.pcs| && s.pcs[i].Marked?
    case Unlock(i) => i < |s.pcs| && s.pcs[i].Written?
    case Check(i) => i < |s.pcs| && s.pcs[i].Checking?
    case Signal(i) => i < |s.pcs| && s.pcs[i].Ending? && s.signals < |c.names|
    case Leave(i) => i < |s.pcs| && s.pcs[i].Signalled?
    case Advance =>
      (match s.main
       case Waiting => s.signals > 0
       case Cancelling => true
       case Closing(next) => next < |c.names| || forall i :: 0 <= i < |s.pcs| ==> s.pcs[i].Gone?
       case Returned => false)
    case ClientGone => true
  }

  ghost function Next(c: Config, s: State, step: Step): (t: State)
    requires Shaped(c, s) && Enabled(c, s, step)
    ensures Shaped(c, t)
  {
    match step
    case Take(i, last) =>
      s.(pcs := s.pcs[i := Holding(c.streams[i][s.taken[i]], last)], taken := s.taken[i := s.taken[i] + 1])
    case Fail(i) => s.(pcs := s.pcs[i := Checking(true)])
    case Lock(i) => s.(pcs := s.pcs[i := Locked(s.pcs[i].line, s.pcs[i].last)], mutex := Some(i))
    case Mark(i) =>
      var marked := MarkLine(s.pcs[i].line, c.names[i], s.vector);
      s.(pcs := s.pcs[i := Marked(s.pcs[i].line, marked.line, s.pcs[i].last)], vector := marked.versions)
    case Write(i) =>
      s.(pcs := s.pcs[i := Written(s.pcs[i].last)],
         output := s.output + [Out(i, s.pcs[i].line, s.pcs[i].out)])
    case Unlock(i) => s.(pcs := s.pcs[i := Checking(s.pcs[i].last)], mutex := None)
    case Check(i) => s.(pcs := s.pcs[i := if s.pcs[i].last || s.cancelled then Ending else Reading])
    case Signal(i) => s.(pcs := s.pcs[i := Signalled], signals := s.signals + 1)
    case Leave(i) => s.(pcs := s.pcs[i := Gone])
    case Advance =>
      (match s.main
       case Waiting => s.(main := Cancelling, signals := s.signals - 1)
       case Cancelling => s.(main := Closing(0), cancelled := true)
       case Closing(next) =>
         if next < |c.names| then
           s.(main := Closing(next + 1), closed := s.closed[next := s.closed[next] + 1],
              released := s.released[next := true])
         else s.(main := Returned))
    case ClientGone => s.(cancelled := true)
  }

  // ----- what has been written

  predicate Sourced(out: seq<Out>, n: nat) {
    forall o <- out :: o.source < n
  }

  /** The vector after these lines. */
  ghost function VectorAfter(c: Config, out: seq<Out>): VersionVector
    requires Sourced(out, |c.names|)
  {
    if out == [] then c.start
    else
      var last := out[|out| - 1];
      MarkLine(last.read, c.names[last.source], VectorAfter(c, out[..|out| - 1])).versions
  }

  /** The lines of one target, as read. */
  function FromTarget(out: seq<Out>, i: nat): seq<Line> {
    if out == [] then []
    else
      FromTarget(out[..|out| - 1], i) + (if out[|out| - 1].source == i then [out[|out| - 1].read] else [])
  }

  /** Every line carries the vector as of that very line. */
  ghost predicate Stamped(c: Config, out: seq<Out>) {
    && Sourced(out, |c.names|)
    && (forall k :: 0 <= k < |out| ==>
          out[k].line == MarkLine(out[k].read, c.names[out[k].source], VectorAfter(c, out[..k])).line)
  }

  // ----- invariants

  predicate Owns(pc: Pc) { pc.Locked? || pc.Marked? || pc.Written? }

  ghost predicate MutexInv(c: Config, s: State)
    requires Shaped(c, s)
  {
    && (s.mutex.Some? ==> s.mutex.value < |s.pcs|)
    && (forall i :: 0 <= i < |s.pcs| ==> (Owns(s.pcs[i]) <==> s.mutex == Some(i)))
  }

  /** The vector is the one after everything written, plus the line that is marked but not written. */
  ghost predicate VectorInv(c: Config, s: State)
    requires Shaped(c, s)
  {
    && Stamped(c, s.output)
    && var written := VectorAfter(c, s.output);
    if s.mutex.Some? && s.mutex.value < |s.pcs| && s.pcs[s.mutex.value].Marked? then
      var pc := s.pcs[s.mutex.value];
      MarkedLine(pc.out, s.vector) == MarkLine(pc.line, c.names[s.mutex.value], written)
    else s.vector == written
  }

  predicate Carrying(pc: Pc) { pc.Holding? || pc.Locked? || pc.Marked? }

  /** What was written of a target is what was read of it, without the line in hand. */
  ghost predicate OrderInv(c: Config, s: State)
    requires Shaped(c, s)
  {
    forall i :: 0 <= i < |s.pcs| ==> InOrder(c, s, i)
  }

  ghost predicate InOrder(c: Config, s: State, i: nat)
    requires Shaped(c, s) && i < |s.pcs|
  {
    if Carrying(s.pcs[i]) then
      && s.taken[i] > 0 && s.pcs[i].line == c.streams[i][s.taken[i] - 1]
      && FromTarget(s.output, i) == c.streams[i][..s.taken[i] - 1]
    else FromTarget(s.output, i) == c.streams[i][..s.taken[i]]
  }

  /** Bodies are closed once, cancel functions called, by the handler's loop and by nothing else. */
  ghost predicate CloseInv(c: Config, s: State)
    requires Shaped(c, s)
  {
    && var done := if s.main.Returned? then |c.names| else if s.main.Closing? then s.main.next else 0;
    && (forall i :: 0 <= i < |c.names| ==> s.closed[i] == (if i < done then 1 else 0) && s.released[i] == (i < done))
    && (s.main.Closing? || s.main.Returned? ==> s.cancelled)
    && (s.main.Returned? ==> forall i :: 0 <= i < |s.pcs| ==> s.pcs[i].Gone?)
  }

  function Weight(weigh: Pc -> nat, pcs: seq<Pc>): nat {
    if pcs == [] then 0 else weigh(pcs[0]) + Weight(weigh, pcs[1..])
  }

  lemma {:induction false} WeightUpdate(weigh: Pc -> nat, pcs: seq<Pc>, i: nat, pc: Pc)
    requires i < |pcs|
    ensures Weight(weigh, pcs[i := pc]) + weigh(pcs[i]) == Weight(weigh, pcs) + weigh(pc)
  {
    if i == 0 {
      assert pcs[i := pc][1..] == pcs[1..];
    } else {
      WeightUpdate(weigh, pcs[1..], i - 1, pc);
      assert pcs[i := pc][1..] == pcs[1..][i - 1 := pc];
    }
  }

  lemma {:induction false} WeightBelow(weigh: Pc -> nat, pcs: seq<Pc>, i: nat)
    requires forall pc :: weigh(pc) <= 1
    requires i < |pcs| && weigh(pcs[i]) == 0
    ensures Weight(weigh, pcs) < |pcs|
  {
    WeightAtMost(weigh, pcs);
    if i > 0 { WeightBelow(weigh, pcs[1..], i - 1); } else { WeightAtMost(weigh, pcs[1..]); }
  }

  lemma {:induction false} WeightAtMost(weigh: Pc -> nat, pcs: seq<Pc>)
    requires forall pc :: weigh(pc) <= 1
    ensures Weight(weigh, pcs) <= |pcs|
  {
    if pcs != [] { WeightAtMost(weigh, pcs[1..]); }
  }

  function HasSignalled(pc: Pc): nat { if pc.Signalled? || pc.Gone? then 1 else 0 }

  /** The channel holds one token for every goroutine that has signalled, but for the one the handler took. */
  ghost predicate SignalInv(c: Config, s: State)
    requires Shaped(c, s)
  {
    s.signals + (if s.main.Waiting? then 0 else 1) == Weight(HasSignalled, s.pcs)
  }

  ghost predicate Inv(c: Config, s: State) {
    && Shaped(c, s)
    && MutexInv(c, s) && VectorInv(c, s) && OrderInv(c, s) && CloseInv(c, s) && SignalInv(c, s)
  }

  lemma {:induction false} NoneSignalled(pcs: seq<Pc>)
    requires forall i :: 0 <= i < |pcs| ==> pcs[i].Reading?
    ensures Weight(HasSignalled, pcs) == 0
  {
    if pcs != [] { NoneSignalled(pcs[1..]); }
  }

  lemma InitInv(c: Config, s: State)
    requires Init(c, s)
    ensures Inv(c, s)
  {
    NoneSignalled(s.pcs);
  }

  lemma MutexStep(c: Config, s: State, step: Step)
    requires Inv(c, s) && Enabled(c, s, step)
    ensures Shaped(c, Next(c, s, step)) && MutexInv(c, Next(c, s, step))
  {
  }

  lemma AppendOut(c: Config, out: seq<Out>, o: Out)
    requires Stamped(c, out) && o.source < |c.names|
    requires o.line == MarkLine(o.read, c.names[o.source], VectorAfter(c, out)).line
    ensures Stamped(c, out + [o])
    ensures VectorAfter(c, out + [o]) == MarkLine(o.read, c.names[o.source], VectorAfter(c, out)).versions
  {
    var more := out + [o];
    assert more[..|more| - 1] == out;
    forall k | 0 <= k < |more|
      ensures more[k].line == MarkLine(more[k].read, c.names[more[k].source], VectorAfter(c, more[..k])).line
    {
      assert more[..k] == out[..k];
      if k == |out| { assert out[..k] == out; }
    }
  }

  lemma VectorStep(c: Config, s: State, step: Step)
    requires Inv(c, s) && Enabled(c, s, step)
    ensures Shaped(c, Next(c, s, step)) && VectorInv(c, Next(c, s, step))
  {
    if step.Write? {
      AppendOut(c, s.output, Out(step.i, s.pcs[step.i].line, s.pcs[step.i].out));
    }
  }

  lemma FromTargetAppend(out: seq<Out>, o: Out, i: nat)
    ensures FromTarget(out + [o], i) == FromTarget(out, i) + (if o.source == i then [o.read] else [])
  {
    assert (out + [o])[..|out + [o]| - 1] == out;
  }

  lemma OrderWrite(c: Config, s: State, step: Step, i: nat)
    requires Shaped(c, s) && step.Write? && Enabled(c, s, step) && i < |s.pcs| && InOrder(c, s, i)
    ensures Shaped(c, Next(c, s, step)) && InOrder(c, Next(c, s, step), i)
  {
    FromTargetAppend(s.output, Out(step.i, s.pcs[step.i].line, s.pcs[step.i].out), i);
    if i == step.i {
      var stream := c.streams[i];
      assert stream[..s.taken[i]] == stream[..s.taken[i] - 1] + [stream[s.taken[i] - 1]];
    }
  }

  lemma OrderRest(c: Config, s: State, step: Step, i: nat)
    requires Shaped(c, s) && !step.Write? && Enabled(c, s, step) && i < |s.pcs| && InOrder(c, s, i)
    ensures Shaped(c, Next(c, s, step)) && InOrder(c, Next(c, s, step), i)
  {
    var t := Next(c, s, step);
    assert t.output == s.output;
    if step.Advance? || step.ClientGone? || step.i != i {
      assert t.pcs[i] == s.pcs[i] && t.taken[i] == s.taken[i];
    }
  }

  lemma OrderStep(c: Config, s: State, step: Step)
    requires Inv(c, s) && Enabled(c, s, step)
    ensures Shaped(c, Next(c, s, step)) && OrderInv(c, Next(c, s, step))
  {
    forall i | 0 <= i < |s.pcs|
      ensures InOrder(c, Next(c, s, step), i)
    {
      assert InOrder(c, s, i);
      if step.Write? { OrderWrite(c, s, step, i); } else { OrderRest(c, s, step, i); }
    }
  }

  lemma CloseStep(c: Config, s: State, step: Step)
    requires Inv(c, s) && Enabled(c, s, step)
    ensures Shaped(c, Next(c, s, step)) && CloseInv(c, Next(c, s, step))
  {
  }

  lemma SignalStep(c: Config, s: State, step: Step)
    requires Inv(c, s) && Enabled(c, s, step)
    ensures Shaped(c, Next(c, s, step)) && SignalInv(c, Next(c, s, step))
  {
    if !step.Advance? && !step.ClientGone? {
      WeightUpdate(HasSignalled, s.pcs, step.i, Next(c, s, step).pcs[step.i]);
    }
  }

  lemma StepInv(c: Config, s: State, step: Step)
    requires Inv(c, s) && Enabled(c, s, step)
    ensures Inv(c, Next(c, s, step))
  {
    MutexStep(c, s, step);
    VectorStep(c, s, step);
    OrderStep(c, s, step);
    CloseStep(c, s, step);
    SignalStep(c, s, step);
  }

  // ----- runs

  ghost predicate Run(c: Config, s: State, steps: seq<Step>, t: State)
    decreases |steps|
  {
    && Shaped(c, s)
    && if steps == [] then s == t
       else Enabled(c, s, steps[0]) && Run(c, Next(c, s, steps[0]), steps[1..], t)
  }

  /** Every interleaving keeps the invariant, and what was written stays written. */
  lemma {:induction false} RunInv(c: Config, s: State, steps: seq<Step>, t: State)
    requires Inv(c, s) && Run(c, s, steps, t)
    ensures Inv(c, t) && s.output <= t.output
    decreases |steps|
  {
    if steps != [] {
      StepInv(c, s, steps[0]);
      RunInv(c, Next(c, s, steps[0]), steps[1..], t);
    }
  }

  /** In every interleaving, every line the client receives carries the vector as of that line, and each
  target's lines arrive unchanged in number and order. */
  lemma EveryLineStamped(c: Config, s: State, steps: seq<Step>, t: State)
    requires Init(c, s) && Run(c, s, steps, t)
    ensures Stamped(c, t.output)
    ensures forall i :: 0 <= i < |c.names| ==> FromTarget(t.output, i) <= c.streams[i]
  {
    InitInv(c, s);
    RunInv(c, s, steps, t);
    forall i | 0 <= i < |c.names|
      ensures FromTarget(t.output, i) <= c.streams[i]
    {
      assert InOrder(c, t, i);
    }
  }

  /** The version a target has reached after some of its lines. */
  function LastVersion(lines: seq<Line>, start: Text): Text {
    if lines == [] then start
    else if LineVersion(lines[|lines| - 1]).Some? then LineVersion(lines[|lines| - 1]).value
    else LastVersion(lines[..|lines| - 1], start)
  }

  lemma LastVersionNext(out: seq<Out>, i: nat, start: Text)
    requires out != []
    ensures var before, last := out[..|out| - 1], out[|out| - 1];
            LastVersion(FromTarget(out, i), start) ==
            if last.source == i && LineVersion(last.read).Some? then LineVersion(last.read).value
            else LastVersion(FromTarget(before, i), start)
  {
    var lines, last := FromTarget(out[..|out| - 1], i), out[|out| - 1];
    if last.source == i {
      assert FromTarget(out, i) == lines + [last.read];
      assert (lines + [last.read])[..|lines|] == lines;
    } else {
      assert FromTarget(out, i) == lines;
    }
  }

  /** The vector covers exactly the watched targets, and each coordinate is the version of that target's
  last versioned line, or the one the watch started from. */
  lemma {:induction false} VectorCoordinates(c: Config, out: seq<Out>)
    requires ValidConfig(c) && Sourced(out, |c.names|)
    ensures forall name :: name in VectorAfter(c, out) <==> name in c.names
    ensures forall i: nat :: i < |c.names| ==>
              VectorAfter(c, out)[c.names[i]] == LastVersion(FromTarget(out, i), c.start[c.names[i]])
  {
    if out != [] {
      var before, last := out[..|out| - 1], out[|out| - 1];
      VectorCoordinates(c, before);
      MarkLineMoves(last.read, c.names[last.source], VectorAfter(c, before));
      forall i: nat | i < |c.names|
        ensures VectorAfter(c, out)[c.names[i]] == LastVersion(FromTarget(out, i), c.start[c.names[i]])
      {
        LastVersionNext(out, i, c.start[c.names[i]]);
      }
    }
  }

  /** From one line to the next only the coordinate of the line's own target can move. */
  lemma OneCoordinateMoves(c: Config, out: seq<Out>, k: nat)
    requires ValidConfig(c) && Stamped(c, out) && k < |out|
    ensures forall name :: name in c.names && name != c.names[out[k].source] ==>
              name in VectorAfter(c, out[..k]) && name in VectorAfter(c, out[..k + 1])
              && VectorAfter(c, out[..k + 1])[name] == VectorAfter(c, out[..k])[name]
  {
    assert out[..k + 1][..k] == out[..k];
    VectorCoordinates(c, out[..k]);
    MarkLineMoves(out[k].read, c.names[out[k].source], VectorAfter(c, out[..k]));
  }

  // ----- shutdown

  /** When the handler has returned, in any interleaving, every body was closed exactly once, every cancel
  function called, and every goroutine is gone. */
  lemma ReturnedClean(c: Config, s: State, steps: seq<Step>, t: State)
    requires Init(c, s) && Run(c, s, steps, t) && t.main.Returned?
    ensures Shaped(c, t)
    ensures forall i :: 0 <= i < |c.names| ==> t.closed[i] == 1 && t.released[i] && t.pcs[i].Gone?
  {
    InitInv(c, s);
    RunInv(c, s, steps, t);
  }

  /** After the handler has returned nothing is ever written to the client again. */
  lemma {:induction false} SilentAfterReturn(c: Config, s: State, steps: seq<Step>, t: State)
    requires Inv(c, s) && s.main.Returned? && Run(c, s, steps, t)
    ensures t.output == s.output && t.main.Returned?
    decreases |steps|
  {
    if steps != [] {
      StepInv(c, s, steps[0]);
      SilentAfterReturn(c, Next(c, s, steps[0]), steps[1..], t);
    }
  }

  /** Steps that need nobody but the proxy itself: a read comes back by itself once its request is cancelled. */
  ghost predicate Local(s: State, step: Step) {
    && !step.Take? && !step.ClientGone?
    && (step.Fail? ==> s.cancelled)
  }

  /** Nothing to do but wait for the upstream servers. */
  ghost predicate Idle(s: State) {
    s.main.Waiting? && !s.cancelled && forall i :: 0 <= i < |s.pcs| ==> s.pcs[i].Reading?
  }

  ghost predicate CanMove(c: Config, s: State)
    requires Shaped(c, s)
  {
    exists step :: Local(s, step) && Enabled(c, s, step)
  }

  lemma GoroutineMoves(c: Config, s: State, i: nat)
    requires Inv(c, s) && i < |s.pcs| && !s.pcs[i].Gone? && (s.pcs[i].Reading? ==> s.cancelled)
    ensures CanMove(c, s)
  {
    match s.pcs[i] {
      case Reading => assert Local(s, Fail(i)) && Enabled(c, s, Fail(i));
      case Holding(_, _) =>
        if s.mutex.None? { assert Local(s, Lock(i)) && Enabled(c, s, Lock(i)); }
        else { OwnerMoves(c, s); }
      case Locked(_, _) => OwnerMoves(c, s);
      case Marked(_, _, _) => OwnerMoves(c, s);
      case Written(_) => OwnerMoves(c, s);
      case Checking(_) => assert Local(s, Check(i)) && Enabled(c, s, Check(i));
      case Ending =>
        WeightBelow(HasSignalled, s.pcs, i);
        assert Local(s, Signal(i)) && Enabled(c, s, Signal(i));
      case Signalled => assert Local(s, Leave(i)) && Enabled(c, s, Leave(i));
    }
  }

  lemma OwnerMoves(c: Config, s: State)
    requires Inv(c, s) && s.mutex.Some?
    ensures CanMove(c, s)
  {
    var i := s.mutex.value;
    assert Owns(s.pcs[i]);
    match s.pcs[i] {
      case Locked(_, _) => assert Local(s, Mark(i)) && Enabled(c, s, Mark(i));
      case Marked(_, _, _) => assert Local(s, Write(i)) && Enabled(c, s, Write(i));
      case Written(_) => assert Local(s, Unlock(i)) && Enabled(c, s, Unlock(i));
    }
  }

  /** No deadlock: in every reachable state the handler has returned, or every stream is open and waiting
  for its server, or the proxy can take a step of its own. */
  lemma NoDeadlock(c: Config, s: State)
    requires Inv(c, s) && !s.main.Returned? && !Idle(s)
    ensures CanMove(c, s)
  {
    if i :| 0 <= i < |s.pcs| && !s.pcs[i].Gone? && (s.pcs[i].Reading? ==> s.cancelled) {
      GoroutineMoves(c, s, i);
    } else {
      if s.main.Waiting? {
        if s.signals == 0 {
          GoneMeansSignalled(s.pcs);
        } else {
          assert Local(s, Advance) && Enabled(c, s, Advance);
        }
      } else {
        assert Local(s, Advance) && Enabled(c, s, Advance);
      }
    }
  }

  lemma {:induction false} GoneMeansSignalled(pcs: seq<Pc>)
    requires Weight(HasSignalled, pcs) == 0
    ensures forall i :: 0 <= i < |pcs| ==> !pcs[i].Gone?
  {
    if pcs != [] { GoneMeansSignalled(pcs[1..]); }
  }

  function PcRank(pc: Pc): nat {
    match pc
    case Reading => 8
    case Holding(_, _) => 7
    case Locked(_, _) => 6
    case Marked(_, _, _) => 5
    case Written(_) => 4
    case Checking(_) => 3
    case Ending => 2
    case Signalled => 1
    case Gone => 0
  }

  function Rank(s: State): nat {
    var main := match s.main
                case Waiting => |s.closed| + 3
                case Cancelling => |s.closed| + 2
                case Closing(next) => 1 + (if next <= |s.closed| then |s.closed| - next else 0)
                case Returned => 0;
    Weight(PcRank, s.pcs) + main
  }

  lemma RankDrops(c: Config, s: State, step: Step)
    requires Inv(c, s) && s.cancelled && Enabled(c, s, step) && step != ClientGone
    ensures Rank(Next(c, s, step)) < Rank(s) && Next(c, s, step).cancelled
  {
    if !step.Advance? {
      PcRankDrops(c, s, step);
      WeightUpdate(PcRank, s.pcs, step.i, Next(c, s, step).pcs[step.i]);
    }
  }

  /** A goroutine's step takes it closer to its end and leaves the handler and the other goroutines. */
  lemma PcRankDrops(c: Config, s: State, step: Step)
    requires Shaped(c, s) && s.cancelled && Enabled(c, s, step) && !step.Advance? && !step.ClientGone?
    ensures var t := Next(c, s, step);
            && t.main == s.main && t.cancelled && |t.closed| == |s.closed| && |t.pcs| == |s.pcs|
            && t.pcs == s.pcs[step.i := t.pcs[step.i]] && PcRank(t.pcs[step.i]) < PcRank(s.pcs[step.i])
  {
  }

  lemma {:induction false} RankBound(pcs: seq<Pc>)
    ensures Weight(PcRank, pcs) <= 8 * |pcs|
  {
    if pcs != [] { RankBound(pcs[1..]); }
  }

  /** How many steps are not the client's. */
  function Own(steps: seq<Step>): nat {
    if steps == [] then 0 else (if steps[0].ClientGone? then 0 else 1) + Own(steps[1..])
  }

  /** Once cancelled, by the first stream to end or by the client, every schedule is finite: at most nine
  steps per target and three more, apart from the client's leaving. With NoDeadlock, every schedule that goes on
  ends with the handler returned. */
  lemma {:induction false} ShutdownIsFinite(c: Config, s: State, steps: seq<Step>, t: State)
    requires Inv(c, s) && s.cancelled && Run(c, s, steps, t)
    ensures Own(steps) <= Rank(s) <= 9 * |c.names| + 3
    decreases |steps|
  {
    RankBound(s.pcs);
    if steps != [] {
      StepInv(c, s, steps[0]);
      if !steps[0].ClientGone? { RankDrops(c, s, steps[0]); }
      ShutdownIsFinite(c, Next(c, s, steps[0]), steps[1..], t);
    }
  }

  /** Whether a goroutine can still write a line once its context is cancelled. */
  function Owed(pc: Pc): nat {
    if pc.Reading? || Carrying(pc) then 1 else 0
  }

  /** A line written is a line no longer owed. */
  lemma OwedStep(c: Config, s: State, step: Step, i: nat)
    requires Shaped(c, s) && s.cancelled && Enabled(c, s, step) && i < |s.pcs|
    ensures var t := Next(c, s, step);
            && |t.pcs| == |s.pcs| && t.cancelled
            && |FromTarget(t.output, i)| + Owed(t.pcs[i]) <= |FromTarget(s.output, i)| + Owed(s.pcs[i])
  {
    var t := Next(c, s, step);
    if step.Write? {
      FromTargetAppend(s.output, Out(step.i, s.pcs[step.i].line, s.pcs[step.i].out), i);
    } else {
      assert t.output == s.output;
      OwedElsewhere(c, s, step, i);
    }
  }

  lemma OwedElsewhere(c: Config, s: State, step: Step, i: nat)
    requires Shaped(c, s) && s.cancelled && Enabled(c, s, step) && !step.Write? && i < |s.pcs|
    ensures Owed(Next(c, s, step).pcs[i]) <= Owed(s.pcs[i])
  {
  }

  lemma {:induction false} OwedRun(c: Config, s: State, steps: seq<Step>, t: State, i: nat)
    requires Inv(c, s) && s.cancelled && Run(c, s, steps, t) && i < |s.pcs|
    ensures |t.pcs| == |s.pcs|
    ensures |FromTarget(t.output, i)| + Owed(t.pcs[i]) <= |FromTarget(s.output, i)| + Owed(s.pcs[i])
    decreases |steps|
  {
    if steps != [] {
      StepInv(c, s, steps[0]);
      OwedStep(c, s, steps[0], i);
      OwedRun(c, Next(c, s, steps[0]), steps[1..], t, i);
    }
  }

  /** After cancellation each stream writes at most one more line. */
  lemma AtMostOneMore(c: Config, s: State, steps: seq<Step>, t: State, i: nat)
    requires Inv(c, s) && s.cancelled && Run(c, s, steps, t) && i < |c.names|
    ensures |FromTarget(t.output, i)| <= |FromTarget(s.output, i)| + 1
  {
    OwedRun(c, s, steps, t, i);
  }

  lemma {:induction false} WakesForAReason(pcs: seq<Pc>)
    requires Weight(HasSignalled, pcs) > 0
    ensures exists i :: 0 <= i < |pcs| && (pcs[i].Signalled? || pcs[i].Gone?)
  {
    if HasSignalled(pcs[0]) == 1 {
      assert pcs[0].Signalled? || pcs[0].Gone?;
    } else {
      WakesForAReason(pcs[1..]);
      var i :| 0 <= i < |pcs[1..]| && (pcs[1..][i].Signalled? || pcs[1..][i].Gone?);
      assert pcs[i + 1] == pcs[1..][i];
    }
  }

  /** The handler cancels the streams only because one of them has ended. */
  lemma FirstEndStopsAll(c: Config, s: State)
    requires Inv(c, s) && !s.main.Waiting?
    ensures exists i :: 0 <= i < |s.pcs| && (s.pcs[i].Signalled? || s.pcs[i].Gone?)
  {
    WakesForAReason(s.pcs);
  }

  // ----- the end of one stream is the end of the watch

  /** The goroutine has seen the end of its stream: it is on its way out, and reads no more. */
  predicate Winding(pc: Pc) {
    match pc
    case Reading => false
    case Holding(_, last) => last
    case Locked(_, last) => last
    case Marked(_, _, last) => last
    case Written(last) => last
    case Checking(last) => last
    case Ending => true
    case Signalled => true
    case Gone => true
  }

  /** A line read and not yet written. */
  function InHand(pc: Pc): nat { if Carrying(pc) then 1 else 0 }

  /** The step in which the stream of target `i` ends: a read that brings the end, with a last line or without. */
  predicate EndsStream(step: Step, i: nat) { step == Fail(i) || step == Take(i, true) }

  lemma WindingStep(c: Config, s: State, step: Step, i: nat)
    requires Shaped(c, s) && Enabled(c, s, step) && i < |s.pcs| && Winding(s.pcs[i])
    ensures var t := Next(c, s, step);
            && Shaped(c, t) && Winding(t.pcs[i]) && t.taken[i] == s.taken[i]
            && |FromTarget(t.output, i)| + InHand(t.pcs[i]) == |FromTarget(s.output, i)| + InHand(s.pcs[i])
  {
    if step.Write? {
      FromTargetAppend(s.output, Out(step.i, s.pcs[step.i].line, s.pcs[step.i].out), i);
    } else {
      assert Next(c, s, step).output == s.output;
    }
  }

  /** Once its stream has ended, a goroutine never reads again and writes exactly the line in hand, if any. */
  lemma {:induction false} EndedStreamWinds(c: Config, s: State, steps: seq<Step>, t: State, i: nat)
    requires Run(c, s, steps, t) && i < |s.pcs| && Winding(s.pcs[i])
    ensures Shaped(c, t) && Winding(t.pcs[i]) && t.taken[i] == s.taken[i]
    ensures |FromTarget(t.output, i)| + InHand(t.pcs[i]) == |FromTarget(s.output, i)| + InHand(s.pcs[i])
    decreases |steps|
  {
    if steps != [] {
      WindingStep(c, s, steps[0], i);
      EndedStreamWinds(c, Next(c, s, steps[0]), steps[1..], t, i);
    }
  }

  lemma {:induction false} EndSeen(c: Config, s: State, steps: seq<Step>, t: State, i: nat)
    requires Run(c, s, steps, t) && i < |c.names| && exists step <- steps :: EndsStream(step, i)
    ensures Shaped(c, t) && Winding(t.pcs[i])
    decreases |steps|
  {
    var next := Next(c, s, steps[0]);
    if EndsStream(steps[0], i) {
      EndedStreamWinds(c, next, steps[1..], t, i);
    } else {
      var step :| step in steps && EndsStream(step, i);
      assert step in steps[1..];
      EndSeen(c, next, steps[1..], t, i);
    }
  }

  /** Steps left at most, as long as no line arrives. */
  function OwnRank(pc: Pc): nat {
    match pc
    case Holding(_, last) => if last then 7 else 9
    case Locked(_, last) => if last then 6 else 8
    case Marked(_, _, last) => if last then 5 else 7
    case Written(last) => if last then 4 else 6
    case Checking(last) => if last then 3 else 5
    case Reading => 4
    case Ending => 2
    case Signalled => 1
    case Gone => 0
  }

  function OwnRankOf(s: State): nat {
    var main := match s.main
                case Waiting => |s.closed| + 3
                case Cancelling => |s.closed| + 2
                case Closing(next) => 1 + (if next <= |s.closed| then |s.closed| - next else 0)
                case Returned => 0;
    Weight(OwnRank, s.pcs) + main
  }

  /** A step that brings no line and is not the client's. */
  predicate NoArrival(step: Step) { !step.Take? && !step.ClientGone? }

  lemma PcOwnRankDrops(c: Config, s: State, step: Step)
    requires Shaped(c, s) && Enabled(c, s, step) && NoArrival(step) && !step.Advance?
    ensures var t := Next(c, s, step);
            && t.main == s.main && |t.closed| == |s.closed| && |t.pcs| == |s.pcs|
            && t.pcs == s.pcs[step.i := t.pcs[step.i]] && OwnRank(t.pcs[step.i]) < OwnRank(s.pcs[step.i])
  {
  }

  lemma OwnRankDrops(c: Config, s: State, step: Step)
    requires Shaped(c, s) && Enabled(c, s, step) && NoArrival(step)
    ensures OwnRankOf(Next(c, s, step)) < OwnRankOf(s)
  {
    if !step.Advance? {
      PcOwnRankDrops(c, s, step);
      WeightUpdate(OwnRank, s.pcs, step.i, Next(c, s, step).pcs[step.i]);
    }
  }

  lemma {:induction false} OwnRankBound(pcs: seq<Pc>)
    ensures Weight(OwnRank, pcs) <= 9 * |pcs|
  {
    if pcs != [] { OwnRankBound(pcs[1..]); }
  }

  lemma {:induction false} OwnScheduleIsFinite(c: Config, s: State, steps: seq<Step>, t: State)
    requires Inv(c, s) && Run(c, s, steps, t) && forall step <- steps :: NoArrival(step)
    ensures |steps| <= OwnRankOf(s) <= 10 * |c.names| + 3
    decreases |steps|
  {
    OwnRankBound(s.pcs);
    if steps != [] {
      assert steps[0] in steps;
      StepInv(c, s, steps[0]);
      OwnRankDrops(c, s, steps[0]);
      OwnScheduleIsFinite(c, Next(c, s, steps[0]), steps[1..], t);
    }
  }

  lemma {:induction false} CancelledStays(c: Config, s: State, steps: seq<Step>, t: State)
    requires Run(c, s, steps, t) && (s.cancelled || ClientGone in steps)
    ensures t.cancelled
    decreases |steps|
  {
    if steps != [] { CancelledStays(c, Next(c, s, steps[0]), steps[1..], t); }
  }

  /** When the client has left, in any run, the watch comes to its end in the same way. */
  lemma ClientGoneEndsWatch(c: Config, s: State, steps: seq<Step>, m: State, more: seq<Step>, t: State)
    requires Init(c, s) && Run(c, s, steps, m) && ClientGone in steps && Run(c, m, more, t)
    ensures Shaped(c, t) && t.cancelled && !Idle(t)
    ensures Own(more) <= 9 * |c.names| + 3
    ensures !CanMove(c, t) ==> t.main.Returned?
  {
    InitInv(c, s);
    RunInv(c, s, steps, m);
    RunInv(c, m, more, t);
    CancelledStays(c, s, steps, m);
    CancelledStays(c, m, more, t);
    ShutdownIsFinite(c, m, more, t);
    if !CanMove(c, t) && !t.main.Returned? { NoDeadlock(c, t); }
  }

  /** When one stream has ended, in any run, the watch is never idle again: every schedule without arriving lines
  is finite, and one that cannot go on has the handler returned, so all streams closed. */
  lemma EndedStreamEndsWatch(c: Config, s: State, steps: seq<Step>, m: State, more: seq<Step>, t: State, i: nat)
    requires Init(c, s) && Run(c, s, steps, m) && i < |c.names| && exists step <- steps :: EndsStream(step, i)
    requires Run(c, m, more, t)
    ensures Shaped(c, t) && !Idle(t)
    ensures (forall step <- more :: NoArrival(step)) ==> |more| <= 10 * |c.names| + 3
    ensures !CanMove(c, t) ==> t.main.Returned?
  {
    InitInv(c, s);
    RunInv(c, s, steps, m);
    RunInv(c, m, more, t);
    EndSeen(c, s, steps, m, i);
    EndedStreamWinds(c, m, more, t, i);
    if forall step <- more :: NoArrival(step) { OwnScheduleIsFinite(c, m, more, t); }
    if !CanMove(c, t) && !t.main.Returned? { NoDeadlock(c, t); }
  }
}
