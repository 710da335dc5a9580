/** Serving, draining and reloading (cmd/kubeconfig-proxy/activity.go and serve.go). */
module Serve {
  import opened Wire

  // ----- the request counter

  /** The fields of the activity handler that decide anything; `token` is the one slot of becameIdle. */
  datatype Activity = Activity(inFlight: int, draining: bool, token: bool)

  datatype Change = StateFileChanged | SourceKubeconfigChanged

  function Begin(a: Activity): Activity {
    if a.draining then a else a.(inFlight := a.inFlight + 1)
  }

  function Finish(a: Activity): Activity { a.(inFlight := a.inFlight - 1) }

  predicate CanDrain(a: Activity) { a.inFlight == 0 && !a.draining }

  class ActivityHandler {
    var inFlight: int
    var isDraining: bool
    var becameIdle: bool

    function Value(): Activity
      reads this
    {
      Activity(inFlight, isDraining, becameIdle)
    }

    constructor ()
      ensures Value() == Activity(0, false, false)
    {
      inFlight, isDraining, becameIdle := 0, false, false;
    }

    method BeginRequest() returns (admitted: bool)
      modifies this
      ensures Value() == Begin(old(Value()))
      ensures admitted <==> !old(isDraining)
    {
      if isDraining {
        return false;
      }
      inFlight := inFlight + 1;
      return true;
    }

    method FinishRequest() returns (idle: bool)
      modifies this
      ensures Value() == Finish(old(Value()))
      ensures idle <==> inFlight == 0
    {
      inFlight := inFlight - 1;
      return inFlight == 0;
    }

    /** The send on becameIdle that never blocks. */
    method NotifyIdle()
      modifies this
      ensures Value() == old(Value()).(token := true)
    {
      if !becameIdle {
        becameIdle := true;
      }
    }

    method BeginDrainIfIdle() returns (drained: bool)
      modifies this
      ensures drained <==> CanDrain(old(Value()))
      ensures Value() == if drained then old(Value()).(draining := true) else old(Value())
    {
      if inFlight != 0 || isDraining {
        return false;
      }
      isDraining := true;
      return true;
    }
  }

  // ----- the event loop

  /** Whether the timer behind the reload channel runs, or has fired and not been received. */
  datatype Timer = Stopped | Running | Due

  datatype Exit = Reloading(change: Change) | Interrupted | FileTrouble | Expired | ServeEnded

  /** The variables of the serve loop; `watching` says that the loop listens to the timer. */
  datatype Loop = Loop(pending: Option<Change>, timer: Timer, watching: bool, exit: Option<Exit>)

  /** What select hands to the loop. */
  datatype Selected =
    | Stop
    | Changed(change: Change)
    | WatchTrouble
    | WatchClosed
    | Idle
    | TimerFired
    | Ttl(longIdle: bool)            // `longIdle`: the last activity is longer ago than the TTL
    | ServerStopped

  datatype Both = Both(activity: Activity, loop: Loop)

  function Arm(loop: Loop): Loop { loop.(timer := Running, watching := true) }

  /** One round of the loop. */
  function Handle(s: Both, selected: Selected): Both {
    match selected
    case Stop => s.(loop := s.loop.(exit := Some(Interrupted)))
    case Changed(change) => s.(loop := Arm(s.loop).(pending := Some(change)))
    case WatchTrouble => s.(loop := s.loop.(exit := Some(FileTrouble)))
    case WatchClosed => s
    case Idle =>
      Both(s.activity.(token := false), if s.loop.pending.Some? then Arm(s.loop) else s.loop)
    case TimerFired =>
      var quiet := s.loop.(timer := Stopped, watching := false);
      if s.loop.pending.Some? && CanDrain(s.activity) then
        Both(s.activity.(draining := true), quiet.(exit := Some(Reloading(s.loop.pending.value))))
      else s.(loop := quiet)
    case Ttl(longIdle) =>
      if s.activity.inFlight <= 0 && longIdle then s.(loop := s.loop.(exit := Some(Expired))) else s
    case ServerStopped => s.(loop := s.loop.(exit := Some(ServeEnded)))
  }

  class Server {
    const activity: ActivityHandler
    var pendingRuntimeChange: Option<Change>
    var reloadTimer: Timer
    var listening: bool
    var exit: Option<Exit>

    function Value(): Both
      reads this, activity
    {
      Both(activity.Value(), Loop(pendingRuntimeChange, reloadTimer, listening, exit))
    }

    constructor (handler: ActivityHandler)
      ensures activity == handler
      ensures Value() == Both(handler.Value(), Loop(None, Stopped, false, None))
    {
      activity := handler;
      pendingRuntimeChange, reloadTimer, listening, exit := None, Stopped, false, None;
    }

    method Select(selected: Selected)
      modifies this, activity
      ensures Value() == Handle(old(Value()), selected)
    {
      match selected {
        case Stop => exit := Some(Interrupted);
        case Changed(change) =>
          pendingRuntimeChange := Some(change);
          reloadTimer, listening := Running, true;
        case WatchTrouble => exit := Some(FileTrouble);
        case WatchClosed =>
        case Idle =>
          activity.becameIdle := false;
          if pendingRuntimeChange.Some? {
            reloadTimer, listening := Running, true;
          }
        case TimerFired =>
          reloadTimer, listening := Stopped, false;
          if pendingRuntimeChange.Some? {
            var drained := activity.BeginDrainIfIdle();
            if drained {
              exit := Some(Reloading(pendingRuntimeChange.value));
            }
          }
        case Ttl(longIdle) =>
          if activity.inFlight <= 0 && longIdle {
            exit := Some(Expired);
          }
        case ServerStopped => exit := Some(ServeEnded);
      }
    }
  }

  // ----- the whole server: requests, notifications, timer, file events and the loop, interleaved

  /** `active`: admitted and unfinished requests. `notifying`: requests that finished last and have not yet
  sent their notification. `late`: how many of them finished after the reload timer was last armed;
  `lateToken`: the waiting token stands for such a request. `restarted`: the reload timer was last armed with
  no request active, and none was admitted since: when it fires, the full delay has passed without requests. */
  datatype State = State(
    both: Both,
    active: set<nat>,
    notifying: nat,
    late: nat,
    lateToken: bool,
    event: Option<Selected>,        // the one slot of the file watcher's channel
    restarted: bool)

  datatype Step =
    | Arrive(r: nat)                // a request comes in
    | Complete(r: nat)              // a request ends
    | Notify(isLate: bool)          // a finished request, a late one or not, sends on becameIdle
    | Detect(event: Selected)       // the file watcher sends
    | Expire                        // the timer fires
    | Take(selected: Selected)      // the loop selects

  predicate FileEvent(selected: Selected) { selected.Changed? || selected.WatchTrouble? || selected.WatchClosed? }

  ghost predicate Enabled(s: State, step: Step) {
    match step
    case Arrive(r) => r !in s.active
    case Complete(r) => r in s.active
    case Notify(isLate) => s.notifying > 0 && if isLate then s.late > 0 else s.notifying > s.late
    case Detect(event) => FileEvent(event) && s.event == None
    case Expire => s.both.loop.timer.Running?
    case Take(selected) =>
      && s.both.loop.exit == None
      && (FileEvent(selected) ==> s.event == Some(selected))
      && (selected.Idle? ==> s.both.activity.token)
      && (selected.TimerFired? ==> s.both.loop.watching && s.both.loop.timer.Due?)
  }

  ghost function Next(s: State, step: Step): State
    requires Enabled(s, step)
  {
    match step
    case Arrive(r) =>
      var begun := s.(both := s.both.(activity := Begin(s.both.activity)));
      if s.both.activity.draining then begun else begun.(active := s.active + {r}, restarted := false)
    case Complete(r) =>
      var activity := Finish(s.both.activity);
      s.(both := s.both.(activity := activity), active := s.active - {r},
         notifying := s.notifying + (if activity.inFlight == 0 then 1 else 0),
         late := s.late + (if activity.inFlight == 0 then 1 else 0))
    case Notify(isLate) =>
      s.(both := s.both.(activity := s.both.activity.(token := true)), notifying := s.notifying - 1,
         late := if isLate then s.late - 1 else s.late, lateToken := s.lateToken || isLate)
    case Detect(event) => s.(event := Some(event))
    case Expire => s.(both := s.both.(loop := s.both.loop.(timer := Due)))
    case Take(selected) =>
      var both := Handle(s.both, selected);
      var armed := both.loop.timer.Running? && (selected.Changed? || selected.Idle?) && both.loop.pending.Some?;
      s.(both := both,
         event := if FileEvent(selected) then None else s.event,
         late := if armed then 0 else s.late,
         lateToken := s.lateToken && !armed && !selected.Idle?,
         restarted := if armed then s.active == {} else s.restarted)
  }

  ghost predicate Init(s: State) {
    s == State(Both(Activity(0, false, false), Loop(None, Stopped, false, None)), {}, 0, 0, false, None, false)
  }

  /** The counter counts the admitted unfinished requests; draining means a reload has begun with none. */
  ghost predicate CountInv(s: State) {
    && s.both.activity.inFlight == |s.active|
    && (s.both.activity.draining ==> s.active == {})
    && (s.both.activity.draining <==> s.both.loop.exit.Some? && s.both.loop.exit.value.Reloading?)
  }

  /** A pending change on an idle server is never forgotten: the loop listens to a timer that runs or has
  fired, or a notification is waiting, or a finished request is about to send one. */
  ghost predicate WakeInv(s: State) {
    s.both.loop.pending.Some? && s.active == {} && s.both.loop.exit == None ==>
      (s.both.loop.watching && !s.both.loop.timer.Stopped?) || s.both.activity.token || s.notifying > 0
  }

  /** On an idle server the timer that is listened to was armed after the last request ended, exactly when
  no notification of a request that ended later is on its way. */
  ghost predicate DelayInv(s: State) {
    && (s.restarted ==> s.active == {})
    && (s.both.loop.watching ==> s.both.loop.pending.Some?)
    && s.late <= s.notifying && (s.lateToken ==> s.both.activity.token)
    && (s.both.loop.watching && s.active == {} ==> (s.restarted <==> s.late == 0 && !s.lateToken))
  }

  ghost predicate Inv(s: State) { CountInv(s) && WakeInv(s) && DelayInv(s) }

  lemma InitInv(s: State)
    requires Init(s)
    ensures Inv(s)
  {
  }

  lemma CountStep(s: State, step: Step)
    requires CountInv(s) && Enabled(s, step)
    ensures CountInv(Next(s, step))
  {
    if step.Complete? {
      assert |s.active - {step.r}| == |s.active| - 1;
    }
  }

  lemma WakeStep(s: State, step: Step)
    requires Inv(s) && Enabled(s, step)
    ensures WakeInv(Next(s, step))
  {
    CountStep(s, step);
  }

  lemma DelayStep(s: State, step: Step)
    requires Inv(s) && Enabled(s, step)
    ensures DelayInv(Next(s, step))
  {
    CountStep(s, step);
  }

  lemma StepInv(s: State, step: Step)
    requires Inv(s) && Enabled(s, step)
    ensures Inv(Next(s, step))
  {
    CountStep(s, step);
    WakeStep(s, step);
    DelayStep(s, step);
  }

  ghost predicate Run(s: State, steps: seq<Step>, t: State)
    decreases |steps|
  {
    if steps == [] then s == t else Enabled(s, steps[0]) && Run(Next(s, steps[0]), steps[1..], t)
  }

  lemma {:induction false} RunInv(s: State, steps: seq<Step>, t: State)
    requires Inv(s) && Run(s, steps, t)
    ensures Inv(t)
    decreases |steps|
  {
    if steps != [] {
      StepInv(s, steps[0]);
      RunInv(Next(s, steps[0]), steps[1..], t);
    }
  }

  /** Drain safety: in every run the counter is the number of admitted unfinished requests, and once the
  server exits to reload none is unfinished and none is ever admitted again. */
  lemma {:induction false} ReloadInterruptsNobody(s: State, steps: seq<Step>, t: State)
    requires Inv(s) && Run(s, steps, t)
    ensures t.both.activity.inFlight == |t.active|
    ensures t.both.loop.exit.Some? && t.both.loop.exit.value.Reloading? ==> t.active == {}
    ensures s.both.activity.draining ==> t.both.activity.draining && t.active == {}
    decreases |steps|
  {
    if steps != [] {
      StepInv(s, steps[0]);
      ReloadInterruptsNobody(Next(s, steps[0]), steps[1..], t);
    }
  }

  // ----- no lost reload

  /** Steps the server takes by itself, with no new request, file event, signal or TTL. */
  predicate Internal(step: Step) {
    step.Notify? || step.Expire? || step == Take(Idle) || step == Take(TimerFired)
  }

  function Rank(s: State): nat {
    4 * s.notifying
    + (if s.both.activity.token then 3 else 0)
    + (match s.both.loop.timer case Stopped => 0 case Running => 2 case Due => 1)
  }

  lemma InternalDrops(s: State, step: Step)
    requires Inv(s) && s.active == {} && Internal(step) && Enabled(s, step)
    ensures Rank(Next(s, step)) < Rank(s) && Next(s, step).active == {}
  {
  }

  /** No wake-up is lost: on an idle server with a pending change some internal step is enabled, every
  schedule of internal steps is finite, and one that cannot go on has begun the reload. */
  lemma {:induction false} ReloadComes(s: State, steps: seq<Step>, t: State)
    requires Inv(s) && s.active == {} && s.both.loop.pending.Some? && s.both.loop.exit == None
    requires Run(s, steps, t) && forall step <- steps :: Internal(step)
    ensures |steps| <= Rank(s)
    ensures (forall step :: Internal(step) ==> !Enabled(t, step)) ==>
              t.both.loop.exit == Some(Reloading(s.both.loop.pending.value))
    decreases |steps|
  {
    if steps == [] {
      assert Internal(Notify(true)) && Internal(Notify(false)) && Internal(Expire)
             && Internal(Take(Idle)) && Internal(Take(TimerFired));
    } else {
      var step := steps[0];
      var next := Next(s, step);
      StepInv(s, step);
      InternalDrops(s, step);
      if next.both.loop.exit == None {
        ReloadComes(next, steps[1..], t);
      } else {
        ExitedRun(next, steps[1..], t);
      }
    }
  }

  lemma {:induction false} ExitedRun(s: State, steps: seq<Step>, t: State)
    requires Inv(s) && s.active == {} && s.both.loop.exit.Some? && s.both.loop.exit.value.Reloading?
    requires Run(s, steps, t) && forall step <- steps :: Internal(step)
    ensures |steps| <= Rank(s)
    ensures t.both.loop.exit == s.both.loop.exit
    decreases |steps|
  {
    if steps != [] {
      StepInv(s, steps[0]);
      InternalDrops(s, steps[0]);
      ExitedRun(Next(s, steps[0]), steps[1..], t);
    }
  }

  /** The change that the loop took last. */
  function LastTaken(steps: seq<Step>, earlier: Option<Change>): Option<Change> {
    if steps == [] then earlier
    else
      LastTaken(steps[1..],
                if steps[0].Take? && steps[0].selected.Changed? then Some(steps[0].selected.change) else earlier)
  }

  /** In every run the pending change is the last one the loop took, of either kind, and a reload is one for it. */
  lemma {:induction false} PendingIsLastTaken(s: State, steps: seq<Step>, t: State)
    requires Run(s, steps, t)
    requires s.both.loop.exit.Some? && s.both.loop.exit.value.Reloading? ==>
               s.both.loop.pending == Some(s.both.loop.exit.value.change)
    ensures t.both.loop.pending == LastTaken(steps, s.both.loop.pending)
    ensures t.both.loop.exit.Some? && t.both.loop.exit.value.Reloading? ==>
              t.both.loop.pending == Some(t.both.loop.exit.value.change)
    decreases |steps|
  {
    if steps != [] { PendingIsLastTaken(Next(s, steps[0]), steps[1..], t); }
  }

  /** Taking a change makes it the pending one and starts the idle delay. */
  lemma TakenChangeArms(s: State, change: Change)
    requires Enabled(s, Take(Changed(change)))
    ensures var t := Next(s, Take(Changed(change)));
            && t.both.loop.pending == Some(change) && t.both.loop.timer.Running? && t.both.loop.watching
            && t.both.loop.exit == None && t.both.activity == s.both.activity
  {
  }

  /** From the start: a change that was taken, on a server that has become idle and still serves, ends in the
  reload for it, unless a later change, a request, a signal or the TTL comes in between. */
  lemma TakenChangeReloads(s: State, steps: seq<Step>, m: State, more: seq<Step>, t: State, change: Change)
    requires Init(s) && Run(s, steps, m) && LastTaken(steps, None) == Some(change)
    requires m.active == {} && m.both.loop.exit == None
    requires Run(m, more, t) && forall step <- more :: Internal(step)
    ensures |more| <= Rank(m)
    ensures (forall step :: Internal(step) ==> !Enabled(t, step)) ==> t.both.loop.exit == Some(Reloading(change))
  {
    InitInv(s);
    RunInv(s, steps, m);
    PendingIsLastTaken(s, steps, m);
    ReloadComes(m, more, t);
  }

  /** Why the loop ends: a signal, a file that cannot be read, the end of serving, the TTL on a server without
  requests that has long been idle, and a fired timer on one without requests with a pending change; nothing
  else ends it. */
  lemma ExitReason(s: State, step: Step)
    requires Inv(s) && Enabled(s, step) && s.both.loop.exit == None
    ensures Next(s, step).both.loop.exit ==
            match step
            case Take(Stop) => Some(Interrupted)
            case Take(WatchTrouble) => Some(FileTrouble)
            case Take(ServerStopped) => Some(ServeEnded)
            case Take(Ttl(longIdle)) => if longIdle && s.active == {} then Some(Expired) else None
            case Take(TimerFired) =>
              if s.active == {} && s.both.loop.pending.Some? then Some(Reloading(s.both.loop.pending.value)) else None
            case _ => None
  {
  }

  // ----- the idle delay

  /** When a reload begins, in any run, the full idle delay has passed without requests exactly when every
  request that ended after the timer was last armed has had its notification received: none is waiting in the
  slot and none is still to be sent. In particular when no notification is outstanding at all. */
  lemma FullDelayIff(s: State, steps: seq<Step>, t: State)
    requires Init(s) && Run(s, steps, t) && Enabled(t, Take(TimerFired))
    requires !t.both.activity.draining && Next(t, Take(TimerFired)).both.activity.draining
    ensures t.restarted <==> t.late == 0 && !t.lateToken
    ensures !t.both.activity.token && t.notifying == 0 ==> t.restarted
  {
    InitInv(s);
    RunInv(s, steps, t);
  }

  /** Otherwise it can be cut short: when the last request ends after the timer has fired, but before the
  loop looks at it, the reload may follow at once. */
  lemma DelayCanBeCutShort(s: State, r: nat)
    requires Inv(s) && s.active == {r} && s.both.loop.exit == None
    requires s.both.loop.watching && s.both.loop.timer.Due?
    ensures Enabled(s, Complete(r)) && Enabled(Next(s, Complete(r)), Take(TimerFired))
    ensures var t := Next(Next(s, Complete(r)), Take(TimerFired));
            t.both.loop.exit.Some? && t.both.loop.exit.value.Reloading? && !t.restarted
  {
    assert |{r}| == 1 && |s.active - {r}| == 0;
  }

  lemma {:induction false} RunAppend(s: State, steps: seq<Step>, t: State, step: Step)
    requires Run(s, steps, t) && Enabled(t, step)
    ensures Run(s, steps + [step], Next(t, step))
    decreases |steps|
  {
    if steps == [] {
      assert [step][1..] == [] && [] + [step] == [step];
    } else {
      RunAppend(Next(s, steps[0]), steps[1..], t, step);
      assert (steps + [step])[1..] == steps[1..] + [step];
    }
  }

  /** Such a state occurs: the timer fires while a request is in flight. */
  lemma TimerFiresDuringRequest(s: State, r: nat) returns (steps: seq<Step>, t: State)
    requires Init(s)
    ensures Run(s, steps, t) && t.active == {r} && t.both.loop.exit == None
    ensures t.both.loop.watching && t.both.loop.timer.Due?
  {
    steps, t := [], s;
    var next := [Arrive(r), Detect(Changed(StateFileChanged)), Take(Changed(StateFileChanged)), Expire];
    RunAppend(s, steps, t, next[0]);
    steps, t := steps + [next[0]], Next(t, next[0]);
    RunAppend(s, steps, t, next[1]);
    steps, t := steps + [next[1]], Next(t, next[1]);
    RunAppend(s, steps, t, next[2]);
    steps, t := steps + [next[2]], Next(t, next[2]);
    RunAppend(s, steps, t, next[3]);
    steps, t := steps + [next[3]], Next(t, next[3]);
  }
}
