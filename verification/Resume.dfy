/** Resuming a collection watch: which changes a client has seen when it holds a version vector. */
module Resume {
  import opened Wire
  import opened Strings
  import opened Marking
  import opened Upstream
  import opened WatchEvents
  import opened WatchRun
  import WatchStart

  // ----- the contract assumed of one upstream watch

  function EventType(line: Line): Text {
    if line.Json? && line.event.Obj? then SubText(line.event.fields, "type") else EMPTY
  }

  predicate IsChange(line: Line) {
    EventType(line) == Lit("ADDED") || EventType(line) == Lit("MODIFIED") || EventType(line) == Lit("DELETED")
  }

  /** The line reports this change. */
  predicate Reports(line: Line, change: Change) {
    && HasObject(line)
    && match change
       case Put(item) =>
         ObjectOf(line) == item && (EventType(line) == Lit("ADDED") || EventType(line) == Lit("MODIFIED"))
       case Remove(item) => ObjectOf(line) == item && EventType(line) == Lit("DELETED")
       case Elsewhere => false
  }

  /** No write between the two positions concerns the watched resource. */
  ghost predicate Quiet(log: Log, from: nat, to: nat) {
    forall k :: from <= k < to && k < |log| ==> log[k].change.Elsewhere?
  }

  /** What a server may send next once the stream has reached `from`: the next change, a bookmark at a
  position with nothing left before it, or something that is neither and states no version. */
  ghost predicate MaySend(log: Log, from: nat, line: Line) {
    if LineVersion(line).None? then !IsChange(line)
    else
      && Known(log, LineVersion(line).value)
      && var to := Position(log, LineVersion(line).value);
      && from <= to
      && if IsChange(line) then
           from < to && Quiet(log, from, to - 1) && Reports(line, log[to - 1].change)
         else Quiet(log, from, to)
  }

  /** How far a stream that started at `from` has come. */
  ghost function Reached(log: Log, from: nat, lines: seq<Line>): nat {
    if lines == [] then from
    else
      var version := LineVersion(lines[|lines| - 1]);
      if version.Some? && Known(log, version.value) then Position(log, version.value)
      else Reached(log, from, lines[..|lines| - 1])
  }

  /** The lines are what a server sends to a watch that starts at `from`. */
  ghost predicate Serves(log: Log, from: nat, lines: seq<Line>) {
    if lines == [] then from <= |log|
    else
      && Serves(log, from, lines[..|lines| - 1])
      && MaySend(log, Reached(log, from, lines[..|lines| - 1]), lines[|lines| - 1])
  }

  lemma {:induction false} ServesPrefix(log: Log, from: nat, lines: seq<Line>, k: nat)
    requires Serves(log, from, lines) && k <= |lines|
    ensures Serves(log, from, lines[..k])
  {
    if k < |lines| {
      ServesPrefix(log, from, lines[..|lines| - 1], k);
      assert lines[..|lines| - 1][..k] == lines[..k];
    } else {
      assert lines[..k] == lines;
    }
  }

  lemma {:induction false} ReachedInLog(log: Log, from: nat, lines: seq<Line>)
    requires Serves(log, from, lines)
    ensures from <= Reached(log, from, lines) <= |log|
  {
    if lines != [] { ReachedInLog(log, from, lines[..|lines| - 1]); }
  }

  /** A stream that started at a known version has reached the position of its last version. */
  lemma {:induction false} ReachedIsVersion(log: Log, version: Text, lines: seq<Line>)
    requires Known(log, version) && Serves(log, Position(log, version), lines)
    ensures Known(log, LastVersion(lines, version))
    ensures Reached(log, Position(log, version), lines) == Position(log, LastVersion(lines, version))
  {
    if lines != [] { ReachedIsVersion(log, version, lines[..|lines| - 1]); }
  }

  lemma MaySendStable(older: Log, newer: Log, from: nat, line: Line)
    requires older <= newer && WellFormed(newer) && MaySend(older, from, line)
    ensures MaySend(newer, from, line)
    ensures LineVersion(line).Some? ==>
              Known(older, LineVersion(line).value) && Known(newer, LineVersion(line).value)
              && Position(newer, LineVersion(line).value) == Position(older, LineVersion(line).value)
  {
    if LineVersion(line).Some? {
      SnapshotStable(older, newer, LineVersion(line).value);
      var to := Position(older, LineVersion(line).value);
      assert forall k :: 0 <= k < to ==> newer[k] == older[k];
    }
  }

  /** What was served against a log is served against every later state of it. */
  lemma {:induction false} ServesStable(older: Log, newer: Log, from: nat, lines: seq<Line>)
    requires older <= newer && WellFormed(newer) && Serves(older, from, lines)
    ensures Serves(newer, from, lines) && Reached(newer, from, lines) == Reached(older, from, lines)
  {
    if lines != [] {
      ServesStable(older, newer, from, lines[..|lines| - 1]);
      MaySendStable(older, newer, Reached(older, from, lines[..|lines| - 1]), lines[|lines| - 1]);
    }
  }

  // ----- exactly which changes a sequence of lines carries

  /** The change lines among `lines` report, one for one and in order, exactly the changes that the log
  holds between the two positions. */
  ghost predicate Carries(log: Log, from: nat, to: nat, lines: seq<Line>) {
    if lines == [] then from <= to <= |log| && Quiet(log, from, to)
    else
      var before, last := lines[..|lines| - 1], lines[|lines| - 1];
      if IsChange(last) then exists at: nat :: LastAt(log, at, to, last) && Carries(log, from, at, before)
      else Carries(log, from, to, before)
  }

  /** The write at `at` is reported by the line and is the last change before `to`. */
  ghost predicate LastAt(log: Log, at: nat, to: nat, line: Line) {
    at < to <= |log| && Reports(line, log[at].change) && Quiet(log, at + 1, to)
  }

  lemma {:induction false} CarriesOnQuietly(log: Log, from: nat, middle: nat, to: nat, lines: seq<Line>)
    requires Carries(log, from, middle, lines) && middle <= to <= |log| && Quiet(log, middle, to)
    ensures Carries(log, from, to, lines)
  {
    if lines != [] {
      var last := lines[|lines| - 1];
      if IsChange(last) {
        var at: nat :| LastAt(log, at, middle, last) && Carries(log, from, at, lines[..|lines| - 1]);
        assert LastAt(log, at, to, last);
      } else {
        CarriesOnQuietly(log, from, middle, to, lines[..|lines| - 1]);
      }
    }
  }

  /** A served stream carries exactly the changes up to where it has come. */
  lemma {:induction false} ServedCarries(log: Log, from: nat, lines: seq<Line>)
    requires Serves(log, from, lines)
    ensures Carries(log, from, Reached(log, from, lines), lines)
  {
    if lines != [] {
      var before, last := lines[..|lines| - 1], lines[|lines| - 1];
      ServedCarries(log, from, before);
      var here := Reached(log, from, before);
      if LineVersion(last).Some? {
        var to := Position(log, LineVersion(last).value);
        if IsChange(last) {
          CarriesOnQuietly(log, from, here, to - 1, before);
          assert LastAt(log, to - 1, to, last);
        } else {
          CarriesOnQuietly(log, from, here, to, before);
        }
      }
    }
  }

  /** Two stretches that meet carry the whole, nothing twice and nothing lost. */
  lemma {:induction false} CarriesJoin(log: Log, from: nat, middle: nat, to: nat, first: seq<Line>, second: seq<Line>)
    requires Carries(log, from, middle, first) && Carries(log, middle, to, second)
    ensures Carries(log, from, to, first + second)
  {
    if second == [] {
      assert first + second == first;
      CarriesOnQuietly(log, from, middle, to, first);
    } else {
      var n := |second| - 1;
      assert (first + second)[..|first + second| - 1] == first + second[..n];
      if IsChange(second[n]) {
        var at: nat :| LastAt(log, at, to, second[n]) && Carries(log, middle, at, second[..n]);
        CarriesJoin(log, from, middle, at, first, second[..n]);
      } else {
        CarriesJoin(log, from, middle, to, first, second[..n]);
      }
    }
  }

  // ----- sessions of the aggregate watch

  /** One aggregate watch as the client saw it: any run of the proxy, cut off after `seen` lines. */
  datatype Session = Session(config: Config, begin: State, steps: seq<Step>, end: State, seen: nat)

  /** The upstream servers serve the session from the vector it starts with. */
  ghost predicate ServedSession(x: Session, names: seq<string>, logs: seq<Log>) {
    && ValidConfig(x.config) && x.config.names == names && |logs| == |names|
    && Init(x.config, x.begin) && Run(x.config, x.begin, x.steps, x.end)
    && x.seen <= |x.end.output|
    && (forall i :: 0 <= i < |names| ==>
          && WellFormed(logs[i]) && Known(logs[i], x.config.start[names[i]])
          && Serves(logs[i], Position(logs[i], x.config.start[names[i]]), x.config.streams[i]))
  }

  function Seen(x: Session): seq<Out>
    requires x.seen <= |x.end.output|
  {
    x.end.output[..x.seen]
  }

  /** The lines as the client received them. */
  function AsWritten(out: seq<Out>): seq<Line> {
    seq(|out|, k requires 0 <= k < |out| => out[k].line)
  }

  /** The aggregate version a client holds: that of the last versioned line it received, or the one it
  started with. It is the proxy's vector as of the client's last line. */
  lemma {:induction false} HeldVersion(c: Config, out: seq<Out>)
    requires ValidConfig(c) && Stamped(c, out)
    ensures LastVersion(AsWritten(out), Vector(c.start)) == Vector(VectorAfter(c, out))
  {
    if out != [] {
      var before, last := out[..|out| - 1], out[|out| - 1];
      assert forall k :: 0 <= k < |before| ==> before[..k] == out[..k];
      HeldVersion(c, before);
      MarkLineMoves(last.read, c.names[last.source], VectorAfter(c, before));
      assert AsWritten(out)[..|out| - 1] == AsWritten(before);
    }
  }

  lemma StampedPrefix(c: Config, out: seq<Out>, k: nat)
    requires Stamped(c, out) && k <= |out|
    ensures Stamped(c, out[..k])
  {
    forall j | 0 <= j < k
      ensures out[..k][..j] == out[..j]
    {
    }
  }

  lemma {:induction false} FromTargetPrefix(out: seq<Out>, k: nat, i: nat)
    requires k <= |out|
    ensures FromTarget(out[..k], i) <= FromTarget(out, i)
  {
    if k < |out| {
      FromTargetPrefix(out[..|out| - 1], k, i);
      assert out[..|out| - 1][..k] == out[..k];
    } else {
      assert out[..k] == out;
    }
  }

  /** What the client has received is stamped, and of every target a prefix of what that target sent. */
  lemma SessionPrefix(x: Session, k: nat, i: nat)
    requires Init(x.config, x.begin) && Run(x.config, x.begin, x.steps, x.end)
    requires k <= |x.end.output| && i < |x.config.names|
    ensures Stamped(x.config, x.end.output[..k])
    ensures FromTarget(x.end.output[..k], i) <= x.config.streams[i]
  {
    EveryLineStamped(x.config, x.begin, x.steps, x.end);
    StampedPrefix(x.config, x.end.output, k);
    FromTargetPrefix(x.end.output, k, i);
  }

  /** A stretch of one target's stream ends, for its log, at the coordinate the vector shows. */
  lemma VectorShowsReached(c: Config, out: seq<Out>, log: Log, i: nat)
    requires ValidConfig(c) && Stamped(c, out) && i < |c.names|
    requires Known(log, c.start[c.names[i]]) && Serves(log, Position(log, c.start[c.names[i]]), c.streams[i])
    requires FromTarget(out, i) <= c.streams[i]
    ensures var vector := VectorAfter(c, out);
            var from := Position(log, c.start[c.names[i]]);
            && c.names[i] in vector && Known(log, vector[c.names[i]])
            && Serves(log, from, FromTarget(out, i))
            && Reached(log, from, FromTarget(out, i)) == Position(log, vector[c.names[i]])
  {
    VectorCoordinates(c, out);
    var lines := FromTarget(out, i);
    ServesPrefix(log, Position(log, c.start[c.names[i]]), c.streams[i], |lines|);
    assert c.streams[i][..|lines|] == lines;
    ReachedIsVersion(log, c.start[c.names[i]], lines);
  }

  /** The lines are exactly the changes of a log between the version `start` and the version `held`. */
  ghost predicate Covered(log: Log, start: Text, held: Text, lines: seq<Line>) {
    && Known(log, start) && Known(log, held)
    && Carries(log, Position(log, start), Position(log, held), lines)
  }

  lemma CoveredJoin(log: Log, start: Text, middle: Text, held: Text, first: seq<Line>, second: seq<Line>)
    requires Covered(log, start, middle, first) && Covered(log, middle, held, second)
    ensures Covered(log, start, held, first + second)
  {
    CarriesJoin(log, Position(log, start), Position(log, middle), Position(log, held), first, second);
  }

  /** For every interleaving and every prefix a client received: per target, the client has seen exactly
  the changes between the coordinate it started from and the coordinate it now holds. */
  lemma SessionCarries(x: Session, names: seq<string>, logs: seq<Log>, i: nat)
    requires ServedSession(x, names, logs) && i < |names|
    ensures Stamped(x.config, Seen(x))
    ensures var vector := VectorAfter(x.config, Seen(x));
            && names[i] in vector
            && Covered(logs[i], x.config.start[names[i]], vector[names[i]], FromTarget(Seen(x), i))
  {
    SessionPrefix(x, x.seen, i);
    VectorShowsReached(x.config, Seen(x), logs[i], i);
    ServedCarries(logs[i], Position(logs[i], x.config.start[names[i]]), FromTarget(Seen(x), i));
  }

  /** The vector a client holds when a session breaks off. */
  ghost function Held(x: Session): VersionVector
    requires x.seen <= |x.end.output| && Stamped(x.config, Seen(x))
  {
    VectorAfter(x.config, Seen(x))
  }

  /** The logs of some targets, in the order of their names. */
  ghost function LogsOf(names: seq<string>, logs: Logs): (r: seq<Log>)
    requires forall name <- names :: name in logs
    ensures |r| == |names| && forall i :: 0 <= i < |names| ==> r[i] == logs[names[i]]
  {
    seq(|names|, i requires 0 <= i < |names| => logs[names[i]])
  }

  ghost predicate ServedBy(x: Session, logs: Logs) {
    && (forall name <- x.config.names :: name in logs)
    && ServedSession(x, x.config.names, LogsOf(x.config.names, logs))
  }

  /** The lines a client received of one target. */
  function LinesOf(x: Session, name: string): seq<Line>
    requires x.seen <= |x.end.output|
  {
    if name in x.config.names then FromTarget(Seen(x), IndexOf(x.config.names, name)) else []
  }

  /** The version a client holds when a session breaks off, and reconnects with: that of the last versioned
  line it received, or the one it started with. */
  function ClientVersion(x: Session): Text
    requires x.seen <= |x.end.output|
  {
    LastVersion(AsWritten(Seen(x)), Vector(x.config.start))
  }

  lemma SessionHolds(x: Session, logs: Logs, name: string)
    requires ServedBy(x, logs) && name in x.config.names
    ensures Stamped(x.config, Seen(x)) && name in x.config.start && name in Held(x)
    ensures Covered(logs[name], x.config.start[name], Held(x)[name], LinesOf(x, name)) && Held(x)[name] != EMPTY
  {
    SessionCarries(x, x.config.names, LogsOf(x.config.names, logs), IndexOf(x.config.names, name));
    var n := Position(logs[name], Held(x)[name]);
    assert WellFormed(LogsOf(x.config.names, logs)[IndexOf(x.config.names, name)]);
  }

  /** The client holds the encoded vector of the proxy, with a version for exactly the watched targets. */
  ghost predicate HoldsAll(x: Session) {
    && x.seen <= |x.end.output| && Stamped(x.config, Seen(x)) && ClientVersion(x) == Vector(Held(x))
    && (forall name :: name in Held(x) <==> name in x.config.names)
    && (forall name <- x.config.names :: Held(x)[name] != EMPTY)
  }

  lemma SessionHoldsAll(x: Session, logs: Logs)
    requires ServedBy(x, logs)
    ensures HoldsAll(x)
  {
    SessionPrefix(x, x.seen, 0);
    HeldVersion(x.config, Seen(x));
    VectorCoordinates(x.config, Seen(x));
    forall name <- x.config.names
      ensures name in Held(x) && Held(x)[name] != EMPTY
    {
      SessionHolds(x, logs, name);
    }
  }

  /** Reconnecting, with the version the client holds and under a possibly different configuration: the proxy
  accepts it exactly when it has no target that the session did not watch, and then starts every target at the
  coordinate the client holds; under the same names, from exactly its vector (ReconnectSame). */
  lemma ReconnectIff(x: Session, logs: Logs, names: seq<string>, probe: nat -> Reply)
    requires ServedBy(x, logs)
    ensures HoldsAll(x)
    ensures var start := WatchStart.WatchVersions(names, ClientVersion(x), probe);
            && (start.From? <==> forall name <- names :: name in x.config.names)
            && (start.From? ==> forall name :: name in start.versions <==> name in names)
            && (start.From? ==> forall name <- names :: name in Held(x) && start.versions[name] == Held(x)[name])
            && (!start.From? ==> start.Malformed?)
  {
    SessionHoldsAll(x, logs);
    WatchStart.VectorAcceptedIff(names, Held(x), probe);
  }

  lemma ReconnectSame(x: Session, logs: Logs, names: seq<string>, probe: nat -> Reply)
    requires ServedBy(x, logs) && forall name :: name in names <==> name in x.config.names
    ensures HoldsAll(x) && WatchStart.WatchVersions(names, ClientVersion(x), probe) == WatchStart.From(Held(x))
  {
    SessionHoldsAll(x, logs);
    WatchStart.VectorRoundTrip(names, Held(x), probe);
  }

  /** Sessions one after the other, the newest first: each is requested at the version the client held when the
  one before it broke off, wherever that was, and under whatever configuration the proxy then had. */
  datatype History = First(session: Session) | Then(session: Session, earlier: History, probe: nat -> Reply)
  {
    ghost predicate Valid(logs: Logs) {
      && ServedBy(session, logs)
      && (Then? ==>
            && earlier.Valid(logs)
            && WatchStart.WatchVersions(session.config.names, ClientVersion(earlier.session), probe)
               == WatchStart.From(session.config.start))
    }

    /** The targets and the vector of the very first session. */
    function Names(): seq<string> {
      if First? then session.config.names else earlier.Names()
    }

    function Start(): VersionVector {
      if First? then session.config.start else earlier.Start()
    }

    /** Everything received of one target, over all sessions. */
    ghost function AllSeen(logs: Logs, name: string): seq<Line>
      requires Valid(logs)
    {
      if First? then LinesOf(session, name) else earlier.AllSeen(logs, name) + LinesOf(session, name)
    }

    /** The target was watched in all sessions. */
    predicate Throughout(name: string) {
      name in session.config.names && (Then? ==> earlier.Throughout(name))
    }
  }

  /** A reconnect starts a target that is still watched where the session before it left off. */
  lemma ReconnectStarts(history: History, logs: Logs, name: string)
    requires history.Valid(logs) && history.Then? && name in history.session.config.names
    ensures name in history.earlier.session.config.names && name in history.session.config.start
    ensures HoldsAll(history.earlier.session) && name in Held(history.earlier.session)
    ensures history.session.config.start[name] == Held(history.earlier.session)[name]
  {
    ReconnectIff(history.earlier.session, logs, history.session.config.names, history.probe);
  }

  /** Resume safety: over any number of reconnects, each run interleaved and cut off anywhere, with targets
  dropped and reordered in between, a client has received of every target it still watches exactly the changes
  between the coordinate it first started from and the coordinate it holds now: every change once, in order,
  none missing. Such a target was watched all along. */
  lemma {:induction false} ResumeSafe(history: History, logs: Logs, name: string)
    requires history.Valid(logs) && name in history.session.config.names
    ensures Stamped(history.session.config, Seen(history.session)) && history.Throughout(name)
    ensures name in history.Start() && name in Held(history.session)
    ensures Covered(logs[name], history.Start()[name], Held(history.session)[name], history.AllSeen(logs, name))
  {
    SessionHolds(history.session, logs, name);
    if history.Then? {
      ReconnectStarts(history, logs, name);
      ResumeSafe(history.earlier, logs, name);
      CoveredJoin(logs[name], history.Start()[name], Held(history.earlier.session)[name], Held(history.session)[name],
                  history.earlier.AllSeen(logs, name), LinesOf(history.session, name));
    }
  }

  /** The lines up to a point tell where their stretch of the log began, but for quiet writes. */
  lemma {:induction false} CarriesFixesStart(log: Log, one: nat, two: nat, to: nat, lines: seq<Line>)
    requires Carries(log, one, to, lines) && Carries(log, two, to, lines) && one <= two
    ensures Quiet(log, one, two)
  {
    if lines != [] {
      var before, last := lines[..|lines| - 1], lines[|lines| - 1];
      if IsChange(last) {
        var at: nat :| LastAt(log, at, to, last) && Carries(log, one, at, before);
        var other: nat :| LastAt(log, other, to, last) && Carries(log, two, other, before);
        assert !log[at].change.Elsewhere? && !log[other].change.Elsewhere?;
        assert at == other;
        CarriesFixesStart(log, one, two, at, before);
      } else {
        CarriesFixesStart(log, one, two, to, before);
      }
    }
  }

  lemma ChangeAhead(log: Log, from: nat, line: Line)
    requires IsChange(line) && MaySend(log, from, line)
    ensures LineVersion(line).Some? && Known(log, LineVersion(line).value)
    ensures from < Position(log, LineVersion(line).value)
    ensures !log[Position(log, LineVersion(line).value) - 1].change.Elsewhere?
  {
    assert Reports(line, log[Position(log, LineVersion(line).value) - 1].change);
  }

  /** What a client misses between two versions it is never sent by a stream from the later one. */
  lemma NeverMadeUp(log: Log, start: Text, claimed: Text, later: seq<Line>)
    requires WellFormed(log) && Known(log, start) && Known(log, claimed)
    requires Position(log, start) < Position(log, claimed) && !log[Position(log, claimed) - 1].change.Elsewhere?
    requires Serves(log, Position(log, claimed), later)
    ensures Known(log, LastVersion(later, claimed)) && !Covered(log, start, LastVersion(later, claimed), later)
  {
    ReachedIsVersion(log, claimed, later);
    ServedCarries(log, Position(log, claimed), later);
    if Covered(log, start, LastVersion(later, claimed), later) {
      CarriesFixesStart(log, Position(log, start), Position(log, claimed),
                        Position(log, LastVersion(later, claimed)), later);
    }
  }

  lemma LostForGood(log: Log, start: Text, line: Line, later: seq<Line>)
    requires WellFormed(log) && Known(log, start) && IsChange(line) && MaySend(log, Position(log, start), line)
    requires Serves(log, Position(log, LineVersion(line).value), later)
    ensures Known(log, LastVersion(later, LineVersion(line).value))
    ensures !Covered(log, start, LastVersion(later, LineVersion(line).value), later)
  {
    ChangeAhead(log, Position(log, start), line);
    NeverMadeUp(log, start, LineVersion(line).value, later);
  }

  /** A line written after another target's coordinate has moved states that coordinate. */
  lemma OvertakingClaims(first: Line, second: Line, one: string, two: string, start: VersionVector)
    requires one != two && LineVersion(first).Some? && LineVersion(second).Some?
    ensures var overtaking := MarkLine(second, two, MarkLine(first, one, start).versions).line;
            && LineVersion(overtaking).Some? && LineVersion(overtaking).value.Vector?
            && one in LineVersion(overtaking).value.versions
            && LineVersion(overtaking).value.versions[one] == LineVersion(first).value
  {
    MarkLineMoves(first, one, start);
    MarkLineMoves(second, two, MarkLine(first, one, start).versions);
  }

  /** Why the vector is moved and the line written in one critical section. Let a change of target `one` have
  moved the vector, and let another target's line be written before the line with that change. A client that
  breaks off here resumes from a vector that claims the change; it is then lost for good: no stream that the
  target may serve from there, however long, makes the client's account complete. */
  lemma CriticalSectionNeeded(log: Log, first: Line, second: Line, one: string, two: string, start: VersionVector,
                              later: seq<Line>)
    requires one != two && LineVersion(second).Some? && one in start && WellFormed(log) && Known(log, start[one])
    requires IsChange(first) && MaySend(log, Position(log, start[one]), first)
    requires Serves(log, Position(log, LineVersion(first).value), later)
    ensures var early := MarkLine(first, one, start).versions;
            var overtaking := MarkLine(second, two, early).line;
            && LineVersion(overtaking).Some? && LineVersion(overtaking).value.Vector?
            && one in LineVersion(overtaking).value.versions
            && LineVersion(overtaking).value.versions[one] == LineVersion(first).value
            && Known(log, LastVersion(later, LineVersion(first).value))
            && !Covered(log, start[one], LastVersion(later, LineVersion(first).value), later)
  {
    LostForGood(log, start[one], first, later);
    OvertakingClaims(first, second, one, two, start);
  }
}
