/** Polling of the state file and the source kubeconfig files (cmd/kubeconfig-proxy/state_file.go). */
module FileWatch {
  import opened Wire

  /** What is known of a file: that it is absent, or its checksum. */
  datatype Snapshot = Absent | Present(checksum: string)

  /** One attempt to read a file. */
  datatype Read = Content(checksum: string) | Missing | Unreadable

  datatype Event = SourceKubeconfigChanged | StateFileChanged | StateFileRemoved | ReadError

  /** A kubeconfig file may be absent; anything else but its content is an error. */
  function Optional(read: Read): Option<Snapshot> {
    match read
    case Content(checksum) => Some(Present(checksum))
    case Missing => Some(Absent)
    case Unreadable => None
  }

  /** The state file must be there. */
  function Required(read: Read): Option<Snapshot> {
    if read.Content? then Some(Present(read.checksum)) else None
  }

  datatype Settled = Stable(snapshot: Snapshot) | Trouble | Cancelled

  /** Reading on until two reads in a row agree; the reads end when the context is cancelled. */
  function Settle(snapshot: Snapshot, seen: seq<Read>, view: Read -> Option<Snapshot>): Settled
    decreases |seen|
  {
    if seen == [] then Cancelled
    else if view(seen[0]).None? then Trouble
    else if view(seen[0]).value == snapshot then Stable(snapshot)
    else Settle(view(seen[0]).value, seen[1..], view)
  }

  method WaitForStable(first: Snapshot, seen: seq<Read>, view: Read -> Option<Snapshot>) returns (result: Settled)
    ensures result == Settle(first, seen, view)
  {
    var snapshot := first;
    var i := 0;
    while i < |seen|
      invariant 0 <= i <= |seen|
      invariant Settle(first, seen, view) == Settle(snapshot, seen[i..], view)
    {
      assert seen[i..][0] == seen[i] && seen[i..][1..] == seen[i + 1..];
      var next := view(seen[i]);
      if next.None? {
        return Trouble;
      }
      if next.value == snapshot {
        return Stable(snapshot);
      }
      snapshot := next.value;
      i := i + 1;
    }
    return Cancelled;
  }

  /** A settled snapshot was read twice in a row, the second time after the settle interval; no earlier pair
  of consecutive reads agreed. */
  lemma {:induction false} SettledMeansTwice(snapshot: Snapshot, seen: seq<Read>, view: Read -> Option<Snapshot>)
    requires Settle(snapshot, seen, view).Stable?
    ensures exists k :: 0 <= k < |seen| && SettlesAt(snapshot, seen, view, k)
                        && view(seen[k]) == Some(Settle(snapshot, seen, view).snapshot)
    decreases |seen|
  {
    if view(seen[0]).value == snapshot {
      assert SettlesAt(snapshot, seen, view, 0);
    } else {
      var next := view(seen[0]).value;
      SettledMeansTwice(next, seen[1..], view);
      var k :| 0 <= k < |seen[1..]| && SettlesAt(next, seen[1..], view, k)
               && view(seen[1..][k]) == Some(Settle(next, seen[1..], view).snapshot);
      assert seen[k + 1] == seen[1..][k];
      assert SettlesAt(snapshot, seen, view, k + 1) by {
        forall j | 0 <= j < k + 1
          ensures view(seen[j]).Some? && view(seen[j]) != ReadBefore(snapshot, seen, view, j)
        {
          if j > 0 {
            assert seen[j] == seen[1..][j - 1];
            assert ReadBefore(snapshot, seen, view, j) == ReadBefore(next, seen[1..], view, j - 1);
          }
        }
        assert ReadBefore(snapshot, seen, view, k + 1) == ReadBefore(next, seen[1..], view, k);
      }
    }
  }

  ghost function ReadBefore(snapshot: Snapshot, seen: seq<Read>, view: Read -> Option<Snapshot>,
                            k: nat): Option<Snapshot>
    requires k < |seen|
  {
    if k == 0 then Some(snapshot) else view(seen[k - 1])
  }

  ghost predicate SettlesAt(snapshot: Snapshot, seen: seq<Read>, view: Read -> Option<Snapshot>, k: nat)
    requires k < |seen|
  {
    && view(seen[k]) == ReadBefore(snapshot, seen, view, k)
    && forall j :: 0 <= j < k ==> view(seen[j]).Some? && view(seen[j]) != ReadBefore(snapshot, seen, view, j)
  }

  // ----- one tick

  /** What the watcher remembers. */
  datatype Memory = Memory(files: seq<Snapshot>, state: Snapshot)

  /** All reads of one tick: of the state file and of each kubeconfig file, in order. */
  datatype Reads = Reads(state: seq<Read>, files: seq<seq<Read>>)

  ghost predicate Enough(n: nat, seen: Reads) {
    && |seen.files| == n && |seen.state| > 0
    && forall i :: 0 <= i < |seen.files| ==> |seen.files[i]| > 0
  }

  datatype Tick = Tick(memory: Memory, event: Option<Event>, alive: bool)

  /** The kubeconfig files from `i` on, then the state file. */
  function TickFrom(memory: Memory, seen: Reads, i: nat): (tick: Tick)
    requires Enough(|memory.files|, seen) && i <= |memory.files| && seen.state[0].Content?
    ensures |tick.memory.files| == |memory.files|
    decreases |memory.files| - i
  {
    if i == |memory.files| then TickState(memory, seen.state)
    else
      var next := Optional(seen.files[i][0]);
      if next.None? then Tick(memory, Some(ReadError), false)
      else if next.value == memory.files[i] then TickFrom(memory, seen, i + 1)
      else
        match Settle(next.value, seen.files[i][1..], Optional)
        case Cancelled => Tick(memory, None, false)
        case Trouble => Tick(memory, Some(ReadError), false)
        case Stable(settled) =>
          if settled == memory.files[i] then TickFrom(memory, seen, i + 1)
          else Tick(memory.(files := memory.files[i := settled]), Some(SourceKubeconfigChanged), true)
  }

  function TickState(memory: Memory, seen: seq<Read>): Tick
    requires |seen| > 0 && seen[0].Content?
  {
    var next := Present(seen[0].checksum);
    if next == memory.state then Tick(memory, None, true)
    else
      match Settle(next, seen[1..], Required)
      case Cancelled => Tick(memory, None, false)
      case Trouble => Tick(memory, Some(ReadError), false)
      case Stable(settled) =>
        if settled == memory.state then Tick(memory, None, true)
        else Tick(memory.(state := settled), Some(StateFileChanged), true)
  }

  function TickAll(memory: Memory, seen: Reads): Tick
    requires Enough(|memory.files|, seen)
  {
    match seen.state[0]
    case Missing => Tick(memory, Some(StateFileRemoved), false)
    case Unreadable => Tick(memory, Some(ReadError), false)
    case Content(_) => TickFrom(memory, seen, 0)
  }

  class Watcher {
    var files: seq<Snapshot>
    var state: Snapshot

    function Value(): Memory
      reads this
    {
      Memory(files, state)
    }

    constructor (files: seq<Snapshot>, state: Snapshot)
      ensures Value() == Memory(files, state)
    {
      this.files, this.state := files, state;
    }

    /** One tick of the poller: at most one event, and whether the poller goes on. */
    method Poll(seen: Reads) returns (event: Option<Event>, alive: bool)
      requires Enough(|files|, seen)
      modifies this
      ensures Tick(Value(), event, alive) == TickAll(old(Value()), seen)
    {
      if seen.state[0].Missing? {
        return Some(StateFileRemoved), false;
      }
      if seen.state[0].Unreadable? {
        return Some(ReadError), false;
      }
      for i := 0 to |files|
        invariant Value() == old(Value())
        invariant TickAll(old(Value()), seen) == TickFrom(Value(), seen, i)
      {
        var next := Optional(seen.files[i][0]);
        if next.None? {
          return Some(ReadError), false;
        }
        if next.value != files[i] {
          var settled := WaitForStable(next.value, seen.files[i][1..], Optional);
          if settled.Cancelled? {
            return None, false;
          }
          if settled.Trouble? {
            return Some(ReadError), false;
          }
          if settled.snapshot != files[i] {
            files := files[i := settled.snapshot];
            return Some(SourceKubeconfigChanged), true;
          }
        }
      }
      var nextState := Present(seen.state[0].checksum);
      if nextState != state {
        var settled := WaitForStable(nextState, seen.state[1..], Required);
        if settled.Cancelled? {
          return None, false;
        }
        if settled.Trouble? {
          return Some(ReadError), false;
        }
        nextState := settled.snapshot;
      }
      if nextState != state {
        state := nextState;
        return Some(StateFileChanged), true;
      }
      return None, true;
    }
  }

  /** A change is announced exactly when the memory moves, and it moves in one place only. */
  lemma {:induction false} OneChangePerTick(memory: Memory, seen: Reads, i: nat)
    requires Enough(|memory.files|, seen) && i <= |memory.files| && seen.state[0].Content?
    ensures var tick := TickFrom(memory, seen, i);
            && (tick.event == Some(SourceKubeconfigChanged) <==> tick.memory.files != memory.files)
            && (tick.event == Some(StateFileChanged) <==> tick.memory.state != memory.state)
            && (tick.event == Some(SourceKubeconfigChanged) ==>
                  exists k :: i <= k < |memory.files| && tick.memory.files == memory.files[k := tick.memory.files[k]])
    decreases |memory.files| - i
  {
    if i < |memory.files| {
      var next := Optional(seen.files[i][0]);
      if next.Some? {
        var settled := Settle(next.value, seen.files[i][1..], Optional);
        if next.value != memory.files[i] && settled.Stable? && settled.snapshot != memory.files[i] {
          var files := memory.files[i := settled.snapshot];
          assert files[i] != memory.files[i];
          assert files == memory.files[i := files[i]];
        } else if next.value == memory.files[i] || settled.Stable? {
          OneChangePerTick(memory, seen, i + 1);
        }
      }
    }
  }

  // ----- convergence

  /** What reading a file gives that is in this state; a kubeconfig file may be missing. */
  function OnDisk(snapshot: Snapshot): Read {
    match snapshot
    case Absent => Missing
    case Present(checksum) => Content(checksum)
  }

  /** The reads of a tick during which no file changes. */
  ghost predicate Steady(disk: Memory, seen: Reads) {
    && disk.state.Present? && Enough(|disk.files|, seen)
    && |seen.state| > 1 && (forall k :: 0 <= k < |seen.state| ==> seen.state[k] == OnDisk(disk.state))
    && (forall i :: 0 <= i < |seen.files| ==> |seen.files[i]| > 1)
    && (forall i, k :: 0 <= i < |seen.files| && 0 <= k < |seen.files[i]| ==>
          seen.files[i][k] == OnDisk(disk.files[i]))
  }

  function Differing(memory: seq<Snapshot>, disk: seq<Snapshot>): nat
    requires |memory| == |disk|
  {
    if memory == [] then 0
    else (if memory[0] == disk[0] then 0 else 1) + Differing(memory[1..], disk[1..])
  }

  lemma {:induction false} DifferingUpdate(memory: seq<Snapshot>, disk: seq<Snapshot>, i: nat)
    requires |memory| == |disk| && i < |memory| && memory[i] != disk[i]
    ensures Differing(memory[i := disk[i]], disk) == Differing(memory, disk) - 1
  {
    if i == 0 {
      assert memory[0 := disk[0]][1..] == memory[1..];
    } else {
      DifferingUpdate(memory[1..], disk[1..], i - 1);
      assert memory[i := disk[i]][1..] == memory[1..][i - 1 := disk[1..][i - 1]];
    }
  }

  lemma {:induction false} NoneDiffering(memory: seq<Snapshot>, disk: seq<Snapshot>)
    requires |memory| == |disk|
    ensures Differing(memory, disk) == 0 <==> memory == disk
  {
    if memory != [] {
      NoneDiffering(memory[1..], disk[1..]);
      assert memory == [memory[0]] + memory[1..] && disk == [disk[0]] + disk[1..];
    }
  }

  /** A tick over steady files, from kubeconfig file `i` on, when the ones before it are up to date. */
  lemma {:induction false} SteadyTickFrom(memory: Memory, disk: Memory, seen: Reads, i: nat)
    requires |memory.files| == |disk.files| && Steady(disk, seen) && i <= |disk.files|
    requires forall k :: 0 <= k < i ==> memory.files[k] == disk.files[k]
    ensures Enough(|memory.files|, seen)
    ensures var tick := TickFrom(memory, seen, i);
            && tick.alive
            && if memory.files != disk.files then
                 && tick.event == Some(SourceKubeconfigChanged) && tick.memory.state == memory.state
                 && |tick.memory.files| == |disk.files|
                 && Differing(tick.memory.files, disk.files) == Differing(memory.files, disk.files) - 1
               else if memory.state != disk.state then
                 tick.event == Some(StateFileChanged) && tick.memory == disk
               else
                 tick.event == None && tick.memory == memory
    decreases |disk.files| - i
  {
    if i < |disk.files| {
      assert seen.files[i][0] == OnDisk(disk.files[i]) && Optional(seen.files[i][0]) == Some(disk.files[i]);
      assert seen.files[i][1..][0] == seen.files[i][1];
      assert Settle(disk.files[i], seen.files[i][1..], Optional) == Stable(disk.files[i]);
      if memory.files[i] == disk.files[i] {
        SteadyTickFrom(memory, disk, seen, i + 1);
      } else {
        DifferingUpdate(memory.files, disk.files, i);
      }
    } else {
      assert memory.files == disk.files;
      assert seen.state[0] == Content(disk.state.checksum) && seen.state[1..][0] == seen.state[1];
      assert Settle(disk.state, seen.state[1..], Required) == Stable(disk.state);
    }
  }

  /** The events of successive ticks. */
  function Events(memory: Memory, ticks: seq<Reads>): seq<Option<Event>>
    requires forall k :: 0 <= k < |ticks| ==> Enough(|memory.files|, ticks[k])
    decreases |ticks|
  {
    if ticks == [] then []
    else
      var tick := TickAll(memory, ticks[0]);
      if tick.alive then [tick.event] + Events(tick.memory, ticks[1..]) else [tick.event]
  }

  /** The event a poller owes in the `k`-th tick from now: one per kubeconfig file that differs, then the
  state file's, then nothing for ever. */
  function Owed(memory: Memory, disk: Memory, k: nat): Option<Event>
    requires |memory.files| == |disk.files|
  {
    var files := Differing(memory.files, disk.files);
    if k < files then Some(SourceKubeconfigChanged)
    else if k == files && memory.state != disk.state then Some(StateFileChanged)
    else None
  }

  /** Convergence: once the files stop changing, each tick announces one change while any file differs from
  what the watcher remembers, kubeconfig files before the state file, and then no tick announces anything. */
  lemma {:induction false} Converges(memory: Memory, disk: Memory, ticks: seq<Reads>)
    requires |memory.files| == |disk.files|
    requires forall k :: 0 <= k < |ticks| ==> Steady(disk, ticks[k])
    ensures forall k :: 0 <= k < |ticks| ==> Enough(|memory.files|, ticks[k])
    ensures |Events(memory, ticks)| == |ticks|
    ensures forall k :: 0 <= k < |ticks| ==> Events(memory, ticks)[k] == Owed(memory, disk, k)
    decreases |ticks|
  {
    if ticks != [] {
      assert Steady(disk, ticks[0]) && ticks[0].state[0].Content?;
      SteadyTickFrom(memory, disk, ticks[0], 0);
      NoneDiffering(memory.files, disk.files);
      var tick := TickAll(memory, ticks[0]);
      Converges(tick.memory, disk, ticks[1..]);
      NoneDiffering(tick.memory.files, disk.files);
      forall k | 0 <= k < |ticks|
        ensures Events(memory, ticks)[k] == Owed(memory, disk, k)
      {
        if k > 0 {
          assert Events(memory, ticks)[k] == Events(tick.memory, ticks[1..])[k - 1];
        }
      }
    }
  }

  // ----- the end of polling

  /** The state file must be there and every file readable, or else the poller reports it and stops; it also stops,
  without a report, when it is cancelled while a file settles. Whenever it stops, it has forgotten nothing. */
  lemma PollingEnds(memory: Memory, seen: Reads)
    requires Enough(|memory.files|, seen)
    ensures var tick := TickAll(memory, seen);
            && (tick.event == Some(StateFileRemoved) <==> seen.state[0].Missing?)
            && (seen.state[0].Unreadable? ==> tick.event == Some(ReadError))
            && (tick.event == Some(StateFileRemoved) || tick.event == Some(ReadError) ==> !tick.alive)
            && (tick.event == Some(StateFileChanged) || tick.event == Some(SourceKubeconfigChanged) ==> tick.alive)
            && (!tick.alive ==> tick.memory == memory)
            && (tick.alive && tick.event == None ==> tick.memory == memory)
  {
    if seen.state[0].Content? { StopsUnchanged(memory, seen, 0); }
  }

  lemma {:induction false} StopsUnchanged(memory: Memory, seen: Reads, i: nat)
    requires Enough(|memory.files|, seen) && i <= |memory.files| && seen.state[0].Content?
    ensures var tick := TickFrom(memory, seen, i);
            && tick.event != Some(StateFileRemoved) && (tick.event == Some(ReadError) ==> !tick.alive)
            && (!tick.alive ==> tick.memory == memory && (tick.event == None || tick.event == Some(ReadError)))
            && (tick.event == None ==> tick.memory == memory)
    decreases |memory.files| - i
  {
    if i < |memory.files| { StopsUnchanged(memory, seen, i + 1); }
  }

  /** An unreadable kubeconfig file is reported when the ones before it are as remembered. */
  lemma {:induction false} UnreadableReported(memory: Memory, seen: Reads, i: nat, k: nat)
    requires Enough(|memory.files|, seen) && i <= k < |memory.files| && seen.state[0].Content?
    requires seen.files[k][0].Unreadable? && forall j :: i <= j < k ==> seen.files[j][0] == OnDisk(memory.files[j])
    ensures TickFrom(memory, seen, i) == Tick(memory, Some(ReadError), false)
    decreases k - i
  {
    if i < k { UnreadableReported(memory, seen, i + 1, k); }
  }

  /** Settling in full: a read that fails ends it as trouble, two reads in a row that agree as stable, whichever
  comes first; with neither it lasts until it is cancelled. */
  lemma {:induction false} SettleMeaning(snapshot: Snapshot, seen: seq<Read>, view: Read -> Option<Snapshot>, k: nat)
    requires k <= |seen|
    requires forall j: nat :: j < k ==> view(seen[j]).Some? && view(seen[j]) != ReadBefore(snapshot, seen, view, j)
    ensures k == |seen| ==> Settle(snapshot, seen, view) == Cancelled
    ensures k < |seen| && view(seen[k]).None? ==> Settle(snapshot, seen, view) == Trouble
    ensures k < |seen| && view(seen[k]).Some? && view(seen[k]) == ReadBefore(snapshot, seen, view, k) ==>
              Settle(snapshot, seen, view) == Stable(view(seen[k]).value)
    decreases |seen|
  {
    if k > 0 {
      assert view(seen[0]).Some? && view(seen[0]) != ReadBefore(snapshot, seen, view, 0);
      var next := view(seen[0]).value;
      forall j: nat | j < k - 1
        ensures view(seen[1..][j]).Some? && view(seen[1..][j]) != ReadBefore(next, seen[1..], view, j)
      {
        assert view(seen[j + 1]) != ReadBefore(snapshot, seen, view, j + 1);
      }
      SettleMeaning(next, seen[1..], view, k - 1);
    }
  }

  /** Everything before file `k` reads as it is remembered. */
  ghost predicate QuietBefore(memory: Memory, seen: Reads, k: nat)
    requires Enough(|memory.files|, seen) && k <= |memory.files|
  {
    seen.state[0].Content? && forall j :: 0 <= j < k ==> seen.files[j][0] == OnDisk(memory.files[j])
  }

  lemma {:induction false} QuietSkips(memory: Memory, seen: Reads, i: nat, k: nat)
    requires Enough(|memory.files|, seen) && i <= k <= |memory.files| && QuietBefore(memory, seen, k)
    ensures TickFrom(memory, seen, i) == TickFrom(memory, seen, k)
    decreases k - i
  {
    if i < k { QuietSkips(memory, seen, i + 1, k); }
  }

  /** A kubeconfig file that reads otherwise than it is remembered, present or missing, is watched until it settles:
  a different content is remembered and announced, trouble is reported and ends the polling. */
  lemma FileDiffers(memory: Memory, seen: Reads, k: nat, now: Snapshot)
    requires Enough(|memory.files|, seen) && k < |memory.files| && QuietBefore(memory, seen, k)
    requires seen.files[k][0] == OnDisk(now) && now != memory.files[k]
    ensures var settled := Settle(now, seen.files[k][1..], Optional);
            && (settled.Trouble? ==> TickAll(memory, seen) == Tick(memory, Some(ReadError), false))
            && (settled.Cancelled? ==> TickAll(memory, seen) == Tick(memory, None, false))
            && (settled.Stable? && settled.snapshot != memory.files[k] ==>
                  TickAll(memory, seen) == Tick(memory.(files := memory.files[k := settled.snapshot]),
                                                Some(SourceKubeconfigChanged), true))
            && (settled.Stable? && settled.snapshot == memory.files[k] ==>
                  TickAll(memory, seen) == TickFrom(memory, seen, k + 1))
  {
    QuietSkips(memory, seen, 0, k);
  }

  /** The state file in the same way, once the kubeconfig files are as remembered; it must not go missing. */
  lemma StateDiffers(memory: Memory, seen: Reads)
    requires Enough(|memory.files|, seen) && QuietBefore(memory, seen, |memory.files|)
    requires seen.state[0] != OnDisk(memory.state)
    ensures |seen.state| > 1 && (seen.state[1].Missing? || seen.state[1].Unreadable?) ==>
              TickAll(memory, seen) == Tick(memory, Some(ReadError), false)
    ensures |seen.state| > 1 && seen.state[1] == seen.state[0] ==>
              TickAll(memory, seen)
              == Tick(memory.(state := Present(seen.state[0].checksum)), Some(StateFileChanged), true)
    ensures |seen.state| > 2 && seen.state[1] == seen.state[2] == OnDisk(memory.state) && memory.state.Present? ==>
              TickAll(memory, seen) == Tick(memory, None, true)
    ensures |seen.state| == 1 ==> TickAll(memory, seen) == Tick(memory, None, false)
  {
    QuietSkips(memory, seen, 0, |memory.files|);
    if |seen.state| > 2 && seen.state[1] == seen.state[2] == OnDisk(memory.state) && memory.state.Present? {
      var rest := seen.state[1..];
      assert rest[0] == seen.state[1] && rest[1..][0] == seen.state[2];
      assert Settle(memory.state, rest[1..], Required) == Stable(memory.state);
    }
  }

  /** A tick at which every file is as remembered: no event, no waiting for anything to settle. */
  lemma NothingDiffers(memory: Memory, seen: Reads)
    requires Enough(|memory.files|, seen) && QuietBefore(memory, seen, |memory.files|)
    requires seen.state[0] == OnDisk(memory.state)
    ensures TickAll(memory, seen) == Tick(memory, None, true)
  {
    QuietSkips(memory, seen, 0, |memory.files|);
  }
}
