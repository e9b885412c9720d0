/**
 Tenant-gone deactivation: a client that keeps receiving `410 Gone` suspends its tools and, once
 a deadline has passed, uninstalls itself.

 `DeactivationService` is the service with its mutable fields.  Every method is tied to a function
 on `Service` values; the second half runs those functions as the atomic steps of a system in which
 any number of tasks interleave and the process restarts at will, and proves what holds in every run.
 */
module Deactivation {
  import opened Options

  /** Wall-clock and monotonic times are whole nanoseconds. */
  const SECOND := 1_000_000_000
  const STOP_TOOLS_AFTER_CONSECUTIVE_GONE := 5
  const PROBE_BACKOFF_INITIAL := 60 * SECOND
  const PROBE_BACKOFF_MAX := 30 * 60 * SECOND
  const UNINSTALL_AFTER := 2 * 60 * 60 * SECOND
  const POST_RESTART_GRACE := 60 * 60 * SECOND
  const U32_MAX := 0xFFFF_FFFF
  const GONE := 410

  datatype Command = StopTools | RestartTools | Uninstall

  datatype Phase = Healthy | Suspended

  /** The record behind the lock. */
  datatype State = State(
    phase: Phase,
    consecutiveGone: nat,
    goneSince: Option<int>,
    probeBackoff: nat,
    uninstallTriggered: bool,
    processStarted: int)

  /** Everything the service can touch: the flag, the locked record, what it has sent on the command
      channel, and the timestamp a reader would find in the marker file. */
  datatype Service = Service(suspended: bool, state: State, commands: seq<Command>, marker: Option<int>)

  /** What one access to the marker file does.  A failed write may leave anything behind. */
  datatype Io = Done | Failed(left: Option<int>)

  function SaveMarker(ts: int, io: Io): Option<int> {
    if io.Done? then Some(ts) else io.left
  }

  function RemoveMarker(marker: Option<int>, io: Io): Option<int> {
    if io.Done? then None else marker
  }

  function LoadMarker(marker: Option<int>, io: Io): Option<int> {
    if io.Done? then marker else None
  }

  function Min(a: int, b: int): int {
    if a <= b then a else b
  }

  /** A freshly started process: only the marker survives from the previous one. */
  function Started(marker: Option<int>, clock: int, io: Io): Service {
    Service(false, State(Healthy, 0, LoadMarker(marker, io), PROBE_BACKOFF_INITIAL, false, clock), [], marker)
  }

  predicate UninstallDue(st: State, now: int, clock: int) {
    && st.phase == Suspended
    && st.goneSince.Some?
    && now - st.goneSince.value >= UNINSTALL_AFTER
    && clock - st.processStarted >= POST_RESTART_GRACE
  }

  /** The lock section of a recorded 410. */
  function GoneSection(s: Service, now: int, io: Io): Service {
    if s.state.uninstallTriggered then s else
    var first := s.state.goneSince.None?;
    var st := s.state.(
      goneSince := if first then Some(now) else s.state.goneSince,
      consecutiveGone := Min(s.state.consecutiveGone + 1, U32_MAX));
    var marker := if first then SaveMarker(now, io) else s.marker;
    if st.phase == Healthy && st.consecutiveGone >= STOP_TOOLS_AFTER_CONSECUTIVE_GONE then
      Service(true, st.(phase := Suspended, probeBackoff := PROBE_BACKOFF_INITIAL), s.commands + [StopTools], marker)
    else
      s.(state := st, marker := marker)
  }

  /** Whether that section decides that the uninstall is due. */
  predicate GoneDecision(s: Service, now: int, clock: int, io: Io) {
    !s.state.uninstallTriggered && UninstallDue(GoneSection(s, now, io).state, now, clock)
  }

  /** The lock section of a recorded 2xx. */
  function HealthySection(s: Service, io: Io): Service {
    if s.state.uninstallTriggered then s else
    var st := s.state.(consecutiveGone := 0, goneSince := None, probeBackoff := PROBE_BACKOFF_INITIAL);
    var marker := if s.state.goneSince.Some? then RemoveMarker(s.marker, io) else s.marker;
    if s.state.phase == Suspended then
      Service(false, st.(phase := Healthy), s.commands + [RestartTools], marker)
    else
      s.(state := st, marker := marker)
  }

  function RequestSection(s: Service): Service {
    s.(state := s.state.(uninstallTriggered := true))
  }

  function SendUninstall(s: Service): Service {
    s.(commands := s.commands + [Uninstall])
  }

  function NextProbe(s: Service): Service {
    s.(state := s.state.(probeBackoff := Min(s.state.probeBackoff * 2, PROBE_BACKOFF_MAX)))
  }

  /** The marker file, shared by successive processes. */
  class MarkerFile {
    var timestamp: Option<int>

    constructor (timestamp: Option<int>)
      ensures this.timestamp == timestamp
    {
      this.timestamp := timestamp;
    }

    method Save(ts: int, io: Io)
      modifies this
      ensures timestamp == SaveMarker(ts, io)
    {
      timestamp := if io.Done? then Some(ts) else io.left;
    }

    method Remove(io: Io)
      modifies this
      ensures timestamp == RemoveMarker(old(timestamp), io)
    {
      if io.Done? {
        timestamp := None;
      }
    }
  }

  class DeactivationService {
    var suspended: bool
    var phase: Phase
    var consecutiveGone: nat
    var goneSince: Option<int>
    var probeBackoff: nat
    var uninstallTriggered: bool
    const processStarted: int
    var commands: seq<Command>
    const file: MarkerFile

    function View(): Service
      reads this, file
    {
      Service(suspended,
              State(phase, consecutiveGone, goneSince, probeBackoff, uninstallTriggered, processStarted),
              commands, file.timestamp)
    }

    constructor (file: MarkerFile, clock: int, io: Io)
      ensures this.file == file
      ensures View() == Started(file.timestamp, clock, io)
    {
      this.file := file;
      goneSince := LoadMarker(file.timestamp, io);
      suspended, phase, consecutiveGone := false, Healthy, 0;
      probeBackoff, uninstallTriggered := PROBE_BACKOFF_INITIAL, false;
      processStarted, commands := clock, [];
    }

    method RecordGoneLocked(now: int, clock: int, io: Io) returns (due: bool)
      modifies this, file
      ensures View() == GoneSection(old(View()), now, io)
      ensures due == GoneDecision(old(View()), now, clock, io)
    {
      if uninstallTriggered {
        return false;
      }
      if goneSince.None? {
        goneSince := Some(now);
        file.Save(now, io);
      }
      consecutiveGone := if consecutiveGone < U32_MAX then consecutiveGone + 1 else U32_MAX;
      if phase == Healthy && consecutiveGone >= STOP_TOOLS_AFTER_CONSECUTIVE_GONE {
        phase := Suspended;
        probeBackoff := PROBE_BACKOFF_INITIAL;
        suspended := true;
        commands := commands + [StopTools];
      }
      due := UninstallDue(View().state, now, clock);
    }

    method RecordHealthy(io: Io)
      modifies this, file
      ensures View() == HealthySection(old(View()), io)
    {
      if uninstallTriggered {
        return;
      }
      var wasSuspended, hadMarker := phase == Suspended, goneSince.Some?;
      consecutiveGone, goneSince, probeBackoff := 0, None, PROBE_BACKOFF_INITIAL;
      if hadMarker {
        file.Remove(io);
      }
      if wasSuspended {
        phase := Healthy;
        suspended := false;
        commands := commands + [RestartTools];
      }
    }

    /** The locked half of `request_uninstall`: only the first request wins. */
    method TakeRequest() returns (won: bool)
      modifies this
      ensures won == !old(uninstallTriggered)
      ensures View() == if won then RequestSection(old(View())) else old(View())
    {
      won := !uninstallTriggered;
      uninstallTriggered := true;
    }

    /** The other half, outside the lock: other tasks may have come between. */
    method SendRequest()
      modifies this
      ensures View() == SendUninstall(old(View()))
    {
      commands := commands + [Uninstall];
    }

    /** Both halves, for a caller that no other task interrupts. */
    method RequestUninstall()
      modifies this
      ensures View() == if old(uninstallTriggered) then old(View()) else SendUninstall(RequestSection(old(View())))
    {
      var won := TakeRequest();
      if won {
        SendRequest();
      }
    }

    /** Feeds one HTTP status: 410 and 2xx are recorded, everything else changes nothing. */
    method OnGatewayStatus(status: nat, now: int, clock: int, io: Io)
      modifies this, file
      ensures status != 410 && !(200 <= status < 300) ==> View() == old(View())
      ensures 200 <= status < 300 ==> View() == HealthySection(old(View()), io)
      ensures status == 410 ==>
                View() == var s := GoneSection(old(View()), now, io);
                          if GoneDecision(old(View()), now, clock, io) then SendUninstall(RequestSection(s)) else s
    {
      if status == GONE {
        var due := RecordGoneLocked(now, clock, io);
        if due {
          RequestUninstall();
        }
      } else if 200 <= status < 300 {
        RecordHealthy(io);
      }
    }

    method NextProbeDelay() returns (delay: nat)
      modifies this
      ensures delay == old(probeBackoff)
      ensures View() == NextProbe(old(View()))
    {
      delay := probeBackoff;
      probeBackoff := Min(probeBackoff * 2, PROBE_BACKOFF_MAX);
    }
  }

  // ---------------------------------------------------------------------------------------------
  // The system: any number of tasks around one lock, and restarts of the process
  // ---------------------------------------------------------------------------------------------

  /** Where a task stands between lock sections: it may owe the uninstall request, or the send that
      follows a request that won. */
  datatype Task = Idle | MustRequest | MustSend

  /** The statuses the service recorded, in the order in which they took the lock, and the restarts. */
  datatype Entry = GoneEntry(now: int, clock: int, due: bool) | HealthyEntry | Boot(clock: int)

  /** `synced` says that the last access to the marker file succeeded; `faultless`, that all did. */
  datatype System = System(
    svc: Service, tasks: map<nat, Task>, log: seq<Entry>, recoveries: nat, synced: bool, faultless: bool)

  /** `now` in `Reply` was read before the lock was taken, so it may lag behind earlier entries. */
  datatype Step =
    | Reply(task: nat, status: nat, now: int, clock: int, io: Io)
    | CallUninstall(task: nat)
    | TakeRequestLock(task: nat)
    | Send(task: nat)
    | Probe
    | Restart(clock: int, io: Io)

  function TaskAt(sys: System, t: nat): Task {
    if t in sys.tasks then sys.tasks[t] else Idle
  }

  /** The first process after installation: there is no marker file yet. */
  function Init(clock: int): System {
    System(Started(None, clock, Done), map[], [Boot(clock)], 0, true, true)
  }

  function Accessed(sys: System, io: Io): System {
    sys.(synced := io.Done?, faultless := sys.faultless && io.Done?)
  }

  /** A reply is recorded unless the uninstall has been triggered; the sections see to the rest themselves. */
  function Logged(sys: System, e: Entry): seq<Entry> {
    if sys.svc.state.uninstallTriggered then sys.log else sys.log + [e]
  }

  function RecordGone(sys: System, t: nat, now: int, clock: int, io: Io): System {
    var due := GoneDecision(sys.svc, now, clock, io);
    var sys' := sys.(
      svc := GoneSection(sys.svc, now, io),
      tasks := sys.tasks[t := if due then MustRequest else Idle],
      log := Logged(sys, GoneEntry(now, clock, due)));
    if sys.svc.state.goneSince.None? && !sys.svc.state.uninstallTriggered then Accessed(sys', io) else sys'
  }

  function RecordHealthy(sys: System, io: Io): System {
    var sys' := sys.(
      svc := HealthySection(sys.svc, io),
      log := Logged(sys, HealthyEntry),
      recoveries := sys.recoveries + if sys.svc.state.phase == Suspended && !sys.svc.state.uninstallTriggered then 1 else 0);
    if sys.svc.state.goneSince.Some? && !sys.svc.state.uninstallTriggered then Accessed(sys', io) else sys'
  }

  /** One step; a step that is not enabled changes nothing. */
  function Next(sys: System, step: Step): System {
    var s := sys.svc;
    match step
    case Reply(t, status, now, clock, io) =>
      if TaskAt(sys, t) != Idle then
        sys
      else if status == GONE then
        RecordGone(sys, t, now, clock, io)
      else if 200 <= status < 300 then
        RecordHealthy(sys, io)
      else
        sys
    case CallUninstall(t) =>
      if TaskAt(sys, t) == Idle then sys.(tasks := sys.tasks[t := MustRequest]) else sys
    case TakeRequestLock(t) =>
      if TaskAt(sys, t) != MustRequest then
        sys
      else if s.state.uninstallTriggered then
        sys.(tasks := sys.tasks[t := Idle])
      else
        sys.(svc := RequestSection(s), tasks := sys.tasks[t := MustSend])
    case Send(t) =>
      if TaskAt(sys, t) == MustSend then sys.(svc := SendUninstall(s), tasks := sys.tasks[t := Idle]) else sys
    case Probe =>
      sys.(svc := NextProbe(s))
    case Restart(clock, io) =>
      Accessed(System(Started(s.marker, clock, io), map[], sys.log + [Boot(clock)], 0, sys.synced, sys.faultless), io)
  }

  function Run(sys: System, steps: seq<Step>): System {
    if steps == [] then sys else Next(Run(sys, steps[..|steps| - 1]), steps[|steps| - 1])
  }

  lemma {:induction false} RunSnoc(sys: System, steps: seq<Step>, step: Step)
    ensures Run(sys, steps + [step]) == Next(Run(sys, steps), step)
  {
    assert (steps + [step])[..|steps|] == steps;
  }

  // ---------------------------------------------------------------------------------------------
  // What the log says, independently of the service's counters
  // ---------------------------------------------------------------------------------------------

  /** The number of 410s at the end of the log: no 2xx and no restart among them. */
  function TrailingGone(log: seq<Entry>): nat {
    if log == [] || !log[|log| - 1].GoneEntry? then 0 else 1 + TrailingGone(log[..|log| - 1])
  }

  function AfterEntry(first: Option<int>, e: Entry): Option<int> {
    match e
    case GoneEntry(now, _, _) => first.Or(Some(now))
    case HealthyEntry => None
    case Boot(_) => first
  }

  /** The time of the first 410 after the last 2xx, across restarts. */
  function FirstGone(log: seq<Entry>): Option<int> {
    if log == [] then None else AfterEntry(FirstGone(log[..|log| - 1]), log[|log| - 1])
  }

  /** When the process that wrote the last entries was started. */
  function BootClock(log: seq<Entry>): int {
    if log == [] then 0
    else if log[|log| - 1].Boot? then log[|log| - 1].clock
    else BootClock(log[..|log| - 1])
  }

  lemma {:induction false} TrailingGoneMeansLastEntries(log: seq<Entry>, n: nat)
    ensures TrailingGone(log) >= n <==>
            n <= |log| && forall i :: |log| - n <= i < |log| ==> log[i].GoneEntry?
  {
    if n > 0 && log != [] {
      var prefix := log[..|log| - 1];
      TrailingGoneMeansLastEntries(prefix, n - 1);
      assert forall i :: 0 <= i < |prefix| ==> prefix[i] == log[i];
    }
  }

  /** `FirstGone` is `Some(ts)` exactly when some entry is a 410 at `ts`, no 2xx follows it, and
      every earlier 410 is cut off from it by a 2xx. */
  ghost predicate IsFirstGone(log: seq<Entry>, i: int) {
    && 0 <= i < |log| && log[i].GoneEntry?
    && (forall j :: i < j < |log| ==> !log[j].HealthyEntry?)
    && (forall j :: 0 <= j < i && log[j].GoneEntry? ==> exists k :: j < k < i && log[k].HealthyEntry?)
  }

  lemma {:induction false} FirstGoneIsAfterLastHealthy(log: seq<Entry>)
    ensures FirstGone(log).None? <==>
            forall i :: 0 <= i < |log| && log[i].GoneEntry? ==> exists k :: i < k < |log| && log[k].HealthyEntry?
    ensures FirstGone(log).Some? ==>
              exists i :: IsFirstGone(log, i) && log[i].now == FirstGone(log).value
  {
    if log != [] {
      var n := |log| - 1;
      var prefix := log[..n];
      FirstGoneIsAfterLastHealthy(prefix);
      assert forall i :: 0 <= i < n ==> prefix[i] == log[i];
      if log[n].HealthyEntry? {
      } else if FirstGone(prefix).Some? {
        var i :| IsFirstGone(prefix, i) && prefix[i].now == FirstGone(prefix).value;
        assert forall j :: 0 <= j < i && log[j].GoneEntry? ==> exists k :: j < k < i && log[k].HealthyEntry? by {
          forall j | 0 <= j < i && log[j].GoneEntry? ensures exists k :: j < k < i && log[k].HealthyEntry? {
            assert prefix[j].GoneEntry?;
            var k :| j < k < i && prefix[k].HealthyEntry?;
            assert log[k].HealthyEntry?;
          }
        }
        assert IsFirstGone(log, i);
        assert !exists k :: i < k < |log| && log[k].HealthyEntry?;
      } else {
        forall j | 0 <= j < n && log[j].GoneEntry? ensures exists k :: j < k < n && log[k].HealthyEntry? {
          assert prefix[j].GoneEntry?;
          var k :| j < k < n && prefix[k].HealthyEntry?;
          assert log[k].HealthyEntry?;
        }
        if log[n].GoneEntry? {
          assert IsFirstGone(log, n);
        }
      }
    }
  }

  // ---------------------------------------------------------------------------------------------
  // What every run keeps
  // ---------------------------------------------------------------------------------------------

  function Cycles(n: nat): seq<Command> {
    if n == 0 then [] else Cycles(n - 1) + [StopTools, RestartTools]
  }

  /** The words of (StopTools RestartTools)* StopTools? Uninstall? */
  function Stream(n: nat, stopped: bool, uninstalled: bool): seq<Command> {
    Cycles(n) + (if stopped then [StopTools] else []) + (if uninstalled then [Uninstall] else [])
  }

  ghost predicate SomeTaskSends(sys: System) {
    exists t :: TaskAt(sys, t) == MustSend
  }

  /** The conditions the design sets for the 410 recorded at position `i` to decide the uninstall:
      five in a row within this process, a process that has run an hour, and two hours since the
      first 410 after the last 2xx. */
  ghost predicate FiveInARow(log: seq<Entry>, i: int)
    requires 0 <= i < |log|
  {
    TrailingGone(log[..i + 1]) >= 5
  }

  /** The process had run an hour. */
  ghost predicate HourOld(log: seq<Entry>, i: int)
    requires 0 <= i < |log| && log[i].GoneEntry?
  {
    log[i].clock - BootClock(log[..i + 1]) >= 60 * 60 * SECOND
  }

  ghost predicate Deadline(log: seq<Entry>, i: int)
    requires 0 <= i < |log| && log[i].GoneEntry?
  {
    && FiveInARow(log, i)
    && HourOld(log, i)
    && FirstGone(log[..i + 1]).Some?
    && log[i].now - FirstGone(log[..i + 1]).value >= 2 * 60 * 60 * SECOND
  }

  ghost predicate DueEntriesOk(log: seq<Entry>, faultless: bool) {
    forall i :: 0 <= i < |log| && log[i].GoneEntry? ==>
      && (log[i].due ==> FiveInARow(log, i) && HourOld(log, i))
      && (faultless ==> (log[i].due <==> Deadline(log, i)))
  }

  /** The flag, the phase and the counter all follow the log. */
  ghost predicate PhaseInv(sys: System) {
    var st := sys.svc.state;
    && (sys.svc.suspended <==> st.phase == Suspended)
    && st.consecutiveGone == Min(TrailingGone(sys.log), U32_MAX)
    && (st.phase == Suspended <==> st.consecutiveGone >= STOP_TOOLS_AFTER_CONSECUTIVE_GONE)
    && st.processStarted == BootClock(sys.log)
  }

  ghost predicate StreamInv(sys: System) {
    var st := sys.svc.state;
    && sys.svc.commands == Stream(sys.recoveries, st.phase == Suspended, st.uninstallTriggered && !SomeTaskSends(sys))
    && (SomeTaskSends(sys) ==> st.uninstallTriggered)
    && (forall t, u :: TaskAt(sys, t) == MustSend && TaskAt(sys, u) == MustSend ==> t == u)
  }

  ghost predicate MarkerInv(sys: System) {
    && (sys.synced ==> sys.svc.marker == sys.svc.state.goneSince)
    && (sys.faultless ==> sys.synced && sys.svc.state.goneSince == FirstGone(sys.log))
  }

  ghost predicate Inv(sys: System) {
    && PhaseInv(sys)
    && StreamInv(sys)
    && MarkerInv(sys)
    && DueEntriesOk(sys.log, sys.faultless)
  }

  lemma DueEntriesExtend(log: seq<Entry>, e: Entry, before: bool, after: bool)
    requires DueEntriesOk(log, before) && (after ==> before)
    requires e.GoneEntry? ==>
               && (e.due ==> FiveInARow(log + [e], |log|) && HourOld(log + [e], |log|))
               && (after ==> (e.due <==> Deadline(log + [e], |log|)))
    ensures DueEntriesOk(log + [e], after)
  {
    var log' := log + [e];
    forall i | 0 <= i < |log'| && log'[i].GoneEntry?
      ensures log'[i].due ==> FiveInARow(log', i) && HourOld(log', i)
      ensures after ==> (log'[i].due <==> Deadline(log', i))
    {
      if i < |log| {
        assert log'[..i + 1] == log[..i + 1] && log'[i] == log[i];
      }
    }
  }

  lemma AppendedLog(log: seq<Entry>, e: Entry)
    ensures TrailingGone(log + [e]) == if e.GoneEntry? then 1 + TrailingGone(log) else 0
    ensures FirstGone(log + [e]) == AfterEntry(FirstGone(log), e)
    ensures BootClock(log + [e]) == if e.Boot? then e.clock else BootClock(log)
  {
    assert (log + [e])[..|log|] == log;
  }

  lemma InitInv(clock: int)
    ensures Inv(Init(clock))
  {
    assert Init(clock).log[..0] == [];
  }

  /** The decision taken under the lock is the one the log justifies. */
  lemma GoneDecisionMatchesLog(sys: System, now: int, clock: int, io: Io)
    requires Inv(sys) && !sys.svc.state.uninstallTriggered
    ensures var s := GoneSection(sys.svc, now, io);
            var due := GoneDecision(sys.svc, now, clock, io);
            var log := sys.log + [GoneEntry(now, clock, due)];
            && (s.state.phase == Suspended <==> TrailingGone(log) >= STOP_TOOLS_AFTER_CONSECUTIVE_GONE)
            && s.state.consecutiveGone == Min(TrailingGone(log), U32_MAX)
            && (sys.faultless ==> s.state.goneSince == FirstGone(log))
            && (due ==> FiveInARow(log, |sys.log|) && HourOld(log, |sys.log|))
            && (sys.faultless ==> (due <==> Deadline(log, |sys.log|)))
  {
    var e := GoneEntry(now, clock, GoneDecision(sys.svc, now, clock, io));
    AppendedLog(sys.log, e);
    assert (sys.log + [e])[..|sys.log| + 1] == sys.log + [e];
  }

  lemma GoneStreamInv(sys: System, t: nat, now: int, clock: int, io: Io)
    requires PhaseInv(sys) && StreamInv(sys) && !sys.svc.state.uninstallTriggered
    ensures StreamInv(RecordGone(sys, t, now, clock, io))
  {
    var sys' := RecordGone(sys, t, now, clock, io);
    assert forall u :: TaskAt(sys, u) != MustSend;
    assert forall u :: TaskAt(sys', u) == if u != t then TaskAt(sys, u) else sys'.tasks[t];
    assert !SomeTaskSends(sys');
  }

  lemma GoneInv(sys: System, t: nat, now: int, clock: int, io: Io)
    requires Inv(sys) && !sys.svc.state.uninstallTriggered
    ensures Inv(RecordGone(sys, t, now, clock, io))
  {
    var sys' := RecordGone(sys, t, now, clock, io);
    GoneStreamInv(sys, t, now, clock, io);
    GoneDecisionMatchesLog(sys, now, clock, io);
    DueEntriesExtend(sys.log, sys'.log[|sys.log|], sys.faultless, sys'.faultless);
  }

  lemma HealthyStreamInv(sys: System, io: Io)
    requires PhaseInv(sys) && StreamInv(sys) && !sys.svc.state.uninstallTriggered
    ensures StreamInv(RecordHealthy(sys, io))
  {
    var sys' := RecordHealthy(sys, io);
    assert forall u :: TaskAt(sys', u) == TaskAt(sys, u);
    assert !SomeTaskSends(sys');
  }

  lemma HealthyInv(sys: System, io: Io)
    requires Inv(sys) && !sys.svc.state.uninstallTriggered
    ensures Inv(RecordHealthy(sys, io))
  {
    var sys' := RecordHealthy(sys, io);
    HealthyStreamInv(sys, io);
    AppendedLog(sys.log, HealthyEntry);
    DueEntriesExtend(sys.log, HealthyEntry, sys.faultless, sys'.faultless);
  }

  lemma RequestInv(sys: System, step: Step)
    requires Inv(sys) && (step.CallUninstall? || step.TakeRequestLock? || step.Send?)
    ensures Inv(Next(sys, step))
  {
    var sys' := Next(sys, step);
    assert forall u :: u != step.task ==> TaskAt(sys', u) == TaskAt(sys, u);
    if sys' != sys && step.TakeRequestLock? && !sys.svc.state.uninstallTriggered {
      assert TaskAt(sys', step.task) == MustSend;
    }
    if sys' != sys && step.Send? {
      assert TaskAt(sys, step.task) == MustSend;
      assert !SomeTaskSends(sys');
    }
  }

  lemma RestartInv(sys: System, clock: int, io: Io)
    requires Inv(sys)
    ensures Inv(Next(sys, Restart(clock, io)))
  {
    AppendedLog(sys.log, Boot(clock));
    var sys' := Next(sys, Restart(clock, io));
    DueEntriesExtend(sys.log, Boot(clock), sys.faultless, sys'.faultless);
    assert forall u :: TaskAt(sys', u) == Idle;
  }

  /** Once the uninstall has been triggered, replies change nothing but free their task. */
  lemma ReplyAfterTrigger(sys: System, step: Step)
    requires step.Reply? && TaskAt(sys, step.task) == Idle && sys.svc.state.uninstallTriggered
    ensures var sys' := Next(sys, step);
            sys'.svc == sys.svc && sys'.log == sys.log && sys'.recoveries == sys.recoveries
            && sys'.synced == sys.synced && sys'.faultless == sys.faultless
            && (forall u :: TaskAt(sys', u) == TaskAt(sys, u))
            && (Inv(sys) ==> Inv(sys'))
  {
    var sys' := Next(sys, step);
    assert forall u :: TaskAt(sys', u) == TaskAt(sys, u);
    if SomeTaskSends(sys) {
      var u :| TaskAt(sys, u) == MustSend;
      assert TaskAt(sys', u) == MustSend;
    }
  }

  lemma NextInv(sys: System, step: Step)
    requires Inv(sys)
    ensures Inv(Next(sys, step))
  {
    match step
    case Reply(t, status, now, clock, io) =>
      if TaskAt(sys, t) == Idle && sys.svc.state.uninstallTriggered {
        ReplyAfterTrigger(sys, step);
      } else if TaskAt(sys, t) == Idle {
        if status == GONE {
          GoneInv(sys, t, now, clock, io);
        } else if 200 <= status < 300 {
          HealthyInv(sys, io);
        }
      }
    case Probe =>
      assert forall u :: TaskAt(Next(sys, step), u) == TaskAt(sys, u);
    case Restart(clock, io) => RestartInv(sys, clock, io);
    case _ => RequestInv(sys, step);
  }

  lemma {:induction false} RunInv(clock: int, steps: seq<Step>)
    ensures Inv(Run(Init(clock), steps))
  {
    if steps == [] {
      InitInv(clock);
    } else {
      RunInv(clock, steps[..|steps| - 1]);
      NextInv(Run(Init(clock), steps[..|steps| - 1]), steps[|steps| - 1]);
    }
  }

  // ---------------------------------------------------------------------------------------------
  // Safety over whole runs
  // ---------------------------------------------------------------------------------------------

  lemma StreamMembership(n: nat, stopped: bool, uninstalled: bool)
    ensures Uninstall in Stream(n, stopped, uninstalled) <==> uninstalled
    ensures n > 0 ==> Cycles(n)[|Cycles(n)| - 1] == RestartTools
  {
    if n > 0 {
      StreamMembership(n - 1, stopped, uninstalled);
      assert Uninstall !in Cycles(n - 1) by {
        StreamMembership(n - 1, false, false);
        assert Stream(n - 1, false, false) == Cycles(n - 1);
      }
    }
  }

  /** In every interleaving the commands of a process follow the pattern, the gate is closed exactly
      while the tools are stopped, and a triggered uninstall is sent once or still owed by one task.
      The uninstall finds the tools stopped exactly when the process was suspended at the request:
      after that nothing recorded changes it. */
  lemma CommandsFollowThePattern(clock: int, steps: seq<Step>)
    ensures var sys := Run(Init(clock), steps);
            && (exists n, stopped, uninstalled :: sys.svc.commands == Stream(n, stopped, uninstalled))
            && (sys.svc.suspended <==> sys.svc.state.phase == Suspended)
            && (sys.svc.state.uninstallTriggered <==> SomeTaskSends(sys) || Uninstall in sys.svc.commands)
            && !(SomeTaskSends(sys) && Uninstall in sys.svc.commands)
            && (Uninstall in sys.svc.commands ==>
                  var m := |sys.svc.commands|;
                  (m >= 2 && sys.svc.commands[m - 2] == StopTools <==> sys.svc.suspended))
  {
    var sys := Run(Init(clock), steps);
    RunInv(clock, steps);
    var stopped, uninstalled := sys.svc.state.phase == Suspended, sys.svc.state.uninstallTriggered && !SomeTaskSends(sys);
    StreamMembership(sys.recoveries, stopped, uninstalled);
    assert sys.svc.commands == Stream(sys.recoveries, stopped, uninstalled);
  }

  predicate LastFiveGone(log: seq<Entry>) {
    5 <= |log| && forall i :: |log| - 5 <= i < |log| ==> log[i].GoneEntry?
  }

  /** Outbound calls are gated exactly when the last five recorded replies of this process are 410. */
  lemma SuspendedIffLastFiveGone(clock: int, steps: seq<Step>)
    ensures var sys := Run(Init(clock), steps);
            sys.svc.suspended <==> LastFiveGone(sys.log)
  {
    RunInv(clock, steps);
    TrailingGoneMeansLastEntries(Run(Init(clock), steps).log, 5);
  }

  /** An uninstall that was sent finds the tools stopped exactly if the last five recorded replies are 410. */
  lemma UninstallFindsToolsStoppedIff(clock: int, steps: seq<Step>)
    requires Uninstall in Run(Init(clock), steps).svc.commands
    ensures var sys := Run(Init(clock), steps);
            var m := |sys.svc.commands|;
            (m >= 2 && sys.svc.commands[m - 2] == StopTools)
            <==> LastFiveGone(sys.log)
  {
    CommandsFollowThePattern(clock, steps);
    SuspendedIffLastFiveGone(clock, steps);
  }

  predicate AllDone(steps: seq<Step>) {
    forall step :: step in steps ==>
      && (step.Reply? ==> step.io.Done?)
      && (step.Restart? ==> step.io.Done?)
  }

  lemma StepIsFaultless(sys: System, step: Step)
    requires sys.faultless && (step.Reply? || step.Restart? ==> step.io.Done?)
    ensures Next(sys, step).faultless
  {
  }

  lemma {:induction false} AllDoneIsFaultless(clock: int, steps: seq<Step>)
    requires AllDone(steps)
    ensures Run(Init(clock), steps).faultless
  {
    if steps != [] {
      var n := |steps| - 1;
      assert forall step :: step in steps[..n] ==> step in steps;
      AllDoneIsFaultless(clock, steps[..n]);
      assert steps[n] in steps;
      StepIsFaultless(Run(Init(clock), steps[..n]), steps[n]);
    }
  }

  /** Across restarts, the marker reads back as the time kept in memory whenever the last access to
      it succeeded; if every access did, that time is the first 410 after the last 2xx. */
  lemma MarkerHoldsFirstGone(clock: int, steps: seq<Step>)
    ensures var sys := Run(Init(clock), steps);
            && (sys.synced ==> sys.svc.marker == sys.svc.state.goneSince)
            && (AllDone(steps) ==> sys.svc.marker == sys.svc.state.goneSince == FirstGone(sys.log))
  {
    RunInv(clock, steps);
    if AllDone(steps) {
      AllDoneIsFaultless(clock, steps);
    }
  }

  /** A 410 decides the uninstall exactly when the deadline conditions hold. */
  lemma DueExactlyAtDeadline(clock: int, steps: seq<Step>, i: int)
    requires AllDone(steps)
    requires 0 <= i < |Run(Init(clock), steps).log| && Run(Init(clock), steps).log[i].GoneEntry?
    ensures var log := Run(Init(clock), steps).log; log[i].due <==> Deadline(log, i)
  {
    RunInv(clock, steps);
    AllDoneIsFaultless(clock, steps);
  }

  /** A due 410 recorded by the current process. */
  ghost predicate DueThisProcess(log: seq<Entry>, i: int) {
    && 0 <= i < |log| && log[i].GoneEntry? && log[i].due
    && forall j :: i < j < |log| ==> !log[j].Boot?
  }

  ghost predicate Requested(sys: System) {
    sys.svc.state.uninstallTriggered || exists t :: TaskAt(sys, t) == MustRequest
  }

  /** A step that records no due 410 creates no request. */
  lemma RequestedBefore(sys: System, step: Step)
    requires !step.CallUninstall? && Requested(Next(sys, step))
    requires var log := Next(sys, step).log;
             !(|log| > |sys.log| && log[|sys.log|].GoneEntry? && log[|sys.log|].due)
    ensures Requested(sys) && !step.Restart?
  {
    var sys' := Next(sys, step);
    if sys'.svc.state.uninstallTriggered && !sys.svc.state.uninstallTriggered {
      assert step.TakeRequestLock? && TaskAt(sys, step.task) == MustRequest;
    } else if !sys.svc.state.uninstallTriggered {
      var t :| TaskAt(sys', t) == MustRequest;
      assert TaskAt(sys, t) == MustRequest;
    }
  }

  lemma NextRequested(sys: System, step: Step)
    requires Requested(sys) ==> exists i :: DueThisProcess(sys.log, i)
    requires !step.CallUninstall? && Requested(Next(sys, step))
    ensures exists i :: DueThisProcess(Next(sys, step).log, i)
  {
    var sys' := Next(sys, step);
    if |sys'.log| > |sys.log| && sys'.log[|sys.log|].GoneEntry? && sys'.log[|sys.log|].due {
      assert DueThisProcess(sys'.log, |sys.log|);
    } else {
      RequestedBefore(sys, step);
      var i :| DueThisProcess(sys.log, i);
      assert DueThisProcess(sys'.log, i);
    }
  }

  lemma {:induction false} RunRequested(clock: int, steps: seq<Step>)
    requires forall step :: step in steps ==> !step.CallUninstall?
    ensures Requested(Run(Init(clock), steps)) ==> exists i :: DueThisProcess(Run(Init(clock), steps).log, i)
  {
    if steps != [] {
      var n := |steps| - 1;
      assert steps[n] in steps;
      RunRequested(clock, steps[..n]);
      if Requested(Run(Init(clock), steps)) {
        NextRequested(Run(Init(clock), steps[..n]), steps[n]);
      }
    }
  }

  /** Unless someone else asks for it, a process sends the uninstall only after recording a 410 that
      met the deadline: no marker left by an earlier process and no burst of 410s is enough. */
  lemma UninstallOnlyAfterDeadline(clock: int, steps: seq<Step>)
    requires AllDone(steps) && forall step :: step in steps ==> !step.CallUninstall?
    requires Uninstall in Run(Init(clock), steps).svc.commands
    ensures var log := Run(Init(clock), steps).log;
            exists i :: DueThisProcess(log, i) && Deadline(log, i)
  {
    CommandsFollowThePattern(clock, steps);
    RunRequested(clock, steps);
    var i :| DueThisProcess(Run(Init(clock), steps).log, i);
    DueExactlyAtDeadline(clock, steps, i);
  }

  function GoneAt(now: int): Step {
    Reply(0, GONE, now, POST_RESTART_GRACE, Done)
  }

  function Gones(n: nat): (steps: seq<Step>)
    ensures |steps| == n && (n > 0 ==> steps[n - 1] == GoneAt(0))
  {
    if n == 0 then [] else Gones(n - 1) + [GoneAt(0)]
  }

  predicate Counted(sys: System, n: nat) {
    && sys.svc == Service(false, State(Healthy, n, if n == 0 then None else Some(0), PROBE_BACKOFF_INITIAL, false, 0), [],
                          if n == 0 then None else Some(0))
    && TaskAt(sys, 0) == TaskAt(sys, 1) == Idle
  }

  lemma OneMoreGone(sys: System, n: nat)
    requires Counted(sys, n) && n < 4
    ensures Counted(Next(sys, GoneAt(0)), n + 1)
  {
    assert !GoneDecision(sys.svc, 0, POST_RESTART_GRACE, Done);
  }

  lemma {:induction false} FourGone(n: nat)
    requires n <= 4
    ensures Counted(Run(Init(0), Gones(n)), n)
  {
    if n > 0 {
      FourGone(n - 1);
      assert Gones(n)[..n - 1] == Gones(n - 1);
      OneMoreGone(Run(Init(0), Gones(n - 1)), n - 1);
    }
  }

  /** The fifth 410, at the deadline, suspends and decides. */
  lemma FifthGone(sys: System)
    requires Counted(sys, 4)
    ensures var sys' := Next(sys, GoneAt(UNINSTALL_AFTER));
            && sys'.svc.commands == [StopTools] && sys'.svc.state.phase == Suspended && !sys'.svc.state.uninstallTriggered
            && TaskAt(sys', 0) == MustRequest && TaskAt(sys', 1) == Idle
  {
    assert GoneDecision(sys.svc, UNINSTALL_AFTER, POST_RESTART_GRACE, Done);
  }

  lemma AfterTheFifth(sys: System)
    requires sys.svc.commands == [StopTools] && sys.svc.state.phase == Suspended && !sys.svc.state.uninstallTriggered
    requires TaskAt(sys, 0) == MustRequest && TaskAt(sys, 1) == Idle
    ensures Next(Next(Next(sys, Reply(1, 200, 0, 0, Done)), TakeRequestLock(0)), Send(0)).svc.commands
            == [StopTools, RestartTools, Uninstall]
  {
    var recovered := Next(sys, Reply(1, 200, 0, 0, Done));
    assert recovered == RecordHealthy(sys, Done) && TaskAt(recovered, 0) == MustRequest;
    var requested := Next(recovered, TakeRequestLock(0));
    assert TaskAt(requested, 0) == MustSend && requested.svc.commands == [StopTools, RestartTools];
  }

  /** The decision is acted on after the lock is dropped, so a recovery can slip in between: a run in
      which the tools have been restarted when the uninstall is sent. */
  lemma UninstallCanFollowRecovery() returns (steps: seq<Step>)
    ensures Run(Init(0), steps).svc.commands == [StopTools, RestartTools, Uninstall]
  {
    FourGone(4);
    var due := Gones(4) + [GoneAt(UNINSTALL_AFTER)];
    RunSnoc(Init(0), Gones(4), GoneAt(UNINSTALL_AFTER));
    FifthGone(Run(Init(0), Gones(4)));
    var recovered := due + [Reply(1, 200, 0, 0, Done)];
    RunSnoc(Init(0), due, Reply(1, 200, 0, 0, Done));
    var requested := recovered + [TakeRequestLock(0)];
    RunSnoc(Init(0), recovered, TakeRequestLock(0));
    steps := requested + [Send(0)];
    RunSnoc(Init(0), requested, Send(0));
    AfterTheFifth(Run(Init(0), due));
  }

  // ---------------------------------------------------------------------------------------------
  // Probe backoff
  // ---------------------------------------------------------------------------------------------

  function Pow2(n: nat): nat {
    if n == 0 then 1 else 2 * Pow2(n - 1)
  }

  /** The step suspends, is a recorded 2xx, or starts a process. */
  predicate ResetsBackoff(before: System, after: System) {
    || (!LastFiveGone(before.log) && LastFiveGone(after.log))
    || (|after.log| > |before.log| && !after.log[|after.log| - 1].GoneEntry?)
  }

  /** The probes since the 410 that suspended, or since the last 2xx or start of a process if that is later. */
  function ProbesSince(clock: int, steps: seq<Step>): nat {
    if steps == [] then 0
    else
      var prefix, step := steps[..|steps| - 1], steps[|steps| - 1];
      if step.Probe? then ProbesSince(clock, prefix) + 1
      else if ResetsBackoff(Run(Init(clock), prefix), Run(Init(clock), steps)) then 0
      else ProbesSince(clock, prefix)
  }

  ghost predicate SuspendedByLog(sys: System) {
    sys.svc.state.phase == Suspended <==> LastFiveGone(sys.log)
  }

  lemma {:induction false} RunSuspendedByLog(clock: int, steps: seq<Step>)
    ensures SuspendedByLog(Run(Init(clock), steps))
  {
    RunInv(clock, steps);
    SuspendedIffLastFiveGone(clock, steps);
  }

  predicate BacksOff(sys: System, sys': System) {
    sys'.svc.state.probeBackoff == if ResetsBackoff(sys, sys') then 60 * SECOND else sys.svc.state.probeBackoff
  }

  lemma BackoffAfterGone(sys: System, t: nat, now: int, clock: int, io: Io)
    requires var sys' := RecordGone(sys, t, now, clock, io); SuspendedByLog(sys) && SuspendedByLog(sys')
    requires !sys.svc.state.uninstallTriggered
    ensures BacksOff(sys, RecordGone(sys, t, now, clock, io))
  {
    assert Logged(sys, GoneEntry(now, clock, GoneDecision(sys.svc, now, clock, io)))[|sys.log|].GoneEntry?;
  }

  lemma BackoffAfterReply(sys: System, step: Step)
    requires step.Reply? && SuspendedByLog(sys) && SuspendedByLog(Next(sys, step))
    ensures BacksOff(sys, Next(sys, step))
  {
    if TaskAt(sys, step.task) == Idle && !sys.svc.state.uninstallTriggered {
      if step.status == GONE {
        BackoffAfterGone(sys, step.task, step.now, step.clock, step.io);
      } else if 200 <= step.status < 300 {
        assert Next(sys, step).log == sys.log + [HealthyEntry];
      }
    }
  }

  lemma BackoffStep(sys: System, step: Step)
    requires SuspendedByLog(sys) && SuspendedByLog(Next(sys, step)) && !step.Probe?
    ensures BacksOff(sys, Next(sys, step))
  {
    if step.Reply? {
      BackoffAfterReply(sys, step);
    } else if step.Restart? {
      assert Next(sys, step).log == sys.log + [Boot(step.clock)];
    } else {
      assert Next(sys, step).log == sys.log;
    }
  }

  lemma DoubledToCap(p: nat)
    ensures Min(Min(60 * SECOND * p, 30 * 60 * SECOND) * 2, 30 * 60 * SECOND) == Min(60 * SECOND * (2 * p), 30 * 60 * SECOND)
  {
  }

  /** In every run the next probe waits 60 s doubled once for each probe since the 410 that suspended, but
      never more than half an hour. */
  lemma {:induction false} ProbeDelayDoublesToCap(clock: int, steps: seq<Step>)
    ensures Run(Init(clock), steps).svc.state.probeBackoff
            == Min(60 * SECOND * Pow2(ProbesSince(clock, steps)), 30 * 60 * SECOND)
    decreases |steps|
  {
    if steps != [] {
      var prefix, step := steps[..|steps| - 1], steps[|steps| - 1];
      var before := Run(Init(clock), prefix);
      assert Run(Init(clock), steps) == Next(before, step);
      ProbeDelayDoublesToCap(clock, prefix);
      if step.Probe? {
        DoubledToCap(Pow2(ProbesSince(clock, prefix)));
        assert Next(before, step) == before.(svc := NextProbe(before.svc));
      } else {
        RunSuspendedByLog(clock, prefix);
        RunSuspendedByLog(clock, steps);
        BackoffStep(before, step);
      }
    }
  }
}
