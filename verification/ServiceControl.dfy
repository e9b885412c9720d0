/**
 Stopping and starting a Windows service.  The service control manager may answer anything or not at
 all, so stopping escalates: a stop request, force-kill rounds, and, if the caller allows it,
 deletion.  The manager is an oracle; every call and its answer is recorded in a trace.
 */
module ServiceControl {
  import opened Options

  const STATE_CHANGE_POLLS := 20
  const FORCE_KILL_ROUNDS := 6
  const START_ATTEMPTS := 3
  const MAX_CONSECUTIVE_FAILURES := 2

  datatype ServiceState = Stopped | StartPending | StopPending | Running | Paused

  datatype ScmError = DoesNotExist | NotActive | CannotAcceptControl | AlreadyRunning | OtherError

  /** Each kind of call can time out, or be refused a slot in the call pool. */
  datatype StatusReply = StatusTimeout | Status(state: ServiceState, pid: Option<nat>) | StatusError(error: ScmError)
  datatype CallReply = CallTimeout | Accepted | Refused(error: ScmError)
  datatype ExistenceReply = ExistenceTimeout | Missing(missing: bool)
  datatype ConfigReply = ConfigTimeout | ImagePath(path: Option<string>)

  datatype Event =
    | StopCall(reply: CallReply)
    | StartCall(reply: CallReply)
    | DeleteCall(reply: CallReply)
    | StatusQuery(status: StatusReply)
    | ExistenceQuery(existence: ExistenceReply)
    | ConfigQuery(config: ConfigReply)
    | TaskKill(pid: nat, launched: bool)
    | KillByPath(path: string)

  /** Everything that happened so far. */
  datatype Trace = Empty | Then(past: Trace, last: Event)

  /** What the manager and the system answer, given everything that happened before. */
  datatype Oracle = Oracle(
    status: Trace -> StatusReply,
    call: Trace -> CallReply,
    existence: Trace -> ExistenceReply,
    config: Trace -> ConfigReply,
    killLaunches: Trace -> bool)

  /** Timed calls go through the pool of calls with a time limit; the kills do not. */
  datatype Kind = Timed | Unanswered | Confirming | Polling | ShowingRunning | Starting | Deleting

  predicate NoAnswer(e: Event) {
    || (e.StatusQuery? && e.status.StatusTimeout?)
    || (e.ExistenceQuery? && e.existence.ExistenceTimeout?)
  }

  predicate StoppedOrMissing(status: StatusReply) {
    || (status.Status? && status.state == Stopped)
    || status == StatusError(DoesNotExist)
  }

  /** What a wait loop polls for. */
  datatype Goal = UntilStopped | UntilRunning | UntilMissing

  predicate Reached(goal: Goal, e: Event) {
    match goal
    case UntilStopped => e.StatusQuery? && StoppedOrMissing(e.status)
    case UntilRunning => e.StatusQuery? && e.status.Status? && e.status.state == Running
    case UntilMissing => e == ExistenceQuery(Missing(true))
  }

  /** What an event is, in the manager's own terms.  Confirming is evidence that the service is not running. */
  predicate Is(kind: Kind, e: Event) {
    match kind
    case Timed => !e.TaskKill? && !e.KillByPath?
    case Unanswered => e == StatusQuery(StatusTimeout) || e == ExistenceQuery(ExistenceTimeout)
    case Confirming =>
      || e == StatusQuery(StatusError(DoesNotExist))
      || (e.StatusQuery? && e.status.Status? && e.status.state == Stopped)
      || e == StopCall(Refused(DoesNotExist)) || e == StopCall(Refused(NotActive))
      || e == ExistenceQuery(Missing(true))
    case Polling => e.StatusQuery? || e.ExistenceQuery?
    case ShowingRunning => e.StatusQuery? && e.status.Status? && e.status.state == Running
    case Starting => e.StartCall?
    case Deleting => e.DeleteCall?
  }

  /** How many events of a trace are of a kind. */
  function Count(kind: Kind, t: Trace): nat {
    if t == Empty then 0 else Count(kind, t.past) + if Is(kind, t.last) then 1 else 0
  }

  // ---------------------------------------------------------------------------------------------
  // The procedures as functions of the oracle
  // ---------------------------------------------------------------------------------------------

  function Ask(goal: Goal, o: Oracle, t: Trace): Event {
    if goal == UntilMissing then ExistenceQuery(o.existence(t)) else StatusQuery(o.status(t))
  }

  datatype End = Confirmed | Unresponsive | Exhausted

  datatype Waited = Waited(end: End, trace: Trace)

  /** Up to `left` polls, given how many in a row have just failed. */
  function Wait(goal: Goal, o: Oracle, t: Trace, left: nat, failures: nat): Waited
    decreases left
  {
    if left == 0 then Waited(Exhausted, t) else
    var e := Ask(goal, o, t);
    var t := Then(t, e);
    if NoAnswer(e) then
      if failures + 1 >= MAX_CONSECUTIVE_FAILURES then Waited(Unresponsive, t)
      else Wait(goal, o, t, left - 1, failures + 1)
    else if Reached(goal, e) then Waited(Confirmed, t)
    else Wait(goal, o, t, left - 1, 0)
  }

  datatype Outcome = Outcome(ok: bool, trace: Trace)

  /** One force-kill round after a status that did not confirm: kill by process id, or else by the
      configured image path. */
  function Kill(o: Oracle, t: Trace, status: StatusReply): Outcome {
    if status.Status? && status.pid.Some? then
      Outcome(o.killLaunches(t), Then(t, TaskKill(status.pid.value, o.killLaunches(t))))
    else
      var config := o.config(t);
      var t := Then(t, ConfigQuery(config));
      Outcome(true, if config.ImagePath? && config.path.Some? then Then(t, KillByPath(config.path.value)) else t)
  }

  function Delete(o: Oracle, t: Trace): Outcome {
    var e := Ask(UntilMissing, o, t);
    var t := Then(t, e);
    if Reached(UntilMissing, e) then Outcome(true, t) else
    var reply := o.call(t);
    var t := Then(t, DeleteCall(reply));
    if !reply.Accepted? then Outcome(false, t) else
    var waited := Wait(UntilMissing, o, t, STATE_CHANGE_POLLS, 0);
    match waited.end
    case Confirmed => Outcome(true, waited.trace)
    case Unresponsive => Outcome(false, waited.trace)
    case Exhausted =>
      var e := Ask(UntilMissing, o, waited.trace);
      Outcome(Reached(UntilMissing, e), Then(waited.trace, e))
  }

  function ForceStop(o: Oracle, t: Trace, rounds: nat, allowDelete: bool): Outcome
    decreases rounds
  {
    var status := o.status(t);
    var t := Then(t, StatusQuery(status));
    if StoppedOrMissing(status) then Outcome(true, t)
    else if rounds == 0 then (if allowDelete then Delete(o, t) else Outcome(false, t))
    else
      var killed := Kill(o, t, status);
      if killed.ok then ForceStop(o, killed.trace, rounds - 1, allowDelete) else killed
  }

  function Stop(o: Oracle, t: Trace, allowDelete: bool): Outcome {
    var reply := o.call(t);
    var t := Then(t, StopCall(reply));
    match reply
    case CallTimeout => ForceStop(o, t, FORCE_KILL_ROUNDS, allowDelete)
    case Accepted =>
      var waited := Wait(UntilStopped, o, t, STATE_CHANGE_POLLS, 0);
      if waited.end == Confirmed then Outcome(true, waited.trace)
      else ForceStop(o, waited.trace, FORCE_KILL_ROUNDS, allowDelete)
    case Refused(error) =>
      if error == DoesNotExist || error == NotActive then Outcome(true, t)
      else ForceStop(o, t, FORCE_KILL_ROUNDS, allowDelete)
  }

  predicate Started(reply: CallReply) {
    reply == Accepted || reply == Refused(AlreadyRunning)
  }

  function Start(o: Oracle, t: Trace, attempts: nat): Outcome
    decreases attempts
  {
    if attempts == 0 then Outcome(false, t) else
    var reply := o.call(t);
    var t := Then(t, StartCall(reply));
    if !Started(reply) then Start(o, t, attempts - 1) else
    var waited := Wait(UntilRunning, o, t, STATE_CHANGE_POLLS, 0);
    if waited.end == Confirmed then Outcome(true, waited.trace) else Start(o, waited.trace, attempts - 1)
  }

  // ---------------------------------------------------------------------------------------------
  // The procedures
  // ---------------------------------------------------------------------------------------------

  class ServiceManager {
    const o: Oracle
    var trace: Trace

    constructor (o: Oracle)
      ensures this.o == o && trace == Empty
    {
      this.o, trace := o, Empty;
    }

    method QueryStatus() returns (status: StatusReply)
      modifies this
      ensures status == o.status(old(trace)) && trace == Then(old(trace), StatusQuery(status))
    {
      status := o.status(trace);
      trace := Then(trace, StatusQuery(status));
    }

    method QueryExistence() returns (existence: ExistenceReply)
      modifies this
      ensures existence == o.existence(old(trace)) && trace == Then(old(trace), ExistenceQuery(existence))
    {
      existence := o.existence(trace);
      trace := Then(trace, ExistenceQuery(existence));
    }

    method WaitForServiceStop() returns (stopped: bool)
      modifies this
      ensures var waited := Wait(UntilStopped, o, old(trace), STATE_CHANGE_POLLS, 0);
              trace == waited.trace && stopped == (waited.end == Confirmed)
    {
      var queryFailures := 0;
      for attempt := 0 to STATE_CHANGE_POLLS
        invariant queryFailures < MAX_CONSECUTIVE_FAILURES
        invariant Wait(UntilStopped, o, old(trace), STATE_CHANGE_POLLS, 0)
                  == Wait(UntilStopped, o, trace, STATE_CHANGE_POLLS - attempt, queryFailures)
      {
        var status := QueryStatus();
        if status.StatusTimeout? {
          queryFailures := queryFailures + 1;
          if queryFailures >= MAX_CONSECUTIVE_FAILURES {
            return false;
          }
        } else {
          queryFailures := 0;
          if StoppedOrMissing(status) {
            return true;
          }
        }
      }
      return false;
    }

    method WaitForServiceRunning() returns (end: End)
      modifies this
      ensures Waited(end, trace) == Wait(UntilRunning, o, old(trace), STATE_CHANGE_POLLS, 0)
    {
      var queryFailures := 0;
      for attempt := 0 to STATE_CHANGE_POLLS
        invariant queryFailures < MAX_CONSECUTIVE_FAILURES
        invariant Wait(UntilRunning, o, old(trace), STATE_CHANGE_POLLS, 0)
                  == Wait(UntilRunning, o, trace, STATE_CHANGE_POLLS - attempt, queryFailures)
      {
        var status := QueryStatus();
        if status.Status? && status.state == Running {
          return Confirmed;
        } else if !status.StatusTimeout? {
          queryFailures := 0;
        } else {
          queryFailures := queryFailures + 1;
          if queryFailures >= MAX_CONSECUTIVE_FAILURES {
            return Unresponsive;
          }
        }
      }
      return Exhausted;
    }

    method DeleteService() returns (ok: bool)
      modifies this
      ensures Outcome(ok, trace) == Delete(o, old(trace))
    {
      var existence := QueryExistence();
      if existence == Missing(true) {
        return true;
      }
      var reply := o.call(trace);
      trace := Then(trace, DeleteCall(reply));
      if !reply.Accepted? {
        return false;
      }
      ghost var afterDelete := trace;
      var queryFailures := 0;
      for attempt := 0 to STATE_CHANGE_POLLS
        invariant queryFailures < MAX_CONSECUTIVE_FAILURES
        invariant Wait(UntilMissing, o, afterDelete, STATE_CHANGE_POLLS, 0)
                  == Wait(UntilMissing, o, trace, STATE_CHANGE_POLLS - attempt, queryFailures)
      {
        existence := QueryExistence();
        match existence
        case Missing(true) => return true;
        case Missing(false) => queryFailures := 0;
        case ExistenceTimeout =>
          queryFailures := queryFailures + 1;
          if queryFailures >= MAX_CONSECUTIVE_FAILURES {
            return false;
          }
      }
      existence := QueryExistence();
      ok := existence == Missing(true);
    }

    method ForceStopService(allowDelete: bool) returns (ok: bool)
      modifies this
      ensures Outcome(ok, trace) == ForceStop(o, old(trace), FORCE_KILL_ROUNDS, allowDelete)
    {
      for attempt := 0 to FORCE_KILL_ROUNDS
        invariant ForceStop(o, old(trace), FORCE_KILL_ROUNDS, allowDelete)
                  == ForceStop(o, trace, FORCE_KILL_ROUNDS - attempt, allowDelete)
      {
        var status := QueryStatus();
        if StoppedOrMissing(status) {
          return true;
        }
        if status.Status? && status.pid.Some? {
          var launched := o.killLaunches(trace);
          trace := Then(trace, TaskKill(status.pid.value, launched));
          if !launched {
            return false;
          }
        } else {
          var config := o.config(trace);
          trace := Then(trace, ConfigQuery(config));
          if config.ImagePath? && config.path.Some? {
            trace := Then(trace, KillByPath(config.path.value));
          }
        }
      }
      var status := QueryStatus();
      if StoppedOrMissing(status) {
        return true;
      }
      if !allowDelete {
        return false;
      }
      ok := DeleteService();
    }

    method StopService(allowDelete: bool) returns (ok: bool)
      modifies this
      ensures Outcome(ok, trace) == Stop(o, old(trace), allowDelete)
    {
      var reply := o.call(trace);
      trace := Then(trace, StopCall(reply));
      match reply
      case CallTimeout =>
        ok := ForceStopService(allowDelete);
      case Accepted =>
        var stopped := WaitForServiceStop();
        if stopped {
          return true;
        }
        ok := ForceStopService(allowDelete);
      case Refused(error) =>
        if error == DoesNotExist || error == NotActive {
          return true;
        }
        ok := ForceStopService(allowDelete);
    }

    method StartService() returns (ok: bool)
      modifies this
      ensures Outcome(ok, trace) == Start(o, old(trace), START_ATTEMPTS)
    {
      for attempt := 0 to START_ATTEMPTS
        invariant Start(o, old(trace), START_ATTEMPTS) == Start(o, trace, START_ATTEMPTS - attempt)
      {
        var reply := o.call(trace);
        trace := Then(trace, StartCall(reply));
        if Started(reply) {
          var end := WaitForServiceRunning();
          if end == Confirmed {
            return true;
          }
        }
      }
      return false;
    }
  }

  // ---------------------------------------------------------------------------------------------
  // What a trace shows
  // ---------------------------------------------------------------------------------------------

  /** `after` continues `before`, with no new event of this kind. */
  predicate NoneSince(kind: Kind, before: Trace, after: Trace) {
    after == before || (after.Then? && !Is(kind, after.last) && NoneSince(kind, before, after.past))
  }

  lemma {:induction false} NoneSinceTransitive(kind: Kind, a: Trace, b: Trace, c: Trace)
    requires NoneSince(kind, a, b) && NoneSince(kind, b, c)
    ensures NoneSince(kind, a, c)
  {
    if b != c {
      NoneSinceTransitive(kind, a, b, c.past);
    }
  }

  lemma {:induction false} NoneSinceKeepsCount(kind: Kind, before: Trace, after: Trace)
    requires NoneSince(kind, before, after)
    ensures Count(kind, after) == Count(kind, before)
  {
    if before != after {
      NoneSinceKeepsCount(kind, before, after.past);
    }
  }

  /** `after` continues `before` and stops at the first event of this kind, or, unless `ok`, has none. */
  predicate Settles(kind: Kind, before: Trace, after: Trace, ok: bool) {
    if ok then after.Then? && Is(kind, after.last) && NoneSince(kind, before, after.past)
    else NoneSince(kind, before, after)
  }

  lemma SettlesLater(kind: Kind, a: Trace, b: Trace, c: Trace, ok: bool)
    requires NoneSince(kind, a, b) && Settles(kind, b, c, ok)
    ensures Settles(kind, a, c, ok)
  {
    NoneSinceTransitive(kind, a, b, if ok then c.past else c);
  }

  /** `e` says that the service runs, as process `pid`. */
  predicate Names(e: Event, pid: nat) {
    e.StatusQuery? && e.status.Status? && e.status.state != Stopped && e.status.pid == Some(pid)
  }

  /** Every kill is of the process, or of the image path, that the manager named just before. */
  predicate KillsNamed(t: Trace) {
    t.Then? ==>
      && KillsNamed(t.past)
      && (t.last.TaskKill? ==> t.past.Then? && Names(t.past.last, t.last.pid))
      && (t.last.KillByPath? ==> t.past.Then? && t.past.last == ConfigQuery(ImagePath(Some(t.last.path))))
  }

  // ---------------------------------------------------------------------------------------------
  // Waiting
  // ---------------------------------------------------------------------------------------------

  function KindOf(goal: Goal): Kind {
    if goal == UntilRunning then ShowingRunning else Confirming
  }

  /** Polling issues only polls, and stops at the first one that reaches the goal. */
  lemma {:induction false} WaitSettles(goal: Goal, o: Oracle, t: Trace, left: nat, failures: nat)
    ensures var w := Wait(goal, o, t, left, failures);
            && Settles(KindOf(goal), t, w.trace, w.end == Confirmed)
            && NoneSince(Deleting, t, w.trace)
            && NoneSince(Starting, t, w.trace)
            && (KillsNamed(t) ==> KillsNamed(w.trace))
    decreases left
  {
    if left > 0 {
      var e := Ask(goal, o, t);
      var kind := KindOf(goal);
      var asked := Then(t, e);
      assert Is(kind, e) == Reached(goal, e);
      if !Reached(goal, e) && (NoAnswer(e) ==> failures + 1 < MAX_CONSECUTIVE_FAILURES) {
        var failures := if NoAnswer(e) then failures + 1 else 0;
        WaitSettles(goal, o, asked, left - 1, failures);
        var w := Wait(goal, o, asked, left - 1, failures);
        SettlesLater(kind, t, asked, w.trace, w.end == Confirmed);
        NoneSinceTransitive(Deleting, t, asked, w.trace);
        NoneSinceTransitive(Starting, t, asked, w.trace);
      }
    }
  }

  /** Two unanswered polls in a row end the wait, so about half of the polls can be unanswered. */
  lemma {:induction false} WaitCalls(goal: Goal, o: Oracle, t: Trace, left: nat, failures: nat)
    requires failures < MAX_CONSECUTIVE_FAILURES
    ensures var w := Wait(goal, o, t, left, failures);
            && Count(Timed, w.trace) <= Count(Timed, t) + left
            && (w.end == Exhausted ==> Count(Timed, w.trace) == Count(Timed, t) + left)
            && 2 * (Count(Unanswered, w.trace) - Count(Unanswered, t))
               <= left - failures + if w.end == Unresponsive then 2 else 1
    decreases left
  {
    if left > 0 {
      var e := Ask(goal, o, t);
      if NoAnswer(e) && failures + 1 < MAX_CONSECUTIVE_FAILURES {
        WaitCalls(goal, o, Then(t, e), left - 1, failures + 1);
      } else if !NoAnswer(e) && !Reached(goal, e) {
        WaitCalls(goal, o, Then(t, e), left - 1, 0);
      }
    }
  }

  /** The trace after `n` polls, if the wait does not end before. */
  function Polled(goal: Goal, o: Oracle, t: Trace, n: nat): Trace
    decreases n
  {
    if n == 0 then t
    else
      var before := Polled(goal, o, t, n - 1);
      Then(before, Ask(goal, o, before))
  }

  /** What the manager answers to the poll after `n` others. */
  function Answer(goal: Goal, o: Oracle, t: Trace, n: nat): Event {
    Ask(goal, o, Polled(goal, o, t, n))
  }

  /** Of `polls` polls, the first, third, fifth and so on and the last go unanswered; the others are answered
      without reaching the goal. */
  ghost predicate AlternatesToTheEnd(goal: Goal, o: Oracle, t: Trace, polls: nat) {
    forall n: nat :: n < polls ==>
      && (Is(Unanswered, Answer(goal, o, t, n)) <==> n % 2 == 0 || n == polls - 1)
      && !Is(KindOf(goal), Answer(goal, o, t, n))
  }

  lemma {:induction false} PolledLater(goal: Goal, o: Oracle, t: Trace, n: nat)
    ensures Polled(goal, o, t, n + 1) == Polled(goal, o, Then(t, Ask(goal, o, t)), n)
    decreases n
  {
    if n > 0 {
      PolledLater(goal, o, t, n - 1);
    }
  }

  lemma AnswerLater(goal: Goal, o: Oracle, t: Trace, n: nat)
    ensures Answer(goal, o, t, n + 1) == Answer(goal, o, Then(t, Ask(goal, o, t)), n)
  {
    PolledLater(goal, o, t, n);
  }

  /** The pattern is two polls and then the pattern. */
  lemma AlternatesFromThird(goal: Goal, o: Oracle, t: Trace, polls: nat)
    requires polls >= 4 && polls % 2 == 0
    ensures var asked := Then(t, Ask(goal, o, t));
            var again := Then(asked, Ask(goal, o, asked));
            AlternatesToTheEnd(goal, o, t, polls) <==>
              && NoAnswer(asked.last) && !NoAnswer(again.last) && !Reached(goal, again.last)
              && AlternatesToTheEnd(goal, o, again, polls - 2)
  {
    var asked := Then(t, Ask(goal, o, t));
    var again := Then(asked, Ask(goal, o, asked));
    assert Answer(goal, o, t, 0) == asked.last;
    AnswerLater(goal, o, t, 0);
    assert Answer(goal, o, t, 1) == again.last;
    forall n: nat ensures Answer(goal, o, t, n + 2) == Answer(goal, o, again, n) {
      AnswerLater(goal, o, t, n + 1);
      AnswerLater(goal, o, asked, n);
    }
    if AlternatesToTheEnd(goal, o, t, polls) {
      forall n: nat | n < polls - 2
        ensures Is(Unanswered, Answer(goal, o, again, n)) <==> n % 2 == 0 || n == polls - 3
        ensures !Is(KindOf(goal), Answer(goal, o, again, n))
      {
        assert Answer(goal, o, t, n + 2) == Answer(goal, o, again, n);
      }
    }
    if NoAnswer(asked.last) && !NoAnswer(again.last) && !Reached(goal, again.last) && AlternatesToTheEnd(goal, o, again, polls - 2) {
      forall n: nat | n < polls
        ensures Is(Unanswered, Answer(goal, o, t, n)) <==> n % 2 == 0 || n == polls - 1
        ensures !Is(KindOf(goal), Answer(goal, o, t, n))
      {
        if n >= 2 {
          assert Answer(goal, o, t, (n - 2) + 2) == Answer(goal, o, again, n - 2);
        } else {
          assert n == 0 || n == 1;
        }
      }
    }
  }

  lemma AlternatesTwo(goal: Goal, o: Oracle, t: Trace)
    ensures var asked := Then(t, Ask(goal, o, t));
            AlternatesToTheEnd(goal, o, t, 2) <==> NoAnswer(asked.last) && NoAnswer(Ask(goal, o, asked))
  {
    var asked := Then(t, Ask(goal, o, t));
    assert Answer(goal, o, t, 0) == asked.last;
    AnswerLater(goal, o, t, 0);
    assert Answer(goal, o, t, 1) == Ask(goal, o, asked);
  }

  function UnansweredIn(goal: Goal, o: Oracle, t: Trace, left: nat, failures: nat): int {
    Count(Unanswered, Wait(goal, o, t, left, failures).trace) - Count(Unanswered, t)
  }

  /** One poll of a wait. */
  lemma OnePoll(goal: Goal, o: Oracle, t: Trace, left: nat, failures: nat)
    requires left > 0
    ensures var asked := Then(t, Ask(goal, o, t));
            Wait(goal, o, t, left, failures) ==
              if NoAnswer(asked.last) then
                if failures + 1 >= MAX_CONSECUTIVE_FAILURES then Waited(Unresponsive, asked)
                else Wait(goal, o, asked, left - 1, failures + 1)
              else if Reached(goal, asked.last) then Waited(Confirmed, asked)
              else Wait(goal, o, asked, left - 1, 0)
    ensures var asked := Then(t, Ask(goal, o, t));
            && Count(Unanswered, asked) == Count(Unanswered, t) + (if NoAnswer(asked.last) then 1 else 0)
            && Count(Timed, asked) == Count(Timed, t) + 1
  {
  }

  /** After an unanswered first poll of an even number. */
  lemma SecondPoll(goal: Goal, o: Oracle, t: Trace, left: nat)
    requires left >= 2 && left % 2 == 0 && NoAnswer(Ask(goal, o, t))
    ensures var asked := Then(t, Ask(goal, o, t));
            var again := Then(asked, Ask(goal, o, asked));
            && Wait(goal, o, t, left, 0) ==
                 (if NoAnswer(again.last) then Waited(Unresponsive, again)
                  else if Reached(goal, again.last) then Waited(Confirmed, again)
                  else Wait(goal, o, again, left - 2, 0))
            && Count(Unanswered, again) == Count(Unanswered, t) + (if NoAnswer(again.last) then 2 else 1)
            && Count(Timed, again) == Count(Timed, t) + 2
  {
    var asked := Then(t, Ask(goal, o, t));
    OnePoll(goal, o, t, left, 0);
    OnePoll(goal, o, asked, left - 1, 1);
  }

  lemma TwoPollsUnanswered(goal: Goal, o: Oracle, t: Trace)
    ensures var w := Wait(goal, o, t, 2, 0);
            && UnansweredIn(goal, o, t, 2, 0) <= 2
            && (UnansweredIn(goal, o, t, 2, 0) == 2 <==> AlternatesToTheEnd(goal, o, t, 2))
            && (AlternatesToTheEnd(goal, o, t, 2) ==> w.end == Unresponsive && Count(Timed, w.trace) == Count(Timed, t) + 2)
  {
    var asked := Then(t, Ask(goal, o, t));
    AlternatesTwo(goal, o, t);
    WaitCalls(goal, o, t, 2, 0);
    if NoAnswer(asked.last) {
      SecondPoll(goal, o, t, 2);
    } else {
      OnePoll(goal, o, t, 2, 0);
      WaitCalls(goal, o, asked, 1, 0);
    }
  }

  /** A wait that begins with an answer leaves fewer unanswered. */
  lemma AnsweredFirst(goal: Goal, o: Oracle, t: Trace, left: nat)
    requires left >= 4 && left % 2 == 0 && !NoAnswer(Ask(goal, o, t))
    ensures UnansweredIn(goal, o, t, left, 0) < left / 2 + 1 && !AlternatesToTheEnd(goal, o, t, left)
  {
    OnePoll(goal, o, t, left, 0);
    WaitCalls(goal, o, Then(t, Ask(goal, o, t)), left - 1, 0);
    AlternatesFromThird(goal, o, t, left);
  }

  /** The most polls are left unanswered exactly if they alternate to the end. */
  lemma {:induction false} MostUnansweredIff(goal: Goal, o: Oracle, t: Trace, left: nat)
    requires left >= 2 && left % 2 == 0
    ensures UnansweredIn(goal, o, t, left, 0) <= left / 2 + 1
    ensures UnansweredIn(goal, o, t, left, 0) == left / 2 + 1 <==> AlternatesToTheEnd(goal, o, t, left)
    ensures AlternatesToTheEnd(goal, o, t, left) ==>
              var w := Wait(goal, o, t, left, 0);
              w.end == Unresponsive && Count(Timed, w.trace) == Count(Timed, t) + left
    decreases left
  {
    var asked := Then(t, Ask(goal, o, t));
    if left == 2 {
      TwoPollsUnanswered(goal, o, t);
    } else if !NoAnswer(asked.last) {
      AnsweredFirst(goal, o, t, left);
    } else {
      SecondPoll(goal, o, t, left);
      AlternatesFromThird(goal, o, t, left);
      MostUnansweredIff(goal, o, Then(asked, Ask(goal, o, asked)), left - 2);
    }
  }

  /** A wait never leaves more than 11 of its polls unanswered.  It leaves more than 10 exactly if polls
      1, 3, ..., 19 and 20 go unanswered and the others are answered without reaching the goal. */
  lemma UnansweredPolls(goal: Goal, o: Oracle, t: Trace)
    ensures UnansweredIn(goal, o, t, STATE_CHANGE_POLLS, 0) <= 11
    ensures UnansweredIn(goal, o, t, STATE_CHANGE_POLLS, 0) == 11
            <==> AlternatesToTheEnd(goal, o, t, STATE_CHANGE_POLLS)
    ensures AlternatesToTheEnd(goal, o, t, STATE_CHANGE_POLLS) ==>
              var w := Wait(goal, o, t, STATE_CHANGE_POLLS, 0);
              w.end == Unresponsive && Count(Timed, w.trace) == Count(Timed, t) + STATE_CHANGE_POLLS
  {
    MostUnansweredIff(goal, o, t, STATE_CHANGE_POLLS);
  }

  /** Leaves every second query unanswered, and the twentieth. */
  function Flaky(): Oracle {
    Oracle(
      (t: Trace) => if Count(Timed, t) % 2 == 0 || Count(Timed, t) == 19 then StatusTimeout else Status(Running, None),
      (t: Trace) => CallTimeout,
      (t: Trace) => ExistenceTimeout,
      (t: Trace) => ConfigTimeout,
      (t: Trace) => false)
  }

  lemma {:induction false} FlakyPolls(n: nat)
    ensures Count(Timed, Polled(UntilStopped, Flaky(), Empty, n)) == n
    decreases n
  {
    if n > 0 {
      FlakyPolls(n - 1);
    }
  }

  /** There is such a manager, so using all 20 polls does not limit the unanswered ones to 10. */
  lemma ElevenOfTwentyUnanswered()
    ensures AlternatesToTheEnd(UntilStopped, Flaky(), Empty, STATE_CHANGE_POLLS)
    ensures UnansweredIn(UntilStopped, Flaky(), Empty, STATE_CHANGE_POLLS, 0) == 11
  {
    forall n: nat | n < STATE_CHANGE_POLLS
      ensures Is(Unanswered, Answer(UntilStopped, Flaky(), Empty, n)) <==> n % 2 == 0 || n == STATE_CHANGE_POLLS - 1
      ensures !Is(Confirming, Answer(UntilStopped, Flaky(), Empty, n))
    {
      FlakyPolls(n);
    }
    UnansweredPolls(UntilStopped, Flaky(), Empty);
  }

  // ---------------------------------------------------------------------------------------------
  // Stopping
  // ---------------------------------------------------------------------------------------------

  lemma DeleteSettles(o: Oracle, t: Trace)
    ensures var out := Delete(o, t);
            && Settles(Confirming, t, out.trace, out.ok)
            && (KillsNamed(t) ==> KillsNamed(out.trace))
            && Count(Deleting, out.trace) <= Count(Deleting, t) + 1
            && Count(Timed, out.trace) <= Count(Timed, t) + STATE_CHANGE_POLLS + 3
  {
    var e := Ask(UntilMissing, o, t);
    if !Reached(UntilMissing, e) {
      var asked := Then(t, e);
      var tried := Then(asked, DeleteCall(o.call(asked)));
      assert NoneSince(Confirming, t, asked) && (KillsNamed(t) ==> KillsNamed(asked));
      assert Count(Timed, tried) == Count(Timed, t) + 2;
      if tried.last.reply.Accepted? {
        WaitSettles(UntilMissing, o, tried, STATE_CHANGE_POLLS, 0);
        WaitCalls(UntilMissing, o, tried, STATE_CHANGE_POLLS, 0);
        var w := Wait(UntilMissing, o, tried, STATE_CHANGE_POLLS, 0);
        NoneSinceKeepsCount(Deleting, tried, w.trace);
        SettlesLater(Confirming, t, tried, w.trace, w.end == Confirmed);
      }
    }
  }

  lemma KillIsQuiet(o: Oracle, t: Trace, status: StatusReply)
    requires !StoppedOrMissing(status)
    ensures var out := Kill(o, Then(t, StatusQuery(status)), status);
            && NoneSince(Confirming, t, out.trace)
            && NoneSince(Deleting, t, out.trace)
            && (KillsNamed(t) ==> KillsNamed(out.trace))
            && Count(Timed, out.trace) <= Count(Timed, t) + 2
  {
    var asked := Then(t, StatusQuery(status));
    assert NoneSince(Confirming, t, asked) && NoneSince(Deleting, t, asked);
    if !(status.Status? && status.pid.Some?) {
      var configured := Then(asked, ConfigQuery(o.config(asked)));
      assert Count(Timed, configured) == Count(Timed, asked) + 1;
      assert NoneSince(Confirming, t, configured) && NoneSince(Deleting, t, configured);
    }
  }

  lemma {:induction false} ForceStopSettles(o: Oracle, t: Trace, rounds: nat, allowDelete: bool)
    ensures var out := ForceStop(o, t, rounds, allowDelete);
            && Settles(Confirming, t, out.trace, out.ok)
            && (KillsNamed(t) ==> KillsNamed(out.trace))
            && Count(Deleting, out.trace) <= Count(Deleting, t) + (if allowDelete then 1 else 0)
            && Count(Timed, out.trace)
               <= Count(Timed, t) + 2 * rounds + 1 + if allowDelete then STATE_CHANGE_POLLS + 3 else 0
    decreases rounds
  {
    var status := o.status(t);
    var asked := Then(t, StatusQuery(status));
    if !StoppedOrMissing(status) {
      if rounds == 0 {
        if allowDelete {
          DeleteSettles(o, asked);
          var deleted := Delete(o, asked);
          SettlesLater(Confirming, t, asked, deleted.trace, deleted.ok);
        }
      } else {
        KillIsQuiet(o, t, status);
        var killed := Kill(o, asked, status);
        NoneSinceKeepsCount(Deleting, t, killed.trace);
        if killed.ok {
          ForceStopSettles(o, killed.trace, rounds - 1, allowDelete);
          var out := ForceStop(o, killed.trace, rounds - 1, allowDelete);
          SettlesLater(Confirming, t, killed.trace, out.trace, out.ok);
        }
      }
    }
  }

  lemma StopAfterWait(o: Oracle, t: Trace, asked: Trace, allowDelete: bool)
    requires asked == Then(t, StopCall(Accepted)) && o.call(t) == Accepted
    ensures var out := Stop(o, t, allowDelete);
            && Settles(Confirming, t, out.trace, out.ok)
            && (KillsNamed(t) ==> KillsNamed(out.trace))
            && Count(Deleting, out.trace) <= Count(Deleting, t) + (if allowDelete then 1 else 0)
            && Count(Timed, out.trace) <= Count(Timed, t) + if allowDelete then 57 else 34
  {
    WaitSettles(UntilStopped, o, asked, STATE_CHANGE_POLLS, 0);
    WaitCalls(UntilStopped, o, asked, STATE_CHANGE_POLLS, 0);
    var w := Wait(UntilStopped, o, asked, STATE_CHANGE_POLLS, 0);
    NoneSinceKeepsCount(Deleting, asked, w.trace);
    SettlesLater(Confirming, t, asked, w.trace, w.end == Confirmed);
    if w.end != Confirmed {
      ForceStopSettles(o, w.trace, FORCE_KILL_ROUNDS, allowDelete);
      var out := ForceStop(o, w.trace, FORCE_KILL_ROUNDS, allowDelete);
      SettlesLater(Confirming, t, w.trace, out.trace, out.ok);
    }
  }

  /** Whatever the manager does: stopping succeeds exactly when its last observation, and no earlier
      one, is that the service is stopped, not active or missing; it deletes at most once, and never
      without permission; it kills only the process, or by the image path, that the manager
      just named as the service's; and it makes at most 57 timed calls. */
  lemma StopIsSafe(o: Oracle, t: Trace, allowDelete: bool)
    ensures var out := Stop(o, t, allowDelete);
            && Settles(Confirming, t, out.trace, out.ok)
            && (KillsNamed(t) ==> KillsNamed(out.trace))
            && Count(Deleting, out.trace) <= Count(Deleting, t) + (if allowDelete then 1 else 0)
            && Count(Timed, out.trace) <= Count(Timed, t) + if allowDelete then 57 else 34
  {
    var asked := Then(t, StopCall(o.call(t)));
    if asked.last.reply.Accepted? {
      StopAfterWait(o, t, asked, allowDelete);
    } else if !Is(Confirming, asked.last) {
      ForceStopSettles(o, asked, FORCE_KILL_ROUNDS, allowDelete);
      var out := ForceStop(o, asked, FORCE_KILL_ROUNDS, allowDelete);
      SettlesLater(Confirming, t, asked, out.trace, out.ok);
    }
  }

  // ---------------------------------------------------------------------------------------------
  // Which events a stop consists of
  // ---------------------------------------------------------------------------------------------

  /** The trace after these events, too. */
  function Plus(t: Trace, es: seq<Event>): Trace {
    if es == [] then t else Then(Plus(t, es[..|es| - 1]), es[|es| - 1])
  }

  lemma {:induction false} PlusPlus(t: Trace, a: seq<Event>, b: seq<Event>)
    ensures Plus(t, a + b) == Plus(Plus(t, a), b)
  {
    if b == [] {
      assert a + b == a;
    } else {
      PlusPlus(t, a, b[..|b| - 1]);
      assert (a + b)[..|a + b| - 1] == a + b[..|b| - 1];
    }
  }

  lemma PlusOne(t: Trace, e: Event)
    ensures Plus(t, [e]) == Then(t, e)
  {
    assert Plus(t, []) == t;
  }

  lemma PlusCons(t: Trace, e: Event, es: seq<Event>)
    ensures Plus(t, [e] + es) == Plus(Then(t, e), es)
  {
    PlusPlus(t, [e], es);
    PlusOne(t, e);
  }

  /** The process the manager names, if it does. */
  predicate NamesProcess(e: Event) {
    e.StatusQuery? && e.status.Status? && e.status.pid.Some?
  }

  /** A force-kill round: a status short of stopped, and then the kill of the process it names, or else a query
      of the configuration and the kill by the path it gives, if any. */
  predicate KillRound(r: seq<Event>) {
    && |r| >= 2 && r[0].StatusQuery? && !Is(Confirming, r[0])
    && if NamesProcess(r[0]) then r[1..] == [TaskKill(r[0].status.pid.value, true)]
       else && r[1].ConfigQuery?
            && r[2..] == if r[1].config.ImagePath? && r[1].config.path.Some? then [KillByPath(r[1].config.path.value)] else []
  }

  function Flatten(rounds: seq<seq<Event>>): seq<Event> {
    if rounds == [] then [] else rounds[0] + Flatten(rounds[1..])
  }

  /** Polls of which only the last can show what is waited for; without that they are as many as they may, or
      end with two unanswered. */
  predicate PollEvents(kind: Kind, es: seq<Event>, limit: nat, ok: bool) {
    && 1 <= |es| <= limit
    && (forall k :: 0 <= k < |es| ==> Is(Polling, es[k]))
    && (forall k :: 0 <= k < |es| - 1 ==> !Is(kind, es[k]))
    && (ok <==> Is(kind, es[|es| - 1]))
    && (ok || |es| == limit || (|es| >= 2 && Is(Unanswered, es[|es| - 1]) && Is(Unanswered, es[|es| - 2])))
  }

  /** Deleting: one existence query; unless that finds the service missing, the delete call; and if it is
      accepted, existence queries until one finds it missing, or there have been 21, or two in a row went
      unanswered. */
  predicate DeleteEvents(es: seq<Event>, ok: bool) {
    && |es| >= 1 && es[0].ExistenceQuery?
    && if es[0] == ExistenceQuery(Missing(true)) then ok && |es| == 1
       else |es| >= 2 && es[1].DeleteCall?
            && if es[1].reply != Accepted then !ok && |es| == 2 else PollEvents(Confirming, es[2..], 21, ok)
  }

  /** Force-stopping: rounds, at most six, and then a status.  If that shows the service stopped the stop has
      succeeded; otherwise it was a round whose kill could not be launched, or there were six rounds, and
      then the service is deleted if that is allowed. */
  predicate ForceStopEvents(rounds: seq<seq<Event>>, end: seq<Event>, limit: nat, allowDelete: bool, ok: bool) {
    && |rounds| <= limit && (forall k :: 0 <= k < |rounds| ==> KillRound(rounds[k]))
    && |end| >= 1 && end[0].StatusQuery?
    && if Is(Confirming, end[0]) then ok && |end| == 1
       else if |rounds| < limit then
         !ok && NamesProcess(end[0]) && end[1..] == [TaskKill(end[0].status.pid.value, false)]
       else if allowDelete then DeleteEvents(end[1..], ok)
       else !ok && |end| == 1
  }

  lemma {:induction false} WaitEvents(goal: Goal, o: Oracle, t: Trace, left: nat, failures: nat) returns (es: seq<Event>)
    requires failures < 2
    ensures var w := Wait(goal, o, t, left, failures);
            && w.trace == Plus(t, es) && |es| <= left
            && (forall k :: 0 <= k < |es| ==> (if goal == UntilMissing then es[k].ExistenceQuery? else es[k].StatusQuery?))
            && (forall k :: 0 <= k < |es| - 1 ==> !Is(KindOf(goal), es[k]))
            && (w.end == Confirmed <==> es != [] && Is(KindOf(goal), es[|es| - 1]))
            && (w.end == Exhausted ==> |es| == left)
            && (w.end == Unresponsive ==>
                  es != [] && Is(Unanswered, es[|es| - 1])
                  && (if |es| == 1 then failures > 0 else Is(Unanswered, es[|es| - 2])))
    decreases left
  {
    es := [];
    if left > 0 {
      var e := Ask(goal, o, t);
      es := [e];
      PlusOne(t, e);
      if !Reached(goal, e) && (NoAnswer(e) ==> failures + 1 < MAX_CONSECUTIVE_FAILURES) {
        var rest := WaitEvents(goal, o, Then(t, e), left - 1, if NoAnswer(e) then failures + 1 else 0);
        PlusCons(t, e, rest);
        es := [e] + rest;
      }
    }
  }

  lemma DeleteIsEvents(o: Oracle, t: Trace) returns (es: seq<Event>)
    ensures var out := Delete(o, t); out.trace == Plus(t, es) && DeleteEvents(es, out.ok)
  {
    var e := Ask(UntilMissing, o, t);
    var asked := Then(t, e);
    es := [e];
    PlusOne(t, e);
    if !Reached(UntilMissing, e) {
      var call := DeleteCall(o.call(asked));
      var tried := Then(asked, call);
      es := [e] + [call];
      PlusCons(t, e, [call]);
      PlusOne(asked, call);
      if call.reply.Accepted? {
        var polls := WaitEvents(UntilMissing, o, tried, STATE_CHANGE_POLLS, 0);
        var w := Wait(UntilMissing, o, tried, STATE_CHANGE_POLLS, 0);
        if w.end == Exhausted {
          var last := Ask(UntilMissing, o, w.trace);
          PlusPlus(tried, polls, [last]);
          PlusOne(w.trace, last);
          polls := polls + [last];
        }
        PlusPlus(t, es, polls);
        var all := es + polls;
        assert all[2..] == polls;
        es := all;
      }
    }
  }

  /** A round, and whether its kill could be launched. */
  lemma KillIsRound(o: Oracle, t: Trace, status: StatusReply) returns (r: seq<Event>)
    requires !StoppedOrMissing(status)
    ensures var out := Kill(o, Then(t, StatusQuery(status)), status);
            && out.trace == Plus(t, r)
            && if out.ok then KillRound(r)
               else |r| == 2 && r[0] == StatusQuery(status) && NamesProcess(r[0]) && r[1] == TaskKill(status.pid.value, false)
  {
    var e := StatusQuery(status);
    var asked := Then(t, e);
    if status.Status? && status.pid.Some? {
      var kill := TaskKill(status.pid.value, o.killLaunches(asked));
      r := [e] + [kill];
      PlusCons(t, e, [kill]);
      PlusOne(asked, kill);
    } else {
      var config := ConfigQuery(o.config(asked));
      var rest := [config];
      PlusOne(asked, config);
      if config.config.ImagePath? && config.config.path.Some? {
        var kill := KillByPath(config.config.path.value);
        PlusCons(asked, config, [kill]);
        PlusOne(Then(asked, config), kill);
        rest := [config] + [kill];
      }
      PlusCons(t, e, rest);
      r := [e] + rest;
    }
  }

  lemma OneMoreRound(r: seq<Event>, later: seq<seq<Event>>, end: seq<Event>, limit: nat, allowDelete: bool, ok: bool)
    requires limit > 0 && KillRound(r) && ForceStopEvents(later, end, limit - 1, allowDelete, ok)
    ensures ForceStopEvents([r] + later, end, limit, allowDelete, ok)
    ensures Flatten([r] + later) + end == r + (Flatten(later) + end)
  {
    assert ([r] + later)[1..] == later;
  }

  lemma {:induction false} ForceStopIsEvents(o: Oracle, t: Trace, limit: nat, allowDelete: bool)
    returns (rounds: seq<seq<Event>>, end: seq<Event>)
    ensures var out := ForceStop(o, t, limit, allowDelete);
            out.trace == Plus(t, Flatten(rounds) + end) && ForceStopEvents(rounds, end, limit, allowDelete, out.ok)
    decreases limit
  {
    var status := o.status(t);
    var e := StatusQuery(status);
    rounds, end := [], [e];
    PlusOne(t, e);
    if !StoppedOrMissing(status) {
      if limit == 0 {
        if allowDelete {
          var es := DeleteIsEvents(o, Then(t, e));
          PlusCons(t, e, es);
          end := [e] + es;
          assert end[1..] == es;
        }
      } else {
        var r := KillIsRound(o, t, status);
        var killed := Kill(o, Then(t, e), status);
        if killed.ok {
          var later;
          later, end := ForceStopIsEvents(o, killed.trace, limit - 1, allowDelete);
          rounds := [r] + later;
          PlusPlus(t, r, Flatten(later) + end);
          OneMoreRound(r, later, end, limit, allowDelete, ForceStop(o, killed.trace, limit - 1, allowDelete).ok);
        } else {
          end := r;
        }
      }
    }
    assert rounds == [] ==> Flatten(rounds) + end == end;
  }

  /** Stopping, event by event, for every manager: the stop call; if it is accepted, polls; and unless one of
      these shows the service stopped, not active or missing, force-stopping in up to six rounds. */
  lemma StopIsEvents(o: Oracle, t: Trace, allowDelete: bool)
    returns (polls: seq<Event>, rounds: seq<seq<Event>>, end: seq<Event>)
    ensures var out := Stop(o, t, allowDelete);
            var call := StopCall(o.call(t));
            && out.trace == Plus(t, [call] + polls + (Flatten(rounds) + end))
            && (call.reply == Accepted ==> PollEvents(Confirming, polls, 20, polls != [] && Is(Confirming, polls[|polls| - 1])))
            && (call.reply != Accepted ==> polls == [])
            && if Is(Confirming, ([call] + polls)[|polls|]) then out.ok && rounds == [] && end == []
               else ForceStopEvents(rounds, end, 6, allowDelete, out.ok)
  {
    var call := StopCall(o.call(t));
    var asked := Then(t, call);
    polls, rounds, end := [], [], [];
    PlusOne(t, call);
    if call.reply.Accepted? {
      polls := WaitEvents(UntilStopped, o, asked, STATE_CHANGE_POLLS, 0);
    }
    var reached := Plus(asked, polls);
    PlusCons(t, call, polls);
    assert call.reply.Accepted? ==> reached == Wait(UntilStopped, o, asked, STATE_CHANGE_POLLS, 0).trace;
    assert ([call] + polls)[|polls|] == if polls == [] then call else polls[|polls| - 1];
    if !Is(Confirming, ([call] + polls)[|polls|]) {
      rounds, end := ForceStopIsEvents(o, reached, FORCE_KILL_ROUNDS, allowDelete);
    }
    PlusPlus(t, [call] + polls, Flatten(rounds) + end);
  }

  // ---------------------------------------------------------------------------------------------
  // Which events a start consists of
  // ---------------------------------------------------------------------------------------------

  /** A start call, and if it is accepted or the service is running already, polls. */
  predicate Attempt(es: seq<Event>, ok: bool) {
    && |es| >= 1 && es[0].StartCall?
    && if es[0].reply == Accepted || es[0].reply == Refused(AlreadyRunning) then PollEvents(ShowingRunning, es[1..], 20, ok)
       else !ok && |es| == 1
  }

  /** At most so many attempts, all failed but the last if the start succeeded. */
  predicate Attempts(attempts: seq<seq<Event>>, limit: nat, ok: bool) {
    && |attempts| <= limit && (ok || |attempts| == limit) && (ok ==> attempts != [])
    && forall k :: 0 <= k < |attempts| ==> Attempt(attempts[k], ok && k == |attempts| - 1)
  }

  lemma OneMoreAttempt(first: seq<Event>, later: seq<seq<Event>>, limit: nat, ok: bool)
    requires limit > 0 && Attempt(first, false) && Attempts(later, limit - 1, ok)
    ensures Attempts([first] + later, limit, ok)
    ensures Flatten([first] + later) == first + Flatten(later)
  {
    var all := [first] + later;
    assert all[1..] == later;
    forall k | 0 <= k < |all| ensures Attempt(all[k], ok && k == |all| - 1) {
      if k > 0 {
        assert all[k] == later[k - 1];
      }
    }
  }

  lemma {:induction false} StartIsAttempts(o: Oracle, t: Trace, limit: nat) returns (attempts: seq<seq<Event>>)
    ensures var out := Start(o, t, limit);
            out.trace == Plus(t, Flatten(attempts)) && Attempts(attempts, limit, out.ok)
    decreases limit
  {
    attempts := [];
    if limit > 0 {
      var call := StartCall(o.call(t));
      var asked := Then(t, call);
      var polls := [];
      var ok := false;
      PlusOne(t, call);
      if Started(call.reply) {
        polls := WaitEvents(UntilRunning, o, asked, STATE_CHANGE_POLLS, 0);
        ok := Wait(UntilRunning, o, asked, STATE_CHANGE_POLLS, 0).end == Confirmed;
      }
      PlusCons(t, call, polls);
      var first := [call] + polls;
      assert first[1..] == polls;
      if ok {
        attempts := [first];
        assert attempts[1..] == [] && first + [] == first;
      } else {
        var next := Plus(t, first);
        var later := StartIsAttempts(o, next, limit - 1);
        OneMoreAttempt(first, later, limit, Start(o, next, limit - 1).ok);
        PlusPlus(t, first, Flatten(later));
        attempts := [first] + later;
      }
    }
  }

  /** Starting, event by event, for every manager: up to three attempts, and as many unless one succeeds. */
  lemma StartIsEvents(o: Oracle, t: Trace) returns (attempts: seq<seq<Event>>)
    ensures var out := Start(o, t, START_ATTEMPTS);
            out.trace == Plus(t, Flatten(attempts)) && Attempts(attempts, 3, out.ok)
  {
    attempts := StartIsAttempts(o, t, START_ATTEMPTS);
  }

  // ---------------------------------------------------------------------------------------------
  // The bound is reached
  // ---------------------------------------------------------------------------------------------

  /** Accepts every request, answers every query, and never lets the service go. */
  ghost predicate Wedged(o: Oracle) {
    && (forall t: Trace :: o.call(t) == Accepted)
    && (forall t: Trace :: o.status(t) == Status(StopPending, None))
    && (forall t: Trace :: o.existence(t) == Missing(false))
  }

  lemma {:induction false} WedgedWait(goal: Goal, o: Oracle, t: Trace, left: nat)
    requires Wedged(o)
    ensures var w := Wait(goal, o, t, left, 0);
            w.end == Exhausted && Count(Timed, w.trace) == Count(Timed, t) + left
    decreases left
  {
    if left > 0 {
      WedgedWait(goal, o, Then(t, Ask(goal, o, t)), left - 1);
    }
  }

  lemma WedgedDelete(o: Oracle, t: Trace)
    requires Wedged(o)
    ensures var out := Delete(o, t);
            !out.ok && Count(Timed, out.trace) == Count(Timed, t) + STATE_CHANGE_POLLS + 3
  {
    WedgedWait(UntilMissing, o, Then(Then(t, Ask(UntilMissing, o, t)), DeleteCall(Accepted)), STATE_CHANGE_POLLS);
  }

  lemma {:induction false} WedgedForceStop(o: Oracle, t: Trace, rounds: nat, allowDelete: bool)
    requires Wedged(o)
    ensures var out := ForceStop(o, t, rounds, allowDelete);
            && !out.ok
            && Count(Timed, out.trace)
               == Count(Timed, t) + 2 * rounds + 1 + if allowDelete then STATE_CHANGE_POLLS + 3 else 0
    decreases rounds
  {
    var asked := Then(t, StatusQuery(o.status(t)));
    if rounds == 0 {
      WedgedDelete(o, asked);
    } else {
      var killed := Kill(o, asked, o.status(t));
      assert Count(Timed, killed.trace) == Count(Timed, asked) + 1;
      WedgedForceStop(o, killed.trace, rounds - 1, allowDelete);
    }
  }

  /** A wedged service costs exactly the most calls that `StopIsSafe` allows. */
  lemma WedgedServiceCostsTheBound(o: Oracle, t: Trace, allowDelete: bool)
    requires Wedged(o)
    ensures var out := Stop(o, t, allowDelete);
            !out.ok && Count(Timed, out.trace) == Count(Timed, t) + if allowDelete then 57 else 34
  {
    var asked := Then(t, StopCall(Accepted));
    WedgedWait(UntilStopped, o, asked, STATE_CHANGE_POLLS);
    WedgedForceStop(o, Wait(UntilStopped, o, asked, STATE_CHANGE_POLLS, 0).trace, FORCE_KILL_ROUNDS, allowDelete);
  }

  // ---------------------------------------------------------------------------------------------
  // Starting
  // ---------------------------------------------------------------------------------------------

  /** A start call after `before` succeeded, and only polls have followed it. */
  predicate SinceStarted(before: Trace, t: Trace) {
    && t != before && t.Then?
    && (if t.last.StartCall? then t.last.reply == Accepted || t.last.reply == Refused(AlreadyRunning)
        else Is(Polling, t.last) && SinceStarted(before, t.past))
  }

  function Size(t: Trace): nat {
    if t == Empty then 0 else Size(t.past) + 1
  }

  lemma {:induction false} NoneSinceGrows(kind: Kind, before: Trace, after: Trace)
    requires NoneSince(kind, before, after)
    ensures before == after || Size(before) < Size(after)
  {
    if before != after {
      NoneSinceGrows(kind, before, after.past);
    }
  }

  lemma {:induction false} SinceStartedEarlier(a: Trace, b: Trace, t: Trace)
    requires NoneSince(ShowingRunning, a, b) && SinceStarted(b, t) && NoneSince(ShowingRunning, b, t)
    ensures SinceStarted(a, t)
  {
    NoneSinceGrows(ShowingRunning, a, b);
    NoneSinceGrows(ShowingRunning, b, t);
    if !t.last.StartCall? {
      SinceStartedEarlier(a, b, t.past);
    }
  }

  lemma {:induction false} WaitSinceStarted(o: Oracle, before: Trace, t: Trace, left: nat, failures: nat)
    requires SinceStarted(before, t) && Size(before) < Size(t)
    ensures var w := Wait(UntilRunning, o, t, left, failures);
            SinceStarted(before, w.trace) && (w.end == Confirmed ==> w.trace.Then? && SinceStarted(before, w.trace.past))
    decreases left
  {
    if left > 0 {
      var e := Ask(UntilRunning, o, t);
      assert SinceStarted(before, Then(t, e));
      if !Reached(UntilRunning, e) && (NoAnswer(e) ==> failures + 1 < MAX_CONSECUTIVE_FAILURES) {
        WaitSinceStarted(o, before, Then(t, e), left - 1, if NoAnswer(e) then failures + 1 else 0);
      }
    }
  }

  lemma {:induction false} StartCalls(o: Oracle, t: Trace, attempts: nat)
    ensures var out := Start(o, t, attempts);
            && Count(Starting, out.trace) <= Count(Starting, t) + attempts
            && (!out.ok ==> Count(Starting, out.trace) == Count(Starting, t) + attempts)
            && Count(Timed, out.trace) <= Count(Timed, t) + attempts * (STATE_CHANGE_POLLS + 1)
    decreases attempts
  {
    if attempts > 0 {
      var asked := Then(t, StartCall(o.call(t)));
      if Started(asked.last.reply) {
        var w := Wait(UntilRunning, o, asked, STATE_CHANGE_POLLS, 0);
        WaitSettles(UntilRunning, o, asked, STATE_CHANGE_POLLS, 0);
        NoneSinceKeepsCount(Starting, asked, w.trace);
        WaitCalls(UntilRunning, o, asked, STATE_CHANGE_POLLS, 0);
        StartCalls(o, w.trace, attempts - 1);
      } else {
        StartCalls(o, asked, attempts - 1);
      }
    }
  }

  lemma {:induction false} StartSettles(o: Oracle, t: Trace, attempts: nat)
    ensures var out := Start(o, t, attempts);
            && Settles(ShowingRunning, t, out.trace, out.ok)
            && (out.ok ==> SinceStarted(t, out.trace.past))
    decreases attempts
  {
    if attempts > 0 {
      var asked := Then(t, StartCall(o.call(t)));
      var next := asked;
      if Started(asked.last.reply) {
        WaitSettles(UntilRunning, o, asked, STATE_CHANGE_POLLS, 0);
        var w := Wait(UntilRunning, o, asked, STATE_CHANGE_POLLS, 0);
        SettlesLater(ShowingRunning, t, asked, w.trace, w.end == Confirmed);
        if w.end == Confirmed {
          assert Size(asked) == Size(t) + 1;
          WaitSinceStarted(o, t, asked, STATE_CHANGE_POLLS, 0);
          return;
        }
        next := w.trace;
      }
      StartSettles(o, next, attempts - 1);
      var out := Start(o, next, attempts - 1);
      SettlesLater(ShowingRunning, t, next, out.trace, out.ok);
      if out.ok {
        SinceStartedEarlier(t, next, out.trace.past);
      }
    }
  }

  /** Starting succeeds exactly when its last poll, and no earlier one, shows the service running; that
      poll follows a start call that succeeded, with only polls between.  It fails only after three
      start calls, and never makes more than 3 start calls and 63 timed calls. */
  lemma StartIsConfirmed(o: Oracle, t: Trace)
    ensures var out := Start(o, t, START_ATTEMPTS);
            && Settles(ShowingRunning, t, out.trace, out.ok)
            && (out.ok ==> SinceStarted(t, out.trace.past))
            && Count(Starting, out.trace) <= Count(Starting, t) + 3
            && (!out.ok ==> Count(Starting, out.trace) == Count(Starting, t) + 3)
            && Count(Timed, out.trace) <= Count(Timed, t) + 63
  {
    StartSettles(o, t, START_ATTEMPTS);
    StartCalls(o, t, START_ATTEMPTS);
  }
}
