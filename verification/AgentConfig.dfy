/**
 The agent's configuration file.  Registration data and tokens live in one file and are saved by
 read-modify-write; a lock keeps concurrent savers from losing each other's fields.
 */
module AgentConfig {
  import opened Options

  datatype Config = Config(
    machineId: string, clientId: string, clientSecret: string, accessToken: string, refreshToken: string)

  const DEFAULT := Config("", "", "", "", "")

  /** The file may be absent or not parse. */
  datatype File = Missing | Unreadable | Holds(config: Config)

  datatype Save =
    | Registration(machineId: string, clientId: string, clientSecret: string)
    | Tokens(accessToken: string, refreshToken: string)

  function Edit(c: Config, save: Save): Config {
    match save
    case Registration(machineId, clientId, clientSecret) =>
      c.(machineId := machineId, clientId := clientId, clientSecret := clientSecret)
    case Tokens(accessToken, refreshToken) =>
      c.(accessToken := accessToken, refreshToken := refreshToken)
  }

  function Get(file: File): Option<Config> {
    match file
    case Missing => Some(DEFAULT)
    case Unreadable => None
    case Holds(c) => Some(c)
  }

  class AgentConfigurationService {
    var file: File

    constructor (file: File)
      ensures this.file == file
    {
      this.file := file;
    }

    /** Reading can fail although the file is there; the atomic write happens or leaves the file alone. */
    method SaveRegistrationData(
        machineId: string, clientId: string, clientSecret: string, readable: bool, writable: bool) returns (ok: bool)
      modifies this
      ensures ok <==> readable && writable && !old(file).Unreadable?
      ensures file == if ok then Holds(Edit(Get(old(file)).value, Registration(machineId, clientId, clientSecret)))
                      else old(file)
    {
      if !readable || file.Unreadable? {
        return false;
      }
      var config := if file.Missing? then DEFAULT else file.config;
      config := config.(machineId := machineId);
      config := config.(clientId := clientId);
      config := config.(clientSecret := clientSecret);
      if writable {
        file := Holds(config);
      }
      ok := writable;
    }

    method UpdateTokens(accessToken: string, refreshToken: string, readable: bool, writable: bool) returns (ok: bool)
      modifies this
      ensures ok <==> readable && writable && !old(file).Unreadable?
      ensures file == if ok then Holds(Edit(Get(old(file)).value, Tokens(accessToken, refreshToken))) else old(file)
    {
      if !readable || file.Unreadable? {
        return false;
      }
      var config := if file.Missing? then DEFAULT else file.config;
      config := config.(accessToken := accessToken);
      config := config.(refreshToken := refreshToken);
      if writable {
        file := Holds(config);
      }
      ok := writable;
    }
  }

  // ---------------------------------------------------------------------------------------------
  // Interleaved savers
  // ---------------------------------------------------------------------------------------------

  /** A saver waits for the lock, reads and edits, writes, and releases the lock. */
  datatype Task = Idle | Waiting(save: Save) | Locked(save: Save) | Edited(save: Save, config: Config) | Finished

  datatype System = System(file: File, holder: Option<nat>, tasks: map<nat, Task>, completed: seq<Save>)

  datatype Step =
    | Call(task: nat, save: Save)
    | Lock(task: nat)
    | Read(task: nat, readable: bool)
    | Write(task: nat, writable: bool)
    | Unlock(task: nat)
    | Crash

  function TaskAt(sys: System, t: nat): Task {
    if t in sys.tasks then sys.tasks[t] else Idle
  }

  function Start(file: File): System {
    System(file, None, map[], [])
  }

  function Next(sys: System, step: Step): System {
    match step
    case Call(t, save) =>
      if TaskAt(sys, t).Idle? then sys.(tasks := sys.tasks[t := Waiting(save)]) else sys
    case Lock(t) =>
      if TaskAt(sys, t).Waiting? && sys.holder.None? then
        sys.(holder := Some(t), tasks := sys.tasks[t := Locked(TaskAt(sys, t).save)])
      else sys
    case Read(t, readable) =>
      if !TaskAt(sys, t).Locked? then sys
      else if readable && Get(sys.file).Some? then
        var save := TaskAt(sys, t).save;
        sys.(tasks := sys.tasks[t := Edited(save, Edit(Get(sys.file).value, save))])
      else sys.(tasks := sys.tasks[t := Finished])
    case Write(t, writable) =>
      if !TaskAt(sys, t).Edited? then sys
      else
        var sys' := sys.(tasks := sys.tasks[t := Finished]);
        if writable then
          sys'.(file := Holds(TaskAt(sys, t).config), completed := sys.completed + [TaskAt(sys, t).save])
        else sys'
    case Unlock(t) =>
      if TaskAt(sys, t).Finished? then sys.(holder := None, tasks := sys.tasks[t := Idle]) else sys
    case Crash =>
      System(sys.file, None, map[], sys.completed)
  }

  function Run(sys: System, steps: seq<Step>): System {
    if steps == [] then sys else Next(Run(sys, steps[..|steps| - 1]), steps[|steps| - 1])
  }

  // ---------------------------------------------------------------------------------------------
  // No field is lost
  // ---------------------------------------------------------------------------------------------

  /** The file after the saves, one after the other. */
  function Replay(file: File, saves: seq<Save>): File {
    if saves == [] then file else
    var before := Replay(file, saves[..|saves| - 1]);
    if Get(before).None? then before else Holds(Edit(Get(before).value, saves[|saves| - 1]))
  }

  predicate InCriticalSection(task: Task) {
    task.Locked? || task.Edited? || task.Finished?
  }

  /** Only the holder of the lock has read the file, and what it read is still there. */
  ghost predicate TaskInv(sys: System, t: nat) {
    var task := TaskAt(sys, t);
    && (InCriticalSection(task) ==> sys.holder == Some(t))
    && (task.Edited? ==> Get(sys.file).Some? && task.config == Edit(Get(sys.file).value, task.save))
  }

  ghost predicate Inv(start: File, sys: System) {
    && (forall t: nat :: TaskInv(sys, t))
    && sys.file == Replay(start, sys.completed)
  }

  lemma NextTaskInv(sys: System, step: Step, t: nat)
    requires forall u: nat :: TaskInv(sys, u)
    ensures TaskInv(Next(sys, step), t)
  {
    assert TaskInv(sys, t);
    if !step.Crash? {
      assert TaskInv(sys, step.task);
      assert step.task != t ==> TaskAt(Next(sys, step), t) == TaskAt(sys, t);
    }
  }

  lemma NextInv(start: File, sys: System, step: Step)
    requires Inv(start, sys)
    ensures Inv(start, Next(sys, step))
  {
    var sys' := Next(sys, step);
    forall t: nat ensures TaskInv(sys', t) {
      NextTaskInv(sys, step, t);
    }
    if |sys'.completed| > |sys.completed| {
      assert TaskInv(sys, step.task);
      assert sys'.completed[..|sys.completed|] == sys.completed;
    }
  }

  /** For any interleaving of any savers, with any failures and crashes, the file is always what the
      completed saves give when made one after the other; a reader, which takes no lock, sees it too. */
  lemma {:induction false} FileIsSequential(start: File, steps: seq<Step>)
    ensures var sys := Run(Start(start), steps);
            Inv(start, sys) && sys.file == Replay(start, sys.completed)
  {
    if steps != [] {
      FileIsSequential(start, steps[..|steps| - 1]);
      NextInv(start, Run(Start(start), steps[..|steps| - 1]), steps[|steps| - 1]);
    }
  }

  /** `k` is the last completed save of its kind. */
  ghost predicate LastOfKind(saves: seq<Save>, k: int, registration: bool) {
    && 0 <= k < |saves| && saves[k].Registration? == registration
    && forall j :: k < j < |saves| ==> saves[j].Registration? != registration
  }

  lemma {:induction false} ReplayKeepsLast(file: File, saves: seq<Save>)
    requires Get(file).Some?
    ensures Get(Replay(file, saves)).Some?
    ensures var c := Get(Replay(file, saves)).value;
            && (forall k :: LastOfKind(saves, k, true) ==>
                  saves[k] == Registration(c.machineId, c.clientId, c.clientSecret))
            && (forall k :: LastOfKind(saves, k, false) ==> saves[k] == Tokens(c.accessToken, c.refreshToken))
            && ((forall k :: !LastOfKind(saves, k, true)) ==>
                  var c0 := Get(file).value;
                  c.machineId == c0.machineId && c.clientId == c0.clientId && c.clientSecret == c0.clientSecret)
            && ((forall k :: !LastOfKind(saves, k, false)) ==>
                  var c0 := Get(file).value; c.accessToken == c0.accessToken && c.refreshToken == c0.refreshToken)
  {
    if saves != [] {
      var n := |saves| - 1;
      var prefix := saves[..n];
      ReplayKeepsLast(file, prefix);
      var registration := saves[n].Registration?;
      assert LastOfKind(saves, n, registration);
      assert forall k :: LastOfKind(saves, k, registration) ==> k == n;
      var other := !registration;
      assert forall k :: LastOfKind(saves, k, other) <==> LastOfKind(prefix, k, other);
    }
  }

  /** The file holds the fields of the last completed registration together with those of the last
      completed token update. */
  lemma LastSavesWin(start: File, steps: seq<Step>, r: int, t: int)
    requires Get(start).Some?
    requires LastOfKind(Run(Start(start), steps).completed, r, true)
    requires LastOfKind(Run(Start(start), steps).completed, t, false)
    ensures var sys := Run(Start(start), steps);
            var Registration(machineId, clientId, clientSecret) := sys.completed[r];
            var Tokens(accessToken, refreshToken) := sys.completed[t];
            sys.file == Holds(Config(machineId, clientId, clientSecret, accessToken, refreshToken))
  {
    var completed := Run(Start(start), steps).completed;
    FileIsSequential(start, steps);
    ReplayKeepsLast(start, completed);
  }
}
