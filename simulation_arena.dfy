/** The simulated machine the red and blue team agents act on: a file system of
    directories, a process table with increasing process ids, the quarantine
    register and the event log. The agents' commands arrive as structured
    values. */
module SimulationArena {
  import opened Common
  import opened Values
  import opened NtPath

  datatype ProcInfo = User(user: string) | Commandline(commandline: string)

  datatype Process = Process(pid: int, name: string, info: ProcInfo)

  /** One log line, without its timestamp. */
  datatype LogEntry = LogEntry(eventType: string, details: string)

  /** Directory path to file name to content. */
  type FileSystem = map<string, map<string, string>>

  // ---------------------------------------------------------------------------
  // Paths

  /** A path without its trailing separators. */
  function TrimSeps(s: string): (r: string)
    ensures |r| <= |s| && r == s[..|r|]
    ensures r == [] || !IsSep(r[|r| - 1])
  {
    if s != [] && IsSep(s[|s| - 1]) then TrimSeps(s[..|s| - 1]) else s
  }

  /** `os.path.split`: the directory part (drive kept, trailing separators
      dropped unless it is all separators) and the final component. */
  function PathSplit(p: string): (r: (string, string))
    ensures forall j :: 0 <= j < |r.1| ==> !IsSep(r.1[j])
  {
    var d := Drive(p);
    var rest := AfterDrive(p);
    var i := TailStart(rest);
    var head := rest[..i];
    var h := TrimSeps(head);
    (d + (if h == [] then head else h), rest[i..])
  }

  lemma TrimOneSep(a: string)
    requires a != [] && !IsSep(a[|a| - 1])
    ensures TrimSeps(a + "\\") == a
  {
    var h := a + "\\";
    assert h[..|h| - 1] == a;
  }

  /** The drive of `dir\name` is the drive of `dir`, and the rest follows it. */
  lemma DriveOfJoin(dir: string, name: string)
    requires AfterDrive(dir) != []
    ensures Drive(dir + "\\" + name) == Drive(dir)
    ensures AfterDrive(dir + "\\" + name) == AfterDrive(dir) + "\\" + name
  {
    var p := dir + "\\" + name;
    if |dir| == 1 {
      assert p[1] == '\\';
    } else {
      assert p[..2] == dir[..2];
    }
  }

  /** `dir\name` splits back into `dir` and `name` when `dir` has a component
      after its drive and does not end with a separator. */
  lemma PathSplitJoin(dir: string, name: string)
    requires AfterDrive(dir) != [] && !IsSep(dir[|dir| - 1])
    requires forall j :: 0 <= j < |name| ==> !IsSep(name[j])
    ensures PathSplit(dir + "\\" + name) == (dir, name)
  {
    DriveOfJoin(dir, name);
    var d := Drive(dir);
    var a := AfterDrive(dir);
    assert dir == d + a;
    assert a[|a| - 1] == dir[|dir| - 1];
    TailOfSepName(a, name);
    TrimOneSep(a);
    var rest := a + "\\" + name;
    hide Drive, AfterDrive, TailStart, TrimSeps;
    assert rest[..|a| + 1] == a + "\\";
    assert rest[|a| + 1..] == name;
  }

  // ---------------------------------------------------------------------------
  // The starting file system

  function BaseFileSystem(): FileSystem {
    map[
      "C:\\Windows\\System32" := map["kernel32.dll" := "system_file", "cmd.exe" := "<exe>", "powershell.exe" := "<exe>"],
      "C:\\Program Files" := map[]]
  }

  /** One entry of `user_specific_paths`: a named path that is set becomes an
      empty directory (replacing any directory of that name); the documents
      directory receives the objective file and the downloads directory an
      installer. */
  function AddUserPath(fs: FileSystem, name: string, path: Option<string>, objective: string): FileSystem {
    if path == None || path.value == [] then fs
    else if name == "documents" then fs[path.value := map[objective := "sensitive_data"]]
    else if name == "downloads" then fs[path.value := map["setup.exe" := "<downloaded_file>"]]
    else fs[path.value := map[]]
  }

  /** The entries of `user_specific_paths`, applied in order. */
  function UserPaths(fs: FileSystem, paths: seq<(string, Option<string>)>, objective: string): FileSystem
    decreases |paths|
  {
    if paths == [] then fs
    else
      var last := paths[|paths| - 1];
      AddUserPath(UserPaths(fs, paths[..|paths| - 1], objective), last.0, last.1, objective)
  }

  /** The directory an entry names, when it is set. */
  predicate Names(entry: (string, Option<string>), p: string) {
    entry.1 == Some(p) && p != []
  }

  /** A directory no entry names keeps what it had. */
  lemma {:induction false} UnnamedKept(fs: FileSystem, paths: seq<(string, Option<string>)>, objective: string, p: string)
    requires forall k :: 0 <= k < |paths| ==> !Names(paths[k], p)
    ensures (p in UserPaths(fs, paths, objective)) == (p in fs)
    ensures p in fs ==> UserPaths(fs, paths, objective)[p] == fs[p]
    decreases |paths|
  {
    if paths != [] {
      UnnamedKept(fs, paths[..|paths| - 1], objective, p);
    }
  }

  /** The documents directory holds the objective file, unless a later entry
      names the same directory. */
  lemma {:induction false} ObjectivePlaced(fs: FileSystem, paths: seq<(string, Option<string>)>, objective: string, k: nat, p: string)
    requires k < |paths| && paths[k].0 == "documents" && Names(paths[k], p)
    requires forall j :: k < j < |paths| ==> !Names(paths[j], p)
    ensures p in UserPaths(fs, paths, objective)
    ensures UserPaths(fs, paths, objective)[p] == map[objective := "sensitive_data"]
    decreases |paths|
  {
    var init := paths[..|paths| - 1];
    if k < |paths| - 1 {
      ObjectivePlaced(fs, init, objective, k, p);
      var last := paths[|paths| - 1];
      assert !Names(last, p);
    }
  }

  // ---------------------------------------------------------------------------
  // Commands

  /** The process a command line runs in: PowerShell when it names it (in any
      letter case), else the command shell. */
  function ProcessName(commandline: string): (r: string)
    ensures r == "powershell.exe" <==> Contains(Lower(commandline), "powershell.exe")
    ensures r == "cmd.exe" <==> !Contains(Lower(commandline), "powershell.exe")
  {
    if Find(Lower(commandline), "powershell.exe") then "powershell.exe" else "cmd.exe"
  }

  /** The process name always contains `powershell` or `cmd`, so the registry
      branch of the red team dispatch can never be taken. */
  lemma RegistryBranchDead(commandline: string)
    ensures Contains(ProcessName(commandline), "powershell") || Contains(ProcessName(commandline), "cmd")
  {
    assert OccursAt("powershell.exe", "powershell", 0);
    assert OccursAt("cmd.exe", "cmd", 0);
  }

  /** `key in params` for the kinds of value the parameters can be; a number
      cannot be searched. */
  function HasKey(params: Value, key: string): Result<bool> {
    match params
    case Dict(entries) => Ok(Get(entries, key).Some?)
    case List(items) => Ok(Str(key) in items)
    case Str(s) => Ok(Find(s, key))
    case _ => Err
  }

  /** `int(pid)`; `None` where Python raises `ValueError` or `TypeError`. */
  function PidOf(v: Value): (r: Option<int>)
    ensures v.Int? ==> r == Some(v.i)
    ensures v.Null? || v.List? || v.Dict? ==> r == None
  {
    match v
    case Int(i) => Some(i)
    case Bool(b) => Some(if b then 1 else 0)
    case Str(s) => ParseInt(s)
    case _ => None
  }

  /** Index of the first process with `pid`. */
  function FirstWithPid(procs: seq<Process>, pid: int): (r: Option<nat>)
    ensures r.None? <==> forall k :: 0 <= k < |procs| ==> procs[k].pid != pid
    ensures r.Some? ==> (r.value < |procs| && procs[r.value].pid == pid
      && forall k :: 0 <= k < r.value ==> procs[k].pid != pid)
  {
    if procs == [] then None
    else if procs[0].pid == pid then Some(0)
    else match FirstWithPid(procs[1..], pid)
      case None => None
      case Some(j) => Some(j + 1)
  }

  /** The file is in a known directory. */
  predicate Present(fs: FileSystem, filepath: string) {
    var (dir, file) := PathSplit(filepath);
    dir in fs && file in fs[dir]
  }

  const T1105Code: string := "<simulated_exploit_code>"

  class Arena {
    var filesystem: FileSystem
    var processes: seq<Process>
    var eventLogs: seq<LogEntry>
    var nextPid: int
    /** File path to `"quarantined"`. */
    var quarantined: map<string, string>
    const objectiveFile: string

    /** Issued process ids are below the next one and pairwise distinct. */
    ghost predicate PidsOk()
      reads this
    {
      (forall k :: 0 <= k < |processes| ==> processes[k].pid < nextPid)
      && forall i, j :: 0 <= i < j < |processes| ==> processes[i].pid != processes[j].pid
    }

    /** Builds the arena from the user's named paths; security rules and the
        installed software list are not part of this model. */
    constructor(paths: seq<(string, Option<string>)>, objectiveFile: string)
      ensures filesystem == UserPaths(BaseFileSystem(), paths, objectiveFile)
      ensures processes == [Process(101, "explorer.exe", User("SYSTEM"))]
      ensures nextPid == 1000 && eventLogs == [] && quarantined == map[]
      ensures this.objectiveFile == objectiveFile
      ensures PidsOk()
    {
      this.objectiveFile := objectiveFile;
      var fs := BaseFileSystem();
      for i := 0 to |paths|
        invariant fs == UserPaths(BaseFileSystem(), paths[..i], objectiveFile)
      {
        assert paths[..i + 1][..i] == paths[..i];
        fs := AddUserPath(fs, paths[i].0, paths[i].1, objectiveFile);
      }
      assert paths[..|paths|] == paths;
      filesystem := fs;
      processes := [Process(101, "explorer.exe", User("SYSTEM"))];
      eventLogs := [];
      nextPid := 1000;
      quarantined := map[];
    }

    /** `_log_event` */
    method Log(eventType: string, details: string)
      modifies this
      ensures eventLogs == old(eventLogs) + [LogEntry(eventType, details)]
      ensures filesystem == old(filesystem) && processes == old(processes)
      ensures nextPid == old(nextPid) && quarantined == old(quarantined)
    {
      eventLogs := eventLogs + [LogEntry(eventType, details)];
    }

    /** `_create_process`: the new process gets the next id, which then moves on. */
    method CreateProcess(name: string, commandline: string) returns (pid: int)
      modifies this
      ensures pid == old(nextPid) && nextPid == old(nextPid) + 1
      ensures processes == old(processes) + [Process(pid, name, Commandline(commandline))]
      ensures eventLogs == old(eventLogs) +
        [LogEntry("PROCESS_CREATE_SUCCESS", "Process '" + name + "' (PID: " + IntToString(pid) + ") created...")]
      ensures filesystem == old(filesystem) && quarantined == old(quarantined)
      ensures old(PidsOk()) ==> PidsOk()
    {
      pid := nextPid;
      processes := processes + [Process(pid, name, Commandline(commandline))];
      nextPid := nextPid + 1;
      Log("PROCESS_CREATE_SUCCESS", "Process '" + name + "' (PID: " + IntToString(pid) + ") created...");
    }

    /** `_create_file`: succeeds exactly when the directory is known, and then
        sets or replaces that one file. */
    method CreateFile(path: string, content: string) returns (ok: bool)
      modifies this
      ensures var (dir, file) := PathSplit(path);
        (ok <==> dir in old(filesystem))
        && (ok ==> filesystem == old(filesystem)[dir := old(filesystem)[dir][file := content]]
                   && eventLogs == old(eventLogs) + [LogEntry("FILE_CREATE_SUCCESS", "File '" + path + "' created.")])
        && (!ok ==> filesystem == old(filesystem)
                    && eventLogs == old(eventLogs) + [LogEntry("FILE_CREATE_FAIL", "Directory '" + dir + "' not found.")])
      ensures processes == old(processes) && nextPid == old(nextPid) && quarantined == old(quarantined)
    {
      var (dir, file) := PathSplit(path);
      if dir in filesystem {
        filesystem := filesystem[dir := filesystem[dir][file := content]];
        Log("FILE_CREATE_SUCCESS", "File '" + path + "' created.");
        return true;
      }
      Log("FILE_CREATE_FAIL", "Directory '" + dir + "' not found.");
      return false;
    }

    /** `_terminate_process`: the first process with the id is removed and the
        others stay in order; an unknown id is only logged. */
    method TerminateProcess(pid: int)
      modifies this
      ensures match FirstWithPid(old(processes), pid)
        case Some(i) =>
          processes == old(processes)[..i] + old(processes)[i + 1..]
          && eventLogs == old(eventLogs) + [LogEntry("PROCESS_TERMINATE_SUCCESS",
               "PID " + IntToString(pid) + " ('" + old(processes)[i].name + "') terminated.")]
        case None =>
          processes == old(processes)
          && eventLogs == old(eventLogs) + [LogEntry("PROCESS_TERMINATE_FAIL", "PID " + IntToString(pid) + " not found.")]
      ensures filesystem == old(filesystem) && nextPid == old(nextPid) && quarantined == old(quarantined)
      ensures old(PidsOk()) ==> PidsOk()
    {
      match FirstWithPid(processes, pid)
      case Some(i) =>
        var victim := processes[i];
        processes := processes[..i] + processes[i + 1..];
        Log("PROCESS_TERMINATE_SUCCESS", "PID " + IntToString(pid) + " ('" + victim.name + "') terminated.");
      case None =>
        Log("PROCESS_TERMINATE_FAIL", "PID " + IntToString(pid) + " not found.");
    }

    /** `_quarantine_file`: a present file leaves its directory and is recorded;
        anything else changes nothing at all. */
    method QuarantineFile(filepath: string)
      modifies this
      ensures var (dir, file) := PathSplit(filepath);
        if Present(old(filesystem), filepath) then
          filesystem == old(filesystem)[dir := old(filesystem)[dir] - {file}]
          && quarantined == old(quarantined)[filepath := "quarantined"]
          && eventLogs == old(eventLogs) + [LogEntry("FILE_QUARANTINE_SUCCESS", "File '" + filepath + "' quarantined.")]
        else
          filesystem == old(filesystem) && quarantined == old(quarantined) && eventLogs == old(eventLogs)
      ensures processes == old(processes) && nextPid == old(nextPid)
    {
      var (dir, file) := PathSplit(filepath);
      if dir in filesystem && file in filesystem[dir] {
        filesystem := filesystem[dir := filesystem[dir] - {file}];
        quarantined := quarantined[filepath := "quarantined"];
        Log("FILE_QUARANTINE_SUCCESS", "File '" + filepath + "' quarantined.");
      }
    }

    /** `execute_t1105_ingress_tool_transfer`: the payload is written to the
        destination when its directory exists, and the outcome is logged. A
        destination that is not text cannot be split and raises after the first
        log line. */
    method IngressToolTransfer(url: Value, destination: Value) returns (ok: bool)
      modifies this
      ensures ok <==> destination.Str?
      ensures !ok ==> filesystem == old(filesystem) && eventLogs == old(eventLogs) + [TransferStart(url, destination)]
      ensures ok ==> (filesystem == Transferred(destination.s, old(filesystem))
        && eventLogs == old(eventLogs) + [TransferStart(url, destination)]
                        + TransferLines(url, destination.s, old(filesystem)))
      ensures processes == old(processes) && nextPid == old(nextPid) && quarantined == old(quarantined)
    {
      hide ToStr;
      Log("TACTIC_EXECUTION", "T1105: Transfer from " + ToStr(url) + " to " + ToStr(destination));
      if !destination.Str? {
        return false;
      }
      var created := CreateFile(destination.s, T1105Code);
      if created {
        Log("TACTIC_SUCCESS", "Transfer to '" + destination.s + "' completed.");
      } else {
        Log("TACTIC_FAIL", "Transfer from '" + ToStr(url) + "' failed.");
      }
      return true;
    }

    /** `execute_red_team_tactic`: a command without parameters is logged as
        invalid; a command line starts a process; T1105 transfers a file; any
        other tactic is logged as not implemented. `ok` is false where Python
        raises, and then the process table, the file system and the next id are
        as they were. */
    method ExecuteRedTeamTactic(cmd: Value) returns (ok: bool)
      modifies this
      ensures !Truthy(cmd) ==> (ok && eventLogs == old(eventLogs) +
        [LogEntry("TACTIC_VALIDATION_FAILURE", "Invalid command: " + ToStr(cmd))])
      ensures Truthy(cmd) && !cmd.Dict? ==> !ok && eventLogs == old(eventLogs)
      ensures cmd.Dict? && Truthy(cmd) && ParamsOf(cmd).None? ==>
        ok && eventLogs == old(eventLogs) + [LogEntry("TACTIC_VALIDATION_FAILURE", "Invalid command: " + ToStr(cmd))]
      ensures CommandOf(cmd).Some? ==> var c := CommandOf(cmd).value;
        ok && nextPid == old(nextPid) + 1 && filesystem == old(filesystem)
        && processes == old(processes) + [Process(old(nextPid), ProcessName(c), Commandline(c))]
        && eventLogs == old(eventLogs) + [CreateLine(ProcessName(c), old(nextPid))]
      ensures TransferOf(cmd).Some? ==> var (url, dest) := TransferOf(cmd).value;
        (ok <==> dest.Str?) && processes == old(processes) && nextPid == old(nextPid)
        && (ok ==> filesystem == Transferred(dest.s, old(filesystem))
                   && eventLogs == old(eventLogs) + [TransferStart(url, dest)] + TransferLines(url, dest.s, old(filesystem)))
        && (!ok ==> eventLogs == old(eventLogs) + [TransferStart(url, dest)])
      ensures ParamsOf(cmd).Some? && NotImplemented(ParamsOf(cmd).value, TacticOf(cmd)) ==>
        ok && eventLogs == old(eventLogs) + [NotImplementedLine(TacticOf(cmd))]
      ensures (ParamsOf(cmd).Some? && HasKey(ParamsOf(cmd).value, "command_to_execute") != Ok(false)
               && !HasCommand(ParamsOf(cmd).value)) ==> !ok
      ensures !ok || CommandOf(cmd).None? ==>
        processes == old(processes) && nextPid == old(nextPid)
      ensures !ok || TransferOf(cmd).None? ==> filesystem == old(filesystem)
      ensures !ok && TransferOf(cmd).None? ==> eventLogs == old(eventLogs)
      ensures old(PidsOk()) ==> PidsOk()
      ensures quarantined == old(quarantined)
    {
      RedCases(cmd);
      hide PathSplit, ProcessName, HasKey, Transferred, TransferLines, NotImplemented,
        CommandOf, TransferOf, HasCommand, IsTransfer, CreateLine, TransferStart;
      if !Truthy(cmd) {
        Log("TACTIC_VALIDATION_FAILURE", "Invalid command: " + ToStr(cmd));
        return true;
      }
      if !cmd.Dict? {
        return false;
      }
      var given := Get(cmd.entries, "parameters");
      if !(given.Some? && Truthy(given.value)) {
        Log("TACTIC_VALIDATION_FAILURE", "Invalid command: " + ToStr(cmd));
        return true;
      }
      var params := given.value;
      var tactic := match Get(cmd.entries, "tactic") case Some(t) => t case None => Null;
      ok := Dispatch(params, tactic);
    }

    /** The branches of `execute_red_team_tactic` once the parameters are known
        to be truthy. */
    method Dispatch(params: Value, tactic: Value) returns (ok: bool)
      modifies this
      ensures HasCommand(params) ==>
        var c := Get(params.entries, "command_to_execute").value.s;
        ok && nextPid == old(nextPid) + 1 && filesystem == old(filesystem)
        && processes == old(processes) + [Process(old(nextPid), ProcessName(c), Commandline(c))]
        && eventLogs == old(eventLogs) + [CreateLine(ProcessName(c), old(nextPid))]
      ensures IsTransfer(params, tactic) ==>
        var (url, dest) := (Get(params.entries, "url").value, Get(params.entries, "destination").value);
        (ok <==> dest.Str?) && processes == old(processes) && nextPid == old(nextPid)
        && (ok ==> filesystem == Transferred(dest.s, old(filesystem))
                   && eventLogs == old(eventLogs) + [TransferStart(url, dest)] + TransferLines(url, dest.s, old(filesystem)))
        && (!ok ==> filesystem == old(filesystem) && eventLogs == old(eventLogs) + [TransferStart(url, dest)])
      ensures NotImplemented(params, tactic) ==>
        ok && eventLogs == old(eventLogs) + [NotImplementedLine(tactic)]
      ensures HasKey(params, "command_to_execute") != Ok(false) && !HasCommand(params) ==> !ok
      ensures !HasCommand(params) ==> processes == old(processes) && nextPid == old(nextPid)
      ensures !ok || !IsTransfer(params, tactic) ==> filesystem == old(filesystem)
      ensures !ok && !IsTransfer(params, tactic) ==> eventLogs == old(eventLogs)
      ensures old(PidsOk()) ==> PidsOk()
      ensures quarantined == old(quarantined)
    {
      hide PathSplit, ToStr, ProcessName, Transferred, TransferLines;
      var hasCommand := HasKey(params, "command_to_execute");
      if hasCommand.Err? {
        return false;
      }
      if hasCommand.value {
        if !params.Dict? {
          return false;
        }
        var commandline := Get(params.entries, "command_to_execute").value;
        if !commandline.Str? {
          return false;
        }
        // the registry branch is dead: see RegistryBranchDead
        var pid := CreateProcess(ProcessName(commandline.s), commandline.s);
        return true;
      } else if tactic == Str("T1105") {
        if !(params.Dict? && TransferArgs(params.entries)) {
          return false;
        }
        ok := IngressToolTransfer(Get(params.entries, "url").value, Get(params.entries, "destination").value);
      } else {
        Log("TACTIC_NOT_IMPLEMENTED", "Tactic '" + ToStr(tactic) + "' is not implemented.");
        return true;
      }
    }

    /** `execute_blue_team_action`: no action, or an action it does not know,
        does nothing; `terminate_process` ends the process with the given id or
        logs an invalid id; `quarantine_file` quarantines a given path. `ok` is
        false where Python raises, and then nothing changes. */
    method ExecuteBlueTeamAction(details: Value) returns (ok: bool)
      modifies this
      ensures nextPid == old(nextPid)
      ensures !details.Dict? ==> !ok
      ensures (!details.Dict? || !Truthy(ActionOf(details))
        || (ActionOf(details) != Str("terminate_process") && ActionOf(details) != Str("quarantine_file"))) ==>
        (ok <==> details.Dict?) && eventLogs == old(eventLogs) && filesystem == old(filesystem)
        && processes == old(processes) && quarantined == old(quarantined)
      ensures details.Dict? && ActionOf(details) == Str("terminate_process") ==>
        var parameters := BlueParams(details);
        (ok <==> parameters.Dict?)
        && filesystem == old(filesystem) && quarantined == old(quarantined)
        && (ok ==> processes == AfterKill(old(processes), parameters)
                   && eventLogs == old(eventLogs) + [KillLine(old(processes), parameters)])
        && (!ok ==> processes == old(processes) && eventLogs == old(eventLogs))
      ensures details.Dict? && ActionOf(details) == Str("quarantine_file") ==>
        var parameters := BlueParams(details);
        (ok <==> QuarantineReadable(parameters)) && processes == old(processes)
        && (PathArg(parameters).Some? ==>
              filesystem == AfterQuarantine(old(filesystem), PathArg(parameters).value)
              && quarantined == Recorded(old(filesystem), old(quarantined), PathArg(parameters).value)
              && eventLogs == old(eventLogs) + QuarantineLines(old(filesystem), PathArg(parameters).value))
        && (PathArg(parameters).None? ==>
              filesystem == old(filesystem) && quarantined == old(quarantined) && eventLogs == old(eventLogs))
      ensures old(PidsOk()) ==> PidsOk()
    {
      hide PathSplit, Present, WithoutPid, AfterKill, KillLine, AfterQuarantine, Recorded, QuarantineLines;
      if !details.Dict? {
        return false;
      }
      var action := ActionOf(details);
      var parameters := BlueParams(details);
      if !Truthy(action) {
        return true;
      }
      if action == Str("terminate_process") {
        ok := TerminateAction(parameters);
      } else if action == Str("quarantine_file") {
        ok := QuarantineAction(parameters);
      } else {
        ok := true;
      }
    }

    /** The `terminate_process` branch: `parameters.get("pid")` read by `int()`;
        an id `int()` refuses is logged as invalid. */
    method TerminateAction(parameters: Value) returns (ok: bool)
      modifies this
      ensures ok <==> parameters.Dict?
      ensures !ok ==> eventLogs == old(eventLogs) && processes == old(processes)
      ensures ok ==> (processes == AfterKill(old(processes), parameters)
        && eventLogs == old(eventLogs) + [KillLine(old(processes), parameters)])
      ensures filesystem == old(filesystem) && quarantined == old(quarantined) && nextPid == old(nextPid)
      ensures old(PidsOk()) ==> PidsOk()
    {
      hide ToStr, IntToString, FirstWithPid, PidOf;
      if !parameters.Dict? {
        return false;
      }
      var pid := PidValue(parameters);
      match PidOf(pid) {
        case Some(n) => TerminateProcess(n);
        case None => Log("BLUE_TEAM_FAIL", "Invalid PID '" + ToStr(pid) + "'.");
      }
      return true;
    }

    /** The `quarantine_file` branch: a truthy `filepath` is quarantined; a
        falsy one does nothing. */
    method QuarantineAction(parameters: Value) returns (ok: bool)
      modifies this
      ensures ok <==> QuarantineReadable(parameters)
      ensures PathArg(parameters).Some? ==>
        filesystem == AfterQuarantine(old(filesystem), PathArg(parameters).value)
        && quarantined == Recorded(old(filesystem), old(quarantined), PathArg(parameters).value)
        && eventLogs == old(eventLogs) + QuarantineLines(old(filesystem), PathArg(parameters).value)
      ensures PathArg(parameters).None? ==>
        eventLogs == old(eventLogs) && filesystem == old(filesystem) && quarantined == old(quarantined)
      ensures processes == old(processes) && nextPid == old(nextPid)
    {
      hide PathSplit, Present;
      if !parameters.Dict? {
        return false;
      }
      var filepath := FilepathValue(parameters);
      if Truthy(filepath) {
        if !filepath.Str? {
          return false;
        }
        QuarantineFile(filepath.s);
      }
      return true;
    }
  }

  /** The command line of a red-team command whose parameters are a dictionary
      holding a `command_to_execute` string. */
  function CommandOf(cmd: Value): Option<string> {
    if !cmd.Dict? then None
    else match Get(cmd.entries, "parameters")
      case Some(Dict(es)) =>
        (match Get(es, "command_to_execute")
         case Some(Str(c)) => Some(c)
         case _ => None)
      case _ => None
  }

  /** The `url` and `destination` of a T1105 command whose parameters are a
      dictionary binding exactly those two and no command line. */
  function TransferOf(cmd: Value): Option<(Value, Value)> {
    if !cmd.Dict? || Get(cmd.entries, "tactic") != Some(Str("T1105")) then None
    else match Get(cmd.entries, "parameters")
      case Some(Dict(es)) =>
        if Get(es, "command_to_execute").None? && TransferArgs(es)
        then Some((Get(es, "url").value, Get(es, "destination").value))
        else None
      case _ => None
  }

  /** The process list after `_terminate_process(pid)`. */
  function WithoutPid(procs: seq<Process>, pid: int): seq<Process> {
    match FirstWithPid(procs, pid)
    case Some(i) => procs[..i] + procs[i + 1..]
    case None => procs
  }

  /** `int(parameters.get("pid"))`, when it does not raise. */
  function PidArg(parameters: Value): Option<int> {
    if !parameters.Dict? then None
    else match Get(parameters.entries, "pid")
      case Some(p) => PidOf(p)
      case None => None
  }

  /** `parameters.get("filepath")`, when it is non-empty text. */
  function PathArg(parameters: Value): Option<string> {
    if !parameters.Dict? then None
    else match Get(parameters.entries, "filepath")
      case Some(Str(p)) => if p != [] then Some(p) else None
      case _ => None
  }

  /** `action_details.get("action")`. */
  function ActionOf(details: Value): Value
    requires details.Dict?
  {
    match Get(details.entries, "action") case Some(a) => a case None => Null
  }

  /** `action_details.get("parameters", {})`. */
  function BlueParams(details: Value): Value
    requires details.Dict?
  {
    match Get(details.entries, "parameters") case Some(p) => p case None => Dict([])
  }

  /** `parameters.get("pid")`. */
  function PidValue(parameters: Value): Value
    requires parameters.Dict?
  {
    match Get(parameters.entries, "pid") case Some(p) => p case None => Null
  }

  /** `parameters.get("filepath")`. */
  function FilepathValue(parameters: Value): Value
    requires parameters.Dict?
  {
    match Get(parameters.entries, "filepath") case Some(p) => p case None => Null
  }

  /** The process table after a `terminate_process` action. */
  function AfterKill(procs: seq<Process>, parameters: Value): seq<Process>
    requires parameters.Dict?
  {
    match PidArg(parameters)
    case Some(n) => WithoutPid(procs, n)
    case None => procs
  }

  /** The one log line of a `terminate_process` action. */
  function KillLine(procs: seq<Process>, parameters: Value): LogEntry
    requires parameters.Dict?
  {
    match PidArg(parameters)
    case Some(n) =>
      (match FirstWithPid(procs, n)
       case Some(i) => LogEntry("PROCESS_TERMINATE_SUCCESS", "PID " + IntToString(n) + " ('" + procs[i].name + "') terminated.")
       case None => LogEntry("PROCESS_TERMINATE_FAIL", "PID " + IntToString(n) + " not found."))
    case None => LogEntry("BLUE_TEAM_FAIL", "Invalid PID '" + ToStr(PidValue(parameters)) + "'.")
  }

  /** A `quarantine_file` action does not raise: the parameters are a dictionary
      whose `filepath` is falsy or text. */
  predicate QuarantineReadable(parameters: Value) {
    parameters.Dict? && (Truthy(FilepathValue(parameters)) ==> FilepathValue(parameters).Str?)
  }

  /** The file system after `_quarantine_file(filepath)`. */
  function AfterQuarantine(fs: FileSystem, filepath: string): FileSystem {
    var (dir, file) := PathSplit(filepath);
    if Present(fs, filepath) then fs[dir := fs[dir] - {file}] else fs
  }

  /** The quarantine register after `_quarantine_file(filepath)`. */
  function Recorded(fs: FileSystem, quarantined: map<string, string>, filepath: string): map<string, string> {
    if Present(fs, filepath) then quarantined[filepath := "quarantined"] else quarantined
  }

  /** The log lines of `_quarantine_file(filepath)`. */
  function QuarantineLines(fs: FileSystem, filepath: string): seq<LogEntry> {
    if Present(fs, filepath) then [LogEntry("FILE_QUARANTINE_SUCCESS", "File '" + filepath + "' quarantined.")] else []
  }

  /** How the command line and the transfer of a red-team command are read off
      its truthy parameters. */
  lemma RedCases(cmd: Value)
    ensures ParamsOf(cmd).None? ==> CommandOf(cmd).None? && TransferOf(cmd).None?
    ensures ParamsOf(cmd).Some? ==> var params := ParamsOf(cmd).value;
      cmd.Dict? && Get(cmd.entries, "parameters") == Some(params)
      && (CommandOf(cmd).Some? <==> HasCommand(params))
      && (CommandOf(cmd).Some? ==> CommandOf(cmd).value == Get(params.entries, "command_to_execute").value.s)
      && (TransferOf(cmd).Some? <==> IsTransfer(params, TacticOf(cmd)))
      && (TransferOf(cmd).Some? ==>
            TransferOf(cmd).value == (Get(params.entries, "url").value, Get(params.entries, "destination").value))
  {
  }

  /** The `parameters` of a red-team command, when they are given and truthy. */
  function ParamsOf(cmd: Value): Option<Value> {
    if cmd.Dict? && Get(cmd.entries, "parameters").Some? && Truthy(Get(cmd.entries, "parameters").value)
    then Some(Get(cmd.entries, "parameters").value) else None
  }

  /** `tactic_cmd.get("tactic")`. */
  function TacticOf(cmd: Value): Value {
    if !cmd.Dict? then Null
    else match Get(cmd.entries, "tactic") case Some(t) => t case None => Null
  }

  /** The parameters hold a `command_to_execute` text. */
  predicate HasCommand(params: Value) {
    params.Dict? && Get(params.entries, "command_to_execute").Some?
    && Get(params.entries, "command_to_execute").value.Str?
  }

  /** The dispatch reaches the T1105 transfer with its two arguments bound. */
  predicate IsTransfer(params: Value, tactic: Value) {
    params.Dict? && Get(params.entries, "command_to_execute").None? && tactic == Str("T1105")
    && TransferArgs(params.entries)
  }

  /** The dispatch reaches the `TACTIC_NOT_IMPLEMENTED` branch. */
  predicate NotImplemented(params: Value, tactic: Value) {
    HasKey(params, "command_to_execute") == Ok(false) && tactic != Str("T1105")
  }

  function NotImplementedLine(tactic: Value): LogEntry {
    LogEntry("TACTIC_NOT_IMPLEMENTED", "Tactic '" + ToStr(tactic) + "' is not implemented.")
  }

  /** The log line of `_create_process`. */
  function CreateLine(name: string, pid: int): LogEntry {
    LogEntry("PROCESS_CREATE_SUCCESS", "Process '" + name + "' (PID: " + IntToString(pid) + ") created...")
  }

  /** The first log line of a transfer. */
  function TransferStart(url: Value, destination: Value): LogEntry {
    LogEntry("TACTIC_EXECUTION", "T1105: Transfer from " + ToStr(url) + " to " + ToStr(destination))
  }

  /** The log lines a transfer to the text destination `dest` adds after its
      first one: the file write's line, then the outcome. */
  function TransferLines(url: Value, dest: string, fs: FileSystem): seq<LogEntry> {
    var (dir, file) := PathSplit(dest);
    if dir in fs then
      [LogEntry("FILE_CREATE_SUCCESS", "File '" + dest + "' created."),
       LogEntry("TACTIC_SUCCESS", "Transfer to '" + dest + "' completed.")]
    else
      [LogEntry("FILE_CREATE_FAIL", "Directory '" + dir + "' not found."),
       LogEntry("TACTIC_FAIL", "Transfer from '" + ToStr(url) + "' failed.")]
  }

  /** The file system after the payload is written to `dest`. */
  function Transferred(dest: string, fs: FileSystem): FileSystem {
    var (dir, file) := PathSplit(dest);
    if dir in fs then fs[dir := fs[dir][file := T1105Code]] else fs
  }

  /** `**params` binds exactly `url` and `destination`. */
  predicate TransferArgs(entries: seq<Entry>) {
    Get(entries, "url").Some? && Get(entries, "destination").Some?
    && forall k :: 0 <= k < |entries| ==> entries[k].key == "url" || entries[k].key == "destination"
  }
}
