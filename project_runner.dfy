/** The project runner: registers projects, allocates ports, starts and stops their
    development servers and deletes them. Operating-system effects are oracles passed in
    by the caller: the port probe, the install exit code, whether a launched server is
    still alive after the grace period, and whether deleting a file succeeds. */
module Runner {
  import opened Wrappers
  import opened Text
  import opened TechStacks
  import opened Detector
  import opened Projects
  import opened Maps

  // ---------------------------------------------------------------------------
  // Port injection into the run command
  // ---------------------------------------------------------------------------

  /** The run command rewritten so that the server binds `port`: the first rule whose
      marker the command contains decides. npm commands are left unchanged; the `PORT`
      variable that `createProcessBuilder` fills from a separate search starting at 3000 is not
      modelled. */
  function ModifyPortInCommand(command: string, port: int): (r: string)
    ensures |command| <= |r| && r[..|command|] == command
  {
    if Contains(command, "npm start") || Contains(command, "npm run dev") then command
    else if Contains(command, "flask run") then command + " --port " + IntToString(port)
    else if Contains(command, "manage.py runserver") then command + " " + IntToString(port)
    else if Contains(command, "uvicorn") then command + " --port " + IntToString(port)
    else if Contains(command, "serve") then command + " -p " + IntToString(port)
    else command
  }

  /** The rules in priority order: each rewrite happens exactly when its marker is present
      and no earlier marker is; a command matching no rule, or an npm command, is returned
      unchanged. */
  lemma PortRulePriority(c: string, port: int)
    ensures var r := ModifyPortInCommand(c, port); var p := IntToString(port);
      var npm := Contains(c, "npm start") || Contains(c, "npm run dev");
      var flask := Contains(c, "flask run");
      var django := Contains(c, "manage.py runserver");
      var uvicorn := Contains(c, "uvicorn");
      var serve := Contains(c, "serve");
      && (r == c <==> npm || (!flask && !django && !uvicorn && !serve))
      && (r == c + " --port " + p <==> !npm && (flask || (!django && uvicorn)))
      && (r == c + " " + p <==> !npm && !flask && django)
      && (r == c + " -p " + p <==> !npm && !flask && !django && !uvicorn && serve)
  {
    var r := ModifyPortInCommand(c, port);
    var p := IntToString(port);
    var flags := [" --port ", " ", " -p "];
    forall f | f in flags ensures c + f + p != c && (c + f + p)[|c|..] == f + p {
      assert |c + f + p| > |c|;
    }
    assert (c + " --port " + p)[|c|..] == " --port " + p;
    assert (c + " " + p)[|c|..] == " " + p;
    assert (c + " -p " + p)[|c|..] == " -p " + p;
    assert (" --port " + p)[1] == '-' && (" " + p)[1] == p[0] && (" -p " + p)[1] == '-';
    assert (" --port " + p)[2] == '-' && (" -p " + p)[2] == 'p';
  }

  /** The port injected by a rewrite can be read back from the end of the result. */
  lemma InjectedPortReadsBack(c: string, port: int)
    requires ModifyPortInCommand(c, port) != c
    ensures var r := ModifyPortInCommand(c, port); var n := |IntToString(port)|;
      n < |r| && ParseInt(r[|r| - n..]) == port && r[|r| - n - 1] == ' '
  {
    var r := ModifyPortInCommand(c, port);
    var p := IntToString(port);
    assert r[|r| - |p|..] == p;
    ParseIntToString(port);
  }

  /** `manage.py runserver` also contains `serve`; its rule comes first, so Django's port
      is passed as a bare argument rather than with `-p`. */
  lemma RunserverBeatsServe(c: string, port: int)
    requires Contains(c, "manage.py runserver")
    requires !Contains(c, "npm start") && !Contains(c, "npm run dev") && !Contains(c, "flask run")
    ensures Contains(c, "serve")
    ensures ModifyPortInCommand(c, port) == c + " " + IntToString(port)
  {
    var i :| 0 <= i <= |c| - |"manage.py runserver"| && OccursAt(c, "manage.py runserver", i);
    var m := "manage.py runserver";
    assert c[i..i + 19] == m;
    forall k | 0 <= k < 5 ensures c[i + 13 + k] == "serve"[k] {
      assert c[i + 13 + k] == c[i..i + 19][13 + k] == m[13 + k];
    }
    assert c[i + 13..i + 18] == "serve";
    assert OccursAt(c, "serve", i + 13);
  }

  // ---------------------------------------------------------------------------
  // Best-effort recursive delete
  // ---------------------------------------------------------------------------

  /** A file-system entry: a plain file, or a directory with its entries. */
  datatype Entry = File(name: string) | Directory(name: string, entries: seq<Entry>)

  /** The names from the project directory down to an entry. */
  type Path = seq<string>

  /** What remains of `e`, found at `path`, after a best-effort delete in which deleting
      the entry at a path succeeds when `canDelete` says so and, for a directory, its
      entries are all gone; None when `e` itself is gone. */
  function Leftover(e: Entry, path: Path, canDelete: Path -> bool): Option<Entry>
    decreases e, 1
  {
    match e
    case File(_) => if canDelete(path) then None else Some(e)
    case Directory(name, entries) =>
      var rest := LeftoverAll(entries, path, canDelete);
      if rest == [] && canDelete(path) then None else Some(Directory(name, rest))
  }

  /** The entries of the directory at `parent` that remain after each was deleted. */
  function LeftoverAll(es: seq<Entry>, parent: Path, canDelete: Path -> bool): seq<Entry>
    decreases es, 0
  {
    if es == [] then []
    else
      var last := es[|es| - 1];
      LeftoverAll(es[..|es| - 1], parent, canDelete)
        + match Leftover(last, parent + [last.name], canDelete) { case None => [] case Some(x) => [x] }
  }

  /** The paths a delete of `e` at `path` tries to delete, in order: the entries of a
      directory one after another, each before the directory itself. Which paths are tried
      does not depend on which deletions succeed. */
  function Attempts(e: Entry, path: Path): seq<Path>
    decreases e, 1
  {
    match e
    case File(_) => [path]
    case Directory(_, entries) => AttemptsAll(entries, path) + [path]
  }

  function AttemptsAll(es: seq<Entry>, parent: Path): seq<Path>
    decreases es, 0
  {
    if es == [] then []
    else
      var last := es[|es| - 1];
      AttemptsAll(es[..|es| - 1], parent) + Attempts(last, parent + [last.name])
  }

  /** Every path in the tree below `path`: `e` and, inside a directory, its entries. */
  ghost predicate InTree(e: Entry, path: Path, q: Path)
    decreases e, 1
  {
    q == path || (e.Directory? && InTreeAll(e.entries, path, q))
  }

  ghost predicate InTreeAll(es: seq<Entry>, parent: Path, q: Path)
    decreases es, 0
  {
    exists i | 0 <= i < |es| :: InTree(es[i], parent + [es[i].name], q)
  }

  /** `deleteDirectory`: deletes the entries of a directory one by one, recursing into
      subdirectories, then the directory itself; a failed deletion does not stop the
      others. Returns what remains and the paths it tried to delete. */
  method DeleteDirectory(e: Entry, path: Path, canDelete: Path -> bool) returns (leftover: Option<Entry>, attempts: seq<Path>)
    ensures leftover == Leftover(e, path, canDelete)
    ensures attempts == Attempts(e, path)
    decreases e
  {
    attempts := [];
    var kept: seq<Entry> := [];
    if e.Directory? {
      var files := e.entries;
      for i := 0 to |files|
        invariant kept == LeftoverAll(files[..i], path, canDelete)
        invariant attempts == AttemptsAll(files[..i], path)
      {
        var file := files[i];
        var child := path + [file.name];
        assert files[..i + 1][..i] == files[..i];
        if file.Directory? {
          var rest, tried := DeleteDirectory(file, child, canDelete);
          kept := kept + match rest { case None => [] case Some(x) => [x] };
          attempts := attempts + tried;
        } else {
          if !canDelete(child) {
            kept := kept + [file];
          }
          attempts := attempts + [child];
        }
      }
      assert files[..|files|] == files;
    }
    attempts := attempts + [path];
    if kept == [] && canDelete(path) {
      leftover := None;
    } else {
      leftover := Some(if e.Directory? then Directory(e.name, kept) else e);
    }
  }

  /** The delete tries every path of the tree and nothing else. */
  lemma {:induction false} AttemptsCoverTree(e: Entry, path: Path, q: Path)
    ensures q in Attempts(e, path) <==> InTree(e, path, q)
    decreases e, 1
  {
    match e
    case File(_) =>
    case Directory(_, entries) => AttemptsCoverTreeAll(entries, path, q);
  }

  lemma {:induction false} AttemptsCoverTreeAll(es: seq<Entry>, parent: Path, q: Path)
    ensures q in AttemptsAll(es, parent) <==> InTreeAll(es, parent, q)
    decreases es, 0
  {
    if es != [] {
      var last := es[|es| - 1];
      var init := es[..|es| - 1];
      AttemptsCoverTreeAll(init, parent, q);
      AttemptsCoverTree(last, parent + [last.name], q);
      if InTreeAll(es, parent, q) {
        var i :| 0 <= i < |es| && InTree(es[i], parent + [es[i].name], q);
        if i < |es| - 1 {
          assert init[i] == es[i];
        }
      }
      if InTreeAll(init, parent, q) {
        var i :| 0 <= i < |init| && InTree(init[i], parent + [init[i].name], q);
        assert es[i] == init[i];
      }
    }
  }

  /** An entry is gone after the delete exactly when every deletion tried under it
      succeeded. */
  lemma {:induction false} LeftoverGoneIff(e: Entry, path: Path, canDelete: Path -> bool)
    ensures Leftover(e, path, canDelete) == None <==> forall q :: q in Attempts(e, path) ==> canDelete(q)
    decreases e, 1
  {
    match e
    case File(_) =>
    case Directory(_, entries) => LeftoverAllEmptyIff(entries, path, canDelete);
  }

  lemma {:induction false} LeftoverAllEmptyIff(es: seq<Entry>, parent: Path, canDelete: Path -> bool)
    ensures LeftoverAll(es, parent, canDelete) == [] <==> forall q :: q in AttemptsAll(es, parent) ==> canDelete(q)
    decreases es, 0
  {
    if es != [] {
      var last := es[|es| - 1];
      LeftoverAllEmptyIff(es[..|es| - 1], parent, canDelete);
      LeftoverGoneIff(last, parent + [last.name], canDelete);
    }
  }

  /** A project tree is removed completely exactly when deleting each of its paths
      succeeds; any single failure leaves something behind. */
  lemma TreeRemovedIff(e: Entry, path: Path, canDelete: Path -> bool)
    ensures Leftover(e, path, canDelete) == None <==> forall q :: InTree(e, path, q) ==> canDelete(q)
  {
    LeftoverGoneIff(e, path, canDelete);
    forall q {
      AttemptsCoverTree(e, path, q);
    }
  }

  // ---------------------------------------------------------------------------
  // Port allocation
  // ---------------------------------------------------------------------------

  /** The highest valid port number. */
  const MaxPort := 65535

  /** A port is free when the runner has not reserved it and the probe can bind it. */
  predicate Free(p: int, used: set<int>, probe: int -> bool) {
    p !in used && probe(p)
  }

  /** The outcome of probing `port`, `port + 1`, ... : the first free candidate, or None
      once the next candidate would exceed 65535. The first candidate is probed whatever
      its value. */
  function FirstFreePort(port: int, used: set<int>, probe: int -> bool): Option<int>
    decreases if port <= MaxPort then MaxPort + 1 - port else 0
  {
    if Free(port, used, probe) then Some(port)
    else if port + 1 > MaxPort then None
    else FirstFreePort(port + 1, used, probe)
  }

  function Max(a: int, b: int): int {
    if a < b then b else a
  }

  /** Linear probing finds the least free port at or above the start, and fails only when
      every candidate from the start up to 65535 is reserved or cannot be bound. */
  lemma {:induction false} FirstFreePortIsLeast(start: int, used: set<int>, probe: int -> bool)
    ensures match FirstFreePort(start, used, probe)
      case Some(p) =>
        && start <= p && (p <= MaxPort || p == start) && Free(p, used, probe)
        && forall q :: start <= q < p ==> !Free(q, used, probe)
      case None => forall q :: start <= q <= Max(start, MaxPort) ==> !Free(q, used, probe)
    decreases if start <= MaxPort then MaxPort + 1 - start else 0
  {
    if !Free(start, used, probe) && start + 1 <= MaxPort {
      FirstFreePortIsLeast(start + 1, used, probe);
    }
  }

  // ---------------------------------------------------------------------------
  // The runner
  // ---------------------------------------------------------------------------

  /** An operating-system process handle, known only by its identity. */
  datatype ProcessHandle = ProcessHandle(pid: nat)

  function NotFound(branchName: string): string {
    "Project not found: " + branchName
  }

  const AlreadyRunning := "Project is already running"
  const NoAvailablePorts := "No available ports found"
  const StartFailed := "Dev server failed to start"

  function InstallFailed(exitCode: int): string {
    "Install command failed with exit code: " + IntToString(exitCode)
  }

  /** A record after a failed install or start: status error with the failure's message.
      Nothing else changes, so a consistent record that was not running stays
      consistent. */
  function ErrorRow(row: ProjectRow, message: string): (r: ProjectRow)
    ensures SameProject(r, row) && r.status == Error && r.errorMessage == Some(message)
    ensures r.running == row.running && r.port == row.port && r.previewUrl == row.previewUrl
    ensures Consistent(row) && !row.running ==> Consistent(r)
  {
    row.(status := Error, errorMessage := Some(message))
  }

  /** A record after a successful start on `port`: a consistent running record of the
      same project on that port, any earlier error cleared. */
  function RunningRow(row: ProjectRow, port: int): (r: ProjectRow)
    ensures SameProject(r, row) && Consistent(r) && r.running && r.port == port && r.errorMessage == None
  {
    row.(running := true, port := port, previewUrl := Some(PreviewUrl(port)), status := Running, errorMessage := None)
  }

  /** A record after a stop: a consistent stopped record of the same project on port 0,
      its error message kept. */
  function StoppedRow(row: ProjectRow): (r: ProjectRow)
    ensures SameProject(r, row) && Consistent(r) && r.status == Stopped && r.port == 0
    ensures r.errorMessage == row.errorMessage
  {
    row.(running := false, port := 0, previewUrl := None, status := Stopped)
  }

  /** Stopping is idempotent, and leaves an already stopped record as it was. */
  lemma StopIsIdempotent(row: ProjectRow)
    ensures StoppedRow(StoppedRow(row)) == StoppedRow(row)
    ensures Consistent(row) && row.status == Stopped ==> StoppedRow(row) == row
  {
  }

  /** How a run attempt on a stopped project ends. */
  datatype RunStep = NoPort | Failed(message: string) | Started(port: int, process: ProcessHandle)

  /** The steps of a run after the record checks: allocate a port from the stack's
      default port up, then install and start on it. */
  function RunAttempt(stack: TechStack, used: set<int>, probe: int -> bool, install: string -> int,
                      launch: string -> Option<ProcessHandle>): RunStep
  {
    match FirstFreePort(stack.defaultPort, used, probe)
    case None => NoPort
    case Some(port) => StartAttempt(stack, port, install, launch)
  }

  /** Run the install command if there is one (`install` gives its exit code), then launch
      the run command with the port injected (`launch` gives the process if it is still
      alive after the grace period). */
  function StartAttempt(stack: TechStack, port: int, install: string -> int,
                        launch: string -> Option<ProcessHandle>): RunStep
  {
    if HasInstallStep(stack) && install(stack.installCommand) != 0 then
      Failed(InstallFailed(install(stack.installCommand)))
    else match launch(ModifyPortInCommand(stack.runCommand, port))
      case None => Failed(StartFailed)
      case Some(process) => Started(port, process)
  }

  /** Records are filed under their own branch name and are consistent; a running
      project has a process handle and, unless its port is 0, a reserved port; no two
      running projects share a nonzero port. */
  ghost predicate RunnerInvariant(projects: map<string, ProjectRow>, processes: map<string, ProcessHandle>, used: set<int>) {
    && (forall id :: id in projects ==> projects[id].branchName == id && Consistent(projects[id]))
    && (forall id :: id in projects && projects[id].running ==>
          id in processes && (projects[id].port != 0 ==> projects[id].port in used))
    && (forall a, b ::
          a in projects && b in projects && a != b && projects[a].running && projects[b].running && projects[a].port != 0
          ==> projects[a].port != projects[b].port)
  }

  /** Saving a record that is not running keeps the invariant. */
  lemma SaveIdleKeepsInvariant(projects: map<string, ProjectRow>, processes: map<string, ProcessHandle>,
                               used: set<int>, row: ProjectRow)
    requires RunnerInvariant(projects, processes, used)
    requires Consistent(row) && !row.running
    ensures RunnerInvariant(projects[row.branchName := row], processes, used)
  {
  }

  /** Saving a record as running on a port nobody has reserved, with its process filed
      and its port reserved, keeps the invariant: the new port clashes with no running
      project's. */
  lemma StartKeepsInvariant(projects: map<string, ProjectRow>, processes: map<string, ProcessHandle>,
                            used: set<int>, row: ProjectRow, port: int, process: ProcessHandle)
    requires RunnerInvariant(projects, processes, used)
    requires row.branchName in projects && projects[row.branchName] == row && !row.running
    requires port !in used
    ensures RunnerInvariant(projects[row.branchName := RunningRow(row, port)],
                            processes[row.branchName := process], used + {port})
  {
    var id := row.branchName;
    var projects' := projects[id := RunningRow(row, port)];
    forall a, b | a in projects' && b in projects' && a != b && projects'[a].running && projects'[b].running
                  && projects'[a].port != 0
      ensures projects'[a].port != projects'[b].port
    {
      if a != id && b != id {
        assert projects'[a] == projects[a] && projects'[b] == projects[b];
      } else if a == id {
        assert projects'[b] == projects[b];
      } else {
        assert projects'[a] == projects[a];
      }
    }
  }

  /** Stopping a record, releasing its port and possibly forgetting its process keeps the
      invariant: no other running project used that port. */
  lemma StopKeepsInvariant(projects: map<string, ProjectRow>, processes: map<string, ProcessHandle>,
                           used: set<int>, id: string, processes': map<string, ProcessHandle>)
    requires RunnerInvariant(projects, processes, used)
    requires id in projects
    requires processes' == processes || processes' == processes - {id}
    ensures RunnerInvariant(projects[id := StoppedRow(projects[id])], processes', used - {projects[id].port})
  {
    var released := projects[id].port;
    var projects' := projects[id := StoppedRow(projects[id])];
    forall other | other in projects' && projects'[other].running
      ensures other in processes' && (projects'[other].port != 0 ==> projects'[other].port in used - {released})
    {
      assert other != id && projects'[other] == projects[other];
    }
  }

  /** Removing a record keeps the invariant. */
  lemma RemoveKeepsInvariant(projects: map<string, ProjectRow>, processes: map<string, ProcessHandle>,
                             used: set<int>, id: string)
    requires RunnerInvariant(projects, processes, used)
    ensures RunnerInvariant(projects - {id}, processes, used)
  {
  }

  class ProjectRunner {
    /** The project repository: saved records by branch name. */
    var projects: map<string, ProjectRow>
    /** The dev-server process started for each branch. */
    var runningProcesses: map<string, ProcessHandle>
    /** The ports reserved by the runner. */
    var usedPorts: set<int>

    /** See `RunnerInvariant`. */
    ghost predicate Valid()
      reads this
    {
      RunnerInvariant(projects, runningProcesses, usedPorts)
    }

    constructor ()
      ensures Valid()
      ensures projects == map[] && runningProcesses == map[] && usedPorts == {}
    {
      projects := map[];
      runningProcesses := map[];
      usedPorts := {};
    }

    /** `registerProject`: classifies the directory found at `projectPath` (given as
        `dir`) once and saves a fresh stopped record under the branch name, replacing any
        record already there. Reserved ports and process handles are left as they are. */
    method RegisterProject(branchName: string, projectPath: string, repoUrl: string, dir: ProjectDir)
      returns (r: ProjectRow)
      requires Valid()
      modifies this
      ensures Valid()
      ensures r == InitialRow(branchName, projectPath, repoUrl, Detect(dir))
      ensures projects == old(projects)[branchName := r]
      ensures runningProcesses == old(runningProcesses) && usedPorts == old(usedPorts)
    {
      var techStack := Detect(dir);
      var project := new Project(branchName, projectPath, repoUrl, techStack);
      projects := projects[branchName := project.Row()];
      r := project.Row();
    }

    /** `getAllProjects`: every saved record, exactly one per registered branch. */
    method GetAllProjects() returns (all: set<ProjectRow>)
      requires Valid()
      ensures |all| == |projects|
      ensures forall r :: r in all <==> r.branchName in projects && projects[r.branchName] == r
    {
      all := projects.Values;
      KeyedValuesCount(projects, (r: ProjectRow) => r.branchName);
    }

    /** `getProject`: the record saved under the branch name, if any. */
    method GetProject(branchName: string) returns (r: Option<ProjectRow>)
      requires Valid()
      ensures r.Some? <==> branchName in projects
      ensures r.Some? ==> r.value == projects[branchName] && r.value.branchName == branchName
    {
      if branchName in projects {
        r := Some(projects[branchName]);
      } else {
        r := None;
      }
    }

    /** `findAvailablePort`: probes upwards from `startPort` for a port the runner has not
        reserved and the probe can bind. Reserves nothing. */
    method FindAvailablePort(startPort: int, probe: int -> bool) returns (r: Option<int>)
      ensures r == FirstFreePort(startPort, usedPorts, probe)
    {
      var port := startPort;
      while port in usedPorts || !probe(port)
        invariant FirstFreePort(port, usedPorts, probe) == FirstFreePort(startPort, usedPorts, probe)
        decreases MaxPort + 1 - port
      {
        port := port + 1;
        if port > MaxPort {
          return None;
        }
      }
      return Some(port);
    }

    /** `runProject`. Fails, changing nothing, when the branch is unknown, when its
        record is already running, or when no port is free from the stack's default port
        up (the search happens before anything is touched). Otherwise the install command,
        if non-empty, is run (its exit code is `install`), then the run command with the
        port injected is launched (`launch` gives the process if it is still alive after
        the grace period). A failure of either leaves the record in status error with the
        failure's message, not running, and reserves nothing; success reserves the port,
        files the process under the branch and saves the record as running on that port. */
    method RunProject(branchName: string, probe: int -> bool, install: string -> int,
                      launch: string -> Option<ProcessHandle>)
      returns (r: Result<ProjectRow>)
      requires Valid()
      modifies this
      ensures Valid()
      ensures branchName !in old(projects) ==>
        r == Failure(NotFound(branchName)) && projects == old(projects)
        && runningProcesses == old(runningProcesses) && usedPorts == old(usedPorts)
      ensures branchName in old(projects) && old(projects[branchName]).running ==>
        r == Failure(AlreadyRunning) && projects == old(projects)
        && runningProcesses == old(runningProcesses) && usedPorts == old(usedPorts)
      ensures branchName in old(projects) && !old(projects[branchName]).running ==>
        var row := old(projects[branchName]);
        match RunAttempt(row.techStack, old(usedPorts), probe, install, launch)
        case NoPort =>
          r == Failure(NoAvailablePorts) && projects == old(projects)
          && runningProcesses == old(runningProcesses) && usedPorts == old(usedPorts)
        case Failed(message) =>
          r == Failure(message) && projects == old(projects)[branchName := ErrorRow(row, message)]
          && runningProcesses == old(runningProcesses) && usedPorts == old(usedPorts)
        case Started(port, process) =>
          r == Success(RunningRow(row, port))
          && projects == old(projects)[branchName := RunningRow(row, port)]
          && runningProcesses == old(runningProcesses)[branchName := process]
          && usedPorts == old(usedPorts) + {port}
    {
      if branchName !in projects {
        return Failure(NotFound(branchName));
      }
      var row := projects[branchName];
      var project := new Project.Load(row);
      if project.running {
        return Failure(AlreadyRunning);
      }
      var techStack := project.techStack;
      var found := FindAvailablePort(techStack.defaultPort, probe);
      if found.None? {
        return Failure(NoAvailablePorts);
      }
      var port := found.value;
      FirstFreePortIsLeast(techStack.defaultPort, usedPorts, probe);
      r := InstallAndStart(branchName, project, port, install, launch);
    }

    /** The `try` block of `runProject`, on a loaded record that is not running and a
        port nobody has reserved. */
    method InstallAndStart(branchName: string, project: Project, port: int, install: string -> int,
                           launch: string -> Option<ProcessHandle>)
      returns (r: Result<ProjectRow>)
      requires Valid()
      requires branchName in projects && project.Row() == projects[branchName] && !project.running
      requires port !in usedPorts
      modifies this, project
      ensures Valid()
      ensures var row := old(projects[branchName]);
        match StartAttempt(row.techStack, port, install, launch)
        case NoPort => false
        case Failed(message) =>
          r == Failure(message) && projects == old(projects)[branchName := ErrorRow(row, message)]
          && runningProcesses == old(runningProcesses) && usedPorts == old(usedPorts)
        case Started(port, process) =>
          r == Success(RunningRow(row, port))
          && projects == old(projects)[branchName := RunningRow(row, port)]
          && runningProcesses == old(runningProcesses)[branchName := process]
          && usedPorts == old(usedPorts) + {port}
    {
      var row := projects[branchName];
      var techStack := project.techStack;
      if HasInstallStep(techStack) {
        project.status := Installing;
        projects := projects[branchName := project.Row()];
        var exitCode := install(techStack.installCommand);
        if exitCode != 0 {
          r := SaveFailure(old(projects), branchName, project, row, InstallFailed(exitCode));
          return;
        }
      }
      r := Launch(old(projects), branchName, project, row, port, launch);
    }

    /** The record being run has been loaded as `project` and, apart from a transient
        status, saved unchanged over `row`, its state before the run. */
    ghost predicate RunInProgress(saved: map<string, ProjectRow>, branchName: string, project: Project, row: ProjectRow)
      reads this, project
    {
      && RunnerInvariant(saved, runningProcesses, usedPorts)
      && branchName in saved && saved[branchName] == row && !row.running
      && project.Row() == row.(status := project.status)
      && branchName in projects && projects == saved[branchName := projects[branchName]]
    }

    /** A failed install or start: the record is saved in status error with `message`. */
    method SaveFailure(ghost saved: map<string, ProjectRow>, branchName: string, project: Project, row: ProjectRow,
                       message: string)
      returns (r: Result<ProjectRow>)
      requires RunInProgress(saved, branchName, project, row)
      modifies this, project
      ensures Valid()
      ensures r == Failure(message) && projects == saved[branchName := ErrorRow(row, message)]
      ensures runningProcesses == old(runningProcesses) && usedPorts == old(usedPorts)
    {
      project.status := Error;
      project.errorMessage := Some(message);
      SaveIdleKeepsInvariant(saved, runningProcesses, usedPorts, ErrorRow(row, message));
      assert project.Row() == ErrorRow(row, message);
      projects := projects[branchName := project.Row()];
      r := Failure(message);
    }

    /** Launches the run command with `port` injected; a process still alive after the grace
        period is filed under the branch, its port reserved and the record saved running. */
    method Launch(ghost saved: map<string, ProjectRow>, branchName: string, project: Project, row: ProjectRow,
                  port: int, launch: string -> Option<ProcessHandle>)
      returns (r: Result<ProjectRow>)
      requires RunInProgress(saved, branchName, project, row) && port !in usedPorts
      modifies this, project
      ensures Valid()
      ensures match launch(ModifyPortInCommand(row.techStack.runCommand, port))
        case None =>
          r == Failure(StartFailed) && projects == saved[branchName := ErrorRow(row, StartFailed)]
          && runningProcesses == old(runningProcesses) && usedPorts == old(usedPorts)
        case Some(process) =>
          r == Success(RunningRow(row, port))
          && projects == saved[branchName := RunningRow(row, port)]
          && runningProcesses == old(runningProcesses)[branchName := process]
          && usedPorts == old(usedPorts) + {port}
    {
      project.status := Starting;
      projects := projects[branchName := project.Row()];
      var process := launch(ModifyPortInCommand(project.techStack.runCommand, port));
      if process.None? {
        r := SaveFailure(saved, branchName, project, row, StartFailed);
        return;
      }
      r := SaveStarted(saved, branchName, project, row, port, process.value);
    }

    /** A started server: its process is filed under the branch, its port reserved and the
        record saved as running on that port. */
    method SaveStarted(ghost saved: map<string, ProjectRow>, branchName: string, project: Project, row: ProjectRow,
                       port: int, process: ProcessHandle)
      returns (r: Result<ProjectRow>)
      requires RunInProgress(saved, branchName, project, row) && port !in usedPorts
      modifies this, project
      ensures Valid()
      ensures r == Success(RunningRow(row, port)) && projects == saved[branchName := RunningRow(row, port)]
      ensures runningProcesses == old(runningProcesses)[branchName := process] && usedPorts == old(usedPorts) + {port}
    {
      ghost var started := RunningRow(row, port);
      StartKeepsInvariant(saved, runningProcesses, usedPorts, row, port, process);
      runningProcesses := runningProcesses[branchName := process];
      usedPorts := usedPorts + {port};
      project.running := true;
      project.port := port;
      project.previewUrl := Some(PreviewUrl(port));
      project.status := Running;
      project.errorMessage := None;
      assert project.Row() == started;
      projects := projects[branchName := project.Row()];
      assert projects == saved[branchName := started];
      r := Success(project.Row());
    }

    /** `stopProject`. Fails, changing nothing, for an unknown branch. Otherwise the
        branch's process, if there is one and it is alive, is destroyed (and returned as
        `destroyed`) and forgotten; the record's port is released; the record is saved as
        stopped, not running, on port 0 with no preview address, its error message kept. */
    method StopProject(branchName: string, isAlive: ProcessHandle -> bool)
      returns (r: Result<ProjectRow>, destroyed: Option<ProcessHandle>)
      requires Valid()
      modifies this
      ensures Valid()
      ensures branchName !in old(projects) ==>
        r == Failure(NotFound(branchName)) && destroyed == None && projects == old(projects)
        && runningProcesses == old(runningProcesses) && usedPorts == old(usedPorts)
      ensures branchName in old(projects) ==>
        var row := old(projects[branchName]);
        && r == Success(StoppedRow(row))
        && projects == old(projects)[branchName := StoppedRow(row)]
        && usedPorts == old(usedPorts) - {row.port}
        && (if branchName in old(runningProcesses) && isAlive(old(runningProcesses[branchName]))
            then destroyed == Some(old(runningProcesses[branchName]))
                 && runningProcesses == old(runningProcesses) - {branchName}
            else destroyed == None && runningProcesses == old(runningProcesses))
    {
      if branchName !in projects {
        return Failure(NotFound(branchName)), None;
      }
      var project := new Project.Load(projects[branchName]);
      ghost var processes := runningProcesses;
      destroyed := None;
      if branchName in runningProcesses && isAlive(runningProcesses[branchName]) {
        destroyed := Some(runningProcesses[branchName]);
        runningProcesses := runningProcesses - {branchName};
      }
      ghost var stopped := StoppedRow(projects[branchName]);
      StopKeepsInvariant(projects, processes, usedPorts, branchName, runningProcesses);
      usedPorts := usedPorts - {project.port};
      project.running := false;
      project.port := 0;
      project.previewUrl := None;
      project.status := Stopped;
      assert project.Row() == stopped;
      projects := projects[branchName := project.Row()];
      r := Success(project.Row());
    }

    /** `deleteProject`. Returns false, changing nothing, for an unknown branch.
        Otherwise stops the project first if it is running, deletes the tree found at its
        path (`disk`, None when nothing is there) best-effort, removes the record and
        returns true whatever the delete left behind. */
    method DeleteProject(branchName: string, isAlive: ProcessHandle -> bool, disk: Option<Entry>,
                         canDelete: Path -> bool)
      returns (deleted: bool, leftover: Option<Entry>, attempts: seq<Path>)
      requires Valid()
      modifies this
      ensures Valid()
      ensures branchName !in old(projects) ==>
        !deleted && leftover == disk && attempts == [] && projects == old(projects)
        && runningProcesses == old(runningProcesses) && usedPorts == old(usedPorts)
      ensures branchName in old(projects) ==>
        var row := old(projects[branchName]);
        var root := [row.projectPath];
        && deleted
        && projects == old(projects) - {branchName}
        && usedPorts == (if row.running then old(usedPorts) - {row.port} else old(usedPorts))
        && runningProcesses ==
             (if row.running && branchName in old(runningProcesses) && isAlive(old(runningProcesses[branchName]))
              then old(runningProcesses) - {branchName} else old(runningProcesses))
        && (disk.None? ==> leftover == None && attempts == [])
        && (disk.Some? ==> leftover == Leftover(disk.value, root, canDelete) && attempts == Attempts(disk.value, root))
    {
      if branchName !in projects {
        return false, disk, [];
      }
      var project := new Project.Load(projects[branchName]);
      ghost var before := projects;
      if project.running {
        var _, _ := StopProject(branchName, isAlive);
      }
      assert projects - {branchName} == before - {branchName};
      leftover, attempts := None, [];
      if disk.Some? {
        leftover, attempts := DeleteDirectory(disk.value, [project.projectPath], canDelete);
      }
      RemoveKeepsInvariant(projects, runningProcesses, usedPorts, branchName);
      projects := projects - {branchName};
      deleted := true;
    }
  }
}
