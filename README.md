# gitView project lifecycle, modelled in Dafny

gitView clones a Git branch into a local directory, works out what kind of project it is
and runs that project's development server so that the branch can be previewed in a
browser. This Dafny project models the engine behind that, together with the small records
it works on:

- **Stack detection** (`tech_stack.dfy`, `tech_stack_detector.dfy`). The stack profiles
  and `TechStackDetector.detect` are modelled as pure functions over a value describing the
  directory. That value records:
  - whether the path exists and is a directory;
  - the names for which a file of that name is found to exist in it;
  - the parsed dependency keys of `package.json`, or the fact that it could not be read
    or parsed;
  - the text of `requirements.txt`.

  The first marker file present decides the profile. The Node and Python branches then
  look at dependencies and at the lower-cased requirements text.
- **The project record** (`project.dfy`). The `Project` record the runner mutates is a
  class with the record's nine fields. Its four-argument constructor gives the initial
  state. `ProjectRow` is the same record as a value, as the project repository stores it.
  `Consistent` is the agreement between `running`, the status, the port, the preview
  address and the error message that every stored record keeps.
- **The runner** (`project_runner.dfy`). `ProjectRunner` is a class with three fields:
  - the project repository, a map from branch name to record;
  - the table of running processes;
  - the set of reserved ports.

  Register, query, run, stop and delete change these step by step, as the Java service
  does. `FindAvailablePort` is the linear-probe loop. `ModifyPortInCommand` is the
  priority-ordered port-flag rewriter. `DeleteDirectory` is the recursive best-effort
  delete over a file tree given as a value. Every operation keeps `RunnerInvariant`:
  - records are filed under their own branch and are consistent;
  - a running project has a process handle and, unless its port is 0, a reserved port;
  - no two running projects share a nonzero port.
- **The preview registry** (`preview_service.dfy`). `PreviewService` of the live-preview
  app is a class over a map from branch to `BranchPreview`. A ghost history of the adds
  ties its contents to `Replay`, a fold over that history. The lemmas about `Replay` state
  the registry's lookup and overwrite behaviour.

`wrappers.dfy` holds `Option` and `Result`. `text.dfy` holds substring search, ASCII
lower-casing, and the decimal rendering of an `int` that Java string concatenation performs,
with its inverse. `maps.dfy` proves that a map whose values carry their own key has as
many values as keys.

Operating-system effects are parameters of the operations that use them:

| parameter | type | what it stands for |
|---|---|---|
| `probe` | `int -> bool` | whether a server socket can be bound on a port |
| `install` | `string -> int` | the exit code of the install command |
| `launch` | `string -> Option<ProcessHandle>` | the started server process, or None when it died within the two-second grace period |
| `isAlive` | `ProcessHandle -> bool` | whether a process is alive when it is stopped |
| `canDelete` | `Path -> bool` | whether deleting the file or (empty) directory at a path succeeds |

Failures that the Java code throws as exceptions are `Failure(message)` results carrying
the same message text.

In a few places a stricter registry would behave differently. The model follows the code
in each:

- `registerProject` has no duplicate check. Registering a branch again replaces its
  record with a fresh stopped one. The old record's reserved port and process handle are
  left where they were.
- `stopProject` does not clear the error message. A stopped record can therefore still
  carry the message of an earlier failure.
- `runProject` refuses a record only when its `running` flag is set, not by status.
  Records never stay in the two transient statuses, so in a sequential run this is the
  same as refusing every non-terminal status.
- A failed install or start never reserves the port, rather than reserving and then
  releasing it. The port is added to the reserved set only after the server has started.
- `deleteProject` returns false for an unknown branch rather than failing.
- The generic Python profile has the tag `python`.
- The unknown profile has port 0. When the probe accepts port 0, such a project can run
  on port 0. The port invariants are therefore stated for nonzero ports.

## Model

| member | source | states |
|---|---|---|
| TechStacks.FactoryKindsDistinct | gitView/src/main/java/com/example/gitView/model/TechStack.java:87-155 | the nine factories' type tags are pairwise distinct |
| TechStacks.FactoryDefaultPorts | gitView/src/main/java/com/example/gitView/model/TechStack.java:87-155 | every factory has a positive default port exactly when it is not `unknown`; `unknown` has port 0 and empty install and run commands |
| Detector.HasDependency | gitView/src/main/java/com/example/gitView/service/TechStackDetector.java:257-259 | an absent section declares nothing; a present one declares exactly its keys |
| Detector.Detect | gitView/src/main/java/com/example/gitView/service/TechStackDetector.java:65-123 | the result is one of the fifteen known kinds, and its default port is positive exactly when the kind is not `unknown` |
| Detector.DetectInvalidPath | gitView/src/main/java/com/example/gitView/service/TechStackDetector.java:69-71 | a path that does not exist or is not a directory gives the `unknown` profile |
| Detector.DetectMarkerPriority | gitView/src/main/java/com/example/gitView/service/TechStackDetector.java:77-122 | each result family (Node, Python, Maven, Gradle, static, unknown) is reached exactly when its marker is present and every earlier marker is absent |
| Detector.DetectNodeProject | gitView/src/main/java/com/example/gitView/service/TechStackDetector.java:140-192 | a `package.json` directory always gives a Node-family kind that installs with `npm install` on a positive port |
| Detector.NodeFrameworkPriority | gitView/src/main/java/com/example/gitView/service/TechStackDetector.java:151-186 | next (either section), vite (dev only), react, vue, angular, express, node: each profile is chosen exactly when its dependency is declared and no earlier one is |
| Detector.ReactScriptsIrrelevant | gitView/src/main/java/com/example/gitView/service/TechStackDetector.java:161-168 | with `react` declared, adding or removing `react-scripts` does not change the React result |
| Detector.NodeFallbacks | gitView/src/main/java/com/example/gitView/service/TechStackDetector.java:147-191 | an unreadable or unparsable manifest, and one with neither dependency section, both give plain Node |
| Detector.PythonFramework | gitView/src/main/java/com/example/gitView/service/TechStackDetector.java:206-231 | a framework is found only in a requirements.txt that exists and can be read; it is flask, django or fastapi, installs from requirements.txt, and listens on 5000 or 8000 |
| Detector.DetectPythonProject | gitView/src/main/java/com/example/gitView/service/TechStackDetector.java:205-246 | a Python directory always gives a Python-family kind that installs from requirements.txt on a positive port |
| Detector.PythonFrameworkPriority | gitView/src/main/java/com/example/gitView/service/TechStackDetector.java:208-231 | flask before django before fastapi in the lower-cased requirements text, with their run commands and ports; the generic profile exactly when none applies, or the file is missing or unreadable |
| Detector.PythonSearchIgnoresCase | gitView/src/main/java/com/example/gitView/service/TechStackDetector.java:211-214 | requirements naming flask in any letter case give the Flask profile |
| Detector.GenericPythonProfile | gitView/src/main/java/com/example/gitView/service/TechStackDetector.java:236-245 | the generic profile runs `python main.py` exactly when main.py exists and app.py does not; otherwise it is the `python()` factory's profile; it always installs from requirements.txt on port 5000 |
| Detector.DetectedInstallStep | gitView/src/main/java/com/example/gitView/service/ProjectRunner.java:81 | the install step is skipped exactly for the static and unknown profiles; every other detected profile has a non-empty install command |
| Projects.StatusName | gitLive/src/main/java/com/example/gitLive/model/Project.java:90-98 | the status is one of stopped, installing, starting, running, error |
| Projects.StatusNamesDistinct | gitLive/src/main/java/com/example/gitLive/model/Project.java:90-98 | distinct statuses have distinct spellings |
| Projects.PreviewUrl | gitView/src/main/java/com/example/gitView/service/ProjectRunner.java:97 | a running project's preview address starts with `http://localhost:` |
| Projects.PreviewUrlDeterminesPort | gitView/src/main/java/com/example/gitView/service/ProjectRunner.java:97 | the port reads back from the preview address, so distinct ports have distinct addresses |
| Projects.InitialRow | gitLive/src/main/java/com/example/gitLive/model/Project.java:116-126 | the initial record is consistent, stopped and not running |
| Projects.Project.constructor | gitLive/src/main/java/com/example/gitLive/model/Project.java:116-126 | copies branch, path, URL and stack; not running, no preview address, port 0, status stopped, no error |
| Projects.Project.Load | gitLive/src/main/java/com/example/gitLive/model/Project.java:35 | the all-arguments constructor yields an object with exactly the stored record's fields |
| Runner.ModifyPortInCommand | gitView/src/main/java/com/example/gitView/service/ProjectRunner.java:208-230 | the rewritten command always begins with the original command |
| Runner.PortRulePriority | gitView/src/main/java/com/example/gitView/service/ProjectRunner.java:208-230 | each of the four rewrites (or no change) happens exactly when its marker is present and no earlier rule matched |
| Runner.InjectedPortReadsBack | gitView/src/main/java/com/example/gitView/service/ProjectRunner.java:213-227 | when the command is rewritten, the port reads back from its end after a space |
| Runner.RunserverBeatsServe | gitView/src/main/java/com/example/gitView/service/ProjectRunner.java:217-227 | a Django command also contains `serve`, yet gets the bare-argument port of the earlier rule |
| Runner.DeleteDirectory | gitView/src/main/java/com/example/gitView/service/ProjectRunner.java:252-264 | what remains of the tree and the paths tried are exactly those of the best-effort delete specification `Leftover`/`Attempts` |
| Runner.AttemptsCoverTree | gitView/src/main/java/com/example/gitView/service/ProjectRunner.java:252-264 | the delete tries every path in the tree and no other path; a failed deletion does not stop its siblings |
| Runner.LeftoverGoneIff | gitView/src/main/java/com/example/gitView/service/ProjectRunner.java:252-264 | an entry is gone exactly when every deletion tried under it succeeded |
| Runner.TreeRemovedIff | gitView/src/main/java/com/example/gitView/service/ProjectRunner.java:252-264 | the project tree is removed completely exactly when deleting each of its paths succeeds |
| Runner.FirstFreePortIsLeast | gitView/src/main/java/com/example/gitView/service/ProjectRunner.java:232-241 | the port found is the least one at or above the start that is neither reserved nor refused by the probe; none is found only when every candidate up to 65535 is taken |
| Runner.ErrorRow | gitView/src/main/java/com/example/gitView/service/ProjectRunner.java:104-105 | a failure changes only the status, to error, and the message, to the failure's; a consistent record that was not running stays consistent |
| Runner.RunningRow | gitView/src/main/java/com/example/gitView/service/ProjectRunner.java:95-99 | a start gives a consistent running record of the same project on the given port, with no error |
| Runner.StoppedRow | gitView/src/main/java/com/example/gitView/service/ProjectRunner.java:127-130 | a stop gives a consistent stopped record of the same project on port 0, its error message kept |
| Runner.StopIsIdempotent | gitView/src/main/java/com/example/gitView/service/ProjectRunner.java:127-130 | stopping twice gives the same record as stopping once, and an already stopped record is left as it was |
| Runner.SaveIdleKeepsInvariant | gitView/src/main/java/com/example/gitView/service/ProjectRunner.java:103-106 | saving a record that is not running keeps the runner invariant |
| Runner.StartKeepsInvariant | gitView/src/main/java/com/example/gitView/service/ProjectRunner.java:92-101 | starting on an unreserved port, with the process filed and the port reserved, keeps the invariant: the new port clashes with no running project's |
| Runner.StopKeepsInvariant | gitView/src/main/java/com/example/gitView/service/ProjectRunner.java:119-132 | stopping, releasing the port and perhaps forgetting the process keeps the invariant |
| Runner.RemoveKeepsInvariant | gitView/src/main/java/com/example/gitView/service/ProjectRunner.java:154 | removing a record keeps the invariant |
| Runner.ProjectRunner.constructor | gitView/src/main/java/com/example/gitView/service/ProjectRunner.java:21-26 | no projects, processes or reserved ports |
| Runner.ProjectRunner.RegisterProject | gitView/src/main/java/com/example/gitView/service/ProjectRunner.java:38-44 | saves the initial record for the detected stack under the branch, replacing any earlier one; processes and ports unchanged |
| Runner.ProjectRunner.GetAllProjects | gitView/src/main/java/com/example/gitView/service/ProjectRunner.java:50-53 | exactly the saved records, one per registered branch |
| Runner.ProjectRunner.GetProject | gitView/src/main/java/com/example/gitView/service/ProjectRunner.java:55-58 | the record saved under the branch, if there is one |
| Runner.ProjectRunner.FindAvailablePort | gitView/src/main/java/com/example/gitView/service/ProjectRunner.java:232-241 | the loop returns the result of the linear-probe specification `FirstFreePort` and reserves nothing |
| Runner.ProjectRunner.RunProject | gitView/src/main/java/com/example/gitView/service/ProjectRunner.java:64-109 | unknown, already running and no free port fail with nothing changed; otherwise a failed install or start saves the record in error with its message and reserves nothing, and a start saves it running on the least free port with its process filed and the port reserved |
| Runner.ProjectRunner.InstallAndStart | gitView/src/main/java/com/example/gitView/service/ProjectRunner.java:80-108 | the install is skipped for an empty install command; a nonzero exit code or a dead server ends in the error record with the failure's message; otherwise the running record |
| Runner.ProjectRunner.SaveFailure | gitView/src/main/java/com/example/gitView/service/ProjectRunner.java:103-107 | a failure saves the record in status error with the failure's message and touches neither processes nor ports |
| Runner.ProjectRunner.Launch | gitView/src/main/java/com/example/gitView/service/ProjectRunner.java:87-101 | the run command is launched with the port injected; a dead server gives the start failure, a live one the running record |
| Runner.ProjectRunner.SaveStarted | gitView/src/main/java/com/example/gitView/service/ProjectRunner.java:92-101 | the process is filed under the branch, the port reserved, and the record saved running on that port with its preview address and no error |
| Runner.ProjectRunner.StopProject | gitView/src/main/java/com/example/gitView/service/ProjectRunner.java:111-133 | unknown fails with nothing changed; otherwise a live process is destroyed and forgotten, the record's port released and the record saved stopped with its error message kept |
| Runner.ProjectRunner.DeleteProject | gitView/src/main/java/com/example/gitView/service/ProjectRunner.java:135-157 | unknown returns false with nothing changed; otherwise a running project is stopped first, the tree at its path is deleted best-effort, and the record is removed with true returned whatever was left on disk |
| Previews.PreviewAddress | gitLive/src/main/java/com/example/gitLive/service/PreviewService.java:15 | a preview address starts with `http://localhost:` and ends with a slash |
| Previews.PreviewAddressReadsBack | gitLive/src/main/java/com/example/gitLive/service/PreviewService.java:15 | the port reads back from between host and slash, so distinct ports have distinct addresses |
| Previews.Replay | gitLive/src/main/java/com/example/gitLive/service/PreviewService.java:14-17 | after any sequence of adds, every preview is filed under its own branch and carries its port's address |
| Previews.ReplayKeys | gitLive/src/main/java/com/example/gitLive/service/PreviewService.java:14-21 | there is a preview for exactly the branches that were added |
| Previews.ReplayLastWins | gitLive/src/main/java/com/example/gitLive/service/PreviewService.java:16 | a later add of a branch replaces the earlier one: the preview is that of the branch's latest add |
| Previews.LatestExists | gitLive/src/main/java/com/example/gitLive/service/PreviewService.java:16 | every branch that was added has a latest add |
| Previews.PreviewService.constructor | gitLive/src/main/java/com/example/gitLive/service/PreviewService.java:12 | the registry starts empty |
| Previews.PreviewService.AddPreview | gitLive/src/main/java/com/example/gitLive/service/PreviewService.java:14-17 | puts the branch's preview with address `http://localhost:` + port + `/`, replacing its earlier one and leaving every other branch's entry unchanged |
| Previews.PreviewService.GetPreview | gitLive/src/main/java/com/example/gitLive/service/PreviewService.java:23-25 | a preview exactly for a branch that was added: that branch's preview with the port of its latest add; empty for a branch never added |
| Previews.PreviewService.GetAllPreviews | gitLive/src/main/java/com/example/gitLive/service/PreviewService.java:19-21 | exactly the stored previews, one per distinct branch added |

## Left out

- The `icon` field of the stack profile is not modelled. It is display-only.
- Reading and JSON-parsing `package.json` and reading `requirements.txt` are not modelled. The detector takes their outcomes as input: the dependency key sets, or a read or parse failure, and the requirements text or None.
- Text.Lower: lower-cases only the ASCII letters. Java's `toLowerCase` uses the default locale's full Unicode mapping, and the model differs from it, for example in these three ways. First, Java maps the KELVIN SIGN (U+212A) to `k`, so Java finds a "FLASK" spelled with that sign and the model does not. Second, under a Turkish default locale Java maps `I` to the dotless `ı`, so Java does not find "FASTAPI" written in capitals and the model does. Third, in every locale Java maps the capital dotted `İ` (U+0130) to `i` (outside the Turkish and Azerbaijani locales followed by U+0307), so under a Turkish locale Java finds "fastapi" in "FASTAPİ" and returns the FastAPI profile, while the model returns the generic Python profile.
- Detector.Detect: file names are matched exactly. On a case-insensitive file system (Windows, which the runner supports, or macOS) Java finds `Package.json` or `INDEX.HTML` as the marker files. The model sees those only if the caller lists the marker spelling in `files`.
- The subprocess and socket helpers are not modelled: `runInstallCommand`, `startDevServer`, `createProcessBuilder` with its shell selection, the two-second sleep, and `isPortAvailable`. They are the oracles listed above. Exceptions thrown while starting the shell itself are not modelled. Such exceptions, and an interrupted sleep or wait for the process, may record any message or none; a record with no message would break `Consistent`, which the model keeps for every error record.
- The `PORT` environment variable that `createProcessBuilder` fills from a separate `findAvailablePort(3000)` is not modelled. That search reserves no port and leaves the reserved set unchanged.
- Concurrency is not modelled. The concurrent maps and sets of the runner are plain sequential state.
- Null values are not modelled: strings are never null. The null check on the install command therefore reduces to the emptiness check. `previewUrl` and `errorMessage` are `Option`s.
- `getAllProjects` and `getAllPreviews` return sets. The iteration order of the Java collections is not modelled.
- Runner.DeleteDirectory: symbolic links are not modelled. Java's `isDirectory` follows links, so a link to a directory outside the project is recursed into and the target's entries are deleted. The link itself is then removed even when the target still holds entries. The `Entry` tree has no link node, and `Leftover` keeps every directory whose entries remain, so neither effect is captured.
- Runner.ProjectRunner.DeleteProject: every directory of the tree can be listed. The case where `listFiles` returns null for an unreadable directory, and the directory is then deleted without visiting its entries, is not modelled.
- The project repository is a map of record values. JPA entity identity, `equals`/`hashCode` and `toString` are not modelled.
- Java `int` overflow is not modelled.
- Runner.FirstFreePort: a start port above 65535 is returned when the probe accepts it. In the code, `new ServerSocket` rejects such a port with an unchecked exception that aborts `runProject`. Neither case can arise from the detected profiles, whose default ports are all at most 8080.
