/** The project record: one registered source tree, its detected stack and the state of
    its development server. */
module Projects {
  import opened Wrappers
  import opened Text
  import opened TechStacks

  /** The values the record's status takes. */
  datatype Status = Stopped | Installing | Starting | Running | Error

  /** The status as the record spells it. */
  function StatusName(s: Status): (name: string)
    ensures name in {"stopped", "installing", "starting", "running", "error"}
  {
    match s
    case Stopped => "stopped"
    case Installing => "installing"
    case Starting => "starting"
    case Running => "running"
    case Error => "error"
  }

  /** Each status has its own spelling. */
  lemma StatusNamesDistinct(a: Status, b: Status)
    ensures StatusName(a) == StatusName(b) <==> a == b
  {
  }

  /** The address at which a server on `port` is previewed: "http://localhost:" + port. */
  function PreviewUrl(port: int): (url: string)
    ensures |url| > 17 && url[..17] == "http://localhost:"
  {
    "http://localhost:" + IntToString(port)
  }

  /** Distinct ports have distinct preview addresses, and the port can be read back from
      the address. */
  lemma PreviewUrlDeterminesPort(p: int, q: int)
    ensures ParseInt(PreviewUrl(p)[17..]) == p
    ensures PreviewUrl(p) == PreviewUrl(q) <==> p == q
  {
    assert PreviewUrl(p)[17..] == IntToString(p);
    assert PreviewUrl(q)[17..] == IntToString(q);
    ParseIntToString(p);
    IntToStringInjective(p, q);
  }

  /** The state of a project as the repository stores it. `previewUrl` and `errorMessage`
      are None where the source holds null. */
  datatype ProjectRow = ProjectRow(
    branchName: string,
    projectPath: string,
    repoUrl: string,
    techStack: TechStack,
    running: bool,
    previewUrl: Option<string>,
    port: int,
    status: Status,
    errorMessage: Option<string>)

  /** The consistency every stored record keeps between operations: `running` agrees with
      the status, a running project has the preview address of its port, one that is not
      running has port 0 and no address, the two transient statuses are never left behind,
      and an error always carries its message. */
  predicate Consistent(r: ProjectRow) {
    && (r.running <==> r.status == Running)
    && (r.running ==> r.previewUrl == Some(PreviewUrl(r.port)))
    && (!r.running ==> r.port == 0 && r.previewUrl == None)
    && r.status != Installing && r.status != Starting
    && (r.status == Error ==> r.errorMessage.Some?)
  }

  /** Two records describe the same registered project: branch, path, repository address
      and stack agree. */
  predicate SameProject(a: ProjectRow, b: ProjectRow) {
    a.branchName == b.branchName && a.projectPath == b.projectPath && a.repoUrl == b.repoUrl
    && a.techStack == b.techStack
  }

  /** The record a freshly registered project starts with. */
  function InitialRow(branchName: string, projectPath: string, repoUrl: string, techStack: TechStack): (r: ProjectRow)
    ensures Consistent(r) && r.status == Stopped && !r.running
  {
    ProjectRow(branchName, projectPath, repoUrl, techStack, false, None, 0, Stopped, None)
  }

  /** A project record as a mutable object, updated field by field. */
  class Project {
    var branchName: string
    var projectPath: string
    var repoUrl: string
    var techStack: TechStack
    var running: bool
    var previewUrl: Option<string>
    var port: int
    var status: Status
    var errorMessage: Option<string>

    /** The record's current field values. */
    function Row(): ProjectRow
      reads this
    {
      ProjectRow(branchName, projectPath, repoUrl, techStack, running, previewUrl, port, status, errorMessage)
    }

    /** The four-argument constructor: copies its arguments and starts the project stopped,
        not running, on port 0, with no preview address and no error. */
    constructor (branchName: string, projectPath: string, repoUrl: string, techStack: TechStack)
      ensures Row() == InitialRow(branchName, projectPath, repoUrl, techStack)
      ensures Consistent(Row())
    {
      this.branchName := branchName;
      this.projectPath := projectPath;
      this.repoUrl := repoUrl;
      this.techStack := techStack;
      this.running := false;
      this.previewUrl := None;
      this.port := 0;
      this.status := Stopped;
      this.errorMessage := None;
    }

    /** The all-arguments constructor, by which a stored record is loaded as an object. */
    constructor Load(row: ProjectRow)
      ensures Row() == row
    {
      branchName := row.branchName;
      projectPath := row.projectPath;
      repoUrl := row.repoUrl;
      techStack := row.techStack;
      running := row.running;
      previewUrl := row.previewUrl;
      port := row.port;
      status := row.status;
      errorMessage := row.errorMessage;
    }
  }
}
