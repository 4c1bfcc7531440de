/** Classification of a project directory into a stack profile. The directory is given as
    a value: whether it exists and is a directory, the names found to exist in it, the outcome of
    reading and parsing `package.json`, and the text of `requirements.txt`. */
module Detector {
  import opened Wrappers
  import opened Text
  import opened TechStacks

  /** The outcome of reading and parsing `package.json`: the keys of its `dependencies`
      and `devDependencies` objects (None when the section is absent), or a failure to
      read or parse the file. */
  datatype Manifest =
    | Parsed(dependencies: Option<set<string>>, devDependencies: Option<set<string>>)
    | Unreadable

  /** What the classifier can observe of a project directory. `files` holds the names for
      which a file or directory of that name is found to exist under the project directory
      (on a case-insensitive file system that includes other spellings of an entry's name).
      `packageJson` is consulted only when `package.json` is in `files`, `requirementsTxt`
      (None when reading fails) only when `requirements.txt` is. */
  datatype ProjectDir = ProjectDir(
    present: bool,
    isDirectory: bool,
    files: set<string>,
    packageJson: Manifest,
    requirementsTxt: Option<string>)

  const NodeKinds: set<string> := {"nextjs", "vite", "react", "vue", "angular", "express", "node"}
  const PythonKinds: set<string> := {"flask", "django", "fastapi", "python"}
  const OtherKinds: set<string> := {"java-maven", "java-gradle", "static", "unknown"}

  /** `hasDependency`: a section of the manifest declares `name`. An absent section
      declares nothing; a present one declares exactly its keys. */
  predicate HasDependency(section: Option<set<string>>, name: string): (declared: bool)
    ensures section.None? ==> !declared
    ensures section.Some? ==> (declared <==> name in section.value)
  {
    section.Some? && name in section.value
  }

  /** The profile for a directory holding `package.json`: the first framework found in the
      priority order next, vite, react, vue, angular, express wins; plain Node otherwise,
      and also when the manifest cannot be read or parsed. */
  function DetectNodeProject(m: Manifest): (t: TechStack)
    ensures t.kind in NodeKinds && t.installCommand == NpmInstall && t.defaultPort > 0
  {
    match m
    case Unreadable => Node()
    case Parsed(deps, dev) =>
      if HasDependency(deps, "next") || HasDependency(dev, "next") then NextJs()
      else if HasDependency(dev, "vite") then Vite()
      else if HasDependency(deps, "react") then
        (if HasDependency(deps, "react-scripts") || HasDependency(dev, "react-scripts") then React() else React())
      else if HasDependency(deps, "vue") then TechStack("vue", "Vue.js", NpmInstall, "npm run dev", 5173)
      else if HasDependency(deps, "@angular/core") then TechStack("angular", "Angular", NpmInstall, "ng serve", 4200)
      else if HasDependency(deps, "express") then TechStack("express", "Express.js", NpmInstall, "npm start", 3000)
      else Node()
  }

  /** One of the three Python dependency files is found to exist in the directory. */
  predicate HasPythonMarker(d: ProjectDir) {
    "requirements.txt" in d.files || "setup.py" in d.files || "pyproject.toml" in d.files
  }

  /** The web framework named in the (lower-cased) requirements text, flask before django
      before fastapi; None when requirements.txt is missing, unreadable or names none. */
  function PythonFramework(d: ProjectDir): (framework: Option<TechStack>)
    ensures framework.Some? ==> "requirements.txt" in d.files && d.requirementsTxt.Some?
    ensures framework.Some? ==>
      && framework.value.kind in PythonKinds - {"python"}
      && framework.value.installCommand == PipInstall
      && framework.value.defaultPort in {5000, 8000}
  {
    if "requirements.txt" in d.files && d.requirementsTxt.Some? then
      var content := Lower(d.requirementsTxt.value);
      if Contains(content, "flask") then
        Some(TechStack("flask", "Flask", PipInstall, "flask run", 5000))
      else if Contains(content, "django") then
        Some(TechStack("django", "Django", PipInstall, "python manage.py runserver", 8000))
      else if Contains(content, "fastapi") then
        Some(TechStack("fastapi", "FastAPI", PipInstall, "uvicorn main:app --reload", 8000))
      else None
    else None
  }

  /** The profile for a directory holding a Python dependency file. */
  function DetectPythonProject(d: ProjectDir): (t: TechStack)
    ensures t.kind in PythonKinds && t.installCommand == PipInstall && t.defaultPort > 0
  {
    match PythonFramework(d)
    case Some(framework) => framework
    case None =>
      var runCommand := if "main.py" in d.files && "app.py" !in d.files then "python main.py" else "python app.py";
      TechStack("python", "Python", PipInstall, runCommand, 5000)
  }

  /** `TechStackDetector.detect`: marker files are tried in a fixed order and the first
      one present decides. The result is always one of the fifteen known kinds, and its
      default port is positive exactly when a stack was recognised. */
  function Detect(d: ProjectDir): (t: TechStack)
    ensures t.kind in NodeKinds + PythonKinds + OtherKinds
    ensures t.defaultPort > 0 <==> t.kind != "unknown"
  {
    if !d.present || !d.isDirectory then Unknown()
    else if "package.json" in d.files then DetectNodeProject(d.packageJson)
    else if HasPythonMarker(d) then DetectPythonProject(d)
    else if "pom.xml" in d.files then JavaMaven()
    else if "build.gradle" in d.files || "build.gradle.kts" in d.files then JavaGradle()
    else if "index.html" in d.files then StaticHtml()
    else Unknown()
  }

  /** A path that does not exist, or is not a directory, is unknown. */
  lemma DetectInvalidPath(d: ProjectDir)
    requires !d.present || !d.isDirectory
    ensures Detect(d) == Unknown()
  {
  }

  /** The three families of kinds do not overlap. */
  lemma KindFamiliesDisjoint()
    ensures NodeKinds !! PythonKinds && NodeKinds !! OtherKinds && PythonKinds !! OtherKinds
  {
  }

  /** First marker wins: each family of results is reached exactly when its marker is
      present and every earlier marker is absent. */
  lemma DetectMarkerPriority(d: ProjectDir)
    ensures var t := Detect(d); var dir := d.present && d.isDirectory;
      && (t.kind in NodeKinds <==> dir && "package.json" in d.files)
      && (t.kind in PythonKinds <==> dir && "package.json" !in d.files && HasPythonMarker(d))
      && (t == JavaMaven() <==>
            dir && "package.json" !in d.files && !HasPythonMarker(d) && "pom.xml" in d.files)
      && (t == JavaGradle() <==>
            dir && "package.json" !in d.files && !HasPythonMarker(d) && "pom.xml" !in d.files
            && ("build.gradle" in d.files || "build.gradle.kts" in d.files))
      && (t == StaticHtml() <==>
            dir && "package.json" !in d.files && !HasPythonMarker(d) && "pom.xml" !in d.files
            && "build.gradle" !in d.files && "build.gradle.kts" !in d.files && "index.html" in d.files)
      && (t == Unknown() <==>
            !dir || ("package.json" !in d.files && !HasPythonMarker(d) && "pom.xml" !in d.files
            && "build.gradle" !in d.files && "build.gradle.kts" !in d.files && "index.html" !in d.files))
  {
    KindFamiliesDisjoint();
  }

  /** Node framework priority: each profile is chosen exactly when its dependency is
      declared and no earlier one is, so e.g. `next` together with `express` gives Next.js.
      Only `next` is looked up in both sections; `vite` only among the dev-dependencies,
      the others only among the dependencies. */
  lemma NodeFrameworkPriority(deps: Option<set<string>>, dev: Option<set<string>>)
    ensures var t := DetectNodeProject(Parsed(deps, dev));
      var next := HasDependency(deps, "next") || HasDependency(dev, "next");
      var vite := HasDependency(dev, "vite");
      var react := HasDependency(deps, "react");
      var vue := HasDependency(deps, "vue");
      var angular := HasDependency(deps, "@angular/core");
      var express := HasDependency(deps, "express");
      && (t == NextJs() <==> next)
      && (t == Vite() <==> !next && vite)
      && (t == React() <==> !next && !vite && react)
      && (t == TechStack("vue", "Vue.js", NpmInstall, "npm run dev", 5173) <==> !next && !vite && !react && vue)
      && (t == TechStack("angular", "Angular", NpmInstall, "ng serve", 4200) <==>
            !next && !vite && !react && !vue && angular)
      && (t == TechStack("express", "Express.js", NpmInstall, "npm start", 3000) <==>
            !next && !vite && !react && !vue && !angular && express)
      && (t == Node() <==> !next && !vite && !react && !vue && !angular && !express)
  {
  }

  /** A declared `react` gives the React profile whether or not `react-scripts` is there. */
  lemma ReactScriptsIrrelevant(deps: set<string>, dev: Option<set<string>>)
    requires "react" in deps && "next" !in deps && !HasDependency(dev, "next") && !HasDependency(dev, "vite")
    ensures DetectNodeProject(Parsed(Some(deps + {"react-scripts"}), dev)) == React()
    ensures DetectNodeProject(Parsed(Some(deps - {"react-scripts"}), dev)) == React()
  {
  }

  /** The Node fallbacks: a manifest that cannot be read or parsed, and one without
      `dependencies` and `devDependencies` sections, both give plain Node; the error is
      never propagated. */
  lemma NodeFallbacks(d: ProjectDir)
    requires d.present && d.isDirectory && "package.json" in d.files
    requires d.packageJson == Unreadable || d.packageJson == Parsed(None, None)
    ensures Detect(d) == Node()
  {
  }

  /** Python framework priority over the lower-cased requirements text: flask, then
      django, then fastapi; the generic profile when requirements.txt is missing, cannot be
      read, or names none of them. */
  lemma PythonFrameworkPriority(d: ProjectDir)
    ensures var t := DetectPythonProject(d);
      var readable := "requirements.txt" in d.files && d.requirementsTxt.Some?;
      var content := if readable then Lower(d.requirementsTxt.value) else "";
      var flask := readable && Contains(content, "flask");
      var django := readable && Contains(content, "django");
      var fastapi := readable && Contains(content, "fastapi");
      && (t.kind == "flask" <==> flask)
      && (t.kind == "django" <==> !flask && django)
      && (t.kind == "fastapi" <==> !flask && !django && fastapi)
      && (t.kind == "python" <==> !flask && !django && !fastapi)
      && (t.kind == "flask" ==> t.runCommand == "flask run" && t.defaultPort == 5000)
      && (t.kind == "django" ==> t.runCommand == "python manage.py runserver" && t.defaultPort == 8000)
      && (t.kind == "fastapi" ==> t.runCommand == "uvicorn main:app --reload" && t.defaultPort == 8000)
  {
  }

  /** The generic Python profile runs `python main.py` exactly when main.py exists and
      app.py does not, `python app.py` otherwise; it always installs from requirements.txt
      on port 5000, even when only setup.py or pyproject.toml is present. Whenever main.py
      does not win it is exactly the `Python` factory's profile. */
  lemma GenericPythonProfile(d: ProjectDir)
    requires PythonFramework(d).None?
    ensures var t := DetectPythonProject(d);
      && (t.runCommand == "python main.py" <==> "main.py" in d.files && "app.py" !in d.files)
      && (t.runCommand != "python main.py" ==> t.runCommand == "python app.py" && t == Python())
      && t.installCommand == PipInstall && t.defaultPort == 5000
  {
  }

  /** The install step is skipped exactly for the static and unknown profiles: every
      other detected profile has a non-empty install command. */
  lemma DetectedInstallStep(d: ProjectDir)
    ensures HasInstallStep(Detect(d)) <==> Detect(d).kind !in {"static", "unknown"}
  {
    var t := Detect(d);
    KindFamiliesDisjoint();
    assert "static" in OtherKinds && "unknown" in OtherKinds;
    if d.present && d.isDirectory && "package.json" in d.files {
      assert t.installCommand == NpmInstall && t.kind in NodeKinds;
    } else if d.present && d.isDirectory && HasPythonMarker(d) {
      assert t.installCommand == PipInstall && t.kind in PythonKinds;
    }
  }

  /** Lower-casing keeps every occurrence in place. */
  lemma LowerKeepsOccurrence(s: string, t: string, i: int)
    requires OccursAt(s, t, i)
    ensures OccursAt(Lower(s), Lower(t), i)
  {
    assert Lower(s)[i..i + |t|] == Lower(t) by {
      forall k | 0 <= k < |t| ensures Lower(s)[i..i + |t|][k] == Lower(t)[k] {
        assert s[i..i + |t|][k] == t[k];
      }
    }
  }

  /** The framework search ignores case: requirements naming `Flask`, `FLASK` or any other
      spelling of flask give the Flask profile. */
  lemma PythonSearchIgnoresCase(d: ProjectDir, spelling: string)
    requires "requirements.txt" in d.files && d.requirementsTxt.Some?
    requires Lower(spelling) == "flask" && Contains(d.requirementsTxt.value, spelling)
    ensures DetectPythonProject(d).kind == "flask"
  {
    var text := d.requirementsTxt.value;
    var i :| 0 <= i <= |text| - |spelling| && OccursAt(text, spelling, i);
    LowerKeepsOccurrence(text, spelling, i);
    assert OccursAt(Lower(text), "flask", i);
  }
}
