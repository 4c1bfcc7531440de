/** The technology-stack profile of a project: how to install its dependencies, how to
    start its development server and on which port that server listens by default. */
module TechStacks {

  /** A stack profile. `kind` is the internal tag ("react", "java-maven", ...). The emoji
      icon the source carries for display is not modelled. */
  datatype TechStack = TechStack(
    kind: string,
    displayName: string,
    installCommand: string,
    runCommand: string,
    defaultPort: int)

  const NpmInstall := "npm install"
  const PipInstall := "pip install -r requirements.txt"

  /** Create React App and plain React projects. */
  function React(): TechStack {
    TechStack("react", "React.js", NpmInstall, "npm start", 3000)
  }

  function NextJs(): TechStack {
    TechStack("nextjs", "Next.js", NpmInstall, "npm run dev", 3000)
  }

  function Vite(): TechStack {
    TechStack("vite", "Vite", NpmInstall, "npm run dev", 5173)
  }

  /** Plain Node.js: a manifest with no recognised framework. */
  function Node(): TechStack {
    TechStack("node", "Node.js", NpmInstall, "npm start", 3000)
  }

  function Python(): TechStack {
    TechStack("python", "Python", PipInstall, "python app.py", 5000)
  }

  function JavaMaven(): TechStack {
    TechStack("java-maven", "Java (Maven)", "mvn clean install", "mvn spring-boot:run", 8080)
  }

  function JavaGradle(): TechStack {
    TechStack("java-gradle", "Java (Gradle)", "gradle build", "gradle bootRun", 8080)
  }

  /** A bare `index.html`, served by a static file server; nothing to install. */
  function StaticHtml(): TechStack {
    TechStack("static", "Static HTML", "", "npx serve -s .", 3000)
  }

  /** No recognisable project: nothing to install or run. */
  function Unknown(): TechStack {
    TechStack("unknown", "Unknown", "", "", 0)
  }

  /** The nine profiles the factories build, in declaration order. */
  function Factories(): seq<TechStack> {
    [React(), NextJs(), Vite(), Node(), Python(), JavaMaven(), JavaGradle(), StaticHtml(), Unknown()]
  }

  /** The install step runs only for a non-empty install command. */
  predicate HasInstallStep(t: TechStack) {
    t.installCommand != ""
  }

  /** No two factories share a kind tag, so the tag identifies the factory. */
  lemma FactoryKindsDistinct()
    ensures forall i, j :: 0 <= i < j < |Factories()| ==> Factories()[i].kind != Factories()[j].kind
  {
    var f := Factories();
    forall i, j | 0 <= i < j < |f| ensures f[i].kind != f[j].kind {
      assert |f[i].kind| != |f[j].kind| || f[i].kind[0] != f[j].kind[0];
    }
  }

  /** Every factory but `Unknown` has a positive default port; `Unknown` has port 0 and no
      commands at all. */
  lemma FactoryDefaultPorts()
    ensures forall t :: t in Factories() ==> (t.defaultPort > 0 <==> t.kind != "unknown")
    ensures Unknown().defaultPort == 0 && !HasInstallStep(Unknown()) && Unknown().runCommand == ""
  {
    forall t | t in Factories() ensures t.defaultPort > 0 <==> t.kind != "unknown" {
      assert t.kind != "unknown" ==> t != Unknown();
    }
  }
}
