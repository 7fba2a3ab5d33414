/**
 * Project-root and project-type detection. The working directory is given as
 * a `Workspace`: the parsed PROJECT file, if there is one, and what a stat of
 * each relative path returns.
 */
module OperatorTypes {
  import opened Wrappers
  import opened GoStrings

  /** The four operator types, in the order the classifier tries them. */
  datatype OperatorType = Go | Ansible | Helm | Unknown

  /** The string each type stands for ("go", "ansible", "helm", "unknown"). */
  function Name(t: OperatorType): string {
    match t
    case Go => "go"
    case Ansible => "ansible"
    case Helm => "helm"
    case Unknown => "unknown"
  }

  /** What the PROJECT file says: whether it is a version-2 file, and its layout (plugin key). */
  datatype Config = Config(isV2: bool, layout: string)

  /** What os.Stat reports for a path that is present in the workspace. */
  datatype Entry = RegularFile | Directory | StatFailure

  /**
   * A working directory: `projectFile` is None when there is no PROJECT file;
   * a path missing from `entries` does not exist.
   */
  datatype Workspace = Workspace(projectFile: Option<Config>, entries: map<string, Entry>)

  const MAIN_FILE := "main.go"
  const MANAGER_MAIN_FILE := "cmd/manager/main.go"
  const BUILD_DOCKERFILE := "build/Dockerfile"
  const ROLES_DIR := "roles"
  const REQUIREMENTS_FILE := "requirements.yml"
  const MOLECULE_DIR := "molecule"

  /** os.Stat(path) succeeds. */
  predicate Exists(ws: Workspace, path: string) {
    path in ws.entries && ws.entries[path] != StatFailure
  }

  /** os.Stat(path) succeeds and reports a directory. */
  predicate IsDir(ws: Workspace, path: string) {
    path in ws.entries && ws.entries[path] == Directory
  }

  /** PluginKeyToOperatorType: the type whose name is a prefix of the key, trying go, then helm, then ansible. */
  function PluginKeyToOperatorType(pluginKey: string): (r: OperatorType)
    ensures r == Go <==> HasPrefix(pluginKey, "go")
    ensures r == Helm <==> HasPrefix(pluginKey, "helm")
    ensures r == Ansible <==> HasPrefix(pluginKey, "ansible")
    ensures r != Unknown ==> HasPrefix(pluginKey, Name(r))
  {
    PrefixesExclusive(pluginKey);
    if HasPrefix(pluginKey, "go") then Go
    else if HasPrefix(pluginKey, "helm") then Helm
    else if HasPrefix(pluginKey, "ansible") then Ansible
    else Unknown
  }

  /** No key starts with two of "go", "helm" and "ansible": they begin with different letters. */
  lemma PrefixesExclusive(key: string)
    ensures !(HasPrefix(key, "go") && HasPrefix(key, "helm"))
    ensures !(HasPrefix(key, "go") && HasPrefix(key, "ansible"))
    ensures !(HasPrefix(key, "helm") && HasPrefix(key, "ansible"))
  {
    if |key| > 0 {
      assert HasPrefix(key, "go") ==> key[0] == 'g';
      assert HasPrefix(key, "helm") ==> key[0] == 'h';
      assert HasPrefix(key, "ansible") ==> key[0] == 'a';
    }
  }

  /** IsOperatorGo: the PROJECT file is version 2 or has a Go layout; without one, a main.go in cmd/manager or at the root. */
  predicate IsOperatorGo(ws: Workspace): (b: bool)
    ensures ws.projectFile.Some? ==>
              (b <==> ws.projectFile.value.isV2 || HasPrefix(ws.projectFile.value.layout, "go"))
    ensures ws.projectFile.None? ==>
              (b <==> (MANAGER_MAIN_FILE in ws.entries && ws.entries[MANAGER_MAIN_FILE] != StatFailure)
                      || (MAIN_FILE in ws.entries && ws.entries[MAIN_FILE] != StatFailure))
  {
    match ws.projectFile
    case Some(cfg) => cfg.isV2 || PluginKeyToOperatorType(cfg.layout) == Go
    case None => Exists(ws, MANAGER_MAIN_FILE) || Exists(ws, MAIN_FILE)
  }

  /** IsOperatorAnsible: an Ansible layout; without a PROJECT file, a roles or molecule directory or a requirements.yml. */
  predicate IsOperatorAnsible(ws: Workspace): (b: bool)
    ensures ws.projectFile.Some? ==> (b <==> HasPrefix(ws.projectFile.value.layout, "ansible"))
    ensures ws.projectFile.None? ==>
              (b <==> (ROLES_DIR in ws.entries && ws.entries[ROLES_DIR] == Directory)
                      || (MOLECULE_DIR in ws.entries && ws.entries[MOLECULE_DIR] == Directory)
                      || (REQUIREMENTS_FILE in ws.entries && ws.entries[REQUIREMENTS_FILE] != StatFailure))
  {
    match ws.projectFile
    case Some(cfg) => PluginKeyToOperatorType(cfg.layout) == Ansible
    case None => IsDir(ws, ROLES_DIR) || IsDir(ws, MOLECULE_DIR) || Exists(ws, REQUIREMENTS_FILE)
  }

  /** IsOperatorHelm: only a PROJECT file with a Helm layout. */
  predicate IsOperatorHelm(ws: Workspace): (b: bool)
    ensures b <==> ws.projectFile.Some? && HasPrefix(ws.projectFile.value.layout, "helm")
  {
    match ws.projectFile
    case Some(cfg) => PluginKeyToOperatorType(cfg.layout) == Helm
    case None => false
  }

  /**
   * GetOperatorType: the first of Go, Ansible and Helm whose test holds. With a
   * PROJECT file the type is Go for a version-2 file and otherwise what the
   * layout key names, whatever the directory holds. Without one the type is
   * never Helm: it is Go when a main.go exists, else Ansible when an Ansible
   * marker exists.
   */
  function GetOperatorType(ws: Workspace): (r: OperatorType)
    ensures ws.projectFile.Some? ==>
              r == if ws.projectFile.value.isV2 then Go else PluginKeyToOperatorType(ws.projectFile.value.layout)
    ensures ws.projectFile.None? ==> r != Helm
    ensures ws.projectFile.None? ==> (r == Go <==> Exists(ws, MANAGER_MAIN_FILE) || Exists(ws, MAIN_FILE))
    ensures ws.projectFile.None? ==>
              (r == Ansible <==>
                 && !Exists(ws, MANAGER_MAIN_FILE) && !Exists(ws, MAIN_FILE)
                 && (IsDir(ws, ROLES_DIR) || IsDir(ws, MOLECULE_DIR) || Exists(ws, REQUIREMENTS_FILE)))
  {
    if IsOperatorGo(ws) then Go
    else if IsOperatorAnsible(ws) then Ansible
    else if IsOperatorHelm(ws) then Helm
    else Unknown
  }

  /** A directory holding only a roles directory is an Ansible project. */
  lemma RolesOnlyIsAnsible()
    ensures GetOperatorType(Workspace(None, map[ROLES_DIR := Directory])) == Ansible
  {
    var ws := Workspace(None, map[ROLES_DIR := Directory]);
    assert MANAGER_MAIN_FILE !in ws.entries && MAIN_FILE !in ws.entries;
  }

  /** A non-version-2 PROJECT file whose layout starts with "helm" makes a Helm project, whatever the directory holds. */
  lemma HelmLayoutIsHelm(ws: Workspace, layout: string)
    requires ws.projectFile == Some(Config(false, layout)) && HasPrefix(layout, "helm")
    ensures GetOperatorType(ws) == Helm
  {
  }

  /** Why the working directory is not a project root. */
  datatype RootError =
    | MissingBuildDockerfile(path: string)  // build/Dockerfile does not exist
    | StatFailed(path: string)              // stat failed for some other reason

  /** CheckProjectRoot: a PROJECT file, or failing that a build/Dockerfile, marks the project root. */
  function CheckProjectRoot(ws: Workspace): (r: Option<RootError>)
    ensures r.None? <==> ws.projectFile.Some? || Exists(ws, BUILD_DOCKERFILE)
    ensures r == Some(MissingBuildDockerfile(BUILD_DOCKERFILE)) <==>
              ws.projectFile.None? && BUILD_DOCKERFILE !in ws.entries
    ensures r == Some(StatFailed(BUILD_DOCKERFILE)) <==>
              ws.projectFile.None? && BUILD_DOCKERFILE in ws.entries && ws.entries[BUILD_DOCKERFILE] == StatFailure
  {
    if ws.projectFile.Some? then None
    else if BUILD_DOCKERFILE !in ws.entries then Some(MissingBuildDockerfile(BUILD_DOCKERFILE))
    else if ws.entries[BUILD_DOCKERFILE] == StatFailure then Some(StatFailed(BUILD_DOCKERFILE))
    else None
  }
}
