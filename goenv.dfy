/**
 * The Go tool environment: GOFLAGS and GOPATH handling and the import path of
 * the project. The process environment is the `vars` map of an `Environment`;
 * the working directory, the home directory and what go.mod holds are passed in.
 */
module GoEnv {
  import opened Wrappers
  import opened GoStrings
  import opened FilePaths

  const GOPATH_ENV := "GOPATH"
  const GOFLAGS_ENV := "GOFLAGS"
  const SRC_DIR := "src"

  /** The errors after which the Go code logs and exits. */
  datatype Fatal =
    | ModFileError     // go.mod exists but cannot be read or parsed
    | HomeDirError     // the home directory cannot be determined
    | NotInGopath      // no GOPATH element is a prefix of the working directory's parent
    | RepoPathUnknown  // the working directory is not under the GOPATH that was chosen

  /** What reading go.mod gives: no file, a failure, or the module path it declares ("" when it declares none). */
  datatype GoModFile = NoGoMod | GoModUnreadable | GoModParsed(modulePath: string)

  // The regular expression "(.* )?-v(.* )?", matched anywhere in the string.

  /** "(.* )?": empty, or a line of any characters that ends in a space (`.` does not match a line break). */
  ghost predicate OptionalGroup(u: string) {
    u == [] || (u[|u| - 1] == ' ' && '\n' !in u)
  }

  /** `u` matches "(.* )?-v(.* )?" with the "-v" at offset `k`. */
  ghost predicate FlagReSplit(u: string, k: int) {
    0 <= k && k + 2 <= |u| && OptionalGroup(u[..k]) && u[k] == '-' && u[k + 1] == 'v' && OptionalGroup(u[k + 2..])
  }

  /** The whole of `u` matches "(.* )?-v(.* )?". */
  ghost predicate FlagReWhole(u: string) {
    exists k :: FlagReSplit(u, k)
  }

  /** regexp.MatchString: some substring of `s` matches the expression. */
  ghost predicate FlagReMatches(s: string) {
    exists i, j :: 0 <= i <= j <= |s| && FlagReWhole(s[i..j])
  }

  /** Because both groups may be empty, the expression matches exactly the strings that contain "-v". */
  lemma FlagReIsContainment(s: string)
    ensures FlagReMatches(s) <==> Contains(s, "-v")
  {
    if Contains(s, "-v") {
      ContainmentMatches(s, Index(s, "-v"));
    }
    if FlagReMatches(s) {
      var i, j :| 0 <= i <= j <= |s| && FlagReWhole(s[i..j]);
      MatchContains(s, i, j);
    }
  }

  lemma ContainmentMatches(s: string, k: int)
    requires OccursAt(s, "-v", k)
    ensures FlagReMatches(s)
  {
    var u := s[k..k + 2];
    assert u == "-v";
    assert OptionalGroup(u[..0]) && OptionalGroup(u[2..]);
    assert FlagReSplit(u, 0);
  }

  lemma MatchContains(s: string, i: int, j: int)
    requires 0 <= i <= j <= |s| && FlagReWhole(s[i..j])
    ensures Contains(s, "-v")
  {
    var u := s[i..j];
    var k :| FlagReSplit(u, k);
    assert s[i + k] == '-' && s[i + k + 1] == 'v';
    assert s[i + k..i + k + 2] == "-v";
    assert OccursAt(s, "-v", i + k);
  }

  /** The value SetGoVerbose leaves in GOFLAGS, given its value before ("" when unset). */
  function VerboseGoFlags(gf: string): (r: string)
    ensures Contains(r, "-v")
    ensures HasPrefix(r, gf)
    ensures Contains(gf, "-v") ==> r == gf
    ensures !Contains(gf, "-v") ==> r == if gf == "" then "-v" else gf + " -v"
  {
    if |gf| == 0 then "-v"
    else if !Contains(gf, "-v") then
      assert OccursAt(gf + " -v", "-v", |gf| + 1);
      gf + " -v"
    else gf
  }

  /** Setting the verbose flag a second time changes nothing. */
  lemma VerboseGoFlagsIdempotent(gf: string)
    ensures VerboseGoFlags(VerboseGoFlags(gf)) == VerboseGoFlags(gf)
  {
  }

  /** The position of the first element of `list` that is a prefix of `dir`, or -1. */
  function FirstPrefixIndex(list: seq<string>, dir: string): (r: int)
    ensures -1 <= r < |list|
    ensures r == -1 <==> forall j :: 0 <= j < |list| ==> !HasPrefix(dir, list[j])
    ensures r != -1 ==> HasPrefix(dir, list[r]) && forall j :: 0 <= j < r ==> !HasPrefix(dir, list[j])
  {
    if |list| == 0 then -1
    else if HasPrefix(dir, list[0]) then 0
    else
      var rest := FirstPrefixIndex(list[1..], dir);
      if rest == -1 then -1 else rest + 1
  }

  /**
   * parseGoPkg: the working directory with the first occurrence of
   * gopath/src removed and the '/' at either end trimmed.
   */
  function ParseGoPkg(gopath: string, wd: string): (r: string)
    ensures r == [] || (r[0] != '/' && r[|r| - 1] != '/')
  {
    var goSrc := Join(gopath, SRC_DIR);
    var pathedPkg := ReplaceFirst(wd, goSrc, "");
    Trim(pathedPkg, '/')
  }

  /** For a directory gopath/src/pkg, parseGoPkg gives pkg. */
  lemma ParseGoPkgUnderSrc(gopath: string, pkg: string)
    requires pkg == [] || (pkg[0] != '/' && pkg[|pkg| - 1] != '/')
    ensures ParseGoPkg(gopath, Join(gopath, SRC_DIR) + "/" + pkg) == pkg
  {
    var goSrc := Join(gopath, SRC_DIR);
    var wd := goSrc + "/" + pkg;
    assert HasPrefix(wd, goSrc);
    assert wd[|goSrc|..] == "/" + pkg;
    assert "" + ("/" + pkg) == "/" + pkg + "";
    TrimSurrounded("/", pkg, "", '/');
  }

  /** The default GOPATH as GetGoPkg computes it, filepath.Join(home, "go", "src"): it already ends in "src". */
  function DefaultGoPathAsWritten(homeDir: string): (r: string)
    ensures HasPrefix(r, homeDir) && HasSuffix(r, SRC_DIR)
  {
    Join(Join(homeDir, "go"), SRC_DIR)
  }

  /**
   * With the default GOPATH as written, parseGoPkg looks for $HOME/go/src/src,
   * which a working directory $HOME/go/src/pkg does not contain unless pkg
   * happens to hold that text: the directory passes the GOPATH check, but the
   * import path keeps the GOPATH root and is longer than pkg.
   */
  lemma DefaultGoPathAsWrittenMissesPackage(homeDir: string, pkg: string)
    requires pkg == [] || (pkg[0] != '/' && pkg[|pkg| - 1] != '/')
    requires !Contains(DefaultGoPathAsWritten(homeDir) + "/" + pkg, Join(DefaultGoPathAsWritten(homeDir), SRC_DIR))
    ensures var root := DefaultGoPathAsWritten(homeDir);
            var wd := root + "/" + pkg;
            && HasPrefix(wd, root)
            && ParseGoPkg(root, wd) == Trim(wd, '/')
            && |ParseGoPkg(root, wd)| > |pkg|
  {
    var root := DefaultGoPathAsWritten(homeDir);
    var wd := root + "/" + pkg;
    assert HasPrefix(wd, root);
    var r := Trim(wd, '/');
    TrimBounds(wd, '/');
    var lo := |wd| - |TrimLeft(wd, '/')|;
    assert root[|root| - 1] == SRC_DIR[2];
    assert wd[|root| - 1] == root[|root| - 1];
    assert wd[|root| - 1] != '/';
    assert lo <= |root| - 1 < lo + |r|;
    if pkg != [] {
      assert wd[|wd| - 1] == pkg[|pkg| - 1];
      assert |wd| - 1 < lo + |r|;
    }
  }

  /** The input of the finding: HOME=/h and working directory /h/go/src/p do not give "p". */
  lemma DefaultGoPathAsWrittenExample()
    ensures ParseGoPkg(DefaultGoPathAsWritten("/h"), "/h/go/src/p") != "p"
  {
    DefaultGoPathAsWrittenAtH();
    assert "/h/go/src" + "/" + "p" == "/h/go/src/p";
    assert Join("/h/go/src", SRC_DIR) == "/h/go/src/src";
    assert Index("/h/go/src/p", "/h/go/src/src") == -1;
    DefaultGoPathAsWrittenMissesPackage("/h", "p");
  }

  /** The default GOPATH as written for HOME=/h. */
  lemma DefaultGoPathAsWrittenAtH()
    ensures DefaultGoPathAsWritten("/h") == "/h/go/src"
  {
    assert Join("/h", "go") == "/h/go";
    assert Join("/h/go", SRC_DIR) == "/h/go/src";
  }

  /** The default GOPATH root, $HOME/go, below whose src directory packages live. */
  function DefaultGoPath(homeDir: string): (r: string)
    ensures HasPrefix(r, homeDir) && HasSuffix(r, "go")
  {
    Join(homeDir, "go")
  }

  /** With the default root, a working directory $HOME/go/src/pkg passes the check of GetGoPkgCorrected and gives the import path pkg. */
  lemma DefaultGoPathGivesPackage(homeDir: string, pkg: string)
    requires pkg == [] || (pkg[0] != '/' && pkg[|pkg| - 1] != '/')
    ensures var wd := Join(DefaultGoPath(homeDir), SRC_DIR) + "/" + pkg;
            HasPrefix(wd, Join(DefaultGoPath(homeDir), SRC_DIR)) && ParseGoPkg(DefaultGoPath(homeDir), wd) == pkg
  {
    var root := DefaultGoPath(homeDir);
    var goSrc := Join(root, SRC_DIR);
    assert HasPrefix(goSrc + "/" + pkg, goSrc);
    ParseGoPkgUnderSrc(root, pkg);
  }

  /** With the corrected default, the example that goes wrong above gives "p". */
  lemma DefaultGoPathFindsPackage()
    ensures ParseGoPkg(DefaultGoPath("/h"), "/h/go/src/p") == "p"
  {
    assert DefaultGoPath("/h") == "/h/go";
    assert Join("/h/go", SRC_DIR) + "/" + "p" == "/h/go/src/p";
    ParseGoPkgUnderSrc("/h/go", "p");
  }

  /**
   * The search loop of MustSetWdGopath: walks the GOPATH list and stops at the
   * first element that is a prefix of `dir`; -1 when there is none.
   */
  method FindPrefix(list: seq<string>, dir: string) returns (r: int)
    ensures r == FirstPrefixIndex(list, dir)
  {
    var cwdInGopath := false;
    var i := 0;
    while i < |list|
      invariant 0 <= i <= |list|
      invariant !cwdInGopath
      invariant forall j :: 0 <= j < i ==> !HasPrefix(dir, list[j])
    {
      if HasPrefix(dir, list[i]) {
        cwdInGopath := true;
        break;
      }
      i := i + 1;
    }
    if !cwdInGopath {
      return -1;
    }
    return i;
  }

  /** The process environment. */
  class Environment {
    var vars: map<string, string>

    constructor (initial: map<string, string>)
      ensures vars == initial
    {
      vars := initial;
    }

    /** SetGoVerbose: appends " -v" to GOFLAGS unless it already contains "-v"; an unset or empty GOFLAGS becomes "-v". */
    method SetGoVerbose()
      modifies this
      ensures vars == old(vars)[GOFLAGS_ENV := VerboseGoFlags(if GOFLAGS_ENV in old(vars) then old(vars)[GOFLAGS_ENV] else "")]
      ensures GOFLAGS_ENV in old(vars) && FlagReMatches(old(vars)[GOFLAGS_ENV]) ==> vars == old(vars)
    {
      if GOFLAGS_ENV !in vars || |vars[GOFLAGS_ENV]| == 0 {
        vars := vars[GOFLAGS_ENV := "-v"];
        return;
      }
      var gf := vars[GOFLAGS_ENV];
      FlagReIsContainment(gf);
      if !Contains(gf, "-v") {
        vars := vars[GOFLAGS_ENV := gf + " -v"];
      }
    }

    /**
     * MustSetWdGopath: sets GOPATH to the first element of the path list
     * `currentGopath` that is a prefix of the parent of `wd`, and returns it.
     */
    method MustSetWdGopath(currentGopath: string, wd: string) returns (r: Result<string, Fatal>)
      modifies this
      ensures var list := SplitList(currentGopath);
              var i := FirstPrefixIndex(list, Dir(wd));
              if i == -1 then r == Failure(NotInGopath) && vars == old(vars)
              else r == Success(list[i]) && vars == old(vars)[GOPATH_ENV := list[i]]
    {
      var list := SplitList(currentGopath);
      var i := FindPrefix(list, Dir(wd));
      if i == -1 {
        return Failure(NotInGopath);
      }
      var newGopath := list[i];
      vars := vars[GOPATH_ENV := newGopath];
      return Success(newGopath);
    }

    /**
     * GetGoPkg: the module path declared in go.mod, or else the working
     * directory's path below $GOPATH/src, with GOPATH as set or, when it is
     * unset or empty, the default $HOME/go/src as the Go code computes it.
     */
    method GetGoPkg(goMod: GoModFile, homeDir: Option<string>, wd: string) returns (r: Result<string, Fatal>)
      modifies this
      ensures goMod == GoModUnreadable ==> r == Failure(ModFileError) && vars == old(vars)
      ensures goMod.GoModParsed? && goMod.modulePath != "" ==> r == Success(goMod.modulePath) && vars == old(vars)
      ensures (goMod == NoGoMod || goMod == GoModParsed("")) &&
              (GOPATH_ENV !in old(vars) || old(vars)[GOPATH_ENV] == "") ==>
                && vars == old(vars)
                && r == if homeDir.None? then Failure(HomeDirError)
                        else if !HasPrefix(wd, DefaultGoPathAsWritten(homeDir.value)) then Failure(RepoPathUnknown)
                        else Success(ParseGoPkg(DefaultGoPathAsWritten(homeDir.value), wd))
      ensures (goMod == NoGoMod || goMod == GoModParsed("")) &&
              GOPATH_ENV in old(vars) && old(vars)[GOPATH_ENV] != "" ==>
                var list := SplitList(old(vars)[GOPATH_ENV]);
                var i := FirstPrefixIndex(list, Dir(wd));
                if i == -1 then r == Failure(NotInGopath) && vars == old(vars)
                else
                  && vars == old(vars)[GOPATH_ENV := list[i]]
                  && r == if !HasPrefix(wd, list[i]) then Failure(RepoPathUnknown)
                          else Success(ParseGoPkg(list[i], wd))
    {
      if goMod == GoModUnreadable {
        return Failure(ModFileError);
      }
      if goMod.GoModParsed? && goMod.modulePath != "" {
        return Success(goMod.modulePath);
      }
      var goPath: string;
      if GOPATH_ENV !in vars || vars[GOPATH_ENV] == "" {
        if homeDir.None? {
          return Failure(HomeDirError);
        }
        goPath := DefaultGoPathAsWritten(homeDir.value);
      } else {
        var chosen := MustSetWdGopath(vars[GOPATH_ENV], wd);
        if chosen.Failure? {
          return Failure(chosen.error);
        }
        goPath := chosen.value;
      }
      if !HasPrefix(wd, goPath) {
        return Failure(RepoPathUnknown);
      }
      return Success(ParseGoPkg(goPath, wd));
    }

    /**
     * GetGoPkg with the default GOPATH corrected: the root is $HOME/go, the
     * working directory must lie below $HOME/go/src, and it is parsed against
     * that root. With GOPATH set it behaves as GetGoPkg.
     */
    method GetGoPkgCorrected(goMod: GoModFile, homeDir: Option<string>, wd: string) returns (r: Result<string, Fatal>)
      modifies this
      ensures goMod == GoModUnreadable ==> r == Failure(ModFileError) && vars == old(vars)
      ensures goMod.GoModParsed? && goMod.modulePath != "" ==> r == Success(goMod.modulePath) && vars == old(vars)
      ensures (goMod == NoGoMod || goMod == GoModParsed("")) &&
              (GOPATH_ENV !in old(vars) || old(vars)[GOPATH_ENV] == "") ==>
                && vars == old(vars)
                && r == if homeDir.None? then Failure(HomeDirError)
                        else if !HasPrefix(wd, Join(DefaultGoPath(homeDir.value), SRC_DIR)) then Failure(RepoPathUnknown)
                        else Success(ParseGoPkg(DefaultGoPath(homeDir.value), wd))
      ensures (goMod == NoGoMod || goMod == GoModParsed("")) &&
              GOPATH_ENV in old(vars) && old(vars)[GOPATH_ENV] != "" ==>
                var list := SplitList(old(vars)[GOPATH_ENV]);
                var i := FirstPrefixIndex(list, Dir(wd));
                if i == -1 then r == Failure(NotInGopath) && vars == old(vars)
                else
                  && vars == old(vars)[GOPATH_ENV := list[i]]
                  && r == if !HasPrefix(wd, list[i]) then Failure(RepoPathUnknown)
                          else Success(ParseGoPkg(list[i], wd))
    {
      if goMod == GoModUnreadable {
        return Failure(ModFileError);
      }
      if goMod.GoModParsed? && goMod.modulePath != "" {
        return Success(goMod.modulePath);
      }
      if GOPATH_ENV !in vars || vars[GOPATH_ENV] == "" {
        if homeDir.None? {
          return Failure(HomeDirError);
        }
        var root := DefaultGoPath(homeDir.value);
        if !HasPrefix(wd, Join(root, SRC_DIR)) {
          return Failure(RepoPathUnknown);
        }
        return Success(ParseGoPkg(root, wd));
      }
      var chosen := MustSetWdGopath(vars[GOPATH_ENV], wd);
      if chosen.Failure? {
        return Failure(chosen.error);
      }
      if !HasPrefix(wd, chosen.value) {
        return Failure(RepoPathUnknown);
      }
      return Success(ParseGoPkg(chosen.value, wd));
    }
  }
}
