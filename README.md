# operator-sdk project utilities, modelled in Dafny

This project models the core of operator-sdk's project utilities
(`internal/util/projutil/project_util.go`):

- **Marker splicing.** `appendContent` puts new text on the line after the
  line holding the last occurrence of a marker. `RewriteFileContents` reads a
  file, splices it, and writes the file back.
- **Operator types.** A plugin key such as `go.kubebuilder.io/v2` or
  `helm.sdk.operatorframework.io/v1` maps to an operator type. The project in
  the working directory is classified as Go, Ansible, Helm or unknown, either
  from its PROJECT file or from the legacy layout (`cmd/manager/main.go`,
  `roles/`, `molecule/`, `requirements.yml`). The project root is recognised
  by the PROJECT file or by `build/Dockerfile`.
- **Go environment.** `SetGoVerbose` adds `-v` to `GOFLAGS`. `MustSetWdGopath`
  picks the GOPATH element that holds the working directory. `parseGoPkg` and
  `GetGoPkg` work out the package import path.

The modules:

- `Wrappers`: `Option` and `Result`.
- `GoStrings`: the Go `strings` functions the core calls, with Go's edge cases.
  `LastIndex` of an empty string is the length. `Replace` with n = 1 and an
  empty pattern prepends the replacement. `Trim` strips one cut character at both ends (the cutset used here is "/").
  `Split` keeps empty pieces.
- `FilePaths`: `filepath.Join`, `Dir` and `SplitList` on '/'-separated paths.
- `Splice`: `appendContent`, and a `FileStore` class whose `files` map is the
  file system that `RewriteFileContents` updates.
- `OperatorTypes`: plugin keys, project type detection and the project-root
  check, over a `Workspace` value. The workspace holds the parsed PROJECT file,
  if any, and what `os.Stat` gives for each path.
- `GoEnv`: an `Environment` class whose `vars` map is the process environment.
  The working directory, the home directory and the result of reading go.mod
  are parameters.

A fatal log call (`log.Fatal`, `log.Fatalf`) becomes a `Failure` of type
`GoEnv.Fatal`. Each Go error becomes a constructor of an error datatype that
carries the value in its message.

## Model

| member | source | states |
|---|---|---|
| GoStrings.LastIndex | internal/util/projutil/project_util.go:354 | -1 exactly when the marker does not occur; otherwise the position of its last occurrence |
| GoStrings.Index | internal/util/projutil/project_util.go:359 | -1 exactly when the pattern does not occur; otherwise its first occurrence, with none before it |
| GoStrings.IndexOfChar | internal/util/projutil/project_util.go:359 | for a one-character pattern: -1 iff the character is absent; otherwise the result holds it and nothing before does |
| GoStrings.Contains | internal/util/projutil/project_util.go:309 | true exactly when the pattern occurs somewhere in the string |
| GoStrings.ReplaceFirst | internal/util/projutil/project_util.go:180 | an empty pattern prepends the replacement; an absent pattern changes nothing; a prefix pattern is replaced at the front; otherwise the first occurrence (as given by Index) is replaced and the text on both sides is kept |
| GoStrings.HasPrefix | internal/util/projutil/project_util.go:207-211 | strings.HasPrefix by its own definition: the string starts with the prefix |
| GoStrings.TrimLeft | internal/util/projutil/project_util.go:183 | the result is a suffix of the input, everything before it is the cut character, and it does not start with it |
| GoStrings.TrimRight | internal/util/projutil/project_util.go:183 | the result is a prefix of the input, everything after it is the cut character, and it does not end with it |
| GoStrings.Trim | internal/util/projutil/project_util.go:183 | neither end of the result is the cut character |
| GoStrings.TrimBounds | internal/util/projutil/project_util.go:183 | the trimmed string is a slice of the input, and only cut characters lie outside it |
| GoStrings.TrimSurrounded | internal/util/projutil/project_util.go:183 | trimming a string padded with cut characters on both sides gives back the clean middle |
| GoStrings.Split | internal/util/projutil/project_util.go:285 | at least one piece, no piece holds the separator, and joining the pieces with it gives the input |
| FilePaths.SplitList | internal/util/projutil/project_util.go:285 | the empty list exactly for the empty path; otherwise pieces without ':' that join back to the path |
| FilePaths.Dir | internal/util/projutil/project_util.go:286 | "." for a path without a separator; otherwise "/" when only separators precede the last one, else the prefix of the path up to the last non-separator before the last separator |
| FilePaths.Join | internal/util/projutil/project_util.go:178 | an empty element gives the other; two non-empty elements are joined with exactly one separator unless the first already ends with one |
| Splice.AppendContent | internal/util/projutil/project_util.go:353-367 | TargetNotFound iff the marker does not occur; a NoTrailingNewline tail is a suffix starting with the marker; a success is longer by the new text and contains it |
| Splice.InsertionPointUnique | internal/util/projutil/project_util.go:353-367 | the insertion point for a marker is unique |
| Splice.AppendContentSucceedsIff | internal/util/projutil/project_util.go:353-367 | appendContent succeeds exactly when the marker occurs and a line break follows its last occurrence |
| Splice.AppendContentInsertsAt | internal/util/projutil/project_util.go:364-365 | the result is the original split at the insertion point with the new text in between |
| Splice.AppendContentKeepsOriginal | internal/util/projutil/project_util.go:364-365 | length grows by the new text; prefix and suffix are the original; removing the new text restores it |
| Splice.InsertionAfterEveryOccurrence | internal/util/projutil/project_util.go:354-364 | the new text goes after every occurrence of the marker, and after the whole marker when it is a single line |
| Splice.AppendContentErrors | internal/util/projutil/project_util.go:355-362 | TargetNotFound iff the marker is absent; NoTrailingNewline carries the final line from the last occurrence on |
| Splice.EmptyTargetFails | internal/util/projutil/project_util.go:354-362 | an empty marker always fails with an empty tail |
| Splice.FileStore.RewriteFileContents | internal/util/projutil/project_util.go:335-351 | read, splice and write errors in that order; the file changes only on success, when it holds exactly appendContent's result |
| OperatorTypes.PluginKeyToOperatorType | internal/util/projutil/project_util.go:205-215 | Go, Helm or Ansible exactly when the key starts with "go", "helm" or "ansible"; the type's name prefixes the key |
| OperatorTypes.PrefixesExclusive | internal/util/projutil/project_util.go:206-213 | no key starts with two of the three prefixes, so the order of the cases never matters |
| OperatorTypes.GetOperatorType | internal/util/projutil/project_util.go:188-199 | with a PROJECT file: Go for a version-2 file, otherwise the type of its layout key, whatever the directory holds; without one: never Helm, Go iff a main.go exists, Ansible iff not and a roles/molecule directory or requirements.yml exists |
| OperatorTypes.IsOperatorGo | internal/util/projutil/project_util.go:219-238 | with a PROJECT file: version 2 or a layout starting with "go"; without one: cmd/manager/main.go or main.go stats successfully |
| OperatorTypes.IsOperatorAnsible | internal/util/projutil/project_util.go:242-262 | with a PROJECT file: a layout starting with "ansible"; without one: roles or molecule is a directory, or requirements.yml stats successfully |
| OperatorTypes.IsOperatorHelm | internal/util/projutil/project_util.go:265-274 | exactly when there is a PROJECT file whose layout starts with "helm" |
| OperatorTypes.RolesOnlyIsAnsible | internal/util/projutil/project_util.go:252-254 | a legacy directory holding only roles/ is Ansible |
| OperatorTypes.HelmLayoutIsHelm | internal/util/projutil/project_util.go:265-274 | a non-version-2 PROJECT file with a helm layout gives Helm whatever the directory holds |
| OperatorTypes.CheckProjectRoot | internal/util/projutil/project_util.go:88-104 | no error iff a PROJECT file or build/Dockerfile exists; missing-file and stat-failure errors each iff their case |
| GoEnv.FlagReMatches | internal/util/projutil/project_util.go:300 | the unanchored match of "(.* )?-v(.* )?", with '.' excluding a line break; its meaning is stated by GoEnv.FlagReIsContainment |
| GoEnv.FlagReIsContainment | internal/util/projutil/project_util.go:300 | the pattern "(.* )?-v(.* )?" matches somewhere in a string exactly when it contains "-v" |
| GoEnv.VerboseGoFlags | internal/util/projutil/project_util.go:304-313 | the new GOFLAGS contains "-v" and extends the old; unchanged if it had "-v"; "-v" for empty, else old + " -v" |
| GoEnv.VerboseGoFlagsIdempotent | internal/util/projutil/project_util.go:302-313 | applying the GOFLAGS update twice is the same as once |
| GoEnv.Environment.SetGoVerbose | internal/util/projutil/project_util.go:304-313 | only GOFLAGS changes, to the verbose flags; the environment is untouched when the pattern already matches |
| GoEnv.FirstPrefixIndex | internal/util/projutil/project_util.go:285-290 | -1 iff no element prefixes the directory; otherwise the first element that does |
| GoEnv.FindPrefix | internal/util/projutil/project_util.go:285-290 | the search loop with its early break returns the first list element that prefixes the directory, or -1 |
| GoEnv.Environment.MustSetWdGopath | internal/util/projutil/project_util.go:279-297 | fails iff no GOPATH element prefixes the parent of wd; else returns the first such element and sets GOPATH to it only |
| GoEnv.ParseGoPkg | internal/util/projutil/project_util.go:177-184 | the import path neither begins nor ends with '/' |
| GoEnv.ParseGoPkgUnderSrc | internal/util/projutil/project_util.go:177-184 | for wd = gopath/src/pkg the import path is pkg |
| GoEnv.DefaultGoPathAsWritten | internal/util/projutil/project_util.go:164 | the default GOPATH as written starts with $HOME and already ends in "src" |
| GoEnv.DefaultGoPathAsWrittenMissesPackage | internal/util/projutil/project_util.go:164-178 | with that default, wd = $HOME/go/src/pkg passes the prefix check but yields the trimmed wd, longer than pkg |
| GoEnv.DefaultGoPathAsWrittenExample | internal/util/projutil/project_util.go:164-178 | HOME=/h and wd=/h/go/src/p do not give "p" |
| GoEnv.DefaultGoPath | internal/util/projutil/project_util.go:164 | the corrected default GOPATH $HOME/go starts with $HOME and ends in "go" |
| GoEnv.DefaultGoPathGivesPackage | internal/util/projutil/project_util.go:164-178 | with the corrected default, wd = $HOME/go/src/pkg lies below $HOME/go/src and gives pkg |
| GoEnv.DefaultGoPathFindsPackage | internal/util/projutil/project_util.go:164-178 | with the corrected default, HOME=/h and wd=/h/go/src/p give "p" |
| GoEnv.Environment.GetGoPkg | internal/util/projutil/project_util.go:138-175 | go.mod's module path first; else the path below GOPATH/src, with GOPATH as set (chosen by MustSetWdGopath) or the default $HOME/go/src as written; each fatal exit as its failure |
| GoEnv.Environment.GetGoPkgCorrected | internal/util/projutil/project_util.go:157-174 | as GetGoPkg, except that with GOPATH unset the working directory must lie below $HOME/go/src and is parsed against the root $HOME/go |

## Left out

- The real file system, environment and working directory. The file system is
  the `FileStore.files` map and the environment is `Environment.vars`. The
  stat results are a `Workspace` value. `MustGetwd` is the `wd` parameter.
  The home directory (`getHomeDir`) is an `Option` parameter.
- Reading the PROJECT file. `HasProjectFile` and `ReadConfig` become the
  optional `Config` of a `Workspace`. A PROJECT file that exists but cannot
  be read exits the Go program (lines 223-225, 246-248 and 270-272); the model
  has no such case.
- Reading and parsing go.mod (`ioutil.ReadFile`, `modfile.Parse`). These become
  the `GoModFile` parameter of `GetGoPkg`. Every failure to read or parse it is
  the one value `GoModUnreadable`.
- `MustInProjectRoot`. It only logs `CheckProjectRoot`'s error and exits.
- `CheckGoModules`. `GoModOn` is not part of this model.
- `PrintDeprecationWarning`. It only prints to the terminal.
- `ErrUnknownOperatorType.Error` and the wording of every error message. Errors
  are datatype constructors carrying the values their messages show.
- `filepath.Clean` inside `filepath.Join` and `filepath.Dir`. Paths are
  '/'-separated. Only Dir drops trailing separators. Join keeps trailing and
  doubled separators (`Join("a", "b/")` is "a/b/", not "a/b"), and neither
  resolves "." or "..". `filepath.ToSlash` is the identity.
- `os.Setenv` failures and the 0644 permission of written files.
  `RewriteFileContents` writes all or nothing. A write failure is a path in
  `FileStore.readOnly`.
- `os.IsExist` in the source's stat tests (`err == nil || os.IsExist(err)`) is
  taken to be false for every `os.Stat` error, because stat never reports that
  a file already exists. Every stat error therefore counts as absent.
- Files as bytes. File contents are Dafny strings.
- The general regular-expression engine. The one pattern used is defined by
  its own match predicate, `FlagReMatches`, and proved equal to containment of
  "-v".
- OperatorTypes.HelmLayoutIsHelm: requires a PROJECT file that is not version 2.
  The code tests `cfg.IsV2()` inside the Go test first (line 226). So a
  version-2 file with a Helm layout is classified as Go, even though the Helm
  layout alone would otherwise decide the type.
- GoEnv.Environment.GetGoPkgCorrected: not what the code does. It models the
  default GOPATH as evidently intended (see Findings). `GetGoPkg` keeps the
  default GOPATH as written.

## Findings

| source | as written | input that shows it | evidently intended | confidence | as-written member | corrected member |
|---|---|---|---|---|---|---|
| internal/util/projutil/project_util.go:164 | the default GOPATH is `filepath.Join(hd, "go", "src")`, and `parseGoPkg` appends "src" again (line 178), so it removes `$HOME/go/src/src` from wd | HOME=/h, GOPATH unset, no go.mod, wd=/h/go/src/p: the import path is "h/go/src/p" | the default GOPATH root is `$HOME/go`, so wd=/h/go/src/p gives "p" | not executed | GoEnv.DefaultGoPathAsWrittenExample | GoEnv.DefaultGoPathGivesPackage |
