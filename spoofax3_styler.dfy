/**
 * `mb.spoofax.compiler.spoofax3.language.Spoofax3StylerLanguageCompiler`:
 * the task that checks an ESV project's directories, gathers the include
 * directories (the ESV root, then libspoofax2's ESV exports), runs the ESV
 * checker and compiles the main file to the aterm format file.
 *
 * Resources, the libspoofax2 class-loader locations, the checker and the
 * compiler are the deterministic functions of an `Env`; the answers of
 * `ExecContext.require` inside `ImportFunction.apply` are those of an
 * `ImportContext`. The files `exec` writes and provides are the state of an
 * `ExecContext` object.
 */
module Spoofax3StylerLanguageCompiler {
  import opened Wrappers
  import opened Terms
  import opened Paths
  import opened Seqs
  import CommonUtil

  // ---------------------------------------------------------------------------
  // Inputs and their defaults

  /** `Spoofax3LanguageProject`: the parts of the language project this task reads. */
  datatype LanguageProject = LanguageProject(
    srcMainDirectory: Path,
    generatedResourcesDirectory: Path,
    packagePath: string,
    unarchiveDirectory: Path,
    includeLibSpoofax2Exports: bool)

  /** `Input`; a `@Value.Default` property is `None` unless the builder set it. */
  datatype Input = Input(
    esvRootDirectoryOverride: Option<Path>,
    esvMainFileOverride: Option<Path>,
    esvIncludeDirs: seq<Path>,
    esvAdditionalAstSuppliers: seq<string>,
    esvAtermFormatFileRelativePathOverride: Option<string>,
    project: LanguageProject)

  /** `esvRootDirectory()`: `<srcMainDirectory>/esv` by default. */
  function EsvRootDirectory(input: Input): (r: Path)
    ensures input.esvRootDirectoryOverride.Some? ==> r == input.esvRootDirectoryOverride.value
    ensures input.esvRootDirectoryOverride.None? ==> r == input.project.srcMainDirectory + ["esv"]
  {
    input.esvRootDirectoryOverride.GetOr(AppendRelativePath(input.project.srcMainDirectory, "esv"))
  }

  /** `esvMainFile()`: `main.esv` in the root directory by default. */
  function EsvMainFile(input: Input): (r: Path)
    ensures input.esvMainFileOverride.Some? ==> r == input.esvMainFileOverride.value
    ensures input.esvMainFileOverride.None? ==> r == EsvRootDirectory(input) + ["main.esv"]
  {
    input.esvMainFileOverride.GetOr(AppendRelativePath(EsvRootDirectory(input), "main.esv"))
  }

  /** `esvAtermFormatFileRelativePath()`: `editor.esv.af` by default. */
  function EsvAtermFormatFileRelativePath(input: Input): (r: string)
    ensures input.esvAtermFormatFileRelativePathOverride.Some? ==> r == input.esvAtermFormatFileRelativePathOverride.value
    ensures input.esvAtermFormatFileRelativePathOverride.None? ==> r == "editor.esv.af"
  {
    input.esvAtermFormatFileRelativePathOverride.GetOr("editor.esv.af")
  }

  /** `esvAtermFormatOutputFile()`: `<generatedResourcesDirectory>/<packagePath>/<relative path>`. */
  function AtermFormatOutputFile(input: Input): (r: Path)
    ensures |r| == |input.project.generatedResourcesDirectory| + 2
    ensures r[..|input.project.generatedResourcesDirectory|] == input.project.generatedResourcesDirectory
    ensures r[|input.project.generatedResourcesDirectory|] == input.project.packagePath
    ensures r[|r| - 1] == EsvAtermFormatFileRelativePath(input)
  {
    AppendRelativePath(
      AppendRelativePath(input.project.generatedResourcesDirectory, input.project.packagePath),
      EsvAtermFormatFileRelativePath(input))
  }

  /**
   * Without overrides the main file is the file that the ESV import `main`
   * names in the root directory, and the aterm format file is
   * `editor.esv.af` under the package path.
   */
  lemma DefaultLayout(input: Input)
    requires input.esvMainFileOverride.None? && input.esvAtermFormatFileRelativePathOverride.None?
    ensures EsvMainFile(input) == EsvFile(EsvRootDirectory(input), "main")
    ensures AtermFormatOutputFile(input) ==
      input.project.generatedResourcesDirectory + [input.project.packagePath, "editor.esv.af"]
  {
    var root := EsvRootDirectory(input);
    var appended := AppendRelativePath(root, "main");
    assert !EndsWith(appended[|appended| - 1], ".esv");
    assert appended[..|appended| - 1] == root;
    assert "main" + "." + "esv" == "main.esv";
  }

  // ---------------------------------------------------------------------------
  // Resources and the environment of `exec`

  /** What `exists()`, `isFile()` and `isDirectory()` report for the resource at a path. */
  datatype Kind = Absent | FileResource | DirectoryResource

  /** A JAR file's path; JAR files always have a leaf. */
  type JarPath = p: Path | |p| > 0 witness ["libspoofax2.jar"]

  /** `JarFileWithPath`: a JAR file and the path of the definition directory inside it. */
  datatype JarFileWithPath = JarFileWithPath(file: JarPath, path: string)

  /** `ClassLoaderResourceLocations`: where the class loader finds libspoofax2's definition directory. */
  datatype Locations = Locations(directories: seq<Path>, jarFiles: seq<JarFileWithPath>)

  datatype Severity = Info | Warning | Error

  datatype Message = Message(text: string, severity: Severity, resource: Option<Path>)

  datatype KeyedMessages = KeyedMessages(messages: seq<Message>)

  predicate ContainsError(m: KeyedMessages) {
    exists i :: 0 <= i < |m.messages| && m.messages[i].severity == Error
  }

  /** `StylerCompilerException`, by the factory method that made it. */
  datatype StylerError =
    | MainFileFail(mainFile: Path)
    | RootDirectoryFail(rootDirectory: Path)
    | IncludeDirectoryFail(includeDirectory: Path)
    | CheckFail(messages: KeyedMessages)
    | CompilerFail(cause: string)

  /**
   * A `Supplier<ResourcePath>` of an include directory. A `ValueSupplier` is
   * equal to another one with the same path. A supplier made by `map` with a
   * lambda is equal only to itself, so it carries the loop index at which it
   * was made, which makes two of them equal exactly when they are the same
   * object.
   */
  datatype DirSupplier =
    | ValueSupplier(value: Path)
    | UnarchivedDefinition(jar: JarPath, unarchiveDirectory: Path, pathInJar: string, jarIndex: nat)
    | UnarchivedExport(definition: DirSupplier, exportName: string, exportIndex: nat)

  /** The answers `exec` gets from outside: resources, libspoofax2's locations and ESV exports, the checker and the compiler. */
  datatype Env = Env(
    kind: Path -> Kind,
    libSpoofax2Locations: Locations,
    esvExports: seq<string>,
    check: Path -> KeyedMessages,
    compile: (Path, ImportFunction, CommonUtil.ListView<string>) -> Result<Term, string>)

  // ---------------------------------------------------------------------------
  // The ordered precondition checks

  /** The index of the first path of `dirs` that is not an existing directory. */
  function FirstNonDirectory(kind: Path -> Kind, dirs: seq<Path>): (r: Option<nat>)
    ensures r.Some? ==> r.value < |dirs| && kind(dirs[r.value]) != DirectoryResource
    ensures r.Some? ==> forall j :: 0 <= j < r.value ==> kind(dirs[j]) == DirectoryResource
    ensures r.None? ==> forall j :: 0 <= j < |dirs| ==> kind(dirs[j]) == DirectoryResource
  {
    if |dirs| == 0 then None
    else if kind(dirs[0]) != DirectoryResource then Some(0)
    else match FirstNonDirectory(kind, dirs[1..])
      case None => None
      case Some(k) => Some(k + 1)
  }

  /** The error that the checks at the start of `exec` return, if one fails. */
  function PreconditionFailure(kind: Path -> Kind, input: Input): Option<StylerError> {
    var mainFile := EsvMainFile(input);
    var rootDirectory := EsvRootDirectory(input);
    if kind(mainFile) != FileResource then Some(MainFileFail(mainFile))
    else if kind(rootDirectory) != DirectoryResource then Some(RootDirectoryFail(rootDirectory))
    else match FirstNonDirectory(kind, input.esvIncludeDirs)
      case Some(i) => Some(IncludeDirectoryFail(input.esvIncludeDirs[i]))
      case None => None
  }

  /** Checks the main file, then the root directory, then each include directory in order. */
  method CheckPreconditions(kind: Path -> Kind, input: Input) returns (failure: Option<StylerError>)
    ensures failure == PreconditionFailure(kind, input)
  {
    var mainFile := EsvMainFile(input);
    if kind(mainFile) != FileResource {
      return Some(MainFileFail(mainFile));
    }
    var rootDirectory := EsvRootDirectory(input);
    if kind(rootDirectory) != DirectoryResource {
      return Some(RootDirectoryFail(rootDirectory));
    }
    var dirs := input.esvIncludeDirs;
    for i := 0 to |dirs|
      invariant forall j :: 0 <= j < i ==> kind(dirs[j]) == DirectoryResource
    {
      if kind(dirs[i]) != DirectoryResource {
        return Some(IncludeDirectoryFail(dirs[i]));
      }
    }
    return None;
  }

  /**
   * The main file is checked first, the root directory second, and the
   * include directories last; all checks pass exactly when each resource
   * has the right kind.
   */
  lemma PreconditionsInOrder(kind: Path -> Kind, input: Input)
    ensures PreconditionFailure(kind, input) == Some(MainFileFail(EsvMainFile(input)))
      <==> kind(EsvMainFile(input)) != FileResource
    ensures PreconditionFailure(kind, input) == Some(RootDirectoryFail(EsvRootDirectory(input)))
      <==> kind(EsvMainFile(input)) == FileResource && kind(EsvRootDirectory(input)) != DirectoryResource
    ensures PreconditionFailure(kind, input).None? <==>
      && kind(EsvMainFile(input)) == FileResource
      && kind(EsvRootDirectory(input)) == DirectoryResource
      && forall j :: 0 <= j < |input.esvIncludeDirs| ==> kind(input.esvIncludeDirs[j]) == DirectoryResource
  {
    var dirs := input.esvIncludeDirs;
    var first := FirstNonDirectory(kind, dirs);
    if first.Some? {
      assert !(forall j :: 0 <= j < |dirs| ==> kind(dirs[j]) == DirectoryResource);
    }
  }

  /** With the main file and the root in order, the first include directory that is not a directory is the one reported. */
  lemma FirstBadIncludeDirectoryReported(kind: Path -> Kind, input: Input, i: nat)
    requires kind(EsvMainFile(input)) == FileResource && kind(EsvRootDirectory(input)) == DirectoryResource
    requires i < |input.esvIncludeDirs| && kind(input.esvIncludeDirs[i]) != DirectoryResource
    requires forall j :: 0 <= j < i ==> kind(input.esvIncludeDirs[j]) == DirectoryResource
    ensures PreconditionFailure(kind, input) == Some(IncludeDirectoryFail(input.esvIncludeDirs[i]))
  {
    var first := FirstNonDirectory(kind, input.esvIncludeDirs);
    assert first == Some(i);
  }

  // ---------------------------------------------------------------------------
  // `LinkedHashSet`: a set that keeps the order of first insertion

  /** The contents of a `LinkedHashSet` holding `s` after `add(x)`. */
  function Insert<T(==)>(s: seq<T>, x: T): seq<T> {
    if x in s then s else s + [x]
  }

  /** The contents of a `LinkedHashSet` holding `s` after `add` of each element of `t` in turn. */
  function InsertAll<T(==)>(s: seq<T>, t: seq<T>): seq<T>
    decreases |t|
  {
    if |t| == 0 then s else Insert(InsertAll(s, t[..|t| - 1]), t[|t| - 1])
  }

  /** A new `LinkedHashSet` after adding the elements of `t` in turn. */
  function Dedup<T(==)>(t: seq<T>): seq<T> {
    InsertAll([], t)
  }

  lemma InsertAllSnoc<T>(s: seq<T>, t: seq<T>, x: T)
    ensures InsertAll(s, t + [x]) == Insert(InsertAll(s, t), x)
  {
    assert (t + [x])[..|t|] == t;
  }

  lemma {:induction false} InsertAllAppend<T>(s: seq<T>, a: seq<T>, b: seq<T>)
    ensures InsertAll(s, a + b) == InsertAll(InsertAll(s, a), b)
    decreases |b|
  {
    if |b| == 0 {
      assert a + b == a;
    } else {
      var b', x := b[..|b| - 1], b[|b| - 1];
      assert b == b' + [x];
      assert a + b == (a + b') + [x];
      InsertAllAppend(s, a, b');
      InsertAllSnoc(s, a + b', x);
      InsertAllSnoc(InsertAll(s, a), b', x);
    }
  }

  lemma {:induction false} InsertAllElements<T>(s: seq<T>, t: seq<T>)
    ensures Elements(InsertAll(s, t)) == Elements(s) + Elements(t)
    decreases |t|
  {
    if |t| > 0 {
      var t', x := t[..|t| - 1], t[|t| - 1];
      assert t == t' + [x];
      InsertAllElements(s, t');
      ElementsAppend(t', [x]);
      ElementsAppend(InsertAll(s, t'), [x]);
    }
  }

  lemma {:induction false} InsertAllNoDuplicates<T>(s: seq<T>, t: seq<T>)
    requires NoDuplicates(s)
    ensures NoDuplicates(InsertAll(s, t))
    decreases |t|
  {
    if |t| > 0 {
      var t', x := t[..|t| - 1], t[|t| - 1];
      InsertAllNoDuplicates(s, t');
      var p := InsertAll(s, t');
      if x !in p {
        NoDuplicatesAppend(p, [x]);
      }
    }
  }

  lemma {:induction false} InsertAllKeepsPrefix<T>(s: seq<T>, t: seq<T>)
    ensures |s| <= |InsertAll(s, t)| && InsertAll(s, t)[..|s|] == s
    decreases |t|
  {
    if |t| > 0 {
      var t', x := t[..|t| - 1], t[|t| - 1];
      InsertAllKeepsPrefix(s, t');
      var p := InsertAll(s, t');
      if x !in p {
        assert (p + [x])[..|s|] == p[..|s|];
      }
    }
  }

  /**
   * A later insertion does not move the first occurrence of an element
   * already present (`CommonUtil.FirstIndex`, the `indexOf` of a list).
   */
  lemma FirstIndexSnoc<T>(t: seq<T>, x: T, y: T)
    requires y in t
    ensures CommonUtil.FirstIndex(t + [x], y) == CommonUtil.FirstIndex(t, y)
  {
    var r, r' := CommonUtil.FirstIndex(t + [x], y), CommonUtil.FirstIndex(t, y);
    assert (t + [x])[r'] == y;
  }

  /**
   * A `LinkedHashSet` filled from `t` holds each element of `t` once, the
   * first element of `t` first, and the others in the order of their first
   * occurrence in `t`.
   */
  lemma {:induction false} DedupKeepsFirstInsertionOrder<T>(t: seq<T>)
    ensures NoDuplicates(Dedup(t))
    ensures Elements(Dedup(t)) == Elements(t)
    ensures |t| > 0 ==> |Dedup(t)| > 0 && Dedup(t)[0] == t[0]
    ensures forall i :: 0 <= i < |Dedup(t)| ==> Dedup(t)[i] in t
    ensures forall i, j :: 0 <= i < j < |Dedup(t)| ==> CommonUtil.FirstIndex(t, Dedup(t)[i]) < CommonUtil.FirstIndex(t, Dedup(t)[j])
    decreases |t|
  {
    InsertAllNoDuplicates([], t);
    InsertAllElements([], t);
    if |t| > 0 {
      var t', x := t[..|t| - 1], t[|t| - 1];
      assert t == t' + [x];
      DedupKeepsFirstInsertionOrder(t');
      var r' := Dedup(t');
      assert Dedup(t) == Insert(r', x);
      if |t'| > 0 {
        InsertAllKeepsPrefix(r', [x]);
        assert Dedup(t)[0] == r'[0];
        assert t[0] == t'[0];
      }
      forall y | y in t' ensures CommonUtil.FirstIndex(t, y) == CommonUtil.FirstIndex(t', y) {
        FirstIndexSnoc(t', x, y);
      }
      if x !in r' {
        assert x !in Elements(t') by {
          assert x !in Elements(r');
        }
        assert CommonUtil.FirstIndex(t, x) == |t'| by {
          assert t[|t'|] == x;
          assert forall j :: 0 <= j < |t'| ==> t[j] == t'[j];
        }
      }
    }
  }

  /** `LinkedHashSet`: an insertion-ordered set, filled by `add` and `addAll`. */
  class LinkedSet<T(==)> {
    var elems: seq<T>

    constructor()
      ensures elems == []
    {
      elems := [];
    }

    method Add(x: T)
      modifies this
      ensures elems == Insert(old(elems), x)
    {
      if x !in elems {
        elems := elems + [x];
      }
    }

    method AddAll(xs: seq<T>)
      modifies this
      ensures elems == InsertAll(old(elems), xs)
    {
      ghost var start := elems;
      for i := 0 to |xs|
        invariant elems == InsertAll(start, xs[..i])
      {
        InsertAllSnoc(start, xs[..i], xs[i]);
        assert xs[..i + 1] == xs[..i] + [xs[i]];
        Add(xs[i]);
      }
      assert xs[..|xs|] == xs;
    }
  }

  // ---------------------------------------------------------------------------
  // Gathering the include directories

  /** `<unarchiveDirectory>/libspoofax2/<leaf of the JAR file>`. */
  function UnarchiveDirectory(project: LanguageProject, jar: JarFileWithPath): Path {
    AppendRelativePath(AppendRelativePath(project.unarchiveDirectory, "libspoofax2"), jar.file[|jar.file| - 1])
  }

  /** The unarchive suppliers, one per JAR file in order, as the JAR loop adds them. */
  function UnarchiveCandidates(project: LanguageProject, jars: seq<JarFileWithPath>): seq<DirSupplier>
    decreases |jars|
  {
    if |jars| == 0 then []
    else
      var k := |jars| - 1;
      UnarchiveCandidates(project, jars[..k])
        + [UnarchivedDefinition(jars[k].file, UnarchiveDirectory(project, jars[k]), jars[k].path, k)]
  }

  /** `libSpoofax2DefinitionDirs` after the block at the start of `exec`. */
  function DefinitionDirectories(env: Env, project: LanguageProject): seq<Path> {
    if project.includeLibSpoofax2Exports then Dedup(env.libSpoofax2Locations.directories) else []
  }

  /** `libSpoofax2UnarchiveDirSuppliers` after the block at the start of `exec`. */
  function UnarchiveSuppliers(env: Env, project: LanguageProject): seq<DirSupplier> {
    if project.includeLibSpoofax2Exports then Dedup(UnarchiveCandidates(project, env.libSpoofax2Locations.jarFiles)) else []
  }

  /** The existing directories `<definitionDir>/<export>`, in the order of `definitionDirs`. */
  function ExportDirectoryCandidates(kind: Path -> Kind, exportName: string, definitionDirs: seq<Path>): seq<DirSupplier>
    decreases |definitionDirs|
  {
    if |definitionDirs| == 0 then []
    else
      var k := |definitionDirs| - 1;
      var exportDirectory := AppendRelativePath(definitionDirs[k], exportName);
      ExportDirectoryCandidates(kind, exportName, definitionDirs[..k])
        + (if kind(exportDirectory) != Absent then [ValueSupplier(exportDirectory)] else [])
  }

  /** Each unarchive supplier mapped to its `<export>` subdirectory, made in export loop round `exportIndex`. */
  function UnarchivedExportCandidates(exportName: string, exportIndex: nat, unarchiveSuppliers: seq<DirSupplier>): seq<DirSupplier>
    decreases |unarchiveSuppliers|
  {
    if |unarchiveSuppliers| == 0 then []
    else
      var k := |unarchiveSuppliers| - 1;
      UnarchivedExportCandidates(exportName, exportIndex, unarchiveSuppliers[..k])
        + [UnarchivedExport(unarchiveSuppliers[k], exportName, exportIndex)]
  }

  /** Everything the export loop adds, in order: per export, its directories, then its unarchived subdirectories. */
  function ExportCandidates(kind: Path -> Kind, exports: seq<string>, definitionDirs: seq<Path>, unarchiveSuppliers: seq<DirSupplier>): seq<DirSupplier>
    decreases |exports|
  {
    if |exports| == 0 then []
    else
      var k := |exports| - 1;
      ExportCandidates(kind, exports[..k], definitionDirs, unarchiveSuppliers)
        + ExportDirectoryCandidates(kind, exports[k], definitionDirs)
        + UnarchivedExportCandidates(exports[k], k, unarchiveSuppliers)
  }

  /** Everything added to `includeDirSuppliers`, in order: the root directory first. */
  function IncludeCandidates(kind: Path -> Kind, root: Path, exports: seq<string>, definitionDirs: seq<Path>, unarchiveSuppliers: seq<DirSupplier>): seq<DirSupplier> {
    [ValueSupplier(root)] + ExportCandidates(kind, exports, definitionDirs, unarchiveSuppliers)
  }

  /** `includeDirSuppliers` as `exec` gathers it. */
  function IncludeDirSuppliers(env: Env, input: Input): seq<DirSupplier> {
    Dedup(IncludeCandidates(env.kind, EsvRootDirectory(input), env.esvExports,
      DefinitionDirectories(env, input.project), UnarchiveSuppliers(env, input.project)))
  }

  /** The block that determines libspoofax2's definition directories and unarchive suppliers. */
  method DetermineLibSpoofax2Directories(env: Env, project: LanguageProject)
    returns (definitionDirs: seq<Path>, unarchiveSuppliers: seq<DirSupplier>)
    ensures definitionDirs == DefinitionDirectories(env, project)
    ensures unarchiveSuppliers == UnarchiveSuppliers(env, project)
  {
    var definitions := new LinkedSet<Path>();
    var unarchives := new LinkedSet<DirSupplier>();
    if project.includeLibSpoofax2Exports {
      var locations := env.libSpoofax2Locations;
      definitions.AddAll(locations.directories);
      AddUnarchiveSuppliers(unarchives, project, locations.jarFiles);
    }
    definitionDirs := definitions.elems;
    unarchiveSuppliers := unarchives.elems;
  }

  /** The loop over libspoofax2's JAR files, adding one unarchive supplier per JAR file. */
  method AddUnarchiveSuppliers(unarchives: LinkedSet<DirSupplier>, project: LanguageProject, jars: seq<JarFileWithPath>)
    modifies unarchives
    ensures unarchives.elems == InsertAll(old(unarchives.elems), UnarchiveCandidates(project, jars))
  {
    ghost var start := unarchives.elems;
    for k := 0 to |jars|
      invariant unarchives.elems == InsertAll(start, UnarchiveCandidates(project, jars[..k]))
    {
      var jarFilePath := jars[k].file;
      var unarchiveDirectory := AppendRelativePath(AppendRelativePath(project.unarchiveDirectory, "libspoofax2"), jarFilePath[|jarFilePath| - 1]);
      var supplier := UnarchivedDefinition(jarFilePath, unarchiveDirectory, jars[k].path, k);
      assert jars[..k + 1][..k] == jars[..k];
      InsertAllSnoc(start, UnarchiveCandidates(project, jars[..k]), supplier);
      unarchives.Add(supplier);
    }
    assert jars[..|jars|] == jars;
  }

  /** The inner loop over the definition directories for one export. */
  method AddExportDirectories(linked: LinkedSet<DirSupplier>, kind: Path -> Kind, exportName: string, definitionDirs: seq<Path>)
    modifies linked
    ensures linked.elems == InsertAll(old(linked.elems), ExportDirectoryCandidates(kind, exportName, definitionDirs))
  {
    ghost var start := linked.elems;
    for d := 0 to |definitionDirs|
      invariant linked.elems == InsertAll(start, ExportDirectoryCandidates(kind, exportName, definitionDirs[..d]))
    {
      assert definitionDirs[..d + 1][..d] == definitionDirs[..d];
      var exportDirectory := AppendRelativePath(definitionDirs[d], exportName);
      ghost var before := ExportDirectoryCandidates(kind, exportName, definitionDirs[..d]);
      if kind(exportDirectory) != Absent {
        InsertAllSnoc(start, before, ValueSupplier(exportDirectory));
        linked.Add(ValueSupplier(exportDirectory));
      } else {
        assert before + [] == before;
      }
    }
    assert definitionDirs[..|definitionDirs|] == definitionDirs;
  }

  /** The inner loop over the unarchive suppliers for one export. */
  method AddUnarchivedExports(linked: LinkedSet<DirSupplier>, exportName: string, exportIndex: nat, unarchiveSuppliers: seq<DirSupplier>)
    modifies linked
    ensures linked.elems == InsertAll(old(linked.elems), UnarchivedExportCandidates(exportName, exportIndex, unarchiveSuppliers))
  {
    ghost var start := linked.elems;
    for u := 0 to |unarchiveSuppliers|
      invariant linked.elems == InsertAll(start, UnarchivedExportCandidates(exportName, exportIndex, unarchiveSuppliers[..u]))
    {
      assert unarchiveSuppliers[..u + 1][..u] == unarchiveSuppliers[..u];
      var supplier := UnarchivedExport(unarchiveSuppliers[u], exportName, exportIndex);
      InsertAllSnoc(start, UnarchivedExportCandidates(exportName, exportIndex, unarchiveSuppliers[..u]), supplier);
      linked.Add(supplier);
    }
    assert unarchiveSuppliers[..|unarchiveSuppliers|] == unarchiveSuppliers;
  }

  lemma CandidatesRegroup(first: seq<DirSupplier>, a: seq<DirSupplier>, b: seq<DirSupplier>, c: seq<DirSupplier>)
    ensures first + (a + b + c) == (first + a + b) + c
  {
  }

  /** One round of the export loop: adding an export's directories, then its unarchived subdirectories, extends the gathered set by that export's candidates. */
  lemma ExportRoundStep(kind: Path -> Kind, first: seq<DirSupplier>, exports: seq<string>, k: nat, definitionDirs: seq<Path>, unarchiveSuppliers: seq<DirSupplier>)
    requires k < |exports|
    ensures InsertAll(InsertAll(Dedup(first + ExportCandidates(kind, exports[..k], definitionDirs, unarchiveSuppliers)),
                                ExportDirectoryCandidates(kind, exports[k], definitionDirs)),
                      UnarchivedExportCandidates(exports[k], k, unarchiveSuppliers))
            == Dedup(first + ExportCandidates(kind, exports[..k + 1], definitionDirs, unarchiveSuppliers))
  {
    var before := ExportCandidates(kind, exports[..k], definitionDirs, unarchiveSuppliers);
    var done := first + before;
    var directories := ExportDirectoryCandidates(kind, exports[k], definitionDirs);
    var unarchived := UnarchivedExportCandidates(exports[k], k, unarchiveSuppliers);
    assert exports[..k + 1][..k] == exports[..k];
    assert ExportCandidates(kind, exports[..k + 1], definitionDirs, unarchiveSuppliers) == before + directories + unarchived;
    InsertAllAppend([], done, directories);
    InsertAllAppend([], done + directories, unarchived);
    CandidatesRegroup(first, before, directories, unarchived);
  }

  /** The block "Gather include directories": the root, then per export its directories and unarchived subdirectories. */
  method GatherIncludeDirSuppliers(kind: Path -> Kind, root: Path, exports: seq<string>, definitionDirs: seq<Path>, unarchiveSuppliers: seq<DirSupplier>)
    returns (suppliers: seq<DirSupplier>)
    ensures suppliers == Dedup(IncludeCandidates(kind, root, exports, definitionDirs, unarchiveSuppliers))
  {
    var linked := new LinkedSet<DirSupplier>();
    linked.Add(ValueSupplier(root));
    var first := [ValueSupplier(root)];
    assert linked.elems == Dedup(first + ExportCandidates(kind, exports[..0], definitionDirs, unarchiveSuppliers)) by {
      assert first + [] == first;
      assert first == [] + [ValueSupplier(root)];
      InsertAllSnoc([], [], ValueSupplier(root));
    }
    for k := 0 to |exports|
      invariant linked.elems == Dedup(first + ExportCandidates(kind, exports[..k], definitionDirs, unarchiveSuppliers))
    {
      AddExportDirectories(linked, kind, exports[k], definitionDirs);
      AddUnarchivedExports(linked, exports[k], k, unarchiveSuppliers);
      ExportRoundStep(kind, first, exports, k, definitionDirs, unarchiveSuppliers);
    }
    assert exports[..|exports|] == exports;
    suppliers := linked.elems;
  }

  /** Every directory an export loop adds by value is an existing `<definitionDir>/<export>`. */
  lemma {:induction false} ExportDirectoriesExist(kind: Path -> Kind, exports: seq<string>, definitionDirs: seq<Path>, unarchiveSuppliers: seq<DirSupplier>, s: DirSupplier)
    requires s in ExportCandidates(kind, exports, definitionDirs, unarchiveSuppliers) && s.ValueSupplier?
    ensures kind(s.value) != Absent
    ensures |s.value| > 0 && s.value[..|s.value| - 1] in definitionDirs && s.value[|s.value| - 1] in exports
    decreases |exports|
  {
    var k := |exports| - 1;
    var earlier := ExportCandidates(kind, exports[..k], definitionDirs, unarchiveSuppliers);
    var directories := ExportDirectoryCandidates(kind, exports[k], definitionDirs);
    var unarchived := UnarchivedExportCandidates(exports[k], k, unarchiveSuppliers);
    assert s in earlier + directories + unarchived;
    if s in earlier {
      ExportDirectoriesExist(kind, exports[..k], definitionDirs, unarchiveSuppliers, s);
      assert exports[..k] <= exports;
    } else if s in directories {
      ExportDirectoryExists(kind, exports[k], definitionDirs, s);
    } else {
      UnarchivedExportsAreMapped(exports[k], k, unarchiveSuppliers, s);
    }
  }

  lemma {:induction false} ExportDirectoryExists(kind: Path -> Kind, exportName: string, definitionDirs: seq<Path>, s: DirSupplier)
    requires s in ExportDirectoryCandidates(kind, exportName, definitionDirs)
    ensures s.ValueSupplier? && kind(s.value) != Absent
    ensures |s.value| > 0 && s.value[..|s.value| - 1] in definitionDirs && s.value[|s.value| - 1] == exportName
    decreases |definitionDirs|
  {
    var k := |definitionDirs| - 1;
    var earlier := ExportDirectoryCandidates(kind, exportName, definitionDirs[..k]);
    if s in earlier {
      ExportDirectoryExists(kind, exportName, definitionDirs[..k], s);
      assert definitionDirs[..k] <= definitionDirs;
    } else {
      assert s.value[..|s.value| - 1] == definitionDirs[k];
    }
  }

  lemma {:induction false} UnarchivedExportsAreMapped(exportName: string, exportIndex: nat, unarchiveSuppliers: seq<DirSupplier>, s: DirSupplier)
    requires s in UnarchivedExportCandidates(exportName, exportIndex, unarchiveSuppliers)
    ensures s.UnarchivedExport? && s.definition in unarchiveSuppliers && s.exportName == exportName
    decreases |unarchiveSuppliers|
  {
    var k := |unarchiveSuppliers| - 1;
    if s in UnarchivedExportCandidates(exportName, exportIndex, unarchiveSuppliers[..k]) {
      UnarchivedExportsAreMapped(exportName, exportIndex, unarchiveSuppliers[..k], s);
      assert unarchiveSuppliers[..k] <= unarchiveSuppliers;
    }
  }

  /**
   * The gathered include directories start with the ESV root, hold no
   * supplier twice, and name by value only the root and existing
   * `<definitionDir>/<export>` directories.
   */
  lemma IncludeDirSuppliersShape(env: Env, input: Input)
    ensures |IncludeDirSuppliers(env, input)| > 0
    ensures IncludeDirSuppliers(env, input)[0] == ValueSupplier(EsvRootDirectory(input))
    ensures NoDuplicates(IncludeDirSuppliers(env, input))
    ensures forall s :: s in IncludeDirSuppliers(env, input) && s.ValueSupplier? && s.value != EsvRootDirectory(input) ==>
      env.kind(s.value) != Absent && |s.value| > 0
      && s.value[..|s.value| - 1] in DefinitionDirectories(env, input.project) && s.value[|s.value| - 1] in env.esvExports
  {
    var root := EsvRootDirectory(input);
    var definitionDirs := DefinitionDirectories(env, input.project);
    var unarchiveSuppliers := UnarchiveSuppliers(env, input.project);
    var exported := ExportCandidates(env.kind, env.esvExports, definitionDirs, unarchiveSuppliers);
    var candidates := IncludeCandidates(env.kind, root, env.esvExports, definitionDirs, unarchiveSuppliers);
    DedupKeepsFirstInsertionOrder(candidates);
    forall s | s in IncludeDirSuppliers(env, input) && s.ValueSupplier? && s.value != root
      ensures env.kind(s.value) != Absent && |s.value| > 0
        && s.value[..|s.value| - 1] in definitionDirs && s.value[|s.value| - 1] in env.esvExports
    {
      assert s in Elements(candidates);
      assert s in exported;
      ExportDirectoriesExist(env.kind, env.esvExports, definitionDirs, unarchiveSuppliers, s);
    }
  }

  lemma {:induction false} NoExportCandidatesWithoutDefinitions(kind: Path -> Kind, exports: seq<string>)
    ensures ExportCandidates(kind, exports, [], []) == []
    decreases |exports|
  {
    if |exports| > 0 {
      NoExportCandidatesWithoutDefinitions(kind, exports[..|exports| - 1]);
    }
  }

  /** Without `includeLibSpoofax2Exports` the only include directory is the ESV root. */
  lemma RootOnlyWithoutLibSpoofax2(env: Env, input: Input)
    requires !input.project.includeLibSpoofax2Exports
    ensures IncludeDirSuppliers(env, input) == [ValueSupplier(EsvRootDirectory(input))]
  {
    var root := EsvRootDirectory(input);
    NoExportCandidatesWithoutDefinitions(env.kind, env.esvExports);
    assert IncludeCandidates(env.kind, root, env.esvExports, [], []) == [] + [ValueSupplier(root)];
    InsertAllSnoc([], [], ValueSupplier(root));
  }

  // ---------------------------------------------------------------------------
  // `ImportFunction`

  /** Reading the text of an ESV file for the parser threw an `UncheckedIOException`, or the parser answered. */
  datatype ParseAnswer = Parsed(result: Result<Term, string>) | ReadFailed(io: string)

  /** What `ExecContext.require` answers while an import is resolved. */
  datatype ImportContext = ImportContext(
    unarchive: (JarPath, Path) -> Path,
    probe: Path -> Probe,
    parse: Path -> ParseAnswer)

  /** The error `apply` returns: the parser's, or "no ESV module found" with the suppressed I/O errors. */
  datatype ImportError = ParseFailed(error: string) | NoModuleFound(message: string, suppressed: seq<string>)

  /** The directory a supplier provides when it is required. */
  function SuppliedDirectory(ctx: ImportContext, s: DirSupplier): Path {
    match s
    case ValueSupplier(p) => p
    case UnarchivedDefinition(jar, unarchiveDirectory, pathInJar, _) =>
      AppendRelativePath(ctx.unarchive(jar, unarchiveDirectory), pathInJar)
    case UnarchivedExport(definition, exportName, _) =>
      AppendRelativePath(SuppliedDirectory(ctx, definition), exportName)
  }

  /** The file `apply` looks for: `<dir>/<input>.esv`. */
  function ImportPath(ctx: ImportContext, s: DirSupplier, input: string): Path {
    EsvFile(SuppliedDirectory(ctx, s), input)
  }

  /** How the body of `apply`'s loop ends for one include directory. */
  datatype Attempt = Found(result: Result<Term, string>) | NotThere | IOFailed(io: string)

  function AttemptAt(ctx: ImportContext, s: DirSupplier, input: string): Attempt {
    var path := ImportPath(ctx, s, input);
    match ctx.probe(path)
    case ProbeFailed(io) => IOFailed(io)
    case Missing => NotThere
    case Present =>
      match ctx.parse(path)
      case ReadFailed(io) => IOFailed(io)
      case Parsed(result) => Found(result)
  }

  function NotFoundMessage(input: string): string {
    "Could not import '" + input + "', no ESV module found with that name in any import directory"
  }

  function FromParse(result: Result<Term, string>): Result<Term, ImportError> {
    match result
    case Ok(t) => Ok(t)
    case Err(e) => Err(ParseFailed(e))
  }

  /** `apply` on the directories `dirs` still to try, with the I/O errors `suppressed` so far. */
  function ApplySpec(ctx: ImportContext, dirs: seq<DirSupplier>, input: string, suppressed: seq<string>): Result<Term, ImportError>
    decreases |dirs|
  {
    if |dirs| == 0 then Err(NoModuleFound(NotFoundMessage(input), suppressed))
    else match AttemptAt(ctx, dirs[0], input)
      case Found(result) => FromParse(result)
      case NotThere => ApplySpec(ctx, dirs[1..], input, suppressed)
      case IOFailed(io) => ApplySpec(ctx, dirs[1..], input, suppressed + [io])
  }

  /** The I/O errors met on `dirs`, in order. */
  function IOErrors(ctx: ImportContext, dirs: seq<DirSupplier>, input: string): seq<string>
    decreases |dirs|
  {
    if |dirs| == 0 then []
    else match AttemptAt(ctx, dirs[0], input)
      case IOFailed(io) => [io] + IOErrors(ctx, dirs[1..], input)
      case _ => IOErrors(ctx, dirs[1..], input)
  }

  /** The first include directory holding the module decides: its parse is the answer. */
  lemma {:induction false} FirstFoundDecides(ctx: ImportContext, dirs: seq<DirSupplier>, input: string, suppressed: seq<string>, k: nat)
    requires k < |dirs| && AttemptAt(ctx, dirs[k], input).Found?
    requires forall j :: 0 <= j < k ==> !AttemptAt(ctx, dirs[j], input).Found?
    ensures ApplySpec(ctx, dirs, input, suppressed) == FromParse(AttemptAt(ctx, dirs[k], input).result)
    decreases k
  {
    if k > 0 {
      assert !AttemptAt(ctx, dirs[0], input).Found?;
      var next := if AttemptAt(ctx, dirs[0], input).IOFailed? then suppressed + [AttemptAt(ctx, dirs[0], input).io] else suppressed;
      assert ApplySpec(ctx, dirs, input, suppressed) == ApplySpec(ctx, dirs[1..], input, next);
      FirstFoundDecides(ctx, dirs[1..], input, next, k - 1);
    }
  }

  /** When no include directory holds the module, the error carries every I/O error met, in order. */
  lemma {:induction false} NothingFoundCollectsIOErrors(ctx: ImportContext, dirs: seq<DirSupplier>, input: string, suppressed: seq<string>)
    requires forall j :: 0 <= j < |dirs| ==> !AttemptAt(ctx, dirs[j], input).Found?
    ensures ApplySpec(ctx, dirs, input, suppressed) ==
      Err(NoModuleFound(NotFoundMessage(input), suppressed + IOErrors(ctx, dirs, input)))
    decreases |dirs|
  {
    if |dirs| == 0 {
      assert suppressed + [] == suppressed;
    } else {
      assert !AttemptAt(ctx, dirs[0], input).Found?;
      var rest := IOErrors(ctx, dirs[1..], input);
      match AttemptAt(ctx, dirs[0], input)
      case NotThere =>
        NothingFoundCollectsIOErrors(ctx, dirs[1..], input, suppressed);
      case IOFailed(io) =>
        NothingFoundCollectsIOErrors(ctx, dirs[1..], input, suppressed + [io]);
        assert (suppressed + [io]) + rest == suppressed + ([io] + rest);
    }
  }

  /** `apply` answers "no ESV module found" exactly when no include directory holds the module. */
  lemma {:induction false} NotFoundIffNothingFound(ctx: ImportContext, dirs: seq<DirSupplier>, input: string, suppressed: seq<string>)
    ensures (ApplySpec(ctx, dirs, input, suppressed).Err? && ApplySpec(ctx, dirs, input, suppressed).error.NoModuleFound?)
      <==> forall j :: 0 <= j < |dirs| ==> !AttemptAt(ctx, dirs[j], input).Found?
    decreases |dirs|
  {
    if |dirs| > 0 {
      var next := if AttemptAt(ctx, dirs[0], input).IOFailed? then suppressed + [AttemptAt(ctx, dirs[0], input).io] else suppressed;
      NotFoundIffNothingFound(ctx, dirs[1..], input, next);
      if AttemptAt(ctx, dirs[0], input).Found? {
        assert !(forall j :: 0 <= j < |dirs| ==> !AttemptAt(ctx, dirs[j], input).Found?);
      } else {
        assert forall j :: 1 <= j < |dirs| ==> dirs[j] == dirs[1..][j - 1];
      }
    }
  }

  /** `hashCode` of a `HashSet`: the sum of its elements' hash codes. */
  function SumHashes<T>(s: seq<T>, hash: T -> int): int
    decreases |s|
  {
    if |s| == 0 then 0 else hash(s[0]) + SumHashes(s[1..], hash)
  }

  lemma {:induction false} SumHashesRemove<T>(s: seq<T>, k: nat, hash: T -> int)
    requires k < |s|
    ensures SumHashes(s, hash) == hash(s[k]) + SumHashes(s[..k] + s[k + 1..], hash)
    decreases k
  {
    if k == 0 {
      assert s[..0] + s[1..] == s[1..];
    } else {
      var tail := s[1..];
      SumHashesRemove(tail, k - 1, hash);
      var removed := s[..k] + s[k + 1..];
      assert removed[0] == s[0];
      assert removed[1..] == tail[..k - 1] + tail[k..];
    }
  }

  /** Two duplicate-free sequences with the same elements have the same sum of hash codes. */
  lemma {:induction false} SumHashesOfSameElements<T>(a: seq<T>, b: seq<T>, hash: T -> int)
    requires NoDuplicates(a) && NoDuplicates(b) && Elements(a) == Elements(b)
    ensures SumHashes(a, hash) == SumHashes(b, hash)
    decreases |a|
  {
    assert |b| > 0 ==> b[0] in Elements(b);
    if |a| > 0 {
      var x := a[0];
      assert x in Elements(b);
      var k :| 0 <= k < |b| && b[k] == x;
      var b' := b[..k] + b[k + 1..];
      SumHashesRemove(b, k, hash);
      assert NoDuplicates(a[1..]) by {
        forall i, j | 0 <= i < j < |a[1..]| ensures a[1..][i] != a[1..][j] {
          assert a[1..][i] == a[i + 1] && a[1..][j] == a[j + 1];
        }
      }
      assert NoDuplicates(b') by {
        forall i, j | 0 <= i < j < |b'| ensures b'[i] != b'[j] {
          var i' := if i < k then i else i + 1;
          var j' := if j < k then j else j + 1;
          assert b'[i] == b[i'] && b'[j] == b[j'];
        }
      }
      assert Elements(a[1..]) == Elements(a) - {x} by {
        forall y | y in Elements(a[1..]) ensures y != x {
          var i :| 0 <= i < |a[1..]| && a[1..][i] == y;
          assert a[i + 1] == y;
        }
        assert a == [x] + a[1..];
      }
      assert Elements(b') == Elements(b) - {x} by {
        forall y | y in Elements(b') ensures y in Elements(b) && y != x {
          var i :| 0 <= i < |b'| && b'[i] == y;
          var i' := if i < k then i else i + 1;
          assert b[i'] == y;
        }
        forall y | y in Elements(b) && y != x ensures y in Elements(b') {
          var i :| 0 <= i < |b| && b[i] == y;
          assert i != k;
          if i < k {
            assert b'[i] == y;
          } else {
            assert b'[i - 1] == y;
          }
        }
      }
      SumHashesOfSameElements(a[1..], b', hash);
    }
  }

  /** `ImportFunction`: resolves an ESV import name against the include directories, in their order. */
  datatype ImportFunction = ImportFunction(includeDirSuppliers: seq<DirSupplier>) {

    /** `apply`: the parse of the first include directory holding `<input>.esv`; I/O errors are suppressed and the search goes on. */
    method Apply(ctx: ImportContext, input: string) returns (r: Result<Term, ImportError>)
      ensures r == ApplySpec(ctx, includeDirSuppliers, input, [])
    {
      var suppressed: seq<string> := [];
      for i := 0 to |includeDirSuppliers|
        invariant ApplySpec(ctx, includeDirSuppliers, input, []) == ApplySpec(ctx, includeDirSuppliers[i..], input, suppressed)
      {
        assert includeDirSuppliers[i..][1..] == includeDirSuppliers[i + 1..];
        var path := EsvFile(SuppliedDirectory(ctx, includeDirSuppliers[i]), input);
        match ctx.probe(path) {
          case ProbeFailed(io) =>
            suppressed := suppressed + [io];
          case Missing =>
          case Present =>
            match ctx.parse(path) {
              case ReadFailed(io) =>
                suppressed := suppressed + [io];
              case Parsed(result) =>
                return FromParse(result);
            }
        }
      }
      return Err(NoModuleFound(NotFoundMessage(input), suppressed));
    }

    /** `equals`: the two include-directory sets hold the same suppliers. */
    predicate Equals(that: ImportFunction): (r: bool)
      ensures r <==> forall d :: d in includeDirSuppliers <==> d in that.includeDirSuppliers
    {
      SameElements(includeDirSuppliers, that.includeDirSuppliers);
      Elements(includeDirSuppliers) == Elements(that.includeDirSuppliers)
    }

    /** `hashCode`: `Objects.hash(includeDirSuppliers)`, 31 plus the set's hash code, in `int`. */
    function HashCode(hash: DirSupplier -> int): (r: int)
      ensures -0x8000_0000 <= r < 0x8000_0000
    {
      CommonUtil.WrapInt32(31 + SumHashes(includeDirSuppliers, hash))
    }
  }

  /** Equal import functions have equal hash codes. */
  lemma EqualImportFunctionsHaveEqualHashCodes(f: ImportFunction, g: ImportFunction, hash: DirSupplier -> int)
    requires NoDuplicates(f.includeDirSuppliers) && NoDuplicates(g.includeDirSuppliers)
    requires f.Equals(g)
    ensures f.HashCode(hash) == g.HashCode(hash)
  {
    SumHashesOfSameElements(f.includeDirSuppliers, g.includeDirSuppliers, hash);
  }

  /** A context in which every file exists and parses to a module named after its directory. */
  function EverywhereContext(): ImportContext {
    ImportContext(
      (jar, dir) => dir,
      p => Present,
      p => Parsed(Ok(Appl("Module", [Str(if |p| > 0 then p[0] else "")]))))
  }

  /**
   * `equals` ignores the order of the include directories while `apply`
   * follows it: two equal import functions can resolve the same import to
   * different modules.
   */
  lemma EqualImportFunctionsCanResolveDifferently()
    ensures ImportFunction([ValueSupplier(["a"]), ValueSupplier(["b"])]).Equals(ImportFunction([ValueSupplier(["b"]), ValueSupplier(["a"])]))
    ensures ApplySpec(EverywhereContext(), [ValueSupplier(["a"]), ValueSupplier(["b"])], "m", [])
      != ApplySpec(EverywhereContext(), [ValueSupplier(["b"]), ValueSupplier(["a"])], "m", [])
  {
    var ctx := EverywhereContext();
    EsvFileSpec(["a"], "m");
    EsvFileSpec(["b"], "m");
    assert ApplySpec(ctx, [ValueSupplier(["a"]), ValueSupplier(["b"])], "m", []) == Ok(Appl("Module", [Str("a")]));
    assert ApplySpec(ctx, [ValueSupplier(["b"]), ValueSupplier(["a"])], "m", []) == Ok(Appl("Module", [Str("b")]));
  }

  // ---------------------------------------------------------------------------
  // `exec`

  /** What `exec` returns, and the aterm format file it writes and provides, if any. */
  datatype ExecResult = ExecResult(result: Result<KeyedMessages, StylerError>, output: Option<(Path, Term)>)

  function ExecSpec(env: Env, input: Input): ExecResult {
    match PreconditionFailure(env.kind, input)
    case Some(e) => ExecResult(Err(e), None)
    case None =>
      var importFunction := ImportFunction(IncludeDirSuppliers(env, input));
      var messages := env.check(EsvRootDirectory(input));
      if ContainsError(messages) then ExecResult(Err(CheckFail(messages)), None)
      else match env.compile(EsvMainFile(input), importFunction, CommonUtil.OfNone())
        case Err(cause) => ExecResult(Err(CompilerFail(cause)), None)
        case Ok(aterm) => ExecResult(Ok(messages), Some((AtermFormatOutputFile(input), aterm)))
  }

  /** The part of `ExecContext` that `exec` changes: resources written, and resources provided. */
  class ExecContext {
    var written: map<Path, Term>
    var provided: seq<Path>

    constructor()
      ensures written == map[] && provided == []
    {
      written := map[];
      provided := [];
    }

    /** `getWritableResource(path).writeString(...)`. */
    method Write(path: Path, aterm: Term)
      modifies this
      ensures written == old(written)[path := aterm] && provided == old(provided)
    {
      written := written[path := aterm];
    }

    /** `provide(resource)`. */
    method Provide(path: Path)
      modifies this
      ensures written == old(written) && provided == old(provided) + [path]
    {
      provided := provided + [path];
    }
  }

  /** `exec`: the precondition checks, gathering, the check, then compiling and writing the aterm format file. */
  method Exec(env: Env, context: ExecContext, input: Input) returns (result: Result<KeyedMessages, StylerError>)
    modifies context
    ensures result == ExecSpec(env, input).result
    ensures ExecSpec(env, input).output.None? ==>
      context.written == old(context.written) && context.provided == old(context.provided)
    ensures ExecSpec(env, input).output.Some? ==>
      var (path, aterm) := ExecSpec(env, input).output.value;
      context.written == old(context.written)[path := aterm] && context.provided == old(context.provided) + [path]
  {
    var failure := CheckPreconditions(env.kind, input);
    if failure.Some? {
      return Err(failure.value);
    }
    var definitionDirs, unarchiveSuppliers := DetermineLibSpoofax2Directories(env, input.project);
    var rootDirectory := EsvRootDirectory(input);
    var includeDirSuppliers := GatherIncludeDirSuppliers(env.kind, rootDirectory, env.esvExports, definitionDirs, unarchiveSuppliers);
    var messages := env.check(rootDirectory);
    if ContainsError(messages) {
      return Err(CheckFail(messages));
    }
    var compiled := env.compile(EsvMainFile(input), ImportFunction(includeDirSuppliers), CommonUtil.OfNone());
    if compiled.Err? {
      return Err(CompilerFail(compiled.error));
    }
    var outputFile := AtermFormatOutputFile(input);
    context.Write(outputFile, compiled.value);
    context.Provide(outputFile);
    return Ok(messages);
  }

  /** A failed precondition is returned as it is, and nothing is written. */
  lemma PreconditionFailureEndsExec(env: Env, input: Input)
    requires PreconditionFailure(env.kind, input).Some?
    ensures ExecSpec(env, input) == ExecResult(Err(PreconditionFailure(env.kind, input).value), None)
  {
  }

  /** Errors from the checker end `exec` before compilation: the compiler's answer does not matter, and nothing is written. */
  lemma CheckFailPrecedesCompilation(env: Env, input: Input, compile: (Path, ImportFunction, CommonUtil.ListView<string>) -> Result<Term, string>)
    requires PreconditionFailure(env.kind, input).None?
    requires ContainsError(env.check(EsvRootDirectory(input)))
    ensures ExecSpec(env, input) == ExecResult(Err(CheckFail(env.check(EsvRootDirectory(input)))), None)
    ensures ExecSpec(env.(compile := compile), input) == ExecSpec(env, input)
  {
  }

  /** A compile error gives `compilerFail`, and no file is written or provided. */
  lemma CompilerFailWritesNothing(env: Env, input: Input)
    requires PreconditionFailure(env.kind, input).None? && !ContainsError(env.check(EsvRootDirectory(input)))
    requires env.compile(EsvMainFile(input), ImportFunction(IncludeDirSuppliers(env, input)), CommonUtil.OfNone()).Err?
    ensures ExecSpec(env, input).result ==
      Err(CompilerFail(env.compile(EsvMainFile(input), ImportFunction(IncludeDirSuppliers(env, input)), CommonUtil.OfNone()).error))
    ensures ExecSpec(env, input).output.None?
  {
  }

  /**
   * `exec` succeeds exactly when it writes: the returned messages hold no
   * error, the compiled aterm goes to the aterm format output file, and the
   * compiler got the main file, the gathered include directories and no
   * additional ASTs.
   */
  lemma SuccessWritesAtermFile(env: Env, input: Input)
    ensures ExecSpec(env, input).result.Ok? <==> ExecSpec(env, input).output.Some?
    ensures ExecSpec(env, input).result.Ok? ==>
      var compiled := env.compile(EsvMainFile(input), ImportFunction(IncludeDirSuppliers(env, input)), CommonUtil.OfNone());
      && PreconditionFailure(env.kind, input).None?
      && ExecSpec(env, input).result.value == env.check(EsvRootDirectory(input))
      && !ContainsError(ExecSpec(env, input).result.value)
      && compiled.Ok?
      && ExecSpec(env, input).output == Some((AtermFormatOutputFile(input), compiled.value))
  {
  }

  /**
   * The include directories of the input are only checked for existence:
   * once the checks pass, `exec` does not depend on them, nor on the
   * additional AST suppliers.
   */
  lemma IncludeDirsAndAstSuppliersOnlyChecked(env: Env, input: Input, includeDirs: seq<Path>, astSuppliers: seq<string>)
    requires PreconditionFailure(env.kind, input).None?
    requires PreconditionFailure(env.kind, input.(esvIncludeDirs := includeDirs)).None?
    ensures ExecSpec(env, input.(esvIncludeDirs := includeDirs, esvAdditionalAstSuppliers := astSuppliers)) == ExecSpec(env, input)
  {
    var other := input.(esvIncludeDirs := includeDirs, esvAdditionalAstSuppliers := astSuppliers);
    assert EsvRootDirectory(other) == EsvRootDirectory(input);
    assert EsvMainFile(other) == EsvMainFile(input);
    assert PreconditionFailure(env.kind, other) == PreconditionFailure(env.kind, input.(esvIncludeDirs := includeDirs));
  }
}
