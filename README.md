# Spoofax 3 ESV styling, CFG decoding and list views in Dafny

This project models four pieces of the Spoofax 3 language workbench and proves properties about them.

- **`EsvVisitor`** (module `EsvVisitor`) walks ESV modules depth-first along
  their imports.
  - A seen-set of module names short-circuits cyclic imports.
  - Each import is resolved against the include directories first, then the
    include AST suppliers. The first hit wins.
  - Every `accept*` callback is recorded in an event log.
  - The walk is given twice. `VisitSpec` and its companions are recursive
    functions over values. The class `Visitor` runs the same loops over a
    mutable `SeenModules` set and an event-log field. Each of its methods is
    proved equal to the function it implements.
- **`AstToObject`** (module `AstToObject`) holds the CFG decoders from
  constructor terms to the enums `CommandExecutionType`, `CommandContextType`
  and `EnclosingCommandContextType`, and to argument providers. It also holds
  the shape checks of `convert` and its `JavaPackageIdPrefix` rule.
- **`Spoofax3StylerLanguageCompiler`** (module of the same name) is the task
  behind the ESV styler. It covers:
  - the `Input` defaults;
  - the ordered checks at the start of `exec`;
  - the gathering of the include directories into a `LinkedHashSet`, modelled
    by the class `LinkedSet`;
  - `ImportFunction` (`apply`, `equals`, `hashCode`);
  - `exec` itself, run against an `ExecContext` object that records what is
    written and provided.
- **`ListView`** (module `CommonUtil`) is a read-only view over a list.
  - The `of` factories, `get`, `indexOf`, `lastIndexOf`, `subList`, `equals`
    and `hashCode` are functions on a `seq`.
  - `listIterator` returns a `ViewIterator` object with a mutable cursor.

The shared modules are:
- `Wrappers`: `Option` and `Result`;
- `Terms`: Stratego terms, either `Appl`, `Str` or `Lst`;
- `Paths`: resource paths as sequences of segments, with `appendRelativePath`, `getLeaf` and `ensureLeafExtension`;
- `Seqs`: the element set of a sequence, and duplicate-freedom.

The incremental build engine PIE is only used by this code, never defined in it. Every answer of `ExecContext.require` is therefore an argument: a deterministic function held in a context value (`EsvVisitor.Context`, `Spoofax3StylerLanguageCompiler.Env`, `Spoofax3StylerLanguageCompiler.ImportContext`). Those functions answer:
- what a supplier supplies;
- whether a resource exists, and of what kind;
- what a parse, check or compile task returns.

Three helpers are used but are not part of this model: `EsvUtil`, `TermUtils` and the `mb.resource` path classes. The model assumes what their names and uses say:
- a module term is `Module(name, imports, sections)`, with the name a string;
- an imports term is `Imports(list)`, and an import term is `Import(name)`;
- `TermUtils.asJavaStringAt(t, i)` and `asListAt(t, i)` answer "absent" both for a subterm of the wrong kind and for an index past the last subterm, so both cases take the same `InvalidAstShapeException` or empty-optional branch. Only a direct `getSubterm(0)` is modelled as the index error `SubtermIndexOutOfBounds`. If those helpers index first, a term without subterms throws an `IndexOutOfBoundsException` in Java instead;
- `appendRelativePath(s)` appends `s` as one segment;
- `ensureLeafExtension("esv")` keeps a leaf that already ends in `.esv` and appends `.esv` otherwise.

The model also assumes three things about Java semantics:
- A supplier made with `map` and a lambda is equal only to itself. The model gives each such supplier the loop index at which it was made (`DirSupplier`), so structural equality coincides with object identity.
- `ImportFunction` receives the `LinkedHashSet` of the include directories as its `HashSet`, so `apply` iterates in insertion order.
- Java `int` arithmetic in hash codes is written out as 32-bit wrap-around (`CommonUtil.WrapInt32`).

`EsvVisitor` recursion has a depth bound. The seen-set holds module names, but the check before resolving compares it with import names. When those differ, the Java visitor can re-resolve the same file forever. The model therefore gives every visit a bound that stands for the JVM call stack; exceeding it throws `DepthExceeded`.

The once-only and termination lemmas assume that the imports met lie in a finite set `names` that is closed under resolution (`ResolvesByNameWithin`). Every readable import name of the root module is in `names`. An import named in `names` that resolves, resolves to a module with that name whose own import names are again in `names`. Names outside the set are not constrained. This matters because the import names `X` and `X.esv` both find the file `<dir>/X.esv`, and a module can be named like only one of them. Four lemmas state the sides:
- `VisitTerminatesWhenModulesNamedLikeImports`: under the hypothesis, a bound of `|names|` is never exceeded;
- `DirectoryResolvedCycleEnds`: an include directory that resolves a cyclic self-import meets the hypothesis, and the walk ends;
- `MisnamedModuleNeverEnds`: a module `Y` in `X.esv` that imports `X` exceeds every bound;
- `FileNameImportNeverEnds`: a module `X` in `X.esv` that imports `X.esv` exceeds every bound too, although its name matches its file.

## Model

| member | source | states |
|---|---|---|
| EsvVisitor.VisitSpec | lwb/metalang/esv/esv/src/main/java/mb/esv/util/EsvVisitor.java:69-85 | Private `visitAst`. A term that is not `Module/3` throws before any callback fires and leaves the seen-set unchanged. The seen-set only grows. |
| EsvVisitor.AcceptAstComesFirst | lwb/metalang/esv/esv/src/main/java/mb/esv/util/EsvVisitor.java:75-78 | Pre-order. A module's own `acceptAst` is the first callback of its visit, and its name is in the seen-set afterwards. |
| EsvVisitor.VisitImportsSpec | lwb/metalang/esv/esv/src/main/java/mb/esv/util/EsvVisitor.java:79-83 | The import loop never removes a name from the seen-set. |
| EsvVisitor.ParseResolution | lwb/metalang/esv/esv/src/main/java/mb/esv/util/EsvVisitor.java:120-134 | Parsing a found import file fires exactly one callback and never aborts the search. A parse error gives `acceptParseFail` with that error and no import. A success gives `acceptParse` with the output and resolves to the output's AST. |
| EsvVisitor.ResolveAstsSpec | lwb/metalang/esv/esv/src/main/java/mb/esv/util/EsvVisitor.java:104-117 | An AST supplier resolves an import only with a module named like the import. The only way it aborts is an unreadable module name. |
| EsvVisitor.ResolveSpec | lwb/metalang/esv/esv/src/main/java/mb/esv/util/EsvVisitor.java:87-118 | Resolution aborts only on an unreadable name or an `UncheckedIOException` from an existence check. |
| EsvVisitor.VisitedNamesAppend | lwb/metalang/esv/esv/src/main/java/mb/esv/util/EsvVisitor.java:75 | The modules visited by two consecutive stretches of the event log are those of the first stretch, then those of the second. |
| EsvVisitor.FirstDirectoryDecides | lwb/metalang/esv/esv/src/main/java/mb/esv/util/EsvVisitor.java:88-103 | The first include directory whose `<dir>/<name>.esv` exists, or whose check throws, decides the result. Only the supply failures before it are reported. No later directory or AST supplier is consulted. |
| EsvVisitor.DirectorySupplyFailStep | lwb/metalang/esv/esv/src/main/java/mb/esv/util/EsvVisitor.java:90-93 | A failing include-directory supplier is reported to `acceptIncludeDirectorySupplyFail`, and the search goes on. |
| EsvVisitor.DirectoryMissingStep | lwb/metalang/esv/esv/src/main/java/mb/esv/util/EsvVisitor.java:95-98 | A directory without `<name>.esv` is skipped silently. |
| EsvVisitor.AllDirectoriesMissFallsBackToAsts | lwb/metalang/esv/esv/src/main/java/mb/esv/util/EsvVisitor.java:88-104 | When every include directory misses, the AST suppliers decide, after the directory failure callbacks in order. |
| EsvVisitor.FirstNamedAstWins | lwb/metalang/esv/esv/src/main/java/mb/esv/util/EsvVisitor.java:104-114 | The first AST supplier whose module is named like the import resolves it. The supply failures before it are reported in order. |
| EsvVisitor.AllAstsMiss | lwb/metalang/esv/esv/src/main/java/mb/esv/util/EsvVisitor.java:104-117 | When every AST supplier misses, the failures are reported, then `acceptUnresolvedImport` once, and nothing is resolved. |
| EsvVisitor.UnresolvedImportReportedOnce | lwb/metalang/esv/esv/src/main/java/mb/esv/util/EsvVisitor.java:116-117 | When no source resolves an import, its callbacks are exactly the supply failures and one `acceptUnresolvedImport`, and the import yields `None`. |
| EsvVisitor.ResolveAstsFiresNoAcceptAst | lwb/metalang/esv/esv/src/main/java/mb/esv/util/EsvVisitor.java:104-117 | Searching the AST suppliers visits no module. |
| EsvVisitor.ResolveFiresNoAcceptAst | lwb/metalang/esv/esv/src/main/java/mb/esv/util/EsvVisitor.java:87-118 | Resolving an import visits no module. |
| EsvVisitor.VisitRecordsSeen | lwb/metalang/esv/esv/src/main/java/mb/esv/util/EsvVisitor.java:75-76 | After a visit, the seen-set is the old one plus exactly the names of the modules whose `acceptAst` fired. |
| EsvVisitor.VisitImportsRecordsSeen | lwb/metalang/esv/esv/src/main/java/mb/esv/util/EsvVisitor.java:79-83 | The same holds for the import loop. |
| EsvVisitor.PrependedVisitRecordsSeen | lwb/metalang/esv/esv/src/main/java/mb/esv/util/EsvVisitor.java:75-76 | `acceptAst` of `m`, followed by a walk from `seen + {m}`, records what it visits. |
| EsvVisitor.SequencedVisitsRecordSeen | lwb/metalang/esv/esv/src/main/java/mb/esv/util/EsvVisitor.java:82 | A resolution, a visit, then the rest of the loop together record what they visit. |
| EsvVisitor.FirstImportWithin | lwb/metalang/esv/esv/src/main/java/mb/esv/util/EsvVisitor.java:79-82 | Within a closed set of import names, the loop's first import is in the set, resolves to a module named like it whose imports are in the set, and the remaining imports stay in the set. |
| EsvVisitor.VisitVisitsEachModuleOnce | lwb/metalang/esv/esv/src/main/java/mb/esv/util/EsvVisitor.java:75-83 | Let the imports met lie in a set of names closed under resolution by name, directory or AST supplier alike, and the root's name be unseen. Then no module name is visited twice, and no name already seen is visited. |
| EsvVisitor.VisitImportsVisitsEachModuleOnce | lwb/metalang/esv/esv/src/main/java/mb/esv/util/EsvVisitor.java:79-83 | The same holds for an import loop whose import names lie in the closed set, thanks to the seen-set check at line 81. |
| EsvVisitor.VisitImportsResolvedStep | lwb/metalang/esv/esv/src/main/java/mb/esv/util/EsvVisitor.java:82 | The callbacks of a resolved, visited import are those of its resolution, then of its visit, then of the rest of the loop. |
| EsvVisitor.ImportedModuleVisitedOnce | lwb/metalang/esv/esv/src/main/java/mb/esv/util/EsvVisitor.java:81-82 | Within the closed set, an imported module's visit keeps the once-only property of the loop. |
| EsvVisitor.ImportedModuleThenRestOnce | lwb/metalang/esv/esv/src/main/java/mb/esv/util/EsvVisitor.java:79-83 | Within the closed set, an imported module's visit, followed by the rest of the loop from the grown seen-set, visits no name twice. |
| EsvVisitor.SequencedVisitsOnce | lwb/metalang/esv/esv/src/main/java/mb/esv/util/EsvVisitor.java:82 | Two stretches of the walk that share the seen-set visit no name twice. |
| EsvVisitor.DisjointVisitsCombine | lwb/metalang/esv/esv/src/main/java/mb/esv/util/EsvVisitor.java:81 | Two walks, the second starting from the seen-set the first ended with, together visit no name twice. |
| EsvVisitor.NoVisitsPrefix | lwb/metalang/esv/esv/src/main/java/mb/esv/util/EsvVisitor.java:82 | Callbacks that visit no module do not change the visit order. |
| EsvVisitor.VisitStaysWithinDepth | lwb/metalang/esv/esv/src/main/java/mb/esv/util/EsvVisitor.java:75-83 | Let the module's imports lie in a set `names` closed under resolution by name. Then a bound of the number of unseen names in `names` is never exceeded. |
| EsvVisitor.VisitImportsStaysWithinDepth | lwb/metalang/esv/esv/src/main/java/mb/esv/util/EsvVisitor.java:79-83 | The same holds for an import loop whose import names lie in `names`. |
| EsvVisitor.VisitTerminatesWhenModulesNamedLikeImports | lwb/metalang/esv/esv/src/main/java/mb/esv/util/EsvVisitor.java:61-67 | The public `visitAst` starts from an empty seen-set. When the imports met lie in a closed set `names`, it terminates on cyclic imports within a bound of `|names|`, whether include directories or AST suppliers resolve them. |
| EsvVisitor.MisnamedModuleNeverEnds | lwb/metalang/esv/esv/src/main/java/mb/esv/util/EsvVisitor.java:76-82 | A module `Y` in `X.esv` that imports `X` makes the walk exceed every depth bound, because the seen-set holds `Y` and never `X`. |
| EsvVisitor.FileNameImportNeverEnds | lwb/metalang/esv/esv/src/main/java/mb/esv/util/EsvVisitor.java:76-101 | A module `X` in `X.esv` that imports `X.esv` exceeds every depth bound as well. The directory search finds the same file, and the seen-set holds `X` and never the import name `X.esv`. |
| EsvVisitor.DirectoryResolvedCycleEnds | lwb/metalang/esv/esv/src/main/java/mb/esv/util/EsvVisitor.java:75-101 | A module `X` in an include directory's `X.esv` that imports `X` is resolved by that directory. `{X}` is closed there, so the walk visits `X` once and stays within a bound of 1. |
| EsvVisitor.SeenModules.Add | lwb/metalang/esv/esv/src/main/java/mb/esv/util/EsvVisitor.java:76 | `seenModules.add`: the set gains exactly the name. |
| EsvVisitor.SeenModules.Contains | lwb/metalang/esv/esv/src/main/java/mb/esv/util/EsvVisitor.java:81 | `seenModules.contains` answers membership. |
| EsvVisitor.Visitor.constructor | lwb/metalang/esv/esv/src/main/java/mb/esv/util/EsvVisitor.java:54-67 | A visitor holds its two supplier lists and an empty callback log. |
| EsvVisitor.Visitor.Parse | lwb/metalang/esv/esv/src/main/java/mb/esv/util/EsvVisitor.java:120-134 | `parse` appends `acceptParseFail` or `acceptParse` to the log and returns no AST or the output's AST. |
| EsvVisitor.Visitor.ResolveImport | lwb/metalang/esv/esv/src/main/java/mb/esv/util/EsvVisitor.java:87-118 | The two loops of `resolveImport` append exactly the callbacks of `ResolveSpec` and return its resolution. |
| EsvVisitor.Visitor.SearchIncludeDirectories | lwb/metalang/esv/esv/src/main/java/mb/esv/util/EsvVisitor.java:88-103 | The include-directory loop either decides as `ResolveSpec` does, or falls through to the AST suppliers after logging the directory failures. |
| EsvVisitor.Visitor.SearchIncludeAsts | lwb/metalang/esv/esv/src/main/java/mb/esv/util/EsvVisitor.java:104-117 | The AST-supplier loop logs and returns what `ResolveAstsSpec` states. |
| EsvVisitor.Visitor.VisitAstWith | lwb/metalang/esv/esv/src/main/java/mb/esv/util/EsvVisitor.java:69-85 | The private `visitAst` on the shared mutable seen-set leaves the log, the set and the outcome as `VisitSpec` states. |
| EsvVisitor.Visitor.VisitImports | lwb/metalang/esv/esv/src/main/java/mb/esv/util/EsvVisitor.java:79-83 | The import `for` loop agrees with `VisitImportsSpec`. |
| EsvVisitor.Visitor.VisitImportAt | lwb/metalang/esv/esv/src/main/java/mb/esv/util/EsvVisitor.java:80-82 | One iteration of the import loop, including the `continue` taken for a seen import, agrees with `VisitImportsSpec` on the remaining imports. |
| EsvVisitor.Visitor.VisitUnseenImport | lwb/metalang/esv/esv/src/main/java/mb/esv/util/EsvVisitor.java:82 | Resolving an unseen import and visiting what it resolves to agrees with `VisitImportsSpec`. |
| EsvVisitor.Visitor.VisitResolvedImport | lwb/metalang/esv/esv/src/main/java/mb/esv/util/EsvVisitor.java:82 | Visiting a resolved import and going on with the loop agrees with `VisitImportsSpec`. |
| EsvVisitor.Visitor.VisitAst | lwb/metalang/esv/esv/src/main/java/mb/esv/util/EsvVisitor.java:61-67 | The public `visitAst` starts from a fresh, empty seen-set and behaves as `VisitSpec` from `{}`. |
| EsvVisitor.Visitor.VisitMainFile | lwb/metalang/esv/esv/src/main/java/mb/esv/util/EsvVisitor.java:54-59 | `visitMainFile` parses the main file and, only if that succeeds, visits it with an empty seen-set. |
| Paths.AppendRelativePath | lwb/metalang/esv/esv/src/main/java/mb/esv/util/EsvVisitor.java:95 | The appended path is the old path plus exactly one segment. |
| Paths.Leaf | lwb/spoofax.compiler.spoofax3/src/main/java/mb/spoofax/compiler/spoofax3/language/Spoofax3StylerLanguageCompiler.java:98 | A path has a leaf iff it is not empty, and the leaf is its last segment. |
| Paths.EnsureLeafExtensionSpec | lwb/metalang/esv/esv/src/main/java/mb/esv/util/EsvVisitor.java:95 | `ensureLeafExtension` changes only the leaf, and the new leaf ends in the extension. |
| Paths.EnsureLeafExtensionIdempotent | lwb/metalang/esv/esv/src/main/java/mb/esv/util/EsvVisitor.java:95 | Ensuring an extension twice is ensuring it once. |
| Paths.EsvFileSpec | lwb/spoofax.compiler.spoofax3/src/main/java/mb/spoofax/compiler/spoofax3/language/Spoofax3StylerLanguageCompiler.java:198 | `<dir>/<name>.esv` lies directly in `dir`, and its leaf is the name with `.esv`. |
| AstToObject.ToCommandExecutionType | lwb/metalang/cfg/cfg/src/main/java/mb/cfg/task/AstToObject.java:261-273 | Decoding succeeds iff the term is an application of `ManualOnce`, `ManualContinuous` or `AutomaticContinuous`, and yields the like-named value. A non-application and any other constructor throw `InvalidAstShapeException` with their own messages. |
| AstToObject.ToCommandContextType | lwb/metalang/cfg/cfg/src/main/java/mb/cfg/task/AstToObject.java:275-295 | Decoding succeeds iff the term is an application of one of the seven `*Context` constructors, and yields its value. It throws otherwise. |
| AstToObject.ToEnclosingCommandContextType | lwb/metalang/cfg/cfg/src/main/java/mb/cfg/task/AstToObject.java:297-307 | Only `ProjectEnclosingContext` and `DirectoryEnclosingContext` decode. Everything else throws. |
| AstToObject.FirstSubterm | lwb/metalang/cfg/cfg/src/main/java/mb/cfg/task/AstToObject.java:315-317 | `appl.getSubterm(0)` succeeds iff the application has an argument, and then yields the first one. |
| AstToObject.ToParameterArgumentProvider | lwb/metalang/cfg/cfg/src/main/java/mb/cfg/task/AstToObject.java:309-321 | `ValueArgumentProvider` yields `value(s)` when its first subterm is a string, and throws otherwise. The two context providers pass their first subterm to the matching decoder and return its value or its error. Without a first subterm they fail as `getSubterm(0)` does, with an index error. Unknown constructors and non-applications throw. |
| AstToObject.DecodersInvertConstructors | lwb/metalang/cfg/cfg/src/main/java/mb/cfg/task/AstToObject.java:261-307 | Each enum value's constructor decodes back to that value, whatever its arguments. |
| AstToObject.ContextConstructorsDistinct | lwb/metalang/cfg/cfg/src/main/java/mb/cfg/task/AstToObject.java:275-295 | The seven context constructors are distinct and map to seven distinct values. |
| AstToObject.ProviderRoundTrip | lwb/metalang/cfg/cfg/src/main/java/mb/cfg/task/AstToObject.java:309-321 | Every argument provider decodes back from its CFG term. |
| AstToObject.ProviderDecodeDeterminesTerm | lwb/metalang/cfg/cfg/src/main/java/mb/cfg/task/AstToObject.java:309-321 | A successful decode fixes the constructor and the decoded first subterm of the term. |
| AstToObject.DecodeInOrder | lwb/metalang/cfg/cfg/src/main/java/mb/cfg/task/AstToObject.java:211-226 | A list of terms is decoded in source order. The result lists every decoded value at its position, or the error of the first term that fails. |
| AstToObject.DecodeSupportedExecutionTypes | lwb/metalang/cfg/cfg/src/main/java/mb/cfg/task/AstToObject.java:211-213 | The supported execution types decode iff every term is one of the three execution-type constructors. The types then keep source order, and otherwise the first bad term's error is thrown. |
| AstToObject.DecodeParameterArgumentProviders | lwb/metalang/cfg/cfg/src/main/java/mb/cfg/task/AstToObject.java:223-226 | A parameter's argument providers decode iff each provider term does. They then keep source order, each the decode of the term at its position, and otherwise the first failing term's error is thrown. |
| AstToObject.PartList | lwb/metalang/cfg/cfg/src/main/java/mb/cfg/task/AstToObject.java:74 | `convert` accepts an AST iff its first subterm is a list. Otherwise it throws "part list as first subterm". |
| AstToObject.ParameterHeader | lwb/metalang/cfg/cfg/src/main/java/mb/cfg/task/AstToObject.java:217-219 | A `Parameter` needs a string id first and a property list second. Each is checked in that order, with its own message. |
| AstToObject.NormalizePackageIdPrefix | lwb/metalang/cfg/cfg/src/main/java/mb/cfg/task/AstToObject.java:83-89 | The normalised prefix always ends in ".". It is the prefix itself if that already did, and otherwise the prefix plus ".". |
| AstToObject.NormalizePackageIdPrefixIdempotent | lwb/metalang/cfg/cfg/src/main/java/mb/cfg/task/AstToObject.java:83-89 | Normalisation is idempotent, and its result extends the prefix by at most one character. |
| Spoofax3StylerLanguageCompiler.EsvRootDirectory | lwb/spoofax.compiler.spoofax3/src/main/java/mb/spoofax/compiler/spoofax3/language/Spoofax3StylerLanguageCompiler.java:150-152 | The root directory defaults to `<srcMainDirectory>/esv`. |
| Spoofax3StylerLanguageCompiler.EsvMainFile | lwb/spoofax.compiler.spoofax3/src/main/java/mb/spoofax/compiler/spoofax3/language/Spoofax3StylerLanguageCompiler.java:154-156 | The main file defaults to `main.esv` in the root directory. |
| Spoofax3StylerLanguageCompiler.EsvAtermFormatFileRelativePath | lwb/spoofax.compiler.spoofax3/src/main/java/mb/spoofax/compiler/spoofax3/language/Spoofax3StylerLanguageCompiler.java:163-165 | The relative path defaults to `editor.esv.af`. |
| Spoofax3StylerLanguageCompiler.AtermFormatOutputFile | lwb/spoofax.compiler.spoofax3/src/main/java/mb/spoofax/compiler/spoofax3/language/Spoofax3StylerLanguageCompiler.java:167-172 | The output file is `<generatedResources>/<packagePath>/<relativePath>`: two segments under the generated-resources directory, the package path, then the relative path as its leaf. |
| Spoofax3StylerLanguageCompiler.DefaultLayout | lwb/spoofax.compiler.spoofax3/src/main/java/mb/spoofax/compiler/spoofax3/language/Spoofax3StylerLanguageCompiler.java:154-172 | With the defaults, the main file is the ESV file of module `main` in the root. The output is `<generatedResources>/<packagePath>/editor.esv.af`. |
| Spoofax3StylerLanguageCompiler.FirstNonDirectory | lwb/spoofax.compiler.spoofax3/src/main/java/mb/spoofax/compiler/spoofax3/language/Spoofax3StylerLanguageCompiler.java:82-87 | Finds the first include directory that is not an existing directory; every one before it is. None is found iff all are directories. |
| Spoofax3StylerLanguageCompiler.CheckPreconditions | lwb/spoofax.compiler.spoofax3/src/main/java/mb/spoofax/compiler/spoofax3/language/Spoofax3StylerLanguageCompiler.java:74-87 | The checks of `exec`, with its `for` loop over the include directories, return exactly the failure described by `PreconditionFailure`. |
| Spoofax3StylerLanguageCompiler.PreconditionsInOrder | lwb/spoofax.compiler.spoofax3/src/main/java/mb/spoofax/compiler/spoofax3/language/Spoofax3StylerLanguageCompiler.java:74-87 | `mainFileFail` is returned iff the main file is not an existing file. `rootDirectoryFail` iff the main file is fine and the root is not an existing directory. No failure iff all checks pass. |
| Spoofax3StylerLanguageCompiler.FirstBadIncludeDirectoryReported | lwb/spoofax.compiler.spoofax3/src/main/java/mb/spoofax/compiler/spoofax3/language/Spoofax3StylerLanguageCompiler.java:82-87 | With the main file and root in order, the first include directory that is not a directory is the one `includeDirectoryFail` names. |
| Spoofax3StylerLanguageCompiler.InsertAllSnoc | lwb/spoofax.compiler.spoofax3/src/main/java/mb/spoofax/compiler/spoofax3/language/Spoofax3StylerLanguageCompiler.java:90 | Adding one more element to a `LinkedHashSet` is an `add` after the earlier ones. |
| Spoofax3StylerLanguageCompiler.InsertAllAppend | lwb/spoofax.compiler.spoofax3/src/main/java/mb/spoofax/compiler/spoofax3/language/Spoofax3StylerLanguageCompiler.java:90 | Adding `a + b` is adding `a`, then `b`. |
| Spoofax3StylerLanguageCompiler.InsertAllElements | lwb/spoofax.compiler.spoofax3/src/main/java/mb/spoofax/compiler/spoofax3/language/Spoofax3StylerLanguageCompiler.java:90 | A `LinkedHashSet` holds exactly the old elements and the added ones. |
| Spoofax3StylerLanguageCompiler.InsertAllNoDuplicates | lwb/spoofax.compiler.spoofax3/src/main/java/mb/spoofax/compiler/spoofax3/language/Spoofax3StylerLanguageCompiler.java:90 | Adding never creates a duplicate. |
| Spoofax3StylerLanguageCompiler.InsertAllKeepsPrefix | lwb/spoofax.compiler.spoofax3/src/main/java/mb/spoofax/compiler/spoofax3/language/Spoofax3StylerLanguageCompiler.java:90 | Adding never moves or removes an element that is already there. |
| Spoofax3StylerLanguageCompiler.FirstIndexSnoc | lwb/spoofax.compiler.spoofax3/src/main/java/mb/spoofax/compiler/spoofax3/language/Spoofax3StylerLanguageCompiler.java:90 | A later insertion does not change where an element was first inserted, measured by `CommonUtil.FirstIndex` (`indexOf`). |
| Spoofax3StylerLanguageCompiler.DedupKeepsFirstInsertionOrder | lwb/spoofax.compiler.spoofax3/src/main/java/mb/spoofax/compiler/spoofax3/language/Spoofax3StylerLanguageCompiler.java:90 | A `LinkedHashSet` filled from `t` has no duplicates and exactly the elements of `t`. It starts with `t`'s first element and orders elements by first insertion. |
| Spoofax3StylerLanguageCompiler.LinkedSet.constructor | lwb/spoofax.compiler.spoofax3/src/main/java/mb/spoofax/compiler/spoofax3/language/Spoofax3StylerLanguageCompiler.java:90-91 | A new `LinkedHashSet` is empty. |
| Spoofax3StylerLanguageCompiler.LinkedSet.Add | lwb/spoofax.compiler.spoofax3/src/main/java/mb/spoofax/compiler/spoofax3/language/Spoofax3StylerLanguageCompiler.java:99-102 | `add` appends the element unless it is already present. |
| Spoofax3StylerLanguageCompiler.LinkedSet.AddAll | lwb/spoofax.compiler.spoofax3/src/main/java/mb/spoofax/compiler/spoofax3/language/Spoofax3StylerLanguageCompiler.java:94 | `addAll` adds each element in turn. |
| Spoofax3StylerLanguageCompiler.DetermineLibSpoofax2Directories | lwb/spoofax.compiler.spoofax3/src/main/java/mb/spoofax/compiler/spoofax3/language/Spoofax3StylerLanguageCompiler.java:89-104 | The definition directories and unarchive suppliers are the deduplicated class-loader directories, and one supplier per JAR file. Both are empty without `includeLibSpoofax2Exports`. |
| Spoofax3StylerLanguageCompiler.AddUnarchiveSuppliers | lwb/spoofax.compiler.spoofax3/src/main/java/mb/spoofax/compiler/spoofax3/language/Spoofax3StylerLanguageCompiler.java:95-103 | The JAR loop adds, in JAR order, a supplier per JAR file. Each unarchives into `<unarchiveDirectory>/libspoofax2/<jar leaf>` and maps to the path inside the JAR. |
| Spoofax3StylerLanguageCompiler.AddExportDirectories | lwb/spoofax.compiler.spoofax3/src/main/java/mb/spoofax/compiler/spoofax3/language/Spoofax3StylerLanguageCompiler.java:110-115 | For one export, the loop adds the existing `<definitionDir>/<export>` directories in order. |
| Spoofax3StylerLanguageCompiler.AddUnarchivedExports | lwb/spoofax.compiler.spoofax3/src/main/java/mb/spoofax/compiler/spoofax3/language/Spoofax3StylerLanguageCompiler.java:116-118 | For one export, the loop adds each unarchive supplier mapped to `<export>`. |
| Spoofax3StylerLanguageCompiler.GatherIncludeDirSuppliers | lwb/spoofax.compiler.spoofax3/src/main/java/mb/spoofax/compiler/spoofax3/language/Spoofax3StylerLanguageCompiler.java:106-119 | The gathered set is the deduplication of: the root, then per export its existing directories and its unarchived subdirectories. |
| Spoofax3StylerLanguageCompiler.ExportDirectoriesExist | lwb/spoofax.compiler.spoofax3/src/main/java/mb/spoofax/compiler/spoofax3/language/Spoofax3StylerLanguageCompiler.java:109-115 | Every directory the export loop adds by value exists and is `<definitionDir>/<export>` for a definition directory and an export. |
| Spoofax3StylerLanguageCompiler.ExportDirectoryExists | lwb/spoofax.compiler.spoofax3/src/main/java/mb/spoofax/compiler/spoofax3/language/Spoofax3StylerLanguageCompiler.java:110-115 | The same holds for the directories of one export. |
| Spoofax3StylerLanguageCompiler.UnarchivedExportsAreMapped | lwb/spoofax.compiler.spoofax3/src/main/java/mb/spoofax/compiler/spoofax3/language/Spoofax3StylerLanguageCompiler.java:116-118 | Every supplier the inner loop adds maps one of the unarchive suppliers to the export. |
| Spoofax3StylerLanguageCompiler.IncludeDirSuppliersShape | lwb/spoofax.compiler.spoofax3/src/main/java/mb/spoofax/compiler/spoofax3/language/Spoofax3StylerLanguageCompiler.java:90-119 | The include directories start with the ESV root and hold no duplicates. Every other directory given by value exists and is an export subdirectory. |
| Spoofax3StylerLanguageCompiler.NoExportCandidatesWithoutDefinitions | lwb/spoofax.compiler.spoofax3/src/main/java/mb/spoofax/compiler/spoofax3/language/Spoofax3StylerLanguageCompiler.java:109-119 | Without definition directories and unarchive suppliers, the export loop adds nothing. |
| Spoofax3StylerLanguageCompiler.RootOnlyWithoutLibSpoofax2 | lwb/spoofax.compiler.spoofax3/src/main/java/mb/spoofax/compiler/spoofax3/language/Spoofax3StylerLanguageCompiler.java:92-119 | Without `includeLibSpoofax2Exports`, the only include directory is the ESV root. |
| Spoofax3StylerLanguageCompiler.FirstFoundDecides | lwb/spoofax.compiler.spoofax3/src/main/java/mb/spoofax/compiler/spoofax3/language/Spoofax3StylerLanguageCompiler.java:197-209 | `apply` returns the parse, success or error, of the first include directory where `<dir>/<input>.esv` exists and can be read. |
| Spoofax3StylerLanguageCompiler.NothingFoundCollectsIOErrors | lwb/spoofax.compiler.spoofax3/src/main/java/mb/spoofax/compiler/spoofax3/language/Spoofax3StylerLanguageCompiler.java:196-218 | When no directory holds the module, `apply` returns "Could not import ..." with every I/O error collected on the way suppressed, in order. |
| Spoofax3StylerLanguageCompiler.NotFoundIffNothingFound | lwb/spoofax.compiler.spoofax3/src/main/java/mb/spoofax/compiler/spoofax3/language/Spoofax3StylerLanguageCompiler.java:197-218 | `apply` answers "no ESV module found" exactly when no include directory holds a readable module. |
| Spoofax3StylerLanguageCompiler.SumHashesRemove | lwb/spoofax.compiler.spoofax3/src/main/java/mb/spoofax/compiler/spoofax3/language/Spoofax3StylerLanguageCompiler.java:228-230 | A set's hash sum is one element's hash plus the sum over the others. |
| Spoofax3StylerLanguageCompiler.SumHashesOfSameElements | lwb/spoofax.compiler.spoofax3/src/main/java/mb/spoofax/compiler/spoofax3/language/Spoofax3StylerLanguageCompiler.java:228-230 | The hash sum of a set does not depend on iteration order. |
| Spoofax3StylerLanguageCompiler.ImportFunction.Apply | lwb/spoofax.compiler.spoofax3/src/main/java/mb/spoofax/compiler/spoofax3/language/Spoofax3StylerLanguageCompiler.java:195-219 | The `for` loop with its suppressed-exception list returns what the first-match search `ApplySpec` describes. |
| Spoofax3StylerLanguageCompiler.ImportFunction.Equals | lwb/spoofax.compiler.spoofax3/src/main/java/mb/spoofax/compiler/spoofax3/language/Spoofax3StylerLanguageCompiler.java:221-226 | `equals` holds iff the two include-directory sets hold the same suppliers, whatever their order. |
| Spoofax3StylerLanguageCompiler.ImportFunction.HashCode | lwb/spoofax.compiler.spoofax3/src/main/java/mb/spoofax/compiler/spoofax3/language/Spoofax3StylerLanguageCompiler.java:228-230 | The hash code is a Java `int`. |
| Spoofax3StylerLanguageCompiler.EqualImportFunctionsHaveEqualHashCodes | lwb/spoofax.compiler.spoofax3/src/main/java/mb/spoofax/compiler/spoofax3/language/Spoofax3StylerLanguageCompiler.java:221-230 | Import functions that are `equals` have equal hash codes. |
| Spoofax3StylerLanguageCompiler.EqualImportFunctionsCanResolveDifferently | lwb/spoofax.compiler.spoofax3/src/main/java/mb/spoofax/compiler/spoofax3/language/Spoofax3StylerLanguageCompiler.java:197-225 | `equals` compares sets, but `apply` depends on order. `[a, b]` and `[b, a]` are equal yet resolve the same import differently. |
| Spoofax3StylerLanguageCompiler.ExecContext.constructor | lwb/spoofax.compiler.spoofax3/src/main/java/mb/spoofax/compiler/spoofax3/language/Spoofax3StylerLanguageCompiler.java:72 | At the start, nothing is written or provided. |
| Spoofax3StylerLanguageCompiler.ExecContext.Write | lwb/spoofax.compiler.spoofax3/src/main/java/mb/spoofax/compiler/spoofax3/language/Spoofax3StylerLanguageCompiler.java:136-137 | Writing a resource sets its content and provides nothing. |
| Spoofax3StylerLanguageCompiler.ExecContext.Provide | lwb/spoofax.compiler.spoofax3/src/main/java/mb/spoofax/compiler/spoofax3/language/Spoofax3StylerLanguageCompiler.java:138 | Providing records the resource and writes nothing. |
| Spoofax3StylerLanguageCompiler.Exec | lwb/spoofax.compiler.spoofax3/src/main/java/mb/spoofax/compiler/spoofax3/language/Spoofax3StylerLanguageCompiler.java:72-141 | `exec` returns `ExecSpec`'s result. It writes and provides the aterm format file exactly when `ExecSpec` has an output, and touches nothing otherwise. |
| Spoofax3StylerLanguageCompiler.PreconditionFailureEndsExec | lwb/spoofax.compiler.spoofax3/src/main/java/mb/spoofax/compiler/spoofax3/language/Spoofax3StylerLanguageCompiler.java:74-87 | A failed check is returned as the error, and nothing is written. |
| Spoofax3StylerLanguageCompiler.CheckFailPrecedesCompilation | lwb/spoofax.compiler.spoofax3/src/main/java/mb/spoofax/compiler/spoofax3/language/Spoofax3StylerLanguageCompiler.java:123-128 | Checker errors return `checkFail` with the messages before compilation: any compiler gives the same result. |
| Spoofax3StylerLanguageCompiler.CompilerFailWritesNothing | lwb/spoofax.compiler.spoofax3/src/main/java/mb/spoofax/compiler/spoofax3/language/Spoofax3StylerLanguageCompiler.java:131-134 | A compile error returns `compilerFail` with its cause, and no file is written or provided. |
| Spoofax3StylerLanguageCompiler.SuccessWritesAtermFile | lwb/spoofax.compiler.spoofax3/src/main/java/mb/spoofax/compiler/spoofax3/language/Spoofax3StylerLanguageCompiler.java:131-140 | `exec` succeeds iff it writes the output file. It then writes the compiled aterm to `esvAtermFormatOutputFile` and returns the checker's messages. |
| Spoofax3StylerLanguageCompiler.IncludeDirsAndAstSuppliersOnlyChecked | lwb/spoofax.compiler.spoofax3/src/main/java/mb/spoofax/compiler/spoofax3/language/Spoofax3StylerLanguageCompiler.java:82-131 | Beyond their existence checks, `esvIncludeDirs` and `esvAdditionalAstSuppliers` do not affect `exec`: neither is part of the include directories or passed to the compiler. |
| CommonUtil.OfNone | common/src/main/java/mb/common/util/ListView.java:14-16 | `of()` is empty. |
| CommonUtil.OfOne | common/src/main/java/mb/common/util/ListView.java:18-22 | `of(e)` holds exactly `e`. |
| CommonUtil.OfAll | common/src/main/java/mb/common/util/ListView.java:24-28 | `of(e1, ..., en)` has length n, with the elements in argument order. |
| CommonUtil.Get | common/src/main/java/mb/common/util/ListView.java:31-33 | `get(i)` is the i-th element when `0 <= i < size`, and `IndexOutOfBoundsException` otherwise. |
| CommonUtil.FirstIndex | common/src/main/java/mb/common/util/ListView.java:35-37 | This is `indexOf`: the first index holding the element, or -1 iff it does not occur. |
| CommonUtil.LastIndex | common/src/main/java/mb/common/util/ListView.java:39-41 | This is `lastIndexOf`: the last index holding the element, or -1 iff it does not occur. |
| CommonUtil.IndexOfLastIndexOfAgree | common/src/main/java/mb/common/util/ListView.java:35-41 | For an element that occurs, `indexOf` and `lastIndexOf` agree iff it occurs exactly once. |
| CommonUtil.SubList | common/src/main/java/mb/common/util/ListView.java:94-96 | `subList(from, to)` succeeds iff `0 <= from <= to <= size`, and then holds exactly elements `from` to `to - 1`. A negative `from` is an index error on `from`. Otherwise a `to` past the end is an index error on `to`, and `from > to` is `IllegalArgumentException`. |
| CommonUtil.SubListGet | common/src/main/java/mb/common/util/ListView.java:94-96 | Indexing a sub-view is indexing the original at an offset, and both fail outside the range. |
| CommonUtil.WrapInt32 | common/src/main/java/mb/common/util/ListView.java:111-113 | The Java `int` that is congruent to the value modulo 2^32. |
| CommonUtil.HashCode | common/src/main/java/mb/common/util/ListView.java:111-113 | `hashCode` is a Java `int`. |
| CommonUtil.Equals | common/src/main/java/mb/common/util/ListView.java:104-109 | `equals` holds iff the two wrapped lists are equal: the same size, and equal elements at every position. |
| CommonUtil.EqualViewsHaveEqualHashCodes | common/src/main/java/mb/common/util/ListView.java:104-113 | Views that are `equals` have equal hash codes. |
| CommonUtil.OfAllEquals | common/src/main/java/mb/common/util/ListView.java:24-28 | A view made by `of(...)` equals another iff that one lists the same elements in the same order. |
| CommonUtil.ViewIterator.constructor | common/src/main/java/mb/common/util/ListView.java:47-49 | A new iterator sits at the given index over the view's elements. |
| CommonUtil.ViewIterator.HasNext | common/src/main/java/mb/common/util/ListView.java:52-54 | `hasNext` holds iff the cursor is before the end. |
| CommonUtil.ViewIterator.HasPrevious | common/src/main/java/mb/common/util/ListView.java:60-62 | `hasPrevious` holds iff the cursor is after the start. |
| CommonUtil.ViewIterator.NextIndex | common/src/main/java/mb/common/util/ListView.java:68-74 | `nextIndex` is within `0..size` and is always `previousIndex + 1`. |
| CommonUtil.ViewIterator.PreviousIndex | common/src/main/java/mb/common/util/ListView.java:72-74 | `previousIndex` is within `-1..size-1`, and is -1 iff there is no previous element. |
| CommonUtil.ViewIterator.Next | common/src/main/java/mb/common/util/ListView.java:56-58 | `next` returns the element at the cursor and moves it forward by one. At the end it throws `NoSuchElementException` and leaves the cursor. |
| CommonUtil.ViewIterator.Previous | common/src/main/java/mb/common/util/ListView.java:64-66 | `previous` moves the cursor back by one and returns the element there. At the start it throws and leaves the cursor. |
| CommonUtil.ViewIterator.Remove | common/src/main/java/mb/common/util/ListView.java:76-78 | `remove` always throws `UnsupportedOperationException` and changes nothing. |
| CommonUtil.ViewIterator.Set | common/src/main/java/mb/common/util/ListView.java:80-82 | `set` always throws `UnsupportedOperationException` and changes nothing. |
| CommonUtil.ViewIterator.Add | common/src/main/java/mb/common/util/ListView.java:84-86 | `add` always throws `UnsupportedOperationException` and changes nothing. |
| CommonUtil.ViewIterator.ForEachRemaining | common/src/main/java/mb/common/util/ListView.java:88-90 | The action sees exactly the remaining elements in order, and the cursor ends at the end. |
| CommonUtil.ListIterator | common/src/main/java/mb/common/util/ListView.java:43-49 | `listIterator(index)` gives a fresh iterator at `index` iff `0 <= index <= size`, and `IndexOutOfBoundsException` otherwise. |

## Left out

- The incremental build engine PIE. It covers task scheduling, stamping, caching, and the `getId` of the styler task. The answers of `ExecContext.require` are modelled as deterministic functions: supplier to result, path to existence or kind, and file to parse, check or compile result.
- EsvVisitor.VisitSpec: the depth bound stands for the JVM stack. A `StackOverflowError` has no fixed depth in Java.
- EsvVisitor.Visitor.Parse: the origin wrapper `SupplierWithOrigin`, lines 121-124 of `EsvVisitor.java`, only changes how PIE records the dependency, so it is not modelled.
- `getNormalized()` on the import paths is not modelled. The paths built here have no `.` or `..` segments.
- Paths.AppendRelativePath: a relative path with separators is appended as one segment rather than split.
- `AstToObject.convert`: only the part-list check, the `Parameter` header checks, the package-prefix rule and the in-order decoding of argument providers are modelled. The rest is builder and customizer plumbing over `Parts`, `Shared` and the compiler input builders, which are not part of this model.
- Spoofax3StylerLanguageCompiler.Exec: it does not model the `IOException`s that `exists()`, `isFile()`, `isDirectory()` and `writeString` may throw and `exec` propagates. The model treats resource kinds as total answers.
- Spoofax3StylerLanguageCompiler.Exec: the aterm format file's text is `atermFormat.toString()`. The model stores the term itself, because term printing is not part of this model.
- Spoofax3StylerLanguageCompiler.EsvRootDirectory: the project's `srcMainDirectory` is reached through `languageProject().project()`. The model flattens this to one field of `LanguageProject`.
- `Input.syncTo`, lines 180-182: it only copies the relative path into another task's builder.
- The constructor of the styler task, lines 51-64, is only dependency injection. `UnarchiveFromJar` is modelled as a total function from a JAR and a target directory to the unarchived directory (`ImportContext.unarchive`).
- Spoofax3StylerLanguageCompiler.ImportFunction.Equals: the `this == o` shortcut and the `getClass()` check of `equals` are not modelled, because the model compares only import functions. The first follows from reflexivity of set equality.
- Spoofax3StylerLanguageCompiler.EqualImportFunctionsHaveEqualHashCodes: this requires duplicate-free supplier lists, which is what a `HashSet` always holds. `IncludeDirSuppliersShape` proves it for the gathered list.
- CommonUtil.Equals: the `this == obj` shortcut and the `getClass()` check of `equals` are not modelled. A subclass of `ListView` compared with a `ListView` over the same list is unequal in Java but equal in the model, which has no subclasses. The shortcut follows from reflexivity of list equality.
- CommonUtil.HashCode: element hash codes are a parameter, because `E.hashCode()` belongs to the element type.
- CommonUtil.SubList: the error order follows the range check of `ArrayList` and `AbstractList`, the lists that `of` builds. A view over another `List` implementation may throw `IndexOutOfBoundsException` for `from > to`, as the `java.util.List` interface allows.
- `ListView.asUnmodifiable`, `toString` and the `BaseCollectionView` members inherited from outside this file are not part of this model.
