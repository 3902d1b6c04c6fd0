/**
 * `mb.esv.util.EsvVisitor`: a depth-first walk over the imports of ESV
 * modules. The callbacks `accept*` are recorded in an event log; the answers
 * of `ExecContext.require` are the deterministic functions of a `Context`.
 *
 * The walk can recurse without bound when a file `X.esv` holds a module with
 * another name that imports `X` again, so every visit carries a depth bound
 * standing for the JVM's call stack: a visit that would go deeper throws
 * `DepthExceeded` (a `StackOverflowError`).
 */
module EsvVisitor {
  import opened Wrappers
  import opened Terms
  import opened Paths
  import opened Seqs

  /** The identity of a PIE supplier. */
  type Supplier = string

  datatype ParseOutput = ParseOutput(ast: Term)

  datatype ParseError = ParseError(message: string)

  /** What `ExecContext.require` answers, for suppliers, existence checks and parse tasks. */
  datatype Context = Context(
    supplyDirectory: Supplier -> Result<Path, string>,
    supplyAst: Supplier -> Result<Term, string>,
    probe: Path -> Probe,
    parse: Path -> Result<ParseOutput, ParseError>)

  /** One call of an `accept*` callback. */
  datatype Event =
    | AcceptAst(ast: Term)
    | AcceptIncludeDirectorySupplyFail(importTerm: Term, importName: string, error: string)
    | AcceptIncludeAstSupplyFail(importTerm: Term, importName: string, error: string)
    | AcceptUnresolvedImport(importTerm: Term, importName: string)
    | AcceptParseFail(parseError: ParseError)
    | AcceptParse(output: ParseOutput)

  /** Exceptions that end a visit: the `RuntimeException` for a non-module AST, a name that cannot be read, an `UncheckedIOException`, and a too-deep recursion. */
  datatype VisitError = NotModuleTerm(ast: Term) | BadShape(term: Term) | UncheckedIO(io: string) | DepthExceeded

  datatype Resolution = Resolved(ast: Term) | NotResolved | Aborted(error: VisitError)

  datatype Resolve = Resolve(events: seq<Event>, result: Resolution)

  datatype Outcome = Completed | Threw(error: VisitError)

  /** The callbacks fired, the seen-set afterwards, and how the visit ended. */
  datatype Visit = Visit(events: seq<Event>, seen: set<string>, outcome: Outcome)

  // Shapes of ESV terms: `Module(name, imports, sections)`, `Imports(list)`, `Import(name)`.

  predicate IsModuleTerm(t: Term) {
    t.Appl? && t.cons == "Module" && |t.args| == 3
  }

  predicate IsImportsTerm(t: Term) {
    t.Appl? && t.cons == "Imports" && |t.args| == 1
  }

  function ModuleName(t: Term): Option<string> {
    StringAt(t, 0)
  }

  function ImportName(t: Term): Option<string> {
    StringAt(t, 0)
  }

  function PrependResolve(events: seq<Event>, r: Resolve): Resolve {
    Resolve(events + r.events, r.result)
  }

  function PrependVisit(events: seq<Event>, v: Visit): Visit {
    Visit(events + v.events, v.seen, v.outcome)
  }

  lemma ConcatRegroup(a: seq<Event>, b: seq<Event>, c: seq<Event>, d: seq<Event>)
    ensures a + (b + (c + d)) == ((a + b) + c) + d
  {
  }

  lemma PrependResolveTwice(a: seq<Event>, b: seq<Event>, r: Resolve)
    ensures PrependResolve(a, PrependResolve(b, r)) == PrependResolve(a + b, r)
  {
    assert a + (b + r.events) == (a + b) + r.events;
  }

  /** `parse`: `acceptParseFail` and no AST, or `acceptParse` and the output's AST. */
  function ParseSpec(ctx: Context, file: Path): (seq<Event>, Option<Term>) {
    match ctx.parse(file)
    case Err(e) => ([AcceptParseFail(e)], None)
    case Ok(output) => ([AcceptParse(output)], Some(output.ast))
  }

  /** `parse` of a found import file, as a resolution: it never aborts the search. */
  function ParseResolution(ctx: Context, file: Path): (r: Resolve)
    ensures |r.events| == 1 && !r.events[0].AcceptAst? && !r.events[0].AcceptUnresolvedImport?
    ensures r.result.Resolved? || r.result.NotResolved?
    ensures ctx.parse(file).Err? ==> r == Resolve([AcceptParseFail(ctx.parse(file).error)], NotResolved)
    ensures ctx.parse(file).Ok? ==> r == Resolve([AcceptParse(ctx.parse(file).value)], Resolved(ctx.parse(file).value.ast))
  {
    var (events, ast) := ParseSpec(ctx, file);
    Resolve(events, if ast.Some? then Resolved(ast.value) else NotResolved)
  }

  /** The include-AST-supplier half of `resolveImport`, ending in `acceptUnresolvedImport`. */
  function ResolveAstsSpec(ctx: Context, asts: seq<Supplier>, t: Term, n: string): (r: Resolve)
    ensures r.result.Resolved? ==> ModuleName(r.result.ast) == Some(n)
    ensures r.result.Aborted? ==> r.result.error.BadShape?
    decreases |asts|
  {
    if |asts| == 0 then Resolve([AcceptUnresolvedImport(t, n)], NotResolved)
    else
      match ctx.supplyAst(asts[0])
      case Err(e) => PrependResolve([AcceptIncludeAstSupplyFail(t, n, e)], ResolveAstsSpec(ctx, asts[1..], t, n))
      case Ok(ast) =>
        match ModuleName(ast)
        case None => Resolve([], Aborted(BadShape(ast)))
        case Some(m) => if m == n then Resolve([], Resolved(ast)) else ResolveAstsSpec(ctx, asts[1..], t, n)
  }

  /** `resolveImport`: include directories in order, then include AST suppliers. */
  function ResolveSpec(ctx: Context, dirs: seq<Supplier>, asts: seq<Supplier>, t: Term, n: string): (r: Resolve)
    ensures r.result.Aborted? ==> r.result.error.BadShape? || r.result.error.UncheckedIO?
    decreases |dirs|
  {
    if |dirs| == 0 then ResolveAstsSpec(ctx, asts, t, n)
    else
      match ctx.supplyDirectory(dirs[0])
      case Err(e) => PrependResolve([AcceptIncludeDirectorySupplyFail(t, n, e)], ResolveSpec(ctx, dirs[1..], asts, t, n))
      case Ok(dir) =>
        var file := EsvFile(dir, n);
        match ctx.probe(file)
        case ProbeFailed(io) => Resolve([], Aborted(UncheckedIO(io)))
        case Missing => ResolveSpec(ctx, dirs[1..], asts, t, n)
        case Present => ParseResolution(ctx, file)
  }

  /** The names of the modules whose `acceptAst` fired, in order. */
  function VisitedNames(events: seq<Event>): seq<string> {
    if |events| == 0 then []
    else
      var rest := VisitedNames(events[1..]);
      if events[0].AcceptAst? && ModuleName(events[0].ast).Some? then [ModuleName(events[0].ast).value] + rest
      else rest
  }

  lemma {:induction false} VisitedNamesAppend(a: seq<Event>, b: seq<Event>)
    ensures VisitedNames(a + b) == VisitedNames(a) + VisitedNames(b)
  {
    if |a| == 0 {
      assert a + b == b;
    } else {
      assert (a + b)[0] == a[0];
      assert (a + b)[1..] == a[1..] + b;
      VisitedNamesAppend(a[1..], b);
    }
  }

  /**
   * The private `visitAst`: reject a non-module AST before any callback,
   * fire `acceptAst`, add the module's name to the seen-set, then visit the imports.
   */
  function VisitSpec(ctx: Context, dirs: seq<Supplier>, asts: seq<Supplier>, seen: set<string>, ast: Term, fuel: nat): (r: Visit)
    ensures !IsModuleTerm(ast) ==> r == Visit([], seen, Threw(NotModuleTerm(ast)))
    ensures seen <= r.seen
    decreases fuel, 1, 0
  {
    if !IsModuleTerm(ast) then Visit([], seen, Threw(NotModuleTerm(ast)))
    else
      match ModuleName(ast)
      case None => Visit([AcceptAst(ast)], seen, Threw(BadShape(ast)))
      case Some(m) =>
        var importsTerm := ast.args[1];
        if IsImportsTerm(importsTerm) then
          PrependVisit([AcceptAst(ast)], VisitImportsSpec(ctx, dirs, asts, seen + {m}, Subterms(importsTerm.args[0]), fuel))
        else Visit([AcceptAst(ast)], seen + {m}, Completed)
  }

  /** The `for` loop over the import terms of one module. */
  function VisitImportsSpec(ctx: Context, dirs: seq<Supplier>, asts: seq<Supplier>, seen: set<string>, imports: seq<Term>, fuel: nat): (r: Visit)
    ensures seen <= r.seen
    decreases fuel, 0, |imports|
  {
    if |imports| == 0 then Visit([], seen, Completed)
    else
      var t := imports[0];
      match ImportName(t)
      case None => Visit([], seen, Threw(BadShape(t)))
      case Some(n) =>
        if n in seen then VisitImportsSpec(ctx, dirs, asts, seen, imports[1..], fuel)
        else
          var res := ResolveSpec(ctx, dirs, asts, t, n);
          match res.result
          case Aborted(e) => Visit(res.events, seen, Threw(e))
          case NotResolved => PrependVisit(res.events, VisitImportsSpec(ctx, dirs, asts, seen, imports[1..], fuel))
          case Resolved(sub) =>
            if fuel == 0 then Visit(res.events, seen, Threw(DepthExceeded))
            else
              var v := VisitSpec(ctx, dirs, asts, seen, sub, fuel - 1);
              if v.outcome.Threw? then PrependVisit(res.events, v)
              else PrependVisit(res.events, PrependVisit(v.events, VisitImportsSpec(ctx, dirs, asts, v.seen, imports[1..], fuel)))
  }

  /** `visitMainFile`: parse the main file and, if that succeeds, visit it with an empty seen-set. */
  function VisitMainFileSpec(ctx: Context, dirs: seq<Supplier>, asts: seq<Supplier>, mainFile: Path, fuel: nat): Visit {
    var (events, ast) := ParseSpec(ctx, mainFile);
    if ast.None? then Visit(events, {}, Completed)
    else PrependVisit(events, VisitSpec(ctx, dirs, asts, {}, ast.value, fuel))
  }

  /** Pre-order: a module's own `acceptAst` is the first callback of its visit, and its name is seen afterwards. */
  lemma AcceptAstComesFirst(ctx: Context, dirs: seq<Supplier>, asts: seq<Supplier>, seen: set<string>, ast: Term, fuel: nat)
    requires IsModuleTerm(ast)
    ensures var r := VisitSpec(ctx, dirs, asts, seen, ast, fuel);
      |r.events| > 0 && r.events[0] == AcceptAst(ast)
      && (ModuleName(ast).Some? ==> ModuleName(ast).value in r.seen)
  {
    var r := VisitSpec(ctx, dirs, asts, seen, ast, fuel);
    if ModuleName(ast).Some? && IsImportsTerm(ast.args[1]) {
      var m := ModuleName(ast).value;
      var rest := VisitImportsSpec(ctx, dirs, asts, seen + {m}, Subterms(ast.args[1].args[0]), fuel);
      assert r == PrependVisit([AcceptAst(ast)], rest);
      assert seen + {m} <= rest.seen;
    }
  }

  // Import resolution: which source decides, and which callbacks fire.

  /** Include-directory supplier `s` does not resolve `n`: it failed, or `<dir>/<n>.esv` does not exist. */
  predicate DirectoryMisses(ctx: Context, s: Supplier, n: string) {
    match ctx.supplyDirectory(s)
    case Err(_) => true
    case Ok(dir) => ctx.probe(EsvFile(dir, n)) == Missing
  }

  /** Include-AST supplier `s` does not resolve `n`: it failed, or its module has another name. */
  predicate AstMisses(ctx: Context, s: Supplier, n: string) {
    match ctx.supplyAst(s)
    case Err(_) => true
    case Ok(ast) => ModuleName(ast).Some? && ModuleName(ast).value != n
  }

  /** The `acceptIncludeDirectorySupplyFail` callbacks of the failing suppliers among `dirs`, in order. */
  function DirectoryFailures(ctx: Context, dirs: seq<Supplier>, t: Term, n: string): seq<Event> {
    if |dirs| == 0 then []
    else
      (match ctx.supplyDirectory(dirs[0])
       case Err(e) => [AcceptIncludeDirectorySupplyFail(t, n, e)]
       case Ok(_) => [])
      + DirectoryFailures(ctx, dirs[1..], t, n)
  }

  /** The `acceptIncludeAstSupplyFail` callbacks of the failing suppliers among `asts`, in order. */
  function AstFailures(ctx: Context, asts: seq<Supplier>, t: Term, n: string): seq<Event> {
    if |asts| == 0 then []
    else
      (match ctx.supplyAst(asts[0])
       case Err(e) => [AcceptIncludeAstSupplyFail(t, n, e)]
       case Ok(_) => [])
      + AstFailures(ctx, asts[1..], t, n)
  }

  /** What the first include directory holding `<dir>/<n>.esv` (or failing to tell) answers. */
  function DirectoryDecision(ctx: Context, dir: Path, n: string): Resolve {
    match ctx.probe(EsvFile(dir, n))
    case ProbeFailed(io) => Resolve([], Aborted(UncheckedIO(io)))
    case _ => ParseResolution(ctx, EsvFile(dir, n))
  }

  /**
   * The first include directory that does not miss decides the import: the
   * file there is parsed (or its existence check throws), after the failure
   * callbacks of the suppliers before it; later directories and every
   * include-AST supplier are not consulted.
   */
  lemma {:induction false} FirstDirectoryDecides(ctx: Context, dirs: seq<Supplier>, asts: seq<Supplier>, t: Term, n: string, i: nat, dir: Path)
    requires i < |dirs|
    requires forall j :: 0 <= j < i ==> DirectoryMisses(ctx, dirs[j], n)
    requires ctx.supplyDirectory(dirs[i]) == Ok(dir) && ctx.probe(EsvFile(dir, n)) != Missing
    ensures ResolveSpec(ctx, dirs, asts, t, n) ==
      PrependResolve(DirectoryFailures(ctx, dirs[..i], t, n), DirectoryDecision(ctx, dir, n))
  {
    if i == 0 {
      assert DirectoryFailures(ctx, dirs[..0], t, n) == [];
    } else {
      assert DirectoryMisses(ctx, dirs[0], n);
      FirstDirectoryDecides(ctx, dirs[1..], asts, t, n, i - 1, dir);
      assert dirs[..i][1..] == dirs[1..][..i - 1];
    }
  }

  /** One step of `resolveImport` over an include-directory supplier that fails. */
  lemma DirectorySupplyFailStep(ctx: Context, dirs: seq<Supplier>, asts: seq<Supplier>, t: Term, n: string, e: string)
    requires |dirs| > 0 && ctx.supplyDirectory(dirs[0]) == Err(e)
    ensures ResolveSpec(ctx, dirs, asts, t, n) ==
      PrependResolve([AcceptIncludeDirectorySupplyFail(t, n, e)], ResolveSpec(ctx, dirs[1..], asts, t, n))
    ensures DirectoryFailures(ctx, dirs, t, n) == [AcceptIncludeDirectorySupplyFail(t, n, e)] + DirectoryFailures(ctx, dirs[1..], t, n)
  {
  }

  /** One step of `resolveImport` over an include directory without `<n>.esv`. */
  lemma DirectoryMissingStep(ctx: Context, dirs: seq<Supplier>, asts: seq<Supplier>, t: Term, n: string, dir: Path)
    requires |dirs| > 0 && ctx.supplyDirectory(dirs[0]) == Ok(dir) && ctx.probe(EsvFile(dir, n)) == Missing
    ensures ResolveSpec(ctx, dirs, asts, t, n) == ResolveSpec(ctx, dirs[1..], asts, t, n)
    ensures DirectoryFailures(ctx, dirs, t, n) == DirectoryFailures(ctx, dirs[1..], t, n)
  {
  }

  /** When every include directory misses, the include-AST suppliers decide, after the directory failure callbacks. */
  lemma {:induction false} AllDirectoriesMissFallsBackToAsts(ctx: Context, dirs: seq<Supplier>, asts: seq<Supplier>, t: Term, n: string)
    requires forall j :: 0 <= j < |dirs| ==> DirectoryMisses(ctx, dirs[j], n)
    ensures ResolveSpec(ctx, dirs, asts, t, n) ==
      PrependResolve(DirectoryFailures(ctx, dirs, t, n), ResolveAstsSpec(ctx, asts, t, n))
  {
    if |dirs| > 0 {
      assert DirectoryMisses(ctx, dirs[0], n);
      AllDirectoriesMissFallsBackToAsts(ctx, dirs[1..], asts, t, n);
      var supplied := ctx.supplyDirectory(dirs[0]);
      if supplied.Err? {
        DirectorySupplyFailStep(ctx, dirs, asts, t, n, supplied.error);
        PrependResolveTwice([AcceptIncludeDirectorySupplyFail(t, n, supplied.error)], DirectoryFailures(ctx, dirs[1..], t, n), ResolveAstsSpec(ctx, asts, t, n));
      } else {
        DirectoryMissingStep(ctx, dirs, asts, t, n, supplied.value);
      }
    }
  }

  /** The first include-AST supplier whose module is named like the import resolves it. */
  lemma {:induction false} FirstNamedAstWins(ctx: Context, asts: seq<Supplier>, t: Term, n: string, k: nat)
    requires k < |asts|
    requires forall j :: 0 <= j < k ==> AstMisses(ctx, asts[j], n)
    requires ctx.supplyAst(asts[k]).Ok? && ModuleName(ctx.supplyAst(asts[k]).value) == Some(n)
    ensures ResolveAstsSpec(ctx, asts, t, n) == Resolve(AstFailures(ctx, asts[..k], t, n), Resolved(ctx.supplyAst(asts[k]).value))
  {
    if k == 0 {
      assert AstFailures(ctx, asts[..0], t, n) == [];
    } else {
      assert AstMisses(ctx, asts[0], n);
      FirstNamedAstWins(ctx, asts[1..], t, n, k - 1);
      assert asts[..k][1..] == asts[1..][..k - 1];
      assert asts[..k][0] == asts[0];
      var rest := ResolveAstsSpec(ctx, asts[1..], t, n);
      var fails := AstFailures(ctx, asts[1..][..k - 1], t, n);
      match ctx.supplyAst(asts[0])
      case Err(e) =>
        var f := [AcceptIncludeAstSupplyFail(t, n, e)];
        assert ResolveAstsSpec(ctx, asts, t, n) == PrependResolve(f, rest);
        assert AstFailures(ctx, asts[..k], t, n) == f + fails;
      case Ok(ast) =>
        assert ResolveAstsSpec(ctx, asts, t, n) == rest;
        assert AstFailures(ctx, asts[..k], t, n) == [] + fails;
    }
  }

  lemma {:induction false} AllAstsMiss(ctx: Context, asts: seq<Supplier>, t: Term, n: string)
    requires forall k :: 0 <= k < |asts| ==> AstMisses(ctx, asts[k], n)
    ensures ResolveAstsSpec(ctx, asts, t, n) == Resolve(AstFailures(ctx, asts, t, n) + [AcceptUnresolvedImport(t, n)], NotResolved)
  {
    if |asts| > 0 {
      assert AstMisses(ctx, asts[0], n);
      AllAstsMiss(ctx, asts[1..], t, n);
    }
  }

  /**
   * When no source resolves an import, every failing supplier is reported in
   * order and `acceptUnresolvedImport` fires once, last.
   */
  lemma UnresolvedImportReportedOnce(ctx: Context, dirs: seq<Supplier>, asts: seq<Supplier>, t: Term, n: string)
    requires forall j :: 0 <= j < |dirs| ==> DirectoryMisses(ctx, dirs[j], n)
    requires forall k :: 0 <= k < |asts| ==> AstMisses(ctx, asts[k], n)
    ensures ResolveSpec(ctx, dirs, asts, t, n) ==
      Resolve(DirectoryFailures(ctx, dirs, t, n) + AstFailures(ctx, asts, t, n) + [AcceptUnresolvedImport(t, n)], NotResolved)
  {
    AllDirectoriesMissFallsBackToAsts(ctx, dirs, asts, t, n);
    AllAstsMiss(ctx, asts, t, n);
  }

  /** Resolving an import fires no `acceptAst`. */
  lemma {:induction false} ResolveAstsFiresNoAcceptAst(ctx: Context, asts: seq<Supplier>, t: Term, n: string)
    ensures VisitedNames(ResolveAstsSpec(ctx, asts, t, n).events) == []
    decreases |asts|
  {
    if |asts| > 0 {
      ResolveAstsFiresNoAcceptAst(ctx, asts[1..], t, n);
      var supplied := ctx.supplyAst(asts[0]);
      if supplied.Err? {
        NoVisitsPrefix([AcceptIncludeAstSupplyFail(t, n, supplied.error)], ResolveAstsSpec(ctx, asts[1..], t, n).events);
      }
    }
  }

  lemma {:induction false} ResolveFiresNoAcceptAst(ctx: Context, dirs: seq<Supplier>, asts: seq<Supplier>, t: Term, n: string)
    ensures VisitedNames(ResolveSpec(ctx, dirs, asts, t, n).events) == []
    decreases |dirs|
  {
    if |dirs| == 0 {
      ResolveAstsFiresNoAcceptAst(ctx, asts, t, n);
    } else {
      ResolveFiresNoAcceptAst(ctx, dirs[1..], asts, t, n);
      var supplied := ctx.supplyDirectory(dirs[0]);
      if supplied.Err? {
        NoVisitsPrefix([AcceptIncludeDirectorySupplyFail(t, n, supplied.error)], ResolveSpec(ctx, dirs[1..], asts, t, n).events);
      }
    }
  }

  /** The seen-set grows by exactly the names of the modules whose `acceptAst` fired. */
  lemma {:induction false} VisitRecordsSeen(ctx: Context, dirs: seq<Supplier>, asts: seq<Supplier>, seen: set<string>, ast: Term, fuel: nat)
    ensures RecordsSeen(seen, VisitSpec(ctx, dirs, asts, seen, ast, fuel))
    decreases fuel, 1, 0
  {
    if IsModuleTerm(ast) {
      var first := [AcceptAst(ast)];
      var importsTerm := ast.args[1];
      if ModuleName(ast).Some? && IsImportsTerm(importsTerm) {
        var m := ModuleName(ast).value;
        var imports := Subterms(importsTerm.args[0]);
        VisitImportsRecordsSeen(ctx, dirs, asts, seen + {m}, imports, fuel);
        PrependedVisitRecordsSeen(seen, m, first, VisitImportsSpec(ctx, dirs, asts, seen + {m}, imports, fuel));
      } else {
        assert first[1..] == [];
      }
    }
  }

  lemma {:induction false} VisitImportsRecordsSeen(ctx: Context, dirs: seq<Supplier>, asts: seq<Supplier>, seen: set<string>, imports: seq<Term>, fuel: nat)
    ensures RecordsSeen(seen, VisitImportsSpec(ctx, dirs, asts, seen, imports, fuel))
    decreases fuel, 0, |imports|
  {
    if |imports| > 0 && ImportName(imports[0]).Some? {
      var t := imports[0];
      var n := ImportName(t).value;
      if n in seen {
        VisitImportsRecordsSeen(ctx, dirs, asts, seen, imports[1..], fuel);
      } else {
        var res := ResolveSpec(ctx, dirs, asts, t, n);
        ResolveFiresNoAcceptAst(ctx, dirs, asts, t, n);
        match res.result
        case Aborted(_) =>
        case NotResolved =>
          var rest := VisitImportsSpec(ctx, dirs, asts, seen, imports[1..], fuel);
          VisitImportsRecordsSeen(ctx, dirs, asts, seen, imports[1..], fuel);
          NoVisitsPrefix(res.events, rest.events);
        case Resolved(sub) =>
          if fuel > 0 {
            var v := VisitSpec(ctx, dirs, asts, seen, sub, fuel - 1);
            VisitRecordsSeen(ctx, dirs, asts, seen, sub, fuel - 1);
            if v.outcome.Threw? {
              NoVisitsPrefix(res.events, v.events);
            } else {
              var rest := VisitImportsSpec(ctx, dirs, asts, v.seen, imports[1..], fuel);
              VisitImportsRecordsSeen(ctx, dirs, asts, v.seen, imports[1..], fuel);
              SequencedVisitsRecordSeen(seen, res, v, rest);
            }
          }
      }
    }
  }

  /** `acceptAst` of a module named `m`, then a walk from `seen + {m}`, records what it visits. */
  lemma PrependedVisitRecordsSeen(seen: set<string>, m: string, first: seq<Event>, v: Visit)
    requires VisitedNames(first) == [m]
    requires RecordsSeen(seen + {m}, v)
    ensures RecordsSeen(seen, PrependVisit(first, v))
  {
    VisitedNamesAppend(first, v.events);
    ElementsAppend([m], VisitedNames(v.events));
  }

  /** A resolution, a visit, then a walk from where that visit ended, record what they visit. */
  lemma SequencedVisitsRecordSeen(seen: set<string>, res: Resolve, v: Visit, rest: Visit)
    requires VisitedNames(res.events) == []
    requires RecordsSeen(seen, v) && RecordsSeen(v.seen, rest)
    ensures RecordsSeen(seen, PrependVisit(res.events, PrependVisit(v.events, rest)))
  {
    VisitedNamesAppend(v.events, rest.events);
    NoVisitsPrefix(res.events, v.events + rest.events);
    ElementsAppend(VisitedNames(v.events), VisitedNames(rest.events));
  }

  // The traversal: each module is visited at most once, and the walk ends.

  /** Every readable import name among `imports` is one of `names`. */
  predicate ImportNamesWithin(imports: seq<Term>, names: set<string>) {
    forall i :: 0 <= i < |imports| && ImportName(imports[i]).Some? ==> ImportName(imports[i]).value in names
  }

  /** Every readable import name of module `ast` is one of `names`. */
  predicate ImportsWithin(ast: Term, names: set<string>) {
    IsModuleTerm(ast) && IsImportsTerm(ast.args[1]) ==> ImportNamesWithin(Subterms(ast.args[1].args[0]), names)
  }

  /**
   * The finite set `names` is closed under resolution: an import named in
   * `names` that resolves, resolves to a module named like the import whose
   * own imports are again named in `names`. Names outside `names` are
   * unconstrained; in particular `X` and `X.esv` name the same file
   * `<dir>/X.esv`, and only one of them need be in `names`.
   */
  ghost predicate ResolvesByNameWithin(ctx: Context, dirs: seq<Supplier>, asts: seq<Supplier>, names: set<string>) {
    forall t, n :: n in names && ResolveSpec(ctx, dirs, asts, t, n).result.Resolved? ==>
      ModuleName(ResolveSpec(ctx, dirs, asts, t, n).result.ast) == Some(n)
      && ImportsWithin(ResolveSpec(ctx, dirs, asts, t, n).result.ast, names)
  }

  /** The first import of a loop whose names lie in a closed `names`: it resolves by name, and the rest stay within `names`. */
  lemma FirstImportWithin(ctx: Context, dirs: seq<Supplier>, asts: seq<Supplier>, names: set<string>, imports: seq<Term>)
    requires ResolvesByNameWithin(ctx, dirs, asts, names) && ImportNamesWithin(imports, names)
    requires |imports| > 0 && ImportName(imports[0]).Some?
    ensures ImportName(imports[0]).value in names
    ensures ImportNamesWithin(imports[1..], names)
    ensures var res := ResolveSpec(ctx, dirs, asts, imports[0], ImportName(imports[0]).value);
      res.result.Resolved? ==>
        ModuleName(res.result.ast) == ImportName(imports[0]) && ImportsWithin(res.result.ast, names)
  {
    forall i | 0 <= i < |imports[1..]| && ImportName(imports[1..][i]).Some?
      ensures ImportName(imports[1..][i]).value in names
    {
      assert imports[1..][i] == imports[i + 1];
    }
  }

  /** Visit `v` from `seen` ended with `seen` plus the names it visited. */
  predicate RecordsSeen(seen: set<string>, v: Visit) {
    v.seen == seen + Elements(VisitedNames(v.events))
  }

  /** `names` holds no name twice and none of `seen`. */
  predicate FreshVisits(names: seq<string>, seen: set<string>) {
    NoDuplicates(names) && Elements(names) !! seen
  }

  function NameOf(ast: Term): set<string> {
    if ModuleName(ast).Some? then {ModuleName(ast).value} else {}
  }

  /**
   * When modules are named like their imports (within a closed set of
   * import names), no module name is visited twice and none that was
   * already seen is visited again.
   */
  lemma {:induction false} VisitVisitsEachModuleOnce(ctx: Context, dirs: seq<Supplier>, asts: seq<Supplier>, names: set<string>, seen: set<string>, ast: Term, fuel: nat)
    requires ResolvesByNameWithin(ctx, dirs, asts, names) && ImportsWithin(ast, names)
    requires NameOf(ast) !! seen
    ensures FreshVisits(VisitedNames(VisitSpec(ctx, dirs, asts, seen, ast, fuel).events), seen)
    decreases fuel, 1, 0
  {
    var r := VisitSpec(ctx, dirs, asts, seen, ast, fuel);
    if IsModuleTerm(ast) && ModuleName(ast).Some? {
      var m := ModuleName(ast).value;
      assert VisitedNames([AcceptAst(ast)]) == [m];
      var importsTerm := ast.args[1];
      if IsImportsTerm(importsTerm) {
        var imports := Subterms(importsTerm.args[0]);
        var v := VisitImportsSpec(ctx, dirs, asts, seen + {m}, imports, fuel);
        VisitImportsVisitsEachModuleOnce(ctx, dirs, asts, names, seen + {m}, imports, fuel);
        VisitedNamesAppend([AcceptAst(ast)], v.events);
        NoDuplicatesAppend([m], VisitedNames(v.events));
      }
    } else if IsModuleTerm(ast) {
      assert VisitedNames(r.events) == [];
    }
  }

  lemma {:induction false} VisitImportsVisitsEachModuleOnce(ctx: Context, dirs: seq<Supplier>, asts: seq<Supplier>, names: set<string>, seen: set<string>, imports: seq<Term>, fuel: nat)
    requires ResolvesByNameWithin(ctx, dirs, asts, names) && ImportNamesWithin(imports, names)
    ensures FreshVisits(VisitedNames(VisitImportsSpec(ctx, dirs, asts, seen, imports, fuel).events), seen)
    decreases fuel, 0, |imports|
  {
    var r := VisitImportsSpec(ctx, dirs, asts, seen, imports, fuel);
    if |imports| > 0 && ImportName(imports[0]).Some? {
      var t := imports[0];
      var n := ImportName(t).value;
      FirstImportWithin(ctx, dirs, asts, names, imports);
      if n in seen {
        VisitImportsVisitsEachModuleOnce(ctx, dirs, asts, names, seen, imports[1..], fuel);
      } else {
        var res := ResolveSpec(ctx, dirs, asts, t, n);
        ResolveFiresNoAcceptAst(ctx, dirs, asts, t, n);
        if res.result.NotResolved? {
          var rest := VisitImportsSpec(ctx, dirs, asts, seen, imports[1..], fuel);
          assert r == PrependVisit(res.events, rest);
          VisitImportsVisitsEachModuleOnce(ctx, dirs, asts, names, seen, imports[1..], fuel);
          VisitedNamesAppend(res.events, rest.events);
        } else if res.result.Resolved? && fuel > 0 {
          ImportedModuleVisitedOnce(ctx, dirs, asts, names, seen, imports, fuel);
        } else {
          assert r.events == res.events;
        }
      }
    }
  }

  /** One step of the import loop over an import that resolves and is visited. */
  lemma VisitImportsResolvedStep(ctx: Context, dirs: seq<Supplier>, asts: seq<Supplier>, seen: set<string>, imports: seq<Term>, fuel: nat)
    requires |imports| > 0 && ImportName(imports[0]).Some? && ImportName(imports[0]).value !in seen
    requires ResolveSpec(ctx, dirs, asts, imports[0], ImportName(imports[0]).value).result.Resolved? && fuel > 0
    ensures var res := ResolveSpec(ctx, dirs, asts, imports[0], ImportName(imports[0]).value);
      var v := VisitSpec(ctx, dirs, asts, seen, res.result.ast, fuel - 1);
      VisitImportsSpec(ctx, dirs, asts, seen, imports, fuel) ==
        if v.outcome.Threw? then PrependVisit(res.events, v)
        else PrependVisit(res.events, PrependVisit(v.events, VisitImportsSpec(ctx, dirs, asts, v.seen, imports[1..], fuel)))
  {
  }

  /** The step of the lemma above for an import that resolves to a module that is then visited. */
  lemma {:induction false} ImportedModuleVisitedOnce(ctx: Context, dirs: seq<Supplier>, asts: seq<Supplier>, names: set<string>, seen: set<string>, imports: seq<Term>, fuel: nat)
    requires ResolvesByNameWithin(ctx, dirs, asts, names) && ImportNamesWithin(imports, names)
    requires |imports| > 0 && ImportName(imports[0]).Some? && ImportName(imports[0]).value !in seen
    requires ResolveSpec(ctx, dirs, asts, imports[0], ImportName(imports[0]).value).result.Resolved? && fuel > 0
    ensures FreshVisits(VisitedNames(VisitImportsSpec(ctx, dirs, asts, seen, imports, fuel).events), seen)
    decreases fuel, 0, |imports|, 1
  {
    var t := imports[0];
    var n := ImportName(t).value;
    var res := ResolveSpec(ctx, dirs, asts, t, n);
    var sub := res.result.ast;
    var v := VisitSpec(ctx, dirs, asts, seen, sub, fuel - 1);
    if v.outcome.Completed? {
      ImportedModuleThenRestOnce(ctx, dirs, asts, names, seen, imports, fuel);
    } else {
      FirstImportWithin(ctx, dirs, asts, names, imports);
      assert NameOf(sub) == {n};
      VisitVisitsEachModuleOnce(ctx, dirs, asts, names, seen, sub, fuel - 1);
      ResolveFiresNoAcceptAst(ctx, dirs, asts, t, n);
      VisitImportsResolvedStep(ctx, dirs, asts, seen, imports, fuel);
      NoVisitsPrefix(res.events, v.events);
    }
  }

  /** The case of the lemma above where the imported module's visit completes and the loop goes on. */
  lemma {:induction false} ImportedModuleThenRestOnce(ctx: Context, dirs: seq<Supplier>, asts: seq<Supplier>, names: set<string>, seen: set<string>, imports: seq<Term>, fuel: nat)
    requires ResolvesByNameWithin(ctx, dirs, asts, names) && ImportNamesWithin(imports, names)
    requires |imports| > 0 && ImportName(imports[0]).Some? && ImportName(imports[0]).value !in seen
    requires ResolveSpec(ctx, dirs, asts, imports[0], ImportName(imports[0]).value).result.Resolved? && fuel > 0
    requires VisitSpec(ctx, dirs, asts, seen, ResolveSpec(ctx, dirs, asts, imports[0], ImportName(imports[0]).value).result.ast, fuel - 1).outcome.Completed?
    ensures FreshVisits(VisitedNames(VisitImportsSpec(ctx, dirs, asts, seen, imports, fuel).events), seen)
    decreases fuel, 0, |imports|, 0
  {
    var t := imports[0];
    var n := ImportName(t).value;
    var res := ResolveSpec(ctx, dirs, asts, t, n);
    var sub := res.result.ast;
    var v := VisitSpec(ctx, dirs, asts, seen, sub, fuel - 1);
    assert VisitedNames(res.events) == [] by {
      ResolveFiresNoAcceptAst(ctx, dirs, asts, t, n);
    }
    FirstImportWithin(ctx, dirs, asts, names, imports);
    assert RecordsSeen(seen, v) && FreshVisits(VisitedNames(v.events), seen) by {
      assert NameOf(sub) == {n};
      VisitVisitsEachModuleOnce(ctx, dirs, asts, names, seen, sub, fuel - 1);
      VisitRecordsSeen(ctx, dirs, asts, seen, sub, fuel - 1);
    }
    var rest := VisitImportsSpec(ctx, dirs, asts, v.seen, imports[1..], fuel);
    assert FreshVisits(VisitedNames(rest.events), v.seen) by {
      VisitImportsVisitsEachModuleOnce(ctx, dirs, asts, names, v.seen, imports[1..], fuel);
    }
    assert VisitImportsSpec(ctx, dirs, asts, seen, imports, fuel) == PrependVisit(res.events, PrependVisit(v.events, rest)) by {
      VisitImportsResolvedStep(ctx, dirs, asts, seen, imports, fuel);
    }
    SequencedVisitsOnce(seen, res, v, rest);
  }

  /** A resolution, a visit from `seen`, then a walk from the seen-set that visit ended with, visit no name twice. */
  lemma SequencedVisitsOnce(seen: set<string>, res: Resolve, v: Visit, rest: Visit)
    requires VisitedNames(res.events) == []
    requires RecordsSeen(seen, v)
    requires FreshVisits(VisitedNames(v.events), seen) && FreshVisits(VisitedNames(rest.events), v.seen)
    ensures FreshVisits(VisitedNames(PrependVisit(res.events, PrependVisit(v.events, rest)).events), seen)
  {
    VisitedNamesAppend(v.events, rest.events);
    NoVisitsPrefix(res.events, v.events + rest.events);
    DisjointVisitsCombine(seen, v.seen, VisitedNames(v.events), VisitedNames(rest.events));
  }

  /** Two walks, the second starting from the seen-set the first ended with, visit no name twice. */
  lemma DisjointVisitsCombine(seen: set<string>, mid: set<string>, first: seq<string>, second: seq<string>)
    requires FreshVisits(first, seen) && mid == seen + Elements(first) && FreshVisits(second, mid)
    ensures FreshVisits(first + second, seen)
  {
    NoDuplicatesAppend(first, second);
    ElementsAppend(first, second);
  }

  lemma NoVisitsPrefix(a: seq<Event>, b: seq<Event>)
    requires VisitedNames(a) == []
    ensures VisitedNames(a + b) == VisitedNames(b)
  {
    VisitedNamesAppend(a, b);
  }

  lemma {:induction false} SubsetCardinality(a: set<string>, b: set<string>)
    requires a <= b
    ensures |a| <= |b|
    decreases |a|
  {
    if a != {} {
      var x :| x in a;
      SubsetCardinality(a - {x}, b - {x});
    }
  }

  /**
   * When the imports met lie in a closed set `names` of import names, a
   * depth bound of the number of unseen names in `names` is never reached:
   * the walk ends even on cyclic imports.
   */
  lemma {:induction false} VisitStaysWithinDepth(ctx: Context, dirs: seq<Supplier>, asts: seq<Supplier>, names: set<string>, seen: set<string>, ast: Term, fuel: nat)
    requires ResolvesByNameWithin(ctx, dirs, asts, names) && ImportsWithin(ast, names)
    requires fuel >= |names - (seen + NameOf(ast))|
    ensures VisitSpec(ctx, dirs, asts, seen, ast, fuel).outcome != Threw(DepthExceeded)
    decreases fuel, 1, 0
  {
    if IsModuleTerm(ast) && ModuleName(ast).Some? {
      var m := ModuleName(ast).value;
      var importsTerm := ast.args[1];
      if IsImportsTerm(importsTerm) {
        VisitImportsStaysWithinDepth(ctx, dirs, asts, names, seen + {m}, Subterms(importsTerm.args[0]), fuel);
      }
    }
  }

  lemma {:induction false} VisitImportsStaysWithinDepth(ctx: Context, dirs: seq<Supplier>, asts: seq<Supplier>, names: set<string>, seen: set<string>, imports: seq<Term>, fuel: nat)
    requires ResolvesByNameWithin(ctx, dirs, asts, names) && ImportNamesWithin(imports, names)
    requires fuel >= |names - seen|
    ensures VisitImportsSpec(ctx, dirs, asts, seen, imports, fuel).outcome != Threw(DepthExceeded)
    decreases fuel, 0, |imports|
  {
    var r := VisitImportsSpec(ctx, dirs, asts, seen, imports, fuel);
    if |imports| == 0 {
      assert r.outcome == Completed;
    } else if ImportName(imports[0]).None? {
      assert r.outcome == Threw(BadShape(imports[0]));
    } else {
      var t := imports[0];
      var n := ImportName(t).value;
      FirstImportWithin(ctx, dirs, asts, names, imports);
      if n in seen {
        assert r == VisitImportsSpec(ctx, dirs, asts, seen, imports[1..], fuel);
        VisitImportsStaysWithinDepth(ctx, dirs, asts, names, seen, imports[1..], fuel);
      } else {
        var res := ResolveSpec(ctx, dirs, asts, t, n);
        match res.result
        case Aborted(e) =>
          assert r.outcome == Threw(e);
        case NotResolved =>
          assert r.outcome == VisitImportsSpec(ctx, dirs, asts, seen, imports[1..], fuel).outcome;
          VisitImportsStaysWithinDepth(ctx, dirs, asts, names, seen, imports[1..], fuel);
        case Resolved(sub) =>
          assert ModuleName(sub) == Some(n) && n in names - seen;
          assert fuel > 0;
          assert names - (seen + NameOf(sub)) == (names - seen) - {n};
          var v := VisitSpec(ctx, dirs, asts, seen, sub, fuel - 1);
          VisitStaysWithinDepth(ctx, dirs, asts, names, seen, sub, fuel - 1);
          VisitImportsResolvedStep(ctx, dirs, asts, seen, imports, fuel);
          if v.outcome.Completed? {
            SubsetCardinality(names - v.seen, names - seen);
            VisitImportsStaysWithinDepth(ctx, dirs, asts, names, v.seen, imports[1..], fuel);
          } else {
          }
      }
    }
  }

  /** The public `visitAst` with a depth bound of at least `|names|` ends without exceeding it. */
  lemma VisitTerminatesWhenModulesNamedLikeImports(ctx: Context, dirs: seq<Supplier>, asts: seq<Supplier>, names: set<string>, ast: Term, fuel: nat)
    requires ResolvesByNameWithin(ctx, dirs, asts, names) && ImportsWithin(ast, names)
    requires fuel >= |names|
    ensures VisitSpec(ctx, dirs, asts, {}, ast, fuel).outcome != Threw(DepthExceeded)
  {
    SubsetCardinality(names - NameOf(ast), names);
    VisitStaysWithinDepth(ctx, dirs, asts, names, {}, ast, fuel);
  }

  // A module named differently from its file that imports that file again.

  const LoopingModule: Term :=
    Appl("Module", [Str("Y"), Appl("Imports", [Lst([Appl("Import", [Str("X")])])]), Lst([])])

  /** One include directory `inc` holding `X.esv`, whose module is named `Y` and imports `X`. */
  function MisnamedContext(): Context {
    Context(
      s => Ok(["inc"]),
      s => Err("no include ASTs"),
      p => if p == ["inc", "X.esv"] then Present else Missing,
      p => Ok(ParseOutput(LoopingModule)))
  }

  /** Visiting `Y` there re-resolves `X` forever: every depth bound is exceeded. */
  lemma {:induction false} MisnamedModuleNeverEnds(seen: set<string>, fuel: nat)
    requires "X" !in seen
    ensures VisitSpec(MisnamedContext(), ["d"], [], seen, LoopingModule, fuel).outcome == Threw(DepthExceeded)
    decreases fuel
  {
    var ctx := MisnamedContext();
    var imports := [Appl("Import", [Str("X")])];
    assert ModuleName(LoopingModule) == Some("Y");
    assert Subterms(LoopingModule.args[1].args[0]) == imports;
    assert ImportName(imports[0]) == Some("X");
    EsvFileSpec(["inc"], "X");
    assert "X" + ".esv" == "X.esv";
    assert EsvFile(["inc"], "X") == ["inc", "X.esv"];
    var res := ResolveSpec(ctx, ["d"], [], imports[0], "X");
    assert res.result == Resolved(LoopingModule);
    if fuel > 0 {
      MisnamedModuleNeverEnds(seen + {"Y"}, fuel - 1);
    }
  }

  // A module named after its own file that includes itself by file name.

  const FileNamedModule: Term :=
    Appl("Module", [Str("X"), Appl("Imports", [Lst([Appl("Import", [Str("X.esv")])])]), Lst([])])

  /** One include directory `inc` holding `X.esv`, whose module is named `X` and imports `X.esv`. */
  function FileNamedContext(): Context {
    Context(
      s => Ok(["inc"]),
      s => Err("no include ASTs"),
      p => if p == ["inc", "X.esv"] then Present else Missing,
      p => Ok(ParseOutput(FileNamedModule)))
  }

  /**
   * Importing `X.esv` finds `<inc>/X.esv` again, but the seen-set holds the
   * module name `X` and never the import name `X.esv`: every depth bound is
   * exceeded, although the module is named after its file.
   */
  lemma {:induction false} FileNameImportNeverEnds(seen: set<string>, fuel: nat)
    requires "X.esv" !in seen
    ensures VisitSpec(FileNamedContext(), ["d"], [], seen, FileNamedModule, fuel).outcome == Threw(DepthExceeded)
    decreases fuel
  {
    var ctx := FileNamedContext();
    var imports := [Appl("Import", [Str("X.esv")])];
    assert ModuleName(FileNamedModule) == Some("X");
    assert Subterms(FileNamedModule.args[1].args[0]) == imports;
    assert ImportName(imports[0]) == Some("X.esv");
    EsvFileSpec(["inc"], "X.esv");
    assert EndsWith("X.esv", ".esv");
    assert EsvFile(["inc"], "X.esv") == ["inc", "X.esv"];
    var res := ResolveSpec(ctx, ["d"], [], imports[0], "X.esv");
    assert res.result == Resolved(FileNamedModule);
    assert "X.esv" !in seen + {"X"};
    if fuel > 0 {
      FileNameImportNeverEnds(seen + {"X"}, fuel - 1);
    }
  }

  // A cycle that an include directory resolves.

  const SelfImportingModule: Term :=
    Appl("Module", [Str("X"), Appl("Imports", [Lst([Appl("Import", [Str("X")])])]), Lst([])])

  /** One include directory `inc` holding `X.esv`, whose module is named `X` and imports `X`. */
  function SelfImportContext(): Context {
    Context(
      s => Ok(["inc"]),
      s => Err("no include ASTs"),
      p => if p == ["inc", "X.esv"] then Present else Missing,
      p => Ok(ParseOutput(SelfImportingModule)))
  }

  /**
   * An import that an include directory resolves can meet the closure
   * hypothesis: `{"X"}` is closed there, so the cyclic self-import of `X`
   * visits `X` once and ends within a depth bound of 1.
   */
  lemma DirectoryResolvedCycleEnds(fuel: nat)
    requires fuel >= 1
    ensures ResolveSpec(SelfImportContext(), ["d"], [], Appl("Import", [Str("X")]), "X").result == Resolved(SelfImportingModule)
    ensures ResolvesByNameWithin(SelfImportContext(), ["d"], [], {"X"}) && ImportsWithin(SelfImportingModule, {"X"})
    ensures VisitSpec(SelfImportContext(), ["d"], [], {}, SelfImportingModule, fuel).outcome != Threw(DepthExceeded)
    ensures FreshVisits(VisitedNames(VisitSpec(SelfImportContext(), ["d"], [], {}, SelfImportingModule, fuel).events), {})
  {
    var ctx := SelfImportContext();
    var imports := [Appl("Import", [Str("X")])];
    assert ModuleName(SelfImportingModule) == Some("X");
    assert Subterms(SelfImportingModule.args[1].args[0]) == imports;
    assert ImportName(imports[0]) == Some("X");
    assert ImportsWithin(SelfImportingModule, {"X"});
    EsvFileSpec(["inc"], "X");
    assert "X" + ".esv" == "X.esv";
    assert EsvFile(["inc"], "X") == ["inc", "X.esv"];
    forall t, n | n in {"X"} && ResolveSpec(ctx, ["d"], [], t, n).result.Resolved?
      ensures ModuleName(ResolveSpec(ctx, ["d"], [], t, n).result.ast) == Some(n)
        && ImportsWithin(ResolveSpec(ctx, ["d"], [], t, n).result.ast, {"X"})
    {
      assert ResolveSpec(ctx, ["d"], [], t, n).result == Resolved(SelfImportingModule);
    }
    VisitTerminatesWhenModulesNamedLikeImports(ctx, ["d"], [], {"X"}, SelfImportingModule, fuel);
    VisitVisitsEachModuleOnce(ctx, ["d"], [], {"X"}, {}, SelfImportingModule, fuel);
  }

  // The visitor itself: the callbacks append to `log`, the seen-set is a shared mutable set.

  /** The `HashSet<String>` of seen module names, shared by the recursive visits. */
  class SeenModules {
    var elems: set<string>

    constructor()
      ensures elems == {}
    {
      elems := {};
    }

    method Add(name: string)
      modifies this
      ensures elems == old(elems) + {name}
    {
      elems := elems + {name};
    }

    method Contains(name: string) returns (b: bool)
      ensures b == (name in elems)
    {
      b := name in elems;
    }
  }

  class Visitor {
    const includeDirectorySuppliers: seq<Supplier>
    const includeAstSuppliers: seq<Supplier>
    /** Every `accept*` callback fired so far, in order. */
    var log: seq<Event>

    constructor(includeDirectorySuppliers: seq<Supplier>, includeAstSuppliers: seq<Supplier>)
      ensures this.includeDirectorySuppliers == includeDirectorySuppliers
      ensures this.includeAstSuppliers == includeAstSuppliers
      ensures log == []
    {
      this.includeDirectorySuppliers := includeDirectorySuppliers;
      this.includeAstSuppliers := includeAstSuppliers;
      log := [];
    }

    method Parse(ctx: Context, file: Path) returns (ast: Option<Term>)
      modifies this
      ensures log == old(log) + ParseSpec(ctx, file).0 && ast == ParseSpec(ctx, file).1
    {
      match ctx.parse(file)
      case Err(e) =>
        log := log + [AcceptParseFail(e)];
        ast := None;
      case Ok(output) =>
        log := log + [AcceptParse(output)];
        ast := Some(output.ast);
    }

    /** `resolveImport`: search the include directories, then the include ASTs. */
    method ResolveImport(ctx: Context, importTerm: Term, importName: string) returns (res: Resolution)
      modifies this
      ensures var goal := ResolveSpec(ctx, includeDirectorySuppliers, includeAstSuppliers, importTerm, importName);
        log == old(log) + goal.events && res == goal.result
    {
      var decided := SearchIncludeDirectories(ctx, importTerm, importName);
      if decided.Some? {
        return decided.value;
      }
      ghost var searched := log;
      res := SearchIncludeAsts(ctx, importTerm, importName);
      assert log == searched + log[|searched|..];
    }

    /**
     * The first loop of `resolveImport`. It ends with the resolution when an
     * include directory decides the import, and with `None` when every one
     * misses, after which the include ASTs decide.
     */
    method SearchIncludeDirectories(ctx: Context, importTerm: Term, importName: string) returns (decided: Option<Resolution>)
      modifies this
      ensures var goal := ResolveSpec(ctx, includeDirectorySuppliers, includeAstSuppliers, importTerm, importName);
        var fallback := ResolveAstsSpec(ctx, includeAstSuppliers, importTerm, importName);
        if decided.Some? then log == old(log) + goal.events && decided.value == goal.result
        else old(log) + goal.events == log + fallback.events && goal.result == fallback.result
    {
      ghost var goal := ResolveSpec(ctx, includeDirectorySuppliers, includeAstSuppliers, importTerm, importName);
      var dirs := includeDirectorySuppliers;
      var i := 0;
      while i < |dirs|
        invariant 0 <= i <= |dirs|
        invariant old(log) + goal.events == log + ResolveSpec(ctx, dirs[i..], includeAstSuppliers, importTerm, importName).events
        invariant ResolveSpec(ctx, dirs[i..], includeAstSuppliers, importTerm, importName).result == goal.result
      {
        assert dirs[i..][0] == dirs[i] && dirs[i..][1..] == dirs[i + 1..];
        var supplied := ctx.supplyDirectory(dirs[i]);
        if supplied.Err? {
          var failed := [AcceptIncludeDirectorySupplyFail(importTerm, importName, supplied.error)];
          assert log + (failed + ResolveSpec(ctx, dirs[i + 1..], includeAstSuppliers, importTerm, importName).events)
              == (log + failed) + ResolveSpec(ctx, dirs[i + 1..], includeAstSuppliers, importTerm, importName).events;
          log := log + failed;
        } else {
          var esvFile := EsvFile(supplied.value, importName);
          match ctx.probe(esvFile)
          case ProbeFailed(io) =>
            assert log == old(log) + goal.events;
            return Some(Aborted(UncheckedIO(io)));
          case Missing =>
          case Present =>
            var ast := Parse(ctx, esvFile);
            return Some(if ast.Some? then Resolved(ast.value) else NotResolved);
        }
        i := i + 1;
      }
      assert dirs[i..] == [];
      return None;
    }

    /** The second loop of `resolveImport`, ending in `acceptUnresolvedImport` when no include AST is named like the import. */
    method SearchIncludeAsts(ctx: Context, importTerm: Term, importName: string) returns (res: Resolution)
      modifies this
      ensures var goal := ResolveAstsSpec(ctx, includeAstSuppliers, importTerm, importName);
        log == old(log) + goal.events && res == goal.result
    {
      ghost var goal := ResolveAstsSpec(ctx, includeAstSuppliers, importTerm, importName);
      var asts := includeAstSuppliers;
      var j := 0;
      while j < |asts|
        invariant 0 <= j <= |asts|
        invariant old(log) + goal.events == log + ResolveAstsSpec(ctx, asts[j..], importTerm, importName).events
        invariant ResolveAstsSpec(ctx, asts[j..], importTerm, importName).result == goal.result
      {
        assert asts[j..][0] == asts[j] && asts[j..][1..] == asts[j + 1..];
        var supplied := ctx.supplyAst(asts[j]);
        if supplied.Err? {
          var failed := [AcceptIncludeAstSupplyFail(importTerm, importName, supplied.error)];
          assert log + (failed + ResolveAstsSpec(ctx, asts[j + 1..], importTerm, importName).events)
              == (log + failed) + ResolveAstsSpec(ctx, asts[j + 1..], importTerm, importName).events;
          log := log + failed;
        } else {
          match ModuleName(supplied.value)
          case None =>
            assert log == old(log) + goal.events;
            return Aborted(BadShape(supplied.value));
          case Some(moduleName) =>
            if importName == moduleName {
              assert log == old(log) + goal.events;
              return Resolved(supplied.value);
            }
        }
        j := j + 1;
      }
      assert asts[j..] == [];
      log := log + [AcceptUnresolvedImport(importTerm, importName)];
      return NotResolved;
    }

    /** The private `visitAst`, with the depth left before the stack overflows. */
    method VisitAstWith(ctx: Context, seenModules: SeenModules, ast: Term, depth: nat) returns (outcome: Outcome)
      modifies this, seenModules
      ensures var goal := VisitSpec(ctx, includeDirectorySuppliers, includeAstSuppliers, old(seenModules.elems), ast, depth);
        log == old(log) + goal.events && seenModules.elems == goal.seen && outcome == goal.outcome
      decreases depth, 4
    {
      if !IsModuleTerm(ast) {
        return Threw(NotModuleTerm(ast));
      }
      log := log + [AcceptAst(ast)];
      if ModuleName(ast).None? {
        return Threw(BadShape(ast));
      }
      seenModules.Add(ModuleName(ast).value);
      var importsTerm := ast.args[1];
      if IsImportsTerm(importsTerm) {
        ghost var accepted := log;
        outcome := VisitImports(ctx, seenModules, Subterms(importsTerm.args[0]), depth);
        assert log == old(log) + ([AcceptAst(ast)] + (log[|accepted|..]));
      } else {
        outcome := Completed;
      }
    }

    /** The `for` loop of `visitAst` over the import terms of one module. */
    method VisitImports(ctx: Context, seenModules: SeenModules, imports: seq<Term>, depth: nat) returns (outcome: Outcome)
      modifies this, seenModules
      ensures var goal := VisitImportsSpec(ctx, includeDirectorySuppliers, includeAstSuppliers, old(seenModules.elems), imports, depth);
        log == old(log) + goal.events && seenModules.elems == goal.seen && outcome == goal.outcome
      decreases depth, 3
    {
      ghost var goal := VisitImportsSpec(ctx, includeDirectorySuppliers, includeAstSuppliers, seenModules.elems, imports, depth);
      var i := 0;
      while i < |imports|
        invariant 0 <= i <= |imports|
        invariant var rest := VisitImportsSpec(ctx, includeDirectorySuppliers, includeAstSuppliers, seenModules.elems, imports[i..], depth);
          old(log) + goal.events == log + rest.events && rest.seen == goal.seen && rest.outcome == goal.outcome
      {
        var done;
        done, outcome := VisitImportAt(ctx, seenModules, imports, i, depth);
        if done {
          return;
        }
        i := i + 1;
      }
      assert log + [] == log;
      return Completed;
    }

    /**
     * One iteration of that loop, over `imports[i]`. Either the visit ends
     * here (`done`, with the loop's whole outcome), or the loop goes on with
     * the remaining imports from the new state.
     */
    method VisitImportAt(ctx: Context, seenModules: SeenModules, imports: seq<Term>, i: nat, depth: nat) returns (done: bool, outcome: Outcome)
      requires i < |imports|
      modifies this, seenModules
      ensures var here := VisitImportsSpec(ctx, includeDirectorySuppliers, includeAstSuppliers, old(seenModules.elems), imports[i..], depth);
        var next := VisitImportsSpec(ctx, includeDirectorySuppliers, includeAstSuppliers, seenModules.elems, imports[i + 1..], depth);
        if done then log == old(log) + here.events && seenModules.elems == here.seen && outcome == here.outcome
        else old(log) + here.events == log + next.events && next.seen == here.seen && next.outcome == here.outcome
      decreases depth, 2
    {
      assert imports[i..][0] == imports[i] && imports[i..][1..] == imports[i + 1..];
      var importTerm := imports[i];
      if ImportName(importTerm).None? {
        return true, Threw(BadShape(importTerm));
      }
      var importName := ImportName(importTerm).value;
      var seen := seenModules.Contains(importName);
      if seen {
        return false, Completed;
      }
      done, outcome := VisitUnseenImport(ctx, seenModules, imports, i, depth);
    }

    /** The rest of that iteration for an import not seen yet: resolve it, then visit what it resolves to. */
    method VisitUnseenImport(ctx: Context, seenModules: SeenModules, imports: seq<Term>, i: nat, depth: nat) returns (done: bool, outcome: Outcome)
      requires i < |imports| && ImportName(imports[i]).Some? && ImportName(imports[i]).value !in seenModules.elems
      modifies this, seenModules
      ensures var here := VisitImportsSpec(ctx, includeDirectorySuppliers, includeAstSuppliers, old(seenModules.elems), imports[i..], depth);
        var next := VisitImportsSpec(ctx, includeDirectorySuppliers, includeAstSuppliers, seenModules.elems, imports[i + 1..], depth);
        if done then log == old(log) + here.events && seenModules.elems == here.seen && outcome == here.outcome
        else old(log) + here.events == log + next.events && next.seen == here.seen && next.outcome == here.outcome
      decreases depth, 1
    {
      assert imports[i..][0] == imports[i] && imports[i..][1..] == imports[i + 1..];
      var importTerm := imports[i];
      var importName := ImportName(importTerm).value;
      ghost var before := log;
      var res := ResolveImport(ctx, importTerm, importName);
      ghost var resolution := ResolveSpec(ctx, includeDirectorySuppliers, includeAstSuppliers, importTerm, importName);
      match res
      case Aborted(e) =>
        return true, Threw(e);
      case NotResolved =>
        ghost var next := VisitImportsSpec(ctx, includeDirectorySuppliers, includeAstSuppliers, seenModules.elems, imports[i + 1..], depth);
        assert before + (resolution.events + next.events) == log + next.events;
        return false, Completed;
      case Resolved(importedAst) =>
        if depth == 0 {
          return true, Threw(DepthExceeded);
        }
        done, outcome := VisitResolvedImport(ctx, seenModules, imports, i, importedAst, depth, before);
    }

    /** The end of that iteration for an import that resolved: visit the imported module one level deeper. */
    method VisitResolvedImport(ctx: Context, seenModules: SeenModules, imports: seq<Term>, i: nat, importedAst: Term, depth: nat, ghost before: seq<Event>)
      returns (done: bool, outcome: Outcome)
      requires i < |imports| && ImportName(imports[i]).Some? && ImportName(imports[i]).value !in seenModules.elems && depth > 0
      requires var resolution := ResolveSpec(ctx, includeDirectorySuppliers, includeAstSuppliers, imports[i], ImportName(imports[i]).value);
        resolution.result == Resolved(importedAst) && log == before + resolution.events
      modifies this, seenModules
      ensures var here := VisitImportsSpec(ctx, includeDirectorySuppliers, includeAstSuppliers, old(seenModules.elems), imports[i..], depth);
        var next := VisitImportsSpec(ctx, includeDirectorySuppliers, includeAstSuppliers, seenModules.elems, imports[i + 1..], depth);
        if done then log == before + here.events && seenModules.elems == here.seen && outcome == here.outcome
        else before + here.events == log + next.events && next.seen == here.seen && next.outcome == here.outcome
      decreases depth, 0
    {
      assert imports[i..][0] == imports[i] && imports[i..][1..] == imports[i + 1..];
      ghost var resolution := ResolveSpec(ctx, includeDirectorySuppliers, includeAstSuppliers, imports[i], ImportName(imports[i]).value);
      VisitImportsResolvedStep(ctx, includeDirectorySuppliers, includeAstSuppliers, seenModules.elems, imports[i..], depth);
      ghost var visited := VisitSpec(ctx, includeDirectorySuppliers, includeAstSuppliers, seenModules.elems, importedAst, depth - 1);
      var sub := VisitAstWith(ctx, seenModules, importedAst, depth - 1);
      if sub.Threw? {
        return true, sub;
      }
      ghost var next := VisitImportsSpec(ctx, includeDirectorySuppliers, includeAstSuppliers, seenModules.elems, imports[i + 1..], depth);
      ConcatRegroup(before, resolution.events, visited.events, next.events);
      return false, Completed;
    }

    /** The public `visitAst`: a fresh seen-set. */
    method VisitAst(ctx: Context, ast: Term, depth: nat) returns (outcome: Outcome)
      modifies this
      ensures var goal := VisitSpec(ctx, includeDirectorySuppliers, includeAstSuppliers, {}, ast, depth);
        log == old(log) + goal.events && outcome == goal.outcome
    {
      var seenModules := new SeenModules();
      outcome := VisitAstWith(ctx, seenModules, ast, depth);
    }

    method VisitMainFile(ctx: Context, mainFile: Path, depth: nat) returns (outcome: Outcome)
      modifies this
      ensures var goal := VisitMainFileSpec(ctx, includeDirectorySuppliers, includeAstSuppliers, mainFile, depth);
        log == old(log) + goal.events && outcome == goal.outcome
    {
      var ast := Parse(ctx, mainFile);
      if ast.None? {
        return Completed;
      }
      var seenModules := new SeenModules();
      outcome := VisitAstWith(ctx, seenModules, ast.value, depth);
    }
  }
}
