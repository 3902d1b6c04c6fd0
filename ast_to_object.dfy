/**
 * The term decoders of the CFG front end (`mb.cfg.task.AstToObject`): total
 * mappings from constructor names to command enums and argument-provider
 * representations, each failing with `InvalidAstShapeException` otherwise.
 */
module AstToObject {
  import opened Wrappers
  import opened Terms
  import Paths

  /** `InvalidAstShapeException(expected, term)`, and a subterm read past the end of a term. */
  datatype ShapeError =
    | InvalidAstShape(expected: string, term: Term)
    | SubtermIndexOutOfBounds(term: Term, index: nat)

  datatype CommandExecutionType = ManualOnce | ManualContinuous | AutomaticContinuous

  datatype CommandContextType = Project | Directory | File | ResourcePath | ResourceKey | Region | Offset

  datatype EnclosingCommandContextType = EnclosingProject | EnclosingDirectory

  datatype ArgProviderRepr =
    | Value(value: string)
    | Context(contextType: CommandContextType)
    | EnclosingContext(enclosingType: EnclosingCommandContextType)

  /** The CFG constructor that stands for each execution type. */
  function ExecutionTypeConstructor(e: CommandExecutionType): string {
    match e
    case ManualOnce => "ManualOnce"
    case ManualContinuous => "ManualContinuous"
    case AutomaticContinuous => "AutomaticContinuous"
  }

  /** The CFG constructor that stands for each context type. */
  function ContextConstructor(c: CommandContextType): string {
    match c
    case Project => "ProjectContext"
    case Directory => "DirectoryContext"
    case File => "FileContext"
    case ResourcePath => "ResourcePathContext"
    case ResourceKey => "ResourceKeyContext"
    case Region => "RegionContext"
    case Offset => "OffsetContext"
  }

  /** The CFG constructor that stands for each enclosing context type. */
  function EnclosingContextConstructor(c: EnclosingCommandContextType): string {
    match c
    case EnclosingProject => "ProjectEnclosingContext"
    case EnclosingDirectory => "DirectoryEnclosingContext"
  }

  const ExecutionTypeConstructors: set<string> := {"ManualOnce", "ManualContinuous", "AutomaticContinuous"}

  const ContextConstructors: set<string> :=
    {"ProjectContext", "DirectoryContext", "FileContext", "ResourcePathContext",
     "ResourceKeyContext", "RegionContext", "OffsetContext"}

  const EnclosingContextConstructors: set<string> := {"ProjectEnclosingContext", "DirectoryEnclosingContext"}

  /** `toCommandExecutionType`. */
  function ToCommandExecutionType(t: Term): (r: Result<CommandExecutionType, ShapeError>)
    ensures r.Ok? <==> t.Appl? && t.cons in ExecutionTypeConstructors
    ensures r.Ok? ==> ExecutionTypeConstructor(r.value) == t.cons
    ensures !t.Appl? ==> r == Err(InvalidAstShape("an ExecutionType term application", t))
    ensures t.Appl? && r.Err? ==> r == Err(InvalidAstShape("a term of sort ExecutionType", t))
  {
    match t
    case Appl(cons, _) =>
      if cons == "ManualOnce" then Ok(ManualOnce)
      else if cons == "ManualContinuous" then Ok(ManualContinuous)
      else if cons == "AutomaticContinuous" then Ok(AutomaticContinuous)
      else Err(InvalidAstShape("a term of sort ExecutionType", t))
    case _ => Err(InvalidAstShape("an ExecutionType term application", t))
  }

  /** `toCommandContextType`. */
  function ToCommandContextType(t: Term): (r: Result<CommandContextType, ShapeError>)
    ensures r.Ok? <==> t.Appl? && t.cons in ContextConstructors
    ensures r.Ok? ==> ContextConstructor(r.value) == t.cons
    ensures !t.Appl? ==> r == Err(InvalidAstShape("a term application", t))
    ensures t.Appl? && r.Err? ==> r == Err(InvalidAstShape("a term of sort CommandContext", t))
  {
    match t
    case Appl(cons, _) =>
      if cons == "ProjectContext" then Ok(Project)
      else if cons == "DirectoryContext" then Ok(Directory)
      else if cons == "FileContext" then Ok(File)
      else if cons == "ResourcePathContext" then Ok(ResourcePath)
      else if cons == "ResourceKeyContext" then Ok(ResourceKey)
      else if cons == "RegionContext" then Ok(Region)
      else if cons == "OffsetContext" then Ok(Offset)
      else Err(InvalidAstShape("a term of sort CommandContext", t))
    case _ => Err(InvalidAstShape("a term application", t))
  }

  /** `toEnclosingCommandContextType`. */
  function ToEnclosingCommandContextType(t: Term): (r: Result<EnclosingCommandContextType, ShapeError>)
    ensures r.Ok? <==> t.Appl? && t.cons in EnclosingContextConstructors
    ensures r.Ok? ==> EnclosingContextConstructor(r.value) == t.cons
    ensures !t.Appl? ==> r == Err(InvalidAstShape("a term application", t))
    ensures t.Appl? && r.Err? ==> r == Err(InvalidAstShape("a term of sort EnclosingCommandContext", t))
  {
    match t
    case Appl(cons, _) =>
      if cons == "ProjectEnclosingContext" then Ok(EnclosingProject)
      else if cons == "DirectoryEnclosingContext" then Ok(EnclosingDirectory)
      else Err(InvalidAstShape("a term of sort EnclosingCommandContext", t))
    case _ => Err(InvalidAstShape("a term application", t))
  }

  /** The first subterm of an application (`appl.getSubterm(0)`), failing past the end. */
  function FirstSubterm(t: Term): (r: Result<Term, ShapeError>)
    requires t.Appl?
    ensures r.Ok? <==> |t.args| > 0
    ensures r.Ok? ==> r.value == t.args[0]
    ensures r.Err? ==> r.error == SubtermIndexOutOfBounds(t, 0)
  {
    if |t.args| > 0 then Ok(t.args[0]) else Err(SubtermIndexOutOfBounds(t, 0))
  }

  /** `toParameterArgumentProvider`. */
  function ToParameterArgumentProvider(t: Term): (r: Result<ArgProviderRepr, ShapeError>)
    ensures !t.Appl? ==> r == Err(InvalidAstShape("a term application", t))
    ensures t.Appl? && t.cons !in {"ValueArgumentProvider", "ContextArgumentProvider", "EnclosingContextArgumentProvider"} ==>
      r == Err(InvalidAstShape("a term of sort ArgumentProvider", t))
    ensures t.Appl? && t.cons == "ValueArgumentProvider" ==>
      (r.Ok? <==> StringAt(t, 0).Some?) &&
      (r.Ok? ==> r.value == Value(StringAt(t, 0).value)) &&
      (r.Err? ==> r.error == InvalidAstShape("a string as first subterm", t))
    ensures t.Appl? && t.cons == "ContextArgumentProvider" ==>
      (r.Ok? <==> |t.args| > 0 && ToCommandContextType(t.args[0]).Ok?) &&
      (r.Ok? ==> r.value == Context(ToCommandContextType(t.args[0]).value)) &&
      (r.Err? && |t.args| > 0 ==> r == Err(ToCommandContextType(t.args[0]).error)) &&
      (|t.args| == 0 ==> r == Err(SubtermIndexOutOfBounds(t, 0)))
    ensures t.Appl? && t.cons == "EnclosingContextArgumentProvider" ==>
      (r.Ok? <==> |t.args| > 0 && ToEnclosingCommandContextType(t.args[0]).Ok?) &&
      (r.Ok? ==> r.value == EnclosingContext(ToEnclosingCommandContextType(t.args[0]).value)) &&
      (r.Err? && |t.args| > 0 ==> r == Err(ToEnclosingCommandContextType(t.args[0]).error)) &&
      (|t.args| == 0 ==> r == Err(SubtermIndexOutOfBounds(t, 0)))
  {
    match t
    case Appl(cons, _) =>
      if cons == "ValueArgumentProvider" then
        match StringAt(t, 0)
        case Some(s) => Ok(Value(s))
        case None => Err(InvalidAstShape("a string as first subterm", t))
      else if cons == "ContextArgumentProvider" then
        match FirstSubterm(t)
        case Err(e) => Err(e)
        case Ok(sub) =>
          match ToCommandContextType(sub)
          case Ok(c) => Ok(Context(c))
          case Err(e) => Err(e)
      else if cons == "EnclosingContextArgumentProvider" then
        match FirstSubterm(t)
        case Err(e) => Err(e)
        case Ok(sub) =>
          match ToEnclosingCommandContextType(sub)
          case Ok(c) => Ok(EnclosingContext(c))
          case Err(e) => Err(e)
      else Err(InvalidAstShape("a term of sort ArgumentProvider", t))
    case _ => Err(InvalidAstShape("a term application", t))
  }

  /** The CFG term that stands for an argument provider (the inverse of the decoder). */
  function ProviderTerm(p: ArgProviderRepr): Term {
    match p
    case Value(s) => Appl("ValueArgumentProvider", [Str(s)])
    case Context(c) => Appl("ContextArgumentProvider", [Appl(ContextConstructor(c), [])])
    case EnclosingContext(c) => Appl("EnclosingContextArgumentProvider", [Appl(EnclosingContextConstructor(c), [])])
  }

  /** Decoding a constructor term gives back the enum value it stands for, whatever its arguments. */
  lemma DecodersInvertConstructors(e: CommandExecutionType, c: CommandContextType,
                                   d: EnclosingCommandContextType, args: seq<Term>)
    ensures ToCommandExecutionType(Appl(ExecutionTypeConstructor(e), args)) == Ok(e)
    ensures ToCommandContextType(Appl(ContextConstructor(c), args)) == Ok(c)
    ensures ToEnclosingCommandContextType(Appl(EnclosingContextConstructor(d), args)) == Ok(d)
  {
  }

  /** The seven context constructors decode to seven distinct values. */
  lemma ContextConstructorsDistinct(c1: CommandContextType, c2: CommandContextType)
    ensures ContextConstructor(c1) == ContextConstructor(c2) <==> c1 == c2
    ensures ContextConstructor(c1) in ContextConstructors
    ensures |ContextConstructors| == 7
  {
  }

  /** Argument providers round-trip through their CFG terms. */
  lemma ProviderRoundTrip(p: ArgProviderRepr)
    ensures ToParameterArgumentProvider(ProviderTerm(p)) == Ok(p)
  {
    match p
    case Value(s) =>
      assert StringAt(ProviderTerm(p), 0) == Some(s);
    case Context(c) =>
      DecodersInvertConstructors(ManualOnce, c, EnclosingProject, []);
    case EnclosingContext(d) =>
      DecodersInvertConstructors(ManualOnce, Project, d, []);
  }

  /** A successful decode determines the constructor and the decoded first subterm. */
  lemma ProviderDecodeDeterminesTerm(t: Term)
    requires ToParameterArgumentProvider(t).Ok?
    ensures var p := ToParameterArgumentProvider(t).value;
      t.Appl? && |t.args| > 0 && t.cons == ProviderTerm(p).cons &&
      match p
      case Value(s) => t.args[0] == Str(s)
      case Context(c) => t.args[0].Appl? && t.args[0].cons == ContextConstructor(c)
      case EnclosingContext(d) => t.args[0].Appl? && t.args[0].cons == EnclosingContextConstructor(d)
  {
  }

  /**
   * Decodes the terms of a list one by one, in order, stopping at the first
   * failure (the `forEach` loops over execution types and over
   * `ParameterArgumentProviders`): the decoded values keep source order.
   */
  method DecodeInOrder<T>(terms: seq<Term>, decode: Term -> Result<T, ShapeError>) returns (r: Result<seq<T>, ShapeError>)
    ensures r.Ok? <==> forall i :: 0 <= i < |terms| ==> decode(terms[i]).Ok?
    ensures r.Ok? ==> |r.value| == |terms| && forall i :: 0 <= i < |terms| ==> decode(terms[i]) == Ok(r.value[i])
    ensures r.Err? ==> exists k :: 0 <= k < |terms| && decode(terms[k]) == Err(r.error) &&
                                  (forall i :: 0 <= i < k ==> decode(terms[i]).Ok?)
  {
    var decoded: seq<T> := [];
    var i := 0;
    while i < |terms|
      invariant 0 <= i <= |terms|
      invariant |decoded| == i
      invariant forall j :: 0 <= j < i ==> decode(terms[j]) == Ok(decoded[j])
    {
      var d := decode(terms[i]);
      if d.Err? {
        return Err(d.error);
      }
      decoded := decoded + [d.value];
      i := i + 1;
    }
    r := Ok(decoded);
  }

  /** The `CommandDefSupportedExecutionTypes` loop: each type term decoded in order. */
  method DecodeSupportedExecutionTypes(terms: seq<Term>) returns (r: Result<seq<CommandExecutionType>, ShapeError>)
    ensures r.Ok? <==> forall i :: 0 <= i < |terms| ==> terms[i].Appl? && terms[i].cons in ExecutionTypeConstructors
    ensures r.Ok? ==> |r.value| == |terms| && forall i :: 0 <= i < |terms| ==> ExecutionTypeConstructor(r.value[i]) == terms[i].cons
    ensures r.Err? ==> exists k :: 0 <= k < |terms| && ToCommandExecutionType(terms[k]) == Err(r.error) &&
                                  (forall i :: 0 <= i < k ==> ToCommandExecutionType(terms[i]).Ok?)
  {
    r := DecodeInOrder(terms, ToCommandExecutionType);
    if r.Ok? {
      forall i | 0 <= i < |terms|
        ensures ExecutionTypeConstructor(r.value[i]) == terms[i].cons
      {
        assert ToCommandExecutionType(terms[i]) == Ok(r.value[i]);
      }
    }
  }

  /** The `ParameterArgumentProviders` loop: each provider term decoded in source order. */
  method DecodeParameterArgumentProviders(terms: seq<Term>) returns (r: Result<seq<ArgProviderRepr>, ShapeError>)
    ensures r.Ok? <==> forall i :: 0 <= i < |terms| ==> ToParameterArgumentProvider(terms[i]).Ok?
    ensures r.Ok? ==> |r.value| == |terms| && forall i :: 0 <= i < |terms| ==> ToParameterArgumentProvider(terms[i]) == Ok(r.value[i])
    ensures r.Err? ==> exists k :: 0 <= k < |terms| && ToParameterArgumentProvider(terms[k]) == Err(r.error) &&
                                  (forall i :: 0 <= i < k ==> ToParameterArgumentProvider(terms[i]).Ok?)
  {
    r := DecodeInOrder(terms, ToParameterArgumentProvider);
  }

  /** The part list of a CFG AST (`asListAt(ast, 0)`), the first shape check of `convert`. */
  function PartList(ast: Term): (r: Result<seq<Term>, ShapeError>)
    ensures r.Ok? <==> |Subterms(ast)| > 0 && Subterms(ast)[0].Lst?
    ensures r.Ok? ==> Subterms(ast)[0] == Lst(r.value)
    ensures r.Err? ==> r.error == InvalidAstShape("part list as first subterm", ast)
  {
    match ListAt(ast, 0)
    case Some(parts) => Ok(parts)
    case None => Err(InvalidAstShape("part list as first subterm", ast))
  }

  /** The id and the property list of a `Parameter` term, checked in that order. */
  function ParameterHeader(t: Term): (r: Result<(string, seq<Term>), ShapeError>)
    ensures r.Ok? <==> StringAt(t, 0).Some? && ListAt(t, 1).Some?
    ensures r.Ok? ==> r.value == (StringAt(t, 0).value, ListAt(t, 1).value)
    ensures StringAt(t, 0).None? ==> r == Err(InvalidAstShape("id as first subterm", t))
    ensures StringAt(t, 0).Some? && ListAt(t, 1).None? ==> r == Err(InvalidAstShape("list as second subterm", t))
  {
    match StringAt(t, 0)
    case None => Err(InvalidAstShape("id as first subterm", t))
    case Some(id) =>
      match ListAt(t, 1)
      case None => Err(InvalidAstShape("list as second subterm", t))
      case Some(props) => Ok((id, props))
  }

  /** The `JavaPackageIdPrefix` rule: a prefix without a trailing "." gets one. */
  function NormalizePackageIdPrefix(prefix: string): (r: string)
    ensures Paths.EndsWith(r, ".")
    ensures Paths.EndsWith(prefix, ".") ==> r == prefix
    ensures !Paths.EndsWith(prefix, ".") ==> r == prefix + "."
  {
    if Paths.EndsWith(prefix, ".") then prefix else prefix + "."
  }

  /** Normalising twice is normalising once, and the result is the shortest extension of the prefix ending in ".". */
  lemma NormalizePackageIdPrefixIdempotent(prefix: string)
    ensures NormalizePackageIdPrefix(NormalizePackageIdPrefix(prefix)) == NormalizePackageIdPrefix(prefix)
    ensures var r := NormalizePackageIdPrefix(prefix); prefix <= r && |r| <= |prefix| + 1
  {
  }
}
