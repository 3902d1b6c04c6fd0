/** Stratego terms as the CFG and ESV front ends see them. */
module Terms {
  import opened Wrappers

  datatype Term =
    | Appl(cons: string, args: seq<Term>)
    | Str(s: string)
    | Lst(elems: seq<Term>)

  /** The direct subterms of a term, in order (what iterating over an `IStrategoTerm` yields). */
  function Subterms(t: Term): (r: seq<Term>)
    ensures t.Appl? ==> r == t.args
    ensures t.Lst? ==> r == t.elems
    ensures t.Str? ==> r == []
  {
    match t
    case Appl(_, args) => args
    case Lst(elems) => elems
    case Str(_) => []
  }

  /** The string at subterm `i`, if there is such a subterm and it is a string term. */
  function StringAt(t: Term, i: nat): (r: Option<string>)
    ensures r.Some? <==> i < |Subterms(t)| && Subterms(t)[i].Str?
    ensures r.Some? ==> Subterms(t)[i] == Str(r.value)
  {
    var ts := Subterms(t);
    if i < |ts| && ts[i].Str? then Some(ts[i].s) else None
  }

  /** The elements of the list at subterm `i`, if there is such a subterm and it is a list term. */
  function ListAt(t: Term, i: nat): (r: Option<seq<Term>>)
    ensures r.Some? <==> i < |Subterms(t)| && Subterms(t)[i].Lst?
    ensures r.Some? ==> Subterms(t)[i] == Lst(r.value)
  {
    var ts := Subterms(t);
    if i < |ts| && ts[i].Lst? then Some(ts[i].elems) else None
  }
}
