/** Hierarchical resource paths as sequences of segments. */
module Paths {
  import opened Wrappers

  type Path = seq<string>

  /** Requiring a resource and asking whether it exists: it is missing, it is present, or an `IOException` with this message is thrown. */
  datatype Probe = Missing | Present | ProbeFailed(io: string)

  predicate EndsWith(s: string, suffix: string) {
    |suffix| <= |s| && s[|s| - |suffix|..] == suffix
  }

  /** Appends a relative path; a relative path is kept as one segment. */
  function AppendRelativePath(p: Path, relative: string): (r: Path)
    ensures |r| == |p| + 1 && r[..|p|] == p && r[|p|] == relative
  {
    p + [relative]
  }

  function Leaf(p: Path): (r: Option<string>)
    ensures r.Some? <==> |p| > 0
    ensures r.Some? ==> r.value == p[|p| - 1]
  {
    if |p| == 0 then None else Some(p[|p| - 1])
  }

  /**
   * Gives the leaf the extension `ext`: a leaf that already has it is kept,
   * any other leaf gets "." + ext appended; a path without a leaf is kept.
   */
  function EnsureLeafExtension(p: Path, ext: string): (r: Path)
  {
    if |p| == 0 || EndsWith(p[|p| - 1], "." + ext) then p
    else p[..|p| - 1] + [p[|p| - 1] + "." + ext]
  }

  lemma EnsureLeafExtensionSpec(p: Path, ext: string)
    ensures var r := EnsureLeafExtension(p, ext);
      && |r| == |p|
      && (|p| > 0 ==> r[..|p| - 1] == p[..|p| - 1] && EndsWith(r[|p| - 1], "." + ext))
      && (|p| > 0 && EndsWith(p[|p| - 1], "." + ext) ==> r == p)
  {
    if |p| > 0 && !EndsWith(p[|p| - 1], "." + ext) {
      var leaf := p[|p| - 1] + "." + ext;
      assert leaf[|leaf| - |"." + ext|..] == "." + ext;
    }
  }

  lemma EnsureLeafExtensionIdempotent(p: Path, ext: string)
    ensures EnsureLeafExtension(EnsureLeafExtension(p, ext), ext) == EnsureLeafExtension(p, ext)
  {
    EnsureLeafExtensionSpec(p, ext);
  }

  /** The ESV file for module `name` in directory `dir`: `<dir>/<name>.esv`. */
  function EsvFile(dir: Path, name: string): (r: Path)
  {
    EnsureLeafExtension(AppendRelativePath(dir, name), "esv")
  }

  lemma EsvFileSpec(dir: Path, name: string)
    ensures var r := EsvFile(dir, name);
      && |r| == |dir| + 1 && r[..|dir|] == dir
      && EndsWith(r[|dir|], ".esv")
      && (EndsWith(name, ".esv") ==> r[|dir|] == name)
      && (!EndsWith(name, ".esv") ==> r[|dir|] == name + ".esv")
  {
    var q := AppendRelativePath(dir, name);
    EnsureLeafExtensionSpec(q, "esv");
    assert q[|q| - 1] == name;
    assert q[..|q| - 1] == dir;
  }
}
