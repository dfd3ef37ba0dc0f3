/** Normalized file system paths (utils/fs/path.cpp).

    A path is its list of components plus a flag; "/" is the absolute path without
    components and "." is the relative path with the single component ".". */
module Paths {

  datatype Path = Path(absolute: bool, components: seq<string>)

  const ROOT := Path(true, [])
  const DOT := Path(false, ["."])

  /** Everything but the last component, with the two special results of the source. */
  function Branch(p: Path): Path {
    if |p.components| <= 1 then
      if p.absolute then ROOT else DOT
    else
      Path(p.absolute, p.components[..|p.components| - 1])
  }

  /** `a` is `b` or one of its ancestors, where "." and "/" are nobody's ancestors. */
  predicate ParentOf(a: Path, b: Path) {
    || a == b
    || (&& a != DOT
        && a.absolute == b.absolute
        && 0 < |a.components| < |b.components|
        && a.components == b.components[..|a.components|])
  }

  /** The loop of `is_parent_of`: compare, strip one component, stop at "." or "/". */
  method IsParentOf(self: Path, other: Path) returns (yes: bool)
    ensures yes == ParentOf(self, other)
  {
    if self == other {
      return true;
    }
    var p := Branch(other);
    while p != DOT && p != ROOT
      invariant p == DOT || p == ROOT || 0 < |p.components| < |other.components|
      invariant ParentOf(self, other) == (p != DOT && p != ROOT && ParentOf(self, p))
      decreases if p == DOT || p == ROOT then 0 else |p.components|
    {
      if self == p {
        return true;
      }
      p := Branch(p);
    }
    return false;
  }

  /** The parents of a path: itself, and whatever it extends by further components, but "."
      and "/". */
  lemma ParentMeaning(a: Path, b: Path)
    ensures ParentOf(a, b) <==>
      || a == b
      || (a != DOT && a.components != [] && exists more :: more != [] && b == Path(a.absolute, a.components + more))
  {
    if ParentOf(a, b) && a != b {
      var more := b.components[|a.components|..];
      assert b.components == a.components + more;
    }
  }

  lemma ParentOfTransitive(a: Path, b: Path, c: Path)
    requires ParentOf(a, b) && ParentOf(b, c)
    ensures ParentOf(a, c)
  {
  }

  /** Two ancestors of one path lie on one line. */
  lemma AncestorsComparable(a: Path, b: Path, c: Path)
    requires ParentOf(a, c) && ParentOf(b, c)
    ensures ParentOf(a, b) || ParentOf(b, a)
  {
  }
}
