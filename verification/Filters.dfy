/** Test filters (engine/filters.cpp): `program[:case]`, where a filter without a case also
    covers everything below `program`. */
module Filters {
  import opened Results
  import opened Paths

  /** An empty `case_` stands for "no case given". */
  datatype Filter = Filter(program: Path, case_: string)

  predicate Contains(f: Filter, g: Filter) {
    f == g || (f.case_ == "" && ParentOf(f.program, g.program))
  }

  predicate MatchesProgram(f: Filter, program: Path) {
    f.program == program || (f.case_ == "" && ParentOf(f.program, program))
  }

  predicate MatchesCase(f: Filter, program: Path, name: string) {
    MatchesProgram(f, program) && (f.case_ == "" || f.case_ == name)
  }

  // ---------- The theory of containment ----------

  lemma ContainmentIsPartialOrder(f: Filter, g: Filter, h: Filter)
    ensures Contains(f, f)
    ensures Contains(f, g) && Contains(g, f) ==> f == g
    ensures Contains(f, g) && Contains(g, h) ==> Contains(f, h)
  {
  }

  /** A filter matches a test case of its own program: the named one, or any. */
  function Sample(f: Filter): string {
    if f.case_ == "" then "x" else f.case_
  }

  /** Containment is exactly inclusion of the matched test cases. */
  lemma ContainmentIsInclusion(f: Filter, g: Filter)
    ensures Contains(f, g) <==>
      forall program, name :: MatchesCase(g, program, name) ==> MatchesCase(f, program, name)
  {
    if Contains(f, g) {
      forall program, name | MatchesCase(g, program, name)
        ensures MatchesCase(f, program, name)
      {
        if f != g {
          ParentOfTransitive(f.program, g.program, program);
        }
      }
    } else {
      var name := if f.case_ != "" && g.case_ == "" then f.case_ + "x" else Sample(g);
      assert MatchesCase(g, g.program, name);
      if f.case_ != "" && g.case_ == "" {
        assert |name| != |f.case_|;
      }
      assert !MatchesCase(f, g.program, name);
    }
  }

  /** Two filters share a test case exactly when one contains the other. */
  lemma OverlapIsContainment(f: Filter, g: Filter)
    ensures Contains(f, g) || Contains(g, f) <==>
      exists program, name :: MatchesCase(f, program, name) && MatchesCase(g, program, name)
  {
    if Contains(f, g) {
      assert MatchesCase(g, g.program, Sample(g)) && MatchesCase(f, g.program, Sample(g));
    } else if Contains(g, f) {
      assert MatchesCase(f, f.program, Sample(f)) && MatchesCase(g, f.program, Sample(f));
    }
    forall program, name | MatchesCase(f, program, name) && MatchesCase(g, program, name)
      ensures Contains(f, g) || Contains(g, f)
    {
      if f.case_ == "" && g.case_ == "" {
        AncestorsComparable(f.program, g.program, program);
      }
    }
  }

  // ---------- Sets of filters, in iteration order ----------

  predicate Distinct(filters: seq<Filter>) {
    forall i, j :: 0 <= i < j < |filters| ==> filters[i] != filters[j]
  }

  predicate MatchedBy(filters: seq<Filter>, program: Path, name: string) {
    filters == [] || exists f :: f in filters && MatchesCase(f, program, name)
  }

  predicate ProgramMatchedBy(filters: seq<Filter>, program: Path) {
    filters == [] || exists f :: f in filters && MatchesProgram(f, program)
  }

  /** The filter that gets the credit for a match: the first one in iteration order. */
  function FirstMatch(filters: seq<Filter>, program: Path, name: string): Option<Filter> {
    if filters == [] then None
    else if MatchesCase(filters[0], program, name) then Some(filters[0])
    else FirstMatch(filters[1..], program, name)
  }

  lemma {:induction false} FirstMatchMatches(filters: seq<Filter>, program: Path, name: string)
    ensures var m := FirstMatch(filters, program, name);
      && (m.Some? <==> exists f :: f in filters && MatchesCase(f, program, name))
      && (m.Some? ==> m.value in filters && MatchesCase(m.value, program, name))
  {
    if filters != [] {
      FirstMatchMatches(filters[1..], program, name);
      assert filters == [filters[0]] + filters[1..];
    }
  }

  method MatchTestProgram(filters: seq<Filter>, name: Path) returns (matches: bool)
    ensures matches == ProgramMatchedBy(filters, name)
  {
    if filters == [] {
      return true;
    }
    matches := false;
    var i := 0;
    while !matches && i < |filters|
      invariant 0 <= i <= |filters|
      invariant matches <==> exists k :: 0 <= k < i && MatchesProgram(filters[k], name)
    {
      matches := MatchesProgram(filters[i], name);
      i := i + 1;
    }
  }

  /** The first component says whether the test case is wanted, the second by which filter. */
  method MatchTestCase(filters: seq<Filter>, program: Path, name: string) returns (wanted: bool, via: Option<Filter>)
    ensures wanted == MatchedBy(filters, program, name)
    ensures via == FirstMatch(filters, program, name)
  {
    if filters == [] {
      return true, None;
    }
    via := None;
    var i := 0;
    while via.None? && i < |filters|
      invariant 0 <= i <= |filters|
      invariant FirstMatch(filters, program, name) == if via.Some? then via else FirstMatch(filters[i..], program, name)
    {
      if MatchesCase(filters[i], program, name) {
        via := Some(filters[i]);
      }
      i := i + 1;
    }
    FirstMatchMatches(filters, program, name);
    wanted := via.Some?;
  }

  predicate Disjoint(filters: seq<Filter>) {
    forall i, j :: 0 <= i < |filters| && 0 <= j < |filters| && i != j ==> !Contains(filters[i], filters[j])
  }

  /** The quadratic check over all ordered pairs; `clash` is the pair it complains about. */
  method CheckDisjoint(filters: seq<Filter>) returns (clash: Option<(Filter, Filter)>)
    ensures clash.None? <==> Disjoint(filters)
    ensures clash.Some? ==> clash.value.0 in filters && clash.value.1 in filters && Contains(clash.value.0, clash.value.1)
  {
    for i := 0 to |filters|
      invariant forall k, j :: 0 <= k < i && 0 <= j < |filters| && k != j ==> !Contains(filters[k], filters[j])
    {
      for j := 0 to |filters|
        invariant forall l :: 0 <= l < j && i != l ==> !Contains(filters[i], filters[l])
      {
        if i != j && Contains(filters[i], filters[j]) {
          return Some((filters[i], filters[j]));
        }
      }
    }
    return None;
  }

  /** A set of filters is accepted exactly when no test case matches two of them. */
  lemma DisjointMeansNoSharedCase(filters: seq<Filter>)
    requires Distinct(filters)
    ensures Disjoint(filters) <==>
      forall program, name, f, g | f in filters && g in filters ::
        MatchesCase(f, program, name) && MatchesCase(g, program, name) ==> f == g
  {
    if Disjoint(filters) {
      forall program, name, f, g |
          f in filters && g in filters && MatchesCase(f, program, name) && MatchesCase(g, program, name)
        ensures f == g
      {
        OverlapIsContainment(f, g);
      }
    } else {
      var i, j :| 0 <= i < |filters| && 0 <= j < |filters| && i != j && Contains(filters[i], filters[j]);
      OverlapIsContainment(filters[i], filters[j]);
    }
  }

  /** The pre-filter on programs loses nothing. */
  lemma PrefilterIsSound(filters: seq<Filter>, program: Path, name: string)
    requires MatchedBy(filters, program, name)
    ensures ProgramMatchedBy(filters, program)
  {
  }

  // ---------- Tracking which filters were used ----------

  class FiltersState {
    const filters: seq<Filter>
    var used: set<Filter>

    /** The condition under which the set difference may be taken. */
    predicate Valid()
      reads this
    {
      forall f :: f in used ==> f in filters
    }

    constructor (filters: seq<Filter>)
      ensures Valid() && this.filters == filters && used == {}
    {
      this.filters := filters;
      used := {};
    }

    method MatchCase(program: Path, name: string) returns (wanted: bool)
      requires Valid()
      modifies this
      ensures Valid()
      ensures wanted == MatchedBy(filters, program, name)
      ensures var m := FirstMatch(filters, program, name);
        used == old(used) + if m.Some? then {m.value} else {}
    {
      var via;
      wanted, via := MatchTestCase(filters, program, name);
      if wanted && via.Some? {
        used := used + {via.value};
      }
      FirstMatchMatches(filters, program, name);
    }

    method Unused() returns (left: set<Filter>)
      requires Valid()
      ensures left + used == (set f | f in filters) && left !! used
      ensures left == (set f | f in filters && f !in used)
    {
      left := (set f | f in filters) - used;
    }
  }
}
