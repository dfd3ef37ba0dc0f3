/** The scanner (engine/scanner.cpp): a lazy iterator over the test cases that the filters
    want, which asks a test program for its list of test cases only when it gets there. */
module Scanner {
  import opened Results
  import opened TestModel
  import Paths
  import F = Filters
  import S = Scheduler

  // ---------- What a scan means ----------

  /** The wanted test cases among `cases`, in order. */
  function Wanted(filters: seq<F.Filter>, program: TestProgram, cases: seq<TestCase>): seq<Test> {
    if cases == [] then []
    else
      (if F.MatchedBy(filters, program.path, cases[0].name) then [Test(program, cases[0])] else [])
      + Wanted(filters, program, cases[1..])
  }

  /** The wanted test cases of all programs, in order; there is no pre-filter here. */
  function Selected(filters: seq<F.Filter>, programs: seq<TestProgram>): seq<Test> {
    if programs == [] then []
    else Wanted(filters, programs[0], programs[0].cases) + Selected(filters, programs[1..])
  }

  /** The programs that have to be asked for their test cases. */
  function ToAsk(filters: seq<F.Filter>, programs: seq<TestProgram>): seq<TestProgram> {
    if programs == [] then []
    else
      (if F.ProgramMatchedBy(filters, programs[0].path) then [programs[0]] else [])
      + ToAsk(filters, programs[1..])
  }

  /** A program that no filter matches contributes nothing. */
  lemma {:induction false} UnmatchedProgramHasNothing(filters: seq<F.Filter>, program: TestProgram, cases: seq<TestCase>)
    requires !F.ProgramMatchedBy(filters, program.path)
    ensures Wanted(filters, program, cases) == []
  {
    if cases != [] {
      if F.MatchedBy(filters, program.path, cases[0].name) {
        F.PrefilterIsSound(filters, program.path, cases[0].name);
      }
      UnmatchedProgramHasNothing(filters, program, cases[1..]);
    }
  }

  /** Membership in a scan, without reference to the order. */
  lemma {:induction false} WantedMembers(filters: seq<F.Filter>, program: TestProgram, cases: seq<TestCase>, t: Test)
    ensures t in Wanted(filters, program, cases) <==>
      t.program == program && t.case_ in cases && F.MatchedBy(filters, program.path, t.case_.name)
  {
    if cases != [] {
      WantedMembers(filters, program, cases[1..], t);
      assert cases == [cases[0]] + cases[1..];
    }
  }

  lemma {:induction false} SelectedMembers(filters: seq<F.Filter>, programs: seq<TestProgram>, t: Test)
    ensures t in Selected(filters, programs) <==>
      t.program in programs && t.case_ in t.program.cases && F.MatchedBy(filters, t.program.path, t.case_.name)
  {
    if programs != [] {
      SelectedMembers(filters, programs[1..], t);
      WantedMembers(filters, programs[0], programs[0].cases, t);
      assert programs == [programs[0]] + programs[1..];
    }
  }

  /** The programs of a scan are distinct, and so are the names of the cases of a program. */
  predicate DistinctTests(programs: seq<TestProgram>) {
    && (forall i, j :: 0 <= i < j < |programs| ==> programs[i] != programs[j])
    && (forall p :: p in programs ==> DistinctNames(p.cases))
  }

  predicate DistinctNames(cases: seq<TestCase>) {
    forall i, j :: 0 <= i < j < |cases| ==> cases[i].name != cases[j].name
  }

  predicate NoDuplicates(tests: seq<Test>) {
    forall i, j :: 0 <= i < j < |tests| ==> tests[i] != tests[j]
  }

  lemma NoDuplicatesConcat(a: seq<Test>, b: seq<Test>)
    requires NoDuplicates(a) && NoDuplicates(b)
    requires forall t :: t in a && t in b ==> false
    ensures NoDuplicates(a + b)
  {
    forall i, j | 0 <= i < j < |a + b|
      ensures (a + b)[i] != (a + b)[j]
    {
      if i < |a| <= j {
        assert (a + b)[i] in a && (a + b)[j] in b;
      }
    }
  }

  lemma {:induction false} WantedOnce(filters: seq<F.Filter>, program: TestProgram, cases: seq<TestCase>)
    requires DistinctNames(cases)
    ensures NoDuplicates(Wanted(filters, program, cases))
  {
    if cases != [] {
      WantedOnce(filters, program, cases[1..]);
      WantedMembers(filters, program, cases[1..], Test(program, cases[0]));
    }
  }

  /** No test is yielded twice. */
  lemma {:induction false} SelectedOnce(filters: seq<F.Filter>, programs: seq<TestProgram>)
    requires DistinctTests(programs)
    ensures NoDuplicates(Selected(filters, programs))
  {
    if programs != [] {
      SelectedOnce(filters, programs[1..]);
      WantedOnce(filters, programs[0], programs[0].cases);
      forall t | t in Wanted(filters, programs[0], programs[0].cases)
        ensures t !in Selected(filters, programs[1..])
      {
        WantedMembers(filters, programs[0], programs[0].cases, t);
        SelectedMembers(filters, programs[1..], t);
      }
      NoDuplicatesConcat(Wanted(filters, programs[0], programs[0].cases), Selected(filters, programs[1..]));
    }
  }

  lemma {:induction false} WantedOrder(filters: seq<F.Filter>, program: TestProgram, cases: seq<TestCase>, i: nat, j: nat)
    returns (c: nat, d: nat)
    requires i < j < |Wanted(filters, program, cases)|
    ensures c < d < |cases|
    ensures Wanted(filters, program, cases)[i] == Test(program, cases[c])
    ensures Wanted(filters, program, cases)[j] == Test(program, cases[d])
  {
    if !F.MatchedBy(filters, program.path, cases[0].name) {
      c, d := WantedOrder(filters, program, cases[1..], i, j);
      c, d := c + 1, d + 1;
    } else if i > 0 {
      c, d := WantedOrder(filters, program, cases[1..], i - 1, j - 1);
      c, d := c + 1, d + 1;
    } else {
      d := WantedAt(filters, program, cases[1..], j - 1);
      c, d := 0, d + 1;
    }
  }

  lemma WantedAt(filters: seq<F.Filter>, program: TestProgram, cases: seq<TestCase>, i: nat) returns (c: nat)
    requires i < |Wanted(filters, program, cases)|
    ensures c < |cases| && Wanted(filters, program, cases)[i] == Test(program, cases[c])
  {
    var t := Wanted(filters, program, cases)[i];
    assert t in Wanted(filters, program, cases);
    WantedMembers(filters, program, cases, t);
    c :| c < |cases| && cases[c] == t.case_;
  }

  lemma SelectedAt(filters: seq<F.Filter>, programs: seq<TestProgram>, i: nat) returns (p: nat)
    requires i < |Selected(filters, programs)|
    ensures p < |programs| && Selected(filters, programs)[i].program == programs[p]
    ensures Selected(filters, programs)[i].case_ in programs[p].cases
  {
    var t := Selected(filters, programs)[i];
    assert t in Selected(filters, programs);
    SelectedMembers(filters, programs, t);
    p :| p < |programs| && programs[p] == t.program;
  }

  /** A scan goes through the programs in order, and through the cases of each in order. */
  lemma {:induction false} SelectedOrder(filters: seq<F.Filter>, programs: seq<TestProgram>, i: nat, j: nat)
    returns (p: nat, q: nat, c: nat, d: nat)
    requires i < j < |Selected(filters, programs)|
    ensures p < |programs| && c < |programs[p].cases| && Selected(filters, programs)[i] == Test(programs[p], programs[p].cases[c])
    ensures q < |programs| && d < |programs[q].cases| && Selected(filters, programs)[j] == Test(programs[q], programs[q].cases[d])
    ensures p < q || (p == q && c < d)
  {
    var first := Wanted(filters, programs[0], programs[0].cases);
    if j < |first| {
      c, d := WantedOrder(filters, programs[0], programs[0].cases, i, j);
      p, q := 0, 0;
    } else if i < |first| {
      c := WantedAt(filters, programs[0], programs[0].cases, i);
      q := SelectedAt(filters, programs[1..], j - |first|);
      var t := Selected(filters, programs[1..])[j - |first|];
      d :| d < |t.program.cases| && t.program.cases[d] == t.case_;
      p, q := 0, q + 1;
    } else {
      p, q, c, d := SelectedOrder(filters, programs[1..], i - |first|, j - |first|);
      p, q := p + 1, q + 1;
    }
  }

  /** The filters that get the credit for a list of tests. */
  ghost function Credited(filters: seq<F.Filter>, tests: seq<Test>): set<F.Filter> {
    set t | t in tests && F.FirstMatch(filters, t.program.path, t.case_.name).Some? ::
      F.FirstMatch(filters, t.program.path, t.case_.name).value
  }

  /** When no two filters contain one another, the filters left without credit after a full
      scan are exactly the ones that match no test case of any program. */
  lemma UnusedAfterFullScan(filters: seq<F.Filter>, programs: seq<TestProgram>, f: F.Filter)
    requires F.Distinct(filters) && F.Disjoint(filters) && f in filters
    ensures f !in Credited(filters, Selected(filters, programs)) <==>
      forall p, c | p in programs && c in p.cases :: !F.MatchesCase(f, p.path, c.name)
  {
    var tests := Selected(filters, programs);
    if f in Credited(filters, tests) {
      var t :| t in tests && F.FirstMatch(filters, t.program.path, t.case_.name) == Some(f);
      SelectedMembers(filters, programs, t);
      F.FirstMatchMatches(filters, t.program.path, t.case_.name);
    }
    forall p, c | p in programs && c in p.cases && F.MatchesCase(f, p.path, c.name)
      ensures f in Credited(filters, tests)
    {
      var t := Test(p, c);
      SelectedMembers(filters, programs, t);
      F.FirstMatchMatches(filters, p.path, c.name);
      F.DisjointMeansNoSharedCase(filters);
      assert F.FirstMatch(filters, p.path, c.name) == Some(f);
      assert t in tests;
    }
  }

  // ---------- The iterator ----------

  datatype Advance = Ready | Exhausted | Interrupted

  datatype Opening = Opened | PassedOver | Stopped | Finished

  /** Where the iterator stands: the programs not yet finished and, if the first of them is
      active, its test cases not yet looked at. */
  datatype Position = Position(programs: seq<TestProgram>, cases: Option<seq<TestCase>>)

  /** The order that makes the scan end: fewer programs, or the first one has been opened, or
      it has fewer cases left. */
  predicate Smaller(was: Position, now: Position) {
    || |now.programs| < |was.programs|
    || (&& |now.programs| == |was.programs|
        && now.cases.Some?
        && (was.cases.None? || |now.cases.value| < |was.cases.value|))
  }

  /** What is still to be yielded from a position. */
  function Left(filters: seq<F.Filter>, at: Position): seq<Test> {
    if at.cases.Some? && at.programs != [] then
      Wanted(filters, at.programs[0], at.cases.value) + Selected(filters, at.programs[1..])
    else
      Selected(filters, at.programs)
  }

  /** What is still to be asked from a position. */
  function LeftToAsk(filters: seq<F.Filter>, at: Position): seq<TestProgram> {
    if at.cases.Some? && at.programs != [] then ToAsk(filters, at.programs[1..])
    else ToAsk(filters, at.programs)
  }

  lemma DropLeaves(filters: seq<F.Filter>, at: Position)
    requires at.programs != []
    requires at.cases == Some([]) || (at.cases.None? && !F.ProgramMatchedBy(filters, at.programs[0].path))
    ensures Left(filters, Position(at.programs[1..], None)) == Left(filters, at)
    ensures LeftToAsk(filters, Position(at.programs[1..], None)) == LeftToAsk(filters, at)
  {
    if at.cases.None? {
      UnmatchedProgramHasNothing(filters, at.programs[0], at.programs[0].cases);
    }
  }

  lemma AskLeaves(filters: seq<F.Filter>, at: Position)
    requires at.programs != [] && at.cases.None? && F.ProgramMatchedBy(filters, at.programs[0].path)
    ensures Left(filters, Position(at.programs, Some(at.programs[0].cases))) == Left(filters, at)
    ensures [at.programs[0]] + LeftToAsk(filters, Position(at.programs, Some(at.programs[0].cases))) == LeftToAsk(filters, at)
  {
  }

  /** The first case of the active program is the next test or is skipped. */
  lemma CaseLeaves(filters: seq<F.Filter>, at: Position)
    requires at.programs != [] && at.cases.Some? && at.cases.value != []
    ensures Left(filters, at) ==
      (if F.MatchedBy(filters, at.programs[0].path, at.cases.value[0].name)
       then [Test(at.programs[0], at.cases.value[0])] else [])
      + Left(filters, Position(at.programs, Some(at.cases.value[1..])))
  {
  }

  /** The credits given so far: to the tests yielded, and at most to tests of the scan. */
  ghost predicate CreditsFit(filters: seq<F.Filter>, used: set<F.Filter>, yielded: seq<Test>, all: seq<Test>) {
    Credited(filters, yielded) <= used <= Credited(filters, all)
  }

  lemma CreditNext(filters: seq<F.Filter>, used: set<F.Filter>, yielded: seq<Test>, all: seq<Test>, t: Test)
    requires CreditsFit(filters, used, yielded, all) && t in all
    ensures var m := F.FirstMatch(filters, t.program.path, t.case_.name);
      var used' := used + if m.Some? then {m.value} else {};
      CreditsFit(filters, used', yielded, all) && CreditsFit(filters, used', yielded + [t], all)
  {
  }

  class Scanner {
    var pendingTestPrograms: seq<TestProgram>
    const filters: F.FiltersState
    var firstTestCases: Option<seq<TestCase>>

    ghost const programs: seq<TestProgram>
    ghost var yielded: seq<Test>
    ghost var asked: seq<TestProgram>
    ghost var rest: seq<Test>

    ghost function At(): Position
      reads this
    {
      Position(pendingTestPrograms, firstTestCases)
    }

    /** The whole scan. */
    ghost function All(): seq<Test> {
      Selected(filters.filters, programs)
    }

    ghost predicate Valid()
      reads this, filters
    {
      && filters.Valid()
      && (firstTestCases.Some? ==> pendingTestPrograms != [])
      && rest == Left(filters.filters, At())
      && yielded + rest == All()
      && asked + LeftToAsk(filters.filters, At()) == ToAsk(filters.filters, programs)
      && CreditsFit(filters.filters, filters.used, yielded, All())
    }

    constructor (programs: seq<TestProgram>, filters: seq<F.Filter>)
      ensures Valid() && fresh(this.filters)
      ensures this.programs == programs && this.filters.filters == filters
      ensures yielded == [] && asked == []
    {
      pendingTestPrograms := programs;
      firstTestCases := None;
      this.programs := programs;
      yielded, asked := [], [];
      rest := Selected(filters, programs);
      var state := new F.FiltersState(filters);
      this.filters := state;
    }

    /** The postcondition of a successful advance: the head of the active program is the next
        test, and it has been credited. */
    ghost predicate Positioned()
      requires firstTestCases.Some? && firstTestCases.value != [] && pendingTestPrograms != []
      reads this, filters
    {
      && F.MatchedBy(filters.filters, pendingTestPrograms[0].path, firstTestCases.value[0].name)
      && CreditsFit(filters.filters, filters.used, yielded + [Test(pendingTestPrograms[0], firstTestCases.value[0])], All())
    }

    /** Drops the first program once it has nothing more to give. */
    method DropProgram()
      requires Valid() && pendingTestPrograms != []
      requires firstTestCases.Some? ==> firstTestCases.value == []
      requires firstTestCases.None? ==> !F.ProgramMatchedBy(filters.filters, pendingTestPrograms[0].path)
      modifies this`pendingTestPrograms, this`firstTestCases
      ensures Valid()
      ensures pendingTestPrograms == old(pendingTestPrograms)[1..] && firstTestCases.None?
    {
      DropLeaves(filters.filters, At());
      pendingTestPrograms := pendingTestPrograms[1..];
      firstTestCases := None;
    }

    /** Makes the first program the active one, with the list of test cases it gave. */
    method Activate()
      requires Valid() && pendingTestPrograms != [] && firstTestCases.None?
      requires F.ProgramMatchedBy(filters.filters, pendingTestPrograms[0].path)
      modifies this`firstTestCases, this`asked
      ensures Valid()
      ensures firstTestCases == Some(pendingTestPrograms[0].cases)
    {
      AskLeaves(filters.filters, At());
      firstTestCases := Some(pendingTestPrograms[0].cases);
      asked := asked + [pendingTestPrograms[0]];
    }

    /** The first half of a round: finish an exhausted program, then make sure that there is an
        active one, unless no filter matches it or an interrupt fires. */
    method Open(handle: S.Scheduler) returns (opening: Opening)
      requires Valid() && |handle.children| <= handle.peak
      modifies this`pendingTestPrograms, this`firstTestCases, this`asked, handle`peak, handle`checks
      ensures Valid()
      ensures old(handle.peak) <= handle.peak <= S.Max(old(handle.peak), |handle.children| + 1)
      ensures opening.Opened? ==> firstTestCases.Some? && (old(At()) == At() || Smaller(old(At()), At()))
      ensures opening.PassedOver? ==> Smaller(old(At()), At())
      ensures opening.Finished? ==> pendingTestPrograms == []
      ensures old(handle.checks) <= handle.checks && (opening.Stopped? <==> handle.Alarmed(old(handle.checks)))
    {
      if firstTestCases == Some([]) {
        DropProgram();
      }
      if pendingTestPrograms == [] {
        return Finished;
      }
      if firstTestCases.Some? {
        return Opened;
      }
      var matches := F.MatchTestProgram(filters.filters, pendingTestPrograms[0].path);
      if !matches {
        DropProgram();
        return PassedOver;
      }
      var listed := handle.ListTests();
      if !listed {
        return Stopped;
      }
      Activate();
      return Opened;
    }

    /** Looks at the first test case of the active program and drops it if it is not wanted. */
    method CheckCase() returns (wanted: bool)
      requires Valid() && firstTestCases.Some? && firstTestCases.value != []
      modifies this`firstTestCases, filters
      ensures Valid()
      ensures wanted ==>
        && firstTestCases == old(firstTestCases) && Positioned()
      ensures !wanted ==> firstTestCases == Some(old(firstTestCases).value[1..])
    {
      var t := Test(pendingTestPrograms[0], firstTestCases.value[0]);
      ghost var used := filters.used;
      wanted := filters.MatchCase(t.program.path, t.case_.name);
      CaseLeaves(filters.filters, At());
      if wanted {
        assert All()[|yielded|] == rest[0] == t;
        CreditNext(filters.filters, used, yielded, All(), t);
      } else {
        F.FirstMatchMatches(filters.filters, t.program.path, t.case_.name);
        firstTestCases := Some(firstTestCases.value[1..]);
      }
    }

    /** Moves to the next wanted test case, if there is one. */
    method AdvanceScan(handle: S.Scheduler) returns (r: Advance)
      requires Valid() && |handle.children| <= handle.peak
      modifies this`pendingTestPrograms, this`firstTestCases, this`asked, filters, handle`peak, handle`checks
      ensures Valid()
      ensures old(handle.peak) <= handle.peak <= S.Max(old(handle.peak), |handle.children| + 1)
      ensures r.Ready? ==>
        && firstTestCases.Some? && firstTestCases.value != [] && Positioned()
      ensures r.Exhausted? ==> pendingTestPrograms == []
      ensures old(handle.checks) <= handle.checks && (r.Interrupted? <==> handle.Alarmed(old(handle.checks)))
    {
      while true
        invariant Valid()
        invariant old(handle.checks) <= handle.checks && !handle.Alarmed(old(handle.checks))
        invariant old(handle.peak) <= handle.peak <= S.Max(old(handle.peak), |handle.children| + 1)
        decreases |pendingTestPrograms|,
                  if firstTestCases.None? then 1 else 0,
                  if firstTestCases.Some? then |firstTestCases.value| else 0
      {
        var opening := Open(handle);
        match opening {
          case Finished => return Exhausted;
          case Stopped => return Interrupted;
          case PassedOver =>
          case Opened =>
            if firstTestCases.value == [] {
              DropProgram();
            } else {
              var wanted := CheckCase();
              if wanted {
                return Ready;
              }
            }
        }
      }
    }

    /** Takes out the test case `AdvanceScan` moved to. */
    method Consume() returns (t: Test)
      requires Valid() && firstTestCases.Some? && firstTestCases.value != [] && Positioned()
      modifies this`firstTestCases, this`yielded, this`rest
      ensures Valid() && old(rest) != [] && t == old(rest)[0] && rest == old(rest)[1..] && yielded == old(yielded) + [t]
    {
      t := Test(pendingTestPrograms[0], firstTestCases.value[0]);
      CaseLeaves(filters.filters, At());
      firstTestCases := Some(firstTestCases.value[1..]);
      yielded, rest := yielded + [t], rest[1..];
    }

    /** The next wanted test case; `None` and not interrupted means that there is none left. */
    method Yield(handle: S.Scheduler) returns (t: Option<Test>, interrupted: bool)
      requires Valid() && |handle.children| <= handle.peak
      modifies this`pendingTestPrograms, this`firstTestCases, this`asked, this`yielded, this`rest, filters, handle`peak, handle`checks
      ensures Valid()
      ensures old(handle.peak) <= handle.peak <= S.Max(old(handle.peak), |handle.children| + 1)
      ensures !interrupted && old(rest) != [] ==>
        t == Some(old(rest)[0]) && yielded == old(yielded) + [t.value] && rest == old(rest)[1..]
      ensures !interrupted && old(rest) == [] ==> t == None
      ensures t.None? ==> yielded == old(yielded) && rest == old(rest)
      ensures t.Some? ==> !interrupted
      ensures old(handle.checks) <= handle.checks && (interrupted <==> handle.Alarmed(old(handle.checks)))
    {
      var r := AdvanceScan(handle);
      match r {
        case Ready =>
          var test := Consume();
          return Some(test), false;
        case Exhausted => return None, false;
        case Interrupted => return None, true;
      }
    }

    method Done(handle: S.Scheduler) returns (done: bool, interrupted: bool)
      requires Valid() && |handle.children| <= handle.peak
      modifies this`pendingTestPrograms, this`firstTestCases, this`asked, filters, handle`peak, handle`checks
      ensures Valid()
      ensures old(handle.peak) <= handle.peak <= S.Max(old(handle.peak), |handle.children| + 1)
      ensures !interrupted ==> (done <==> rest == [])
      ensures done ==> asked == ToAsk(filters.filters, programs)
      ensures old(handle.checks) <= handle.checks && (interrupted <==> handle.Alarmed(old(handle.checks)))
    {
      var r := AdvanceScan(handle);
      return r.Exhausted?, r.Interrupted?;
    }

    method UnusedFilters() returns (left: set<F.Filter>)
      requires Valid()
      ensures rest == [] ==>
        left == set f | f in filters.filters && f !in Credited(filters.filters, Selected(filters.filters, programs))
    {
      left := filters.Unused();
      assert yielded + [] == yielded;
    }
  }
}
