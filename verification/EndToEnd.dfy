/** From the scan to the store and back: what a complete run leaves in the store is, for every
    test of the scan, exactly what the scheduler delivered for it. */
module EndToEnd {
  import opened IntSets
  import opened Results
  import opened TestModel
  import D = Driver
  import F = Filters
  import M = SchedulerModel
  import Md = Metadata
  import R = SchedulerRuns
  import Sc = Scanner
  import St = Store

  // ---------- Tests that can be told apart ----------

  /** A path names one program and a name one case of a program. */
  predicate Identified(tests: seq<Test>) {
    && (forall i, j :: 0 <= i < |tests| && 0 <= j < |tests| && tests[i].program.path == tests[j].program.path ==>
          tests[i].program == tests[j].program)
    && (forall i, j :: 0 <= i < j < |tests| && tests[i].program == tests[j].program ==>
          tests[i].case_.name != tests[j].case_.name)
  }

  predicate DistinctPaths(programs: seq<TestProgram>) {
    forall i, j :: 0 <= i < j < |programs| ==> programs[i].path != programs[j].path
  }

  lemma {:induction false} StartOrderMembers(tests: seq<Test>, t: Test)
    ensures t in D.Shared(tests) <==> t in tests && !t.IsExclusive()
    ensures t in D.Exclusive(tests) <==> t in tests && t.IsExclusive()
  {
    if tests != [] {
      StartOrderMembers(tests[..|tests| - 1], t);
      assert tests == tests[..|tests| - 1] + [tests[|tests| - 1]];
    }
  }

  lemma {:induction false} PartsOnce(tests: seq<Test>)
    requires Sc.NoDuplicates(tests)
    ensures Sc.NoDuplicates(D.Shared(tests)) && Sc.NoDuplicates(D.Exclusive(tests))
  {
    if tests != [] {
      var init, last := tests[..|tests| - 1], tests[|tests| - 1];
      PartsOnce(init);
      StartOrderMembers(init, last);
      Sc.NoDuplicatesConcat(D.Shared(init), if last.IsExclusive() then [] else [last]);
      Sc.NoDuplicatesConcat(D.Exclusive(init), if last.IsExclusive() then [last] else []);
    }
  }

  /** Starting the exclusive tests last neither loses nor repeats a test. */
  lemma StartOrderKeeps(tests: seq<Test>)
    requires Sc.NoDuplicates(tests)
    ensures Sc.NoDuplicates(D.StartOrder(tests))
    ensures forall t :: t in D.StartOrder(tests) <==> t in tests
  {
    forall t
      ensures t in D.StartOrder(tests) <==> t in tests
    {
      StartOrderMembers(tests, t);
    }
    forall t | t in D.Shared(tests) && t in D.Exclusive(tests)
      ensures false
    {
      StartOrderMembers(tests, t);
    }
    PartsOnce(tests);
    Sc.NoDuplicatesConcat(D.Shared(tests), D.Exclusive(tests));
  }

  /** The exclusive tests are the last ones to start. */
  lemma ExclusiveLast(tests: seq<Test>, i: nat, j: nat)
    requires i < j < |D.StartOrder(tests)| && D.StartOrder(tests)[i].IsExclusive()
    ensures D.StartOrder(tests)[j].IsExclusive()
  {
    ExclusiveAt(tests, i);
    ExclusiveAt(tests, j);
  }

  lemma ExclusiveAt(tests: seq<Test>, i: nat)
    requires i < |D.StartOrder(tests)|
    ensures D.StartOrder(tests)[i].IsExclusive() <==> i >= |D.Shared(tests)|
  {
    var shared, exclusive := D.Shared(tests), D.Exclusive(tests);
    D.ExclusiveOnly(tests);
    if i < |shared| {
      assert shared[i] in shared;
    } else {
      assert exclusive[i - |shared|] in exclusive;
    }
  }

  lemma {:induction false} SharedOrder(tests: seq<Test>, i: nat, j: nat) returns (a: nat, b: nat)
    requires i < j < |D.Shared(tests)|
    ensures a < b < |tests| && D.Shared(tests)[i] == tests[a] && D.Shared(tests)[j] == tests[b]
  {
    var init := tests[..|tests| - 1];
    if j < |D.Shared(init)| {
      a, b := SharedOrder(init, i, j);
    } else {
      assert D.Shared(init)[i] in D.Shared(init);
      StartOrderMembers(init, D.Shared(init)[i]);
      a :| a < |init| && init[a] == D.Shared(init)[i];
      b := |tests| - 1;
    }
  }

  lemma {:induction false} ExclusiveOrder(tests: seq<Test>, i: nat, j: nat) returns (a: nat, b: nat)
    requires i < j < |D.Exclusive(tests)|
    ensures a < b < |tests| && D.Exclusive(tests)[i] == tests[a] && D.Exclusive(tests)[j] == tests[b]
  {
    var init := tests[..|tests| - 1];
    if j < |D.Exclusive(init)| {
      a, b := ExclusiveOrder(init, i, j);
    } else {
      assert D.Exclusive(init)[i] in D.Exclusive(init);
      StartOrderMembers(init, D.Exclusive(init)[i]);
      a :| a < |init| && init[a] == D.Exclusive(init)[i];
      b := |tests| - 1;
    }
  }

  /** Otherwise the order of the scan is kept. */
  lemma OrderKept(tests: seq<Test>, i: nat, j: nat) returns (a: nat, b: nat)
    requires i < j < |D.StartOrder(tests)|
    requires D.StartOrder(tests)[i].IsExclusive() == D.StartOrder(tests)[j].IsExclusive()
    ensures a < b < |tests| && D.StartOrder(tests)[i] == tests[a] && D.StartOrder(tests)[j] == tests[b]
  {
    hide D.Shared, D.Exclusive, Test.IsExclusive;
    ExclusiveAt(tests, i);
    ExclusiveAt(tests, j);
    var shared := D.Shared(tests);
    if j < |shared| {
      a, b := SharedOrder(tests, i, j);
    } else {
      a, b := ExclusiveOrder(tests, i - |shared|, j - |shared|);
    }
  }

  lemma SamePathSameProgram(programs: seq<TestProgram>, p: TestProgram, q: TestProgram)
    requires DistinctPaths(programs) && p in programs && q in programs && p.path == q.path
    ensures p == q
  {
  }

  lemma SameNameSameCase(cases: seq<TestCase>, c: TestCase, d: TestCase)
    requires Sc.DistinctNames(cases) && c in cases && d in cases && c.name == d.name
    ensures c == d
  {
  }

  /** Two tests of a scan with one path have one program, and with one name they are the same. */
  lemma ScannedPair(filters: seq<F.Filter>, programs: seq<TestProgram>, t: Test, u: Test)
    requires DistinctPaths(programs) && forall p :: p in programs ==> Sc.DistinctNames(p.cases)
    requires t in Sc.Selected(filters, programs) && u in Sc.Selected(filters, programs)
    ensures t.program.path == u.program.path ==> t.program == u.program
    ensures t.program == u.program && t.case_.name == u.case_.name ==> t == u
  {
    Sc.SelectedMembers(filters, programs, t);
    Sc.SelectedMembers(filters, programs, u);
    if t.program.path == u.program.path {
      SamePathSameProgram(programs, t.program, u.program);
    }
    if t.program == u.program && t.case_.name == u.case_.name {
      SameNameSameCase(t.program.cases, t.case_, u.case_);
    }
  }

  lemma ScanIsIdentified(filters: seq<F.Filter>, programs: seq<TestProgram>)
    requires DistinctPaths(programs) && forall p :: p in programs ==> Sc.DistinctNames(p.cases)
    ensures Identified(D.StartOrder(Sc.Selected(filters, programs)))
  {
    hide D.StartOrder, Sc.Selected;
    var tests := Sc.Selected(filters, programs);
    var order := D.StartOrder(tests);
    Sc.SelectedOnce(filters, programs);
    StartOrderKeeps(tests);
    forall i, j | 0 <= i < |order| && 0 <= j < |order|
      ensures order[i].program.path == order[j].program.path ==> order[i].program == order[j].program
      ensures i < j && order[i].program == order[j].program ==> order[i].case_.name != order[j].case_.name
    {
      var t, u := order[i], order[j];
      assert t in order && u in order;
      ScannedPair(filters, programs, t, u);
    }
  }

  // ---------- Every case has its result ----------

  lemma {:induction false} AtMostSoMany(ids: seq<int>, n: nat)
    requires forall i, j :: 0 <= i < j < |ids| ==> ids[i] != ids[j]
    requires forall i :: 0 <= i < |ids| ==> 1 <= ids[i] <= n
    ensures |ids| <= n
    decreases n
  {
    if ids != [] {
      var first := ids[0];
      assert 1 <= first <= n;
      if n in ids {
        var k := IndexOf(ids, n);
        AtMostSoMany(ids[..k] + ids[k + 1..], n - 1);
      } else {
        AtMostSoMany(ids, n - 1);
      }
    }
  }

  lemma AllPresent(ids: seq<int>, n: nat, id: int) returns (k: nat)
    requires forall i, j :: 0 <= i < j < |ids| ==> ids[i] != ids[j]
    requires forall i :: 0 <= i < |ids| ==> 1 <= ids[i] <= n
    requires |ids| == n && 1 <= id <= n
    ensures k < |ids| && ids[k] == id
  {
    if id !in ids {
      AtMostSoMany(ids + [id], n);
    }
    k := IndexOf(ids, id);
  }

  lemma ResultOf(puts: St.Puts, log: seq<M.Event>, tests: seq<Test>, i: nat) returns (k: nat)
    requires D.Complete(puts, log, tests) && i < |tests|
    ensures k < |puts.results| && puts.results[k].caseId == i + 1
  {
    hide D.Genuine, D.CaseFor;
    var ids := seq(|puts.results|, k requires 0 <= k < |puts.results| => puts.results[k].caseId);
    k := AllPresent(ids, |tests|, i + 1);
  }

  lemma CaseOf(puts: St.Puts, log: seq<M.Event>, tests: seq<Test>, i: nat)
    requires D.Complete(puts, log, tests) && i < |tests|
    ensures |puts.cases| == |tests| && puts.cases[i].case_ == tests[i].case_
    ensures 1 <= puts.cases[i].programId <= |puts.programs|
    ensures puts.programs[puts.cases[i].programId - 1].path == tests[i].program.path
    ensures D.IsProgramOf(tests, puts.programs[puts.cases[i].programId - 1])
  {
    hide D.Genuine, D.SpawnedTests, D.IsProgramOf;
    assert D.CaseFor(puts, i, tests[i]);
  }

  /** The program filed under a test's case is the program of the test. */
  lemma OwnProgram(puts: St.Puts, log: seq<M.Event>, tests: seq<Test>, i: nat)
    requires D.Complete(puts, log, tests) && Identified(tests) && i < |tests|
    ensures i < |puts.cases| && puts.cases[i].case_ == tests[i].case_
    ensures 1 <= puts.cases[i].programId <= |puts.programs|
    ensures puts.programs[puts.cases[i].programId - 1] == tests[i].program
  {
    hide D.Complete;
    CaseOf(puts, log, tests, i);
    var p := puts.programs[puts.cases[i].programId - 1];
    var k :| 0 <= k < |tests| && tests[k].program == p;
  }

  lemma BooksAreLinked(puts: St.Puts, log: seq<M.Event>, tests: seq<Test>)
    requires D.Complete(puts, log, tests) && Identified(tests)
    ensures St.Linked(puts) && St.UniqueNames(puts)
  {
    hide D.Genuine, D.SpawnedTests, D.CaseFor, D.Listed, Identified;
    forall i | 0 <= i < |puts.cases|
      ensures 1 <= puts.cases[i].programId <= |puts.programs|
      ensures puts.cases[i].case_ == tests[i].case_
      ensures puts.programs[puts.cases[i].programId - 1] == tests[i].program
    {
      OwnProgram(puts, log, tests, i);
    }
    forall i, j | 0 <= i < j < |puts.cases| && puts.cases[i].programId == puts.cases[j].programId
      ensures puts.cases[i].case_.name != puts.cases[j].case_.name
    {
      DistinctCases(tests, i, j);
    }
  }

  lemma DistinctCases(tests: seq<Test>, i: nat, j: nat)
    requires Identified(tests) && i < j < |tests| && tests[i].program == tests[j].program
    ensures tests[i].case_.name != tests[j].case_.name
  {
  }

  /** A row of the store tells what the event delivered; the program loads, if it does, with
      the restored metadata of the program and of the case. */
  ghost predicate Tells(db: St.Db, row: St.Joined, e: M.Event)
    requires e.Delivered?
  {
    && row.name == e.test.case_.name
    && St.HasProgram(db, row.programId)
    && (St.ProgramAt(db, row.programId).Some? ==>
          St.LoadsAs(St.ProgramAt(db, row.programId).value, e.test.program, e.test.case_))
    && St.ParseResult(row.result) == (if e.verdict.HasDueReason() then Some(e.verdict) else None)
    && St.TimesOf(row.result) == Some((e.handle.startTime, e.handle.endTime))
    && St.FileOf(db, row.caseId, D.STDOUT) == Some(e.handle.stdout)
    && St.FileOf(db, row.caseId, D.STDERR) == Some(e.handle.stderr)
  }

  /** The program of the row loads, and the test case has in it the metadata it ran with. */
  ghost predicate TellsMetadata(db: St.Db, row: St.Joined, t: Test) {
    && St.HasProgram(db, row.programId)
    && var loaded := St.ProgramAt(db, row.programId);
      loaded.Some? && row.name in loaded.value.cases && Md.Same(loaded.value.MetadataOf(row.name), t.Metadata())
  }

  lemma RowTells(db: St.Db, row: St.Joined, puts: St.Puts, k: nat, e: M.Event, t: Test)
    requires k < |puts.results| && St.Linked(puts) && St.RowFor(db, row, puts, k)
    requires D.DeliveredAs(e, t, puts, puts.results[k])
    requires var c := puts.cases[puts.results[k].caseId - 1];
      c.case_ == t.case_ && puts.programs[c.programId - 1] == t.program
    ensures Tells(db, row, e)
    ensures St.ProgramAt(db, row.programId).Some? <==>
      St.ProgramReadable(puts, puts.cases[puts.results[k].caseId - 1].programId)
  {
    hide St.ProgramAt, St.ProgramReadable, St.LoadsAs, St.ParseResult, St.FileOf;
    assert St.FileOf(db, row.caseId, D.STDOUT) == Some(D.FileContent(puts, row.caseId, D.STDOUT));
    assert St.FileOf(db, row.caseId, D.STDERR) == Some(D.FileContent(puts, row.caseId, D.STDERR));
  }

  lemma DeliveryOf(log: seq<M.Event>, t: Test, puts: St.Puts, r: St.ResultPut) returns (e: M.Event)
    requires D.Genuine(log, t, puts, r)
    ensures e in log && D.DeliveredAs(e, t, puts, r)
  {
    e :| e in log && D.DeliveredAs(e, t, puts, r);
  }

  lemma Delivers(e: M.Event, t: Test, puts: St.Puts, r: St.ResultPut)
    requires D.DeliveredAs(e, t, puts, r)
    ensures e.Delivered? && e.test == t
  {
  }

  /** The metadata of a program and of all its tests in the run can be read from the store. */
  ghost predicate FamilyReadable(tests: seq<Test>, p: TestProgram) {
    Md.AllReadable(p.metadata) && forall k: nat :: k < |tests| && tests[k].program == p ==> Md.AllReadable(tests[k].case_.metadata)
  }

  lemma FamilyIsProgram(puts: St.Puts, log: seq<M.Event>, tests: seq<Test>, i: nat)
    requires D.Complete(puts, log, tests) && Identified(tests) && i < |tests|
    ensures 1 <= puts.cases[i].programId <= |puts.programs|
    ensures St.ProgramReadable(puts, puts.cases[i].programId) <==> FamilyReadable(tests, tests[i].program)
  {
    hide Md.AllReadable, D.Complete, Identified;
    OwnProgram(puts, log, tests, i);
    CaseOf(puts, log, tests, i);
    var id := puts.cases[i].programId;
    forall k: nat | k < |tests|
      ensures St.CaseIn(puts, k, id) <==> tests[k].program == tests[i].program
      ensures puts.cases[k].case_ == tests[k].case_
    {
      OwnProgram(puts, log, tests, k);
      if puts.cases[k].programId != id {
        DistinctStored(puts, log, tests, puts.cases[k].programId - 1, id - 1);
      }
    }
  }

  lemma DistinctStored(puts: St.Puts, log: seq<M.Event>, tests: seq<Test>, i: nat, j: nat)
    requires D.Complete(puts, log, tests) && i < |puts.programs| && j < |puts.programs| && i != j
    ensures puts.programs[i] != puts.programs[j]
  {
    hide D.Genuine, D.CaseFor, D.SpawnedTests, D.Listed;
    assert i < j ==> puts.programs[i].path != puts.programs[j].path;
    assert j < i ==> puts.programs[j].path != puts.programs[i].path;
  }

  /** The metadata reads back as it was effective in the run. */
  predicate MetadataSurvives(t: Test) {
    Md.AllKept(t.case_.metadata)
    && forall p :: p in t.program.metadata ==> !Md.Overlooked(t.program.metadata, t.case_.metadata, p)
  }

  lemma MetadataTold(db: St.Db, row: St.Joined, t: Test, readable: bool)
    requires St.HasProgram(db, row.programId) && row.name == t.case_.name
    requires St.ProgramAt(db, row.programId).Some? <==> readable
    requires readable ==> Md.AllReadable(t.program.metadata)
    requires St.ProgramAt(db, row.programId).Some? ==>
      St.LoadsAs(St.ProgramAt(db, row.programId).value, t.program, t.case_)
    ensures TellsMetadata(db, row, t) <==> readable && MetadataSurvives(t)
  {
    hide St.ProgramAt, Md.Restored, Md.AllReadable, Md.AllKept, Md.Overlooked, Md.Same, Md.Effective;
    Md.EffectiveRoundTrip(t.program.metadata, t.case_.metadata);
  }

  /** Main theorem: after a complete run, every test of the scan has a delivery in the log and
      a row in the store, and reading the row gives what was delivered; the metadata the test
      ran with can be told from the store exactly if all metadata of the program can be read,
      what the case sets survives, and the case sets whatever the program sets away from the
      defaults. */
  lemma StoreTellsTheRun(db: St.Db, puts: St.Puts, log: seq<M.Event>, tests: seq<Test>, i: nat)
    returns (j: nat, e: M.Event)
    requires St.Holds(db, puts) && D.Complete(puts, log, tests) && Identified(tests) && i < |tests|
    ensures e in log && e.Delivered? && e.test == tests[i]
    ensures j < |St.OrderBy(St.Join(db, db.results))| && Tells(db, St.OrderBy(St.Join(db, db.results))[j], e)
    ensures TellsMetadata(db, St.OrderBy(St.Join(db, db.results))[j], tests[i]) <==>
      FamilyReadable(tests, tests[i].program) && MetadataSurvives(tests[i])
  {
    hide St.Holds, D.DeliveredAs, D.CaseFor, D.SpawnedTests, D.Listed, D.Genuine, St.RowFor, St.ProgramAt, St.ProgramReadable,
         St.LoadsAs, TellsMetadata, MetadataSurvives, St.ParseResult, St.FileOf, St.Join, St.OrderBy, Md.AllReadable;
    BooksAreLinked(puts, log, tests);
    OwnProgram(puts, log, tests, i);
    FamilyIsProgram(puts, log, tests, i);
    var k := ResultOf(puts, log, tests, i);
    j := St.RoundTrip(db, puts, k);
    var row := St.OrderBy(St.Join(db, db.results))[j];
    assert D.Genuine(log, tests[i], puts, puts.results[k]);
    e := DeliveryOf(log, tests[i], puts, puts.results[k]);
    Delivers(e, tests[i], puts, puts.results[k]);
    RowTells(db, row, puts, k, e, tests[i]);
    MetadataTold(db, row, tests[i], FamilyReadable(tests, tests[i].program));
  }

  lemma PositionOf(log: seq<M.Event>, e: M.Event) returns (k: nat)
    requires e in log
    ensures k < |log| && log[k] == e
  {
    k :| k < |log| && log[k] == e;
  }

  /** What a reader of the store finds for a test after a complete run is the folded verdict,
      and the output and times of the body, of one whole life of that test: a body judged by
      what it left and what the interface computed, and each declared follow-up. */
  lemma StoreTellsLives(run: seq<M.Action>, db: St.Db, puts: St.Puts, tests: seq<Test>, i: nat)
    returns (j: nat, pid: M.Pid, l: R.Life)
    requires R.ValidRun(run) && St.Holds(db, puts) && i < |tests|
    requires D.Complete(puts, R.Execute(run).log, tests) && Identified(tests)
    ensures R.WholeLife(pid, l) && l.test == tests[i]
    ensures j < |St.OrderBy(St.Join(db, db.results))|
    ensures var row := St.OrderBy(St.Join(db, db.results))[j];
      && row.name == tests[i].case_.name
      && St.ParseResult(row.result) == (if R.FinalVerdict(l).HasDueReason() then Some(R.FinalVerdict(l)) else None)
      && St.TimesOf(row.result) == Some((l.handle.startTime, l.handle.endTime))
      && St.FileOf(db, row.caseId, D.STDOUT) == Some(l.handle.stdout)
      && St.FileOf(db, row.caseId, D.STDERR) == Some(l.handle.stderr)
  {
    hide *;
    var e;
    j, e := StoreTellsTheRun(db, puts, R.Execute(run).log, tests, i);
    var k := PositionOf(R.Execute(run).log, e);
    var before;
    l, before := R.DeliveryClosesALife(run, k);
    pid := e.pid;
    LifeTold(db, St.OrderBy(St.Join(db, db.results))[j], R.Execute(run).log[..k + 1], e, l, before);
  }

  lemma LifeTold(db: St.Db, row: St.Joined, log: seq<M.Event>, e: M.Event, l: R.Life, before: seq<M.Event>)
    requires e.Delivered? && Tells(db, row, e) && R.ClosesLife(log, e, l, before)
    ensures R.WholeLife(e.pid, l) && l.test == e.test && row.name == e.test.case_.name
    ensures St.ParseResult(row.result) == (if R.FinalVerdict(l).HasDueReason() then Some(R.FinalVerdict(l)) else None)
    ensures St.TimesOf(row.result) == Some((l.handle.startTime, l.handle.endTime))
    ensures St.FileOf(db, row.caseId, D.STDOUT) == Some(l.handle.stdout)
    ensures St.FileOf(db, row.caseId, D.STDERR) == Some(l.handle.stderr)
  {
    hide R.WholeLife, R.FinalVerdict, R.Told, R.Project, St.ParseResult, St.TimesOf, St.FileOf;
  }
}
