/** Test programs and test cases (model/test_program.cpp, model/test_case.cpp), reduced to
    what the scheduler, the scanner, the driver and the store look at. */
module TestModel {
  import opened Results
  import Md = Metadata
  import Paths

  /** `metadata` is what the test case itself sets. */
  datatype TestCase = TestCase(name: string, fake: Option<TestResult>, metadata: Md.Metadata)

  /** `cases` lists the entries of the program's map of test cases in key order. */
  datatype TestProgram = TestProgram(
    interfaceName: string,
    path: Paths.Path,
    absolutePath: string,
    root: string,
    suite: string,
    metadata: Md.Metadata,
    cases: seq<TestCase>)

  /** A test case inside its program: what the scanner yields and the scheduler runs.  The
      metadata of the program stands behind that of the case. */
  datatype Test = Test(program: TestProgram, case_: TestCase) {
    function Metadata(): Md.Metadata {
      Md.Effective(program.metadata, case_.metadata)
    }

    predicate HasCleanup() {
      Md.WantsCleanup(Metadata())
    }

    predicate HasExecenv() {
      Md.WantsExecenv(Metadata())
    }

    predicate IsExclusive() {
      Md.WantsToBeAlone(Metadata())
    }
  }

  /** What a test declares is what its case sets, else what its program sets, else nothing. */
  lemma DeclaredMeaning(t: Test)
    ensures t.HasCleanup() <==>
      if Md.HasCleanup in t.case_.metadata then t.case_.metadata[Md.HasCleanup] == Md.FlagValue(true)
      else Md.HasCleanup in t.program.metadata && t.program.metadata[Md.HasCleanup] == Md.FlagValue(true)
    ensures t.IsExclusive() <==>
      if Md.IsExclusive in t.case_.metadata then t.case_.metadata[Md.IsExclusive] == Md.FlagValue(true)
      else Md.IsExclusive in t.program.metadata && t.program.metadata[Md.IsExclusive] == Md.FlagValue(true)
    ensures t.HasExecenv() <==>
      if Md.Execenv in t.case_.metadata then t.case_.metadata[Md.Execenv].text !in ["", "host"]
      else Md.Execenv in t.program.metadata && t.program.metadata[Md.Execenv].text !in ["", "host"]
  {
  }
}
