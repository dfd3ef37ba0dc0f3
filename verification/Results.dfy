/** Values shared by every other module: optional values, process exit statuses and
    the interface-agnostic verdict of a test case (model/test_result.cpp). */
module Results {

  datatype Option<+T> = None | Some(value: T)

  /** How a child process ended.  A child that hit its deadline has no status at all,
      which is written `None` wherever an `Option<ExitStatus>` is expected. */
  datatype ExitStatus = Exited(code: int) | Signaled(signal: int, core: bool)

  datatype ResultType = Broken | ExpectedFailure | Failed | Passed | Skipped

  datatype TestResult = TestResult(kind: ResultType, reason: string) {
    predicate Good() {
      kind.ExpectedFailure? || kind.Passed? || kind.Skipped?
    }

    /** What the store relies on: a verdict has a reason exactly if it did not pass. */
    predicate HasDueReason() {
      kind.Passed? <==> reason == ""
    }
  }

  const EXIT_SUCCESS := 0
  const EXIT_FAILURE := 1

  predicate Succeeded(status: Option<ExitStatus>) {
    status == Some(Exited(EXIT_SUCCESS))
  }
}
