/** The driver that runs all tests and stores their results (drivers/run_tests.cpp). */
module Driver {
  import opened IntSets
  import opened Results
  import opened TestModel
  import Paths
  import F = Filters
  import Sc = Scanner
  import M = SchedulerModel
  import R = SchedulerRuns
  import S = Scheduler
  import St = Store

  // ---------- Lists of tests ----------

  function Shared(tests: seq<Test>): seq<Test> {
    if tests == [] then []
    else Shared(tests[..|tests| - 1]) + if tests[|tests| - 1].IsExclusive() then [] else [tests[|tests| - 1]]
  }

  function Exclusive(tests: seq<Test>): seq<Test> {
    if tests == [] then []
    else Exclusive(tests[..|tests| - 1]) + if tests[|tests| - 1].IsExclusive() then [tests[|tests| - 1]] else []
  }

  /** The order in which the tests of a scan are started. */
  function StartOrder(tests: seq<Test>): seq<Test> {
    Shared(tests) + Exclusive(tests)
  }

  lemma OneMore(tests: seq<Test>, t: Test)
    ensures Shared(tests + [t]) == Shared(tests) + if t.IsExclusive() then [] else [t]
    ensures Exclusive(tests + [t]) == Exclusive(tests) + if t.IsExclusive() then [t] else []
  {
  }

  lemma {:induction false} ExclusiveOnly(tests: seq<Test>)
    ensures forall t :: t in Exclusive(tests) ==> t.IsExclusive()
    ensures forall t :: t in Shared(tests) ==> !t.IsExclusive()
  {
    if tests != [] {
      ExclusiveOnly(tests[..|tests| - 1]);
    }
  }

  // ---------- What the log says about exclusive tests ----------

  /** The test spawned at `i` is delivered before position `end`. */
  ghost predicate SettledBefore(log: seq<M.Event>, i: nat, end: nat)
    requires i < |log| && end <= |log|
  {
    exists k :: i < k < end && log[k].Delivered? && log[k].pid == log[i].pid
  }

  /** Two tests overlap only if neither is exclusive. */
  ghost predicate NoOverlap(log: seq<M.Event>) {
    forall i, j | 0 <= i < j < |log| && log[i].Spawned? && log[j].Spawned? ::
      log[i].test.IsExclusive() || log[j].test.IsExclusive() ==> SettledBefore(log, i, j)
  }

  /** Every test spawned so far has been delivered or is one of `flying`. */
  ghost predicate SettledExcept(log: seq<M.Event>, flying: set<M.Pid>) {
    forall i :: 0 <= i < |log| && log[i].Spawned? ==> SettledBefore(log, i, |log|) || log[i].pid in flying
  }

  /** The log grows without spawning anything. */
  predicate Grows(log: seq<M.Event>, log': seq<M.Event>) {
    log <= log' && forall k :: |log| <= k < |log'| ==> !log'[k].Spawned?
  }

  lemma GrowsKeeps(log: seq<M.Event>, log': seq<M.Event>, flying: set<M.Pid>)
    requires Grows(log, log')
    ensures NoOverlap(log) ==> NoOverlap(log')
    ensures SettledExcept(log, flying) ==> SettledExcept(log', flying)
  {
    hide Test.IsExclusive;
  }

  lemma DeliveryKeeps(log: seq<M.Event>, log': seq<M.Event>, flying: set<M.Pid>, pid: M.Pid)
    requires Grows(log, log') && log < log' && log'[|log'| - 1].Delivered? && log'[|log'| - 1].pid == pid
    ensures NoOverlap(log) ==> NoOverlap(log')
    ensures SettledExcept(log, flying) ==> SettledExcept(log', flying - {pid})
  {
    hide Test.IsExclusive;
  }

  lemma SpawnKeeps(log: seq<M.Event>, flying: set<M.Pid>, pid: M.Pid, test: Test)
    requires SettledExcept(log, flying) && NoOverlap(log)
    requires flying == {} || (!test.IsExclusive() && forall e :: e in log && e.Spawned? ==> !e.test.IsExclusive())
    ensures SettledExcept(log + [M.Spawned(pid, test)], flying + {pid})
    ensures NoOverlap(log + [M.Spawned(pid, test)])
  {
    hide Test.IsExclusive;
    var log' := log + [M.Spawned(pid, test)];
    forall i | 0 <= i < |log| && log[i].Spawned? && SettledBefore(log, i, |log|)
      ensures SettledBefore(log', i, |log|) && SettledBefore(log', i, |log'|)
    {
      var k :| i < k < |log| && log[k].Delivered? && log[k].pid == log[i].pid;
      assert log'[k] == log[k];
    }
    forall i, j | 0 <= i < j < |log'| && log'[i].Spawned? && log'[j].Spawned?
        && (log'[i].test.IsExclusive() || log'[j].test.IsExclusive())
      ensures SettledBefore(log', i, j)
    {
      assert log'[i] == log[i] && log[i] in log;
      if j < |log| {
        assert log'[j] == log[j];
        var k :| i < k < j && log[k].Delivered? && log[k].pid == log[i].pid;
        assert log'[k] == log[k];
      }
    }
  }

  // ---------- What the driver keeps true ----------

  const STDOUT := "__STDOUT__"
  const STDERR := "__STDERR__"

  /** The i-th test case of the store is the i-th test started, filed under a program of its
      relative path. */
  predicate CaseFor(puts: St.Puts, i: nat, t: Test)
    requires i < |puts.cases|
  {
    var c := puts.cases[i];
    c.case_ == t.case_ && 1 <= c.programId <= |puts.programs| && puts.programs[c.programId - 1].path == t.program.path
  }

  /** One program per distinct path, as cached in `ids`, and one case per test started. */
  ghost predicate Catalogue(puts: St.Puts, ids: map<Paths.Path, int>, started: seq<Test>) {
    && (forall path :: path in ids ==> 1 <= ids[path] <= |puts.programs| && puts.programs[ids[path] - 1].path == path)
    && (forall i :: 0 <= i < |puts.programs| ==> puts.programs[i].path in ids && ids[puts.programs[i].path] == i + 1)
    && |puts.cases| == |started|
    && (forall i :: 0 <= i < |started| ==> CaseFor(puts, i, started[i]))
  }

  predicate IsProgramOf(started: seq<Test>, p: TestProgram) {
    exists k :: 0 <= k < |started| && started[k].program == p
  }

  /** Every program in the store is that of a test started. */
  predicate Listed(puts: St.Puts, started: seq<Test>) {
    forall i :: 0 <= i < |puts.programs| ==> IsProgramOf(started, puts.programs[i])
  }

  lemma ListedNext(puts: St.Puts, puts': St.Puts, started: seq<Test>, t: Test)
    requires Listed(puts, started)
    requires puts'.programs == puts.programs || puts'.programs == puts.programs + [t.program]
    ensures Listed(puts', started + [t])
  {
    forall i | 0 <= i < |puts'.programs|
      ensures IsProgramOf(started + [t], puts'.programs[i])
    {
      if i < |puts.programs| {
        assert IsProgramOf(started, puts.programs[i]);
        var k :| 0 <= k < |started| && started[k].program == puts.programs[i];
        assert (started + [t])[k].program == puts'.programs[i];
      } else {
        assert (started + [t])[|started|].program == t.program;
      }
    }
  }

  /** The tests spawned so far, in order. */
  function SpawnedTests(log: seq<M.Event>): seq<Test> {
    if log == [] then []
    else
      var last := log[|log| - 1];
      SpawnedTests(log[..|log| - 1]) + if last.Spawned? then [last.test] else []
  }

  lemma SpawnedNext(log: seq<M.Event>, e: M.Event)
    ensures SpawnedTests(log + [e]) == SpawnedTests(log) + if e.Spawned? then [e.test] else []
  {
    assert (log + [e])[..|log|] == log;
  }

  lemma {:induction false} SpawnedStays(log: seq<M.Event>, log': seq<M.Event>)
    requires Grows(log, log')
    ensures SpawnedTests(log') == SpawnedTests(log)
    decreases |log'|
  {
    if |log'| == |log| {
      assert log' == log;
    } else {
      var init := log'[..|log'| - 1];
      SpawnedStays(log, init);
    }
  }

  /** The tests in flight are those the scheduler has in progress, each under the id its case
      got in the store. */
  ghost predicate Flights(s: M.State, started: seq<Test>, inFlight: map<M.Pid, int>) {
    && s.lost == {} && s.handedOut == {}
    && inFlight.Keys == S.InProgress(s)
    && (forall p :: p in inFlight ==> 1 <= inFlight[p] <= |started| && s.table[p].test == started[inFlight[p] - 1])
    && (forall p, q :: p in inFlight && q in inFlight && inFlight[p] == inFlight[q] ==> p == q)
  }

  function FileContent(puts: St.Puts, id: int, name: string): string {
    if (id, name) in puts.files then puts.files[(id, name)] else ""
  }

  /** The event is the delivery of that test with that result, times and output. */
  predicate DeliveredAs(e: M.Event, t: Test, puts: St.Puts, r: St.ResultPut) {
    && e.Delivered? && e.test == t && e.verdict == r.result
    && e.handle.startTime == r.startTime && e.handle.endTime == r.endTime
    && FileContent(puts, r.caseId, STDOUT) == e.handle.stdout
    && FileContent(puts, r.caseId, STDERR) == e.handle.stderr
  }

  ghost predicate Genuine(log: seq<M.Event>, t: Test, puts: St.Puts, r: St.ResultPut) {
    exists e :: e in log && DeliveredAs(e, t, puts, r)
  }

  predicate Reported(puts: St.Puts, id: int) {
    exists k :: 0 <= k < |puts.results| && puts.results[k].caseId == id
  }

  predicate Flying(inFlight: map<M.Pid, int>, id: int) {
    exists p :: p in inFlight && inFlight[p] == id
  }

  /** Every result in the store is what the scheduler delivered for the test of its case, and
      exactly the cases in flight have none yet. */
  ghost predicate Outcomes(log: seq<M.Event>, puts: St.Puts, started: seq<Test>, inFlight: map<M.Pid, int>) {
    && (forall k :: 0 <= k < |puts.results| ==>
          1 <= puts.results[k].caseId <= |started|
          && Genuine(log, started[puts.results[k].caseId - 1], puts, puts.results[k]))
    && (forall id :: 1 <= id <= |started| ==> (Flying(inFlight, id) <==> !Reported(puts, id)))
    && (forall key :: key in puts.files ==> Reported(puts, key.0))
  }

  // ---------- Steps on values ----------

  lemma CatalogueProgram(puts: St.Puts, ids: map<Paths.Path, int>, started: seq<Test>, p: TestProgram)
    requires Catalogue(puts, ids, started) && p.path !in ids
    ensures Catalogue(puts.(programs := puts.programs + [p]), ids[p.path := |puts.programs| + 1], started)
  {
  }

  lemma CatalogueCase(puts: St.Puts, ids: map<Paths.Path, int>, started: seq<Test>, t: Test)
    requires Catalogue(puts, ids, started) && t.program.path in ids
    ensures Catalogue(puts.(cases := puts.cases + [St.CasePut(ids[t.program.path], t.case_)]), ids, started + [t])
  {
  }

  lemma FlightStarts(s: M.State, a: M.Action, started: seq<Test>, inFlight: map<M.Pid, int>)
    requires M.Inv(s) && a.Spawn? && M.Enabled(s, a) && Flights(s, started, inFlight)
    ensures a.pid !in inFlight
    ensures Flights(M.Apply(s, a), started + [a.test], inFlight[a.pid := |started| + 1])
  {
    hide Test.HasCleanup, Test.HasExecenv, Test.IsExclusive;
  }

  lemma GenuineStays(log: seq<M.Event>, log': seq<M.Event>, t: Test, puts: St.Puts, puts': St.Puts, r: St.ResultPut)
    requires log <= log' && Genuine(log, t, puts, r)
    requires forall name :: FileContent(puts', r.caseId, name) == FileContent(puts, r.caseId, name)
    ensures Genuine(log', t, puts', r)
  {
    var e :| e in log && DeliveredAs(e, t, puts, r);
    assert e in log' && DeliveredAs(e, t, puts', r);
  }

  lemma OutcomesStart(log: seq<M.Event>, puts: St.Puts, started: seq<Test>, inFlight: map<M.Pid, int>,
                      e: M.Event, t: Test, puts': St.Puts, pid: M.Pid)
    requires Outcomes(log, puts, started, inFlight) && pid !in inFlight
    requires puts'.results == puts.results && puts'.files == puts.files
    ensures Outcomes(log + [e], puts', started + [t], inFlight[pid := |started| + 1])
  {
    hide Test.HasCleanup, Test.HasExecenv, Test.IsExclusive;
    forall k | 0 <= k < |puts'.results|
      ensures Genuine(log + [e], (started + [t])[puts'.results[k].caseId - 1], puts', puts'.results[k])
    {
      GenuineStays(log, log + [e], started[puts.results[k].caseId - 1], puts, puts', puts.results[k]);
    }
    var inFlight' := inFlight[pid := |started| + 1];
    forall id
      ensures Flying(inFlight', id) <==> Flying(inFlight, id) || id == |started| + 1
    {
      assert inFlight'[pid] == |started| + 1;
      if Flying(inFlight, id) {
        var p :| p in inFlight && inFlight[p] == id;
        assert inFlight'[p] == id;
      }
    }
  }

  lemma FlightEnds(s: M.State, t: M.State, started: seq<Test>, inFlight: map<M.Pid, int>,
                   handle: M.ExitHandle, test: Test, verdict: TestResult)
    requires M.Inv(t) && Flights(s, started, inFlight) && S.DeliveredOne(s, t, handle, test, verdict)
    ensures handle.pid in inFlight && test == started[inFlight[handle.pid] - 1]
    ensures M.Enabled(t, M.Release(handle.pid))
    ensures Flights(M.Apply(t, M.Release(handle.pid)), started, inFlight - {handle.pid})
  {
  }

  function WithFile(puts: St.Puts, id: int, name: string, contents: string): St.Puts {
    if contents == "" then puts else puts.(files := puts.files[(id, name) := contents])
  }

  /** The store after the result of a test and its two files went in. */
  function WithResult(puts: St.Puts, id: int, handle: M.ExitHandle, verdict: TestResult): St.Puts {
    WithFile(
      WithFile(puts.(results := puts.results + [St.ResultPut(id, verdict, handle.startTime, handle.endTime)]),
               id, STDOUT, handle.stdout),
      id, STDERR, handle.stderr)
  }

  lemma ReportedOneMore(puts: St.Puts, puts': St.Puts, id: int)
    requires |puts'.results| == |puts.results| + 1 && puts.results <= puts'.results
    requires puts'.results[|puts.results|].caseId == id
    ensures forall other :: Reported(puts', other) <==> Reported(puts, other) || other == id
  {
  }

  lemma FlyingOneLess(inFlight: map<M.Pid, int>, pid: M.Pid)
    requires pid in inFlight
    requires forall p, q :: p in inFlight && q in inFlight && inFlight[p] == inFlight[q] ==> p == q
    ensures forall id :: Flying(inFlight - {pid}, id) <==> Flying(inFlight, id) && id != inFlight[pid]
  {
    forall id
      ensures Flying(inFlight - {pid}, id) <==> Flying(inFlight, id) && id != inFlight[pid]
    {
      if Flying(inFlight, id) && id != inFlight[pid] {
        var p :| p in inFlight && inFlight[p] == id;
        assert p in inFlight - {pid};
      }
    }
  }

  lemma OutcomesFinish(log: seq<M.Event>, log': seq<M.Event>, puts: St.Puts, started: seq<Test>,
                       inFlight: map<M.Pid, int>, handle: M.ExitHandle, test: Test, verdict: TestResult)
    requires Outcomes(log, puts, started, inFlight) && log <= log'
    requires forall p, q :: p in inFlight && q in inFlight && inFlight[p] == inFlight[q] ==> p == q
    requires handle.pid in inFlight && 1 <= inFlight[handle.pid] <= |started|
    requires test == started[inFlight[handle.pid] - 1]
    requires M.Delivered(handle.pid, handle, test, verdict) in log'
    ensures Outcomes(log', WithResult(puts, inFlight[handle.pid], handle, verdict), started, inFlight - {handle.pid})
  {
    hide Test.HasCleanup, Test.HasExecenv, Test.IsExclusive;
    var id := inFlight[handle.pid];
    var puts' := WithResult(puts, id, handle, verdict);
    var e := M.Delivered(handle.pid, handle, test, verdict);
    assert Flying(inFlight, id);
    assert STDOUT != STDERR by {
      assert STDOUT[5] != STDERR[5];
    }
    forall k | 0 <= k < |puts'.results|
      ensures 1 <= puts'.results[k].caseId <= |started|
      ensures Genuine(log', started[puts'.results[k].caseId - 1], puts', puts'.results[k])
    {
      if k < |puts.results| {
        assert Reported(puts, puts.results[k].caseId);
        GenuineStays(log, log', started[puts.results[k].caseId - 1], puts, puts', puts.results[k]);
      } else {
        assert (id, STDOUT) !in puts.files && (id, STDERR) !in puts.files;
        assert e in log' && DeliveredAs(e, test, puts', puts'.results[k]);
      }
    }
    ReportedOneMore(puts, puts', id);
    FlyingOneLess(inFlight, handle.pid);
  }

  // ---------- Starting and finishing a test ----------

  ghost predicate Ready(handle: S.Scheduler, tx: St.WriteTransaction, ids: map<Paths.Path, int>,
                        started: seq<Test>, inFlight: map<M.Pid, int>)
    reads handle`allExecData, handle`children, handle`run, handle`peak, handle`strays, tx
  {
    && handle.Valid() && handle.strays == {} && tx.Valid()
    && Catalogue(tx.puts, ids, started)
    && Flights(handle.State(), started, inFlight)
    && Outcomes(handle.State().log, tx.puts, started, inFlight)
    && Listed(tx.puts, started) && SpawnedTests(handle.State().log) == started
  }

  /** The id of a program in the store, where it is put the first time it is seen. */
  method FindTestProgramId(p: TestProgram, tx: St.WriteTransaction, idsCache: map<Paths.Path, int>, ghost started: seq<Test>)
    returns (id: int, ids: map<Paths.Path, int>)
    requires tx.Valid() && Catalogue(tx.puts, idsCache, started)
    modifies tx
    ensures tx.Valid() && Catalogue(tx.puts, ids, started)
    ensures p.path in ids && id == ids[p.path]
    ensures tx.puts == old(tx.puts).(programs := tx.puts.programs)
    ensures tx.puts.programs == old(tx.puts).programs || tx.puts.programs == old(tx.puts).programs + [p]
  {
    if p.path !in idsCache {
      CatalogueProgram(tx.puts, idsCache, started, p);
      id := tx.PutTestProgram(p);
      ids := idsCache[p.path := id];
    } else {
      id, ids := idsCache[p.path], idsCache;
    }
  }

  method StartTest(handle: S.Scheduler, t: Test, tx: St.WriteTransaction, idsCache: map<Paths.Path, int>,
                   ghost started: seq<Test>, ghost inFlight: map<M.Pid, int>)
    returns (pid: Option<M.Pid>, caseId: int, ids: map<Paths.Path, int>)
    requires Ready(handle, tx, idsCache, started, inFlight)
    modifies handle, tx
    ensures handle.Valid()
    ensures old(handle.checks) <= handle.checks && (pid.None? <==> handle.Alarmed(old(handle.checks)))
    ensures pid.None? ==>
      && handle.run == old(handle.run)
      && old(handle.peak) <= handle.peak <= S.Max(old(handle.peak), |handle.children| + 1)
    ensures pid.Some? ==>
      && handle.peak == S.Max(old(handle.peak), |handle.children|)
      && pid.value !in inFlight && caseId == |started| + 1
      && Ready(handle, tx, ids, started + [t], inFlight[pid.value := caseId])
      && handle.State().log == old(handle.State().log) + [M.Spawned(pid.value, t)]
  {
    hide Test.HasCleanup, Test.HasExecenv, Test.IsExclusive;
    hide Catalogue, Flights, Outcomes, Listed, SpawnedTests, St.WriteTransaction.Valid;
    var programId;
    programId, ids := FindTestProgramId(t.program, tx, idsCache, started);
    ghost var puts := tx.puts;
    var fired := handle.CheckInterrupt();
    if fired {
      return None, 0, ids;
    }
    CatalogueCase(puts, ids, started, t);
    caseId := tx.PutTestCase(t, programId);
    ghost var s := handle.State();
    pid := handle.SpawnTest(t);
    if pid.Some? {
      R.Reachable(old(handle.run));
      R.ExecuteStep(old(handle.run), M.Spawn(pid.value, t));
      FlightStarts(s, M.Spawn(pid.value, t), started, inFlight);
      OutcomesStart(s.log, old(tx.puts), started, inFlight, M.Spawned(pid.value, t), t, tx.puts, pid.value);
      ListedNext(old(tx.puts), tx.puts, started, t);
      SpawnedNext(s.log, M.Spawned(pid.value, t));
    }
  }

  /** Stores the result of a test under the id of its case and lets go of the result handle. */
  method FinishTest(handle: S.Scheduler, exit: M.ExitHandle, verdict: TestResult, caseId: int, tx: St.WriteTransaction)
    requires handle.Valid() && tx.Valid() && exit.pid in handle.State().handedOut
    requires !Reported(tx.puts, caseId) && (caseId, STDOUT) !in tx.puts.files && (caseId, STDERR) !in tx.puts.files
    modifies tx, handle`allExecData, handle`run
    ensures handle.Valid() && tx.Valid()
    ensures handle.run == old(handle.run) + [M.Release(exit.pid)]
    ensures tx.puts == WithResult(old(tx.puts), caseId, exit, verdict)
  {
    assert STDOUT != STDERR by {
      assert STDOUT[5] != STDERR[5];
    }
    var ok := tx.PutResult(verdict, caseId, exit.startTime, exit.endTime);
    ok := tx.PutTestCaseFile(STDOUT, exit.stdout, caseId);
    ok := tx.PutTestCaseFile(STDERR, exit.stderr, caseId);
    handle.Release(exit.pid);
  }

  /** The state and the books after a delivery was stored and its handle released. */
  lemma ConcludeFlight(run: seq<M.Action>, s: M.State, started: seq<Test>, inFlight: map<M.Pid, int>,
                       exit: M.ExitHandle, test: Test, verdict: TestResult)
    requires R.ValidRun(run) && Flights(s, started, inFlight)
    requires S.DeliveredOne(s, R.Execute(run), exit, test, verdict)
    ensures exit.pid in R.Execute(run).handedOut
    ensures exit.pid in inFlight && 1 <= inFlight[exit.pid] <= |started| && test == started[inFlight[exit.pid] - 1]
    ensures M.Delivered(exit.pid, exit, test, verdict) in R.Execute(run).log && s.log <= R.Execute(run).log
    ensures var run' := run + [M.Release(exit.pid)];
      && R.ValidRun(run') && Flights(R.Execute(run'), started, inFlight - {exit.pid})
      && R.Execute(run').log == R.Execute(run).log + [M.Released(exit.pid)]
  {
    var t := R.Execute(run);
    R.Reachable(run);
    FlightEnds(s, t, started, inFlight, exit, test, verdict);
    R.ExecuteStep(run, M.Release(exit.pid));
    assert t.log[|t.log| - 1] in t.log;
  }

  lemma FreshCase(log: seq<M.Event>, puts: St.Puts, started: seq<Test>, inFlight: map<M.Pid, int>, pid: M.Pid)
    requires Outcomes(log, puts, started, inFlight)
    requires pid in inFlight && 1 <= inFlight[pid] <= |started|
    ensures !Reported(puts, inFlight[pid])
    ensures (inFlight[pid], STDOUT) !in puts.files && (inFlight[pid], STDERR) !in puts.files
  {
  }

  lemma NothingMoreSpawned(s: M.State, log: seq<M.Event>, pid: M.Pid)
    requires s.log <= log && forall k :: |s.log| <= k < |log| ==> !log[k].Spawned?
    ensures SpawnedTests(log + [M.Released(pid)]) == SpawnedTests(s.log)
  {
    SpawnedStays(s.log, log);
    SpawnedNext(log, M.Released(pid));
  }

  /** Stores what the scheduler just delivered, given that all was in order before. */
  method Conclude(handle: S.Scheduler, exit: M.ExitHandle, test: Test, verdict: TestResult, caseId: int,
                  tx: St.WriteTransaction, ghost s: M.State, ghost ids: map<Paths.Path, int>,
                  ghost started: seq<Test>, ghost inFlight: map<M.Pid, int>)
    requires handle.Valid() && handle.strays == {} && tx.Valid() && Catalogue(tx.puts, ids, started)
    requires Flights(s, started, inFlight) && Outcomes(s.log, tx.puts, started, inFlight)
    requires S.DeliveredOne(s, handle.State(), exit, test, verdict)
    requires exit.pid in inFlight && caseId == inFlight[exit.pid]
    requires Listed(tx.puts, started) && SpawnedTests(s.log) == started && S.NothingSpawned(s, handle.State())
    modifies tx, handle`allExecData, handle`run
    ensures Ready(handle, tx, ids, started, inFlight - {exit.pid})
    ensures handle.State().log == old(handle.State().log) + [M.Released(exit.pid)]
  {
    hide Outcomes, Catalogue, Listed, SpawnedTests, WithResult, M.Apply, M.Enabled, R.ValidRun, R.Execute,
         S.DeliveredOne;
    ghost var puts, log := tx.puts, handle.State().log;
    ConcludeFlight(handle.run, s, started, inFlight, exit, test, verdict);
    FreshCase(s.log, puts, started, inFlight, exit.pid);
    OutcomesFinish(s.log, log + [M.Released(exit.pid)], puts, started, inFlight, exit, test, verdict);
    FinishTest(handle, exit, verdict, caseId, tx);
    ResultOnly(puts, inFlight[exit.pid], exit, verdict);
    CatalogueSame(puts, tx.puts, ids, started);
    NothingMoreSpawned(s, log, exit.pid);
  }

  lemma CatalogueSame(puts: St.Puts, puts': St.Puts, ids: map<Paths.Path, int>, started: seq<Test>)
    requires Catalogue(puts, ids, started) && puts'.programs == puts.programs && puts'.cases == puts.cases
    ensures Catalogue(puts', ids, started)
    ensures Listed(puts, started) ==> Listed(puts', started)
  {
  }

  lemma ResultOnly(puts: St.Puts, id: int, handle: M.ExitHandle, verdict: TestResult)
    ensures var puts' := WithResult(puts, id, handle, verdict);
      puts'.programs == puts.programs && puts'.cases == puts.cases
  {
  }

  ghost predicate SharedOnly(log: seq<M.Event>) {
    forall e :: e in log && e.Spawned? ==> !e.test.IsExclusive()
  }

  lemma DeliveryAndRelease(s: M.State, t: M.State, log: seq<M.Event>, flying: set<M.Pid>,
                           exit: M.ExitHandle, test: Test, verdict: TestResult)
    requires S.DeliveredOne(s, t, exit, test, verdict) && S.NothingSpawned(s, t)
    requires log == t.log + [M.Released(exit.pid)]
    ensures NoOverlap(s.log) ==> NoOverlap(log)
    ensures SettledExcept(s.log, flying) ==> SettledExcept(log, flying - {exit.pid})
    ensures SharedOnly(s.log) ==> SharedOnly(log)
  {
    hide Test.IsExclusive;
    DeliveryKeeps(s.log, t.log, flying, exit.pid);
    GrowsKeeps(t.log, log, flying - {exit.pid});
    forall e | e in log && e.Spawned?
      ensures e in s.log
    {
      var k :| 0 <= k < |log| && log[k] == e;
      assert s.log[k] == e;
    }
  }

  // ---------- The driver ----------

  /** What holds while tests share the slots. */
  ghost predicate Lanes(handle: S.Scheduler, tx: St.WriteTransaction, ids: map<Paths.Path, int>,
                        started: seq<Test>, inFlight: map<M.Pid, int>, slots: nat)
    reads handle`allExecData, handle`children, handle`run, handle`peak, handle`strays, tx
  {
    && Ready(handle, tx, ids, started, inFlight)
    && |inFlight| <= slots && handle.peak <= slots
    && NoOverlap(handle.State().log) && SharedOnly(handle.State().log)
    && SettledExcept(handle.State().log, inFlight.Keys)
  }

  /** Where the scan stands while tests share the slots. */
  ghost predicate Scanning(scanner: Sc.Scanner, started: seq<Test>, exclusiveTests: seq<Test>)
    reads scanner, scanner.filters
  {
    scanner.Valid() && started == Shared(scanner.yielded) && exclusiveTests == Exclusive(scanner.yielded)
  }

  /** What holds even when an interrupt makes the driver give up. */
  ghost predicate Orderly(handle: S.Scheduler, slots: nat)
    reads handle`allExecData, handle`children, handle`run, handle`peak
  {
    handle.Valid() && handle.peak <= slots && NoOverlap(handle.State().log)
  }

  lemma LanesAreOrderly(handle: S.Scheduler, tx: St.WriteTransaction, ids: map<Paths.Path, int>,
                        started: seq<Test>, inFlight: map<M.Pid, int>, slots: nat)
    requires Lanes(handle, tx, ids, started, inFlight, slots)
    ensures Orderly(handle, slots) && |inFlight| <= slots
  {
  }

  lemma LiveChildren(run: seq<M.Action>, started: seq<Test>, inFlight: map<M.Pid, int>)
    requires R.ValidRun(run) && Flights(R.Execute(run), started, inFlight)
    ensures |R.Execute(run).children| <= |inFlight|
    ensures inFlight != map[] ==> R.Execute(run).children != {}
  {
    R.Reachable(run);
    S.ChildrenBound(R.Execute(run));
    assert |inFlight| == |inFlight.Keys|;
    assert inFlight != map[] ==> inFlight.Keys != {};
  }

  lemma SharedStart(log: seq<M.Event>, flying: set<M.Pid>, pid: M.Pid, test: Test)
    requires NoOverlap(log) && SharedOnly(log) && SettledExcept(log, flying) && !test.IsExclusive()
    ensures var log' := log + [M.Spawned(pid, test)];
      NoOverlap(log') && SharedOnly(log') && SettledExcept(log', flying + {pid})
  {
    hide Test.IsExclusive;
    SpawnKeeps(log, flying, pid, test);
  }

  /** The part of `Lanes` that listing the test cases of a program does not touch. */
  ghost predicate Books(handle: S.Scheduler, tx: St.WriteTransaction, ids: map<Paths.Path, int>,
                        started: seq<Test>, inFlight: map<M.Pid, int>, slots: nat)
    reads handle`allExecData, handle`children, handle`run, handle`strays, tx
  {
    && handle.Consistent() && handle.strays == {} && tx.Valid()
    && Catalogue(tx.puts, ids, started)
    && Flights(handle.State(), started, inFlight)
    && Outcomes(handle.State().log, tx.puts, started, inFlight)
    && Listed(tx.puts, started) && SpawnedTests(handle.State().log) == started
    && |inFlight| <= slots && |handle.children| <= |inFlight|
    && NoOverlap(handle.State().log) && SharedOnly(handle.State().log)
    && SettledExcept(handle.State().log, inFlight.Keys)
  }

  lemma LanesHaveBooks(handle: S.Scheduler, tx: St.WriteTransaction, ids: map<Paths.Path, int>,
                       started: seq<Test>, inFlight: map<M.Pid, int>, slots: nat)
    requires Lanes(handle, tx, ids, started, inFlight, slots)
    ensures Books(handle, tx, ids, started, inFlight, slots)
    ensures |handle.children| <= |inFlight| <= slots && |handle.children| <= handle.peak <= slots
  {
    hide NoOverlap, SettledExcept, SharedOnly, Outcomes, Catalogue, Flights, Listed, SpawnedTests, St.WriteTransaction.Valid;
    LiveChildren(handle.run, started, inFlight);
  }

  lemma BooksAreLanes(handle: S.Scheduler, tx: St.WriteTransaction, ids: map<Paths.Path, int>,
                      started: seq<Test>, inFlight: map<M.Pid, int>, slots: nat)
    requires Books(handle, tx, ids, started, inFlight, slots) && |handle.children| <= handle.peak <= slots
    ensures Lanes(handle, tx, ids, started, inFlight, slots)
  {
    hide NoOverlap, SettledExcept, SharedOnly, Outcomes, Catalogue, Flights, Listed, SpawnedTests, St.WriteTransaction.Valid;
  }

  /** Asks the scanner for a test while a slot is free. */
  method NextTest(handle: S.Scheduler, tx: St.WriteTransaction, scanner: Sc.Scanner, slots: nat,
                  ghost ids: map<Paths.Path, int>, ghost started: seq<Test>, ghost inFlight: map<M.Pid, int>)
    returns (t: Option<Test>, interrupted: bool)
    requires Lanes(handle, tx, ids, started, inFlight, slots) && |inFlight| < slots && scanner.Valid()
    modifies scanner, scanner.filters, handle`peak, handle`checks
    ensures Lanes(handle, tx, ids, started, inFlight, slots) && scanner.Valid()
    ensures !interrupted && old(scanner.rest) != [] ==>
      t == Some(old(scanner.rest)[0]) && scanner.yielded == old(scanner.yielded) + [t.value]
      && scanner.rest == old(scanner.rest)[1..]
    ensures !interrupted && old(scanner.rest) == [] ==> t == None
    ensures t.None? ==> scanner.yielded == old(scanner.yielded) && scanner.rest == old(scanner.rest)
    ensures old(handle.checks) <= handle.checks && (interrupted <==> handle.Alarmed(old(handle.checks)))
  {
    hide Lanes, Books, Sc.Scanner.Valid;
    LanesHaveBooks(handle, tx, ids, started, inFlight, slots);
    t, interrupted := scanner.Yield(handle);
    BooksAreLanes(handle, tx, ids, started, inFlight, slots);
  }

  /** Asks whether the scan is over, when nothing is in flight. */
  method ScanIsOver(handle: S.Scheduler, tx: St.WriteTransaction, scanner: Sc.Scanner, slots: nat,
                    ghost ids: map<Paths.Path, int>, ghost started: seq<Test>, ghost exclusiveTests: seq<Test>)
    returns (done: bool, interrupted: bool)
    requires Lanes(handle, tx, ids, started, map[], slots) && 1 <= slots
    requires Scanning(scanner, started, exclusiveTests)
    modifies scanner, scanner.filters, handle`peak, handle`checks
    ensures Lanes(handle, tx, ids, started, map[], slots) && Scanning(scanner, started, exclusiveTests)
    ensures scanner.rest == old(scanner.rest) && (!interrupted ==> (done <==> scanner.rest == []))
    ensures done ==> scanner.asked == Sc.ToAsk(scanner.filters.filters, scanner.programs)
    ensures old(handle.checks) <= handle.checks && (interrupted <==> handle.Alarmed(old(handle.checks)))
  {
    hide Lanes, Books;
    LanesHaveBooks(handle, tx, ids, started, map[], slots);
    done, interrupted := scanner.Done(handle);
    BooksAreLanes(handle, tx, ids, started, map[], slots);
  }

  /** Starts a test that shares the slots. */
  method StartShared(handle: S.Scheduler, tx: St.WriteTransaction, t: Test, idsCache: map<Paths.Path, int>,
                     flying: map<M.Pid, int>, slots: nat, ghost started: seq<Test>)
    returns (ok: bool, ids: map<Paths.Path, int>, inFlight: map<M.Pid, int>)
    requires Lanes(handle, tx, idsCache, started, flying, slots) && |flying| < slots && !t.IsExclusive()
    modifies handle, tx
    ensures Orderly(handle, slots)
    ensures ok ==> Lanes(handle, tx, ids, started + [t], inFlight, slots) && |inFlight| == |flying| + 1
    ensures old(handle.checks) <= handle.checks && (!ok <==> handle.Alarmed(old(handle.checks)))
  {
    hide Test.HasCleanup, Test.HasExecenv, Test.IsExclusive;
    hide NoOverlap, SettledExcept, SharedOnly, Outcomes, Catalogue, Flights, Listed, SpawnedTests,
         S.InProgress, M.Apply, M.Enabled, St.WriteTransaction.Valid;
    ghost var log := handle.State().log;
    LiveChildren(handle.run, started, flying);
    inFlight := flying;
    var pid, caseId;
    pid, caseId, ids := StartTest(handle, t, tx, idsCache, started, flying);
    ok := pid.Some?;
    if ok {
      SharedStart(log, flying.Keys, pid.value, t);
      inFlight := flying[pid.value := caseId];
      assert inFlight.Keys == flying.Keys + {pid.value};
      LiveChildren(handle.run, started + [t], inFlight);
    }
  }

  /** Starts tests until all slots are taken or the scan is over, and puts exclusive tests
      aside. */
  method FillSlots(handle: S.Scheduler, tx: St.WriteTransaction, scanner: Sc.Scanner, idsCache: map<Paths.Path, int>,
                   flying: map<M.Pid, int>, aside: seq<Test>, slots: nat, ghost begun: seq<Test>)
    returns (interrupted: bool, ids: map<Paths.Path, int>, inFlight: map<M.Pid, int>, exclusiveTests: seq<Test>,
             ghost started: seq<Test>)
    requires Lanes(handle, tx, idsCache, begun, flying, slots) && Scanning(scanner, begun, aside)
    modifies handle, tx, scanner, scanner.filters
    ensures Orderly(handle, slots)
    ensures !interrupted ==>
      && Lanes(handle, tx, ids, started, inFlight, slots) && Scanning(scanner, started, exclusiveTests)
      && (|inFlight| == slots || scanner.rest == [])
      && 2 * |scanner.rest| + |inFlight| <= 2 * |old(scanner.rest)| + |flying|
      && (|scanner.rest| < |old(scanner.rest)| || inFlight == flying)
    ensures old(handle.checks) <= handle.checks && (interrupted <==> handle.Alarmed(old(handle.checks)))
  {
    hide Test.HasCleanup, Test.HasExecenv, Test.IsExclusive;
    hide Lanes, Orderly, Sc.Scanner.Valid, Exclusive, Shared, R.ValidRun, R.Execute, Ready;
    interrupted, ids, inFlight, exclusiveTests, started := false, idsCache, flying, aside, begun;
    while |inFlight| < slots
      invariant Lanes(handle, tx, ids, started, inFlight, slots) && Scanning(scanner, started, exclusiveTests)
      invariant 2 * |scanner.rest| + |inFlight| <= 2 * |old(scanner.rest)| + |flying|
      invariant |scanner.rest| < |old(scanner.rest)| || (inFlight == flying && scanner.rest == old(scanner.rest))
      invariant !interrupted && old(handle.checks) <= handle.checks && !handle.Alarmed(old(handle.checks))
      decreases |scanner.rest|
    {
      ghost var before := scanner.yielded;
      var t;
      t, interrupted := NextTest(handle, tx, scanner, slots, ids, started, inFlight);
      if interrupted {
        LanesAreOrderly(handle, tx, ids, started, inFlight, slots);
        return;
      }
      if t.None? {
        break;
      }
      interrupted := handle.CheckInterrupt();
      if interrupted {
        LanesAreOrderly(handle, tx, ids, started, inFlight, slots);
        return;
      }
      OneMore(before, t.value);
      if t.value.IsExclusive() {
        exclusiveTests := exclusiveTests + [t.value];
        continue;
      }
      var ok;
      ok, ids, inFlight := StartShared(handle, tx, t.value, ids, inFlight, slots, started);
      if !ok {
        interrupted := true;
        return;
      }
      started := started + [t.value];
    }
    LanesAreOrderly(handle, tx, ids, started, inFlight, slots);
  }

  /** Waits for any test in flight, looks up its case, and stores the result. */
  method ConsumeOne(handle: S.Scheduler, tx: St.WriteTransaction, flying: map<M.Pid, int>, slots: nat,
                    ghost ids: map<Paths.Path, int>, ghost started: seq<Test>)
    returns (ok: bool, inFlight: map<M.Pid, int>)
    requires Lanes(handle, tx, ids, started, flying, slots) && flying != map[]
    modifies handle, tx
    ensures Orderly(handle, slots)
    ensures ok ==> Lanes(handle, tx, ids, started, inFlight, slots) && |inFlight| == |flying| - 1
    ensures old(handle.checks) <= handle.checks && (!ok <==> handle.Alarmed(old(handle.checks)))
  {
    hide NoOverlap, SettledExcept, SharedOnly, Outcomes, Catalogue, Flights, Listed, SpawnedTests, Test.IsExclusive,
         S.EndsLife, S.DeliveredOne;
    LiveChildren(handle.run, started, flying);
    ghost var s := handle.State();
    inFlight := flying;
    var r := handle.WaitAny();
    LogStaysOrderly(s, handle.State());
    ok := r.Result?;
    if ok {
      ConcludeFlight(handle.run, s, started, flying, r.handle, r.test, r.verdict);
      ghost var t := handle.State();
      var caseId := flying[r.handle.pid];
      inFlight := flying - {r.handle.pid};
      Conclude(handle, r.handle, r.test, r.verdict, caseId, tx, s, ids, started, flying);
      DeliveryAndRelease(s, t, handle.State().log, flying.Keys, r.handle, r.test, r.verdict);
      assert inFlight.Keys == flying.Keys - {r.handle.pid};
      LiveChildren(handle.run, started, inFlight);
    }
  }

  lemma LogStaysOrderly(s: M.State, t: M.State)
    requires S.NothingSpawned(s, t)
    ensures NoOverlap(s.log) ==> NoOverlap(t.log)
  {
    hide Test.IsExclusive;
  }

  /** Runs one exclusive test while nothing else is in flight; whatever `wait_any` returns is
      that test. */
  method RunExclusive(handle: S.Scheduler, tx: St.WriteTransaction, t: Test, idsCache: map<Paths.Path, int>,
                      slots: nat, ghost started: seq<Test>)
    returns (ok: bool, ids: map<Paths.Path, int>)
    requires Ready(handle, tx, idsCache, started, map[]) && 1 <= slots && handle.peak <= slots
    requires NoOverlap(handle.State().log) && SettledExcept(handle.State().log, {})
    modifies handle, tx
    ensures Orderly(handle, slots)
    ensures ok ==>
      && Ready(handle, tx, ids, started + [t], map[])
      && SettledExcept(handle.State().log, {})
    ensures old(handle.checks) <= handle.checks && (!ok <==> handle.Alarmed(old(handle.checks)))
  {
    hide Test.HasCleanup, Test.HasExecenv, Test.IsExclusive;
    hide NoOverlap, SettledExcept, SharedOnly, Outcomes, Catalogue, Flights, Listed,
         SpawnedTests, St.WriteTransaction.Valid, S.DeliveredOne, S.EndsLife, M.Apply, M.Enabled;
    ok, ids := false, idsCache;
    LiveChildren(handle.run, started, map[]);
    ghost var log := handle.State().log;
    var pid, caseId;
    pid, caseId, ids := StartTest(handle, t, tx, idsCache, started, map[]);
    if pid.None? {
      return;
    }
    SpawnKeeps(log, {}, pid.value, t);
    ghost var inFlight := map[pid.value := caseId];
    LiveChildren(handle.run, started + [t], inFlight);
    ghost var s := handle.State();
    var r := handle.WaitAny();
    LogStaysOrderly(s, handle.State());
    if r.Result? {
      ConcludeFlight(handle.run, s, started + [t], inFlight, r.handle, r.test, r.verdict);
      assert r.handle.pid == pid.value && r.test == t;
      ghost var u := handle.State();
      Conclude(handle, r.handle, r.test, r.verdict, caseId, tx, s, ids, started + [t], inFlight);
      DeliveryAndRelease(s, u, handle.State().log, {pid.value}, r.handle, r.test, r.verdict);
      assert inFlight - {pid.value} == map[];
      assert {pid.value} - {pid.value} == {};
      ok := true;
    }
  }

  /** A complete run over the tests of a scan: they were spawned in that order, each once, and
      the store has one program per distinct path and none of any other test, one case per test
      in start order, and exactly one result per case, which is what the
      scheduler delivered for that test. */
  ghost predicate Complete(puts: St.Puts, log: seq<M.Event>, tests: seq<Test>) {
    && SpawnedTests(log) == tests
    && Listed(puts, tests)
    && (forall i, j :: 0 <= i < j < |puts.programs| ==> puts.programs[i].path != puts.programs[j].path)
    && |puts.cases| == |tests| && (forall i :: 0 <= i < |tests| ==> CaseFor(puts, i, tests[i]))
    && |puts.results| == |tests|
    && (forall i, j :: 0 <= i < j < |puts.results| ==> puts.results[i].caseId != puts.results[j].caseId)
    && (forall k :: 0 <= k < |puts.results| ==>
          1 <= puts.results[k].caseId <= |tests|
          && Genuine(log, tests[puts.results[k].caseId - 1], puts, puts.results[k]))
  }

  // ---------- Counting the results ----------

  lemma Without(ids: seq<int>, k: nat, id: int)
    requires k < |ids| && forall i, j :: 0 <= i < j < |ids| ==> ids[i] != ids[j]
    ensures id in ids[..k] + ids[k + 1..] <==> id in ids && id != ids[k]
  {
  }

  /** A list without duplicates whose members are 1 to n has length n. */
  lemma {:induction false} DistinctCount(ids: seq<int>, n: nat)
    requires forall i, j :: 0 <= i < j < |ids| ==> ids[i] != ids[j]
    requires forall id :: id in ids <==> 1 <= id <= n
    ensures |ids| == n
    decreases n
  {
    if ids == [] {
      assert 1 !in ids;
    } else {
      var first := ids[0];
      assert first in ids && n in ids;
      var k := IndexOf(ids, n);
      var rest := ids[..k] + ids[k + 1..];
      forall id
        ensures id in rest <==> 1 <= id <= n - 1
      {
        Without(ids, k, id);
      }
      DistinctCount(rest, n - 1);
    }
  }

  lemma AllReported(db: St.Db, puts: St.Puts, log: seq<M.Event>, started: seq<Test>)
    requires St.Holds(db, puts) && Outcomes(log, puts, started, map[])
    ensures |puts.results| == |started|
  {
    var ids := seq(|puts.results|, k requires 0 <= k < |puts.results| => puts.results[k].caseId);
    forall id
      ensures id in ids <==> 1 <= id <= |started|
    {
      if 1 <= id <= |started| {
        assert !Flying(map[], id);
        var k :| 0 <= k < |puts.results| && puts.results[k].caseId == id;
        assert ids[k] == id;
      }
    }
    DistinctCount(ids, |started|);
  }

  /** When nothing is in flight any more, the books are complete. */
  lemma CompleteAtRest(db: St.Db, puts: St.Puts, log: seq<M.Event>, ids: map<Paths.Path, int>, started: seq<Test>)
    requires St.Holds(db, puts) && Catalogue(puts, ids, started) && Outcomes(log, puts, started, map[])
    requires Listed(puts, started) && SpawnedTests(log) == started
    ensures Complete(puts, log, started)
  {
    AllReported(db, puts, log, started);
  }

  lemma TableAccounted(s: M.State)
    requires M.Inv(s) && s.lost == {} && s.handedOut == {}
    ensures s.table == map[] || S.InProgress(s) != {}
  {
    if s.table != map[] {
      var p := Member(s.table.Keys);
      if s.table[p].TestData? {
        assert p in S.InProgress(s);
      } else {
        assert M.FollowupRecord(s, p);
        assert s.table[p].body.pid in S.InProgress(s);
      }
    }
  }

  lemma EmptyAtRest(run: seq<M.Action>, started: seq<Test>)
    requires R.ValidRun(run) && Flights(R.Execute(run), started, map[])
    ensures R.Execute(run).table == map[] && R.Execute(run).children == {}
  {
    var s := R.Execute(run);
    R.Reachable(run);
    S.ChildrenBound(s);
    TableAccounted(s);
  }

  // ---------- The driver ----------

  datatype DriveResult = Done(unused: set<F.Filter>) | Interrupted

  /** The loop over the tests that share the slots. */
  method RunShared(handle: S.Scheduler, tx: St.WriteTransaction, scanner: Sc.Scanner, slots: nat)
    returns (ok: bool, ids: map<Paths.Path, int>, exclusiveTests: seq<Test>, ghost started: seq<Test>)
    requires Lanes(handle, tx, map[], [], map[], slots) && Scanning(scanner, [], []) && 1 <= slots
    modifies handle, tx, scanner, scanner.filters
    ensures Orderly(handle, slots)
    ensures ok ==>
      && Lanes(handle, tx, ids, started, map[], slots) && Scanning(scanner, started, exclusiveTests)
      && scanner.rest == [] && scanner.asked == Sc.ToAsk(scanner.filters.filters, scanner.programs)
    ensures old(handle.checks) <= handle.checks && (!ok <==> handle.Alarmed(old(handle.checks)))
  {
    hide Lanes, Scanning, Orderly, Ready, Sc.Scanner.Valid, Sc.ToAsk, S.Scheduler.Valid, St.WriteTransaction.Valid;
    ids, exclusiveTests, started := map[], [], [];
    var inFlight: map<M.Pid, int> := map[];
    while true
      invariant Lanes(handle, tx, ids, started, inFlight, slots) && Scanning(scanner, started, exclusiveTests)
      invariant old(handle.checks) <= handle.checks && !handle.Alarmed(old(handle.checks))
      decreases 2 * |scanner.rest| + |inFlight|
    {
      var interrupted;
      interrupted, ids, inFlight, exclusiveTests, started :=
        FillSlots(handle, tx, scanner, ids, inFlight, exclusiveTests, slots, started);
      if interrupted {
        return false, ids, exclusiveTests, started;
      }
      if inFlight != map[] {
        ok, inFlight := ConsumeOne(handle, tx, inFlight, slots, ids, started);
        if !ok {
          return;
        }
      }
      if inFlight == map[] {
        var done;
        done, interrupted := ScanIsOver(handle, tx, scanner, slots, ids, started, exclusiveTests);
        if interrupted || done {
          LanesAreOrderly(handle, tx, ids, started, inFlight, slots);
          return done && !interrupted, ids, exclusiveTests, started;
        }
      }
    }
  }

  /** The loop over the exclusive tests. */
  method RunExclusives(handle: S.Scheduler, tx: St.WriteTransaction, exclusiveTests: seq<Test>,
                       idsCache: map<Paths.Path, int>, slots: nat, ghost before: seq<Test>)
    returns (ok: bool, ids: map<Paths.Path, int>)
    requires Ready(handle, tx, idsCache, before, map[]) && 1 <= slots && Orderly(handle, slots)
    requires SettledExcept(handle.State().log, {})
    modifies handle, tx
    ensures Orderly(handle, slots)
    ensures ok ==> Ready(handle, tx, ids, before + exclusiveTests, map[])
    ensures old(handle.checks) <= handle.checks && (!ok <==> handle.Alarmed(old(handle.checks)))
  {
    hide Test.HasCleanup, Test.HasExecenv, Test.IsExclusive;
    hide NoOverlap, SettledExcept, SharedOnly, Outcomes, Catalogue, Flights, Listed, SpawnedTests, Test.IsExclusive;
    ok, ids := true, idsCache;
    var i := 0;
    assert before + exclusiveTests[..0] == before;
    while i < |exclusiveTests|
      invariant 0 <= i <= |exclusiveTests|
      invariant Ready(handle, tx, ids, before + exclusiveTests[..i], map[])
      invariant Orderly(handle, slots) && SettledExcept(handle.State().log, {})
      invariant ok && old(handle.checks) <= handle.checks && !handle.Alarmed(old(handle.checks))
    {
      ok, ids := RunExclusive(handle, tx, exclusiveTests[i], ids, slots, before + exclusiveTests[..i]);
      if !ok {
        return;
      }
      assert before + exclusiveTests[..i + 1] == before + exclusiveTests[..i] + [exclusiveTests[i]];
      i := i + 1;
    }
    assert exclusiveTests[..|exclusiveTests|] == exclusiveTests;
  }

  lemma Beginning(handle: S.Scheduler, tx: St.WriteTransaction, scanner: Sc.Scanner, slots: nat)
    requires handle.Valid() && handle.run == [] && handle.peak == 0 && handle.strays == {}
    requires tx.Valid() && tx.puts == St.NO_PUTS
    requires scanner.Valid() && scanner.yielded == []
    ensures Lanes(handle, tx, map[], [], map[], slots) && Scanning(scanner, [], [])
  {
    hide Test.HasCleanup, Test.HasExecenv, Test.IsExclusive;
  }

  lemma AtTheEnd(handle: S.Scheduler, tx: St.WriteTransaction, scanner: Sc.Scanner, ids: map<Paths.Path, int>,
                 before: seq<Test>, exclusiveTests: seq<Test>)
    requires Scanning(scanner, before, exclusiveTests) && scanner.rest == []
    requires Ready(handle, tx, ids, before + exclusiveTests, map[])
    ensures scanner.Valid()
    ensures before + exclusiveTests == StartOrder(Sc.Selected(scanner.filters.filters, scanner.programs))
    ensures tx.Valid() && Complete(tx.puts, handle.State().log, before + exclusiveTests)
    ensures handle.children == {} && handle.strays == {} && handle.allExecData == map[]
  {
    hide NoOverlap, SettledExcept, SharedOnly, Outcomes, Catalogue, Flights, Listed, SpawnedTests, Test.IsExclusive;
    assert scanner.yielded + [] == scanner.yielded;
    CompleteAtRest(tx.db, tx.puts, handle.State().log, ids, before + exclusiveTests);
    EmptyAtRest(handle.run, before + exclusiveTests);
  }

  /** Runs the tests of all programs that the filters select, `slots` at a time, and the
      exclusive ones alone afterwards.  It gives up exactly if the last check it made saw an
      interrupt. */
  method Drive(programs: seq<TestProgram>, filters: seq<F.Filter>, slots: nat, alarms: S.Alarms)
    returns (result: DriveResult, tx: St.WriteTransaction, handle: S.Scheduler)
    requires 1 <= slots
    ensures Orderly(handle, slots)
    ensures handle.alarms == alarms && (result.Interrupted? <==> handle.Alarmed(0))
    ensures (forall k: nat :: !alarms(k)) ==> result.Done?
    ensures result.Done? ==>
      var tests := Sc.Selected(filters, programs);
      && tx.Valid() && Complete(tx.puts, handle.State().log, StartOrder(tests))
      && handle.children == {} && handle.strays == {} && handle.allExecData == map[]
      && result.unused == set f | f in filters && f !in Sc.Credited(filters, tests)
  {
    hide Complete, Sc.Credited, Flights, Outcomes, Catalogue, Listed, SpawnedTests, NoOverlap, SettledExcept, SharedOnly;
    handle := new S.Scheduler(alarms);
    tx := new St.WriteTransaction();
    var scanner := new Sc.Scanner(programs, filters);
    Beginning(handle, tx, scanner, slots);
    hide *;
    ghost var before;
    var ok, ids, exclusiveTests;
    ok, ids, exclusiveTests, before := RunShared(handle, tx, scanner, slots);
    if !ok {
      return Interrupted, tx, handle;
    }
    ok, ids := RunExclusives(handle, tx, exclusiveTests, ids, slots, before);
    if !ok {
      return Interrupted, tx, handle;
    }
    AtTheEnd(handle, tx, scanner, ids, before, exclusiveTests);
    var unused := scanner.UnusedFilters();
    return Done(unused), tx, handle;
  }

}
