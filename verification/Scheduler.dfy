/** The scheduler object (engine/scheduler.cpp) with its table updated in place.

    The environment is nondeterministic: any live child may end, with any status, and the next
    child gets any process id that is not in the table.  Which checks see an interrupt is a
    parameter.  The ghost field `run` records the steps taken, so everything proved in
    `SchedulerRuns` about all runs holds of every scheduler object. */
module Scheduler {
  import opened IntSets
  import opened Results
  import opened TestModel
  import opened SchedulerModel
  import opened SchedulerRuns

  /** Where the chain of a test stands once one of its children has ended. */
  datatype Progress = Over(handle: ExitHandle, verdict: TestResult) | Chained | Cut

  /** What `wait_any` comes back with. */
  datatype WaitResult =
    | Result(handle: ExitHandle, test: Test, verdict: TestResult)
    | Interrupted
    | NoChild

  /** Which checks for an interrupt see one, the checks of a scheduler counted from 0. */
  type Alarms = nat -> bool

  function Max(a: nat, b: nat): nat {
    if a < b then b else a
  }

  /** The tests that were spawned and are still to be delivered. */
  function InProgress(s: State): set<Pid> {
    set p | p in s.table && Pending(s, p)
  }

  /** From `s` to `s'` the log grows without spawning a test or delivering a result, and no
      test changes hands. */
  ghost predicate ChainedOn(s: State, s': State) {
    && s.log <= s'.log
    && (forall k :: |s.log| <= k < |s'.log| ==> !s'.log[k].Spawned? && !s'.log[k].Delivered?)
    && s'.handedOut == s.handedOut && s'.lost == s.lost
    && InProgress(s') == InProgress(s)
    && (forall p :: p in InProgress(s) ==> s'.table[p].test == s.table[p].test)
  }

  /** From `s` to `s'` exactly one test is delivered, as the last event, and for the caller
      nothing else happens. */
  ghost predicate DeliveredOne(s: State, s': State, handle: ExitHandle, test: Test, verdict: TestResult) {
    && s.log < s'.log
    && (forall k :: |s.log| <= k < |s'.log| - 1 ==> !s'.log[k].Spawned? && !s'.log[k].Delivered?)
    && s'.log[|s'.log| - 1] == Delivered(handle.pid, handle, test, verdict)
    && Pending(s, handle.pid) && s.table[handle.pid].test == test
    && s'.handedOut == s.handedOut + {handle.pid} && s'.lost == s.lost
    && InProgress(s') == InProgress(s) - {handle.pid}
    && (forall p :: p in InProgress(s') ==> s'.table[p].test == s.table[p].test)
  }

  lemma ChainedThenDelivered(s: State, t: State, u: State, handle: ExitHandle, test: Test, verdict: TestResult)
    requires ChainedOn(s, t) && DeliveredOne(t, u, handle, test, verdict)
    ensures DeliveredOne(s, u, handle, test, verdict)
  {
  }

  /** The log grows without a test being spawned. */
  ghost predicate NothingSpawned(s: State, s': State) {
    s.log <= s'.log && forall k :: |s.log| <= k < |s'.log| ==> !s'.log[k].Spawned?
  }

  /** What the step of one exit means for the caller. */
  ghost predicate StepMeaning(s: State, s': State, test: Test, p: Progress) {
    && NothingSpawned(s, s')
    && match p
       case Over(h, v) => DeliveredOne(s, s', h, test, v)
       case Chained => ChainedOn(s, s')
       case Cut => true
  }

  predicate Needs(table: map<Pid, ExecData>, stage: Stage, p: Pid) {
    && p in table && table[p].TestData?
    && (if stage.CleanupStage? then table[p].needsCleanup else table[p].needsExecenv)
  }

  /** What an exit means for its chain, read off the records. */
  function Outcome(s: State, a: Action): Progress
    requires a.Exit? && a.handle.pid in s.table
  {
    var d := s.table[a.handle.pid];
    match d
    case TestData(test, needsCleanup, needsExecenv, _, _) =>
      if !a.found then Cut
      else if !SkipObserved(test, a.handle, a.report) && (needsCleanup || needsExecenv) then
        if a.next.Some? then Chained else Cut
      else Over(a.handle, BodyVerdict(test, a.handle, a.report))
    case CleanupData(test, body, verdict) =>
      if !a.found then Cut
      else if Needs(s.table, ExecenvStage, body.pid) then if a.next.Some? then Chained else Cut
      else Over(body, Fold(CleanupStage, verdict, a.handle.status))
    case ExecenvData(test, body, verdict) =>
      Over(body, Fold(ExecenvStage, verdict, a.handle.status))
  }

  /** Only the subject of an exit can cease to be in progress. */
  lemma OthersInProgress(s: State, s': State, c: Pid, b: Pid, next: Option<Pid>)
    requires Inv(s) && c in s.children && c in s.table && b == Subject(s, c)
    requires ExitEffect(s, s', c, b, next)
    ensures b in InProgress(s)
    ensures InProgress(s') == InProgress(s) - (if Pending(s', b) then {} else {b})
    ensures forall p :: p in InProgress(s) && p != b ==> p in s'.table && s'.table[p] == s.table[p]
  {
  }

  /** The last event of an exit tells the same. */
  lemma LastEvent(s: State, a: Action, e: Event, f: Event)
    requires Inv(s) && a.Exit? && Enabled(s, a)
    requires Apply(s, a).log == s.log + [e] + [f]
    ensures var s', b := Apply(s, a), Subject(s, a.handle.pid);
      && b in s.table && s.table[b].TestData? && s.table[b].test == s.table[a.handle.pid].test
      && b in s'.table && s'.table[b].TestData? && s'.table[b].test == s.table[b].test
      && match Outcome(s, a)
         case Over(h, v) =>
           && f == Delivered(b, h, s.table[b].test, v) && h.pid == b
           && s'.handedOut == s.handedOut + {b} && s'.lost == s.lost
         case Chained => Pending(s', b) && s'.handedOut == s.handedOut && s'.lost == s.lost && !f.Delivered?
         case Cut => true
  {
    hide Test.HasCleanup, Test.HasExecenv, Test.IsExclusive;
    assert f == Apply(s, a).log[|s.log| + 1];
    if !s.table[a.handle.pid].TestData? {
      assert FollowupRecord(s, a.handle.pid);
    } else {
      assert BodyRecord(s, a.handle.pid);
    }
  }

  lemma ExitMeaning(s: State, a: Action)
    requires Inv(s) && a.Exit? && Enabled(s, a)
    ensures StepMeaning(s, Apply(s, a), s.table[a.handle.pid].test, Outcome(s, a))
  {
    hide Test.HasCleanup, Test.HasExecenv, Test.IsExclusive;
    var e, f := ExitLog(s, a);
    ExitHasEffect(s, a);
    LastEvent(s, a, e, f);
    OthersInProgress(s, Apply(s, a), a.handle.pid, Subject(s, a.handle.pid), a.next);
  }

  /** What the end of a body comes to.  If an interrupt keeps it from being looked at, its test
      is cut off with everything still to do.  Otherwise the log tells the verdict as `Judged`
      demands.  An observed skip leaves nothing to do for the test.  A test with nothing left to
      do is delivered at once with that verdict; any other gets the record of its first
      follow-up with that verdict in it, unless an interrupt prevents it. */
  ghost predicate BodyFate(s: State, s': State, a: Action)
    requires a.Exit? && a.handle.pid in s.table
  {
    var p, t := a.handle.pid, s.table[a.handle.pid].test;
    var stage := if t.HasCleanup() then CleanupStage else ExecenvStage;
    && Finished(s', p) && s'.table[p].exit == Some(a.handle)
    && |s'.log| == |s.log| + 2
    && var e, f := s'.log[|s.log|], s'.log[|s.log| + 1];
      if !a.found then
        && e == Overlooked(p, p) && f == Abandoned(p) && p in s'.lost
        && s'.table[p].needsCleanup == t.HasCleanup() && s'.table[p].needsExecenv == t.HasExecenv()
      else
        && e.BodyEnded? && e.pid == p && e.handle == a.handle && e.report == a.report
        && Judged(t, a.handle, a.report, e.verdict, e.skipped)
        && (e.skipped ==> !s'.table[p].needsCleanup && !s'.table[p].needsExecenv)
        && (p in s'.handedOut <==> e.skipped || !(t.HasCleanup() || t.HasExecenv()))
        && (p in s'.handedOut ==> f == Delivered(p, a.handle, t, e.verdict))
        && (p in s'.lost <==> p !in s'.handedOut && a.next.None?)
        && (p !in s'.handedOut && a.next.Some? ==>
              a.next.value in s'.table && s'.table[a.next.value] == Followup(stage, t, a.handle, e.verdict))
  }

  function Followup(stage: Stage, test: Test, body: ExitHandle, verdict: TestResult): ExecData {
    match stage
    case CleanupStage => CleanupData(test, body, verdict)
    case ExecenvStage => ExecenvData(test, body, verdict)
  }

  lemma BodyExitMeaning(s: State, a: Action)
    requires Inv(s) && a.Exit? && Enabled(s, a) && s.table[a.handle.pid].TestData?
    ensures BodyFate(s, Apply(s, a), a)
  {
    hide Test.HasCleanup, Test.HasExecenv;
    assert BodyRecord(s, a.handle.pid);
  }

  /** The delivery closes the story of a whole life. */
  ghost predicate EndsLife(log: seq<Event>, handle: ExitHandle, test: Test, verdict: TestResult) {
    exists l: Life, before: seq<Event> :: ClosesLife(log, Delivered(handle.pid, handle, test, verdict), l, before)
  }

  lemma DeliveredEndsLife(run: seq<Action>, s: State, handle: ExitHandle, test: Test, verdict: TestResult)
    requires ValidRun(run) && DeliveredOne(s, Execute(run), handle, test, verdict)
    ensures EndsLife(Execute(run).log, handle, test, verdict)
  {
    hide Execute, ValidRun, ClosesLife, InProgress;
    var log := Execute(run).log;
    var l, before := DeliveryClosesALife(run, |log| - 1);
    assert log[..|log| - 1 + 1] == log;
  }

  // ---------- Counting children ----------

  lemma OneChildPerTest(s: State, c: Pid, d: Pid)
    requires Inv(s) && c in s.children && d in s.children
    requires Subject(s, c) == Subject(s, d)
    ensures c == d
    ensures Subject(s, c) in InProgress(s)
  {
  }

  lemma {:induction false} SubjectsAtLeast(s: State, cs: set<Pid>, tests: set<Pid>)
    requires Inv(s) && cs <= s.children
    requires forall c :: c in cs ==> Subject(s, c) in tests
    ensures |cs| <= |tests|
    decreases |cs|
  {
    if cs != {} {
      var c := Member(cs);
      forall d | d in cs - {c}
        ensures Subject(s, d) in tests - {Subject(s, c)}
      {
        if Subject(s, d) == Subject(s, c) {
          OneChildPerTest(s, c, d);
        }
      }
      SubjectsAtLeast(s, cs - {c}, tests - {Subject(s, c)});
    }
  }

  lemma ChildrenTracked(run: seq<Action>)
    requires ValidRun(run)
    ensures Execute(run).children <= Execute(run).table.Keys
  {
    Reachable(run);
  }

  /** There are never more live children than tests in progress. */
  lemma ChildrenBound(s: State)
    requires Inv(s)
    ensures |s.children| <= |InProgress(s)|
    ensures InProgress(s) == {} ==> s.children == {}
    ensures InProgress(s) != {} ==> s.children != {}
  {
    forall c | c in s.children
      ensures Subject(s, c) in InProgress(s)
    {
      OneChildPerTest(s, c, c);
    }
    SubjectsAtLeast(s, s.children, InProgress(s));
    if InProgress(s) != {} {
      var p := Member(InProgress(s));
      var c := PendingHasChild(s, p);
    }
  }

  /** A test spawned while no child is alive is the only one in progress. */
  lemma NothingElse(run: seq<Action>, s: State, pid: Pid, test: Test)
    requires ValidRun(run) && s == Execute(run) && s.children == {} && Enabled(s, Spawn(pid, test))
    ensures pid !in s.table && ValidRun(run + [Spawn(pid, test)])
    ensures var t := Execute(run + [Spawn(pid, test)]);
      && t.log == s.log + [Spawned(pid, test)] && InProgress(t) == {pid} && t.table[pid].test == test && t.children != {}
  {
    hide Test.HasCleanup, Test.HasExecenv, Test.IsExclusive;
    Reachable(run);
    ChildrenBound(s);
    ExecuteStep(run, Spawn(pid, test));
    var t := Execute(run + [Spawn(pid, test)]);
    Reachable(run + [Spawn(pid, test)]);
    assert BodyRecord(t, pid) && pid in t.children;
    assert forall p :: p in InProgress(t) && p != pid ==> p in InProgress(s);
  }

  lemma OnlyDelivery(s: State, t: State, u: State, pid: Pid, test: Test,
                     handle: ExitHandle, delivered: Test, verdict: TestResult)
    requires t.log == s.log + [Spawned(pid, test)] && InProgress(t) == {pid} && t.table[pid].test == test
    requires DeliveredOne(t, u, handle, delivered, verdict)
    ensures handle.pid == pid && delivered == test
    ensures s.log + [Spawned(pid, test)] < u.log
    ensures u.log[|u.log| - 1] == Delivered(pid, handle, test, verdict)
  {
    assert handle.pid in InProgress(t);
  }

  // ---------- Abrupt termination ----------

  /** One attempt of the destructor to run a follow-up of the body that left `handle`: the
      child it spawned, if any, whether it waited for that child, and how many checks for an
      interrupt had been made before. */
  datatype Attempt = Attempt(stage: Stage, pid: Pid, handle: ExitHandle, child: Option<Pid>, waited: bool, check: nat)

  const DIED := TestResult(Broken, "Test case died abruptly")

  /** Only an interrupt seen right then keeps an attempt from spawning its child, or from
      waiting for it. */
  predicate Honest(alarms: Alarms, a: Attempt) {
    && (a.child.None? <==> alarms(a.check) || alarms(a.check + 1))
    && (a.waited <==> a.child.Some? && !alarms(a.check + 2))
  }

  /** How many checks had been made when the attempt was over. */
  function Until(alarms: Alarms, a: Attempt): nat {
    a.check + if alarms(a.check) then 1 else if alarms(a.check + 1) then 2 else 3
  }

  /** From `table` to `table'` the attempt, if it spawned a child, left the record of it: under
      a process id that was not there, for the right test and body. */
  predicate LeftRecord(table: map<Pid, ExecData>, table': map<Pid, ExecData>, a: Attempt) {
    a.child.Some? ==>
      && a.pid in table && a.child.value !in table && a.child.value in table'
      && table'[a.child.value] == Followup(a.stage, table[a.pid].test, a.handle, DIED)
  }

  /** Follow-ups came into the table and nothing else changed. */
  predicate Extended(table: map<Pid, ExecData>, table': map<Pid, ExecData>) {
    && (forall p :: p in table ==> p in table' && table'[p] == table[p])
    && (forall p :: p in table' && p !in table ==> !table'[p].TestData?)
  }

  /** The children nobody waited for. */
  function Unwaited(attempts: seq<Attempt>): set<Pid> {
    if attempts == [] then {}
    else
      var last := attempts[|attempts| - 1];
      Unwaited(attempts[..|attempts| - 1]) + if last.child.Some? && !last.waited then {last.child.value} else {}
  }

  /** A series of attempts, each with a child of its own, between two counts of checks. */
  ghost predicate Series(alarms: Alarms, from: nat, to: nat, table: map<Pid, ExecData>, table': map<Pid, ExecData>,
                         attempts: seq<Attempt>)
  {
    && from <= to
    && (forall i :: 0 <= i < |attempts| ==>
          from <= attempts[i].check && Until(alarms, attempts[i]) <= to && Honest(alarms, attempts[i]) && LeftRecord(table, table', attempts[i]))
    && (forall i, j :: 0 <= i < j < |attempts| ==>
          && Until(alarms, attempts[i]) <= attempts[j].check
          && (attempts[i].child.Some? ==> attempts[i].child != attempts[j].child))
  }

  lemma RecordStays(table: map<Pid, ExecData>, now: map<Pid, ExecData>, table': map<Pid, ExecData>, a: Attempt)
    requires LeftRecord(table, now, a) && Extended(now, table')
    ensures LeftRecord(table, table', a)
  {
    if a.child.Some? {
      var child: Pid := a.child.value;
      assert child in now && child !in table;
    }
  }

  lemma RecordOfMore(table: map<Pid, ExecData>, now: map<Pid, ExecData>, table': map<Pid, ExecData>, a: Attempt)
    requires LeftRecord(now, table', a) && Extended(table, now) && a.pid in table
    ensures LeftRecord(table, table', a)
  {
    if a.child.Some? {
      var child: Pid := a.child.value;
      assert child in table' && child !in now;
    }
  }

  lemma SeriesGrows(alarms: Alarms, from: nat, mid: nat, to: nat, table: map<Pid, ExecData>,
                    now: map<Pid, ExecData>, table': map<Pid, ExecData>, attempts: seq<Attempt>, a: Attempt)
    requires Series(alarms, from, mid, table, now, attempts) && Extended(table, now) && Extended(now, table')
    requires a.check == mid && Until(alarms, a) == to && Honest(alarms, a) && LeftRecord(now, table', a) && a.pid in table
    ensures Series(alarms, from, to, table, table', attempts + [a]) && Extended(table, table')
    ensures Unwaited(attempts + [a]) == Unwaited(attempts) + if a.child.Some? && !a.waited then {a.child.value} else {}
  {
    hide Followup;
    var attempts' := attempts + [a];
    assert attempts'[..|attempts|] == attempts;
    forall i | 0 <= i < |attempts'|
      ensures Honest(alarms, attempts'[i]) && LeftRecord(table, table', attempts'[i])
    {
      if i < |attempts| {
        assert attempts'[i] == attempts[i];
        RecordStays(table, now, table', attempts[i]);
      } else {
        RecordOfMore(table, now, table', a);
      }
    }
  }

  lemma {:induction false} UnwaitedConcat(first: seq<Attempt>, second: seq<Attempt>)
    ensures Unwaited(first + second) == Unwaited(first) + Unwaited(second)
  {
    if second == [] {
      assert first + second == first;
    } else {
      assert (first + second)[..|first + second| - 1] == first + second[..|second| - 1];
      UnwaitedConcat(first, second[..|second| - 1]);
    }
  }

  lemma MarkedKeys(table: map<Pid, ExecData>, marked: map<Pid, ExecData>, stage: Stage, tests: seq<Pid>, reaped: seq<Pid>)
    requires Collected(table, marked, stage, tests, reaped)
    ensures marked.Keys == table.Keys && (forall p :: p in table ==> p in marked)
    ensures forall p :: p in tests ==> p in marked && marked[p].TestData? && marked[p].exit.Some?
    ensures forall p :: p in tests ==> p in table && table[p].TestData?
  {
  }

  lemma AttemptedTests(table: map<Pid, ExecData>, stage: Stage, tests: seq<Pid>, attempts: seq<Attempt>)
    requires |attempts| == |tests| && forall k :: 0 <= k < |tests| ==> Attempted(table, attempts[k], stage, tests[k])
    ensures forall k :: 0 <= k < |attempts| ==> attempts[k].pid in tests
  {
    forall k | 0 <= k < |attempts|
      ensures attempts[k].pid in tests
    {
      assert attempts[k].pid == tests[k];
    }
  }

  /** Marking tests in the table leaves what a record says of its test. */
  lemma MarkedBefore(table: map<Pid, ExecData>, marked: map<Pid, ExecData>, table': map<Pid, ExecData>,
                     stage: Stage, tests: seq<Pid>, reaped: seq<Pid>, a: Attempt)
    requires Collected(table, marked, stage, tests, reaped) && LeftRecord(marked, table', a)
    ensures LeftRecord(table, table', a)
  {
    if a.child.Some? {
      var child: Pid := a.child.value;
      assert child !in marked && a.pid in marked;
    }
  }

  lemma MarkedAfter(table: map<Pid, ExecData>, now: map<Pid, ExecData>, marked: map<Pid, ExecData>,
                    stage: Stage, tests: seq<Pid>, reaped: seq<Pid>, a: Attempt)
    requires Collected(now, marked, stage, tests, reaped) && LeftRecord(table, now, a)
    ensures LeftRecord(table, marked, a)
  {
    if a.child.Some? {
      var child: Pid := a.child.value;
      assert child in now && !now[child].TestData?;
    }
  }

  lemma TestStays(marked: map<Pid, ExecData>, cleaned: map<Pid, ExecData>, p: Pid)
    requires Extended(marked, cleaned) && p in cleaned && cleaned[p].TestData?
    ensures p in marked
  {
  }

  lemma OtherChild(marked: map<Pid, ExecData>, cleaned: map<Pid, ExecData>, marked': map<Pid, ExecData>,
                   table': map<Pid, ExecData>, tests: seq<Pid>, reaped: seq<Pid>, a: Attempt, b: Attempt)
    requires Collected(cleaned, marked', ExecenvStage, tests, reaped) && a.child.Some?
    requires LeftRecord(marked, cleaned, a) && LeftRecord(marked', table', b)
    ensures a.child != b.child
  {
    var child: Pid := a.child.value;
    assert child in cleaned;
  }

  /** Two series, the second over a table in which some test records were marked. */
  lemma SeriesConcat(alarms: Alarms, from: nat, mid: nat, to: nat, table: map<Pid, ExecData>, marked: map<Pid, ExecData>,
                     cleaned: map<Pid, ExecData>, marked': map<Pid, ExecData>, table': map<Pid, ExecData>,
                     tests: seq<Pid>, tests': seq<Pid>, reaped: seq<Pid>, reaped': seq<Pid>,
                     first: seq<Attempt>, second: seq<Attempt>)
    requires Collected(table, marked, CleanupStage, tests, reaped) && Extended(marked, cleaned)
    requires Collected(cleaned, marked', ExecenvStage, tests', reaped') && Extended(marked', table')
    requires Series(alarms, from, mid, marked, cleaned, first) && Series(alarms, mid, to, marked', table', second)
    requires forall i :: 0 <= i < |second| ==> second[i].pid in tests'
    ensures Series(alarms, from, to, table, table', first + second)
  {
    hide Collected, Extended, LeftRecord, Honest, Until;
    forall i | 0 <= i < |first|
      ensures LeftRecord(table, table', first[i])
    {
      MarkedBefore(table, marked, cleaned, CleanupStage, tests, reaped, first[i]);
      MarkedAfter(table, cleaned, marked', ExecenvStage, tests', reaped', first[i]);
      RecordStays(table, marked', table', first[i]);
    }
    forall i | 0 <= i < |second|
      ensures LeftRecord(table, table', second[i])
    {
      MarkedBefore(cleaned, marked', table', ExecenvStage, tests', reaped', second[i]);
      MarkedKeys(table, marked, CleanupStage, tests, reaped);
      MarkedKeys(cleaned, marked', ExecenvStage, tests', reaped');
      TestStays(marked, cleaned, second[i].pid);
      RecordOfMore(marked, cleaned, table', second[i]);
      MarkedBefore(table, marked, table', CleanupStage, tests, reaped, second[i]);
    }
    forall i, j | 0 <= i < |first| && 0 <= j < |second| && first[i].child.Some?
      ensures first[i].child != second[j].child
    {
      OtherChild(marked, cleaned, marked', table', tests', reaped', first[i], second[j]);
    }
  }

  ghost predicate Ascends(pids: seq<Pid>) {
    forall i, j :: 0 <= i < j < |pids| ==> pids[i] < pids[j]
  }

  /** What a test record looks like once its test has been collected for a stage. */
  predicate CollectedRecord(d: ExecData, d': ExecData, stage: Stage)
    requires d.TestData?
  {
    && d'.TestData?
    && d' == (if stage.CleanupStage? then d.(needsCleanup := false) else d.(needsExecenv := false)).(exit := d'.exit)
    && d'.exit.Some?
    && (d.exit.Some? ==> d'.exit == d.exit)
    && (d.exit.None? ==> d'.exit.value.pid == d.pid && d'.exit.value.status == None)
  }

  /** `tests` are the tests of `table` outside `todo` that need the stage, in key order;
      `reaped` are those among them that had no exit handle; `table'` has them all marked. */
  ghost predicate CollectedExcept(table: map<Pid, ExecData>, table': map<Pid, ExecData>, stage: Stage,
                            tests: seq<Pid>, reaped: seq<Pid>, todo: set<Pid>)
  {
    && table'.Keys == table.Keys
    && Ascends(tests) && Ascends(reaped)
    && (forall p :: p in tests <==> p !in todo && Needs(table, stage, p))
    && (forall p :: p in reaped <==> p in tests && table[p].exit.None?)
    && (forall p :: p in table ==>
          if p in tests then CollectedRecord(table[p], table'[p], stage) else table'[p] == table[p])
  }

  ghost predicate Collected(table: map<Pid, ExecData>, table': map<Pid, ExecData>, stage: Stage,
                      tests: seq<Pid>, reaped: seq<Pid>)
  {
    CollectedExcept(table, table', stage, tests, reaped, {})
  }

  /** The attempt was made for that stage and test, with the exit handle of the test. */
  predicate Attempted(table: map<Pid, ExecData>, a: Attempt, stage: Stage, p: Pid) {
    && a.stage == stage && a.pid == p
    && p in table && table[p].TestData? && table[p].exit == Some(a.handle)
  }

  /** The handle is the one the body left, or a reaped one for a body nobody waited for. */
  predicate HandleFits(table: map<Pid, ExecData>, a: Attempt) {
    && a.pid in table && table[a.pid].TestData? && a.handle.pid == a.pid
    && (table[a.pid].exit.Some? ==> a.handle == table[a.pid].exit.value)
    && (table[a.pid].exit.None? ==> a.handle.status == None)
  }

  /** What the destructor owes to the tests of `table`: one attempt for every cleanup routine
      that is still needed, then one for every execenv cleanup that is, each with a fitting
      exit handle; and it reaps exactly the bodies nobody waited for, once each. */
  ghost predicate Farewell(table: map<Pid, ExecData>, attempts: seq<Attempt>, reaped: seq<Pid>) {
    && (forall i :: 0 <= i < |attempts| ==>
          Needs(table, attempts[i].stage, attempts[i].pid) && HandleFits(table, attempts[i]))
    && (forall stage, p :: Needs(table, stage, p) ==>
          exists i :: 0 <= i < |attempts| && attempts[i].stage == stage && attempts[i].pid == p)
    && (forall i, j :: 0 <= i < j < |attempts| ==>
          if attempts[i].stage == attempts[j].stage then attempts[i].pid < attempts[j].pid
          else attempts[i].stage == CleanupStage)
    && (forall i, j :: 0 <= i < |attempts| && 0 <= j < |attempts| && attempts[i].pid == attempts[j].pid ==>
          attempts[i].handle == attempts[j].handle)
    && (forall i, j :: 0 <= i < j < |reaped| ==> reaped[i] != reaped[j])
    && (forall p :: p in reaped <==>
          (Needs(table, CleanupStage, p) || Needs(table, ExecenvStage, p)) && table[p].exit.None?)
  }

  lemma AscendsSnoc(pids: seq<Pid>, p: Pid)
    requires Ascends(pids) && forall q :: q in pids ==> q < p
    ensures Ascends(pids + [p])
    ensures forall q :: q in pids + [p] <==> q in pids || q == p
  {
    assert forall i :: 0 <= i < |pids| ==> pids[i] in pids;
  }

  lemma CollectStep(table: map<Pid, ExecData>, table': map<Pid, ExecData>, stage: Stage,
                    tests: seq<Pid>, reaped: seq<Pid>, todo: set<Pid>, p: Pid, d: ExecData)
    requires CollectedExcept(table, table', stage, tests, reaped, todo)
    requires p in todo && todo <= table.Keys && (forall q :: q in table && q !in todo ==> q < p)
    requires Needs(table, stage, p) && CollectedRecord(table[p], d, stage)
    ensures CollectedExcept(table, table'[p := d], stage, tests + [p],
                            if table[p].exit.None? then reaped + [p] else reaped, todo - {p})
  {
    AscendsSnoc(tests, p);
    AscendsSnoc(reaped, p);
  }

  /** Cleaning up leaves the needs for the other stage as they were, and everything that was
      marked has a handle. */
  lemma NeedsCarried(table: map<Pid, ExecData>, marked: map<Pid, ExecData>, cleaned: map<Pid, ExecData>,
                     tests: seq<Pid>, reaped: seq<Pid>, p: Pid)
    requires Collected(table, marked, CleanupStage, tests, reaped)
    requires Extended(marked, cleaned)
    ensures Needs(cleaned, ExecenvStage, p) <==> Needs(table, ExecenvStage, p)
    ensures Needs(table, ExecenvStage, p) ==>
              (cleaned[p].exit.None? <==> table[p].exit.None? && p !in tests)
  {
  }

  lemma FarewellHolds(table: map<Pid, ExecData>, marked: map<Pid, ExecData>, cleaned: map<Pid, ExecData>,
                      marked': map<Pid, ExecData>, tests: seq<Pid>, tests': seq<Pid>,
                      reaped: seq<Pid>, reaped': seq<Pid>, first: seq<Attempt>, second: seq<Attempt>)
    requires forall p :: p in table && table[p].TestData? ==>
               table[p].pid == p && (table[p].exit.Some? ==> table[p].exit.value.pid == p)
    requires Collected(table, marked, CleanupStage, tests, reaped)
    requires Extended(marked, cleaned)
    requires Collected(cleaned, marked', ExecenvStage, tests', reaped')
    requires |first| == |tests| && forall k :: 0 <= k < |first| ==> Attempted(marked, first[k], CleanupStage, tests[k])
    requires |second| == |tests'| && forall k :: 0 <= k < |second| ==> Attempted(marked', second[k], ExecenvStage, tests'[k])
    ensures Farewell(table, first + second, reaped + reaped')
  {
    hide Test.HasCleanup, Test.HasExecenv, Test.IsExclusive;
    var attempts := first + second;
    forall p {
      NeedsCarried(table, marked, cleaned, tests, reaped, p);
    }
    forall i | 0 <= i < |attempts|
      ensures Needs(table, attempts[i].stage, attempts[i].pid) && HandleFits(table, attempts[i])
    {
      if i < |first| {
        assert attempts[i].pid == tests[i] && tests[i] in tests;
      } else {
        assert attempts[i].pid == tests'[i - |first|] && tests'[i - |first|] in tests';
      }
    }
    forall stage, p | Needs(table, stage, p)
      ensures exists i :: 0 <= i < |attempts| && attempts[i].stage == stage && attempts[i].pid == p
    {
      if stage.CleanupStage? {
        var k :| 0 <= k < |tests| && tests[k] == p;
        assert attempts[k] == first[k];
      } else {
        assert p in tests';
        var k :| 0 <= k < |tests'| && tests'[k] == p;
        assert attempts[|first| + k] == second[k];
      }
    }
    assert forall i :: 0 <= i < |reaped| ==> reaped[i] in reaped;
    assert forall i :: 0 <= i < |reaped'| ==> reaped'[i] in reaped';
    forall p
      ensures p in reaped + reaped' <==>
                (Needs(table, CleanupStage, p) || Needs(table, ExecenvStage, p)) && table[p].exit.None?
    {
      assert p in reaped + reaped' <==> p in reaped || p in reaped';
    }
  }

  predicate AttemptAt(attempts: seq<Attempt>, i: nat, stage: Stage, pid: Pid) {
    i < |attempts| && attempts[i].stage == stage && attempts[i].pid == pid
  }

  ghost predicate AttemptMade(attempts: seq<Attempt>, stage: Stage, pid: Pid) {
    exists i :: AttemptAt(attempts, i, stage, pid)
  }

  lemma NeedIsAttempt(table: map<Pid, ExecData>, attempts: seq<Attempt>, reaped: seq<Pid>, stage: Stage, pid: Pid)
    requires Farewell(table, attempts, reaped)
    ensures Needs(table, stage, pid) <==> AttemptMade(attempts, stage, pid)
  {
    if Needs(table, stage, pid) {
      var i :| 0 <= i < |attempts| && attempts[i].stage == stage && attempts[i].pid == pid;
      assert AttemptAt(attempts, i, stage, pid);
    }
  }

  /** The follow-up of that test was spawned, left its record, and was waited for. */
  predicate RanAt(table': map<Pid, ExecData>, attempts: seq<Attempt>, i: nat, stage: Stage, pid: Pid, test: Test) {
    && AttemptAt(attempts, i, stage, pid) && attempts[i].waited && attempts[i].child.Some?
    && attempts[i].child.value in table'
    && table'[attempts[i].child.value] == Followup(stage, test, attempts[i].handle, DIED)
  }

  ghost predicate FollowupRun(table': map<Pid, ExecData>, attempts: seq<Attempt>, stage: Stage, pid: Pid, test: Test) {
    exists i: nat :: RanAt(table', attempts, i, stage, pid, test)
  }

  /** Without another interrupt, an attempt is a follow-up that was run. */
  lemma QuietAttempts(alarms: Alarms, from: nat, to: nat, table: map<Pid, ExecData>, table': map<Pid, ExecData>,
                      attempts: seq<Attempt>, stage: Stage, pid: Pid)
    requires Series(alarms, from, to, table, table', attempts) && pid in table
    requires forall k: nat :: from <= k < to ==> !alarms(k)
    ensures FollowupRun(table', attempts, stage, pid, table[pid].test) <==> AttemptMade(attempts, stage, pid)
  {
    hide Test.HasCleanup, Test.HasExecenv, Test.IsExclusive;
    if AttemptMade(attempts, stage, pid) {
      var i: nat :| AttemptAt(attempts, i, stage, pid);
      assert LeftRecord(table, table', attempts[i]) && Honest(alarms, attempts[i]);
      assert !alarms(attempts[i].check);
      assert RanAt(table', attempts, i, stage, pid, table[pid].test);
    }
  }

  /** Main theorem on interrupted runs.  After any run, the destructor attempts exactly the
      follow-ups that the story of the test owes, each once, every cleanup routine before
      every cleanup of an execution environment.  Unless another interrupt is seen meanwhile,
      every owed follow-up is spawned, for the test of that story, and waited for. */
  lemma FarewellPaysDebts(run: seq<Action>, attempts: seq<Attempt>, reaped: seq<Pid>, pid: Pid,
                          alarms: Alarms, from: nat, to: nat, table': map<Pid, ExecData>)
    returns (lives: seq<Life>, ch: Chapter)
    requires ValidRun(run) && Farewell(Execute(run).table, attempts, reaped)
    requires Series(alarms, from, to, Execute(run).table, table', attempts)
    requires pid in Execute(run).table && Execute(run).table[pid].TestData?
    ensures Project(Execute(run).log, pid) == Stories(pid, lives) + Beginning(pid, ch)
    ensures AttemptMade(attempts, CleanupStage, pid) <==> OwesCleanup(Beginning(pid, ch))
    ensures AttemptMade(attempts, ExecenvStage, pid) <==> OwesExecenv(Beginning(pid, ch))
    ensures forall i, j, stage :: AttemptAt(attempts, i, stage, pid) && AttemptAt(attempts, j, stage, pid) ==> i == j
    ensures forall i, j, other ::
      AttemptAt(attempts, i, CleanupStage, pid) && AttemptAt(attempts, j, ExecenvStage, other) ==> i < j
    ensures (forall k: nat :: from <= k < to ==> !alarms(k)) ==>
      var test := Execute(run).table[pid].test;
      && (FollowupRun(table', attempts, CleanupStage, pid, test) <==> OwesCleanup(Beginning(pid, ch)))
      && (FollowupRun(table', attempts, ExecenvStage, pid, test) <==> OwesExecenv(Beginning(pid, ch)))
  {
    hide Apply, Beginning, Stories, OwesCleanup, OwesExecenv, Series, FollowupRun;
    var table := Execute(run).table;
    lives, ch := DestructorOwes(run, pid);
    NeedIsAttempt(table, attempts, reaped, CleanupStage, pid);
    NeedIsAttempt(table, attempts, reaped, ExecenvStage, pid);
    if forall k: nat :: from <= k < to ==> !alarms(k) {
      QuietAttempts(alarms, from, to, table, table', attempts, CleanupStage, pid);
      QuietAttempts(alarms, from, to, table, table', attempts, ExecenvStage, pid);
    }
  }

  class Scheduler {
    var allExecData: map<Pid, ExecData>
    var children: set<Pid>
    const alarms: Alarms
    var checks: nat
    ghost var strays: set<Pid>
    ghost var run: seq<Action>
    ghost var peak: nat

    /** The fields are what the run so far makes of them. */
    ghost predicate Consistent()
      reads this`allExecData, this`children, this`run
    {
      ValidRun(run) && allExecData == Execute(run).table && children == Execute(run).children
    }

    ghost predicate Valid()
      reads this`allExecData, this`children, this`run, this`peak
    {
      Consistent() && |children| <= peak
    }

    /** Checks were made since there had been `before` of them, and the last one saw an
        interrupt. */
    predicate Alarmed(before: nat)
      reads this`checks
    {
      before < checks && alarms(checks - 1)
    }

    ghost function State(): State
      requires ValidRun(run)
      reads this`run
    {
      Execute(run)
    }

    constructor (alarms: Alarms)
      ensures Valid() && run == [] && peak == 0
      ensures this.alarms == alarms && checks == 0 && strays == {}
    {
      this.alarms, checks := alarms, 0;
      allExecData, children := map[], {};
      run, peak, strays := [], 0, {};
    }

    /** `signals::check_interrupt`. */
    method CheckInterrupt() returns (fired: bool)
      modifies this`checks
      ensures checks == old(checks) + 1 && fired == alarms(old(checks))
    {
      fired := alarms(checks);
      checks := checks + 1;
    }

    /** The check of the scheduler and, if that passes, the one of the executor. */
    method CheckBoth() returns (fired: bool)
      modifies this`checks
      ensures fired <==> alarms(old(checks)) || alarms(old(checks) + 1)
      ensures checks == old(checks) + if alarms(old(checks)) then 1 else 2
    {
      fired := CheckInterrupt();
      if !fired {
        fired := CheckInterrupt();
      }
    }

    /** The executor forks: the child gets a process id the table does not hold. */
    method Fork() returns (pid: Pid)
      modifies this`children, this`peak
      ensures pid !in allExecData
      ensures children == old(children) + {pid}
      ensures peak == Max(old(peak), |children|)
    {
      ghost var bound := UpperBound(allExecData.Keys);
      assert bound !in allExecData;
      pid :| pid !in allExecData;
      children := children + {pid};
      peak := Max(peak, |children|);
    }

    /** Forks a body and looks up its test case for the record of it.  An interrupt seen in
        between leaves a child that is in no table: a stray. */
    method ForkBody() returns (pid: Option<Pid>)
      requires children <= allExecData.Keys
      modifies this`children, this`peak, this`checks, this`strays
      ensures checks == old(checks) + 1 && (pid.None? <==> alarms(old(checks)))
      ensures peak == Max(old(peak), |old(children)| + 1)
      ensures pid.Some? ==>
        pid.value !in allExecData && children == old(children) + {pid.value} && strays == old(strays)
      ensures pid.None? ==>
        children == old(children) && exists p :: p !in allExecData && strays == old(strays) + {p}
    {
      var p := Fork();
      var fired := CheckInterrupt();
      if fired {
        children, strays := children - {p}, strays + {p};
        return None;
      }
      return Some(p);
    }

    /** Checks at the start, when the test case is looked up, in the executor, and when the
        record of the child is made.  A stray is left exactly if that last one sees an
        interrupt. */
    method SpawnTest(test: Test) returns (pid: Option<Pid>)
      requires Valid()
      modifies this
      ensures Valid()
      ensures old(checks) < checks <= old(checks) + 4 && (pid.None? <==> Alarmed(old(checks)))
      ensures pid.None? ==> run == old(run) && old(peak) <= peak <= Max(old(peak), |children| + 1)
      ensures pid.Some? ==>
        && Enabled(old(State()), Spawn(pid.value, test)) && run == old(run) + [Spawn(pid.value, test)]
        && peak == Max(old(peak), |children|)
      ensures pid.Some? || checks < old(checks) + 4 ==> strays == old(strays)
      ensures pid.None? && checks == old(checks) + 4 ==> exists p :: p !in allExecData && strays == old(strays) + {p}
    {
      hide Test.HasCleanup, Test.HasExecenv, Test.IsExclusive, Execute, ValidRun;
      var fired := CheckInterrupt();
      if !fired {
        fired := CheckBoth();
      }
      if fired {
        return None;
      }
      ChildrenTracked(run);
      pid := ForkBody();
      if pid.Some? {
        allExecData :=
          allExecData[pid.value := TestData(test, test.HasCleanup(), test.HasExecenv(), pid.value, None)];
        ExecuteStep(run, Spawn(pid.value, test));
        run := run + [Spawn(pid.value, test)];
      }
    }

    method SpawnCleanup(test: Test, body: ExitHandle, verdict: TestResult) returns (pid: Option<Pid>)
      modifies this`allExecData, this`children, this`peak, this`checks
      ensures pid.None? <==> alarms(old(checks)) || alarms(old(checks) + 1)
      ensures checks == old(checks) + if alarms(old(checks)) then 1 else 2
      ensures pid.None? ==> allExecData == old(allExecData) && children == old(children) && peak == old(peak)
      ensures pid.Some? ==>
        && pid.value !in old(allExecData)
        && allExecData == old(allExecData)[pid.value := CleanupData(test, body, verdict)]
        && children == old(children) + {pid.value}
        && peak == Max(old(peak), |children|)
    {
      var fired := CheckBoth();
      if fired {
        return None;
      }
      var p := Fork();
      allExecData := allExecData[p := CleanupData(test, body, verdict)];
      return Some(p);
    }

    method SpawnExecenv(test: Test, body: ExitHandle, verdict: TestResult) returns (pid: Option<Pid>)
      modifies this`allExecData, this`children, this`peak, this`checks
      ensures pid.None? <==> alarms(old(checks)) || alarms(old(checks) + 1)
      ensures checks == old(checks) + if alarms(old(checks)) then 1 else 2
      ensures pid.None? ==> allExecData == old(allExecData) && children == old(children) && peak == old(peak)
      ensures pid.Some? ==>
        && pid.value !in old(allExecData)
        && allExecData == old(allExecData)[pid.value := ExecenvData(test, body, verdict)]
        && children == old(children) + {pid.value}
        && peak == Max(old(peak), |children|)
    {
      var fired := CheckBoth();
      if fired {
        return None;
      }
      var p := Fork();
      allExecData := allExecData[p := ExecenvData(test, body, verdict)];
      return Some(p);
    }

    /** The verdict of a body, and its record with the follow-ups dropped if the requirements
        check asked for a skip. */
    method BodyResult(data: ExecData, handle: ExitHandle, report: BodyReport)
      returns (result: TestResult, d: ExecData)
      requires data.TestData?
      ensures result == BodyVerdict(data.test, handle, report)
      ensures d == if SkipObserved(data.test, handle, report) then data.(needsCleanup := false, needsExecenv := false)
                   else data
    {
      d := data;
      if data.test.case_.fake.Some? {
        result := data.test.case_.fake.value;
      } else if handle.status == Some(Exited(EXIT_SKIPPED)) && report.cookie.Some? {
        result := TestResult(Skipped, report.cookie.value);
        d := data.(needsCleanup := false, needsExecenv := false);
      } else {
        result := report.computed;
      }
    }

    /** An interrupt fires while the test case of a body that ended is looked up. */
    method BodyMissed(handle: ExitHandle, report: BodyReport) returns (ghost a: Action)
      requires Valid() && handle.pid in children && handle.pid in allExecData && allExecData[handle.pid].TestData?
      modifies this`allExecData, this`children, this`run
      ensures Valid() && Enabled(old(State()), a) && a == Exit(handle, false, report, None)
      ensures run == old(run) + [a] && Outcome(old(State()), a) == Cut
    {
      hide Test.HasCleanup, Test.HasExecenv, Test.IsExclusive, Execute, ValidRun;
      children := children - {handle.pid};
      allExecData := allExecData[handle.pid := allExecData[handle.pid].(exit := Some(handle))];
      a := Exit(handle, false, report, None);
      ExecuteStep(run, a);
      run := run + [a];
    }

    method BodyFound(handle: ExitHandle, report: BodyReport) returns (p: Progress, ghost a: Action)
      requires Valid() && handle.pid in children && handle.pid in allExecData && allExecData[handle.pid].TestData?
      modifies this`allExecData, this`children, this`run, this`peak, this`checks
      ensures Valid() && a.Exit? && Enabled(old(State()), a) && peak == old(peak)
      ensures p.Chained? ==> children != {}
      ensures run == old(run) + [a] && a == Exit(handle, true, report, a.next) && p == Outcome(old(State()), a)
      ensures old(checks) <= checks && (p.Cut? <==> Alarmed(old(checks)))
    {
      hide Test.HasCleanup, Test.HasExecenv, Test.IsExclusive, Execute, ValidRun;
      children := children - {handle.pid};
      var result, d := BodyResult(allExecData[handle.pid].(exit := Some(handle)), handle, report);
      allExecData := allExecData[handle.pid := d];
      var next: Option<Pid> := None;
      p := Over(handle, result);
      if d.needsCleanup {
        next := SpawnCleanup(d.test, handle, result);
        p := if next.Some? then Chained else Cut;
      } else if d.needsExecenv {
        next := SpawnExecenv(d.test, handle, result);
        p := if next.Some? then Chained else Cut;
        if next.Some? {
          allExecData := allExecData[handle.pid := d.(needsExecenv := false)];
        }
      }
      a := Exit(handle, true, report, next);
      ExecuteStep(run, a);
      run := run + [a];
    }

    /** The first block of `wait_any`: a body ended.  Its record gets the exit handle in any
        case. */
    method BodyEnds(handle: ExitHandle, report: BodyReport) returns (p: Progress, ghost a: Action)
      requires Valid() && handle.pid in children && handle.pid in allExecData && allExecData[handle.pid].TestData?
      modifies this`allExecData, this`children, this`run, this`peak, this`checks
      ensures Valid() && a.Exit? && Enabled(old(State()), a) && peak == old(peak)
      ensures p.Chained? ==> children != {}
      ensures a.handle == handle && a.report == report && run == old(run) + [a] && p == Outcome(old(State()), a)
      ensures a.found <==> !alarms(old(checks))
      ensures old(checks) < checks && (p.Cut? <==> Alarmed(old(checks)))
    {
      hide Apply, Enabled, Execute, ValidRun, Outcome;
      var fired := CheckInterrupt();
      if fired {
        a := BodyMissed(handle, report);
        p := Cut;
      } else {
        p, a := BodyFound(handle, report);
      }
    }

    /** The verdict after a follow-up: good exactly if the body was good and the follow-up
        succeeded; it differs from the body's only by being broken, with the reason of the
        stage. */
    method FollowupResult(stage: Stage, body: TestResult, status: Option<ExitStatus>) returns (result: TestResult)
      ensures result.Good() <==> body.Good() && Succeeded(status)
      ensures !body.Good() || Succeeded(status) ==> result == body
      ensures result != body ==>
        result.kind == Broken && result.reason == (if status.None? then TimedOut(stage) else NotSuccessful(stage))
    {
      result := body;
      if body.Good() {
        if status.None? {
          result := TestResult(Broken, TimedOut(stage));
        } else if !status.value.Exited? || status.value.code != EXIT_SUCCESS {
          result := TestResult(Broken, NotSuccessful(stage));
        }
      }
    }

    /** An interrupt fires while the test case of a cleanup routine that ended is looked up. */
    method CleanupMissed(handle: ExitHandle) returns (ghost a: Action)
      requires Valid() && handle.pid in children && handle.pid in allExecData && allExecData[handle.pid].CleanupData?
      modifies this`allExecData, this`children, this`run
      ensures Valid() && a.Exit? && !a.found && a.handle == handle && Enabled(old(State()), a)
      ensures run == old(run) + [a] && Outcome(old(State()), a) == Cut
    {
      hide Test.HasCleanup, Test.HasExecenv, Test.IsExclusive, Execute, ValidRun;
      LookupsNeverFail(run, handle.pid);
      children := children - {handle.pid};
      allExecData := allExecData - {handle.pid};
      a := Exit(handle, false, BodyReport(None, DIED), None);
      ExecuteStep(run, a);
      run := run + [a];
    }

    method CleanupFound(handle: ExitHandle) returns (p: Progress, ghost a: Action)
      requires Valid() && handle.pid in children && handle.pid in allExecData && allExecData[handle.pid].CleanupData?
      modifies this`allExecData, this`children, this`run, this`peak, this`checks
      ensures Valid() && a.Exit? && a.found && a.handle == handle && Enabled(old(State()), a) && peak == old(peak)
      ensures p.Chained? ==> children != {}
      ensures run == old(run) + [a] && p == Outcome(old(State()), a)
      ensures old(checks) <= checks && (p.Cut? <==> Alarmed(old(checks)))
    {
      hide Test.HasCleanup, Test.HasExecenv, Test.IsExclusive, Execute, ValidRun;
      LookupsNeverFail(run, handle.pid);
      children := children - {handle.pid};
      var data := allExecData[handle.pid];
      var result := FollowupResult(CleanupStage, data.verdict, handle.status);
      allExecData := allExecData - {handle.pid};
      var body := data.body;
      var next: Option<Pid> := None;
      p := Over(body, result);
      if body.pid in allExecData {
        var d := allExecData[body.pid].(needsCleanup := false);
        allExecData := allExecData[body.pid := d];
        if d.needsExecenv {
          next := SpawnExecenv(data.test, body, result);
          p := if next.Some? then Chained else Cut;
          if next.Some? {
            allExecData := allExecData[body.pid := d.(needsExecenv := false)];
          }
        }
      }
      a := Exit(handle, true, BodyReport(None, result), next);
      ExecuteStep(run, a);
      run := run + [a];
    }

    /** The second block: a cleanup routine ended.  Its record is gone in any case. */
    method CleanupEnds(handle: ExitHandle) returns (p: Progress, ghost a: Action)
      requires Valid() && handle.pid in children && handle.pid in allExecData && allExecData[handle.pid].CleanupData?
      modifies this`allExecData, this`children, this`run, this`peak, this`checks
      ensures Valid() && a.Exit? && Enabled(old(State()), a) && peak == old(peak)
      ensures p.Chained? ==> children != {}
      ensures a.handle == handle && run == old(run) + [a] && p == Outcome(old(State()), a)
      ensures a.found <==> !alarms(old(checks))
      ensures old(checks) < checks && (p.Cut? <==> Alarmed(old(checks)))
    {
      hide Apply, Enabled, Execute, ValidRun, Outcome;
      var fired := CheckInterrupt();
      if fired {
        a := CleanupMissed(handle);
        p := Cut;
      } else {
        p, a := CleanupFound(handle);
      }
    }

    /** The third block: the cleanup of an execution environment ended. */
    method ExecenvEnds(handle: ExitHandle) returns (p: Progress, ghost a: Action)
      requires Valid() && handle.pid in children && handle.pid in allExecData && allExecData[handle.pid].ExecenvData?
      modifies this`allExecData, this`children, this`run, this`peak, this`checks
      ensures Valid() && a.Exit? && Enabled(old(State()), a) && peak == old(peak)
      ensures p.Chained? ==> children != {}
      ensures run == old(run) + [a] && a.handle == handle && p == Outcome(old(State()), a)
      ensures old(checks) <= checks && (p.Cut? <==> Alarmed(old(checks)))
    {
      children := children - {handle.pid};
      var data := allExecData[handle.pid];
      var result := FollowupResult(ExecenvStage, data.verdict, handle.status);
      allExecData := allExecData - {handle.pid};
      p := Over(data.body, result);
      a := Exit(handle, true, BodyReport(None, result), None);
      ExecuteStep(run, a);
      run := run + [a];
    }

    /** Some child ended, in some way; dispatch on the kind of its record. */
    method HandleExit() returns (p: Progress, test: Test)
      requires Valid() && children != {}
      modifies this`allExecData, this`children, this`run, this`peak, this`checks
      ensures Valid() && peak == old(peak) && (p.Chained? ==> children != {})
      ensures StepMeaning(old(State()), State(), test, p)
      ensures Remaining(State()) < old(Remaining(State()))
      ensures old(checks) <= checks && (p.Cut? <==> Alarmed(old(checks)))
    {
      ghost var s := State();
      Reachable(run);
      ghost var m := Member(children);
      var child: Pid :| child in children;
      var handle: ExitHandle := *;
      handle := handle.(pid := child);
      var data := allExecData[child];
      test := data.test;
      ghost var a: Action;
      match data {
        case TestData(_, _, _, _, _) =>
          var report: BodyReport := *;
          p, a := BodyEnds(handle, report);
        case CleanupData(_, _, _) => p, a := CleanupEnds(handle);
        case ExecenvData(_, _, _) => p, a := ExecenvEnds(handle);
      }
      ExecuteStep(old(run), a);
      ExitMeaning(s, a);
      ExitProgress(s, a);
    }

    /** Waits for any child, chains follow-ups without telling the caller, and comes back when
        a test is over, or when a check sees an interrupt. */
    method WaitAny() returns (r: WaitResult)
      requires Valid()
      modifies this`allExecData, this`children, this`run, this`peak, this`checks
      ensures Valid()
      ensures peak == old(peak)
      ensures r.NoChild? ==> old(children) == {}
      ensures !r.Interrupted? && old(children) == {} ==> r.NoChild? && run == old(run)
      ensures NothingSpawned(old(State()), State())
      ensures r.Result? ==> DeliveredOne(old(State()), State(), r.handle, r.test, r.verdict)
      ensures r.Result? ==> EndsLife(State().log, r.handle, r.test, r.verdict)
      ensures old(checks) < checks && (r.Interrupted? <==> Alarmed(old(checks)))
      decreases Remaining(Execute(run))
    {
      hide Test.HasCleanup, Test.HasExecenv, Test.IsExclusive, Execute, ValidRun, Apply, Enabled, EndsLife, Remaining;
      var fired := CheckBoth();
      if fired {
        return Interrupted;
      }
      if children == {} {
        return NoChild;
      }
      ghost var s := State();
      Reachable(run);
      var p, test := HandleExit();
      match p {
        case Over(h, v) =>
          DeliveredEndsLife(run, s, h, test, v);
          return Result(h, test, v);
        case Cut => return Interrupted;
        case Chained =>
          ghost var t := State();
          r := WaitAny();
          if r.Result? {
            ChainedThenDelivered(s, t, State(), r.handle, r.test, r.verdict);
          }
      }
    }

    /** Runs one test while no other child is alive; what comes back is that test, under the
        process id it was spawned with. */
    method DebugTest(test: Test) returns (r: WaitResult)
      requires Valid() && children == {}
      modifies this
      ensures Valid() && !r.NoChild? && (r.Interrupted? <==> Alarmed(old(checks)))
      ensures r.Result? ==>
        && r.test == test && r.handle.pid !in old(State()).table
        && old(State()).log + [Spawned(r.handle.pid, test)] < State().log
        && State().log[|State().log| - 1] == Delivered(r.handle.pid, r.handle, test, r.verdict)
    {
      hide Apply, Enabled, Execute, ValidRun, DeliveredOne, InProgress, NothingSpawned, EndsLife;
      var fired := CheckInterrupt();
      if fired {
        return Interrupted;
      }
      ghost var s := State();
      var pid := SpawnTest(test);
      if pid.None? {
        return Interrupted;
      }
      NothingElse(old(run), s, pid.value, test);
      ghost var t := State();
      r := WaitAny();
      if r.Result? {
        OnlyDelivery(s, t, State(), pid.value, test, r.handle, r.test, r.verdict);
      }
    }

    /** Loads the test cases of a program in a child that is waited for synchronously.  An
        interrupt seen by the executor while it spawns that child or waits for it only makes
        the list a failed one; the checks before and after stop the caller. */
    method ListTests() returns (done: bool)
      requires |children| <= peak
      modifies this`peak, this`checks
      ensures old(checks) < checks && (!done <==> Alarmed(old(checks)))
      ensures done ==> peak == if alarms(old(checks) + 2) then old(peak) else Max(old(peak), |children| + 1)
      ensures !done ==> peak == old(peak) || peak == Max(old(peak), |children| + 1)
    {
      var fired := CheckBoth();
      if fired {
        return false;
      }
      var failed := CheckInterrupt();
      if !failed {
        peak := Max(peak, |children| + 1);
        failed := CheckInterrupt();
      }
      fired := CheckInterrupt();
      done := !fired;
    }

    /** The destructor of a result handle: the test leaves the table. */
    method Release(pid: Pid)
      requires Valid() && pid in State().handedOut
      modifies this`allExecData, this`run
      ensures Valid() && run == old(run) + [SchedulerModel.Release(pid)]
    {
      Reachable(run);
      allExecData := allExecData - {pid};
      ExecuteStep(run, SchedulerModel.Release(pid));
      run := run + [SchedulerModel.Release(pid)];
    }

    // ---------- Abrupt termination ----------

    /** `executor::reap`: forms an exit handle for a child nobody waited for. */
    method Reap(pid: Pid) returns (handle: ExitHandle)
      ensures handle.pid == pid && handle.status == None
    {
      handle := *;
      handle := handle.(pid := pid, status := None);
    }

    /** Maps are walked in key order. */
    method LeastKey(todo: set<Pid>) returns (p: Pid)
      requires todo != {}
      ensures p in todo && forall q :: q in todo ==> p <= q
    {
      ghost var least := Minimum(todo);
      p :| p in todo && forall q :: q in todo ==> p <= q;
    }

    method TestsNeedingCleanup() returns (tests: seq<Pid>, reaped: seq<Pid>)
      modifies this`allExecData
      ensures Collected(old(allExecData), allExecData, CleanupStage, tests, reaped)
    {
      hide Test.HasCleanup, Test.HasExecenv, Test.IsExclusive;
      tests, reaped := [], [];
      var todo := allExecData.Keys;
      while todo != {}
        invariant todo <= allExecData.Keys
        invariant forall p :: p in todo ==> p in old(allExecData) && allExecData[p] == old(allExecData)[p]
        invariant forall p, q :: p in allExecData && p !in todo && q in todo ==> p < q
        invariant CollectedExcept(old(allExecData), allExecData, CleanupStage, tests, reaped, todo)
      {
        var p := LeastKey(todo);
        todo := todo - {p};
        var d := allExecData[p];
        ghost var before, pids, bodies := allExecData, tests, reaped;
        if d.TestData? && d.needsCleanup {
          tests := tests + [p];
          d := d.(needsCleanup := false);
          if d.exit.None? {
            var handle := Reap(d.pid);
            d := d.(exit := Some(handle));
            reaped := reaped + [p];
          }
          allExecData := allExecData[p := d];
          CollectStep(old(allExecData), before, CleanupStage, pids, bodies, todo + {p}, p, d);
          assert todo + {p} - {p} == todo;
        }
      }
    }

    method TestsNeedingExecenvCleanup() returns (tests: seq<Pid>, reaped: seq<Pid>)
      modifies this`allExecData
      ensures Collected(old(allExecData), allExecData, ExecenvStage, tests, reaped)
    {
      hide Test.HasCleanup, Test.HasExecenv, Test.IsExclusive;
      tests, reaped := [], [];
      var todo := allExecData.Keys;
      while todo != {}
        invariant todo <= allExecData.Keys
        invariant forall p :: p in todo ==> p in old(allExecData) && allExecData[p] == old(allExecData)[p]
        invariant forall p, q :: p in allExecData && p !in todo && q in todo ==> p < q
        invariant CollectedExcept(old(allExecData), allExecData, ExecenvStage, tests, reaped, todo)
      {
        var p := LeastKey(todo);
        todo := todo - {p};
        var d := allExecData[p];
        ghost var before, pids, bodies := allExecData, tests, reaped;
        if d.TestData? && d.needsExecenv {
          tests := tests + [p];
          d := d.(needsExecenv := false);
          if d.exit.None? {
            var handle := Reap(d.pid);
            d := d.(exit := Some(handle));
            reaped := reaped + [p];
          }
          allExecData := allExecData[p := d];
          CollectStep(old(allExecData), before, ExecenvStage, pids, bodies, todo + {p}, p, d);
          assert todo + {p} - {p} == todo;
        }
      }
    }

    /** What `executor::wait` does for a follow-up that was just spawned. */
    method Wait(child: Pid) returns (waited: bool)
      modifies this`children, this`checks
      ensures checks == old(checks) + 1 && waited == !alarms(old(checks))
      ensures children == if waited then old(children) - {child} else old(children)
    {
      var fired := CheckInterrupt();
      waited := !fired;
      if waited {
        children := children - {child};
      }
    }

    /** Runs one cleanup routine and waits for it; another interrupt makes the attempt fail. */
    method SyncCleanup(pid: Pid) returns (attempt: Attempt)
      requires pid in allExecData && allExecData[pid].TestData? && allExecData[pid].exit.Some?
      requires children <= allExecData.Keys
      modifies this`allExecData, this`children, this`peak, this`checks
      ensures Attempted(old(allExecData), attempt, CleanupStage, pid)
      ensures attempt.check == old(checks) && checks == Until(alarms, attempt) && Honest(alarms, attempt)
      ensures LeftRecord(old(allExecData), allExecData, attempt) && Extended(old(allExecData), allExecData)
      ensures children == old(children) + Unwaited([attempt]) && children <= allExecData.Keys
    {
      var d, check := allExecData[pid], checks;
      var child := SpawnCleanup(d.test, d.exit.value, TestResult(Broken, "Test case died abruptly"));
      var waited := false;
      if child.Some? {
        waited := Wait(child.value);
      }
      return Attempt(CleanupStage, pid, d.exit.value, child, waited, check);
    }

    method SyncExecenvCleanup(pid: Pid) returns (attempt: Attempt)
      requires pid in allExecData && allExecData[pid].TestData? && allExecData[pid].exit.Some?
      requires children <= allExecData.Keys
      modifies this`allExecData, this`children, this`peak, this`checks
      ensures Attempted(old(allExecData), attempt, ExecenvStage, pid)
      ensures attempt.check == old(checks) && checks == Until(alarms, attempt) && Honest(alarms, attempt)
      ensures LeftRecord(old(allExecData), allExecData, attempt) && Extended(old(allExecData), allExecData)
      ensures children == old(children) + Unwaited([attempt]) && children <= allExecData.Keys
    {
      var d, check := allExecData[pid], checks;
      var child := SpawnExecenv(d.test, d.exit.value, TestResult(Broken, "Test case died abruptly"));
      var waited := false;
      if child.Some? {
        waited := Wait(child.value);
      }
      return Attempt(ExecenvStage, pid, d.exit.value, child, waited, check);
    }

    method RunCleanups(tests: seq<Pid>) returns (attempts: seq<Attempt>)
      requires forall p :: p in tests ==> p in allExecData && allExecData[p].TestData? && allExecData[p].exit.Some?
      requires children <= allExecData.Keys
      modifies this`allExecData, this`children, this`peak, this`checks
      ensures |attempts| == |tests|
      ensures forall k :: 0 <= k < |tests| ==> Attempted(old(allExecData), attempts[k], CleanupStage, tests[k])
      ensures Series(alarms, old(checks), checks, old(allExecData), allExecData, attempts)
      ensures Extended(old(allExecData), allExecData)
      ensures children == old(children) + Unwaited(attempts) && children <= allExecData.Keys
    {
      attempts := [];
      for i := 0 to |tests|
        invariant |attempts| == i
        invariant forall k :: 0 <= k < i ==> Attempted(old(allExecData), attempts[k], CleanupStage, tests[k])
        invariant Series(alarms, old(checks), checks, old(allExecData), allExecData, attempts)
        invariant Extended(old(allExecData), allExecData)
        invariant children == old(children) + Unwaited(attempts) && children <= allExecData.Keys
      {
        ghost var now, mid := allExecData, checks;
        var attempt := SyncCleanup(tests[i]);
        SeriesGrows(alarms, old(checks), mid, checks, old(allExecData), now, allExecData, attempts, attempt);
        attempts := attempts + [attempt];
      }
    }

    method RunExecenvCleanups(tests: seq<Pid>) returns (attempts: seq<Attempt>)
      requires forall p :: p in tests ==> p in allExecData && allExecData[p].TestData? && allExecData[p].exit.Some?
      requires children <= allExecData.Keys
      modifies this`allExecData, this`children, this`peak, this`checks
      ensures |attempts| == |tests|
      ensures forall k :: 0 <= k < |tests| ==> Attempted(old(allExecData), attempts[k], ExecenvStage, tests[k])
      ensures Series(alarms, old(checks), checks, old(allExecData), allExecData, attempts)
      ensures Extended(old(allExecData), allExecData)
      ensures children == old(children) + Unwaited(attempts) && children <= allExecData.Keys
    {
      attempts := [];
      for i := 0 to |tests|
        invariant |attempts| == i
        invariant forall k :: 0 <= k < i ==> Attempted(old(allExecData), attempts[k], ExecenvStage, tests[k])
        invariant Series(alarms, old(checks), checks, old(allExecData), allExecData, attempts)
        invariant Extended(old(allExecData), allExecData)
        invariant children == old(children) + Unwaited(attempts) && children <= allExecData.Keys
      {
        ghost var now, mid := allExecData, checks;
        var attempt := SyncExecenvCleanup(tests[i]);
        SeriesGrows(alarms, old(checks), mid, checks, old(allExecData), now, allExecData, attempts, attempt);
        attempts := attempts + [attempt];
      }
    }

    /** The destructor: first every missing cleanup routine, then every missing cleanup of an
        execution environment.  Each is spawned and waited for unless another interrupt is seen
        right then. */
    method Destroy() returns (attempts: seq<Attempt>, reaped: seq<Pid>)
      requires Valid()
      modifies this`allExecData, this`children, this`peak, this`checks
      ensures Farewell(old(allExecData), attempts, reaped)
      ensures Series(alarms, old(checks), checks, old(allExecData), allExecData, attempts)
      ensures children == old(children) + Unwaited(attempts)
    {
      hide Collected, Series, Extended, Farewell, Attempted, Unwaited, Execute;
      ghost var table, from := allExecData, checks;
      assert children <= table.Keys && forall p :: p in table && table[p].TestData? ==>
          table[p].pid == p && (table[p].exit.Some? ==> table[p].exit.value.pid == p) by {
        Reachable(run);
        assert Bodies(Execute(run)) && Bookkeeping(Execute(run));
      }
      var tests, bodies := TestsNeedingCleanup();
      ghost var marked := allExecData;
      MarkedKeys(table, marked, CleanupStage, tests, bodies);
      var first := RunCleanups(tests);
      ghost var cleaned, mid := allExecData, checks;
      var tests', bodies' := TestsNeedingExecenvCleanup();
      ghost var marked' := allExecData;
      MarkedKeys(cleaned, marked', ExecenvStage, tests', bodies');
      var second := RunExecenvCleanups(tests');
      attempts, reaped := first + second, bodies + bodies';
      FarewellHolds(table, marked, cleaned, marked', tests, tests', bodies, bodies', first, second);
      AttemptedTests(marked', ExecenvStage, tests', second);
      SeriesConcat(alarms, from, mid, checks, table, marked, cleaned, marked', allExecData,
                   tests, tests', bodies, bodies', first, second);
      UnwaitedConcat(first, second);
    }
  }
}
