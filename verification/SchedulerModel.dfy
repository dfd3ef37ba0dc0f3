/** The scheduler as a step system (engine/scheduler.cpp).

    A test runs as a chain of up to three children: its body, its cleanup routine and the
    cleanup of its execution environment.  One table keyed by process id holds a record for
    every link.  The environment chooses which child ends, how, which process id the next
    child gets, and whether an interrupt fires where the ended test is looked up or where the
    next child would be spawned. */
module SchedulerModel {
  import opened Results
  import opened TestModel

  type Pid = int

  /** `executor::exit_handle`: what remains of a child that ended. */
  datatype ExitHandle = ExitHandle(
    pid: Pid, status: Option<ExitStatus>, startTime: nat, endTime: nat, stdout: string, stderr: string)

  /** What there is to judge the end of a body by besides its status: the content of the skip
      cookie if it left one, and the verdict that the test interface computes. */
  datatype BodyReport = BodyReport(cookie: Option<string>, computed: TestResult)

  datatype ExecData =
    | TestData(test: Test, needsCleanup: bool, needsExecenv: bool, pid: Pid, exit: Option<ExitHandle>)
    | CleanupData(test: Test, body: ExitHandle, verdict: TestResult)
    | ExecenvData(test: Test, body: ExitHandle, verdict: TestResult)

  datatype Event =
    | Spawned(pid: Pid, test: Test)
    | BodyEnded(pid: Pid, handle: ExitHandle, report: BodyReport, verdict: TestResult, skipped: bool)
    | CleanupSpawned(pid: Pid, child: Pid)
    | CleanupEnded(pid: Pid, status: Option<ExitStatus>)
    | ExecenvSpawned(pid: Pid, child: Pid)
    | ExecenvEnded(pid: Pid, status: Option<ExitStatus>)
    | Overlooked(pid: Pid, child: Pid)
    | Delivered(pid: Pid, handle: ExitHandle, test: Test, verdict: TestResult)
    | Abandoned(pid: Pid)
    | Released(pid: Pid)

  /** `children` are the live processes, `handedOut` the tests whose result handle the caller
      holds, `lost` the tests whose chain an interrupt cut, and `log` what happened so far;
      every event carries the process id of the test's body.  `Overlooked` is the end of a
      child that an interrupt kept from being looked at. */
  datatype State = State(
    table: map<Pid, ExecData>, children: set<Pid>, handedOut: set<Pid>, lost: set<Pid>, log: seq<Event>)

  const INITIAL := State(map[], {}, {}, {}, [])

  /** What may happen next.  In `Exit`, `found` is false if an interrupt fires when the test
      case is looked up, and `next` is the process id of the next child, or `None` if an
      interrupt fires before that child is spawned. */
  datatype Action =
    | Spawn(pid: Pid, test: Test)
    | Exit(handle: ExitHandle, found: bool, report: BodyReport, next: Option<Pid>)
    | Release(pid: Pid)

  const EXIT_SKIPPED := 84

  // ---------- Verdicts ----------

  /** The requirements check of the body asked for a skip, and we saw it. */
  predicate SkipObserved(test: Test, handle: ExitHandle, report: BodyReport) {
    test.case_.fake.None? && handle.status == Some(Exited(EXIT_SKIPPED)) && report.cookie.Some?
  }

  function BodyVerdict(test: Test, handle: ExitHandle, report: BodyReport): TestResult {
    if test.case_.fake.Some? then test.case_.fake.value
    else if SkipObserved(test, handle, report) then TestResult(Skipped, report.cookie.value)
    else report.computed
  }

  /** The two kinds of follow-up. */
  datatype Stage = CleanupStage | ExecenvStage

  function TimedOut(stage: Stage): string {
    match stage
    case CleanupStage => "Test case cleanup timed out"
    case ExecenvStage => "Test case execenv cleanup timed out"
  }

  function NotSuccessful(stage: Stage): string {
    match stage
    case CleanupStage => "Test case cleanup did not terminate successfully"
    case ExecenvStage => "Test case execenv cleanup did not terminate successfully"
  }

  /** Folds the end of one follow-up into the verdict so far. */
  function Fold(stage: Stage, verdict: TestResult, status: Option<ExitStatus>): TestResult {
    if !verdict.Good() || Succeeded(status) then verdict
    else if status.None? then TestResult(Broken, TimedOut(stage))
    else TestResult(Broken, NotSuccessful(stage))
  }

  // ---------- Steps ----------

  function Log(s: State, e: Event): State {
    s.(log := s.log + [e])
  }

  function Deliver(s: State, handle: ExitHandle, test: Test, verdict: TestResult): State {
    Log(s.(handedOut := s.handedOut + {handle.pid}), Delivered(handle.pid, handle, test, verdict))
  }

  function Abandon(s: State, pid: Pid): State {
    Log(s.(lost := s.lost + {pid}), Abandoned(pid))
  }

  function SpawnCleanup(s: State, body: ExitHandle, test: Test, verdict: TestResult, next: Option<Pid>): State {
    if next.None? then Abandon(s, body.pid)
    else
      Log(s.(table := s.table[next.value := CleanupData(test, body, verdict)],
             children := s.children + {next.value}),
          CleanupSpawned(body.pid, next.value))
  }

  /** Spawns the execenv cleanup and only then clears the flag of the body's record. */
  function SpawnExecenv(s: State, body: ExitHandle, test: Test, verdict: TestResult, next: Option<Pid>): State
    requires body.pid in s.table && s.table[body.pid].TestData?
  {
    if next.None? then Abandon(s, body.pid)
    else
      Log(s.(table := s.table[next.value := ExecenvData(test, body, verdict)]
                             [body.pid := s.table[body.pid].(needsExecenv := false)],
             children := s.children + {next.value}),
          ExecenvSpawned(body.pid, next.value))
  }

  /** The record keeps the exit handle and both flags, but nobody learns how the body ended. */
  function OverlookBody(s: State, h: ExitHandle): State
    requires h.pid in s.table && s.table[h.pid].TestData?
  {
    Abandon(Log(s.(table := s.table[h.pid := s.table[h.pid].(exit := Some(h))], children := s.children - {h.pid}),
                Overlooked(h.pid, h.pid)),
            h.pid)
  }

  function BodyExit(s: State, a: Action): State
    requires a.Exit? && a.handle.pid in s.table && s.table[a.handle.pid].TestData?
  {
    var p, h := a.handle.pid, a.handle;
    var d := s.table[p];
    if !a.found then OverlookBody(s, h)
    else
      var skipped := SkipObserved(d.test, h, a.report);
      var v := BodyVerdict(d.test, h, a.report);
      var d' := d.(exit := Some(h), needsCleanup := d.needsCleanup && !skipped, needsExecenv := d.needsExecenv && !skipped);
      var s' := Log(s.(table := s.table[p := d'], children := s.children - {p}), BodyEnded(p, h, a.report, v, skipped));
      if d'.needsCleanup then SpawnCleanup(s', h, d.test, v, a.next)
      else if d'.needsExecenv then SpawnExecenv(s', h, d.test, v, a.next)
      else Deliver(s', h, d.test, v)
  }

  function CleanupExit(s: State, a: Action): State
    requires a.Exit? && a.handle.pid in s.table && s.table[a.handle.pid].CleanupData?
  {
    var c, d := a.handle.pid, s.table[a.handle.pid];
    var b := d.body.pid;
    var v := Fold(CleanupStage, d.verdict, a.handle.status);
    var rest := s.(table := s.table - {c}, children := s.children - {c});
    var s' := Log(rest, CleanupEnded(b, a.handle.status));
    if b in s'.table && s'.table[b].TestData? && !a.found then
      Abandon(Log(rest, Overlooked(b, c)), b)
    else if b in s'.table && s'.table[b].TestData? then
      var s'' := s'.(table := s'.table[b := s'.table[b].(needsCleanup := false)]);
      if s''.table[b].needsExecenv then SpawnExecenv(s'', d.body, d.test, v, a.next)
      else Deliver(s'', d.body, d.test, v)
    else
      Deliver(s', d.body, d.test, v)
  }

  function ExecenvExit(s: State, a: Action): State
    requires a.Exit? && a.handle.pid in s.table && s.table[a.handle.pid].ExecenvData?
  {
    var c, d := a.handle.pid, s.table[a.handle.pid];
    var v := Fold(ExecenvStage, d.verdict, a.handle.status);
    Deliver(Log(s.(table := s.table - {c}, children := s.children - {c}), ExecenvEnded(d.body.pid, a.handle.status)),
            d.body, d.test, v)
  }

  /** The process id given to the next child is not in the table at that moment; a record of
      a follow-up that just ended is already gone by then. */
  predicate FreshPid(s: State, a: Action)
    requires a.Exit? && a.handle.pid in s.table
  {
    a.next.Some? ==>
      a.next.value !in s.table || (a.next.value == a.handle.pid && !s.table[a.handle.pid].TestData?)
  }

  predicate Enabled(s: State, a: Action) {
    match a
    case Spawn(pid, _) => pid !in s.table
    case Exit(h, _, _, _) => h.pid in s.children && h.pid in s.table && FreshPid(s, a)
    case Release(pid) => pid in s.handedOut
  }

  function Apply(s: State, a: Action): State
    requires Enabled(s, a)
  {
    match a
    case Spawn(pid, test) =>
      Log(s.(table := s.table[pid := TestData(test, test.HasCleanup(), test.HasExecenv(), pid, None)],
             children := s.children + {pid}),
          Spawned(pid, test))
    case Exit(h, _, _, _) =>
      (match s.table[h.pid]
       case TestData(_, _, _, _, _) => BodyExit(s, a)
       case CleanupData(_, _, _) => CleanupExit(s, a)
       case ExecenvData(_, _, _) => ExecenvExit(s, a))
    case Release(pid) =>
      Log(s.(table := s.table - {pid}, handedOut := s.handedOut - {pid}), Released(pid))
  }

  // ---------- The invariant ----------

  /** `c` is the live follow-up of the test whose body was `b`. */
  predicate FollowsUp(s: State, c: Pid, b: Pid) {
    c in s.table && !s.table[c].TestData? && s.table[c].body.pid == b
  }

  predicate Pending(s: State, p: Pid) {
    p in s.table && s.table[p].TestData? && p !in s.handedOut && p !in s.lost
  }

  ghost predicate BodyRecord(s: State, p: Pid)
    requires p in s.table && s.table[p].TestData?
  {
    var d := s.table[p];
    && d.pid == p
    && (d.needsCleanup ==> d.test.HasCleanup())
    && (d.needsExecenv ==> d.test.HasExecenv())
    && match d.exit
       case None =>
         && p in s.children && Pending(s, p)
         && d.needsCleanup == d.test.HasCleanup() && d.needsExecenv == d.test.HasExecenv()
       case Some(h) =>
         && h.pid == p && p !in s.children
         && (p in s.handedOut ==> !d.needsCleanup && !d.needsExecenv)
         && (Pending(s, p) ==> exists c :: FollowsUp(s, c, p))
  }

  predicate FollowupRecord(s: State, c: Pid)
    requires c in s.table && !s.table[c].TestData?
  {
    var d := s.table[c];
    && c in s.children
    && Pending(s, d.body.pid)
    && s.table[d.body.pid] ==
       TestData(d.test, d.CleanupData?, d.CleanupData? && d.test.HasExecenv(), d.body.pid, Some(d.body))
    && (if d.CleanupData? then d.test.HasCleanup() else d.test.HasExecenv())
  }

  ghost predicate Bodies(s: State) {
    forall p :: p in s.table && s.table[p].TestData? ==> BodyRecord(s, p)
  }

  predicate Followups(s: State) {
    forall c :: c in s.table && !s.table[c].TestData? ==> FollowupRecord(s, c)
  }

  /** No body has two follow-ups in flight. */
  predicate SingleFollowups(s: State) {
    forall c, d | c in s.table && d in s.table && !s.table[c].TestData? && !s.table[d].TestData? ::
      s.table[c].body.pid == s.table[d].body.pid ==> c == d
  }

  predicate Finished(s: State, p: Pid) {
    p in s.table && s.table[p].TestData? && s.table[p].exit.Some?
  }

  predicate Bookkeeping(s: State) {
    && s.children <= s.table.Keys
    && s.handedOut !! s.lost
    && (forall p :: p in s.handedOut ==> Finished(s, p))
    && (forall p :: p in s.lost ==> Finished(s, p))
  }

  ghost predicate Inv(s: State) {
    Bodies(s) && Followups(s) && SingleFollowups(s) && Bookkeeping(s)
  }

  lemma InvInitial()
    ensures Inv(INITIAL)
  {
  }

  lemma InvSpawn(s: State, a: Action)
    requires Inv(s) && a.Spawn? && Enabled(s, a)
    ensures Inv(Apply(s, a))
  {
    hide Test.HasCleanup, Test.HasExecenv, Test.IsExclusive;
    var s' := Apply(s, a);
    forall p | p in s'.table && s'.table[p].TestData?
      ensures BodyRecord(s', p)
    {
      if p != a.pid && Pending(s, p) && s.table[p].exit.Some? {
        var c :| FollowsUp(s, c, p);
        assert FollowsUp(s', c, p);
      }
    }
  }

  lemma InvRelease(s: State, a: Action)
    requires Inv(s) && a.Release? && Enabled(s, a)
    ensures Inv(Apply(s, a))
  {
    var s' := Apply(s, a);
    forall p | p in s'.table && s'.table[p].TestData?
      ensures BodyRecord(s', p)
    {
      if Pending(s, p) && s.table[p].exit.Some? {
        var c :| FollowsUp(s, c, p);
        assert FollowsUp(s', c, p);
      }
    }
  }

  /** The body whose chain the exit of a child belongs to. */
  function Subject(s: State, child: Pid): Pid
    requires child in s.table
  {
    if s.table[child].TestData? then child else s.table[child].body.pid
  }

  /** How an exit of child `c` in the chain of body `b` relates the two states: it touches the
      records of that chain only, and the chain either goes on with one new follow-up, or is
      over for the caller, or is abandoned. */
  ghost predicate ExitEffect(s: State, s': State, c: Pid, b: Pid, next: Option<Pid>) {
    && (forall q :: q in s.table && q != c && q != b ==>
          q in s'.table && s'.table[q] == s.table[q] && (q in s'.children <==> q in s.children))
    && (forall q :: FollowsUp(s, q, b) ==> q == c)
    && Finished(s', b) && BodyRecord(s', b)
    && s.handedOut <= s'.handedOut <= s.handedOut + {b} && s.lost <= s'.lost <= s.lost + {b}
    && s'.handedOut !! s'.lost
    && (var rest := s.table.Keys - (if c == b then {} else {c});
        if Pending(s', b) then
          && next.Some? && next.value !in rest
          && FollowsUp(s', next.value, b) && FollowupRecord(s', next.value)
          && s'.table.Keys == rest + {next.value}
          && s'.children == s.children - {c} + {next.value}
        else
          s'.table.Keys == rest && s'.children == s.children - {c})
  }

  lemma BodyExitHasEffect(s: State, a: Action)
    requires Inv(s) && a.Exit? && Enabled(s, a) && s.table[a.handle.pid].TestData?
    ensures ExitEffect(s, BodyExit(s, a), a.handle.pid, a.handle.pid, a.next)
  {
    hide Test.HasCleanup, Test.HasExecenv, Test.IsExclusive;
    var s', b := BodyExit(s, a), a.handle.pid;
    assert BodyRecord(s, b);
    assert Pending(s', b) ==> a.next.Some? && FollowsUp(s', a.next.value, b);
  }

  lemma CleanupMissedHasEffect(s: State, a: Action)
    requires Inv(s) && a.Exit? && Enabled(s, a) && s.table[a.handle.pid].CleanupData? && !a.found
    ensures ExitEffect(s, CleanupExit(s, a), a.handle.pid, Subject(s, a.handle.pid), a.next)
  {
    hide Test.HasCleanup, Test.HasExecenv, Test.IsExclusive, SpawnExecenv, Deliver, Fold;
    assert FollowupRecord(s, a.handle.pid) && BodyRecord(s, Subject(s, a.handle.pid));
  }

  lemma CleanupFoundHasEffect(s: State, a: Action)
    requires Inv(s) && a.Exit? && Enabled(s, a) && s.table[a.handle.pid].CleanupData? && a.found
    ensures ExitEffect(s, CleanupExit(s, a), a.handle.pid, Subject(s, a.handle.pid), a.next)
  {
    hide Test.HasCleanup, Test.HasExecenv, Test.IsExclusive, Fold;
    var s', b := CleanupExit(s, a), Subject(s, a.handle.pid);
    assert FollowupRecord(s, a.handle.pid) && BodyRecord(s, b);
    assert Pending(s', b) ==> a.next.Some? && FollowsUp(s', a.next.value, b);
  }

  lemma ExecenvExitHasEffect(s: State, a: Action)
    requires Inv(s) && a.Exit? && Enabled(s, a) && s.table[a.handle.pid].ExecenvData?
    ensures ExitEffect(s, ExecenvExit(s, a), a.handle.pid, Subject(s, a.handle.pid), a.next)
  {
    hide Test.HasCleanup, Test.HasExecenv, Test.IsExclusive;
    assert FollowupRecord(s, a.handle.pid);
    assert BodyRecord(s, Subject(s, a.handle.pid));
  }

  lemma ExitHasEffect(s: State, a: Action)
    requires Inv(s) && a.Exit? && Enabled(s, a)
    ensures ExitEffect(s, Apply(s, a), a.handle.pid, Subject(s, a.handle.pid), a.next)
  {
    hide Inv, ExitEffect, BodyExit, CleanupExit, ExecenvExit;
    match s.table[a.handle.pid]
    case TestData(_, _, _, _, _) => BodyExitHasEffect(s, a);
    case CleanupData(_, _, _) =>
      if a.found {
        CleanupFoundHasEffect(s, a);
      } else {
        CleanupMissedHasEffect(s, a);
      }
    case ExecenvData(_, _, _) => ExecenvExitHasEffect(s, a);
  }

  lemma InvExit(s: State, s': State, c: Pid, b: Pid, next: Option<Pid>)
    requires Inv(s) && c in s.table && b == Subject(s, c)
    requires ExitEffect(s, s', c, b, next)
    ensures Inv(s')
  {
    hide Test.HasCleanup, Test.HasExecenv, Test.IsExclusive;
    forall p | p in s'.table && s'.table[p].TestData?
      ensures BodyRecord(s', p)
    {
      if p != b {
        assert BodyRecord(s, p);
        if Pending(s, p) && s.table[p].exit.Some? {
          var d :| FollowsUp(s, d, p);
          assert FollowsUp(s', d, p);
        }
      }
    }
  }

  /** Every enabled step keeps the invariant. */
  lemma InvStep(s: State, a: Action)
    requires Inv(s) && Enabled(s, a)
    ensures Inv(Apply(s, a))
  {
    match a
    case Spawn(_, _) => InvSpawn(s, a);
    case Release(_) => InvRelease(s, a);
    case Exit(h, _, _, next) =>
      ExitHasEffect(s, a);
      InvExit(s, Apply(s, a), h.pid, Subject(s, h.pid), next);
  }
}
