/** What holds of every run of the scheduler, for every interleaving of tests, every reuse of
    process ids and every placement of interrupts.

    The main result is `Narrative`: seen from one process id, the log of a run is a sequence
    of complete stories, one for each test that got that id, plus the beginning of one story
    for the test that has it now. */
module SchedulerRuns {
  import opened IntSets
  import opened Results
  import opened TestModel
  import opened SchedulerModel

  // ---------- Runs ----------

  predicate ValidRun(run: seq<Action>)
    decreases |run|, 0
  {
    run == [] || (ValidRun(run[..|run| - 1]) && Enabled(Execute(run[..|run| - 1]), run[|run| - 1]))
  }

  function Execute(run: seq<Action>): State
    requires ValidRun(run)
    decreases |run|, 1
  {
    if run == [] then INITIAL else Apply(Execute(run[..|run| - 1]), run[|run| - 1])
  }

  /** In every reachable state the table is consistent. */
  lemma {:induction false} Reachable(run: seq<Action>)
    requires ValidRun(run)
    ensures Inv(Execute(run))
    decreases |run|
  {
    if run == [] {
      InvInitial();
    } else {
      Reachable(run[..|run| - 1]);
      InvStep(Execute(run[..|run| - 1]), run[|run| - 1]);
    }
  }

  /** The consequence that `wait_any` relies on without checking: the record of whatever child
      ended is there, and a follow-up names a body record with its exit handle set, whose
      process is gone and which has no other follow-up. */
  lemma LookupsNeverFail(run: seq<Action>, child: Pid)
    requires ValidRun(run)
    requires child in Execute(run).children
    ensures var s := Execute(run);
      && child in s.table
      && (!s.table[child].TestData? ==>
            var b := s.table[child].body.pid;
            && b in s.table && s.table[b].TestData? && s.table[b].exit == Some(s.table[child].body)
            && b !in s.children
            && (forall other :: FollowsUp(s, other, b) ==> other == child))
  {
    Reachable(run);
    var s := Execute(run);
    if !s.table[child].TestData? {
      assert FollowupRecord(s, child);
      assert BodyRecord(s, s.table[child].body.pid);
    }
  }

  // ---------- Stories ----------

  /** One follow-up of a test: the process that ran it and how it ended. */
  datatype Link = Link(child: Pid, status: Option<ExitStatus>)

  /** The whole life of a test, told without reference to any other test. */
  datatype Life = Life(
    test: Test, handle: ExitHandle, report: BodyReport, verdict: TestResult, skipped: bool,
    cleanup: Option<Link>, execenv: Option<Link>)

  /** The verdict of a body: a fake result wins over everything; the requirements check asked
      for a skip exactly if the body exited with the code for it and left the cookie, whose
      text is then the reason; in every other case it is what the interface computed. */
  predicate Judged(test: Test, handle: ExitHandle, report: BodyReport, verdict: TestResult, skipped: bool) {
    && (skipped <==> test.case_.fake.None? && handle.status == Some(Exited(84)) && report.cookie.Some?)
    && (test.case_.fake.Some? ==> verdict == test.case_.fake.value)
    && (skipped ==> verdict == TestResult(Skipped, report.cookie.value))
    && (test.case_.fake.None? && !skipped ==> verdict == report.computed)
  }

  /** A body whose skip was observed gets no follow-up; any other body gets exactly the
      follow-ups its test declares. */
  predicate WholeLife(pid: Pid, l: Life) {
    && l.handle.pid == pid
    && Judged(l.test, l.handle, l.report, l.verdict, l.skipped)
    && l.cleanup.Some? == (l.test.HasCleanup() && !l.skipped)
    && l.execenv.Some? == (l.test.HasExecenv() && !l.skipped)
  }

  predicate LinkFailed(link: Option<Link>) {
    link.Some? && !Succeeded(link.value.status)
  }

  /** A follow-up that did not succeed, in the words of its stage. */
  function FailureOf(stage: Stage, status: Option<ExitStatus>): TestResult {
    match (stage, status)
    case (CleanupStage, None) => TestResult(Broken, "Test case cleanup timed out")
    case (CleanupStage, Some(_)) => TestResult(Broken, "Test case cleanup did not terminate successfully")
    case (ExecenvStage, None) => TestResult(Broken, "Test case execenv cleanup timed out")
    case (ExecenvStage, Some(_)) => TestResult(Broken, "Test case execenv cleanup did not terminate successfully")
  }

  /** The verdict the caller must see: a bad body verdict stands, otherwise the first
      follow-up that did not succeed decides, otherwise the body verdict stands. */
  function FinalVerdict(l: Life): TestResult {
    if l.verdict.Good() && LinkFailed(l.cleanup) then FailureOf(CleanupStage, l.cleanup.value.status)
    else if l.verdict.Good() && LinkFailed(l.execenv) then FailureOf(ExecenvStage, l.execenv.value.status)
    else l.verdict
  }

  function CleanupPart(pid: Pid, link: Option<Link>): seq<Event> {
    if link.None? then [] else [CleanupSpawned(pid, link.value.child), CleanupEnded(pid, link.value.status)]
  }

  function ExecenvPart(pid: Pid, link: Option<Link>): seq<Event> {
    if link.None? then [] else [ExecenvSpawned(pid, link.value.child), ExecenvEnded(pid, link.value.status)]
  }

  /** Everything up to and including the delivery to the caller. */
  function Told(pid: Pid, l: Life): seq<Event> {
    [Spawned(pid, l.test), BodyEnded(pid, l.handle, l.report, l.verdict, l.skipped)]
    + CleanupPart(pid, l.cleanup)
    + ExecenvPart(pid, l.execenv)
    + [Delivered(pid, l.handle, l.test, FinalVerdict(l))]
  }

  function Story(pid: Pid, l: Life): seq<Event> {
    Told(pid, l) + [Released(pid)]
  }

  function Stories(pid: Pid, lives: seq<Life>): seq<Event> {
    if lives == [] then [] else Stories(pid, lives[..|lives| - 1]) + Story(pid, lives[|lives| - 1])
  }

  /** How far the test that owns a process id has come. */
  datatype Chapter =
    | Absent
    | Running(test: Test)
    | Cleaning(test: Test, handle: ExitHandle, report: BodyReport, verdict: TestResult, child: Pid)
    | Tidying(test: Test, handle: ExitHandle, report: BodyReport, verdict: TestResult, cleanup: Option<Link>, child: Pid)
    | Handed(life: Life)
    | Severed(test: Test, handle: ExitHandle, report: BodyReport, verdict: TestResult, cleanup: Option<Link>)
    | BodyMissed(test: Test, handle: ExitHandle)
    | CleanupMissed(test: Test, handle: ExitHandle, report: BodyReport, verdict: TestResult, child: Pid)

  /** An interrupt cut the chain of the test. */
  predicate CutOff(ch: Chapter) {
    ch.Severed? || ch.BodyMissed? || ch.CleanupMissed?
  }

  /** The beginning of a story that belongs to a chapter. */
  function Beginning(pid: Pid, ch: Chapter): seq<Event> {
    match ch
    case Absent => []
    case Running(test) => [Spawned(pid, test)]
    case Cleaning(test, h, r, v, c) => [Spawned(pid, test), BodyEnded(pid, h, r, v, false), CleanupSpawned(pid, c)]
    case Tidying(test, h, r, v, cl, c) =>
      [Spawned(pid, test), BodyEnded(pid, h, r, v, false)] + CleanupPart(pid, cl) + [ExecenvSpawned(pid, c)]
    case Handed(l) => Told(pid, l)
    case Severed(test, h, r, v, cl) =>
      [Spawned(pid, test), BodyEnded(pid, h, r, v, false)] + CleanupPart(pid, cl) + [Abandoned(pid)]
    case BodyMissed(test, h) => [Spawned(pid, test), Overlooked(pid, pid), Abandoned(pid)]
    case CleanupMissed(test, h, r, v, c) =>
      [Spawned(pid, test), BodyEnded(pid, h, r, v, false), CleanupSpawned(pid, c), Overlooked(pid, c), Abandoned(pid)]
  }

  function AfterCleanup(v: TestResult, cl: Option<Link>): TestResult {
    if cl.None? then v else Fold(CleanupStage, v, cl.value.status)
  }

  /** What the table holds for a test in a given chapter. */
  predicate Matches(s: State, pid: Pid, ch: Chapter) {
    match ch
    case Absent => pid !in s.table || !s.table[pid].TestData?
    case Running(test) =>
      pid in s.table && s.table[pid] == TestData(test, test.HasCleanup(), test.HasExecenv(), pid, None)
    case Cleaning(test, h, r, v, c) =>
      && h.pid == pid && Judged(test, h, r, v, false) && test.HasCleanup() && Pending(s, pid)
      && s.table[pid] == TestData(test, true, test.HasExecenv(), pid, Some(h))
      && c in s.table && s.table[c] == CleanupData(test, h, v)
    case Tidying(test, h, r, v, cl, c) =>
      && h.pid == pid && Judged(test, h, r, v, false) && test.HasExecenv() && Pending(s, pid)
      && cl.Some? == test.HasCleanup()
      && s.table[pid] == TestData(test, false, false, pid, Some(h))
      && c in s.table && s.table[c] == ExecenvData(test, h, AfterCleanup(v, cl))
    case Handed(l) =>
      && WholeLife(pid, l) && pid in s.handedOut && pid in s.table
      && s.table[pid] == TestData(l.test, false, false, pid, Some(l.handle))
    case Severed(test, h, r, v, cl) =>
      && h.pid == pid && Judged(test, h, r, v, false) && pid in s.lost && pid in s.table
      && (test.HasCleanup() || test.HasExecenv())
      && (cl.Some? ==> test.HasCleanup() && test.HasExecenv())
      && s.table[pid] == TestData(test, test.HasCleanup() && cl.None?, test.HasExecenv(), pid, Some(h))
    case BodyMissed(test, h) =>
      && h.pid == pid && pid in s.lost && pid in s.table
      && s.table[pid] == TestData(test, test.HasCleanup(), test.HasExecenv(), pid, Some(h))
    case CleanupMissed(test, h, r, v, c) =>
      && h.pid == pid && Judged(test, h, r, v, false) && pid in s.lost && pid in s.table && test.HasCleanup()
      && s.table[pid] == TestData(test, true, test.HasExecenv(), pid, Some(h))
  }

  /** The events of one process id, in order. */
  function Project(log: seq<Event>, pid: Pid): seq<Event> {
    if log == [] then []
    else if log[|log| - 1].pid == pid then Project(log[..|log| - 1], pid) + [log[|log| - 1]]
    else Project(log[..|log| - 1], pid)
  }

  lemma ProjectOne(log: seq<Event>, e: Event, pid: Pid)
    ensures Project(log + [e], pid) == Project(log, pid) + if e.pid == pid then [e] else []
  {
  }

  lemma ProjectTwo(log: seq<Event>, e: Event, f: Event, pid: Pid)
    requires e.pid == f.pid
    ensures Project(log + [e] + [f], pid) == Project(log, pid) + if e.pid == pid then [e, f] else []
  {
  }

  /** The two events an exit leaves in the log. */
  lemma ExitLog(s: State, a: Action) returns (e: Event, f: Event)
    requires Inv(s) && a.Exit? && Enabled(s, a)
    ensures Apply(s, a).log == s.log + [e] + [f]
    ensures e.pid == f.pid == Subject(s, a.handle.pid)
    ensures !e.Spawned? && !e.Delivered? && !f.Spawned?
  {
    hide Test.HasCleanup, Test.HasExecenv, Test.IsExclusive;
    var log := Apply(s, a).log;
    e, f := log[|s.log|], log[|s.log| + 1];
    if !s.table[a.handle.pid].TestData? {
      assert FollowupRecord(s, a.handle.pid);
    }
  }

  /** A step in the chain of another test changes nothing in this one. */
  lemma OtherTable(s: State, s': State, c: Pid, b: Pid, next: Option<Pid>, pid: Pid, ch: Chapter)
    requires Inv(s) && c in s.children && c in s.table && b == Subject(s, c) && b != pid
    requires ExitEffect(s, s', c, b, next) && Matches(s, pid, ch)
    ensures Matches(s', pid, ch)
  {
  }

  /** The chapter that follows when a child of this test ends. */
  function NextChapter(ch: Chapter, a: Action): Chapter
    requires a.Exit?
  {
    match ch
    case Running(test) =>
      var r := a.report;
      var skipped := SkipObserved(test, a.handle, r);
      var v := BodyVerdict(test, a.handle, r);
      if !a.found then BodyMissed(test, a.handle)
      else if skipped || !(test.HasCleanup() || test.HasExecenv()) then
        Handed(Life(test, a.handle, r, v, skipped, None, None))
      else if a.next.None? then Severed(test, a.handle, r, v, None)
      else if test.HasCleanup() then Cleaning(test, a.handle, r, v, a.next.value)
      else Tidying(test, a.handle, r, v, None, a.next.value)
    case Cleaning(test, h, r, v, c) =>
      var link := Some(Link(c, a.handle.status));
      if !a.found then CleanupMissed(test, h, r, v, c)
      else if !test.HasExecenv() then Handed(Life(test, h, r, v, false, link, None))
      else if a.next.None? then Severed(test, h, r, v, link)
      else Tidying(test, h, r, v, link, a.next.value)
    case Tidying(test, h, r, v, cl, c) => Handed(Life(test, h, r, v, false, cl, Some(Link(c, a.handle.status))))
    case _ => ch
  }

  /** Only the live child of a chapter can end. */
  lemma ActiveChapter(s: State, c: Pid, pid: Pid, ch: Chapter)
    requires Inv(s) && c in s.children && Matches(s, pid, ch) && c in s.table
    requires Subject(s, c) == pid
    ensures ch.Running? || ch.Cleaning? || ch.Tidying?
    ensures c == if ch.Running? then pid else ch.child
  {
  }

  /** The table after a child of this test ended is the one of the next chapter. */
  lemma OwnTable(s: State, a: Action, pid: Pid, ch: Chapter)
    requires Inv(s) && a.Exit? && Enabled(s, a) && Matches(s, pid, ch)
    requires Subject(s, a.handle.pid) == pid
    ensures Matches(Apply(s, a), pid, NextChapter(ch, a))
  {
    hide Test.HasCleanup, Test.HasExecenv, Test.IsExclusive;
  }

  /** The story grows by the two events of that exit. */
  lemma RunningEvents(s: State, a: Action, pid: Pid, ch: Chapter, e: Event, f: Event)
    requires Inv(s) && a.Exit? && Enabled(s, a) && Matches(s, pid, ch) && ch.Running? && a.handle.pid == pid
    requires Apply(s, a).log == s.log + [e] + [f]
    ensures Beginning(pid, NextChapter(ch, a)) == Beginning(pid, ch) + [e, f]
  {
    hide Test.HasCleanup, Test.HasExecenv, Test.IsExclusive, Inv, Judged;
    assert e == Apply(s, a).log[|s.log|] && f == Apply(s, a).log[|s.log| + 1];
    var next := NextChapter(ch, a);
    assert next.Handed? ==> Told(pid, next.life) == Beginning(pid, ch) + [e, f];
    assert CutOff(next) || next.Tidying? ==> Beginning(pid, next) == Beginning(pid, ch) + [e, f];
  }

  lemma CleaningEvents(s: State, a: Action, pid: Pid, ch: Chapter, e: Event, f: Event)
    requires Inv(s) && a.Exit? && Enabled(s, a) && Matches(s, pid, ch) && ch.Cleaning? && a.handle.pid == ch.child
    requires Apply(s, a).log == s.log + [e] + [f]
    ensures Beginning(pid, NextChapter(ch, a)) == Beginning(pid, ch) + [e, f]
  {
    hide Test.HasCleanup, Test.HasExecenv, Test.IsExclusive, Inv, Judged;
    assert e == Apply(s, a).log[|s.log|] && f == Apply(s, a).log[|s.log| + 1];
    var next := NextChapter(ch, a);
    assert next.Handed? ==> Told(pid, next.life) == Beginning(pid, ch) + [e, f];
    assert !next.Handed? ==> Beginning(pid, next) == Beginning(pid, ch) + [e, f];
  }

  lemma TidyingEvents(s: State, a: Action, pid: Pid, ch: Chapter, e: Event, f: Event)
    requires Inv(s) && a.Exit? && Enabled(s, a) && Matches(s, pid, ch) && ch.Tidying? && a.handle.pid == ch.child
    requires Apply(s, a).log == s.log + [e] + [f]
    ensures Beginning(pid, NextChapter(ch, a)) == Beginning(pid, ch) + [e, f]
  {
    hide Test.HasCleanup, Test.HasExecenv, Test.IsExclusive, Inv, Judged;
    assert e == Apply(s, a).log[|s.log|] && f == Apply(s, a).log[|s.log| + 1];
    var next := NextChapter(ch, a);
    assert Told(pid, next.life) == Beginning(pid, ch) + [e, f];
  }

  lemma OwnEvents(s: State, a: Action, pid: Pid, ch: Chapter, e: Event, f: Event)
    requires Inv(s) && a.Exit? && Enabled(s, a) && Matches(s, pid, ch)
    requires Subject(s, a.handle.pid) == pid
    requires Apply(s, a).log == s.log + [e] + [f]
    ensures Beginning(pid, NextChapter(ch, a)) == Beginning(pid, ch) + [e, f]
  {
    ActiveChapter(s, a.handle.pid, pid, ch);
    if ch.Running? {
      RunningEvents(s, a, pid, ch, e, f);
    } else if ch.Cleaning? {
      CleaningEvents(s, a, pid, ch, e, f);
    } else {
      TidyingEvents(s, a, pid, ch, e, f);
    }
  }

  // ---------- The narrative of a run ----------

  /** What one step does to the story of one process id: `added` is appended to it, and the
      lives and the chapter follow suit. */
  ghost predicate StoryStep(
    pid: Pid, lives: seq<Life>, ch: Chapter, lives': seq<Life>, ch': Chapter, added: seq<Event>)
  {
    && (lives' == lives || (ch.Handed? && lives' == lives + [ch.life]))
    && Stories(pid, lives) + Beginning(pid, ch) + added == Stories(pid, lives') + Beginning(pid, ch')
  }

  lemma OwnStory(s: State, a: Action, pid: Pid, lives: seq<Life>, ch: Chapter) returns (added: seq<Event>)
    requires Inv(s) && a.Exit? && Enabled(s, a) && Matches(s, pid, ch) && Subject(s, a.handle.pid) == pid
    ensures StoryStep(pid, lives, ch, lives, NextChapter(ch, a), added)
    ensures Project(Apply(s, a).log, pid) == Project(s.log, pid) + added
  {
    hide Test.HasCleanup, Test.HasExecenv, Test.IsExclusive;
    var e, f := ExitLog(s, a);
    ProjectTwo(s.log, e, f, pid);
    OwnEvents(s, a, pid, ch, e, f);
    added := [e, f];
  }

  lemma OtherStory(s: State, a: Action, pid: Pid)
    requires Inv(s) && a.Exit? && Enabled(s, a) && Subject(s, a.handle.pid) != pid
    ensures Project(Apply(s, a).log, pid) == Project(s.log, pid)
  {
    var e, f := ExitLog(s, a);
    ProjectTwo(s.log, e, f, pid);
  }

  lemma SpawnStory(s: State, a: Action, pid: Pid, lives: seq<Life>, ch: Chapter)
    returns (ch': Chapter, added: seq<Event>)
    requires Inv(s) && a.Spawn? && Enabled(s, a) && Matches(s, pid, ch)
    ensures Matches(Apply(s, a), pid, ch') && StoryStep(pid, lives, ch, lives, ch', added)
    ensures Project(Apply(s, a).log, pid) == Project(s.log, pid) + added
  {
    hide Test.HasCleanup, Test.HasExecenv, Test.IsExclusive, Inv, Told, CleanupPart, ExecenvPart, WholeLife, Stories, Judged;
    ProjectOne(s.log, Spawned(a.pid, a.test), pid);
    if a.pid == pid {
      ch', added := Running(a.test), [Spawned(pid, a.test)];
    } else {
      ch', added := ch, [];
    }
  }

  lemma StoryEnds(pid: Pid, lives: seq<Life>, l: Life)
    ensures Stories(pid, lives + [l]) == Stories(pid, lives) + Told(pid, l) + [Released(pid)]
  {
  }

  lemma ReleaseStory(s: State, a: Action, pid: Pid, lives: seq<Life>, ch: Chapter)
    returns (lives': seq<Life>, ch': Chapter, added: seq<Event>)
    requires Inv(s) && a.Release? && Enabled(s, a) && Matches(s, pid, ch)
    ensures Matches(Apply(s, a), pid, ch') && StoryStep(pid, lives, ch, lives', ch', added)
    ensures Project(Apply(s, a).log, pid) == Project(s.log, pid) + added
  {
    hide Test.HasCleanup, Test.HasExecenv, Test.IsExclusive;
    ProjectOne(s.log, Released(a.pid), pid);
    if a.pid == pid {
      lives', ch', added := lives + [ch.life], Absent, [Released(pid)];
      StoryEnds(pid, lives, ch.life);
    } else {
      lives', ch', added := lives, ch, [];
    }
  }

  lemma NarrativeStep(s: State, a: Action, pid: Pid, lives: seq<Life>, ch: Chapter)
    returns (lives': seq<Life>, ch': Chapter, added: seq<Event>)
    requires Inv(s) && Enabled(s, a) && Matches(s, pid, ch)
    ensures Matches(Apply(s, a), pid, ch') && StoryStep(pid, lives, ch, lives', ch', added)
    ensures Project(Apply(s, a).log, pid) == Project(s.log, pid) + added
  {
    lives' := lives;
    match a
    case Exit(h, _, _, next) =>
      if Subject(s, h.pid) == pid {
        OwnTable(s, a, pid, ch);
        added := OwnStory(s, a, pid, lives, ch);
        ch' := NextChapter(ch, a);
      } else {
        ExitHasEffect(s, a);
        OtherTable(s, Apply(s, a), h.pid, Subject(s, h.pid), next, pid, ch);
        OtherStory(s, a, pid);
        ch', added := ch, [];
      }
    case Spawn(_, _) => ch', added := SpawnStory(s, a, pid, lives, ch);
    case Release(_) => lives', ch', added := ReleaseStory(s, a, pid, lives, ch);
  }

  /** Main theorem.  In every run and for every process id, the events of that id are the
      complete stories of the tests that had it, in order, followed by the beginning of the
      story of the test that has it now; and the table agrees with that beginning. */
  lemma {:induction false} Narrative(run: seq<Action>, pid: Pid) returns (lives: seq<Life>, ch: Chapter)
    requires ValidRun(run)
    ensures Project(Execute(run).log, pid) == Stories(pid, lives) + Beginning(pid, ch)
    ensures forall l :: l in lives ==> WholeLife(pid, l)
    ensures Matches(Execute(run), pid, ch)
    decreases |run|
  {
    if run == [] {
      return [], Absent;
    }
    var init := run[..|run| - 1];
    lives, ch := Narrative(init, pid);
    Reachable(init);
    var added;
    lives, ch, added := NarrativeStep(Execute(init), run[|run| - 1], pid, lives, ch);
  }

  /** What `Beginning` means: as long as no interrupt cut the chain, it is a prefix of the
      story of a whole life, and a proper one until the result is handed out. */
  lemma BeginningOfALife(s: State, pid: Pid, ch: Chapter) returns (l: Life)
    requires Matches(s, pid, ch) && !ch.Absent? && !CutOff(ch)
    ensures WholeLife(pid, l)
    ensures Beginning(pid, ch) <= Told(pid, l)
    ensures Beginning(pid, ch) == Told(pid, l) <==> ch.Handed?
  {
    var cleanup := (test: Test) => if test.HasCleanup() then Some(Link(0, None)) else None;
    var execenv := (test: Test) => if test.HasExecenv() then Some(Link(0, None)) else None;
    match ch
    case Running(test) =>
      var v := if test.case_.fake.Some? then test.case_.fake.value else TestResult(Passed, "");
      l := Life(test, ExitHandle(pid, None, 0, 0, "", ""), BodyReport(None, v), v, false, cleanup(test), execenv(test));
    case Cleaning(test, h, r, v, c) => l := Life(test, h, r, v, false, Some(Link(c, None)), execenv(test));
    case Tidying(test, h, r, v, cl, c) => l := Life(test, h, r, v, false, cl, Some(Link(c, None)));
    case Handed(life) => l := life;
  }

  // ---------- Deliveries ----------

  lemma LogGrows(s: State, a: Action)
    requires Inv(s) && Enabled(s, a)
    ensures s.log < Apply(s, a).log
    ensures forall k :: |s.log| <= k < |Apply(s, a).log| && Apply(s, a).log[k].Delivered? ==>
              k == |Apply(s, a).log| - 1 && a.Exit? && Apply(s, a).log[k].pid == Subject(s, a.handle.pid)
  {
    hide Test.HasCleanup, Test.HasExecenv, Test.IsExclusive;
  }

  /** `e` closes the story of the whole life `l`, told after `before`. */
  ghost predicate ClosesLife(log: seq<Event>, e: Event, l: Life, before: seq<Event>) {
    && WholeLife(e.pid, l)
    && e == Delivered(e.pid, l.handle, l.test, FinalVerdict(l))
    && Project(log, e.pid) == before + Told(e.pid, l)
    && (before == [] || before[|before| - 1] == Released(e.pid))
  }

  /** Whatever the scheduler delivers, in any run, closes the story of one whole life: it is
      the only delivery of that life, made under the process id that `spawn_test` returned and
      with the exit handle of the body, and its verdict is the folded one. */
  lemma {:induction false} DeliveryClosesALife(run: seq<Action>, k: nat) returns (l: Life, before: seq<Event>)
    requires ValidRun(run)
    requires k < |Execute(run).log| && Execute(run).log[k].Delivered?
    ensures ClosesLife(Execute(run).log[..k + 1], Execute(run).log[k], l, before)
    decreases |run|
  {
    hide Test.HasCleanup, Test.HasExecenv, Test.IsExclusive;
    var init := run[..|run| - 1];
    if k < |Execute(init).log| {
      l, before := DeliveryClosesALife(init, k);
      LogOfPrefix(run, k);
    } else {
      l, before := NewDeliveryCloses(run, k);
    }
  }

  lemma LogOfPrefix(run: seq<Action>, k: nat)
    requires ValidRun(run) && run != [] && k < |Execute(run[..|run| - 1]).log|
    ensures k < |Execute(run).log| && Execute(run).log[k] == Execute(run[..|run| - 1]).log[k]
    ensures Execute(run).log[..k + 1] == Execute(run[..|run| - 1]).log[..k + 1]
  {
    Reachable(run[..|run| - 1]);
    LogGrows(Execute(run[..|run| - 1]), run[|run| - 1]);
  }

  lemma NewDeliveryCloses(run: seq<Action>, k: nat) returns (l: Life, before: seq<Event>)
    requires ValidRun(run) && run != []
    requires |Execute(run[..|run| - 1]).log| <= k < |Execute(run).log| && Execute(run).log[k].Delivered?
    ensures ClosesLife(Execute(run).log[..k + 1], Execute(run).log[k], l, before)
  {
    var pid := Execute(run).log[k].pid;
    var lives, ch := Narrative(run, pid);
    DeliveredIsLast(run, k, ch);
    l, before := ch.life, Stories(pid, lives);
    LastIsDelivery(Execute(run).log, k, lives, ch);
  }

  lemma HandedIsWhole(s: State, pid: Pid, ch: Chapter)
    requires Matches(s, pid, ch) && ch.Handed?
    ensures WholeLife(pid, ch.life)
  {
  }

  lemma DeliveredIsLast(run: seq<Action>, k: nat, ch: Chapter)
    requires ValidRun(run) && run != []
    requires |Execute(run[..|run| - 1]).log| <= k < |Execute(run).log| && Execute(run).log[k].Delivered?
    requires Matches(Execute(run), Execute(run).log[k].pid, ch)
    ensures Execute(run).log[..k + 1] == Execute(run).log && ch.Handed? && WholeLife(Execute(run).log[k].pid, ch.life)
  {
    hide Test.HasCleanup, Test.HasExecenv, Test.IsExclusive, Inv, Apply, Enabled, Matches, WholeLife;
    Reachable(run[..|run| - 1]);
    LogGrows(Execute(run[..|run| - 1]), run[|run| - 1]);
    DeliveredMeansHanded(Execute(run[..|run| - 1]), run[|run| - 1], Execute(run).log[k].pid, ch);
    HandedIsWhole(Execute(run), Execute(run).log[k].pid, ch);
  }

  lemma LastOfStories(pid: Pid, lives: seq<Life>)
    ensures lives != [] ==> Stories(pid, lives) != [] && Stories(pid, lives)[|Stories(pid, lives)| - 1] == Released(pid)
  {
    hide Told;
  }

  lemma LastTold(pid: Pid, l: Life, before: seq<Event>)
    ensures var story := before + Told(pid, l);
      story != [] && story[|story| - 1] == Delivered(pid, l.handle, l.test, FinalVerdict(l))
  {
    hide CleanupPart, ExecenvPart, FinalVerdict;
  }

  lemma LastProjected(log: seq<Event>)
    requires log != []
    ensures var story := Project(log, log[|log| - 1].pid);
      story != [] && story[|story| - 1] == log[|log| - 1]
  {
  }

  lemma LastIsDelivery(log: seq<Event>, k: nat, lives: seq<Life>, ch: Chapter)
    requires k < |log| && log[..k + 1] == log && log[k].Delivered? && ch.Handed?
    requires WholeLife(log[k].pid, ch.life)
    requires Project(log, log[k].pid) == Stories(log[k].pid, lives) + Beginning(log[k].pid, ch)
    ensures ClosesLife(log[..k + 1], log[k], ch.life, Stories(log[k].pid, lives))
  {
    hide Told, Project, WholeLife, FinalVerdict;
    assert k == |log| - 1;
    LastProjected(log);
    LastOfStories(log[k].pid, lives);
    LastTold(log[k].pid, ch.life, Stories(log[k].pid, lives));
  }

  lemma DeliveredMeansHanded(s: State, a: Action, pid: Pid, ch: Chapter)
    requires Inv(s) && Enabled(s, a) && a.Exit? && Subject(s, a.handle.pid) == pid
    requires Matches(Apply(s, a), pid, ch)
    requires var log := Apply(s, a).log; log != [] && log[|log| - 1].Delivered?
    ensures ch.Handed?
  {
    hide Test.HasCleanup, Test.HasExecenv, Test.IsExclusive;
  }

  /** The verdict of a whole life, in the words of the documentation. */
  lemma VerdictFolding(l: Life)
    ensures !l.verdict.Good() ==> FinalVerdict(l) == l.verdict
    ensures FinalVerdict(l).Good() <==> l.verdict.Good() && !LinkFailed(l.cleanup) && !LinkFailed(l.execenv)
    ensures FinalVerdict(l) != l.verdict ==> FinalVerdict(l).kind == Broken && l.verdict.Good()
  {
  }

  // ---------- Interrupted runs ----------

  predicate Observed(story: seq<Event>, what: Event -> bool) {
    exists k :: 0 <= k < |story| && what(story[k])
  }

  /** The story so far declares a cleanup routine that nobody saw finish, and no skip. */
  predicate OwesCleanup(story: seq<Event>) {
    && story != [] && story[0].Spawned? && story[0].test.HasCleanup()
    && !Observed(story, (e: Event) => e.CleanupEnded?)
    && !Observed(story, (e: Event) => e.BodyEnded? && e.skipped)
  }

  /** The story so far declares an execution environment whose cleanup was not spawned, and no
      skip. */
  predicate OwesExecenv(story: seq<Event>) {
    && story != [] && story[0].Spawned? && story[0].test.HasExecenv()
    && !Observed(story, (e: Event) => e.ExecenvSpawned?)
    && !Observed(story, (e: Event) => e.BodyEnded? && e.skipped)
  }

  lemma StoryOwes(s: State, pid: Pid, ch: Chapter)
    requires Matches(s, pid, ch)
    ensures pid in s.table && s.table[pid].TestData? ==>
      && (s.table[pid].needsCleanup <==> OwesCleanup(Beginning(pid, ch)))
      && (s.table[pid].needsExecenv <==> OwesExecenv(Beginning(pid, ch)))
  {
    hide Test.HasCleanup, Test.HasExecenv, Test.IsExclusive, Judged;
    var story := Beginning(pid, ch);
    if !ch.Absent? && !ch.Running? && !ch.BodyMissed? {
      assert story[1].BodyEnded?;
    }
    match ch
    case Absent =>
    case Running(_) =>
    case Cleaning(_, _, _, _, _) =>
    case Tidying(test, h, r, v, cl, c) =>
      assert story[|story| - 1].ExecenvSpawned?;
      assert cl.Some? ==> story[3].CleanupEnded?;
    case Severed(test, h, r, v, cl) =>
      assert cl.Some? ==> story[3].CleanupEnded?;
    case BodyMissed(_, _) =>
    case CleanupMissed(_, _, _, _, _) =>
    case Handed(l) =>
      assert l.cleanup.Some? ==> story[3].CleanupEnded?;
      assert l.execenv.Some? ==> story[|story| - 3].ExecenvSpawned?;
  }

  /** At any moment of any run, the flags the destructor goes by mean exactly this: the story
      of the test that owns the process id owes a follow-up. */
  lemma DestructorOwes(run: seq<Action>, pid: Pid) returns (lives: seq<Life>, ch: Chapter)
    requires ValidRun(run)
    requires pid in Execute(run).table && Execute(run).table[pid].TestData?
    ensures Project(Execute(run).log, pid) == Stories(pid, lives) + Beginning(pid, ch)
    ensures Execute(run).table[pid].needsCleanup <==> OwesCleanup(Beginning(pid, ch))
    ensures Execute(run).table[pid].needsExecenv <==> OwesExecenv(Beginning(pid, ch))
  {
    lives, ch := Narrative(run, pid);
    StoryOwes(Execute(run), pid, ch);
  }

  // ---------- Conservation ----------

  function CountSpawned(log: seq<Event>): nat {
    if log == [] then 0 else CountSpawned(log[..|log| - 1]) + if log[|log| - 1].Spawned? then 1 else 0
  }

  function CountDelivered(log: seq<Event>): nat {
    if log == [] then 0 else CountDelivered(log[..|log| - 1]) + if log[|log| - 1].Delivered? then 1 else 0
  }

  lemma {:induction false} CountConcat(a: seq<Event>, b: seq<Event>)
    ensures CountSpawned(a + b) == CountSpawned(a) + CountSpawned(b)
    ensures CountDelivered(a + b) == CountDelivered(a) + CountDelivered(b)
  {
    if b == [] {
      assert a + b == a;
    } else {
      assert (a + b)[..|a + b| - 1] == a + b[..|b| - 1];
      CountConcat(a, b[..|b| - 1]);
    }
  }

  lemma CountOne(e: Event)
    ensures CountSpawned([e]) == if e.Spawned? then 1 else 0
    ensures CountDelivered([e]) == if e.Delivered? then 1 else 0
  {
  }

  lemma CountPair(e: Event, f: Event)
    ensures CountSpawned([e, f]) == CountSpawned([e]) + CountSpawned([f])
    ensures CountDelivered([e, f]) == CountDelivered([e]) + CountDelivered([f])
  {
  }

  lemma CountPart(pid: Pid, cl: Option<Link>)
    ensures CountSpawned(CleanupPart(pid, cl)) == CountDelivered(CleanupPart(pid, cl)) == 0
    ensures CountSpawned(ExecenvPart(pid, cl)) == CountDelivered(ExecenvPart(pid, cl)) == 0
  {
    if cl.Some? {
      CountPair(CleanupSpawned(pid, cl.value.child), CleanupEnded(pid, cl.value.status));
      CountPair(ExecenvSpawned(pid, cl.value.child), ExecenvEnded(pid, cl.value.status));
      CountOne(CleanupSpawned(pid, cl.value.child));
      CountOne(CleanupEnded(pid, cl.value.status));
      CountOne(ExecenvSpawned(pid, cl.value.child));
      CountOne(ExecenvEnded(pid, cl.value.status));
    }
  }

  /** A start, the optional cleanup, and one last event. */
  lemma CountThree(e: Event, f: Event, part: seq<Event>, last: Event)
    requires CountSpawned(part) == CountDelivered(part) == 0
    ensures CountSpawned([e, f] + part + [last]) == CountSpawned([e]) + CountSpawned([f]) + CountSpawned([last])
    ensures CountDelivered([e, f] + part + [last]) == CountDelivered([e]) + CountDelivered([f]) + CountDelivered([last])
  {
    CountConcat([e, f] + part, [last]);
    CountConcat([e, f], part);
    CountPair(e, f);
  }

  lemma CountTold(pid: Pid, l: Life)
    ensures CountSpawned(Told(pid, l)) == CountDelivered(Told(pid, l)) == 1
  {
    var e, f := Spawned(pid, l.test), BodyEnded(pid, l.handle, l.report, l.verdict, l.skipped);
    var last := Delivered(pid, l.handle, l.test, FinalVerdict(l));
    var part := CleanupPart(pid, l.cleanup) + ExecenvPart(pid, l.execenv);
    CountPart(pid, l.cleanup);
    CountPart(pid, l.execenv);
    CountConcat(CleanupPart(pid, l.cleanup), ExecenvPart(pid, l.execenv));
    CountThree(e, f, part, last);
    CountOne(e);
    CountOne(f);
    CountOne(last);
    assert Told(pid, l) == [e, f] + part + [last];
  }

  lemma {:induction false} CountStories(pid: Pid, lives: seq<Life>)
    ensures CountSpawned(Stories(pid, lives)) == CountDelivered(Stories(pid, lives)) == |lives|
  {
    if lives != [] {
      var l := lives[|lives| - 1];
      CountStories(pid, lives[..|lives| - 1]);
      CountTold(pid, l);
      CountConcat(Told(pid, l), [Released(pid)]);
      CountConcat(Stories(pid, lives[..|lives| - 1]), Story(pid, l));
    }
  }

  lemma CountUnfinished(pid: Pid, test: Test, h: ExitHandle, r: BodyReport, v: TestResult, cl: Option<Link>, last: Event)
    requires !last.Spawned? && !last.Delivered?
    ensures var story := [Spawned(pid, test), BodyEnded(pid, h, r, v, false)] + CleanupPart(pid, cl) + [last];
      CountSpawned(story) == 1 && CountDelivered(story) == 0
  {
    var e, f := Spawned(pid, test), BodyEnded(pid, h, r, v, false);
    CountPart(pid, cl);
    CountThree(e, f, CleanupPart(pid, cl), last);
    CountOne(e);
    CountOne(f);
    CountOne(last);
  }

  lemma CountMissed(pid: Pid, test: Test, h: ExitHandle, r: BodyReport, v: TestResult, c: Pid)
    ensures var story := Beginning(pid, CleanupMissed(test, h, r, v, c));
      CountSpawned(story) == 1 && CountDelivered(story) == 0
  {
    var e, f := Spawned(pid, test), BodyEnded(pid, h, r, v, false);
    CountPair(CleanupSpawned(pid, c), Overlooked(pid, c));
    CountOne(CleanupSpawned(pid, c));
    CountOne(Overlooked(pid, c));
    CountThree(e, f, [CleanupSpawned(pid, c), Overlooked(pid, c)], Abandoned(pid));
    CountOne(e);
    CountOne(f);
    CountOne(Abandoned(pid));
    assert Beginning(pid, CleanupMissed(test, h, r, v, c)) ==
      [e, f] + [CleanupSpawned(pid, c), Overlooked(pid, c)] + [Abandoned(pid)];
  }

  lemma CountBeginning(pid: Pid, ch: Chapter)
    ensures CountSpawned(Beginning(pid, ch)) == if ch.Absent? then 0 else 1
    ensures CountDelivered(Beginning(pid, ch)) == if ch.Handed? then 1 else 0
  {
    match ch
    case Handed(l) => CountTold(pid, l);
    case Tidying(test, h, r, v, cl, c) =>
      CountUnfinished(pid, test, h, r, v, cl, ExecenvSpawned(pid, c));
    case Severed(test, h, r, v, cl) =>
      CountUnfinished(pid, test, h, r, v, cl, Abandoned(pid));
    case Cleaning(test, h, r, v, c) =>
      CountUnfinished(pid, test, h, r, v, None, CleanupSpawned(pid, c));
      assert Beginning(pid, ch) ==
        [Spawned(pid, test), BodyEnded(pid, h, r, v, false)] + CleanupPart(pid, None) + [CleanupSpawned(pid, c)];
    case BodyMissed(test, h) =>
      CountThree(Spawned(pid, test), Overlooked(pid, pid), [], Abandoned(pid));
      CountOne(Spawned(pid, test));
      CountOne(Overlooked(pid, pid));
      CountOne(Abandoned(pid));
      assert Beginning(pid, ch) == [Spawned(pid, test), Overlooked(pid, pid)] + [] + [Abandoned(pid)];
    case CleanupMissed(test, h, r, v, c) =>
      CountMissed(pid, test, h, r, v, c);
    case Running(test) => CountOne(Spawned(pid, test));
    case Absent =>
  }

  lemma ChapterStatus(run: seq<Action>, pid: Pid, ch: Chapter)
    requires ValidRun(run) && Matches(Execute(run), pid, ch)
    ensures Pending(Execute(run), pid) || pid in Execute(run).lost <==> !ch.Absent? && !ch.Handed?
  {
    Reachable(run);
    if ch.Running? {
      assert BodyRecord(Execute(run), pid);
    }
  }

  lemma CountNarrative(pid: Pid, lives: seq<Life>, ch: Chapter)
    ensures var story := Stories(pid, lives) + Beginning(pid, ch);
      CountSpawned(story) == CountDelivered(story) + if ch.Absent? || ch.Handed? then 0 else 1
  {
    CountStories(pid, lives);
    CountBeginning(pid, ch);
    CountConcat(Stories(pid, lives), Beginning(pid, ch));
  }

  /** Nothing is delivered twice and nothing is forgotten: at any moment of any run, the
      spawns under a process id exceed the deliveries under it by one exactly while the test
      that owns the id is in progress or was cut off by an interrupt. */
  lemma Conservation(run: seq<Action>, pid: Pid)
    requires ValidRun(run)
    ensures var s, story := Execute(run), Project(Execute(run).log, pid);
      CountSpawned(story) == CountDelivered(story) + if Pending(s, pid) || pid in s.lost then 1 else 0
  {
    var lives, ch := Narrative(run, pid);
    ChapterStatus(run, pid, ch);
    CountNarrative(pid, lives, ch);
  }

  lemma PendingHasChild(s: State, p: Pid) returns (c: Pid)
    requires Inv(s) && Pending(s, p)
    ensures c in s.children && c in s.table && Subject(s, c) == p
  {
    assert BodyRecord(s, p);
    if s.table[p].exit.None? {
      c := p;
    } else {
      c :| FollowsUp(s, c, p);
      assert FollowupRecord(s, c);
    }
  }

  /** Once no child is left in a run without interrupts, every spawn has been delivered. */
  lemma QuietMeansDelivered(run: seq<Action>, pid: Pid)
    requires ValidRun(run)
    requires Execute(run).children == {} && Execute(run).lost == {}
    ensures var story := Project(Execute(run).log, pid);
      CountSpawned(story) == CountDelivered(story)
  {
    Conservation(run, pid);
    Reachable(run);
    if Pending(Execute(run), pid) {
      var _ := PendingHasChild(Execute(run), pid);
    }
  }

  // ---------- Termination ----------

  function AwaitingCleanup(s: State): set<Pid> {
    set p | p in s.table && s.table[p].TestData? && s.table[p].exit.None? && s.table[p].needsCleanup
  }

  function AwaitingExecenv(s: State): set<Pid> {
    set p | p in s.table && s.table[p].TestData? && s.table[p].needsExecenv
  }

  /** The stages that remain, over all tests. */
  function Remaining(s: State): nat {
    |s.children| + |AwaitingCleanup(s)| + |AwaitingExecenv(s)|
  }

  /** Every exit uses up a stage, so the chaining inside `wait_any` ends. */
  lemma ExitProgress(s: State, a: Action)
    requires Inv(s) && a.Exit? && Enabled(s, a)
    ensures Remaining(Apply(s, a)) < Remaining(s)
  {
    var s', c, b := Apply(s, a), a.handle.pid, Subject(s, a.handle.pid);
    ExitHasEffect(s, a);
    ExitStages(s, a);
    SubsetSize(AwaitingCleanup(s'), AwaitingCleanup(s));
    SubsetSize(AwaitingExecenv(s'), AwaitingExecenv(s));
    assert |s.children - {c}| == |s.children| - 1;
  }

  lemma ExitStages(s: State, a: Action)
    requires Inv(s) && a.Exit? && Enabled(s, a)
    ensures var s' := Apply(s, a);
      && AwaitingCleanup(s') <= AwaitingCleanup(s)
      && AwaitingExecenv(s') <= AwaitingExecenv(s)
      && (Pending(s', Subject(s, a.handle.pid)) ==>
            AwaitingCleanup(s') != AwaitingCleanup(s) || AwaitingExecenv(s') != AwaitingExecenv(s))
  {
    hide Test.HasCleanup, Test.HasExecenv, Test.IsExclusive;
    var b := Subject(s, a.handle.pid);
    if !s.table[a.handle.pid].TestData? {
      assert FollowupRecord(s, a.handle.pid);
    }
    assert BodyRecord(s, b);
    assert Pending(Apply(s, a), b) ==>
      || (b in AwaitingCleanup(s) && b !in AwaitingCleanup(Apply(s, a)))
      || (b in AwaitingExecenv(s) && b !in AwaitingExecenv(Apply(s, a)));
  }

  function CountSpawns(run: seq<Action>): nat {
    if run == [] then 0 else CountSpawns(run[..|run| - 1]) + if run[|run| - 1].Spawn? then 1 else 0
  }

  function CountExits(run: seq<Action>): nat {
    if run == [] then 0 else CountExits(run[..|run| - 1]) + if run[|run| - 1].Exit? then 1 else 0
  }

  lemma StagesOfSpawnAndRelease(s: State, a: Action)
    requires Inv(s) && !a.Exit? && Enabled(s, a)
    ensures Remaining(Apply(s, a)) <= Remaining(s) + if a.Spawn? then 3 else 0
  {
    var s' := Apply(s, a);
    var extra := if a.Spawn? then {a.pid} else {};
    SubsetSize(s'.children, s.children + extra);
    SubsetSize(AwaitingCleanup(s'), AwaitingCleanup(s) + extra);
    SubsetSize(AwaitingExecenv(s'), AwaitingExecenv(s) + extra);
  }

  /** In any run, at most three children per spawned test ever end. */
  lemma {:induction false} ExitsBounded(run: seq<Action>)
    requires ValidRun(run)
    ensures CountExits(run) + Remaining(Execute(run)) <= 3 * CountSpawns(run)
    decreases |run|
  {
    if run != [] {
      var init := run[..|run| - 1];
      ExitsBounded(init);
      Reachable(init);
      if run[|run| - 1].Exit? {
        ExitProgress(Execute(init), run[|run| - 1]);
      } else {
        StagesOfSpawnAndRelease(Execute(init), run[|run| - 1]);
      }
    }
  }

  lemma ExecuteStep(run: seq<Action>, a: Action)
    requires ValidRun(run) && Enabled(Execute(run), a)
    ensures ValidRun(run + [a]) && Execute(run + [a]) == Apply(Execute(run), a)
  {
  }
}
