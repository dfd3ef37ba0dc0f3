# A verified model of Kyua's test runner

Kyua runs the test cases of many test programs in parallel, computes one verdict for each, and
keeps the verdicts in a database. This project models the logic of that pipeline in Dafny and
proves what it promises.

* `SchedulerModel`, `SchedulerRuns`, `Scheduler`: the scheduler. A test is a chain of up to three
  child processes (body, cleanup routine, cleanup of the execution environment) behind one process
  id. The step system, the theorems about all its runs, and the object with its table updated in
  place. The object carries its run as a ghost field, so the theorems hold of the object.
* `Paths`, `Filters`, `Scanner`: which tests a run covers. The theory of test filters and the lazy
  iterator over the selected tests.
* `Driver`, `EndToEnd`: the loop that fills a number of slots with tests, stores every result, and
  runs exclusive tests alone afterwards; and the theorem from the scan to the store and back.
* `Store`: the tables, the write transaction and the results iterator with its cache.
* `Metadata`: the properties of programs and cases, their defaults, their text form in the store,
  and what a case runs with before and after they were stored.
* `Tap`, `Atf`, `Googletest`: how the three structured test interfaces turn output and exit status
  into a verdict. `Text` holds the string functions they share.
* `Layout`: the names of results files and the search for the newest one.
* `Results`, `TestModel`, `Strings`, `IntSets`: shared values and small facts about them.

## The main theorems

1. `SchedulerRuns.Narrative`: for every interleaving of tests, every reuse of process ids and every
   placement of interrupts, the events of one process id are whole stories (spawn, body, the
   declared follow-ups in order, one delivery with the folded verdict, release), followed by the
   beginning of the story of the test that owns the id now. The body's verdict in a story is what
   its fake result, its exit status, the skip cookie and the test interface make it (`Judged`).
2. `Scheduler.Scheduler.Destroy` with `Scheduler.FarewellPaysDebts`: whenever a run is cut off, the
   destructor attempts exactly the follow-ups that the story of each test still owes, each once,
   cleanup routines first; an attempt spawns its follow-up and waits for it unless another interrupt
   is seen right then.
3. `Driver.Drive`: for every order in which children end, the driver stops; never more than `slots`
   children are alive, and exclusive tests overlap nothing. It gives up exactly if the last check it
   made saw an interrupt; otherwise the scanned tests were spawned each once and the store holds one
   case and one result for each of them.
4. `EndToEnd.StoreTellsTheRun`: for every test of the scan, reading the store back gives the
   verdict, times and output that the scheduler delivered for that very test; and the metadata the
   test ran with exactly under the condition of `Metadata.EffectiveRoundTrip`. In terms of the
   scheduler, the stored verdict is the folded one of a whole life of that test
   (`EndToEnd.StoreTellsLives`).
5. `Scanner.UnusedAfterFullScan`, `Filters.OverlapIsContainment`, `Filters.ContainmentIsInclusion`:
   the filters reported as unused are exactly those that match no test case.
6. `Tap.AcceptedMeaning`, `Tap.OrderDoesNotMatter`, `Tap.VerdictMeaning`, `Tap.KindMeaning`;
   `Atf.RoundTrip`, `Atf.OnlyPrintedForm`, `Atf.ExpectedForms`, `Atf.KindMeaning`;
   `Googletest.ParseOutput`, `Googletest.AbortedMeaning`, `Googletest.KindMeaning`: the verdict
   computations are characterised for all inputs, each kind of verdict by its exact condition.
7. `Metadata.MetadataRoundTrip`, `Metadata.EffectiveRoundTrip`: exactly which metadata survives the
   store, for an object on its own and for a case behind its program.
8. `Layout.NewestIsLatest`: for every order of the directory, exactly when the newest run of a suite
   is found.

## Assumptions

* The executor gives a new child a process id that is not in the scheduler's table; waiting for any
  child returns a live child that was spawned through the scheduler; every child ends.
* An interrupt can be seen only where the code checks for one. Which checks see one is a parameter,
  a function of the number of the check. Looking up a test case is a check too, since the list of
  test cases of a program that was loaded lazily checks whenever it is asked for. The destructor
  goes on with the next test when another interrupt makes an attempt fail.
* The verdict of a test interface, exit statuses, times, outputs and the skip cookie are free
  inputs of the scheduler. The verdict functions of three interfaces are modelled separately.
* SQLite picks one more than the largest rowid and rows are never deleted; text compares bytewise.
* The output files of a test are those of its body: what follow-ups and the listing of the work
  directory append to them is taken to be there when the body ends.
* A set of words is the ascending list of its members, and the values of a metadata object are those
  its builder accepts.
* A set of filters is a sequence without duplicates in an arbitrary iteration order.
* `gmtime_r` gives calendar fields of the Gregorian calendar, and `%06s` pads with zeros. Names are
  compared for years with four digits.
* The regular expressions are written out as functions on text, with the leftmost match that
  POSIX prescribes.

## Where the code differs from what one would expect

* The comment on `get_raw_metadata` says that the final metadata of a case is reconstructed when it
  is loaded (`model/test_case.cpp:226-235`). But defaults are stored like properties that were set,
  so what the program sets no longer reaches its cases: with a program timeout of 600 seconds a case
  runs with 600 and reads back with 300 (`Metadata.EffectiveRoundTrip`, `Metadata.LostTimeout`).
* A timeout loses its microseconds, a quantity of bytes that is not a whole number of hundredths of
  its unit loses the rest, and words with blanks fall apart (`Metadata.MetadataRoundTrip`,
  `Metadata.LostBytes`). Comparing metadata objects does not notice the microseconds
  (`Metadata.MicrosAreInvisible`).
* `.` and `/` are parents of themselves only, although the header calls `is_parent_of` the parent
  relation (`Paths.IsParentOf`).
* A cleanup routine that is in flight when an interrupt arrives is run once more by the destructor,
  since the flag is cleared when the routine has ended (`SchedulerRuns.DestructorOwes`).
* When an interrupt is seen while the test case of a child that just ended is looked up, nobody
  learns how it ended: the test is never delivered, and a cleanup routine that has ended is run once
  more by the destructor (`SchedulerModel.OverlookBody`, `SchedulerRuns.Narrative`).
* A body that was forked when an interrupt is seen, but before its record is made, is in no table,
  so nobody runs its cleanup routine (`Scheduler.Scheduler.SpawnTest`).
* An interrupt that the executor sees while it spawns or waits for the child that lists the test
  cases is swallowed: the run goes on with a list of one broken test case
  (`Scheduler.Scheduler.ListTests`).
* A TAP plan `0..18446744073709551615` announces 2^64 tests; the count wraps to 0 and a program
  that reports nothing passes (`Tap.AnnouncingTooMany`). It is the only such plan
  (`Tap.AnnouncedIsExact`).
* An unterminated `(` in an expected exit or signal is accepted exactly if an integer follows it,
  because the wrong variable is compared with `npos`; the delimiter wraps around to the start, so
  that the reason is all but the first two characters (`Atf.OpenParsed`,
  `Atf.UnterminatedParenthesis`).
* An expected exit or signal that stops right after its colon makes `substr` throw
  `std::out_of_range`, which is not caught (`Atf.UncaughtMeaning`, `Atf.StoppingFile`).
* An expected exit or signal with an empty reason is a verdict that cannot be read back from the
  store (`Atf.ReasonMeaning`, `Atf.EmptyReason`, `Store.VerdictRoundTrip`).
* `atf_result::apply` is not idempotent (`Atf.ApplyTwice`, `Atf.TwiceIsNotOnce`).
* The googletest scan stops on an assertion for a failure without text and for text after a later
  announcement (`Googletest.AbortedMeaning`, `Googletest.LoneFailure`). On its own the calculation lets the verdict of a
  timed-out test stand (`Googletest.GoodMeaning`); the interface never asks it
  (`Googletest.ComputeResult`).
* The pattern of a suite with a dot in its name also matches the files of other suites; a suite finds
  only its own files exactly if it has no dot (`Layout.DotlessMatch`). The newest run is missed
  exactly if a suite that fits comes later in the order of names, however old its run
  (`Layout.NewestIsLatest`, `Layout.ShadowedSuite`). Two directories that differ in slashes and underscores only share their results
  (`Layout.SharedSuite`).

## Model

| member | source | states |
|---|---|---|
| SchedulerModel.InvStep | engine/scheduler.cpp:1283-1546 | Every enabled step (spawn, exit of any child, whether an interrupt fires at the lookup of the test, before the next spawn or not at all, release) keeps the table consistent: follow-ups name a finished body, no body has two, flags agree with what is still to do |
| SchedulerModel.ExitHasEffect | engine/scheduler.cpp:1340-1530 | An exit touches only the records of its own chain, and the chain goes on with exactly one new follow-up, ends for the caller, or is cut |
| SchedulerRuns.Reachable | engine/scheduler.cpp:1283-1546 | The invariant holds in every reachable state |
| SchedulerRuns.LookupsNeverFail | engine/scheduler.cpp:1340-1342 | The unchecked lookup finds a record for whatever child ended, and a follow-up names a test record with its exit handle set, whose process is gone and which has no other follow-up, so the downcast at the end of a cleanup does not fail |
| SchedulerRuns.Narrative | engine/scheduler.cpp:1333-1546 | In every run the events of a process id are the whole stories of the tests that had it plus the beginning of one, and the table agrees with that beginning: a body verdict as its status, cookie, fake result and interface demand, each declared follow-up once, in order, none after an observed skip |
| SchedulerRuns.BeginningOfALife | engine/scheduler.cpp:1408-1433 | Unless an interrupt cut the chain, what has happened to a test is a prefix of a whole story, and all of it exactly when the result is handed out |
| SchedulerRuns.DeliveryClosesALife | engine/scheduler.cpp:1532-1545 | Whatever is delivered closes one whole story: under the spawned process id, with the body's exit handle, with the folded verdict, and once; a skip is observed exactly for exit code 84 with a cookie and no fake result, and otherwise the body's verdict is the fake one or what the interface computed |
| SchedulerRuns.VerdictFolding | engine/scheduler.cpp:1450-1467 | A bad body verdict stands; the final verdict is good exactly if the body was good and every follow-up that ran succeeded; a verdict that differs from the body's is broken |
| SchedulerRuns.Conservation | engine/scheduler.cpp:1333-1546 | Spawns exceed deliveries under a process id by one exactly while its test is in progress or was cut off |
| SchedulerRuns.QuietMeansDelivered | engine/scheduler.cpp:1333-1546 | Once no child is left and no interrupt cut a chain, every spawn has been delivered |
| SchedulerRuns.StoryOwes | engine/scheduler.cpp:1414-1431 | For any stage of a test, the two flags say exactly which follow-ups its story still owes |
| SchedulerRuns.DestructorOwes | engine/scheduler.cpp:910-1005 | At any moment the flags the destructor goes by mean that the story of the test owes a cleanup not seen to end, or an execenv cleanup not spawned, and no skip was observed |
| SchedulerRuns.ExitProgress | engine/scheduler.cpp:1408-1433 | Every exit lowers the number of remaining stages over all tests, so the recursion of wait_any ends |
| SchedulerRuns.ExitsBounded | engine/scheduler.cpp:1408-1433 | In any run at most three children per spawned test end |
| Scheduler.ExitMeaning | engine/scheduler.cpp:1340-1546 | What the records say about an exit is what happens for the caller: one delivery of the right test as the last event, or nothing visible |
| Scheduler.ChildrenBound | engine/scheduler.cpp:1333-1546 | There are never more live children than tests in progress, and none exactly if no test is in progress |
| Scheduler.Scheduler.SpawnTest | engine/scheduler.cpp:1283-1316 | Extends the run by a spawn under a process id that is not tracked, or changes no record exactly if one of its checks saw an interrupt; the last of them leaves a child without a record |
| Scheduler.Scheduler.SpawnCleanup | engine/scheduler.cpp:1038-1066 | Adds one record for the new child and nothing else, or nothing exactly if one of the two checks saw an interrupt |
| Scheduler.Scheduler.SpawnExecenv | engine/scheduler.cpp:1098-1121 | Adds one record for the new child and nothing else, or nothing exactly if one of the two checks saw an interrupt |
| Scheduler.BodyExitMeaning | engine/scheduler.cpp:1352-1433 | For every end of a body: the verdict logged is the fake one if there is one, a skip with the text of the cookie exactly for exit code 84 with a cookie, and otherwise what the interface computed; that verdict is delivered at once, after a skip or without follow-ups, or goes into the record of the first follow-up |
| Scheduler.Scheduler.BodyEnds | engine/scheduler.cpp:1348-1433 | The end of a body is one step of the run with the outcome its record calls for; it is cut exactly if the last check saw an interrupt |
| Scheduler.Scheduler.CleanupEnds | engine/scheduler.cpp:1439-1500 | The end of a cleanup routine is one step of the run with the outcome its records call for; it is cut exactly if the last check saw an interrupt |
| Scheduler.Scheduler.ExecenvEnds | engine/scheduler.cpp:1503-1530 | The end of an execenv cleanup is one step of the run that delivers the test |
| Scheduler.Scheduler.FollowupResult | engine/scheduler.cpp:1450-1467 | The verdict is good exactly if the body was good and the follow-up succeeded; a bad body stands, and a changed verdict is broken with the reason of the stage |
| Scheduler.Scheduler.WaitAny | engine/scheduler.cpp:1333-1546 | Ends for every behaviour of the children, spawns no test, never raises the number of children; a result is the one delivery of a test that was in progress and closes a whole life of it, and the wait is interrupted exactly if its last check saw an interrupt |
| Scheduler.Scheduler.DebugTest | engine/scheduler.cpp:1560-1608 | Run while no child is alive, it returns the test it was given under the process id it got, or is interrupted exactly if its last check saw an interrupt |
| Scheduler.Scheduler.ListTests | engine/scheduler.cpp:669-690 | Has one more child alive than before while it lists, and none afterwards; stops the caller exactly if the last check saw an interrupt, not if the executor saw one |
| Scheduler.Scheduler.Release | engine/scheduler.cpp:716-720 | The destructor of a result handle takes exactly that test out of the table |
| Scheduler.Scheduler.TestsNeedingCleanup | engine/scheduler.cpp:949-974 | Collects in key order exactly the tests whose cleanup flag is set, clears the flag, and reaps exactly those without exit handle |
| Scheduler.Scheduler.TestsNeedingExecenvCleanup | engine/scheduler.cpp:980-1005 | The same for the other flag |
| Scheduler.Scheduler.SyncCleanup | engine/scheduler.cpp:1010-1024 | With the exit handle of the test: spawns its cleanup under a new process id, with the record of that test and body, unless one of the two checks before saw an interrupt, and waits for it unless the third did; touches no test record |
| Scheduler.Scheduler.SyncExecenvCleanup | engine/scheduler.cpp:1072-1085 | The same for the execenv cleanup |
| Scheduler.Scheduler.RunCleanups | engine/scheduler.cpp:916-927 | One such attempt for each test in order, each with a child of its own |
| Scheduler.Scheduler.RunExecenvCleanups | engine/scheduler.cpp:929-942 | The same for the execenv cleanups |
| Scheduler.Scheduler.Destroy | engine/scheduler.cpp:910-943 | One attempt for every needed cleanup, then one for every needed execenv cleanup, each with a fitting exit handle; each spawns its follow-up and waits for it unless an interrupt is seen right then; no process is reaped twice |
| Scheduler.FarewellPaysDebts | engine/scheduler.cpp:910-1024 | After any run, a test gets exactly one attempt for each follow-up its story owes and none for any other, every cleanup routine before every execenv cleanup; unless another interrupt is seen, exactly the owed follow-ups are spawned and waited for |
| Scheduler.Scheduler.CheckInterrupt | utils/signals/interrupts.cpp:270-276 | Each check sees its own interrupt or none |
| TestModel.DeclaredMeaning | engine/scheduler.cpp:249-251 | A test has a cleanup routine, an execution environment or exclusive use exactly if its case says so, or its program does and the case says nothing |
| Paths.IsParentOf | utils/fs/path.cpp:175-184 | The loop computes the component-prefix relation, except that "." and "/" are parents of themselves only |
| Paths.ParentMeaning | utils/fs/path.cpp:175-184 | The parents of a path are itself and whatever it extends by further components, but "." and "/" |
| Paths.AncestorsComparable | utils/fs/path.cpp:175-184 | Two parents of one path are comparable |
| Filters.ContainmentIsPartialOrder | engine/filters.cpp:124-132 | Containment of filters is reflexive, antisymmetric and transitive |
| Filters.ContainmentIsInclusion | engine/filters.cpp:124-169 | One filter contains another exactly if it matches all test cases the other matches |
| Filters.OverlapIsContainment | engine/filters.cpp:124-169 | Two filters share a test case exactly if one contains the other |
| Filters.DisjointMeansNoSharedCase | engine/filters.cpp:317-338 | A set of filters is disjoint exactly if no test case matches two of them |
| Filters.CheckDisjoint | engine/filters.cpp:317-338 | Accepts exactly the disjoint sets and otherwise names two filters of which one contains the other |
| Filters.PrefilterIsSound | engine/filters.cpp:249-289 | A program with a matching test case passes the filter on programs |
| Filters.MatchTestProgram | engine/filters.cpp:249-261 | True exactly if there are no filters or one matches the program |
| Filters.MatchTestCase | engine/filters.cpp:272-289 | True exactly if there are no filters or one matches, and the credit goes to the first in iteration order |
| Filters.FiltersState.MatchCase | engine/filters.cpp:369-378 | Records exactly the credited filter |
| Filters.FiltersState.Unused | engine/filters.cpp:298-309 | The filters split into used and unused ones |
| Scanner.SelectedMembers | engine/scanner.cpp:106-162 | A scan contains exactly the test cases of its programs that some filter matches |
| Scanner.SelectedOnce | engine/scanner.cpp:106-162 | Distinct programs and names make a scan without repetition |
| Scanner.SelectedOrder | engine/scanner.cpp:104-145 | A scan goes through the programs in order and through the cases of each in order |
| Scanner.UnusedAfterFullScan | engine/scanner.cpp:212-216 | With disjoint filters, the ones left over after a full scan are exactly those that match no test case |
| Scanner.Scanner.AdvanceScan | engine/scanner.cpp:106-146 | Ends, loses and repeats nothing, asks only programs that some filter matches, and stops at the next selected test case or at the end |
| Scanner.Scanner.Yield | engine/scanner.cpp:187-194 | Yields the head of what is left; interrupted exactly if the last check saw an interrupt |
| Scanner.Scanner.Done | engine/scanner.cpp:202-206 | True exactly if nothing is left; interrupted exactly if the last check saw an interrupt |
| Scanner.Scanner.UnusedFilters | engine/scanner.cpp:212-216 | At the end of a scan, the filters without credit for any of its test cases |
| Driver.FindTestProgramId | drivers/run_tests.cpp:97-111 | One program row per distinct relative path, found again under the same id |
| Driver.StartTest | drivers/run_tests.cpp:164-186 | Puts the case, spawns the test and keeps the books: the process id is new and the case id is the one the store allotted |
| Driver.FinishTest | drivers/run_tests.cpp:119-214 | Stores the delivered verdict, times and both outputs under the case and releases the handle |
| Driver.FillSlots | drivers/run_tests.cpp:289-312 | Starts scanned tests until the slots are full or the scan is over, sets exclusive ones aside, and keeps all invariants |
| Driver.ConsumeOne | drivers/run_tests.cpp:314-326 | The delivered process id is always found in flight; its result goes under its own case |
| Driver.SpawnKeeps | drivers/run_tests.cpp:282-337 | Spawning into an idle scheduler, or a shared test among shared tests, makes no exclusive test overlap another |
| Driver.RunExclusive | drivers/run_tests.cpp:329-337 | With nothing in flight, what wait_any returns is the test just started |
| Driver.AllReported | drivers/run_tests.cpp:282-337 | With nothing in flight there is exactly one result for every test started |
| Driver.EmptyAtRest | drivers/run_tests.cpp:282-337 | With nothing in flight the scheduler tracks nothing |
| Driver.Drive | drivers/run_tests.cpp:253-344 | Never more than `slots` children and no overlap of an exclusive test, whatever happens; gives up exactly if the last check it made saw an interrupt, and otherwise every scanned test was spawned once in start order and has one case and one result, the store has one program per path and none that was not scanned, the unused filters are exact, and no child or record is left |
| EndToEnd.StartOrderKeeps | drivers/run_tests.cpp:289-337 | Running exclusive tests last neither loses nor repeats a test |
| EndToEnd.ExclusiveLast | drivers/run_tests.cpp:298-338 | No other test starts after an exclusive one |
| EndToEnd.OrderKept | drivers/run_tests.cpp:290-338 | Among exclusive tests, and among the others, the order of the scan is kept |
| EndToEnd.ScanIsIdentified | engine/scanner.cpp:106-162 | If programs have distinct paths and cases distinct names, the tests of a run can be told apart in the store |
| EndToEnd.FamilyIsProgram | store/read_transaction.cpp:227-250 | The program of a test can be loaded exactly if its metadata and that of all its tests in the run can be read |
| EndToEnd.StoreTellsTheRun | drivers/run_tests.cpp:253-344 | After a complete run, every scanned test has a delivery and a row, and reading the row gives the delivered verdict, times and outputs; it gives the metadata the test ran with exactly if all of the program's can be read, the case's survives, and the case sets what the program sets away from the defaults |
| EndToEnd.StoreTellsLives | drivers/run_tests.cpp:279-344 | What is read back for a test is the folded verdict, the times and the output of one whole life of that test |
| Metadata.BytesRoundTrip | utils/units.cpp:67-131 | A quantity survives exactly if it falls short of a whole number of hundredths of its unit by less than a byte |
| Metadata.LostBytes | utils/units.cpp:67-131 | 1234567 bytes come back as another number |
| Metadata.WordsRoundTrip | utils/config/nodes.ipp:338-367 | A set of words survives exactly if no word is empty or has a blank |
| Metadata.SettingRoundTrip | model/metadata.cpp:112-142 | A property of any kind survives exactly if it is kept: whole seconds that fit, whole hundredths, words without blanks, any text or flag |
| Metadata.ReadableMeaning | model/metadata.cpp:1115-1129 | Exactly which properties can be read back at all |
| Metadata.RestoredMeaning | model/metadata.cpp:664-669 | A stored object can be read exactly if every property that was set can |
| Metadata.MetadataRoundTrip | model/metadata.cpp:664-669 | A stored object reads back equal, by every accessor, exactly if every property that was set survives |
| Metadata.TimeoutRoundTrip | model/metadata.cpp:112-142 | Where the other properties survive, exactly if the timeout is a whole number of seconds that fits |
| Metadata.MicrosAreInvisible | model/metadata.cpp:381-386 | Objects that differ in the microseconds of the timeout compare equal |
| Metadata.EffectiveRoundTrip | model/test_case.cpp:90-98 | What a case runs with reads back equal exactly if the program's metadata can be read, the case's survives, and the case sets every property the program sets away from its default |
| Metadata.LostTimeout | model/test_case.cpp:90-98 | A program timeout of 600 seconds that the case does not set reads back as 300 |
| Store.GetMetadata | store/read_transaction.cpp:99-116 | Builds the metadata of an id property by property, or fails if some text does not fit its property |
| Store.LoadedIsParsed | store/read_transaction.cpp:99-116 | As no name repeats under an id, the built object is its text taken property by property |
| Store.GetTestCases | store/read_transaction.cpp:160-181 | Reads the cases of a program, each with its own metadata, or fails if some cannot be read |
| Store.GetTestProgram | store/read_transaction.cpp:227-250 | Loads a program with its metadata behind that of its cases |
| Store.VerdictRoundTrip | store/read_transaction.cpp:192-212 | A verdict can be read back exactly if its reason is empty just when it passed |
| Store.LoadedCases | store/read_transaction.cpp:160-181 | Loading works exactly if the metadata of every case of the program can be read, and then finds each case with its own metadata and no others |
| Store.ProgramLoaded | store/read_transaction.cpp:227-250 | A program loads exactly if all metadata stored for it can be read, and then with what the store makes of it |
| Store.MaxRowidIsCount | store/write_transaction.cpp:100-113 | The largest rowid of the metadata table is the number of its rows, so an id taken from it is new |
| Store.WriteTransaction.PutMetadata | store/write_transaction.cpp:121-143 | The id holds exactly the properties, with defaults for those not set, and no other id is disturbed |
| Store.WriteTransaction.PutTestProgram | store/write_transaction.cpp:288-320 | Adds one program under the next id and keeps everything put before readable |
| Store.WriteTransaction.PutTestCase | store/write_transaction.cpp:331-358 | Adds one case under the next id and keeps everything put before readable |
| Store.WriteTransaction.PutTestCaseFile | store/write_transaction.cpp:368-400 | Stores a file unless it is empty; a second file of the same name is refused |
| Store.WriteTransaction.PutResult | store/write_transaction.cpp:409-440 | Stores one result per case and refuses a second |
| Store.ResultsIterator.TestProgram | store/read_transaction.cpp:330-343 | The cached program is always the one a fresh load would give |
| Store.ResultsIterator.FileContents | store/read_transaction.cpp:398-437 | The content of a file of the current case, empty if none was stored |
| Store.OrderBySorts | store/read_transaction.cpp:254-300 | Rows come in the order of program path and case name, and none is lost |
| Store.OrderMeaning | store/read_transaction.cpp:284-284 | Paths ascend character by character, and so do the names of one path |
| Store.ReadingOrder | store/read_transaction.cpp:254-342 | Reading visits as many rows as results were put, no case twice, in order |
| Store.RoundTrip | store/read_transaction.cpp:254-437 | After any sequence of puts every result has a row that reads back verdict, times and files as they were put, and program and case with their metadata as the store restores it |
| Tap.TestLine | engine/tap_parser.cpp:143-170 | A numbered test line counts as it says, and a failure as ok exactly if its description mentions TODO or SKIP in any case of letters |
| Tap.ResultLine | engine/tap_parser.cpp:143-170 | A line is a result as soon as a blank or dash follows the mark |
| Tap.MarkMeaning | engine/tap_parser.cpp:150-154 | Exactly which lines are results |
| Tap.PlanMeaning | engine/tap_parser.cpp:86-98 | Exactly which lines are plans, with which numbers |
| Text.LinesMeaning | engine/tap_parser.cpp:198-202 | The lines read hold no newline, and with a newline after each they are the text, but for the one that may be missing at the end |
| Tap.BailOutLine | engine/tap_parser.cpp:161-164 | A line that starts with the bail-out words is one, whatever follows |
| Tap.SkipPlanLine | engine/tap_parser.cpp:104-114 | The plan that skips everything is read with its reason, without the blanks before it |
| Tap.TryParsePlan | engine/tap_parser.cpp:86-130 | Takes a plan line as the meaning of plan lines demands, with the same errors in the same order |
| Tap.TryParseResult | engine/tap_parser.cpp:143-170 | Counts ok and not ok lines and notices a bail-out; a failure marked TODO or SKIP counts as ok |
| Tap.Parse | engine/tap_parser.cpp:191-228 | The loop computes the specified outcome; its 64-bit counters are exact |
| Tap.AnnouncedIsExact | engine/tap_parser.cpp:217-218 | The announced count is b - a + 1 except for the plan 0..2^64-1, where it is 0 |
| Tap.RunStaysSane | engine/tap_parser.cpp:120-129 | At every line the plan read is not reversed, and it is 1..0 exactly if there is a non-empty reason |
| Tap.AcceptedMeaning | engine/tap_parser.cpp:191-228 | Output without bail-out is accepted with a summary exactly if it has one plan line, sound, and as many results as announced |
| Tap.OrderDoesNotMatter | engine/tap_parser.cpp:191-228 | Output without bail-out is accepted or not, and summarised, by the multiset of its lines alone |
| Tap.BailOutIsFinal | engine/tap_parser.cpp:198-208 | After the first bail-out line nothing counts; before it only a flaw does |
| Tap.TapToResult | engine/tap.cpp:71-99 | The accessors of the summary are only called when allowed; skipped exactly for the skipping plan, failed exactly for a bail-out or a failure counted, passed only with exit code 0, never an expected failure; a reason exactly if it is not passed |
| Tap.ComputeResult | engine/tap.cpp:171-197 | Computes the verdict that `Tap.VerdictMeaning` and `Tap.KindMeaning` characterise |
| Tap.Computed | engine/tap.cpp:171-197 | Every verdict of the interface can be read back from the store |
| Tap.VerdictMeaning | engine/tap.cpp:71-99 | For every status and output: "Bailed out" for a bail-out with nothing unsound before it, skipped with the reason of the plan 1..0, "n of m tests failed" with the counted lines, passed or broken by exit code if none failed, and broken for anything else |
| Tap.KindMeaning | engine/tap.cpp:171-197 | The exact condition for passed, skipped, failed and broken; good exactly for passed and skipped |
| Tap.PassedMeaning | engine/tap.cpp:171-197 | A program passes exactly if it exits 0 and reports one plan a..b with a <= b, b - a + 1 ok lines, no failure and no bail-out, or the plan that wraps and nothing |
| Tap.PlanRoundTrip | engine/tap_parser.cpp:86-130 | A printed plan is read back |
| Tap.AnnouncingTooMany | engine/tap_parser.cpp:217-223 | The plan 0..2^64-1 without any result passes |
| Atf.ReadLines | engine/atf_result.cpp:69-94 | The stream loop counts the lines, or none if no newline was read, and merges them |
| Atf.OneLineCounts | engine/atf_result.cpp:69-94 | One line is counted exactly if the content is one newline-terminated line with nothing after it |
| Atf.ParsedIsWellFormed | engine/atf_result.cpp:289-325 | A parsed result has a reason exactly if it is not passed, an argument only for an exit or signal, and came from one line |
| Atf.RoundTrip | engine/atf_result.cpp:107-325 | Printing a result in the one-line format and parsing it gives it back |
| Atf.OnlyPrintedForm | engine/atf_result.cpp:107-325 | Where no argument is possible, the printed form is the only content that parses to a result |
| Atf.OpenParsed | engine/atf_result.cpp:194-208 | An unterminated parenthesis is accepted exactly if an integer follows it, and the reason is all but the first two characters |
| Atf.ArgumentForms | engine/atf_result.cpp:182-216 | Exactly which text after the status gives which argument and reason: the colon form, the closed form and the unterminated form |
| Atf.ExpectedForms | engine/atf_result.cpp:289-325 | Exactly which files report an expected exit or signal with which argument and reason |
| Atf.UnterminatedParenthesis | engine/atf_result.cpp:194-208 | A file without the closing parenthesis that ends as an expected failure |
| Atf.UncaughtMeaning | engine/atf_result.cpp:618-650 | The exception gets through exactly if the file is one line with an expected exit or signal that stops right after the colon of the status or of an integer argument |
| Atf.StoppingFile | engine/atf_result.cpp:208-208 | A file for which it gets through under every exit status |
| Atf.ApplyMeaning | engine/atf_result.cpp:418-510 | A report that the status confirms stands; another number than the reported one is failed; anything else turns into broken with a reason |
| Atf.ApplyTwice | engine/atf_result.cpp:418-510 | A second application changes nothing exactly if the number did not differ or the test case exited with the code of a failure |
| Atf.TwiceIsNotOnce | engine/atf_result.cpp:418-510 | Exit code 4 instead of 3 is failed when applied once and broken when applied twice |
| Atf.Externalize | engine/atf_result.cpp:515-542 | The kind is kept, the five expected kinds as one, and so is the reason |
| Atf.CalculateAtfResult | engine/atf_result.cpp:618-650 | Computes the verdict that `Atf.KindMeaning` characterises, or lets the exception through |
| Atf.KindMeaning | engine/atf_result.cpp:618-650 | The exact condition for each of the five kinds: passed, skipped and expected failure for such a report confirmed; failed for a failure confirmed or another number than the reported one; broken for everything else; a confirmed report keeps its reason |
| Atf.GoodMeaning | engine/atf_result.cpp:618-650 | The verdict is good exactly if the file reports a result that is not bad and the status confirms it |
| Atf.PassedMeaning | engine/atf_result.cpp:618-650 | Passed exactly for the content "passed" plus newline and exit code 0 |
| Atf.TimeoutMeaning | engine/atf_result.cpp:618-650 | A timeout is good exactly if an expected timeout was reported |
| Atf.NothingMakesItGood | engine/atf_result.cpp:418-510 | No exit status turns a reported broken or failed into a good verdict |
| Atf.ReasonMeaning | engine/atf_result.cpp:618-650 | The verdict lacks its reason exactly if an expected exit or signal with an empty reason was reported and confirmed |
| Atf.EmptyReason | engine/atf_result.cpp:182-216 | A concrete file for which the verdict has no reason |
| Googletest.EndingRead | engine/googletest_result.cpp:69-72 | Each of the three ending tags is read as itself, however it is padded and whatever follows |
| Googletest.EndingMeaning | engine/googletest_result.cpp:69-72 | A line ends a test exactly as the leftmost of the three tags in it says |
| Googletest.RunRead | engine/googletest_result.cpp:64-67 | The tag and a full test name announce a test, however they are padded |
| Googletest.RunMeaning | engine/googletest_result.cpp:64-67 | A line announces a test exactly if the tag with a full test name occurs in it |
| Googletest.DisabledRead | engine/googletest_result.cpp:59-62 | The line about disabled tests is captured with its number and plural, without what follows |
| Googletest.DisabledAtMeaning | engine/googletest_result.cpp:59-62 | Exactly what stands where a line about disabled tests is found |
| Googletest.ReadLines | engine/googletest_result.cpp:189-197 | The lines put together are the whole output |
| Googletest.ParseOutput | engine/googletest_result.cpp:186-245 | For every output the one-pass scan computes its meaning: the first disabled line wins, else the last ending decides, else it is invalid; the reason is the text between the last announcement and the first ending after it |
| Googletest.AbortedMeaning | engine/googletest_result.cpp:233-244 | An assertion is reached exactly for a failure without text, or text after an announcement that follows a final OK |
| Googletest.WellBehaved | engine/googletest_result.cpp:186-245 | With every ending after the last announcement and text for a failure no assertion is reached |
| Googletest.LoneFailure | engine/googletest_result.cpp:233-244 | A lone line that reports a failure stops the program |
| Googletest.LastEndingOfTail | engine/googletest_result.cpp:214-227 | If some ending follows the last announcement, the last ending is one of those |
| Googletest.Apply | engine/googletest_result.cpp:324-380 | A result stands exactly if it is broken, has no status, or exits as it should; otherwise it is broken |
| Googletest.Externalize | engine/googletest_result.cpp:388-410 | The kind is kept, a disabled test as skipped, and so is the reason, which the store can read back |
| Googletest.CalculateGoogletestResult | engine/googletest_result.cpp:479-528 | Computes the verdict that `Googletest.KindMeaning` characterises |
| Googletest.ComputeResult | engine/googletest.cpp:205-218 | A timeout is broken whatever the output says; otherwise the scan decides |
| Googletest.KindMeaning | engine/googletest_result.cpp:479-528 | The exact condition, on the lines and the status, for a passed, skipped and failed verdict with its reason; never an expected failure |
| Googletest.GoodMeaning | engine/googletest_result.cpp:479-528 | The calculation is good exactly if the output says so and the program exits 0 or has no status |
| Googletest.PassedMeaning | engine/googletest_result.cpp:479-528 | Passed exactly if nothing is disabled, the last ending is OK with no text after a later announcement, and the program exits 0 |
| Layout.TicksFollowFields | store/layout.cpp:112-118 | The order of the calendar fields of a time stamp is the order of time |
| Layout.NamesFollowTime | store/layout.cpp:112-118 | The order of the file names of one suite is the order of time, and different times have different names |
| Layout.MatchMeaning | store/layout.cpp:67-80 | The pattern of a suite without special characters but dots matches a generated name exactly if the suites agree up to dots in the pattern |
| Layout.DotlessMatch | store/layout.cpp:71-72 | The pattern fits no other suite exactly if the suite has no dot |
| Layout.NamesOfSuites | store/layout.cpp:82-84 | Names of two suites of one length are in the order of the suites, whatever the time |
| Layout.FindLatest | store/layout.cpp:67-95 | The greatest name of the directory that the expression matches, none exactly if nothing does or the expression does not compile |
| Layout.NewestIsLatest | store/layout.cpp:67-95 | For every order of the listing, what is found is the newest run of the suite exactly if no run belongs to a suite that fits the pattern and comes later in the order of names |
| Layout.DotlessFindsNewest | store/layout.cpp:67-95 | Without a dot the newest run is always found |
| Layout.ShadowedSuite | store/layout.cpp:67-95 | A suite with a dot whose newest run is not found |
| Layout.TestSuiteForPath | store/layout.cpp:250-264 | An absolute path without its first slash, or the current directory followed by the path without a leading "./", with underscores for slashes |
| Layout.SharedSuite | store/layout.cpp:250-264 | Two directories get one suite name exactly if they differ in slashes and underscores only |

## Left out

* Processes, signals, work directories, stack traces and file listings: the executor and the operating system are the environment of the model.
* Requirements checks, the plain interface and the list parsers of ATF and googletest: straight-line code.
* Loading Kyuafiles and configuration, the command line, the reports and the migration of old databases: scripts and presentation.
* The filter syntax (`test_filter::parse` and `str`): it rests on path normalisation, which the model takes as done.
* The context and environment variables in the store, and transactions that roll back.
* The folding of errors of the work directory cleanup into a verdict: the driver computes it and then reports the verdict without it, so no result depends on it.
* Scheduler.Scheduler.ListTests: the list itself is a field of the program; a list that fails to load, be it for an interrupt the executor saw, would be a program with one fake case. A list child whose wait was interrupted is taken as gone; a later `wait_any` that gets to see it is not modelled.
* Scheduler.Scheduler.DebugTest: the copying of the two output files and the debugger hooks are not modelled.
* SchedulerRuns.ExitsBounded: says nothing about a child that never ends; the executor's timeouts end it.
* Tap.Parse: requires less than 2^64 - 1 bytes of output, so that the counters cannot wrap.
* Tap.ComputeResult: the messages of rejected output leave out the path and the numbers involved.
* Layout.MatchMeaning: requires that no character of the suite but the dot is special in a regular expression; what a pattern such as that of `gtk+` matches is left to the expression engine, which `Layout.FindLatest` takes as a parameter.
* Layout.NewestIsLatest: has the same requirement, and assumes that the directory holds no file with a matching name other than those of runs.
* EndToEnd.StoreTellsTheRun: two programs of one path would share a row, and the statement assumes there are none.
* Metadata.BytesRoundTrip: the conversions to and from binary floating point are taken as exact, and text of a quantity is a plain decimal number with an optional unit.
* Metadata.ReadableMeaning: a path with a blank in it is read as its pieces without normalizing them.
* The names of properties in the metadata table, and custom properties that clash with each other in the configuration tree.
