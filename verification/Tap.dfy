/** The parser of Test Anything Protocol output (engine/tap_parser.cpp) and the verdict it
    leads to (engine/tap.cpp). */
module Tap {
  import opened Results
  import opened Text

  /** One more than the largest `std::size_t`. */
  const SIZE_LIMIT: nat := 0x1_0000_0000_0000_0000

  datatype Plan = Plan(first: nat, second: nat)

  const ALL_SKIPPED := Plan(1, 0)

  datatype Flaw = NumberTooLarge | DuplicatePlan | SkippedPlanNotEmpty | ReversedPlan | NoPlan | CountMismatch

  // ---------- Lines ----------

  datatype LineClass = OkLine | NotOkLine | BailLine | PlanLine | OtherLine

  datatype PlanText = NotAPlan | Oversized | Numbers(plan: Plan)

  /** The numbers at the start of a plan line. */
  function PlanNumbers(line: string): PlanText {
    var s := CString(line);
    var d := DigitPrefix(s);
    if d == 0 || !StartsWith(s[d..], "..") then NotAPlan
    else
      var rest := s[d..][2..];
      var e := DigitPrefix(rest);
      if e == 0 then NotAPlan
      else
        var first, second := Value(s[..d]), Value(rest[..e]);
        if first < SIZE_LIMIT && second < SIZE_LIMIT then Numbers(Plan(first, second)) else Oversized
  }

  /** The text after the word that marks a skip, if there is one. */
  function SkipText(line: string): Option<string> {
    var s := CString(line);
    match FindFold(s, "skip")
    case None => None
    case Some(i) =>
      var rest := s[i + 4..];
      var tail :=
        if !StartsWithFold(rest, "ped") then rest
        else if StartsWith(rest[3..], ":") then rest[4..]
        else rest[3..];
      Some(TrimBlanks(tail))
  }

  /** What a result line says: `Some(true)` for ok. */
  function ResultMark(line: string): Option<bool> {
    var s := CString(line);
    if StartsWith(s, "not ok") then (if EndsWord(s[6..]) then Some(false) else None)
    else if StartsWith(s, "ok") && EndsWord(s[2..]) then Some(true)
    else None
  }

  predicate EndsWord(rest: string) {
    rest != "" && (IsBlank(rest[0]) || rest[0] == '-')
  }

  /** A result is tried before a bail-out and a bail-out before a plan; a failure that is
      marked TODO or SKIP is as good as ok. */
  function ClassOf(line: string): (c: LineClass)
    ensures c.PlanLine? ==> !PlanNumbers(line).NotAPlan?
    ensures c.OtherLine? ==> PlanNumbers(line).NotAPlan?
  {
    match ResultMark(line)
    case Some(true) => OkLine
    case Some(false) =>
      if FindFold(CString(line), "todo").Some? || SkipText(line).Some? then OkLine else NotOkLine
    case None =>
      if StartsWith(line, "Bail out!") then BailLine
      else if PlanNumbers(line).NotAPlan? then OtherLine
      else PlanLine
  }

  datatype PlanRead = Bad(flaw: Flaw) | Read(plan: Plan, reason: string)

  const NO_REASON := "No reason specified"

  /** What a plan line means on its own. */
  function PlanOf(line: string): (r: PlanRead)
    requires !PlanNumbers(line).NotAPlan?
    ensures r.Read? ==> (r.plan == ALL_SKIPPED <==> r.reason != "")
    ensures r.Read? && r.plan != ALL_SKIPPED ==> r.plan.first <= r.plan.second < SIZE_LIMIT
  {
    if PlanNumbers(line).Oversized? then Bad(NumberTooLarge)
    else
      var plan := PlanNumbers(line).plan;
      match SkipText(line)
      case Some(text) =>
        if plan != ALL_SKIPPED then Bad(SkippedPlanNotEmpty)
        else Read(plan, if text == "" then NO_REASON else text)
      case None =>
        if plan.first > plan.second then Bad(ReversedPlan) else Read(plan, "")
  }

  // ---------- Lines in the form of the protocol ----------

  /** The first letters of the marks do not occur in a numbered start. */
  lemma StartHasNoMark(start: string, number: nat, description: string)
    requires start == "ok " || start == "not ok "
    ensures var line := start + Decimal(number) + " " + description;
      && (FindFold(line, "todo").Some? <==> FindFold(description, "todo").Some?)
      && (FindFold(line, "skip").Some? <==> FindFold(description, "skip").Some?)
  {
    hide Decimal, FindFold;
    var prefix := start + Decimal(number) + " ";
    var line := prefix + description;
    forall i | 0 <= i < |prefix|
      ensures !StartsWithFold(line[i..], "todo") && !StartsWithFold(line[i..], "skip")
    {
      assert line[i..][0] == line[i] == prefix[i];
      assert LowerChar(prefix[i]) != 's';
      if prefix[i] == 't' {
        assert i == 2 && line[i..][1] == line[3] == ' ';
      }
    }
    FoundInRest(prefix, description, "todo");
    FoundInRest(prefix, description, "skip");
  }

  /** A line is a result as soon as one blank or dash follows the mark. */
  lemma ResultLine(separator: char, rest: string)
    requires (IsBlank(separator) || separator == '-') && '\0' !in rest
    ensures ClassOf("ok" + [separator] + rest) == OkLine
    ensures var line := "not ok" + [separator] + rest;
      ClassOf(line) ==
        if FindFold(line, "todo").Some? || FindFold(line, "skip").Some? then OkLine else NotOkLine
  {
    hide FindFold, CString, TrimBlanks, PlanNumbers;
    var good, bad := "ok" + [separator] + rest, "not ok" + [separator] + rest;
    CStringOfText(good);
    CStringOfText(bad);
    assert good[2..][0] == separator && bad[6..][0] == separator;
  }

  /** A numbered test line counts as it says, and a failure as ok if its description has one
      of the two marks, in any case of letters. */
  lemma TestLine(number: nat, description: string)
    requires '\0' !in description
    ensures ClassOf("ok " + Decimal(number) + " " + description) == OkLine
    ensures ClassOf("not ok " + Decimal(number) + " " + description) ==
      if FindFold(description, "todo").Some? || FindFold(description, "skip").Some? then OkLine else NotOkLine
  {
    hide Decimal, FindFold, ClassOf;
    var rest := Decimal(number) + " " + description;
    ResultLine(' ', rest);
    assert "ok" + [' '] + rest == "ok " + Decimal(number) + " " + description;
    assert "not ok" + [' '] + rest == "not ok " + Decimal(number) + " " + description;
    StartHasNoMark("not ok ", number, description);
  }

  lemma BailOutLine(reason: string)
    ensures ClassOf("Bail out!" + reason) == BailLine
  {
    hide PlanNumbers, SkipText;
    var line := "Bail out!" + reason;
    assert line[0] == 'B' && CString(line)[0] == 'B';
  }

  lemma EmptyPlanNumbers(rest: string)
    requires '\0' !in rest && (rest == "" || !IsDigit(rest[0]))
    ensures PlanNumbers("1..0" + rest) == Numbers(ALL_SKIPPED)
  {
    hide CString, DigitPrefix, Value;
    var line := "1..0" + rest;
    CStringOfText(line);
    assert line == "1" + ("..0" + rest);
    DigitsEndThere("1", "..0" + rest);
    assert line[1..][2..] == "0" + rest;
    DigitsEndThere("0", rest);
    SmallValues();
    assert line[..1] == "1" && line[1..][2..][..1] == "0";
  }

  /** The plan that skips everything keeps its reason. */
  lemma SkipPlanLine(reason: string)
    requires reason != "" && !IsBlank(reason[0]) && '\0' !in reason
    ensures ClassOf("1..0 # SKIP " + reason) == PlanLine && PlanOf("1..0 # SKIP " + reason) == Read(ALL_SKIPPED, reason)
  {
    hide CString, FindFold, PlanNumbers, SkipText;
    var line := "1..0 # SKIP " + reason;
    CStringOfText(line);
    assert line == "1..0" + (" # SKIP " + reason) == "1..0 # " + ("SKIP " + reason);
    EmptyPlanNumbers(" # SKIP " + reason);
    SkipPlaced("1..0 # ", "SKIP " + reason);
    assert line[11..] == " " + reason;
    SkipReason(line, reason);
    assert line[0] == '1';
  }

  lemma SmallValues()
    ensures Value("1") == 1 && Value("0") == 0
  {
    assert Value("") == 0 && "1"[..0] == "" && "0"[..0] == "";
  }

  lemma SkipPlaced(prefix: string, rest: string)
    requires prefix == "1..0 # " && StartsWithFold(rest, "skip")
    ensures FindFold(prefix + rest, "skip") == Some(7)
  {
    hide FindFold;
    forall i | 0 <= i < |prefix|
      ensures !StartsWithFold((prefix + rest)[i..], "skip")
    {
      assert (prefix + rest)[i..][0] == prefix[i];
    }
    FoundInRest(prefix, rest, "skip");
    assert rest[0..] == rest;
  }

  lemma TrimOne(reason: string)
    requires reason != "" && !IsBlank(reason[0])
    ensures TrimBlanks(" " + reason) == reason
  {
    assert (" " + reason)[1..] == reason;
    assert TrimBlanks(reason) == reason;
  }

  lemma SkipReason(line: string, reason: string)
    requires CString(line) == line && FindFold(line, "skip") == Some(7)
    requires |line| >= 11 && line[11..] == " " + reason && reason != "" && !IsBlank(reason[0])
    ensures SkipText(line) == Some(reason)
  {
    hide CString, FindFold, TrimBlanks;
    TrimOne(reason);
    assert (" " + reason)[0] == ' ' && LowerChar(' ') != 'p';
    assert !StartsWithFold(" " + reason, "ped");
  }

  // ---------- The expressions ----------

  /** The text starts with the mark and one blank or dash. */
  predicate Marked(s: string, mark: string) {
    mark <= s && |mark| < |s| && (IsBlank(s[|mark|]) || s[|mark|] == '-')
  }

  /** Exactly which lines are results. */
  lemma MarkMeaning(line: string)
    ensures ResultMark(line) == Some(true) <==> Marked(CString(line), "ok")
    ensures ResultMark(line) == Some(false) <==> Marked(CString(line), "not ok")
  {
    hide CString;
    var s := CString(line);
    assert "ok" <= s ==> s[0] == 'o';
    assert "not ok" <= s ==> s[0] == 'n';
  }

  /** Two numbers with two dots between them, at the start of the text. */
  predicate StartsPlan(s: string, first: string, second: string) {
    && first != "" && AllDigits(first) && second != "" && AllDigits(second)
    && first + ".." + second <= s
    && (|first + ".." + second| < |s| ==> !IsDigit(s[|first + ".." + second|]))
  }

  /** Exactly which lines are plans, and with which numbers. */
  lemma PlanMeaning(line: string, plan: Plan)
    ensures PlanNumbers(line) == Numbers(plan) <==>
      exists first, second ::
        && StartsPlan(CString(line), first, second)
        && plan.first == Value(first) < SIZE_LIMIT && plan.second == Value(second) < SIZE_LIMIT
    ensures PlanNumbers(line).NotAPlan? <==> forall first, second :: !StartsPlan(CString(line), first, second)
  {
    hide CString, Value, DigitPrefix, StartsPlan;
    if !PlanNumbers(line).NotAPlan? {
      var first, second := PlanParts(line);
    }
    forall first, second | StartsPlan(CString(line), first, second)
      ensures AllDigits(first) && AllDigits(second) && !PlanNumbers(line).NotAPlan? && PlanParted(line, first, second)
    {
      PlanIs(line, first, second);
    }
  }

  /** The numbers of the line are those of the two texts. */
  predicate PlanParted(line: string, first: string, second: string)
    requires AllDigits(first) && AllDigits(second)
  {
    PlanNumbers(line) ==
      if Value(first) < SIZE_LIMIT && Value(second) < SIZE_LIMIT then Numbers(Plan(Value(first), Value(second)))
      else Oversized
  }

  lemma PlanParts(line: string) returns (first: string, second: string)
    requires !PlanNumbers(line).NotAPlan?
    ensures StartsPlan(CString(line), first, second) && PlanParted(line, first, second)
  {
    hide CString, Value, DigitPrefix;
    var s := CString(line);
    var d := DigitPrefix(s);
    var rest := s[d..][2..];
    var e := DigitPrefix(rest);
    first, second := s[..d], rest[..e];
    assert s[d..] == ".." + rest;
    assert s == first + ".." + second + rest[e..];
  }

  lemma PlanIs(line: string, first: string, second: string)
    requires StartsPlan(CString(line), first, second)
    ensures AllDigits(first) && AllDigits(second) && !PlanNumbers(line).NotAPlan? && PlanParted(line, first, second)
  {
    hide CString, Value, DigitPrefix;
    var s := CString(line);
    var after := s[|first + ".." + second|..];
    assert s == first + (".." + (second + after));
    DigitsEndThere(first, ".." + (second + after));
    assert s[..|first|] == first && s[|first|..] == ".." + (second + after);
    assert s[|first|..][2..] == second + after;
    DigitsEndThere(second, after);
    assert (second + after)[..|second|] == second;
  }

  // ---------- Summaries ----------

  datatype Summary = Summary(bailedOut: bool, plan_: Plan, reason: string, ok: nat, notOk: nat) {
    /** The accessors, with the conditions under which they may be called. */
    function ThePlan(): Plan
      requires !bailedOut
    {
      plan_
    }

    function AllSkippedReason(): string
      requires !bailedOut && plan_ == ALL_SKIPPED
    {
      reason
    }

    function OkCount(): nat
      requires !bailedOut && reason == ""
    {
      ok
    }

    function NotOkCount(): nat
      requires !bailedOut && reason == ""
    {
      notOk
    }
  }

  /** The number of tests a plan announces, in 64-bit arithmetic. */
  function Announced(plan: Plan): nat
    requires plan.first <= plan.second
  {
    (plan.second - plan.first + 1) % SIZE_LIMIT
  }

  /** The addition wraps for one plan only. */
  lemma AnnouncedIsExact(plan: Plan)
    requires plan.first <= plan.second < SIZE_LIMIT
    ensures plan != Plan(0, SIZE_LIMIT - 1) ==> Announced(plan) == plan.second - plan.first + 1
    ensures plan == Plan(0, SIZE_LIMIT - 1) ==> Announced(plan) == 0
  {
  }

  function NewBailedOut(): Summary {
    Summary(true, Plan(0, 0), "", 0, 0)
  }

  function NewAllSkipped(reason: string): Summary {
    Summary(false, ALL_SKIPPED, reason, 0, 0)
  }

  function NewResults(plan: Plan, ok: nat, notOk: nat): Summary
    requires plan.first <= plan.second && Announced(plan) == (ok + notOk) % SIZE_LIMIT
  {
    Summary(false, plan, "", ok, notOk)
  }

  // ---------- One pass over the lines ----------

  datatype State =
    | Running(plan: Option<Plan>, reason: string, ok: nat, notOk: nat)
    | Bailed
    | Flawed(flaw: Flaw)

  datatype Outcome = Accepted(summary: Summary) | Rejected(flaw: Flaw)

  const START := Running(None, "", 0, 0)

  function TakePlan(st: State, line: string): State
    requires st.Running? && ClassOf(line) == PlanLine
  {
    if PlanOf(line) == Bad(NumberTooLarge) then Flawed(NumberTooLarge)
    else if st.plan.Some? then Flawed(DuplicatePlan)
    else
      match PlanOf(line)
      case Bad(flaw) => Flawed(flaw)
      case Read(plan, reason) => st.(plan := Some(plan), reason := reason)
  }

  function Step(st: State, line: string): State {
    if !st.Running? then st
    else
      match ClassOf(line)
      case OkLine => st.(ok := st.ok + 1)
      case NotOkLine => st.(notOk := st.notOk + 1)
      case BailLine => Bailed
      case PlanLine => TakePlan(st, line)
      case OtherLine => st
  }

  function Run(st: State, lines: seq<string>): State
    decreases |lines|
  {
    if lines == [] then st else Run(Step(st, lines[0]), lines[1..])
  }

  /** Plans that were read are not reversed, and only 1..0 has a reason, which is not empty. */
  predicate Sane(st: State) {
    st.Running? ==>
      match st.plan
      case None => st.reason == ""
      case Some(p) =>
        (p == ALL_SKIPPED <==> st.reason != "") && (p != ALL_SKIPPED ==> p.first <= p.second < SIZE_LIMIT)
  }

  lemma StepStaysSane(st: State, line: string)
    requires Sane(st)
    ensures Sane(Step(st, line))
  {
    hide ClassOf, PlanOf, PlanNumbers, SkipText;
  }

  lemma {:induction false} RunStaysSane(st: State, lines: seq<string>)
    requires Sane(st)
    ensures Sane(Run(st, lines))
    decreases |lines|
  {
    if lines != [] {
      RunStaysSane(Step(st, lines[0]), lines[1..]);
    }
  }

  function Conclude(st: State): Outcome
    requires Sane(st)
  {
    match st
    case Flawed(flaw) => Rejected(flaw)
    case Bailed => Accepted(NewBailedOut())
    case Running(None, _, _, _) => Rejected(NoPlan)
    case Running(Some(plan), reason, ok, notOk) =>
      if plan == ALL_SKIPPED then Accepted(NewAllSkipped(reason))
      else if Announced(plan) != (ok + notOk) % SIZE_LIMIT then Rejected(CountMismatch)
      else Accepted(NewResults(plan, ok, notOk))
  }

  /** What holds of the summary of an accepted output, so that its accessors may be called. */
  predicate WellMade(s: Summary) {
    !s.bailedOut ==>
      && (s.plan_ == ALL_SKIPPED <==> s.reason != "")
      && (s.plan_ != ALL_SKIPPED ==> s.plan_.first <= s.plan_.second)
  }

  function Parsed(lines: seq<string>): (r: Outcome)
    ensures r.Accepted? ==> WellMade(r.summary)
  {
    RunStaysSane(START, lines);
    Conclude(Run(START, lines))
  }

  // ---------- The parser ----------

  method TryParsePlan(line: string, plan: Option<Plan>, reason: string)
    returns (matched: bool, flaw: Option<Flaw>, outPlan: Option<Plan>, outReason: string)
    requires ClassOf(line) == PlanLine || ClassOf(line) == OtherLine
    ensures matched <==> ClassOf(line) == PlanLine
    ensures !matched ==> flaw == None && outPlan == plan && outReason == reason
    ensures matched ==> forall ok, notOk ::
      TakePlan(Running(plan, reason, ok, notOk), line) ==
        if flaw.Some? then Flawed(flaw.value) else Running(outPlan, outReason, ok, notOk)
  {
    hide ClassOf, PlanNumbers, SkipText;
    flaw, outPlan, outReason := None, plan, reason;
    var numbers := PlanNumbers(line);
    if numbers.NotAPlan? {
      return false, flaw, outPlan, outReason;
    }
    matched := true;
    if numbers.Oversized? {
      flaw := Some(NumberTooLarge);
      return;
    }
    if plan.Some? {
      flaw := Some(DuplicatePlan);
      return;
    }
    var skip := SkipText(line);
    if skip.Some? {
      if numbers.plan != ALL_SKIPPED {
        flaw := Some(SkippedPlanNotEmpty);
        return;
      }
      outReason := if skip.value == "" then NO_REASON else skip.value;
    } else {
      if numbers.plan.first > numbers.plan.second {
        flaw := Some(ReversedPlan);
        return;
      }
      outReason := "";
    }
    outPlan := Some(numbers.plan);
  }

  method TryParseResult(line: string, ok: nat, notOk: nat)
    returns (matched: bool, outOk: nat, outNotOk: nat, bailedOut: bool)
    ensures matched <==> ClassOf(line).OkLine? || ClassOf(line).NotOkLine? || ClassOf(line).BailLine?
    ensures outOk == (if ClassOf(line).OkLine? then (ok + 1) % SIZE_LIMIT else ok)
    ensures outNotOk == (if ClassOf(line).NotOkLine? then (notOk + 1) % SIZE_LIMIT else notOk)
    ensures bailedOut <==> ClassOf(line).BailLine?
  {
    matched, outOk, outNotOk, bailedOut := true, ok, notOk, false;
    var mark := ResultMark(line);
    if mark == Some(true) {
      outOk := (ok + 1) % SIZE_LIMIT;
    } else if mark == Some(false) {
      var todo := FindFold(CString(line), "todo");
      var skip := SkipText(line);
      if todo.Some? || skip.Some? {
        outOk := (ok + 1) % SIZE_LIMIT;
      } else {
        outNotOk := (notOk + 1) % SIZE_LIMIT;
      }
    } else if StartsWith(line, "Bail out!") {
      bailedOut := true;
    } else {
      matched := false;
    }
  }

  lemma {:induction false} SettledStays(st: State, lines: seq<string>)
    requires !st.Running?
    ensures Run(st, lines) == st
    decreases |lines|
  {
    if lines != [] {
      SettledStays(st, lines[1..]);
    }
  }

  /** The parser computes in 64 bits; no file has 2^64 - 1 bytes, so its counters are exact. */
  method Parse(content: string) returns (r: Outcome)
    requires |content| < SIZE_LIMIT - 1
    ensures r == Parsed(Lines(content))
  {
    hide ClassOf, PlanOf, PlanNumbers, SkipText, TakePlan, Lines;
    var plan: Option<Plan> := None;
    var reason := "";
    var bailedOut := false;
    var ok: nat, notOk: nat := 0, 0;
    var input := content;
    ghost var whole := Lines(content);
    RunStaysSane(START, whole);
    while !bailedOut && input != ""
      invariant ok + notOk + |input| <= |content|
      invariant Run(START, whole) == Run(if bailedOut then Bailed else Running(plan, reason, ok, notOk), Lines(input))
      invariant Sane(Running(plan, reason, ok, notOk))
      decreases |input|
    {
      var line, matched;
      ghost var st := Running(plan, reason, ok, notOk);
      ghost var before := input;
      line, input := GetLine(input);
      StepStaysSane(st, line);
      assert Run(st, Lines(before)) == Run(Step(st, line), Lines(input));
      matched, ok, notOk, bailedOut := TryParseResult(line, ok, notOk);
      if !matched {
        var flaw;
        matched, flaw, plan, reason := TryParsePlan(line, plan, reason);
        if flaw.Some? {
          SettledStays(Flawed(flaw.value), Lines(input));
          return Rejected(flaw.value);
        }
      }
    }
    if bailedOut {
      SettledStays(Bailed, Lines(input));
      return Accepted(NewBailedOut());
    }
    if plan.None? {
      return Rejected(NoPlan);
    }
    if plan.value == ALL_SKIPPED {
      return Accepted(NewAllSkipped(reason));
    }
    var expCount := (plan.value.second - plan.value.first + 1) % SIZE_LIMIT;
    var actualCount := (ok + notOk) % SIZE_LIMIT;
    if expCount != actualCount {
      return Rejected(CountMismatch);
    }
    return Accepted(NewResults(plan.value, ok, notOk));
  }

  // ---------- What an accepted output looks like ----------

  /** How many lines have a class. */
  function Tally(lines: seq<string>, c: LineClass): (n: nat)
    ensures n <= |lines|
  {
    if lines == [] then 0 else (if ClassOf(lines[0]) == c then 1 else 0) + Tally(lines[1..], c)
  }

  lemma {:induction false} TallySum(a: seq<string>, b: seq<string>, c: LineClass)
    ensures Tally(a + b, c) == Tally(a, c) + Tally(b, c)
  {
    if a == [] {
      assert a + b == b;
    } else {
      assert (a + b)[1..] == a[1..] + b;
      TallySum(a[1..], b, c);
    }
  }

  lemma {:induction false} TallyMember(lines: seq<string>, k: nat)
    requires k < |lines|
    ensures Tally(lines, ClassOf(lines[k])) > 0
  {
    TallySum(lines[..k], lines[k..], ClassOf(lines[k]));
    assert lines == lines[..k] + lines[k..];
  }

  lemma WithoutLine(lines: seq<string>, k: nat, c: LineClass)
    requires k < |lines|
    ensures var rest := lines[..k] + lines[k + 1..];
      && multiset(rest) == multiset(lines) - multiset{lines[k]}
      && Tally(lines, c) == (if ClassOf(lines[k]) == c then 1 else 0) + Tally(rest, c)
  {
    assert lines == lines[..k] + lines[k..] && lines[k..] == [lines[k]] + lines[k + 1..];
    TallySum(lines[..k], lines[k..], c);
    TallySum(lines[..k], lines[k + 1..], c);
  }

  lemma PlaceOf(lines: seq<string>, line: string) returns (k: nat)
    requires line in multiset(lines)
    ensures k < |lines| && lines[k] == line
  {
    assert line in lines;
    k :| k < |lines| && lines[k] == line;
  }

  /** Tallies do not depend on the order of the lines. */
  lemma {:induction false} TallyPermutes(a: seq<string>, b: seq<string>, c: LineClass)
    requires multiset(a) == multiset(b)
    ensures Tally(a, c) == Tally(b, c)
    decreases |a|
  {
    hide ClassOf;
    assert |multiset(a)| == |a| && |multiset(b)| == |b|;
    if a != [] {
      var line := a[0];
      assert line in multiset(a);
      var k := PlaceOf(b, line);
      assert a[..0] + a[1..] == a[1..];
      WithoutLine(a, 0, c);
      WithoutLine(b, k, c);
      TallyPermutes(a[1..], b[..k] + b[k + 1..], c);
    }
  }

  /** The order-free meaning of output without a bail-out line: one plan line, which is sound,
      and as many results as it announces. */
  predicate Describes(lines: seq<string>, s: Summary) {
    && Tally(lines, BailLine) == 0 && Tally(lines, PlanLine) == 1
    && !s.bailedOut
    && (forall l :: l in lines && ClassOf(l) == PlanLine ==> PlanOf(l) == Read(s.plan_, s.reason))
    && (s.plan_ == ALL_SKIPPED ==> s.ok == s.notOk == 0)
    && (s.plan_ != ALL_SKIPPED ==>
          && s.ok == Tally(lines, OkLine) && s.notOk == Tally(lines, NotOkLine)
          && s.plan_.first <= s.plan_.second && Announced(s.plan_) == (s.ok + s.notOk) % SIZE_LIMIT)
  }


  /** Every plan line is sound. */
  predicate Sound(lines: seq<string>) {
    forall l :: l in lines && ClassOf(l) == PlanLine ==> PlanOf(l).Read?
  }

  /** Every plan line says the same. */
  predicate AllRead(lines: seq<string>, plan: Plan, reason: string) {
    forall l :: l in lines && ClassOf(l) == PlanLine ==> PlanOf(l) == Read(plan, reason)
  }

  function Count<T>(o: Option<T>): nat {
    if o.Some? then 1 else 0
  }

  /** When the pass fails, and what it has counted when it does not. */
  lemma {:induction false} RunCounts(st: State, lines: seq<string>)
    requires st.Running? && Tally(lines, BailLine) == 0
    ensures Run(st, lines).Running? <==> Sound(lines) && Count(st.plan) + Tally(lines, PlanLine) <= 1
    ensures Run(st, lines).Running? ==>
      && Run(st, lines).ok == st.ok + Tally(lines, OkLine)
      && Run(st, lines).notOk == st.notOk + Tally(lines, NotOkLine)
    ensures !Run(st, lines).Bailed?
    decreases |lines|
  {
    hide ClassOf, PlanOf, PlanNumbers, SkipText;
    if lines != [] {
      var line, rest := lines[0], lines[1..];
      var next := Step(st, line);
      assert Sound(lines) <==> Sound(rest) && (ClassOf(line) == PlanLine ==> PlanOf(line).Read?) by {
        assert lines == [line] + rest;
      }
      if next.Running? {
        RunCounts(next, rest);
      } else {
        SettledStays(next, rest);
      }
    }
  }

  /** The plan the pass ends with is the one of the plan line. */
  lemma {:induction false} RunPlan(st: State, lines: seq<string>)
    requires st.Running? && Run(st, lines).Running?
    ensures Tally(lines, PlanLine) == 0 ==> Run(st, lines).plan == st.plan && Run(st, lines).reason == st.reason
    ensures Tally(lines, PlanLine) > 0 ==>
      var end := Run(st, lines);
      st.plan.None? && end.plan.Some? && AllRead(lines, end.plan.value, end.reason)
    decreases |lines|
  {
    hide ClassOf, PlanOf, PlanNumbers, SkipText;
    if lines != [] {
      var line, rest := lines[0], lines[1..];
      assert lines == [line] + rest;
      var next := Step(st, line);
      if !next.Running? {
        SettledStays(next, rest);
      }
      RunPlan(next, rest);
      NoPlanInRest(rest);
    }
  }

  lemma NoPlanInRest(lines: seq<string>)
    ensures Tally(lines, PlanLine) == 0 ==> forall l :: l in lines ==> ClassOf(l) != PlanLine
  {
    forall l | l in lines
      ensures Tally(lines, ClassOf(l)) > 0
    {
      var k := PlaceOf(lines, l);
      TallyMember(lines, k);
    }
  }

  /** Without a bail-out line the output is accepted with a summary exactly if the summary
      describes it. */
  lemma AcceptedMeaning(lines: seq<string>, s: Summary)
    requires Tally(lines, BailLine) == 0
    ensures Parsed(lines) == Accepted(s) <==> Describes(lines, s)
  {
    hide ClassOf, PlanOf, PlanNumbers, SkipText;
    RunCounts(START, lines);
    RunStaysSane(START, lines);
    if Run(START, lines).Running? {
      RunPlan(START, lines);
    }
    if Tally(lines, PlanLine) == 1 {
      var line := SomePlanLine(lines);
      assert line in lines;
    }
  }

  lemma {:induction false} SomePlanLine(lines: seq<string>) returns (line: string)
    requires Tally(lines, PlanLine) > 0
    ensures line in lines && ClassOf(line) == PlanLine
  {
    line := lines[0];
    if ClassOf(line) != PlanLine {
      line := SomePlanLine(lines[1..]);
    }
  }

  /** Whether such output is accepted, and with which summary, depends on its lines only, not
      on their order. */
  lemma OrderDoesNotMatter(a: seq<string>, b: seq<string>, s: Summary)
    requires multiset(a) == multiset(b) && Tally(a, BailLine) == 0
    ensures Parsed(a) == Accepted(s) <==> Parsed(b) == Accepted(s)
  {
    TallyPermutes(a, b, BailLine);
    TallyPermutes(a, b, PlanLine);
    TallyPermutes(a, b, OkLine);
    TallyPermutes(a, b, NotOkLine);
    AcceptedMeaning(a, s);
    AcceptedMeaning(b, s);
    forall l
      ensures l in a <==> l in b
    {
      assert l in multiset(a) <==> l in multiset(b);
    }
  }

  lemma {:induction false} RunSplits(st: State, a: seq<string>, b: seq<string>)
    ensures Run(st, a + b) == Run(Run(st, a), b)
    decreases |a|
  {
    if a == [] {
      assert a + b == b;
    } else {
      assert (a + b)[1..] == a[1..] + b;
      RunSplits(Step(st, a[0]), a[1..], b);
    }
  }

  /** The first bail-out line ends the matter: the lines before it decide, unless they hold
      a flaw, that the program bailed out, and the lines after it do not count. */
  lemma BailOutIsFinal(before: seq<string>, bail: string, after: seq<string>)
    requires Tally(before, BailLine) == 0 && ClassOf(bail) == BailLine
    ensures Run(START, before).Running? ==> Parsed(before + [bail] + after) == Accepted(NewBailedOut())
    ensures Run(START, before).Flawed? ==> Parsed(before + [bail] + after) == Rejected(Run(START, before).flaw)
    ensures !Run(START, before).Bailed?
  {
    RunCounts(START, before);
    RunSplits(START, before, [bail] + after);
    assert before + [bail] + after == before + ([bail] + after);
    assert ([bail] + after)[1..] == after;
    SettledStays(Step(Run(START, before), bail), after);
  }

  // ---------- Verdicts ----------

  function FlawText(flaw: Flaw): string {
    match flaw
    case NumberTooLarge => "Invalid value"
    case DuplicatePlan => "Found duplicate plan"
    case SkippedPlanNotEmpty => "Skipped plan must be 1..0"
    case ReversedPlan => "Found reversed plan"
    case NoPlan => "Output did not contain any TAP plan and the program did not bail out"
    case CountMismatch => "Reported plan differs from actual executed tests"
  }

  /** The verdict for a program that exited with output that could be parsed. */
  function TapToResult(summary: Summary, code: int): (r: TestResult)
    requires WellMade(summary)
    ensures r.HasDueReason()
    ensures r.kind == Skipped <==> !summary.bailedOut && summary.plan_ == ALL_SKIPPED
    ensures r.kind == Failed <==> summary.bailedOut || (summary.plan_ != ALL_SKIPPED && summary.notOk > 0)
    ensures r.kind == Passed ==> code == EXIT_SUCCESS
    ensures r.kind != ExpectedFailure
  {
    if summary.bailedOut then TestResult(Failed, "Bailed out")
    else if summary.ThePlan() == ALL_SKIPPED then TestResult(Skipped, summary.AllSkippedReason())
    else if summary.NotOkCount() == 0 then
      if code == EXIT_SUCCESS then TestResult(Passed, "")
      else
        TestResult(Broken,
                   "Dubious test program: reported all tests as passed but returned exit code " + IntText(code))
    else
      TestResult(Failed,
                 Decimal(summary.NotOkCount()) + " of "
                 + Decimal((summary.OkCount() + summary.NotOkCount()) % SIZE_LIMIT) + " tests failed")
  }

  /** The verdict from the exit status and the output file; the file may be missing. */
  function Computed(status: Option<ExitStatus>, output: Option<string>): (r: TestResult)
    ensures r.HasDueReason()
  {
    match status
    case None => TestResult(Broken, "Test case timed out")
    case Some(Signaled(signal, _)) => TestResult(Broken, "Received signal " + IntText(signal))
    case Some(Exited(code)) =>
      if output.None? then
        TestResult(Broken, "TAP test program yielded invalid data: Failed to open TAP output file")
      else
        match Parsed(Lines(output.value))
        case Rejected(flaw) => TestResult(Broken, "TAP test program yielded invalid data: " + FlawText(flaw))
        case Accepted(summary) => TapToResult(summary, code)
  }

  method ComputeResult(status: Option<ExitStatus>, output: Option<string>) returns (r: TestResult)
    requires output.Some? ==> |output.value| < SIZE_LIMIT - 1
    ensures r == Computed(status, output)
  {
    if status.None? {
      return TestResult(Broken, "Test case timed out");
    }
    if status.value.Signaled? {
      return TestResult(Broken, "Received signal " + IntText(status.value.signal));
    }
    if output.None? {
      return TestResult(Broken, "TAP test program yielded invalid data: Failed to open TAP output file");
    }
    var outcome := Parse(output.value);
    match outcome {
      case Accepted(summary) => r := TapToResult(summary, status.value.code);
      case Rejected(flaw) => r := TestResult(Broken, "TAP test program yielded invalid data: " + FlawText(flaw));
    }
  }

  lemma {:induction false} BailedNeverRuns(st: State, lines: seq<string>)
    requires Tally(lines, BailLine) > 0
    ensures !Run(st, lines).Running?
    decreases |lines|
  {
    hide ClassOf, PlanOf, PlanNumbers, SkipText;
    if ClassOf(lines[0]) == BailLine {
      SettledStays(Step(st, lines[0]), lines[1..]);
    } else {
      BailedNeverRuns(Step(st, lines[0]), lines[1..]);
    }
  }

  /** Exactly one plan a..b with a <= b, no bail-out, and b - a + 1 result lines.  The one
      exception is the plan that announces 2^64 tests, which is read as none. */
  predicate Counted(lines: seq<string>) {
    && Tally(lines, BailLine) == 0 && Tally(lines, PlanLine) == 1
    && forall l :: l in lines && ClassOf(l) == PlanLine ==>
         match PlanOf(l)
         case Bad(_) => false
         case Read(plan, _) =>
           && plan.first <= plan.second
           && Tally(lines, OkLine) + Tally(lines, NotOkLine) ==
              if plan == Plan(0, SIZE_LIMIT - 1) then 0 else plan.second - plan.first + 1
  }

  /** The only plan is 1..0, with that reason, and there is no bail-out. */
  predicate SkipsAll(lines: seq<string>, reason: string) {
    Tally(lines, BailLine) == 0 && Tally(lines, PlanLine) == 1 && AllRead(lines, ALL_SKIPPED, reason)
  }

  /** Line `k` is the first bail-out, with at most one plan before it, and that sound. */
  predicate BailsAt(lines: seq<string>, k: nat) {
    && k < |lines| && ClassOf(lines[k]) == BailLine
    && Tally(lines[..k], BailLine) == 0 && Tally(lines[..k], PlanLine) <= 1 && Sound(lines[..k])
  }

  ghost predicate BailsOut(lines: seq<string>) {
    exists k: nat :: BailsAt(lines, k)
  }

  ghost predicate Skips(lines: seq<string>) {
    exists reason :: SkipsAll(lines, reason)
  }

  /** The program exited, and this is what it wrote. */
  predicate Wrote(status: Option<ExitStatus>, output: Option<string>, lines: seq<string>) {
    status.Some? && status.value.Exited? && output.Some? && lines == Lines(output.value)
  }

  lemma {:induction false} FirstBail(lines: seq<string>) returns (k: nat)
    requires Tally(lines, BailLine) > 0
    ensures k < |lines| && ClassOf(lines[k]) == BailLine && Tally(lines[..k], BailLine) == 0
  {
    if ClassOf(lines[0]) == BailLine {
      k := 0;
    } else {
      k := FirstBail(lines[1..]);
      assert lines[..k + 1][1..] == lines[1..][..k];
      k := k + 1;
    }
  }

  lemma BailParsed(lines: seq<string>, k: nat)
    requires k < |lines| && ClassOf(lines[k]) == BailLine && Tally(lines[..k], BailLine) == 0
    ensures Parsed(lines) == Accepted(NewBailedOut()) <==> BailsAt(lines, k)
    ensures Parsed(lines).Accepted? ==> Parsed(lines) == Accepted(NewBailedOut())
  {
    hide ClassOf, Run, Tally, Parsed, Sound;
    assert lines == lines[..k] + [lines[k]] + lines[k + 1..];
    BailOutIsFinal(lines[..k], lines[k], lines[k + 1..]);
    RunCounts(START, lines[..k]);
  }

  /** The only way to be accepted with a bail-out. */
  lemma BailMeaning(lines: seq<string>)
    ensures BailsOut(lines) <==> Parsed(lines) == Accepted(NewBailedOut())
    ensures Tally(lines, BailLine) > 0 && !BailsOut(lines) ==> Parsed(lines).Rejected?
    ensures BailsOut(lines) ==> Tally(lines, BailLine) > 0
  {
    hide ClassOf, Run, Parsed, Sound;
    if Tally(lines, BailLine) > 0 {
      var k := FirstBail(lines);
      BailParsed(lines, k);
    } else {
      AcceptedMeaning(lines, NewBailedOut());
    }
    forall k: nat | BailsAt(lines, k)
      ensures Parsed(lines) == Accepted(NewBailedOut()) && Tally(lines, BailLine) > 0
    {
      BailParsed(lines, k);
      TallyMember(lines, k);
    }
  }

  lemma SkipMeaning(lines: seq<string>, reason: string)
    ensures SkipsAll(lines, reason) <==> Parsed(lines) == Accepted(NewAllSkipped(reason))
  {
    hide ClassOf, Run, Parsed, PlanOf, PlanNumbers;
    if Tally(lines, BailLine) > 0 {
      BailMeaning(lines);
    } else {
      AcceptedMeaning(lines, NewAllSkipped(reason));
      if Tally(lines, PlanLine) == 1 {
        var line := SomePlanLine(lines);
      }
    }
  }

  lemma CountedIsAccepted(lines: seq<string>)
    requires Counted(lines) && |lines| < SIZE_LIMIT
    ensures Parsed(lines).Accepted?
    ensures var s := Parsed(lines).summary;
      && !s.bailedOut && s.plan_ != ALL_SKIPPED && s.ok == Tally(lines, OkLine) && s.notOk == Tally(lines, NotOkLine)
  {
    hide ClassOf, Run, Parsed, PlanOf, PlanNumbers, Tally;
    ResultsFit(lines);
    var line := SomePlanLine(lines);
    var plan := PlanOf(line).plan;
    AnnouncedIsExact(plan);
    SamePlan(lines, line);
    AcceptedMeaning(lines, Summary(false, plan, PlanOf(line).reason, Tally(lines, OkLine), Tally(lines, NotOkLine)));
  }

  /** With one plan line there is one plan. */
  lemma SamePlan(lines: seq<string>, line: string)
    requires Tally(lines, PlanLine) == 1 && line in lines && ClassOf(line) == PlanLine
    ensures forall l :: l in lines && ClassOf(l) == PlanLine ==> l == line
  {
    hide ClassOf, Tally;
    var k :| 0 <= k < |lines| && lines[k] == line;
    WithoutLine(lines, k, PlanLine);
    var rest := lines[..k] + lines[k + 1..];
    NoPlanInRest(rest);
    assert lines == lines[..k] + [line] + lines[k + 1..];
    assert forall l :: l in lines && l != line ==> l in rest;
  }

  lemma AcceptedIsCounted(lines: seq<string>, s: Summary)
    requires Parsed(lines) == Accepted(s) && !s.bailedOut && s.plan_ != ALL_SKIPPED
    requires |lines| < SIZE_LIMIT && Tally(lines, BailLine) == 0
    ensures Counted(lines)
  {
    hide ClassOf, Run, Parsed, PlanOf, PlanNumbers, Tally;
    ResultsFit(lines);
    AcceptedMeaning(lines, s);
    var line := SomePlanLine(lines);
    AnnouncedIsExact(s.plan_);
  }

  lemma CountMeaning(lines: seq<string>)
    requires |lines| < SIZE_LIMIT
    ensures Counted(lines) <==>
      Parsed(lines).Accepted? && !Parsed(lines).summary.bailedOut && Parsed(lines).summary.plan_ != ALL_SKIPPED
    ensures Counted(lines) ==>
      && Parsed(lines).summary.ok == Tally(lines, OkLine) && Parsed(lines).summary.notOk == Tally(lines, NotOkLine)
      && Tally(lines, OkLine) + Tally(lines, NotOkLine) < SIZE_LIMIT
  {
    hide ClassOf, Run, Parsed, PlanOf, PlanNumbers, Tally, BailsOut;
    ResultsFit(lines);
    BailMeaning(lines);
    if Counted(lines) {
      CountedIsAccepted(lines);
    }
    if Parsed(lines).Accepted? && !Parsed(lines).summary.bailedOut && Parsed(lines).summary.plan_ != ALL_SKIPPED {
      AcceptedIsCounted(lines, Parsed(lines).summary);
    }
  }

  lemma SummaryShape(lines: seq<string>)
    requires Parsed(lines).Accepted?
    ensures var s := Parsed(lines).summary;
      && (s.bailedOut ==> s == NewBailedOut())
      && (!s.bailedOut ==> if s.plan_ == ALL_SKIPPED then s == NewAllSkipped(s.reason) else s.reason == "")
  {
    RunStaysSane(START, lines);
  }

  lemma SkippedBy(lines: seq<string>, reason: string)
    requires SkipsAll(lines, reason)
    ensures Skips(lines)
  {
  }

  /** Output is rejected exactly if none of the three readings is possible. */
  lemma Readings(lines: seq<string>)
    requires |lines| < SIZE_LIMIT
    ensures Parsed(lines).Accepted? <==> BailsOut(lines) || Skips(lines) || Counted(lines)
  {
    hide ClassOf, Run, Parsed, PlanOf, PlanNumbers, Tally, BailsOut, SkipsAll, Counted;
    BailMeaning(lines);
    CountMeaning(lines);
    forall reason {
      SkipMeaning(lines, reason);
    }
    if Parsed(lines).Accepted? {
      SummaryShape(lines);
      var s := Parsed(lines).summary;
      if !s.bailedOut && s.plan_ == ALL_SKIPPED {
        assert SkipsAll(lines, s.reason);
      }
    }
  }

  lemma SummaryVerdict(lines: seq<string>, s: Summary, code: int)
    requires |lines| < SIZE_LIMIT && Parsed(lines) == Accepted(s)
    ensures WellMade(s)
    ensures var r := TapToResult(s, code);
      var good, bad := Tally(lines, OkLine), Tally(lines, NotOkLine);
      && (BailsOut(lines) ==> r == TestResult(Failed, "Bailed out"))
      && (s.plan_ == ALL_SKIPPED && !s.bailedOut ==> r == TestResult(Skipped, s.reason))
      && (Counted(lines) && bad > 0 ==>
            r == TestResult(Failed, Decimal(bad) + " of " + Decimal(good + bad) + " tests failed"))
      && (Counted(lines) && bad == 0 ==> if code == 0 then r == TestResult(Passed, "") else r.kind == Broken)
  {
    hide ClassOf, Run, Parsed, Tally, Decimal, IntText, BailsOut, Counted;
    BailMeaning(lines);
    CountMeaning(lines);
    SummaryShape(lines);
  }

  /** The verdict for every exit status and every output. */
  lemma VerdictMeaning(status: Option<ExitStatus>, output: Option<string>)
    requires output.Some? ==> |output.value| < SIZE_LIMIT
    ensures var r := Computed(status, output);
      if !Wrote(status, output, if output.Some? then Lines(output.value) else []) then r.kind == Broken
      else
        var lines := Lines(output.value);
        var good, bad := Tally(lines, OkLine), Tally(lines, NotOkLine);
        && (BailsOut(lines) ==> r == TestResult(Failed, "Bailed out"))
        && (forall reason :: SkipsAll(lines, reason) ==> r == TestResult(Skipped, reason))
        && (Counted(lines) && bad > 0 ==>
              r == TestResult(Failed, Decimal(bad) + " of " + Decimal(good + bad) + " tests failed"))
        && (Counted(lines) && bad == 0 ==> if Succeeded(status) then r == TestResult(Passed, "") else r.kind == Broken)
        && (!BailsOut(lines) && !Skips(lines) && !Counted(lines) ==> r.kind == Broken)
  {
    hide Parsed, BailsOut, Skips, Counted, Tally, Decimal, IntText, TapToResult;
    if output.Some? {
      var lines := Lines(output.value);
      Readings(lines);
      if status.Some? && status.value.Exited? && Parsed(lines).Accepted? {
        SummaryVerdict(lines, Parsed(lines).summary, status.value.code);
      }
      forall reason | SkipsAll(lines, reason)
        ensures Skips(lines) && Parsed(lines) == Accepted(NewAllSkipped(reason))
      {
        SkipMeaning(lines, reason);
        SkippedBy(lines, reason);
      }
    }
  }

  /** Exactly when a TAP program passes, is skipped, fails or is broken; it is good exactly if
      it passed or was skipped. */
  lemma KindMeaning(status: Option<ExitStatus>, output: Option<string>)
    requires output.Some? ==> |output.value| < SIZE_LIMIT
    ensures var kind := Computed(status, output).kind;
      var lines := if output.Some? then Lines(output.value) else [];
      var bad := Tally(lines, NotOkLine);
      var wrote := Wrote(status, output, lines);
      && (kind == Passed <==> wrote && Succeeded(status) && Counted(lines) && bad == 0)
      && (kind == Skipped <==> wrote && Skips(lines))
      && (kind == Failed <==> wrote && (BailsOut(lines) || (Counted(lines) && bad > 0)))
      && (kind == Broken <==>
            || !wrote
            || (!BailsOut(lines) && !Skips(lines) && !Counted(lines))
            || (!Succeeded(status) && Counted(lines) && bad == 0))
      && (Computed(status, output).Good() <==> kind == Passed || kind == Skipped)
  {
    hide Computed, Counted, BailsAt, SkipsAll, Tally, Decimal;
    VerdictMeaning(status, output);
    if output.Some? {
      Apart(Lines(output.value));
    }
  }

  /** No output can be read in two ways. */
  lemma Apart(lines: seq<string>)
    requires |lines| < SIZE_LIMIT
    ensures !(BailsOut(lines) && Skips(lines)) && !(BailsOut(lines) && Counted(lines)) && !(Skips(lines) && Counted(lines))
  {
    hide BailsOut, SkipsAll, Counted, Parsed, Tally, ClassOf;
    BailMeaning(lines);
    CountMeaning(lines);
    forall reason {
      SkipMeaning(lines, reason);
    }
  }

  /** Exactly when a TAP program passes. */
  lemma PassedMeaning(status: Option<ExitStatus>, output: Option<string>)
    requires output.Some? ==> |output.value| < SIZE_LIMIT
    ensures Computed(status, output).kind == Passed <==>
      && Succeeded(status) && output.Some?
      && Counted(Lines(output.value)) && Tally(Lines(output.value), NotOkLine) == 0
    ensures Computed(status, output).kind == Passed ==> Computed(status, output).reason == ""
  {
    hide Computed, Counted, Tally, Lines;
    KindMeaning(status, output);
  }

  lemma {:induction false} ResultsFit(lines: seq<string>)
    ensures Tally(lines, OkLine) + Tally(lines, NotOkLine) <= |lines|
  {
    if lines != [] {
      ResultsFit(lines[1..]);
    }
  }

  // ---------- The plan that wraps ----------

  function Printed(plan: Plan): string {
    Decimal(plan.first) + ".." + Decimal(plan.second)
  }

  lemma PrintedCharacters(plan: Plan)
    ensures var text := Printed(plan);
      text != "" && IsDigit(text[0]) && forall i :: 0 <= i < |text| ==> IsDigit(text[i]) || text[i] == '.'
  {
  }

  lemma NumbersAreNotSkips(text: string)
    requires forall i :: 0 <= i < |text| ==> IsDigit(text[i]) || text[i] == '.'
    ensures SkipText(text).None?
  {
    hide CString, FindFold, TrimBlanks;
    var s := CString(text);
    forall i | 0 <= i <= |s|
      ensures !StartsWithFold(s[i..], "skip")
    {
      if i < |s| {
        assert s[i..][0] == s[i] == text[i];
        assert LowerChar(text[i]) == text[i];
      }
    }
    assert FindFold(s, "skip").None?;
  }

  lemma PrintedNumbers(plan: Plan)
    requires plan.first < SIZE_LIMIT && plan.second < SIZE_LIMIT
    ensures PlanNumbers(Printed(plan)) == Numbers(plan)
  {
    hide CString, DigitPrefix, Decimal, Value;
    var text := Printed(plan);
    var a, b := Decimal(plan.first), Decimal(plan.second);
    PrintedCharacters(plan);
    CStringOfText(text);
    assert text == a + (".." + b);
    DigitsEndThere(a, ".." + b);
    assert text[..|a|] == a && text[|a|..] == ".." + b;
    assert (".." + b)[2..] == b && b + "" == b;
    DigitsEndThere(b, "");
    assert b[..|b|] == b;
  }

  /** A printed plan is read back. */
  lemma PlanRoundTrip(plan: Plan)
    requires plan.first <= plan.second < SIZE_LIMIT
    ensures ClassOf(Printed(plan)) == PlanLine && PlanOf(Printed(plan)) == Read(plan, "")
  {
    hide CString, SkipText, PlanNumbers, Printed;
    var text := Printed(plan);
    PrintedCharacters(plan);
    CStringOfText(text);
    PrintedNumbers(plan);
    NumbersAreNotSkips(text);
    assert ResultMark(text).None?;
    assert !StartsWith(text, "Bail out!");
  }

  /** A program that announces 2^64 tests and runs none passes. */
  lemma AnnouncingTooMany()
    ensures Computed(Some(Exited(0)), Some(Printed(Plan(0, SIZE_LIMIT - 1)))) == TestResult(Passed, "")
  {
    hide Printed, Lines, ClassOf, PlanOf, PlanNumbers, SkipText;
    var plan := Plan(0, SIZE_LIMIT - 1);
    var text := Printed(plan);
    PrintedCharacters(plan);
    PlanRoundTrip(plan);
    OneLine(text);
    assert Step(START, text) == Running(Some(plan), "", 0, 0);
    assert Run(START, [text]) == Run(Step(START, text), []);
    AnnouncedIsExact(plan);
  }
}
