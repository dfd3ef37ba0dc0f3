/** The result file of an ATF test case and how it is reinterpreted by the way the test case
    ended (engine/atf_result.cpp). */
module Atf {
  import opened Results
  import opened Text

  datatype Kind =
    | Broken | ExpectedDeath | ExpectedExit | ExpectedFailure | ExpectedSignal | ExpectedTimeout
    | Failed | Passed | Skipped

  datatype AtfResult = AtfResult(kind: Kind, argument: Option<int>, reason: Option<string>)

  /** `OutOfRange` is the exception of `std::string::substr`, which nothing catches. */
  datatype Parse = Parsed(result: AtfResult) | FormatError(what: string) | OutOfRange

  // ---------- Reading the file ----------

  const MAGIC := "<<NEWLINE>>"

  function Merged(lines: seq<string>): string {
    if lines == [] then ""
    else if |lines| == 1 then lines[0]
    else Merged(lines[..|lines| - 1]) + MAGIC + lines[|lines| - 1]
  }

  /** A text without any newline counts as no line at all. */
  function LineCount(content: string): nat {
    if '\n' in content then |Lines(content)| else 0
  }

  lemma NextLine(input: string)
    requires input != ""
    ensures var end := LineEnd(input);
      Lines(input) == if end < |input| then [input[..end]] + Lines(input[end + 1..]) else [input]
  {
    hide LineEnd;
    assert input[..|input|] == input;
  }

  lemma MergedNext(lines: seq<string>, line: string)
    ensures Merged(lines + [line]) == if lines == [] then line else Merged(lines) + MAGIC + line
  {
  }

  method ReadLines(content: string) returns (count: nat, merged: string)
    ensures count == LineCount(content) && merged == Merged(Lines(content))
  {
    hide Lines, Merged;
    count, merged := 0, "";
    var input, good := content, true;
    ghost var seen: seq<string> := [];
    NoLines();
    while good
      invariant seen + Lines(input) == Lines(content) && merged == Merged(seen)
      invariant good ==> count == |seen| && (count > 0 <==> input != content) && (count > 0 ==> '\n' in content)
      invariant !good ==> count == LineCount(content) && seen == Lines(content)
      decreases |input|, good
    {
      NoLines();
      var end := LineEnd(input);
      good := end < |input|;
      if input != "" {
        NextLine(input);
        var line := input[..end];
        assert good || line == input;
        merged := if count == 0 then line else merged + MAGIC + line;
        MergedNext(seen, line);
        if good || count > 0 {
          count := count + 1;
        }
        seen := seen + [line];
        input := if good then input[end + 1..] else "";
      }
    }
  }

  lemma NoLines()
    ensures Lines("") == [] && Merged([]) == ""
  {
  }

  /** The content is one line that ends in a newline, with nothing after it. */
  predicate IsOneLine(content: string) {
    content != "" && content[|content| - 1] == '\n' && '\n' !in content[..|content| - 1]
  }

  lemma {:induction false} OneLineCounts(content: string)
    ensures LineCount(content) == 1 <==> IsOneLine(content)
    ensures IsOneLine(content) ==> Merged(Lines(content)) == content[..|content| - 1]
  {
    var end := LineEnd(content);
    if end < |content| {
      NextLine(content);
      if end == |content| - 1 {
        assert content[end + 1..] == "";
      } else {
        assert content[..|content| - 1][end] == '\n';
        assert Lines(content[end + 1..]) != [];
      }
    }
  }

  // ---------- Parsing ----------

  predicate IsStatusChar(c: char) {
    'a' <= c <= 'z' || c == '_'
  }

  function StatusLength(line: string): (n: nat)
    ensures n <= |line| && forall i :: 0 <= i < n ==> IsStatusChar(line[i])
    ensures n < |line| ==> !IsStatusChar(line[n])
  {
    if line != "" && IsStatusChar(line[0]) then 1 + StatusLength(line[1..]) else 0
  }

  function KindName(kind: Kind): string {
    match kind
    case Broken => "broken"
    case ExpectedDeath => "expected_death"
    case ExpectedExit => "expected_exit"
    case ExpectedFailure => "expected_failure"
    case ExpectedSignal => "expected_signal"
    case ExpectedTimeout => "expected_timeout"
    case Failed => "failed"
    case Passed => "passed"
    case Skipped => "skipped"
  }

  function KindOfName(name: string): (kind: Option<Kind>)
    ensures kind.Some? ==> KindName(kind.value) == name
  {
    if name == "broken" then Some(Kind.Broken)
    else if name == "expected_death" then Some(ExpectedDeath)
    else if name == "expected_exit" then Some(ExpectedExit)
    else if name == "expected_failure" then Some(Kind.ExpectedFailure)
    else if name == "expected_signal" then Some(ExpectedSignal)
    else if name == "expected_timeout" then Some(ExpectedTimeout)
    else if name == "failed" then Some(Kind.Failed)
    else if name == "passed" then Some(Kind.Passed)
    else if name == "skipped" then Some(Kind.Skipped)
    else None
  }

  function ParseWithoutReason(kind: Kind, rest: string): Parse {
    if rest != "" then FormatError(KindName(kind) + " cannot have a reason")
    else Parsed(AtfResult(kind, None, None))
  }

  function ParseWithReason(kind: Kind, rest: string): Parse {
    if |rest| < 3 || rest[..2] != ": " then FormatError(KindName(kind) + " must be followed by ': <reason>'")
    else Parsed(AtfResult(kind, None, Some(rest[2..])))
  }

  const INT_MIN: int := -0x8000_0000
  const INT_MAX: int := 0x7fff_ffff

  predicate IsInt(i: int) {
    INT_MIN <= i <= INT_MAX
  }

  /** `text::to_type< int >`: a stream skips white space, but a leading blank is refused. */
  function ParseInt(s: string): (i: Option<int>)
    ensures i.Some? ==> IsInt(i.value)
  {
    if s == "" || s[0] == ' ' then None
    else
      var t := SkipSpace(s);
      var negative := StartsWith(t, "-");
      var digits := if negative || StartsWith(t, "+") then t[1..] else t;
      if digits == "" || !AllDigits(digits) then None
      else
        var magnitude: int := Value(digits);
        var value := if negative then -magnitude else magnitude;
        if IsInt(value) then Some(value) else None
  }

  /** The first colon or opening parenthesis. */
  function FindDelimiter(s: string): (at: Option<nat>)
    ensures at.Some? ==> at.value < |s| && (s[at.value] == ':' || s[at.value] == '(')
    ensures at.Some? ==> forall i :: 0 <= i < at.value ==> s[i] != ':' && s[i] != '('
    ensures at.None? ==> forall i :: 0 <= i < |s| ==> s[i] != ':' && s[i] != '('
  {
    if s == "" then None
    else if s[0] == ':' || s[0] == '(' then Some(0)
    else
      match FindDelimiter(s[1..])
      case None => None
      case Some(i) => Some(i + 1)
  }

  /** The first "):". */
  function FindClose(s: string): (at: Option<nat>)
    ensures at.Some? ==> at.value + 2 <= |s| && s[at.value] == ')' && s[at.value + 1] == ':'
    ensures at.Some? ==> forall i :: 0 <= i < at.value ==> !(s[i] == ')' && s[i + 1] == ':')
    ensures at.None? ==> forall i :: 0 <= i < |s| - 1 ==> !(s[i] == ')' && s[i + 1] == ':')
  {
    if |s| < 2 then None
    else if s[0] == ')' && s[1] == ':' then Some(0)
    else
      match FindClose(s[1..])
      case None => None
      case Some(i) => Some(i + 1)
  }

  /** What follows the delimiter at `delim`, which is followed by one more character. */
  function ReasonAfter(kind: Kind, argument: Option<int>, rest: string, delim: nat): Parse {
    if delim + 2 > |rest| then OutOfRange
    else Parsed(AtfResult(kind, argument, Some(rest[delim + 2..])))
  }

  /** The argument is `text`, and the reason follows the delimiter at `delim`. */
  function WithArgument(kind: Kind, rest: string, text: string, delim: nat): Parse {
    match ParseInt(text)
    case None =>
      FormatError("Invalid integer argument '" + text + "' to '" + KindName(kind) + "' test case result")
    case Some(argument) => ReasonAfter(kind, Some(argument), rest, delim)
  }

  /** When "):" is missing, the end of the argument is the largest `std::size_t`, so that the
      argument is all that follows and the delimiter moves to the start of `rest`. */
  function ParseWithReasonAndArg(kind: Kind, rest: string): Parse {
    match FindDelimiter(rest)
    case None =>
      FormatError("Invalid format for '" + KindName(kind)
                  + "' test case result; must be followed by '[(num)]: <reason>' but found '" + rest + "'")
    case Some(delim) =>
      if rest[delim] == ':' then ReasonAfter(kind, None, rest, delim)
      else
        var after := rest[delim + 1..];
        var close := FindClose(after);
        var text := if close.Some? then after[..close.value] else after;
        WithArgument(kind, rest, text, if close.Some? then delim + 1 + close.value + 1 else 0)
  }

  function ParseRest(kind: Kind, rest: string): Parse {
    match kind
    case Passed => ParseWithoutReason(kind, rest)
    case ExpectedExit => ParseWithReasonAndArg(kind, rest)
    case ExpectedSignal => ParseWithReasonAndArg(kind, rest)
    case _ => ParseWithReason(kind, rest)
  }

  /** A single line without its newline. */
  function ParseLine(line: string): Parse {
    var n := StatusLength(line);
    var rest := line[n..];
    match KindOfName(line[..n])
    case None => FormatError("Unknown test result '" + line[..n] + "'")
    case Some(kind) => ParseRest(kind, rest)
  }

  function ParseData(count: nat, data: string): Parse {
    if count == 0 then FormatError("Empty test result or no new line")
    else if count > 1 then FormatError("Test result contains multiple lines: " + data)
    else ParseLine(data)
  }

  function ParseContent(content: string): Parse {
    ParseData(LineCount(content), Merged(Lines(content)))
  }

  /** What a reported result looks like: a passed result has no reason and every other one has;
      the reason is not empty unless the result may carry an argument. */
  predicate WellFormed(r: AtfResult) {
    var mayHaveArgument := r.kind.ExpectedExit? || r.kind.ExpectedSignal?;
    && (r.kind.Passed? <==> r.reason.None?)
    && (r.argument.Some? ==> mayHaveArgument && IsInt(r.argument.value))
    && (r.reason == Some("") ==> mayHaveArgument)
  }

  lemma ParsedRestIsWellFormed(kind: Kind, rest: string)
    ensures ParseRest(kind, rest).Parsed? ==> WellFormed(ParseRest(kind, rest).result)
  {
    hide ParseInt, FindClose, FindDelimiter, KindName;
  }

  lemma ParsedLineIsWellFormed(line: string)
    ensures ParseLine(line).Parsed? ==> WellFormed(ParseLine(line).result)
  {
    hide ParseRest, KindOfName, KindName;
    var n := StatusLength(line);
    if KindOfName(line[..n]).Some? {
      ParsedRestIsWellFormed(KindOfName(line[..n]).value, line[n..]);
    }
  }

  lemma ParsedIsWellFormed(content: string)
    ensures ParseContent(content).Parsed? ==> WellFormed(ParseContent(content).result) && IsOneLine(content)
  {
    hide ParseLine, Lines, Merged;
    OneLineCounts(content);
    ParsedLineIsWellFormed(Merged(Lines(content)));
  }

  // ---------- Printing ----------

  function Argument(argument: Option<int>): string {
    if argument.None? then "" else "(" + IntText(argument.value) + ")"
  }

  /** What follows the name of the status. */
  function Tail(r: AtfResult): string {
    if r.reason.None? then "" else Argument(r.argument) + ": " + r.reason.value
  }

  /** The one-line format in which test programs report. */
  function Print(r: AtfResult): string {
    KindName(r.kind) + Tail(r) + "\n"
  }

  predicate Printable(r: AtfResult) {
    WellFormed(r) && (r.reason.Some? ==> '\n' !in r.reason.value)
  }

  lemma {:induction false} StatusEndsThere(name: string, rest: string)
    requires forall i :: 0 <= i < |name| ==> IsStatusChar(name[i])
    requires rest == "" || !IsStatusChar(rest[0])
    ensures StatusLength(name + rest) == |name|
  {
    if name == "" {
      assert name + rest == rest;
    } else {
      assert (name + rest)[1..] == name[1..] + rest;
      StatusEndsThere(name[1..], rest);
    }
  }

  lemma IntRoundTrip(i: int)
    requires IsInt(i)
    ensures ParseInt(IntText(i)) == Some(i)
  {
    hide Decimal, Value;
    var s := IntText(i);
    var digits := if i < 0 then Decimal(-i) else Decimal(i);
    assert s == if i < 0 then "-" + digits else digits;
    assert i < 0 ==> s[1..] == digits;
    assert IsDigit(digits[0]);
    assert s[0] == if i < 0 then '-' else digits[0];
    assert SkipSpace(s) == s;
  }

  lemma IntCharacters(i: int)
    ensures forall k :: 0 <= k < |IntText(i)| ==> IsDigit(IntText(i)[k]) || IntText(i)[k] == '-'
  {
  }

  lemma NameIsStatus(kind: Kind)
    ensures forall i :: 0 <= i < |KindName(kind)| ==> IsStatusChar(KindName(kind)[i])
    ensures KindOfName(KindName(kind)) == Some(kind)
    ensures KindName(kind) != ""
  {
  }

  lemma {:induction false} CloseIsThere(a: string, b: string)
    requires forall i :: 0 <= i < |a| ==> a[i] != ')'
    ensures FindClose(a + "):" + b) == Some(|a|)
  {
    var s := a + "):" + b;
    assert s[|a|] == ')' && s[|a| + 1] == ':';
    assert forall i :: 0 <= i < |a| ==> s[i] == a[i];
  }

  lemma ArgumentRoundTrip(kind: Kind, argument: Option<int>, reason: string)
    requires argument.Some? ==> IsInt(argument.value)
    ensures ParseWithReasonAndArg(kind, Argument(argument) + ": " + reason)
      == Parsed(AtfResult(kind, argument, Some(reason)))
  {
    hide IntText, ParseInt, FindClose;
    var rest := Argument(argument) + ": " + reason;
    if argument.None? {
      assert rest == ": " + reason && rest[2..] == reason;
    } else {
      var digits := IntText(argument.value);
      IntRoundTrip(argument.value);
      IntCharacters(argument.value);
      assert rest == "(" + (digits + "):" + (" " + reason));
      assert rest[1..] == digits + "):" + (" " + reason);
      CloseIsThere(digits, " " + reason);
      assert rest[1..][..|digits|] == digits;
      assert rest[|digits| + 4..] == reason;
    }
  }

  /** The line of a printed result. */
  function Line(r: AtfResult): string {
    KindName(r.kind) + Tail(r)
  }

  lemma ParseRestRoundTrip(r: AtfResult)
    requires WellFormed(r)
    ensures ParseRest(r.kind, Tail(r)) == Parsed(r)
    ensures Tail(r) == "" || Tail(r)[0] == '(' || Tail(r)[0] == ':'
  {
    hide KindName, IntText, ParseWithReasonAndArg;
    if r.kind.ExpectedExit? || r.kind.ExpectedSignal? {
      ArgumentRoundTrip(r.kind, r.argument, r.reason.value);
    } else if r.reason.Some? {
      assert Tail(r) == ": " + r.reason.value && Tail(r)[2..] == r.reason.value;
    }
  }

  lemma ParseLineRoundTrip(r: AtfResult)
    requires WellFormed(r)
    ensures ParseLine(Line(r)) == Parsed(r)
  {
    hide KindName, KindOfName, Tail, ParseRest;
    NameIsStatus(r.kind);
    ParseRestRoundTrip(r);
    var name, tail := KindName(r.kind), Tail(r);
    StatusEndsThere(name, tail);
    assert (name + tail)[..|name|] == name && (name + tail)[|name|..] == tail;
  }

  lemma PrintsOneLine(r: AtfResult)
    requires Printable(r)
    ensures Print(r) == Line(r) + "\n" && IsOneLine(Print(r))
  {
    hide IntText;
    NameIsStatus(r.kind);
    if r.argument.Some? {
      IntCharacters(r.argument.value);
    }
    assert Print(r)[..|Print(r)| - 1] == Line(r);
  }

  /** Printing a result and parsing it gives it back. */
  lemma RoundTrip(r: AtfResult)
    requires Printable(r)
    ensures ParseContent(Print(r)) == Parsed(r)
  {
    hide Line, Print, ParseLine, Lines, Merged, LineCount, IsOneLine;
    PrintsOneLine(r);
    OneLineCounts(Print(r));
    assert Print(r)[..|Print(r)| - 1] == Line(r);
    ParseLineRoundTrip(r);
  }

  lemma PlainRest(kind: Kind, rest: string, r: AtfResult)
    requires ParseRest(kind, rest) == Parsed(r) && !r.kind.ExpectedExit? && !r.kind.ExpectedSignal?
    ensures kind == r.kind && r.argument.None?
    ensures rest == if r.reason.None? then "" else ": " + r.reason.value
  {
    hide KindName, ParseInt, FindClose, FindDelimiter;
  }

  lemma PlainLine(line: string, r: AtfResult)
    requires ParseLine(line) == Parsed(r) && !r.kind.ExpectedExit? && !r.kind.ExpectedSignal?
    ensures line == Line(r)
  {
    hide ParseRest, StatusLength, KindName, KindOfName;
    var n := StatusLength(line);
    PlainRest(KindOfName(line[..n]).value, line[n..], r);
    assert line == line[..n] + line[n..];
  }

  /** Where no argument is possible, the printed form is the only text that reads as the
      result. */
  lemma OnlyPrintedForm(content: string, r: AtfResult)
    requires !r.kind.ExpectedExit? && !r.kind.ExpectedSignal?
    ensures ParseContent(content) == Parsed(r) <==> Printable(r) && content == Print(r)
  {
    hide ParseLine, Lines, Merged, Line;
    OneLineCounts(content);
    if ParseContent(content) == Parsed(r) {
      var line := Merged(Lines(content));
      ParsedLineIsWellFormed(line);
      PlainLine(line, r);
      NoNewlineInReason(r, line);
      PrintsOneLine(r);
      assert content == line + "\n";
    } else if Printable(r) && content == Print(r) {
      RoundTrip(r);
    }
  }

  lemma NoNewlineInReason(r: AtfResult, line: string)
    requires line == Line(r) && '\n' !in line
    ensures r.reason.Some? ==> '\n' !in r.reason.value
  {
    hide KindName, IntText, Argument;
    if r.reason.Some? {
      assert line == (KindName(r.kind) + Argument(r.argument) + ": ") + r.reason.value;
    }
  }

  // ---------- Reinterpretation ----------

  function BrokenResult(reason: string): (r: AtfResult)
    requires reason != ""
    ensures WellFormed(r) && r.kind.Broken? && r.argument.None? && r.reason == Some(reason)
  {
    AtfResult(Kind.Broken, None, Some(reason))
  }

  function FailedResult(reason: string): (r: AtfResult)
    requires reason != ""
    ensures WellFormed(r) && r.kind.Failed? && r.argument.None? && r.reason == Some(reason)
  {
    AtfResult(Kind.Failed, None, Some(reason))
  }

  const TIMED_OUT := "Test case body timed out"

  function Apply(r: AtfResult, status: Option<ExitStatus>): AtfResult {
    match status
    case None => if r.kind.ExpectedTimeout? then r else BrokenResult(TIMED_OUT)
    case Some(st) =>
      match r.kind
      case Broken => r
      case ExpectedDeath => r
      case ExpectedExit =>
        if !st.Exited? then BrokenResult("Expected clean exit but " + FormatStatus(st))
        else if r.argument.Some? && r.argument.value != st.code then
          FailedResult("Test case expected to exit with code " + IntText(r.argument.value)
                       + " but got code " + IntText(st.code))
        else r
      case ExpectedFailure =>
        if Succeeded(status) then r
        else BrokenResult("Expected failure should have reported success but " + FormatStatus(st))
      case ExpectedSignal =>
        if !st.Signaled? then BrokenResult("Expected signal but " + FormatStatus(st))
        else if r.argument.Some? && r.argument.value != st.signal then
          FailedResult("Test case expected to receive signal " + IntText(r.argument.value)
                       + " but got " + IntText(st.signal))
        else r
      case ExpectedTimeout => BrokenResult("Expected timeout but " + FormatStatus(st))
      case Failed =>
        if st == Exited(EXIT_FAILURE) then r
        else BrokenResult("Failed test case should have reported failure but " + FormatStatus(st))
      case Passed =>
        if Succeeded(status) then r
        else BrokenResult("Passed test case should have reported success but " + FormatStatus(st))
      case Skipped =>
        if Succeeded(status) then r
        else BrokenResult("Skipped test case should have reported success but " + FormatStatus(st))
  }

  /** The way a test case ended is the way it said it would. */
  predicate Confirmed(r: AtfResult, status: Option<ExitStatus>) {
    match r.kind
    case Broken => status.Some?
    case ExpectedDeath => status.Some?
    case ExpectedTimeout => status.None?
    case Failed => status == Some(Exited(EXIT_FAILURE))
    case ExpectedExit =>
      status.Some? && status.value.Exited? && (r.argument.Some? ==> status.value.code == r.argument.value)
    case ExpectedSignal =>
      status.Some? && status.value.Signaled? && (r.argument.Some? ==> status.value.signal == r.argument.value)
    case _ => Succeeded(status)
  }

  predicate IsBad(r: AtfResult) {
    r.kind.Broken? || r.kind.Failed?
  }

  predicate IsExpected(r: AtfResult) {
    r.kind.ExpectedDeath? || r.kind.ExpectedExit? || r.kind.ExpectedFailure? || r.kind.ExpectedSignal?
    || r.kind.ExpectedTimeout?
  }

  /** A confirmed report stands; a number other than the expected one makes it failed; any
      other report turns into broken, whatever it was. */
  lemma ApplyMeaning(r: AtfResult, status: Option<ExitStatus>)
    requires WellFormed(r)
    ensures WellFormed(Apply(r, status))
    ensures Confirmed(r, status) ==> Apply(r, status) == r && !OtherNumber(r, status)
    ensures !Confirmed(r, status) ==> Apply(r, status).reason != Some("")
    ensures !Confirmed(r, status) ==>
      if OtherNumber(r, status) then Apply(r, status).kind.Failed? else Apply(r, status).kind.Broken?
  {
    hide IntText, FormatStatus, BrokenResult, FailedResult;
  }

  /** The report is of the kind that is failed instead of broken when the number differs. */
  predicate OtherNumber(r: AtfResult, status: Option<ExitStatus>) {
    && status.Some? && r.argument.Some?
    && ((r.kind.ExpectedExit? && status.value.Exited? && status.value.code != r.argument.value)
        || (r.kind.ExpectedSignal? && status.value.Signaled? && status.value.signal != r.argument.value))
  }

  /** Applying a status twice is not the same as applying it once: the failed result of a
      number that differs is itself broken unless the test case exited with the code of a
      failure. */
  lemma ApplyTwice(r: AtfResult, status: Option<ExitStatus>)
    requires WellFormed(r)
    ensures Apply(Apply(r, status), status) == Apply(r, status) <==>
      !OtherNumber(r, status) || status == Some(Exited(EXIT_FAILURE))
  {
    hide IntText, FormatStatus, BrokenResult, FailedResult;
  }

  // ---------- The verdict ----------

  function Externalize(r: AtfResult): (v: TestResult)
    requires WellFormed(r)
    ensures v.kind.Passed? <==> r.kind.Passed?
    ensures v.kind.Skipped? <==> r.kind.Skipped?
    ensures v.kind.Failed? <==> r.kind.Failed?
    ensures v.kind.Broken? <==> r.kind.Broken?
    ensures v.kind.ExpectedFailure? <==> IsExpected(r)
    ensures v.reason == if r.reason.Some? then r.reason.value else ""
  {
    match r.kind
    case Broken => TestResult(ResultType.Broken, r.reason.value)
    case Failed => TestResult(ResultType.Failed, r.reason.value)
    case Passed => TestResult(ResultType.Passed, "")
    case Skipped => TestResult(ResultType.Skipped, r.reason.value)
    case _ => TestResult(ResultType.ExpectedFailure, r.reason.value)
  }

  datatype Calculation = Verdict(verdict: TestResult) | Uncaught

  /** The raw result before it is reinterpreted; `None` if the exception gets through. */
  function Reported(status: Option<ExitStatus>, file: Option<string>): (r: Option<AtfResult>)
    ensures r.Some? ==> WellFormed(r.value)
  {
    if file.None? then
      Some(BrokenResult(if status.None? then "Unknown result"
                        else "Error: Premature exit. Test case " + FormatStatus(status.value)))
    else
      ParsedIsWellFormed(file.value);
      match ParseContent(file.value)
      case OutOfRange => None
      case Parsed(r) => Some(r)
      case FormatError(what) =>
        Some(BrokenResult(if status.None? then "Unknown result"
                          else "Error: " + what + ". Test case " + FormatStatus(status.value)))
  }

  function Calculated(status: Option<ExitStatus>, file: Option<string>): Calculation {
    match Reported(status, file)
    case None => Uncaught
    case Some(r) =>
      ApplyMeaning(r, status);
      Verdict(Externalize(Apply(r, status)))
  }

  method CalculateAtfResult(status: Option<ExitStatus>, file: Option<string>) returns (c: Calculation)
    ensures c == Calculated(status, file)
  {
    hide ParseLine, Lines, Merged, LineCount, Apply, IntText;
    var result := BrokenResult("Unknown result");
    if file.None? {
      if status.Some? {
        result := BrokenResult("Error: Premature exit. Test case " + FormatStatus(status.value));
      }
    } else {
      ParsedIsWellFormed(file.value);
      var count, merged := ReadLines(file.value);
      match ParseData(count, merged) {
        case OutOfRange => return Uncaught;
        case Parsed(r) => result := r;
        case FormatError(what) =>
          if status.Some? {
            result := BrokenResult("Error: " + what + ". Test case " + FormatStatus(status.value));
          }
      }
    }
    ApplyMeaning(result, status);
    result := Apply(result, status);
    return Verdict(Externalize(result));
  }

  /** The file holds a well-formed report. */
  predicate Reports(file: Option<string>, r: AtfResult) {
    file.Some? && ParseContent(file.value) == Parsed(r)
  }

  /** What the file reports, if anything. */
  function Report(file: Option<string>): Option<AtfResult> {
    if file.Some? && ParseContent(file.value).Parsed? then Some(ParseContent(file.value).result) else None
  }

  /** Exactly when the verdict is of each kind.  A confirmed report is the verdict, with the
      reported reason, the five expected kinds as one; a number other than the reported one is
      a failure; everything else is broken. */
  lemma KindMeaning(status: Option<ExitStatus>, file: Option<string>)
    ensures var c, report := Calculated(status, file), Report(file);
      && (report.Some? ==> c.Verdict?)
      && (c.Verdict? ==>
            var kind := c.verdict.kind;
            var stands := report.Some? && Confirmed(report.value, status);
            && (kind.Passed? <==> stands && report.value.kind.Passed?)
            && (kind.Skipped? <==> stands && report.value.kind.Skipped?)
            && (kind.ExpectedFailure? <==> stands && IsExpected(report.value))
            && (kind.Failed? <==>
                  (stands && report.value.kind.Failed?) || (report.Some? && OtherNumber(report.value, status)))
            && (kind.Broken? <==>
                  || report.None?
                  || (stands && report.value.kind.Broken?)
                  || (!stands && !OtherNumber(report.value, status)))
            && (stands ==>
                  c.verdict.reason == if report.value.reason.Some? then report.value.reason.value else ""))
  {
    hide ParseContent, Apply, IntText, FormatStatus;
    var reported := Reported(status, file);
    if reported.Some? {
      ApplyMeaning(reported.value, status);
    }
  }

  /** Exactly when the verdict is good: the file reports a result that is not bad and the
      status confirms it. */
  lemma GoodMeaning(status: Option<ExitStatus>, file: Option<string>)
    ensures var c := Calculated(status, file);
      c.Verdict? && c.verdict.Good() <==>
      exists r :: Reports(file, r) && !IsBad(r) && Confirmed(r, status)
  {
    hide ParseLine, Lines, Merged, LineCount, Apply, IntText;
    var reported := Reported(status, file);
    if reported.Some? {
      ApplyMeaning(reported.value, status);
      assert Reports(file, reported.value) || IsBad(reported.value);
    }
  }

  /** A test case passes exactly if its file holds "passed" and a newline, nothing else, and it
      exits with code 0. */
  lemma PassedMeaning(status: Option<ExitStatus>, file: Option<string>)
    ensures var c := Calculated(status, file);
      c.Verdict? && c.verdict.kind.Passed? <==> Succeeded(status) && file == Some("passed\n")
  {
    hide ParseLine, Lines, Merged, LineCount, Apply, IntText, Print;
    var passed := AtfResult(Kind.Passed, None, None);
    PrintedPassed();
    if file.Some? {
      OnlyPrintedForm(file.value, passed);
    }
    var reported := Reported(status, file);
    if reported.Some? {
      ApplyMeaning(reported.value, status);
      assert reported.value.kind.Passed? ==> reported.value == passed;
    }
  }

  lemma PrintedPassed()
    ensures Print(AtfResult(Kind.Passed, None, None)) == "passed\n"
    ensures Printable(AtfResult(Kind.Passed, None, None))
  {
  }

  /** A timeout is good exactly if the test case had announced it. */
  lemma TimeoutMeaning(file: Option<string>)
    ensures var c := Calculated(None, file);
      c.Verdict? && c.verdict.Good() <==>
      file.Some? && ParseContent(file.value).Parsed? && ParseContent(file.value).result.kind.ExpectedTimeout?
  {
  }

  /** A bad report stays bad however the test case ends. */
  lemma NothingMakesItGood(status: Option<ExitStatus>, file: Option<string>, r: AtfResult)
    requires Reports(file, r) && IsBad(r)
    ensures Calculated(status, file).Verdict? && !Calculated(status, file).verdict.Good()
  {
    GoodMeaning(status, file);
    ApplyMeaning(r, status);
  }

  /** The store can read the verdict back unless an expected exit or signal was reported with
      an empty reason and confirmed. */
  lemma ReasonMeaning(status: Option<ExitStatus>, file: Option<string>)
    ensures var c := Calculated(status, file);
      c.Verdict? && !c.verdict.HasDueReason() <==>
      exists r :: Reports(file, r) && r.reason == Some("") && Confirmed(r, status)
  {
    hide ParseLine, Lines, Merged, LineCount, Apply, IntText, FormatStatus;
    var reported := Reported(status, file);
    if reported.Some? {
      ApplyMeaning(reported.value, status);
      assert Reports(file, reported.value) || reported.value.reason != Some("");
    }
    if file.Some? {
      ParsedIsWellFormed(file.value);
    }
  }

  lemma EmptyReason(code: int)
    ensures Printable(AtfResult(Kind.ExpectedExit, None, Some("")))
    ensures Print(AtfResult(Kind.ExpectedExit, None, Some(""))) == "expected_exit: \n"
    ensures Calculated(Some(Exited(code)), Some("expected_exit: \n"))
      == Verdict(TestResult(ResultType.ExpectedFailure, ""))
  {
    hide ParseLine, Lines, Merged, LineCount;
    var r := AtfResult(Kind.ExpectedExit, None, Some(""));
    assert Print(r) == "expected_exit: \n";
    RoundTrip(r);
    ApplyMeaning(r, Some(Exited(code)));
  }

  // ---------- Expected exits and signals ----------

  /** No delimiter comes before `d`. */
  predicate FirstAt(rest: string, d: nat) {
    d < |rest| && forall i :: 0 <= i < d ==> rest[i] != ':' && rest[i] != '('
  }

  predicate ColonAt(rest: string, d: nat) {
    FirstAt(rest, d) && rest[d] == ':'
  }

  predicate ParenthesisAt(rest: string, d: nat) {
    FirstAt(rest, d) && rest[d] == '('
  }

  /** An integer stands between the parenthesis at `d` and the "):" at `e`. */
  predicate Closes(rest: string, d: nat, e: nat, n: int) {
    d < e < |rest| - 1 && rest[e] == ')' && rest[e + 1] == ':' && ParseInt(rest[d + 1..e]) == Some(n)
  }

  /** A colon, one more character, and the reason. */
  ghost predicate ColonForm(rest: string, reason: string) {
    exists d: nat :: ColonAt(rest, d) && d + 2 <= |rest| && reason == rest[d + 2..]
  }

  /** An integer in parentheses, a colon, one more character, and the reason. */
  ghost predicate ClosedForm(rest: string, n: int, reason: string) {
    exists d: nat, e: nat :: ParenthesisAt(rest, d) && Closes(rest, d, e, n) && e + 3 <= |rest| && reason == rest[e + 3..]
  }

  /** An integer after a parenthesis that is never closed; the reason is all but the first two
      characters, wherever the parenthesis is. */
  ghost predicate OpenForm(rest: string, n: int, reason: string) {
    exists d: nat :: ParenthesisAt(rest, d) && ParseInt(rest[d + 1..]) == Some(n) && |rest| >= 2 && reason == rest[2..]
  }

  /** The colon that ends the status or the argument is the last character. */
  ghost predicate StopsAtColon(rest: string) {
    || (exists d: nat :: ColonAt(rest, d) && d + 1 == |rest|)
    || (exists d: nat, e: nat, n: int :: ParenthesisAt(rest, d) && Closes(rest, d, e, n) && e + 2 == |rest|)
  }

  /** The text of an integer has no parenthesis in it. */
  lemma IntHasNoParenthesis(text: string)
    requires ParseInt(text).Some?
    ensures ')' !in text
  {
    hide Value, SkipSpace;
    var t := SkipSpace(text);
    forall i | 0 <= i < |text|
      ensures text[i] != ')'
    {
      if i < |text| - |t| {
        SkippedAreSpaces(text, i);
      } else {
        assert text[i] == t[i - (|text| - |t|)];
      }
    }
  }

  lemma DelimiterIs(rest: string, d: nat)
    ensures FindDelimiter(rest) == Some(d) <==> ColonAt(rest, d) || ParenthesisAt(rest, d)
  {
    hide FindDelimiter;
  }

  /** What follows a closed integer is found at the first "):". */
  lemma CloseIs(rest: string, d: nat, e: nat, n: int)
    requires d < |rest| && Closes(rest, d, e, n)
    ensures FindClose(rest[d + 1..]) == Some(e - d - 1)
  {
    hide FindClose, ParseInt;
    IntHasNoParenthesis(rest[d + 1..e]);
    var after := rest[d + 1..];
    forall i | 0 <= i < e - d - 1
      ensures after[i] != ')'
    {
      assert after[i] == rest[d + 1..e][i];
    }
    assert after[e - d - 1] == ')' && after[e - d] == ':';
  }

  lemma OpenIs(rest: string, d: nat)
    requires d < |rest| && ParseInt(rest[d + 1..]).Some?
    ensures FindClose(rest[d + 1..]).None?
  {
    hide FindClose, ParseInt;
    IntHasNoParenthesis(rest[d + 1..]);
  }

  /** What the parser makes of a parenthesis, closed or not. */
  lemma ParenthesisParsed(kind: Kind, rest: string, d: nat)
    requires ParenthesisAt(rest, d)
    ensures var r := ParseWithReasonAndArg(kind, rest);
      match FindClose(rest[d + 1..])
      case Some(c) =>
        var e := d + 1 + c;
        && (r.FormatError? <==> ParseInt(rest[d + 1..e]).None?)
        && (!r.FormatError? ==>
              && Closes(rest, d, e, ParseInt(rest[d + 1..e]).value)
              && r == ReasonAfter(kind, ParseInt(rest[d + 1..e]), rest, e + 1))
      case None =>
        && (r.FormatError? <==> ParseInt(rest[d + 1..]).None?)
        && (!r.FormatError? ==> r == ReasonAfter(kind, ParseInt(rest[d + 1..]), rest, 0))
  {
    hide FindClose, ParseInt, KindName, FindDelimiter;
    DelimiterIs(rest, d);
    if FindClose(rest[d + 1..]).Some? {
      var e := d + 1 + FindClose(rest[d + 1..]).value;
      assert rest[d + 1..][..e - d - 1] == rest[d + 1..e];
    }
  }

  lemma ColonParsed(kind: Kind, rest: string, d: nat)
    requires ColonAt(rest, d)
    ensures ParseWithReasonAndArg(kind, rest) == ReasonAfter(kind, None, rest, d)
  {
    hide FindClose, ParseInt, KindName, FindDelimiter, ReasonAfter;
    DelimiterIs(rest, d);
  }

  /** The unterminated parenthesis: it is accepted exactly if an integer follows it. */
  lemma OpenParsed(kind: Kind, rest: string, d: nat)
    requires ParenthesisAt(rest, d) && FindClose(rest[d + 1..]).None?
    ensures var r := ParseWithReasonAndArg(kind, rest);
      && (r.Parsed? <==> ParseInt(rest[d + 1..]).Some?) && !r.OutOfRange?
      && (r.Parsed? ==> |rest| >= 2 && r.result == AtfResult(kind, ParseInt(rest[d + 1..]), Some(rest[2..])))
  {
    hide FindClose, KindName, FindDelimiter;
    ParenthesisParsed(kind, rest, d);
  }

  /** Exactly which text is read as an expected exit or signal with a reason. */
  lemma ArgumentForms(kind: Kind, rest: string, argument: Option<int>, reason: string)
    ensures ParseWithReasonAndArg(kind, rest) == Parsed(AtfResult(kind, argument, Some(reason))) <==>
      match argument
      case None => ColonForm(rest, reason)
      case Some(n) => ClosedForm(rest, n, reason) || OpenForm(rest, n, reason)
  {
    hide ParseWithReasonAndArg, FindClose, ParseInt, FindDelimiter;
    match FindDelimiter(rest)
    case None => NoForm(kind, rest);
    case Some(d) =>
      DelimiterIs(rest, d);
      if rest[d] == ':' {
        ColonParsed(kind, rest, d);
      } else {
        ParenthesisForms(kind, rest, d, argument, reason);
      }
  }

  lemma NoForm(kind: Kind, rest: string)
    requires FindDelimiter(rest).None?
    ensures ParseWithReasonAndArg(kind, rest).FormatError?
    ensures forall d: nat :: !ColonAt(rest, d) && !ParenthesisAt(rest, d)
  {
    hide FindDelimiter, KindName;
  }

  lemma ParenthesisForms(kind: Kind, rest: string, d: nat, argument: Option<int>, reason: string)
    requires ParenthesisAt(rest, d)
    ensures ParseWithReasonAndArg(kind, rest) == Parsed(AtfResult(kind, argument, Some(reason))) <==>
      argument.Some? && (ClosedForm(rest, argument.value, reason) || OpenForm(rest, argument.value, reason))
  {
    hide ParseWithReasonAndArg, FindClose, ParseInt, FindDelimiter;
    ParenthesisParsed(kind, rest, d);
    assert forall other: nat :: ParenthesisAt(rest, other) ==> other == d;
    forall e: nat, n: int | Closes(rest, d, e, n)
      ensures FindClose(rest[d + 1..]) == Some(e - d - 1)
    {
      CloseIs(rest, d, e, n);
    }
    if ParseInt(rest[d + 1..]).Some? {
      OpenIs(rest, d);
    }
  }

  /** Exactly which text makes the exception. */
  lemma StopsMeaning(kind: Kind, rest: string)
    ensures ParseWithReasonAndArg(kind, rest).OutOfRange? <==> StopsAtColon(rest)
  {
    hide ParseWithReasonAndArg, FindClose, ParseInt, FindDelimiter;
    match FindDelimiter(rest)
    case None => NoForm(kind, rest);
    case Some(d) =>
      DelimiterIs(rest, d);
      if rest[d] == ':' {
        ColonParsed(kind, rest, d);
        assert forall other: nat :: ColonAt(rest, other) ==> other == d;
        assert forall other: nat :: !ParenthesisAt(rest, other);
      } else {
        ParenthesisStops(kind, rest, d);
      }
  }

  lemma ParenthesisStops(kind: Kind, rest: string, d: nat)
    requires ParenthesisAt(rest, d)
    ensures ParseWithReasonAndArg(kind, rest).OutOfRange? <==> StopsAtColon(rest)
  {
    hide ParseWithReasonAndArg, FindClose, ParseInt, FindDelimiter;
    ParenthesisParsed(kind, rest, d);
    assert forall other: nat :: ParenthesisAt(rest, other) ==> other == d;
    assert forall other: nat :: !ColonAt(rest, other);
    forall e: nat, n: int | Closes(rest, d, e, n)
      ensures FindClose(rest[d + 1..]) == Some(e - d - 1)
    {
      CloseIs(rest, d, e, n);
    }
    if FindClose(rest[d + 1..]).None? && ParseInt(rest[d + 1..]).Some? {
      assert |rest[d + 1..]| > 0 by {
        EmptyIsNoInt();
      }
    }
  }

  lemma EmptyIsNoInt()
    ensures ParseInt("").None?
  {
  }

  // ---------- Whole files ----------

  /** The line starts with the name of the status and nothing more that could belong to it. */
  predicate HasStatus(line: string, kind: Kind) {
    var name := KindName(kind);
    name <= line && (|line| == |name| || !IsStatusChar(line[|name|]))
  }

  function RestOf(line: string, kind: Kind): string
    requires HasStatus(line, kind)
  {
    line[|KindName(kind)|..]
  }

  function LineOf(content: string): string
    requires IsOneLine(content)
  {
    content[..|content| - 1]
  }

  lemma StatusFound(line: string, kind: Kind)
    requires HasStatus(line, kind)
    ensures ParseLine(line) == ParseRest(kind, RestOf(line, kind))
  {
    hide KindName, KindOfName, ParseRest;
    NameIsStatus(kind);
    var name, rest := KindName(kind), RestOf(line, kind);
    assert line == name + rest;
    StatusEndsThere(name, rest);
    assert line[..|name|] == name;
  }

  lemma StatusThere(line: string)
    ensures !ParseLine(line).FormatError? ==>
      KindOfName(line[..StatusLength(line)]).Some? && HasStatus(line, KindOfName(line[..StatusLength(line)]).value)
  {
    hide KindName, KindOfName, ParseRest;
  }

  predicate TakesArgument(kind: Kind) {
    kind.ExpectedExit? || kind.ExpectedSignal?
  }

  lemma RestKeepsKind(kind: Kind, rest: string)
    ensures ParseRest(kind, rest).Parsed? ==> ParseRest(kind, rest).result.kind == kind
    ensures ParseRest(kind, rest).OutOfRange? ==> TakesArgument(kind)
  {
    hide KindName, ParseInt, FindClose, FindDelimiter;
  }

  /** Exactly which files report an expected exit or signal. */
  lemma ExpectedForms(content: string, kind: Kind, argument: Option<int>, reason: string)
    requires TakesArgument(kind)
    ensures ParseContent(content) == Parsed(AtfResult(kind, argument, Some(reason))) <==>
      && IsOneLine(content) && HasStatus(LineOf(content), kind)
      && var rest := RestOf(LineOf(content), kind);
        match argument
        case None => ColonForm(rest, reason)
        case Some(n) => ClosedForm(rest, n, reason) || OpenForm(rest, n, reason)
  {
    hide ParseLine, Lines, Merged, LineCount, HasStatus, KindName, KindOfName, ColonForm, ClosedForm, OpenForm,
         ParseWithReasonAndArg;
    OneLineCounts(content);
    if IsOneLine(content) {
      var line := LineOf(content);
      StatusThere(line);
      var found := KindOfName(line[..StatusLength(line)]);
      if HasStatus(line, kind) {
        StatusFound(line, kind);
        ArgumentForms(kind, RestOf(line, kind), argument, reason);
      } else if !ParseLine(line).FormatError? {
        StatusFound(line, found.value);
        RestKeepsKind(found.value, RestOf(line, found.value));
      }
    }
  }

  /** The file is one line with the status and stops right after the colon. */
  ghost predicate StopsEarly(content: string, kind: Kind) {
    IsOneLine(content) && HasStatus(LineOf(content), kind) && StopsAtColon(RestOf(LineOf(content), kind))
  }

  /** Exactly for which files the exception gets through. */
  lemma UncaughtMeaning(status: Option<ExitStatus>, file: Option<string>)
    ensures Calculated(status, file) == Uncaught <==>
      file.Some? && (StopsEarly(file.value, Kind.ExpectedExit) || StopsEarly(file.value, Kind.ExpectedSignal))
  {
    hide ParseContent, Apply, IntText, StopsEarly;
    if file.Some? {
      StoppedContent(file.value);
    }
  }

  lemma StoppedContent(content: string)
    ensures ParseContent(content).OutOfRange? <==>
      StopsEarly(content, Kind.ExpectedExit) || StopsEarly(content, Kind.ExpectedSignal)
  {
    hide ParseLine, Lines, Merged, LineCount, HasStatus, KindName, KindOfName, StopsAtColon, ParseWithReasonAndArg;
    OneLineCounts(content);
    if IsOneLine(content) {
      var line := LineOf(content);
      StoppedLine(line, Kind.ExpectedExit);
      StoppedLine(line, Kind.ExpectedSignal);
      StatusThere(line);
      if ParseLine(line).OutOfRange? {
        var kind := KindOfName(line[..StatusLength(line)]).value;
        StatusFound(line, kind);
        RestKeepsKind(kind, RestOf(line, kind));
      }
    }
  }

  lemma StoppedLine(line: string, kind: Kind)
    requires TakesArgument(kind)
    ensures HasStatus(line, kind) ==> (ParseLine(line).OutOfRange? <==> StopsAtColon(RestOf(line, kind)))
  {
    hide ParseLine, HasStatus, KindName, StopsAtColon, ParseWithReasonAndArg;
    if HasStatus(line, kind) {
      StatusFound(line, kind);
      StopsMeaning(kind, RestOf(line, kind));
    }
  }

  // ---------- Files that show it ----------

  lemma FileWithRest(kind: Kind, rest: string)
    requires '\n' !in rest && (rest == "" || !IsStatusChar(rest[0]))
    ensures var content := KindName(kind) + rest + "\n";
      IsOneLine(content) && HasStatus(LineOf(content), kind) && RestOf(LineOf(content), kind) == rest
  {
    hide KindName;
    NameIsStatus(kind);
    var content := KindName(kind) + rest + "\n";
    assert content[..|content| - 1] == KindName(kind) + rest;
  }

  const OPEN_FILE := "expected_exit(55\n"

  lemma OpenFile()
    ensures IsOneLine(OPEN_FILE) && HasStatus(LineOf(OPEN_FILE), Kind.ExpectedExit)
    ensures RestOf(LineOf(OPEN_FILE), Kind.ExpectedExit) == "(55"
  {
    hide HasStatus, IsOneLine;
    FileWithRest(Kind.ExpectedExit, "(55");
    assert KindName(Kind.ExpectedExit) + "(55" + "\n" == OPEN_FILE;
  }

  lemma FiftyFive()
    ensures ParseInt("55") == Some(55)
  {
    hide ParseInt, Value;
    assert Decimal(5) == [Digit(5)] == "5";
    assert Decimal(55) == Decimal(5) + [Digit(5)] == "55";
    IntRoundTrip(55);
  }

  lemma OpenReport()
    ensures ParseContent(OPEN_FILE) == Parsed(AtfResult(Kind.ExpectedExit, Some(55), Some("5")))
  {
    hide ParseContent, HasStatus, IsOneLine, ParseInt, LineOf, RestOf;
    OpenFile();
    FiftyFive();
    var rest := "(55";
    assert rest[1..] == "55" && rest[2..] == "5";
    assert ParenthesisAt(rest, 0);
    assert OpenForm(rest, 55, "5");
    ExpectedForms(OPEN_FILE, Kind.ExpectedExit, Some(55), "5");
  }

  /** A missing parenthesis and an exit with code 55: an expected failure with the reason "5". */
  lemma UnterminatedParenthesis()
    ensures Calculated(Some(Exited(55)), Some(OPEN_FILE)) == Verdict(TestResult(ResultType.ExpectedFailure, "5"))
  {
    hide ParseContent, IntText, FormatStatus, Apply;
    OpenReport();
    ApplyMeaning(AtfResult(Kind.ExpectedExit, Some(55), Some("5")), Some(Exited(55)));
  }

  /** Whatever the exit status, this file brings the program down. */
  lemma StoppingFile(status: Option<ExitStatus>)
    ensures Calculated(status, Some("expected_exit:\n")) == Uncaught
  {
    hide HasStatus, IsOneLine, Calculated;
    FileWithRest(Kind.ExpectedExit, ":");
    assert KindName(Kind.ExpectedExit) + ":" + "\n" == "expected_exit:\n";
    assert ColonAt(":", 0);
    UncaughtMeaning(status, Some("expected_exit:\n"));
  }

  /** Exit code 4 instead of 3: failed, and broken when applied again. */
  lemma TwiceIsNotOnce()
    ensures var r, status := AtfResult(Kind.ExpectedExit, Some(3), Some("x")), Some(Exited(4));
      WellFormed(r) && Apply(r, status).kind.Failed? && Apply(Apply(r, status), status).kind.Broken?
  {
    hide IntText, FormatStatus;
  }
}
