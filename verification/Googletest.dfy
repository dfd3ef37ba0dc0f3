/** The scan of googletest output (engine/googletest_result.cpp, engine/googletest.cpp). */
module Googletest {
  import opened Results
  import opened Text

  datatype Kind = Broken | Disabled | Failed | Skipped | Successful

  datatype GtResult = GtResult(kind: Kind, reason: Option<string>)

  /** `Aborted` is an assertion of the program that does not hold. */
  datatype Parse = Parsed(result: GtResult) | Aborted

  // ---------- Lines ----------

  predicate IsAlnum(c: char) {
    IsDigit(c) || 'a' <= c <= 'z' || 'A' <= c <= 'Z'
  }

  function SkipAlnum(s: string): (t: string)
    ensures |t| <= |s|
  {
    if s != "" && IsAlnum(s[0]) then SkipAlnum(s[1..]) else s
  }

  /** What follows `word` and at least one space on either side of it. */
  function AfterSpaced(s: string, word: string): Option<string> {
    var t := SkipSpace(s);
    if |t| == |s| || !StartsWith(t, word) then None
    else
      var u := SkipSpace(t[|word|..]);
      if |u| == |t| - |word| then None else Some(u)
  }

  /** "[  word  ]" at the start of `s`; the result is what follows it. */
  function AfterTag(s: string, word: string): Option<string> {
    if !StartsWith(s, "[") then None
    else
      match AfterSpaced(s[1..], word)
      case None => None
      case Some(t) => if StartsWith(t, "]") then Some(t[1..]) else None
  }

  predicate RunAt(s: string) {
    match AfterTag(s, "RUN")
    case None => false
    case Some(t) =>
      var u := SkipSpace(t);
      var v := SkipAlnum(u);
      |u| < |t| && |v| < |u| && StartsWith(v, ".") && SkipAlnum(v[1..]) != v[1..]
  }

  datatype Ending = EndFailed | EndOk | EndSkipped

  function EndingAt(s: string): Option<Ending> {
    if AfterTag(s, "FAILED").Some? then Some(EndFailed)
    else if AfterTag(s, "OK").Some? then Some(EndOk)
    else if AfterTag(s, "SKIPPED").Some? then Some(EndSkipped)
    else None
  }

  function DisabledAt(s: string): (text: Option<string>)
    ensures text.Some? ==> text.value != ""
  {
    if !StartsWith(s, "YOU HAVE ") then None
    else
      var n := DigitPrefix(s[9..]);
      var rest := s[9 + n..];
      if n == 0 || !StartsWith(rest, " DISABLED TEST") then None
      else Some(s[..9 + n + if StartsWith(rest, " DISABLED TESTS") then 15 else 14])
  }

  predicate HasRun(line: string) {
    RunAt(line) || (line != "" && HasRun(line[1..]))
  }

  function FindEnding(line: string): Option<Ending> {
    if EndingAt(line).Some? then EndingAt(line)
    else if line == "" then None
    else FindEnding(line[1..])
  }

  function FindDisabled(line: string): (text: Option<string>)
    ensures text.Some? ==> text.value != ""
  {
    if DisabledAt(line).Some? then DisabledAt(line)
    else if line == "" then None
    else FindDisabled(line[1..])
  }

  datatype Class = DisabledLine(text: string) | RunLine | EndLine(ending: Ending) | PlainLine

  /** The expressions are tried in this order. */
  function ClassOf(line: string): (c: Class)
    ensures c.DisabledLine? ==> c.text != ""
  {
    if FindDisabled(line).Some? then DisabledLine(FindDisabled(line).value)
    else if HasRun(line) then RunLine
    else if FindEnding(line).Some? then EndLine(FindEnding(line).value)
    else PlainLine
  }

  /** The lines with their newlines; the last one has none and may be empty. */
  function RawLines(content: string): (lines: seq<string>)
    ensures lines != [] && Concat(lines) == content
    decreases |content|
  {
    var end := LineEnd(content);
    if end == |content| then [content]
    else
      assert content == content[..end + 1] + content[end + 1..];
      [content[..end + 1]] + RawLines(content[end + 1..])
  }

  function Concat(lines: seq<string>): string {
    if lines == [] then "" else lines[0] + Concat(lines[1..])
  }

  // ---------- Lines in the form googletest prints ----------

  predicate AllSpaces(s: string) {
    forall i :: 0 <= i < |s| ==> IsSpace(s[i])
  }

  lemma {:induction false} SpacesSkipped(spaces: string, rest: string)
    requires AllSpaces(spaces) && rest != "" && !IsSpace(rest[0])
    ensures SkipSpace(spaces + rest) == rest
  {
    if spaces == "" {
      assert spaces + rest == rest;
    } else {
      assert (spaces + rest)[1..] == spaces[1..] + rest;
      SpacesSkipped(spaces[1..], rest);
    }
  }

  const TAGS := ["RUN", "FAILED", "OK", "SKIPPED"]

  lemma TagsDiffer(a: string, b: string, rest: string)
    requires a in TAGS && b in TAGS
    ensures StartsWith(a + rest, b) <==> a == b
    ensures a != "" && !IsSpace(a[0])
  {
    assert a == b ==> a <= a + rest;
    assert (a + rest)[0] == a[0];
  }

  lemma AfterSpacedMatch(left: string, word: string, right: string, rest: string, other: string)
    requires left != "" && AllSpaces(left) && right != "" && AllSpaces(right)
    requires word != "" && !IsSpace(word[0]) && rest != "" && !IsSpace(rest[0])
    requires StartsWith(word + (right + rest), other) <==> other == word
    ensures AfterSpaced(left + word + right + rest, other) == if other == word then Some(rest) else None
  {
    hide SkipSpace, StartsWith;
    var tail := word + (right + rest);
    assert left + word + right + rest == left + tail;
    assert tail[0] == word[0];
    SpacesSkipped(left, tail);
    assert tail[|word|..] == right + rest;
    SpacesSkipped(right, rest);
  }

  lemma AfterSpacedRead(left: string, word: string, right: string, rest: string, other: string)
    requires left != "" && AllSpaces(left) && right != "" && AllSpaces(right)
    requires word in TAGS && other in TAGS && rest != "" && !IsSpace(rest[0])
    ensures AfterSpaced(left + word + right + rest, other) == if other == word then Some(rest) else None
  {
    hide AfterSpaced, StartsWith;
    TagsDiffer(word, other, right + rest);
    AfterSpacedMatch(left, word, right, rest, other);
  }

  /** A tag is read as itself and as no other tag, however it is padded. */
  lemma TagRead(left: string, word: string, right: string, rest: string, other: string)
    requires left != "" && AllSpaces(left) && right != "" && AllSpaces(right) && word in TAGS && other in TAGS
    ensures AfterTag("[" + left + word + right + "]" + rest, other) == if other == word then Some(rest) else None
  {
    hide AfterSpaced;
    var line := "[" + left + word + right + "]" + rest;
    assert line[1..] == left + word + right + ("]" + rest);
    AfterSpacedRead(left, word, right, "]" + rest, other);
    assert ("]" + rest)[1..] == rest;
  }

  /** A line that starts with one of the three ending tags ends a test accordingly. */
  lemma EndingRead(left: string, right: string, rest: string)
    requires left != "" && AllSpaces(left) && right != "" && AllSpaces(right)
    ensures FindEnding("[" + left + "FAILED" + right + "]" + rest) == Some(EndFailed)
    ensures FindEnding("[" + left + "OK" + right + "]" + rest) == Some(EndOk)
    ensures FindEnding("[" + left + "SKIPPED" + right + "]" + rest) == Some(EndSkipped)
  {
    hide AfterTag;
    var failed, ok, skipped := TAGS[1], TAGS[2], TAGS[3];
    TagRead(left, failed, right, rest, failed);
    TagRead(left, ok, right, rest, failed);
    TagRead(left, ok, right, rest, ok);
    TagRead(left, skipped, right, rest, failed);
    TagRead(left, skipped, right, rest, ok);
    TagRead(left, skipped, right, rest, skipped);
  }

  lemma {:induction false} AlnumSkipped(word: string, rest: string)
    requires (forall i :: 0 <= i < |word| ==> IsAlnum(word[i])) && (rest == "" || !IsAlnum(rest[0]))
    ensures SkipAlnum(word + rest) == rest
  {
    if word == "" {
      assert word + rest == rest;
    } else {
      assert (word + rest)[1..] == word[1..] + rest;
      AlnumSkipped(word[1..], rest);
    }
  }

  predicate IsName(s: string) {
    s != "" && forall i :: 0 <= i < |s| ==> IsAlnum(s[i])
  }

  /** A line with the tag and a full test name announces a test, whatever comes after a name
      that ends there. */
  lemma RunRead(left: string, right: string, gap: string, suite: string, test: string, rest: string)
    requires left != "" && AllSpaces(left) && right != "" && AllSpaces(right) && gap != "" && AllSpaces(gap)
    requires IsName(suite) && IsName(test) && (rest == "" || !IsAlnum(rest[0]))
    ensures HasRun("[" + left + "RUN" + right + "]" + (gap + (suite + ("." + (test + rest)))))
  {
    hide AfterTag;
    var run := TAGS[0];
    var name := suite + ("." + (test + rest));
    TagRead(left, run, right, gap + name, run);
    assert name[0] == suite[0];
    SpacesSkipped(gap, name);
    AlnumSkipped(suite, "." + (test + rest));
    assert ("." + (test + rest))[1..] == test + rest;
    AlnumSkipped(test, rest);
  }

  /** The line about disabled tests is found with its number and its plural, but not with what
      follows. */
  lemma DisabledRead(number: nat, rest: string)
    requires !StartsWith(rest, "S")
    ensures FindDisabled("YOU HAVE " + Decimal(number) + " DISABLED TEST" + rest)
      == Some("YOU HAVE " + Decimal(number) + " DISABLED TEST")
    ensures FindDisabled("YOU HAVE " + Decimal(number) + " DISABLED TESTS" + rest)
      == Some("YOU HAVE " + Decimal(number) + " DISABLED TESTS")
  {
    DisabledOne(number, " DISABLED TEST", rest);
    DisabledOne(number, " DISABLED TESTS", rest);
  }

  lemma DisabledOne(number: nat, words: string, rest: string)
    requires words == " DISABLED TESTS" || (words == " DISABLED TEST" && !StartsWith(rest, "S"))
    ensures FindDisabled("YOU HAVE " + Decimal(number) + words + rest) == Some("YOU HAVE " + Decimal(number) + words)
  {
    hide Decimal, DigitPrefix;
    var start, digits := "YOU HAVE ", Decimal(number);
    var line := start + digits + words + rest;
    assert StartsWith(line, start);
    assert line[9..] == digits + (words + rest);
    DigitsEndThere(digits, words + rest);
    var n := |digits|;
    assert line[9 + n..] == words + rest;
    TestsOrTest(words, rest);
    assert line[..9 + n + |words|] == start + digits + words;
  }

  lemma TestsOrTest(words: string, rest: string)
    requires words == " DISABLED TESTS" || (words == " DISABLED TEST" && !StartsWith(rest, "S"))
    ensures StartsWith(words + rest, " DISABLED TEST")
    ensures StartsWith(words + rest, " DISABLED TESTS") <==> words == " DISABLED TESTS"
  {
    if words == " DISABLED TEST" {
      assert rest != "" ==> (words + rest)[14] == rest[0];
      assert rest != "" && rest[0] == 'S' ==> "S" <= rest;
    } else {
      assert words <= words + rest;
      assert " DISABLED TEST" <= words;
    }
  }

  lemma {:induction false} NoDisabledLine(line: string)
    requires 'Y' !in line
    ensures FindDisabled(line).None?
  {
    if line != "" {
      assert line[0] in line;
      NoDisabledLine(line[1..]);
    }
  }

  lemma {:induction false} NoRunLine(line: string)
    requires 'U' !in line
    ensures !HasRun(line)
  {
    if line != "" {
      NoTag(line);
      NoRunLine(line[1..]);
    }
  }

  lemma NoTag(s: string)
    requires 'U' !in s
    ensures !RunAt(s)
  {
    hide SkipSpace, SkipAlnum;
    assert "RUN"[1] == 'U';
    if StartsWith(s, "[") {
      var t := SkipSpace(s[1..]);
      assert |t| > 1 ==> t[1] in s && t[1] != 'U';
    }
  }

  // ---------- The expressions ----------

  predicate IsPadding(s: string) {
    s != "" && AllSpaces(s)
  }

  predicate Tagged(s: string, word: string, left: string, right: string, rest: string) {
    IsPadding(left) && IsPadding(right) && s == "[" + left + word + right + "]" + rest
  }

  lemma SkippedPadding(s: string, spaces: string)
    requires |SkipSpace(s)| < |s| && spaces == s[..|s| - |SkipSpace(s)|]
    ensures IsPadding(spaces) && s == spaces + SkipSpace(s)
  {
    hide SkipSpace;
    forall i | 0 <= i < |spaces|
      ensures IsSpace(spaces[i])
    {
      SkippedAreSpaces(s, i);
    }
  }

  lemma AfterSpacedIs(s: string, word: string) returns (left: string, right: string)
    requires AfterSpaced(s, word).Some?
    ensures IsPadding(left) && IsPadding(right) && s == left + (word + (right + AfterSpaced(s, word).value))
  {
    hide SkipSpace, IsPadding;
    var t := SkipSpace(s);
    left := s[..|s| - |t|];
    SkippedPadding(s, left);
    var after := t[|word|..];
    var u := SkipSpace(after);
    right := after[..|after| - |u|];
    SkippedPadding(after, right);
    assert t == word + after;
  }

  lemma AfterTagIs(s: string, word: string) returns (left: string, right: string)
    requires AfterTag(s, word).Some? && word in TAGS
    ensures Tagged(s, word, left, right, AfterTag(s, word).value)
  {
    hide AfterSpaced, IsPadding;
    left, right := AfterSpacedIs(s[1..], word);
    var t, rest := AfterSpaced(s[1..], word).value, AfterTag(s, word).value;
    assert s == "[" + s[1..] && t == "]" + rest;
    assert "[" + (left + (word + (right + ("]" + rest)))) == "[" + left + word + right + "]" + rest;
  }

  /** Exactly what stands where a tag is found. */
  lemma TagMeaning(s: string, word: string, rest: string)
    requires word in TAGS
    ensures AfterTag(s, word) == Some(rest) <==> exists left, right :: Tagged(s, word, left, right, rest)
  {
    hide AfterTag, AllSpaces;
    if AfterTag(s, word) == Some(rest) {
      var left, right := AfterTagIs(s, word);
    }
    forall left, right | Tagged(s, word, left, right, rest)
      ensures AfterTag(s, word) == Some(rest)
    {
      TagRead(left, word, right, rest, word);
    }
  }

  /** The tag with a full test name at the start of `s`. */
  ghost predicate Announces(s: string) {
    exists left, right, gap, suite, test, rest ::
      Tagged(s, "RUN", left, right, gap + (suite + ("." + (test + rest)))) && IsPadding(gap) && IsName(suite) && IsName(test)
  }

  lemma {:induction false} AlnumPrefix(s: string)
    ensures var t := SkipAlnum(s);
      && s == s[..|s| - |t|] + t && (forall i :: 0 <= i < |s| - |t| ==> IsAlnum(s[i]))
  {
    if s != "" && IsAlnum(s[0]) {
      AlnumPrefix(s[1..]);
      assert s == [s[0]] + s[1..];
    }
  }

  lemma NameParts(t: string) returns (gap: string, suite: string, test: string, rest: string)
    requires var u := SkipSpace(t);
      var v := SkipAlnum(u);
      |u| < |t| && |v| < |u| && StartsWith(v, ".") && SkipAlnum(v[1..]) != v[1..]
    ensures t == gap + (suite + ("." + (test + rest))) && IsPadding(gap) && IsName(suite) && IsName(test)
  {
    hide SkipSpace, SkipAlnum, IsPadding;
    var u := SkipSpace(t);
    gap := t[..|t| - |u|];
    SkippedPadding(t, gap);
    var v := SkipAlnum(u);
    AlnumPrefix(u);
    suite := u[..|u| - |v|];
    var after := v[1..];
    rest := SkipAlnum(after);
    AlnumPrefix(after);
    test := after[..|after| - |rest|];
    assert v == "." + after;
    assert test == "" ==> after == rest;
  }

  lemma AnnouncedRuns(s: string, left: string, right: string, gap: string, suite: string, test: string, rest: string)
    requires Tagged(s, "RUN", left, right, gap + (suite + ("." + (test + rest))))
    requires IsPadding(gap) && IsName(suite) && IsName(test)
    ensures RunAt(s)
  {
    hide AfterTag, SkipSpace, SkipAlnum;
    var name := suite + ("." + (test + rest));
    assert TAGS[0] == "RUN";
    TagRead(left, "RUN", right, gap + name, "RUN");
    assert name[0] == suite[0];
    SpacesSkipped(gap, name);
    AlnumSkipped(suite, "." + (test + rest));
    assert ("." + (test + rest))[1..] == test + rest;
    AlnumAhead(test, rest);
  }

  lemma AlnumAhead(test: string, rest: string)
    requires IsName(test)
    ensures SkipAlnum(test + rest) != test + rest
  {
    assert (test + rest)[0] == test[0];
  }

  lemma RunAtMeaning(s: string)
    ensures RunAt(s) <==> Announces(s)
  {
    hide AfterTag, SkipSpace, SkipAlnum, Tagged, IsPadding, IsName;
    if RunAt(s) {
      assert TAGS[0] == "RUN";
      var left, right := AfterTagIs(s, "RUN");
      var gap, suite, test, rest := NameParts(AfterTag(s, "RUN").value);
    }
    forall left, right, gap, suite, test, rest
      | Tagged(s, "RUN", left, right, gap + (suite + ("." + (test + rest)))) && IsPadding(gap) && IsName(suite) && IsName(test)
      ensures RunAt(s)
    {
      AnnouncedRuns(s, left, right, gap, suite, test, rest);
    }
  }

  /** A line announces a test exactly if the tag with a full test name occurs in it. */
  lemma {:induction false} RunMeaning(line: string)
    ensures HasRun(line) <==> exists i: nat :: i <= |line| && Announces(line[i..])
  {
    hide RunAt, Announces;
    RunAtMeaning(line);
    assert line[0..] == line;
    if line != "" {
      RunMeaning(line[1..]);
      forall i: nat | 1 <= i <= |line|
        ensures line[i..] == line[1..][i - 1..]
      {
      }
      if HasRun(line[1..]) {
        var i: nat :| i <= |line[1..]| && Announces(line[1..][i..]);
        assert line[i + 1..] == line[1..][i..];
      }
    }
  }

  ghost predicate EndsAs(s: string, word: string) {
    exists left, right, rest :: Tagged(s, word, left, right, rest)
  }

  function EndingWord(ending: Ending): string {
    match ending
    case EndFailed => "FAILED"
    case EndOk => "OK"
    case EndSkipped => "SKIPPED"
  }

  lemma EndingAtMeaning(s: string, ending: Ending)
    ensures EndingAt(s) == Some(ending) <==> EndsAs(s, EndingWord(ending))
    ensures EndingAt(s).None? ==> !EndsAs(s, EndingWord(ending))
  {
    hide AfterTag, Tagged, EndsAs;
    assert TAGS[1] == "FAILED" && TAGS[2] == "OK" && TAGS[3] == "SKIPPED";
    TagThere(s, "FAILED");
    TagThere(s, "OK");
    TagThere(s, "SKIPPED");
    OneTag(s);
  }

  lemma TagThere(s: string, word: string)
    requires word in TAGS
    ensures AfterTag(s, word).Some? <==> EndsAs(s, word)
  {
    hide AfterTag, Tagged;
    if AfterTag(s, word).Some? {
      TagMeaning(s, word, AfterTag(s, word).value);
    }
    forall left, right, rest | Tagged(s, word, left, right, rest)
      ensures AfterTag(s, word).Some?
    {
      TagMeaning(s, word, rest);
    }
  }

  /** No place has two tags. */
  lemma OneTag(s: string)
    ensures AfterTag(s, "FAILED").Some? ==> AfterTag(s, "OK").None? && AfterTag(s, "SKIPPED").None?
    ensures AfterTag(s, "OK").Some? ==> AfterTag(s, "SKIPPED").None?
  {
    hide SkipSpace;
    assert "FAILED"[0] == 'F' && "OK"[0] == 'O' && "SKIPPED"[0] == 'S';
  }

  predicate FoundAt(line: string, ending: Ending, i: nat) {
    i <= |line| && EndingAt(line[i..]) == Some(ending) && forall j: nat :: j < i ==> EndingAt(line[j..]).None?
  }

  lemma {:induction false} FoundLeftmost(line: string, ending: Ending)
    ensures FindEnding(line) == Some(ending) <==> exists i: nat :: FoundAt(line, ending, i)
  {
    hide EndingAt;
    assert line[0..] == line;
    if EndingAt(line).Some? {
      assert EndingAt(line) == Some(ending) ==> FoundAt(line, ending, 0);
    } else if line != "" {
      FoundLeftmost(line[1..], ending);
      assert forall i: nat :: 1 <= i <= |line| ==> line[i..] == line[1..][i - 1..];
      if FindEnding(line) == Some(ending) {
        var i: nat :| FoundAt(line[1..], ending, i);
        assert FoundAt(line, ending, i + 1);
      }
      forall i: nat | FoundAt(line, ending, i)
        ensures FindEnding(line) == Some(ending)
      {
        FoundLater(line, ending, i);
      }
    }
  }

  lemma FoundLater(line: string, ending: Ending, i: nat)
    requires line != "" && EndingAt(line).None? && FoundAt(line, ending, i)
    ensures i > 0 && FoundAt(line[1..], ending, i - 1)
  {
    hide EndingAt;
    assert line[0..] == line;
    assert line[i..] == line[1..][i - 1..];
    forall j: nat | j < i - 1
      ensures EndingAt(line[1..][j..]).None?
    {
      assert line[1..][j..] == line[j + 1..];
    }
  }

  /** A tag that ends a test stands at `i`, and no such tag before. */
  ghost predicate EndsAt(line: string, ending: Ending, i: nat) {
    && i <= |line| && EndsAs(line[i..], EndingWord(ending))
    && forall j: nat, e: Ending :: j < i ==> !EndsAs(line[j..], EndingWord(e))
  }

  lemma NoEnding(s: string)
    ensures EndingAt(s).None? <==> forall e: Ending :: !EndsAs(s, EndingWord(e))
  {
    hide EndingAt, EndsAs, EndingWord;
    forall e: Ending
      ensures EndingAt(s) == Some(e) <==> EndsAs(s, EndingWord(e))
    {
      EndingAtMeaning(s, e);
    }
    if EndingAt(s).Some? {
      assert EndsAs(s, EndingWord(EndingAt(s).value));
    }
  }

  /** What a line says about the end of a test is the leftmost ending tag in it. */
  lemma EndingMeaning(line: string, ending: Ending)
    ensures FindEnding(line) == Some(ending) <==> exists i: nat :: EndsAt(line, ending, i)
  {
    hide EndingAt, EndsAs, EndingWord, FindEnding;
    FoundLeftmost(line, ending);
    forall i: nat | i <= |line|
      ensures FoundAt(line, ending, i) <==> EndsAt(line, ending, i)
    {
      EndingAtMeaning(line[i..], ending);
      forall j: nat | j < i
        ensures EndingAt(line[j..]).None? <==> forall e: Ending :: !EndsAs(line[j..], EndingWord(e))
      {
        NoEnding(line[j..]);
      }
    }
  }

  /** A number of disabled tests at the start of `s`, with the plural if it is there. */
  predicate Disables(s: string, digits: string, rest: string, text: string) {
    && digits != "" && AllDigits(digits) && s == "YOU HAVE " + digits + " DISABLED TEST" + rest
    && text == "YOU HAVE " + digits + " DISABLED TEST" + if StartsWith(rest, "S") then "S" else ""
  }

  lemma DisablesIs(s: string, digits: string, rest: string, text: string)
    requires Disables(s, digits, rest, text)
    ensures DisabledAt(s) == Some(text)
  {
    hide DigitPrefix;
    var words := " DISABLED TEST";
    assert s[..9] == "YOU HAVE ";
    assert s[9..] == digits + (words + rest);
    DigitsEndThere(digits, words + rest);
    var n := |digits|;
    assert s[9 + n..] == words + rest;
    assert (words + rest)[..14] == words;
    assert StartsWith(words + rest, words);
    PluralThere(rest);
    assert s[..9 + n + 14] == "YOU HAVE " + digits + words;
    if StartsWith(rest, "S") {
      assert s[..9 + n + 15] == "YOU HAVE " + digits + words + "S";
    } else {
      assert "YOU HAVE " + digits + words + "" == "YOU HAVE " + digits + words;
    }
  }

  lemma PluralThere(rest: string)
    ensures StartsWith(" DISABLED TEST" + rest, " DISABLED TESTS") <==> StartsWith(rest, "S")
  {
    var s := " DISABLED TEST" + rest;
    if StartsWith(rest, "S") {
      assert s[..15] == " DISABLED TESTS";
    }
    if StartsWith(s, " DISABLED TESTS") {
      assert s[14] == " DISABLED TESTS"[14] == 'S';
      assert rest[0] == 'S' && rest[..1] == "S";
    }
  }

  lemma IsDisables(s: string) returns (digits: string, rest: string)
    requires DisabledAt(s).Some?
    ensures Disables(s, digits, rest, DisabledAt(s).value)
  {
    hide DigitPrefix;
    var n := DigitPrefix(s[9..]);
    digits := s[9..][..n];
    rest := s[9 + n..][14..];
    var words := " DISABLED TEST";
    assert s[9 + n..] == words + rest;
    assert s == "YOU HAVE " + digits + words + rest;
    PluralThere(rest);
    assert s[..9 + n + 14] == "YOU HAVE " + digits + words;
    if StartsWith(rest, "S") {
      assert s[..9 + n + 15] == "YOU HAVE " + digits + words + "S";
    } else {
      assert "YOU HAVE " + digits + words + "" == "YOU HAVE " + digits + words;
    }
  }

  /** Exactly what stands where a line about disabled tests is found. */
  lemma DisabledAtMeaning(s: string, text: string)
    ensures DisabledAt(s) == Some(text) <==> exists digits, rest :: Disables(s, digits, rest, text)
  {
    hide DisabledAt, Disables;
    if DisabledAt(s) == Some(text) {
      var digits, rest := IsDisables(s);
    }
    forall digits, rest | Disables(s, digits, rest, text)
      ensures DisabledAt(s) == Some(text)
    {
      DisablesIs(s, digits, rest, text);
    }
  }

  // ---------- What the output means ----------

  /** The first line about disabled tests. */
  function FirstDisabled(lines: seq<string>): (text: Option<string>)
    ensures text.Some? ==> text.value != ""
  {
    if lines == [] then None
    else if ClassOf(lines[0]).DisabledLine? then Some(ClassOf(lines[0]).text)
    else FirstDisabled(lines[1..])
  }

  function LastEnding(lines: seq<string>): Option<Ending> {
    if lines == [] then None
    else
      var last := ClassOf(lines[|lines| - 1]);
      if last.EndLine? then Some(last.ending) else LastEnding(lines[..|lines| - 1])
  }

  /** The lines after the last one that announces a test. */
  function AfterLastRun(lines: seq<string>): (tail: Option<seq<string>>)
    ensures tail.Some? ==> |tail.value| < |lines| && tail.value == lines[|lines| - |tail.value|..]
  {
    if lines == [] then None
    else
      var last := lines[|lines| - 1];
      if ClassOf(last).RunLine? then Some([])
      else
        match AfterLastRun(lines[..|lines| - 1])
        case None => None
        case Some(tail) => Some(tail + [last])
  }

  function BeforeEnding(lines: seq<string>): string {
    if lines == [] || ClassOf(lines[0]).EndLine? then "" else lines[0] + BeforeEnding(lines[1..])
  }

  predicate HasEnding(lines: seq<string>) {
    lines != [] && (ClassOf(lines[|lines| - 1]).EndLine? || HasEnding(lines[..|lines| - 1]))
  }

  predicate HasOk(lines: seq<string>) {
    lines != [] && (ClassOf(lines[|lines| - 1]) == EndLine(EndOk) || HasOk(lines[..|lines| - 1]))
  }

  /** The text between the last announcement and the first ending after it, unless that test
      is reported as fine. */
  function Context(lines: seq<string>): string {
    match AfterLastRun(lines)
    case None => ""
    case Some(tail) => if HasOk(tail) then "" else BeforeEnding(tail)
  }

  const INVALID := "invalid output"
  const NO_REASON := "\n"

  function Finish(kind: Kind, context: string): Parse {
    var text := if kind.Skipped? && context == "" then NO_REASON else context;
    if text == "" then
      (if kind.Successful? then Parsed(GtResult(kind, None)) else Aborted)
    else
      (if kind.Successful? then Aborted else Parsed(GtResult(kind, Some(text))))
  }

  function KindOf(ending: Ending): Kind {
    match ending
    case EndFailed => Kind.Failed
    case EndOk => Successful
    case EndSkipped => Kind.Skipped
  }

  /** The first line about disabled tests wins, else the last ending decides, else the output
      is invalid. */
  function Meaning(lines: seq<string>): Parse {
    if FirstDisabled(lines).Some? then Finish(Disabled, FirstDisabled(lines).value)
    else if LastEnding(lines).Some? then Finish(KindOf(LastEnding(lines).value), Context(lines))
    else Finish(Kind.Broken, INVALID)
  }

  // ---------- The scan ----------

  lemma {:induction false} BeforeEndingNext(lines: seq<string>, line: string)
    ensures BeforeEnding(lines + [line]) ==
      if HasEnding(lines) || ClassOf(line).EndLine? then BeforeEnding(lines) else BeforeEnding(lines) + line
  {
    if lines == [] {
      assert [line][1..] == [];
    } else {
      assert (lines + [line])[0] == lines[0] && (lines + [line])[1..] == lines[1..] + [line];
      HasEndingFront(lines);
      if !ClassOf(lines[0]).EndLine? {
        BeforeEndingNext(lines[1..], line);
      }
    }
  }

  lemma {:induction false} HasEndingFront(lines: seq<string>)
    requires lines != []
    ensures HasEnding(lines) <==> ClassOf(lines[0]).EndLine? || HasEnding(lines[1..])
  {
    hide ClassOf;
    var init, rest := lines[..|lines| - 1], lines[1..];
    if |lines| > 1 {
      HasEndingFront(init);
      assert init[1..] == rest[..|rest| - 1];
      assert rest[|rest| - 1] == lines[|lines| - 1];
    }
  }

  /** What the variables of the loop hold after some lines, none of them about disabled tests. */
  predicate Scanned(lines: seq<string>, capture: bool, context: string, kind: Option<Kind>) {
    && kind == (if LastEnding(lines).Some? then Some(KindOf(LastEnding(lines).value)) else None)
    && context == Context(lines)
    && (capture <==> AfterLastRun(lines).Some? && !HasEnding(AfterLastRun(lines).value))
  }

  lemma {:induction false} OkIsEnding(lines: seq<string>)
    ensures HasOk(lines) ==> HasEnding(lines)
  {
    if lines != [] {
      OkIsEnding(lines[..|lines| - 1]);
    }
  }

  lemma ScanNext(lines: seq<string>, line: string, capture: bool, context: string, kind: Option<Kind>)
    requires Scanned(lines, capture, context, kind)
    ensures match ClassOf(line)
            case DisabledLine(_) => true
            case RunLine => Scanned(lines + [line], true, "", kind)
            case EndLine(e) => Scanned(lines + [line], false, if e.EndOk? then "" else context, Some(KindOf(e)))
            case PlainLine => Scanned(lines + [line], capture, if capture then context + line else context, kind)
  {
    hide ClassOf;
    assert (lines + [line])[..|lines|] == lines;
    if AfterLastRun(lines).Some? {
      var tail := AfterLastRun(lines).value;
      assert (tail + [line])[..|tail|] == tail;
      BeforeEndingNext(tail, line);
      OkIsEnding(tail);
    }
  }

  lemma {:induction false} FirstDisabledNext(lines: seq<string>, rest: seq<string>)
    requires FirstDisabled(lines).None?
    ensures FirstDisabled(lines + rest) == FirstDisabled(rest)
  {
    hide ClassOf;
    if lines == [] {
      assert lines + rest == rest;
    } else {
      assert (lines + rest)[1..] == lines[1..] + rest;
      FirstDisabledNext(lines[1..], rest);
    }
  }

  method ReadLines(content: string) returns (lines: seq<string>)
    ensures lines == RawLines(content)
  {
    hide LineEnd, Concat;
    lines := [];
    var input, good := content, true;
    while good
      invariant lines + (if good then RawLines(input) else []) == RawLines(content)
      decreases |input|, good
    {
      var end := LineEnd(input);
      if end == |input| {
        good := false;
        lines := lines + [input];
      } else {
        lines := lines + [input[..end + 1]];
        input := input[end + 1..];
      }
    }
  }

  /** One pass over the lines computes their meaning, whatever they are. */
  method ParseOutput(content: string) returns (r: Parse)
    ensures r == Meaning(RawLines(content))
  {
    hide ClassOf, Scanned, Concat, RawLines, Finish;
    var lines := ReadLines(content);
    var captureContext, context := false, "";
    var status: Option<Kind> := None;
    var i := 0;
    NothingScanned();
    while i < |lines|
      invariant 0 <= i <= |lines|
      invariant FirstDisabled(lines[..i]).None?
      invariant Scanned(lines[..i], captureContext, context, status)
    {
      var line := lines[i];
      assert lines[..i + 1] == lines[..i] + [line] && lines == lines[..i] + lines[i..];
      FirstDisabledNext(lines[..i], [line]);
      FirstDisabledNext(lines[..i], lines[i..]);
      ScanNext(lines[..i], line, captureContext, context, status);
      assert FirstDisabled([line]) == FirstDisabled(lines[i..i + 1]);
      match ClassOf(line) {
        case DisabledLine(text) =>
          return Finish(Disabled, text);
        case RunLine =>
          captureContext, context := true, "";
        case EndLine(ending) =>
          if ending.EndOk? {
            context := "";
          }
          status := Some(KindOf(ending));
          captureContext := false;
        case PlainLine =>
          if captureContext {
            context := context + line;
          }
      }
      i := i + 1;
    }
    assert lines[..|lines|] == lines;
    ScannedAll(lines, captureContext, context, status);
    return if status.None? then Finish(Kind.Broken, INVALID) else Finish(status.value, context);
  }

  lemma NothingScanned()
    ensures Scanned([], false, "", None) && FirstDisabled([]).None?
  {
  }

  lemma ScannedAll(lines: seq<string>, capture: bool, context: string, kind: Option<Kind>)
    requires Scanned(lines, capture, context, kind) && FirstDisabled(lines).None?
    ensures Meaning(lines) == if kind.None? then Finish(Kind.Broken, INVALID) else Finish(kind.value, context)
  {
  }

  // ---------- Assertions ----------

  lemma {:induction false} LastEndingOfTail(lines: seq<string>)
    requires AfterLastRun(lines).Some? && HasEnding(AfterLastRun(lines).value)
    ensures LastEnding(lines) == LastEnding(AfterLastRun(lines).value)
    ensures LastEnding(lines) == Some(EndOk) ==> HasOk(AfterLastRun(lines).value)
  {
    hide ClassOf;
    var tail := AfterLastRun(lines).value;
    var before := lines[..|lines| - 1];
    var last := lines[|lines| - 1];
    assert AfterLastRun(before).Some? && tail == AfterLastRun(before).value + [last];
    assert tail[..|tail| - 1] == AfterLastRun(before).value;
    if !ClassOf(last).EndLine? {
      LastEndingOfTail(before);
    }
  }

  lemma {:induction false} NothingEnds(lines: seq<string>)
    requires !HasEnding(lines)
    ensures BeforeEnding(lines) == Concat(lines)
  {
    hide ClassOf;
    if lines != [] {
      HasEndingFront(lines);
      NothingEnds(lines[1..]);
    }
  }

  /** The last ending is fine, but a test is announced after it and text follows. */
  predicate TextAfterOk(lines: seq<string>) {
    && LastEnding(lines) == Some(EndOk)
    && match AfterLastRun(lines)
       case None => false
       case Some(tail) => !HasEnding(tail) && Concat(tail) != ""
  }

  /** The last ending is a failure that no text explains. */
  predicate FailedWithoutText(lines: seq<string>) {
    LastEnding(lines) == Some(EndFailed) && Context(lines) == ""
  }

  /** Exactly when the parser stops on an assertion. */
  lemma AbortedMeaning(lines: seq<string>)
    ensures Meaning(lines).Aborted? <==>
      FirstDisabled(lines).None? && (FailedWithoutText(lines) || TextAfterOk(lines))
  {
    hide ClassOf;
    if AfterLastRun(lines).Some? {
      var tail := AfterLastRun(lines).value;
      if HasEnding(tail) {
        LastEndingOfTail(lines);
      } else {
        NothingEnds(tail);
      }
      OkIsEnding(tail);
    }
  }

  /** With every ending after the last announcement and text for a failure, no assertion is
      reached. */
  lemma WellBehaved(lines: seq<string>)
    requires LastEnding(lines).Some? ==> AfterLastRun(lines).Some? && HasEnding(AfterLastRun(lines).value)
    requires LastEnding(lines) == Some(EndFailed) ==> Context(lines) != ""
    ensures Meaning(lines).Parsed?
  {
    AbortedMeaning(lines);
  }

  // ---------- Verdicts ----------

  /** A successful result has no reason and every other one has one. */
  predicate WellFormed(r: GtResult) {
    (r.kind.Successful? <==> r.reason.None?) && r.reason != Some("")
  }

  function BrokenResult(reason: string): (r: GtResult)
    requires reason != ""
    ensures WellFormed(r) && r.kind.Broken?
  {
    GtResult(Kind.Broken, Some(reason))
  }

  /** A missing status leaves every result as it is. */
  function Apply(r: GtResult, status: Option<ExitStatus>): (applied: GtResult)
    requires WellFormed(r)
    ensures WellFormed(applied)
    ensures applied == r || applied.kind.Broken?
    ensures applied == r <==>
      r.kind.Broken? || status.None?
      || status == Some(Exited(if r.kind.Failed? then EXIT_FAILURE else EXIT_SUCCESS))
  {
    if status.None? then r
    else
      match r.kind
      case Broken => r
      case Disabled =>
        if Succeeded(status) then r
        else BrokenResult("Disabled test case should have reported success but " + FormatStatus(status.value))
      case Failed =>
        if status == Some(Exited(EXIT_FAILURE)) then r
        else BrokenResult("Failed test case should have reported failure but " + FormatStatus(status.value))
      case Skipped =>
        if Succeeded(status) then r
        else BrokenResult("Skipped test case should have reported success but " + FormatStatus(status.value))
      case Successful =>
        if Succeeded(status) then r
        else BrokenResult("Passed test case should have reported success but " + FormatStatus(status.value))
  }

  function Externalize(r: GtResult): (v: TestResult)
    requires WellFormed(r)
    ensures v.HasDueReason()
    ensures v.kind.Passed? <==> r.kind.Successful?
    ensures v.kind.Skipped? <==> r.kind.Skipped? || r.kind.Disabled?
    ensures v.kind.Failed? <==> r.kind.Failed?
    ensures v.kind.Broken? <==> r.kind.Broken?
    ensures v.reason == if r.reason.Some? then r.reason.value else ""
  {
    match r.kind
    case Broken => TestResult(ResultType.Broken, r.reason.value)
    case Disabled => TestResult(ResultType.Skipped, r.reason.value)
    case Failed => TestResult(ResultType.Failed, r.reason.value)
    case Skipped => TestResult(ResultType.Skipped, r.reason.value)
    case Successful => TestResult(ResultType.Passed, "")
  }

  lemma MeaningIsWellFormed(lines: seq<string>)
    ensures Meaning(lines).Parsed? ==> WellFormed(Meaning(lines).result)
  {
    hide ClassOf;
  }

  datatype Calculation = Verdict(verdict: TestResult) | Stopped

  function PrematureExit(status: ExitStatus): GtResult {
    BrokenResult("Error: Premature exit. Test case " + FormatStatus(status))
  }

  /** The raw result before it is reinterpreted; `None` if an assertion stops the program. */
  function Reported(status: Option<ExitStatus>, file: Option<string>): (r: Option<GtResult>)
    ensures r.Some? ==> WellFormed(r.value)
  {
    if file.None? then
      Some(if status.None? then BrokenResult("Unknown result") else PrematureExit(status.value))
    else
      match Meaning(RawLines(file.value))
      case Aborted => None
      case Parsed(r) =>
        if r == BrokenResult(INVALID) && status.Some? then Some(PrematureExit(status.value)) else Some(r)
  }

  function Calculated(status: Option<ExitStatus>, file: Option<string>): Calculation {
    match Reported(status, file)
    case None => Stopped
    case Some(r) => Verdict(Externalize(Apply(r, status)))
  }

  method CalculateGoogletestResult(status: Option<ExitStatus>, file: Option<string>) returns (c: Calculation)
    ensures c == Calculated(status, file)
  {
    hide FormatStatus, Meaning, RawLines, Apply, Externalize;
    var result := BrokenResult("Unknown result");
    if file.Some? {
      var parse := ParseOutput(file.value);
      MeaningIsWellFormed(RawLines(file.value));
      if parse.Aborted? {
        return Stopped;
      }
      result := parse.result;
      if result.kind.Broken? && status.Some? && result.reason == Some(INVALID) {
        result := PrematureExit(status.value);
      }
    } else if status.Some? {
      result := PrematureExit(status.value);
    }
    result := Apply(result, status);
    return Verdict(Externalize(result));
  }

  /** The verdict of a googletest test case; a timeout never gets to the scan. */
  method ComputeResult(status: Option<ExitStatus>, file: Option<string>) returns (c: Calculation)
    ensures status.None? ==> c == Verdict(TestResult(ResultType.Broken, "Test case body timed out"))
    ensures status.Some? ==> c == Calculated(status, file)
  {
    if status.None? {
      return Verdict(TestResult(ResultType.Broken, "Test case body timed out"));
    }
    c := CalculateGoogletestResult(status, file);
  }

  const PADDING := "  "
  const LONE_FAILURE := "[" + PADDING + "FAILED" + PADDING + "]" + " A.B"

  lemma LoneFailureText()
    ensures LONE_FAILURE == "[  FAILED  ] A.B"
    ensures 'Y' !in LONE_FAILURE && 'U' !in LONE_FAILURE && '\n' !in LONE_FAILURE
  {
  }

  lemma LoneFailureLine()
    ensures ClassOf(LONE_FAILURE) == EndLine(EndFailed) && RawLines(LONE_FAILURE) == [LONE_FAILURE]
  {
    hide FindDisabled, HasRun, FindEnding;
    LoneFailureText();
    NoDisabledLine(LONE_FAILURE);
    NoRunLine(LONE_FAILURE);
    EndingRead(PADDING, PADDING, " A.B");
    OneLine(LONE_FAILURE);
  }

  /** A failure that nothing announces and no text explains stops the program. */
  lemma LoneFailure()
    ensures Calculated(Some(Exited(EXIT_FAILURE)), Some(LONE_FAILURE)) == Stopped
  {
    hide ClassOf, RawLines;
    LoneFailureLine();
    var lines := [LONE_FAILURE];
    assert lines[..0] == [] && lines[1..] == [];
    AbortedMeaning(lines);
  }

  /** What the output says, on its own, is good. */
  predicate SaysGood(file: Option<string>) {
    file.Some? && var p := Meaning(RawLines(file.value));
      p.Parsed? && !p.result.kind.Broken? && !p.result.kind.Failed?
  }

  /** The calculation is good exactly if the output says so and the program exits with code 0,
      or has no status at all: without a status the output alone decides. */
  lemma GoodMeaning(status: Option<ExitStatus>, file: Option<string>)
    ensures var c := Calculated(status, file);
      c.Verdict? && c.verdict.Good() <==> SaysGood(file) && (status.None? || Succeeded(status))
  {
    hide FormatStatus, Meaning, RawLines;
  }

  /** The output has a line about a disabled test, whose text is the reason, or the last
      ending is a skip. */
  predicate SaysSkipped(lines: seq<string>, reason: string) {
    match FirstDisabled(lines)
    case Some(text) => reason == text
    case None => LastEnding(lines) == Some(EndSkipped) && reason == if Context(lines) == "" then NO_REASON else Context(lines)
  }

  /** The last ending is a failure that some text explains. */
  predicate SaysFailed(lines: seq<string>, reason: string) {
    && FirstDisabled(lines).None? && LastEnding(lines) == Some(EndFailed)
    && reason != "" && reason == Context(lines)
  }

  /** Nothing is disabled, the last ending is OK, and nothing is said after a later
      announcement. */
  predicate SaysPassed(lines: seq<string>) {
    FirstDisabled(lines).None? && LastEnding(lines) == Some(EndOk) && !TextAfterOk(lines)
  }

  /** Exactly when the verdict is of each kind, and with which reason. */
  lemma KindMeaning(status: Option<ExitStatus>, file: Option<string>, reason: string)
    ensures var c := Calculated(status, file);
      var lines := if file.Some? then RawLines(file.value) else [];
      var said := file.Some?;
      && (c == Verdict(TestResult(ResultType.Passed, reason)) <==>
            said && SaysPassed(lines) && reason == "" && (status.None? || Succeeded(status)))
      && (c == Verdict(TestResult(ResultType.Skipped, reason)) <==>
            said && SaysSkipped(lines, reason) && (status.None? || Succeeded(status)))
      && (c == Verdict(TestResult(ResultType.Failed, reason)) <==>
            said && SaysFailed(lines, reason) && (status.None? || status == Some(Exited(EXIT_FAILURE))))
      && c != Verdict(TestResult(ResultType.ExpectedFailure, reason))
  {
    hide FormatStatus, RawLines, ClassOf, AfterLastRun, HasEnding, Context;
    if file.Some? {
      AbortedMeaning(RawLines(file.value));
    }
  }

  /** A test case passes exactly if nothing is disabled, the last ending is OK, nothing is said
      after a later announcement, and the program exits with code 0. */
  lemma PassedMeaning(status: ExitStatus, file: Option<string>)
    ensures var c := Calculated(Some(status), file);
      c.Verdict? && c.verdict.kind.Passed? <==>
      && Succeeded(Some(status)) && file.Some?
      && FirstDisabled(RawLines(file.value)).None?
      && LastEnding(RawLines(file.value)) == Some(EndOk) && !TextAfterOk(RawLines(file.value))
  {
    hide FormatStatus, RawLines, ClassOf;
    if file.Some? {
      AbortedMeaning(RawLines(file.value));
    }
  }
}
