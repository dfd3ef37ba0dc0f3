/** Pieces of text processing shared by the parsers of test output. */
module Text {
  import opened Results

  /** The lines `std::getline` reads: a last line without newline counts unless it is empty. */
  function Lines(content: string): (lines: seq<string>)
    ensures |lines| <= |content|
    decreases |content|
  {
    if content == "" then []
    else
      var end := LineEnd(content);
      [content[..end]] + if end < |content| then Lines(content[end + 1..]) else []
  }

  /** The position of the first newline, or the end of the text. */
  function LineEnd(content: string): (end: nat)
    ensures end <= |content| && '\n' !in content[..end]
    ensures end < |content| ==> content[end] == '\n'
    ensures end == |content| ==> '\n' !in content
  {
    if content == "" || content[0] == '\n' then 0 else 1 + LineEnd(content[1..])
  }

  function Joined(lines: seq<string>): string {
    if lines == [] then "" else lines[0] + "\n" + Joined(lines[1..])
  }

  /** The lines hold no newline, and with a newline after each they are the text, whose last
      line may lack its own. */
  lemma {:induction false} LinesMeaning(content: string)
    ensures forall i :: 0 <= i < |Lines(content)| ==> '\n' !in Lines(content)[i]
    ensures Joined(Lines(content)) ==
      if content == "" || content[|content| - 1] == '\n' then content else content + "\n"
    decreases |content|
  {
    hide Lines, LineEnd, Joined;
    if content == "" {
      NoLines();
    } else {
      var end := LineEnd(content);
      var line := content[..end];
      LinesNext(content);
      if end < |content| {
        var rest := content[end + 1..];
        LinesMeaning(rest);
        JoinedNext(line, Lines(rest));
        assert content == line + "\n" + rest;
        assert line + "\n" + (rest + "\n") == content + "\n";
      } else {
        assert line == content;
        JoinedNext(line, []);
        NoLines();
        assert [line] + [] == [line];
      }
    }
  }

  lemma NoLines()
    ensures Lines("") == [] && Joined([]) == ""
  {
  }

  lemma LinesNext(content: string)
    requires content != ""
    ensures var end := LineEnd(content);
      Lines(content) == [content[..end]] + if end < |content| then Lines(content[end + 1..]) else []
  {
  }

  lemma JoinedNext(line: string, lines: seq<string>)
    ensures Joined([line] + lines) == line + "\n" + Joined(lines)
  {
    assert ([line] + lines)[1..] == lines;
  }

  lemma {:induction false} SkippedAreSpaces(s: string, i: nat)
    requires i < |s| - |SkipSpace(s)|
    ensures IsSpace(s[i])
  {
    if i > 0 {
      SkippedAreSpaces(s[1..], i - 1);
    }
  }

  /** The next line and what is left of the input. */
  method GetLine(content: string) returns (line: string, rest: string)
    requires content != ""
    ensures Lines(content) == [line] + Lines(rest) && |rest| < |content|
  {
    var end := 0;
    while end < |content| && content[end] != '\n'
      invariant 0 <= end <= LineEnd(content)
      invariant LineEnd(content) == end + LineEnd(content[end..])
    {
      assert content[end..][1..] == content[end + 1..];
      end := end + 1;
    }
    line, rest := content[..end], if end < |content| then content[end + 1..] else "";
  }

  /** What a C function sees of a string. */
  function CString(s: string): (c: string)
    ensures c <= s && '\0' !in c
  {
    if s == "" || s[0] == '\0' then "" else [s[0]] + CString(s[1..])
  }

  function LowerChar(c: char): char {
    if 'A' <= c <= 'Z' then (c as int + 32) as char else c
  }

  /** `s` starts with `word`, given in lower case, whatever the case of `s`. */
  predicate StartsWithFold(s: string, word: string) {
    |word| <= |s| && forall i :: 0 <= i < |word| ==> LowerChar(s[i]) == word[i]
  }

  /** The leftmost place where `word` occurs in `s`, whatever the case of `s`. */
  function FindFold(s: string, word: string): (at: Option<nat>)
    ensures at.Some? ==> at.value <= |s| && StartsWithFold(s[at.value..], word)
    ensures at.Some? ==> forall i :: 0 <= i < at.value ==> !StartsWithFold(s[i..], word)
    ensures at.None? ==> forall i :: 0 <= i <= |s| ==> !StartsWithFold(s[i..], word)
  {
    if StartsWithFold(s, word) then
      assert s[0..] == s;
      Some(0)
    else if s == "" then None
    else
      assert s[0..] == s;
      assert forall i :: 1 <= i <= |s| ==> s[i..] == s[1..][i - 1..];
      match FindFold(s[1..], word)
      case None => None
      case Some(i) => Some(i + 1)
  }

  predicate IsBlank(c: char) {
    c == ' ' || c == '\t'
  }

  function TrimBlanks(s: string): (t: string)
    ensures |t| <= |s| && t == s[|s| - |t|..]
    ensures t != "" ==> !IsBlank(t[0])
  {
    if s != "" && IsBlank(s[0]) then TrimBlanks(s[1..]) else s
  }

  predicate IsSpace(c: char) {
    c == ' ' || '\t' <= c <= '\r'
  }

  function SkipSpace(s: string): (t: string)
    ensures |t| <= |s| && t == s[|s| - |t|..] && (t != "" ==> !IsSpace(t[0]))
  {
    if s != "" && IsSpace(s[0]) then SkipSpace(s[1..]) else s
  }

  predicate StartsWith(s: string, prefix: string) {
    prefix <= s
  }

  // ---------- Decimal numbers ----------

  predicate IsDigit(c: char) {
    '0' <= c <= '9'
  }

  predicate AllDigits(s: string) {
    forall i :: 0 <= i < |s| ==> IsDigit(s[i])
  }

  function DigitPrefix(s: string): (n: nat)
    ensures n <= |s| && AllDigits(s[..n])
    ensures n < |s| ==> !IsDigit(s[n])
  {
    if s != "" && IsDigit(s[0]) then 1 + DigitPrefix(s[1..]) else 0
  }

  function Value(s: string): nat
    requires AllDigits(s)
  {
    if s == "" then 0 else 10 * Value(s[..|s| - 1]) + (s[|s| - 1] as int - '0' as int)
  }

  function Power10(width: nat): (p: nat)
    ensures p > 0
  {
    if width == 0 then 1 else 10 * Power10(width - 1)
  }

  function Digit(d: nat): (c: char)
    requires d < 10
    ensures IsDigit(c)
  {
    ('0' as int + d) as char
  }

  /** The decimal form of a number; reading it gives the number back. */
  function Decimal(n: nat): (s: string)
    ensures s != "" && AllDigits(s) && Value(s) == n
  {
    if n < 10 then [Digit(n)] else Decimal(n / 10) + [Digit(n % 10)]
  }

  lemma {:induction false} DigitsEndThere(digits: string, rest: string)
    requires AllDigits(digits) && (rest == "" || !IsDigit(rest[0]))
    ensures DigitPrefix(digits + rest) == |digits|
  {
    if digits == "" {
      assert digits + rest == rest;
    } else {
      assert (digits + rest)[1..] == digits[1..] + rest;
      DigitsEndThere(digits[1..], rest);
    }
  }

  function IntText(i: int): (s: string)
    ensures s != ""
  {
    if i < 0 then "-" + Decimal(-i) else Decimal(i)
  }

  lemma {:induction false} CStringOfText(s: string)
    requires '\0' !in s
    ensures CString(s) == s
  {
    if s != "" {
      assert s == [s[0]] + s[1..];
      CStringOfText(s[1..]);
    }
  }

  lemma {:induction false} OneLine(s: string)
    requires '\n' !in s
    ensures LineEnd(s) == |s| && (s != "" ==> Lines(s) == [s])
  {
    if s != "" {
      assert s == [s[0]] + s[1..];
      OneLine(s[1..]);
      assert s[..|s|] == s;
    }
  }

  /** How a process ended, in the words of the verdicts. */
  function FormatStatus(status: ExitStatus): string {
    match status
    case Exited(code) => "exited with code " + IntText(code)
    case Signaled(signal, core) => "received signal " + IntText(signal) + if core then " (core dumped)" else ""
  }

  /** A word that cannot begin in the prefix is found in the rest or not at all. */
  lemma FoundInRest(prefix: string, rest: string, word: string)
    requires forall i :: 0 <= i < |prefix| ==> !StartsWithFold((prefix + rest)[i..], word)
    ensures FindFold(prefix + rest, word).Some? <==> FindFold(rest, word).Some?
    ensures FindFold(rest, word).Some? ==> FindFold(prefix + rest, word) == Some(|prefix| + FindFold(rest, word).value)
  {
    hide FindFold, StartsWithFold;
    var s := prefix + rest;
    forall i | 0 <= i <= |rest|
      ensures s[|prefix| + i..] == rest[i..]
    {
    }
    if FindFold(s, word).Some? {
      var at := FindFold(s, word).value;
      assert at >= |prefix|;
      assert s[at..] == rest[at - |prefix|..];
    }
    if FindFold(rest, word).Some? {
      assert s[|prefix| + FindFold(rest, word).value..] == rest[FindFold(rest, word).value..];
    }
  }
}
