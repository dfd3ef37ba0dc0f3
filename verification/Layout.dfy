/** The names of results files and the search for the latest one (store/layout.cpp). */
module Layout {
  import opened Results
  import opened Strings
  import opened Text

  // ---------- Time ----------

  /** A moment as `gmtime_r` and the microseconds of a timestamp give it. */
  datatype Stamp = Stamp(year: int, month: int, day: int, hour: int, minute: int, second: int, micros: int)

  predicate IsLeap(year: int) {
    year % 4 == 0 && (year % 100 != 0 || year % 400 == 0)
  }

  function DaysInMonth(year: int, month: int): (n: int)
    ensures 28 <= n <= 31
  {
    if month == 2 then (if IsLeap(year) then 29 else 28)
    else if month in {4, 6, 9, 11} then 30
    else 31
  }

  function DaysBeforeMonth(year: int, month: int): int
    requires 1 <= month <= 13
  {
    if month == 1 then 0 else DaysBeforeMonth(year, month - 1) + DaysInMonth(year, month - 1)
  }

  function DaysBeforeYear(year: int): int
    requires 0 <= year
  {
    if year == 0 then 0 else DaysBeforeYear(year - 1) + DaysBeforeMonth(year - 1, 13)
  }

  /** The years that have four digits. */
  predicate Valid(s: Stamp) {
    && 1000 <= s.year <= 9999 && 1 <= s.month <= 12 && 1 <= s.day <= DaysInMonth(s.year, s.month)
    && 0 <= s.hour < 24 && 0 <= s.minute < 60 && 0 <= s.second < 60 && 0 <= s.micros < 1000000
  }

  function Day(s: Stamp): int
    requires Valid(s)
  {
    DaysBeforeYear(s.year) + DaysBeforeMonth(s.year, s.month) + s.day
  }

  /** Microseconds since a fixed moment. */
  function Ticks(s: Stamp): int
    requires Valid(s)
  {
    (((Day(s) * 24 + s.hour) * 60 + s.minute) * 60 + s.second) * 1000000 + s.micros
  }

  predicate DateBefore(a: Stamp, b: Stamp) {
    || a.year < b.year
    || (a.year == b.year && (a.month < b.month || (a.month == b.month && a.day < b.day)))
  }

  predicate TimeBefore(a: Stamp, b: Stamp) {
    || a.hour < b.hour
    || (a.hour == b.hour && (a.minute < b.minute || (a.minute == b.minute && a.second < b.second)))
  }

  predicate SameDate(a: Stamp, b: Stamp) {
    a.year == b.year && a.month == b.month && a.day == b.day
  }

  predicate SameTime(a: Stamp, b: Stamp) {
    a.hour == b.hour && a.minute == b.minute && a.second == b.second
  }

  lemma {:induction false} MonthsAddUp(year: int, a: int, b: int)
    requires 1 <= a < b <= 13
    ensures DaysBeforeMonth(year, a) + DaysInMonth(year, a) <= DaysBeforeMonth(year, b)
    decreases b
  {
    if a < b - 1 {
      MonthsAddUp(year, a, b - 1);
    }
  }

  lemma {:induction false} YearsAddUp(a: int, b: int)
    requires 0 <= a < b
    ensures DaysBeforeYear(a) + DaysBeforeMonth(a, 13) <= DaysBeforeYear(b)
    decreases b
  {
    if a < b - 1 {
      YearsAddUp(a, b - 1);
      MonthsAddUp(b - 1, 1, 13);
    }
  }

  lemma DaysFollowDates(a: Stamp, b: Stamp)
    requires Valid(a) && Valid(b) && DateBefore(a, b)
    ensures Day(a) < Day(b)
  {
    hide DaysBeforeMonth, DaysBeforeYear;
    if a.year < b.year {
      YearsAddUp(a.year, b.year);
      MonthsAddUp(a.year, a.month, 13);
      MonthStart(b.year, b.month);
    } else if a.month < b.month {
      MonthsAddUp(a.year, a.month, b.month);
    }
  }

  lemma {:induction false} MonthStart(year: int, month: int)
    requires 1 <= month <= 13
    ensures DaysBeforeMonth(year, month) >= 0
  {
    if month > 1 {
      MonthStart(year, month - 1);
    }
  }

  /** The calendar order is the order of time. */
  lemma TicksFollowFields(a: Stamp, b: Stamp)
    requires Valid(a) && Valid(b)
    ensures Ticks(a) < Ticks(b) <==>
      || DateBefore(a, b)
      || (SameDate(a, b) && (TimeBefore(a, b) || (SameTime(a, b) && a.micros < b.micros)))
  {
    hide DaysBeforeMonth, DaysBeforeYear;
    if DateBefore(a, b) {
      DaysFollowDates(a, b);
    } else if DateBefore(b, a) {
      DaysFollowDates(b, a);
    }
  }

  // ---------- Names ----------

  /** A number in a fixed number of digits. */
  function Padded(n: nat, width: nat): (s: string)
    requires n < Power10(width)
    ensures |s| == width && AllDigits(s)
  {
    if width == 0 then "" else Padded(n / 10, width - 1) + [Digit(n % 10)]
  }

  lemma LessConcat(a: string, b: string, x: string, y: string)
    requires |a| == |b|
    ensures Less(a + x, b + y) <==> Less(a, b) || (a == b && Less(x, y))
    ensures a + x == b + y <==> a == b && x == y
  {
    if a == b {
      LessAfterPrefix(a, x, y);
      LessIsStrict(a, a);
      assert (a + x)[|a|..] == x && (b + y)[|a|..] == y;
    } else {
      LessBeforeSuffix(a, b, x, y);
      assert (a + x)[..|a|] == a && (b + y)[..|a|] == b;
    }
  }

  /** Numbers of the same width are in the order of their digits. */
  lemma {:induction false} PaddedOrder(a: nat, b: nat, width: nat)
    requires a < Power10(width) && b < Power10(width)
    ensures Less(Padded(a, width), Padded(b, width)) <==> a < b
    ensures Padded(a, width) == Padded(b, width) <==> a == b
  {
    if width > 0 {
      PaddedOrder(a / 10, b / 10, width - 1);
      LessConcat(Padded(a / 10, width - 1), Padded(b / 10, width - 1), [Digit(a % 10)], [Digit(b % 10)]);
      LastDigits(a % 10, b % 10);
    }
  }

  lemma LastDigits(a: nat, b: nat)
    requires a < 10 && b < 10
    ensures Less([Digit(a)], [Digit(b)]) <==> a < b
    ensures [Digit(a)] == [Digit(b)] <==> a == b
  {
  }

  lemma Widths()
    ensures Power10(2) == 100 && Power10(4) == 10000 && Power10(6) == 1000000
  {
  }

  function DateText(s: Stamp): (t: string)
    requires Valid(s)
    ensures |t| == 8 && AllDigits(t)
  {
    Widths();
    Padded(s.year, 4) + (Padded(s.month, 2) + Padded(s.day, 2))
  }

  function TimeText(s: Stamp): (t: string)
    requires Valid(s)
    ensures |t| == 6 && AllDigits(t)
  {
    Widths();
    Padded(s.hour, 2) + (Padded(s.minute, 2) + Padded(s.second, 2))
  }

  function MicrosText(s: Stamp): (t: string)
    requires Valid(s)
    ensures |t| == 6 && AllDigits(t)
  {
    Widths();
    Padded(s.micros, 6)
  }

  function StampText(s: Stamp): (t: string)
    requires Valid(s)
    ensures |t| == 22
  {
    DateText(s) + ("-" + (TimeText(s) + ("-" + MicrosText(s))))
  }

  function NewId(suite: string, s: Stamp): string
    requires Valid(s)
  {
    suite + ("." + StampText(s))
  }

  function FileName(suite: string, s: Stamp): string
    requires Valid(s)
  {
    "results." + (NewId(suite, s) + ".db")
  }

  lemma DateOrder(a: Stamp, b: Stamp)
    requires Valid(a) && Valid(b)
    ensures Less(DateText(a), DateText(b)) <==> DateBefore(a, b)
    ensures DateText(a) == DateText(b) <==> SameDate(a, b)
  {
    Widths();
    PaddedOrder(a.year, b.year, 4);
    PaddedOrder(a.month, b.month, 2);
    PaddedOrder(a.day, b.day, 2);
    LessConcat(Padded(a.month, 2), Padded(b.month, 2), Padded(a.day, 2), Padded(b.day, 2));
    LessConcat(Padded(a.year, 4), Padded(b.year, 4),
               Padded(a.month, 2) + Padded(a.day, 2), Padded(b.month, 2) + Padded(b.day, 2));
  }

  lemma TimeOrder(a: Stamp, b: Stamp)
    requires Valid(a) && Valid(b)
    ensures Less(TimeText(a), TimeText(b)) <==> TimeBefore(a, b)
    ensures TimeText(a) == TimeText(b) <==> SameTime(a, b)
  {
    Widths();
    PaddedOrder(a.hour, b.hour, 2);
    PaddedOrder(a.minute, b.minute, 2);
    PaddedOrder(a.second, b.second, 2);
    LessConcat(Padded(a.minute, 2), Padded(b.minute, 2), Padded(a.second, 2), Padded(b.second, 2));
    LessConcat(Padded(a.hour, 2), Padded(b.hour, 2),
               Padded(a.minute, 2) + Padded(a.second, 2), Padded(b.minute, 2) + Padded(b.second, 2));
  }

  lemma StampOrder(a: Stamp, b: Stamp)
    requires Valid(a) && Valid(b)
    ensures Less(StampText(a), StampText(b)) <==> Ticks(a) < Ticks(b)
    ensures StampText(a) == StampText(b) <==> a == b
  {
    hide DateText, TimeText, MicrosText, Ticks, Less;
    TicksFollowFields(a, b);
    DateOrder(a, b);
    TimeOrder(a, b);
    MicrosOrder(a, b);
    LessConcat("-", "-", MicrosText(a), MicrosText(b));
    LessIsStrict("-", "-");
    LessConcat(TimeText(a), TimeText(b), "-" + MicrosText(a), "-" + MicrosText(b));
    LessConcat("-", "-", TimeText(a) + ("-" + MicrosText(a)), TimeText(b) + ("-" + MicrosText(b)));
    LessConcat(DateText(a), DateText(b),
               "-" + (TimeText(a) + ("-" + MicrosText(a))), "-" + (TimeText(b) + ("-" + MicrosText(b))));
  }

  lemma MicrosOrder(a: Stamp, b: Stamp)
    requires Valid(a) && Valid(b)
    ensures Less(MicrosText(a), MicrosText(b)) <==> a.micros < b.micros
    ensures "-" + MicrosText(a) == "-" + MicrosText(b) <==> a.micros == b.micros
  {
    Widths();
    PaddedOrder(a.micros, b.micros, 6);
    LessConcat("-", "-", MicrosText(a), MicrosText(b));
  }

  /** The order of the names of one suite is the order of time. */
  lemma NamesFollowTime(suite: string, a: Stamp, b: Stamp)
    requires Valid(a) && Valid(b)
    ensures Less(FileName(suite, a), FileName(suite, b)) <==> Ticks(a) < Ticks(b)
    ensures FileName(suite, a) == FileName(suite, b) <==> a == b
  {
    hide StampText, Ticks, Less;
    StampOrder(a, b);
    LessConcat(StampText(a), StampText(b), ".db", ".db");
    LessIsStrict(".db", ".db");
    var head := "results." + (suite + ".");
    assert FileName(suite, a) == head + (StampText(a) + ".db");
    assert FileName(suite, b) == head + (StampText(b) + ".db");
    LessConcat(head, head, StampText(a) + ".db", StampText(b) + ".db");
    LessIsStrict(head, head);
  }

  // ---------- The pattern ----------

  /** Characters with a meaning of their own in a regular expression, apart from the dot. */
  predicate IsSpecial(c: char) {
    c in "\\^$*+?()[]{}|"
  }

  /** Nothing but dots is special in the pattern. */
  predicate PlainPattern(suite: string) {
    forall i :: 0 <= i < |suite| ==> !IsSpecial(suite[i])
  }

  /** A dot in a plain pattern stands for any character, and any other character for itself. */
  predicate FitsPattern(pattern: string, text: string) {
    |pattern| == |text| && forall i :: 0 <= i < |pattern| ==> pattern[i] == '.' || pattern[i] == text[i]
  }

  predicate IsStampText(t: string) {
    && |t| == 22 && t[8] == '-' && t[15] == '-'
    && AllDigits(t[..8]) && AllDigits(t[9..15]) && AllDigits(t[16..])
  }

  /** The name is matched by the pattern of a suite. */
  predicate Matches(suite: string, name: string)
    requires PlainPattern(suite)
  {
    var n := |suite|;
    && |name| == n + 34
    && FitsPattern("results.", name[..8]) && FitsPattern(suite, name[8..8 + n]) && FitsPattern(".", name[8 + n..9 + n])
    && IsStampText(name[9 + n..31 + n]) && FitsPattern(".db", name[31 + n..])
  }

  lemma StampTextFits(s: Stamp)
    requires Valid(s)
    ensures IsStampText(StampText(s))
  {
    hide DateText, TimeText, MicrosText;
    var t := StampText(s);
    assert t[..8] == DateText(s) && t[9..15] == TimeText(s) && t[16..] == MicrosText(s);
  }

  /** The names the pattern of a suite matches, among those made for any suite. */
  lemma MatchMeaning(suite: string, other: string, s: Stamp)
    requires PlainPattern(suite) && Valid(s)
    ensures Matches(suite, FileName(other, s)) <==> FitsPattern(suite, other)
  {
    hide StampText, IsStampText;
    StampTextFits(s);
    var name := FileName(other, s);
    var n := |other|;
    assert |name| == n + 34;
    assert name[..8] == "results." && name[8..8 + n] == other && name[8 + n..9 + n] == ".";
    assert name[9 + n..31 + n] == StampText(s) && name[31 + n..] == ".db";
  }

  /** A text that fits a pattern with a dot in it and is not the pattern itself. */
  lemma OtherFits(suite: string, i: nat)
    requires i < |suite| && suite[i] == '.'
    ensures FitsPattern(suite, suite[i := '_']) && suite[i := '_'] != suite
  {
    assert suite[i := '_'][i] == '_';
  }

  /** The suites that find only their own files are exactly those without a dot. */
  lemma DotlessMatch(suite: string)
    ensures '.' !in suite <==> forall other :: FitsPattern(suite, other) ==> other == suite
  {
    if '.' in suite {
      var i :| 0 <= i < |suite| && suite[i] == '.';
      OtherFits(suite, i);
    }
  }

  // ---------- The latest file ----------

  /** The greatest name that the expression matches, if there is any. */
  predicate IsLatest(preg: string -> bool, names: seq<string>, latest: Option<string>) {
    && (latest.None? <==> forall k :: 0 <= k < |names| ==> !preg(names[k]))
    && (latest.Some? ==> preg(latest.value) && latest.value in names)
    && (latest.Some? ==> forall k :: 0 <= k < |names| && preg(names[k]) ==> AtMost(names[k], latest.value))
  }

  /** The search for any expression; `None` stands for one that does not compile, and for the
      error when there is no file.  A name in a directory is not empty. */
  method FindLatest(preg: Option<string -> bool>, names: seq<string>) returns (latest: Option<string>)
    requires forall k :: 0 <= k < |names| ==> names[k] != ""
    ensures preg.None? ==> latest.None?
    ensures preg.Some? ==> IsLatest(preg.value, names, latest)
  {
    if preg.None? {
      return None;
    }
    var found := "";
    var i := 0;
    while i < |names|
      invariant 0 <= i <= |names|
      invariant found == "" <==> forall k :: 0 <= k < i ==> !preg.value(names[k])
      invariant found != "" ==> preg.value(found) && found in names
      invariant forall k :: 0 <= k < i && preg.value(names[k]) ==> AtMost(names[k], found)
    {
      var name := names[i];
      if preg.value(name) {
        LessIsTotal(found, name);
        if found == "" || Less(found, name) {
          forall k | 0 <= k < i && preg.value(names[k])
            ensures AtMost(names[k], name)
          {
            if Less(names[k], found) && Less(found, name) {
              LessIsTransitive(names[k], found, name);
            }
          }
          found := name;
        }
      }
      i := i + 1;
    }
    latest := if found == "" then None else Some(found);
  }

  function PatternOf(suite: string): string -> bool
    requires PlainPattern(suite)
  {
    name => Matches(suite, name)
  }

  datatype Run = Run(suite: string, stamp: Stamp)

  /** The directory holds the files of the runs, in any order, and nothing else that the
      pattern of the suite matches. */
  ghost predicate Holds(names: seq<string>, suite: string, runs: seq<Run>)
    requires PlainPattern(suite)
  {
    && (forall r :: 0 <= r < |runs| ==> Valid(runs[r].stamp) && FileName(runs[r].suite, runs[r].stamp) in names)
    && (forall k :: 0 <= k < |names| && Matches(suite, names[k]) ==> IsRun(names[k], runs))
  }

  ghost predicate IsRun(name: string, runs: seq<Run>) {
    exists r :: 0 <= r < |runs| && Valid(runs[r].stamp) && name == FileName(runs[r].suite, runs[r].stamp)
  }

  /** The newest run of a suite. */
  predicate IsNewest(runs: seq<Run>, suite: string, r: nat)
    requires forall k :: 0 <= k < |runs| ==> Valid(runs[k].stamp)
  {
    && r < |runs| && runs[r].suite == suite
    && forall k :: 0 <= k < |runs| && runs[k].suite == suite ==> Ticks(runs[k].stamp) <= Ticks(runs[r].stamp)
  }

  /** The names of two suites of the same length are in the order of the suites, whatever the
      time. */
  lemma NamesOfSuites(suite: string, other: string, a: Stamp, b: Stamp)
    requires Valid(a) && Valid(b) && |suite| == |other| && suite != other
    ensures Less(FileName(suite, a), FileName(other, b)) <==> Less(suite, other)
    ensures FileName(suite, a) != FileName(other, b)
  {
    hide StampText, Less;
    var x, y := "." + StampText(a) + ".db", "." + StampText(b) + ".db";
    assert FileName(suite, a) == "results." + (suite + x) && FileName(other, b) == "results." + (other + y);
    LessConcat("results.", "results.", suite + x, other + y);
    LessIsStrict("results.", "results.");
    LessConcat(suite, other, x, y);
  }

  /** No run belongs to another suite that the pattern matches and that comes later in the
      order of names. */
  predicate NoneShadows(runs: seq<Run>, suite: string) {
    forall r :: 0 <= r < |runs| && FitsPattern(suite, runs[r].suite) ==> !Less(suite, runs[r].suite)
  }

  lemma ShadowingName(suite: string, names: seq<string>, runs: seq<Run>, newest: nat, r: nat)
    requires PlainPattern(suite) && Holds(names, suite, runs) && IsNewest(runs, suite, newest) && r < |runs|
    requires FitsPattern(suite, runs[r].suite)
    ensures Less(FileName(suite, runs[newest].stamp), FileName(runs[r].suite, runs[r].stamp)) <==> Less(suite, runs[r].suite)
  {
    hide FileName, Ticks, Less, FitsPattern;
    var other := runs[r].suite;
    SameLength(suite, other);
    LessIsStrict(suite, suite);
    if other == suite {
      NamesFollowTime(suite, runs[newest].stamp, runs[r].stamp);
    } else {
      NamesOfSuites(suite, other, runs[newest].stamp, runs[r].stamp);
    }
  }

  lemma SameLength(suite: string, other: string)
    requires FitsPattern(suite, other)
    ensures |suite| == |other|
  {
  }

  /** For every order of the listing, what the search finds is the newest run of the suite
      exactly if no run of a suite that comes later in the order of names fits the pattern. */
  lemma NewestIsLatest(suite: string, names: seq<string>, runs: seq<Run>, newest: nat, latest: Option<string>)
    requires PlainPattern(suite) && Holds(names, suite, runs) && IsNewest(runs, suite, newest)
    requires IsLatest(PatternOf(suite), names, latest)
    ensures latest == Some(FileName(suite, runs[newest].stamp)) <==> NoneShadows(runs, suite)
  {
    hide Matches, FileName, Ticks, Less, FitsPattern;
    var name := FileName(suite, runs[newest].stamp);
    OwnMatch(suite);
    MatchMeaning(suite, suite, runs[newest].stamp);
    var k := PlaceOf(names, name);
    assert PatternOf(suite)(names[k]);
    var found := latest.value;
    var j := PlaceOf(names, found);
    assert IsRun(names[j], runs);
    var r :| 0 <= r < |runs| && Valid(runs[r].stamp) && found == FileName(runs[r].suite, runs[r].stamp);
    MatchMeaning(suite, runs[r].suite, runs[r].stamp);
    ShadowingName(suite, names, runs, newest, r);
    forall q | 0 <= q < |runs| && FitsPattern(suite, runs[q].suite)
      ensures AtMost(FileName(runs[q].suite, runs[q].stamp), found)
      ensures Less(name, FileName(runs[q].suite, runs[q].stamp)) <==> Less(suite, runs[q].suite)
    {
      MatchMeaning(suite, runs[q].suite, runs[q].stamp);
      var place := PlaceOf(names, FileName(runs[q].suite, runs[q].stamp));
      assert PatternOf(suite)(names[place]);
      ShadowingName(suite, names, runs, newest, q);
    }
    LessIsStrict(name, name);
    forall q | 0 <= q < |runs| && FitsPattern(suite, runs[q].suite)
      ensures found == name ==> !Less(name, FileName(runs[q].suite, runs[q].stamp))
    {
      LessIsStrict(name, FileName(runs[q].suite, runs[q].stamp));
    }
  }

  lemma OwnMatch(suite: string)
    ensures FitsPattern(suite, suite)
  {
  }

  /** A suite without a dot always finds its newest run. */
  lemma DotlessFindsNewest(suite: string, names: seq<string>, runs: seq<Run>, newest: nat, latest: Option<string>)
    requires PlainPattern(suite) && Holds(names, suite, runs) && IsNewest(runs, suite, newest)
    requires IsLatest(PatternOf(suite), names, latest) && '.' !in suite
    ensures latest == Some(FileName(suite, runs[newest].stamp))
  {
    hide Matches, FileName, Ticks, Less, FitsPattern, IsLatest;
    DotlessMatch(suite);
    LessIsStrict(suite, suite);
    NewestIsLatest(suite, names, runs, newest, latest);
  }

  const DOTTED := "a.b"
  const UNDERSCORED := "a_b"

  lemma DottedIsShadowed()
    ensures PlainPattern(DOTTED) && FitsPattern(DOTTED, UNDERSCORED) && Less(DOTTED, UNDERSCORED)
  {
  }

  /** The suite "a.b" finds a run of "a_b", however old, before its own. */
  lemma ShadowedSuite(own: Stamp, other: Stamp, latest: Option<string>)
    requires Valid(own) && Valid(other) && PlainPattern(DOTTED)
    requires IsLatest(PatternOf(DOTTED), [FileName(DOTTED, own), FileName(UNDERSCORED, other)], latest)
    ensures latest != Some(FileName(DOTTED, own))
  {
    hide Matches, FileName, Ticks, IsLatest, PlainPattern, FitsPattern, Less;
    var runs := [Run(DOTTED, own), Run(UNDERSCORED, other)];
    var names := [FileName(DOTTED, own), FileName(UNDERSCORED, other)];
    assert names[0] == FileName(runs[0].suite, runs[0].stamp) && names[1] == FileName(runs[1].suite, runs[1].stamp);
    assert names[0] in names && names[1] in names;
    assert IsRun(names[0], runs) && IsRun(names[1], runs);
    DottedIsShadowed();
    assert runs[1].suite == UNDERSCORED && DOTTED != UNDERSCORED;
    NewestIsLatest(DOTTED, names, runs, 0, latest);
  }

  lemma PlaceOf(names: seq<string>, name: string) returns (k: nat)
    requires name in names
    ensures k < |names| && names[k] == name
  {
    k :| k < |names| && names[k] == name;
  }

  // ---------- The name of a suite ----------

  function FlatChar(c: char): char {
    if c == '/' then '_' else c
  }

  function Flattened(path: string): (name: string)
    ensures |name| == |path| && forall i :: 0 <= i < |path| ==> name[i] == FlatChar(path[i])
  {
    if path == "" then "" else Flattened(path[..|path| - 1]) + [FlatChar(path[|path| - 1])]
  }

  /** A relative path, which has no empty component and at most a leading ".", is taken from
      the current directory. */
  function Absolute(path: string, currentDirectory: string): (p: string)
    requires path != "" && currentDirectory != "" && currentDirectory[0] == '/'
    ensures p != "" && p[0] == '/'
  {
    if path[0] == '/' then path
    else if path == "." then currentDirectory
    else
      (if currentDirectory == "/" then "" else currentDirectory) + "/"
      + if StartsWith(path, "./") then path[2..] else path
  }

  method TestSuiteForPath(path: string, currentDirectory: string) returns (suite: string)
    requires path != "" && currentDirectory != "" && currentDirectory[0] == '/'
    ensures path[0] == '/' ==> suite == Flattened(path[1..])
    ensures path == "." ==> suite == Flattened(currentDirectory[1..])
    ensures path[0] != '/' && path != "." ==>
      suite ==
        (if currentDirectory == "/" then "" else Flattened(currentDirectory[1..]) + "_")
        + Flattened(if StartsWith(path, "./") then path[2..] else path)
  {
    var p := Absolute(path, currentDirectory);
    var name := new char[|p|](i requires 0 <= i < |p| => p[i]);
    var i := 0;
    while i < name.Length
      invariant 0 <= i <= name.Length
      invariant forall k :: 0 <= k < i ==> name[k] == FlatChar(p[k])
      invariant forall k :: i <= k < name.Length ==> name[k] == p[k]
    {
      if name[i] == '/' {
        name[i] := '_';
      }
      i := i + 1;
    }
    suite := name[1..];
    assert forall k :: 0 <= k < |suite| ==> suite[k] == name[k + 1];
    assert suite == Flattened(p[1..]);
    if path[0] != '/' && path != "." {
      FlattenedBelow(path, currentDirectory);
    }
  }

  lemma {:induction false} FlattenedConcat(p: string, q: string)
    ensures Flattened(p + q) == Flattened(p) + Flattened(q)
  {
    hide Flattened;
    forall i | 0 <= i < |p + q|
      ensures Flattened(p + q)[i] == (Flattened(p) + Flattened(q))[i]
    {
    }
  }

  lemma AbsoluteBelow(path: string, currentDirectory: string)
    requires path != "" && currentDirectory != "" && currentDirectory[0] == '/' && path[0] != '/' && path != "."
    ensures Absolute(path, currentDirectory) ==
      (if currentDirectory == "/" then "" else currentDirectory) + "/"
      + if StartsWith(path, "./") then path[2..] else path
  {
  }

  lemma FlattenedIn(directory: string, below: string)
    requires directory != "" && directory[0] == '/'
    ensures Flattened((directory + "/" + below)[1..]) == Flattened(directory[1..]) + "_" + Flattened(below)
  {
    hide Flattened;
    assert (directory + "/" + below)[1..] == directory[1..] + ("/" + below);
    FlattenedConcat(directory[1..], "/" + below);
    FlattenedConcat("/", below);
    assert Flattened("/") == "_";
    assert Flattened(directory[1..]) + ("_" + Flattened(below)) == Flattened(directory[1..]) + "_" + Flattened(below);
  }

  /** What becomes of a relative path. */
  lemma FlattenedBelow(path: string, currentDirectory: string)
    requires path != "" && currentDirectory != "" && currentDirectory[0] == '/' && path[0] != '/' && path != "."
    ensures Flattened(Absolute(path, currentDirectory)[1..]) ==
      (if currentDirectory == "/" then "" else Flattened(currentDirectory[1..]) + "_")
      + Flattened(if StartsWith(path, "./") then path[2..] else path)
  {
    hide Flattened, Absolute;
    var below := if StartsWith(path, "./") then path[2..] else path;
    AbsoluteBelow(path, currentDirectory);
    if currentDirectory == "/" {
      assert ("" + "/" + below)[1..] == below;
      assert "" + Flattened(below) == Flattened(below);
    } else {
      FlattenedIn(currentDirectory, below);
    }
  }

  predicate Confused(c: char, d: char) {
    c == d || (c == '/' && d == '_') || (c == '_' && d == '/')
  }

  /** Two directories share their results exactly if they differ in slashes and underscores
      only. */
  lemma SharedSuite(p: string, q: string)
    ensures Flattened(p) == Flattened(q) <==> |p| == |q| && forall i :: 0 <= i < |p| ==> Confused(p[i], q[i])
  {
    hide Flattened;
    if Flattened(p) == Flattened(q) {
      forall i | 0 <= i < |p|
        ensures Confused(p[i], q[i])
      {
        assert Flattened(p)[i] == Flattened(q)[i];
      }
    }
  }
}
