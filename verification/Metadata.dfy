/** Metadata of test programs and test cases (model/metadata.cpp): the properties that were
    set, the defaults behind them, and the text form in which they are stored. */
module Metadata {
  import opened Results
  import opened Strings
  import opened Text

  datatype Property =
    | AllowedArchitectures | AllowedPlatforms | Custom(key: string) | Description | Execenv | ExecenvJailParams
    | HasCleanup | IsExclusive | RequiredConfigs | RequiredDiskSpace | RequiredFiles | RequiredMemory
    | RequiredKmods | RequiredPrograms | RequiredUser | Timeout

  datatype Kind = TextKind | UserKind | FlagKind | WordsKind | PathsKind | BytesKind | DeltaKind

  /** A set of words or paths is the list of its members in order. */
  datatype Setting =
    | TextValue(text: string)
    | FlagValue(on: bool)
    | WordsValue(words: seq<string>)
    | BytesValue(bytes: nat)
    | DeltaValue(seconds: nat, micros: nat)

  function KindOf(p: Property): Kind {
    match p
    case AllowedArchitectures | AllowedPlatforms | RequiredConfigs | RequiredKmods => WordsKind
    case RequiredFiles | RequiredPrograms => PathsKind
    case RequiredDiskSpace | RequiredMemory => BytesKind
    case HasCleanup | IsExclusive => FlagKind
    case RequiredUser => UserKind
    case Timeout => DeltaKind
    case _ => TextKind
  }

  const NAMED: set<Property> := {
    AllowedArchitectures, AllowedPlatforms, Description, Execenv, ExecenvJailParams, HasCleanup, IsExclusive,
    RequiredConfigs, RequiredDiskSpace, RequiredFiles, RequiredMemory, RequiredKmods, RequiredPrograms,
    RequiredUser, Timeout }

  /** The global default; custom properties have none. */
  function Default(p: Property): (d: Option<Setting>)
    ensures d.Some? <==> !p.Custom?
    ensures d.Some? ==> Fits(KindOf(p), d.value)
  {
    if p.Custom? then None
    else
      match KindOf(p)
      case TextKind => Some(TextValue(""))
      case UserKind => Some(TextValue(""))
      case FlagKind => Some(FlagValue(false))
      case WordsKind => Some(WordsValue([]))
      case PathsKind => Some(WordsValue([]))
      case BytesKind => Some(BytesValue(0))
      case DeltaKind => Some(DeltaValue(300, 0))
  }

  // ---------- Values that can be set ----------

  predicate Ascending(words: seq<string>) {
    forall i, j :: 0 <= i < j < |words| ==> Less(words[i], words[j])
  }

  predicate IsUser(text: string) {
    text == "" || text == "root" || text == "unprivileged"
  }

  /** A path is absolute or has one component. */
  predicate IsPath(word: string) {
    word != "" && (word[0] == '/' || '/' !in word)
  }

  predicate ArePaths(words: seq<string>) {
    forall i :: 0 <= i < |words| ==> IsPath(words[i])
  }

  const BYTES_LIMIT: nat := 0x1_0000_0000_0000_0000

  predicate Fits(kind: Kind, value: Setting) {
    match kind
    case TextKind => value.TextValue?
    case UserKind => value.TextValue? && IsUser(value.text)
    case FlagKind => value.FlagValue?
    case WordsKind => value.WordsValue? && Ascending(value.words)
    case PathsKind => value.WordsValue? && Ascending(value.words) && ArePaths(value.words)
    case BytesKind => value.BytesValue? && value.bytes < BYTES_LIMIT
    case DeltaKind => value.DeltaValue?
  }

  predicate AllFit(props: map<Property, Setting>) {
    forall p :: p in props ==> Fits(KindOf(p), props[p])
  }

  type Metadata = props: map<Property, Setting> | AllFit(props) witness map[]

  /** What the accessors give: the value that was set, else the default. */
  function Lookup(md: Metadata, p: Property): (v: Option<Setting>)
    ensures v.Some? ==> Fits(KindOf(p), v.value)
  {
    if p in md then Some(md[p]) else Default(p)
  }

  /** No accessor tells the two apart. */
  ghost predicate Same(a: Metadata, b: Metadata) {
    forall p :: Lookup(a, p) == Lookup(b, p)
  }

  /** The metadata a test case runs with: its own over that of its program. */
  function Effective(program: Metadata, own: Metadata): (md: Metadata)
    ensures forall p :: p in md <==> p in program || p in own
    ensures forall p :: p in md ==> md[p] == if p in own then own[p] else program[p]
  {
    program + own
  }

  predicate WantsCleanup(md: Metadata) {
    Lookup(md, HasCleanup) == Some(FlagValue(true))
  }

  predicate WantsExecenv(md: Metadata) {
    var name := Lookup(md, Execenv).value;
    name != TextValue("") && name != TextValue("host")
  }

  predicate WantsToBeAlone(md: Metadata) {
    Lookup(md, IsExclusive) == Some(FlagValue(true))
  }

  // ---------- Sets of words as text ----------

  function JoinWords(words: seq<string>): string {
    if words == [] then ""
    else if |words| == 1 then words[0]
    else JoinWords(words[..|words| - 1]) + " " + words[|words| - 1]
  }

  /** The words between blanks, without the empty ones. */
  function SplitWords(text: string): (words: seq<string>)
    ensures forall i :: 0 <= i < |words| ==> IsWord(words[i])
  {
    if text == "" then []
    else
      var n := WordLength(text);
      var last := text[|text| - n..];
      var rest := if n == |text| then [] else SplitWords(text[..|text| - n - 1]);
      if n == 0 then rest else rest + [last]
  }

  predicate IsWord(word: string) {
    word != "" && ' ' !in word
  }

  /** The length of what follows the last blank. */
  function WordLength(text: string): (n: nat)
    ensures n <= |text| && ' ' !in text[|text| - n..]
    ensures n < |text| ==> text[|text| - n - 1] == ' '
  {
    if text == "" || text[|text| - 1] == ' ' then 0
    else
      var rest := text[..|text| - 1];
      var n := WordLength(rest);
      assert text[|rest| - n..] == rest[|rest| - n..] + [text[|text| - 1]];
      n + 1
  }

  function InsertWord(words: seq<string>, word: string): seq<string> {
    if words == [] then [word]
    else
      var last := words[|words| - 1];
      if Less(last, word) then words + [word]
      else if last == word then words
      else InsertWord(words[..|words| - 1], word) + [last]
  }

  /** The set of the given words, in order. */
  function WordSet(words: seq<string>): seq<string> {
    if words == [] then [] else InsertWord(WordSet(words[..|words| - 1]), words[|words| - 1])
  }

  lemma {:induction false} InsertWordMembers(words: seq<string>, word: string, w: string)
    ensures w in InsertWord(words, word) <==> w in words || w == word
  {
    if words != [] {
      assert words == words[..|words| - 1] + [words[|words| - 1]];
      InsertWordMembers(words[..|words| - 1], word, w);
    }
  }

  lemma {:induction false} WordSetMembers(words: seq<string>, w: string)
    ensures w in WordSet(words) <==> w in words
  {
    if words != [] {
      assert words == words[..|words| - 1] + [words[|words| - 1]];
      WordSetMembers(words[..|words| - 1], w);
      InsertWordMembers(WordSet(words[..|words| - 1]), words[|words| - 1], w);
    }
  }

  lemma {:induction false} InsertWordAscends(words: seq<string>, word: string)
    requires Ascending(words)
    ensures Ascending(InsertWord(words, word))
  {
    if words != [] {
      var init, last := words[..|words| - 1], words[|words| - 1];
      LessIsTotal(last, word);
      if Less(last, word) {
        forall i | 0 <= i < |init|
          ensures Less(words[i], word)
        {
          LessIsTransitive(words[i], last, word);
        }
      } else if last != word {
        InsertWordAscends(init, word);
        forall i | 0 <= i < |InsertWord(init, word)|
          ensures Less(InsertWord(init, word)[i], last)
        {
          var w := InsertWord(init, word)[i];
          assert w in InsertWord(init, word);
          InsertWordMembers(init, word, w);
        }
      }
    }
  }

  lemma {:induction false} WordSetAscends(words: seq<string>)
    ensures Ascending(WordSet(words))
  {
    if words != [] {
      WordSetAscends(words[..|words| - 1]);
      InsertWordAscends(WordSet(words[..|words| - 1]), words[|words| - 1]);
    }
  }

  /** What is already a set in order stays as it is. */
  lemma {:induction false} WordSetOfSet(words: seq<string>)
    requires Ascending(words)
    ensures WordSet(words) == words
  {
    if words != [] {
      var init := words[..|words| - 1];
      WordSetOfSet(init);
      assert words == init + [words[|words| - 1]];
    }
  }

  lemma {:induction false} WordEndsThere(text: string, word: string)
    requires ' ' !in word && (text == "" || text[|text| - 1] == ' ')
    ensures WordLength(text + word) == |word|
  {
    if word == "" {
      assert text + word == text;
    } else {
      assert (text + word)[..|text + word| - 1] == text + word[..|word| - 1];
      WordEndsThere(text, word[..|word| - 1]);
    }
  }

  lemma LastWordSplit(text: string, word: string)
    requires IsWord(word)
    ensures SplitWords(word) == [word]
    ensures SplitWords(text + " " + word) == SplitWords(text) + [word]
  {
    hide WordLength;
    WordEndsThere("", word);
    assert "" + word == word && word[|word| - |word|..] == word;
    var whole := text + " " + word;
    WordEndsThere(text + " ", word);
    assert whole[|whole| - |word|..] == word && whole[..|whole| - |word| - 1] == text;
  }

  /** Words without blanks survive being joined. */
  lemma {:induction false} JoinedWordsSplit(words: seq<string>)
    requires forall i :: 0 <= i < |words| ==> IsWord(words[i])
    ensures SplitWords(JoinWords(words)) == words
  {
    hide SplitWords;
    if words == [] {
      NothingSplit();
    } else {
      var init, last := words[..|words| - 1], words[|words| - 1];
      JoinedWordsSplit(init);
      LastWordSplit(JoinWords(init), last);
      assert words == init + [last];
    }
  }

  lemma NothingSplit()
    ensures SplitWords("") == []
  {
  }

  // ---------- Quantities as text ----------

  datatype Unit = Unit(size: nat, letter: char)

  const KB := Unit(0x400, 'K')
  const MB := Unit(0x10_0000, 'M')
  const GB := Unit(0x4000_0000, 'G')
  const TB := Unit(0x100_0000_0000, 'T')

  /** The largest unit a quantity reaches. */
  function UnitOf(bytes: nat): Unit
    requires bytes >= KB.size
  {
    if bytes >= TB.size then TB else if bytes >= GB.size then GB else if bytes >= MB.size then MB else KB
  }

  /** Hundredths of a unit, rounded to the nearest, ties to even. */
  function Hundredths(bytes: nat, size: nat): nat
    requires size > 0
  {
    var q, r := 100 * bytes / size, 100 * bytes % size;
    if 2 * r < size || (2 * r == size && q % 2 == 0) then q else q + 1
  }

  function BytesText(bytes: nat): string {
    if bytes < KB.size then Decimal(bytes)
    else
      var h := Hundredths(bytes, UnitOf(bytes).size);
      Decimal(h / 100) + "." + [Digit(h / 10 % 10), Digit(h % 10)] + [UnitOf(bytes).letter]
  }

  function UnitNamed(letter: char): Option<Unit> {
    if letter == 'T' || letter == 't' then Some(TB)
    else if letter == 'G' || letter == 'g' then Some(GB)
    else if letter == 'M' || letter == 'm' then Some(MB)
    else if letter == 'K' || letter == 'k' then Some(KB)
    else None
  }

  /** A decimal fraction as a numerator over a power of ten. */
  function ParseFraction(s: string): (f: Option<(nat, nat)>)
    ensures f.Some? ==> f.value.1 > 0
  {
    var d := DigitPrefix(s);
    if d == 0 then None
    else if d == |s| then Some((Value(s), 1))
    else if s[d] != '.' || d + 1 == |s| || !AllDigits(s[d + 1..]) then None
    else Some((Value(s[..d] + s[d + 1..]), Power10(|s| - d - 1)))
  }

  function Scaled(numerator: nat, size: nat, denominator: nat): nat
    requires denominator > 0
  {
    numerator * size / denominator
  }

  /** The whole number of bytes; `None` stands for text that is refused. */
  function ParseBytes(s: string): (bytes: Option<nat>)
    ensures bytes.Some? ==> bytes.value < BYTES_LIMIT
  {
    if s == "" then None
    else
      var unit := UnitNamed(s[|s| - 1]);
      var number := if unit.Some? then s[..|s| - 1] else s;
      match ParseFraction(number)
      case None => None
      case Some((numerator, denominator)) =>
        var size := if unit.Some? then unit.value.size else 1;
        var bytes := Scaled(numerator, size, denominator);
        if bytes < BYTES_LIMIT then Some(bytes) else None
  }

  /** The quantity falls short of a whole number of hundredths of its unit by less than a byte. */
  predicate WholeHundredths(bytes: nat) {
    bytes < KB.size ||
    var size := UnitOf(bytes).size;
    (size - 100 * bytes % size) % size < 100
  }

  lemma {:induction false} ValueOfTwo(s: string, a: nat, b: nat)
    requires AllDigits(s) && a < 10 && b < 10
    ensures AllDigits(s + [Digit(a), Digit(b)]) && Value(s + [Digit(a), Digit(b)]) == 100 * Value(s) + 10 * a + b
  {
    var t := s + [Digit(a), Digit(b)];
    assert t[..|t| - 1] == s + [Digit(a)];
    assert t[..|t| - 1][..|t| - 2] == s;
  }

  lemma FractionRead(h: nat)
    ensures ParseFraction(Decimal(h / 100) + "." + [Digit(h / 10 % 10), Digit(h % 10)]) == Some((h, 100))
  {
    hide Decimal, Value, DigitPrefix;
    var digits, places := Decimal(h / 100), [Digit(h / 10 % 10), Digit(h % 10)];
    var s := digits + "." + places;
    assert s == digits + ("." + places);
    DigitsEndThere(digits, "." + places);
    var d := |digits|;
    assert s[..d] == digits && s[d + 1..] == places;
    ValueOfTwo(digits, h / 10 % 10, h % 10);
    assert Power10(2) == 100 by {
      assert Power10(1) == 10;
    }
  }

  lemma BytesRead(bytes: nat)
    requires bytes >= KB.size
    ensures var size := UnitOf(bytes).size;
      var read := Hundredths(bytes, size) * size / 100;
      ParseBytes(BytesText(bytes)) == if read < BYTES_LIMIT then Some(read) else None
  {
    hide Decimal, ParseFraction, Hundredths;
    var unit := UnitOf(bytes);
    var h := Hundredths(bytes, unit.size);
    var number := Decimal(h / 100) + "." + [Digit(h / 10 % 10), Digit(h % 10)];
    assert BytesText(bytes)[..|BytesText(bytes)| - 1] == number;
    FractionRead(h);
  }

  lemma SmallBytesRead(bytes: nat)
    requires bytes < KB.size
    ensures ParseBytes(BytesText(bytes)) == Some(bytes)
  {
    hide Decimal, Value, DigitPrefix;
    var s := Decimal(bytes);
    assert s + "" == s;
    DigitsEndThere(s, "");
    assert IsDigit(s[|s| - 1]);
  }

  lemma HundredthsExact(bytes: nat, size: nat)
    requires bytes >= 1 && size in {KB.size, MB.size, GB.size, TB.size}
    ensures Hundredths(bytes, size) * size / 100 == bytes <==> (size - 100 * bytes % size) % size < 100
  {
    if size == KB.size {
      KiloExact(bytes);
    } else if size == MB.size {
      MegaExact(bytes);
    } else if size == GB.size {
      GigaExact(bytes);
    } else {
      TeraExact(bytes);
    }
  }

  lemma KiloExact(bytes: nat)
    ensures Hundredths(bytes, KB.size) * KB.size / 100 == bytes <==> (KB.size - 100 * bytes % KB.size) % KB.size < 100
  {
  }

  lemma MegaExact(bytes: nat)
    ensures Hundredths(bytes, MB.size) * MB.size / 100 == bytes <==> (MB.size - 100 * bytes % MB.size) % MB.size < 100
  {
  }

  lemma GigaExact(bytes: nat)
    ensures Hundredths(bytes, GB.size) * GB.size / 100 == bytes <==> (GB.size - 100 * bytes % GB.size) % GB.size < 100
  {
  }

  lemma TeraExact(bytes: nat)
    ensures Hundredths(bytes, TB.size) * TB.size / 100 == bytes <==> (TB.size - 100 * bytes % TB.size) % TB.size < 100
  {
  }

  /** A quantity survives the store exactly if it is a whole number of hundredths of its unit. */
  lemma BytesRoundTrip(bytes: nat)
    requires bytes < BYTES_LIMIT
    ensures ParseBytes(BytesText(bytes)) == Some(bytes) <==> WholeHundredths(bytes)
  {
    hide ParseBytes, BytesText, Hundredths;
    if bytes < KB.size {
      SmallBytesRead(bytes);
    } else {
      BytesRead(bytes);
      HundredthsExact(bytes, UnitOf(bytes).size);
    }
  }

  /** 1234567 bytes are written as 1.18M and come back as another number. */
  lemma LostBytes()
    ensures ParseBytes(BytesText(1234567)) != Some(1234567)
  {
    hide ParseBytes, BytesText;
    BytesRoundTrip(1234567);
  }

  // ---------- Settings as text ----------

  const UINT_LIMIT: nat := 0x1_0000_0000

  /** `text::to_type< unsigned int >`: a minus sign wraps the number around. */
  function ParseUnsigned(s: string): (u: Option<nat>)
    ensures u.Some? ==> u.value < UINT_LIMIT
  {
    if s == "" || s[0] == ' ' then None
    else
      var t := SkipSpace(s);
      var negative := StartsWith(t, "-");
      var digits := if negative || StartsWith(t, "+") then t[1..] else t;
      if digits == "" || !AllDigits(digits) || Value(digits) >= UINT_LIMIT then None
      else if negative then Some((UINT_LIMIT - Value(digits)) % UINT_LIMIT)
      else Some(Value(digits))
  }

  function ToText(s: Setting): string {
    match s
    case TextValue(text) => text
    case FlagValue(on) => if on then "true" else "false"
    case WordsValue(words) => JoinWords(words)
    case BytesValue(bytes) => BytesText(bytes)
    case DeltaValue(seconds, _) => Decimal(seconds)
  }

  /** `None` stands for text that the property refuses. */
  function FromText(kind: Kind, text: string): (s: Option<Setting>)
    ensures s.Some? ==> Fits(kind, s.value)
  {
    match kind
    case TextKind => Some(TextValue(text))
    case UserKind => if IsUser(text) then Some(TextValue(text)) else None
    case FlagKind => if text == "true" then Some(FlagValue(true)) else if text == "false" then Some(FlagValue(false)) else None
    case WordsKind =>
      WordSetAscends(SplitWords(text));
      Some(WordsValue(WordSet(SplitWords(text))))
    case PathsKind =>
      WordSetAscends(SplitWords(text));
      if ArePaths(WordSet(SplitWords(text))) then Some(WordsValue(WordSet(SplitWords(text)))) else None
    case BytesKind =>
      (match ParseBytes(text)
       case None => None
       case Some(bytes) => Some(BytesValue(bytes)))
    case DeltaKind =>
      (match ParseUnsigned(text)
       case None => None
       case Some(seconds) => Some(DeltaValue(seconds, 0)))
  }

  /** The setting survives being stored. */
  predicate Kept(s: Setting) {
    match s
    case WordsValue(words) => forall i :: 0 <= i < |words| ==> IsWord(words[i])
    case BytesValue(bytes) => WholeHundredths(bytes)
    case DeltaValue(seconds, micros) => micros == 0 && seconds < UINT_LIMIT
    case _ => true
  }

  lemma WordsRoundTrip(words: seq<string>)
    requires Ascending(words)
    ensures WordSet(SplitWords(JoinWords(words))) == words <==> forall i :: 0 <= i < |words| ==> IsWord(words[i])
  {
    hide JoinWords, SplitWords, WordSet, Less;
    if forall i :: 0 <= i < |words| ==> IsWord(words[i]) {
      JoinedWordsSplit(words);
      WordSetOfSet(words);
    } else {
      var i :| 0 <= i < |words| && !IsWord(words[i]);
      OnlyWordsInSet(SplitWords(JoinWords(words)), words[i]);
      var w := words[i];
      assert w in words;
    }
  }

  lemma OnlyWordsInSet(pieces: seq<string>, w: string)
    requires (forall i :: 0 <= i < |pieces| ==> IsWord(pieces[i])) && !IsWord(w)
    ensures w !in WordSet(pieces)
  {
    WordSetMembers(pieces, w);
  }

  lemma SecondsRead(seconds: nat)
    ensures ParseUnsigned(Decimal(seconds)) == if seconds < UINT_LIMIT then Some(seconds) else None
  {
    hide Decimal, Value;
    var s := Decimal(seconds);
    assert IsDigit(s[0]) && SkipSpace(s) == s;
  }

  /** A setting reads back equal exactly if it is one that survives. */
  lemma SettingRoundTrip(kind: Kind, s: Setting)
    requires Fits(kind, s)
    ensures FromText(kind, ToText(s)) == Some(s) <==> Kept(s)
  {
    hide JoinWords, SplitWords, WordSet, ParseBytes, BytesText, ParseUnsigned, Decimal, WholeHundredths, IsWord;
    match s
    case TextValue(_) =>
    case FlagValue(_) =>
    case WordsValue(words) => WordsRoundTrip(words);
    case BytesValue(bytes) => BytesRoundTrip(bytes);
    case DeltaValue(seconds, _) => SecondsRead(seconds);
  }

  /** The setting can at least be read, though perhaps as another one. */
  predicate Readable(kind: Kind, s: Setting)
    requires Fits(kind, s)
  {
    match s
    case WordsValue(words) => kind.PathsKind? ==> ArePaths(SplitWords(JoinWords(words)))
    case BytesValue(bytes) =>
      bytes < KB.size || Hundredths(bytes, UnitOf(bytes).size) * UnitOf(bytes).size / 100 < BYTES_LIMIT
    case DeltaValue(seconds, _) => seconds < UINT_LIMIT
    case _ => true
  }

  lemma PathsAmongWords(pieces: seq<string>)
    ensures ArePaths(WordSet(pieces)) <==> ArePaths(pieces)
  {
    forall i | 0 <= i < |pieces|
      ensures pieces[i] in WordSet(pieces)
    {
      WordSetMembers(pieces, pieces[i]);
    }
    forall i | 0 <= i < |WordSet(pieces)|
      ensures WordSet(pieces)[i] in pieces
    {
      WordSetMembers(pieces, WordSet(pieces)[i]);
    }
  }

  lemma ReadableMeaning(kind: Kind, s: Setting)
    requires Fits(kind, s)
    ensures FromText(kind, ToText(s)).Some? <==> Readable(kind, s)
  {
    hide JoinWords, SplitWords, WordSet, ParseBytes, BytesText, ParseUnsigned, Decimal, Hundredths, ArePaths;
    match s
    case TextValue(_) =>
    case FlagValue(_) =>
    case WordsValue(words) => PathsAmongWords(SplitWords(JoinWords(words)));
    case BytesValue(bytes) =>
      if bytes < KB.size {
        SmallBytesRead(bytes);
      } else {
        BytesRead(bytes);
      }
    case DeltaValue(seconds, _) => SecondsRead(seconds);
  }

  // ---------- Metadata as text ----------

  lemma NamedOnes(p: Property)
    ensures p in NAMED <==> !p.Custom?
  {
  }

  /** Every named property is written, with its default if it was not set. */
  function ToProperties(md: Metadata): (props: map<Property, string>)
    ensures forall p: Property :: p in props <==> Lookup(md, p).Some?
    ensures forall p :: p in props ==> props[p] == ToText(Lookup(md, p).value)
  {
    forall p: Property {
      NamedOnes(p);
    }
    map p | p in md.Keys + NAMED :: ToText(Lookup(md, p).value)
  }

  lemma SomethingToStore(md: Metadata)
    ensures Timeout in ToProperties(md)
  {
    assert Lookup(md, Timeout).Some?;
  }

  function FromProperties(props: map<Property, string>): (md: Option<Metadata>)
    ensures md.Some? <==> forall p :: p in props ==> FromText(KindOf(p), props[p]).Some?
    ensures md.Some? ==> md.value.Keys == props.Keys
    ensures md.Some? ==> forall p :: p in props ==> FromText(KindOf(p), props[p]) == Some(md.value[p])
  {
    if forall p :: p in props ==> FromText(KindOf(p), props[p]).Some? then
      Some(map p | p in props :: FromText(KindOf(p), props[p]).value)
    else None
  }

  /** What is read back when the metadata was stored. */
  function Restored(md: Metadata): (r: Option<Metadata>)
    ensures r.Some? ==> forall p: Property :: p in r.value <==> Lookup(md, p).Some?
    ensures r.Some? ==> forall p :: p in r.value ==>
      FromText(KindOf(p), ToText(Lookup(md, p).value)) == Some(r.value[p])
  {
    FromProperties(ToProperties(md))
  }

  predicate AllReadable(md: Metadata) {
    forall p :: p in md ==> Readable(KindOf(p), md[p])
  }

  predicate AllKept(md: Metadata) {
    forall p :: p in md ==> Kept(md[p])
  }

  /** The defaults survive being stored. */
  lemma DefaultsKept(p: Property)
    requires !p.Custom?
    ensures FromText(KindOf(p), ToText(Default(p).value)) == Default(p)
  {
    hide FromText, ToText;
    SettingRoundTrip(KindOf(p), Default(p).value);
  }

  /** What was stored can be read exactly if every setting can. */
  lemma RestoredMeaning(md: Metadata)
    ensures Restored(md).Some? <==> AllReadable(md)
  {
    hide FromText, ToText, Readable;
    forall p: Property | Lookup(md, p).Some?
      ensures FromText(KindOf(p), ToText(Lookup(md, p).value)).Some? <==> p !in md || Readable(KindOf(p), md[p])
    {
      if p in md {
        ReadableMeaning(KindOf(p), md[p]);
      } else {
        DefaultsKept(p);
      }
    }
  }

  /** Stored metadata reads back equal exactly if every property that was set survives. */
  lemma MetadataRoundTrip(md: Metadata)
    ensures Restored(md).Some? && Same(Restored(md).value, md) <==> AllKept(md)
  {
    hide FromText, ToText, Kept, Restored, Readable;
    RestoredMeaning(md);
    forall p | p in md
      ensures FromText(KindOf(p), ToText(md[p])) == Some(md[p]) <==> Kept(md[p])
      ensures Kept(md[p]) ==> Readable(KindOf(p), md[p])
    {
      SettingRoundTrip(KindOf(p), md[p]);
      ReadableMeaning(KindOf(p), md[p]);
    }
    forall p: Property | !p.Custom?
      ensures FromText(KindOf(p), ToText(Default(p).value)) == Default(p)
    {
      DefaultsKept(p);
    }
    if Restored(md).Some? {
      var r := Restored(md).value;
      forall p | p in md
        ensures Lookup(r, p) == Lookup(md, p) <==> Kept(md[p])
      {
        assert Lookup(md, p) == Some(md[p]) && p in r;
      }
      forall p: Property | p !in md
        ensures Lookup(r, p) == Lookup(md, p)
      {
        if Lookup(md, p).Some? {
          assert p in r;
        }
      }
    }
  }

  // ---------- Timeouts ----------

  predicate WholeSeconds(s: Setting) {
    s.DeltaValue? && s.micros == 0 && s.seconds < UINT_LIMIT
  }

  /** Where every other property survives, the stored metadata reads back equal exactly if the
      timeout is a whole number of seconds that fits. */
  lemma TimeoutRoundTrip(md: Metadata)
    requires Timeout in md && forall p :: p in md && p != Timeout ==> Kept(md[p])
    ensures Restored(md).Some? && Same(Restored(md).value, md) <==> WholeSeconds(md[Timeout])
  {
    hide Restored, Same, WholeHundredths, IsWord;
    MetadataRoundTrip(md);
    assert Fits(KindOf(Timeout), md[Timeout]);
  }

  /** Two timeouts that differ in their microseconds have the same text, by which metadata
      objects are compared. */
  lemma MicrosAreInvisible(md: Metadata, seconds: nat, a: nat, b: nat)
    ensures ToProperties(md[Timeout := DeltaValue(seconds, a)]) == ToProperties(md[Timeout := DeltaValue(seconds, b)])
  {
    hide Default, ToProperties, JoinWords, BytesText, Decimal;
    var x, y := md[Timeout := DeltaValue(seconds, a)], md[Timeout := DeltaValue(seconds, b)];
    forall p: Property
      ensures p in ToProperties(x) <==> p in ToProperties(y)
      ensures p in ToProperties(x) ==> ToProperties(x)[p] == ToProperties(y)[p]
    {
      assert p != Timeout ==> Lookup(x, p) == Lookup(y, p);
    }
  }

  // ---------- What a test case runs with, before and after ----------

  /** The program sets a named property away from its default, and the case leaves it alone. */
  predicate Overlooked(program: Metadata, own: Metadata, p: Property) {
    p in program && p !in own && !p.Custom? && Some(program[p]) != Default(p)
  }

  /** What the case has after both objects were read back, for one property. */
  lemma EffectiveAt(program: Metadata, own: Metadata, p: Property)
    requires Restored(program).Some? && Restored(own).Some?
    ensures var before, after := Effective(program, own), Effective(Restored(program).value, Restored(own).value);
      Lookup(after, p) == Lookup(before, p) <==>
        (p in own ==> Kept(own[p])) && !Overlooked(program, own, p)
  {
    hide FromText, ToText, Kept, Restored;
    var program', own' := Restored(program).value, Restored(own).value;
    if p in own {
      SettingRoundTrip(KindOf(p), own[p]);
      assert Lookup(own, p) == Some(own[p]);
    } else if !p.Custom? {
      DefaultsKept(p);
      assert Lookup(own, p) == Default(p);
      assert own'[p] == Default(p).value;
    } else if p in program {
      assert Lookup(program, p) == Some(program[p]);
      SettingRoundTrip(KindOf(p), program[p]);
      assert Kept(program[p]) by {
        CustomIsKept(program, p);
      }
    }
  }

  lemma CustomIsKept(md: Metadata, p: Property)
    requires p in md && p.Custom?
    ensures Kept(md[p])
  {
    assert Fits(KindOf(p), md[p]);
  }

  /** The metadata a test case runs with is the same after its program and its own metadata
      were stored and read back exactly if the program's can be read, every property of the
      case survives, and the case sets every named property that the program sets away from
      its default. */
  lemma EffectiveRoundTrip(program: Metadata, own: Metadata)
    ensures (&& Restored(program).Some? && Restored(own).Some?
             && Same(Effective(Restored(program).value, Restored(own).value), Effective(program, own)))
      <==> AllReadable(program) && AllKept(own) && forall p :: p in program ==> !Overlooked(program, own, p)
  {
    hide Restored, Kept, Readable, Effective, Overlooked;
    RestoredMeaning(program);
    MetadataRoundTrip(own);
    KeptIsReadable(own);
    RestoredMeaning(own);
    if Restored(program).Some? && Restored(own).Some? {
      forall p: Property {
        EffectiveAt(program, own, p);
      }
      assert forall p: Property :: p !in program ==> !Overlooked(program, own, p) by {
        forall p: Property | p !in program
          ensures !Overlooked(program, own, p)
        {
          OnlySetIsOverlooked(program, own, p);
        }
      }
    }
  }

  lemma OnlySetIsOverlooked(program: Metadata, own: Metadata, p: Property)
    ensures Overlooked(program, own, p) ==> p in program
  {
  }

  lemma KeptIsReadable(md: Metadata)
    ensures AllKept(md) ==> AllReadable(md)
  {
    hide Kept, Readable, FromText, ToText;
    forall p | p in md && Kept(md[p])
      ensures Readable(KindOf(p), md[p])
    {
      SettingRoundTrip(KindOf(p), md[p]);
      ReadableMeaning(KindOf(p), md[p]);
    }
  }

  const TEN_MINUTES: Metadata := map[Timeout := DeltaValue(600, 0)]
  const NOTHING: Metadata := map[]

  /** A program with a timeout of 600 seconds and a case that sets nothing: the case runs with
      600 seconds, and with the default of 300 after both were read back. */
  lemma LostTimeout()
    ensures Lookup(Effective(TEN_MINUTES, NOTHING), Timeout) == Some(DeltaValue(600, 0))
    ensures Restored(TEN_MINUTES).Some? && Restored(NOTHING).Some?
    ensures Lookup(Effective(Restored(TEN_MINUTES).value, Restored(NOTHING).value), Timeout) == Some(DeltaValue(300, 0))
  {
    hide Restored;
    RestoredMeaning(TEN_MINUTES);
    RestoredMeaning(NOTHING);
    DefaultsKept(Timeout);
    assert Lookup(NOTHING, Timeout) == Default(Timeout);
  }
}
