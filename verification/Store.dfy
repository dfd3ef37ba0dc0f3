/** The results store (store/write_transaction.cpp, store/read_transaction.cpp,
    store/schema_v3.sql).  Tables are sequences of rows, and rows are never deleted.  A new row
    of the metadata table gets one more than the largest rowid; the keys of the other tables
    that count up are the positions of their rows, counted from 1. */
module Store {
  import opened Results
  import opened TestModel
  import Md = Metadata
  import Paths
  import Strings

  datatype MetadataRow = MetadataRow(rowid: nat, metadataId: int, name: Md.Property, value: string)
  datatype ProgramRow = ProgramRow(
    absolutePath: string, root: string, relativePath: Paths.Path, suite: string, metadataId: int, interfaceName: string)
  datatype CaseRow = CaseRow(programId: int, name: string, metadataId: int)
  datatype ResultRow = ResultRow(caseId: int, kind: string, reason: Option<string>, startTime: int, endTime: int)
  datatype CaseFileRow = CaseFileRow(caseId: int, name: string, fileId: int)

  datatype Db = Db(
    metadatas: seq<MetadataRow>, programs: seq<ProgramRow>, cases: seq<CaseRow>,
    results: seq<ResultRow>, caseFiles: seq<CaseFileRow>, files: seq<string>)

  // ---------- Metadata ----------

  /** The properties filed under an id, later rows first. */
  function MetadataAt(rows: seq<MetadataRow>, id: int): map<Md.Property, string> {
    if rows == [] then map[]
    else
      var last := rows[|rows| - 1];
      var rest := MetadataAt(rows[..|rows| - 1], id);
      if last.metadataId == id then rest[last.name := last.value] else rest
  }

  /** One more row for the builder, which refuses text that its property cannot take. */
  function Built(builder: Option<Md.Metadata>, row: MetadataRow): Option<Md.Metadata> {
    match builder
    case None => None
    case Some(md) =>
      match Md.FromText(Md.KindOf(row.name), row.value)
      case None => None
      case Some(setting) => Some(md[row.name := setting])
  }

  /** The metadata object the rows of an id make, in the order of the table. */
  function LoadedAt(rows: seq<MetadataRow>, id: int): Option<Md.Metadata> {
    if rows == [] then Some(map[])
    else
      var last := rows[|rows| - 1];
      var rest := LoadedAt(rows[..|rows| - 1], id);
      if last.metadataId == id then Built(rest, last) else rest
  }

  lemma {:induction false} LoadFails(rows: seq<MetadataRow>, i: nat, id: int)
    requires i <= |rows| && LoadedAt(rows[..i], id).None?
    ensures LoadedAt(rows, id).None?
    decreases |rows|
  {
    if i == |rows| {
      assert rows[..i] == rows;
    } else {
      assert rows[..|rows| - 1][..i] == rows[..i];
      LoadFails(rows[..|rows| - 1], i, id);
    }
  }

  /** The loop over the rows of one id, feeding a builder; `None` is an error of the builder. */
  method GetMetadata(rows: seq<MetadataRow>, id: int) returns (builder: Option<Md.Metadata>)
    ensures builder == LoadedAt(rows, id)
  {
    hide Md.FromText;
    builder := Some(map[]);
    for i := 0 to |rows|
      invariant builder == LoadedAt(rows[..i], id) && builder.Some?
    {
      assert rows[..i + 1][..i] == rows[..i];
      if rows[i].metadataId == id {
        builder := Built(builder, rows[i]);
        if builder.None? {
          LoadFails(rows, i + 1, id);
          return;
        }
      }
    }
    assert rows[..|rows|] == rows;
  }

  /** Rowids count up from 1, ids never exceed the number of rows before them, and no name
      occurs twice under an id. */
  predicate TableFits(rows: seq<MetadataRow>) {
    && (forall i :: 0 <= i < |rows| ==> rows[i].rowid == i + 1 && 0 <= rows[i].metadataId <= i)
    && (forall i, j :: 0 <= i < j < |rows| && rows[i].metadataId == rows[j].metadataId ==> rows[i].name != rows[j].name)
  }

  /** `SELECT MAX(ROWID)`; 0 if the table is empty. */
  function MaxRowid(rows: seq<MetadataRow>): nat {
    if rows == [] then 0
    else
      var rest, last := MaxRowid(rows[..|rows| - 1]), rows[|rows| - 1].rowid;
      if rest < last then last else rest
  }

  lemma {:induction false} MaxRowidIsCount(rows: seq<MetadataRow>)
    requires TableFits(rows)
    ensures MaxRowid(rows) == |rows|
  {
    if rows != [] {
      MaxRowidIsCount(rows[..|rows| - 1]);
    }
  }

  lemma {:induction false} NamesAt(rows: seq<MetadataRow>, id: int, name: Md.Property)
    ensures name in MetadataAt(rows, id) <==> exists i :: 0 <= i < |rows| && rows[i].metadataId == id && rows[i].name == name
  {
    if rows != [] {
      NamesAt(rows[..|rows| - 1], id, name);
    }
  }

  /** Without repeated names, the loaded object is the text of the id taken property by property. */
  lemma {:induction false} LoadedIsParsed(rows: seq<MetadataRow>, id: int)
    requires TableFits(rows)
    ensures LoadedAt(rows, id) == Md.FromProperties(MetadataAt(rows, id))
  {
    hide Md.FromText;
    if rows == [] {
      assert Md.FromProperties(map[]) == Some(map[]);
    } else {
      var init, last := rows[..|rows| - 1], rows[|rows| - 1];
      LoadedIsParsed(init, id);
      if last.metadataId == id {
        NamesAt(init, id, last.name);
        OneMoreProperty(MetadataAt(init, id), last.name, last.value);
      }
    }
  }

  lemma OneMoreProperty(props: map<Md.Property, string>, name: Md.Property, text: string)
    requires name !in props
    ensures var more := Md.FromProperties(props[name := text]);
      var rest, setting := Md.FromProperties(props), Md.FromText(Md.KindOf(name), text);
      more == if rest.Some? && setting.Some? then Some(rest.value[name := setting.value]) else None
  {
    hide Md.FromText, Md.KindOf, Md.Fits;
    var more, rest := Md.FromProperties(props[name := text]), Md.FromProperties(props);
    assert forall p :: p in props ==> props[name := text][p] == props[p];
    if more.Some? {
      assert props[name := text][name] == text;
      assert rest.Some?;
      assert more.value == rest.value[name := more.value[name]];
    }
  }

  lemma {:induction false} MetadataAppend(rows: seq<MetadataRow>, more: seq<MetadataRow>, id: int)
    requires forall r :: r in more ==> r.metadataId != id
    ensures MetadataAt(rows + more, id) == MetadataAt(rows, id)
  {
    if more == [] {
      assert rows + more == rows;
    } else {
      var init := more[..|more| - 1];
      assert (rows + more)[..|rows + more| - 1] == rows + init;
      MetadataAppend(rows, init, id);
    }
  }

  /** `rows` is `before` plus rows of one id, which is not smaller than any before. */
  ghost predicate Extends(before: seq<MetadataRow>, rows: seq<MetadataRow>, id: int) {
    && before <= rows && id == |before|
    && TableFits(rows)
    && forall i :: |before| <= i < |rows| ==> rows[i].metadataId == id
  }

  lemma MetadataSnoc(before: seq<MetadataRow>, rows: seq<MetadataRow>, row: MetadataRow)
    requires Extends(before, rows, row.metadataId)
    requires row.rowid == |rows| + 1 && row.name !in MetadataAt(rows, row.metadataId)
    ensures Extends(before, rows + [row], row.metadataId)
    ensures MetadataAt(rows + [row], row.metadataId) == MetadataAt(rows, row.metadataId)[row.name := row.value]
  {
    assert (rows + [row])[..|rows|] == rows;
    NamesAt(rows, row.metadataId, row.name);
  }

  lemma ExtendsKeeps(before: seq<MetadataRow>, rows: seq<MetadataRow>, id: int)
    requires Extends(before, rows, id)
    ensures forall other :: other != id ==> MetadataAt(rows, other) == MetadataAt(before, other)
  {
    forall other | other != id
      ensures MetadataAt(rows, other) == MetadataAt(before, other)
    {
      MetadataAppend(before, rows[|before|..], other);
      assert before + rows[|before|..] == rows;
    }
  }

  lemma {:induction false} NoMetadataYet(rows: seq<MetadataRow>, id: int)
    requires forall r :: r in rows ==> r.metadataId != id
    ensures MetadataAt(rows, id) == map[]
  {
    if rows != [] {
      NoMetadataYet(rows[..|rows| - 1], id);
    }
  }

  // ---------- Verdicts ----------

  function TypeName(kind: ResultType): string {
    match kind
    case Broken => "broken"
    case ExpectedFailure => "expected_failure"
    case Failed => "failed"
    case Passed => "passed"
    case Skipped => "skipped"
  }

  function TypeOfName(name: string): Option<ResultType> {
    if name == "passed" then Some(Passed)
    else if name == "broken" then Some(Broken)
    else if name == "expected_failure" then Some(ExpectedFailure)
    else if name == "failed" then Some(Failed)
    else if name == "skipped" then Some(Skipped)
    else None
  }

  function ReasonColumn(result: TestResult): Option<string> {
    if result.reason == "" then None else Some(result.reason)
  }

  /** The verdict in a row; `None` stands for an integrity error. */
  function ParseResult(row: ResultRow): Option<TestResult> {
    match TypeOfName(row.kind)
    case None => None
    case Some(Passed) => if row.reason.Some? then None else Some(TestResult(Passed, ""))
    case Some(kind) => if row.reason.Some? then Some(TestResult(kind, row.reason.value)) else None
  }

  /** A verdict survives the store exactly if its reason is empty just when it passed; any
      other verdict makes reading the row an integrity error. */
  lemma VerdictRoundTrip(result: TestResult, caseId: int, startTime: int, endTime: int)
    ensures var read := ParseResult(ResultRow(caseId, TypeName(result.kind), ReasonColumn(result), startTime, endTime));
      read == if result.HasDueReason() then Some(result) else None
  {
  }

  // ---------- Reading test programs ----------

  /** One more case for the map of cases, which keeps the first entry of a name. */
  function Added(cases: Option<map<string, Md.Metadata>>, name: string, metadata: Option<Md.Metadata>):
    Option<map<string, Md.Metadata>>
  {
    if cases.None? || metadata.None? then None
    else if name in cases.value then cases
    else Some(cases.value[name := metadata.value])
  }

  /** The cases of a program, by name; `None` if the metadata of some case cannot be read. */
  function CasesOf(db: Db, rows: seq<CaseRow>, programId: int): Option<map<string, Md.Metadata>> {
    if rows == [] then Some(map[])
    else
      var last := rows[|rows| - 1];
      var rest := CasesOf(db, rows[..|rows| - 1], programId);
      if last.programId == programId then Added(rest, last.name, LoadedAt(db.metadatas, last.metadataId)) else rest
  }

  lemma {:induction false} CasesFail(db: Db, rows: seq<CaseRow>, i: nat, programId: int)
    requires i <= |rows| && CasesOf(db, rows[..i], programId).None?
    ensures CasesOf(db, rows, programId).None?
    decreases |rows|
  {
    if i == |rows| {
      assert rows[..i] == rows;
    } else {
      assert rows[..|rows| - 1][..i] == rows[..i];
      CasesFail(db, rows[..|rows| - 1], i, programId);
    }
  }

  method GetTestCases(db: Db, programId: int) returns (cases: Option<map<string, Md.Metadata>>)
    ensures cases == CasesOf(db, db.cases, programId)
  {
    hide LoadedAt;
    cases := Some(map[]);
    for i := 0 to |db.cases|
      invariant cases == CasesOf(db, db.cases[..i], programId) && cases.Some?
    {
      assert db.cases[..i + 1][..i] == db.cases[..i];
      if db.cases[i].programId == programId {
        var metadata := GetMetadata(db.metadatas, db.cases[i].metadataId);
        cases := Added(cases, db.cases[i].name, metadata);
        if cases.None? {
          CasesFail(db, db.cases, i + 1, programId);
          return;
        }
      }
    }
    assert db.cases[..|db.cases|] == db.cases;
  }

  /** A test program as loaded: only the cases that were put are in it, each with its own
      metadata; the metadata of the program stands behind them. */
  datatype Loaded = Loaded(
    interfaceName: string, path: Paths.Path, root: string, suite: string,
    metadata: Md.Metadata, cases: map<string, Md.Metadata>)
  {
    function MetadataOf(name: string): Md.Metadata
      requires name in cases
    {
      Md.Effective(metadata, cases[name])
    }
  }

  predicate HasProgram(db: Db, id: int) {
    1 <= id <= |db.programs|
  }

  /** `None` if some metadata cannot be read. */
  function ProgramAt(db: Db, id: int): Option<Loaded>
    requires HasProgram(db, id)
  {
    var row := db.programs[id - 1];
    var metadata, cases := LoadedAt(db.metadatas, row.metadataId), CasesOf(db, db.cases, id);
    if metadata.None? || cases.None? then None
    else Some(Loaded(row.interfaceName, row.relativePath, row.root, row.suite, metadata.value, cases.value))
  }

  method GetTestProgram(db: Db, id: int) returns (program: Option<Loaded>)
    requires HasProgram(db, id)
    ensures program == ProgramAt(db, id)
  {
    var row := db.programs[id - 1];
    var metadata := GetMetadata(db.metadatas, row.metadataId);
    if metadata.None? {
      return None;
    }
    var cases := GetTestCases(db, id);
    if cases.None? {
      return None;
    }
    program := Some(Loaded(row.interfaceName, row.relativePath, row.root, row.suite, metadata.value, cases.value));
  }

  // ---------- Reading files ----------

  /** The id of the file a test case has under a name. */
  function FileIdOf(rows: seq<CaseFileRow>, caseId: int, name: string): Option<int> {
    if rows == [] then None
    else if rows[0].caseId == caseId && rows[0].name == name then Some(rows[0].fileId)
    else FileIdOf(rows[1..], caseId, name)
  }

  /** The content of a file of a test case, empty if there is none; `None` is an integrity
      error. */
  function FileOf(db: Db, caseId: int, name: string): Option<string> {
    match FileIdOf(db.caseFiles, caseId, name)
    case None => Some("")
    case Some(id) => if 1 <= id <= |db.files| then Some(db.files[id - 1]) else None
  }

  lemma {:induction false} FileIdAppend(rows: seq<CaseFileRow>, row: CaseFileRow, caseId: int, name: string)
    ensures FileIdOf(rows + [row], caseId, name) ==
      if FileIdOf(rows, caseId, name).Some? then FileIdOf(rows, caseId, name)
      else if row.caseId == caseId && row.name == name then Some(row.fileId) else None
  {
    if rows == [] {
      assert rows + [row] == [row];
    } else {
      assert (rows + [row])[1..] == rows[1..] + [row];
      FileIdAppend(rows[1..], row, caseId, name);
    }
  }

  // ---------- What was put ----------

  datatype CasePut = CasePut(programId: int, case_: TestCase)
  datatype ResultPut = ResultPut(caseId: int, result: TestResult, startTime: int, endTime: int)

  /** The history of a write transaction. */
  datatype Puts = Puts(
    programs: seq<TestProgram>, cases: seq<CasePut>, results: seq<ResultPut>, files: map<(int, string), string>)

  predicate ProgramStored(db: Db, row: ProgramRow, p: TestProgram) {
    && row == ProgramRow(p.absolutePath, p.root, p.path, p.suite, row.metadataId, p.interfaceName)
    && row.metadataId < |db.metadatas|
    && MetadataAt(db.metadatas, row.metadataId) == Md.ToProperties(p.metadata)
  }

  predicate CaseStored(db: Db, row: CaseRow, c: CasePut) {
    && row == CaseRow(c.programId, c.case_.name, row.metadataId)
    && row.metadataId < |db.metadatas|
    && MetadataAt(db.metadatas, row.metadataId) == Md.ToProperties(c.case_.metadata)
  }

  predicate ResultStored(row: ResultRow, r: ResultPut) {
    row == ResultRow(r.caseId, TypeName(r.result.kind), ReasonColumn(r.result), r.startTime, r.endTime)
  }

  predicate FileStored(rows: seq<CaseFileRow>, files: seq<string>, put: map<(int, string), string>, caseId: int, name: string) {
    var id := FileIdOf(rows, caseId, name);
    if (caseId, name) in put then
      id.Some? && 1 <= id.value <= |files| && files[id.value - 1] == put[(caseId, name)]
    else
      id.None?
  }

  /** The tables hold exactly what was put, in the order in which it was put. */
  ghost predicate Holds(db: Db, puts: Puts) {
    && TableFits(db.metadatas)
    && |db.programs| == |puts.programs|
    && (forall i :: 0 <= i < |puts.programs| ==> ProgramStored(db, db.programs[i], puts.programs[i]))
    && |db.cases| == |puts.cases|
    && (forall i :: 0 <= i < |puts.cases| ==> CaseStored(db, db.cases[i], puts.cases[i]))
    && |db.results| == |puts.results|
    && (forall i :: 0 <= i < |puts.results| ==> ResultStored(db.results[i], puts.results[i]))
    && (forall i, j :: 0 <= i < j < |puts.results| ==> puts.results[i].caseId != puts.results[j].caseId)
    && (forall id, name :: FileStored(db.caseFiles, db.files, puts.files, id, name))
    && (forall k :: 0 <= k < |db.caseFiles| ==> 1 <= db.caseFiles[k].fileId <= |db.files|)
  }

  lemma HoldsWithMetadata(db: Db, db': Db, puts: Puts, id: int)
    requires Holds(db, puts)
    requires db' == db.(metadatas := db'.metadatas)
    requires TableFits(db'.metadatas) && |db.metadatas| <= |db'.metadatas| && id == |db.metadatas|
    requires forall other :: other != id ==> MetadataAt(db'.metadatas, other) == MetadataAt(db.metadatas, other)
    ensures Holds(db', puts)
  {
    hide FileStored, MetadataAt, Md.ToProperties;
  }

  lemma HoldsWithProgram(db: Db, puts: Puts, row: ProgramRow, p: TestProgram)
    requires Holds(db, puts) && ProgramStored(db, row, p)
    ensures Holds(db.(programs := db.programs + [row]), puts.(programs := puts.programs + [p]))
  {
    hide FileStored, MetadataAt, Md.ToProperties;
  }

  lemma HoldsWithCase(db: Db, puts: Puts, row: CaseRow, c: CasePut)
    requires Holds(db, puts) && CaseStored(db, row, c)
    ensures Holds(db.(cases := db.cases + [row]), puts.(cases := puts.cases + [c]))
  {
    hide FileStored, MetadataAt, Md.ToProperties;
  }

  lemma HoldsWithResult(db: Db, puts: Puts, row: ResultRow, r: ResultPut)
    requires Holds(db, puts) && ResultStored(row, r)
    requires forall k :: 0 <= k < |db.results| ==> db.results[k].caseId != r.caseId
    ensures Holds(db.(results := db.results + [row]), puts.(results := puts.results + [r]))
  {
    hide FileStored, MetadataAt, Md.ToProperties;
  }

  lemma HoldsWithFile(db: Db, puts: Puts, caseId: int, name: string, contents: string)
    requires Holds(db, puts) && FileIdOf(db.caseFiles, caseId, name).None? && (caseId, name) !in puts.files
    ensures Holds(
      db.(files := db.files + [contents],
          caseFiles := db.caseFiles + [CaseFileRow(caseId, name, |db.files| + 1)]),
      puts.(files := puts.files[(caseId, name) := contents]))
  {
    var row := CaseFileRow(caseId, name, |db.files| + 1);
    var rows, files, put := db.caseFiles + [row], db.files + [contents], puts.files[(caseId, name) := contents];
    forall id, n
      ensures FileStored(rows, files, put, id, n)
    {
      FileIdAppend(db.caseFiles, row, id, n);
      assert FileStored(db.caseFiles, db.files, puts.files, id, n);
      FileIdFits(db.caseFiles, id, n, |db.files|);
    }
  }

  lemma {:induction false} FileIdFits(rows: seq<CaseFileRow>, caseId: int, name: string, bound: int)
    requires forall k :: 0 <= k < |rows| ==> 1 <= rows[k].fileId <= bound
    ensures FileIdOf(rows, caseId, name).Some? ==> 1 <= FileIdOf(rows, caseId, name).value <= bound
  {
    if rows != [] {
      FileIdFits(rows[1..], caseId, name, bound);
    }
  }

  const EMPTY_DB := Db([], [], [], [], [], [])
  const NO_PUTS := Puts([], [], [], map[])

  // ---------- The join ----------

  /** A row of the query behind the results iterator. */
  datatype Joined = Joined(
    programId: int, absolutePath: string, caseId: int, name: string, result: ResultRow)

  predicate CaseOfResult(db: Db, r: ResultRow) {
    1 <= r.caseId <= |db.cases| && HasProgram(db, db.cases[r.caseId - 1].programId)
  }

  function JoinRow(db: Db, r: ResultRow): Joined
    requires CaseOfResult(db, r)
  {
    var c := db.cases[r.caseId - 1];
    Joined(c.programId, db.programs[c.programId - 1].absolutePath, r.caseId, c.name, r)
  }

  /** Programs joined with their cases joined with their results. */
  function Join(db: Db, results: seq<ResultRow>): seq<Joined> {
    if results == [] then []
    else (if CaseOfResult(db, results[0]) then [JoinRow(db, results[0])] else []) + Join(db, results[1..])
  }

  /** By absolute path, then by name. */
  predicate Before(a: Joined, b: Joined) {
    Strings.Less(a.absolutePath, b.absolutePath)
    || (a.absolutePath == b.absolutePath && Strings.AtMost(a.name, b.name))
  }

  function Insert(row: Joined, rows: seq<Joined>): seq<Joined> {
    if rows == [] || Before(row, rows[0]) then [row] + rows else [rows[0]] + Insert(row, rows[1..])
  }

  /** `ORDER BY` as an insertion sort. */
  function OrderBy(rows: seq<Joined>): seq<Joined> {
    if rows == [] then [] else Insert(rows[0], OrderBy(rows[1..]))
  }

  ghost predicate Sorted(rows: seq<Joined>) {
    forall i, j :: 0 <= i < j < |rows| ==> Before(rows[i], rows[j])
  }

  lemma BeforeIsTotal(a: Joined, b: Joined)
    ensures Before(a, b) || Before(b, a)
  {
    Strings.LessIsTotal(a.absolutePath, b.absolutePath);
    Strings.LessIsTotal(a.name, b.name);
  }

  lemma BeforeIsTransitive(a: Joined, b: Joined, c: Joined)
    requires Before(a, b) && Before(b, c)
    ensures Before(a, c)
  {
    if Strings.Less(a.absolutePath, b.absolutePath) && Strings.Less(b.absolutePath, c.absolutePath) {
      Strings.LessIsTransitive(a.absolutePath, b.absolutePath, c.absolutePath);
    }
    if Strings.Less(a.name, b.name) && Strings.Less(b.name, c.name) {
      Strings.LessIsTransitive(a.name, b.name, c.name);
    }
  }

  lemma {:induction false} InsertSorts(row: Joined, rows: seq<Joined>)
    requires Sorted(rows)
    ensures Sorted(Insert(row, rows)) && multiset(Insert(row, rows)) == multiset(rows) + multiset{row}
  {
    if rows == [] {
    } else if Before(row, rows[0]) {
      forall j | 0 <= j < |rows|
        ensures Before(row, rows[j])
      {
        if j > 0 {
          BeforeIsTransitive(row, rows[0], rows[j]);
        }
      }
      assert multiset([row] + rows) == multiset{row} + multiset(rows);
    } else {
      BeforeIsTotal(row, rows[0]);
      InsertSorts(row, rows[1..]);
      assert rows == [rows[0]] + rows[1..];
      var rest := Insert(row, rows[1..]);
      forall j | 0 <= j < |rest|
        ensures Before(rows[0], rest[j])
      {
        assert rest[j] in multiset(rest);
        if rest[j] != row {
          assert rest[j] in rows[1..];
        }
      }
    }
  }

  lemma {:induction false} OrderBySorts(rows: seq<Joined>)
    ensures Sorted(OrderBy(rows)) && multiset(OrderBy(rows)) == multiset(rows)
  {
    if rows != [] {
      OrderBySorts(rows[1..]);
      InsertSorts(rows[0], OrderBy(rows[1..]));
      assert rows == [rows[0]] + rows[1..];
    }
  }

  /** What the order is: paths ascend character by character, and so do the names of one
      path. */
  lemma OrderMeaning(rows: seq<Joined>, i: nat, j: nat)
    requires i < j < |rows|
    ensures |OrderBy(rows)| == |rows|
    ensures var a, b := OrderBy(rows)[i], OrderBy(rows)[j];
      || (exists k: nat :: Strings.SmallerAt(a.absolutePath, b.absolutePath, k))
      || (&& a.absolutePath == b.absolutePath
          && (a.name == b.name || exists k: nat :: Strings.SmallerAt(a.name, b.name, k)))
  {
    hide OrderBy;
    OrderBySorts(rows);
    assert |multiset(OrderBy(rows))| == |OrderBy(rows)| && |multiset(rows)| == |rows|;
    var a, b := OrderBy(rows)[i], OrderBy(rows)[j];
    assert Before(a, b);
    Strings.LessMeaning(a.absolutePath, b.absolutePath);
    Strings.LessMeaning(a.name, b.name);
  }

  // ---------- Writing ----------

  class WriteTransaction {
    var db: Db
    ghost var puts: Puts

    ghost predicate Valid()
      reads this
    {
      Holds(db, puts)
    }

    constructor ()
      ensures Valid() && db == EMPTY_DB && puts == NO_PUTS
    {
      db, puts := EMPTY_DB, NO_PUTS;
    }

    /** Files all properties, set or not, under the last rowid used before them. */
    method PutMetadata(md: Md.Metadata) returns (id: int)
      requires TableFits(db.metadatas)
      modifies this`db
      ensures db == old(db).(metadatas := db.metadatas)
      ensures TableFits(db.metadatas) && old(db.metadatas) <= db.metadatas && |old(db.metadatas)| < |db.metadatas|
      ensures id == |old(db.metadatas)|
      ensures MetadataAt(db.metadatas, id) == Md.ToProperties(md)
      ensures forall other :: other != id ==> MetadataAt(db.metadatas, other) == MetadataAt(old(db.metadatas), other)
    {
      hide Md.ToProperties, Md.Lookup, Md.ToText, MetadataAt, MaxRowid;
      id := MaxRowid(db.metadatas);
      ghost var before := db.metadatas;
      MaxRowidIsCount(before);
      NoMetadataYet(before, id);
      var props := Md.ToProperties(md);
      Md.SomethingToStore(md);
      var todo := props.Keys;
      while todo != {}
        invariant todo <= props.Keys && (todo == props.Keys ==> db.metadatas == before)
        invariant db == old(db).(metadatas := db.metadatas)
        invariant Extends(before, db.metadatas, id) && (todo != props.Keys ==> |before| < |db.metadatas|)
        invariant MetadataAt(db.metadatas, id) == props - todo
      {
        var name :| name in todo;
        MaxRowidIsCount(db.metadatas);
        var row := MetadataRow(MaxRowid(db.metadatas) + 1, id, name, props[name]);
        MetadataSnoc(before, db.metadatas, row);
        db := db.(metadatas := db.metadatas + [row]);
        todo := todo - {name};
      }
      ExtendsKeeps(before, db.metadatas, id);
    }

    method PutTestProgram(p: TestProgram) returns (id: int)
      requires Valid()
      modifies this
      ensures Valid() && puts == old(puts).(programs := old(puts).programs + [p]) && id == |puts.programs|
    {
      ghost var before := db;
      var metadataId := PutMetadata(p.metadata);
      HoldsWithMetadata(before, db, puts, metadataId);
      var row := ProgramRow(p.absolutePath, p.root, p.path, p.suite, metadataId, p.interfaceName);
      HoldsWithProgram(db, puts, row, p);
      db := db.(programs := db.programs + [row]);
      puts := puts.(programs := puts.programs + [p]);
      return |db.programs|;
    }

    method PutTestCase(test: Test, programId: int) returns (id: int)
      requires Valid()
      modifies this
      ensures Valid() && id == |puts.cases|
      ensures puts == old(puts).(cases := old(puts).cases + [CasePut(programId, test.case_)])
    {
      ghost var before := db;
      var metadataId := PutMetadata(test.case_.metadata);
      HoldsWithMetadata(before, db, puts, metadataId);
      var row := CaseRow(programId, test.case_.name, metadataId);
      HoldsWithCase(db, puts, row, CasePut(programId, test.case_));
      db := db.(cases := db.cases + [row]);
      puts := puts.(cases := puts.cases + [CasePut(programId, test.case_)]);
      return |db.cases|;
    }

    /** The case id is the primary key of the results: a second result is refused. */
    method PutResult(result: TestResult, caseId: int, startTime: int, endTime: int) returns (ok: bool)
      requires Valid()
      modifies this
      ensures Valid()
      ensures ok <==> forall k :: 0 <= k < |old(puts).results| ==> old(puts).results[k].caseId != caseId
      ensures puts == if ok then old(puts).(results := old(puts).results + [ResultPut(caseId, result, startTime, endTime)])
                      else old(puts)
    {
      ok := forall k :: 0 <= k < |db.results| ==> db.results[k].caseId != caseId;
      assert forall k :: 0 <= k < |db.results| ==> ResultStored(db.results[k], puts.results[k]);
      if ok {
        var row := ResultRow(caseId, TypeName(result.kind), ReasonColumn(result), startTime, endTime);
        HoldsWithResult(db, puts, row, ResultPut(caseId, result, startTime, endTime));
        db := db.(results := db.results + [row]);
        puts := puts.(results := puts.results + [ResultPut(caseId, result, startTime, endTime)]);
      }
    }

    /** Empty files are not stored; a second file of the same name is refused. */
    method PutTestCaseFile(name: string, contents: string, caseId: int) returns (ok: bool)
      requires Valid()
      modifies this
      ensures Valid()
      ensures ok <==> contents == "" || (caseId, name) !in old(puts).files
      ensures puts == if ok && contents != "" then old(puts).(files := old(puts).files[(caseId, name) := contents])
                      else old(puts)
    {
      if contents == "" {
        return true;
      }
      ok := FileIdOf(db.caseFiles, caseId, name).None?;
      assert FileStored(db.caseFiles, db.files, puts.files, caseId, name);
      if ok {
        HoldsWithFile(db, puts, caseId, name, contents);
        db := db.(files := db.files + [contents],
                  caseFiles := db.caseFiles + [CaseFileRow(caseId, name, |db.files| + 1)]);
        puts := puts.(files := puts.files[(caseId, name) := contents]);
      }
    }
  }

  // ---------- Reading results ----------

  /** The iterator over all results, with its cache of the last test program. */
  class ResultsIterator {
    const db: Db
    const rows: seq<Joined>
    var cursor: nat
    var lastTestProgram: Option<(int, Loaded)>

    predicate Valid()
      reads this
    {
      && rows == OrderBy(Join(db, db.results))
      && cursor <= |rows|
      && (lastTestProgram.Some? ==>
            HasProgram(db, lastTestProgram.value.0)
            && ProgramAt(db, lastTestProgram.value.0) == Some(lastTestProgram.value.1))
    }

    predicate HasRow()
      reads this
    {
      cursor < |rows|
    }

    constructor (db: Db)
      ensures Valid() && this.db == db && cursor == 0
    {
      this.db := db;
      rows := OrderBy(Join(db, db.results));
      cursor := 0;
      lastTestProgram := None;
    }

    method Next()
      requires Valid() && HasRow()
      modifies this`cursor
      ensures Valid() && cursor == old(cursor) + 1
    {
      cursor := cursor + 1;
    }

    /** The program of the current row, from the cache if it is the one loaded last; `None` if
        it cannot be loaded. */
    method TestProgram() returns (program: Option<Loaded>)
      requires Valid() && HasRow()
      modifies this`lastTestProgram
      ensures Valid() && HasProgram(db, rows[cursor].programId) && program == ProgramAt(db, rows[cursor].programId)
    {
      var id := rows[cursor].programId;
      RowIsJoined(db, rows[cursor]);
      if lastTestProgram.None? || lastTestProgram.value.0 != id {
        program := GetTestProgram(db, id);
        if program.None? {
          return;
        }
        lastTestProgram := Some((id, program.value));
      }
      return Some(lastTestProgram.value.1);
    }

    method TestCaseName() returns (name: string)
      requires Valid() && HasRow()
      ensures name == rows[cursor].name
    {
      return rows[cursor].name;
    }

    /** `None` is an integrity error. */
    method Result() returns (result: Option<TestResult>)
      requires Valid() && HasRow()
      ensures result == ParseResult(rows[cursor].result)
    {
      return ParseResult(rows[cursor].result);
    }

    /** The start and end times; `None` is an integrity error. */
    method Times() returns (times: Option<(int, int)>)
      requires Valid() && HasRow()
      ensures times == TimesOf(rows[cursor].result)
    {
      var row := rows[cursor].result;
      if row.startTime < 0 || row.endTime < 0 {
        return None;
      }
      return Some((row.startTime, row.endTime));
    }

    method FileContents(name: string) returns (contents: Option<string>)
      requires Valid() && HasRow()
      ensures contents == FileOf(db, rows[cursor].caseId, name)
    {
      var id := FileIdOf(db.caseFiles, rows[cursor].caseId, name);
      match id {
        case None => return Some("");
        case Some(fileId) =>
          if 1 <= fileId <= |db.files| {
            return Some(db.files[fileId - 1]);
          }
          return None;
      }
    }
  }

  lemma {:induction false} JoinIsJoined(db: Db, results: seq<ResultRow>, row: Joined)
    requires row in Join(db, results)
    ensures CaseOfResult(db, row.result) && row == JoinRow(db, row.result) && row.result in results
  {
    if results != [] {
      if row in Join(db, results[1..]) {
        JoinIsJoined(db, results[1..], row);
      }
    }
  }

  lemma RowIsJoined(db: Db, row: Joined)
    requires row in OrderBy(Join(db, db.results))
    ensures CaseOfResult(db, row.result) && row == JoinRow(db, row.result) && row.result in db.results
  {
    OrderBySorts(Join(db, db.results));
    assert row in multiset(OrderBy(Join(db, db.results)));
    JoinIsJoined(db, db.results, row);
  }

  // ---------- The round trip ----------

  function TimesOf(row: ResultRow): Option<(int, int)> {
    if row.startTime < 0 || row.endTime < 0 then None else Some((row.startTime, row.endTime))
  }

  /** Every result was put for a case that was put for a program that was put. */
  predicate Linked(puts: Puts) {
    && (forall k :: 0 <= k < |puts.results| ==> 1 <= puts.results[k].caseId <= |puts.cases|)
    && (forall k :: 0 <= k < |puts.cases| ==> 1 <= puts.cases[k].programId <= |puts.programs|)
  }

  /** A program has no two cases of one name. */
  predicate UniqueNames(puts: Puts) {
    forall i, j :: 0 <= i < j < |puts.cases| && puts.cases[i].programId == puts.cases[j].programId ==>
      puts.cases[i].case_.name != puts.cases[j].case_.name
  }

  /** What was put as text under an id loads as the metadata it was made of, restored. */
  lemma StoredLoads(rows: seq<MetadataRow>, id: int, md: Md.Metadata)
    requires TableFits(rows) && MetadataAt(rows, id) == Md.ToProperties(md)
    ensures LoadedAt(rows, id) == Md.Restored(md)
  {
    hide Md.ToProperties, Md.FromProperties, MetadataAt, LoadedAt;
    LoadedIsParsed(rows, id);
  }

  predicate CaseIn(puts: Puts, k: nat, programId: int) {
    k < |puts.cases| && puts.cases[k].programId == programId
  }

  predicate CaseLoadedIn(puts: Puts, k: nat, cases: map<string, Md.Metadata>)
    requires k < |puts.cases|
  {
    var c := puts.cases[k].case_;
    c.name in cases && Md.Restored(c.metadata) == Some(cases[c.name])
  }

  /** Loading the first `n` cases of a program works exactly if their metadata can be read, and
      then finds each of them with its own metadata, and no others. */
  ghost predicate CasesLoaded(puts: Puts, cases: Option<map<string, Md.Metadata>>, n: nat, programId: int) {
    && (cases.Some? <==> forall k: nat :: k < n && CaseIn(puts, k, programId) ==> Md.Restored(puts.cases[k].case_.metadata).Some?)
    && (cases.Some? ==>
          && (forall k: nat :: k < n && CaseIn(puts, k, programId) ==> CaseLoadedIn(puts, k, cases.value))
          && (forall name :: name in cases.value ==> NamesCase(puts, n, programId, name)))
  }

  ghost predicate NamesCase(puts: Puts, n: nat, programId: int, name: string) {
    exists k: nat :: k < n && CaseIn(puts, k, programId) && puts.cases[k].case_.name == name
  }

  lemma NewName(puts: Puts, n: nat)
    requires UniqueNames(puts) && n < |puts.cases|
    ensures !NamesCase(puts, n, puts.cases[n].programId, puts.cases[n].case_.name)
  {
  }

  lemma NamesNext(puts: Puts, n: nat, programId: int, name: string)
    requires n < |puts.cases|
    ensures NamesCase(puts, n + 1, programId, name) <==>
      NamesCase(puts, n, programId, name) || (CaseIn(puts, n, programId) && puts.cases[n].case_.name == name)
  {
    if NamesCase(puts, n, programId, name) {
      var k: nat :| k < n && CaseIn(puts, k, programId) && puts.cases[k].case_.name == name;
      assert k < n + 1;
    }
  }

  /** A case of another program changes nothing. */
  lemma OtherCaseLoaded(puts: Puts, cases: Option<map<string, Md.Metadata>>, n: nat, programId: int)
    requires n < |puts.cases| && CasesLoaded(puts, cases, n, programId) && puts.cases[n].programId != programId
    ensures CasesLoaded(puts, cases, n + 1, programId)
  {
    hide Md.Restored, NamesCase, CaseLoadedIn;
    assert !CaseIn(puts, n, programId);
    forall name: string {
      NamesNext(puts, n, programId, name);
    }
  }

  lemma OwnCaseLoaded(puts: Puts, cases: Option<map<string, Md.Metadata>>, n: nat, programId: int)
    requires n < |puts.cases| && CasesLoaded(puts, cases, n, programId) && puts.cases[n].programId == programId
    requires !NamesCase(puts, n, programId, puts.cases[n].case_.name)
    ensures var c := puts.cases[n].case_;
      CasesLoaded(puts, Added(cases, c.name, Md.Restored(c.metadata)), n + 1, programId)
  {
    hide Md.Restored, NamesCase;
    var c := puts.cases[n].case_;
    assert CaseIn(puts, n, programId);
    assert cases.Some? ==> c.name !in cases.value;
    forall name: string {
      NamesNext(puts, n, programId, name);
    }
  }

  lemma CasesLoadedNext(puts: Puts, cases: Option<map<string, Md.Metadata>>, n: nat, programId: int)
    requires n < |puts.cases| && CasesLoaded(puts, cases, n, programId)
    requires !NamesCase(puts, n, puts.cases[n].programId, puts.cases[n].case_.name)
    ensures var c := puts.cases[n];
      CasesLoaded(puts, if c.programId == programId then Added(cases, c.case_.name, Md.Restored(c.case_.metadata)) else cases,
                  n + 1, programId)
  {
    hide Md.Restored, NamesCase, CasesLoaded;
    if puts.cases[n].programId == programId {
      OwnCaseLoaded(puts, cases, n, programId);
    } else {
      OtherCaseLoaded(puts, cases, n, programId);
    }
  }

  lemma NoCases(db: Db, puts: Puts, programId: int)
    ensures CasesLoaded(puts, CasesOf(db, db.cases[..0], programId), 0, programId)
  {
  }

  lemma {:induction false} LoadedCases(db: Db, puts: Puts, n: nat, programId: int)
    requires Holds(db, puts) && UniqueNames(puts) && n <= |db.cases|
    ensures CasesLoaded(puts, CasesOf(db, db.cases[..n], programId), n, programId)
  {
    hide Md.ToProperties, Md.Restored, LoadedAt, MetadataAt, FileStored, ResultStored, ProgramStored, UniqueNames, CasesLoaded;
    if n == 0 {
      NoCases(db, puts, programId);
    } else {
      LoadedCases(db, puts, n - 1, programId);
      assert db.cases[..n][..n - 1] == db.cases[..n - 1];
      assert CaseStored(db, db.cases[n - 1], puts.cases[n - 1]);
      StoredLoads(db.metadatas, db.cases[n - 1].metadataId, puts.cases[n - 1].case_.metadata);
      NewName(puts, n - 1);
      CasesLoadedNext(puts, CasesOf(db, db.cases[..n - 1], programId), n - 1, programId);
    }
  }

  /** All metadata stored for a program and its cases can be read. */
  ghost predicate ProgramReadable(puts: Puts, id: int)
    requires 1 <= id <= |puts.programs|
  {
    && Md.AllReadable(puts.programs[id - 1].metadata)
    && forall k: nat :: CaseIn(puts, k, id) ==> Md.AllReadable(puts.cases[k].case_.metadata)
  }

  /** What reading a row gives is what was put: the program and the case with their own metadata
      restored, if it can be read at all, the verdict if it is one that can be stored, the times
      and the files. */
  ghost predicate ReadsBack(db: Db, row: Joined, puts: Puts, k: nat)
    requires k < |puts.results| && Linked(puts) && HasProgram(db, row.programId)
  {
    var r := puts.results[k];
    var c := puts.cases[r.caseId - 1];
    var p := puts.programs[c.programId - 1];
    && (ProgramAt(db, row.programId).Some? <==> ProgramReadable(puts, c.programId))
    && (ProgramAt(db, row.programId).Some? ==> LoadsAs(ProgramAt(db, row.programId).value, p, c.case_))
    && row.absolutePath == p.absolutePath && row.name == c.case_.name
    && ParseResult(row.result) == (if r.result.HasDueReason() then Some(r.result) else None)
    && (0 <= r.startTime && 0 <= r.endTime ==> TimesOf(row.result) == Some((r.startTime, r.endTime)))
    && (forall name :: FileOf(db, row.caseId, name) ==
          Some(if (r.caseId, name) in puts.files then puts.files[(r.caseId, name)] else ""))
  }

  predicate LoadsAs(loaded: Loaded, p: TestProgram, c: TestCase) {
    && loaded == Loaded(p.interfaceName, p.path, p.root, p.suite, loaded.metadata, loaded.cases)
    && Md.Restored(p.metadata) == Some(loaded.metadata)
    && c.name in loaded.cases && Md.Restored(c.metadata) == Some(loaded.cases[c.name])
  }

  /** The row is the one of the k-th result, and reads back as it was put. */
  ghost predicate RowFor(db: Db, row: Joined, puts: Puts, k: nat)
    requires k < |puts.results| && Linked(puts)
  {
    row.caseId == puts.results[k].caseId && HasProgram(db, row.programId) && ReadsBack(db, row, puts, k)
  }

  lemma FilesReadBack(db: Db, puts: Puts, caseId: int)
    requires Holds(db, puts)
    ensures forall name ::
      FileOf(db, caseId, name) == Some(if (caseId, name) in puts.files then puts.files[(caseId, name)] else "")
  {
    forall name
      ensures FileOf(db, caseId, name) == Some(if (caseId, name) in puts.files then puts.files[(caseId, name)] else "")
    {
      assert FileStored(db.caseFiles, db.files, puts.files, caseId, name);
    }
  }

  /** The rows of a result, of its case and of its program. */
  lemma RowsStored(db: Db, puts: Puts, k: nat)
    requires Holds(db, puts) && Linked(puts) && k < |puts.results|
    ensures var r := puts.results[k];
      var c := puts.cases[r.caseId - 1];
      && k < |db.results| && ResultStored(db.results[k], r)
      && |db.cases| == |puts.cases| && |db.programs| == |puts.programs|
      && db.cases[r.caseId - 1].programId == c.programId && db.cases[r.caseId - 1].name == c.case_.name
      && db.programs[c.programId - 1].absolutePath == puts.programs[c.programId - 1].absolutePath
  {
    hide FileStored, ResultStored, MetadataAt, Md.ToProperties;
    var c := puts.cases[puts.results[k].caseId - 1];
    assert CaseStored(db, db.cases[puts.results[k].caseId - 1], c);
    assert ProgramStored(db, db.programs[c.programId - 1], puts.programs[c.programId - 1]);
  }

  lemma ProgramRowLoads(db: Db, puts: Puts, id: int)
    requires Holds(db, puts) && 1 <= id <= |puts.programs|
    ensures var p := puts.programs[id - 1];
      && HasProgram(db, id) && |db.cases| == |puts.cases|
      && db.programs[id - 1] ==
         ProgramRow(p.absolutePath, p.root, p.path, p.suite, db.programs[id - 1].metadataId, p.interfaceName)
      && LoadedAt(db.metadatas, db.programs[id - 1].metadataId) == Md.Restored(p.metadata)
  {
    hide Md.ToProperties, Md.Restored, LoadedAt, MetadataAt, FileStored, ResultStored, CaseStored;
    assert ProgramStored(db, db.programs[id - 1], puts.programs[id - 1]);
    StoredLoads(db.metadatas, db.programs[id - 1].metadataId, puts.programs[id - 1].metadata);
  }

  lemma CasesReadable(puts: Puts, id: int)
    requires 1 <= id <= |puts.programs|
    ensures ProgramReadable(puts, id) <==>
      Md.AllReadable(puts.programs[id - 1].metadata)
      && forall k: nat :: CaseIn(puts, k, id) ==> Md.Restored(puts.cases[k].case_.metadata).Some?
  {
    hide Md.Restored, Md.AllReadable;
    forall k: nat | CaseIn(puts, k, id)
      ensures Md.Restored(puts.cases[k].case_.metadata).Some? <==> Md.AllReadable(puts.cases[k].case_.metadata)
    {
      Md.RestoredMeaning(puts.cases[k].case_.metadata);
    }
  }

  lemma LoadedCase(puts: Puts, cases: Option<map<string, Md.Metadata>>, i: nat)
    requires i < |puts.cases| && CasesLoaded(puts, cases, |puts.cases|, puts.cases[i].programId)
    ensures cases.Some? <==>
      forall k: nat :: CaseIn(puts, k, puts.cases[i].programId) ==> Md.Restored(puts.cases[k].case_.metadata).Some?
    ensures cases.Some? ==> CaseLoadedIn(puts, i, cases.value)
  {
    hide Md.Restored, NamesCase, CaseLoadedIn;
    assert CaseIn(puts, i, puts.cases[i].programId);
  }

  /** A program loads exactly if all metadata stored for it can be read, and then with the
      restored metadata. */
  lemma ProgramLoaded(db: Db, puts: Puts, i: nat)
    requires Holds(db, puts) && Linked(puts) && UniqueNames(puts) && i < |puts.cases|
    ensures var c := puts.cases[i];
      var p := puts.programs[c.programId - 1];
      && HasProgram(db, c.programId)
      && (ProgramAt(db, c.programId).Some? <==> ProgramReadable(puts, c.programId))
      && (ProgramAt(db, c.programId).Some? ==> LoadsAs(ProgramAt(db, c.programId).value, p, c.case_))
  {
    hide Holds, Md.Restored, Md.AllReadable, LoadedAt, CasesOf, UniqueNames, CasesLoaded, CaseIn;
    var id := puts.cases[i].programId;
    ProgramRowLoads(db, puts, id);
    LoadedCases(db, puts, |db.cases|, id);
    assert db.cases[..|db.cases|] == db.cases;
    Md.RestoredMeaning(puts.programs[id - 1].metadata);
    CasesReadable(puts, id);
    LoadedCase(puts, CasesOf(db, db.cases, id), i);
  }

  lemma RowReadsBack(db: Db, puts: Puts, k: nat)
    requires Holds(db, puts) && Linked(puts) && UniqueNames(puts) && k < |puts.results|
    ensures CaseOfResult(db, db.results[k]) && ReadsBack(db, JoinRow(db, db.results[k]), puts, k)
  {
    hide Holds, UniqueNames, FileOf, ParseResult, TypeName, MetadataAt, ProgramAt, ProgramReadable, LoadsAs,
         CaseStored, ProgramStored;
    var r := puts.results[k];
    RowsStored(db, puts, k);
    ProgramLoaded(db, puts, r.caseId - 1);
    VerdictRoundTrip(r.result, r.caseId, r.startTime, r.endTime);
    FilesReadBack(db, puts, r.caseId);
  }

  lemma {:induction false} JoinKeepsAll(db: Db, results: seq<ResultRow>)
    requires forall r :: r in results ==> CaseOfResult(db, r)
    ensures |Join(db, results)| == |results|
    ensures forall k :: 0 <= k < |results| ==> Join(db, results)[k] == JoinRow(db, results[k])
  {
    if results != [] {
      JoinKeepsAll(db, results[1..]);
    }
  }

  lemma AllJoined(db: Db, puts: Puts)
    requires Holds(db, puts) && Linked(puts)
    ensures |Join(db, db.results)| == |puts.results|
    ensures forall k :: 0 <= k < |puts.results| ==>
      CaseOfResult(db, db.results[k]) && Join(db, db.results)[k] == JoinRow(db, db.results[k])
        && db.results[k].caseId == puts.results[k].caseId
  {
    assert forall k :: 0 <= k < |db.results| ==> ResultStored(db.results[k], puts.results[k]);
    assert forall k :: 0 <= k < |db.cases| ==> CaseStored(db, db.cases[k], puts.cases[k]);
    JoinKeepsAll(db, db.results);
  }

  /** After any sequence of puts, reading the results back visits as many rows as results were
      put, no case twice, ordered by program and test case name. */
  lemma ReadingOrder(db: Db, puts: Puts)
    requires Holds(db, puts) && Linked(puts)
    ensures var rows := OrderBy(Join(db, db.results));
      && |rows| == |puts.results| && Sorted(rows)
      && (forall i, j :: 0 <= i < j < |rows| ==> rows[i].caseId != rows[j].caseId)
  {
    AllJoined(db, puts);
    OrderBySorts(Join(db, db.results));
    SameLength(OrderBy(Join(db, db.results)), Join(db, db.results));
    DistinctCases(OrderBy(Join(db, db.results)), Join(db, db.results));
  }

  /** Main theorem.  After any sequence of puts, every result that was put has its row, and
      that row reads back everything as it was put. */
  lemma RoundTrip(db: Db, puts: Puts, k: nat) returns (i: nat)
    requires Holds(db, puts) && Linked(puts) && UniqueNames(puts) && k < |puts.results|
    ensures i < |OrderBy(Join(db, db.results))| && RowFor(db, OrderBy(Join(db, db.results))[i], puts, k)
  {
    AllJoined(db, puts);
    RowReadsBack(db, puts, k);
    var joined := Join(db, db.results);
    OrderBySorts(joined);
    i := PositionIn(OrderBy(joined), joined, k);
  }

  lemma PositionIn(a: seq<Joined>, b: seq<Joined>, k: nat) returns (i: nat)
    requires multiset(a) == multiset(b) && k < |b|
    ensures i < |a| && a[i] == b[k]
  {
    assert b[k] in multiset(b);
    assert b[k] in multiset(a);
    i :| 0 <= i < |a| && a[i] == b[k];
  }

  lemma SameLength(a: seq<Joined>, b: seq<Joined>)
    requires multiset(a) == multiset(b)
    ensures |a| == |b|
  {
    assert |a| == |multiset(a)| == |multiset(b)| == |b|;
  }

  lemma DistinctCases(a: seq<Joined>, b: seq<Joined>)
    requires multiset(a) == multiset(b)
    requires forall i, j :: 0 <= i < j < |b| ==> b[i].caseId != b[j].caseId
    ensures forall i, j :: 0 <= i < j < |a| ==> a[i].caseId != a[j].caseId
  {
    forall i, j | 0 <= i < j < |a|
      ensures a[i].caseId != a[j].caseId
    {
      TwoOccurrences(a, i, j);
      assert a[i] in multiset(b) && a[j] in multiset(b);
      if a[i] == a[j] {
        AtMostOnce(b, a[i]);
      } else {
        var k :| 0 <= k < |b| && b[k] == a[i];
        var l :| 0 <= l < |b| && b[l] == a[j];
      }
    }
  }

  lemma TwoOccurrences(a: seq<Joined>, i: nat, j: nat)
    requires i < j < |a|
    ensures a[i] == a[j] ==> multiset(a)[a[i]] >= 2
  {
    assert a == a[..j] + a[j..];
    assert multiset(a) == multiset(a[..j]) + multiset(a[j..]);
    assert a[..j][i] in multiset(a[..j]) && a[j..][0] in multiset(a[j..]);
  }

  lemma {:induction false} AtMostOnce(b: seq<Joined>, x: Joined)
    requires forall i, j :: 0 <= i < j < |b| ==> b[i].caseId != b[j].caseId
    ensures multiset(b)[x] <= 1
  {
    if b != [] {
      AtMostOnce(b[1..], x);
      assert b == [b[0]] + b[1..];
      if b[0] == x {
        assert x !in b[1..];
      }
    }
  }
}
