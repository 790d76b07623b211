/** The SET statements of the two dialects: how they are printed (`GetSet...Query`) and how they are recognised in what
    the application runs (`DoesStatementSet...`), and what `UpdateState` makes of a text.
    Fixed texts are given as their words. */
module Dialects {
  import opened Strings
  import opened SqlText

  datatype Dialect = MySQL | Postgres
  datatype Isolation = ReadUncommitted | ReadCommitted | RepeatableRead | Serializable

  /** The five values a session carries, each `None` while it is not tracked. */
  datatype Values = Values(autoCommit: Option<bool>, readOnly: Option<bool>, catalog: Option<string>,
                           schema: Option<string>, isolation: Option<Isolation>)

  const NOTHING := Values(None, None, None, None, None)

  // ---------------------------------------------------------------------------------------------
  // Printing
  // ---------------------------------------------------------------------------------------------

  function SessionWords(d: Dialect): seq<string> {
    match d
    case MySQL => ["set", "session", "transaction"]
    case Postgres => ["set", "session", "characteristics", "as", "transaction"]
  }

  function ReadWords(d: Dialect, readOnly: bool): seq<string> {
    SessionWords(d) + ["read", if readOnly then "only" else "write"]
  }

  function LevelWords(level: Isolation): seq<string> {
    match level
    case ReadUncommitted => ["READ", "UNCOMMITTED"]
    case ReadCommitted => ["READ", "COMMITTED"]
    case RepeatableRead => ["REPEATABLE", "READ"]
    case Serializable => ["SERIALIZABLE"]
  }

  const SEARCH_PATH_TO := ["set", "search_path", "to"]

  /** `GetSetAutoCommitQuery`; `None` is the unsupported-method error. */
  function AutoCommitQuery(d: Dialect, value: bool): Option<string> {
    if d == Postgres then None
    else Some("set " + ("autocommit=" + if value then "true" else "false"))
  }

  /** `GetSetReadOnlyQuery`. */
  function ReadOnlyQuery(d: Dialect, value: bool): Option<string> {
    Some(Phrase(ReadWords(d, value)))
  }

  /** `GetSetCatalogQuery`. */
  function CatalogQuery(d: Dialect, value: string): Option<string> {
    if d == Postgres then None else Some("use " + value)
  }

  /** Whether the schema is printed between quotes. */
  predicate IsQuoted(schema: string) {
    ' ' in schema && schema[0] != '"' && schema[|schema| - 1] != '"'
  }

  function SchemaText(schema: string): string {
    if IsQuoted(schema) then "\"" + schema + "\"" else schema
  }

  /** `GetSetSchemaQuery`. */
  function SchemaQuery(d: Dialect, value: string): Option<string> {
    if d == MySQL then None else Some(Phrase(SEARCH_PATH_TO) + (" " + SchemaText(value)))
  }

  /** `GetSetTransactionIsolationQuery`. */
  function IsolationQuery(d: Dialect, level: Isolation): Option<string> {
    Some(Phrase(SessionWords(d) + ["isolation", "level"] + LevelWords(level)))
  }

  // ---------------------------------------------------------------------------------------------
  // Recognising
  // ---------------------------------------------------------------------------------------------

  /** `strconv.ParseBool` on lower-case text. */
  function ParseBool(s: string): Option<bool> {
    if s == "1" || s == "t" || s == "true" then Some(true)
    else if s == "0" || s == "f" || s == "false" then Some(false)
    else None
  }

  function DetectAutoCommit(d: Dialect, statement: string): Option<bool> {
    var lower := ToLower(statement);
    if d == Postgres || !HasPrefix(lower, Phrase(["set", "autocommit"])) then None
    else
      var sections := Split(lower, '=');
      if |sections| < 2 then None else ParseBool(Trim(sections[1]))
  }

  function DetectReadOnly(d: Dialect, statement: string): Option<bool> {
    var lower := ToLower(statement);
    if HasPrefix(lower, Phrase(ReadWords(d, true))) then Some(true)
    else if HasPrefix(lower, Phrase(ReadWords(d, false))) then Some(false)
    else None
  }

  /** What `\w` matches. */
  predicate IsWordChar(c: char) {
    'a' <= c <= 'z' || 'A' <= c <= 'Z' || '0' <= c <= '9' || c == '_'
  }

  predicate IsWord(s: string) {
    s != "" && forall i :: 0 <= i < |s| ==> IsWordChar(s[i])
  }

  /** The longest match of `\w*`. */
  function LeadingWord(s: string): (w: string)
    ensures w == "" || IsWord(w)
  {
    if s == "" || !IsWordChar(s[0]) then "" else [s[0]] + LeadingWord(s[1..])
  }

  /** The match of `^(?i)use\s+(\w+)`. */
  function DetectCatalog(d: Dialect, statement: string): (r: Option<string>)
    ensures r.Some? ==> IsWord(r.value)
  {
    if d == Postgres || |statement| < 4 || ToLower(statement[..3]) != "use" || !IsReSpace(statement[3]) then None
    else
      var word := LeadingWord(SkipSpaces(statement[3..]));
      if word == "" then None else Some(word)
  }

  /** The second group of `set search_path( to |\s?=\s?)("?.+"?)`, matched right here: all that follows the `to` or the
      equals sign and one blank on either side of it, if that is anything. */
  function MatchSearchPath(s: string): Option<string> {
    if !HasPrefix(ToLower(s), Phrase(["set", "search_path"])) then None
    else
      var rest := s[15..];
      if HasPrefix(ToLower(rest), " to ") && |rest| > 4 then Some(rest[4..])
      else
        var sign := if rest != "" && IsReSpace(rest[0]) then rest[1..] else rest;
        if sign == "" || sign[0] != '=' || sign == "=" then None
        else if IsReSpace(sign[1]) && |sign| > 2 then Some(sign[2..])
        else Some(sign[1..])
  }

  /** The leftmost match. */
  function FindSearchPath(s: string): Option<string> {
    var here := MatchSearchPath(s);
    if here.Some? then here else if s == "" then None else FindSearchPath(s[1..])
  }

  datatype SchemaFound = NoSchema | Schema(name: string) | Panic

  /** `DoesStatementSetSchema`: a lone quote is sliced beyond its end. */
  function DetectSchema(d: Dialect, statement: string): SchemaFound {
    if d == MySQL then NoSchema
    else
      match FindSearchPath(statement)
      case None => NoSchema
      case Some(text) =>
        var schema := Trim(text);
        if schema == "" then Panic
        else if schema[0] == '"' && schema[|schema| - 1] == '"' then
          if |schema| == 1 then Panic else Schema(schema[1..|schema| - 1])
        else Schema(schema)
  }

  function LowerLevelWords(level: Isolation): seq<string> {
    match level
    case ReadUncommitted => ["read", "uncommitted"]
    case ReadCommitted => ["read", "committed"]
    case RepeatableRead => ["repeatable", "read"]
    case Serializable => ["serializable"]
  }

  function IsolationWords(d: Dialect, level: Isolation): seq<string> {
    SessionWords(d) + ["isolation", "level"] + LowerLevelWords(level)
  }

  predicate Mentions(d: Dialect, statement: string, level: Isolation) {
    Contains(ToLower(statement), Phrase(IsolationWords(d, level)))
  }

  function DetectIsolation(d: Dialect, statement: string): Option<Isolation> {
    if Mentions(d, statement, ReadUncommitted) then Some(ReadUncommitted)
    else if Mentions(d, statement, ReadCommitted) then Some(ReadCommitted)
    else if Mentions(d, statement, RepeatableRead) then Some(RepeatableRead)
    else if Mentions(d, statement, Serializable) then Some(Serializable)
    else None
  }

  // ---------------------------------------------------------------------------------------------
  // UpdateState
  // ---------------------------------------------------------------------------------------------

  /** What all detectors say about one statement; `None` is a panic. */
  function Detect(d: Dialect, statement: string): Option<Values> {
    match DetectSchema(d, statement)
    case Panic => None
    case NoSchema =>
      Some(Values(DetectAutoCommit(d, statement), DetectReadOnly(d, statement), DetectCatalog(d, statement), None,
                  DetectIsolation(d, statement)))
    case Schema(name) =>
      Some(Values(DetectAutoCommit(d, statement), DetectReadOnly(d, statement), DetectCatalog(d, statement), Some(name),
                  DetectIsolation(d, statement)))
  }

  /** The statements are looked at from the last one until one of them sets something. */
  function LastDetected(d: Dialect, statements: seq<string>): Option<Values> {
    if statements == [] then Some(NOTHING)
    else
      var found := Detect(d, statements[|statements| - 1]);
      if found == Some(NOTHING) then LastDetected(d, statements[..|statements| - 1]) else found
  }

  /** The same for any detector. */
  function LastFound(detect: string -> Option<Values>, statements: seq<string>): Option<Values> {
    if statements == [] then Some(NOTHING)
    else
      var found := detect(statements[|statements| - 1]);
      if found == Some(NOTHING) then LastFound(detect, statements[..|statements| - 1]) else found
  }

  lemma {:induction false} LastFoundIsDetected(d: Dialect, detect: string -> Option<Values>, statements: seq<string>)
    requires forall s :: detect(s) == Detect(d, s)
    ensures LastFound(detect, statements) == LastDetected(d, statements)
  {
    if statements != [] { LastFoundIsDetected(d, detect, statements[..|statements| - 1]); }
  }

  function Either<T>(new_: Option<T>, old_: Option<T>): Option<T> {
    if new_.Some? then new_ else old_
  }

  function Overlay(values: Values, found: Values): Values {
    Values(Either(found.autoCommit, values.autoCommit), Either(found.readOnly, values.readOnly),
           Either(found.catalog, values.catalog), Either(found.schema, values.schema),
           Either(found.isolation, values.isolation))
  }

  /** What `UpdateState` does to the tracked values; `None` is a panic. */
  function Track(d: Dialect, values: Values, query: string): Option<Values> {
    match LastDetected(d, Separate(query))
    case None => None
    case Some(found) => Some(Overlay(values, found))
  }

  lemma LastDetectedSingle(d: Dialect, statement: string)
    ensures LastDetected(d, [statement]) == Detect(d, statement)
  {
    assert [statement][..0] == [] && LastDetected(d, []) == Some(NOTHING);
  }

  lemma TrackSingle(d: Dialect, values: Values, query: string, statement: string, found: Values)
    requires Separate(query) == [statement] && Detect(d, statement) == Some(found)
    ensures Track(d, values, query) == Some(Overlay(values, found))
  {
    LastDetectedSingle(d, statement);
  }

  // ---------------------------------------------------------------------------------------------
  // Which fixed texts are found where
  // ---------------------------------------------------------------------------------------------

  lemma SessionIsPlain(d: Dialect)
    ensures ArePlain(SessionWords(d))
  {
    assert IsPlain("set") && IsPlain("session") && IsPlain("transaction");
    assert IsPlain("characteristics") && IsPlain("as");
  }

  lemma ReadIsPlain(value: bool)
    ensures ArePlain(["read", if value then "only" else "write"])
  {
    assert IsPlain("read") && IsPlain("only") && IsPlain("write");
  }

  lemma LevelIsPlain(level: Isolation)
    ensures ArePlain(LevelWords(level))
  {
    assert IsPlain("READ") && IsPlain("COMMITTED") && IsPlain("UNCOMMITTED");
    assert IsPlain("REPEATABLE") && IsPlain("SERIALIZABLE");
  }

  lemma LowerLevelIsPlain(level: Isolation)
    ensures ArePlain(LowerLevelWords(level))
  {
    assert IsPlain("read") && IsPlain("committed") && IsPlain("uncommitted");
    assert IsPlain("repeatable") && IsPlain("serializable");
  }

  lemma PathIsPlain()
    ensures ArePlain(SEARCH_PATH_TO) && ArePlain(["set", "search_path"]) && ArePlain(["set", "autocommit"])
    ensures ArePlain(["isolation", "level"])
  {
    assert IsPlain("set") && IsPlain("search_path") && IsPlain("to") && IsPlain("autocommit");
    assert IsPlain("isolation") && IsPlain("level");
  }

  lemma PlainConcat(a: seq<string>, b: seq<string>)
    requires ArePlain(a) && ArePlain(b)
    ensures ArePlain(a + b)
  {
  }

  lemma FixedTextsArePlain(d: Dialect, value: bool, level: Isolation)
    ensures ArePlain(ReadWords(d, value)) && ArePlain(IsolationWords(d, level))
    ensures ArePlain(SessionWords(d) + ["isolation", "level"] + LevelWords(level))
  {
    SessionIsPlain(d);
    ReadIsPlain(value);
    LevelIsPlain(level);
    LowerLevelIsPlain(level);
    PathIsPlain();
    PlainConcat(SessionWords(d), ["read", if value then "only" else "write"]);
    PlainConcat(SessionWords(d), ["isolation", "level"]);
    PlainConcat(SessionWords(d) + ["isolation", "level"], LevelWords(level));
    PlainConcat(SessionWords(d) + ["isolation", "level"], LowerLevelWords(level));
  }

  lemma LowerIsLower(w: string)
    requires forall i :: 0 <= i < |w| ==> !('A' <= w[i] <= 'Z')
    ensures ToLower(w) == w
  {
  }

  lemma SessionIsLower(d: Dialect)
    ensures forall i :: 0 <= i < |SessionWords(d)| ==> ToLower(SessionWords(d)[i]) == SessionWords(d)[i]
    ensures ToLower("isolation") == "isolation" && ToLower("level") == "level" && ToLower("read") == "read"
    ensures ToLower("only") == "only" && ToLower("write") == "write"
  {
  }

  lemma LevelLowers(level: Isolation)
    ensures |LevelWords(level)| == |LowerLevelWords(level)|
    ensures forall i :: 0 <= i < |LevelWords(level)| ==> ToLower(LevelWords(level)[i]) == LowerLevelWords(level)[i]
  {
  }

  lemma LowerIsolationQuery(d: Dialect, level: Isolation)
    ensures ToLower(IsolationQuery(d, level).value) == Phrase(IsolationWords(d, level))
  {
    SessionIsLower(d);
    LevelLowers(level);
    LowerPhrase(SessionWords(d) + ["isolation", "level"] + LevelWords(level), IsolationWords(d, level));
  }

  lemma LowerReadOnlyQuery(d: Dialect, value: bool)
    ensures ToLower(ReadOnlyQuery(d, value).value) == Phrase(ReadWords(d, value))
  {
    SessionIsLower(d);
    LowerPhrase(ReadWords(d, value), ReadWords(d, value));
  }
}
