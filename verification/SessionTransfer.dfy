/** The queries that carry a session over to another connection, read back by the detectors, rebuild what they carry. */
module SessionTransfer {
  import opened Strings
  import opened SqlText
  import opened Dialects

  // ---------------------------------------------------------------------------------------------
  // What is not found in phrases
  // ---------------------------------------------------------------------------------------------

  /** A statement whose lower-case text is this phrase. */
  predicate Reads(statement: string, ws: seq<string>) {
    ArePlain(ws) && ToLower(statement) == Phrase(ws)
  }

  lemma NoAutoCommit(d: Dialect, statement: string, ws: seq<string>)
    requires Reads(statement, ws) && |ws| >= 2 && (ws[0] != "set" || ws[1] == "session" || ws[1] == "search_path")
    ensures DetectAutoCommit(d, statement) == None
  {
    PathIsPlain();
    assert ["set", "autocommit"][0] == "set" && ["set", "autocommit"][1] == "autocommit";
    assert "session"[0] != "autocommit"[0] && "search_path"[0] != "autocommit"[0];
    assert ws[0] == "set" ==> ws[1][..1] != "autocommit"[..1];
    assert HasPrefix(ws[1], "autocommit") ==> ws[1][..10][..1] == ws[1][..1];
    if HasPrefix(Phrase(ws), Phrase(["set", "autocommit"])) {
      PrefixWords(ws, ["set", "autocommit"]);
      assert false;
    }
  }

  lemma NoReadOnly(d: Dialect, statement: string, ws: seq<string>)
    requires Reads(statement, ws)
    requires |ws| < |SessionWords(d)| + 2 || ws[|SessionWords(d)|] == "isolation"
    ensures DetectReadOnly(d, statement) == None
  {
    NoReadWords(d, statement, ws, true);
    NoReadWords(d, statement, ws, false);
  }

  lemma NoReadWords(d: Dialect, statement: string, ws: seq<string>, value: bool)
    requires Reads(statement, ws)
    requires |ws| < |SessionWords(d)| + 2 || ws[|SessionWords(d)|] == "isolation"
    ensures !HasPrefix(ToLower(statement), Phrase(ReadWords(d, value)))
  {
    FixedTextsArePlain(d, value, ReadCommitted);
    assert ReadWords(d, value)[|SessionWords(d)|] == "read" && |"read"| != |"isolation"|;
    if HasPrefix(Phrase(ws), Phrase(ReadWords(d, value))) {
      PrefixWords(ws, ReadWords(d, value));
      assert false;
    }
  }

  lemma NoCatalog(d: Dialect, statement: string, ws: seq<string>)
    requires Reads(statement, ws) && ws[0] == "set"
    ensures DetectCatalog(d, statement) == None
  {
    var lower := ToLower(statement);
    assert lower[0] == 's';
    assert |statement| >= 4 ==> ToLower(statement[..3])[0] == lower[0];
    assert "use"[0] == 'u';
  }

  /** Too few words for an isolation statement. */
  lemma NoIsolation(d: Dialect, statement: string, ws: seq<string>)
    requires Reads(statement, ws) && |ws| < |SessionWords(d)| + 3
    ensures DetectIsolation(d, statement) == None
  {
    forall level: Isolation ensures !Mentions(d, statement, level) {
      FixedTextsArePlain(d, true, level);
      if Mentions(d, statement, level) {
        ContainsWords(ws, IsolationWords(d, level));
        assert false;
      }
    }
  }

  lemma {:induction false} SearchPathIsSought(s: string)
    requires FindSearchPath(s).Some?
    ensures Contains(ToLower(s), Phrase(["set", "search_path"]))
  {
    if MatchSearchPath(s) == None {
      SearchPathIsSought(s[1..]);
      assert ToLower(s)[1..] == ToLower(s[1..]);
    }
  }

  lemma NoSearchPath(d: Dialect, statement: string, ws: seq<string>)
    requires Reads(statement, ws) && forall j :: 1 <= j < |ws| ==> !HasPrefix(ws[j], "search_path")
    ensures DetectSchema(d, statement) == NoSchema
  {
    PathIsPlain();
    assert ["set", "search_path"][1..] == ["search_path"];
    assert forall j :: 1 <= j < |ws| ==> ws[j..][0] == ws[j];
    if FindSearchPath(statement).Some? {
      SearchPathIsSought(statement);
      ContainsWords(ws, ["set", "search_path"]);
      assert false;
    }
  }

  // ---------------------------------------------------------------------------------------------
  // Read-only and isolation
  // ---------------------------------------------------------------------------------------------

  lemma NoPathWord(w: string)
    requires |w| < 11 || w[0] != 's' || w[2] != 'a'
    ensures !HasPrefix(w, "search_path")
  {
    assert "search_path"[0] == 's' && "search_path"[2] == 'a';
    if HasPrefix(w, "search_path") {
      PrefixChars(w, "search_path");
      assert false;
    }
  }

  lemma NoPathInFixedTexts(d: Dialect, value: bool, level: Isolation)
    ensures forall j :: 0 <= j < |ReadWords(d, value)| ==> !HasPrefix(ReadWords(d, value)[j], "search_path")
    ensures forall j :: 0 <= j < |IsolationWords(d, level)| ==> !HasPrefix(IsolationWords(d, level)[j], "search_path")
  {
    NoPathWord("set");
    NoPathWord("session");
    NoPathWord("characteristics");
    NoPathWord("as");
    NoPathWord("transaction");
    NoPathWord("read");
    NoPathWord("only");
    NoPathWord("write");
    NoPathWord("isolation");
    NoPathWord("level");
    NoPathWord("uncommitted");
    NoPathWord("committed");
    NoPathWord("repeatable");
    NoPathWord("serializable");
  }

  lemma ReadOnlySetsNothingElse(d: Dialect, value: bool)
    ensures var q := ReadOnlyQuery(d, value).value;
            && DetectAutoCommit(d, q) == None && DetectCatalog(d, q) == None && DetectIsolation(d, q) == None
            && DetectSchema(d, q) == NoSchema
  {
    var q, ws := ReadOnlyQuery(d, value).value, ReadWords(d, value);
    FixedTextsArePlain(d, value, ReadCommitted);
    LowerReadOnlyQuery(d, value);
    assert ws[0] == "set" && ws[1] == "session";
    NoAutoCommit(d, q, ws);
    NoCatalog(d, q, ws);
    NoIsolation(d, q, ws);
    NoPathInFixedTexts(d, value, ReadCommitted);
    NoSearchPath(d, q, ws);
  }

  lemma ReadOnlyIsRead(d: Dialect, value: bool)
    ensures DetectReadOnly(d, ReadOnlyQuery(d, value).value) == Some(value)
  {
    var ws := ReadWords(d, value);
    FixedTextsArePlain(d, value, ReadCommitted);
    FixedTextsArePlain(d, true, ReadCommitted);
    LowerReadOnlyQuery(d, value);
    assert !HasPrefix("write", "only") by { assert "write"[..4][0] != "only"[0]; }
    if !value && HasPrefix(Phrase(ws), Phrase(ReadWords(d, true))) {
      PrefixWords(ws, ReadWords(d, true));
      assert false;
    }
    PrefixPhrase(ws, "");
    assert Phrase(ws) + "" == Phrase(ws);
  }

  lemma ReadOnlyIsDetected(d: Dialect, value: bool)
    ensures Detect(d, ReadOnlyQuery(d, value).value) == Some(NOTHING.(readOnly := Some(value)))
  {
    ReadOnlySetsNothingElse(d, value);
    ReadOnlyIsRead(d, value);
  }

  /** A level's words are found in another level's statement only if the levels are the same. */
  lemma LevelsApart(d: Dialect, level: Isolation, sought: Isolation)
    requires Contains(Phrase(IsolationWords(d, level)), Phrase(IsolationWords(d, sought)))
    ensures sought == level
  {
    FixedTextsArePlain(d, true, level);
    FixedTextsArePlain(d, true, sought);
    var ws, vs := IsolationWords(d, level), IsolationWords(d, sought);
    ContainsWords(ws, vs);
    var j :| 1 <= j <= |ws| && StartsWith(ws[j..], vs[1..]);
    SameLevel(d, level, sought, j);
  }

  lemma SameLevel(d: Dialect, level: Isolation, sought: Isolation, j: nat)
    requires 1 <= j <= |IsolationWords(d, level)|
    requires StartsWith(IsolationWords(d, level)[j..], IsolationWords(d, sought)[1..])
    ensures sought == level
  {
    var ws, vs := IsolationWords(d, level), IsolationWords(d, sought);
    assert |ws| <= |vs| + 1 && j <= 2;
    assert vs[1..][0] == "session" && ws[j..][0] == ws[j];
    assert ws[2] != "session" by { assert |"characteristics"| != |"session"| && |"transaction"| != |"session"|; }
    assert j == 1;
    var n := |SessionWords(d)| + 2;
    assert forall k :: 0 <= k < |vs| - 2 ==> ws[k + 1] == ws[1..][k] == vs[1..][k] == vs[k + 1];
    assert ws[n] == LowerLevelWords(level)[0] && vs[n] == LowerLevelWords(sought)[0];
    assert HasPrefix(ws[|vs| - 1], vs[|vs| - 1]);
    if level != sought {
      LevelsDiffer(level, sought);
      assert false;
    }
  }

  lemma LevelsDiffer(level: Isolation, sought: Isolation)
    requires level != sought && |LowerLevelWords(sought)| <= |LowerLevelWords(level)|
    ensures var last := |LowerLevelWords(sought)| - 1;
            !HasPrefix(LowerLevelWords(level)[last], LowerLevelWords(sought)[last])
            || (last == 1 && LowerLevelWords(level)[0] != LowerLevelWords(sought)[0])
  {
    assert "read"[0] == 'r' && "repeatable"[0] == 'r' && |"read"| != |"repeatable"|;
    assert "uncommitted"[0] == 'u' && "committed"[0] == 'c' && "serializable"[0] == 's';
    assert forall a: string, b: string :: HasPrefix(a, b) && b != "" ==> a[..|b|][0] == a[0] == b[0];
  }

  lemma IsolationSetsNothingElse(d: Dialect, level: Isolation)
    ensures var q := IsolationQuery(d, level).value;
            && DetectAutoCommit(d, q) == None && DetectCatalog(d, q) == None && DetectReadOnly(d, q) == None
            && DetectSchema(d, q) == NoSchema
  {
    var q, ws := IsolationQuery(d, level).value, IsolationWords(d, level);
    FixedTextsArePlain(d, true, level);
    LowerIsolationQuery(d, level);
    assert ws[0] == "set" && ws[1] == "session" && ws[|SessionWords(d)|] == "isolation";
    NoAutoCommit(d, q, ws);
    NoCatalog(d, q, ws);
    NoReadOnly(d, q, ws);
    NoPathInFixedTexts(d, true, level);
    NoSearchPath(d, q, ws);
  }

  lemma IsolationIsRead(d: Dialect, level: Isolation)
    ensures DetectIsolation(d, IsolationQuery(d, level).value) == Some(level)
  {
    var q := IsolationQuery(d, level).value;
    LowerIsolationQuery(d, level);
    SelfContained(Phrase(IsolationWords(d, level)));
    forall sought: Isolation ensures Mentions(d, q, sought) ==> sought == level {
      if Mentions(d, q, sought) { LevelsApart(d, level, sought); }
    }
  }

  lemma IsolationIsDetected(d: Dialect, level: Isolation)
    ensures Detect(d, IsolationQuery(d, level).value) == Some(NOTHING.(isolation := Some(level)))
  {
    IsolationSetsNothingElse(d, level);
    IsolationIsRead(d, level);
  }

  // ---------------------------------------------------------------------------------------------
  // Autocommit
  // ---------------------------------------------------------------------------------------------

  function AutoCommitWord(value: bool): string {
    "autocommit=" + if value then "true" else "false"
  }

  lemma AutoCommitText(value: bool)
    ensures AutoCommitQuery(MySQL, value) == Some(Phrase(["set", AutoCommitWord(value)]))
    ensures Reads(Phrase(["set", AutoCommitWord(value)]), ["set", AutoCommitWord(value)])
    ensures HasPrefix(AutoCommitWord(value), "autocommit")
  {
    var ws := ["set", AutoCommitWord(value)];
    assert ws[1..] == [AutoCommitWord(value)] && "set" + " " == "set ";
    assert IsPlain("set") && IsPlain("autocommit=") && IsPlain("true") && IsPlain("false");
    LowerIsLower("set");
    LowerIsLower("autocommit=");
    LowerIsLower("true");
    LowerIsLower("false");
    LowerConcat("autocommit=", if value then "true" else "false");
    LowerPhrase(ws, ws);
    assert "autocommit="[..10] == "autocommit";
  }

  lemma AutoCommitSections(text: string, shown: string)
    requires text == "set autocommit" + ['='] + shown && '=' !in shown
    ensures Split(text, '=') == ["set autocommit", shown]
  {
    assert '=' !in "set autocommit";
    IndexOfFirst("set autocommit", '=', shown);
    assert text[..14] == "set autocommit" && text[15..] == shown;
    SplitSingle(shown, '=');
  }

  lemma AutoCommitParts(value: bool)
    ensures Phrase(["set", AutoCommitWord(value)]) == "set autocommit" + ['='] + (if value then "true" else "false")
    ensures Phrase(["set", "autocommit"]) == "set autocommit"
  {
    assert ["set", AutoCommitWord(value)][1..] == [AutoCommitWord(value)] && ["set", "autocommit"][1..] == ["autocommit"];
    assert "set" + " " + "autocommit" == "set autocommit" && "autocommit=" == "autocommit" + ['='];
  }

  lemma ShownIsParsed(value: bool)
    ensures var shown := if value then "true" else "false";
            '=' !in shown && ParseBool(Trim(shown)) == Some(value)
  {
    var shown := if value then "true" else "false";
    assert '=' !in "true" && '=' !in "false";
    TrimPadded("", shown, "");
    assert "" + shown + "" == shown;
  }

  lemma AutoCommitIsRead(value: bool)
    ensures DetectAutoCommit(MySQL, Phrase(["set", AutoCommitWord(value)])) == Some(value)
  {
    var text := Phrase(["set", AutoCommitWord(value)]);
    AutoCommitText(value);
    AutoCommitParts(value);
    ShownIsParsed(value);
    assert HasPrefix(text, "set autocommit");
    AutoCommitSections(text, if value then "true" else "false");
  }

  lemma AutoCommitIsDetected(value: bool)
    ensures Detect(MySQL, AutoCommitQuery(MySQL, value).value) == Some(NOTHING.(autoCommit := Some(value)))
  {
    var ws := ["set", AutoCommitWord(value)];
    AutoCommitText(value);
    AutoCommitIsRead(value);
    NoReadOnly(MySQL, Phrase(ws), ws);
    NoCatalog(MySQL, Phrase(ws), ws);
    NoIsolation(MySQL, Phrase(ws), ws);
  }

  // ---------------------------------------------------------------------------------------------
  // Catalog
  // ---------------------------------------------------------------------------------------------

  lemma {:induction false} LeadingWordOfWord(w: string)
    requires forall i :: 0 <= i < |w| ==> IsWordChar(w[i])
    ensures LeadingWord(w) == w
  {
    if w != "" { LeadingWordOfWord(w[1..]); }
  }

  lemma CatalogText(value: string)
    requires IsWord(value)
    ensures CatalogQuery(MySQL, value) == Some(Phrase(["use", value])) && ArePlain(["use", value])
    ensures Reads(Phrase(["use", value]), ["use", ToLower(value)])
  {
    var ws, ls := ["use", value], ["use", ToLower(value)];
    assert ws[1..] == [value] && "use" + " " == "use ";
    assert IsPlain("use");
    LowerIsLower("use");
    LowerPhrase(ws, ls);
    assert IsPlain(value) && IsPlain(ToLower(value));
  }

  lemma CatalogSetsNothingElse(value: string)
    requires IsWord(value)
    ensures var q := Phrase(["use", value]);
            DetectAutoCommit(MySQL, q) == None && DetectReadOnly(MySQL, q) == None && DetectIsolation(MySQL, q) == None
  {
    var text, ls := Phrase(["use", value]), ["use", ToLower(value)];
    CatalogText(value);
    assert "use"[0] == 'u' && "set"[0] == 's';
    NoAutoCommit(MySQL, text, ls);
    NoReadOnly(MySQL, text, ls);
    NoIsolation(MySQL, text, ls);
  }

  lemma CatalogIsRead(value: string)
    requires IsWord(value)
    ensures DetectCatalog(MySQL, Phrase(["use", value])) == Some(value)
  {
    var text := Phrase(["use", value]);
    assert ["use", value][1..] == [value];
    assert text == "use" + (" " + value) && text[..3] == "use" && text[3..] == " " + value;
    LowerIsLower("use");
    assert (" " + value)[1..] == value;
    assert SkipSpaces(text[3..]) == value;
    LeadingWordOfWord(value);
  }

  lemma CatalogIsDetected(value: string)
    requires IsWord(value)
    ensures Detect(MySQL, CatalogQuery(MySQL, value).value) == Some(NOTHING.(catalog := Some(value)))
  {
    CatalogText(value);
    CatalogSetsNothingElse(value);
    CatalogIsRead(value);
  }

  lemma {:induction false} DetectedCatalogIsWord(d: Dialect, statements: seq<string>)
    ensures var found := LastDetected(d, statements);
            found.Some? && found.value.catalog.Some? ==> IsWord(found.value.catalog.value)
  {
    if statements != [] { DetectedCatalogIsWord(d, statements[..|statements| - 1]); }
  }

  /** A catalog read back from its own query is the same exactly when its name is a non-empty `\w+` word. */
  lemma CatalogSurvivesExactly(value: string)
    ensures Track(MySQL, NOTHING, CatalogQuery(MySQL, value).value) == Some(NOTHING.(catalog := Some(value)))
            <==> IsWord(value)
  {
    var q := CatalogQuery(MySQL, value).value;
    DetectedCatalogIsWord(MySQL, Separate(q));
    if IsWord(value) {
      CatalogText(value);
      SeparateBarePhrase(["use", value]);
      CatalogIsDetected(value);
      TrackSingle(MySQL, NOTHING, q, q, NOTHING.(catalog := Some(value)));
    }
  }
}
