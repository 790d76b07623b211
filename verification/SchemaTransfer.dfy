/** Which PostgreSQL schemas survive being printed by `GetSetSchemaQuery` and read back by `UpdateState`. */
module SchemaTransfer {
  import opened Strings
  import opened SqlText
  import opened Dialects
  import opened SessionTransfer

  /** Blanks are single spaces. */
  predicate SingleSpaced(s: string) {
    forall i :: 0 <= i < |s| && IsReSpace(s[i]) ==> s[i] == ' ' && (i + 1 < |s| ==> !IsReSpace(s[i + 1]))
  }

  /** An opening mark and, somewhere behind it, a closing one. */
  predicate HasComment(s: string) {
    (HasPrefix(s, "/*") && Contains(s[2..], "*/")) || (s != "" && HasComment(s[1..]))
  }

  predicate MentionsIsolation(s: string) {
    exists level: Isolation :: Mentions(Postgres, s, level)
  }

  /** The schemas that come back: not empty, without semicolon, comment or isolation statement, with single spaces only;
      and, when they are not printed between quotes, not blank at either end and not already between quotes. */
  predicate Survives(schema: string) {
    && schema != "" && WithoutSemicolon(schema) && SingleSpaced(schema) && !HasComment(schema)
    && (IsQuoted(schema)
        || (!IsSpace(schema[0]) && !IsSpace(schema[|schema| - 1])
            && !(schema[0] == '"' && schema[|schema| - 1] == '"')))
    && !MentionsIsolation(schema)
  }

  // ---------------------------------------------------------------------------------------------
  // When the clean-up changes nothing
  // ---------------------------------------------------------------------------------------------

  predicate NoOtherBlank(s: string) {
    forall c :: c in s && IsReSpace(c) ==> c == ' '
  }

  lemma {:induction false} CollapseFixes(s: string)
    ensures SingleSpaced(s) ==> Collapse(s) == s
    ensures NoOtherBlank(s) && |Collapse(s)| == |s| ==> SingleSpaced(s)
    decreases |s|
  {
    if s == "" {
    } else {
      assert s == [s[0]] + s[1..];
      assert NoOtherBlank(s) ==> NoOtherBlank(s[1..]);
      assert SingleSpaced(s) ==> SingleSpaced(s[1..]);
      CollapseFixes(s[1..]);
      if IsReSpace(s[0]) {
        assert SkipSpaces(s) == SkipSpaces(s[1..]);
        if |s| > 1 && IsReSpace(s[1]) {
          assert |SkipSpaces(s)| < |s[1..]|;
        } else {
          assert SkipSpaces(s) == s[1..];
        }
      }
      assert SingleSpaced(s[1..]) && (IsReSpace(s[0]) ==> s[0] == ' ' && (|s| > 1 ==> !IsReSpace(s[1])))
             ==> SingleSpaced(s) by {
        assert forall i :: 1 <= i < |s| ==> s[i] == s[1..][i - 1];
      }
    }
  }

  lemma {:induction false} CloseIsSought(s: string)
    ensures AfterClose(s).Some? <==> Contains(s, "*/")
  {
    if |s| >= 2 && s[0] == '*' && s[1] == '/' {
      assert s[..2] == "*/";
    } else if |s| >= 2 {
      assert s[..2] == [s[0], s[1]];
      CloseIsSought(s[1..]);
    } else if s != "" {
      assert s[1..] == "";
    }
  }

  lemma OpenIsSought(s: string)
    ensures HasPrefix(s, "/*") <==> |s| >= 2 && s[0] == '/' && s[1] == '*'
  {
    if |s| >= 2 {
      assert s[..2] == [s[0], s[1]];
    }
  }

  lemma {:induction false} CommentBehindSpaces(s: string)
    ensures HasComment(s) <==> HasComment(SkipSpaces(s))
  {
    OpenIsSought(s);
    if s != "" && IsReSpace(s[0]) { CommentBehindSpaces(s[1..]); }
  }

  lemma {:induction false} StripFixes(s: string)
    ensures !HasComment(s) ==> StripComments(s) == s
    ensures HasComment(s) ==> |StripComments(s)| < |s|
    decreases |s|
  {
    var t := SkipSpaces(s);
    CommentBehindSpaces(s);
    OpenIsSought(t);
    OpenIsSought(s);
    if |t| >= 2 { CloseIsSought(t[2..]); }
    if AfterComment(s) == None && s != "" {
      StripFixes(s[1..]);
    }
  }

  lemma {:induction false} TrimRightFixes(s: string)
    ensures |TrimRight(s)| == |s| ==> TrimRight(s) == s
    ensures s != "" && !IsSpace(s[|s| - 1]) ==> TrimRight(s) == s
  {
  }

  /** The clean-up of a text loses nothing exactly when it changes nothing. */
  lemma CleanedFixes(rest: string)
    requires rest != ""
    ensures SingleSpaced(rest) && !HasComment(rest) && !IsSpace(rest[|rest| - 1]) ==> Cleaned(rest) == rest
    ensures NoOtherBlank(rest) && |Cleaned(rest)| == |rest| ==>
              && SingleSpaced(rest) && !HasComment(rest) && !IsSpace(rest[|rest| - 1]) && Cleaned(rest) == rest
  {
    CollapseFixes(rest);
    StripFixes(rest);
    TrimRightFixes(rest);
    if NoOtherBlank(rest) && |Cleaned(rest)| == |rest| {
      assert |Collapse(rest)| == |rest|;
      assert |TrimRight(rest)| == |rest|;
      TrimRightEnds(rest);
    }
  }

  lemma TrimRightEnds(s: string)
    requires s != "" && TrimRight(s) == s
    ensures !IsSpace(s[|s| - 1])
  {
  }

  // ---------------------------------------------------------------------------------------------
  // The statement that is left
  // ---------------------------------------------------------------------------------------------

  lemma CleanedStart(rest: string)
    requires rest != "" && rest[0] == ' '
    ensures Cleaned(rest) == "" || (|Cleaned(rest)| >= 2 && Cleaned(rest)[0] == ' ')
  {
    var collapsed := Collapse(rest);
    assert collapsed[0] == ' ';
    TrimRightStart(collapsed);
    var stripped := StripComments(TrimRight(collapsed));
    if TrimRight(collapsed) != "" {
      assert stripped[0] == ' ';
    }
    TrimRightStart(stripped);
  }

  lemma {:induction false} TrimRightStart(s: string)
    ensures TrimRight(s) != "" ==> TrimRight(s)[0] == s[0]
  {
    if s != "" && IsSpace(s[|s| - 1]) { TrimRightStart(s[..|s| - 1]); }
  }

  lemma {:induction false} TooShort(s: string, p: string)
    requires |s| < |p|
    ensures !Contains(s, p)
  {
    if s != "" { TooShort(s[1..], p); }
  }

  function Path(): string {
    Phrase(SEARCH_PATH_TO)
  }

  lemma PathLiteral()
    ensures Path() == "set search_path to" && Phrase(["set", "search_path"]) == "set search_path"
    ensures Path() == Phrase(["set", "search_path"]) + " to" && Path() == "set" + (" " + ("search_path" + " to"))
  {
    assert SEARCH_PATH_TO[1..] == ["search_path", "to"] && ["search_path", "to"][1..] == ["to"];
    assert ["set", "search_path"][1..] == ["search_path"];
    assert " " + "to" == " to" && "set" + " " + "search_path" == "set search_path";
    assert "set search_path" + " to" == "set search_path to";
  }

  lemma PathLower()
    ensures ToLower(Path()) == Path() && ToLower(" to") == " to"
  {
    LowerIsLower("set");
    LowerIsLower("search_path");
    LowerIsLower("to");
    LowerIsLower(" to");
    LowerPhrase(SEARCH_PATH_TO, SEARCH_PATH_TO);
  }

  lemma PathText()
    ensures |Path()| == 18 && |Phrase(["set", "search_path"])| == 15
    ensures Path() == Phrase(["set", "search_path"]) + " to" && Path() == "set" + (" " + ("search_path" + " to"))
    ensures Path() == "set search_path to" && ToLower(Path()) == Path() && ToLower(" to") == " to"
  {
    PathLiteral();
    PathLower();
  }

  lemma PathHead(u: string)
    ensures HasPrefix(ToLower(Path() + u), Phrase(["set", "search_path"])) && (Path() + u)[15..] == " to" + u
  {
    PathText();
    LowerConcat(Path(), u);
    assert ToLower(Path() + u)[..15] == Phrase(["set", "search_path"]);
  }

  lemma PathTail(u: string)
    requires |u| >= 2 && u[0] == ' '
    ensures HasPrefix(ToLower(" to" + u), " to ") && |" to" + u| > 4 && (" to" + u)[4..] == u[1..]
  {
    PathText();
    LowerConcat(" to", u);
    assert ToLower(u)[0] == ' ';
    assert ToLower(" to" + u)[..4] == " to ";
  }

  /** With some text behind it, the text is what is matched. */
  lemma PathMatches(u: string)
    requires |u| >= 2 && u[0] == ' '
    ensures FindSearchPath(Path() + u) == Some(u[1..])
  {
    PathHead(u);
    PathTail(u);
    assert MatchSearchPath(Path() + u) == Some(u[1..]);
  }

  lemma NotHere(s: string, p: string)
    requires s != "" && p != "" && s[0] != p[0]
    ensures Contains(s, p) <==> Contains(s[1..], p)
  {
    if HasPrefix(s, p) {
      PrefixChars(s, p);
      assert false;
    }
  }

  lemma BarePathBehind(t: string)
    requires t == Path()[1..]
    ensures FindSearchPath(t) == None
  {
    PathText();
    var p, l := Phrase(["set", "search_path"]), ToLower(t);
    assert p[0] == 's' && Path() == "set search_path to" && t[0] == 'e' && t[1] == 't' && t[2] == ' ';
    NotHere(l, p);
    NotHere(l[1..], p);
    NotHere(l[2..], p);
    assert l[1..][1..] == l[2..] && l[2..][1..] == l[3..];
    TooShort(l[3..], p);
    if FindSearchPath(t).Some? {
      SearchPathIsSought(t);
      assert false;
    }
  }

  lemma BarePathDoesNotMatch()
    ensures FindSearchPath(Path()) == None
  {
    PathText();
    assert Path()[15..] == " to";
    assert " to"[1..] == "to";
    BarePathBehind(Path()[1..]);
  }

  /** What the detectors find in the statement that is left. */
  function FoundName(u: string): SchemaFound {
    if u == "" then NoSchema
    else
      var name := Trim(u[1..]);
      if name == "" then Panic
      else if name[0] == '"' && name[|name| - 1] == '"' then
        if |name| == 1 then Panic else Schema(name[1..|name| - 1])
      else Schema(name)
  }

  lemma PathReadOnly(u: string)
    requires u == "" || u[0] == ' '
    ensures DetectReadOnly(Postgres, Path() + u) == None && DetectCatalog(Postgres, Path() + u) == None
    ensures DetectAutoCommit(Postgres, Path() + u) == None
  {
    PathReadWords(u, true);
    PathReadWords(u, false);
  }

  lemma PathReadWords(u: string, value: bool)
    ensures !HasPrefix(ToLower(Path() + u), Phrase(ReadWords(Postgres, value)))
  {
    PathText();
    LowerConcat(Path(), u);
    PathIsPlain();
    SessionIsPlain(Postgres);
    var words := ReadWords(Postgres, value);
    var tail := " to" + ToLower(u);
    assert ToLower(Path() + u) == "set" + " " + ("search_path" + " " + ("to" + ToLower(u))) by {
      assert " " + "to" == " to";
    }
    assert words[0] == "set" && words[1..][0] == "session" && |words[1..]| > 1;
    PlainHasNoSpace("set");
    PlainHasNoSpace("search_path");
    PlainHasNoSpace("session");
    assert |"session"| != |"search_path"|;
    if HasPrefix(ToLower(Path() + u), Phrase(words)) {
      FirstWord("set", "search_path" + " " + ("to" + ToLower(u)), "set", Phrase(words[1..]));
      FirstWord("search_path", "to" + ToLower(u), "session", Phrase(words[1..][1..]));
      assert false;
    }
  }

  lemma PathDetects(u: string)
    requires u == "" || (|u| >= 2 && u[0] == ' ')
    ensures DetectSchema(Postgres, Path() + u) == FoundName(u)
  {
    if u == "" {
      assert Path() + u == Path();
      BarePathDoesNotMatch();
    } else {
      PathMatches(u);
    }
  }

  // ---------------------------------------------------------------------------------------------
  // Isolation statements inside the name
  // ---------------------------------------------------------------------------------------------

  lemma IsolationText(level: Isolation)
    ensures var vs := IsolationWords(Postgres, level);
            ArePlain(vs) && |vs| >= 3 && vs[0] == "set" && vs[1] == "session"
            && Phrase(vs) != "" && Phrase(vs)[0] == 's' && '"' !in Phrase(vs)
            && Phrase(vs[1..]) != "" && Phrase(vs[1..])[0] == 's' && ArePlain(vs[1..]) && vs[1..][0] == "session"
  {
    var vs := IsolationWords(Postgres, level);
    FixedTextsArePlain(Postgres, true, level);
    PhraseChars(vs);
    assert "set"[0] == 's' && "session"[0] == 's';
    assert Phrase(vs)[0] == vs[0][0] && Phrase(vs[1..])[0] == vs[1..][0][0];
  }

  /** The fixed part of the statement is no part of an isolation statement. */
  lemma MentionedBehindPath(u: string, level: Isolation)
    ensures Mentions(Postgres, Path() + u, level) <==> Mentions(Postgres, u, level)
  {
    var vs := IsolationWords(Postgres, level);
    var p, lu := Phrase(vs), ToLower(u);
    IsolationText(level);
    PathText();
    PathIsPlain();
    LowerConcat(Path(), u);
    assert ToLower(Path() + u) == Path() + lu;
    if Contains(lu, p) {
      ContainsBehind(Path(), lu, p);
    }
    if Contains(Path() + lu, p) {
      var behind := "to" + lu;
      assert Path() + lu == "set" + " " + ("search_path" + " " + behind) by {
        assert " " + "to" == " to";
      }
      NotAcrossSet(behind, p, vs);
      FoundInWord("search_path", behind, p, vs);
      var tail := Phrase(vs[1..]);
      assert behind[0] == 't' && behind[1..] == "o" + lu && ("o" + lu)[1..] == lu;
      NotHere(behind, p);
      NotHere("o" + lu, p);
      if HasPrefix(behind, tail) {
        PrefixChars(behind, tail);
        assert false;
      }
    }
  }

  lemma NotAcrossSet(behind: string, p: string, vs: seq<string>)
    requires ArePlain(vs) && |vs| >= 3 && p == Phrase(vs) && vs[1] == "session"
    requires Contains("set" + " " + ("search_path" + " " + behind), p)
    ensures Contains("search_path" + " " + behind, p)
  {
    PathIsPlain();
    var rest := "search_path" + " " + behind;
    assert IsPlain("set") && IsPlain("search_path") && IsPlain(vs[1]);
    PlainHasNoSpace("search_path");
    PlainHasNoSpace(vs[1]);
    assert |"search_path"| != |"session"| && vs[1..][0] == vs[1];
    FoundInWord("set", rest, p, vs);
    if HasPrefix(rest, Phrase(vs[1..])) {
      FirstWord("search_path", behind, vs[1], Phrase(vs[1..][1..]));
      assert false;
    }
  }

  lemma {:induction false} ContainsSnoc(s: string, c: char, p: string)
    requires p != "" && c !in p
    ensures Contains(s + [c], p) <==> Contains(s, p)
  {
    assert p[|p| - 1] in p;
    if HasPrefix(s + [c], p) {
      PrefixChars(s + [c], p);
      assert |p| <= |s|;
      assert (s + [c])[..|p|] == s[..|p|];
    }
    if HasPrefix(s, p) {
      assert (s + [c])[..|p|] == s[..|p|];
    }
    if s == "" {
      TooShort("", p);
      assert (s + [c])[1..] == "";
    } else {
      assert (s + [c])[1..] == s[1..] + [c];
      ContainsSnoc(s[1..], c, p);
    }
  }

  lemma FoundInQuotes(name: string, p: string)
    requires p != "" && p[0] == 's' && '"' !in p
    ensures Contains("\"" + (name + "\""), p) <==> Contains(name, p)
  {
    var quoted := "\"" + (name + "\"");
    assert quoted[1..] == name + ['"'];
    NotHere(quoted, p);
    ContainsSnoc(name, '"', p);
  }

  lemma FoundBehindBlank(text: string, p: string)
    requires p != "" && p[0] == 's'
    ensures Contains(" " + text, p) <==> Contains(text, p)
  {
    assert (" " + text)[1..] == text;
    NotHere(" " + text, p);
  }

  lemma LowerName(schema: string)
    ensures ToLower(" " + SchemaText(schema)) == " " + ToLower(SchemaText(schema))
    ensures IsQuoted(schema) ==> ToLower(SchemaText(schema)) == "\"" + (ToLower(schema) + "\"")
  {
  }

  /** Neither the blank before the name nor quotes around it make a difference. */
  lemma MentionedInName(schema: string, level: Isolation)
    ensures Mentions(Postgres, " " + SchemaText(schema), level) <==> Mentions(Postgres, schema, level)
  {
    var p := Phrase(IsolationWords(Postgres, level));
    IsolationText(level);
    LowerName(schema);
    FoundBehindBlank(ToLower(SchemaText(schema)), p);
    if IsQuoted(schema) { FoundInQuotes(ToLower(schema), p); }
  }

  // ---------------------------------------------------------------------------------------------
  // Names between quotes
  // ---------------------------------------------------------------------------------------------

  lemma {:induction false} SkipSnoc(s: string)
    ensures SkipSpaces(s + "\"") == SkipSpaces(s) + "\""
  {
    if s == "" {
      assert s + "\"" == "\"";
    } else {
      assert (s + "\"")[1..] == s[1..] + "\"";
      if IsReSpace(s[0]) { SkipSnoc(s[1..]); }
    }
  }

  lemma {:induction false} CollapseSnoc(s: string)
    ensures Collapse(s + "\"") == Collapse(s) + "\""
    decreases |s|
  {
    if s == "" {
      assert s + "\"" == "\"" && "\""[1..] == "";
    } else if IsReSpace(s[0]) {
      SkipSnoc(s);
      CollapseSnoc(SkipSpaces(s));
    } else {
      assert (s + "\"")[1..] == s[1..] + "\"";
      CollapseSnoc(s[1..]);
    }
  }

  lemma {:induction false} CloseSnoc(s: string)
    ensures AfterClose(s + "\"") == if AfterClose(s).Some? then Some(AfterClose(s).value + "\"") else None
  {
    if |s| >= 2 && s[0] == '*' && s[1] == '/' {
      assert (s + "\"")[2..] == s[2..] + "\"";
    } else if s != "" {
      assert (s + "\"")[1..] == s[1..] + "\"";
      CloseSnoc(s[1..]);
    }
  }

  lemma CommentSnoc(s: string)
    ensures AfterComment(s + "\"") == if AfterComment(s).Some? then Some(AfterComment(s).value + "\"") else None
  {
    var t := SkipSpaces(s);
    SkipSnoc(s);
    if |t| >= 2 {
      assert (t + "\"")[2..] == t[2..] + "\"";
      CloseSnoc(t[2..]);
      if AfterClose(t[2..]).Some? { SkipSnoc(AfterClose(t[2..]).value); }
    }
  }

  lemma {:induction false} StripSnoc(s: string)
    ensures StripComments(s + "\"") == StripComments(s) + "\""
    decreases |s|
  {
    CommentSnoc(s);
    if AfterComment(s).Some? {
      StripSnoc(AfterComment(s).value);
    } else if s == "" {
      assert s + "\"" == "\"" && "\""[1..] == "";
    } else {
      assert (s + "\"")[1..] == s[1..] + "\"";
      StripSnoc(s[1..]);
    }
  }

  lemma QuotedCollapsed(name: string)
    ensures Collapse(" " + ("\"" + (name + "\""))) == " " + ("\"" + (Collapse(name) + "\""))
  {
    var inner := "\"" + (name + "\"");
    CollapseSpace(inner);
    assert inner[1..] == name + "\"";
    CollapseSnoc(name);
  }

  lemma QuotedStripped(name: string)
    ensures StripComments(" " + ("\"" + (name + "\""))) == " " + ("\"" + (StripComments(name) + "\""))
  {
    StripSpace("\"" + (name + "\""));
    StripWord("\"", name + "\"");
    StripSnoc(name);
  }

  /** Between quotes, only blanks and comments inside the name matter. */
  lemma QuotedCleaned(name: string)
    ensures Cleaned(" " + ("\"" + (name + "\""))) == " " + ("\"" + (StripComments(Collapse(name)) + "\""))
  {
    QuotedCollapsed(name);
    TrimRightFixes(" " + ("\"" + (Collapse(name) + "\"")));
    QuotedStripped(Collapse(name));
    TrimRightFixes(" " + ("\"" + (StripComments(Collapse(name)) + "\"")));
  }

  lemma QuotedName(w: string)
    ensures FoundName(" " + ("\"" + (w + "\""))) == Schema(w)
  {
    var quoted := "\"" + (w + "\"");
    assert (" " + quoted)[1..] == quoted;
    TrimRightFixes(quoted);
    assert Trim(quoted) == quoted;
    assert quoted[1..|quoted| - 1] == w;
  }

  lemma QuotedSurvives(schema: string)
    requires IsQuoted(schema)
    ensures FoundName(Cleaned(" " + SchemaText(schema))) == Schema(schema)
            <==> SingleSpaced(schema) && !HasComment(schema)
  {
    assert SchemaText(schema) == "\"" + (schema + "\"");
    QuotedCleaned(schema);
    QuotedName(StripComments(Collapse(schema)));
    CollapseFixes(schema);
    StripFixes(Collapse(schema));
    StripFixes(schema);
    CollapseChars(schema);
    StripChars(Collapse(schema));
    if StripComments(Collapse(schema)) == schema {
      assert NoOtherBlank(schema);
    }
  }

  lemma {:induction false} CloseChars(s: string)
    ensures AfterClose(s).Some? ==> forall c :: c in AfterClose(s).value ==> c in s
  {
    if |s| >= 2 && !(s[0] == '*' && s[1] == '/') { CloseChars(s[1..]); }
  }

  lemma {:induction false} StripChars(s: string)
    ensures forall c :: c in StripComments(s) ==> c == ' ' || c in s
    decreases |s|
  {
    match AfterComment(s)
    case Some(rest) =>
      var t := SkipSpaces(s);
      SkippedChars(s);
      CloseChars(t[2..]);
      SkippedChars(AfterClose(t[2..]).value);
      StripChars(rest);
    case None =>
      if s != "" { StripChars(s[1..]); }
  }

  // ---------------------------------------------------------------------------------------------
  // Names without quotes around them
  // ---------------------------------------------------------------------------------------------

  lemma CleanedChars(rest: string)
    ensures NoOtherBlank(Cleaned(rest))
  {
    CollapseChars(rest);
    TrimRightChars(Collapse(rest));
    StripChars(TrimRight(Collapse(rest)));
    TrimRightChars(StripComments(TrimRight(Collapse(rest))));
  }

  lemma {:induction false} TrimLeftChars(s: string)
    ensures forall c :: c in TrimLeft(s) ==> c in s
  {
    if s != "" && IsSpace(s[0]) { TrimLeftChars(s[1..]); }
  }

  lemma TrimChars(s: string)
    ensures forall c :: c in Trim(s) ==> c in s
  {
    TrimLeftChars(s);
    TrimRightChars(TrimLeft(s));
  }

  lemma TrimFixes(s: string)
    requires s != ""
    ensures |Trim(s)| == |s| <==> !IsSpace(s[0]) && !IsSpace(s[|s| - 1])
    ensures |Trim(s)| == |s| ==> Trim(s) == s
  {
    TrimRightFixes(s);
    if |Trim(s)| == |s| {
      TrimLeftSame(s);
      TrimRightEnds(s);
    }
  }

  predicate IsWrapped(s: string) {
    s != "" && s[0] == '"' && s[|s| - 1] == '"'
  }

  lemma SpaceBefore(name: string)
    ensures name != "" && SingleSpaced(" " + name) <==> name != "" && SingleSpaced(name) && !IsReSpace(name[0])
    ensures HasComment(" " + name) <==> HasComment(name)
  {
    var s := " " + name;
    assert s[1..] == name;
    OpenIsSought(s);
    assert forall i :: 0 <= i < |name| ==> s[i + 1] == name[i];
    if name != "" && SingleSpaced(s) {
      assert IsReSpace(s[0]) && !IsReSpace(s[1]);
      forall i | 0 <= i < |name| && IsReSpace(name[i])
        ensures name[i] == ' ' && (i + 1 < |name| ==> !IsReSpace(name[i + 1]))
      {
        assert IsReSpace(s[i + 1]);
      }
    }
    if name != "" && SingleSpaced(name) && !IsReSpace(name[0]) {
      forall i | 0 <= i < |s| && IsReSpace(s[i]) ensures s[i] == ' ' && (i + 1 < |s| ==> !IsReSpace(s[i + 1])) {
        assert i > 0 ==> s[i] == name[i - 1];
      }
    }
  }

  /** A name printed as it is and found again has not been changed at all. */
  lemma UnquotedFound(name: string, u: string)
    requires u == Cleaned(" " + name) && FoundName(u) == Schema(name)
    ensures u == " " + name && SingleSpaced(u) && !HasComment(u) && name != "" && Trim(name) == name && !IsWrapped(name)
  {
    CleanedStart(" " + name);
    CleanedChars(" " + name);
    TrimChars(u[1..]);
    assert forall c :: c in u[1..] ==> c in u;
    assert |u| == |name| + 1;
    assert forall c :: c in name ==> c in u by {
      assert forall c :: c in name ==> c in Trim(u[1..]);
    }
    assert NoOtherBlank(" " + name);
    CleanedFixes(" " + name);
    assert u[1..] == name;
    TrimFixes(name);
  }

  lemma UnquotedSurvives(name: string)
    ensures FoundName(Cleaned(" " + name)) == Schema(name)
            <==> name != "" && SingleSpaced(name) && !HasComment(name)
                 && !IsSpace(name[0]) && !IsSpace(name[|name| - 1]) && !IsWrapped(name)
  {
    var u := Cleaned(" " + name);
    SpaceBefore(name);
    if FoundName(u) == Schema(name) {
      UnquotedFound(name, u);
      TrimFixes(name);
    }
    if name != "" && SingleSpaced(name) && !HasComment(name) && !IsSpace(name[0]) && !IsSpace(name[|name| - 1]) {
      CleanedFixes(" " + name);
      assert (" " + name)[1..] == name;
      TrimFixes(name);
    }
  }

  // ---------------------------------------------------------------------------------------------
  // Both together
  // ---------------------------------------------------------------------------------------------

  lemma FoundIsUnchanged(schema: string)
    requires FoundName(Cleaned(" " + SchemaText(schema))) == Schema(schema)
    ensures Cleaned(" " + SchemaText(schema)) == " " + SchemaText(schema)
  {
    if IsQuoted(schema) {
      assert SchemaText(schema) == "\"" + (schema + "\"");
      QuotedCleaned(schema);
      QuotedName(StripComments(Collapse(schema)));
    } else {
      UnquotedFound(schema, Cleaned(" " + schema));
    }
  }

  lemma MentionedInStatement(schema: string, statement: string, level: Isolation)
    requires statement == Path() + (" " + SchemaText(schema))
    ensures Mentions(Postgres, statement, level) <==> Mentions(Postgres, schema, level)
  {
    MentionedBehindPath(" " + SchemaText(schema), level);
    MentionedInName(schema, level);
  }

  ghost predicate MentionsAlike(a: string, b: string) {
    forall level: Isolation :: Mentions(Postgres, a, level) <==> Mentions(Postgres, b, level)
  }

  lemma MentionedAlike(schema: string, statement: string)
    requires statement == Path() + (" " + SchemaText(schema))
    ensures MentionsAlike(statement, schema)
  {
    forall level: Isolation ensures Mentions(Postgres, statement, level) <==> Mentions(Postgres, schema, level) {
      MentionedInStatement(schema, statement, level);
    }
  }

  lemma NoIsolationInName(schema: string, statement: string)
    requires MentionsAlike(statement, schema)
    ensures DetectIsolation(Postgres, statement) == None <==> !MentionsIsolation(schema)
  {
  }

  lemma SchemaDetected(schema: string)
    requires WithoutSemicolon(schema)
    ensures Detect(Postgres, Path() + Cleaned(" " + SchemaText(schema))) == Some(NOTHING.(schema := Some(schema)))
            <==> Survives(schema)
  {
    var u := Cleaned(" " + SchemaText(schema));
    CleanedStart(" " + SchemaText(schema));
    PathDetects(u);
    PathReadOnly(u);
    if IsQuoted(schema) { QuotedSurvives(schema); } else { UnquotedSurvives(schema); }
    if FoundName(u) == Schema(schema) {
      FoundIsUnchanged(schema);
      MentionedAlike(schema, Path() + (" " + SchemaText(schema)));
      NoIsolationInName(schema, Path() + (" " + SchemaText(schema)));
    }
  }

  lemma {:induction false} PartsHaveNoSeparator(s: string, sep: char)
    ensures forall p :: p in Split(s, sep) ==> sep !in p
    decreases |s|
  {
    var i := IndexOf(s, sep);
    BeforeFirst(s, sep);
    if i >= 0 { PartsHaveNoSeparator(s[i + 1..], sep); }
  }

  lemma {:induction false} BeforeFirst(s: string, c: char)
    ensures IndexOf(s, c) < 0 ==> c !in s
    ensures IndexOf(s, c) >= 0 ==> c !in s[..IndexOf(s, c)]
  {
    if s != "" && s[0] != c {
      BeforeFirst(s[1..], c);
      var i := IndexOf(s[1..], c);
      assert i >= 0 ==> s[..i + 1] == [s[0]] + s[1..][..i];
    }
  }

  lemma {:induction false} CleanAllWithoutSemicolon(parts: seq<string>)
    requires forall p :: p in parts ==> WithoutSemicolon(p)
    ensures forall p :: p in CleanAll(parts) ==> WithoutSemicolon(p)
  {
    if parts != [] {
      StripChars(parts[0]);
      TrimChars(StripComments(parts[0]));
      assert WithoutSemicolon(parts[0]) && WithoutSemicolon(Trim(StripComments(parts[0])));
      assert forall p :: p in parts[1..] ==> p in parts;
      CleanAllWithoutSemicolon(parts[1..]);
    }
  }

  lemma {:induction false} SearchPathChars(s: string)
    ensures FindSearchPath(s).Some? ==> forall c :: c in FindSearchPath(s).value ==> c in s
  {
    if MatchSearchPath(s).Some? {
      assert forall c :: c in s[15..] ==> c in s;
    } else if s != "" {
      SearchPathChars(s[1..]);
    }
  }

  lemma DetectedWithoutSemicolon(statement: string)
    requires WithoutSemicolon(statement)
    ensures DetectSchema(Postgres, statement).Schema? ==> WithoutSemicolon(DetectSchema(Postgres, statement).name)
  {
    SearchPathChars(statement);
    if FindSearchPath(statement).Some? { TrimChars(FindSearchPath(statement).value); }
  }

  lemma {:induction false} FoundWithoutSemicolon(statements: seq<string>)
    requires forall p :: p in statements ==> WithoutSemicolon(p)
    ensures var found := LastDetected(Postgres, statements);
            found.Some? && found.value.schema.Some? ==> WithoutSemicolon(found.value.schema.value)
  {
    if statements != [] {
      var last := statements[|statements| - 1];
      DetectedWithoutSemicolon(last);
      assert Detect(Postgres, last).Some? && Detect(Postgres, last).value.schema.Some? ==>
             DetectSchema(Postgres, last) == Schema(Detect(Postgres, last).value.schema.value);
      FoundWithoutSemicolon(statements[..|statements| - 1]);
    }
  }

  lemma SeparatedWithoutSemicolon(q: string)
    ensures forall p :: p in Separate(q) ==> WithoutSemicolon(p)
  {
    var text := Trim(Collapse(q));
    PartsHaveNoSeparator(text, ';');
    CleanAllWithoutSemicolon(Split(text, ';'));
  }

  lemma OverlayOnNothing(found: Values)
    ensures Overlay(NOTHING, found) == found
  {
  }

  lemma SchemaTracked(schema: string)
    requires WithoutSemicolon(schema)
    ensures Track(Postgres, NOTHING, SchemaQuery(Postgres, schema).value)
         == Detect(Postgres, Path() + Cleaned(" " + SchemaText(schema)))
  {
    PathIsPlain();
    SeparatePhrase(SEARCH_PATH_TO, " " + SchemaText(schema));
    LastDetectedSingle(Postgres, Path() + Cleaned(" " + SchemaText(schema)));
  }

  /** A schema read back from its own query is the same, and nothing else is set, exactly when it survives. */
  lemma SchemaSurvivesExactly(schema: string)
    ensures Track(Postgres, NOTHING, SchemaQuery(Postgres, schema).value) == Some(NOTHING.(schema := Some(schema)))
            <==> Survives(schema)
  {
    if WithoutSemicolon(schema) {
      SchemaTracked(schema);
      SchemaDetected(schema);
    } else {
      var q := SchemaQuery(Postgres, schema).value;
      SeparatedWithoutSemicolon(q);
      FoundWithoutSemicolon(Separate(q));
    }
  }
}
