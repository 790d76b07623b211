/** When tracking a statement panics: exactly when it sets the search path to a lone double quote. */
module SchemaPanics {
  import opened Strings
  import opened SqlText
  import opened Dialects
  import opened SchemaTransfer

  /** The statement sets the search path to nothing but a double quote. */
  predicate SetsLoneQuote(statement: string) {
    FindSearchPath(statement).Some? && Trim(FindSearchPath(statement).value) == "\""
  }

  /** The text of a search path goes on to the end of the statement. */
  lemma {:induction false} PathEndsStatement(s: string)
    ensures var found := FindSearchPath(s);
            found.Some? ==> s != "" && found.value != "" && found.value[|found.value| - 1] == s[|s| - 1]
  {
    if MatchSearchPath(s) == None && s != "" {
      PathEndsStatement(s[1..]);
      assert s[1..] != "" ==> s[1..][|s[1..]| - 1] == s[|s| - 1];
    }
  }

  lemma {:induction false} EndsTrimmed(s: string)
    requires s != "" && !IsSpace(s[|s| - 1])
    ensures TrimLeft(s) != "" && TrimLeft(s)[|TrimLeft(s)| - 1] == s[|s| - 1]
  {
    if IsSpace(s[0]) {
      assert s[1..][|s[1..]| - 1] == s[|s| - 1];
      EndsTrimmed(s[1..]);
    }
  }

  /** One statement makes the detectors panic exactly when it sets a lone quote. */
  lemma StatementPanicsExactly(statement: string)
    requires statement != "" && !IsSpace(statement[|statement| - 1])
    ensures Detect(Postgres, statement) == None <==> SetsLoneQuote(statement)
  {
    PathEndsStatement(statement);
    if FindSearchPath(statement).Some? {
      EndsTrimmed(FindSearchPath(statement).value);
    }
  }

  /** Statements come trimmed and are not empty. */
  lemma {:induction false} CleanAllTrimmed(parts: seq<string>)
    ensures forall p :: p in CleanAll(parts) ==> p != "" && !IsSpace(p[|p| - 1])
  {
    if parts != [] { CleanAllTrimmed(parts[1..]); }
  }

  /** The statement at `i` panics, and nothing behind it sets anything. */
  predicate PanicsAt(detect: string -> Option<Values>, statements: seq<string>, i: nat) {
    && i < |statements| && detect(statements[i]) == None
    && forall j :: i < j < |statements| ==> detect(statements[j]) == Some(NOTHING)
  }

  lemma {:induction false} LastPanicsExactly(detect: string -> Option<Values>, statements: seq<string>)
    ensures LastFound(detect, statements) == None <==> exists i :: PanicsAt(detect, statements, i)
  {
    if statements != [] {
      var n := |statements| - 1;
      var before := statements[..n];
      LastPanicsExactly(detect, before);
      assert detect(statements[n]) == None ==> PanicsAt(detect, statements, n);
      if detect(statements[n]) == Some(NOTHING) {
        assert forall i :: PanicsAt(detect, before, i) <==> PanicsAt(detect, statements, i);
      }
    }
  }

  /** The statement at `i` sets the search path to a lone quote, and no statement behind it sets anything. */
  predicate LoneQuoteAt(statements: seq<string>, i: nat) {
    && i < |statements| && SetsLoneQuote(statements[i])
    && forall j :: i < j < |statements| ==> Detect(Postgres, statements[j]) == Some(NOTHING)
  }

  /** For every query and whatever is tracked: `UpdateState` panics if and only if a statement sets the search path to a
      lone quote and no statement behind it sets anything. */
  lemma TrackingPanicsExactly(values: Values, query: string)
    ensures Track(Postgres, values, query) == None <==> exists i :: LoneQuoteAt(Separate(query), i)
  {
    var text, statements, detect := Trim(Collapse(query)), Separate(query), (s: string) => Detect(Postgres, s);
    if text != "" { CleanAllTrimmed(Split(text, ';')); }
    LastFoundIsDetected(Postgres, detect, statements);
    LastPanicsExactly(detect, statements);
    forall i: nat | i < |statements| ensures LoneQuoteAt(statements, i) <==> PanicsAt(detect, statements, i) {
      StatementPanicsExactly(statements[i]);
    }
  }

  /** What is left of a schema, blanks and comments aside. */
  function Remains(schema: string): string {
    Trim(Cleaned(" " + schema))
  }

  lemma FoundNamePanics(u: string)
    requires u == "" || (|u| >= 2 && u[0] == ' ' && !IsSpace(u[|u| - 1]))
    ensures FoundName(u) == Panic <==> Trim(u) == "\""
  {
    if u != "" {
      EndsTrimmed(u[1..]);
      assert TrimLeft(u) == TrimLeft(u[1..]);
    }
  }

  lemma NamePanicsExactly(schema: string)
    ensures FoundName(Cleaned(" " + SchemaText(schema))) == Panic <==> !IsQuoted(schema) && Remains(schema) == "\""
  {
    if IsQuoted(schema) {
      assert SchemaText(schema) == "\"" + (schema + "\"");
      QuotedCleaned(schema);
      QuotedName(StripComments(Collapse(schema)));
    } else {
      CleanedStart(" " + schema);
      FoundNamePanics(Cleaned(" " + schema));
    }
  }

  lemma DetectPanics(statement: string)
    ensures Detect(Postgres, statement) == None <==> DetectSchema(Postgres, statement) == Panic
  {
  }

  /** For every schema without semicolons: reading its own query back panics if and only if the schema is not printed
      between quotes and a lone quote is all that remains of it. */
  lemma SchemaPanicsExactly(schema: string)
    requires WithoutSemicolon(schema)
    ensures Track(Postgres, NOTHING, SchemaQuery(Postgres, schema).value) == None
            <==> !IsQuoted(schema) && Remains(schema) == "\""
  {
    var u := Cleaned(" " + SchemaText(schema));
    SchemaTracked(schema);
    DetectPanics(Path() + u);
    CleanedStart(" " + SchemaText(schema));
    PathDetects(u);
    NamePanicsExactly(schema);
  }

  predicate AllReSpace(s: string) {
    forall i :: 0 <= i < |s| ==> IsReSpace(s[i])
  }

  lemma {:induction false} SkipAll(blanks: string, rest: string)
    requires AllReSpace(blanks) && (rest == "" || !IsReSpace(rest[0]))
    ensures SkipSpaces(blanks + rest) == rest
  {
    if blanks != "" {
      assert (blanks + rest)[1..] == blanks[1..] + rest;
      SkipAll(blanks[1..], rest);
    } else {
      assert blanks + rest == rest;
    }
  }

  lemma PaddedQuoteRemains(before: string, after: string)
    requires AllReSpace(before) && AllReSpace(after)
    ensures Remains(before + "\"" + after) == "\""
  {
    var padded := " " + (before + "\"" + after);
    assert padded == (" " + before) + ("\"" + after);
    SkipAll(" " + before, "\"" + after);
    assert after + "" == after;
    SkipAll(after, "");
    assert ("\"" + after)[1..] == after;
    assert Collapse(after) == if after == "" then "" else " ";
    assert Collapse(padded) == " " + ("\"" + Collapse(after));
    assert TrimRight(Collapse(padded)) == " \"" by {
      TrimRightPadded(" \"", Collapse(after));
      assert " " + ("\"" + Collapse(after)) == " \"" + Collapse(after);
    }
    OpenIsSought("\"");
    assert "\""[1..] == "" && " \""[1..] == "\"";
    CleanedFixes(" \"");
    StripFixes(" \"");
    SpaceBefore("\"");
    assert " " + "\"" == " \"";
    TrimPadded(" ", "\"", "");
    assert " " + "\"" + "" == " \"";
  }

  /** So a lone quote, with any blanks around it, panics if and only if it is not printed between quotes, that is, unless
      there are blanks on both sides and a space among them. */
  lemma LoneQuotePanics(before: string, after: string)
    requires AllReSpace(before) && AllReSpace(after)
    ensures var schema := before + "\"" + after;
            Track(Postgres, NOTHING, SchemaQuery(Postgres, schema).value) == None <==> !IsQuoted(schema)
  {
    PaddedQuoteRemains(before, after);
    SchemaPanicsExactly(before + "\"" + after);
  }
}
