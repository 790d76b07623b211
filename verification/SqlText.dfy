/** SQL text as the driver looks at it: `GetSeparateSqlStatements` (`sql_method_utils.go`) and the string searches of
    the dialects. Letters are ASCII. */
module SqlText {
  import opened Strings

  /** What `\s` matches. */
  predicate IsReSpace(c: char) {
    c == ' ' || c == '\t' || c == '\n' || c == '\r' || c == '\U{000C}'
  }

  function SkipSpaces(s: string): (r: string)
    ensures |r| <= |s| && (r == "" || !IsReSpace(r[0]))
    ensures s == "" || !IsReSpace(s[0]) ==> r == s
    ensures s != "" && IsReSpace(s[0]) ==> |r| < |s|
  {
    if s != "" && IsReSpace(s[0]) then SkipSpaces(s[1..]) else s
  }

  /** Every run of blanks becomes one space. */
  function Collapse(s: string): (r: string)
    ensures |r| <= |s|
    decreases |s|
  {
    if s == "" then ""
    else if IsReSpace(s[0]) then " " + Collapse(SkipSpaces(s))
    else [s[0]] + Collapse(s[1..])
  }

  /** The text after the first close of a comment. */
  function AfterClose(s: string): (r: Option<string>)
    ensures r.Some? ==> |r.value| + 2 <= |s|
  {
    if |s| < 2 then None
    else if s[0] == '*' && s[1] == '/' then Some(s[2..])
    else AfterClose(s[1..])
  }

  /** The text after a comment, together with the blanks around it, that starts here. */
  function AfterComment(s: string): (r: Option<string>)
    ensures r.Some? ==> |r.value| + 4 <= |s|
  {
    var t := SkipSpaces(s);
    if |t| < 2 || t[0] != '/' || t[1] != '*' then None
    else
      match AfterClose(t[2..])
      case None => None
      case Some(rest) => Some(SkipSpaces(rest))
  }

  /** Every comment, together with the blanks around it, becomes one space. */
  function StripComments(s: string): (r: string)
    ensures |r| <= |s|
    decreases |s|
  {
    match AfterComment(s)
    case Some(rest) => " " + StripComments(rest)
    case None => if s == "" then "" else [s[0]] + StripComments(s[1..])
  }

  function CleanAll(statements: seq<string>): seq<string> {
    if statements == [] then []
    else
      var clean := Trim(StripComments(statements[0]));
      (if clean != "" then [clean] else []) + CleanAll(statements[1..])
  }

  /** `GetSeparateSqlStatements`. */
  function Separate(query: string): seq<string> {
    var text := Trim(Collapse(query));
    if text == "" then [] else CleanAll(Split(text, ';'))
  }

  lemma {:induction false} CleanAllAppend(statements: seq<string>, last: string)
    ensures var clean := Trim(StripComments(last));
            CleanAll(statements + [last]) == CleanAll(statements) + if clean != "" then [clean] else []
  {
    if statements == [] {
      assert (statements + [last])[1..] == [];
    } else {
      assert (statements + [last])[1..] == statements[1..] + [last];
      CleanAllAppend(statements[1..], last);
    }
  }

  method GetSeparateSqlStatements(query: string) returns (statements: seq<string>)
    ensures statements == Separate(query)
  {
    var text := Trim(Collapse(query));
    if text == "" { return []; }
    var parts := Split(text, ';');
    statements := [];
    for i := 0 to |parts|
      invariant statements == CleanAll(parts[..i])
    {
      CleanAllAppend(parts[..i], parts[i]);
      assert parts[..i + 1] == parts[..i] + [parts[i]];
      var stmt := Trim(StripComments(parts[i]));
      if stmt != "" { statements := statements + [stmt]; }
    }
    assert parts[..|parts|] == parts;
  }

  function LowerChar(c: char): (r: char)
    ensures r == '"' <==> c == '"'
    ensures r == ' ' <==> c == ' '
  {
    if 'A' <= c <= 'Z' then (c as int + 32) as char else c
  }

  /** `strings.ToLower`. */
  function ToLower(s: string): (r: string)
    ensures |r| == |s| && forall i :: 0 <= i < |s| ==> r[i] == LowerChar(s[i])
  {
    seq(|s|, i requires 0 <= i < |s| => LowerChar(s[i]))
  }

  // ---------------------------------------------------------------------------------------------
  // Phrases: words with one space between them
  // ---------------------------------------------------------------------------------------------

  /** A word the statement machinery leaves alone. */
  predicate IsPlain(w: string) {
    w != "" && forall i :: 0 <= i < |w| ==> !IsSpace(w[i]) && w[i] != '/' && w[i] != ';' && w[i] != '"'
  }

  predicate ArePlain(ws: seq<string>) {
    ws != [] && forall i :: 0 <= i < |ws| ==> IsPlain(ws[i])
  }

  function Phrase(ws: seq<string>): (r: string)
    ensures ArePlain(ws) ==> r != "" && !IsSpace(r[0]) && r[0] != '/'
  {
    if ws == [] then "" else if |ws| == 1 then ws[0] else ws[0] + " " + Phrase(ws[1..])
  }

  lemma {:induction false} PhraseChars(ws: seq<string>)
    requires ArePlain(ws)
    ensures forall c :: c in Phrase(ws) ==> c != ';' && c != '"' && c != '/' && (IsSpace(c) ==> c == ' ')
    ensures !IsSpace(Phrase(ws)[|Phrase(ws)| - 1])
  {
    forall c | c in ws[0] ensures c != ';' && c != '"' && c != '/' && !IsSpace(c) {
      var i :| 0 <= i < |ws[0]| && ws[0][i] == c;
    }
    if |ws| > 1 {
      PhraseChars(ws[1..]);
    }
  }

  lemma PhraseUnfold(ws: seq<string>, rest: string)
    requires |ws| > 1
    ensures Phrase(ws) + rest == ws[0] + (" " + (Phrase(ws[1..]) + rest))
  {
  }

  // What the machinery does to a phrase followed by some text.

  lemma {:induction false} CollapseWord(w: string, rest: string)
    requires forall i :: 0 <= i < |w| ==> !IsSpace(w[i])
    ensures Collapse(w + rest) == w + Collapse(rest)
  {
    if w == "" {
      assert w + rest == rest;
    } else {
      assert (w + rest)[1..] == w[1..] + rest;
      CollapseWord(w[1..], rest);
    }
  }

  lemma CollapseSpace(rest: string)
    requires rest == "" || !IsReSpace(rest[0])
    ensures Collapse(" " + rest) == " " + Collapse(rest)
  {
    assert (" " + rest)[1..] == rest;
  }

  lemma CollapseFirstWord(w: string, tail: string)
    requires IsPlain(w) && tail != "" && !IsSpace(tail[0])
    ensures Collapse(w + (" " + tail)) == w + (" " + Collapse(tail))
  {
    CollapseWord(w, " " + tail);
    CollapseSpace(tail);
  }

  lemma {:induction false} CollapsePhrase(ws: seq<string>, rest: string)
    requires ArePlain(ws)
    ensures Collapse(Phrase(ws) + rest) == Phrase(ws) + Collapse(rest)
  {
    if |ws| == 1 {
      CollapseWord(ws[0], rest);
    } else {
      PhraseUnfold(ws, rest);
      CollapseFirstWord(ws[0], Phrase(ws[1..]) + rest);
      CollapsePhrase(ws[1..], rest);
      PhraseUnfold(ws, Collapse(rest));
    }
  }

  lemma {:induction false} StripWord(w: string, rest: string)
    requires forall i :: 0 <= i < |w| ==> !IsSpace(w[i]) && w[i] != '/'
    ensures StripComments(w + rest) == w + StripComments(rest)
  {
    if w == "" {
      assert w + rest == rest;
    } else {
      assert (w + rest)[1..] == w[1..] + rest;
      StripWord(w[1..], rest);
    }
  }

  lemma StripSpace(rest: string)
    requires rest != "" && !IsSpace(rest[0]) && rest[0] != '/'
    ensures StripComments(" " + rest) == " " + StripComments(rest)
  {
    assert (" " + rest)[1..] == rest;
  }

  lemma StripFirstWord(w: string, tail: string)
    requires IsPlain(w) && tail != "" && !IsSpace(tail[0]) && tail[0] != '/'
    ensures StripComments(w + (" " + tail)) == w + (" " + StripComments(tail))
  {
    StripWord(w, " " + tail);
    StripSpace(tail);
  }

  lemma {:induction false} StripPhrase(ws: seq<string>, rest: string)
    requires ArePlain(ws)
    ensures StripComments(Phrase(ws) + rest) == Phrase(ws) + StripComments(rest)
  {
    if |ws| == 1 {
      StripWord(ws[0], rest);
    } else {
      PhraseUnfold(ws, rest);
      StripFirstWord(ws[0], Phrase(ws[1..]) + rest);
      StripPhrase(ws[1..], rest);
      PhraseUnfold(ws, StripComments(rest));
    }
  }

  lemma {:induction false} TrimRightAppend(a: string, b: string)
    requires a != "" && !IsSpace(a[|a| - 1])
    ensures TrimRight(a + b) == a + TrimRight(b)
  {
    if b == "" {
      assert a + b == a;
    } else if IsSpace(b[|b| - 1]) {
      assert (a + b)[..|a + b| - 1] == a + b[..|b| - 1];
      TrimRightAppend(a, b[..|b| - 1]);
    }
  }

  lemma TrimPhrase(ws: seq<string>, rest: string)
    requires ArePlain(ws)
    ensures Trim(Phrase(ws) + rest) == Phrase(ws) + TrimRight(rest)
  {
    PhraseChars(ws);
    TrimRightAppend(Phrase(ws), rest);
  }

  lemma {:induction false} NotFound(s: string, c: char)
    requires c !in s
    ensures IndexOf(s, c) == -1
  {
    if s != "" {
      assert s[0] in s && forall d :: d in s[1..] ==> d in s;
      NotFound(s[1..], c);
    }
  }

  lemma SplitSingle(s: string, sep: char)
    requires sep !in s
    ensures Split(s, sep) == [s]
  {
    NotFound(s, sep);
  }

  /** What is left of the text after a phrase. */
  function Cleaned(rest: string): (r: string)
    ensures |r| <= |rest|
  {
    TrimRight(StripComments(TrimRight(Collapse(rest))))
  }

  predicate WithoutSemicolon(s: string) {
    ';' !in s
  }

  lemma {:induction false} CollapseChars(s: string)
    ensures forall c :: c in Collapse(s) ==> c == ' ' || (c in s && !IsReSpace(c))
    decreases |s|
  {
    if s == "" {
    } else if IsReSpace(s[0]) {
      SkippedChars(s);
      CollapseChars(SkipSpaces(s));
    } else {
      CollapseChars(s[1..]);
    }
  }

  lemma {:induction false} SkippedChars(s: string)
    ensures forall c :: c in SkipSpaces(s) ==> c in s
  {
    if s != "" && IsReSpace(s[0]) { SkippedChars(s[1..]); }
  }

  lemma {:induction false} TrimRightChars(s: string)
    ensures forall c :: c in TrimRight(s) ==> c in s
  {
    if s != "" && IsSpace(s[|s| - 1]) { TrimRightChars(s[..|s| - 1]); }
  }

  lemma CleanSingle(s: string)
    ensures CleanAll([s]) == if Trim(StripComments(s)) != "" then [Trim(StripComments(s))] else []
  {
    assert [s][1..] == [];
  }

  lemma CollapsedTail(ws: seq<string>, rest: string)
    requires ArePlain(ws) && WithoutSemicolon(rest)
    ensures Trim(Collapse(Phrase(ws) + rest)) == Phrase(ws) + TrimRight(Collapse(rest))
    ensures Phrase(ws) != "" && ';' !in Phrase(ws) + TrimRight(Collapse(rest))
  {
    PhraseChars(ws);
    CollapsePhrase(ws, rest);
    TrimPhrase(ws, Collapse(rest));
    CollapseChars(rest);
    TrimRightChars(Collapse(rest));
  }

  /** One statement, made of a phrase and some text, comes out as the phrase and what is left of the text. */
  lemma SeparatePhrase(ws: seq<string>, rest: string)
    requires ArePlain(ws) && WithoutSemicolon(rest)
    ensures Separate(Phrase(ws) + rest) == [Phrase(ws) + Cleaned(rest)]
  {
    CollapsedTail(ws, rest);
    var tail := TrimRight(Collapse(rest));
    SplitSingle(Phrase(ws) + tail, ';');
    CleanSingle(Phrase(ws) + tail);
    StripPhrase(ws, tail);
    TrimPhrase(ws, StripComments(tail));
  }

  lemma SeparateBarePhrase(ws: seq<string>)
    requires ArePlain(ws)
    ensures Separate(Phrase(ws)) == [Phrase(ws)]
  {
    assert Phrase(ws) + "" == Phrase(ws);
    SeparatePhrase(ws, "");
    assert Cleaned("") == "";
  }

  // ---------------------------------------------------------------------------------------------
  // Searching phrases
  // ---------------------------------------------------------------------------------------------

  /** Words are compared one by one; the last one sought may be cut short. */
  predicate StartsWith(ws: seq<string>, vs: seq<string>)
    requires vs != []
  {
    && |vs| <= |ws|
    && (forall k :: 0 <= k < |vs| - 1 ==> ws[k] == vs[k])
    && HasPrefix(ws[|vs| - 1], vs[|vs| - 1])
  }

  lemma FirstWord(w: string, s: string, v: string, p: string)
    requires ' ' !in w && ' ' !in v && HasPrefix(w + " " + s, v + " " + p)
    ensures w == v && HasPrefix(s, p)
  {
    var text, sought := w + " " + s, v + " " + p;
    assert forall i :: 0 <= i < |sought| ==> text[i] == sought[i] by {
      assert forall i :: 0 <= i < |sought| ==> text[..|sought|][i] == sought[i];
    }
    assert text[|w|] == ' ' && sought[|v|] == ' ';
    assert (forall i :: 0 <= i < |w| ==> w[i] in w) && forall i :: 0 <= i < |v| ==> v[i] in v;
    assert forall i :: 0 <= i < |w| ==> w[i] == text[i] == sought[i] == v[i];
    assert s[..|p|] == p by {
      assert forall i :: 0 <= i < |p| ==> s[i] == text[|w| + 1 + i] == sought[|w| + 1 + i] == p[i];
    }
  }

  lemma LastWord(w: string, s: string, v: string)
    requires ' ' !in v && HasPrefix(w + " " + s, v)
    ensures HasPrefix(w, v)
  {
    var text := w + " " + s;
    assert text[|w|] == ' ' && forall i :: 0 <= i < |v| ==> v[i] in v;
    assert forall i :: 0 <= i < |v| ==> text[i] == text[..|v|][i] == v[i];
  }

  lemma PlainHasNoSpace(w: string)
    requires IsPlain(w)
    ensures ' ' !in w && '"' !in w
  {
  }

  lemma {:induction false} PrefixWords(ws: seq<string>, vs: seq<string>)
    requires ArePlain(ws) && ArePlain(vs) && HasPrefix(Phrase(ws), Phrase(vs))
    ensures StartsWith(ws, vs)
  {
    PlainHasNoSpace(ws[0]);
    PlainHasNoSpace(vs[0]);
    if |vs| == 1 {
      if |ws| > 1 { LastWord(ws[0], Phrase(ws[1..]), vs[0]); }
    } else if |ws| == 1 {
      NoSpaceNoPhrase(ws[0], vs);
      assert false;
    } else {
      FirstWord(ws[0], Phrase(ws[1..]), vs[0], Phrase(vs[1..]));
      PrefixWords(ws[1..], vs[1..]);
      assert forall k :: 1 <= k < |vs| - 1 ==> ws[k] == ws[1..][k - 1] && vs[k] == vs[1..][k - 1];
    }
  }

  /** A search either ends in the second part or starts in the first. */
  lemma {:induction false} ContainsSplit(a: string, b: string, p: string)
    requires Contains(a + b, p)
    ensures Contains(b, p) || exists i :: 0 <= i < |a| && HasPrefix(a[i..] + b, p)
  {
    if a == "" {
      assert a + b == b;
    } else if HasPrefix(a + b, p) {
      assert a[0..] == a;
    } else {
      assert (a + b)[1..] == a[1..] + b;
      ContainsSplit(a[1..], b, p);
      if i :| 0 <= i < |a[1..]| && HasPrefix(a[1..][i..] + b, p) {
        assert a[1..][i..] == a[i + 1..];
      }
    }
  }

  lemma {:induction false} ContainsBehind(a: string, b: string, p: string)
    requires Contains(b, p)
    ensures Contains(a + b, p)
  {
    if a == "" {
      assert a + b == b;
    } else {
      assert (a + b)[1..] == a[1..] + b;
      ContainsBehind(a[1..], b, p);
    }
  }

  lemma {:induction false} ContainsBefore(a: string, b: string, p: string)
    requires Contains(a, p)
    ensures Contains(a + b, p)
  {
    if HasPrefix(a, p) {
      assert (a + b)[..|p|] == a[..|p|];
    } else {
      assert (a + b)[1..] == a[1..] + b;
      ContainsBefore(a[1..], b, p);
    }
  }

  /** A phrase of at least two words that is found starting inside a word ends that word with its first one. */
  lemma FoundInWord(w: string, rest: string, p: string, vs: seq<string>)
    requires IsPlain(w) && ArePlain(vs) && |vs| >= 2 && p == Phrase(vs)
    requires Contains(w + " " + rest, p)
    ensures Contains(rest, p) || (HasPrefix(rest, Phrase(vs[1..])) && |vs[0]| <= |w|)
  {
    PlainHasNoSpace(w);
    PlainHasNoSpace(vs[0]);
    assert w + " " + rest == (w + " ") + rest;
    ContainsSplit(w + " ", rest, p);
    if i :| 0 <= i < |w + " "| && HasPrefix((w + " ")[i..] + rest, p) {
      var v := w[i..];
      assert (w + " ")[i..] + rest == v + " " + rest;
      assert forall c :: c in v ==> c in w;
      FirstWord(v, rest, vs[0], Phrase(vs[1..]));
    }
  }

  lemma {:induction false} ContainsWords(ws: seq<string>, vs: seq<string>)
    requires ArePlain(ws) && ArePlain(vs) && |vs| >= 2 && Contains(Phrase(ws), Phrase(vs))
    ensures exists j :: 1 <= j <= |ws| && StartsWith(ws[j..], vs[1..])
  {
    if |ws| == 1 {
      PlainHasNoSpace(ws[0]);
      NoSpaceNoPhrase(ws[0], vs);
    } else {
      FoundInWord(ws[0], Phrase(ws[1..]), Phrase(vs), vs);
      if Contains(Phrase(ws[1..]), Phrase(vs)) {
        ContainsWords(ws[1..], vs);
        var j :| 1 <= j <= |ws[1..]| && StartsWith(ws[1..][j..], vs[1..]);
        assert ws[1..][j..] == ws[j + 1..];
      } else {
        PrefixWords(ws[1..], vs[1..]);
      }
    }
  }

  lemma PrefixChars(s: string, p: string)
    requires HasPrefix(s, p)
    ensures forall i :: 0 <= i < |p| ==> s[i] == p[i]
  {
    assert forall i :: 0 <= i < |p| ==> s[i] == s[..|p|][i];
  }

  lemma {:induction false} NoSpaceNoPhrase(w: string, vs: seq<string>)
    requires ' ' !in w && ArePlain(vs) && |vs| >= 2
    ensures !Contains(w, Phrase(vs))
  {
    var p := Phrase(vs);
    assert p[|vs[0]|] == ' ';
    assert forall i :: 0 <= i < |w| ==> w[i] in w;
    if HasPrefix(w, p) {
      PrefixChars(w, p);
      assert false;
    }
    if w != "" {
      assert forall c :: c in w[1..] ==> c in w;
      NoSpaceNoPhrase(w[1..], vs);
    }
  }

  lemma PrefixPhrase(ws: seq<string>, rest: string)
    ensures HasPrefix(Phrase(ws) + rest, Phrase(ws))
  {
  }

  lemma SelfContained(s: string)
    ensures Contains(s, s)
  {
    assert s[..|s|] == s;
  }

  lemma {:induction false} LowerPhrase(ws: seq<string>, ls: seq<string>)
    requires |ls| == |ws| && forall i :: 0 <= i < |ws| ==> ls[i] == ToLower(ws[i])
    ensures ToLower(Phrase(ws)) == Phrase(ls)
  {
    if |ws| > 1 {
      LowerPhrase(ws[1..], ls[1..]);
      LowerConcat(ws[0] + " ", Phrase(ws[1..]));
      LowerConcat(ws[0], " ");
      assert ToLower(" ") == " ";
    }
  }

  lemma LowerConcat(a: string, b: string)
    ensures ToLower(a + b) == ToLower(a) + ToLower(b)
  {
  }
}
