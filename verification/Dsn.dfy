/** The keyword/value connection-string parser (`parsePgxKeywordValueSettings`) and what it promises:
    settings written by the quoting rules of libpq are read back exactly. */
module Dsn {
  import opened Strings

  const PROTOCOL := "protocol"
  const POSTGRESQL := "postgresql"

  /** `SliceOutOfRange` stands for the run-time panic of `dsn[:end]` with `end == len(dsn) + 1`. */
  datatype ParseError = InvalidKeyValue | InvalidBackslash | UnterminatedQuotedString | SliceOutOfRange
  datatype Result<+T> = Ok(value: T) | Err(error: ParseError)

  /** The `nameMap` of the parser. */
  function Rename(key: string): string {
    if key == "dbname" then "database" else key
  }

  /** The two `ReplaceAll` passes applied to the raw text of a value. */
  function Decode(raw: string): string {
    ReplaceAll(ReplaceAll(raw, "\\\\", "\\"), "\\'", "'")
  }

  /** How many characters an unquoted value takes; `None` when it ends in an active backslash. */
  function BareLength(s: string): (r: Option<nat>)
    ensures r.Some? ==> r.value <= |s|
    ensures r.Some? ==> r.value == |s| || IsSpace(s[r.value])
  {
    if s == "" || IsSpace(s[0]) then Some(0)
    else if s[0] != '\\' then Add(1, BareLength(s[1..]))
    else if |s| == 1 then None
    else Add(2, BareLength(s[2..]))
  }

  function Add(n: nat, r: Option<nat>): Option<nat> {
    match r
    case None => None
    case Some(m) => Some(n + m)
  }

  /** How many characters precede the closing quote; `|s| + 1` when a final backslash skips past the end. */
  function QuotedLength(s: string): (n: nat)
    ensures n <= |s| + 1
    ensures n < |s| ==> s[n] == '\''
  {
    if s == "" || s[0] == '\'' then 0
    else if s[0] != '\\' then 1 + QuotedLength(s[1..])
    else if |s| == 1 then 2
    else 2 + QuotedLength(s[2..])
  }

  /** One value and what is left of the string, given the text after `=` with its leading blanks removed. */
  function ReadValue(s: string): (r: Result<(string, string)>)
    ensures r.Ok? ==> |r.value.1| <= |s|
  {
    if s == "" then Ok(("", ""))
    else if s[0] != '\'' then
      match BareLength(s)
      case None => Err(InvalidBackslash)
      case Some(end) =>
        Ok((Decode(s[..end]), if end == |s| then "" else TrimLeft(s[end + 1..])))
    else
      var q := s[1..];
      var end := QuotedLength(q);
      if end == |q| then Err(UnterminatedQuotedString)
      else if end > |q| then Err(SliceOutOfRange)
      else Ok((Decode(q[..end]), TrimLeft(q[end + 1..])))
  }

  /** The settings of `dsn`, added to those already in `acc`. */
  function ReadSettings(dsn: string, acc: map<string, string>): Result<map<string, string>>
    decreases |dsn|
  {
    if dsn == "" then Ok(acc)
    else
      var eq := IndexOf(dsn, '=');
      if eq < 0 then Err(InvalidKeyValue)
      else
        var key := Trim(dsn[..eq]);
        match ReadValue(TrimLeft(dsn[eq + 1..]))
        case Err(e) => Err(e)
        case Ok((val, rest)) =>
          if key == "" then Err(InvalidKeyValue)
          else ReadSettings(rest, acc[Rename(key) := val])
  }

  function WithProtocol(r: Result<map<string, string>>): Result<map<string, string>> {
    match r
    case Err(e) => Err(e)
    case Ok(m) => Ok(m[PROTOCOL := POSTGRESQL])
  }

  function Settings(dsn: string): Result<map<string, string>> {
    WithProtocol(ReadSettings(dsn, map[]))
  }

  /** The scanning loop over an unquoted value. */
  method ScanBare(s: string) returns (r: Option<nat>)
    ensures r == BareLength(s)
  {
    var end := 0;
    while end < |s|
      invariant 0 <= end <= |s|
      invariant BareLength(s) == Add(end, BareLength(s[end..]))
    {
      if IsSpace(s[end]) { break; }
      if s[end] == '\\' {
        end := end + 1;
        if end == |s| { return None; }
        assert s[end - 1..][2..] == s[end + 1..];
      } else {
        assert s[end..][1..] == s[end + 1..];
      }
      end := end + 1;
    }
    return Some(end);
  }

  /** The scanning loop over a quoted value. */
  method ScanQuoted(q: string) returns (end: nat)
    ensures end == QuotedLength(q)
  {
    end := 0;
    while end < |q|
      invariant 0 <= end <= |q| + 1
      invariant end <= |q| ==> QuotedLength(q) == end + QuotedLength(q[end..])
      invariant end > |q| ==> QuotedLength(q) == end
    {
      if q[end] == '\'' { break; }
      if q[end] == '\\' {
        assert end + 2 <= |q| ==> q[end..][2..] == q[end + 2..];
        end := end + 1;
      } else {
        assert q[end..][1..] == q[end + 1..];
      }
      end := end + 1;
    }
  }

  method ParseValue(s: string) returns (r: Result<(string, string)>)
    ensures r == ReadValue(s)
  {
    if s == "" { return Ok(("", "")); }
    if s[0] != '\'' {
      var end := ScanBare(s);
      if end == None { return Err(InvalidBackslash); }
      var val := Decode(s[..end.value]);
      if end.value == |s| { return Ok((val, "")); }
      return Ok((val, TrimLeft(s[end.value + 1..])));
    }
    var q := s[1..];
    var end := ScanQuoted(q);
    if end == |q| { return Err(UnterminatedQuotedString); }
    if end > |q| { return Err(SliceOutOfRange); }
    return Ok((Decode(q[..end]), TrimLeft(q[end + 1..])));
  }

  /** The parser's own loop over a shrinking `dsn`. */
  method ParsePgxKeywordValueSettings(input: string) returns (r: Result<map<string, string>>)
    ensures r == Settings(input)
  {
    var dsn := input;
    var properties: map<string, string> := map[];
    while |dsn| > 0
      invariant ReadSettings(input, map[]) == ReadSettings(dsn, properties)
      decreases |dsn|
    {
      var eq := IndexOf(dsn, '=');
      if eq < 0 { return Err(InvalidKeyValue); }
      var key := Trim(dsn[..eq]);
      var parsed := ParseValue(TrimLeft(dsn[eq + 1..]));
      if parsed.Err? { return Err(parsed.error); }
      if key == "" { return Err(InvalidKeyValue); }
      properties := properties[Rename(key) := parsed.value.0];
      dsn := parsed.value.1;
    }
    return Ok(properties[PROTOCOL := POSTGRESQL]);
  }

  // ---------------------------------------------------------------------------------------------
  // The writing side
  // ---------------------------------------------------------------------------------------------

  /** Backslash-escapes quotes and backslashes, as section 34.1.1.1 of the PostgreSQL 16 documentation asks. */
  function Escape(v: string): string {
    if v == "" then ""
    else (if v[0] == '\'' || v[0] == '\\' then ['\\', v[0]] else [v[0]]) + Escape(v[1..])
  }

  /** The escaped text after the first decoding pass: backslashes single again, quotes still escaped. */
  function HalfEscape(v: string): string {
    if v == "" then ""
    else (if v[0] == '\'' then ['\\', v[0]] else [v[0]]) + HalfEscape(v[1..])
  }

  /** `Quoted` writes `'escaped'`, `Escaped` the escaped text alone, `Raw` the value as it is. */
  datatype Form = Quoted | Escaped | Raw

  /** One written setting, with any blanks the grammar allows around its parts. */
  datatype Setting = Setting(lead: string, key: string, mid1: string, mid2: string,
                             value: string, form: Form, trail: string)

  function Text(value: string, form: Form): string {
    match form
    case Quoted => "'" + Escape(value) + "'"
    case Escaped => Escape(value)
    case Raw => value
  }

  function Write(s: Setting): string {
    s.lead + s.key + s.mid1 + "=" + s.mid2 + Text(s.value, s.form) + s.trail
  }

  function WriteAll(ss: seq<Setting>): string {
    if ss == [] then "" else Write(ss[0]) + WriteAll(ss[1..])
  }

  predicate IsKey(key: string) {
    && key != "" && '=' !in key
    && !IsSpace(key[0]) && !IsSpace(key[|key| - 1])
  }

  /** The values the parser takes verbatim: not empty, not starting like a quoted value, every blank behind a
      backslash, and no backslash at the end, before a quote or before another backslash. */
  predicate Verbatim(v: string) {
    && v != "" && v[0] != '\'' && v[|v| - 1] != '\\'
    && (forall i :: 0 <= i < |v| && IsSpace(v[i]) ==> i > 0 && v[i - 1] == '\\')
    && (forall i :: 0 <= i < |v| - 1 && v[i] == '\\' ==> v[i + 1] != '\\' && v[i + 1] != '\'')
  }

  predicate Writable(s: Setting, last: bool) {
    && IsKey(s.key)
    && Blank(s.lead) && Blank(s.mid1) && Blank(s.mid2) && Blank(s.trail)
    && match s.form
       case Quoted => true
       case Escaped => s.value != "" && NoBlank(s.value) && (last || s.trail != "")
       case Raw => (last && s.value == "") || (Verbatim(s.value) && (last || s.trail != ""))
  }

  predicate AllWritable(ss: seq<Setting>) {
    forall i :: 0 <= i < |ss| ==> Writable(ss[i], i == |ss| - 1)
  }

  /** What reading the settings in order stores: later settings of a key replace earlier ones. */
  function Stored(ss: seq<Setting>, acc: map<string, string>): map<string, string> {
    if ss == [] then acc else Stored(ss[1..], acc[Rename(ss[0].key) := ss[0].value])
  }

  // ---------------------------------------------------------------------------------------------
  // Decoding inverts escaping
  // ---------------------------------------------------------------------------------------------

  lemma {:induction false} FirstPass(v: string)
    ensures ReplaceAll(Escape(v), "\\\\", "\\") == HalfEscape(v)
  {
    if v != "" {
      FirstPass(v[1..]);
      var e, t := Escape(v), Escape(v[1..]);
      if v[0] == '\\' {
        assert e == "\\\\" + t && e[2..] == t;
      } else if v[0] == '\'' {
        assert e == "\\'" + t && e[1..] == "'" + t && e[1..][1..] == t;
        assert !HasPrefix(e, "\\\\") by { assert e[1] == '\''; }
        assert !HasPrefix(e[1..], "\\\\");
        assert ReplaceAll(e, "\\\\", "\\") == "\\" + ("'" + HalfEscape(v[1..]));
      } else {
        assert e == [v[0]] + t && e[1..] == t;
      }
    }
  }

  lemma {:induction false} SecondPass(v: string)
    ensures ReplaceAll(HalfEscape(v), "\\'", "'") == v
  {
    if v != "" {
      SecondPass(v[1..]);
      var h, t := HalfEscape(v), HalfEscape(v[1..]);
      if v[0] == '\'' {
        assert h == "\\'" + t && h[2..] == t;
      } else {
        assert h == [v[0]] + t && h[1..] == t;
        assert t == "" || t[0] != '\'';
      }
    }
  }

  /** The two-pass decoding undoes the escaping, for every value. */
  lemma DecodeEscape(v: string)
    ensures Decode(Escape(v)) == v
  {
    FirstPass(v);
    SecondPass(v);
  }

  // ---------------------------------------------------------------------------------------------
  // The scanners stop where a written value ends
  // ---------------------------------------------------------------------------------------------

  lemma {:induction false} QuotedLengthOfEscape(v: string, tail: string)
    ensures QuotedLength(Escape(v) + "'" + tail) == |Escape(v)|
  {
    if v != "" {
      QuotedLengthOfEscape(v[1..], tail);
      var e, t := Escape(v) + "'" + tail, Escape(v[1..]) + "'" + tail;
      if v[0] == '\'' || v[0] == '\\' {
        assert e[2..] == t;
      } else {
        assert e[1..] == t;
      }
    }
  }

  lemma {:induction false} BareLengthOfEscape(v: string, tail: string)
    requires NoBlank(v)
    requires tail == "" || IsSpace(tail[0])
    ensures BareLength(Escape(v) + tail) == Some(|Escape(v)|)
  {
    if v == "" {
      assert Escape(v) + tail == tail;
    } else {
      BareLengthOfEscape(v[1..], tail);
      var e, t := Escape(v) + tail, Escape(v[1..]) + tail;
      if v[0] == '\'' || v[0] == '\\' {
        assert e == ['\\', v[0]] + t;
        assert e[2..] == t;
      } else {
        assert e == [v[0]] + t;
        assert e[1..] == t;
      }
    }
  }

  /** `Verbatim` without the conditions on the first character, in the shape the scanner recurses on. */
  predicate Scannable(v: string) {
    && (v != "" ==> v[|v| - 1] != '\\')
    && (forall i :: 0 <= i < |v| && IsSpace(v[i]) ==> i > 0 && v[i - 1] == '\\')
    && (forall i :: 0 <= i < |v| - 1 && v[i] == '\\' ==> v[i + 1] != '\\' && v[i + 1] != '\'')
  }

  lemma {:induction false} BareLengthOfScannable(v: string, tail: string)
    requires Scannable(v)
    requires tail == "" || IsSpace(tail[0])
    ensures BareLength(v + tail) == Some(|v|)
    decreases |v|
  {
    if v == "" {
    } else {
      var n := if v[0] == '\\' then 2 else 1;
      assert (v + tail)[n..] == v[n..] + tail;
      assert v[0] == '\\' ==> |v| > 1 && v[1] != '\\';
      assert n < |v| ==> !IsSpace(v[n]);
      BareLengthOfScannable(v[n..], tail);
    }
  }

  lemma {:induction false} ScannableOfBareLength(v: string)
    requires BareLength(v) == Some(|v|)
    requires forall i :: 0 <= i < |v| - 1 && v[i] == '\\' ==> v[i + 1] != '\\' && v[i + 1] != '\''
    ensures Scannable(v)
    decreases |v|
  {
    if v != "" {
      var n := if v[0] == '\\' then 2 else 1;
      ScannableOfBareLength(v[n..]);
      forall i | 0 <= i < |v| && IsSpace(v[i]) ensures i > 0 && v[i - 1] == '\\' {
        if i >= n {
          assert v[n..][i - n] == v[i] && (i - n > 0 ==> v[n..][i - n - 1] == v[i - 1]);
        }
      }
      if |v| > n {
        assert v[n..][|v[n..]| - 1] == v[|v| - 1];
      }
    }
  }

  lemma {:induction false} NoPattern(v: string, c: char, d: char)
    requires forall i :: 0 <= i < |v| - 1 && v[i] == c ==> v[i + 1] != d
    ensures !Contains(v, [c, d])
  {
    if v != "" {
      assert !HasPrefix(v, [c, d]) by {
        assert |v| > 1 && v[0] == c ==> v[..2][1] != d;
        assert [c, d][1] == d;
      }
      NoPattern(v[1..], c, d);
    }
  }

  lemma {:induction false} HasPattern(v: string, i: nat)
    requires i + 1 < |v|
    ensures Contains(v, v[i..i + 2])
  {
    if i > 0 {
      assert v[1..][i - 1..i + 1] == v[i..i + 2];
      HasPattern(v[1..], i - 1);
    }
  }

  lemma DecodeVerbatim(v: string)
    requires Verbatim(v)
    ensures Decode(v) == v
  {
    NoPattern(v, '\\', '\\');
    NoPattern(v, '\\', '\'');
    ReplaceAllShrinks(v, "\\\\", "\\");
    ReplaceAllShrinks(v, "\\'", "'");
  }

  /** Decoding never lengthens, and keeps the length only when there was nothing to decode. */
  lemma DecodeShrinks(raw: string)
    ensures |Decode(raw)| <= |raw|
    ensures |Decode(raw)| == |raw| ==>
              forall i :: 0 <= i < |raw| - 1 && raw[i] == '\\' ==> raw[i + 1] != '\\' && raw[i + 1] != '\''
  {
    var once := ReplaceAll(raw, "\\\\", "\\");
    ReplaceAllShrinks(raw, "\\\\", "\\");
    ReplaceAllShrinks(once, "\\'", "'");
    if |Decode(raw)| == |raw| {
      forall i | 0 <= i < |raw| - 1 && raw[i] == '\\' ensures raw[i + 1] != '\\' && raw[i + 1] != '\'' {
        HasPattern(raw, i);
        assert raw[i..i + 2] == ['\\', raw[i + 1]];
      }
    }
  }

  // ---------------------------------------------------------------------------------------------
  // One written setting, then all of them
  // ---------------------------------------------------------------------------------------------

  /** What follows the equals sign of a written setting. */
  function Right(s: Setting, rest: string): string {
    s.mid2 + (Text(s.value, s.form) + (s.trail + rest))
  }

  lemma ReadQuoted(v: string, after: string)
    ensures ReadValue("'" + Escape(v) + "'" + after) == Ok((v, TrimLeft(after)))
  {
    var q := Escape(v) + "'" + after;
    assert "'" + Escape(v) + "'" + after == "'" + q && ("'" + q)[1..] == q;
    QuotedLengthOfEscape(v, after);
    assert q[..|Escape(v)|] == Escape(v) && q[|Escape(v)| + 1..] == after;
    DecodeEscape(v);
  }

  lemma ReadBare(text: string, after: string)
    requires text != "" && text[0] != '\''
    requires after == "" || IsSpace(after[0])
    requires BareLength(text + after) == Some(|text|)
    ensures ReadValue(text + after) == Ok((Decode(text), TrimLeft(after)))
  {
    assert (text + after)[..|text|] == text;
    if after != "" {
      assert (text + after)[|text| + 1..] == after[1..];
    }
  }

  lemma ReadEscaped(v: string, after: string)
    requires v != "" && NoBlank(v) && (after == "" || IsSpace(after[0]))
    ensures ReadValue(Escape(v) + after) == Ok((v, TrimLeft(after)))
  {
    BareLengthOfEscape(v, after);
    DecodeEscape(v);
    ReadBare(Escape(v), after);
  }

  lemma ReadRaw(v: string, after: string)
    requires Verbatim(v) && (after == "" || IsSpace(after[0]))
    ensures ReadValue(v + after) == Ok((v, TrimLeft(after)))
  {
    BareLengthOfScannable(v, after);
    DecodeVerbatim(v);
    ReadBare(v, after);
  }

  lemma TextStart(v: string, form: Form)
    requires form == Quoted || v != ""
    requires form == Escaped ==> NoBlank(v)
    requires form == Raw ==> Verbatim(v)
    ensures Text(v, form) != "" && !IsSpace(Text(v, form)[0])
  {
  }

  /** Reading a written value gives the value back and leaves the rest of the string, unpadded. */
  lemma ReadText(v: string, form: Form, after: string)
    requires form == Quoted || ((after == "" || IsSpace(after[0])) && v != "")
    requires form == Escaped ==> NoBlank(v)
    requires form == Raw ==> Verbatim(v)
    ensures ReadValue(Text(v, form) + after) == Ok((v, TrimLeft(after)))
  {
    match form {
      case Quoted => ReadQuoted(v, after);
      case Escaped => ReadEscaped(v, after);
      case Raw => ReadRaw(v, after);
    }
  }

  lemma ReadPaddedText(pad: string, v: string, form: Form, after: string)
    requires Blank(pad)
    requires form == Quoted || ((after == "" || IsSpace(after[0])) && v != "")
    requires form == Escaped ==> NoBlank(v)
    requires form == Raw ==> Verbatim(v)
    ensures ReadValue(TrimLeft(pad + (Text(v, form) + after))) == Ok((v, TrimLeft(after)))
  {
    var t := Text(v, form) + after;
    TextStart(v, form);
    ReadText(v, form, after);
    TrimLeftPadded(pad, t);
    assert t[0] == Text(v, form)[0];
    assert TrimLeft(t) == t;
  }

  lemma ReadPadding(pad: string)
    requires Blank(pad)
    ensures TrimLeft(pad) == "" && ReadValue(TrimLeft(pad)) == Ok(("", ""))
  {
    TrimLeftPadded(pad, "");
    assert pad + "" == pad;
  }

  lemma ReadRight(s: Setting, rest: string)
    requires Writable(s, rest == "")
    ensures ReadValue(TrimLeft(Right(s, rest))) == Ok((s.value, TrimLeft(rest)))
  {
    TrimLeftPadded(s.trail, rest);
    if s.form == Raw && s.value == "" {
      var pad := s.mid2 + s.trail;
      assert Right(s, rest) == pad;
      ReadPadding(pad);
    } else {
      ReadPaddedText(s.mid2, s.value, s.form, s.trail + rest);
    }
  }

  lemma ReadOne(w: string, s: Setting, rest: string, acc: map<string, string>)
    requires Writable(s, rest == "") && Blank(w)
    ensures ReadSettings(w + s.key + s.mid1 + ['='] + Right(s, rest), acc)
         == ReadSettings(TrimLeft(rest), acc[Rename(s.key) := s.value])
  {
    var name, right := w + s.key + s.mid1, Right(s, rest);
    var dsn := name + ['='] + right;
    IndexOfFirst(name, '=', right);
    assert dsn[..|name|] == name && dsn[|name| + 1..] == right;
    TrimPadded(w, s.key, s.mid1);
    ReadRight(s, rest);
  }

  lemma WriteSplit(s: Setting, rest: string)
    ensures Write(s) + rest == s.lead + s.key + s.mid1 + ['='] + Right(s, rest)
    ensures Write(s) + rest == s.lead + ("" + s.key + s.mid1 + ['='] + Right(s, rest))
  {
    var right := Right(s, rest);
    assert right == s.mid2 + Text(s.value, s.form) + s.trail + rest;
    assert Write(s) + rest
        == s.lead + s.key + s.mid1 + "=" + (s.mid2 + Text(s.value, s.form) + s.trail + rest);
  }

  lemma RestEmpty(ss: seq<Setting>)
    requires ss != [] && AllWritable(ss)
    ensures WriteAll(ss[1..]) == "" <==> |ss| == 1
    ensures AllWritable(ss[1..])
  {
    if |ss| > 1 {
      assert ss[1..][0] == ss[1] && |Write(ss[1])| >= |ss[1].key|;
    }
  }

  lemma {:induction false} ReadAll(ss: seq<Setting>, acc: map<string, string>)
    requires AllWritable(ss)
    ensures ReadSettings(TrimLeft(WriteAll(ss)), acc) == Ok(Stored(ss, acc))
  {
    if ss != [] {
      var s, rest := ss[0], WriteAll(ss[1..]);
      var body := "" + s.key + s.mid1 + ['='] + Right(s, rest);
      WriteSplit(s, rest);
      TrimLeftPadded(s.lead, body);
      assert body[0] == s.key[0];
      RestEmpty(ss);
      ReadOne("", s, rest, acc);
      ReadAll(ss[1..], acc[Rename(s.key) := s.value]);
    }
  }

  /** The round trip: whatever the settings, and however they are padded, parsing what was written stores exactly
      what was written, plus the protocol entry. */
  lemma RoundTrip(ss: seq<Setting>)
    requires AllWritable(ss)
    ensures Settings(WriteAll(ss)) == Ok(Stored(ss, map[])[PROTOCOL := POSTGRESQL])
  {
    if ss != [] {
      var s, rest := ss[0], WriteAll(ss[1..]);
      WriteSplit(s, rest);
      RestEmpty(ss);
      ReadOne(s.lead, s, rest, map[]);
      ReadAll(ss[1..], map[Rename(s.key) := s.value]);
    }
  }

  predicate DistinctKeys(ss: seq<Setting>) {
    forall i, j :: 0 <= i < j < |ss| ==> ss[i].key != ss[j].key
  }

  predicate Lists(ss: seq<Setting>, m: map<string, string>) {
    && (forall i :: 0 <= i < |ss| ==> ss[i].key in m && m[ss[i].key] == ss[i].value)
    && (forall k :: k in m ==> exists i :: 0 <= i < |ss| && ss[i].key == k)
  }

  /** A later setting of another key leaves a stored entry alone. */
  lemma {:induction false} StoredKeeps(ss: seq<Setting>, acc: map<string, string>, k: string)
    requires forall i :: 0 <= i < |ss| ==> Rename(ss[i].key) != k
    ensures k in Stored(ss, acc) <==> k in acc
    ensures k in acc ==> Stored(ss, acc)[k] == acc[k]
  {
    if ss != [] {
      StoredKeeps(ss[1..], acc[Rename(ss[0].key) := ss[0].value], k);
    }
  }

  lemma {:induction false} StoredAt(ss: seq<Setting>, acc: map<string, string>, i: nat)
    requires i < |ss| && DistinctKeys(ss)
    requires forall j :: 0 <= j < |ss| ==> ss[j].key != "dbname"
    ensures ss[i].key in Stored(ss, acc) && Stored(ss, acc)[ss[i].key] == ss[i].value
  {
    var next := acc[Rename(ss[0].key) := ss[0].value];
    if i == 0 {
      StoredKeeps(ss[1..], next, ss[0].key);
    } else {
      StoredAt(ss[1..], next, i - 1);
    }
  }

  lemma StoredIsListed(ss: seq<Setting>, m: map<string, string>)
    requires DistinctKeys(ss) && Lists(ss, m) && "dbname" !in m
    ensures Stored(ss, map[]) == m
  {
    var got := Stored(ss, map[]);
    forall k ensures (k in got <==> k in m) && (k in m ==> got[k] == m[k]) {
      if k in m {
        var i :| 0 <= i < |ss| && ss[i].key == k;
        StoredAt(ss, map[], i);
      } else {
        StoredKeeps(ss, map[], k);
      }
    }
  }

  /** With distinct keys other than `protocol` and `dbname`, the parsed map is the written one, plus the protocol. */
  lemma RoundTripDistinct(ss: seq<Setting>, m: map<string, string>)
    requires AllWritable(ss) && DistinctKeys(ss) && Lists(ss, m)
    requires "dbname" !in m && PROTOCOL !in m
    ensures Settings(WriteAll(ss)) == Ok(m[PROTOCOL := POSTGRESQL])
  {
    RoundTrip(ss);
    StoredIsListed(ss, m);
  }

  // ---------------------------------------------------------------------------------------------
  // Exactly which values survive unescaped
  // ---------------------------------------------------------------------------------------------

  /** Every stored value is shorter than the string it was read from by at least a key and an equals sign. */
  lemma {:induction false} ValuesAreShort(dsn: string, acc: map<string, string>)
    requires ReadSettings(dsn, acc).Ok?
    ensures forall k :: k in ReadSettings(dsn, acc).value ==>
              (k in acc && ReadSettings(dsn, acc).value[k] == acc[k])
              || |ReadSettings(dsn, acc).value[k]| + 2 <= |dsn|
    ensures forall k :: k in acc ==> k in ReadSettings(dsn, acc).value
    decreases |dsn|
  {
    if dsn != "" {
      var eq := IndexOf(dsn, '=');
      var s := TrimLeft(dsn[eq + 1..]);
      var (val, rest) := ReadValue(s).value;
      ValueIsShort(s);
      var key := Trim(dsn[..eq]);
      assert eq > 0;
      var next := acc[Rename(key) := val];
      ValuesAreShort(rest, next);
    }
  }

  lemma ValueIsShort(s: string)
    requires ReadValue(s).Ok?
    ensures |ReadValue(s).value.0| <= |s|
    ensures s != "" && s[0] == '\'' ==> |ReadValue(s).value.0| < |s|
  {
    if s != "" && s[0] != '\'' {
      DecodeShrinks(s[..BareLength(s).value]);
    } else if s != "" {
      DecodeShrinks(s[1..][..QuotedLength(s[1..])]);
    }
  }

  lemma ReadSingle(key: string, v: string)
    requires IsKey(key)
    ensures ReadSettings(key + "=" + v, map[])
         == match ReadValue(TrimLeft(v))
            case Err(e) => Err(e)
            case Ok((val, rest)) => ReadSettings(rest, map[Rename(key) := val])
  {
    var dsn := key + "=" + v;
    assert dsn == key + ['='] + v;
    IndexOfFirst(key, '=', v);
    TrimPadded("", key, "");
    assert "" + key + "" == key && dsn[..|key|] == key && dsn[|key| + 1..] == v;
  }

  /** A value that is read back alone, nothing behind it, is verbatim. */
  lemma RawValueOnlyIf(v: string)
    requires v != "" && ReadValue(TrimLeft(v)).Ok? && ReadValue(TrimLeft(v)).value.0 == v
    ensures Verbatim(v)
  {
    var t := TrimLeft(v);
    ValueIsShort(t);
    TrimLeftSame(v);
    var end := BareLength(v).value;
    DecodeShrinks(v[..end]);
    assert v[..end] == v;
    ScannableOfBareLength(v);
  }

  lemma RawSurvivesOnlyIf(key: string, v: string)
    requires IsKey(key) && key != "dbname" && v != ""
    requires ReadSettings(key + "=" + v, map[]).Ok?
    requires key in ReadSettings(key + "=" + v, map[]).value
    requires ReadSettings(key + "=" + v, map[]).value[key] == v
    ensures Verbatim(v)
  {
    ReadSingle(key, v);
    var t := TrimLeft(v);
    ValueIsShort(t);
    var (val, rest) := ReadValue(t).value;
    ValuesAreShort(rest, map[key := val]);
    assert val == v;
    RawValueOnlyIf(v);
  }

  /** A single unescaped `key=value` is read back exactly when the value is empty or `Verbatim`. */
  lemma RawSurvivesExactly(key: string, v: string)
    requires IsKey(key) && key != "dbname" && key != PROTOCOL
    ensures Settings(key + "=" + v) == Ok(map[key := v, PROTOCOL := POSTGRESQL]) <==> v == "" || Verbatim(v)
  {
    var dsn := key + "=" + v;
    if v == "" || Verbatim(v) {
      ReadSingle(key, v);
      if v != "" {
        assert v + "" == v;
        ReadText(v, Raw, "");
      }
      assert map[key := v][PROTOCOL := POSTGRESQL] == map[key := v, PROTOCOL := POSTGRESQL];
    } else if Settings(dsn) == Ok(map[key := v, PROTOCOL := POSTGRESQL]) {
      var m := ReadSettings(dsn, map[]).value;
      assert m[PROTOCOL := POSTGRESQL][key] == v;
      RawSurvivesOnlyIf(key, v);
    }
  }

  /** An empty value that is not the last one swallows the setting after it. */
  lemma EmptyValueSwallowsNext()
    ensures Settings("a= b=c") == Ok(map["a" := "b=c", PROTOCOL := POSTGRESQL])
  {
    var s := Setting("", "a", "", " ", "b=c", Raw, "");
    assert Write(s) == "a= b=c";
    assert WriteAll([s]) == "a= b=c";
    RoundTrip([s]);
    assert Stored([s], map[]) == map["a" := "b=c"];
  }
}
