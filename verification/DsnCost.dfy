/** What it takes to store settings: the text a map is read from is at least as large as the map. */
module DsnCost {
  import opened Strings
  import opened Dsn

  /** Characters that are not counted, so that `dbname` is not smaller than `database`, which it stands for. */
  predicate IsFree(c: char) {
    c == 'a' || c == 't' || c == 's'
  }

  function Size(s: string): nat {
    if s == "" then 0 else (if IsFree(s[0]) then 0 else 1) + Size(s[1..])
  }

  lemma {:induction false} SizeConcat(a: string, b: string)
    ensures Size(a + b) == Size(a) + Size(b)
  {
    if a == "" {
      assert a + b == b;
    } else {
      assert (a + b)[1..] == a[1..] + b;
      SizeConcat(a[1..], b);
    }
  }

  lemma SizeSplit(s: string, i: nat)
    requires i <= |s|
    ensures Size(s) == Size(s[..i]) + Size(s[i..])
  {
    assert s == s[..i] + s[i..];
    SizeConcat(s[..i], s[i..]);
  }

  lemma SizeAround(s: string, i: nat)
    requires i < |s| && !IsFree(s[i])
    ensures Size(s) == Size(s[..i]) + 1 + Size(s[i + 1..])
  {
    SizeSplit(s, i);
    assert s[i..][1..] == s[i + 1..];
  }

  lemma {:induction false} SizeTrimLeft(s: string)
    ensures Size(TrimLeft(s)) <= Size(s)
    ensures TrimLeft(s) != s ==> Size(TrimLeft(s)) < Size(s)
  {
    if s != "" && IsSpace(s[0]) { SizeTrimLeft(s[1..]); }
  }

  lemma {:induction false} SizeTrimRight(s: string)
    ensures Size(TrimRight(s)) <= Size(s)
  {
    if s != "" && IsSpace(s[|s| - 1]) {
      SizeTrimRight(s[..|s| - 1]);
      SizeSplit(s, |s| - 1);
    }
  }

  lemma {:induction false} SizeReplaceAll(s: string, pat: string, rep: string)
    requires pat != "" && Size(rep) < Size(pat)
    ensures Size(ReplaceAll(s, pat, rep)) <= Size(s)
    ensures Contains(s, pat) ==> Size(ReplaceAll(s, pat, rep)) < Size(s)
    decreases |s|
  {
    if HasPrefix(s, pat) {
      SizeReplaceAll(s[|pat|..], pat, rep);
      SizeConcat(rep, ReplaceAll(s[|pat|..], pat, rep));
      SizeSplit(s, |pat|);
    } else if s != "" {
      SizeReplaceAll(s[1..], pat, rep);
      SizeConcat([s[0]], ReplaceAll(s[1..], pat, rep));
      assert [s[0]][1..] == "";
      assert Size([s[0]]) == if IsFree(s[0]) then 0 else 1;
    }
  }

  /** Decoding makes a text smaller, unless it changes nothing. */
  lemma SizeDecode(raw: string)
    ensures Size(Decode(raw)) <= Size(raw)
    ensures Size(Decode(raw)) == Size(raw) ==> Decode(raw) == raw
  {
    var once := ReplaceAll(raw, "\\\\", "\\");
    assert "\\\\"[1..] == "\\" && "\\"[1..] == "" && "\\'"[1..] == "'" && "'"[1..] == "";
    SizeReplaceAll(raw, "\\\\", "\\");
    SizeReplaceAll(once, "\\'", "'");
    NothingReplaced(raw, "\\\\", "\\");
    NothingReplaced(once, "\\'", "'");
  }

  lemma NothingReplaced(s: string, pat: string, rep: string)
    requires pat != "" && |rep| < |pat|
    ensures !Contains(s, pat) ==> ReplaceAll(s, pat, rep) == s
  {
    ReplaceAllShrinks(s, pat, rep);
  }

  lemma SizeBare(t: string, end: nat)
    requires BareLength(t) == Some(end)
    ensures var rest := if end == |t| then "" else TrimLeft(t[end + 1..]);
            Size(Decode(t[..end])) + Size(rest) + (if rest == "" then 0 else 1) <= Size(t)
  {
    SizeDecode(t[..end]);
    if end == |t| {
      assert t[..end] == t;
    } else {
      SizeAround(t, end);
      SizeTrimLeft(t[end + 1..]);
    }
  }

  lemma SizeQuoted(t: string, end: nat)
    requires t != "" && t[0] == '\'' && QuotedLength(t[1..]) == end < |t| - 1
    ensures Size(Decode(t[1..][..end])) + Size(TrimLeft(t[1..][end + 1..])) + 2 <= Size(t)
  {
    var q := t[1..];
    SizeDecode(q[..end]);
    SizeAround(q, end);
    SizeTrimLeft(q[end + 1..]);
  }

  /** A value and what is left of the text fit into the text, with a separator when something is left, and with two quotes
      when the value is quoted. */
  lemma SizeValue(t: string)
    requires ReadValue(t).Ok?
    ensures var (val, rest) := ReadValue(t).value;
            && Size(val) + Size(rest) + (if rest == "" then 0 else 1) <= Size(t)
            && (t != "" && t[0] == '\'' ==> Size(val) + Size(rest) + 2 <= Size(t))
  {
    if t != "" && t[0] != '\'' {
      SizeBare(t, BareLength(t).value);
    } else if t != "" {
      SizeQuoted(t, QuotedLength(t[1..]));
    }
  }

  lemma SizeOfDbname()
    ensures Size("dbname") >= 3
  {
    assert "dbname"[1..] == "bname" && "bname"[1..] == "name" && "name"[1..] == "ame";
  }

  lemma SizeOfDatabase()
    ensures Size("database") == 3
  {
    assert "database"[1..] == "atabase" && "atabase"[1..] == "tabase" && "tabase"[1..] == "abase" && "abase"[1..] == "base";
    assert "base"[1..] == "ase" && "ase"[1..] == "se" && "se"[1..] == "e" && "e"[1..] == "";
    assert Size("base") == 2;
  }

  lemma SizeRename(key: string)
    ensures Size(Rename(key)) <= Size(key)
  {
    SizeOfDbname();
    SizeOfDatabase();
  }

  /** The first setting of a text, and the text behind it. */
  datatype First = First(key: string, value: string, rest: string)

  predicate HasFirst(dsn: string) {
    var eq := IndexOf(dsn, '=');
    eq >= 0 && ReadValue(TrimLeft(dsn[eq + 1..])).Ok? && Trim(dsn[..eq]) != ""
  }

  function FirstOf(dsn: string): First
    requires HasFirst(dsn)
  {
    var eq := IndexOf(dsn, '=');
    var (val, rest) := ReadValue(TrimLeft(dsn[eq + 1..])).value;
    First(Rename(Trim(dsn[..eq])), val, rest)
  }

  lemma ReadFirst(dsn: string, acc: map<string, string>)
    requires dsn != "" && ReadSettings(dsn, acc).Ok?
    ensures HasFirst(dsn)
    ensures ReadSettings(dsn, acc) == ReadSettings(FirstOf(dsn).rest, acc[FirstOf(dsn).key := FirstOf(dsn).value])
    ensures |FirstOf(dsn).rest| < |dsn|
  {
  }

  lemma SizeFirst(dsn: string)
    requires HasFirst(dsn)
    ensures var f := FirstOf(dsn);
            Size(f.key) + 1 + Size(f.value) + Size(f.rest) + (if f.rest == "" then 0 else 1) <= Size(dsn)
  {
    var eq := IndexOf(dsn, '=');
    var before, behind := dsn[..eq], dsn[eq + 1..];
    SizeAround(dsn, eq);
    SizeTrimLeft(before);
    SizeTrimRight(TrimLeft(before));
    SizeRename(Trim(before));
    SizeTrimLeft(behind);
    SizeValue(TrimLeft(behind));
  }

  /** What the settings of these keys take, each with an equals sign and a separator. */
  function Cost(keys: seq<string>, m: map<string, string>): nat
    requires forall k :: k in keys ==> k in m
  {
    if keys == [] then 0 else Size(keys[0]) + 2 + Size(m[keys[0]]) + Cost(keys[1..], m)
  }

  lemma {:induction false} CostWithout(keys: seq<string>, i: nat, m: map<string, string>)
    requires (forall k :: k in keys ==> k in m) && i < |keys|
    ensures forall k :: k in keys[..i] + keys[i + 1..] ==> k in m
    ensures Cost(keys, m) == Cost(keys[..i] + keys[i + 1..], m) + Size(keys[i]) + 2 + Size(m[keys[i]])
  {
    if i == 0 {
      assert keys[..0] + keys[1..] == keys[1..];
    } else {
      CostWithout(keys[1..], i - 1, m);
      assert keys[..i] + keys[i + 1..] == [keys[0]] + (keys[1..][..i - 1] + keys[1..][i..]);
      assert ([keys[0]] + (keys[1..][..i - 1] + keys[1..][i..]))[1..] == keys[1..][..i - 1] + keys[1..][i..];
    }
  }

  predicate Distinct(keys: seq<string>) {
    forall i, j :: 0 <= i < j < |keys| ==> keys[i] != keys[j]
  }

  /** These keys have yet to be set to their values in `m`. */
  predicate ToBeSet(keys: seq<string>, m: map<string, string>, acc: map<string, string>) {
    Distinct(keys) && forall k :: k in keys ==> k in m && !(k in acc && acc[k] == m[k])
  }

  predicate AreSet(keys: seq<string>, m: map<string, string>, res: map<string, string>) {
    forall k :: k in keys ==> k in m && k in res && res[k] == m[k]
  }

  lemma SetIsNotToBeSet(keys: seq<string>, m: map<string, string>, acc: map<string, string>)
    requires AreSet(keys, m, acc) && keys != []
    ensures !ToBeSet(keys, m, acc)
  {
    assert keys[0] in keys;
  }

  lemma SetOne(keys: seq<string>, i: nat, m: map<string, string>, acc: map<string, string>)
    requires ToBeSet(keys, m, acc) && i < |keys|
    ensures var left := keys[..i] + keys[i + 1..];
            ToBeSet(left, m, acc[keys[i] := m[keys[i]]]) && forall k :: k in left ==> k in keys
  {
    var left := keys[..i] + keys[i + 1..];
    assert forall j :: 0 <= j < |left| ==> left[j] == keys[if j < i then j else j + 1];
  }

  lemma SetOther(keys: seq<string>, m: map<string, string>, acc: map<string, string>, key: string, value: string)
    requires ToBeSet(keys, m, acc) && !(key in keys && m[key] == value)
    ensures ToBeSet(keys, m, acc[key := value])
  {
  }

  /** A text that sets these keys to their values is large enough for all of them. */
  lemma {:induction false} Affords(dsn: string, acc: map<string, string>, keys: seq<string>, m: map<string, string>)
    requires ToBeSet(keys, m, acc) && ReadSettings(dsn, acc).Ok? && AreSet(keys, m, ReadSettings(dsn, acc).value)
    ensures Cost(keys, m) <= if keys == [] then 0 else Size(dsn) + 1
    decreases |dsn|
  {
    if dsn == "" {
      if keys != [] { SetIsNotToBeSet(keys, m, acc); }
    } else {
      ReadFirst(dsn, acc);
      SizeFirst(dsn);
      var f := FirstOf(dsn);
      if f.key in keys && m[f.key] == f.value {
        var i :| 0 <= i < |keys| && keys[i] == f.key;
        CostWithout(keys, i, m);
        SetOne(keys, i, m, acc);
        Affords(f.rest, acc[f.key := f.value], keys[..i] + keys[i + 1..], m);
        AffordsNothing(f.rest, acc[f.key := f.value], keys[..i] + keys[i + 1..], m);
      } else {
        SetOther(keys, m, acc, f.key, f.value);
        Affords(f.rest, acc[f.key := f.value], keys, m);
      }
    }
  }

  lemma AffordsNothing(dsn: string, acc: map<string, string>, keys: seq<string>, m: map<string, string>)
    requires ToBeSet(keys, m, acc) && ReadSettings(dsn, acc).Ok? && AreSet(keys, m, ReadSettings(dsn, acc).value)
    ensures dsn == "" ==> keys == []
  {
    if dsn == "" && keys != [] { SetIsNotToBeSet(keys, m, acc); }
  }

  /** A text whose first setting is not one of those to be set has to be larger. */
  lemma AffordsLess(dsn: string, acc: map<string, string>, keys: seq<string>, m: map<string, string>)
    requires dsn != "" && ToBeSet(keys, m, acc) && ReadSettings(dsn, acc).Ok?
    requires AreSet(keys, m, ReadSettings(dsn, acc).value) && HasFirst(dsn)
    requires !(FirstOf(dsn).key in keys && m[FirstOf(dsn).key] == FirstOf(dsn).value)
    ensures Cost(keys, m) <= Size(dsn)
  {
    ReadFirst(dsn, acc);
    SizeFirst(dsn);
    var f := FirstOf(dsn);
    SetOther(keys, m, acc, f.key, f.value);
    Affords(f.rest, acc[f.key := f.value], keys, m);
    AffordsNothing(f.rest, acc[f.key := f.value], keys, m);
  }

  /** Keys come out trimmed, without equals signs and renamed. */
  lemma {:induction false} KeysAreKeys(dsn: string, acc: map<string, string>)
    requires ReadSettings(dsn, acc).Ok?
    ensures forall k :: k in ReadSettings(dsn, acc).value && k !in acc ==> IsKey(k) && k != "dbname"
    decreases |dsn|
  {
    if dsn != "" {
      ReadFirst(dsn, acc);
      var f := FirstOf(dsn);
      FirstKeyIsKey(dsn);
      KeysAreKeys(f.rest, acc[f.key := f.value]);
    }
  }

  lemma {:induction false} BeforeFirst(s: string, c: char)
    requires IndexOf(s, c) >= 0
    ensures c !in s[..IndexOf(s, c)]
  {
    if s[0] != c {
      BeforeFirst(s[1..], c);
      var i := IndexOf(s[1..], c);
      assert s[..i + 1] == [s[0]] + s[1..][..i];
    }
  }

  lemma {:induction false} TrimLeftKeeps(s: string)
    ensures forall c :: c in TrimLeft(s) ==> c in s
  {
    if s != "" && IsSpace(s[0]) { TrimLeftKeeps(s[1..]); }
  }

  lemma {:induction false} TrimRightKeeps(s: string)
    ensures forall c :: c in TrimRight(s) ==> c in s
    ensures TrimRight(s) != "" ==> TrimRight(s)[0] == s[0]
  {
    if s != "" && IsSpace(s[|s| - 1]) { TrimRightKeeps(s[..|s| - 1]); }
  }

  lemma FirstKeyIsKey(dsn: string)
    requires HasFirst(dsn)
    ensures IsKey(FirstOf(dsn).key) && FirstOf(dsn).key != "dbname"
  {
    var before := dsn[..IndexOf(dsn, '=')];
    BeforeFirst(dsn, '=');
    TrimLeftKeeps(before);
    TrimRightKeeps(TrimLeft(before));
    assert '=' !in Trim(before);
  }
}
