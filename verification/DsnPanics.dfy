/** When the parser slices past the end of its input: exactly when it comes to a quoted value that is not closed and ends
    in a lone backslash. */
module DsnPanics {
  import opened Strings
  import opened Dsn

  /** How many backslashes stand in a row right before position `i`. */
  function RunBefore(s: string, i: nat): (n: nat)
    requires i <= |s|
    ensures n <= i
  {
    if i == 0 || s[i - 1] != '\\' then 0 else 1 + RunBefore(s, i - 1)
  }

  /** The quote at position `i` is not escaped: an even number of backslashes stands before it. */
  predicate Closes(q: string, i: nat) {
    i < |q| && q[i] == '\'' && RunBefore(q, i) % 2 == 0
  }

  predicate IsUnclosed(q: string) {
    forall i :: 0 <= i < |q| ==> !Closes(q, i)
  }

  /** The last backslash has nothing left to escape. */
  predicate EndsInLoneBackslash(q: string) {
    RunBefore(q, |q|) % 2 == 1
  }

  /** Behind an escape, or behind a character that is no backslash, runs count the same, up to whole escapes. */
  lemma {:induction false} RunShift(q: string, n: nat, i: nat)
    requires |q| >= n && ((n == 1 && q[0] != '\\') || (n == 2 && q[0] == '\\')) && n <= i <= |q|
    ensures RunBefore(q, i) % 2 == RunBefore(q[n..], i - n) % 2
  {
    if i > n {
      assert q[n..][i - n - 1] == q[i - 1];
      RunShift(q, n, i - 1);
    } else if n == 2 {
      assert RunBefore(q, 1) == 1 && RunBefore(q, 2) == if q[1] == '\\' then 2 else 0;
    }
  }

  lemma ClosesShift(q: string, n: nat)
    requires |q| >= n && ((n == 1 && q[0] != '\\') || (n == 2 && q[0] == '\\')) && q[0] != '\''
    ensures forall i :: 0 <= i < |q| && Closes(q, i) ==> i >= n && Closes(q[n..], i - n)
    ensures forall i :: 0 <= i < |q| - n && Closes(q[n..], i) ==> Closes(q, i + n)
    ensures EndsInLoneBackslash(q) <==> EndsInLoneBackslash(q[n..])
  {
    forall i | n <= i <= |q| ensures RunBefore(q, i) % 2 == RunBefore(q[n..], i - n) % 2 {
      RunShift(q, n, i);
    }
    assert n == 2 ==> RunBefore(q, 1) == 1;
  }

  /** The scan for the closing quote stops at the first one that is not escaped; without one it stops at the end, or one
      past the end when the text ends in a lone backslash. */
  lemma {:induction false} ScanStopsExactly(q: string)
    ensures var n := QuotedLength(q);
            && (n < |q| <==> !IsUnclosed(q))
            && (n < |q| ==> Closes(q, n) && forall i :: 0 <= i < n ==> !Closes(q, i))
            && (n == |q| + 1 <==> IsUnclosed(q) && EndsInLoneBackslash(q))
    decreases |q|
  {
    if q == "" {
    } else if q[0] == '\'' {
      assert Closes(q, 0);
    } else if q[0] == '\\' && |q| == 1 {
      assert RunBefore(q, 1) == 1;
    } else {
      var n := if q[0] == '\\' then 2 else 1;
      var rest := q[n..];
      ScanStopsExactly(rest);
      ClosesShift(q, n);
      if !IsUnclosed(rest) {
        var i :| 0 <= i < |rest| && Closes(rest, i);
        assert Closes(q, i + n);
      }
    }
  }

  /** Reading one value panics exactly for a quoted text without a closing quote and with a lone backslash at the end. */
  lemma ValuePanicsExactly(s: string)
    ensures ReadValue(s) == Err(SliceOutOfRange)
            <==> s != "" && s[0] == '\'' && IsUnclosed(s[1..]) && EndsInLoneBackslash(s[1..])
  {
    if s != "" && s[0] == '\'' { ScanStopsExactly(s[1..]); }
  }

  /** What is left to parse once the first setting has been read; `None` when it cannot be. */
  function AfterSetting(dsn: string): (r: Option<string>)
    ensures r.Some? ==> |r.value| < |dsn|
  {
    var eq := IndexOf(dsn, '=');
    if eq < 0 || Trim(dsn[..eq]) == "" then None
    else
      match ReadValue(TrimLeft(dsn[eq + 1..]))
      case Err(_) => None
      case Ok((_, rest)) => Some(rest)
  }

  /** The parser gets as far as having `d` left to parse. */
  ghost predicate ComesTo(dsn: string, d: string)
    decreases |dsn|
  {
    d == dsn || (AfterSetting(dsn).Some? && ComesTo(AfterSetting(dsn).value, d))
  }

  /** The value of the first setting is a quoted text without a closing quote, with a lone backslash at the end. */
  predicate Overruns(d: string) {
    var eq := IndexOf(d, '=');
    eq >= 0
    && var t := TrimLeft(d[eq + 1..]);
       t != "" && t[0] == '\'' && IsUnclosed(t[1..]) && EndsInLoneBackslash(t[1..])
  }

  lemma ComesFurther(dsn: string)
    ensures (exists d :: ComesTo(dsn, d) && Overruns(d))
            <==> Overruns(dsn)
                 || (AfterSetting(dsn).Some? && exists d :: ComesTo(AfterSetting(dsn).value, d) && Overruns(d))
  {
    assert ComesTo(dsn, dsn);
    if AfterSetting(dsn).Some? {
      assert forall d :: ComesTo(AfterSetting(dsn).value, d) ==> ComesTo(dsn, d);
    }
  }

  /** What the parser has stored when it has read the first setting. */
  function StoredAfter(dsn: string, acc: map<string, string>): map<string, string>
    requires AfterSetting(dsn).Some?
  {
    var eq := IndexOf(dsn, '=');
    acc[Rename(Trim(dsn[..eq])) := ReadValue(TrimLeft(dsn[eq + 1..])).value.0]
  }

  lemma ReadsFurther(dsn: string, acc: map<string, string>)
    ensures ReadSettings(dsn, acc) == Err(SliceOutOfRange)
            <==> Overruns(dsn)
                 || (AfterSetting(dsn).Some?
                     && ReadSettings(AfterSetting(dsn).value, StoredAfter(dsn, acc)) == Err(SliceOutOfRange))
  {
    var eq := IndexOf(dsn, '=');
    if eq >= 0 { ValuePanicsExactly(TrimLeft(dsn[eq + 1..])); }
  }

  lemma {:induction false} ReadingPanicsExactly(dsn: string, acc: map<string, string>)
    ensures ReadSettings(dsn, acc) == Err(SliceOutOfRange) <==> exists d :: ComesTo(dsn, d) && Overruns(d)
    decreases |dsn|
  {
    ComesFurther(dsn);
    ReadsFurther(dsn, acc);
    if AfterSetting(dsn).Some? {
      ReadingPanicsExactly(AfterSetting(dsn).value, StoredAfter(dsn, acc));
    }
  }

  /** For every input: the parser panics if and only if it comes to a quoted value without a closing quote and with a lone
      backslash at the end. */
  lemma PanicsExactly(dsn: string)
    ensures Settings(dsn) == Err(SliceOutOfRange) <==> exists d :: ComesTo(dsn, d) && Overruns(d)
  {
    ReadingPanicsExactly(dsn, map[]);
  }

  /** So a single setting whose quoted value is not closed is an error, and a panic exactly when it ends in a lone
      backslash. */
  lemma LoneBackslashPanics(key: string, v: string)
    requires IsKey(key) && v != "" && v[0] == '\'' && IsUnclosed(v[1..])
    ensures Settings(key + "=" + v)
         == Err(if EndsInLoneBackslash(v[1..]) then SliceOutOfRange else UnterminatedQuotedString)
  {
    ReadSingle(key, v);
    ScanStopsExactly(v[1..]);
    assert TrimLeft(v) == v;
  }
}
