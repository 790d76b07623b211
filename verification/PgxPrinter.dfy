/** `PrepareDsn` of the pgx driver dialect: the properties that are kept are printed, in whatever order the map
    iterates, as unquoted settings; the parser of module `Dsn` reads them back. */
module PgxPrinter {
  import opened Strings
  import opened Dsn
  import opened DsnCost
  import Topology

  const HOST := "host"
  const PORT := "port"
  const PERSISTING_PROPERTIES: set<string> := {"user", "password", "host", "database", "port"}
  const INTERNAL_PREFIXES: seq<string> :=
    ["monitoring-", "76c06979-49c4-4c86-9600-a63605b83f50", "limitless", "blue-green-monitoring-"]

  /** The parts of a host info that are printed. */
  datatype Endpoint = Endpoint(host: string, port: int)

  predicate IsInternal(key: string) {
    exists i :: 0 <= i < |INTERNAL_PREFIXES| && HasPrefix(key, INTERNAL_PREFIXES[i])
  }

  predicate IsKept(key: string, wrapperProperties: set<string>) {
    !IsInternal(key) && (key in PERSISTING_PROPERTIES || key !in wrapperProperties)
  }

  /** The value printed for a property: host and port come from the endpoint when there is one. */
  function Effective(key: string, value: string, endpoint: Option<Endpoint>): string {
    if key == PORT && endpoint.Some? && endpoint.value.port != Topology.HOST_NO_PORT then Itoa(endpoint.value.port)
    else if key == HOST && endpoint.Some? then endpoint.value.host
    else value
  }

  /** The properties a printed connection string is meant to carry. */
  function Expected(properties: map<string, string>, wrapperProperties: set<string>, endpoint: Option<Endpoint>)
    : map<string, string>
  {
    map k | k in properties && IsKept(k, wrapperProperties) :: Effective(k, properties[k], endpoint)
  }

  function Item(k: string, m: map<string, string>): string
    requires k in m
  {
    k + "=" + m[k]
  }

  /** The entries of `m` in the given order, one blank apart. */
  function Printed(order: seq<string>, m: map<string, string>): string
    requires forall k :: k in order ==> k in m
  {
    if order == [] then ""
    else if |order| == 1 then Item(order[0], m)
    else Item(order[0], m) + " " + Printed(order[1..], m)
  }

  ghost predicate Enumerates(order: seq<string>, keys: set<string>) {
    && (forall k :: k in order <==> k in keys)
    && (forall i, j :: 0 <= i < j < |order| ==> order[i] != order[j])
  }

  lemma {:induction false} PrintedAppend(order: seq<string>, k: string, m: map<string, string>)
    requires k in m && forall j :: j in order ==> j in m
    ensures forall j :: j in order + [k] ==> j in m
    ensures Printed(order + [k], m)
         == (if order == [] then "" else Printed(order, m) + " ") + Item(k, m)
  {
    if |order| > 0 {
      PrintedAppend(order[1..], k, m);
      assert (order + [k])[1..] == order[1..] + [k];
      if |order| == 1 {
        assert order[1..] == [];
      }
    }
  }

  // ---------------------------------------------------------------------------------------------

  /** The printed entries as settings of the grammar in module `Dsn`. */
  function AsSettings(order: seq<string>, m: map<string, string>): seq<Setting>
    requires forall k :: k in order ==> k in m
  {
    seq(|order|, i requires 0 <= i < |order| =>
      Setting("", order[i], "", "", m[order[i]], Raw, if i == |order| - 1 then "" else " "))
  }

  lemma {:induction false} PrintedIsWritten(order: seq<string>, m: map<string, string>)
    requires forall k :: k in order ==> k in m
    ensures WriteAll(AsSettings(order, m)) == Printed(order, m)
  {
    if order != [] {
      PrintedIsWritten(order[1..], m);
      var ss := AsSettings(order, m);
      assert ss[1..] == AsSettings(order[1..], m);
      WrittenItem(ss[0], m);
      if |order| == 1 {
        assert Printed(order[1..], m) == "";
      }
    }
  }

  lemma WrittenItem(s: Setting, m: map<string, string>)
    requires s.lead == s.mid1 == s.mid2 == "" && s.form == Raw && s.key in m && s.value == m[s.key]
    ensures Write(s) == Item(s.key, m) + s.trail
  {
  }

  /** The printed settings can stand unquoted: the keys are keys and not renamed, and the values are verbatim; only the
      last one may be empty. */
  predicate StandsUnquoted(order: seq<string>, m: map<string, string>)
    requires forall k :: k in order ==> k in m
  {
    forall i :: 0 <= i < |order| ==>
      && IsKey(order[i]) && order[i] != "dbname"
      && (Verbatim(m[order[i]]) || (i == |order| - 1 && m[order[i]] == ""))
  }

  lemma SettingsAreWritable(order: seq<string>, m: map<string, string>)
    requires Enumerates(order, m.Keys) && StandsUnquoted(order, m)
    ensures AllWritable(AsSettings(order, m))
  {
    var ss := AsSettings(order, m);
    forall i | 0 <= i < |ss| ensures Writable(ss[i], i == |ss| - 1) {
      assert order[i] in m;
    }
  }

  lemma SettingsList(order: seq<string>, m: map<string, string>)
    requires Enumerates(order, m.Keys)
    ensures DistinctKeys(AsSettings(order, m)) && Lists(AsSettings(order, m), m)
  {
    var ss := AsSettings(order, m);
    forall k | k in m ensures exists i :: 0 <= i < |ss| && ss[i].key == k {
      var i :| 0 <= i < |order| && order[i] == k;
      assert ss[i].key == k;
    }
  }

  lemma PrintedIsReadBack(order: seq<string>, m: map<string, string>)
    requires Enumerates(order, m.Keys) && PROTOCOL !in m && StandsUnquoted(order, m)
    ensures Settings(Printed(order, m)) == Ok(m[PROTOCOL := POSTGRESQL])
  {
    var ss := AsSettings(order, m);
    PrintedIsWritten(order, m);
    SettingsAreWritable(order, m);
    SettingsList(order, m);
    assert forall i :: 0 <= i < |order| ==> ss[i].key == order[i];
    assert "dbname" !in m;
    RoundTripDistinct(ss, m);
  }

  // ---------------------------------------------------------------------------------------------
  // Nothing else is read back
  // ---------------------------------------------------------------------------------------------

  /** What follows the first value. */
  function Behind(order: seq<string>, m: map<string, string>): string
    requires order != [] && forall k :: k in order ==> k in m
  {
    if |order| == 1 then "" else " " + Printed(order[1..], m)
  }

  lemma PrintedSplit(order: seq<string>, m: map<string, string>)
    requires order != [] && forall k :: k in order ==> k in m
    ensures Printed(order, m) == order[0] + ['='] + (m[order[0]] + Behind(order, m))
  {
  }

  lemma SizeOfSetting(k: string, right: string)
    ensures Size(k + ['='] + right) == Size(k) + 1 + Size(right)
  {
    SizeConcat(k, ['=']);
    SizeConcat(k + ['='], right);
    assert ['='][1..] == "";
  }

  lemma {:induction false} SizeOfPrinted(order: seq<string>, m: map<string, string>)
    requires order != [] && forall k :: k in order ==> k in m
    ensures Size(Printed(order, m)) + 1 == Cost(order, m)
  {
    var tail, behind := order[1..], Behind(order, m);
    PrintedSplit(order, m);
    SizeOfSetting(order[0], m[order[0]] + behind);
    SizeConcat(m[order[0]], behind);
    if |order| > 1 {
      SizeOfPrinted(tail, m);
      assert behind[1..] == Printed(tail, m);
    }
  }

  lemma FirstOfSetting(k: string, right: string)
    requires IsKey(k) && k != "dbname" && HasFirst(k + ['='] + right)
    ensures var f := FirstOf(k + ['='] + right);
            f.key == k && ReadValue(TrimLeft(right)) == Ok((f.value, f.rest))
  {
    var dsn := k + ['='] + right;
    IndexOfFirst(k, '=', right);
    TrimPadded("", k, "");
    assert "" + k + "" == k && dsn[..|k|] == k && dsn[|k| + 1..] == right;
  }

  lemma FirstOfPrinted(order: seq<string>, m: map<string, string>)
    requires order != [] && (forall k :: k in order ==> k in m) && IsKey(order[0]) && order[0] != "dbname"
    requires HasFirst(Printed(order, m))
    ensures var f := FirstOf(Printed(order, m));
            f.key == order[0] && ReadValue(TrimLeft(m[order[0]] + Behind(order, m))) == Ok((f.value, f.rest))
  {
    PrintedSplit(order, m);
    FirstOfSetting(order[0], m[order[0]] + Behind(order, m));
  }

  lemma {:induction false} BareLengthOfPrefix(a: string, b: string)
    requires BareLength(a + b) == Some(|a|)
    ensures BareLength(a) == Some(|a|)
    decreases |a|
  {
    if a != "" {
      var n := if a[0] == '\\' then 2 else 1;
      assert (a + b)[0] == a[0] && |a| >= n;
      assert (a + b)[n..] == a[n..] + b;
      BareLengthOfPrefix(a[n..], b);
    }
  }

  lemma BareValueIsVerbatim(v: string, tail: string)
    requires v != "" && !IsSpace(v[0]) && v[0] != '\'' && BareLength(v + tail) == Some(|v|) && Decode(v) == v
    ensures Verbatim(v)
  {
    BareLengthOfPrefix(v, tail);
    DecodeShrinks(v);
    ScannableOfBareLength(v);
  }

  /** A value that is read back and leaves enough text for the others stands as it is. */
  lemma TightValue(v: string, next: string, rest: string)
    requires next != "" && !IsSpace(next[0]) && Size(next) > 0
    requires ReadValue(TrimLeft(v + (" " + next))) == Ok((v, rest)) && Size(next) <= Size(rest)
    ensures Verbatim(v) && rest == next
  {
    var whole := v + (" " + next);
    var t := TrimLeft(whole);
    assert Size(whole) == Size(v) + 1 + Size(next) by {
      SizeConcat(v, " " + next);
      assert (" " + next)[1..] == next;
    }
    SizeTrimLeft(whole);
    SizeValue(t);
    var end := BareLength(t).value;
    SizeDecode(t[..end]);
    if end < |t| {
      SizeAround(t, end);
      SizeTrimLeft(t[end + 1..]);
    }
    assert t == whole && t[..end] == v;
    assert whole[|v| + 1..] == next;
    BareValueIsVerbatim(v, " " + next);
  }

  /** The entries of a printed map are all read back, on top of what is there already. */
  predicate IsReadBack(order: seq<string>, m: map<string, string>, acc: map<string, string>)
    requires forall k :: k in order ==> k in m
  {
    var read := ReadSettings(Printed(order, m), acc);
    read.Ok? && AreSet(order, m, read.value)
  }

  predicate Fresh(order: seq<string>, acc: map<string, string>) {
    Distinct(order) && forall k :: k in order ==> k !in acc && IsKey(k) && k != "dbname"
  }

  /** The first value is read as it was meant: there is no room for setting it again. */
  lemma FirstValueIsRead(order: seq<string>, m: map<string, string>, acc: map<string, string>)
    requires order != [] && (forall k :: k in order ==> k in m) && Fresh(order, acc) && IsReadBack(order, m, acc)
    ensures HasFirst(Printed(order, m)) && FirstOf(Printed(order, m)).key == order[0]
    ensures FirstOf(Printed(order, m)).value == m[order[0]]
    ensures ReadSettings(Printed(order, m), acc)
         == ReadSettings(FirstOf(Printed(order, m)).rest, acc[order[0] := m[order[0]]])
  {
    var dsn := Printed(order, m);
    assert order[0] in order;
    SizeOfPrinted(order, m);
    ReadFirst(dsn, acc);
    FirstOfPrinted(order, m);
    if FirstOf(dsn).value != m[order[0]] {
      AffordsLess(dsn, acc, order, m);
    }
  }

  lemma OtherKeys(order: seq<string>, m: map<string, string>, acc: map<string, string>)
    requires order != [] && (forall k :: k in order ==> k in m) && Fresh(order, acc)
    ensures forall k :: k in order[1..] ==> k in order && k in m
    ensures Fresh(order[1..], acc[order[0] := m[order[0]]]) && ToBeSet(order[1..], m, acc[order[0] := m[order[0]]])
    ensures forall i :: 0 < i < |order| ==> order[i] == order[1..][i - 1]
  {
  }

  /** So the first value stands as it is, and the others are what is left. */
  lemma FirstValueStands(order: seq<string>, m: map<string, string>, acc: map<string, string>)
    requires |order| > 1 && (forall k :: k in order ==> k in m) && Fresh(order, acc) && IsReadBack(order, m, acc)
    ensures forall k :: k in order[1..] ==> k in m
    ensures Verbatim(m[order[0]]) && IsReadBack(order[1..], m, acc[order[0] := m[order[0]]])
  {
    var tail, next := order[1..], acc[order[0] := m[order[0]]];
    var f := FirstOf(Printed(order, m));
    FirstValueIsRead(order, m, acc);
    OtherKeys(order, m, acc);
    assert AreSet(tail, m, ReadSettings(f.rest, next).value);
    Affords(f.rest, next, tail, m);
    SizeOfPrinted(tail, m);
    SizeOfRest(tail, m);
    FirstOfPrinted(order, m);
    TightValue(m[order[0]], Printed(tail, m), f.rest);
  }

  lemma LastValueStands(order: seq<string>, m: map<string, string>, acc: map<string, string>)
    requires |order| == 1 && (forall k :: k in order ==> k in m) && Fresh(order, acc) && IsReadBack(order, m, acc)
    ensures m[order[0]] == "" || Verbatim(m[order[0]])
  {
    var v := m[order[0]];
    FirstValueIsRead(order, m, acc);
    FirstOfPrinted(order, m);
    assert v + "" == v;
    if v != "" { RawValueOnlyIf(v); }
  }

  lemma {:induction false} ReadBackOnlyIf(order: seq<string>, m: map<string, string>, acc: map<string, string>)
    requires (forall k :: k in order ==> k in m) && Fresh(order, acc) && IsReadBack(order, m, acc)
    ensures StandsUnquoted(order, m)
  {
    if |order| == 1 {
      LastValueStands(order, m, acc);
    } else if order != [] {
      FirstValueStands(order, m, acc);
      OtherKeys(order, m, acc);
      ReadBackOnlyIf(order[1..], m, acc[order[0] := m[order[0]]]);
    }
  }

  lemma SizeOfRest(order: seq<string>, m: map<string, string>)
    requires order != [] && (forall k :: k in order ==> k in m) && IsKey(order[0])
    ensures Size(Printed(order, m)) > 0 && Printed(order, m) != "" && !IsSpace(Printed(order, m)[0])
  {
    PrintedSplit(order, m);
    SizeOfSetting(order[0], m[order[0]] + Behind(order, m));
    assert Printed(order, m)[0] == order[0][0];
  }

  /** For every map and every iteration order: the printed string is read back if and only if the settings can stand
      unquoted. (The protocol is not among them, because it is never printed.) */
  lemma PrintedIsReadBackExactly(order: seq<string>, m: map<string, string>)
    requires Enumerates(order, m.Keys) && PROTOCOL !in m
    ensures Settings(Printed(order, m)) == Ok(m[PROTOCOL := POSTGRESQL]) <==> StandsUnquoted(order, m)
  {
    var dsn := Printed(order, m);
    if StandsUnquoted(order, m) {
      PrintedIsReadBack(order, m);
    } else if Settings(dsn) == Ok(m[PROTOCOL := POSTGRESQL]) {
      var res := ReadSettings(dsn, map[]).value;
      KeysAreKeys(dsn, map[]);
      forall k | k in order ensures k in res && res[k] == m[k] {
        assert k in m && res[PROTOCOL := POSTGRESQL][k] == m[PROTOCOL := POSTGRESQL][k];
      }
      ReadBackOnlyIf(order, m, map[]);
    }
  }

  /** Prints the kept properties in `order`, the order in which the map happened to be iterated. The printed string parses
      back to them, plus the protocol, exactly when they can stand unquoted. The protocol is a wrapper property. */
  method PrepareDsn(properties: map<string, string>, wrapperProperties: set<string>, endpoint: Option<Endpoint>)
    returns (dsn: string, ghost order: seq<string>)
    ensures Enumerates(order, Expected(properties, wrapperProperties, endpoint).Keys)
    ensures dsn == Printed(order, Expected(properties, wrapperProperties, endpoint))
    ensures PROTOCOL in wrapperProperties ==>
              var expected := Expected(properties, wrapperProperties, endpoint);
              (Settings(dsn) == Ok(expected[PROTOCOL := POSTGRESQL]) <==> StandsUnquoted(order, expected))
  {
    ghost var expected := Expected(properties, wrapperProperties, endpoint);
    dsn, order := "", [];
    var todo := properties.Keys;
    while todo != {}
      invariant todo <= properties.Keys
      invariant Enumerates(order, expected.Keys - todo)
      invariant dsn == Printed(order, expected)
      invariant order != [] ==> dsn != ""
      decreases todo
    {
      var k :| k in todo;
      todo := todo - {k};
      if IsKept(k, wrapperProperties) {
        PrintedAppend(order, k, expected);
        order := order + [k];
        if dsn != "" {
          dsn := dsn + " ";
        }
        dsn := dsn + (k + "=" + Effective(k, properties[k], endpoint));
      }
    }
    if PROTOCOL in wrapperProperties {
      PrintedIsReadBackExactly(order, expected);
    }
  }
}
