/** Tracking a session and carrying it over: the session state service, the part of the plugin service that switches
    connections, and why a switch preserves what is tracked. */
module SessionService {
  import opened Strings
  import opened SqlText
  import opened Topology
  import opened Dialects
  import opened SessionTransfer
  import opened SchemaTransfer

  type ConnId = nat

  // ---------------------------------------------------------------------------------------------
  // Session state
  // ---------------------------------------------------------------------------------------------

  /** `SessionStateField`. */
  datatype Field<T(==)> = Field(value: Option<T>, pristineValue: Option<T>) {
    predicate CanRestorePristine() {
      pristineValue.Some? && (value.Some? ==> value != pristineValue)
    }

    /** `SetupPristine...` followed by `Set...`. */
    function Noting(found: Option<T>): Field<T> {
      match found
      case None => this
      case Some(v) => Field(Some(v), if pristineValue.Some? then pristineValue else value)
    }

    /** `ResetPristineValue` followed by `SetupPristine...`, when there is a value. */
    function Settled(): Field<T> {
      if value.Some? then Field(value, value) else this
    }
  }

  datatype SessionState = SessionState(autoCommit: Field<bool>, readOnly: Field<bool>, catalog: Field<string>,
                                       schema: Field<string>, isolation: Field<Isolation>) {
    function GetValues(): Values {
      Values(autoCommit.value, readOnly.value, catalog.value, schema.value, isolation.value)
    }

    /** `Copy` takes the values only. */
    function Copy(): SessionState {
      SessionState(Field(autoCommit.value, None), Field(readOnly.value, None), Field(catalog.value, None),
                   Field(schema.value, None), Field(isolation.value, None))
    }

    function Noting(found: Values): SessionState {
      SessionState(autoCommit.Noting(found.autoCommit), readOnly.Noting(found.readOnly), catalog.Noting(found.catalog),
                   schema.Noting(found.schema), isolation.Noting(found.isolation))
    }

    function Settled(): SessionState {
      SessionState(autoCommit.Settled(), readOnly.Settled(), catalog.Settled(), schema.Settled(), isolation.Settled())
    }
  }

  const EMPTY := SessionState(Field(None, None), Field(None, None), Field(None, None), Field(None, None), Field(None, None))

  /** What the dialect has no query for is never tracked. */
  predicate Supported(d: Dialect, v: Values) {
    match d
    case MySQL => v.schema == None
    case Postgres => v.autoCommit == None && v.catalog == None
  }

  // ---------------------------------------------------------------------------------------------
  // The queries of a transfer
  // ---------------------------------------------------------------------------------------------

  function Ask(q: Option<Option<string>>): seq<Option<string>> {
    match q
    case None => []
    case Some(query) => [query]
  }

  /** One query for every tracked value, in this order; `None` where the dialect has no such query. */
  function QueriesOf(d: Dialect, v: Values): seq<Option<string>> {
    Ask(if v.autoCommit.Some? then Some(AutoCommitQuery(d, v.autoCommit.value)) else None)
    + Ask(if v.readOnly.Some? then Some(ReadOnlyQuery(d, v.readOnly.value)) else None)
    + Ask(if v.catalog.Some? then Some(CatalogQuery(d, v.catalog.value)) else None)
    + Ask(if v.schema.Some? then Some(SchemaQuery(d, v.schema.value)) else None)
    + Ask(if v.isolation.Some? then Some(IsolationQuery(d, v.isolation.value)) else None)
  }

  /** What is issued, one query after the other until one is missing or not accepted, and whether all went through. */
  function Issued(queries: seq<Option<string>>, accepts: string -> bool): (seq<string>, bool) {
    if queries == [] then ([], true)
    else
      match queries[0]
      case None => ([], false)
      case Some(q) =>
        if !accepts(q) then ([q], false)
        else
          var rest := Issued(queries[1..], accepts);
          ([q] + rest.0, rest.1)
  }

  lemma {:induction false} IssuedConcat(a: seq<Option<string>>, b: seq<Option<string>>, accepts: string -> bool)
    ensures var first, second := Issued(a, accepts), Issued(b, accepts);
            Issued(a + b, accepts) == if first.1 then (first.0 + second.0, second.1) else first
  {
    if a == [] {
      assert a + b == b && [] + Issued(b, accepts).0 == Issued(b, accepts).0;
    } else {
      assert (a + b)[1..] == a[1..] + b;
      IssuedConcat(a[1..], b, accepts);
      if a[0].Some? {
        assert [a[0].value] + (Issued(a[1..], accepts).0 + Issued(b, accepts).0)
            == [a[0].value] + Issued(a[1..], accepts).0 + Issued(b, accepts).0;
      }
    }
  }

  /** With everything supported, nothing is missing: a transfer fails only when the connection refuses a query. */
  lemma NothingIsMissing(d: Dialect, v: Values, accepts: string -> bool)
    requires Supported(d, v)
    ensures forall q :: q in QueriesOf(d, v) ==> q.Some?
    ensures !Issued(QueriesOf(d, v), accepts).1 ==> exists q :: Some(q) in QueriesOf(d, v) && !accepts(q)
  {
    FailureIsRefusal(QueriesOf(d, v), accepts);
  }

  lemma {:induction false} FailureIsRefusal(queries: seq<Option<string>>, accepts: string -> bool)
    requires forall q :: q in queries ==> q.Some?
    ensures !Issued(queries, accepts).1 ==> exists q :: Some(q) in queries && !accepts(q)
  {
    if queries != [] && accepts(queries[0].value) {
      FailureIsRefusal(queries[1..], accepts);
      if !Issued(queries[1..], accepts).1 {
        var q :| Some(q) in queries[1..] && !accepts(q);
        assert Some(q) in queries;
      }
    } else if queries != [] {
      assert Some(queries[0].value) in queries;
    }
  }

  // ---------------------------------------------------------------------------------------------
  // Reading the queries back
  // ---------------------------------------------------------------------------------------------

  /** A tracker fed with queries one after the other. */
  function Feed(track: (Values, string) -> Option<Values>, v: Values, queries: seq<Option<string>>): Option<Values>
    decreases |queries|
  {
    if queries == [] then Some(v)
    else if queries[0] == None then None
    else
      match track(v, queries[0].value)
      case None => None
      case Some(after) => Feed(track, after, queries[1..])
  }

  lemma {:induction false} FeedConcat(track: (Values, string) -> Option<Values>, v: Values, a: seq<Option<string>>,
                                      b: seq<Option<string>>)
    ensures Feed(track, v, a + b) == match Feed(track, v, a) case None => None case Some(w) => Feed(track, w, b)
    decreases |a|
  {
    if a == [] {
      assert a + b == b;
    } else {
      assert (a + b)[1..] == a[1..] + b;
      if a[0].Some? && track(v, a[0].value).Some? {
        FeedConcat(track, track(v, a[0].value).value, a[1..], b);
      }
    }
  }

  lemma FeedOne(track: (Values, string) -> Option<Values>, v: Values, q: string, w: Values)
    requires track(v, q) == Some(w)
    ensures Feed(track, v, [Some(q)]) == Some(w)
  {
    assert [Some(q)][1..] == [];
  }

  /** What `UpdateState` makes of queries run one after the other. */
  function Replay(d: Dialect, v: Values, queries: seq<Option<string>>): Option<Values> {
    Feed((w, q) => Track(d, w, q), v, queries)
  }

  lemma ReplayConcat(d: Dialect, v: Values, w: Values, a: seq<Option<string>>, b: seq<Option<string>>)
    requires Replay(d, v, a) == Some(w)
    ensures Replay(d, v, a + b) == Replay(d, w, b)
  {
    FeedConcat((w, q) => Track(d, w, q), v, a, b);
  }

  lemma TrackOverlays(d: Dialect, v: Values, query: string, found: Values)
    requires Track(d, NOTHING, query) == Some(found)
    ensures Track(d, v, query) == Some(Overlay(v, found))
  {
    OverlayOnNothing(LastDetected(d, Separate(query)).value);
  }

  /** A tracked value whose query sets it, and nothing else, is put back by that query. */
  lemma ReplayOne(d: Dialect, v: Values, query: Option<string>, found: Values)
    requires query.Some? && Track(d, NOTHING, query.value) == Some(found)
    ensures Replay(d, v, [query]) == Some(Overlay(v, found))
  {
    TrackOverlays(d, v, query.value, found);
    FeedOne((w, q) => Track(d, w, q), v, query.value, Overlay(v, found));
  }

  lemma AutoCommitTracked(value: bool)
    ensures Track(MySQL, NOTHING, AutoCommitQuery(MySQL, value).value) == Some(NOTHING.(autoCommit := Some(value)))
  {
    var ws := ["set", AutoCommitWord(value)];
    AutoCommitText(value);
    AutoCommitIsDetected(value);
    SeparateBarePhrase(ws);
    TrackSingle(MySQL, NOTHING, Phrase(ws), Phrase(ws), NOTHING.(autoCommit := Some(value)));
  }

  lemma ReadOnlyTracked(d: Dialect, value: bool)
    ensures Track(d, NOTHING, ReadOnlyQuery(d, value).value) == Some(NOTHING.(readOnly := Some(value)))
  {
    var ws := ReadWords(d, value);
    FixedTextsArePlain(d, value, ReadCommitted);
    ReadOnlyIsDetected(d, value);
    SeparateBarePhrase(ws);
    TrackSingle(d, NOTHING, Phrase(ws), Phrase(ws), NOTHING.(readOnly := Some(value)));
  }

  lemma IsolationTracked(d: Dialect, level: Isolation)
    ensures Track(d, NOTHING, IsolationQuery(d, level).value) == Some(NOTHING.(isolation := Some(level)))
  {
    var ws := SessionWords(d) + ["isolation", "level"] + LevelWords(level);
    FixedTextsArePlain(d, true, level);
    IsolationIsDetected(d, level);
    SeparateBarePhrase(ws);
    TrackSingle(d, NOTHING, Phrase(ws), Phrase(ws), NOTHING.(isolation := Some(level)));
  }

  /** Names that come back: catalogs that are words, schemas that survive. */
  predicate NamesSurvive(v: Values) {
    && (v.catalog.Some? ==> IsWord(v.catalog.value))
    && (v.schema.Some? ==> Survives(v.schema.value))
  }

  lemma ReplayAutoCommit(d: Dialect, v: Values, w: Values)
    requires Supported(d, w) && v == NOTHING
    ensures Replay(d, v, Ask(if w.autoCommit.Some? then Some(AutoCommitQuery(d, w.autoCommit.value)) else None))
         == Some(v.(autoCommit := w.autoCommit))
  {
    if w.autoCommit.Some? {
      AutoCommitTracked(w.autoCommit.value);
      ReplayOne(d, v, AutoCommitQuery(d, w.autoCommit.value), NOTHING.(autoCommit := w.autoCommit));
    }
  }

  lemma ReplayReadOnly(d: Dialect, v: Values, w: Values)
    requires v.readOnly == None
    ensures Replay(d, v, Ask(if w.readOnly.Some? then Some(ReadOnlyQuery(d, w.readOnly.value)) else None))
         == Some(v.(readOnly := w.readOnly))
  {
    if w.readOnly.Some? {
      ReadOnlyTracked(d, w.readOnly.value);
      ReplayOne(d, v, ReadOnlyQuery(d, w.readOnly.value), NOTHING.(readOnly := w.readOnly));
    }
  }

  lemma ReplayCatalog(d: Dialect, v: Values, w: Values)
    requires Supported(d, w) && NamesSurvive(w) && v.catalog == None
    ensures Replay(d, v, Ask(if w.catalog.Some? then Some(CatalogQuery(d, w.catalog.value)) else None))
         == Some(v.(catalog := w.catalog))
  {
    if w.catalog.Some? {
      CatalogSurvivesExactly(w.catalog.value);
      ReplayOne(d, v, CatalogQuery(d, w.catalog.value), NOTHING.(catalog := w.catalog));
    }
  }

  lemma ReplaySchema(d: Dialect, v: Values, w: Values)
    requires Supported(d, w) && NamesSurvive(w) && v.schema == None
    ensures Replay(d, v, Ask(if w.schema.Some? then Some(SchemaQuery(d, w.schema.value)) else None))
         == Some(v.(schema := w.schema))
  {
    if w.schema.Some? {
      SchemaSurvivesExactly(w.schema.value);
      ReplayOne(d, v, SchemaQuery(d, w.schema.value), NOTHING.(schema := w.schema));
    }
  }

  lemma ReplayIsolation(d: Dialect, v: Values, w: Values)
    requires v.isolation == None
    ensures Replay(d, v, Ask(if w.isolation.Some? then Some(IsolationQuery(d, w.isolation.value)) else None))
         == Some(v.(isolation := w.isolation))
  {
    if w.isolation.Some? {
      IsolationTracked(d, w.isolation.value);
      ReplayOne(d, v, IsolationQuery(d, w.isolation.value), NOTHING.(isolation := w.isolation));
    }
  }

  /** Reading the queries of a transfer back from nothing rebuilds every tracked value. */
  lemma TransferPreservesMeaning(d: Dialect, v: Values)
    requires Supported(d, v) && NamesSurvive(v)
    ensures Replay(d, NOTHING, QueriesOf(d, v)) == Some(v)
  {
    var a := Ask(if v.autoCommit.Some? then Some(AutoCommitQuery(d, v.autoCommit.value)) else None);
    var r := Ask(if v.readOnly.Some? then Some(ReadOnlyQuery(d, v.readOnly.value)) else None);
    var c := Ask(if v.catalog.Some? then Some(CatalogQuery(d, v.catalog.value)) else None);
    var s := Ask(if v.schema.Some? then Some(SchemaQuery(d, v.schema.value)) else None);
    var i := Ask(if v.isolation.Some? then Some(IsolationQuery(d, v.isolation.value)) else None);
    var v1 := NOTHING.(autoCommit := v.autoCommit);
    var v2 := v1.(readOnly := v.readOnly);
    var v3 := v2.(catalog := v.catalog);
    var v4 := v3.(schema := v.schema);
    ReplayAutoCommit(d, NOTHING, v);
    ReplayReadOnly(d, v1, v);
    ReplayCatalog(d, v2, v);
    ReplaySchema(d, v3, v);
    ReplayIsolation(d, v4, v);
    ReplayConcat(d, NOTHING, v1, a, r);
    ReplayConcat(d, NOTHING, v2, a + r, c);
    ReplayConcat(d, NOTHING, v3, a + r + c, s);
    ReplayConcat(d, NOTHING, v4, a + r + c + s, i);
  }
}
