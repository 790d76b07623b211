/** The session state service and the connection-switching part of the plugin service, as the code has them. Queries
    run, connections closed and transactions rolled back are kept as logs. */
module PluginService {
  import opened Strings
  import opened SqlText
  import opened Topology
  import opened Dialects
  import opened SchemaTransfer
  import opened SessionService
  import opened SessionTransfer

  function OnConn(conn: ConnId, queries: seq<string>): (r: seq<(ConnId, string)>)
    ensures |r| == |queries| && forall i :: 0 <= i < |r| ==> r[i] == (conn, queries[i])
  {
    seq(|queries|, i requires 0 <= i < |queries| => (conn, queries[i]))
  }

  /** The dialect as the services see it: its methods. */
  datatype DatabaseDialect = DatabaseDialect(
    getSetAutoCommitQuery: bool -> Option<string>,
    getSetReadOnlyQuery: bool -> Option<string>,
    getSetCatalogQuery: string -> Option<string>,
    getSetSchemaQuery: string -> Option<string>,
    getSetTransactionIsolationQuery: Isolation -> Option<string>,
    detect: string -> Option<Values>)

  function DialectOf(d: Dialect): DatabaseDialect {
    DatabaseDialect(v => AutoCommitQuery(d, v), v => ReadOnlyQuery(d, v), v => CatalogQuery(d, v),
                    v => SchemaQuery(d, v), v => IsolationQuery(d, v), statement => Detect(d, statement))
  }

  function AskFor<T>(query: T -> Option<string>, value: Option<T>): seq<Option<string>> {
    match value
    case None => []
    case Some(v) => [query(v)]
  }

  /** One query for every tracked value. */
  function QueriesBy(d: DatabaseDialect, v: Values): seq<Option<string>> {
    AskFor(d.getSetAutoCommitQuery, v.autoCommit) + AskFor(d.getSetReadOnlyQuery, v.readOnly)
    + AskFor(d.getSetCatalogQuery, v.catalog) + AskFor(d.getSetSchemaQuery, v.schema)
    + AskFor(d.getSetTransactionIsolationQuery, v.isolation)
  }

  lemma QueriesByDialect(d: Dialect, v: Values)
    ensures QueriesBy(DialectOf(d), v) == QueriesOf(d, v)
  {
    var b := DialectOf(d);
    assert AskFor(b.getSetAutoCommitQuery, v.autoCommit)
        == Ask(if v.autoCommit.Some? then Some(AutoCommitQuery(d, v.autoCommit.value)) else None);
    assert AskFor(b.getSetReadOnlyQuery, v.readOnly)
        == Ask(if v.readOnly.Some? then Some(ReadOnlyQuery(d, v.readOnly.value)) else None);
    assert AskFor(b.getSetCatalogQuery, v.catalog)
        == Ask(if v.catalog.Some? then Some(CatalogQuery(d, v.catalog.value)) else None);
    assert AskFor(b.getSetSchemaQuery, v.schema)
        == Ask(if v.schema.Some? then Some(SchemaQuery(d, v.schema.value)) else None);
    assert AskFor(b.getSetTransactionIsolationQuery, v.isolation)
        == Ask(if v.isolation.Some? then Some(IsolationQuery(d, v.isolation.value)) else None);
  }

  function Pristine<T>(f: Field<T>): Option<T> {
    if f.CanRestorePristine() then f.pristineValue else None
  }

  /** The pristine values to put back: those that are known and may differ from the current ones. */
  function PristineValues(s: SessionState): Values {
    Values(Pristine(s.autoCommit), Pristine(s.readOnly), Pristine(s.catalog), Pristine(s.schema), Pristine(s.isolation))
  }

  /** A copy has no pristine values, so no query puts any of them back. */
  lemma CopyHasNothingPristine(d: DatabaseDialect, s: SessionState, accepts: string -> bool)
    ensures QueriesBy(d, PristineValues(s.Copy())) == [] && Issued(QueriesBy(d, PristineValues(s.Copy())), accepts) == ([], true)
  {
    assert PristineValues(s.Copy()) == NOTHING;
  }

  lemma OnConnConcat(conn: ConnId, a: seq<string>, b: seq<string>)
    ensures OnConn(conn, a + b) == OnConn(conn, a) + OnConn(conn, b)
  {
  }

  lemma IssuedOne(q: Option<string>, accepts: string -> bool)
    ensures Issued([q], accepts) == (if q.Some? then [q.value] else [], q.Some? && accepts(q.value))
  {
    assert [q][1..] == [];
    assert q.Some? ==> [q.value] + [] == [q.value];
  }

  /** What has been put onto a connection when `done` went through and `more` is next. */
  ghost predicate HasPut(executed: seq<(ConnId, string)>, before: seq<(ConnId, string)>, conn: ConnId,
                         queries: seq<Option<string>>, accepts: string -> bool, ok: bool) {
    ok == Issued(queries, accepts).1 && executed == before + OnConn(conn, Issued(queries, accepts).0)
  }

  lemma PutsMore(start: seq<(ConnId, string)>, middle: seq<(ConnId, string)>, end: seq<(ConnId, string)>, conn: ConnId,
                 done: seq<Option<string>>, more: seq<Option<string>>, accepts: string -> bool, ok: bool)
    requires HasPut(middle, start, conn, done, accepts, true) && HasPut(end, middle, conn, more, accepts, ok)
    ensures HasPut(end, start, conn, done + more, accepts, ok)
  {
    var first, second := Issued(done, accepts), Issued(more, accepts);
    IssuedConcat(done, more, accepts);
    OnConnConcat(conn, first.0, second.0);
    Associates(start, OnConn(conn, first.0), OnConn(conn, second.0));
  }

  lemma Associates<T>(a: seq<T>, b: seq<T>, c: seq<T>)
    ensures a + b + c == a + (b + c)
  {
  }

  /** After a failure nothing more is put. */
  lemma PutsNoMore(start: seq<(ConnId, string)>, end: seq<(ConnId, string)>, conn: ConnId,
                   done: seq<Option<string>>, more: seq<Option<string>>, accepts: string -> bool)
    requires HasPut(end, start, conn, done, accepts, false)
    ensures HasPut(end, start, conn, done + more, accepts, false)
  {
    IssuedConcat(done, more, accepts);
  }

  lemma PutsNothing(start: seq<(ConnId, string)>, conn: ConnId, accepts: string -> bool)
    ensures HasPut(start, start, conn, [], accepts, true)
  {
    assert start + OnConn(conn, []) == start;
  }

  class SessionStateService {
    const dialect: DatabaseDialect
    const transferEnabled: bool
    const resetEnabled: bool
    var sessionState: SessionState
    var copySessionState: Option<SessionState>
    var executed: seq<(ConnId, string)>

    constructor (dialect: DatabaseDialect, transferEnabled: bool, resetEnabled: bool)
      ensures this.dialect == dialect && sessionState == EMPTY && copySessionState == None && executed == []
    {
      this.dialect, this.transferEnabled, this.resetEnabled := dialect, transferEnabled, resetEnabled;
      sessionState, copySessionState, executed := EMPTY, None, [];
    }

    /** What has been found in a statement is noted: each value found becomes the current one, and what it replaces the
        pristine one, unless there is one already. */
    method Note(found: Values)
      modifies `sessionState
      ensures sessionState == if transferEnabled then old(sessionState).Noting(found) else old(sessionState)
    {
      if !transferEnabled { return; }
      if found.autoCommit.Some? { sessionState := sessionState.(autoCommit := sessionState.autoCommit.Noting(found.autoCommit)); }
      if found.readOnly.Some? { sessionState := sessionState.(readOnly := sessionState.readOnly.Noting(found.readOnly)); }
      if found.schema.Some? { sessionState := sessionState.(schema := sessionState.schema.Noting(found.schema)); }
      if found.catalog.Some? { sessionState := sessionState.(catalog := sessionState.catalog.Noting(found.catalog)); }
      if found.isolation.Some? { sessionState := sessionState.(isolation := sessionState.isolation.Noting(found.isolation)); }
    }

    /** `Begin` refuses while a transfer is under way. */
    method Begin() returns (ok: bool)
      modifies `copySessionState
      ensures ok <==> (!transferEnabled && !resetEnabled) || old(copySessionState) == None
      ensures copySessionState == if ok && (transferEnabled || resetEnabled) then Some(sessionState.Copy())
                                  else old(copySessionState)
    {
      if !transferEnabled && !resetEnabled { return true; }
      if copySessionState.Some? { return false; }
      copySessionState := Some(sessionState.Copy());
      return true;
    }

    method Complete()
      modifies `copySessionState
      ensures copySessionState == None
    {
      copySessionState := None;
    }

    method Reset()
      modifies `sessionState
      ensures sessionState == EMPTY
    {
      sessionState := EMPTY;
    }

    /** One query, if there is one for it, on one connection. */
    method Exec(conn: ConnId, query: Option<string>, accepts: string -> bool) returns (ok: bool)
      modifies `executed
      ensures HasPut(executed, old(executed), conn, [query], accepts, ok)
    {
      IssuedOne(query, accepts);
      assert executed + OnConn(conn, []) == executed;
      if query == None { return false; }
      executed := executed + [(conn, query.value)];
      assert OnConn(conn, [query.value]) == [(conn, query.value)];
      return accepts(query.value);
    }

    method PutAutoCommit(conn: ConnId, accepts: string -> bool) returns (ok: bool)
      modifies `sessionState, `executed
      ensures HasPut(executed, old(executed), conn,
                     AskFor(dialect.getSetAutoCommitQuery, old(sessionState).autoCommit.value), accepts, ok)
      ensures sessionState == old(sessionState).(autoCommit := old(sessionState).autoCommit.Settled())
    {
      PutsNothing(executed, conn, accepts);
      if sessionState.autoCommit.value == None { return true; }
      sessionState := sessionState.(autoCommit := sessionState.autoCommit.Settled());
      ok := Exec(conn, dialect.getSetAutoCommitQuery(sessionState.autoCommit.value.value), accepts);
    }

    method PutReadOnly(conn: ConnId, accepts: string -> bool) returns (ok: bool)
      modifies `sessionState, `executed
      ensures HasPut(executed, old(executed), conn,
                     AskFor(dialect.getSetReadOnlyQuery, old(sessionState).readOnly.value), accepts, ok)
      ensures sessionState == old(sessionState).(readOnly := old(sessionState).readOnly.Settled())
    {
      PutsNothing(executed, conn, accepts);
      if sessionState.readOnly.value == None { return true; }
      sessionState := sessionState.(readOnly := sessionState.readOnly.Settled());
      ok := Exec(conn, dialect.getSetReadOnlyQuery(sessionState.readOnly.value.value), accepts);
    }

    method PutCatalog(conn: ConnId, accepts: string -> bool) returns (ok: bool)
      modifies `sessionState, `executed
      ensures HasPut(executed, old(executed), conn,
                     AskFor(dialect.getSetCatalogQuery, old(sessionState).catalog.value), accepts, ok)
      ensures sessionState == old(sessionState).(catalog := old(sessionState).catalog.Settled())
    {
      PutsNothing(executed, conn, accepts);
      if sessionState.catalog.value == None { return true; }
      sessionState := sessionState.(catalog := sessionState.catalog.Settled());
      ok := Exec(conn, dialect.getSetCatalogQuery(sessionState.catalog.value.value), accepts);
    }

    method PutSchema(conn: ConnId, accepts: string -> bool) returns (ok: bool)
      modifies `sessionState, `executed
      ensures HasPut(executed, old(executed), conn,
                     AskFor(dialect.getSetSchemaQuery, old(sessionState).schema.value), accepts, ok)
      ensures sessionState == old(sessionState).(schema := old(sessionState).schema.Settled())
    {
      PutsNothing(executed, conn, accepts);
      if sessionState.schema.value == None { return true; }
      sessionState := sessionState.(schema := sessionState.schema.Settled());
      ok := Exec(conn, dialect.getSetSchemaQuery(sessionState.schema.value.value), accepts);
    }

    method PutIsolation(conn: ConnId, accepts: string -> bool) returns (ok: bool)
      modifies `sessionState, `executed
      ensures HasPut(executed, old(executed), conn,
                     AskFor(dialect.getSetTransactionIsolationQuery, old(sessionState).isolation.value), accepts, ok)
      ensures sessionState == old(sessionState).(isolation := old(sessionState).isolation.Settled())
    {
      PutsNothing(executed, conn, accepts);
      if sessionState.isolation.value == None { return true; }
      sessionState := sessionState.(isolation := sessionState.isolation.Settled());
      ok := Exec(conn, dialect.getSetTransactionIsolationQuery(sessionState.isolation.value.value), accepts);
    }

    /** Every tracked value is put onto the new connection, in a fixed order, until a query is missing or refused. */
    method ApplyCurrentSessionState(conn: ConnId, accepts: string -> bool) returns (ok: bool)
      modifies `sessionState, `executed
      ensures !transferEnabled ==> ok && sessionState == old(sessionState) && executed == old(executed)
      ensures transferEnabled ==>
                HasPut(executed, old(executed), conn, QueriesBy(dialect, old(sessionState).GetValues()), accepts, ok)
      ensures sessionState.GetValues() == old(sessionState).GetValues()
      ensures transferEnabled && ok ==> sessionState == old(sessionState).Settled()
    {
      if !transferEnabled { return true; }
      ghost var start, v := executed, sessionState.GetValues();
      ghost var a, r := AskFor(dialect.getSetAutoCommitQuery, v.autoCommit), AskFor(dialect.getSetReadOnlyQuery, v.readOnly);
      ghost var c, s := AskFor(dialect.getSetCatalogQuery, v.catalog), AskFor(dialect.getSetSchemaQuery, v.schema);
      ghost var i := AskFor(dialect.getSetTransactionIsolationQuery, v.isolation);
      ok := PutAutoCommit(conn, accepts);
      if !ok {
        PutsNoMore(start, executed, conn, a, r, accepts);
        PutsNoMore(start, executed, conn, a + r, c, accepts);
        PutsNoMore(start, executed, conn, a + r + c, s, accepts);
        PutsNoMore(start, executed, conn, a + r + c + s, i, accepts);
        return;
      }
      ghost var middle := executed;
      ok := PutReadOnly(conn, accepts);
      PutsMore(start, middle, executed, conn, a, r, accepts, ok);
      if !ok {
        PutsNoMore(start, executed, conn, a + r, c, accepts);
        PutsNoMore(start, executed, conn, a + r + c, s, accepts);
        PutsNoMore(start, executed, conn, a + r + c + s, i, accepts);
        return;
      }
      middle := executed;
      ok := PutCatalog(conn, accepts);
      PutsMore(start, middle, executed, conn, a + r, c, accepts, ok);
      if !ok {
        PutsNoMore(start, executed, conn, a + r + c, s, accepts);
        PutsNoMore(start, executed, conn, a + r + c + s, i, accepts);
        return;
      }
      middle := executed;
      ok := PutSchema(conn, accepts);
      PutsMore(start, middle, executed, conn, a + r + c, s, accepts, ok);
      if !ok {
        PutsNoMore(start, executed, conn, a + r + c + s, i, accepts);
        return;
      }
      middle := executed;
      ok := PutIsolation(conn, accepts);
      PutsMore(start, middle, executed, conn, a + r + c + s, i, accepts, ok);
    }

    /** One pristine value, if there is one, is put back. */
    method PutBack<T>(conn: ConnId, query: T -> Option<string>, pristine: Option<T>, accepts: string -> bool)
      returns (ok: bool)
      modifies `executed
      ensures HasPut(executed, old(executed), conn, AskFor(query, pristine), accepts, ok)
    {
      PutsNothing(executed, conn, accepts);
      if pristine == None { return true; }
      ok := Exec(conn, query(pristine.value), accepts);
    }

    /** What the copy has pristine and different is put back onto the old connection, in the same order, until a query
        is missing or refused. */
    method ApplyPristineSessionState(conn: ConnId, accepts: string -> bool) returns (ok: bool)
      modifies `executed
      ensures !resetEnabled || copySessionState == None ==> ok && executed == old(executed)
      ensures resetEnabled && copySessionState.Some? ==>
                HasPut(executed, old(executed), conn, QueriesBy(dialect, PristineValues(copySessionState.value)), accepts, ok)
    {
      if !resetEnabled || copySessionState == None { return true; }
      var copied := copySessionState.value;
      ghost var start, v := executed, PristineValues(copied);
      ghost var a, r := AskFor(dialect.getSetAutoCommitQuery, v.autoCommit), AskFor(dialect.getSetReadOnlyQuery, v.readOnly);
      ghost var c, s := AskFor(dialect.getSetCatalogQuery, v.catalog), AskFor(dialect.getSetSchemaQuery, v.schema);
      ghost var i := AskFor(dialect.getSetTransactionIsolationQuery, v.isolation);
      ok := PutBack(conn, dialect.getSetAutoCommitQuery, Pristine(copied.autoCommit), accepts);
      if !ok {
        PutsNoMore(start, executed, conn, a, r, accepts);
        PutsNoMore(start, executed, conn, a + r, c, accepts);
        PutsNoMore(start, executed, conn, a + r + c, s, accepts);
        PutsNoMore(start, executed, conn, a + r + c + s, i, accepts);
        return;
      }
      ghost var middle := executed;
      ok := PutBack(conn, dialect.getSetReadOnlyQuery, Pristine(copied.readOnly), accepts);
      PutsMore(start, middle, executed, conn, a, r, accepts, ok);
      if !ok {
        PutsNoMore(start, executed, conn, a + r, c, accepts);
        PutsNoMore(start, executed, conn, a + r + c, s, accepts);
        PutsNoMore(start, executed, conn, a + r + c + s, i, accepts);
        return;
      }
      middle := executed;
      ok := PutBack(conn, dialect.getSetCatalogQuery, Pristine(copied.catalog), accepts);
      PutsMore(start, middle, executed, conn, a + r, c, accepts, ok);
      if !ok {
        PutsNoMore(start, executed, conn, a + r + c, s, accepts);
        PutsNoMore(start, executed, conn, a + r + c + s, i, accepts);
        return;
      }
      middle := executed;
      ok := PutBack(conn, dialect.getSetSchemaQuery, Pristine(copied.schema), accepts);
      PutsMore(start, middle, executed, conn, a + r + c, s, accepts, ok);
      if !ok {
        PutsNoMore(start, executed, conn, a + r + c + s, i, accepts);
        return;
      }
      middle := executed;
      ok := PutBack(conn, dialect.getSetTransactionIsolationQuery, Pristine(copied.isolation), accepts);
      PutsMore(start, middle, executed, conn, a + r + c + s, i, accepts, ok);
    }
  }

  // ---------------------------------------------------------------------------------------------
  // Switching connections
  // ---------------------------------------------------------------------------------------------

  datatype HostChange = HostName | PromotedToWriter | PromotedToReader | WentUp | WentDown | HostChanged
                      | ConnectionObjectChanged | InitialConnection

  /** `compareHostInfos`. */
  method CompareHostInfos(a: HostInfo, b: HostInfo) returns (changes: set<HostChange>)
    ensures HostName in changes <==> a.host != b.host || a.port != b.port
    ensures PromotedToWriter in changes <==> a.role != b.role && b.role == Writer
    ensures PromotedToReader in changes <==> a.role != b.role && b.role == Reader
    ensures WentUp in changes <==> a.availability != b.availability && b.availability == Available
    ensures WentDown in changes <==> a.availability != b.availability && b.availability == Unavailable
    ensures (HostChanged in changes <==> !SameHost(a, b)) && (changes == {} <==> SameHost(a, b))
    ensures ConnectionObjectChanged !in changes && InitialConnection !in changes
  {
    changes := {};
    if a.host != b.host || a.port != b.port {
      changes := changes + {HostName};
    }
    if a.role != b.role {
      match b.role {
        case Writer => changes := changes + {PromotedToWriter};
        case Reader => changes := changes + {PromotedToReader};
        case Unknown =>
      }
    }
    if a.availability != b.availability {
      match b.availability {
        case Available => changes := changes + {WentUp};
        case Unavailable => changes := changes + {WentDown};
      }
    }
    if changes != {} {
      changes := changes + {HostChanged};
    }
  }

  /** Nothing a switch takes notice of has changed; becoming of unknown role is not noticed. */
  predicate SameHost(a: HostInfo, b: HostInfo) {
    a.host == b.host && a.port == b.port && (a.role == b.role || b.role == Unknown) && a.availability == b.availability
  }

  datatype SwitchResult = Switched | NilConn | NilHost | TransferIncomplete | TransferFailed

  class PluginServiceImpl {
    const sessionStateService: SessionStateService
    const rollbackOnSwitch: bool
    var currentConnection: Option<ConnId>
    var currentHostInfo: Option<HostInfo>
    var initialHostInfo: Option<HostInfo>
    var isInTransaction: bool
    var closes: seq<ConnId>
    var rollbacks: seq<ConnId>

    constructor (dialect: DatabaseDialect, transferEnabled: bool, resetEnabled: bool, rollbackOnSwitch: bool)
      ensures fresh(sessionStateService) && sessionStateService.dialect == dialect
      ensures sessionStateService.sessionState == EMPTY && Valid() && currentConnection == None
    {
      sessionStateService := new SessionStateService(dialect, transferEnabled, resetEnabled);
      this.rollbackOnSwitch := rollbackOnSwitch;
      currentConnection, currentHostInfo, initialHostInfo, isInTransaction := None, None, None, false;
      closes, rollbacks := [], [];
    }

    /** Between calls no transfer is under way, and a connection comes with its host. */
    predicate Valid()
      reads this, sessionStateService
    {
      sessionStateService.copySessionState == None && (currentConnection.Some? ==> currentHostInfo.Some?)
    }

    /** `SetCurrentConnection`. `accepts` tells which queries the new connection runs, `oldIsClosed` and `preserve` what
        the driver and the plugins say of the old one. */
    method SetCurrentConnection(conn: Option<ConnId>, hostInfo: Option<HostInfo>, accepts: string -> bool,
                                oldIsClosed: bool, preserve: bool)
      returns (r: SwitchResult)
      requires Valid()
      modifies this, sessionStateService
      ensures Valid() && r != TransferIncomplete
      ensures r == NilConn <==> conn == None
      ensures r == NilHost <==> conn.Some? && hostInfo == None
      ensures r == NilConn || r == NilHost ==> unchanged(this) && unchanged(sessionStateService)
      ensures sessionStateService.sessionState.GetValues()
              == if old(currentConnection) == None && conn.Some? && hostInfo.Some? then NOTHING
                 else old(sessionStateService.sessionState.GetValues())
      ensures conn.Some? && hostInfo.Some? ==>
                if old(currentConnection) == None then
                  && r == Switched && currentConnection == conn && currentHostInfo == hostInfo
                  && initialHostInfo == (if old(initialHostInfo) == None then hostInfo else old(initialHostInfo))
                  && sessionStateService.sessionState == EMPTY && closes == old(closes) && rollbacks == old(rollbacks)
                else if old(currentConnection) == conn && SameHost(old(currentHostInfo).value, hostInfo.value) then
                  r == Switched && unchanged(this) && unchanged(sessionStateService)
                else
                  && currentConnection == conn && currentHostInfo == hostInfo
                  && IsTransfer(old(sessionStateService.sessionState), old(sessionStateService.executed), conn.value,
                                accepts, r == Switched)
                  && (r == Switched || r == TransferFailed)
                  && (r == Switched ==>
                        && !isInTransaction
                        && rollbacks == old(rollbacks)
                                        + (if old(isInTransaction) && rollbackOnSwitch then [old(currentConnection).value] else [])
                        && closes == old(closes)
                                     + (if old(currentConnection) != conn && !oldIsClosed && !preserve
                                        then [old(currentConnection).value] else []))
                  && (r == TransferFailed ==> closes == old(closes) && rollbacks == old(rollbacks)
                                              && isInTransaction == old(isInTransaction))
    {
      if conn == None { return NilConn; }
      if hostInfo == None { return NilHost; }
      if currentConnection == None {
        currentConnection := conn;
        currentHostInfo := hostInfo;
        sessionStateService.Reset();
        if initialHostInfo == None { initialHostInfo := hostInfo; }
        return Switched;
      }
      var changes := CompareHostInfos(currentHostInfo.value, hostInfo.value);
      if currentConnection != conn { changes := changes + {ConnectionObjectChanged}; }
      if changes == {} { return Switched; }
      assert !(currentConnection == conn && SameHost(currentHostInfo.value, hostInfo.value));
      r := Transfer(conn.value, hostInfo.value, changes, accepts, oldIsClosed, preserve);
    }

    /** The part of `SetCurrentConnection` between `Begin` and `Complete`. */
    method Transfer(conn: ConnId, hostInfo: HostInfo, changes: set<HostChange>, accepts: string -> bool,
                    oldIsClosed: bool, preserve: bool)
      returns (r: SwitchResult)
      requires Valid() && currentConnection.Some?
      modifies this, sessionStateService
      ensures Valid() && currentConnection == Some(conn) && currentHostInfo == Some(hostInfo)
      ensures r == Switched || r == TransferFailed
      ensures IsTransfer(old(sessionStateService.sessionState), old(sessionStateService.executed), conn, accepts, r == Switched)
      ensures initialHostInfo == old(initialHostInfo)
      ensures r == Switched ==>
                && !isInTransaction
                && rollbacks == old(rollbacks)
                                + (if old(isInTransaction) && rollbackOnSwitch then [old(currentConnection).value] else [])
                && closes == old(closes)
                             + (if ConnectionObjectChanged in changes && !oldIsClosed && !preserve
                                then [old(currentConnection).value] else [])
      ensures r == TransferFailed ==>
                closes == old(closes) && rollbacks == old(rollbacks) && isInTransaction == old(isInTransaction)
    {
      var begun := sessionStateService.Begin();
      if !begun { return TransferIncomplete; }
      var oldConnection, wasInTransaction := currentConnection.value, isInTransaction;
      currentConnection := Some(conn);
      currentHostInfo := Some(hostInfo);
      var applied := sessionStateService.ApplyCurrentSessionState(conn, accepts);
      if !applied {
        sessionStateService.Complete();
        return TransferFailed;
      }
      isInTransaction := false;
      if wasInTransaction && rollbackOnSwitch { rollbacks := rollbacks + [oldConnection]; }
      if ConnectionObjectChanged in changes && !oldIsClosed && !preserve {
        CopyHasNothingPristine(sessionStateService.dialect, old(sessionStateService.sessionState), accepts);
        assert sessionStateService.executed + OnConn(oldConnection, []) == sessionStateService.executed;
        var restored := sessionStateService.ApplyPristineSessionState(oldConnection, accepts);
        closes := closes + [oldConnection];
      }
      sessionStateService.Complete();
      return Switched;
    }

    /** `UpdateState`: the statements of a query are looked at from the last one until one of them sets something, and
        that is noted. */
    method UpdateState(query: string) returns (panicked: bool)
      requires Valid()
      modifies sessionStateService`sessionState
      ensures var found := LastFound(sessionStateService.dialect.detect, Separate(query));
              && (panicked <==> found == None)
              && sessionStateService.sessionState
                 == if found.Some? && sessionStateService.transferEnabled
                    then old(sessionStateService.sessionState).Noting(found.value)
                    else old(sessionStateService.sessionState)
      ensures forall d: Dialect :: sessionStateService.dialect == DialectOf(d) && sessionStateService.transferEnabled ==>
                sessionStateService.sessionState.GetValues()
                == Tracked(d, old(sessionStateService.sessionState.GetValues()), Query(query))
    {
      forall d: Dialect | sessionStateService.dialect == DialectOf(d)
        ensures var found := LastFound(sessionStateService.dialect.detect, Separate(query));
                (if found.Some? then sessionStateService.sessionState.Noting(found.value)
                 else sessionStateService.sessionState).GetValues()
                == Tracked(d, sessionStateService.sessionState.GetValues(), Query(query))
      {
        NotingTracks(d, sessionStateService.dialect, sessionStateService.sessionState, query);
      }
      var statements := GetSeparateSqlStatements(query);
      var found := NOTHING;
      var i := |statements| - 1;
      assert statements[..i + 1] == statements;
      while i >= 0 && found == NOTHING
        invariant -1 <= i < |statements| && unchanged(sessionStateService)
        invariant LastFound(sessionStateService.dialect.detect, statements)
               == if found == NOTHING then LastFound(sessionStateService.dialect.detect, statements[..i + 1]) else Some(found)
        decreases i
      {
        assert statements[..i + 1][..i] == statements[..i];
        var detected := sessionStateService.dialect.detect(statements[i]);
        if detected == None { return true; }
        found := detected.value;
        i := i - 1;
      }
      sessionStateService.Note(found);
      return false;
    }

    /** What a transfer leaves in the session state service: the tracked values as they were, and their queries run on
        the new connection. */
    ghost predicate IsTransfer(before: SessionState, executed: seq<(ConnId, string)>, conn: ConnId,
                               accepts: string -> bool, ok: bool)
      reads sessionStateService
    {
      && sessionStateService.sessionState.GetValues() == before.GetValues()
      && (if sessionStateService.transferEnabled then
            HasPut(sessionStateService.executed, executed, conn,
                   QueriesBy(sessionStateService.dialect, before.GetValues()), accepts, ok)
          else ok && sessionStateService.executed == executed)
    }
  }

  lemma LastFoundByDialect(d: Dialect, statements: seq<string>)
    ensures LastFound(DialectOf(d).detect, statements) == LastDetected(d, statements)
  {
    LastFoundIsDetected(d, DialectOf(d).detect, statements);
  }

  // ---------------------------------------------------------------------------------------------
  // All runs of a session
  // ---------------------------------------------------------------------------------------------

  /** What happens to a session: a first connection, a query, or a switch to another connection, which may fail. */
  datatype SessionEvent = Connect | Query(sql: string) | Switch

  /** What is tracked after an event. `UpdateState` and `SetCurrentConnection` do just that. */
  function Tracked(d: Dialect, v: Values, event: SessionEvent): Values {
    match event
    case Connect => NOTHING
    case Switch => v
    case Query(sql) =>
      match LastDetected(d, Separate(sql))
      case None => v
      case Some(found) => Overlay(v, found)
  }

  function After(d: Dialect, events: seq<SessionEvent>): Values {
    if events == [] then NOTHING else Tracked(d, After(d, events[..|events| - 1]), events[|events| - 1])
  }

  /** Noting what `UpdateState` has found is tracking the query. */
  lemma NotingTracks(d: Dialect, dialect: DatabaseDialect, before: SessionState, query: string)
    requires dialect == DialectOf(d)
    ensures var found := LastFound(dialect.detect, Separate(query));
            (if found.Some? then before.Noting(found.value) else before).GetValues()
            == Tracked(d, before.GetValues(), Query(query))
  {
    LastFoundByDialect(d, Separate(query));
    var found := LastFound(dialect.detect, Separate(query));
    if found.Some? { NotingOverlays(before, found.value); }
  }

  lemma NotingOverlays(s: SessionState, found: Values)
    ensures s.Noting(found).GetValues() == Overlay(s.GetValues(), found)
  {
  }

  lemma {:induction false} DetectedIsSupported(d: Dialect, statements: seq<string>)
    ensures LastDetected(d, statements).Some? ==> Supported(d, LastDetected(d, statements).value)
  {
    if statements != [] { DetectedIsSupported(d, statements[..|statements| - 1]); }
  }

  predicate CatalogIsWord(v: Values) {
    v.catalog.Some? ==> IsWord(v.catalog.value)
  }

  /** In every run, PostgreSQL sessions never track autocommit or catalog and MySQL sessions never track a schema; and
      every catalog that is tracked is a word. */
  lemma {:induction false} RunsStaySupported(d: Dialect, events: seq<SessionEvent>)
    ensures Supported(d, After(d, events)) && CatalogIsWord(After(d, events))
  {
    if events != [] {
      RunsStaySupported(d, events[..|events| - 1]);
      match events[|events| - 1] {
        case Connect =>
        case Switch =>
        case Query(sql) =>
          DetectedIsSupported(d, Separate(sql));
          DetectedCatalogIsWord(d, Separate(sql));
      }
    }
  }

  /** So no transfer ever reaches a query the dialect does not have: it fails only when the connection refuses one. And
      reading its queries back gives the tracked values, under MySQL always, and under PostgreSQL when the schema among
      them, if any, is one that survives. */
  lemma TransfersAreFaithful(d: Dialect, events: seq<SessionEvent>, accepts: string -> bool)
    ensures var v := After(d, events);
            && (!Issued(QueriesBy(DialectOf(d), v), accepts).1 ==>
                  exists q :: Some(q) in QueriesBy(DialectOf(d), v) && !accepts(q))
            && (d == MySQL || v.schema == None || Survives(v.schema.value) ==>
                  Replay(d, NOTHING, QueriesBy(DialectOf(d), v)) == Some(v))
  {
    var v := After(d, events);
    RunsStaySupported(d, events);
    QueriesByDialect(d, v);
    NothingIsMissing(d, v, accepts);
    if d == MySQL || v.schema == None || Survives(v.schema.value) { TransferPreservesMeaning(d, v); }
  }
}
